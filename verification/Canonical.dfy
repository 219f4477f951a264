/** The versioned length-prefixed material behind request_hash (internal/canonical). */
module Canonical {
  import opened Numerals
  import Money
  import Quantity

  const VERSION_V1 := "canonical_v1"
  const VERSION_V2 := "canonical_v2"

  datatype Line = Line(lineId: string, description: string, quantity: Quantity.Scaled, unitPrice: Money.Cents,
                       taxCode: string)

  datatype DocumentIntent = DocumentIntent(
    scopeId: string, externalId: string, documentType: string, currency: string,
    issuedAtUTC: string, issuedTimezone: string, issuedOffsetMinutes: int, requestedSeries: string,
    sellerTaxId: string, sellerName: string, customerTaxId: string, customerName: string,
    lines: seq<Line>)

  datatype Projection = Projection(seriesCode: string, intent: DocumentIntent)

  /** One record: byte length in decimal, a colon, the bytes. */
  function Record(s: string): string {
    FormatNat(|s|) + ":" + s
  }

  function Records(fields: seq<string>): string {
    if fields == [] then "" else Record(fields[0]) + Records(fields[1..])
  }

  function LineFields(ln: Line): seq<string> {
    ["line.line_id", ln.lineId,
     "line.description", ln.description,
     "line.quantity", Quantity.FormatCanonical(ln.quantity),
     "line.unit_price", Money.FormatCanonical(ln.unitPrice),
     "line.tax_code", ln.taxCode]
  }

  function LinesFields(lines: seq<Line>): (fields: seq<string>)
    ensures |fields| == 10 * |lines|
  {
    if lines == [] then [] else LineFields(lines[0]) + LinesFields(lines[1..])
  }

  function TemporalFields(p: Projection, withTemporal: bool): seq<string> {
    if withTemporal then
      ["issued_timezone", p.intent.issuedTimezone,
       "issued_offset_minutes", FormatInt(p.intent.issuedOffsetMinutes)]
    else []
  }

  function IdentityFields(p: Projection): seq<string> {
    ["scope_id", p.intent.scopeId,
     "external_id", p.intent.externalId,
     "document_type", p.intent.documentType,
     "currency", p.intent.currency,
     "issued_at", p.intent.issuedAtUTC]
  }

  function PartyFields(p: Projection): seq<string> {
    ["requested_series", p.intent.requestedSeries,
     "series_code", p.seriesCode,
     "seller_tax_id", p.intent.sellerTaxId,
     "seller_name", p.intent.sellerName,
     "customer_tax_id", p.intent.customerTaxId,
     "customer_name", p.intent.customerName,
     "lines_count", FormatNat(|p.intent.lines|)]
  }

  function HeaderFields(p: Projection, withTemporal: bool): seq<string> {
    IdentityFields(p) + TemporalFields(p, withTemporal) + PartyFields(p)
  }

  /** The whole material: a version line, then every key and value as a record. */
  function Material(version: string, p: Projection, withTemporal: bool): string {
    version + "\n" + Records(HeaderFields(p, withTemporal) + LinesFields(p.intent.lines))
  }

  function MaterializeV1(p: Projection): string {
    Material(VERSION_V1, p, false)
  }

  function MaterializeV2(p: Projection): string {
    Material(VERSION_V2, p, true)
  }

  /** The string builder the material is appended to: a head, then the records of the fields written so far. */
  class Builder {
    var text: string
    ghost var head: string
    ghost var fields: seq<string>

    ghost predicate Valid()
      reads this
    {
      text == head + Records(fields)
    }

    constructor ()
      ensures Valid() && text == "" && head == "" && fields == []
    {
      text, head, fields := "", "", [];
    }

    method WriteString(s: string)
      requires Valid() && fields == []
      modifies this
      ensures Valid() && fields == [] && head == old(head) + s
    {
      text := text + s;
      head := head + s;
    }

    method WriteLV(s: string)
      requires Valid()
      modifies this
      ensures Valid() && head == old(head) && fields == old(fields) + [s]
    {
      ghost var before := text;
      text := text + FormatInt(|s|);
      text := text + ":";
      text := text + s;
      assert text == before + Record(s);
      RecordsSnoc(fields, s);
      assert text == head + (Records(fields) + Record(s));
      fields := fields + [s];
    }

    method WriteField(key: string, value: string)
      requires Valid()
      modifies this
      ensures Valid() && head == old(head) && fields == old(fields) + [key, value]
    {
      WriteLV(key);
      WriteLV(value);
    }
  }

  lemma {:induction false} RecordsSnoc(fields: seq<string>, s: string)
    ensures Records(fields + [s]) == Records(fields) + Record(s)
  {
    if fields != [] {
      RecordsSnoc(fields[1..], s);
      assert (fields + [s])[1..] == fields[1..] + [s];
    }
  }

  lemma {:induction false} LinesFieldsSnoc(lines: seq<Line>, n: nat)
    requires n < |lines|
    ensures LinesFields(lines[..n + 1]) == LinesFields(lines[..n]) + LineFields(lines[n])
  {
    hide LineFields;
    if n > 0 {
      LinesFieldsSnoc(lines[1..], n - 1);
      assert lines[..n + 1][1..] == lines[1..][..n] && lines[..n][1..] == lines[1..][..n - 1];
    }
  }

  method WriteLine(b: Builder, ln: Line)
    requires b.Valid()
    modifies b
    ensures b.Valid() && b.head == old(b.head) && b.fields == old(b.fields) + LineFields(ln)
  {
    hide Records;
    b.WriteField("line.line_id", ln.lineId);
    b.WriteField("line.description", ln.description);
    b.WriteField("line.quantity", Quantity.FormatCanonical(ln.quantity));
    b.WriteField("line.unit_price", Money.FormatCanonical(ln.unitPrice));
    b.WriteField("line.tax_code", ln.taxCode);
  }

  method WriteHeader(b: Builder, p: Projection, withTemporal: bool)
    requires b.Valid() && b.fields == []
    modifies b
    ensures b.Valid() && b.head == old(b.head) && b.fields == HeaderFields(p, withTemporal)
  {
    hide Records;
    WriteIdentity(b, p);
    if withTemporal {
      b.WriteField("issued_timezone", p.intent.issuedTimezone);
      b.WriteField("issued_offset_minutes", FormatInt(p.intent.issuedOffsetMinutes));
    }
    WriteParties(b, p);
  }

  method WriteIdentity(b: Builder, p: Projection)
    requires b.Valid()
    modifies b
    ensures b.Valid() && b.head == old(b.head) && b.fields == old(b.fields) + IdentityFields(p)
  {
    hide Records;
    b.WriteField("scope_id", p.intent.scopeId);
    b.WriteField("external_id", p.intent.externalId);
    b.WriteField("document_type", p.intent.documentType);
    b.WriteField("currency", p.intent.currency);
    b.WriteField("issued_at", p.intent.issuedAtUTC);
  }

  method WriteParties(b: Builder, p: Projection)
    requires b.Valid()
    modifies b
    ensures b.Valid() && b.head == old(b.head) && b.fields == old(b.fields) + PartyFields(p)
  {
    hide Records;
    b.WriteField("requested_series", p.intent.requestedSeries);
    b.WriteField("series_code", p.seriesCode);
    b.WriteField("seller_tax_id", p.intent.sellerTaxId);
    b.WriteField("seller_name", p.intent.sellerName);
    b.WriteField("customer_tax_id", p.intent.customerTaxId);
    b.WriteField("customer_name", p.intent.customerName);
    b.WriteField("lines_count", FormatInt(|p.intent.lines|));
  }

  method Materialize(version: string, p: Projection, withTemporal: bool) returns (text: string)
    ensures text == Material(version, p, withTemporal)
  {
    hide Records, LinesFields, HeaderFields;
    var b := new Builder();
    b.WriteString(version);
    b.WriteString("\n");
    WriteHeader(b, p, withTemporal);
    var lines := p.intent.lines;
    for i := 0 to |lines|
      invariant b.Valid() && b.head == version + "\n"
      invariant b.fields == HeaderFields(p, withTemporal) + LinesFields(lines[..i])
    {
      WriteLine(b, lines[i]);
      LinesFieldsSnoc(lines, i);
    }
    assert lines[..|lines|] == lines;
    text := b.text;
  }

  /** Decimal lengths contain no colon, so a record can be told from whatever follows it. */
  lemma RecordDecodes(a: string, b: string, x: string, y: string)
    requires Record(a) + x == Record(b) + y
    ensures a == b && x == y
  {
    var u, v := FormatNat(|a|), FormatNat(|b|);
    var s := Record(a) + x;
    PrefixBeforeColon(u, v, a + x, b + y) by {
      assert s == u + ":" + (a + x) == v + ":" + (b + y);
    }
    FormatNatValue(|a|);
    FormatNatValue(|b|);
    assert (a + x)[..|a|] == a && (b + y)[..|b|] == b;
    assert (a + x)[|a|..] == x && (b + y)[|b|..] == y;
  }

  lemma PrefixBeforeColon(u: string, v: string, x: string, y: string)
    requires AllDigits(u) && AllDigits(v)
    requires u + ":" + x == v + ":" + y
    ensures u == v && x == y
  {
    var s := u + ":" + x;
    assert s[|u|] == ':' && s[|v|] == ':';
    assert forall i :: 0 <= i < |u| ==> s[i] == u[i] && IsDigit(s[i]);
    assert forall i :: 0 <= i < |v| ==> s[i] == v[i] && IsDigit(s[i]);
    assert |u| == |v|;
    assert s[..|u|] == u && s[..|v|] == v;
    assert s[|u| + 1..] == x && s[|v| + 1..] == y;
  }

  /** The records of a field list determine the list. */
  lemma {:induction false} RecordsDecode(f: seq<string>, g: seq<string>)
    requires Records(f) == Records(g)
    ensures f == g
  {
    if f != [] && g != [] {
      RecordDecodes(f[0], g[0], Records(f[1..]), Records(g[1..]));
      RecordsDecode(f[1..], g[1..]);
    }
  }

  lemma {:induction false} LinesFieldsDecode(a: seq<Line>, b: seq<Line>)
    requires LinesFields(a) == LinesFields(b)
    ensures a == b
  {
    if a != [] && b != [] {
      var f, g := LinesFields(a), LinesFields(b);
      assert f[..10] == LineFields(a[0]) && f[10..] == LinesFields(a[1..]);
      assert g[..10] == LineFields(b[0]) && g[10..] == LinesFields(b[1..]);
      LineFieldsDecode(a[0], b[0]);
      LinesFieldsDecode(a[1..], b[1..]);
    }
  }

  lemma LineFieldsDecode(a: Line, b: Line)
    requires LineFields(a) == LineFields(b)
    ensures a == b
  {
    var f, g := LineFields(a), LineFields(b);
    assert f[1] == g[1] && f[3] == g[3] && f[5] == g[5] && f[7] == g[7] && f[9] == g[9];
    Quantity.FormatInjective(a.quantity, b.quantity);
    Money.FormatInjective(a.unitPrice, b.unitPrice);
  }

  lemma HeaderFieldsDecode(p: Projection, q: Projection)
    requires HeaderFields(p, true) == HeaderFields(q, true)
    requires p.intent.lines == q.intent.lines
    ensures p == q
  {
    var f, g := HeaderFields(p, true), HeaderFields(q, true);
    assert f[1] == g[1] && f[3] == g[3] && f[5] == g[5] && f[7] == g[7] && f[9] == g[9] && f[11] == g[11];
    assert f[13] == g[13] && f[15] == g[15] && f[17] == g[17] && f[19] == g[19];
    assert f[21] == g[21] && f[23] == g[23] && f[25] == g[25];
    FormatIntInjective(p.intent.issuedOffsetMinutes, q.intent.issuedOffsetMinutes);
  }

  /** Equal version 2 materials come from equal projections: series, every intent field, every line in order. */
  lemma MaterializeV2Injective(p: Projection, q: Projection)
    requires MaterializeV2(p) == MaterializeV2(q)
    ensures p == q
  {
    var hp, hq := HeaderFields(p, true), HeaderFields(q, true);
    var lp, lq := LinesFields(p.intent.lines), LinesFields(q.intent.lines);
    var head := VERSION_V2 + "\n";
    assert MaterializeV2(p)[|head|..] == Records(hp + lp) && MaterializeV2(q)[|head|..] == Records(hq + lq);
    RecordsDecode(hp + lp, hq + lq);
    assert |hp| == 28 == |hq|;
    assert (hp + lp)[..28] == hp && (hq + lq)[..28] == hq;
    assert (hp + lp)[28..] == lp && (hq + lq)[28..] == lq;
    LinesFieldsDecode(p.intent.lines, q.intent.lines);
    HeaderFieldsDecode(p, q);
  }

  /** The frozen algorithm forgets the zone and the offset, and nothing else. */
  lemma MaterializeV1Determines(p: Projection, q: Projection)
    ensures MaterializeV1(p) == MaterializeV1(q) <==>
            q == p.(intent := p.intent.(issuedTimezone := q.intent.issuedTimezone,
                                        issuedOffsetMinutes := q.intent.issuedOffsetMinutes))
  {
    if MaterializeV1(p) == MaterializeV1(q) {
      var hp, hq := HeaderFields(p, false), HeaderFields(q, false);
      var lp, lq := LinesFields(p.intent.lines), LinesFields(q.intent.lines);
      var head := VERSION_V1 + "\n";
      assert MaterializeV1(p)[|head|..] == Records(hp + lp) && MaterializeV1(q)[|head|..] == Records(hq + lq);
      RecordsDecode(hp + lp, hq + lq);
      assert |hp| == 24 == |hq|;
      assert (hp + lp)[..24] == hp && (hq + lq)[..24] == hq;
      assert (hp + lp)[24..] == lp && (hq + lq)[24..] == lq;
      LinesFieldsDecode(p.intent.lines, q.intent.lines);
      assert hp[1] == hq[1] && hp[3] == hq[3] && hp[5] == hq[5] && hp[7] == hq[7] && hp[9] == hq[9];
      assert hp[11] == hq[11] && hp[13] == hq[13] && hp[15] == hq[15];
      assert hp[17] == hq[17] && hp[19] == hq[19] && hp[21] == hq[21];
    }
  }

  /** No projection's version 1 material is any projection's version 2 material. */
  lemma VersionsNeverCoincide(p: Projection, q: Projection)
    ensures MaterializeV1(p) != MaterializeV2(q)
  {
    assert MaterializeV1(p)[11] == VERSION_V1[11] == '1' && MaterializeV2(q)[11] == VERSION_V2[11] == '2';
  }

  // ----- what the material says -----

  /** The k-th name of the material, with its value right behind it. */
  predicate Says(fields: seq<string>, k: nat, name: string, value: string) {
    2 * k + 1 < |fields| && fields[2 * k] == name && fields[2 * k + 1] == value
  }

  /** A line's names and values stand together, behind those of the lines before it. */
  lemma {:induction false} LineStands(lines: seq<Line>, i: nat)
    requires i < |lines|
    ensures LinesFields(lines)[10 * i..10 * i + 10] == LineFields(lines[i])
  {
    hide LineFields;
    var f := LinesFields(lines);
    if i == 0 {
      assert f[..10] == LineFields(lines[0]);
    } else {
      LineStands(lines[1..], i - 1);
      assert f[10..] == LinesFields(lines[1..]);
      hide LinesFields;
      assert f[10 * i..10 * i + 10] == f[10..][10 * (i - 1)..10 * (i - 1) + 10];
    }
  }

  /** Every field stands under its own name, in this order; the lines follow, each with its five. */
  lemma HeaderSays(p: Projection)
    ensures var f, doc := HeaderFields(p, true), p.intent;
            && |f| == 28
            && Says(f, 0, "scope_id", doc.scopeId) && Says(f, 1, "external_id", doc.externalId)
            && Says(f, 2, "document_type", doc.documentType) && Says(f, 3, "currency", doc.currency)
            && Says(f, 4, "issued_at", doc.issuedAtUTC) && Says(f, 5, "issued_timezone", doc.issuedTimezone)
            && Says(f, 6, "issued_offset_minutes", FormatInt(doc.issuedOffsetMinutes))
            && Says(f, 7, "requested_series", doc.requestedSeries) && Says(f, 8, "series_code", p.seriesCode)
            && Says(f, 9, "seller_tax_id", doc.sellerTaxId) && Says(f, 10, "seller_name", doc.sellerName)
            && Says(f, 11, "customer_tax_id", doc.customerTaxId) && Says(f, 12, "customer_name", doc.customerName)
            && Says(f, 13, "lines_count", FormatNat(|doc.lines|))
    ensures HeaderFields(p, false) == HeaderFields(p, true)[..10] + HeaderFields(p, true)[14..]
  {
    hide FormatInt, FormatNat;
  }

  /**
   The material of both versions: a version line, then length-prefixed names and values - those of the header, without
   the temporal pairs in version 1, and those of the lines.
   */
  lemma MaterialSays(p: Projection)
    ensures var header, lines := HeaderFields(p, true), LinesFields(p.intent.lines);
            && MaterializeV2(p) == "canonical_v2\n" + Records(header + lines)
            && MaterializeV1(p) == "canonical_v1\n" + Records(header[..10] + header[14..] + lines)
  {
    HeaderSays(p);
    assert VERSION_V1 + "\n" == "canonical_v1\n" && VERSION_V2 + "\n" == "canonical_v2\n";
    hide LinesFields, HeaderFields, Records, Says;
  }

  /** Each line says its five things, in the lines' order. */
  lemma LineSays(lines: seq<Line>, i: nat)
    requires i < |lines|
    ensures |LinesFields(lines)| == 10 * |lines|
    ensures LinesFields(lines)[10 * i..10 * i + 10] ==
            ["line.line_id", lines[i].lineId, "line.description", lines[i].description,
             "line.quantity", Quantity.FormatCanonical(lines[i].quantity),
             "line.unit_price", Money.FormatCanonical(lines[i].unitPrice), "line.tax_code", lines[i].taxCode]
  {
    hide Quantity.FormatCanonical, Money.FormatCanonical, LinesFields;
    LineStands(lines, i);
  }
}
