/**
 What an accepted request body becomes, field by field, and what a refused one is told
 (internal/httpapi/documents.go, internal/persistence/seal_tx.go).
 */
module IntakeEffects {
  import opened Prelude
  import opened Text
  import opened Canonical
  import opened SealGate
  import opened DocumentIntake
  import opened Tables
  import opened Sealing
  import opened SealingEffects
  import Numerals
  import Money
  import Quantity
  import FiscalTime

  /** The body's customer and seller; an absent customer counts as one without name and number. */
  function SellerOf(body: Body): Party
    requires body.seller.Some?
  {
    body.seller.value
  }

  function CustomerOf(body: Body): Party {
    match body.customer
    case None => Party("", "")
    case Some(p) => p
  }

  /** A line stands for a body line: the same texts, and numbers whose canonical texts are the body's. */
  predicate StandsFor(line: Line, ln: BodyLine) {
    && line.lineId == ln.lineId && line.description == ln.description && line.taxCode == ln.taxCode
    && Quantity.FormatCanonical(line.quantity) == ln.quantity && Money.FormatCanonical(line.unitPrice) == ln.unitPrice
    && line.quantity > 0
  }

  lemma LineStands(ln: BodyLine)
    requires Numeric(ln)
    ensures StandsFor(LineOf(ln), ln)
  {
    hide Quantity.Parsed, Money.ParseCanonical, Quantity.FormatCanonical, Money.FormatCanonical;
    Quantity.FormatAfterParse(ln.quantity);
    Money.FormatAfterParse(ln.unitPrice);
  }

  /** Every field of the body is in its own place in the intent. */
  ghost predicate Carries(intent: DocumentIntent, scopeId: string, body: Body, issued: FiscalTime.NormalizedIssued) {
    && body.seller.Some?
    && intent.scopeId == scopeId && intent.externalId == body.externalId
    && intent.documentType == body.documentType && intent.currency == body.currency
    && intent.issuedAtUTC == issued.utcString && intent.issuedTimezone == issued.timezone
    && intent.issuedOffsetMinutes == issued.offsetMinutes && intent.requestedSeries == body.requestedSeries
    && Party(intent.sellerTaxId, intent.sellerName) == SellerOf(body)
    && Party(intent.customerTaxId, intent.customerName) == CustomerOf(body)
    && |intent.lines| == |body.lines|
    && forall i :: 0 <= i < |body.lines| ==> StandsFor(intent.lines[i], body.lines[i])
  }

  /** An accepted body is carried into the intent with every field in its own place. */
  lemma BodyCarried(scopeId: string, body: Body, issued: FiscalTime.NormalizedIssued)
    requires Mapped(scopeId, body, issued).Ok?
    ensures Carries(Mapped(scopeId, body, issued).value, scopeId, body, issued)
  {
    AcceptsExactlyMappable(scopeId, body, issued);
    hide LineErrors, ErrorsUpTo, LinesUpTo, Quantity.Parsed, Money.ParseCanonical, StandsFor, LineOf, HeaderErrors;
    forall i | 0 <= i < |body.lines|
      ensures Numeric(body.lines[i]) && StandsFor(LineOf(body.lines[i]), body.lines[i])
    {
      assert CompleteBodyLine(body.lines[i]);
      LineStands(body.lines[i]);
    }
  }

  // ----- sealed -----

  /** A stored line stands for a body line, numbered from one. */
  predicate RowStandsFor(row: LineRow, i: nat, ln: BodyLine) {
    && row.lineNo == i + 1 && row.lineId == ln.lineId && row.description == ln.description && row.taxCode == ln.taxCode
    && Quantity.FormatCanonical(row.quantityScaled) == ln.quantity
    && Money.FormatCanonical(row.unitPriceCents) == ln.unitPrice
  }

  /** The document and lines stored under this identifier are the body's. */
  ghost predicate StoredFor(db: Db, d: Id, scopeId: string, body: Body, issued: FiscalTime.NormalizedIssued,
                            series: string) {
    && d in db.documents && d in db.lines && body.seller.Some?
    && var doc, rows := db.documents[d], db.lines[d];
       && doc.scopeId == scopeId && doc.externalId == body.externalId && doc.documentType == body.documentType
       && doc.currency == body.currency && doc.issuedAt == issued.utcString && doc.issuedTimezone == issued.timezone
       && doc.issuedOffsetMinutes == issued.offsetMinutes && Kept(doc.requestedSeries, body.requestedSeries)
       && doc.seriesCode == TrimSpace(series)
       && doc.sellerTaxId == SellerOf(body).taxId && doc.sellerName == SellerOf(body).name
       && Kept(doc.customerTaxId, CustomerOf(body).taxId) && Kept(doc.customerName, CustomerOf(body).name)
       && |rows| == |body.lines| && forall i :: 0 <= i < |rows| ==> RowStandsFor(rows[i], i, body.lines[i])
  }

  /**
   A fresh seal of an accepted body stores that body: its seller and customer, its texts, its lines in their order, with
   the numbers it wrote.
   */
  lemma AcceptedBodyIsStored(db: Db, digest: string -> string, cal: FiscalTime.Calendar, scopeId: string, body: Body,
                             issued: FiscalTime.NormalizedIssued, key: string, series: string, ids: SealIds, now: Time)
    requires SealInv(db, digest) && FreshIds(db, ids) && Mapped(scopeId, body, issued).Ok?
    requires Prepared(cal, SealRequest(key, series, Mapped(scopeId, body, issued).value)).Ok?
    requires var req := Prepared(cal, SealRequest(key, series, Mapped(scopeId, body, issued).value)).value;
             KeyOf(req) !in db.idempotency && SealTx(db, req, HashOf(digest, req), ids, now).Commit?
    ensures var req := Prepared(cal, SealRequest(key, series, Mapped(scopeId, body, issued).value)).value;
            StoredFor(SealTx(db, req, HashOf(digest, req), ids, now).db, ids.documentId, scopeId, body, issued, series)
  {
    var intent := Mapped(scopeId, body, issued).value;
    var sent := SealRequest(key, series, intent);
    var req := Prepared(cal, sent).value;
    hide *;
    BodyCarried(scopeId, body, issued);
    AcceptsExactlySealable(cal, sent);
    FreshSealWrites(db, digest, req, ids, now);
    var tx := SealTx(db, req, HashOf(digest, req), ids, now);
    WrittenIsStored(db, tx.db, req, HashOf(digest, req), ids, now, tx.value.fiscalSeq, scopeId, body, issued, series);
  }

  lemma FreshSealWrites(db: Db, digest: string -> string, req: SealRequest, ids: SealIds, now: Time)
    requires SealInv(db, digest) && FreshIds(db, ids) && KeyOf(req) !in db.idempotency
    requires SealTx(db, req, HashOf(digest, req), ids, now).Commit?
    ensures var tx := SealTx(db, req, HashOf(digest, req), ids, now);
            Written(db, tx.db, req, HashOf(digest, req), ids, now, tx.value.fiscalSeq)
  {
    hide *;
    FreshSealDoes(db, digest, req, ids, now);
  }

  lemma WrittenIsStored(before: Db, after: Db, req: SealRequest, hash: string, ids: SealIds, now: Time, n: nat,
                        scopeId: string, body: Body, issued: FiscalTime.NormalizedIssued, series: string)
    requires Written(before, after, req, hash, ids, now, n) && Carries(req.intent, scopeId, body, issued)
    requires req.seriesCode == TrimSpace(series)
    ensures StoredFor(after, ids.documentId, scopeId, body, issued, series)
  {
    hide TrimSpace, Quantity.FormatCanonical, Money.FormatCanonical;
  }

  // ----- refused -----

  /** What is wrong with a body's header, and the error that says so. */
  predicate HeaderWrong(e: FieldError, body: Body) {
    || (e == FieldError("external_id", "REQUIRED") && Blank(body.externalId))
    || (e == FieldError("external_id", "MAX_LENGTH") && |body.externalId| > 100)
    || (e == FieldError("document_type", "INVALID_ENUM") &&
        body.documentType != "invoice" && body.documentType != "credit_note")
    || (e == FieldError("currency", "INVALID_ENUM") && body.currency != "AOA")
    || (e == FieldError("seller", "REQUIRED") && body.seller.None?)
    || (e == FieldError("seller.tax_id", "REQUIRED") && body.seller.Some? && Blank(body.seller.value.taxId))
    || (e == FieldError("seller.name", "REQUIRED") && body.seller.Some? && Blank(body.seller.value.name))
    || (e == FieldError("lines", "REQUIRED") && body.lines == [])
  }

  /** What is wrong with the i-th line; its price is looked at only when its quantity is one. */
  predicate LineWrong(e: FieldError, ln: BodyLine, i: nat) {
    var line := "lines[" + Numerals.FormatNat(i) + "]";
    || (e == FieldError(line + ".line_id", "REQUIRED") && Blank(ln.lineId))
    || (e == FieldError(line + ".description", "REQUIRED") && Blank(ln.description))
    || (e == FieldError(line + ".tax_code", "REQUIRED") && Blank(ln.taxCode))
    || (e == FieldError(line + ".quantity", "INVALID_FORMAT") && !Quantity.Canonical(ln.quantity))
    || (e == FieldError(line + ".unit_price", "INVALID_FORMAT") &&
        Quantity.Canonical(ln.quantity) && !Money.Canonical(ln.unitPrice))
  }

  ghost predicate LineWrongAt(e: FieldError, lines: seq<BodyLine>, i: nat) {
    i < |lines| && LineWrong(e, lines[i], i)
  }

  lemma RequiredNames(e: FieldError, field: string, v: string)
    ensures e in Required(field, v) <==> e == FieldError(field, "REQUIRED") && Blank(v)
  {
  }

  lemma HeaderNames(e: FieldError, body: Body)
    ensures e in HeaderErrors(body) <==> HeaderWrong(e, body)
  {
    hide Required, Blank;
    RequiredNames(e, "external_id", body.externalId);
    if body.seller.Some? {
      RequiredNames(e, "seller.tax_id", body.seller.value.taxId);
      RequiredNames(e, "seller.name", body.seller.value.name);
    }
  }

  lemma LineNames(e: FieldError, ln: BodyLine, i: nat)
    ensures e in LineErrors(ln, i) <==> LineWrong(e, ln, i)
  {
    hide Required, Blank, Numerals.FormatNat, Quantity.Parsed, Money.ParseCanonical, Quantity.Canonical,
         Money.Canonical;
    var line := "lines[" + Numerals.FormatNat(i) + "]";
    RequiredNames(e, line + ".line_id", ln.lineId);
    RequiredNames(e, line + ".description", ln.description);
    RequiredNames(e, line + ".tax_code", ln.taxCode);
    Quantity.FormatAfterParse(ln.quantity);
    Money.FormatAfterParse(ln.unitPrice);
  }

  lemma {:induction false} LinesName(e: FieldError, lines: seq<BodyLine>, n: nat)
    requires n <= |lines|
    ensures e in ErrorsUpTo(lines, n) <==> exists i: nat :: i < n && LineWrongAt(e, lines, i)
  {
    hide LineErrors, LineWrong;
    if n > 0 {
      LinesName(e, lines, n - 1);
      LineNames(e, lines[n - 1], n - 1);
      assert LineWrongAt(e, lines, n - 1) <==> LineWrong(e, lines[n - 1], n - 1);
    }
  }

  /** A refused body is told exactly what is wrong with it. */
  lemma RefusalsMean(scopeId: string, body: Body, issued: FiscalTime.NormalizedIssued, e: FieldError)
    requires Mapped(scopeId, body, issued).Err?
    ensures e in Mapped(scopeId, body, issued).error <==>
            HeaderWrong(e, body) || exists i: nat :: i < |body.lines| && LineWrongAt(e, body.lines, i)
  {
    HeaderNames(e, body);
    LinesName(e, body.lines, |body.lines|);
    hide HeaderErrors, ErrorsUpTo, HeaderWrong, LineWrongAt, IntentOf;
  }
}
