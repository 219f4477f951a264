/** The first validation gate: from the decoded request body to a document intent (internal/httpapi/documents.go). */
module DocumentIntake {
  import opened Prelude
  import opened Text
  import opened Canonical
  import opened SealGate
  import Numerals
  import Money
  import Quantity
  import FiscalTime

  datatype Party = Party(taxId: string, name: string)

  datatype BodyLine = BodyLine(lineId: string, description: string, quantity: string, unitPrice: string,
                               taxCode: string)

  datatype Body = Body(externalId: string, documentType: string, currency: string, requestedSeries: string,
                       seller: Option<Party>, customer: Option<Party>, lines: seq<BodyLine>)

  datatype FieldError = FieldError(field: string, code: string)

  /** The in-place decimal formatter: digits fill a fixed buffer from the right. */
  method Itoa(i: nat) returns (s: string)
    requires i < 1_000_000_000_000
    ensures i > 0 ==> s == Numerals.FormatNat(i)
    ensures i == 0 ==> s == "0"
  {
    if i == 0 {
      return "0";
    }
    var b := new char[12];
    var pos, rest := 12, i;
    Money.Pow10Table();
    while rest > 0
      invariant 0 <= pos <= 12 && 0 <= rest < Numerals.Pow10(pos)
      invariant (if rest == 0 then "" else Numerals.FormatNat(rest)) + b[pos..] == Numerals.FormatNat(i)
    {
      pos := pos - 1;
      ghost var tail := b[pos + 1..];
      b[pos] := Numerals.DigitChar(rest % 10);
      assert b[pos..] == [b[pos]] + tail;
      rest := rest / 10;
    }
    s := b[pos..];
  }

  function Required(field: string, v: string): seq<FieldError> {
    if Blank(v) then [FieldError(field, "REQUIRED")] else []
  }

  function HeaderErrors(body: Body): seq<FieldError> {
    Required("external_id", body.externalId)
    + (if |body.externalId| > 100 then [FieldError("external_id", "MAX_LENGTH")] else [])
    + (if body.documentType !in {"invoice", "credit_note"} then [FieldError("document_type", "INVALID_ENUM")] else [])
    + (if body.currency != "AOA" then [FieldError("currency", "INVALID_ENUM")] else [])
    + (match body.seller
       case None => [FieldError("seller", "REQUIRED")]
       case Some(p) => Required("seller.tax_id", p.taxId) + Required("seller.name", p.name))
    + (if body.lines == [] then [FieldError("lines", "REQUIRED")] else [])
  }

  function LineErrors(ln: BodyLine, i: nat): seq<FieldError> {
    var prefix := "lines[" + Numerals.FormatNat(i) + "]";
    Required(prefix + ".line_id", ln.lineId)
    + Required(prefix + ".description", ln.description)
    + Required(prefix + ".tax_code", ln.taxCode)
    + (if Quantity.Parsed(ln.quantity).Err? then [FieldError(prefix + ".quantity", "INVALID_FORMAT")]
       else if Money.ParseCanonical(ln.unitPrice).Err? then [FieldError(prefix + ".unit_price", "INVALID_FORMAT")]
       else [])
  }

  predicate Numeric(ln: BodyLine) {
    Quantity.Parsed(ln.quantity).Ok? && Money.ParseCanonical(ln.unitPrice).Ok?
  }

  function LineOf(ln: BodyLine): Line
    requires Numeric(ln)
  {
    Line(ln.lineId, ln.description, Quantity.Parsed(ln.quantity).value, Money.ParseCanonical(ln.unitPrice).value,
         ln.taxCode)
  }

  /** Errors and lines collected from the first n body lines. */
  function ErrorsUpTo(lines: seq<BodyLine>, n: nat): seq<FieldError>
    requires n <= |lines|
  {
    if n == 0 then [] else ErrorsUpTo(lines, n - 1) + LineErrors(lines[n - 1], n - 1)
  }

  function LinesUpTo(lines: seq<BodyLine>, n: nat): seq<Line>
    requires n <= |lines|
  {
    if n == 0 then []
    else if Numeric(lines[n - 1]) then LinesUpTo(lines, n - 1) + [LineOf(lines[n - 1])]
    else LinesUpTo(lines, n - 1)
  }

  function IntentOf(scopeId: string, body: Body, issued: FiscalTime.NormalizedIssued): DocumentIntent {
    DocumentIntent(
      scopeId, body.externalId, body.documentType, body.currency,
      issued.utcString, issued.timezone, issued.offsetMinutes, body.requestedSeries,
      if body.seller.Some? then body.seller.value.taxId else "",
      if body.seller.Some? then body.seller.value.name else "",
      if body.customer.Some? then body.customer.value.taxId else "",
      if body.customer.Some? then body.customer.value.name else "",
      LinesUpTo(body.lines, |body.lines|))
  }

  function Mapped(scopeId: string, body: Body, issued: FiscalTime.NormalizedIssued)
    : Result<DocumentIntent, seq<FieldError>>
  {
    var errs := HeaderErrors(body) + ErrorsUpTo(body.lines, |body.lines|);
    if errs != [] then Err(errs) else Ok(IntentOf(scopeId, body, issued))
  }

  /** The loop body of mapIntent. */
  method MapLine(ln: BodyLine, i: nat) returns (errs: seq<FieldError>, line: Option<Line>)
    requires i < 1_000_000_000_000
    ensures errs == LineErrors(ln, i)
    ensures line == if Numeric(ln) then Some(LineOf(ln)) else None
  {
    hide Quantity.Parsed, Money.ParseCanonical, Numerals.FormatNat, Blank;
    var index := Itoa(i);
    assert index == Numerals.FormatNat(i);
    var prefix := "lines[" + index + "]";
    errs, line := [], None;
    errs := errs + Required(prefix + ".line_id", ln.lineId);
    errs := errs + Required(prefix + ".description", ln.description);
    errs := errs + Required(prefix + ".tax_code", ln.taxCode);
    var qty := Quantity.ParseCanonical(ln.quantity);
    var price := Money.ParseCanonical(ln.unitPrice);
    if qty.Err? {
      errs := errs + [FieldError(prefix + ".quantity", "INVALID_FORMAT")];
    } else if price.Err? {
      errs := errs + [FieldError(prefix + ".unit_price", "INVALID_FORMAT")];
    } else {
      line := Some(Line(ln.lineId, ln.description, qty.value, price.value, ln.taxCode));
    }
  }

  /** mapIntent. The size limit on the body keeps the line count within the index formatter's twelve digits. */
  method MapIntent(scopeId: string, body: Body, issued: FiscalTime.NormalizedIssued)
    returns (r: Result<DocumentIntent, seq<FieldError>>)
    requires |body.lines| <= 1_000_000_000_000
    ensures r == Mapped(scopeId, body, issued)
  {
    hide HeaderErrors, LineErrors, Numeric, LineOf;
    var errs := HeaderErrors(body);
    var lines: seq<Line> := [];
    for i := 0 to |body.lines|
      invariant errs == HeaderErrors(body) + ErrorsUpTo(body.lines, i)
      invariant lines == LinesUpTo(body.lines, i)
    {
      var lineErrs, line := MapLine(body.lines[i], i);
      errs := errs + lineErrs;
      if line.Some? {
        lines := lines + [line.value];
      }
    }
    if errs != [] {
      return Err(errs);
    }
    r := Ok(IntentOf(scopeId, body, issued));
  }

  predicate CompleteBodyLine(ln: BodyLine) {
    !Blank(ln.lineId) && !Blank(ln.description) && !Blank(ln.taxCode) && Numeric(ln)
  }

  /** What a mappable body is, independently of the order of the checks. */
  predicate Mappable(body: Body) {
    && !Blank(body.externalId) && |body.externalId| <= 100
    && body.documentType in {"invoice", "credit_note"} && body.currency == "AOA"
    && body.seller.Some? && !Blank(body.seller.value.taxId) && !Blank(body.seller.value.name)
    && body.lines != []
    && forall i :: 0 <= i < |body.lines| ==> CompleteBodyLine(body.lines[i])
  }

  lemma {:induction false} CollectedUpTo(lines: seq<BodyLine>, n: nat)
    requires n <= |lines|
    ensures ErrorsUpTo(lines, n) == [] <==> forall i :: 0 <= i < n ==> CompleteBodyLine(lines[i])
    ensures ErrorsUpTo(lines, n) == [] ==>
              |LinesUpTo(lines, n)| == n && forall i :: 0 <= i < n ==> LinesUpTo(lines, n)[i] == LineOf(lines[i])
  {
    hide LineErrors, CompleteBodyLine, Numeric, LineOf, Quantity.Parsed, Money.ParseCanonical, Blank,
         Numerals.FormatNat;
    if n > 0 {
      CollectedUpTo(lines, n - 1);
      NoLineErrors(lines[n - 1], n - 1);
      if CompleteBodyLine(lines[n - 1]) {
        CompleteIsNumeric(lines[n - 1]);
      }
    }
  }

  lemma NoLineErrors(ln: BodyLine, i: nat)
    ensures LineErrors(ln, i) == [] <==> CompleteBodyLine(ln)
  {
    hide Quantity.Parsed, Money.ParseCanonical, Numerals.FormatNat, Blank;
  }

  lemma CompleteIsNumeric(ln: BodyLine)
    requires CompleteBodyLine(ln)
    ensures Numeric(ln)
  {
  }

  /** The gate accepts exactly the mappable bodies; the intent then has one line per body line, in the same order. */
  lemma AcceptsExactlyMappable(scopeId: string, body: Body, issued: FiscalTime.NormalizedIssued)
    ensures Mapped(scopeId, body, issued).Ok? <==> Mappable(body)
    ensures Mappable(body) ==>
              var lines := Mapped(scopeId, body, issued).value.lines;
              |lines| == |body.lines| && forall i :: 0 <= i < |lines| ==> lines[i] == LineOf(body.lines[i])
  {
    hide LineErrors, CompleteBodyLine, ErrorsUpTo, LinesUpTo, Quantity.Parsed, Money.ParseCanonical, Blank;
    CollectedUpTo(body.lines, |body.lines|);
    assert HeaderErrors(body) == [] <==>
      && !Blank(body.externalId) && |body.externalId| <= 100
      && body.documentType in {"invoice", "credit_note"} && body.currency == "AOA"
      && body.seller.Some? && !Blank(body.seller.value.taxId) && !Blank(body.seller.value.name)
      && body.lines != [];
  }

  /**
   A request built from an accepted body passes the second gate exactly when its UTC year has four digits;
   nothing else the second gate checks can fail after the first.
   */
  lemma FirstGateImpliesSecond(cal: FiscalTime.Calendar, raw: string, zone: string, scopeId: string, body: Body,
                               key: string, series: string)
    requires FiscalTime.Sound(cal) && FiscalTime.NormalizeIssued(cal, raw, zone).Ok?
    requires Mapped(scopeId, body, FiscalTime.NormalizeIssued(cal, raw, zone).value).Ok?
    requires !Blank(scopeId) && !Blank(key) && !Blank(series)
    ensures var issued := FiscalTime.NormalizeIssued(cal, raw, zone).value;
            var req := SealRequest(key, series, Mapped(scopeId, body, issued).value);
            Prepared(cal, req) ==
              if FiscalTime.FourDigitYear(issued.instantUTC) then Ok(req.(seriesCode := TrimSpace(series)))
              else Err(ValidationError("issued_at", "INVALID_ISSUED_AT"))
  {
    hide LineErrors, ErrorsUpTo, LinesUpTo, LinesProblem, Quantity.Parsed, Money.ParseCanonical;
    hide Blank, FiscalTime.ValidNormalizedContext, FiscalTime.NormalizeIssued, FiscalTime.Sound;
    var issued := FiscalTime.NormalizeIssued(cal, raw, zone).value;
    var intent := Mapped(scopeId, body, issued).value;
    AcceptsExactlyMappable(scopeId, body, issued);
    FiscalTime.NormalizedIsValid(cal, raw, zone);
    forall i | 0 <= i < |intent.lines|
      ensures CompleteLine(intent.lines[i])
    {
      assert CompleteBodyLine(body.lines[i]);
    }
    NoProblemMeansComplete(intent.lines, 0);
  }

  /** The gates disagree on it: whatever the body, the first takes the request and the second refuses its issued_at. */
  lemma LateYearSplitsTheGates(scopeId: string, body: Body, key: string, series: string)
    requires Mappable(body) && !Blank(scopeId) && !Blank(key) && !Blank(series)
    ensures var cal := FiscalTime.PlainCalendar();
            var issued := FiscalTime.NormalizeIssued(cal, FiscalTime.LateText(), FiscalTime.LateZone());
            && FiscalTime.Sound(cal) && issued.Ok? && Mapped(scopeId, body, issued.value).Ok?
            && Prepared(cal, SealRequest(key, series, Mapped(scopeId, body, issued.value).value)) ==
               Err(ValidationError("issued_at", "INVALID_ISSUED_AT"))
  {
    hide *;
    FiscalTime.LateYearFails();
    var cal := FiscalTime.PlainCalendar();
    AcceptsExactlyMappable(scopeId, body,
                           FiscalTime.NormalizeIssued(cal, FiscalTime.LateText(), FiscalTime.LateZone()).value);
    FirstGateImpliesSecond(cal, FiscalTime.LateText(), FiscalTime.LateZone(), scopeId, body, key, series);
  }
}
