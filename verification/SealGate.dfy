/** The second validation gate, in front of every seal (internal/persistence/seal.go). */
module SealGate {
  import opened Prelude
  import opened Text
  import opened Canonical
  import Numerals
  import FiscalTime

  datatype SealRequest = SealRequest(idempotencyKey: string, seriesCode: string, intent: DocumentIntent)

  datatype ValidationError = ValidationError(field: string, code: string)

  function ProjectionOf(req: SealRequest): Projection {
    Projection(req.seriesCode, req.intent)
  }

  /** First missing field of a line, as the loop checks them. */
  function LineProblem(ln: Line, i: nat): Option<ValidationError> {
    var prefix := "lines[" + Numerals.FormatNat(i) + "]";
    if Blank(ln.lineId) then Some(ValidationError(prefix + ".line_id", "REQUIRED"))
    else if Blank(ln.description) then Some(ValidationError(prefix + ".description", "REQUIRED"))
    else if Blank(ln.taxCode) then Some(ValidationError(prefix + ".tax_code", "REQUIRED"))
    else None
  }

  function LinesProblem(lines: seq<Line>, from: nat): Option<ValidationError>
    decreases |lines| - from
  {
    if from >= |lines| then None
    else if LineProblem(lines[from], from).Some? then LineProblem(lines[from], from)
    else LinesProblem(lines, from + 1)
  }

  /** Everything checked before the lines, in the order it is checked. */
  function HeaderProblem(cal: FiscalTime.Calendar, req: SealRequest): Option<ValidationError> {
    var doc := req.intent;
    if Blank(req.idempotencyKey) then Some(ValidationError("idempotency_key", "REQUIRED"))
    else if Blank(req.seriesCode) then Some(ValidationError("series_code", "REQUIRED"))
    else if Blank(doc.scopeId) then Some(ValidationError("scope_id", "REQUIRED"))
    else if Blank(doc.externalId) then Some(ValidationError("external_id", "REQUIRED"))
    else if doc.currency != "AOA" then Some(ValidationError("currency", "INVALID_ENUM"))
    else if doc.documentType != "invoice" && doc.documentType != "credit_note" then
      Some(ValidationError("document_type", "INVALID_ENUM"))
    else if |doc.lines| == 0 then Some(ValidationError("lines", "REQUIRED"))
    else if Blank(doc.sellerTaxId) then Some(ValidationError("seller.tax_id", "REQUIRED"))
    else if Blank(doc.sellerName) then Some(ValidationError("seller.name", "REQUIRED"))
    else if Blank(doc.issuedTimezone) then Some(ValidationError("issued_timezone", "REQUIRED"))
    else if !FiscalTime.OffsetInRange(doc.issuedOffsetMinutes) then
      Some(ValidationError("issued_offset_minutes", "OUT_OF_RANGE"))
    else if Blank(doc.issuedAtUTC) then Some(ValidationError("issued_at", "REQUIRED"))
    else if !FiscalTime.ValidNormalizedContext(cal, doc.issuedAtUTC, doc.issuedTimezone, doc.issuedOffsetMinutes) then
      Some(ValidationError("issued_at", "INVALID_ISSUED_AT"))
    else None
  }

  function Prepared(cal: FiscalTime.Calendar, req: SealRequest): Result<SealRequest, ValidationError> {
    match HeaderProblem(cal, req)
    case Some(e) => Err(e)
    case None =>
      match LinesProblem(req.intent.lines, 0)
      case Some(e) => Err(e)
      case None => Ok(req.(seriesCode := TrimSpace(req.seriesCode)))
  }

  method PrepareSealRequest(cal: FiscalTime.Calendar, req: SealRequest)
    returns (r: Result<SealRequest, ValidationError>)
    ensures r == Prepared(cal, req)
  {
    var problem := HeaderProblem(cal, req);
    if problem.Some? {
      return Err(problem.value);
    }
    for i := 0 to |req.intent.lines|
      invariant LinesProblem(req.intent.lines, 0) == LinesProblem(req.intent.lines, i)
    {
      problem := LineProblem(req.intent.lines[i], i);
      if problem.Some? {
        return Err(problem.value);
      }
    }
    r := Ok(req.(seriesCode := TrimSpace(req.seriesCode)));
  }

  predicate CompleteLine(ln: Line) {
    !Blank(ln.lineId) && !Blank(ln.description) && !Blank(ln.taxCode)
  }

  /** What a sealable request is, independently of the order of the checks. */
  predicate Sealable(cal: FiscalTime.Calendar, req: SealRequest) {
    var doc := req.intent;
    && !Blank(req.idempotencyKey) && !Blank(req.seriesCode)
    && !Blank(doc.scopeId) && !Blank(doc.externalId)
    && doc.currency == "AOA"
    && doc.documentType in {"invoice", "credit_note"}
    && !Blank(doc.sellerTaxId) && !Blank(doc.sellerName)
    && FiscalTime.ValidNormalizedContext(cal, doc.issuedAtUTC, doc.issuedTimezone, doc.issuedOffsetMinutes)
    && doc.lines != []
    && forall i :: 0 <= i < |doc.lines| ==> CompleteLine(doc.lines[i])
  }

  lemma {:induction false} NoProblemMeansComplete(lines: seq<Line>, from: nat)
    requires from <= |lines|
    ensures LinesProblem(lines, from) == None <==> forall i :: from <= i < |lines| ==> CompleteLine(lines[i])
    decreases |lines| - from
  {
    if from < |lines| {
      NoProblemMeansComplete(lines, from + 1);
      assert LineProblem(lines[from], from).None? <==> CompleteLine(lines[from]);
    }
  }

  /** The gate accepts exactly the sealable requests, and changes nothing but the padding of the series code. */
  lemma AcceptsExactlySealable(cal: FiscalTime.Calendar, req: SealRequest)
    ensures Prepared(cal, req).Ok? <==> Sealable(cal, req)
    ensures Prepared(cal, req).Ok? ==>
              && ProjectionOf(Prepared(cal, req).value) == Projection(TrimSpace(req.seriesCode), req.intent)
              && Prepared(cal, req).value.idempotencyKey == req.idempotencyKey
              && Prepared(cal, Prepared(cal, req).value) == Prepared(cal, req)
  {
    NoProblemMeansComplete(req.intent.lines, 0);
    TrimSpaceTrims(req.seriesCode);
  }

  /** The order the header is checked in. */
  const CHECKS: seq<ValidationError> := [
    ValidationError("idempotency_key", "REQUIRED"), ValidationError("series_code", "REQUIRED"),
    ValidationError("scope_id", "REQUIRED"), ValidationError("external_id", "REQUIRED"),
    ValidationError("currency", "INVALID_ENUM"), ValidationError("document_type", "INVALID_ENUM"),
    ValidationError("lines", "REQUIRED"), ValidationError("seller.tax_id", "REQUIRED"),
    ValidationError("seller.name", "REQUIRED"), ValidationError("issued_timezone", "REQUIRED"),
    ValidationError("issued_offset_minutes", "OUT_OF_RANGE"), ValidationError("issued_at", "REQUIRED"),
    ValidationError("issued_at", "INVALID_ISSUED_AT")]

  /** What is wrong with a request's header when the k-th check fails. */
  predicate Fails(cal: FiscalTime.Calendar, req: SealRequest, k: nat) {
    var doc := req.intent;
    match k
    case 0 => Blank(req.idempotencyKey)
    case 1 => Blank(req.seriesCode)
    case 2 => Blank(doc.scopeId)
    case 3 => Blank(doc.externalId)
    case 4 => doc.currency != "AOA"
    case 5 => doc.documentType !in {"invoice", "credit_note"}
    case 6 => doc.lines == []
    case 7 => Blank(doc.sellerTaxId)
    case 8 => Blank(doc.sellerName)
    case 9 => Blank(doc.issuedTimezone)
    case 10 => !(-14 * 60 <= doc.issuedOffsetMinutes <= 14 * 60)
    case 11 => Blank(doc.issuedAtUTC)
    case 12 =>
      !FiscalTime.ValidNormalizedContext(cal, doc.issuedAtUTC, doc.issuedTimezone, doc.issuedOffsetMinutes)
    case _ => false
  }

  /** The k-th check fails, and none before it does. */
  ghost predicate FirstFault(cal: FiscalTime.Calendar, req: SealRequest, k: nat, e: ValidationError) {
    k < |CHECKS| && e == CHECKS[k] && Fails(cal, req, k) && forall j: nat :: j < k ==> !Fails(cal, req, j)
  }

  /** The i-th line lacks what the error says, and no line before it lacks anything. */
  ghost predicate LineFault(lines: seq<Line>, i: nat, e: ValidationError) {
    && i < |lines| && (forall k :: 0 <= k < i ==> CompleteLine(lines[k]))
    && var line := "lines[" + Numerals.FormatNat(i) + "]";
       || (e == ValidationError(line + ".line_id", "REQUIRED") && Blank(lines[i].lineId))
       || (e == ValidationError(line + ".description", "REQUIRED") && Blank(lines[i].description))
       || (e == ValidationError(line + ".tax_code", "REQUIRED") && Blank(lines[i].taxCode))
  }

  lemma {:induction false} LinesFault(lines: seq<Line>, from: nat) returns (i: nat)
    requires LinesProblem(lines, from).Some? && forall k :: 0 <= k < from && k < |lines| ==> CompleteLine(lines[k])
    ensures LineFault(lines, i, LinesProblem(lines, from).value)
    decreases |lines| - from
  {
    hide Blank, Numerals.FormatNat;
    if LineProblem(lines[from], from).Some? {
      i := from;
    } else {
      i := LinesFault(lines, from + 1);
    }
  }

  lemma HeaderFault(cal: FiscalTime.Calendar, req: SealRequest) returns (k: nat)
    ensures if HeaderProblem(cal, req).None? then forall j: nat :: !Fails(cal, req, j)
            else FirstFault(cal, req, k, HeaderProblem(cal, req).value)
  {
    hide Blank, FiscalTime.ValidNormalizedContext;
    k := if Fails(cal, req, 0) then 0 else if Fails(cal, req, 1) then 1 else if Fails(cal, req, 2) then 2
         else if Fails(cal, req, 3) then 3 else if Fails(cal, req, 4) then 4 else if Fails(cal, req, 5) then 5
         else if Fails(cal, req, 6) then 6 else if Fails(cal, req, 7) then 7 else if Fails(cal, req, 8) then 8
         else if Fails(cal, req, 9) then 9 else if Fails(cal, req, 10) then 10
         else if Fails(cal, req, 11) then 11 else 12;
  }

  /** A refusal names the first header check that fails or, when none does, the first line that lacks something. */
  lemma RefusalsMean(cal: FiscalTime.Calendar, req: SealRequest)
    requires Prepared(cal, req).Err?
    ensures var e := Prepared(cal, req).error;
            || (exists k: nat :: FirstFault(cal, req, k, e))
            || ((forall k: nat :: !Fails(cal, req, k)) && exists i: nat :: LineFault(req.intent.lines, i, e))
  {
    hide HeaderProblem, Fails, LineProblem, Blank, FirstFault;
    var k := HeaderFault(cal, req);
    if HeaderProblem(cal, req).None? {
      var i := LinesFault(req.intent.lines, 0);
    }
  }
}
