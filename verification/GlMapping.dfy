/**
 From accounting records to general ledger entries (internal/saftao/mapglentries.go): sort, omit or map, group by
 journal, and hand the result to the export filter.
 */
module GlMapping {
  import opened Prelude
  import opened Text
  import opened Numerals
  import opened SaftAmounts
  import opened SaftPeriods
  import opened SaftExport
  import opened SaftLedger
  import Money

  type Int64 = x: int | -MAX_INT64 - 1 <= x <= MAX_INT64 witness 0

  datatype LedgerLine = LedgerLine(recordId: string, accountId: string, description: string, cents: Int64,
                                   entryAt: Option<int>)

  /** One accounting transaction; an absent instant is Go's zero time. */
  datatype Record = Record(
    scopeId: string, documentId: string, at: Option<int>, sealedAt: Option<int>, journalId: string, journalDesc: string,
    transactionId: string, period: int, sourceId: string, description: string, docArchival: string, kind: string,
    postingDate: string, customerId: string, supplierId: string, debits: seq<LedgerLine>, credits: seq<LedgerLine>)

  /** The field checks of the schema, and the calendar: texts of instants, absent when out of range. */
  datatype Checks = Checks(
    journalId: string -> bool, transactionId: string -> bool, docArchival: string -> bool, accountId: string -> bool,
    upTo30: string -> bool, upTo200: string -> bool, kind: string -> bool, dateOf: int -> Option<string>,
    stampOf: int -> Option<string>, content: Record -> nat)

  datatype Omission = Omission(scopeId: string, documentId: string, field: string)

  datatype Config = Config(scopeId: string, period: Period, maxOmissions: int, includeEmpty: bool)

  // ----- one record -----

  function When(b: bool, field: string): seq<string> {
    if b then [field] else []
  }

  /** SystemEntryAt, or else SealedAt, or else TransactionAt. */
  function EntryTime(ln: LedgerLine, rec: Record): Option<int> {
    if ln.entryAt.Some? then ln.entryAt else if rec.sealedAt.Some? then rec.sealedAt else rec.at
  }

  function LineProblem(ln: LedgerLine, rec: Record, checks: Checks): Option<string> {
    if !checks.upTo30(ln.recordId) then Some("record_id")
    else if !checks.accountId(ln.accountId) then Some("account")
    else if ln.cents <= 0 then Some("amount")
    else if !checks.upTo200(ln.description) then Some("desc")
    else if EntryTime(ln, rec).None? || checks.stampOf(EntryTime(ln, rec).value).None? then Some("entry")
    else None
  }

  /** The first line that cannot be mapped ends the side it is on. */
  function SideProblem(side: string, lines: seq<LedgerLine>, rec: Record, checks: Checks): seq<string> {
    if lines == [] then []
    else if LineProblem(lines[0], rec, checks).Some? then [side + LineProblem(lines[0], rec, checks).value]
    else SideProblem(side, lines[1..], rec, checks)
  }

  function HeadingProblems(rec: Record, checks: Checks): seq<string> {
    When(!checks.journalId(rec.journalId), "journal_id")
    + When(!checks.upTo200(rec.journalDesc), "journal_desc")
    + When(!checks.transactionId(TrimSpace(rec.transactionId)), "transaction_id")
    + When(rec.period < 1 || rec.period > 16, "period")
    + When(!checks.upTo30(TrimSpace(rec.sourceId)), "source_id")
  }

  function EntryProblems(rec: Record, checks: Checks): seq<string> {
    When(!checks.upTo200(rec.description), "description")
    + When(!checks.docArchival(rec.docArchival), "doc_archival")
    + When(!checks.kind(rec.kind), "transaction_type")
    + When(!Blank(rec.postingDate) && !ValidDate(rec.postingDate), "gl_posting_date")
    + When(!Blank(rec.customerId) && !Blank(rec.supplierId), "party")
    + When(rec.debits == [] || rec.credits == [], "lines")
  }

  function FieldProblems(rec: Record, checks: Checks): seq<string> {
    HeadingProblems(rec, checks) + EntryProblems(rec, checks)
  }

  function Problems(rec: Record, checks: Checks): seq<string> {
    FieldProblems(rec, checks) + SideProblem("debit_", rec.debits, rec, checks)
    + SideProblem("credit_", rec.credits, rec, checks)
  }

  /** formatCents. */
  function CentsText(cents: Int64): string {
    if cents < 0 then Money.FormatCanonical(0) else Money.FormatCanonical(cents)
  }

  function AmountTexts(lines: seq<LedgerLine>): seq<string> {
    seq(|lines|, i requires 0 <= i < |lines| => CentsText(lines[i].cents))
  }

  function MappedTransaction(rec: Record, date: string, checks: Checks): Transaction {
    Transaction(TrimSpace(rec.transactionId), date, rec.kind, AmountTexts(rec.debits), AmountTexts(rec.credits),
                checks.content(rec))
  }

  /** One side's loop: the amounts of its lines, or the first problem. */
  method MapSide(side: string, lines: seq<LedgerLine>, rec: Record, checks: Checks)
    returns (problems: seq<string>, amounts: seq<string>)
    ensures problems == SideProblem(side, lines, rec, checks)
    ensures problems == [] ==> amounts == AmountTexts(lines)
  {
    problems, amounts := [], [];
    for i := 0 to |lines|
      invariant amounts == AmountTexts(lines[..i]) && problems == []
      invariant SideProblem(side, lines, rec, checks) == SideProblem(side, lines[i..], rec, checks)
    {
      hide LineProblem, CentsText;
      var ln := lines[i];
      assert lines[i..][1..] == lines[i + 1..];
      var problem := LineProblem(ln, rec, checks);
      if problem.Some? {
        problems := [side + problem.value];
        return;
      }
      amounts := amounts + [CentsText(ln.cents)];
    }
    assert lines[..|lines|] == lines;
  }

  /** mapOneGLEntriesRecord: a transaction, or what is missing. */
  method MapOneRecord(rec: Record, date: string, checks: Checks) returns (t: Transaction, problems: seq<string>)
    ensures problems == Problems(rec, checks)
    ensures problems == [] ==> t == MappedTransaction(rec, date, checks)
  {
    hide FieldProblems, AmountTexts, SideProblem;
    problems := FieldProblems(rec, checks);
    var debitProblems, debits := MapSide("debit_", rec.debits, rec, checks);
    var creditProblems, credits := MapSide("credit_", rec.credits, rec, checks);
    problems := problems + debitProblems + creditProblems;
    t := Transaction(TrimSpace(rec.transactionId), date, rec.kind, debits, credits, checks.content(rec));
  }

  // ----- what becomes of a record -----

  datatype Fate = OutOfScope | OutOfPeriod | Omitted(fields: seq<string>) | Mapped(transaction: Transaction)

  function FateOf(rec: Record, cfg: Config, checks: Checks): (fate: Fate)
    ensures fate.Omitted? ==> fate.fields != []
  {
    if TrimSpace(rec.scopeId) != cfg.scopeId then OutOfScope
    else if rec.at.None? || checks.dateOf(rec.at.value).None? then Omitted(["transaction_at"])
    else
      var date := checks.dateOf(rec.at.value).value;
      if !Within(date, cfg.period) then OutOfPeriod
      else if Problems(rec, checks) != [] then Omitted(Problems(rec, checks))
      else Mapped(MappedTransaction(rec, date, checks))
  }

  function OmissionsOf(rec: Record, fields: seq<string>): seq<Omission> {
    seq(|fields|, i requires 0 <= i < |fields| => Omission(rec.scopeId, rec.documentId, fields[i]))
  }

  // ----- the loop -----

  datatype MapError = TooManyOmissions | TooManyTransactions | BadConfig | BadTotals | ExportFailed(error: ExportError)

  datatype MapState = MapState(journals: map<string, Journal>, order: seq<string>, omissions: seq<Omission>,
                               mapped: nat)

  const NOTHING_MAPPED := MapState(map[], [], [], 0)

  function MaxOmissions(cfg: Config): int {
    if cfg.maxOmissions <= 0 then MAX_TABLE_ENTRIES else cfg.maxOmissions
  }

  function Filed(st: MapState, rec: Record, t: Transaction): MapState {
    var id := TrimSpace(rec.journalId);
    var j := if id in st.journals then st.journals[id] else Journal(id, TrimSpace(rec.journalDesc), []);
    MapState(st.journals[id := j.(transactions := j.transactions + [t])],
             if id in st.journals then st.order else st.order + [id], st.omissions, st.mapped + 1)
  }

  function MapStep(st: MapState, rec: Record, cfg: Config, checks: Checks): Result<MapState, MapError> {
    match FateOf(rec, cfg, checks)
    case OutOfScope => Ok(st)
    case OutOfPeriod => Ok(st)
    case Omitted(fields) =>
      var omissions := st.omissions + OmissionsOf(rec, fields);
      if |omissions| > MaxOmissions(cfg) then Err(TooManyOmissions) else Ok(st.(omissions := omissions))
    case Mapped(t) =>
      if st.mapped + 1 > MAX_TABLE_ENTRIES then Err(TooManyTransactions) else Ok(Filed(st, rec, t))
  }

  function MapAll(recs: seq<Record>, cfg: Config, checks: Checks): Result<MapState, MapError> {
    if recs == [] then Ok(NOTHING_MAPPED)
    else
      match MapAll(recs[..|recs| - 1], cfg, checks)
      case Err(e) => Err(e)
      case Ok(st) => MapStep(st, recs[|recs| - 1], cfg, checks)
  }

  lemma {:induction false} MapFailsForGood(recs: seq<Record>, n: nat, cfg: Config, checks: Checks, e: MapError)
    requires n <= |recs| && MapAll(recs[..n], cfg, checks) == Err(e)
    ensures MapAll(recs, cfg, checks) == Err(e)
    decreases |recs|
  {
    if n == |recs| {
      assert recs[..n] == recs;
    } else {
      hide MapStep;
      assert recs[..|recs| - 1][..n] == recs[..n];
      MapFailsForGood(recs[..|recs| - 1], n, cfg, checks, e);
    }
  }

  lemma MapNext(recs: seq<Record>, i: nat, cfg: Config, checks: Checks)
    requires i < |recs|
    ensures MapAll(recs[..i + 1], cfg, checks) ==
            if MapAll(recs[..i], cfg, checks).Err? then MapAll(recs[..i], cfg, checks)
            else MapStep(MapAll(recs[..i], cfg, checks).value, recs[i], cfg, checks)
  {
    hide MapStep;
    assert recs[..i + 1][..i] == recs[..i];
  }

  method MapRecords(sorted: seq<Record>, cfg: Config, checks: Checks) returns (r: Result<MapState, MapError>)
    ensures r == MapAll(sorted, cfg, checks)
  {
    var maxOm := MaxOmissions(cfg);
    var journals: map<string, Journal> := map[];
    var journalOrder: seq<string> := [];
    var omissions: seq<Omission> := [];
    var mapped := 0;
    for i := 0 to |sorted|
      invariant MapAll(sorted[..i], cfg, checks) == Ok(MapState(journals, journalOrder, omissions, mapped))
    {
      hide *;
      MapNext(sorted, i, cfg, checks);
      var rec := sorted[i];
      MapStepIs(MapState(journals, journalOrder, omissions, mapped), rec, cfg, checks);
      if TrimSpace(rec.scopeId) != cfg.scopeId {
        continue;
      }
      var date := if rec.at.None? then None else checks.dateOf(rec.at.value);
      if date.None? {
        omissions := omissions + OmissionsOf(rec, ["transaction_at"]);
        if |omissions| > maxOm {
          MapFailsForGood(sorted, i + 1, cfg, checks, TooManyOmissions);
          return Err(TooManyOmissions);
        }
        continue;
      }
      if !Within(date.value, cfg.period) {
        continue;
      }
      var t, problems := MapOneRecord(rec, date.value, checks);
      if |problems| > 0 {
        omissions := omissions + OmissionsOf(rec, problems);
        if |omissions| > maxOm {
          MapFailsForGood(sorted, i + 1, cfg, checks, TooManyOmissions);
          return Err(TooManyOmissions);
        }
        continue;
      }
      journals, journalOrder := File(journals, journalOrder, rec, t, omissions, mapped);
      mapped := mapped + 1;
      if mapped > MAX_TABLE_ENTRIES {
        MapFailsForGood(sorted, i + 1, cfg, checks, TooManyTransactions);
        return Err(TooManyTransactions);
      }
    }
    assert sorted[..|sorted|] == sorted;
    r := Ok(MapState(journals, journalOrder, omissions, mapped));
  }

  /** A step, spelled out along the branches of the loop. */
  lemma MapStepIs(st: MapState, rec: Record, cfg: Config, checks: Checks)
    ensures var date := if rec.at.None? then None else checks.dateOf(rec.at.value);
            var omitted := (fields: seq<string>) =>
                if |st.omissions + OmissionsOf(rec, fields)| > MaxOmissions(cfg) then Err(TooManyOmissions)
                else Ok(st.(omissions := st.omissions + OmissionsOf(rec, fields)));
            MapStep(st, rec, cfg, checks) ==
            if TrimSpace(rec.scopeId) != cfg.scopeId then Ok(st)
            else if date.None? then omitted(["transaction_at"])
            else if !Within(date.value, cfg.period) then Ok(st)
            else if |Problems(rec, checks)| > 0 then omitted(Problems(rec, checks))
            else if st.mapped + 1 > MAX_TABLE_ENTRIES then Err(TooManyTransactions)
            else Ok(Filed(st, rec, MappedTransaction(rec, date.value, checks)))
  {
    hide Problems, MappedTransaction, Within, Filed, OmissionsOf;
  }

  /** Appends a transaction to its journal, opening the journal if it is new. */
  method File(journals: map<string, Journal>, order: seq<string>, rec: Record, t: Transaction,
              ghost omissions: seq<Omission>, ghost mapped: nat)
    returns (js: map<string, Journal>, os: seq<string>)
    ensures MapState(js, os, omissions, mapped + 1) == Filed(MapState(journals, order, omissions, mapped), rec, t)
  {
    js, os := journals, order;
    var id := TrimSpace(rec.journalId);
    if id !in js {
      js := js[id := Journal(id, TrimSpace(rec.journalDesc), [])];
      os := os + [id];
    }
    js := js[id := js[id].(transactions := js[id].transactions + [t])];
  }
}
