/** The period filter of the general ledger entries (internal/saftao/export.go, ledger_entries.go). */
module SaftLedger {
  import opened Prelude
  import opened Text
  import opened Numerals
  import opened SaftAmounts
  import opened SaftPeriods
  import opened SaftExport
  import Money

  const MAX_TABLE_ENTRIES := 100_000

  datatype Transaction = Transaction(id: string, date: string, kind: string, debits: seq<string>, credits: seq<string>,
                                     content: nat)
  datatype Journal = Journal(id: string, description: string, transactions: seq<Transaction>)
  datatype Entries = Entries(numberOfEntries: string, totalDebit: string, totalCredit: string, journals: seq<Journal>)

  /** The allowed types, and the structural checks of a transaction and of a journal's heading. */
  datatype LedgerRules = LedgerRules(allowed: set<string>, sound: Transaction -> bool,
                                     heading: (string, string) -> bool)

  function DateOf(): Transaction -> string {
    (t: Transaction) => t.date
  }

  function DebitSide(): Transaction -> seq<string> {
    (t: Transaction) => t.debits
  }

  function CreditSide(): Transaction -> seq<string> {
    (t: Transaction) => t.credits
  }

  function LedgerView(rules: LedgerRules): View<Transaction> {
    View(DateOf(), (t: Transaction) => t.kind in rules.allowed, rules.sound, DebitSide(), CreditSide())
  }

  // ----- structural checks that count and compare -----

  function KeysOf<T>(xs: seq<T>, key: T -> string): set<string> {
    if xs == [] then {} else KeysOf(xs[..|xs| - 1], key) + {key(xs[|xs| - 1])}
  }

  /** No two members share a key; each is checked against those before it. */
  predicate DistinctBy<T>(xs: seq<T>, key: T -> string) {
    xs == [] ||
    (DistinctBy(xs[..|xs| - 1], key) && key(xs[|xs| - 1]) !in KeysOf(xs[..|xs| - 1], key))
  }

  function TransactionKey(): Transaction -> string {
    (t: Transaction) => TrimSpace(t.id)
  }

  function JournalKey(): Journal -> string {
    (j: Journal) => TrimSpace(j.id)
  }

  predicate JournalOk(j: Journal, rules: LedgerRules) {
    && rules.heading(j.id, j.description)
    && |j.transactions| <= MAX_TABLE_ENTRIES
    && (forall t :: t in j.transactions ==> rules.sound(t))
    && DistinctBy(j.transactions, TransactionKey())
  }

  function Flat(journals: seq<Journal>): seq<Transaction> {
    if journals == [] then [] else Flat(journals[..|journals| - 1]) + journals[|journals| - 1].transactions
  }

  predicate EntriesOk(e: Entries, rules: LedgerRules) {
    && !Blank(e.numberOfEntries) && ValidDecimal(e.totalDebit) && ValidDecimal(e.totalCredit)
    && |e.journals| <= MAX_TABLE_ENTRIES
    && (forall j :: j in e.journals ==> JournalOk(j, rules))
    && DistinctBy(e.journals, JournalKey())
    && |Flat(e.journals)| <= MAX_TABLE_ENTRIES
  }

  // ----- the filter -----

  datatype LedgerState = LedgerState(journals: seq<Journal>, totalDebit: string, totalCredit: string)

  function JournalStep(st: LedgerState, j: Journal, i: nat, rules: LedgerRules, p: Period)
    : Result<LedgerState, ExportError>
  {
    match Select(j.transactions, LedgerView(rules), p, Selection([], st.totalDebit, st.totalCredit))
    case Err(e) => Err(InJournal(i, e))
    case Ok(sel) =>
      var kept := Journal(j.id, j.description, sel.items);
      if sel.items == [] then Ok(LedgerState(st.journals, sel.totalDebit, sel.totalCredit))
      else if !JournalOk(kept, rules) then Err(JournalMalformed(i))
      else Ok(LedgerState(st.journals + [kept], sel.totalDebit, sel.totalCredit))
  }

  function Journals(js: seq<Journal>, rules: LedgerRules, p: Period): Result<LedgerState, ExportError> {
    if js == [] then Ok(LedgerState([], Zero(), Zero()))
    else
      match Journals(js[..|js| - 1], rules, p)
      case Err(e) => Err(e)
      case Ok(st) => JournalStep(st, js[|js| - 1], |js| - 1, rules, p)
  }

  function Checked(e: Entries, rules: LedgerRules): Result<Option<Entries>, ExportError> {
    if EntriesOk(e, rules) then Ok(Some(e)) else Err(EntriesMalformed)
  }

  function EmptyEntries(): Entries {
    Entries("0", Zero(), Zero(), [])
  }

  function Outcome(st: LedgerState, rules: LedgerRules, includeEmpty: bool): Result<Option<Entries>, ExportError> {
    if |Flat(st.journals)| == 0 then (if includeEmpty then Checked(EmptyEntries(), rules) else Ok(None))
    else Checked(Entries(FormatNat(|Flat(st.journals)|), st.totalDebit, st.totalCredit, st.journals), rules)
  }

  function Filtered(entries: Option<Entries>, rules: LedgerRules, p: Period, includeEmpty: bool)
    : Result<Option<Entries>, ExportError>
  {
    match entries
    case None => Ok(None)
    case Some(e) =>
      match Journals(e.journals, rules, p)
      case Err(error) => Err(error)
      case Ok(st) => Outcome(st, rules, includeEmpty)
  }

  // ----- the loops -----

  lemma AccumulateNext(acc: string, amounts: seq<string>, i: nat)
    requires i < |amounts|
    ensures Accumulate(acc, amounts[..i + 1]) ==
            if Accumulate(acc, amounts[..i]).None? then None
            else AddMoney(Accumulate(acc, amounts[..i]).value, amounts[i])
    ensures Accumulate(acc, amounts[..i + 1]).None? ==> Accumulate(acc, amounts) == None
  {
    hide AddMoney;
    assert amounts[..i + 1][..i] == amounts[..i];
    assert amounts == amounts[..i + 1] + amounts[i + 1..];
    AccumulateConcat(acc, amounts[..i + 1], amounts[i + 1..]);
  }

  method AddAll(acc: string, amounts: seq<string>) returns (r: Option<string>)
    ensures r == Accumulate(acc, amounts)
  {
    hide AddMoney;
    var total := acc;
    for i := 0 to |amounts|
      invariant Accumulate(acc, amounts[..i]) == Some(total)
    {
      hide Accumulate;
      AccumulateNext(acc, amounts, i);
      var sum := AddMoney(total, amounts[i]);
      if sum.None? {
        return None;
      }
      total := sum.value;
    }
    assert amounts[..|amounts|] == amounts;
    r := Some(total);
  }

  method KeepTransactions(ts: seq<Transaction>, p: Period, rules: LedgerRules, debit: string, credit: string)
    returns (r: Result<Selection<Transaction>, ExportError>)
    ensures r == Select(ts, LedgerView(rules), p, Selection([], debit, credit))
  {
    var v := LedgerView(rules);
    ghost var from := Selection([], debit, credit);
    var kept: seq<Transaction> := [];
    var totalDebit, totalCredit := debit, credit;
    for i := 0 to |ts|
      invariant Select(ts[..i], v, p, from) == Ok(Selection(kept, totalDebit, totalCredit))
    {
      hide Accumulate, ValidDate, Within;
      var t := ts[i];
      assert ts[..i + 1][..i] == ts[..i];
      if !ValidDate(t.date) {
        r := Err(BadDate(i));
        SelectFailsForGood(ts, i + 1, v, p, from, r.error);
        return;
      }
      if Within(t.date, p) {
        if t.kind !in rules.allowed {
          r := Err(TypeNotAllowed);
          SelectFailsForGood(ts, i + 1, v, p, from, r.error);
          return;
        }
        if !rules.sound(t) {
          r := Err(Malformed(i));
          SelectFailsForGood(ts, i + 1, v, p, from, r.error);
          return;
        }
        kept := kept + [t];
        var d := AddAll(totalDebit, t.debits);
        var c := AddAll(totalCredit, t.credits);
        if d.None? || c.None? {
          r := Err(BadSum);
          SelectFailsForGood(ts, i + 1, v, p, from, r.error);
          return;
        }
        totalDebit, totalCredit := d.value, c.value;
      }
    }
    assert ts[..|ts|] == ts;
    r := Ok(Selection(kept, totalDebit, totalCredit));
  }

  lemma {:induction false} JournalsFailForGood(js: seq<Journal>, n: nat, rules: LedgerRules, p: Period, e: ExportError)
    requires n <= |js| && Journals(js[..n], rules, p) == Err(e)
    ensures Journals(js, rules, p) == Err(e)
    decreases |js|
  {
    if n == |js| {
      assert js[..n] == js;
    } else {
      assert js[..|js| - 1][..n] == js[..n];
      JournalsFailForGood(js[..|js| - 1], n, rules, p, e);
    }
  }

  lemma JournalsNext(js: seq<Journal>, i: nat, rules: LedgerRules, p: Period)
    requires i < |js|
    ensures Journals(js[..i + 1], rules, p) ==
            if Journals(js[..i], rules, p).Err? then Journals(js[..i], rules, p)
            else JournalStep(Journals(js[..i], rules, p).value, js[i], i, rules, p)
  {
    hide JournalStep;
    assert js[..i + 1][..i] == js[..i];
  }

  lemma FlatAppend(js: seq<Journal>, j: Journal)
    ensures Flat(js + [j]) == Flat(js) + j.transactions
  {
    assert (js + [j])[..|js|] == js;
  }

  method FilterGeneralLedgerEntries(entries: Option<Entries>, p: Period, rules: LedgerRules, includeEmpty: bool)
    returns (r: Result<Option<Entries>, ExportError>)
    ensures r == Filtered(entries, rules, p, includeEmpty)
  {
    hide Select, JournalOk, EntriesOk, Zero, FormatNat;
    if entries.None? {
      return Ok(None);
    }
    var js := entries.value.journals;
    var outJournals: seq<Journal> := [];
    var txCount, totalDebit, totalCredit := 0, Zero(), Zero();
    for i := 0 to |js|
      invariant Journals(js[..i], rules, p) == Ok(LedgerState(outJournals, totalDebit, totalCredit))
      invariant txCount == |Flat(outJournals)|
    {
      hide Journals, Flat;
      var j := js[i];
      JournalsNext(js, i, rules, p);
      var sel := KeepTransactions(j.transactions, p, rules, totalDebit, totalCredit);
      if sel.Err? {
        r := Err(InJournal(i, sel.error));
        JournalsFailForGood(js, i + 1, rules, p, r.error);
        return;
      }
      totalDebit, totalCredit := sel.value.totalDebit, sel.value.totalCredit;
      if |sel.value.items| == 0 {
        continue;
      }
      var jOut := Journal(j.id, j.description, sel.value.items);
      if !JournalOk(jOut, rules) {
        r := Err(JournalMalformed(i));
        JournalsFailForGood(js, i + 1, rules, p, r.error);
        return;
      }
      FlatAppend(outJournals, jOut);
      outJournals := outJournals + [jOut];
      txCount := txCount + |sel.value.items|;
    }
    assert js[..|js|] == js;
    if txCount == 0 {
      if !includeEmpty {
        return Ok(None);
      }
      var empty := Entries("0", Zero(), Zero(), []);
      if !EntriesOk(empty, rules) {
        return Err(EntriesMalformed);
      }
      return Ok(Some(empty));
    }
    var out := Entries(FormatNat(txCount), totalDebit, totalCredit, outJournals);
    if !EntriesOk(out, rules) {
      return Err(EntriesMalformed);
    }
    r := Ok(Some(out));
  }

  // ----- idempotence -----

  /** What was selected is selected again, whole, with the same totals. */
  lemma SelectAgain<T>(xs: seq<T>, v: View<T>, p: Period, debit: string, credit: string)
    requires Select(xs, v, p, Selection([], debit, credit)).Ok?
    ensures var sel := Select(xs, v, p, Selection([], debit, credit)).value;
            Select(sel.items, v, p, Selection([], debit, credit)) == Ok(sel)
  {
    hide Select, Accumulate, Gather, Keep, Within, ValidDate;
    var from := Selection([], debit, credit);
    SelectionIs(xs, v, p, from);
    var kept := Keep(xs, v.date, p);
    assert [] + kept == kept;
    KeepMembers(xs, v.date, p);
    forall x | x in kept
      ensures x in xs && Within(v.date(x), p)
    {
      KeptMember(xs, v.date, p, x);
    }
    KeepAgain(kept, v.date, p);
    SelectionIs(kept, v, p, from);
  }

  lemma NothingKeptAddsNothing<T>(xs: seq<T>, v: View<T>, p: Period, debit: string, credit: string)
    requires Select(xs, v, p, Selection([], debit, credit)).Ok?
    requires Select(xs, v, p, Selection([], debit, credit)).value.items == []
    ensures Select(xs, v, p, Selection([], debit, credit)).value == Selection([], debit, credit)
  {
    SelectionIs(xs, v, p, Selection([], debit, credit));
    var kept := Keep(xs, v.date, p);
    assert kept == [] by { assert [] + kept == kept; }
    assert Gather(kept, v.debits) == [] && Gather(kept, v.credits) == [];
  }

  lemma {:induction false} JournalsAgain(js: seq<Journal>, rules: LedgerRules, p: Period)
    requires Journals(js, rules, p).Ok?
    ensures Journals(Journals(js, rules, p).value.journals, rules, p) == Journals(js, rules, p)
  {
    hide Select, JournalOk, LedgerView;
    if js != [] {
      var front, last := js[..|js| - 1], js[|js| - 1];
      JournalsAgain(front, rules, p);
      var st := Journals(front, rules, p).value;
      var v := LedgerView(rules);
      var sel := Select(last.transactions, v, p, Selection([], st.totalDebit, st.totalCredit)).value;
      SelectAgain(last.transactions, v, p, st.totalDebit, st.totalCredit);
      if sel.items == [] {
        NothingKeptAddsNothing(last.transactions, v, p, st.totalDebit, st.totalCredit);
      } else {
        var kept := Journal(last.id, last.description, sel.items);
        assert (st.journals + [kept])[..|st.journals|] == st.journals;
      }
    }
  }

  /** The filter changes nothing on its own output. */
  lemma FilterIsIdempotent(entries: Option<Entries>, rules: LedgerRules, p: Period, includeEmpty: bool)
    requires Filtered(entries, rules, p, includeEmpty).Ok?
    ensures Filtered(Filtered(entries, rules, p, includeEmpty).value, rules, p, includeEmpty) ==
            Filtered(entries, rules, p, includeEmpty)
  {
    hide Journals, EntriesOk, FormatNat;
    if entries.Some? {
      JournalsAgain(entries.value.journals, rules, p);
      var st := Journals(entries.value.journals, rules, p).value;
      if |Flat(st.journals)| == 0 && includeEmpty {
        NoJournals(rules, p);
      }
    }
  }

  lemma NoJournals(rules: LedgerRules, p: Period)
    ensures Journals([], rules, p) == Ok(LedgerState([], Zero(), Zero())) && Flat([]) == []
  {
  }
}
