/** What the ledger filter selects, journal by journal, and how its periods compose. */
module SaftLedgerPeriods {
  import opened Prelude
  import opened Text
  import opened Numerals
  import opened SaftAmounts
  import opened SaftPeriods
  import opened SaftExport
  import opened SaftLedger
  import Money

  /** A journal with only the transactions of the period. */
  function Part(j: Journal, p: Period): Journal {
    Journal(j.id, j.description, Keep(j.transactions, DateOf(), p))
  }

  /** The journals that keep something, each with what it keeps. */
  function KeptJournals(js: seq<Journal>, p: Period): seq<Journal> {
    if js == [] then []
    else
      var front, last := KeptJournals(js[..|js| - 1], p), Part(js[|js| - 1], p);
      if last.transactions == [] then front else front + [last]
  }

  lemma {:induction false} KeepConcat<T>(xs: seq<T>, ys: seq<T>, date: T -> string, p: Period)
    ensures Keep(xs + ys, date, p) == Keep(xs, date, p) + Keep(ys, date, p)
  {
    if ys == [] {
      assert xs + ys == xs;
    } else {
      var front := ys[..|ys| - 1];
      KeepConcat(xs, front, date, p);
      assert (xs + ys)[..|xs + ys| - 1] == xs + front;
    }
  }

  /** All transactions kept, in order, are those of the period among all transactions. */
  lemma {:induction false} FlatKept(js: seq<Journal>, p: Period)
    ensures Flat(KeptJournals(js, p)) == Keep(Flat(js), DateOf(), p)
  {
    if js != [] {
      hide Keep;
      var front, last := js[..|js| - 1], js[|js| - 1];
      FlatKept(front, p);
      KeepConcat(Flat(front), last.transactions, DateOf(), p);
      FlatAppend(KeptJournals(front, p), Part(last, p));
    } else {
      assert Flat(js) == [];
    }
  }

  // ----- what a successful filter is -----

  ghost predicate AllSelectable(js: seq<Journal>, rules: LedgerRules, p: Period) {
    forall j :: j in js ==> Selectable(j.transactions, LedgerView(rules), p)
  }

  ghost predicate AllJournalsOk(js: seq<Journal>, rules: LedgerRules, p: Period) {
    forall j :: j in KeptJournals(js, p) ==> JournalOk(j, rules)
  }

  /** The state after the journals, when the amounts add up. */
  function Summed(js: seq<Journal>, p: Period): Option<LedgerState> {
    var kept := Keep(Flat(js), DateOf(), p);
    var debit, credit := Accumulate(Zero(), Gather(kept, DebitSide())), Accumulate(Zero(), Gather(kept, CreditSide()));
    if debit.None? || credit.None? then None else Some(LedgerState(KeptJournals(js, p), debit.value, credit.value))
  }

  lemma AllFront(js: seq<Journal>, rules: LedgerRules, p: Period)
    requires js != []
    ensures var front, last := js[..|js| - 1], js[|js| - 1];
            && (AllSelectable(js, rules, p) <==>
                AllSelectable(front, rules, p) && Selectable(last.transactions, LedgerView(rules), p))
            && (AllJournalsOk(js, rules, p) <==>
                AllJournalsOk(front, rules, p) && (Part(last, p).transactions == [] || JournalOk(Part(last, p), rules)))
  {
    hide Selectable, JournalOk, Keep;
    var front, last := js[..|js| - 1], js[|js| - 1];
    assert js == front + [last];
    if Part(last, p).transactions != [] {
      assert KeptJournals(js, p) == KeptJournals(front, p) + [Part(last, p)];
    }
  }

  lemma SummedLast(front: seq<Journal>, last: Journal, rules: LedgerRules, p: Period)
    ensures var before, after := Summed(front, p), Summed(front + [last], p);
            if before.None? then after == None
            else
              var st := before.value;
              var from := Selection([], st.totalDebit, st.totalCredit);
              var sel := Totalled(last.transactions, LedgerView(rules), p, from);
              after ==
              if sel.None? then None
              else Some(LedgerState(KeptJournals(front + [last], p), sel.value.totalDebit, sel.value.totalCredit))
  {
    var kept, more := Keep(Flat(front), DateOf(), p), Keep(last.transactions, DateOf(), p);
    FlatAppend(front, last);
    KeepConcat(Flat(front), last.transactions, DateOf(), p);
    GatherConcat(kept, more, DebitSide());
    GatherConcat(kept, more, CreditSide());
    AccumulateConcat(Zero(), Gather(kept, DebitSide()), Gather(more, DebitSide()));
    AccumulateConcat(Zero(), Gather(kept, CreditSide()), Gather(more, CreditSide()));
    hide Accumulate, Gather, Keep, KeptJournals, Flat, Zero;
  }

  /**
   The journals pass exactly when every date is valid, everything in the period is allowed and sound, every journal that
   keeps something is sound with what it keeps, and the amounts add up; and what comes out is exactly that.
   */
  lemma {:induction false} LedgerIs(js: seq<Journal>, rules: LedgerRules, p: Period)
    ensures Journals(js, rules, p).Ok? <==>
            AllSelectable(js, rules, p) && AllJournalsOk(js, rules, p) && Summed(js, p).Some?
    ensures Journals(js, rules, p).Ok? ==> Some(Journals(js, rules, p).value) == Summed(js, p)
  {
    if js == [] {
      NoneSummed(js, rules, p);
    } else {
      hide *;
      var front, last := js[..|js| - 1], js[|js| - 1];
      assert front + [last] == js;
      LedgerIs(front, rules, p);
      AllFront(js, rules, p);
      SummedLast(front, last, rules, p);
      LastStep(js, rules, p);
      if Summed(front, p).Some? {
        var st := Summed(front, p).value;
        StepIs(st, last, |front|, rules, p);
        SummedJournals(front, p);
      }
    }
  }

  lemma LastStep(js: seq<Journal>, rules: LedgerRules, p: Period)
    requires js != []
    ensures var front, last := js[..|js| - 1], js[|js| - 1];
            && Journals(js, rules, p) ==
               (if Journals(front, rules, p).Err? then Err(Journals(front, rules, p).error)
                else JournalStep(Journals(front, rules, p).value, last, |front|, rules, p))
            && KeptJournals(js, p) ==
               if Part(last, p).transactions == [] then KeptJournals(front, p)
               else KeptJournals(front, p) + [Part(last, p)]
  {
    hide JournalStep, Keep;
  }

  lemma SummedJournals(js: seq<Journal>, p: Period)
    requires Summed(js, p).Some?
    ensures Summed(js, p).value.journals == KeptJournals(js, p)
  {
  }

  lemma NoneSummed(js: seq<Journal>, rules: LedgerRules, p: Period)
    requires js == []
    ensures AllSelectable(js, rules, p) && AllJournalsOk(js, rules, p)
    ensures Summed(js, p) == Some(LedgerState([], Zero(), Zero()))
  {
    assert Flat(js) == [];
  }

  /** One journal: what is kept of it, if its transactions pass and it is sound. */
  lemma StepIs(st: LedgerState, j: Journal, i: nat, rules: LedgerRules, p: Period)
    ensures var sel := Totalled(j.transactions, LedgerView(rules), p, Selection([], st.totalDebit, st.totalCredit));
            var passes := Selectable(j.transactions, LedgerView(rules), p) && sel.Some?;
            var kept := Part(j, p);
            && (JournalStep(st, j, i, rules, p).Ok? <==> passes && (kept.transactions == [] || JournalOk(kept, rules)))
            && (JournalStep(st, j, i, rules, p).Ok? ==>
                  JournalStep(st, j, i, rules, p).value ==
                  LedgerState(if kept.transactions == [] then st.journals else st.journals + [kept],
                              sel.value.totalDebit, sel.value.totalCredit))
  {
    var from := Selection([], st.totalDebit, st.totalCredit);
    SelectionIs(j.transactions, LedgerView(rules), p, from);
    assert [] + Keep(j.transactions, DateOf(), p) == Keep(j.transactions, DateOf(), p);
    hide Accumulate, Gather, Keep, Select, Selectable, JournalOk;
  }

  // ----- the filter as a whole -----

  /** The transactions and totals of a result; of no result, none and zero. */
  function AsSelection(r: Option<Entries>): Selection<Transaction> {
    match r
    case None => Start()
    case Some(e) => Selection(Flat(e.journals), e.totalDebit, e.totalCredit)
  }

  function Debits(js: seq<Journal>, p: Period): seq<string> {
    Gather(Keep(Flat(js), DateOf(), p), DebitSide())
  }

  function Credits(js: seq<Journal>, p: Period): seq<string> {
    Gather(Keep(Flat(js), DateOf(), p), CreditSide())
  }

  /** The checks on the result that count and compare. */
  predicate Sizes(js: seq<Journal>, p: Period) {
    && |KeptJournals(js, p)| <= MAX_TABLE_ENTRIES
    && DistinctBy(KeptJournals(js, p), JournalKey())
    && |Keep(Flat(js), DateOf(), p)| <= MAX_TABLE_ENTRIES
  }

  /** Everything the filter checks but the sums. */
  ghost predicate Exportable(js: seq<Journal>, rules: LedgerRules, p: Period) {
    AllSelectable(js, rules, p) && AllJournalsOk(js, rules, p) && Sizes(js, p)
  }

  /** The amounts kept are all taken, and no running sum of either side wraps to a negative number. */
  predicate LedgerSummable(js: seq<Journal>, p: Period) {
    NeverNegative(0, Debits(js, p)) && NeverNegative(0, Credits(js, p))
  }

  /** The true sums of both sides fit int64: exactly then the totals shown are the true ones. */
  predicate TrueLedger(js: seq<Journal>, p: Period) {
    Total(Debits(js, p)) <= MAX_INT64 && Total(Credits(js, p)) <= MAX_INT64
  }

  lemma {:induction false} NothingKept(js: seq<Journal>, p: Period)
    requires Flat(KeptJournals(js, p)) == []
    ensures KeptJournals(js, p) == []
  {
    if js != [] {
      hide Keep;
      var front, last := js[..|js| - 1], js[|js| - 1];
      FlatAppend(KeptJournals(front, p), Part(last, p));
      if Part(last, p).transactions == [] {
        NothingKept(front, p);
      }
    }
  }

  lemma NumberNotBlank(n: nat)
    ensures !Blank(FormatNat(n))
  {
    TrimmedStays(FormatNat(n));
  }

  lemma EmptyIsOk(rules: LedgerRules)
    ensures EntriesOk(EmptyEntries(), rules)
  {
    hide Money.FormatCanonical, ValidDecimal, Blank, ValidMoney2, Amount, ParseMoneyCents, JournalOk, TrimSpace;
    AccumulatorText(0);
    NumberNotBlank(0);
    assert FormatNat(0) == "0";
    hide FormatNat;
    assert Flat([]) == [];
    assert DistinctBy([], JournalKey());
    hide Flat, DistinctBy;
  }

  lemma EntriesAreOk(js: seq<Journal>, rules: LedgerRules, p: Period, debit: Money.Cents, credit: Money.Cents)
    requires AllJournalsOk(js, rules, p)
    ensures var e := Entries(FormatNat(|Flat(KeptJournals(js, p))|), Money.FormatCanonical(debit),
                             Money.FormatCanonical(credit), KeptJournals(js, p));
            EntriesOk(e, rules) <==> Sizes(js, p)
  {
    hide Money.FormatCanonical, ValidDecimal, Keep, KeptJournals, JournalOk, FormatNat, Blank, Flat, DistinctBy;
    FlatKept(js, p);
    AccumulatorText(debit);
    AccumulatorText(credit);
    NumberNotBlank(|Flat(KeptJournals(js, p))|);
  }

  lemma NothingIsSmall(js: seq<Journal>, p: Period)
    requires Flat(KeptJournals(js, p)) == []
    ensures Sizes(js, p)
  {
    NothingKept(js, p);
    FlatKept(js, p);
    assert DistinctBy([], JournalKey());
    hide Keep, KeptJournals, Flat, DistinctBy;
  }

  lemma OutcomeIs(js: seq<Journal>, rules: LedgerRules, p: Period, includeEmpty: bool, debit: Money.Cents,
                  credit: Money.Cents)
    requires AllJournalsOk(js, rules, p) && (Flat(KeptJournals(js, p)) == [] ==> debit == 0 && credit == 0)
    ensures var st := LedgerState(KeptJournals(js, p), Money.FormatCanonical(debit), Money.FormatCanonical(credit));
            && (Outcome(st, rules, includeEmpty).Ok? <==> Sizes(js, p))
            && (Outcome(st, rules, includeEmpty).Ok? ==>
                  AsSelection(Outcome(st, rules, includeEmpty).value) ==
                  Selection(Flat(KeptJournals(js, p)), st.totalDebit, st.totalCredit))
  {
    if Flat(KeptJournals(js, p)) == [] {
      NothingIsSmall(js, p);
      EmptyIsOk(rules);
      assert Flat([]) == [];
      hide Sizes, Money.FormatCanonical, KeptJournals, Flat, EntriesOk, FormatNat, Blank;
    } else {
      hide Sizes, Money.FormatCanonical, KeptJournals, Flat, EntriesOk, FormatNat, AllJournalsOk;
      EntriesAreOk(js, rules, p, debit, credit);
    }
  }

  /** When the filter succeeds, and what it then selects: totals are the sums of the cents modulo 2^64. */
  lemma FilteredIs(e: Entries, rules: LedgerRules, p: Period, includeEmpty: bool)
    ensures LedgerSummable(e.journals, p) ==>
              Wrap64(Total(Debits(e.journals, p))) >= 0 && Wrap64(Total(Credits(e.journals, p))) >= 0
    ensures Filtered(Some(e), rules, p, includeEmpty).Ok? <==>
            Exportable(e.journals, rules, p) && LedgerSummable(e.journals, p)
    ensures Filtered(Some(e), rules, p, includeEmpty).Ok? ==>
              AsSelection(Filtered(Some(e), rules, p, includeEmpty).value) ==
              Selection(Keep(Flat(e.journals), DateOf(), p), Shown(Total(Debits(e.journals, p))),
                        Shown(Total(Credits(e.journals, p))))
  {
    var js := e.journals;
    hide Journals, Outcome, AsSelection, Sizes, AllSelectable, AllJournalsOk, Gather, Keep, KeptJournals, Flat,
         Accumulate, Total, Money.FormatCanonical, NeverNegative, Wrap64;
    LedgerIs(js, rules, p);
    AccumulateIs(0, Debits(js, p));
    AccumulateIs(0, Credits(js, p));
    FlatKept(js, p);
    if Journals(js, rules, p).Ok? {
      NoneNothing(js, p);
      assert Wrap64(0) == 0 by { ZeroStays(); }
      OutcomeIs(js, rules, p, includeEmpty, Wrap64(Total(Debits(js, p))), Wrap64(Total(Credits(js, p))));
    }
  }

  lemma ZeroStays()
    ensures Wrap64(0) == 0
  {
  }

  lemma NoneNothing(js: seq<Journal>, p: Period)
    ensures Flat(KeptJournals(js, p)) == [] ==> Total(Debits(js, p)) == 0 && Total(Credits(js, p)) == 0
  {
    FlatKept(js, p);
    hide Keep, KeptJournals;
  }

  // ----- parts of a period -----

  ghost predicate Inside(p: Period, whole: Period) {
    forall d: string :: Within(d, p) ==> Within(d, whole)
  }

  lemma PartsInside(whole: Period, p: Period, q: Period)
    requires SplitInto(whole, p, q)
    ensures Inside(p, whole) && Inside(q, whole)
  {
    forall d: string
      ensures Within(d, p) ==> Within(d, whole)
      ensures Within(d, q) ==> Within(d, whole)
    {
      OneOfThree(d, whole, p, q);
    }
  }

  lemma {:induction false} PartKeys<T>(xs: seq<T>, date: T -> string, key: T -> string, whole: Period, p: Period)
    requires Inside(p, whole)
    ensures KeysOf(Keep(xs, date, p), key) <= KeysOf(Keep(xs, date, whole), key)
    ensures DistinctBy(Keep(xs, date, whole), key) ==> DistinctBy(Keep(xs, date, p), key)
    ensures |Keep(xs, date, p)| <= |Keep(xs, date, whole)|
  {
    if xs != [] {
      hide Within;
      var front, last := xs[..|xs| - 1], xs[|xs| - 1];
      PartKeys(front, date, key, whole, p);
      KeepLast(xs, date, p);
      KeepLast(xs, date, whole);
      hide Keep;
      assert Within(date(last), p) ==> Within(date(last), whole);
      KeysAppend(Keep(front, date, p), last, key);
      KeysAppend(Keep(front, date, whole), last, key);
    }
  }

  lemma KeysAppend<T>(xs: seq<T>, x: T, key: T -> string)
    ensures KeysOf(xs + [x], key) == KeysOf(xs, key) + {key(x)}
    ensures DistinctBy(xs + [x], key) <==> DistinctBy(xs, key) && key(x) !in KeysOf(xs, key)
  {
    assert (xs + [x])[..|xs|] == xs;
  }

  lemma PartMembers<T>(xs: seq<T>, date: T -> string, whole: Period, p: Period)
    requires Inside(p, whole)
    ensures forall x :: x in Keep(xs, date, p) ==> x in Keep(xs, date, whole)
  {
    hide Within, Keep;
    forall x | x in Keep(xs, date, p)
      ensures x in Keep(xs, date, whole)
    {
      KeptMember(xs, date, p, x);
      KeptMember(xs, date, whole, x);
    }
  }

  lemma PartIsSound(j: Journal, rules: LedgerRules, whole: Period, p: Period)
    requires Inside(p, whole) && JournalOk(Part(j, whole), rules)
    ensures JournalOk(Part(j, p), rules)
  {
    hide Within, Inside, Keep;
    PartKeys(j.transactions, DateOf(), TransactionKey(), whole, p);
    PartMembers(j.transactions, DateOf(), whole, p);
  }

  lemma {:induction false} PartJournals(js: seq<Journal>, rules: LedgerRules, whole: Period, p: Period)
    requires Inside(p, whole)
    ensures |KeptJournals(js, p)| <= |KeptJournals(js, whole)|
    ensures KeysOf(KeptJournals(js, p), JournalKey()) <= KeysOf(KeptJournals(js, whole), JournalKey())
    ensures DistinctBy(KeptJournals(js, whole), JournalKey()) ==> DistinctBy(KeptJournals(js, p), JournalKey())
    ensures AllJournalsOk(js, rules, whole) ==> AllJournalsOk(js, rules, p)
  {
    if js != [] {
      var front, last := js[..|js| - 1], js[|js| - 1];
      PartJournals(front, rules, whole, p);
      PartKeys(last.transactions, DateOf(), TransactionKey(), whole, p);
      AllFront(js, rules, whole);
      AllFront(js, rules, p);
      LastStep(js, rules, whole);
      LastStep(js, rules, p);
      hide *;
      KeysAppend(KeptJournals(front, p), Part(last, p), JournalKey());
      KeysAppend(KeptJournals(front, whole), Part(last, whole), JournalKey());
      PartHeading(last, p, whole);
      if JournalOk(Part(last, whole), rules) {
        PartIsSound(last, rules, whole, p);
      }
    } else {
      hide JournalOk;
    }
  }

  lemma PartHeading(j: Journal, p: Period, whole: Period)
    requires |Keep(j.transactions, DateOf(), p)| <= |Keep(j.transactions, DateOf(), whole)|
    ensures JournalKey()(Part(j, p)) == JournalKey()(Part(j, whole))
    ensures Part(j, p).transactions != [] ==> Part(j, whole).transactions != []
  {
  }

  lemma PartSelectable(js: seq<Journal>, rules: LedgerRules, whole: Period, p: Period)
    requires Inside(p, whole) && AllSelectable(js, rules, whole)
    ensures AllSelectable(js, rules, p)
  {
    hide Within, ValidDate;
    forall j | j in js
      ensures Selectable(j.transactions, LedgerView(rules), p)
    {
      assert Selectable(j.transactions, LedgerView(rules), whole);
    }
  }

  /** A part of a period passes every check the whole passes, but perhaps not its sums. */
  lemma PartExportable(js: seq<Journal>, rules: LedgerRules, whole: Period, p: Period)
    requires Inside(p, whole) && Exportable(js, rules, whole)
    ensures Exportable(js, rules, p)
  {
    hide Inside, AllSelectable, AllJournalsOk, Keep, KeptJournals, Flat, DistinctBy, KeysOf;
    PartJournals(js, rules, whole, p);
    PartSelectable(js, rules, whole, p);
    PartKeys(Flat(js), DateOf(), TransactionKey(), whole, p);
  }

  /**
   The ledger of a whole period splits. The filter succeeds on a part exactly when the part's own amounts are summable,
   as they are in both parts whenever the totals of the whole are the true ones. Two parts that succeed are disjoint;
   together they are all of the whole exactly when no transaction is dated between them, and then their totals add up to
   those of the whole.
   */
  lemma LedgerPeriodsCompose(e: Entries, rules: LedgerRules, whole: Period, p: Period, q: Period, includeEmpty: bool)
    requires SplitInto(whole, p, q) && Filtered(Some(e), rules, whole, includeEmpty).Ok?
    ensures Filtered(Some(e), rules, p, includeEmpty).Ok? <==> LedgerSummable(e.journals, p)
    ensures Filtered(Some(e), rules, q, includeEmpty).Ok? <==> LedgerSummable(e.journals, q)
    ensures TrueLedger(e.journals, whole) ==>
              && LedgerSummable(e.journals, p) && LedgerSummable(e.journals, q)
              && TrueLedger(e.journals, p) && TrueLedger(e.journals, q)
    ensures LedgerSummable(e.journals, p) && LedgerSummable(e.journals, q) ==>
              var all, first, second := AsSelection(Filtered(Some(e), rules, whole, includeEmpty).value),
                                        AsSelection(Filtered(Some(e), rules, p, includeEmpty).value),
                                        AsSelection(Filtered(Some(e), rules, q, includeEmpty).value);
              && (forall t :: !(t in first.items && t in second.items))
              && (multiset(first.items) + multiset(second.items) == multiset(all.items) <==>
                  forall t :: t in Flat(e.journals) ==> !Between(DateOf()(t), p, q))
              && ((forall t :: t in Flat(e.journals) ==> !Between(DateOf()(t), p, q)) ==> AddUp(first, second, all))
  {
    hide *;
    var js := e.journals;
    FilteredIs(e, rules, whole, includeEmpty);
    FilteredIs(e, rules, p, includeEmpty);
    FilteredIs(e, rules, q, includeEmpty);
    PartsInside(whole, p, q);
    PartExportable(js, rules, whole, p);
    PartExportable(js, rules, whole, q);
    NoCommonMember(Flat(js), DateOf(), whole, p, q);
    PartsAreWholeExactlyWhen(Flat(js), DateOf(), DebitSide(), whole, p, q);
    if TrueLedger(js, whole) {
      TrueLedgerTrueParts(js, whole, p, q);
    }
    if LedgerSummable(js, p) && LedgerSummable(js, q) && forall t :: t in Flat(js) ==> !Between(DateOf()(t), p, q) {
      ExactAmounts(js, whole, p, q);
      FilteredShows(e, rules, whole, includeEmpty);
      FilteredShows(e, rules, p, includeEmpty);
      FilteredShows(e, rules, q, includeEmpty);
      TotalsAddUp(AsSelection(Filtered(Some(e), rules, p, includeEmpty).value),
                  AsSelection(Filtered(Some(e), rules, q, includeEmpty).value),
                  AsSelection(Filtered(Some(e), rules, whole, includeEmpty).value),
                  Total(Debits(js, p)), Total(Credits(js, p)), Total(Debits(js, q)), Total(Credits(js, q)));
    }
  }

  lemma FilteredShows(e: Entries, rules: LedgerRules, p: Period, includeEmpty: bool)
    requires Filtered(Some(e), rules, p, includeEmpty).Ok?
    ensures Shows(AsSelection(Filtered(Some(e), rules, p, includeEmpty).value),
                  Total(Debits(e.journals, p)), Total(Credits(e.journals, p)))
  {
    hide Filtered, AsSelection, Debits, Credits, Total, Exportable, Wrap64, Money.FormatCanonical;
    FilteredIs(e, rules, p, includeEmpty);
  }

  lemma TrueLedgerTrueParts(js: seq<Journal>, whole: Period, p: Period, q: Period)
    requires SplitInto(whole, p, q) && LedgerSummable(js, whole) && TrueLedger(js, whole)
    ensures AmountsFit(Debits(js, whole)) && AmountsFit(Credits(js, whole))
    ensures LedgerSummable(js, p) && LedgerSummable(js, q) && TrueLedger(js, p) && TrueLedger(js, q)
  {
    hide SplitInto, NeverNegative, AmountsFit, Debits, Credits, Total;
    SmallTotalFits(0, Debits(js, whole));
    SmallTotalFits(0, Credits(js, whole));
    PartAmounts(js, whole, p, q);
    FittingNeverNegative(0, Debits(js, p));
    FittingNeverNegative(0, Credits(js, p));
    FittingNeverNegative(0, Debits(js, q));
    FittingNeverNegative(0, Credits(js, q));
  }

  /** So with amounts that fit both parts always succeed, and their totals add up whenever nothing falls between. */
  lemma FittingLedgerPeriodsCompose(e: Entries, rules: LedgerRules, whole: Period, p: Period, q: Period,
                                    includeEmpty: bool)
    requires SplitInto(whole, p, q) && Filtered(Some(e), rules, whole, includeEmpty).Ok?
    requires AmountsFit(Debits(e.journals, whole)) && AmountsFit(Credits(e.journals, whole))
    ensures Filtered(Some(e), rules, p, includeEmpty).Ok? && Filtered(Some(e), rules, q, includeEmpty).Ok?
    ensures var all, first, second := AsSelection(Filtered(Some(e), rules, whole, includeEmpty).value),
                                      AsSelection(Filtered(Some(e), rules, p, includeEmpty).value),
                                      AsSelection(Filtered(Some(e), rules, q, includeEmpty).value);
            && (forall t :: !(t in first.items && t in second.items))
            && (multiset(first.items) + multiset(second.items) == multiset(all.items) <==>
                forall t :: t in Flat(e.journals) ==> !Between(DateOf()(t), p, q))
            && ((forall t :: t in Flat(e.journals) ==> !Between(DateOf()(t), p, q)) ==> AddUp(first, second, all))
  {
    TrueWhenFitting(e, rules, whole, includeEmpty);
    hide *;
    LedgerPeriodsCompose(e, rules, whole, p, q, includeEmpty);
  }

  lemma TrueWhenFitting(e: Entries, rules: LedgerRules, p: Period, includeEmpty: bool)
    requires Filtered(Some(e), rules, p, includeEmpty).Ok?
    requires AmountsFit(Debits(e.journals, p)) && AmountsFit(Credits(e.journals, p))
    ensures TrueLedger(e.journals, p)
  {
    hide Filtered, AsSelection, Debits, Credits, Total, Exportable, Wrap64, Money.FormatCanonical, NeverNegative,
         AmountsFit;
    FilteredIs(e, rules, p, includeEmpty);
    FittingNeverNegative(0, Debits(e.journals, p));
    FittingNeverNegative(0, Credits(e.journals, p));
  }

  lemma PartAmounts(js: seq<Journal>, whole: Period, p: Period, q: Period)
    requires SplitInto(whole, p, q) && AmountsFit(Debits(js, whole)) && AmountsFit(Credits(js, whole))
    ensures AmountsFit(Debits(js, p)) && AmountsFit(Credits(js, p))
    ensures AmountsFit(Debits(js, q)) && AmountsFit(Credits(js, q))
    ensures Total(Debits(js, p)) + Total(Debits(js, q)) <= Total(Debits(js, whole))
    ensures Total(Credits(js, p)) + Total(Credits(js, q)) <= Total(Credits(js, whole))
  {
    hide AmountsFit, SplitInto, Gather, Keep, KeepBetween, Total, Flat;
    PartFits(Flat(js), DateOf(), DebitSide(), whole, p, q);
    PartFits(Flat(js), DateOf(), CreditSide(), whole, p, q);
    WholeAmounts(Flat(js), DateOf(), DebitSide(), whole, p, q);
    WholeAmounts(Flat(js), DateOf(), CreditSide(), whole, p, q);
  }

  lemma ExactAmounts(js: seq<Journal>, whole: Period, p: Period, q: Period)
    requires SplitInto(whole, p, q) && forall t :: t in Flat(js) ==> !Between(DateOf()(t), p, q)
    ensures Total(Debits(js, p)) + Total(Debits(js, q)) == Total(Debits(js, whole))
    ensures Total(Credits(js, p)) + Total(Credits(js, q)) == Total(Credits(js, whole))
  {
    hide SplitInto, Gather, Keep, Total, Flat, Between, DateOf;
    PartsAreWholeExactlyWhen(Flat(js), DateOf(), DebitSide(), whole, p, q);
    PartsAreWholeExactlyWhen(Flat(js), DateOf(), CreditSide(), whole, p, q);
  }
}
