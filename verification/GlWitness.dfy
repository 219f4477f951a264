/** A record that is mapped, counted, and then dropped by the export: a blank in front of the configured start. */
module GlWitness {
  import opened Prelude
  import opened Text
  import opened Numerals
  import opened SaftAmounts
  import opened SaftPeriods
  import opened SaftExport
  import opened SaftLedger
  import opened SaftLedgerPeriods
  import opened GlMapping
  import opened GlAccounting
  import opened GlExport
  import opened GlTheorems
  import Money

  function Early(): string { "2023-12-31" }
  function FirstDay(): string { "2024-01-01" }
  function LastDay(): string { "2024-12-31" }

  /** Field checks that object to nothing, on a calendar where every instant falls on the early date. */
  function AnyChecks(): Checks {
    Checks((s: string) => true, (s: string) => true, (s: string) => true, (s: string) => true, (s: string) => true,
           (s: string) => true, (s: string) => true, (t: int) => Some(Early()), (t: int) => Some(Early()),
           (r: Record) => 0)
  }

  function AnyRules(): LedgerRules {
    LedgerRules({"N"}, (t: Transaction) => true, (id: string, description: string) => true)
  }

  /** The year 2024, with a blank in front of its first day. */
  function PaddedYear(): Config {
    Config("s", Period(" " + FirstDay(), LastDay()), 0, false)
  }

  /** One unit debited and credited on the last day of 2023. */
  function OneRecord(): Record {
    var line := LedgerLine("1", "1", "d", 100, None);
    Record("s", "d", Some(0), None, "J", "d", "T", 1, "u", "d", "A", "N", "", "", "", [line], [line])
  }

  // ----- dates spelled out -----

  lemma TwoDigitsRead(s: string)
    requires |s| == 2 && AllDigits(s)
    ensures NatValue(s) == 10 * DigitValue(s[0]) + DigitValue(s[1])
  {
    assert s[..1][..0] == "";
    assert NatValue(s[..1]) == DigitValue(s[0]);
  }

  lemma FourDigitsRead(s: string)
    requires |s| == 4 && AllDigits(s)
    ensures NatValue(s) == 1000 * DigitValue(s[0]) + 100 * DigitValue(s[1]) + 10 * DigitValue(s[2]) + DigitValue(s[3])
  {
    assert s[..3][..2] == s[..2];
    TwoDigitsRead(s[..2]);
    assert NatValue(s[..3]) == 10 * NatValue(s[..2]) + DigitValue(s[2]);
  }

  /** The parts of a date text, read digit by digit. */
  lemma DateRead(s: string)
    requires |s| == 10 && s[4] == '-' && s[7] == '-'
    requires AllDigits(s[..4]) && AllDigits(s[5..7]) && AllDigits(s[8..])
    ensures NatValue(s[..4]) ==
            1000 * DigitValue(s[0]) + 100 * DigitValue(s[1]) + 10 * DigitValue(s[2]) + DigitValue(s[3])
    ensures NatValue(s[5..7]) == 10 * DigitValue(s[5]) + DigitValue(s[6])
    ensures NatValue(s[8..]) == 10 * DigitValue(s[8]) + DigitValue(s[9])
  {
    FourDigitsRead(s[..4]);
    TwoDigitsRead(s[5..7]);
    TwoDigitsRead(s[8..]);
  }

  lemma EarlyIs()
    ensures DateText(Early()) && DayOf(Early()) == Day(2023, 12, 31)
  {
    DateRead(Early());
    hide NatValue;
  }

  lemma FirstDayIs()
    ensures DateText(FirstDay()) && DayOf(FirstDay()) == Day(2024, 1, 1)
  {
    DateRead(FirstDay());
    hide NatValue;
  }

  lemma LastDayIs()
    ensures DateText(LastDay()) && DayOf(LastDay()) == Day(2024, 12, 31)
  {
    DateRead(LastDay());
    hide NatValue;
  }

  lemma YearIs()
    ensures DateText(Early()) && DateText(FirstDay()) && DateText(LastDay())
    ensures Less(Early(), FirstDay()) && !Less(LastDay(), Early()) && !Less(LastDay(), FirstDay())
    ensures TrimSpace(" " + FirstDay()) == FirstDay() && TrimSpace(LastDay()) == LastDay()
  {
    EarlyIs();
    FirstDayIs();
    LastDayIs();
    DateOrder(Early(), FirstDay());
    DateOrder(LastDay(), Early());
    DateOrder(LastDay(), FirstDay());
    DateTrimmed(LastDay());
    PaddedDate(FirstDay());
  }

  lemma DateTrimmed(d: string)
    requires DateText(d)
    ensures TrimSpace(d) == d && d != ""
  {
    assert IsDigit(d[..4][0]) && IsDigit(d[8..][1]);
    DigitsTrimmed(d);
  }

  lemma PaddedDate(d: string)
    requires DateText(d)
    ensures TrimSpace(" " + d) == d
  {
    DateTrimmed(d);
    assert IsDigit(d[..4][0]);
    assert (" " + d)[1..] == d;
    assert TrimLeft(" " + d) == TrimLeft(d) == d;
  }

  // ----- the record is mapped -----

  lemma Letters()
    ensures TrimSpace("s") == "s" && Blank("")
  {
    TrimmedStays("s");
  }

  lemma NoProblems()
    ensures Problems(OneRecord(), AnyChecks()) == []
  {
    var rec, checks := OneRecord(), AnyChecks();
    var line := rec.debits[0];
    Letters();
    hide TrimSpace;
    assert FieldProblems(rec, checks) == [];
    assert LineProblem(line, rec, checks) == None;
    assert [line][1..] == [];
    assert SideProblem("debit_", [line], rec, checks) == [] && SideProblem("credit_", [line], rec, checks) == [];
  }

  lemma RecordIsMapped()
    ensures FateOf(OneRecord(), PaddedYear(), AnyChecks()) ==
            Mapped(MappedTransaction(OneRecord(), Early(), AnyChecks()))
  {
    YearIs();
    PaddedStartAdmits(Early(), FirstDay(), LastDay());
    NoProblems();
    Letters();
    hide Problems, MappedTransaction, Within, TrimSpace, Less, DateText;
  }

  /** The transaction made of the record: dated early, one unit on either side. */
  function OneTransaction(): Transaction {
    MappedTransaction(OneRecord(), Early(), AnyChecks())
  }

  lemma OneTransactionIs()
    ensures OneTransaction().date == Early() && OneTransaction().kind == "N"
    ensures OneTransaction().debits == [CentsText(100)] && OneTransaction().credits == [CentsText(100)]
  {
    hide CentsText, TrimSpace;
  }

  lemma RecordsAre()
    ensures SortRecords([OneRecord()]) == [OneRecord()]
    ensures MappedOf([OneRecord()], PaddedYear(), AnyChecks()) == [OneTransaction()]
    ensures OmittedOf([OneRecord()], PaddedYear(), AnyChecks()) == []
  {
    hide FateOf, OneRecord, OneTransaction, AnyChecks, PaddedYear, MappedTransaction;
    var r := OneRecord();
    assert [r][..0] == [];
    assert SortRecords([]) == [];
    RecordIsMapped();
    NamedTransaction();
    NoFates(PaddedYear(), AnyChecks());
    LastFate([], r, PaddedYear(), AnyChecks());
    assert [] + [r] == [r] && [] + [OneTransaction()] == [OneTransaction()];
  }

  lemma NamedTransaction()
    ensures OneTransaction() == MappedTransaction(OneRecord(), Early(), AnyChecks())
  {
  }

  // ----- and exported without it -----

  lemma OnlyMember<T>(xs: seq<T>, x: T)
    requires multiset(xs) == multiset([x])
    ensures xs == [x]
  {
    assert |multiset(xs)| == |xs| && |multiset([x])| == 1;
    assert xs[0] in multiset(xs);
  }

  lemma OneGathered(side: Transaction -> seq<string>)
    ensures Gather([OneTransaction()], side) == side(OneTransaction())
  {
    hide OneTransaction;
    assert [OneTransaction()][..0] == [];
    assert Gather([], side) == [];
    assert Gather([OneTransaction()], side) == [] + side(OneTransaction());
  }

  lemma OneAmount(m: string)
    requires ValidMoney2(m) && Amount(m) <= MAX_INT64
    ensures AmountsFit([m]) && Total([m]) == Amount(m)
  {
    hide ValidMoney2, Amount;
    assert [m][..0] == [];
  }

  lemma ZeroIs()
    ensures Zero() == Money.FormatCanonical(0)
  {
  }

  lemma OneSum(side: Transaction -> seq<string>)
    requires side(OneTransaction()) == [CentsText(100)]
    ensures Accumulate(Zero(), Gather([OneTransaction()], side)).Some?
  {
    hide CentsText, OneTransaction, Money.FormatCanonical;
    OneGathered(side);
    CentsTextFits(100);
    OneAmount(CentsText(100));
    hide *;
    assert Zero() == Money.FormatCanonical(0) by { ZeroIs(); }
    AccumulateExact(0, [CentsText(100)]);
  }

  /** Entries all of whose transactions are validly dated outside the period come out as nothing. */
  lemma NothingLeft(e: Entries, rules: LedgerRules, p: Period)
    requires forall t :: t in Flat(e.journals) ==> ValidDate(t.date) && !Within(t.date, p)
    ensures Filtered(Some(e), rules, p, false).Ok?
  {
    var js := e.journals;
    NothingKeptOf(js, p);
    hide Within, Flat, Keep, KeptJournals, Filtered, ValidDate;
    assert Debits(js, p) == [] && Credits(js, p) == [] by {
      assert Gather([], DebitSide()) == [] && Gather([], CreditSide()) == [];
    }
    AllOutside(js, rules, p);
    assert Sizes(js, p) by { assert DistinctBy([], JournalKey()); }
    assert NeverNegative(0, []);
    FilteredIs(e, rules, p, false);
  }

  lemma NothingKeptOf(js: seq<Journal>, p: Period)
    requires forall t :: t in Flat(js) ==> !Within(t.date, p)
    ensures Keep(Flat(js), DateOf(), p) == [] && KeptJournals(js, p) == []
  {
    hide Within, Flat, Keep;
    var kept := Keep(Flat(js), DateOf(), p);
    if kept != [] {
      KeptMember(Flat(js), DateOf(), p, kept[0]);
    }
    FlatKept(js, p);
    NothingKept(js, p);
  }

  lemma {:induction false} JournalsInFlat(js: seq<Journal>)
    ensures forall j, t :: j in js && t in j.transactions ==> t in Flat(js)
  {
    if js != [] {
      var front, last := js[..|js| - 1], js[|js| - 1];
      JournalsInFlat(front);
      assert js == front + [last];
    }
  }

  lemma AllOutside(js: seq<Journal>, rules: LedgerRules, p: Period)
    requires KeptJournals(js, p) == []
    requires forall t :: t in Flat(js) ==> ValidDate(t.date) && !Within(t.date, p)
    ensures AllSelectable(js, rules, p) && AllJournalsOk(js, rules, p)
  {
    hide Within, ValidDate, Flat, KeptJournals;
    JournalsInFlat(js);
  }

  /**
   The mapping of the record succeeds and reports one record mapped, and the export made of it is not what was built:
   the transaction is dropped, and with it the only entry.
   */
  lemma MappedAndDropped()
    ensures var records, cfg, checks, rules := [OneRecord()], PaddedYear(), AnyChecks(), AnyRules();
            && ReportOf(records, cfg, checks, rules).Ok? && ReportOf(records, cfg, checks, rules).value.mapped == 1
            && MapAll(SortRecords(records), cfg, checks).Ok?
            && Opened(MapAll(SortRecords(records), cfg, checks).value)
            && ReportOf(records, cfg, checks, rules).value.exported !=
               Seeded(MapAll(SortRecords(records), cfg, checks).value, cfg.includeEmpty).value
  {
    hide OneRecord, OneTransaction, PaddedYear, AnyChecks, AnyRules, FateOf, MapAll, SortRecords, MappedOf, OmittedOf,
         Filtered, Less, DateText, Within, TrimSpace, Accumulate, Gather, Flat, OutJournals, FormatNat, Accounted,
         Early, FirstDay, LastDay;
    var records, cfg, checks, rules := [OneRecord()], PaddedYear(), AnyChecks(), AnyRules();
    RecordsAre();
    ConfigIs();
    MappingAccounts(records, cfg, checks);
    var st := MapAll(records, cfg, checks).value;
    CountsOf(st, records, cfg, checks);
    AccountedOpened(st, records, cfg, checks);
    FlatIs(st);
    NamedTransactionParts();
    OneSum(DebitSide());
    OneSum(CreditSide());
    YearIs();
    var e := Seeded(st, false).value.value;
    Outside();
    NothingLeft(e, rules, HeaderPeriod(cfg.period));
    ExportKeepsAllExactlyWhen(records, cfg, checks, rules) by { EarlyChecks(); }
    assert OneTransaction() in MappedOf(records, cfg, checks);
  }

  lemma ConfigIs()
    ensures ConfigOk(PaddedYear()) && MaxOmissions(PaddedYear()) > 0 && !PaddedYear().includeEmpty
    ensures HeaderPeriod(PaddedYear().period) == Period(FirstDay(), LastDay())
    ensures TrimSpace(PaddedYear().period.start) == FirstDay()
  {
    YearIs();
    Letters();
    PaddedStartAdmits(Early(), FirstDay(), LastDay());
    BlankBeforeAll();
    hide DateText, Less, TrimSpace, FirstDay, LastDay, Early;
  }

  lemma BlankBeforeAll()
    ensures !Less(LastDay(), " " + FirstDay())
  {
    LastDayIs();
    BlankFirst(" " + FirstDay(), LastDay());
    LessOrders(" " + FirstDay(), LastDay());
  }

  lemma FlatIs(st: MapState)
    requires Accounted(st, [OneRecord()], PaddedYear(), AnyChecks()) && Opened(st)
    ensures Flat(OutJournals(st)) == [OneTransaction()]
  {
    hide OneRecord, OneTransaction, PaddedYear, AnyChecks, MapAll, MappedOf, OmittedOf, Flat, OutJournals;
    RecordsAre();
    OnlyMember(Flat(OutJournals(st)), OneTransaction());
  }

  lemma NamedTransactionParts()
    ensures OneTransaction().date == Early()
    ensures DebitSide()(OneTransaction()) == [CentsText(100)] && CreditSide()(OneTransaction()) == [CentsText(100)]
  {
    hide OneTransaction, CentsText;
    OneTransactionIs();
  }

  lemma Outside()
    ensures ValidDate(Early()) && !Within(Early(), Period(FirstDay(), LastDay()))
  {
    YearIs();
    EarlyIs();
    DateTrimmed(Early());
    hide DateText, Less, Early, FirstDay, LastDay;
  }

  lemma EarlyChecks()
    ensures WritesDates(AnyChecks())
  {
    EarlyIs();
    hide DateText;
  }
}
