/** What a successful ledger mapping says about every record, and about the export made of it. */
module GlTheorems {
  import opened Prelude
  import opened Text
  import opened Numerals
  import opened SaftAmounts
  import opened SaftPeriods
  import opened SaftExport
  import opened SaftLedger
  import opened SaftLedgerPeriods
  import opened GlMapping
  import opened GlAccounting
  import opened GlExport
  import Money

  /** Instants are written as dates of the calendar. */
  ghost predicate WritesDates(checks: Checks) {
    forall t :: checks.dateOf(t).Some? ==> DateText(checks.dateOf(t).value)
  }

  // ----- padded configuration dates -----

  lemma TrimStart(s: string)
    requires s != "" && !IsSpace(s[0])
    ensures exists rest :: s == TrimSpace(s) + rest
  {
    TrimRightPrefix(s);
    assert TrimSpace(s) == TrimRight(s);
  }

  lemma {:induction false} TrimRightPrefix(s: string)
    ensures exists rest :: s == TrimRight(s) + rest
  {
    if s != "" && IsSpace(s[|s| - 1]) {
      TrimRightPrefix(s[..|s| - 1]);
      var rest :| s[..|s| - 1] == TrimRight(s[..|s| - 1]) + rest;
      assert s == s[..|s| - 1] + [s[|s| - 1]];
      assert s == TrimRight(s) + (rest + [s[|s| - 1]]);
    } else {
      assert s == TrimRight(s) + "";
    }
  }

  /** A blank sorts before every date. */
  lemma BlankFirst(s: string, d: string)
    requires s != "" && IsSpace(s[0]) && DateText(d)
    ensures Less(s, d)
  {
    assert IsDigit(d[..4][0]);
  }

  /** Dates of one length against a padded one. */
  lemma PaddedEnd(d: string, end: string)
    requires DateText(d) && DateText(TrimSpace(end)) && !Less(end, d)
    ensures !Less(TrimSpace(end), d)
  {
    if end != "" && IsSpace(end[0]) {
      BlankFirst(end, d);
    } else {
      TrimStart(end);
      var rest :| end == TrimSpace(end) + rest;
      LessAppended(TrimSpace(end), d, rest, "");
      assert d + "" == d;
    }
  }

  lemma PaddedStart(d: string, start: string)
    requires DateText(d) && DateText(TrimSpace(start)) && start != "" && !IsSpace(start[0]) && !Less(d, start)
    ensures !Less(d, TrimSpace(start))
  {
    TrimStart(start);
    var rest :| start == TrimSpace(start) + rest;
    LessAppended(d, TrimSpace(start), "", rest);
    assert d + "" == d;
  }

  lemma WrittenDate(checks: Checks, t: int)
    requires WritesDates(checks)
    ensures checks.dateOf(t).Some? ==> DateText(checks.dateOf(t).value)
  {
  }

  lemma MappedDate(rec: Record, cfg: Config, checks: Checks)
    requires WritesDates(checks) && FateOf(rec, cfg, checks).Mapped?
    ensures var t := FateOf(rec, cfg, checks).transaction; DateText(t.date) && Within(t.date, cfg.period)
  {
    hide DateText, Within, Problems, TrimSpace, AmountTexts;
    var date := checks.dateOf(rec.at.value);
    WrittenDate(checks, rec.at.value);
    assert FateOf(rec, cfg, checks).transaction == MappedTransaction(rec, date.value, checks);
  }

  /** A mapped record is dated, in scope, in the period as configured. */
  lemma {:induction false} MappedDates(recs: seq<Record>, cfg: Config, checks: Checks)
    requires WritesDates(checks)
    ensures forall t :: t in MappedOf(recs, cfg, checks) ==> DateText(t.date) && Within(t.date, cfg.period)
  {
    if recs != [] {
      hide MappedOf, DateText, Within, FateOf, WritesDates;
      var front, last := recs[..|recs| - 1], recs[|recs| - 1];
      assert recs == front + [last];
      MappedDates(front, cfg, checks);
      LastFate(front, last, cfg, checks);
      if FateOf(last, cfg, checks).Mapped? {
        MappedDate(last, cfg, checks);
      }
    } else {
      NoFates(cfg, checks);
    }
  }

  /** The export's period is the configured one, but for a start with blanks in front. */
  lemma ExportPeriod(d: string, p: Period)
    requires DateText(d) && Within(d, p) && ValidDate(p.start) && ValidDate(p.end)
    ensures Within(d, HeaderPeriod(p)) <==> !Less(d, TrimSpace(p.start))
    ensures p.start != "" && (!IsSpace(p.start[0]) ==> Within(d, HeaderPeriod(p)))
  {
    PaddedEnd(d, p.end);
    assert p.start != "" by {
      assert TrimSpace("") == "";
    }
    if !IsSpace(p.start[0]) {
      PaddedStart(d, p.start);
    }
  }

  /** With a blank in front of its start a period admits, in the mapping, dates that the export then leaves out. */
  lemma PaddedStartAdmits(d: string, start: string, end: string)
    requires DateText(d) && DateText(start) && DateText(end) && Less(d, start) && !Less(end, d)
    ensures var p := Period(" " + start, end);
            ValidDate(p.start) && ValidDate(p.end) && Within(d, p) && !Within(d, HeaderPeriod(p))
  {
    var p := Period(" " + start, end);
    assert IsDigit(start[..4][0]) && IsDigit(start[8..][1]);
    assert IsDigit(end[..4][0]) && IsDigit(end[8..][1]);
    DigitsTrimmed(start);
    DigitsTrimmed(end);
    assert (" " + start)[1..] == start;
    assert TrimLeft(" " + start) == TrimLeft(start) == start;
    BlankFirst(p.start, d);
    LessOrders(p.start, d);
  }

  // ----- amounts -----

  lemma CentsTextFits(cents: Int64)
    ensures ValidMoney2(CentsText(cents)) && Amount(CentsText(cents)) <= MAX_INT64
    ensures cents >= 0 ==> Amount(CentsText(cents)) == cents
  {
    hide Money.FormatCanonical, ValidMoney2, Amount, ParseMoneyCents, ValidDecimal;
    if cents >= 0 {
      AccumulatorText(cents);
    } else {
      AccumulatorText(0);
    }
  }

  lemma AmountTextsFit(lines: seq<LedgerLine>)
    ensures AmountsFit(AmountTexts(lines))
  {
    hide CentsText, ValidMoney2, Amount;
    forall m | m in AmountTexts(lines)
      ensures ValidMoney2(m) && Amount(m) <= MAX_INT64
    {
      var i :| 0 <= i < |lines| && m == CentsText(lines[i].cents);
      CentsTextFits(lines[i].cents);
    }
  }

  lemma {:induction false} MappedAmountsFit(recs: seq<Record>, cfg: Config, checks: Checks)
    ensures forall t :: t in MappedOf(recs, cfg, checks) ==> AmountsFit(t.debits) && AmountsFit(t.credits)
  {
    if recs != [] {
      hide MappedOf, AmountsFit, Problems, Within, AmountTexts;
      var front, last := recs[..|recs| - 1], recs[|recs| - 1];
      assert recs == front + [last];
      MappedAmountsFit(front, cfg, checks);
      LastFate(front, last, cfg, checks);
      AmountTextsFit(last.debits);
      AmountTextsFit(last.credits);
    } else {
      NoFates(cfg, checks);
    }
  }

  lemma {:induction false} GatheredFit(ts: seq<Transaction>, side: Transaction -> seq<string>)
    requires forall t :: t in ts ==> AmountsFit(side(t))
    ensures AmountsFit(Gather(ts, side))
  {
    if ts != [] {
      hide AmountsFit, Gather;
      var front, last := ts[..|ts| - 1], ts[|ts| - 1];
      assert ts == front + [last];
      GatheredFit(front, side);
      GatherFits(front, last, side);
    } else {
      assert Gather(ts, side) == [];
    }
  }

  // ----- everything mapped is exported -----

  lemma {:induction false} AllKept(js: seq<Journal>, p: Period)
    requires forall t :: t in Flat(js) ==> Within(t.date, p)
    requires forall i :: 0 <= i < |js| ==> js[i].transactions != []
    ensures KeptJournals(js, p) == js && Keep(Flat(js), DateOf(), p) == Flat(js)
  {
    KeepAgain(Flat(js), DateOf(), p);
    if js != [] {
      hide Keep, Within;
      var front, last := js[..|js| - 1], js[|js| - 1];
      assert js == front + [last];
      FlatAppend(front, last);
      hide Flat;
      AllKept(front, p);
      KeepAgain(last.transactions, DateOf(), p);
      assert Part(last, p) == last;
    }
  }

  /** Entries that all lie in the period come out of the filter as they went in. */
  lemma NothingDropped(e: Entries, rules: LedgerRules, p: Period, includeEmpty: bool)
    requires forall t :: t in Flat(e.journals) ==> Within(t.date, p)
    requires forall i :: 0 <= i < |e.journals| ==> e.journals[i].transactions != []
    requires |Flat(e.journals)| > 0 && e.numberOfEntries == FormatNat(|Flat(e.journals)|)
    requires Accumulate(Zero(), Gather(Flat(e.journals), DebitSide())) == Some(e.totalDebit)
    requires Accumulate(Zero(), Gather(Flat(e.journals), CreditSide())) == Some(e.totalCredit)
    requires Filtered(Some(e), rules, p, includeEmpty).Ok?
    ensures Filtered(Some(e), rules, p, includeEmpty) == Ok(Some(e))
  {
    hide Journals, Accumulate, Gather, Keep, KeptJournals, AllSelectable, AllJournalsOk, EntriesOk, FormatNat, Flat,
         Zero;
    LedgerIs(e.journals, rules, p);
    AllKept(e.journals, p);
  }

  /** A result that kept fewer transactions is not the one that went in. */
  lemma SomethingDropped(e: Entries, rules: LedgerRules, p: Period, includeEmpty: bool)
    requires exists t :: t in Flat(e.journals) && !Within(t.date, p)
    requires Filtered(Some(e), rules, p, includeEmpty).Ok?
    ensures Filtered(Some(e), rules, p, includeEmpty) != Ok(Some(e))
  {
    hide Journals, Accumulate, Gather, Keep, KeptJournals, AllSelectable, AllJournalsOk, EntriesOk, FormatNat, Flat,
         Zero;
    LedgerIs(e.journals, rules, p);
    FlatKept(e.journals, p);
    var t :| t in Flat(e.journals) && !Within(t.date, p);
    KeptMember(Flat(e.journals), DateOf(), p, t);
    NoFlat();
  }

  lemma NoFlat()
    ensures Flat([]) == [] && EmptyEntries().journals == []
  {
  }

  // ----- the theorem -----

  /** The mapping's own entries: present, and made of what was mapped. */
  lemma SeededEntries(st: MapState, recs: seq<Record>, cfg: Config, checks: Checks)
    requires Accounted(st, recs, cfg, checks) && st.mapped > 0 && Opened(st) && Seeded(st, cfg.includeEmpty).Ok?
    ensures Seeded(st, cfg.includeEmpty).value.Some?
    ensures var e := Seeded(st, cfg.includeEmpty).value.value;
            && e.journals == OutJournals(st)
            && multiset(Flat(e.journals)) == multiset(MappedOf(recs, cfg, checks)) && |Flat(e.journals)| == st.mapped
            && e.numberOfEntries == FormatNat(st.mapped)
            && Accumulate(Zero(), Gather(Flat(e.journals), DebitSide())) == Some(e.totalDebit)
            && Accumulate(Zero(), Gather(Flat(e.journals), CreditSide())) == Some(e.totalCredit)
            && (forall i :: 0 <= i < |e.journals| ==> e.journals[i].transactions != [])
  {
    hide Accumulate, Gather, Flat, MappedOf, FormatNat, JournalOf, OmittedOf;
    var js := OutJournals(st);
    assert |multiset(Flat(js))| == |Flat(js)|;
    assert |multiset(MappedOf(recs, cfg, checks))| == |MappedOf(recs, cfg, checks)|;
    NonEmptyJournals(st, recs, cfg, checks);
  }

  lemma NonEmptyJournals(st: MapState, recs: seq<Record>, cfg: Config, checks: Checks)
    requires JournalsMatch(st, recs, cfg, checks) && Opened(st)
    ensures forall i :: 0 <= i < |OutJournals(st)| ==> OutJournals(st)[i].transactions != []
  {
    hide JournalOf;
  }

  lemma SameMembers<T>(a: seq<T>, b: seq<T>)
    requires multiset(a) == multiset(b)
    ensures forall x :: x in a <==> x in b
  {
    forall x
      ensures x in a <==> x in b
    {
      assert x in multiset(a) <==> x in multiset(b);
    }
  }

  /**
   A successful mapping accounts for every record: Mapped is the number of records that could be mapped, the omissions
   are those of the ones that could not, and the journals hold each mapped transaction once.
   */
  lemma EveryRecordAccountedFor(records: seq<Record>, cfg: Config, checks: Checks, rules: LedgerRules)
    requires ReportOf(records, cfg, checks, rules).Ok?
    ensures var report := ReportOf(records, cfg, checks, rules).value;
            && report.mapped == |MappedOf(records, cfg, checks)|
            && multiset(report.omissions) == multiset(OmittedOf(records, cfg, checks))
    ensures var sorted := SortRecords(records);
            && Ordered(sorted) && multiset(sorted) == multiset(records)
            && MapAll(sorted, cfg, checks).Ok? && Accounted(MapAll(sorted, cfg, checks).value, sorted, cfg, checks)
  {
    hide MappedOf, OmittedOf, SortRecords, MapAll, Filtered, FormatNat, Accumulate, Ordered;
    var sorted := SortRecords(records);
    SortOrders(records);
    SortedFates(records, cfg, checks);
    MappingAccounts(sorted, cfg, checks);
    assert |multiset(MappedOf(sorted, cfg, checks))| == |MappedOf(sorted, cfg, checks)|;
    assert |multiset(MappedOf(records, cfg, checks))| == |MappedOf(records, cfg, checks)|;
    hide JournalsMatch, Opened, OutJournals, Flat;
  }

  /**
   When something was mapped, the export is exactly what the mapping built - NumberOfEntries is Mapped, the recomputed
   totals are the seeded ones, no transaction is dropped - if and only if no mapped transaction is dated before the
   trimmed start of the period; and that is so whenever the configured start has no blank in front.
   */
  lemma ExportKeepsAllExactlyWhen(records: seq<Record>, cfg: Config, checks: Checks, rules: LedgerRules)
    requires WritesDates(checks) && ReportOf(records, cfg, checks, rules).Ok?
    requires ReportOf(records, cfg, checks, rules).value.mapped > 0
    ensures MapAll(SortRecords(records), cfg, checks).Ok?
    ensures Opened(MapAll(SortRecords(records), cfg, checks).value)
    ensures var built := Seeded(MapAll(SortRecords(records), cfg, checks).value, cfg.includeEmpty);
            && built.Ok? && built.value.Some?
            && built.value.value.numberOfEntries == FormatNat(|MappedOf(records, cfg, checks)|)
            && (ReportOf(records, cfg, checks, rules).value.exported == built.value <==>
                forall t :: t in MappedOf(records, cfg, checks) ==> !Less(t.date, TrimSpace(cfg.period.start)))
    ensures cfg.period.start != ""
    ensures !IsSpace(cfg.period.start[0]) ==>
              forall t :: t in MappedOf(records, cfg, checks) ==> !Less(t.date, TrimSpace(cfg.period.start))
  {
    hide MappedOf, OmittedOf, SortRecords, MapAll, Filtered, FormatNat, Accumulate, Ordered, Seeded, Accounted, Opened,
         Flat, Less, Within, DateText, TrimSpace, Gather, OutJournals, WritesDates;
    EveryRecordAccountedFor(records, cfg, checks, rules);
    SortedFates(records, cfg, checks);
    var sorted := SortRecords(records);
    var st := MapAll(sorted, cfg, checks).value;
    AccountedOpened(st, sorted, cfg, checks);
    SeededEntries(st, sorted, cfg, checks);
    var e := Seeded(st, cfg.includeEmpty).value.value;
    SameMembers(Flat(e.journals), MappedOf(records, cfg, checks));
    MappedDates(records, cfg, checks);
    StartNotEmpty(cfg.period.start);
    var p := HeaderPeriod(cfg.period);
    forall t | t in MappedOf(records, cfg, checks)
      ensures Within(t.date, p) <==> !Less(t.date, TrimSpace(cfg.period.start))
      ensures !IsSpace(cfg.period.start[0]) ==> !Less(t.date, TrimSpace(cfg.period.start))
    {
      ExportPeriod(t.date, cfg.period);
    }
    if forall t :: t in Flat(e.journals) ==> Within(t.date, p) {
      NothingDropped(e, rules, p, cfg.includeEmpty);
    } else {
      SomethingDropped(e, rules, p, cfg.includeEmpty);
    }
  }

  lemma StartNotEmpty(start: string)
    requires ValidDate(start)
    ensures start != ""
  {
    assert TrimSpace("") == "";
  }

  /** The seeded totals are the exact sums of the cents mapped: nothing wraps. */
  lemma SeededTotalsAreExact(records: seq<Record>, cfg: Config, checks: Checks, st: MapState)
    requires Accounted(st, records, cfg, checks) && Opened(st) && st.mapped > 0 && Seeded(st, cfg.includeEmpty).Ok?
    ensures Seeded(st, cfg.includeEmpty).value.Some?
    ensures var e := Seeded(st, cfg.includeEmpty).value.value;
            var debits, credits := Gather(Flat(e.journals), DebitSide()), Gather(Flat(e.journals), CreditSide());
            && Total(debits) <= MAX_INT64 && Total(credits) <= MAX_INT64
            && e.totalDebit == Money.FormatCanonical(Total(debits))
            && e.totalCredit == Money.FormatCanonical(Total(credits))
  {
    hide Accumulate, Gather, Flat, MappedOf, FormatNat, Accounted, Opened, OutJournals, Total, Money.FormatCanonical,
         AmountsFit, Seeded;
    SeededEntries(st, records, cfg, checks);
    var e := Seeded(st, cfg.includeEmpty).value.value;
    MappedAmountsFit(records, cfg, checks);
    SameMembers(Flat(e.journals), MappedOf(records, cfg, checks));
    GatheredFit(Flat(e.journals), DebitSide());
    GatheredFit(Flat(e.journals), CreditSide());
    AccumulateExact(0, Gather(Flat(e.journals), DebitSide()));
    AccumulateExact(0, Gather(Flat(e.journals), CreditSide()));
  }
}
