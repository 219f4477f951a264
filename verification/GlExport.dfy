/**
 The ledger mapping as a whole (internal/saftao/mapglentries.go): sort, map, seed the totals, export - and what the
 export makes of what was mapped.
 */
module GlExport {
  import opened Prelude
  import opened Text
  import opened Numerals
  import opened SaftAmounts
  import opened SaftPeriods
  import opened SaftExport
  import opened SaftLedger
  import opened SaftLedgerPeriods
  import opened GlMapping
  import opened GlAccounting
  import Money

  // ----- the order records are taken in -----

  predicate Earlier(a: Option<int>, b: Option<int>) {
    b.Some? && (a.None? || a.value < b.value)
  }

  /** By journal, then document, then instant. */
  predicate RecordLess(a: Record, b: Record) {
    if a.journalId != b.journalId then Less(a.journalId, b.journalId)
    else if a.documentId != b.documentId then Less(a.documentId, b.documentId)
    else Earlier(a.at, b.at)
  }

  function Insert(r: Record, sorted: seq<Record>): seq<Record> {
    if sorted == [] then [r]
    else
      var front, last := sorted[..|sorted| - 1], sorted[|sorted| - 1];
      if RecordLess(r, last) then Insert(r, front) + [last] else sorted + [r]
  }

  function SortRecords(recs: seq<Record>): seq<Record> {
    if recs == [] then [] else Insert(recs[|recs| - 1], SortRecords(recs[..|recs| - 1]))
  }

  ghost predicate Ordered(recs: seq<Record>) {
    forall i, k :: 0 <= i < k < |recs| ==> !RecordLess(recs[k], recs[i])
  }

  lemma RecordOrder(a: Record, b: Record, c: Record)
    ensures !(RecordLess(a, b) && RecordLess(b, a))
    ensures !RecordLess(b, a) && !RecordLess(c, b) ==> !RecordLess(c, a)
  {
    LessOrders(a.journalId, b.journalId);
    LessOrders(b.journalId, c.journalId);
    LessOrders(a.journalId, c.journalId);
    LessOrders(a.documentId, b.documentId);
    LessOrders(b.documentId, c.documentId);
    LessOrders(a.documentId, c.documentId);
    Chained(a.journalId, b.journalId, c.journalId);
    Chained(a.documentId, b.documentId, c.documentId);
    hide Less;
  }

  lemma {:induction false} InsertOrders(r: Record, sorted: seq<Record>)
    requires Ordered(sorted)
    ensures Ordered(Insert(r, sorted)) && multiset(Insert(r, sorted)) == multiset(sorted) + multiset{r}
  {
    hide RecordLess;
    if sorted != [] {
      var front, last := sorted[..|sorted| - 1], sorted[|sorted| - 1];
      assert sorted == front + [last];
      var out := Insert(r, sorted);
      if RecordLess(r, last) {
        InsertOrders(r, front);
        forall i | 0 <= i < |out| - 1
          ensures !RecordLess(out[|out| - 1], out[i])
        {
          assert out[i] in multiset(Insert(r, front));
          RecordOrder(r, last, last);
        }
      } else {
        forall i | 0 <= i < |out| - 1
          ensures !RecordLess(out[|out| - 1], out[i])
        {
          RecordOrder(sorted[i], last, r);
        }
      }
    }
  }

  lemma {:induction false} SortOrders(recs: seq<Record>)
    ensures Ordered(SortRecords(recs)) && multiset(SortRecords(recs)) == multiset(recs)
  {
    if recs != [] {
      hide Insert, Ordered;
      var front, last := recs[..|recs| - 1], recs[|recs| - 1];
      assert recs == front + [last];
      SortOrders(front);
      InsertOrders(last, SortRecords(front));
    } else {
      hide RecordLess;
    }
  }

  lemma {:induction false} InsertFates(r: Record, sorted: seq<Record>, cfg: Config, checks: Checks)
    ensures multiset(MappedOf(Insert(r, sorted), cfg, checks)) ==
            multiset(MappedOf(sorted, cfg, checks)) + multiset(MappedOf([r], cfg, checks))
    ensures multiset(OmittedOf(Insert(r, sorted), cfg, checks)) ==
            multiset(OmittedOf(sorted, cfg, checks)) + multiset(OmittedOf([r], cfg, checks))
  {
    if sorted == [] {
      NoFates(cfg, checks);
    } else {
      var front, last := sorted[..|sorted| - 1], sorted[|sorted| - 1];
      assert sorted == front + [last];
      if RecordLess(r, last) {
        assert Insert(r, sorted) == Insert(r, front) + [last];
        hide *;
        InsertFates(r, front, cfg, checks);
        FatesAppend(Insert(r, front), last, cfg, checks);
        FatesAppend(front, last, cfg, checks);
      } else {
        assert Insert(r, sorted) == sorted + [r];
        hide *;
        FatesAppend(sorted, r, cfg, checks);
      }
    }
  }

  lemma FatesAppend(recs: seq<Record>, r: Record, cfg: Config, checks: Checks)
    ensures multiset(MappedOf(recs + [r], cfg, checks)) ==
            multiset(MappedOf(recs, cfg, checks)) + multiset(MappedOf([r], cfg, checks))
    ensures multiset(OmittedOf(recs + [r], cfg, checks)) ==
            multiset(OmittedOf(recs, cfg, checks)) + multiset(OmittedOf([r], cfg, checks))
  {
    hide FateOf, MappedOf, OmittedOf, OmissionsOf;
    NoFates(cfg, checks);
    assert [] + [r] == [r];
    LastFate([], r, cfg, checks);
    LastFate(recs, r, cfg, checks);
    if FateOf(r, cfg, checks).Omitted? {
      assert [] + OmissionsOf(r, FateOf(r, cfg, checks).fields) == OmissionsOf(r, FateOf(r, cfg, checks).fields);
    }
  }

  lemma NoFates(cfg: Config, checks: Checks)
    ensures MappedOf([], cfg, checks) == [] && OmittedOf([], cfg, checks) == []
  {
  }

  /** Sorting changes the order of what is mapped and omitted, and nothing else. */
  lemma {:induction false} SortedFates(recs: seq<Record>, cfg: Config, checks: Checks)
    ensures multiset(MappedOf(SortRecords(recs), cfg, checks)) == multiset(MappedOf(recs, cfg, checks))
    ensures multiset(OmittedOf(SortRecords(recs), cfg, checks)) == multiset(OmittedOf(recs, cfg, checks))
  {
    if recs != [] {
      var front, last := recs[..|recs| - 1], recs[|recs| - 1];
      assert recs == front + [last];
      assert SortRecords(recs) == Insert(last, SortRecords(front));
      hide *;
      SortedFates(front, cfg, checks);
      InsertFates(last, SortRecords(front), cfg, checks);
      FatesAppend(front, last, cfg, checks);
    }
  }

  // ----- the call -----

  datatype Report = Report(exported: Option<Entries>, mapped: nat, omissions: seq<Omission>)

  /** The entries handed to the export, with their totals seeded from the lines. */
  function Seeded(st: MapState, includeEmpty: bool): Result<Option<Entries>, MapError>
    requires Opened(st)
  {
    if st.mapped > 0 then
      var js := OutJournals(st);
      var debit := Accumulate(Zero(), Gather(Flat(js), DebitSide()));
      var credit := Accumulate(Zero(), Gather(Flat(js), CreditSide()));
      if debit.None? || credit.None? then Err(BadTotals)
      else Ok(Some(Entries(FormatNat(st.mapped), debit.value, credit.value, js)))
    else Ok(if includeEmpty then Some(EmptyEntries()) else None)
  }

  /** The export trims the header's dates; the mapping compared with them as they were. */
  function HeaderPeriod(p: Period): Period {
    Period(TrimSpace(p.start), TrimSpace(p.end))
  }

  function ConfigOk(cfg: Config): bool {
    && !Blank(cfg.scopeId) && ValidDate(cfg.period.start) && ValidDate(cfg.period.end)
    && !Less(cfg.period.end, cfg.period.start)
  }

  ghost function ReportOf(records: seq<Record>, cfg: Config, checks: Checks, rules: LedgerRules)
    : Result<Report, MapError>
  {
    if !ConfigOk(cfg) then Err(BadConfig)
    else
      match MapAll(SortRecords(records), cfg, checks)
      case Err(e) => Err(e)
      case Ok(st) =>
        MappingAccounts(SortRecords(records), cfg, checks);
        match Seeded(st, cfg.includeEmpty)
        case Err(e) => Err(e)
        case Ok(entries) =>
          if Less(HeaderPeriod(cfg.period).end, HeaderPeriod(cfg.period).start) then Err(BadConfig)
          else
            match Filtered(entries, rules, HeaderPeriod(cfg.period), cfg.includeEmpty)
            case Err(e) => Err(ExportFailed(e))
            case Ok(exported) => Ok(Report(exported, st.mapped, st.omissions))
  }

  method SeedTotals(js: seq<Journal>) returns (debit: Option<string>, credit: Option<string>)
    ensures debit == Accumulate(Zero(), Gather(Flat(js), DebitSide()))
    ensures credit == Accumulate(Zero(), Gather(Flat(js), CreditSide()))
  {
    debit := SeedSide(js, DebitSide());
    credit := SeedSide(js, CreditSide());
  }

  /** Journal by journal, transaction by transaction, line by line. */
  method SeedSide(js: seq<Journal>, side: Transaction -> seq<string>) returns (total: Option<string>)
    ensures total == Accumulate(Zero(), Gather(Flat(js), side))
  {
    hide Accumulate, Zero;
    var sum := Zero();
    EmptySum(side);
    for i := 0 to |js|
      invariant Accumulate(Zero(), Gather(Flat(js[..i]), side)) == Some(sum)
    {
      var ts := js[i].transactions;
      hide Flat, Gather;
      SideSoFar(js, i, 0, side);
      for k := 0 to |ts|
        invariant Accumulate(Zero(), Gather(Flat(js[..i]) + ts[..k], side)) == Some(sum)
      {
        SideNext(js, i, k, side);
        var more := AddAll(sum, side(ts[k]));
        if more.None? {
          return None;
        }
        sum := more.value;
      }
      SideSoFar(js, i, |ts|, side);
    }
    assert js[..|js|] == js;
    total := Some(sum);
  }

  lemma EmptySum(side: Transaction -> seq<string>)
    ensures Accumulate(Zero(), Gather(Flat([]), side)) == Some(Zero())
  {
    assert Flat([]) == [];
    assert Gather([], side) == [];
  }

  lemma SideSoFar(js: seq<Journal>, i: nat, k: nat, side: Transaction -> seq<string>)
    requires i < |js| && k <= |js[i].transactions|
    ensures k == 0 ==> Flat(js[..i]) + js[i].transactions[..k] == Flat(js[..i])
    ensures k == |js[i].transactions| ==> Flat(js[..i]) + js[i].transactions[..k] == Flat(js[..i + 1])
  {
    assert js[..i + 1] == js[..i] + [js[i]];
    FlatAppend(js[..i], js[i]);
  }

  lemma SideNext(js: seq<Journal>, i: nat, k: nat, side: Transaction -> seq<string>)
    requires i < |js| && k < |js[i].transactions|
    requires Accumulate(Zero(), Gather(Flat(js[..i]) + js[i].transactions[..k], side)).Some?
    ensures var t := js[i].transactions[k];
            var sum := Accumulate(Zero(), Gather(Flat(js[..i]) + js[i].transactions[..k], side)).value;
            var next := Accumulate(sum, side(t));
            && Accumulate(Zero(), Gather(Flat(js[..i]) + js[i].transactions[..k + 1], side)) == next
            && (next.None? ==> Accumulate(Zero(), Gather(Flat(js), side)).None?)
  {
    hide Accumulate, Zero, Flat, Gather;
    var ts := js[i].transactions;
    var done, now := Flat(js[..i]) + ts[..k], Flat(js[..i]) + ts[..k + 1];
    assert now == done + [ts[k]];
    GatherAppend(done, ts[k], side);
    AccumulateConcat(Zero(), Gather(done, side), side(ts[k]));
    FlatPrefix(js, i, k + 1);
    var rest :| Flat(js) == now + rest;
    GatherConcat(now, rest, side);
    AccumulateConcat(Zero(), Gather(now, side), Gather(rest, side));
  }

  lemma {:induction false} FlatPrefix(js: seq<Journal>, i: nat, k: nat)
    requires i < |js| && k <= |js[i].transactions|
    ensures exists rest :: Flat(js) == Flat(js[..i]) + js[i].transactions[..k] + rest
    decreases |js|
  {
    hide Flat;
    var front, last := js[..|js| - 1], js[|js| - 1];
    assert js == front + [last];
    FlatAppend(front, last);
    if i == |js| - 1 {
      assert js[..i] == front;
      assert last.transactions == last.transactions[..k] + last.transactions[k..];
      assert Flat(js) == Flat(front) + last.transactions[..k] + last.transactions[k..];
    } else {
      FlatPrefix(front, i, k);
      assert front[..i] == js[..i];
      var rest :| Flat(front) == Flat(front[..i]) + front[i].transactions[..k] + rest;
      assert Flat(js) == Flat(js[..i]) + js[i].transactions[..k] + (rest + last.transactions);
    }
  }

  /** MapGLEntriesLedgerToExport. */
  method MapLedgerToExport(records: seq<Record>, cfg: Config, checks: Checks, rules: LedgerRules)
    returns (r: Result<Report, MapError>)
    ensures r == ReportOf(records, cfg, checks, rules)
  {
    hide MapAll, Accumulate, Filtered, SortRecords, FormatNat, Accounted;
    if !ConfigOk(cfg) {
      return Err(BadConfig);
    }
    var sorted := SortRecords(records);
    var mapping := MapRecords(sorted, cfg, checks);
    if mapping.Err? {
      return Err(mapping.error);
    }
    var st := mapping.value;
    MappingAccounts(sorted, cfg, checks);
    AccountedOpened(st, sorted, cfg, checks);
    var entries: Option<Entries> := if cfg.includeEmpty then Some(EmptyEntries()) else None;
    if st.mapped > 0 {
      var js := OutJournals(st);
      var debit, credit := SeedTotals(js);
      if debit.None? || credit.None? {
        return Err(BadTotals);
      }
      entries := Some(Entries(FormatNat(st.mapped), debit.value, credit.value, js));
    }
    var p := HeaderPeriod(cfg.period);
    if Less(p.end, p.start) {
      return Err(BadConfig);
    }
    var exported := FilterGeneralLedgerEntries(entries, p, rules, cfg.includeEmpty);
    r := if exported.Err? then Err(ExportFailed(exported.error))
         else Ok(Report(exported.value, st.mapped, st.omissions));
  }

  lemma AccountedOpened(st: MapState, recs: seq<Record>, cfg: Config, checks: Checks)
    requires Accounted(st, recs, cfg, checks)
    ensures Opened(st)
  {
  }
}
