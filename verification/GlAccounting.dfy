/**
 Every record accounted for (internal/saftao/mapglentries.go, export.go): what the mapping omits, files and totals, and
 what the export keeps of it.
 */
module GlAccounting {
  import opened Prelude
  import opened Text
  import opened Numerals
  import opened SaftAmounts
  import opened SaftPeriods
  import opened SaftExport
  import opened SaftLedger
  import opened SaftLedgerPeriods
  import opened GlMapping
  import Money

  // ----- what the records come to -----

  /** The transactions of the records that can be mapped, in order. */
  function MappedOf(recs: seq<Record>, cfg: Config, checks: Checks): seq<Transaction> {
    if recs == [] then []
    else
      var front, fate := MappedOf(recs[..|recs| - 1], cfg, checks), FateOf(recs[|recs| - 1], cfg, checks);
      if fate.Mapped? then front + [fate.transaction] else front
  }

  /** Those of one journal. */
  function JournalOf(recs: seq<Record>, id: string, cfg: Config, checks: Checks): seq<Transaction> {
    if recs == [] then []
    else
      var last := recs[|recs| - 1];
      var front, fate := JournalOf(recs[..|recs| - 1], id, cfg, checks), FateOf(last, cfg, checks);
      if fate.Mapped? && TrimSpace(last.journalId) == id then front + [fate.transaction] else front
  }

  /** The omissions of the records that cannot. */
  function OmittedOf(recs: seq<Record>, cfg: Config, checks: Checks): seq<Omission> {
    if recs == [] then []
    else
      var last := recs[|recs| - 1];
      var front, fate := OmittedOf(recs[..|recs| - 1], cfg, checks), FateOf(last, cfg, checks);
      if fate.Omitted? then front + OmissionsOf(last, fate.fields) else front
  }

  predicate Opened(st: MapState) {
    && (forall i :: 0 <= i < |st.order| ==> st.order[i] in st.journals)
    && (forall i, k :: 0 <= i < k < |st.order| ==> st.order[i] != st.order[k])
    && (forall id :: id in st.journals ==> id in st.order)
  }

  /** The journals in the order they were opened. */
  function OutJournals(st: MapState): seq<Journal>
    requires Opened(st)
  {
    seq(|st.order|, i requires 0 <= i < |st.order| => st.journals[st.order[i]])
  }

  ghost predicate JournalsMatch(st: MapState, recs: seq<Record>, cfg: Config, checks: Checks) {
    && (forall id :: id in st.journals ==>
          st.journals[id].id == id && st.journals[id].transactions == JournalOf(recs, id, cfg, checks) != [])
    && (forall id: string :: JournalOf(recs, id, cfg, checks) != [] ==> id in st.journals)
  }

  ghost predicate Accounted(st: MapState, recs: seq<Record>, cfg: Config, checks: Checks) {
    && Opened(st) && JournalsMatch(st, recs, cfg, checks)
    && st.omissions == OmittedOf(recs, cfg, checks) && st.mapped == |MappedOf(recs, cfg, checks)|
    && multiset(Flat(OutJournals(st))) == multiset(MappedOf(recs, cfg, checks))
  }

  lemma {:induction false} FlatUpdate(js: seq<Journal>, k: nat, t: Transaction)
    requires k < |js|
    ensures multiset(Flat(js[k := js[k].(transactions := js[k].transactions + [t])])) ==
            multiset(Flat(js)) + multiset{t}
  {
    hide Flat;
    var front, last := js[..|js| - 1], js[|js| - 1];
    var changed := js[k].(transactions := js[k].transactions + [t]);
    assert js == front + [last];
    FlatAppend(front, last);
    if k == |js| - 1 {
      assert js[k := changed] == front + [changed];
      FlatAppend(front, changed);
      assert Flat(front) + (last.transactions + [t]) == Flat(front) + last.transactions + [t];
    } else {
      FlatUpdate(front, k, t);
      assert js[k := changed] == front[k := changed] + [last];
      FlatAppend(front[k := changed], last);
    }
  }

  lemma FiledFlat(st: MapState, rec: Record, t: Transaction)
    requires Opened(st)
    ensures Opened(Filed(st, rec, t))
    ensures multiset(Flat(OutJournals(Filed(st, rec, t)))) == multiset(Flat(OutJournals(st))) + multiset{t}
  {
    hide Flat;
    var id := TrimSpace(rec.journalId);
    var after := Filed(st, rec, t);
    if id in st.journals {
      var k :| 0 <= k < |st.order| && st.order[k] == id;
      var js := OutJournals(st);
      assert OutJournals(after) == js[k := js[k].(transactions := js[k].transactions + [t])];
      FlatUpdate(js, k, t);
    } else {
      assert OutJournals(after) == OutJournals(st) + [after.journals[id]];
      FlatAppend(OutJournals(st), after.journals[id]);
      assert [] + [t] == [t];
    }
  }

  lemma FiledMatches(st: MapState, front: seq<Record>, rec: Record, cfg: Config, checks: Checks)
    requires JournalsMatch(st, front, cfg, checks) && FateOf(rec, cfg, checks).Mapped?
    ensures JournalsMatch(Filed(st, rec, FateOf(rec, cfg, checks).transaction), front + [rec], cfg, checks)
  {
    hide FateOf;
    assert (front + [rec])[..|front|] == front;
    var after := Filed(st, rec, FateOf(rec, cfg, checks).transaction);
    var mine := TrimSpace(rec.journalId);
    forall id: string
      ensures JournalOf(front + [rec], id, cfg, checks) ==
              if id == mine then JournalOf(front, id, cfg, checks) + [FateOf(rec, cfg, checks).transaction]
              else JournalOf(front, id, cfg, checks)
    {
    }
    hide TrimSpace, JournalOf;
    if mine !in st.journals {
      assert JournalOf(front, mine, cfg, checks) == [];
    }
  }

  lemma UnfiledMatches(st: MapState, front: seq<Record>, rec: Record, cfg: Config, checks: Checks)
    requires JournalsMatch(st, front, cfg, checks) && !FateOf(rec, cfg, checks).Mapped?
    ensures JournalsMatch(st, front + [rec], cfg, checks)
  {
    hide FateOf;
    assert (front + [rec])[..|front|] == front;
  }

  lemma LastFate(front: seq<Record>, rec: Record, cfg: Config, checks: Checks)
    ensures var fate := FateOf(rec, cfg, checks);
            && MappedOf(front + [rec], cfg, checks) ==
               (if fate.Mapped? then MappedOf(front, cfg, checks) + [fate.transaction]
                else MappedOf(front, cfg, checks))
            && OmittedOf(front + [rec], cfg, checks) ==
               if fate.Omitted? then OmittedOf(front, cfg, checks) + OmissionsOf(rec, fate.fields)
               else OmittedOf(front, cfg, checks)
  {
    hide FateOf;
    assert (front + [rec])[..|front|] == front;
  }

  /**
   The loop succeeds exactly when neither the omissions nor the transactions are too many, and then accounts for every
   record: omitted with its omissions, or filed once under its journal, in order.
   */
  lemma {:induction false} MappingAccounts(recs: seq<Record>, cfg: Config, checks: Checks)
    ensures MapAll(recs, cfg, checks).Ok? <==>
            |OmittedOf(recs, cfg, checks)| <= MaxOmissions(cfg) && |MappedOf(recs, cfg, checks)| <= MAX_TABLE_ENTRIES
    ensures MapAll(recs, cfg, checks).Ok? ==> Accounted(MapAll(recs, cfg, checks).value, recs, cfg, checks)
  {
    if recs == [] {
      NothingAccounted(cfg, checks);
    } else {
      var front, last := recs[..|recs| - 1], recs[|recs| - 1];
      assert front + [last] == recs;
      MappingAccounts(front, cfg, checks);
      LastFate(front, last, cfg, checks);
      assert MapAll(recs, cfg, checks) ==
             if MapAll(front, cfg, checks).Err? then MapAll(front, cfg, checks)
             else MapStep(MapAll(front, cfg, checks).value, last, cfg, checks);
      hide *;
      if MapAll(front, cfg, checks).Ok? {
        CountsOf(MapAll(front, cfg, checks).value, front, cfg, checks);
        StepAccounts(MapAll(front, cfg, checks).value, front, last, cfg, checks);
      }
    }
  }

  lemma NothingAccounted(cfg: Config, checks: Checks)
    ensures Accounted(NOTHING_MAPPED, [], cfg, checks) && MaxOmissions(cfg) > 0
  {
    assert OutJournals(NOTHING_MAPPED) == [];
    assert Flat([]) == [];
  }

  lemma StepAccounts(st: MapState, front: seq<Record>, last: Record, cfg: Config, checks: Checks)
    requires Accounted(st, front, cfg, checks)
    requires |st.omissions| <= MaxOmissions(cfg) && st.mapped <= MAX_TABLE_ENTRIES
    ensures MapStep(st, last, cfg, checks).Ok? <==>
            |OmittedOf(front + [last], cfg, checks)| <= MaxOmissions(cfg) &&
            |MappedOf(front + [last], cfg, checks)| <= MAX_TABLE_ENTRIES
    ensures MapStep(st, last, cfg, checks).Ok? ==>
              Accounted(MapStep(st, last, cfg, checks).value, front + [last], cfg, checks)
  {
    hide FateOf, MappedOf, OmittedOf, JournalOf, JournalsMatch, Opened, Flat, Filed, OutJournals, MaxOmissions;
    LastFate(front, last, cfg, checks);
    match FateOf(last, cfg, checks) {
      case Mapped(t) =>
        FiledFlat(st, last, t);
        FiledMatches(st, front, last, cfg, checks);
        FiledCounts(st, last, t);
      case Omitted(fields) =>
        UnfiledMatches(st, front, last, cfg, checks);
        SameJournals(st, st.omissions + OmissionsOf(last, fields), front + [last], cfg, checks);
      case _ => UnfiledMatches(st, front, last, cfg, checks);
    }
  }

  lemma CountsOf(st: MapState, recs: seq<Record>, cfg: Config, checks: Checks)
    requires Accounted(st, recs, cfg, checks)
    ensures |st.omissions| == |OmittedOf(recs, cfg, checks)| && st.mapped == |MappedOf(recs, cfg, checks)|
  {
  }

  lemma FiledCounts(st: MapState, rec: Record, t: Transaction)
    ensures Filed(st, rec, t).omissions == st.omissions && Filed(st, rec, t).mapped == st.mapped + 1
  {
  }

  lemma SameJournals(st: MapState, omissions: seq<Omission>, recs: seq<Record>, cfg: Config, checks: Checks)
    requires Opened(st) && JournalsMatch(st, recs, cfg, checks)
    ensures var after := st.(omissions := omissions);
            Opened(after) && JournalsMatch(after, recs, cfg, checks) && OutJournals(after) == OutJournals(st)
  {
    hide JournalOf;
  }
}
