/**
 What the ledger mapping makes of each record, column by column, and what the export comes to, stated on the records
 themselves (internal/saftao/mapglentries.go).
 */
module GlEffects {
  import opened Prelude
  import opened Text
  import opened Numerals
  import opened SaftAmounts
  import opened SaftPeriods
  import opened SaftExport
  import opened SaftLedger
  import opened SaftLedgerPeriods
  import opened GlMapping
  import opened GlAccounting
  import opened GlExport
  import opened GlTheorems
  import Money

  // ----- one record -----

  /** The line's own instant, or else that of the seal, or else that of the transaction, can be written. */
  predicate Dated(ln: LedgerLine, rec: Record, checks: Checks) {
    match (ln.entryAt, rec.sealedAt, rec.at)
    case (Some(t), _, _) => checks.stampOf(t).Some?
    case (None, Some(t), _) => checks.stampOf(t).Some?
    case (None, None, Some(t)) => checks.stampOf(t).Some?
    case (None, None, None) => false
  }

  predicate LineFits(ln: LedgerLine, rec: Record, checks: Checks) {
    && checks.upTo30(ln.recordId) && checks.accountId(ln.accountId) && ln.cents > 0 && checks.upTo200(ln.description)
    && Dated(ln, rec, checks)
  }

  predicate HeadingFits(rec: Record, checks: Checks) {
    && checks.journalId(rec.journalId) && checks.upTo200(rec.journalDesc)
    && checks.transactionId(TrimSpace(rec.transactionId)) && 1 <= rec.period <= 16
    && checks.upTo30(TrimSpace(rec.sourceId))
  }

  predicate EntryFits(rec: Record, checks: Checks) {
    && checks.upTo200(rec.description) && checks.docArchival(rec.docArchival) && checks.kind(rec.kind)
    && (Blank(rec.postingDate) || ValidDate(rec.postingDate)) && (Blank(rec.customerId) || Blank(rec.supplierId))
    && rec.debits != [] && rec.credits != []
  }

  /** Nothing is missing or wrong in the record. */
  predicate RecordFits(rec: Record, checks: Checks) {
    && HeadingFits(rec, checks) && EntryFits(rec, checks)
    && (forall ln :: ln in rec.debits ==> LineFits(ln, rec, checks))
    && (forall ln :: ln in rec.credits ==> LineFits(ln, rec, checks))
  }

  /** Texts for the cents of these lines, each in its place. */
  ghost predicate Denote(texts: seq<string>, lines: seq<LedgerLine>) {
    |texts| == |lines| && forall i :: 0 <= i < |lines| ==> Denotes(texts[i], lines[i].cents)
  }

  predicate Denotes(text: string, cents: int) {
    ValidMoney2(text) && Amount(text) == cents
  }

  /** The first line of a side that does not fit is named by the first thing wrong with it. */
  ghost predicate NamedLine(field: string, side: string, lines: seq<LedgerLine>, i: nat, rec: Record, checks: Checks) {
    && i < |lines| && (forall k :: 0 <= k < i ==> LineFits(lines[k], rec, checks))
    && var ln := lines[i];
       if !checks.upTo30(ln.recordId) then field == side + "record_id"
       else if !checks.accountId(ln.accountId) then field == side + "account"
       else if ln.cents <= 0 then field == side + "amount"
       else if !checks.upTo200(ln.description) then field == side + "desc"
       else !Dated(ln, rec, checks) && field == side + "entry"
  }

  /** What is wrong with a record's own fields, and the name it goes by. */
  predicate WrongHeading(field: string, rec: Record, checks: Checks) {
    || (field == "journal_id" && !checks.journalId(rec.journalId))
    || (field == "journal_desc" && !checks.upTo200(rec.journalDesc))
    || (field == "transaction_id" && !checks.transactionId(TrimSpace(rec.transactionId)))
    || (field == "period" && !(1 <= rec.period <= 16))
    || (field == "source_id" && !checks.upTo30(TrimSpace(rec.sourceId)))
  }

  predicate WrongEntry(field: string, rec: Record, checks: Checks) {
    || (field == "description" && !checks.upTo200(rec.description))
    || (field == "doc_archival" && !checks.docArchival(rec.docArchival))
    || (field == "transaction_type" && !checks.kind(rec.kind))
    || (field == "gl_posting_date" && !Blank(rec.postingDate) && !ValidDate(rec.postingDate))
    || (field == "party" && !Blank(rec.customerId) && !Blank(rec.supplierId))
    || (field == "lines" && (rec.debits == [] || rec.credits == []))
  }

  /** What is wrong with a record, its lines included. */
  ghost predicate Wrong(field: string, rec: Record, checks: Checks) {
    || WrongHeading(field, rec, checks) || WrongEntry(field, rec, checks)
    || (exists i: nat :: NamedLine(field, "debit_", rec.debits, i, rec, checks))
    || (exists i: nat :: NamedLine(field, "credit_", rec.credits, i, rec, checks))
  }

  lemma DatedIs(ln: LedgerLine, rec: Record, checks: Checks)
    ensures Dated(ln, rec, checks) <==>
            EntryTime(ln, rec).Some? && checks.stampOf(EntryTime(ln, rec).value).Some?
    ensures LineFits(ln, rec, checks) <==> LineProblem(ln, rec, checks).None?
  {
  }

  lemma {:induction false} SideNames(field: string, side: string, lines: seq<LedgerLine>, rec: Record, checks: Checks)
    ensures field in SideProblem(side, lines, rec, checks) <==>
            exists i: nat :: NamedLine(field, side, lines, i, rec, checks)
    ensures SideProblem(side, lines, rec, checks) == [] <==> forall ln :: ln in lines ==> LineFits(ln, rec, checks)
  {
    if lines != [] {
      var rest := lines[1..];
      assert lines == [lines[0]] + rest;
      DatedIs(lines[0], rec, checks);
      if LineFits(lines[0], rec, checks) {
        SideNames(field, side, rest, rec, checks);
        if i: nat :| NamedLine(field, side, rest, i, rec, checks) {
          assert NamedLine(field, side, lines, i + 1, rec, checks);
        }
        if i: nat :| NamedLine(field, side, lines, i, rec, checks) {
          assert i > 0;
          assert NamedLine(field, side, rest, i - 1, rec, checks);
        }
      } else {
        assert NamedLine(field, side, lines, 0, rec, checks) <==> field in SideProblem(side, lines, rec, checks);
        assert lines[0] in lines;
      }
    }
  }

  lemma WhenNames(field: string, b: bool, name: string)
    ensures field in When(b, name) <==> b && field == name
    ensures |When(b, name)| == if b then 1 else 0
  {
  }

  lemma FieldsName(field: string, rec: Record, checks: Checks)
    ensures field in HeadingProblems(rec, checks) <==> WrongHeading(field, rec, checks)
    ensures |HeadingProblems(rec, checks)| == 0 <==> HeadingFits(rec, checks)
  {
    hide When, TrimSpace;
    WhenNames(field, !checks.journalId(rec.journalId), "journal_id");
    WhenNames(field, !checks.upTo200(rec.journalDesc), "journal_desc");
    WhenNames(field, !checks.transactionId(TrimSpace(rec.transactionId)), "transaction_id");
    WhenNames(field, rec.period < 1 || rec.period > 16, "period");
    WhenNames(field, !checks.upTo30(TrimSpace(rec.sourceId)), "source_id");
  }

  lemma EntriesName(field: string, rec: Record, checks: Checks)
    ensures field in EntryProblems(rec, checks) <==> WrongEntry(field, rec, checks)
    ensures |EntryProblems(rec, checks)| == 0 <==> EntryFits(rec, checks)
  {
    hide When, Blank, ValidDate;
    WhenNames(field, !checks.upTo200(rec.description), "description");
    WhenNames(field, !checks.docArchival(rec.docArchival), "doc_archival");
    WhenNames(field, !checks.kind(rec.kind), "transaction_type");
    WhenNames(field, !Blank(rec.postingDate) && !ValidDate(rec.postingDate), "gl_posting_date");
    WhenNames(field, !Blank(rec.customerId) && !Blank(rec.supplierId), "party");
    WhenNames(field, rec.debits == [] || rec.credits == [], "lines");
  }

  /** The fields named as missing are exactly those that are wrong; there are none exactly when the record fits. */
  lemma ProblemsName(field: string, rec: Record, checks: Checks)
    ensures field in Problems(rec, checks) <==> Wrong(field, rec, checks)
    ensures Problems(rec, checks) == [] <==> RecordFits(rec, checks)
  {
    SideNames(field, "debit_", rec.debits, rec, checks);
    SideNames(field, "credit_", rec.credits, rec, checks);
    FieldsName(field, rec, checks);
    EntriesName(field, rec, checks);
    hide SideProblem, LineFits, NamedLine, HeadingProblems, EntryProblems, WrongHeading, WrongEntry, HeadingFits,
         EntryFits;
  }

  lemma TextsDenote(lines: seq<LedgerLine>)
    requires forall ln :: ln in lines ==> ln.cents > 0
    ensures Denote(AmountTexts(lines), lines)
  {
    hide CentsText, ValidMoney2, Amount;
    forall i | 0 <= i < |lines|
      ensures Denotes(CentsText(lines[i].cents), lines[i].cents)
    {
      CentsTextFits(lines[i].cents);
    }
  }

  /**
   What becomes of a record. One of another scope, or dated outside the period, is passed over; one without a date or
   with something wrong is omitted under the names of what is wrong; any other becomes a transaction with its own
   identifier, date and type, whose debits are the record's debit lines and whose credits its credit lines.
   */
  lemma FateIs(rec: Record, cfg: Config, checks: Checks)
    ensures var fate := FateOf(rec, cfg, checks);
            if TrimSpace(rec.scopeId) != cfg.scopeId then fate == OutOfScope
            else if rec.at == None || checks.dateOf(rec.at.value) == None then fate == Omitted(["transaction_at"])
            else
              var date := checks.dateOf(rec.at.value).value;
              if Less(date, cfg.period.start) || Less(cfg.period.end, date) then fate == OutOfPeriod
              else if RecordFits(rec, checks) then
                && fate.Mapped? && fate.transaction.id == TrimSpace(rec.transactionId)
                && fate.transaction.date == date && fate.transaction.kind == rec.kind
                && Denote(fate.transaction.debits, rec.debits) && Denote(fate.transaction.credits, rec.credits)
              else fate.Omitted? && forall field :: field in fate.fields <==> Wrong(field, rec, checks)
  {
    forall field
      ensures field in Problems(rec, checks) <==> Wrong(field, rec, checks)
      ensures Problems(rec, checks) == [] <==> RecordFits(rec, checks)
    {
      ProblemsName(field, rec, checks);
    }
    if RecordFits(rec, checks) {
      TextsDenote(rec.debits) by { hide Denote; }
      TextsDenote(rec.credits) by { hide Denote; }
    }
    ProblemsName("", rec, checks);
    hide Problems, Wrong, RecordFits, Denote, AmountTexts, TrimSpace, Less;
  }

  // ----- all records -----

  /** The mapping omits exactly the fields of the records it omits, each under that record's scope and document. */
  lemma {:induction false} OmissionsAre(recs: seq<Record>, cfg: Config, checks: Checks, o: Omission)
    ensures o in OmittedOf(recs, cfg, checks) <==>
            exists rec ::
              && rec in recs && FateOf(rec, cfg, checks).Omitted? && o.field in FateOf(rec, cfg, checks).fields
              && o.scopeId == rec.scopeId && o.documentId == rec.documentId
  {
    if recs == [] {
      NoFates(cfg, checks);
    } else {
      hide OmittedOf, FateOf;
      var front, last := recs[..|recs| - 1], recs[|recs| - 1];
      assert recs == front + [last];
      OmissionsAre(front, cfg, checks, o);
      LastFate(front, last, cfg, checks);
      if FateOf(last, cfg, checks).Omitted? {
        var fields := FateOf(last, cfg, checks).fields;
        if o.field in fields && o.scopeId == last.scopeId && o.documentId == last.documentId {
          var i :| 0 <= i < |fields| && fields[i] == o.field;
          assert OmissionsOf(last, fields)[i] == o;
        }
      }
    }
  }

  /** The k-th record opens its journal: it is mapped, and the first of that journal to be. */
  ghost predicate Opens(recs: seq<Record>, k: nat, id: string, cfg: Config, checks: Checks) {
    && k < |recs| && FateOf(recs[k], cfg, checks).Mapped? && TrimSpace(recs[k].journalId) == id
    && forall m :: 0 <= m < k && FateOf(recs[m], cfg, checks).Mapped? ==> TrimSpace(recs[m].journalId) != id
  }

  /** The journals stand in the order of the records that opened them, and carry those records' descriptions. */
  ghost predicate OpenedBy(st: MapState, ks: seq<nat>, recs: seq<Record>, cfg: Config, checks: Checks) {
    && |ks| == |st.order| && (forall i, j :: 0 <= i < j < |ks| ==> ks[i] < ks[j])
    && (forall i :: 0 <= i < |ks| ==>
          && Opens(recs, ks[i], st.order[i], cfg, checks) && st.order[i] in st.journals
          && st.journals[st.order[i]].description == TrimSpace(recs[ks[i]].journalDesc))
  }

  lemma {:induction false} JournalsOpen(recs: seq<Record>, cfg: Config, checks: Checks) returns (ks: seq<nat>)
    requires MapAll(recs, cfg, checks).Ok?
    ensures OpenedBy(MapAll(recs, cfg, checks).value, ks, recs, cfg, checks)
  {
    if recs == [] {
      ks := [];
    } else {
      var front, last := recs[..|recs| - 1], recs[|recs| - 1];
      assert recs == front + [last];
      assert MapAll(front, cfg, checks).Ok?;
      var st, after := MapAll(front, cfg, checks).value, MapAll(recs, cfg, checks).value;
      assert MapStep(st, last, cfg, checks) == Ok(after);
      hide *;
      ks := JournalsOpen(front, cfg, checks);
      MappingAccounts(front, cfg, checks);
      NotOpened(st, front, cfg, checks);
      ks := OneMore(st, after, ks, front, last, cfg, checks);
    }
  }

  lemma OneMore(st: MapState, after: MapState, before: seq<nat>, front: seq<Record>, last: Record, cfg: Config,
                checks: Checks) returns (ks: seq<nat>)
    requires OpenedBy(st, before, front, cfg, checks) && MapStep(st, last, cfg, checks) == Ok(after)
    requires forall m :: 0 <= m < |front| && FateOf(front[m], cfg, checks).Mapped? ==>
                           TrimSpace(front[m].journalId) in st.journals
    ensures OpenedBy(after, ks, front + [last], cfg, checks)
  {
    hide FateOf, TrimSpace, OmissionsOf;
    var recs := front + [last];
    ks := before;
    forall i | 0 <= i < |ks|
      ensures Opens(recs, ks[i], st.order[i], cfg, checks)
    {
      assert Opens(front, ks[i], st.order[i], cfg, checks);
    }
    if FateOf(last, cfg, checks).Mapped? && TrimSpace(last.journalId) !in st.journals {
      assert Opens(recs, |front|, TrimSpace(last.journalId), cfg, checks);
      ks := ks + [|front|];
    }
  }

  /** A journal that is not open has no mapped record. */
  lemma NotOpened(st: MapState, recs: seq<Record>, cfg: Config, checks: Checks)
    requires Accounted(st, recs, cfg, checks)
    ensures forall m :: 0 <= m < |recs| && FateOf(recs[m], cfg, checks).Mapped? ==>
                          TrimSpace(recs[m].journalId) in st.journals
  {
    forall m | 0 <= m < |recs| && FateOf(recs[m], cfg, checks).Mapped?
      ensures TrimSpace(recs[m].journalId) in st.journals
    {
      HasMember(recs, m, cfg, checks);
    }
    hide FateOf, MappedOf, OmittedOf, JournalOf;
  }

  lemma {:induction false} HasMember(recs: seq<Record>, m: nat, cfg: Config, checks: Checks)
    requires m < |recs| && FateOf(recs[m], cfg, checks).Mapped?
    ensures JournalOf(recs, TrimSpace(recs[m].journalId), cfg, checks) != []
    decreases |recs|
  {
    hide FateOf, TrimSpace;
    if m < |recs| - 1 {
      HasMember(recs[..|recs| - 1], m, cfg, checks);
    }
  }

  /**
   The records are taken by journal, within a journal by document, within a document by instant, an absent one first.
   The mapping succeeds exactly when what it omits and what it maps stay within their limits.
   */
  lemma TakenInOrder(records: seq<Record>, cfg: Config, checks: Checks, i: nat, k: nat)
    ensures MapAll(SortRecords(records), cfg, checks).Ok? <==>
            && |OmittedOf(records, cfg, checks)| <= (if cfg.maxOmissions <= 0 then 100_000 else cfg.maxOmissions)
            && |MappedOf(records, cfg, checks)| <= 100_000
    ensures |SortRecords(records)| == |records|
    ensures i < k < |records| ==>
              var a, b := SortRecords(records)[i], SortRecords(records)[k];
              && !Less(b.journalId, a.journalId)
              && (a.journalId == b.journalId ==> !Less(b.documentId, a.documentId))
              && (a.journalId == b.journalId && a.documentId == b.documentId && a.at.Some? ==>
                    b.at.Some? && a.at.value <= b.at.value)
  {
    var sorted := SortRecords(records);
    MappingAccounts(sorted, cfg, checks);
    SortedFates(records, cfg, checks);
    SortOrders(records);
    SameSize(MappedOf(sorted, cfg, checks), MappedOf(records, cfg, checks));
    SameSize(OmittedOf(sorted, cfg, checks), OmittedOf(records, cfg, checks));
    SameSize(sorted, records);
    if i < k < |records| {
      NotLess(sorted[k], sorted[i]);
    }
    hide MapAll, SortRecords, OmittedOf, MappedOf, RecordLess, Less, Accounted;
  }

  lemma SameSize<T>(a: seq<T>, b: seq<T>)
    requires multiset(a) == multiset(b)
    ensures |a| == |b|
  {
    assert |multiset(a)| == |a| && |multiset(b)| == |b|;
  }

  lemma NotLess(b: Record, a: Record)
    ensures !RecordLess(b, a) ==>
              && !Less(b.journalId, a.journalId)
              && (a.journalId == b.journalId ==> !Less(b.documentId, a.documentId))
              && (a.journalId == b.journalId && a.documentId == b.documentId && a.at.Some? ==>
                    b.at.Some? && a.at.value <= b.at.value)
  {
    NotLessItself(a.journalId);
    NotLessItself(a.documentId);
    hide Less;
  }

  // ----- totals, stated on the records -----

  function CentsOf(lines: seq<LedgerLine>): int {
    if lines == [] then 0 else CentsOf(lines[..|lines| - 1]) + lines[|lines| - 1].cents
  }

  /** The records exported: those mapped, but for any dated before the start as the export's header has it. */
  predicate Exported(rec: Record, cfg: Config, checks: Checks) {
    && TrimSpace(rec.scopeId) == cfg.scopeId && rec.at.Some? && checks.dateOf(rec.at.value).Some?
    && var date := checks.dateOf(rec.at.value).value;
       && !Less(date, cfg.period.start) && !Less(cfg.period.end, date) && RecordFits(rec, checks)
       && !Less(date, TrimSpace(cfg.period.start))
  }

  function ExportedCount(recs: seq<Record>, cfg: Config, checks: Checks): nat {
    if recs == [] then 0
    else
      ExportedCount(recs[..|recs| - 1], cfg, checks) + if Exported(recs[|recs| - 1], cfg, checks) then 1 else 0
  }

  function ExportedDebits(recs: seq<Record>, cfg: Config, checks: Checks): int {
    if recs == [] then 0
    else
      var last := recs[|recs| - 1];
      ExportedDebits(recs[..|recs| - 1], cfg, checks) + if Exported(last, cfg, checks) then CentsOf(last.debits) else 0
  }

  function ExportedCredits(recs: seq<Record>, cfg: Config, checks: Checks): int {
    if recs == [] then 0
    else
      var last := recs[|recs| - 1];
      ExportedCredits(recs[..|recs| - 1], cfg, checks) +
      if Exported(last, cfg, checks) then CentsOf(last.credits) else 0
  }

  /** The sum of a weight over transactions. */
  function SumOf(ts: seq<Transaction>, weight: Transaction -> nat): nat {
    if ts == [] then 0 else SumOf(ts[..|ts| - 1], weight) + weight(ts[|ts| - 1])
  }

  lemma {:induction false} SumConcat(a: seq<Transaction>, b: seq<Transaction>, weight: Transaction -> nat)
    ensures SumOf(a + b, weight) == SumOf(a, weight) + SumOf(b, weight)
  {
    if b == [] {
      assert a + b == a;
    } else {
      SumConcat(a, b[..|b| - 1], weight);
      assert (a + b)[..|a + b| - 1] == a + b[..|b| - 1];
    }
  }

  /** A sum does not depend on the order. */
  lemma {:induction false} SumPermuted(a: seq<Transaction>, b: seq<Transaction>, weight: Transaction -> nat)
    requires multiset(a) == multiset(b)
    ensures SumOf(a, weight) == SumOf(b, weight)
  {
    if a == [] {
      assert |multiset(a)| == |multiset(b)|;
    } else {
      var front, last := a[..|a| - 1], a[|a| - 1];
      assert a == front + [last];
      assert last in multiset(b);
      var k :| 0 <= k < |b| && b[k] == last;
      var before, behind := b[..k], b[k + 1..];
      assert b == before + [last] + behind;
      WithoutOne(front, last, before, behind);
      SumPermuted(front, before + behind, weight);
      SumWithout(before, last, behind, weight);
    }
  }

  lemma WithoutOne(front: seq<Transaction>, t: Transaction, before: seq<Transaction>, behind: seq<Transaction>)
    requires multiset(front + [t]) == multiset(before + [t] + behind)
    ensures multiset(front) == multiset(before + behind)
  {
    assert multiset(front) == multiset(front + [t]) - multiset{t};
    assert multiset(before + behind) == multiset(before + [t] + behind) - multiset{t};
  }

  lemma SumWithout(before: seq<Transaction>, t: Transaction, behind: seq<Transaction>, weight: Transaction -> nat)
    ensures SumOf(before + [t] + behind, weight) == SumOf(before + behind, weight) + weight(t)
  {
    SumConcat(before + [t], behind, weight);
    SumConcat(before, behind, weight);
    assert (before + [t])[..|before|] == before;
  }

  lemma SumNext(ts: seq<Transaction>, t: Transaction, weight: Transaction -> nat)
    ensures SumOf(ts + [t], weight) == SumOf(ts, weight) + weight(t)
  {
    assert (ts + [t])[..|ts|] == ts;
  }

  /** What a transaction adds to a side, in the period. */
  function Weight(p: Period, side: Transaction -> seq<string>): Transaction -> nat {
    (t: Transaction) => if Within(t.date, p) then Total(side(t)) else 0
  }

  function One(p: Period): Transaction -> nat {
    (t: Transaction) => if Within(t.date, p) then 1 else 0
  }

  lemma {:induction false} KeptSums(ts: seq<Transaction>, p: Period, side: Transaction -> seq<string>)
    ensures Total(Gather(Keep(ts, DateOf(), p), side)) == SumOf(ts, Weight(p, side))
    ensures |Keep(ts, DateOf(), p)| == SumOf(ts, One(p))
  {
    if ts == [] {
      NothingGathered(side);
    } else {
      hide Within, Keep, Gather, Total;
      var front, last := ts[..|ts| - 1], ts[|ts| - 1];
      KeptSums(front, p, side);
      KeepLast(ts, DateOf(), p);
      GatherAppend(Keep(front, DateOf(), p), last, side);
    }
  }

  lemma {:induction false} TotalDenoted(texts: seq<string>, lines: seq<LedgerLine>)
    requires Denote(texts, lines)
    ensures Total(texts) == CentsOf(lines)
  {
    hide ValidMoney2, Amount;
    if texts != [] {
      assert Denotes(texts[|texts| - 1], lines[|texts| - 1].cents);
      TotalDenoted(texts[..|texts| - 1], lines[..|lines| - 1]);
    }
  }

  /** What one record adds to the export. */
  lemma RecordAdds(rec: Record, cfg: Config, checks: Checks)
    requires WritesDates(checks) && ConfigOk(cfg)
    ensures var fate, p := FateOf(rec, cfg, checks), HeaderPeriod(cfg.period);
            if Exported(rec, cfg, checks) then
              && fate.Mapped? && One(p)(fate.transaction) == 1
              && Weight(p, DebitSide())(fate.transaction) == CentsOf(rec.debits)
              && Weight(p, CreditSide())(fate.transaction) == CentsOf(rec.credits)
            else fate.Mapped? ==>
              && One(p)(fate.transaction) == 0 && Weight(p, DebitSide())(fate.transaction) == 0
              && Weight(p, CreditSide())(fate.transaction) == 0
  {
    FateIs(rec, cfg, checks);
    var fate := FateOf(rec, cfg, checks);
    hide RecordFits, FateOf, Less, ValidDate, TrimSpace, DateText, Total, Wrong, Denote;
    if fate.Mapped? {
      WrittenDate(checks, rec.at.value);
      ExportPeriod(fate.transaction.date, cfg.period);
      TotalDenoted(fate.transaction.debits, rec.debits);
      TotalDenoted(fate.transaction.credits, rec.credits);
    }
  }

  lemma ExportedNext(front: seq<Record>, last: Record, cfg: Config, checks: Checks)
    ensures var more := Exported(last, cfg, checks);
            && ExportedCount(front + [last], cfg, checks) ==
               ExportedCount(front, cfg, checks) + (if more then 1 else 0)
            && ExportedDebits(front + [last], cfg, checks) ==
               ExportedDebits(front, cfg, checks) + (if more then CentsOf(last.debits) else 0)
            && ExportedCredits(front + [last], cfg, checks) ==
               ExportedCredits(front, cfg, checks) + if more then CentsOf(last.credits) else 0
  {
    hide Exported, CentsOf;
    assert (front + [last])[..|front|] == front;
  }

  /** The transactions of these records weigh what the records add to the export. */
  ghost predicate Weighed(ts: seq<Transaction>, recs: seq<Record>, cfg: Config, checks: Checks) {
    var p := HeaderPeriod(cfg.period);
    && SumOf(ts, One(p)) == ExportedCount(recs, cfg, checks)
    && SumOf(ts, Weight(p, DebitSide())) == ExportedDebits(recs, cfg, checks)
    && SumOf(ts, Weight(p, CreditSide())) == ExportedCredits(recs, cfg, checks)
  }

  lemma NothingWeighed(cfg: Config, checks: Checks)
    ensures Weighed([], [], cfg, checks)
  {
    hide FateOf, Exported, Weight, One;
  }

  lemma OneWeighed(ts: seq<Transaction>, front: seq<Record>, last: Record, cfg: Config, checks: Checks)
    requires WritesDates(checks) && ConfigOk(cfg) && Weighed(ts, front, cfg, checks)
    ensures var fate := FateOf(last, cfg, checks);
            Weighed(if fate.Mapped? then ts + [fate.transaction] else ts, front + [last], cfg, checks)
  {
    hide FateOf, Exported, WritesDates, ConfigOk, HeaderPeriod, Weight, One, SumOf, CentsOf, ExportedCount,
         ExportedDebits, ExportedCredits;
    ExportedNext(front, last, cfg, checks);
    RecordAdds(last, cfg, checks);
    if FateOf(last, cfg, checks).Mapped? {
      var p, t := HeaderPeriod(cfg.period), FateOf(last, cfg, checks).transaction;
      SumNext(ts, t, One(p));
      SumNext(ts, t, Weight(p, DebitSide()));
      SumNext(ts, t, Weight(p, CreditSide()));
    }
  }

  lemma {:induction false} RecordsAdd(recs: seq<Record>, cfg: Config, checks: Checks)
    requires WritesDates(checks) && ConfigOk(cfg)
    ensures Weighed(MappedOf(recs, cfg, checks), recs, cfg, checks)
  {
    hide FateOf, MappedOf, Weighed, WritesDates, ConfigOk;
    if recs == [] {
      NoFates(cfg, checks);
      NothingWeighed(cfg, checks);
    } else {
      var front, last := recs[..|recs| - 1], recs[|recs| - 1];
      assert recs == front + [last];
      RecordsAdd(front, cfg, checks);
      OneWeighed(MappedOf(front, cfg, checks), front, last, cfg, checks);
      LastFate(front, last, cfg, checks);
    }
  }

  /** One entry for each record exported; the totals are the sums of these records' own debit and credit cents. */
  ghost predicate ComesTo(exported: Option<Entries>, records: seq<Record>, cfg: Config, checks: Checks) {
    match exported
    case None => ExportedCount(records, cfg, checks) == 0 && !cfg.includeEmpty
    case Some(e) =>
      && (ExportedCount(records, cfg, checks) > 0 || cfg.includeEmpty)
      && 0 <= ExportedDebits(records, cfg, checks) <= MAX_INT64
      && 0 <= ExportedCredits(records, cfg, checks) <= MAX_INT64
      && e.numberOfEntries == FormatNat(ExportedCount(records, cfg, checks))
      && e.totalDebit == Money.FormatCanonical(ExportedDebits(records, cfg, checks))
      && e.totalCredit == Money.FormatCanonical(ExportedCredits(records, cfg, checks))
  }

  /**
   The export has one entry for each record exported, and its TotalDebit and TotalCredit are the sums of these records'
   own debit and credit cents, exactly; it has no ledger only when there is no such record and none was asked for.
   */
  lemma ExportComesTo(records: seq<Record>, cfg: Config, checks: Checks, rules: LedgerRules)
    requires WritesDates(checks) && ReportOf(records, cfg, checks, rules).Ok?
    ensures ComesTo(ReportOf(records, cfg, checks, rules).value.exported, records, cfg, checks)
  {
    hide MappedOf, OmittedOf, SortRecords, MapAll, Filtered, FormatNat, Accumulate, Ordered, Seeded, Accounted, Opened,
         Flat, Less, TrimSpace, WritesDates, ComesTo, ConfigOk, ExportedCount, Gather;
    EveryRecordAccountedFor(records, cfg, checks, rules);
    SortedFates(records, cfg, checks);
    var sorted := SortRecords(records);
    var st := MapAll(sorted, cfg, checks).value;
    AccountedOpened(st, sorted, cfg, checks);
    if st.mapped > 0 {
      SeededEntries(st, sorted, cfg, checks);
      FilteredComesTo(Seeded(st, cfg.includeEmpty).value.value, records, cfg, checks, rules);
    } else {
      NothingSeeded(st, cfg.includeEmpty);
      assert MappedOf(records, cfg, checks) == [];
      NothingExported(records, cfg, checks);
      if cfg.includeEmpty {
        NoFlat();
        FilteredComesTo(EmptyEntries(), records, cfg, checks, rules);
      } else {
        NothingComes(records, cfg, checks, rules);
      }
    }
  }

  lemma NothingSeeded(st: MapState, includeEmpty: bool)
    requires Opened(st) && st.mapped == 0
    ensures Seeded(st, includeEmpty) == Ok(if includeEmpty then Some(EmptyEntries()) else None)
  {
  }

  lemma NothingExported(records: seq<Record>, cfg: Config, checks: Checks)
    requires WritesDates(checks) && ConfigOk(cfg) && MappedOf(records, cfg, checks) == []
    ensures ExportedCount(records, cfg, checks) == 0
  {
    RecordsAdd(records, cfg, checks);
    hide MappedOf, ExportedCount, FateOf, ConfigOk, WritesDates;
  }

  lemma NothingComes(records: seq<Record>, cfg: Config, checks: Checks, rules: LedgerRules)
    requires ExportedCount(records, cfg, checks) == 0 && !cfg.includeEmpty
    ensures Filtered(None, rules, HeaderPeriod(cfg.period), false) == Ok(None) && ComesTo(None, records, cfg, checks)
  {
  }

  /** The number of entries is that of the transactions the filter leaves. */
  lemma FilteredNumber(e: Entries, rules: LedgerRules, p: Period, includeEmpty: bool)
    requires Filtered(Some(e), rules, p, includeEmpty).Ok?
    ensures match Filtered(Some(e), rules, p, includeEmpty).value
            case None => !includeEmpty
            case Some(left) =>
              left.numberOfEntries == FormatNat(|Flat(left.journals)|) && (Flat(left.journals) != [] || includeEmpty)
  {
    assert FormatNat(0) == "0";
    NoFlat();
    hide Journals, Flat, EntriesOk, FormatNat;
  }

  /** Amounts of mapped records all fit, so what the filter shows of them is exact. */
  lemma ExactTotals(js: seq<Journal>, records: seq<Record>, cfg: Config, checks: Checks, p: Period)
    requires multiset(Flat(js)) == multiset(MappedOf(records, cfg, checks)) && LedgerSummable(js, p)
    ensures Total(Debits(js, p)) <= MAX_INT64 && Total(Credits(js, p)) <= MAX_INT64
  {
    var kept := Keep(Flat(js), DateOf(), p);
    MappedAmountsFit(records, cfg, checks);
    SameMembers(Flat(js), MappedOf(records, cfg, checks));
    KeepMembers(Flat(js), DateOf(), p);
    hide Keep, Flat, MappedOf, AmountsFit, Gather, NeverNegative, Total, Within;
    GatheredFit(kept, DebitSide());
    GatheredFit(kept, CreditSide());
    FittingNeverNegative(0, Debits(js, p));
    FittingNeverNegative(0, Credits(js, p));
  }

  lemma FilteredComesTo(e: Entries, records: seq<Record>, cfg: Config, checks: Checks, rules: LedgerRules)
    requires WritesDates(checks) && ConfigOk(cfg)
    requires multiset(Flat(e.journals)) == multiset(MappedOf(records, cfg, checks))
    requires Filtered(Some(e), rules, HeaderPeriod(cfg.period), cfg.includeEmpty).Ok?
    ensures ComesTo(Filtered(Some(e), rules, HeaderPeriod(cfg.period), cfg.includeEmpty).value, records, cfg, checks)
  {
    var p := HeaderPeriod(cfg.period);
    var ts, mapped := Flat(e.journals), MappedOf(records, cfg, checks);
    hide WritesDates, ConfigOk, Flat, MappedOf, Filtered, HeaderPeriod, ExportedCount, ExportedDebits, ExportedCredits,
         Exportable, LedgerSummable, Keep, Gather, Total, Money.FormatCanonical, FormatNat, SumOf, One, Weight;
    FilteredIs(e, rules, p, cfg.includeEmpty);
    FilteredNumber(e, rules, p, cfg.includeEmpty);
    RecordsAdd(records, cfg, checks);
    KeptSums(ts, p, DebitSide());
    KeptSums(ts, p, CreditSide());
    SumPermuted(ts, mapped, One(p));
    SumPermuted(ts, mapped, Weight(p, DebitSide()));
    SumPermuted(ts, mapped, Weight(p, CreditSide()));
    ExactTotals(e.journals, records, cfg, checks, p);
  }
}
