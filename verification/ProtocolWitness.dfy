/** Schedules that show how far two tempting claims hold: concrete runs of the protocol, from the empty database. */
module ProtocolWitness {
  import opened Prelude
  import opened Tables
  import opened SealGate
  import opened Sealing
  import opened Outbox
  import opened Operator
  import opened Protocol
  import opened ProtocolTheorems
  import opened ProtocolProgress
  import Canonical
  import FiscalTime
  import Numerals
  import Text

  lemma RunNext(w: World, s: Sys, steps: seq<Step>, step: Step)
    ensures Run(w, s, steps + [step]) == Apply(w, Run(w, s, steps), step)
  {
    assert (steps + [step])[..|steps|] == steps;
  }

  // ----- a zombie's report -----

  /**
   Worker 1 claims, marks and is told that the submission was rejected, then stalls for 30 s. Worker 2 takes the row
   back, is told that it was accepted, and persists that.
   */
  function ZombieSchedule(req: SealRequest, ids: SealIds): seq<Step> {
    [Step(0, Seal(req, ids)),
     Step(0, Claim(1, ids.outboxId)), Step(0, Mark(1, false)), Step(0, Submit(1, Outcome(Reject))),
     Step(30_000_000, Claim(2, ids.outboxId)), Step(0, Mark(2, false)), Step(0, Submit(2, Outcome(Accept))),
     Step(0, Persist(2, 7, false))]
  }

  function RowAt(ids: SealIds, state: OutboxState, due: Time, at: Time): OutboxRow {
    OutboxRow(ids.documentId, ids.submissionId, state, NoDisposition, due, at)
  }

  ghost predicate OneRow(s: Sys, ids: SealIds, state: OutboxState, at: Time) {
    && s.clock == at && s.sessions == map[]
    && s.db.responses == map[] && s.db.attempts == map[] && s.db.actions == map[]
    && exists due :: due <= at && s.db.outbox == map[ids.outboxId := RowAt(ids, state, due, at)]
  }

  ghost predicate LedgerEnds(s: Sys, ids: SealIds, status: Status) {
    Latest(Rows(s.db.ledger, ids.documentId)) == Some(status)
  }

  function ClaimOf(ids: SealIds): OutboxClaim {
    OutboxClaim(ids.outboxId, ids.documentId, ids.submissionId)
  }

  lemma AfterSeal(w: World, req: SealRequest, ids: SealIds)
    requires SealCall(w, EMPTY_DB, req, ids, 0).Commit?
    ensures var s := Apply(w, INITIAL, Step(0, Seal(req, ids)));
            OneRow(s, ids, Pending, 0) && LedgerEnds(s, ids, SealedLocally) && s.workers == map[]
  {
    hide LineRows, DocumentOf, HashOf, Prepared, LinesAccepted;
    var s := Apply(w, INITIAL, Step(0, Seal(req, ids)));
    assert FreshIds(EMPTY_DB, ids);
    assert s.db.outbox == map[ids.outboxId := RowAt(ids, Pending, 0, 0)];
    assert Rows(s.db.ledger, ids.documentId) == [LedgerEvent(1, None, SealedLocally, 0)];
  }

  /** The only row there is, due or stale, is the one a claim takes. */
  lemma AfterClaim(w: World, s: Sys, ids: SealIds, n: nat, delay: nat, state: OutboxState)
    requires OneRow(s, ids, state, s.clock) && WorkerAt(s, n).Idle?
    requires state.Pending? || (state.InFlight? && delay >= RECLAIM_AFTER)
    ensures var t := Apply(w, s, Step(delay, Claim(n, ids.outboxId)));
            && OneRow(t, ids, InFlight, s.clock + delay) && t.workers == s.workers[n := Claimed(ClaimOf(ids))]
            && t.db.ledger == s.db.ledger
  {
    var now := s.clock + delay;
    var rows := ReclaimAll(s.db.outbox, now);
    assert First(rows, ids.outboxId, now);
    hide First;
    var t := Apply(w, s, Step(delay, Claim(n, ids.outboxId)));
    var due := rows[ids.outboxId].availableAt;
    assert t.db.outbox == map[ids.outboxId := RowAt(ids, InFlight, due, now)];
  }

  lemma AfterMark(w: World, s: Sys, ids: SealIds, n: nat, status: Status)
    requires OneRow(s, ids, InFlight, s.clock) && WorkerAt(s, n) == Claimed(ClaimOf(ids))
    requires LedgerEnds(s, ids, status) && (status.SealedLocally? || status.AuthorityProcessing?)
    ensures var t := Apply(w, s, Step(0, Mark(n, false)));
            && OneRow(t, ids, InFlight, s.clock) && t.workers == s.workers[n := Marked(ClaimOf(ids))]
            && LedgerEnds(t, ids, AuthorityProcessing)
  {
    NextEvent(Rows(s.db.ledger, ids.documentId), AuthorityProcessing, s.clock);
    hide Latest, MaxSeq;
  }

  lemma NextEvent(events: seq<LedgerEvent>, to: Status, now: Time)
    ensures Latest(events + [LedgerEvent(MaxSeq(events) + 1, Latest(events), to, now)]) == Some(to)
  {
    AppendedTop(events, LedgerEvent(MaxSeq(events) + 1, Latest(events), to, now));
  }

  lemma AfterPersist(w: World, s: Sys, ids: SealIds, n: nat, to: Status)
    requires OneRow(s, ids, InFlight, s.clock) && WorkerAt(s, n) == Answering(ClaimOf(ids), to)
    requires LedgerEnds(s, ids, AuthorityProcessing) && IsOutcome(to)
    ensures var t := Apply(w, s, Step(0, Persist(n, 7, false)));
            && ids.outboxId in t.db.outbox && t.db.outbox[ids.outboxId].state.Succeeded?
            && LedgerEnds(t, ids, to) && t.workers == s.workers[n := Idle]
  {
    NextEvent(Rows(s.db.ledger, ids.documentId), to, s.clock);
    hide Latest, MaxSeq, MaxAttempt;
  }

  /**
   A reachable state in which a worker is about to report a rejection of a submission whose ledger records acceptance:
   the claim that reported outcome and ledger always agree fails on any sealable request.
   */
  lemma ZombieDisagrees(w: World, req: SealRequest, ids: SealIds, now: Time)
    requires SealCall(w, EMPTY_DB, req, ids, 0).Commit?
    ensures var s := Run(w, INITIAL, ZombieSchedule(req, ids));
            && Reachable(w, s) && WorkerAt(s, 1) == Answering(ClaimOf(ids), AuthorityRejected)
            && PersistTx(s.db, ClaimOf(ids), AuthorityRejected, 8, now) ==
               Commit(s.db, Report(ids.submissionId, ids.documentId, 0, AuthorityRejected))
            && LedgerEnds(s, ids, AuthorityAccepted)
  {
    hide Apply, OneRow, LedgerEnds, Run, SealCall;
    var z := ZombieSchedule(req, ids);
    var s0 := INITIAL;
    var s1 := Apply(w, s0, z[0]);
    var s2 := Apply(w, s1, z[1]);
    var s3 := Apply(w, s2, z[2]);
    var s4 := Apply(w, s3, z[3]);
    var s5 := Apply(w, s4, z[4]);
    var s6 := Apply(w, s5, z[5]);
    var s7 := Apply(w, s6, z[6]);
    var s8 := Apply(w, s7, z[7]);
    RunOfEight(w, s0, z);
    AfterSeal(w, req, ids);
    ClockOf(s1, ids, Pending, 0);
    AfterClaim(w, s1, ids, 1, 0, Pending);
    SameLedger(s1, s2, ids, SealedLocally);
    ClockOf(s2, ids, InFlight, 0);
    AfterMark(w, s2, ids, 1, SealedLocally);
    ClockOf(s3, ids, InFlight, 0);
    AfterSubmit(w, s3, 1, ids, Reject);
    SameRow(s3, s4, ids, 0);
    SameLedger(s3, s4, ids, AuthorityProcessing);
    ClockOf(s4, ids, InFlight, 0);
    AfterClaim(w, s4, ids, 2, 30_000_000, InFlight);
    SameLedger(s4, s5, ids, AuthorityProcessing);
    ClockOf(s5, ids, InFlight, 30_000_000);
    AfterMark(w, s5, ids, 2, AuthorityProcessing);
    ClockOf(s6, ids, InFlight, 30_000_000);
    AfterSubmit(w, s6, 2, ids, Accept);
    SameRow(s6, s7, ids, 30_000_000);
    SameLedger(s6, s7, ids, AuthorityProcessing);
    ClockOf(s7, ids, InFlight, 30_000_000);
    AfterPersist(w, s7, ids, 2, AuthorityAccepted);
  }

  lemma RunOfEight(w: World, s: Sys, z: seq<Step>)
    requires |z| == 8
    ensures Run(w, s, z) ==
            var s4 := Apply(w, Apply(w, Apply(w, Apply(w, s, z[0]), z[1]), z[2]), z[3]);
            Apply(w, Apply(w, Apply(w, Apply(w, s4, z[4]), z[5]), z[6]), z[7])
  {
    hide Apply;
    assert z[..0] == [];
    assert Run(w, s, []) == s;
    hide Run;
    forall k | 0 <= k < 8
      ensures Run(w, s, z[..k + 1]) == Apply(w, Run(w, s, z[..k]), z[k])
    {
      assert z[..k + 1] == z[..k] + [z[k]];
      RunNext(w, s, z[..k], z[k]);
    }
    assert Run(w, s, z[..1]) == Apply(w, s, z[0]);
    assert Run(w, s, z[..2]) == Apply(w, Run(w, s, z[..1]), z[1]);
    assert Run(w, s, z[..3]) == Apply(w, Run(w, s, z[..2]), z[2]);
    assert Run(w, s, z[..4]) == Apply(w, Run(w, s, z[..3]), z[3]);
    assert Run(w, s, z[..5]) == Apply(w, Run(w, s, z[..4]), z[4]);
    assert Run(w, s, z[..6]) == Apply(w, Run(w, s, z[..5]), z[5]);
    assert Run(w, s, z[..7]) == Apply(w, Run(w, s, z[..6]), z[6]);
    assert Run(w, s, z[..8]) == Apply(w, Run(w, s, z[..7]), z[7]);
    assert z[..8] == z;
  }

  lemma ClockOf(s: Sys, ids: SealIds, state: OutboxState, at: Time)
    requires OneRow(s, ids, state, at)
    ensures s.clock == at
  {
  }

  lemma AfterSubmit(w: World, s: Sys, n: nat, ids: SealIds, outcome: SimOutcome)
    requires WorkerAt(s, n) == Marked(ClaimOf(ids)) && LedgerStatus(outcome).Some?
    ensures var t := Apply(w, s, Step(0, Submit(n, Outcome(outcome))));
            t == s.(workers := s.workers[n := Answering(ClaimOf(ids), LedgerStatus(outcome).value)])
  {
  }

  lemma SameRow(s: Sys, t: Sys, ids: SealIds, at: Time)
    requires OneRow(s, ids, InFlight, at) && t == s.(workers := t.workers)
    ensures OneRow(t, ids, InFlight, at)
  {
  }

  lemma SameLedger(s: Sys, t: Sys, ids: SealIds, status: Status)
    requires LedgerEnds(s, ids, status) && t.db.ledger == s.db.ledger
    ensures LedgerEnds(t, ids, status)
  {
  }

  // ----- two actions in one instant -----

  function RetryAt(ids: SealIds, key: string, seen: Time, stamp: Time): ActionInput {
    ActionInput(ids.submissionId, Retry, key, seen, stamp)
  }

  /** Two operators look at a freshly sealed submission, and call, in the very instant it was sealed. */
  function HastySchedule(req: SealRequest, ids: SealIds): seq<Step> {
    [Step(0, Seal(req, ids)), Step(0, Ask(0, ids.submissionId, Retry, "k1", 0)),
     Step(0, Ask(1, ids.submissionId, Retry, "k2", 0))]
  }

  lemma AfterAsk(w: World, s: Sys, delay: nat, op: nat, ids: SealIds, key: string, seen: Time)
    requires SessionAt(s, op).NoSession? && key !in s.db.actions
    ensures Apply(w, s, Step(delay, Ask(op, ids.submissionId, Retry, key, seen))) ==
            s.(clock := s.clock + delay, sessions := s.sessions[op := Ready(RetryAt(ids, key, seen, s.clock + delay))])
  {
  }

  lemma RunOfThree(w: World, s: Sys, z: seq<Step>)
    requires |z| == 3
    ensures Run(w, s, z) == Apply(w, Apply(w, Apply(w, s, z[0]), z[1]), z[2])
  {
    hide Apply;
    assert z[..0] == [];
    assert Run(w, s, []) == s;
    hide Run;
    assert [] + [z[0]] == z[..1] && z[..1] + [z[1]] == z[..2] && z[..2] + [z[2]] == z;
    RunNext(w, s, [], z[0]);
    RunNext(w, s, z[..1], z[1]);
    RunNext(w, s, z[..2], z[2]);
  }

  /** A retry of the only row, pending or in flight, in the version it carries. */
  lemma OnlyRowRetried(db: Db, o: Id, input: ActionInput)
    requires db.outbox.Keys == {o} && db.outbox[o].submissionId == input.submissionId
    requires input.action.Retry? && db.outbox[o].updatedAt == input.expectedUpdatedAt && !Terminal(db.outbox[o], Retry)
    requires input.key !in db.actions
    ensures var tx := ActTx(db, input);
            && tx.Commit? && tx.db.outbox == map[o := Acted(db.outbox[o], Retry, input.stamp)]
            && tx.db.actions.Keys == db.actions.Keys + {input.key}
  {
    RowOfUnique(db, o);
  }

  /**
   A reachable state in which two operators are about to act on one version of a submission, and both commit: the clock
   has not moved since the row was written.
   */
  lemma BothActionsCommit(w: World, req: SealRequest, ids: SealIds)
    requires SealCall(w, EMPTY_DB, req, ids, 0).Commit?
    ensures var s := Run(w, INITIAL, HastySchedule(req, ids));
            var t := Apply(w, s, Step(0, Act(0)));
            && Reachable(w, s) && SessionAt(s, 0) == Ready(RetryAt(ids, "k1", 0, 0))
            && ids.outboxId in s.db.outbox && s.db.outbox[ids.outboxId].updatedAt == 0
            && ActTx(s.db, RetryAt(ids, "k1", 0, 0)).Commit? && t.db == ActTx(s.db, RetryAt(ids, "k1", 0, 0)).db
            && SessionAt(t, 1) == Ready(RetryAt(ids, "k2", 0, 0)) && ActTx(t.db, RetryAt(ids, "k2", 0, 0)).Commit?
  {
    hide Apply, Run, SealCall, ActTx, LedgerEnds;
    var z := HastySchedule(req, ids);
    RunOfThree(w, INITIAL, z);
    AfterSeal(w, req, ids);
    var s1 := Apply(w, INITIAL, z[0]);
    AfterAsk(w, s1, 0, 0, ids, "k1", 0);
    var s2 := Apply(w, s1, z[1]);
    AfterAsk(w, s2, 0, 1, ids, "k2", 0);
    var s := Apply(w, s2, z[2]);
    var first, second := RetryAt(ids, "k1", 0, 0), RetryAt(ids, "k2", 0, 0);
    OnlyRowRetried(s.db, ids.outboxId, first);
    AfterAct(w, s, 0, 0, first);
    var db := ActTx(s.db, first).db;
    assert first.key[1] != second.key[1];
    OnlyRowRetried(db, ids.outboxId, second);
  }

  lemma AfterAct(w: World, s: Sys, delay: nat, op: nat, input: ActionInput)
    requires SessionAt(s, op) == Ready(input) && ActTx(s.db, input).Commit?
    ensures Apply(w, s, Step(delay, Act(op))) ==
            s.(clock := s.clock + delay, db := ActTx(s.db, input).db, sessions := s.sessions[op := NoSession])
  {
    hide ActTx;
  }

  // ----- a late retry -----

  /**
   Document a is sealed and claimed at 0; at 5 an operator calls to retry it; b is sealed at 10; the worker of a marks
   it at 15.
   */
  function QueueSchedule(a: SealRequest, idsA: SealIds, b: SealRequest, idsB: SealIds): seq<Step> {
    [Step(0, Seal(a, idsA)), Step(0, Claim(1, idsA.outboxId)), Step(5, Ask(0, idsA.submissionId, Retry, "k", 0)),
     Step(5, Seal(b, idsB)), Step(5, Mark(1, false))]
  }

  /** The database holds what sealing one request left, apart from its outbox row and ledger. */
  ghost predicate OneSealed(db: Db, req: SealRequest, ids: SealIds) {
    && db.idempotency.Keys == {KeyOf(req)} && db.documents.Keys == {ids.documentId} && db.lines.Keys == {ids.documentId}
    && db.ledger.Keys == {ids.documentId} && db.attempts == map[]
    && Holds(db.documents[ids.documentId], req.intent.scopeId, req.intent.externalId)
  }

  lemma SealedFirst(w: World, req: SealRequest, ids: SealIds)
    requires SealCall(w, EMPTY_DB, req, ids, 0).Commit?
    ensures OneSealed(Apply(w, INITIAL, Step(0, Seal(req, ids))).db, req, ids)
  {
    hide HashOf, LineRows, LinesAccepted;
    assert FreshIds(EMPTY_DB, ids);
  }

  predicate Disjoint(a: SealIds, b: SealIds) {
    a.documentId != b.documentId && a.outboxId != b.outboxId && a.submissionId != b.submissionId
  }

  /** The two requests do not collide. */
  predicate Apart(a: SealRequest, idsA: SealIds, b: SealRequest, idsB: SealIds) {
    && KeyOf(a) != KeyOf(b)
    && !(a.intent.scopeId == b.intent.scopeId && a.intent.externalId == b.intent.externalId)
    && Disjoint(idsA, idsB)
  }

  /** A request that could be sealed into the empty database can be sealed beside another. */
  lemma SealedSecond(w: World, s: Sys, delay: nat, a: SealRequest, idsA: SealIds, b: SealRequest, idsB: SealIds)
    requires OneSealed(s.db, a, idsA) && Apart(a, idsA, b, idsB)
    requires s.db.outbox.Keys == {idsA.outboxId} && s.db.outbox[idsA.outboxId].documentId == idsA.documentId
    requires s.db.outbox[idsA.outboxId].submissionId == idsA.submissionId
    requires SealCall(w, EMPTY_DB, b, idsB, s.clock + delay).Commit?
    ensures var now := s.clock + delay;
            var t := Apply(w, s, Step(delay, Seal(b, idsB)));
            && t.clock == now && t.workers == s.workers && t.sessions == s.sessions && t.db.actions == s.db.actions
            && t.db.outbox == s.db.outbox[idsB.outboxId := RowAt(idsB, Pending, now, now)]
  {
    hide Apply, SealTx, SealCall, Prepared, HashOf, LinesAccepted, OneSealed, FreshIds;
    var now := s.clock + delay;
    SealableAnywhere(w, b, idsB, now);
    var ready := Prepared(w.calendar, b).value;
    BesideIsFresh(s.db, a, idsA, idsB);
    AfterAnySeal(w, s, delay, b, idsB);
    BesideCommits(s.db, a, idsA, ready, HashOf(w.digest, ready), idsB, now);
  }

  lemma AfterAnySeal(w: World, s: Sys, delay: nat, req: SealRequest, ids: SealIds)
    requires FreshIds(s.db, ids) && Prepared(w.calendar, req).Ok?
    ensures var ready := Prepared(w.calendar, req).value;
            Apply(w, s, Step(delay, Seal(req, ids))) ==
            s.(clock := s.clock + delay,
               db := SealTx(s.db, ready, HashOf(w.digest, ready), ids, s.clock + delay).After(s.db))
  {
    hide SealTx, Prepared, HashOf, FreshIds;
  }

  lemma BesideIsFresh(db: Db, a: SealRequest, idsA: SealIds, idsB: SealIds)
    requires OneSealed(db, a, idsA) && db.outbox.Keys == {idsA.outboxId}
    requires db.outbox[idsA.outboxId].documentId == idsA.documentId
    requires db.outbox[idsA.outboxId].submissionId == idsA.submissionId
    requires Disjoint(idsA, idsB)
    ensures FreshIds(db, idsB)
  {
  }

  lemma BesideCommits(db: Db, a: SealRequest, idsA: SealIds, ready: SealRequest, hash: string, ids: SealIds, now: Time)
    requires OneSealed(db, a, idsA) && KeyOf(ready) != KeyOf(a) && LinesAccepted(ready.intent.lines)
    requires !(a.intent.scopeId == ready.intent.scopeId && a.intent.externalId == ready.intent.externalId)
    ensures SealTx(db, ready, hash, ids, now).Commit?
    ensures var after := SealTx(db, ready, hash, ids, now).db;
            && after.actions == db.actions
            && after.outbox == db.outbox[ids.outboxId := RowAt(ids, Pending, now, now)]
  {
    hide LinesAccepted, DocumentOf, LineRows, LoadCompleted, LastSeq;
    assert KeyOf(ready) !in db.idempotency;
    assert !ExternalIdTaken(db, ready.intent.scopeId, ready.intent.externalId);
  }

  lemma SealableAnywhere(w: World, b: SealRequest, ids: SealIds, now: Time)
    requires SealCall(w, EMPTY_DB, b, ids, now).Commit?
    ensures Prepared(w.calendar, b).Ok? && LinesAccepted(Prepared(w.calendar, b).value.intent.lines)
    ensures Prepared(w.calendar, b).value.intent == b.intent
    ensures Prepared(w.calendar, b).value.idempotencyKey == b.idempotencyKey
  {
    hide HeaderProblem, LinesProblem, Sealed, LinesAccepted, HashOf;
  }

  lemma MarkLeavesQueue(w: World, s: Sys, delay: nat, n: nat)
    ensures var t := Apply(w, s, Step(delay, Mark(n, false)));
            t.db.outbox == s.db.outbox && t.db.actions == s.db.actions && t.clock == s.clock + delay &&
            t.sessions == s.sessions
  {
    if WorkerAt(s, n).Claimed? {
      MoveLeavesQueue(s.db, WorkerAt(s, n).claim.documentId, AuthorityProcessing, s.clock + delay);
    }
    hide Latest, MaxSeq, Rows;
  }

  lemma RunOfFive(w: World, s: Sys, z: seq<Step>)
    requires |z| == 5
    ensures Run(w, s, z) == Apply(w, Apply(w, Apply(w, Apply(w, Apply(w, s, z[0]), z[1]), z[2]), z[3]), z[4])
  {
    hide Apply, Run;
    RunOfThree(w, s, z[..3]);
    assert z[..3] + [z[3]] == z[..4] && z[..4] + [z[4]] == z;
    RunNext(w, s, z[..3], z[3]);
    RunNext(w, s, z[..4], z[4]);
  }

  lemma KeptByClaim(w: World, s: Sys, req: SealRequest, ids: SealIds, n: nat, delay: nat, pick: Id)
    requires OneSealed(s.db, req, ids)
    ensures OneSealed(Apply(w, s, Step(delay, Claim(n, pick))).db, req, ids)
    ensures Apply(w, s, Step(delay, Claim(n, pick))).db.actions == s.db.actions
  {
    hide First;
  }

  /**
   A reachable state in which nothing is ahead of b, due at 10 and waiting at 15, and yet the operator's retry,
   committing at 20, puts a ahead of it: what is ahead of a waiting row can grow.
   */
  lemma RetryJumpsTheQueue(w: World, a: SealRequest, idsA: SealIds, b: SealRequest, idsB: SealIds)
    requires SealCall(w, EMPTY_DB, a, idsA, 0).Commit? && SealCall(w, EMPTY_DB, b, idsB, 10).Commit?
    requires Apart(a, idsA, b, idsB)
    ensures var s := Run(w, INITIAL, QueueSchedule(a, idsA, b, idsB));
            && Reachable(w, s) && s.clock == 15 && Waiting(s.db.outbox, idsB.outboxId, 10)
            && Ahead(s.db.outbox, idsB.outboxId, 10) == {} && LateRetry(s, Step(5, Act(0)), idsB.outboxId, 10)
            && Ahead(Apply(w, s, Step(5, Act(0))).db.outbox, idsB.outboxId, 10) == {idsA.outboxId}
  {
    hide Apply, Run, SealCall, ActTx, LedgerEnds, OneSealed, Ahead, LateInput;
    var z := QueueSchedule(a, idsA, b, idsB);
    RunOfFive(w, INITIAL, z);
    AfterSeal(w, a, idsA);
    SealedFirst(w, a, idsA);
    var s1 := Apply(w, INITIAL, z[0]);
    AfterClaim(w, s1, idsA, 1, 0, Pending);
    KeptByClaim(w, s1, a, idsA, 1, 0, idsA.outboxId);
    var s2 := Apply(w, s1, z[1]);
    AfterAsk(w, s2, 5, 0, idsA, "k", 0);
    var s3 := Apply(w, s2, z[2]);
    SealedSecond(w, s3, 5, a, idsA, b, idsB);
    var s4 := Apply(w, s3, z[3]);
    MarkLeavesQueue(w, s4, 5, 1);
    var s := Apply(w, s4, z[4]);
    assert Reachable(w, s);
    var input := RetryAt(idsA, "k", 0, 5);
    TwoRows(s.db, idsA, idsB, input);
    ActAhead(s.db, input, idsB.outboxId, 10);
    AfterAct(w, s, 5, 0, input);
  }

  /**
   One row in flight since 0 and one due at 10: nothing is ahead of the second, and a retry of the first gets there.
   */
  lemma TwoRows(db: Db, idsA: SealIds, idsB: SealIds, input: ActionInput)
    requires input == RetryAt(idsA, "k", 0, 5) && db.actions == map[]
    requires Disjoint(idsA, idsB)
    requires db.outbox.Keys == {idsA.outboxId, idsB.outboxId}
    requires var row := db.outbox[idsA.outboxId];
             && row.documentId == idsA.documentId && row.submissionId == idsA.submissionId && row.state.InFlight?
             && row.disposition.NoDisposition? && row.updatedAt == 0
    requires db.outbox[idsB.outboxId] == RowAt(idsB, Pending, 10, 10)
    ensures Ahead(db.outbox, idsB.outboxId, 10) == {} && LateInput(db, input, idsB.outboxId, 10)
    ensures ActTx(db, input).Commit? && RowOf(db, input.submissionId) == Some(idsA.outboxId)
  {
    assert Distinct(db.outbox);
    RowOfUnique(db, idsA.outboxId);
  }

  // ----- requests there are -----

  /** One unit sold for one kwanza, at the epoch, on a calendar that keeps every zone an hour behind UTC. */
  function Invoice(externalId: string, key: string): SealRequest {
    var line := Canonical.Line("1", "d", 10_000, 100, "t");
    SealRequest(key, "A", Canonical.DocumentIntent("s", externalId, "invoice", "AOA", "0", "z", -60, "", "n", "m", "",
                                                   "", [line]))
  }

  lemma NonBlank(c: char)
    requires !Text.IsSpace(c)
    ensures Text.TrimSpace([c]) == [c] && !Text.Blank([c])
  {
    Text.TrimmedStays([c]);
  }

  lemma EpochIsValid()
    ensures FiscalTime.ValidNormalizedContext(FiscalTime.PlainCalendar(), "0", "z", -60)
  {
    FiscalTime.ReadsItsOwn(0);
    NonBlank('0');
    NonBlank('z');
    hide FiscalTime.ReadInt;
    assert Numerals.FormatInt(0) == "0";
  }

  lemma InvoiceIsSealable(externalId: string, key: string)
    requires !Text.Blank(externalId) && !Text.Blank(key)
    ensures Sealable(FiscalTime.PlainCalendar(), Invoice(externalId, key))
  {
    EpochIsValid();
    NonBlank('1');
    NonBlank('d');
    NonBlank('t');
    NonBlank('s');
    NonBlank('n');
    NonBlank('m');
    NonBlank('A');
    hide Text.TrimSpace, Text.Blank, FiscalTime.ValidNormalizedContext;
  }

  /** What passes the gate with positive quantities can be sealed first of all. */
  lemma SealsFirst(w: World, req: SealRequest, ids: SealIds, now: Time)
    requires Prepared(w.calendar, req).Ok? && LinesAccepted(Prepared(w.calendar, req).value.intent.lines)
    ensures SealCall(w, EMPTY_DB, req, ids, now).Commit?
  {
    hide Prepared, HashOf, LinesAccepted, LoadCompleted, Sealed, DocumentOf, ResultOf;
    var ready := Prepared(w.calendar, req).value;
    assert KeyOf(ready) !in EMPTY_DB.idempotency;
    assert !ExternalIdTaken(EMPTY_DB, ready.intent.scopeId, ready.intent.externalId);
  }

  /** Such an invoice can be sealed first of all: the premises of the schedules can be met. */
  lemma InvoicesCanBeSealed(w: World, externalId: string, key: string, ids: SealIds, now: Time)
    requires w.calendar == FiscalTime.PlainCalendar() && !Text.Blank(externalId) && !Text.Blank(key)
    ensures SealCall(w, EMPTY_DB, Invoice(externalId, key), ids, now).Commit?
  {
    hide Text.TrimSpace, Text.Blank, Sealable, Prepared, SealCall;
    var req := Invoice(externalId, key);
    InvoiceIsSealable(externalId, key);
    AcceptsExactlySealable(w.calendar, req);
    assert Prepared(w.calendar, req).value.intent == req.intent;
    SealsFirst(w, req, ids, now);
  }

  /** Two of them that do not collide. */
  lemma TwoInvoices(w: World)
    requires w.calendar == FiscalTime.PlainCalendar()
    ensures var a, b, idsA, idsB := Invoice("a", "a"), Invoice("b", "b"), SealIds(1, 2, 3), SealIds(4, 5, 6);
            && SealCall(w, EMPTY_DB, a, idsA, 0).Commit? && SealCall(w, EMPTY_DB, b, idsB, 10).Commit?
            && Apart(a, idsA, b, idsB)
  {
    hide SealCall;
    NonBlank('a');
    NonBlank('b');
    InvoicesCanBeSealed(w, "a", "a", SealIds(1, 2, 3), 0);
    InvoicesCanBeSealed(w, "b", "b", SealIds(4, 5, 6), 10);
    assert "a"[0] != "b"[0];
  }
}
