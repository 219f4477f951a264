/** No submission is stranded: stale rows come back, and a waiting row moves up with every claim. */
module ProtocolProgress {
  import opened Prelude
  import opened Tables
  import opened Sealing
  import opened Outbox
  import opened Operator
  import opened Protocol
  import opened ProtocolSafety

  // ----- a claim never comes back empty-handed when there is something to take -----

  /**
   An in-flight row is claimable in the next claim transaction exactly when it has been left alone for 30 s, and that
   transaction then takes some row, whichever of the first ones the query returns.
   */
  lemma StaleRowIsClaimable(db: Db, o: Id, now: Time)
    requires o in db.outbox && db.outbox[o].state.InFlight?
    ensures Claimable(ReclaimAll(db.outbox, now), o, now) <==> db.outbox[o].updatedAt <= now - 30_000_000
    ensures Claimable(ReclaimAll(db.outbox, now), o, now) ==> exists pick :: ClaimTx(db, now, pick).Commit?
  {
    if Claimable(ReclaimAll(db.outbox, now), o, now) {
      var pick := FirstExists(ReclaimAll(db.outbox, now), o, now);
      assert ClaimTx(db, now, pick).Commit?;
    }
  }

  // ----- the queue ahead of a row -----

  predicate IsAhead(outbox: map<Id, OutboxRow>, p: Id, o: Id, due: Time) {
    p in outbox && p != o && outbox[p].state.Pending? && outbox[p].availableAt <= due
  }

  /** The other pending rows due no later than the row o, which is due at `due`. */
  function Ahead(outbox: map<Id, OutboxRow>, o: Id, due: Time): set<Id> {
    set p | p in outbox && IsAhead(outbox, p, o, due)
  }

  ghost predicate Waiting(outbox: map<Id, OutboxRow>, o: Id, due: Time) {
    o in outbox && outbox[o].state.Pending? && outbox[o].availableAt == due
  }

  /**
   An operator's retry that began no later than `due` and whose guards all pass now - the version it names, no final
   state, an unused key - on some row other than o that is not yet ahead.
   */
  ghost predicate LateRetry(s: Sys, step: Step, o: Id, due: Time) {
    step.event.Act? && SessionAt(s, step.event.operator).Ready? &&
    LateInput(s.db, SessionAt(s, step.event.operator).input, o, due)
  }

  ghost predicate LateInput(db: Db, input: ActionInput, o: Id, due: Time) {
    input.action.Retry? && input.stamp <= due &&
    var p := RowOf(db, input.submissionId);
    && p.Some? && p.value != o && !IsAhead(db.outbox, p.value, o, due)
    && db.outbox[p.value].updatedAt == input.expectedUpdatedAt && !Terminal(db.outbox[p.value], Retry)
    && input.key !in db.actions
  }

  /** Rows that come back to the queue from the worker's side, or are new, come back behind `due`. */
  ghost predicate NothingJoins(before: Db, after: Db, due: Time) {
    forall p :: p in after.outbox && after.outbox[p].state.Pending? && after.outbox[p].availableAt <= due ==>
      p in before.outbox && before.outbox[p].state.Pending? && before.outbox[p].availableAt <= due
  }

  lemma NothingJoinsMeansNoMoreAhead(before: Db, after: Db, o: Id, due: Time)
    requires NothingJoins(before, after, due)
    ensures Ahead(after.outbox, o, due) <= Ahead(before.outbox, o, due)
  {
  }

  lemma MoveLeavesQueue(db: Db, d: Id, to: Status, now: Time)
    ensures Move(db, d, to, now).outbox == db.outbox
  {
  }

  lemma MarkJoins(db: Db, c: OutboxClaim, now: Time, due: Time)
    ensures NothingJoins(db, MarkTx(db, c, now).After(db), due)
  {
    MoveLeavesQueue(db, c.documentId, AuthorityProcessing, now);
    hide Latest, MaxSeq, Rows, Move;
  }

  lemma ReleaseJoins(db: Db, c: OutboxClaim, now: Time, due: Time)
    requires due < now
    ensures NothingJoins(db, ReleaseTx(db, c, now).After(db), due)
  {
    var requeued := db.(outbox := Requeue(db.outbox, c.id, now));
    MoveLeavesQueue(requeued, c.documentId, SealedLocally, now);
    hide Latest, MaxSeq, Rows, Move;
  }

  lemma AnsweredLeavesQueue(db: Db, c: OutboxClaim, to: Status, attemptId: Id, now: Time)
    ensures Answered(db, c, to, attemptId, now).outbox == db.outbox
  {
    AnsweredFields(db, c, to, attemptId, now);
    hide Answered;
  }

  lemma PersistJoins(db: Db, c: OutboxClaim, to: Status, attemptId: Id, now: Time, due: Time)
    ensures NothingJoins(db, PersistTx(db, c, to, attemptId, now).After(db), due)
  {
    hide Latest, MaxSeq, MaxAttempt, Rows, Answered, NothingJoins;
    StayPut(db, due);
    if c.id in db.outbox {
      SucceedJoins(db, db.(outbox := Succeed(db.outbox, c.id, now)), c.id, now, due);
      AnsweredLeavesQueue(db, c, to, attemptId, now);
      SucceedJoins(db, Answered(db, c, to, attemptId, now).(outbox := Succeed(db.outbox, c.id, now)), c.id, now, due);
    }
  }

  lemma SucceedJoins(before: Db, after: Db, o: Id, now: Time, due: Time)
    requires o in before.outbox && after.outbox == Succeed(before.outbox, o, now)
    ensures NothingJoins(before, after, due)
  {
  }

  lemma SealJoins(w: World, db: Db, step: Step, now: Time, due: Time)
    requires step.event.Seal? && due < now
    ensures NothingJoins(db, SealCall(w, db, step.event.req, step.event.ids, now).After(db), due)
  {
    hide LoadCompleted, LineRows, DocumentOf, HashOf, SealGate.Prepared;
  }

  lemma ClaimJoins(db: Db, now: Time, pick: Id, due: Time)
    requires due < now
    ensures NothingJoins(db, ClaimTx(db, now, pick).After(db), due)
  {
    hide First;
  }

  /**
   Once the clock has strictly passed its due time, the rows ahead of a row never become more - except by a retry that
   an operator began no later than that time and commits only now. That is the only way, and it always adds one.
   */
  lemma QueueAheadShrinks(w: World, s: Sys, step: Step, o: Id, due: Time)
    requires due < s.clock
    ensures Ahead(Apply(w, s, step).db.outbox, o, due) <= Ahead(s.db.outbox, o, due) <==> !LateRetry(s, step, o, due)
    ensures |Ahead(Apply(w, s, step).db.outbox, o, due)| <=
            |Ahead(s.db.outbox, o, due)| + if LateRetry(s, step, o, due) then 1 else 0
  {
    StepAhead(w, s, step, o, due);
    hide Apply, Ahead, LateRetry;
    if LateRetry(s, step, o, due) {
      var p :| Ahead(Apply(w, s, step).db.outbox, o, due) == Ahead(s.db.outbox, o, due) + {p};
    } else {
      Smaller(Ahead(Apply(w, s, step).db.outbox, o, due), Ahead(s.db.outbox, o, due));
    }
  }

  lemma StepAhead(w: World, s: Sys, step: Step, o: Id, due: Time)
    requires due < s.clock
    ensures Ahead(Apply(w, s, step).db.outbox, o, due) <= Ahead(s.db.outbox, o, due) <==> !LateRetry(s, step, o, due)
    ensures LateRetry(s, step, o, due) ==>
              exists p :: Ahead(Apply(w, s, step).db.outbox, o, due) == Ahead(s.db.outbox, o, due) + {p}
  {
    var now := s.clock + step.delay;
    hide SealCall, ClaimTx, MarkTx, ReleaseTx, PersistTx, ActTx, FreshIds, LookupKey, Ahead, IsAhead, NothingJoins,
         LateInput;
    StayPut(s.db, due);
    NothingJoinsMeansNoMoreAhead(s.db, s.db, o, due);
    var after := Apply(w, s, step).db;
    match step.event
    case Seal(_, _) =>
      SealJoins(w, s.db, step, now, due);
      NothingJoinsMeansNoMoreAhead(s.db, after, o, due);
    case Claim(_, pick) =>
      ClaimJoins(s.db, now, pick, due);
      NothingJoinsMeansNoMoreAhead(s.db, after, o, due);
    case Mark(n, _) =>
      if WorkerAt(s, n).Claimed? {
        MarkJoins(s.db, WorkerAt(s, n).claim, now, due);
      }
      NothingJoinsMeansNoMoreAhead(s.db, after, o, due);
    case Submit(_, _) =>
    case Release(n, _) =>
      if WorkerAt(s, n).Releasing? {
        ReleaseJoins(s.db, WorkerAt(s, n).claim, now, due);
      }
      NothingJoinsMeansNoMoreAhead(s.db, after, o, due);
    case Persist(n, attemptId, _) =>
      if WorkerAt(s, n).Answering? {
        PersistJoins(s.db, WorkerAt(s, n).claim, WorkerAt(s, n).to, attemptId, now, due);
      }
      NothingJoinsMeansNoMoreAhead(s.db, after, o, due);
    case Ask(_, _, _, _, _) =>
    case Act(op) =>
      if SessionAt(s, op).Ready? {
        ActAhead(s.db, SessionAt(s, op).input, o, due);
      }
  }

  lemma StayPut(db: Db, due: Time)
    ensures NothingJoins(db, db, due)
  {
  }

  lemma ActAhead(db: Db, input: ActionInput, o: Id, due: Time)
    ensures Ahead(ActTx(db, input).After(db).outbox, o, due) <= Ahead(db.outbox, o, due) <==>
            !LateInput(db, input, o, due)
    ensures LateInput(db, input, o, due) ==>
              Ahead(ActTx(db, input).After(db).outbox, o, due) ==
              Ahead(db.outbox, o, due) + {RowOf(db, input.submissionId).value}
  {
    if ActTx(db, input).Commit? {
      var p := RowOf(db, input.submissionId).value;
      var after := ActTx(db, input).db;
      forall q | q != p
        ensures q in Ahead(after.outbox, o, due) <==> q in Ahead(db.outbox, o, due)
      {
      }
      assert p in Ahead(after.outbox, o, due) <==> p != o && input.action.Retry? && input.stamp <= due;
    }
  }

  /** A claim that does not take a waiting row takes one of those ahead of it. */
  lemma ClaimTakesFromAhead(db: Db, now: Time, pick: Id, o: Id, due: Time)
    requires Waiting(db.outbox, o, due) && due < now && ClaimTx(db, now, pick).Commit? && pick != o
    ensures pick in Ahead(db.outbox, o, due)
    ensures Ahead(ClaimTx(db, now, pick).db.outbox, o, due) == Ahead(db.outbox, o, due) - {pick}
  {
    assert Claimable(ReclaimAll(db.outbox, now), o, now);
  }

  // ----- over a run -----

  predicate Claims(w: World, s: Sys, step: Step) {
    step.event.Claim? && WorkerAt(s, step.event.worker).Idle? &&
    ClaimTx(s.db, s.clock + step.delay, step.event.pick).Commit?
  }

  /** How many claims a run commits. */
  ghost function ClaimCount(w: World, s: Sys, steps: seq<Step>): nat {
    if steps == [] then 0
    else
      var prefix := steps[..|steps| - 1];
      ClaimCount(w, s, prefix) + if Claims(w, Run(w, s, prefix), steps[|steps| - 1]) then 1 else 0
  }

  /** The row o is still waiting, due at the same time, in every state of the run. */
  ghost predicate KeepsWaiting(w: World, s: Sys, steps: seq<Step>, o: Id, due: Time) {
    && Waiting(Run(w, s, steps).db.outbox, o, due)
    && (steps == [] || KeepsWaiting(w, s, steps[..|steps| - 1], o, due))
  }

  /** How many late retries a run commits. */
  ghost function LateCount(w: World, s: Sys, steps: seq<Step>, o: Id, due: Time): nat {
    if steps == [] then 0
    else
      var prefix := steps[..|steps| - 1];
      LateCount(w, s, prefix, o, due) + if LateRetry(Run(w, s, prefix), steps[|steps| - 1], o, due) then 1 else 0
  }

  lemma ClaimStepAhead(w: World, s: Sys, step: Step, o: Id, due: Time)
    requires due < s.clock && Waiting(s.db.outbox, o, due) && Waiting(Apply(w, s, step).db.outbox, o, due)
    ensures |Ahead(Apply(w, s, step).db.outbox, o, due)| + (if Claims(w, s, step) then 1 else 0) <=
            |Ahead(s.db.outbox, o, due)| + if LateRetry(s, step, o, due) then 1 else 0
  {
    hide *;
    if Claims(w, s, step) {
      ClaimedIsNotWaiting(w, s, step, o, due);
      var now := s.clock + step.delay;
      ClaimIs(w, s, step);
      ClaimTakesFromAhead(s.db, now, step.event.pick, o, due);
    } else {
      QueueAheadShrinks(w, s, step, o, due);
    }
  }

  lemma ClaimedIsNotWaiting(w: World, s: Sys, step: Step, o: Id, due: Time)
    requires Claims(w, s, step) && Waiting(Apply(w, s, step).db.outbox, o, due)
    ensures step.event.Claim? && step.event.pick != o
  {
    ClaimIs(w, s, step);
    hide Apply, Claims, ClaimTx;
    TakenIsInFlight(s.db, s.clock + step.delay, step.event.pick);
  }

  lemma ClaimIs(w: World, s: Sys, step: Step)
    requires Claims(w, s, step)
    ensures step.event.Claim?
    ensures var tx := ClaimTx(s.db, s.clock + step.delay, step.event.pick);
            tx.Commit? && Apply(w, s, step).db == tx.db
  {
    hide ClaimTx;
  }

  lemma TakenIsInFlight(db: Db, now: Time, pick: Id)
    requires ClaimTx(db, now, pick).Commit?
    ensures pick in ClaimTx(db, now, pick).db.outbox && ClaimTx(db, now, pick).db.outbox[pick].state.InFlight?
  {
  }

  lemma {:induction false} Smaller(a: set<Id>, b: set<Id>)
    requires a <= b
    ensures |a| <= |b|
  {
    assert b == a + (b - a);
  }

  lemma ClockPasses(w: World, s: Sys, step: Step)
    ensures Apply(w, s, step).clock == s.clock + step.delay
  {
    hide SealCall, ClaimTx, MarkTx, ReleaseTx, PersistTx, ActTx, FreshIds, LookupKey;
  }

  /**
   While a due row waits, every committed claim uses up one of the rows that were ahead of it, or one that a late
   retry has put there: it is taken at the latest by the claim after the last of them. Nothing else that joins, is
   released or is reclaimed meanwhile gets in front.
   */
  lemma {:induction false} NobodyIsStranded(w: World, s: Sys, steps: seq<Step>, o: Id, due: Time)
    requires due < s.clock && KeepsWaiting(w, s, steps, o, due)
    ensures ClaimCount(w, s, steps) + |Ahead(Run(w, s, steps).db.outbox, o, due)| <=
            |Ahead(s.db.outbox, o, due)| + LateCount(w, s, steps, o, due)
    ensures s.clock <= Run(w, s, steps).clock
  {
    hide Apply, Claims, Ahead, LateRetry, Waiting;
    if steps != [] {
      var prefix, last := steps[..|steps| - 1], steps[|steps| - 1];
      NobodyIsStranded(w, s, prefix, o, due);
      ClockPasses(w, Run(w, s, prefix), last);
      assert Waiting(Run(w, s, prefix).db.outbox, o, due);
      ClaimStepAhead(w, Run(w, s, prefix), last, o, due);
    }
  }

  /** No operator call that began by `due` is still waiting to retry something. */
  ghost predicate NoEarlyRetry(s: Sys, due: Time) {
    due < s.clock &&
    forall op :: op in s.sessions && s.sessions[op].Ready? && s.sessions[op].input.action.Retry? ==>
      due < s.sessions[op].input.stamp
  }

  lemma NoEarlyRetryStays(w: World, s: Sys, step: Step, due: Time)
    requires NoEarlyRetry(s, due)
    ensures NoEarlyRetry(Apply(w, s, step), due)
  {
    hide SealCall, ClaimTx, MarkTx, ReleaseTx, PersistTx, ActTx, FreshIds, LookupKey;
    var t := Apply(w, s, step);
    forall op | op in t.sessions && t.sessions[op].Ready? && t.sessions[op].input.action.Retry?
      ensures due < t.sessions[op].input.stamp
    {
      assert (op in s.sessions && t.sessions[op] == s.sessions[op]) || t.sessions[op].input.stamp == t.clock;
    }
  }

  lemma NoEarlyRetryIsNotLate(s: Sys, step: Step, o: Id, due: Time)
    requires NoEarlyRetry(s, due)
    ensures !LateRetry(s, step, o, due)
  {
    hide IsAhead;
  }

  /** With no such call waiting at the start, no retry of the run is late: the rows ahead only ever become fewer. */
  lemma {:induction false} NoLateRetries(w: World, s: Sys, steps: seq<Step>, o: Id, due: Time)
    requires NoEarlyRetry(s, due)
    ensures LateCount(w, s, steps, o, due) == 0 && NoEarlyRetry(Run(w, s, steps), due)
  {
    hide Apply, NoEarlyRetry, LateRetry;
    if steps != [] {
      var prefix, last := steps[..|steps| - 1], steps[|steps| - 1];
      NoLateRetries(w, s, prefix, o, due);
      NoEarlyRetryStays(w, Run(w, s, prefix), last, due);
      NoEarlyRetryIsNotLate(Run(w, s, prefix), last, o, due);
    }
  }
}
