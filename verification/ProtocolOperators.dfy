/** Operator actions over whole runs: one mutation per key, and only on the row version the operator saw. */
module ProtocolOperators {
  import opened Prelude
  import opened Tables
  import opened Sealing
  import opened Outbox
  import opened Operator
  import opened Protocol
  import opened ProtocolSafety
  import opened ProtocolTheorems

  // ----- one mutation per Idempotency-Key -----

  lemma RowStaysFound(before: Db, after: Db, o: Id)
    requires Keeps(before, after) && Distinct(after.outbox) && o in before.outbox
    ensures o in after.outbox && RowOf(after, before.outbox[o].submissionId) == Some(o)
  {
    RowOfUnique(after, o);
  }

  lemma InvDistinct(w: World, s: Sys)
    requires Inv(w, s)
    ensures Distinct(s.db.outbox)
  {
    hide NumberingInv, ExternalIdInv, IdempotencyInv, StoredInv, AllRows, ClaimsFit, NothingAhead;
  }

  /**
   A key whose action committed never commits another, however the run goes on: in the same context its lookup replays
   the recorded result on the row as it is now, in any other it conflicts, and a call that had already passed its lookup
   is rolled back.
   */
  lemma KeyCommitsOnce(w: World, s: Sys, op: nat, delay: nat, future: seq<Step>, later: ActionInput)
    requires Reachable(w, s) && SessionAt(s, op).Ready? && ActTx(s.db, SessionAt(s, op).input).Commit?
    requires later.key == SessionAt(s, op).input.key
    ensures var input := SessionAt(s, op).input;
            var db := Run(w, Apply(w, s, Step(delay, Act(op))), future).db;
            var o := RowOf(s.db, input.submissionId).value;
            && ActTx(db, later).Rollback?
            && o in db.outbox
            && LookupKey(db, later) ==
               if later.action == input.action && later.submissionId == input.submissionId
               then Found(Ok(ActionResult(input.submissionId, ResultStatus(input.action), db.outbox[o].state,
                                          db.outbox[o].disposition, true, db.outbox[o].updatedAt)))
               else Found(Err(KeyConflict))
  {
    hide Inv, Run, AllRowsStep, Distinct, Reachable;
    var input := SessionAt(s, op).input;
    var s1 := Apply(w, s, Step(delay, Act(op)));
    var t := Run(w, s1, future);
    var o := RowOf(s.db, input.submissionId).value;
    ReachableInv(w, s);
    ApplyKeepsInv(w, s, Step(delay, Act(op)));
    assert s1.db == ActTx(s.db, input).db;
    hide Apply;
    RunKeepsInv(w, s1, future);
    InvDistinct(w, t);
    HistoryTransitive(s.db, s1.db, t.db);
    RowStaysFound(s.db, t.db, o);
    hide Keeps;
    assert t.db.actions[input.key] == s1.db.actions[input.key];
  }

  // ----- versions -----

  /** Every row is as it was, or carries a later version. */
  ghost predicate Newer(before: Db, after: Db) {
    forall o :: o in before.outbox ==>
      && o in after.outbox
      && (after.outbox[o] == before.outbox[o] || before.outbox[o].updatedAt < after.outbox[o].updatedAt)
  }

  /** Waiting operators named a version older than their call: they saw it before they called. */
  ghost predicate SeenBefore(s: Sys) {
    forall op :: op in s.sessions && s.sessions[op].Ready? ==>
      s.sessions[op].input.expectedUpdatedAt < s.sessions[op].input.stamp
  }

  /** The clock advances, and an operator names a version that had been written by then. */
  ghost predicate Advances(s: Sys, step: Step) {
    step.delay > 0 && (step.event.Ask? ==> step.event.expectedUpdatedAt <= s.clock)
  }

  ghost predicate AdvancingRun(w: World, s: Sys, steps: seq<Step>) {
    steps == [] ||
    (AdvancingRun(w, s, steps[..|steps| - 1]) && Advances(Run(w, s, steps[..|steps| - 1]), steps[|steps| - 1]))
  }

  lemma StepNewer(w: World, s: Sys, step: Step)
    requires Inv(w, s) && SeenBefore(s) && Advances(s, step)
    ensures Newer(s.db, Apply(w, s, step).db) && SeenBefore(Apply(w, s, step))
  {
    hide SealInv, AllRows, ClaimsFit, DbInv, AllRowsStep, ActionsKept;
    StepGood(w, s, step);
    StepSeenBefore(w, s, step);
    if step.event.Act? {
      ActNewer(w, s, step);
    } else {
      hide Apply;
      assert StampOf(s, step) == s.clock + step.delay;
    }
  }

  lemma StepSeenBefore(w: World, s: Sys, step: Step)
    requires SeenBefore(s) && Advances(s, step)
    ensures SeenBefore(Apply(w, s, step))
  {
    hide SealCall, ClaimTx, MarkTx, ReleaseTx, PersistTx, ActTx, FreshIds, LookupKey;
    var t := Apply(w, s, step);
    forall op | op in t.sessions && t.sessions[op].Ready?
      ensures t.sessions[op].input.expectedUpdatedAt < t.sessions[op].input.stamp
    {
      assert (op in s.sessions && t.sessions[op] == s.sessions[op]) || step.event.Ask?;
    }
  }

  lemma ActNewer(w: World, s: Sys, step: Step)
    requires step.event.Act? && SeenBefore(s)
    ensures Newer(s.db, Apply(w, s, step).db)
  {
  }

  lemma NewerTransitive(a: Db, b: Db, c: Db)
    requires Newer(a, b) && Newer(b, c)
    ensures Newer(a, c)
  {
  }

  lemma {:induction false} RunNewer(w: World, s: Sys, steps: seq<Step>)
    requires Inv(w, s) && SeenBefore(s) && AdvancingRun(w, s, steps)
    ensures Newer(s.db, Run(w, s, steps).db) && SeenBefore(Run(w, s, steps))
  {
    hide Inv, Newer, SeenBefore, Advances, Apply;
    if steps == [] {
      NewerReflexive(s.db);
    } else {
      var prefix := steps[..|steps| - 1];
      RunNewer(w, s, prefix);
      RunKeepsInv(w, s, prefix);
      StepNewer(w, Run(w, s, prefix), steps[|steps| - 1]);
      NewerTransitive(s.db, Run(w, s, prefix).db, Run(w, s, steps).db);
    }
  }

  lemma NewerReflexive(db: Db)
    ensures Newer(db, db)
  {
  }

  /**
   With a strictly advancing clock an action commits only on the very row the operator saw: if at s the row carried
   the version the action names, then whatever happened in between, the action commits on that row unchanged - and with
   a key unused until then, leaving the row with a version later than the one seen.
   */
  lemma ActsOnTheVersionSeen(w: World, s: Sys, between: seq<Step>, op: nat, o: Id)
    requires Reachable(w, s) && SeenBefore(s) && AdvancingRun(w, s, between)
    requires o in s.db.outbox
    requires var session := SessionAt(Run(w, s, between), op);
             && session.Ready? && session.input.submissionId == s.db.outbox[o].submissionId
             && session.input.expectedUpdatedAt == s.db.outbox[o].updatedAt
             && ActTx(Run(w, s, between).db, session.input).Commit?
    ensures o in Run(w, s, between).db.outbox && Run(w, s, between).db.outbox[o] == s.db.outbox[o]
    ensures var input := SessionAt(Run(w, s, between), op).input;
            var after := ActTx(Run(w, s, between).db, input).db;
            && input.key !in Run(w, s, between).db.actions && input.key in after.actions
            && o in after.outbox && after.outbox[o].updatedAt == input.stamp > s.db.outbox[o].updatedAt
  {
    hide Inv, Run, Reachable, AllRowsStep, ActionsKept, Distinct, AdvancingRun;
    var t := Run(w, s, between);
    FutureInv(w, s, between);
    RunNewer(w, s, between);
    InvDistinct(w, t);
    RowStaysFound(s.db, t.db, o);
  }

  // ----- without an advancing clock -----

  /** No row carries an earlier version than before. */
  ghost predicate NotOlder(before: Db, after: Db) {
    forall o :: o in before.outbox ==> o in after.outbox && before.outbox[o].updatedAt <= after.outbox[o].updatedAt
  }

  /** Waiting operators named a version no later than their call. */
  ghost predicate SeenByThen(s: Sys) {
    forall op :: op in s.sessions && s.sessions[op].Ready? ==>
      s.sessions[op].input.expectedUpdatedAt <= s.sessions[op].input.stamp
  }

  ghost predicate Timely(s: Sys, step: Step) {
    step.event.Ask? ==> step.event.expectedUpdatedAt <= s.clock + step.delay
  }

  ghost predicate TimelyRun(w: World, s: Sys, steps: seq<Step>) {
    steps == [] ||
    (TimelyRun(w, s, steps[..|steps| - 1]) && Timely(Run(w, s, steps[..|steps| - 1]), steps[|steps| - 1]))
  }

  lemma StepNotOlder(w: World, s: Sys, step: Step)
    requires Inv(w, s) && SeenByThen(s) && Timely(s, step)
    ensures NotOlder(s.db, Apply(w, s, step).db) && SeenByThen(Apply(w, s, step))
  {
    hide SealInv, AllRows, ClaimsFit, DbInv, AllRowsStep, ActionsKept;
    StepGood(w, s, step);
    StepSeenByThen(w, s, step);
    if step.event.Act? {
      ActNotOlder(w, s, step);
    } else {
      hide Apply;
      assert StampOf(s, step) == s.clock + step.delay;
    }
  }

  lemma StepSeenByThen(w: World, s: Sys, step: Step)
    requires SeenByThen(s) && Timely(s, step)
    ensures SeenByThen(Apply(w, s, step))
  {
    hide SealCall, ClaimTx, MarkTx, ReleaseTx, PersistTx, ActTx, FreshIds, LookupKey;
    var t := Apply(w, s, step);
    forall op | op in t.sessions && t.sessions[op].Ready?
      ensures t.sessions[op].input.expectedUpdatedAt <= t.sessions[op].input.stamp
    {
      assert (op in s.sessions && t.sessions[op] == s.sessions[op]) || step.event.Ask?;
    }
  }

  lemma ActNotOlder(w: World, s: Sys, step: Step)
    requires step.event.Act? && SeenByThen(s)
    ensures NotOlder(s.db, Apply(w, s, step).db)
  {
  }

  lemma {:induction false} RunNotOlder(w: World, s: Sys, steps: seq<Step>)
    requires Inv(w, s) && SeenByThen(s) && TimelyRun(w, s, steps)
    ensures NotOlder(s.db, Run(w, s, steps).db) && SeenByThen(Run(w, s, steps))
  {
    hide Inv, NotOlder, SeenByThen, Timely, Apply;
    if steps == [] {
      assert NotOlder(s.db, s.db) by { OwnAge(s.db); }
    } else {
      var prefix := steps[..|steps| - 1];
      RunNotOlder(w, s, prefix);
      RunKeepsInv(w, s, prefix);
      StepNotOlder(w, Run(w, s, prefix), steps[|steps| - 1]);
      NotOlderTransitive(s.db, Run(w, s, prefix).db, Run(w, s, steps).db);
    }
  }

  lemma OwnAge(db: Db)
    ensures NotOlder(db, db)
  {
  }

  lemma NotOlderTransitive(a: Db, b: Db, c: Db)
    requires NotOlder(a, b) && NotOlder(b, c)
    ensures NotOlder(a, c)
  {
  }

  /**
   Two actions that name one version of a submission never both commit, at any distance, on a clock that need not
   advance: once the first has, with a stamp other than the version it named, the second is refused as stale.
   */
  lemma OneActionPerVersion(w: World, s: Sys, op: nat, delay: nat, between: seq<Step>, second: ActionInput)
    requires Reachable(w, s) && SeenByThen(s)
    requires SessionAt(s, op).Ready? && ActTx(s.db, SessionAt(s, op).input).Commit?
    requires SessionAt(s, op).input.stamp != SessionAt(s, op).input.expectedUpdatedAt
    requires TimelyRun(w, Apply(w, s, Step(delay, Act(op))), between)
    requires second.submissionId == SessionAt(s, op).input.submissionId
    requires second.expectedUpdatedAt == SessionAt(s, op).input.expectedUpdatedAt
    ensures ActTx(Run(w, Apply(w, s, Step(delay, Act(op))), between).db, second) == Rollback(StaleVersion)
  {
    hide Inv, Run, Reachable, AllRowsStep, ActionsKept, Distinct, TimelyRun;
    var step := Step(delay, Act(op));
    var input := SessionAt(s, op).input;
    var s1 := Apply(w, s, step);
    var t := Run(w, s1, between);
    var o := RowOf(s.db, input.submissionId).value;
    assert input.expectedUpdatedAt < input.stamp;
    ReachableInv(w, s);
    ApplyKeepsInv(w, s, step);
    StepSeenByThen(w, s, step);
    assert s1.db == ActTx(s.db, input).db && s1.db.outbox[o].updatedAt == input.stamp;
    assert s1.db.outbox[o].submissionId == input.submissionId;
    hide Apply, SeenByThen;
    RunKeepsInv(w, s1, between);
    RunNotOlder(w, s1, between);
    InvDistinct(w, t);
    RowStaysFound(s1.db, t.db, o);
  }

  /** From s on, in any run, every action naming this version of the submission is refused as stale. */
  ghost predicate StaleForGood(w: World, s: Sys, submissionId: Id, version: Time) {
    forall between, second: ActionInput ::
      (TimelyRun(w, s, between) && second.submissionId == submissionId && second.expectedUpdatedAt == version) ==>
        ActTx(Run(w, s, between).db, second) == Rollback(StaleVersion)
  }

  /**
   The exact condition: a committed action makes the version it named stale for good if and only if it was stamped with
   another, that is, unless the clock stood still between the row's last change and the call.
   */
  lemma VersionIsUsedUpExactlyWhen(w: World, s: Sys, op: nat, delay: nat)
    requires Reachable(w, s) && SeenByThen(s)
    requires SessionAt(s, op).Ready? && ActTx(s.db, SessionAt(s, op).input).Commit?
    ensures var input := SessionAt(s, op).input;
            StaleForGood(w, Apply(w, s, Step(delay, Act(op))), input.submissionId, input.expectedUpdatedAt) <==>
            input.stamp != input.expectedUpdatedAt
  {
    hide Inv, Reachable, SeenByThen, ActTx, Distinct, Run;
    var input := SessionAt(s, op).input;
    var s1 := Apply(w, s, Step(delay, Act(op)));
    assert s1.db == ActTx(s.db, input).db;
    if input.stamp != input.expectedUpdatedAt {
      hide Apply;
      forall between, second: ActionInput | TimelyRun(w, s1, between) && second.submissionId == input.submissionId &&
                                            second.expectedUpdatedAt == input.expectedUpdatedAt
        ensures ActTx(Run(w, s1, between).db, second) == Rollback(StaleVersion)
      {
        OneActionPerVersion(w, s, op, delay, between, second);
      }
    } else {
      hide Apply;
      ReachableInv(w, s);
      InvDistinct(w, s);
      SecondActionOnOneVersion(s.db, input, input);
      NoStepsYet(w, s1);
      assert TimelyRun(w, s1, []);
    }
  }

  lemma NoStepsYet(w: World, s: Sys)
    ensures Run(w, s, []) == s
  {
  }
}
