/**
 Safety over whole runs: every step, in any interleaving, keeps the invariant and the past.
 */
module ProtocolSafety {
  import opened Prelude
  import opened Tables
  import opened SealGate
  import opened Sealing
  import opened Outbox
  import opened Operator
  import opened Protocol

  // ----- one transaction -----

  lemma NoTx(db: Db, digest: string -> string, at: Time)
    requires DbInv(db, digest)
    ensures GoodTx(db, db, digest, at)
  {
    hide SealInv, Chain;
  }

  /** A transaction on one row: everything but that row, its ledger, attempts and responses stands. */
  lemma RowTx(before: Db, after: Db, digest: string -> string, o: Id, at: Time)
    requires DbInv(before, digest) && StepsRow(before, after, o)
    requires after.outbox[o] == before.outbox[o] || after.outbox[o].updatedAt == at
    requires after.idempotency == before.idempotency && after.counters == before.counters
    requires after.documents == before.documents && after.lines == before.lines && ActionsKept(before, after)
    ensures GoodTx(before, after, digest, at)
  {
    hide RowInv, RowStep, NumberingInv, ExternalIdInv, IdempotencyInv, StoredInv;
    assert SameSeals(before, after);
    RowStepped(before, after, o);
    SameSealsKeepInv(before, after, digest);
  }

  lemma ClaimGood(db: Db, digest: string -> string, now: Time, pick: Id)
    requires DbInv(db, digest)
    ensures GoodTx(db, ClaimTx(db, now, pick).After(db), digest, now)
  {
    hide ClaimTx, SealInv, AllRows, AllRowsStep, SameSeals, Keeps, Stamped, ActionsKept;
    var after := ClaimTx(db, now, pick).After(db);
    ClaimKeepsRows(db, now, pick);
    ClaimFrame(db, now, pick);
    SameSealsKeepInv(db, after, digest);
  }

  lemma ClaimFrame(db: Db, now: Time, pick: Id)
    ensures var after := ClaimTx(db, now, pick).After(db);
            SameSeals(db, after) && Stamped(db, after, now) && ActionsKept(db, after)
  {
    hide First;
    if First(ReclaimAll(db.outbox, now), pick, now) {
      PickExists(db, now, pick);
    }
  }

  lemma PickExists(db: Db, now: Time, pick: Id)
    requires First(ReclaimAll(db.outbox, now), pick, now)
    ensures pick in db.outbox
  {
  }

  /** What the three transactions on a claimed row leave alone. */
  ghost predicate ClaimFrameKept(before: Db, after: Db, o: Id, at: Time) {
    && o in before.outbox && o in after.outbox
    && (after.outbox[o] == before.outbox[o] || after.outbox[o].updatedAt == at)
    && after.idempotency == before.idempotency && after.counters == before.counters
    && after.documents == before.documents && after.lines == before.lines && after.actions == before.actions
  }

  lemma MarkFrame(db: Db, c: OutboxClaim, now: Time)
    requires c.id in db.outbox
    ensures ClaimFrameKept(db, MarkTx(db, c, now).After(db), c.id, now)
  {
    hide Latest, MaxSeq, Rows;
  }

  lemma ReleaseFrame(db: Db, c: OutboxClaim, now: Time)
    requires c.id in db.outbox
    ensures ClaimFrameKept(db, ReleaseTx(db, c, now).After(db), c.id, now)
  {
    MoveFields(db.(outbox := Requeue(db.outbox, c.id, now)), c.documentId, SealedLocally, now);
    hide Latest, Rows, Move;
  }

  lemma MoveFields(db: Db, d: Id, to: Status, now: Time)
    ensures Move(db, d, to, now) == db.(ledger := Move(db, d, to, now).ledger)
  {
  }

  lemma AnsweredFields(db: Db, c: OutboxClaim, to: Status, attemptId: Id, now: Time)
    ensures var after := Answered(db, c, to, attemptId, now);
            after == db.(ledger := after.ledger, attempts := after.attempts, responses := after.responses)
  {
    hide Latest, MaxSeq, MaxAttempt, Rows;
  }

  lemma PersistFrame(db: Db, c: OutboxClaim, to: Status, attemptId: Id, now: Time)
    requires ClaimFits(db, c) && RowInv(db, c.id)
    ensures ClaimFrameKept(db, PersistTx(db, c, to, attemptId, now).After(db), c.id, now)
  {
    hide RowInv, PersistTx, Answered;
    PersistAnswer(db, c, to, attemptId, now);
    AnsweredFields(db, c, to, attemptId, now);
  }

  lemma ClaimedRowTx(before: Db, after: Db, digest: string -> string, o: Id, at: Time)
    requires DbInv(before, digest) && StepsRow(before, after, o) && ClaimFrameKept(before, after, o, at)
    ensures GoodTx(before, after, digest, at)
  {
    hide DbInv, GoodTx, StepsRow;
    RowTx(before, after, digest, o, at);
  }

  lemma MarkGood(db: Db, digest: string -> string, c: OutboxClaim, now: Time)
    requires DbInv(db, digest) && ClaimFits(db, c)
    ensures GoodTx(db, MarkTx(db, c, now).After(db), digest, now)
  {
    hide DbInv, GoodTx, StepsRow, RowInv, ClaimFrameKept, MarkTx;
    RowHasInv(db, digest, c.id);
    MarkStepsRow(db, c, now);
    MarkFrame(db, c, now);
    ClaimedRowTx(db, MarkTx(db, c, now).After(db), digest, c.id, now);
  }

  lemma ReleaseGood(db: Db, digest: string -> string, c: OutboxClaim, now: Time)
    requires DbInv(db, digest) && ClaimFits(db, c)
    ensures GoodTx(db, ReleaseTx(db, c, now).After(db), digest, now)
  {
    hide DbInv, GoodTx, StepsRow, RowInv, ClaimFrameKept, ReleaseTx;
    RowHasInv(db, digest, c.id);
    ReleaseStepsRow(db, c, now);
    ReleaseFrame(db, c, now);
    ClaimedRowTx(db, ReleaseTx(db, c, now).After(db), digest, c.id, now);
  }

  lemma PersistGood(db: Db, digest: string -> string, c: OutboxClaim, to: Status, attemptId: Id, now: Time)
    requires DbInv(db, digest) && ClaimFits(db, c) && IsOutcome(to) && FreshAttempt(db, attemptId)
    ensures GoodTx(db, PersistTx(db, c, to, attemptId, now).After(db), digest, now)
  {
    hide DbInv, GoodTx, StepsRow, RowInv, ClaimFrameKept, PersistTx, FreshAttempt;
    RowHasInv(db, digest, c.id);
    PersistStepsRow(db, c, to, attemptId, now);
    PersistFrame(db, c, to, attemptId, now);
    ClaimedRowTx(db, PersistTx(db, c, to, attemptId, now).After(db), digest, c.id, now);
  }

  lemma ActGood(db: Db, digest: string -> string, input: ActionInput)
    requires DbInv(db, digest)
    ensures GoodTx(db, ActTx(db, input).After(db), digest, input.stamp)
  {
    hide DbInv, GoodTx, StepsRow, RowInv;
    if ActTx(db, input).Commit? {
      ActStepsRow(db, input) by { DbInvParts(db, digest); }
      RowTx(db, ActTx(db, input).db, digest, RowOf(db, input.submissionId).value, input.stamp);
    } else {
      NoTx(db, digest, input.stamp);
    }
  }

  /** A fresh seal adds one row, sealed locally, with no attempt; no other row can tell. */
  lemma SealedRow(db: Db, req: SealRequest, hash: string, ids: SealIds, now: Time, o: Id)
    requires FreshIds(db, ids) && AllRows(db) && o in Sealed(db, req, hash, ids, now).outbox
    ensures var after := Sealed(db, req, hash, ids, now);
            RowInv(after, o) && (o in db.outbox ==> RowStep(db, after, o))
  {
    hide LineRows, DocumentOf, AllRows, Chain;
    if o in db.outbox {
      AllRowsHas(db, o);
    } else {
      OneEventChain(now);
    }
  }

  lemma AllRowsHas(db: Db, o: Id)
    requires AllRows(db) && o in db.outbox
    ensures RowInv(db, o)
  {
  }

  lemma DbInvParts(db: Db, digest: string -> string)
    requires DbInv(db, digest)
    ensures SealInv(db, digest) && AllRows(db)
  {
  }

  lemma RowHasInv(db: Db, digest: string -> string, o: Id)
    requires DbInv(db, digest) && o in db.outbox
    ensures RowInv(db, o)
  {
    hide SealInv;
  }

  lemma OneEventChain(now: Time)
    ensures Chain([LedgerEvent(1, None, SealedLocally, now)])
  {
  }

  lemma SealGood(db: Db, digest: string -> string, req: SealRequest, ids: SealIds, now: Time)
    requires DbInv(db, digest) && FreshIds(db, ids)
    ensures GoodTx(db, SealTx(db, req, HashOf(digest, req), ids, now).After(db), digest, now)
  {
    hide HashOf, SealInv, AllRows, AllRowsStep, Keeps, Stamped, ActionsKept, FreshIds, Sealed, LoadCompleted;
    var hash := HashOf(digest, req);
    var tx := SealTx(db, req, hash, ids, now);
    SealKeepsInv(db, digest, req, ids, now);
    SealKeeps(db, digest, req, ids, now);
    if Resolve(db, req, hash).Proceed? && tx.Commit? {
      assert tx.db == Sealed(db, req, hash, ids, now);
      SealedRows(db, req, hash, ids, now);
    } else {
      NoTx(db, digest, now);
    }
  }

  lemma SealedRows(db: Db, req: SealRequest, hash: string, ids: SealIds, now: Time)
    requires FreshIds(db, ids) && AllRows(db)
    ensures var after := Sealed(db, req, hash, ids, now);
            AllRows(after) && AllRowsStep(db, after) && Stamped(db, after, now) && ActionsKept(db, after)
  {
    hide RowInv, RowStep, FreshIds, Sealed, Stamped, ActionsKept;
    var after := Sealed(db, req, hash, ids, now);
    SealedStamps(db, req, hash, ids, now);
    forall o | o in after.outbox
      ensures RowInv(after, o) && (o in db.outbox ==> RowStep(db, after, o))
    {
      SealedRow(db, req, hash, ids, now, o);
    }
  }

  lemma SealedStamps(db: Db, req: SealRequest, hash: string, ids: SealIds, now: Time)
    ensures var after := Sealed(db, req, hash, ids, now);
            && Stamped(db, after, now) && ActionsKept(db, after) && db.outbox.Keys <= after.outbox.Keys
  {
    hide LineRows, DocumentOf;
  }

  // ----- one step -----

  /** The instant a step writes into the rows it changes: its own, except that an operator's is that of the call. */
  function StampOf(s: Sys, step: Step): Time {
    match step.event
    case Act(op) => (match SessionAt(s, op) case Ready(input) => input.stamp case NoSession => s.clock + step.delay)
    case _ => s.clock + step.delay
  }

  lemma StepGood(w: World, s: Sys, step: Step)
    requires Inv(w, s)
    ensures GoodTx(s.db, Apply(w, s, step).db, w.digest, StampOf(s, step))
  {
    var now := s.clock + step.delay;
    hide GoodTx, DbInv, SealTx, ClaimTx, MarkTx, ReleaseTx, PersistTx, ActTx, FreshIds, HashOf, SealInv, AllRows;
    assert DbInv(s.db, w.digest) by { InvParts(w, s); }
    NoTx(s.db, w.digest, StampOf(s, step));
    match step.event
    case Seal(req, ids) =>
      if FreshIds(s.db, ids) && Prepared(w.calendar, req).Ok? {
        SealGood(s.db, w.digest, Prepared(w.calendar, req).value, ids, now);
      }
    case Claim(n, pick) => ClaimGood(s.db, w.digest, now, pick);
    case Mark(n, _) =>
      if WorkerAt(s, n).Claimed? {
        MarkGood(s.db, w.digest, WorkerAt(s, n).claim, now);
      }
    case Submit(n, _) =>
    case Release(n, _) =>
      if WorkerAt(s, n).Releasing? {
        ReleaseGood(s.db, w.digest, WorkerAt(s, n).claim, now);
      }
    case Persist(n, attemptId, _) =>
      if WorkerAt(s, n).Answering? && FreshAttempt(s.db, attemptId) {
        PersistGood(s.db, w.digest, WorkerAt(s, n).claim, WorkerAt(s, n).to, attemptId, now);
      }
    case Ask(_, _, _, _, _) =>
    case Act(op) =>
      if SessionAt(s, op).Ready? {
        ActGood(s.db, w.digest, SessionAt(s, op).input);
      }
  }

  lemma InvParts(w: World, s: Sys)
    requires Inv(w, s)
    ensures DbInv(s.db, w.digest) && ClaimsFit(s.db, s.workers) && NothingAhead(s)
  {
  }

  lemma WorkerStaysFit(before: Db, after: Db, worker: Worker)
    requires WorkerFits(before, worker) && Keeps(before, after)
    ensures WorkerFits(after, worker)
  {
  }

  lemma WorkerAtFits(s: Sys, n: nat)
    requires ClaimsFit(s.db, s.workers)
    ensures WorkerFits(s.db, WorkerAt(s, n))
  {
  }

  lemma ClaimWorker(w: World, s: Sys, step: Step, n: nat)
    requires step.event.Claim? && WorkerFits(Apply(w, s, step).db, WorkerAt(s, n))
    ensures WorkerFits(Apply(w, s, step).db, WorkerAt(Apply(w, s, step), n))
  {
    hide ClaimTx, ClaimFits, MarkTx, ReleaseTx, PersistTx, ActTx, FreshIds, SealCall, LookupKey;
    ClaimKeys(s.db, s.clock + step.delay, step.event.pick);
  }

  /** Outside a claim a worker keeps the claim it holds, or lets go of it, and answers only with an outcome. */
  lemma WorkerMoves(w: World, s: Sys, step: Step, n: nat)
    requires !step.event.Claim?
    ensures var before, after := WorkerAt(s, n), WorkerAt(Apply(w, s, step), n);
            || after == before || after.Idle?
            || (!before.Idle? && after.claim == before.claim && (after.Answering? ==> IsOutcome(after.to)))
  {
    hide ClaimTx, MarkTx, ReleaseTx, PersistTx, ActTx, FreshIds, SealCall, LookupKey;
  }

  /** A worker only ever holds the claim it was handed, and answers only with an outcome. */
  lemma StepWorker(w: World, s: Sys, step: Step, n: nat)
    requires WorkerFits(s.db, WorkerAt(s, n)) && Keeps(s.db, Apply(w, s, step).db)
    ensures WorkerFits(Apply(w, s, step).db, WorkerAt(Apply(w, s, step), n))
  {
    hide Apply, Keeps, ClaimFits;
    WorkerStaysFit(s.db, Apply(w, s, step).db, WorkerAt(s, n));
    if step.event.Claim? {
      ClaimWorker(w, s, step, n);
    } else {
      WorkerMoves(w, s, step, n);
    }
  }

  lemma StepClaims(w: World, s: Sys, step: Step)
    requires ClaimsFit(s.db, s.workers) && Keeps(s.db, Apply(w, s, step).db)
    ensures ClaimsFit(Apply(w, s, step).db, Apply(w, s, step).workers)
  {
    hide WorkerFits, Apply;
    var t := Apply(w, s, step);
    forall n | n in t.workers
      ensures WorkerFits(t.db, t.workers[n])
    {
      WorkerAtFits(s, n);
      StepWorker(w, s, step, n);
      assert WorkerAt(t, n) == t.workers[n];
    }
  }

  lemma StepNothingAhead(w: World, s: Sys, step: Step)
    requires NothingAhead(s) && Stamped(s.db, Apply(w, s, step).db, StampOf(s, step))
    ensures NothingAhead(Apply(w, s, step))
  {
    hide SealTx, ClaimTx, MarkTx, ReleaseTx, PersistTx, ActTx, FreshIds, SealCall, LookupKey;
    var t := Apply(w, s, step);
    assert StampOf(s, step) <= t.clock;
    assert forall op :: op in t.sessions && t.sessions[op].Ready? ==>
      (op in s.sessions && t.sessions[op] == s.sessions[op]) || t.sessions[op].input.stamp == t.clock;
  }

  /** Every step of every interleaving keeps the invariant, and everything already recorded. */
  lemma ApplyKeepsInv(w: World, s: Sys, step: Step)
    requires Inv(w, s)
    ensures Inv(w, Apply(w, s, step)) && History(s.db, Apply(w, s, step).db)
  {
    InvParts(w, s);
    StepGood(w, s, step);
    hide Apply, Keeps, AllRowsStep, SealInv, AllRows, ClaimsFit, NothingAhead, Stamped, ActionsKept;
    StepClaims(w, s, step);
    StepNothingAhead(w, s, step);
  }

  // ----- whole runs -----

  lemma HistoryTransitive(a: Db, b: Db, c: Db)
    requires History(a, b) && History(b, c)
    ensures History(a, c)
  {
    KeepsTransitive(a, b, c);
    forall o | o in a.outbox
      ensures o in c.outbox && RowStep(a, c, o)
    {
      assert RowStep(a, b, o) && RowStep(b, c, o);
    }
  }

  lemma {:induction false} RunKeepsInv(w: World, s: Sys, steps: seq<Step>)
    requires Inv(w, s)
    ensures Inv(w, Run(w, s, steps)) && History(s.db, Run(w, s, steps).db)
  {
    hide Inv, History, Apply;
    if steps == [] {
      HistoryReflexive(w, s);
    } else {
      var before := Run(w, s, steps[..|steps| - 1]);
      RunKeepsInv(w, s, steps[..|steps| - 1]);
      ApplyKeepsInv(w, before, steps[|steps| - 1]);
      HistoryTransitive(s.db, before.db, Run(w, s, steps).db);
    }
  }

  lemma HistoryReflexive(w: World, s: Sys)
    requires Inv(w, s)
    ensures History(s.db, s.db)
  {
    hide SealInv, Chain;
  }

  lemma InitialInv(w: World)
    ensures Inv(w, INITIAL)
  {
    EmptySealInv(w.digest);
    hide SealInv;
  }
}
