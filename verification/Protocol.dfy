/**
 The whole protocol as a state machine: any number of clients sealing, workers stepping through
 claim - mark - submit - release or persist, and operators looking up and then acting, one transaction a step, in any
 interleaving. A worker that stalls simply takes its next step late; a transaction that fails leaves no trace.
 */
module Protocol {
  import opened Prelude
  import opened Tables
  import opened SealGate
  import opened Sealing
  import opened Outbox
  import opened Operator
  import FiscalTime

  /** What the protocol is run over: a calendar and the digest behind request_hash. */
  datatype World = World(calendar: FiscalTime.Calendar, digest: string -> string)

  /** Where a worker is in finishOutbox, with the claim it holds. */
  datatype Worker =
    | Idle
    | Claimed(claim: OutboxClaim)
    | Marked(claim: OutboxClaim)
    | Answering(claim: OutboxClaim, to: Status)
    | Releasing(claim: OutboxClaim)

  /** An operator call between its lookup and its transaction. */
  datatype Session = NoSession | Ready(input: ActionInput)

  /** What comes back from signing and submitting. */
  datatype Reply = Unavailable | Failure | Outcome(outcome: SimOutcome)

  datatype Event =
    | Seal(req: SealRequest, ids: SealIds)
    | Claim(worker: nat, pick: Id)
    | Mark(worker: nat, fails: bool)
    | Submit(worker: nat, reply: Reply)
    | Release(worker: nat, fails: bool)
    | Persist(worker: nat, attemptId: Id, fails: bool)
    | Ask(operator: nat, submissionId: Id, action: Action, key: string, expectedUpdatedAt: Time)
    | Act(operator: nat)

  /** An event, and how long after the previous one it happens. */
  datatype Step = Step(delay: nat, event: Event)

  datatype Sys = Sys(db: Db, clock: Time, workers: map<nat, Worker>, sessions: map<nat, Session>)

  const INITIAL := Sys(EMPTY_DB, 0, map[], map[])

  function WorkerAt(s: Sys, w: nat): Worker {
    if w in s.workers then s.workers[w] else Idle
  }

  function SessionAt(s: Sys, op: nat): Session {
    if op in s.sessions then s.sessions[op] else NoSession
  }

  /** SealInTx: the gate, then the transaction. Names that are not fresh are never drawn. */
  ghost function SealCall(w: World, db: Db, req: SealRequest, ids: SealIds, now: Time): Tx<SealResult, SealError> {
    match Prepared(w.calendar, req)
    case Err(problem) => Rollback(Invalid(problem))
    case Ok(ready) => SealTx(db, ready, HashOf(w.digest, ready), ids, now)
  }

  function InputOf(e: Event, now: Time): ActionInput
    requires e.Ask?
  {
    ActionInput(e.submissionId, e.action, e.key, e.expectedUpdatedAt, now)
  }

  ghost function Apply(w: World, s: Sys, step: Step): Sys {
    var now := s.clock + step.delay;
    var t := s.(clock := now);
    match step.event
    case Seal(req, ids) =>
      if FreshIds(s.db, ids) then t.(db := SealCall(w, s.db, req, ids, now).After(s.db)) else t
    case Claim(n, pick) =>
      (match WorkerAt(s, n)
       case Idle =>
         var tx := ClaimTx(s.db, now, pick);
         if tx.Commit? then t.(db := tx.db, workers := s.workers[n := Claimed(tx.value)]) else t
       case _ => t)
    case Mark(n, fails) =>
      (match WorkerAt(s, n)
       case Claimed(c) =>
         var tx := MarkTx(s.db, c, now);
         if fails || tx.Rollback? then t.(workers := s.workers[n := Releasing(c)])
         else t.(db := tx.db, workers := s.workers[n := Marked(c)])
       case _ => t)
    case Submit(n, reply) =>
      (match WorkerAt(s, n)
       case Marked(c) => t.(workers := s.workers[n := AfterReply(c, reply)])
       case _ => t)
    case Release(n, fails) =>
      (match WorkerAt(s, n)
       case Releasing(c) =>
         t.(db := if fails then s.db else ReleaseTx(s.db, c, now).After(s.db), workers := s.workers[n := Idle])
       case _ => t)
    case Persist(n, attemptId, fails) =>
      (match WorkerAt(s, n)
       case Answering(c, to) =>
         if !FreshAttempt(s.db, attemptId) then t
         else
           t.(db := if fails then s.db else PersistTx(s.db, c, to, attemptId, now).After(s.db),
              workers := s.workers[n := Idle])
       case _ => t)
    case Ask(op, _, _, _, _) =>
      if SessionAt(s, op).NoSession? && LookupKey(s.db, InputOf(step.event, now)).Unused?
      then t.(sessions := s.sessions[op := Ready(InputOf(step.event, now))]) else t
    case Act(op) =>
      (match SessionAt(s, op)
       case Ready(input) => t.(db := ActTx(s.db, input).After(s.db), sessions := s.sessions[op := NoSession])
       case NoSession => t)
  }

  function AfterReply(c: OutboxClaim, reply: Reply): Worker {
    match reply
    case Outcome(o) => if LedgerStatus(o).Some? then Answering(c, LedgerStatus(o).value) else Releasing(c)
    case _ => Releasing(c)
  }

  /** The state after a sequence of steps. */
  ghost function Run(w: World, s: Sys, steps: seq<Step>): Sys {
    if steps == [] then s else Apply(w, Run(w, s, steps[..|steps| - 1]), steps[|steps| - 1])
  }

  // ----- the invariant -----

  /** A worker's claim names the row it was taken from, and only an outcome is ever about to be persisted. */
  ghost predicate WorkerFits(db: Db, worker: Worker) {
    worker.Idle? || (ClaimFits(db, worker.claim) && (worker.Answering? ==> IsOutcome(worker.to)))
  }

  ghost predicate ClaimsFit(db: Db, workers: map<nat, Worker>) {
    forall n :: n in workers ==> WorkerFits(db, workers[n])
  }

  /** No row is stamped in the future, and no waiting operator either. */
  ghost predicate NothingAhead(s: Sys) {
    && (forall o :: o in s.db.outbox ==> s.db.outbox[o].updatedAt <= s.clock)
    && (forall op :: op in s.sessions && s.sessions[op].Ready? ==> s.sessions[op].input.stamp <= s.clock)
  }

  ghost predicate Inv(w: World, s: Sys) {
    SealInv(s.db, w.digest) && AllRows(s.db) && ClaimsFit(s.db, s.workers) && NothingAhead(s)
  }

  ghost predicate ActionsKept(before: Db, after: Db) {
    forall k :: k in before.actions ==> k in after.actions && after.actions[k] == before.actions[k]
  }

  /** What one step, and so any run, keeps of the past. */
  ghost predicate History(before: Db, after: Db) {
    Keeps(before, after) && AllRowsStep(before, after) && ActionsKept(before, after)
  }

  ghost predicate DbInv(db: Db, digest: string -> string) {
    SealInv(db, digest) && AllRows(db)
  }

  /** Every row of the later outbox is an old one untouched, or carries the given stamp. */
  ghost predicate Stamped(before: Db, after: Db, at: Time) {
    forall o :: o in after.outbox ==>
      (o in before.outbox && after.outbox[o] == before.outbox[o]) || after.outbox[o].updatedAt == at
  }

  /** What every transaction does: it keeps the invariant and the past, and stamps what it writes. */
  ghost predicate GoodTx(before: Db, after: Db, digest: string -> string, at: Time) {
    DbInv(after, digest) && History(before, after) && Stamped(before, after, at)
  }

  /** A step that is not a seal leaves documents, lines, records and counters alone. */
  ghost predicate SameSeals(before: Db, after: Db) {
    && after.idempotency == before.idempotency && after.counters == before.counters
    && after.documents == before.documents && after.lines == before.lines
    && after.ledger.Keys == before.ledger.Keys && after.outbox.Keys == before.outbox.Keys
    && (forall o :: o in before.outbox ==>
          && after.outbox[o].documentId == before.outbox[o].documentId
          && after.outbox[o].submissionId == before.outbox[o].submissionId)
  }

  lemma SameSealsKeepInv(before: Db, after: Db, digest: string -> string)
    requires SealInv(before, digest) && SameSeals(before, after)
    ensures SealInv(after, digest) && Keeps(before, after)
  {
    hide NumberingInv, IdempotencyInv, OutboxInv, StoredInv;
    assert NumberingInv(after) by { SameNumbering(before, after); }
    assert ExternalIdInv(after);
    assert IdempotencyInv(after) by { SameRecords(before, after); }
    assert OutboxInv(after) by { SameQueue(before, after); }
    assert StoredInv(after, digest) by { SameStored(before, after, digest); }
  }

  lemma SameNumbering(before: Db, after: Db)
    requires NumberingInv(before) && after.documents == before.documents && after.counters == before.counters
    ensures NumberingInv(after)
  {
    forall d, series, n: nat
      ensures Numbered(after, d, series, n) <==> Numbered(before, d, series, n)
    {
    }
    forall series, n: nat
      ensures NumberUsed(after, series, n) <==> NumberUsed(before, series, n)
    {
      if NumberUsed(before, series, n) {
        var d :| Numbered(before, d, series, n);
        assert Numbered(after, d, series, n);
      }
    }
  }

  lemma SameRecords(before: Db, after: Db)
    requires IdempotencyInv(before) && after.documents == before.documents && after.idempotency == before.idempotency
    ensures IdempotencyInv(after)
  {
    forall d | d in after.documents
      ensures exists key :: RecordFor(after, key, d)
    {
      var key :| RecordFor(before, key, d);
      assert RecordFor(after, key, d);
    }
    forall key1, key2, d | RecordFor(after, key1, d) && RecordFor(after, key2, d)
      ensures key1 == key2
    {
      assert RecordFor(before, key1, d) && RecordFor(before, key2, d);
    }
  }

  lemma SameQueue(before: Db, after: Db)
    requires OutboxInv(before) && SameSeals(before, after)
    ensures OutboxInv(after)
  {
    forall d | d in after.documents
      ensures exists o :: RowFor(after, o, d)
    {
      var o :| RowFor(before, o, d);
      assert RowFor(after, o, d);
    }
  }

  lemma SameStored(before: Db, after: Db, digest: string -> string)
    requires StoredInv(before, digest) && SameSeals(before, after)
    ensures StoredInv(after, digest)
  {
    forall key, d | RecordFor(after, key, d) && d in after.documents && d in after.lines
      ensures RecordFor(before, key, d)
    {
    }
  }
}
