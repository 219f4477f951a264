/** What holds in every reachable state, and from it on in every continuation. */
module ProtocolTheorems {
  import opened Prelude
  import opened Canonical
  import opened Tables
  import opened SealGate
  import opened Sealing
  import opened Outbox
  import opened Operator
  import opened Protocol
  import opened ProtocolSafety

  ghost predicate Reachable(w: World, s: Sys) {
    exists steps :: s == Run(w, INITIAL, steps)
  }

  lemma ReachableInv(w: World, s: Sys)
    requires Reachable(w, s)
    ensures Inv(w, s)
  {
    hide Inv, Run;
    var steps :| s == Run(w, INITIAL, steps);
    InitialInv(w);
    RunKeepsInv(w, INITIAL, steps);
  }

  /** No row and no waiting operator is ever stamped ahead of the clock. */
  lemma NothingIsAhead(w: World, s: Sys)
    requires Reachable(w, s)
    ensures forall o :: o in s.db.outbox ==> s.db.outbox[o].updatedAt <= s.clock
    ensures forall op :: op in s.sessions && s.sessions[op].Ready? ==> s.sessions[op].input.stamp <= s.clock
  {
    hide SealInv, AllRows, ClaimsFit;
    ReachableInv(w, s);
  }

  /** The row of a document, in a reachable state. */
  lemma DocumentHasRow(w: World, s: Sys, d: Id) returns (o: Id)
    requires Inv(w, s) && d in s.db.documents
    ensures RowFor(s.db, o, d) && RowInv(s.db, o)
  {
    hide NumberingInv, ExternalIdInv, IdempotencyInv, StoredInv, ClaimsFit, NothingAhead, Chain;
    o :| RowFor(s.db, o, d);
  }

  /**
   Every document's ledger is a contiguous chain of legal moves, and an authority outcome can only be its last event.
   */
  lemma LedgerIsAChain(w: World, s: Sys, d: Id)
    requires Reachable(w, s) && d in s.db.documents
    ensures var events := Rows(s.db.ledger, d);
            && Chain(events)
            && forall i :: 0 <= i < |events| && IsOutcome(events[i].toStatus) ==> i == |events| - 1
  {
    hide Inv, Chain;
    ReachableInv(w, s);
    var o := DocumentHasRow(w, s, d);
    var events := Rows(s.db.ledger, d);
    forall i | 0 <= i < |events| && IsOutcome(events[i].toStatus)
      ensures i == |events| - 1
    {
      OutcomeIsLast(events, i);
    }
  }

  lemma InvRow(w: World, s: Sys, o: Id)
    requires Inv(w, s) && o in s.db.outbox
    ensures RowInv(s.db, o)
  {
    hide SealInv, ClaimsFit, NothingAhead, RowInv;
  }

  /** Three ways of saying that a submission is done, equivalent in every reachable state. */
  lemma SucceededExactlyWhenSubmitted(w: World, s: Sys, o: Id)
    requires Reachable(w, s) && o in s.db.outbox
    ensures var row := s.db.outbox[o];
            var events := Rows(s.db.ledger, row.documentId);
            && events != []
            && (row.state.Succeeded? <==> IsOutcome(events[|events| - 1].toStatus))
            && (row.state.Succeeded? <==> Submitted(s.db, row, events[|events| - 1].toStatus))
            && (row.state.Succeeded? <==> Rows(s.db.attempts, row.submissionId) != [])
  {
    hide Inv;
    ReachableInv(w, s);
    InvRow(w, s, o);
  }

  lemma FutureInv(w: World, s: Sys, future: seq<Step>)
    requires Reachable(w, s)
    ensures Inv(w, s) && Inv(w, Run(w, s, future)) && History(s.db, Run(w, s, future).db)
  {
    hide Inv, History, Run;
    ReachableInv(w, s);
    RunKeepsInv(w, s, future);
  }

  /** Nothing that happens later touches a succeeded row, its ledger, its attempt or its recorded outcome. */
  lemma SuccessIsFinal(w: World, s: Sys, future: seq<Step>, o: Id)
    requires Reachable(w, s) && o in s.db.outbox && s.db.outbox[o].state.Succeeded?
    ensures var after := Run(w, s, future).db;
            var row := s.db.outbox[o];
            var events := Rows(s.db.ledger, row.documentId);
            && o in after.outbox && after.outbox[o] == row
            && Rows(after.ledger, row.documentId) == events
            && Rows(after.attempts, row.submissionId) == Rows(s.db.attempts, row.submissionId)
            && events != [] && Submitted(s.db, row, events[|events| - 1].toStatus)
            && Submitted(after, row, events[|events| - 1].toStatus)
  {
    hide Inv, Run, Keeps, ActionsKept, Chain;
    FutureInv(w, s, future);
    SucceededExactlyWhenSubmitted(w, s, o);
    assert RowStep(s.db, Run(w, s, future).db, o);
    InvRow(w, Run(w, s, future), o);
  }

  /**
   Once a cancel has committed, no continuation - whatever workers were already in flight - records an attempt or an
   outcome for that submission, and its row stays dead and cancelled.
   */
  lemma CancelIsForever(w: World, s: Sys, op: nat, delay: nat, future: seq<Step>)
    requires Reachable(w, s) && SessionAt(s, op).Ready? && SessionAt(s, op).input.action.Cancel?
    requires ActTx(s.db, SessionAt(s, op).input).Commit?
    ensures var after := Run(w, Apply(w, s, Step(delay, Act(op))), future).db;
            var o := RowOf(s.db, SessionAt(s, op).input.submissionId).value;
            && o in after.outbox
            && after.outbox[o].submissionId == SessionAt(s, op).input.submissionId
            && after.outbox[o].state.Dead? && after.outbox[o].disposition.Cancelled?
            && Rows(after.attempts, after.outbox[o].submissionId) == []
            && forall e :: e in Rows(after.ledger, after.outbox[o].documentId) ==> !IsOutcome(e.toStatus)
  {
    hide Inv, Run, Keeps, ActionsKept, Chain;
    var s1 := Apply(w, s, Step(delay, Act(op)));
    var o := RowOf(s.db, SessionAt(s, op).input.submissionId).value;
    ReachableInv(w, s);
    ApplyKeepsInv(w, s, Step(delay, Act(op)));
    assert s1.db == ActTx(s.db, SessionAt(s, op).input).db;
    assert s1.db.outbox[o].disposition.Cancelled?;
    hide Apply, ActTx, LookupKey;
    CancelledStays(w, s1, future, o);
  }

  lemma CancelledStays(w: World, s: Sys, future: seq<Step>, o: Id)
    requires Inv(w, s) && o in s.db.outbox && s.db.outbox[o].disposition.Cancelled?
    ensures var after := Run(w, s, future).db;
            && o in after.outbox
            && after.outbox[o].submissionId == s.db.outbox[o].submissionId
            && after.outbox[o].state.Dead? && after.outbox[o].disposition.Cancelled?
            && Rows(after.attempts, after.outbox[o].submissionId) == []
            && forall e :: e in Rows(after.ledger, after.outbox[o].documentId) ==> !IsOutcome(e.toStatus)
  {
    hide Inv, Run, ActionsKept, Chain;
    var t := Run(w, s, future);
    RunKeepsInv(w, s, future);
    assert o in t.db.outbox;
    InvRow(w, t, o);
    var events := Rows(t.db.ledger, t.db.outbox[o].documentId);
    forall e | e in events
      ensures !IsOutcome(e.toStatus)
    {
      var i :| 0 <= i < |events| && events[i] == e;
      if IsOutcome(e.toStatus) {
        OutcomeIsLast(events, i);
      }
    }
  }

  /**
   A worker whose persist commits reports the outcome on the ledger, unless the row had already succeeded with a
   different one: that branch reports the worker's own outcome (internal/persistence/outbox.go:372-379).
   */
  lemma ReportAgreesWithLedger(w: World, s: Sys, n: nat, attemptId: Id, now: Time)
    requires Reachable(w, s) && WorkerAt(s, n).Answering? && FreshAttempt(s.db, attemptId)
    requires PersistTx(s.db, WorkerAt(s, n).claim, WorkerAt(s, n).to, attemptId, now).Commit?
    ensures var c, to := WorkerAt(s, n).claim, WorkerAt(s, n).to;
            var tx := PersistTx(s.db, c, to, attemptId, now);
            && c.id in s.db.outbox
            && (Latest(Rows(tx.db.ledger, c.documentId)) == Some(tx.value.outcome) <==>
                !(s.db.outbox[c.id].state.Succeeded? && Latest(Rows(s.db.ledger, c.documentId)) != Some(to)))
  {
    hide Inv, Latest, PersistTx, Answered, Chain, FreshAttempt;
    var c, to := WorkerAt(s, n).claim, WorkerAt(s, n).to;
    ReachableInv(w, s);
    WorkerAtFits(s, n) by { InvParts(w, s); }
    InvRow(w, s, c.id);
    PersistAnswer(s.db, c, to, attemptId, now);
    if !s.db.outbox[c.id].state.Succeeded? {
      LatestOfRow(s.db, c.id);
      AnsweredLedger(s.db, c, to, attemptId, now);
      ChainTop(Rows(Answered(s.db, c, to, attemptId, now).ledger, c.documentId));
    }
  }

  // ----- sealing -----

  /** In every reachable state numbers are 1..last_seq without gap or repetition, and records and documents pair up. */
  lemma CommittedStateIsSound(w: World, s: Sys)
    requires Reachable(w, s)
    ensures forall d, e, series, n: nat :: Numbered(s.db, d, series, n) && Numbered(s.db, e, series, n) ==> d == e
    ensures forall series, n: nat :: NumberUsed(s.db, series, n) <==> 1 <= n <= LastSeq(s.db, series)
    ensures ExternalIdInv(s.db) && IdempotencyInv(s.db) && OutboxInv(s.db)
  {
    hide ExternalIdInv, IdempotencyInv, OutboxInv, StoredInv, AllRows, ClaimsFit, NothingAhead;
    ReachableInv(w, s);
  }

  ghost predicate SealStep(w: World, db: Db, req: SealRequest, ids: SealIds, now: Time) {
    FreshIds(db, ids) && SealCall(w, db, req, ids, now).Commit?
  }

  /**
   Idempotent replay, over any distance. After a successful seal and any continuation, a request with the same scope
   and key succeeds exactly when its projection is, field for field, the one first sealed - which the stored document
   and lines reconstruct; it then changes nothing and gives the first answer, marked as a hit. Otherwise it conflicts.
   */
  lemma ReplayAtAnyDistance(w: World, s: Sys, first: SealRequest, ids: SealIds, delay: nat, between: seq<Step>,
                            second: SealRequest, ids2: SealIds, now2: Time)
    requires Reachable(w, s) && CollisionFree(w.digest)
    requires SealStep(w, s.db, first, ids, s.clock + delay)
    requires Prepared(w.calendar, first).Ok? && Prepared(w.calendar, second).Ok?
    requires KeyOf(Prepared(w.calendar, second).value) == KeyOf(Prepared(w.calendar, first).value)
    ensures var answer := SealCall(w, s.db, first, ids, s.clock + delay).value;
            var later := Run(w, Apply(w, s, Step(delay, Seal(first, ids))), between).db;
            var again := SealCall(w, later, second, ids2, now2);
            var ready1, ready2 := Prepared(w.calendar, first).value, Prepared(w.calendar, second).value;
            && answer.documentId in later.documents && answer.documentId in later.lines
            && StoredProjection(later.documents[answer.documentId], later.lines[answer.documentId]) ==
               ProjectionOf(ready1)
            && again == if ProjectionOf(ready2) == ProjectionOf(ready1)
                        then Commit(later, answer.(idempotentHit := true))
                        else Rollback(IdempotencyConflict)
  {
    hide Inv, Run, Keeps, AllRowsStep, ActionsKept, SealInv, LoadCompleted, SealTx, FreshIds, CollisionFree,
         StoredProjection, Prepared, HashOf, ProjectionOf, RecordFor, Reachable;
    var ready1, ready2 := Prepared(w.calendar, first).value, Prepared(w.calendar, second).value;
    var now := s.clock + delay;
    var s1 := Apply(w, s, Step(delay, Seal(first, ids)));
    var t := Run(w, s1, between);
    ReachableInv(w, s);
    InvSeal(w, s);
    SuccessIsRecorded(s.db, w.digest, ready1, ids, now);
    ApplyKeepsInv(w, s, Step(delay, Seal(first, ids)));
    var d := SealCall(w, s.db, first, ids, now).value.documentId;
    assert s1.db == SealTx(s.db, ready1, HashOf(w.digest, ready1), ids, now).db;
    hide Apply;
    RunKeepsInv(w, s1, between);
    InvSeal(w, s1);
    InvSeal(w, t);
    RecordStays(s1.db, t.db, ready1, d);
    LoadStable(s1.db, t.db, d) by { SealInvParts(s1.db, w.digest); SealInvParts(t.db, w.digest); }
    RecordedKeyAnswer(t.db, w.digest, ready1, d, ids, now);
    RecordReconstructs(t.db, w.digest, ready1, d);
    assert RecordFor(t.db, KeyOf(ready2), d);
    RecordedKeyAnswer(t.db, w.digest, ready2, d, ids2, now2);
  }

  lemma InvSeal(w: World, s: Sys)
    requires Inv(w, s)
    ensures SealInv(s.db, w.digest)
  {
  }

  lemma RecordStays(before: Db, after: Db, req: SealRequest, d: Id)
    requires Keeps(before, after) && RecordFor(before, KeyOf(req), d)
    ensures RecordFor(after, KeyOf(req), d)
    ensures after.idempotency[KeyOf(req)].requestHash == before.idempotency[KeyOf(req)].requestHash
    ensures d in before.documents ==> d in after.documents
  {
  }
}
