/**
 The outbox worker's transactions (internal/persistence/outbox.go): claim, mark processing, release, persist; and the
 invariant tying an outbox row to its ledger, attempts and responses.
 */
module Outbox {
  import opened Prelude
  import opened Tables

  /** 30 s after which an in-flight row is taken back, and the 5 s pause after an unavailable authority. */
  const RECLAIM_AFTER := 30_000_000
  const UNAVAILABLE_BACKOFF := 5_000_000

  datatype OutboxError =
    | OutboxEmpty | NoLedger | UnexpectedStatus(status: Status) | NoSuchRow | SucceedRows(n: nat) | SubmissionFailed

  datatype OutboxClaim = OutboxClaim(id: Id, documentId: Id, submissionId: Id)

  datatype SimOutcome = Accept | Reject | Unknown | OtherOutcome

  function LedgerStatus(o: SimOutcome): Option<Status> {
    match o
    case Accept => Some(AuthorityAccepted)
    case Reject => Some(AuthorityRejected)
    case Unknown => Some(AuthorityOutcomeUnknown)
    case OtherOutcome => None
  }

  /** OutboxProcessResult of a persisted submission; attempt number 0 when no attempt was made. */
  datatype Report = Report(submissionId: Id, documentId: Id, attemptNo: nat, outcome: Status)

  // ----- claim -----

  predicate Stale(row: OutboxRow, now: Time) {
    row.state.InFlight? && row.updatedAt <= now - RECLAIM_AFTER
  }

  function Reclaim(row: OutboxRow, now: Time): OutboxRow {
    if Stale(row, now) then row.(state := Pending, availableAt := now, updatedAt := now) else row
  }

  function ReclaimAll(outbox: map<Id, OutboxRow>, now: Time): (r: map<Id, OutboxRow>)
    ensures r.Keys == outbox.Keys && forall o :: o in r ==> r[o] == Reclaim(outbox[o], now)
  {
    map o | o in outbox :: Reclaim(outbox[o], now)
  }

  predicate Claimable(outbox: map<Id, OutboxRow>, o: Id, now: Time) {
    o in outbox && outbox[o].state.Pending? && outbox[o].availableAt <= now
  }

  /** One of the rows ORDER BY available_at may put first. */
  predicate First(outbox: map<Id, OutboxRow>, o: Id, now: Time) {
    && Claimable(outbox, o, now)
    && forall p :: p in outbox && Claimable(outbox, p, now) ==> outbox[o].availableAt <= outbox[p].availableAt
  }

  /** The claim transaction; `pick` says which of the first rows the query returns. */
  function ClaimTx(db: Db, now: Time, pick: Id): Tx<OutboxClaim, OutboxError> {
    var rows := ReclaimAll(db.outbox, now);
    if !First(rows, pick, now) then Rollback(OutboxEmpty)
    else
      Commit(db.(outbox := rows[pick := rows[pick].(state := InFlight, updatedAt := now)]),
             OutboxClaim(pick, rows[pick].documentId, rows[pick].submissionId))
  }

  /** A row with the least available_at of a set. */
  lemma {:induction false} LeastOf(outbox: map<Id, OutboxRow>, rows: set<Id>) returns (least: Id)
    requires rows != {} && rows <= outbox.Keys
    ensures least in rows && forall p :: p in rows ==> outbox[least].availableAt <= outbox[p].availableAt
    decreases |rows|
  {
    var p :| p in rows;
    if rows == {p} {
      least := p;
    } else {
      var q := LeastOf(outbox, rows - {p});
      least := if outbox[p].availableAt <= outbox[q].availableAt then p else q;
    }
  }

  lemma FirstExists(outbox: map<Id, OutboxRow>, o: Id, now: Time) returns (pick: Id)
    requires Claimable(outbox, o, now)
    ensures First(outbox, pick, now)
  {
    var rows := set p | p in outbox && Claimable(outbox, p, now);
    assert o in rows;
    pick := LeastOf(outbox, rows);
  }

  // ----- ledger moves -----

  function Move(db: Db, d: Id, to: Status, now: Time): Db {
    var events := Rows(db.ledger, d);
    db.(ledger := db.ledger[d := events + [LedgerEvent(MaxSeq(events) + 1, Latest(events), to, now)]])
  }

  function MarkTx(db: Db, c: OutboxClaim, now: Time): Tx<(), OutboxError> {
    match Latest(Rows(db.ledger, c.documentId))
    case None => Rollback(NoLedger)
    case Some(s) =>
      if s.SealedLocally? then Commit(Move(db, c.documentId, AuthorityProcessing, now), ())
      else if s.AuthorityProcessing? || IsOutcome(s) then Commit(db, ())
      else Rollback(UnexpectedStatus(s))
  }

  /** Back to pending after the pause, if still in flight. */
  function Requeue(outbox: map<Id, OutboxRow>, o: Id, now: Time): map<Id, OutboxRow> {
    if o in outbox && outbox[o].state.InFlight? then
      outbox[o := outbox[o].(state := Pending, availableAt := now + UNAVAILABLE_BACKOFF, updatedAt := now)]
    else outbox
  }

  function ReleaseTx(db: Db, c: OutboxClaim, now: Time): Tx<(), OutboxError> {
    var requeued := db.(outbox := Requeue(db.outbox, c.id, now));
    match Latest(Rows(db.ledger, c.documentId))
    case None => Rollback(NoLedger)
    case Some(s) =>
      if s.AuthorityProcessing? then Commit(Move(requeued, c.documentId, SealedLocally, now), ())
      else Commit(requeued, ())
  }

  // ----- persist -----

  /** Ledger, attempt and response of an authority answer. */
  function Answered(db: Db, c: OutboxClaim, to: Status, attemptId: Id, now: Time): Db {
    var sent := if Latest(Rows(db.ledger, c.documentId)) == Some(SealedLocally)
                then Move(db, c.documentId, AuthorityProcessing, now) else db;
    var moved := Move(sent, c.documentId, to, now);
    var before := Rows(db.attempts, c.submissionId);
    moved.(attempts := db.attempts[c.submissionId :=
                         before + [Attempt(attemptId, c.documentId, MaxAttempt(before) + 1, now)]],
           responses := db.responses[attemptId := Response(to, now)])
  }

  function Succeed(outbox: map<Id, OutboxRow>, o: Id, now: Time): map<Id, OutboxRow>
    requires o in outbox
  {
    outbox[o := outbox[o].(state := Succeeded, updatedAt := now)]
  }

  function PersistTx(db: Db, c: OutboxClaim, to: Status, attemptId: Id, now: Time): Tx<Report, OutboxError> {
    if c.id !in db.outbox then Rollback(NoSuchRow)
    else if db.outbox[c.id].state.Succeeded? then Commit(db, Report(c.submissionId, c.documentId, 0, to))
    else
      match Latest(Rows(db.ledger, c.documentId))
      case None => Rollback(NoLedger)
      case Some(s) =>
        if IsOutcome(s) then
          Commit(db.(outbox := Succeed(db.outbox, c.id, now)), Report(c.submissionId, c.documentId, 0, s))
        else if !s.SealedLocally? && !s.AuthorityProcessing? then Rollback(UnexpectedStatus(s))
        else if db.outbox[c.id].state.Dead? then Rollback(SucceedRows(0))
        else
          Commit(Answered(db, c, to, attemptId, now).(outbox := Succeed(db.outbox, c.id, now)),
                 Report(c.submissionId, c.documentId, MaxAttempt(Rows(db.attempts, c.submissionId)) + 1, to))
  }

  // ----- the invariant of a row -----

  ghost predicate Submitted(db: Db, row: OutboxRow, outcome: Status) {
    var attempts := Rows(db.attempts, row.submissionId);
    && IsOutcome(outcome)
    && |attempts| == 1
    && attempts[0].attemptNo == 1 && attempts[0].documentId == row.documentId
    && attempts[0].id in db.responses && db.responses[attempts[0].id].outcome == outcome
  }

  /**
   A row has succeeded exactly when its ledger ends in an authority outcome, exactly when one attempt, numbered 1, has
   a response carrying that outcome; until then there is no attempt at all. A cancelled row is dead.
   */
  ghost predicate RowInv(db: Db, o: Id)
    requires o in db.outbox
  {
    var row := db.outbox[o];
    var events := Rows(db.ledger, row.documentId);
    && Chain(events)
    && (if row.state.Succeeded? then Submitted(db, row, events[|events| - 1].toStatus)
        else !IsOutcome(events[|events| - 1].toStatus) && Rows(db.attempts, row.submissionId) == [])
    && (!row.state.Dead? ==> row.disposition.NoDisposition?)
    && (row.disposition.Cancelled? ==> row.state.Dead?)
  }

  ghost predicate AllRows(db: Db) {
    forall o :: o in db.outbox ==> RowInv(db, o)
  }

  /** A claim names the row it was taken from. */
  ghost predicate ClaimFits(db: Db, c: OutboxClaim) {
    && c.id in db.outbox
    && db.outbox[c.id].documentId == c.documentId && db.outbox[c.id].submissionId == c.submissionId
  }

  ghost predicate FreshAttempt(db: Db, attemptId: Id) {
    attemptId !in db.responses
  }

  /** Only the row o, its ledger, its attempts and unused responses differ. */
  ghost predicate OnlyTouches(before: Db, after: Db, o: Id) {
    && after.outbox.Keys == before.outbox.Keys && o in before.outbox
    && (forall p :: p in before.outbox && p != o ==> after.outbox[p] == before.outbox[p])
    && after.outbox[o].documentId == before.outbox[o].documentId
    && after.outbox[o].submissionId == before.outbox[o].submissionId
    && after.ledger.Keys == before.ledger.Keys
    && (forall d :: d != before.outbox[o].documentId ==> Rows(after.ledger, d) == Rows(before.ledger, d))
    && (forall s :: s != before.outbox[o].submissionId ==> Rows(after.attempts, s) == Rows(before.attempts, s))
    && (forall a :: a in before.responses ==> a in after.responses && after.responses[a] == before.responses[a])
  }

  /** What a step may do to one row: its ledger only grows, success freezes it, cancellation is for good. */
  ghost predicate RowStep(before: Db, after: Db, o: Id)
    requires o in before.outbox && o in after.outbox
  {
    var row := before.outbox[o];
    && Rows(before.ledger, row.documentId) <= Rows(after.ledger, row.documentId)
    && (row.state.Succeeded? ==>
          && after.outbox[o] == row
          && Rows(after.ledger, row.documentId) == Rows(before.ledger, row.documentId)
          && Rows(after.attempts, row.submissionId) == Rows(before.attempts, row.submissionId))
    && (row.disposition.Cancelled? ==> after.outbox[o].state.Dead? && after.outbox[o].disposition.Cancelled?)
  }

  ghost predicate AllRowsStep(before: Db, after: Db) {
    forall o :: o in before.outbox ==> o in after.outbox && RowStep(before, after, o)
  }

  lemma OneRowChanged(before: Db, after: Db, o: Id)
    requires AllRows(before) && Distinct(before.outbox) && OnlyTouches(before, after, o)
    requires RowInv(after, o) && RowStep(before, after, o)
    ensures AllRows(after) && AllRowsStep(before, after)
  {
    hide Chain;
    forall p | p in after.outbox
      ensures RowInv(after, p) && RowStep(before, after, p)
    {
      if p != o {
        assert RowInv(before, p);
      }
    }
  }

  lemma ClaimStepsRow(db: Db, now: Time, pick: Id, p: Id)
    requires p in db.outbox && RowInv(db, p)
    ensures var after := ClaimTx(db, now, pick).After(db);
            p in after.outbox && RowInv(after, p) && RowStep(db, after, p)
  {
    hide Chain;
    if First(ReclaimAll(db.outbox, now), pick, now) {
      assert pick in db.outbox;
    }
    hide First;
  }

  lemma ClaimKeepsRows(db: Db, now: Time, pick: Id)
    requires AllRows(db)
    ensures AllRows(ClaimTx(db, now, pick).After(db)) && AllRowsStep(db, ClaimTx(db, now, pick).After(db))
  {
    hide RowInv, RowStep, First;
    var after := ClaimTx(db, now, pick).After(db);
    assert after.outbox.Keys == db.outbox.Keys by { ClaimKeys(db, now, pick); }
    hide ClaimTx;
    forall p | p in after.outbox
      ensures p in db.outbox && RowInv(after, p) && RowStep(db, after, p)
    {
      ClaimStepsRow(db, now, pick, p);
    }
  }

  lemma ClaimKeys(db: Db, now: Time, pick: Id)
    ensures ClaimTx(db, now, pick).After(db).outbox.Keys == db.outbox.Keys
    ensures ClaimTx(db, now, pick).Commit? ==> ClaimFits(ClaimTx(db, now, pick).db, ClaimTx(db, now, pick).value)
  {
  }

  lemma MoveExtends(db: Db, d: Id, to: Status, now: Time)
    requires Chain(Rows(db.ledger, d)) && LegalMove(Latest(Rows(db.ledger, d)).value, to)
    ensures var before, after := Rows(db.ledger, d), Rows(Move(db, d, to, now).ledger, d);
            && before <= after && Chain(after) && after[|after| - 1].toStatus == to && Latest(after) == Some(to)
    ensures Move(db, d, to, now).ledger.Keys == db.ledger.Keys
  {
    var events := Rows(db.ledger, d);
    ChainTop(events);
    ChainExtends(events, to, now);
    ChainTop(Rows(Move(db, d, to, now).ledger, d));
  }

  lemma MoveFrame(db: Db, d: Id, to: Status, now: Time)
    requires d in db.ledger
    ensures var after := Move(db, d, to, now);
            && after == db.(ledger := after.ledger) && after.ledger.Keys == db.ledger.Keys
            && forall e :: e != d ==> Rows(after.ledger, e) == Rows(db.ledger, e)
  {
  }

  lemma LatestOfRow(db: Db, o: Id)
    requires o in db.outbox && RowInv(db, o)
    ensures var row := db.outbox[o];
            var events := Rows(db.ledger, row.documentId);
            && events != [] && Latest(events) == Some(events[|events| - 1].toStatus)
            && (row.state.Succeeded? <==> IsOutcome(Latest(events).value))
            && (!row.state.Succeeded? ==>
                  Latest(events).value.SealedLocally? || Latest(events).value.AuthorityProcessing?)
  {
    var events := Rows(db.ledger, db.outbox[o].documentId);
    ChainTop(events);
    ChainStatuses(events, |events| - 1);
  }

  /** One step on the row of a claim: it touches nothing else, and keeps that row's invariant. */
  ghost predicate StepsRow(before: Db, after: Db, o: Id) {
    OnlyTouches(before, after, o) && RowInv(after, o) && RowStep(before, after, o)
  }

  lemma RowStepped(before: Db, after: Db, o: Id)
    requires AllRows(before) && Distinct(before.outbox) && StepsRow(before, after, o)
    ensures AllRows(after) && AllRowsStep(before, after)
  {
    OneRowChanged(before, after, o);
  }

  lemma NothingChanged(db: Db, o: Id)
    requires o in db.outbox && RowInv(db, o)
    ensures StepsRow(db, db, o)
  {
    hide Chain;
  }

  /** Replacing one row, and extending its ledger, touches nothing else. */
  lemma RowReplaced(before: Db, after: Db, o: Id)
    requires o in before.outbox && o in after.outbox && after.outbox == before.outbox[o := after.outbox[o]]
    requires after.outbox[o].documentId == before.outbox[o].documentId
    requires after.outbox[o].submissionId == before.outbox[o].submissionId
    requires before.outbox[o].documentId in before.ledger && after.ledger.Keys == before.ledger.Keys
    requires forall d :: d != before.outbox[o].documentId ==> Rows(after.ledger, d) == Rows(before.ledger, d)
    requires forall s :: s != before.outbox[o].submissionId ==> Rows(after.attempts, s) == Rows(before.attempts, s)
    requires forall a :: a in before.responses ==> a in after.responses && after.responses[a] == before.responses[a]
    ensures OnlyTouches(before, after, o)
  {
  }

  /** A row whose ledger grows by legal moves short of an outcome, and whose state stays short of success. */
  lemma StillUnsubmitted(before: Db, after: Db, o: Id)
    requires o in before.outbox && o in after.outbox && RowInv(before, o) && !before.outbox[o].state.Succeeded?
    requires after.outbox[o].documentId == before.outbox[o].documentId
    requires after.outbox[o].submissionId == before.outbox[o].submissionId
    requires after.outbox[o].disposition == before.outbox[o].disposition && !after.outbox[o].state.Succeeded?
    requires after.outbox[o].state.Dead? <==> before.outbox[o].state.Dead?
    requires after.attempts == before.attempts
    requires var d := before.outbox[o].documentId;
             var old_, new_ := Rows(before.ledger, d), Rows(after.ledger, d);
             old_ <= new_ && Chain(new_) && !IsOutcome(new_[|new_| - 1].toStatus)
    ensures RowInv(after, o) && RowStep(before, after, o)
  {
    hide Chain;
  }

  /** A row that succeeds together with its outcome, its first attempt and the response to it. */
  lemma NowSubmitted(before: Db, after: Db, o: Id, to: Status, attemptId: Id)
    requires o in before.outbox && o in after.outbox && RowInv(before, o)
    requires before.outbox[o].state.Pending? || before.outbox[o].state.InFlight?
    requires after.outbox[o] == before.outbox[o].(state := Succeeded, updatedAt := after.outbox[o].updatedAt)
    requires var row := before.outbox[o];
             exists at :: Rows(after.attempts, row.submissionId) == [Attempt(attemptId, row.documentId, 1, at)]
    requires attemptId in after.responses && after.responses[attemptId].outcome == to && IsOutcome(to)
    requires var d := before.outbox[o].documentId;
             var old_, new_ := Rows(before.ledger, d), Rows(after.ledger, d);
             old_ <= new_ && Chain(new_) && new_[|new_| - 1].toStatus == to
    ensures RowInv(after, o) && RowStep(before, after, o)
  {
    hide Chain;
  }

  lemma MarkStepsRow(db: Db, c: OutboxClaim, now: Time)
    requires ClaimFits(db, c) && RowInv(db, c.id)
    ensures MarkTx(db, c, now).Commit? && StepsRow(db, MarkTx(db, c, now).db, c.id)
  {
    LatestOfRow(db, c.id);
    hide Latest, MaxSeq, Chain, RowInv, RowStep, OnlyTouches;
    if Latest(Rows(db.ledger, c.documentId)).value.SealedLocally? {
      MoveExtends(db, c.documentId, AuthorityProcessing, now) by { RowHasChain(db, c.id); }
      MoveFrame(db, c.documentId, AuthorityProcessing, now);
      hide Move;
      StillUnsubmitted(db, Move(db, c.documentId, AuthorityProcessing, now), c.id);
      RowReplaced(db, Move(db, c.documentId, AuthorityProcessing, now), c.id);
    } else {
      NothingChanged(db, c.id);
    }
  }

  lemma RowHasChain(db: Db, o: Id)
    requires o in db.outbox && RowInv(db, o)
    ensures Chain(Rows(db.ledger, db.outbox[o].documentId))
  {
  }

  lemma ReleaseStepsRow(db: Db, c: OutboxClaim, now: Time)
    requires ClaimFits(db, c) && RowInv(db, c.id)
    ensures ReleaseTx(db, c, now).Commit? && StepsRow(db, ReleaseTx(db, c, now).db, c.id)
  {
    LatestOfRow(db, c.id);
    RowHasChain(db, c.id);
    hide Latest, MaxSeq, Chain, RowInv, RowStep, OnlyTouches;
    var requeued := db.(outbox := Requeue(db.outbox, c.id, now));
    var after := ReleaseTx(db, c, now).db;
    if db.outbox[c.id].state.Succeeded? {
      NothingChanged(db, c.id);
    } else {
      if Latest(Rows(db.ledger, c.documentId)).value.AuthorityProcessing? {
        MoveExtends(requeued, c.documentId, SealedLocally, now);
        MoveFrame(requeued, c.documentId, SealedLocally, now);
      }
      hide Move;
      StillUnsubmitted(db, after, c.id);
      RowReplaced(db, after, c.id);
    }
  }

  lemma AnsweredLedger(db: Db, c: OutboxClaim, to: Status, attemptId: Id, now: Time)
    requires Chain(Rows(db.ledger, c.documentId)) && IsOutcome(to)
    requires var s := Latest(Rows(db.ledger, c.documentId)).value; s.SealedLocally? || s.AuthorityProcessing?
    ensures var before := Rows(db.ledger, c.documentId);
            var after := Rows(Answered(db, c, to, attemptId, now).ledger, c.documentId);
            before <= after && Chain(after) && after[|after| - 1].toStatus == to
    ensures Answered(db, c, to, attemptId, now).ledger.Keys == db.ledger.Keys
  {
    var d := c.documentId;
    if Latest(Rows(db.ledger, d)) == Some(SealedLocally) {
      MoveExtends(db, d, AuthorityProcessing, now);
      MoveExtends(Move(db, d, AuthorityProcessing, now), d, to, now);
    } else {
      MoveExtends(db, d, to, now);
    }
  }

  lemma AnsweredFrame(db: Db, c: OutboxClaim, to: Status, attemptId: Id, now: Time)
    requires c.documentId in db.ledger
    ensures var after := Answered(db, c, to, attemptId, now);
            && after == db.(ledger := after.ledger, attempts := after.attempts, responses := after.responses)
            && (forall d :: d != c.documentId ==> Rows(after.ledger, d) == Rows(db.ledger, d))
            && (forall s :: s != c.submissionId ==> Rows(after.attempts, s) == Rows(db.attempts, s))
            && after.responses == db.responses[attemptId := Response(to, now)]
    ensures Rows(db.attempts, c.submissionId) == [] ==>
              Rows(Answered(db, c, to, attemptId, now).attempts, c.submissionId) ==
              [Attempt(attemptId, c.documentId, 1, now)]
  {
    MoveFrame(db, c.documentId, AuthorityProcessing, now);
    MoveFrame(db, c.documentId, to, now);
    MoveFrame(Move(db, c.documentId, AuthorityProcessing, now), c.documentId, to, now);
    hide Move, Latest;
  }

  lemma PersistStepsRow(db: Db, c: OutboxClaim, to: Status, attemptId: Id, now: Time)
    requires ClaimFits(db, c) && RowInv(db, c.id) && IsOutcome(to) && FreshAttempt(db, attemptId)
    ensures StepsRow(db, PersistTx(db, c, to, attemptId, now).After(db), c.id)
  {
    PersistAnswer(db, c, to, attemptId, now);
    var row := db.outbox[c.id];
    if row.state.Succeeded? || row.state.Dead? {
      NothingChanged(db, c.id);
    } else {
      LatestOfRow(db, c.id);
      AnsweredStepsRow(db, c, to, attemptId, now);
    }
  }

  lemma NotEmpty(db: Db, d: Id)
    requires Chain(Rows(db.ledger, d))
    ensures d in db.ledger
  {
  }

  lemma AnsweredStepsRow(db: Db, c: OutboxClaim, to: Status, attemptId: Id, now: Time)
    requires ClaimFits(db, c) && RowInv(db, c.id) && IsOutcome(to) && FreshAttempt(db, attemptId)
    requires db.outbox[c.id].state.Pending? || db.outbox[c.id].state.InFlight?
    ensures StepsRow(db, Answered(db, c, to, attemptId, now).(outbox := Succeed(db.outbox, c.id, now)), c.id)
  {
    hide Chain, MaxSeq, Latest, Answered;
    RowHasChain(db, c.id);
    LatestOfRow(db, c.id);
    AnsweredLedger(db, c, to, attemptId, now);
    assert c.documentId in db.ledger by { NotEmpty(db, c.documentId); }
    AnsweredFrame(db, c, to, attemptId, now);
    assert Rows(db.attempts, c.submissionId) == [];
    var after := Answered(db, c, to, attemptId, now).(outbox := Succeed(db.outbox, c.id, now));
    hide RowInv, RowStep, OnlyTouches;
    NowSubmitted(db, after, c.id, to, attemptId);
    RowReplaced(db, after, c.id);
  }

  /**
   What persisting answers, in every state the invariant allows: an already succeeded row reports the worker's own
   outcome and changes nothing, a dead row refuses, and otherwise attempt 1 is recorded with the outcome. The branch
   that repairs an unfinished success never runs.
   */
  lemma PersistAnswer(db: Db, c: OutboxClaim, to: Status, attemptId: Id, now: Time)
    requires ClaimFits(db, c) && RowInv(db, c.id)
    ensures PersistTx(db, c, to, attemptId, now) ==
            match db.outbox[c.id].state
            case Succeeded => Commit(db, Report(c.submissionId, c.documentId, 0, to))
            case Dead => Rollback(SucceedRows(0))
            case _ => Commit(Answered(db, c, to, attemptId, now).(outbox := Succeed(db.outbox, c.id, now)),
                             Report(c.submissionId, c.documentId, 1, to))
  {
    LatestOfRow(db, c.id);
    hide Chain, Answered, Latest;
  }
}
