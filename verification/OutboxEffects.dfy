/**
 What the worker's transactions do to the rows they touch, column by column: the outbox row, the ledger, the attempt and
 the response after a claim, a mark, a release and a persist (internal/persistence/outbox.go).
 */
module OutboxEffects {
  import opened Prelude
  import opened Tables
  import opened Outbox

  // ----- claim -----

  /** Waiting and due, or in flight and left alone for 30 s. */
  predicate Due(row: OutboxRow, now: Time) {
    || (row.state == Pending && row.availableAt <= now)
    || (row.state == InFlight && row.updatedAt <= now - 30_000_000)
  }

  /** When a row comes up in the queue of a claim: one taken back from a worker comes up at once. */
  function ComesUp(row: OutboxRow, now: Time): Time {
    if row.state == InFlight then now else row.availableAt
  }

  /** A claim fails exactly when no row is due. */
  lemma ClaimFindsTheDue(db: Db, now: Time)
    ensures (exists pick :: ClaimTx(db, now, pick).Commit?) <==> exists o :: o in db.outbox && Due(db.outbox[o], now)
  {
    if o :| o in db.outbox && Due(db.outbox[o], now) {
      assert Claimable(ReclaimAll(db.outbox, now), o, now);
      var pick := FirstExists(ReclaimAll(db.outbox, now), o, now);
      assert ClaimTx(db, now, pick).Commit?;
    }
    if pick :| ClaimTx(db, now, pick).Commit? {
      assert pick in db.outbox && Due(db.outbox[pick], now);
    }
  }

  /**
   A claim takes a due row that comes up no later than any other due one, hands out its names, and marks it in flight
   now. Every other row that was in flight for 30 s is pending and due now; nothing else changes.
   */
  lemma ClaimTakes(db: Db, now: Time, pick: Id)
    requires ClaimTx(db, now, pick).Commit?
    ensures pick in db.outbox && Due(db.outbox[pick], now)
    ensures forall p :: p in db.outbox && Due(db.outbox[p], now) ==>
                          ComesUp(db.outbox[pick], now) <= ComesUp(db.outbox[p], now)
    ensures var after, claim := ClaimTx(db, now, pick).db, ClaimTx(db, now, pick).value;
            var row := db.outbox[pick];
            && claim.id == pick && claim.documentId == row.documentId && claim.submissionId == row.submissionId
            && after == db.(outbox := after.outbox) && after.outbox.Keys == db.outbox.Keys
            && after.outbox[pick] == OutboxRow(row.documentId, row.submissionId, InFlight, row.disposition,
                                               ComesUp(row, now), now)
            && forall p :: p in db.outbox && p != pick ==>
                 var other := db.outbox[p];
                 after.outbox[p] ==
                 if other.state == InFlight && other.updatedAt <= now - 30_000_000
                 then OutboxRow(other.documentId, other.submissionId, Pending, other.disposition, now, now)
                 else other
  {
    var rows := ReclaimAll(db.outbox, now);
    assert Claimable(rows, pick, now);
    assert rows[pick].availableAt == ComesUp(db.outbox[pick], now);
    forall p | p in db.outbox && Due(db.outbox[p], now)
      ensures ComesUp(db.outbox[pick], now) <= ComesUp(db.outbox[p], now)
    {
      assert Claimable(rows, p, now) && rows[p].availableAt == ComesUp(db.outbox[p], now);
    }
  }

  // ----- the ledger of a row -----

  /** The ledger of a document after one more event, numbered next, from where it stood. */
  ghost predicate OneEventMore(before: Db, after: Db, d: Id, from: Status, to: Status, now: Time) {
    var events := Rows(before.ledger, d);
    Rows(after.ledger, d) == events + [LedgerEvent(|events| + 1, Some(from), to, now)]
  }

  ghost predicate StandsAt(db: Db, d: Id, status: Status) {
    var events := Rows(db.ledger, d);
    events != [] && events[|events| - 1].toStatus == status
  }

  lemma MoveIsOneEvent(db: Db, d: Id, from: Status, to: Status, now: Time)
    requires Chain(Rows(db.ledger, d)) && StandsAt(db, d, from)
    ensures OneEventMore(db, Move(db, d, to, now), d, from, to, now)
    ensures StandsAt(Move(db, d, to, now), d, to)
  {
    ChainTop(Rows(db.ledger, d));
  }

  /** What a claimed row's ledger stands at, and what a query for its latest status answers. */
  lemma ClaimedRow(db: Db, c: OutboxClaim)
    requires ClaimFits(db, c) && RowInv(db, c.id)
    ensures Chain(Rows(db.ledger, c.documentId)) && c.documentId in db.ledger
    ensures var events := Rows(db.ledger, c.documentId);
            && Latest(events) == Some(events[|events| - 1].toStatus)
            && (db.outbox[c.id].state == Succeeded <==> IsOutcome(events[|events| - 1].toStatus))
            && (db.outbox[c.id].state != Succeeded ==>
                  StandsAt(db, c.documentId, SealedLocally) || StandsAt(db, c.documentId, AuthorityProcessing))
  {
    LatestOfRow(db, c.id);
    hide Latest;
  }

  /** Marking: a ledger that stands at sealed gets the processing event; nothing else changes. */
  lemma MarkDoes(db: Db, c: OutboxClaim, now: Time)
    requires ClaimFits(db, c) && RowInv(db, c.id)
    ensures MarkTx(db, c, now).Commit?
    ensures var after := MarkTx(db, c, now).db;
            && after == db.(ledger := after.ledger)
            && (if StandsAt(db, c.documentId, SealedLocally)
                then OneEventMore(db, after, c.documentId, SealedLocally, AuthorityProcessing, now)
                else after.ledger == db.ledger)
  {
    ClaimedRow(db, c);
    hide RowInv, Latest, Chain;
    if StandsAt(db, c.documentId, SealedLocally) {
      MoveIsOneEvent(db, c.documentId, SealedLocally, AuthorityProcessing, now);
      MoveFrame(db, c.documentId, AuthorityProcessing, now);
    }
    hide Move;
  }

  /** A row in flight goes back to the queue, due five seconds on; the ledger goes back to sealed. */
  ghost predicate Requeued(before: Db, after: Db, c: OutboxClaim, now: Time) {
    && c.id in before.outbox && after.outbox.Keys == before.outbox.Keys
    && after.outbox[c.id].state == Pending && after.outbox[c.id].availableAt == now + 5_000_000
    && after.outbox[c.id].updatedAt == now
    && after.outbox[c.id].documentId == c.documentId && after.outbox[c.id].submissionId == c.submissionId
    && after.outbox[c.id].disposition == before.outbox[c.id].disposition
    && StandsAt(after, c.documentId, SealedLocally)
  }

  /** What a release leaves alone, and what becomes of the ledger: one that waits for the authority goes back. */
  ghost predicate OnlyReleased(before: Db, after: Db, c: OutboxClaim, now: Time) {
    && after == before.(outbox := after.outbox, ledger := after.ledger) && after.outbox.Keys == before.outbox.Keys
    && (forall p :: p in before.outbox && p != c.id ==> after.outbox[p] == before.outbox[p])
    && (forall d :: d != c.documentId ==> Rows(after.ledger, d) == Rows(before.ledger, d))
    && (if StandsAt(before, c.documentId, AuthorityProcessing)
        then OneEventMore(before, after, c.documentId, AuthorityProcessing, SealedLocally, now)
        else Rows(after.ledger, c.documentId) == Rows(before.ledger, c.documentId))
  }

  /**
   Releasing: a row in flight is pending again, due exactly five seconds on, with its ledger back at sealed; any other
   row stays as it is. Neither touches another row, another ledger, an attempt or a response.
   */
  lemma ReleaseDoes(db: Db, c: OutboxClaim, now: Time)
    requires ClaimFits(db, c) && RowInv(db, c.id)
    ensures ReleaseTx(db, c, now).Commit?
    ensures var after := ReleaseTx(db, c, now).db;
            && OnlyReleased(db, after, c, now)
            && (if db.outbox[c.id].state == InFlight then Requeued(db, after, c, now) else after.outbox == db.outbox)
  {
    ClaimedRow(db, c);
    hide RowInv, Latest, Chain, Move, OnlyReleased, Requeued, StandsAt;
    RequeueDoes(db, c, now);
    if StandsAt(db, c.documentId, AuthorityProcessing) {
      ReleaseMoves(db, c, now);
    } else {
      assert ReleaseTx(db, c, now) == Commit(db.(outbox := Requeue(db.outbox, c.id, now)), ()) by {
        NotProcessing(db, c);
      }
    }
  }

  lemma NotProcessing(db: Db, c: OutboxClaim)
    requires Rows(db.ledger, c.documentId) != [] && !StandsAt(db, c.documentId, AuthorityProcessing)
    ensures Rows(db.ledger, c.documentId)[|Rows(db.ledger, c.documentId)| - 1].toStatus != AuthorityProcessing
  {
  }

  /** The update of the row alone. */
  lemma RequeueDoes(db: Db, c: OutboxClaim, now: Time)
    requires ClaimFits(db, c)
    ensures var after := db.(outbox := Requeue(db.outbox, c.id, now));
            && (!StandsAt(db, c.documentId, AuthorityProcessing) ==> OnlyReleased(db, after, c, now))
            && (if db.outbox[c.id].state == InFlight
                then StandsAt(db, c.documentId, SealedLocally) ==> Requeued(db, after, c, now)
                else after.outbox == db.outbox)
  {
  }

  /** And with the ledger moved back. */
  lemma ReleaseMoves(db: Db, c: OutboxClaim, now: Time)
    requires ClaimFits(db, c) && Chain(Rows(db.ledger, c.documentId)) && c.documentId in db.ledger
    requires StandsAt(db, c.documentId, AuthorityProcessing)
    requires Latest(Rows(db.ledger, c.documentId)) == Some(AuthorityProcessing)
    ensures ReleaseTx(db, c, now).Commit?
    ensures var after := ReleaseTx(db, c, now).db;
            && OnlyReleased(db, after, c, now)
            && (if db.outbox[c.id].state == InFlight then Requeued(db, after, c, now) else after.outbox == db.outbox)
  {
    hide Latest, Chain;
    var requeued := db.(outbox := Requeue(db.outbox, c.id, now));
    MoveIsOneEvent(requeued, c.documentId, AuthorityProcessing, SealedLocally, now);
    MoveFrame(requeued, c.documentId, SealedLocally, now);
    hide Move;
  }

  lemma ReleasedRow(before: Db, after: Db, c: OutboxClaim, now: Time, later: Time)
    requires Requeued(before, after, c, now)
    ensures Claimable(ReclaimAll(after.outbox, later), c.id, later) <==> later >= now + 5_000_000
  {
  }

  // ----- persist -----

  /** The row succeeded now, with attempt 1 sent now and the response received now; the ledger ends in the outcome. */
  ghost predicate Persisted(before: Db, after: Db, c: OutboxClaim, to: Status, attemptId: Id, now: Time)
    requires c.id in before.outbox
  {
    var row := before.outbox[c.id];
    var events := Rows(before.ledger, c.documentId);
    && after.outbox == before.outbox[c.id := OutboxRow(c.documentId, c.submissionId, Succeeded, row.disposition,
                                                      row.availableAt, now)]
    && Rows(after.attempts, c.submissionId) == [Attempt(attemptId, c.documentId, 1, now)]
    && after.responses == before.responses[attemptId := Response(to, now)]
    && Rows(after.ledger, c.documentId) ==
       if StandsAt(before, c.documentId, SealedLocally)
       then events + [LedgerEvent(|events| + 1, Some(SealedLocally), AuthorityProcessing, now),
                      LedgerEvent(|events| + 2, Some(AuthorityProcessing), to, now)]
       else events + [LedgerEvent(|events| + 1, Some(AuthorityProcessing), to, now)]
  }

  /**
   Persisting an outcome: a row still waiting or in flight succeeds, with the events, the attempt and the response
   spelled out; a dead row refuses and a succeeded one changes nothing. What is reported is the attempt and the outcome.
   */
  lemma PersistDoes(db: Db, c: OutboxClaim, to: Status, attemptId: Id, now: Time)
    requires ClaimFits(db, c) && RowInv(db, c.id) && IsOutcome(to)
    ensures var tx := PersistTx(db, c, to, attemptId, now);
            match db.outbox[c.id].state
            case Succeeded =>
              tx.Commit? && tx.db == db && tx.value == Report(c.submissionId, c.documentId, 0, to)
            case Dead => tx.Rollback?
            case _ =>
              && tx.Commit? && Persisted(db, tx.db, c, to, attemptId, now)
              && tx.value == Report(c.submissionId, c.documentId, 1, to)
  {
    ClaimedRow(db, c);
    hide Latest, Chain, PersistTx, Answered, MaxSeq;
    PersistAnswer(db, c, to, attemptId, now);
    if db.outbox[c.id].state == Pending || db.outbox[c.id].state == InFlight {
      assert Rows(db.attempts, c.submissionId) == [];
      hide RowInv;
      AnsweredFrame(db, c, to, attemptId, now);
      AnsweredEvents(db, c, to, attemptId, now);
    }
  }

  /**
   A ledger that has its outcome while the row has not succeeded - which no run leaves behind - is made good: the row
   succeeds, the outcome of the ledger is what is reported, without an attempt, and nothing else changes.
   */
  lemma PersistRepairs(db: Db, c: OutboxClaim, to: Status, attemptId: Id, now: Time)
    requires c.id in db.outbox && db.outbox[c.id].state != Succeeded && Chain(Rows(db.ledger, c.documentId))
    requires var events := Rows(db.ledger, c.documentId); IsOutcome(events[|events| - 1].toStatus)
    ensures var tx, events, row := PersistTx(db, c, to, attemptId, now), Rows(db.ledger, c.documentId), db.outbox[c.id];
            && tx.Commit?
            && tx.value == Report(c.submissionId, c.documentId, 0, events[|events| - 1].toStatus)
            && tx.db == db.(outbox := db.outbox[c.id := OutboxRow(row.documentId, row.submissionId, Succeeded,
                                                                  row.disposition, row.availableAt, now)])
  {
    ChainTop(Rows(db.ledger, c.documentId));
    hide Chain, Latest;
  }

  lemma AnsweredEvents(db: Db, c: OutboxClaim, to: Status, attemptId: Id, now: Time)
    requires Chain(Rows(db.ledger, c.documentId))
    requires StandsAt(db, c.documentId, SealedLocally) || StandsAt(db, c.documentId, AuthorityProcessing)
    requires Latest(Rows(db.ledger, c.documentId)) ==
             Some(Rows(db.ledger, c.documentId)[|Rows(db.ledger, c.documentId)| - 1].toStatus)
    ensures var events := Rows(db.ledger, c.documentId);
            Rows(Answered(db, c, to, attemptId, now).ledger, c.documentId) ==
            if StandsAt(db, c.documentId, SealedLocally)
            then events + [LedgerEvent(|events| + 1, Some(SealedLocally), AuthorityProcessing, now),
                           LedgerEvent(|events| + 2, Some(AuthorityProcessing), to, now)]
            else events + [LedgerEvent(|events| + 1, Some(AuthorityProcessing), to, now)]
  {
    hide Latest, MaxSeq, Chain;
    var d := c.documentId;
    if StandsAt(db, d, SealedLocally) {
      var sent := Move(db, d, AuthorityProcessing, now);
      MoveIsOneEvent(db, d, SealedLocally, AuthorityProcessing, now);
      MoveExtends(db, d, AuthorityProcessing, now);
      MoveIsOneEvent(sent, d, AuthorityProcessing, to, now);
      hide Move;
    } else {
      MoveIsOneEvent(db, d, AuthorityProcessing, to, now);
      hide Move;
    }
  }

  /** In short, for a row that was waiting or in flight. */
  lemma PersistedEnds(before: Db, after: Db, c: OutboxClaim, to: Status, attemptId: Id, now: Time)
    ensures c.id in before.outbox && Persisted(before, after, c, to, attemptId, now) ==>
              && c.id in after.outbox && after.outbox[c.id].state == Succeeded && after.outbox[c.id].updatedAt == now
              && Rows(after.attempts, c.submissionId) == [Attempt(attemptId, c.documentId, 1, now)]
              && attemptId in after.responses && after.responses[attemptId] == Response(to, now)
              && StandsAt(after, c.documentId, to)
  {
    if c.id in before.outbox && Persisted(before, after, c, to, attemptId, now) {
      var events, more := Rows(before.ledger, c.documentId), Rows(after.ledger, c.documentId);
      hide StandsAt, Rows;
      assert more != [] && more[|more| - 1].toStatus == to;
      EndsAt(after, c.documentId, to);
    }
  }

  lemma EndsAt(db: Db, d: Id, status: Status)
    requires Rows(db.ledger, d) != [] && Rows(db.ledger, d)[|Rows(db.ledger, d)| - 1].toStatus == status
    ensures StandsAt(db, d, status)
  {
  }

  lemma RequeuedEnds(before: Db, after: Db, c: OutboxClaim, now: Time)
    ensures Requeued(before, after, c, now) ==>
              && c.id in after.outbox && after.outbox[c.id].state == Pending
              && after.outbox[c.id].availableAt == now + 5_000_000 && after.outbox[c.id].updatedAt == now
              && StandsAt(after, c.documentId, SealedLocally)
  {
  }
}
