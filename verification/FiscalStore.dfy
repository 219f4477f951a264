/**
 The store itself, statement by statement: each method runs one transaction over tables it updates in place, and
 restores them when it fails. Its contract is the transaction it is to the rest of the model, and the invariant.
 */
module FiscalStore {
  import opened Prelude
  import opened Canonical
  import opened Tables
  import opened StoreTables
  import opened SealGate
  import opened Sealing
  import opened Outbox
  import opened OutboxEffects
  import opened Operator
  import opened OperatorEffects
  import opened SealingEffects
  import opened Protocol
  import opened ProtocolSafety
  import FiscalTime

  class Store {
    const db: Database
    const calendar: FiscalTime.Calendar
    const digest: string -> string

    ghost predicate Valid()
      reads db
    {
      DbInv(db.Snapshot(), digest)
    }

    constructor (calendar: FiscalTime.Calendar, digest: string -> string)
      ensures Valid() && fresh(db) && db.Snapshot() == EMPTY_DB
    {
      this.calendar, this.digest := calendar, digest;
      db := new Database();
      new;
      EmptySealInv(digest);
    }

    /** The join behind a replay. */
    method LoadCompletedResult(d: Id) returns (r: Option<SealResult>)
      requires Distinct(db.outbox)
      ensures r == LoadCompleted(db.Snapshot(), d)
    {
      if d in db.documents && exists o :: o in db.outbox && db.outbox[o].documentId == d {
        var o :| o in db.outbox && db.outbox[o].documentId == d;
        r := Some(ResultOf(db.documents[d], d, db.outbox[o].submissionId, true));
      } else {
        r := None;
      }
    }

    /** Insert-or-ignore of the in-progress record, then a look at what is there. */
    method ResolveIdempotency(req: SealRequest, hash: string) returns (r: Result<Option<SealResult>, SealError>)
      requires Distinct(db.outbox)
      modifies db
      ensures var before := old(db.Snapshot());
              match Resolve(before, req, hash)
              case Proceed =>
                && r == Ok(None)
                && (KeyOf(req) !in before.idempotency ==>
                      db.Snapshot() ==
                      before.(idempotency := before.idempotency[KeyOf(req) := IdemRecord(hash, None, InProgress)]))
              case Refuse(e) => r == Err(e)
              case Replay(d) =>
                && db.Snapshot() == before
                && r == (match LoadCompleted(before, d) case None => Err(LoadFailed) case Some(v) => Ok(Some(v)))
    {
      var key := KeyOf(req);
      if key !in db.idempotency {
        db.idempotency := db.idempotency[key := IdemRecord(hash, None, InProgress)];
      }
      var rec := db.idempotency[key];
      match rec.state {
        case Completed =>
          if rec.requestHash != hash {
            return Err(IdempotencyConflict);
          }
          if rec.documentId.None? {
            return Err(CompletedWithoutDocument);
          }
          var loaded := LoadCompletedResult(rec.documentId.value);
          r := if loaded.None? then Err(LoadFailed) else Ok(Some(loaded.value));
        case InProgress =>
          if rec.requestHash != hash {
            return Err(IdempotencyConflict);
          }
          r := Ok(None);
      }
    }

    method NextFiscalSeq(series: SeriesKey) returns (next: nat)
      modifies db`counters
      ensures next == LastSeq(old(db.Snapshot()), series) + 1
      ensures db.counters == old(db.counters)[series := next]
    {
      if series !in db.counters {
        db.counters := db.counters[series := 0];
      }
      next := db.counters[series] + 1;
      db.counters := db.counters[series := next];
    }

    method InsertDocument(d: Id, req: SealRequest, fiscalSeq: nat, now: Time)
      modifies db`documents
      ensures db.documents == old(db.documents)[d := DocumentOf(req, fiscalSeq, now)]
    {
      var doc := req.intent;
      db.documents := db.documents[d := Document(
        doc.scopeId, doc.externalId, doc.documentType, doc.currency, doc.issuedAtUTC, doc.issuedTimezone,
        doc.issuedOffsetMinutes, NullIfEmpty(doc.requestedSeries), req.seriesCode, fiscalSeq, doc.sellerTaxId,
        doc.sellerName, NullIfEmpty(doc.customerTaxId), NullIfEmpty(doc.customerName), now)];
    }

    /** One INSERT a line; the table refuses a quantity that is not positive. */
    method InsertLines(d: Id, lines: seq<Line>) returns (accepted: bool)
      requires d !in db.lines
      modifies db`lines
      ensures accepted == LinesAccepted(lines)
      ensures accepted ==> db.lines == old(db.lines)[d := LineRows(lines)]
    {
      db.lines := db.lines[d := []];
      for i := 0 to |lines|
        invariant forall k :: 0 <= k < i ==> lines[k].quantity > 0
        invariant db.lines == old(db.lines)[d := LineRows(lines)[..i]]
      {
        var ln := lines[i];
        if ln.quantity <= 0 {
          return false;
        }
        var row := LineRow(i + 1, ln.lineId, ln.description, ln.quantity, ln.unitPrice, ln.taxCode);
        db.lines := db.lines[d := db.lines[d] + [row]];
        assert LineRows(lines)[..i + 1] == LineRows(lines)[..i] + [LineRowOf(ln, i)];
      }
      assert LineRows(lines)[..|lines|] == LineRows(lines);
      return true;
    }

    method Answer(d: Id, req: SealRequest, fiscalSeq: nat, submissionId: Id, now: Time)
      returns (r: Result<SealResult, SealError>)
      ensures r == Ok(ResultOf(DocumentOf(req, fiscalSeq, now), d, submissionId, false))
    {
      r := Ok(SealResult(d, fiscalSeq, req.seriesCode, req.intent.scopeId, req.intent.externalId, submissionId, now,
                         false));
    }

    method WriteDocument(req: SealRequest, d: Id, now: Time) returns (accepted: bool, fiscalSeq: nat)
      requires d !in db.lines
      modifies db`counters, db`documents, db`lines
      ensures accepted == LinesAccepted(req.intent.lines)
      ensures fiscalSeq == LastSeq(old(db.Snapshot()), SeriesOf(req)) + 1
      ensures db.counters == old(db.counters)[SeriesOf(req) := fiscalSeq]
      ensures db.documents == old(db.documents)[d := DocumentOf(req, fiscalSeq, now)]
      ensures accepted ==> db.lines == old(db.lines)[d := LineRows(req.intent.lines)]
    {
      hide LineRows, LinesAccepted, DocumentOf;
      fiscalSeq := NextFiscalSeq(SeriesOf(req));
      InsertDocument(d, req, fiscalSeq, now);
      accepted := InsertLines(d, req.intent.lines);
    }

    method ExternalIdLookup(scopeId: string, externalId: string, ghost before: Db) returns (taken: bool)
      requires db.documents == before.documents
      ensures taken == ExternalIdTaken(before, scopeId, externalId)
    {
      taken := exists d :: d in db.documents && Holds(db.documents[d], scopeId, externalId);
    }

    /** Number, document, lines, first ledger event, outbox row; then the idempotency record is completed. */
    method SealAnew(req: SealRequest, hash: string, ids: SealIds, now: Time, ghost before: Db)
      returns (r: Result<SealResult, SealError>)
      requires db.Snapshot() ==
               before.(idempotency := before.idempotency[KeyOf(req) := IdemRecord(hash, None, InProgress)])
      requires ids.documentId !in before.lines && ids.documentId !in before.ledger
      modifies db
      ensures r ==
        if !LinesAccepted(req.intent.lines) then Err(LineRejected)
        else Ok(ResultOf(DocumentOf(req, LastSeq(before, SeriesOf(req)) + 1, now), ids.documentId, ids.submissionId,
                         false))
      ensures r.Ok? ==> db.Snapshot() == Sealed(before, req, hash, ids, now)
    {
      hide LineRows, LinesAccepted, DocumentOf, ResultOf, Sealed, KeyOf, SeriesOf;
      var accepted, fiscalSeq := WriteDocument(req, ids.documentId, now);
      if !accepted {
        return Err(LineRejected);
      }
      Enqueue(ids, KeyOf(req), hash, now, before.idempotency);
      FieldByField(before, db.Snapshot(), req, hash, ids, now);
      r := Answer(ids.documentId, req, fiscalSeq, ids.submissionId, now);
    }

    lemma FieldByField(before: Db, after: Db, req: SealRequest, hash: string, ids: SealIds, now: Time)
      requires after.idempotency == before.idempotency[KeyOf(req) := IdemRecord(hash, Some(ids.documentId), Completed)]
      requires var n := LastSeq(before, SeriesOf(req)) + 1;
               after.counters == before.counters[SeriesOf(req) := n] &&
               after.documents == before.documents[ids.documentId := DocumentOf(req, n, now)]
      requires after.lines == before.lines[ids.documentId := LineRows(req.intent.lines)]
      requires after.ledger == before.ledger[ids.documentId := [LedgerEvent(1, None, SealedLocally, now)]]
      requires after.outbox ==
               before.outbox[ids.outboxId :=
                 OutboxRow(ids.documentId, ids.submissionId, Pending, NoDisposition, now, now)]
      requires after.attempts == before.attempts && after.responses == before.responses
      requires after.actions == before.actions
      ensures after == Sealed(before, req, hash, ids, now)
    {
    }

    method Enqueue(ids: SealIds, key: IdemKey, hash: string, now: Time, ghost records: map<IdemKey, IdemRecord>)
      requires ids.documentId !in db.ledger
      requires db.idempotency == records[key := IdemRecord(hash, None, InProgress)]
      modifies db`ledger, db`outbox, db`idempotency
      ensures db.ledger == old(db.ledger)[ids.documentId := [LedgerEvent(1, None, SealedLocally, now)]]
      ensures db.outbox == old(db.outbox)[ids.outboxId :=
                OutboxRow(ids.documentId, ids.submissionId, Pending, NoDisposition, now, now)]
      ensures db.idempotency == records[key := IdemRecord(hash, Some(ids.documentId), Completed)]
    {
      var d := ids.documentId;
      var event := LedgerEvent(1, None, SealedLocally, now);
      assert Rows(db.ledger, d) + [event] == [event];
      db.InsertEvent(d, event);
      db.outbox := db.outbox[ids.outboxId := OutboxRow(d, ids.submissionId, Pending, NoDisposition, now, now)];
      db.idempotency := db.idempotency[key := db.idempotency[key].(documentId := Some(d), state := Completed)];
    }

    /** The body of the sealing transaction; on an error the caller rolls back. */
    method SealInQuerier(req: SealRequest, hash: string, ids: SealIds, now: Time)
      returns (r: Result<SealResult, SealError>)
      requires Valid() && FreshIds(db.Snapshot(), ids)
      modifies db
      ensures r == SealTx(old(db.Snapshot()), req, hash, ids, now).Answer()
      ensures r.Ok? ==> db.Snapshot() == SealTx(old(db.Snapshot()), req, hash, ids, now).db
    {
      hide Valid, FreshIds, LoadCompleted, Distinct, RecordsCompleted, LinesAccepted, Sealed, DocumentOf,
           ExternalIdTaken;
      ghost var before := db.Snapshot();
      ValidParts();
      var hit := ResolveIdempotency(req, hash);
      if hit.Err? {
        return Err(hit.error);
      }
      if hit.value.Some? {
        return Ok(hit.value.value);
      }
      ProceedMeansNewKey(before, req, hash);
      FreshIsFresh(before, ids);
      var taken := ExternalIdLookup(req.intent.scopeId, req.intent.externalId, before);
      if taken {
        return Err(ExternalIdConflict);
      }
      r := SealAnew(req, hash, ids, now, before);
    }

    lemma ValidParts()
      requires Valid()
      ensures Distinct(db.outbox) && RecordsCompleted(db.Snapshot())
    {
      hide NumberingInv, ExternalIdInv, StoredInv, AllRows;
    }

    lemma FreshIsFresh(before: Db, ids: SealIds)
      requires FreshIds(before, ids)
      ensures ids.documentId !in before.lines && ids.documentId !in before.ledger
    {
    }

    /** SealInTx: gate, hash, one transaction. A seal that fails changes nothing. */
    method SealInTx(req: SealRequest, ids: SealIds, now: Time) returns (r: Result<SealResult, SealError>)
      requires Valid() && FreshIds(db.Snapshot(), ids)
      modifies db
      ensures Valid()
      ensures var tx := SealCall(World(calendar, digest), old(db.Snapshot()), req, ids, now);
              r == tx.Answer() && db.Snapshot() == tx.After(old(db.Snapshot()))
      ensures r.Err? ==> db.Snapshot() == old(db.Snapshot())
      ensures r.Ok? ==> AnswersFor(db.Snapshot(), r.value)
    {
      hide DbInv, FreshIds, Prepared, SealTx, AnswersFor;
      var gate := PrepareSealRequest(calendar, req);
      if gate.Err? {
        return Err(Invalid(gate.error));
      }
      var ready := gate.value;
      var text := Materialize(VERSION_V2, ProjectionOf(ready), true);
      var hash := digest(text);
      var saved := db.Snapshot();
      SealGood(saved, digest, ready, ids, now);
      if SealTx(saved, ready, HashOf(digest, ready), ids, now).Commit? {
        SealAnswersWhatIsStored(saved, digest, ready, ids, now) by { DbInvParts(saved, digest); }
      }
      r := SealInQuerier(ready, hash, ids, now);
      if r.Err? {
        db.Rollback(saved);
      }
    }

    // ----- the outbox worker -----

    /** Reclaims stale rows, then takes a first due one. */
    method ClaimOutbox(now: Time) returns (r: Result<OutboxClaim, OutboxError>)
      requires Valid()
      modifies db
      ensures Valid()
      ensures match r
              case Ok(c) =>
                && ClaimFits(db.Snapshot(), c)
                && ClaimTx(old(db.Snapshot()), now, c.id) == Commit(db.Snapshot(), c)
              case Err(_) =>
                && db.Snapshot() == old(db.Snapshot())
                && forall pick :: ClaimTx(old(db.Snapshot()), now, pick) == Tx.Rollback(OutboxEmpty)
    {
      hide DbInv, First;
      var saved := db.Snapshot();
      db.outbox := ReclaimAll(db.outbox, now);
      if exists o :: o in db.outbox && First(db.outbox, o, now) {
        var o :| o in db.outbox && First(db.outbox, o, now);
        var claim := OutboxClaim(o, db.outbox[o].documentId, db.outbox[o].submissionId);
        db.outbox := db.outbox[o := db.outbox[o].(state := InFlight, updatedAt := now)];
        ClaimGood(saved, digest, now, o);
        return Ok(claim);
      }
      FirstIsARow(db.outbox, now);
      db.Rollback(saved);
      r := Err(OutboxEmpty);
    }

    lemma FirstIsARow(outbox: map<Id, OutboxRow>, now: Time)
      ensures forall o :: First(outbox, o, now) ==> o in outbox
    {
    }

    /** Records that the submission is on its way, before it is sent. */
    method MarkAuthorityProcessing(c: OutboxClaim, now: Time) returns (r: Result<(), OutboxError>)
      requires Valid() && ClaimFits(db.Snapshot(), c)
      modifies db
      ensures Valid() && ClaimFits(db.Snapshot(), c)
      ensures r == MarkTx(old(db.Snapshot()), c, now).Answer()
      ensures db.Snapshot() == MarkTx(old(db.Snapshot()), c, now).After(old(db.Snapshot()))
    {
      hide DbInv, Latest, MaxSeq;
      MarkGood(db.Snapshot(), digest, c, now);
      var latest := Latest(Rows(db.ledger, c.documentId));
      match latest {
        case None => return Err(NoLedger);
        case Some(s) =>
          if s.AuthorityProcessing? || IsOutcome(s) {
            return Ok(());
          }
          if !s.SealedLocally? {
            return Err(UnexpectedStatus(s));
          }
      }
      var nextSeq := MaxSeq(Rows(db.ledger, c.documentId)) + 1;
      db.InsertEvent(c.documentId, LedgerEvent(nextSeq, Some(SealedLocally), AuthorityProcessing, now));
      r := Ok(());
    }

    /** Back to the queue after an unavailable authority, and the ledger back to sealed. */
    method ReleaseOutboxUnavailable(c: OutboxClaim, now: Time) returns (r: Result<(), OutboxError>)
      requires Valid() && ClaimFits(db.Snapshot(), c)
      modifies db
      ensures Valid() && ClaimFits(db.Snapshot(), c)
      ensures r == ReleaseTx(old(db.Snapshot()), c, now).Answer()
      ensures db.Snapshot() == ReleaseTx(old(db.Snapshot()), c, now).After(old(db.Snapshot()))
      ensures r.Ok? ==>
                if old(db.outbox)[c.id].state == InFlight then Requeued(old(db.Snapshot()), db.Snapshot(), c, now)
                        else db.outbox == old(db.outbox)
    {
      hide DbInv, Latest, MaxSeq, RowInv, Requeued, OnlyReleased;
      var saved := db.Snapshot();
      ReleaseGood(saved, digest, c, now);
      if c.id in db.outbox && db.outbox[c.id].state.InFlight? {
        db.outbox := db.outbox[c.id :=
          db.outbox[c.id].(state := Pending, availableAt := now + UNAVAILABLE_BACKOFF, updatedAt := now)];
      }
      var latest := Latest(Rows(db.ledger, c.documentId));
      if latest.None? {
        db.Rollback(saved);
        return Err(NoLedger);
      }
      RowHasInv(saved, digest, c.id);
      if !latest.value.AuthorityProcessing? {
        ReleaseDoes(saved, c, now);
        return Ok(());
      }
      var nextSeq := MaxSeq(Rows(db.ledger, c.documentId)) + 1;
      db.InsertEvent(c.documentId, LedgerEvent(nextSeq, Some(AuthorityProcessing), SealedLocally, now));
      ReleaseDoes(saved, c, now);
      r := Ok(());
    }

    /** Ledger events of an answer: the missing processing event first, then the outcome. */
    method RecordOutcome(d: Id, latest: Status, to: Status, now: Time, ghost before: Db)
      requires before.ledger == db.ledger && Latest(Rows(db.ledger, d)) == Some(latest)
      modifies db`ledger
      ensures var sent := if latest.SealedLocally? then Move(before, d, AuthorityProcessing, now) else before;
              db.ledger == Move(sent, d, to, now).ledger
    {
      var nextSeq := MaxSeq(Rows(db.ledger, d)) + 1;
      var fromStatus := latest;
      if latest.SealedLocally? {
        db.InsertEvent(d, LedgerEvent(nextSeq, Some(SealedLocally), AuthorityProcessing, now));
        AppendedTop(Rows(before.ledger, d), LedgerEvent(nextSeq, Some(SealedLocally), AuthorityProcessing, now));
        fromStatus := AuthorityProcessing;
        nextSeq := nextSeq + 1;
      }
      hide MaxSeq, Latest;
      db.InsertEvent(d, LedgerEvent(nextSeq, Some(fromStatus), to, now));
    }

    method InsertAttempt(c: OutboxClaim, to: Status, attemptId: Id, now: Time) returns (attemptNo: nat)
      modifies db`attempts, db`responses
      ensures var before := Rows(old(db.attempts), c.submissionId);
              && attemptNo == MaxAttempt(before) + 1
              && db.attempts ==
                 old(db.attempts)[c.submissionId := before + [Attempt(attemptId, c.documentId, attemptNo, now)]]
      ensures db.responses == old(db.responses)[attemptId := Response(to, now)]
    {
      attemptNo := MaxAttempt(Rows(db.attempts, c.submissionId)) + 1;
      db.attempts := db.attempts[c.submissionId :=
        Rows(db.attempts, c.submissionId) + [Attempt(attemptId, c.documentId, attemptNo, now)]];
      db.responses := db.responses[attemptId := Response(to, now)];
    }

    /** Ledger, attempt, response; then the row, which must still be waiting for the answer. */
    method SubmitAnswer(c: OutboxClaim, latest: Status, to: Status, attemptId: Id, now: Time)
      returns (r: Result<Report, OutboxError>)
      requires c.id in db.outbox && !db.outbox[c.id].state.Succeeded?
      requires Latest(Rows(db.ledger, c.documentId)) == Some(latest)
      modifies db
      ensures r == if old(db.outbox)[c.id].state.Dead? then Err(SucceedRows(0))
                   else Ok(Report(c.submissionId, c.documentId, MaxAttempt(Rows(old(db.attempts), c.submissionId)) + 1,
                                  to))
      ensures r.Ok? ==>
                db.Snapshot() ==
                Answered(old(db.Snapshot()), c, to, attemptId, now).(outbox := Succeed(old(db.outbox), c.id, now))
    {
      hide Latest, MaxSeq, MaxAttempt, Rows;
      ghost var before := db.Snapshot();
      RecordOutcome(c.documentId, latest, to, now, before);
      var attemptNo := InsertAttempt(c, to, attemptId, now);
      if !db.outbox[c.id].state.InFlight? && !db.outbox[c.id].state.Pending? {
        return Err(SucceedRows(0));
      }
      db.outbox := db.outbox[c.id := db.outbox[c.id].(state := Succeeded, updatedAt := now)];
      r := Ok(Report(c.submissionId, c.documentId, attemptNo, to));
    }

    /** Records the authority's answer once. */
    method PersistAuthoritySuccess(c: OutboxClaim, to: Status, attemptId: Id, now: Time)
      returns (r: Result<Report, OutboxError>)
      requires Valid() && ClaimFits(db.Snapshot(), c) && IsOutcome(to) && FreshAttempt(db.Snapshot(), attemptId)
      modifies db
      ensures Valid() && ClaimFits(db.Snapshot(), c)
      ensures r == PersistTx(old(db.Snapshot()), c, to, attemptId, now).Answer()
      ensures db.Snapshot() == PersistTx(old(db.Snapshot()), c, to, attemptId, now).After(old(db.Snapshot()))
    {
      hide DbInv, Latest, MaxSeq, MaxAttempt, Move, FreshAttempt;
      var saved := db.Snapshot();
      PersistGood(saved, digest, c, to, attemptId, now);
      if c.id !in db.outbox {
        return Err(NoSuchRow);
      }
      if db.outbox[c.id].state.Succeeded? {
        return Ok(Report(c.submissionId, c.documentId, 0, to));
      }
      var latest := Latest(Rows(db.ledger, c.documentId));
      if latest.None? {
        return Err(NoLedger);
      }
      if IsOutcome(latest.value) {
        db.outbox := db.outbox[c.id := db.outbox[c.id].(state := Succeeded, updatedAt := now)];
        return Ok(Report(c.submissionId, c.documentId, 0, latest.value));
      }
      if !latest.value.SealedLocally? && !latest.value.AuthorityProcessing? {
        return Err(UnexpectedStatus(latest.value));
      }
      r := SubmitAnswer(c, latest.value, to, attemptId, now);
      if r.Err? {
        db.Rollback(saved);
      }
    }

    /** The row succeeded with its one attempt, the ledger ends in the outcome, and that is what is reported. */
    ghost predicate Finished(c: OutboxClaim, to: Status, attemptId: Id, at: Time,
                             r: Result<Option<Report>, OutboxError>)
      reads db
    {
      && c.id in db.outbox && db.outbox[c.id].state == Succeeded && db.outbox[c.id].updatedAt == at
      && Rows(db.attempts, c.submissionId) == [Attempt(attemptId, c.documentId, 1, at)]
      && attemptId in db.responses && db.responses[attemptId] == Response(to, at)
      && StandsAt(db.Snapshot(), c.documentId, to)
      && r == Ok(Some(Report(c.submissionId, c.documentId, 1, to)))
    }

    /**
     A worker left undisturbed after its claim: mark, submit, then release or persist. Each step is a transaction of
     its own; other parties may run between them only in the protocol, where the same three appear as separate events.
     */
    method FinishOutbox(c: OutboxClaim, reply: Reply, attemptId: Id, markedAt: Time, answeredAt: Time)
      returns (r: Result<Option<Report>, OutboxError>)
      requires Valid() && ClaimFits(db.Snapshot(), c) && FreshAttempt(db.Snapshot(), attemptId)
      modifies db
      ensures Valid()
      ensures var marked := MarkTx(old(db.Snapshot()), c, markedAt).After(old(db.Snapshot()));
              match AfterReply(c, reply)
              case Answering(_, to) =>
                var tx := PersistTx(marked, c, to, attemptId, answeredAt);
                && db.Snapshot() == tx.After(marked)
                && r == (match tx.Answer() case Ok(report) => Ok(Some(report)) case Err(e) => Err(e))
              case _ =>
                && db.Snapshot() == ReleaseTx(marked, c, answeredAt).After(marked)
                && r == if reply.Unavailable? then Ok(None) else Err(SubmissionFailed)
      ensures old(db.outbox)[c.id].state == InFlight ==>
                && c.id in db.outbox
                && match reply
                   case Outcome(Accept) => Finished(c, AuthorityAccepted, attemptId, answeredAt, r)
                   case Outcome(Reject) => Finished(c, AuthorityRejected, attemptId, answeredAt, r)
                   case Outcome(Unknown) => Finished(c, AuthorityOutcomeUnknown, attemptId, answeredAt, r)
                   case _ =>
                     && db.outbox[c.id].state == Pending && db.outbox[c.id].availableAt == answeredAt + 5_000_000
                     && db.outbox[c.id].updatedAt == answeredAt
                     && StandsAt(db.Snapshot(), c.documentId, SealedLocally)
                     && Rows(db.attempts, c.submissionId) == Rows(old(db.attempts), c.submissionId)
                     && r == if reply == Unavailable then Ok(None) else Err(SubmissionFailed)
    {
      hide DbInv, Latest, MaxSeq, MarkTx, ReleaseTx, PersistTx, RowInv, Requeued, StandsAt, Persisted;
      MarkCommits(c, markedAt);
      RowHasInv(db.Snapshot(), digest, c.id);
      MarkDoes(db.Snapshot(), c, markedAt);
      var marked := MarkAuthorityProcessing(c, markedAt);
      RowHasInv(db.Snapshot(), digest, c.id);
      if reply.Outcome? && LedgerStatus(reply.outcome).Some? {
        var to := LedgerStatus(reply.outcome).value;
        PersistDoes(db.Snapshot(), c, to, attemptId, answeredAt);
        PersistedEnds(db.Snapshot(), PersistTx(db.Snapshot(), c, to, attemptId, answeredAt).After(db.Snapshot()), c, to,
                      attemptId, answeredAt);
        var report := PersistAuthoritySuccess(c, LedgerStatus(reply.outcome).value, attemptId, answeredAt);
        return if report.Ok? then Ok(Some(report.value)) else Err(report.error);
      }
      ReleaseCommits(c, answeredAt);
      ReleaseDoes(db.Snapshot(), c, answeredAt);
      RequeuedEnds(db.Snapshot(), ReleaseTx(db.Snapshot(), c, answeredAt).db, c, answeredAt);
      var released := ReleaseOutboxUnavailable(c, answeredAt);
      r := if reply.Unavailable? then Ok(None) else Err(SubmissionFailed);
    }

    /** On a committed database neither marking nor releasing a claimed row can fail; marking draws no attempt. */
    lemma MarkCommits(c: OutboxClaim, now: Time)
      requires Valid() && ClaimFits(db.Snapshot(), c)
      ensures MarkTx(db.Snapshot(), c, now).Commit?
      ensures MarkTx(db.Snapshot(), c, now).db.responses == db.responses
    {
      hide DbInv, RowInv, StepsRow, Latest, MaxSeq;
      RowHasInv(db.Snapshot(), digest, c.id);
      MarkStepsRow(db.Snapshot(), c, now);
    }

    lemma ReleaseCommits(c: OutboxClaim, now: Time)
      requires Valid() && ClaimFits(db.Snapshot(), c)
      ensures ReleaseTx(db.Snapshot(), c, now).Commit?
    {
      hide DbInv, RowInv, StepsRow, Latest, MaxSeq;
      RowHasInv(db.Snapshot(), digest, c.id);
      ReleaseStepsRow(db.Snapshot(), c, now);
    }
  }

  /** The operator's side of the same tables (internal/adminops/actions.go). */
  class OpsStore {
    const db: Database

    constructor (db: Database)
      ensures this.db == db
    {
      this.db := db;
    }

    method GetOutboxRow(submissionId: Id) returns (r: Option<Id>)
      requires Distinct(db.outbox)
      ensures r == RowOf(db.Snapshot(), submissionId)
    {
      if exists o :: o in db.outbox && db.outbox[o].submissionId == submissionId {
        var o :| o in db.outbox && db.outbox[o].submissionId == submissionId;
        RowOfUnique(db.Snapshot(), o);
        return Some(o);
      }
      assert forall o :: !HasSubmission(db.Snapshot(), o, submissionId);
      r := None;
    }

    method LookupIdempotency(input: ActionInput) returns (r: Lookup)
      requires Distinct(db.outbox)
      ensures r == LookupKey(db.Snapshot(), input)
    {
      if input.key !in db.actions {
        return Unused;
      }
      var prev := db.actions[input.key];
      if prev.action != input.action || prev.submissionId != input.submissionId {
        return Found(Err(KeyConflict));
      }
      var o := GetOutboxRow(input.submissionId);
      if o.None? {
        return Found(Err(NotFound));
      }
      var row := db.outbox[o.value];
      r := Found(Ok(ActionResult(input.submissionId, prev.resultStatus, row.state, row.disposition, true,
                                 row.updatedAt)));
    }

    /** UPDATE of the row and INSERT of the key; a key already there undoes the update. */
    method Commit(input: ActionInput) returns (r: Result<ActionResult, OpsError>)
      requires Distinct(db.outbox)
      modifies db
      ensures r == ActTx(old(db.Snapshot()), input).Answer()
      ensures db.Snapshot() == ActTx(old(db.Snapshot()), input).After(old(db.Snapshot()))
    {
      hide Distinct;
      var saved := db.Snapshot();
      var o := GetOutboxRow(input.submissionId);
      if o.None? {
        return Err(NotFound);
      }
      var row := db.outbox[o.value];
      if row.updatedAt != input.expectedUpdatedAt {
        return Err(StaleVersion);
      }
      if Terminal(row, input.action) {
        return Err(TerminalState);
      }
      var newState, newDisposition := NewState(input.action), NewDisposition(input.action);
      var available := if newState.Pending? then input.stamp else row.availableAt;
      db.outbox := db.outbox[o.value :=
        row.(state := newState, disposition := newDisposition, availableAt := available, updatedAt := input.stamp)];
      if input.key in db.actions {
        db.Rollback(saved);
        return Err(KeyRace);
      }
      var queueStatus := ResultStatus(input.action);
      db.actions := db.actions[input.key := ActionRecord(input.action, input.submissionId, queueStatus)];
      r := Ok(ActionResult(input.submissionId, queueStatus, newState, newDisposition, false, input.stamp));
    }

    /** The checks, then lookup and transaction, with nobody in between. A call that does not commit changes nothing. */
    method ApplyQueueAction(req: ActionRequest, idOf: string -> Id, now: Time, ghost digest: string -> string)
      returns (r: Result<ActionResult, OpsError>)
      requires DbInv(db.Snapshot(), digest)
      modifies db
      ensures DbInv(db.Snapshot(), digest)
      ensures var before := old(db.Snapshot());
              match Admitted(req, idOf, now)
              case Err(e) => r == Err(e) && db.Snapshot() == before
              case Ok(input) =>
                match LookupKey(before, input)
                case Found(answer) => r == answer && db.Snapshot() == before
                case Unused =>
                  r == ActTx(before, input).Answer() && db.Snapshot() == ActTx(before, input).After(before)
      ensures r.Err? ==> db.Snapshot() == old(db.Snapshot())
      ensures r.Ok? && !r.value.idempotentReplay ==>
                exists o :: Effected(old(db.Snapshot()), db.Snapshot(), o, req, idOf, now, r.value)
    {
      hide DbInv, LookupKey, ActTx, Distinct, Admitted, Effected;
      QueueIsDistinct(db.Snapshot(), digest);
      var admitted := Admitted(req, idOf, now);
      if admitted.Err? {
        return Err(admitted.error);
      }
      var input := admitted.value;
      ActGood(db.Snapshot(), digest, input);
      var found := LookupIdempotency(input);
      match found {
        case Found(answer) =>
          ReplaysSaySo(db.Snapshot(), input);
          r := answer;
        case Unused =>
          if ActTx(db.Snapshot(), input).Commit? {
            CommittedActionDoes(db.Snapshot(), req, idOf, now);
          }
          r := Commit(input);
      }
    }

    lemma ReplaysSaySo(before: Db, input: ActionInput)
      ensures LookupKey(before, input).Found? && LookupKey(before, input).result.Ok? ==>
                LookupKey(before, input).result.value.idempotentReplay
    {
    }

    lemma QueueIsDistinct(before: Db, digest: string -> string)
      requires DbInv(before, digest)
      ensures Distinct(before.outbox)
    {
      hide NumberingInv, ExternalIdInv, IdempotencyInv, StoredInv, AllRows;
    }
  }
}
