/**
 What a seal stores and answers, column by column (internal/persistence/seal_tx.go): the answer is what the document's
 row says, and a fresh seal writes exactly the rows spelled out here.
 */
module SealingEffects {
  import opened Prelude
  import opened Canonical
  import opened SealGate
  import opened Tables
  import opened Sealing

  /** The answer is the stored document's, with the submission of its only outbox row. */
  ghost predicate AnswersFor(db: Db, r: SealResult) {
    && r.documentId in db.documents
    && (var doc := db.documents[r.documentId];
        && r.fiscalSeq == doc.fiscalSeq && r.seriesCode == doc.seriesCode && r.scopeId == doc.scopeId
        && r.externalId == doc.externalId && r.createdAt == doc.createdAt)
    && (exists o :: o in db.outbox && db.outbox[o].documentId == r.documentId)
    && (forall o :: o in db.outbox && db.outbox[o].documentId == r.documentId ==>
          db.outbox[o].submissionId == r.submissionId)
  }

  lemma LoadedAnswers(db: Db, d: Id)
    requires OutboxInv(db) && d in db.documents
    ensures LoadCompleted(db, d).Some? && AnswersFor(db, LoadCompleted(db, d).value)
    ensures LoadCompleted(db, d).value.documentId == d && LoadCompleted(db, d).value.idempotentHit
  {
    var o :| RowFor(db, o, d);
    LoadFinds(db, d, o);
    hide LoadCompleted;
    forall p | p in db.outbox && db.outbox[p].documentId == d
      ensures p == o
    {
      assert RowFor(db, p, d);
    }
  }

  /** Every seal that commits, fresh or replayed, answers what is stored; a hit exactly when the key was recorded. */
  lemma SealAnswersWhatIsStored(db: Db, digest: string -> string, req: SealRequest, ids: SealIds, now: Time)
    requires SealInv(db, digest) && FreshIds(db, ids) && SealTx(db, req, HashOf(digest, req), ids, now).Commit?
    ensures var tx := SealTx(db, req, HashOf(digest, req), ids, now);
            AnswersFor(tx.db, tx.value) && (tx.value.idempotentHit <==> KeyOf(req) in db.idempotency)
  {
    hide SealInv, FreshIds, HashOf, Sealed, LoadCompleted, AnswersFor, OutboxInv, RecordsCompleted;
    SealInvParts(db, digest);
    if Resolve(db, req, HashOf(digest, req)).Replay? {
      ReplayAnswers(db, req, HashOf(digest, req), ids, now);
    } else {
      FreshAnswers(db, digest, req, ids, now);
    }
  }

  lemma ReplayAnswers(db: Db, req: SealRequest, hash: string, ids: SealIds, now: Time)
    requires OutboxInv(db) && RecordsCompleted(db) && Resolve(db, req, hash).Replay?
    ensures var tx := SealTx(db, req, hash, ids, now);
            tx.Commit? && tx.db == db && AnswersFor(db, tx.value) && tx.value.idempotentHit
  {
    hide LoadCompleted, OutboxInv, AnswersFor, Sealed;
    LoadedAnswers(db, Resolve(db, req, hash).documentId);
  }

  lemma FreshAnswers(db: Db, digest: string -> string, req: SealRequest, ids: SealIds, now: Time)
    requires SealInv(db, digest) && FreshIds(db, ids)
    requires Resolve(db, req, HashOf(digest, req)).Proceed? && SealTx(db, req, HashOf(digest, req), ids, now).Commit?
    ensures KeyOf(req) !in db.idempotency
    ensures var tx := SealTx(db, req, HashOf(digest, req), ids, now);
            AnswersFor(tx.db, tx.value) && !tx.value.idempotentHit
  {
    hide SealInv, OutboxInv, HashOf, StoredProjection, AnswersFor;
    SealInvParts(db, digest);
    ProceedMeansNewKey(db, req, HashOf(digest, req));
    hide RecordsCompleted, FreshIds;
    FreshSealDoes(db, digest, req, ids, now);
    hide SealTx;
    WrittenAnswers(db, SealTx(db, req, HashOf(digest, req), ids, now).db, req, HashOf(digest, req), ids, now,
                   SealTx(db, req, HashOf(digest, req), ids, now).value);
  }

  // ----- a fresh seal -----

  /** The empty text is stored as NULL, any other as itself. */
  predicate Kept(column: Option<string>, text: string) {
    if text == "" then column == None else column == Some(text)
  }

  /** A document with this number in the series of the request. */
  ghost predicate HasNumber(db: Db, req: SealRequest, d: Id, n: nat) {
    && d in db.documents && db.documents[d].scopeId == req.intent.scopeId
    && db.documents[d].seriesCode == req.seriesCode && db.documents[d].fiscalSeq == n
  }

  ghost predicate NumberTaken(db: Db, req: SealRequest, n: nat) {
    exists d :: HasNumber(db, req, d, n)
  }

  /** The rows a seal of this request writes, with the number it gives. */
  ghost predicate Written(before: Db, after: Db, req: SealRequest, hash: string, ids: SealIds, now: Time, n: nat) {
    var doc, d := req.intent, ids.documentId;
    && after.documents.Keys == before.documents.Keys + {d}
    && (var row := after.documents[d];
        && row == Document(doc.scopeId, doc.externalId, doc.documentType, doc.currency, doc.issuedAtUTC,
                           doc.issuedTimezone, doc.issuedOffsetMinutes, row.requestedSeries, req.seriesCode, n,
                           doc.sellerTaxId, doc.sellerName, row.customerTaxId, row.customerName, now)
        && Kept(row.requestedSeries, doc.requestedSeries)
        && Kept(row.customerTaxId, doc.customerTaxId) && Kept(row.customerName, doc.customerName))
    && (forall e :: e in before.documents && e != d ==> after.documents[e] == before.documents[e])
    && after.lines.Keys == before.lines.Keys + {d} && |after.lines[d]| == |doc.lines|
    && (forall i :: 0 <= i < |doc.lines| ==>
          var ln := doc.lines[i];
          after.lines[d][i] == LineRow(i + 1, ln.lineId, ln.description, ln.quantity, ln.unitPrice, ln.taxCode))
    && (forall e :: e in before.lines && e != d ==> after.lines[e] == before.lines[e])
    && after.ledger == before.ledger[d := [LedgerEvent(1, None, SealedLocally, now)]]
    && after.outbox == before.outbox[ids.outboxId :=
         OutboxRow(d, ids.submissionId, Pending, NoDisposition, now, now)]
    && after.idempotency == before.idempotency[IdemKey(doc.scopeId, req.idempotencyKey) :=
         IdemRecord(hash, Some(d), Completed)]
    && after.counters == before.counters[SeriesKey(doc.scopeId, req.seriesCode) := n]
    && after.attempts == before.attempts && after.responses == before.responses && after.actions == before.actions
  }

  /**
   A key without a record: the seal is refused for an external id in use or a quantity that is not positive, and
   otherwise writes its rows, pending and due at once, with the number after all those of the series; that number is the
   answer, with the request's own series, scope and external id.
   */
  lemma FreshSealDoes(db: Db, digest: string -> string, req: SealRequest, ids: SealIds, now: Time)
    requires SealInv(db, digest) && FreshIds(db, ids) && KeyOf(req) !in db.idempotency
    ensures var tx := SealTx(db, req, HashOf(digest, req), ids, now);
            if exists d :: d in db.documents && db.documents[d].scopeId == req.intent.scopeId
                           && db.documents[d].externalId == req.intent.externalId
            then tx == Rollback(ExternalIdConflict)
            else if exists i :: 0 <= i < |req.intent.lines| && req.intent.lines[i].quantity <= 0
            then tx == Rollback(LineRejected)
            else
              && tx.Commit?
              && tx.value == SealResult(ids.documentId, tx.value.fiscalSeq, req.seriesCode, req.intent.scopeId,
                                        req.intent.externalId, ids.submissionId, now, false)
              && !NumberTaken(db, req, tx.value.fiscalSeq)
              && (forall n: nat :: NumberTaken(db, req, n) <==> 1 <= n < tx.value.fiscalSeq)
              && Written(db, tx.db, req, HashOf(digest, req), ids, now, tx.value.fiscalSeq)
  {
    var hash := HashOf(digest, req);
    var n := LastSeq(db, SeriesOf(req)) + 1;
    hide HashOf, SealInv, FreshIds, LineRows, LoadCompleted;
    SealedIsWritten(db, req, hash, ids, now);
    hide Written, Sealed;
    NextNumber(db, digest, req);
    assert ExternalIdTaken(db, req.intent.scopeId, req.intent.externalId) <==>
      exists d :: d in db.documents && db.documents[d].scopeId == req.intent.scopeId
                  && db.documents[d].externalId == req.intent.externalId by { TakenMeans(db, req); }
  }

  lemma TakenMeans(db: Db, req: SealRequest)
    ensures ExternalIdTaken(db, req.intent.scopeId, req.intent.externalId) <==>
            exists d :: d in db.documents && db.documents[d].scopeId == req.intent.scopeId
                        && db.documents[d].externalId == req.intent.externalId
  {
    if d :| d in db.documents && db.documents[d].scopeId == req.intent.scopeId
            && db.documents[d].externalId == req.intent.externalId {
      assert Holds(db.documents[d], req.intent.scopeId, req.intent.externalId);
    }
  }

  lemma SealedIsWritten(db: Db, req: SealRequest, hash: string, ids: SealIds, now: Time)
    ensures Written(db, Sealed(db, req, hash, ids, now), req, hash, ids, now, LastSeq(db, SeriesOf(req)) + 1)
  {
  }

  lemma NextNumber(db: Db, digest: string -> string, req: SealRequest)
    requires SealInv(db, digest)
    ensures var next := LastSeq(db, SeriesOf(req)) + 1;
            && !NumberTaken(db, req, next)
            && forall n: nat :: NumberTaken(db, req, n) <==> 1 <= n < next
  {
    hide ExternalIdInv, IdempotencyInv, OutboxInv, StoredInv;
    forall n: nat
      ensures NumberTaken(db, req, n) <==> NumberUsed(db, SeriesOf(req), n)
    {
      SameNumbers(db, req, n);
    }
    hide NumberUsed, NumberTaken, Numbered;
  }

  lemma SameNumbers(db: Db, req: SealRequest, n: nat)
    ensures NumberTaken(db, req, n) <==> NumberUsed(db, SeriesOf(req), n)
  {
    if d :| HasNumber(db, req, d, n) {
      assert Numbered(db, d, SeriesOf(req), n);
    }
    if d :| Numbered(db, d, SeriesOf(req), n) {
      assert HasNumber(db, req, d, n);
    }
  }

  lemma WrittenAnswers(db: Db, after: Db, req: SealRequest, hash: string, ids: SealIds, now: Time, r: SealResult)
    requires FreshIds(db, ids) && Written(db, after, req, hash, ids, now, r.fiscalSeq)
    requires r == SealResult(ids.documentId, r.fiscalSeq, req.seriesCode, req.intent.scopeId,
                             req.intent.externalId, ids.submissionId, now, false)
    ensures AnswersFor(after, r)
  {
    assert ids.outboxId in after.outbox && after.outbox[ids.outboxId].documentId == r.documentId;
  }
}
