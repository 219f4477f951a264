/**
 The sealing transaction (internal/persistence/seal_tx.go): idempotency, numbering, document, lines, ledger and
 outbox in one step, and what every committed database keeps about them.
 */
module Sealing {
  import opened Prelude
  import opened Canonical
  import opened SealGate
  import opened Tables
  import Money
  import Quantity

  datatype SealError =
    | IdempotencyConflict | ExternalIdConflict | CompletedWithoutDocument | LoadFailed | LineRejected
    | Invalid(problem: ValidationError)

  datatype SealResult = SealResult(documentId: Id, fiscalSeq: nat, seriesCode: string, scopeId: string,
                                   externalId: string, submissionId: Id, createdAt: Time, idempotentHit: bool)

  /** The random names one seal draws. */
  datatype SealIds = SealIds(documentId: Id, outboxId: Id, submissionId: Id)

  ghost predicate FreshIds(db: Db, ids: SealIds) {
    && ids.documentId !in db.documents && ids.documentId !in db.lines && ids.documentId !in db.ledger
    && ids.outboxId !in db.outbox
    && ids.submissionId !in db.attempts
    && (forall o :: o in db.outbox ==>
          db.outbox[o].documentId != ids.documentId && db.outbox[o].submissionId != ids.submissionId)
  }

  function NullIfEmpty(s: string): Option<string> {
    if s == "" then None else Some(s)
  }

  function OrEmpty(s: Option<string>): string {
    match s
    case None => ""
    case Some(v) => v
  }

  function KeyOf(req: SealRequest): IdemKey {
    IdemKey(req.intent.scopeId, req.idempotencyKey)
  }

  function SeriesOf(req: SealRequest): SeriesKey {
    SeriesKey(req.intent.scopeId, req.seriesCode)
  }

  predicate Holds(doc: Document, scopeId: string, externalId: string) {
    doc.scopeId == scopeId && doc.externalId == externalId
  }

  predicate ExternalIdTaken(db: Db, scopeId: string, externalId: string) {
    exists d :: d in db.documents && Holds(db.documents[d], scopeId, externalId)
  }

  /** The table constraint quantity_scaled > 0, over the lines a request brings. */
  predicate LinesAccepted(lines: seq<Line>) {
    forall i :: 0 <= i < |lines| ==> lines[i].quantity > 0
  }

  function LineRowOf(ln: Line, i: nat): LineRow {
    LineRow(i + 1, ln.lineId, ln.description, ln.quantity, ln.unitPrice, ln.taxCode)
  }

  function LineRows(lines: seq<Line>): (rows: seq<LineRow>)
    ensures |rows| == |lines| && forall i :: 0 <= i < |rows| ==> rows[i] == LineRowOf(lines[i], i)
  {
    seq(|lines|, i requires 0 <= i < |lines| => LineRowOf(lines[i], i))
  }

  function LastSeq(db: Db, series: SeriesKey): nat {
    if series in db.counters then db.counters[series] else 0
  }

  function DocumentOf(req: SealRequest, fiscalSeq: nat, now: Time): Document {
    var doc := req.intent;
    Document(doc.scopeId, doc.externalId, doc.documentType, doc.currency, doc.issuedAtUTC, doc.issuedTimezone,
             doc.issuedOffsetMinutes, NullIfEmpty(doc.requestedSeries), req.seriesCode, fiscalSeq,
             doc.sellerTaxId, doc.sellerName, NullIfEmpty(doc.customerTaxId), NullIfEmpty(doc.customerName), now)
  }

  /** The projection the stored document and its lines stand for. */
  function StoredProjection(doc: Document, rows: seq<LineRow>): Projection {
    Projection(doc.seriesCode, DocumentIntent(
      doc.scopeId, doc.externalId, doc.documentType, doc.currency, doc.issuedAt, doc.issuedTimezone,
      doc.issuedOffsetMinutes, OrEmpty(doc.requestedSeries), doc.sellerTaxId, doc.sellerName,
      OrEmpty(doc.customerTaxId), OrEmpty(doc.customerName),
      seq(|rows|, i requires 0 <= i < |rows| =>
        Line(rows[i].lineId, rows[i].description, rows[i].quantityScaled, rows[i].unitPriceCents, rows[i].taxCode))))
  }

  /** The join of documents and outbox_messages that a replay reads. */
  ghost function LoadCompleted(db: Db, d: Id): Option<SealResult> {
    if d in db.documents && exists o :: o in db.outbox && db.outbox[o].documentId == d then
      var o :| o in db.outbox && db.outbox[o].documentId == d;
      Some(ResultOf(db.documents[d], d, db.outbox[o].submissionId, true))
    else None
  }

  function ResultOf(doc: Document, d: Id, submissionId: Id, hit: bool): SealResult {
    SealResult(d, doc.fiscalSeq, doc.seriesCode, doc.scopeId, doc.externalId, submissionId, doc.createdAt, hit)
  }

  datatype Resolution = Proceed | Replay(documentId: Id) | Refuse(error: SealError)

  /** What the idempotency record decides. */
  function Resolve(db: Db, req: SealRequest, hash: string): Resolution {
    var key := KeyOf(req);
    if key !in db.idempotency then Proceed
    else
      var rec := db.idempotency[key];
      if rec.requestHash != hash then Refuse(IdempotencyConflict)
      else if rec.state.InProgress? then Proceed
      else if rec.documentId.None? then Refuse(CompletedWithoutDocument)
      else Replay(rec.documentId.value)
  }

  /** The database with the request sealed into it. */
  function Sealed(db: Db, req: SealRequest, hash: string, ids: SealIds, now: Time): Db {
    var n := LastSeq(db, SeriesOf(req)) + 1;
    Db(db.idempotency[KeyOf(req) := IdemRecord(hash, Some(ids.documentId), Completed)],
       db.counters[SeriesOf(req) := n],
       db.documents[ids.documentId := DocumentOf(req, n, now)],
       db.lines[ids.documentId := LineRows(req.intent.lines)],
       db.ledger[ids.documentId := [LedgerEvent(1, None, SealedLocally, now)]],
       db.outbox[ids.outboxId := OutboxRow(ids.documentId, ids.submissionId, Pending, NoDisposition, now, now)],
       db.attempts, db.responses, db.actions)
  }

  ghost function SealTx(db: Db, req: SealRequest, hash: string, ids: SealIds, now: Time): Tx<SealResult, SealError> {
    match Resolve(db, req, hash)
    case Refuse(e) => Rollback(e)
    case Replay(d) =>
      (match LoadCompleted(db, d)
       case None => Rollback(LoadFailed)
       case Some(r) => Commit(db, r))
    case Proceed =>
      if ExternalIdTaken(db, req.intent.scopeId, req.intent.externalId) then Rollback(ExternalIdConflict)
      else if !LinesAccepted(req.intent.lines) then Rollback(LineRejected)
      else
        var n := LastSeq(db, SeriesOf(req)) + 1;
        Commit(Sealed(db, req, hash, ids, now),
               ResultOf(DocumentOf(req, n, now), ids.documentId, ids.submissionId, false))
  }

  // ----- what every committed database keeps -----

  ghost predicate Numbered(db: Db, d: Id, series: SeriesKey, n: nat) {
    d in db.documents && SeriesKey(db.documents[d].scopeId, db.documents[d].seriesCode) == series &&
    db.documents[d].fiscalSeq == n
  }

  ghost predicate NumberUsed(db: Db, series: SeriesKey, n: nat) {
    exists d :: Numbered(db, d, series, n)
  }

  /** Per scope and series the numbers in use are exactly 1..last_seq, once each. */
  ghost predicate NumberingInv(db: Db) {
    && (forall d, e, series, n: nat :: Numbered(db, d, series, n) && Numbered(db, e, series, n) ==> d == e)
    && (forall series, n: nat :: NumberUsed(db, series, n) <==> 1 <= n <= LastSeq(db, series))
  }

  ghost predicate ExternalIdInv(db: Db) {
    forall d, e ::
      (d in db.documents && e in db.documents &&
       Holds(db.documents[d], db.documents[e].scopeId, db.documents[e].externalId)) ==> d == e
  }

  ghost predicate RecordFor(db: Db, key: IdemKey, d: Id) {
    key in db.idempotency && db.idempotency[key].documentId == Some(d)
  }

  ghost predicate RecordsCompleted(db: Db) {
    forall key :: key in db.idempotency ==>
      && db.idempotency[key].state.Completed? && db.idempotency[key].documentId.Some?
      && db.idempotency[key].documentId.value in db.documents
      && key.scopeId == db.documents[db.idempotency[key].documentId.value].scopeId
  }

  ghost predicate EveryDocumentRecorded(db: Db) {
    forall d :: d in db.documents ==> exists key :: RecordFor(db, key, d)
  }

  ghost predicate OneRecordPerDocument(db: Db) {
    forall key1, key2, d :: RecordFor(db, key1, d) && RecordFor(db, key2, d) ==> key1 == key2
  }

  /** Every idempotency record is completed; records and documents correspond one to one. */
  ghost predicate IdempotencyInv(db: Db) {
    RecordsCompleted(db) && EveryDocumentRecorded(db) && OneRecordPerDocument(db)
  }

  ghost predicate RowFor(db: Db, o: Id, d: Id) {
    o in db.outbox && db.outbox[o].documentId == d
  }

  ghost predicate RowsPointBack(db: Db) {
    forall o :: o in db.outbox ==> db.outbox[o].documentId in db.documents
  }

  ghost predicate EveryDocumentQueued(db: Db) {
    forall d :: d in db.documents ==> exists o :: RowFor(db, o, d)
  }

  /** Each document has exactly one outbox row, and rows share neither document nor submission. */
  ghost predicate OutboxInv(db: Db) {
    RowsPointBack(db) && EveryDocumentQueued(db) && Distinct(db.outbox)
  }

  /** Documents, lines and ledgers go together, and the recorded hash is that of what is stored. */
  ghost predicate StoredInv(db: Db, digest: string -> string) {
    && db.lines.Keys == db.documents.Keys && db.ledger.Keys == db.documents.Keys
    && (forall key, d :: RecordFor(db, key, d) && d in db.documents && d in db.lines ==>
          db.idempotency[key].requestHash == digest(MaterializeV2(StoredProjection(db.documents[d], db.lines[d]))))
  }

  ghost predicate SealInv(db: Db, digest: string -> string) {
    NumberingInv(db) && ExternalIdInv(db) && IdempotencyInv(db) && OutboxInv(db) && StoredInv(db, digest)
  }

  lemma EmptySealInv(digest: string -> string)
    ensures SealInv(EMPTY_DB, digest)
  {
  }

  /** What is stored for a request stands for exactly its projection. */
  lemma StoredRoundTrip(req: SealRequest, n: nat, now: Time)
    ensures StoredProjection(DocumentOf(req, n, now), LineRows(req.intent.lines)) == ProjectionOf(req)
  {
  }

  function HashOf(digest: string -> string, req: SealRequest): string {
    digest(MaterializeV2(ProjectionOf(req)))
  }

  lemma SealedNumbering(db: Db, req: SealRequest, hash: string, ids: SealIds, now: Time)
    requires NumberingInv(db) && FreshIds(db, ids)
    ensures NumberingInv(Sealed(db, req, hash, ids, now))
  {
    hide LineRows;
    var after := Sealed(db, req, hash, ids, now);
    var mine := SeriesOf(req);
    var next := LastSeq(db, mine) + 1;
    forall d, series, n: nat
      ensures Numbered(after, d, series, n) <==>
              if d == ids.documentId then series == mine && n == next else Numbered(db, d, series, n)
    {
    }
    forall series, n: nat
      ensures NumberUsed(after, series, n) <==> 1 <= n <= LastSeq(after, series)
    {
      if series == mine && n == next {
        assert Numbered(after, ids.documentId, series, n);
      } else if NumberUsed(db, series, n) {
        var d :| Numbered(db, d, series, n);
        assert Numbered(after, d, series, n);
      }
    }
    forall d, e, series, n: nat | Numbered(after, d, series, n) && Numbered(after, e, series, n)
      ensures d == e
    {
      assert Numbered(db, d, series, n) ==> NumberUsed(db, series, n);
      assert Numbered(db, e, series, n) ==> NumberUsed(db, series, n);
    }
  }

  lemma SealedRecord(db: Db, req: SealRequest, hash: string, ids: SealIds, now: Time, key: IdemKey, d: Id)
    ensures RecordFor(Sealed(db, req, hash, ids, now), key, d) <==>
            if key == KeyOf(req) then d == ids.documentId else RecordFor(db, key, d)
  {
  }

  lemma SealedIdempotency(db: Db, req: SealRequest, hash: string, ids: SealIds, now: Time)
    requires IdempotencyInv(db) && FreshIds(db, ids) && KeyOf(req) !in db.idempotency
    ensures IdempotencyInv(Sealed(db, req, hash, ids, now))
  {
    hide RecordsCompleted, Sealed, FreshIds;
    var after := Sealed(db, req, hash, ids, now);
    SealedRecordsCompleted(db, req, hash, ids, now);
    forall d | d in after.documents
      ensures exists key :: RecordFor(after, key, d)
    {
      SealedDocuments(db, req, hash, ids, now);
      if d == ids.documentId {
        SealedRecord(db, req, hash, ids, now, KeyOf(req), d);
      } else {
        var key :| RecordFor(db, key, d);
        SealedRecord(db, req, hash, ids, now, key, d);
      }
    }
    forall key1, key2, d | RecordFor(after, key1, d) && RecordFor(after, key2, d)
      ensures key1 == key2
    {
      SealedRecord(db, req, hash, ids, now, key1, d);
      SealedRecord(db, req, hash, ids, now, key2, d);
      NewDocumentUnrecorded(db, ids, key1);
      NewDocumentUnrecorded(db, ids, key2);
    }
  }

  lemma SealedDocuments(db: Db, req: SealRequest, hash: string, ids: SealIds, now: Time)
    ensures Sealed(db, req, hash, ids, now).documents.Keys == db.documents.Keys + {ids.documentId}
  {
  }

  lemma NewDocumentUnrecorded(db: Db, ids: SealIds, key: IdemKey)
    requires RecordsCompleted(db) && FreshIds(db, ids)
    ensures !RecordFor(db, key, ids.documentId)
  {
  }

  lemma SealedRecordsCompleted(db: Db, req: SealRequest, hash: string, ids: SealIds, now: Time)
    requires RecordsCompleted(db) && FreshIds(db, ids)
    ensures RecordsCompleted(Sealed(db, req, hash, ids, now))
  {
    hide LineRows;
  }

  lemma SealedOutbox(db: Db, req: SealRequest, hash: string, ids: SealIds, now: Time)
    requires OutboxInv(db) && FreshIds(db, ids)
    ensures OutboxInv(Sealed(db, req, hash, ids, now))
  {
    hide LineRows, DocumentOf;
    var after := Sealed(db, req, hash, ids, now);
    assert RowsPointBack(after) && Distinct(after.outbox);
    forall d | d in after.documents
      ensures exists o :: RowFor(after, o, d)
    {
      if d == ids.documentId {
        assert RowFor(after, ids.outboxId, d);
      } else {
        var o :| RowFor(db, o, d);
        assert RowFor(after, o, d);
      }
    }
  }

  lemma SealedStored(db: Db, digest: string -> string, req: SealRequest, ids: SealIds, now: Time)
    requires RecordsCompleted(db) && StoredInv(db, digest) && FreshIds(db, ids) && KeyOf(req) !in db.idempotency
    ensures StoredInv(Sealed(db, req, HashOf(digest, req), ids, now), digest)
  {
    hide StoredProjection, MaterializeV2, LineRows, DocumentOf, RecordsCompleted, FreshIds;
    var hash := HashOf(digest, req);
    var after := Sealed(db, req, hash, ids, now);
    var n := LastSeq(db, SeriesOf(req)) + 1;
    StoredRoundTrip(req, n, now);
    forall key, d | RecordFor(after, key, d) && d in after.documents && d in after.lines
      ensures after.idempotency[key].requestHash ==
              digest(MaterializeV2(StoredProjection(after.documents[d], after.lines[d])))
    {
      SealedRecord(db, req, hash, ids, now, key, d);
      if key != KeyOf(req) {
        NewDocumentUnrecorded(db, ids, key);
        assert after.documents[d] == db.documents[d] && after.lines[d] == db.lines[d];
      }
    }
  }

  lemma SealedExternalIds(db: Db, req: SealRequest, hash: string, ids: SealIds, now: Time)
    requires ExternalIdInv(db) && FreshIds(db, ids)
    requires !ExternalIdTaken(db, req.intent.scopeId, req.intent.externalId)
    ensures ExternalIdInv(Sealed(db, req, hash, ids, now))
  {
    hide LineRows;
  }

  /** On a committed database a key without a record is the only way to seal anew. */
  lemma ProceedMeansNewKey(db: Db, req: SealRequest, hash: string)
    requires RecordsCompleted(db) && Resolve(db, req, hash).Proceed?
    ensures KeyOf(req) !in db.idempotency
  {
  }

  /** A seal, whatever its answer, keeps numbering, uniqueness, and the one-to-one correspondences. */
  lemma SealKeepsInv(db: Db, digest: string -> string, req: SealRequest, ids: SealIds, now: Time)
    requires SealInv(db, digest) && FreshIds(db, ids)
    ensures SealInv(SealTx(db, req, HashOf(digest, req), ids, now).After(db), digest)
  {
    hide Sealed, NumberingInv, ExternalIdInv, OutboxInv, StoredInv, FreshIds, HashOf, LoadCompleted;
    hide RecordsCompleted, EveryDocumentRecorded, OneRecordPerDocument;
    var hash := HashOf(digest, req);
    if Resolve(db, req, hash).Proceed? && !ExternalIdTaken(db, req.intent.scopeId, req.intent.externalId) {
      ProceedMeansNewKey(db, req, hash);
      SealedNumbering(db, req, hash, ids, now);
      SealedIdempotency(db, req, hash, ids, now);
      SealedOutbox(db, req, hash, ids, now);
      SealedStored(db, digest, req, ids, now);
      SealedExternalIds(db, req, hash, ids, now);
    }
  }

  // ----- replay -----

  /** Everything a replay reads is still there, unchanged. */
  ghost predicate Keeps(before: Db, after: Db) {
    && (forall key :: key in before.idempotency ==>
          key in after.idempotency && after.idempotency[key] == before.idempotency[key])
    && (forall d :: d in before.documents ==> d in after.documents && after.documents[d] == before.documents[d])
    && (forall d :: d in before.lines ==> d in after.lines && after.lines[d] == before.lines[d])
    && (forall o :: o in before.outbox ==>
          && o in after.outbox
          && after.outbox[o].documentId == before.outbox[o].documentId
          && after.outbox[o].submissionId == before.outbox[o].submissionId)
  }

  lemma KeepsTransitive(a: Db, b: Db, c: Db)
    requires Keeps(a, b) && Keeps(b, c)
    ensures Keeps(a, c)
  {
  }

  lemma SealKeeps(db: Db, digest: string -> string, req: SealRequest, ids: SealIds, now: Time)
    requires SealInv(db, digest) && FreshIds(db, ids)
    ensures Keeps(db, SealTx(db, req, HashOf(digest, req), ids, now).After(db))
  {
    hide NumberingInv, ExternalIdInv, StoredInv, HashOf, LoadCompleted, Sealed, FreshIds, Keeps;
    hide RecordsCompleted, EveryDocumentRecorded, OneRecordPerDocument, OutboxInv;
    KeepsItself(db);
    if Resolve(db, req, HashOf(digest, req)).Proceed? {
      ProceedMeansNewKey(db, req, HashOf(digest, req));
      SealedKeeps(db, req, HashOf(digest, req), ids, now);
    }
  }

  lemma KeepsItself(db: Db)
    ensures Keeps(db, db)
  {
  }

  lemma SealedKeeps(db: Db, req: SealRequest, hash: string, ids: SealIds, now: Time)
    requires FreshIds(db, ids) && KeyOf(req) !in db.idempotency
    ensures Keeps(db, Sealed(db, req, hash, ids, now))
  {
    hide LineRows, DocumentOf;
  }

  /** The join finds the one row there is. */
  lemma LoadFinds(db: Db, d: Id, o: Id)
    requires OutboxInv(db) && RowFor(db, o, d) && d in db.documents
    ensures LoadCompleted(db, d) == Some(ResultOf(db.documents[d], d, db.outbox[o].submissionId, true))
  {
  }

  /** A stored document can always be loaded, as itself. */
  lemma Loadable(db: Db, d: Id)
    requires OutboxInv(db) && d in db.documents
    ensures LoadCompleted(db, d).Some? && LoadCompleted(db, d).value.documentId == d
    ensures LoadCompleted(db, d).value.idempotentHit
  {
    var o :| RowFor(db, o, d);
    LoadFinds(db, d, o);
  }

  lemma LoadStable(before: Db, after: Db, d: Id)
    requires OutboxInv(before) && OutboxInv(after) && Keeps(before, after) && d in before.documents
    ensures LoadCompleted(before, d).Some? && LoadCompleted(after, d) == LoadCompleted(before, d)
  {
    var o :| RowFor(before, o, d);
    LoadFinds(before, d, o);
    LoadFinds(after, d, o);
  }

  /** A seal that succeeds leaves a record from which the same answer can be loaded again. */
  lemma SuccessIsRecorded(db: Db, digest: string -> string, req: SealRequest, ids: SealIds, now: Time)
    requires SealInv(db, digest) && FreshIds(db, ids) && SealTx(db, req, HashOf(digest, req), ids, now).Commit?
    ensures var tx := SealTx(db, req, HashOf(digest, req), ids, now);
            && RecordFor(tx.db, KeyOf(req), tx.value.documentId)
            && tx.db.idempotency[KeyOf(req)].requestHash == HashOf(digest, req)
            && tx.value.documentId in tx.db.documents
            && LoadCompleted(tx.db, tx.value.documentId) == Some(tx.value.(idempotentHit := true))
  {
    var hash := HashOf(digest, req);
    match Resolve(db, req, hash) {
      case Replay(d) => ReplayIsRecorded(db, req, hash, ids, now);
      case Proceed => NewSealIsRecorded(db, digest, req, ids, now);
      case Refuse(e) =>
    }
  }

  lemma ReplayIsRecorded(db: Db, req: SealRequest, hash: string, ids: SealIds, now: Time)
    requires RecordsCompleted(db) && OutboxInv(db) && Resolve(db, req, hash).Replay?
    ensures var tx := SealTx(db, req, hash, ids, now);
            && tx.Commit? && tx.db == db
            && RecordFor(db, KeyOf(req), tx.value.documentId)
            && db.idempotency[KeyOf(req)].requestHash == hash
            && tx.value.documentId in db.documents
            && LoadCompleted(db, tx.value.documentId) == Some(tx.value) && tx.value.idempotentHit
  {
    var d := Resolve(db, req, hash).documentId;
    assert d in db.documents && RecordFor(db, KeyOf(req), d) by {
      hide OutboxInv;
    }
    Loadable(db, d);
    hide LoadCompleted, OutboxInv, RecordsCompleted;
  }

  lemma NewSealIsRecorded(db: Db, digest: string -> string, req: SealRequest, ids: SealIds, now: Time)
    requires SealInv(db, digest) && FreshIds(db, ids)
    requires Resolve(db, req, HashOf(digest, req)).Proceed? && SealTx(db, req, HashOf(digest, req), ids, now).Commit?
    ensures var hash := HashOf(digest, req);
            var tx := SealTx(db, req, hash, ids, now);
            && tx.db == Sealed(db, req, hash, ids, now) && tx.value.documentId == ids.documentId
            && RecordFor(tx.db, KeyOf(req), ids.documentId)
            && tx.db.idempotency[KeyOf(req)].requestHash == hash
            && ids.documentId in tx.db.documents
            && LoadCompleted(tx.db, ids.documentId) == Some(tx.value.(idempotentHit := true))
  {
    hide SealInv, FreshIds;
    SealKeepsInv(db, digest, req, ids, now);
    var after := Sealed(db, req, HashOf(digest, req), ids, now);
    SealInvParts(after, digest);
    hide OutboxInv, RecordsCompleted;
    SealedLoads(db, req, HashOf(digest, req), ids, now);
  }

  lemma SealedLoads(db: Db, req: SealRequest, hash: string, ids: SealIds, now: Time)
    requires OutboxInv(Sealed(db, req, hash, ids, now))
    ensures var after := Sealed(db, req, hash, ids, now);
            && RecordFor(after, KeyOf(req), ids.documentId)
            && after.idempotency[KeyOf(req)].requestHash == hash
            && ids.documentId in after.documents
            && LoadCompleted(after, ids.documentId) ==
               Some(ResultOf(DocumentOf(req, LastSeq(db, SeriesOf(req)) + 1, now), ids.documentId,
                             ids.submissionId, true))
  {
    hide OutboxInv, DocumentOf, LineRows, LoadCompleted;
    var after := Sealed(db, req, hash, ids, now);
    LoadFinds(after, ids.documentId, ids.outboxId);
  }

  lemma SealInvParts(db: Db, digest: string -> string)
    requires SealInv(db, digest)
    ensures OutboxInv(db) && RecordsCompleted(db)
  {
  }

  ghost predicate CollisionFree(digest: string -> string) {
    forall a, b :: digest(a) == digest(b) ==> a == b
  }

  /** The persisted document and lines of a recorded key reconstruct the projection of the request that is recorded. */
  lemma RecordReconstructs(db: Db, digest: string -> string, req: SealRequest, d: Id)
    requires SealInv(db, digest) && CollisionFree(digest)
    requires RecordFor(db, KeyOf(req), d) && d in db.documents
    ensures d in db.lines
    ensures db.idempotency[KeyOf(req)].requestHash == HashOf(digest, req) <==>
            StoredProjection(db.documents[d], db.lines[d]) == ProjectionOf(req)
  {
    hide StoredProjection, MaterializeV2, NumberingInv, ExternalIdInv, OutboxInv;
    hide RecordsCompleted, EveryDocumentRecorded, OneRecordPerDocument;
    var stored := StoredProjection(db.documents[d], db.lines[d]);
    if db.idempotency[KeyOf(req)].requestHash == HashOf(digest, req) {
      MaterializeV2Injective(stored, ProjectionOf(req));
    }
  }

  /**
   The answer to a key that has a record: the recorded result when the request's projection is the stored one, field
   for field, and a conflict otherwise. Either way nothing changes.
   */
  lemma RecordedKeyAnswer(db: Db, digest: string -> string, req: SealRequest, d: Id, ids: SealIds, now: Time)
    requires SealInv(db, digest) && CollisionFree(digest) && RecordFor(db, KeyOf(req), d)
    ensures d in db.documents && d in db.lines && LoadCompleted(db, d).Some?
    ensures SealTx(db, req, HashOf(digest, req), ids, now) ==
            if ProjectionOf(req) == StoredProjection(db.documents[d], db.lines[d])
            then Commit(db, LoadCompleted(db, d).value)
            else Rollback(IdempotencyConflict)
  {
    RecordIsComplete(db, KeyOf(req), d) by { SealInvParts(db, digest); }
    RecordReconstructs(db, digest, req, d);
    Loadable(db, d) by { SealInvParts(db, digest); }
    hide SealInv, CollisionFree;
    AnswerFromRecord(db, req, HashOf(digest, req), d, ids, now);
  }

  lemma RecordIsComplete(db: Db, key: IdemKey, d: Id)
    requires RecordsCompleted(db) && RecordFor(db, key, d)
    ensures d in db.documents && db.idempotency[key].state.Completed?
  {
  }

  lemma AnswerFromRecord(db: Db, req: SealRequest, hash: string, d: Id, ids: SealIds, now: Time)
    requires RecordFor(db, KeyOf(req), d) && db.idempotency[KeyOf(req)].state.Completed? && LoadCompleted(db, d).Some?
    ensures SealTx(db, req, hash, ids, now) ==
            if db.idempotency[KeyOf(req)].requestHash == hash then Commit(db, LoadCompleted(db, d).value)
            else Rollback(IdempotencyConflict)
  {
    hide LoadCompleted, Sealed;
  }
}
