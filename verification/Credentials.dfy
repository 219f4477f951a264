/**
 API credentials (internal/persistence/credentials.go, migrations/sqlite/0003) and the rule that opens the door to one
 (internal/auth/auth.go): the table, its statements, and the transactions made of them.
 */
module Credentials {
  import opened Prelude
  import opened Text

  type Id = nat
  type Time = int

  datatype Scope = Scope(active: bool, environment: string)

  datatype Status = Active | Grace | Revoked

  /** A row of api_credentials; `rowId` is the position SQLite gives every inserted row. */
  datatype Credential = Credential(
    scopeId: string, tokenHash: string, status: Status, expiresAt: Option<Time>, graceUntil: Option<Time>,
    rotatedFrom: Option<Id>, revokedAt: Option<Time>, createdAt: Time, createdBy: string, rowId: nat)

  datatype AuditAction = IssueAudit | RotateAudit | RevokeAudit | AcceptAudit | RejectAudit(reason: string)
  datatype Audit = Audit(action: AuditAction, credentialId: Option<Id>, at: Time)

  datatype CredDb = CredDb(scopes: map<string, Scope>, creds: map<Id, Credential>, nextRow: nat, audits: seq<Audit>)

  const EMPTY := CredDb(map[], map[], 0, [])

  datatype CredError =
    | Missing(field: string) | GraceNotFuture | ScopeNotFound | CredentialConflict | NoActiveCredential
    | CredentialNotFound | InvalidState | DeliveryFailed

  datatype CredTx<+T> = Commit(db: CredDb, value: T) | Rollback(error: CredError) {
    function After(before: CredDb): CredDb {
      if Commit? then db else before
    }

    function Answer(): Result<T, CredError> {
      if Commit? then Ok(value) else Err(error)
    }
  }

  // ----- statements -----

  ghost predicate Has(db: CredDb, id: Id, scopeId: string, status: Status) {
    id in db.creds && db.creds[id].scopeId == scopeId && db.creds[id].status == status
  }

  /** SELECT credential_id ... WHERE scope_id = ? AND status = ?. */
  ghost function FindStatus(db: CredDb, scopeId: string, status: Status): (r: Option<Id>)
    ensures r.Some? ==> Has(db, r.value, scopeId, status)
    ensures r.None? ==> forall id :: !Has(db, id, scopeId, status)
  {
    if exists id :: Has(db, id, scopeId, status) then
      var id :| Has(db, id, scopeId, status);
      Some(id)
    else None
  }

  function RevokeRow(db: CredDb, id: Id, now: Time): CredDb
    requires id in db.creds
  {
    db.(creds := db.creds[id := db.creds[id].(status := Revoked, revokedAt := Some(now), graceUntil := None)])
  }

  function DemoteRow(db: CredDb, id: Id, until: Time): CredDb
    requires id in db.creds
  {
    db.(creds := db.creds[id := db.creds[id].(status := Grace, graceUntil := Some(until), revokedAt := None)])
  }

  function HashTaken(db: CredDb, hash: string): bool {
    exists id :: id in db.creds && db.creds[id].tokenHash == hash
  }

  function NewRow(db: CredDb, scopeId: string, hash: string, expiresAt: Option<Time>, rotatedFrom: Option<Id>,
                  createdBy: string, now: Time): Credential {
    Credential(scopeId, hash, Active, expiresAt, None, rotatedFrom, None, now, createdBy, db.nextRow)
  }

  function InsertRow(db: CredDb, id: Id, row: Credential): CredDb {
    db.(creds := db.creds[id := row], nextRow := db.nextRow + 1)
  }

  function Audited(db: CredDb, audit: Audit): CredDb {
    db.(audits := db.audits + [audit])
  }

  // ----- the transactions -----

  datatype IssueParams = IssueParams(scopeId: string, createdBy: string, expiresAt: Option<Time>)
  datatype RotateParams = RotateParams(scopeId: string, createdBy: string, graceUntil: Time, expiresAt: Option<Time>)

  /**
   The fresh identifier and token hash drawn, whether the token sink takes the token, and the time of the transaction.
   */
  datatype Draw = Draw(id: Id, hash: string, delivered: bool, now: Time)

  function Required(scopeId: string, createdBy: string): Option<CredError> {
    if Blank(scopeId) then Some(Missing("scope_id"))
    else if Blank(createdBy) then Some(Missing("created_by"))
    else None
  }

  ghost function IssueTx(db: CredDb, p: IssueParams, draw: Draw): CredTx<Id> {
    var scopeId := TrimSpace(p.scopeId);
    if Required(p.scopeId, p.createdBy).Some? then Rollback(Required(p.scopeId, p.createdBy).value)
    else if scopeId !in db.scopes then Rollback(ScopeNotFound)
    else if FindStatus(db, scopeId, Active).Some? || draw.id in db.creds || HashTaken(db, draw.hash) then
      Rollback(CredentialConflict)
    else if !draw.delivered then Rollback(DeliveryFailed)
    else
      var row := NewRow(db, scopeId, draw.hash, p.expiresAt, None, TrimSpace(p.createdBy), draw.now);
      Commit(Audited(InsertRow(db, draw.id, row), Audit(IssueAudit, Some(draw.id), draw.now)), draw.id)
  }

  /** The previous grace credential revoked, the active one demoted. */
  ghost function MadeRoom(db: CredDb, scopeId: string, active: Id, graceUntil: Time, now: Time): CredDb
    requires active in db.creds
  {
    match FindStatus(db, scopeId, Grace)
    case None => DemoteRow(db, active, graceUntil)
    case Some(old_) => DemoteRow(RevokeRow(db, old_, now), active, graceUntil)
  }

  /** `calledAt` is the clock when the call validated its parameters, before its transaction began. */
  ghost function RotateTx(db: CredDb, p: RotateParams, draw: Draw, calledAt: Time): CredTx<Id> {
    var scopeId := TrimSpace(p.scopeId);
    if Required(p.scopeId, p.createdBy).Some? then Rollback(Required(p.scopeId, p.createdBy).value)
    else if p.graceUntil <= calledAt then Rollback(GraceNotFuture)
    else if scopeId !in db.scopes then Rollback(ScopeNotFound)
    else
      match FindStatus(db, scopeId, Active)
      case None => Rollback(NoActiveCredential)
      case Some(active) =>
        if draw.id in db.creds || HashTaken(db, draw.hash) then Rollback(CredentialConflict)
        else if !draw.delivered then Rollback(DeliveryFailed)
        else
          var room := MadeRoom(db, scopeId, active, p.graceUntil, draw.now);
          var row := NewRow(room, scopeId, draw.hash, p.expiresAt, Some(active), TrimSpace(p.createdBy), draw.now);
          Commit(Audited(InsertRow(room, draw.id, row), Audit(RotateAudit, Some(draw.id), draw.now)), draw.id)
  }

  function RevokeTx(db: CredDb, scopeId: string, id: Id, now: Time): CredTx<Id> {
    if Blank(scopeId) then Rollback(Missing("scope_id"))
    else if TrimSpace(scopeId) !in db.scopes then Rollback(ScopeNotFound)
    else if id !in db.creds || db.creds[id].scopeId != TrimSpace(scopeId) then Rollback(CredentialNotFound)
    else if db.creds[id].status.Revoked? then Rollback(InvalidState)
    else Commit(Audited(RevokeRow(db, id, now), Audit(RevokeAudit, Some(id), now)), id)
  }

  // ----- the invariant -----

  ghost predicate OneEach(db: CredDb, status: Status) {
    forall a, b ::
      (a in db.creds && b in db.creds && db.creds[a].status == status && db.creds[b].status == status &&
       db.creds[a].scopeId == db.creds[b].scopeId) ==> a == b
  }

  /** Status and timestamps agree. */
  predicate Coherent(row: Credential) {
    && (row.status.Revoked? <==> row.revokedAt.Some?)
    && (row.status.Grace? <==> row.graceUntil.Some?)
  }

  /** A rotated credential replaced an older one of its scope, which is not active any more. */
  ghost predicate LinkOk(db: CredDb, id: Id)
    requires id in db.creds
  {
    var from := db.creds[id].rotatedFrom;
    from.Some? ==>
      && from.value in db.creds && db.creds[from.value].scopeId == db.creds[id].scopeId
      && db.creds[from.value].rowId < db.creds[id].rowId && !db.creds[from.value].status.Active?
  }

  ghost predicate RowsOk(db: CredDb) {
    forall id :: id in db.creds ==>
      Coherent(db.creds[id]) && LinkOk(db, id) && db.creds[id].rowId < db.nextRow && db.creds[id].scopeId in db.scopes
  }

  /** No two credentials replaced the same one: chains do not branch. */
  ghost predicate NoBranch(db: CredDb) {
    forall a, b ::
      (a in db.creds && b in db.creds && db.creds[a].rotatedFrom.Some? &&
       db.creds[a].rotatedFrom == db.creds[b].rotatedFrom) ==> a == b
  }

  ghost predicate HashesUnique(db: CredDb) {
    forall a, b :: a in db.creds && b in db.creds && db.creds[a].tokenHash == db.creds[b].tokenHash ==> a == b
  }

  ghost predicate CredInv(db: CredDb) {
    OneEach(db, Active) && OneEach(db, Grace) && RowsOk(db) && NoBranch(db) && HashesUnique(db)
  }

  lemma FindStatusIs(db: CredDb, id: Id, scopeId: string, status: Status)
    requires Has(db, id, scopeId, status) && OneEach(db, status)
    ensures FindStatus(db, scopeId, status) == Some(id)
  {
  }

  /** Each statement keeps the invariant: here, revoking any credential. */
  lemma RevokeKeeps(db: CredDb, id: Id, now: Time)
    requires CredInv(db) && id in db.creds
    ensures CredInv(RevokeRow(db, id, now))
  {
    assert OneEach(RevokeRow(db, id, now), Active) && OneEach(RevokeRow(db, id, now), Grace) by {
      hide RowsOk, NoBranch, HashesUnique;
    }
    SameLinks(db, RevokeRow(db, id, now), id) by { hide OneEach; }
    hide OneEach, RowsOk, NoBranch, HashesUnique;
  }

  /** Demoting the active credential, once its scope has no other in grace. */
  lemma DemoteKeeps(db: CredDb, id: Id, until: Time)
    requires CredInv(db) && id in db.creds && db.creds[id].status.Active?
    requires FindStatus(db, db.creds[id].scopeId, Grace).None?
    ensures CredInv(DemoteRow(db, id, until))
    ensures FindStatus(DemoteRow(db, id, until), db.creds[id].scopeId, Active).None?
  {
    var after := DemoteRow(db, id, until);
    assert OneEach(after, Active) && OneEach(after, Grace) && FindStatus(after, db.creds[id].scopeId, Active).None? by {
      hide RowsOk, NoBranch, HashesUnique;
      assert forall g :: g in db.creds && db.creds[g].scopeId == db.creds[id].scopeId && db.creds[g].status.Grace? ==>
        Has(db, g, db.creds[id].scopeId, Grace);
    }
    SameLinks(db, after, id) by { hide OneEach, FindStatus; }
  }

  /** A change of one row's status and stamps alone leaves links and hashes alone. */
  lemma SameLinks(before: CredDb, after: CredDb, id: Id)
    requires RowsOk(before) && NoBranch(before) && HashesUnique(before) && id in before.creds && id in after.creds
    requires var row := after.creds[id];
             && after == before.(creds := before.creds[id := row]) && Coherent(row) && !row.status.Active?
             && row == before.creds[id].(status := row.status, graceUntil := row.graceUntil, revokedAt := row.revokedAt)
    ensures RowsOk(after) && NoBranch(after) && HashesUnique(after)
  {
    assert NoBranch(after) && HashesUnique(after) by { hide RowsOk; }
    hide NoBranch, HashesUnique;
  }

  /** Inserting a credential into a scope without an active one; it may replace one that nothing replaced yet. */
  lemma InsertKeeps(db: CredDb, id: Id, row: Credential)
    requires CredInv(db) && id !in db.creds && !HashTaken(db, row.tokenHash)
    requires row.scopeId in db.scopes && FindStatus(db, row.scopeId, Active).None?
    requires row.status.Active? && row.revokedAt.None? && row.graceUntil.None? && row.rowId == db.nextRow
    requires row.rotatedFrom.Some? ==>
               && Has(db, row.rotatedFrom.value, row.scopeId, Grace)
               && forall a :: a in db.creds ==> db.creds[a].rotatedFrom != row.rotatedFrom
    ensures CredInv(InsertRow(db, id, row))
  {
    InsertOne(db, id, row) by { hide RowsOk, NoBranch, HashesUnique, HashTaken; }
    InsertUnique(db, id, row) by { hide RowsOk, OneEach; }
    InsertRows(db, id, row) by { hide OneEach, NoBranch, HashesUnique; }
    hide OneEach, RowsOk, NoBranch, HashesUnique;
  }

  lemma InsertOne(db: CredDb, id: Id, row: Credential)
    requires OneEach(db, Active) && OneEach(db, Grace) && id !in db.creds
    requires FindStatus(db, row.scopeId, Active).None? && row.status.Active?
    ensures OneEach(InsertRow(db, id, row), Active) && OneEach(InsertRow(db, id, row), Grace)
  {
    assert forall a :: a in db.creds && db.creds[a].scopeId == row.scopeId && db.creds[a].status.Active? ==>
      Has(db, a, row.scopeId, Active);
  }

  lemma InsertUnique(db: CredDb, id: Id, row: Credential)
    requires NoBranch(db) && HashesUnique(db) && id !in db.creds && !HashTaken(db, row.tokenHash)
    requires row.rotatedFrom.Some? ==> forall a :: a in db.creds ==> db.creds[a].rotatedFrom != row.rotatedFrom
    ensures NoBranch(InsertRow(db, id, row)) && HashesUnique(InsertRow(db, id, row))
  {
  }

  lemma InsertRows(db: CredDb, id: Id, row: Credential)
    requires RowsOk(db) && id !in db.creds && row.scopeId in db.scopes && row.rowId == db.nextRow && Coherent(row)
    requires row.rotatedFrom.Some? ==> Has(db, row.rotatedFrom.value, row.scopeId, Grace)
    ensures RowsOk(InsertRow(db, id, row))
  {
  }

  lemma AuditKeeps(db: CredDb, audit: Audit)
    requires CredInv(db)
    ensures CredInv(Audited(db, audit))
  {
  }

  /** Same rows, but for status and stamps. */
  ghost predicate SameButStatus(before: CredDb, after: CredDb) {
    && after.scopes == before.scopes && after.nextRow == before.nextRow && after.creds.Keys == before.creds.Keys
    && forall a :: a in before.creds ==>
         && after.creds[a].tokenHash == before.creds[a].tokenHash
         && after.creds[a].rotatedFrom == before.creds[a].rotatedFrom
  }

  lemma RoomFrame(db: CredDb, scopeId: string, active: Id, graceUntil: Time, now: Time)
    requires active in db.creds
    ensures SameButStatus(db, MadeRoom(db, scopeId, active, graceUntil, now))
  {
    hide FindStatus;
    if FindStatus(db, scopeId, Grace).Some? {
      assert Has(db, FindStatus(db, scopeId, Grace).value, scopeId, Grace);
    }
  }

  lemma SameHashes(before: CredDb, after: CredDb, hash: string)
    requires SameButStatus(before, after)
    ensures HashTaken(after, hash) <==> HashTaken(before, hash)
  {
    if HashTaken(before, hash) {
      var id :| id in before.creds && before.creds[id].tokenHash == hash;
      assert after.creds[id].tokenHash == hash;
    }
  }

  /**
   Making room for the new credential runs into no uniqueness constraint: the old grace is gone before the demotion.
   */
  lemma MakingRoom(db: CredDb, scopeId: string, active: Id, graceUntil: Time, now: Time)
    requires CredInv(db) && Has(db, active, scopeId, Active)
    ensures var room := MadeRoom(db, scopeId, active, graceUntil, now);
            && CredInv(room) && FindStatus(room, scopeId, Active).None? && Has(room, active, scopeId, Grace)
            && SameButStatus(db, room)
            && (forall a :: a in room.creds ==> room.creds[a].rotatedFrom != Some(active))
  {
    NothingReplacedActive(db, active);
    RoomFrame(db, scopeId, active, graceUntil, now);
    hide FindStatus, CredInv;
    match FindStatus(db, scopeId, Grace) {
      case None => DemoteKeeps(db, active, graceUntil);
      case Some(old_) =>
        RevokeKeeps(db, old_, now);
        var revoked := RevokeRow(db, old_, now);
        NoGraceLeft(db, old_, scopeId, now) by { OneGrace(db); }
        hide SameButStatus;
        DemoteKeeps(revoked, active, graceUntil);
    }
  }

  lemma OneGrace(db: CredDb)
    requires CredInv(db)
    ensures OneEach(db, Grace)
  {
  }

  lemma NothingReplacedActive(db: CredDb, active: Id)
    requires CredInv(db) && active in db.creds && db.creds[active].status.Active?
    ensures forall a :: a in db.creds ==> db.creds[a].rotatedFrom != Some(active)
  {
  }

  lemma NoGraceLeft(db: CredDb, old_: Id, scopeId: string, now: Time)
    requires OneEach(db, Grace) && Has(db, old_, scopeId, Grace)
    ensures FindStatus(RevokeRow(db, old_, now), scopeId, Grace).None?
  {
    var after := RevokeRow(db, old_, now);
    assert forall id :: Has(after, id, scopeId, Grace) ==> Has(db, id, scopeId, Grace);
  }

  lemma IssueKeeps(db: CredDb, p: IssueParams, draw: Draw)
    requires CredInv(db)
    ensures CredInv(IssueTx(db, p, draw).After(db))
  {
    hide CredInv;
    var scopeId := TrimSpace(p.scopeId);
    if IssueTx(db, p, draw).Commit? {
      var row := NewRow(db, scopeId, draw.hash, p.expiresAt, None, TrimSpace(p.createdBy), draw.now);
      InsertKeeps(db, draw.id, row);
      AuditKeeps(InsertRow(db, draw.id, row), Audit(IssueAudit, Some(draw.id), draw.now));
    }
  }

  lemma RotateKeeps(db: CredDb, p: RotateParams, draw: Draw, calledAt: Time)
    requires CredInv(db)
    ensures CredInv(RotateTx(db, p, draw, calledAt).After(db))
  {
    hide CredInv, MadeRoom, HashTaken;
    var scopeId := TrimSpace(p.scopeId);
    if RotateTx(db, p, draw, calledAt).Commit? {
      var active := FindStatus(db, scopeId, Active).value;
      MakingRoom(db, scopeId, active, p.graceUntil, draw.now);
      SameHashes(db, MadeRoom(db, scopeId, active, p.graceUntil, draw.now), draw.hash);
      var room := MadeRoom(db, scopeId, active, p.graceUntil, draw.now);
      var row := NewRow(room, scopeId, draw.hash, p.expiresAt, Some(active), TrimSpace(p.createdBy), draw.now);
      InsertKeeps(room, draw.id, row);
      AuditKeeps(InsertRow(room, draw.id, row), Audit(RotateAudit, Some(draw.id), draw.now));
    }
  }

  lemma RevokeTxKeeps(db: CredDb, scopeId: string, id: Id, now: Time)
    requires CredInv(db)
    ensures CredInv(RevokeTx(db, scopeId, id, now).After(db))
  {
    hide CredInv;
    if RevokeTx(db, scopeId, id, now).Commit? {
      RevokeKeeps(db, id, now);
      AuditKeeps(RevokeRow(db, id, now), Audit(RevokeAudit, Some(id), now));
    }
  }
}
