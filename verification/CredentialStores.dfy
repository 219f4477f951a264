/**
 The credential store, statement by statement (internal/persistence/credentials.go). Every statement keeps the
 invariant; a transaction that fails, at the very end even, is rolled back whole.
 */
module CredentialStores {
  import opened Prelude
  import opened Text
  import opened Credentials
  import opened CredentialRuns

  class CredentialStore {
    var scopes: map<string, Scope>
    var creds: map<Id, Credential>
    var nextRow: nat
    var audits: seq<Audit>

    function Snapshot(): CredDb
      reads this
    {
      CredDb(scopes, creds, nextRow, audits)
    }

    ghost predicate Valid()
      reads this
    {
      CredInv(Snapshot())
    }

    constructor ()
      ensures Valid() && Snapshot() == EMPTY
    {
      scopes, creds, nextRow, audits := map[], map[], 0, [];
    }

    method Restore(saved: CredDb)
      modifies this
      ensures Snapshot() == saved
    {
      scopes, creds, nextRow, audits := saved.scopes, saved.creds, saved.nextRow, saved.audits;
    }

    method FindStatusId(scopeId: string, status: Status) returns (r: Option<Id>)
      requires Valid() && !status.Revoked?
      ensures r == FindStatus(Snapshot(), scopeId, status)
    {
      hide RowsOk, NoBranch, HashesUnique, FindStatus;
      if exists id :: id in creds && creds[id].scopeId == scopeId && creds[id].status == status {
        var id :| id in creds && creds[id].scopeId == scopeId && creds[id].status == status;
        FindStatusIs(Snapshot(), id, scopeId, status);
        return Some(id);
      }
      assert forall id :: !Has(Snapshot(), id, scopeId, status);
      r := None;
    }

    /** UPDATE to revoked, unless it already is; answers the number of rows changed. */
    method MarkRevoked(scopeId: string, id: Id, now: Time) returns (rows: nat)
      requires Valid()
      modifies this`creds
      ensures Valid()
      ensures if id in old(creds) && old(creds)[id].scopeId == scopeId && !old(creds)[id].status.Revoked?
              then rows == 1 && Snapshot() == RevokeRow(old(Snapshot()), id, now)
              else rows == 0 && Snapshot() == old(Snapshot())
    {
      hide CredInv;
      if id !in creds || creds[id].scopeId != scopeId || creds[id].status.Revoked? {
        return 0;
      }
      RevokeKeeps(Snapshot(), id, now);
      creds := creds[id := creds[id].(status := Revoked, revokedAt := Some(now), graceUntil := None)];
      rows := 1;
    }

    /** UPDATE of an active credential to grace; the index on grace credentials refuses a second one in the scope. */
    method Demote(scopeId: string, id: Id, until: Time) returns (ok: bool)
      requires Valid() && Has(Snapshot(), id, scopeId, Active)
      modifies this`creds
      ensures Valid()
      ensures ok == FindStatus(old(Snapshot()), scopeId, Grace).None?
      ensures Snapshot() == if ok then DemoteRow(old(Snapshot()), id, until) else old(Snapshot())
      ensures ok ==> FindStatus(Snapshot(), scopeId, Active).None?
    {
      hide CredInv, FindStatus;
      var grace := FindStatusId(scopeId, Grace);
      if grace.Some? {
        return false;
      }
      DemoteKeeps(Snapshot(), id, until);
      creds := creds[id := creds[id].(status := Grace, graceUntil := Some(until), revokedAt := None)];
      ok := true;
    }

    /** INSERT of an active credential, against the unique indexes of the table. */
    method InsertCredential(id: Id, scopeId: string, hash: string, expiresAt: Option<Time>, rotatedFrom: Option<Id>,
                            createdBy: string, now: Time) returns (ok: bool)
      requires Valid() && scopeId in scopes
      requires rotatedFrom.Some? ==>
                 && Has(Snapshot(), rotatedFrom.value, scopeId, Grace)
                 && forall a :: a in creds ==> creds[a].rotatedFrom != rotatedFrom
      modifies this`creds, this`nextRow
      ensures Valid()
      ensures var before := old(Snapshot());
              && ok == (FindStatus(before, scopeId, Active).None? && id !in before.creds && !HashTaken(before, hash))
              && Snapshot() ==
                 if ok then
                   InsertRow(before, id, NewRow(before, scopeId, hash, expiresAt, rotatedFrom, createdBy, now))
                 else before
    {
      hide CredInv, FindStatus;
      var active := FindStatusId(scopeId, Active);
      if active.Some? || id in creds || HashTaken(Snapshot(), hash) {
        return false;
      }
      var row := Credential(scopeId, hash, Active, expiresAt, None, rotatedFrom, None, now, createdBy, nextRow);
      InsertKeeps(Snapshot(), id, row);
      creds := creds[id := row];
      nextRow := nextRow + 1;
      ok := true;
    }

    method WriteAudit(audit: Audit)
      requires Valid()
      modifies this`audits
      ensures Valid() && Snapshot() == Audited(old(Snapshot()), audit)
    {
      hide CredInv;
      AuditKeeps(Snapshot(), audit);
      audits := audits + [audit];
    }

    /** Issue; a delivery that fails undoes the insert. */
    method Issue(p: IssueParams, draw: Draw) returns (r: Result<Id, CredError>)
      requires Valid()
      modifies this
      ensures Valid()
      ensures r == IssueTx(old(Snapshot()), p, draw).Answer()
      ensures Snapshot() == IssueTx(old(Snapshot()), p, draw).After(old(Snapshot()))
      ensures r.Err? ==> Snapshot() == old(Snapshot())
    {
      hide CredInv, FindStatus, HashTaken;
      var scopeId, createdBy := TrimSpace(p.scopeId), TrimSpace(p.createdBy);
      if scopeId == "" {
        return Err(Missing("scope_id"));
      }
      if createdBy == "" {
        return Err(Missing("created_by"));
      }
      var saved := Snapshot();
      if scopeId !in scopes {
        return Err(ScopeNotFound);
      }
      var active := FindStatusId(scopeId, Active);
      if active.Some? {
        return Err(CredentialConflict);
      }
      var inserted := InsertCredential(draw.id, scopeId, draw.hash, p.expiresAt, None, createdBy, draw.now);
      if !inserted {
        return Err(CredentialConflict);
      }
      if !draw.delivered {
        Restore(saved);
        return Err(DeliveryFailed);
      }
      WriteAudit(Audit(IssueAudit, Some(draw.id), draw.now));
      r := Ok(draw.id);
    }

    /** Rotate: the previous grace is revoked, the active one demoted, the new one inserted - in that order. */
    method Rotate(p: RotateParams, draw: Draw, calledAt: Time) returns (r: Result<Id, CredError>)
      requires Valid()
      modifies this
      ensures Valid()
      ensures r == RotateTx(old(Snapshot()), p, draw, calledAt).Answer()
      ensures Snapshot() == RotateTx(old(Snapshot()), p, draw, calledAt).After(old(Snapshot()))
      ensures r.Err? ==> Snapshot() == old(Snapshot())
    {
      hide CredInv, FindStatus, HashTaken;
      var scopeId, createdBy := TrimSpace(p.scopeId), TrimSpace(p.createdBy);
      if scopeId == "" {
        return Err(Missing("scope_id"));
      }
      if createdBy == "" {
        return Err(Missing("created_by"));
      }
      if p.graceUntil <= calledAt {
        return Err(GraceNotFuture);
      }
      var saved := Snapshot();
      if scopeId !in scopes {
        return Err(ScopeNotFound);
      }
      var active := FindStatusId(scopeId, Active);
      if active.None? {
        return Err(NoActiveCredential);
      }
      MakingRoom(saved, scopeId, active.value, p.graceUntil, draw.now);
      MakeRoom(scopeId, active.value, p.graceUntil, draw.now);
      SameHashes(saved, Snapshot(), draw.hash);
      hide MadeRoom;
      var inserted := InsertCredential(draw.id, scopeId, draw.hash, p.expiresAt, active, createdBy, draw.now);
      if !inserted {
        Restore(saved);
        return Err(CredentialConflict);
      }
      if !draw.delivered {
        Restore(saved);
        return Err(DeliveryFailed);
      }
      WriteAudit(Audit(RotateAudit, Some(draw.id), draw.now));
      r := Ok(draw.id);
    }

    /** The two updates that precede the insert of a rotation; neither can fail. */
    method MakeRoom(scopeId: string, active: Id, graceUntil: Time, now: Time)
      requires Valid() && Has(Snapshot(), active, scopeId, Active)
      modifies this`creds
      ensures Valid() && Snapshot() == MadeRoom(old(Snapshot()), scopeId, active, graceUntil, now)
    {
      hide CredInv, FindStatus;
      var grace := FindStatusId(scopeId, Grace);
      if grace.Some? {
        NoGraceLeft(Snapshot(), grace.value, scopeId, now) by { OneGrace(Snapshot()); }
        var rows := MarkRevoked(scopeId, grace.value, now);
        if rows == 0 {
          assert false;
        }
      }
      var demoted := Demote(scopeId, active, graceUntil);
      if !demoted {
        assert false;
      }
    }

    method Revoke(rawScopeId: string, id: Id, now: Time) returns (r: Result<Id, CredError>)
      requires Valid()
      modifies this
      ensures Valid()
      ensures r == RevokeTx(old(Snapshot()), rawScopeId, id, now).Answer()
      ensures Snapshot() == RevokeTx(old(Snapshot()), rawScopeId, id, now).After(old(Snapshot()))
      ensures r.Err? ==> Snapshot() == old(Snapshot())
    {
      hide CredInv;
      var scopeId := TrimSpace(rawScopeId);
      if scopeId == "" {
        return Err(Missing("scope_id"));
      }
      if scopeId !in scopes {
        return Err(ScopeNotFound);
      }
      if id !in creds || creds[id].scopeId != scopeId {
        return Err(CredentialNotFound);
      }
      if creds[id].status.Revoked? {
        return Err(InvalidState);
      }
      var rows := MarkRevoked(scopeId, id, now);
      if rows == 0 {
        assert false;
      }
      WriteAudit(Audit(RevokeAudit, Some(id), now));
      r := Ok(id);
    }
  }

  /** "bwb_sbox_" and 43 characters of the URL-safe alphabet. */
  const TOKEN_PREFIX := "bwb_sbox_"
  const TOKEN_LENGTH := 52

  predicate InAlphabet(c: char) {
    'A' <= c <= 'Z' || 'a' <= c <= 'z' || '0' <= c <= '9' || c == '-' || c == '_'
  }

  predicate ValidFormat(token: string) {
    |token| == TOKEN_LENGTH && token[..9] == TOKEN_PREFIX && forall i :: 9 <= i < |token| ==> InAlphabet(token[i])
  }

  method ValidSandboxTokenFormat(token: string) returns (valid: bool)
    ensures valid == ValidFormat(token)
  {
    if |token| != TOKEN_LENGTH || token[..9] != TOKEN_PREFIX {
      return false;
    }
    for i := 9 to |token|
      invariant forall k :: 9 <= k < i ==> InAlphabet(token[k])
    {
      if !InAlphabet(token[i]) {
        return false;
      }
    }
    valid := true;
  }

  /** CredentialStoreAuthenticator (internal/auth/auth.go): who a bearer token is, at an instant. */
  class Authenticator {
    const store: CredentialStore
    const environment: string
    const digest: string -> string

    constructor (store: CredentialStore, environment: string, digest: string -> string)
      ensures this.store == store && this.environment == environment && this.digest == digest
    {
      this.store, this.environment, this.digest := store, environment, digest;
    }

    /**
     The token's credential, if there is one and it is accepted now; every attempt is audited, nothing else changes.
     */
    method Authenticate(token: string, now: Time) returns (r: Option<Id>)
      requires store.Valid()
      modifies store`audits
      ensures store.Valid()
      ensures r.Some? <==>
              ValidFormat(token) && exists id :: id in store.creds && store.creds[id].tokenHash == digest(token) &&
                                                 Accepted(store.Snapshot(), environment, id, now)
      ensures r.Some? ==>
              && r.value in store.creds && store.creds[r.value].tokenHash == digest(token)
              && Accepted(store.Snapshot(), environment, r.value, now)
      ensures store.audits == old(store.audits) + [Audit(
                if r.Some? then AcceptAudit
                else if !ValidFormat(token) then RejectAudit("malformed")
                else if forall id :: id in store.creds ==> store.creds[id].tokenHash != digest(token)
                then RejectAudit("not_found")
                else RejectAudit("policy"), r, now)]
    {
      hide OneEach, NoBranch, Coherent, LinkOk;
      var formatted := ValidSandboxTokenFormat(token);
      if !formatted {
        store.WriteAudit(Audit(RejectAudit("malformed"), None, now));
        return None;
      }
      var hash := digest(token);
      if !(exists id :: id in store.creds && store.creds[id].tokenHash == hash) {
        store.WriteAudit(Audit(RejectAudit("not_found"), None, now));
        return None;
      }
      var id :| id in store.creds && store.creds[id].tokenHash == hash;
      var row := store.creds[id];
      if !Acceptable(row, store.scopes[row.scopeId], environment, now) {
        store.WriteAudit(Audit(RejectAudit("policy"), None, now));
        return None;
      }
      store.WriteAudit(Audit(AcceptAudit, Some(id), now));
      r := Some(id);
    }
  }
}
