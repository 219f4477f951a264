/**
 What Issue, Rotate and Revoke write, column by column, and what each does to who is let in
 (internal/persistence/credentials.go, internal/auth/auth.go).
 */
module CredentialEffects {
  import opened Prelude
  import opened Text
  import opened Credentials
  import opened CredentialRuns
  import opened CredentialStores
  import Base64Url

  /** All rows but those named are as they were, and so are the scopes; one audit record is added. */
  ghost predicate OthersKept(before: CredDb, after: CredDb, named: set<Id>, audit: Audit) {
    && after.scopes == before.scopes && after.audits == before.audits + [audit]
    && (forall id :: id in before.creds ==> id in after.creds)
    && (forall id :: id in before.creds && id !in named ==> after.creds[id] == before.creds[id])
    && (forall id :: id in after.creds ==> id in before.creds || id in named)
  }

  // ----- tokens -----

  /** The token drawn for a credential from 32 random bytes. */
  function TokenOf(raw: seq<Base64Url.Byte>): string {
    "bwb_sbox_" + Base64Url.Encode(raw)
  }

  /** Tokens have the form asked of them, and no two draws the same one. */
  lemma TokensAreWellFormed(raw: seq<Base64Url.Byte>, other: seq<Base64Url.Byte>)
    requires |raw| == 32
    ensures ValidFormat(TokenOf(raw)) && (TokenOf(raw) == TokenOf(other) <==> raw == other)
  {
    var body := Base64Url.Encode(raw);
    Base64Url.SextetsLength(raw);
    assert |body| == 43;
    hide Base64Url.Sextets;
    forall i | 0 <= i < |body|
      ensures InAlphabet(body[i])
    {
      DigitsAreIn(Base64Url.Sextets(raw)[i]);
    }
    assert TokenOf(raw)[..9] == "bwb_sbox_" && TokenOf(raw)[9..] == body;
    assert TokenOf(other)[9..] == Base64Url.Encode(other);
    Base64Url.EncodeInjective(raw, other);
  }

  lemma DigitsAreIn(x: Base64Url.Sextet)
    ensures InAlphabet(Base64Url.Digit(x))
  {
  }

  // ----- issue -----

  /**
   Issue refuses what is missing, an unknown scope, a scope that has an active credential, an identifier or a hash in
   use, and a token that is not delivered, in this order; otherwise it adds one active credential as it was asked for.
   */
  lemma IssueDoes(db: CredDb, p: IssueParams, draw: Draw)
    ensures var tx, scopeId := IssueTx(db, p, draw), TrimSpace(p.scopeId);
            if scopeId == "" then tx == Rollback(Missing("scope_id"))
            else if TrimSpace(p.createdBy) == "" then tx == Rollback(Missing("created_by"))
            else if scopeId !in db.scopes then tx == Rollback(ScopeNotFound)
            else if (exists id :: Has(db, id, scopeId, Active)) || draw.id in db.creds || HashTaken(db, draw.hash)
            then tx == Rollback(CredentialConflict)
            else if !draw.delivered then tx == Rollback(DeliveryFailed)
            else
              && tx.Commit? && tx.value == draw.id
              && OthersKept(db, tx.db, {draw.id}, Audit(IssueAudit, Some(draw.id), draw.now))
              && draw.id in tx.db.creds
              && tx.db.creds[draw.id] ==
                 Credential(scopeId, draw.hash, Active, p.expiresAt, None, None, None, draw.now, TrimSpace(p.createdBy),
                            db.nextRow)
  {
    hide TrimSpace, HashTaken;
  }

  /**
   Right after Issue the new token is accepted exactly in an open scope of that environment and before its expiry; no
   other credential's acceptance changes.
   */
  lemma IssueWindow(db: CredDb, p: IssueParams, draw: Draw, environment: string, id: Id, t: Time)
    requires IssueTx(db, p, draw).Commit?
    ensures TrimSpace(p.scopeId) in db.scopes
    ensures var after, scope := IssueTx(db, p, draw).db, db.scopes[TrimSpace(p.scopeId)];
            Accepted(after, environment, id, t) <==>
            if id == draw.id
            then scope.active && scope.environment == environment && (p.expiresAt == None || t < p.expiresAt.value)
            else Accepted(db, environment, id, t)
  {
    IssueDoes(db, p, draw);
    hide IssueTx, TrimSpace;
  }

  // ----- revoke -----

  /** Revoke refuses what is missing, unknown or revoked already; otherwise it revokes that one credential, now. */
  lemma RevokeDoes(db: CredDb, scopeId: string, id: Id, now: Time)
    ensures var tx, scope := RevokeTx(db, scopeId, id, now), TrimSpace(scopeId);
            if scope == "" then tx == Rollback(Missing("scope_id"))
            else if scope !in db.scopes then tx == Rollback(ScopeNotFound)
            else if !(id in db.creds && db.creds[id].scopeId == scope) then tx == Rollback(CredentialNotFound)
            else if db.creds[id].status == Revoked then tx == Rollback(InvalidState)
            else
              && tx.Commit? && tx.value == id
              && OthersKept(db, tx.db, {id}, Audit(RevokeAudit, Some(id), now)) && id in tx.db.creds
              && (var row := db.creds[id];
                  tx.db.creds[id] ==
                  Credential(row.scopeId, row.tokenHash, Revoked, row.expiresAt, None, row.rotatedFrom, Some(now),
                             row.createdAt, row.createdBy, row.rowId))
  {
    hide TrimSpace;
  }

  /** After Revoke the credential named is accepted at no instant; every other is accepted as before. */
  lemma RevokeWindow(db: CredDb, scopeId: string, named: Id, now: Time, environment: string, id: Id, t: Time)
    requires RevokeTx(db, scopeId, named, now).Commit?
    ensures Accepted(RevokeTx(db, scopeId, named, now).db, environment, id, t) <==>
            id != named && Accepted(db, environment, id, t)
  {
    RevokeDoes(db, scopeId, named, now);
    hide RevokeTx, TrimSpace;
  }

  // ----- rotate -----

  /**
   Rotate refuses what is missing, a deadline that is not in the future, an unknown scope, a scope without an active
   credential, an identifier or a hash in use, and a token that is not delivered, in this order. Otherwise the active
   credential goes to grace until the deadline, a previous grace one is revoked now, and one active credential is added
   that was rotated from the active one.
   */
  lemma RotateDoes(db: CredDb, p: RotateParams, draw: Draw, calledAt: Time, active: Id, grace: Option<Id>)
    requires CredInv(db)
    requires forall id :: Has(db, id, TrimSpace(p.scopeId), Active) ==> Has(db, active, TrimSpace(p.scopeId), Active)
    requires match grace
             case Some(g) => Has(db, g, TrimSpace(p.scopeId), Grace)
             case None => forall id :: !Has(db, id, TrimSpace(p.scopeId), Grace)
    ensures var tx, scopeId := RotateTx(db, p, draw, calledAt), TrimSpace(p.scopeId);
            if scopeId == "" then tx == Rollback(Missing("scope_id"))
            else if TrimSpace(p.createdBy) == "" then tx == Rollback(Missing("created_by"))
            else if p.graceUntil <= calledAt then tx == Rollback(GraceNotFuture)
            else if scopeId !in db.scopes then tx == Rollback(ScopeNotFound)
            else if !Has(db, active, scopeId, Active) then tx == Rollback(NoActiveCredential)
            else if draw.id in db.creds || HashTaken(db, draw.hash) then tx == Rollback(CredentialConflict)
            else if !draw.delivered then tx == Rollback(DeliveryFailed)
            else tx.Commit? && tx.value == draw.id && Rotated(db, tx.db, p, draw, active, grace)
  {
    OnlyOne(db, TrimSpace(p.scopeId), active, grace);
    if RotateTx(db, p, draw, calledAt).Commit? {
      RotateWrites(db, p, draw, calledAt, active, grace) by { hide CredInv, Rotated, TrimSpace, MadeRoom, HashTaken; }
    }
    hide TrimSpace, CredInv, HashTaken, MadeRoom, Rotated, NewRow;
  }

  lemma RotateWrites(db: CredDb, p: RotateParams, draw: Draw, calledAt: Time, active: Id, grace: Option<Id>)
    requires active in db.creds && db.creds[active].scopeId == TrimSpace(p.scopeId)
    requires grace != Some(active) && (grace.Some? ==> grace.value in db.creds)
    requires FindStatus(db, TrimSpace(p.scopeId), Active) == Some(active)
    requires FindStatus(db, TrimSpace(p.scopeId), Grace) == grace
    requires RotateTx(db, p, draw, calledAt).Commit?
    ensures var tx := RotateTx(db, p, draw, calledAt);
            tx.value == draw.id && Rotated(db, tx.db, p, draw, active, grace)
  {
    RoomIs(db, TrimSpace(p.scopeId), active, grace, p.graceUntil, draw.now);
    hide TrimSpace, HashTaken, MadeRoom, FindStatus;
  }

  ghost predicate Rotated(before: CredDb, after: CredDb, p: RotateParams, draw: Draw, active: Id, grace: Option<Id>)
    requires active in before.creds && (grace.Some? ==> grace.value in before.creds)
  {
    var row := before.creds[active];
    && OthersKept(before, after, {draw.id, active} + (if grace.Some? then {grace.value} else {}),
                  Audit(RotateAudit, Some(draw.id), draw.now))
    && draw.id in after.creds && active in after.creds
    && after.creds[draw.id] ==
       Credential(row.scopeId, draw.hash, Active, p.expiresAt, None, Some(active), None, draw.now,
                  TrimSpace(p.createdBy), before.nextRow)
    && after.creds[active] ==
       Credential(row.scopeId, row.tokenHash, Grace, row.expiresAt, Some(p.graceUntil), row.rotatedFrom, None,
                  row.createdAt, row.createdBy, row.rowId)
    && (grace.Some? ==>
          var old_ := before.creds[grace.value];
          && grace.value in after.creds
          && after.creds[grace.value] ==
             Credential(old_.scopeId, old_.tokenHash, Revoked, old_.expiresAt, None, old_.rotatedFrom, Some(draw.now),
                        old_.createdAt, old_.createdBy, old_.rowId))
  }

  lemma RoomIs(db: CredDb, scopeId: string, active: Id, grace: Option<Id>, until: Time, now: Time)
    requires active in db.creds && FindStatus(db, scopeId, Grace) == grace && grace != Some(active)
    ensures grace.Some? ==> grace.value in db.creds
    ensures var room, row := MadeRoom(db, scopeId, active, until, now), db.creds[active];
            && room.scopes == db.scopes && room.audits == db.audits && room.nextRow == db.nextRow
            && room.creds.Keys == db.creds.Keys
            && (forall id :: id in db.creds && id != active && Some(id) != grace ==> room.creds[id] == db.creds[id])
            && room.creds[active] ==
               Credential(row.scopeId, row.tokenHash, Grace, row.expiresAt, Some(until), row.rotatedFrom, None,
                          row.createdAt, row.createdBy, row.rowId)
            && (grace.Some? ==>
                  var old_ := db.creds[grace.value];
                  room.creds[grace.value] ==
                  Credential(old_.scopeId, old_.tokenHash, Revoked, old_.expiresAt, None, old_.rotatedFrom, Some(now),
                             old_.createdAt, old_.createdBy, old_.rowId))
  {
    if grace.Some? {
      assert Has(db, grace.value, scopeId, Grace);
    }
    hide FindStatus;
  }

  /** The queries by status find these credentials, and no others. */
  lemma OnlyOne(db: CredDb, scopeId: string, active: Id, grace: Option<Id>)
    requires CredInv(db)
    ensures Has(db, active, scopeId, Active) ==> FindStatus(db, scopeId, Active) == Some(active)
    ensures grace.Some? && Has(db, grace.value, scopeId, Grace) ==> FindStatus(db, scopeId, Grace) == grace
  {
    hide RowsOk, NoBranch, HashesUnique, FindStatus;
    if Has(db, active, scopeId, Active) {
      FindStatusIs(db, active, scopeId, Active);
    }
    if grace.Some? && Has(db, grace.value, scopeId, Grace) {
      FindStatusIs(db, grace.value, scopeId, Grace);
    }
  }
}
