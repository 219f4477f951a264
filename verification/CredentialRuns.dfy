/** Credentials over whole runs of Issue, Rotate and Revoke, and which of them open the door when. */
module CredentialRuns {
  import opened Prelude
  import opened Text
  import opened Credentials

  datatype Step =
    | OpenScope(scopeId: string, environment: string)
    | IssueStep(issue: IssueParams, draw: Draw)
    | RotateStep(rotate: RotateParams, draw: Draw, calledAt: Time)
    | RevokeStep(scopeId: string, id: Id, now: Time)

  ghost function Apply(db: CredDb, step: Step): CredDb {
    match step
    case OpenScope(scopeId, environment) =>
      if scopeId in db.scopes then db else db.(scopes := db.scopes[scopeId := Scope(true, environment)])
    case IssueStep(p, draw) => IssueTx(db, p, draw).After(db)
    case RotateStep(p, draw, calledAt) => RotateTx(db, p, draw, calledAt).After(db)
    case RevokeStep(scopeId, id, now) => RevokeTx(db, scopeId, id, now).After(db)
  }

  ghost function Run(db: CredDb, steps: seq<Step>): CredDb {
    if steps == [] then db else Apply(Run(db, steps[..|steps| - 1]), steps[|steps| - 1])
  }

  ghost predicate Reachable(db: CredDb) {
    exists steps :: db == Run(EMPTY, steps)
  }

  /** A credential never gets younger: active, then grace until a fixed instant, then revoked for good. */
  predicate RowHistory(before: Credential, after: Credential) {
    && after == before.(status := after.status, graceUntil := after.graceUntil, revokedAt := after.revokedAt)
    && (before.status.Grace? ==> after == before || after.status.Revoked?)
    && (before.status.Revoked? ==> after == before)
  }

  ghost predicate History(before: CredDb, after: CredDb) {
    && before.audits <= after.audits
    && (forall s :: s in before.scopes ==> s in after.scopes && after.scopes[s] == before.scopes[s])
    && (forall id :: id in before.creds ==> id in after.creds && RowHistory(before.creds[id], after.creds[id]))
  }

  lemma StepHistory(db: CredDb, step: Step)
    requires CredInv(db)
    ensures History(db, Apply(db, step))
  {
    hide CredInv, FindStatus, HashTaken;
    if step.RotateStep? && RotateTx(db, step.rotate, step.draw, step.calledAt).Commit? {
      var scopeId := TrimSpace(step.rotate.scopeId);
      RoomHistory(db, scopeId, FindStatus(db, scopeId, Active).value, step.rotate.graceUntil, step.draw.now);
    }
  }

  lemma RoomHistory(db: CredDb, scopeId: string, active: Id, graceUntil: Time, now: Time)
    requires Has(db, active, scopeId, Active)
    ensures History(db, MadeRoom(db, scopeId, active, graceUntil, now))
  {
    hide FindStatus;
    if FindStatus(db, scopeId, Grace).Some? {
      assert Has(db, FindStatus(db, scopeId, Grace).value, scopeId, Grace);
    }
  }

  lemma StepKeeps(db: CredDb, step: Step)
    requires CredInv(db)
    ensures CredInv(Apply(db, step))
  {
    hide IssueTx, RotateTx, RevokeTx;
    match step
    case OpenScope(_, _) =>
    case IssueStep(p, draw) => IssueKeeps(db, p, draw);
    case RotateStep(p, draw, calledAt) => RotateKeeps(db, p, draw, calledAt);
    case RevokeStep(scopeId, id, now) => RevokeTxKeeps(db, scopeId, id, now);
  }

  lemma {:induction false} RunKeeps(db: CredDb, steps: seq<Step>)
    requires CredInv(db)
    ensures CredInv(Run(db, steps)) && History(db, Run(db, steps))
  {
    hide Apply, CredInv;
    if steps != [] {
      var prefix := steps[..|steps| - 1];
      RunKeeps(db, prefix);
      StepKeeps(Run(db, prefix), steps[|steps| - 1]);
      StepHistory(Run(db, prefix), steps[|steps| - 1]);
    }
  }

  lemma ReachableInv(db: CredDb)
    requires Reachable(db)
    ensures CredInv(db)
  {
    hide Run;
    var steps :| db == Run(EMPTY, steps);
    RunKeeps(EMPTY, steps);
  }

  // ----- chains -----

  /** The credentials a credential goes back to through rotated_from, itself first. */
  ghost function Lineage(db: CredDb, id: Id): (r: seq<Id>)
    requires CredInv(db) && id in db.creds
    decreases db.creds[id].rowId
  {
    var from := db.creds[id].rotatedFrom;
    if from.None? then [id] else [id] + Lineage(db, from.value)
  }

  /** A lineage goes strictly back in time within one scope, so it never loops; only its head can be active. */
  lemma {:induction false} LineageIsAChain(db: CredDb, id: Id)
    requires CredInv(db) && id in db.creds
    ensures var chain := Lineage(db, id);
            && chain != [] && chain[0] == id
            && (forall i :: 0 <= i < |chain| ==>
                  chain[i] in db.creds && db.creds[chain[i]].scopeId == db.creds[id].scopeId)
            && (forall i :: 0 < i < |chain| ==> !db.creds[chain[i]].status.Active?)
            && (forall i, j :: 0 <= i < j < |chain| ==> db.creds[chain[j]].rowId < db.creds[chain[i]].rowId)
    decreases db.creds[id].rowId
  {
    hide OneEach, NoBranch, HashesUnique;
    if db.creds[id].rotatedFrom.Some? {
      LineageIsAChain(db, db.creds[id].rotatedFrom.value);
    }
  }

  /** Lineages do not branch: of two that meet, one contains the other. */
  lemma {:induction false} LineagesDoNotBranch(db: CredDb, a: Id, b: Id, c: Id)
    requires CredInv(db) && a in db.creds && b in db.creds && c in Lineage(db, a) && c in Lineage(db, b)
    ensures a in Lineage(db, b) || b in Lineage(db, a)
    decreases db.creds[a].rowId + db.creds[b].rowId
  {
    hide OneEach, HashesUnique;
    var fromA, fromB := db.creds[a].rotatedFrom, db.creds[b].rotatedFrom;
    if c != a && c != b {
      LineagesDoNotBranch(db, fromA.value, fromB.value, c);
      if fromA.value in Lineage(db, fromB.value) {
        LastBefore(db, a, fromB.value, b);
      } else {
        LastBefore(db, b, fromA.value, a);
      }
    }
  }

  /** If a's predecessor is on the lineage of b's predecessor x, then a is on b's lineage. */
  lemma {:induction false} LastBefore(db: CredDb, a: Id, x: Id, b: Id)
    requires CredInv(db) && a in db.creds && b in db.creds && x in db.creds
    requires db.creds[a].rotatedFrom.Some? && db.creds[b].rotatedFrom == Some(x)
    requires db.creds[a].rotatedFrom.value in Lineage(db, x)
    ensures a in Lineage(db, b)
    decreases db.creds[b].rowId
  {
    hide OneEach, HashesUnique;
    if db.creds[a].rotatedFrom.value != x {
      var y := db.creds[x].rotatedFrom.value;
      LastBefore(db, a, y, x);
    }
  }

  // ----- the door -----

  predicate Expired(row: Credential, now: Time) {
    row.expiresAt.Some? && row.expiresAt.value <= now
  }

  /** credentialAcceptable. */
  predicate Acceptable(row: Credential, scope: Scope, environment: string, now: Time) {
    && scope.active && scope.environment == environment
    && row.revokedAt.None?
    && match row.status
       case Active => !Expired(row, now)
       case Grace => !Expired(row, now) && row.graceUntil.Some? && now < row.graceUntil.value
       case Revoked => false
  }

  /** The credential of a token hash opens the door of its scope at an instant. */
  ghost predicate Accepted(db: CredDb, environment: string, id: Id, now: Time) {
    && id in db.creds && db.creds[id].scopeId in db.scopes
    && Acceptable(db.creds[id], db.scopes[db.creds[id].scopeId], environment, now)
  }

  /** At any instant at most two tokens of a scope are accepted: among any three, two are the same. */
  lemma AtMostTwoAccepted(db: CredDb, environment: string, a: Id, b: Id, c: Id, now: Time)
    requires Reachable(db)
    requires Accepted(db, environment, a, now) && Accepted(db, environment, b, now) && Accepted(db, environment, c, now)
    requires db.creds[a].scopeId == db.creds[b].scopeId == db.creds[c].scopeId
    ensures a == b || b == c || a == c
  {
    ReachableInv(db);
    hide RowsOk, NoBranch, HashesUnique, Reachable;
  }

  /** A token once revoked is never accepted again, in any continuation, at any instant. */
  lemma RevokedNeverAccepted(db: CredDb, id: Id, future: seq<Step>, environment: string, now: Time)
    requires Reachable(db) && id in db.creds && db.creds[id].status.Revoked?
    ensures !Accepted(Run(db, future), environment, id, now)
  {
    hide CredInv, Reachable, Run;
    ReachableInv(db);
    RunKeeps(db, future);
  }

  /** A token in grace is never accepted from its deadline on, whatever happens after. */
  lemma GraceEndsOnTime(db: CredDb, id: Id, future: seq<Step>, environment: string, now: Time)
    requires Reachable(db) && id in db.creds && db.creds[id].status.Grace?
    ensures db.creds[id].graceUntil.Some?
    ensures now >= db.creds[id].graceUntil.value ==> !Accepted(Run(db, future), environment, id, now)
  {
    hide Reachable, Run, OneEach, NoBranch, HashesUnique;
    ReachableInv(db);
    RunKeeps(db, future);
    assert Coherent(db.creds[id]);
  }

  /**
   What a rotation does to the door: right after it the new token is accepted until it expires, the token it replaced
   until the earlier of its expiry and the grace deadline, and no other token of the scope at all.
   */
  lemma RotationWindows(db: CredDb, p: RotateParams, draw: Draw, calledAt: Time, environment: string, t: Time, id: Id)
    requires Reachable(db) && RotateTx(db, p, draw, calledAt).Commit?
    requires id in RotateTx(db, p, draw, calledAt).db.creds
    requires RotateTx(db, p, draw, calledAt).db.creds[id].scopeId == TrimSpace(p.scopeId)
    ensures var scopeId := TrimSpace(p.scopeId);
            var replaced := FindStatus(db, scopeId, Active).value;
            scopeId in db.scopes && replaced in db.creds &&
            var open := db.scopes[scopeId].active && db.scopes[scopeId].environment == environment;
            Accepted(RotateTx(db, p, draw, calledAt).db, environment, id, t) <==>
              open &&
              if id == draw.id then p.expiresAt.None? || t < p.expiresAt.value
              else id == replaced && t < p.graceUntil && !Expired(db.creds[replaced], t)
  {
    hide CredInv, Reachable, FindStatus, HashTaken, MadeRoom;
    ReachableInv(db);
    var scopeId := TrimSpace(p.scopeId);
    var active := FindStatus(db, scopeId, Active).value;
    var room := MadeRoom(db, scopeId, active, p.graceUntil, draw.now);
    MakingRoom(db, scopeId, active, p.graceUntil, draw.now);
    DemotedRow(db, scopeId, active, p.graceUntil, draw.now);
    if id != draw.id && id != active {
      OnlyGraceLeft(room, scopeId, active, id);
    }
  }

  lemma DemotedRow(db: CredDb, scopeId: string, active: Id, graceUntil: Time, now: Time)
    requires Has(db, active, scopeId, Active)
    ensures var row := MadeRoom(db, scopeId, active, graceUntil, now).creds[active];
            row == db.creds[active].(status := Grace, graceUntil := Some(graceUntil), revokedAt := None)
  {
    hide FindStatus;
    if FindStatus(db, scopeId, Grace).Some? {
      assert Has(db, FindStatus(db, scopeId, Grace).value, scopeId, Grace);
    }
  }

  lemma OnlyGraceLeft(room: CredDb, scopeId: string, active: Id, id: Id)
    requires CredInv(room) && FindStatus(room, scopeId, Active).None? && Has(room, active, scopeId, Grace)
    requires id in room.creds && room.creds[id].scopeId == scopeId && id != active
    ensures room.creds[id].status.Revoked?
  {
    hide RowsOk, NoBranch, HashesUnique;
    assert !Has(room, id, scopeId, Active);
  }
}
