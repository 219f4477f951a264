/**
 Operator queue actions (internal/adminops/actions.go): the idempotency lookup, and the optimistic transaction that
 follows it.
 */
module Operator {
  import opened Prelude
  import opened Tables
  import opened Outbox
  import opened Text

  datatype OpsError =
    | FieldMissing | UnknownAction | VersionMissing | ForbiddenEnvironment
    | NotFound | KeyConflict | StaleVersion | TerminalState | KeyRace

  /** A request as it comes; no version is Go's zero time. */
  datatype ActionRequest = ActionRequest(submissionId: string, action: string, key: string,
                                         expectedUpdatedAt: Option<Time>, authorityMode: string, fiscalEnv: string)

  /** A validated request; `stamp` is the instant the call took before its transaction. */
  datatype ActionInput = ActionInput(submissionId: Id, action: Action, key: string, expectedUpdatedAt: Time,
                                     stamp: Time)

  datatype ActionResult = ActionResult(submissionId: Id, queueStatus: QueueStatus, outboxState: OutboxState,
                                       disposition: Disposition, idempotentReplay: bool, updatedAt: Time)

  // ----- what is checked before anything is looked up -----

  function ActionNamed(name: string): Option<Action> {
    if name == "retry" then Some(Retry)
    else if name == "cancel" then Some(Cancel)
    else if name == "manual_review" then Some(Review)
    else None
  }

  /** GuardSimulatorNotProduction: no mode means the simulator, and the simulator does not act in production. */
  predicate Guarded(authorityMode: string, fiscalEnv: string) {
    var mode, env := ToLower(TrimSpace(authorityMode)), ToLower(TrimSpace(fiscalEnv));
    !((mode == "" || mode == "simulator") && env == "production")
  }

  /** The checks in their order; `idOf` names submissions, `now` is the instant of the call. */
  function Admitted(req: ActionRequest, idOf: string -> Id, now: Time): Result<ActionInput, OpsError> {
    var submissionId, action, key := TrimSpace(req.submissionId), TrimSpace(req.action), TrimSpace(req.key);
    if submissionId == "" || action == "" || key == "" then Err(FieldMissing)
    else if ActionNamed(action).None? then Err(UnknownAction)
    else if req.expectedUpdatedAt.None? then Err(VersionMissing)
    else if !Guarded(req.authorityMode, req.fiscalEnv) then Err(ForbiddenEnvironment)
    else Ok(ActionInput(idOf(submissionId), ActionNamed(action).value, key, req.expectedUpdatedAt.value, now))
  }

  /** Padding changes nothing in what is admitted: neither whether, nor under which key, nor for which submission. */
  lemma PaddingIsIgnored(req: ActionRequest, idOf: string -> Id, now: Time)
    ensures Admitted(req, idOf, now) ==
            Admitted(ActionRequest(TrimSpace(req.submissionId), TrimSpace(req.action), TrimSpace(req.key),
                                   req.expectedUpdatedAt, TrimSpace(req.authorityMode), TrimSpace(req.fiscalEnv)),
                     idOf, now)
    ensures Admitted(req, idOf, now).Ok? <==>
            && !Blank(req.submissionId) && !Blank(req.key) && ActionNamed(TrimSpace(req.action)).Some?
            && req.expectedUpdatedAt.Some? && Guarded(req.authorityMode, req.fiscalEnv)
  {
    TrimSpaceTrims(req.submissionId);
    TrimSpaceTrims(req.action);
    TrimSpaceTrims(req.key);
    TrimSpaceTrims(req.authorityMode);
    TrimSpaceTrims(req.fiscalEnv);
    hide TrimSpace, ToLower;
  }

  ghost predicate HasSubmission(db: Db, o: Id, submissionId: Id) {
    o in db.outbox && db.outbox[o].submissionId == submissionId
  }

  /** SELECT ... WHERE submission_id = ?. */
  ghost function RowOf(db: Db, submissionId: Id): (r: Option<Id>)
    ensures r.Some? ==> HasSubmission(db, r.value, submissionId)
    ensures r.None? ==> forall o :: !HasSubmission(db, o, submissionId)
  {
    if exists o :: HasSubmission(db, o, submissionId) then
      var o :| HasSubmission(db, o, submissionId);
      Some(o)
    else None
  }

  function NewState(action: Action): OutboxState {
    if action.Retry? then Pending else Dead
  }

  function NewDisposition(action: Action): Disposition {
    match action
    case Retry => NoDisposition
    case Cancel => Cancelled
    case Review => ManualReview
  }

  function ResultStatus(action: Action): QueueStatus {
    match action
    case Retry => QueuePending
    case Cancel => QueueCancelled
    case Review => QueueManualReview
  }

  /** Success is final for every action, cancellation for all but another cancellation. */
  predicate Terminal(row: OutboxRow, action: Action) {
    row.state.Succeeded? || (row.disposition.Cancelled? && !action.Cancel?)
  }

  function Acted(row: OutboxRow, action: Action, stamp: Time): OutboxRow {
    row.(state := NewState(action), disposition := NewDisposition(action),
         availableAt := if action.Retry? then stamp else row.availableAt, updatedAt := stamp)
  }

  datatype Lookup = Unused | Found(result: Result<ActionResult, OpsError>)

  /** The lookup that precedes the transaction. */
  ghost function LookupKey(db: Db, input: ActionInput): Lookup {
    if input.key !in db.actions then Unused
    else
      var prev := db.actions[input.key];
      if prev.action != input.action || prev.submissionId != input.submissionId then Found(Err(KeyConflict))
      else
        match RowOf(db, input.submissionId)
        case None => Found(Err(NotFound))
        case Some(o) =>
          var row := db.outbox[o];
          Found(Ok(ActionResult(input.submissionId, prev.resultStatus, row.state, row.disposition, true,
                                row.updatedAt)))
  }

  ghost function ActTx(db: Db, input: ActionInput): Tx<ActionResult, OpsError> {
    match RowOf(db, input.submissionId)
    case None => Rollback(NotFound)
    case Some(o) =>
      var row := db.outbox[o];
      if row.updatedAt != input.expectedUpdatedAt then Rollback(StaleVersion)
      else if Terminal(row, input.action) then Rollback(TerminalState)
      else if input.key in db.actions then Rollback(KeyRace)
      else
        var acted := Acted(row, input.action, input.stamp);
        Commit(db.(outbox := db.outbox[o := acted],
                   actions := db.actions[input.key :=
                                ActionRecord(input.action, input.submissionId, ResultStatus(input.action))]),
               ActionResult(input.submissionId, ResultStatus(input.action), acted.state, acted.disposition, false,
                            input.stamp))
  }

  /** What an action makes of a row: no success appears, none is undone, and a cancellation stays one. */
  lemma ActedKeepsRow(before: Db, after: Db, o: Id, action: Action, stamp: Time)
    requires o in before.outbox && RowInv(before, o) && !Terminal(before.outbox[o], action)
    requires o in after.outbox && after.outbox[o] == Acted(before.outbox[o], action, stamp)
    requires after.ledger == before.ledger && after.attempts == before.attempts && after.responses == before.responses
    ensures RowInv(after, o) && RowStep(before, after, o)
  {
    hide Chain;
  }

  lemma ActTouchesOneRow(db: Db, input: ActionInput, o: Id)
    requires ActTx(db, input).Commit? && RowOf(db, input.submissionId) == Some(o)
    requires db.outbox[o].documentId in db.ledger
    ensures OnlyTouches(db, ActTx(db, input).db, o)
  {
    var after := ActTx(db, input).db;
    assert after.outbox == db.outbox[o := Acted(db.outbox[o], input.action, input.stamp)];
    hide OnlyTouches, ActTx, RowOf;
    RowReplaced(db, after, o);
  }

  lemma ActStepsRow(db: Db, input: ActionInput)
    requires ActTx(db, input).Commit? && AllRows(db)
    ensures RowOf(db, input.submissionId).Some?
    ensures StepsRow(db, ActTx(db, input).db, RowOf(db, input.submissionId).value)
  {
    var o := RowOf(db, input.submissionId).value;
    RowHasChain(db, o);
    hide Chain, AllRows, RowInv, RowStep, OnlyTouches;
    ActedKeepsRow(db, ActTx(db, input).db, o, input.action, input.stamp);
    ActTouchesOneRow(db, input, o);
  }

  lemma RowOfUnique(db: Db, o: Id)
    requires Distinct(db.outbox) && o in db.outbox
    ensures RowOf(db, db.outbox[o].submissionId) == Some(o)
  {
    assert HasSubmission(db, o, db.outbox[o].submissionId);
  }

  /**
   Two actions naming the same version of a submission, one right after the other: the second gets past the version
   check if and only if the first was stamped with that very version, that is, when the clock had not advanced since
   the row was last written.
   */
  lemma SecondActionOnOneVersion(db: Db, first: ActionInput, second: ActionInput)
    requires Distinct(db.outbox) && ActTx(db, first).Commit?
    requires second.submissionId == first.submissionId && second.expectedUpdatedAt == first.expectedUpdatedAt
    ensures ActTx(ActTx(db, first).db, second) != Rollback(StaleVersion) <==> first.stamp == first.expectedUpdatedAt
  {
    var o := RowOf(db, first.submissionId).value;
    RowOfUnique(ActTx(db, first).db, o) by {
      assert Distinct(ActTx(db, first).db.outbox);
    }
  }

  /** A key that committed answers every later lookup: a replay in the same context, a conflict in another. */
  lemma CommittedKeyAnswers(db: Db, input: ActionInput, later: ActionInput)
    requires Distinct(db.outbox) && ActTx(db, input).Commit? && later.key == input.key
    ensures var after := ActTx(db, input).db;
            if later.action == input.action && later.submissionId == input.submissionId
            then LookupKey(after, later) == Found(Ok(ActTx(db, input).value.(idempotentReplay := true)))
            else LookupKey(after, later) == Found(Err(KeyConflict))
  {
    var o := RowOf(db, input.submissionId).value;
    RowOfUnique(ActTx(db, input).db, o) by {
      assert Distinct(ActTx(db, input).db.outbox);
    }
  }
}
