/**
 What an operator's call does, by the text of its action (internal/adminops/actions.go): the row it leaves, the record
 of its key, and what it answers.
 */
module OperatorEffects {
  import opened Prelude
  import opened Text
  import opened Tables
  import opened Outbox
  import opened Operator

  /** The row after a call, with the answer, by the text of the action. */
  predicate RowAfter(text: string, before: OutboxRow, after: OutboxRow, status: QueueStatus, now: Time) {
    && after.documentId == before.documentId && after.submissionId == before.submissionId && after.updatedAt == now
    && (text == "retry" ==>
          && after.state == Pending && after.disposition == NoDisposition && after.availableAt == now
          && status == QueuePending)
    && (text == "cancel" ==>
          && after.state == Dead && after.disposition == Cancelled && after.availableAt == before.availableAt
          && status == QueueCancelled)
    && (text == "manual_review" ==>
          && after.state == Dead && after.disposition == ManualReview && after.availableAt == before.availableAt
          && status == QueueManualReview)
    && (text == "retry" || text == "cancel" || text == "manual_review")
  }

  /** What a committed call leaves: one row changed, one key recorded, and the answer read off the row. */
  ghost predicate Effected(before: Db, after: Db, o: Id, req: ActionRequest, idOf: string -> Id, now: Time,
                           r: ActionResult) {
    var submissionId, text := idOf(TrimSpace(req.submissionId)), TrimSpace(req.action);
    && o in before.outbox && before.outbox[o].submissionId == submissionId
    && after.outbox.Keys == before.outbox.Keys
    && (forall p :: p in before.outbox && p != o ==> after.outbox[p] == before.outbox[p])
    && RowAfter(text, before.outbox[o], after.outbox[o], r.queueStatus, now)
    && after == before.(outbox := after.outbox, actions := after.actions)
    && TrimSpace(req.key) !in before.actions && TrimSpace(req.key) in after.actions
    && (forall k :: k in before.actions ==> k in after.actions && after.actions[k] == before.actions[k])
    && (var rec := after.actions[TrimSpace(req.key)];
        && rec.submissionId == submissionId && rec.resultStatus == r.queueStatus
        && (rec.action == Retry <==> text == "retry") && (rec.action == Cancel <==> text == "cancel"))
    && r == ActionResult(submissionId, r.queueStatus, after.outbox[o].state, after.outbox[o].disposition, false, now)
  }

  /** The three names, and what is made of the rest of a request. */
  lemma AdmittedMeans(req: ActionRequest, idOf: string -> Id, now: Time)
    requires Admitted(req, idOf, now).Ok?
    ensures var input := Admitted(req, idOf, now).value;
            && input.submissionId == idOf(TrimSpace(req.submissionId)) && input.key == TrimSpace(req.key)
            && req.expectedUpdatedAt == Some(input.expectedUpdatedAt) && input.stamp == now
            && (input.action == Retry <==> TrimSpace(req.action) == "retry")
            && (input.action == Cancel <==> TrimSpace(req.action) == "cancel")
            && (input.action == Review <==> TrimSpace(req.action) == "manual_review")
  {
    hide TrimSpace, ToLower;
  }

  /** A call that commits has the effect its text names. */
  lemma CommittedActionDoes(db: Db, req: ActionRequest, idOf: string -> Id, now: Time)
    requires Admitted(req, idOf, now).Ok? && ActTx(db, Admitted(req, idOf, now).value).Commit?
    ensures var input := Admitted(req, idOf, now).value;
            && RowOf(db, input.submissionId).Some?
            && Effected(db, ActTx(db, input).db, RowOf(db, input.submissionId).value, req, idOf, now,
                        ActTx(db, input).value)
  {
    hide TrimSpace, ToLower, Admitted;
    AdmittedMeans(req, idOf, now);
    var input := Admitted(req, idOf, now).value;
    var o := RowOf(db, input.submissionId).value;
    assert "retry"[0] == 'r' && "cancel"[0] == 'c' && "manual_review"[0] == 'm';
    NamesDiffer();
  }

  lemma NamesDiffer()
    ensures "retry" != "cancel" && "retry" != "manual_review" && "cancel" != "manual_review"
  {
    assert |"retry"| != |"cancel"| && |"retry"| != |"manual_review"| && |"cancel"| != |"manual_review"|;
  }

  /** What the transaction answers, on the row of the submission: the first guard that fails, or the commit. */
  lemma ActionAnswers(db: Db, input: ActionInput, o: Id)
    requires Distinct(db.outbox) && o in db.outbox && db.outbox[o].submissionId == input.submissionId
    ensures var row := db.outbox[o];
            if row.updatedAt != input.expectedUpdatedAt then ActTx(db, input) == Rollback(StaleVersion)
            else if row.state == Succeeded || (row.disposition == Cancelled && input.action != Cancel)
            then ActTx(db, input) == Rollback(TerminalState)
            else if input.key in db.actions then ActTx(db, input) == Rollback(KeyRace)
            else ActTx(db, input).Commit? && RowOf(db, input.submissionId) == Some(o)
  {
    RowOfUnique(db, o);
  }

  lemma UnknownSubmission(db: Db, input: ActionInput)
    requires forall o :: o in db.outbox ==> db.outbox[o].submissionId != input.submissionId
    ensures ActTx(db, input) == Rollback(NotFound)
  {
    forall o
      ensures !HasSubmission(db, o, input.submissionId)
    {
    }
  }

  predicate SameLetters(a: string, b: string) {
    |a| == |b| && forall i :: 0 <= i < |a| ==> LowerCase(a[i]) == b[i]
  }

  /** The simulator, which is also what no mode means, does not act in production, in any case and padding. */
  lemma GuardMeans(authorityMode: string, fiscalEnv: string)
    ensures Guarded(authorityMode, fiscalEnv) <==>
            !((Blank(authorityMode) || SameLetters(TrimSpace(authorityMode), "simulator"))
              && SameLetters(TrimSpace(fiscalEnv), "production"))
  {
    hide TrimSpace;
    var mode, env := ToLower(TrimSpace(authorityMode)), ToLower(TrimSpace(fiscalEnv));
    assert mode == "simulator" <==> SameLetters(TrimSpace(authorityMode), "simulator");
    assert env == "production" <==> SameLetters(TrimSpace(fiscalEnv), "production");
    hide ToLower, SameLetters;
  }

  /** The first check that fails is the one reported. */
  lemma RefusalsMean(req: ActionRequest, idOf: string -> Id, now: Time)
    ensures Admitted(req, idOf, now) == Err(FieldMissing) <==>
            Blank(req.submissionId) || Blank(req.action) || Blank(req.key)
    ensures Admitted(req, idOf, now) == Err(UnknownAction) <==>
            !Blank(req.submissionId) && !Blank(req.action) && !Blank(req.key)
            && TrimSpace(req.action) !in {"retry", "cancel", "manual_review"}
    ensures Admitted(req, idOf, now) == Err(VersionMissing) <==>
            && !Blank(req.submissionId) && !Blank(req.key) && req.expectedUpdatedAt == None
            && TrimSpace(req.action) in {"retry", "cancel", "manual_review"}
    ensures Admitted(req, idOf, now) == Err(ForbiddenEnvironment) <==>
            && !Blank(req.submissionId) && !Blank(req.key) && req.expectedUpdatedAt != None
            && TrimSpace(req.action) in {"retry", "cancel", "manual_review"}
            && !Guarded(req.authorityMode, req.fiscalEnv)
  {
    hide TrimSpace, ToLower;
  }
}
