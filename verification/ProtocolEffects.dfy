/** What the authority's answers mean, and what becomes of a submission that is released. */
module ProtocolEffects {
  import opened Prelude
  import opened Tables
  import opened Outbox
  import opened OutboxEffects
  import opened Protocol
  import opened ProtocolSafety
  import opened ProtocolTheorems

  /** What a worker does with an answer: a known outcome is persisted under its name, anything else is released. */
  lemma AnswersMean(c: OutboxClaim)
    ensures AfterReply(c, Outcome(Accept)) == Answering(c, AuthorityAccepted)
    ensures AfterReply(c, Outcome(Reject)) == Answering(c, AuthorityRejected)
    ensures AfterReply(c, Outcome(Unknown)) == Answering(c, AuthorityOutcomeUnknown)
    ensures AfterReply(c, Outcome(OtherOutcome)) == Releasing(c)
    ensures AfterReply(c, Unavailable) == Releasing(c) && AfterReply(c, Failure) == Releasing(c)
  {
  }

  lemma AfterRelease(w: World, s: Sys, n: nat, delay: nat)
    requires WorkerAt(s, n).Releasing? && ReleaseTx(s.db, WorkerAt(s, n).claim, s.clock + delay).Commit?
    ensures var t := Apply(w, s, Step(delay, Release(n, false)));
            && t.db == ReleaseTx(s.db, WorkerAt(s, n).claim, s.clock + delay).db
            && WorkerAt(t, n) == Idle && t.clock == s.clock + delay
  {
    hide ReleaseTx;
  }

  /**
   A submission whose authority was unavailable: when the worker's release goes through, the row it still holds in
   flight is pending, due five seconds on, its ledger back at sealed; it can be claimed from that instant on, and no
   sooner.
   */
  lemma ReleasedIsClaimableAgain(w: World, s: Sys, n: nat, delay: nat, later: Time)
    requires Reachable(w, s) && WorkerAt(s, n).Releasing?
    requires WorkerAt(s, n).claim.id in s.db.outbox && s.db.outbox[WorkerAt(s, n).claim.id].state == InFlight
    ensures var c := WorkerAt(s, n).claim;
            var now := s.clock + delay;
            var t := Apply(w, s, Step(delay, Release(n, false)));
            && Requeued(s.db, t.db, c, now) && WorkerAt(t, n) == Idle
            && (Claimable(ReclaimAll(t.db.outbox, later), c.id, later) <==> later >= now + 5_000_000)
  {
    hide Inv, ReleaseTx, Requeued, OnlyReleased, RowInv, Apply, Reachable;
    var c := WorkerAt(s, n).claim;
    ReachableInv(w, s);
    WorkerAtFits(s, n) by { InvParts(w, s); }
    InvRow(w, s, c.id);
    ReleaseDoes(s.db, c, s.clock + delay);
    AfterRelease(w, s, n, delay);
    ReleasedRow(s.db, ReleaseTx(s.db, c, s.clock + delay).db, c, s.clock + delay, later);
  }
}
