/**
 The fiscal tables (migrations/sqlite/0001, 0002, 0004, 0012) as values. A table is a map from the column its
 queries filter on: ledger events by document, attempts by submission, responses by attempt. Identifiers are opaque
 names; instants are microseconds.
 */
module Tables {
  import opened Prelude
  import opened Canonical
  import Money
  import Quantity

  type Id = nat
  type Time = int

  datatype Status =
    | Received | Validated | SealedLocally | QueuedForAuthority | AuthorityProcessing
    | AuthorityAccepted | AuthorityRejected | AuthorityOutcomeUnknown | Refused | ContingencyPending

  predicate IsOutcome(s: Status) {
    s.AuthorityAccepted? || s.AuthorityRejected? || s.AuthorityOutcomeUnknown?
  }

  datatype IdemKey = IdemKey(scopeId: string, key: string)
  datatype IdemState = InProgress | Completed
  datatype IdemRecord = IdemRecord(requestHash: string, documentId: Option<Id>, state: IdemState)

  datatype SeriesKey = SeriesKey(scopeId: string, seriesCode: string)

  datatype Document = Document(
    scopeId: string, externalId: string, documentType: string, currency: string, issuedAt: string,
    issuedTimezone: string, issuedOffsetMinutes: int, requestedSeries: Option<string>, seriesCode: string,
    fiscalSeq: nat, sellerTaxId: string, sellerName: string, customerTaxId: Option<string>,
    customerName: Option<string>, createdAt: Time)

  datatype LineRow = LineRow(lineNo: nat, lineId: string, description: string, quantityScaled: Quantity.Scaled,
                             unitPriceCents: Money.Cents, taxCode: string)

  datatype LedgerEvent = LedgerEvent(seqNo: nat, fromStatus: Option<Status>, toStatus: Status, createdAt: Time)

  datatype OutboxState = Pending | InFlight | Succeeded | Dead
  datatype Disposition = NoDisposition | Cancelled | ManualReview
  datatype OutboxRow = OutboxRow(documentId: Id, submissionId: Id, state: OutboxState, disposition: Disposition,
                                 availableAt: Time, updatedAt: Time)

  datatype Attempt = Attempt(id: Id, documentId: Id, attemptNo: nat, sentAt: Time)
  datatype Response = Response(outcome: Status, receivedAt: Time)

  datatype Action = Retry | Cancel | Review
  datatype QueueStatus = QueuePending | QueueCancelled | QueueManualReview
  datatype ActionRecord = ActionRecord(action: Action, submissionId: Id, resultStatus: QueueStatus)

  datatype Db = Db(
    idempotency: map<IdemKey, IdemRecord>,
    counters: map<SeriesKey, nat>,
    documents: map<Id, Document>,
    lines: map<Id, seq<LineRow>>,
    ledger: map<Id, seq<LedgerEvent>>,
    outbox: map<Id, OutboxRow>,
    attempts: map<Id, seq<Attempt>>,
    responses: map<Id, Response>,
    actions: map<string, ActionRecord>)

  const EMPTY_DB := Db(map[], map[], map[], map[], map[], map[], map[], map[], map[])

  /** What a transaction leaves behind: a committed database and a value, or an error and no change. */
  datatype Tx<+T, +E> = Commit(db: Db, value: T) | Rollback(error: E) {
    function After(before: Db): Db {
      if Commit? then db else before
    }

    function Answer(): Result<T, E> {
      if Commit? then Ok(value) else Err(error)
    }
  }

  /** Outbox rows share neither document nor submission. */
  ghost predicate Distinct(outbox: map<Id, OutboxRow>) {
    forall o, p :: o in outbox && p in outbox && o != p ==>
      outbox[o].documentId != outbox[p].documentId && outbox[o].submissionId != outbox[p].submissionId
  }

  /** The rows of a table kept as a map of sequences; no key means no rows. */
  function Rows<T>(table: map<Id, seq<T>>, key: Id): seq<T> {
    if key in table then table[key] else []
  }

  /** SELECT COALESCE(MAX(seq), 0). */
  function MaxSeq(events: seq<LedgerEvent>): nat {
    if events == [] then 0
    else
      var m, e := MaxSeq(events[..|events| - 1]), events[|events| - 1];
      if e.seqNo > m then e.seqNo else m
  }

  /** SELECT ... ORDER BY seq DESC LIMIT 1. */
  function Top(events: seq<LedgerEvent>): LedgerEvent
    requires events != []
  {
    var e := events[|events| - 1];
    if |events| == 1 then e
    else
      var t := Top(events[..|events| - 1]);
      if e.seqNo > t.seqNo then e else t
  }

  function Latest(events: seq<LedgerEvent>): Option<Status> {
    if events == [] then None else Some(Top(events).toStatus)
  }

  /** SELECT MAX(attempt_no). */
  function MaxAttempt(attempts: seq<Attempt>): nat {
    if attempts == [] then 0
    else
      var m, a := MaxAttempt(attempts[..|attempts| - 1]), attempts[|attempts| - 1];
      if a.attemptNo > m then a.attemptNo else m
  }

  /** The moves a ledger can make: out to the authority, back from it, or to a final outcome. */
  predicate LegalMove(a: Status, b: Status) {
    || (a.SealedLocally? && b.AuthorityProcessing?)
    || (a.AuthorityProcessing? && (b.SealedLocally? || IsOutcome(b)))
  }

  /** A document's ledger: numbered 1..n without a gap, each event starting where the previous one ended. */
  ghost predicate Chain(events: seq<LedgerEvent>) {
    && events != []
    && events[0].fromStatus == None && events[0].toStatus == SealedLocally
    && (forall i :: 0 <= i < |events| ==> events[i].seqNo == i + 1)
    && (forall i :: 0 < i < |events| ==>
          && events[i].fromStatus == Some(events[i - 1].toStatus)
          && LegalMove(events[i - 1].toStatus, events[i].toStatus))
  }

  lemma {:induction false} ChainTop(events: seq<LedgerEvent>)
    requires Chain(events)
    ensures MaxSeq(events) == |events| && Top(events) == events[|events| - 1]
    ensures Latest(events) == Some(events[|events| - 1].toStatus)
  {
    NumberedTop(events);
  }

  lemma {:induction false} NumberedTop(events: seq<LedgerEvent>)
    requires events != [] && forall i :: 0 <= i < |events| ==> events[i].seqNo == i + 1
    ensures MaxSeq(events) == |events| && Top(events) == events[|events| - 1]
  {
    if |events| > 1 {
      NumberedTop(events[..|events| - 1]);
    } else {
      assert events[..0] == [];
    }
  }

  lemma {:induction false} TopIsMax(events: seq<LedgerEvent>)
    requires events != []
    ensures Top(events).seqNo <= MaxSeq(events)
  {
    if |events| > 1 {
      TopIsMax(events[..|events| - 1]);
    }
  }

  /** An event numbered after all others is the top one, whatever the others are. */
  lemma AppendedTop(events: seq<LedgerEvent>, e: LedgerEvent)
    requires e.seqNo == MaxSeq(events) + 1
    ensures MaxSeq(events + [e]) == e.seqNo && Latest(events + [e]) == Some(e.toStatus)
  {
    assert (events + [e])[..|events|] == events;
    if events != [] {
      TopIsMax(events);
    }
  }

  lemma ChainExtends(events: seq<LedgerEvent>, to: Status, at: Time)
    requires Chain(events) && LegalMove(events[|events| - 1].toStatus, to)
    ensures Chain(events + [LedgerEvent(|events| + 1, Some(events[|events| - 1].toStatus), to, at)])
  {
  }

  /** On a chain an authority outcome is the last event, so there is at most one. */
  lemma OutcomeIsLast(events: seq<LedgerEvent>, i: nat)
    requires Chain(events) && i < |events| && IsOutcome(events[i].toStatus)
    ensures i == |events| - 1
  {
    assert i + 1 < |events| ==> LegalMove(events[i].toStatus, events[i + 1].toStatus);
  }

  /**
   A document's ledger alternates: sealed, out to the authority, sealed again - until, perhaps, one of the authority's
   three outcomes ends it.
   */
  lemma {:induction false} ChainAlternates(events: seq<LedgerEvent>, i: nat)
    requires Chain(events) && i < |events|
    ensures i % 2 == 1 ==> events[i].toStatus == AuthorityProcessing
    ensures i % 2 == 0 ==>
              || events[i].toStatus == SealedLocally
              || (0 < i == |events| - 1 &&
                  events[i].toStatus in {AuthorityAccepted, AuthorityRejected, AuthorityOutcomeUnknown})
  {
    if i > 0 {
      ChainAlternates(events, i - 1);
      assert LegalMove(events[i - 1].toStatus, events[i].toStatus);
      if IsOutcome(events[i].toStatus) {
        OutcomeIsLast(events, i);
      }
    }
  }

  /** Every status on a chain is one of the five the worker protocol uses. */
  lemma {:induction false} ChainStatuses(events: seq<LedgerEvent>, i: nat)
    requires Chain(events) && i < |events|
    ensures var s := events[i].toStatus; s.SealedLocally? || s.AuthorityProcessing? || IsOutcome(s)
  {
    if i > 0 {
      assert LegalMove(events[i - 1].toStatus, events[i].toStatus);
    }
  }
}
