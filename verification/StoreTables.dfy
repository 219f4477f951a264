/** The tables of the store, updated in place, with the snapshot a rollback goes back to. */
module StoreTables {
  import opened Tables

  class Database {
    var idempotency: map<IdemKey, IdemRecord>
    var counters: map<SeriesKey, nat>
    var documents: map<Id, Document>
    var lines: map<Id, seq<LineRow>>
    var ledger: map<Id, seq<LedgerEvent>>
    var outbox: map<Id, OutboxRow>
    var attempts: map<Id, seq<Attempt>>
    var responses: map<Id, Response>
    var actions: map<string, ActionRecord>

    /** BEGIN IMMEDIATE: what a rollback goes back to. */
    function Snapshot(): Db
      reads this
    {
      Db(idempotency, counters, documents, lines, ledger, outbox, attempts, responses, actions)
    }

    constructor ()
      ensures Snapshot() == EMPTY_DB
    {
      idempotency, counters, documents, lines, ledger := map[], map[], map[], map[], map[];
      outbox, attempts, responses, actions := map[], map[], map[], map[];
    }

    method Rollback(saved: Db)
      modifies this
      ensures Snapshot() == saved
    {
      idempotency, counters, documents, lines := saved.idempotency, saved.counters, saved.documents, saved.lines;
      ledger, outbox, attempts := saved.ledger, saved.outbox, saved.attempts;
      responses, actions := saved.responses, saved.actions;
    }

    /** INSERT INTO ledger_events. */
    method InsertEvent(d: Id, event: LedgerEvent)
      modifies this`ledger
      ensures ledger == old(ledger)[d := Rows(old(ledger), d) + [event]]
    {
      ledger := ledger[d := Rows(ledger, d) + [event]];
    }
  }
}
