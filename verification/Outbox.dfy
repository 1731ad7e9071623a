/** Reading the outbox and forwarding it to Kafka: the pieces the relay is made of. */
module Outbox {
  import opened Ledger

  /** A row as the worker fetched it. */
  datatype Fetched = Fetched(id: EventId, event: Event)

  /** One copy of an event in the topic; `acked` says whether its write was confirmed. */
  datatype Record = Record(event: EventId, key: UserId, payload: Payload, acked: bool)

  const BATCH_SIZE: nat := 10

  /** The batch is what `WHERE published_at IS NULL ORDER BY created_at ASC LIMIT $1` may
      return; the order among equal timestamps is up to the database. */
  predicate IsFetch(table: Events, limit: nat, batch: seq<Fetched>) {
    && |batch| <= limit
    && (forall i :: 0 <= i < |batch| ==> IsUnpublished(table, batch[i]))
    && (forall i, j :: 0 <= i < j < |batch| ==> batch[i].id != batch[j].id)
    && (forall i, j :: 0 <= i < j < |batch| ==> batch[i].event.createdAt <= batch[j].event.createdAt)
    && (forall e :: e in table && !table[e].published && !InBatch(batch, e) ==>
          |batch| == limit && forall i :: 0 <= i < |batch| ==> batch[i].event.createdAt <= table[e].createdAt)
  }

  predicate IsUnpublished(table: Events, f: Fetched) {
    f.id in table && table[f.id] == f.event && !f.event.published
  }

  predicate InBatch(batch: seq<Fetched>, e: EventId) {
    exists i :: 0 <= i < |batch| && batch[i].id == e
  }

  /** The copy that one attempt to write this row appends; its key is the sender. */
  function Copy(f: Fetched, acked: bool): Record {
    Record(f.id, f.event.payload.sender, f.event.payload, acked)
  }

  function Unconfirmed(f: Fetched, copies: nat): (r: seq<Record>)
    ensures |r| == copies && forall i :: 0 <= i < copies ==> r[i] == Copy(f, false)
  {
    if copies == 0 then [] else Unconfirmed(f, copies - 1) + [Copy(f, false)]
  }

  /** What one Publish call appends. The writer retries inside the call: `copies` attempts reached the
      topic without being confirmed, and the last attempt may have been confirmed. */
  function Written(f: Fetched, copies: nat, acked: bool): seq<Record> {
    Unconfirmed(f, copies) + if acked then [Copy(f, true)] else []
  }
}
