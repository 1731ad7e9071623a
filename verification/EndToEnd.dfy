/** A consumer that reads the topic and ignores repeats ends up with the ledger. */
module EndToEnd {
  import opened Wrappers
  import opened Numeric
  import opened Ledger
  import opened LedgerLaws
  import opened MapSum
  import opened Outbox
  import opened Machine
  import opened MachineLaws
  import opened Serializability
  import opened Delivery

  predicate Known(ps: seq<Payload>, id: TxnId) {
    exists i :: 0 <= i < |ps| && ps[i].txnId == id
  }

  /** The payloads in the topic, acknowledged or not, each transaction only the first time. */
  function Dedup(topic: seq<Record>): seq<Payload> {
    if topic == [] then []
    else
      var init, p := Dedup(topic[..|topic| - 1]), topic[|topic| - 1].payload;
      if Known(init, p.txnId) then init else init + [p]
  }

  /** What replaying the payloads, with the ledger's own rounding, does to the balance of u. */
  function ReplayFor(ps: seq<Payload>, u: UserId): int {
    if ps == [] then 0
    else ReplayFor(ps[..|ps| - 1], u) + MovedBy(u)(ps[|ps| - 1])
  }

  function MovedBy(u: UserId): Payload -> int {
    (p: Payload) => Moved(p.sender, p.receiver, p.amount, u)
  }

  /** For amounts of whole cents, replaying is plain addition and subtraction of the amount. */
  lemma WholeCentsReplayPlainly(p: Payload, u: UserId)
    requires TwoDecimal(p.amount)
    ensures MovedBy(u)(p) * Unit(p.amount) ==
            (if u == p.receiver then Scaled(p.amount) else 0) - (if u == p.sender then Scaled(p.amount) else 0)
  {
    DebitCreditGap(p.amount);
  }

  ghost predicate Distinct(ps: seq<Payload>) {
    forall i, j :: 0 <= i < j < |ps| ==> ps[i].txnId != ps[j].txnId
  }

  function ById(ps: seq<Payload>): map<TxnId, Payload> {
    if ps == [] then map[]
    else ById(ps[..|ps| - 1])[ps[|ps| - 1].txnId := ps[|ps| - 1]]
  }

  lemma {:induction false} ByIdHolds(ps: seq<Payload>)
    requires Distinct(ps)
    ensures forall i :: 0 <= i < |ps| ==> ps[i].txnId in ById(ps) && ById(ps)[ps[i].txnId] == ps[i]
    ensures forall id :: id in ById(ps) ==> Known(ps, id)
    decreases |ps|
  {
    if ps != [] {
      var init := ps[..|ps| - 1];
      ByIdHolds(init);
      forall id | id in ById(ps) ensures Known(ps, id) {
        if id in ById(init) {
          var i :| 0 <= i < |init| && init[i].txnId == id;
          assert ps[i].txnId == id;
        } else {
          assert ps[|ps| - 1].txnId == id;
        }
      }
    }
  }

  /** Replaying distinct payloads in any order is a sum over the transactions. */
  lemma {:induction false} ReplayIsSum(ps: seq<Payload>, u: UserId)
    requires Distinct(ps)
    ensures ReplayFor(ps, u) == Sum(ById(ps), MovedBy(u))
    decreases |ps|
  {
    if ps != [] {
      var init, p := ps[..|ps| - 1], ps[|ps| - 1];
      ReplayIsSum(init, u);
      ByIdHolds(init);
      SumPut(ById(init), MovedBy(u), p.txnId, p);
    }
  }

  lemma {:induction false} DedupHolds(topic: seq<Record>)
    ensures Distinct(Dedup(topic))
    ensures forall p :: p in Dedup(topic) ==> exists r :: r in topic && r.payload == p
    ensures forall r :: r in topic ==> Known(Dedup(topic), r.payload.txnId)
    decreases |topic|
  {
    if topic != [] {
      var init, last := topic[..|topic| - 1], topic[|topic| - 1];
      DedupHolds(init);
      assert topic == init + [last];
      var before, after := Dedup(init), Dedup(topic);
      forall r | r in topic ensures Known(after, r.payload.txnId) {
        if r in init {
          var i :| 0 <= i < |before| && before[i].txnId == r.payload.txnId;
          assert after[i].txnId == r.payload.txnId;
        } else if !Known(before, last.payload.txnId) {
          assert after[|before|] == last.payload;
        }
      }
      forall p | p in after ensures exists r :: r in topic && r.payload == p {
        if p in before {
          var r :| r in init && r.payload == p;
          assert r in topic;
        } else {
          assert last in topic && last.payload == p;
        }
      }
    }
  }

  // --- the ledger's side ---

  /** The payloads a run committed, by transaction. */
  function Sent(ops: seq<Op>): map<TxnId, Payload> {
    if ops == [] then map[]
    else
      var op := ops[|ops| - 1];
      if op.Create? then Sent(ops[..|ops| - 1])[op.order.txn.id := op.order.event.payload] else Sent(ops[..|ops| - 1])
  }

  lemma ApplyKeepsSent(db: Db, op: Op, db': Db, sent: map<TxnId, Payload>)
    requires Checked(op) && Apply(db, op) == Ok(db')
    requires sent.Keys == db.txns.Keys
    requires forall e :: e in db.outbox ==>
               db.outbox[e].aggregateId in sent && sent[db.outbox[e].aggregateId] == db.outbox[e].payload
    ensures var sent' := if op.Create? then sent[op.order.txn.id := op.order.event.payload] else sent;
            && sent'.Keys == db'.txns.Keys
            && forall e :: e in db'.outbox ==>
                 db'.outbox[e].aggregateId in sent' && sent'[db'.outbox[e].aggregateId] == db'.outbox[e].payload
  {
  }

  lemma {:induction false} SentIsTheOutbox(ops: seq<Op>, db: Db)
    requires Run(ops, db)
    ensures Sent(ops).Keys == db.txns.Keys
    ensures forall e :: e in db.outbox ==>
              db.outbox[e].aggregateId in Sent(ops) && Sent(ops)[db.outbox[e].aggregateId] == db.outbox[e].payload
    decreases |ops|
  {
    if ops != [] {
      var init, before, op := LastStep(ops, db);
      SentIsTheOutbox(init, before);
      ApplyKeepsSent(before, op, db, Sent(init));
    }
  }

  /** A balance is the top-ups plus the committed payloads replayed. */
  lemma {:induction false} BalanceFromPayloads(ops: seq<Op>, db: Db, u: UserId)
    requires Run(ops, db)
    ensures BalanceAt(db, u) == ToppedUp(ops, u) + Sum(Sent(ops), MovedBy(u))
    decreases |ops|
  {
    if ops != [] {
      var init, before, op := LastStep(ops, db);
      BalanceFromPayloads(init, before, u);
      BalancesStayInRange(init, before);
      ApplyDelta(before, op, db, u);
      if op.Create? {
        SentIsTheOutbox(init, before);
        TransferRows(before, op.order, db);
        SumPut(Sent(init), MovedBy(u), op.order.txn.id, op.order.event.payload);
      }
    }
  }

  // --- agreement ---

  ghost predicate BacklogEmpty(outbox: Events) {
    forall e :: e in outbox ==> outbox[e].published
  }

  lemma {:induction false} CopyExists(topic: seq<Record>, e: EventId) returns (r: Record)
    requires AckedCopies(topic, e) >= 1
    ensures r in topic && r.event == e
    decreases |topic|
  {
    r := topic[|topic| - 1];
    if !(r.acked && r.event == e) {
      r := CopyExists(topic[..|topic| - 1], e);
    }
  }

  lemma PublishedIsKnown(s: State, e: EventId)
    requires DeliveryInv(s) && Paired(s.db) && e in s.db.outbox
    ensures s.db.outbox[e].published ==> Known(Dedup(s.topic), s.db.outbox[e].aggregateId)
  {
    assert Counted(s, e);
    if s.db.outbox[e].published {
      var r := CopyExists(s.topic, e);
      DedupHolds(s.topic);
      assert r.payload.txnId == s.db.outbox[e].aggregateId;
    }
  }

  /** A payload in the deduplicated topic is the one the run sent for that transaction. */
  lemma KnownIsSent(s: State, ops: seq<Op>, p: Payload)
    requires DeliveryInv(s) && Paired(s.db) && Run(ops, s.db) && p in Dedup(s.topic)
    ensures p.txnId in s.db.txns && p.txnId in Sent(ops) && Sent(ops)[p.txnId] == p
    ensures Describes(Event(p.txnId, p, false, s.db.txns[p.txnId].createdAt), p.txnId, s.db.txns[p.txnId])
  {
    DedupHolds(s.topic);
    SentIsTheOutbox(ops, s.db);
    var r :| r in s.topic && r.payload == p;
    assert s.db.outbox[r.event].payload == p;
  }

  function Payloads(outbox: Events): set<Payload> {
    set e | e in outbox :: outbox[e].payload
  }

  /** Nothing in the topic but committed transactions, described as committed and keyed by their sender;
      and a transaction missing from it still has an unpublished event. */
  lemma TopicMatchesTable(steps: seq<Step>, s: State)
    requires Reaches(steps, s)
    ensures forall r :: r in s.topic ==> r.key == r.payload.sender && r.payload in Payloads(s.db.outbox)
    ensures forall p :: p in Dedup(s.topic) ==>
              && p.txnId in s.db.txns
              && p.sender == s.db.txns[p.txnId].sender && p.receiver == s.db.txns[p.txnId].receiver
              && p.currency == s.db.txns[p.txnId].currency && Stored(p.amount) == Some(s.db.txns[p.txnId].amount)
    ensures forall id :: id in s.db.txns && !Known(Dedup(s.topic), id) ==>
              exists e :: e in s.db.outbox && s.db.outbox[e].aggregateId == id && !s.db.outbox[e].published
  {
    ReachableDelivery(steps, s);
    RowsEventsFlags(steps, s, 0);
    Serializable(steps, s);
    forall p | p in Dedup(s.topic)
      ensures p.txnId in s.db.txns
      ensures Describes(Event(p.txnId, p, false, s.db.txns[p.txnId].createdAt), p.txnId, s.db.txns[p.txnId])
    {
      KnownIsSent(s, CommitLog(steps), p);
    }
    forall id | id in s.db.txns && !Known(Dedup(s.topic), id)
      ensures exists e :: e in s.db.outbox && s.db.outbox[e].aggregateId == id && !s.db.outbox[e].published
    {
      var e :| e in s.db.outbox && s.db.outbox[e].aggregateId == id;
      PublishedIsKnown(s, e);
    }
  }

  lemma ByIdIs(ps: seq<Payload>, sent: map<TxnId, Payload>)
    requires Distinct(ps)
    requires forall p :: p in ps ==> p.txnId in sent && sent[p.txnId] == p
    requires forall id :: id in sent ==> Known(ps, id)
    ensures ById(ps) == sent
  {
    ByIdHolds(ps);
    forall id | id in sent ensures id in ById(ps) && ById(ps)[id] == sent[id] {
      var i :| 0 <= i < |ps| && ps[i].txnId == id;
      assert ps[i] in ps;
    }
    forall id | id in ById(ps) ensures id in sent {
      var i :| 0 <= i < |ps| && ps[i].txnId == id;
      assert ps[i] in ps;
    }
  }

  /** Payload by payload, a drained topic holds what the run sent. */
  lemma DedupIsSent(s: State, ops: seq<Op>)
    requires DeliveryInv(s) && Paired(s.db) && Run(ops, s.db)
    requires forall id :: id in s.db.txns ==> Known(Dedup(s.topic), id)
    ensures ById(Dedup(s.topic)) == Sent(ops)
  {
    forall p | p in Dedup(s.topic) ensures p.txnId in Sent(ops) && Sent(ops)[p.txnId] == p {
      KnownIsSent(s, ops, p);
    }
    SentIsTheOutbox(ops, s.db);
    DedupHolds(s.topic);
    ByIdIs(Dedup(s.topic), Sent(ops));
  }

  /** End-to-end agreement. Once the backlog is empty, the deduplicated topic replayed over the
      top-ups gives every wallet's balance, for amounts of any scale. */
  lemma DrainedTopicIsTheLedger(steps: seq<Step>, s: State, u: UserId)
    requires Reaches(steps, s) && BacklogEmpty(s.db.outbox)
    ensures BalanceAt(s.db, u) == ToppedUp(CommitLog(steps), u) + ReplayFor(Dedup(s.topic), u)
    ensures forall id :: id in s.db.txns <==> Known(Dedup(s.topic), id)
  {
    var ops, ps := CommitLog(steps), Dedup(s.topic);
    Serializable(steps, s);
    TopicMatchesTable(steps, s);
    DedupHolds(s.topic);
    ReachableDelivery(steps, s);
    RowsAndEventsPair(ops, s.db);
    DedupIsSent(s, ops);
    BalanceFromPayloads(ops, s.db, u);
    ReplayIsSum(ps, u);
  }
}
