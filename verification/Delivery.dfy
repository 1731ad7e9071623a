/** What the topic holds, counted against the outbox, in every reachable state. */
module Delivery {
  import opened Wrappers
  import opened Ledger
  import opened Outbox
  import opened Machine
  import opened Serializability

  /** Acknowledged copies of event e. */
  function AckedCopies(topic: seq<Record>, e: EventId): nat {
    if topic == [] then 0
    else
      var r := topic[|topic| - 1];
      AckedCopies(topic[..|topic| - 1], e) + if r.acked && r.event == e then 1 else 0
  }

  lemma AckedAppend(topic: seq<Record>, r: Record)
    ensures forall e :: AckedCopies(topic + [r], e) == AckedCopies(topic, e) + if r.acked && r.event == e then 1 else 0
  {
  }

  lemma {:induction false} UnconfirmedCount(topic: seq<Record>, f: Fetched, copies: nat)
    ensures forall e :: AckedCopies(topic + Unconfirmed(f, copies), e) == AckedCopies(topic, e)
    decreases copies
  {
    if copies == 0 {
      assert topic + [] == topic;
    } else {
      UnconfirmedCount(topic, f, copies - 1);
      AckedAppend(topic + Unconfirmed(f, copies - 1), Copy(f, false));
      assert topic + Unconfirmed(f, copies) == topic + Unconfirmed(f, copies - 1) + [Copy(f, false)];
    }
  }

  /** One Publish call adds at most one acknowledged copy. */
  lemma WrittenCount(topic: seq<Record>, f: Fetched, copies: nat, acked: bool)
    ensures forall e :: AckedCopies(topic + Written(f, copies, acked), e) ==
                        AckedCopies(topic, e) + if acked && f.id == e then 1 else 0
  {
    var tried := topic + Unconfirmed(f, copies);
    UnconfirmedCount(topic, f, copies);
    AckedAppend(tried, Copy(f, true));
    assert topic + Written(f, copies, acked) == tried + if acked then [Copy(f, true)] else [];
    assert tried + [] == tried;
  }

  /** The worker has an acknowledgement for e in hand and has not marked e yet. */
  predicate Holding(w: Worker, e: EventId) {
    w.Busy? && w.acked && w.next < |w.batch| && w.batch[w.next].id == e
  }

  /** Every copy is of a committed event, keyed by its sender. */
  ghost predicate TopicOk(table: Events, topic: seq<Record>) {
    forall i :: 0 <= i < |topic| ==>
      && topic[i].event in table && topic[i].payload == table[topic[i].event].payload
      && topic[i].key == topic[i].payload.sender
  }

  /** The part of the batch still to do is unpublished, and each event is in it once. */
  ghost predicate WorkerOk(table: Events, w: Worker) {
    w.Busy? ==>
      && w.next <= |w.batch| && (w.acked ==> w.next < |w.batch|)
      && (forall i :: 0 <= i < |w.batch| ==>
            w.batch[i].id in table && table[w.batch[i].id].payload == w.batch[i].event.payload)
      && (forall i :: w.next <= i < |w.batch| ==> !table[w.batch[i].id].published)
      && (forall i, j :: 0 <= i < j < |w.batch| ==> w.batch[i].id != w.batch[j].id)
  }

  /** Copies, marks, failed marks and crashes of one event. */
  ghost predicate Counted(s: State, e: EventId) {
    && AckedCopies(s.topic, e) ==
       s.notes[MarkFailed(e)] + s.notes[CrashedAfterAck(e)] + s.notes[MarkSucceeded(e)] +
       (if Holding(s.worker, e) then 1 else 0)
    && s.notes[MarkSucceeded(e)] <= 1
    && (s.notes[MarkSucceeded(e)] == 1 ==> e in s.db.outbox && s.db.outbox[e].published)
    && (e in s.db.outbox && s.db.outbox[e].published ==> AckedCopies(s.topic, e) >= 1)
  }

  ghost predicate DeliveryInv(s: State) {
    && TopicOk(s.db.outbox, s.topic)
    && WorkerOk(s.db.outbox, s.worker)
    && forall e :: Counted(s, e)
  }

  // --- steps of others ---

  /** Everyone but the worker only adds unpublished events. */
  ghost predicate Extends(table: Events, table': Events) {
    && (forall e :: e in table ==> e in table' && table'[e] == table[e])
    && (forall e :: e in table' && e !in table ==> !table'[e].published)
  }

  lemma OpExtends(db: Db, op: Op, db': Db)
    requires Checked(op) && Apply(db, op) == Ok(db') && !op.MarkPublished?
    ensures Extends(db.outbox, db'.outbox)
  {
  }

  lemma MoneySparesWorker(s: State, p: Pid, m: MoneyStep, s': State)
    requires MoneyNext(s, p, m) == Some(s')
    ensures s'.worker == s.worker && s'.topic == s.topic && s'.notes == s.notes
  {
  }

  lemma OthersSpareWorker(s: State, step: Step, s': State)
    requires Next(s, step) == Some(s') && !step.Relay?
    ensures s'.worker == s.worker && s'.topic == s.topic && s'.notes == s.notes
  {
    if step.Money? {
      MoneySparesWorker(s, step.pid, step.money, s');
    }
  }

  lemma OthersExtend(s: State, step: Step, s': State)
    requires Inv(s) && Next(s, step) == Some(s') && !step.Relay?
    ensures Extends(s.db.outbox, s'.db.outbox)
  {
    StepSimulates(s, step, s');
    match Committed(s, step)
    case None =>
    case Some(op) => OpExtends(s.db, op, s'.db);
  }

  lemma ExtensionKeepsDelivery(s: State, s': State)
    requires DeliveryInv(s) && Extends(s.db.outbox, s'.db.outbox)
    requires s'.worker == s.worker && s'.topic == s.topic && s'.notes == s.notes
    ensures DeliveryInv(s')
  {
    forall e ensures Counted(s', e) {
      assert Counted(s, e);
    }
  }

  // --- steps of the worker ---

  /** Steps that neither acknowledge nor mark: fetching, failing, giving up on an event, ending a tick. */
  lemma QuietKeepsDelivery(s: State, r: RelayStep, s': State)
    requires DeliveryInv(s) && RelayNext(s, r) == Some(s')
    requires r.Fetch? || r.DecodeFails? || r.EndTick?
    ensures DeliveryInv(s')
  {
    forall e ensures Counted(s', e) {
      assert Counted(s, e);
    }
  }

  lemma AppendKeepsTopic(table: Events, topic: seq<Record>, f: Fetched, copies: nat, acked: bool)
    requires TopicOk(table, topic) && f.id in table && table[f.id].payload == f.event.payload
    ensures TopicOk(table, topic + Written(f, copies, acked))
  {
  }

  lemma PublishKeepsDelivery(s: State, r: RelayStep, s': State)
    requires DeliveryInv(s) && RelayNext(s, r) == Some(s')
    requires r.Publish? || r.PublishFails?
    ensures DeliveryInv(s')
  {
    var f := s.worker.batch[s.worker.next];
    AppendKeepsTopic(s.db.outbox, s.topic, f, r.copies, r.Publish?);
    WrittenCount(s.topic, f, r.copies, r.Publish?);
    forall e ensures Counted(s', e) {
      assert Counted(s, e);
    }
  }

  lemma CrashKeepsDelivery(s: State, s': State)
    requires DeliveryInv(s) && RelayNext(s, Crash) == Some(s')
    ensures DeliveryInv(s')
  {
    forall e ensures Counted(s', e) {
      assert Counted(s, e);
    }
  }

  /** What a mark, successful or not, does. */
  lemma MarkShape(s: State, r: RelayStep, s': State)
    requires RelayNext(s, r) == Some(s') && (r.Mark? || r.MarkFails?)
    ensures s.worker.Busy? && s.worker.acked && s.worker.next < |s.worker.batch|
    ensures s'.worker == Busy(s.worker.batch, s.worker.next + 1, false) && s'.topic == s.topic
    ensures var id := s.worker.batch[s.worker.next].id;
            && s'.notes == s.notes + multiset{if r.Mark? then MarkSucceeded(id) else MarkFailed(id)}
            && s'.db.outbox == if r == MarkFails(false) then s.db.outbox else Marked(s.db.outbox, id)
  {
  }

  lemma MarkKeepsCount(s: State, r: RelayStep, s': State, e: EventId)
    requires DeliveryInv(s) && RelayNext(s, r) == Some(s') && (r.Mark? || r.MarkFails?)
    ensures Counted(s', e)
  {
    MarkShape(s, r, s');
    var id := s.worker.batch[s.worker.next].id;
    assert Holding(s.worker, id) && Counted(s, id) && Counted(s, e);
  }

  lemma MarkKeepsDelivery(s: State, r: RelayStep, s': State)
    requires DeliveryInv(s) && RelayNext(s, r) == Some(s') && (r.Mark? || r.MarkFails?)
    ensures DeliveryInv(s')
  {
    forall e ensures Counted(s', e) {
      MarkKeepsCount(s, r, s', e);
    }
    MarkShape(s, r, s');
  }

  lemma StepKeepsDelivery(s: State, step: Step, s': State)
    requires Inv(s) && DeliveryInv(s) && Next(s, step) == Some(s')
    ensures DeliveryInv(s')
  {
    if !step.Relay? {
      OthersSpareWorker(s, step, s');
      OthersExtend(s, step, s');
      ExtensionKeepsDelivery(s, s');
    } else {
      match step.relay
      case Publish(_) => PublishKeepsDelivery(s, step.relay, s');
      case PublishFails(_) => PublishKeepsDelivery(s, step.relay, s');
      case Crash => CrashKeepsDelivery(s, s');
      case Mark => MarkKeepsDelivery(s, step.relay, s');
      case MarkFails(_) => MarkKeepsDelivery(s, step.relay, s');
      case _ => QuietKeepsDelivery(s, step.relay, s');
    }
  }

  lemma {:induction false} ReachableDelivery(steps: seq<Step>, s: State)
    requires Reaches(steps, s)
    ensures DeliveryInv(s)
    decreases |steps|
  {
    if steps != [] {
      var init, before, step := LastMove(steps, s);
      ReachableDelivery(init, before);
      ReachableInv(init, before);
      StepKeepsDelivery(before, step, s);
    }
  }

  /** At-least-once delivery, with the exact count. The acknowledged copies of an event are its
      failed marks, plus the crashes between acknowledgement and mark, plus one if a mark was
      reported successful (which happens at most once), plus one while its acknowledgement is
      still in the worker's hands. An event with `published_at` set has a copy. */
  lemma DeliveryCount(steps: seq<Step>, s: State, e: EventId)
    requires Reaches(steps, s)
    ensures AckedCopies(s.topic, e) ==
            s.notes[MarkFailed(e)] + s.notes[CrashedAfterAck(e)] + s.notes[MarkSucceeded(e)] +
       (if Holding(s.worker, e) then 1 else 0)
    ensures s.notes[MarkSucceeded(e)] <= 1
    ensures e in s.db.outbox && s.db.outbox[e].published ==> AckedCopies(s.topic, e) >= 1
  {
    ReachableDelivery(steps, s);
    assert Counted(s, e);
  }
}
