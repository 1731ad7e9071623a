/** A tick of the worker as part of the running service: alone, and with everyone else running. */
module WorkerTicks {
  import opened Wrappers
  import opened Ledger
  import opened Outbox
  import opened Machine
  import opened Serializability
  import opened Delivery
  import opened MachineLaws
  import Ticks = Relay
  import Drain

  /** The worker's steps for one event that ends as o. */
  function Handle(s: State, o: Ticks.Outcome): Option<State> {
    match o
    case DecodeFailed => RelayNext(s, DecodeFails)
    case PublishFailed(copies) => RelayNext(s, PublishFails(copies))
    case MarkFailed(copies, applied) => PublishThen(s, copies, MarkFails(applied))
    case Delivered(copies) => PublishThen(s, copies, Mark)
  }

  function PublishThen(s: State, copies: nat, r: RelayStep): Option<State> {
    match RelayNext(s, Publish(copies))
    case None => None
    case Some(mid) => RelayNext(mid, r)
  }

  function HandleAll(s: State, outcomes: seq<Ticks.Outcome>): Option<State> {
    if outcomes == [] then Some(s)
    else
      match HandleAll(s, outcomes[..|outcomes| - 1])
      case None => None
      case Some(mid) => Handle(mid, outcomes[|outcomes| - 1])
  }

  function PipeOf(s: State): Ticks.Pipe {
    Ticks.Pipe(s.db.outbox, s.topic)
  }

  lemma HandleIsAttempt(s: State, o: Ticks.Outcome)
    requires s.worker.Busy? && !s.worker.acked && s.worker.next < |s.worker.batch|
    ensures Handle(s, o).Some?
    ensures var s' := Handle(s, o).value;
            && PipeOf(s') == Ticks.Attempt(PipeOf(s), s.worker.batch[s.worker.next], o)
            && s'.worker == Busy(s.worker.batch, s.worker.next + 1, false)
  {
    assert s.topic + [] == s.topic;
  }

  /** Fetching a batch and handling its events, without interruption, has the effect of Tick. */
  lemma {:induction false} UninterruptedWorkerTicks(s: State, batch: seq<Fetched>, outcomes: seq<Ticks.Outcome>)
    requires s.worker == Idle && IsFetch(s.db.outbox, BATCH_SIZE, batch) && |outcomes| <= |batch|
    ensures RelayNext(s, Fetch(batch)).Some?
    ensures var s' := HandleAll(RelayNext(s, Fetch(batch)).value, outcomes);
            && s'.Some? && PipeOf(s'.value) == Ticks.Tick(PipeOf(s), batch, outcomes)
            && s'.value.worker == Busy(batch, |outcomes|, false)
    decreases |outcomes|
  {
    if outcomes != [] {
      var n := |outcomes| - 1;
      UninterruptedWorkerTicks(s, batch, outcomes[..n]);
      HandleIsAttempt(HandleAll(RelayNext(s, Fetch(batch)).value, outcomes[..n]).value, outcomes[n]);
    }
  }

  // --- what the worker did since its fetch ---

  /** How each finished event ended; and, for a write that is acknowledged but not yet marked, how many
      unconfirmed copies came before. */
  datatype Log = Log(done: seq<Ticks.Outcome>, inHand: Option<nat>)

  function Noted(log: Log, r: RelayStep): Log {
    match r
    case DecodeFails => Log(log.done + [Ticks.DecodeFailed], None)
    case PublishFails(copies) => Log(log.done + [Ticks.PublishFailed(copies)], None)
    case Publish(copies) => log.(inHand := Some(copies))
    case Mark => if log.inHand.None? then log else Log(log.done + [Ticks.Delivered(log.inHand.value)], None)
    case MarkFails(applied) =>
      if log.inHand.None? then log else Log(log.done + [Ticks.MarkFailed(log.inHand.value, applied)], None)
    case _ => log
  }

  /** Read off the steps: those of other participants leave no trace. */
  function LogOf(steps: seq<Step>): Log {
    if steps == [] then Log([], None)
    else
      var before, step := LogOf(steps[..|steps| - 1]), steps[|steps| - 1];
      if step.Relay? then Noted(before, step.relay) else before
  }

  /** The events whose fate in the topic is settled: an acknowledged one counts although its mark is due. */
  function Settled(log: Log): seq<Ticks.Outcome> {
    log.done + if log.inHand.Some? then [Ticks.Delivered(log.inHand.value)] else []
  }

  predicate EndsTick(step: Step) {
    step.Relay? && (step.relay.Fetch? || step.relay.EndTick? || step.relay.Crash?)
  }

  /** The tick the worker is in began with step i, taken in state s0. */
  ghost predicate FetchedAt(steps: seq<Step>, s: State, i: nat, s0: State) {
    && s.worker.Busy? && i < |steps| && Reaches(steps[..i], s0)
    && steps[i] == Relay(Fetch(s.worker.batch))
    && forall j :: i < j < |steps| ==> !EndsTick(steps[j])
  }

  /** How far a tick over this batch, begun from `start`, has come. The rows that were there at the
      fetch are as the finished events left them. */
  ghost predicate TickSoFar(s: State, start: Ticks.Pipe, log: Log) {
    && s.worker.Busy? && IsFetch(start.outbox, BATCH_SIZE, s.worker.batch)
    && |log.done| == s.worker.next && (log.inHand.Some? <==> s.worker.acked)
    && |Settled(log)| <= |s.worker.batch|
    && s.topic == Ticks.Tick(start, s.worker.batch, Settled(log)).topic
    && RowsKept(Ticks.Tick(start, s.worker.batch, log.done).outbox, s.db.outbox)
  }

  ghost predicate RowsKept(table: Events, table': Events) {
    forall e :: e in table ==> e in table' && table'[e] == table[e]
  }

  lemma TickExtends(start: Ticks.Pipe, batch: seq<Fetched>, outcomes: seq<Ticks.Outcome>, o: Ticks.Outcome)
    requires |outcomes| < |batch|
    ensures Ticks.Tick(start, batch, outcomes + [o]) ==
            Ticks.Attempt(Ticks.Tick(start, batch, outcomes), batch[|outcomes|], o)
  {
  }

  lemma FetchStartsTick(s: State, batch: seq<Fetched>, s': State)
    requires RelayNext(s, Fetch(batch)) == Some(s')
    ensures TickSoFar(s', PipeOf(s), Log([], None))
  {
  }

  /** What a failed decode or a failed write does. */
  lemma FailureShape(s: State, r: RelayStep, s': State)
    requires RelayNext(s, r) == Some(s') && (r.DecodeFails? || r.PublishFails?)
    ensures s.worker.Busy? && !s.worker.acked && s.worker.next < |s.worker.batch|
    ensures s'.worker == Busy(s.worker.batch, s.worker.next + 1, false) && s'.db == s.db
    ensures s'.topic == s.topic + if r.DecodeFails? then [] else Written(s.worker.batch[s.worker.next], r.copies, false)
  {
    assert s.topic + [] == s.topic;
  }

  lemma MarkKeepsRows(table: Events, table': Events, e: EventId)
    requires RowsKept(table, table')
    ensures RowsKept(Marked(table, e), Marked(table', e))
  {
  }

  lemma FailureExtendsTick(s: State, r: RelayStep, s': State, start: Ticks.Pipe, log: Log)
    requires TickSoFar(s, start, log) && RelayNext(s, r) == Some(s') && (r.DecodeFails? || r.PublishFails?)
    ensures TickSoFar(s', start, Noted(log, r))
  {
    FailureShape(s, r, s');
    var o := if r.DecodeFails? then Ticks.DecodeFailed else Ticks.PublishFailed(r.copies);
    assert Settled(log) == log.done && Settled(Noted(log, r)) == log.done + [o];
    TickExtends(start, s.worker.batch, log.done, o);
  }

  lemma PublishExtendsTick(s: State, copies: nat, s': State, start: Ticks.Pipe, log: Log)
    requires TickSoFar(s, start, log) && RelayNext(s, Publish(copies)) == Some(s')
    ensures TickSoFar(s', start, Noted(log, Publish(copies)))
  {
    assert Settled(log) == log.done;
    TickExtends(start, s.worker.batch, log.done, Ticks.Delivered(copies));
  }

  /** The mark changes one row and says nothing to the topic. */
  lemma MarkExtendsTick(s: State, r: RelayStep, s': State, start: Ticks.Pipe, log: Log)
    requires TickSoFar(s, start, log) && RelayNext(s, r) == Some(s') && (r.Mark? || r.MarkFails?)
    ensures TickSoFar(s', start, Noted(log, r))
  {
    MarkShape(s, r, s');
    var copies := log.inHand.value;
    var o := if r.Mark? then Ticks.Delivered(copies) else Ticks.MarkFailed(copies, r.applied);
    assert Settled(log) == log.done + [Ticks.Delivered(copies)];
    assert Noted(log, r).done == log.done + [o] == Settled(Noted(log, r));
    TickExtends(start, s.worker.batch, log.done, Ticks.Delivered(copies));
    TickExtends(start, s.worker.batch, log.done, o);
    MarkKeepsRows(Ticks.Tick(start, s.worker.batch, log.done).outbox, s.db.outbox, s.worker.batch[s.worker.next].id);
  }

  /** Everyone else leaves the worker, the topic and the rows there are alone. */
  lemma OthersStayInTick(s: State, step: Step, s': State, start: Ticks.Pipe, log: Log)
    requires Inv(s) && TickSoFar(s, start, log) && Next(s, step) == Some(s') && !step.Relay?
    ensures TickSoFar(s', start, log)
  {
    OthersSpareWorker(s, step, s');
    OthersExtend(s, step, s');
  }

  lemma StepStaysInTick(s: State, step: Step, s': State, start: Ticks.Pipe, log: Log)
    requires Inv(s) && TickSoFar(s, start, log) && Next(s, step) == Some(s') && !EndsTick(step)
    ensures TickSoFar(s', start, if step.Relay? then Noted(log, step.relay) else log)
  {
    if !step.Relay? {
      OthersStayInTick(s, step, s', start, log);
    } else if step.relay.Publish? {
      PublishExtendsTick(s, step.relay.copies, s', start, log);
    } else if step.relay.Mark? || step.relay.MarkFails? {
      MarkExtendsTick(s, step.relay, s', start, log);
    } else {
      FailureExtendsTick(s, step.relay, s', start, log);
    }
  }

  /** Within a tick the batch stays what was fetched. */
  lemma SameBatch(s: State, step: Step, s': State)
    requires Next(s, step) == Some(s') && !EndsTick(step)
    ensures s'.worker.Busy? <==> s.worker.Busy?
    ensures s'.worker.Busy? ==> s'.worker.batch == s.worker.batch
  {
    if !step.Relay? {
      OthersSpareWorker(s, step, s');
    }
  }

  /** Every busy worker fetched its batch at some step, and has been in that tick since. */
  lemma {:induction false} TickHasBegun(steps: seq<Step>, s: State) returns (i: nat, s0: State)
    requires Reaches(steps, s) && s.worker.Busy?
    ensures FetchedAt(steps, s, i, s0)
    decreases |steps|
  {
    var init, before, step := LastMove(steps, s);
    if EndsTick(step) {
      i, s0 := |init|, before;
    } else {
      SameBatch(before, step, s);
      i, s0 := TickHasBegun(init, before);
      assert init[..i] == steps[..i];
    }
  }

  /** Under any interleaving: since its fetch the worker has added to the topic, and marked in the
      outbox, exactly what the tick function does for the outcomes its steps amount to. */
  lemma {:induction false} WorkerIsAlwaysMidTick(steps: seq<Step>, s: State, i: nat, s0: State)
    requires Reaches(steps, s) && FetchedAt(steps, s, i, s0)
    ensures TickSoFar(s, PipeOf(s0), LogOf(steps[i + 1..]))
    decreases |steps|
  {
    var init, before, step := LastMove(steps, s);
    ReachableInv(init, before);
    if i == |init| {
      assert steps[..i] == init && steps[i + 1..] == [];
      FetchStartsTick(before, s.worker.batch, s);
    } else {
      assert !EndsTick(steps[|init|]);
      SameBatch(before, step, s);
      assert init[..i] == steps[..i];
      WorkerIsAlwaysMidTick(init, before, i, s0);
      StepStaysInTick(before, step, s, PipeOf(s0), LogOf(init[i + 1..]));
      assert steps[i + 1..] == init[i + 1..] + [step];
    }
  }

  // --- ticks and crashes do happen ---

  /** From every busy state a crash is possible: the process forgets its batch, and nothing else changes. */
  lemma CrashIsPossible(s: State)
    requires s.worker.Busy?
    ensures Next(s, Relay(Crash)).Some?
    ensures var s' := Next(s, Relay(Crash)).value;
            && s' == s.(worker := Idle, notes := s'.notes)
            && s'.notes == s.notes + if s.worker.acked && s.worker.next < |s.worker.batch|
                                     then multiset{CrashedAfterAck(s.worker.batch[s.worker.next].id)} else multiset{}
  {
  }

  /** One step further in the batch: the event is published, or after that marked. */
  predicate OneFurther(s: State, s': State) {
    && s.worker.Busy? && s.worker.next < |s.worker.batch|
    && (if s.worker.acked then
          && s'.worker == Busy(s.worker.batch, s.worker.next + 1, false)
          && s'.db.outbox == Marked(s.db.outbox, s.worker.batch[s.worker.next].id)
        else s'.worker == Busy(s.worker.batch, s.worker.next, true) && s'.db == s.db)
  }

  lemma OneEventGoes(steps: seq<Step>, s: State) returns (step: Step, s': State)
    requires Reaches(steps, s) && s.worker.Busy? && s.worker.next < |s.worker.batch|
    ensures !EndsTick(step) && Reaches(steps + [step], s') && OneFurther(s, s')
  {
    step := if s.worker.acked then Relay(Mark) else Relay(Publish(0));
    s' := Next(s, step).value;
    OneMore(steps, s, step, s');
  }

  /** The events from place n of the batch on are published. */
  predicate PublishedFrom(outbox: Events, batch: seq<Fetched>, n: nat) {
    forall i :: n <= i < |batch| ==> batch[i].id in outbox && outbox[batch[i].id].published
  }

  /** No event is unmarked. */
  predicate KeepsMarks(outbox: Events, outbox': Events) {
    forall e :: e in outbox && outbox[e].published ==> e in outbox' && outbox'[e].published
  }

  /** The whole batch is handled, every event that was left in it published. */
  predicate BatchDone(s: State, s': State)
    requires s.worker.Busy?
  {
    && s'.worker == Busy(s.worker.batch, |s.worker.batch|, false)
    && PublishedFrom(s'.db.outbox, s.worker.batch, s.worker.next) && KeepsMarks(s.db.outbox, s'.db.outbox)
  }

  lemma WorkerInBounds(steps: seq<Step>, s: State)
    requires Reaches(steps, s) && s.worker.Busy?
    ensures s.worker.next <= |s.worker.batch| && (s.worker.acked ==> s.worker.next < |s.worker.batch|)
    ensures forall i :: 0 <= i < |s.worker.batch| ==> s.worker.batch[i].id in s.db.outbox
  {
    ReachableDelivery(steps, s);
  }

  lemma FurtherIsDone(s: State, mid: State, s': State)
    requires OneFurther(s, mid) && BatchDone(mid, s') && s.worker.batch[s.worker.next].id in s.db.outbox
    ensures BatchDone(s, s')
  {
    var id := s.worker.batch[s.worker.next].id;
    if s.worker.acked {
      assert Marked(s.db.outbox, id)[id].published;
      assert KeepsMarks(s.db.outbox, Marked(s.db.outbox, id));
    }
  }

  ghost predicate WithinTick(steps: seq<Step>) {
    forall step :: step in steps ==> !EndsTick(step)
  }

  /** Steps still to take in the batch. */
  function StepsLeft(w: Worker): int {
    if w.Idle? then 0 else 2 * (|w.batch| - w.next) - if w.acked then 1 else 0
  }

  /** Two stretches of a tick make one. */
  lemma TickGoesOn(steps: seq<Step>, step: Step, rest: seq<Step>, s: State)
    requires Reaches(steps + [step] + rest, s) && WithinTick(rest) && !EndsTick(step)
    ensures Reaches(steps + ([step] + rest), s) && WithinTick([step] + rest)
  {
    assert steps + [step] + rest == steps + ([step] + rest);
  }

  lemma NothingLeft(steps: seq<Step>, s: State)
    requires Reaches(steps, s) && s.worker.Busy? && s.worker.next == |s.worker.batch| && !s.worker.acked
    ensures Reaches(steps + [], s) && WithinTick([]) && BatchDone(s, s)
  {
    assert steps + [] == steps;
  }

  /** From every reachable busy state the worker can finish its batch, every event left in it published. */
  lemma {:induction false} BatchCanBeFinished(steps: seq<Step>, s: State) returns (more: seq<Step>, s': State)
    requires Reaches(steps, s) && s.worker.Busy?
    ensures Reaches(steps + more, s') && BatchDone(s, s') && WithinTick(more)
    decreases StepsLeft(s.worker)
  {
    WorkerInBounds(steps, s);
    if s.worker.next == |s.worker.batch| {
      NothingLeft(steps, s);
      more, s' := [], s;
    } else {
      var step, mid := OneEventGoes(steps, s);
      FurtherIsLess(s, mid);
      var rest;
      rest, s' := BatchCanBeFinished(steps + [step], mid);
      FurtherIsDone(s, mid, s');
      TickGoesOn(steps, step, rest, s');
      more := [step] + rest;
    }
  }

  lemma FurtherIsLess(s: State, mid: State)
    requires OneFurther(s, mid)
    ensures mid.worker.Busy? && 0 <= StepsLeft(mid.worker) < StepsLeft(s.worker)
  {
  }

  /** A worker that has handled its batch ends its tick and fetches again. */
  lemma NextTickComes(steps: seq<Step>, s: State) returns (batch: seq<Fetched>, s': State)
    requires Reaches(steps, s) && s.worker.Busy? && s.worker.next == |s.worker.batch|
    ensures Reaches(steps + [Relay(EndTick)] + [Relay(Fetch(batch))], s')
    ensures s' == s.(worker := Busy(batch, 0, false)) && IsFetch(s.db.outbox, BATCH_SIZE, batch)
  {
    var idle := Next(s, Relay(EndTick)).value;
    OneMore(steps, s, Relay(EndTick), idle);
    batch, s' := FetchGoes(steps + [Relay(EndTick)], idle);
  }

  lemma FetchGoes(steps: seq<Step>, s: State) returns (batch: seq<Fetched>, s': State)
    requires Reaches(steps, s) && s.worker == Idle
    ensures Reaches(steps + [Relay(Fetch(batch))], s')
    ensures s' == s.(worker := Busy(batch, 0, false)) && IsFetch(s.db.outbox, BATCH_SIZE, batch)
  {
    batch := Drain.FetchExists(s.db.outbox, BATCH_SIZE);
    s' := Next(s, Relay(Fetch(batch))).value;
    OneMore(steps, s, Relay(Fetch(batch)), s');
  }

  // --- order in every execution ---

  /** The worker failed to decode or to publish event a in this tick. */
  predicate Failed(batch: seq<Fetched>, done: seq<Ticks.Outcome>, a: EventId)
    requires |done| <= |batch|
  {
    exists h :: 0 <= h < |done| && batch[h].id == a && (done[h].DecodeFailed? || done[h].PublishFailed?)
  }

  /** An acknowledged copy lies in the partition of its key. */
  lemma {:induction false} CopyInPart(topic: seq<Record>, e: EventId, part: UserId -> nat, k: nat)
    requires AckedCopies(topic, e) >= 1
    requires forall r :: r in topic && r.event == e ==> part(r.key) == k
    ensures e in Ticks.AckedIn(topic, part, k)
    decreases |topic|
  {
    var n := |topic| - 1;
    if !(topic[n].acked && topic[n].event == e) {
      CopyInPart(topic[..n], e, part, k);
    }
  }

  /** What was published before has its copy already. */
  lemma PublishedIsAhead(steps: seq<Step>, s: State, a: EventId, part: UserId -> nat)
    requires Reaches(steps, s) && a in s.db.outbox && s.db.outbox[a].published
    ensures a in Ticks.AckedIn(s.topic, part, part(s.db.outbox[a].payload.sender))
  {
    ReachableDelivery(steps, s);
    DeliveryCount(steps, s, a);
    CopyInPart(s.topic, a, part, part(s.db.outbox[a].payload.sender));
  }

  /** An unpublished event older than a fetched one was fetched before it. */
  lemma OlderIsFetchedFirst(table: Events, limit: nat, batch: seq<Fetched>, j: nat, a: EventId) returns (h: nat)
    requires IsFetch(table, limit, batch) && j < |batch|
    requires a in table && !table[a].published && table[a].createdAt < batch[j].event.createdAt
    ensures h < j && batch[h].id == a && batch[h].event == table[a]
  {
    assert InBatch(batch, a);
    h :| 0 <= h < |batch| && batch[h].id == a;
    assert IsUnpublished(table, batch[h]);
  }

  /** A handled event is expected in its partition unless it failed. */
  lemma HandledOrFailed(batch: seq<Fetched>, done: seq<Ticks.Outcome>, h: nat, part: UserId -> nat, k: nat)
    requires h < |done| <= |batch| && part(batch[h].event.payload.sender) == k
    ensures batch[h].id in Ticks.Expected(batch, done, part, k) || Failed(batch, done, batch[h].id)
  {
    if Ticks.Acks(done[h]) {
      Ticks.ExpectedAt(batch, done, part, k, h);
    } else {
      assert done[h].DecodeFailed? || done[h].PublishFailed?;
    }
  }

  /** Partition k when the worker came to its present event. */
  function GotBefore(start: Ticks.Pipe, batch: seq<Fetched>, done: seq<Ticks.Outcome>, part: UserId -> nat, k: nat)
    : seq<EventId>
    requires |done| <= |batch|
  {
    Ticks.AckedIn(start.topic, part, k) + Ticks.Expected(batch, done, part, k)
  }

  /** When the worker comes to an event, every older event of that sender that was in the outbox at
      the fetch has its copy, or failed in this tick. */
  lemma OlderIsAhead(steps: seq<Step>, s: State, i: nat, s0: State, a: EventId, part: UserId -> nat)
    requires Reaches(steps, s) && FetchedAt(steps, s, i, s0) && s.worker.next < |s.worker.batch|
    requires a in s0.db.outbox && s0.db.outbox[a].createdAt < s.worker.batch[s.worker.next].event.createdAt
    requires |LogOf(steps[i + 1..]).done| == s.worker.next
    ensures var batch, done := s.worker.batch, LogOf(steps[i + 1..]).done;
            || a in GotBefore(PipeOf(s0), batch, done, part, part(s0.db.outbox[a].payload.sender))
            || Failed(batch, done, a)
  {
    var batch, done := s.worker.batch, LogOf(steps[i + 1..]).done;
    var k := part(s0.db.outbox[a].payload.sender);
    WorkerIsAlwaysMidTick(steps, s, i, s0);
    if s0.db.outbox[a].published {
      PublishedIsAhead(steps[..i], s0, a, part);
    } else {
      var h := OlderIsFetchedFirst(s0.db.outbox, BATCH_SIZE, batch, s.worker.next, a);
      HandledOrFailed(batch, done, h, part, k);
    }
  }

  /** The copy in hand is the last of its partition. */
  lemma CopyInHand(steps: seq<Step>, s: State, i: nat, s0: State, part: UserId -> nat, k: nat)
    requires Reaches(steps, s) && FetchedAt(steps, s, i, s0) && s.worker.acked
    ensures |LogOf(steps[i + 1..]).done| == s.worker.next < |s.worker.batch|
    ensures var f := s.worker.batch[s.worker.next];
            part(f.event.payload.sender) == k ==>
              Ticks.AckedIn(s.topic, part, k) ==
              GotBefore(PipeOf(s0), s.worker.batch, LogOf(steps[i + 1..]).done, part, k) + [f.id]
  {
    var log := LogOf(steps[i + 1..]);
    WorkerIsAlwaysMidTick(steps, s, i, s0);
    Ticks.TickDelivers(PipeOf(s0), s.worker.batch, Settled(log), part, k);
    assert Settled(log)[..|log.done|] == log.done;
  }

  // --- every copy was written by some tick ---

  lemma RelayTopicShape(s: State, r: RelayStep, s': State)
    requires RelayNext(s, r) == Some(s')
    ensures r.Publish? || r.PublishFails? ==>
              && s.worker.Busy? && s.worker.next < |s.worker.batch| && !s.worker.acked
              && s'.topic == s.topic + Written(s.worker.batch[s.worker.next], r.copies, r.Publish?)
    ensures r.Publish? ==> s'.worker == Busy(s.worker.batch, s.worker.next, true)
    ensures !r.Publish? && !r.PublishFails? ==> s'.topic == s.topic
  {
  }

  /** Only an acknowledged write adds to a partition, and it adds the event the worker is at. */
  lemma StepDelivers(s: State, step: Step, s': State, part: UserId -> nat, k: nat)
    requires Next(s, step) == Some(s')
    ensures Ticks.AckedIn(s'.topic, part, k) == Ticks.AckedIn(s.topic, part, k)
         || (step.Relay? && step.relay.Publish? && s'.worker.Busy? && s'.worker.acked
             && s'.worker.next < |s'.worker.batch|
             && part(s'.worker.batch[s'.worker.next].event.payload.sender) == k
             && Ticks.AckedIn(s'.topic, part, k) ==
                Ticks.AckedIn(s.topic, part, k) + [s'.worker.batch[s'.worker.next].id])
  {
    if !step.Relay? {
      OthersSpareWorker(s, step, s');
    } else {
      RelayTopicShape(s, step.relay, s');
      if step.relay.Publish? || step.relay.PublishFails? {
        Ticks.WrittenSeen(s.topic, s.worker.batch[s.worker.next], step.relay.copies, step.relay.Publish?, part, k);
      }
    }
  }

  /** The moment at which the copy at place y of partition k was acknowledged. */
  lemma {:induction false} CopyHasItsTick(steps: seq<Step>, s: State, part: UserId -> nat, k: nat, y: nat)
    returns (m: nat, t: State)
    requires Reaches(steps, s) && y < |Ticks.AckedIn(s.topic, part, k)|
    ensures m <= |steps| && Reaches(steps[..m], t)
    ensures t.worker.Busy? && t.worker.acked && t.worker.next < |t.worker.batch|
    ensures part(t.worker.batch[t.worker.next].event.payload.sender) == k
    ensures Ticks.AckedIn(t.topic, part, k) == Ticks.AckedIn(s.topic, part, k)[..y + 1]
    ensures Ticks.AckedIn(s.topic, part, k)[y] == t.worker.batch[t.worker.next].id
    decreases |steps|
  {
    var init, before, step := LastMove(steps, s);
    StepDelivers(before, step, s, part, k);
    if y < |Ticks.AckedIn(before.topic, part, k)| {
      m, t := CopyHasItsTick(init, before, part, k, y);
      assert init[..m] == steps[..m];
    } else {
      m, t := |steps|, s;
      assert steps[..m] == steps;
    }
  }

  /** Overtaking only by failure, in every execution. Take any acknowledged copy in any partition: it
      was written at step m, in a tick that fetched its event f in state s0. An event of the same sender
      that was in the outbox at that fetch and is older than f has a copy before it in the partition,
      unless its own decode or publish failed in that very tick. */
  lemma OvertakingOnlyByFailure(steps: seq<Step>, s: State, part: UserId -> nat, k: nat, y: nat)
    returns (m: nat, t: State, i: nat, s0: State)
    requires Reaches(steps, s) && y < |Ticks.AckedIn(s.topic, part, k)|
    ensures m <= |steps| && Reaches(steps[..m], t) && FetchedAt(steps[..m], t, i, s0)
    ensures t.worker.acked && |LogOf(steps[..m][i + 1..]).done| == t.worker.next < |t.worker.batch|
    ensures var f, got := t.worker.batch[t.worker.next], Ticks.AckedIn(s.topic, part, k);
            && got[y] == f.id && part(f.event.payload.sender) == k
            && forall a :: a in s0.db.outbox && s0.db.outbox[a].payload.sender == f.event.payload.sender
                           && s0.db.outbox[a].createdAt < f.event.createdAt ==>
                 a in got[..y] || Failed(t.worker.batch, LogOf(steps[..m][i + 1..]).done, a)
  {
    m, t := CopyHasItsTick(steps, s, part, k, y);
    i, s0 := TickHasBegun(steps[..m], t);
    CopyInHand(steps[..m], t, i, s0, part, k);
    var f, got, done := t.worker.batch[t.worker.next], Ticks.AckedIn(s.topic, part, k), LogOf(steps[..m][i + 1..]).done;
    assert got[..y] == GotBefore(PipeOf(s0), t.worker.batch, done, part, k) by {
      LastTwo(got, y, GotBefore(PipeOf(s0), t.worker.batch, done, part, k), f.id);
    }
    forall a | a in s0.db.outbox && s0.db.outbox[a].payload.sender == f.event.payload.sender
               && s0.db.outbox[a].createdAt < f.event.createdAt
      ensures a in got[..y] || Failed(t.worker.batch, done, a)
    {
      OlderIsAhead(steps[..m], t, i, s0, a, part);
    }
  }

  lemma LastTwo(got: seq<EventId>, y: nat, before: seq<EventId>, e: EventId)
    requires y < |got| && got[..y + 1] == before + [e]
    ensures got[..y] == before
  {
    assert got[..y + 1][..y] == got[..y];
    assert (before + [e])[..y] == before;
  }
}
