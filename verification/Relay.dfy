/** One tick of the outbox worker, and what ticks achieve. */
module Relay {
  import opened Ledger
  import opened Outbox

  /** How handling one fetched event ends. Attempts to write it that were not confirmed may still have
      left copies in the topic, and a failed mark may still have taken effect. */
  datatype Outcome =
    | DecodeFailed
    | PublishFailed(copies: nat)
    | MarkFailed(copies: nat, applied: bool)
    | Delivered(copies: nat)

  datatype Pipe = Pipe(outbox: Events, topic: seq<Record>)

  /** Kafka acknowledged the write. */
  predicate Acks(o: Outcome) {
    o.MarkFailed? || o.Delivered?
  }

  /** `published_at` is set. */
  predicate Marks(o: Outcome) {
    (o.MarkFailed? && o.applied) || o.Delivered?
  }

  function Attempt(p: Pipe, f: Fetched, o: Outcome): Pipe {
    Pipe(if Marks(o) then Marked(p.outbox, f.id) else p.outbox,
         p.topic + if o.DecodeFailed? then [] else Written(f, o.copies, Acks(o)))
  }

  /** The first |outcomes| events of the batch handled in order; a crash cuts the outcomes short. */
  function Tick(p: Pipe, batch: seq<Fetched>, outcomes: seq<Outcome>): Pipe
    requires |outcomes| <= |batch|
  {
    if outcomes == [] then p
    else
      var n := |outcomes| - 1;
      Attempt(Tick(p, batch, outcomes[..n]), batch[n], outcomes[n])
  }

  // --- at least once ---

  /** An acknowledged copy of e lies in the topic at or after position `from`. */
  predicate CopiedSince(topic: seq<Record>, from: nat, e: EventId) {
    exists i :: from <= i < |topic| && topic[i].event == e && topic[i].acked
  }

  /** The topic only grows, events are only marked, and each newly marked one was acknowledged since. */
  ghost predicate Progress(p: Pipe, p': Pipe) {
    && p.topic <= p'.topic && p'.outbox.Keys == p.outbox.Keys
    && forall e :: e in p.outbox ==>
         && (p'.outbox[e] == p.outbox[e] || p'.outbox[e] == p.outbox[e].(published := true))
         && (p'.outbox[e].published && !p.outbox[e].published ==> CopiedSince(p'.topic, |p.topic|, e))
  }

  lemma AttemptProgresses(p: Pipe, f: Fetched, o: Outcome)
    ensures Progress(p, Attempt(p, f, o))
  {
    var p' := Attempt(p, f, o);
    if Marks(o) {
      assert p'.topic[|p.topic| + o.copies] == Copy(f, true);
      assert CopiedSince(p'.topic, |p.topic|, f.id);
    }
  }

  lemma ProgressComposes(p: Pipe, q: Pipe, r: Pipe)
    requires Progress(p, q) && Progress(q, r)
    ensures Progress(p, r)
  {
  }

  /** At least once: whatever fails in a tick, an event is marked only after a copy was acknowledged. */
  lemma {:induction false} TickProgresses(p: Pipe, batch: seq<Fetched>, outcomes: seq<Outcome>)
    requires |outcomes| <= |batch|
    ensures Progress(p, Tick(p, batch, outcomes))
    decreases |outcomes|
  {
    if outcomes != [] {
      var n := |outcomes| - 1;
      TickProgresses(p, batch, outcomes[..n]);
      AttemptProgresses(Tick(p, batch, outcomes[..n]), batch[n], outcomes[n]);
      ProgressComposes(p, Tick(p, batch, outcomes[..n]), Tick(p, batch, outcomes));
    }
  }

  // --- one tick after another ---

  /** What the outside world does during one tick. */
  datatype TickPlan = TickPlan(fetchOk: bool, outcomes: seq<Outcome>)

  /** The outcomes that a batch of this size uses up. */
  function Used(outcomes: seq<Outcome>, size: nat): (r: seq<Outcome>)
    ensures |r| <= size
  {
    if |outcomes| <= size then outcomes else outcomes[..size]
  }

  /** A tick leads from p to p': nothing happens if the query fails; otherwise a proper fetch is handled. */
  ghost predicate Ticked(p: Pipe, plan: TickPlan, batch: seq<Fetched>, p': Pipe) {
    if !plan.fetchOk then p' == p
    else IsFetch(p.outbox, BATCH_SIZE, batch) && p' == Tick(p, batch, Used(plan.outcomes, |batch|))
  }

  /** Every tick of the plan took place, each on what the one before left. */
  ghost predicate IsRun(ticks: seq<TickPlan>, pipes: seq<Pipe>, batches: seq<seq<Fetched>>) {
    && |pipes| == |ticks| + 1 && |batches| == |ticks|
    && forall t :: 0 <= t < |ticks| ==> Ticked(pipes[t], ticks[t], batches[t], pipes[t + 1])
  }

  lemma RunGrows(ticks: seq<TickPlan>, pipes: seq<Pipe>, batches: seq<seq<Fetched>>,
                 plan: TickPlan, batch: seq<Fetched>, p: Pipe)
    requires IsRun(ticks, pipes, batches) && Ticked(pipes[|ticks|], plan, batch, p)
    ensures IsRun(ticks + [plan], pipes + [p], batches + [batch])
  {
  }

  lemma {:induction false} RunProgresses(ticks: seq<TickPlan>, pipes: seq<Pipe>, batches: seq<seq<Fetched>>, t: nat)
    requires IsRun(ticks, pipes, batches) && t <= |ticks|
    ensures Progress(pipes[0], pipes[t])
    decreases t
  {
    if t > 0 {
      RunProgresses(ticks, pipes, batches, t - 1);
      assert Ticked(pipes[t - 1], ticks[t - 1], batches[t - 1], pipes[t - 1 + 1]);
      if ticks[t - 1].fetchOk {
        TickProgresses(pipes[t - 1], batches[t - 1], Used(ticks[t - 1].outcomes, |batches[t - 1]|));
      }
      ProgressComposes(pipes[0], pipes[t - 1], pipes[t]);
    }
  }

  // --- the worker itself ---

  lemma {:induction false} OldestExists(outbox: Events, rest: set<EventId>) returns (oldest: EventId)
    requires rest != {} && forall e :: e in rest ==> e in outbox
    ensures oldest in rest && forall e :: e in rest ==> outbox[oldest].createdAt <= outbox[e].createdAt
    decreases rest
  {
    oldest :| oldest in rest;
    var others := rest - {oldest};
    if others != {} {
      var next := OldestExists(outbox, others);
      if outbox[next].createdAt < outbox[oldest].createdAt {
        oldest := next;
      }
    }
  }

  lemma BatchGrows(batch: seq<Fetched>, f: Fetched)
    ensures forall e :: InBatch(batch + [f], e) <==> InBatch(batch, e) || e == f.id
  {
    forall e ensures InBatch(batch + [f], e) <==> InBatch(batch, e) || e == f.id {
      if e == f.id {
        assert (batch + [f])[|batch|].id == e;
      } else if InBatch(batch, e) {
        var i :| 0 <= i < |batch| && batch[i].id == e;
        assert (batch + [f])[i].id == e;
      }
    }
  }

  /** Adding the oldest of what is left to a full fetch gives a fetch of one more. */
  lemma FetchOneMore(outbox: Events, batch: seq<Fetched>, e: EventId)
    requires IsFetch(outbox, |batch|, batch) && e in outbox && !outbox[e].published && !InBatch(batch, e)
    requires forall o :: o in outbox && !outbox[o].published && !InBatch(batch, o) ==>
               outbox[e].createdAt <= outbox[o].createdAt
    ensures IsFetch(outbox, |batch| + 1, batch + [Fetched(e, outbox[e])])
  {
    BatchGrows(batch, Fetched(e, outbox[e]));
    assert forall i :: 0 <= i < |batch| ==> InBatch(batch, batch[i].id);
  }

  class OutboxWorker {
    var outbox: Events
    var topic: seq<Record>

    constructor (outbox: Events)
      ensures this.outbox == outbox && topic == []
    {
      this.outbox, topic := outbox, [];
    }

    /** Oldest unpublished rows first, at most `limit` of them. */
    method GetUnpublished(limit: nat) returns (batch: seq<Fetched>)
      ensures IsFetch(outbox, limit, batch)
    {
      batch := [];
      var rest := set e | e in outbox && !outbox[e].published;
      while |batch| < limit && rest != {}
        invariant |batch| <= limit && IsFetch(outbox, |batch|, batch)
        invariant forall e :: e in rest <==> e in outbox && !outbox[e].published && !InBatch(batch, e)
        decreases rest
      {
        ghost var oldest := OldestExists(outbox, rest);
        var e :| e in rest && forall o :: o in rest ==> outbox[e].createdAt <= outbox[o].createdAt;
        FetchOneMore(outbox, batch, e);
        BatchGrows(batch, Fetched(e, outbox[e]));
        batch := batch + [Fetched(e, outbox[e])];
        rest := rest - {e};
      }
    }

    method MarkPublished(e: EventId)
      modifies this`outbox
      ensures outbox == Marked(old(outbox), e)
    {
      if e in outbox {
        outbox := outbox[e := outbox[e].(published := true)];
      }
    }

    /** One tick: fetch, then decode, publish and mark each event, going on to the next after any
        failure. `outcomes` says what the outside world does; the process survives as many attempts
        as there are outcomes, if the batch is that long. */
    method PublishPending(fetchOk: bool, outcomes: seq<Outcome>) returns (ghost batch: seq<Fetched>)
      modifies this
      ensures !fetchOk ==> outbox == old(outbox) && topic == old(topic)
      ensures fetchOk ==> IsFetch(old(outbox), BATCH_SIZE, batch)
      ensures fetchOk ==>
                Pipe(outbox, topic) == Tick(old(Pipe(outbox, topic)), batch, Used(outcomes, |batch|))
    {
      if !fetchOk {
        batch := [];
        return;
      }
      var events := GetUnpublished(BATCH_SIZE);
      batch := events;
      var used := Used(outcomes, |events|);
      for i := 0 to |used|
        invariant Pipe(outbox, topic) == Tick(old(Pipe(outbox, topic)), events, used[..i])
      {
        assert used[..i + 1][..i] == used[..i];
        var event, outcome := events[i], used[i];
        if outcome == DecodeFailed {
          continue;
        }
        topic := topic + Written(event, outcome.copies, Acks(outcome));
        if outcome.PublishFailed? {
          continue;
        }
        if outcome.MarkFailed? {
          if outcome.applied {
            MarkPublished(event.id);
          }
          continue;
        }
        MarkPublished(event.id);
      }
      assert used[..|used|] == used;
    }

    /** The polling loop, for as many ticks as happen before it is told to stop. `pipes` and `batches`
        record what every single tick found and fetched. */
    method Run(ticks: seq<TickPlan>) returns (ghost pipes: seq<Pipe>, ghost batches: seq<seq<Fetched>>)
      modifies this
      ensures IsRun(ticks, pipes, batches)
      ensures pipes[0] == old(Pipe(outbox, topic)) && pipes[|ticks|] == Pipe(outbox, topic)
      ensures Progress(old(Pipe(outbox, topic)), Pipe(outbox, topic))
    {
      pipes, batches := [Pipe(outbox, topic)], [];
      for t := 0 to |ticks|
        invariant IsRun(ticks[..t], pipes, batches)
        invariant pipes[0] == old(Pipe(outbox, topic)) && pipes[t] == Pipe(outbox, topic)
      {
        ghost var before := Pipe(outbox, topic);
        ghost var batch := PublishPending(ticks[t].fetchOk, ticks[t].outcomes);
        RunGrows(ticks[..t], pipes, batches, ticks[t], batch, Pipe(outbox, topic));
        assert ticks[..t + 1] == ticks[..t] + [ticks[t]];
        pipes, batches := pipes + [Pipe(outbox, topic)], batches + [batch];
      }
      assert ticks[..|ticks|] == ticks;
      RunProgresses(ticks, pipes, batches, |ticks|);
    }
  }

  // --- order ---

  /** The acknowledged copies in partition k, oldest first. */
  function AckedIn(topic: seq<Record>, part: UserId -> nat, k: nat): seq<EventId> {
    if topic == [] then []
    else
      var r := topic[|topic| - 1];
      AckedIn(topic[..|topic| - 1], part, k) + if r.acked && part(r.key) == k then [r.event] else []
  }

  predicate GoesTo(f: Fetched, o: Outcome, part: UserId -> nat, k: nat) {
    Acks(o) && part(f.event.payload.sender) == k
  }

  /** The events of the batch that partition k acknowledges, in batch order. */
  function Expected(batch: seq<Fetched>, outcomes: seq<Outcome>, part: UserId -> nat, k: nat): seq<EventId>
    requires |outcomes| <= |batch|
  {
    if outcomes == [] then []
    else
      var n := |outcomes| - 1;
      Expected(batch, outcomes[..n], part, k) + if GoesTo(batch[n], outcomes[n], part, k) then [batch[n].id] else []
  }

  lemma AckedInAppend(topic: seq<Record>, r: Record, part: UserId -> nat, k: nat)
    ensures AckedIn(topic + [r], part, k) == AckedIn(topic, part, k) + if r.acked && part(r.key) == k then [r.event] else []
  {
  }

  lemma UnackedUnseen(topic: seq<Record>, r: Record, part: UserId -> nat, k: nat)
    requires !r.acked
    ensures AckedIn(topic + [r], part, k) == AckedIn(topic, part, k)
  {
  }

  lemma {:induction false} UnconfirmedUnseen(topic: seq<Record>, f: Fetched, copies: nat, part: UserId -> nat, k: nat)
    ensures AckedIn(topic + Unconfirmed(f, copies), part, k) == AckedIn(topic, part, k)
    decreases copies
  {
    if copies == 0 {
      assert topic + [] == topic;
    } else {
      var before := topic + Unconfirmed(f, copies - 1);
      UnconfirmedUnseen(topic, f, copies - 1, part, k);
      UnackedUnseen(before, Copy(f, false), part, k);
      assert topic + Unconfirmed(f, copies) == before + [Copy(f, false)];
    }
  }

  lemma WrittenSeen(topic: seq<Record>, f: Fetched, copies: nat, acked: bool, part: UserId -> nat, k: nat)
    ensures AckedIn(topic + Written(f, copies, acked), part, k) ==
            AckedIn(topic, part, k) + if acked && part(f.event.payload.sender) == k then [f.id] else []
  {
    var tried := topic + Unconfirmed(f, copies);
    UnconfirmedUnseen(topic, f, copies, part, k);
    if acked {
      assert topic + Written(f, copies, acked) == tried + [Copy(f, true)];
      AckedInAppend(tried, Copy(f, true), part, k);
    } else {
      assert topic + Written(f, copies, acked) == tried;
    }
  }

  /** However often it is retried, one event adds at most one acknowledged copy. */
  lemma AttemptDelivers(p: Pipe, f: Fetched, o: Outcome, part: UserId -> nat, k: nat)
    ensures AckedIn(Attempt(p, f, o).topic, part, k) ==
            AckedIn(p.topic, part, k) + if GoesTo(f, o, part, k) then [f.id] else []
  {
    if o.DecodeFailed? {
      assert p.topic + [] == p.topic;
    } else {
      WrittenSeen(p.topic, f, o.copies, Acks(o), part, k);
    }
  }

  /** Every partition receives, in batch order, exactly the events of the batch that were acknowledged. */
  lemma {:induction false} TickDelivers(p: Pipe, batch: seq<Fetched>, outcomes: seq<Outcome>, part: UserId -> nat, k: nat)
    requires |outcomes| <= |batch|
    ensures AckedIn(Tick(p, batch, outcomes).topic, part, k) ==
            AckedIn(p.topic, part, k) + Expected(batch, outcomes, part, k)
    decreases |outcomes|
  {
    if outcomes != [] {
      var n := |outcomes| - 1;
      var before := Tick(p, batch, outcomes[..n]);
      TickDelivers(p, batch, outcomes[..n], part, k);
      AttemptDelivers(before, batch[n], outcomes[n], part, k);
    }
  }

  /** Where the copy of event i lands among the expected ones. */
  function Position(batch: seq<Fetched>, outcomes: seq<Outcome>, part: UserId -> nat, k: nat, i: nat): nat
    requires |outcomes| <= |batch| && i <= |outcomes|
  {
    |Expected(batch, outcomes[..i], part, k)|
  }

  lemma {:induction false} ExpectedAt(batch: seq<Fetched>, outcomes: seq<Outcome>, part: UserId -> nat, k: nat, i: nat)
    requires |outcomes| <= |batch| && i < |outcomes|
    ensures Expected(batch, outcomes[..i], part, k) <= Expected(batch, outcomes, part, k)
    ensures GoesTo(batch[i], outcomes[i], part, k) ==>
              && Position(batch, outcomes, part, k, i) < |Expected(batch, outcomes, part, k)|
              && Expected(batch, outcomes, part, k)[Position(batch, outcomes, part, k, i)] == batch[i].id
    decreases |outcomes|
  {
    var n := |outcomes| - 1;
    if i < n {
      ExpectedAt(batch, outcomes[..n], part, k, i);
      assert outcomes[..n][..i] == outcomes[..i];
    }
  }

  lemma {:induction false} ExpectedOnly(batch: seq<Fetched>, outcomes: seq<Outcome>, part: UserId -> nat, k: nat,
                                        e: EventId)
    requires |outcomes| <= |batch| && e in Expected(batch, outcomes, part, k)
    ensures exists i :: 0 <= i < |outcomes| && batch[i].id == e && Acks(outcomes[i])
    decreases |outcomes|
  {
    var n := |outcomes| - 1;
    if !(GoesTo(batch[n], outcomes[n], part, k) && batch[n].id == e) {
      ExpectedOnly(batch, outcomes[..n], part, k, e);
    }
  }

  lemma BatchOrderKept(batch: seq<Fetched>, outcomes: seq<Outcome>, part: UserId -> nat, k: nat, i: nat, j: nat)
    requires |outcomes| <= |batch| && i < j < |outcomes|
    requires GoesTo(batch[i], outcomes[i], part, k) && GoesTo(batch[j], outcomes[j], part, k)
    ensures var got := Expected(batch, outcomes, part, k);
            exists a, b :: 0 <= a < b < |got| && got[a] == batch[i].id && got[b] == batch[j].id
  {
    var got := Expected(batch, outcomes, part, k);
    var a, b := Position(batch, outcomes, part, k, i), Position(batch, outcomes, part, k, j);
    ExpectedAt(batch, outcomes, part, k, i);
    ExpectedAt(batch, outcomes, part, k, j);
    assert a < b by {
      ExpectedAt(batch, outcomes[..j], part, k, i);
      assert outcomes[..j][..i] == outcomes[..i];
    }
    assert got[a] == batch[i].id && got[b] == batch[j].id;
  }

  /** Overtaking only by failure. When a later event of the same sender is acknowledged in a tick,
      the earlier one either precedes it in their partition, or its own decode or publish failed in
      that very tick (and then the tick acknowledges no copy of it). */
  lemma OvertakingOnlyByFailure(outbox: Events, batch: seq<Fetched>, outcomes: seq<Outcome>, part: UserId -> nat,
                                i: nat, j: nat)
    requires IsFetch(outbox, BATCH_SIZE, batch) && |outcomes| <= |batch| && i < j < |outcomes|
    requires batch[i].event.payload.sender == batch[j].event.payload.sender && Acks(outcomes[j])
    ensures var k := part(batch[i].event.payload.sender);
            var got := Expected(batch, outcomes, part, k);
            if Acks(outcomes[i]) then exists a, b :: 0 <= a < b < |got| && got[a] == batch[i].id && got[b] == batch[j].id
            else (outcomes[i].DecodeFailed? || outcomes[i].PublishFailed?) && batch[i].id !in got
  {
    var k := part(batch[i].event.payload.sender);
    if Acks(outcomes[i]) {
      BatchOrderKept(batch, outcomes, part, k, i, j);
    } else if batch[i].id in Expected(batch, outcomes, part, k) {
      ExpectedOnly(batch, outcomes, part, k, batch[i].id);
    }
  }

  /** The rows of the batch whose key goes to partition k, in fetch (`created_at`) order. */
  function RowsFor(batch: seq<Fetched>, part: UserId -> nat, k: nat): seq<EventId> {
    if batch == [] then []
    else
      var f := batch[|batch| - 1];
      RowsFor(batch[..|batch| - 1], part, k) + if InPart(f, part, k) then [f.id] else []
  }

  /** With no failure every row of the batch that goes to partition k is expected there. */
  lemma {:induction false} SmoothTickExpects(batch: seq<Fetched>, outcomes: seq<Outcome>, part: UserId -> nat, k: nat)
    requires |outcomes| == |batch| && forall i :: 0 <= i < |outcomes| ==> Acks(outcomes[i])
    ensures Expected(batch, outcomes, part, k) == RowsFor(batch, part, k)
    decreases |outcomes|
  {
    if outcomes != [] {
      var n := |outcomes| - 1;
      SmoothTickExpects(batch[..n], outcomes[..n], part, k);
      ExpectedPrefix(batch, n, outcomes[..n], part, k);
    }
  }

  lemma {:induction false} ExpectedPrefix(batch: seq<Fetched>, n: nat, outcomes: seq<Outcome>, part: UserId -> nat, k: nat)
    requires |outcomes| <= n <= |batch|
    ensures Expected(batch[..n], outcomes, part, k) == Expected(batch, outcomes, part, k)
    decreases |outcomes|
  {
    if outcomes != [] {
      ExpectedPrefix(batch, n, outcomes[..|outcomes| - 1], part, k);
    }
  }

  predicate InPart(f: Fetched, part: UserId -> nat, k: nat) {
    part(f.event.payload.sender) == k
  }

  /** Rows, each of them in the table, by age. */
  ghost predicate ByAge(table: Events, ids: seq<EventId>) {
    && (forall i :: 0 <= i < |ids| ==> ids[i] in table)
    && forall i, j :: 0 <= i < j < |ids| ==> ids[i] != ids[j] && table[ids[i]].createdAt <= table[ids[j]].createdAt
  }

  /** e is in the batch and goes to partition k. */
  predicate Has(batch: seq<Fetched>, part: UserId -> nat, k: nat, e: EventId) {
    exists i :: 0 <= i < |batch| && batch[i].id == e && InPart(batch[i], part, k)
  }

  lemma {:induction false} RowsForOnly(batch: seq<Fetched>, part: UserId -> nat, k: nat)
    ensures forall e :: e in RowsFor(batch, part, k) <==> Has(batch, part, k, e)
    decreases |batch|
  {
    if batch != [] {
      var n := |batch| - 1;
      RowsForOnly(batch[..n], part, k);
      forall e ensures Has(batch, part, k, e) <==>
                       Has(batch[..n], part, k, e) || (batch[n].id == e && InPart(batch[n], part, k))
      {
        if Has(batch[..n], part, k, e) {
          var i :| 0 <= i < n && batch[..n][i].id == e && InPart(batch[i], part, k);
          assert batch[i].id == e;
        }
      }
    }
  }

  lemma ByAgeGrows(table: Events, ids: seq<EventId>, e: EventId)
    requires ByAge(table, ids) && e in table
    requires forall d :: d in ids ==> d != e && table[d].createdAt <= table[e].createdAt
    ensures ByAge(table, ids + [e])
  {
  }

  lemma {:induction false} RowsForByAge(table: Events, batch: seq<Fetched>, part: UserId -> nat, k: nat)
    requires ByAge(table, seq(|batch|, i requires 0 <= i < |batch| => batch[i].id))
    ensures ByAge(table, RowsFor(batch, part, k))
    decreases |batch|
  {
    if batch != [] {
      var n := |batch| - 1;
      var ids := seq(|batch|, i requires 0 <= i < |batch| => batch[i].id);
      assert ids[..n] == seq(n, i requires 0 <= i < n => batch[..n][i].id);
      RowsForByAge(table, batch[..n], part, k);
      RowsForOnly(batch[..n], part, k);
      assert ids[n] == batch[n].id;
      forall d | d in RowsFor(batch[..n], part, k)
        ensures d != batch[n].id && d in table && table[d].createdAt <= table[batch[n].id].createdAt
      {
        var i :| 0 <= i < n && batch[..n][i].id == d && InPart(batch[..n][i], part, k);
        assert ids[i] == d;
      }
      if InPart(batch[n], part, k) {
        ByAgeGrows(table, RowsFor(batch[..n], part, k), batch[n].id);
      }
    }
  }

  lemma FetchIsByAge(table: Events, limit: nat, batch: seq<Fetched>)
    requires IsFetch(table, limit, batch)
    ensures ByAge(table, seq(|batch|, i requires 0 <= i < |batch| => batch[i].id))
  {
    forall i | 0 <= i < |batch| ensures batch[i].id in table && table[batch[i].id] == batch[i].event {
      assert IsUnpublished(table, batch[i]);
    }
  }

  /** With no failure every partition grows by its whole part of the batch, in `created_at` order. */
  lemma SmoothTickKeepsOrder(p: Pipe, limit: nat, batch: seq<Fetched>, outcomes: seq<Outcome>, part: UserId -> nat, k: nat)
    requires IsFetch(p.outbox, limit, batch)
    requires |outcomes| == |batch| && forall i :: 0 <= i < |outcomes| ==> Acks(outcomes[i])
    ensures var rows := RowsFor(batch, part, k);
            && AckedIn(Tick(p, batch, outcomes).topic, part, k) == AckedIn(p.topic, part, k) + rows
            && ByAge(p.outbox, rows)
            && forall e :: e in rows <==> Has(batch, part, k, e)
  {
    TickDelivers(p, batch, outcomes, part, k);
    SmoothTickExpects(batch, outcomes, part, k);
    RowsForOnly(batch, part, k);
    FetchIsByAge(p.outbox, limit, batch);
    RowsForByAge(p.outbox, batch, part, k);
  }
}
