/** How fast the backlog drains when some events fail every time. */
module Drain {
  import opened Ledger
  import opened Outbox
  import opened Relay

  /** Unpublished events that are not among the failing ones. */
  function HealthyLeft(outbox: Events, bad: set<EventId>): set<EventId> {
    set e | e in outbox && !outbox[e].published && e !in bad
  }

  /** A whole tick with nothing inserted meanwhile: failing events fail before they are marked,
      all others are delivered. */
  predicate IsRound(p: Pipe, limit: nat, bad: set<EventId>, batch: seq<Fetched>, outcomes: seq<Outcome>) {
    && IsFetch(p.outbox, limit, batch) && |outcomes| == |batch|
    && forall i :: 0 <= i < |batch| ==> (Marks(outcomes[i]) <==> batch[i].id !in bad)
  }

  ghost predicate Rounds(pipes: seq<Pipe>, limit: nat, bad: set<EventId>) {
    forall t :: 0 <= t < |pipes| - 1 ==> Follows(pipes[t], pipes[t + 1], limit, bad)
  }

  ghost predicate Follows(p: Pipe, p': Pipe, limit: nat, bad: set<EventId>) {
    exists batch, outcomes :: IsRound(p, limit, bad, batch, outcomes) && p' == Tick(p, batch, outcomes)
  }

  lemma {:induction false} FetchExists(outbox: Events, limit: nat) returns (batch: seq<Fetched>)
    ensures IsFetch(outbox, limit, batch)
    decreases limit
  {
    batch := [];
    if limit > 0 {
      batch := FetchExists(outbox, limit - 1);
      var rest := set e | e in outbox && !outbox[e].published && !InBatch(batch, e);
      if rest != {} {
        var e := OldestExists(outbox, rest);
        FetchOneMore(outbox, batch, e);
        batch := batch + [Fetched(e, outbox[e])];
      } else {
        assert forall e :: e in outbox && !outbox[e].published && !InBatch(batch, e) ==> e in rest;
      }
    }
  }

  /** There is always a next round. */
  lemma RoundExists(p: Pipe, limit: nat, bad: set<EventId>) returns (p': Pipe)
    ensures Follows(p, p', limit, bad)
  {
    var batch := FetchExists(p.outbox, limit);
    var outcomes := seq(|batch|, i requires 0 <= i < |batch| => if batch[i].id in bad then DecodeFailed else Delivered(0));
    p' := Tick(p, batch, outcomes);
    assert IsRound(p, limit, bad, batch, outcomes);
  }

  predicate MarkedBy(batch: seq<Fetched>, outcomes: seq<Outcome>, e: EventId)
    requires |outcomes| <= |batch|
  {
    exists i :: 0 <= i < |outcomes| && batch[i].id == e && Marks(outcomes[i])
  }

  /** A tick publishes exactly the events it marks. */
  lemma {:induction false} TickMarks(p: Pipe, batch: seq<Fetched>, outcomes: seq<Outcome>)
    requires |outcomes| <= |batch|
    ensures var after := Tick(p, batch, outcomes).outbox;
            && after.Keys == p.outbox.Keys
            && forall e :: e in after ==>
                 && after[e].createdAt == p.outbox[e].createdAt
                 && (after[e].published <==> p.outbox[e].published || MarkedBy(batch, outcomes, e))
    decreases |outcomes|
  {
    if outcomes != [] {
      var n := |outcomes| - 1;
      TickMarks(p, batch, outcomes[..n]);
      forall e
        ensures MarkedBy(batch, outcomes, e) <==>
                MarkedBy(batch, outcomes[..n], e) || (batch[n].id == e && Marks(outcomes[n]))
      {
        if MarkedBy(batch, outcomes[..n], e) {
          var i :| 0 <= i < n && batch[i].id == e && Marks(outcomes[..n][i]);
          assert Marks(outcomes[i]);
        }
      }
    }
  }

  function Ids(batch: seq<Fetched>): set<EventId> {
    set i | 0 <= i < |batch| :: batch[i].id
  }

  lemma {:induction false} IdsAreMany(batch: seq<Fetched>)
    requires forall i, j :: 0 <= i < j < |batch| ==> batch[i].id != batch[j].id
    ensures |Ids(batch)| == |batch|
    decreases |batch|
  {
    if batch != [] {
      var n := |batch| - 1;
      IdsAreMany(batch[..n]);
      assert Ids(batch) == Ids(batch[..n]) + {batch[n].id} by {
        assert forall i :: 0 <= i < n ==> batch[..n][i].id == batch[i].id;
      }
      assert batch[n].id !in Ids(batch[..n]);
    }
  }

  /** What a round leaves healthy and unpublished is what it did not fetch. */
  lemma RoundLeaves(p: Pipe, limit: nat, bad: set<EventId>, batch: seq<Fetched>, outcomes: seq<Outcome>)
    requires IsRound(p, limit, bad, batch, outcomes)
    ensures HealthyLeft(Tick(p, batch, outcomes).outbox, bad) == HealthyLeft(p.outbox, bad) - Ids(batch)
    ensures Ids(batch) - bad <= HealthyLeft(p.outbox, bad)
  {
    TickMarks(p, batch, outcomes);
    forall e ensures MarkedBy(batch, outcomes, e) <==> e in Ids(batch) && e !in bad {
      if e in Ids(batch) && e !in bad {
        var i :| 0 <= i < |batch| && batch[i].id == e;
        assert Marks(outcomes[i]);
      }
    }
    forall e | e in Ids(batch) ensures e in p.outbox && !p.outbox[e].published {
      var i :| 0 <= i < |batch| && batch[i].id == e;
      assert IsUnpublished(p.outbox, batch[i]);
    }
  }

  function Max0(n: int): nat {
    if n > 0 then n else 0
  }

  lemma Sizes(whole: set<EventId>, ids: set<EventId>, bad: set<EventId>)
    requires ids - bad <= whole && whole !! bad
    ensures |whole - ids| <= |whole| - |ids| + |bad|
  {
    assert whole - ids == whole - (ids - bad);
    assert |whole - (ids - bad)| == |whole| - |ids - bad|;
    assert ids == (ids - bad) + (ids * bad);
    assert |ids * bad| <= |bad| by {
      assert bad == (ids * bad) + (bad - ids);
    }
  }

  /** A round delivers at least limit - |bad| healthy events, or all that are left. */
  lemma RoundProgress(p: Pipe, limit: nat, bad: set<EventId>, p': Pipe)
    requires Follows(p, p', limit, bad) && |bad| < limit
    ensures |HealthyLeft(p'.outbox, bad)| <= Max0(|HealthyLeft(p.outbox, bad)| - (limit - |bad|))
  {
    var batch, outcomes :| IsRound(p, limit, bad, batch, outcomes) && p' == Tick(p, batch, outcomes);
    RoundLeaves(p, limit, bad, batch, outcomes);
    var left := HealthyLeft(p.outbox, bad);
    if |batch| == limit {
      IdsAreMany(batch);
      Sizes(left, Ids(batch), bad);
    } else {
      forall e | e in left ensures e in Ids(batch) {
        assert InBatch(batch, e);
      }
      assert left - Ids(batch) == {};
    }
  }

  lemma {:induction false} DrainsBy(pipes: seq<Pipe>, limit: nat, bad: set<EventId>, d: nat, t: nat)
    requires Rounds(pipes, limit, bad) && |bad| + d == limit && d > 0 && t < |pipes|
    ensures |HealthyLeft(pipes[t].outbox, bad)| <= Max0(|HealthyLeft(pipes[0].outbox, bad)| - t * d)
    decreases t
  {
    if t > 0 {
      DrainsBy(pipes, limit, bad, d, t - 1);
      assert Follows(pipes[t - 1], pipes[t - 1 + 1], limit, bad);
      RoundProgress(pipes[t - 1], limit, bad, pipes[t]);
      assert t * d == (t - 1) * d + d;
    }
  }

  function CeilDiv(h: nat, d: nat): nat
    requires d > 0
  {
    (h + d - 1) / d
  }

  lemma CeilDivCovers(h: nat, d: nat, t: nat)
    requires d > 0 && CeilDiv(h, d) <= t
    ensures h <= t * d
  {
    var c := CeilDiv(h, d);
    assert h + d - 1 == c * d + (h + d - 1) % d;
    assert t * d == c * d + (t - c) * d;
    assert (t - c) * d >= 0;
  }

  /** CeilDiv is the least number of batches of size d that hold h events. */
  lemma CeilDivIsLeast(h: nat, d: nat, t: nat)
    requires d > 0
    ensures h <= t * d <==> CeilDiv(h, d) <= t
  {
    var c := CeilDiv(h, d);
    assert h + d - 1 == c * d + (h + d - 1) % d;
    assert c * d < h + d;
    if c <= t {
      CeilDivCovers(h, d, t);
    } else {
      assert (c - 1 - t) * d >= 0;
      assert t * d == c * d - d - (c - 1 - t) * d;
    }
  }

  /** A tick over at most ten unpublished events fetches them all, and over more it fetches ten. */
  lemma FetchTakesTen(outbox: Events, batch: seq<Fetched>)
    requires IsFetch(outbox, BATCH_SIZE, batch)
    ensures |HealthyLeft(outbox, {})| <= 10 ==> Ids(batch) == HealthyLeft(outbox, {})
    ensures |HealthyLeft(outbox, {})| > 10 ==> |batch| == 10 && Ids(batch) <= HealthyLeft(outbox, {})
  {
    var left := HealthyLeft(outbox, {});
    IdsAreMany(batch);
    forall e | e in Ids(batch) ensures e in left {
      var i :| 0 <= i < |batch| && batch[i].id == e;
      assert IsUnpublished(outbox, batch[i]);
    }
    if |batch| < 10 {
      forall e | e in left ensures e in Ids(batch) {
        assert InBatch(batch, e);
      }
    } else if |left| <= 10 {
      InsideOrMissing(left, Ids(batch));
      assert left == Ids(batch) + (left - Ids(batch));
    }
  }

  /** The drain bound: with fewer failing events than a batch holds, all h healthy ones are
      published within ceil(h / (limit - |bad|)) ticks, however ties in `created_at` are broken. */
  lemma BacklogDrains(pipes: seq<Pipe>, limit: nat, bad: set<EventId>, t: nat)
    requires Rounds(pipes, limit, bad) && |bad| < limit && t < |pipes|
    requires CeilDiv(|HealthyLeft(pipes[0].outbox, bad)|, limit - |bad|) <= t
    ensures HealthyLeft(pipes[t].outbox, bad) == {}
  {
    var h, d := |HealthyLeft(pipes[0].outbox, bad)|, limit - |bad|;
    CeilDivCovers(h, d, t);
    DrainsBy(pipes, limit, bad, d, t);
  }

  /** The ticks of a run in which every query succeeds and exactly the failing events stay unmarked
      are rounds. */
  lemma RunIsRounds(ticks: seq<TickPlan>, pipes: seq<Pipe>, batches: seq<seq<Fetched>>, bad: set<EventId>)
    requires IsRun(ticks, pipes, batches)
    requires forall t :: 0 <= t < |ticks| ==>
               && ticks[t].fetchOk
               && IsRound(pipes[t], BATCH_SIZE, bad, batches[t], Used(ticks[t].outcomes, |batches[t]|))
    ensures Rounds(pipes, BATCH_SIZE, bad)
  {
    forall t | 0 <= t < |pipes| - 1 ensures Follows(pipes[t], pipes[t + 1], BATCH_SIZE, bad) {
      assert Ticked(pipes[t], ticks[t], batches[t], pipes[t + 1]);
    }
  }

  /** The query succeeds and nothing fails, whatever is fetched. */
  predicate Smooth(plan: TickPlan) {
    plan.fetchOk && |plan.outcomes| >= BATCH_SIZE && forall i :: 0 <= i < |plan.outcomes| ==> plan.outcomes[i].Delivered?
  }

  /** What a run of smooth ticks achieves: after ceil(h / 10) of them none of the h unpublished events is
      left, and each of them has an acknowledged copy in the topic that was not there before. */
  lemma SmoothRunDrains(ticks: seq<TickPlan>, pipes: seq<Pipe>, batches: seq<seq<Fetched>>)
    requires IsRun(ticks, pipes, batches) && forall t :: 0 <= t < |ticks| ==> Smooth(ticks[t])
    requires CeilDiv(|HealthyLeft(pipes[0].outbox, {})|, 10) <= |ticks|
    ensures pipes[|ticks|].outbox.Keys == pipes[0].outbox.Keys
    ensures forall e :: e in pipes[0].outbox ==> pipes[|ticks|].outbox[e].published
    ensures forall e :: e in pipes[0].outbox && !pipes[0].outbox[e].published ==>
              CopiedSince(pipes[|ticks|].topic, |pipes[0].topic|, e)
  {
    var n := |ticks|;
    forall t | 0 <= t < n
      ensures IsRound(pipes[t], BATCH_SIZE, {}, batches[t], Used(ticks[t].outcomes, |batches[t]|))
    {
      assert Ticked(pipes[t], ticks[t], batches[t], pipes[t + 1]);
    }
    RunIsRounds(ticks, pipes, batches, {});
    BacklogDrains(pipes, BATCH_SIZE, {}, n);
    RunProgresses(ticks, pipes, batches, n);
    forall e | e in pipes[0].outbox ensures pipes[n].outbox[e].published {
      assert e !in HealthyLeft(pipes[n].outbox, {});
    }
  }

  /** As many failing events as a batch holds, all unpublished and older than everything else. */
  predicate Clogged(outbox: Events, limit: nat, bad: set<EventId>) {
    && |bad| == limit
    && (forall b: EventId :: b in bad ==> b in outbox && !outbox[b].published)
    && forall b: EventId, e: EventId ::
         b in bad && e in HealthyLeft(outbox, bad) ==> outbox[b].createdAt < outbox[e].createdAt
  }

  /** What was left out is not older than what was fetched. */
  lemma FetchedIsOlder(outbox: Events, limit: nat, batch: seq<Fetched>, b: EventId)
    requires IsFetch(outbox, limit, batch) && b in outbox && !outbox[b].published && b !in Ids(batch)
    ensures forall i :: 0 <= i < |batch| ==> batch[i].event.createdAt <= outbox[b].createdAt
  {
  }

  /** A set no larger than another either lies inside it or misses some of it. */
  lemma InsideOrMissing(ids: set<EventId>, bad: set<EventId>)
    requires |ids| <= |bad|
    ensures ids <= bad || exists b :: b in bad && b !in ids
  {
    if bad <= ids {
      assert ids == bad + (ids - bad);
      assert ids - bad == {};
    }
  }

  lemma ClogFillsBatch(outbox: Events, limit: nat, bad: set<EventId>, batch: seq<Fetched>)
    requires Clogged(outbox, limit, bad) && IsFetch(outbox, limit, batch)
    ensures Ids(batch) <= bad
  {
    IdsAreMany(batch);
    InsideOrMissing(Ids(batch), bad);
    forall b, i | b in bad && b !in Ids(batch) && 0 <= i < |batch| ensures batch[i].id in bad {
      FetchedIsOlder(outbox, limit, batch, b);
      assert IsUnpublished(outbox, batch[i]);
      assert batch[i].id in bad || batch[i].id in HealthyLeft(outbox, bad);
    }
  }

  /** The bound on failing events is sharp: with a full batch of them at the head of the queue,
      no other event is ever published. */
  lemma {:induction false} CloggedQueueStarves(pipes: seq<Pipe>, limit: nat, bad: set<EventId>, t: nat)
    requires Rounds(pipes, limit, bad) && t < |pipes| && Clogged(pipes[0].outbox, limit, bad)
    ensures HealthyLeft(pipes[t].outbox, bad) == HealthyLeft(pipes[0].outbox, bad)
    ensures Clogged(pipes[t].outbox, limit, bad)
    decreases t
  {
    if t > 0 {
      CloggedQueueStarves(pipes, limit, bad, t - 1);
      var p := pipes[t - 1];
      assert Follows(p, pipes[t - 1 + 1], limit, bad);
      var batch, outcomes :| IsRound(p, limit, bad, batch, outcomes) && pipes[t] == Tick(p, batch, outcomes);
      ClogFillsBatch(p.outbox, limit, bad, batch);
      RoundLeaves(p, limit, bad, batch, outcomes);
      TickMarks(p, batch, outcomes);
    }
  }
}
