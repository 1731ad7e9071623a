/** When creations wait for each other's wallet rows, and when they cannot get stuck. */
module Deadlock {
  import opened Wrappers
  import opened Ledger
  import opened Machine
  import opened MachineLaws
  import opened Serializability
  import opened Scenarios
  import opened Rings

  /** The due UPDATE matches a row that another creation holds. */
  predicate Blocked(s: State, p: Pid)
    requires p in s.creations
  {
    var c := s.creations[p];
    || (c.pc == Started && Debitable(View(s, c), c.order.txn.sender, c.order.txn.amount)
        && !LockFree(s, c.order.txn.sender, p))
    || (c.pc == Debited && Enabled(View(s, c), c.order.txn.receiver) && !LockFree(s, c.order.txn.receiver, p))
  }

  /** The row a blocked creation waits for. */
  function Awaited(c: Creation): UserId {
    if c.pc == Started then c.order.txn.sender else c.order.txn.receiver
  }

  /** The creation can go on by itself: a statement, a commit, or an error that ends it. */
  ghost predicate CanMove(s: State, p: Pid) {
    p in s.creations && exists m: MoneyStep :: m != Abort && MoneyNext(s, p, m).Some?
  }

  /** Only a lock held by another creation keeps a creation from moving on. */
  lemma OnlyLocksBlock(s: State, p: Pid)
    requires Inv(s) && p in s.creations
    ensures CanMove(s, p) <==> !Blocked(s, p)
  {
    var c := s.creations[p];
    if Blocked(s, p) {
      forall m: MoneyStep | m != Abort ensures MoneyNext(s, p, m).None? { BlockedCannotMove(s, p, m); }
    } else {
      var m := NextMove(s, p);
    }
  }

  lemma BlockedCannotMove(s: State, p: Pid, m: MoneyStep)
    requires p in s.creations && Blocked(s, p) && m != Abort
    ensures MoneyNext(s, p, m).None?
  {
  }

  lemma FirstMove(s: State, p: Pid) returns (m: MoneyStep)
    requires p in s.creations && s.creations[p].pc == Started && !Blocked(s, p)
    ensures m != Abort && MoneyNext(s, p, m).Some?
  {
    var c := s.creations[p];
    m := if !Debitable(View(s, c), c.order.txn.sender, c.order.txn.amount) then DebitMiss
         else if Debit(View(s, c), c.order.txn.sender, c.order.txn.amount).Err? then Fail else DebitRow;
  }

  lemma SecondMove(s: State, p: Pid) returns (m: MoneyStep)
    requires p in s.creations && s.creations[p].pc == Debited && !Blocked(s, p)
    ensures m != Abort && MoneyNext(s, p, m).Some?
  {
    var c := s.creations[p];
    m := if !Enabled(View(s, c), c.order.txn.receiver) then CreditMiss
         else if Credit(View(s, c), c.order.txn.receiver, c.order.txn.amount).Err? then Fail else CreditRow;
  }

  /** Once the money has moved nothing can block. */
  lemma LaterMove(s: State, p: Pid) returns (m: MoneyStep)
    requires p in s.creations && s.creations[p].pc != Started && s.creations[p].pc != Debited
    requires s.creations[p].order.eventId !in s.db.outbox
    requires s.creations[p].pc == EventInserted ==> s.creations[p].row.Some? && s.creations[p].event.Some?
    ensures m != Abort && MoneyNext(s, p, m).Some?
  {
    match s.creations[p].pc
    case Credited => m := if CanInsert(s, p) then InsertRow else Fail;
    case RowInserted => m := InsertEvent;
    case EventInserted => m := Commit;
    case _ => m := Classify;
  }

  lemma NextMove(s: State, p: Pid) returns (m: MoneyStep)
    requires Inv(s) && p in s.creations && !Blocked(s, p)
    ensures m != Abort && MoneyNext(s, p, m).Some?
  {
    assert CreationOk(s.db, s.creations[p]);
    match s.creations[p].pc
    case Started => m := FirstMove(s, p);
    case Debited => m := SecondMove(s, p);
    case _ => m := LaterMove(s, p);
  }

  /** Transfers between different wallets go up in rank. */
  ghost predicate Ranked(s: State, rank: UserId -> nat) {
    forall p :: p in s.creations ==>
      var t := s.creations[p].order.txn; t.sender != t.receiver ==> rank(t.sender) < rank(t.receiver)
  }

  /** A creation that holds a row and waits holds its sender's row and waits for another wallet. */
  lemma HolderThatWaits(s: State, q: Pid, u: UserId)
    requires Inv(s) && q in s.creations && u in s.creations[q].writes && Blocked(s, q)
    ensures s.creations[q].pc == Debited && u == s.creations[q].order.txn.sender
    ensures s.creations[q].order.txn.sender != s.creations[q].order.txn.receiver
  {
    assert CreationOk(s.db, s.creations[q]);
  }

  /** The creations whose sender ranks at least as high as u. */
  function Above(s: State, rank: UserId -> nat, u: UserId): set<Pid> {
    set q | q in s.creations && rank(s.creations[q].order.txn.sender) >= rank(u)
  }

  /** Whoever holds the awaited row and waits in turn waits for a higher one. */
  lemma WaitsClimb(s: State, rank: UserId -> nat, u: UserId, q: Pid)
    requires Inv(s) && Ranked(s, rank) && q in s.creations && u in s.creations[q].writes && Blocked(s, q)
    ensures Above(s, rank, Awaited(s.creations[q])) < Above(s, rank, u)
  {
    HolderThatWaits(s, q, u);
    assert q in Above(s, rank, u) && q !in Above(s, rank, Awaited(s.creations[q]));
  }

  lemma BlockerExists(s: State, p: Pid) returns (q: Pid)
    requires p in s.creations && Blocked(s, p)
    ensures q in s.creations && q != p && Awaited(s.creations[p]) in s.creations[q].writes
  {
    q :| q in s.creations && q != p && Awaited(s.creations[p]) in s.creations[q].writes;
  }

  /** Following the waits upwards ends at a creation that is not blocked. */
  lemma {:induction false} FollowWaits(s: State, rank: UserId -> nat, p: Pid) returns (mover: Pid)
    requires Inv(s) && Ranked(s, rank) && p in s.creations
    ensures mover in s.creations && !Blocked(s, mover)
    decreases Above(s, rank, Awaited(s.creations[p]))
  {
    mover := p;
    if Blocked(s, p) {
      var q := BlockerExists(s, p);
      mover := q;
      if Blocked(s, q) {
        WaitsClimb(s, rank, Awaited(s.creations[p]), q);
        mover := FollowWaits(s, rank, q);
      }
    }
  }

  /** No deadlock on acyclic transfers: while creations are in flight, one of them can go on
      without being rolled back from outside. */
  lemma AcyclicTransfersNeverDeadlock(steps: seq<Step>, s: State, rank: UserId -> nat)
    requires Reaches(steps, s) && Ranked(s, rank) && s.creations != map[]
    ensures exists p :: CanMove(s, p)
  {
    ReachableInv(steps, s);
    var p :| p in s.creations;
    var mover := FollowWaits(s, rank, p);
    OnlyLocksBlock(s, mover);
  }

  // --- rings of waiting creations ---

  function Sender(c: Creation): UserId {
    c.order.txn.sender
  }

  function Receiver(c: Creation): UserId {
    c.order.txn.receiver
  }

  /** The transfers in flight, each from its sender to its receiver. */
  function Transfers(s: State): Edges {
    map p | p in s.creations :: Edge(Sender(s.creations[p]), Receiver(s.creations[p]))
  }

  /** A ring of transfers that have debited: each wants the row the next one holds. */
  predicate WaitRing(s: State, ps: seq<Pid>) {
    Ring(Transfers(s), ps) && forall i :: 0 <= i < |ps| ==> s.creations[ps[i]].pc == Debited
  }

  /** A creation that has debited waits for one that holds its receiver's row. */
  lemma WaitsFor(s: State, p: Pid, q: Pid)
    requires Inv(s) && p in s.creations && q in s.creations
    requires s.creations[p].pc == Debited && s.creations[q].pc == Debited
    requires Receiver(s.creations[p]) == Sender(s.creations[q]) != Sender(s.creations[p])
    ensures Blocked(s, p) && q != p && Awaited(s.creations[p]) in s.creations[q].writes
  {
    var c, d := s.creations[p], s.creations[q];
    assert CreationOk(s.db, c) && CreationOk(s.db, d);
    assert Sender(d) in d.writes && Enabled(s.db.wallets, Sender(d));
    assert Receiver(c) !in c.writes;
  }

  lemma RingMemberIsBlocked(s: State, ps: seq<Pid>, i: nat)
    requires Inv(s) && WaitRing(s, ps) && i < |ps|
    ensures After(ps, i) in s.creations && After(ps, i) != ps[i] && Blocked(s, ps[i])
    ensures Awaited(s.creations[ps[i]]) in s.creations[After(ps, i)].writes
  {
    assert LinkAt(Transfers(s), ps, i);
    WaitsFor(s, ps[i], After(ps, i));
  }

  /** A ring of creations that have debited stays stuck until a member is rolled back from outside. */
  lemma RingStaysStuck(s: State, step: Step, s': State, ps: seq<Pid>)
    requires Inv(s) && WaitRing(s, ps) && Next(s, step) == Some(s')
    requires forall i :: 0 <= i < |ps| ==> step != Money(ps[i], Abort)
    ensures WaitRing(s', ps)
  {
    forall i | 0 <= i < |ps| ensures ps[i] in s'.creations && s'.creations[ps[i]] == s.creations[ps[i]] {
      RingMemberIsBlocked(s, ps, i);
      BlockedStays(s, step, s', ps[i]);
    }
    SameTransfers(s, s', ps);
  }

  lemma BlockedStays(s: State, step: Step, s': State, p: Pid)
    requires p in s.creations && Blocked(s, p) && Next(s, step) == Some(s') && step != Money(p, Abort)
    ensures p in s'.creations && s'.creations[p] == s.creations[p]
  {
    if !step.Money? {
      NonMoneySparesCreations(s, step, s');
    } else if step.pid == p {
      BlockedCannotMove(s, p, step.money);
    } else {
      MoneySparesOthers(s, step.pid, step.money, s', p);
    }
  }

  /** Whether some transfers form a ring depends on their orders alone. */
  lemma SameTransfers(s: State, s': State, ps: seq<Pid>)
    requires Ring(Transfers(s), ps)
    requires forall i :: 0 <= i < |ps| ==> ps[i] in s'.creations && s'.creations[ps[i]].order == s.creations[ps[i]].order
    ensures Ring(Transfers(s'), ps)
  {
    forall i | 0 <= i < |ps| ensures LinkAt(Transfers(s'), ps, i) {
      assert LinkAt(Transfers(s), ps, i);
    }
  }

  lemma RingStaysStuckOnce(steps: seq<Step>, s: State, step: Step, s': State, ps: seq<Pid>)
    requires Reaches(steps, s) && WaitRing(s, ps) && Next(s, step) == Some(s')
    requires forall i :: 0 <= i < |ps| ==> step != Money(ps[i], Abort)
    ensures WaitRing(s', ps)
  {
    ReachableInv(steps, s);
    RingStaysStuck(s, step, s', ps);
  }

  /** None of these creations is rolled back from outside. */
  ghost predicate Spared(ps: seq<Pid>, more: seq<Step>) {
    forall i :: 0 <= i < |ps| ==> Money(ps[i], Abort) !in more
  }

  lemma SparedEach(ps: seq<Pid>, more: seq<Step>)
    requires Spared(ps, more) && more != []
    ensures Spared(ps, more[..|more| - 1])
    ensures forall i :: 0 <= i < |ps| ==> more[|more| - 1] != Money(ps[i], Abort)
  {
  }

  lemma {:induction false} RingStaysStuckForGood(steps: seq<Step>, s: State, more: seq<Step>, s': State, ps: seq<Pid>)
    requires Reaches(steps, s) && WaitRing(s, ps) && Reaches(steps + more, s')
    requires Spared(ps, more)
    ensures WaitRing(s', ps)
    decreases |more|
  {
    if more == [] {
      assert steps + more == steps;
    } else {
      var n := |more| - 1;
      var init, before, step := LastMove(steps + more, s');
      assert init == steps + more[..n] && step == more[n];
      SparedEach(ps, more);
      RingStaysStuckForGood(steps, s, more[..n], before, ps);
      RingStaysStuckOnce(init, before, step, s', ps);
    }
  }

  lemma MoneySparesOthers(s: State, p: Pid, m: MoneyStep, s': State, q: Pid)
    requires MoneyNext(s, p, m) == Some(s') && q != p && q in s.creations
    ensures q in s'.creations && s'.creations[q] == s.creations[q]
  {
  }

  lemma NonMoneySparesCreations(s: State, step: Step, s': State)
    requires Next(s, step) == Some(s') && !step.Money?
    ensures s'.creations == s.creations
  {
    if step.Relay? {
      RelaySparesReports(s, step.relay, s');
    }
  }

  /** p waits for a row that q, another of these creations, holds. */
  predicate WaitsIn(s: State, ds: set<Pid>, p: Pid, q: Pid) {
    p in s.creations && q in ds && q in s.creations && q != p && Awaited(s.creations[p]) in s.creations[q].writes
  }

  ghost predicate Waits(s: State, ds: set<Pid>, p: Pid) {
    p in s.creations && Blocked(s, p) && exists q :: WaitsIn(s, ds, p, q)
  }

  /** Each of these creations waits for a row that another of them holds. */
  ghost predicate Deadlocked(s: State, ds: set<Pid>) {
    ds != {} && forall p {:trigger Waits(s, ds, p)} :: p in ds ==> Waits(s, ds, p)
  }

  /** Those of the deadlocked creations that have debited. */
  function Debiting(s: State, ds: set<Pid>): Edges {
    map p | p in ds && p in s.creations && s.creations[p].pc == Debited && Sender(s.creations[p]) != Receiver(s.creations[p])
      :: Transfers(s)[p]
  }

  /** Whoever holds the row that a member waits for has debited and is a member. */
  lemma WaitedForHasDebited(s: State, ds: set<Pid>, p: Pid) returns (q: Pid)
    requires Inv(s) && Deadlocked(s, ds) && p in ds
    ensures p in s.creations && Blocked(s, p)
    ensures q in Debiting(s, ds) && Debiting(s, ds)[q].from == Awaited(s.creations[p])
  {
    assert Waits(s, ds, p);
    q :| WaitsIn(s, ds, p, q);
    assert Waits(s, ds, q);
    HolderThatWaits(s, q, Awaited(s.creations[p]));
  }

  lemma DebitingGoesOn(s: State, ds: set<Pid>, p: Pid)
    requires Inv(s) && Deadlocked(s, ds) && p in Debiting(s, ds)
    ensures HasNext(Debiting(s, ds), Debiting(s, ds)[p])
  {
    var q := WaitedForHasDebited(s, ds, p);
  }

  lemma SomeoneIsDebiting(s: State, ds: set<Pid>)
    requires Inv(s) && Deadlocked(s, ds)
    ensures Debiting(s, ds) != map[] && Loopless(Debiting(s, ds))
  {
    var p :| p in ds;
    var q := WaitedForHasDebited(s, ds, p);
    assert q in Debiting(s, ds);
  }

  lemma DeadlockIsEndless(s: State, ds: set<Pid>)
    requires Inv(s) && Deadlocked(s, ds)
    ensures Debiting(s, ds) != map[] && Endless(Debiting(s, ds))
  {
    SomeoneIsDebiting(s, ds);
    forall p | p in Debiting(s, ds) ensures HasNext(Debiting(s, ds), Debiting(s, ds)[p]) {
      DebitingGoesOn(s, ds, p);
    }
  }

  lemma RingIsDeadlocked(s: State, ps: seq<Pid>)
    requires Inv(s) && WaitRing(s, ps)
    ensures Deadlocked(s, Members(ps))
  {
    AfterIsMember(ps, 0);
    forall p | p in Members(ps) ensures Waits(s, Members(ps), p) {
      var i :| 0 <= i < |ps| && ps[i] == p;
      RingMemberWaits(s, ps, i);
    }
  }

  lemma RingMemberWaits(s: State, ps: seq<Pid>, i: nat)
    requires Inv(s) && WaitRing(s, ps) && i < |ps|
    ensures Waits(s, Members(ps), ps[i])
  {
    RingMemberIsBlocked(s, ps, i);
    AfterIsMember(ps, i);
    assert WaitsIn(s, Members(ps), ps[i], After(ps, i));
  }

  lemma DeadlockHasRing(s: State, ds: set<Pid>) returns (ps: seq<Pid>)
    requires Inv(s) && Deadlocked(s, ds)
    ensures WaitRing(s, ps)
  {
    DeadlockIsEndless(s, ds);
    ps := EndlessHasRing(Debiting(s, ds));
    RingInLarger(Debiting(s, ds), Transfers(s), ps);
    forall i | 0 <= i < |ps| ensures s.creations[ps[i]].pc == Debited {
      assert ps[i] in Debiting(s, ds);
    }
  }

  /** A deadlock, of any number of creations in any stage, is a ring of transfers that have debited. */
  lemma DeadlockIffRing(s: State)
    requires Inv(s)
    ensures (exists ds :: Deadlocked(s, ds)) <==> (exists ps :: WaitRing(s, ps))
  {
    if ds :| Deadlocked(s, ds) {
      var ps := DeadlockHasRing(s, ds);
    }
    if ps :| WaitRing(s, ps) {
      RingIsDeadlocked(s, ps);
    }
  }

  lemma EveryoneWaits(s: State)
    requires Inv(s) && s.creations != map[] && forall p :: !CanMove(s, p)
    ensures Deadlocked(s, s.creations.Keys)
  {
    forall p | p in s.creations.Keys ensures Waits(s, s.creations.Keys, p) {
      OnlyLocksBlock(s, p);
      StuckWaits(s, p);
    }
    var some :| some in s.creations;
  }

  /** When nobody in flight can go on by itself, some of them form such a ring. */
  lemma NobodyMovesIsDeadlock(steps: seq<Step>, s: State)
    requires Reaches(steps, s) && s.creations != map[] && forall p :: !CanMove(s, p)
    ensures Deadlocked(s, s.creations.Keys) && exists ps :: WaitRing(s, ps)
  {
    ReachableInv(steps, s);
    EveryoneWaits(s);
    var ps := DeadlockHasRing(s, s.creations.Keys);
  }

  lemma StuckWaits(s: State, p: Pid)
    requires p in s.creations && Blocked(s, p)
    ensures Waits(s, s.creations.Keys, p)
  {
    var q := BlockerExists(s, p);
    assert WaitsIn(s, s.creations.Keys, p, q);
  }

  // --- which transfers can deadlock ---

  lemma RankedIsUp(s: State, rank: UserId -> nat)
    ensures Ranked(s, rank) <==> Up(Transfers(s), rank)
  {
    if Up(Transfers(s), rank) {
      forall p | p in s.creations && Sender(s.creations[p]) != Receiver(s.creations[p])
        ensures rank(Sender(s.creations[p])) < rank(Receiver(s.creations[p]))
      {
        assert p in Transfers(s);
      }
    }
  }

  /** Every creation in flight is about to debit a row that covers its amount. */
  ghost predicate Poised(s: State) {
    forall p :: p in s.creations ==>
      s.creations[p].pc == Started && Debitable(s.db.wallets, Sender(s.creations[p]), s.creations[p].order.txn.amount)
  }

  ghost predicate NoBegin(steps: seq<Step>) {
    forall step :: step in steps ==> !(step.Money? && step.money.Begin?)
  }

  /** p has debited and holds its sender's row only. */
  predicate HoldsSender(s: State, p: Pid) {
    p in s.creations && s.creations[p].pc == Debited && s.creations[p].writes.Keys == {Sender(s.creations[p])}
  }

  /** These have debited; nothing else has happened. */
  ghost predicate HaveDebited(s: State, ds: set<Pid>, s': State) {
    && s'.db == s.db && s'.creations.Keys == s.creations.Keys
    && (forall p :: p in s.creations ==> s'.creations[p].order == s.creations[p].order)
    && (forall p :: p in ds ==> HoldsSender(s', p))
    && (forall p :: p in s.creations && p !in ds ==> s'.creations[p] == s.creations[p])
  }

  predicate DistinctSenders(cs: map<Pid, Creation>, ds: set<Pid>) {
    ds <= cs.Keys && forall p, q :: p in ds && q in ds && p != q ==> Sender(cs[p]) != Sender(cs[q])
  }

  lemma StartedHoldsNothing(s: State, p: Pid)
    requires Inv(s) && p in s.creations && s.creations[p].pc == Started
    ensures s.creations[p].writes == map[]
  {
    assert CreationOk(s.db, s.creations[p]);
  }

  /** The sender's row of one that has not debited is still free. */
  lemma RowStillFree(s: State, ds: set<Pid>, p: Pid, s': State)
    requires HaveDebited(s, ds, s') && p !in ds && DistinctSenders(s.creations, ds + {p})
    requires forall q :: q in s.creations ==> s.creations[q].writes == map[]
    ensures LockFree(s', Sender(s.creations[p]), p)
  {
    forall q | q in s'.creations && q != p ensures Sender(s.creations[p]) !in s'.creations[q].writes {
      if q in ds {
        assert HoldsSender(s', q);
      }
    }
  }

  lemma NextIsReady(steps: seq<Step>, s: State, ds: set<Pid>, p: Pid, s': State)
    requires Reaches(steps, s) && Poised(s) && HaveDebited(s, ds, s')
    requires p !in ds && DistinctSenders(s.creations, ds + {p})
    ensures p in s'.creations && s'.creations[p].pc == Started && LockFree(s', Sender(s'.creations[p]), p)
    ensures Debitable(s'.db.wallets, Sender(s'.creations[p]), s'.creations[p].order.txn.amount)
  {
    assert p in ds + {p};
    ReachableInv(steps, s);
    forall q | q in s.creations ensures s.creations[q].writes == map[] {
      StartedHoldsNothing(s, q);
    }
    RowStillFree(s, ds, p, s');
  }

  lemma DebitsAddUp(s: State, ds: set<Pid>, before: State, p: Pid, s': State)
    requires HaveDebited(s, ds, before) && HaveDebited(before, {p}, s') && p !in ds
    ensures HaveDebited(s, ds + {p}, s')
  {
    forall q | q in ds ensures HoldsSender(s', q) {
      assert HoldsSender(before, q);
    }
  }

  lemma {:induction false} DebitAll(steps: seq<Step>, s: State, ds: set<Pid>) returns (more: seq<Step>, s': State)
    requires Reaches(steps, s) && Poised(s) && DistinctSenders(s.creations, ds)
    ensures Reaches(steps + more, s') && NoBegin(more) && HaveDebited(s, ds, s')
    decreases ds
  {
    if ds == {} {
      more, s' := [], s;
      assert steps + more == steps;
    } else {
      var p :| p in ds;
      var others := ds - {p};
      var init, before := DebitAll(steps, s, others);
      assert others + {p} == ds;
      NextIsReady(steps, s, others, p, before);
      more, s' := DebitOne(steps, init, before, p);
      DebitsAddUp(s, others, before, p, s');
    }
  }

  lemma DebitOne(steps: seq<Step>, init: seq<Step>, s: State, p: Pid) returns (more: seq<Step>, s': State)
    requires Reaches(steps + init, s) && NoBegin(init)
    requires p in s.creations && s.creations[p].pc == Started && LockFree(s, Sender(s.creations[p]), p)
    requires Debitable(s.db.wallets, Sender(s.creations[p]), s.creations[p].order.txn.amount)
    ensures Reaches(steps + more, s') && NoBegin(more) && HaveDebited(s, {p}, s')
  {
    s' := DebitAndRecord(steps + init, s, p);
    more := init + [Money(p, DebitRow)];
    assert steps + more == steps + init + [Money(p, DebitRow)];
  }

  /** A ring among transfers that are about to debit can close. */
  lemma RingCloses(steps: seq<Step>, s: State, ps: seq<Pid>) returns (more: seq<Step>, s': State)
    requires Reaches(steps, s) && Poised(s) && Ring(Transfers(s), ps)
    ensures Reaches(steps + more, s') && NoBegin(more) && WaitRing(s', ps)
  {
    var ds := Members(ps);
    RingSenders(s, ps);
    more, s' := DebitAll(steps, s, ds);
    forall i | 0 <= i < |ps| ensures s'.creations[ps[i]].pc == Debited {
      assert ps[i] in ds && HoldsSender(s', ps[i]);
    }
    SameTransfers(s, s', ps);
  }

  lemma RingSenders(s: State, ps: seq<Pid>)
    requires Ring(Transfers(s), ps)
    ensures DistinctSenders(s.creations, Members(ps))
  {
    forall p, q | p in Members(ps) && q in Members(ps) && p != q
      ensures Transfers(s)[p].from != Transfers(s)[q].from
    {
      var i :| 0 <= i < |ps| && ps[i] == p;
      var j :| 0 <= j < |ps| && ps[j] == q;
    }
  }

  lemma MoneyKeepsOrder(s: State, q: Pid, m: MoneyStep, s': State, p: Pid)
    requires MoneyNext(s, q, m) == Some(s') && !m.Begin? && p in s'.creations
    ensures p in s.creations && s'.creations[p].order == s.creations[p].order
  {
    if m.Commit? || m.Fail? || m.Classify? || m.Abort? {
    } else {
      UpdateShape(s, q, m, s');
    }
  }

  /** Nothing but Begin puts an order in flight. */
  lemma StepKeepsOrders(s: State, step: Step, s': State, p: Pid)
    requires Next(s, step) == Some(s') && !(step.Money? && step.money.Begin?) && p in s'.creations
    ensures p in s.creations && s'.creations[p].order == s.creations[p].order
  {
    if step.Money? {
      MoneyKeepsOrder(s, step.pid, step.money, s', p);
    } else {
      NonMoneySparesCreations(s, step, s');
    }
  }

  /** As long as nothing new starts, a rank stays a rank. */
  lemma {:induction false} RankLasts(steps: seq<Step>, s: State, more: seq<Step>, s': State, rank: UserId -> nat)
    requires Reaches(steps, s) && Ranked(s, rank) && Reaches(steps + more, s') && NoBegin(more)
    ensures Ranked(s', rank)
    decreases |more|
  {
    if more == [] {
      assert steps + more == steps;
    } else {
      var n := |more| - 1;
      var init, before, step := LastMove(steps + more, s');
      assert init == steps + more[..n] && step == more[n];
      RankLasts(steps, s, more[..n], before, rank);
      forall p | p in s'.creations ensures p in before.creations && s'.creations[p].order == before.creations[p].order {
        StepKeepsOrders(before, step, s', p);
      }
    }
  }

  lemma DeadlockRefutesRank(steps: seq<Step>, s: State, more: seq<Step>, s': State, ds: set<Pid>, rank: UserId -> nat)
    requires Reaches(steps, s) && Reaches(steps + more, s') && NoBegin(more) && Deadlocked(s', ds)
    ensures !Ranked(s, rank)
  {
    ReachableInv(steps + more, s');
    var ps := DeadlockHasRing(s', ds);
    RingHasNoRank(Transfers(s'), ps, rank);
    RankedIsUp(s', rank);
    if Ranked(s, rank) {
      RankLasts(steps, s, more, s', rank);
    }
  }

  lemma DeadlockOrRank(steps: seq<Step>, s: State) returns (more: seq<Step>, s': State, ds: set<Pid>, rank: UserId -> nat)
    requires Reaches(steps, s) && Poised(s)
    ensures Ranked(s, rank) || (Reaches(steps + more, s') && NoBegin(more) && Deadlocked(s', ds))
  {
    var ps;
    rank, ps := RankOrRing(Transfers(s));
    RankedIsUp(s, rank);
    more, s', ds := [], s, {};
    if Ring(Transfers(s), ps) {
      more, s' := RingCloses(steps, s, ps);
      ReachableInv(steps + more, s');
      RingIsDeadlocked(s', ps);
      ds := Members(ps);
    }
  }

  /** The exact condition. From a state in which the transfers in flight are about to debit, a deadlock
      among them is reachable if and only if no rank of the wallets goes up with every transfer. */
  lemma DeadlockReachableIffUnranked(steps: seq<Step>, s: State)
    requires Reaches(steps, s) && Poised(s)
    ensures (exists more: seq<Step>, s': State, ds: set<Pid> ::
               Reaches(steps + more, s') && NoBegin(more) && Deadlocked(s', ds))
       <==> !(exists rank: UserId -> nat :: Ranked(s, rank))
  {
    if more: seq<Step>, s': State, ds: set<Pid> :|
      Reaches(steps + more, s') && NoBegin(more) && Deadlocked(s', ds)
    {
      forall rank: UserId -> nat ensures !Ranked(s, rank) {
        DeadlockRefutesRank(steps, s, more, s', ds, rank);
      }
    }
    var more, s', ds, rank := DeadlockOrRank(steps, s);
  }

  /** Both transfers have started. */
  lemma BothStarted() returns (steps: seq<Step>, s: State)
    ensures Reaches(steps, s) && s.db == Db(FUNDED, map[], map[]) && s.creations.Keys == {1, 2}
    ensures forall p :: p in s.creations ==> s.creations[p].pc == Started && s.creations[p].writes == map[]
    ensures s.creations[1].order == Compose(1, 1, 2, ONE, "", 1, 0)
    ensures s.creations[2].order == Compose(2, 2, 1, ONE, "", 2, 0)
  {
    var there, back := Compose(1, 1, 2, ONE, "", 1, 0), Compose(2, 2, 1, ONE, "", 2, 0);
    var steps0, s0 := Fund();
    BeginGoes(s0, 1, there);
    var s1 := MoneyNext(s0, 1, Begin(there)).value;
    BeginGoes(s1, 2, back);
    s := MoneyNext(s1, 2, Begin(back)).value;
    OneMore(steps0, s0, Money(1, Begin(there)), s1);
    OneMore(steps0 + [Money(1, Begin(there))], s1, Money(2, Begin(back)), s);
    steps := steps0 + [Money(1, Begin(there))] + [Money(2, Begin(back))];
  }

  lemma BothWaysIsRing(s: State)
    requires s.creations.Keys == {1, 2}
    requires Transfers(s) == map[1 := Edge(1, 2), 2 := Edge(2, 1)]
    ensures Ring(Transfers(s), [1, 2])
  {
    var es, ps := Transfers(s), [1, 2];
    assert After(ps, 0) == 2 && After(ps, 1) == 1;
    assert LinkAt(es, ps, 0) && LinkAt(es, ps, 1);
  }

  /** Two wallets with one unit each, sent both ways, are enough. */
  lemma OppositeTransfersDeadlock() returns (steps: seq<Step>, s: State)
    ensures Reaches(steps, s) && WaitRing(s, [1, 2])
  {
    var steps0, s0 := BothStarted();
    OneIsCovered();
    BothWaysIsRing(s0);
    var more;
    more, s := RingCloses(steps0, s0, [1, 2]);
    steps := steps0 + more;
  }
}
