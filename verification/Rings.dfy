/** Finite directed graphs, edge by edge: either the nodes can be ranked so that every edge goes up, or
    some edges form a ring. */
module Rings {
  datatype Edge = Edge(from: nat, to: nat)

  /** The edges by name; several may join the same two nodes. */
  type Edges = map<nat, Edge>

  /** The next in the ring; the last is followed by the first. */
  function After(ps: seq<nat>, i: nat): nat
    requires i < |ps|
  {
    if i + 1 < |ps| then ps[i + 1] else ps[0]
  }

  /** The edge at place i leads to where the one after it starts. */
  predicate LinkAt(es: Edges, ps: seq<nat>, i: nat) {
    && i < |ps| && ps[i] in es && After(ps, i) in es
    && es[ps[i]].to == es[After(ps, i)].from
  }

  predicate DistinctStarts(es: Edges, ps: seq<nat>) {
    && (forall i :: 0 <= i < |ps| ==> ps[i] in es)
    && forall i, j :: 0 <= i < j < |ps| ==> es[ps[i]].from != es[ps[j]].from
  }

  /** Edges between different nodes, each leading to the next and the last to the first; no node twice. */
  predicate Ring(es: Edges, ps: seq<nat>) {
    && ps != [] && DistinctStarts(es, ps)
    && (forall i :: 0 <= i < |ps| ==> es[ps[i]].from != es[ps[i]].to)
    && (forall i :: 0 <= i < |ps| ==> LinkAt(es, ps, i))
  }

  /** Edges one after another, no node twice. */
  predicate Chain(es: Edges, path: seq<nat>) {
    path != [] && DistinctStarts(es, path) && forall i :: 0 <= i < |path| - 1 ==> LinkAt(es, path, i)
  }

  predicate HasNext(es: Edges, e: Edge) {
    exists q :: q in es && es[q].from == e.to
  }

  predicate Loopless(es: Edges) {
    forall p :: p in es ==> es[p].from != es[p].to
  }

  predicate Endless(es: Edges) {
    Loopless(es) && forall p {:trigger HasNext(es, es[p])} :: p in es ==> HasNext(es, es[p])
  }

  function Members(ps: seq<nat>): set<nat> {
    set i | 0 <= i < |ps| :: ps[i]
  }

  lemma AfterIsMember(ps: seq<nat>, i: nat)
    requires i < |ps|
    ensures ps[i] in Members(ps) && After(ps, i) in Members(ps)
  {
  }

  lemma MembersAppend(ps: seq<nat>, q: nat)
    ensures Members(ps + [q]) == Members(ps) + {q}
  {
    forall p | p in Members(ps) + {q} ensures p in Members(ps + [q]) {
      if p == q {
        assert (ps + [q])[|ps|] == p;
      } else {
        var i :| 0 <= i < |ps| && ps[i] == p;
        assert (ps + [q])[i] == p;
      }
    }
  }

  /** A chain that comes back to one of its nodes closes a ring. */
  lemma ChainCloses(es: Edges, path: seq<nat>, k: nat)
    requires Loopless(es) && Chain(es, path) && k < |path|
    requires es[path[|path| - 1]].to == es[path[k]].from
    ensures Ring(es, path[k..])
  {
    var ps := path[k..];
    forall i | 0 <= i < |ps| ensures LinkAt(es, ps, i) {
      if i + 1 < |ps| {
        assert LinkAt(es, path, k + i);
      }
    }
  }

  lemma ChainGrows(es: Edges, path: seq<nat>, q: nat)
    requires Chain(es, path) && q in es && es[path[|path| - 1]].to == es[q].from
    requires forall k :: 0 <= k < |path| ==> es[path[k]].from != es[q].from
    ensures Chain(es, path + [q])
  {
    forall i | 0 <= i < |path| ensures LinkAt(es, path + [q], i) {
      if i + 1 < |path| {
        assert LinkAt(es, path, i);
      }
    }
  }

  /** Going on and on over finitely many edges ends in a ring. */
  lemma {:induction false} ChainEndsInRing(es: Edges, path: seq<nat>) returns (ps: seq<nat>)
    requires Endless(es) && Chain(es, path)
    ensures Ring(es, ps)
    decreases es.Keys - Members(path)
  {
    var last := es[path[|path| - 1]];
    assert HasNext(es, last);
    var q :| q in es && es[q].from == last.to;
    if k :| 0 <= k < |path| && es[path[k]].from == es[q].from {
      ChainCloses(es, path, k);
      ps := path[k..];
    } else {
      ChainGrows(es, path, q);
      MembersAppend(path, q);
      assert q !in Members(path);
      ps := ChainEndsInRing(es, path + [q]);
    }
  }

  lemma EndlessHasRing(es: Edges) returns (ps: seq<nat>)
    requires Endless(es) && es != map[]
    ensures Ring(es, ps)
  {
    var p :| p in es;
    ps := ChainEndsInRing(es, [p]);
  }

  lemma RingInLarger(es: Edges, fs: Edges, ps: seq<nat>)
    requires Ring(es, ps) && forall p :: p in es ==> p in fs && fs[p] == es[p]
    ensures Ring(fs, ps)
  {
    forall i | 0 <= i < |ps| ensures LinkAt(fs, ps, i) {
      assert LinkAt(es, ps, i);
    }
  }

  // --- ranks ---

  /** Every edge between different nodes goes up. */
  ghost predicate Up(es: Edges, rank: nat -> nat) {
    forall p :: p in es && es[p].from != es[p].to ==> rank(es[p].from) < rank(es[p].to)
  }

  /** Giving u at least rank n. */
  function Raised(rank: nat -> nat, u: nat, n: nat): nat -> nat {
    (v: nat) => if v == u && rank(v) < n then n else rank(v)
  }

  /** An edge into a node from which none starts is ranked by raising that node. */
  lemma RaisingRanks(es: Edges, p: nat, below: nat -> nat)
    requires p in es && Loopless(es) && Up(es - {p}, below) && !HasNext(es, es[p])
    ensures Up(es, Raised(below, es[p].to, below(es[p].from) + 1))
  {
    var rank := Raised(below, es[p].to, below(es[p].from) + 1);
    forall q | q in es ensures rank(es[q].from) < rank(es[q].to) {
      assert es[q].from != es[p].to;
      if q != p {
        assert (es - {p})[q] == es[q];
      }
    }
  }

  lemma {:induction false} RankOrRingLoopless(es: Edges) returns (rank: nat -> nat, ps: seq<nat>)
    requires Loopless(es)
    ensures Up(es, rank) || Ring(es, ps)
    decreases es.Keys
  {
    rank, ps := (u: nat) => 0, [];
    if p :| p in es && !HasNext(es, es[p]) {
      var below;
      below, ps := RankOrRingLoopless(es - {p});
      if Up(es - {p}, below) {
        RaisingRanks(es, p, below);
        rank := Raised(below, es[p].to, below(es[p].from) + 1);
      } else {
        RingInLarger(es - {p}, es, ps);
      }
    } else if es != map[] {
      ps := EndlessHasRing(es);
    }
  }

  /** Finitely many edges either can be ranked or contain a ring. */
  lemma RankOrRing(es: Edges) returns (rank: nat -> nat, ps: seq<nat>)
    ensures Up(es, rank) || Ring(es, ps)
  {
    var fs := map p | p in es && es[p].from != es[p].to :: es[p];
    rank, ps := RankOrRingLoopless(fs);
    if Ring(fs, ps) {
      RingInLarger(fs, es, ps);
    } else {
      forall p | p in es && es[p].from != es[p].to ensures rank(es[p].from) < rank(es[p].to) {
        assert fs[p] == es[p];
      }
    }
  }

  lemma {:induction false} RingClimbs(es: Edges, ps: seq<nat>, rank: nat -> nat, i: nat)
    requires Ring(es, ps) && Up(es, rank) && i < |ps|
    ensures rank(es[ps[i]].from) >= rank(es[ps[0]].from)
    decreases i
  {
    if i > 0 {
      RingClimbs(es, ps, rank, i - 1);
      assert LinkAt(es, ps, i - 1);
    }
  }

  /** No rank goes up all around a ring. */
  lemma RingHasNoRank(es: Edges, ps: seq<nat>, rank: nat -> nat)
    requires Ring(es, ps)
    ensures !Up(es, rank)
  {
    var n := |ps| - 1;
    assert LinkAt(es, ps, n);
    if Up(es, rank) {
      RingClimbs(es, ps, rank, n);
    }
  }
}
