/** What an ambiguous cycle means for runs: without one, every ambiguous walk is bounded
    (scripts/adapter-diagnosability.ts:189-235). */
module Delays {
  import opened AdapterProtocol
  import opened TwinProduct
  import opened Verdicts
  import opened Collections

  /** No ambiguous walk from a reachable pair is longer than the bound. */
  ghost predicate BoundedBy(p: Protocol, bound: nat) {
    forall n, walk :: Reachable(p, n) && AmbiguousWalk(p, n, walk) ==> |walk| <= bound
  }

  // ---------------------------------------------------------------- a cycle gives walks of any length

  lemma {:induction false} Joined(p: Protocol, from: Pair, first: seq<ProductEdge>, second: seq<ProductEdge>)
    requires AmbiguousWalk(p, from, first) && AmbiguousWalk(p, Target(from, first), second)
    ensures AmbiguousWalk(p, from, first + second) && Target(from, first + second) == Target(Target(from, first), second)
    decreases |second|
  {
    hide Next, Differs, AmbiguousWalk;
    if second == [] {
      assert first + second == first;
    } else {
      var n := |second| - 1;
      AmbiguousPrefix(p, Target(from, first), second);
      Joined(p, from, first, second[..n]);
      AmbiguousSnoc(p, from, first + second[..n], second[n]);
      assert first + second == first + second[..n] + [second[n]];
    }
  }

  lemma {:induction false} AroundAgain(p: Protocol, n: Pair, cycle: seq<ProductEdge>, k: nat) returns (walk: seq<ProductEdge>)
    requires cycle != [] && AmbiguousWalk(p, n, cycle) && Target(n, cycle) == n
    ensures AmbiguousWalk(p, n, walk) && Target(n, walk) == n && |walk| >= k
  {
    hide Next, Differs;
    if k == 0 {
      walk := [];
      EmptyWalk(p, n);
    } else {
      walk := AroundAgain(p, n, cycle, k - 1);
      Joined(p, n, walk, cycle);
      walk := walk + cycle;
    }
  }

  lemma CycleIsUnbounded(p: Protocol, bound: nat)
    requires AmbiguousCycle(p)
    ensures !BoundedBy(p, bound)
  {
    hide Reachable, AmbiguousWalk, Target;
    var n :| Reachable(p, n) && Leads(p, n, n);
    var cycle :| cycle != [] && AmbiguousWalk(p, n, cycle) && Target(n, cycle) == n;
    var walk := AroundAgain(p, n, cycle, bound + 1);
  }

  // ---------------------------------------------------------------- without a cycle no pair is met twice

  function Nodes(from: Pair, walk: seq<ProductEdge>): seq<Pair> { seq(|walk| + 1, i requires 0 <= i <= |walk| => NodeAt(from, walk, i)) }

  lemma NodeOfPart(from: Pair, walk: seq<ProductEdge>, i: nat, j: nat, k: nat)
    requires i <= j <= |walk| && k <= j - i
    ensures NodeAt(NodeAt(from, walk, i), walk[i..j], k) == NodeAt(from, walk, i + k)
    ensures k < j - i ==> walk[i..j][k] == walk[i + k]
  {
  }

  lemma SubWalk(p: Protocol, from: Pair, walk: seq<ProductEdge>, i: nat, j: nat)
    requires AmbiguousWalk(p, from, walk) && i <= j <= |walk|
    ensures AmbiguousWalk(p, NodeAt(from, walk, i), walk[i..j]) && Target(NodeAt(from, walk, i), walk[i..j]) == NodeAt(from, walk, j)
  {
    hide Next, Differs, NodeAt;
    var part, start := walk[i..j], NodeAt(from, walk, i);
    forall k | 0 <= k < |part| ensures part[k] in Next(p, NodeAt(start, part, k)) && Differs(p, part[k].to) {
      NodeOfPart(from, walk, i, j, k);
      assert walk[i + k] in Next(p, NodeAt(from, walk, i + k));
    }
    NodeOfPart(from, walk, i, j, j - i);
    NodeDiffers(p, from, walk, i);
  }

  lemma NodeDiffers(p: Protocol, from: Pair, walk: seq<ProductEdge>, i: nat)
    requires AmbiguousWalk(p, from, walk) && i <= |walk|
    ensures Differs(p, NodeAt(from, walk, i))
  {
    hide Next, Differs;
  }

  lemma {:induction false} ReachesAlong(p: Protocol, from: Pair, walk: seq<ProductEdge>)
    requires Reachable(p, from) && IsWalk(p, from, walk)
    ensures Reachable(p, Target(from, walk))
    decreases |walk|
  {
    hide Next, IsWalk;
    if walk != [] {
      WalkPrefix(p, from, walk);
      ReachesAlong(p, from, walk[..|walk| - 1]);
      var before := Target(from, walk[..|walk| - 1]);
      var to :| IsWalk(p, Start(p), to) && Target(Start(p), to) == before;
      WalkSnoc(p, Start(p), to, walk[|walk| - 1]);
    }
  }

  lemma {:induction false} ReachedInUniverse(p: Protocol, walk: seq<ProductEdge>)
    requires IsWalk(p, Start(p), walk)
    ensures Target(Start(p), walk) in Universe(p)
    decreases |walk|
  {
    hide Next, IsWalk, Universe;
    if walk == [] {
      StartInUniverse(p);
    } else {
      WalkPrefix(p, Start(p), walk);
      ReachedInUniverse(p, walk[..|walk| - 1]);
      NextInUniverse(p, Target(Start(p), walk[..|walk| - 1]), walk[|walk| - 1]);
    }
  }

  lemma NodeReachable(p: Protocol, from: Pair, walk: seq<ProductEdge>, i: nat)
    requires Reachable(p, from) && AmbiguousWalk(p, from, walk) && i <= |walk|
    ensures Reachable(p, NodeAt(from, walk, i)) && NodeAt(from, walk, i) in Universe(p)
  {
    hide Next, Differs, Universe;
    SubWalk(p, from, walk, 0, i);
    ReachesAlong(p, from, walk[0..i]);
    var n := NodeAt(from, walk, i);
    var to :| IsWalk(p, Start(p), to) && Target(Start(p), to) == n;
    ReachedInUniverse(p, to);
  }

  lemma LeadsBetween(p: Protocol, from: Pair, walk: seq<ProductEdge>, i: nat, j: nat)
    requires AmbiguousWalk(p, from, walk) && i < j <= |walk|
    ensures Leads(p, NodeAt(from, walk, i), NodeAt(from, walk, j))
  {
    hide AmbiguousWalk, Target;
    SubWalk(p, from, walk, i, j);
    assert walk[i..j] != [];
  }

  lemma NoneTwice(p: Protocol, from: Pair, walk: seq<ProductEdge>)
    requires !AmbiguousCycle(p) && Reachable(p, from) && AmbiguousWalk(p, from, walk)
    ensures NoDuplicates(Nodes(from, walk))
  {
    hide AmbiguousWalk, Reachable, IsWalk, Leads;
    forall i, j | 0 <= i < j <= |walk| ensures NodeAt(from, walk, i) != NodeAt(from, walk, j) {
      LeadsBetween(p, from, walk, i, j);
      NodeReachable(p, from, walk, i);
    }
  }

  lemma WalkIsShort(p: Protocol, from: Pair, walk: seq<ProductEdge>)
    requires !AmbiguousCycle(p) && Reachable(p, from) && AmbiguousWalk(p, from, walk)
    ensures |walk| < |Universe(p)|
  {
    hide AmbiguousWalk, Reachable, Universe, AmbiguousCycle;
    var nodes := Nodes(from, walk);
    NoneTwice(p, from, walk);
    NoDuplicatesSize(nodes);
    forall n | n in PairSet(nodes) ensures n in Universe(p) {
      var i :| 0 <= i < |nodes| && nodes[i] == n;
      NodeReachable(p, from, walk, i);
    }
    SubsetSize(PairSet(nodes), Universe(p));
  }

  /** There is no ambiguous cycle if and only if some bound limits the length of every ambiguous walk. */
  lemma AcyclicIffBounded(p: Protocol)
    ensures !AmbiguousCycle(p) <==> exists bound: nat :: BoundedBy(p, bound)
  {
    hide AmbiguousCycle, AmbiguousWalk, Reachable, Universe;
    if !AmbiguousCycle(p) {
      forall n, walk | Reachable(p, n) && AmbiguousWalk(p, n, walk) ensures |walk| <= |Universe(p)| { WalkIsShort(p, n, walk); }
      assert BoundedBy(p, |Universe(p)|);
    } else {
      forall bound: nat ensures !BoundedBy(p, bound) { CycleIsUnbounded(p, bound); }
    }
  }
}
