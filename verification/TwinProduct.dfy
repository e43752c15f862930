/** Building the twin product breadth first, and what its states mean (scripts/adapter-diagnosability.ts:103-187). */
module TwinProduct {
  import opened AdapterProtocol
  import opened Collections

  // ---------------------------------------------------------------- walks of the product

  function NodeAt(from: Pair, walk: seq<ProductEdge>, i: nat): Pair
    requires i <= |walk|
  {
    if i == 0 then from else walk[i - 1].to
  }

  function Target(from: Pair, walk: seq<ProductEdge>): Pair { NodeAt(from, walk, |walk|) }

  ghost predicate IsWalk(p: Protocol, from: Pair, walk: seq<ProductEdge>) {
    forall i :: 0 <= i < |walk| ==> walk[i] in Next(p, NodeAt(from, walk, i))
  }

  function Start(p: Protocol): Pair { (p.initial, p.initial) }

  ghost predicate Reachable(p: Protocol, n: Pair) {
    exists walk :: IsWalk(p, Start(p), walk) && Target(Start(p), walk) == n
  }

  function LeftEvents(walk: seq<ProductEdge>): seq<string> {
    if walk == [] then []
    else LeftEvents(walk[..|walk| - 1]) + if walk[|walk| - 1].step.left.Some? then [walk[|walk| - 1].step.left.value] else []
  }

  function RightEvents(walk: seq<ProductEdge>): seq<string> {
    if walk == [] then []
    else RightEvents(walk[..|walk| - 1]) + if walk[|walk| - 1].step.right.Some? then [walk[|walk| - 1].step.right.value] else []
  }

  lemma WalkSnoc(p: Protocol, from: Pair, walk: seq<ProductEdge>, e: ProductEdge)
    requires IsWalk(p, from, walk) && e in Next(p, Target(from, walk))
    ensures IsWalk(p, from, walk + [e]) && Target(from, walk + [e]) == e.to
  {
    hide Next;
    forall i | 0 <= i < |walk + [e]| ensures (walk + [e])[i] in Next(p, NodeAt(from, walk + [e], i)) {
      if i < |walk| { assert NodeAt(from, walk + [e], i) == NodeAt(from, walk, i); }
    }
  }

  lemma WalkPrefix(p: Protocol, from: Pair, walk: seq<ProductEdge>)
    requires walk != [] && IsWalk(p, from, walk)
    ensures var n := |walk| - 1;
      IsWalk(p, from, walk[..n]) && walk[n] in Next(p, Target(from, walk[..n])) && Target(from, walk) == walk[n].to
  {
    hide Next;
    var n := |walk| - 1;
    forall i | 0 <= i < n ensures walk[..n][i] in Next(p, NodeAt(from, walk[..n], i)) {
      assert NodeAt(from, walk[..n], i) == NodeAt(from, walk, i);
    }
    assert NodeAt(from, walk[..n], n) == NodeAt(from, walk, n);
  }

  // ---------------------------------------------------------------- walks are pairs of runs

  lemma RunSnoc(p: Protocol, from: StateId, run: seq<Transition>, t: Transition)
    requires IsRun(p, from, run) && t in p.transitions && t.from == EndOf(from, run)
    ensures IsRun(p, from, run + [t]) && EndOf(from, run + [t]) == t.to
    ensures ObservationsOf(run + [t]) == ObservationsOf(run) + if t.observation.Some? then [t.observation.value] else []
    ensures EventsOf(run + [t]) == EventsOf(run) + [t.event]
  {
    assert (run + [t])[..|run|] == run;
    forall i | 0 <= i < |run + [t]| ensures (run + [t])[i] in p.transitions && (run + [t])[i].from == StateAt(from, run + [t], i) {
      if i < |run| { assert StateAt(from, run + [t], i) == StateAt(from, run, i); }
    }
  }

  lemma RunPrefix(p: Protocol, from: StateId, run: seq<Transition>)
    requires run != [] && IsRun(p, from, run)
    ensures var n := |run| - 1;
      IsRun(p, from, run[..n]) && run[n] in p.transitions && run[n].from == EndOf(from, run[..n]) && EndOf(from, run) == run[n].to
  {
    var n := |run| - 1;
    forall i | 0 <= i < n ensures run[..n][i] in p.transitions && run[..n][i].from == StateAt(from, run[..n], i) {
      assert StateAt(from, run[..n], i) == StateAt(from, run, i);
    }
    assert StateAt(from, run[..n], n) == StateAt(from, run, n);
  }

  /** Two runs that end in the pair and show the same observations. */
  ghost predicate Twins(p: Protocol, from: Pair, a: seq<Transition>, b: seq<Transition>, n: Pair) {
    && IsRun(p, from.0, a) && EndOf(from.0, a) == n.0
    && IsRun(p, from.1, b) && EndOf(from.1, b) == n.1
    && ObservationsOf(a) == ObservationsOf(b)
  }

  /** A walk of the product is a pair of runs with equal observations, whose events its steps list. */
  lemma {:induction false} WalkToRuns(p: Protocol, from: Pair, walk: seq<ProductEdge>) returns (a: seq<Transition>, b: seq<Transition>)
    requires IsWalk(p, from, walk)
    ensures Twins(p, from, a, b, Target(from, walk)) && EventsOf(a) == LeftEvents(walk) && EventsOf(b) == RightEvents(walk)
    decreases |walk|
  {
    hide Next, IsWalk, IsRun, ObservationsOf;
    if walk == [] {
      a, b := [], [];
      EmptyTwins(p, from);
    } else {
      var n := |walk| - 1;
      WalkPrefix(p, from, walk);
      a, b := WalkToRuns(p, from, walk[..n]);
      a, b := ExtendRuns(p, from, a, b, Target(from, walk[..n]), walk[n]);
    }
  }

  lemma EmptyTwins(p: Protocol, from: Pair)
    ensures Twins(p, from, [], [], from)
  {
  }

  lemma ExtendRuns(p: Protocol, from: Pair, a: seq<Transition>, b: seq<Transition>, n: Pair, e: ProductEdge)
    returns (a': seq<Transition>, b': seq<Transition>)
    requires Twins(p, from, a, b, n) && e in Next(p, n)
    ensures Twins(p, from, a', b', e.to)
    ensures EventsOf(a') == EventsOf(a) + if e.step.left.Some? then [e.step.left.value] else []
    ensures EventsOf(b') == EventsOf(b) + if e.step.right.Some? then [e.step.right.value] else []
  {
    hide Next, IsRun, ObservationsOf, EventsOf, EndOf;
    NextIs(p, n, e);
    if MovesLeft(p, n, e) {
      var t :| t in p.transitions && t.from == n.0 && t.observation.None? && e == LeftEdge(t, n.1);
      RunSnoc(p, from.0, a, t);
      a', b' := a + [t], b;
    } else if MovesRight(p, n, e) {
      var t :| t in p.transitions && t.from == n.1 && t.observation.None? && e == RightEdge(n.0, t);
      RunSnoc(p, from.1, b, t);
      a', b' := a, b + [t];
    } else {
      var l, r :| l in p.transitions && r in p.transitions && l.from == n.0 && r.from == n.1
        && l.observation.Some? && r.observation == l.observation && e == JointEdge(l, r);
      RunSnoc(p, from.0, a, l);
      RunSnoc(p, from.1, b, r);
      a', b' := a + [l], b + [r];
    }
  }

  lemma ObservationsLast(run: seq<Transition>)
    requires run != []
    ensures var t := run[|run| - 1];
      ObservationsOf(run) == ObservationsOf(run[..|run| - 1]) + if t.observation.Some? then [t.observation.value] else []
  {
  }

  /** Any two runs with equal observations are a walk of the product. */
  lemma {:induction false} RunsToWalk(p: Protocol, from: Pair, a: seq<Transition>, b: seq<Transition>, n: Pair) returns (walk: seq<ProductEdge>)
    requires Twins(p, from, a, b, n)
    ensures IsWalk(p, from, walk) && Target(from, walk) == n
    decreases |a| + |b|
  {
    hide Next, IsRun, ObservationsOf, IsWalk;
    if a != [] { RunPrefix(p, from.0, a); ObservationsLast(a); }
    if b != [] { RunPrefix(p, from.1, b); ObservationsLast(b); }
    if a != [] && a[|a| - 1].observation.None? {
      var t := a[|a| - 1];
      walk := RunsToWalk(p, from, a[..|a| - 1], b, (t.from, n.1));
      NextIs(p, (t.from, n.1), LeftEdge(t, n.1));
      WalkSnoc(p, from, walk, LeftEdge(t, n.1));
      walk := walk + [LeftEdge(t, n.1)];
    } else if b != [] && b[|b| - 1].observation.None? {
      var t := b[|b| - 1];
      walk := RunsToWalk(p, from, a, b[..|b| - 1], (n.0, t.from));
      NextIs(p, (n.0, t.from), RightEdge(n.0, t));
      WalkSnoc(p, from, walk, RightEdge(n.0, t));
      walk := walk + [RightEdge(n.0, t)];
    } else if a != [] && b != [] {
      var l, r := a[|a| - 1], b[|b| - 1];
      SameLast(ObservationsOf(a[..|a| - 1]), l.observation.value, ObservationsOf(b[..|b| - 1]), r.observation.value);
      walk := RunsToWalk(p, from, a[..|a| - 1], b[..|b| - 1], (l.from, r.from));
      NextIs(p, (l.from, r.from), JointEdge(l, r));
      WalkSnoc(p, from, walk, JointEdge(l, r));
      walk := walk + [JointEdge(l, r)];
    } else {
      BothEmpty(a, b);
      walk := [];
      assert IsWalk(p, from, walk) by { EmptyWalk(p, from); }
    }
  }

  lemma EmptyWalk(p: Protocol, from: Pair)
    ensures IsWalk(p, from, [])
  {
  }

  lemma SameLast(s: seq<string>, x: string, t: seq<string>, y: string)
    requires s + [x] == t + [y]
    ensures s == t && x == y
  {
    assert |s + [x]| == |t + [y]|;
    assert s == (s + [x])[..|s|] && t == (t + [y])[..|t|];
    assert (s + [x])[|s|] == x && (t + [y])[|t|] == y;
  }

  lemma BothEmpty(a: seq<Transition>, b: seq<Transition>)
    requires ObservationsOf(a) == ObservationsOf(b)
    requires a != [] ==> a[|a| - 1].observation.Some?
    requires b != [] ==> b[|b| - 1].observation.Some?
    requires a == [] || b == []
    ensures a == [] && b == []
  {
  }

  /** A pair is reachable exactly when two runs from the initial state end in it with equal observations. */
  lemma ReachableIffTwins(p: Protocol, n: Pair)
    ensures Reachable(p, n) <==> exists a, b :: Twins(p, Start(p), a, b, n)
  {
    hide IsWalk, Twins, Target;
    if Reachable(p, n) {
      var walk :| IsWalk(p, Start(p), walk) && Target(Start(p), walk) == n;
      var a, b := WalkToRuns(p, Start(p), walk);
    }
    if exists a, b :: Twins(p, Start(p), a, b, n) {
      var a, b :| Twins(p, Start(p), a, b, n);
      var walk := RunsToWalk(p, Start(p), a, b, n);
    }
  }

  // ---------------------------------------------------------------- the breadth-first construction

  datatype Predecessor = Predecessor(from: Pair, step: ProductStep)

  /** `seen` lists the pairs in the order they were found. */
  datatype Product = Product(seen: seq<Pair>, edges: map<Pair, seq<ProductEdge>>, predecessor: map<Pair, Predecessor>)

  function EdgeOf(step: ProductStep): ProductEdge { ProductEdge(step.states, step.observation.Some?, step) }

  lemma EdgeOfStep(p: Protocol, n: Pair, e: ProductEdge)
    requires e in Next(p, n)
    ensures EdgeOf(e.step) == e
  {
    NextIs(p, n, e);
  }

  ghost predicate NoDuplicates(s: seq<Pair>) { forall i, j :: 0 <= i < j < |s| ==> s[i] != s[j] }

  function PairSet(s: seq<Pair>): set<Pair> { set n | n in s }

  /** Every pair but the first was entered by an edge from a pair found earlier. */
  ghost predicate Entered(p: Protocol, seen: seq<Pair>, pred: map<Pair, Predecessor>) {
    && |seen| > 0 && seen[0] == Start(p) && NoDuplicates(seen) && pred.Keys == PairSet(seen) - {Start(p)}
    && forall k :: 1 <= k < |seen| ==>
         && seen[k] in pred && pred[seen[k]].from in seen[..k]
         && EdgeOf(pred[seen[k]].step) in Next(p, pred[seen[k]].from) && pred[seen[k]].step.states == seen[k]
  }

  /** Every pair that is no longer queued has its edges recorded, and they lead to known pairs. */
  ghost predicate Expanded(p: Protocol, seen: seq<Pair>, queue: set<Pair>, edges: map<Pair, seq<ProductEdge>>) {
    && edges.Keys == PairSet(seen) - queue
    && (forall n :: n in edges ==> edges[n] == Next(p, n))
    && forall n, e :: n in edges && e in Next(p, n) ==> e.to in seen
  }

  ghost predicate IsProduct(p: Protocol, product: Product) {
    && Entered(p, product.seen, product.predecessor) && Expanded(p, product.seen, {}, product.edges)
  }

  /** All pairs a walk can visit. */
  ghost function Ends(p: Protocol): set<StateId> { {p.initial} + set t | t in p.transitions :: t.to }
  ghost function Universe(p: Protocol): set<Pair> { set l, r | l in Ends(p) && r in Ends(p) :: (l, r) }

  lemma NextInUniverse(p: Protocol, n: Pair, e: ProductEdge)
    requires n in Universe(p) && e in Next(p, n)
    ensures e.to in Universe(p)
  {
    hide Next;
    NextIs(p, n, e);
  }

  lemma {:induction false} SeenInUniverse(p: Protocol, seen: seq<Pair>, pred: map<Pair, Predecessor>, k: nat)
    requires Entered(p, seen, pred) && k < |seen|
    ensures seen[k] in Universe(p)
    decreases k
  {
    hide Next, Universe;
    if k == 0 {
      assert Start(p) in Universe(p) by { StartInUniverse(p); }
    } else {
      var j :| 0 <= j < k && seen[j] == pred[seen[k]].from;
      SeenInUniverse(p, seen, pred, j);
      NextInUniverse(p, seen[j], EdgeOf(pred[seen[k]].step));
    }
  }

  lemma StartInUniverse(p: Protocol)
    ensures Start(p) in Universe(p)
  {
  }

  lemma {:induction false} NoDuplicatesSize(s: seq<Pair>)
    requires NoDuplicates(s)
    ensures |PairSet(s)| == |s|
    decreases |s|
  {
    if s == [] {
      assert PairSet(s) == {};
    } else {
      var n := |s| - 1;
      NoDuplicatesSize(s[..n]);
      assert s == s[..n] + [s[n]] && s[n] !in s[..n];
      assert PairSet(s) == PairSet(s[..n]) + {s[n]};
    }
  }

  lemma SeenBounded(p: Protocol, seen: seq<Pair>, pred: map<Pair, Predecessor>)
    requires Entered(p, seen, pred)
    ensures |seen| <= |Universe(p)|
  {
    hide Universe;
    NoDuplicatesSize(seen);
    forall n | n in PairSet(seen) ensures n in Universe(p) {
      var k :| 0 <= k < |seen| && seen[k] == n;
      SeenInUniverse(p, seen, pred, k);
    }
    SubsetSize(PairSet(seen), Universe(p));
  }

  lemma EnteredOne(p: Protocol, seen: seq<Pair>, pred: map<Pair, Predecessor>, from: Pair, e: ProductEdge)
    requires Entered(p, seen, pred) && from in seen && e in Next(p, from) && e.to !in seen
    ensures Entered(p, seen + [e.to], pred[e.to := Predecessor(from, e.step)])
  {
    hide Next, EdgeOf, Entered;
    var seen', pred' := seen + [e.to], pred[e.to := Predecessor(from, e.step)];
    forall k | 1 <= k < |seen'| ensures Linked(p, seen', pred', k) { LinkedOne(p, seen, pred, from, e, k); }
    StartsSame(p, seen, pred, e.to, Predecessor(from, e.step));
    LinkedAll(p, seen', pred');
  }

  /** The pair at this place was entered by an edge of an earlier one. */
  ghost predicate Linked(p: Protocol, seen: seq<Pair>, pred: map<Pair, Predecessor>, k: nat) {
    && k < |seen| && seen[k] in pred && pred[seen[k]].from in seen[..k]
    && EdgeOf(pred[seen[k]].step) in Next(p, pred[seen[k]].from) && pred[seen[k]].step.states == seen[k]
  }

  lemma LinkedAll(p: Protocol, seen: seq<Pair>, pred: map<Pair, Predecessor>)
    requires |seen| > 0 && seen[0] == Start(p) && NoDuplicates(seen) && pred.Keys == PairSet(seen) - {Start(p)}
    requires forall k :: 1 <= k < |seen| ==> Linked(p, seen, pred, k)
    ensures Entered(p, seen, pred)
  {
    hide Next, EdgeOf;
    forall k | 1 <= k < |seen|
      ensures seen[k] in pred && pred[seen[k]].from in seen[..k]
        && EdgeOf(pred[seen[k]].step) in Next(p, pred[seen[k]].from) && pred[seen[k]].step.states == seen[k]
    {
      assert Linked(p, seen, pred, k);
    }
  }

  lemma StartsSame(p: Protocol, seen: seq<Pair>, pred: map<Pair, Predecessor>, n: Pair, step: Predecessor)
    requires Entered(p, seen, pred) && n !in seen
    ensures var seen', pred' := seen + [n], pred[n := step];
      |seen'| > 0 && seen'[0] == Start(p) && NoDuplicates(seen') && pred'.Keys == PairSet(seen') - {Start(p)}
  {
    hide Next, EdgeOf;
    assert PairSet(seen + [n]) == PairSet(seen) + {n} && seen[0] in seen;
  }

  lemma EnteredLinked(p: Protocol, seen: seq<Pair>, pred: map<Pair, Predecessor>, k: nat)
    requires Entered(p, seen, pred) && 1 <= k < |seen|
    ensures Linked(p, seen, pred, k)
  {
    hide Next, EdgeOf, NoDuplicates, PairSet;
  }

  lemma LinkedOne(p: Protocol, seen: seq<Pair>, pred: map<Pair, Predecessor>, from: Pair, e: ProductEdge, k: nat)
    requires Entered(p, seen, pred) && from in seen && e in Next(p, from) && e.to !in seen && 1 <= k <= |seen|
    ensures Linked(p, seen + [e.to], pred[e.to := Predecessor(from, e.step)], k)
  {
    hide Next, Entered;
    if k < |seen| {
      EnteredLinked(p, seen, pred, k);
      assert seen[k] in seen && (seen + [e.to])[..k] == seen[..k];
    } else {
      EdgeOfStep(p, from, e);
      assert (seen + [e.to])[..k] == seen;
    }
  }

  /** Enqueue the targets of one pair's edges that are new. */
  method Discover(p: Protocol, from: Pair, next: seq<ProductEdge>, seen: seq<Pair>, queue: seq<Pair>, pred: map<Pair, Predecessor>)
    returns (seen': seq<Pair>, queue': seq<Pair>, pred': map<Pair, Predecessor>)
    requires Entered(p, seen, pred) && from in seen && next == Next(p, from)
    ensures Entered(p, seen', pred') && seen <= seen' && queue <= queue'
    ensures PairSet(queue') == PairSet(queue) + (PairSet(seen') - PairSet(seen)) && |queue'| - |queue| == |seen'| - |seen|
    ensures forall e :: e in next ==> e.to in seen'
  {
    hide Next, Entered;
    seen', queue', pred' := seen, queue, pred;
    var m := 0;
    while m < |next|
      invariant m <= |next| && Entered(p, seen', pred') && seen <= seen' && queue <= queue'
      invariant PairSet(queue') == PairSet(queue) + (PairSet(seen') - PairSet(seen)) && |queue'| - |queue| == |seen'| - |seen|
      invariant forall e :: e in next[..m] ==> e.to in seen'
    {
      var edge := next[m];
      assert edge in next && next[..m + 1] == next[..m] + [edge];
      if edge.to !in seen' {
        assert from in seen';
        EnteredOne(p, seen', pred', from, edge);
        ghost var was, queued := seen', queue';
        assert edge.to !in PairSet(seen);
        seen' := seen' + [edge.to];
        pred' := pred'[edge.to := Predecessor(from, edge.step)];
        queue' := queue' + [edge.to];
        assert PairSet(seen') == PairSet(was) + {edge.to} && PairSet(queue') == PairSet(queued) + {edge.to};
      }
      m := m + 1;
    }
    assert next[..m] == next;
  }

  lemma ExpandedOne(p: Protocol, seen: seq<Pair>, queue: seq<Pair>, edges: map<Pair, seq<ProductEdge>>, current: Pair,
                    seen': seq<Pair>, rest: seq<Pair>)
    requires queue != [] && current == queue[0] && NoDuplicates(queue) && current in seen && seen <= seen'
    requires Expanded(p, seen, PairSet(queue), edges)
    requires PairSet(rest) == PairSet(queue[1..]) + (PairSet(seen') - PairSet(seen))
    requires forall e :: e in Next(p, current) ==> e.to in seen'
    ensures Expanded(p, seen', PairSet(rest), edges[current := Next(p, current)])
  {
    hide Next;
    assert queue == [current] + queue[1..];
    assert current !in queue[1..];
    assert PairSet(seen) <= PairSet(seen');
    forall n ensures n in edges[current := Next(p, current)] <==> n in PairSet(seen') - PairSet(rest) { }
  }

  /** `buildProduct`. */
  method BuildProduct(p: Protocol) returns (product: Product)
    ensures IsProduct(p, product)
  {
    hide Next, Entered, Expanded, Universe;
    var seen, queue := [Start(p)], [Start(p)];
    var edges: map<Pair, seq<ProductEdge>> := map[];
    var pred: map<Pair, Predecessor> := map[];
    FirstPair(p);
    while queue != []
      invariant Entered(p, seen, pred) && Expanded(p, seen, PairSet(queue), edges)
      invariant NoDuplicates(queue) && forall n :: n in queue ==> n in seen
      decreases |Universe(p)| - |seen|, |queue|
    {
      var current := queue[0];
      var next := Next(p, current);
      assert current in seen;
      var seen', queue', pred' := Discover(p, current, next, seen, queue[1..], pred);
      ExpandedOne(p, seen, queue, edges, current, seen', queue');
      QueueDistinct(p, seen, queue[1..], seen', queue', pred');
      SeenBounded(p, seen', pred');
      edges := edges[current := next];
      seen, queue, pred := seen', queue', pred';
    }
    assert PairSet(queue) == {};
    product := Product(seen, edges, pred);
  }

  lemma FirstPair(p: Protocol)
    ensures Entered(p, [Start(p)], map[]) && Expanded(p, [Start(p)], PairSet([Start(p)]), map[])
  {
  }

  lemma QueueDistinct(p: Protocol, seen: seq<Pair>, queue: seq<Pair>, seen': seq<Pair>, queue': seq<Pair>, pred': map<Pair, Predecessor>)
    requires NoDuplicates(queue) && (forall n :: n in queue ==> n in seen) && seen <= seen' && queue <= queue' && Entered(p, seen', pred')
    requires PairSet(queue') == PairSet(queue) + (PairSet(seen') - PairSet(seen)) && |queue'| - |queue| == |seen'| - |seen|
    ensures NoDuplicates(queue') && forall n :: n in queue' ==> n in seen'
  {
    hide Next;
    assert forall n :: n in queue' ==> n in PairSet(queue');
    assert NoDuplicates(seen) by { assert forall i :: 0 <= i < |seen| ==> seen[i] == seen'[i]; }
    NoDuplicatesSize(queue);
    NoDuplicatesSize(seen);
    NoDuplicatesSize(seen');
    var added := PairSet(seen') - PairSet(seen);
    assert PairSet(seen') == PairSet(seen) + added;
    assert |PairSet(queue')| == |queue'|;
    FullSize(queue');
  }

  /** A list as long as the number of its elements has no duplicates. */
  lemma {:induction false} FullSize(s: seq<Pair>)
    requires |PairSet(s)| == |s|
    ensures NoDuplicates(s)
    decreases |s|
  {
    if s != [] {
      var n := |s| - 1;
      assert s == s[..n] + [s[n]];
      assert PairSet(s) == PairSet(s[..n]) + {s[n]};
      SizeAtMost(s[..n]);
      FullSize(s[..n]);
      assert s[n] !in s[..n];
    }
  }

  lemma {:induction false} SizeAtMost(s: seq<Pair>)
    ensures |PairSet(s)| <= |s|
    decreases |s|
  {
    if s == [] {
      assert PairSet(s) == {};
    } else {
      var n := |s| - 1;
      assert s == s[..n] + [s[n]];
      assert PairSet(s) == PairSet(s[..n]) + {s[n]};
      SizeAtMost(s[..n]);
    }
  }

  // ---------------------------------------------------------------- what the product holds

  function StepsOf(walk: seq<ProductEdge>): seq<ProductStep> {
    if walk == [] then [] else StepsOf(walk[..|walk| - 1]) + [walk[|walk| - 1].step]
  }

  lemma {:induction false} SeenHasWalk(p: Protocol, seen: seq<Pair>, pred: map<Pair, Predecessor>, k: nat) returns (walk: seq<ProductEdge>)
    requires Entered(p, seen, pred) && k < |seen|
    ensures IsWalk(p, Start(p), walk) && Target(Start(p), walk) == seen[k]
    decreases k
  {
    hide Next, IsWalk;
    if k == 0 {
      walk := [];
      EmptyWalk(p, Start(p));
    } else {
      var j :| 0 <= j < k && seen[j] == pred[seen[k]].from;
      var e := EdgeOf(pred[seen[k]].step);
      walk := SeenHasWalk(p, seen, pred, j);
      WalkSnoc(p, Start(p), walk, e);
      walk := walk + [e];
    }
  }

  lemma {:induction false} WalkStaysSeen(p: Protocol, product: Product, from: Pair, walk: seq<ProductEdge>)
    requires IsProduct(p, product) && from in product.seen && IsWalk(p, from, walk)
    ensures Target(from, walk) in product.seen
    decreases |walk|
  {
    hide Next, IsWalk, Entered;
    if walk != [] {
      WalkPrefix(p, from, walk);
      WalkStaysSeen(p, product, from, walk[..|walk| - 1]);
      assert Target(from, walk[..|walk| - 1]) in product.edges;
    }
  }

  /** The product construction is exact: a pair is in `seen` if and only if two runs of the protocol from the initial
      state reach it with equal observation sequences. */
  lemma SeenIffTwins(p: Protocol, product: Product, n: Pair)
    requires IsProduct(p, product)
    ensures n in product.seen <==> exists a, b :: Twins(p, Start(p), a, b, n)
  {
    hide Next, IsWalk, Entered, Expanded, Twins, Target;
    ReachableIffTwins(p, n);
    if n in product.seen {
      var k :| 0 <= k < |product.seen| && product.seen[k] == n;
      var walk := SeenHasWalk(p, product.seen, product.predecessor, k);
    }
    if Reachable(p, n) {
      var walk :| IsWalk(p, Start(p), walk) && Target(Start(p), walk) == n;
      assert Start(p) in product.seen by { StartSeen(p, product.seen, product.predecessor); }
      WalkStaysSeen(p, product, Start(p), walk);
    }
  }

  lemma StartSeen(p: Protocol, seen: seq<Pair>, pred: map<Pair, Predecessor>)
    requires Entered(p, seen, pred)
    ensures Start(p) in seen
  {
  }

  lemma PrependWalk(p: Protocol, from: Pair, e: ProductEdge, walk: seq<ProductEdge>)
    requires e in Next(p, from) && IsWalk(p, e.to, walk)
    ensures IsWalk(p, from, [e] + walk) && Target(from, [e] + walk) == Target(e.to, walk)
  {
    hide Next;
    var longer := [e] + walk;
    forall i | 0 <= i < |longer| ensures longer[i] in Next(p, NodeAt(from, longer, i)) {
      if i > 0 { assert NodeAt(from, longer, i) == NodeAt(e.to, walk, i - 1); }
    }
    assert NodeAt(from, longer, |longer|) == NodeAt(e.to, walk, |walk|);
  }

  lemma {:induction false} PrependSteps(e: ProductEdge, walk: seq<ProductEdge>)
    ensures StepsOf([e] + walk) == [e.step] + StepsOf(walk)
    decreases |walk|
  {
    if walk != [] {
      var n := |walk| - 1;
      assert ([e] + walk)[..n + 1] == [e] + walk[..n];
      PrependSteps(e, walk[..n]);
    } else {
      assert [e] + walk == [e] && [e][..0] == [];
    }
  }

  lemma PredecessorOf(p: Protocol, seen: seq<Pair>, pred: map<Pair, Predecessor>, k: nat)
    requires Entered(p, seen, pred) && k < |seen| && seen[k] != Start(p)
    ensures seen[k] in pred && pred[seen[k]].from in seen[..k]
    ensures EdgeOf(pred[seen[k]].step) in Next(p, pred[seen[k]].from) && pred[seen[k]].step.states == seen[k]
  {
    hide Next;
  }

  lemma NotEntered(p: Protocol, seen: seq<Pair>, pred: map<Pair, Predecessor>, n: Pair)
    requires Entered(p, seen, pred) && n !in seen
    ensures n !in pred && n != Start(p)
  {
    hide Next;
    assert seen[0] in seen;
  }

  /** `pathTo`: the steps of a walk of the product from the start to the target; no steps for an unknown target. */
  method PathTo(p: Protocol, product: Product, target: Pair) returns (path: seq<ProductStep>, ghost walk: seq<ProductEdge>)
    requires IsProduct(p, product)
    ensures target in product.seen ==> IsWalk(p, Start(p), walk) && Target(Start(p), walk) == target && path == StepsOf(walk)
    ensures target !in product.seen ==> path == []
  {
    hide Next, IsWalk, Expanded, Entered;
    path, walk := [], [];
    var current := target;
    ghost var seen, pred := product.seen, product.predecessor;
    ghost var k: nat := if target in seen then PositionOf(seen, target) else 0;
    EmptyWalk(p, target);
    if target !in seen { NotEntered(p, seen, pred, target); }
    while current != Start(p)
      invariant target in seen ==>
        k < |seen| && seen[k] == current && IsWalk(p, current, walk) && Target(current, walk) == target && path == StepsOf(walk)
      invariant target !in seen ==> current == target && path == [] && target !in pred
      decreases k
    {
      if target in seen { PredecessorOf(p, seen, pred, k); }
      if current !in product.predecessor { break; }
      var previous := product.predecessor[current];
      PrependWalk(p, previous.from, EdgeOf(previous.step), walk);
      PrependSteps(EdgeOf(previous.step), walk);
      walk := [EdgeOf(previous.step)] + walk;
      k := PositionOf(seen[..k], previous.from);
      path := [previous.step] + path;
      current := previous.from;
    }
  }

  ghost function PositionOf(seen: seq<Pair>, n: Pair): (k: nat)
    requires n in seen
    ensures k < |seen| && seen[k] == n
  {
    var k :| 0 <= k < |seen| && seen[k] == n;
    k
  }

  /** Every pair found consists of known states. */
  lemma SeenKnown(p: Protocol, product: Product, n: Pair)
    requires ValidProtocol(p) && IsProduct(p, product) && n in product.seen
    ensures Known(p, n.0) && Known(p, n.1)
  {
    hide Entered, Expanded, Known;
    var k :| 0 <= k < |product.seen| && product.seen[k] == n;
    SeenInUniverse(p, product.seen, product.predecessor, k);
    forall s | s in Ends(p) ensures Known(p, s) { }
  }
}
