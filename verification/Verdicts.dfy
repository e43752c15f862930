/** Verdicts on a protocol: ambiguous cycles, the longest ambiguous delay, unsafe actions and the bounded oracle
    (scripts/adapter-diagnosability.ts:189-312). */
module Verdicts {
  import opened Facts
  import opened AdapterProtocol
  import opened TwinProduct
  import opened Collections

  // ---------------------------------------------------------------- ambiguous walks

  /** A walk that stays in pairs that disagree about the mutation. */
  ghost predicate AmbiguousWalk(p: Protocol, from: Pair, walk: seq<ProductEdge>) {
    && IsWalk(p, from, walk) && Differs(p, from)
    && forall i :: 0 <= i < |walk| ==> Differs(p, walk[i].to)
  }

  ghost predicate Leads(p: Protocol, from: Pair, to: Pair) {
    exists walk :: walk != [] && AmbiguousWalk(p, from, walk) && Target(from, walk) == to
  }

  /** A reachable pair lies on a cycle of ambiguous pairs. */
  ghost predicate AmbiguousCycle(p: Protocol) { exists n :: Reachable(p, n) && Leads(p, n, n) }

  lemma AmbiguousSnoc(p: Protocol, from: Pair, walk: seq<ProductEdge>, e: ProductEdge)
    requires AmbiguousWalk(p, from, walk) && e in Next(p, Target(from, walk)) && Differs(p, e.to)
    ensures AmbiguousWalk(p, from, walk + [e]) && Target(from, walk + [e]) == e.to
  {
    hide Next, Differs;
    WalkSnoc(p, from, walk, e);
  }

  lemma AmbiguousPrefix(p: Protocol, from: Pair, walk: seq<ProductEdge>)
    requires walk != [] && AmbiguousWalk(p, from, walk)
    ensures var n := |walk| - 1;
      && AmbiguousWalk(p, from, walk[..n]) && walk[n] in Next(p, Target(from, walk[..n]))
      && Target(from, walk) == walk[n].to && Differs(p, walk[n].to)
  {
    hide Next, Differs;
    WalkPrefix(p, from, walk);
  }

  lemma AmbiguousCons(p: Protocol, from: Pair, e: ProductEdge, walk: seq<ProductEdge>)
    requires Differs(p, from) && e in Next(p, from) && AmbiguousWalk(p, e.to, walk)
    ensures AmbiguousWalk(p, from, [e] + walk) && Target(from, [e] + walk) == Target(e.to, walk)
  {
    hide Next, Differs;
    PrependWalk(p, from, e, walk);
    assert Differs(p, e.to);
  }

  lemma AmbiguousTail(p: Protocol, from: Pair, walk: seq<ProductEdge>)
    requires walk != [] && AmbiguousWalk(p, from, walk)
    ensures walk[0] in Next(p, from) && Differs(p, walk[0].to) && AmbiguousWalk(p, walk[0].to, walk[1..])
    ensures Target(from, walk) == Target(walk[0].to, walk[1..])
  {
    hide Next, Differs;
    var rest := walk[1..];
    assert NodeAt(from, walk, 0) == from;
    forall i | 0 <= i < |rest| ensures rest[i] in Next(p, NodeAt(walk[0].to, rest, i)) {
      assert NodeAt(walk[0].to, rest, i) == NodeAt(from, walk, i + 1);
    }
  }

  // ---------------------------------------------------------------- searching one start for a cycle

  datatype Frame = Frame(at: Pair, path: seq<ProductEdge>, visited: set<Pair>)

  datatype Cycle = Cycle(entry: Pair, path: seq<ProductEdge>)

  ghost predicate IsCycle(p: Protocol, c: Cycle) {
    c.path != [] && AmbiguousWalk(p, c.entry, c.path) && Target(c.entry, c.path) == c.entry
  }

  /** A frame is a path of ambiguous pairs from the start, whose earlier pairs have all been expanded. */
  ghost predicate GoodFrame(p: Protocol, start: Pair, allowed: set<Pair>, expanded: set<Pair>, f: Frame) {
    && AmbiguousWalk(p, start, f.path) && Target(start, f.path) == f.at
    && f.at in f.visited && f.visited <= allowed && f.visited - {f.at} <= expanded
  }

  ghost predicate OnStack(stack: seq<Frame>, n: Pair) { exists i :: 0 <= i < |stack| && stack[i].at == n }

  /** An edge that has been dealt with: it does not return to the start, and its target is expanded or on the stack. */
  ghost predicate Handled(start: Pair, allowed: set<Pair>, expanded: set<Pair>, stack: seq<Frame>, e: ProductEdge) {
    e.to in allowed ==> e.to != start && (e.to in expanded || OnStack(stack, e.to))
  }

  ghost predicate AllHandled(p: Protocol, start: Pair, allowed: set<Pair>, done: set<Pair>, expanded: set<Pair>, stack: seq<Frame>) {
    forall u, e :: u in done && e in Next(p, u) ==> Handled(start, allowed, expanded, stack, e)
  }

  ghost predicate GoodFrames(p: Protocol, start: Pair, allowed: set<Pair>, expanded: set<Pair>, stack: seq<Frame>) {
    forall i :: 0 <= i < |stack| ==> GoodFrame(p, start, allowed, expanded, stack[i])
  }

  /** Popping a frame and marking its pair expanded keeps what was established. */
  lemma Popped(p: Protocol, start: Pair, allowed: set<Pair>, expanded: set<Pair>, stack: seq<Frame>)
    requires stack != [] && GoodFrames(p, start, allowed, expanded, stack) && AllHandled(p, start, allowed, expanded, expanded, stack)
    ensures var n := |stack| - 1; var more := expanded + {stack[n].at};
      && GoodFrames(p, start, allowed, more, stack[..n]) && GoodFrame(p, start, allowed, more, stack[n])
      && AllHandled(p, start, allowed, expanded, more, stack[..n])
  {
    hide Next, AmbiguousWalk, Target;
    var n := |stack| - 1;
    var more := expanded + {stack[n].at};
    forall u, e | u in expanded && e in Next(p, u) ensures Handled(start, allowed, more, stack[..n], e) {
      assert Handled(start, allowed, expanded, stack, e);
      if e.to in allowed && e.to !in more {
        var i :| 0 <= i < |stack| && stack[i].at == e.to;
        assert stack[..n][i].at == e.to;
      }
    }
  }

  lemma StackGrows(start: Pair, allowed: set<Pair>, expanded: set<Pair>, stack: seq<Frame>, f: Frame, e: ProductEdge)
    requires Handled(start, allowed, expanded, stack, e)
    ensures Handled(start, allowed, expanded, stack + [f], e)
  {
    if OnStack(stack, e.to) {
      var i :| 0 <= i < |stack| && stack[i].at == e.to;
      assert (stack + [f])[i].at == e.to;
    }
  }

  lemma AllStackGrows(p: Protocol, start: Pair, allowed: set<Pair>, done: set<Pair>, expanded: set<Pair>, stack: seq<Frame>, f: Frame)
    requires AllHandled(p, start, allowed, done, expanded, stack)
    ensures AllHandled(p, start, allowed, done, expanded, stack + [f])
  {
    hide Next, Handled;
    forall u, e | u in done && e in Next(p, u) ensures Handled(start, allowed, expanded, stack + [f], e) {
      StackGrows(start, allowed, expanded, stack, f, e);
    }
  }

  /** Extending a frame by an edge to an unvisited pair. */
  lemma Pushed(p: Protocol, start: Pair, allowed: set<Pair>, expanded: set<Pair>, f: Frame, e: ProductEdge)
    requires GoodFrame(p, start, allowed, expanded, f) && f.at in expanded
    requires e in Next(p, f.at) && e.to in allowed && e.to !in f.visited && Differs(p, e.to)
    ensures GoodFrame(p, start, allowed, expanded, Frame(e.to, f.path + [e], f.visited + {e.to}))
    ensures |f.visited + {e.to}| == |f.visited| + 1 <= |allowed|
  {
    hide Next, Differs, AmbiguousWalk;
    AmbiguousSnoc(p, start, f.path, e);
    SubsetSize(f.visited + {e.to}, allowed);
  }

  // ---------------------------------------------------------------- the search ends

  /** More than the number of frames a search below a path with `room` unvisited pairs can create. */
  ghost function Weight(degree: nat, room: nat): nat {
    if room == 0 then 1 else 1 + degree * Weight(degree, room - 1)
  }

  ghost function Load(degree: nat, total: nat, stack: seq<Frame>): nat {
    if stack == [] then 0
    else
      var f := stack[|stack| - 1];
      Load(degree, total, stack[..|stack| - 1]) + Weight(degree, Room(total, f))
  }

  lemma LoadSnoc(degree: nat, total: nat, stack: seq<Frame>, f: Frame)
    ensures Load(degree, total, stack + [f]) == Load(degree, total, stack) + Weight(degree, Room(total, f))
  {
    assert (stack + [f])[..|stack|] == stack;
  }

  lemma Distribute(m: nat, w: nat)
    ensures (m + 1) * w == m * w + w
  {
  }

  lemma Bounded(m: nat, degree: nat, w: nat)
    requires m <= degree
    ensures m * w <= degree * w
  {
  }

  /** The largest number of edges out of any listed pair. */
  ghost function Degree(p: Protocol, seen: seq<Pair>): nat {
    if seen == [] then 0
    else
      var rest := Degree(p, seen[1..]);
      if |Next(p, seen[0])| > rest then |Next(p, seen[0])| else rest
  }

  lemma {:induction false} DegreeBounds(p: Protocol, seen: seq<Pair>, n: Pair)
    requires n in seen
    ensures |Next(p, n)| <= Degree(p, seen)
    decreases |seen|
  {
    hide Next;
    if n != seen[0] { DegreeBounds(p, seen[1..], n); }
  }

  ghost function Room(total: nat, f: Frame): nat { if |f.visited| <= total then total - |f.visited| else 0 }

  /** The weight of each frame pushed from `f`. */
  ghost function ChildWeight(degree: nat, total: nat, f: Frame): nat {
    if Room(total, f) > 0 then Weight(degree, Room(total, f) - 1) else 0
  }

  lemma LoadDrops(degree: nat, total: nat, rest: seq<Frame>, f: Frame, m: nat)
    requires m <= degree
    ensures Load(degree, total, rest) + m * ChildWeight(degree, total, f) < Load(degree, total, rest + [f])
  {
    LoadSnoc(degree, total, rest, f);
    Bounded(m, degree, ChildWeight(degree, total, f));
  }

  // ---------------------------------------------------------------- the depth-first search

  /** The allowed pairs: reachable and ambiguous. */
  ghost predicate AllowedPairs(p: Protocol, product: Product, allowed: set<Pair>) {
    forall n :: n in allowed <==> n in product.seen && Differs(p, n)
  }

  /** Follow the edges of one popped frame: return a cycle, or push the extensions of its path. */
  method Follow(p: Protocol, start: Pair, next: seq<ProductEdge>, f: Frame, rest: seq<Frame>, allowed: set<Pair>,
                ghost expanded: set<Pair>, ghost degree: nat)
    returns (cycle: Option<Cycle>, stack: seq<Frame>)
    requires next == Next(p, f.at) && |next| <= degree && (forall n :: n in allowed ==> Differs(p, n))
    requires GoodFrame(p, start, allowed, expanded + {f.at}, f) && GoodFrames(p, start, allowed, expanded + {f.at}, rest)
    requires AllHandled(p, start, allowed, expanded, expanded + {f.at}, rest)
    ensures cycle.Some? ==> cycle.value.entry == start && IsCycle(p, cycle.value)
    ensures cycle.None? ==>
      && GoodFrames(p, start, allowed, expanded + {f.at}, stack)
      && AllHandled(p, start, allowed, expanded + {f.at}, expanded + {f.at}, stack)
      && Load(degree, |allowed|, stack) < Load(degree, |allowed|, rest + [f])
  {
    hide Next, Differs, AmbiguousWalk, AllHandled, Handled, Load, Weight;
    ghost var more, w := expanded + {f.at}, ChildWeight(degree, |allowed|, f);
    stack := rest;
    var m := 0;
    while m < |next|
      invariant m <= |next| && GoodFrames(p, start, allowed, more, stack)
      invariant AllHandled(p, start, allowed, expanded, more, stack)
      invariant forall e :: e in next[..m] ==> Handled(start, allowed, more, stack, e)
      invariant Load(degree, |allowed|, stack) <= Load(degree, |allowed|, rest) + m * w
    {
      var edge := next[m];
      assert edge in next && next[..m + 1] == next[..m] + [edge];
      Distribute(m, w);
      if edge.to !in allowed {
        HandledBy(start, allowed, more, stack, edge);
      } else if edge.to == start {
        AmbiguousSnoc(p, start, f.path, edge);
        return Some(Cycle(start, f.path + [edge])), stack;
      } else if edge.to in f.visited {
        HandledBy(start, allowed, more, stack, edge);
      } else {
        var child := Frame(edge.to, f.path + [edge], f.visited + {edge.to});
        Pushed(p, start, allowed, more, f, edge);
        LoadSnoc(degree, |allowed|, stack, child);
        AllStackGrows(p, start, allowed, expanded, more, stack, child);
        forall e | e in next[..m] ensures Handled(start, allowed, more, stack + [child], e) {
          StackGrows(start, allowed, more, stack, child, e);
        }
        stack := stack + [child];
        assert OnStack(stack, edge.to) by { assert stack[|stack| - 1].at == edge.to; }
        HandledBy(start, allowed, more, stack, edge);
      }
      m := m + 1;
    }
    cycle := None;
    assert next[..m] == next;
    LoadDrops(degree, |allowed|, rest, f, m);
    CurrentHandled(p, start, allowed, expanded, f.at, stack);
  }

  lemma HandledBy(start: Pair, allowed: set<Pair>, expanded: set<Pair>, stack: seq<Frame>, e: ProductEdge)
    requires e.to in allowed ==> e.to != start && (e.to in expanded || OnStack(stack, e.to))
    ensures Handled(start, allowed, expanded, stack, e)
  {
  }

  lemma CurrentHandled(p: Protocol, start: Pair, allowed: set<Pair>, expanded: set<Pair>, at: Pair, stack: seq<Frame>)
    requires AllHandled(p, start, allowed, expanded, expanded + {at}, stack)
    requires forall e :: e in Next(p, at) ==> Handled(start, allowed, expanded + {at}, stack, e)
    ensures AllHandled(p, start, allowed, expanded + {at}, expanded + {at}, stack)
  {
    hide Next, Handled;
  }

  /** Search all simple ambiguous paths from one pair. */
  method SearchFrom(p: Protocol, product: Product, start: Pair, allowed: set<Pair>) returns (cycle: Option<Cycle>)
    requires IsProduct(p, product) && AllowedPairs(p, product, allowed) && start in allowed
    ensures cycle.Some? ==> cycle.value.entry == start && IsCycle(p, cycle.value)
    ensures cycle.None? ==> !Leads(p, start, start)
  {
    hide Next, Differs, AmbiguousWalk, AllHandled, Load, Leads, IsProduct, IsCycle, GoodFrame;
    ghost var degree, total := Degree(p, product.seen), |allowed|;
    ghost var expanded: set<Pair> := {};
    var stack := [Frame(start, [], {start})];
    FirstFrame(p, product, start, allowed);
    while stack != []
      invariant GoodFrames(p, start, allowed, expanded, stack) && AllHandled(p, start, allowed, expanded, expanded, stack)
      invariant start in expanded || (|stack| == 1 && stack[0].at == start)
      invariant expanded <= allowed
      decreases Load(degree, total, stack)
    {
      var n := |stack| - 1;
      var f := stack[n];
      FrameAllowed(p, product, start, allowed, expanded, f);
      Popped(p, start, allowed, expanded, stack);
      EdgesKnown(p, product, f.at);
      DegreeBounds(p, product.seen, f.at);
      assert stack[..n] + [f] == stack;
      var found, next := Follow(p, start, product.edges[f.at], f, stack[..n], allowed, expanded, degree);
      if found.Some? { return found; }
      expanded := expanded + {f.at};
      stack := next;
    }
    NoReturn(p, product, start, allowed, expanded);
    return None;
  }

  lemma FirstFrame(p: Protocol, product: Product, start: Pair, allowed: set<Pair>)
    requires AllowedPairs(p, product, allowed) && start in allowed
    ensures GoodFrames(p, start, allowed, {}, [Frame(start, [], {start})])
    ensures AllHandled(p, start, allowed, {}, {}, [Frame(start, [], {start})])
  {
    hide Next, Differs;
    EmptyWalk(p, start);
  }

  lemma FrameAllowed(p: Protocol, product: Product, start: Pair, allowed: set<Pair>, expanded: set<Pair>, f: Frame)
    requires AllowedPairs(p, product, allowed) && GoodFrame(p, start, allowed, expanded, f)
    ensures f.at in allowed && f.at in product.seen
  {
    hide Next, Differs;
  }

  lemma EdgesKnown(p: Protocol, product: Product, n: Pair)
    requires IsProduct(p, product) && n in product.seen
    ensures n in product.edges && product.edges[n] == Next(p, n) && forall e :: e in Next(p, n) ==> e.to in product.seen
  {
    hide Next, Entered;
  }

  /** When the search has emptied its stack no ambiguous walk returns to the start. */
  lemma {:induction false} StaysExpanded(p: Protocol, product: Product, start: Pair, allowed: set<Pair>, expanded: set<Pair>, walk: seq<ProductEdge>)
    requires IsProduct(p, product) && AllowedPairs(p, product, allowed) && start in expanded && expanded <= allowed
    requires AllHandled(p, start, allowed, expanded, expanded, []) && AmbiguousWalk(p, start, walk)
    ensures Target(start, walk) in expanded && (walk != [] ==> Target(start, walk) != start)
    decreases |walk|
  {
    hide Next, Differs, AmbiguousWalk, IsProduct, Handled;
    if walk != [] {
      AmbiguousPrefix(p, start, walk);
      var e, before := walk[|walk| - 1], Target(start, walk[..|walk| - 1]);
      StaysExpanded(p, product, start, allowed, expanded, walk[..|walk| - 1]);
      EdgesKnown(p, product, before);
      assert Handled(start, allowed, expanded, [], e);
      HandledEmpty(start, allowed, expanded, e);
    }
  }

  lemma HandledEmpty(start: Pair, allowed: set<Pair>, expanded: set<Pair>, e: ProductEdge)
    requires Handled(start, allowed, expanded, [], e)
    ensures e.to in allowed ==> e.to != start && e.to in expanded
  {
  }

  lemma NoReturn(p: Protocol, product: Product, start: Pair, allowed: set<Pair>, expanded: set<Pair>)
    requires IsProduct(p, product) && AllowedPairs(p, product, allowed) && start in expanded && expanded <= allowed
    requires AllHandled(p, start, allowed, expanded, expanded, [])
    ensures !Leads(p, start, start)
  {
    hide Next, Differs, AmbiguousWalk, IsProduct, AllHandled, Target;
    forall walk | walk != [] && AmbiguousWalk(p, start, walk) ensures Target(start, walk) != start {
      StaysExpanded(p, product, start, allowed, expanded, walk);
    }
  }

  // ---------------------------------------------------------------- the first verdict

  lemma LookupOfSeen(p: Protocol, product: Product, n: Pair)
    requires ValidProtocol(p) && IsProduct(p, product) && n in product.seen
    ensures LookupsDiffer(p, n) <==> Differs(p, n)
  {
    hide IsProduct, Differs, LookupsDiffer, ValidProtocol, Known;
    SeenKnown(p, product, n);
    LookupsDifferIff(p, n);
  }

  /** The ambiguous pairs, found by looking both states up. */
  method Ambiguous(p: Protocol, product: Product) returns (pairs: seq<Pair>)
    requires ValidProtocol(p) && IsProduct(p, product)
    ensures forall n :: n in pairs <==> n in product.seen && Differs(p, n)
    ensures NoDuplicates(pairs)
  {
    hide Next, Differs, IsProduct, LookupsDiffer, ValidProtocol;
    var seen := product.seen;
    assert NoDuplicates(seen) by { SeenDistinct(p, product); }
    pairs := [];
    var k := 0;
    while k < |seen|
      invariant k <= |seen| && NoDuplicates(pairs)
      invariant forall n :: n in pairs <==> n in seen[..k] && Differs(p, n)
    {
      assert seen[..k + 1] == seen[..k] + [seen[k]];
      assert seen[k] !in seen[..k];
      LookupOfSeen(p, product, seen[k]);
      if LookupsDiffer(p, seen[k]) { pairs := pairs + [seen[k]]; }
      k := k + 1;
    }
    assert seen[..k] == seen;
  }

  lemma SeenDistinct(p: Protocol, product: Product)
    requires IsProduct(p, product)
    ensures NoDuplicates(product.seen)
  {
    hide Next;
  }

  /** `findAmbiguousCycle`: a cycle of ambiguous pairs, or proof that there is none. */
  method FindAmbiguousCycle(p: Protocol, product: Product) returns (cycle: Option<Cycle>)
    requires ValidProtocol(p) && IsProduct(p, product)
    ensures cycle.Some? ==> cycle.value.entry in product.seen && IsCycle(p, cycle.value)
    ensures cycle.None? <==> !AmbiguousCycle(p)
  {
    hide Next, Differs, IsProduct, Leads, Reachable, IsCycle, ValidProtocol;
    var ambiguous := Ambiguous(p, product);
    var allowed := set n | n in ambiguous;
    var k := 0;
    while k < |ambiguous|
      invariant k <= |ambiguous| && forall n :: n in ambiguous[..k] ==> !Leads(p, n, n)
    {
      assert ambiguous[k] in ambiguous && ambiguous[..k + 1] == ambiguous[..k] + [ambiguous[k]];
      cycle := SearchFrom(p, product, ambiguous[k], allowed);
      if cycle.Some? {
        CycleFound(p, product, cycle.value);
        return;
      }
      k := k + 1;
    }
    assert ambiguous[..k] == ambiguous;
    NoneFound(p, product, allowed);
    return None;
  }

  lemma CycleFound(p: Protocol, product: Product, c: Cycle)
    requires IsProduct(p, product) && c.entry in product.seen && IsCycle(p, c)
    ensures AmbiguousCycle(p)
  {
    hide Next, Differs, IsProduct, Target, AmbiguousWalk;
    SeenIffReachable(p, product, c.entry);
    assert Leads(p, c.entry, c.entry);
  }

  lemma SeenIffReachable(p: Protocol, product: Product, n: Pair)
    requires IsProduct(p, product)
    ensures n in product.seen <==> Reachable(p, n)
  {
    hide IsProduct, Reachable, Twins;
    SeenIffTwins(p, product, n);
    ReachableIffTwins(p, n);
  }

  lemma NoneFound(p: Protocol, product: Product, allowed: set<Pair>)
    requires IsProduct(p, product) && AllowedPairs(p, product, allowed) && forall n :: n in allowed ==> !Leads(p, n, n)
    ensures !AmbiguousCycle(p)
  {
    hide Next, Differs, IsProduct, Reachable, IsWalk, Target;
    forall n | Reachable(p, n) ensures !Leads(p, n, n) {
      SeenIffReachable(p, product, n);
    }
  }

  // ---------------------------------------------------------------- the longest ambiguous delay

  function Observables(walk: seq<ProductEdge>): nat {
    if walk == [] then 0 else (if walk[0].observable then 1 else 0) + Observables(walk[1..])
  }

  /** `k` is the most observations on any ambiguous walk from `n`. */
  ghost predicate IsLongest(p: Protocol, n: Pair, k: nat) {
    && (exists walk :: AmbiguousWalk(p, n, walk) && Observables(walk) == k)
    && forall walk :: AmbiguousWalk(p, n, walk) ==> Observables(walk) <= k
  }

  /** The same, over the walks whose first edge is among the first `m` edges of `n`. */
  ghost predicate LongestVia(p: Protocol, n: Pair, m: nat, k: nat) {
    && m <= |Next(p, n)|
    && (exists walk :: AmbiguousWalk(p, n, walk) && Observables(walk) == k)
    && forall walk :: AmbiguousWalk(p, n, walk) && (walk == [] || walk[0] in Next(p, n)[..m]) ==> Observables(walk) <= k
  }

  lemma NoEdgesYet(p: Protocol, n: Pair)
    requires Differs(p, n)
    ensures LongestVia(p, n, 0, 0)
  {
    hide Next, Differs;
    EmptyWalk(p, n);
    assert AmbiguousWalk(p, n, []) && Observables([]) == 0;
  }

  lemma SkipEdge(p: Protocol, n: Pair, m: nat, k: nat)
    requires m < |Next(p, n)| && LongestVia(p, n, m, k) && !Differs(p, Next(p, n)[m].to)
    ensures LongestVia(p, n, m + 1, k)
  {
    hide Next, Differs, Observables;
    var next := Next(p, n);
    assert next[..m + 1] == next[..m] + [next[m]];
    forall walk | AmbiguousWalk(p, n, walk) && (walk == [] || walk[0] in next[..m + 1]) ensures Observables(walk) <= k {
      if walk != [] { AmbiguousTail(p, n, walk); }
    }
  }

  lemma TakeEdge(p: Protocol, n: Pair, m: nat, k: nat, below: nat)
    requires m < |Next(p, n)| && LongestVia(p, n, m, k) && Differs(p, n) && IsLongest(p, Next(p, n)[m].to, below)
    ensures var via := (if Next(p, n)[m].observable then 1 else 0) + below; LongestVia(p, n, m + 1, if via > k then via else k)
  {
    hide Next, Differs, AmbiguousWalk;
    var next := Next(p, n);
    var e := next[m];
    var via := (if e.observable then 1 else 0) + below;
    assert next[..m + 1] == next[..m] + [e];
    assert e in next;
    forall walk | AmbiguousWalk(p, n, walk) && (walk == [] || walk[0] in next[..m + 1]) ensures Observables(walk) <= if via > k then via else k {
      if walk != [] && walk[0] == e { AmbiguousTail(p, n, walk); }
    }
    var walk :| AmbiguousWalk(p, e.to, walk) && Observables(walk) == below;
    AmbiguousCons(p, n, e, walk);
    assert ([e] + walk)[1..] == walk;
    assert Observables([e] + walk) == via;
  }

  lemma AllEdges(p: Protocol, n: Pair, k: nat)
    requires LongestVia(p, n, |Next(p, n)|, k)
    ensures IsLongest(p, n, k)
  {
    hide Next, Differs, Observables;
    var next := Next(p, n);
    assert next[..|next|] == next;
    forall walk | AmbiguousWalk(p, n, walk) ensures Observables(walk) <= k {
      if walk != [] { AmbiguousTail(p, n, walk); }
    }
  }

  lemma LeadsOn(p: Protocol, v: Pair, n: Pair, e: ProductEdge)
    requires Differs(p, n) && (v == n || Leads(p, v, n)) && e in Next(p, n) && Differs(p, e.to)
    ensures Leads(p, v, e.to)
  {
    hide Next, Differs;
    var walk: seq<ProductEdge> := [];
    if Leads(p, v, n) {
      walk :| walk != [] && AmbiguousWalk(p, v, walk) && Target(v, walk) == n;
    } else {
      EmptyWalk(p, n);
    }
    AmbiguousSnoc(p, v, walk, e);
  }

  /** The memoised recursion of `maxAmbiguousDelay`. */
  class DelaySearch {
    const p: Protocol
    const product: Product
    ghost const allowed: set<Pair>
    var memo: map<Pair, nat>
    var visiting: set<Pair>

    ghost predicate Valid()
      reads this
    {
      && ValidProtocol(p) && IsProduct(p, product) && AllowedPairs(p, product, allowed) && visiting <= allowed
      && forall n :: n in memo ==> IsLongest(p, n, memo[n])
    }

    constructor (p: Protocol, product: Product)
      requires ValidProtocol(p) && IsProduct(p, product)
      ensures this.p == p && this.product == product && Valid() && visiting == {}
    {
      this.p, this.product := p, product;
      allowed := set n | n in product.seen && Differs(p, n);
      memo, visiting := map[], {};
    }

    /** `visit`: None is the source's ADAPTER_PROTOCOL_UNEXPECTED_AMBIGUOUS_CYCLE. */
    method Visit(state: Pair) returns (delay: Option<nat>)
      requires Valid() && state in allowed && forall v :: v in visiting ==> Leads(p, v, state)
      modifies this
      ensures Valid()
      ensures delay.Some? ==> visiting == old(visiting) && IsLongest(p, state, delay.value)
      ensures delay.None? ==> AmbiguousCycle(p)
      decreases allowed - visiting
    {
      hide Next, Differs, IsProduct, IsLongest, LongestVia, Leads, LookupsDiffer, ValidProtocol;
      if state in memo { return Some(memo[state]); }
      if state in visiting {
        OnCycle(p, product, state);
        return None;
      }
      visiting := visiting + {state};
      EdgesKnown(p, product, state);
      NoEdgesYet(p, state);
      var next := product.edges[state];
      var best, m := 0, 0;
      while m < |next|
        invariant m <= |next| && Valid() && LongestVia(p, state, m, best)
        invariant visiting == old(visiting) + {state}
      {
        var edge := next[m];
        assert edge in next;
        LookupOfSeen(p, product, edge.to);
        if LookupsDiffer(p, edge.to) {
          forall v | v in visiting ensures Leads(p, v, edge.to) { LeadsOn(p, v, state, edge); }
          var below := Visit(edge.to);
          if below.None? { return None; }
          TakeEdge(p, state, m, best, below.value);
          var via := (if edge.observable then 1 else 0) + below.value;
          best := if via > best then via else best;
        } else {
          SkipEdge(p, state, m, best);
        }
        m := m + 1;
      }
      AllEdges(p, state, best);
      visiting := visiting - {state};
      memo := memo[state := best];
      return Some(best);
    }
  }

  lemma OnCycle(p: Protocol, product: Product, n: Pair)
    requires IsProduct(p, product) && n in product.seen && Leads(p, n, n)
    ensures AmbiguousCycle(p)
  {
    hide IsProduct, Leads, Reachable;
    SeenIffReachable(p, product, n);
  }

  /** `r` is the most observations on any ambiguous walk from a reachable pair. */
  ghost predicate MaximalDelay(p: Protocol, r: nat) {
    && (forall n, walk :: Reachable(p, n) && AmbiguousWalk(p, n, walk) ==> Observables(walk) <= r)
    && (r > 0 ==> exists n, walk :: Reachable(p, n) && AmbiguousWalk(p, n, walk) && Observables(walk) == r)
  }

  ghost predicate Within(p: Protocol, n: Pair, bound: nat) { forall walk :: AmbiguousWalk(p, n, walk) ==> Observables(walk) <= bound }

  lemma LongestWithin(p: Protocol, n: Pair, k: nat)
    requires IsLongest(p, n, k)
    ensures Within(p, n, k)
  {
  }

  lemma WithinMore(p: Protocol, n: Pair, k: nat, bound: nat)
    requires Within(p, n, k) && k <= bound
    ensures Within(p, n, bound)
  {
  }

  /** `maxAmbiguousDelay`: without an ambiguous cycle it never fails and returns the longest delay. */
  method MaxAmbiguousDelay(p: Protocol, product: Product) returns (delay: Option<nat>)
    requires ValidProtocol(p) && IsProduct(p, product)
    ensures delay.None? ==> AmbiguousCycle(p)
    ensures delay.Some? ==> MaximalDelay(p, delay.value)
  {
    hide Next, Differs, IsProduct, IsLongest, Leads, AmbiguousCycle, Within, ValidProtocol;
    var search := new DelaySearch(p, product);
    var ambiguous := Ambiguous(p, product);
    var best, k := 0, 0;
    while k < |ambiguous|
      invariant k <= |ambiguous| && fresh(search) && search.p == p && search.product == product && search.Valid() && search.visiting == {}
      invariant forall i :: 0 <= i < k ==> Within(p, ambiguous[i], best)
      invariant best > 0 ==> exists i :: 0 <= i < k && IsLongest(p, ambiguous[i], best)
    {
      assert ambiguous[k] in ambiguous;
      var d := search.Visit(ambiguous[k]);
      if d.None? { return None; }
      ghost var was := best;
      best := if d.value > best then d.value else best;
      forall i | 0 <= i < k ensures Within(p, ambiguous[i], best) { WithinMore(p, ambiguous[i], was, best); }
      LongestWithin(p, ambiguous[k], d.value);
      WithinMore(p, ambiguous[k], d.value, best);
      k := k + 1;
    }
    LongestOfAll(p, product, ambiguous, best);
    return Some(best);
  }

  lemma LongestOfAll(p: Protocol, product: Product, ambiguous: seq<Pair>, best: nat)
    requires IsProduct(p, product) && forall n :: n in ambiguous <==> n in product.seen && Differs(p, n)
    requires forall i :: 0 <= i < |ambiguous| ==> Within(p, ambiguous[i], best)
    requires best > 0 ==> exists i :: 0 <= i < |ambiguous| && IsLongest(p, ambiguous[i], best)
    ensures MaximalDelay(p, best)
  {
    hide Next, Differs, IsProduct, Reachable, Observables, IsWalk;
    forall n, walk | Reachable(p, n) && AmbiguousWalk(p, n, walk) ensures Observables(walk) <= best {
      SeenIffReachable(p, product, n);
      var i :| 0 <= i < |ambiguous| && ambiguous[i] == n;
    }
    if best > 0 {
      var i :| 0 <= i < |ambiguous| && IsLongest(p, ambiguous[i], best);
      assert ambiguous[i] in ambiguous;
      SeenIffReachable(p, product, ambiguous[i]);
    }
  }
}
