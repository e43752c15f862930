/** The graph index: edge lists and a topological order by counting down dependencies (src/graph/topology.ts). */
module Topology {
  import opened Facts
  import opened Graph
  import opened Ordering
  import opened Collections

  type Adjacency = map<ObligationId, seq<ObligationId>>

  datatype GraphIndex = GraphIndex(upstreams: Adjacency, downstreams: Adjacency, order: seq<ObligationId>)

  function Elements(s: seq<ObligationId>): set<ObligationId> { set x | x in s }

  ghost predicate UpstreamLists(obs: Obligations, upstreams: Adjacency) {
    upstreams.Keys == obs.Keys && forall id :: id in obs ==> Distinct(upstreams[id]) && Elements(upstreams[id]) == Upstreams(obs[id])
  }

  ghost predicate DownstreamLists(obs: Obligations, downstreams: Adjacency) {
    && downstreams.Keys == obs.Keys
    && forall id :: id in obs ==> Distinct(downstreams[id]) && forall x :: x in downstreams[id] <==> x in obs && id in Upstreams(obs[x])
  }

  /** What a valid index of a project graph is. */
  ghost predicate ValidIndex(obs: Obligations, g: GraphIndex) {
    TopologicalOrder(obs, g.order) && UpstreamLists(obs, g.upstreams) && DownstreamLists(obs, g.downstreams)
  }

  ghost predicate AllBound(obs: Obligations) { forall id :: id in obs ==> Upstreams(obs[id]) <= obs.Keys }

  // ---------------------------------------------------------------- the edge lists

  /** The downstream lists once the ids in `seen` are done, and of `now` the edges to `targets`. */
  ghost predicate Partial(obs: Obligations, downs: Adjacency, seen: set<ObligationId>, now: ObligationId, targets: set<ObligationId>) {
    && downs.Keys == obs.Keys && seen <= obs.Keys
    && (forall id :: id in obs ==> Distinct(downs[id]))
    && forall id, x :: id in obs ==> (x in downs[id] <==> (x in seen && id in Upstreams(obs[x])) || (x == now && id in targets))
  }

  lemma PartialOne(obs: Obligations, downs: Adjacency, seen: set<ObligationId>, now: ObligationId, targets: set<ObligationId>, target: ObligationId)
    requires Partial(obs, downs, seen, now, targets) && now !in seen && target in obs && target !in targets
    ensures Partial(obs, downs[target := downs[target] + [now]], seen, now, targets + {target})
  {
    var downs' := downs[target := downs[target] + [now]];
    assert downs'.Keys == obs.Keys;
    assert now !in downs[target];
    assert Distinct(downs[target] + [now]);
    forall id, x | id in obs
      ensures x in downs'[id] <==> (x in seen && id in Upstreams(obs[x])) || (x == now && id in targets + {target})
    {
    }
  }

  lemma PartialDone(obs: Obligations, downs: Adjacency, seen: set<ObligationId>, now: ObligationId, next: ObligationId)
    requires now in obs && Partial(obs, downs, seen, now, Upstreams(obs[now]))
    ensures Partial(obs, downs, seen + {now}, next, {})
  {
  }

  method Enter(obs: Obligations, downs: Adjacency, now: ObligationId, ghost seen: set<ObligationId>) returns (targets: seq<ObligationId>, result: Result<Adjacency>)
    requires now in obs && now !in seen && Partial(obs, downs, seen, now, {})
    ensures result.Ok? <==> Upstreams(obs[now]) <= obs.Keys
    ensures result.Ok? ==> Partial(obs, result.value, seen, now, Upstreams(obs[now]))
    ensures result.Err? ==> result.error == UnknownDependency
    ensures Increasing(targets) && Elements(targets) == Upstreams(obs[now])
  {
    hide Partial, Upstreams;
    targets := Sorted(Upstreams(obs[now]));
    SameElements(targets, Upstreams(obs[now]));
    var lists, m := downs, 0;
    assert Elements(targets[..0]) == {};
    PartialKeys(obs, lists, seen, now, {});
    while m < |targets|
      invariant m <= |targets| && Elements(targets[..m]) <= obs.Keys && lists.Keys == obs.Keys
      invariant Partial(obs, lists, seen, now, Elements(targets[..m]))
    {
      NextTarget(targets, m);
      if targets[m] !in obs { return targets, Err(UnknownDependency); }
      PartialOne(obs, lists, seen, now, Elements(targets[..m]), targets[m]);
      lists := lists[targets[m] := lists[targets[m]] + [now]];
      m := m + 1;
    }
    assert targets[..m] == targets;
    result := Ok(lists);
  }

  lemma SameElements(targets: seq<ObligationId>, ids: set<ObligationId>)
    requires forall x :: x in targets <==> x in ids
    ensures Elements(targets) == ids
  {
  }

  lemma PartialKeys(obs: Obligations, downs: Adjacency, seen: set<ObligationId>, now: ObligationId, targets: set<ObligationId>)
    requires Partial(obs, downs, seen, now, targets)
    ensures downs.Keys == obs.Keys
  {
  }

  lemma NextTarget(targets: seq<ObligationId>, m: nat)
    requires Increasing(targets) && m < |targets|
    ensures targets[m] in Elements(targets) && targets[m] !in Elements(targets[..m])
    ensures Elements(targets[..m + 1]) == Elements(targets[..m]) + {targets[m]}
  {
    assert targets[..m + 1] == targets[..m] + [targets[m]];
    forall j | 0 <= j < m ensures targets[j] != targets[m] { BeforeTotal(targets[j], targets[m]); }
  }

  lemma IncreasingIsDistinct(s: seq<ObligationId>)
    requires Increasing(s)
    ensures Distinct(s)
  {
    forall i, j | 0 <= i < j < |s| ensures s[i] != s[j] { BeforeTotal(s[i], s[j]); }
  }

  ghost predicate Entered(obs: Obligations, upstreams: Adjacency, seen: set<ObligationId>) {
    && upstreams.Keys == seen <= obs.Keys
    && forall id :: id in seen ==>
         Distinct(upstreams[id]) && Elements(upstreams[id]) == Upstreams(obs[id]) && Upstreams(obs[id]) <= obs.Keys
  }

  lemma EnteredOne(obs: Obligations, upstreams: Adjacency, seen: set<ObligationId>, now: ObligationId, targets: seq<ObligationId>)
    requires Entered(obs, upstreams, seen) && now in obs
    requires Increasing(targets) && Elements(targets) == Upstreams(obs[now]) && Upstreams(obs[now]) <= obs.Keys
    ensures Entered(obs, upstreams[now := targets], seen + {now})
  {
    IncreasingIsDistinct(targets);
  }

  lemma PartialStart(obs: Obligations, downs: Adjacency, now: ObligationId)
    requires downs.Keys == obs.Keys && forall id :: id in obs ==> downs[id] == []
    ensures Partial(obs, downs, {}, now, {})
  {
  }

  lemma AllEntered(obs: Obligations, upstreams: Adjacency, downs: Adjacency, now: ObligationId)
    requires Entered(obs, upstreams, obs.Keys) && Partial(obs, downs, obs.Keys, now, {})
    ensures AllBound(obs) && UpstreamLists(obs, upstreams) && DownstreamLists(obs, downs)
  {
  }

  method EdgeLists(obs: Obligations, ids: seq<ObligationId>) returns (upstreams: Adjacency, result: Result<Adjacency>)
    requires Increasing(ids) && Elements(ids) == obs.Keys
    ensures result.Ok? <==> AllBound(obs)
    ensures result.Ok? ==> UpstreamLists(obs, upstreams) && DownstreamLists(obs, result.value)
    ensures result.Err? ==> result.error == UnknownDependency
  {
    hide Partial, Entered, Upstreams, UpstreamLists, DownstreamLists;
    upstreams := map[];
    var downs: Adjacency := map id | id in obs.Keys :: [];
    IncreasingIsDistinct(ids);
    var i := 0;
    ghost var next := if |ids| > 0 then ids[0] else "";
    PartialStart(obs, downs, next);
    assert Entered(obs, upstreams, {}) by { NothingEntered(obs); }
    assert Elements(ids[..0]) == {};
    while i < |ids|
      invariant i <= |ids| && (i < |ids| ==> next == ids[i])
      invariant Entered(obs, upstreams, Elements(ids[..i])) && Partial(obs, downs, Elements(ids[..i]), next, {})
    {
      var id := ids[i];
      assert id in Elements(ids) && id !in ids[..i];
      var targets, lists := Enter(obs, downs, id, Elements(ids[..i]));
      if lists.Err? { return upstreams, lists; }
      downs := lists.value;
      EnteredOne(obs, upstreams, Elements(ids[..i]), id, targets);
      upstreams := upstreams[id := targets];
      assert Elements(ids[..i + 1]) == Elements(ids[..i]) + {id};
      next := if i + 1 < |ids| then ids[i + 1] else "";
      PartialDone(obs, downs, Elements(ids[..i]), id, next);
      i := i + 1;
    }
    assert ids[..i] == ids;
    AllEntered(obs, upstreams, downs, next);
    result := Ok(downs);
  }

  lemma NothingEntered(obs: Obligations)
    ensures Entered(obs, map[], {})
  {
  }

  // ---------------------------------------------------------------- counting down

  /** How many dependencies of `id` are not yet placed. */
  ghost function Open(obs: Obligations, id: ObligationId, placed: set<ObligationId>): nat
    requires id in obs
  {
    |Upstreams(obs[id]) - placed|
  }

  /** Every listed obligation comes after what it depends on. */
  ghost predicate Respects(obs: Obligations, ready: seq<ObligationId>) {
    && Distinct(ready) && (forall x :: x in ready ==> x in obs)
    && forall k :: 0 <= k < |ready| && ready[k] in obs ==> Upstreams(obs[ready[k]]) <= Elements(ready[..k])
  }

  ghost predicate Counted(obs: Obligations, remaining: map<ObligationId, nat>, ready: seq<ObligationId>, placed: set<ObligationId>,
                          now: ObligationId, done: set<ObligationId>) {
    && remaining.Keys == obs.Keys
    && forall x :: x in obs ==>
         && remaining[x] == Open(obs, x, if x in done then placed + {now} else placed)
         && (x in ready <==> remaining[x] == 0)
  }

  lemma OpenLess(obs: Obligations, x: ObligationId, placed: set<ObligationId>, now: ObligationId)
    requires x in obs && now in Upstreams(obs[x]) && now !in placed
    ensures Open(obs, x, placed) == Open(obs, x, placed + {now}) + 1
  {
    var more := Upstreams(obs[x]) - placed;
    assert more == (Upstreams(obs[x]) - (placed + {now})) + {now};
  }

  lemma NoneOpen(obs: Obligations, x: ObligationId, placed: set<ObligationId>)
    requires x in obs && Open(obs, x, placed) == 0
    ensures Upstreams(obs[x]) <= placed
  {
    var rest := Upstreams(obs[x]) - placed;
    assert rest == {};
    assert forall u :: u in Upstreams(obs[x]) && u !in placed ==> u in rest;
  }

  lemma RespectsSnoc(obs: Obligations, ready: seq<ObligationId>, x: ObligationId)
    requires Respects(obs, ready) && x in obs && x !in ready && Upstreams(obs[x]) <= Elements(ready)
    ensures Respects(obs, ready + [x])
  {
    var more := ready + [x];
    forall k | 0 <= k < |more| && more[k] in obs ensures Upstreams(obs[more[k]]) <= Elements(more[..k]) {
      if k < |ready| { assert more[..k] == ready[..k]; } else { assert more[..k] == ready; }
    }
  }

  /** One downstream counted down, and queued when nothing is left to wait for. */
  lemma CountedOne(obs: Obligations, counts: map<ObligationId, nat>, queue: seq<ObligationId>, placed: set<ObligationId>,
                   now: ObligationId, done: set<ObligationId>, x: ObligationId)
    requires Counted(obs, counts, queue, placed, now, done) && x in obs && x !in done
    requires now in Upstreams(obs[x]) && now !in placed
    ensures counts[x] > 0 && x !in queue
    ensures counts[x] > 1 ==> Counted(obs, counts[x := counts[x] - 1], queue, placed, now, done + {x})
    ensures counts[x] == 1 ==>
      Counted(obs, counts[x := 0], queue + [x], placed, now, done + {x}) && Upstreams(obs[x]) <= placed + {now}
  {
    hide Upstreams, Open;
    OpenLess(obs, x, placed, now);
    if counts[x] == 1 { NoneOpen(obs, x, placed + {now}); }
    assert counts[x := counts[x] - 1].Keys == obs.Keys;
  }

  lemma CountedAll(obs: Obligations, counts: map<ObligationId, nat>, queue: seq<ObligationId>, placed: set<ObligationId>,
                   now: ObligationId, done: set<ObligationId>)
    requires Counted(obs, counts, queue, placed, now, done) && forall x :: x in obs && now in Upstreams(obs[x]) ==> x in done
    ensures Counted(obs, counts, queue, placed + {now}, "", {})
  {
    forall x | x in obs && x !in done ensures Open(obs, x, placed + {now}) == Open(obs, x, placed) {
      assert Upstreams(obs[x]) - (placed + {now}) == Upstreams(obs[x]) - placed;
    }
  }

  lemma PrefixElements(ready: seq<ObligationId>, queue: seq<ObligationId>)
    requires ready <= queue
    ensures Elements(ready) <= Elements(queue)
  {
  }

  /** Place one obligation: every downstream has one dependency fewer, and becomes ready at zero. */
  method Place(obs: Obligations, downs: seq<ObligationId>, now: ObligationId, ghost placed: set<ObligationId>,
               remaining: map<ObligationId, nat>, ready: seq<ObligationId>) returns (counts: map<ObligationId, nat>, queue: seq<ObligationId>)
    requires now in obs && now !in placed && Distinct(downs) && forall x :: x in downs <==> x in obs && now in Upstreams(obs[x])
    requires Counted(obs, remaining, ready, placed, now, {}) && Respects(obs, ready) && placed + {now} <= Elements(ready)
    ensures Counted(obs, counts, queue, placed + {now}, "", {})
    ensures Respects(obs, queue) && ready <= queue
  {
    hide Upstreams, Counted, Respects;
    counts, queue := remaining, ready;
    var m := 0;
    assert Elements(downs[..0]) == {};
    assert counts.Keys == obs.Keys by { CountedKeys(obs, counts, queue, placed, now, {}); }
    while m < |downs|
      invariant m <= |downs| && ready <= queue && Respects(obs, queue) && counts.Keys == obs.Keys
      invariant Counted(obs, counts, queue, placed, now, Elements(downs[..m]))
    {
      var x := downs[m];
      assert x in obs && x !in downs[..m];
      assert Elements(downs[..m + 1]) == Elements(downs[..m]) + {x};
      CountedOne(obs, counts, queue, placed, now, Elements(downs[..m]), x);
      counts := counts[x := counts[x] - 1];
      if counts[x] == 0 {
        PrefixElements(ready, queue);
        RespectsSnoc(obs, queue, x);
        queue := queue + [x];
      }
      m := m + 1;
    }
    assert downs[..m] == downs;
    CountedAll(obs, counts, queue, placed, now, Elements(downs));
  }

  lemma CountedKeys(obs: Obligations, counts: map<ObligationId, nat>, queue: seq<ObligationId>, placed: set<ObligationId>,
                    now: ObligationId, done: set<ObligationId>)
    requires Counted(obs, counts, queue, placed, now, done)
    ensures counts.Keys == obs.Keys
  {
  }

  /** When everything ready has been placed, the rest, if any, can never be placed. */
  lemma StuckIsInvalid(obs: Obligations, placed: seq<ObligationId>, order: seq<ObligationId>, k: nat)
    requires TopologicalOrder(obs, order) && k <= |order|
    requires forall x :: x in obs && Upstreams(obs[x]) <= Elements(placed) ==> x in placed
    ensures forall i :: 0 <= i < k ==> order[i] in placed
  {
    if k > 0 {
      StuckIsInvalid(obs, placed, order, k - 1);
      var x := order[k - 1];
      assert x in order;
      forall u | u in Upstreams(obs[x]) ensures u in Elements(placed) {
        var d :| d in obs[x].dependencies && d.upstream == u;
        assert u in order[..k - 1];
        var i :| 0 <= i < k - 1 && order[i] == u;
      }
    }
  }

  lemma RespectsAll(obs: Obligations, ready: seq<ObligationId>)
    requires Respects(obs, ready) && forall x :: x in obs ==> x in ready
    ensures TopologicalOrder(obs, ready)
  {
    forall k, d | 0 <= k < |ready| && ready[k] in obs && d in obs[ready[k]].dependencies ensures d.upstream in ready[..k] {
      assert d.upstream in Upstreams(obs[ready[k]]);
      assert d.upstream in Elements(ready[..k]);
    }
  }

  lemma {:induction false} DistinctSize(s: seq<ObligationId>)
    requires Distinct(s)
    ensures |Elements(s)| == |s|
    decreases |s|
  {
    if s == [] {
      assert Elements(s) == {};
    } else {
      var n := |s| - 1;
      DistinctSize(s[..n]);
      assert s == s[..n] + [s[n]];
      assert s[n] !in s[..n];
      assert Elements(s) == Elements(s[..n]) + {s[n]};
    }
  }

  lemma CountStart(obs: Obligations, upstreams: Adjacency, x: ObligationId)
    requires UpstreamLists(obs, upstreams) && x in obs
    ensures |upstreams[x]| == Open(obs, x, {})
  {
    DistinctSize(upstreams[x]);
    assert Upstreams(obs[x]) - {} == Upstreams(obs[x]);
  }

  method StartCounts(obs: Obligations, upstreams: Adjacency) returns (remaining: map<ObligationId, nat>)
    requires UpstreamLists(obs, upstreams)
    ensures remaining.Keys == obs.Keys && forall x :: x in obs ==> remaining[x] == Open(obs, x, {})
  {
    remaining := map id | id in obs.Keys :: |upstreams[id]|;
    hide Open;
    forall x | x in obs ensures remaining[x] == Open(obs, x, {}) { CountStart(obs, upstreams, x); }
  }

  method InitiallyReady(obs: Obligations, ids: seq<ObligationId>, upstreams: Adjacency)
    returns (remaining: map<ObligationId, nat>, ready: seq<ObligationId>)
    requires Increasing(ids) && Elements(ids) == obs.Keys && UpstreamLists(obs, upstreams)
    ensures Counted(obs, remaining, ready, {}, "", {}) && Respects(obs, ready)
  {
    hide Upstreams, UpstreamLists, Respects, Open;
    remaining := StartCounts(obs, upstreams);
    ready := [];
    assert Respects(obs, ready) by { NothingListed(obs); }
    IncreasingIsDistinct(ids);
    var i := 0;
    while i < |ids|
      invariant i <= |ids| && Respects(obs, ready)
      invariant forall x :: x in ready <==> x in ids[..i] && x in obs && remaining[x] == 0
    {
      assert ids[i] in Elements(ids) && ids[i] !in ids[..i];
      assert ids[..i + 1] == ids[..i] + [ids[i]];
      if remaining[ids[i]] == 0 {
        NoneOpen(obs, ids[i], {});
        RespectsSnoc(obs, ready, ids[i]);
        ready := ready + [ids[i]];
      }
      i := i + 1;
    }
    assert ids[..i] == ids;
    forall x | x in obs ensures x in ready <==> remaining[x] == 0 { assert x in Elements(ids); }
  }

  lemma NothingListed(obs: Obligations)
    ensures Respects(obs, [])
  {
  }

  lemma DoneCounting(obs: Obligations, remaining: map<ObligationId, nat>, ready: seq<ObligationId>, x: ObligationId)
    requires Counted(obs, remaining, ready, Elements(ready), "", {}) && x in obs && Upstreams(obs[x]) <= Elements(ready)
    ensures x in ready
  {
    assert Upstreams(obs[x]) - Elements(ready) == {};
  }

  lemma CountedForAny(obs: Obligations, remaining: map<ObligationId, nat>, ready: seq<ObligationId>, placed: set<ObligationId>, now: ObligationId)
    requires Counted(obs, remaining, ready, placed, "", {})
    ensures Counted(obs, remaining, ready, placed, now, {})
  {
  }

  lemma DownstreamsOf(obs: Obligations, downstreams: Adjacency, id: ObligationId)
    requires DownstreamLists(obs, downstreams) && id in obs
    ensures id in downstreams && Distinct(downstreams[id]) && forall x :: x in downstreams[id] <==> x in obs && id in Upstreams(obs[x])
  {
  }

  lemma NextUnplaced(obs: Obligations, ready: seq<ObligationId>, cursor: nat)
    requires Respects(obs, ready) && cursor < |ready|
    ensures ready[cursor] in obs && ready[cursor] !in Elements(ready[..cursor]) && |ready| <= |obs|
    ensures Elements(ready[..cursor + 1]) == Elements(ready[..cursor]) + {ready[cursor]} <= Elements(ready)
  {
    assert ready[..cursor + 1] == ready[..cursor] + [ready[cursor]];
    SizeBound(obs, ready);
  }

  method CountDown(obs: Obligations, ids: seq<ObligationId>, upstreams: Adjacency, downstreams: Adjacency) returns (order: seq<ObligationId>)
    requires Increasing(ids) && Elements(ids) == obs.Keys && UpstreamLists(obs, upstreams) && DownstreamLists(obs, downstreams)
    ensures Respects(obs, order)
    ensures forall x :: x in obs && Upstreams(obs[x]) <= Elements(order) ==> x in order
  {
    hide Upstreams, Counted, Respects, DownstreamLists, UpstreamLists, Elements, Distinct;
    var remaining, ready := InitiallyReady(obs, ids, upstreams);
    order := [];
    var cursor := 0;
    assert Elements(ready[..0]) == {} by { NoElements(ready); }
    while cursor < |ready|
      invariant cursor <= |ready| && order == ready[..cursor]
      invariant Counted(obs, remaining, ready, Elements(ready[..cursor]), "", {}) && Respects(obs, ready)
      decreases |obs| - cursor
    {
      var id := ready[cursor];
      NextUnplaced(obs, ready, cursor);
      DownstreamsOf(obs, downstreams, id);
      CountedForAny(obs, remaining, ready, Elements(ready[..cursor]), id);
      ghost var before := ready;
      remaining, ready := Place(obs, downstreams[id], id, Elements(ready[..cursor]), remaining, ready);
      assert ready[..cursor + 1] == before[..cursor + 1];
      order := order + [id];
      cursor := cursor + 1;
    }
    assert ready[..cursor] == ready;
    forall x | x in obs && Upstreams(obs[x]) <= Elements(order) ensures x in order {
      DoneCounting(obs, remaining, ready, x);
    }
  }

  lemma NoElements(s: seq<ObligationId>)
    ensures Elements(s[..0]) == {}
  {
  }

  lemma SizeBound(obs: Obligations, ready: seq<ObligationId>)
    requires Respects(obs, ready)
    ensures |ready| <= |obs|
  {
    DistinctSize(ready);
    SubsetSize(Elements(ready), obs.Keys);
  }

  /** `buildGraphIndex`: succeeds exactly on valid graphs, with a valid index; otherwise says which check failed. */
  method BuildGraphIndex(obs: Obligations) returns (result: Result<GraphIndex>)
    ensures result.Ok? <==> ValidGraph(obs)
    ensures result.Ok? ==> ValidIndex(obs, result.value)
    ensures result.Err? ==> result.error == if AllBound(obs) then DependencyCycle else UnknownDependency
  {
    hide ValidGraph, Counted, UpstreamLists, DownstreamLists;
    var ids := Sorted(obs.Keys);
    ValidIffOrdered(obs);
    var upstreams, downstreams := EdgeLists(obs, ids);
    if downstreams.Err? {
      UnboundIsInvalid(obs);
      return Err(UnknownDependency);
    }
    var order := CountDown(obs, ids, upstreams, downstreams.value);
    DistinctSize(order);
    SubsetSize(Elements(order), obs.Keys);
    if |order| != |obs| {
      ShortIsInvalid(obs, order);
      return Err(DependencyCycle);
    }
    assert Elements(order) == obs.Keys;
    RespectsAll(obs, order);
    return Ok(GraphIndex(upstreams, downstreams.value, order));
  }

  lemma UnboundIsInvalid(obs: Obligations)
    requires !AllBound(obs)
    ensures !exists order :: TopologicalOrder(obs, order)
  {
    var id :| id in obs && !(Upstreams(obs[id]) <= obs.Keys);
    var u :| u in Upstreams(obs[id]) && u !in obs;
    var d :| d in obs[id].dependencies && d.upstream == u;
    assert forall order, k :: TopologicalOrder(obs, order) && 0 <= k < |order| && order[k] == id ==> d.upstream in order[..k];
  }

  lemma ShortIsInvalid(obs: Obligations, placed: seq<ObligationId>)
    requires Respects(obs, placed) && |placed| != |obs|
    requires forall x :: x in obs && Upstreams(obs[x]) <= Elements(placed) ==> x in placed
    ensures !exists order :: TopologicalOrder(obs, order)
  {
    forall order | TopologicalOrder(obs, order) ensures false {
      StuckIsInvalid(obs, placed, order, |order|);
      assert Elements(placed) == obs.Keys;
      DistinctSize(placed);
    }
  }

  // ---------------------------------------------------------------- searching for a dependency

  /** Reached so far: the start itself, and what it depends on. */
  ghost predicate Reached(obs: Obligations, from: ObligationId, x: ObligationId) { x == from || DependsOn(obs, from, x) }

  lemma ReachedNext(obs: Obligations, from: ObligationId, mid: ObligationId, to: ObligationId)
    requires AllBound(obs) && Reached(obs, from, mid) && mid in obs && to in Upstreams(obs[mid])
    ensures DependsOn(obs, from, to)
  {
    hide DependsOn;
    var path := [mid];
    if mid != from {
      InGraph(obs, from, mid);
      DependsOnIffWalk(obs, from, mid);
      path :| Walk(obs, path) && |path| > 1 && path[0] == from && path[|path| - 1] == mid;
    }
    var longer := path + [to];
    assert Walk(obs, longer) && |longer| > 1 && longer[0] == from && longer[|longer| - 1] == to;
    DependsOnIffWalk(obs, from, to);
  }

  lemma InGraph(obs: Obligations, from: ObligationId, to: ObligationId)
    requires DependsOn(obs, from, to)
    ensures from in obs
  {
    assert from !in obs ==> BoundUpstreams(obs, from) == {};
  }

  /** The dependencies of `x` are all in `all`, and the target is none of them. */
  ghost predicate Stays(obs: Obligations, x: ObligationId, all: set<ObligationId>, target: ObligationId) {
    x in obs ==> Upstreams(obs[x]) <= all && target !in Upstreams(obs[x])
  }

  ghost predicate Avoids(obs: Obligations, closed: set<ObligationId>, target: ObligationId) {
    forall x :: x in closed ==> Stays(obs, x, closed, target)
  }

  /** A set closed under dependencies that avoids the target keeps every walk away from it. */
  lemma {:induction false} ClosedAvoids(obs: Obligations, closed: set<ObligationId>, target: ObligationId, path: seq<ObligationId>)
    requires Walk(obs, path) && path[0] in closed
    requires Avoids(obs, closed, target)
    ensures path[|path| - 1] in closed && (|path| > 1 ==> path[|path| - 1] != target)
    decreases |path|
  {
    if |path| > 1 {
      var n := |path| - 1;
      ClosedAvoids(obs, closed, target, path[..n]);
      assert path[n] in Upstreams(obs[path[n - 1]]) && Stays(obs, path[n - 1], closed, target);
    }
  }

  lemma NotReached(obs: Obligations, from: ObligationId, target: ObligationId, closed: set<ObligationId>)
    requires from in closed && Avoids(obs, closed, target)
    ensures !DependsOn(obs, from, target)
  {
    hide DependsOn;
    if DependsOn(obs, from, target) {
      InGraph(obs, from, target);
      DependsOnIffWalk(obs, from, target);
      var path :| Walk(obs, path) && |path| > 1 && path[0] == from && path[|path| - 1] == target;
      ClosedAvoids(obs, closed, target, path);
    }
  }

  /** The state of the search, with `all` what is seen or pending: all of it is reached, and every dependency of a seen
      obligation is among it and is not the target. */
  ghost predicate Frontier(obs: Obligations, from: ObligationId, target: ObligationId, seen: set<ObligationId>, all: set<ObligationId>) {
    && from in all && seen <= all <= obs.Keys + {from}
    && (forall x :: x in all ==> Reached(obs, from, x))
    && forall x :: x in seen ==> Stays(obs, x, all, target)
  }

  lemma FrontierGrows(obs: Obligations, from: ObligationId, target: ObligationId, seen: set<ObligationId>, all: set<ObligationId>,
                      current: ObligationId, ups: set<ObligationId>)
    requires AllBound(obs) && Frontier(obs, from, target, seen, all) && current in all && target !in ups
    requires ups == if current in obs then Upstreams(obs[current]) else {}
    ensures Frontier(obs, from, target, seen + {current}, all + ups)
  {
    hide DependsOn, Upstreams;
    forall u | u in ups ensures Reached(obs, from, u) && u in obs { ReachedNext(obs, from, current, u); }
    forall x | x in all + ups ensures Reached(obs, from, x) { }
    assert ups <= obs.Keys;
    forall x | x in seen + {current} ensures Stays(obs, x, all + ups, target) {
      if x != current { assert Stays(obs, x, all, target); }
    }
  }

  lemma FrontierFinds(obs: Obligations, from: ObligationId, target: ObligationId, seen: set<ObligationId>, all: set<ObligationId>, current: ObligationId)
    requires AllBound(obs) && Frontier(obs, from, target, seen, all) && current in all && current in obs && target in Upstreams(obs[current])
    ensures DependsOn(obs, from, target)
  {
    hide DependsOn, Upstreams;
    ReachedNext(obs, from, current, target);
  }

  lemma FrontierDone(obs: Obligations, from: ObligationId, target: ObligationId, seen: set<ObligationId>)
    requires Frontier(obs, from, target, seen, seen)
    ensures !DependsOn(obs, from, target)
  {
    hide Reached, DependsOn, Stays;
    NotReached(obs, from, target, seen);
  }

  /** Look at the dependencies of one obligation: found, or all pending. */
  method Scan(obs: Obligations, upstreams: seq<ObligationId>, target: ObligationId, pending: seq<ObligationId>)
    returns (found: bool, more: seq<ObligationId>)
    ensures found <==> target in Elements(upstreams)
    ensures !found ==> Elements(more) == Elements(pending) + Elements(upstreams)
  {
    more := pending;
    for i := 0 to |upstreams|
      invariant target !in upstreams[..i] && forall x :: x in more <==> x in pending || x in upstreams[..i]
    {
      assert upstreams[..i + 1] == upstreams[..i] + [upstreams[i]];
      if upstreams[i] == target { return true, more; }
      more := more + [upstreams[i]];
    }
    assert upstreams[..|upstreams|] == upstreams;
    JoinElements(pending, upstreams, more);
    return false, more;
  }

  /** `graphDependsOn`: an obligation depends on itself, and on what a walk of dependencies leads to. */
  method GraphDependsOn(obs: Obligations, g: GraphIndex, from: ObligationId, target: ObligationId) returns (depends: bool)
    requires ValidIndex(obs, g)
    ensures depends <==> from == target || DependsOn(obs, from, target)
  {
    assert TopologicalOrder(obs, g.order);
    hide DependsOn, TopologicalOrder, Upstreams, Frontier, ValidIndex, Elements, AllBound;
    if from == target { return true; }
    var seen: set<ObligationId>, pending := {}, [from];
    ghost var all, universe := {from}, obs.Keys + {from};
    OrderedIsBound(obs, g.order);
    FrontierStarts(obs, from, target);
    assert Elements(pending) == {from} by { SplitLast(pending); NoneOf({}); assert pending[..0] == []; }
    while pending != []
      invariant Frontier(obs, from, target, seen, all) && all == seen + Elements(pending)
      decreases universe - seen, |pending|
    {
      var n := |pending| - 1;
      var current, rest := pending[n], pending[..n];
      SplitLast(pending);
      FrontierWithin(obs, from, target, seen, all);
      pending := rest;
      if current in seen {
        assert seen + (Elements(rest) + {current}) == seen + Elements(rest);
      } else {
        var ups := UpstreamsOf(obs, g, current);
        var found, more := Scan(obs, ups, target, rest);
        if found {
          FrontierFinds(obs, from, target, seen, all, current);
          return true;
        }
        FrontierGrows(obs, from, target, seen, all, current, Elements(ups));
        Progress(universe, seen, current);
        AllKept(all, seen, Elements(rest), current, Elements(ups));
        all := all + Elements(ups);
        seen, pending := seen + {current}, more;
      }
    }
    assert all == seen by { NoneOf(seen); }
    FrontierDone(obs, from, target, seen);
    return false;
  }

  method UpstreamsOf(obs: Obligations, g: GraphIndex, id: ObligationId) returns (ups: seq<ObligationId>)
    requires ValidIndex(obs, g)
    ensures Elements(ups) == if id in obs then Upstreams(obs[id]) else {}
  {
    ups := [];
    if id in g.upstreams {
      UpstreamList(obs, g, id);
      ups := g.upstreams[id];
    }
  }

  lemma NoneOf(seen: set<ObligationId>)
    ensures Elements([]) == {} && seen + Elements([]) == seen
  {
  }

  lemma SplitLast(s: seq<ObligationId>)
    requires s != []
    ensures Elements(s) == Elements(s[..|s| - 1]) + {s[|s| - 1]}
  {
    assert s == s[..|s| - 1] + [s[|s| - 1]];
  }

  lemma JoinElements(s: seq<ObligationId>, t: seq<ObligationId>, both: seq<ObligationId>)
    requires forall x :: x in both <==> x in s || x in t
    ensures Elements(both) == Elements(s) + Elements(t)
  {
  }

  lemma Progress(universe: set<ObligationId>, seen: set<ObligationId>, current: ObligationId)
    requires current in universe && current !in seen
    ensures universe - (seen + {current}) < universe - seen
  {
    assert current in universe - seen && current !in universe - (seen + {current});
  }

  lemma AllKept(all: set<ObligationId>, seen: set<ObligationId>, rest: set<ObligationId>, current: ObligationId, ups: set<ObligationId>)
    requires all == seen + (rest + {current})
    ensures all + ups == (seen + {current}) + (rest + ups)
  {
  }

  lemma FrontierStarts(obs: Obligations, from: ObligationId, target: ObligationId)
    ensures Frontier(obs, from, target, {}, {from})
  {
    hide DependsOn;
  }

  lemma FrontierWithin(obs: Obligations, from: ObligationId, target: ObligationId, seen: set<ObligationId>, all: set<ObligationId>)
    requires Frontier(obs, from, target, seen, all)
    ensures all <= obs.Keys + {from}
  {
    hide Reached;
  }

  lemma OrderedIsBound(obs: Obligations, order: seq<ObligationId>)
    requires TopologicalOrder(obs, order)
    ensures AllBound(obs)
  {
    forall id, u | id in obs && u in Upstreams(obs[id]) ensures u in obs {
      var k :| 0 <= k < |order| && order[k] == id;
      var d :| d in obs[id].dependencies && d.upstream == u;
      assert u in order[..k];
      assert u in order;
    }
  }

  lemma UpstreamList(obs: Obligations, g: GraphIndex, id: ObligationId)
    requires ValidIndex(obs, g) && id in obs
    ensures id in g.upstreams && Elements(g.upstreams[id]) == Upstreams(obs[id]) && forall u :: u in g.upstreams[id] <==> u in Upstreams(obs[id])
  {
    assert forall u :: u in g.upstreams[id] <==> u in Elements(g.upstreams[id]);
  }
}
