/** The dependency graph of a project state (src/graph/topology.ts). */
module Graph {
  import opened Facts

  type Obligations = map<ObligationId, Obligation>

  function Upstreams(o: Obligation): set<ObligationId> {
    set d | d in o.dependencies :: d.upstream
  }

  ghost predicate Distinct<T>(s: seq<T>) {
    forall i, j :: 0 <= i < j < |s| ==> s[i] != s[j]
  }

  /** `order` lists every obligation once, each after everything it depends on; so every dependency is bound. */
  ghost predicate TopologicalOrder(obs: Obligations, order: seq<ObligationId>) {
    && Distinct(order)
    && (forall id :: id in obs <==> id in order)
    && (forall k, d :: 0 <= k < |order| && order[k] in obs && d in obs[order[k]].dependencies ==> d.upstream in order[..k])
  }

  /** The obligations whose dependencies have all been placed. */
  function Ready(obs: Obligations, placed: set<ObligationId>): set<ObligationId> {
    set id | id in obs && id !in placed && forall d :: d in obs[id].dependencies ==> d.upstream in placed
  }

  /** Place ready obligations until none is left. */
  function Peel(obs: Obligations, placed: set<ObligationId>): set<ObligationId>
    decreases obs.Keys - placed
  {
    var ready := Ready(obs, placed);
    if ready == {} then placed
    else
      assert obs.Keys - (placed + ready) < obs.Keys - placed by {
        var id :| id in ready;
        assert id in obs.Keys - placed && id !in obs.Keys - (placed + ready);
      }
      Peel(obs, placed + ready)
  }

  /** What `validateGraph` accepts: no unknown dependency and no cycle, so everything can be placed. */
  predicate ValidGraph(obs: Obligations) { Peel(obs, {}) == obs.Keys }

  /** A walk along dependencies: each obligation depends on the next one. */
  ghost predicate Walk(obs: Obligations, path: seq<ObligationId>) {
    && |path| > 0
    && (forall i :: 0 <= i < |path| ==> path[i] in obs)
    && (forall i :: 0 <= i < |path| - 1 ==> path[i + 1] in Upstreams(obs[path[i]]))
  }

  function BoundUpstreams(obs: Obligations, from: ObligationId): set<ObligationId> {
    if from !in obs then {} else set d | d in obs[from].dependencies && d.upstream in obs :: d.upstream
  }

  /** Everything reachable from `seen` along dependencies. */
  function Reach(obs: Obligations, seen: set<ObligationId>): set<ObligationId>
    decreases obs.Keys - seen
  {
    var next := set id, up | id in seen && up in BoundUpstreams(obs, id) && up !in seen :: up;
    if next == {} then seen
    else
      assert obs.Keys - (seen + next) < obs.Keys - seen by {
        var up :| up in next;
        assert up in obs.Keys - seen && up !in obs.Keys - (seen + next);
      }
      Reach(obs, seen + next)
  }

  /** `from` depends on `to` through one or more edges (`graphDependsOn`). */
  predicate DependsOn(obs: Obligations, from: ObligationId, to: ObligationId) {
    to in Reach(obs, BoundUpstreams(obs, from))
  }

  // ---------------------------------------------------------------- a valid graph is one with a topological order

  /** `order` lists `placed`, each obligation after what it depends on. */
  ghost predicate Placed(obs: Obligations, placed: set<ObligationId>, order: seq<ObligationId>) {
    && Distinct(order)
    && (forall id :: id in placed <==> id in order)
    && placed <= obs.Keys
    && (forall k, d :: 0 <= k < |order| && d in obs[order[k]].dependencies ==> d.upstream in order[..k])
  }

  lemma PlaceOne(obs: Obligations, placed: set<ObligationId>, order: seq<ObligationId>, id: ObligationId)
    requires Placed(obs, placed, order) && id in obs && id !in placed
    requires forall d :: d in obs[id].dependencies ==> d.upstream in placed
    ensures Placed(obs, placed + {id}, order + [id])
  {
    var order' := order + [id];
    assert order'[|order|] == id;
    forall x | x in placed + {id} ensures x in order' { }
    forall k, d | 0 <= k < |order'| && d in obs[order'[k]].dependencies ensures d.upstream in order'[..k] {
      if k < |order| { assert order'[..k] == order[..k]; } else { assert order'[..k] == order; }
    }
  }

  lemma {:induction false} PlaceAll(obs: Obligations, placed: set<ObligationId>, order: seq<ObligationId>, ready: set<ObligationId>)
    returns (order': seq<ObligationId>)
    requires Placed(obs, placed, order) && ready !! placed && ready <= obs.Keys
    requires forall id, d :: id in ready && d in obs[id].dependencies ==> d.upstream in placed
    ensures Placed(obs, placed + ready, order')
    decreases |ready|
  {
    if ready == {} {
      order' := order;
      assert placed + ready == placed;
    } else {
      var id :| id in ready;
      PlaceOne(obs, placed, order, id);
      order' := PlaceAll(obs, placed + {id}, order + [id], ready - {id});
      assert placed + {id} + (ready - {id}) == placed + ready;
    }
  }

  lemma {:induction false} PeelPlaces(obs: Obligations, placed: set<ObligationId>, order: seq<ObligationId>)
    returns (order': seq<ObligationId>)
    requires Placed(obs, placed, order)
    ensures Placed(obs, Peel(obs, placed), order')
    decreases obs.Keys - placed
  {
    var ready := Ready(obs, placed);
    if ready == {} {
      order' := order;
    } else {
      var id :| id in ready;
      assert id in obs.Keys - placed && id !in obs.Keys - (placed + ready);
      var next := PlaceAll(obs, placed, order, ready);
      order' := PeelPlaces(obs, placed + ready, next);
    }
  }

  lemma {:induction false} PeelStops(obs: Obligations, placed: set<ObligationId>)
    requires placed <= obs.Keys
    ensures placed <= Peel(obs, placed) <= obs.Keys && Ready(obs, Peel(obs, placed)) == {}
    decreases obs.Keys - placed
  {
    var ready := Ready(obs, placed);
    if ready != {} {
      var id :| id in ready;
      assert id in obs.Keys - placed && id !in obs.Keys - (placed + ready);
      PeelStops(obs, placed + ready);
    }
  }

  lemma {:induction false} OrderedIsPeeled(obs: Obligations, order: seq<ObligationId>, k: nat)
    requires TopologicalOrder(obs, order) && k <= |order|
    ensures forall i :: 0 <= i < k ==> order[i] in Peel(obs, {})
  {
    if k > 0 {
      OrderedIsPeeled(obs, order, k - 1);
      PeelStops(obs, {});
      var id := order[k - 1];
      assert id in order;
      var all := Peel(obs, {});
      forall d | d in obs[id].dependencies ensures d.upstream in all {
        assert d.upstream in order[..k - 1];
      }
      assert id !in all ==> id in Ready(obs, all);
    }
  }

  /** The graph is valid exactly when its obligations can be listed dependencies first. */
  lemma ValidIffOrdered(obs: Obligations)
    ensures ValidGraph(obs) <==> exists order :: TopologicalOrder(obs, order)
  {
    var order := PeelPlaces(obs, {}, []);
    if ValidGraph(obs) { assert TopologicalOrder(obs, order); }
    if exists order :: TopologicalOrder(obs, order) {
      var given :| TopologicalOrder(obs, given);
      OrderedIsPeeled(obs, given, |given|);
      PeelStops(obs, {});
      forall id | id in obs ensures id in Peel(obs, {}) {
        var i :| 0 <= i < |given| && given[i] == id;
      }
    }
  }

  // ---------------------------------------------------------------- dependence is the existence of a walk

  lemma {:induction false} ReachClosed(obs: Obligations, seen: set<ObligationId>)
    ensures seen <= Reach(obs, seen)
    ensures forall id :: id in Reach(obs, seen) ==> BoundUpstreams(obs, id) <= Reach(obs, seen)
    decreases obs.Keys - seen
  {
    var next := set id, up | id in seen && up in BoundUpstreams(obs, id) && up !in seen :: up;
    if next != {} {
      var up :| up in next;
      assert up in obs.Keys - seen && up !in obs.Keys - (seen + next);
      ReachClosed(obs, seen + next);
    } else {
      forall id, up | id in seen && up in BoundUpstreams(obs, id) ensures up in seen {
        assert up !in seen ==> up in next;
      }
    }
  }

  /** `path` leads from an element of `seen` to its last obligation. */
  ghost predicate LeadsFrom(obs: Obligations, seen: set<ObligationId>, path: seq<ObligationId>) {
    Walk(obs, path) && path[0] in seen
  }

  lemma {:induction false} ReachHasWalk(obs: Obligations, seen: set<ObligationId>, to: ObligationId) returns (path: seq<ObligationId>)
    requires seen <= obs.Keys && to in Reach(obs, seen)
    ensures LeadsFrom(obs, seen, path) && path[|path| - 1] == to
    decreases obs.Keys - seen
  {
    var next := set id, up | id in seen && up in BoundUpstreams(obs, id) && up !in seen :: up;
    if next == {} {
      path := [to];
    } else {
      var up :| up in next;
      assert up in obs.Keys - seen && up !in obs.Keys - (seen + next);
      path := ReachHasWalk(obs, seen + next, to);
      if path[0] !in seen {
        var id :| id in seen && path[0] in BoundUpstreams(obs, id);
        path := [id] + path;
      }
    }
  }

  lemma {:induction false} WalkIsReached(obs: Obligations, seen: set<ObligationId>, path: seq<ObligationId>)
    requires LeadsFrom(obs, seen, path)
    ensures path[|path| - 1] in Reach(obs, seen)
    decreases |path|
  {
    ReachClosed(obs, seen);
    if |path| > 1 {
      var n := |path| - 1;
      WalkIsReached(obs, seen, path[..n]);
      assert path[n] in Upstreams(obs[path[n - 1]]);
      assert path[n] in BoundUpstreams(obs, path[n - 1]);
    }
  }

  lemma DependsOnIffWalk(obs: Obligations, from: ObligationId, to: ObligationId)
    requires from in obs
    ensures DependsOn(obs, from, to) <==>
      exists path :: Walk(obs, path) && |path| > 1 && path[0] == from && path[|path| - 1] == to
  {
    if DependsOn(obs, from, to) {
      var path := ReachHasWalk(obs, BoundUpstreams(obs, from), to);
      var longer := [from] + path;
      assert Walk(obs, longer) && |longer| > 1 && longer[0] == from && longer[|longer| - 1] == to;
    }
    if exists path :: Walk(obs, path) && |path| > 1 && path[0] == from && path[|path| - 1] == to {
      var path :| Walk(obs, path) && |path| > 1 && path[0] == from && path[|path| - 1] == to;
      assert path[1] in Upstreams(obs[path[0]]);
      WalkIsReached(obs, BoundUpstreams(obs, from), path[1..]);
    }
  }
}
