/** The bitmask index of static effects against the pairwise conflict rule (src/authority/admission.ts). */
module StaticEffects {
  import opened Facts
  import opened Graph
  import opened Adapter
  import opened Lifecycles
  import opened Ordering
  import opened Bits
  import opened Topology

  datatype IndexedEffect = IndexedEffect(id: ObligationId, effect: Effect, bit: nat)

  datatype StaticEffectIndex = StaticEffectIndex(
    byId: map<ObligationId, IndexedEffect>,
    byResource: map<Resource, seq<IndexedEffect>>,
    resourceMasks: map<Resource, nat>,
    commutingMasks: map<(Resource, Desired), nat>,
    orderedBits: map<ObligationId, nat>)

  // ---------------------------------------------------------------- masks of obligations

  /** `mask` has exactly the bits of the listed obligations that lie in `marked`. */
  ghost predicate Marks(mask: nat, ids: seq<ObligationId>, marked: set<ObligationId>) {
    forall i: nat :: Bit(mask, i) <==> i < |ids| && ids[i] in marked
  }

  lemma MarksNothing(ids: seq<ObligationId>)
    ensures Marks(0, ids, {}) && forall marked :: Marks(0, [], marked)
  {
    forall i: nat ensures !Bit(0, i) { ZeroBits(i); }
  }

  lemma MarksUnion(a: nat, b: nat, ids: seq<ObligationId>, left: set<ObligationId>, right: set<ObligationId>)
    requires Marks(a, ids, left) && Marks(b, ids, right)
    ensures Marks(Or(a, b), ids, left + right)
  {
    forall i: nat ensures Bit(Or(a, b), i) <==> i < |ids| && ids[i] in left + right { BitOr(a, b, i); }
  }

  lemma MarksOne(ids: seq<ObligationId>, k: nat)
    requires Increasing(ids) && k < |ids|
    ensures Marks(Pow2(k), ids, {ids[k]})
  {
    forall i: nat ensures Bit(Pow2(k), i) <==> i < |ids| && ids[i] in {ids[k]} {
      BitPow2(k, i);
      if i < |ids| && ids[i] == ids[k] { IncreasingDistinct(ids, i, k); }
    }
  }

  /** Appending one obligation to the listing adds its bit exactly when it is marked. */
  lemma MarksSnoc(mask: nat, ids: seq<ObligationId>, id: ObligationId, marked: set<ObligationId>)
    requires Marks(mask, ids, marked)
    ensures Marks(if id in marked then Or(mask, Pow2(|ids|)) else mask, ids + [id], marked)
  {
    var mask' := if id in marked then Or(mask, Pow2(|ids|)) else mask;
    forall i: nat ensures Bit(mask', i) <==> i < |ids + [id]| && (ids + [id])[i] in marked {
      BitOr(mask, Pow2(|ids|), i);
      BitPow2(|ids|, i);
    }
  }

  function MaskOf<K>(masks: map<K, nat>, key: K): nat { if key in masks then masks[key] else 0 }

  // ---------------------------------------------------------------- the sets the masks stand for

  predicate Effectful(obs: Obligations, id: ObligationId) { id in obs && EffectOf(obs[id].post).Some? }

  function EffectIn(obs: Obligations, id: ObligationId): Effect
    requires Effectful(obs, id)
  {
    EffectOf(obs[id].post).value
  }

  ghost function Sharing(obs: Obligations, resource: Resource): set<ObligationId> {
    set id | id in obs && Effectful(obs, id) && EffectIn(obs, id).resource == resource
  }

  ghost function Commuting(obs: Obligations, resource: Resource, key: Desired): set<ObligationId> {
    set id | id in Sharing(obs, resource) && CommutationKey(EffectIn(obs, id)) == Some(key)
  }

  /** Everything `id` depends on, and everything that depends on it. */
  ghost function Above(obs: Obligations, id: ObligationId): set<ObligationId> { set x | x in obs && DependsOn(obs, id, x) }
  ghost function Below(obs: Obligations, id: ObligationId): set<ObligationId> { set x | x in obs && DependsOn(obs, x, id) }

  // ---------------------------------------------------------------- effects by bit

  ghost predicate Listing(obs: Obligations, ids: seq<ObligationId>) {
    Increasing(ids) && forall id :: id in ids <==> Effectful(obs, id)
  }

  function Entry(obs: Obligations, id: ObligationId, k: nat): IndexedEffect
    requires Effectful(obs, id)
  {
    IndexedEffect(id, EffectIn(obs, id), Pow2(k))
  }

  /** `byId` after the first `n` effects. */
  ghost predicate ById(obs: Obligations, ids: seq<ObligationId>, n: nat, byId: map<ObligationId, IndexedEffect>)
    requires n <= |ids|
  {
    && (forall id :: id in byId <==> id in ids[..n])
    && forall k :: 0 <= k < n ==> Effectful(obs, ids[k]) && ids[k] in byId && byId[ids[k]] == Entry(obs, ids[k], k)
  }

  /** One resource's effects: exactly those of the processed ids on it, smallest id first. */
  ghost predicate Grouped(byId: map<ObligationId, IndexedEffect>, resource: Resource, group: seq<IndexedEffect>)
  {
    && (forall e :: e in group ==> e.id in byId && byId[e.id] == e && e.effect.resource == resource)
    && (forall id :: id in byId && byId[id].effect.resource == resource ==> byId[id] in group)
    && forall a, b :: 0 <= a < b < |group| ==> Before(group[a].id, group[b].id)
  }

  function GroupOf(groups: map<Resource, seq<IndexedEffect>>, resource: Resource): seq<IndexedEffect> {
    if resource in groups then groups[resource] else []
  }

  ghost predicate Masked(obs: Obligations, ids: seq<ObligationId>, resources: map<Resource, nat>, commuting: map<(Resource, Desired), nat>) {
    && (forall resource :: Marks(MaskOf(resources, resource), ids, Sharing(obs, resource)))
    && forall resource, key :: Marks(MaskOf(commuting, (resource, key)), ids, Commuting(obs, resource, key))
  }

  lemma MaskedOne(obs: Obligations, ids: seq<ObligationId>, id: ObligationId, resources: map<Resource, nat>,
                  commuting: map<(Resource, Desired), nat>, resources': map<Resource, nat>, commuting': map<(Resource, Desired), nat>)
    requires Masked(obs, ids, resources, commuting) && Effectful(obs, id)
    requires var e := EffectIn(obs, id); resources' == resources[e.resource := Or(MaskOf(resources, e.resource), Pow2(|ids|))]
    requires var e := EffectIn(obs, id);
      commuting' == if CommutationKey(e).Some?
                    then commuting[(e.resource, CommutationKey(e).value) := Or(MaskOf(commuting, (e.resource, CommutationKey(e).value)), Pow2(|ids|))]
                    else commuting
    ensures Masked(obs, ids + [id], resources', commuting')
  {
    hide Marks;
    forall resource ensures Marks(MaskOf(resources', resource), ids + [id], Sharing(obs, resource)) {
      MarksSnoc(MaskOf(resources, resource), ids, id, Sharing(obs, resource));
    }
    forall resource, key ensures Marks(MaskOf(commuting', (resource, key)), ids + [id], Commuting(obs, resource, key)) {
      MarksSnoc(MaskOf(commuting, (resource, key)), ids, id, Commuting(obs, resource, key));
    }
  }

  ghost predicate AllGrouped(byId: map<ObligationId, IndexedEffect>, groups: map<Resource, seq<IndexedEffect>>) {
    forall resource :: Grouped(byId, resource, GroupOf(groups, resource))
  }

  lemma GroupedOne(byId: map<ObligationId, IndexedEffect>, groups: map<Resource, seq<IndexedEffect>>, e: IndexedEffect)
    requires AllGrouped(byId, groups) && e.id !in byId && forall id :: id in byId ==> Before(id, e.id)
    ensures AllGrouped(byId[e.id := e], groups[e.effect.resource := GroupOf(groups, e.effect.resource) + [e]])
  {
    var byId', groups' := byId[e.id := e], groups[e.effect.resource := GroupOf(groups, e.effect.resource) + [e]];
    forall resource ensures Grouped(byId', resource, GroupOf(groups', resource)) {
      var group := GroupOf(groups, resource);
      assert Grouped(byId, resource, group);
      if resource == e.effect.resource {
        assert GroupOf(groups', resource) == group + [e];
        forall id | id in byId' && byId'[id].effect.resource == resource ensures byId'[id] in group + [e] {
          if id != e.id { assert byId[id] in group; }
        }
        forall a, b | 0 <= a < b < |group + [e]| ensures Before((group + [e])[a].id, (group + [e])[b].id) {
          assert group[a] in group;
        }
      }
    }
  }

  lemma ByIdOne(obs: Obligations, ids: seq<ObligationId>, n: nat, byId: map<ObligationId, IndexedEffect>)
    requires Listing(obs, ids) && n < |ids| && ById(obs, ids, n, byId)
    ensures ids[n] in ids && Effectful(obs, ids[n]) && ids[n] !in byId && forall id :: id in byId ==> Before(id, ids[n])
    ensures ById(obs, ids, n + 1, byId[ids[n] := Entry(obs, ids[n], n)])
  {
    assert ids[n] in ids;
    assert ids[..n + 1] == ids[..n] + [ids[n]];
    forall id | id in byId ensures Before(id, ids[n]) {
      var i :| 0 <= i < n && ids[i] == id;
    }
    BeforeTotal(ids[n], ids[n]);
  }

  /** The listing of effects: sorted ids with an effect, each given the next bit. */
  method ListEffects(obs: Obligations) returns (ids: seq<ObligationId>)
    ensures Listing(obs, ids)
  {
    ids := Sorted(set id | id in obs && Effectful(obs, id));
  }

  method IndexEffects(obs: Obligations, ids: seq<ObligationId>)
    returns (byId: map<ObligationId, IndexedEffect>, byResource: map<Resource, seq<IndexedEffect>>,
             resourceMasks: map<Resource, nat>, commutingMasks: map<(Resource, Desired), nat>)
    requires Listing(obs, ids)
    ensures ById(obs, ids, |ids|, byId) && AllGrouped(byId, byResource) && Masked(obs, ids, resourceMasks, commutingMasks)
  {
    hide Listing, ById, AllGrouped, Masked, Effectful, EffectOf, CommutationKey;
    byId, byResource, resourceMasks, commutingMasks := map[], map[], map[], map[];
    assert ById(obs, ids, 0, byId) && AllGrouped(byId, byResource) && Masked(obs, [], resourceMasks, commutingMasks) by {
      IndexStart(obs, ids);
    }
    var n := 0;
    assert ids[..0] == [];
    while n < |ids|
      invariant n <= |ids|
      invariant ById(obs, ids, n, byId) && AllGrouped(byId, byResource) && Masked(obs, ids[..n], resourceMasks, commutingMasks)
    {
      ByIdOne(obs, ids, n, byId);
      var entry := Entry(obs, ids[n], n);
      GroupedOne(byId, byResource, entry);
      byId := byId[entry.id := entry];
      var resource := entry.effect.resource;
      byResource := byResource[resource := GroupOf(byResource, resource) + [entry]];
      ghost var resources, commuting := resourceMasks, commutingMasks;
      resourceMasks := resourceMasks[resource := Or(MaskOf(resourceMasks, resource), entry.bit)];
      var key := CommutationKey(entry.effect);
      if key.Some? {
        commutingMasks := commutingMasks[(resource, key.value) := Or(MaskOf(commutingMasks, (resource, key.value)), entry.bit)];
      }
      MaskedOne(obs, ids[..n], ids[n], resources, commuting, resourceMasks, commutingMasks);
      assert ids[..n + 1] == ids[..n] + [ids[n]];
      n := n + 1;
    }
    assert ids[..n] == ids;
  }

  lemma IndexStart(obs: Obligations, ids: seq<ObligationId>)
    ensures ById(obs, ids, 0, map[]) && AllGrouped(map[], map[]) && Masked(obs, [], map[], map[])
  {
    MarksNothing([]);
  }

  // ---------------------------------------------------------------- ancestors and descendants

  function BitOf(byId: map<ObligationId, IndexedEffect>, id: ObligationId): nat { if id in byId then byId[id].bit else 0 }

  lemma BitMarks(obs: Obligations, ids: seq<ObligationId>, byId: map<ObligationId, IndexedEffect>, id: ObligationId)
    requires Listing(obs, ids) && ById(obs, ids, |ids|, byId)
    ensures Marks(BitOf(byId, id), ids, {id})
  {
    assert ids[..|ids|] == ids;
    if id in byId {
      var k :| 0 <= k < |ids| && ids[k] == id;
      MarksOne(ids, k);
    } else {
      forall i: nat ensures Bit(0, i) <==> i < |ids| && ids[i] in {id} { ZeroBits(i); }
    }
  }

  /** `closure` of an obligation is its neighbours and their closures, and neighbours come earlier in `order`. */
  ghost predicate Closes(order: seq<ObligationId>, next: Adjacency, closure: map<ObligationId, set<ObligationId>>) {
    && (forall id :: id in order ==> id in next && id in closure)
    && (forall k, u :: 0 <= k < |order| && order[k] in next && u in next[order[k]] ==> u in order[..k])
    && forall id, x :: id in order && id in next && id in closure ==>
         (x in closure[id] <==> exists u :: u in next[id] && Via(closure, u, x))
  }

  ghost predicate Via(closure: map<ObligationId, set<ObligationId>>, u: ObligationId, x: ObligationId) {
    x == u || (u in closure && x in closure[u])
  }

  ghost function Gathered(us: seq<ObligationId>, closure: map<ObligationId, set<ObligationId>>): set<ObligationId> {
    if us == [] then {}
    else
      var u := us[|us| - 1];
      Gathered(us[..|us| - 1], closure) + {u} + if u in closure then closure[u] else {}
  }

  lemma {:induction false} GatheredIs(us: seq<ObligationId>, closure: map<ObligationId, set<ObligationId>>, x: ObligationId)
    ensures x in Gathered(us, closure) <==> exists u :: u in us && Via(closure, u, x)
    decreases |us|
  {
    if us != [] {
      var n := |us| - 1;
      GatheredIs(us[..n], closure, x);
      assert us == us[..n] + [us[n]];
      assert us[n] in us;
      assert forall u :: u in us[..n] ==> u in us;
      if Via(closure, us[n], x) { assert x in Gathered(us, closure); }
    }
  }

  lemma CloseAt(order: seq<ObligationId>, next: Adjacency, closure: map<ObligationId, set<ObligationId>>, k: nat)
    requires Closes(order, next, closure) && k < |order|
    ensures order[k] in next && order[k] in closure && Gathered(next[order[k]], closure) == closure[order[k]]
    ensures forall u :: u in next[order[k]] ==> u in order[..k]
  {
    var id := order[k];
    assert id in order;
    forall x ensures x in Gathered(next[id], closure) <==> x in closure[id] { GatheredIs(next[id], closure, x); }
  }

  /** One pass over the graph: the bits of everything reachable, accumulated neighbour by neighbour. */
  method Accumulate(ids: seq<ObligationId>, order: seq<ObligationId>, next: Adjacency, byId: map<ObligationId, IndexedEffect>,
                    ghost obs: Obligations, ghost closure: map<ObligationId, set<ObligationId>>) returns (masks: map<ObligationId, nat>)
    requires Listing(obs, ids) && ById(obs, ids, |ids|, byId) && Closes(order, next, closure)
    ensures forall id :: id in order ==> id in masks && id in closure && Marks(masks[id], ids, closure[id])
  {
    hide Marks, Listing, ById, Closes, Gathered;
    masks := map[];
    var k := 0;
    while k < |order|
      invariant k <= |order|
      invariant forall id :: id in order[..k] ==> id in masks && id in closure && Marks(masks[id], ids, closure[id])
    {
      var id := order[k];
      CloseAt(order, next, closure, k);
      var bits := Collect(ids, next[id], masks, byId, obs, closure, order[..k]);
      masks := masks[id := bits];
      assert order[..k + 1] == order[..k] + [id];
      k := k + 1;
    }
    assert order[..k] == order;
  }

  method Collect(ids: seq<ObligationId>, us: seq<ObligationId>, masks: map<ObligationId, nat>, byId: map<ObligationId, IndexedEffect>,
                 ghost obs: Obligations, ghost closure: map<ObligationId, set<ObligationId>>, ghost done: seq<ObligationId>) returns (bits: nat)
    requires Listing(obs, ids) && ById(obs, ids, |ids|, byId) && forall u :: u in us ==> u in done
    requires forall id :: id in done ==> id in masks && id in closure && Marks(masks[id], ids, closure[id])
    ensures Marks(bits, ids, Gathered(us, closure))
  {
    hide Marks, Listing, ById;
    bits := 0;
    MarksNothing(ids);
    var m := 0;
    assert us[..0] == [];
    while m < |us|
      invariant m <= |us| && Marks(bits, ids, Gathered(us[..m], closure))
    {
      var u := us[m];
      assert u in us && us[..m + 1][..m] == us[..m];
      BitMarks(obs, ids, byId, u);
      MarksUnion(bits, MaskOf(masks, u), ids, Gathered(us[..m], closure), closure[u]);
      MarksUnion(Or(bits, MaskOf(masks, u)), BitOf(byId, u), ids, Gathered(us[..m], closure) + closure[u], {u});
      bits := Or(Or(bits, MaskOf(masks, u)), BitOf(byId, u));
      assert Gathered(us[..m + 1], closure) == Gathered(us[..m], closure) + closure[u] + {u};
      m := m + 1;
    }
    assert us[..m] == us;
  }

  lemma {:induction false} AboveStep(obs: Obligations, id: ObligationId, x: ObligationId)
    requires id in obs && x in obs && AllBound(obs)
    ensures DependsOn(obs, id, x) <==> exists u :: u in Upstreams(obs[id]) && (x == u || DependsOn(obs, u, x))
  {
    hide DependsOn;
    if DependsOn(obs, id, x) {
      DependsOnIffWalk(obs, id, x);
      var path :| Walk(obs, path) && |path| > 1 && path[0] == id && path[|path| - 1] == x;
      var rest := path[1..];
      assert rest[0] in Upstreams(obs[id]) && Walk(obs, rest);
      if |rest| > 1 { DependsOnIffWalk(obs, rest[0], x); }
    }
    forall u | u in Upstreams(obs[id]) && (x == u || DependsOn(obs, u, x)) ensures DependsOn(obs, id, x) {
      StepAbove(obs, id, u, x);
    }
  }

  lemma StepAbove(obs: Obligations, id: ObligationId, u: ObligationId, x: ObligationId)
    requires id in obs && AllBound(obs) && u in Upstreams(obs[id]) && (x == u || DependsOn(obs, u, x))
    ensures DependsOn(obs, id, x)
  {
    hide DependsOn;
    var path := [u];
    if x != u {
      DependsOnIffWalk(obs, u, x);
      path :| Walk(obs, path) && |path| > 1 && path[0] == u && path[|path| - 1] == x;
    }
    var longer := [id] + path;
    assert Walk(obs, longer) && |longer| > 1 && longer[0] == id && longer[|longer| - 1] == x;
    DependsOnIffWalk(obs, id, x);
  }

  lemma {:induction false} BelowStep(obs: Obligations, id: ObligationId, y: ObligationId)
    requires id in obs && y in obs
    ensures DependsOn(obs, y, id) <==> exists d :: d in obs && id in Upstreams(obs[d]) && (y == d || DependsOn(obs, y, d))
  {
    hide DependsOn;
    if DependsOn(obs, y, id) {
      DependsOnIffWalk(obs, y, id);
      var path :| Walk(obs, path) && |path| > 1 && path[0] == y && path[|path| - 1] == id;
      var n := |path| - 1;
      var first := path[..n];
      assert Walk(obs, first) && first[n - 1] in obs && id in Upstreams(obs[first[n - 1]]);
      if |first| > 1 { DependsOnIffWalk(obs, y, first[n - 1]); }
    }
    forall d | d in obs && id in Upstreams(obs[d]) && (y == d || DependsOn(obs, y, d)) ensures DependsOn(obs, y, id) {
      StepBelow(obs, id, d, y);
    }
  }

  lemma StepBelow(obs: Obligations, id: ObligationId, d: ObligationId, y: ObligationId)
    requires id in obs && y in obs && d in obs && id in Upstreams(obs[d]) && (y == d || DependsOn(obs, y, d))
    ensures DependsOn(obs, y, id)
  {
    hide DependsOn;
    var path := [d];
    if y != d {
      DependsOnIffWalk(obs, y, d);
      path :| Walk(obs, path) && |path| > 1 && path[0] == y && path[|path| - 1] == d;
    }
    var longer := path + [id];
    assert Walk(obs, longer) && |longer| > 1 && longer[0] == y && longer[|longer| - 1] == id;
    DependsOnIffWalk(obs, y, id);
  }

  ghost function Aboves(obs: Obligations): map<ObligationId, set<ObligationId>> { map id | id in obs :: Above(obs, id) }
  ghost function Belows(obs: Obligations): map<ObligationId, set<ObligationId>> { map id | id in obs :: Below(obs, id) }

  lemma UpstreamsEarlier(obs: Obligations, g: GraphIndex, k: nat, u: ObligationId)
    requires ValidIndex(obs, g) && k < |g.order| && g.order[k] in g.upstreams && u in g.upstreams[g.order[k]]
    ensures u in g.order[..k]
  {
    var id := g.order[k];
    assert id in g.order && u in Elements(g.upstreams[id]);
    var d :| d in obs[id].dependencies && d.upstream == u;
  }

  lemma AboveCloses(obs: Obligations, g: GraphIndex, id: ObligationId, x: ObligationId)
    requires ValidIndex(obs, g) && AllBound(obs) && id in obs
    ensures x in Above(obs, id) <==> exists u :: u in g.upstreams[id] && Via(Aboves(obs), u, x)
  {
    hide DependsOn;
    forall u ensures u in g.upstreams[id] <==> u in Upstreams(obs[id]) { assert u in g.upstreams[id] <==> u in Elements(g.upstreams[id]); }
    if x in obs { AboveStep(obs, id, x); }
    forall u | u in Upstreams(obs[id]) ensures Via(Aboves(obs), u, x) <==> x == u || (x in obs && DependsOn(obs, u, x)) { }
  }

  lemma UpstreamsClose(obs: Obligations, g: GraphIndex)
    requires ValidIndex(obs, g)
    ensures Closes(g.order, g.upstreams, Aboves(obs))
  {
    hide Via, Above, UpstreamLists, DownstreamLists;
    OrderedIsBound(obs, g.order);
    assert g.upstreams.Keys == obs.Keys by { IndexKeys(obs, g); }
    forall k, u | 0 <= k < |g.order| && g.order[k] in g.upstreams && u in g.upstreams[g.order[k]] ensures u in g.order[..k] {
      UpstreamsEarlier(obs, g, k, u);
    }
    forall id, x | id in g.order && id in g.upstreams && id in Aboves(obs)
      ensures x in Aboves(obs)[id] <==> exists u :: u in g.upstreams[id] && Via(Aboves(obs), u, x)
    {
      AboveCloses(obs, g, id, x);
    }
  }

  lemma IndexKeys(obs: Obligations, g: GraphIndex)
    requires ValidIndex(obs, g)
    ensures g.upstreams.Keys == obs.Keys == g.downstreams.Keys
  {
  }

  function Reversed(s: seq<ObligationId>): seq<ObligationId> {
    if s == [] then [] else [s[|s| - 1]] + Reversed(s[..|s| - 1])
  }

  lemma {:induction false} ReversedAt(s: seq<ObligationId>)
    ensures |Reversed(s)| == |s| && forall k :: 0 <= k < |s| ==> Reversed(s)[k] == s[|s| - 1 - k]
    decreases |s|
  {
    if s != [] { ReversedAt(s[..|s| - 1]); }
  }

  lemma DownstreamsEarlier(obs: Obligations, g: GraphIndex, k: nat, y: ObligationId)
    requires ValidIndex(obs, g) && k < |Reversed(g.order)| && Reversed(g.order)[k] in g.downstreams && y in g.downstreams[Reversed(g.order)[k]]
    ensures y in Reversed(g.order)[..k]
  {
    var order := g.order;
    ReversedAt(order);
    var id := order[|order| - 1 - k];
    assert id in order;
    assert y in obs && id in Upstreams(obs[y]);
    var d :| d in obs[y].dependencies && d.upstream == id;
    var j :| 0 <= j < |order| && order[j] == y;
    assert id in order[..j];
    var i :| 0 <= i < j && order[i] == id;
    assert i == |order| - 1 - k;
    assert Reversed(order)[..k][|order| - 1 - j] == y;
  }

  lemma BelowCloses(obs: Obligations, g: GraphIndex, id: ObligationId, y: ObligationId)
    requires ValidIndex(obs, g) && id in obs
    ensures y in Below(obs, id) <==> exists d :: d in g.downstreams[id] && Via(Belows(obs), d, y)
  {
    hide DependsOn;
    if y in obs { BelowStep(obs, id, y); }
    forall d | d in obs ensures Via(Belows(obs), d, y) <==> y == d || (y in obs && DependsOn(obs, y, d)) { }
  }

  lemma DownstreamsClose(obs: Obligations, g: GraphIndex)
    requires ValidIndex(obs, g)
    ensures Closes(Reversed(g.order), g.downstreams, Belows(obs))
  {
    hide Via, Below, UpstreamLists, DownstreamLists;
    IndexKeys(obs, g);
    ReversedAt(g.order);
    forall k, u | 0 <= k < |Reversed(g.order)| && Reversed(g.order)[k] in g.downstreams && u in g.downstreams[Reversed(g.order)[k]]
      ensures u in Reversed(g.order)[..k]
    {
      DownstreamsEarlier(obs, g, k, u);
    }
    forall id | id in Reversed(g.order) ensures id in obs {
      var k :| 0 <= k < |g.order| && Reversed(g.order)[k] == id;
      assert id in g.order;
    }
    forall id, x | id in Reversed(g.order) && id in g.downstreams && id in Belows(obs)
      ensures x in Belows(obs)[id] <==> exists u :: u in g.downstreams[id] && Via(Belows(obs), u, x)
    {
      BelowCloses(obs, g, id, x);
    }
  }

  // ---------------------------------------------------------------- the index

  ghost predicate Fits(obs: Obligations, ids: seq<ObligationId>, ix: StaticEffectIndex) {
    && Listing(obs, ids)
    && ById(obs, ids, |ids|, ix.byId) && AllGrouped(ix.byId, ix.byResource)
    && Masked(obs, ids, ix.resourceMasks, ix.commutingMasks)
    && forall id :: id in ids ==> Marks(MaskOf(ix.orderedBits, id), ids, Above(obs, id) + Below(obs, id))
  }

  /** An index that answers every conflict question about `obs`. */
  ghost predicate Indexes(obs: Obligations, ix: StaticEffectIndex) { exists ids :: Fits(obs, ids, ix) }

  method OrderedBits(ids: seq<ObligationId>, ancestors: map<ObligationId, nat>, descendants: map<ObligationId, nat>, ghost obs: Obligations)
    returns (ordered: map<ObligationId, nat>)
    requires forall id :: id in ids ==>
      && id in ancestors && Marks(ancestors[id], ids, Above(obs, id))
      && id in descendants && Marks(descendants[id], ids, Below(obs, id))
    ensures forall id :: id in ids ==> id in ordered && Marks(ordered[id], ids, Above(obs, id) + Below(obs, id))
  {
    hide Marks, Above, Below;
    ordered := map[];
    var k := 0;
    while k < |ids|
      invariant k <= |ids|
      invariant forall id :: id in ids[..k] ==> id in ordered && Marks(ordered[id], ids, Above(obs, id) + Below(obs, id))
    {
      var id := ids[k];
      assert id in ids;
      MarksUnion(ancestors[id], descendants[id], ids, Above(obs, id), Below(obs, id));
      ordered := ordered[id := Or(ancestors[id], descendants[id])];
      assert ids[..k + 1] == ids[..k] + [id];
      k := k + 1;
    }
    assert ids[..k] == ids;
  }

  lemma ListedInOrder(obs: Obligations, ids: seq<ObligationId>, g: GraphIndex, id: ObligationId)
    requires Listing(obs, ids) && ValidIndex(obs, g) && id in ids
    ensures id in obs && id in g.order && id in Reversed(g.order)
  {
    ReversedAt(g.order);
    var k :| 0 <= k < |g.order| && g.order[k] == id;
    assert Reversed(g.order)[|g.order| - 1 - k] == id;
  }

  /** `buildStaticEffectIndex`, over any valid index of the graph. */
  method BuildStaticEffectIndex(obs: Obligations, g: GraphIndex) returns (ix: StaticEffectIndex)
    requires ValidIndex(obs, g)
    ensures Indexes(obs, ix)
  {
    hide Marks, Above, Below, Listing, ById, AllGrouped, Masked, Closes, ValidIndex;
    var ids := ListEffects(obs);
    var byId, byResource, resourceMasks, commutingMasks := IndexEffects(obs, ids);
    UpstreamsClose(obs, g);
    var ancestors := Accumulate(ids, g.order, g.upstreams, byId, obs, Aboves(obs));
    DownstreamsClose(obs, g);
    var descendants := Accumulate(ids, Reversed(g.order), g.downstreams, byId, obs, Belows(obs));
    forall id | id in ids
      ensures id in ancestors && Marks(ancestors[id], ids, Above(obs, id)) && id in descendants && Marks(descendants[id], ids, Below(obs, id))
    {
      ListedInOrder(obs, ids, g, id);
    }
    var ordered := OrderedBits(ids, ancestors, descendants, obs);
    ix := StaticEffectIndex(byId, byResource, resourceMasks, commutingMasks, ordered);
    assert Fits(obs, ids, ix);
  }

  // ---------------------------------------------------------------- one conflict

  datatype Conflict = Conflict(left: ObligationId, right: ObligationId)

  function FirstMarked(group: seq<IndexedEffect>, mask: nat): Option<IndexedEffect> {
    if group == [] then None
    else if And(mask, group[0].bit) != 0 then Some(group[0])
    else FirstMarked(group[1..], mask)
  }

  function UnorderedMask(ix: StaticEffectIndex, work: IndexedEffect): nat {
    var key := CommutationKey(work.effect);
    var compatible := if key.None? then 0 else MaskOf(ix.commutingMasks, (work.effect.resource, key.value));
    var incompatible := AndNot(MaskOf(ix.resourceMasks, work.effect.resource), Or(compatible, work.bit));
    AndNot(incompatible, MaskOf(ix.orderedBits, work.id))
  }

  /** The conflict names both obligations, the smaller one first. */
  ghost predicate Names(c: Conflict, a: ObligationId, b: ObligationId) { {c.left, c.right} == {a, b} && Before(c.left, c.right) }

  lemma PairNames(a: ObligationId, b: ObligationId)
    requires a != b
    ensures Names(Pair(a, b), a, b)
  {
    BeforeTotal(a, b);
  }

  function Pair(a: ObligationId, b: ObligationId): Conflict { if Before(b, a) then Conflict(b, a) else Conflict(a, b) }

  /** `staticEffectConflict`; the error is the source's STATIC_EFFECT_INDEX_INCONSISTENT. */
  function StaticEffectConflict(obs: Obligations, workId: ObligationId, ix: StaticEffectIndex): Result<Option<Conflict>> {
    if workId !in obs || workId !in ix.byId then Ok(None)
    else
      var work := ix.byId[workId];
      var mask := UnorderedMask(ix, work);
      if mask == 0 then Ok(None)
      else
        var other := FirstMarked(GroupOf(ix.byResource, work.effect.resource), mask);
        if other.None? then Err(ProjectionInvalid) else Ok(Some(Pair(workId, other.value.id)))
  }

  /** The obligations in conflict with one obligation, by the pairwise rule. */
  ghost function Rivals(obs: Obligations, id: ObligationId): set<ObligationId> { set x | x in obs && ConflictingPair(obs, id, x) }

  ghost function Compatible(obs: Obligations, id: ObligationId): set<ObligationId>
    requires Effectful(obs, id)
  {
    var e := EffectIn(obs, id);
    if CommutationKey(e).Some? then Commuting(obs, e.resource, CommutationKey(e).value) else {}
  }

  lemma RivalIff(obs: Obligations, id: ObligationId, x: ObligationId)
    requires Effectful(obs, id)
    ensures x in Rivals(obs, id) <==>
      && x in Sharing(obs, EffectIn(obs, id).resource) && x !in Compatible(obs, id) && x != id
      && x !in Above(obs, id) && x !in Below(obs, id)
  {
    hide DependsOn, PostsConflict;
    if x in obs { EffectsConflictIff(obs[id].post, obs[x].post); }
  }

  lemma MarksMinus(a: nat, b: nat, ids: seq<ObligationId>, left: set<ObligationId>, right: set<ObligationId>)
    requires Marks(a, ids, left) && Marks(b, ids, right)
    ensures Marks(AndNot(a, b), ids, left - right)
  {
    forall i: nat ensures Bit(AndNot(a, b), i) <==> i < |ids| && ids[i] in left - right { BitAndNot(a, b, i); }
  }

  lemma UnorderedMaskIs(obs: Obligations, ids: seq<ObligationId>, ix: StaticEffectIndex, id: ObligationId)
    requires Fits(obs, ids, ix) && id in ix.byId
    ensures Effectful(obs, id) && ix.byId[id].id == id && ix.byId[id].effect == EffectIn(obs, id)
    ensures Marks(UnorderedMask(ix, ix.byId[id]), ids, Rivals(obs, id))
  {
    hide Marks, AllGrouped, Rivals, Above, Below, Commuting, Sharing;
    ByIdAt(obs, ids, ix.byId, id);
    var e := EffectIn(obs, id);
    var work := ix.byId[id];
    BitMarks(obs, ids, ix.byId, id);
    MarksNothing(ids);
    var compatible := if CommutationKey(e).None? then 0 else MaskOf(ix.commutingMasks, (e.resource, CommutationKey(e).value));
    MarksUnion(compatible, work.bit, ids, Compatible(obs, id), {id});
    MarksMinus(MaskOf(ix.resourceMasks, e.resource), Or(compatible, work.bit), ids, Sharing(obs, e.resource), Compatible(obs, id) + {id});
    var rest := Sharing(obs, e.resource) - (Compatible(obs, id) + {id});
    MarksMinus(AndNot(MaskOf(ix.resourceMasks, e.resource), Or(compatible, work.bit)), MaskOf(ix.orderedBits, id), ids,
               rest, Above(obs, id) + Below(obs, id));
    forall x ensures x in rest - (Above(obs, id) + Below(obs, id)) <==> x in Rivals(obs, id) { RivalIff(obs, id, x); }
    assert rest - (Above(obs, id) + Below(obs, id)) == Rivals(obs, id);
  }

  lemma ByIdAt(obs: Obligations, ids: seq<ObligationId>, byId: map<ObligationId, IndexedEffect>, id: ObligationId)
    requires ById(obs, ids, |ids|, byId) && id in byId
    ensures id in ids && Effectful(obs, id) && byId[id].id == id && byId[id].effect == EffectIn(obs, id)
  {
    assert ids[..|ids|] == ids;
    var k :| 0 <= k < |ids| && ids[k] == id;
  }

  /** A group entry's bit is in a mask exactly when its obligation is marked. */
  lemma EntryMarked(obs: Obligations, ids: seq<ObligationId>, byId: map<ObligationId, IndexedEffect>, mask: nat, marked: set<ObligationId>, e: IndexedEffect)
    requires Listing(obs, ids) && ById(obs, ids, |ids|, byId) && Marks(mask, ids, marked) && e.id in byId && byId[e.id] == e
    ensures And(mask, e.bit) != 0 <==> e.id in marked
  {
    assert ids[..|ids|] == ids;
    var k :| 0 <= k < |ids| && ids[k] == e.id;
    TestBit(mask, k);
  }

  lemma {:induction false} FirstMarkedIs(obs: Obligations, ids: seq<ObligationId>, byId: map<ObligationId, IndexedEffect>, mask: nat,
                                         marked: set<ObligationId>, group: seq<IndexedEffect>)
    requires Listing(obs, ids) && ById(obs, ids, |ids|, byId) && Marks(mask, ids, marked)
    requires forall e :: e in group ==> e.id in byId && byId[e.id] == e
    requires forall a, b :: 0 <= a < b < |group| ==> Before(group[a].id, group[b].id)
    ensures FirstMarked(group, mask).None? ==> forall e :: e in group ==> e.id !in marked
    ensures FirstMarked(group, mask).Some? ==>
      var first := FirstMarked(group, mask).value;
      first in group && first.id in marked && forall e :: e in group && e.id in marked ==> e.id == first.id || Before(first.id, e.id)
    decreases |group|
  {
    hide Listing, ById, Marks;
    if group != [] {
      EntryMarked(obs, ids, byId, mask, marked, group[0]);
      FirstMarkedIs(obs, ids, byId, mask, marked, group[1..]);
    }
  }

  lemma RivalsGrouped(obs: Obligations, ids: seq<ObligationId>, ix: StaticEffectIndex, id: ObligationId, x: ObligationId)
    requires Fits(obs, ids, ix) && id in ix.byId && x in Rivals(obs, id)
    ensures x in ix.byId && ix.byId[x].id == x && ix.byId[x] in GroupOf(ix.byResource, ix.byId[id].effect.resource)
  {
    hide DependsOn, Marks, Masked;
    ByIdAt(obs, ids, ix.byId, id);
    assert ids[..|ids|] == ids;
    assert x in ids;
    ByIdAt(obs, ids, ix.byId, x);
    assert Grouped(ix.byId, ix.byId[id].effect.resource, GroupOf(ix.byResource, ix.byId[id].effect.resource));
  }

  /** The index agrees with the pairwise rule: it reports a conflict exactly when another obligation on the same resource
      conflicts and neither depends on the other, and it reports the smallest such obligation. */
  lemma StaticConflictIff(obs: Obligations, ix: StaticEffectIndex, id: ObligationId)
    requires Indexes(obs, ix)
    ensures StaticEffectConflict(obs, id, ix).Ok?
    ensures StaticEffectConflict(obs, id, ix).value.Some? <==> HasConflict(obs, id)
    ensures StaticEffectConflict(obs, id, ix).value.Some? ==> exists other ::
      && ConflictingPair(obs, id, other) && Names(StaticEffectConflict(obs, id, ix).value.value, id, other)
      && forall x :: ConflictingPair(obs, id, x) ==> x == other || Before(other, x)
  {
    hide Marks, ById, AllGrouped, Masked, UnorderedMask, FirstMarked, ConflictingPair, Names;
    var ids :| Fits(obs, ids, ix);
    if id in obs && id in ix.byId {
      UnorderedMaskIs(obs, ids, ix, id);
      var mask := UnorderedMask(ix, ix.byId[id]);
      var group := GroupOf(ix.byResource, ix.byId[id].effect.resource);
      assert Grouped(ix.byId, ix.byId[id].effect.resource, group) by { GroupedAt(ix, ix.byId[id].effect.resource); }
      FirstMarkedIs(obs, ids, ix.byId, mask, Rivals(obs, id), group);
      ZeroMaskIff(obs, ids, ix, id, mask);
      forall x | x in Rivals(obs, id) ensures x in ix.byId && ix.byId[x].id == x && ix.byId[x] in group {
        RivalsGrouped(obs, ids, ix, id, x);
      }
      PairsAreRivals(obs, id);
      if mask != 0 {
        var other := FirstMarked(group, mask).value.id;
        RivalIsOther(obs, id, other);
        PairNames(id, other);
      }
    } else {
      NoPairs(obs, ids, ix, id);
    }
  }

  lemma RivalIsOther(obs: Obligations, id: ObligationId, other: ObligationId)
    requires other in Rivals(obs, id)
    ensures other != id
  {
  }

  lemma GroupedAt(ix: StaticEffectIndex, resource: Resource)
    requires AllGrouped(ix.byId, ix.byResource)
    ensures Grouped(ix.byId, resource, GroupOf(ix.byResource, resource))
  {
  }

  lemma PairsAreRivals(obs: Obligations, id: ObligationId)
    ensures forall x :: ConflictingPair(obs, id, x) <==> x in Rivals(obs, id)
    ensures HasConflict(obs, id) <==> exists x :: x in Rivals(obs, id)
  {
    hide DependsOn;
  }

  lemma ZeroMaskIff(obs: Obligations, ids: seq<ObligationId>, ix: StaticEffectIndex, id: ObligationId, mask: nat)
    requires Fits(obs, ids, ix) && Marks(mask, ids, Rivals(obs, id))
    ensures mask == 0 <==> Rivals(obs, id) == {}
  {
    hide ById, AllGrouped, Masked, DependsOn;
    if mask != 0 {
      var i := SomeBit(mask);
      assert ids[i] in Rivals(obs, id);
    } else {
      forall x | x in Rivals(obs, id) ensures false {
        assert x in ids;
        var i :| 0 <= i < |ids| && ids[i] == x;
        ZeroBits(i);
      }
    }
  }

  lemma NoPairs(obs: Obligations, ids: seq<ObligationId>, ix: StaticEffectIndex, id: ObligationId)
    requires Fits(obs, ids, ix) && (id !in obs || id !in ix.byId)
    ensures forall x :: !ConflictingPair(obs, id, x)
  {
    hide DependsOn, Marks;
    assert ids[..|ids|] == ids;
  }

  // ---------------------------------------------------------------- admission

  /** `validateStaticEffectOrdering`: passes exactly when no conflicting pair exists. */
  method ValidateStaticEffectOrdering(obs: Obligations, ix: StaticEffectIndex) returns (result: Option<Conflict>)
    requires Indexes(obs, ix)
    ensures result.None? <==> forall a, b :: !ConflictingPair(obs, a, b)
    ensures result.Some? ==> exists a, b :: ConflictingPair(obs, a, b) && Names(result.value, a, b)
  {
    hide ConflictingPair, Indexes, StaticEffectConflict;
    var all := Sorted(obs.Keys);
    var k := 0;
    while k < |all|
      invariant k <= |all|
      invariant forall a, b :: a in all[..k] ==> !ConflictingPair(obs, a, b)
    {
      StaticConflictIff(obs, ix, all[k]);
      PairsBound(obs, all[k]);
      var conflict := StaticEffectConflict(obs, all[k], ix);
      if conflict.value.Some? { return conflict.value; }
      assert all[..k + 1] == all[..k] + [all[k]];
      k := k + 1;
    }
    assert all[..k] == all;
    forall a, b ensures !ConflictingPair(obs, a, b) { PairsBound(obs, a); }
    result := None;
  }

  lemma PairsBound(obs: Obligations, a: ObligationId)
    ensures a !in obs ==> forall b :: !ConflictingPair(obs, a, b)
    ensures HasConflict(obs, a) <==> exists b :: ConflictingPair(obs, a, b)
  {
    hide DependsOn;
  }
}
