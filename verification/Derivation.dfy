/** The memoised derivation of lifecycles, with its table and its set of obligations being visited
    (src/authority/project-state.ts:205-302), against the recursive definition. */
module Derivation {
  import opened Facts
  import opened Lifecycles

  // ---------------------------------------------------------------- semantic paths

  ghost predicate SemanticEdge(v: View, from: ObligationId, to: ObligationId) {
    from in v.obligations && exists d :: d in v.obligations[from].dependencies && d.Semantic? && d.upstream == to
  }

  ghost predicate SemanticPath(v: View, path: seq<ObligationId>) {
    |path| >= 2 && forall i :: 0 <= i < |path| - 1 ==> SemanticEdge(v, path[i], path[i + 1])
  }

  /** One or more semantic edges lead from one obligation to the other. */
  ghost predicate ReadsFrom(v: View, from: ObligationId, to: ObligationId) {
    exists path :: SemanticPath(v, path) && path[0] == from && path[|path| - 1] == to
  }

  lemma ReadsOne(v: View, from: ObligationId, to: ObligationId)
    requires SemanticEdge(v, from, to)
    ensures ReadsFrom(v, from, to)
  {
    assert SemanticPath(v, [from, to]);
  }

  lemma ReadsMore(v: View, from: ObligationId, mid: ObligationId, to: ObligationId)
    requires ReadsFrom(v, from, mid) && SemanticEdge(v, mid, to)
    ensures ReadsFrom(v, from, to)
  {
    hide SemanticEdge;
    var path :| SemanticPath(v, path) && path[0] == from && path[|path| - 1] == mid;
    assert SemanticPath(v, path + [to]);
  }

  lemma ReadsFirst(v: View, from: ObligationId, mid: ObligationId, to: ObligationId)
    requires SemanticEdge(v, from, mid) && ReadsFrom(v, mid, to)
    ensures ReadsFrom(v, from, to)
  {
    hide SemanticEdge;
    var path :| SemanticPath(v, path) && path[0] == mid && path[|path| - 1] == to;
    assert SemanticPath(v, [from] + path);
  }

  // ---------------------------------------------------------------- a derivation that succeeds meets no cycle

  lemma {:induction false} UpstreamDerived(v: View, deps: seq<Dependency>, visiting: set<ObligationId>, d: Dependency)
    requires DeriveUpstreams(v, deps, visiting).Ok? && d in deps && d.Semantic?
    ensures Derive(v, d.upstream, visiting).Ok?
    decreases deps
  {
    hide Derive;
    if deps[0] != d { UpstreamDerived(v, deps[1..], visiting, d); }
  }

  function Elements(s: seq<ObligationId>): set<ObligationId> { set x | x in s }

  lemma {:induction false} DerivesAlong(v: View, path: seq<ObligationId>, visiting: set<ObligationId>)
    requires SemanticPath(v, path) && Derive(v, path[0], visiting).Ok?
    ensures Derive(v, path[|path| - 1], visiting + Elements(path[..|path| - 1])).Ok?
    decreases |path|
  {
    var n := |path| - 1;
    var last := path[n - 1];
    assert SemanticEdge(v, last, path[n]);
    var d :| d in v.obligations[last].dependencies && d.Semantic? && d.upstream == path[n];
    var seen := visiting + Elements(path[..n - 1]);
    if n > 1 {
      assert SemanticPath(v, path[..n]) by { hide SemanticEdge; }
      assert path[..n][..n - 1] == path[..n - 1];
      DerivesAlong(v, path[..n], visiting);
    } else {
      assert seen == visiting;
    }
    UpstreamDerived(v, v.obligations[last].dependencies, seen + {last}, d);
    assert path[..n] == path[..n - 1] + [last];
    assert seen + {last} == visiting + Elements(path[..n]);
  }

  lemma DerivedIsAcyclic(v: View, id: ObligationId)
    requires Derive(v, id, {}).Ok?
    ensures !ReadsFrom(v, id, id)
  {
    hide SemanticEdge, DeriveUpstreams;
    forall path | SemanticPath(v, path) && path[0] == id ensures path[|path| - 1] != id {
      DerivesAlong(v, path, {});
      assert path[..|path| - 1][0] == id;
    }
  }

  lemma {:induction false} UpstreamsIgnore(v: View, deps: seq<Dependency>, visiting: set<ObligationId>, other: ObligationId)
    requires DeriveUpstreams(v, deps, visiting).Ok?
    requires forall d :: d in deps && d.Semantic? ==> d.upstream != other && !ReadsFrom(v, d.upstream, other)
    ensures DeriveUpstreams(v, deps, visiting + {other}) == DeriveUpstreams(v, deps, visiting)
    decreases v.obligations.Keys - visiting, |deps| + 1
  {
    hide ReadsFrom;
    if deps != [] {
      assert deps[0] in deps;
      if deps[0].Semantic? { DeriveIgnores(v, deps[0].upstream, visiting, other); }
      UpstreamsIgnore(v, deps[1..], visiting, other);
    }
  }

  /** Marking an obligation that is not read changes no derivation. */
  lemma {:induction false} DeriveIgnores(v: View, id: ObligationId, visiting: set<ObligationId>, other: ObligationId)
    requires Derive(v, id, visiting).Ok? && id != other && !ReadsFrom(v, id, other)
    ensures Derive(v, id, visiting + {other}) == Derive(v, id, visiting)
    decreases v.obligations.Keys - visiting, 0
  {
    hide ReadsFrom, Local;
    var work := v.obligations[id];
    forall d | d in work.dependencies && d.Semantic? ensures d.upstream != other && !ReadsFrom(v, d.upstream, other) {
      assert SemanticEdge(v, id, d.upstream);
      ReadsOne(v, id, d.upstream);
      if ReadsFrom(v, d.upstream, other) { ReadsFirst(v, id, d.upstream, other); }
    }
    UpstreamsIgnore(v, work.dependencies, visiting + {id}, other);
    assert (visiting + {other}) + {id} == (visiting + {id}) + {other};
  }

  /** One obligation is derived from the derivations of its semantic upstreams, wherever those were made. */
  lemma DeriveFromTable(v: View, id: ObligationId, table: Realizations)
    requires id in v.obligations
    requires forall d :: d in v.obligations[id].dependencies && d.Semantic? ==>
      d.upstream in table && Derive(v, d.upstream, {}) == Ok(table[d.upstream])
    ensures Derive(v, id, {}) == Local(v, v.obligations[id], table)
  {
    hide ReadsFrom, Local, Derive;
    var work := v.obligations[id];
    forall d | d in work.dependencies && d.Semantic? ensures Derive(v, d.upstream, {id}) == Ok(table[d.upstream]) {
      UpstreamUnvisited(v, id, d);
    }
    UpstreamsFollow(v, work.dependencies, {id}, table);
    DeriveUnfolds(v, id, table);
  }

  lemma UpstreamUnvisited(v: View, id: ObligationId, d: Dependency)
    requires id in v.obligations && d in v.obligations[id].dependencies && d.Semantic? && Derive(v, d.upstream, {}).Ok?
    ensures Derive(v, d.upstream, {id}) == Derive(v, d.upstream, {})
  {
    hide ReadsFrom, Derive;
    assert SemanticEdge(v, id, d.upstream);
    ReadsOne(v, id, d.upstream);
    DerivedIsAcyclic(v, d.upstream);
    if ReadsFrom(v, d.upstream, id) { ReadsMore(v, d.upstream, id, d.upstream); }
    DeriveIgnores(v, d.upstream, {}, id);
    assert {} + {id} == {id};
  }

  lemma DeriveUnfolds(v: View, id: ObligationId, table: Realizations)
    requires id in v.obligations && DeriveUpstreams(v, v.obligations[id].dependencies, {id}).Ok?
    requires var ups := DeriveUpstreams(v, v.obligations[id].dependencies, {id}).value;
      forall d :: d in v.obligations[id].dependencies && d.Semantic? ==> d.upstream in table && d.upstream in ups && ups[d.upstream] == table[d.upstream]
    ensures Derive(v, id, {}) == Local(v, v.obligations[id], table)
  {
    assert {} + {id} == {id};
    ConsumedAgree(v, v.obligations[id].dependencies, DeriveUpstreams(v, v.obligations[id].dependencies, {id}).value, table);
  }

  /** A failing upstream makes the derivation fail. */
  lemma FailurePropagates(v: View, id: ObligationId, d: Dependency)
    requires id in v.obligations && d in v.obligations[id].dependencies && d.Semantic? && Derive(v, d.upstream, {}).Err?
    ensures Derive(v, id, {}).Err?
  {
    if Derive(v, id, {}).Ok? {
      UpstreamDerived(v, v.obligations[id].dependencies, {} + {id}, d);
      DeriveMonotone(v, d.upstream, {}, {} + {id});
    }
  }

  // ---------------------------------------------------------------- the memoised recursion

  class RealizationSearch {
    const v: View
    var table: Realizations
    var visiting: set<ObligationId>

    /** The table holds derivations only. */
    ghost predicate Valid()
      reads this
    {
      forall id :: id in table ==> id in v.obligations && Derive(v, id, {}) == Ok(table[id])
    }

    constructor (v: View)
      ensures Valid() && this.v == v && table == map[] && visiting == {}
    {
      this.v, table, visiting := v, map[], {};
    }

    /** `derive`: looks the obligation up, or derives it after its semantic upstreams and records it. */
    method Visit(id: ObligationId) returns (result: Result<Realization>)
      requires Valid() && forall u :: u in visiting ==> ReadsFrom(v, u, id)
      modifies this
      ensures Valid() && forall x :: x in old(table) ==> x in table && table[x] == old(table)[x]
      ensures result.Ok? <==> Derive(v, id, {}).Ok?
      ensures result.Ok? ==> result == Derive(v, id, {}) && visiting == old(visiting) && id in table && table[id] == result.value
      decreases v.obligations.Keys - visiting
    {
      hide ReadsFrom, SemanticEdge, Local, Derive;
      if id in table { return Ok(table[id]); }
      if id in visiting {
        if Derive(v, id, {}).Ok? { DerivedIsAcyclic(v, id); }
        return Err(DependencyCycle);
      }
      visiting := visiting + {id};
      if id !in v.obligations {
        UnknownFails(v, id);
        return Err(UnknownObligation);
      }
      var deps := v.obligations[id].dependencies;
      var i := 0;
      while i < |deps|
        invariant i <= |deps| && Valid() && visiting == old(visiting) + {id}
        invariant forall x :: x in old(table) ==> x in table && table[x] == old(table)[x]
        invariant forall d :: d in deps[..i] && d.Semantic? ==> d.upstream in table
      {
        var edge := deps[i];
        assert edge in deps && deps[..i + 1] == deps[..i] + [edge];
        if edge.Semantic? {
          EdgeOf(v, id, edge);
          ReadsOne(v, id, edge.upstream);
          forall u | u in visiting ensures ReadsFrom(v, u, edge.upstream) {
            if u != id { ReadsMore(v, u, id, edge.upstream); }
          }
          var upstream := Visit(edge.upstream);
          if upstream.Err? {
            FailurePropagates(v, id, edge);
            return Err(upstream.error);
          }
        }
        i := i + 1;
      }
      assert deps[..i] == deps;
      DeriveFromTable(v, id, table);
      result := Local(v, v.obligations[id], table);
      if result.Err? { return; }
      visiting := visiting - {id};
      table := table[id := result.value];
    }
  }

  lemma EdgeOf(v: View, id: ObligationId, d: Dependency)
    requires id in v.obligations && d in v.obligations[id].dependencies && d.Semantic?
    ensures SemanticEdge(v, id, d.upstream)
  {
  }

  lemma UnknownFails(v: View, id: ObligationId)
    requires id !in v.obligations
    ensures Derive(v, id, {}).Err?
  {
  }

  /** `deriveRealizationRelations`: whatever order the obligations are visited in, the memoised derivation succeeds exactly
      when the recursive one does, with the same table. */
  method DeriveRealizationRelations(v: View, ids: seq<ObligationId>) returns (result: Result<Realizations>)
    requires forall id :: id in ids <==> id in v.obligations
    ensures result.Ok? <==> Lives(v).Ok?
    ensures result.Ok? ==> result == Lives(v)
  {
    hide Derive, ReadsFrom;
    var search := new RealizationSearch(v);
    var k := 0;
    while k < |ids|
      invariant k <= |ids| && fresh(search) && search.v == v && search.Valid() && search.visiting == {}
      invariant forall id :: id in ids[..k] ==> id in search.table
    {
      assert ids[k] in ids && ids[..k + 1] == ids[..k] + [ids[k]];
      var one := search.Visit(ids[k]);
      if one.Err? { return Err(one.error); }
      k := k + 1;
    }
    assert ids[..k] == ids;
    assert search.table.Keys == v.obligations.Keys;
    assert Lives(v).Ok? && search.table == Lives(v).value;
    return Ok(search.table);
  }
}
