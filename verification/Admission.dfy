/** `validateAdmission` as the writer runs it (src/authority/admission.ts:12-28, 177-184). */
module Admission {
  import opened Facts
  import opened Graph
  import opened Lifecycles
  import opened Topology
  import opened StaticEffects
  import opened Ordering
  import opened Engine

  /** One semantic edge is available: its upstream is bound, its selector known, and the output it selects exists. */
  predicate EdgeAvailable(obs: Obligations, d: Dependency) {
    d.Semantic? ==>
      && d.upstream in obs
      && !d.consumes.UnsupportedConsumes?
      && (d.consumes == VerifiedContent ==> VerifiedContentIdentity(obs[d.upstream].post).Some?)
  }

  method ValidateEdges(obs: Obligations, deps: seq<Dependency>) returns (error: Option<Error>)
    ensures error.None? <==> forall d :: d in deps ==> EdgeAvailable(obs, d)
  {
    for k := 0 to |deps|
      invariant forall d :: d in deps[..k] ==> EdgeAvailable(obs, d)
    {
      var edge := deps[k];
      assert edge in deps;
      ghost var available := EdgeAvailable(obs, edge);
      if edge.Semantic? {
        if edge.upstream !in obs { return Some(UnknownDependency); }
        if edge.consumes.UnsupportedConsumes? { return Some(UnsupportedSelector); }
        if edge.consumes == VerifiedContent && VerifiedContentIdentity(obs[edge.upstream].post).None? {
          return Some(UnavailableSemanticOutput);
        }
      }
      assert deps[..k + 1] == deps[..k] + [edge];
    }
    assert deps[..|deps|] == deps;
    return None;
  }

  method ValidateSemanticEdges(obs: Obligations) returns (error: Option<Error>)
    ensures error.None? <==> SemanticEdgesAvailable(obs)
  {
    hide EdgeAvailable, SemanticEdgesAvailable;
    AvailableIff(obs);
    var ids := Sorted(obs.Keys);
    for k := 0 to |ids|
      invariant forall id, d :: id in ids[..k] && id in obs && d in obs[id].dependencies ==> EdgeAvailable(obs, d)
    {
      assert ids[k] in ids;
      error := ValidateEdges(obs, obs[ids[k]].dependencies);
      if error.Some? { return; }
      assert ids[..k + 1] == ids[..k] + [ids[k]];
    }
    assert ids[..|ids|] == ids;
    return None;
  }

  lemma AvailableIff(obs: Obligations)
    ensures SemanticEdgesAvailable(obs) <==> forall id, d :: id in obs && d in obs[id].dependencies ==> EdgeAvailable(obs, d)
  {
    if SemanticEdgesAvailable(obs) {
      forall id, d | id in obs && d in obs[id].dependencies ensures EdgeAvailable(obs, d) { }
    } else {
      var id, d :| id in obs && d in obs[id].dependencies && d.Semantic?
        && !(&& d.upstream in obs && !d.consumes.UnsupportedConsumes?
             && (d.consumes == VerifiedContent ==> VerifiedContentIdentity(obs[d.upstream].post).Some?));
      assert !EdgeAvailable(obs, d);
    }
  }

  /** The whole admission check accepts exactly the admissible states: a valid graph, available semantic edges
      and no unordered conflicting pair. */
  method ValidateAdmission(obs: Obligations) returns (error: Option<Error>)
    ensures error.None? <==> Admissible(obs)
  {
    hide ValidGraph, SemanticEdgesAvailable, ConflictingPair, ValidIndex, Indexes;
    var graph := BuildGraphIndex(obs);
    if graph.Err? { return Some(graph.error); }
    error := ValidateSemanticEdges(obs);
    if error.Some? { return; }
    var index := BuildStaticEffectIndex(obs, graph.value);
    var conflict := ValidateStaticEffectOrdering(obs, index);
    forall id ensures HasConflict(obs, id) <==> exists b :: ConflictingPair(obs, id, b) { PairsBound(obs, id); }
    forall a, b | ConflictingPair(obs, a, b) ensures a in obs { PairsBound(obs, a); }
    return if conflict.Some? then Some(UnorderedEffectConflict) else None;
  }
}
