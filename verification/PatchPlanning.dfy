/** The graph patch the writer plans (src/authority/engine.ts:660-740) is the one the reducer applies. */
module PatchPlanning {
  import opened Facts
  import opened Graph
  import opened Lifecycles
  import opened Replay
  import opened Invariants
  import opened Engine

  // ---------------------------------------------------------------- sequences

  lemma {:induction false} NodesSnoc(bindings: seq<Binding>, b: Binding)
    ensures Nodes(bindings + [b]) == Nodes(bindings) + [b.node]
    decreases |bindings|
  {
    if bindings == [] {
      assert bindings + [b] == [b];
    } else {
      assert (bindings + [b])[1..] == bindings[1..] + [b];
      NodesSnoc(bindings[1..], b);
    }
  }

  lemma {:induction false} IntroducedSnoc(added: seq<Introduced>, d: Introduced)
    ensures IntroducedIds(added + [d]) == IntroducedIds(added) + [d.id]
    decreases |added|
  {
    if added == [] {
      assert added + [d] == [d];
    } else {
      assert (added + [d])[1..] == added[1..] + [d];
      IntroducedSnoc(added[1..], d);
    }
  }

  lemma {:induction false} AssignedSnoc(bindings: seq<Binding>, b: Binding)
    ensures Assigned(bindings + [b]) == Assigned(bindings)[b.node := b.definitionId]
    decreases |bindings|
  {
    if bindings == [] {
      assert bindings + [b] == [b];
      assert [b][1..] == [];
    } else {
      assert (bindings + [b])[1..] == bindings[1..] + [b];
      AssignedSnoc(bindings[1..], b);
    }
  }

  lemma {:induction false} NodeOf(bindings: seq<Binding>, b: Binding)
    requires b in bindings
    ensures b.node in Nodes(bindings)
    decreases |bindings|
  {
    if bindings[0] != b { NodeOf(bindings[1..], b); }
  }

  lemma {:induction false} IsNodeOf(bindings: seq<Binding>, id: ObligationId) returns (b: Binding)
    requires id in Nodes(bindings)
    ensures b in bindings && b.node == id
    decreases |bindings|
  {
    if bindings[0].node == id { b := bindings[0]; } else { b := IsNodeOf(bindings[1..], id); }
  }

  lemma NoRepeatsSnoc<T>(s: seq<T>, x: T)
    requires NoRepeats(s) && x !in s
    ensures NoRepeats(s + [x])
  {
  }

  // ---------------------------------------------------------------- the plan

  /** Only definitions that are not yet registered are introduced, once each, under their content id. */
  ghost predicate NewDefinitions(c: Core, added: seq<Introduced>) {
    && NoRepeats(IntroducedIds(added))
    && (forall d :: d in added ==> d.id == Sha(d.definition))
    && (forall d :: d in IntroducedIds(added) ==> d !in c.definitions)
  }

  ghost predicate KnownDefinitions(c: Core, plan: Plan) {
    forall b :: b in plan.bindings ==> b.definitionId in c.definitions || b.definitionId in IntroducedIds(plan.definitions)
  }

  /** What a plan for pairwise distinct obligations consists of. */
  ghost predicate PlanOf(c: Core, upsert: seq<Obligation>, plan: Plan) {
    && NewDefinitions(c, plan.definitions)
    && KnownDefinitions(c, plan)
    && NoRepeats(Nodes(plan.bindings))
    && (forall id :: id in Nodes(plan.bindings) ==> id in Ids(upsert))
  }

  lemma NewDefinitionsSnoc(c: Core, added: seq<Introduced>, d: Introduced)
    requires NewDefinitions(c, added) && d.id == Sha(d.definition) && d.id !in c.definitions && d.id !in IntroducedIds(added)
    ensures NewDefinitions(c, added + [d])
  {
    IntroducedSnoc(added, d);
    NoRepeatsSnoc(IntroducedIds(added), d.id);
  }

  lemma NodesSnocDistinct(bindings: seq<Binding>, b: Binding, ids: seq<ObligationId>)
    requires NoRepeats(Nodes(bindings)) && (forall id :: id in Nodes(bindings) ==> id in ids) && b.node !in ids
    ensures NoRepeats(Nodes(bindings + [b])) && forall id :: id in Nodes(bindings + [b]) ==> id in ids + [b.node]
  {
    NodesSnoc(bindings, b);
    NoRepeatsSnoc(Nodes(bindings), b.node);
  }

  lemma {:induction false} PlanIs(c: Core, upsert: seq<Obligation>)
    requires NoRepeats(Ids(upsert))
    ensures PlanOf(c, upsert, PlanUpserts(c, upsert))
    decreases |upsert|
  {
    if upsert != [] {
      var n := |upsert| - 1;
      var ids := Ids(upsert[..n]);
      assert Ids(upsert) == ids + [upsert[n].id];
      assert NoRepeats(ids) by {
        forall i, j | 0 <= i < j < |ids| ensures ids[i] != ids[j] {
          assert Ids(upsert)[i] == ids[i] && Ids(upsert)[j] == ids[j];
        }
      }
      assert upsert[n].id !in ids by {
        forall i | 0 <= i < |ids| ensures ids[i] != upsert[n].id {
          assert Ids(upsert)[i] == ids[i] && Ids(upsert)[|ids|] == upsert[n].id;
        }
      }
      PlanIs(c, upsert[..n]);
      PlanSnoc(c, upsert, PlanUpserts(c, upsert[..n]));
    }
  }

  lemma PlanSnoc(c: Core, upsert: seq<Obligation>, before: Plan)
    requires upsert != [] && before == PlanUpserts(c, upsert[..|upsert| - 1])
    requires PlanOf(c, upsert[..|upsert| - 1], before) && upsert[|upsert| - 1].id !in Ids(upsert[..|upsert| - 1])
    ensures PlanOf(c, upsert, PlanUpserts(c, upsert))
  {
    hide NoRepeats, NewDefinitions, Nodes, IntroducedIds;
    var last := upsert[|upsert| - 1];
    var d := Introduced(Sha(DefinitionOf(last)), DefinitionOf(last));
    NodesSnocDistinct(before.bindings, Binding(last.id, d.id), Ids(upsert[..|upsert| - 1]));
    if d.id !in c.definitions && d.id !in IntroducedIds(before.definitions) {
      NewDefinitionsSnoc(c, before.definitions, d);
      IntroducedSnoc(before.definitions, d);
    }
  }

  // ---------------------------------------------------------------- the reducer applies the plan

  lemma {:induction false} IntroduceAllOk(c: Core, added: seq<Introduced>)
    requires NoRepeats(IntroducedIds(added)) && (forall d :: d in IntroducedIds(added) ==> d !in c.definitions)
    ensures IntroduceAll(c, added).Ok?
    decreases |added|
  {
    if added != [] {
      var ids, rest := IntroducedIds(added), IntroducedIds(added[1..]);
      assert ids == [added[0].id] + rest;
      assert added[0].id in ids;
      forall d | d in rest ensures d in ids && d != added[0].id {
        var i :| 0 <= i < |rest| && rest[i] == d;
        assert ids[i + 1] == d && ids[0] == added[0].id;
      }
      forall i, j | 0 <= i < j < |rest| ensures rest[i] != rest[j] {
        assert ids[i + 1] == rest[i] && ids[j + 1] == rest[j];
      }
      IntroduceAllOk(c.(definitions := c.definitions[added[0].id := added[0].definition]), added[1..]);
    }
  }

  lemma {:induction false} RetireAllOk(c: Core, ids: seq<ObligationId>)
    requires NoRepeats(ids) && (forall id :: id in ids ==> id in c.obligations)
    ensures RetireAll(c, ids).Ok?
    decreases |ids|
  {
    if ids != [] {
      RetireAllOk(c.(obligations := c.obligations - {ids[0]}, definitionIds := c.definitionIds - {ids[0]},
                     bindingOrdinals := c.bindingOrdinals - {ids[0]}), ids[1..]);
    }
  }

  function Preimages(bound: map<ObligationId, DefinitionId>): Obligations {
    map id | id in bound :: Materialize(id, bound[id].preimage)
  }

  lemma PreimagesSnoc(obs: Obligations, bound: map<ObligationId, DefinitionId>, b: Binding)
    ensures (obs + Preimages(bound))[b.node := Materialize(b.node, b.definitionId.preimage)]
         == obs + Preimages(bound[b.node := b.definitionId])
  {
  }

  lemma {:induction false} PlannedIs(obs: Obligations, bindings: seq<Binding>)
    ensures PlannedObligations(obs, bindings) == obs + Preimages(Assigned(bindings))
    decreases |bindings|
  {
    if bindings == [] {
      assert Preimages(map[]) == map[];
    } else {
      var n := |bindings| - 1;
      PlannedIs(obs, bindings[..n]);
      AssignedSnoc(bindings[..n], bindings[n]);
      assert bindings[..n] + [bindings[n]] == bindings;
      PreimagesSnoc(obs, Assigned(bindings[..n]), bindings[n]);
    }
  }

  /** Under content-addressed ids, registering a definition and materializing it gives back the definition. */
  lemma MaterializedIs(bound: map<ObligationId, DefinitionId>, definitions: map<DefinitionId, Definition>)
    requires Registered(bound, definitions) && (forall d :: d in definitions ==> d == Sha(definitions[d]))
    ensures Materialized(bound, definitions) == Preimages(bound)
  {
    forall id | id in bound ensures Materialized(bound, definitions)[id] == Preimages(bound)[id] {
      assert bound[id] in definitions;
    }
  }

  lemma RetireCommutes(obs: Obligations, bound: Obligations, retire: set<ObligationId>)
    requires bound.Keys !! retire
    ensures (obs - retire) + bound == (obs + bound) - retire
  {
  }

  /** Applying the plan reaches exactly the state the writer validated. */
  lemma PlanReaches(c: Core, plan: Plan, retire: seq<ObligationId>, definitions: map<DefinitionId, Definition>)
    requires Registered(Assigned(plan.bindings), definitions) && (forall d :: d in definitions ==> d == Sha(definitions[d]))
    requires forall id :: id in Nodes(plan.bindings) ==> id !in retire
    ensures Rebound(Without(c.(definitions := definitions), Members(retire)), Assigned(plan.bindings)).obligations
         == PlannedObligations(c.obligations, plan.bindings) - (set id | id in retire)
  {
    var bound := Assigned(plan.bindings);
    AssignedKeys(plan.bindings);
    PlannedIs(c.obligations, plan.bindings);
    MaterializedIs(bound, definitions);
    RetireCommutes(c.obligations, Preimages(bound), Members(retire));
  }

  lemma SplitNoRepeats<T>(a: seq<T>, b: seq<T>)
    requires NoRepeats(a + b)
    ensures NoRepeats(a) && NoRepeats(b) && forall x :: x in a ==> x !in b
  {
    forall i, j | 0 <= i < j < |a| ensures a[i] != a[j] { assert (a + b)[i] == a[i] && (a + b)[j] == a[j]; }
    forall i, j | 0 <= i < j < |b| ensures b[i] != b[j] { assert (a + b)[|a| + i] == b[i] && (a + b)[|a| + j] == b[j]; }
    forall x | x in a ensures x !in b {
      var i :| 0 <= i < |a| && a[i] == x;
      forall j | 0 <= j < |b| ensures b[j] != x { assert (a + b)[i] == x && (a + b)[|a| + j] == b[j]; }
    }
  }

  lemma JoinNoRepeats<T>(a: seq<T>, b: seq<T>)
    requires NoRepeats(a) && NoRepeats(b) && forall x :: x in a ==> x !in b
    ensures NoRepeats(a + b)
  {
    forall i, j | 0 <= i < j < |a + b| ensures (a + b)[i] != (a + b)[j] {
      if i < |a| <= j { assert (a + b)[i] in a && (a + b)[j] in b; }
    }
  }

  /** The validator's verdict on a planned patch: only the spelling of the bound ids is left to check. */
  lemma PlanValidates(c: Core, upsert: seq<Obligation>, retire: seq<ObligationId>)
    requires NoRepeats(Ids(upsert) + retire) && "" !in Ids(upsert) + retire
    requires forall id :: id in retire ==> ValidId(id)
    requires PlanUpserts(c, upsert).bindings != [] || retire != []
    ensures var plan := PlanUpserts(c, upsert);
      PatchError(GraphPatch(plan.definitions, plan.bindings, retire)).None? <==> forall b :: b in plan.bindings ==> '\0' !in b.node
  {
    var plan := PlanUpserts(c, upsert);
    SplitNoRepeats(Ids(upsert), retire);
    PlanIs(c, upsert);
    JoinNoRepeats(Nodes(plan.bindings), retire);
    if forall b :: b in plan.bindings ==> '\0' !in b.node {
      forall id | id in Nodes(plan.bindings) + retire ensures ValidId(id) {
        if id in Nodes(plan.bindings) {
          var b := IsNodeOf(plan.bindings, id);
          assert id in Ids(upsert) + retire;
        }
      }
    } else {
      var b :| b in plan.bindings && '\0' in b.node;
      NodeOf(plan.bindings, b);
      assert b.node in Nodes(plan.bindings) + retire && !ValidId(b.node);
    }
  }

  /** The reducer's body accepts a planned patch and reaches the state the writer validated. */
  lemma PlanApplies(c: Core, upsert: seq<Obligation>, retire: seq<ObligationId>) returns (definitions: map<DefinitionId, Definition>)
    requires StateFacts(c) && NoRepeats(Ids(upsert) + retire) && (forall id :: id in retire ==> id in c.obligations)
    ensures var plan := PlanUpserts(c, upsert);
      && IntroduceAll(c, plan.definitions).Ok?
      && RetireAll(IntroduceAll(c, plan.definitions).value, retire).Ok?
      && Registered(Assigned(plan.bindings), definitions) && (forall d :: d in definitions ==> d == Sha(definitions[d]))
      && BindAll(RetireAll(IntroduceAll(c, plan.definitions).value, retire).value, plan.bindings)
         == Ok(Rebound(Without(c.(definitions := definitions), Members(retire)), Assigned(plan.bindings)))
      && Rebound(Without(c.(definitions := definitions), Members(retire)), Assigned(plan.bindings)).obligations
         == PlannedObligations(c.obligations, plan.bindings) - (set id | id in retire)
  {
    var plan := PlanUpserts(c, upsert);
    SplitNoRepeats(Ids(upsert), retire);
    PlanIs(c, upsert);
    IntroduceAllOk(c, plan.definitions);
    IntroduceAllIs(c, plan.definitions);
    var c1 := IntroduceAll(c, plan.definitions).value;
    definitions := c1.definitions;
    RetireAllOk(c1, retire);
    RetireAllIs(c1, retire);
    BindAllIs(RetireAll(c1, retire).value, plan.bindings);
    PlanReaches(c, plan, retire, definitions);
  }

  lemma PatchBody(c: Core, lives: Realizations, p: GraphPatch, bound: Core)
    requires !HasInFlight(lives) && IntroduceAll(c, p.definitions).Ok?
    requires RetireAll(IntroduceAll(c, p.definitions).value, p.retire).Ok?
    requires BindAll(RetireAll(IntroduceAll(c, p.definitions).value, p.retire).value, p.bindings) == Ok(bound)
    requires ValidGraph(bound.obligations)
    ensures PatchError(p).None? ==> PatchStep(c, Ok(lives), p) == Ok(bound)
    ensures PatchError(p).Some? ==> PatchStep(c, Ok(lives), p).Err?
  {
    hide HasInFlight, PatchError, ValidGraph, IntroduceAll, RetireAll, BindAll;
  }

  lemma AdmissibleIsValid(obs: Obligations)
    ensures Admissible(obs) ==> ValidGraph(obs)
  {
  }

  lemma DecidedPatch(c: Core, lives: Realizations, upsert: seq<Obligation>, retire: seq<ObligationId>)
    requires DecidePatch(c, lives, upsert, retire).Ok?
    ensures !HasInFlight(lives) && "" !in Ids(upsert) + retire && NoRepeats(Ids(upsert) + retire)
    ensures forall id :: id in retire ==> id in c.obligations
    ensures PlanUpserts(c, upsert).bindings != [] || retire != []
    ensures Admissible(PlannedObligations(c.obligations, PlanUpserts(c, upsert).bindings) - (set id | id in retire))
    ensures DecidePatch(c, lives, upsert, retire).value ==
      Blank.(patch := Some(GraphPatch(PlanUpserts(c, upsert).definitions, PlanUpserts(c, upsert).bindings, retire)))
  {
    hide Admissible, HasInFlight, NoRepeats, PlanUpserts, Ids, PlannedObligations;
  }

  /** The writer's patch is accepted exactly when every id it binds is free of NUL, and it then reaches an
      admissible graph. */
  lemma PatchAcceptedIff(c: Core, lives: Realizations, upsert: seq<Obligation>, retire: seq<ObligationId>)
    requires StateInv(c) && DecidePatch(c, lives, upsert, retire).Ok?
    ensures var p := DecidePatch(c, lives, upsert, retire).value.patch.value;
      && (PatchStep(c, Ok(lives), p).Ok? <==> forall b :: b in PlanUpserts(c, upsert).bindings ==> '\0' !in b.node)
      && (PatchStep(c, Ok(lives), p).Ok? ==> Admissible(PatchStep(c, Ok(lives), p).value.obligations))
  {
    hide Admissible, HasInFlight, PatchError, ValidGraph, DecidePatch, PatchStep, PlanUpserts, NoRepeats, Ids, PlannedObligations;
    hide IntroduceAll, RetireAll, BindAll, Rebound, Assigned, Registered;
    DecidedPatch(c, lives, upsert, retire);
    PlanValidates(c, upsert, retire);
    var definitions := PlanApplies(c, upsert, retire);
    var bound := Rebound(Without(c.(definitions := definitions), Members(retire)), Assigned(PlanUpserts(c, upsert).bindings));
    AdmissibleIsValid(bound.obligations);
    PatchBody(c, lives, DecidePatch(c, lives, upsert, retire).value.patch.value, bound);
  }
}
