/** When `patchGraph` decides to write, and what it writes, in terms of the graph the caller asks for (src/authority/engine.ts:660-777). */
module PatchDecisions {
  import opened Facts
  import opened Graph
  import opened Lifecycles
  import opened Replay
  import opened Invariants
  import opened Engine
  import opened StaticEffects
  import opened PatchPlanning
  import opened Writer
  import opened Statuses
  import opened Acceptance
  import opened Admission
  import opened ExecutionAuthority

  /** The graph the caller asks for: the upserts as given, everything else as it is, without what is retired. */
  ghost predicate Asked(c: Core, upsert: seq<Obligation>, retire: seq<ObligationId>, obs: Obligations) {
    && (forall id :: id in obs <==> (id in c.obligations || Upserted(upsert, id)) && id !in retire)
    && (forall u :: u in upsert && u.id in obs ==> obs[u.id] == u)
    && (forall id :: id in obs && !Upserted(upsert, id) ==> id in c.obligations && obs[id] == c.obligations[id])
  }

  ghost predicate Upserted(upsert: seq<Obligation>, id: ObligationId) { exists u :: u in upsert && u.id == id }

  /** The graph can be ordered, what its semantic edges consume is available, and it has no unordered conflict. */
  ghost predicate MayAdmit(obs: Obligations) {
    && (exists order :: TopologicalOrder(obs, order))
    && (forall id, d :: id in obs && d in obs[id].dependencies ==> EdgeAvailable(obs, d))
    && forall a, b :: !ConflictingPair(obs, a, b)
  }

  /** No id is empty or named twice. */
  ghost predicate Distinct(upsert: seq<Obligation>, retire: seq<ObligationId>) {
    && (forall i, j :: 0 <= i < j < |upsert| ==> upsert[i].id != upsert[j].id)
    && (forall i, j :: 0 <= i < j < |retire| ==> retire[i] != retire[j])
    && (forall u :: u in upsert ==> u.id != "" && u.id !in retire) && "" !in retire
  }

  /** The upsert is bound already, as given. */
  predicate Unchanged(c: Core, u: Obligation) { u.id in c.obligations && c.obligations[u.id] == u }

  // ---------------------------------------------------------------- ids

  lemma {:induction false} IdsAre(upsert: seq<Obligation>)
    ensures |Ids(upsert)| == |upsert| && forall i :: 0 <= i < |upsert| ==> Ids(upsert)[i] == upsert[i].id
    decreases |upsert|
  {
    if upsert != [] { IdsAre(upsert[..|upsert| - 1]); }
  }

  lemma DistinctIff(upsert: seq<Obligation>, retire: seq<ObligationId>)
    ensures NoRepeats(Ids(upsert) + retire) && "" !in Ids(upsert) + retire <==> Distinct(upsert, retire)
  {
    IdsAre(upsert);
    var ids := Ids(upsert);
    if NoRepeats(ids + retire) && "" !in ids + retire {
      SplitNoRepeats(ids, retire);
      forall u | u in upsert ensures u.id in ids { var i :| 0 <= i < |upsert| && upsert[i] == u; assert ids[i] == u.id; }
      forall i, j | 0 <= i < j < |upsert| ensures upsert[i].id != upsert[j].id { assert ids[i] != ids[j]; }
    }
    if Distinct(upsert, retire) {
      forall x | x in ids ensures x != "" && x !in retire { var i :| 0 <= i < |ids| && ids[i] == x; assert upsert[i] in upsert; }
      JoinNoRepeats(ids, retire);
    }
  }

  // ---------------------------------------------------------------- the planned graph

  lemma UpsertedSnoc(upsert: seq<Obligation>, id: ObligationId)
    requires upsert != []
    ensures var n := |upsert| - 1; Upserted(upsert, id) <==> Upserted(upsert[..n], id) || upsert[n].id == id
  {
    var n := |upsert| - 1;
    assert upsert == upsert[..n] + [upsert[n]];
    assert upsert[n] in upsert;
  }

  lemma UnchangedIff(c: Core, u: Obligation)
    requires StateFacts(c)
    ensures u.id in c.definitionIds && c.definitionIds[u.id] == Sha(DefinitionOf(u)) <==> Unchanged(c, u)
  {
    if u.id in c.definitionIds { assert c.obligations[u.id] == Materialize(u.id, c.definitionIds[u.id].preimage); }
  }

  /** The plan leads to the graph the upserts ask for. */
  lemma {:induction false} PlannedAsAsked(c: Core, upsert: seq<Obligation>)
    requires StateFacts(c) && forall i, j :: 0 <= i < j < |upsert| ==> upsert[i].id != upsert[j].id
    ensures Asked(c, upsert, [], PlannedObligations(c.obligations, PlanUpserts(c, upsert).bindings))
    decreases |upsert|
  {
    hide StateFacts, Unchanged, Upserted, PlanUpserts;
    if upsert == [] {
      NoneAsked(c);
    } else {
      var n := |upsert| - 1;
      PlannedAsAsked(c, upsert[..n]);
      UnchangedIff(c, upsert[n]);
      var before := PlannedObligations(c.obligations, PlanUpserts(c, upsert[..n]).bindings);
      var after := PlannedObligations(c.obligations, PlanUpserts(c, upsert).bindings);
      PlannedOneMore(c, upsert, before);
      AskedOneMore(c, upsert, before, after);
    }
  }

  /** Nothing is bound anew exactly if every upsert is bound already, as given. */
  lemma {:induction false} NothingPlanned(c: Core, upsert: seq<Obligation>)
    requires StateFacts(c)
    ensures PlanUpserts(c, upsert).bindings == [] <==> forall u :: u in upsert ==> Unchanged(c, u)
    decreases |upsert|
  {
    hide StateFacts, Unchanged, IntroducedIds;
    if upsert != [] {
      var n := |upsert| - 1;
      NothingPlanned(c, upsert[..n]);
      UnchangedIff(c, upsert[n]);
      assert upsert == upsert[..n] + [upsert[n]] && upsert[n] in upsert;
    }
  }

  lemma NoneAsked(c: Core)
    ensures Asked(c, [], [], PlannedObligations(c.obligations, PlanUpserts(c, []).bindings))
  {
  }

  lemma PlannedOneMore(c: Core, upsert: seq<Obligation>, before: Obligations)
    requires upsert != [] && before == PlannedObligations(c.obligations, PlanUpserts(c, upsert[..|upsert| - 1]).bindings)
    ensures var u := upsert[|upsert| - 1];
      PlannedObligations(c.obligations, PlanUpserts(c, upsert).bindings) ==
        if u.id in c.definitionIds && c.definitionIds[u.id] == Sha(DefinitionOf(u)) then before else before[u.id := u]
  {
    hide IntroducedIds;
    var u := upsert[|upsert| - 1];
    var bindings := PlanUpserts(c, upsert[..|upsert| - 1]).bindings;
    assert (bindings + [Binding(u.id, Sha(DefinitionOf(u)))])[..|bindings|] == bindings;
    assert Materialize(u.id, DefinitionOf(u)) == u;
  }

  lemma AskedOneMore(c: Core, upsert: seq<Obligation>, before: Obligations, after: Obligations)
    requires upsert != [] && (forall i, j :: 0 <= i < j < |upsert| ==> upsert[i].id != upsert[j].id)
    requires Asked(c, upsert[..|upsert| - 1], [], before)
    requires var u := upsert[|upsert| - 1]; after == if Unchanged(c, u) then before else before[u.id := u]
    ensures Asked(c, upsert, [], after)
  {
    hide Upserted;
    var n := |upsert| - 1;
    var u := upsert[n];
    forall id ensures Upserted(upsert, id) <==> Upserted(upsert[..n], id) || u.id == id { UpsertedSnoc(upsert, id); }
    assert upsert == upsert[..n] + [u];
    assert !Upserted(upsert[..n], u.id) by { LastIsNew(upsert); }
    forall x | x in upsert && x.id in after ensures after[x.id] == x {
      if x.id != u.id { assert x in upsert[..n]; } else { OneOfId(upsert, x); }
    }
  }

  lemma LastIsNew(upsert: seq<Obligation>)
    requires upsert != [] && (forall i, j :: 0 <= i < j < |upsert| ==> upsert[i].id != upsert[j].id)
    ensures !Upserted(upsert[..|upsert| - 1], upsert[|upsert| - 1].id)
  {
  }

  lemma OneOfId(upsert: seq<Obligation>, x: Obligation)
    requires upsert != [] && (forall i, j :: 0 <= i < j < |upsert| ==> upsert[i].id != upsert[j].id)
    requires x in upsert && x.id == upsert[|upsert| - 1].id
    ensures x == upsert[|upsert| - 1]
  {
    var i :| 0 <= i < |upsert| && upsert[i] == x;
  }

  lemma AskedWithout(c: Core, upsert: seq<Obligation>, retire: seq<ObligationId>, obs: Obligations)
    requires Asked(c, upsert, [], obs)
    ensures Asked(c, upsert, retire, obs - (set id | id in retire))
  {
    hide Upserted;
  }

  lemma AskedOne(c: Core, upsert: seq<Obligation>, retire: seq<ObligationId>, a: Obligations, b: Obligations)
    requires Asked(c, upsert, retire, a) && Asked(c, upsert, retire, b)
    ensures a == b
  {
    forall id | id in a ensures id in b && a[id] == b[id] {
      if Upserted(upsert, id) { var u :| u in upsert && u.id == id; }
    }
    assert a.Keys == b.Keys;
  }

  lemma AdmissibleIff(obs: Obligations)
    ensures Admissible(obs) <==> MayAdmit(obs)
  {
    hide ValidGraph, TopologicalOrder, SemanticEdgesAvailable, EdgeAvailable, ConflictingPair, HasConflict;
    ValidIffOrdered(obs);
    AvailableIff(obs);
    forall id ensures HasConflict(obs, id) <==> exists b :: ConflictingPair(obs, id, b) { PairsBound(obs, id); }
    forall a, b | ConflictingPair(obs, a, b) ensures a in obs { PairsBound(obs, a); }
  }

  /** A patch is decided exactly when no run of a current meaning is open, no id is empty or named twice, only bound obligations
      are retired, something changes, and the graph asked for may be admitted. */
  lemma PatchDecidedIff(c: Core, lives: Realizations, upsert: seq<Obligation>, retire: seq<ObligationId>)
    requires Inv(c) && Projects(c, lives)
    ensures DecidePatch(c, lives, upsert, retire).Ok? <==>
      && (forall run :: MeansNow(c, run) ==> !IsOpen(c, run)) && Distinct(upsert, retire) && (forall id :: id in retire ==> id in c.obligations)
      && (retire != [] || exists u :: u in upsert && !Unchanged(c, u))
      && forall obs :: Asked(c, upsert, retire, obs) ==> MayAdmit(obs)
  {
    hide RunsInv, StateInv, Lives, MeansNow, IsOpen, HasInFlight, Distinct, Admissible, MayAdmit, PlanUpserts, PlannedObligations, Ids, NoRepeats, Asked, Unchanged;
    QuietIff(c);
    DistinctIff(upsert, retire);
    if Distinct(upsert, retire) {
      StateIsFacts(c);
      DistinctUpserts(upsert, retire);
      PlannedAsAsked(c, upsert);
      NothingPlanned(c, upsert);
      var planned := PlannedObligations(c.obligations, PlanUpserts(c, upsert).bindings);
      var obs := planned - (set id | id in retire);
      AskedWithout(c, upsert, retire, planned);
      AdmissibleIff(obs);
      forall other | Asked(c, upsert, retire, other) ensures other == obs { AskedOne(c, upsert, retire, other, obs); }
    }
  }

  lemma StateIsFacts(c: Core)
    requires Inv(c)
    ensures StateFacts(c)
  {
  }

  lemma DistinctUpserts(upsert: seq<Obligation>, retire: seq<ObligationId>)
    requires Distinct(upsert, retire)
    ensures forall i, j :: 0 <= i < j < |upsert| ==> upsert[i].id != upsert[j].id
  {
  }

  /** What is decided is a patch and nothing else, and the graph it leaves is the one asked for. */
  lemma PatchWritesAsked(c: Core, lives: Realizations, upsert: seq<Obligation>, retire: seq<ObligationId>, obs: Obligations)
    requires Inv(c) && DecidePatch(c, lives, upsert, retire).Ok?
    ensures var draft := DecidePatch(c, lives, upsert, retire).value;
      draft.patch.Some? && draft == Blank.(patch := draft.patch) && (Leaves(c, draft.patch.value, obs) <==> Asked(c, upsert, retire, obs))
  {
    hide RunsInv, HasInFlight, Distinct, Admissible, PlanUpserts, PlannedObligations, Ids, NoRepeats, Asked, Unchanged, Leaves, Registered, Assigned, Rebound, IntroduceAll, RetireAll, BindAll;
    DistinctIff(upsert, retire);
    StateIsFacts(c);
    DistinctUpserts(upsert, retire);
    PlannedAsAsked(c, upsert);
    var plan := PlanUpserts(c, upsert);
    var planned := PlannedObligations(c.obligations, plan.bindings);
    AskedWithout(c, upsert, retire, planned);
    var p := DecidePatch(c, lives, upsert, retire).value.patch.value;
    var definitions := PlanApplies(c, upsert, retire);
    assert NoRepeats(Nodes(plan.bindings)) by { SplitNoRepeats(Ids(upsert), retire); PlanIs(c, upsert); }
    ReboundLeaves(c, p, definitions);
    var left := planned - (set id | id in retire);
    if Asked(c, upsert, retire, obs) { AskedOne(c, upsert, retire, obs, left); }
    if Leaves(c, p, obs) { LeavesOne(c, p, left, obs); }
  }

  /** Only a patch changes the graph, and it leaves exactly the graph it describes. */
  lemma PatchLeaves(o: Oracle, c: Core, r: Record)
    requires Inv(c) && Step(o, c, r).Ok?
    ensures r.patch.None? ==> Step(o, c, r).value.obligations == c.obligations
    ensures r.patch.Some? ==> Leaves(c, r.patch.value, Step(o, c, r).value.obligations)
  {
    hide Step, AfterPatch, Inv, Leaves;
    var c1, c2 := StagedRuns(o, c, r);
    BumpKeeps(c);
    PatchedGraph(Bump(c), r);
    LeavesBumped(c, r, c1.obligations);
  }

  lemma PatchedGraph(c: Core, r: Record)
    requires Inv(c) && AfterPatch(c, r).Ok?
    ensures r.patch.None? ==> AfterPatch(c, r).value.obligations == c.obligations
    ensures r.patch.Some? ==> Leaves(c, r.patch.value, AfterPatch(c, r).value.obligations)
  {
    hide Lives, RunsInv, StateInv, HasInFlight, PatchError, WellFormed, IntroduceAll, RetireAll, BindAll, ValidGraph, Leaves;
    if r.patch.Some? {
      PatchErrorIff(r.patch.value);
      AppliedLeaves(c, r.patch.value);
    }
  }

  lemma LeavesBumped(c: Core, r: Record, obs: Obligations)
    ensures r.patch.Some? ==> (Leaves(Bump(c), r.patch.value, obs) <==> Leaves(c, r.patch.value, obs))
  {
  }
}
