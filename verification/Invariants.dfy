/** What every history the reducer accepts keeps (src/authority/replay.ts:181-434). */
module Invariants {
  import opened Facts
  import opened Graph
  import opened Lifecycles
  import opened Replay

  // ---------------------------------------------------------------- the invariants

  /** Runs are listed once, in the order of their claim ordinals. */
  ghost predicate OrderInv(order: seq<RunId>, ids: set<RunId>, ordinals: map<RunId, nat>, ordinal: nat) {
    && ordinals.Keys == ids
    && (forall r :: r in order ==> r in ids)
    && (forall r :: r in ids ==> r in order)
    && (forall r :: r in ordinals ==> ordinals[r] <= ordinal)
    && (forall i, j :: 0 <= i < j < |order| && order[i] in ordinals && order[j] in ordinals ==> ordinals[order[i]] < ordinals[order[j]])
  }

  /** A run is stored under its id and keeps a copy of the obligation it was claimed for. */
  ghost predicate RunsNamed(runs: map<RunId, Run>) {
    forall r :: r in runs ==> runs[r].id == r && runs[r].obligation.id == runs[r].obligationId
  }

  /** Each obligation is the materialization of its registered definition. */
  ghost predicate StateFacts(c: Core) {
    && c.obligations.Keys == c.definitionIds.Keys == c.bindingOrdinals.Keys
    && (forall d :: d in c.definitions ==> d == Sha(c.definitions[d]))
    && (forall id :: id in c.obligations ==>
          c.definitionIds[id] in c.definitions && c.obligations[id] == Materialize(id, c.definitions[c.definitionIds[id]]))
    && (forall id :: id in c.bindingOrdinals ==> c.bindingOrdinals[id] <= c.ordinal)
  }

  /** The bound graph is valid and its ids are well formed. */
  ghost predicate StateInv(c: Core) {
    StateFacts(c) && ValidGraph(c.obligations) && forall id :: id in c.obligations ==> ValidId(id)
  }

  ghost predicate SameMeaning(runs: map<RunId, Run>, a: RunId, b: RunId) {
    a in runs && b in runs && runs[a].obligationId == runs[b].obligationId && runs[a].key == runs[b].key
  }

  ghost predicate Earlier(ordinals: map<RunId, nat>, a: RunId, b: RunId) {
    a in ordinals && b in ordinals && ordinals[a] < ordinals[b]
  }

  predicate IsReady(latest: map<RunId, Receipt>, r: RunId) {
    r in latest && latest[r].disposition == DispositionReady
  }

  /** One live run per meaning: every run but the newest of its (obligation, key) is settled READY. */
  ghost predicate OneLiveRun(runs: map<RunId, Run>, ordinals: map<RunId, nat>, latest: map<RunId, Receipt>) {
    forall a, b :: SameMeaning(runs, a, b) && Earlier(ordinals, a, b) ==> IsReady(latest, a)
  }

  /** A run with an unresolved reservation has no terminal receipt. */
  ghost predicate HeldOpen(unresolved: map<RunId, Held>, latest: map<RunId, Receipt>) {
    forall r :: r in unresolved && r in latest ==> !Terminal(latest[r].disposition)
  }

  /** A held reservation names its run, and its generation is not newer than the run's. */
  ghost predicate HeldBound(unresolved: map<RunId, Held>, runs: map<RunId, Run>) {
    forall r :: r in unresolved ==>
      r in runs && unresolved[r].fact.runId == r && unresolved[r].fact.generation <= runs[r].generation
  }

  ghost predicate RunsInv(c: Core) {
    && OrderInv(c.order, c.runs.Keys, c.claimOrdinals, c.ordinal)
    && RunsNamed(c.runs)
    && c.latest.Keys <= c.runs.Keys
    && OneLiveRun(c.runs, c.claimOrdinals, c.latest)
    && HeldOpen(c.unresolved, c.latest)
    && HeldBound(c.unresolved, c.runs)
  }

  ghost predicate Inv(c: Core) { RunsInv(c) && StateInv(c) }

  /** No run was claimed by the record being processed. */
  ghost predicate ClaimsEarlier(c: Core) {
    forall r :: r in c.claimOrdinals ==> c.claimOrdinals[r] < c.ordinal
  }

  // ---------------------------------------------------------------- graph patches

  lemma {:induction false} IntroduceAllIs(c: Core, added: seq<Introduced>)
    requires IntroduceAll(c, added).Ok?
    requires forall d :: d in c.definitions ==> d == Sha(c.definitions[d])
    requires forall d :: d in added ==> d.id == Sha(d.definition)
    ensures var c' := IntroduceAll(c, added).value;
      && c' == c.(definitions := c'.definitions)
      && (forall d :: d in c'.definitions <==> d in c.definitions || d in IntroducedIds(added))
      && (forall d :: d in c'.definitions ==> d == Sha(c'.definitions[d]))
    decreases |added|
  {
    if added != [] {
      var c1 := c.(definitions := c.definitions[added[0].id := added[0].definition]);
      assert added[0] in added;
      IntroduceAllIs(c1, added[1..]);
    }
  }

  function Members<T>(s: seq<T>): set<T> { set x | x in s }

  function Without(c: Core, ids: set<ObligationId>): Core {
    c.(obligations := c.obligations - ids, definitionIds := c.definitionIds - ids, bindingOrdinals := c.bindingOrdinals - ids)
  }

  lemma {:induction false} RetireAllIs(c: Core, ids: seq<ObligationId>)
    requires RetireAll(c, ids).Ok?
    ensures RetireAll(c, ids).value == Without(c, Members(ids))
    decreases |ids|
  {
    if ids == [] {
      assert Members(ids) == {};
    } else {
      var c1 := c.(obligations := c.obligations - {ids[0]},
                   definitionIds := c.definitionIds - {ids[0]},
                   bindingOrdinals := c.bindingOrdinals - {ids[0]});
      RetireAllIs(c1, ids[1..]);
      assert Members(ids) == {ids[0]} + Members(ids[1..]);
    }
  }

  /** The definition each node ends up bound to. */
  function Assigned(bindings: seq<Binding>): map<ObligationId, DefinitionId> {
    if bindings == [] then map[] else map[bindings[0].node := bindings[0].definitionId] + Assigned(bindings[1..])
  }

  ghost predicate Registered(bound: map<ObligationId, DefinitionId>, definitions: map<DefinitionId, Definition>) {
    forall id :: id in bound ==> bound[id] in definitions
  }

  ghost function Materialized(bound: map<ObligationId, DefinitionId>, definitions: map<DefinitionId, Definition>): Obligations
    requires Registered(bound, definitions)
  {
    map id | id in bound :: Materialize(id, definitions[bound[id]])
  }

  function Stamped(bound: map<ObligationId, DefinitionId>, ordinal: nat): map<ObligationId, nat> {
    map id | id in bound :: ordinal
  }

  ghost function Rebound(c: Core, bound: map<ObligationId, DefinitionId>): Core
    requires Registered(bound, c.definitions)
  {
    c.(obligations := c.obligations + Materialized(bound, c.definitions),
       definitionIds := c.definitionIds + bound,
       bindingOrdinals := c.bindingOrdinals + Stamped(bound, c.ordinal))
  }

  lemma MaterializedTwice(obs: Obligations, first: map<ObligationId, DefinitionId>, rest: map<ObligationId, DefinitionId>,
                          definitions: map<DefinitionId, Definition>)
    requires Registered(first, definitions) && Registered(rest, definitions)
    ensures Registered(first + rest, definitions)
    ensures (obs + Materialized(first, definitions)) + Materialized(rest, definitions) == obs + Materialized(first + rest, definitions)
  {
  }

  lemma StampedTwice(m: map<ObligationId, nat>, first: map<ObligationId, DefinitionId>, rest: map<ObligationId, DefinitionId>, n: nat)
    ensures (m + Stamped(first, n)) + Stamped(rest, n) == m + Stamped(first + rest, n)
  {
  }

  lemma ReboundTwice(c: Core, first: map<ObligationId, DefinitionId>, rest: map<ObligationId, DefinitionId>)
    requires Registered(first, c.definitions) && Registered(rest, c.definitions)
    ensures Registered(first + rest, c.definitions)
    ensures Rebound(Rebound(c, first), rest) == Rebound(c, first + rest)
  {
    MaterializedTwice(c.obligations, first, rest, c.definitions);
    StampedTwice(c.bindingOrdinals, first, rest, c.ordinal);
    assert (c.definitionIds + first) + rest == c.definitionIds + (first + rest);
  }

  lemma ReboundOne(c: Core, b: Binding)
    requires b.definitionId in c.definitions
    ensures Rebound(c, map[b.node := b.definitionId]) ==
      c.(obligations := c.obligations[b.node := Materialize(b.node, c.definitions[b.definitionId])],
         definitionIds := c.definitionIds[b.node := b.definitionId],
         bindingOrdinals := c.bindingOrdinals[b.node := c.ordinal])
  {
    var bound := map[b.node := b.definitionId];
    assert c.definitionIds + bound == c.definitionIds[b.node := b.definitionId];
    assert c.obligations + Materialized(bound, c.definitions)
        == c.obligations[b.node := Materialize(b.node, c.definitions[b.definitionId])];
    assert c.bindingOrdinals + Stamped(bound, c.ordinal) == c.bindingOrdinals[b.node := c.ordinal];
  }

  lemma {:induction false} BindAllIs(c: Core, bindings: seq<Binding>)
    ensures BindAll(c, bindings).Ok? <==> forall b :: b in bindings ==> b.definitionId in c.definitions
    ensures BindAll(c, bindings).Ok? ==>
      Registered(Assigned(bindings), c.definitions) && BindAll(c, bindings).value == Rebound(c, Assigned(bindings))
    decreases |bindings|
  {
    if bindings == [] {
      assert Rebound(c, map[]).obligations == c.obligations;
      assert Rebound(c, map[]).definitionIds == c.definitionIds;
      assert Rebound(c, map[]).bindingOrdinals == c.bindingOrdinals;
    } else {
      var b := bindings[0];
      assert b in bindings;
      if b.definitionId in c.definitions {
        ReboundOne(c, b);
        var c1 := Rebound(c, map[b.node := b.definitionId]);
        BindAllIs(c1, bindings[1..]);
        if BindAll(c1, bindings[1..]).Ok? {
          ReboundTwice(c, map[b.node := b.definitionId], Assigned(bindings[1..]));
        }
      }
    }
  }

  lemma {:induction false} AssignedKeys(bindings: seq<Binding>)
    ensures forall id :: id in Assigned(bindings) <==> id in Nodes(bindings)
    decreases |bindings|
  {
    if bindings != [] {
      AssignedKeys(bindings[1..]);
    }
  }

  /** A successful patch, field by field. */
  lemma PatchIs(c: Core, now: Refreshed, p: GraphPatch) returns (added: map<DefinitionId, Definition>)
    requires PatchStep(c, now, p).Ok?
    requires forall d :: d in c.definitions ==> d == Sha(c.definitions[d])
    ensures forall d :: d in added <==> d in c.definitions || d in IntroducedIds(p.definitions)
    ensures forall d :: d in added ==> d == Sha(added[d])
    ensures Registered(Assigned(p.bindings), added)
    ensures forall id :: id in Assigned(p.bindings) ==> ValidId(id)
    ensures PatchStep(c, now, p).value == Rebound(Without(c.(definitions := added), Members(p.retire)), Assigned(p.bindings))
    ensures ValidGraph(Rebound(Without(c.(definitions := added), Members(p.retire)), Assigned(p.bindings)).obligations)
  {
    var c1 := IntroduceAll(c, p.definitions).value;
    IntroduceAllIs(c, p.definitions);
    added := c1.definitions;
    RetireAllIs(c1, p.retire);
    BindAllIs(RetireAll(c1, p.retire).value, p.bindings);
    AssignedKeys(p.bindings);
    forall id | id in Assigned(p.bindings) ensures ValidId(id) { assert id in Nodes(p.bindings) + p.retire; }
  }

  /** Retiring and rebinding keep the obligations the materializations of registered definitions. */
  lemma ReboundRegistered(c: Core, retire: set<ObligationId>, bound: map<ObligationId, DefinitionId>, id: ObligationId)
    requires StateFacts(c) && Registered(bound, c.definitions)
    requires id in Rebound(Without(c, retire), bound).obligations
    ensures var c' := Rebound(Without(c, retire), bound);
      && id in c'.definitionIds && c'.definitionIds[id] in c'.definitions
      && c'.obligations[id] == Materialize(id, c'.definitions[c'.definitionIds[id]])
      && id in c'.bindingOrdinals && c'.bindingOrdinals[id] <= c'.ordinal
      && (id in c.obligations || id in bound)
  {
    if id in bound {
      assert Materialized(bound, c.definitions)[id] == Materialize(id, c.definitions[bound[id]]);
      assert Stamped(bound, c.ordinal)[id] == c.ordinal;
    }
  }

  lemma ReboundKeys(c: Core, retire: set<ObligationId>, bound: map<ObligationId, DefinitionId>)
    requires StateFacts(c) && Registered(bound, c.definitions)
    ensures var c' := Rebound(Without(c, retire), bound);
      c'.obligations.Keys == c'.definitionIds.Keys == c'.bindingOrdinals.Keys == c.obligations.Keys - retire + bound.Keys
  {
    assert Materialized(bound, c.definitions).Keys == bound.Keys;
    assert Stamped(bound, c.ordinal).Keys == bound.Keys;
  }

  lemma ReboundStateFacts(c: Core, retire: set<ObligationId>, bound: map<ObligationId, DefinitionId>)
    requires StateFacts(c) && Registered(bound, c.definitions)
    ensures StateFacts(Rebound(Without(c, retire), bound))
  {
    var c' := Rebound(Without(c, retire), bound);
    ReboundKeys(c, retire, bound);
    forall id | id in c'.obligations
      ensures c'.definitionIds[id] in c'.definitions && c'.bindingOrdinals[id] <= c'.ordinal
      ensures c'.obligations[id] == Materialize(id, c'.definitions[c'.definitionIds[id]])
    {
      ReboundRegistered(c, retire, bound, id);
    }
  }

  /** The patched state satisfies the state invariant once its graph has been validated. */
  lemma ReboundKeepsState(c: Core, retire: set<ObligationId>, bound: map<ObligationId, DefinitionId>)
    requires StateFacts(c) && Registered(bound, c.definitions)
    requires forall id :: id in c.obligations || id in bound ==> ValidId(id)
    requires ValidGraph(Rebound(Without(c, retire), bound).obligations)
    ensures StateInv(Rebound(Without(c, retire), bound))
  {
    ReboundStateFacts(c, retire, bound);
    ReboundKeys(c, retire, bound);
  }

  ghost predicate SameRuns(c: Core, c': Core) {
    && c'.order == c.order && c'.runs == c.runs && c'.latest == c.latest && c'.unresolved == c.unresolved
    && c'.claimOrdinals == c.claimOrdinals && c'.ordinal == c.ordinal && c'.receipts == c.receipts
  }

  lemma PatchKeeps(c: Core, now: Refreshed, p: GraphPatch)
    requires StateInv(c) && PatchStep(c, now, p).Ok?
    ensures StateInv(PatchStep(c, now, p).value)
    ensures SameRuns(c, PatchStep(c, now, p).value)
  {
    var added := PatchIs(c, now, p);
    ReboundKeepsState(c.(definitions := added), Members(p.retire), Assigned(p.bindings));
  }

  // ---------------------------------------------------------------- claims

  /** The projection a step reads was derived from the state it acts on. */
  ghost predicate Current(c: Core, now: Refreshed) {
    now.Ok? ==> Solves(ViewOf(c), now.value)
  }

  /** Before a claim every run of the claimed meaning is settled READY. */
  lemma ClaimFindsReady(c: Core, id: ObligationId, key: Key, r: RunId)
    requires RunsInv(c) && Candidate(ViewOf(c), r, id, key)
    requires LastCandidate(ViewOf(c), c.order, id, key).Some? ==> IsReady(c.latest, LastCandidate(ViewOf(c), c.order, id, key).value)
    ensures IsReady(c.latest, r)
  {
    LastCandidateIs(ViewOf(c), c.order, id, key);
    var i :| 0 <= i < |c.order| && c.order[i] == r;
    var last := LastCandidate(ViewOf(c), c.order, id, key).value;
    var j :| 0 <= j < |c.order| && c.order[j] == last && Candidate(ViewOf(c), last, id, key)
      && forall k :: j < k < |c.order| ==> !Candidate(ViewOf(c), c.order[k], id, key);
    if i < j {
      assert SameMeaning(c.runs, r, last) && Earlier(c.claimOrdinals, r, last);
    }
  }

  lemma ClaimKeepsOrder(order: seq<RunId>, ids: set<RunId>, ordinals: map<RunId, nat>, ordinal: nat, run: RunId)
    requires OrderInv(order, ids, ordinals, ordinal) && run !in ids
    requires forall r :: r in ordinals ==> ordinals[r] < ordinal
    ensures OrderInv(order + [run], ids + {run}, ordinals[run := ordinal], ordinal)
  {
    assert (order + [run])[|order|] == run;
    forall r | r in ids + {run} ensures r in order + [run] { }
  }

  lemma ClaimKeepsOneLive(c: Core, run: Run)
    requires OneLiveRun(c.runs, c.claimOrdinals, c.latest) && run.id !in c.runs && ClaimsEarlier(c)
    requires forall r :: Candidate(ViewOf(c), r, run.obligationId, run.key) ==> IsReady(c.latest, r)
    ensures OneLiveRun(c.runs[run.id := run], c.claimOrdinals[run.id := c.ordinal], c.latest)
  {
    var runs, ordinals := c.runs[run.id := run], c.claimOrdinals[run.id := c.ordinal];
    forall a, b | SameMeaning(runs, a, b) && Earlier(ordinals, a, b) ensures IsReady(c.latest, a) {
      if b == run.id {
        assert Candidate(ViewOf(c), a, run.obligationId, run.key);
      } else {
        assert SameMeaning(c.runs, a, b) && Earlier(c.claimOrdinals, a, b);
      }
    }
  }

  /** A claim is accepted only while the meaning has no live run. */
  lemma ClaimedMeaningIsFree(c: Core, now: Refreshed, r: Record, claim: Claim)
    requires Named(c.obligations) && Current(c, now) && ClaimStep(c, now, r, claim).Ok?
    ensures LastCandidate(ViewOf(c), c.order, claim.obligationId, claim.key).Some? ==>
      IsReady(c.latest, LastCandidate(ViewOf(c), c.order, claim.obligationId, claim.key).value)
  {
    UnrealizedFacts(ViewOf(c), now.value, claim.obligationId);
  }

  lemma WithRunKeeps(c: Core, run: Run)
    requires RunsInv(c) && ClaimsEarlier(c) && run.id !in c.runs && run.obligation.id == run.obligationId
    requires LastCandidate(ViewOf(c), c.order, run.obligationId, run.key).Some? ==>
      IsReady(c.latest, LastCandidate(ViewOf(c), c.order, run.obligationId, run.key).value)
    ensures RunsInv(WithRun(c, run))
  {
    ClaimKeepsOrder(c.order, c.runs.Keys, c.claimOrdinals, c.ordinal, run.id);
    assert c.runs[run.id := run].Keys == c.runs.Keys + {run.id};
    forall r | Candidate(ViewOf(c), r, run.obligationId, run.key) ensures IsReady(c.latest, r) {
      ClaimFindsReady(c, run.obligationId, run.key, r);
    }
    ClaimKeepsOneLive(c, run);
  }

  lemma ClaimKeeps(c: Core, now: Refreshed, r: Record, claim: Claim)
    requires RunsInv(c) && ClaimsEarlier(c) && Named(c.obligations) && Current(c, now)
    requires ClaimStep(c, now, r, claim).Ok?
    ensures RunsInv(ClaimStep(c, now, r, claim).value)
  {
    ClaimedMeaningIsFree(c, now, r, claim);
    WithRunKeeps(c, ClaimedRun(c, r, claim));
  }

  // ---------------------------------------------------------------- authority, reservations, releases, receipts

  lemma RotationKeeps(c: Core, run: RunId, rotated: Run)
    requires RunsInv(c) && run in c.runs
    requires rotated.id == run && rotated.generation >= c.runs[run].generation && rotated.obligation == c.runs[run].obligation
    requires rotated.obligationId == c.runs[run].obligationId && rotated.key == c.runs[run].key
    ensures RunsInv(c.(runs := c.runs[run := rotated]))
  {
    var runs := c.runs[run := rotated];
    assert runs.Keys == c.runs.Keys;
    forall a, b | SameMeaning(runs, a, b) && Earlier(c.claimOrdinals, a, b) ensures IsReady(c.latest, a) {
      assert SameMeaning(c.runs, a, b);
    }
  }

  lemma AuthorityKeeps(c: Core, now: Refreshed, r: Record, fact: Authority)
    requires RunsInv(c) && AuthorityStep(c, now, r, fact).Ok?
    ensures RunsInv(AuthorityStep(c, now, r, fact).value)
  {
    RotationKeeps(c, fact.runId, Rotated(c.runs[fact.runId], r, fact));
  }

  /** A run that is EXECUTING has no receipt, or a WAITING one from an older generation. */
  lemma ReservedRunIsOpen(c: Core, now: Refreshed, r: Record, fact: Reservation)
    requires RunsNamed(c.runs) && Named(c.obligations) && Current(c, now)
    requires ReservationStep(c, now, r, fact).Ok?
    ensures fact.runId in c.latest ==> c.latest[fact.runId].disposition == DispositionWaiting
  {
    CurrentFacts(ViewOf(c), now.value, c.runs[fact.runId].obligationId, fact.runId);
  }

  lemma ReservationKeeps(c: Core, now: Refreshed, r: Record, fact: Reservation)
    requires RunsInv(c) && Named(c.obligations) && Current(c, now) && ReservationStep(c, now, r, fact).Ok?
    ensures RunsInv(ReservationStep(c, now, r, fact).value)
  {
    ReservedRunIsOpen(c, now, r, fact);
    HoldKeeps(c, fact.runId, Held(fact, r.commit));
  }

  lemma HoldKeeps(c: Core, run: RunId, held: Held)
    requires RunsInv(c) && run in c.runs
    requires run in c.latest ==> c.latest[run].disposition == DispositionWaiting
    requires held.fact.runId == run && held.fact.generation <= c.runs[run].generation
    ensures RunsInv(c.(unresolved := c.unresolved[run := held]))
  {
  }

  lemma ReleaseKeeps(o: Oracle, c: Core, now: Refreshed, r: Record, fact: Release)
    requires RunsInv(c) && ReleaseStep(o, c, now, r, fact).Ok?
    ensures RunsInv(ReleaseStep(o, c, now, r, fact).value)
  {
  }

  /** READY is final: no receipt is accepted for a run that is settled READY. */
  lemma ReadyIsFinal(o: Oracle, c: Core, now: Refreshed, r: Record, fact: ReceiptFact, released: bool)
    requires RunsNamed(c.runs) && ReceiptStep(o, c, now, r, fact, released).Ok?
    ensures !IsReady(c.latest, fact.runId)
  {
  }

  lemma WithReceiptKeeps(c: Core, run: RunId, receipt: Receipt)
    requires RunsInv(c) && run in c.runs && !IsReady(c.latest, run)
    ensures RunsInv(WithReceipt(c, run, receipt))
  {
    var c' := WithReceipt(c, run, receipt);
    forall a, b | SameMeaning(c.runs, a, b) && Earlier(c.claimOrdinals, a, b) ensures IsReady(c'.latest, a) {
      assert IsReady(c.latest, a);
    }
  }

  lemma ReceiptKeeps(o: Oracle, c: Core, now: Refreshed, r: Record, fact: ReceiptFact, released: bool)
    requires RunsInv(c) && ReceiptStep(o, c, now, r, fact, released).Ok?
    ensures RunsInv(ReceiptStep(o, c, now, r, fact, released).value)
  {
    ReadyIsFinal(o, c, now, r, fact, released);
    var receipt := ReceiptStep(o, c, now, r, fact, released).value.latest[fact.runId];
    WithReceiptKeeps(c, fact.runId, receipt);
  }

  // ---------------------------------------------------------------- whole records and histories

  function Bump(c: Core): Core { c.(ordinal := c.ordinal + 1) }

  /** The states between the facts of one accepted record. */
  lemma Stages(o: Oracle, c: Core, r: Record) returns (c1: Core, c2: Core, c3: Core, c4: Core, c5: Core)
    requires Step(o, c, r).Ok?
    ensures AfterPatch(Bump(c), r) == Ok(c1) && AfterClaim(c1, r) == Ok(c2) && AfterAuthority(c2, r) == Ok(c3)
    ensures AfterReservation(c3, r) == Ok(c4) && AfterRelease(o, c4, r) == Ok(c5) && AfterReceipt(o, c5, r) == Step(o, c, r)
  {
    c1 := AfterPatch(Bump(c), r).value;
    c2 := AfterClaim(c1, r).value;
    c3 := AfterAuthority(c2, r).value;
    c4 := AfterReservation(c3, r).value;
    c5 := AfterRelease(o, c4, r).value;
  }

  /** Only graph patches touch the graph. */
  ghost predicate SameState(c: Core, c': Core) {
    && c'.obligations == c.obligations && c'.definitionIds == c.definitionIds && c'.definitions == c.definitions
    && c'.bindingOrdinals == c.bindingOrdinals && c'.ordinal == c.ordinal
  }

  lemma LivesCurrent(c: Core)
    ensures Current(c, Lives(ViewOf(c)))
  {
    if Lives(ViewOf(c)).Ok? { LivesSolve(ViewOf(c)); }
  }

  lemma BumpKeeps(c: Core)
    requires Inv(c)
    ensures Inv(Bump(c)) && ClaimsEarlier(Bump(c))
  {
  }

  lemma AfterPatchKeeps(c: Core, r: Record)
    requires Inv(c) && ClaimsEarlier(c) && AfterPatch(c, r).Ok?
    ensures Inv(AfterPatch(c, r).value) && ClaimsEarlier(AfterPatch(c, r).value) && SameRuns(c, AfterPatch(c, r).value)
  {
    if r.patch.Some? { PatchKeeps(c, Lives(ViewOf(c)), r.patch.value); }
  }

  lemma AfterClaimKeeps(c: Core, r: Record)
    requires Inv(c) && ClaimsEarlier(c) && AfterClaim(c, r).Ok?
    ensures RunsInv(AfterClaim(c, r).value) && SameState(c, AfterClaim(c, r).value)
  {
    hide Lives, OrderInv, OneLiveRun, HeldOpen, HeldBound, ValidGraph, Prerequisites;
    LivesCurrent(c);
    if r.claim.Some? { ClaimKeeps(c, Lives(ViewOf(c)), r, r.claim.value); }
  }

  lemma AfterAuthorityKeeps(c: Core, r: Record)
    requires RunsInv(c) && AfterAuthority(c, r).Ok?
    ensures RunsInv(AfterAuthority(c, r).value) && SameState(c, AfterAuthority(c, r).value)
  {
    hide Lives, RunsInv;
    if r.authority.Some? { AuthorityKeeps(c, Lives(ViewOf(c)), r, r.authority.value); }
  }

  lemma AfterReservationKeeps(c: Core, r: Record)
    requires RunsInv(c) && Named(c.obligations) && AfterReservation(c, r).Ok?
    ensures RunsInv(AfterReservation(c, r).value) && SameState(c, AfterReservation(c, r).value)
  {
    hide Lives, RunsInv;
    LivesCurrent(c);
    if r.reservation.Some? { ReservationKeeps(c, Lives(ViewOf(c)), r, r.reservation.value); }
  }

  lemma AfterReleaseKeeps(o: Oracle, c: Core, r: Record)
    requires RunsInv(c) && AfterRelease(o, c, r).Ok?
    ensures RunsInv(AfterRelease(o, c, r).value) && SameState(c, AfterRelease(o, c, r).value)
  {
    hide Lives, RunsInv;
    if r.release.Some? { ReleaseKeeps(o, c, Lives(ViewOf(c)), r, r.release.value); }
  }

  lemma AfterReceiptKeeps(o: Oracle, c: Core, r: Record)
    requires RunsInv(c) && AfterReceipt(o, c, r).Ok?
    ensures RunsInv(AfterReceipt(o, c, r).value) && SameState(c, AfterReceipt(o, c, r).value)
  {
    hide Lives, RunsInv, ReceiptRejection, ProjectReceipt;
    if r.receipt.Some? { ReceiptKeeps(o, c, Lives(ViewOf(c)), r, r.receipt.value, r.release.Some?); }
  }

  lemma SameStateKeeps(c: Core, c': Core)
    requires StateInv(c) && SameState(c, c')
    ensures StateInv(c')
  {
  }

  lemma StateNamed(c: Core)
    requires StateInv(c)
    ensures Named(c.obligations)
  {
  }

  /** Every record the reducer accepts keeps the invariant. */
  lemma StepKeeps(o: Oracle, c: Core, r: Record)
    requires Inv(c) && Step(o, c, r).Ok?
    ensures Inv(Step(o, c, r).value) && Step(o, c, r).value.ordinal == c.ordinal + 1
  {
    var c1, c2, c3, c4, c5 := Stages(o, c, r);
    BumpKeeps(c);
    AfterPatchKeeps(Bump(c), r);
    AfterClaimKeeps(c1, r);
    AfterAuthorityKeeps(c2, r);
    AfterReservationKeeps(c3, r);
    AfterReleaseKeeps(o, c4, r);
    AfterReceiptKeeps(o, c5, r);
    SameStateKeeps(c1, Step(o, c, r).value);
  }

  lemma EmptyInv()
    ensures Inv(EmptyCore)
  {
  }

  /** Every history the reducer accepts satisfies the invariant. */
  lemma {:induction false} HistoryInv(o: Oracle, history: seq<Record>)
    requires Fold(o, EmptyCore, history).Ok?
    ensures Inv(Fold(o, EmptyCore, history).value)
    ensures Fold(o, EmptyCore, history).value.ordinal == |history|
    decreases |history|
  {
    if history == [] {
      EmptyInv();
    } else {
      var n := |history| - 1;
      HistoryInv(o, history[..n]);
      StepKeeps(o, Fold(o, EmptyCore, history[..n]).value, history[n]);
    }
  }
}
