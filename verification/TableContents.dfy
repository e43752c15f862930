/** What claims and receipts leave in the second reader's tables, in terms of the reducer's runs and receipts
    (src/authority/effect-history-projection.ts:300-390, 440-501, 577-626). */
module TableContents {
  import opened Facts
  import opened Replay
  import opened Invariants
  import opened RunSafety
  import opened FourByFour
  import opened HistoryTables
  import opened ReadersAgree
  import opened Settlements
  import opened ExecutionAuthority

  // ---------------------------------------------------------------- definitions

  /** Every definition the reader holds is the one its id digests. */
  ghost predicate Digested(ix: Index) {
    && (forall d :: d in ix.definitions ==> ix.definitions[d].definition == d.preimage)
    && (forall id :: id in ix.bindings ==> ix.bindings[id].definition == ix.bindings[id].definitionId.preimage)
  }

  lemma {:induction false} DefinitionsDigested(ix: Index, added: seq<Introduced>, source: Source)
    requires Digested(ix) && (forall d :: d in added ==> d.id == Sha(d.definition)) && ReadDefinitions(ix, added, source).Ok?
    ensures Digested(ReadDefinitions(ix, added, source).value)
    decreases |added|
  {
    if added != [] {
      assert added[0] in added && forall d :: d in added[1..] ==> d in added;
      DefinitionsDigested(ix.(definitions := ix.definitions[added[0].id := Defined(added[0].definition, source)]), added[1..], source);
    }
  }

  lemma {:induction false} BindingsDigested(ix: Index, bindings: seq<Binding>, source: Source)
    requires Digested(ix) && ReadBindings(ix, bindings, source).Ok?
    ensures Digested(ReadBindings(ix, bindings, source).value)
    decreases |bindings|
  {
    if bindings != [] {
      var known := ix.definitions[bindings[0].definitionId];
      var bound := Bound(bindings[0].definitionId, known.definition, {known.source, source});
      BindingsDigested(ix.(bindings := ix.bindings[bindings[0].node := bound]), bindings[1..], source);
    }
  }

  lemma PatchDigested(ix: Index, r: Record)
    requires Digested(ix) && ReadPatch(ix, r).Ok?
    ensures Digested(ReadPatch(ix, r).value)
  {
    if r.patch.Some? {
      var source := Source(r.commit, PatchSource);
      DefinitionsDigested(ix, r.patch.value.definitions, source);
      var defined := ReadDefinitions(ix, r.patch.value.definitions, source).value;
      BindingsDigested(defined.(bindings := defined.bindings - (set id | id in r.patch.value.retire)), r.patch.value.bindings, source);
    }
  }

  // ---------------------------------------------------------------- requirements

  /** What a claim of this obligation requires to hold. */
  ghost predicate Wants(work: Obligation, value: PropositionValue) {
    value == PostconditionHolds(work.post) || exists d :: d in work.dependencies && value == DependencyHolds(d)
  }

  /** The edge says that the obligation the run claimed is satisfied only if `value` holds, both where the claim was made. */
  ghost predicate Requirement(run: Run, x: Requires, value: PropositionValue) {
    var at := Sha(Point(run.obligationId, run.id, run.claimedRevision, run.claimCommit, run.key, run.sourceRevision, 1, run.claimCommit, Plain));
    var from, to := x.proposition.preimage, x.required.preimage;
    && from.coordinate == at && from.value == ObligationSatisfied(run.obligationId, run.definitionId)
    && to.coordinate == at && to.value == value
    && x.sources == from.sources == to.sources && Source(run.claimCommit, ClaimSource) in x.sources
  }

  /** Some run's claim wants this edge. */
  ghost predicate WantedBySome(runs: map<RunId, Run>, x: Requires) { exists k, value :: k in runs && Wants(runs[k].obligation, value) && Requirement(runs[k], x, value) }

  /** Some edge says what the run's claim wants. */
  ghost predicate Said(run: Run, value: PropositionValue, edges: map<Digest<Requires>, Requires>) {
    exists id :: id in edges && Requirement(run, edges[id], value)
  }

  /** The requirement edges are those of the claims: one for the postcondition and each dependency of what a run claimed. */
  ghost predicate Required(runs: map<RunId, Run>, edges: map<Digest<Requires>, Requires>) {
    && (forall id :: id in edges ==> WantedBySome(runs, edges[id]))
    && (forall k, value :: k in runs && Wants(runs[k].obligation, value) ==> Said(runs[k], value, edges))
  }

  ghost predicate Keyed(edges: map<Digest<Requires>, Requires>) { forall id :: id in edges ==> id == Sha(edges[id]) }

  ghost function EdgeTo(root: Proposition, value: PropositionValue): Requires {
    Requires(PropositionSha(root), PropositionSha(Proposition(root.coordinate, value, root.sources)), root.sources)
  }

  lemma {:induction false} DependencyEdges(t: Tables, root: Proposition, deps: seq<Dependency>)
    requires Keyed(t.requirements)
    ensures var edges := RequireDependencies(t, root, deps).requirements;
      && Keyed(edges)
      && forall id :: id in edges <==> id in t.requirements || exists d :: d in deps && id == Sha(EdgeTo(root, DependencyHolds(d)))
    decreases |deps|
  {
    if deps != [] {
      var required := Proposition(root.coordinate, DependencyHolds(deps[0]), root.sources);
      var t1 := AddRequires(AddProposition(t, required), Requires(PropositionSha(root), PropositionSha(required), root.sources));
      DependencyEdges(t1, root, deps[1..]);
      assert deps == [deps[0]] + deps[1..];
    }
  }

  ghost predicate WantedEdge(work: Obligation, root: Proposition, id: Digest<Requires>) {
    exists value :: Wants(work, value) && id == Sha(EdgeTo(root, value))
  }

  /** A claim adds exactly the edges of what its definition wants. */
  lemma ClaimEdges(t: Tables, run: Claimed, at: Digest<Point>, sources: set<Source>, work: Obligation)
    requires Keyed(t.requirements) && work.post == run.binding.definition.post && work.dependencies == run.binding.definition.dependencies
    ensures var edges := ClaimRequirements(t, run, at, sources).requirements;
      var root := Proposition(at, ObligationSatisfied(run.claim.obligationId, run.binding.definitionId), run.binding.sources + sources);
      && Keyed(edges)
      && forall id :: id in edges <==> id in t.requirements || WantedEdge(work, root, id)
  {
    hide RequireDependencies;
    var all := run.binding.sources + sources;
    var root := Proposition(at, ObligationSatisfied(run.claim.obligationId, run.binding.definitionId), all);
    var post := Proposition(at, PostconditionHolds(run.binding.definition.post), all);
    var t1 := AddRequires(AddProposition(AddProposition(t, root), post), Requires(PropositionSha(root), PropositionSha(post), all));
    DependencyEdges(t1, root, work.dependencies);
    forall id ensures WantedEdge(work, root, id) <==>
      id == Sha(EdgeTo(root, PostconditionHolds(work.post))) || exists d :: d in work.dependencies && id == Sha(EdgeTo(root, DependencyHolds(d)))
    {
      assert Wants(work, PostconditionHolds(work.post));
      if d :| d in work.dependencies && id == Sha(EdgeTo(root, DependencyHolds(d))) { assert Wants(work, DependencyHolds(d)); }
    }
  }

  lemma RequiredOneMore(runs: map<RunId, Run>, edges: map<Digest<Requires>, Requires>, edges': map<Digest<Requires>, Requires>, run: Run, root: Proposition)
    requires Required(runs, edges) && Keyed(edges) && Keyed(edges') && run.id !in runs
    requires forall id :: id in edges' <==> id in edges || WantedEdge(run.obligation, root, id)
    requires forall value :: Requirement(run, EdgeTo(root, value), value)
    ensures Required(runs[run.id := run], edges')
  {
    hide Requirement, Wants, EdgeTo, WantedBySome, Said, WantedEdge;
    var runs' := runs[run.id := run];
    forall id | id in edges' ensures WantedBySome(runs', edges'[id]) {
      if id in edges {
        assert edges'[id] == edges[id];
        MoreRuns(runs, run, edges[id]);
      } else {
        NewEdge(runs, edges', run, root, id);
      }
    }
    forall k, value | k in runs' && Wants(runs'[k].obligation, value) ensures Said(runs'[k], value, edges') {
      if k == run.id {
        SaidNow(edges', run, root, value);
      } else {
        MoreEdges(runs[k], value, edges, edges');
      }
    }
  }

  lemma MoreRuns(runs: map<RunId, Run>, run: Run, x: Requires)
    requires WantedBySome(runs, x) && run.id !in runs
    ensures WantedBySome(runs[run.id := run], x)
  {
    hide Requirement, Wants;
    var k, value :| k in runs && Wants(runs[k].obligation, value) && Requirement(runs[k], x, value);
    assert runs[run.id := run][k] == runs[k];
  }

  lemma NewEdge(runs: map<RunId, Run>, edges: map<Digest<Requires>, Requires>, run: Run, root: Proposition, id: Digest<Requires>)
    requires Keyed(edges) && id in edges && WantedEdge(run.obligation, root, id) && forall value :: Requirement(run, EdgeTo(root, value), value)
    ensures WantedBySome(runs[run.id := run], edges[id])
  {
    hide Requirement, Wants, EdgeTo;
    var value :| Wants(run.obligation, value) && id == Sha(EdgeTo(root, value));
    assert edges[id] == EdgeTo(root, value) && runs[run.id := run][run.id] == run;
  }

  lemma SaidNow(edges: map<Digest<Requires>, Requires>, run: Run, root: Proposition, value: PropositionValue)
    requires Keyed(edges) && Wants(run.obligation, value) && Requirement(run, EdgeTo(root, value), value)
    requires forall id :: WantedEdge(run.obligation, root, id) ==> id in edges
    ensures Said(run, value, edges)
  {
    hide Requirement, Wants, EdgeTo;
    assert WantedEdge(run.obligation, root, Sha(EdgeTo(root, value)));
    assert edges[Sha(EdgeTo(root, value))] == EdgeTo(root, value);
  }

  lemma MoreEdges(run: Run, value: PropositionValue, edges: map<Digest<Requires>, Requires>, edges': map<Digest<Requires>, Requires>)
    requires Said(run, value, edges) && Keyed(edges) && Keyed(edges') && edges.Keys <= edges'.Keys
    ensures Said(run, value, edges')
  {
    hide Requirement;
    var id :| id in edges && Requirement(run, edges[id], value);
    assert edges'[id] == edges[id];
  }

  lemma SameRequirement(a: Run, b: Run, x: Requires, value: PropositionValue)
    requires SameClaim(a, b)
    ensures Requirement(a, x, value) <==> Requirement(b, x, value)
  {
  }

  lemma WantedStays(runs: map<RunId, Run>, runs': map<RunId, Run>, x: Requires)
    requires WantedBySome(runs, x) && runs'.Keys == runs.Keys && forall k :: k in runs ==> SameClaim(runs[k], runs'[k])
    ensures WantedBySome(runs', x)
  {
    hide Wants, Requirement;
    var k, value :| k in runs && Wants(runs[k].obligation, value) && Requirement(runs[k], x, value);
    assert SameClaim(runs[k], runs'[k]);
    SameRequirement(runs[k], runs'[k], x, value);
  }

  lemma SaidStays(a: Run, b: Run, value: PropositionValue, edges: map<Digest<Requires>, Requires>)
    requires Said(a, value, edges) && SameClaim(a, b)
    ensures Said(b, value, edges)
  {
    hide Wants, Requirement;
    var id :| id in edges && Requirement(a, edges[id], value);
    SameRequirement(a, b, edges[id], value);
  }

  lemma RequiredSameClaims(runs: map<RunId, Run>, runs': map<RunId, Run>, edges: map<Digest<Requires>, Requires>)
    requires Required(runs, edges) && runs'.Keys == runs.Keys && forall k :: k in runs ==> SameClaim(runs[k], runs'[k])
    ensures Required(runs', edges)
  {
    hide Wants, Requirement, WantedBySome, Said;
    forall id | id in edges ensures WantedBySome(runs', edges[id]) { WantedStays(runs, runs', edges[id]); }
    forall k, value | k in runs' && Wants(runs'[k].obligation, value) ensures Said(runs'[k], value, edges) {
      assert SameClaim(runs[k], runs'[k]);
      assert Said(runs[k], value, edges);
      SaidStays(runs[k], runs'[k], value, edges);
    }
  }

  // ---------------------------------------------------------------- the later facts of a record

  ghost predicate SameGraphRead(s: Reader, s': Reader) {
    s'.index.definitions == s.index.definitions && s'.index.bindings == s.index.bindings && s'.tables.requirements == s.tables.requirements
  }

  lemma {:induction false} RetainKeeps(t: Tables, at: Digest<Point>, proposition: Proposition, evidence: seq<string>, sources: set<Source>)
    ensures Retain(t, at, proposition, evidence, sources).requirements == t.requirements
    decreases |evidence|
  {
    if evidence != [] {
      var kept := Object(at, RetainedValue(evidence[0]), sources);
      RetainKeeps(AddSupports(AddObject(t, kept), Supports(ObjectSha(kept), PropositionSha(proposition), sources)), at, proposition, evidence[1..], sources);
    }
  }

  lemma AuthorityKeepsGraph(s: Reader, r: Record)
    requires ReadAuthority(s, r).Ok?
    ensures SameGraphRead(s, ReadAuthority(s, r).value)
  {
  }

  lemma ReservationKeepsGraph(s: Reader, r: Record)
    requires ReadReservation(s, r).Ok?
    ensures SameGraphRead(s, ReadReservation(s, r).value)
  {
  }

  lemma ReleaseKeepsGraph(s: Reader, r: Record)
    requires ReadRelease(s, r).Ok?
    ensures SameGraphRead(s, ReadRelease(s, r).value)
  {
    hide ReleaseFactValid;
  }

  lemma ReceiptKeepsGraph(retention: Retention, s: Reader, r: Record)
    requires ReadReceipt(retention, s, r).Ok?
    ensures SameGraphRead(s, ReadReceipt(retention, s, r).value)
  {
    hide Retain;
    if r.receipt.Some? && r.receipt.value.observed.Some? {
      forall t, at, proposition, evidence, sources ensures Retain(t, at, proposition, evidence, sources).requirements == t.requirements {
        RetainKeeps(t, at, proposition, evidence, sources);
      }
    }
  }

  /** The claim of one record adds what its obligation wants. */
  lemma ClaimRequired(c: Core, s: Reader, r: Record)
    requires StateFacts(c) && SameGraph(c, s.index) && Digested(s.index) && Keyed(s.tables.requirements) && Required(c.runs, s.tables.requirements)
    requires r.claim.Some? && r.claim.value.obligationId in c.obligations && r.claim.value.obligationId in c.definitionIds
    requires r.claim.value.runId !in c.runs && ReadClaim(s, r).Ok?
    ensures Required(c.runs[r.claim.value.runId := ClaimedRun(c, r, r.claim.value)], ReadClaim(s, r).value.tables.requirements)
    ensures Keyed(ReadClaim(s, r).value.tables.requirements)
    ensures ReadClaim(s, r).value.index.definitions == s.index.definitions && ReadClaim(s, r).value.index.bindings == s.index.bindings
  {
    hide ClaimRequirements, ClaimError, Required, WantedEdge;
    var claim := r.claim.value;
    ClaimBound(s.index, r, claim);
    var run, read := ClaimedRun(c, r, claim), OpenedRun(s.index, r, claim);
    assert read.binding.definition == run.definitionId.preimage == DefinitionOf(run.obligation);
    var point := PointOf(read, 1, r.commit, Plain);
    var t := AddObject(AddCoordinate(s.tables, point, read.binding.sources + ClaimSources(r)), FirstAuthority(read, r));
    ClaimEdges(t, read, Sha(point), ClaimSources(r), run.obligation);
    var root := Proposition(Sha(point), ObligationSatisfied(claim.obligationId, read.binding.definitionId), read.binding.sources + ClaimSources(r));
    forall value ensures Requirement(run, EdgeTo(root, value), value) { RootRequires(run, root, value); }
    RequiredOneMore(c.runs, s.tables.requirements, ReadClaim(s, r).value.tables.requirements, run, root);
  }

  lemma RootRequires(run: Run, root: Proposition, value: PropositionValue)
    requires root.coordinate == Sha(Point(run.obligationId, run.id, run.claimedRevision, run.claimCommit, run.key, run.sourceRevision, 1, run.claimCommit, Plain))
    requires root.value == ObligationSatisfied(run.obligationId, run.definitionId) && Source(run.claimCommit, ClaimSource) in root.sources
    ensures Requirement(run, EdgeTo(root, value), value)
  {
  }

  lemma ClaimStage(c1: Core, runs: map<RunId, Run>, s1: Reader, s2: Reader, r: Record)
    requires Inv(c1) && Agree(c1, s1) && Digested(s1.index) && Keyed(s1.tables.requirements) && Required(c1.runs, s1.tables.requirements)
    requires ReadClaim(s1, r) == Ok(s2)
    requires r.claim.None? ==> runs == c1.runs
    requires r.claim.Some? ==>
      && r.claim.value.runId !in c1.runs && r.claim.value.obligationId in c1.obligations && r.claim.value.obligationId in c1.definitionIds
      && runs == c1.runs[r.claim.value.runId := ClaimedRun(c1, r, r.claim.value)]
    ensures Digested(s2.index) && Keyed(s2.tables.requirements) && Required(runs, s2.tables.requirements)
  {
    hide Inv, Agree, ReadClaim, Required, ClaimedRun, Digested, Keyed, SameGraph, StateFacts;
    if r.claim.Some? {
      AgreeIsGraph(c1, s1);
      ClaimRequired(c1, s1, r);
      SameDigests(s1.index, s2.index);
    } else {
      NoClaim(s1, r);
    }
  }

  lemma LaterStages(retention: Retention, s2: Reader, s3: Reader, s4: Reader, s5: Reader, s': Reader, r: Record)
    requires ReadAuthority(s2, r) == Ok(s3) && ReadReservation(s3, r) == Ok(s4) && ReadRelease(s4, r) == Ok(s5) && ReadReceipt(retention, s5, r) == Ok(s')
    ensures SameGraphRead(s2, s')
  {
    hide ReadAuthority, ReadReservation, ReadRelease, ReadReceipt;
    AuthorityKeepsGraph(s2, r);
    ReservationKeepsGraph(s3, r);
    ReleaseKeepsGraph(s4, r);
    ReceiptKeepsGraph(retention, s5, r);
  }

  lemma RotationSame(runs: map<RunId, Run>, r: Record, fact: Authority)
    requires fact.runId in runs
    ensures var runs' := runs[fact.runId := Rotated(runs[fact.runId], r, fact)];
      runs'.Keys == runs.Keys && forall k :: k in runs ==> SameClaim(runs[k], runs'[k])
  {
  }

  lemma NoRotationSame(runs: map<RunId, Run>)
    ensures forall k :: k in runs ==> SameClaim(runs[k], runs[k])
  {
  }

  /** One record keeps the requirement edges those of the claims. */
  lemma RecordRequired(o: Oracle, retention: Retention, c: Core, s: Reader, r: Record)
    requires Inv(c) && Agree(c, s) && Digested(s.index) && Keyed(s.tables.requirements) && Required(c.runs, s.tables.requirements)
    requires Step(o, c, r).Ok? && ReadRecord(retention, s, r).Ok?
    ensures var s' := ReadRecord(retention, s, r).value;
      Digested(s'.index) && Keyed(s'.tables.requirements) && Required(Step(o, c, r).value.runs, s'.tables.requirements)
  {
    hide Step, AfterPatch, Inv, Agree, ReadRecord, ReadPatch, ReadClaim, ReadAuthority, ReadReservation, ReadRelease, ReadReceipt, Required, ClaimedRun, Digested, Keyed, Rotated, SameClaim, RunsNamed;
    var c1, c2 := StagedRuns(o, c, r);
    BumpAgrees(c, s);
    BumpedState(c);
    AfterPatchAgrees(Bump(c), s, r);
    var s1, s2, s3, s4, s5 := ReadStages(retention, s, r);
    assert s1 == s.(index := s1.index);
    PatchDigested(s.index, r);
    ClaimStage(c1, c2.runs, s1, s2, r);
    var s' := ReadRecord(retention, s, r).value;
    LaterStages(retention, s2, s3, s4, s5, s', r);
    SameDigests(s2.index, s'.index);
    if r.authority.Some? { RotationSame(c2.runs, r, r.authority.value); } else { NoRotationSame(c2.runs); }
    RequiredSameClaims(c2.runs, Step(o, c, r).value.runs, s2.tables.requirements);
  }

  lemma BumpedState(c: Core)
    requires Inv(c)
    ensures StateInv(Bump(c))
  {
    BumpKeeps(c);
  }

  lemma SameDigests(ix: Index, ix': Index)
    requires Digested(ix) && ix'.definitions == ix.definitions && ix'.bindings == ix.bindings
    ensures Digested(ix')
  {
  }

  lemma NoClaim(s: Reader, r: Record)
    requires r.claim.None? && ReadClaim(s, r).Ok?
    ensures ReadClaim(s, r).value == s
  {
  }

  lemma AgreeIsGraph(c: Core, s: Reader)
    requires Inv(c) && Agree(c, s)
    ensures StateFacts(c) && SameGraph(c, s.index)
  {
  }

  /** Over every accepted history the requirement edges are exactly those of the claims: for every run, from the obligation it
      claimed to its postcondition and to each of its dependencies as they were bound then, where the claim was made. */
  lemma {:induction false} ClaimsRequired(o: Oracle, retention: Retention, history: seq<Record>)
    requires Accepted(o, history) && UniqueCommits(history)
    ensures ReadAll(retention, history).Ok?
    ensures var s := ReadAll(retention, history).value;
      Digested(s.index) && Keyed(s.tables.requirements) && Required(After(o, history).runs, s.tables.requirements)
    decreases |history|
  {
    hide Step, Inv, Agree, ReadRecord, Required, Digested, Keyed, Edges, Reservations, EdgesWithin, Holds;
    ReadersAgreeOn(o, retention, history);
    if history == [] {
      NothingRequired();
    } else {
      var n := |history| - 1;
      assert [] + history == history && [] + history[..n] == history[..n];
      LastOf(o, [], history);
      assert UniqueCommits(history[..n]);
      ClaimsRequired(o, retention, history[..n]);
      ReadersAgreeOn(o, retention, history[..n]);
      HistoryInv(o, history[..n]);
      RecordRequired(o, retention, After(o, history[..n]), ReadAll(retention, history[..n]).value, history[n]);
    }
  }

  lemma NothingRequired()
    ensures Digested(NewReader.index) && Keyed(NewReader.tables.requirements) && Required(EmptyCore.runs, NewReader.tables.requirements)
  {
  }

  // ---------------------------------------------------------------- receipts

  /** Where a run was settled: its claim, under the authority the receipt names, at the commit that recorded it. */
  ghost function SettledAt(run: Run, q: Receipt): Digest<Point> {
    Sha(Point(run.obligationId, run.id, run.claimedRevision, run.claimCommit, run.key, run.sourceRevision,
              q.fact.generation, q.fact.authorityCommit, AtSettlement(q.settlement)))
  }

  ghost function SettlementEvent(run: Run, q: Receipt): Event {
    Event(SettledAt(run, q), SettlementValue(q.fact.kind, q.fact.observed, q.fact.diagnostic), {Source(q.settlement, ReceiptSource)})
  }

  /** Retained evidence supports that the observation was made. */
  ghost function RetainedEdge(run: Run, q: Receipt, observed: Observation, evidence: string): Supports {
    var sources := {Source(q.settlement, ReceiptSource)};
    Supports(ObjectSha(Object(SettledAt(run, q), RetainedValue(evidence), sources)),
             PropositionSha(Proposition(SettledAt(run, q), Observed(observed), sources)), sources)
  }

  ghost predicate RetainedFor(retention: Retention, run: Run, q: Receipt, x: Supports) {
    q.fact.observed.Some? && exists e :: e in retention(q.fact.observed.value) && x == RetainedEdge(run, q, q.fact.observed.value, e)
  }

  ghost predicate Known(runs: map<RunId, Run>, receipts: seq<Receipt>) { forall q :: q in receipts ==> q.fact.runId in runs }

  ghost predicate RetainedBySome(retention: Retention, runs: map<RunId, Run>, receipts: seq<Receipt>, x: Supports)
    requires Known(runs, receipts)
  {
    exists q :: q in receipts && RetainedFor(retention, runs[q.fact.runId], q, x)
  }

  /** Every receipt has its event, and the supports edges other than those of releases are those of retained observations. */
  ghost predicate Settled(retention: Retention, runs: map<RunId, Run>, receipts: seq<Receipt>, t: Tables) {
    && Known(runs, receipts)
    && (forall q :: q in receipts ==> EventSha(SettlementEvent(runs[q.fact.runId], q)) in t.events)
    && (forall x :: Sha(x) in t.supports && !x.subject.preimage.value.ReleaseEvidenceValue? <==> RetainedBySome(retention, runs, receipts, x))
  }

  lemma {:induction false} RetainAdds(t: Tables, at: Digest<Point>, proposition: Proposition, evidence: seq<string>, sources: set<Source>)
    ensures var t' := Retain(t, at, proposition, evidence, sources);
      && t'.events == t.events
      && forall x :: Sha(x) in t'.supports <==>
           || Sha(x) in t.supports
           || exists e :: e in evidence && x == Supports(ObjectSha(Object(at, RetainedValue(e), sources)), PropositionSha(proposition), sources)
    decreases |evidence|
  {
    if evidence != [] {
      var kept := Object(at, RetainedValue(evidence[0]), sources);
      RetainAdds(AddSupports(AddObject(t, kept), Supports(ObjectSha(kept), PropositionSha(proposition), sources)), at, proposition, evidence[1..], sources);
      assert evidence == [evidence[0]] + evidence[1..];
    }
  }

  /** A receipt adds its event and the edges of what its observation retains. */
  lemma ReceiptAdds(retention: Retention, s: Reader, r: Record, run: Run, q: Receipt)
    requires r.receipt.Some? && ReadReceipt(retention, s, r).Ok? && q.fact == r.receipt.value && q.settlement == r.commit
    requires r.receipt.value.observed.Some? ==> r.receipt.value.kind != NotDispatchedKind
    requires r.receipt.value.runId in s.index.runs && SameRun(run, s.index.runs[r.receipt.value.runId])
    ensures var t' := ReadReceipt(retention, s, r).value.tables;
      && t'.events == s.tables.events[EventSha(SettlementEvent(run, q)) := SettlementEvent(run, q)]
      && forall x :: Sha(x) in t'.supports <==> Sha(x) in s.tables.supports || RetainedFor(retention, run, q, x)
  {
    hide Retain, AuthorityObject, AddCoordinate, Asserted;
    var fact := r.receipt.value;
    var at, sources, event := SettledAt(run, q), {Source(r.commit, ReceiptSource)}, SettlementEvent(run, q);
    var point := PointOf(s.index.runs[fact.runId], fact.generation, fact.authorityCommit, AtSettlement(r.commit));
    assert at == Sha(point);
    var t := AddEvent(AddCoordinate(s.tables, point, sources), event);
    var (proposition, own) := Asserted(s.index, r, fact, at);
    var t1 := if own then AddProposition(t, proposition) else t;
    var t2 := AddAsserts(t1, Asserts(EventSha(event), PropositionSha(proposition), sources));
    CoordinateOnly(s.tables, point, sources);
    if fact.observed.Some? {
      ObservedAsserted(s.index, r, fact, at);
      RetainAdds(t2, at, proposition, retention(fact.observed.value), sources);
    }
  }

  lemma CoordinateOnly(t: Tables, point: Point, sources: set<Source>)
    ensures AddCoordinate(t, point, sources).events == t.events && AddCoordinate(t, point, sources).supports == t.supports
  {
  }

  lemma ObservedAsserted(ix: Index, r: Record, fact: ReceiptFact, at: Digest<Point>)
    requires fact.observed.Some? && fact.kind != NotDispatchedKind
    ensures Asserted(ix, r, fact, at) == (Proposition(at, Observed(fact.observed.value), {Source(r.commit, ReceiptSource)}), true)
  {
  }

  /** More runs, with the claims they had, change nothing about receipts. */
  lemma SettledSameClaims(retention: Retention, runs: map<RunId, Run>, runs': map<RunId, Run>, receipts: seq<Receipt>, t: Tables)
    requires Settled(retention, runs, receipts, t) && runs.Keys <= runs'.Keys && forall k :: k in runs ==> SameClaim(runs[k], runs'[k])
    ensures Settled(retention, runs', receipts, t)
  {
    hide RetainedFor;
    forall q | q in receipts ensures SettlementEvent(runs'[q.fact.runId], q) == SettlementEvent(runs[q.fact.runId], q) {
      assert SameClaim(runs[q.fact.runId], runs'[q.fact.runId]);
    }
    forall q, x | q in receipts ensures RetainedFor(retention, runs'[q.fact.runId], q, x) <==> RetainedFor(retention, runs[q.fact.runId], q, x) {
      assert SameClaim(runs[q.fact.runId], runs'[q.fact.runId]);
      SameRetained(retention, runs[q.fact.runId], runs'[q.fact.runId], q, x);
    }
    forall x ensures RetainedBySome(retention, runs', receipts, x) <==> RetainedBySome(retention, runs, receipts, x) { }
  }

  lemma SameRetained(retention: Retention, a: Run, b: Run, q: Receipt, x: Supports)
    requires SameClaim(a, b)
    ensures RetainedFor(retention, a, q, x) <==> RetainedFor(retention, b, q, x)
  {
    assert SettledAt(a, q) == SettledAt(b, q);
  }

  /** Other facts add events, and supports edges of release evidence only. */
  lemma SettledGrows(retention: Retention, runs: map<RunId, Run>, receipts: seq<Receipt>, t: Tables, t': Tables)
    requires Settled(retention, runs, receipts, t) && t.events.Keys <= t'.events.Keys
    requires forall x: Supports :: !x.subject.preimage.value.ReleaseEvidenceValue? ==> (Sha(x) in t'.supports <==> Sha(x) in t.supports)
    ensures Settled(retention, runs, receipts, t')
  {
    hide RetainedFor, SettlementEvent;
    forall x ensures Sha(x) in t'.supports && !x.subject.preimage.value.ReleaseEvidenceValue? <==> RetainedBySome(retention, runs, receipts, x) {
      RetainedIsNoRelease(retention, runs, receipts, x);
    }
  }

  lemma RetainedIsNoRelease(retention: Retention, runs: map<RunId, Run>, receipts: seq<Receipt>, x: Supports)
    requires Known(runs, receipts)
    ensures RetainedBySome(retention, runs, receipts, x) ==> !x.subject.preimage.value.ReleaseEvidenceValue?
  {
  }

  lemma SettledOneMore(retention: Retention, runs: map<RunId, Run>, receipts: seq<Receipt>, q: Receipt, t: Tables, t': Tables)
    requires Settled(retention, runs, receipts, t) && q.fact.runId in runs
    requires t'.events == t.events[EventSha(SettlementEvent(runs[q.fact.runId], q)) := SettlementEvent(runs[q.fact.runId], q)]
    requires forall x :: Sha(x) in t'.supports <==> Sha(x) in t.supports || RetainedFor(retention, runs[q.fact.runId], q, x)
    ensures Settled(retention, runs, receipts + [q], t')
  {
    hide SettlementEvent;
    var more := receipts + [q];
    assert Known(runs, more);
    forall x ensures Sha(x) in t'.supports && !x.subject.preimage.value.ReleaseEvidenceValue? <==> RetainedBySome(retention, runs, more, x) {
      RetainedIsNoRelease(retention, runs, more, x);
      RetainedSnoc(retention, runs, receipts, q, x);
    }
  }

  lemma RetainedSnoc(retention: Retention, runs: map<RunId, Run>, receipts: seq<Receipt>, q: Receipt, x: Supports)
    requires Known(runs, receipts) && q.fact.runId in runs && Known(runs, receipts + [q])
    ensures RetainedBySome(retention, runs, receipts + [q], x) <==>
      RetainedBySome(retention, runs, receipts, x) || RetainedFor(retention, runs[q.fact.runId], q, x)
  {
    hide RetainedFor;
    var more := receipts + [q];
    assert q in more;
    forall p ensures p in more <==> p in receipts || p == q { }
  }

  lemma ReservationGrows(s: Reader, r: Record)
    requires ReadReservation(s, r).Ok?
    ensures s.tables.events.Keys <= ReadReservation(s, r).value.tables.events.Keys && ReadReservation(s, r).value.tables.supports == s.tables.supports
  {
  }

  lemma ReleaseGrows(s: Reader, r: Record)
    requires ReadRelease(s, r).Ok?
    ensures var t' := ReadRelease(s, r).value.tables;
      && t'.events == s.tables.events
      && forall x: Supports :: !x.subject.preimage.value.ReleaseEvidenceValue? ==> (Sha(x) in t'.supports <==> Sha(x) in s.tables.supports)
  {
    hide ReleaseFactValid, AddCoordinate, ReleaseProposition;
    if r.release.Some? {
      var fact := r.release.value;
      var run := s.index.runs[fact.runId];
      var point := PointOf(run, fact.generation, fact.authorityCommit, AtReservation(fact.reservationCommit));
      var sources := {Source(r.commit, ReleaseSource)};
      var evidence := Object(Sha(point), ReleaseEvidenceValue(fact.contract, fact.evidenceKind, fact.evidence, fact.evidenceRef), sources);
      var edge := Supports(ObjectSha(evidence), PropositionSha(ReleaseProposition(run, fact, r.commit)), sources);
      CoordinateOnly(s.tables, point, sources);
      assert ReadRelease(s, r).value.tables.supports == s.tables.supports[Sha(edge) := edge];
    }
  }

  lemma ReceiptKeepsIndex(retention: Retention, s: Reader, r: Record)
    requires ReadReceipt(retention, s, r).Ok?
    ensures ReadReceipt(retention, s, r).value.index == s.index && (r.receipt.None? ==> ReadReceipt(retention, s, r).value == s)
  {
    hide Retain, Asserted;
  }

  lemma AgreeOnRun(c: Core, s: Reader, run: RunId)
    requires Agree(c, s) && run in c.runs
    ensures run in s.index.runs && SameRun(c.runs[run], s.index.runs[run])
  {
  }

  lemma RunsKept(o: Oracle, c: Core, r: Record)
    requires Inv(c) && Step(o, c, r).Ok?
    ensures c.runs.Keys <= Step(o, c, r).value.runs.Keys && forall k :: k in c.runs ==> SameClaim(c.runs[k], Step(o, c, r).value.runs[k])
  {
    hide Step, Inv, SameClaim, OpenedBy;
    forall k | k in c.runs ensures k in Step(o, c, r).value.runs && SameClaim(c.runs[k], Step(o, c, r).value.runs[k]) { StepGrants(o, c, r, k); }
  }

  /** The tables before the receipt of a record is read. */
  lemma BeforeReceipt(retention: Retention, runs: map<RunId, Run>, receipts: seq<Receipt>, s: Reader, r: Record) returns (s5: Reader)
    requires Sound(s) && Settled(retention, runs, receipts, s.tables) && ReadRecord(retention, s, r).Ok?
    ensures Settled(retention, runs, receipts, s5.tables) && ReadReceipt(retention, s5, r) == ReadRecord(retention, s, r)
  {
    hide ReadRecord, ReadPatch, ReadClaim, ReadAuthority, ReadReservation, ReadRelease, ReadReceipt, Closed, Settled;
    var s1, s2, s3, s4;
    s1, s2, s3, s4, s5 := ReadStages(retention, s, r);
    PatchKeepsRuns(s.index, r);
    ClaimSound(s1, r);
    SettledGrows(retention, runs, receipts, s.tables, s2.tables);
    AuthoritySound(s2, r);
    SettledGrows(retention, runs, receipts, s2.tables, s3.tables);
    ReservationGrows(s3, r);
    SettledGrows(retention, runs, receipts, s3.tables, s4.tables);
    ReleaseGrows(s4, r);
    SettledGrows(retention, runs, receipts, s4.tables, s5.tables);
  }

  lemma RecordSettled(o: Oracle, retention: Retention, c: Core, s: Reader, r: Record)
    requires Inv(c) && Agree(c, s) && Sound(s) && Settled(retention, c.runs, c.receipts, s.tables)
    requires Step(o, c, r).Ok? && ReadRecord(retention, s, r).Ok? && Agree(Step(o, c, r).value, ReadRecord(retention, s, r).value)
    ensures Settled(retention, Step(o, c, r).value.runs, Step(o, c, r).value.receipts, ReadRecord(retention, s, r).value.tables)
  {
    hide Step, Inv, Agree, ReadRecord, ReadReceipt, Settled, Sound, SameClaim, RetainedFor, SettlementEvent;
    var c' := Step(o, c, r).value;
    RunsKept(o, c, r);
    SettledSameClaims(retention, c.runs, c'.runs, c.receipts, s.tables);
    var s5 := BeforeReceipt(retention, c'.runs, c.receipts, s, r);
    ReceiptsGrow(o, c, r);
    ReceiptKeepsIndex(retention, s5, r);
    if r.receipt.Some? {
      var id := r.receipt.value.runId;
      ReceiptRunKnown(o, c, r);
      AgreeOnRun(c', ReadRecord(retention, s, r).value, id);
      ReceiptAdds(retention, s5, r, c'.runs[id], c'.latest[id]);
      SettledOneMore(retention, c'.runs, c.receipts, c'.latest[id], s5.tables, ReadRecord(retention, s, r).value.tables);
    }
  }

  lemma ReceiptRunKnown(o: Oracle, c: Core, r: Record)
    requires Inv(c) && Step(o, c, r).Ok? && r.receipt.Some?
    ensures r.receipt.value.runId in Step(o, c, r).value.runs
  {
    hide Step, Inv, Observes, Declares;
    SettledAs(o, c, r);
  }

  /** Over every accepted history: every receipt has its event, at its run's claim, the authority it names and its commit; and
      evidence supports an observation exactly if that observation retains it. */
  lemma {:induction false} ReceiptsSettled(o: Oracle, retention: Retention, history: seq<Record>)
    requires Accepted(o, history) && UniqueCommits(history)
    ensures ReadAll(retention, history).Ok?
    ensures Settled(retention, After(o, history).runs, After(o, history).receipts, ReadAll(retention, history).value.tables)
    decreases |history|
  {
    hide Step, Inv, Agree, ReadRecord, Settled, Sound, Edges, Reservations, EdgesWithin, Holds;
    ReadersAgreeOn(o, retention, history);
    if history == [] {
      NothingSettled(retention);
    } else {
      var n := |history| - 1;
      assert [] + history == history && [] + history[..n] == history[..n];
      LastOf(o, [], history);
      assert UniqueCommits(history[..n]);
      ReceiptsSettled(o, retention, history[..n]);
      ReadersAgreeOn(o, retention, history[..n]);
      TablesClosed(retention, history[..n]);
      HistoryInv(o, history[..n]);
      RecordSettled(o, retention, After(o, history[..n]), ReadAll(retention, history[..n]).value, history[n]);
    }
  }

  lemma NothingSettled(retention: Retention)
    ensures Settled(retention, EmptyCore.runs, EmptyCore.receipts, NewReader.tables)
  {
  }
}
