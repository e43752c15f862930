/** The second reader agrees with the reducer (src/authority/effect-history-projection.ts:391-630,
    src/authority/replay.ts:181-434): it accepts every accepted history, and its permits edges are the reservations. */
module ReadersAgree {
  import opened Facts
  import opened Graph
  import opened Adapter
  import opened Lifecycles
  import opened TransactionAdmission
  import opened Replay
  import opened Invariants
  import opened RunSafety
  import opened FourByFour
  import opened HistoryTables

  // ---------------------------------------------------------------- what the reader should hold for a run

  function PointFor(run: Run, extra: Extra): Point {
    Point(run.obligationId, run.id, run.claimedRevision, run.claimCommit, run.key, run.sourceRevision,
          run.generation, run.authorityCommit, extra)
  }

  /** A first authority comes from the claim, a later one from the rotation that granted it. */
  function GrantSources(run: Run): set<Source> {
    if run.generation == 1
    then {Source(run.claimCommit, ClaimSource)} + if run.sourceRevision.Some? then {Source(run.claimCommit, SourceRevisionSource)} else {}
    else {Source(run.authorityCommit, AuthoritySource)}
  }

  /** The authority object of a run at exactly its generation. */
  function AuthorityObject(run: Run): Object {
    Object(Sha(PointFor(run, Plain)),
           AuthorityValue(run.id, run.obligationId, run.definitionId, run.generation, run.authorityCommit, run.capability),
           GrantSources(run))
  }

  /** The attempt that a reservation recorded by `commit` opens for a run. */
  function AttemptOf(run: Run, commit: CommitId): Event {
    Event(Sha(PointFor(run, AtReservation(commit))),
          AttemptValue(run.id, run.obligationId, run.generation, run.authorityCommit, commit), {Source(commit, ReservationSource)})
  }

  function PermitFor(run: Run, commit: CommitId): Permits {
    Permits(ObjectSha(AuthorityObject(run)), EventSha(AttemptOf(run, commit)), {Source(commit, ReservationSource)})
  }

  // ---------------------------------------------------------------- the coupling

  ghost predicate SameDefinitions(definitions: map<DefinitionId, Definition>, read: map<DefinitionId, Defined>) {
    read.Keys == definitions.Keys && forall d :: d in definitions ==> read[d].definition == definitions[d]
  }

  ghost predicate SameBindings(obs: Obligations, ids: map<ObligationId, DefinitionId>, read: map<ObligationId, Bound>) {
    read.Keys == obs.Keys == ids.Keys && forall id :: id in ids ==> read[id].definitionId == ids[id]
  }

  ghost predicate SameRun(run: Run, read: Claimed) {
    && read.claim.runId == run.id && read.claim.obligationId == run.obligationId
    && read.claim.claimedRevision == run.claimedRevision && read.claim.key == run.key
    && read.claimCommit == run.claimCommit && read.sourceRevision == run.sourceRevision
    && read.binding.definitionId == run.definitionId && run.generation >= 1
    && run.authorityCommit in read.authorities
    && read.authorities[run.authorityCommit] == Granted(AuthorityObject(run), run.generation)
  }

  ghost predicate SameRunTable(runs: map<RunId, Run>, read: map<RunId, Claimed>) {
    read.Keys == runs.Keys && forall r :: r in runs ==> SameRun(runs[r], read[r])
  }

  ghost predicate HeldRead(unresolved: map<RunId, Held>, runs: map<RunId, Run>, read: map<CommitId, Reserved>) {
    forall r :: r in unresolved ==>
      && r in runs && unresolved[r].fact.runId == r && unresolved[r].fact.obligationId == runs[r].obligationId
      && unresolved[r].commit in read && read[unresolved[r].commit].fact == unresolved[r].fact
  }

  ghost predicate Granted4(runs: map<RunId, Run>, t: Tables) {
    forall r :: r in runs ==> ObjectSha(AuthorityObject(runs[r])) in t.objects
  }

  ghost predicate SameGraph(c: Core, ix: Index) {
    SameDefinitions(c.definitions, ix.definitions) && SameBindings(c.obligations, c.definitionIds, ix.bindings)
  }

  ghost predicate Agree(c: Core, s: Reader) {
    && SameGraph(c, s.index) && SameRunTable(c.runs, s.index.runs)
    && HeldRead(c.unresolved, c.runs, s.index.reservations) && Granted4(c.runs, s.tables)
  }

  // ---------------------------------------------------------------- graph patches

  lemma {:induction false} DefinitionsAgree(c: Core, ix: Index, added: seq<Introduced>, source: Source)
    requires SameDefinitions(c.definitions, ix.definitions) && IntroduceAll(c, added).Ok?
    ensures ReadDefinitions(ix, added, source).Ok?
    ensures var c' := IntroduceAll(c, added).value; var ix' := ReadDefinitions(ix, added, source).value;
      && SameDefinitions(c'.definitions, ix'.definitions) && c' == c.(definitions := c'.definitions)
      && ix' == ix.(definitions := ix'.definitions)
    decreases |added|
  {
    if added != [] {
      DefinitionsAgree(c.(definitions := c.definitions[added[0].id := added[0].definition]),
                       ix.(definitions := ix.definitions[added[0].id := Defined(added[0].definition, source)]), added[1..], source);
    }
  }

  lemma {:induction false} BindingsAgree(c: Core, ix: Index, bindings: seq<Binding>, source: Source)
    requires SameGraph(c, ix) && BindAll(c, bindings).Ok?
    ensures ReadBindings(ix, bindings, source).Ok?
    ensures var c' := BindAll(c, bindings).value; var ix' := ReadBindings(ix, bindings, source).value;
      SameGraph(c', ix') && ix' == ix.(bindings := ix'.bindings)
    decreases |bindings|
  {
    if bindings != [] {
      var b := bindings[0];
      var known := ix.definitions[b.definitionId];
      BindingsAgree(c.(obligations := c.obligations[b.node := Materialize(b.node, c.definitions[b.definitionId])],
                       definitionIds := c.definitionIds[b.node := b.definitionId],
                       bindingOrdinals := c.bindingOrdinals[b.node := c.ordinal]),
                    ix.(bindings := ix.bindings[b.node := Bound(b.definitionId, known.definition, {known.source, source})]),
                    bindings[1..], source);
    }
  }

  lemma PatchAgrees(c: Core, ix: Index, now: Refreshed, r: Record)
    requires r.patch.Some? && SameGraph(c, ix) && PatchStep(c, now, r.patch.value).Ok?
    ensures ReadPatch(ix, r).Ok? && SameGraph(PatchStep(c, now, r.patch.value).value, ReadPatch(ix, r).value)
    ensures ReadPatch(ix, r).value.runs == ix.runs && ReadPatch(ix, r).value.reservations == ix.reservations
  {
    hide IntroduceAll, BindAll, ReadDefinitions, ReadBindings, HasInFlight, PatchError;
    var p := r.patch.value;
    var source := Source(r.commit, PatchSource);
    DefinitionsAgree(c, ix, p.definitions, source);
    var c1, ix1 := IntroduceAll(c, p.definitions).value, ReadDefinitions(ix, p.definitions, source).value;
    RetireAllIs(c1, p.retire);
    var ix2 := ix1.(bindings := ix1.bindings - (set id | id in p.retire));
    RetiredAgrees(c1, ix1, p.retire);
    BindingsAgree(Without(c1, Members(p.retire)), ix2, p.bindings, source);
  }

  lemma RetiredAgrees(c: Core, ix: Index, retire: seq<ObligationId>)
    requires SameGraph(c, ix)
    ensures SameGraph(Without(c, Members(retire)), ix.(bindings := ix.bindings - (set id | id in retire)))
  {
  }

  lemma AfterPatchAgrees(c: Core, s: Reader, r: Record)
    requires Agree(c, s) && StateInv(c) && AfterPatch(c, r).Ok?
    ensures ReadPatch(s.index, r).Ok? && Agree(AfterPatch(c, r).value, s.(index := ReadPatch(s.index, r).value))
    ensures ReadPatch(s.index, r).value.reservations == s.index.reservations
  {
    hide Lives, PatchStep, SameGraph, StateInv, SameRunTable, HeldRead, Granted4;
    if r.patch.Some? {
      PatchAgrees(c, s.index, Lives(ViewOf(c)), r);
      PatchKeeps(c, Lives(ViewOf(c)), r.patch.value);
    }
  }

  // ---------------------------------------------------------------- frames of the reader's tables

  ghost predicate Extends(t: Tables, t': Tables) {
    t'.permits == t.permits && t.objects.Keys <= t'.objects.Keys
  }

  lemma {:induction false} DependenciesExtend(t: Tables, root: Proposition, deps: seq<Dependency>)
    ensures Extends(t, RequireDependencies(t, root, deps))
    decreases |deps|
  {
    if deps != [] {
      var required := Proposition(root.coordinate, DependencyHolds(deps[0]), root.sources);
      DependenciesExtend(AddRequires(AddProposition(t, required), Requires(PropositionSha(root), PropositionSha(required), root.sources)),
                         root, deps[1..]);
    }
  }

  lemma {:induction false} RetainExtends(t: Tables, at: Digest<Point>, proposition: Proposition, evidence: seq<string>, sources: set<Source>)
    ensures Extends(t, Retain(t, at, proposition, evidence, sources))
    decreases |evidence|
  {
    if evidence != [] {
      var kept := Object(at, RetainedValue(evidence[0]), sources);
      RetainExtends(AddSupports(AddObject(t, kept), Supports(ObjectSha(kept), PropositionSha(proposition), sources)),
                    at, proposition, evidence[1..], sources);
    }
  }

  lemma RequirementsExtend(t: Tables, run: Claimed, at: Digest<Point>, sources: set<Source>)
    ensures Extends(t, ClaimRequirements(t, run, at, sources))
  {
    hide RequireDependencies;
    var all := run.binding.sources + sources;
    var obligation := Proposition(at, ObligationSatisfied(run.claim.obligationId, run.binding.definitionId), all);
    var post := Proposition(at, PostconditionHolds(run.binding.definition.post), all);
    DependenciesExtend(
      AddRequires(AddProposition(AddProposition(t, obligation), post), Requires(PropositionSha(obligation), PropositionSha(post), all)),
      obligation, run.binding.definition.dependencies);
  }

  // ---------------------------------------------------------------- claims and authority

  lemma OpenedAgrees(c: Core, ix: Index, r: Record, claim: Claim)
    requires SameGraph(c, ix) && claim.obligationId in c.obligations
    ensures claim.obligationId in ix.bindings && claim.obligationId in c.definitionIds
    ensures SameRun(ClaimedRun(c, r, claim), OpenedRun(ix, r, claim))
    ensures FirstAuthority(OpenedRun(ix, r, claim), r) == AuthorityObject(ClaimedRun(c, r, claim))
  {
  }

  lemma ClaimAccepted(c: Core, ix: Index, now: Refreshed, r: Record, claim: Claim)
    requires SameGraph(c, ix) && ix.runs.Keys == c.runs.Keys && ClaimStep(c, now, r, claim).Ok?
    ensures ClaimError(ix, r, claim).None?
    ensures claim.obligationId in c.obligations && claim.obligationId in c.definitionIds && claim.runId !in c.runs
    ensures ClaimStep(c, now, r, claim).value == WithRun(c, ClaimedRun(c, r, claim))
  {
    hide Prerequisites, ValidId;
  }

  /** What the reader holds after an accepted claim. */
  lemma ClaimRead(s: Reader, r: Record)
    requires r.claim.Some? && ClaimError(s.index, r, r.claim.value).None?
    ensures ReadClaim(s, r).Ok? && r.claim.value.obligationId in s.index.bindings
    ensures var run := OpenedRun(s.index, r, r.claim.value);
      && ReadClaim(s, r).value.index == s.index.(runs := s.index.runs[r.claim.value.runId := run])
      && Extends(s.tables, ReadClaim(s, r).value.tables)
      && ObjectSha(FirstAuthority(run, r)) in ReadClaim(s, r).value.tables.objects
  {
    hide ClaimRequirements, ClaimError, FirstAuthority, PointOf;
    ClaimBound(s.index, r, r.claim.value);
    var run := OpenedRun(s.index, r, r.claim.value);
    var point := PointOf(run, 1, r.commit, Plain);
    var t := AddCoordinate(s.tables, point, run.binding.sources + ClaimSources(r));
    RequirementsExtend(AddObject(t, FirstAuthority(run, r)), run, Sha(point), ClaimSources(r));
  }

  lemma WithRunAgrees(c: Core, s: Reader, s': Reader, run: Run, read: Claimed)
    requires Agree(c, s) && run.id !in c.runs && SameRun(run, read)
    requires s'.index == s.index.(runs := s.index.runs[run.id := read]) && Extends(s.tables, s'.tables)
    requires ObjectSha(AuthorityObject(run)) in s'.tables.objects
    ensures Agree(WithRun(c, run), s')
  {
    hide SameRun, AuthorityObject, SameDefinitions, SameBindings;
  }

  lemma AfterClaimAgrees(c: Core, s: Reader, r: Record)
    requires Agree(c, s) && AfterClaim(c, r).Ok?
    ensures ReadClaim(s, r).Ok? && Agree(AfterClaim(c, r).value, ReadClaim(s, r).value)
    ensures Extends(s.tables, ReadClaim(s, r).value.tables) && ReadClaim(s, r).value.index.reservations == s.index.reservations
  {
    hide Lives, ClaimStep, SameRun, FirstAuthority, AuthorityObject, ClaimError, SameDefinitions, SameBindings, HeldRead, Granted4;
    if r.claim.Some? {
      hide ReadClaim;
      var claim := r.claim.value;
      ClaimAccepted(c, s.index, Lives(ViewOf(c)), r, claim);
      OpenedAgrees(c, s.index, r, claim);
      ClaimRead(s, r);
      WithRunAgrees(c, s, ReadClaim(s, r).value, ClaimedRun(c, r, claim), OpenedRun(s.index, r, claim));
    }
  }

  lemma RotatedAgrees(run: Run, read: Claimed, r: Record, fact: Authority)
    requires SameRun(run, read) && AuthorityAdvanceError(run, fact).None?
    ensures fact.previousAuthority in read.authorities
    ensures NextAuthority(read, r, fact) == AuthorityObject(Rotated(run, r, fact))
    ensures SameRun(Rotated(run, r, fact), read.(authorities := read.authorities[r.commit := Granted(NextAuthority(read, r, fact), fact.generation)]))
  {
  }

  lemma AuthorityAccepted(c: Core, now: Refreshed, r: Record, fact: Authority)
    requires RunsNamed(c.runs) && AuthorityStep(c, now, r, fact).Ok?
    ensures fact.runId in c.runs && AuthorityAdvanceError(c.runs[fact.runId], fact).None?
    ensures AuthorityStep(c, now, r, fact).value == c.(runs := c.runs[fact.runId := Rotated(c.runs[fact.runId], r, fact)])
  {
  }

  lemma AuthorityRead(s: Reader, r: Record)
    requires r.authority.Some? && r.authority.value.runId in s.index.runs
    requires r.authority.value.previousAuthority in s.index.runs[r.authority.value.runId].authorities
    ensures var fact := r.authority.value; var run := s.index.runs[fact.runId]; var next := NextAuthority(run, r, fact);
      && ReadAuthority(s, r).Ok?
      && ReadAuthority(s, r).value.index ==
           s.index.(runs := s.index.runs[fact.runId := run.(authorities := run.authorities[r.commit := Granted(next, fact.generation)])])
      && Extends(s.tables, ReadAuthority(s, r).value.tables) && ObjectSha(next) in ReadAuthority(s, r).value.tables.objects
  {
  }

  lemma RotationAgrees(c: Core, s: Reader, s': Reader, id: RunId, run: Run, read: Claimed)
    requires Agree(c, s) && id in c.runs && run.obligationId == c.runs[id].obligationId && SameRun(run, read)
    requires s'.index == s.index.(runs := s.index.runs[id := read]) && Extends(s.tables, s'.tables)
    requires ObjectSha(AuthorityObject(run)) in s'.tables.objects
    ensures Agree(c.(runs := c.runs[id := run]), s')
  {
    hide SameRun, AuthorityObject, SameDefinitions, SameBindings;
  }

  lemma AfterAuthorityAgrees(c: Core, s: Reader, r: Record)
    requires Agree(c, s) && RunsNamed(c.runs) && AfterAuthority(c, r).Ok?
    ensures ReadAuthority(s, r).Ok? && Agree(AfterAuthority(c, r).value, ReadAuthority(s, r).value)
    ensures Extends(s.tables, ReadAuthority(s, r).value.tables) && ReadAuthority(s, r).value.index.reservations == s.index.reservations
  {
    hide Lives, AuthorityStep, SameRun, AuthorityObject, NextAuthority, SameGraph, HeldRead, Granted4, AuthorityAdvanceError, RunsNamed;
    if r.authority.Some? {
      hide ReadAuthority;
      var fact := r.authority.value;
      AuthorityAccepted(c, Lives(ViewOf(c)), r, fact);
      var run, read := c.runs[fact.runId], s.index.runs[fact.runId];
      RotatedAgrees(run, read, r, fact);
      AuthorityRead(s, r);
      RotationAgrees(c, s, ReadAuthority(s, r).value, fact.runId, Rotated(run, r, fact),
                     read.(authorities := read.authorities[r.commit := Granted(NextAuthority(read, r, fact), fact.generation)]));
    }
  }

  // ---------------------------------------------------------------- reservations, releases, receipts

  lemma ReservationAccepted(c: Core, now: Refreshed, r: Record, fact: Reservation)
    requires RunsNamed(c.runs) && ReservationStep(c, now, r, fact).Ok?
    ensures fact.runId in c.runs && ReservationAuthorityError(c.runs[fact.runId], fact, false).None?
    ensures ReservationStep(c, now, r, fact).value == c.(unresolved := c.unresolved[fact.runId := Held(fact, r.commit)])
  {
  }

  lemma ReservationReadIs(run: Run, read: Claimed, fact: Reservation, commit: CommitId)
    requires SameRun(run, read) && ReservationAuthorityError(run, fact, false).None?
    ensures fact.authorityCommit in read.authorities && read.authorities[fact.authorityCommit].generation == fact.generation
    ensures read.authorities[fact.authorityCommit].subject == AuthorityObject(run)
    ensures AttemptEvent(read, fact, commit) == AttemptOf(run, commit)
  {
  }

  lemma HoldAgrees(c: Core, s: Reader, s': Reader, fact: Reservation, commit: CommitId, event: Event)
    requires Agree(c, s) && commit !in s.index.reservations
    requires fact.runId in c.runs && fact.obligationId == c.runs[fact.runId].obligationId
    requires s'.index == s.index.(reservations := s.index.reservations[commit := Reserved(fact, event)])
    requires s'.tables.objects == s.tables.objects
    ensures Agree(c.(unresolved := c.unresolved[fact.runId := Held(fact, commit)]), s')
  {
    hide SameRun, AuthorityObject, SameDefinitions, SameBindings;
  }

  lemma ReservationRead(s: Reader, r: Record, run: Run)
    requires r.reservation.Some? && r.reservation.value.runId in s.index.runs
    requires SameRun(run, s.index.runs[r.reservation.value.runId]) && ReservationAuthorityError(run, r.reservation.value, false).None?
    ensures ReadReservation(s, r).Ok?
    ensures var s' := ReadReservation(s, r).value; var permit := PermitFor(run, r.commit);
      && s'.index == s.index.(reservations := s.index.reservations[r.commit := Reserved(r.reservation.value, AttemptOf(run, r.commit))])
      && s'.tables.objects == s.tables.objects && s'.tables.permits == s.tables.permits[Sha(permit) := permit]
  {
    hide SameRun, ReservationAuthorityError, AuthorityObject, AttemptEvent, AttemptOf;
    ReservationReadIs(run, s.index.runs[r.reservation.value.runId], r.reservation.value, r.commit);
  }

  lemma AfterReservationAgrees(c: Core, s: Reader, r: Record)
    requires Agree(c, s) && RunsNamed(c.runs) && AfterReservation(c, r).Ok? && r.commit !in s.index.reservations
    ensures ReadReservation(s, r).Ok? && Agree(AfterReservation(c, r).value, ReadReservation(s, r).value)
    ensures r.reservation.None? ==> ReadReservation(s, r).value == s
    ensures r.reservation.Some? ==>
      && r.reservation.value.runId in c.runs
      && var permit := PermitFor(c.runs[r.reservation.value.runId], r.commit);
         ReadReservation(s, r).value.tables.permits == s.tables.permits[Sha(permit) := permit]
    ensures ReadReservation(s, r).value.index.reservations.Keys <= s.index.reservations.Keys + {r.commit}
  {
    hide Lives, ReservationStep, SameRun, PermitFor, AttemptOf, SameGraph, HeldRead, Granted4, ReservationAuthorityError, RunsNamed;
    if r.reservation.Some? {
      hide ReadReservation;
      var fact := r.reservation.value;
      ReservationAccepted(c, Lives(ViewOf(c)), r, fact);
      ReservationObligation(c.runs[fact.runId], fact);
      ReservationRead(s, r, c.runs[fact.runId]);
      HoldAgrees(c, s, ReadReservation(s, r).value, fact, r.commit, AttemptOf(c.runs[fact.runId], r.commit));
    }
  }

  lemma ReservationObligation(run: Run, fact: Reservation)
    requires ReservationAuthorityError(run, fact, false).None?
    ensures fact.obligationId == run.obligationId && fact.runId == run.id
  {
  }

  lemma ReleaseAccepted(o: Oracle, c: Core, now: Refreshed, r: Record, fact: Release)
    requires RunsNamed(c.runs) && ReleaseStep(o, c, now, r, fact).Ok?
    ensures ReleaseFactValid(fact) && fact.runId in c.runs && fact.runId in c.unresolved
    ensures ReleaseAuthorityError(c.runs[fact.runId], c.unresolved[fact.runId], fact).None?
    ensures ReleaseStep(o, c, now, r, fact).value == c.(unresolved := c.unresolved - {fact.runId})
  {
    hide WitnessSafe;
  }

  lemma AfterReleaseAgrees(o: Oracle, c: Core, s: Reader, r: Record)
    requires Agree(c, s) && RunsNamed(c.runs) && AfterRelease(o, c, r).Ok?
    ensures ReadRelease(s, r).Ok? && Agree(AfterRelease(o, c, r).value, ReadRelease(s, r).value)
    ensures Extends(s.tables, ReadRelease(s, r).value.tables) && ReadRelease(s, r).value.index == s.index
  {
    hide Lives, ReleaseStep, SameRun, AuthorityObject, SameGraph, ReleaseFactValid;
    if r.release.Some? {
      ReleaseAccepted(o, c, Lives(ViewOf(c)), r, r.release.value);
      SameGraphStays(c, s.index, AfterRelease(o, c, r).value, s.index);
    }
  }

  lemma ReceiptGranted(run: Run, read: Claimed, fact: ReceiptFact)
    requires SameRun(run, read) && ReceiptAuthorityError(run, fact).None?
    ensures fact.authorityCommit in read.authorities && read.authorities[fact.authorityCommit].generation == fact.generation
  {
  }

  /** A receipt known to carry the run's current authority is read, and changes neither indexes nor permits. */
  lemma ReceiptRead(retention: Retention, s: Reader, r: Record)
    requires r.receipt.Some? && r.receipt.value.runId in s.index.runs
    requires var fact := r.receipt.value; var run := s.index.runs[fact.runId];
      fact.authorityCommit in run.authorities && run.authorities[fact.authorityCommit].generation == fact.generation
    ensures ReadReceipt(retention, s, r).Ok? && ReadReceipt(retention, s, r).value.index == s.index
    ensures Extends(s.tables, ReadReceipt(retention, s, r).value.tables)
  {
    hide Retain, Asserted;
    var fact := r.receipt.value;
    var run := s.index.runs[fact.runId];
    var point := PointOf(run, fact.generation, fact.authorityCommit, AtSettlement(r.commit));
    var sources := {Source(r.commit, ReceiptSource)};
    var event := Event(Sha(point), SettlementValue(fact.kind, fact.observed, fact.diagnostic), sources);
    var t := AddEvent(AddCoordinate(s.tables, point, sources), event);
    var (proposition, own) := Asserted(s.index, r, fact, Sha(point));
    var t1 := if own then AddProposition(t, proposition) else t;
    var t2 := AddAsserts(t1, Asserts(EventSha(event), PropositionSha(proposition), sources));
    if fact.observed.Some? { RetainExtends(t2, Sha(point), proposition, retention(fact.observed.value), sources); }
  }

  lemma ReceiptAccepted(o: Oracle, c: Core, now: Refreshed, r: Record, fact: ReceiptFact, released: bool)
    requires ReceiptStep(o, c, now, r, fact, released).Ok?
    ensures fact.runId in c.runs && ReceiptAuthorityError(c.runs[fact.runId], fact).None?
  {
    hide ReceiptRejection, ProjectReceipt;
  }

  lemma AfterReceiptAgrees(o: Oracle, retention: Retention, c: Core, s: Reader, r: Record)
    requires Agree(c, s) && RunsNamed(c.runs) && AfterReceipt(o, c, r).Ok?
    ensures ReadReceipt(retention, s, r).Ok? && Agree(AfterReceipt(o, c, r).value, ReadReceipt(retention, s, r).value)
    ensures Extends(s.tables, ReadReceipt(retention, s, r).value.tables) && ReadReceipt(retention, s, r).value.index == s.index
  {
    hide Lives, ReceiptStep, SameRun, AuthorityObject, SameGraph, RunsNamed;
    if r.receipt.Some? {
      hide ReadReceipt, AfterReceipt;
      var fact := r.receipt.value;
      assert ReceiptStep(o, c, Lives(ViewOf(c)), r, fact, r.release.Some?).Ok? by { AfterReceiptIs(o, c, r); }
      ReceiptAccepted(o, c, Lives(ViewOf(c)), r, fact, r.release.Some?);
      ReceiptGranted(c.runs[fact.runId], s.index.runs[fact.runId], fact);
      ReceiptRead(retention, s, r);
      ReceiptTables(o, c, r);
      AfterReceiptKeepsGraph(o, c, r);
      SameGraphStays(c, s.index, AfterReceipt(o, c, r).value, s.index);
    }
  }

  lemma AfterReceiptIs(o: Oracle, c: Core, r: Record)
    requires r.receipt.Some?
    ensures AfterReceipt(o, c, r) == ReceiptStep(o, c, Lives(ViewOf(c)), r, r.receipt.value, r.release.Some?)
  {
    hide ReceiptStep, Lives;
  }

  lemma AfterReceiptKeepsGraph(o: Oracle, c: Core, r: Record)
    requires AfterReceipt(o, c, r).Ok?
    ensures var c' := AfterReceipt(o, c, r).value;
      c'.obligations == c.obligations && c'.definitionIds == c.definitionIds && c'.definitions == c.definitions
  {
    hide Lives, ReceiptRejection, ProjectReceipt;
  }

  lemma SameGraphStays(c: Core, ix: Index, c': Core, ix': Index)
    requires SameGraph(c, ix) && ix'.definitions == ix.definitions && ix'.bindings == ix.bindings
    requires c'.obligations == c.obligations && c'.definitionIds == c.definitionIds && c'.definitions == c.definitions
    ensures SameGraph(c', ix')
  {
  }

  // ---------------------------------------------------------------- whole records and histories

  /** One record: the reader accepts what the reducer accepts, and adds a permits edge exactly for a reservation. */
  lemma RecordAgrees(o: Oracle, retention: Retention, c: Core, s: Reader, r: Record)
    requires Inv(c) && Agree(c, s) && Step(o, c, r).Ok? && r.commit !in s.index.reservations
    ensures ReadRecord(retention, s, r).Ok? && Agree(Step(o, c, r).value, ReadRecord(retention, s, r).value)
    ensures ReadRecord(retention, s, r).value.index.reservations.Keys <= s.index.reservations.Keys + {r.commit}
    ensures r.reservation.None? ==> ReadRecord(retention, s, r).value.tables.permits == s.tables.permits
    ensures r.reservation.Some? ==>
      && r.reservation.value.runId in Step(o, c, r).value.runs
      && var permit := PermitFor(Step(o, c, r).value.runs[r.reservation.value.runId], r.commit);
         ReadRecord(retention, s, r).value.tables.permits == s.tables.permits[Sha(permit) := permit]
  {
    hide Step, AfterPatch, AfterClaim, AfterAuthority, AfterReservation, AfterRelease, AfterReceipt, OrderInv, OneLiveRun, HeldOpen, HeldBound, StateInv;
    hide ReadPatch, ReadClaim, ReadAuthority, ReadReservation, ReadRelease, ReadReceipt, Agree, PermitFor, RunsNamed;
    var c1, c2, c3, c4, c5 := Stages(o, c, r);
    BumpKeeps(c);
    BumpAgrees(c, s);
    AfterPatchKeeps(Bump(c), r);
    AfterPatchAgrees(Bump(c), s, r);
    var s1 := s.(index := ReadPatch(s.index, r).value);
    AfterClaimKeeps(c1, r);
    AfterClaimAgrees(c1, s1, r);
    var s2 := ReadClaim(s1, r).value;
    AfterAuthorityKeeps(c2, r);
    AfterAuthorityAgrees(c2, s2, r);
    var s3 := ReadAuthority(s2, r).value;
    ReservationTables(c3, r);
    AfterReservationAgrees(c3, s3, r);
    var s4 := ReadReservation(s3, r).value;
    ReleaseTables(o, c4, r);
    AfterReleaseAgrees(o, c4, s4, r);
    var s5 := ReadRelease(s4, r).value;
    ReceiptTables(o, c5, r);
    AfterReceiptAgrees(o, retention, c5, s5, r);
  }

  lemma BumpAgrees(c: Core, s: Reader)
    requires Agree(c, s)
    ensures Agree(Bump(c), s)
  {
  }

  function Commits(history: seq<Record>): set<CommitId> { set r | r in history :: r.commit }

  predicate UniqueCommits(history: seq<Record>) {
    forall i, j :: 0 <= i < j < |history| ==> history[i].commit != history[j].commit
  }

  /** The permits edges a history should have: one per reservation, from the run's authority at that point. */
  ghost function Edges(o: Oracle, history: seq<Record>): seq<Permits>
    requires Accepted(o, history)
  {
    if history == [] then []
    else
      var n := |history| - 1;
      var r := history[n];
      assert Accepted(o, history[..n]);
      Edges(o, history[..n])
      + if r.reservation.Some? && r.reservation.value.runId in After(o, history).runs
        then [PermitFor(After(o, history).runs[r.reservation.value.runId], r.commit)] else []
  }

  function Reservations(history: seq<Record>): nat {
    if history == [] then 0
    else Reservations(history[..|history| - 1]) + if history[|history| - 1].reservation.Some? then 1 else 0
  }

  /** The permits table holds exactly these edges, each once. */
  ghost predicate Holds(permits: map<Digest<Permits>, Permits>, edges: seq<Permits>) {
    && |permits| == |edges|
    && (forall p :: p in edges ==> Sha(p) in permits)
    && (forall id :: id in permits ==> id == Sha(permits[id]) && permits[id] in edges)
  }

  lemma HoldsOneMore(permits: map<Digest<Permits>, Permits>, edges: seq<Permits>, p: Permits)
    requires Holds(permits, edges) && p !in edges
    ensures Holds(permits[Sha(p) := p], edges + [p])
  {
    assert Sha(p) !in permits;
    assert permits[Sha(p) := p].Keys == permits.Keys + {Sha(p)};
    var more := permits[Sha(p) := p];
    forall id | id in more ensures more[id] in edges + [p] {
      if id != Sha(p) { assert permits[id] in edges; }
    }
  }

  ghost predicate EdgesWithin(edges: seq<Permits>, commits: set<CommitId>) {
    forall p :: p in edges ==>
      p.event.preimage.value.AttemptValue? && p.event.preimage.value.reservation in commits
  }

  /** Two readers agree: every history the reducer accepts is accepted by the second reader, and the permits edges
      it yields are exactly the reservations', each from the authority object of the run's exact generation. */
  lemma {:induction false} ReadersAgreeOn(o: Oracle, retention: Retention, history: seq<Record>)
    requires Accepted(o, history) && UniqueCommits(history)
    ensures ReadAll(retention, history).Ok? && Agree(After(o, history), ReadAll(retention, history).value)
    ensures Holds(ReadAll(retention, history).value.tables.permits, Edges(o, history))
    ensures |Edges(o, history)| == Reservations(history) && EdgesWithin(Edges(o, history), Commits(history))
    ensures ReadAll(retention, history).value.index.reservations.Keys <= Commits(history)
    decreases |history|
  {
    hide Step, ReadRecord, Agree, Inv;
    if history == [] {
      EmptyAgree();
    } else {
      var n := |history| - 1;
      var before, r := history[..n], history[n];
      assert before + [r] == history;
      Snoc(o, before, r);
      HistoryInv(o, before);
      ReadersAgreeOn(o, retention, before);
      FreshCommit(history);
      RecordAgrees(o, retention, After(o, before), ReadAll(retention, before).value, r);
      OneMoreEdge(o, before, r, ReadAll(retention, before).value.tables.permits, ReadAll(retention, history).value.tables.permits);
    }
  }

  lemma EmptyAgree()
    ensures Agree(EmptyCore, NewReader)
  {
  }

  lemma FreshCommit(history: seq<Record>)
    requires history != [] && UniqueCommits(history)
    ensures var n := |history| - 1;
      history[n].commit !in Commits(history[..n]) && Commits(history) == Commits(history[..n]) + {history[n].commit}
  {
    var n := |history| - 1;
    assert history == history[..n] + [history[n]];
    forall r | r in history[..n] ensures r.commit != history[n].commit {
      var i :| 0 <= i < n && history[..n][i] == r;
      assert history[i] == r;
    }
  }

  lemma EdgesSnoc(o: Oracle, before: seq<Record>, r: Record)
    requires Accepted(o, before) && Accepted(o, before + [r])
    requires r.reservation.Some? ==> r.reservation.value.runId in After(o, before + [r]).runs
    ensures Edges(o, before + [r]) == Edges(o, before)
      + if r.reservation.Some? then [PermitFor(After(o, before + [r]).runs[r.reservation.value.runId], r.commit)] else []
    ensures Reservations(before + [r]) == Reservations(before) + if r.reservation.Some? then 1 else 0
  {
    hide PermitFor, After, Accepted;
    assert (before + [r])[..|before|] == before;
  }

  lemma PermitCommit(run: Run, commit: CommitId)
    ensures var value := PermitFor(run, commit).event.preimage.value; value.AttemptValue? && value.reservation == commit
  {
  }

  lemma OneMoreEdge(o: Oracle, before: seq<Record>, r: Record, permits: map<Digest<Permits>, Permits>, more: map<Digest<Permits>, Permits>)
    requires Accepted(o, before) && Accepted(o, before + [r]) && UniqueCommits(before + [r])
    requires Holds(permits, Edges(o, before)) && |Edges(o, before)| == Reservations(before) && EdgesWithin(Edges(o, before), Commits(before))
    requires r.reservation.None? ==> more == permits
    requires r.reservation.Some? ==>
      && r.reservation.value.runId in After(o, before + [r]).runs
      && var permit := PermitFor(After(o, before + [r]).runs[r.reservation.value.runId], r.commit);
         more == permits[Sha(permit) := permit]
    ensures Holds(more, Edges(o, before + [r]))
    ensures |Edges(o, before + [r])| == Reservations(before + [r]) && EdgesWithin(Edges(o, before + [r]), Commits(before + [r]))
  {
    hide After, Accepted, Edges, Reservations, PermitFor, Holds, UniqueCommits, Commits;
    EdgesSnoc(o, before, r);
    FreshCommit(before + [r]);
    assert (before + [r])[..|before|] == before;
    if r.reservation.Some? {
      var run := After(o, before + [r]).runs[r.reservation.value.runId];
      PermitCommit(run, r.commit);
      HoldsOneMore(permits, Edges(o, before), PermitFor(run, r.commit));
    } else {
      assert Edges(o, before) + [] == Edges(o, before);
    }
  }

  lemma {:induction false} EdgeAt(o: Oracle, history: seq<Record>, k: nat)
    requires Accepted(o, history) && UniqueCommits(history) && k < |history| && history[k].reservation.Some?
    ensures Accepted(o, history[..k + 1]) && history[k].reservation.value.runId in After(o, history[..k + 1]).runs
    ensures PermitFor(After(o, history[..k + 1]).runs[history[k].reservation.value.runId], history[k].commit) in Edges(o, history)
    decreases |history|
  {
    hide Step, PermitFor, Inv;
    var n := |history| - 1;
    var before, r := history[..n], history[n];
    assert before + [r] == history;
    Snoc(o, before, r);
    HistoryInv(o, before);
    if k < n {
      EdgeAt(o, before, k);
      assert before[..k + 1] == history[..k + 1];
    } else {
      assert history[..k + 1] == history;
      var c3, c4, c5 := StageTables(o, After(o, before), r);
      ReservedRun(c3, r);
    }
  }

  lemma ReservedRun(c: Core, r: Record)
    requires RunsInv(c) && AfterReservation(c, r).Ok? && r.reservation.Some?
    ensures r.reservation.value.runId in c.runs
  {
    ReservationTables(c, r);
  }

  lemma {:induction false} EdgeFrom(o: Oracle, history: seq<Record>, p: Permits)
    requires Accepted(o, history) && p in Edges(o, history)
    ensures exists k ::
      && 0 <= k < |history| && history[k].reservation.Some? && Accepted(o, history[..k + 1])
      && history[k].reservation.value.runId in After(o, history[..k + 1]).runs
      && p == PermitFor(After(o, history[..k + 1]).runs[history[k].reservation.value.runId], history[k].commit)
    decreases |history|
  {
    hide Step, PermitFor;
    var n := |history| - 1;
    var before, r := history[..n], history[n];
    assert before + [r] == history;
    Snoc(o, before, r);
    if p in Edges(o, before) {
      EdgeFrom(o, before, p);
      var k :| 0 <= k < |before| && before[k].reservation.Some? && Accepted(o, before[..k + 1])
        && before[k].reservation.value.runId in After(o, before[..k + 1]).runs
        && p == PermitFor(After(o, before[..k + 1]).runs[before[k].reservation.value.runId], before[k].commit);
      assert before[..k + 1] == history[..k + 1] && before[k] == history[k];
    } else {
      assert history[..n + 1] == history;
    }
  }

  /** Every reservation has exactly one permits edge, and that edge comes from the authority object of the run's
      generation when it reserved: one more than the rotations accepted so far. */
  lemma {:induction false} ReservationPermitted(o: Oracle, retention: Retention, history: seq<Record>, k: nat)
    requires Accepted(o, history) && UniqueCommits(history) && k < |history| && history[k].reservation.Some?
    ensures ReadAll(retention, history).Ok? && Accepted(o, history[..k + 1])
    ensures var permits := ReadAll(retention, history).value.tables.permits; var id := history[k].reservation.value.runId;
      && id in After(o, history[..k + 1]).runs
      && var run := After(o, history[..k + 1]).runs[id]; var edge := PermitFor(run, history[k].commit);
         && edge in permits.Values
         && run.generation == 1 + RotationsOf(history[..k + 1], id)
         && forall p :: p in permits.Values && p.event.preimage.value.AttemptValue? && p.event.preimage.value.reservation == history[k].commit
              ==> p == edge
  {
    hide Agree, ReadAll, Edges, PermitFor, EdgesWithin, Reservations;
    ReadersAgreeOn(o, retention, history);
    EdgeAt(o, history, k);
    var permits, id := ReadAll(retention, history).value.tables.permits, history[k].reservation.value.runId;
    var edge := PermitFor(After(o, history[..k + 1]).runs[id], history[k].commit);
    assert permits[Sha(edge)] == edge;
    GenerationCountsRotations(o, history[..k + 1], id);
    forall p | p in permits.Values && p.event.preimage.value.AttemptValue? && p.event.preimage.value.reservation == history[k].commit
      ensures p == edge
    {
      EdgeFrom(o, history, p);
      var j :| 0 <= j < |history| && history[j].reservation.Some? && Accepted(o, history[..j + 1])
        && history[j].reservation.value.runId in After(o, history[..j + 1]).runs
        && p == PermitFor(After(o, history[..j + 1]).runs[history[j].reservation.value.runId], history[j].commit);
      PermitCommit(After(o, history[..j + 1]).runs[history[j].reservation.value.runId], history[j].commit);
    }
  }

  /** In particular, for every accepted history: the tables are closed, and each reservation, release and receipt is booked
      exactly once with what it says. */
  lemma {:induction false} AcceptedHistoryBooked(o: Oracle, retention: Retention, history: seq<Record>)
    requires Accepted(o, history) && UniqueCommits(history)
    ensures ReadAll(retention, history).Ok?
    ensures var s := ReadAll(retention, history).value; Sound(s) && Books(s.tables, history) && Contents(s.tables, history)
  {
    hide ReadAll, Agree, Edges, Books, Contents, Sound, Reservations, EdgesWithin;
    ReadersAgreeOn(o, retention, history);
    TablesClosed(retention, history);
    FactsBookedOnce(retention, history);
  }
}
