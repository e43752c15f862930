/** The second reader of the fact log: coordinates, objects, events and propositions with the edges between them
    (src/authority/effect-history-projection.ts).

    An identifier is the injective digest of what it names, and a list of sources is the set that the source sorts. */
module FourByFour {
  import opened Facts
  import opened Replay

  // ---------------------------------------------------------------- the projected items

  datatype FactKind =
    | PatchSource | ClaimSource | SourceRevisionSource | AuthoritySource | ReservationSource | ReleaseSource | ReceiptSource

  datatype Source = Source(commit: CommitId, fact: FactKind)

  datatype Extra = Plain | AtReservation(reservation: CommitId) | AtSettlement(settlement: CommitId)

  datatype Point = Point(
    obligationId: ObligationId, runId: RunId, claimedRevision: CommitId, claimCommit: CommitId, key: Key,
    sourceRevision: Option<string>, generation: nat, authorityCommit: CommitId, extra: Extra)

  datatype Coordinate = Coordinate(point: Point, sources: set<Source>)

  datatype ObjectValue =
    | AuthorityValue(runId: RunId, obligationId: ObligationId, definitionId: DefinitionId, generation: nat,
                     authorityCommit: CommitId, capability: Digest<string>)
    | ReleaseEvidenceValue(contract: EffectContract, evidenceKind: EvidenceKind, evidence: Witness, ref: Digest<Witness>)
    | RetainedValue(retained: string)

  datatype Object = Object(coordinate: Digest<Point>, value: ObjectValue, sources: set<Source>)

  datatype EventValue =
    | AttemptValue(runId: RunId, obligationId: ObligationId, generation: nat, authorityCommit: CommitId, reservation: CommitId)
    | SettlementValue(kind: Kind, observed: Option<Observation>, diagnostic: Diagnostic)

  datatype Event = Event(coordinate: Digest<Point>, value: EventValue, sources: set<Source>)

  datatype PropositionValue =
    | ObligationSatisfied(obligationId: ObligationId, definitionId: DefinitionId)
    | PostconditionHolds(post: Postcondition)
    | DependencyHolds(dependency: Dependency)
    | NotDispatched(contract: EffectContract, evidenceKind: EvidenceKind, ref: Digest<Witness>)
    | Observed(observation: Observation)
    | Recorded(kind: Kind, diagnostic: Diagnostic)

  datatype Proposition = Proposition(coordinate: Digest<Point>, value: PropositionValue, sources: set<Source>)

  // digests of the items, by kind
  datatype ObjectId = ObjectSha(preimage: Object)
  datatype EventId = EventSha(preimage: Event)
  datatype PropositionId = PropositionSha(preimage: Proposition)

  datatype Permits = Permits(subject: ObjectId, event: EventId, sources: set<Source>)
  datatype Asserts = Asserts(event: EventId, proposition: PropositionId, sources: set<Source>)
  datatype Supports = Supports(subject: ObjectId, proposition: PropositionId, sources: set<Source>)
  datatype Requires = Requires(proposition: PropositionId, required: PropositionId, sources: set<Source>)

  datatype Tables = Tables(
    coordinates: map<Digest<Point>, Coordinate>,
    objects: map<ObjectId, Object>,
    events: map<EventId, Event>,
    propositions: map<PropositionId, Proposition>,
    permits: map<Digest<Permits>, Permits>,
    asserts: map<Digest<Asserts>, Asserts>,
    supports: map<Digest<Supports>, Supports>,
    requirements: map<Digest<Requires>, Requires>)

  const NoTables := Tables(map[], map[], map[], map[], map[], map[], map[], map[])

  function AddCoordinate(t: Tables, point: Point, sources: set<Source>): Tables {
    var known := if Sha(point) in t.coordinates then t.coordinates[Sha(point)].sources else {};
    t.(coordinates := t.coordinates[Sha(point) := Coordinate(point, known + sources)])
  }
  function AddObject(t: Tables, x: Object): Tables { t.(objects := t.objects[ObjectSha(x) := x]) }
  function AddEvent(t: Tables, x: Event): Tables { t.(events := t.events[EventSha(x) := x]) }
  function AddProposition(t: Tables, x: Proposition): Tables { t.(propositions := t.propositions[PropositionSha(x) := x]) }
  function AddPermits(t: Tables, x: Permits): Tables { t.(permits := t.permits[Sha(x) := x]) }
  function AddAsserts(t: Tables, x: Asserts): Tables { t.(asserts := t.asserts[Sha(x) := x]) }
  function AddSupports(t: Tables, x: Supports): Tables { t.(supports := t.supports[Sha(x) := x]) }
  function AddRequires(t: Tables, x: Requires): Tables { t.(requirements := t.requirements[Sha(x) := x]) }

  // ---------------------------------------------------------------- the reader's indexes

  datatype Defined = Defined(definition: Definition, source: Source)
  datatype Bound = Bound(definitionId: DefinitionId, definition: Definition, sources: set<Source>)
  datatype Granted = Granted(subject: Object, generation: nat)
  datatype Claimed = Claimed(
    claim: Claim, claimCommit: CommitId, sourceRevision: Option<string>, binding: Bound, authorities: map<CommitId, Granted>)
  datatype Reserved = Reserved(fact: Reservation, event: Event)

  datatype Index = Index(
    definitions: map<DefinitionId, Defined>,
    bindings: map<ObligationId, Bound>,
    runs: map<RunId, Claimed>,
    reservations: map<CommitId, Reserved>)

  datatype Reader = Reader(index: Index, tables: Tables)

  const NewReader := Reader(Index(map[], map[], map[], map[]), NoTables)

  /** What an observation retains as evidence; empty when its mutation certainty is `uncertain`. */
  type Retention = Observation -> seq<string>

  function PointOf(run: Claimed, generation: nat, authorityCommit: CommitId, extra: Extra): Point {
    Point(run.claim.obligationId, run.claim.runId, run.claim.claimedRevision, run.claimCommit, run.claim.key,
          run.sourceRevision, generation, authorityCommit, extra)
  }

  // ---------------------------------------------------------------- reading one fact

  function ReadDefinitions(ix: Index, added: seq<Introduced>, source: Source): Result<Index>
    decreases |added|
  {
    if added == [] then Ok(ix)
    else if added[0].id in ix.definitions then Err(DuplicateDefinition)
    else ReadDefinitions(ix.(definitions := ix.definitions[added[0].id := Defined(added[0].definition, source)]), added[1..], source)
  }

  function ReadBindings(ix: Index, bindings: seq<Binding>, source: Source): Result<Index>
    decreases |bindings|
  {
    if bindings == [] then Ok(ix)
    else if bindings[0].definitionId !in ix.definitions then Err(UnknownDefinition)
    else
      var known := ix.definitions[bindings[0].definitionId];
      var bound := Bound(bindings[0].definitionId, known.definition, {known.source, source});
      ReadBindings(ix.(bindings := ix.bindings[bindings[0].node := bound]), bindings[1..], source)
  }

  function ReadPatch(ix: Index, r: Record): Result<Index> {
    if r.patch.None? then Ok(ix)
    else if PatchError(r.patch.value).Some? then Err(PatchError(r.patch.value).value)
    else
      var source := Source(r.commit, PatchSource);
      var defined :- ReadDefinitions(ix, r.patch.value.definitions, source);
      ReadBindings(defined.(bindings := defined.bindings - (set id | id in r.patch.value.retire)), r.patch.value.bindings, source)
  }

  function ClaimSources(r: Record): set<Source> {
    {Source(r.commit, ClaimSource)} + if r.sourceRevision.Some? then {Source(r.commit, SourceRevisionSource)} else {}
  }

  function RequireDependencies(t: Tables, root: Proposition, deps: seq<Dependency>): Tables
    decreases |deps|
  {
    if deps == [] then t
    else
      var required := Proposition(root.coordinate, DependencyHolds(deps[0]), root.sources);
      RequireDependencies(AddRequires(AddProposition(t, required), Requires(PropositionSha(root), PropositionSha(required), root.sources)), root, deps[1..])
  }

  /** `projectClaimRequirements`. */
  function ClaimRequirements(t: Tables, run: Claimed, at: Digest<Point>, sources: set<Source>): Tables {
    var all := run.binding.sources + sources;
    var obligation := Proposition(at, ObligationSatisfied(run.claim.obligationId, run.binding.definitionId), all);
    var post := Proposition(at, PostconditionHolds(run.binding.definition.post), all);
    var t1 := AddRequires(AddProposition(AddProposition(t, obligation), post), Requires(PropositionSha(obligation), PropositionSha(post), all));
    RequireDependencies(t1, obligation, run.binding.definition.dependencies)
  }

  function ClaimError(ix: Index, r: Record, claim: Claim): Option<Error> {
    if
      || !ValidId(claim.runId)
      || !ValidId(claim.obligationId)
      || !ValidId(claim.claimedRevision)
      || (r.sourceRevision.Some? && !(ValidId(r.sourceRevision.value.runId) && ValidId(r.sourceRevision.value.obligationId)))
    then Some(InvalidId)
    else if claim.runId in ix.runs then Some(DuplicateRun)
    else if r.parent != Some(claim.claimedRevision) then Some(ClaimRevisionMismatch)
    else if claim.obligationId !in ix.bindings then Some(ClaimForUnknownObligation)
    else if r.sourceRevision.Some? &&
      (r.sourceRevision.value.runId != claim.runId || r.sourceRevision.value.obligationId != claim.obligationId)
    then Some(SourceRevisionMismatch)
    else None
  }

  /** The run a claim opens, with its first authority object. */
  function OpenedRun(ix: Index, r: Record, claim: Claim): Claimed
    requires claim.obligationId in ix.bindings
  {
    var run := Claimed(claim, r.commit, if r.sourceRevision.Some? then Some(r.sourceRevision.value.revision) else None,
                       ix.bindings[claim.obligationId], map[]);
    run.(authorities := map[r.commit := Granted(FirstAuthority(run, r), 1)])
  }

  function FirstAuthority(run: Claimed, r: Record): Object {
    Object(Sha(PointOf(run, 1, r.commit, Plain)),
           AuthorityValue(run.claim.runId, run.claim.obligationId, run.binding.definitionId, 1, r.commit, run.claim.capability),
           ClaimSources(r))
  }

  function ReadClaim(s: Reader, r: Record): Result<Reader> {
    if r.claim.None? then (if r.sourceRevision.Some? then Err(SourceRevisionWithoutClaim) else Ok(s))
    else if ClaimError(s.index, r, r.claim.value).Some? then Err(ClaimError(s.index, r, r.claim.value).value)
    else
      var run := OpenedRun(s.index, r, r.claim.value);
      var point := PointOf(run, 1, r.commit, Plain);
      var t := AddCoordinate(s.tables, point, run.binding.sources + ClaimSources(r));
      var t1 := AddObject(t, FirstAuthority(run, r));
      Ok(Reader(s.index.(runs := s.index.runs[r.claim.value.runId := run]), ClaimRequirements(t1, run, Sha(point), ClaimSources(r))))
  }

  function NextAuthority(run: Claimed, r: Record, fact: Authority): Object {
    Object(Sha(PointOf(run, fact.generation, r.commit, Plain)),
           AuthorityValue(fact.runId, fact.obligationId, run.binding.definitionId, fact.generation, r.commit, fact.capability),
           {Source(r.commit, AuthoritySource)})
  }

  function ReadAuthority(s: Reader, r: Record): Result<Reader> {
    if r.authority.None? then Ok(s)
    else
      var fact := r.authority.value;
      if fact.runId !in s.index.runs then Err(AuthorityWithoutClaim)
      else
        var run := s.index.runs[fact.runId];
        if fact.previousAuthority !in run.authorities then Err(AuthorityAdvance(PredecessorMismatch))
        else
          var granted := Granted(NextAuthority(run, r, fact), fact.generation);
          var t := AddCoordinate(s.tables, PointOf(run, fact.generation, r.commit, Plain), {Source(r.commit, AuthoritySource)});
          Ok(Reader(s.index.(runs := s.index.runs[fact.runId := run.(authorities := run.authorities[r.commit := granted])]),
                    AddObject(t, granted.subject)))
  }

  function AttemptEvent(run: Claimed, fact: Reservation, commit: CommitId): Event {
    Event(Sha(PointOf(run, fact.generation, fact.authorityCommit, AtReservation(commit))),
          AttemptValue(fact.runId, fact.obligationId, fact.generation, fact.authorityCommit, commit),
          {Source(commit, ReservationSource)})
  }

  function ReadReservation(s: Reader, r: Record): Result<Reader> {
    if r.reservation.None? then Ok(s)
    else
      var fact := r.reservation.value;
      if fact.runId !in s.index.runs then Err(ReservationWithoutClaim)
      else
        var run := s.index.runs[fact.runId];
        if fact.authorityCommit !in run.authorities || run.authorities[fact.authorityCommit].generation != fact.generation
        then Err(ReservationAuthority(StaleReservation))
        else
          var sources := {Source(r.commit, ReservationSource)};
          var event := AttemptEvent(run, fact, r.commit);
          var t := AddCoordinate(s.tables, PointOf(run, fact.generation, fact.authorityCommit, AtReservation(r.commit)), sources);
          var t1 := AddPermits(AddEvent(t, event), Permits(ObjectSha(run.authorities[fact.authorityCommit].subject), EventSha(event), sources));
          Ok(Reader(s.index.(reservations := s.index.reservations[r.commit := Reserved(fact, event)]), t1))
  }

  predicate SameAttempt(held: Reservation, fact: Release) {
    && held.runId == fact.runId && held.obligationId == fact.obligationId
    && held.generation == fact.generation && held.authorityCommit == fact.authorityCommit
  }

  function ReleaseProposition(run: Claimed, fact: Release, commit: CommitId): Proposition {
    Proposition(Sha(PointOf(run, fact.generation, fact.authorityCommit, AtReservation(fact.reservationCommit))),
                NotDispatched(fact.contract, fact.evidenceKind, fact.evidenceRef), {Source(commit, ReleaseSource)})
  }

  function ReadRelease(s: Reader, r: Record): Result<Reader> {
    if r.release.None? then Ok(s)
    else
      var fact := r.release.value;
      if !ReleaseFactValid(fact) then Err(InvalidRelease)
      else if fact.runId !in s.index.runs then Err(ReleaseWithoutClaim)
      else if fact.reservationCommit !in s.index.reservations then Err(ReleaseWithoutReservation)
      else if !SameAttempt(s.index.reservations[fact.reservationCommit].fact, fact) then Err(ReleaseAuthority(ReleaseReservation))
      else
        var run := s.index.runs[fact.runId];
        var point := PointOf(run, fact.generation, fact.authorityCommit, AtReservation(fact.reservationCommit));
        var sources := {Source(r.commit, ReleaseSource)};
        var proposition := ReleaseProposition(run, fact, r.commit);
        var evidence := Object(Sha(point), ReleaseEvidenceValue(fact.contract, fact.evidenceKind, fact.evidence, fact.evidenceRef), sources);
        var t := AddProposition(AddCoordinate(s.tables, point, sources), proposition);
        Ok(s.(tables := AddSupports(AddObject(t, evidence), Supports(ObjectSha(evidence), PropositionSha(proposition), sources))))
  }

  function Retain(t: Tables, at: Digest<Point>, proposition: Proposition, evidence: seq<string>, sources: set<Source>): Tables
    decreases |evidence|
  {
    if evidence == [] then t
    else
      var kept := Object(at, RetainedValue(evidence[0]), sources);
      Retain(AddSupports(AddObject(t, kept), Supports(ObjectSha(kept), PropositionSha(proposition), sources)), at, proposition, evidence[1..], sources)
  }

  /** The proposition a receipt asserts: the release's, when it settles one, or its own. */
  function Asserted(ix: Index, r: Record, fact: ReceiptFact, at: Digest<Point>): (asserted: (Proposition, bool)) {
    if fact.kind == NotDispatchedKind && r.release.Some? && r.release.value.runId in ix.runs
    then (ReleaseProposition(ix.runs[r.release.value.runId], r.release.value, r.commit), false)
    else (Proposition(at, if fact.observed.Some? then Observed(fact.observed.value) else Recorded(fact.kind, fact.diagnostic),
                      {Source(r.commit, ReceiptSource)}), true)
  }

  function ReadReceipt(retention: Retention, s: Reader, r: Record): Result<Reader> {
    if r.receipt.None? then Ok(s)
    else
      var fact := r.receipt.value;
      if fact.runId !in s.index.runs then Err(ReceiptWithoutClaim)
      else
        var run := s.index.runs[fact.runId];
        if fact.authorityCommit !in run.authorities || run.authorities[fact.authorityCommit].generation != fact.generation
        then Err(ReceiptAuthority(ReceiptExecutionAuthority))
        else
          var point := PointOf(run, fact.generation, fact.authorityCommit, AtSettlement(r.commit));
          var sources := {Source(r.commit, ReceiptSource)};
          var event := Event(Sha(point), SettlementValue(fact.kind, fact.observed, fact.diagnostic), sources);
          var t := AddEvent(AddCoordinate(s.tables, point, sources), event);
          var (proposition, own) := Asserted(s.index, r, fact, Sha(point));
          var t1 := if own then AddProposition(t, proposition) else t;
          var t2 := AddAsserts(t1, Asserts(EventSha(event), PropositionSha(proposition), sources));
          Ok(s.(tables := if fact.observed.Some?
                          then Retain(t2, Sha(point), proposition, retention(fact.observed.value), sources) else t2))
  }

  /** One iteration of the loop in `projectDurableEffectHistory`. */
  function ReadRecord(retention: Retention, s: Reader, r: Record): Result<Reader> {
    var patched :- ReadPatch(s.index, r);
    var claimed :- ReadClaim(s.(index := patched), r);
    var rotated :- ReadAuthority(claimed, r);
    var reserved :- ReadReservation(rotated, r);
    var released :- ReadRelease(reserved, r);
    ReadReceipt(retention, released, r)
  }

  /** `projectDurableEffectHistory`, as a fold. */
  function ReadAll(retention: Retention, history: seq<Record>): Result<Reader> {
    if history == [] then Ok(NewReader)
    else
      var before :- ReadAll(retention, history[..|history| - 1]);
      ReadRecord(retention, before, history[|history| - 1])
  }

  // ---------------------------------------------------------------- the builder

  class ProjectionBuilder {
    var coordinates: map<Digest<Point>, Coordinate>
    var objects: map<ObjectId, Object>
    var events: map<EventId, Event>
    var propositions: map<PropositionId, Proposition>
    var permits: map<Digest<Permits>, Permits>
    var asserts: map<Digest<Asserts>, Asserts>
    var supports: map<Digest<Supports>, Supports>
    var requirements: map<Digest<Requires>, Requires>

    function Finish(): Tables
      reads this
    {
      Tables(coordinates, objects, events, propositions, permits, asserts, supports, requirements)
    }

    constructor ()
      ensures Finish() == NoTables
    {
      coordinates, objects, events, propositions := map[], map[], map[], map[];
      permits, asserts, supports, requirements := map[], map[], map[], map[];
    }

    method PutCoordinate(point: Point, sources: set<Source>) returns (id: Digest<Point>)
      modifies this
      ensures Finish() == AddCoordinate(old(Finish()), point, sources) && id == Sha(point)
    {
      id := Sha(point);
      var known := if id in coordinates then coordinates[id].sources else {};
      coordinates := coordinates[id := Coordinate(point, known + sources)];
    }

    method PutObject(x: Object)
      modifies this
      ensures Finish() == AddObject(old(Finish()), x)
    {
      objects := objects[ObjectSha(x) := x];
    }

    method PutEvent(x: Event)
      modifies this
      ensures Finish() == AddEvent(old(Finish()), x)
    {
      events := events[EventSha(x) := x];
    }

    method PutProposition(x: Proposition)
      modifies this
      ensures Finish() == AddProposition(old(Finish()), x)
    {
      propositions := propositions[PropositionSha(x) := x];
    }

    method Permit(subject: Object, event: Event, sources: set<Source>)
      modifies this
      ensures Finish() == AddPermits(old(Finish()), Permits(ObjectSha(subject), EventSha(event), sources))
    {
      var x := Permits(ObjectSha(subject), EventSha(event), sources);
      permits := permits[Sha(x) := x];
    }

    method Assert(event: Event, proposition: Proposition, sources: set<Source>)
      modifies this
      ensures Finish() == AddAsserts(old(Finish()), Asserts(EventSha(event), PropositionSha(proposition), sources))
    {
      var x := Asserts(EventSha(event), PropositionSha(proposition), sources);
      asserts := asserts[Sha(x) := x];
    }

    method Support(subject: Object, proposition: Proposition, sources: set<Source>)
      modifies this
      ensures Finish() == AddSupports(old(Finish()), Supports(ObjectSha(subject), PropositionSha(proposition), sources))
    {
      var x := Supports(ObjectSha(subject), PropositionSha(proposition), sources);
      supports := supports[Sha(x) := x];
    }

    method Require(proposition: Proposition, required: Proposition, sources: set<Source>)
      modifies this
      ensures Finish() == AddRequires(old(Finish()), Requires(PropositionSha(proposition), PropositionSha(required), sources))
    {
      var x := Requires(PropositionSha(proposition), PropositionSha(required), sources);
      requirements := requirements[Sha(x) := x];
    }
  }

  // ---------------------------------------------------------------- the loop over the history

  /** The builder and the indexes hold what the fold computes, or the fold fails with this error. */
  ghost predicate Reads(expected: Result<Reader>, tables: Tables, result: Result<Index>) {
    match result
    case Ok(ix) => expected == Ok(Reader(ix, tables))
    case Err(e) => expected == Err(e)
  }

  method WriteDependencies(b: ProjectionBuilder, root: Proposition, deps: seq<Dependency>)
    modifies b
    ensures b.Finish() == RequireDependencies(old(b.Finish()), root, deps)
  {
    var i := 0;
    while i < |deps|
      invariant i <= |deps|
      invariant RequireDependencies(b.Finish(), root, deps[i..]) == RequireDependencies(old(b.Finish()), root, deps)
    {
      var required := Proposition(root.coordinate, DependencyHolds(deps[i]), root.sources);
      assert deps[i..][1..] == deps[i + 1..] && deps[i..][0] == deps[i];
      b.PutProposition(required);
      b.Require(root, required, root.sources);
      i := i + 1;
    }
    assert deps[i..] == [];
  }

  method WriteClaimRequirements(b: ProjectionBuilder, run: Claimed, at: Digest<Point>, sources: set<Source>)
    modifies b
    ensures b.Finish() == ClaimRequirements(old(b.Finish()), run, at, sources)
  {
    hide RequireDependencies;
    var all := run.binding.sources + sources;
    var obligation := Proposition(at, ObligationSatisfied(run.claim.obligationId, run.binding.definitionId), all);
    b.PutProposition(obligation);
    var post := Proposition(at, PostconditionHolds(run.binding.definition.post), all);
    b.PutProposition(post);
    b.Require(obligation, post, all);
    WriteDependencies(b, obligation, run.binding.definition.dependencies);
  }

  method IndexPatch(ix: Index, r: Record) returns (result: Result<Index>)
    ensures result == ReadPatch(ix, r)
  {
    if r.patch.None? { return Ok(ix); }
    var p := r.patch.value;
    if PatchError(p).Some? { return Err(PatchError(p).value); }
    var source := Source(r.commit, PatchSource);
    var now, i := ix, 0;
    while i < |p.definitions|
      invariant i <= |p.definitions|
      invariant ReadDefinitions(now, p.definitions[i..], source) == ReadDefinitions(ix, p.definitions, source)
    {
      var d := p.definitions[i];
      assert p.definitions[i..][0] == d && p.definitions[i..][1..] == p.definitions[i + 1..];
      if d.id in now.definitions { return Err(DuplicateDefinition); }
      now := now.(definitions := now.definitions[d.id := Defined(d.definition, source)]);
      i := i + 1;
    }
    assert p.definitions[i..] == [];
    now := now.(bindings := now.bindings - (set id | id in p.retire));
    ghost var before := now;
    i := 0;
    while i < |p.bindings|
      invariant i <= |p.bindings|
      invariant ReadBindings(now, p.bindings[i..], source) == ReadBindings(before, p.bindings, source)
    {
      var b := p.bindings[i];
      assert p.bindings[i..][0] == b && p.bindings[i..][1..] == p.bindings[i + 1..];
      if b.definitionId !in now.definitions { return Err(UnknownDefinition); }
      var known := now.definitions[b.definitionId];
      now := now.(bindings := now.bindings[b.node := Bound(b.definitionId, known.definition, {known.source, source})]);
      i := i + 1;
    }
    assert p.bindings[i..] == [];
    return Ok(now);
  }

  method WriteClaim(b: ProjectionBuilder, ix: Index, r: Record) returns (result: Result<Index>)
    modifies b
    ensures Reads(ReadClaim(Reader(ix, old(b.Finish())), r), b.Finish(), result)
  {
    hide ClaimError, ClaimRequirements;
    if r.claim.None? {
      return if r.sourceRevision.Some? then Err(SourceRevisionWithoutClaim) else Ok(ix);
    }
    var claim := r.claim.value;
    if ClaimError(ix, r, claim).Some? { return Err(ClaimError(ix, r, claim).value); }
    ClaimBound(ix, r, claim);
    var run := OpenedRun(ix, r, claim);
    var at := b.PutCoordinate(PointOf(run, 1, r.commit, Plain), run.binding.sources + ClaimSources(r));
    b.PutObject(FirstAuthority(run, r));
    WriteClaimRequirements(b, run, at, ClaimSources(r));
    return Ok(ix.(runs := ix.runs[claim.runId := run]));
  }

  lemma ClaimBound(ix: Index, r: Record, claim: Claim)
    requires ClaimError(ix, r, claim).None?
    ensures claim.obligationId in ix.bindings
  {
  }

  method WriteAuthority(b: ProjectionBuilder, ix: Index, r: Record) returns (result: Result<Index>)
    modifies b
    ensures Reads(ReadAuthority(Reader(ix, old(b.Finish())), r), b.Finish(), result)
  {
    if r.authority.None? { return Ok(ix); }
    var fact := r.authority.value;
    if fact.runId !in ix.runs { return Err(AuthorityWithoutClaim); }
    var run := ix.runs[fact.runId];
    if fact.previousAuthority !in run.authorities { return Err(AuthorityAdvance(PredecessorMismatch)); }
    var at := b.PutCoordinate(PointOf(run, fact.generation, r.commit, Plain), {Source(r.commit, AuthoritySource)});
    var next := NextAuthority(run, r, fact);
    b.PutObject(next);
    return Ok(ix.(runs := ix.runs[fact.runId := run.(authorities := run.authorities[r.commit := Granted(next, fact.generation)])]));
  }

  method WriteReservation(b: ProjectionBuilder, ix: Index, r: Record) returns (result: Result<Index>)
    modifies b
    ensures Reads(ReadReservation(Reader(ix, old(b.Finish())), r), b.Finish(), result)
  {
    if r.reservation.None? { return Ok(ix); }
    var fact := r.reservation.value;
    if fact.runId !in ix.runs { return Err(ReservationWithoutClaim); }
    var run := ix.runs[fact.runId];
    if fact.authorityCommit !in run.authorities || run.authorities[fact.authorityCommit].generation != fact.generation {
      return Err(ReservationAuthority(StaleReservation));
    }
    var sources := {Source(r.commit, ReservationSource)};
    var at := b.PutCoordinate(PointOf(run, fact.generation, fact.authorityCommit, AtReservation(r.commit)), sources);
    var event := AttemptEvent(run, fact, r.commit);
    b.PutEvent(event);
    b.Permit(run.authorities[fact.authorityCommit].subject, event, sources);
    return Ok(ix.(reservations := ix.reservations[r.commit := Reserved(fact, event)]));
  }

  method WriteRelease(b: ProjectionBuilder, ix: Index, r: Record) returns (result: Result<Index>)
    modifies b
    ensures Reads(ReadRelease(Reader(ix, old(b.Finish())), r), b.Finish(), result)
  {
    if r.release.None? { return Ok(ix); }
    var fact := r.release.value;
    if !ReleaseFactValid(fact) { return Err(InvalidRelease); }
    if fact.runId !in ix.runs { return Err(ReleaseWithoutClaim); }
    if fact.reservationCommit !in ix.reservations { return Err(ReleaseWithoutReservation); }
    if !SameAttempt(ix.reservations[fact.reservationCommit].fact, fact) { return Err(ReleaseAuthority(ReleaseReservation)); }
    var run := ix.runs[fact.runId];
    var sources := {Source(r.commit, ReleaseSource)};
    var at := b.PutCoordinate(PointOf(run, fact.generation, fact.authorityCommit, AtReservation(fact.reservationCommit)), sources);
    var proposition := ReleaseProposition(run, fact, r.commit);
    b.PutProposition(proposition);
    var evidence := Object(at, ReleaseEvidenceValue(fact.contract, fact.evidenceKind, fact.evidence, fact.evidenceRef), sources);
    b.PutObject(evidence);
    b.Support(evidence, proposition, sources);
    return Ok(ix);
  }

  method WriteRetained(b: ProjectionBuilder, at: Digest<Point>, proposition: Proposition, evidence: seq<string>, sources: set<Source>)
    modifies b
    ensures b.Finish() == Retain(old(b.Finish()), at, proposition, evidence, sources)
  {
    var i := 0;
    while i < |evidence|
      invariant i <= |evidence|
      invariant Retain(b.Finish(), at, proposition, evidence[i..], sources) == Retain(old(b.Finish()), at, proposition, evidence, sources)
    {
      var kept := Object(at, RetainedValue(evidence[i]), sources);
      assert evidence[i..][0] == evidence[i] && evidence[i..][1..] == evidence[i + 1..];
      b.PutObject(kept);
      b.Support(kept, proposition, sources);
      i := i + 1;
    }
    assert evidence[i..] == [];
  }

  method WriteReceipt(b: ProjectionBuilder, retention: Retention, ix: Index, r: Record) returns (result: Result<Index>)
    modifies b
    ensures Reads(ReadReceipt(retention, Reader(ix, old(b.Finish())), r), b.Finish(), result)
  {
    hide Retain, Asserted;
    if r.receipt.None? { return Ok(ix); }
    var fact := r.receipt.value;
    if fact.runId !in ix.runs { return Err(ReceiptWithoutClaim); }
    var run := ix.runs[fact.runId];
    if fact.authorityCommit !in run.authorities || run.authorities[fact.authorityCommit].generation != fact.generation {
      return Err(ReceiptAuthority(ReceiptExecutionAuthority));
    }
    var sources := {Source(r.commit, ReceiptSource)};
    var (proposition, own) := Asserted(ix, r, fact, Sha(PointOf(run, fact.generation, fact.authorityCommit, AtSettlement(r.commit))));
    var at := b.PutCoordinate(PointOf(run, fact.generation, fact.authorityCommit, AtSettlement(r.commit)), sources);
    var event := Event(at, SettlementValue(fact.kind, fact.observed, fact.diagnostic), sources);
    b.PutEvent(event);
    if own { b.PutProposition(proposition); }
    b.Assert(event, proposition, sources);
    if fact.observed.Some? { WriteRetained(b, at, proposition, retention(fact.observed.value), sources); }
    return Ok(ix);
  }

  method WriteRecord(b: ProjectionBuilder, retention: Retention, ix: Index, r: Record) returns (result: Result<Index>)
    modifies b
    ensures Reads(ReadRecord(retention, Reader(ix, old(b.Finish())), r), b.Finish(), result)
  {
    hide ReadPatch, ReadClaim, ReadAuthority, ReadReservation, ReadRelease, ReadReceipt;
    result := IndexPatch(ix, r);
    if result.Ok? { result := WriteClaim(b, result.value, r); }
    if result.Ok? { result := WriteAuthority(b, result.value, r); }
    if result.Ok? { result := WriteReservation(b, result.value, r); }
    if result.Ok? { result := WriteRelease(b, result.value, r); }
    if result.Ok? { result := WriteReceipt(b, retention, result.value, r); }
  }

  /** `projectDurableEffectHistory`. */
  method ProjectDurableEffectHistory(retention: Retention, history: seq<Record>) returns (result: Result<Tables>)
    ensures ReadAll(retention, history).Ok? ==> result == Ok(ReadAll(retention, history).value.tables)
    ensures ReadAll(retention, history).Err? ==> result == Err(ReadAll(retention, history).error)
  {
    hide ReadRecord;
    var b := new ProjectionBuilder();
    var ix := NewReader.index;
    var i := 0;
    while i < |history|
      invariant i <= |history|
      invariant ReadAll(retention, history[..i]) == Ok(Reader(ix, b.Finish()))
    {
      assert history[..i + 1][..i] == history[..i];
      var next := WriteRecord(b, retention, ix, history[i]);
      if next.Err? {
        FailedPrefix(retention, history, i + 1);
        return Err(next.error);
      }
      ix := next.value;
      i := i + 1;
    }
    assert history[..i] == history;
    return Ok(b.Finish());
  }

  lemma {:induction false} FailedPrefix(retention: Retention, history: seq<Record>, n: nat)
    requires n <= |history| && ReadAll(retention, history[..n]).Err?
    ensures ReadAll(retention, history) == ReadAll(retention, history[..n])
    decreases |history|
  {
    if n < |history| {
      var m := |history| - 1;
      assert history[..m][..n] == history[..n];
      FailedPrefix(retention, history[..m], n);
    } else {
      assert history[..n] == history;
    }
  }
}
