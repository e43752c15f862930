/** What the second reader's tables hold for every history it accepts (src/authority/effect-history-projection.ts:143-630):
    edges join recorded items, items lie at recorded coordinates, and each reservation, release and receipt is booked once. */
module HistoryTables {
  import opened Facts
  import opened Replay
  import opened FourByFour

  // ---------------------------------------------------------------- closed tables

  ghost predicate ItemsPlaced(t: Tables) {
    && (forall id :: id in t.coordinates ==> id == Sha(t.coordinates[id].point))
    && (forall id :: id in t.objects ==> id == ObjectSha(t.objects[id]) && t.objects[id].coordinate in t.coordinates)
    && (forall id :: id in t.events ==> id == EventSha(t.events[id]) && t.events[id].coordinate in t.coordinates)
    && (forall id :: id in t.propositions ==> id == PropositionSha(t.propositions[id]) && t.propositions[id].coordinate in t.coordinates)
  }

  ghost predicate EdgesJoined(t: Tables) {
    && (forall id :: id in t.permits ==> id == Sha(t.permits[id]) && t.permits[id].subject in t.objects && t.permits[id].event in t.events)
    && (forall id :: id in t.asserts ==> id == Sha(t.asserts[id]) && t.asserts[id].event in t.events && t.asserts[id].proposition in t.propositions)
    && (forall id :: id in t.supports ==> id == Sha(t.supports[id]) && t.supports[id].subject in t.objects && t.supports[id].proposition in t.propositions)
    && (forall id :: id in t.requirements ==>
          id == Sha(t.requirements[id]) && t.requirements[id].proposition in t.propositions && t.requirements[id].required in t.propositions)
  }

  /** Every edge joins recorded items, and every item lies at a recorded coordinate. */
  ghost predicate Closed(t: Tables) { ItemsPlaced(t) && EdgesJoined(t) }

  lemma ClosedCoordinate(t: Tables, point: Point, sources: set<Source>)
    requires Closed(t)
    ensures Closed(AddCoordinate(t, point, sources)) && Sha(point) in AddCoordinate(t, point, sources).coordinates
  {
  }

  lemma ClosedObject(t: Tables, x: Object)
    requires Closed(t) && x.coordinate in t.coordinates
    ensures Closed(AddObject(t, x)) && ObjectSha(x) in AddObject(t, x).objects
  {
  }

  lemma ClosedEvent(t: Tables, x: Event)
    requires Closed(t) && x.coordinate in t.coordinates
    ensures Closed(AddEvent(t, x)) && EventSha(x) in AddEvent(t, x).events
  {
  }

  lemma ClosedProposition(t: Tables, x: Proposition)
    requires Closed(t) && x.coordinate in t.coordinates
    ensures Closed(AddProposition(t, x)) && PropositionSha(x) in AddProposition(t, x).propositions
  {
  }

  lemma ClosedPermits(t: Tables, x: Permits)
    requires Closed(t) && x.subject in t.objects && x.event in t.events
    ensures Closed(AddPermits(t, x))
  {
  }

  lemma ClosedAsserts(t: Tables, x: Asserts)
    requires Closed(t) && x.event in t.events && x.proposition in t.propositions
    ensures Closed(AddAsserts(t, x))
  {
  }

  lemma ClosedSupports(t: Tables, x: Supports)
    requires Closed(t) && x.subject in t.objects && x.proposition in t.propositions
    ensures Closed(AddSupports(t, x))
  {
  }

  lemma ClosedRequires(t: Tables, x: Requires)
    requires Closed(t) && x.proposition in t.propositions && x.required in t.propositions
    ensures Closed(AddRequires(t, x))
  {
  }

  // ---------------------------------------------------------------- tables only grow

  ghost predicate Grows(t: Tables, t': Tables) {
    t.objects.Keys <= t'.objects.Keys && t.propositions.Keys <= t'.propositions.Keys && t.coordinates.Keys <= t'.coordinates.Keys
  }

  /** Every authority the reader remembers is a recorded object. */
  ghost predicate Remembered(ix: Index, t: Tables) {
    forall id, commit :: id in ix.runs && commit in ix.runs[id].authorities ==> ObjectSha(ix.runs[id].authorities[commit].subject) in t.objects
  }

  ghost predicate Sound(s: Reader) { Closed(s.tables) && Remembered(s.index, s.tables) }

  lemma RememberedGrows(ix: Index, t: Tables, t': Tables)
    requires Remembered(ix, t) && Grows(t, t')
    ensures Remembered(ix, t')
  {
  }

  lemma {:induction false} DependenciesClosed(t: Tables, root: Proposition, deps: seq<Dependency>)
    requires Closed(t) && root.coordinate in t.coordinates && PropositionSha(root) in t.propositions
    ensures Closed(RequireDependencies(t, root, deps)) && Grows(t, RequireDependencies(t, root, deps))
    ensures SameBooks(t, RequireDependencies(t, root, deps))
    decreases |deps|
  {
    hide Closed;
    if deps != [] {
      var required := Proposition(root.coordinate, DependencyHolds(deps[0]), root.sources);
      var t1 := AddProposition(t, required);
      var t2 := AddRequires(t1, Requires(PropositionSha(root), PropositionSha(required), root.sources));
      ClosedProposition(t, required);
      ClosedRequires(t1, Requires(PropositionSha(root), PropositionSha(required), root.sources));
      DependenciesClosed(t2, root, deps[1..]);
    }
  }

  /** Claims and rotations book nothing. */
  ghost predicate SameBooks(t: Tables, t': Tables) {
    t'.events == t.events && t'.permits == t.permits && t'.asserts == t.asserts && t'.supports == t.supports
  }

  lemma RequirementsClosed(t: Tables, run: Claimed, at: Digest<Point>, sources: set<Source>)
    requires Closed(t) && at in t.coordinates
    ensures var t' := ClaimRequirements(t, run, at, sources); Closed(t') && Grows(t, t') && SameBooks(t, t')
  {
    hide Closed, RequireDependencies;
    var all := run.binding.sources + sources;
    var obligation := Proposition(at, ObligationSatisfied(run.claim.obligationId, run.binding.definitionId), all);
    var post := Proposition(at, PostconditionHolds(run.binding.definition.post), all);
    var t1 := AddProposition(t, obligation);
    var t2 := AddProposition(t1, post);
    var edge := Requires(PropositionSha(obligation), PropositionSha(post), all);
    ClosedProposition(t, obligation);
    ClosedProposition(t1, post);
    ClosedRequires(t2, edge);
    DependenciesClosed(AddRequires(t2, edge), obligation, run.binding.definition.dependencies);
  }

  lemma ClaimSound(s: Reader, r: Record)
    requires Sound(s) && ReadClaim(s, r).Ok?
    ensures Sound(ReadClaim(s, r).value) && SameBooks(s.tables, ReadClaim(s, r).value.tables)
  {
    hide Closed, ClaimRequirements, ClaimError, PointOf;
    if r.claim.Some? {
      ClaimBound(s.index, r, r.claim.value);
      var run := OpenedRun(s.index, r, r.claim.value);
      var point := PointOf(run, 1, r.commit, Plain);
      var sources := run.binding.sources + ClaimSources(r);
      var t1 := AddCoordinate(s.tables, point, sources);
      var t2 := AddObject(t1, FirstAuthority(run, r));
      ClosedCoordinate(s.tables, point, sources);
      ClosedObject(t1, FirstAuthority(run, r));
      RequirementsClosed(t2, run, Sha(point), ClaimSources(r));
      OpenedAuthority(s.index, r, r.claim.value);
      RememberedGrows(s.index, s.tables, ReadClaim(s, r).value.tables);
    }
  }

  lemma OpenedAuthority(ix: Index, r: Record, claim: Claim)
    requires claim.obligationId in ix.bindings
    ensures var run := OpenedRun(ix, r, claim); run.authorities == map[r.commit := Granted(FirstAuthority(run, r), 1)]
  {
  }

  lemma AuthoritySound(s: Reader, r: Record)
    requires Sound(s) && ReadAuthority(s, r).Ok?
    ensures Sound(ReadAuthority(s, r).value) && SameBooks(s.tables, ReadAuthority(s, r).value.tables)
  {
    hide Closed, PointOf;
    if r.authority.Some? {
      var fact := r.authority.value;
      var run := s.index.runs[fact.runId];
      var point := PointOf(run, fact.generation, r.commit, Plain);
      var t1 := AddCoordinate(s.tables, point, {Source(r.commit, AuthoritySource)});
      ClosedCoordinate(s.tables, point, {Source(r.commit, AuthoritySource)});
      ClosedObject(t1, NextAuthority(run, r, fact));
    }
  }

  lemma ReservationSound(s: Reader, r: Record)
    requires Sound(s) && ReadReservation(s, r).Ok?
    ensures Sound(ReadReservation(s, r).value)
  {
    hide Closed, PointOf;
    if r.reservation.Some? {
      var fact := r.reservation.value;
      var run := s.index.runs[fact.runId];
      var point := PointOf(run, fact.generation, fact.authorityCommit, AtReservation(r.commit));
      var sources := {Source(r.commit, ReservationSource)};
      var event := AttemptEvent(run, fact, r.commit);
      var t1 := AddCoordinate(s.tables, point, sources);
      var t2 := AddEvent(t1, event);
      ClosedCoordinate(s.tables, point, sources);
      ClosedEvent(t1, event);
      ClosedPermits(t2, Permits(ObjectSha(run.authorities[fact.authorityCommit].subject), EventSha(event), sources));
    }
  }

  /** A release leaves its proposition recorded for the receipt of the same record. */
  lemma ReleaseSound(s: Reader, r: Record)
    requires Sound(s) && ReadRelease(s, r).Ok?
    ensures Sound(ReadRelease(s, r).value) && ReadRelease(s, r).value.index == s.index
    ensures r.release.Some? ==>
      && r.release.value.runId in s.index.runs
      && PropositionSha(ReleaseProposition(s.index.runs[r.release.value.runId], r.release.value, r.commit)) in ReadRelease(s, r).value.tables.propositions
  {
    hide Closed, PointOf, ReleaseFactValid;
    if r.release.Some? {
      var fact := r.release.value;
      var run := s.index.runs[fact.runId];
      var point := PointOf(run, fact.generation, fact.authorityCommit, AtReservation(fact.reservationCommit));
      var sources := {Source(r.commit, ReleaseSource)};
      var proposition := ReleaseProposition(run, fact, r.commit);
      var evidence := Object(Sha(point), ReleaseEvidenceValue(fact.contract, fact.evidenceKind, fact.evidence, fact.evidenceRef), sources);
      var t1 := AddCoordinate(s.tables, point, sources);
      var t2 := AddProposition(t1, proposition);
      var t3 := AddObject(t2, evidence);
      ClosedCoordinate(s.tables, point, sources);
      ClosedProposition(t1, proposition);
      ClosedObject(t2, evidence);
      ClosedSupports(t3, Supports(ObjectSha(evidence), PropositionSha(proposition), sources));
    }
  }

  lemma {:induction false} RetainClosed(t: Tables, at: Digest<Point>, proposition: Proposition, evidence: seq<string>, sources: set<Source>)
    requires Closed(t) && at in t.coordinates && PropositionSha(proposition) in t.propositions
    ensures var t' := Retain(t, at, proposition, evidence, sources);
      Closed(t') && Grows(t, t') && t'.events == t.events && t'.permits == t.permits && t'.asserts == t.asserts
    decreases |evidence|
  {
    hide Closed;
    if evidence != [] {
      var kept := Object(at, RetainedValue(evidence[0]), sources);
      var t1 := AddObject(t, kept);
      var edge := Supports(ObjectSha(kept), PropositionSha(proposition), sources);
      ClosedObject(t, kept);
      ClosedSupports(t1, edge);
      RetainClosed(AddSupports(t1, edge), at, proposition, evidence[1..], sources);
    }
  }

  lemma ReceiptSound(retention: Retention, s: Reader, r: Record)
    requires Sound(s) && ReadReceipt(retention, s, r).Ok?
    requires r.release.Some? ==>
      && r.release.value.runId in s.index.runs
      && PropositionSha(ReleaseProposition(s.index.runs[r.release.value.runId], r.release.value, r.commit)) in s.tables.propositions
    ensures Sound(ReadReceipt(retention, s, r).value)
  {
    hide Closed, PointOf, Retain;
    if r.receipt.Some? {
      var fact := r.receipt.value;
      var run := s.index.runs[fact.runId];
      var point := PointOf(run, fact.generation, fact.authorityCommit, AtSettlement(r.commit));
      var sources := {Source(r.commit, ReceiptSource)};
      var event := Event(Sha(point), SettlementValue(fact.kind, fact.observed, fact.diagnostic), sources);
      var t1 := AddCoordinate(s.tables, point, sources);
      var t2 := AddEvent(t1, event);
      ClosedCoordinate(s.tables, point, sources);
      ClosedEvent(t1, event);
      var (proposition, own) := Asserted(s.index, r, fact, Sha(point));
      var t3 := if own then AddProposition(t2, proposition) else t2;
      if own { ClosedProposition(t2, proposition); }
      var edge := Asserts(EventSha(event), PropositionSha(proposition), sources);
      ClosedAsserts(t3, edge);
      if fact.observed.Some? { RetainClosed(AddAsserts(t3, edge), Sha(point), proposition, retention(fact.observed.value), sources); }
    }
  }

  lemma {:induction false} BindingsKeepRuns(ix: Index, bindings: seq<Binding>, source: Source)
    requires ReadBindings(ix, bindings, source).Ok?
    ensures ReadBindings(ix, bindings, source).value.runs == ix.runs
    decreases |bindings|
  {
    if bindings != [] {
      var known := ix.definitions[bindings[0].definitionId];
      BindingsKeepRuns(ix.(bindings := ix.bindings[bindings[0].node := Bound(bindings[0].definitionId, known.definition, {known.source, source})]),
                       bindings[1..], source);
    }
  }

  lemma {:induction false} DefinitionsKeepRuns(ix: Index, added: seq<Introduced>, source: Source)
    requires ReadDefinitions(ix, added, source).Ok?
    ensures ReadDefinitions(ix, added, source).value.runs == ix.runs
    decreases |added|
  {
    if added != [] {
      DefinitionsKeepRuns(ix.(definitions := ix.definitions[added[0].id := Defined(added[0].definition, source)]), added[1..], source);
    }
  }

  lemma PatchKeepsRuns(ix: Index, r: Record)
    requires ReadPatch(ix, r).Ok?
    ensures ReadPatch(ix, r).value.runs == ix.runs
  {
    hide ReadDefinitions, ReadBindings, PatchError;
    if r.patch.Some? {
      var source := Source(r.commit, PatchSource);
      var defined := ReadDefinitions(ix, r.patch.value.definitions, source).value;
      DefinitionsKeepRuns(ix, r.patch.value.definitions, source);
      BindingsKeepRuns(defined.(bindings := defined.bindings - (set id | id in r.patch.value.retire)), r.patch.value.bindings, source);
    }
  }

  /** The readings between the facts of one record. */
  lemma ReadStages(retention: Retention, s: Reader, r: Record) returns (s1: Reader, s2: Reader, s3: Reader, s4: Reader, s5: Reader)
    requires ReadRecord(retention, s, r).Ok?
    ensures ReadPatch(s.index, r) == Ok(s1.index) && s1.tables == s.tables && ReadClaim(s1, r) == Ok(s2) && ReadAuthority(s2, r) == Ok(s3)
    ensures ReadReservation(s3, r) == Ok(s4) && ReadRelease(s4, r) == Ok(s5) && ReadReceipt(retention, s5, r) == ReadRecord(retention, s, r)
  {
    hide ReadPatch, ReadClaim, ReadAuthority, ReadReservation, ReadRelease, ReadReceipt;
    s1 := s.(index := ReadPatch(s.index, r).value);
    s2 := ReadClaim(s1, r).value;
    s3 := ReadAuthority(s2, r).value;
    s4 := ReadReservation(s3, r).value;
    s5 := ReadRelease(s4, r).value;
  }

  lemma RecordSound(retention: Retention, s: Reader, r: Record)
    requires Sound(s) && ReadRecord(retention, s, r).Ok?
    ensures Sound(ReadRecord(retention, s, r).value)
  {
    hide ReadRecord, ReadPatch, ReadClaim, ReadAuthority, ReadReservation, ReadRelease, ReadReceipt, Closed;
    var s1, s2, s3, s4, s5 := ReadStages(retention, s, r);
    PatchKeepsRuns(s.index, r);
    ClaimSound(s1, r);
    AuthoritySound(s2, r);
    ReservationSound(s3, r);
    ReleaseSound(s4, r);
    ReceiptSound(retention, s5, r);
  }

  /** For every history the second reader accepts, every endpoint of an edge is in its table and every item's coordinate is
      recorded. */
  lemma {:induction false} TablesClosed(retention: Retention, history: seq<Record>)
    requires ReadAll(retention, history).Ok?
    ensures Sound(ReadAll(retention, history).value)
    decreases |history|
  {
    hide ReadRecord;
    if history != [] {
      var n := |history| - 1;
      TablesClosed(retention, history[..n]);
      RecordSound(retention, ReadAll(retention, history[..n]).value, history[n]);
    }
  }

  // ---------------------------------------------------------------- one booking per fact

  /** The entries of a table stand one to one for the booked sources. */
  ghost predicate Booked<K(!new), V(!new)>(m: map<K, V>, sources: V -> set<Source>, booked: set<set<Source>>) {
    && (forall a, b :: a in m && b in m && sources(m[a]) == sources(m[b]) ==> a == b)
    && (forall a :: a in m ==> sources(m[a]) in booked)
    && forall s :: s in booked ==> exists a :: a in m && sources(m[a]) == s
  }

  lemma BookOne<K(!new), V(!new)>(m: map<K, V>, sources: V -> set<Source>, booked: set<set<Source>>, k: K, v: V)
    requires Booked(m, sources, booked) && sources(v) !in booked && (k in m ==> m[k] == v)
    ensures Booked(m[k := v], sources, booked + {sources(v)})
  {
    var more := m[k := v];
    forall s | s in booked + {sources(v)} ensures exists a :: a in more && sources(more[a]) == s {
      if s in booked {
        var a :| a in m && sources(m[a]) == s;
        assert more[a] == m[a];
      } else {
        assert more[k] == v;
      }
    }
  }

  function SourcesOf(history: seq<Record>, kind: FactKind): set<set<Source>> {
    set r | r in history && Carries(r, kind) :: {Source(r.commit, kind)}
  }

  predicate Carries(r: Record, kind: FactKind) {
    match kind
    case ReservationSource => r.reservation.Some?
    case ReleaseSource => r.release.Some?
    case ReceiptSource => r.receipt.Some?
    case _ => false
  }

  /** The supports edges that releases record; the others retain evidence of observations. */
  ghost function ReleaseSupports(t: Tables): map<Digest<Supports>, Supports> {
    map id | id in t.supports && t.supports[id].subject.preimage.value.ReleaseEvidenceValue? :: t.supports[id]
  }

  function PermitSources(x: Permits): set<Source> { x.sources }
  function EventSources(x: Event): set<Source> { x.sources }
  function AssertSources(x: Asserts): set<Source> { x.sources }
  function SupportSources(x: Supports): set<Source> { x.sources }

  /** One permits edge per reservation, one event per reservation and per receipt, one asserts edge per receipt, and one
      supports edge per release; nothing else is booked. */
  ghost predicate Books(t: Tables, history: seq<Record>) {
    && Booked(t.permits, PermitSources, SourcesOf(history, ReservationSource))
    && Booked(t.events, EventSources, SourcesOf(history, ReservationSource) + SourcesOf(history, ReceiptSource))
    && Booked(t.asserts, AssertSources, SourcesOf(history, ReceiptSource))
    && Booked(ReleaseSupports(t), SupportSources, SourcesOf(history, ReleaseSource))
  }

  /** What the event booked for a record says. */
  predicate EventSays(x: Event, r: Record) {
    && (r.reservation.Some? && x.sources == {Source(r.commit, ReservationSource)} ==>
          var f := r.reservation.value; x.value == AttemptValue(f.runId, f.obligationId, f.generation, f.authorityCommit, r.commit))
    && (r.receipt.Some? && x.sources == {Source(r.commit, ReceiptSource)} ==>
          x.value == SettlementValue(r.receipt.value.kind, r.receipt.value.observed, r.receipt.value.diagnostic))
  }

  /** What a receipt's record asserts: that nothing was dispatched, if it releases; else what was observed, or the fact itself. */
  predicate Says(value: PropositionValue, r: Record, fact: ReceiptFact) {
    if fact.kind == NotDispatchedKind && r.release.Some?
    then value == NotDispatched(r.release.value.contract, r.release.value.evidenceKind, r.release.value.evidenceRef)
    else if fact.observed.Some? then value == Observed(fact.observed.value)
    else value == Recorded(fact.kind, fact.diagnostic)
  }

  /** The asserts edge booked for a receipt joins that receipt's event to what its record asserts. */
  predicate AssertSays(x: Asserts, r: Record) {
    r.receipt.Some? && x.sources == {Source(r.commit, ReceiptSource)} ==>
      && x.event.preimage.sources == x.sources && EventSays(x.event.preimage, r)
      && Says(x.proposition.preimage.value, r, r.receipt.value)
  }

  /** The supports edge booked for a release joins its evidence to the proposition that nothing was dispatched. */
  predicate SupportSays(x: Supports, r: Record) {
    r.release.Some? && x.sources == {Source(r.commit, ReleaseSource)} ==>
      var f := r.release.value;
      && x.subject.preimage.value == ReleaseEvidenceValue(f.contract, f.evidenceKind, f.evidence, f.evidenceRef)
      && x.proposition.preimage.value == NotDispatched(f.contract, f.evidenceKind, f.evidenceRef)
      && x.subject.preimage.coordinate == x.proposition.preimage.coordinate
      && x.subject.preimage.coordinate.preimage.extra == AtReservation(f.reservationCommit)
      && x.subject.preimage.coordinate.preimage.generation == f.generation
      && x.subject.preimage.coordinate.preimage.authorityCommit == f.authorityCommit
  }

  ghost predicate AllSay<K(!new), V(!new)>(m: map<K, V>, history: seq<Record>, says: (V, Record) -> bool) {
    forall k, r :: k in m && r in history ==> says(m[k], r)
  }

  ghost predicate Contents(t: Tables, history: seq<Record>) {
    AllSay(t.events, history, EventSays) && AllSay(t.asserts, history, AssertSays) && AllSay(ReleaseSupports(t), history, SupportSays)
  }

  lemma SayMore<K(!new), V(!new)>(m: map<K, V>, history: seq<Record>, says: (V, Record) -> bool, r: Record)
    requires AllSay(m, history, says) && AllSay(m, [r], says)
    ensures AllSay(m, history + [r], says)
  {
    assert r in [r];
  }

  // ---------------------------------------------------------------- what each fact books

  lemma ReservationBooks(s: Reader, r: Record) returns (event: Event, edge: Permits)
    requires ReadReservation(s, r).Ok? && r.reservation.Some?
    ensures var t, t' := s.tables, ReadReservation(s, r).value.tables;
      && t'.events == t.events[EventSha(event) := event] && t'.permits == t.permits[Sha(edge) := edge]
      && t'.asserts == t.asserts && t'.supports == t.supports
    ensures event.sources == edge.sources == {Source(r.commit, ReservationSource)} && EventSays(event, r)
  {
    var fact := r.reservation.value;
    var run := s.index.runs[fact.runId];
    event := AttemptEvent(run, fact, r.commit);
    edge := Permits(ObjectSha(run.authorities[fact.authorityCommit].subject), EventSha(event), {Source(r.commit, ReservationSource)});
    assert event.sources == {Source(r.commit, ReservationSource)};
    assert Source(r.commit, ReservationSource) in event.sources && Source(r.commit, ReservationSource) !in {Source(r.commit, ReceiptSource)};
  }

  lemma ReleaseBooks(s: Reader, r: Record) returns (edge: Supports)
    requires ReadRelease(s, r).Ok? && r.release.Some?
    ensures var t, t' := s.tables, ReadRelease(s, r).value.tables;
      && ReleaseSupports(t') == ReleaseSupports(t)[Sha(edge) := edge]
      && t'.events == t.events && t'.permits == t.permits && t'.asserts == t.asserts
    ensures edge.sources == {Source(r.commit, ReleaseSource)} && SupportSays(edge, r)
  {
    hide ReleaseFactValid;
    var fact := r.release.value;
    var run := s.index.runs[fact.runId];
    var point := PointOf(run, fact.generation, fact.authorityCommit, AtReservation(fact.reservationCommit));
    var sources := {Source(r.commit, ReleaseSource)};
    var evidence := Object(Sha(point), ReleaseEvidenceValue(fact.contract, fact.evidenceKind, fact.evidence, fact.evidenceRef), sources);
    edge := Supports(ObjectSha(evidence), PropositionSha(ReleaseProposition(run, fact, r.commit)), sources);
    assert ReadRelease(s, r).value.tables.supports == s.tables.supports[Sha(edge) := edge];
  }

  lemma {:induction false} RetainBooksNothing(t: Tables, at: Digest<Point>, proposition: Proposition, evidence: seq<string>, sources: set<Source>)
    requires forall id :: id in t.supports ==> id == Sha(t.supports[id])
    ensures var t' := Retain(t, at, proposition, evidence, sources);
      && ReleaseSupports(t') == ReleaseSupports(t) && t'.events == t.events && t'.permits == t.permits && t'.asserts == t.asserts
    decreases |evidence|
  {
    if evidence != [] {
      var kept := Object(at, RetainedValue(evidence[0]), sources);
      var edge := Supports(ObjectSha(kept), PropositionSha(proposition), sources);
      var t1 := AddSupports(AddObject(t, kept), edge);
      assert ReleaseSupports(t1) == ReleaseSupports(t);
      RetainBooksNothing(t1, at, proposition, evidence[1..], sources);
    }
  }

  lemma ReceiptBooks(retention: Retention, s: Reader, r: Record) returns (event: Event, edge: Asserts)
    requires ReadReceipt(retention, s, r).Ok? && r.receipt.Some? && forall id :: id in s.tables.supports ==> id == Sha(s.tables.supports[id])
    requires r.release.Some? ==> r.release.value.runId in s.index.runs
    ensures var t, t' := s.tables, ReadReceipt(retention, s, r).value.tables;
      && t'.events == t.events[EventSha(event) := event] && t'.asserts == t.asserts[Sha(edge) := edge]
      && t'.permits == t.permits && ReleaseSupports(t') == ReleaseSupports(t)
    ensures event.sources == edge.sources == {Source(r.commit, ReceiptSource)} && edge.event == EventSha(event) && EventSays(event, r)
    ensures Says(edge.proposition.preimage.value, r, r.receipt.value)
  {
    hide Retain;
    var fact := r.receipt.value;
    var run := s.index.runs[fact.runId];
    var point := PointOf(run, fact.generation, fact.authorityCommit, AtSettlement(r.commit));
    var sources := {Source(r.commit, ReceiptSource)};
    event := Event(Sha(point), SettlementValue(fact.kind, fact.observed, fact.diagnostic), sources);
    assert Source(r.commit, ReceiptSource) in event.sources && Source(r.commit, ReceiptSource) !in {Source(r.commit, ReservationSource)};
    var t1 := AddEvent(AddCoordinate(s.tables, point, sources), event);
    var (proposition, own) := Asserted(s.index, r, fact, Sha(point));
    var t2 := if own then AddProposition(t1, proposition) else t1;
    edge := Asserts(EventSha(event), PropositionSha(proposition), sources);
    assert ReleaseSupports(AddAsserts(t2, edge)) == ReleaseSupports(s.tables);
    if fact.observed.Some? {
      RetainBooksNothing(AddAsserts(t2, edge), Sha(point), proposition, retention(fact.observed.value), sources);
    }
  }

  // ---------------------------------------------------------------- one record

  /** The record's commit id is new. */
  ghost predicate NewCommit(history: seq<Record>, r: Record) { forall q :: q in history ==> q.commit != r.commit }

  lemma SourcesSnoc(history: seq<Record>, r: Record, kind: FactKind)
    ensures SourcesOf(history + [r], kind) == SourcesOf(history, kind) + if Carries(r, kind) then {{Source(r.commit, kind)}} else {}
  {
    assert r in history + [r];
  }

  lemma SourcesFresh(history: seq<Record>, r: Record, kind: FactKind, other: FactKind)
    requires NewCommit(history, r)
    ensures {Source(r.commit, kind)} !in SourcesOf(history, other)
  {
    forall q | q in history ensures {Source(q.commit, other)} != {Source(r.commit, kind)} {
      assert Source(q.commit, other) in {Source(q.commit, other)} && Source(q.commit, other) !in {Source(r.commit, kind)};
    }
  }

  lemma SourcesDiffer(commit: CommitId)
    ensures {Source(commit, ReservationSource)} != {Source(commit, ReceiptSource)}
  {
    assert Source(commit, ReservationSource) in {Source(commit, ReservationSource)} && Source(commit, ReservationSource) !in {Source(commit, ReceiptSource)};
  }

  /** An entry booked for another commit says nothing about this record. */
  lemma SilentAbout(history: seq<Record>, q: Record, sources: set<Source>)
    requires forall kind :: sources != {Source(q.commit, kind)}
    ensures forall x: Event :: x.sources == sources ==> EventSays(x, q)
    ensures forall x: Asserts :: x.sources == sources ==> AssertSays(x, q)
    ensures forall x: Supports :: x.sources == sources ==> SupportSays(x, q)
  {
  }

  lemma OtherCommit(a: CommitId, b: CommitId)
    requires a != b
    ensures forall kind, other :: {Source(a, kind)} != {Source(b, other)}
  {
    forall kind, other ensures {Source(a, kind)} != {Source(b, other)} {
      assert Source(a, kind) in {Source(a, kind)} && Source(a, kind) !in {Source(b, other)};
    }
  }

  lemma SilentAboutOld(history: seq<Record>, r: Record, sources: set<Source>, kind: FactKind)
    requires NewCommit(history, r) && sources == {Source(r.commit, kind)}
    ensures forall x: Event, q :: x.sources == sources && q in history ==> EventSays(x, q)
    ensures forall x: Asserts, q :: x.sources == sources && q in history ==> AssertSays(x, q)
    ensures forall x: Supports, q :: x.sources == sources && q in history ==> SupportSays(x, q)
  {
    hide EventSays, AssertSays, SupportSays;
    forall q | q in history
      ensures (forall x: Event :: x.sources == sources ==> EventSays(x, q)) && (forall x: Asserts :: x.sources == sources ==> AssertSays(x, q))
        && forall x: Supports :: x.sources == sources ==> SupportSays(x, q)
    {
      OtherCommit(r.commit, q.commit);
      SilentAbout(history, q, sources);
    }
  }

  lemma SilentSources(history: seq<Record>, kind: FactKind, r: Record, sources: set<Source>)
    requires NewCommit(history, r) && sources in SourcesOf(history, kind)
    ensures forall x: Event :: x.sources == sources ==> EventSays(x, r)
    ensures forall x: Asserts :: x.sources == sources ==> AssertSays(x, r)
    ensures forall x: Supports :: x.sources == sources ==> SupportSays(x, r)
  {
    hide EventSays, AssertSays, SupportSays;
    var q :| q in history && Carries(q, kind) && sources == {Source(q.commit, kind)};
    OtherCommit(q.commit, r.commit);
    SilentAbout(history, r, sources);
  }

  lemma BookedSilent<K(!new), V(!new)>(m: map<K, V>, sources: V -> set<Source>, booked: set<set<Source>>, r: Record, says: (V, Record) -> bool)
    requires Booked(m, sources, booked) && forall v :: sources(v) in booked ==> says(v, r)
    ensures AllSay(m, [r], says)
  {
  }

  lemma EventsSilent(t: Tables, history: seq<Record>, r: Record)
    requires Books(t, history) && NewCommit(history, r)
    ensures AllSay(t.events, [r], EventSays)
  {
    hide EventSays, Booked, SourcesOf;
    var booked := SourcesOf(history, ReservationSource) + SourcesOf(history, ReceiptSource);
    forall v: Event | EventSources(v) in booked ensures EventSays(v, r) {
      SilentSources(history, if EventSources(v) in SourcesOf(history, ReceiptSource) then ReceiptSource else ReservationSource, r, v.sources);
    }
    BookedSilent(t.events, EventSources, booked, r, EventSays);
  }

  lemma AssertsSilent(t: Tables, history: seq<Record>, r: Record)
    requires Books(t, history) && NewCommit(history, r)
    ensures AllSay(t.asserts, [r], AssertSays)
  {
    hide AssertSays, Booked, SourcesOf;
    forall v: Asserts | AssertSources(v) in SourcesOf(history, ReceiptSource) ensures AssertSays(v, r) {
      SilentSources(history, ReceiptSource, r, v.sources);
    }
    BookedSilent(t.asserts, AssertSources, SourcesOf(history, ReceiptSource), r, AssertSays);
  }

  lemma SupportsSilent(t: Tables, history: seq<Record>, r: Record)
    requires Books(t, history) && NewCommit(history, r)
    ensures AllSay(ReleaseSupports(t), [r], SupportSays)
  {
    hide SupportSays, Booked, SourcesOf;
    forall v: Supports | SupportSources(v) in SourcesOf(history, ReleaseSource) ensures SupportSays(v, r) {
      SilentSources(history, ReleaseSource, r, v.sources);
    }
    BookedSilent(ReleaseSupports(t), SupportSources, SourcesOf(history, ReleaseSource), r, SupportSays);
  }

  /** Booking one entry for a fact of a new record. */
  lemma BookFact<K(!new), V(!new)>(m: map<K, V>, sources: V -> set<Source>, booked: set<set<Source>>, history: seq<Record>, r: Record,
                                   says: (V, Record) -> bool, k: K, v: V)
    requires Booked(m, sources, booked) && AllSay(m, history, says) && AllSay(m, [r], says)
    requires sources(v) !in booked && (k in m ==> m[k] == v) && says(v, r) && forall q :: q in history ==> says(v, q)
    ensures Booked(m[k := v], sources, booked + {sources(v)}) && AllSay(m[k := v], history, says) && AllSay(m[k := v], [r], says)
  {
    BookOne(m, sources, booked, k, v);
  }

  /** What the tables book while a record is being read: the history, and the record's facts read so far. */
  ghost predicate Booking(t: Tables, history: seq<Record>, r: Record, reserved: bool, released: bool, settled: bool) {
    && Booked(t.permits, PermitSources, SourcesOf(history, ReservationSource) + Own(r, ReservationSource, reserved))
    && Booked(t.events, EventSources,
              (SourcesOf(history, ReservationSource) + Own(r, ReservationSource, reserved)) + (SourcesOf(history, ReceiptSource) + Own(r, ReceiptSource, settled)))
    && Booked(t.asserts, AssertSources, SourcesOf(history, ReceiptSource) + Own(r, ReceiptSource, settled))
    && Booked(ReleaseSupports(t), SupportSources, SourcesOf(history, ReleaseSource) + Own(r, ReleaseSource, released))
    && Contents(t, history) && Contents(t, [r])
  }

  function Own(r: Record, kind: FactKind, read: bool): set<set<Source>> {
    if read && Carries(r, kind) then {{Source(r.commit, kind)}} else {}
  }

  lemma BookingStarts(t: Tables, history: seq<Record>, r: Record)
    requires Books(t, history) && Contents(t, history) && NewCommit(history, r)
    ensures Booking(t, history, r, false, false, false)
  {
    hide Booked, AllSay, SourcesOf, ReleaseSupports;
    EventsSilent(t, history, r);
    AssertsSilent(t, history, r);
    SupportsSilent(t, history, r);
    assert forall b: set<set<Source>> :: b + {} == b;
  }

  lemma BookingEnds(t: Tables, history: seq<Record>, r: Record)
    requires Booking(t, history, r, true, true, true)
    ensures Books(t, history + [r]) && Contents(t, history + [r])
  {
    hide Booked, AllSay, SourcesOf, ReleaseSupports;
    SourcesSnoc(history, r, ReservationSource);
    SourcesSnoc(history, r, ReceiptSource);
    SourcesSnoc(history, r, ReleaseSource);
    SayMore(t.events, history, EventSays, r);
    SayMore(t.asserts, history, AssertSays, r);
    SayMore(ReleaseSupports(t), history, SupportSays, r);
  }

  lemma KeyedByContent(t: Tables)
    requires Closed(t)
    ensures forall x: Permits :: Sha(x) in t.permits ==> t.permits[Sha(x)] == x
    ensures forall x: Event :: EventSha(x) in t.events ==> t.events[EventSha(x)] == x
    ensures forall x: Asserts :: Sha(x) in t.asserts ==> t.asserts[Sha(x)] == x
    ensures forall x: Supports :: Sha(x) in ReleaseSupports(t) ==> ReleaseSupports(t)[Sha(x)] == x
    ensures forall id :: id in t.supports ==> id == Sha(t.supports[id])
  {
  }

  lemma ReservationBooked(s: Reader, history: seq<Record>, r: Record)
    requires Sound(s) && NewCommit(history, r) && Booking(s.tables, history, r, false, false, false) && ReadReservation(s, r).Ok?
    ensures Booking(ReadReservation(s, r).value.tables, history, r, true, false, false)
  {
    hide Closed, Booked, AllSay, SourcesOf, ReleaseSupports, EventSays, NewCommit, Remembered;
    var t := s.tables;
    if r.reservation.Some? {
      hide ReadReservation;
      var event, edge := ReservationBooks(s, r);
      var own := {Source(r.commit, ReservationSource)};
      var reserved, settled := SourcesOf(history, ReservationSource), SourcesOf(history, ReceiptSource);
      SourcesFresh(history, r, ReservationSource, ReservationSource);
      SourcesFresh(history, r, ReservationSource, ReceiptSource);
      SilentAboutOld(history, r, own, ReservationSource);
      KeyedByContent(t);
      assert reserved + {} == reserved && settled + {} == settled;
      BookOne(t.permits, PermitSources, reserved, Sha(edge), edge);
      BookFact(t.events, EventSources, reserved + settled, history, r, EventSays, EventSha(event), event);
      assert reserved + settled + {own} == (reserved + {own}) + settled;
      SameReleases(t, ReadReservation(s, r).value.tables);
    }
  }

  lemma SameReleases(t: Tables, t': Tables)
    requires t'.supports == t.supports
    ensures ReleaseSupports(t') == ReleaseSupports(t)
  {
  }

  lemma ReleaseBooked(s: Reader, history: seq<Record>, r: Record)
    requires Sound(s) && NewCommit(history, r) && Booking(s.tables, history, r, true, false, false) && ReadRelease(s, r).Ok?
    ensures Booking(ReadRelease(s, r).value.tables, history, r, true, true, false)
  {
    hide Closed, Booked, AllSay, SourcesOf, ReleaseSupports, SupportSays, NewCommit, Remembered;
    var t := s.tables;
    if r.release.Some? {
      hide ReadRelease;
      var edge := ReleaseBooks(s, r);
      var released := SourcesOf(history, ReleaseSource);
      SourcesFresh(history, r, ReleaseSource, ReleaseSource);
      SilentAboutOld(history, r, {Source(r.commit, ReleaseSource)}, ReleaseSource);
      KeyedByContent(t);
      assert released + {} == released;
      BookFact(ReleaseSupports(t), SupportSources, released, history, r, SupportSays, Sha(edge), edge);
    }
  }

  lemma ReceiptBooked(retention: Retention, s: Reader, history: seq<Record>, r: Record)
    requires Sound(s) && NewCommit(history, r) && Booking(s.tables, history, r, true, true, false) && ReadReceipt(retention, s, r).Ok?
    requires r.release.Some? ==> r.release.value.runId in s.index.runs
    ensures Booking(ReadReceipt(retention, s, r).value.tables, history, r, true, true, true)
  {
    hide Closed, Booked, AllSay, SourcesOf, ReleaseSupports, EventSays, NewCommit, Remembered;
    var t := s.tables;
    if r.receipt.Some? {
      hide ReadReceipt;
      KeyedByContent(t);
      var event, edge := ReceiptBooks(retention, s, r);
      var own := {Source(r.commit, ReceiptSource)};
      var reserved, settled := SourcesOf(history, ReservationSource) + Own(r, ReservationSource, true), SourcesOf(history, ReceiptSource);
      SourcesFresh(history, r, ReceiptSource, ReservationSource);
      SourcesFresh(history, r, ReceiptSource, ReceiptSource);
      SourcesDiffer(r.commit);
      SilentAboutOld(history, r, own, ReceiptSource);
      assert settled + {} == settled;
      BookFact(t.events, EventSources, reserved + settled, history, r, EventSays, EventSha(event), event);
      assert reserved + settled + {own} == reserved + (settled + {own});
      BookFact(t.asserts, AssertSources, settled, history, r, AssertSays, Sha(edge), edge);
    }
  }

  lemma SameBooking(t: Tables, t': Tables, history: seq<Record>)
    requires Books(t, history) && Contents(t, history) && SameBooks(t, t')
    ensures Books(t', history) && Contents(t', history)
  {
    hide Booked, AllSay, SourcesOf;
    SameReleases(t, t');
  }

  lemma RecordBooked(retention: Retention, s: Reader, history: seq<Record>, r: Record)
    requires Sound(s) && NewCommit(history, r) && Books(s.tables, history) && Contents(s.tables, history) && ReadRecord(retention, s, r).Ok?
    ensures Books(ReadRecord(retention, s, r).value.tables, history + [r]) && Contents(ReadRecord(retention, s, r).value.tables, history + [r])
  {
    hide ReadRecord, ReadPatch, ReadClaim, ReadAuthority, ReadReservation, ReadRelease, ReadReceipt, Closed, Books, Contents, Booking, SameBooks, NewCommit;
    var s1, s2, s3, s4, s5 := ReadStages(retention, s, r);
    PatchKeepsRuns(s.index, r);
    ClaimSound(s1, r);
    SameBooking(s1.tables, s2.tables, history);
    AuthoritySound(s2, r);
    SameBooking(s2.tables, s3.tables, history);
    BookingStarts(s3.tables, history, r);
    ReservationBooked(s3, history, r);
    ReservationSound(s3, r);
    ReleaseBooked(s4, history, r);
    ReleaseSound(s4, r);
    ReceiptBooked(retention, s5, history, r);
    BookingEnds(ReadRecord(retention, s, r).value.tables, history, r);
  }

  /** For every history with distinct commit ids that the second reader accepts: exactly one event and one asserts edge per
      receipt, one event and one permits edge per reservation, one supports edge per release, no others of these kinds, and
      each says what its fact says. */
  lemma {:induction false} FactsBookedOnce(retention: Retention, history: seq<Record>)
    requires ReadAll(retention, history).Ok? && forall i, j :: 0 <= i < j < |history| ==> history[i].commit != history[j].commit
    ensures Books(ReadAll(retention, history).value.tables, history) && Contents(ReadAll(retention, history).value.tables, history)
    decreases |history|
  {
    hide ReadRecord, Books, Contents, Sound;
    if history == [] {
      NothingBooked();
    } else {
      var n := |history| - 1;
      FactsBookedOnce(retention, history[..n]);
      TablesClosed(retention, history[..n]);
      assert NewCommit(history[..n], history[n]);
      RecordBooked(retention, ReadAll(retention, history[..n]).value, history[..n], history[n]);
      assert history[..n] + [history[n]] == history;
    }
  }

  lemma NothingBooked()
    ensures Books(NoTables, []) && Contents(NoTables, [])
  {
    assert ReleaseSupports(NoTables) == map[];
  }
}
