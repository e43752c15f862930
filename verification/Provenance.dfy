/** Where the second reader's coordinates come from, and what a fact it accepts may name
    (src/authority/effect-history-projection.ts:143-260, 391-630). */
module Provenance {
  import opened Facts
  import opened Replay
  import opened FourByFour
  import opened HistoryTables

  ghost predicate FromObject(t: Tables, at: Digest<Point>, x: Source) { exists id :: id in t.objects && t.objects[id].coordinate == at && x in t.objects[id].sources }
  ghost predicate FromEvent(t: Tables, at: Digest<Point>, x: Source) { exists id :: id in t.events && t.events[id].coordinate == at && x in t.events[id].sources }
  ghost predicate FromProposition(t: Tables, at: Digest<Point>, x: Source) {
    exists id :: id in t.propositions && t.propositions[id].coordinate == at && x in t.propositions[id].sources
  }

  /** Something that lies at this coordinate comes from this fact. */
  ghost predicate LiesHere(t: Tables, at: Digest<Point>, x: Source) { FromObject(t, at, x) || FromEvent(t, at, x) || FromProposition(t, at, x) }

  ghost predicate Sourced(t: Tables) {
    forall at, x :: at in t.coordinates ==> (x in t.coordinates[at].sources <==> LiesHere(t, at, x))
  }

  /** `t'` adds to `t` only items at this point, all from these sources. */
  ghost predicate AddsAt(t: Tables, t': Tables, at: Digest<Point>, sources: set<Source>) {
    && (forall id :: id in t.objects ==> id in t'.objects && t'.objects[id] == t.objects[id])
    && (forall id :: id in t.events ==> id in t'.events && t'.events[id] == t.events[id])
    && (forall id :: id in t.propositions ==> id in t'.propositions && t'.propositions[id] == t.propositions[id])
    && (forall id :: id in t'.objects && id !in t.objects ==> t'.objects[id].coordinate == at && t'.objects[id].sources <= sources)
    && (forall id :: id in t'.events && id !in t.events ==> t'.events[id].coordinate == at && t'.events[id].sources <= sources)
    && (forall id :: id in t'.propositions && id !in t.propositions ==> t'.propositions[id].coordinate == at && t'.propositions[id].sources <= sources)
  }

  lemma LiesMore(t: Tables, t': Tables, at: Digest<Point>, sources: set<Source>, where: Digest<Point>, x: Source)
    requires AddsAt(t, t', at, sources)
    ensures LiesHere(t, where, x) ==> LiesHere(t', where, x)
    ensures LiesHere(t', where, x) ==> LiesHere(t, where, x) || (where == at && x in sources)
  {
  }

  /** Recording a point with the sources of what is then added at it keeps every coordinate sourced. */
  lemma SourcedStep(t: Tables, t': Tables, point: Point, sources: set<Source>)
    requires Sourced(t) && t'.coordinates == AddCoordinate(t, point, sources).coordinates && AddsAt(t, t', Sha(point), sources)
    requires Sha(point) !in t.coordinates ==> forall x :: !LiesHere(t, Sha(point), x)
    requires forall x :: x in sources ==> LiesHere(t', Sha(point), x)
    ensures Sourced(t')
  {
    hide LiesHere, AddsAt;
    forall at, x | at in t'.coordinates ensures x in t'.coordinates[at].sources <==> LiesHere(t', at, x) {
      LiesMore(t, t', Sha(point), sources, at, x);
    }
  }

  /** Nothing lies at a coordinate that is not recorded. */
  lemma NothingElsewhere(t: Tables, at: Digest<Point>)
    requires ItemsPlaced(t) && at !in t.coordinates
    ensures forall x :: !LiesHere(t, at, x)
  {
  }

  // ---------------------------------------------------------------- one stage at a time

  lemma AddsObject(t: Tables, t': Tables, at: Digest<Point>, sources: set<Source>, x: Object)
    requires AddsAt(t, t', at, sources) && ItemsPlaced(t) && x.coordinate == at && x.sources <= sources
    ensures AddsAt(t, AddObject(t', x), at, sources)
    ensures forall y :: y in x.sources ==> LiesHere(AddObject(t', x), at, y)
  {
    var t'' := AddObject(t', x);
    assert ObjectSha(x) in t.objects ==> t.objects[ObjectSha(x)] == x;
    assert t''.objects[ObjectSha(x)] == x;
  }

  lemma AddsEvent(t: Tables, t': Tables, at: Digest<Point>, sources: set<Source>, x: Event)
    requires AddsAt(t, t', at, sources) && ItemsPlaced(t) && x.coordinate == at && x.sources <= sources
    ensures AddsAt(t, AddEvent(t', x), at, sources)
    ensures forall y :: y in x.sources ==> LiesHere(AddEvent(t', x), at, y)
  {
    var t'' := AddEvent(t', x);
    assert EventSha(x) in t.events ==> t.events[EventSha(x)] == x;
    assert t''.events[EventSha(x)] == x;
  }

  lemma AddsProposition(t: Tables, t': Tables, at: Digest<Point>, sources: set<Source>, x: Proposition)
    requires AddsAt(t, t', at, sources) && ItemsPlaced(t) && x.coordinate == at && x.sources <= sources
    ensures AddsAt(t, AddProposition(t', x), at, sources)
    ensures forall y :: y in x.sources ==> LiesHere(AddProposition(t', x), at, y)
  {
    var t'' := AddProposition(t', x);
    assert PropositionSha(x) in t.propositions ==> t.propositions[PropositionSha(x)] == x;
    assert t''.propositions[PropositionSha(x)] == x;
  }

  /** Only the coordinates or the edges change. */
  ghost predicate SameItems(t: Tables, t': Tables) { t'.objects == t.objects && t'.events == t.events && t'.propositions == t.propositions }

  lemma AddsSame(t: Tables, t1: Tables, t2: Tables, at: Digest<Point>, sources: set<Source>)
    requires AddsAt(t, t1, at, sources) && SameItems(t1, t2)
    ensures AddsAt(t, t2, at, sources)
  {
  }

  lemma AddsNothing(t: Tables, at: Digest<Point>, sources: set<Source>)
    ensures AddsAt(t, t, at, sources)
  {
  }

  lemma LiesSame(t: Tables, t': Tables, at: Digest<Point>, x: Source)
    requires SameItems(t, t')
    ensures LiesHere(t, at, x) <==> LiesHere(t', at, x)
  {
  }

  /** The last item at the point comes from all its sources, whatever is added afterwards. */
  lemma SourcedBy(t: Tables, t1: Tables, t': Tables, point: Point, sources: set<Source>)
    requires Sourced(t) && ItemsPlaced(t) && t'.coordinates == AddCoordinate(t, point, sources).coordinates && AddsAt(t, t', Sha(point), sources)
    requires AddsAt(t1, t', Sha(point), sources) && forall x :: x in sources ==> LiesHere(t1, Sha(point), x)
    ensures Sourced(t')
  {
    hide LiesHere, AddsAt, Sourced, ItemsPlaced;
    if Sha(point) !in t.coordinates { NothingElsewhere(t, Sha(point)); }
    forall x | x in sources ensures LiesHere(t', Sha(point), x) { LiesMore(t1, t', Sha(point), sources, Sha(point), x); }
    SourcedStep(t, t', point, sources);
  }

  // ---------------------------------------------------------------- one stage at a time

  lemma {:induction false} DependenciesAdd(t: Tables, t': Tables, root: Proposition, deps: seq<Dependency>)
    requires AddsAt(t, t', root.coordinate, root.sources) && ItemsPlaced(t)
    ensures AddsAt(t, RequireDependencies(t', root, deps), root.coordinate, root.sources)
    ensures RequireDependencies(t', root, deps).coordinates == t'.coordinates
    decreases |deps|
  {
    hide AddsAt, ItemsPlaced;
    if deps != [] {
      var required := Proposition(root.coordinate, DependencyHolds(deps[0]), root.sources);
      var t1 := AddProposition(t', required);
      var t2 := AddRequires(t1, Requires(PropositionSha(root), PropositionSha(required), root.sources));
      AddsProposition(t, t', root.coordinate, root.sources, required);
      AddsSame(t, t1, t2, root.coordinate, root.sources);
      DependenciesAdd(t, t2, root, deps[1..]);
    }
  }

  lemma {:induction false} RetainAddsAt(t: Tables, t': Tables, at: Digest<Point>, proposition: Proposition, evidence: seq<string>, sources: set<Source>)
    requires AddsAt(t, t', at, sources) && ItemsPlaced(t)
    ensures AddsAt(t, Retain(t', at, proposition, evidence, sources), at, sources)
    ensures Retain(t', at, proposition, evidence, sources).coordinates == t'.coordinates
    decreases |evidence|
  {
    hide AddsAt, ItemsPlaced;
    if evidence != [] {
      var kept := Object(at, RetainedValue(evidence[0]), sources);
      var t1 := AddObject(t', kept);
      var t2 := AddSupports(t1, Supports(ObjectSha(kept), PropositionSha(proposition), sources));
      AddsObject(t, t', at, sources, kept);
      AddsSame(t, t1, t2, at, sources);
      RetainAddsAt(t, t2, at, proposition, evidence[1..], sources);
    }
  }

  lemma PlacedCoordinate(t: Tables, point: Point, sources: set<Source>)
    requires ItemsPlaced(t)
    ensures ItemsPlaced(AddCoordinate(t, point, sources)) && SameItems(t, AddCoordinate(t, point, sources))
  {
  }

  lemma PlacedProposition(t: Tables, x: Proposition)
    requires ItemsPlaced(t) && x.coordinate in t.coordinates
    ensures ItemsPlaced(AddProposition(t, x))
  {
  }

  lemma PlacedEvent(t: Tables, x: Event)
    requires ItemsPlaced(t) && x.coordinate in t.coordinates
    ensures ItemsPlaced(AddEvent(t, x))
  {
  }

  lemma PlacedObject(t: Tables, x: Object)
    requires ItemsPlaced(t) && x.coordinate in t.coordinates
    ensures ItemsPlaced(AddObject(t, x))
  {
  }

  /** The requirements of a claim lie where it was made. */
  lemma RequirementsAdd(t: Tables, t': Tables, run: Claimed, at: Digest<Point>, sources: set<Source>)
    requires ItemsPlaced(t) && ItemsPlaced(t') && at in t'.coordinates && AddsAt(t, t', at, run.binding.sources + sources)
    ensures var t'' := ClaimRequirements(t', run, at, sources);
      && AddsAt(t, t'', at, run.binding.sources + sources) && t''.coordinates == t'.coordinates
      && forall x :: x in run.binding.sources + sources ==> LiesHere(t'', at, x)
  {
    hide AddsAt, ItemsPlaced, LiesHere, RequireDependencies;
    var all := run.binding.sources + sources;
    var root := Proposition(at, ObligationSatisfied(run.claim.obligationId, run.binding.definitionId), all);
    var post := Proposition(at, PostconditionHolds(run.binding.definition.post), all);
    var t1 := AddProposition(t', root);
    var t2 := AddProposition(t1, post);
    var t3 := AddRequires(t2, Requires(PropositionSha(root), PropositionSha(post), all));
    var t4 := RequireDependencies(t3, root, run.binding.definition.dependencies);
    AddsProposition(t, t', at, all, root);
    AddsProposition(t, t1, at, all, post);
    AddsSame(t, t2, t3, at, all);
    DependenciesAdd(t, t3, root, run.binding.definition.dependencies);
    PlacedProposition(t', root);
    PlacedProposition(t1, post);
    PlacedSame(t2, t3);
    AddsNothing(t3, at, all);
    DependenciesAdd(t3, t3, root, run.binding.definition.dependencies);
    forall x | x in all ensures LiesHere(t4, at, x) {
      LiesSame(t2, t3, at, x);
      LiesMore(t3, t4, at, all, at, x);
    }
  }

  lemma PlacedSame(t: Tables, t': Tables)
    requires ItemsPlaced(t) && SameItems(t, t') && t'.coordinates == t.coordinates
    ensures ItemsPlaced(t')
  {
  }

  lemma ClaimSourced(s: Reader, r: Record)
    requires ItemsPlaced(s.tables) && Sourced(s.tables) && ReadClaim(s, r).Ok?
    ensures Sourced(ReadClaim(s, r).value.tables)
  {
    hide AddsAt, ItemsPlaced, LiesHere, Sourced, ClaimRequirements, ClaimError;
    if r.claim.Some? {
      ClaimBound(s.index, r, r.claim.value);
      var run := OpenedRun(s.index, r, r.claim.value);
      var point := PointOf(run, 1, r.commit, Plain);
      var all := run.binding.sources + ClaimSources(r);
      var t1 := AddCoordinate(s.tables, point, all);
      var t2 := AddObject(t1, FirstAuthority(run, r));
      PlacedCoordinate(s.tables, point, all);
      AddsNothing(s.tables, Sha(point), all);
      AddsSame(s.tables, s.tables, t1, Sha(point), all);
      AddsObject(s.tables, t1, Sha(point), all, FirstAuthority(run, r));
      PlacedObject(t1, FirstAuthority(run, r));
      RequirementsAdd(s.tables, t2, run, Sha(point), ClaimSources(r));
      var t' := ReadClaim(s, r).value.tables;
      assert t' == ClaimRequirements(t2, run, Sha(point), ClaimSources(r));
      AddsNothing(t', Sha(point), all);
      SourcedBy(s.tables, t', t', point, all);
    }
  }

  lemma AuthoritySourced(s: Reader, r: Record)
    requires ItemsPlaced(s.tables) && Sourced(s.tables) && ReadAuthority(s, r).Ok?
    ensures Sourced(ReadAuthority(s, r).value.tables)
  {
    hide AddsAt, ItemsPlaced, LiesHere, Sourced;
    if r.authority.Some? {
      var fact := r.authority.value;
      var run := s.index.runs[fact.runId];
      var point := PointOf(run, fact.generation, r.commit, Plain);
      var sources := {Source(r.commit, AuthoritySource)};
      var t1 := AddCoordinate(s.tables, point, sources);
      PlacedCoordinate(s.tables, point, sources);
      AddsNothing(s.tables, Sha(point), sources);
      AddsSame(s.tables, s.tables, t1, Sha(point), sources);
      AddsObject(s.tables, t1, Sha(point), sources, NextAuthority(run, r, fact));
      var t' := AddObject(t1, NextAuthority(run, r, fact));
      AddsNothing(t', Sha(point), sources);
      SourcedBy(s.tables, t', t', point, sources);
    }
  }

  lemma ReservationSourced(s: Reader, r: Record)
    requires ItemsPlaced(s.tables) && Sourced(s.tables) && ReadReservation(s, r).Ok?
    ensures Sourced(ReadReservation(s, r).value.tables)
  {
    hide AddsAt, ItemsPlaced, LiesHere, Sourced;
    if r.reservation.Some? {
      var fact := r.reservation.value;
      var run := s.index.runs[fact.runId];
      var point := PointOf(run, fact.generation, fact.authorityCommit, AtReservation(r.commit));
      var sources, event := {Source(r.commit, ReservationSource)}, AttemptEvent(run, fact, r.commit);
      var t1 := AddCoordinate(s.tables, point, sources);
      PlacedCoordinate(s.tables, point, sources);
      AddsNothing(s.tables, Sha(point), sources);
      AddsSame(s.tables, s.tables, t1, Sha(point), sources);
      AddsEvent(s.tables, t1, Sha(point), sources, event);
      var t2 := AddEvent(t1, event);
      var t' := ReadReservation(s, r).value.tables;
      AddsSame(s.tables, t2, t', Sha(point), sources);
      AddsNothing(t2, Sha(point), sources);
      AddsSame(t2, t2, t', Sha(point), sources);
      SourcedBy(s.tables, t2, t', point, sources);
    }
  }

  lemma ReleaseSourced(s: Reader, r: Record)
    requires ItemsPlaced(s.tables) && Sourced(s.tables) && ReadRelease(s, r).Ok?
    ensures Sourced(ReadRelease(s, r).value.tables)
  {
    hide AddsAt, ItemsPlaced, LiesHere, Sourced, ReleaseFactValid;
    if r.release.Some? {
      var fact := r.release.value;
      var run := s.index.runs[fact.runId];
      var point := PointOf(run, fact.generation, fact.authorityCommit, AtReservation(fact.reservationCommit));
      var sources, proposition := {Source(r.commit, ReleaseSource)}, ReleaseProposition(run, fact, r.commit);
      var evidence := Object(Sha(point), ReleaseEvidenceValue(fact.contract, fact.evidenceKind, fact.evidence, fact.evidenceRef), sources);
      var t1 := AddCoordinate(s.tables, point, sources);
      PlacedCoordinate(s.tables, point, sources);
      AddsNothing(s.tables, Sha(point), sources);
      AddsSame(s.tables, s.tables, t1, Sha(point), sources);
      AddsProposition(s.tables, t1, Sha(point), sources, proposition);
      var t2 := AddProposition(t1, proposition);
      AddsObject(s.tables, t2, Sha(point), sources, evidence);
      var t3 := AddObject(t2, evidence);
      var t' := ReadRelease(s, r).value.tables;
      AddsSame(s.tables, t3, t', Sha(point), sources);
      AddsNothing(t3, Sha(point), sources);
      AddsSame(t3, t3, t', Sha(point), sources);
      SourcedBy(s.tables, t3, t', point, sources);
    }
  }

  lemma ReceiptSourced(retention: Retention, s: Reader, r: Record)
    requires ItemsPlaced(s.tables) && Sourced(s.tables) && ReadReceipt(retention, s, r).Ok?
    ensures Sourced(ReadReceipt(retention, s, r).value.tables)
  {
    hide AddsAt, ItemsPlaced, LiesHere, Sourced, Retain;
    if r.receipt.Some? {
      var fact := r.receipt.value;
      var run := s.index.runs[fact.runId];
      var point := PointOf(run, fact.generation, fact.authorityCommit, AtSettlement(r.commit));
      var sources := {Source(r.commit, ReceiptSource)};
      var event := Event(Sha(point), SettlementValue(fact.kind, fact.observed, fact.diagnostic), sources);
      var (proposition, own) := Asserted(s.index, r, fact, Sha(point));
      var t1 := AddCoordinate(s.tables, point, sources);
      PlacedCoordinate(s.tables, point, sources);
      AddsNothing(s.tables, Sha(point), sources);
      AddsSame(s.tables, s.tables, t1, Sha(point), sources);
      AddsEvent(s.tables, t1, Sha(point), sources, event);
      var t2 := AddEvent(t1, event);
      PlacedEvent(t1, event);
      AddsNothing(t2, Sha(point), sources);
      var t3 := if own then AddProposition(t2, proposition) else t2;
      if own {
        AddsProposition(s.tables, t2, Sha(point), sources, proposition);
        AddsProposition(t2, t2, Sha(point), sources, proposition);
      }
      var t4 := AddAsserts(t3, Asserts(EventSha(event), PropositionSha(proposition), sources));
      AddsSame(s.tables, t3, t4, Sha(point), sources);
      AddsSame(t2, t3, t4, Sha(point), sources);
      if fact.observed.Some? {
        RetainAddsAt(s.tables, t4, Sha(point), proposition, retention(fact.observed.value), sources);
        RetainAddsAt(t2, t4, Sha(point), proposition, retention(fact.observed.value), sources);
      }
      SourcedBy(s.tables, t2, ReadReceipt(retention, s, r).value.tables, point, sources);
    }
  }

  lemma RecordSourced(retention: Retention, s: Reader, r: Record)
    requires Sound(s) && Sourced(s.tables) && ReadRecord(retention, s, r).Ok?
    ensures Sourced(ReadRecord(retention, s, r).value.tables)
  {
    hide ReadRecord, ReadPatch, ReadClaim, ReadAuthority, ReadReservation, ReadRelease, ReadReceipt, Sourced, ItemsPlaced, EdgesJoined, Remembered;
    var s1, s2, s3, s4, s5 := ReadStages(retention, s, r);
    assert Sound(s1) by { PatchKeepsRuns(s.index, r); SameRemembered(s, s1); }
    ClaimSound(s1, r);
    ClaimSourced(s1, r);
    AuthoritySound(s2, r);
    AuthoritySourced(s2, r);
    ReservationSound(s3, r);
    ReservationSourced(s3, r);
    ReleaseSound(s4, r);
    ReleaseSourced(s4, r);
    ReceiptSourced(retention, s5, r);
  }

  lemma SameRemembered(s: Reader, s': Reader)
    requires Sound(s) && s'.tables == s.tables && s'.index.runs == s.index.runs
    ensures Sound(s')
  {
    hide ItemsPlaced, EdgesJoined;
  }

  /** For every history the second reader accepts, a coordinate names a fact as its source exactly if something that lies at it
      comes from that fact. */
  lemma {:induction false} CoordinatesSourced(retention: Retention, history: seq<Record>)
    requires ReadAll(retention, history).Ok?
    ensures Sourced(ReadAll(retention, history).value.tables)
    decreases |history|
  {
    hide ReadRecord, Sourced, Sound;
    if history == [] {
      NothingSourced();
    } else {
      var n := |history| - 1;
      CoordinatesSourced(retention, history[..n]);
      TablesClosed(retention, history[..n]);
      RecordSourced(retention, ReadAll(retention, history[..n]).value, history[n]);
    }
  }

  lemma NothingSourced()
    ensures Sourced(NoTables)
  {
  }

  // ---------------------------------------------------------------- what a fact may name

  /** The record gives out this generation of the run's authority: a claim the first, a rotation the one it names. */
  predicate GivesOut(q: Record, run: RunId, generation: nat) {
    || (q.claim.Some? && q.claim.value.runId == run && generation == 1)
    || (q.authority.Some? && q.authority.value.runId == run && q.authority.value.generation == generation)
  }

  ghost predicate GivenOut(history: seq<Record>, run: RunId, commit: CommitId, generation: nat) {
    exists q :: q in history && q.commit == commit && GivesOut(q, run, generation)
  }

  ghost predicate ReservedBefore(history: seq<Record>, commit: CommitId, fact: Reservation) {
    exists q :: q in history && q.commit == commit && q.reservation == Some(fact)
  }

  /** The indexes hold only what the history recorded. */
  ghost predicate Indexed(ix: Index, history: seq<Record>) {
    && (forall run, commit :: run in ix.runs && commit in ix.runs[run].authorities ==> GivenOut(history, run, commit, ix.runs[run].authorities[commit].generation))
    && (forall commit :: commit in ix.reservations ==> ReservedBefore(history, commit, ix.reservations[commit].fact))
  }

  /** Every fact of the record names what was recorded before it, or beside it. */
  ghost predicate Backed(history: seq<Record>, r: Record) {
    && (r.reservation.Some? ==> var f := r.reservation.value; GivenOut(history, f.runId, f.authorityCommit, f.generation))
    && (r.release.Some? ==>
          var f := r.release.value; ReservedBefore(history, f.reservationCommit, Reservation(f.runId, f.obligationId, f.generation, f.authorityCommit)))
    && (r.receipt.Some? ==> var f := r.receipt.value; GivenOut(history, f.runId, f.authorityCommit, f.generation))
  }

  lemma IndexedMore(ix: Index, history: seq<Record>, r: Record)
    requires Indexed(ix, history)
    ensures Indexed(ix, history + [r])
  {
    hide GivesOut;
    forall run, commit, generation | GivenOut(history, run, commit, generation) ensures GivenOut(history + [r], run, commit, generation) {
      var q :| q in history && q.commit == commit && GivesOut(q, run, generation);
      assert q in history + [r];
    }
    forall commit, fact | ReservedBefore(history, commit, fact) ensures ReservedBefore(history + [r], commit, fact) {
      var q :| q in history && q.commit == commit && q.reservation == Some(fact);
      assert q in history + [r];
    }
  }

  lemma ClaimIndexed(s: Reader, history: seq<Record>, r: Record)
    requires Indexed(s.index, history) && r in history && ReadClaim(s, r).Ok?
    ensures Indexed(ReadClaim(s, r).value.index, history)
  {
    hide ClaimRequirements, ClaimError, FirstAuthority, GivenOut, ReservedBefore;
    if r.claim.Some? {
      ClaimBound(s.index, r, r.claim.value);
      assert GivenOut(history, r.claim.value.runId, r.commit, 1) by { Given(history, r, r.claim.value.runId, 1); }
    }
  }

  lemma Given(history: seq<Record>, r: Record, run: RunId, generation: nat)
    requires r in history && GivesOut(r, run, generation)
    ensures GivenOut(history, run, r.commit, generation)
  {
  }

  lemma AuthorityIndexed(s: Reader, history: seq<Record>, r: Record)
    requires Indexed(s.index, history) && r in history && ReadAuthority(s, r).Ok?
    ensures Indexed(ReadAuthority(s, r).value.index, history)
  {
    hide NextAuthority, GivenOut, ReservedBefore;
    if r.authority.Some? {
      assert GivenOut(history, r.authority.value.runId, r.commit, r.authority.value.generation) by {
        Given(history, r, r.authority.value.runId, r.authority.value.generation);
      }
    }
  }

  lemma ReservationIndexed(s: Reader, history: seq<Record>, r: Record)
    requires Indexed(s.index, history) && r in history && ReadReservation(s, r).Ok?
    ensures Indexed(ReadReservation(s, r).value.index, history)
    ensures r.reservation.Some? ==> GivenOut(history, r.reservation.value.runId, r.reservation.value.authorityCommit, r.reservation.value.generation)
  {
    hide AttemptEvent, GivenOut;
  }

  lemma ReleaseIndexed(s: Reader, history: seq<Record>, r: Record)
    requires Indexed(s.index, history) && ReadRelease(s, r).Ok?
    ensures ReadRelease(s, r).value.index == s.index
    ensures r.release.Some? ==>
      var f := r.release.value; ReservedBefore(history, f.reservationCommit, Reservation(f.runId, f.obligationId, f.generation, f.authorityCommit))
  {
    hide ReleaseFactValid, GivenOut, ReservedBefore;
  }

  lemma ReceiptIndexed(retention: Retention, s: Reader, history: seq<Record>, r: Record)
    requires Indexed(s.index, history) && ReadReceipt(retention, s, r).Ok?
    ensures ReadReceipt(retention, s, r).value.index == s.index
    ensures r.receipt.Some? ==> GivenOut(history, r.receipt.value.runId, r.receipt.value.authorityCommit, r.receipt.value.generation)
  {
    hide Retain, Asserted, GivenOut, ReservedBefore;
  }

  lemma {:induction false} BindingsKeep(ix: Index, bindings: seq<Binding>, source: Source)
    requires ReadBindings(ix, bindings, source).Ok?
    ensures ReadBindings(ix, bindings, source).value.reservations == ix.reservations
    decreases |bindings|
  {
    if bindings != [] {
      var known := ix.definitions[bindings[0].definitionId];
      BindingsKeep(ix.(bindings := ix.bindings[bindings[0].node := Bound(bindings[0].definitionId, known.definition, {known.source, source})]), bindings[1..], source);
    }
  }

  lemma {:induction false} DefinitionsKeep(ix: Index, added: seq<Introduced>, source: Source)
    requires ReadDefinitions(ix, added, source).Ok?
    ensures ReadDefinitions(ix, added, source).value.reservations == ix.reservations
    decreases |added|
  {
    if added != [] { DefinitionsKeep(ix.(definitions := ix.definitions[added[0].id := Defined(added[0].definition, source)]), added[1..], source); }
  }

  lemma PatchKeepsReservations(ix: Index, r: Record)
    requires ReadPatch(ix, r).Ok?
    ensures ReadPatch(ix, r).value.reservations == ix.reservations
  {
    if r.patch.Some? {
      var source := Source(r.commit, PatchSource);
      DefinitionsKeep(ix, r.patch.value.definitions, source);
      var defined := ReadDefinitions(ix, r.patch.value.definitions, source).value;
      BindingsKeep(defined.(bindings := defined.bindings - (set id | id in r.patch.value.retire)), r.patch.value.bindings, source);
    }
  }

  lemma SameIndexed(ix: Index, ix': Index, history: seq<Record>)
    requires Indexed(ix, history) && ix'.runs == ix.runs && ix'.reservations == ix.reservations
    ensures Indexed(ix', history)
  {
    hide GivenOut, ReservedBefore;
  }

  lemma RecordBacked(retention: Retention, s: Reader, history: seq<Record>, r: Record)
    requires Indexed(s.index, history) && ReadRecord(retention, s, r).Ok?
    ensures Backed(history + [r], r) && Indexed(ReadRecord(retention, s, r).value.index, history + [r])
  {
    hide ReadRecord, ReadPatch, ReadClaim, ReadAuthority, ReadReservation, ReadRelease, ReadReceipt, Indexed, GivenOut, ReservedBefore;
    var s1, s2, s3, s4, s5 := ReadStages(retention, s, r);
    var more := history + [r];
    assert r in more;
    IndexedMore(s.index, history, r);
    PatchKeepsRuns(s.index, r);
    PatchKeepsReservations(s.index, r);
    SameIndexed(s.index, s1.index, more);
    ClaimIndexed(s1, more, r);
    AuthorityIndexed(s2, more, r);
    ReservationIndexed(s3, more, r);
    ReleaseIndexed(s4, more, r);
    ReceiptIndexed(retention, s5, more, r);
  }

  /** In every history the second reader accepts, each reservation and receipt names a generation of its run's authority that the
      claim or rotation of that commit gave out, and each release the very reservation it ends, recorded before or beside it. */
  lemma {:induction false} EveryFactBacked(retention: Retention, history: seq<Record>)
    requires ReadAll(retention, history).Ok?
    ensures forall k {:trigger history[k]} :: 0 <= k < |history| ==> Backed(history[..k + 1], history[k])
    ensures Indexed(ReadAll(retention, history).value.index, history)
    decreases |history|
  {
    hide ReadRecord, Backed, Indexed;
    if history == [] {
      NothingIndexed();
    } else {
      var n := |history| - 1;
      EveryFactBacked(retention, history[..n]);
      RecordBacked(retention, ReadAll(retention, history[..n]).value, history[..n], history[n]);
      assert history[..n] + [history[n]] == history;
      forall k | 0 <= k < |history| ensures Backed(history[..k + 1], history[k]) {
        if k < n { assert history[..n][k] == history[k] && history[..n][..k + 1] == history[..k + 1]; } else { assert history[..k + 1] == history; }
      }
    }
  }

  lemma NothingIndexed()
    ensures Indexed(NewReader.index, [])
  {
  }
}
