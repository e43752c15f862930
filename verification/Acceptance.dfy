/** Exactly which records the reducer accepts, in terms of the facts before them (src/authority/replay.ts:181-434). */
module Acceptance {
  import opened Facts
  import opened Graph
  import opened Adapter
  import opened Lifecycles
  import opened Replay
  import opened Invariants
  import opened RunSafety
  import opened Engine
  import opened PatchPlanning
  import opened Writer
  import opened Statuses

  /** The run was claimed under the meaning its obligation has now. */
  ghost predicate MeansNow(c: Core, run: RunId) {
    run in c.runs && Lives(ViewOf(c)).Ok? && OfCurrentMeaning(Lives(ViewOf(c)).value, c.runs[run])
  }

  lemma StatusNow(c: Core, run: RunId)
    requires RunsInv(c) && Named(c.obligations) && run in c.runs && Lives(ViewOf(c)).Ok?
    ensures var lives := Lives(ViewOf(c)).value;
      && (CurrentIs(lives, c.runs[run], Executing) <==> MeansNow(c, run) && IsExecuting(c, run))
      && (CurrentIs(lives, c.runs[run], Waiting) <==> MeansNow(c, run) && IsWaiting(c, run))
      && (CurrentIs(lives, c.runs[run], RecoveryRequired) <==> MeansNow(c, run) && NeedsRecovery(c, run))
      && (CurrentIs(lives, c.runs[run], Done) <==> MeansNow(c, run) && IsDone(c, run))
      && (CurrentRun(lives, c.runs[run]) <==> MeansNow(c, run) && (IsOpen(c, run) || IsDone(c, run)))
  {
    hide Lives, RunsInv, Solves, CurrentIs, CurrentRun, IsExecuting, IsWaiting, NeedsRecovery, IsDone, OfCurrentMeaning;
    LivesSolve(ViewOf(c));
    StatusIff(c, Lives(ViewOf(c)).value, run);
  }

  // ---------------------------------------------------------------- claims

  /** The claim's ids are well formed, and a source revision beside it names the same run and obligation. */
  predicate WellNamed(r: Record, claim: Claim) {
    && ValidId(claim.runId) && ValidId(claim.obligationId) && ValidId(claim.claimedRevision)
    && (r.sourceRevision.Some? ==> r.sourceRevision.value.runId == claim.runId && r.sourceRevision.value.obligationId == claim.obligationId)
  }

  /** The claim may be accepted in this state: its obligation is bound and startable under the claimed meaning, its run is new,
      and it names the record's parent. */
  ghost predicate MayClaim(c: Core, r: Record, claim: Claim) {
    && WellNamed(r, claim) && claim.obligationId in c.obligations && claim.runId !in c.runs && r.parent == Some(claim.claimedRevision)
    && Lives(ViewOf(c)).Ok? && Startable(Lives(ViewOf(c)).value, c.obligations[claim.obligationId], claim.key)
  }

  lemma ClaimStepIff(c: Core, r: Record, claim: Claim)
    requires StateInv(c)
    ensures ClaimStep(c, Lives(ViewOf(c)), r, claim).Ok? <==> MayClaim(c, r, claim)
  {
    hide Lives, Prerequisites, Startable, ValidId, ValidGraph;
    if claim.obligationId in c.obligations && Lives(ViewOf(c)).Ok? {
      PrerequisitesIff(Lives(ViewOf(c)).value, c.obligations[claim.obligationId], claim.key);
    }
  }

  /** A record that holds a claim and nothing else is accepted exactly when its obligation is unrealized, everything it depends
      on is DONE, and the claim names its meaning, a new run and the record's parent. */
  lemma ClaimAcceptedExactly(o: Oracle, c: Core, r: Record)
    requires Inv(c) && r.claim.Some? && r == Stamp(Blank.(claim := r.claim, sourceRevision := r.sourceRevision), r.commit, r.parent)
    ensures Step(o, c, r).Ok? <==> MayClaim(c, r, r.claim.value)
  {
    hide Step, Lives, ClaimStep, MayClaim, RunsInv, StateInv;
    OnlyClaim(o, c, r);
    BumpKeeps(c);
    assert ViewOf(Bump(c)) == ViewOf(c);
    ClaimStepIff(Bump(c), r, r.claim.value);
    MayClaimBumped(c, r, r.claim.value);
  }

  lemma MayClaimBumped(c: Core, r: Record, claim: Claim)
    ensures MayClaim(Bump(c), r, claim) <==> MayClaim(c, r, claim)
  {
    assert ViewOf(Bump(c)) == ViewOf(c);
  }

  /** Whatever else an accepted record holds, its claim was startable in the graph the record leaves. */
  lemma ClaimedWasStartable(o: Oracle, c: Core, r: Record) returns (patched: Core)
    requires Inv(c) && Step(o, c, r).Ok? && r.claim.Some?
    ensures AfterPatch(Bump(c), r) == Ok(patched) && MayClaim(patched, r, r.claim.value)
    ensures r.patch.None? ==> MayClaim(c, r, r.claim.value)
  {
    hide Step, Lives, ClaimStep, MayClaim, RunsInv, StateInv, AfterPatch, AfterClaim, AfterAuthority, AfterReservation, AfterRelease, AfterReceipt;
    var c2, c3, c4, c5;
    patched, c2, c3, c4, c5 := Stages(o, c, r);
    BumpKeeps(c);
    AfterPatchKeeps(Bump(c), r);
    AfterClaimIs(patched, r);
    ClaimStepIff(patched, r, r.claim.value);
    if r.patch.None? {
      NoPatch(Bump(c), r);
      MayClaimBumped(c, r, r.claim.value);
    }
  }

  lemma AfterClaimIs(c: Core, r: Record)
    requires r.claim.Some?
    ensures AfterClaim(c, r) == ClaimStep(c, Lives(ViewOf(c)), r, r.claim.value)
  {
    hide ClaimStep, Lives;
  }

  lemma NoPatch(c: Core, r: Record)
    requires r.patch.None?
    ensures AfterPatch(c, r) == Ok(c)
  {
  }

  /** Over every accepted history, each claim was startable where it was accepted. */
  lemma {:induction false} HistoryClaimsStartable(o: Oracle, history: seq<Record>, k: nat)
    requires Accepted(o, history) && k < |history| && history[k].claim.Some?
    ensures Accepted(o, history[..k])
    ensures exists patched :: AfterPatch(Bump(After(o, history[..k])), history[k]) == Ok(patched) && MayClaim(patched, history[k], history[k].claim.value)
    ensures history[k].patch.None? ==> MayClaim(After(o, history[..k]), history[k], history[k].claim.value)
  {
    hide Step, MayClaim, Inv, AfterPatch;
    assert history == history[..k + 1] + history[k + 1..];
    PrefixAccepted(o, history[..k + 1], history[k + 1..]);
    assert history[..k + 1] == history[..k] + [history[k]];
    Snoc(o, history[..k], history[k]);
    HistoryInv(o, history[..k]);
    var patched := ClaimedWasStartable(o, After(o, history[..k]), history[k]);
  }

  // ---------------------------------------------------------------- rotations and reservations

  /** A rotation is accepted exactly for an open run of a current meaning, by its next generation, naming its present authority. */
  lemma RotationAcceptedExactly(o: Oracle, c: Core, r: Record)
    requires Inv(c) && r.authority.Some? && r == Stamp(Blank.(authority := r.authority), r.commit, r.parent)
    ensures Step(o, c, r).Ok? <==>
      var fact := r.authority.value;
      && MeansNow(c, fact.runId) && IsOpen(c, fact.runId)
      && fact.obligationId == c.runs[fact.runId].obligationId
      && fact.generation == c.runs[fact.runId].generation + 1
      && fact.previousAuthority == c.runs[fact.runId].authorityCommit
  {
    hide Step, Lives, OrderInv, OneLiveRun, HeldOpen, HeldBound, StateInv, IsExecuting, IsWaiting, NeedsRecovery, IsDone;
    OnlyAuthority(o, c, r);
    StateNamed(c);
    var run := r.authority.value.runId;
    if run in c.runs && Lives(ViewOf(c)).Ok? {
      StatusNow(c, run);
      StatusesDiffer(c, run);
    }
  }

  lemma StatusesDiffer(c: Core, run: RunId)
    ensures !(IsOpen(c, run) && IsDone(c, run))
  {
  }

  /** A reservation is accepted exactly for an executing run of a current meaning that holds none, by its present authority. */
  lemma ReservationAcceptedExactly(o: Oracle, c: Core, r: Record)
    requires Inv(c) && r.reservation.Some? && r == Stamp(Blank.(reservation := r.reservation), r.commit, r.parent)
    ensures Step(o, c, r).Ok? <==>
      var fact := r.reservation.value;
      && MeansNow(c, fact.runId) && IsExecuting(c, fact.runId) && fact.runId !in c.unresolved
      && fact.obligationId == c.runs[fact.runId].obligationId
      && fact.generation == c.runs[fact.runId].generation
      && fact.authorityCommit == c.runs[fact.runId].authorityCommit
  {
    hide Step, Lives, OrderInv, OneLiveRun, HeldOpen, HeldBound, StateInv, IsExecuting, IsWaiting, NeedsRecovery, IsDone;
    OnlyReservation(o, c, r);
    StateNamed(c);
    var run := r.reservation.value.runId;
    if run in c.runs && Lives(ViewOf(c)).Ok? { StatusNow(c, run); }
  }

  // ---------------------------------------------------------------- receipts

  /** The receipt names the run's claim and present authority. */
  predicate NamesRun(run: Run, fact: ReceiptFact) {
    && fact.obligationId == run.obligationId && fact.claimedRevision == run.claimedRevision && fact.claimCommit == run.claimCommit
    && fact.generation == run.generation && fact.authorityCommit == run.authorityCommit
  }

  /** An observation settles an open run, or refreshes the DONE settlement that it names. */
  ghost predicate MayObserve(o: Oracle, c: Core, fact: ReceiptFact)
    requires fact.runId in c.runs
  {
    && fact.kind == ObservationKind && fact.observed.Some? && o.verified(c.runs[fact.runId].obligation.post, fact.observed.value).Some?
    && (|| (fact.diagnostic.refresh == NoRefresh && IsOpen(c, fact.runId))
        || (&& fact.diagnostic.refresh.RefreshOf? && HexCommit(fact.diagnostic.refresh.prior)
            && IsDone(c, fact.runId) && c.latest[fact.runId].settlement == fact.diagnostic.refresh.prior
            && c.latest[fact.runId].fact.kind != SourceIntegrationKind && fact.runId !in c.unresolved))
  }

  /** A receipt without an observation settles an executing run, or an open one whose record carries a release. */
  ghost predicate MaySettle(o: Oracle, c: Core, fact: ReceiptFact, released: bool)
    requires fact.runId in c.runs
  {
    var work, held := c.runs[fact.runId].obligation, fact.runId in c.unresolved;
    && fact.observed.None? && fact.diagnostic.refresh == NoRefresh
    && match fact.kind
       case ObservationKind => false
       case JudgmentRequiredKind => IsExecuting(c, fact.runId) && !held
       case TerminatedKind => IsExecuting(c, fact.runId)
       case NotDispatchedKind => IsOpen(c, fact.runId) && released
       case SourceRetryKind => IsExecuting(c, fact.runId) && !held && work.packet.sourceChange && work.post.SourceIntegration?
       case SourceIntegrationKind =>
         && IsExecuting(c, fact.runId) && held && work.packet.sourceChange && work.post.SourceIntegration?
         && fact.diagnostic.sourceEvidence.Some? && o.sourceEvidenceValid(fact.diagnostic.sourceEvidence.value)
  }

  ghost predicate MayReceive(o: Oracle, c: Core, fact: ReceiptFact, released: bool) {
    && MeansNow(c, fact.runId) && NamesRun(c.runs[fact.runId], fact)
    && (MayObserve(o, c, fact) || MaySettle(o, c, fact, released))
  }

  /** One of the five states of a run that its lifecycle names. */
  lemma StatusOf(c: Core, run: RunId) returns (status: Status)
    requires RunsInv(c) && Named(c.obligations) && run in c.runs && Lives(ViewOf(c)).Ok?
    requires CurrentRun(Lives(ViewOf(c)).value, c.runs[run])
    ensures status == Lives(ViewOf(c)).value[c.runs[run].obligationId].life.status
    ensures (status == Executing <==> IsExecuting(c, run)) && (status == Done <==> IsDone(c, run)) && (InFlightStatus(status) <==> IsOpen(c, run))
    ensures MeansNow(c, run)
  {
    hide Lives, RunsInv, IsExecuting, IsWaiting, NeedsRecovery, IsDone, OfCurrentMeaning;
    RunNamedHere(c, run);
    StatusNow(c, run);
    status := Lives(ViewOf(c)).value[c.runs[run].obligationId].life.status;
    assert Lives(ViewOf(c)).value[c.runs[run].obligationId].life == Lifecycle(status, Some(run));
    StatusesDiffer(c, run);
  }

  lemma RunNamedHere(c: Core, run: RunId)
    requires RunsInv(c) && run in c.runs
    ensures c.runs[run].id == run && c.runs[run].obligation.id == c.runs[run].obligationId
  {
  }

  /** The reducer's checks and the projection of a receipt, together. */
  lemma CheckedIff(o: Oracle, c: Core, run: Run, status: Status, fact: ReceiptFact, settlement: CommitId, released: bool)
    requires run.id == fact.runId && run.id in c.runs && c.runs[run.id] == run
    requires (status == Executing <==> IsExecuting(c, run.id)) && (status == Done <==> IsDone(c, run.id)) && (InFlightStatus(status) <==> IsOpen(c, run.id))
    requires IsOpen(c, run.id) || IsDone(c, run.id)
    ensures
      ReceiptRejection(c, run, status, fact, released).None?
        && ProjectReceipt(o, fact, run.obligation, settlement, run.id in c.unresolved, released).Ok?
      <==> MayObserve(o, c, fact) || MaySettle(o, c, fact, released)
  {
    hide HexCommit, AcceptedAbsence, ReplaySafe;
    StatusesDiffer(c, run.id);
    match fact.kind
    case ObservationKind =>
    case JudgmentRequiredKind =>
    case TerminatedKind =>
    case NotDispatchedKind =>
    case SourceRetryKind =>
    case SourceIntegrationKind =>
  }

  /** The receipt step accepts exactly what may be received. */
  lemma ReceiptStepIff(o: Oracle, c: Core, r: Record, fact: ReceiptFact, released: bool)
    requires RunsInv(c) && Named(c.obligations)
    ensures ReceiptStep(o, c, Lives(ViewOf(c)), r, fact, released).Ok? <==> MayReceive(o, c, fact, released)
  {
    hide Lives, RunsInv, ReceiptRejection, ProjectReceipt, MayObserve, MaySettle, IsExecuting, IsWaiting, NeedsRecovery, IsDone, OfCurrentMeaning, CurrentRun;
    if fact.runId in c.runs {
      RunNamedHere(c, fact.runId);
      if Lives(ViewOf(c)).Ok? {
        StatusNow(c, fact.runId);
        if CurrentRun(Lives(ViewOf(c)).value, c.runs[fact.runId]) {
          var status := StatusOf(c, fact.runId);
          CheckedIff(o, c, c.runs[fact.runId], status, fact, r.commit, released);
        } else {
          SettlesOpenOrDone(o, c, fact, released);
        }
      }
    }
  }

  lemma SettlesOpenOrDone(o: Oracle, c: Core, fact: ReceiptFact, released: bool)
    requires fact.runId in c.runs
    ensures MayObserve(o, c, fact) || MaySettle(o, c, fact, released) ==> IsOpen(c, fact.runId) || IsDone(c, fact.runId)
  {
    hide HexCommit;
  }

  /** A record that holds a receipt and nothing else is accepted exactly when the receipt may be received. */
  lemma ReceiptAcceptedExactly(o: Oracle, c: Core, r: Record)
    requires Inv(c) && r.receipt.Some? && r == Stamp(Blank.(receipt := r.receipt), r.commit, r.parent)
    ensures Step(o, c, r).Ok? <==> MayReceive(o, c, r.receipt.value, false)
  {
    hide Step, Lives, ReceiptStep, RunsInv, StateInv, MayReceive;
    OnlyReceipt(o, c, r);
    BumpKeeps(c);
    StateNamed(c);
    assert ViewOf(Bump(c)) == ViewOf(c);
    ReceiptStepIff(o, Bump(c), r, r.receipt.value, false);
    MayReceiveBumped(o, c, r.receipt.value, false);
  }

  lemma MayReceiveBumped(o: Oracle, c: Core, fact: ReceiptFact, released: bool)
    ensures MayReceive(o, Bump(c), fact, released) <==> MayReceive(o, c, fact, released)
  {
    hide Lives, HexCommit;
    assert ViewOf(Bump(c)) == ViewOf(c);
  }

  // ---------------------------------------------------------------- releases

  /** A release of the reservation a run holds: its evidence names exactly this attempt, and the one registered contract that
      admits releases shows that nothing was dispatched. */
  ghost predicate MayRelease(o: Oracle, c: Core, fact: Release) {
    && fact.runId in c.runs && fact.runId in c.unresolved && MeansNow(c, fact.runId) && IsExecuting(c, fact.runId)
    && var run, held := c.runs[fact.runId], c.unresolved[fact.runId];
       && fact.obligationId == run.obligationId && fact.reservationCommit == held.commit
       && fact.generation == run.generation == held.fact.generation
       && fact.authorityCommit == run.authorityCommit == held.fact.authorityCommit
       && fact.contract == CommitStatusEffect && run.obligation.packet.effectContract == Some(CommitStatusEffect)
       && run.obligation.post.CommitStatus? && o.notDispatched(run.obligation.post, fact.evidence.observation)
       && fact.evidenceKind == fact.evidence.kind == FreshHttpsNotDispatched && fact.evidenceRef == Sha(fact.evidence)
       && fact.evidence.attempt == Attempt(run.id, run.obligationId, run.generation, run.authorityCommit, held.commit, fact.contract)
  }

  lemma WitnessSafeIff(o: Oracle, work: Obligation, contract: EffectContract, w: Witness)
    ensures WitnessSafe(o, work, contract, w) <==>
      && contract == CommitStatusEffect && work.packet.effectContract == Some(CommitStatusEffect) && work.post.CommitStatus?
      && w.kind == FreshHttpsNotDispatched && o.notDispatched(work.post, w.observation)
  {
    var c := work.packet.effectContract;
    assert Registry[1..][1..] == Registry[2..] && Registry[2..][1..] == Registry[3..] && Registry[3..][1..] == [];
    assert Lookup(Registry[3..], c) == if c == Some(SourceIntegrationEffect) then Some(Registry[3]) else None;
    assert Lookup(Registry[2..], c) == if c == Some(UpdateBranchEffect) then Some(Registry[2]) else Lookup(Registry[3..], c);
    assert Lookup(Registry[1..], c) == if c == Some(ConfigMapEffect) then Some(Registry[1]) else Lookup(Registry[2..], c);
    assert Lookup(Registry, c) == if c == Some(CommitStatusEffect) then Some(Registry[0]) else Lookup(Registry[1..], c);
  }

  lemma ReleaseStepIff(o: Oracle, c: Core, r: Record, fact: Release)
    requires RunsInv(c) && Named(c.obligations)
    ensures ReleaseStep(o, c, Lives(ViewOf(c)), r, fact).Ok? <==>
      MayRelease(o, c, fact) && r.receipt.Some? && r.receipt.value.kind == NotDispatchedKind
  {
    hide Lives, RunsInv, WitnessSafe, IsExecuting, OfCurrentMeaning, CurrentIs;
    if fact.runId in c.runs {
      RunNamedHere(c, fact.runId);
      WitnessSafeIff(o, c.runs[fact.runId].obligation, fact.contract, fact.evidence);
      if Lives(ViewOf(c)).Ok? { StatusNow(c, fact.runId); }
    }
  }

  function Freed(c: Core, run: RunId): Core { c.(unresolved := c.unresolved - {run}) }

  /** A record that holds a release and a receipt is accepted exactly when the reservation may be released, and the receipt says
      so and may be received without it. */
  lemma ReleaseAcceptedExactly(o: Oracle, c: Core, r: Record)
    requires Inv(c) && r.release.Some? && r.receipt.Some?
    requires r == Stamp(Blank.(release := r.release, receipt := r.receipt), r.commit, r.parent)
    ensures Step(o, c, r).Ok? <==>
      && MayRelease(o, c, r.release.value) && r.receipt.value.kind == NotDispatchedKind
      && MayReceive(o, Freed(c, r.release.value.runId), r.receipt.value, true)
  {
    hide Step, Lives, ReleaseStep, ReceiptStep, RunsInv, StateInv, MayRelease, MayReceive;
    OnlyRelease(o, c, r);
    BumpKeeps(c);
    StateNamed(c);
    var b, fact := Bump(c), r.release.value;
    assert ViewOf(b) == ViewOf(c);
    ReleaseStepIff(o, b, r, fact);
    MayReleaseBumped(o, c, fact);
    if ReleaseStep(o, b, Lives(ViewOf(b)), r, fact).Ok? {
      ReleaseFrees(o, b, Lives(ViewOf(b)), r, fact);
      ReleaseKeeps(o, b, Lives(ViewOf(b)), r, fact);
      assert ViewOf(Freed(b, fact.runId)) == ViewOf(c);
      ReceiptStepIff(o, Freed(b, fact.runId), r, r.receipt.value, true);
      assert Freed(b, fact.runId) == Bump(Freed(c, fact.runId));
      MayReceiveBumped(o, Freed(c, fact.runId), r.receipt.value, true);
    }
  }

  lemma ReleaseFrees(o: Oracle, c: Core, now: Refreshed, r: Record, fact: Release)
    requires RunsInv(c) && ReleaseStep(o, c, now, r, fact).Ok?
    ensures ReleaseStep(o, c, now, r, fact).value == Freed(c, fact.runId)
  {
    hide WitnessSafe, OrderInv, OneLiveRun, HeldOpen, HeldBound;
  }

  lemma MayReleaseBumped(o: Oracle, c: Core, fact: Release)
    ensures MayRelease(o, Bump(c), fact) <==> MayRelease(o, c, fact)
  {
    hide Lives;
    assert ViewOf(Bump(c)) == ViewOf(c);
  }

  // ---------------------------------------------------------------- patches

  /** A well-formed patch: digests match, nothing is named twice, and something changes. */
  ghost predicate WellFormed(p: GraphPatch) {
    && (forall d :: d in p.definitions ==> d.id == Sha(d.definition)) && NoRepeats(IntroducedIds(p.definitions))
    && (forall id :: id in Nodes(p.bindings) + p.retire ==> ValidId(id)) && NoRepeats(Nodes(p.bindings) + p.retire)
    && (p.bindings != [] || p.retire != [])
  }

  /** The graph the patch would leave: unretired obligations as they were, bound ones as their digest's preimage. */
  ghost predicate Leaves(c: Core, p: GraphPatch, obs: Obligations) {
    && obs.Keys == c.obligations.Keys - Members(p.retire) + Members(Nodes(p.bindings))
    && (forall id :: id in obs && id !in Nodes(p.bindings) ==> id in c.obligations && obs[id] == c.obligations[id])
    && forall b :: b in p.bindings && b.node in obs ==> obs[b.node] == Materialize(b.node, b.definitionId.preimage)
  }

  /** The patch may be applied: nothing is in flight, it introduces only new definitions, retires only bound obligations, binds
      only known definitions, and the graph it leaves can be ordered. */
  ghost predicate MayPatch(c: Core, p: GraphPatch) {
    && Lives(ViewOf(c)).Ok? && (forall run :: MeansNow(c, run) ==> !IsOpen(c, run))
    && WellFormed(p)
    && (forall d :: d in IntroducedIds(p.definitions) ==> d !in c.definitions)
    && (forall id :: id in p.retire ==> id in c.obligations)
    && (forall b :: b in p.bindings ==> b.definitionId in c.definitions || b.definitionId in IntroducedIds(p.definitions))
    && forall obs :: Leaves(c, p, obs) ==> exists order :: TopologicalOrder(obs, order)
  }

  lemma PatchErrorIff(p: GraphPatch)
    ensures PatchError(p).None? <==> WellFormed(p)
  {
    hide ValidId, NoRepeats;
  }

  lemma {:induction false} IntroducesNew(c: Core, added: seq<Introduced>)
    requires IntroduceAll(c, added).Ok?
    ensures forall d :: d in IntroducedIds(added) ==> d !in c.definitions
    decreases |added|
  {
    if added != [] { IntroducesNew(c.(definitions := c.definitions[added[0].id := added[0].definition]), added[1..]); }
  }

  lemma {:induction false} RetiresBound(c: Core, ids: seq<ObligationId>)
    requires RetireAll(c, ids).Ok?
    ensures forall id :: id in ids ==> id in c.obligations
    decreases |ids|
  {
    if ids != [] {
      assert ids == [ids[0]] + ids[1..];
      RetiresBound(c.(obligations := c.obligations - {ids[0]}, definitionIds := c.definitionIds - {ids[0]},
                      bindingOrdinals := c.bindingOrdinals - {ids[0]}), ids[1..]);
    }
  }

  lemma {:induction false} AssignedAt(bindings: seq<Binding>, b: Binding)
    requires NoRepeats(Nodes(bindings)) && b in bindings
    ensures b.node in Assigned(bindings) && Assigned(bindings)[b.node] == b.definitionId
    decreases |bindings|
  {
    AssignedKeys(bindings);
    var rest := bindings[1..];
    assert Nodes(bindings) == [bindings[0].node] + Nodes(rest);
    forall i, j | 0 <= i < j < |Nodes(rest)| ensures Nodes(rest)[i] != Nodes(rest)[j] {
      assert Nodes(bindings)[i + 1] == Nodes(rest)[i] && Nodes(bindings)[j + 1] == Nodes(rest)[j];
    }
    AssignedKeys(rest);
    forall i | 0 <= i < |Nodes(rest)| ensures Nodes(rest)[i] != bindings[0].node {
      assert Nodes(bindings)[i + 1] == Nodes(rest)[i] && Nodes(bindings)[0] == bindings[0].node;
    }
    if b != bindings[0] { AssignedAt(rest, b); }
  }

  lemma FirstNodes(p: GraphPatch)
    requires NoRepeats(Nodes(p.bindings) + p.retire)
    ensures NoRepeats(Nodes(p.bindings)) && NoRepeats(p.retire)
  {
    var all, n := Nodes(p.bindings) + p.retire, |Nodes(p.bindings)|;
    forall i, j | 0 <= i < j < n ensures Nodes(p.bindings)[i] != Nodes(p.bindings)[j] { assert all[i] != all[j]; }
    forall i, j | 0 <= i < j < |p.retire| ensures p.retire[i] != p.retire[j] { assert all[n + i] != all[n + j]; }
  }

  lemma ReboundAt(c: Core, p: GraphPatch, definitions: map<DefinitionId, Definition>, b: Binding)
    requires NoRepeats(Nodes(p.bindings)) && b in p.bindings
    requires Registered(Assigned(p.bindings), definitions) && forall d :: d in definitions ==> d == Sha(definitions[d])
    ensures b.node in Materialized(Assigned(p.bindings), definitions)
    ensures Materialized(Assigned(p.bindings), definitions)[b.node] == Materialize(b.node, b.definitionId.preimage)
  {
    hide NoRepeats;
    AssignedAt(p.bindings, b);
  }

  lemma ReboundLeaves(c: Core, p: GraphPatch, definitions: map<DefinitionId, Definition>)
    requires NoRepeats(Nodes(p.bindings))
    requires Registered(Assigned(p.bindings), definitions) && forall d :: d in definitions ==> d == Sha(definitions[d])
    ensures Leaves(c, p, Rebound(Without(c.(definitions := definitions), Members(p.retire)), Assigned(p.bindings)).obligations)
  {
    hide NoRepeats, Assigned;
    AssignedKeys(p.bindings);
    var bound := Materialized(Assigned(p.bindings), definitions);
    assert bound.Keys == Members(Nodes(p.bindings));
    var obs := (c.obligations - Members(p.retire)) + bound;
    forall b | b in p.bindings ensures b.node in obs && obs[b.node] == Materialize(b.node, b.definitionId.preimage) {
      ReboundAt(c, p, definitions, b);
    }
  }

  lemma {:induction false} NodeHasBinding(bindings: seq<Binding>, id: ObligationId) returns (b: Binding)
    requires id in Nodes(bindings)
    ensures b in bindings && b.node == id
    decreases |bindings|
  {
    if bindings[0].node == id { b := bindings[0]; } else { b := NodeHasBinding(bindings[1..], id); }
  }

  lemma LeavesOne(c: Core, p: GraphPatch, obs: Obligations, other: Obligations)
    requires Leaves(c, p, obs) && Leaves(c, p, other)
    ensures obs == other
  {
    forall id | id in obs ensures obs[id] == other[id] {
      if id in Nodes(p.bindings) { var b := NodeHasBinding(p.bindings, id); }
    }
  }

  lemma QuietIff(c: Core)
    requires Inv(c) && Lives(ViewOf(c)).Ok?
    ensures HasInFlight(Lives(ViewOf(c)).value) <==> exists run :: MeansNow(c, run) && IsOpen(c, run)
  {
    hide Lives, RunsInv, StateInv, HasInFlight, IsOpen, OfCurrentMeaning, Solves;
    LivesSolve(ViewOf(c));
    StateNamed(c);
    InFlightIff(c, Lives(ViewOf(c)).value);
  }

  lemma PatchStepIff(c: Core, p: GraphPatch)
    requires Inv(c)
    ensures PatchStep(c, Lives(ViewOf(c)), p).Ok? <==> MayPatch(c, p)
  {
    hide Lives, RunsInv, HasInFlight, IsOpen, MeansNow, PatchError, WellFormed, IntroduceAll, RetireAll, BindAll, ValidGraph, Leaves, TopologicalOrder, NoRepeats;
    if Lives(ViewOf(c)).Ok? {
      QuietIff(c);
      PatchErrorIff(p);
      if !HasInFlight(Lives(ViewOf(c)).value) && WellFormed(p) { AppliedIff(c, p); }
    }
  }

  /** Introducing, retiring and binding in turn succeed exactly when the patch names new, bound and known things. */
  ghost predicate Applies(c: Core, p: GraphPatch) {
    && (forall d :: d in IntroducedIds(p.definitions) ==> d !in c.definitions)
    && (forall id :: id in p.retire ==> id in c.obligations)
    && forall b :: b in p.bindings ==> b.definitionId in c.definitions || b.definitionId in IntroducedIds(p.definitions)
  }

  function Applied(c: Core, p: GraphPatch): Result<Core> {
    var introduced :- IntroduceAll(c, p.definitions);
    var retired :- RetireAll(introduced, p.retire);
    BindAll(retired, p.bindings)
  }

  lemma WellFormedParts(p: GraphPatch)
    requires WellFormed(p)
    ensures (forall d :: d in p.definitions ==> d.id == Sha(d.definition)) && NoRepeats(IntroducedIds(p.definitions)) && NoRepeats(p.retire)
    ensures NoRepeats(Nodes(p.bindings))
  {
    hide ValidId, NoRepeats;
    FirstNodes(p);
  }

  lemma IntroducedIff(c: Core, p: GraphPatch)
    requires WellFormed(p)
    ensures IntroduceAll(c, p.definitions).Ok? <==> forall d :: d in IntroducedIds(p.definitions) ==> d !in c.definitions
  {
    hide WellFormed, NoRepeats, IntroduceAll;
    WellFormedParts(p);
    if IntroduceAll(c, p.definitions).Ok? {
      IntroducesNew(c, p.definitions);
    } else if forall d :: d in IntroducedIds(p.definitions) ==> d !in c.definitions {
      IntroduceAllOk(c, p.definitions);
    }
  }

  lemma RetiredIff(c: Core, p: GraphPatch)
    requires WellFormed(p)
    ensures RetireAll(c, p.retire).Ok? <==> forall id :: id in p.retire ==> id in c.obligations
  {
    hide WellFormed, NoRepeats, RetireAll;
    WellFormedParts(p);
    if RetireAll(c, p.retire).Ok? {
      RetiresBound(c, p.retire);
    } else if forall id :: id in p.retire ==> id in c.obligations {
      RetireAllOk(c, p.retire);
    }
  }

  lemma AppliedParts(c: Core, p: GraphPatch)
    requires Inv(c) && WellFormed(p)
    ensures Applied(c, p).Ok? <==> Applies(c, p)
  {
    hide RunsInv, WellFormed, ValidGraph, NoRepeats, BindAll, IntroduceAll, RetireAll;
    WellFormedParts(p);
    IntroducedIff(c, p);
    if IntroduceAll(c, p.definitions).Ok? {
      var introduced := IntroduceAll(c, p.definitions).value;
      IntroduceAllIs(c, p.definitions);
      RetiredIff(introduced, p);
      if RetireAll(introduced, p.retire).Ok? {
        RetireAllIs(introduced, p.retire);
        BindAllIs(RetireAll(introduced, p.retire).value, p.bindings);
      }
    }
  }

  lemma AppliedLeaves(c: Core, p: GraphPatch)
    requires Inv(c) && WellFormed(p) && Applied(c, p).Ok?
    ensures Leaves(c, p, Applied(c, p).value.obligations)
  {
    hide RunsInv, WellFormed, ValidGraph, NoRepeats, BindAll, Leaves, IntroduceAll, RetireAll;
    WellFormedParts(p);
    IntroduceAllIs(c, p.definitions);
    var introduced := IntroduceAll(c, p.definitions).value;
    RetireAllIs(introduced, p.retire);
    BindAllIs(RetireAll(introduced, p.retire).value, p.bindings);
    ReboundLeaves(c, p, introduced.definitions);
  }

  lemma AppliedIff(c: Core, p: GraphPatch)
    requires Inv(c) && WellFormed(p) && Lives(ViewOf(c)).Ok? && !HasInFlight(Lives(ViewOf(c)).value)
    requires (forall run :: MeansNow(c, run) ==> !IsOpen(c, run))
    ensures PatchStep(c, Lives(ViewOf(c)), p).Ok? <==> MayPatch(c, p)
  {
    hide Lives, RunsInv, StateInv, HasInFlight, IsOpen, MeansNow, PatchError, WellFormed, IntroduceAll, RetireAll, BindAll, ValidGraph, Leaves, TopologicalOrder;
    PatchErrorIff(p);
    AppliedParts(c, p);
    if Applied(c, p).Ok? {
      var obs := Applied(c, p).value.obligations;
      AppliedLeaves(c, p);
      ValidIffOrdered(obs);
      forall other | Leaves(c, p, other) ensures other == obs { LeavesOne(c, p, obs, other); }
    }
  }

  /** A record that holds a patch and nothing else is accepted exactly when the patch may be applied; in particular only while
      no run of a current meaning executes, waits for judgment or needs recovery. */
  lemma PatchAcceptedExactly(o: Oracle, c: Core, r: Record)
    requires Inv(c) && r.patch.Some? && r == Stamp(Blank.(patch := r.patch), r.commit, r.parent)
    ensures Step(o, c, r).Ok? <==> MayPatch(c, r.patch.value)
  {
    hide Step, Lives, PatchStep, RunsInv, StateInv, MayPatch;
    OnlyPatch(o, c, r);
    BumpKeeps(c);
    assert ViewOf(Bump(c)) == ViewOf(c);
    PatchStepIff(Bump(c), r.patch.value);
    MayPatchBumped(c, r.patch.value);
  }

  lemma MayPatchBumped(c: Core, p: GraphPatch)
    ensures MayPatch(Bump(c), p) <==> MayPatch(c, p)
  {
    hide Lives, WellFormed, TopologicalOrder;
    assert ViewOf(Bump(c)) == ViewOf(c);
    assert forall run :: MeansNow(Bump(c), run) <==> MeansNow(c, run);
    assert forall run :: IsOpen(Bump(c), run) <==> IsOpen(c, run);
    assert forall obs :: Leaves(Bump(c), p, obs) <==> Leaves(c, p, obs);
  }
}
