/** The writer refines the reducer: a record decided from the projection at the head is accepted after that head
    exactly when the writer's unchecked hypotheses hold (src/authority/engine.ts:241-870, src/authority/replay.ts:181-434). */
module Writer {
  import opened Facts
  import opened Graph
  import opened Adapter
  import opened Lifecycles
  import opened Replay
  import opened Invariants
  import opened RunSafety
  import opened Engine
  import opened PatchPlanning

  /** What holds at every head the writers can produce. */
  ghost predicate WriterInv(c: Core) {
    && Inv(c)
    && Admissible(c.obligations)
    && SettlementsHex(c.latest)
  }

  ghost predicate SettlementsHex(latest: map<RunId, Receipt>) {
    forall r :: r in latest ==> HexCommit(latest[r].settlement)
  }

  ghost predicate Projects(c: Core, lives: Realizations) { Lives(ViewOf(c)) == Ok(lives) }

  lemma HexIsValid(s: string)
    requires HexCommit(s)
    ensures ValidId(s)
  {
  }

  // ---------------------------------------------------------------- records with one kind of fact

  lemma OnlyPatch(o: Oracle, c: Core, r: Record)
    requires r == Stamp(Blank.(patch := r.patch), r.commit, r.parent) && r.patch.Some?
    ensures Step(o, c, r) == PatchStep(Bump(c), Lives(ViewOf(c)), r.patch.value)
  {
    hide PatchStep, Lives;
    assert ViewOf(Bump(c)) == ViewOf(c);
  }

  lemma OnlyClaim(o: Oracle, c: Core, r: Record)
    requires r == Stamp(Blank.(claim := r.claim, sourceRevision := r.sourceRevision), r.commit, r.parent) && r.claim.Some?
    ensures Step(o, c, r) == ClaimStep(Bump(c), Lives(ViewOf(c)), r, r.claim.value)
  {
    hide ClaimStep, Lives;
    assert ViewOf(Bump(c)) == ViewOf(c);
  }

  lemma OnlyAuthority(o: Oracle, c: Core, r: Record)
    requires r == Stamp(Blank.(authority := r.authority), r.commit, r.parent) && r.authority.Some?
    ensures Step(o, c, r) == AuthorityStep(Bump(c), Lives(ViewOf(c)), r, r.authority.value)
  {
    hide AuthorityStep, Lives;
    assert ViewOf(Bump(c)) == ViewOf(c);
  }

  lemma OnlyReservation(o: Oracle, c: Core, r: Record)
    requires r == Stamp(Blank.(reservation := r.reservation), r.commit, r.parent) && r.reservation.Some?
    ensures Step(o, c, r) == ReservationStep(Bump(c), Lives(ViewOf(c)), r, r.reservation.value)
  {
    hide ReservationStep, Lives;
    assert ViewOf(Bump(c)) == ViewOf(c);
  }

  lemma OnlyReceipt(o: Oracle, c: Core, r: Record)
    requires r == Stamp(Blank.(receipt := r.receipt), r.commit, r.parent) && r.receipt.Some?
    ensures Step(o, c, r) == ReceiptStep(o, Bump(c), Lives(ViewOf(c)), r, r.receipt.value, false)
  {
    hide ReceiptStep, Lives;
    assert ViewOf(Bump(c)) == ViewOf(c);
  }

  /** A release with its receipt: the release changes no lifecycle, so both facts see the same projection. */
  lemma OnlyRelease(o: Oracle, c: Core, r: Record)
    requires r == Stamp(Blank.(release := r.release, receipt := r.receipt), r.commit, r.parent)
    requires r.release.Some? && r.receipt.Some?
    ensures var released := ReleaseStep(o, Bump(c), Lives(ViewOf(c)), r, r.release.value);
      Step(o, c, r) == if released.Err? then released
                       else ReceiptStep(o, released.value, Lives(ViewOf(c)), r, r.receipt.value, true)
  {
    hide ReceiptStep, ReleaseStep, Lives;
    assert ViewOf(Bump(c)) == ViewOf(c);
    var released := ReleaseStep(o, Bump(c), Lives(ViewOf(c)), r, r.release.value);
    if released.Ok? {
      ReleaseKeepsView(o, Bump(c), Lives(ViewOf(c)), r, r.release.value);
    }
  }

  lemma ReleaseKeepsView(o: Oracle, c: Core, now: Refreshed, r: Record, fact: Release)
    requires ReleaseStep(o, c, now, r, fact).Ok?
    ensures ViewOf(ReleaseStep(o, c, now, r, fact).value) == ViewOf(c)
  {
  }

  // ---------------------------------------------------------------- each command

  lemma ClaimAcceptedIff(o: Oracle, c: Core, lives: Realizations, head: CommitId, commit: CommitId,
                         id: ObligationId, expected: CommitId, runId: RunId, secret: string, source: Option<string>)
    requires StateInv(c) && Projects(c, lives) && HexCommit(head)
    requires DecideClaim(c, lives, head, id, expected, runId, secret, source).Ok?
    ensures var r := Stamp(DecideClaim(c, lives, head, id, expected, runId, secret, source).value, commit, Some(head));
      Step(o, c, r).Ok? <==> ValidId(runId) && runId !in c.runs
  {
    hide Lives, Step, HasConflict, HexCommit, ValidGraph;
    var r := Stamp(DecideClaim(c, lives, head, id, expected, runId, secret, source).value, commit, Some(head));
    OnlyClaim(o, c, r);
    HexIsValid(head);
  }

  lemma AcquireAccepted(o: Oracle, c: Core, lives: Realizations, head: CommitId, commit: CommitId, runId: RunId, secret: string)
    requires RunsNamed(c.runs) && Projects(c, lives) && DecideAcquire(c, lives, runId, secret).Ok?
    ensures Step(o, c, Stamp(DecideAcquire(c, lives, runId, secret).value, commit, Some(head))).Ok?
  {
    hide Lives, Step;
    OnlyAuthority(o, c, Stamp(DecideAcquire(c, lives, runId, secret).value, commit, Some(head)));
  }

  lemma ReserveAccepted(o: Oracle, c: Core, lives: Realizations, head: CommitId, commit: CommitId, permit: Permit)
    requires RunsNamed(c.runs) && Projects(c, lives) && DecideReserve(c, lives, permit).Ok?
    ensures Step(o, c, Stamp(DecideReserve(c, lives, permit).value, commit, Some(head))).Ok?
  {
    hide Lives, Step;
    OnlyReservation(o, c, Stamp(DecideReserve(c, lives, permit).value, commit, Some(head)));
  }

  /** A safe witness is always for the contract of the obligation's own packet. */
  lemma WitnessNamesContract(o: Oracle, work: Obligation, contract: EffectContract, w: Witness)
    requires WitnessSafe(o, work, contract, w)
    ensures work.packet.effectContract == Some(contract)
  {
    LookupContract(Registry, work.packet.effectContract);
  }

  lemma {:induction false} LookupContract(registry: seq<Capabilities>, contract: Option<EffectContract>)
    ensures Lookup(registry, contract).Some? ==> contract == Some(Lookup(registry, contract).value.contract)
  {
    if registry != [] { LookupContract(registry[1..], contract); }
  }

  lemma ReleaseFactIff(o: Oracle, c: Core, lives: Realizations, r: Record, permit: Permit, contract: EffectContract,
                       trusted: Witness, diagnostic: Diagnostic)
    requires RunsNamed(c.runs) && DecideRelease(o, c, lives, permit, contract, trusted, diagnostic).Ok?
    requires r.release == DecideRelease(o, c, lives, permit, contract, trusted, diagnostic).value.release
    requires r.receipt == DecideRelease(o, c, lives, permit, contract, trusted, diagnostic).value.receipt
    ensures ReleaseStep(o, Bump(c), Ok(lives), r, r.release.value).Ok? <==> MintedForReservation(c, permit.id, trusted.attempt)
    ensures ReleaseStep(o, Bump(c), Ok(lives), r, r.release.value).Ok? ==>
      ReleaseStep(o, Bump(c), Ok(lives), r, r.release.value).value == Bump(c).(unresolved := c.unresolved - {permit.id})
  {
    hide WitnessSafe;
    WitnessNamesContract(o, c.runs[permit.id].obligation, contract, trusted);
  }

  /** The paired receipt is accepted exactly when the diagnostic leaves the refresh key alone. */
  lemma ReleaseReceiptIff(o: Oracle, c: Core, lives: Realizations, r: Record, run: Run, diagnostic: Diagnostic)
    requires RunsNamed(c.runs) && run.id in c.runs && c.runs[run.id] == run
    requires CurrentIs(lives, run, Executing)
    requires run.id in c.latest ==> !Terminal(c.latest[run.id].disposition)
    ensures ReceiptStep(o, c, Ok(lives), r, ReceiptFor(run, NotDispatchedKind, None, diagnostic), true).Ok?
      <==> diagnostic.refresh == NoRefresh
  {
  }

  lemma ReleaseAcceptedIff(o: Oracle, c: Core, lives: Realizations, head: CommitId, commit: CommitId, permit: Permit,
                           contract: EffectContract, trusted: Witness, diagnostic: Diagnostic)
    requires RunsNamed(c.runs) && HeldOpen(c.unresolved, c.latest) && Projects(c, lives)
    requires DecideRelease(o, c, lives, permit, contract, trusted, diagnostic).Ok?
    ensures var r := Stamp(DecideRelease(o, c, lives, permit, contract, trusted, diagnostic).value, commit, Some(head));
      Step(o, c, r).Ok? <==> diagnostic.refresh == NoRefresh && MintedForReservation(c, permit.id, trusted.attempt)
  {
    hide Lives, Step, ReceiptStep, ReleaseStep, WitnessSafe, MintedForReservation;
    var r := Stamp(DecideRelease(o, c, lives, permit, contract, trusted, diagnostic).value, commit, Some(head));
    OnlyRelease(o, c, r);
    ReleaseFactIff(o, c, lives, r, permit, contract, trusted, diagnostic);
    ReleaseReceiptIff(o, Bump(c).(unresolved := c.unresolved - {permit.id}), lives, r, c.runs[permit.id], diagnostic);
  }

  /** Whether a receipt is projected does not depend on the settlement commit. */
  lemma ProjectReceiptOk(o: Oracle, fact: ReceiptFact, work: Obligation, s1: CommitId, s2: CommitId, u1: bool, u2: bool)
    ensures ProjectReceipt(o, fact, work, s1, u1, false).Ok? <==> ProjectReceipt(o, fact, work, s2, u2, false).Ok?
  {
  }

  lemma ResolveAcceptedIff(o: Oracle, c: Core, lives: Realizations, head: CommitId, commit: CommitId, permit: Permit,
                           observed: Observation, diagnostic: Diagnostic)
    requires RunsNamed(c.runs) && Projects(c, lives)
    requires DecideResolve(o, c, lives, permit, observed, diagnostic).Ok?
    ensures var r := Stamp(DecideResolve(o, c, lives, permit, observed, diagnostic).value, commit, Some(head));
      Step(o, c, r).Ok? <==> diagnostic.refresh == NoRefresh
  {
    hide Lives, Step, ProjectReceipt;
    var r := Stamp(DecideResolve(o, c, lives, permit, observed, diagnostic).value, commit, Some(head));
    OnlyReceipt(o, c, r);
    var run := c.runs[permit.id];
    ProjectReceiptOk(o, r.receipt.value, run.obligation, "", commit, run.id in c.unresolved, run.id in c.unresolved);
  }

  lemma SettleAcceptedIff(o: Oracle, c: Core, lives: Realizations, head: CommitId, commit: CommitId, permit: Permit,
                          kind: Kind, diagnostic: Diagnostic)
    requires RunsNamed(c.runs) && Projects(c, lives)
    requires kind in {JudgmentRequiredKind, TerminatedKind, SourceRetryKind, SourceIntegrationKind}
    requires DecideSettle(o, c, lives, permit, kind, diagnostic).Ok?
    ensures var r := Stamp(DecideSettle(o, c, lives, permit, kind, diagnostic).value, commit, Some(head));
      Step(o, c, r).Ok? <==> diagnostic.refresh == NoRefresh
  {
    hide Lives, Step, ProjectReceipt;
    var r := Stamp(DecideSettle(o, c, lives, permit, kind, diagnostic).value, commit, Some(head));
    OnlyReceipt(o, c, r);
    var run := c.runs[permit.id];
    ProjectReceiptOk(o, r.receipt.value, run.obligation, "", commit, false, run.id in c.unresolved);
  }

  lemma RefreshAccepted(o: Oracle, c: Core, lives: Realizations, head: CommitId, commit: CommitId, id: ObligationId,
                        expected: CommitId, observed: Observation)
    requires RunsNamed(c.runs) && Named(c.obligations) && Projects(c, lives) && SettlementsHex(c.latest)
    requires DecideRefresh(o, c, lives, head, id, expected, observed).Ok?
    ensures Step(o, c, Stamp(DecideRefresh(o, c, lives, head, id, expected, observed).value, commit, Some(head))).Ok?
  {
    hide Lives, Step, ProjectReceipt, Solves, HexCommit;
    var r := Stamp(DecideRefresh(o, c, lives, head, id, expected, observed).value, commit, Some(head));
    OnlyReceipt(o, c, r);
    LivesSolve(ViewOf(c));
    var run := lives[id].life.run.value;
    CurrentFacts(ViewOf(c), lives, id, run);
    ProjectReceiptOk(o, r.receipt.value, c.runs[run].obligation, "", commit, false, false);
  }

  // ---------------------------------------------------------------- the refinement

  lemma NoPatchSameGraph(o: Oracle, c: Core, r: Record)
    requires Inv(c) && Step(o, c, r).Ok? && r.patch.None?
    ensures Step(o, c, r).value.obligations == c.obligations
  {
    hide Step, AfterClaim, AfterAuthority, AfterReservation, AfterRelease, AfterReceipt, OrderInv, OneLiveRun, HeldOpen, HeldBound;
    var c1, c2, c3, c4, c5 := Stages(o, c, r);
    BumpKeeps(c);
    AfterClaimKeeps(c1, r);
    AfterAuthorityKeeps(c2, r);
    AfterReservationKeeps(c3, r);
    AfterReleaseKeeps(o, c4, r);
    AfterReceiptKeeps(o, c5, r);
  }

  lemma SettlementsStayHex(o: Oracle, c: Core, r: Record)
    requires Inv(c) && Step(o, c, r).Ok? && SettlementsHex(c.latest) && HexCommit(r.commit)
    ensures SettlementsHex(Step(o, c, r).value.latest)
  {
    hide Step, AfterReceipt, AfterRelease, AfterReservation, OrderInv, OneLiveRun, HeldOpen, HeldBound, RunsNamed, StateInv, HexCommit;
    var c3, c4, c5 := StageTables(o, c, r);
    ReceiptTables(o, c5, r);
    if r.receipt.Some? { ReceiptStamped(o, c5, r); }
  }

  lemma PatchRecordIff(o: Oracle, c: Core, lives: Realizations, head: CommitId, commit: CommitId,
                       upsert: seq<Obligation>, retire: seq<ObligationId>)
    requires Inv(c) && Projects(c, lives) && DecidePatch(c, lives, upsert, retire).Ok?
    ensures var r := Stamp(DecidePatch(c, lives, upsert, retire).value, commit, Some(head));
      && (Step(o, c, r).Ok? <==> forall b :: b in PlanUpserts(c, upsert).bindings ==> '\0' !in b.node)
      && (Step(o, c, r).Ok? ==> Admissible(Step(o, c, r).value.obligations))
  {
    hide Step, Lives, Admissible, DecidePatch, PatchStep, PlanUpserts, RunsInv;
    var r := Stamp(DecidePatch(c, lives, upsert, retire).value, commit, Some(head));
    DecidedPatch(c, lives, upsert, retire);
    OnlyPatch(o, c, r);
    PlanIgnoresOrdinal(c, upsert);
    assert DecidePatch(Bump(c), lives, upsert, retire) == DecidePatch(c, lives, upsert, retire) by {
      DecideIgnoresOrdinal(c, lives, upsert, retire);
    }
    BumpKeeps(c);
    PatchAcceptedIff(Bump(c), lives, upsert, retire);
  }

  lemma {:induction false} PlanIgnoresOrdinal(c: Core, upsert: seq<Obligation>)
    ensures PlanUpserts(Bump(c), upsert) == PlanUpserts(c, upsert)
    decreases |upsert|
  {
    if upsert != [] { PlanIgnoresOrdinal(c, upsert[..|upsert| - 1]); }
  }

  lemma DecideIgnoresOrdinal(c: Core, lives: Realizations, upsert: seq<Obligation>, retire: seq<ObligationId>)
    ensures DecidePatch(Bump(c), lives, upsert, retire) == DecidePatch(c, lives, upsert, retire)
  {
    hide Admissible, HasInFlight, NoRepeats, PlanUpserts, PlannedObligations, Ids;
    PlanIgnoresOrdinal(c, upsert);
  }

  /** The record a command yields at this head. */
  ghost function Written(o: Oracle, c: Core, lives: Realizations, head: CommitId, commit: CommitId, cmd: Command): Record
    requires Decide(o, c, lives, head, cmd).Ok?
  {
    Stamp(Decide(o, c, lives, head, cmd).value, commit, Some(head))
  }

  /** The reducer accepts what a writer decided exactly when the writer's unchecked hypotheses hold. */
  lemma AcceptedIffHonest(o: Oracle, c: Core, lives: Realizations, head: CommitId, commit: CommitId, cmd: Command)
    requires WriterInv(c) && Projects(c, lives) && HexCommit(head) && Decide(o, c, lives, head, cmd).Ok?
    ensures Step(o, c, Written(o, c, lives, head, commit, cmd)).Ok? <==> Honest(c, cmd)
  {
    hide Step, Lives, Admissible, DecideClaim, DecideAcquire, DecideReserve, DecideRelease, DecideResolve, DecideSettle;
    hide DecideRefresh, DecidePatch, HexCommit, OrderInv, OneLiveRun, PlanUpserts, StateFacts, ValidGraph, MintedForReservation;
    match cmd {
      case ClaimWork(id, expected, runId, secret, source) =>
        ClaimAcceptedIff(o, c, lives, head, commit, id, expected, runId, secret, source);
      case Acquire(runId, secret) => AcquireAccepted(o, c, lives, head, commit, runId, secret);
      case Reserve(permit) => ReserveAccepted(o, c, lives, head, commit, permit);
      case ReleaseReservation(permit, contract, trusted, diagnostic) =>
        ReleaseAcceptedIff(o, c, lives, head, commit, permit, contract, trusted, diagnostic);
      case Resolve(permit, observed, diagnostic) => ResolveAcceptedIff(o, c, lives, head, commit, permit, observed, diagnostic);
      case Defer(permit, diagnostic) => SettleAcceptedIff(o, c, lives, head, commit, permit, JudgmentRequiredKind, diagnostic);
      case Terminate(permit, diagnostic) => SettleAcceptedIff(o, c, lives, head, commit, permit, TerminatedKind, diagnostic);
      case RetrySource(permit, diagnostic) => SettleAcceptedIff(o, c, lives, head, commit, permit, SourceRetryKind, diagnostic);
      case IntegrateSource(permit, evidence) =>
        SettleAcceptedIff(o, c, lives, head, commit, permit, SourceIntegrationKind, Diagnostic(NoRefresh, Some(evidence), ""));
      case RefreshRealization(id, expected, observed) =>
        StateNamed(c);
        RefreshAccepted(o, c, lives, head, commit, id, expected, observed);
      case PatchGraph(upsert, retire) => PatchRecordIff(o, c, lives, head, commit, upsert, retire);
      case Initialize =>
    }
  }

  lemma DecidedShape(o: Oracle, c: Core, lives: Realizations, head: CommitId, cmd: Command)
    requires RunsNamed(c.runs) && Decide(o, c, lives, head, cmd).Ok?
    ensures !cmd.PatchGraph? ==> Decide(o, c, lives, head, cmd).value.patch.None?
    ensures Paired(Decide(o, c, lives, head, cmd).value)
  {
    hide ProjectReceipt, WitnessSafe, Claimability, Admissible, PlanUpserts, PlannedObligations, Ids, NoRepeats, HasInFlight;
  }

  /** What every accepted write keeps: the reducer's invariant, an admissible graph, a projection that does not
      fail, and releases paired with their own run's receipt. */
  lemma WriteKeeps(o: Oracle, c: Core, lives: Realizations, head: CommitId, commit: CommitId, cmd: Command)
    requires WriterInv(c) && Projects(c, lives) && HexCommit(head) && HexCommit(commit)
    requires Decide(o, c, lives, head, cmd).Ok? && Honest(c, cmd)
    ensures var r := Written(o, c, lives, head, commit, cmd);
      && Step(o, c, r).Ok? && Paired(r)
      && WriterInv(Step(o, c, r).value) && Lives(ViewOf(Step(o, c, r).value)).Ok?
  {
    hide Step, Lives, Admissible, Decide, HexCommit, Honest, OrderInv, OneLiveRun, HeldOpen, HeldBound, StateFacts, SettlementsHex;
    var r := Written(o, c, lives, head, commit, cmd);
    AcceptedIffHonest(o, c, lives, head, commit, cmd);
    DecidedShape(o, c, lives, head, cmd);
    StepKeeps(o, c, r);
    SettlementsStayHex(o, c, r);
    var c' := Step(o, c, r).value;
    assert Admissible(c'.obligations) by {
      if cmd.PatchGraph? { PatchAdmissible(o, c, lives, head, commit, cmd); } else { NoPatchSameGraph(o, c, r); }
    }
    AdmissibleProjects(c');
  }

  lemma PatchAdmissible(o: Oracle, c: Core, lives: Realizations, head: CommitId, commit: CommitId, cmd: Command)
    requires Inv(c) && Projects(c, lives) && cmd.PatchGraph? && Decide(o, c, lives, head, cmd).Ok?
    requires Step(o, c, Written(o, c, lives, head, commit, cmd)).Ok?
    ensures Admissible(Step(o, c, Written(o, c, lives, head, commit, cmd)).value.obligations)
  {
    hide Step, Lives, Admissible, DecidePatch, RunsInv, StateInv;
    PatchRecordIff(o, c, lives, head, commit, cmd.upsert, cmd.retire);
  }

  lemma AdmissibleProjects(c: Core)
    requires Admissible(c.obligations)
    ensures Lives(ViewOf(c)).Ok?
  {
    hide Lives;
    LivesOk(ViewOf(c));
  }
}
