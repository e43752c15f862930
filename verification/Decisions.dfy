/** Exactly when each writing call decides to write, in terms of the facts at the head it read (src/authority/engine.ts:241-870). */
module Decisions {
  import opened Facts
  import opened Adapter
  import opened Lifecycles
  import opened TransactionAdmission
  import opened Replay
  import opened Invariants
  import opened Engine
  import opened Writer
  import opened Scheduling
  import opened Statuses
  import opened Acceptance

  /** The caller presents the secret of the run's present authority, and the revision, claim and meaning it was claimed for. */
  predicate HoldsPermit(c: Core, p: Permit) {
    && p.id in c.runs
    && var run := c.runs[p.id];
       && Sha(p.capability) == run.capability && p.capabilitySha == run.capability
       && p.generation == run.generation && p.authorityCommit == run.authorityCommit
       && p.obligationId == run.obligationId && p.claimedRevision == run.claimedRevision && p.claimCommit == run.claimCommit && p.key == run.key
  }

  lemma PermitIff(c: Core, p: Permit)
    requires RunsNamed(c.runs) && p.id in c.runs
    ensures ExecutionPermits(c.runs[p.id], p) <==> HoldsPermit(c, p)
  {
  }

  /** A run that its lifecycle names belongs to a bound obligation. */
  lemma MeaningIsBound(c: Core, run: RunId)
    requires MeansNow(c, run)
    ensures c.runs[run].obligationId in c.obligations
  {
    hide Derive;
  }

  /** A claim is decided exactly at the expected head, for an obligation that may be claimed. */
  lemma ClaimDecidedIff(c: Core, lives: Realizations, head: CommitId, id: ObligationId, expected: CommitId, runId: RunId, secret: string, source: Option<string>)
    ensures DecideClaim(c, lives, head, id, expected, runId, secret, source).Ok? <==> head == expected && Claimable(c, lives, id)
    ensures DecideClaim(c, lives, head, id, expected, runId, secret, source).Ok? ==>
      var claim := DecideClaim(c, lives, head, id, expected, runId, secret, source).value.claim;
      && claim.Some? && claim.value.runId == runId && claim.value.obligationId == id && claim.value.claimedRevision == head
      && claim.value.capability == Sha(secret) && Startable(lives, c.obligations[id], claim.value.key)
  {
    hide Claimability, Claimable, Startable;
    if id in c.obligations {
      ClaimableIff(c, lives, id);
      if Claimability(ViewOf(c), lives, id).Ok? { ClaimedUnderMeaning(c, lives, id); }
    } else {
      assert !Claimable(c, lives, id) by { NotBound(c, lives, id); }
    }
  }

  lemma NotBound(c: Core, lives: Realizations, id: ObligationId)
    requires id !in c.obligations
    ensures !Claimable(c, lives, id)
  {
  }

  lemma ClaimedUnderMeaning(c: Core, lives: Realizations, id: ObligationId)
    requires id in c.obligations && Claimability(ViewOf(c), lives, id).Ok?
    ensures Startable(lives, c.obligations[id], Claimability(ViewOf(c), lives, id).value)
  {
    hide Prerequisites, Startable, HasConflict;
    PrerequisitesIff(lives, c.obligations[id], Claimability(ViewOf(c), lives, id).value);
  }

  /** A rotation is decided exactly for an open run of a current meaning. */
  lemma AcquireDecidedIff(c: Core, lives: Realizations, runId: RunId, secret: string)
    requires Inv(c) && Projects(c, lives)
    ensures DecideAcquire(c, lives, runId, secret).Ok? <==> MeansNow(c, runId) && IsOpen(c, runId)
    ensures DecideAcquire(c, lives, runId, secret).Ok? ==>
      var fact := DecideAcquire(c, lives, runId, secret).value.authority; fact.Some? && fact.value.runId == runId && fact.value.capability == Sha(secret)
  {
    hide Lives, OrderInv, OneLiveRun, HeldOpen, HeldBound, StateInv, IsExecuting, IsWaiting, NeedsRecovery, OfCurrentMeaning;
    if runId in c.runs {
      StateNamed(c);
      StatusNow(c, runId);
      StatusesDiffer(c, runId);
      OpenNotTerminal(c, runId);
    }
  }

  lemma OpenNotTerminal(c: Core, run: RunId)
    ensures IsOpen(c, run) && run in c.latest ==> !Terminal(c.latest[run].disposition)
  {
  }

  /** A reservation is decided exactly for the holder of the permit of an executing run of a current meaning that holds none. */
  lemma ReserveDecidedIff(c: Core, lives: Realizations, p: Permit)
    requires Inv(c) && Projects(c, lives)
    ensures DecideReserve(c, lives, p).Ok? <==> HoldsPermit(c, p) && MeansNow(c, p.id) && IsExecuting(c, p.id) && p.id !in c.unresolved
  {
    hide Lives, OrderInv, OneLiveRun, HeldOpen, HeldBound, StateInv, IsExecuting, OfCurrentMeaning, ExecutionPermits, HoldsPermit;
    if p.id in c.runs {
      StateNamed(c);
      PermitIff(c, p);
      StatusNow(c, p.id);
    } else {
      assert !HoldsPermit(c, p) by { NoRunNoPermit(c, p); }
    }
  }

  lemma NoRunNoPermit(c: Core, p: Permit)
    requires p.id !in c.runs
    ensures !HoldsPermit(c, p)
  {
  }

  /** A release is decided exactly for the holder of the permit of an executing run that holds a reservation, on evidence for
      that very attempt under the one contract that admits releases. */
  lemma ReleaseDecidedIff(o: Oracle, c: Core, lives: Realizations, p: Permit, contract: EffectContract, w: Witness, diagnostic: Diagnostic)
    requires Inv(c) && Projects(c, lives)
    ensures DecideRelease(o, c, lives, p, contract, w, diagnostic).Ok? <==>
      && HoldsPermit(c, p) && MeansNow(c, p.id) && IsExecuting(c, p.id) && p.id in c.unresolved
      && var run := c.runs[p.id];
         && w.attempt == Attempt(run.id, run.obligationId, run.generation, run.authorityCommit, c.unresolved[p.id].commit, contract)
         && contract == CommitStatusEffect && run.obligation.packet.effectContract == Some(CommitStatusEffect) && run.obligation.post.CommitStatus?
         && w.kind == FreshHttpsNotDispatched && o.notDispatched(run.obligation.post, w.observation)
  {
    hide Lives, OrderInv, OneLiveRun, HeldOpen, HeldBound, StateInv, IsExecuting, OfCurrentMeaning, ExecutionPermits, HoldsPermit, WitnessSafe;
    if p.id in c.runs {
      StateNamed(c);
      PermitIff(c, p);
      StatusNow(c, p.id);
      WitnessSafeIff(o, c.runs[p.id].obligation, contract, w);
    } else {
      assert !HoldsPermit(c, p) by { NoRunNoPermit(c, p); }
    }
  }

  lemma SettleableIff(c: Core, p: Permit)
    requires RunsInv(c)
    ensures SettleableRun(c, p).Ok? <==>
      HoldsPermit(c, p) && c.runs[p.id].obligationId in c.obligations && !(p.id in c.latest && Terminal(c.latest[p.id].disposition))
    ensures SettleableRun(c, p).Ok? ==> SettleableRun(c, p).value == c.runs[p.id]
  {
    hide OrderInv, OneLiveRun, HeldOpen, HeldBound, ExecutionPermits, HoldsPermit;
    if p.id in c.runs { PermitIff(c, p); } else { NoRunNoPermit(c, p); }
  }

  /** A resolution is decided exactly for the holder of the permit of an open run, on an observation that can be judged. */
  lemma ResolveDecidedIff(o: Oracle, c: Core, lives: Realizations, p: Permit, observed: Observation, diagnostic: Diagnostic)
    requires Inv(c) && Projects(c, lives)
    ensures DecideResolve(o, c, lives, p, observed, diagnostic).Ok? <==>
      HoldsPermit(c, p) && MeansNow(c, p.id) && IsOpen(c, p.id) && o.verified(c.runs[p.id].obligation.post, observed).Some?
  {
    hide Lives, RunsInv, StateInv, IsExecuting, IsWaiting, NeedsRecovery, IsDone, HoldsPermit, SettleableRun, OfCurrentMeaning;
    SettleableIff(c, p);
    if HoldsPermit(c, p) {
      PermitNamesRun(c, p);
      StateNamed(c);
      StatusNow(c, p.id);
      OpenNotTerminal(c, p.id);
      StatusesDiffer(c, p.id);
      if MeansNow(c, p.id) { MeaningIsBound(c, p.id); }
      if CurrentRun(lives, c.runs[p.id]) { var status := StatusOf(c, p.id); }
    }
  }

  lemma PermitNamesRun(c: Core, p: Permit)
    requires HoldsPermit(c, p)
    ensures p.id in c.runs
  {
  }

  /** A settlement without observation is decided exactly for the holder of the permit of an executing run: judgment and retry
      only without a reservation, integration only with one, and the last two only for source work. */
  lemma SettleDecidedIff(o: Oracle, c: Core, lives: Realizations, p: Permit, kind: Kind, diagnostic: Diagnostic)
    requires Inv(c) && Projects(c, lives) && kind in {JudgmentRequiredKind, TerminatedKind, SourceRetryKind, SourceIntegrationKind}
    ensures DecideSettle(o, c, lives, p, kind, diagnostic).Ok? <==>
      && HoldsPermit(c, p) && MeansNow(c, p.id) && IsExecuting(c, p.id)
      && (kind == JudgmentRequiredKind || kind == SourceRetryKind ==> p.id !in c.unresolved)
      && (kind == SourceIntegrationKind ==>
            && p.id in c.unresolved
            && diagnostic.sourceEvidence.Some? && o.sourceEvidenceValid(diagnostic.sourceEvidence.value))
      && (kind == SourceRetryKind || kind == SourceIntegrationKind ==>
            c.runs[p.id].obligation.packet.sourceChange && c.runs[p.id].obligation.post.SourceIntegration?)
  {
    hide Lives, RunsInv, StateInv, IsExecuting, IsWaiting, NeedsRecovery, IsDone, HoldsPermit, SettleableRun, OfCurrentMeaning;
    SettleableIff(c, p);
    if HoldsPermit(c, p) {
      PermitNamesRun(c, p);
      RunNamedHere(c, p.id);
      StateNamed(c);
      StatusNow(c, p.id);
      OpenNotTerminal(c, p.id);
      if MeansNow(c, p.id) { MeaningIsBound(c, p.id); }
    }
  }

  /** An integration is decided exactly as a settlement, when its evidence names the run, its meaning and its source revision. */
  lemma IntegrateDecidedIff(o: Oracle, c: Core, lives: Realizations, p: Permit, evidence: SourceEvidence)
    requires Inv(c) && Projects(c, lives)
    ensures DecideIntegrate(o, c, lives, p, evidence).Ok? <==>
      && DecideSettle(o, c, lives, p, SourceIntegrationKind, Diagnostic(NoRefresh, Some(evidence), "")).Ok?
      && p.id in c.runs && c.runs[p.id].obligation.packet.effectContract == Some(SourceIntegrationEffect)
      && evidence.runId == p.id && evidence.key == c.runs[p.id].key && Some(evidence.sourceSha) == c.runs[p.id].sourceRevision
  {
    hide Lives, OrderInv, OneLiveRun, HeldOpen, HeldBound, StateInv, DecideSettle;
  }

  /** A refresh is decided exactly at the expected head, for an obligation with a DONE run of its current meaning that was not
      settled by source integration and holds no reservation, on an observation that can be judged. */
  lemma RefreshDecidedIff(o: Oracle, c: Core, lives: Realizations, head: CommitId, id: ObligationId, expected: CommitId, observed: Observation)
    requires Inv(c) && Projects(c, lives)
    ensures DecideRefresh(o, c, lives, head, id, expected, observed).Ok? <==>
      && head == expected
      && exists run :: MeansNow(c, run) && IsDone(c, run) && c.runs[run].obligationId == id && run !in c.unresolved
           && c.latest[run].fact.kind != SourceIntegrationKind && o.verified(c.runs[run].obligation.post, observed).Some?
  {
    hide Lives, RunsInv, StateInv, OfCurrentMeaning, ReplaySafe, AcceptedAbsence;
    StateNamed(c);
    forall run | MeansNow(c, run) && IsDone(c, run) && c.runs[run].obligationId == id
      ensures id in c.obligations && id in lives && lives[id].life == Lifecycle(Done, Some(run)) && c.runs[run].id == run
    {
      MeaningIsBound(c, run);
      RunNamedHere(c, run);
      StatusNow(c, run);
    }
    if id in lives && lives[id].life.status == Done && lives[id].life.run.Some? && lives[id].life.run.value in c.runs {
      DoneRunIs(c, lives, id);
    }
  }

  lemma DoneRunIs(c: Core, lives: Realizations, id: ObligationId)
    requires Inv(c) && Projects(c, lives) && id in lives && lives[id].life.status == Done
    requires lives[id].life.run.Some? && lives[id].life.run.value in c.runs
    ensures var run := lives[id].life.run.value; MeansNow(c, run) && IsDone(c, run) && c.runs[run].obligationId == id && c.runs[run].id == run
  {
    hide Lives, RunsInv, StateInv, Solves;
    var run := lives[id].life.run.value;
    LivesSolve(ViewOf(c));
    StateNamed(c);
    CurrentFacts(ViewOf(c), lives, id, run);
    RunNamedHere(c, run);
  }

  // ---------------------------------------------------------------- what is written

  /** The draft holds one receipt and nothing else. */
  predicate Receives(draft: Record, run: RunId, kind: Kind, observed: Option<Observation>, diagnostic: Diagnostic) {
    && draft.receipt.Some? && draft == Blank.(receipt := draft.receipt)
    && var fact := draft.receipt.value; fact.runId == run && fact.kind == kind && fact.observed == observed && fact.diagnostic == diagnostic
  }

  /** The draft says what the command asks for, about the run it presents, and nothing else. */
  predicate SaysAsked(cmd: Command, draft: Record) {
    match cmd
    case Initialize => false
    case ClaimWork(id, expected, runId, secret, source) =>
      && draft.claim.Some? && draft == Blank.(claim := draft.claim, sourceRevision := draft.sourceRevision)
      && draft.claim.value == Claim(runId, id, expected, draft.claim.value.key, Sha(secret))
      && draft.sourceRevision == if source.Some? then Some(SourceRevision(runId, id, source.value)) else None
    case Acquire(runId, secret) =>
      draft.authority.Some? && draft == Blank.(authority := draft.authority) && draft.authority.value.runId == runId && draft.authority.value.capability == Sha(secret)
    case Reserve(p) =>
      draft == Blank.(reservation := Some(Reservation(p.id, p.obligationId, p.generation, p.authorityCommit)))
    case ReleaseReservation(p, contract, trusted, diagnostic) =>
      && draft.release.Some? && draft.release.value.runId == p.id && draft.release.value.contract == contract && draft.release.value.evidence == trusted
      && Receives(draft.(release := None), p.id, NotDispatchedKind, None, diagnostic)
    case Resolve(p, observed, diagnostic) => Receives(draft, p.id, ObservationKind, Some(observed), diagnostic)
    case Defer(p, diagnostic) => Receives(draft, p.id, JudgmentRequiredKind, None, diagnostic)
    case Terminate(p, diagnostic) => Receives(draft, p.id, TerminatedKind, None, diagnostic)
    case RetrySource(p, diagnostic) => Receives(draft, p.id, SourceRetryKind, None, diagnostic)
    case IntegrateSource(p, evidence) => Receives(draft, p.id, SourceIntegrationKind, None, Diagnostic(NoRefresh, Some(evidence), ""))
    case RefreshRealization(id, _, observed) =>
      && draft.receipt.Some? && draft.receipt.value.obligationId == id && draft.receipt.value.diagnostic.refresh.RefreshOf?
      && Receives(draft, draft.receipt.value.runId, ObservationKind, Some(observed), draft.receipt.value.diagnostic)
    case PatchGraph(_, retire) => draft.patch.Some? && draft == Blank.(patch := draft.patch) && draft.patch.value.retire == retire
  }

  lemma SettleSays(o: Oracle, c: Core, lives: Realizations, p: Permit, kind: Kind, diagnostic: Diagnostic)
    requires RunsNamed(c.runs) && DecideSettle(o, c, lives, p, kind, diagnostic).Ok?
    ensures Receives(DecideSettle(o, c, lives, p, kind, diagnostic).value, p.id, kind, None, diagnostic)
  {
    hide ProjectReceipt, CurrentIs, ExecutionPermits;
  }

  lemma ResolveSays(o: Oracle, c: Core, lives: Realizations, p: Permit, observed: Observation, diagnostic: Diagnostic)
    requires RunsNamed(c.runs) && DecideResolve(o, c, lives, p, observed, diagnostic).Ok?
    ensures Receives(DecideResolve(o, c, lives, p, observed, diagnostic).value, p.id, ObservationKind, Some(observed), diagnostic)
  {
    hide ProjectReceipt, CurrentRun, ExecutionPermits;
  }

  /** Whatever is decided says what was asked for. */
  lemma DecidedSaysAsked(o: Oracle, c: Core, lives: Realizations, head: CommitId, cmd: Command)
    requires RunsNamed(c.runs) && Decide(o, c, lives, head, cmd).Ok?
    requires cmd.RefreshRealization? ==> Inv(c) && Projects(c, lives)
    ensures SaysAsked(cmd, Decide(o, c, lives, head, cmd).value)
  {
    hide ProjectReceipt, WitnessSafe, Claimability, Admissible, PlanUpserts, PlannedObligations, Ids, NoRepeats, HasInFlight, CurrentIs, CurrentRun, DecideSettle, DecideResolve, Receives;
    match cmd
    case Resolve(p, observed, diagnostic) => ResolveSays(o, c, lives, p, observed, diagnostic);
    case Defer(p, diagnostic) => SettleSays(o, c, lives, p, JudgmentRequiredKind, diagnostic);
    case Terminate(p, diagnostic) => SettleSays(o, c, lives, p, TerminatedKind, diagnostic);
    case RetrySource(p, diagnostic) => SettleSays(o, c, lives, p, SourceRetryKind, diagnostic);
    case IntegrateSource(p, evidence) => SettleSays(o, c, lives, p, SourceIntegrationKind, Diagnostic(NoRefresh, Some(evidence), ""));
    case RefreshRealization(id, expected, observed) => RefreshSays(o, c, lives, head, id, expected, observed);
    case ReleaseReservation(p, contract, trusted, diagnostic) => ReleaseSays(o, c, lives, p, contract, trusted, diagnostic);
    case _ =>
  }

  lemma ReleaseSays(o: Oracle, c: Core, lives: Realizations, p: Permit, contract: EffectContract, trusted: Witness, diagnostic: Diagnostic)
    requires RunsNamed(c.runs) && DecideRelease(o, c, lives, p, contract, trusted, diagnostic).Ok?
    ensures SaysAsked(Command.ReleaseReservation(p, contract, trusted, diagnostic), DecideRelease(o, c, lives, p, contract, trusted, diagnostic).value)
  {
    hide WitnessSafe, CurrentIs, ExecutionPermits;
  }

  lemma RefreshSays(o: Oracle, c: Core, lives: Realizations, head: CommitId, id: ObligationId, expected: CommitId, observed: Observation)
    requires Inv(c) && Projects(c, lives) && DecideRefresh(o, c, lives, head, id, expected, observed).Ok?
    ensures SaysAsked(RefreshRealization(id, expected, observed), DecideRefresh(o, c, lives, head, id, expected, observed).value)
  {
    hide ProjectReceipt, Lives, RunsInv, StateInv;
    DoneRunIs(c, lives, id);
    RunNamedHere(c, lives[id].life.run.value);
  }
}
