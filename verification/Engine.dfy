/** The writer's decisions (src/authority/engine.ts).

    Each `Decide…` takes the projection at the head the client read and yields the record
    the method would try to append, or the error it throws.  Random ids, the observation
    that was made and the fresh commit id are parameters. */
module Engine {
  import opened Facts
  import opened Graph
  import opened Adapter
  import opened Lifecycles
  import opened TransactionAdmission
  import opened Replay

  datatype Command =
    | Initialize
    | ClaimWork(id: ObligationId, expected: CommitId, runId: RunId, secret: string, source: Option<string>)
    | Acquire(acquired: RunId, secret: string)
    | Reserve(permit: Permit)
    | ReleaseReservation(permit: Permit, contract: EffectContract, trusted: Witness, diagnostic: Diagnostic)
    | Resolve(permit: Permit, observed: Observation, diagnostic: Diagnostic)
    | Defer(permit: Permit, diagnostic: Diagnostic)
    | Terminate(permit: Permit, diagnostic: Diagnostic)
    | RetrySource(permit: Permit, diagnostic: Diagnostic)
    | IntegrateSource(permit: Permit, evidence: SourceEvidence)
    | RefreshRealization(id: ObligationId, expected: CommitId, observed: Observation)
    | PatchGraph(upsert: seq<Obligation>, retire: seq<ObligationId>)

  /** A record before the store has given it a commit id and a parent. */
  const Blank := EmptyRecord("", None)

  function Stamp(draft: Record, commit: CommitId, parent: Option<CommitId>): Record {
    draft.(commit := commit, parent := parent)
  }

  // ---------------------------------------------------------------- claims, authority, reservations

  function DecideClaim(c: Core, lives: Realizations, head: CommitId, id: ObligationId, expected: CommitId,
                             runId: RunId, secret: string, source: Option<string>): Result<Record> {
    if head != expected then Err(StaleRevision)
    else if id !in c.obligations then Err(UnknownObligation)
    else
      var key :- Claimability(ViewOf(c), lives, id);
      Ok(Blank.(claim := Some(Claim(runId, id, head, key, Sha(secret))),
                sourceRevision := if source.Some? then Some(SourceRevision(runId, id, source.value)) else None))
  }

  function DecideAcquire(c: Core, lives: Realizations, runId: RunId, secret: string): Result<Record> {
    if runId !in c.runs then Err(UnknownRun)
    else if runId in c.latest && Terminal(c.latest[runId].disposition) then Err(RunAlreadyTerminal)
    else
      var run := c.runs[runId];
      if !(CurrentRun(lives, run) && InFlightStatus(lives[run.obligationId].life.status)) then Err(AuthorityLost)
      else Ok(Blank.(authority := Some(Authority(run.id, run.obligationId, run.generation + 1, run.authorityCommit, Sha(secret)))))
  }

  function DecideReserve(c: Core, lives: Realizations, permit: Permit): Result<Record> {
    if permit.id !in c.runs then Err(UnknownRun)
    else
      var run := c.runs[permit.id];
      if !ExecutionPermits(run, permit) then Err(StaleGeneration)
      else if !CurrentIs(lives, run, Executing) then Err(RunNotExecuting)
      else if run.id in c.unresolved then Err(UnresolvedEffect)
      else Ok(Blank.(reservation := Some(Reservation(run.id, run.obligationId, run.generation, run.authorityCommit))))
  }

  // ---------------------------------------------------------------- releases

  function ReceiptFor(run: Run, kind: Kind, observed: Option<Observation>, diagnostic: Diagnostic): ReceiptFact {
    ReceiptFact(run.id, run.obligation.id, run.claimedRevision, run.claimCommit, run.generation, run.authorityCommit,
                kind, observed, diagnostic)
  }

  function AttemptOf(run: Run, reservationCommit: CommitId, contract: EffectContract): Attempt {
    Attempt(run.id, run.obligationId, run.generation, run.authorityCommit, reservationCommit, contract)
  }

  function DecideRelease(o: Oracle, c: Core, lives: Realizations, permit: Permit, contract: EffectContract,
                         trusted: Witness, diagnostic: Diagnostic): Result<Record> {
    if permit.id !in c.runs then Err(UnknownRun)
    else
      var run := c.runs[permit.id];
      if !ExecutionPermits(run, permit) then Err(StaleGeneration)
      else if !CurrentIs(lives, run, Executing) then Err(RunNotExecuting)
      else if run.id !in c.unresolved then Err(NoUnresolvedEffect)
      else if trusted.attempt != AttemptOf(run, c.unresolved[run.id].commit, contract) then Err(EvidenceBindingMismatch)
      else if !WitnessSafe(o, run.obligation, contract, trusted) then Err(ReleaseEvidenceNotAuthorized)
      else
        Ok(Blank.(release := Some(Release(run.id, run.obligationId, run.generation, run.authorityCommit,
                                          c.unresolved[run.id].commit, contract, trusted.kind, trusted, Sha(trusted))),
                  receipt := Some(ReceiptFor(run, NotDispatchedKind, None, diagnostic))))
  }

  // ---------------------------------------------------------------- settlements

  /** The guards shared by `#resolutionCandidate` and `#settleWithoutObservation`. */
  function SettleableRun(c: Core, permit: Permit): Result<Run> {
    if permit.id !in c.runs then Err(UnknownRun)
    else if permit.id in c.latest && Terminal(c.latest[permit.id].disposition) then Err(AlreadySettled)
    else if c.runs[permit.id].obligationId !in c.obligations then Err(UnknownObligation)
    else if !ExecutionPermits(c.runs[permit.id], permit) then Err(StaleGeneration)
    else Ok(c.runs[permit.id])
  }

  function DecideResolve(o: Oracle, c: Core, lives: Realizations, permit: Permit, observed: Observation,
                         diagnostic: Diagnostic): Result<Record> {
    var run :- SettleableRun(c, permit);
    if !CurrentRun(lives, run) then Err(AuthorityLost)
    else if !InFlightStatus(lives[run.obligationId].life.status) then Err(NotReady)
    else
      var fact := ReceiptFor(run, ObservationKind, Some(observed), diagnostic);
      var _ :- ProjectReceipt(o, fact, run.obligation, "", run.id in c.unresolved, false);
      Ok(Blank.(receipt := Some(fact)))
  }

  /** `#settleWithoutObservation` for one of its four kinds. */
  function DecideSettle(o: Oracle, c: Core, lives: Realizations, permit: Permit, kind: Kind,
                        diagnostic: Diagnostic): Result<Record> {
    var run :- SettleableRun(c, permit);
    if !CurrentIs(lives, run, Executing) then Err(RunNotExecuting)
    else if kind == SourceIntegrationKind && run.id !in c.unresolved then Err(SourceIntegrationWithoutReservation)
    else if (kind == JudgmentRequiredKind || kind == SourceRetryKind) && run.id in c.unresolved then Err(UnresolvedEffect)
    else if SourceKind(kind) && !SourceWork(run.obligation) then Err(SourceWorkInvalid)
    else
      var fact := ReceiptFor(run, kind, None, diagnostic);
      var _ :- ProjectReceipt(o, fact, run.obligation, "", false, false);
      Ok(Blank.(receipt := Some(fact)))
  }

  /** `settleSourceIntegration`: the trusted evidence must name this run, its key and its source revision. */
  function DecideIntegrate(o: Oracle, c: Core, lives: Realizations, permit: Permit, evidence: SourceEvidence): Result<Record> {
    var draft :- DecideSettle(o, c, lives, permit, SourceIntegrationKind, Diagnostic(NoRefresh, Some(evidence), ""));
    if permit.id !in c.runs then Err(UnknownRun)
    else
      var run := c.runs[permit.id];
      if run.obligation.packet.effectContract != Some(SourceIntegrationEffect) then Err(SourceWorkInvalid)
      else if evidence.runId != run.id || evidence.key != run.key || Some(evidence.sourceSha) != run.sourceRevision
      then Err(EvidenceBindingMismatch)
      else Ok(draft)
  }

  function DecideRefresh(o: Oracle, c: Core, lives: Realizations, head: CommitId, id: ObligationId, expected: CommitId,
                         observed: Observation): Result<Record> {
    if head != expected then Err(StaleRevision)
    else if id !in c.obligations then Err(UnknownObligation)
    else if !(id in lives && lives[id].life.status == Done && lives[id].life.run.Some?) then Err(RefreshNotDone)
    else if lives[id].life.run.value !in c.runs then Err(UnknownRun)
    else
      var run := c.runs[lives[id].life.run.value];
      if !(run.id in c.latest && c.latest[run.id].disposition == DispositionDone) then Err(RefreshNotDone)
      else if c.latest[run.id].fact.kind == SourceIntegrationKind then Err(AlreadySettled)
      else if run.id in c.unresolved then Err(UnresolvedEffect)
      else
        var fact := ReceiptFor(run, ObservationKind, Some(observed),
                               Diagnostic(RefreshOf(c.latest[run.id].settlement), None, ""));
        var _ :- ProjectReceipt(o, fact, run.obligation, "", false, false);
        Ok(Blank.(receipt := Some(fact)))
  }

  // ---------------------------------------------------------------- graph patches

  /** The definitions and bindings `#commitGraphPatch` plans for the obligations that change. */
  datatype Plan = Plan(definitions: seq<Introduced>, bindings: seq<Binding>)

  function PlanUpserts(c: Core, upsert: seq<Obligation>): Plan {
    if upsert == [] then Plan([], [])
    else
      var n := |upsert| - 1;
      var plan := PlanUpserts(c, upsert[..n]);
      var definition := DefinitionOf(upsert[n]);
      var id := Sha(definition);
      if upsert[n].id in c.definitionIds && c.definitionIds[upsert[n].id] == id then plan
      else Plan(if id in c.definitions || id in IntroducedIds(plan.definitions) then plan.definitions
                else plan.definitions + [Introduced(id, definition)],
                plan.bindings + [Binding(upsert[n].id, id)])
  }

  function Ids(obligations: seq<Obligation>): seq<ObligationId> {
    if obligations == [] then [] else Ids(obligations[..|obligations| - 1]) + [obligations[|obligations| - 1].id]
  }

  /** The state the plan leads to, as the writer computes it before validating admission. */
  function PlannedObligations(obs: Obligations, bindings: seq<Binding>): Obligations {
    if bindings == [] then obs
    else
      var n := |bindings| - 1;
      PlannedObligations(obs, bindings[..n])[bindings[n].node := Materialize(bindings[n].node, bindings[n].definitionId.preimage)]
  }

  /** `validateAdmission`. */
  predicate Admissible(obs: Obligations) {
    && ValidGraph(obs)
    && SemanticEdgesAvailable(obs)
    && forall id :: id in obs ==> !HasConflict(obs, id)
  }

  function DecidePatch(c: Core, lives: Realizations, upsert: seq<Obligation>, retire: seq<ObligationId>): Result<Record> {
    var plan := PlanUpserts(c, upsert);
    if HasInFlight(lives) then Err(ProjectBusy)
    else if "" in Ids(upsert) + retire then Err(InvalidId)
    else if !NoRepeats(Ids(upsert) + retire) then Err(DuplicatePatchId)
    else if exists id :: id in retire && id !in c.obligations then Err(UnknownObligation)
    else if plan.bindings == [] && retire == [] then Err(NoopPatch)
    else if !Admissible(PlannedObligations(c.obligations, plan.bindings) - (set id | id in retire)) then Err(InvalidGraph)
    else Ok(Blank.(patch := Some(GraphPatch(plan.definitions, plan.bindings, retire))))
  }

  // ---------------------------------------------------------------- one decision

  function Decide(o: Oracle, c: Core, lives: Realizations, head: CommitId, cmd: Command): Result<Record> {
    match cmd
    case Initialize => Err(AlreadySettled)
    case ClaimWork(id, expected, runId, secret, source) => DecideClaim(c, lives, head, id, expected, runId, secret, source)
    case Acquire(runId, secret) => DecideAcquire(c, lives, runId, secret)
    case Reserve(permit) => DecideReserve(c, lives, permit)
    case ReleaseReservation(permit, contract, trusted, diagnostic) =>
      DecideRelease(o, c, lives, permit, contract, trusted, diagnostic)
    case Resolve(permit, observed, diagnostic) => DecideResolve(o, c, lives, permit, observed, diagnostic)
    case Defer(permit, diagnostic) => DecideSettle(o, c, lives, permit, JudgmentRequiredKind, diagnostic)
    case Terminate(permit, diagnostic) => DecideSettle(o, c, lives, permit, TerminatedKind, diagnostic)
    case RetrySource(permit, diagnostic) => DecideSettle(o, c, lives, permit, SourceRetryKind, diagnostic)
    case IntegrateSource(permit, evidence) => DecideIntegrate(o, c, lives, permit, evidence)
    case RefreshRealization(id, expected, observed) => DecideRefresh(o, c, lives, head, id, expected, observed)
    case PatchGraph(upsert, retire) => DecidePatch(c, lives, upsert, retire)
  }

  /** What the writer relies on without checking it: fresh run ids, diagnostics that leave the refresh key alone,
      release witnesses minted for the reservation they name, and obligation ids without NUL. */
  predicate Honest(c: Core, cmd: Command) {
    match cmd
    case ClaimWork(_, _, runId, _, _) => ValidId(runId) && runId !in c.runs
    case ReleaseReservation(permit, _, trusted, diagnostic) =>
      diagnostic.refresh == NoRefresh && MintedForReservation(c, permit.id, trusted.attempt)
    case Resolve(_, _, diagnostic) => diagnostic.refresh == NoRefresh
    case Defer(_, diagnostic) => diagnostic.refresh == NoRefresh
    case Terminate(_, diagnostic) => diagnostic.refresh == NoRefresh
    case RetrySource(_, diagnostic) => diagnostic.refresh == NoRefresh
    case PatchGraph(upsert, _) => forall b :: b in PlanUpserts(c, upsert).bindings ==> '\0' !in b.node
    case _ => true
  }

  /** `performEffect` minted the attempt with the reservation's own generation and authority commit. */
  predicate MintedForReservation(c: Core, run: RunId, attempt: Attempt) {
    run in c.unresolved && attempt.reservationCommit == c.unresolved[run].commit ==>
      && attempt.generation == c.unresolved[run].fact.generation
      && attempt.authorityCommit == c.unresolved[run].fact.authorityCommit
  }
}
