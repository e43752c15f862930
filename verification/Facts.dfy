/** The durable facts of the authority kernel and the values derived from them
    (src/authority/facts.ts, src/model.ts).

    A canonical SHA-256 digest is an injective constructor `Sha`.  JSON shape
    validation is replaced by the datatypes; every validation that constrains
    the *meaning* of a fact is kept as a predicate or an error code. */
module Facts {

  datatype Option<+T> = None | Some(value: T)

  datatype Result<+T> = Ok(value: T) | Err(error: Error) {
    predicate IsFailure() { Err? }
    function PropagateFailure<U>(): Result<U> requires Err? { Err(error) }
    function Extract(): T requires Ok? { value }
  }

  datatype Digest<T> = Sha(preimage: T)

  type ObligationId = string
  type RunId = string
  type CommitId = string

  /** Every error code the reducer, the writer and the second reader can raise. */
  datatype Error =
    // validators
    | InvalidId | InvalidPatch | DefinitionIdMismatch | DuplicatePatchId | EmptyPatch | InvalidRelease
    // projection
    | DependencyCycle | UnknownObligation | UnknownDependency | UnavailableSemanticOutput | UnsupportedSelector | ProjectionInvalid
    // reducer
    | PatchWhileInFlight | DuplicateDefinition | RetireUnknown | UnknownDefinition | InvalidGraph
    | SourceRevisionWithoutClaim | SourceRevisionMismatch | ClaimForUnknownObligation | DuplicateRun
    | ClaimRevisionMismatch | NotReady | DependenciesNotDone | SemanticDependencyUnresolved | ClaimKeyMismatch
    | AuthorityWithoutClaim | AuthorityAdvance(advance: AdvanceError) | AuthorityForNoncurrentRun
    | ReservationWithoutClaim | ReservationAuthority(reservation: ReservationError) | ReservationWhileNotExecuting
    | ReleaseWithoutClaim | ReleaseWithoutReservation | ReleaseAuthority(release: ReleaseError)
    | ReleaseContractMismatch | ReleaseEvidenceNotAuthorized | ReleaseWithoutReceipt | ReleaseReceiptKindMismatch
    | ReleaseWhileNotExecuting
    | ReceiptWithoutClaim | ReceiptAuthority(receipt: ReceiptError) | ReceiptForNoncurrentRun
    | RefreshInvalid | RefreshBindingMismatch | JudgmentWhileNotExecuting | JudgmentWithUnresolvedEffect
    | TerminatedWhileNotExecuting | SourceReceiptWhileNotExecuting | SourceReceiptForNonSourceWork
    | SourceIntegrationWithoutReservation | SourceRetryWithUnresolvedEffect | NotDispatchedWithoutRelease
    | ObservationWhileNotResolvable | ReceiptAfterTerminalSettlement
    | ReceiptEvidenceShape | ObservationRejected | SourceEvidenceInvalid
    // writer
    | NotInitialized | StaleRevision | UnknownRun | AuthorityLost | RunAlreadyTerminal | StaleGeneration
    | RunNotExecuting | UnresolvedEffect | NoUnresolvedEffect | EvidenceBindingMismatch | RefreshNotDone
    | JudgmentRequired | UnorderedEffectConflict | NoopPatch | ProjectBusy | SourceWorkInvalid
    | CasLost | ContentionExhausted | AlreadySettled

  datatype AdvanceError = AdvanceRun | AdvanceObligation | NotSuccessor | PredecessorMismatch
  datatype ReservationError = ReservationRun | ReservationObligation | StaleReservation | DuplicateUnresolved
  datatype ReleaseError = ReleaseRun | ReleaseObligation | ReleaseExecutionAuthority | ReleaseReservation
  datatype ReceiptError = ReceiptRun | ReceiptObligation | ReceiptRevision | ReceiptClaim | ReceiptExecutionAuthority

  // ---------------------------------------------------------------- obligations

  datatype EffectContract =
    | CommitStatusEffect
    | UpdateBranchEffect
    | SourceIntegrationEffect
    | ConfigMapEffect
    | OtherEffect(name: string)

  datatype Postcondition =
    | FileContent(path: string, content: string)
    | EventualFileContent(path: string, content: string)
    | CommitStatus(repository: int, fullName: string, sha: string, context: string, expectedState: string)
    | BranchUpdated(repository: int, fullName: string, pull: int, previousHead: string, baseRef: string, baseSha: string)
    | HostileMutation(repository: int, ref: string, evidencePath: string, expectedSha: string)
    | SourceIntegration
    | ConfigMapExists(authorityId: string, namespace: string, name: string)
    | OperatorJudgment(subject: string)

  datatype Packet = Packet(sourceChange: bool, effectContract: Option<EffectContract>, body: string)

  datatype Consumes = VerifiedContent | SettlementReceipt | UnsupportedConsumes(kind: string, selector: string)

  datatype Dependency =
    | Control(upstream: ObligationId)
    | Semantic(upstream: ObligationId, consumes: Consumes)

  datatype Definition = Definition(dependencies: seq<Dependency>, packet: Packet, post: Postcondition)

  type DefinitionId = Digest<Definition>

  datatype Obligation =
    Obligation(id: ObligationId, dependencies: seq<Dependency>, packet: Packet, post: Postcondition)

  function DefinitionOf(o: Obligation): Definition {
    Definition(o.dependencies, o.packet, o.post)
  }

  function Materialize(id: ObligationId, d: Definition): Obligation {
    Obligation(id, d.dependencies, d.packet, d.post)
  }

  /** What a semantic edge contributes to the key of the obligation that consumes it. */
  datatype Identity =
    | FileIdentity(content: Digest<string>)
    | ConfigMapIdentity(authorityId: string, namespace: string, name: string)
    | StatusIdentity(repository: int, sha: string, context: string, state: string)
    | SettlementIdentity(commit: CommitId)

  function VerifiedContentIdentity(p: Postcondition): Option<Identity> {
    match p
    case FileContent(_, content) => Some(FileIdentity(Sha(content)))
    case EventualFileContent(_, content) => Some(FileIdentity(Sha(content)))
    case ConfigMapExists(a, ns, n) => Some(ConfigMapIdentity(a, ns, n))
    case CommitStatus(r, _, sha, ctx, st) => Some(StatusIdentity(r, sha, ctx, st))
    case _ => None
  }

  /** The semantic key: the digest preimage built by `obligationKey` (src/graph/identity.ts:31-61). */
  datatype Key = Key(id: ObligationId, packet: Packet, post: Postcondition, consumed: multiset<(Consumes, Identity)>)

  // ---------------------------------------------------------------- facts

  datatype Binding = Binding(node: ObligationId, definitionId: DefinitionId)
  datatype Introduced = Introduced(id: DefinitionId, definition: Definition)
  datatype GraphPatch = GraphPatch(definitions: seq<Introduced>, bindings: seq<Binding>, retire: seq<ObligationId>)

  datatype Claim = Claim(
    runId: RunId, obligationId: ObligationId, claimedRevision: CommitId, key: Key, capability: Digest<string>)

  datatype SourceRevision = SourceRevision(runId: RunId, obligationId: ObligationId, revision: string)

  datatype Authority = Authority(
    runId: RunId, obligationId: ObligationId, generation: nat, previousAuthority: CommitId, capability: Digest<string>)

  datatype Reservation = Reservation(
    runId: RunId, obligationId: ObligationId, generation: nat, authorityCommit: CommitId)

  /** A reservation together with the commit that recorded it. */
  datatype Held = Held(fact: Reservation, commit: CommitId)

  datatype EvidenceKind = FreshHttpsNotDispatched | OtherEvidence(name: string)
  datatype AbsenceKind = LocalFileEnoent | CompleteListAbsence | OtherAbsence(name: string)

  datatype Attempt = Attempt(
    runId: RunId, obligationId: ObligationId, generation: nat, authorityCommit: CommitId,
    reservationCommit: CommitId, contract: EffectContract)

  datatype Witness = Witness(kind: EvidenceKind, source: string, attempt: Attempt, observation: string)

  datatype Release = Release(
    runId: RunId, obligationId: ObligationId, generation: nat, authorityCommit: CommitId,
    reservationCommit: CommitId, contract: EffectContract,
    evidenceKind: EvidenceKind, evidence: Witness, evidenceRef: Digest<Witness>)

  datatype Kind =
    | ObservationKind | JudgmentRequiredKind | TerminatedKind
    | NotDispatchedKind | SourceIntegrationKind | SourceRetryKind

  datatype Observation = Observation(body: string)

  datatype SourceEvidence = SourceEvidence(runId: RunId, key: Key, sourceSha: string, body: string)

  /** The one diagnostic key the reducer interprets, `current_realization_refresh`. */
  datatype RefreshField = NoRefresh | MalformedRefresh | RefreshOf(prior: CommitId)

  datatype Diagnostic = Diagnostic(refresh: RefreshField, sourceEvidence: Option<SourceEvidence>, body: string)

  datatype ReceiptFact = ReceiptFact(
    runId: RunId, obligationId: ObligationId, claimedRevision: CommitId, claimCommit: CommitId,
    generation: nat, authorityCommit: CommitId,
    kind: Kind, observed: Option<Observation>, diagnostic: Diagnostic)

  /** One commit of the authority log; any combination of facts may be present. */
  datatype Record = Record(
    commit: CommitId, parent: Option<CommitId>,
    patch: Option<GraphPatch>, claim: Option<Claim>, sourceRevision: Option<SourceRevision>,
    authority: Option<Authority>, reservation: Option<Reservation>,
    release: Option<Release>, receipt: Option<ReceiptFact>)

  function EmptyRecord(commit: CommitId, parent: Option<CommitId>): Record {
    Record(commit, parent, None, None, None, None, None, None, None)
  }

  // ---------------------------------------------------------------- derived values

  datatype Run = Run(
    id: RunId, obligationId: ObligationId, claimedRevision: CommitId, claimCommit: CommitId, key: Key,
    generation: nat, authorityCommit: CommitId, capability: Digest<string>, sourceRevision: Option<string>,
    obligation: Obligation, definitionId: DefinitionId)

  datatype Permit = Permit(
    id: RunId, obligationId: ObligationId, claimedRevision: CommitId, claimCommit: CommitId, key: Key,
    generation: nat, authorityCommit: CommitId, capabilitySha: Digest<string>, capability: string)

  datatype Disposition = DispositionDone | DispositionReady | DispositionWaiting | DispositionRecovery

  datatype Receipt = Receipt(fact: ReceiptFact, disposition: Disposition, verified: bool, settlement: CommitId)

  /** The reducer's accumulated state.  `order` is the insertion order of the `runs` map. */
  datatype Core = Core(
    obligations: map<ObligationId, Obligation>,
    definitionIds: map<ObligationId, DefinitionId>,
    definitions: map<DefinitionId, Definition>,
    order: seq<RunId>,
    runs: map<RunId, Run>,
    latest: map<RunId, Receipt>,
    unresolved: map<RunId, Held>,
    receipts: seq<Receipt>,
    bindingOrdinals: map<ObligationId, nat>,
    claimOrdinals: map<RunId, nat>,
    ordinal: nat)

  /** The part of the state from which lifecycles are derived. */
  datatype View = View(
    obligations: map<ObligationId, Obligation>, order: seq<RunId>, runs: map<RunId, Run>, latest: map<RunId, Receipt>)

  function ViewOf(c: Core): View { View(c.obligations, c.order, c.runs, c.latest) }

  const EmptyCore := Core(map[], map[], map[], [], map[], map[], map[], [], map[], map[], 0)

  /** `assertNonEmptyString` (src/validation.ts:42-46). */
  predicate ValidId(s: string) { s != "" && '\0' !in s }

  predicate HexDigit(c: char) { '0' <= c <= '9' || 'a' <= c <= 'f' }

  /** The commit ids accepted by a refresh binding (src/authority/replay.ts:80). */
  predicate HexCommit(s: string) { 40 <= |s| <= 64 && forall i :: 0 <= i < |s| ==> HexDigit(s[i]) }

  /** Functions whose code lies outside the model: what an observation proves.
      `verified` yields None where the source throws. */
  datatype Oracle = Oracle(
    verified: (Postcondition, Observation) -> Option<bool>,
    absence: (Postcondition, Observation) -> Option<AbsenceKind>,
    sourceEvidenceValid: SourceEvidence -> bool,
    notDispatched: (Postcondition, string) -> bool)
}
