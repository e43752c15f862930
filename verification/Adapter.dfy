/** The registered effect adapters (src/effect-adapter.ts) and the settlement and
    conflict semantics of postconditions (src/semantics.ts). */
module Adapter {
  import opened Facts

  datatype Verifier =
    | FileVerifier | EventualFileVerifier | StatusVerifier | BranchVerifier
    | HostileVerifier | SourceVerifier | ConfigMapVerifier | JudgmentVerifier

  function VerifierOf(p: Postcondition): Verifier {
    match p
    case FileContent(_, _) => FileVerifier
    case EventualFileContent(_, _) => EventualFileVerifier
    case CommitStatus(_, _, _, _, _) => StatusVerifier
    case BranchUpdated(_, _, _, _, _, _) => BranchVerifier
    case HostileMutation(_, _, _, _) => HostileVerifier
    case SourceIntegration => SourceVerifier
    case ConfigMapExists(_, _, _) => ConfigMapVerifier
    case OperatorJudgment(_) => JudgmentVerifier
  }

  datatype Replay = ReplayForbidden | TerminalAbsence(kinds: seq<AbsenceKind>)
  datatype ReservationRelease = ReleaseForbidden | ReleaseOn(kinds: seq<EvidenceKind>)
  datatype Capabilities =
    Capabilities(contract: EffectContract, verifier: Verifier, replay: Replay, release: ReservationRelease)

  const Registry: seq<Capabilities> := [
    Capabilities(CommitStatusEffect, StatusVerifier, ReplayForbidden, ReleaseOn([FreshHttpsNotDispatched])),
    Capabilities(ConfigMapEffect, ConfigMapVerifier, ReplayForbidden, ReleaseForbidden),
    Capabilities(UpdateBranchEffect, BranchVerifier, ReplayForbidden, ReleaseForbidden),
    Capabilities(SourceIntegrationEffect, SourceVerifier, ReplayForbidden, ReleaseForbidden)
  ]

  function Lookup(registry: seq<Capabilities>, contract: Option<EffectContract>): Option<Capabilities> {
    if registry == [] then None
    else if contract == Some(registry[0].contract) then Some(registry[0])
    else Lookup(registry[1..], contract)
  }

  /** `reservedEffectReplaySafe`: may an effect that was reserved be tried again on this absence evidence? */
  predicate ReplaySafe(registry: seq<Capabilities>, work: Obligation, kind: AbsenceKind) {
    var caps := Lookup(registry, work.packet.effectContract);
    && caps.Some?
    && caps.value.verifier == VerifierOf(work.post)
    && caps.value.replay.TerminalAbsence?
    && kind in caps.value.replay.kinds
  }

  /** `reservationReleaseKindAllowed`. */
  predicate ReleaseKindAllowed(work: Obligation, contract: EffectContract, kind: EvidenceKind) {
    var caps := Lookup(Registry, work.packet.effectContract);
    && caps.Some?
    && caps.value.contract == contract
    && caps.value.verifier == VerifierOf(work.post)
    && caps.value.release.ReleaseOn?
    && kind in caps.value.release.kinds
  }

  /** `reservedEffectReleaseWitnessSafe`; what the observation itself must show stays with the oracle. */
  predicate WitnessSafe(o: Oracle, work: Obligation, contract: EffectContract, w: Witness) {
    && ReleaseKindAllowed(work, contract, w.kind)
    && w.kind == FreshHttpsNotDispatched
    && work.post.CommitStatus?
    && o.notDispatched(work.post, w.observation)
  }

  /** `settlementSemantics`: the absence evidence a postcondition accepts. */
  function AcceptedAbsence(p: Postcondition): seq<AbsenceKind> {
    match p
    case FileContent(_, _) => [LocalFileEnoent]
    case ConfigMapExists(_, _, _) => [CompleteListAbsence]
    case _ => []
  }

  datatype Resource =
    | BranchResource(repository: int, pull: int)
    | StatusResource(repository: int, sha: string, context: string)

  datatype Desired =
    | BranchDesired(previousHead: string, baseRef: string, baseSha: string)
    | StatusDesired(state: string)

  datatype Effect = Effect(resource: Resource, desired: Desired, sameDesiredCommutes: bool)

  function EffectOf(p: Postcondition): Option<Effect> {
    match p
    case BranchUpdated(r, _, n, prev, ref, sha) => Some(Effect(BranchResource(r, n), BranchDesired(prev, ref, sha), false))
    case CommitStatus(r, _, sha, ctx, st) => Some(Effect(StatusResource(r, sha, ctx), StatusDesired(st), true))
    case _ => None
  }

  function CommutationKey(e: Effect): Option<Desired> {
    if e.sameDesiredCommutes then Some(e.desired) else None
  }

  /** `effectsConflict`, the pairwise rule the bitmask index must agree with. */
  predicate EffectsConflict(left: Effect, right: Effect) {
    && left.resource == right.resource
    && (CommutationKey(left).None? || CommutationKey(left) != CommutationKey(right))
  }

  /** What it means for two postconditions to conflict: statuses of one commit and context with different states, or branch
      updates of one pull request. */
  predicate PostsConflict(a: Postcondition, b: Postcondition) {
    || (a.CommitStatus? && b.CommitStatus? && a.repository == b.repository && a.sha == b.sha && a.context == b.context
        && a.expectedState != b.expectedState)
    || (a.BranchUpdated? && b.BranchUpdated? && a.repository == b.repository && a.pull == b.pull)
  }

  /** `effectsConflict` on the derived effects is conflict of the postconditions. */
  lemma EffectsConflictIff(a: Postcondition, b: Postcondition)
    ensures PostsConflict(a, b) <==>
      EffectOf(a).Some? && EffectOf(b).Some? && EffectsConflict(EffectOf(a).value, EffectOf(b).value)
  {
  }

  /** Entry `k` is the first one registered for this contract. */
  ghost predicate FirstFor(registry: seq<Capabilities>, contract: Option<EffectContract>, k: int) {
    0 <= k < |registry| && contract == Some(registry[k].contract) && forall i :: 0 <= i < k ==> contract != Some(registry[i].contract)
  }

  lemma {:induction false} LookupIs(registry: seq<Capabilities>, contract: Option<EffectContract>)
    ensures Lookup(registry, contract).Some? ==> exists k :: FirstFor(registry, contract, k) && Lookup(registry, contract).value == registry[k]
    ensures forall k :: FirstFor(registry, contract, k) ==> Lookup(registry, contract) == Some(registry[k])
    decreases |registry|
  {
    if registry != [] {
      LookupIs(registry[1..], contract);
      if contract == Some(registry[0].contract) {
        assert FirstFor(registry, contract, 0);
      } else {
        forall k ensures FirstFor(registry, contract, k) <==> FirstFor(registry[1..], contract, k - 1) { FirstForTail(registry, contract, k); }
        forall k | FirstFor(registry, contract, k) ensures Lookup(registry, contract) == Some(registry[k]) { assert registry[1..][k - 1] == registry[k]; }
        if Lookup(registry, contract).Some? {
          var k :| FirstFor(registry[1..], contract, k) && Lookup(registry[1..], contract).value == registry[1..][k];
          assert FirstFor(registry, contract, k + 1) && registry[k + 1] == registry[1..][k];
        }
      }
    }
  }

  lemma FirstForTail(registry: seq<Capabilities>, contract: Option<EffectContract>, k: int)
    requires registry != [] && contract != Some(registry[0].contract)
    ensures FirstFor(registry, contract, k) <==> FirstFor(registry[1..], contract, k - 1)
  {
    if FirstFor(registry, contract, k) {
      forall i | 0 <= i < k - 1 ensures contract != Some(registry[1..][i].contract) { assert registry[1..][i] == registry[i + 1]; }
    }
    if FirstFor(registry[1..], contract, k - 1) {
      forall i | 0 <= i < k ensures contract != Some(registry[i].contract) { assert i > 0 ==> registry[i] == registry[1..][i - 1]; }
    }
  }

  /** In any registry a reserved effect is replayable exactly on evidence that the first adapter registered for its contract lists
      as terminal, for work that this adapter verifies. */
  lemma ReplaySafeIff(registry: seq<Capabilities>, work: Obligation, kind: AbsenceKind)
    ensures ReplaySafe(registry, work, kind) <==>
      exists k :: FirstFor(registry, work.packet.effectContract, k) && registry[k].verifier == VerifierOf(work.post)
        && registry[k].replay.TerminalAbsence? && kind in registry[k].replay.kinds
  {
    LookupIs(registry, work.packet.effectContract);
  }

  /** Under the registry as written no absence evidence ever makes a reserved effect replayable. */
  lemma RegistryForbidsReplay(work: Obligation, kind: AbsenceKind)
    ensures !ReplaySafe(Registry, work, kind)
  {
    ReplaySafeIff(Registry, work, kind);
    assert forall k :: FirstFor(Registry, work.packet.effectContract, k) ==> Registry[k].replay == ReplayForbidden;
  }
}
