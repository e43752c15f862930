/** The fact-log reducer (src/authority/replay.ts).

    `Step` is one iteration of the loop in `replayProjection`, split into one
    function per kind of fact; each keeps the order of the source's checks. */
module Replay {
  import opened Facts
  import opened Graph
  import opened Adapter
  import opened Lifecycles
  import opened TransactionAdmission

  // ---------------------------------------------------------------- graph patches

  predicate NoRepeats<T(==)>(s: seq<T>) { forall i, j :: 0 <= i < j < |s| ==> s[i] != s[j] }

  function Nodes(bindings: seq<Binding>): seq<ObligationId> {
    if bindings == [] then [] else [bindings[0].node] + Nodes(bindings[1..])
  }

  function IntroducedIds(definitions: seq<Introduced>): seq<DefinitionId> {
    if definitions == [] then [] else [definitions[0].id] + IntroducedIds(definitions[1..])
  }

  /** `validateGraphPatchFact`. */
  function PatchError(p: GraphPatch): Option<Error> {
    if exists d :: d in p.definitions && d.id != Sha(d.definition) then Some(DefinitionIdMismatch)
    else if !NoRepeats(IntroducedIds(p.definitions)) then Some(DuplicateDefinition)
    else if exists id :: id in Nodes(p.bindings) + p.retire && !ValidId(id) then Some(InvalidId)
    else if !NoRepeats(Nodes(p.bindings) + p.retire) then Some(DuplicatePatchId)
    else if p.bindings == [] && p.retire == [] then Some(EmptyPatch)
    else None
  }

  function IntroduceAll(c: Core, added: seq<Introduced>): Result<Core>
    decreases |added|
  {
    if added == [] then Ok(c)
    else if added[0].id in c.definitions then Err(DuplicateDefinition)
    else IntroduceAll(c.(definitions := c.definitions[added[0].id := added[0].definition]), added[1..])
  }

  function RetireAll(c: Core, ids: seq<ObligationId>): Result<Core>
    decreases |ids|
  {
    if ids == [] then Ok(c)
    else if ids[0] !in c.obligations then Err(RetireUnknown)
    else
      RetireAll(c.(obligations := c.obligations - {ids[0]},
                   definitionIds := c.definitionIds - {ids[0]},
                   bindingOrdinals := c.bindingOrdinals - {ids[0]}), ids[1..])
  }

  function BindAll(c: Core, bindings: seq<Binding>): Result<Core>
    decreases |bindings|
  {
    if bindings == [] then Ok(c)
    else if bindings[0].definitionId !in c.definitions then Err(UnknownDefinition)
    else
      var b := bindings[0];
      BindAll(c.(obligations := c.obligations[b.node := Materialize(b.node, c.definitions[b.definitionId])],
                 definitionIds := c.definitionIds[b.node := b.definitionId],
                 bindingOrdinals := c.bindingOrdinals[b.node := c.ordinal]), bindings[1..])
  }

  /** The steps below take the refreshed projection as a parameter; `Step` supplies `Lives(ViewOf(c))`. */
  type Refreshed = Result<Realizations>

  function PatchStep(c: Core, now: Refreshed, p: GraphPatch): Result<Core> {
    var lives :- now;
    if HasInFlight(lives) then Err(PatchWhileInFlight)
    else if PatchError(p).Some? then Err(PatchError(p).value)
    else
      var introduced :- IntroduceAll(c, p.definitions);
      var retired :- RetireAll(introduced, p.retire);
      var bound :- BindAll(retired, p.bindings);
      if !ValidGraph(bound.obligations) then Err(InvalidGraph) else Ok(bound)
  }

  // ---------------------------------------------------------------- claims and authority

  function ClaimStep(c: Core, now: Refreshed, r: Record, claim: Claim): Result<Core> {
    if
      || !ValidId(claim.runId)
      || !ValidId(claim.obligationId)
      || !ValidId(claim.claimedRevision)
      || (r.sourceRevision.Some? && !(ValidId(r.sourceRevision.value.runId) && ValidId(r.sourceRevision.value.obligationId)))
    then Err(InvalidId)
    else if r.sourceRevision.Some? &&
      (r.sourceRevision.value.runId != claim.runId || r.sourceRevision.value.obligationId != claim.obligationId)
    then Err(SourceRevisionMismatch)
    else if claim.obligationId !in c.obligations || claim.obligationId !in c.definitionIds then Err(ClaimForUnknownObligation)
    else if claim.runId in c.runs then Err(DuplicateRun)
    else if r.parent != Some(claim.claimedRevision) then Err(ClaimRevisionMismatch)
    else
      var lives :- now;
      var key :- Prerequisites(lives, c.obligations[claim.obligationId]);
      if claim.key != key then Err(ClaimKeyMismatch)
      else Ok(WithRun(c, ClaimedRun(c, r, claim)))
  }

  function ClaimedRun(c: Core, r: Record, claim: Claim): Run
    requires claim.obligationId in c.obligations && claim.obligationId in c.definitionIds
  {
    Run(claim.runId, claim.obligationId, claim.claimedRevision, r.commit, claim.key, 1, r.commit, claim.capability,
        if r.sourceRevision.Some? then Some(r.sourceRevision.value.revision) else None,
        c.obligations[claim.obligationId], c.definitionIds[claim.obligationId])
  }

  function WithRun(c: Core, run: Run): Core {
    c.(order := c.order + [run.id], runs := c.runs[run.id := run], claimOrdinals := c.claimOrdinals[run.id := c.ordinal])
  }

  function AuthorityStep(c: Core, now: Refreshed, r: Record, fact: Authority): Result<Core> {
    if fact.runId !in c.runs then Err(AuthorityWithoutClaim)
    else
      var run := c.runs[fact.runId];
      if AuthorityAdvanceError(run, fact).Some? then Err(AuthorityAdvance(AuthorityAdvanceError(run, fact).value))
      else
        var lives :- now;
        if !(CurrentRun(lives, run) && InFlightStatus(lives[run.obligationId].life.status)) then Err(AuthorityForNoncurrentRun)
        else Ok(c.(runs := c.runs[run.id := Rotated(run, r, fact)]))
  }

  function Rotated(run: Run, r: Record, fact: Authority): Run {
    run.(generation := fact.generation, authorityCommit := r.commit, capability := fact.capability)
  }

  // ---------------------------------------------------------------- reservations and releases

  function ReservationStep(c: Core, now: Refreshed, r: Record, fact: Reservation): Result<Core> {
    if fact.runId !in c.runs then Err(ReservationWithoutClaim)
    else
      var run := c.runs[fact.runId];
      var authorityError := ReservationAuthorityError(run, fact, run.id in c.unresolved);
      if authorityError.Some? then Err(ReservationAuthority(authorityError.value))
      else
        var lives :- now;
        if !CurrentIs(lives, run, Executing) then Err(ReservationWhileNotExecuting)
        else Ok(c.(unresolved := c.unresolved[run.id := Held(fact, r.commit)]))
  }

  /** `validateEffectReleaseFact`: the retained evidence names exactly this attempt. */
  predicate ReleaseFactValid(f: Release) {
    && f.evidence.kind == f.evidenceKind
    && f.evidence.attempt == Attempt(f.runId, f.obligationId, f.generation, f.authorityCommit, f.reservationCommit, f.contract)
    && f.evidenceRef == Sha(f.evidence)
  }

  function ReleaseStep(o: Oracle, c: Core, now: Refreshed, r: Record, fact: Release): Result<Core> {
    if !ReleaseFactValid(fact) then Err(InvalidRelease)
    else if fact.runId !in c.runs then Err(ReleaseWithoutClaim)
    else if fact.runId !in c.unresolved then Err(ReleaseWithoutReservation)
    else
      var run := c.runs[fact.runId];
      var authorityError := ReleaseAuthorityError(run, c.unresolved[fact.runId], fact);
      if authorityError.Some? then Err(ReleaseAuthority(authorityError.value))
      else if run.obligation.packet.effectContract != Some(fact.contract) then Err(ReleaseContractMismatch)
      else if !WitnessSafe(o, run.obligation, fact.contract, fact.evidence) then Err(ReleaseEvidenceNotAuthorized)
      else if r.receipt.None? then Err(ReleaseWithoutReceipt)
      else if r.receipt.value.kind != NotDispatchedKind then Err(ReleaseReceiptKindMismatch)
      else
        var lives :- now;
        if !CurrentIs(lives, run, Executing) then Err(ReleaseWhileNotExecuting)
        else Ok(c.(unresolved := c.unresolved - {run.id}))
  }

  // ---------------------------------------------------------------- receipts

  /** `projectReceipt`. */
  function ProjectReceipt(o: Oracle, fact: ReceiptFact, work: Obligation, settlement: CommitId,
                          unresolvedEffect: bool, released: bool): (receipt: Result<Receipt>)
    ensures receipt.Ok? ==> receipt.value.fact == fact && receipt.value.settlement == settlement
  {
    match fact.kind
    case SourceIntegrationKind =>
      if fact.observed.Some? then Err(ReceiptEvidenceShape)
      else if !(fact.diagnostic.sourceEvidence.Some? && o.sourceEvidenceValid(fact.diagnostic.sourceEvidence.value))
      then Err(SourceEvidenceInvalid)
      else Ok(Receipt(fact, DispositionDone, true, settlement))
    case SourceRetryKind =>
      if fact.observed.Some? then Err(ReceiptEvidenceShape)
      else Ok(Receipt(fact, DispositionReady, false, settlement))
    case ObservationKind =>
      if fact.observed.None? then Err(ReceiptEvidenceShape)
      else
        var verified := o.verified(work.post, fact.observed.value);
        if verified.None? then Err(ObservationRejected)
        else
          var absence := o.absence(work.post, fact.observed.value);
          var acceptedAbsence := absence.Some? && absence.value in AcceptedAbsence(work.post);
          var replaySafe := !unresolvedEffect || (absence.Some? && ReplaySafe(Registry, work, absence.value));
          Ok(Receipt(fact,
                     if verified.value then DispositionDone
                     else if acceptedAbsence && replaySafe then DispositionReady
                     else DispositionRecovery,
                     verified.value, settlement))
    case _ =>
      if fact.observed.Some? then Err(ReceiptEvidenceShape)
      else Ok(Receipt(fact,
                      if fact.kind == JudgmentRequiredKind then DispositionWaiting
                      else if fact.kind == NotDispatchedKind && released then DispositionReady
                      else DispositionRecovery,
                      false, settlement))
  }

  predicate Terminal(d: Disposition) { d == DispositionDone || d == DispositionReady }

  predicate SourceKind(k: Kind) { k == SourceIntegrationKind || k == SourceRetryKind }

  predicate SourceWork(work: Obligation) { work.packet.sourceChange && work.post.SourceIntegration? }

  /** The refresh binding matches the DONE receipt it replaces. */
  predicate RefreshMatches(c: Core, run: Run, status: Status, fact: ReceiptFact) {
    && fact.diagnostic.refresh.RefreshOf?
    && fact.kind == ObservationKind
    && status == Done
    && run.id in c.latest
    && c.latest[run.id].disposition == DispositionDone
    && c.latest[run.id].fact.kind != SourceIntegrationKind
    && c.latest[run.id].settlement == fact.diagnostic.refresh.prior
    && run.id !in c.unresolved
  }

  /** The reducer's checks on a receipt for the current run. */
  function ReceiptRejection(c: Core, run: Run, status: Status, fact: ReceiptFact, released: bool): Option<Error> {
    var field := fact.diagnostic.refresh;
    var refresh := field != NoRefresh;
    var reserved := run.id in c.unresolved;
    if field.MalformedRefresh? || (field.RefreshOf? && !HexCommit(field.prior)) then Some(RefreshInvalid)
    else if refresh && !RefreshMatches(c, run, status, fact) then Some(RefreshBindingMismatch)
    else if fact.kind == JudgmentRequiredKind && status != Executing then Some(JudgmentWhileNotExecuting)
    else if fact.kind == JudgmentRequiredKind && reserved then Some(JudgmentWithUnresolvedEffect)
    else if fact.kind == TerminatedKind && status != Executing then Some(TerminatedWhileNotExecuting)
    else if SourceKind(fact.kind) && status != Executing then Some(SourceReceiptWhileNotExecuting)
    else if SourceKind(fact.kind) && !SourceWork(run.obligation) then Some(SourceReceiptForNonSourceWork)
    else if fact.kind == SourceIntegrationKind && !reserved then Some(SourceIntegrationWithoutReservation)
    else if fact.kind == SourceRetryKind && reserved then Some(SourceRetryWithUnresolvedEffect)
    else if fact.kind == NotDispatchedKind && !released then Some(NotDispatchedWithoutRelease)
    else if fact.kind == ObservationKind && !refresh && !InFlightStatus(status) then Some(ObservationWhileNotResolvable)
    else if run.id in c.latest && Terminal(c.latest[run.id].disposition) && !refresh then Some(ReceiptAfterTerminalSettlement)
    else None
  }

  function WithReceipt(c: Core, run: RunId, receipt: Receipt): Core {
    c.(latest := c.latest[run := receipt],
       unresolved := if Terminal(receipt.disposition) then c.unresolved - {run} else c.unresolved,
       receipts := c.receipts + [receipt])
  }

  function ReceiptStep(o: Oracle, c: Core, now: Refreshed, r: Record, fact: ReceiptFact, released: bool): Result<Core> {
    if fact.runId !in c.runs then Err(ReceiptWithoutClaim)
    else
      var run := c.runs[fact.runId];
      if ReceiptAuthorityError(run, fact).Some? then Err(ReceiptAuthority(ReceiptAuthorityError(run, fact).value))
      else
        var lives :- now;
        if !CurrentRun(lives, run) then Err(ReceiptForNoncurrentRun)
        else
          var error := ReceiptRejection(c, run, lives[run.obligationId].life.status, fact, released);
          if error.Some? then Err(error.value)
          else
            var receipt :- ProjectReceipt(o, fact, run.obligation, r.commit, run.id in c.unresolved, released);
            Ok(WithReceipt(c, run.id, receipt))
  }

  // ---------------------------------------------------------------- records and histories

  function AfterPatch(c: Core, r: Record): Result<Core> {
    if r.patch.None? then Ok(c) else PatchStep(c, Lives(ViewOf(c)), r.patch.value)
  }

  function AfterClaim(c: Core, r: Record): Result<Core> {
    if r.claim.Some? then ClaimStep(c, Lives(ViewOf(c)), r, r.claim.value)
    else if r.sourceRevision.Some? then Err(SourceRevisionWithoutClaim)
    else Ok(c)
  }

  function AfterAuthority(c: Core, r: Record): Result<Core> {
    if r.authority.None? then Ok(c) else AuthorityStep(c, Lives(ViewOf(c)), r, r.authority.value)
  }

  function AfterReservation(c: Core, r: Record): Result<Core> {
    if r.reservation.None? then Ok(c) else ReservationStep(c, Lives(ViewOf(c)), r, r.reservation.value)
  }

  function AfterRelease(o: Oracle, c: Core, r: Record): Result<Core> {
    if r.release.None? then Ok(c) else ReleaseStep(o, c, Lives(ViewOf(c)), r, r.release.value)
  }

  function AfterReceipt(o: Oracle, c: Core, r: Record): Result<Core> {
    if r.receipt.None? then Ok(c) else ReceiptStep(o, c, Lives(ViewOf(c)), r, r.receipt.value, r.release.Some?)
  }

  /** One iteration of the reducer's loop. */
  function Step(o: Oracle, c: Core, r: Record): Result<Core> {
    var patched :- AfterPatch(c.(ordinal := c.ordinal + 1), r);
    var claimed :- AfterClaim(patched, r);
    var rotated :- AfterAuthority(claimed, r);
    var reserved :- AfterReservation(rotated, r);
    var released :- AfterRelease(o, reserved, r);
    AfterReceipt(o, released, r)
  }

  /** The reducer's loop over a whole history. */
  function Fold(o: Oracle, c: Core, history: seq<Record>): Result<Core> {
    if history == [] then Ok(c)
    else
      var before :- Fold(o, c, history[..|history| - 1]);
      Step(o, before, history[|history| - 1])
  }

  /** `replayProjection`: the loop followed by the final refresh. */
  function ReplayAll(o: Oracle, history: seq<Record>): Result<Core> {
    var c :- Fold(o, EmptyCore, history);
    var _ :- Lives(ViewOf(c));
    Ok(c)
  }
}
