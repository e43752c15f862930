/** The fencing rules shared by the writer and the reducer (src/authority/transaction-admission.ts). */
module TransactionAdmission {
  import opened Facts

  predicate CurrentAuthority(run: Run, permit: Permit, digest: Digest<string>) {
    && permit.id == run.id
    && permit.obligationId == run.obligationId
    && permit.generation == run.generation
    && permit.authorityCommit == run.authorityCommit
    && permit.capabilitySha == run.capability
    && digest == run.capability
  }

  predicate ExactRevision(run: Run, permit: Permit) {
    && permit.claimedRevision == run.claimedRevision
    && permit.claimCommit == run.claimCommit
    && permit.key == run.key
  }

  /** `executionPermits`. */
  predicate ExecutionPermits(run: Run, permit: Permit) {
    CurrentAuthority(run, permit, Sha(permit.capability)) && ExactRevision(run, permit)
  }

  function ReservationAuthorityError(run: Run, fact: Reservation, unresolved: bool): Option<ReservationError> {
    if fact.runId != run.id then Some(ReservationRun)
    else if fact.obligationId != run.obligationId then Some(ReservationObligation)
    else if fact.generation != run.generation || fact.authorityCommit != run.authorityCommit then Some(StaleReservation)
    else if unresolved then Some(DuplicateUnresolved)
    else None
  }

  function ReleaseAuthorityError(run: Run, held: Held, fact: Release): Option<ReleaseError> {
    if fact.runId != run.id then Some(ReleaseRun)
    else if fact.obligationId != run.obligationId then Some(ReleaseObligation)
    else if fact.generation != run.generation || fact.authorityCommit != run.authorityCommit then Some(ReleaseExecutionAuthority)
    else if
      || fact.reservationCommit != held.commit
      || fact.generation != held.fact.generation
      || fact.authorityCommit != held.fact.authorityCommit
    then Some(ReleaseReservation)
    else None
  }

  function ReceiptAuthorityError(run: Run, fact: ReceiptFact): Option<ReceiptError> {
    if fact.runId != run.id then Some(ReceiptRun)
    else if fact.obligationId != run.obligationId then Some(ReceiptObligation)
    else if fact.claimedRevision != run.claimedRevision then Some(ReceiptRevision)
    else if fact.claimCommit != run.claimCommit then Some(ReceiptClaim)
    else if fact.generation != run.generation || fact.authorityCommit != run.authorityCommit then Some(ReceiptExecutionAuthority)
    else None
  }

  function AuthorityAdvanceError(run: Run, fact: Authority): Option<AdvanceError> {
    if fact.runId != run.id then Some(AdvanceRun)
    else if fact.obligationId != run.obligationId then Some(AdvanceObligation)
    else if fact.generation != run.generation + 1 then Some(NotSuccessor)
    else if fact.previousAuthority != run.authorityCommit then Some(PredecessorMismatch)
    else None
  }
}
