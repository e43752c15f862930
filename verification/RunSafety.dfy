/** Safety of runs over whole accepted histories: one live run per meaning, at most one effect
    per run, no blind replay of a reserved effect, and fencing of superseded executors. */
module RunSafety {
  import opened Facts
  import opened Adapter
  import opened Lifecycles
  import opened TransactionAdmission
  import opened Replay
  import opened Invariants

  // ---------------------------------------------------------------- histories

  ghost predicate Accepted(o: Oracle, history: seq<Record>) { Fold(o, EmptyCore, history).Ok? }

  ghost function After(o: Oracle, history: seq<Record>): Core
    requires Accepted(o, history)
  {
    Fold(o, EmptyCore, history).value
  }

  lemma Snoc(o: Oracle, history: seq<Record>, r: Record)
    ensures Fold(o, EmptyCore, history + [r]) ==
      if Fold(o, EmptyCore, history).Ok? then Step(o, Fold(o, EmptyCore, history).value, r) else Fold(o, EmptyCore, history)
  {
    assert (history + [r])[..|history + [r]| - 1] == history;
  }

  /** Every prefix of an accepted history is accepted. */
  lemma {:induction false} PrefixAccepted(o: Oracle, history: seq<Record>, more: seq<Record>)
    requires Accepted(o, history + more)
    ensures Accepted(o, history)
    decreases |more|
  {
    if more == [] {
      assert history + more == history;
    } else {
      var n := |more| - 1;
      assert history + more == (history + more[..n]) + [more[n]];
      Snoc(o, history + more[..n], more[n]);
      PrefixAccepted(o, history, more[..n]);
    }
  }

  /** Splits off the last record of an extension. */
  lemma LastOf(o: Oracle, history: seq<Record>, more: seq<Record>)
    requires more != [] && Accepted(o, history + more)
    ensures var n := |more| - 1;
      && Accepted(o, history + more[..n])
      && Step(o, After(o, history + more[..n]), more[n]) == Ok(After(o, history + more))
      && Inv(After(o, history + more[..n]))
  {
    var n := |more| - 1;
    assert history + more == (history + more[..n]) + [more[n]];
    Snoc(o, history + more[..n], more[n]);
    HistoryInv(o, history + more[..n]);
  }

  // ---------------------------------------------------------------- what a record does to the run tables

  /** A receipt fact is the only thing that changes `latest`, and only for its own run. */
  lemma ReceiptTables(o: Oracle, c: Core, r: Record)
    requires RunsNamed(c.runs) && AfterReceipt(o, c, r).Ok?
    ensures var c' := AfterReceipt(o, c, r).value;
      && c'.runs == c.runs
      && (r.receipt.None? ==> c' == c)
      && (r.receipt.Some? ==>
            var run := r.receipt.value.runId;
            && run in c.runs
            && run in c'.latest && c'.latest[run].fact == r.receipt.value
            && c'.latest == c.latest[run := c'.latest[run]]
            && c'.unresolved == (if Terminal(c'.latest[run].disposition) then c.unresolved - {run} else c.unresolved))
  {
    hide Lives, ReceiptRejection, ProjectReceipt;
  }

  lemma ClaimTables(c: Core, r: Record)
    requires AfterClaim(c, r).Ok?
    ensures AfterClaim(c, r).value.latest == c.latest && AfterClaim(c, r).value.unresolved == c.unresolved
  {
    hide Lives, Prerequisites;
  }

  lemma AuthorityTables(c: Core, r: Record)
    requires AfterAuthority(c, r).Ok?
    ensures AfterAuthority(c, r).value.latest == c.latest && AfterAuthority(c, r).value.unresolved == c.unresolved
  {
    hide Lives;
  }

  lemma ReservationTables(c: Core, r: Record)
    requires RunsNamed(c.runs) && AfterReservation(c, r).Ok?
    ensures var c' := AfterReservation(c, r).value;
      && c'.runs == c.runs && c'.latest == c.latest
      && (r.reservation.None? ==> c'.unresolved == c.unresolved)
      && (r.reservation.Some? ==>
            var run := r.reservation.value.runId;
            && run in c.runs && run !in c.unresolved
            && c'.unresolved == c.unresolved[run := Held(r.reservation.value, r.commit)])
  {
    hide Lives;
  }

  lemma ReleaseTables(o: Oracle, c: Core, r: Record)
    requires RunsNamed(c.runs) && AfterRelease(o, c, r).Ok?
    ensures var c' := AfterRelease(o, c, r).value;
      && c'.runs == c.runs && c'.latest == c.latest
      && (r.release.None? ==> c'.unresolved == c.unresolved)
      && (r.release.Some? ==>
            && r.release.value.runId in c.unresolved
            && c'.unresolved == c.unresolved - {r.release.value.runId}
            && r.receipt.Some? && r.receipt.value.kind == NotDispatchedKind)
  {
    hide Lives;
  }

  /** The tables at each stage of an accepted record. */
  lemma StageTables(o: Oracle, c: Core, r: Record) returns (c3: Core, c4: Core, c5: Core)
    requires Inv(c) && Step(o, c, r).Ok?
    ensures RunsInv(c3) && Named(c3.obligations) && c3.latest == c.latest && c3.unresolved == c.unresolved
    ensures AfterReservation(c3, r) == Ok(c4) && RunsInv(c4) && Named(c4.obligations)
    ensures AfterRelease(o, c4, r) == Ok(c5) && RunsInv(c5) && Named(c5.obligations)
    ensures AfterReceipt(o, c5, r) == Step(o, c, r)
    ensures c4.runs == c3.runs && c4.latest == c3.latest && c5.runs == c3.runs && c5.latest == c3.latest
    ensures Step(o, c, r).value.runs == c3.runs
  {
    hide Step, AfterPatch, AfterClaim, AfterAuthority, AfterReservation, AfterRelease, AfterReceipt;
    var c1, c2;
    c1, c2, c3, c4, c5 := Stages(o, c, r);
    BumpKeeps(c);
    AfterPatchKeeps(Bump(c), r);
    AfterClaimKeeps(c1, r);
    AfterAuthorityKeeps(c2, r);
    ClaimTables(c1, r);
    AuthorityTables(c2, r);
    AfterReservationKeeps(c3, r);
    ReservationTables(c3, r);
    AfterReleaseKeeps(o, c4, r);
    ReleaseTables(o, c4, r);
    ReceiptTables(o, c5, r);
  }

  // ---------------------------------------------------------------- one live run per meaning

  lemma ReadyRefusesReceipts(o: Oracle, c: Core, r: Record)
    requires RunsNamed(c.runs) && AfterReceipt(o, c, r).Ok? && r.receipt.Some?
    ensures !IsReady(c.latest, r.receipt.value.runId)
  {
    hide Lives, ReceiptStep;
    ReadyIsFinal(o, c, Lives(ViewOf(c)), r, r.receipt.value, r.release.Some?);
  }

  lemma ReadyStays(o: Oracle, c: Core, r: Record, run: RunId)
    requires Inv(c) && Step(o, c, r).Ok? && IsReady(c.latest, run)
    ensures IsReady(Step(o, c, r).value.latest, run)
  {
    hide Step, AfterReceipt, AfterRelease, AfterReservation, OrderInv, OneLiveRun, HeldOpen, HeldBound, RunsNamed, StateInv;
    var c3, c4, c5 := StageTables(o, c, r);
    ReceiptTables(o, c5, r);
    if r.receipt.Some? { ReadyRefusesReceipts(o, c5, r); }
  }

  lemma {:induction false} ReadyForever(o: Oracle, history: seq<Record>, more: seq<Record>, run: RunId)
    requires Accepted(o, history + more)
    requires Accepted(o, history) && IsReady(After(o, history).latest, run)
    ensures IsReady(After(o, history + more).latest, run)
    decreases |more|
  {
    if more == [] {
      assert history + more == history;
    } else {
      LastOf(o, history, more);
      var n := |more| - 1;
      ReadyForever(o, history, more[..n], run);
      ReadyStays(o, After(o, history + more[..n]), more[n], run);
    }
  }

  /** For every obligation and semantic key, every claimed run except the newest is settled READY,
      in this history and in every extension of it. */
  lemma OneLiveRunPerMeaning(o: Oracle, history: seq<Record>, more: seq<Record>, a: RunId, b: RunId)
    requires Accepted(o, history + more)
    requires Accepted(o, history) && SameMeaning(After(o, history).runs, a, b)
    requires Earlier(After(o, history).claimOrdinals, a, b)
    ensures IsReady(After(o, history).latest, a) && IsReady(After(o, history + more).latest, a)
  {
    HistoryInv(o, history);
    ReadyForever(o, history, more, a);
  }

  /** A run that has not been settled, or waits for judgment or recovery. */
  ghost predicate InFlight(c: Core, run: RunId) {
    run in c.runs && (run in c.latest ==> c.latest[run].disposition in {DispositionWaiting, DispositionRecovery})
  }

  ghost predicate DoneRun(c: Core, run: RunId) {
    run in c.runs && run in c.latest && c.latest[run].disposition == DispositionDone
  }

  /** Two runs of one meaning are never both unfinished or DONE: at most one of them is in flight or realized. */
  lemma LiveRunUnique(o: Oracle, history: seq<Record>, a: RunId, b: RunId)
    requires Accepted(o, history) && SameMeaning(After(o, history).runs, a, b)
    requires InFlight(After(o, history), a) || DoneRun(After(o, history), a)
    requires InFlight(After(o, history), b) || DoneRun(After(o, history), b)
    ensures a == b
  {
    hide Fold, StateInv, HeldOpen, HeldBound, RunsNamed;
    HistoryInv(o, history);
    if a != b { OneOfTwoIsReady(After(o, history), a, b); }
  }

  lemma OneOfTwoIsReady(c: Core, a: RunId, b: RunId)
    requires OrderInv(c.order, c.runs.Keys, c.claimOrdinals, c.ordinal) && OneLiveRun(c.runs, c.claimOrdinals, c.latest)
    requires SameMeaning(c.runs, a, b) && a != b
    ensures IsReady(c.latest, a) || IsReady(c.latest, b)
  {
    var i :| 0 <= i < |c.order| && c.order[i] == a;
    var j :| 0 <= j < |c.order| && c.order[j] == b;
    assert Earlier(c.claimOrdinals, a, b) || Earlier(c.claimOrdinals, b, a);
    assert SameMeaning(c.runs, b, a);
  }

  // ---------------------------------------------------------------- one effect per run

  /** The receipt written with a release belongs to the released run.  The writer always pairs them
      (src/authority/engine.ts:513-540); the reducer checks only the receipt's kind. */
  predicate Paired(r: Record) {
    r.release.Some? ==> r.receipt.Some? && r.receipt.value.runId == r.release.value.runId
  }

  predicate Reserves(r: Record, run: RunId) { r.reservation.Some? && r.reservation.value.runId == run }

  function ReservationsOf(history: seq<Record>, run: RunId): nat {
    if history == [] then 0
    else ReservationsOf(history[..|history| - 1], run) + (if Reserves(history[|history| - 1], run) then 1 else 0)
  }

  /** No further effect may be reserved: one is unresolved, or the run has been settled or needs recovery. */
  ghost predicate Spent(c: Core, run: RunId) {
    run in c.unresolved || (run in c.latest && c.latest[run].disposition != DispositionWaiting)
  }

  lemma ReservationNeedsUnspent(c: Core, r: Record, run: RunId)
    requires RunsInv(c) && Named(c.obligations) && AfterReservation(c, r).Ok? && Reserves(r, run)
    ensures !Spent(c, run)
  {
    hide Lives, ReservationStep, OrderInv, OneLiveRun;
    ReservationTables(c, r);
    LivesCurrent(c);
    ReservedRunIsOpen(c, Lives(ViewOf(c)), r, r.reservation.value);
  }

  /** Judgment is asked for only by an EXECUTING run without a reservation. */
  lemma WaitingNeedsUnspent(o: Oracle, c: Core, now: Refreshed, r: Record, fact: ReceiptFact, released: bool)
    requires RunsNamed(c.runs) && Named(c.obligations) && Current(c, now)
    requires ReceiptStep(o, c, now, r, fact, released).Ok? && Spent(c, fact.runId)
    ensures ReceiptStep(o, c, now, r, fact, released).value.latest[fact.runId].disposition != DispositionWaiting
  {
    hide Solves;
    if fact.kind == JudgmentRequiredKind && fact.runId !in c.unresolved {
      CurrentFacts(ViewOf(c), now.value, c.runs[fact.runId].obligationId, fact.runId);
    }
  }

  lemma SpentReceipt(o: Oracle, c: Core, r: Record)
    requires RunsInv(c) && Named(c.obligations) && AfterReceipt(o, c, r).Ok? && r.receipt.Some?
    requires Spent(c, r.receipt.value.runId)
    ensures Spent(AfterReceipt(o, c, r).value, r.receipt.value.runId)
  {
    hide Lives, ReceiptStep, OrderInv, OneLiveRun;
    LivesCurrent(c);
    ReceiptTables(o, c, r);
    WaitingNeedsUnspent(o, c, Lives(ViewOf(c)), r, r.receipt.value, r.release.Some?);
  }

  /** The receipt written with a release settles its run READY. */
  lemma ReleaseSettlesReady(o: Oracle, c: Core, r: Record)
    requires RunsNamed(c.runs) && AfterReceipt(o, c, r).Ok?
    requires r.release.Some? && r.receipt.Some? && r.receipt.value.kind == NotDispatchedKind
    ensures IsReady(AfterReceipt(o, c, r).value.latest, r.receipt.value.runId)
  {
    hide Lives, ReceiptRejection;
  }

  lemma SpentStays(o: Oracle, c: Core, r: Record, run: RunId)
    requires Inv(c) && Step(o, c, r).Ok? && Paired(r)
    requires Spent(c, run) || Reserves(r, run)
    ensures Spent(Step(o, c, r).value, run)
    ensures Spent(c, run) ==> !Reserves(r, run)
  {
    hide Step, AfterReceipt, AfterRelease, AfterReservation, OrderInv, OneLiveRun, HeldOpen, HeldBound, RunsNamed, StateInv;
    var c3, c4, c5 := StageTables(o, c, r);
    ReservationTables(c3, r);
    ReleaseTables(o, c4, r);
    ReceiptTables(o, c5, r);
    if Reserves(r, run) { ReservationNeedsUnspent(c3, r, run); }
    if r.release.Some? && r.release.value.runId == run {
      ReleaseSettlesReady(o, c5, r);
    } else if r.receipt.Some? && r.receipt.value.runId == run {
      SpentReceipt(o, c5, r);
    }
  }

  /** One effect per run, ever: whatever crashes, rotations and refreshes the history holds. */
  lemma {:induction false} OneEffectPerRun(o: Oracle, history: seq<Record>, run: RunId)
    requires Accepted(o, history) && (forall r :: r in history ==> Paired(r))
    ensures ReservationsOf(history, run) <= 1
    ensures ReservationsOf(history, run) == 1 ==> Spent(After(o, history), run)
    decreases |history|
  {
    if history != [] {
      var n := |history| - 1;
      assert [] + history == history && [] + history[..n] == history[..n];
      LastOf(o, [], history);
      assert history[n] in history;
      OneEffectPerRun(o, history[..n], run);
      var c := After(o, history[..n]);
      if Spent(c, run) || Reserves(history[n], run) { SpentStays(o, c, history[n], run); }
    }
  }

  // ---------------------------------------------------------------- no blind replay

  /** The absence evidence that an observation receipt carries for its run. */
  function AbsenceOf(o: Oracle, work: Obligation, fact: ReceiptFact): Option<AbsenceKind> {
    if fact.kind == ObservationKind && fact.observed.Some? then o.absence(work.post, fact.observed.value) else None
  }

  /** A receipt for a run with an unresolved reservation: DONE only if verified; READY only in a record that carries a
      release, or on an observation whose own absence evidence the adapter lists as terminal. */
  lemma ReceiptOnHeld(o: Oracle, c: Core, r: Record)
    requires RunsNamed(c.runs) && AfterReceipt(o, c, r).Ok? && r.receipt.Some?
    requires r.receipt.value.runId in c.unresolved
    ensures var run := r.receipt.value.runId; var receipt := AfterReceipt(o, c, r).value.latest[run];
      && (receipt.disposition == DispositionDone ==> receipt.verified)
      && (receipt.disposition == DispositionReady ==>
            || r.release.Some?
            || (var absence := AbsenceOf(o, c.runs[run].obligation, r.receipt.value);
                absence.Some? && ReplaySafe(Registry, c.runs[run].obligation, absence.value)))
  {
    hide Lives, ReplaySafe;
  }

  /** How a record may end the reservation `held` of a run: by a verified DONE, or by a release bound to it. */
  ghost predicate Resolves(o: Oracle, c: Core, r: Record, run: RunId, held: Held) {
    && Step(o, c, r).Ok? && run in Step(o, c, r).value.runs
    && (|| SettlesDone(Step(o, c, r).value, r, run)
        || BoundRelease(o, Step(o, c, r).value.runs[run].obligation, r, run, held))
  }

  ghost predicate SettlesDone(c: Core, r: Record, run: RunId) {
    && run in c.latest && c.latest[run].fact.runId == run && c.latest[run].settlement == r.commit
    && c.latest[run].disposition == DispositionDone && c.latest[run].verified
  }

  /** A release whose trusted witness names exactly this reservation and is safe for the run's own work. */
  ghost predicate BoundRelease(o: Oracle, work: Obligation, r: Record, run: RunId, held: Held) {
    && r.release.Some?
    && r.release.value.runId == run
    && r.release.value.reservationCommit == held.commit
    && r.release.value.generation == held.fact.generation
    && r.release.value.authorityCommit == held.fact.authorityCommit
    && r.release.value.evidence.attempt.reservationCommit == held.commit
    && WitnessSafe(o, work, r.release.value.contract, r.release.value.evidence)
  }

  /** The record settles this run with the release of another one. */
  predicate SettledByOther(r: Record, run: RunId) {
    && r.release.Some? && r.release.value.runId != run
    && r.receipt.Some? && r.receipt.value.runId == run
  }

  lemma ReleaseIsBound(o: Oracle, c: Core, r: Record)
    requires RunsNamed(c.runs) && AfterRelease(o, c, r).Ok? && r.release.Some?
    ensures r.release.value.runId in c.runs && r.release.value.runId in c.unresolved
    ensures var run := r.release.value.runId; BoundRelease(o, c.runs[run].obligation, r, run, c.unresolved[run])
  {
    hide Lives, WitnessSafe;
  }

  lemma ReceiptStamped(o: Oracle, c: Core, r: Record)
    requires RunsNamed(c.runs) && AfterReceipt(o, c, r).Ok? && r.receipt.Some?
    ensures AfterReceipt(o, c, r).value.latest[r.receipt.value.runId].settlement == r.commit
  {
    hide Lives, ReceiptRejection, ProjectReceipt;
  }

  /** What one record can do to a reservation: leave it exactly as it was, resolve it, or end it with another run's release. */
  lemma HeldOrResolved(o: Oracle, c: Core, r: Record, run: RunId)
    requires Inv(c) && Step(o, c, r).Ok? && run in c.unresolved
    ensures run in Step(o, c, r).value.unresolved ==> Step(o, c, r).value.unresolved[run] == c.unresolved[run]
    ensures run !in Step(o, c, r).value.unresolved ==> Resolves(o, c, r, run, c.unresolved[run]) || SettledByOther(r, run)
    ensures SettledByOther(r, run) ==> run !in Step(o, c, r).value.unresolved && !Resolves(o, c, r, run, c.unresolved[run])
  {
    hide Step, AfterReceipt, AfterRelease, AfterReservation, OrderInv, OneLiveRun, HeldOpen, HeldBound, RunsNamed, StateInv;
    hide BoundRelease, ReplaySafe;
    var c3, c4, c5 := StageTables(o, c, r);
    ReservationTables(c3, r);
    ReleaseTables(o, c4, r);
    ReceiptTables(o, c5, r);
    if r.release.Some? {
      ReleaseIsBound(o, c4, r);
      ReleaseSettlesReady(o, c5, r);
      BoundNames(o, r);
    }
    if r.receipt.Some? && r.receipt.value.runId == run && run in c5.unresolved {
      ReceiptOnHeld(o, c5, r);
      ReceiptStamped(o, c5, r);
      forall kind ensures !ReplaySafe(Registry, c5.runs[run].obligation, kind) {
        RegistryForbidsReplay(c5.runs[run].obligation, kind);
      }
    }
  }

  lemma BoundNames(o: Oracle, r: Record)
    ensures forall work, run, held :: BoundRelease(o, work, r, run, held) ==> r.release.Some? && r.release.value.runId == run
  {
  }

  /** The exact exception: a record ends a reservation without resolving it if and only if it settles the run with the
      release of another one. */
  lemma BlindEndIffOther(o: Oracle, c: Core, r: Record, run: RunId)
    requires Inv(c) && Step(o, c, r).Ok? && run in c.unresolved
    ensures (run !in Step(o, c, r).value.unresolved && !Resolves(o, c, r, run, c.unresolved[run])) <==> SettledByOther(r, run)
  {
    hide Step, Inv, Resolves, SettledByOther;
    HeldOrResolved(o, c, r, run);
  }

  /** The record ends the reservation `held`, which was there until then. */
  ghost predicate Ends(o: Oracle, c: Core, r: Record, run: RunId, held: Held) {
    && run in c.unresolved && c.unresolved[run] == held
    && (Resolves(o, c, r, run, held) || SettledByOther(r, run))
  }

  /** No blind replay: over any extension of an accepted history a reservation survives every rotation, termination and
      observation unchanged, until some record resolves it by a verified DONE or a release bound to that very reservation,
      or settles its run with the release of another one. */
  lemma {:induction false} NoBlindReplay(o: Oracle, history: seq<Record>, more: seq<Record>, run: RunId)
    requires Accepted(o, history + more)
    requires Accepted(o, history) && run in After(o, history).unresolved
    ensures
      var held := After(o, history).unresolved[run];
      || (run in After(o, history + more).unresolved && After(o, history + more).unresolved[run] == held)
      || exists k :: 0 <= k < |more| && Accepted(o, history + more[..k])
           && Ends(o, After(o, history + more[..k]), more[k], run, held)
    decreases |more|
  {
    hide Resolves, SettledByOther;
    if more == [] {
      assert history + more == history;
    } else {
      LastOf(o, history, more);
      var n := |more| - 1;
      NoBlindReplay(o, history, more[..n], run);
      var c := After(o, history + more[..n]);
      var held := After(o, history).unresolved[run];
      if run in c.unresolved && c.unresolved[run] == held {
        HeldOrResolved(o, c, more[n], run);
        assert run !in After(o, history + more).unresolved ==> Ends(o, c, more[n], run, held);
      } else {
        var k :| 0 <= k < n && Accepted(o, history + more[..n][..k])
          && Ends(o, After(o, history + more[..n][..k]), more[..n][k], run, held);
        assert more[..n][..k] == more[..k] && more[..n][k] == more[k];
      }
    }
  }

  // ---------------------------------------------------------------- fencing

  predicate Rotates(r: Record, run: RunId) { r.authority.Some? && r.authority.value.runId == run }

  function RotationsOf(history: seq<Record>, run: RunId): nat {
    if history == [] then 0
    else RotationsOf(history[..|history| - 1], run) + (if Rotates(history[|history| - 1], run) then 1 else 0)
  }

  function GenerationOf(c: Core, run: RunId): nat { if run in c.runs then c.runs[run].generation else 1 }

  lemma ClaimGeneration(c: Core, r: Record, run: RunId)
    requires AfterClaim(c, r).Ok?
    ensures GenerationOf(AfterClaim(c, r).value, run) == GenerationOf(c, run)
    ensures run in c.runs ==> run in AfterClaim(c, r).value.runs
  {
    hide Lives, Prerequisites;
  }

  lemma AuthorityStepIs(c: Core, now: Refreshed, r: Record, fact: Authority)
    requires RunsNamed(c.runs) && AuthorityStep(c, now, r, fact).Ok?
    ensures fact.runId in c.runs && fact.generation == c.runs[fact.runId].generation + 1
    ensures AuthorityStep(c, now, r, fact).value.runs == c.runs[fact.runId := Rotated(c.runs[fact.runId], r, fact)]
  {
  }

  lemma AuthorityGeneration(c: Core, r: Record, run: RunId)
    requires RunsNamed(c.runs) && AfterAuthority(c, r).Ok?
    ensures GenerationOf(AfterAuthority(c, r).value, run) == GenerationOf(c, run) + (if Rotates(r, run) then 1 else 0)
    ensures run in c.runs ==> run in AfterAuthority(c, r).value.runs
  {
    hide Lives, AuthorityStep, RunsNamed;
    if r.authority.Some? { AuthorityStepIs(c, Lives(ViewOf(c)), r, r.authority.value); }
  }

  lemma StepGeneration(o: Oracle, c: Core, r: Record, run: RunId)
    requires Inv(c) && Step(o, c, r).Ok?
    ensures GenerationOf(Step(o, c, r).value, run) == GenerationOf(c, run) + (if Rotates(r, run) then 1 else 0)
    ensures run in c.runs ==> run in Step(o, c, r).value.runs
  {
    hide Step, AfterPatch, AfterClaim, AfterAuthority, AfterReservation, AfterRelease, AfterReceipt, OrderInv, OneLiveRun, HeldOpen, HeldBound;
    var c1, c2, c3, c4, c5 := Stages(o, c, r);
    BumpKeeps(c);
    AfterPatchKeeps(Bump(c), r);
    AfterClaimKeeps(c1, r);
    AfterAuthorityKeeps(c2, r);
    ClaimGeneration(c1, r, run);
    AuthorityGeneration(c2, r, run);
    ReservationTables(c3, r);
    ReleaseTables(o, c4, r);
    ReceiptTables(o, c5, r);
  }

  /** A run's generation is one plus its accepted rotations. */
  lemma {:induction false} GenerationCountsRotations(o: Oracle, history: seq<Record>, run: RunId)
    requires Accepted(o, history)
    ensures GenerationOf(After(o, history), run) == 1 + RotationsOf(history, run)
    decreases |history|
  {
    if history != [] {
      var n := |history| - 1;
      assert [] + history == history && [] + history[..n] == history[..n];
      LastOf(o, [], history);
      GenerationCountsRotations(o, history[..n], run);
      StepGeneration(o, After(o, history[..n]), history[n], run);
    }
  }

  /** The generation a record presents for a run, in a reservation, release or receipt. */
  ghost predicate Presents(r: Record, run: RunId, generation: nat) {
    || (r.reservation.Some? && r.reservation.value.runId == run && r.reservation.value.generation == generation)
    || (r.release.Some? && r.release.value.runId == run && r.release.value.generation == generation)
    || (r.receipt.Some? && r.receipt.value.runId == run && r.receipt.value.generation == generation)
  }

  lemma ReservationGeneration(c: Core, r: Record)
    requires RunsNamed(c.runs) && AfterReservation(c, r).Ok? && r.reservation.Some?
    ensures r.reservation.value.generation == GenerationOf(c, r.reservation.value.runId)
  {
    hide Lives;
  }

  lemma ReleaseGeneration(o: Oracle, c: Core, r: Record)
    requires RunsNamed(c.runs) && AfterRelease(o, c, r).Ok? && r.release.Some?
    ensures r.release.value.generation == GenerationOf(c, r.release.value.runId)
  {
    hide Lives;
  }

  lemma ReceiptGeneration(o: Oracle, c: Core, r: Record)
    requires RunsNamed(c.runs) && AfterReceipt(o, c, r).Ok? && r.receipt.Some?
    ensures r.receipt.value.generation == GenerationOf(c, r.receipt.value.runId)
  {
    hide Lives, ReceiptRejection, ProjectReceipt;
  }

  /** Every fact an accepted record presents carries exactly the run's generation. */
  lemma PresentsCurrent(o: Oracle, c: Core, r: Record, run: RunId, generation: nat)
    requires Inv(c) && Step(o, c, r).Ok? && Presents(r, run, generation)
    ensures generation == GenerationOf(Step(o, c, r).value, run)
  {
    hide Step, AfterReceipt, AfterRelease, AfterReservation, OrderInv, OneLiveRun, HeldOpen, HeldBound, RunsNamed, StateInv;
    var c3, c4, c5 := StageTables(o, c, r);
    if r.reservation.Some? { ReservationGeneration(c3, r); }
    if r.release.Some? { ReleaseGeneration(o, c4, r); }
    if r.receipt.Some? { ReceiptGeneration(o, c5, r); }
  }

  lemma {:induction false} GenerationGrows(o: Oracle, history: seq<Record>, more: seq<Record>, run: RunId)
    requires Accepted(o, history + more) && Accepted(o, history)
    ensures GenerationOf(After(o, history), run) <= GenerationOf(After(o, history + more), run)
    decreases |more|
  {
    if more == [] {
      assert history + more == history;
    } else {
      LastOf(o, history, more);
      var n := |more| - 1;
      GenerationGrows(o, history, more[..n], run);
      StepGeneration(o, After(o, history + more[..n]), more[n], run);
    }
  }

  /** Fencing: once a run has reached some generation, no later record that presents an older one is accepted,
      and no later permit check with an older one passes. */
  lemma Fenced(o: Oracle, history: seq<Record>, more: seq<Record>, last: Record, run: RunId, generation: nat)
    requires Accepted(o, history) && Accepted(o, history + more)
    requires generation < GenerationOf(After(o, history), run)
    ensures Presents(last, run, generation) ==> !Accepted(o, history + more + [last])
    ensures forall permit: Permit ::
      run in After(o, history + more).runs && permit.generation == generation ==>
        !ExecutionPermits(After(o, history + more).runs[run], permit)
  {
    GenerationGrows(o, history, more, run);
    if Presents(last, run, generation) && Accepted(o, history + more + [last]) {
      var all := history + more;
      HistoryInv(o, all);
      Snoc(o, all, last);
      PresentsCurrent(o, After(o, all), last, run, generation);
      StepGeneration(o, After(o, all), last, run);
    }
  }
}
