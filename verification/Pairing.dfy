/** Exactly when the reducer lets a run reserve a second effect: after a release whose receipt belongs to another run.
    The reducer checks only the receipt's kind (src/authority/replay.ts:339-343). */
module Pairing {
  import opened Facts
  import opened Graph
  import opened Adapter
  import opened Lifecycles
  import opened Frames
  import opened Replay
  import opened Invariants
  import opened RunSafety
  import opened Writer

  lemma SpentRefuses(o: Oracle, c: Core, r: Record, run: RunId)
    requires Inv(c) && Step(o, c, r).Ok? && Spent(c, run)
    ensures !Reserves(r, run)
  {
    hide Step, AfterReceipt, AfterRelease, AfterReservation, OrderInv, OneLiveRun, HeldOpen, HeldBound, RunsNamed, StateInv;
    var c3, c4, c5 := StageTables(o, c, r);
    if Reserves(r, run) { ReservationNeedsUnspent(c3, r, run); }
  }

  /** A paired release leaves its run without any way to reserve again. */
  lemma PairedReleaseSpends(o: Oracle, c: Core, r: Record)
    requires Inv(c) && Step(o, c, r).Ok? && r.release.Some? && Paired(r)
    ensures Spent(Step(o, c, r).value, r.release.value.runId)
  {
    hide Step, AfterReceipt, AfterRelease, AfterReservation, OrderInv, OneLiveRun, HeldOpen, HeldBound, RunsNamed, StateInv;
    var c3, c4, c5 := StageTables(o, c, r);
    ReleaseTables(o, c4, r);
    ReceiptTables(o, c5, r);
    ReleaseSettlesReady(o, c5, r);
  }

  // ---------------------------------------------------------------- a mispaired release reopens its run

  lemma ReleasedRunExecutes(o: Oracle, c: Core, r: Record)
    requires RunsNamed(c.runs) && AfterRelease(o, c, r).Ok? && r.release.Some?
    ensures Lives(ViewOf(c)).Ok? && r.release.value.runId in c.runs
    ensures CurrentIs(Lives(ViewOf(c)).value, c.runs[r.release.value.runId], Executing)
    ensures ViewOf(AfterRelease(o, c, r).value) == ViewOf(c)
  {
    hide Lives, WitnessSafe;
  }

  lemma MispairedReceipt(o: Oracle, c: Core, r: Record)
    requires RunsNamed(c.runs) && AfterReceipt(o, c, r).Ok?
    requires r.release.Some? && r.receipt.Some? && r.receipt.value.kind == NotDispatchedKind
    ensures var other := r.receipt.value.runId;
      other in c.latest ==> !Terminal(c.latest[other].disposition)
  {
    hide Lives, ProjectReceipt;
  }

  lemma {:induction false} LastCandidateSame(v: View, w: View, order: seq<RunId>, id: ObligationId, key: Key)
    requires w.runs == v.runs
    ensures LastCandidate(w, order, id, key) == LastCandidate(v, order, id, key)
    decreases |order|
  {
    if order != [] { LastCandidateSame(v, w, order[..|order| - 1], id, key); }
  }

  /** A receipt that is not DONE, for another run, leaves an EXECUTING run EXECUTING. */
  lemma OtherReceiptKeepsExecuting(v: View, w: View, run: Run, other: RunId)
    requires Lives(v).Ok? && ValidGraph(v.obligations) && Named(v.obligations)
    requires CurrentIs(Lives(v).value, run, Executing)
    requires OpenReceiptsOnly(v, w) && other != run.id && other in w.latest && w.latest == v.latest[other := w.latest[other]]
    ensures Lives(w).Ok? && CurrentIs(Lives(w).value, run, Executing)
  {
    hide Lives, ValidGraph, Solves;
    var lives := Lives(v).value;
    OpenReceiptsSameDone(v, w, lives);
    OnlyDoneMatters(v, w, lives);
    LivesSolve(v);
    ExecutingSame(v, w, lives, run, other);
  }

  lemma ExecutingSame(v: View, w: View, lives: Realizations, run: Run, other: RunId)
    requires Solves(v, lives) && Named(v.obligations) && CurrentIs(lives, run, Executing)
    requires OpenReceiptsOnly(v, w) && other != run.id && other in w.latest && w.latest == v.latest[other := w.latest[other]]
    ensures CurrentIs(Recast(w, lives), run, Executing)
  {
    hide Solves, OpenReceiptsOnly;
    var id := run.obligationId;
    ObligationOf(v, lives, id);
    SolvedLife(v, lives, id);
    var key := lives[id].key;
    SameRunsHere(v, w);
    DoneLife(v, id, key);
    if key.Some? {
      OpenReceiptsKeepDone(v, w, v.order, id, key.value);
      LastCandidateSame(v, w, v.order, id, key.value);
    }
  }

  lemma SameRunsHere(v: View, w: View)
    requires OpenReceiptsOnly(v, w)
    ensures w.obligations == v.obligations && w.order == v.order && w.runs == v.runs
  {
  }

  lemma ObligationOf(v: View, lives: Realizations, id: ObligationId)
    requires Solves(v, lives) && id in lives
    ensures id in v.obligations
  {
  }

  /** The reservation the run's current executor would write. */
  function ReservationFor(run: Run, commit: CommitId): Record {
    EmptyRecord(commit, None).(reservation := Some(Reservation(run.id, run.obligationId, run.generation, run.authorityCommit)))
  }

  lemma ExecutingMayReserve(o: Oracle, c: Core, run: RunId, commit: CommitId)
    requires RunsNamed(c.runs) && run in c.runs && run !in c.unresolved
    requires Lives(ViewOf(c)).Ok? && CurrentIs(Lives(ViewOf(c)).value, c.runs[run], Executing)
    ensures Step(o, c, ReservationFor(c.runs[run], commit)).Ok?
  {
    hide Lives, Step;
    OnlyReservation(o, c, ReservationFor(c.runs[run], commit));
  }

  lemma MispairedReopens(o: Oracle, c: Core, r: Record, commit: CommitId)
    requires Inv(c) && Step(o, c, r).Ok? && r.release.Some? && !Paired(r)
    ensures var c' := Step(o, c, r).value; var run := r.release.value.runId;
      && run in c'.runs && Step(o, c', ReservationFor(c'.runs[run], commit)).Ok?
  {
    hide Step, AfterReceipt, AfterRelease, AfterReservation, OrderInv, OneLiveRun, HeldOpen, HeldBound, RunsNamed;
    hide Lives, ValidGraph;
    var c' := Step(o, c, r).value;
    var c3, c4, c5 := StageTables(o, c, r);
    StepKeeps(o, c, r);
    ReleaseTables(o, c4, r);
    ReceiptTables(o, c5, r);
    ReleaseSettlesReady(o, c5, r);
    ReleasedRunExecutes(o, c4, r);
    MispairedReceipt(o, c5, r);
    var run, other := r.release.value.runId, r.receipt.value.runId;
    ReceiptGraph(o, c5, r);
    assert OpenReceiptsOnly(ViewOf(c4), ViewOf(c'));
    RunNamed(c4, run);
    OtherReceiptKeepsExecuting(ViewOf(c4), ViewOf(c'), c4.runs[run], other);
    ExecutingMayReserve(o, c', run, commit);
  }

  lemma RunNamed(c: Core, run: RunId)
    requires RunsNamed(c.runs) && run in c.runs
    ensures c.runs[run].id == run
  {
  }

  lemma ReceiptGraph(o: Oracle, c: Core, r: Record)
    requires AfterReceipt(o, c, r).Ok?
    ensures AfterReceipt(o, c, r).value.obligations == c.obligations && AfterReceipt(o, c, r).value.order == c.order
  {
    hide Lives, ReceiptRejection, ProjectReceipt;
  }

  /** After an accepted release, the released run can reserve another effect if and only if the receipt written with the
      release belongs to another run. */
  lemma SecondEffectIffMispaired(o: Oracle, c: Core, r: Record)
    requires Inv(c) && Step(o, c, r).Ok? && r.release.Some?
    ensures (exists next :: Reserves(next, r.release.value.runId) && Step(o, Step(o, c, r).value, next).Ok?) <==> !Paired(r)
  {
    hide Step, OrderInv, OneLiveRun, HeldOpen, HeldBound, RunsNamed, Spent, StateInv;
    var c' := Step(o, c, r).value;
    var run := r.release.value.runId;
    StepKeeps(o, c, r);
    if Paired(r) {
      PairedReleaseSpends(o, c, r);
      forall next | Reserves(next, run) ensures Step(o, c', next).Err? {
        if Step(o, c', next).Ok? { SpentRefuses(o, c', next, run); }
      }
    } else {
      MispairedReopens(o, c, r, "");
      RunNamed(c', run);
      assert Reserves(ReservationFor(c'.runs[run], ""), run);
    }
  }
}
