/** What each lifecycle status means in terms of runs and their receipts (src/authority/project-state.ts:236-287). */
module Statuses {
  import opened Facts
  import opened Lifecycles
  import opened Invariants

  /** The run was claimed under the obligation's current meaning. */
  predicate OfCurrentMeaning(lives: Realizations, run: Run) {
    run.obligationId in lives && lives[run.obligationId].key == Some(run.key)
  }

  /** No receipt yet, or a request for judgment that a newer generation has overtaken. */
  predicate IsExecuting(c: Core, run: RunId) {
    run in c.runs && (run in c.latest ==>
      c.latest[run].disposition == DispositionWaiting && c.latest[run].fact.generation < c.runs[run].generation)
  }

  predicate IsWaiting(c: Core, run: RunId) {
    && run in c.runs && run in c.latest
    && c.latest[run].disposition == DispositionWaiting && c.latest[run].fact.generation >= c.runs[run].generation
  }

  predicate NeedsRecovery(c: Core, run: RunId) { run in c.runs && run in c.latest && c.latest[run].disposition == DispositionRecovery }

  predicate IsDone(c: Core, run: RunId) { run in c.runs && run in c.latest && c.latest[run].disposition == DispositionDone }

  predicate IsOpen(c: Core, run: RunId) { IsExecuting(c, run) || IsWaiting(c, run) || NeedsRecovery(c, run) }

  /** A run of the current meaning that is not settled READY is the one its obligation's lifecycle names. */
  lemma NamesOpenRun(c: Core, lives: Realizations, run: RunId)
    requires RunsInv(c) && Named(c.obligations) && Solves(ViewOf(c), lives) && run in c.runs
    requires OfCurrentMeaning(lives, c.runs[run]) && !IsReady(c.latest, run)
    ensures lives[c.runs[run].obligationId].life.run == Some(run)
  {
    hide RunsInv, Solves, LastCandidate, LastDone;
    SolvedLifeHere(ViewOf(c), lives, c.runs[run].obligationId);
    LastIsOpenRun(c, run);
    DoneIsOpenRun(c, run);
  }

  lemma SolvedLifeHere(v: View, lives: Realizations, id: ObligationId)
    requires Solves(v, lives) && Named(v.obligations) && id in lives
    ensures id in v.obligations && lives[id].life == LifeFor(v, id, lives[id].key)
  {
  }

  /** Any other run of the meaning of an open run is settled READY. */
  lemma OnlyOpenCandidate(c: Core, run: RunId)
    requires RunsInv(c) && run in c.runs && !IsReady(c.latest, run)
    ensures forall r :: r != run && Candidate(ViewOf(c), r, c.runs[run].obligationId, c.runs[run].key) ==> IsReady(c.latest, r)
  {
    hide HeldOpen, HeldBound, RunsNamed;
    forall r | r != run && Candidate(ViewOf(c), r, c.runs[run].obligationId, c.runs[run].key) ensures IsReady(c.latest, r) {
      var i :| 0 <= i < |c.order| && c.order[i] == run;
      var j :| 0 <= j < |c.order| && c.order[j] == r;
      assert SameMeaning(c.runs, r, run) && SameMeaning(c.runs, run, r);
      assert Earlier(c.claimOrdinals, r, run) || Earlier(c.claimOrdinals, run, r);
    }
  }

  /** No run of the meaning is claimed after an open one. */
  lemma NewestCandidate(c: Core, run: RunId, i: nat, j: nat)
    requires RunsInv(c) && run in c.runs && !IsReady(c.latest, run) && i <= j < |c.order| && c.order[i] == run
    requires Candidate(ViewOf(c), c.order[j], c.runs[run].obligationId, c.runs[run].key)
    ensures c.order[j] == run
  {
    hide HeldOpen, HeldBound, RunsNamed;
    var later := c.order[j];
    assert SameMeaning(c.runs, run, later);
    assert i < j ==> Earlier(c.claimOrdinals, run, later);
  }

  lemma LastIsOpenRun(c: Core, run: RunId)
    requires RunsInv(c) && run in c.runs && !IsReady(c.latest, run)
    ensures LastCandidate(ViewOf(c), c.order, c.runs[run].obligationId, c.runs[run].key) == Some(run)
  {
    hide OneLiveRun, HeldOpen, HeldBound, RunsNamed, LastCandidate;
    var v, id, key := ViewOf(c), c.runs[run].obligationId, c.runs[run].key;
    LastCandidateIs(v, c.order, id, key);
    var i :| 0 <= i < |c.order| && c.order[i] == run;
    assert Candidate(v, c.order[i], id, key);
    var last := LastCandidate(v, c.order, id, key).value;
    var j :| 0 <= j < |c.order| && c.order[j] == last && Candidate(v, c.order[j], id, key)
      && forall k :: j < k < |c.order| ==> !Candidate(v, c.order[k], id, key);
    NewestCandidate(c, run, i, j);
  }

  /** Only an open run itself can be the DONE run of its meaning. */
  lemma DoneIsOpenRun(c: Core, run: RunId)
    requires RunsInv(c) && run in c.runs && !IsReady(c.latest, run)
    ensures var done := LastDone(ViewOf(c), c.order, c.runs[run].obligationId, c.runs[run].key);
      done == if IsDone(c, run) then Some(run) else None
  {
    hide OneLiveRun, HeldOpen, HeldBound, RunsNamed, LastDone;
    LastDoneIs(ViewOf(c), c.order, c.runs[run].obligationId, c.runs[run].key);
    OnlyOpenCandidate(c, run);
    var i :| 0 <= i < |c.order| && c.order[i] == run;
    assert Candidate(ViewOf(c), c.order[i], c.runs[run].obligationId, c.runs[run].key);
  }

  /** Each status of a run, by the run's own facts. */
  lemma StatusIff(c: Core, lives: Realizations, run: RunId)
    requires RunsInv(c) && Named(c.obligations) && Solves(ViewOf(c), lives) && run in c.runs
    ensures CurrentIs(lives, c.runs[run], Executing) <==> OfCurrentMeaning(lives, c.runs[run]) && IsExecuting(c, run)
    ensures CurrentIs(lives, c.runs[run], Waiting) <==> OfCurrentMeaning(lives, c.runs[run]) && IsWaiting(c, run)
    ensures CurrentIs(lives, c.runs[run], RecoveryRequired) <==> OfCurrentMeaning(lives, c.runs[run]) && NeedsRecovery(c, run)
    ensures CurrentIs(lives, c.runs[run], Done) <==> OfCurrentMeaning(lives, c.runs[run]) && IsDone(c, run)
    ensures CurrentRun(lives, c.runs[run]) <==> OfCurrentMeaning(lives, c.runs[run]) && (IsOpen(c, run) || IsDone(c, run))
  {
    hide OrderInv, OneLiveRun, HeldOpen, HeldBound, Solves;
    var id := c.runs[run].obligationId;
    if OfCurrentMeaning(lives, c.runs[run]) && !IsReady(c.latest, run) { NamesOpenRun(c, lives, run); }
    if id in lives && lives[id].life.run == Some(run) { CurrentFacts(ViewOf(c), lives, id, run); }
  }

  /** An obligation is unrealized exactly when its meaning is unknown or every run of it is settled READY. */
  lemma UnrealizedIff(c: Core, lives: Realizations, id: ObligationId)
    requires RunsInv(c) && Named(c.obligations) && Solves(ViewOf(c), lives) && id in lives
    ensures lives[id].life.status == Unrealized <==>
      forall r :: r in c.runs && c.runs[r].obligationId == id && OfCurrentMeaning(lives, c.runs[r]) ==> IsReady(c.latest, r)
  {
    hide OrderInv, OneLiveRun, HeldOpen, HeldBound, Solves;
    var v := ViewOf(c);
    SolvedLifeHere(v, lives, id);
    forall r | r in c.runs && c.runs[r].obligationId == id && OfCurrentMeaning(lives, c.runs[r]) && !IsReady(c.latest, r)
      ensures lives[id].life.status != Unrealized
    {
      NamesOpenRun(c, lives, r);
      CurrentFacts(v, lives, id, r);
    }
    if lives[id].life.status != Unrealized {
      RealizedNames(v, lives, id);
      var run := lives[id].life.run.value;
      CurrentFacts(v, lives, id, run);
    }
  }

  lemma RealizedNames(v: View, lives: Realizations, id: ObligationId)
    requires Solves(v, lives) && Named(v.obligations) && id in lives && lives[id].life.status != Unrealized
    ensures lives[id].life.run.Some?
  {
    SolvedLifeHere(v, lives, id);
  }

  /** Work is in flight exactly when some run of a current meaning executes, waits for judgment or needs recovery. */
  lemma InFlightIff(c: Core, lives: Realizations)
    requires RunsInv(c) && Named(c.obligations) && Solves(ViewOf(c), lives)
    ensures HasInFlight(lives) <==> exists r :: r in c.runs && OfCurrentMeaning(lives, c.runs[r]) && IsOpen(c, r)
  {
    hide OrderInv, OneLiveRun, HeldOpen, HeldBound, Solves, IsExecuting, IsWaiting, NeedsRecovery, IsDone;
    if HasInFlight(lives) {
      var id :| id in lives && InFlightStatus(lives[id].life.status);
      RealizedNames(ViewOf(c), lives, id);
      var run := lives[id].life.run.value;
      CurrentFacts(ViewOf(c), lives, id, run);
      StatusIff(c, lives, run);
    }
    forall r | r in c.runs && OfCurrentMeaning(lives, c.runs[r]) && IsOpen(c, r) ensures HasInFlight(lives) {
      StatusIff(c, lives, r);
    }
  }
}
