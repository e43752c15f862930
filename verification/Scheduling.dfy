/** Service-age selection (src/authority/project-state.ts:655-685) and its bounded bypass. */
module Scheduling {
  import opened Facts
  import opened Graph
  import opened Ordering
  import opened Adapter
  import opened Lifecycles
  import opened Replay
  import opened Invariants
  import opened RunSafety

  // ---------------------------------------------------------------- service age

  /** The claim ordinal of the latest run of the current meaning, or the ordinal of the current binding. */
  function Age(c: Core, id: ObligationId, key: Option<Key>): nat
    requires id in c.bindingOrdinals
    requires forall r :: r in c.order ==> r in c.claimOrdinals
  {
    if key.Some? && LastCandidate(ViewOf(c), c.order, id, key.value).Some?
    then
      LastCandidateIs(ViewOf(c), c.order, id, key.value);
      c.claimOrdinals[LastCandidate(ViewOf(c), c.order, id, key.value).value]
    else c.bindingOrdinals[id]
  }

  /** Smaller (service age, id). */
  predicate Ahead(age: nat, id: ObligationId, otherAge: nat, other: ObligationId) {
    age < otherAge || (age == otherAge && Before(id, other))
  }

  /** May be claimed now: not a matter of judgment, startable, and in conflict with nothing it is unordered with. */
  ghost predicate Claimable(c: Core, lives: Realizations, id: ObligationId) {
    && id in c.obligations && !c.obligations[id].post.OperatorJudgment?
    && (exists key :: Startable(lives, c.obligations[id], key))
    && forall other :: !ConflictingPair(c.obligations, id, other)
  }

  lemma ClaimableIff(c: Core, lives: Realizations, id: ObligationId)
    requires id in c.obligations
    ensures Claimability(ViewOf(c), lives, id).Ok? <==> Claimable(c, lives, id)
  {
    hide Prerequisites, Startable, DependsOn;
    var work := c.obligations[id];
    forall key ensures Prerequisites(lives, work) == Ok(key) <==> Startable(lives, work, key) { PrerequisitesIff(lives, work, key); }
    forall other ensures other in c.obligations || !ConflictingPair(c.obligations, id, other) { }
  }

  /** What ties the ages together: every obligation has a binding ordinal, every run a claim ordinal. */
  ghost predicate Aged(c: Core) {
    c.bindingOrdinals.Keys == c.obligations.Keys && forall r :: r in c.order ==> r in c.claimOrdinals
  }

  function KeyIn(lives: Realizations, id: ObligationId): Option<Key> { if id in lives then lives[id].key else None }

  ghost predicate IsReadyWork(c: Core, lives: Realizations, id: ObligationId)
    requires Aged(c)
  {
    && Claimable(c, lives, id)
    && forall other :: other != id && Claimable(c, lives, other) ==>
         Ahead(Age(c, id, KeyIn(lives, id)), id, Age(c, other, KeyIn(lives, other)), other)
  }

  lemma AheadTransitive(a1: nat, i1: ObligationId, a2: nat, i2: ObligationId, a3: nat, i3: ObligationId)
    requires Ahead(a1, i1, a2, i2) && Ahead(a2, i2, a3, i3)
    ensures Ahead(a1, i1, a3, i3)
  {
    if a1 == a2 == a3 { BeforeTransitive(i1, i2, i3); }
  }

  /** `readyWork`: the claimable obligation with the smallest (service age, id). */
  method ReadyWork(c: Core, lives: Realizations) returns (best: Option<ObligationId>)
    requires Aged(c)
    ensures best.Some? ==> IsReadyWork(c, lives, best.value)
    ensures best.None? ==> forall id :: !Claimable(c, lives, id)
  {
    hide Claimability, Age, Startable, ConflictingPair;
    best := None;
    var left := c.obligations.Keys;
    while left != {}
      invariant left <= c.obligations.Keys
      invariant best.None? ==> forall id :: id in c.obligations && id !in left ==> !Claimable(c, lives, id)
      invariant best.Some? ==> best.value !in left && Claimable(c, lives, best.value)
      invariant best.Some? ==> forall other :: other in c.obligations && other !in left && other != best.value && Claimable(c, lives, other) ==>
        Ahead(Age(c, best.value, KeyIn(lives, best.value)), best.value, Age(c, other, KeyIn(lives, other)), other)
      decreases |left|
    {
      var id :| id in left;
      ClaimableIff(c, lives, id);
      if Claimability(ViewOf(c), lives, id).Ok? {
        if best.None? {
          best := Some(id);
        } else {
          var age, bestAge := Age(c, id, KeyIn(lives, id)), Age(c, best.value, KeyIn(lives, best.value));
          BeforeTotal(id, best.value);
          if Ahead(age, id, bestAge, best.value) {
            forall other | other in c.obligations && other !in left && other != best.value && Claimable(c, lives, other)
              ensures Ahead(age, id, Age(c, other, KeyIn(lives, other)), other)
            {
              AheadTransitive(age, id, bestAge, best.value, Age(c, other, KeyIn(lives, other)), other);
            }
            best := Some(id);
          }
        }
      }
      left := left - {id};
    }
  }

  // ---------------------------------------------------------------- how one record changes an age

  lemma {:induction false} SameCandidates(v: View, w: View, order: seq<RunId>, id: ObligationId, key: Key)
    requires forall r :: r in order ==> (Candidate(v, r, id, key) <==> Candidate(w, r, id, key))
    ensures LastCandidate(w, order, id, key) == LastCandidate(v, order, id, key)
    decreases |order|
  {
    if order != [] { SameCandidates(v, w, order[..|order| - 1], id, key); }
  }

  /** The record claims this obligation under this meaning. */
  predicate Serves(r: Record, id: ObligationId, key: Option<Key>) {
    r.claim.Some? && r.claim.value.obligationId == id && key == Some(r.claim.value.key)
  }

  /** The claim ordinal of the latest run of a meaning, if it was ever claimed. */
  function LastService(c: Core, id: ObligationId, key: Option<Key>): Option<nat>
    requires forall r :: r in c.order ==> r in c.claimOrdinals
  {
    if key.Some? && LastCandidate(ViewOf(c), c.order, id, key.value).Some?
    then
      LastCandidateIs(ViewOf(c), c.order, id, key.value);
      Some(c.claimOrdinals[LastCandidate(ViewOf(c), c.order, id, key.value).value])
    else None
  }

  ghost predicate Ordered(c: Core) {
    (forall r :: r in c.order ==> r in c.claimOrdinals && r in c.runs) && RunsNamed(c.runs)
  }

  lemma ClaimService(c: Core, r: Record, id: ObligationId, key: Option<Key>)
    requires Ordered(c) && AfterClaim(c, r).Ok?
    ensures Ordered(AfterClaim(c, r).value) ==>
      LastService(AfterClaim(c, r).value, id, key) == if Serves(r, id, key) then Some(c.ordinal) else LastService(c, id, key)
  {
    hide Lives, Prerequisites, LastCandidate;
    if key.Some? && r.claim.Some? {
      var c' := AfterClaim(c, r).value;
      WithRunCandidate(c, c', r.claim.value.runId, id, key.value);
      LastCandidateIs(ViewOf(c), c.order, id, key.value);
      LastCandidateIs(ViewOf(c'), c'.order, id, key.value);
    }
  }

  lemma WithRunCandidate(c: Core, c': Core, run: RunId, id: ObligationId, key: Key)
    requires (forall r :: r in c.order ==> r in c.runs) && run !in c.runs
    requires c'.order == c.order + [run] && run in c'.runs && c'.runs == c.runs[run := c'.runs[run]]
    ensures LastCandidate(ViewOf(c'), c'.order, id, key) ==
      if Candidate(ViewOf(c'), run, id, key) then Some(run) else LastCandidate(ViewOf(c), c.order, id, key)
  {
    assert c'.order[..|c'.order| - 1] == c.order;
    SameCandidates(ViewOf(c), ViewOf(c'), c.order, id, key);
  }

  lemma AuthorityService(c: Core, r: Record, id: ObligationId, key: Option<Key>)
    requires Ordered(c) && AfterAuthority(c, r).Ok?
    ensures Ordered(AfterAuthority(c, r).value) ==> LastService(AfterAuthority(c, r).value, id, key) == LastService(c, id, key)
  {
    hide Lives, AuthorityStep, LastCandidate;
    if key.Some? && r.authority.Some? {
      var c' := AfterAuthority(c, r).value;
      AuthorityStepIs(c, Lives(ViewOf(c)), r, r.authority.value);
      AuthorityOrder(c, Lives(ViewOf(c)), r, r.authority.value);
      SameCandidates(ViewOf(c), ViewOf(c'), c.order, id, key.value);
    }
  }

  lemma AuthorityOrder(c: Core, now: Refreshed, r: Record, fact: Authority)
    requires AuthorityStep(c, now, r, fact).Ok?
    ensures AuthorityStep(c, now, r, fact).value.order == c.order && AuthorityStep(c, now, r, fact).value.claimOrdinals == c.claimOrdinals
  {
  }

  lemma SameService(c: Core, c': Core, id: ObligationId, key: Option<Key>)
    requires Ordered(c) && Ordered(c') && c'.runs == c.runs && c'.order == c.order && c'.claimOrdinals == c.claimOrdinals
    ensures LastService(c', id, key) == LastService(c, id, key)
  {
    if key.Some? { SameCandidates(ViewOf(c), ViewOf(c'), c.order, id, key.value); }
  }

  lemma ReservationOrder(c: Core, r: Record)
    requires AfterReservation(c, r).Ok?
    ensures AfterReservation(c, r).value.order == c.order && AfterReservation(c, r).value.claimOrdinals == c.claimOrdinals
  {
    hide Lives;
  }

  lemma ReleaseOrder(o: Oracle, c: Core, r: Record)
    requires AfterRelease(o, c, r).Ok?
    ensures AfterRelease(o, c, r).value.order == c.order && AfterRelease(o, c, r).value.claimOrdinals == c.claimOrdinals
  {
    hide Lives, WitnessSafe;
  }

  lemma ReceiptOrder(o: Oracle, c: Core, r: Record)
    requires AfterReceipt(o, c, r).Ok?
    ensures AfterReceipt(o, c, r).value.order == c.order && AfterReceipt(o, c, r).value.claimOrdinals == c.claimOrdinals
  {
    hide Lives, ReceiptRejection, ProjectReceipt;
  }

  lemma RunsOrdered(c: Core)
    requires RunsInv(c)
    ensures Ordered(c)
  {
  }

  /** A record changes the last service of a meaning only by claiming it. */
  lemma StepService(o: Oracle, c: Core, r: Record, id: ObligationId, key: Option<Key>)
    requires Inv(c) && Step(o, c, r).Ok?
    ensures Ordered(c) && Ordered(Step(o, c, r).value)
    ensures LastService(Step(o, c, r).value, id, key) == if Serves(r, id, key) then Some(c.ordinal + 1) else LastService(c, id, key)
  {
    hide Step, AfterPatch, AfterClaim, AfterAuthority, AfterReservation, AfterRelease, AfterReceipt, RunsInv, StateInv, LastService, Ordered;
    var c' := Step(o, c, r).value;
    var c1, c2, c3, c4, c5 := Stages(o, c, r);
    StepKeeps(o, c, r);
    BumpKeeps(c);
    AfterPatchKeeps(Bump(c), r);
    AfterClaimKeeps(c1, r);
    AfterAuthorityKeeps(c2, r);
    StateNamed(c1);
    AfterReservationKeeps(c3, r);
    AfterReleaseKeeps(o, c4, r);
    RunsOrdered(c); RunsOrdered(c1); RunsOrdered(c2); RunsOrdered(c3); RunsOrdered(c4); RunsOrdered(c5); RunsOrdered(c');
    SameService(c, c1, id, key);
    ClaimService(c1, r, id, key);
    AuthorityService(c2, r, id, key);
    ReservationOrder(c3, r); ReleaseOrder(o, c4, r); ReceiptOrder(o, c5, r);
    LateRuns(o, c3, c4, c5, r);
    SameService(c3, c', id, key);
  }

  lemma LateRuns(o: Oracle, c3: Core, c4: Core, c5: Core, r: Record)
    requires RunsInv(c3) && RunsInv(c4) && RunsInv(c5)
    requires AfterReservation(c3, r) == Ok(c4) && AfterRelease(o, c4, r) == Ok(c5) && AfterReceipt(o, c5, r).Ok?
    ensures AfterReceipt(o, c5, r).value.runs == c3.runs
  {
    hide AfterReservation, AfterRelease, AfterReceipt, OrderInv, OneLiveRun, HeldOpen, HeldBound, RunsNamed;
    ReservationTables(c3, r);
    ReleaseTables(o, c4, r);
    ReceiptTables(o, c5, r);
  }
}
