/** What every accepted receipt settles its run as (src/authority/replay.ts:88-133, 353-432). */
module Settlements {
  import opened Facts
  import opened Adapter
  import opened Lifecycles
  import opened Replay
  import opened Invariants
  import opened RunSafety

  /** A reservation of the run is unresolved when the record's receipt is read. */
  predicate HeldAtReceipt(c: Core, r: Record, run: RunId) {
    (run in c.unresolved || Reserves(r, run)) && !(r.release.Some? && r.release.value.runId == run)
  }

  /** The observation shows, by evidence its postcondition accepts, that the effect is absent. */
  predicate ShowsAbsence(o: Oracle, post: Postcondition, observed: Observation) {
    || (post.FileContent? && o.absence(post, observed) == Some(LocalFileEnoent))
    || (post.ConfigMapExists? && o.absence(post, observed) == Some(CompleteListAbsence))
  }

  /** The receipt of an observation. */
  ghost predicate Observes(o: Oracle, work: Obligation, held: bool, receipt: Receipt) {
    var observed := receipt.fact.observed;
    && observed.Some? && o.verified(work.post, observed.value) == Some(receipt.verified)
    && (receipt.disposition == DispositionDone <==> receipt.verified)
    && (receipt.disposition == DispositionReady <==> !receipt.verified && !held && ShowsAbsence(o, work.post, observed.value))
    && (receipt.disposition == DispositionRecovery <==> !receipt.verified && (held || !ShowsAbsence(o, work.post, observed.value)))
  }

  /** The receipt of anything else. */
  predicate Declares(receipt: Receipt) {
    && receipt.fact.observed.None? && (receipt.verified <==> receipt.disposition == DispositionDone)
    && receipt.disposition == match receipt.fact.kind
       case JudgmentRequiredKind => DispositionWaiting
       case TerminatedKind => DispositionRecovery
       case SourceIntegrationKind => DispositionDone
       case _ => DispositionReady
  }

  lemma ProjectedIs(o: Oracle, fact: ReceiptFact, work: Obligation, settlement: CommitId, held: bool, released: bool)
    requires ProjectReceipt(o, fact, work, settlement, held, released).Ok? && (fact.kind == NotDispatchedKind ==> released)
    ensures var receipt := ProjectReceipt(o, fact, work, settlement, held, released).value;
      && receipt.fact == fact && receipt.settlement == settlement
      && (fact.kind == ObservationKind ==> Observes(o, work, held, receipt))
      && (fact.kind != ObservationKind ==> Declares(receipt))
  {
    hide ReplaySafe;
    forall kind ensures !ReplaySafe(Registry, work, kind) { RegistryForbidsReplay(work, kind); }
  }

  lemma ReceiptIs(o: Oracle, c: Core, r: Record)
    requires RunsNamed(c.runs) && AfterReceipt(o, c, r).Ok? && r.receipt.Some?
    ensures var run := r.receipt.value.runId; var receipt := AfterReceipt(o, c, r).value.latest[run];
      && run in c.runs && receipt.fact == r.receipt.value && receipt.settlement == r.commit
      && (receipt.fact.kind == ObservationKind ==> Observes(o, c.runs[run].obligation, run in c.unresolved, receipt))
      && (receipt.fact.kind != ObservationKind ==> Declares(receipt))
      && AfterReceipt(o, c, r).value.receipts == c.receipts + [receipt]
  {
    hide Lives, ProjectReceipt, ReceiptStep, Observes, Declares, RunsNamed;
    var fact := r.receipt.value;
    ReceivedIs(o, c, Lives(ViewOf(c)), r, fact, r.release.Some?);
    ProjectedIs(o, fact, c.runs[fact.runId].obligation, r.commit, fact.runId in c.unresolved, r.release.Some?);
  }

  /** An accepted receipt is projected for its run; one that says nothing was dispatched comes with a release. */
  lemma ReceivedIs(o: Oracle, c: Core, now: Refreshed, r: Record, fact: ReceiptFact, released: bool)
    requires RunsNamed(c.runs) && ReceiptStep(o, c, now, r, fact, released).Ok?
    ensures fact.runId in c.runs && (fact.kind == NotDispatchedKind ==> released)
    ensures var receipt := ProjectReceipt(o, fact, c.runs[fact.runId].obligation, r.commit, fact.runId in c.unresolved, released);
      receipt.Ok? && ReceiptStep(o, c, now, r, fact, released).value == WithReceipt(c, fact.runId, receipt.value)
  {
    hide ProjectReceipt, HexCommit, RefreshMatches;
  }

  /** Every receipt an accepted record carries settles its run by its kind and by what it observed, and is recorded last. */
  lemma SettledAs(o: Oracle, c: Core, r: Record)
    requires Inv(c) && Step(o, c, r).Ok? && r.receipt.Some?
    ensures var c', run := Step(o, c, r).value, r.receipt.value.runId;
      && run in c'.runs && run in c'.latest
      && var receipt := c'.latest[run];
         && receipt.fact == r.receipt.value && receipt.settlement == r.commit
         && (receipt.fact.kind == ObservationKind ==> Observes(o, c'.runs[run].obligation, HeldAtReceipt(c, r, run), receipt))
         && (receipt.fact.kind != ObservationKind ==> Declares(receipt))
         && c'.receipts != [] && c'.receipts[|c'.receipts| - 1] == receipt
  {
    hide Step, AfterReceipt, AfterRelease, AfterReservation, OrderInv, OneLiveRun, HeldOpen, HeldBound, RunsNamed, StateInv, Observes, Declares;
    var c3, c4, c5 := StageTables(o, c, r);
    ReservationTables(c3, r);
    ReleaseTables(o, c4, r);
    ReceiptTables(o, c5, r);
    ReceiptIs(o, c5, r);
  }

  lemma ClaimKeepsReceipts(c: Core, r: Record)
    requires AfterClaim(c, r).Ok?
    ensures AfterClaim(c, r).value.receipts == c.receipts
  {
    hide Lives, Prerequisites, ValidId;
  }

  lemma AuthorityKeepsReceipts(c: Core, r: Record)
    requires AfterAuthority(c, r).Ok?
    ensures AfterAuthority(c, r).value.receipts == c.receipts
  {
    hide Lives;
  }

  lemma ReservationKeepsReceipts(c: Core, r: Record)
    requires AfterReservation(c, r).Ok?
    ensures AfterReservation(c, r).value.receipts == c.receipts
  {
    hide Lives;
  }

  lemma ReleaseKeepsReceipts(o: Oracle, c: Core, r: Record)
    requires AfterRelease(o, c, r).Ok?
    ensures AfterRelease(o, c, r).value.receipts == c.receipts
  {
    hide Lives;
  }

  /** The receipts are kept in order, and only an accepted receipt adds one, which is then its run's latest. */
  lemma ReceiptsGrow(o: Oracle, c: Core, r: Record)
    requires Inv(c) && Step(o, c, r).Ok?
    ensures r.receipt.None? ==> Step(o, c, r).value.receipts == c.receipts
    ensures r.receipt.Some? ==>
      var c', run := Step(o, c, r).value, r.receipt.value.runId;
      && run in c'.latest && c'.receipts == c.receipts + [c'.latest[run]] && c'.latest[run].fact == r.receipt.value
      && c'.latest[run].settlement == r.commit && (r.receipt.value.observed.Some? ==> r.receipt.value.kind == ObservationKind)
  {
    hide Step, AfterPatch, AfterClaim, AfterAuthority, AfterReservation, AfterRelease, AfterReceipt, OrderInv, OneLiveRun, HeldOpen, HeldBound, StateInv, Observes;
    var c1, c2, c3, c4, c5 := Stages(o, c, r);
    BumpKeeps(c);
    AfterPatchKeeps(Bump(c), r);
    ClaimKeepsReceipts(c1, r);
    AuthorityKeepsReceipts(c2, r);
    ReservationKeepsReceipts(c3, r);
    ReleaseKeepsReceipts(o, c4, r);
    AfterClaimKeeps(c1, r);
    AfterAuthorityKeeps(c2, r);
    ReservationTables(c3, r);
    ReleaseTables(o, c4, r);
    ReceiptTables(o, c5, r);
    if r.receipt.Some? { ReceiptIs(o, c5, r); }
  }

  /** Over every accepted history, each receipt settled its run so when it was accepted. */
  lemma {:induction false} HistorySettledAs(o: Oracle, history: seq<Record>, k: nat)
    requires Accepted(o, history) && k < |history| && history[k].receipt.Some?
    ensures Accepted(o, history[..k]) && Accepted(o, history[..k + 1])
    ensures var c, c', run := After(o, history[..k]), After(o, history[..k + 1]), history[k].receipt.value.runId;
      && run in c'.runs && run in c'.latest
      && var receipt := c'.latest[run];
         && receipt.fact == history[k].receipt.value && receipt.settlement == history[k].commit
         && (receipt.fact.kind == ObservationKind ==> Observes(o, c'.runs[run].obligation, HeldAtReceipt(c, history[k], run), receipt))
         && (receipt.fact.kind != ObservationKind ==> Declares(receipt))
  {
    hide Step, Inv, Observes, Declares;
    assert history == history[..k + 1] + history[k + 1..];
    PrefixAccepted(o, history[..k + 1], history[k + 1..]);
    assert history[..k + 1] == history[..k] + [history[k]];
    Snoc(o, history[..k], history[k]);
    HistoryInv(o, history[..k]);
    SettledAs(o, After(o, history[..k]), history[k]);
  }

  /** An accepted refresh is an observation, and replaces exactly the DONE settlement that it names. */
  lemma RefreshReplaces(o: Oracle, c: Core, r: Record)
    requires Inv(c) && Step(o, c, r).Ok? && r.receipt.Some? && r.receipt.value.diagnostic.refresh != NoRefresh
    ensures var run := r.receipt.value.runId;
      && r.receipt.value.kind == ObservationKind && run in c.latest && c.latest[run].disposition == DispositionDone
      && r.receipt.value.diagnostic.refresh == RefreshOf(c.latest[run].settlement) && !HeldAtReceipt(c, r, run)
  {
    hide Step, AfterReceipt, AfterRelease, AfterReservation, OrderInv, OneLiveRun, HeldOpen, HeldBound, RunsNamed, StateInv;
    var c3, c4, c5 := StageTables(o, c, r);
    ReservationTables(c3, r);
    ReleaseTables(o, c4, r);
    RefreshedReceipt(o, c5, r);
  }

  lemma RefreshedReceipt(o: Oracle, c: Core, r: Record)
    requires RunsNamed(c.runs) && AfterReceipt(o, c, r).Ok? && r.receipt.Some? && r.receipt.value.diagnostic.refresh != NoRefresh
    ensures var run := r.receipt.value.runId;
      && r.receipt.value.kind == ObservationKind && run in c.latest && c.latest[run].disposition == DispositionDone
      && r.receipt.value.diagnostic.refresh == RefreshOf(c.latest[run].settlement) && run !in c.unresolved
  {
    hide Lives, ProjectReceipt, HexCommit;
  }
}
