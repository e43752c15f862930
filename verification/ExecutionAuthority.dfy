/** Who may write for a run: only the holder of the secret given out last (src/authority/transaction-admission.ts:15-39,
    src/authority/engine.ts:284-439, 798-921). */
module ExecutionAuthority {
  import opened Facts
  import opened Adapter
  import opened Lifecycles
  import opened Replay
  import opened Invariants
  import opened RunSafety
  import opened Engine
  import opened Writer
  import opened Protocol
  import opened Scheduling
  import opened Statuses
  import opened Acceptance
  import opened Decisions

  // ---------------------------------------------------------------- the grants of a history

  /** Execution authority as a record gives it out: the digest of a secret, under a generation, by a commit. */
  datatype Grant = Grant(capability: Digest<string>, generation: nat, commit: CommitId)

  predicate Claims(r: Record, run: RunId) { r.claim.Some? && r.claim.value.runId == run }

  predicate Grants(r: Record, run: RunId) { Claims(r, run) || Rotates(r, run) }

  function GrantIn(r: Record, run: RunId): Grant
    requires Grants(r, run)
  {
    if Rotates(r, run) then Grant(r.authority.value.capability, r.authority.value.generation, r.commit)
    else Grant(r.claim.value.capability, 1, r.commit)
  }

  /** The last record that claims or rotates the run. */
  function LastGrant(history: seq<Record>, run: RunId): Option<nat> {
    if history == [] then None
    else if Grants(history[|history| - 1], run) then Some(|history| - 1)
    else LastGrant(history[..|history| - 1], run)
  }

  lemma {:induction false} LastGrantIs(history: seq<Record>, run: RunId)
    ensures LastGrant(history, run).Some? ==>
      var k := LastGrant(history, run).value;
      k < |history| && Grants(history[k], run) && forall i :: k < i < |history| ==> !Grants(history[i], run)
    ensures LastGrant(history, run).None? ==> forall i :: 0 <= i < |history| ==> !Grants(history[i], run)
    decreases |history|
  {
    if history != [] {
      var n := |history| - 1;
      LastGrantIs(history[..n], run);
      forall i | 0 <= i < n ensures history[..n][i] == history[i] { }
    }
  }

  /** The record claimed the run, for the obligation as this state binds it. */
  ghost predicate OpenedBy(c: Core, id: RunId, r: Record) {
    && id in c.runs && Claims(r, id)
    && var run, claim := c.runs[id], r.claim.value;
       && run.id == id && run.claimCommit == r.commit && run.obligationId == claim.obligationId
       && run.claimedRevision == claim.claimedRevision && run.key == claim.key
       && run.sourceRevision == (if r.sourceRevision.Some? then Some(r.sourceRevision.value.revision) else None)
       && claim.obligationId in c.obligations && run.obligation == c.obligations[claim.obligationId]
       && claim.obligationId in c.definitionIds && run.definitionId == c.definitionIds[claim.obligationId]
  }

  /** Everything about a run but its authority. */
  predicate SameClaim(a: Run, b: Run) {
    b == a.(generation := b.generation, authorityCommit := b.authorityCommit, capability := b.capability)
  }

  // ---------------------------------------------------------------- a run's authority is its last grant

  lemma ClaimRuns(c: Core, r: Record)
    requires AfterClaim(c, r).Ok?
    ensures r.claim.None? ==> AfterClaim(c, r).value.runs == c.runs
    ensures r.claim.Some? ==>
      && r.claim.value.runId !in c.runs && r.claim.value.obligationId in c.obligations && r.claim.value.obligationId in c.definitionIds
      && AfterClaim(c, r).value.runs == c.runs[r.claim.value.runId := ClaimedRun(c, r, r.claim.value)]
  {
    hide Lives, Prerequisites, ValidId;
  }

  lemma AuthorityRuns(c: Core, r: Record)
    requires RunsNamed(c.runs) && AfterAuthority(c, r).Ok?
    ensures r.authority.None? ==> AfterAuthority(c, r).value.runs == c.runs
    ensures r.authority.Some? ==>
      && r.authority.value.runId in c.runs
      && AfterAuthority(c, r).value.runs == c.runs[r.authority.value.runId := Rotated(c.runs[r.authority.value.runId], r, r.authority.value)]
  {
    hide Lives, AuthorityStep, RunsNamed;
    if r.authority.Some? { AuthorityStepIs(c, Lives(ViewOf(c)), r, r.authority.value); }
  }

  /** The runs a record leaves: its claim adds one, then its rotation rewrites one. */
  lemma StagedRuns(o: Oracle, c: Core, r: Record) returns (c1: Core, c2: Core)
    requires Inv(c) && Step(o, c, r).Ok?
    ensures AfterPatch(Bump(c), r) == Ok(c1) && Inv(c1) && c1.runs == c.runs && RunsNamed(c1.runs) && RunsNamed(c2.runs)
    ensures c1.obligations == Step(o, c, r).value.obligations && c1.definitionIds == Step(o, c, r).value.definitionIds
    ensures r.claim.None? ==> c2.runs == c1.runs
    ensures r.claim.Some? ==>
      && r.claim.value.runId !in c1.runs && r.claim.value.obligationId in c1.obligations && r.claim.value.obligationId in c1.definitionIds
      && c2.runs == c1.runs[r.claim.value.runId := ClaimedRun(c1, r, r.claim.value)]
    ensures r.authority.None? ==> Step(o, c, r).value.runs == c2.runs
    ensures r.authority.Some? ==>
      && r.authority.value.runId in c2.runs
      && Step(o, c, r).value.runs == c2.runs[r.authority.value.runId := Rotated(c2.runs[r.authority.value.runId], r, r.authority.value)]
  {
    hide Step, AfterPatch, AfterClaim, AfterAuthority, AfterReservation, AfterRelease, AfterReceipt, OrderInv, OneLiveRun, HeldOpen, HeldBound, StateInv;
    var c3, c4, c5;
    c1, c2, c3, c4, c5 := Stages(o, c, r);
    BumpKeeps(c);
    AfterPatchKeeps(Bump(c), r);
    AfterClaimKeeps(c1, r);
    ClaimRuns(c1, r);
    AuthorityRuns(c2, r);
    ReservationTables(c3, r);
    ReleaseTables(o, c4, r);
    ReceiptTables(o, c5, r);
    AfterAuthorityKeeps(c2, r);
    SameNames(c1, c3);
    AfterReservationKeeps(c3, r);
    SameNames(c1, c4);
    AfterReleaseKeeps(o, c4, r);
    SameNames(c1, c5);
    AfterReceiptKeeps(o, c5, r);
  }

  lemma SameNames(c: Core, c': Core)
    requires Inv(c) && c'.obligations == c.obligations
    ensures Named(c'.obligations)
  {
    StateNamed(c);
  }

  /** A record changes a run's authority exactly by granting it, and its claim never. */
  lemma StepGrants(o: Oracle, c: Core, r: Record, run: RunId)
    requires Inv(c) && Step(o, c, r).Ok?
    ensures run in Step(o, c, r).value.runs <==> run in c.runs || Claims(r, run)
    ensures Claims(r, run) ==> run !in c.runs && OpenedBy(Step(o, c, r).value, run, r)
    ensures Grants(r, run) ==>
      && run in Step(o, c, r).value.runs
      && var x := Step(o, c, r).value.runs[run]; Grant(x.capability, x.generation, x.authorityCommit) == GrantIn(r, run)
    ensures run in c.runs ==>
      var x, y := c.runs[run], Step(o, c, r).value.runs[run];
      (!Grants(r, run) ==> y == x) && SameClaim(x, y)
  {
    hide Step, Inv;
    var c1, c2 := StagedRuns(o, c, r);
  }

  /** The run was claimed by record `k`, and is as that claim opened it but for its authority. */
  ghost predicate ClaimedAt(o: Oracle, history: seq<Record>, run: RunId, k: nat)
    requires Accepted(o, history) && k < |history|
  {
    && Accepted(o, history[..k + 1]) && OpenedBy(After(o, history[..k + 1]), run, history[k])
    && run in After(o, history).runs && SameClaim(After(o, history[..k + 1]).runs[run], After(o, history).runs[run])
  }

  lemma ClaimedStays(o: Oracle, history: seq<Record>, run: RunId, k: nat)
    requires Accepted(o, history) && k + 1 < |history|
    requires var n := |history| - 1;
      && Accepted(o, history[..n]) && ClaimedAt(o, history[..n], run, k)
      && run in After(o, history).runs && SameClaim(After(o, history[..n]).runs[run], After(o, history).runs[run])
    ensures ClaimedAt(o, history, run, k)
  {
    hide Accepted, After, OpenedBy;
    assert history[..|history| - 1][..k + 1] == history[..k + 1] && history[..|history| - 1][k] == history[k];
  }

  lemma ClaimedNow(o: Oracle, history: seq<Record>, run: RunId)
    requires Accepted(o, history) && history != [] && OpenedBy(After(o, history), run, history[|history| - 1])
    ensures ClaimedAt(o, history, run, |history| - 1)
  {
    hide Accepted, After;
    assert history[..|history|] == history;
  }

  /** Over every accepted history, a run exists exactly if it was claimed, and its capability, generation and authority commit are
      those of the last claim or rotation of it. */
  lemma {:induction false} AuthorityIsLastGrant(o: Oracle, history: seq<Record>, run: RunId)
    requires Accepted(o, history)
    ensures run in After(o, history).runs <==> LastGrant(history, run).Some?
    ensures run in After(o, history).runs ==>
      var x, k := After(o, history).runs[run], LastGrant(history, run).value;
      k < |history| && Grants(history[k], run) && Grant(x.capability, x.generation, x.authorityCommit) == GrantIn(history[k], run)
    ensures run in After(o, history).runs ==> exists k :: 0 <= k < |history| && ClaimedAt(o, history, run, k)
    decreases |history|
  {
    hide Step, Inv, OpenedBy, SameClaim;
    if history != [] {
      var n := |history| - 1;
      assert [] + history == history && [] + history[..n] == history[..n];
      LastOf(o, [], history);
      AuthorityIsLastGrant(o, history[..n], run);
      StepGrants(o, After(o, history[..n]), history[n], run);
      if run in After(o, history[..n]).runs {
        var k :| 0 <= k < n && ClaimedAt(o, history[..n], run, k);
        ClaimedStays(o, history, run, k);
      } else if Claims(history[n], run) {
        ClaimedNow(o, history, run);
      }
    }
  }

  // ---------------------------------------------------------------- writing needs the last secret

  /** The permit a command presents. */
  function PermitOf(cmd: Command): Option<Permit> {
    match cmd
    case Reserve(p) => Some(p)
    case ReleaseReservation(p, _, _, _) => Some(p)
    case Resolve(p, _, _) => Some(p)
    case Defer(p, _) => Some(p)
    case Terminate(p, _) => Some(p)
    case RetrySource(p, _) => Some(p)
    case IntegrateSource(p, _) => Some(p)
    case _ => None
  }

  /** A command that presents a permit decides to write only with the run's own. */
  lemma WritesNeedPermit(o: Oracle, c: Core, lives: Realizations, head: CommitId, cmd: Command)
    requires Inv(c) && Projects(c, lives) && Decide(o, c, lives, head, cmd).Ok? && PermitOf(cmd).Some?
    ensures HoldsPermit(c, PermitOf(cmd).value)
  {
    hide HoldsPermit, Inv, Lives, DecideReserve, DecideRelease, DecideResolve, DecideSettle, MeansNow, IsExecuting, IsOpen;
    match cmd
    case Reserve(p) => ReserveDecidedIff(c, lives, p);
    case ReleaseReservation(p, contract, w, diagnostic) => ReleaseDecidedIff(o, c, lives, p, contract, w, diagnostic);
    case Resolve(p, observed, diagnostic) => ResolveDecidedIff(o, c, lives, p, observed, diagnostic);
    case Defer(p, diagnostic) => SettleDecidedIff(o, c, lives, p, JudgmentRequiredKind, diagnostic);
    case Terminate(p, diagnostic) => SettleDecidedIff(o, c, lives, p, TerminatedKind, diagnostic);
    case RetrySource(p, diagnostic) => SettleDecidedIff(o, c, lives, p, SourceRetryKind, diagnostic);
    case IntegrateSource(p, evidence) =>
      IntegrateDecidedIff(o, c, lives, p, evidence);
      SettleDecidedIff(o, c, lives, p, SourceIntegrationKind, Diagnostic(NoRefresh, Some(evidence), ""));
    case _ =>
  }

  /** Over every accepted history: whoever decides to write for a run presents the secret, the generation and the commit of the
      last claim or rotation of that run, and the claim that opened it. */
  lemma {:induction false} WritesNeedLastSecret(o: Oracle, history: seq<Record>, lives: Realizations, head: CommitId, cmd: Command)
    requires Accepted(o, history) && Projects(After(o, history), lives)
    requires Decide(o, After(o, history), lives, head, cmd).Ok? && PermitOf(cmd).Some?
    ensures var p := PermitOf(cmd).value; var k := LastGrant(history, p.id);
      && k.Some? && k.value < |history| && Grants(history[k.value], p.id)
      && Grant(Sha(p.capability), p.generation, p.authorityCommit) == GrantIn(history[k.value], p.id)
      && exists i :: 0 <= i < |history| && Claims(history[i], p.id) && p.claimCommit == history[i].commit
           && p.obligationId == history[i].claim.value.obligationId && p.claimedRevision == history[i].claim.value.claimedRevision
           && p.key == history[i].claim.value.key
  {
    hide Decide, Inv, Lives, Accepted, After;
    var c, p := After(o, history), PermitOf(cmd).value;
    assert Inv(c) by { InvAfter(o, history); }
    WritesNeedPermit(o, c, lives, head, cmd);
    AuthorityIsLastGrant(o, history, p.id);
    var i :| 0 <= i < |history| && ClaimedAt(o, history, p.id, i);
    assert Claims(history[i], p.id);
  }

  lemma InvAfter(o: Oracle, history: seq<Record>)
    requires Accepted(o, history)
    ensures Inv(After(o, history))
  {
    HistoryInv(o, history);
  }

  lemma RunsAreNamed(c: Core)
    requires Inv(c)
    ensures RunsNamed(c.runs)
  {
  }

  // ---------------------------------------------------------------- in every behaviour

  /** The record is this command's decision, at the head it was appended to. */
  ghost predicate MadeBy(o: Oracle, log: seq<Record>, n: nat, cmd: Command)
    requires n < |log|
  {
    0 < n && exists draft :: DecidedBy(o, log[..n], draft, cmd) && log[n] == Stamp(draft, log[n].commit, HeadOf(log[..n]))
  }

  /** The secret a command gives out. */
  function SecretOf(cmd: Command): Option<string> {
    match cmd
    case ClaimWork(_, _, _, secret, _) => Some(secret)
    case Acquire(_, secret) => Some(secret)
    case _ => None
  }

  /** The record acts on a run with an executor's authority: a reservation, a release, or a receipt that is not a refresh. */
  predicate ActsFor(r: Record, run: RunId) {
    || Reserves(r, run)
    || (r.release.Some? && r.release.value.runId == run)
    || (r.receipt.Some? && r.receipt.value.runId == run && r.receipt.value.diagnostic.refresh == NoRefresh)
  }

  /** Only a claim and an acquisition give out authority, by the digest of their secret. */
  lemma DraftGrants(o: Oracle, c: Core, lives: Realizations, head: CommitId, cmd: Command, run: RunId)
    requires Decide(o, c, lives, head, cmd).Ok? && Grants(Decide(o, c, lives, head, cmd).value, run)
    ensures SecretOf(cmd).Some? && GrantIn(Decide(o, c, lives, head, cmd).value, run).capability == Sha(SecretOf(cmd).value)
  {
    hide ProjectReceipt, WitnessSafe, Claimability, Admissible, PlanUpserts, PlannedObligations, Ids, NoRepeats, HasInFlight, CurrentIs, CurrentRun;
  }

  /** Only a command with the run's permit acts for it. */
  lemma DraftActs(o: Oracle, c: Core, lives: Realizations, head: CommitId, cmd: Command, run: RunId)
    requires RunsNamed(c.runs) && Decide(o, c, lives, head, cmd).Ok? && ActsFor(Decide(o, c, lives, head, cmd).value, run)
    ensures PermitOf(cmd).Some? && PermitOf(cmd).value.id == run
  {
    hide ProjectReceipt, WitnessSafe, Claimability, Admissible, PlanUpserts, PlannedObligations, Ids, NoRepeats, HasInFlight, CurrentIs, CurrentRun;
  }

  /** Only a claim command claims, and only what can be claimed. */
  lemma DraftClaims(o: Oracle, c: Core, lives: Realizations, head: CommitId, cmd: Command)
    requires Inv(c) && Projects(c, lives) && Decide(o, c, lives, head, cmd).Ok? && Decide(o, c, lives, head, cmd).value.claim.Some?
    ensures cmd.ClaimWork? && Decide(o, c, lives, head, cmd).value.patch.None?
    ensures Decide(o, c, lives, head, cmd).value.claim.value.obligationId == cmd.id && Claimable(c, lives, cmd.id)
  {
    hide ProjectReceipt, WitnessSafe, Claimability, Claimable, Admissible, PlanUpserts, PlannedObligations, Ids, NoRepeats, HasInFlight, Inv, Lives, CurrentIs, CurrentRun;
    if cmd.ClaimWork? { ClaimDecidedIff(c, lives, head, cmd.id, cmd.expected, cmd.runId, cmd.secret, cmd.source); }
  }

  lemma DraftStamped(r: Record, draft: Record, run: RunId)
    requires r == Stamp(draft, r.commit, r.parent)
    ensures Grants(r, run) <==> Grants(draft, run)
    ensures Grants(r, run) ==> GrantIn(r, run).capability == GrantIn(draft, run).capability
    ensures ActsFor(r, run) <==> ActsFor(draft, run)
    ensures r.claim == draft.claim && r.patch == draft.patch
  {
  }

  /** The decision behind a made record. */
  lemma Decision(o: Oracle, log: seq<Record>, n: nat, cmd: Command) returns (c: Core, lives: Realizations, head: CommitId, draft: Record)
    requires n < |log| && Protocol.Written(o, log[..n]) && MadeBy(o, log, n, cmd)
    ensures Accepted(o, log[..n]) && c == After(o, log[..n]) && Inv(c) && Lives(ViewOf(c)) == Ok(lives) && Projects(c, lives)
    ensures Decide(o, c, lives, head, cmd) == Ok(draft) && log[n] == Stamp(draft, log[n].commit, log[n].parent)
  {
    hide Decide, Honest, Fold, Lives, Admissible, SettlementsHex, Inv, Solves;
    draft :| DecidedBy(o, log[..n], draft, cmd) && log[n] == Stamp(draft, log[n].commit, HeadOf(log[..n]));
    c := After(o, log[..n]);
    lives := Lives(ViewOf(c)).value;
    head := HeadOf(log[..n]).value;
    LivesSolve(ViewOf(c));
  }

  /** A record that grants or acts was made by a command. */
  lemma HasMaker(o: Oracle, log: seq<Record>, n: nat) returns (cmd: Command)
    requires n < |log| && Made(o, log, n) && log[n] != Stamp(Blank, log[n].commit, log[n].parent)
    ensures MadeBy(o, log, n, cmd)
  {
    hide Decide, Honest, Fold, Lives;
    var draft :| Decided(o, log[..n], draft) && log[n] == Stamp(draft, log[n].commit, HeadOf(log[..n]));
    assert n > 0;
    cmd :| DecidedBy(o, log[..n], draft, cmd);
  }

  lemma NotBlank(r: Record, run: RunId)
    requires ActsFor(r, run) || Grants(r, run) || r.claim.Some?
    ensures r != Stamp(Blank, r.commit, r.parent)
  {
  }

  /** Whoever made a record that acts for a run presented the secret that the maker of the run's last grant gave out. */
  lemma SecretsMatch(o: Oracle, log: seq<Record>, j: nat, n: nat, run: RunId, giver: Command, cmd: Command)
    requires j < n < |log| && Protocol.Written(o, log[..n]) && Protocol.Written(o, log[..j])
    requires ActsFor(log[n], run) && LastGrant(log[..n], run) == Some(j) && Grants(log[j], run)
    requires MadeBy(o, log, j, giver) && MadeBy(o, log, n, cmd)
    ensures PermitOf(cmd).Some? && PermitOf(cmd).value.id == run
    ensures SecretOf(giver) == Some(PermitOf(cmd).value.capability)
  {
    hide Decide, Protocol.Written, MadeBy, Inv, Lives, Accepted, After, Grants, ActsFor, Claimable, LastGrant, GrantIn, Solves, Projects;
    var c, lives, head, draft := Decision(o, log, n, cmd);
    DraftStamped(log[n], draft, run);
    RunsAreNamed(c);
    DraftActs(o, c, lives, head, cmd, run);
    WritesNeedLastSecret(o, log[..n], lives, head, cmd);
    var c', lives', head', draft' := Decision(o, log, j, giver);
    DraftStamped(log[j], draft', run);
    DraftGrants(o, c', lives', head', giver, run);
    assert log[..n][j] == log[j];
  }

  /** In every behaviour, only the secret given to the last claim or acquisition of a run can write for it: every record that
      reserves, releases or settles the run has such a grant before it, has a maker, and every possible maker presented the
      very secret that every possible maker of that grant gave out. */
  lemma {:induction false} OnlyTheLastSecretWrites(o: Oracle, trace: seq<System>, k: nat, n: nat, run: RunId)
    requires Behavior(o, trace) && k < |trace| && n < |trace[k].log| && ActsFor(trace[k].log[n], run)
    ensures var log := trace[k].log;
      && (exists cmd :: MadeBy(o, log, n, cmd))
      && (exists j :: 0 <= j < n && Grants(log[j], run) && (forall i :: j < i < n ==> !Grants(log[i], run)) && (exists giver :: MadeBy(o, log, j, giver))
           && forall giver, cmd :: MadeBy(o, log, j, giver) && MadeBy(o, log, n, cmd) ==>
                && PermitOf(cmd).Some? && PermitOf(cmd).value.id == run
                && SecretOf(giver) == Some(PermitOf(cmd).value.capability))
  {
    hide Behavior, Protocol.Written, Made, MadeBy, Decide, Inv, Lives, Accepted, After, Grants, ActsFor, LastGrant;
    var log := trace[k].log;
    EveryRecordMade(o, trace, k, n);
    NotBlank(log[n], run);
    var cmd := HasMaker(o, log, n);
    var j := GrantBefore(o, log, n, run, cmd);
    EveryRecordMade(o, trace, k, j);
    NotBlank(log[j], run);
    var giver := HasMaker(o, log, j);
    forall giver, cmd | MadeBy(o, log, j, giver) && MadeBy(o, log, n, cmd)
      ensures PermitOf(cmd).Some? && PermitOf(cmd).value.id == run && SecretOf(giver) == Some(PermitOf(cmd).value.capability)
    {
      SecretsMatch(o, log, j, n, run, giver, cmd);
    }
  }

  lemma GrantBefore(o: Oracle, log: seq<Record>, n: nat, run: RunId, cmd: Command) returns (j: nat)
    requires n < |log| && Protocol.Written(o, log[..n]) && ActsFor(log[n], run) && MadeBy(o, log, n, cmd)
    ensures j < n && LastGrant(log[..n], run) == Some(j) && Grants(log[j], run) && forall i :: j < i < n ==> !Grants(log[i], run)
  {
    hide Decide, Protocol.Written, MadeBy, Inv, Lives, Accepted, After, Grants, ActsFor, Claimable, LastGrant, GrantIn, Solves, Projects;
    var c, lives, head, draft := Decision(o, log, n, cmd);
    DraftStamped(log[n], draft, run);
    RunsAreNamed(c);
    DraftActs(o, c, lives, head, cmd, run);
    WritesNeedLastSecret(o, log[..n], lives, head, cmd);
    j := LastGrant(log[..n], run).value;
    LastGrantIs(log[..n], run);
    forall i | j < i < n ensures !Grants(log[i], run) { assert log[..n][i] == log[i]; }
  }

  /** In every behaviour, every claim ever recorded was of an obligation that could be claimed at the head it was appended to:
      unrealized, everything it depends on DONE, not left to the operator, in conflict with nothing unordered; and it names
      that obligation's meaning, a new run and that head. */
  lemma {:induction false} EveryClaimWasClaimable(o: Oracle, trace: seq<System>, k: nat, n: nat)
    requires Behavior(o, trace) && k < |trace| && n < |trace[k].log| && trace[k].log[n].claim.Some?
    ensures var log := trace[k].log;
      && Accepted(o, log[..n]) && Lives(ViewOf(After(o, log[..n]))).Ok?
      && MayClaim(After(o, log[..n]), log[n], log[n].claim.value)
      && Claimable(After(o, log[..n]), Lives(ViewOf(After(o, log[..n]))).value, log[n].claim.value.obligationId)
  {
    hide Behavior, Protocol.Written, Made, MadeBy, Decide, Inv, Lives, Grants, ActsFor, Claimable, MayClaim, Solves, Projects;
    var log := trace[k].log;
    EveryRecordMade(o, trace, k, n);
    NotBlank(log[n], "");
    var cmd := HasMaker(o, log, n);
    var c, lives, head, draft := Decision(o, log, n, cmd);
    DraftStamped(log[n], draft, "");
    DraftClaims(o, c, lives, head, cmd);
    HistoryClaimsStartable(o, log, n);
  }
}
