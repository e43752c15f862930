/** Concrete inputs for which a promise fails outside its exact condition. */
module Counterexamples {
  import opened Facts
  import opened Graph
  import opened Adapter
  import opened Lifecycles
  import opened Replay
  import opened Invariants
  import opened RunSafety
  import opened Engine
  import opened Writer
  import opened Pairing

  // ---------------------------------------------------------------- obligations without dependencies

  predicate Free(obs: Obligations) { forall id :: id in obs ==> obs[id].dependencies == [] && obs[id].id == id }

  function FreeKey(work: Obligation): Key { Key(work.id, work.packet, work.post, multiset([])) }

  function FreeLife(v: View, id: ObligationId): Realization
    requires id in v.obligations
  {
    Realization(Some(FreeKey(v.obligations[id])), LifeFor(v, id, Some(FreeKey(v.obligations[id]))))
  }

  lemma FreeLives(v: View)
    requires Free(v.obligations)
    ensures Lives(v).Ok? && Lives(v).value.Keys == v.obligations.Keys
    ensures forall id :: id in v.obligations ==> Lives(v).value[id] == FreeLife(v, id)
  {
    hide LifeFor;
    forall id | id in v.obligations ensures Derive(v, id, {}) == Ok(FreeLife(v, id)) {
      assert v.obligations[id].dependencies == [];
    }
  }

  // ---------------------------------------------------------------- a project with two independent obligations

  const StatusWork := Obligation("A", [], Packet(false, Some(CommitStatusEffect), ""), CommitStatus(1, "o/r", "s", "c", "success"))
  const FileWork := Obligation("B", [], Packet(false, None, ""), FileContent("p", "x"))
  const StatusId := Sha(DefinitionOf(StatusWork))
  const FileId := Sha(DefinitionOf(FileWork))

  const Obs: Obligations := map["A" := StatusWork, "B" := FileWork]

  const TwoPatch := GraphPatch([Introduced(StatusId, DefinitionOf(StatusWork)), Introduced(FileId, DefinitionOf(FileWork))],
                               [Binding("A", StatusId), Binding("B", FileId)], [])

  const Patched := Core(Obs, map["A" := StatusId, "B" := FileId],
                        map[StatusId := DefinitionOf(StatusWork), FileId := DefinitionOf(FileWork)],
                        [], map[], map[], map[], [], map["A" := 1, "B" := 1], map[], 1)

  lemma ObsFree()
    ensures Free(Obs) && ValidGraph(Obs)
  {
    assert Ready(Obs, {}) == {"A", "B"};
    assert Ready(Obs, {"A", "B"}) == {};
    assert Peel(Obs, {"A", "B"}) == {"A", "B"};
  }

  lemma IntroduceOne(c: Core, d: Introduced, rest: seq<Introduced>)
    requires d.id !in c.definitions
    ensures IntroduceAll(c, [d] + rest) == IntroduceAll(c.(definitions := c.definitions[d.id := d.definition]), rest)
    ensures IntroduceAll(c, []) == Ok(c)
  {
    assert ([d] + rest)[1..] == rest;
  }

  lemma IntroduceTwo(c: Core, d: Introduced, e: Introduced)
    requires d.id !in c.definitions && e.id !in c.definitions && d.id != e.id
    ensures IntroduceAll(c, [d, e]) == Ok(c.(definitions := c.definitions[d.id := d.definition][e.id := e.definition]))
  {
    hide IntroduceAll;
    assert [d, e] == [d] + ([e] + []);
    var c1 := c.(definitions := c.definitions[d.id := d.definition]);
    IntroduceOne(c, d, [e] + []);
    IntroduceOne(c1, e, []);
    NothingIntroduced(c1.(definitions := c1.definitions[e.id := e.definition]));
  }

  lemma NothingIntroduced(c: Core)
    ensures IntroduceAll(c, []) == Ok(c) && BindAll(c, []) == Ok(c)
  {
  }

  function WithBinding(c: Core, b: Binding): Core
    requires b.definitionId in c.definitions
  {
    c.(obligations := c.obligations[b.node := Materialize(b.node, c.definitions[b.definitionId])],
       definitionIds := c.definitionIds[b.node := b.definitionId],
       bindingOrdinals := c.bindingOrdinals[b.node := c.ordinal])
  }

  lemma BindOne(c: Core, b: Binding, rest: seq<Binding>)
    requires b.definitionId in c.definitions
    ensures BindAll(c, [b] + rest) == BindAll(WithBinding(c, b), rest)
  {
    assert ([b] + rest)[1..] == rest;
  }

  lemma BindTwo(c: Core, a: Binding, b: Binding)
    requires a.definitionId in c.definitions && b.definitionId in c.definitions
    ensures BindAll(c, [a, b]) == Ok(WithBinding(WithBinding(c, a), b))
  {
    hide BindAll;
    assert [a, b] == [a] + ([b] + []);
    BindOne(c, a, [b] + []);
    BindOne(WithBinding(c, a), b, []);
    NothingIntroduced(WithBinding(WithBinding(c, a), b));
  }

  lemma TwoNames(a: Binding, b: Binding, d: Introduced, e: Introduced)
    ensures Nodes([a, b]) == [a.node, b.node] && IntroducedIds([d, e]) == [d.id, e.id]
  {
    assert [a, b][1..] == [b] && [d, e][1..] == [e];
    assert Nodes([b]) == [b.node] && IntroducedIds([e]) == [e.id];
  }

  lemma TwoPatchValid()
    ensures PatchError(TwoPatch).None?
  {
    TwoNames(TwoPatch.bindings[0], TwoPatch.bindings[1], TwoPatch.definitions[0], TwoPatch.definitions[1]);
    assert Nodes(TwoPatch.bindings) + TwoPatch.retire == ["A", "B"];
    assert "A"[0] == 'A' && "B"[0] == 'B';
  }

  lemma PatchedIs(o: Oracle)
    ensures Step(o, EmptyCore, EmptyRecord("1", None).(patch := Some(TwoPatch))) == Ok(Patched)
  {
    hide Step, Lives, PatchError, IntroduceAll, BindAll, ValidGraph;
    var r := EmptyRecord("1", None).(patch := Some(TwoPatch));
    OnlyPatch(o, EmptyCore, r);
    FreeLives(ViewOf(EmptyCore));
    TwoPatchValid();
    ObsFree();
    var c := Bump(EmptyCore);
    IntroduceTwo(c, TwoPatch.definitions[0], TwoPatch.definitions[1]);
    BindTwo(c.(definitions := Patched.definitions), TwoPatch.bindings[0], TwoPatch.bindings[1]);
  }

  // ---------------------------------------------------------------- two claimed runs

  const RunA := Run("a", "A", "1", "2", FreeKey(StatusWork), 1, "2", Sha("k"), None, StatusWork, StatusId)
  const RunB := Run("b", "B", "2", "3", FreeKey(FileWork), 1, "3", Sha("k"), None, FileWork, FileId)
  const ClaimA := Claim("a", "A", "1", FreeKey(StatusWork), Sha("k"))
  const ClaimB := Claim("b", "B", "2", FreeKey(FileWork), Sha("k"))
  const RecordA := EmptyRecord("2", Some("1")).(claim := Some(ClaimA))
  const RecordB := EmptyRecord("3", Some("2")).(claim := Some(ClaimB))
  const OneRun := WithRun(Bump(Patched), RunA)
  const TwoRuns := WithRun(Bump(OneRun), RunB)

  lemma {:induction false} NoneDone(v: View, order: seq<RunId>, id: ObligationId, key: Key)
    requires v.latest == map[]
    ensures LastDone(v, order, id, key) == None
    decreases |order|
  {
    if order != [] { NoneDone(v, order[..|order| - 1], id, key); }
  }

  /** An obligation without dependencies and without runs can be claimed. */
  lemma FreeClaim(o: Oracle, c: Core, r: Record, claim: Claim)
    requires r == Stamp(Blank.(claim := Some(claim)), r.commit, Some(claim.claimedRevision))
    requires Free(c.obligations) && claim.obligationId in c.obligations && claim.obligationId in c.definitionIds
    requires ValidId(claim.runId) && ValidId(claim.obligationId) && ValidId(claim.claimedRevision) && claim.runId !in c.runs
    requires claim.key == FreeKey(c.obligations[claim.obligationId])
    requires c.latest == map[] && forall run :: run in c.runs ==> c.runs[run].obligationId != claim.obligationId
    ensures Step(o, c, r) == Ok(WithRun(Bump(c), ClaimedRun(Bump(c), r, claim)))
  {
    hide Step, Lives;
    OnlyClaim(o, c, r);
    FreeLives(ViewOf(c));
    NoneDone(ViewOf(c), c.order, claim.obligationId, claim.key);
    LastCandidateIs(ViewOf(c), c.order, claim.obligationId, claim.key);
  }

  lemma Short(s: string, ch: char)
    requires s == [ch] && ch != '\0'
    ensures ValidId(s)
  {
  }

  lemma Claims(o: Oracle)
    ensures Step(o, Patched, RecordA) == Ok(OneRun) && Step(o, OneRun, RecordB) == Ok(TwoRuns)
  {
    hide Step;
    ObsFree();
    Short("a", 'a'); Short("b", 'b'); Short("A", 'A'); Short("B", 'B'); Short("1", '1'); Short("2", '2');
    FreeClaim(o, Patched, RecordA, ClaimA);
    FreeClaim(o, OneRun, RecordB, ClaimB);
  }

  const TwoView := ViewOf(TwoRuns)

  lemma LastOfTwo(v: View, a: RunId, b: RunId, id: ObligationId, key: Key)
    ensures LastCandidate(v, [a, b], id, key) ==
      if Candidate(v, b, id, key) then Some(b) else if Candidate(v, a, id, key) then Some(a) else None
  {
    assert [a, b][..1] == [a] && [a][..0] == [];
    assert LastCandidate(v, [a], id, key) == if Candidate(v, a, id, key) then Some(a) else None;
  }

  lemma TwoLast()
    ensures LastCandidate(TwoView, TwoView.order, "A", RunA.key) == Some("a") && LastCandidate(TwoView, TwoView.order, "B", RunB.key) == Some("b")
  {
    hide LastCandidate;
    assert TwoView.order == ["a", "b"];
    LastOfTwo(TwoView, "a", "b", "A", RunA.key);
    LastOfTwo(TwoView, "a", "b", "B", RunB.key);
    assert "A" != "B" by { assert "A"[0] != "B"[0]; }
  }

  lemma BothExecuting()
    ensures Lives(TwoView).Ok? && CurrentIs(Lives(TwoView).value, RunA, Executing) && CurrentIs(Lives(TwoView).value, RunB, Executing)
  {
    hide Lives, LastCandidate, LastDone;
    ObsFree();
    FreeLives(TwoView);
    NoneDone(TwoView, TwoView.order, "A", RunA.key);
    NoneDone(TwoView, TwoView.order, "B", RunB.key);
    TwoLast();
  }

  // ---------------------------------------------------------------- the mispaired release

  const ReserveA := EmptyRecord("4", None).(reservation := Some(Reservation("a", "A", 1, "2")))
  const Reserved := Bump(TwoRuns).(unresolved := map["a" := Held(Reservation("a", "A", 1, "2"), "4")])

  lemma ReservedIs(o: Oracle)
    ensures Step(o, TwoRuns, ReserveA) == Ok(Reserved)
  {
    hide Step, Lives;
    BothExecuting();
    OnlyReservation(o, TwoRuns, ReserveA);
    assert TwoRuns.unresolved == map[];
  }

  const Proof := Witness(FreshHttpsNotDispatched, "", Attempt("a", "A", 1, "2", "4", CommitStatusEffect), "")
  const ReleaseA := Release("a", "A", 1, "2", "4", CommitStatusEffect, FreshHttpsNotDispatched, Proof, Sha(Proof))
  const ReceiptB := ReceiptFor(RunB, NotDispatchedKind, None, Diagnostic(NoRefresh, None, ""))
  const Mispaired := EmptyRecord("5", None).(release := Some(ReleaseA), receipt := Some(ReceiptB))

  /** An oracle under which the witness of the counterexample is trusted. */
  function Trusting(): Oracle {
    Oracle((p, x) => Some(false), (p, x) => None, e => false, (p, x) => true)
  }

  lemma ProofSafe()
    ensures WitnessSafe(Trusting(), StatusWork, CommitStatusEffect, Proof)
  {
  }

  lemma ReleaseAccepted()
    ensures ReleaseStep(Trusting(), Bump(Reserved), Lives(TwoView), Mispaired, ReleaseA) == Ok(Bump(Reserved).(unresolved := map[]))
  {
    hide Lives, WitnessSafe;
    BothExecuting();
    ProofSafe();
    assert Reserved.unresolved - {"a"} == map[];
  }

  lemma MispairedAccepted()
    ensures Step(Trusting(), Reserved, Mispaired).Ok? && !Paired(Mispaired)
  {
    hide Step, Lives, ReleaseStep, ReceiptStep;
    BothExecuting();
    assert ViewOf(Reserved) == TwoView;
    OnlyRelease(Trusting(), Reserved, Mispaired);
    ReleaseAccepted();
    var released := Bump(Reserved).(unresolved := map[]);
    TwoNamed(released);
    ReleaseReceiptIff(Trusting(), released, Lives(TwoView).value, Mispaired, RunB, Diagnostic(NoRefresh, None, ""));
    assert "a" != "b" by { assert "a"[0] != "b"[0]; }
  }

  lemma TwoNamed(c: Core)
    requires c.runs == TwoRuns.runs
    ensures RunsNamed(c.runs)
  {
  }

  // ---------------------------------------------------------------- the whole history

  const Five: seq<Record> := [EmptyRecord("1", None).(patch := Some(TwoPatch)), RecordA, RecordB, ReserveA, Mispaired]

  lemma FiveAccepted()
    ensures Accepted(Trusting(), Five) && Accepted(Trusting(), Five[..4]) && After(Trusting(), Five[..4]) == Reserved
    ensures Step(Trusting(), Reserved, Mispaired) == Ok(After(Trusting(), Five))
  {
    hide Step;
    var o := Trusting();
    PatchedIs(o);
    Claims(o);
    ReservedIs(o);
    MispairedAccepted();
    Snoc(o, [], Five[0]);
    Snoc(o, Five[..1], Five[1]);
    Snoc(o, Five[..2], Five[2]);
    Snoc(o, Five[..3], Five[3]);
    Snoc(o, Five[..4], Five[4]);
    assert [] + [Five[0]] == Five[..1] && Five[..1] + [Five[1]] == Five[..2] && Five[..2] + [Five[2]] == Five[..3];
    assert Five[..3] + [Five[3]] == Five[..4] && Five[..4] + [Five[4]] == Five;
  }

  /** The reducer accepts a history in which one run reserves two effects: run `a` is released with run `b`'s receipt,
      and reserves again. */
  lemma TwoEffectsForOneRun() returns (history: seq<Record>)
    ensures Accepted(Trusting(), history) && ReservationsOf(history, "a") == 2
  {
    hide Step;
    var o := Trusting();
    FiveAccepted();
    HistoryInv(o, Five[..4]);
    var c := After(o, Five);
    NoPatchSameGraph(o, Reserved, Mispaired);
    MispairedAccepted();
    MispairedReopens(o, Reserved, Mispaired, "6");
    history := Five + [ReservationFor(c.runs["a"], "6")];
    Snoc(o, Five, history[5]);
    StageRuns(o);
    CountReservations(history);
  }

  lemma StageRuns(o: Oracle)
    requires o == Trusting()
    ensures Step(o, Reserved, Mispaired).Ok? && "a" in Step(o, Reserved, Mispaired).value.runs
    ensures Step(o, Reserved, Mispaired).value.runs["a"].id == "a"
  {
    hide Step, StateInv, OrderInv, OneLiveRun, HeldOpen, HeldBound;
    MispairedAccepted();
    FiveAccepted();
    HistoryInv(o, Five[..4]);
    StepKeeps(o, Reserved, Mispaired);
    StepGeneration(o, Reserved, Mispaired, "a");
  }

  lemma CountReservations(history: seq<Record>)
    requires |history| == 6 && history[..5] == Five && Reserves(history[5], "a")
    ensures ReservationsOf(history, "a") == 2
  {
    assert history[..5][..4] == Five[..4] && Five[..4][..3] == Five[..3] && Five[..3][..2] == Five[..2] && Five[..2][..1] == Five[..1];
    assert Five[..1][..0] == [];
    assert ReservationsOf(Five[..1], "a") == 0;
    assert ReservationsOf(Five[..2], "a") == 0;
    assert ReservationsOf(Five[..3], "a") == 0;
    assert ReservationsOf(Five[..4], "a") == 1;
    assert ReservationsOf(Five, "a") == 1;
  }

  // ---------------------------------------------------------------- a reservation ended by another run's release

  const HeldA := Held(Reservation("a", "A", 1, "2"), "4")
  const HeldB := Held(Reservation("b", "B", 1, "3"), "7")
  const ReserveB := EmptyRecord("7", None).(reservation := Some(HeldB.fact))
  const BothHeld := Bump(Reserved).(unresolved := map["a" := HeldA, "b" := HeldB])

  lemma BothHeldIs(o: Oracle)
    ensures Step(o, Reserved, ReserveB) == Ok(BothHeld)
  {
    hide Step, Lives;
    BothExecuting();
    OnlyReservation(o, Reserved, ReserveB);
    assert ViewOf(Reserved) == TwoView;
    assert "a" != "b" by { assert "a"[0] != "b"[0]; }
    assert Reserved.unresolved["b" := HeldB] == BothHeld.unresolved;
  }

  lemma ReleaseAcceptedToo()
    ensures ReleaseStep(Trusting(), Bump(BothHeld), Lives(TwoView), Mispaired, ReleaseA) == Ok(Bump(BothHeld).(unresolved := map["b" := HeldB]))
  {
    hide Lives, WitnessSafe;
    BothExecuting();
    ProofSafe();
    assert "a" != "b" by { assert "a"[0] != "b"[0]; }
    assert BothHeld.unresolved - {"a"} == map["b" := HeldB];
  }

  lemma MispairedAcceptedToo()
    ensures Step(Trusting(), BothHeld, Mispaired).Ok?
  {
    hide Step, Lives, ReleaseStep, ReceiptStep;
    BothExecuting();
    assert ViewOf(BothHeld) == TwoView;
    OnlyRelease(Trusting(), BothHeld, Mispaired);
    ReleaseAcceptedToo();
    var released := Bump(BothHeld).(unresolved := map["b" := HeldB]);
    TwoNamed(released);
    ReleaseReceiptIff(Trusting(), released, Lives(TwoView).value, Mispaired, RunB, Diagnostic(NoRefresh, None, ""));
  }

  /** The reducer accepts a record that ends run `b`'s reservation without a verified DONE and without a release of `b`: it
      releases run `a` and settles `b` as not dispatched. */
  lemma ReservationEndedByOther() returns (history: seq<Record>)
    ensures Accepted(Trusting(), history) && "b" in After(Trusting(), history).unresolved
    ensures Accepted(Trusting(), history + [Mispaired]) && "b" !in After(Trusting(), history + [Mispaired]).unresolved
    ensures !Resolves(Trusting(), After(Trusting(), history), Mispaired, "b", After(Trusting(), history).unresolved["b"])
  {
    hide Step, Resolves;
    var o := Trusting();
    FiveAccepted();
    BothHeldIs(o);
    history := Five[..4] + [ReserveB];
    Snoc(o, Five[..4], ReserveB);
    Snoc(o, history, Mispaired);
    MispairedAcceptedToo();
    HistoryInv(o, history);
    assert SettledByOther(Mispaired, "b") by { assert "a" != "b" by { assert "a"[0] != "b"[0]; } }
    BlindEndIffOther(o, BothHeld, Mispaired, "b");
  }

  // ---------------------------------------------------------------- decisions the reducer refuses

  const NulWork := Obligation("\0", [], Packet(false, None, ""), FileContent("p", "x"))
  const NulObs: Obligations := map["\0" := NulWork]

  lemma NulAdmissible()
    ensures Admissible(NulObs)
  {
    hide DependsOn;
    assert Ready(NulObs, {}) == {"\0"};
    assert Ready(NulObs, {"\0"}) == {};
    assert Peel(NulObs, {"\0"}) == {"\0"};
    assert {} + Ready(NulObs, {}) == {"\0"};
    assert ValidGraph(NulObs);
    assert forall id :: id in NulObs ==> EffectOf(NulObs[id].post).None?;
    forall id ensures !HasConflict(NulObs, id) { }
  }

  lemma NulPlanned()
    ensures PlanUpserts(EmptyCore, [NulWork]) ==
      Plan([Introduced(Sha(DefinitionOf(NulWork)), DefinitionOf(NulWork))], [Binding("\0", Sha(DefinitionOf(NulWork)))])
    ensures PlannedObligations(map[], PlanUpserts(EmptyCore, [NulWork]).bindings) == NulObs && Ids([NulWork]) == ["\0"]
  {
    assert [NulWork][..0] == [];
    assert PlanUpserts(EmptyCore, []) == Plan([], []);
    var bindings := [Binding("\0", Sha(DefinitionOf(NulWork)))];
    assert bindings[..0] == [];
    assert PlannedObligations(map[], []) == map[];
    assert Ids([]) == [];
  }

  lemma NulDecided()
    ensures DecidePatch(EmptyCore, map[], [NulWork], []).Ok?
  {
    hide Admissible, PlanUpserts, PlannedObligations, Ids;
    NulPlanned();
    NulAdmissible();
    assert Ids([NulWork]) + [] == ["\0"] && |"\0"| == 1;
    assert NulObs - (set id | id in []) == NulObs;
  }

  /** The writer patches in an obligation whose id holds a NUL, and the reducer refuses the record. */
  lemma NulIdRefused(o: Oracle, head: CommitId, commit: CommitId)
    ensures DecidePatch(EmptyCore, map[], [NulWork], []).Ok?
    ensures Step(o, EmptyCore, Stamp(DecidePatch(EmptyCore, map[], [NulWork], []).value, commit, Some(head))).Err?
  {
    hide Step, DecidePatch, PlanUpserts, Inv, Lives;
    NulDecided();
    EmptyInv();
    EmptyLives();
    NulPlanned();
    PatchRecordIff(o, EmptyCore, map[], head, commit, [NulWork], []);
    assert Binding("\0", Sha(DefinitionOf(NulWork))) in PlanUpserts(EmptyCore, [NulWork]).bindings;
    assert '\0' in "\0" by { assert "\0"[0] == '\0'; }
  }

  lemma EmptyLives()
    ensures Lives(ViewOf(EmptyCore)) == Ok(map[])
  {
    FreeLives(ViewOf(EmptyCore));
    assert Lives(ViewOf(EmptyCore)).value.Keys == {};
  }

  const PermitA := Permit("a", "A", "1", "2", FreeKey(StatusWork), 1, "2", Sha("k"), "k")
  const Misused := Diagnostic(MalformedRefresh, None, "")

  lemma MisusedDecided(lives: Realizations)
    requires Lives(TwoView) == Ok(lives)
    ensures DecideResolve(Trusting(), TwoRuns, lives, PermitA, Observation(""), Misused).Ok?
  {
    hide Lives;
    BothExecuting();
    assert TwoRuns.latest == map[] && TwoRuns.unresolved == map[];
  }

  /** The writer resolves a run with a diagnostic that uses the refresh key, and the reducer refuses the record. */
  lemma RefreshKeyRefused(head: CommitId, commit: CommitId) returns (lives: Realizations)
    ensures Lives(TwoView) == Ok(lives)
    ensures DecideResolve(Trusting(), TwoRuns, lives, PermitA, Observation(""), Misused).Ok?
    ensures Step(Trusting(), TwoRuns, Stamp(DecideResolve(Trusting(), TwoRuns, lives, PermitA, Observation(""), Misused).value, commit, Some(head))).Err?
  {
    hide Step, Lives, DecideResolve;
    BothExecuting();
    lives := Lives(TwoView).value;
    MisusedDecided(lives);
    TwoNamed(TwoRuns);
    ResolveAcceptedIff(Trusting(), TwoRuns, lives, head, commit, PermitA, Observation(""), Misused);
  }
}
