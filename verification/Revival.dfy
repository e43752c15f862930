/** A concrete run in which a re-bound obligation passes over one that had nothing ahead of it. */
module Revival {
  import opened Facts
  import opened Graph
  import opened Lifecycles
  import opened Replay
  import opened Invariants
  import opened RunSafety
  import opened Engine
  import opened Writer
  import opened Counterexamples
  import opened Scheduling
  import opened Ordering
  import opened Bypass

  /** Every file is absent. */
  function Absence(): Oracle {
    Oracle((p, x) => Some(false), (p, x) => Some(LocalFileEnoent), e => false, (p, x) => false)
  }

  // ---------------------------------------------------------------- the states

  const First := Run("b", "B", "1", "2", FreeKey(FileWork), 1, "2", Sha("k"), None, FileWork, FileId)
  const FirstClaim := Claim("b", "B", "1", FreeKey(FileWork), Sha("k"))
  const Missing := ReceiptFor(First, ObservationKind, Some(Observation("")), Diagnostic(NoRefresh, None, ""))
  const Absent := Receipt(Missing, DispositionReady, false, "3")

  const FilePart := Introduced(FileId, DefinitionOf(FileWork))
  const StatusPart := Introduced(StatusId, DefinitionOf(StatusWork))

  const R0 := EmptyRecord("0", None)
  const R1 := EmptyRecord("1", Some("0")).(patch := Some(GraphPatch([FilePart], [Binding("B", FileId)], [])))
  const R2 := EmptyRecord("2", Some("1")).(claim := Some(FirstClaim))
  const R3 := EmptyRecord("3", Some("2")).(receipt := Some(Missing))
  const R4 := EmptyRecord("4", Some("3")).(patch := Some(GraphPatch([StatusPart], [Binding("A", StatusId)], ["B"])))
  const R5 := EmptyRecord("5", Some("4")).(patch := Some(GraphPatch([], [Binding("B", FileId)], [])))
  const R6 := EmptyRecord("6", Some("5")).(claim := Some(Claim("c", "B", "5", FreeKey(FileWork), Sha("k"))))

  const OnlyFile: map<DefinitionId, Definition> := map[FileId := DefinitionOf(FileWork)]
  const BothDefined: map<DefinitionId, Definition> := OnlyFile[StatusId := DefinitionOf(StatusWork)]

  const S0 := Bump(EmptyCore)
  const S1 := Core(map["B" := FileWork], map["B" := FileId], OnlyFile, [], map[], map[], map[], [], map["B" := 2], map[], 2)
  const S2 := WithRun(Bump(S1), First)
  const S3 := WithReceipt(Bump(S2), "b", Absent)
  const S4 := Bump(S3).(obligations := map["A" := StatusWork], definitionIds := map["A" := StatusId], definitions := BothDefined,
                        bindingOrdinals := map["A" := 5])
  const S5 := Bump(S4).(obligations := Obs, definitionIds := map["A" := StatusId, "B" := FileId], bindingOrdinals := map["A" := 5, "B" := 6])
  const S6 := WithRun(Bump(S5), Run("c", "B", "5", "6", FreeKey(FileWork), 1, "6", Sha("k"), None, FileWork, FileId))

  lemma Names()
    ensures "A" != "B" && "b" != "c"
    ensures ValidId("a") && ValidId("b") && ValidId("c") && ValidId("A") && ValidId("B") && ValidId("1") && ValidId("5")
  {
    Short("a", 'a'); Short("b", 'b'); Short("c", 'c'); Short("A", 'A'); Short("B", 'B'); Short("1", '1'); Short("5", '5');
    assert "A"[0] != "B"[0] && "b"[0] != "c"[0];
  }

  // ---------------------------------------------------------------- what is claimable

  /** Only the settled first run exists, and the graph is part of the two-obligation project. */
  ghost predicate Quiet(v: View) {
    && v.order == ["b"] && v.runs == map["b" := First] && v.latest == map["b" := Absent]
    && forall id :: id in v.obligations ==> id in Obs && v.obligations[id] == Obs[id]
  }

  lemma QuietLife(v: View, id: ObligationId)
    requires Quiet(v) && id in v.obligations
    ensures LifeFor(v, id, Some(FreeKey(v.obligations[id]))) == Lifecycle(Unrealized, None)
  {
    var key := FreeKey(v.obligations[id]);
    LastDoneIs(v, v.order, id, key);
    LastCandidateIs(v, v.order, id, key);
  }

  lemma QuietLives(v: View)
    requires Quiet(v)
    ensures Lives(v).Ok? && Lives(v).value.Keys == v.obligations.Keys && !HasInFlight(Lives(v).value)
    ensures forall id :: id in v.obligations ==>
      Lives(v).value[id] == Realization(Some(FreeKey(v.obligations[id])), Lifecycle(Unrealized, None))
  {
    hide Lives, LifeFor;
    ObsFree();
    FreeLives(v);
    forall id | id in v.obligations
      ensures Lives(v).value[id] == Realization(Some(FreeKey(v.obligations[id])), Lifecycle(Unrealized, None))
    {
      QuietLife(v, id);
    }
  }

  lemma NoConflicts(obs: Obligations, id: ObligationId)
    requires forall x :: x in obs ==> x in Obs && obs[x] == Obs[x]
    ensures !HasConflict(obs, id)
  {
    hide DependsOn;
    Names();
    forall other | other in obs ensures !ConflictingPair(obs, id, other) { }
  }

  lemma QuietClaimable(c: Core, id: ObligationId)
    requires Quiet(ViewOf(c)) && id in c.obligations
    ensures ClaimableAfter(c, id) && KeyAfter(c, id) == Some(FreeKey(c.obligations[id]))
  {
    hide Lives, HasConflict, Claimable;
    QuietLives(ViewOf(c));
    NoConflicts(c.obligations, id);
    assert c.obligations[id].dependencies == [] && c.obligations[id].id == id by { ObsFree(); }
    ClaimableIff(c, Lives(ViewOf(c)).value, id);
  }

  // ---------------------------------------------------------------- the records are accepted

  lemma OnlyOne(obs: Obligations, id: ObligationId)
    requires obs.Keys == {id} && obs[id].dependencies == []
    ensures ValidGraph(obs)
  {
    assert Ready(obs, {}) == {id};
    assert Ready(obs, {id}) == {};
    assert {} + Ready(obs, {}) == {id};
    assert Peel(obs, {id}) == {id};
  }

  lemma BindOnly(c: Core, b: Binding)
    requires b.definitionId in c.definitions
    ensures BindAll(c, [b]) == Ok(WithBinding(c, b)) && Nodes([b]) == [b.node]
  {
    assert [b] == [b] + [];
    BindOne(c, b, []);
    assert [b][1..] == [];
  }

  lemma IntroduceOnly(c: Core, d: Introduced)
    requires d.id !in c.definitions
    ensures IntroduceAll(c, [d]) == Ok(c.(definitions := c.definitions[d.id := d.definition])) && IntroducedIds([d]) == [d.id]
  {
    assert [d] == [d] + [];
    IntroduceOne(c, d, []);
    assert [d][1..] == [];
  }

  lemma RetireOne(c: Core, id: ObligationId)
    requires id in c.obligations
    ensures RetireAll(c, [id]) == Ok(c.(obligations := c.obligations - {id}, definitionIds := c.definitionIds - {id},
                                        bindingOrdinals := c.bindingOrdinals - {id}))
  {
    assert [id][1..] == [];
  }

  lemma PatchesValid()
    ensures PatchError(R1.patch.value).None? && PatchError(R4.patch.value).None? && PatchError(R5.patch.value).None?
  {
    Names();
    IntroduceOnly(EmptyCore, FilePart);
    IntroduceOnly(EmptyCore, StatusPart);
    assert Nodes([Binding("A", StatusId)]) + ["B"] == ["A", "B"] by { BindOnly(Patched, Binding("A", StatusId)); }
    assert Nodes([Binding("B", FileId)]) + [] == ["B"] by { BindOnly(Patched, Binding("B", FileId)); }
  }

  lemma PatchTo(c: Core, now: Refreshed, p: GraphPatch, introduced: Core, retired: Core, bound: Core)
    requires now.Ok? && !HasInFlight(now.value) && PatchError(p).None?
    requires IntroduceAll(c, p.definitions) == Ok(introduced) && RetireAll(introduced, p.retire) == Ok(retired)
    requires BindAll(retired, p.bindings) == Ok(bound) && ValidGraph(bound.obligations)
    ensures PatchStep(c, now, p) == Ok(bound)
  {
    hide HasInFlight, PatchError, IntroduceAll, RetireAll, BindAll, ValidGraph;
  }

  lemma NothingRetired(c: Core)
    ensures RetireAll(c, []) == Ok(c) && IntroduceAll(c, []) == Ok(c)
  {
  }

  lemma InitialAccepted(o: Oracle)
    ensures Step(o, EmptyCore, R0) == Ok(S0)
  {
    hide Lives;
  }

  lemma FirstAccepted()
    ensures Step(Absence(), S0, R1) == Ok(S1)
  {
    hide Step, Lives, ValidGraph, BindAll, RetireAll, IntroduceAll, PatchStep, PatchError;
    var c := Bump(S0);
    var introduced := c.(definitions := OnlyFile);
    OnlyPatch(Absence(), S0, R1);
    assert ViewOf(S0) == ViewOf(EmptyCore);
    PatchesValid();
    EmptyLives();
    IntroduceOnly(c, FilePart);
    assert c.definitions[FileId := DefinitionOf(FileWork)] == OnlyFile;
    NothingRetired(introduced);
    BindOnly(introduced, Binding("B", FileId));
    assert WithBinding(introduced, Binding("B", FileId)) == S1;
    OnlyOne(S1.obligations, "B");
    PatchTo(c, Ok(map[]), R1.patch.value, introduced, introduced, S1);
  }

  lemma SecondAccepted()
    ensures Step(Absence(), S1, R2) == Ok(S2)
  {
    hide Step;
    Names();
    FreeClaim(Absence(), S1, R2, FirstClaim);
  }

  lemma FirstExecuting()
    ensures Lives(ViewOf(S2)).Ok? && CurrentIs(Lives(ViewOf(S2)).value, First, Executing)
  {
    hide Lives, LifeFor;
    FreeLives(ViewOf(S2));
    FirstLife();
  }

  lemma FirstLife()
    ensures LifeFor(ViewOf(S2), "B", Some(First.key)) == Lifecycle(Executing, Some("b"))
  {
    var v := ViewOf(S2);
    NoneDone(v, v.order, "B", First.key);
    assert v.order == ["b"] && v.runs["b"] == First && "b" !in v.latest;
    assert LastCandidate(v, v.order, "B", First.key) == Some("b");
  }

  lemma ThirdAccepted()
    ensures Step(Absence(), S2, R3) == Ok(S3)
  {
    hide Step, Lives;
    FirstExecuting();
    OnlyReceipt(Absence(), S2, R3);
  }

  const Introduced4 := Bump(S3).(definitions := BothDefined)
  const Retired4 := Introduced4.(obligations := map[], definitionIds := map[], bindingOrdinals := map[])

  lemma RetiredIs()
    ensures IntroduceAll(Bump(S3), [StatusPart]) == Ok(Introduced4) && RetireAll(Introduced4, ["B"]) == Ok(Retired4)
  {
    hide RetireAll, IntroduceAll;
    IntroduceOnly(Bump(S3), StatusPart);
    RetireOne(Introduced4, "B");
    assert S3.obligations - {"B"} == map[];
    assert S3.definitionIds - {"B"} == map[];
    assert S3.bindingOrdinals - {"B"} == map[];
  }

  lemma QuietS3()
    ensures Quiet(ViewOf(S3))
  {
    assert S3.order == ["b"];
  }

  lemma FourthAccepted()
    ensures Step(Absence(), S3, R4) == Ok(S4)
  {
    hide Step, Lives, ValidGraph, BindAll, RetireAll, IntroduceAll, PatchStep, PatchError, HasInFlight, Quiet;
    OnlyPatch(Absence(), S3, R4);
    PatchesValid();
    QuietS3();
    QuietLives(ViewOf(S3));
    OnlyOne(S4.obligations, "A");
    RetiredIs();
    BindOnly(Retired4, Binding("A", StatusId));
    assert WithBinding(Retired4, Binding("A", StatusId)) == S4;
    PatchTo(Bump(S3), Lives(ViewOf(S3)), R4.patch.value, Introduced4, Retired4, S4);
  }

  lemma BoundAgain()
    ensures WithBinding(Bump(S4), Binding("B", FileId)) == S5
  {
    var c := WithBinding(Bump(S4), Binding("B", FileId));
    assert c.obligations == S5.obligations;
    assert c.definitionIds == S5.definitionIds;
    assert c.bindingOrdinals == S5.bindingOrdinals;
  }

  lemma FifthAccepted()
    ensures Step(Absence(), S4, R5) == Ok(S5)
  {
    hide Step, Lives, ValidGraph, BindAll, RetireAll, IntroduceAll, PatchStep, PatchError, HasInFlight, Quiet;
    OnlyPatch(Absence(), S4, R5);
    PatchesValid();
    QuietS4();
    QuietLives(ViewOf(S4));
    ObsFree();
    NothingRetired(Bump(S4));
    BindOnly(Bump(S4), Binding("B", FileId));
    BoundAgain();
    PatchTo(Bump(S4), Lives(ViewOf(S4)), R5.patch.value, Bump(S4), Bump(S4), S5);
  }

  lemma FreePrerequisites(lives: Realizations)
    requires "B" in lives && lives["B"] == Realization(Some(FreeKey(FileWork)), Lifecycle(Unrealized, None))
    ensures Prerequisites(lives, FileWork) == Ok(FreeKey(FileWork))
  {
  }

  lemma SixthAccepted()
    ensures Step(Absence(), S5, R6) == Ok(S6)
  {
    hide Step, Lives, Prerequisites, ValidId, Quiet, HasInFlight, Aged;
    Names();
    OnlyClaim(Absence(), S5, R6);
    QuietS5();
    QuietLives(ViewOf(S5));
    FreePrerequisites(Lives(ViewOf(S5)).value);
  }

  // ---------------------------------------------------------------- the bypass

  const Before5: seq<Record> := [R0, R1, R2, R3, R4]

  lemma FourAccepted()
    ensures Accepted(Absence(), Before5) && After(Absence(), Before5) == S4
  {
    hide Step;
    var o := Absence();
    InitialAccepted(o); FirstAccepted(); SecondAccepted(); ThirdAccepted(); FourthAccepted();
    Snoc(o, [], R0); Snoc(o, [R0], R1); Snoc(o, [R0, R1], R2); Snoc(o, [R0, R1, R2], R3); Snoc(o, [R0, R1, R2, R3], R4);
    assert [] + [R0] == [R0] && [R0] + [R1] == [R0, R1] && [R0, R1] + [R2] == [R0, R1, R2];
    assert [R0, R1, R2] + [R3] == [R0, R1, R2, R3] && [R0, R1, R2, R3] + [R4] == Before5;
  }

  lemma FiveAcceptedToo()
    ensures Accepted(Absence(), Before5 + [R5]) && After(Absence(), Before5 + [R5]) == S5
  {
    hide Step;
    FourAccepted();
    FifthAccepted();
    Snoc(Absence(), Before5, R5);
  }

  lemma QuietAge(c: Core, id: ObligationId)
    requires Quiet(ViewOf(c)) && Aged(c) && id in c.obligations && "B" != "A"
    ensures Age(c, id, Some(FreeKey(c.obligations[id]))) == if id == "B" then c.claimOrdinals["b"] else c.bindingOrdinals[id]
  {
    LastCandidateIs(ViewOf(c), c.order, id, FreeKey(c.obligations[id]));
    assert c.order[0] == "b" && (Candidate(ViewOf(c), "b", id, FreeKey(c.obligations[id])) <==> id == "B");
  }

  lemma QuietS5()
    ensures Quiet(ViewOf(S5)) && Aged(S5) && S5.claimOrdinals["b"] == 3 && S5.obligations == Obs
  {
    assert S5.order == ["b"];
    assert S5.claimOrdinals == map["b" := 3];
  }

  lemma OldAge()
    ensures Aged(S5) && Age(S5, "B", Some(FreeKey(FileWork))) == 3 && Age(S5, "A", Some(FreeKey(StatusWork))) == 5
  {
    hide Age, Quiet, Aged;
    Names();
    QuietS5();
    QuietAge(S5, "A");
    QuietAge(S5, "B");
  }

  lemma RevivedSelected()
    ensures Selects(S5, R6)
  {
    hide Lives, Age, Claimability, Quiet, Aged, HasInFlight;
    Names();
    OldAge();
    QuietS5();
    QuietLives(ViewOf(S5));
    QuietClaimable(S5, "A");
    QuietClaimable(S5, "B");
  }

  lemma NothingAhead()
    ensures Aged(S4) && "A" in S4.bindingOrdinals && AheadOf(S4, "A") == {}
  {
    hide Age, KeyAfter;
    BeforeTotal("A", "A");
    assert S4.bindingOrdinals.Keys == {"A"};
  }

  lemma QuietS4()
    ensures Quiet(ViewOf(S4)) && "A" in S4.obligations && S4.obligations["A"] == StatusWork && S4.bindingOrdinals == map["A" := 5]
  {
    assert S4.order == ["b"];
  }

  lemma KeptA()
    ensures ClaimableAfter(S4, "A") && ClaimableAfter(S5, "A") && Unchanged(S4, S4) && Unchanged(S4, S5)
  {
    hide ClaimableAfter, KeyAfter, Quiet;
    Names();
    QuietS4();
    QuietS5();
    QuietClaimable(S4, "A");
    QuietClaimable(S5, "A");
  }

  lemma KeptFromFour(k: nat)
    requires k <= 1
    ensures Accepted(Absence(), Before5 + [R5][..k])
    ensures ClaimableAfter(After(Absence(), Before5 + [R5][..k]), "A")
    ensures Unchanged(S4, After(Absence(), Before5 + [R5][..k]))
  {
    hide ClaimableAfter, Unchanged;
    FourAccepted();
    FiveAcceptedToo();
    KeptA();
    assert [R5][..1] == [R5] && [R5][..0] == [] && Before5 + [] == Before5;
  }

  /** The service-age bound fails for revivals: obligation A is claimable and has no obligation ahead of it, B is bound
      again after having been claimed and retired, and the next `readyWork` claim takes B. */
  lemma PassedWithNothingAhead()
    ensures Accepted(Absence(), Before5) && Accepted(Absence(), Before5 + [R5]) && PassedOver(Absence(), Before5, [R5], "A")
    ensures Aged(After(Absence(), Before5)) && "A" in After(Absence(), Before5).bindingOrdinals
    ensures AheadOf(After(Absence(), Before5), "A") == {}
    ensures Selects(After(Absence(), Before5 + [R5]), R6) && R6.claim.value.obligationId == "B"
    ensures Step(Absence(), After(Absence(), Before5 + [R5]), R6).Ok?
  {
    hide Step, Selects, ClaimableAfter, Unchanged, AheadOf, Aged;
    FourAccepted();
    FiveAcceptedToo();
    SixthAccepted();
    RevivedSelected();
    NothingAhead();
    forall k {:trigger [R5][..k]} | 0 <= k <= |[R5]|
      ensures && Accepted(Absence(), Before5 + [R5][..k])
              && ClaimableAfter(After(Absence(), Before5 + [R5][..k]), "A")
              && Unchanged(After(Absence(), Before5), After(Absence(), Before5 + [R5][..k]))
    {
      KeptFromFour(k);
    }
  }

  // ---------------------------------------------------------------- every record is a writer's

  /** The record is what an honest command decides on the projection of the state it is appended to. */
  ghost predicate WriterMakes(c: Core, r: Record, cmd: Command) {
    && Lives(ViewOf(c)).Ok? && r.parent.Some? && Honest(c, cmd)
    && var decided := Decide(Absence(), c, Lives(ViewOf(c)).value, r.parent.value, cmd);
       decided.Ok? && r == Stamp(decided.value, r.commit, r.parent)
  }

  lemma PlanOne(c: Core, work: Obligation)
    requires work.id !in c.definitionIds
    ensures var id := Sha(DefinitionOf(work));
      PlanUpserts(c, [work]) == Plan(if id in c.definitions then [] else [Introduced(id, DefinitionOf(work))], [Binding(work.id, id)])
    ensures Ids([work]) == [work.id]
  {
    assert [work][..0] == [];
    assert PlanUpserts(c, []) == Plan([], []) && Ids([]) == [];
  }

  lemma PlannedOne(obs: Obligations, b: Binding)
    ensures PlannedObligations(obs, [b]) == obs[b.node := Materialize(b.node, b.definitionId.preimage)]
  {
    assert [b][..0] == [];
    assert PlannedObligations(obs, []) == obs;
  }

  lemma PartAdmissible(obs: Obligations)
    requires (forall id :: id in obs ==> id in Obs && obs[id] == Obs[id]) && ValidGraph(obs)
    ensures Admissible(obs)
  {
    hide HasConflict, ValidGraph;
    ObsFree();
    forall id ensures !HasConflict(obs, id) { NoConflicts(obs, id); }
  }

  /** A patch of one new obligation, retiring others. */
  lemma PatchDecided(c: Core, lives: Realizations, work: Obligation, retire: seq<ObligationId>, after: Obligations)
    requires work.id !in c.definitionIds && !HasInFlight(lives) && work.id != "" && '\0' !in work.id
    requires "" !in [work.id] + retire && NoRepeats([work.id] + retire) && forall id :: id in retire ==> id in c.obligations
    requires c.obligations[work.id := work] - (set id | id in retire) == after && Admissible(after)
    ensures var id := Sha(DefinitionOf(work));
      DecidePatch(c, lives, [work], retire) ==
        Ok(Blank.(patch := Some(GraphPatch(if id in c.definitions then [] else [Introduced(id, DefinitionOf(work))], [Binding(work.id, id)], retire))))
    ensures Honest(c, PatchGraph([work], retire))
  {
    hide HasInFlight, Admissible, PlanUpserts, PlannedObligations, Ids, NoRepeats;
    PlanOne(c, work);
    PlannedOne(c.obligations, Binding(work.id, Sha(DefinitionOf(work))));
  }

  lemma PatchMade(c: Core, r: Record, work: Obligation, retire: seq<ObligationId>, after: Obligations)
    requires Lives(ViewOf(c)).Ok? && !HasInFlight(Lives(ViewOf(c)).value)
    requires work.id !in c.definitionIds && work.id != "" && '\0' !in work.id
    requires "" !in [work.id] + retire && NoRepeats([work.id] + retire) && forall id :: id in retire ==> id in c.obligations
    requires c.obligations[work.id := work] - (set id | id in retire) == after && Admissible(after)
    requires r.parent.Some? && var id := Sha(DefinitionOf(work));
      r == EmptyRecord(r.commit, r.parent).(patch := Some(GraphPatch(
             if id in c.definitions then [] else [Introduced(id, DefinitionOf(work))], [Binding(work.id, id)], retire)))
    ensures WriterMakes(c, r, PatchGraph([work], retire))
  {
    hide Lives, HasInFlight, Admissible, DecidePatch, Honest, NoRepeats;
    PatchDecided(c, Lives(ViewOf(c)).value, work, retire, after);
  }

  lemma FirstWritten()
    ensures WriterMakes(S0, R1, PatchGraph([FileWork], []))
  {
    hide Lives, HasInFlight, Admissible, WriterMakes;
    Names();
    EmptyLives();
    assert ViewOf(S0) == ViewOf(EmptyCore);
    NoneInFlight();
    var after: Obligations := map["B" := FileWork];
    OnlyOne(after, "B");
    PartAdmissible(after);
    assert ["B"] + [] == ["B"];
    assert S0.obligations["B" := FileWork] - (set id | id in []) == after;
    PatchMade(S0, R1, FileWork, [], after);
  }

  lemma NoneInFlight()
    ensures !HasInFlight(map[])
  {
  }

  lemma Rearranged()
    ensures S3.obligations["A" := StatusWork] - (set id | id in ["B"]) == S4.obligations
    ensures S4.obligations["B" := FileWork] - (set id | id in []) == Obs
    ensures NoRepeats(["A"] + ["B"]) && "" !in ["A"] + ["B"] && NoRepeats(["B"] + []) && "" !in ["B"] + []
  {
    Names();
    assert ["A"] + ["B"] == ["A", "B"] && ["B"] + [] == ["B"];
  }

  lemma FourthWritten()
    ensures WriterMakes(S3, R4, PatchGraph([StatusWork], ["B"]))
  {
    hide Lives, HasInFlight, Admissible, WriterMakes, Quiet, NoRepeats, ValidGraph;
    Names();
    QuietS3();
    QuietLives(ViewOf(S3));
    OnlyOne(S4.obligations, "A");
    PartAdmissible(S4.obligations);
    Rearranged();
    PatchMade(S3, R4, StatusWork, ["B"], S4.obligations);
  }

  lemma FifthWritten()
    ensures WriterMakes(S4, R5, PatchGraph([FileWork], []))
  {
    hide Lives, HasInFlight, Admissible, WriterMakes, Quiet, NoRepeats, ValidGraph;
    Names();
    QuietS4();
    QuietLives(ViewOf(S4));
    ObsFree();
    PartAdmissible(Obs);
    Rearranged();
    PatchMade(S4, R5, FileWork, [], Obs);
  }

  lemma SecondWritten()
    ensures WriterMakes(S1, R2, ClaimWork("B", "1", "b", "k", None))
  {
    hide Lives, HasConflict;
    Names();
    FreeLives(ViewOf(S1));
    NoneDone(ViewOf(S1), S1.order, "B", FreeKey(FileWork));
    NoConflicts(S1.obligations, "B");
  }

  const PermitB := Permit("b", "B", "1", "2", FreeKey(FileWork), 1, "2", Sha("k"), "k")

  lemma ThirdWritten()
    ensures WriterMakes(S2, R3, Resolve(PermitB, Observation(""), Diagnostic(NoRefresh, None, "")))
  {
    hide Lives;
    FirstExecuting();
  }

  lemma SixthWritten()
    ensures WriterMakes(S5, R6, ClaimWork("B", "5", "c", "k", None))
  {
    hide Lives, Claimability;
    Names();
    SixthClaimable();
  }

  lemma SixthClaimable()
    ensures Lives(ViewOf(S5)).Ok? && Claimability(ViewOf(S5), Lives(ViewOf(S5)).value, "B") == Ok(FreeKey(FileWork))
  {
    hide Lives, HasConflict, Quiet;
    QuietS5();
    QuietLives(ViewOf(S5));
    NoConflicts(S5.obligations, "B");
    FreePrerequisites(Lives(ViewOf(S5)).value);
  }

  /** After the initial commit, every record of the run is one an honest writer decides at the head it is appended to. */
  lemma WritersMakeTheRun()
    ensures R0 == Stamp(Blank, "0", None)
    ensures WriterMakes(S0, R1, PatchGraph([FileWork], [])) && WriterMakes(S1, R2, ClaimWork("B", "1", "b", "k", None))
    ensures WriterMakes(S2, R3, Resolve(PermitB, Observation(""), Diagnostic(NoRefresh, None, "")))
    ensures WriterMakes(S3, R4, PatchGraph([StatusWork], ["B"])) && WriterMakes(S4, R5, PatchGraph([FileWork], []))
    ensures WriterMakes(S5, R6, ClaimWork("B", "5", "c", "k", None))
  {
    hide WriterMakes;
    FirstWritten();
    SecondWritten();
    ThirdWritten();
    FourthWritten();
    FifthWritten();
    SixthWritten();
  }
}
