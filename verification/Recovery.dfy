/** Recovery over possible worlds (src/authority/recovery.ts:75-220, src/authority/settlement.ts). */
module Recovery {
  import opened Facts
  import opened RelationalExplanation

  datatype World = World(coordinate: string, outcome: Outcome)

  datatype SettlementRelations = SettlementRelations(
    assertsPostcondition: bool, supportsAcceptedAbsence: bool, supportsNotDispatched: bool,
    absenceRequiresReplaySafety: bool, supportsReplaySafety: bool)

  const RecoveryEvents: seq<RecoveryEvent> := [Reconcile, Retry, Settle]

  // ---------------------------------------------------------------- one world as relations

  /** `relationalWorld`. */
  function RelationalWorld(current: string, w: World): Input {
    Input({current, w.coordinate},
          map[ObserverNode := current, AuthorityNode := w.coordinate, EvidenceNode(w.outcome) := w.coordinate],
          map[EventNode(Reconcile) := current, EventNode(Retry) := current, EventNode(Settle) := current],
          map[RootNode(Reconcile) := current, RootNode(Retry) := current, RootNode(Settle) := current,
              OutcomeNode(PostconditionAsserted) := current, OutcomeNode(NotDispatchedOutcome) := current],
          [Edge(ObserverNode, EventNode(Reconcile)), Edge(AuthorityNode, EventNode(Retry)), Edge(AuthorityNode, EventNode(Settle))],
          [Edge(EvidenceNode(w.outcome), OutcomeNode(w.outcome))],
          [Edge(RootNode(Retry), OutcomeNode(NotDispatchedOutcome)), Edge(RootNode(Settle), OutcomeNode(PostconditionAsserted))])
  }

  /** What the design promises for one world. */
  predicate PermittedIn(current: string, w: World, event: RecoveryEvent) {
    match event
    case Reconcile => true
    case Retry => w.coordinate == current && w.outcome == NotDispatchedOutcome
    case Settle => w.coordinate == current && w.outcome == PostconditionAsserted
  }

  function Requirement(event: RecoveryEvent): set<NodeId> {
    match event
    case Reconcile => {}
    case Retry => {OutcomeNode(NotDispatchedOutcome)}
    case Settle => {OutcomeNode(PostconditionAsserted)}
  }

  lemma RequirementsAre(current: string, w: World, event: RecoveryEvent)
    ensures ClosureIs(RelationalWorld(current, w).requirements, RootNode(event), Requirement(event))
    ensures !Unclosable(RelationalWorld(current, w).requirements, RelationalWorld(current, w).propositions.Keys, RootNode(event))
  {
    hide Reaches;
    var edges := RelationalWorld(current, w).requirements;
    assert edges[0] in edges && edges[1] in edges;
    forall q ensures q in Requirement(event) <==> Reaches(edges, RootNode(event), q) {
      ReachedIsHeld(edges, RootNode(event), Requirement(event), q);
      if q in Requirement(event) { ReachesOne(edges, RootNode(event), q); }
    }
  }

  lemma WorldPlaced(current: string, w: World)
    ensures EverythingPlaced(RelationalWorld(current, w))
    ensures forall x, q :: Edge(x, q) in RelationalWorld(current, w).supports ==> x in RelationalWorld(current, w).objects
    ensures forall x, q :: Edge(x, q) in RelationalWorld(current, w).permits ==> x in RelationalWorld(current, w).objects
  {
  }

  lemma OutcomeSupported(current: string, w: World, outcome: Outcome)
    ensures var input := RelationalWorld(current, w);
      (exists x :: Backs(input.objects, input.supports, x, OutcomeNode(outcome), current)) <==> w.outcome == outcome && w.coordinate == current
  {
    var input := RelationalWorld(current, w);
    assert input.supports[0] in input.supports;
    if w.outcome == outcome && w.coordinate == current { assert Backs(input.objects, input.supports, EvidenceNode(outcome), OutcomeNode(outcome), current); }
  }

  lemma AuthorityAt(current: string, w: World, event: RecoveryEvent)
    ensures var input := RelationalWorld(current, w);
      (exists x :: Backs(input.objects, input.permits, x, EventNode(event), current)) <==> event == Reconcile || w.coordinate == current
  {
    var input := RelationalWorld(current, w);
    assert input.permits[0] in input.permits && input.permits[1] in input.permits && input.permits[2] in input.permits;
    if event == Reconcile { assert Backs(input.objects, input.permits, ObserverNode, EventNode(event), current); }
    if event != Reconcile && w.coordinate == current { assert Backs(input.objects, input.permits, AuthorityNode, EventNode(event), current); }
  }

  /** `explainRecoveryEvent` and `eventPermitted`: the explanation of one event in one world. */
  method EventPermitted(current: string, w: World, event: RecoveryEvent) returns (permitted: bool)
    ensures permitted <==> PermittedIn(current, w, event)
  {
    hide Reaches, Unclosable, EverythingPlaced, Backs, RelationalWorld;
    var input := RelationalWorld(current, w);
    WorldPlaced(current, w);
    RequirementsAre(current, w, event);
    WorldNodes(current, w, event);
    var result := ExplainRelationalEvent(input, EventNode(event), RootNode(event));
    var explanation := result.value;
    permitted := explanation.permittedBy != {} && forall q :: q in explanation.requirements ==> explanation.requirements[q] == Supported;
    AuthorityAt(current, w, event);
    OutcomeSupported(current, w, PostconditionAsserted);
    OutcomeSupported(current, w, NotDispatchedOutcome);
    assert forall q :: q in explanation.requirements <==> q in Requirement(event);
    match event
    case Reconcile => {}
    case Retry => { assert OutcomeNode(NotDispatchedOutcome) in explanation.requirements; }
    case Settle => { assert OutcomeNode(PostconditionAsserted) in explanation.requirements; }
  }

  lemma WorldNodes(current: string, w: World, event: RecoveryEvent)
    ensures var input := RelationalWorld(current, w);
      && EventNode(event) in input.events && input.events[EventNode(event)] == current && RootNode(event) in input.propositions
      && OutcomeNode(PostconditionAsserted) in input.propositions && input.propositions[OutcomeNode(PostconditionAsserted)] == current
      && OutcomeNode(NotDispatchedOutcome) in input.propositions && input.propositions[OutcomeNode(NotDispatchedOutcome)] == current
  {
  }

  // ---------------------------------------------------------------- all worlds

  /** The events a list of worlds permits. */
  predicate PermittedInAll(current: string, worlds: seq<World>, event: RecoveryEvent) {
    if worlds == [] then event == Reconcile else forall w :: w in worlds ==> PermittedIn(current, w, event)
  }

  /** `recoveryEventsPermittedInAllWorlds`; None is an empty coordinate. */
  method RecoveryEventsPermittedInAllWorlds(current: string, worlds: seq<World>) returns (permitted: Option<seq<RecoveryEvent>>)
    ensures permitted.None? <==> current == ""
    ensures permitted.Some? ==> forall event :: event in permitted.value <==> PermittedInAll(current, worlds, event)
  {
    hide PermittedIn;
    if current == "" { return None; }
    if worlds == [] { return Some([Reconcile]); }
    var events: seq<RecoveryEvent> := [];
    for k := 0 to |RecoveryEvents|
      invariant forall event :: event in events <==> event in RecoveryEvents[..k] && forall w :: w in worlds ==> PermittedIn(current, w, event)
    {
      var event := RecoveryEvents[k];
      assert RecoveryEvents[..k + 1] == RecoveryEvents[..k] + [event];
      var all := true;
      for i := 0 to |worlds|
        invariant all <==> forall w :: w in worlds[..i] ==> PermittedIn(current, w, event)
      {
        assert worlds[..i + 1] == worlds[..i] + [worlds[i]];
        var one := EventPermitted(current, worlds[i], event);
        all := all && one;
      }
      assert worlds[..|worlds|] == worlds;
      if all { events := events + [event]; }
    }
    AllEvents();
    return Some(events);
  }

  lemma AllEvents()
    ensures RecoveryEvents[..|RecoveryEvents|] == RecoveryEvents && forall event :: event in RecoveryEvents
  {
    assert RecoveryEvents[0] == Reconcile && RecoveryEvents[1] == Retry && RecoveryEvents[2] == Settle;
    forall event: RecoveryEvent ensures event in RecoveryEvents { match event case Reconcile => {} case Retry => {} case Settle => {} }
  }

  /** Retry is permitted exactly when every world is at the current coordinate and not dispatched, settling exactly when
      every world is there and asserts the postcondition; an empty list permits neither. */
  lemma ExactPermissions(current: string, worlds: seq<World>)
    ensures PermittedInAll(current, worlds, Retry) <==> worlds != [] && forall w :: w in worlds ==> w == World(current, NotDispatchedOutcome)
    ensures PermittedInAll(current, worlds, Settle) <==> worlds != [] && forall w :: w in worlds ==> w == World(current, PostconditionAsserted)
    ensures PermittedInAll(current, worlds, Reconcile)
  {
    forall w ensures (PermittedIn(current, w, Retry) <==> w == World(current, NotDispatchedOutcome))
      && (PermittedIn(current, w, Settle) <==> w == World(current, PostconditionAsserted)) { }
  }

  /** More possible worlds never permit more, and retry and settle are never permitted together. */
  lemma WorldsOnlyNarrow(current: string, worlds: seq<World>, more: seq<World>, event: RecoveryEvent)
    requires worlds != [] && forall w :: w in worlds ==> w in more
    ensures PermittedInAll(current, more, event) ==> PermittedInAll(current, worlds, event)
    ensures !(PermittedInAll(current, worlds, Retry) && PermittedInAll(current, worlds, Settle))
  {
    hide PermittedIn;
    assert worlds[0] in worlds && worlds[0] in more;
    ExactPermissions(current, worlds);
  }

  // ---------------------------------------------------------------- the plan

  predicate RetryEstablished(r: SettlementRelations) {
    r.supportsNotDispatched || (r.supportsAcceptedAbsence && (!r.absenceRequiresReplaySafety || r.supportsReplaySafety))
  }

  /** `possibleEffectWorlds`. */
  function PossibleEffectWorlds(coordinate: string, r: SettlementRelations): seq<World> {
    if r.assertsPostcondition && !RetryEstablished(r) then [World(coordinate, PostconditionAsserted)]
    else if RetryEstablished(r) && !r.assertsPostcondition then [World(coordinate, NotDispatchedOutcome)]
    else [World(coordinate, PostconditionAsserted), World(coordinate, NotDispatchedOutcome)]
  }

  function Preferred(coordinate: string, worlds: seq<World>): RecoveryEvent {
    if PermittedInAll(coordinate, worlds, Settle) then Settle
    else if PermittedInAll(coordinate, worlds, Retry) then Retry
    else Reconcile
  }

  /** `settlementDispositionFromRelations`. */
  function SettlementDisposition(r: SettlementRelations): Disposition {
    if r.assertsPostcondition then DispositionDone
    else if r.supportsNotDispatched || (r.supportsAcceptedAbsence && (!r.absenceRequiresReplaySafety || r.supportsReplaySafety))
    then DispositionReady
    else DispositionRecovery
  }

  /** `legacyRecoveryEvent`. */
  function LegacyRecoveryEvent(r: SettlementRelations): RecoveryEvent {
    match SettlementDisposition(r)
    case DispositionDone => Settle
    case DispositionReady => Retry
    case _ => Reconcile
  }

  /** Which event the worlds of five facts prefer: settling needs the postcondition and nothing that shows no dispatch; retrying
      needs no dispatch or an absence that is replay-safe where it must be, and no postcondition. */
  lemma PreferredIff(coordinate: string, r: SettlementRelations)
    ensures Preferred(coordinate, PossibleEffectWorlds(coordinate, r)) == Settle <==>
      r.assertsPostcondition && !r.supportsNotDispatched && (r.supportsAcceptedAbsence ==> r.absenceRequiresReplaySafety && !r.supportsReplaySafety)
    ensures Preferred(coordinate, PossibleEffectWorlds(coordinate, r)) == Retry <==>
      !r.assertsPostcondition && (!r.supportsNotDispatched ==> r.supportsAcceptedAbsence && (r.absenceRequiresReplaySafety ==> r.supportsReplaySafety))
  {
    hide PermittedInAll;
    var worlds := PossibleEffectWorlds(coordinate, r);
    ExactPermissions(coordinate, worlds);
    assert worlds[0] in worlds && worlds[|worlds| - 1] in worlds;
  }

  /** `deriveRecoveryPlan`. */
  method DeriveRecoveryPlan(coordinate: string, r: SettlementRelations) returns (preferred: Option<RecoveryEvent>)
    ensures preferred.None? <==> coordinate == ""
    ensures preferred == Some(Settle) <==>
      coordinate != "" && r.assertsPostcondition && !r.supportsNotDispatched && (r.supportsAcceptedAbsence ==> r.absenceRequiresReplaySafety && !r.supportsReplaySafety)
    ensures preferred == Some(Retry) <==>
      coordinate != "" && !r.assertsPostcondition && (!r.supportsNotDispatched ==> r.supportsAcceptedAbsence && (r.absenceRequiresReplaySafety ==> r.supportsReplaySafety))
  {
    hide PermittedInAll, RetryEstablished, PossibleEffectWorlds;
    if coordinate == "" { return None; }
    var permitted := RecoveryEventsPermittedInAllWorlds(coordinate, PossibleEffectWorlds(coordinate, r));
    PreferredIff(coordinate, r);
    if Settle in permitted.value { return Some(Settle); }
    if Retry in permitted.value { return Some(Retry); }
    return Some(Reconcile);
  }

  /** The derived route differs from the legacy one exactly on conflicting terminal facts, where it reconciles instead of
      settling. */
  lemma RoutingAgreesIff(coordinate: string, r: SettlementRelations)
    ensures var conflicting := r.assertsPostcondition &&
        (!r.supportsNotDispatched ==> r.supportsAcceptedAbsence && (r.absenceRequiresReplaySafety ==> r.supportsReplaySafety));
      && (Preferred(coordinate, PossibleEffectWorlds(coordinate, r)) == LegacyRecoveryEvent(r) <==> !conflicting)
      && (conflicting ==> LegacyRecoveryEvent(r) == Settle && Preferred(coordinate, PossibleEffectWorlds(coordinate, r)) == Reconcile)
  {
    hide Preferred, PossibleEffectWorlds, RetryEstablished;
    PreferredIff(coordinate, r);
  }
}
