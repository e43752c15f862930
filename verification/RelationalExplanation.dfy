/** Explaining an event by its requirement closure (src/authority/relational-explanation.ts:37-144). */
module RelationalExplanation {
  import opened Facts

  datatype RecoveryEvent = Reconcile | Retry | Settle
  datatype Outcome = PostconditionAsserted | NotDispatchedOutcome

  /** Identifiers; those the recovery planner builds from a prefix are structured. */
  datatype NodeId =
    | Named(name: string)
    | EventNode(event: RecoveryEvent) | RootNode(event: RecoveryEvent)
    | OutcomeNode(outcome: Outcome) | EvidenceNode(outcome: Outcome)
    | ObserverNode | AuthorityNode

  datatype Edge = Edge(from: NodeId, to: NodeId)

  /** Objects, events and propositions with their coordinates, and the edges between them. */
  datatype Input = Input(
    coordinates: set<string>,
    objects: map<NodeId, string>, events: map<NodeId, string>, propositions: map<NodeId, string>,
    permits: seq<Edge>, supports: seq<Edge>, requirements: seq<Edge>)

  datatype Refusal =
    | EventUnknown | PropositionUnknown | CoordinateUnknown | RequirementCycle | RequiredPropositionUnknown
    | SupportObjectUnknown | PermitObjectUnknown

  // ---------------------------------------------------------------- reachable requirements

  ghost predicate IsPath(edges: seq<Edge>, path: seq<NodeId>) {
    |path| >= 2 && forall i :: 0 <= i < |path| - 1 ==> Edge(path[i], path[i + 1]) in edges
  }

  /** `to` is required by `from` through one or more edges. */
  ghost predicate Reaches(edges: seq<Edge>, from: NodeId, to: NodeId) {
    exists path :: IsPath(edges, path) && path[0] == from && path[|path| - 1] == to
  }

  lemma ReachesOne(edges: seq<Edge>, from: NodeId, to: NodeId)
    requires Edge(from, to) in edges
    ensures Reaches(edges, from, to)
  {
    assert IsPath(edges, [from, to]);
  }

  lemma ReachesMore(edges: seq<Edge>, from: NodeId, mid: NodeId, to: NodeId)
    requires Reaches(edges, from, mid) && Edge(mid, to) in edges
    ensures Reaches(edges, from, to)
  {
    var path :| IsPath(edges, path) && path[0] == from && path[|path| - 1] == mid;
    assert IsPath(edges, path + [to]);
  }

  /** A set closed under edges that holds the successors of `from` holds everything `from` reaches. */
  lemma {:induction false} ClosedHolds(edges: seq<Edge>, from: NodeId, closed: set<NodeId>, path: seq<NodeId>)
    requires forall e :: e in edges && (e.from == from || e.from in closed) ==> e.to in closed
    requires IsPath(edges, path) && path[0] == from
    ensures path[|path| - 1] in closed
    decreases |path|
  {
    var n := |path| - 1;
    assert Edge(path[n - 1], path[n]) in edges;
    if n > 1 {
      assert IsPath(edges, path[..n]);
      ClosedHolds(edges, from, closed, path[..n]);
    }
  }

  // ---------------------------------------------------------------- the depth-first closure

  /** The closure fails: the root requires itself, or something required is unknown. */
  ghost predicate Unclosable(edges: seq<Edge>, known: set<NodeId>, root: NodeId) {
    || Reaches(edges, root, root)
    || exists q :: Reaches(edges, root, q) && q !in known
  }

  class RequirementSearch {
    const edges: seq<Edge>
    const known: set<NodeId>
    const root: NodeId
    var required: set<NodeId>
    var visiting: set<NodeId>

    /** All requirements of `q` are known and recorded. */
    ghost predicate Done(q: NodeId)
      reads this
    {
      forall e :: e in edges && e.from == q ==> e.to in known && e.to in required
    }

    ghost predicate Valid()
      reads this
    {
      && required <= known && visiting <= required + {root}
      && (forall q :: q in required ==> Reaches(edges, root, q))
    }

    constructor (edges: seq<Edge>, known: set<NodeId>, root: NodeId)
      ensures this.edges == edges && this.known == known && this.root == root
      ensures Valid() && required == {} && visiting == {}
    {
      this.edges, this.known, this.root := edges, known, root;
      required, visiting := {}, {};
    }

    /** `visit`.  Only the root can be found visiting: every other proposition is visited once, when it is first required. */
    method Visit(q: NodeId) returns (refusal: Option<Refusal>)
      requires Valid() && (q == root || q in required)
      requires if visiting == {} then q == root && required == {} else root in visiting && q in required && (q in visiting ==> q == root)
      requires root in required ==> q == root
      requires forall u :: u in required + {root} && u !in visiting && u != q ==> Done(u)
      modifies this
      ensures Valid()
      ensures refusal.None? ==>
        && visiting == old(visiting) && old(required) <= required && root !in required
        && forall u :: u in required + {root} && u !in visiting ==> Done(u)
      ensures refusal.Some? ==> Unclosable(edges, known, root)
      decreases known - required, if visiting == {} then 1 else 0
    {
      hide Reaches;
      if q in visiting { return Some(RequirementCycle); }
      visiting := visiting + {q};
      var i := 0;
      while i < |edges|
        invariant i <= |edges| && Valid() && visiting == old(visiting) + {q} && old(required) <= required && root !in required
        invariant forall u :: u in required + {root} && u !in visiting ==> Done(u)
        invariant forall e :: e in edges[..i] && e.from == q ==> e.to in known && e.to in required
      {
        var edge := edges[i];
        assert edge in edges && edges[..i + 1] == edges[..i] + [edge];
        if edge.from == q {
          Required(edges, root, q, edge.to);
          if edge.to !in known { return Some(RequiredPropositionUnknown); }
          if edge.to !in required {
            required := required + {edge.to};
            refusal := Visit(edge.to);
            if refusal.Some? { return; }
          }
        }
        i := i + 1;
      }
      assert edges[..i] == edges;
      visiting := visiting - {q};
      return None;
    }
  }

  lemma Required(edges: seq<Edge>, root: NodeId, q: NodeId, to: NodeId)
    requires Edge(q, to) in edges && (q == root || Reaches(edges, root, q))
    ensures Reaches(edges, root, to)
  {
    if q == root { ReachesOne(edges, root, to); } else { ReachesMore(edges, root, q, to); }
  }

  ghost predicate ClosureIs(edges: seq<Edge>, root: NodeId, closure: set<NodeId>) { forall q :: q in closure <==> Reaches(edges, root, q) }

  /** The requirement closure: exactly the propositions reachable from the root; refused exactly when the root requires
      itself or an unknown proposition is required. */
  method RequirementClosure(edges: seq<Edge>, known: set<NodeId>, root: NodeId) returns (closure: set<NodeId>, refusal: Option<Refusal>)
    ensures refusal.Some? <==> Unclosable(edges, known, root)
    ensures refusal.None? ==> ClosureIs(edges, root, closure)
  {
    hide Reaches;
    var search := new RequirementSearch(edges, known, root);
    refusal := search.Visit(root);
    closure := search.required;
    if refusal.None? {
      forall u, e | e in edges && e.from == u && u in closure + {root} ensures e.to in closure { assert search.Done(u); }
      forall q ensures q in closure <==> Reaches(edges, root, q) { ReachedIsHeld(edges, root, closure, q); }
    }
  }

  lemma ReachedIsHeld(edges: seq<Edge>, root: NodeId, closure: set<NodeId>, q: NodeId)
    requires forall e :: e in edges && (e.from == root || e.from in closure) ==> e.to in closure
    ensures Reaches(edges, root, q) ==> q in closure
  {
    if Reaches(edges, root, q) {
      var path :| IsPath(edges, path) && path[0] == root && path[|path| - 1] == q;
      ClosedHolds(edges, root, closure, path);
    }
  }

  /** A cycle that avoids the root is not refused, because a required proposition is visited only once. */
  lemma OtherCyclesPass(edges: seq<Edge>, known: set<NodeId>, a: NodeId, b: NodeId, root: NodeId)
    requires a != root && b != root && a in known && b in known
    requires edges == [Edge(root, a), Edge(a, b), Edge(b, a)]
    ensures Reaches(edges, a, a) && !Unclosable(edges, known, root)
  {
    assert IsPath(edges, [a, b, a]);
    forall q ensures Reaches(edges, root, q) ==> q in {a, b} { ReachedIsHeld(edges, root, {a, b}, q); }
  }

  // ---------------------------------------------------------------- one explanation

  datatype Support = Supported | StaleSupport | Unsupported

  datatype Explanation = Explanation(permittedBy: set<NodeId>, staleAuthority: set<NodeId>, requirements: map<NodeId, Support>)

  datatype Explained = Explained(value: Explanation) | Refused(reason: Refusal)

  /** Whether some known object at (or away from) the coordinate is the source of an edge to `to`. */
  predicate BackedAt(objects: map<NodeId, string>, edges: seq<Edge>, to: NodeId, coordinate: string) {
    exists e :: e in edges && e.to == to && e.from in objects && objects[e.from] == coordinate
  }

  predicate BackedElsewhere(objects: map<NodeId, string>, edges: seq<Edge>, to: NodeId, coordinate: string) {
    exists e :: e in edges && e.to == to && e.from in objects && objects[e.from] != coordinate
  }

  function StateOf(input: Input, q: NodeId): Support
    requires q in input.propositions
  {
    if BackedAt(input.objects, input.supports, q, input.propositions[q]) then Supported
    else if BackedElsewhere(input.objects, input.supports, q, input.propositions[q]) then StaleSupport
    else Unsupported
  }

  predicate Placed(input: Input) {
    input.objects.Values <= input.coordinates && input.events.Values <= input.coordinates && input.propositions.Values <= input.coordinates
  }

  /** The sources of the edges to `to` that satisfy a coordinate condition. */
  function SourcesOf(objects: map<NodeId, string>, edges: seq<Edge>, to: NodeId, coordinate: string, same: bool): set<NodeId> {
    set e | e in edges && e.to == to && e.from in objects && (objects[e.from] == coordinate) == same :: e.from
  }

  predicate SourcesKnown(objects: map<NodeId, string>, edges: seq<Edge>, to: NodeId) {
    forall e :: e in edges && e.to == to ==> e.from in objects
  }

  /** An edge from a known object at this coordinate. */
  ghost predicate Backs(objects: map<NodeId, string>, edges: seq<Edge>, from: NodeId, to: NodeId, coordinate: string) {
    Edge(from, to) in edges && from in objects && objects[from] == coordinate
  }

  lemma SourcesAre(objects: map<NodeId, string>, edges: seq<Edge>, to: NodeId, coordinate: string, from: NodeId)
    ensures from in SourcesOf(objects, edges, to, coordinate, true) <==> Backs(objects, edges, from, to, coordinate)
    ensures from in SourcesOf(objects, edges, to, coordinate, false) <==> exists c :: c != coordinate && Backs(objects, edges, from, to, c)
  {
    if Edge(from, to) in edges && from in objects { assert objects[from] != coordinate ==> Backs(objects, edges, from, to, objects[from]); }
  }

  lemma StateIs(input: Input, q: NodeId)
    requires q in input.propositions
    ensures StateOf(input, q) == Supported <==> exists x :: Backs(input.objects, input.supports, x, q, input.propositions[q])
    ensures StateOf(input, q) == Unsupported <==> forall x, c :: !Backs(input.objects, input.supports, x, q, c)
  {
    if x :| Backs(input.objects, input.supports, x, q, input.propositions[q]) { assert Edge(x, q) in input.supports; }
    if BackedAt(input.objects, input.supports, q, input.propositions[q]) {
      var e :| e in input.supports && e.to == q && e.from in input.objects && input.objects[e.from] == input.propositions[q];
      assert Backs(input.objects, input.supports, e.from, q, input.propositions[q]);
    }
    if x, c :| Backs(input.objects, input.supports, x, q, c) { assert Edge(x, q) in input.supports; }
    if BackedElsewhere(input.objects, input.supports, q, input.propositions[q]) {
      var e :| e in input.supports && e.to == q && e.from in input.objects && input.objects[e.from] != input.propositions[q];
      assert Backs(input.objects, input.supports, e.from, q, input.objects[e.from]);
    }
  }

  /** What the explanation says of each requirement: supported by an object at its own coordinate, unsupported by any. */
  ghost predicate Explains(input: Input, event: NodeId, explanation: Explanation)
    requires event in input.events
  {
    && (forall q :: q in explanation.requirements ==>
          && q in input.propositions
          && (explanation.requirements[q] == Supported <==> exists x :: Backs(input.objects, input.supports, x, q, input.propositions[q]))
          && (explanation.requirements[q] == Unsupported <==> forall x, c :: !Backs(input.objects, input.supports, x, q, c)))
    && (forall x :: x in explanation.permittedBy <==> Backs(input.objects, input.permits, x, event, input.events[event]))
    && (forall x :: x in explanation.staleAuthority <==> exists c :: c != input.events[event] && Backs(input.objects, input.permits, x, event, c))
  }

  /** Every object, event and proposition is at a declared coordinate. */
  ghost predicate EverythingPlaced(input: Input) {
    && (forall x :: x in input.objects ==> input.objects[x] in input.coordinates)
    && (forall e :: e in input.events ==> input.events[e] in input.coordinates)
    && (forall q :: q in input.propositions ==> input.propositions[q] in input.coordinates)
  }

  lemma PlacedIff(input: Input)
    ensures Placed(input) <==> EverythingPlaced(input)
  {
    if Placed(input) {
      assert forall x :: x in input.objects ==> input.objects[x] in input.objects.Values;
      assert forall e :: e in input.events ==> input.events[e] in input.events.Values;
      assert forall q :: q in input.propositions ==> input.propositions[q] in input.propositions.Values;
    }
  }

  lemma SourcesKnownIff(objects: map<NodeId, string>, edges: seq<Edge>, to: NodeId)
    ensures SourcesKnown(objects, edges, to) <==> forall x :: Edge(x, to) in edges ==> x in objects
  {
    if !SourcesKnown(objects, edges, to) {
      var e :| e in edges && e.to == to && e.from !in objects;
      assert Edge(e.from, to) in edges;
    }
  }

  /** `explainRelationalEvent`. */
  method ExplainRelationalEvent(input: Input, event: NodeId, root: NodeId) returns (result: Explained)
    ensures result.Explained? <==>
      && event in input.events && root in input.propositions && EverythingPlaced(input)
      && !Unclosable(input.requirements, input.propositions.Keys, root)
      && (forall x, q :: Reaches(input.requirements, root, q) && Edge(x, q) in input.supports ==> x in input.objects)
      && (forall x :: Edge(x, event) in input.permits ==> x in input.objects)
    ensures result.Explained? ==>
      && ClosureIs(input.requirements, root, result.value.requirements.Keys)
      && Explains(input, event, result.value)
  {
    hide Reaches, Placed, EverythingPlaced, SourcesOf, SourcesKnown, StateOf, Backs;
    PlacedIff(input);
    SourcesKnownIff(input.objects, input.permits, event);
    forall q { SourcesKnownIff(input.objects, input.supports, q); }
    if event !in input.events { return Refused(EventUnknown); }
    if root !in input.propositions { return Refused(PropositionUnknown); }
    if !Placed(input) { return Refused(CoordinateUnknown); }
    var required, refusal := RequirementClosure(input.requirements, input.propositions.Keys, root);
    if refusal.Some? { return Refused(refusal.value); }
    var unknown := set q | q in required && !SourcesKnown(input.objects, input.supports, q);
    if unknown != {} { return Refused(SupportObjectUnknown); }
    if !SourcesKnown(input.objects, input.permits, event) { return Refused(PermitObjectUnknown); }
    forall q | q in required ensures SourcesKnown(input.objects, input.supports, q) { assert q !in unknown; }
    assert forall q :: q in required ==> q in input.propositions;
    forall q | q in required ensures q in input.propositions { }
    forall q | q in required { StateIs(input, q); }
    forall x { SourcesAre(input.objects, input.permits, event, input.events[event], x); }
    return Explained(Explanation(
      SourcesOf(input.objects, input.permits, event, input.events[event], true),
      SourcesOf(input.objects, input.permits, event, input.events[event], false),
      map q | q in required :: StateOf(input, q)));
  }
}
