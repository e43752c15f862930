/** Adapter protocols, their runs and their twin product (scripts/adapter-diagnosability.ts:3-187).

    A pair of states is a tuple, and the empty move of one side is `None`. */
module AdapterProtocol {
  import opened Facts

  type StateId = string
  type Pair = (StateId, StateId)

  datatype ProtocolState = ProtocolState(id: StateId, occurred: bool)

  datatype Transition = Transition(
    from: StateId, to: StateId, event: string, observation: Option<string>, consequential: Option<string>)

  datatype Protocol = Protocol(id: string, initial: StateId, states: seq<ProtocolState>, transitions: seq<Transition>)

  datatype ProductStep = ProductStep(left: Option<string>, right: Option<string>, observation: Option<string>, states: Pair)

  datatype ProductEdge = ProductEdge(to: Pair, observable: bool, step: ProductStep)

  // ---------------------------------------------------------------- validation

  ghost predicate Known(p: Protocol, s: StateId) { exists i :: 0 <= i < |p.states| && p.states[i].id == s }

  /** The characters `trim` removes. */
  predicate White(c: char) {
    || '\t' <= c <= '\r' || c == ' ' || c == '\U{00A0}' || c == '\U{1680}' || '\U{2000}' <= c <= '\U{200A}'
    || c == '\U{2028}' || c == '\U{2029}' || c == '\U{202F}' || c == '\U{205F}' || c == '\U{3000}' || c == '\U{FEFF}'
  }

  /** `!s.trim()`. */
  predicate Blank(s: string) { forall i :: 0 <= i < |s| ==> White(s[i]) }

  predicate Spelled(t: Transition) {
    && !Blank(t.event)
    && (t.observation.Some? ==> !Blank(t.observation.value)) && (t.consequential.Some? ==> !Blank(t.consequential.value))
  }

  /** What `validateAdapterProtocol` accepts. */
  ghost predicate ValidProtocol(p: Protocol) {
    && !Blank(p.id) && !Blank(p.initial)
    && (forall s :: s in p.states ==> !Blank(s.id)) && (forall t :: t in p.transitions ==> Spelled(t))
    && (forall i, j :: 0 <= i < j < |p.states| ==> p.states[i].id != p.states[j].id)
    && Known(p, p.initial)
    && forall t :: t in p.transitions ==> Known(p, t.from) && Known(p, t.to)
  }

  /** Two listed states with these ids disagree about the mutation. */
  ghost predicate Differs(p: Protocol, n: Pair) {
    exists i, j :: 0 <= i < |p.states| && 0 <= j < |p.states|
      && p.states[i].id == n.0 && p.states[j].id == n.1 && p.states[i].occurred != p.states[j].occurred
  }

  /** Looks a state's mutation up by its id. */
  function Occurred(states: seq<ProtocolState>, s: StateId): bool {
    if states == [] then false else if states[0].id == s then states[0].occurred else Occurred(states[1..], s)
  }

  /** `differs`: the looked-up mutations are not the same. */
  predicate LookupsDiffer(p: Protocol, n: Pair) { Occurred(p.states, n.0) != Occurred(p.states, n.1) }

  /** Where ids are distinct the lookup reads each state's own mutation. */
  lemma {:induction false} OccurredIs(states: seq<ProtocolState>, i: nat)
    requires i < |states| && forall k, j :: 0 <= k < j < |states| ==> states[k].id != states[j].id
    ensures Occurred(states, states[i].id) == states[i].occurred
    decreases |states|
  {
    if i > 0 {
      OccurredIs(states[1..], i - 1);
      assert states[1..][i - 1] == states[i];
    }
  }

  /** For known states of a valid protocol the lookups differ exactly when the states disagree. */
  lemma LookupsDifferIff(p: Protocol, n: Pair)
    requires ValidProtocol(p) && Known(p, n.0) && Known(p, n.1)
    ensures LookupsDiffer(p, n) <==> Differs(p, n)
  {
    hide Blank, Spelled, Occurred;
    var a :| 0 <= a < |p.states| && p.states[a].id == n.0;
    var b :| 0 <= b < |p.states| && p.states[b].id == n.1;
    OccurredIs(p.states, a);
    OccurredIs(p.states, b);
    forall i | 0 <= i < |p.states| && p.states[i].id == n.0 ensures i == a { }
    forall j | 0 <= j < |p.states| && p.states[j].id == n.1 ensures j == b { }
  }

  // ---------------------------------------------------------------- runs

  /** The state after the first `i` transitions of a run from `from`. */
  function StateAt(from: StateId, run: seq<Transition>, i: nat): StateId
    requires i <= |run|
  {
    if i == 0 then from else run[i - 1].to
  }

  ghost predicate IsRun(p: Protocol, from: StateId, run: seq<Transition>) {
    forall i :: 0 <= i < |run| ==> run[i] in p.transitions && run[i].from == StateAt(from, run, i)
  }

  function EndOf(from: StateId, run: seq<Transition>): StateId { StateAt(from, run, |run|) }

  function ObservationsOf(run: seq<Transition>): seq<string> {
    if run == [] then []
    else
      var last := run[|run| - 1];
      ObservationsOf(run[..|run| - 1]) + if last.observation.Some? then [last.observation.value] else []
  }

  function EventsOf(run: seq<Transition>): seq<string> {
    if run == [] then [] else EventsOf(run[..|run| - 1]) + [run[|run| - 1].event]
  }

  // ---------------------------------------------------------------- the product

  function Outgoing(transitions: seq<Transition>, s: StateId): seq<Transition> {
    if transitions == [] then []
    else (if transitions[0].from == s then [transitions[0]] else []) + Outgoing(transitions[1..], s)
  }

  function LeftEdge(t: Transition, right: StateId): ProductEdge {
    ProductEdge((t.to, right), false, ProductStep(Some(t.event), None, None, (t.to, right)))
  }

  function RightEdge(left: StateId, t: Transition): ProductEdge {
    ProductEdge((left, t.to), false, ProductStep(None, Some(t.event), None, (left, t.to)))
  }

  function JointEdge(l: Transition, r: Transition): ProductEdge {
    ProductEdge((l.to, r.to), true, ProductStep(Some(l.event), Some(r.event), l.observation, (l.to, r.to)))
  }

  function LeftEdges(ts: seq<Transition>, right: StateId): seq<ProductEdge> {
    if ts == [] then [] else (if ts[0].observation.None? then [LeftEdge(ts[0], right)] else []) + LeftEdges(ts[1..], right)
  }

  function RightEdges(left: StateId, ts: seq<Transition>): seq<ProductEdge> {
    if ts == [] then [] else (if ts[0].observation.None? then [RightEdge(left, ts[0])] else []) + RightEdges(left, ts[1..])
  }

  function Matches(l: Transition, ts: seq<Transition>): seq<ProductEdge> {
    if ts == [] then []
    else (if ts[0].observation == l.observation then [JointEdge(l, ts[0])] else []) + Matches(l, ts[1..])
  }

  function JointEdges(ls: seq<Transition>, rs: seq<Transition>): seq<ProductEdge> {
    if ls == [] then []
    else (if ls[0].observation.Some? then Matches(ls[0], rs) else []) + JointEdges(ls[1..], rs)
  }

  /** The product edges out of a pair, in the order the source lists them. */
  function Next(p: Protocol, n: Pair): seq<ProductEdge> {
    var ls, rs := Outgoing(p.transitions, n.0), Outgoing(p.transitions, n.1);
    LeftEdges(ls, n.1) + RightEdges(n.0, rs) + JointEdges(ls, rs)
  }

  ghost predicate MovesLeft(p: Protocol, n: Pair, e: ProductEdge) {
    exists t :: t in p.transitions && t.from == n.0 && t.observation.None? && e == LeftEdge(t, n.1)
  }
  ghost predicate MovesRight(p: Protocol, n: Pair, e: ProductEdge) {
    exists t :: t in p.transitions && t.from == n.1 && t.observation.None? && e == RightEdge(n.0, t)
  }
  ghost predicate MovesJointly(p: Protocol, n: Pair, e: ProductEdge) {
    exists l, r :: l in p.transitions && r in p.transitions && l.from == n.0 && r.from == n.1
      && l.observation.Some? && r.observation == l.observation && e == JointEdge(l, r)
  }

  lemma {:induction false} OutgoingIs(ts: seq<Transition>, s: StateId, t: Transition)
    ensures t in Outgoing(ts, s) <==> t in ts && t.from == s
    decreases |ts|
  {
    if ts != [] { OutgoingIs(ts[1..], s, t); }
  }

  lemma {:induction false} LeftEdgesAre(ts: seq<Transition>, right: StateId, e: ProductEdge)
    ensures e in LeftEdges(ts, right) <==> exists t :: t in ts && t.observation.None? && e == LeftEdge(t, right)
    decreases |ts|
  {
    if ts != [] {
      LeftEdgesAre(ts[1..], right, e);
      assert forall t :: t in ts <==> t == ts[0] || t in ts[1..];
      assert ts[0] in ts;
    }
  }

  lemma {:induction false} RightEdgesAre(left: StateId, ts: seq<Transition>, e: ProductEdge)
    ensures e in RightEdges(left, ts) <==> exists t :: t in ts && t.observation.None? && e == RightEdge(left, t)
    decreases |ts|
  {
    if ts != [] {
      RightEdgesAre(left, ts[1..], e);
      assert forall t :: t in ts <==> t == ts[0] || t in ts[1..];
      assert ts[0] in ts;
    }
  }

  lemma {:induction false} MatchesAre(l: Transition, ts: seq<Transition>, e: ProductEdge)
    ensures e in Matches(l, ts) <==> exists r :: r in ts && r.observation == l.observation && e == JointEdge(l, r)
    decreases |ts|
  {
    if ts != [] {
      MatchesAre(l, ts[1..], e);
      assert forall t :: t in ts <==> t == ts[0] || t in ts[1..];
      assert ts[0] in ts;
    }
  }

  lemma {:induction false} JointEdgesAre(ls: seq<Transition>, rs: seq<Transition>, e: ProductEdge)
    ensures e in JointEdges(ls, rs) <==>
      exists l, r :: l in ls && r in rs && l.observation.Some? && r.observation == l.observation && e == JointEdge(l, r)
    decreases |ls|
  {
    if ls != [] {
      JointEdgesAre(ls[1..], rs, e);
      MatchesAre(ls[0], rs, e);
      assert forall t :: t in ls <==> t == ls[0] || t in ls[1..];
      assert ls[0] in ls;
    }
  }

  /** The edge list is exactly the three kinds of product move. */
  lemma NextIs(p: Protocol, n: Pair, e: ProductEdge)
    ensures e in Next(p, n) <==> MovesLeft(p, n, e) || MovesRight(p, n, e) || MovesJointly(p, n, e)
  {
    hide Outgoing, LeftEdges, RightEdges, JointEdges;
    var ls, rs := Outgoing(p.transitions, n.0), Outgoing(p.transitions, n.1);
    LeftEdgesAre(ls, n.1, e);
    RightEdgesAre(n.0, rs, e);
    JointEdgesAre(ls, rs, e);
    forall t ensures t in ls <==> t in p.transitions && t.from == n.0 { OutgoingIs(p.transitions, n.0, t); }
    forall t ensures t in rs <==> t in p.transitions && t.from == n.1 { OutgoingIs(p.transitions, n.1, t); }
  }
}
