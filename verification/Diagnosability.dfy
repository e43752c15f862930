/** The whole analysis of an adapter protocol, and the bounded oracle beside it
    (scripts/adapter-diagnosability.ts:71-101, 237-318). */
module Diagnosability {
  import opened Facts
  import opened AdapterProtocol
  import opened TwinProduct
  import opened Verdicts
  import opened Delays
  import opened Ordering
  import opened Collections

  // ---------------------------------------------------------------- validation

  method KnowsState(p: Protocol, s: StateId) returns (known: bool)
    ensures known <==> Known(p, s)
  {
    for i := 0 to |p.states|
      invariant forall k :: 0 <= k < i ==> p.states[k].id != s
    {
      if p.states[i].id == s { return true; }
    }
    return false;
  }

  /** `validateAdapterProtocol`. */
  method ValidateAdapterProtocol(p: Protocol) returns (valid: bool)
    ensures valid <==> ValidProtocol(p)
  {
    hide Known, Blank;
    if Blank(p.id) || Blank(p.initial) { return false; }
    var ids: set<StateId> := {};
    for i := 0 to |p.states|
      invariant forall k :: 0 <= k < i ==> !Blank(p.states[k].id)
      invariant ids == set k | 0 <= k < i :: p.states[k].id
      invariant forall k, j :: 0 <= k < j < i ==> p.states[k].id != p.states[j].id
    {
      assert p.states[i] in p.states;
      if Blank(p.states[i].id) || p.states[i].id in ids { return false; }
      ids := ids + {p.states[i].id};
    }
    var initial := KnowsState(p, p.initial);
    if !initial { return false; }
    for i := 0 to |p.transitions|
      invariant forall k :: 0 <= k < i ==> Known(p, p.transitions[k].from) && Known(p, p.transitions[k].to) && Spelled(p.transitions[k])
    {
      var from := KnowsState(p, p.transitions[i].from);
      var to := KnowsState(p, p.transitions[i].to);
      assert p.transitions[i] in p.transitions;
      var t := p.transitions[i];
      if !from || !to || Blank(t.event) { return false; }
      if t.observation.Some? && Blank(t.observation.value) { return false; }
      if t.consequential.Some? && Blank(t.consequential.value) { return false; }
    }
    return true;
  }

  // ---------------------------------------------------------------- unsafe actions

  datatype UnsafeActionWitness = UnsafeActionWitness(pair: Pair, action: string, trace: seq<ProductStep>)

  ghost predicate Enables(p: Protocol, n: Pair, action: string) {
    action != "" && exists t :: t in p.transitions && (t.from == n.0 || t.from == n.1) && t.consequential == Some(action)
  }

  /** A consequential action is enabled in a reachable pair that disagrees about the mutation. */
  ghost predicate Unsafe(p: Protocol, n: Pair, action: string) { Reachable(p, n) && Differs(p, n) && Enables(p, n, action) }

  /** The steps lead from the start to the pair. */
  ghost predicate Traces(p: Protocol, steps: seq<ProductStep>, n: Pair) {
    exists walk :: IsWalk(p, Start(p), walk) && Target(Start(p), walk) == n && steps == StepsOf(walk)
  }

  ghost predicate GoodWitness(p: Protocol, w: UnsafeActionWitness) { Unsafe(p, w.pair, w.action) && Traces(p, w.trace, w.pair) }

  /** The actions enabled in the first `k` ambiguous pairs, each with a witness. */
  ghost predicate Witnessed(p: Protocol, pairs: seq<Pair>, found: map<string, UnsafeActionWitness>) {
    && (forall action :: action in found ==> found[action].action == action && GoodWitness(p, found[action]))
    && forall n, action :: n in pairs && Enables(p, n, action) ==> action in found
  }

  lemma EnablesIff(p: Protocol, n: Pair, action: string)
    ensures Enables(p, n, action) <==>
      action != "" && exists t :: t in Outgoing(p.transitions, n.0) + Outgoing(p.transitions, n.1) && t.consequential == Some(action)
  {
    hide Outgoing;
    forall t ensures t in Outgoing(p.transitions, n.0) + Outgoing(p.transitions, n.1) <==> t in p.transitions && (t.from == n.0 || t.from == n.1) {
      OutgoingIs(p.transitions, n.0, t);
      OutgoingIs(p.transitions, n.1, t);
    }
  }

  method WitnessPair(p: Protocol, product: Product, n: Pair, found: map<string, UnsafeActionWitness>, ghost pairs: seq<Pair>)
    returns (more: map<string, UnsafeActionWitness>)
    requires IsProduct(p, product) && n in product.seen && Differs(p, n) && Witnessed(p, pairs, found)
    ensures Witnessed(p, pairs + [n], more)
  {
    hide IsProduct, Differs, Reachable, Outgoing, Traces, Enables, IsWalk;
    more := found;
    var enabled := Outgoing(p.transitions, n.0) + Outgoing(p.transitions, n.1);
    SeenIffReachable(p, product, n);
    var m := 0;
    while m < |enabled|
      invariant m <= |enabled| && Witnessed(p, pairs, more)
      invariant forall t :: t in enabled[..m] && t.consequential.Some? && t.consequential.value != "" ==> t.consequential.value in more
    {
      var t := enabled[m];
      assert t in enabled && enabled[..m + 1] == enabled[..m] + [t];
      if t.consequential.Some? && t.consequential.value != "" && t.consequential.value !in more {
        var action := t.consequential.value;
        var path, walk := PathTo(p, product, n);
        assert Traces(p, path, n) by { TraceOf(p, walk, path, n); }
        EnablesIff(p, n, action);
        more := more[action := UnsafeActionWitness(n, action, path)];
      }
      m := m + 1;
    }
    assert enabled[..m] == enabled;
    forall action | Enables(p, n, action) ensures action in more { EnablesIff(p, n, action); }
  }

  lemma TraceOf(p: Protocol, walk: seq<ProductEdge>, path: seq<ProductStep>, n: Pair)
    requires IsWalk(p, Start(p), walk) && Target(Start(p), walk) == n && path == StepsOf(walk)
    ensures Traces(p, path, n)
  {
  }

  /** Exactly the unsafe actions, one witness each, in order of action. */
  ghost predicate AllUnsafe(p: Protocol, ws: seq<UnsafeActionWitness>) {
    && (forall i :: 0 <= i < |ws| ==> GoodWitness(p, ws[i]))
    && (forall n, action :: Unsafe(p, n, action) ==> exists i :: 0 <= i < |ws| && ws[i].action == action)
    && forall i, j :: 0 <= i < j < |ws| ==> Before(ws[i].action, ws[j].action)
  }

  method UnsafeWitnesses(p: Protocol, product: Product, ambiguous: seq<Pair>) returns (ws: seq<UnsafeActionWitness>)
    requires IsProduct(p, product) && forall n :: n in ambiguous <==> n in product.seen && Differs(p, n)
    ensures AllUnsafe(p, ws)
  {
    hide IsProduct, Differs, GoodWitness, Enables, Unsafe;
    var found: map<string, UnsafeActionWitness> := map[];
    var k := 0;
    while k < |ambiguous|
      invariant k <= |ambiguous| && Witnessed(p, ambiguous[..k], found)
    {
      assert ambiguous[k] in ambiguous && ambiguous[..k + 1] == ambiguous[..k] + [ambiguous[k]];
      found := WitnessPair(p, product, ambiguous[k], found, ambiguous[..k]);
      k := k + 1;
    }
    assert ambiguous[..k] == ambiguous;
    var actions := Sorted(found.Keys);
    ws := [];
    var i := 0;
    while i < |actions|
      invariant i == |ws| <= |actions|
      invariant forall j :: 0 <= j < i ==> actions[j] in found && ws[j] == found[actions[j]]
    {
      assert actions[i] in actions;
      ws := ws + [found[actions[i]]];
      i := i + 1;
    }
    forall n, action | Unsafe(p, n, action) ensures exists j :: 0 <= j < |ws| && ws[j].action == action {
      UnsafeSeen(p, product, n, action);
      assert action in actions;
      var j :| 0 <= j < |actions| && actions[j] == action;
      assert ws[j].action == action;
    }
  }

  lemma UnsafeSeen(p: Protocol, product: Product, n: Pair, action: string)
    requires IsProduct(p, product) && Unsafe(p, n, action)
    ensures n in product.seen && Differs(p, n) && Enables(p, n, action)
  {
    hide IsProduct, Reachable;
    SeenIffReachable(p, product, n);
  }

  // ---------------------------------------------------------------- the analysis

  datatype Analysis = Analysis(
    diagnosable: bool, safeDiagnosable: bool, ambiguousPairs: nat, maxDelay: Option<nat>,
    nonDiagnosableWitness: Option<seq<ProductStep>>, unsafeWitnesses: seq<UnsafeActionWitness>)

  ghost predicate Ambiguities(p: Protocol, pairs: set<Pair>) { forall n :: n in pairs <==> Reachable(p, n) && Differs(p, n) }

  /** Steps to a reachable pair followed by the steps of an ambiguous cycle through it. */
  ghost predicate Lasso(p: Protocol, steps: seq<ProductStep>) {
    exists stem, c: Cycle :: Traces(p, stem, c.entry) && IsCycle(p, c) && steps == stem + StepsOf(c.path)
  }

  /** `analyzeAdapterProtocol`; None is a rejected protocol.  Every verdict is exact. */
  method AnalyzeAdapterProtocol(p: Protocol) returns (result: Option<Analysis>)
    ensures result.Some? <==> ValidProtocol(p)
    ensures result.Some? ==>
      var a := result.value;
      && (a.diagnosable <==> !AmbiguousCycle(p))
      && (a.diagnosable <==> exists bound: nat :: BoundedBy(p, bound))
      && (a.safeDiagnosable <==> !AmbiguousCycle(p) && forall n, action :: !Unsafe(p, n, action))
      && (exists pairs :: Ambiguities(p, pairs) && |pairs| == a.ambiguousPairs)
      && (a.diagnosable ==> a.maxDelay.Some? && MaximalDelay(p, a.maxDelay.value) && a.nonDiagnosableWitness.None?)
      && (!a.diagnosable ==> a.maxDelay.None? && a.nonDiagnosableWitness.Some? && Lasso(p, a.nonDiagnosableWitness.value))
      && AllUnsafe(p, a.unsafeWitnesses)
  {
    hide ValidProtocol, IsProduct, AmbiguousCycle, MaximalDelay, AllUnsafe, Ambiguities, Traces, IsCycle, Differs, Unsafe, IsWalk, BoundedBy;
    AcyclicIffBounded(p);
    var valid := ValidateAdapterProtocol(p);
    if !valid { return None; }
    var product := BuildProduct(p);
    var ambiguous := Ambiguous(p, product);
    AmbiguitiesAre(p, product, ambiguous);
    var cycle := FindAmbiguousCycle(p, product);
    var unsafeWitnesses := UnsafeWitnesses(p, product, ambiguous);
    SafeIff(p, unsafeWitnesses);
    var delay, loop: Option<seq<ProductStep>> := None, None;
    if cycle.None? {
      delay := MaxAmbiguousDelay(p, product);
    } else {
      var stem, walk := PathTo(p, product, cycle.value.entry);
      TraceOf(p, walk, stem, cycle.value.entry);
      loop := Some(stem + StepsOf(cycle.value.path));
      assert Lasso(p, loop.value);
    }
    return Some(Analysis(cycle.None?, cycle.None? && unsafeWitnesses == [], |ambiguous|, delay, loop, unsafeWitnesses));
  }

  lemma AmbiguitiesAre(p: Protocol, product: Product, ambiguous: seq<Pair>)
    requires IsProduct(p, product) && NoDuplicates(ambiguous) && forall n :: n in ambiguous <==> n in product.seen && Differs(p, n)
    ensures exists pairs :: Ambiguities(p, pairs) && |pairs| == |ambiguous|
  {
    hide IsProduct, Differs, Reachable;
    forall n ensures n in PairSet(ambiguous) <==> Reachable(p, n) && Differs(p, n) { SeenIffReachable(p, product, n); }
    NoDuplicatesSize(ambiguous);
    assert Ambiguities(p, PairSet(ambiguous));
  }

  lemma SafeIff(p: Protocol, ws: seq<UnsafeActionWitness>)
    requires AllUnsafe(p, ws)
    ensures ws == [] <==> forall n, action :: !Unsafe(p, n, action)
  {
    hide Unsafe, Traces;
    if ws != [] { assert GoodWitness(p, ws[0]); }
  }

  // ---------------------------------------------------------------- the bounded oracle

  datatype Trace = Trace(state: StateId, observations: seq<string>)

  function Extend(trace: Trace, ts: seq<Transition>): seq<Trace> {
    if ts == [] then []
    else [Trace(ts[0].to, trace.observations + if ts[0].observation.Some? then [ts[0].observation.value] else [])] + Extend(trace, ts[1..])
  }

  function ExtendAll(p: Protocol, traces: seq<Trace>): seq<Trace> {
    if traces == [] then []
    else Extend(traces[0], Outgoing(p.transitions, traces[0].state)) + ExtendAll(p, traces[1..])
  }

  /** The trace of a run of exactly this many transitions from the initial state. */
  ghost predicate TraceOfRun(p: Protocol, depth: nat, trace: Trace) {
    exists run :: IsRun(p, p.initial, run) && |run| == depth && EndOf(p.initial, run) == trace.state && ObservationsOf(run) == trace.observations
  }

  lemma {:induction false} ExtendIs(trace: Trace, ts: seq<Transition>, next: Trace)
    ensures next in Extend(trace, ts) <==>
      exists t :: t in ts && next == Trace(t.to, trace.observations + if t.observation.Some? then [t.observation.value] else [])
    decreases |ts|
  {
    if ts != [] {
      ExtendIs(trace, ts[1..], next);
      assert ts[0] in ts && forall t :: t in ts <==> t == ts[0] || t in ts[1..];
    }
  }

  lemma {:induction false} ExtendAllIs(p: Protocol, traces: seq<Trace>, next: Trace)
    ensures next in ExtendAll(p, traces) <==>
      exists trace :: trace in traces && next in Extend(trace, Outgoing(p.transitions, trace.state))
    decreases |traces|
  {
    hide Extend, Outgoing;
    if traces != [] {
      ExtendAllIs(p, traces[1..], next);
      assert traces[0] in traces && forall t :: t in traces <==> t == traces[0] || t in traces[1..];
    }
  }

  lemma LongerRun(p: Protocol, depth: nat, trace: Trace, next: Trace)
    requires TraceOfRun(p, depth, trace) && next in Extend(trace, Outgoing(p.transitions, trace.state))
    ensures TraceOfRun(p, depth + 1, next)
  {
    hide Extend, Outgoing, IsRun, ObservationsOf;
    var run :| IsRun(p, p.initial, run) && |run| == depth && EndOf(p.initial, run) == trace.state && ObservationsOf(run) == trace.observations;
    var ts := Outgoing(p.transitions, trace.state);
    ExtendIs(trace, ts, next);
    var t :| t in ts && next == Trace(t.to, trace.observations + if t.observation.Some? then [t.observation.value] else []);
    OutgoingIs(p.transitions, trace.state, t);
    RunSnoc(p, p.initial, run, t);
    assert |run + [t]| == depth + 1;
  }

  lemma ShorterRun(p: Protocol, depth: nat, next: Trace) returns (trace: Trace)
    requires TraceOfRun(p, depth + 1, next)
    ensures TraceOfRun(p, depth, trace) && next in Extend(trace, Outgoing(p.transitions, trace.state))
  {
    hide Extend, Outgoing, IsRun;
    var run :| IsRun(p, p.initial, run) && |run| == depth + 1 && EndOf(p.initial, run) == next.state && ObservationsOf(run) == next.observations;
    RunPrefix(p, p.initial, run);
    trace := Trace(EndOf(p.initial, run[..depth]), ObservationsOf(run[..depth]));
    assert |run[..depth]| == depth;
    OutgoingIs(p.transitions, trace.state, run[depth]);
    ExtendIs(trace, Outgoing(p.transitions, trace.state), next);
  }

  /** The traces after `depth` rounds are exactly those of the runs of that length. */
  ghost predicate AreRuns(p: Protocol, depth: nat, traces: seq<Trace>) { forall t :: t in traces <==> TraceOfRun(p, depth, t) }

  lemma ExtendedRuns(p: Protocol, depth: nat, traces: seq<Trace>)
    requires AreRuns(p, depth, traces)
    ensures AreRuns(p, depth + 1, ExtendAll(p, traces))
  {
    hide Extend, ExtendAll, Outgoing, TraceOfRun;
    forall next ensures next in ExtendAll(p, traces) <==> TraceOfRun(p, depth + 1, next) {
      ExtendAllIs(p, traces, next);
      if next in ExtendAll(p, traces) {
        var trace :| trace in traces && next in Extend(trace, Outgoing(p.transitions, trace.state));
        LongerRun(p, depth, trace, next);
      }
      if TraceOfRun(p, depth + 1, next) { var trace := ShorterRun(p, depth, next); }
    }
  }

  /** Two runs of this length show these observations and disagree about the mutation. */
  ghost predicate AmbiguousAt(p: Protocol, depth: nat, observations: seq<string>) {
    exists a, b :: TraceOfRun(p, depth, a) && TraceOfRun(p, depth, b) && a.observations == observations == b.observations
      && Differs(p, (a.state, b.state))
  }

  /** Realities observed under one observation sequence. */
  ghost function RealitiesOf(p: Protocol, traces: seq<Trace>, observations: seq<string>): set<bool> {
    set t | t in traces && t.observations == observations :: Occurred(p.states, t.state)
  }

  /** `boundedAmbiguousObservationSequences`; None is a rejected depth or protocol.  The count is the number of observation
      sequences shown by two runs of that length that disagree about the mutation. */
  method BoundedAmbiguousObservationSequences(p: Protocol, depth: int) returns (count: Option<nat>)
    ensures count.Some? <==> depth >= 1 && ValidProtocol(p)
    ensures count.Some? ==> exists all: set<seq<string>> ::
      |all| == count.value && forall observations :: observations in all <==> AmbiguousAt(p, depth, observations)
  {
    hide ValidProtocol, TraceOfRun, Occurred, AmbiguousAt, AreRuns;
    if depth < 1 { return None; }
    var valid := ValidateAdapterProtocol(p);
    if !valid { return None; }
    var traces := [Trace(p.initial, [])];
    FirstTrace(p);
    var index := 0;
    while index < depth
      invariant 0 <= index <= depth && AreRuns(p, index, traces)
    {
      ExtendedRuns(p, index, traces);
      traces := ExtendAll(p, traces);
      index := index + 1;
    }
    var groups := GroupRealities(p, traces);
    var n, left := 0, groups.Keys;
    ghost var all: set<seq<string>> := {};
    while left != {}
      invariant left <= groups.Keys && n == |all|
      invariant forall observations :: observations in all <==> observations in groups && observations !in left && |groups[observations]| > 1
      decreases left
    {
      var observations :| observations in left;
      if |groups[observations]| > 1 {
        n := n + 1;
        all := all + {observations};
      }
      left := left - {observations};
    }
    forall observations ensures observations in all <==> AmbiguousAt(p, depth, observations) {
      GroupedIff(p, depth, traces, observations);
    }
    return Some(n);
  }

  lemma GroupedIff(p: Protocol, depth: nat, traces: seq<Trace>, observations: seq<string>)
    requires ValidProtocol(p) && AreRuns(p, depth, traces)
    ensures AmbiguousAt(p, depth, observations) <==> |RealitiesOf(p, traces, observations)| > 1
    ensures AmbiguousAt(p, depth, observations) ==> exists t :: t in traces && t.observations == observations
  {
    hide TraceOfRun, Occurred, ValidProtocol, Differs;
    forall a, b | a in traces && b in traces ensures LookupsDiffer(p, (a.state, b.state)) <==> Differs(p, (a.state, b.state)) {
      TraceKnown(p, depth, a);
      TraceKnown(p, depth, b);
      LookupsDifferIff(p, (a.state, b.state));
    }
    if AmbiguousAt(p, depth, observations) {
      var a, b :| TraceOfRun(p, depth, a) && TraceOfRun(p, depth, b) && a.observations == observations == b.observations
        && Differs(p, (a.state, b.state));
      var x, y := Occurred(p.states, a.state), Occurred(p.states, b.state);
      assert {x, y} <= RealitiesOf(p, traces, observations);
      SubsetSize({x, y}, RealitiesOf(p, traces, observations));
    }
    if |RealitiesOf(p, traces, observations)| > 1 { BothRealities(p, traces, observations); }
  }

  /** A run of a valid protocol ends in a known state. */
  lemma TraceKnown(p: Protocol, depth: nat, t: Trace)
    requires ValidProtocol(p) && TraceOfRun(p, depth, t)
    ensures Known(p, t.state)
  {
    hide ObservationsOf, Known;
    var run :| IsRun(p, p.initial, run) && |run| == depth && EndOf(p.initial, run) == t.state && ObservationsOf(run) == t.observations;
    if depth > 0 { assert run[depth - 1] in p.transitions; }
  }

  method GroupRealities(p: Protocol, traces: seq<Trace>) returns (groups: map<seq<string>, set<bool>>)
    ensures forall observations :: observations in groups ==> groups[observations] == RealitiesOf(p, traces, observations)
    ensures forall t :: t in traces ==> t.observations in groups
  {
    hide Occurred;
    groups := map[];
    var k := 0;
    while k < |traces|
      invariant k <= |traces|
      invariant forall observations :: observations in groups ==> groups[observations] == RealitiesOf(p, traces[..k], observations)
      invariant forall t :: t in traces[..k] ==> t.observations in groups
    {
      var t := traces[k];
      assert traces[..k + 1] == traces[..k] + [t];
      var known := if t.observations in groups then groups[t.observations] else {};
      assert known == RealitiesOf(p, traces[..k], t.observations);
      groups := groups[t.observations := known + {Occurred(p.states, t.state)}];
      k := k + 1;
    }
    assert traces[..k] == traces;
  }

  lemma FirstTrace(p: Protocol)
    ensures AreRuns(p, 0, [Trace(p.initial, [])])
  {
    assert IsRun(p, p.initial, []) && EndOf(p.initial, []) == p.initial && ObservationsOf([]) == [];
    forall t | TraceOfRun(p, 0, t) ensures t == Trace(p.initial, []) {
      var run :| IsRun(p, p.initial, run) && |run| == 0 && EndOf(p.initial, run) == t.state && ObservationsOf(run) == t.observations;
      assert run == [];
    }
  }

  lemma BothRealities(p: Protocol, traces: seq<Trace>, observations: seq<string>)
    requires |RealitiesOf(p, traces, observations)| > 1
    ensures exists a, b :: a in traces && b in traces && a.observations == observations == b.observations && LookupsDiffer(p, (a.state, b.state))
  {
    hide Occurred;
    var all := RealitiesOf(p, traces, observations);
    var x :| x in all;
    var rest := all - {x};
    assert |rest| == |all| - 1;
    var y :| y in rest;
    var a :| a in traces && a.observations == observations && Occurred(p.states, a.state) == x;
    var b :| b in traces && b.observations == observations && Occurred(p.states, b.state) == y;
  }

  /** A positive oracle count implies an ambiguous pair in the product. */
  lemma OracleImpliesAmbiguous(p: Protocol, product: Product, depth: nat, observations: seq<string>)
    requires IsProduct(p, product) && AmbiguousAt(p, depth, observations)
    ensures exists n :: n in product.seen && Differs(p, n)
  {
    hide IsProduct, IsRun, ObservationsOf, EndOf, Differs;
    var a, b :| TraceOfRun(p, depth, a) && TraceOfRun(p, depth, b) && a.observations == observations == b.observations
      && Differs(p, (a.state, b.state));
    var left :| IsRun(p, p.initial, left) && |left| == depth && EndOf(p.initial, left) == a.state && ObservationsOf(left) == a.observations;
    var right :| IsRun(p, p.initial, right) && |right| == depth && EndOf(p.initial, right) == b.state && ObservationsOf(right) == b.observations;
    assert Twins(p, Start(p), left, right, (a.state, b.state));
    SeenIffTwins(p, product, (a.state, b.state));
  }
}
