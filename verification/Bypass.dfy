/** Bounded bypass of `readyWork` (src/authority/project-state.ts:655-685): how often a claimable
    obligation can be passed over before it is selected. */
module Bypass {
  import opened Facts
  import opened Lifecycles
  import opened Replay
  import opened Invariants
  import opened RunSafety
  import opened Scheduling
  import opened Collections

  // ---------------------------------------------------------------- ordinals since a point of the history

  lemma PatchBindings(c: Core, r: Record, id: ObligationId)
    requires StateInv(c) && AfterPatch(c, r).Ok? && id in AfterPatch(c, r).value.bindingOrdinals
    ensures
      || (id in c.bindingOrdinals && AfterPatch(c, r).value.bindingOrdinals[id] == c.bindingOrdinals[id])
      || AfterPatch(c, r).value.bindingOrdinals[id] == c.ordinal
  {
    hide Lives, PatchStep;
    if r.patch.Some? {
      var p := r.patch.value;
      var added := PatchIs(c, Lives(ViewOf(c)), p);
      var bound := Assigned(p.bindings);
      if id in bound { assert Stamped(bound, c.ordinal)[id] == c.ordinal; }
    }
  }

  /** A record leaves a binding alone, or stamps it with its own ordinal. */
  lemma StepBindings(o: Oracle, c: Core, r: Record, id: ObligationId)
    requires Inv(c) && Step(o, c, r).Ok? && id in Step(o, c, r).value.bindingOrdinals
    ensures
      || (id in c.bindingOrdinals && Step(o, c, r).value.bindingOrdinals[id] == c.bindingOrdinals[id])
      || Step(o, c, r).value.bindingOrdinals[id] == c.ordinal + 1
  {
    hide Step, AfterPatch, AfterClaim, AfterAuthority, AfterReservation, AfterRelease, AfterReceipt, RunsInv, StateInv;
    var c1, c2, c3, c4, c5 := Stages(o, c, r);
    BumpKeeps(c);
    AfterPatchKeeps(Bump(c), r);
    AfterClaimKeeps(c1, r);
    AfterAuthorityKeeps(c2, r);
    StateNamed(c1);
    AfterReservationKeeps(c3, r);
    AfterReleaseKeeps(o, c4, r);
    AfterReceiptKeeps(o, c5, r);
    PatchBindings(Bump(c), r, id);
  }

  lemma {:induction false} BindingSince(o: Oracle, history: seq<Record>, more: seq<Record>, id: ObligationId)
    requires Accepted(o, history) && Accepted(o, history + more)
    requires id in After(o, history + more).bindingOrdinals
    ensures
      || (id in After(o, history).bindingOrdinals && After(o, history + more).bindingOrdinals[id] == After(o, history).bindingOrdinals[id])
      || After(o, history + more).bindingOrdinals[id] > |history|
    decreases |more|
  {
    hide Inv;
    if more == [] {
      assert history + more == history;
    } else {
      LastOf(o, history, more);
      var n := |more| - 1;
      HistoryInv(o, history + more[..n]);
      var c := After(o, history + more[..n]);
      StepBindings(o, c, more[n], id);
      if id in c.bindingOrdinals { BindingSince(o, history, more[..n], id); }
    }
  }

  lemma HistoryOrdered(o: Oracle, history: seq<Record>)
    requires Accepted(o, history)
    ensures Ordered(After(o, history)) && Aged(After(o, history))
  {
    HistoryInv(o, history);
    RunsOrdered(After(o, history));
  }

  /** The last service of a meaning after a history, if it was ever claimed. */
  ghost function ServiceAfter(o: Oracle, history: seq<Record>, id: ObligationId, key: Option<Key>): Option<nat>
    requires Accepted(o, history)
  {
    HistoryOrdered(o, history);
    LastService(After(o, history), id, key)
  }

  lemma {:induction false} ServiceSince(o: Oracle, history: seq<Record>, more: seq<Record>, id: ObligationId, key: Option<Key>)
    requires Accepted(o, history) && Accepted(o, history + more)
    ensures
      || ServiceAfter(o, history + more, id, key) == ServiceAfter(o, history, id, key)
      || (ServiceAfter(o, history + more, id, key).Some? && ServiceAfter(o, history + more, id, key).value > |history|)
    decreases |more|
  {
    hide Inv;
    if more == [] {
      assert history + more == history;
    } else {
      LastOf(o, history, more);
      var n := |more| - 1;
      HistoryInv(o, history + more[..n]);
      ServiceSince(o, history, more[..n], id, key);
      StepService(o, After(o, history + more[..n]), more[n], id, key);
    }
  }

  // ---------------------------------------------------------------- selections

  ghost function KeyAfter(c: Core, id: ObligationId): Option<Key> {
    if Lives(ViewOf(c)).Ok? then KeyIn(Lives(ViewOf(c)).value, id) else None
  }

  ghost predicate ClaimableAfter(c: Core, id: ObligationId) {
    Lives(ViewOf(c)).Ok? && Claimable(c, Lives(ViewOf(c)).value, id)
  }

  /** The record is a claim of exactly the obligation `readyWork` selects in the state it is appended to. */
  ghost predicate Selects(c: Core, r: Record) {
    && r.patch.None? && r.claim.Some?
    && Aged(c) && Lives(ViewOf(c)).Ok? && IsReadyWork(c, Lives(ViewOf(c)).value, r.claim.value.obligationId)
  }

  ghost function Selections(o: Oracle, history: seq<Record>, more: seq<Record>): nat
    requires Accepted(o, history + more)
    decreases |more|
  {
    if more == [] then 0
    else
      var n := |more| - 1;
      LastOf(o, history, more);
      Selections(o, history, more[..n]) + if Selects(After(o, history + more[..n]), more[n]) then 1 else 0
  }

  /** Semantic keys and bindings of the obligations bound at the start are unchanged. */
  ghost predicate Unchanged(c: Core, c': Core) {
    && c.bindingOrdinals.Keys <= c'.bindingOrdinals.Keys
    && forall id :: id in c.bindingOrdinals ==> c'.bindingOrdinals[id] == c.bindingOrdinals[id] && KeyAfter(c', id) == KeyAfter(c, id)
  }

  /** `x` stays claimable, and nothing claims it. */
  ghost predicate PassedOver(o: Oracle, history: seq<Record>, more: seq<Record>, x: ObligationId)
    requires Accepted(o, history) && Accepted(o, history + more)
  {
    && (forall r :: r in more ==> r.claim.None? || r.claim.value.obligationId != x)
    && forall k {:trigger more[..k]} :: 0 <= k <= |more| ==>
         && Accepted(o, history + more[..k])
         && ClaimableAfter(After(o, history + more[..k]), x)
         && Unchanged(After(o, history), After(o, history + more[..k]))
  }

  // ---------------------------------------------------------------- stale meanings

  /** The service age a meaning would have in this state; None if it was never claimed and is not currently bound. */
  ghost function MeaningAge(c: Core, id: ObligationId, key: Key): Option<nat>
    requires Aged(c)
  {
    if LastService(c, id, Some(key)).Some? then LastService(c, id, Some(key))
    else if id in c.bindingOrdinals && KeyAfter(c, id) == Some(key) then Some(c.bindingOrdinals[id])
    else None
  }

  type Meaning = (ObligationId, Key)

  /** Every meaning that is bound or was ever claimed. */
  ghost function Meanings(c: Core): set<Meaning> {
    (set id | id in c.bindingOrdinals && KeyAfter(c, id).Some? :: (id, KeyAfter(c, id).value))
    + (set r | r in c.runs :: (c.runs[r].obligationId, c.runs[r].key))
  }

  /** The meanings older than `x`. */
  ghost function Stale(c: Core, x: ObligationId): set<Meaning>
    requires Aged(c) && x in c.bindingOrdinals
  {
    set m | m in Meanings(c) && MeaningAge(c, m.0, m.1).Some?
      && Ahead(MeaningAge(c, m.0, m.1).value, m.0, Age(c, x, KeyAfter(c, x)), x)
  }

  lemma AgeIs(c: Core, id: ObligationId, key: Option<Key>)
    requires Aged(c) && id in c.bindingOrdinals
    ensures Age(c, id, key) == if LastService(c, id, key).Some? then LastService(c, id, key).value else c.bindingOrdinals[id]
  {
  }

  lemma AgeBounded(o: Oracle, history: seq<Record>, id: ObligationId, key: Option<Key>)
    requires Accepted(o, history) && Aged(After(o, history)) && id in After(o, history).bindingOrdinals
    ensures Age(After(o, history), id, key) <= |history|
  {
    HistoryInv(o, history);
    var c := After(o, history);
    if key.Some? { LastCandidateIs(ViewOf(c), c.order, id, key.value); }
  }

  /** The selected obligation is claimed under its current key. */
  lemma SelectedKey(o: Oracle, c: Core, r: Record)
    requires Inv(c) && Step(o, c, r).Ok? && Selects(c, r)
    ensures r.claim.value.obligationId in c.bindingOrdinals
    ensures KeyAfter(c, r.claim.value.obligationId) == Some(r.claim.value.key)
  {
    hide Step, AfterPatch, AfterClaim, AfterAuthority, AfterReservation, AfterRelease, AfterReceipt, RunsInv, StateInv, Lives, IsReadyWork;
    var c1, c2, c3, c4, c5 := Stages(o, c, r);
    PatchNone(Bump(c), r);
    ClaimedKey(Bump(c), r);
    assert ViewOf(Bump(c)) == ViewOf(c);
    StateNamed(c);
  }

  lemma PatchNone(c: Core, r: Record)
    requires r.patch.None?
    ensures AfterPatch(c, r) == Ok(c)
  {
  }

  lemma ClaimedKey(c: Core, r: Record)
    requires AfterClaim(c, r).Ok? && r.claim.Some?
    ensures r.claim.value.obligationId in c.obligations && Lives(ViewOf(c)).Ok?
    ensures Prerequisites(Lives(ViewOf(c)).value, c.obligations[r.claim.value.obligationId]) == Ok(r.claim.value.key)
  {
    hide Lives, Prerequisites;
  }

  /** A meaning that is ahead of `x` now, and was not served since the start, was ahead at the start. */
  lemma AheadThroughout(o: Oracle, history: seq<Record>, more: seq<Record>, x: ObligationId, y: ObligationId, key: Key)
    requires Accepted(o, history) && Accepted(o, history + more)
    requires Aged(After(o, history)) && Aged(After(o, history + more)) && Unchanged(After(o, history), After(o, history + more))
    requires x in After(o, history).bindingOrdinals && y in After(o, history + more).bindingOrdinals
    requires ServiceAfter(o, history + more, x, KeyAfter(After(o, history), x)) == ServiceAfter(o, history, x, KeyAfter(After(o, history), x))
    requires KeyAfter(After(o, history + more), y) == Some(key)
    requires Ahead(Age(After(o, history + more), y, Some(key)), y, Age(After(o, history + more), x, KeyAfter(After(o, history + more), x)), x)
    ensures (y, key) in Stale(After(o, history), x)
    ensures ServiceAfter(o, history + more, y, Some(key)) == ServiceAfter(o, history, y, Some(key))
    ensures Age(After(o, history + more), x, KeyAfter(After(o, history + more), x)) == Age(After(o, history), x, KeyAfter(After(o, history), x))
  {
    hide Age, LastService;
    var c, c' := After(o, history), After(o, history + more);
    HistoryOrdered(o, history);
    HistoryOrdered(o, history + more);
    AgeIs(c', x, KeyAfter(c', x));
    AgeIs(c, x, KeyAfter(c, x));
    AgeIs(c', y, Some(key));
    AgeBounded(o, history, x, KeyAfter(c, x));
    ServiceSince(o, history, more, y, Some(key));
    BindingSince(o, history, more, y);
    InMeanings(c, y, key);
  }

  lemma InMeanings(c: Core, id: ObligationId, key: Key)
    requires Aged(c) && MeaningAge(c, id, key).Some?
    ensures (id, key) in Meanings(c)
  {
    if LastService(c, id, Some(key)).Some? {
      LastCandidateIs(ViewOf(c), c.order, id, key);
      var run := LastCandidate(ViewOf(c), c.order, id, key).value;
      assert run in c.runs && (c.runs[run].obligationId, c.runs[run].key) == (id, key);
    }
  }

  // ---------------------------------------------------------------- the bound

  lemma {:induction false} Unserved(o: Oracle, history: seq<Record>, more: seq<Record>, x: ObligationId, key: Option<Key>)
    requires Accepted(o, history) && Accepted(o, history + more)
    requires forall r :: r in more ==> r.claim.None? || r.claim.value.obligationId != x
    ensures ServiceAfter(o, history + more, x, key) == ServiceAfter(o, history, x, key)
    decreases |more|
  {
    hide Inv;
    if more == [] {
      assert history + more == history;
    } else {
      LastOf(o, history, more);
      var n := |more| - 1;
      HistoryInv(o, history + more[..n]);
      Unserved(o, history, more[..n], x, key);
      assert more[n] in more;
      StepService(o, After(o, history + more[..n]), more[n], x, key);
    }
  }

  lemma PassedOverBefore(o: Oracle, history: seq<Record>, more: seq<Record>, x: ObligationId)
    requires more != [] && Accepted(o, history) && Accepted(o, history + more) && PassedOver(o, history, more, x)
    ensures Accepted(o, history + more[..|more| - 1]) && PassedOver(o, history, more[..|more| - 1], x)
  {
    hide ClaimableAfter, Unchanged, Accepted;
    var n := |more| - 1;
    var before := more[..n];
    forall k | 0 <= k <= |before|
      ensures before[..k] == more[..k]
    {
    }
    assert more[..n] == before;
  }

  /** The claim that `r` makes, as a meaning. */
  function ClaimedMeaning(r: Record): Meaning
    requires r.claim.Some?
  {
    (r.claim.value.obligationId, r.claim.value.key)
  }

  /** Whatever is selected while `x` is passed over was stale at the start and had not been selected since. */
  lemma SelectedIsStale(o: Oracle, history: seq<Record>, more: seq<Record>, r: Record, x: ObligationId)
    requires Accepted(o, history) && Accepted(o, history + more) && PassedOver(o, history, more, x)
    requires Step(o, After(o, history + more), r).Ok? && Selects(After(o, history + more), r) && r.claim.value.obligationId != x
    ensures Aged(After(o, history)) && x in After(o, history).bindingOrdinals
    ensures ClaimedMeaning(r) in Stale(After(o, history), x)
    ensures ServiceAfter(o, history + more, r.claim.value.obligationId, Some(r.claim.value.key))
         == ServiceAfter(o, history, r.claim.value.obligationId, Some(r.claim.value.key))
    ensures KeyAfter(After(o, history + more), r.claim.value.obligationId) == Some(r.claim.value.key)
  {
    hide Step, Inv, Stale, Age, LastService, KeyAfter, Ahead;
    var c, c' := After(o, history), After(o, history + more);
    var y := r.claim.value.obligationId;
    HistoryInv(o, history + more);
    HistoryOrdered(o, history);
    HistoryOrdered(o, history + more);
    SelectedKey(o, c', r);
    assert more[..|more|] == more;
    assert ClaimableAfter(c', x) && Unchanged(c, c');
    assert more[..0] == [] && history + [] == history;
    assert ClaimableAfter(c, x);
    Unserved(o, history, more, x, KeyAfter(c, x));
    assert KeyAfter(c', y) == KeyIn(Lives(ViewOf(c')).value, y) && KeyAfter(c', x) == KeyIn(Lives(ViewOf(c')).value, x) by { KeyAfterIs(c', x); KeyAfterIs(c', y); }
    AheadThroughout(o, history, more, x, y, r.claim.value.key);
  }

  lemma KeyAfterIs(c: Core, id: ObligationId)
    requires Lives(ViewOf(c)).Ok?
    ensures KeyAfter(c, id) == KeyIn(Lives(ViewOf(c)).value, id)
  {
  }

  /** The meanings selected while `x` is passed over: each is stale at the start and is selected once. */
  lemma {:induction false} Bypassers(o: Oracle, history: seq<Record>, more: seq<Record>, x: ObligationId) returns (served: set<Meaning>)
    requires Accepted(o, history) && Accepted(o, history + more) && PassedOver(o, history, more, x)
    ensures Aged(After(o, history)) && x in After(o, history).bindingOrdinals
    ensures |served| == Selections(o, history, more) && served <= Stale(After(o, history), x)
    ensures forall m :: m in served ==>
      exists r :: r in more && r.claim.Some? && m == ClaimedMeaning(r)
    ensures forall m :: m in served && m.0 in After(o, history).bindingOrdinals ==> KeyAfter(After(o, history), m.0) == Some(m.1)
    ensures forall m :: m in served ==>
      ServiceAfter(o, history + more, m.0, Some(m.1)).Some? && ServiceAfter(o, history + more, m.0, Some(m.1)).value > |history|
    decreases |more|
  {
    hide Inv, Step, Stale, Age, LastService, KeyAfter, ServiceAfter, Selects, PassedOver, Accepted, After, Aged;
    if more == [] {
      served := {};
      StartsBound(o, history, more, x);
    } else {
      var n := |more| - 1;
      LastOf(o, history, more);
      PassedOverBefore(o, history, more, x);
      var before := Bypassers(o, history, more[..n], x);
      assert more[n] in more;
      served := Grown(o, history, more, x, before);
    }
  }

  lemma StartsBound(o: Oracle, history: seq<Record>, more: seq<Record>, x: ObligationId)
    requires Accepted(o, history) && Accepted(o, history + more) && PassedOver(o, history, more, x)
    ensures Aged(After(o, history)) && x in After(o, history).bindingOrdinals
  {
    hide Claimable, Unchanged, Lives, Accepted, After;
    HistoryOrdered(o, history);
    assert history + more[..0] == history;
    ClaimableBound(After(o, history), x);
  }

  lemma ClaimableBound(c: Core, x: ObligationId)
    requires Aged(c) && ClaimableAfter(c, x)
    ensures x in c.bindingOrdinals
  {
    hide Lives;
  }

  /** One more record grows the set of served meanings exactly when it selects. */
  lemma Grown(o: Oracle, history: seq<Record>, more: seq<Record>, x: ObligationId, before: set<Meaning>) returns (served: set<Meaning>)
    requires more != [] && Accepted(o, history) && Accepted(o, history + more) && PassedOver(o, history, more, x)
    requires Accepted(o, history + more[..|more| - 1]) && PassedOver(o, history, more[..|more| - 1], x)
    requires Aged(After(o, history)) && x in After(o, history).bindingOrdinals && before <= Stale(After(o, history), x)
    requires Step(o, After(o, history + more[..|more| - 1]), more[|more| - 1]) == Ok(After(o, history + more))
    requires forall m :: m in before && m.0 in After(o, history).bindingOrdinals ==> KeyAfter(After(o, history), m.0) == Some(m.1)
    requires forall m :: m in before ==>
      && ServiceAfter(o, history + more[..|more| - 1], m.0, Some(m.1)).Some?
      && ServiceAfter(o, history + more[..|more| - 1], m.0, Some(m.1)).value > |history|
    ensures served <= Stale(After(o, history), x)
    ensures |served| == |before| + if Selects(After(o, history + more[..|more| - 1]), more[|more| - 1]) then 1 else 0
    ensures forall m :: m in served ==> m in before || (more[|more| - 1].claim.Some? && m == ClaimedMeaning(more[|more| - 1]))
    ensures forall m :: m in served && m.0 in After(o, history).bindingOrdinals ==> KeyAfter(After(o, history), m.0) == Some(m.1)
    ensures forall m :: m in served ==>
      ServiceAfter(o, history + more, m.0, Some(m.1)).Some? && ServiceAfter(o, history + more, m.0, Some(m.1)).value > |history|
  {
    hide Inv, Step, Stale, KeyAfter, Selects, PassedOver, ServiceAfter, Aged, Accepted;
    var n := |more| - 1;
    var r := more[n];
    served := before;
    if Selects(After(o, history + more[..n]), r) {
      SelectsClaim(After(o, history + more[..n]), r);
      assert r in more && r.claim.value.obligationId != x by { ClaimsOther(o, history, more, x); }
      served := before + {ClaimedMeaning(r)};
      NewlyServed(o, history, more[..n], r, x);
    }
    forall m | m in served
      ensures ServiceAfter(o, history + more, m.0, Some(m.1)).Some? && ServiceAfter(o, history + more, m.0, Some(m.1)).value > |history|
    {
      StillServed(o, history, more, m);
    }
  }

  lemma ClaimsOther(o: Oracle, history: seq<Record>, more: seq<Record>, x: ObligationId)
    requires Accepted(o, history) && Accepted(o, history + more) && PassedOver(o, history, more, x)
    ensures forall r :: r in more ==> r.claim.None? || r.claim.value.obligationId != x
  {
  }

  lemma NewlyServed(o: Oracle, history: seq<Record>, more: seq<Record>, r: Record, x: ObligationId)
    requires Accepted(o, history) && Accepted(o, history + more) && PassedOver(o, history, more, x)
    requires Step(o, After(o, history + more), r).Ok? && Selects(After(o, history + more), r)
    requires r.claim.Some? && r.claim.value.obligationId != x
    ensures Aged(After(o, history)) && x in After(o, history).bindingOrdinals
    ensures ClaimedMeaning(r) in Stale(After(o, history), x)
    ensures var m := ClaimedMeaning(r); var service := ServiceAfter(o, history + more, m.0, Some(m.1));
      service.Some? ==> service.value <= |history|
    ensures r.claim.value.obligationId in After(o, history).bindingOrdinals ==>
      KeyAfter(After(o, history), r.claim.value.obligationId) == Some(r.claim.value.key)
  {
    hide Inv, Step, Stale, KeyAfter, Selects, ServiceAfter, ClaimableAfter;
    SelectedIsStale(o, history, more, r, x);
    StaleService(o, history, x, ClaimedMeaning(r));
    assert more[..|more|] == more;
    assert Unchanged(After(o, history), After(o, history + more));
  }

  lemma StillServed(o: Oracle, history: seq<Record>, more: seq<Record>, m: Meaning)
    requires more != [] && Accepted(o, history + more) && Accepted(o, history + more[..|more| - 1])
    requires Step(o, After(o, history + more[..|more| - 1]), more[|more| - 1]) == Ok(After(o, history + more))
    requires
      || (&& ServiceAfter(o, history + more[..|more| - 1], m.0, Some(m.1)).Some?
          && ServiceAfter(o, history + more[..|more| - 1], m.0, Some(m.1)).value > |history|)
      || (more[|more| - 1].claim.Some? && m == ClaimedMeaning(more[|more| - 1]))
    ensures ServiceAfter(o, history + more, m.0, Some(m.1)).Some? && ServiceAfter(o, history + more, m.0, Some(m.1)).value > |history|
  {
    hide Inv, Step;
    HistoryInv(o, history + more[..|more| - 1]);
    StepService(o, After(o, history + more[..|more| - 1]), more[|more| - 1], m.0, Some(m.1));
  }

  lemma SelectsClaim(c: Core, r: Record)
    requires Selects(c, r)
    ensures r.claim.Some?
  {
  }

  lemma StaleService(o: Oracle, history: seq<Record>, x: ObligationId, m: Meaning)
    requires Accepted(o, history) && Aged(After(o, history)) && x in After(o, history).bindingOrdinals
    requires m in Stale(After(o, history), x)
    ensures ServiceAfter(o, history, m.0, Some(m.1)).Some? ==> ServiceAfter(o, history, m.0, Some(m.1)).value <= |history|
  {
    HistoryInv(o, history);
    var c := After(o, history);
    LastCandidateIs(ViewOf(c), c.order, m.0, m.1);
  }

  /** Bounded bypass: an obligation that stays claimable is passed over at most once for each meaning that was
      older than it at the start, however many obligations are bound meanwhile. */
  lemma BypassBounded(o: Oracle, history: seq<Record>, more: seq<Record>, x: ObligationId)
    requires Accepted(o, history) && Accepted(o, history + more) && PassedOver(o, history, more, x)
    ensures Aged(After(o, history)) && x in After(o, history).bindingOrdinals
    ensures Selections(o, history, more) <= |Stale(After(o, history), x)|
  {
    hide Stale, Selections;
    var served := Bypassers(o, history, more, x);
    SubsetSize(served, Stale(After(o, history), x));
  }

  /** The obligations bound at the start with a smaller (service age, id). */
  ghost function AheadOf(c: Core, x: ObligationId): set<ObligationId>
    requires Aged(c) && x in c.bindingOrdinals
  {
    set y | y in c.bindingOrdinals && Ahead(Age(c, y, KeyAfter(c, y)), y, Age(c, x, KeyAfter(c, x)), x)
  }

  /** The record claims an obligation that was not bound at the start, under a meaning already claimed before it. */
  ghost predicate Revives(o: Oracle, history: seq<Record>, r: Record)
    requires Accepted(o, history)
  {
    && r.claim.Some? && r.claim.value.obligationId !in After(o, history).bindingOrdinals
    && ServiceAfter(o, history, r.claim.value.obligationId, Some(r.claim.value.key)).Some?
  }

  lemma StaleBound(o: Oracle, history: seq<Record>, x: ObligationId, m: Meaning)
    requires Accepted(o, history) && Aged(After(o, history)) && x in After(o, history).bindingOrdinals
    requires m in Stale(After(o, history), x)
    ensures m.0 !in After(o, history).bindingOrdinals ==> ServiceAfter(o, history, m.0, Some(m.1)).Some?
    ensures m.0 in After(o, history).bindingOrdinals && KeyAfter(After(o, history), m.0) == Some(m.1) ==> m.0 in AheadOf(After(o, history), x)
  {
    hide LastService, KeyAfter;
    var c := After(o, history);
    if m.0 in c.bindingOrdinals { AgeIs(c, m.0, Some(m.1)); }
  }

  /** A selection that passes `x` over is of an obligation that was ahead of `x` at the start, unless it revives
      a meaning; exactly the revivals fall outside. */
  lemma PassedByAheadOrRevival(o: Oracle, history: seq<Record>, more: seq<Record>, r: Record, x: ObligationId)
    requires Accepted(o, history) && Accepted(o, history + more) && PassedOver(o, history, more, x)
    requires Step(o, After(o, history + more), r).Ok? && Selects(After(o, history + more), r) && r.claim.value.obligationId != x
    ensures Aged(After(o, history)) && x in After(o, history).bindingOrdinals
    ensures r.claim.value.obligationId in AheadOf(After(o, history), x) <==> !Revives(o, history, r)
  {
    hide Step, Inv, Stale, Selects, ClaimableAfter, KeyAfter, AheadOf, LastService;
    SelectsClaim(After(o, history + more), r);
    SelectedIsStale(o, history, more, r, x);
    StaleBound(o, history, x, ClaimedMeaning(r));
    assert more[..|more|] == more;
    assert Unchanged(After(o, history), After(o, history + more));
    AheadOfBound(After(o, history), x);
  }

  lemma AheadOfBound(c: Core, x: ObligationId)
    requires Aged(c) && x in c.bindingOrdinals
    ensures AheadOf(c, x) <= c.bindingOrdinals.Keys
  {
  }

  lemma {:induction false} Firsts(served: set<Meaning>, ids: set<ObligationId>)
    requires forall m, m' :: m in served && m' in served && m.0 == m'.0 ==> m == m'
    requires forall m :: m in served ==> m.0 in ids
    ensures |served| <= |ids|
    decreases served
  {
    if served != {} {
      var m :| m in served;
      Firsts(served - {m}, ids - {m.0});
    }
  }

  /** Without revivals the bound is the number of obligations with a smaller (service age, id) at the start. */
  lemma BypassBoundedByIds(o: Oracle, history: seq<Record>, more: seq<Record>, x: ObligationId)
    requires Accepted(o, history) && Accepted(o, history + more) && PassedOver(o, history, more, x)
    requires forall r :: r in more ==> !Revives(o, history, r)
    ensures Aged(After(o, history)) && x in After(o, history).bindingOrdinals
    ensures Selections(o, history, more) <= |AheadOf(After(o, history), x)|
  {
    hide Stale, Selections, AheadOf, PassedOver, KeyAfter, ServiceAfter, Aged;
    var served := Bypassers(o, history, more, x);
    forall m | m in served ensures m.0 in AheadOf(After(o, history), x) && m.0 in After(o, history).bindingOrdinals {
      StaleBound(o, history, x, m);
    }
    Firsts(served, AheadOf(After(o, history), x));
  }
}
