/** Which facts a lifecycle can depend on: other obligations matter only through their DONE runs. */
module Frames {
  import opened Facts
  import opened Graph
  import opened Lifecycles

  /** The same meanings, with each lifecycle re-read from `v`. */
  function Recast(v: View, lives: Realizations): Realizations {
    map id | id in lives :: Realization(lives[id].key, LifeFor(v, id, lives[id].key))
  }

  /** The DONE runs of every current meaning are the same in both views, with the same receipts. */
  ghost predicate SameDone(v: View, w: View, lives: Realizations) {
    && w.obligations == v.obligations
    && (forall id :: id in lives && lives[id].key.Some? ==>
          LastDone(w, w.order, id, lives[id].key.value) == LastDone(v, v.order, id, lives[id].key.value))
    && (forall r :: Settled(v, r, DispositionDone) ==> r in w.latest && w.latest[r] == v.latest[r])
  }

  lemma DoneLife(v: View, id: ObligationId, key: Option<Key>)
    ensures LifeFor(v, id, key).status == Done <==> key.Some? && LastDone(v, v.order, id, key.value).Some?
    ensures LifeFor(v, id, key).status == Done ==> LifeFor(v, id, key).run == LastDone(v, v.order, id, key.value)
    ensures LifeFor(v, id, key).status == Done ==> Settled(v, LifeFor(v, id, key).run.value, DispositionDone)
  {
    if key.Some? { LastDoneIs(v, v.order, id, key.value); }
  }

  lemma EdgeSame(v: View, w: View, lives: Realizations, e: Dependency)
    requires Solves(v, lives) && Named(v.obligations) && SameDone(v, w, lives) && e.Semantic?
    ensures EdgeIdentity(w, e, Recast(w, lives)) == EdgeIdentity(v, e, lives)
  {
    hide SameDone, Solves, LifeFor;
    if e.upstream in v.obligations {
      SolvedLife(v, lives, e.upstream);
      var key := lives[e.upstream].key;
      SameDoneAt(v, w, lives, e.upstream);
      DoneLife(v, e.upstream, key);
      DoneLife(w, e.upstream, key);
    } else {
      SameObligations(v, w, lives);
    }
  }

  lemma SameObligations(v: View, w: View, lives: Realizations)
    requires SameDone(v, w, lives)
    ensures w.obligations == v.obligations
  {
  }

  lemma SolvedLife(v: View, lives: Realizations, id: ObligationId)
    requires Solves(v, lives) && Named(v.obligations) && id in v.obligations
    ensures id in lives && lives[id].life == LifeFor(v, id, lives[id].key)
  {
  }

  lemma SameDoneAt(v: View, w: View, lives: Realizations, id: ObligationId)
    requires SameDone(v, w, lives) && id in lives
    ensures w.obligations == v.obligations
    ensures lives[id].key.Some? ==>
      LastDone(w, w.order, id, lives[id].key.value) == LastDone(v, v.order, id, lives[id].key.value)
    ensures forall r :: Settled(v, r, DispositionDone) ==> r in w.latest && w.latest[r] == v.latest[r]
  {
  }

  lemma {:induction false} ConsumedSame(v: View, w: View, lives: Realizations, deps: seq<Dependency>)
    requires Solves(v, lives) && Named(v.obligations) && SameDone(v, w, lives)
    ensures Consumed(w, deps, Recast(w, lives)) == Consumed(v, deps, lives)
    decreases |deps|
  {
    hide SameDone, Solves, EdgeIdentity, Recast;
    if deps != [] {
      if deps[0].Semantic? { EdgeSame(v, w, lives, deps[0]); }
      ConsumedSame(v, w, lives, deps[1..]);
    }
  }

  lemma RecastSolves(v: View, w: View, lives: Realizations)
    requires Solves(v, lives) && Named(v.obligations) && SameDone(v, w, lives)
    ensures Solves(w, Recast(w, lives))
  {
    hide SameDone, LifeFor, Consumed;
    SameObligations(v, w, lives);
    forall id | id in lives ensures Local(w, w.obligations[id], Recast(w, lives)) == Ok(Recast(w, lives)[id]) {
      ConsumedSame(v, w, lives, v.obligations[id].dependencies);
    }
  }

  /** If the DONE runs of all current meanings stay the same, every semantic key stays the same, and every lifecycle is
      the one its own runs give it. */
  lemma OnlyDoneMatters(v: View, w: View, lives: Realizations)
    requires Lives(v) == Ok(lives) && Named(v.obligations) && SameDone(v, w, lives) && ValidGraph(v.obligations)
    ensures Lives(w) == Ok(Recast(w, lives))
  {
    hide SameDone, Solves, LifeFor, Recast, Lives, ValidGraph;
    SameObligations(v, w, lives);
    LivesSolve(v);
    RecastSolves(v, w, lives);
    SolvesIffDerived(w, Recast(w, lives));
  }

  /** A view that differs only in receipts that are not DONE, before and after. */
  ghost predicate OpenReceiptsOnly(v: View, w: View) {
    && w.obligations == v.obligations && w.order == v.order && w.runs == v.runs
    && forall r :: Settled(v, r, DispositionDone) || Settled(w, r, DispositionDone) ==>
         r in v.latest && r in w.latest && w.latest[r] == v.latest[r]
  }

  lemma {:induction false} OpenReceiptsKeepDone(v: View, w: View, order: seq<RunId>, id: ObligationId, key: Key)
    requires OpenReceiptsOnly(v, w)
    ensures LastDone(w, order, id, key) == LastDone(v, order, id, key)
    decreases |order|
  {
    if order != [] { OpenReceiptsKeepDone(v, w, order[..|order| - 1], id, key); }
  }

  lemma OpenReceiptsSameDone(v: View, w: View, lives: Realizations)
    requires OpenReceiptsOnly(v, w)
    ensures SameDone(v, w, lives)
  {
    forall id | id in lives && lives[id].key.Some?
      ensures LastDone(w, w.order, id, lives[id].key.value) == LastDone(v, v.order, id, lives[id].key.value)
    {
      OpenReceiptsKeepDone(v, w, v.order, id, lives[id].key.value);
    }
  }
}
