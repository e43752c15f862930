/** Deriving lifecycles, semantic keys and claimability from the facts
    (src/authority/project-state.ts, src/graph/identity.ts). */
module Lifecycles {
  import opened Facts
  import opened Graph
  import opened Adapter

  datatype Status = Unrealized | Executing | Waiting | RecoveryRequired | Done
  datatype Lifecycle = Lifecycle(status: Status, run: Option<RunId>)
  datatype Realization = Realization(key: Option<Key>, life: Lifecycle)
  type Realizations = map<ObligationId, Realization>

  // ---------------------------------------------------------------- semantic keys

  /** What one semantic edge contributes; None while the upstream is not DONE. */
  function EdgeIdentity(v: View, e: Dependency, lives: Realizations): Result<Option<Identity>>
    requires e.Semantic?
  {
    if e.upstream !in v.obligations then Err(UnknownDependency)
    else if e.upstream !in lives || lives[e.upstream].life.status != Done || lives[e.upstream].life.run.None? then Ok(None)
    else match e.consumes
      case VerifiedContent =>
        (match VerifiedContentIdentity(v.obligations[e.upstream].post)
         case Some(identity) => Ok(Some(identity))
         case None => Err(UnavailableSemanticOutput))
      case SettlementReceipt =>
        var run := lives[e.upstream].life.run.value;
        if run in v.latest && v.latest[run].disposition == DispositionDone
        then Ok(Some(SettlementIdentity(v.latest[run].settlement)))
        else Ok(None)
      case UnsupportedConsumes(_, _) => Err(UnsupportedSelector)
  }

  function Consumed(v: View, deps: seq<Dependency>, lives: Realizations): Result<Option<seq<(Consumes, Identity)>>> {
    if deps == [] then Ok(Some([]))
    else if deps[0].Control? then Consumed(v, deps[1..], lives)
    else
      var identity :- EdgeIdentity(v, deps[0], lives);
      if identity.None? then Ok(None)
      else
        var rest :- Consumed(v, deps[1..], lives);
        if rest.None? then Ok(None) else Ok(Some([(deps[0].consumes, identity.value)] + rest.value))
  }

  /** `obligationKey`. */
  function KeyOf(v: View, work: Obligation, lives: Realizations): Result<Option<Key>> {
    var consumed :- Consumed(v, work.dependencies, lives);
    if consumed.None? then Ok(None)
    else Ok(Some(Key(work.id, work.packet, work.post, multiset(consumed.value))))
  }

  // ---------------------------------------------------------------- lifecycles

  /** A run that was claimed for this obligation under this meaning. */
  predicate Candidate(v: View, run: RunId, id: ObligationId, key: Key) {
    run in v.runs && v.runs[run].obligationId == id && v.runs[run].key == key
  }

  predicate Settled(v: View, run: RunId, d: Disposition) {
    run in v.latest && v.latest[run].disposition == d
  }

  function LastCandidate(v: View, order: seq<RunId>, id: ObligationId, key: Key): Option<RunId> {
    if order == [] then None
    else
      var run := order[|order| - 1];
      if Candidate(v, run, id, key) then Some(run)
      else LastCandidate(v, order[..|order| - 1], id, key)
  }

  function LastDone(v: View, order: seq<RunId>, id: ObligationId, key: Key): Option<RunId> {
    if order == [] then None
    else
      var run := order[|order| - 1];
      if Candidate(v, run, id, key) && Settled(v, run, DispositionDone) then Some(run)
      else LastDone(v, order[..|order| - 1], id, key)
  }

  /** The lifecycle of an obligation whose current key is `key`. */
  function LifeFor(v: View, id: ObligationId, key: Option<Key>): Lifecycle {
    if key.None? then Lifecycle(Unrealized, None)
    else
      var done := LastDone(v, v.order, id, key.value);
      var last := LastCandidate(v, v.order, id, key.value);
      if done.Some? then Lifecycle(Done, done)
      else if last.None? then Lifecycle(Unrealized, None)
      else LifeOfLatest(v, last.value)
  }

  function LifeOfLatest(v: View, run: RunId): Lifecycle {
    if run !in v.latest then Lifecycle(Executing, Some(run))
    else match v.latest[run].disposition
      case DispositionWaiting =>
        if run in v.runs && v.runs[run].generation > v.latest[run].fact.generation
        then Lifecycle(Executing, Some(run))
        else Lifecycle(Waiting, Some(run))
      case DispositionRecovery => Lifecycle(RecoveryRequired, Some(run))
      case _ => Lifecycle(Unrealized, None)
  }

  function Local(v: View, work: Obligation, lives: Realizations): Result<Realization> {
    var key :- KeyOf(v, work, lives);
    Ok(Realization(key, LifeFor(v, work.id, key)))
  }

  /** `derive`: depth first along semantic edges, failing on an obligation that is still being visited. */
  function Derive(v: View, id: ObligationId, visiting: set<ObligationId>): Result<Realization>
    decreases v.obligations.Keys - visiting, 0
  {
    if id in visiting then Err(DependencyCycle)
    else if id !in v.obligations then Err(UnknownObligation)
    else
      var work := v.obligations[id];
      var ups :- DeriveUpstreams(v, work.dependencies, visiting + {id});
      Local(v, work, ups)
  }

  function DeriveUpstreams(v: View, deps: seq<Dependency>, visiting: set<ObligationId>): Result<Realizations>
    decreases v.obligations.Keys - visiting, |deps| + 1
  {
    if deps == [] then Ok(map[])
    else if deps[0].Control? then DeriveUpstreams(v, deps[1..], visiting)
    else
      var first :- Derive(v, deps[0].upstream, visiting);
      var rest :- DeriveUpstreams(v, deps[1..], visiting);
      Ok(rest[deps[0].upstream := first])
  }

  /** The projection every reducer step and every writer decision reads: all lifecycles and keys.
      Which obligation's error is raised first is not modelled. */
  function Lives(v: View): Result<Realizations> {
    if forall id :: id in v.obligations ==> Derive(v, id, {}).Ok?
    then Ok(map id | id in v.obligations :: Derive(v, id, {}).value)
    else Err(ProjectionInvalid)
  }

  predicate InFlightStatus(s: Status) { s == Executing || s == Waiting || s == RecoveryRequired }

  /** `hasInFlight`. */
  predicate HasInFlight(lives: Realizations) {
    exists id :: id in lives && InFlightStatus(lives[id].life.status)
  }

  /** `current?.run?.id === run.id` with one of the given statuses. */
  predicate CurrentIs(lives: Realizations, run: Run, s: Status) {
    && run.obligationId in lives
    && lives[run.obligationId].life == Lifecycle(s, Some(run.id))
  }

  predicate CurrentRun(lives: Realizations, run: Run) {
    run.obligationId in lives && lives[run.obligationId].life.run == Some(run.id)
  }

  // ---------------------------------------------------------------- claimability

  /** `deriveClaimPrerequisites`. */
  function Prerequisites(lives: Realizations, work: Obligation): Result<Key> {
    if work.id in lives && lives[work.id].life.status != Unrealized then Err(NotReady)
    else if exists u :: u in Upstreams(work) && !(u in lives && lives[u].life.status == Done) then Err(DependenciesNotDone)
    else if work.id !in lives || lives[work.id].key.None? then Err(SemanticDependencyUnresolved)
    else Ok(lives[work.id].key.value)
  }

  /** What a claim needs, spelled out: the work is unrealized, everything it depends on is DONE, and this is its meaning. */
  ghost predicate Startable(lives: Realizations, work: Obligation, key: Key) {
    && work.id in lives && lives[work.id].life.status == Unrealized && lives[work.id].key == Some(key)
    && forall d :: d in work.dependencies ==> d.upstream in lives && lives[d.upstream].life.status == Done
  }

  lemma PrerequisitesIff(lives: Realizations, work: Obligation, key: Key)
    ensures Prerequisites(lives, work) == Ok(key) <==> Startable(lives, work, key)
  {
    if exists u :: u in Upstreams(work) && !(u in lives && lives[u].life.status == Done) {
      var u :| u in Upstreams(work) && !(u in lives && lives[u].life.status == Done);
      var d :| d in work.dependencies && d.upstream == u;
    } else {
      forall d | d in work.dependencies ensures d.upstream in lives && lives[d.upstream].life.status == Done {
        assert d.upstream in Upstreams(work);
      }
    }
  }

  /** The pairwise conflict rule: the postconditions conflict, and neither obligation depends on the other. */
  predicate ConflictingPair(obs: Obligations, left: ObligationId, right: ObligationId) {
    && left in obs && right in obs && left != right
    && PostsConflict(obs[left].post, obs[right].post)
    && !DependsOn(obs, left, right) && !DependsOn(obs, right, left)
  }

  predicate HasConflict(obs: Obligations, id: ObligationId) {
    exists other :: other in obs && ConflictingPair(obs, id, other)
  }

  /** `deriveClaimability`, without historical-realization judgments (none are supplied by replay). */
  function Claimability(v: View, lives: Realizations, id: ObligationId): Result<Key>
    requires id in v.obligations
  {
    if v.obligations[id].post.OperatorJudgment? then Err(JudgmentRequired)
    else
      var key :- Prerequisites(lives, v.obligations[id]);
      if HasConflict(v.obligations, id) then Err(UnorderedEffectConflict) else Ok(key)
  }

  /** The semantic edges admission insists on (`validateSemanticEdges`). */
  predicate SemanticEdgesAvailable(obs: Obligations) {
    forall id, d :: id in obs && d in obs[id].dependencies && d.Semantic? ==>
      && d.upstream in obs
      && !d.consumes.UnsupportedConsumes?
      && (d.consumes == VerifiedContent ==> VerifiedContentIdentity(obs[d.upstream].post).Some?)
  }

  // ---------------------------------------------------------------- lemmas: the derivation

  /** Obligations are stored under their own id. */
  predicate Named(obs: Obligations) { forall id :: id in obs ==> obs[id].id == id }

  lemma DeriveMonotone(v: View, id: ObligationId, small: set<ObligationId>, large: set<ObligationId>)
    requires small <= large
    requires Derive(v, id, large).Ok?
    ensures Derive(v, id, small) == Derive(v, id, large)
    decreases v.obligations.Keys - large, 0
  {
    var work := v.obligations[id];
    UpstreamsMonotone(v, work.dependencies, small + {id}, large + {id});
  }

  lemma {:induction false} UpstreamsMonotone(v: View, deps: seq<Dependency>, small: set<ObligationId>, large: set<ObligationId>)
    requires small <= large
    requires DeriveUpstreams(v, deps, large).Ok?
    ensures DeriveUpstreams(v, deps, small) == DeriveUpstreams(v, deps, large)
    decreases v.obligations.Keys - large, |deps| + 1
  {
    if deps != [] {
      if deps[0].Semantic? { DeriveMonotone(v, deps[0].upstream, small, large); }
      UpstreamsMonotone(v, deps[1..], small, large);
    }
  }

  /** The upstream map holds each semantic upstream's own derivation. */
  lemma {:induction false} UpstreamsAre(v: View, deps: seq<Dependency>, visiting: set<ObligationId>, d: Dependency)
    requires DeriveUpstreams(v, deps, visiting).Ok?
    requires d in deps && d.Semantic?
    ensures d.upstream in DeriveUpstreams(v, deps, visiting).value
    ensures Derive(v, d.upstream, {}) == Ok(DeriveUpstreams(v, deps, visiting).value[d.upstream])
    decreases deps
  {
    if deps[0].Semantic? && deps[0].upstream == d.upstream {
      DeriveMonotone(v, d.upstream, {}, visiting);
    } else {
      UpstreamsAre(v, deps[1..], visiting, d);
    }
  }

  /** The key reads only the semantic upstreams. */
  lemma {:induction false} ConsumedAgree(v: View, deps: seq<Dependency>, l1: Realizations, l2: Realizations)
    requires forall d :: d in deps && d.Semantic? ==> d.upstream in l1 && d.upstream in l2 && l1[d.upstream] == l2[d.upstream]
    ensures Consumed(v, deps, l1) == Consumed(v, deps, l2)
    decreases deps
  {
    if deps != [] {
      assert deps[0] in deps;
      ConsumedAgree(v, deps[1..], l1, l2);
    }
  }

  /** Lifecycles solve their defining equation: each is the local rule applied to all the others. */
  ghost predicate Solves(v: View, lives: Realizations) {
    && lives.Keys == v.obligations.Keys
    && forall id :: id in lives ==> Local(v, v.obligations[id], lives) == Ok(lives[id])
  }

  lemma LivesSolve(v: View)
    requires Lives(v).Ok?
    ensures Solves(v, Lives(v).value)
  {
    var lives := Lives(v).value;
    forall id | id in lives ensures Local(v, v.obligations[id], lives) == Ok(lives[id]) {
      var work := v.obligations[id];
      assert Derive(v, id, {}).Ok?;
      var ups := DeriveUpstreams(v, work.dependencies, {} + {id}).value;
      forall d | d in work.dependencies && d.Semantic?
        ensures d.upstream in ups && d.upstream in lives && ups[d.upstream] == lives[d.upstream]
      {
        UpstreamsAre(v, work.dependencies, {} + {id}, d);
      }
      ConsumedAgree(v, work.dependencies, ups, lives);
    }
  }

  lemma {:induction false} UpstreamsFollow(v: View, deps: seq<Dependency>, visiting: set<ObligationId>, lives: Realizations)
    requires forall d :: d in deps && d.Semantic? ==> d.upstream in lives && Derive(v, d.upstream, visiting) == Ok(lives[d.upstream])
    ensures DeriveUpstreams(v, deps, visiting).Ok?
    ensures forall d :: d in deps && d.Semantic? ==>
      d.upstream in DeriveUpstreams(v, deps, visiting).value && DeriveUpstreams(v, deps, visiting).value[d.upstream] == lives[d.upstream]
    decreases deps
  {
    if deps != [] {
      assert deps[0] in deps;
      UpstreamsFollow(v, deps[1..], visiting, lives);
    }
  }

  lemma {:induction false} SolutionDerives(v: View, lives: Realizations, order: seq<ObligationId>, k: nat, visiting: set<ObligationId>)
    requires Solves(v, lives) && TopologicalOrder(v.obligations, order)
    requires k < |order| && (forall i :: 0 <= i <= k ==> order[i] !in visiting)
    ensures order[k] in lives && Derive(v, order[k], visiting) == Ok(lives[order[k]])
    decreases k
  {
    var id := order[k];
    assert id in order;
    var work := v.obligations[id];
    forall d | d in work.dependencies && d.Semantic?
      ensures d.upstream in lives && Derive(v, d.upstream, visiting + {id}) == Ok(lives[d.upstream])
    {
      assert d.upstream in order[..k];
      var i :| 0 <= i < k && order[i] == d.upstream;
      SolutionDerives(v, lives, order, i, visiting + {id});
    }
    UpstreamsFollow(v, work.dependencies, visiting + {id}, lives);
    ConsumedAgree(v, work.dependencies, DeriveUpstreams(v, work.dependencies, visiting + {id}).value, lives);
  }

  /** Over a valid graph the equations characterise the derivation: a table solves them if and only if it is the derived one. */
  lemma SolvesIffDerived(v: View, lives: Realizations)
    requires ValidGraph(v.obligations)
    ensures Solves(v, lives) <==> Lives(v) == Ok(lives)
  {
    hide Local;
    if Solves(v, lives) {
      ValidIffOrdered(v.obligations);
      var order :| TopologicalOrder(v.obligations, order);
      forall id | id in v.obligations ensures Derive(v, id, {}) == Ok(lives[id]) {
        var k :| 0 <= k < |order| && order[k] == id;
        SolutionDerives(v, lives, order, k, {});
      }
      assert Lives(v).value == lives;
    }
    if Lives(v) == Ok(lives) { LivesSolve(v); }
  }

  lemma {:induction false} ConsumedOk(v: View, deps: seq<Dependency>, lives: Realizations)
    requires forall d :: d in deps && d.Semantic? ==>
      && d.upstream in v.obligations && !d.consumes.UnsupportedConsumes?
      && (d.consumes == VerifiedContent ==> VerifiedContentIdentity(v.obligations[d.upstream].post).Some?)
    ensures Consumed(v, deps, lives).Ok?
    decreases deps
  {
    if deps != [] {
      assert deps[0] in deps;
      ConsumedOk(v, deps[1..], lives);
    }
  }

  lemma {:induction false} UpstreamsOk(v: View, deps: seq<Dependency>, visiting: set<ObligationId>)
    requires forall d :: d in deps && d.Semantic? ==> Derive(v, d.upstream, visiting).Ok?
    ensures DeriveUpstreams(v, deps, visiting).Ok?
    decreases deps
  {
    if deps != [] {
      assert deps[0] in deps;
      UpstreamsOk(v, deps[1..], visiting);
    }
  }

  lemma {:induction false} DeriveOk(v: View, order: seq<ObligationId>, k: nat, visiting: set<ObligationId>)
    requires TopologicalOrder(v.obligations, order) && SemanticEdgesAvailable(v.obligations)
    requires k < |order| && (forall i :: 0 <= i <= k ==> order[i] !in visiting)
    ensures Derive(v, order[k], visiting).Ok?
    decreases k
  {
    var id := order[k];
    assert id in order;
    var work := v.obligations[id];
    forall d | d in work.dependencies && d.Semantic? ensures Derive(v, d.upstream, visiting + {id}).Ok? {
      assert d.upstream in Upstreams(work);
      var i :| 0 <= i < k && order[i] == d.upstream;
      DeriveOk(v, order, i, visiting + {id});
    }
    UpstreamsOk(v, work.dependencies, visiting + {id});
    ConsumedOk(v, work.dependencies, DeriveUpstreams(v, work.dependencies, visiting + {id}).value);
  }

  /** On a valid graph whose semantic edges are available the projection never fails. */
  lemma LivesOk(v: View)
    requires ValidGraph(v.obligations) && SemanticEdgesAvailable(v.obligations)
    ensures Lives(v).Ok?
  {
    ValidIffOrdered(v.obligations);
    var order :| TopologicalOrder(v.obligations, order);
    forall id | id in v.obligations ensures Derive(v, id, {}).Ok? {
      var k :| 0 <= k < |order| && order[k] == id;
      DeriveOk(v, order, k, {});
    }
  }

  // ---------------------------------------------------------------- lemmas: which run a lifecycle names

  lemma {:induction false} LastCandidateIs(v: View, order: seq<RunId>, id: ObligationId, key: Key)
    ensures LastCandidate(v, order, id, key).None? ==>
      forall i :: 0 <= i < |order| ==> !Candidate(v, order[i], id, key)
    ensures LastCandidate(v, order, id, key).Some? ==>
      exists i :: 0 <= i < |order| && order[i] == LastCandidate(v, order, id, key).value
        && Candidate(v, order[i], id, key) && forall j :: i < j < |order| ==> !Candidate(v, order[j], id, key)
    decreases |order|
  {
    if order != [] {
      var n := |order| - 1;
      if !Candidate(v, order[n], id, key) {
        LastCandidateIs(v, order[..n], id, key);
        if LastCandidate(v, order, id, key).Some? {
          var i :| 0 <= i < n && order[..n][i] == LastCandidate(v, order, id, key).value
            && Candidate(v, order[..n][i], id, key) && forall j :: i < j < n ==> !Candidate(v, order[..n][j], id, key);
          forall j | i < j < |order| ensures !Candidate(v, order[j], id, key) {
            if j < n { assert order[..n][j] == order[j]; }
          }
        } else {
          forall i | 0 <= i < |order| ensures !Candidate(v, order[i], id, key) {
            if i < n { assert order[..n][i] == order[i]; }
          }
        }
      }
    }
  }

  lemma {:induction false} LastDoneIs(v: View, order: seq<RunId>, id: ObligationId, key: Key)
    ensures LastDone(v, order, id, key).None? ==>
      forall i :: 0 <= i < |order| ==> !(Candidate(v, order[i], id, key) && Settled(v, order[i], DispositionDone))
    ensures LastDone(v, order, id, key).Some? ==>
      var run := LastDone(v, order, id, key).value;
      run in order && Candidate(v, run, id, key) && Settled(v, run, DispositionDone)
    decreases |order|
  {
    if order != [] {
      var n := |order| - 1;
      LastDoneIs(v, order[..n], id, key);
      if LastDone(v, order, id, key).None? {
        forall i | 0 <= i < |order|
          ensures !(Candidate(v, order[i], id, key) && Settled(v, order[i], DispositionDone))
        {
          if i < n { assert order[..n][i] == order[i]; }
        }
      }
    }
  }

  /** What a lifecycle says about the run it names. */
  lemma CurrentFacts(v: View, lives: Realizations, id: ObligationId, run: RunId)
    requires Solves(v, lives) && Named(v.obligations)
    requires id in lives && lives[id].life.run == Some(run)
    ensures lives[id].key.Some? && Candidate(v, run, id, lives[id].key.value)
    ensures lives[id].life.status == Done <==> Settled(v, run, DispositionDone)
    ensures lives[id].life.status == RecoveryRequired <==> Settled(v, run, DispositionRecovery)
    ensures lives[id].life.status == Executing <==>
      run !in v.latest || (Settled(v, run, DispositionWaiting) && v.runs[run].generation > v.latest[run].fact.generation)
    ensures lives[id].life.status == Waiting <==>
      Settled(v, run, DispositionWaiting) && v.runs[run].generation <= v.latest[run].fact.generation
    ensures lives[id].life.status != Unrealized
  {
    var key := lives[id].key;
    assert lives[id].life == LifeFor(v, id, key);
    LastDoneIs(v, v.order, id, key.value);
    LastCandidateIs(v, v.order, id, key.value);
  }

  /** An unrealized obligation whose key is known has only READY runs at the end of its line. */
  lemma UnrealizedFacts(v: View, lives: Realizations, id: ObligationId)
    requires Solves(v, lives) && Named(v.obligations)
    requires id in lives && lives[id].life.status == Unrealized && lives[id].key.Some?
    ensures LastCandidate(v, v.order, id, lives[id].key.value).Some? ==>
      Settled(v, LastCandidate(v, v.order, id, lives[id].key.value).value, DispositionReady)
    ensures forall r :: r in v.order && Candidate(v, r, id, lives[id].key.value) ==> !Settled(v, r, DispositionDone)
  {
    var key := lives[id].key.value;
    assert lives[id].life == LifeFor(v, id, Some(key));
    LastDoneIs(v, v.order, id, key);
    LastCandidateIs(v, v.order, id, key);
    forall r | r in v.order && Candidate(v, r, id, key) ensures !Settled(v, r, DispositionDone) {
      var i :| 0 <= i < |v.order| && v.order[i] == r;
    }
  }
}
