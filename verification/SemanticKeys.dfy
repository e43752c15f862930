/** What a semantic key holds, and when two keys are the same (src/graph/identity.ts:8-61, src/semantics.ts:58-86). */
module SemanticKeys {
  import opened Facts
  import opened Lifecycles

  // ---------------------------------------------------------------- what an upstream provides

  /** The identity of the content that a postcondition verifies. */
  predicate ContentIs(post: Postcondition, x: Identity) {
    match x
    case FileIdentity(digest) => (post.FileContent? || post.EventualFileContent?) && digest == Sha(post.content)
    case ConfigMapIdentity(authorityId, namespace, name) => post == ConfigMapExists(authorityId, namespace, name)
    case StatusIdentity(repository, sha, context, state) =>
      post.CommitStatus? && post.repository == repository && post.sha == sha && post.context == context && post.expectedState == state
    case SettlementIdentity(_) => false
  }

  /** A DONE upstream provides the content its postcondition verifies, or the commit that settled its run. */
  ghost predicate Provides(v: View, lives: Realizations, d: Dependency, x: Identity) {
    && d.Semantic? && d.upstream in v.obligations && d.upstream in lives && lives[d.upstream].life.status == Done
    && match d.consumes
       case VerifiedContent => ContentIs(v.obligations[d.upstream].post, x)
       case SettlementReceipt =>
         exists run :: lives[d.upstream].life.run == Some(run) && Settled(v, run, DispositionDone) && x == SettlementIdentity(v.latest[run].settlement)
       case UnsupportedConsumes(_, _) => false
  }

  lemma ContentIff(post: Postcondition, x: Identity)
    ensures VerifiedContentIdentity(post) == Some(x) <==> ContentIs(post, x)
  {
  }

  lemma ProvidesOne(v: View, lives: Realizations, d: Dependency, x: Identity, y: Identity)
    requires Provides(v, lives, d, x) && Provides(v, lives, d, y)
    ensures x == y
  {
    if d.consumes == VerifiedContent {
      ContentIff(v.obligations[d.upstream].post, x);
      ContentIff(v.obligations[d.upstream].post, y);
    }
  }

  lemma EdgeIff(v: View, lives: Realizations, d: Dependency, x: Identity)
    requires Solves(v, lives) && Named(v.obligations) && d.Semantic?
    ensures EdgeIdentity(v, d, lives) == Ok(Some(x)) <==> Provides(v, lives, d, x)
    ensures EdgeIdentity(v, d, lives) == Ok(None) ==> !(d.upstream in lives && lives[d.upstream].life.status == Done)
    ensures EdgeIdentity(v, d, lives).Ok? && EdgeIdentity(v, d, lives).value.Some? ==> d.upstream in lives && lives[d.upstream].life.status == Done
  {
    hide Solves;
    if d.upstream in v.obligations {
      ContentIff(v.obligations[d.upstream].post, x);
      if d.upstream in lives && lives[d.upstream].life.status == Done { DoneIsSettled(v, lives, d.upstream); }
    }
  }

  lemma DoneIsSettled(v: View, lives: Realizations, id: ObligationId)
    requires Solves(v, lives) && Named(v.obligations) && id in lives && lives[id].life.status == Done
    ensures lives[id].life.run.Some? && Settled(v, lives[id].life.run.value, DispositionDone)
  {
    assert lives[id].life == LifeFor(v, id, lives[id].key);
    LastDoneIs(v, v.order, id, lives[id].key.value);
  }

  // ---------------------------------------------------------------- what a key holds

  function SemanticEdges(deps: seq<Dependency>): seq<Dependency> {
    if deps == [] then [] else (if deps[0].Semantic? then [deps[0]] else []) + SemanticEdges(deps[1..])
  }

  /** Each semantic edge, in order, paired with what its upstream provides. */
  ghost predicate Paired(v: View, lives: Realizations, edges: seq<Dependency>, pairs: seq<(Consumes, Identity)>) {
    && |pairs| == |edges|
    && forall i :: 0 <= i < |edges| ==> edges[i].Semantic? && pairs[i].0 == edges[i].consumes && Provides(v, lives, edges[i], pairs[i].1)
  }

  lemma PairedOne(v: View, lives: Realizations, edges: seq<Dependency>, p: seq<(Consumes, Identity)>, q: seq<(Consumes, Identity)>)
    requires Paired(v, lives, edges, p) && Paired(v, lives, edges, q)
    ensures p == q
  {
    hide Provides;
    forall i | 0 <= i < |edges| ensures p[i] == q[i] { ProvidesOne(v, lives, edges[i], p[i].1, q[i].1); }
  }

  ghost predicate AllDone(lives: Realizations, deps: seq<Dependency>) {
    forall d :: d in deps && d.Semantic? ==> d.upstream in lives && lives[d.upstream].life.status == Done
  }

  lemma {:induction false} SemanticEdgesAre(deps: seq<Dependency>, d: Dependency)
    ensures d in SemanticEdges(deps) <==> d in deps && d.Semantic?
    decreases |deps|
  {
    if deps != [] { SemanticEdgesAre(deps[1..], d); }
  }

  lemma {:induction false} ConsumedIs(v: View, deps: seq<Dependency>, lives: Realizations)
    requires Solves(v, lives) && Named(v.obligations) && Consumed(v, deps, lives).Ok?
    ensures Consumed(v, deps, lives).value.Some? <==> AllDone(lives, deps)
    ensures Consumed(v, deps, lives).value.Some? ==> Paired(v, lives, SemanticEdges(deps), Consumed(v, deps, lives).value.value)
    decreases |deps|
  {
    hide Solves, Provides, EdgeIdentity;
    if deps != [] {
      assert deps == [deps[0]] + deps[1..];
      if deps[0].Control? {
        ConsumedIs(v, deps[1..], lives);
        assert SemanticEdges(deps) == SemanticEdges(deps[1..]);
      } else {
        var identity := EdgeIdentity(v, deps[0], lives).value;
        EdgeIff(v, lives, deps[0], if identity.Some? then identity.value else SettlementIdentity(""));
        if identity.Some? {
          ConsumedIs(v, deps[1..], lives);
          assert SemanticEdges(deps) == [deps[0]] + SemanticEdges(deps[1..]);
        }
      }
    }
  }

  /** A key is known exactly when every semantic upstream is DONE; it then holds the obligation's id, packet and postcondition,
      and each semantic edge with what its upstream provides. */
  lemma KeyIs(v: View, lives: Realizations, id: ObligationId)
    requires Solves(v, lives) && Named(v.obligations) && id in lives
    ensures id in v.obligations
    ensures lives[id].key.None? <==> exists d :: d in v.obligations[id].dependencies && d.Semantic? && !(d.upstream in lives && lives[d.upstream].life.status == Done)
    ensures lives[id].key.Some? ==>
      var key := lives[id].key.value;
      && key.id == id && key.packet == v.obligations[id].packet && key.post == v.obligations[id].post
      && exists pairs :: Paired(v, lives, SemanticEdges(v.obligations[id].dependencies), pairs) && key.consumed == multiset(pairs)
  {
    hide Paired, SemanticEdges, LifeFor, Consumed;
    assert Local(v, v.obligations[id], lives) == Ok(lives[id]);
    KeyReads(v, lives, id);
    ConsumedIs(v, v.obligations[id].dependencies, lives);
  }

  lemma KeyReads(v: View, lives: Realizations, id: ObligationId)
    requires id in v.obligations && Local(v, v.obligations[id], lives).Ok?
    ensures var work := v.obligations[id]; var consumed := Consumed(v, work.dependencies, lives);
      && consumed.Ok?
      && (Local(v, work, lives).value.key.None? <==> consumed.value.None?)
      && (consumed.value.Some? ==> Local(v, work, lives).value.key == Some(Key(work.id, work.packet, work.post, multiset(consumed.value.value))))
  {
    hide Consumed, LifeFor;
  }

  /** Two known keys, in any two states, are the same exactly when id, packet and postcondition agree and the semantic edges with
      what their upstreams provide are the same multiset. */
  lemma SameKeyIff(v: View, lives: Realizations, id: ObligationId, w: View, others: Realizations, other: ObligationId)
    requires Solves(v, lives) && Named(v.obligations) && id in lives && lives[id].key.Some?
    requires Solves(w, others) && Named(w.obligations) && other in others && others[other].key.Some?
    ensures id in v.obligations && other in w.obligations
    ensures lives[id].key == others[other].key <==>
      && id == other && v.obligations[id].packet == w.obligations[other].packet && v.obligations[id].post == w.obligations[other].post
      && exists p, q :: Paired(v, lives, SemanticEdges(v.obligations[id].dependencies), p)
           && Paired(w, others, SemanticEdges(w.obligations[other].dependencies), q) && multiset(p) == multiset(q)
  {
    hide Paired, SemanticEdges, Solves;
    KeyIs(v, lives, id);
    KeyIs(w, others, other);
    var edges, otherEdges := SemanticEdges(v.obligations[id].dependencies), SemanticEdges(w.obligations[other].dependencies);
    var p :| Paired(v, lives, edges, p) && lives[id].key.value.consumed == multiset(p);
    var q :| Paired(w, others, otherEdges, q) && others[other].key.value.consumed == multiset(q);
    forall x | Paired(v, lives, edges, x) ensures x == p { PairedOne(v, lives, edges, x, p); }
    forall x | Paired(w, others, otherEdges, x) ensures x == q { PairedOne(w, others, otherEdges, x, q); }
  }

  // ---------------------------------------------------------------- stale input

  /** An obligation is DONE exactly when some run of its current meaning is settled DONE. */
  lemma DoneIff(v: View, lives: Realizations, id: ObligationId)
    requires Solves(v, lives) && Named(v.obligations) && id in lives
    ensures lives[id].life.status == Done <==>
      lives[id].key.Some? && exists run :: run in v.order && Candidate(v, run, id, lives[id].key.value) && Settled(v, run, DispositionDone)
  {
    assert lives[id].life == LifeFor(v, id, lives[id].key);
    if lives[id].key.Some? { LastDoneIs(v, v.order, id, lives[id].key.value); }
  }

  /** The same work in two states, in which one semantic edge is provided something else. */
  ghost predicate OneChanged(v: View, lives: Realizations, w: View, others: Realizations, id: ObligationId, i: nat,
                             p: seq<(Consumes, Identity)>, x: Identity) {
    && id in v.obligations && id in w.obligations && w.obligations[id] == v.obligations[id]
    && i < |p| && x != p[i].1
    && Paired(v, lives, SemanticEdges(v.obligations[id].dependencies), p)
    && Paired(w, others, SemanticEdges(w.obligations[id].dependencies), p[i := (p[i].0, x)])
  }

  /** When what one semantic upstream provides changes, the obligation has another key. */
  lemma ChangedInputChangesKey(v: View, lives: Realizations, w: View, others: Realizations, id: ObligationId, i: nat,
                               p: seq<(Consumes, Identity)>, x: Identity)
    requires Solves(v, lives) && Named(v.obligations) && id in lives && lives[id].key.Some?
    requires Solves(w, others) && Named(w.obligations) && id in others && others[id].key.Some?
    requires OneChanged(v, lives, w, others, id, i, p, x)
    ensures lives[id].key != others[id].key
  {
    hide Paired, SemanticEdges, Solves;
    SameKeyIff(v, lives, id, w, others, id);
    var q := p[i := (p[i].0, x)];
    var edges := SemanticEdges(v.obligations[id].dependencies);
    forall a | Paired(v, lives, edges, a) ensures a == p { PairedOne(v, lives, edges, a, p); }
    forall a | Paired(w, others, edges, a) ensures a == q { PairedOne(w, others, edges, a, q); }
    assert multiset(q) == multiset(p)[p[i] := multiset(p)[p[i]] - 1][q[i] := multiset(p)[q[i]] + 1];
    assert multiset(q)[q[i]] == multiset(p)[q[i]] + 1;
  }

  /** No work stays DONE on stale input: when what an upstream provides changes, the work is DONE only by a run that was claimed
      under the new key. */
  lemma StaleInputReopens(v: View, lives: Realizations, w: View, others: Realizations, id: ObligationId, i: nat,
                          p: seq<(Consumes, Identity)>, x: Identity)
    requires Solves(v, lives) && Named(v.obligations) && id in lives && lives[id].key.Some?
    requires Solves(w, others) && Named(w.obligations) && id in others
    requires OneChanged(v, lives, w, others, id, i, p, x) && others[id].life.status == Done
    ensures others[id].key.Some? && others[id].key != lives[id].key
    ensures exists run :: run in w.order && Candidate(w, run, id, others[id].key.value) && Settled(w, run, DispositionDone)
  {
    hide OneChanged, Solves;
    DoneIff(w, others, id);
    ChangedInputChangesKey(v, lives, w, others, id, i, p, x);
  }

  /** Files: work that consumes the content of a DONE file obligation gets another key when that content changes. */
  lemma ChangedFileIsChanged(v: View, lives: Realizations, w: View, others: Realizations, d: Dependency, path: string, before: string, after: string)
    requires d == Semantic(d.upstream, VerifiedContent) && d.upstream in v.obligations && d.upstream in w.obligations
    requires v.obligations[d.upstream].post == FileContent(path, before) && w.obligations[d.upstream].post == FileContent(path, after)
    requires d.upstream in lives && lives[d.upstream].life.status == Done && d.upstream in others && others[d.upstream].life.status == Done
    ensures Provides(v, lives, d, FileIdentity(Sha(before))) && Provides(w, others, d, FileIdentity(Sha(after)))
    ensures before != after ==> FileIdentity(Sha(before)) != FileIdentity(Sha(after))
  {
  }
}
