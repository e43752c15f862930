/** Replaying a history in pieces (src/authority/replay.ts:135-180, 436-456). */
module Incremental {
  import opened Facts
  import opened Graph
  import opened Lifecycles
  import opened Replay

  /** A projection: the reducer's state, the lifecycles, and the revision each projected work item carries. */
  datatype Projection = Projection(core: Core, lives: Realizations, work: map<ObligationId, CommitId>)

  function Project(c: Core, lives: Realizations, revision: CommitId): Projection {
    Projection(c, lives, map id | id in c.obligations :: revision)
  }

  /** A projection some refresh produced. */
  ghost predicate Refreshes(p: Projection, revision: CommitId) {
    Lives(ViewOf(p.core)) == Ok(p.lives) && p == Project(p.core, p.lives, revision)
  }

  ghost predicate Consistent(p: Projection) { exists revision :: Refreshes(p, revision) }

  function BaseCore(base: Option<Projection>): Core {
    if base.Some? then base.value.core else EmptyCore
  }

  /** `base?.project.work[0]?.revision ?? ''`. */
  ghost function BaseRevision(base: Option<Projection>): CommitId {
    if base.Some? && base.value.work != map[] then var id :| id in base.value.work; base.value.work[id] else ""
  }

  ghost function RevisionAfter(commits: seq<Record>, base: Option<Projection>): CommitId {
    if commits != [] then commits[|commits| - 1].commit else BaseRevision(base)
  }

  /** `replayProjection`. */
  ghost function ReplayFrom(o: Oracle, commits: seq<Record>, base: Option<Projection>): Result<Projection> {
    var c :- Fold(o, BaseCore(base), commits);
    var lives :- Lives(ViewOf(c));
    Ok(Project(c, lives, RevisionAfter(commits, base)))
  }

  /** A projection carries the lifecycles of its state, and its last commit in every item; replaying nothing changes nothing. */
  lemma ReplayIs(o: Oracle, commits: seq<Record>, base: Option<Projection>)
    requires (base.Some? ==> Consistent(base.value)) && ReplayFrom(o, commits, base).Ok?
    ensures var p := ReplayFrom(o, commits, base).value;
      && Lives(ViewOf(p.core)) == Ok(p.lives) && p.work.Keys == p.core.obligations.Keys
      && (commits != [] ==> forall id :: id in p.work ==> p.work[id] == commits[|commits| - 1].commit)
      && (commits == [] && base.Some? ==> p == base.value)
  {
    hide Lives, Step;
  }

  /** The reducer's loop. */
  method ReplayProjection(o: Oracle, commits: seq<Record>, base: Option<Projection>) returns (r: Result<Projection>)
    requires base.Some? ==> Consistent(base.value)
    ensures r == ReplayFrom(o, commits, base)
    ensures r.Ok? ==> Lives(ViewOf(r.value.core)) == Ok(r.value.lives) && r.value.work.Keys == r.value.core.obligations.Keys
    ensures r.Ok? && commits != [] ==> forall id :: id in r.value.work ==> r.value.work[id] == commits[|commits| - 1].commit
    ensures r.Ok? && commits == [] && base.Some? ==> r.value == base.value
  {
    hide Step, Lives, Fold, Consistent;
    NothingFolded(o, BaseCore(base));
    var c := BaseCore(base);
    var k := 0;
    while k < |commits|
      invariant 0 <= k <= |commits|
      invariant Fold(o, BaseCore(base), commits[..k]) == Ok(c)
    {
      var next := Step(o, c, commits[k]);
      FoldSnoc(o, BaseCore(base), commits, k);
      if next.Err? {
        FoldFails(o, BaseCore(base), commits, k + 1);
        return Err(next.error);
      }
      c := next.value;
      k := k + 1;
    }
    assert commits[..k] == commits;
    var lives := Lives(ViewOf(c));
    if lives.Err? { return Err(lives.error); }
    ReplayIs(o, commits, base);
    var revision := "";
    if commits != [] {
      revision := commits[|commits| - 1].commit;
    } else if base.Some? && base.value.work != map[] {
      var id :| id in base.value.work;
      revision := base.value.work[id];
    }
    r := Ok(Project(c, lives.value, revision));
  }

  lemma NothingFolded(o: Oracle, c: Core)
    ensures Fold(o, c, []) == Ok(c)
  {
  }

  // ---------------------------------------------------------------- folding in pieces

  lemma FoldSnoc(o: Oracle, c: Core, commits: seq<Record>, k: nat)
    requires k < |commits|
    ensures Fold(o, c, commits[..k + 1]) ==
      if Fold(o, c, commits[..k]).Ok? then Step(o, Fold(o, c, commits[..k]).value, commits[k]) else Fold(o, c, commits[..k])
  {
    hide Step;
    assert commits[..k + 1][..k] == commits[..k];
  }

  lemma {:induction false} FoldFails(o: Oracle, c: Core, commits: seq<Record>, k: nat)
    requires k <= |commits| && Fold(o, c, commits[..k]).Err?
    ensures Fold(o, c, commits) == Fold(o, c, commits[..k])
    decreases |commits| - k
  {
    hide Step;
    if k == |commits| {
      assert commits[..k] == commits;
    } else {
      FoldSnoc(o, c, commits, k);
      FoldFails(o, c, commits, k + 1);
    }
  }

  lemma {:induction false} FoldSplit(o: Oracle, c: Core, a: seq<Record>, b: seq<Record>)
    ensures Fold(o, c, a + b) == if Fold(o, c, a).Ok? then Fold(o, Fold(o, c, a).value, b) else Fold(o, c, a)
    decreases |b|
  {
    hide Step;
    if b == [] {
      assert a + b == a;
    } else {
      var n := |b| - 1;
      FoldSplit(o, c, a, b[..n]);
      assert (a + b)[..|a + b| - 1] == a + b[..n];
    }
  }

  // ---------------------------------------------------------------- a projection that fails stays failed

  /** A record other than the empty one is only accepted where the projection succeeds. */
  lemma StuckProjection(o: Oracle, c: Core, r: Record)
    requires Step(o, c, r).Ok? && Lives(ViewOf(c)).Err?
    ensures ViewOf(Step(o, c, r).value) == ViewOf(c)
  {
    hide Lives, ReceiptRejection, ProjectReceipt, PatchError, IntroduceAll, RetireAll, BindAll, ValidGraph, Prerequisites;
    assert ViewOf(c.(ordinal := c.ordinal + 1)) == ViewOf(c);
  }

  lemma {:induction false} StuckHistory(o: Oracle, c: Core, commits: seq<Record>)
    requires Fold(o, c, commits).Ok? && Lives(ViewOf(c)).Err?
    ensures Lives(ViewOf(Fold(o, c, commits).value)).Err?
    decreases |commits|
  {
    hide Step, Lives;
    if commits != [] {
      var n := |commits| - 1;
      StuckHistory(o, c, commits[..n]);
      StuckProjection(o, Fold(o, c, commits[..n]).value, commits[n]);
    }
  }

  // ---------------------------------------------------------------- incremental equals full

  lemma RevisionChains(o: Oracle, a: seq<Record>, b: seq<Record>, base: Option<Projection>, p: Projection)
    requires ReplayFrom(o, a, base) == Ok(p) && b == []
    ensures p == Project(p.core, p.lives, RevisionAfter(b, Some(p)))
  {
    hide Fold, Lives;
    assert p == Project(p.core, p.lives, RevisionAfter(a, base));
    if p.work == map[] {
      assert p.core.obligations.Keys == p.work.Keys;
      assert Project(p.core, p.lives, RevisionAfter(b, Some(p))).work == map[];
    }
  }

  /** Replaying a + b succeeds exactly when replaying a and then b on top of it succeeds, with the same projection. */
  lemma IncrementalEqualsFull(o: Oracle, a: seq<Record>, b: seq<Record>, base: Option<Projection>)
    ensures ReplayFrom(o, a + b, base).Ok? <==>
      ReplayFrom(o, a, base).Ok? && ReplayFrom(o, b, Some(ReplayFrom(o, a, base).value)).Ok?
    ensures ReplayFrom(o, a + b, base).Ok? ==>
      ReplayFrom(o, a + b, base) == ReplayFrom(o, b, Some(ReplayFrom(o, a, base).value))
  {
    hide Fold, Lives, Step;
    var c := BaseCore(base);
    FoldSplit(o, c, a, b);
    if Fold(o, c, a).Ok? && Fold(o, c, a + b).Ok? && Lives(ViewOf(Fold(o, c, a).value)).Err? {
      StuckHistory(o, Fold(o, c, a).value, b);
    }
    if ReplayFrom(o, a, base).Ok? && b == [] {
      RevisionChains(o, a, b, base, ReplayFrom(o, a, base).value);
      assert a + b == a;
      FoldNothing(o, Fold(o, c, a).value);
    }
  }

  lemma FoldNothing(o: Oracle, c: Core)
    ensures Fold(o, c, []) == Ok(c)
  {
  }

  lemma ReplayConsistent(o: Oracle, commits: seq<Record>, base: Option<Projection>)
    requires ReplayFrom(o, commits, base).Ok?
    ensures Consistent(ReplayFrom(o, commits, base).value)
  {
    hide Fold, Lives;
    assert Refreshes(ReplayFrom(o, commits, base).value, RevisionAfter(commits, base));
  }
}
