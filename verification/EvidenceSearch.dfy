/** Branch-and-bound search for minimum evidence covers
    (src/authority/assurance-relations.ts:38-137, src/architecture/change-planner.ts:85-128). */
module EvidenceSearch {
  import opened Facts
  import opened Ordering

  type ObjectId = string
  type PropositionId = string
  type Coverage = map<ObjectId, set<PropositionId>>

  // ---------------------------------------------------------------- covers

  ghost predicate Helps(coverage: Coverage, o: ObjectId, q: PropositionId) { o in coverage && q in coverage[o] }

  function Share(coverage: Coverage, o: ObjectId): set<PropositionId> { if o in coverage then coverage[o] else {} }

  function CoveredBy(coverage: Coverage, sel: seq<ObjectId>): set<PropositionId> {
    if sel == [] then {} else CoveredBy(coverage, sel[..|sel| - 1]) + Share(coverage, sel[|sel| - 1])
  }

  /** The selected objects cover every pending proposition. */
  predicate Covers(coverage: Coverage, pending: set<PropositionId>, sel: seq<ObjectId>) { pending <= CoveredBy(coverage, sel) }

  lemma {:induction false} CoveredIs(coverage: Coverage, sel: seq<ObjectId>, q: PropositionId)
    ensures q in CoveredBy(coverage, sel) <==> exists o :: o in sel && Helps(coverage, o, q)
    decreases |sel|
  {
    if sel != [] {
      var n := |sel| - 1;
      CoveredIs(coverage, sel[..n], q);
      assert sel == sel[..n] + [sel[n]];
      assert sel[n] in sel;
      assert q in Share(coverage, sel[n]) <==> Helps(coverage, sel[n], q);
    }
  }

  // ---------------------------------------------------------------- the order of selections

  /** `compareStringSets(a, b) < 0`. */
  predicate LexBefore(a: seq<string>, b: seq<string>) {
    if b == [] then false
    else if a == [] then true
    else Before(a[0], b[0]) || (a[0] == b[0] && LexBefore(a[1..], b[1..]))
  }

  lemma {:induction false} LexTotal(a: seq<string>, b: seq<string>)
    ensures a == b || LexBefore(a, b) || LexBefore(b, a)
    ensures !(LexBefore(a, b) && LexBefore(b, a)) && !LexBefore(a, a)
    decreases |a|
  {
    if a != [] {
      BeforeTotal(a[0], a[0]);
      LexTotal(a[1..], a[1..]);
      if b != [] {
        BeforeTotal(a[0], b[0]);
        LexTotal(a[1..], b[1..]);
        assert a == [a[0]] + a[1..] && b == [b[0]] + b[1..];
      }
    }
  }

  lemma {:induction false} LexTransitive(a: seq<string>, b: seq<string>, c: seq<string>)
    requires LexBefore(a, b) && LexBefore(b, c)
    ensures LexBefore(a, c)
    decreases |a|
  {
    if a != [] {
      if Before(a[0], b[0]) && Before(b[0], c[0]) {
        BeforeTransitive(a[0], b[0], c[0]);
      } else if a[0] == b[0] && b[0] == c[0] {
        LexTransitive(a[1..], b[1..], c[1..]);
      }
    }
  }

  lemma {:induction false} LexAt(a: seq<string>, b: seq<string>, k: nat)
    requires k < |a| && k < |b| && a[..k] == b[..k] && Before(a[k], b[k])
    ensures LexBefore(a, b)
    decreases k
  {
    if k > 0 {
      assert a[..k][0] == b[..k][0];
      assert a[1..][..k - 1] == a[..k][1..] && b[1..][..k - 1] == b[..k][1..];
      LexAt(a[1..], b[1..], k - 1);
    }
  }

  /** Among selections of one size, the first id that differs decides. */
  lemma {:induction false} LexIff(a: seq<string>, b: seq<string>)
    requires |a| == |b|
    ensures LexBefore(a, b) <==> exists k :: 0 <= k < |a| && a[..k] == b[..k] && Before(a[k], b[k])
    decreases |a|
  {
    if k :| 0 <= k < |a| && a[..k] == b[..k] && Before(a[k], b[k]) { LexAt(a, b, k); }
    if LexBefore(a, b) {
      if Before(a[0], b[0]) {
        assert a[..0] == b[..0];
      } else {
        LexIff(a[1..], b[1..]);
        var k :| 0 <= k < |a[1..]| && a[1..][..k] == b[1..][..k] && Before(a[1..][k], b[1..][k]);
        assert a[..k + 1] == [a[0]] + a[1..][..k] && b[..k + 1] == [b[0]] + b[1..][..k];
        assert Before(a[k + 1], b[k + 1]);
      }
    }
  }

  /** Fewer objects, or as many and lexicographically earlier. */
  predicate Better(a: seq<string>, b: seq<string>) { |a| < |b| || (|a| == |b| && LexBefore(a, b)) }

  // ---------------------------------------------------------------- the search space

  /** Everything the search below `sel` may select, with `left` the candidates still to be decided. */
  ghost function Selections(left: seq<ObjectId>, sel: seq<ObjectId>): set<seq<ObjectId>>
    decreases |left|
  {
    if left == [] then {sel} else Selections(left[1..], sel + [left[0]]) + Selections(left[1..], sel)
  }

  lemma {:induction false} SelectionsExtend(left: seq<ObjectId>, sel: seq<ObjectId>, x: seq<ObjectId>)
    requires x in Selections(left, sel)
    ensures sel <= x && (forall i :: |sel| <= i < |x| ==> x[i] in left) && (left == [] ==> x == sel)
    decreases |left|
  {
    if left != [] {
      if x in Selections(left[1..], sel + [left[0]]) {
        SelectionsExtend(left[1..], sel + [left[0]], x);
        assert x[|sel|] == left[0];
      } else {
        SelectionsExtend(left[1..], sel, x);
      }
    }
  }

  lemma {:induction false} SelectionsBegin(left: seq<ObjectId>, sel: seq<ObjectId>)
    ensures sel in Selections(left, sel)
    decreases |left|
  {
    if left != [] { SelectionsBegin(left[1..], sel); }
  }

  /** Selecting the next candidate comes before skipping it, among selections of one size. */
  lemma TakenBeforeSkipped(left: seq<ObjectId>, sel: seq<ObjectId>, x: seq<ObjectId>, y: seq<ObjectId>)
    requires Increasing(left) && left != [] && x in Selections(left[1..], sel + [left[0]]) && y in Selections(left[1..], sel)
    ensures x != y && (|x| == |y| ==> LexBefore(x, y))
  {
    SelectionsExtend(left[1..], sel + [left[0]], x);
    SelectionsExtend(left[1..], sel, y);
    assert x[|sel|] == left[0];
    if |y| > |sel| {
      var i :| 0 <= i < |left[1..]| && left[1..][i] == y[|sel|];
      assert Before(left[0], left[i + 1]);
      BeforeTotal(left[0], y[|sel|]);
      if |x| == |y| {
        assert x[..|sel|] == sel == y[..|sel|];
        LexAt(x, y, |sel|);
      }
    }
  }

  lemma IncreasingTail(s: seq<string>)
    requires Increasing(s) && s != []
    ensures Increasing(s[1..]) && forall x :: x in s[1..] ==> Before(s[0], x)
  {
  }

  /** From an empty selection the search space is every sorted list of candidates. */
  lemma {:induction false} SelectionsAre(left: seq<ObjectId>, sel: seq<ObjectId>, rest: seq<ObjectId>)
    requires Increasing(left) && Increasing(rest) && forall o :: o in rest ==> o in left
    ensures sel + rest in Selections(left, sel)
    decreases |left|
  {
    if rest == [] {
      SelectionsBegin(left, sel);
      assert sel + rest == sel;
    } else {
      assert rest[0] in left;
      IncreasingTail(left);
      if rest[0] == left[0] {
        IncreasingTail(rest);
        forall o | o in rest[1..] ensures o in left[1..] {
          assert rest == [rest[0]] + rest[1..] && left == [left[0]] + left[1..] && o in rest;
          BeforeTotal(left[0], o);
        }
        SelectionsAre(left[1..], sel + [left[0]], rest[1..]);
        assert sel + [left[0]] + rest[1..] == sel + rest;
      } else {
        forall o | o in rest ensures o in left[1..] { NotFirst(left, rest, o); }
        SelectionsAre(left[1..], sel, rest);
      }
    }
  }

  lemma NotFirst(left: seq<ObjectId>, rest: seq<ObjectId>, o: ObjectId)
    requires Increasing(left) && Increasing(rest) && left != [] && o in rest && (forall x :: x in rest ==> x in left) && rest[0] != left[0]
    ensures o in left[1..]
  {
    assert left == [left[0]] + left[1..];
    assert rest[0] in rest;
    if o == left[0] {
      IncreasingTail(rest);
      IncreasingTail(left);
      assert rest == [rest[0]] + rest[1..];
      BeforeTotal(o, rest[0]);
    }
  }

  lemma {:induction false} SelectionsSorted(left: seq<ObjectId>, sel: seq<ObjectId>, x: seq<ObjectId>)
    requires Increasing(left) && Increasing(sel) && (forall a, b :: a in sel && b in left ==> Before(a, b)) && x in Selections(left, sel)
    ensures Increasing(x)
    decreases |left|
  {
    if left != [] {
      IncreasingTail(left);
      if x in Selections(left[1..], sel + [left[0]]) {
        assert left[0] in left;
        IncreasingSnoc(sel, left[0]);
        SelectionsSorted(left[1..], sel + [left[0]], x);
      } else {
        SelectionsSorted(left[1..], sel, x);
      }
    }
  }

  // ---------------------------------------------------------------- all minimum covers

  ghost predicate NoRepeat(sets: seq<seq<ObjectId>>) { forall i, j :: 0 <= i < j < |sets| ==> sets[i] != sets[j] }

  /** `sets` lists the smallest covers among the explored selections, each once; `size` is their size. */
  ghost predicate Smallest(coverage: Coverage, pending: set<PropositionId>, explored: set<seq<ObjectId>>, size: Option<nat>, sets: seq<seq<ObjectId>>) {
    && NoRepeat(sets) && (size.Some? ==> sets != [])
    && (forall x :: x in sets <==> x in explored && Covers(coverage, pending, x) && size == Some(|x|))
    && forall x :: x in explored && Covers(coverage, pending, x) ==> size.Some? && size.value <= |x|
  }

  /** Below a selection that covers, only the selection itself can be smallest. */
  lemma RecordCover(coverage: Coverage, pending: set<PropositionId>, explored: set<seq<ObjectId>>, size: Option<nat>, sets: seq<seq<ObjectId>>,
                    left: seq<ObjectId>, sel: seq<ObjectId>)
    requires Smallest(coverage, pending, explored, size, sets) && Covers(coverage, pending, sel) && explored !! Selections(left, sel)
    ensures size.None? || |sel| < size.value ==> Smallest(coverage, pending, explored + Selections(left, sel), Some(|sel|), [sel])
    ensures size == Some(|sel|) ==> Smallest(coverage, pending, explored + Selections(left, sel), size, sets + [sel])
    ensures size.Some? && |sel| > size.value ==> Smallest(coverage, pending, explored + Selections(left, sel), size, sets)
  {
    hide Covers, Selections;
    SelectionsBegin(left, sel);
    forall x | x in Selections(left, sel) ensures x == sel || |x| > |sel| {
      SelectionsExtend(left, sel, x);
    }
  }

  /** Nothing below an uncovering selection of at least the best size can be smallest. */
  lemma Prune(coverage: Coverage, pending: set<PropositionId>, explored: set<seq<ObjectId>>, size: Option<nat>, sets: seq<seq<ObjectId>>,
              left: seq<ObjectId>, sel: seq<ObjectId>)
    requires Smallest(coverage, pending, explored, size, sets) && !Covers(coverage, pending, sel)
    requires left == [] || (size.Some? && |sel| >= size.value)
    ensures Smallest(coverage, pending, explored + Selections(left, sel), size, sets)
  {
    hide Covers, Selections;
    forall x | x in Selections(left, sel) ensures x == sel || (|x| > |sel| && left != []) {
      SelectionsExtend(left, sel, x);
    }
  }

  lemma Branches(left: seq<ObjectId>, sel: seq<ObjectId>)
    requires Increasing(left) && left != []
    ensures Selections(left, sel) == Selections(left[1..], sel + [left[0]]) + Selections(left[1..], sel)
    ensures Selections(left[1..], sel + [left[0]]) !! Selections(left[1..], sel)
  {
    forall x, y | x in Selections(left[1..], sel + [left[0]]) && y in Selections(left[1..], sel) ensures x != y {
      TakenBeforeSkipped(left, sel, x, y);
    }
  }

  lemma CoveredSnoc(coverage: Coverage, sel: seq<ObjectId>, o: ObjectId)
    ensures CoveredBy(coverage, sel + [o]) == CoveredBy(coverage, sel) + Share(coverage, o)
  {
    assert (sel + [o])[..|sel|] == sel;
  }

  lemma SuffixStep(s: seq<ObjectId>, i: nat)
    requires Increasing(s) && i < |s|
    ensures s[i..] != [] && s[i..][0] == s[i] && s[i..][1..] == s[i + 1..] && Increasing(s[i..])
  {
  }

  /** The search of `minimumSufficientEvidenceSet`. */
  class MinimumSearch {
    const pending: set<PropositionId>
    const candidates: seq<ObjectId>
    const coverage: Coverage
    var bestSize: Option<nat>
    var minimumSets: seq<seq<ObjectId>>
    ghost var explored: set<seq<ObjectId>>

    ghost predicate Valid()
      reads this
    {
      Increasing(candidates) && Smallest(coverage, pending, explored, bestSize, minimumSets)
    }

    constructor (pending: set<PropositionId>, candidates: seq<ObjectId>, coverage: Coverage)
      requires Increasing(candidates)
      ensures Valid() && explored == {}
      ensures this.pending == pending && this.candidates == candidates && this.coverage == coverage
    {
      this.pending, this.candidates, this.coverage := pending, candidates, coverage;
      bestSize, minimumSets, explored := None, [], {};
    }

    /** `search(index, selected, covered)`. */
    method Search(index: nat, selected: seq<ObjectId>, covered: set<PropositionId>)
      requires Valid() && index <= |candidates| && covered == CoveredBy(coverage, selected)
      requires explored !! Selections(candidates[index..], selected)
      modifies this
      ensures Valid() && explored == old(explored) + Selections(candidates[index..], selected)
      decreases |candidates| - index
    {
      hide Smallest, CoveredBy, Selections, Increasing;
      ghost var left := candidates[index..];
      ghost var region := explored + Selections(left, selected);
      if pending <= covered {
        RecordCover(coverage, pending, explored, bestSize, minimumSets, left, selected);
        if bestSize.None? || |selected| < bestSize.value {
          bestSize := Some(|selected|);
          minimumSets := [];
        }
        if bestSize == Some(|selected|) { minimumSets := minimumSets + [selected]; }
        assert [] + [selected] == [selected];
        explored := region;
        return;
      }
      if index >= |candidates| || (bestSize.Some? && |selected| >= bestSize.value) {
        Prune(coverage, pending, explored, bestSize, minimumSets, left, selected);
        explored := region;
        return;
      }
      var objectId := candidates[index];
      SuffixStep(candidates, index);
      Branches(left, selected);
      CoveredSnoc(coverage, selected, objectId);
      Search(index + 1, selected + [objectId], covered + Share(coverage, objectId));
      Search(index + 1, selected, covered);
      assert explored == region;
    }
  }

  // ---------------------------------------------------------------- the first best cover

  /** `best` is the smallest cover explored, and the lexicographically least of those. */
  ghost predicate Foremost(coverage: Coverage, pending: set<PropositionId>, explored: set<seq<ObjectId>>, best: Option<seq<ObjectId>>) {
    && (best.Some? ==> best.value in explored && Covers(coverage, pending, best.value))
    && forall x :: x in explored && Covers(coverage, pending, x) ==> best.Some? && (x == best.value || Better(best.value, x))
  }

  /** Everything explored comes before everything still to be explored, among selections of one size. */
  ghost predicate Precedes(explored: set<seq<ObjectId>>, later: set<seq<ObjectId>>) {
    forall x, y :: x in explored && y in later && |x| == |y| ==> LexBefore(x, y)
  }

  lemma KeepBest(coverage: Coverage, pending: set<PropositionId>, explored: set<seq<ObjectId>>, best: Option<seq<ObjectId>>,
                 left: seq<ObjectId>, sel: seq<ObjectId>)
    requires Foremost(coverage, pending, explored, best) && Precedes(explored, Selections(left, sel))
    requires (best.Some? && |sel| >= |best.value|) || (left == [] && !Covers(coverage, pending, sel))
    ensures Foremost(coverage, pending, explored + Selections(left, sel), best)
  {
    hide Covers, Selections, LexBefore;
    forall x | x in Selections(left, sel) ensures |x| >= |sel| && (left == [] ==> x == sel) {
      SelectionsExtend(left, sel, x);
    }
  }

  lemma TakeBest(coverage: Coverage, pending: set<PropositionId>, explored: set<seq<ObjectId>>, best: Option<seq<ObjectId>>,
                 left: seq<ObjectId>, sel: seq<ObjectId>)
    requires Foremost(coverage, pending, explored, best) && Covers(coverage, pending, sel) && (best.Some? ==> |sel| < |best.value|)
    ensures Foremost(coverage, pending, explored + Selections(left, sel), Some(sel))
  {
    hide Covers, Selections, LexBefore;
    SelectionsBegin(left, sel);
    forall x | x in Selections(left, sel) ensures x == sel || |x| > |sel| {
      SelectionsExtend(left, sel, x);
    }
  }

  lemma BranchesOrdered(explored: set<seq<ObjectId>>, left: seq<ObjectId>, sel: seq<ObjectId>)
    requires Increasing(left) && left != [] && Precedes(explored, Selections(left, sel))
    ensures Precedes(explored, Selections(left[1..], sel + [left[0]]))
    ensures Precedes(explored + Selections(left[1..], sel + [left[0]]), Selections(left[1..], sel))
  {
    hide LexBefore;
    forall x, y | x in explored + Selections(left[1..], sel + [left[0]]) && y in Selections(left[1..], sel) && |x| == |y|
      ensures LexBefore(x, y)
    {
      if x !in explored { TakenBeforeSkipped(left, sel, x, y); }
    }
  }

  /** The search of `minimumEvidenceCover`. */
  class CoverSearch {
    const required: set<PropositionId>
    const candidates: seq<ObjectId>
    const coverage: Coverage
    var best: Option<seq<ObjectId>>
    ghost var explored: set<seq<ObjectId>>

    ghost predicate Valid()
      reads this
    {
      Increasing(candidates) && Foremost(coverage, required, explored, best)
    }

    constructor (required: set<PropositionId>, candidates: seq<ObjectId>, coverage: Coverage)
      requires Increasing(candidates)
      ensures Valid() && explored == {}
      ensures this.required == required && this.candidates == candidates && this.coverage == coverage
    {
      this.required, this.candidates, this.coverage := required, candidates, coverage;
      best, explored := None, {};
    }

    method Search(index: nat, selected: seq<ObjectId>, covered: set<PropositionId>)
      requires Valid() && index <= |candidates| && covered == CoveredBy(coverage, selected)
      requires Precedes(explored, Selections(candidates[index..], selected))
      modifies this
      ensures Valid() && explored == old(explored) + Selections(candidates[index..], selected)
      decreases |candidates| - index
    {
      hide Foremost, CoveredBy, Selections, Increasing, Precedes;
      ghost var left := candidates[index..];
      ghost var region := explored + Selections(left, selected);
      if best.Some? && |selected| >= |best.value| {
        KeepBest(coverage, required, explored, best, left, selected);
        explored := region;
        return;
      }
      if required <= covered {
        TakeBest(coverage, required, explored, best, left, selected);
        best := Some(selected);
        explored := region;
        return;
      }
      if index >= |candidates| {
        KeepBest(coverage, required, explored, best, left, selected);
        explored := region;
        return;
      }
      var evidenceId := candidates[index];
      SuffixStep(candidates, index);
      Branches(left, selected);
      BranchesOrdered(explored, left, selected);
      CoveredSnoc(coverage, selected, evidenceId);
      Search(index + 1, selected + [evidenceId], covered + Share(coverage, evidenceId));
      Search(index + 1, selected, covered);
      assert explored == region;
    }
  }

  // ---------------------------------------------------------------- covers among all objects

  /** Which object supports which proposition. */
  type Relation = set<(ObjectId, PropositionId)>

  ghost predicate Suffices(rel: Relation, pending: set<PropositionId>, sel: seq<ObjectId>) {
    forall q :: q in pending ==> exists o :: o in sel && (o, q) in rel
  }

  /** The coverage table holds the relation, restricted to pending propositions or not. */
  ghost predicate Tabulates(coverage: Coverage, rel: Relation, pending: set<PropositionId>) {
    forall o, q :: q in pending ==> (Helps(coverage, o, q) <==> (o, q) in rel)
  }

  lemma CoversIffSuffices(coverage: Coverage, rel: Relation, pending: set<PropositionId>, sel: seq<ObjectId>)
    requires Tabulates(coverage, rel, pending)
    ensures Covers(coverage, pending, sel) <==> Suffices(rel, pending, sel)
  {
    hide CoveredBy;
    forall q | q in pending ensures q in CoveredBy(coverage, sel) <==> exists o :: o in sel && (o, q) in rel {
      CoveredIs(coverage, sel, q);
    }
  }

  /** A sufficient sorted selection than which none is better, among all sorted lists of objects. */
  ghost predicate LeastSufficient(rel: Relation, pending: set<PropositionId>, sel: seq<ObjectId>) {
    && Increasing(sel) && Suffices(rel, pending, sel)
    && forall t :: Increasing(t) && Suffices(rel, pending, t) ==> t == sel || Better(sel, t)
  }

  function Keep(t: seq<ObjectId>, candidates: set<ObjectId>): seq<ObjectId> {
    if t == [] then []
    else Keep(t[..|t| - 1], candidates) + if t[|t| - 1] in candidates then [t[|t| - 1]] else []
  }

  lemma {:induction false} KeepIs(t: seq<ObjectId>, candidates: set<ObjectId>)
    requires Increasing(t)
    ensures Increasing(Keep(t, candidates)) && |Keep(t, candidates)| <= |t|
    ensures forall o :: o in Keep(t, candidates) <==> o in t && o in candidates
    ensures |Keep(t, candidates)| == |t| ==> Keep(t, candidates) == t
    decreases |t|
  {
    hide Increasing, Before;
    if t != [] {
      var n := |t| - 1;
      var kept := Keep(t[..n], candidates);
      assert t == t[..n] + [t[n]];
      IncreasingPrefix(t[..n], t[n]);
      KeepIs(t[..n], candidates);
      IncreasingSnoc(kept, t[n]);
      assert Keep(t, candidates) == if t[n] in candidates then kept + [t[n]] else kept;
    }
  }

  lemma IncreasingPrefix(s: seq<string>, x: string)
    requires Increasing(s + [x])
    ensures Increasing(s) && forall y :: y in s ==> Before(y, x)
  {
    forall i, j | 0 <= i < j < |s| ensures Before(s[i], s[j]) { assert (s + [x])[i] == s[i] && (s + [x])[j] == s[j]; }
    forall y | y in s ensures Before(y, x) {
      var i :| 0 <= i < |s| && s[i] == y;
      assert (s + [x])[i] == y && (s + [x])[|s|] == x;
    }
  }

  /** The candidates hold every object that supports something pending. */
  ghost predicate Complete(rel: Relation, pending: set<PropositionId>, candidates: seq<ObjectId>) {
    forall o, q :: q in pending && (o, q) in rel ==> o in candidates
  }

  /** Dropping the objects that are no candidates keeps a selection sufficient, and makes it smaller if there are any. */
  lemma KeepSuffices(rel: Relation, pending: set<PropositionId>, candidates: seq<ObjectId>, t: seq<ObjectId>)
    requires Complete(rel, pending, candidates) && Increasing(t) && Suffices(rel, pending, t)
    ensures var kept := Keep(t, set o | o in candidates);
      && Increasing(kept) && Suffices(rel, pending, kept) && (forall o :: o in kept ==> o in candidates)
      && (kept == t || |kept| < |t|)
  {
    var all := set o | o in candidates;
    KeepIs(t, all);
    forall q | q in pending ensures exists o :: o in Keep(t, all) && (o, q) in rel {
      var o :| o in t && (o, q) in rel;
    }
  }

  lemma AllSelections(candidates: seq<ObjectId>, t: seq<ObjectId>)
    requires Increasing(candidates)
    ensures t in Selections(candidates, []) <==> Increasing(t) && forall o :: o in t ==> o in candidates
  {
    hide Selections;
    if t in Selections(candidates, []) {
      SelectionsExtend(candidates, [], t);
      SelectionsSorted(candidates, [], t);
    }
    if Increasing(t) && forall o :: o in t ==> o in candidates {
      SelectionsAre(candidates, [], t);
      assert [] + t == t;
    }
  }

  /** The first best cover over all candidates is the least sufficient selection over all objects. */
  lemma ForemostIsLeast(coverage: Coverage, rel: Relation, pending: set<PropositionId>, candidates: seq<ObjectId>, best: Option<seq<ObjectId>>)
    requires Increasing(candidates) && Tabulates(coverage, rel, pending) && Complete(rel, pending, candidates)
    requires Foremost(coverage, pending, Selections(candidates, []), best)
    ensures best.Some? ==> LeastSufficient(rel, pending, best.value)
    ensures best.None? ==> forall t :: Increasing(t) ==> !Suffices(rel, pending, t)
  {
    hide Selections, Covers, LexBefore, Suffices, Complete, Tabulates;
    if best.Some? {
      AllSelections(candidates, best.value);
      CoversIffSuffices(coverage, rel, pending, best.value);
    }
    forall t | Increasing(t) && Suffices(rel, pending, t) ensures best.Some? && (t == best.value || Better(best.value, t)) {
      KeepSuffices(rel, pending, candidates, t);
      var kept := Keep(t, set o | o in candidates);
      AllSelections(candidates, kept);
      CoversIffSuffices(coverage, rel, pending, kept);
    }
  }

  /** All minimum sufficient selections among all sorted lists of objects. */
  ghost predicate AllMinimum(rel: Relation, pending: set<PropositionId>, sets: seq<seq<ObjectId>>) {
    && NoRepeat(sets)
    && forall t :: t in sets <==>
         && Increasing(t) && Suffices(rel, pending, t)
         && forall u :: Increasing(u) && Suffices(rel, pending, u) ==> |t| <= |u|
  }

  lemma SmallestAreMinimum(coverage: Coverage, rel: Relation, pending: set<PropositionId>, candidates: seq<ObjectId>,
                           size: Option<nat>, sets: seq<seq<ObjectId>>)
    requires Increasing(candidates) && Tabulates(coverage, rel, pending) && Complete(rel, pending, candidates)
    requires Smallest(coverage, pending, Selections(candidates, []), size, sets)
    ensures AllMinimum(rel, pending, sets)
  {
    hide Selections, Covers, Suffices, Complete, Tabulates, NoRepeat;
    forall u | Increasing(u) && Suffices(rel, pending, u) ensures size.Some? && size.value <= |u| {
      KeepSuffices(rel, pending, candidates, u);
      var kept := Keep(u, set o | o in candidates);
      AllSelections(candidates, kept);
      CoversIffSuffices(coverage, rel, pending, kept);
    }
    forall t ensures t in sets <==>
      && Increasing(t) && Suffices(rel, pending, t) && forall u :: Increasing(u) && Suffices(rel, pending, u) ==> |t| <= |u|
    {
      MinimumIff(coverage, rel, pending, candidates, size, sets, t);
    }
  }

  lemma MinimumIff(coverage: Coverage, rel: Relation, pending: set<PropositionId>, candidates: seq<ObjectId>,
                   size: Option<nat>, sets: seq<seq<ObjectId>>, t: seq<ObjectId>)
    requires Increasing(candidates) && Tabulates(coverage, rel, pending) && Complete(rel, pending, candidates)
    requires Smallest(coverage, pending, Selections(candidates, []), size, sets)
    requires forall u :: Increasing(u) && Suffices(rel, pending, u) ==> size.Some? && size.value <= |u|
    ensures t in sets <==>
      && Increasing(t) && Suffices(rel, pending, t) && forall u :: Increasing(u) && Suffices(rel, pending, u) ==> |t| <= |u|
  {
    hide Selections, Covers, Suffices, Complete, Tabulates, NoRepeat;
    AllSelections(candidates, t);
    CoversIffSuffices(coverage, rel, pending, t);
    if Increasing(t) && Suffices(rel, pending, t) && forall u :: Increasing(u) && Suffices(rel, pending, u) ==> |t| <= |u| {
      KeepSuffices(rel, pending, candidates, t);
      var some := sets[0];
      assert some in sets;
      AllSelections(candidates, some);
      CoversIffSuffices(coverage, rel, pending, some);
    }
  }

  /** The two planners agree: with one order on ids and equal coverage there is one least selection. */
  lemma PlannersAgree(rel: Relation, other: Relation, pending: set<PropositionId>, a: seq<ObjectId>, b: seq<ObjectId>)
    requires forall o, q :: q in pending ==> ((o, q) in rel <==> (o, q) in other)
    requires LeastSufficient(rel, pending, a) && LeastSufficient(other, pending, b)
    ensures a == b
  {
    hide LexBefore;
    assert Suffices(other, pending, a) && Suffices(rel, pending, b);
    LexTotal(a, b);
  }
}
