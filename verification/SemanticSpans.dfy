/** Maximal semantic spans and the normal form of a set of spans
    (src/analysis/tcb-semantic-loc.ts:94-139, experiments/semantic-scaling/measure.ts:296-318). */
module SemanticSpans {
  import opened Ordering

  datatype Span = Span(path: string, start: int, end: int, loc: int)

  datatype SpanError = SpanInvalid | SpanConflict | SpansOverlap | ContainmentInvalid
  datatype Spans<+T> = Accepted(value: T) | Rejected(error: SpanError)

  predicate ValidSpan(s: Span) { 0 <= s.start < s.end && s.loc >= 0 }

  /** `inner` lies within `outer`, in the same file. */
  predicate Within(inner: Span, outer: Span) { inner.path == outer.path && outer.start <= inner.start && inner.end <= outer.end }

  predicate SameRange(a: Span, b: Span) { a.path == b.path && a.start == b.start && a.end == b.end }

  /** The spans share no offset. */
  predicate Apart(a: Span, b: Span) { a.path != b.path || a.end <= b.start || b.end <= a.start }

  function Members(s: seq<Span>): set<Span> { set x | x in s }

  /** `top` are the outermost spans of `all`: pairwise apart, with every span inside one of them, and spans of one
      outermost range agreeing on its size. */
  ghost predicate Outermost(all: set<Span>, top: set<Span>) {
    && top <= all && (forall s :: s in all ==> ValidSpan(s))
    && (forall a, b :: a in top && b in top && a != b ==> Apart(a, b))
    && forall s :: s in all ==> HeldBy(s, top)
  }

  ghost predicate HeldBy(s: Span, top: set<Span>) { exists m :: m in top && Holds(s, m) }

  predicate Holds(s: Span, m: Span) { Within(s, m) && (SameRange(s, m) ==> s.loc == m.loc) }

  lemma OverlapMeets(a: Span, b: Span, k: Span, l: Span)
    requires ValidSpan(a) && ValidSpan(b) && !Apart(a, b) && Within(a, k) && Within(b, l)
    ensures !Apart(k, l)
  {
  }

  /** The outermost spans are determined by the spans. */
  lemma OutermostUnique(all: set<Span>, top: set<Span>, other: set<Span>)
    requires Outermost(all, top) && Outermost(all, other)
    ensures top == other
  {
    forall s | s in top ensures s in other { OutermostIn(all, top, other, s); }
    forall s | s in other ensures s in top { OutermostIn(all, other, top, s); }
  }

  lemma OutermostIn(all: set<Span>, top: set<Span>, other: set<Span>, s: Span)
    requires Outermost(all, top) && Outermost(all, other) && s in top
    ensures s in other
  {
    hide HeldBy;
    var m := Holder(all, other, s);
    var n := Holder(all, top, m);
    MustBeSame(all, top, s, n);
    assert SameRange(s, m);
  }

  lemma Holder(all: set<Span>, top: set<Span>, s: Span) returns (m: Span)
    requires Outermost(all, top) && s in all
    ensures m in top && Holds(s, m)
  {
    m := SomeHolder(s, top);
  }

  lemma SomeHolder(s: Span, top: set<Span>) returns (m: Span)
    requires HeldBy(s, top)
    ensures m in top && Holds(s, m)
  {
    m :| m in top && Holds(s, m);
  }

  lemma MustBeSame(all: set<Span>, top: set<Span>, s: Span, n: Span)
    requires Outermost(all, top) && s in top && n in top && Within(s, n)
    ensures s == n
  {
    hide HeldBy;
    assert ValidSpan(s);
  }

  // ---------------------------------------------------------------- sorting

  /** Earlier start first, then longer first. */
  predicate Sooner(a: Span, b: Span) { a.start < b.start || (a.start == b.start && a.end >= b.end) }

  ghost predicate Arranged(s: seq<Span>) { forall i, j :: 0 <= i < j < |s| ==> Sooner(s[i], s[j]) }

  function Insert(s: seq<Span>, x: Span): seq<Span> {
    if s == [] || !Sooner(s[0], x) then [x] + s else [s[0]] + Insert(s[1..], x)
  }

  lemma {:induction false} InsertIs(s: seq<Span>, x: Span)
    requires Arranged(s)
    ensures Arranged(Insert(s, x)) && forall y :: y in Insert(s, x) <==> y == x || y in s
    decreases |s|
  {
    if s != [] && Sooner(s[0], x) {
      InsertIs(s[1..], x);
      assert s == [s[0]] + s[1..];
      forall y | y in Insert(s[1..], x) ensures Sooner(s[0], y) { }
    } else {
      forall j | 0 <= j < |s| ensures Sooner(x, s[j]) { assert j > 0 ==> Sooner(s[0], s[j]); }
    }
  }

  method Sort(spans: seq<Span>) returns (sorted: seq<Span>)
    ensures Arranged(sorted) && forall x :: x in sorted <==> x in spans
  {
    hide Insert;
    sorted := [];
    for k := 0 to |spans|
      invariant Arranged(sorted) && forall x :: x in sorted <==> x in spans[..k]
    {
      assert spans[..k + 1] == spans[..k] + [spans[k]];
      InsertIs(sorted, spans[k]);
      sorted := Insert(sorted, spans[k]);
    }
    assert spans[..|spans|] == spans;
  }

  // ---------------------------------------------------------------- scanning one file

  /** Listed left to right without overlap. */
  ghost predicate InOrder(s: seq<Span>) { forall i, j :: 0 <= i < j < |s| ==> s[i].path == s[j].path && s[i].end <= s[j].start }

  ghost predicate OneFile(s: seq<Span>) { forall i, j :: 0 <= i < |s| && 0 <= j < |s| ==> s[i].path == s[j].path }

  /** The state of the scan after the first `k` sorted spans. */
  ghost predicate Scanned(sorted: seq<Span>, k: nat, maximal: seq<Span>) {
    && k <= |sorted| && InOrder(maximal) && (k > 0 ==> maximal != [])
    && (forall m :: m in maximal ==> m in sorted[..k])
    && forall s :: s in sorted[..k] ==> ValidSpan(s) && HeldBy(s, Members(maximal))
  }

  lemma ScanSkip(sorted: seq<Span>, k: nat, maximal: seq<Span>)
    requires Scanned(sorted, k, maximal) && k < |sorted| && maximal != [] && ValidSpan(sorted[k]) && Holds(sorted[k], maximal[|maximal| - 1])
    ensures Scanned(sorted, k + 1, maximal)
  {
    assert sorted[..k + 1] == sorted[..k] + [sorted[k]];
    assert maximal[|maximal| - 1] in maximal;
  }

  lemma InOrderSnoc(maximal: seq<Span>, s: Span)
    requires InOrder(maximal) && (forall m :: m in maximal ==> ValidSpan(m) && m.path == s.path)
    requires maximal != [] ==> maximal[|maximal| - 1].end <= s.start
    ensures InOrder(maximal + [s])
  {
    var n := |maximal|;
    forall i | 0 <= i < n ensures maximal[i].path == s.path && maximal[i].end <= s.start {
      assert maximal[i] in maximal && maximal[n - 1] in maximal;
    }
  }

  lemma ScanTake(sorted: seq<Span>, k: nat, maximal: seq<Span>)
    requires Scanned(sorted, k, maximal) && k < |sorted| && ValidSpan(sorted[k]) && OneFile(sorted)
    requires maximal != [] ==> maximal[|maximal| - 1].end <= sorted[k].start
    ensures Scanned(sorted, k + 1, maximal + [sorted[k]])
  {
    hide InOrder, OneFile, ValidSpan, HeldBy;
    assert sorted[..k + 1] == sorted[..k] + [sorted[k]];
    var more := maximal + [sorted[k]];
    forall m | m in maximal ensures m.path == sorted[k].path { FileOf(sorted, k, m); }
    InOrderSnoc(maximal, sorted[k]);
    assert Members(more) == Members(maximal) + {sorted[k]};
    HeldBySelf(sorted[k], Members(more));
    forall s | s in sorted[..k] ensures HeldBy(s, Members(more)) { HeldByMore(s, Members(maximal), Members(more)); }
  }

  lemma HeldBySelf(s: Span, top: set<Span>)
    requires s in top
    ensures HeldBy(s, top)
  {
    assert Holds(s, s);
  }

  lemma HeldByMore(s: Span, top: set<Span>, more: set<Span>)
    requires HeldBy(s, top) && top <= more
    ensures HeldBy(s, more)
  {
  }

  lemma FileOf(sorted: seq<Span>, k: nat, m: Span)
    requires OneFile(sorted) && k < |sorted| && m in sorted
    ensures m.path == sorted[k].path
  {
    var i :| 0 <= i < |sorted| && sorted[i] == m;
  }

  /** A span that meets the last maximal span, but does not lie in it as one span of a family must, leaves the family
      without outermost spans. */
  lemma ScanStuck(sorted: seq<Span>, k: nat, maximal: seq<Span>, top: set<Span>)
    requires Scanned(sorted, k, maximal) && Arranged(sorted) && OneFile(sorted) && k < |sorted| && maximal != []
    requires var last := maximal[|maximal| - 1]; sorted[k].start < last.end && !Holds(sorted[k], last)
    ensures !Outermost(Members(sorted), top)
  {
    if Outermost(Members(sorted), top) {
      var last, s := maximal[|maximal| - 1], sorted[k];
      assert last in maximal && last in sorted[..k] && s in Members(sorted);
      var i :| 0 <= i < k && sorted[i] == last;
      var a := SharedOuter(sorted, k, i, top);
      if !SameRange(last, a) {
        OuterBefore(sorted, k, i, a);
        OutsideLast(sorted, k, maximal, a);
      }
    }
  }

  lemma SharedOuter(sorted: seq<Span>, k: nat, i: nat, top: set<Span>) returns (a: Span)
    requires Outermost(Members(sorted), top) && Arranged(sorted) && OneFile(sorted) && i < k < |sorted| && sorted[k].start < sorted[i].end
    ensures a in top && a in sorted && Holds(sorted[i], a) && Holds(sorted[k], a)
  {
    var last, s := sorted[i], sorted[k];
    assert last in Members(sorted) && s in Members(sorted);
    assert HeldBy(last, top) && HeldBy(s, top);
    a :| a in top && Holds(last, a);
    var b :| b in top && Holds(s, b);
    assert Sooner(last, s) && ValidSpan(last) && ValidSpan(s) && last.path == s.path;
    OverlapMeets(last, s, a, b);
  }

  lemma OuterBefore(sorted: seq<Span>, k: nat, i: nat, a: Span)
    requires Arranged(sorted) && i < k < |sorted| && a in sorted && Within(sorted[i], a) && !SameRange(sorted[i], a)
    ensures a in sorted[..k]
  {
    var j :| 0 <= j < |sorted| && sorted[j] == a;
    NotSooner(sorted[i], a);
    assert sorted[..k][j] == a;
  }

  lemma NotSooner(x: Span, a: Span)
    requires Within(x, a) && !SameRange(x, a)
    ensures !Sooner(x, a)
  {
  }

  lemma OutsideLast(sorted: seq<Span>, k: nat, maximal: seq<Span>, a: Span)
    requires Scanned(sorted, k, maximal) && maximal != [] && a in sorted[..k]
    requires Within(maximal[|maximal| - 1], a)
    ensures SameRange(maximal[|maximal| - 1], a)
  {
    var last := maximal[|maximal| - 1];
    assert last in maximal && HeldBy(a, Members(maximal));
    var m :| m in Members(maximal) && Holds(a, m);
    InOrderSame(maximal, m, last);
  }

  lemma InOrderSame(maximal: seq<Span>, m: Span, last: Span)
    requires InOrder(maximal) && m in maximal && last in maximal && ValidSpan(m) && ValidSpan(last) && Within(last, m)
    ensures m == last
  {
    var i :| 0 <= i < |maximal| && maximal[i] == m;
    var j :| 0 <= j < |maximal| && maximal[j] == last;
  }

  lemma ScanDone(spans: seq<Span>, sorted: seq<Span>, maximal: seq<Span>)
    requires Scanned(sorted, |sorted|, maximal) && forall x :: x in sorted <==> x in spans
    ensures Outermost(Members(spans), Members(maximal))
  {
    hide HeldBy;
    assert sorted[..|sorted|] == sorted;
    forall a, b | a in Members(maximal) && b in Members(maximal) && a != b ensures Apart(a, b) {
      var i :| 0 <= i < |maximal| && maximal[i] == a;
      var j :| 0 <= j < |maximal| && maximal[j] == b;
    }
  }

  /** `maximalSemanticSpans`, for the spans of one file: accepts exactly the families that have outermost spans, and
      returns them left to right. */
  method MaximalSemanticSpans(spans: seq<Span>) returns (result: Spans<seq<Span>>)
    requires OneFile(spans)
    ensures result.Accepted? <==> exists top :: Outermost(Members(spans), top)
    ensures result.Accepted? ==> Outermost(Members(spans), Members(result.value)) && InOrder(result.value)
  {
    hide Outermost, Scanned, InOrder, Arranged;
    var sorted := Sort(spans);
    assert Members(sorted) == Members(spans);
    assert OneFile(sorted) by { SameFile(spans, sorted); }
    var maximal: seq<Span> := [];
    NothingScanned(sorted);
    for k := 0 to |sorted|
      invariant Scanned(sorted, k, maximal)
    {
      var span := sorted[k];
      assert span in Members(sorted);
      if span.start < 0 || span.end <= span.start || span.loc < 0 {
        InvalidSpan(Members(sorted), span);
        return Rejected(SpanInvalid);
      }
      if maximal == [] {
        ScanTake(sorted, k, maximal);
        maximal := maximal + [span];
      } else {
        var previous := maximal[|maximal| - 1];
        PreviousBefore(sorted, k, maximal);
        if previous.start == span.start && previous.end == span.end {
          if previous.loc != span.loc {
            Stuck(sorted, k, maximal);
            return Rejected(SpanConflict);
          }
          ScanSkip(sorted, k, maximal);
        } else if previous.start <= span.start && previous.end >= span.end {
          ScanSkip(sorted, k, maximal);
        } else if span.start < previous.end {
          Stuck(sorted, k, maximal);
          return Rejected(SpansOverlap);
        } else {
          ScanTake(sorted, k, maximal);
          maximal := maximal + [span];
        }
      }
    }
    ScanDone(spans, sorted, maximal);
    ScannedInOrder(sorted, |sorted|, maximal);
    return Accepted(maximal);
  }

  lemma NothingScanned(sorted: seq<Span>)
    ensures Scanned(sorted, 0, [])
  {
  }

  lemma ScannedInOrder(sorted: seq<Span>, k: nat, maximal: seq<Span>)
    requires Scanned(sorted, k, maximal)
    ensures InOrder(maximal)
  {
  }

  lemma SameFile(spans: seq<Span>, sorted: seq<Span>)
    requires OneFile(spans) && forall x :: x in sorted <==> x in spans
    ensures OneFile(sorted)
  {
    forall i, j | 0 <= i < |sorted| && 0 <= j < |sorted| ensures sorted[i].path == sorted[j].path {
      assert sorted[i] in spans && sorted[j] in spans;
    }
  }

  lemma InvalidSpan(all: set<Span>, s: Span)
    requires s in all && !ValidSpan(s)
    ensures !exists top :: Outermost(all, top)
  {
    hide HeldBy;
  }

  lemma PreviousBefore(sorted: seq<Span>, k: nat, maximal: seq<Span>)
    requires Scanned(sorted, k, maximal) && Arranged(sorted) && OneFile(sorted) && k < |sorted| && maximal != []
    ensures maximal[|maximal| - 1].path == sorted[k].path && ValidSpan(maximal[|maximal| - 1]) && Sooner(maximal[|maximal| - 1], sorted[k])
  {
    hide HeldBy;
    var last := maximal[|maximal| - 1];
    assert last in maximal;
    var i :| 0 <= i < k && sorted[i] == last;
  }

  lemma Stuck(sorted: seq<Span>, k: nat, maximal: seq<Span>)
    requires Scanned(sorted, k, maximal) && Arranged(sorted) && OneFile(sorted) && k < |sorted| && maximal != []
    requires var last := maximal[|maximal| - 1]; sorted[k].start < last.end && !Holds(sorted[k], last)
    ensures !exists top :: Outermost(Members(sorted), top)
  {
    forall top ensures !Outermost(Members(sorted), top) { ScanStuck(sorted, k, maximal, top); }
  }

  // ---------------------------------------------------------------- all files

  function Files(spans: seq<Span>): set<string> { set s | s in spans :: s.path }

  function InFile(spans: seq<Span>, path: string): seq<Span> {
    if spans == [] then [] else (if spans[0].path == path then [spans[0]] else []) + InFile(spans[1..], path)
  }

  lemma {:induction false} InFileIs(spans: seq<Span>, path: string, s: Span)
    ensures s in InFile(spans, path) <==> s in spans && s.path == path
    decreases |spans|
  {
    if spans != [] { InFileIs(spans[1..], path, s); }
  }

  ghost function OfFiles(spans: seq<Span>, paths: set<string>): set<Span> { set s | s in spans && s.path in paths }

  lemma OutermostJoin(a: set<Span>, top: set<Span>, b: set<Span>, other: set<Span>)
    requires Outermost(a, top) && Outermost(b, other) && forall s, t :: s in a && t in b ==> s.path != t.path
    ensures Outermost(a + b, top + other)
  {
    hide HeldBy;
    forall s | s in a + b ensures HeldBy(s, top + other) {
      if s in a { HeldByMore(s, top, top + other); } else { HeldByMore(s, other, top + other); }
    }
  }

  lemma OutermostPart(all: set<Span>, top: set<Span>, path: string)
    requires Outermost(all, top)
    ensures Outermost((set s | s in all && s.path == path), (set s | s in top && s.path == path))
  {
    hide HeldBy;
    var mine := set s | s in top && s.path == path;
    forall s | s in all && s.path == path ensures HeldBy(s, mine) {
      var m := Holder(all, top, s);
      HeldByThat(s, m, mine);
    }
  }

  lemma HeldByThat(s: Span, m: Span, top: set<Span>)
    requires m in top && Holds(s, m)
    ensures HeldBy(s, top)
  {
  }

  /** The spans of a list are pairwise apart. */
  ghost predicate Separate(s: seq<Span>) { forall i, j :: 0 <= i < j < |s| ==> Apart(s[i], s[j]) }

  lemma SeparateJoin(s: seq<Span>, t: seq<Span>, paths: set<string>, path: string)
    requires Separate(s) && InOrder(t) && (forall x :: x in s ==> x.path in paths) && (forall x :: x in t ==> x.path == path) && path !in paths
    ensures Separate(s + t)
  {
    forall i, j | 0 <= i < j < |s + t| ensures Apart((s + t)[i], (s + t)[j]) {
      if i < |s| && j >= |s| { assert s[i] in s && t[j - |s|] in t; }
    }
  }

  /** `normalizeSemanticSpans`: accepts exactly the families that have outermost spans, and returns those. */
  method NormalizeSemanticSpans(spans: seq<Span>) returns (result: Spans<seq<Span>>)
    ensures result.Accepted? <==> exists top :: Outermost(Members(spans), top)
    ensures result.Accepted? ==> Outermost(Members(spans), Members(result.value)) && Separate(result.value)
  {
    hide Outermost, Separate, InOrder, InFile;
    var paths := Sorted(Files(spans));
    var normal: seq<Span> := [];
    ghost var done: set<string> := {};
    NoFiles(spans);
    for k := 0 to |paths|
      invariant done == set i | 0 <= i < k :: paths[i]
      invariant Outermost(OfFiles(spans, done), Members(normal)) && Separate(normal)
    {
      var path := paths[k];
      assert path !in done by { forall i | 0 <= i < k ensures paths[i] != path { BeforeTotal(paths[i], path); } }
      var selected := InFile(spans, path);
      FileGroup(spans, path);
      var maximal := MaximalSemanticSpans(selected);
      if maximal.Rejected? {
        NoPart(spans, path);
        return Rejected(maximal.error);
      }
      TopInside(OfFiles(spans, done), Members(normal));
      TopInside(OfFiles(spans, {path}), Members(maximal.value));
      assert (forall x :: x in normal ==> x in Members(normal)) && forall x :: x in maximal.value ==> x in Members(maximal.value);
      SeparateJoin(normal, maximal.value, done, path);
      OutermostJoin(OfFiles(spans, done), Members(normal), OfFiles(spans, {path}), Members(maximal.value));
      assert OfFiles(spans, done + {path}) == OfFiles(spans, done) + OfFiles(spans, {path});
      assert Members(normal + maximal.value) == Members(normal) + Members(maximal.value);
      normal := normal + maximal.value;
      done := done + {path};
    }
    assert OfFiles(spans, done) == Members(spans) by { AllFiles(spans, paths); }
    return Accepted(normal);
  }

  lemma NoFiles(spans: seq<Span>)
    ensures Outermost(OfFiles(spans, {}), Members([])) && Separate([])
  {
  }

  lemma AllFiles(spans: seq<Span>, paths: seq<string>)
    requires forall x :: x in paths <==> x in Files(spans)
    ensures OfFiles(spans, set i | 0 <= i < |paths| :: paths[i]) == Members(spans)
  {
    forall s | s in spans ensures s.path in set i | 0 <= i < |paths| :: paths[i] {
      assert s.path in Files(spans);
    }
  }

  lemma FileGroup(spans: seq<Span>, path: string)
    ensures OneFile(InFile(spans, path)) && Members(InFile(spans, path)) == OfFiles(spans, {path})
  {
    forall s ensures s in InFile(spans, path) <==> s in spans && s.path == path { InFileIs(spans, path, s); }
    var group := InFile(spans, path);
    forall i | 0 <= i < |group| ensures group[i].path == path { assert group[i] in group; }
  }

  lemma NoPart(spans: seq<Span>, path: string)
    requires !exists top :: Outermost(OfFiles(spans, {path}), top)
    ensures !exists top :: Outermost(Members(spans), top)
  {
    hide HeldBy;
    assert OfFiles(spans, {path}) == set s | s in Members(spans) && s.path == path;
    forall top ensures !Outermost(Members(spans), top) {
      if Outermost(Members(spans), top) { OutermostPart(Members(spans), top, path); }
    }
  }

  lemma TopInside(all: set<Span>, top: set<Span>)
    requires Outermost(all, top)
    ensures top <= all
  {
  }
}
