/** Marginal semantic size and its conservation over a measurement plan
    (experiments/semantic-scaling/measure.ts:310-365, 536-608). */
module SemanticScaling {
  import opened SemanticSpans

  // ---------------------------------------------------------------- sizes

  function Sum(s: seq<Span>): int { if s == [] then 0 else s[0].loc + Sum(s[1..]) }

  lemma {:induction false} SumAppend(s: seq<Span>, t: seq<Span>)
    ensures Sum(s + t) == Sum(s) + Sum(t)
    decreases |s|
  {
    if s == [] {
      assert s + t == t;
    } else {
      assert (s + t)[1..] == s[1..] + t;
      SumAppend(s[1..], t);
    }
  }

  ghost predicate AllValid(s: seq<Span>) { forall x :: x in s ==> ValidSpan(x) }

  /** Lists of separate spans with the same members have the same size. */
  lemma {:induction false} SumOfSame(s: seq<Span>, t: seq<Span>)
    requires Separate(s) && Separate(t) && AllValid(s) && AllValid(t) && forall x :: x in s <==> x in t
    ensures Sum(s) == Sum(t)
    decreases |s|
  {
    FirstIn(t);
    if s != [] {
      assert s[0] in t;
      var j :| 0 <= j < |t| && t[j] == s[0];
      var rest := t[..j] + t[j + 1..];
      assert t == t[..j] + [t[j]] + t[j + 1..];
      SumAppend(t[..j] + [t[j]], t[j + 1..]);
      SumAppend(t[..j], [t[j]]);
      SumAppend(t[..j], t[j + 1..]);
      assert [t[j]][1..] == [];
      WithoutOne(t, j);
      WithoutOne(s, 0);
      assert s[..0] + s[1..] == s[1..];
      SumOfSame(s[1..], rest);
    }
  }

  lemma FirstIn(t: seq<Span>)
    ensures t != [] ==> t[0] in t
  {
  }

  /** A separate list without its element at `j`. */
  lemma WithoutOne(t: seq<Span>, j: nat)
    requires Separate(t) && AllValid(t) && j < |t|
    ensures var rest := t[..j] + t[j + 1..]; Separate(rest) && AllValid(rest) && forall x :: x in rest <==> x in t && x != t[j]
  {
    var rest := t[..j] + t[j + 1..];
    forall a, b | 0 <= a < b < |rest| ensures Apart(rest[a], rest[b]) {
      assert rest[a] == t[if a < j then a else a + 1] && rest[b] == t[if b < j then b else b + 1];
    }
    forall x ensures x in rest <==> x in t && x != t[j] { WithoutOneIs(t, j, x); }
  }

  lemma WithoutOneIs(t: seq<Span>, j: nat, x: Span)
    requires Separate(t) && AllValid(t) && j < |t|
    ensures x in t[..j] + t[j + 1..] <==> x in t && x != t[j]
  {
    hide Separate, AllValid;
    var rest := t[..j] + t[j + 1..];
    if x in t && x != t[j] {
      var i :| 0 <= i < |t| && t[i] == x;
      assert rest[if i < j then i else i - 1] == x;
    }
    if x in rest {
      var a :| 0 <= a < |rest| && rest[a] == x;
      var i := if a < j then a else a + 1;
      assert t[i] == x;
      NotSelf(t, i, j);
    }
  }

  lemma NotSelf(s: seq<Span>, i: nat, j: nat)
    requires Separate(s) && AllValid(s) && i < |s| && j < |s| && i != j
    ensures s[i] != s[j]
  {
    assert s[i] in s && s[j] in s;
  }

  /** `list` is a normal form of `spans`: its outermost spans, in any order. */
  ghost predicate Normal(spans: set<Span>, list: seq<Span>) { Outermost(spans, Members(list)) && Separate(list) }

  lemma NormalValid(spans: set<Span>, list: seq<Span>)
    requires Normal(spans, list)
    ensures AllValid(list) && forall x :: x in list ==> x in spans
  {
    hide HeldBy;
    assert forall x :: x in list ==> x in Members(list);
  }

  /** The size of a family does not depend on the order of its normal form. */
  lemma NormalSum(spans: set<Span>, list: seq<Span>, other: seq<Span>)
    requires Normal(spans, list) && Normal(spans, other)
    ensures Sum(list) == Sum(other)
  {
    hide Outermost;
    NormalValid(spans, list);
    NormalValid(spans, other);
    OutermostUnique(spans, Members(list), Members(other));
    assert forall x :: (x in list <==> x in Members(list)) && (x in other <==> x in Members(other));
    SumOfSame(list, other);
  }

  // ---------------------------------------------------------------- one marginal size

  /** The inner loop of `marginalSemanticSpans`: how much of `span` the prior spans already cover. */
  function CoveredLoc(span: Span, ps: seq<Span>, covered: int): Spans<int>
    decreases |ps|
  {
    if ps == [] then Accepted(covered)
    else
      var p := ps[0];
      if p.path != span.path || p.end <= span.start || p.start >= span.end then CoveredLoc(span, ps[1..], covered)
      else if p.start <= span.start && p.end >= span.end then
        if p.start == span.start && p.end == span.end && p.loc != span.loc then Rejected(SpanConflict)
        else if p.loc < span.loc then Rejected(ContainmentInvalid)
        else Accepted(span.loc)
      else if span.start <= p.start && span.end >= p.end then CoveredLoc(span, ps[1..], covered + p.loc)
      else Rejected(SpansOverlap)
  }

  predicate ContainedIn(span: Span, ps: seq<Span>) { exists p :: p in ps && Within(span, p) }

  function SumInside(ps: seq<Span>, span: Span): int {
    if ps == [] then 0 else (if Within(ps[0], span) then ps[0].loc else 0) + SumInside(ps[1..], span)
  }

  /** The spans do not straddle each other. */
  predicate Nested(a: Span, b: Span) { Apart(a, b) || Within(a, b) || Within(b, a) }

  /** No prior span straddles `span`, and those that contain it agree with it. */
  ghost predicate Clear(span: Span, ps: seq<Span>) {
    forall p :: p in ps ==> Nested(span, p) && (Within(span, p) ==> Holds(span, p) && span.loc <= p.loc)
  }

  /** The inner loop accepts exactly the clear spans; it then yields the whole size of a contained span, and otherwise what
      was covered before and the sizes of the prior spans inside. */
  lemma {:induction false} CoveredIs(span: Span, ps: seq<Span>, covered: int)
    requires Separate(ps) && AllValid(ps) && ValidSpan(span)
    ensures CoveredLoc(span, ps, covered).Accepted? <==> Clear(span, ps)
    ensures Clear(span, ps) ==>
      CoveredLoc(span, ps, covered).value == if ContainedIn(span, ps) then span.loc else covered + SumInside(ps, span)
    decreases |ps|
  {
    hide Clear, ContainedIn, Separate, AllValid;
    if ps == [] {
      NothingPrior(span);
    } else {
      var p := ps[0];
      Rest(ps);
      ClearSplit(span, ps);
      ClearOne(span, p);
      if Within(span, p) {
        ContainedFirst(span, ps);
      } else {
        NotFirst(span, ps);
        CoveredIs(span, ps[1..], if Apart(span, p) then covered else covered + p.loc);
      }
    }
  }

  lemma NothingPrior(span: Span)
    ensures Clear(span, []) && !ContainedIn(span, [])
  {
  }

  lemma Rest(ps: seq<Span>)
    requires Separate(ps) && AllValid(ps) && ps != []
    ensures Separate(ps[1..]) && AllValid(ps[1..]) && ValidSpan(ps[0])
  {
    assert ps[0] in ps;
  }

  /** A prior span that contains the span leaves the others apart from it. */
  lemma ContainedFirst(span: Span, ps: seq<Span>)
    requires Separate(ps) && AllValid(ps) && ps != [] && Within(span, ps[0]) && ValidSpan(span)
    ensures ContainedIn(span, ps) && Clear(span, ps[1..]) && !Apart(span, ps[0])
  {
    assert ps[0] in ps;
    forall q | q in ps[1..] ensures Apart(span, q) { ApartInside(ps, span, q); }
  }

  lemma ClearOne(span: Span, p: Span)
    ensures Clear(span, [p]) <==> Nested(span, p) && (Within(span, p) ==> Holds(span, p) && span.loc <= p.loc)
  {
    assert p in [p];
  }

  lemma ClearSplit(span: Span, ps: seq<Span>)
    requires ps != []
    ensures Clear(span, ps) <==> Clear(span, [ps[0]]) && Clear(span, ps[1..])
  {
    assert ps == [ps[0]] + ps[1..];
  }

  lemma ApartInside(ps: seq<Span>, span: Span, q: Span)
    requires Separate(ps) && AllValid(ps) && ps != [] && Within(span, ps[0]) && q in ps[1..] && ValidSpan(span)
    ensures Apart(span, q)
  {
    var i :| 0 <= i < |ps[1..]| && ps[1..][i] == q;
    assert Apart(ps[0], ps[i + 1]);
  }

  lemma NotFirst(span: Span, ps: seq<Span>)
    requires ps != [] && !Within(span, ps[0])
    ensures ContainedIn(span, ps) <==> ContainedIn(span, ps[1..])
  {
    assert ps == [ps[0]] + ps[1..];
  }

  /** `marginalSemanticSpans` on normal forms. */
  function Marginals(cs: seq<Span>, ps: seq<Span>): Spans<seq<Span>>
    decreases |cs|
  {
    if cs == [] then Accepted([])
    else
      var covered := CoveredLoc(cs[0], ps, 0);
      if covered.Rejected? then Rejected(covered.error)
      else if cs[0].loc - covered.value < 0 then Rejected(ContainmentInvalid)
      else
        var rest := Marginals(cs[1..], ps);
        if rest.Rejected? then rest
        else if cs[0].loc - covered.value > 0 then Accepted([cs[0].(loc := cs[0].loc - covered.value)] + rest.value)
        else rest
  }

  // ---------------------------------------------------------------- conservation

  /** The current spans that no prior span contains. */
  function Uncontained(cs: seq<Span>, ps: seq<Span>): seq<Span> {
    if cs == [] then [] else (if ContainedIn(cs[0], ps) then [] else [cs[0]]) + Uncontained(cs[1..], ps)
  }

  /** The spans that do not lie within `c`. */
  function Outside(ps: seq<Span>, c: Span): seq<Span> {
    if ps == [] then [] else (if Within(ps[0], c) then [] else [ps[0]]) + Outside(ps[1..], c)
  }

  function OutsideAll(ps: seq<Span>, cs: seq<Span>): seq<Span>
    decreases |cs|
  {
    if cs == [] then ps else Outside(OutsideAll(ps, cs[..|cs| - 1]), cs[|cs| - 1])
  }

  function SumInsideAll(ps: seq<Span>, cs: seq<Span>): int
    decreases |cs|
  {
    if cs == [] then 0 else SumInsideAll(ps, cs[..|cs| - 1]) + SumInside(ps, cs[|cs| - 1])
  }

  lemma {:induction false} OutsideIs(ps: seq<Span>, c: Span, p: Span)
    ensures p in Outside(ps, c) <==> p in ps && !Within(p, c)
    decreases |ps|
  {
    if ps != [] { OutsideIs(ps[1..], c, p); }
  }

  lemma {:induction false} OutsideSum(ps: seq<Span>, c: Span)
    ensures Sum(ps) == Sum(Outside(ps, c)) + SumInside(ps, c)
    decreases |ps|
  {
    if ps != [] {
      OutsideSum(ps[1..], c);
      if !Within(ps[0], c) {
        assert Outside(ps, c) == [ps[0]] + Outside(ps[1..], c);
        SumAppend([ps[0]], Outside(ps[1..], c));
        assert [ps[0]][1..] == [];
      } else {
        assert Outside(ps, c) == Outside(ps[1..], c);
      }
    }
  }

  /** Removing spans that lie apart from `c` does not change what lies inside it. */
  lemma {:induction false} SumInsideOutside(ps: seq<Span>, d: Span, c: Span)
    requires AllValid(ps) && Apart(d, c)
    ensures SumInside(Outside(ps, d), c) == SumInside(ps, c)
    decreases |ps|
  {
    if ps != [] {
      assert ps[0] in ps && AllValid(ps[1..]);
      SumInsideOutside(ps[1..], d, c);
      if !Within(ps[0], d) {
        assert Outside(ps, d) == [ps[0]] + Outside(ps[1..], d);
        assert Outside(ps, d)[1..] == Outside(ps[1..], d);
      } else {
        assert Outside(ps, d) == Outside(ps[1..], d);
      }
    }
  }

  lemma {:induction false} SumInsideOutsideAll(ps: seq<Span>, cs: seq<Span>, c: Span)
    requires AllValid(ps) && forall d :: d in cs ==> Apart(d, c)
    ensures AllValid(OutsideAll(ps, cs)) && SumInside(OutsideAll(ps, cs), c) == SumInside(ps, c)
    decreases |cs|
  {
    if cs != [] {
      var n := |cs| - 1;
      assert cs[n] in cs && forall d :: d in cs[..n] ==> d in cs;
      SumInsideOutsideAll(ps, cs[..n], c);
      SumInsideOutside(OutsideAll(ps, cs[..n]), cs[n], c);
      forall x | x in OutsideAll(ps, cs) ensures ValidSpan(x) { OutsideIs(OutsideAll(ps, cs[..n]), cs[n], x); }
    }
  }

  /** What separate spans contain, together with what none of them contains, is everything. */
  lemma {:induction false} InsideAndOutside(ps: seq<Span>, cs: seq<Span>)
    requires AllValid(ps) && Separate(cs)
    ensures Sum(ps) == Sum(OutsideAll(ps, cs)) + SumInsideAll(ps, cs)
    decreases |cs|
  {
    if cs != [] {
      var n := |cs| - 1;
      InsideAndOutside(ps, cs[..n]);
      forall d | d in cs[..n] ensures Apart(d, cs[n]) {
        var i :| 0 <= i < n && cs[..n][i] == d;
      }
      SumInsideOutsideAll(ps, cs[..n], cs[n]);
      OutsideSum(OutsideAll(ps, cs[..n]), cs[n]);
    }
  }

  lemma {:induction false} UncontainedIs(cs: seq<Span>, ps: seq<Span>, c: Span)
    ensures c in Uncontained(cs, ps) <==> c in cs && !ContainedIn(c, ps)
    decreases |cs|
  {
    hide ContainedIn;
    if cs != [] { UncontainedIs(cs[1..], ps, c); }
  }

  lemma {:induction false} UncontainedSeparate(cs: seq<Span>, ps: seq<Span>)
    requires Separate(cs)
    ensures Separate(Uncontained(cs, ps))
    decreases |cs|
  {
    hide ContainedIn;
    if cs != [] {
      UncontainedSeparate(cs[1..], ps);
      forall c | c in Uncontained(cs[1..], ps) ensures Apart(cs[0], c) {
        UncontainedIs(cs[1..], ps, c);
        var i :| 0 <= i < |cs[1..]| && cs[1..][i] == c;
        assert Apart(cs[0], cs[i + 1]);
      }
    }
  }

  lemma {:induction false} OutsideSeparate(ps: seq<Span>, c: Span)
    requires Separate(ps)
    ensures Separate(Outside(ps, c))
    decreases |ps|
  {
    if ps != [] {
      OutsideSeparate(ps[1..], c);
      forall p | p in Outside(ps[1..], c) ensures Apart(ps[0], p) {
        OutsideIs(ps[1..], c, p);
        var i :| 0 <= i < |ps[1..]| && ps[1..][i] == p;
        assert Apart(ps[0], ps[i + 1]);
      }
    }
  }

  lemma {:induction false} OutsideAllIs(ps: seq<Span>, cs: seq<Span>, p: Span)
    ensures p in OutsideAll(ps, cs) <==> p in ps && forall c :: c in cs ==> !Within(p, c)
    ensures Separate(ps) ==> Separate(OutsideAll(ps, cs))
    decreases |cs|
  {
    hide Within, Separate;
    if cs != [] {
      var n := |cs| - 1;
      assert cs == cs[..n] + [cs[n]];
      OutsideAllIs(ps, cs[..n], p);
      OutsideIs(OutsideAll(ps, cs[..n]), cs[n], p);
      if Separate(ps) { OutsideSeparate(OutsideAll(ps, cs[..n]), cs[n]); }
    }
  }

  lemma {:induction false} SumInsideAllSnoc(ps: seq<Span>, c: Span, cs: seq<Span>)
    ensures SumInsideAll(ps, [c] + cs) == SumInside(ps, c) + SumInsideAll(ps, cs)
    decreases |cs|
  {
    if cs == [] {
      assert [c] + cs == [c] && [c][..0] == [];
    } else {
      var n := |cs| - 1;
      assert ([c] + cs)[..n + 1] == [c] + cs[..n];
      SumInsideAllSnoc(ps, c, cs[..n]);
    }
  }

  /** A current span the marginal can be taken of: clear of straddling, and not smaller than what it contains. */
  ghost predicate Fits(c: Span, ps: seq<Span>) { Clear(c, ps) && (!ContainedIn(c, ps) ==> SumInside(ps, c) <= c.loc) }

  ghost predicate AllFit(cs: seq<Span>, ps: seq<Span>) { forall c :: c in cs ==> Fits(c, ps) }

  /** The part of a span that is new: what the prior spans inside it leave, if none contains it. */
  ghost predicate NewPart(c: Span, ps: seq<Span>, m: Span) {
    !ContainedIn(c, ps) && c.loc > SumInside(ps, c) && m == c.(loc := c.loc - SumInside(ps, c))
  }

  /** The marginal exists exactly when every current span fits; its size is the size of the uncontained current spans, less
      what they contain of the prior ones, and its spans are exactly the new parts. */
  lemma {:induction false} MarginalSum(cs: seq<Span>, ps: seq<Span>)
    requires Separate(ps) && AllValid(ps) && AllValid(cs)
    ensures Marginals(cs, ps).Accepted? <==> AllFit(cs, ps)
    ensures AllFit(cs, ps) ==> Sum(Marginals(cs, ps).value) == Sum(Uncontained(cs, ps)) - SumInsideAll(ps, Uncontained(cs, ps))
    ensures AllFit(cs, ps) ==> forall m :: m in Marginals(cs, ps).value <==> exists c :: c in cs && NewPart(c, ps, m)
    decreases |cs|
  {
    hide ContainedIn, CoveredLoc, Clear, Separate;
    if cs != [] {
      assert cs[0] in cs && cs == [cs[0]] + cs[1..] && AllValid(cs[1..]);
      CoveredIs(cs[0], ps, 0);
      MarginalSum(cs[1..], ps);
      assert AllFit(cs, ps) <==> Fits(cs[0], ps) && AllFit(cs[1..], ps);
      if AllFit(cs, ps) {
        if !ContainedIn(cs[0], ps) {
          assert Uncontained(cs, ps) == [cs[0]] + Uncontained(cs[1..], ps);
          SumInsideAllSnoc(ps, cs[0], Uncontained(cs[1..], ps));
          assert ([cs[0]] + Uncontained(cs[1..], ps))[1..] == Uncontained(cs[1..], ps);
        } else {
          assert Uncontained(cs, ps) == Uncontained(cs[1..], ps);
        }
        NewParts(cs, ps);
      }
    }
  }

  lemma NewParts(cs: seq<Span>, ps: seq<Span>)
    requires cs != [] && Marginals(cs, ps).Accepted? && Marginals(cs[1..], ps).Accepted? && CoveredLoc(cs[0], ps, 0).Accepted?
    requires CoveredLoc(cs[0], ps, 0).value == if ContainedIn(cs[0], ps) then cs[0].loc else SumInside(ps, cs[0])
    requires forall m :: m in Marginals(cs[1..], ps).value <==> exists c :: c in cs[1..] && NewPart(c, ps, m)
    ensures forall m :: m in Marginals(cs, ps).value <==> exists c :: c in cs && NewPart(c, ps, m)
  {
    hide ContainedIn, CoveredLoc, SumInside;
    assert cs[0] in cs && cs == [cs[0]] + cs[1..];
    forall m ensures m in Marginals(cs, ps).value <==> exists c :: c in cs && NewPart(c, ps, m) {
      assert m in Marginals(cs, ps).value <==> NewPart(cs[0], ps, m) || m in Marginals(cs[1..], ps).value;
    }
  }

  /** The outermost spans of prior and current together: the uncontained current spans, and the prior spans outside them. */
  function Merged(cs: seq<Span>, ps: seq<Span>): seq<Span> { Uncontained(cs, ps) + OutsideAll(ps, Uncontained(cs, ps)) }

  /** No current span straddles a prior one, and equal ranges have equal sizes. */
  ghost predicate Compatible(cs: seq<Span>, ps: seq<Span>) {
    forall c, p :: c in cs && p in ps ==> Nested(c, p) && (Within(c, p) ==> Holds(c, p))
  }

  lemma MergedIs(cs: seq<Span>, ps: seq<Span>, x: Span)
    ensures x in Merged(cs, ps) <==>
      (x in cs && !ContainedIn(x, ps)) || (x in ps && forall c :: c in cs && !ContainedIn(c, ps) ==> !Within(x, c))
  {
    hide ContainedIn, Within;
    UncontainedIs(cs, ps, x);
    OutsideAllIs(ps, Uncontained(cs, ps), x);
    forall c ensures c in Uncontained(cs, ps) <==> c in cs && !ContainedIn(c, ps) { UncontainedIs(cs, ps, c); }
  }

  lemma SeparateAt(s: seq<Span>, a: Span, b: Span)
    requires Separate(s) && a in s && b in s && a != b
    ensures Apart(a, b)
  {
    var i :| 0 <= i < |s| && s[i] == a;
    var j :| 0 <= j < |s| && s[j] == b;
  }

  lemma MixedApart(cs: seq<Span>, ps: seq<Span>, c: Span, p: Span)
    requires Compatible(cs, ps) && c in cs && !ContainedIn(c, ps) && p in ps && !Within(p, c)
    ensures Apart(c, p)
  {
    assert Nested(c, p);
    assert !Within(c, p);
  }

  lemma MergedSeparate(cs: seq<Span>, ps: seq<Span>)
    requires Separate(cs) && Separate(ps) && Compatible(cs, ps)
    ensures Separate(Merged(cs, ps))
  {
    hide ContainedIn, Within, Compatible, Apart;
    var kept := Uncontained(cs, ps);
    var rest := OutsideAll(ps, kept);
    UncontainedSeparate(cs, ps);
    forall p ensures p in rest <==> p in ps && forall c :: c in kept ==> !Within(p, c) { OutsideAllIs(ps, kept, p); }
    assert Separate(rest) by { OutsideAllIs(ps, kept, Span("", 0, 0, 0)); }
    forall c, p | c in kept && p in rest ensures Apart(c, p) {
      UncontainedIs(cs, ps, c);
      MixedApart(cs, ps, c, p);
    }
    JoinSeparate(kept, rest);
  }

  lemma JoinSeparate(s: seq<Span>, t: seq<Span>)
    requires Separate(s) && Separate(t) && forall a, b :: a in s && b in t ==> Apart(a, b)
    ensures Separate(s + t)
  {
    hide Apart;
    forall i, j | 0 <= i < j < |s + t| ensures Apart((s + t)[i], (s + t)[j]) {
      if i < |s| && j >= |s| { assert s[i] in s && t[j - |s|] in t; }
    }
  }

  /** A current span is held by a merged span. */
  lemma CurrentHeld(cs: seq<Span>, ps: seq<Span>, c: Span) returns (m: Span)
    requires Separate(cs) && Separate(ps) && AllValid(cs) && AllValid(ps) && Compatible(cs, ps) && c in cs
    ensures m in Merged(cs, ps) && Holds(c, m)
  {
    if ContainedIn(c, ps) {
      m :| m in ps && Within(c, m);
      assert Holds(c, m);
      forall d | d in cs && !ContainedIn(d, ps) ensures !Within(m, d) {
        if Within(m, d) && c != d { SeparateAt(cs, c, d); }
      }
    } else {
      m := c;
    }
    MergedIs(cs, ps, m);
  }

  /** A prior span is held by a merged span: itself, or the larger current span around it. */
  lemma PriorHeld(cs: seq<Span>, ps: seq<Span>, p: Span) returns (m: Span)
    requires Separate(cs) && Separate(ps) && AllValid(cs) && AllValid(ps) && Compatible(cs, ps) && p in ps
    ensures m in Merged(cs, ps) && Holds(p, m)
  {
    if c :| c in cs && !ContainedIn(c, ps) && Within(p, c) {
      m := c;
      assert !Within(c, p);
    } else {
      m := p;
    }
    MergedIs(cs, ps, m);
  }

  lemma HoldsThrough(s: Span, c: Span, m: Span)
    requires Holds(s, c) && Holds(c, m)
    ensures Holds(s, m)
  {
  }

  /** The merged spans are the outermost spans of both families together. */
  lemma MergedOutermost(prior: set<Span>, current: set<Span>, ps: seq<Span>, cs: seq<Span>)
    requires Normal(prior, ps) && Normal(current, cs) && Compatible(cs, ps)
    ensures Normal(prior + current, Merged(cs, ps))
  {
    hide HeldBy, Compatible, Holds, Apart, Merged;
    NormalValid(prior, ps);
    NormalValid(current, cs);
    MergedSeparate(cs, ps);
    var top := Members(Merged(cs, ps));
    forall x | x in top ensures x in prior + current { MergedIs(cs, ps, x); }
    forall a, b | a in top && b in top && a != b ensures Apart(a, b) { SeparateAt(Merged(cs, ps), a, b); }
    forall s | s in prior + current ensures HeldBy(s, top) {
      var m: Span;
      if s in prior {
        var p := Holder(prior, Members(ps), s);
        m := PriorHeld(cs, ps, p);
        HoldsThrough(s, p, m);
      } else {
        var c := Holder(current, Members(cs), s);
        m := CurrentHeld(cs, ps, c);
        HoldsThrough(s, c, m);
      }
      HeldByThat(s, m, top);
    }
  }

  /** Conservation: whenever the marginal spans exist, prior and current together have a normal form, and its size is
      the prior size plus the marginal size. */
  lemma Conservation(prior: set<Span>, current: set<Span>, ps: seq<Span>, cs: seq<Span>)
    requires Normal(prior, ps) && Normal(current, cs) && Marginals(cs, ps).Accepted?
    ensures Normal(prior + current, Merged(cs, ps))
    ensures forall us :: Normal(prior + current, us) ==> Sum(us) == Sum(ps) + Sum(Marginals(cs, ps).value)
  {
    hide Outermost, Marginals, Nested, Holds, Within;
    NormalValid(prior, ps);
    NormalValid(current, cs);
    MarginalSum(cs, ps);
    MergedOutermost(prior, current, ps, cs);
    UncontainedSeparate(cs, ps);
    InsideAndOutside(ps, Uncontained(cs, ps));
    SumAppend(Uncontained(cs, ps), OutsideAll(ps, Uncontained(cs, ps)));
    forall us | Normal(prior + current, us) ensures Sum(us) == Sum(Merged(cs, ps)) {
      NormalSum(prior + current, us, Merged(cs, ps));
    }
  }

  // ---------------------------------------------------------------- the span functions

  /** The inner loop. */
  method CoveredBy(span: Span, ps: seq<Span>) returns (covered: Spans<int>)
    ensures covered == CoveredLoc(span, ps, 0)
  {
    var loc, i := 0, 0;
    while i < |ps|
      invariant i <= |ps| && CoveredLoc(span, ps[i..], loc) == CoveredLoc(span, ps, 0)
    {
      var p := ps[i];
      assert ps[i..][0] == p && ps[i..][1..] == ps[i + 1..];
      i := i + 1;
      if p.path != span.path { continue; }
      if p.end <= span.start || p.start >= span.end { continue; }
      if p.start <= span.start && p.end >= span.end {
        if p.start == span.start && p.end == span.end && p.loc != span.loc { return Rejected(SpanConflict); }
        if p.loc < span.loc { return Rejected(ContainmentInvalid); }
        return Accepted(span.loc);
      }
      if span.start <= p.start && span.end >= p.end {
        loc := loc + p.loc;
        continue;
      }
      return Rejected(SpansOverlap);
    }
    return Accepted(loc);
  }

  /** What the outer loop returns once the rest of the spans gives `rest`. */
  function Continue(done: seq<Span>, rest: Spans<seq<Span>>): Spans<seq<Span>> {
    if rest.Rejected? then rest else Accepted(done + rest.value)
  }

  /** The outer loop, on normal forms. */
  method MarginalLoop(cs: seq<Span>, ps: seq<Span>) returns (result: Spans<seq<Span>>)
    ensures result == Marginals(cs, ps)
  {
    hide CoveredLoc;
    var marginal: seq<Span>, i := [], 0;
    assert cs[0..] == cs;
    assert Marginals(cs, ps).Accepted? ==> [] + Marginals(cs, ps).value == Marginals(cs, ps).value;
    while i < |cs|
      invariant i <= |cs| && Continue(marginal, Marginals(cs[i..], ps)) == Marginals(cs, ps)
    {
      var span := cs[i];
      assert cs[i..][0] == span && cs[i..][1..] == cs[i + 1..];
      var covered := CoveredBy(span, ps);
      if covered.Rejected? { return Rejected(covered.error); }
      var loc := span.loc - covered.value;
      if loc < 0 { return Rejected(ContainmentInvalid); }
      if loc > 0 {
        ghost var rest := Marginals(cs[i + 1..], ps);
        assert rest.Accepted? ==> marginal + ([span.(loc := loc)] + rest.value) == (marginal + [span.(loc := loc)]) + rest.value;
        marginal := marginal + [span.(loc := loc)];
      }
      i := i + 1;
    }
    assert marginal + [] == marginal;
    return Accepted(marginal);
  }

  ghost predicate HasNormal(spans: set<Span>) { exists top :: Outermost(spans, top) }

  /** `semanticLoc`: the size of the outermost spans, whatever their order. */
  method SemanticLoc(spans: seq<Span>) returns (loc: Spans<int>)
    ensures loc.Accepted? <==> HasNormal(Members(spans))
    ensures loc.Accepted? ==> forall list :: Normal(Members(spans), list) ==> loc.value == Sum(list)
  {
    hide Outermost;
    var normal := NormalizeSemanticSpans(spans);
    if normal.Rejected? { return Rejected(normal.error); }
    var sum, i := 0, 0;
    while i < |normal.value|
      invariant i <= |normal.value| && sum + Sum(normal.value[i..]) == Sum(normal.value)
    {
      assert normal.value[i..][1..] == normal.value[i + 1..];
      sum := sum + normal.value[i].loc;
      i := i + 1;
    }
    forall list | Normal(Members(spans), list) ensures sum == Sum(list) { NormalSum(Members(spans), normal.value, list); }
    return Accepted(sum);
  }

  /** `unionSemanticSpans`, of two families. */
  method UnionSemanticSpans(prior: seq<Span>, current: seq<Span>) returns (union: Spans<seq<Span>>)
    ensures union.Accepted? <==> HasNormal(Members(prior) + Members(current))
    ensures union.Accepted? ==> Normal(Members(prior) + Members(current), union.value)
  {
    hide Outermost;
    assert Members(prior + current) == Members(prior) + Members(current);
    union := NormalizeSemanticSpans(prior + current);
  }

  /** The marginal spans of `current` over `prior`, between some normal forms of both. */
  ghost predicate IsMarginal(prior: set<Span>, current: set<Span>, marginal: seq<Span>) {
    exists ps, cs :: Normal(prior, ps) && Normal(current, cs) && Marginals(cs, ps) == Accepted(marginal)
  }

  /** Both families have normal forms, and every current span fits the prior ones. */
  ghost predicate MarginalDefined(prior: set<Span>, current: set<Span>) {
    exists ps, cs :: Normal(prior, ps) && Normal(current, cs) && AllFit(cs, ps)
  }

  /** What lies inside a span does not depend on the order of the normal form. */
  lemma SumInsideSame(ps: seq<Span>, qs: seq<Span>, c: Span)
    requires Separate(ps) && Separate(qs) && AllValid(ps) && AllValid(qs) && forall x :: x in ps <==> x in qs
    ensures SumInside(ps, c) == SumInside(qs, c)
  {
    hide Within, Apart;
    OutsideSum(ps, c);
    OutsideSum(qs, c);
    SumOfSame(ps, qs);
    OutsideSeparate(ps, c);
    OutsideSeparate(qs, c);
    forall x ensures (x in Outside(ps, c) <==> x in ps && !Within(x, c)) && (x in Outside(qs, c) <==> x in qs && !Within(x, c)) {
      OutsideIs(ps, c, x);
      OutsideIs(qs, c, x);
    }
    SumOfSame(Outside(ps, c), Outside(qs, c));
  }

  lemma FitsSame(ps: seq<Span>, qs: seq<Span>, cs: seq<Span>, ds: seq<Span>)
    requires Separate(ps) && Separate(qs) && AllValid(ps) && AllValid(qs) && forall x :: x in ps <==> x in qs
    requires forall x :: x in cs <==> x in ds
    ensures AllFit(cs, ps) <==> AllFit(ds, qs)
  {
    hide Within, Nested, Holds, Separate;
    forall c ensures Fits(c, ps) <==> Fits(c, qs) { SumInsideSame(ps, qs, c); }
  }

  /** Normal forms of the same families fit or fail together. */
  lemma DefinedIff(prior: set<Span>, current: set<Span>, ps: seq<Span>, cs: seq<Span>)
    requires Normal(prior, ps) && Normal(current, cs)
    ensures MarginalDefined(prior, current) <==> AllFit(cs, ps)
  {
    hide Outermost, AllFit, Separate;
    if MarginalDefined(prior, current) {
      var qs, ds :| Normal(prior, qs) && Normal(current, ds) && AllFit(ds, qs);
      NormalValid(prior, ps);
      NormalValid(prior, qs);
      SameMembers(prior, ps, qs);
      SameMembers(current, cs, ds);
      FitsSame(ps, qs, cs, ds);
    }
  }

  lemma SameMembers(spans: set<Span>, list: seq<Span>, other: seq<Span>)
    requires Normal(spans, list) && Normal(spans, other)
    ensures forall x :: x in list <==> x in other
  {
    hide Outermost;
    OutermostUnique(spans, Members(list), Members(other));
    assert forall x :: (x in list <==> x in Members(list)) && (x in other <==> x in Members(other));
  }

  /** `marginalSemanticSpans`: accepts exactly when the marginal is defined, and returns the new part of every current span. */
  method MarginalSemanticSpans(current: seq<Span>, prior: seq<Span>) returns (result: Spans<seq<Span>>)
    ensures result.Accepted? <==> MarginalDefined(Members(prior), Members(current))
    ensures result.Accepted? ==> IsMarginal(Members(prior), Members(current), result.value)
    ensures result.Accepted? ==> forall ps, cs :: Normal(Members(prior), ps) && Normal(Members(current), cs) ==>
      forall m :: m in result.value <==> exists c :: c in cs && NewPart(c, ps, m)
  {
    hide Outermost, Marginals, AllFit, NewPart;
    var cs := NormalizeSemanticSpans(current);
    if cs.Rejected? { return cs; }
    var ps := NormalizeSemanticSpans(prior);
    if ps.Rejected? { return ps; }
    assert Normal(Members(prior), ps.value) && Normal(Members(current), cs.value);
    NormalValid(Members(prior), ps.value);
    NormalValid(Members(current), cs.value);
    DefinedIff(Members(prior), Members(current), ps.value, cs.value);
    MarginalSum(cs.value, ps.value);
    result := MarginalLoop(cs.value, ps.value);
    forall qs, ds | Normal(Members(prior), qs) && Normal(Members(current), ds) && result.Accepted?
      ensures forall m :: m in result.value <==> exists c :: c in ds && NewPart(c, qs, m)
    {
      NewPartsSame(Members(prior), ps.value, qs);
      SameMembers(Members(current), cs.value, ds);
    }
  }

  lemma NewPartsSame(prior: set<Span>, ps: seq<Span>, qs: seq<Span>)
    requires Normal(prior, ps) && Normal(prior, qs)
    ensures forall c, m :: NewPart(c, ps, m) <==> NewPart(c, qs, m)
  {
    hide Outermost, Within, SumInside, Separate;
    NormalValid(prior, ps);
    NormalValid(prior, qs);
    SameMembers(prior, ps, qs);
    forall c ensures SumInside(ps, c) == SumInside(qs, c) { SumInsideSame(ps, qs, c); }
  }

  lemma {:induction false} MarginalsAre(cs: seq<Span>, ps: seq<Span>, m: Span)
    requires Marginals(cs, ps).Accepted? && m in Marginals(cs, ps).value
    ensures exists c :: c in cs && SameRange(m, c) && m.loc > 0
    decreases |cs|
  {
    hide CoveredLoc;
    var covered := CoveredLoc(cs[0], ps, 0);
    if cs[0].loc - covered.value > 0 && m == cs[0].(loc := cs[0].loc - covered.value) {
      assert cs[0] in cs && SameRange(m, cs[0]);
    } else {
      MarginalsAre(cs[1..], ps, m);
    }
  }

  lemma {:induction false} MarginalsSeparate(cs: seq<Span>, ps: seq<Span>)
    requires Separate(cs) && Marginals(cs, ps).Accepted?
    ensures Separate(Marginals(cs, ps).value)
    decreases |cs|
  {
    hide CoveredLoc;
    if cs != [] {
      MarginalsSeparate(cs[1..], ps);
      forall m | m in Marginals(cs[1..], ps).value ensures Apart(cs[0], m) {
        MarginalsAre(cs[1..], ps, m);
        var c :| c in cs[1..] && SameRange(m, c) && m.loc > 0;
        var i :| 0 <= i < |cs[1..]| && cs[1..][i] == c;
        assert Apart(cs[0], cs[i + 1]);
      }
      SeparateCons(cs[0].(loc := cs[0].loc - CoveredLoc(cs[0], ps, 0).value), Marginals(cs[1..], ps).value);
    }
  }

  lemma SeparateCons(s: Span, t: seq<Span>)
    requires Separate(t) && forall m :: m in t ==> Apart(s, m)
    ensures Separate([s] + t)
  {
  }

  /** Marginal spans are their own normal form. */
  lemma MarginalNormal(prior: set<Span>, current: set<Span>, marginal: seq<Span>)
    requires IsMarginal(prior, current, marginal)
    ensures Normal(Members(marginal), marginal) && HasNormal(Members(marginal))
  {
    hide HeldBy, Apart;
    var ps, cs :| Normal(prior, ps) && Normal(current, cs) && Marginals(cs, ps) == Accepted(marginal);
    NormalValid(current, cs);
    MarginalsSeparate(cs, ps);
    var all := Members(marginal);
    forall m | m in all ensures ValidSpan(m) && HeldBy(m, all) {
      MarginalsAre(cs, ps, m);
      HeldBySelf(m, all);
    }
    forall a, b | a in all && b in all && a != b ensures Apart(a, b) { SeparateAt(marginal, a, b); }
    assert Outermost(all, all);
  }

  /** Conservation in terms of the span functions: once the marginal is accepted, the union is too, and sizes add up. */
  lemma UnionConserves(prior: set<Span>, current: set<Span>, marginal: seq<Span>)
    requires IsMarginal(prior, current, marginal)
    ensures HasNormal(prior + current)
    ensures forall us, ps :: Normal(prior + current, us) && Normal(prior, ps) ==> Sum(us) == Sum(ps) + Sum(marginal)
  {
    hide Outermost, Marginals, Merged;
    var qs, cs :| Normal(prior, qs) && Normal(current, cs) && Marginals(cs, qs) == Accepted(marginal);
    Conservation(prior, current, qs, cs);
    forall us, ps | Normal(prior + current, us) && Normal(prior, ps) ensures Sum(us) == Sum(ps) + Sum(marginal) {
      NormalSum(prior, ps, qs);
    }
  }

  // ---------------------------------------------------------------- a measurement plan

  function Total(xs: seq<int>): int { if xs == [] then 0 else Total(xs[..|xs| - 1]) + xs[|xs| - 1] }

  function Flatten(groups: seq<seq<Span>>): seq<Span> {
    if groups == [] then [] else Flatten(groups[..|groups| - 1]) + groups[|groups| - 1]
  }

  /** Normalizing in steps is normalizing at once. */
  lemma NormalOfNormal(a: set<Span>, top: set<Span>, b: set<Span>, list: seq<Span>)
    requires Outermost(a, top) && Normal(top + b, list)
    ensures Normal(a + b, list)
  {
    hide HeldBy;
    forall s | s in a + b ensures ValidSpan(s) && HeldBy(s, Members(list)) {
      if s in a && s !in top + b {
        var m := Holder(a, top, s);
        var n := Holder(top + b, Members(list), m);
        HoldsThrough(s, m, n);
        HeldByThat(s, n, Members(list));
      }
    }
  }

  /** The measured sizes account for the prior union exactly. */
  ghost predicate Measured(seen: set<Span>, prior: seq<Span>, marginals: seq<int>) {
    Normal(seen, prior) && Total(marginals) == Sum(prior)
  }

  lemma MeasureOne(seen: set<Span>, prior: seq<Span>, marginals: seq<int>, task: set<Span>, trusted: seq<Span>, marginal: seq<Span>,
                   loc: int, more: seq<Span>)
    requires Measured(seen, prior, marginals) && Normal(task, trusted)
    requires IsMarginal(Members(prior), Members(trusted), marginal) && loc == Sum(marginal)
    requires Normal(Members(prior) + Members(trusted), more)
    ensures Measured(seen + task, more, marginals + [loc])
  {
    hide Outermost, IsMarginal, Sum;
    SelfNormal(seen, prior);
    UnionConserves(Members(prior), Members(trusted), marginal);
    assert (marginals + [loc])[..|marginals|] == marginals;
    NormalOfNormal(seen, Members(prior), Members(trusted), more);
    assert seen + Members(trusted) == Members(trusted) + seen;
    NormalOfNormal(task, Members(trusted), seen, more);
    assert task + seen == seen + task;
  }

  lemma SelfNormal(spans: set<Span>, list: seq<Span>)
    requires Normal(spans, list)
    ensures Normal(Members(list), list)
  {
    hide HeldBy;
    forall s | s in Members(list) ensures HeldBy(s, Members(list)) { HeldBySelf(s, Members(list)); }
  }

  /** Every task has a marginal over everything the tasks before it measured. */
  ghost predicate Measurable(tasks: seq<seq<Span>>) {
    forall k :: 0 <= k < |tasks| ==> MarginalDefined(Members(Flatten(tasks[..k])), Members(tasks[k]))
  }

  /** The first `k` sizes add up to the size of the union of the first `k` tasks. */
  ghost predicate MeasuredUpTo(tasks: seq<seq<Span>>, sizes: seq<int>, k: nat)
    requires k <= |tasks| && k <= |sizes|
  {
    exists union :: Measured(Members(Flatten(tasks[..k])), union, sizes[..k])
  }

  lemma MeasuredHere(tasks: seq<seq<Span>>, sizes: seq<int>, union: seq<Span>, k: nat)
    requires k <= |tasks| && k == |sizes| && Measured(Members(Flatten(tasks[..k])), union, sizes)
    ensures MeasuredUpTo(tasks, sizes, k)
  {
    assert sizes[..k] == sizes;
  }

  lemma LongerMeasured(tasks: seq<seq<Span>>, sizes: seq<int>, size: int, k: nat)
    requires k <= |tasks| && k <= |sizes| && MeasuredUpTo(tasks, sizes, k)
    ensures MeasuredUpTo(tasks, sizes + [size], k)
  {
    assert (sizes + [size])[..k] == sizes[..k];
  }

  /** Whether the marginal is defined can be read off the normal forms alone. */
  lemma DefinedOnNormal(seen: set<Span>, prior: seq<Span>, task: set<Span>, trusted: seq<Span>)
    requires Normal(seen, prior) && Normal(task, trusted)
    ensures MarginalDefined(seen, task) <==> MarginalDefined(Members(prior), Members(trusted))
  {
    hide Outermost, AllFit, MarginalDefined;
    SelfNormal(seen, prior);
    SelfNormal(task, trusted);
    DefinedIff(seen, task, prior, trusted);
    DefinedIff(Members(prior), Members(trusted), prior, trusted);
  }

  lemma NoNormal(prior: set<Span>, current: set<Span>)
    requires !HasNormal(current)
    ensures !MarginalDefined(prior, current)
  {
    hide Outermost;
  }

  /** `measureSemanticScaling`: the marginal size of each task of a plan, in order.  It accepts exactly the plans in which every
      task has a marginal; the sizes up to any task add up to the size of the union of everything measured so far. */
  method MeasureSemanticScaling(tasks: seq<seq<Span>>) returns (result: Spans<seq<int>>)
    ensures result.Accepted? <==> Measurable(tasks)
    ensures result.Accepted? ==> |result.value| == |tasks| && forall k :: 0 <= k <= |tasks| ==> MeasuredUpTo(tasks, result.value, k)
  {
    hide Outermost, IsMarginal, Measured, Normal, Sum, MarginalDefined, HasNormal, NewPart, Flatten, MeasuredUpTo;
    var prior: seq<Span>, marginals: seq<int> := [], [];
    NothingMeasured();
    assert tasks[..0] == [];
    MeasuredHere(tasks, marginals, prior, 0);
    for k := 0 to |tasks|
      invariant |marginals| == k && Measured(Members(Flatten(tasks[..k])), prior, marginals)
      invariant forall i :: 0 <= i < k ==> MarginalDefined(Members(Flatten(tasks[..i])), Members(tasks[i]))
      invariant forall i :: 0 <= i <= k ==> MeasuredUpTo(tasks, marginals, i)
    {
      ghost var seen := Members(Flatten(tasks[..k]));
      var trusted := NormalizeSemanticSpans(tasks[k]);
      if trusted.Rejected? {
        NoNormalTask(seen, tasks[k]);
        return Rejected(trusted.error);
      }
      NormalIf(Members(tasks[k]), trusted.value);
      MeasuredNormal(seen, prior, marginals);
      DefinedOnNormal(seen, prior, Members(tasks[k]), trusted.value);
      var marginal := MarginalSemanticSpans(trusted.value, prior);
      if marginal.Rejected? { return Rejected(marginal.error); }
      var loc := SemanticLoc(marginal.value);
      MarginalNormal(Members(prior), Members(trusted.value), marginal.value);
      UnionConserves(Members(prior), Members(trusted.value), marginal.value);
      var more := UnionSemanticSpans(prior, trusted.value);
      MeasureOne(seen, prior, marginals, Members(tasks[k]), trusted.value, marginal.value, loc.value, more.value);
      FlattenSnoc(tasks, k);
      ghost var before := marginals;
      prior, marginals := more.value, marginals + [loc.value];
      forall i | 0 <= i <= k ensures MeasuredUpTo(tasks, marginals, i) { LongerMeasured(tasks, before, loc.value, i); }
      MeasuredHere(tasks, marginals, prior, k + 1);
    }
    return Accepted(marginals);
  }

  lemma FlattenSnoc(tasks: seq<seq<Span>>, k: nat)
    requires k < |tasks|
    ensures Members(Flatten(tasks[..k + 1])) == Members(Flatten(tasks[..k])) + Members(tasks[k])
  {
    assert tasks[..k + 1][..k] == tasks[..k];
  }

  lemma MeasuredNormal(seen: set<Span>, prior: seq<Span>, marginals: seq<int>)
    requires Measured(seen, prior, marginals)
    ensures Normal(seen, prior)
  {
  }

  lemma NoNormalTask(seen: set<Span>, task: seq<Span>)
    requires !exists top :: Outermost(Members(task), top)
    ensures !MarginalDefined(seen, Members(task))
  {
    hide Outermost;
    NoNormal(seen, Members(task));
  }

  lemma NothingMeasured()
    ensures Measured(Members(Flatten([])), [], [])
  {
  }

  lemma NormalIf(spans: set<Span>, list: seq<Span>)
    requires Outermost(spans, Members(list)) && Separate(list)
    ensures Normal(spans, list)
  {
  }

  /** The union can exist without the marginal: a prior span larger than the current span around it. */
  lemma UnionWithoutMarginal()
    ensures var inner := Span("f", 2, 4, 10); var outer := Span("f", 0, 10, 5);
      HasNormal({inner} + {outer}) && !MarginalDefined({inner}, {outer})
  {
    hide MarginalDefined;
    var inner, outer := Span("f", 2, 4, 10), Span("f", 0, 10, 5);
    assert HeldBy(inner, {outer}) && HeldBy(outer, {outer}) by { assert Holds(inner, outer) && Holds(outer, outer); }
    assert Outermost({inner} + {outer}, {outer});
    AloneNormal(inner);
    AloneNormal(outer);
    DefinedIff({inner}, {outer}, [inner], [outer]);
    assert outer in [outer] && !Fits(outer, [inner]) by {
      assert SumInside([inner], outer) == 10 by { assert [inner][1..] == []; }
    }
  }

  lemma AloneNormal(s: Span)
    requires ValidSpan(s)
    ensures Normal({s}, [s])
  {
    assert Members([s]) == {s};
    HeldBySelf(s, {s});
  }
}
