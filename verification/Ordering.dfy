/** One total order on ids, standing for `localeCompare` and for the default sort. */
module Ordering {

  predicate Before(a: string, b: string) {
    if b == "" then false
    else if a == "" then true
    else a[0] < b[0] || (a[0] == b[0] && Before(a[1..], b[1..]))
  }

  lemma {:induction false} BeforeTotal(a: string, b: string)
    ensures a == b || Before(a, b) || Before(b, a)
    ensures !(Before(a, b) && Before(b, a)) && !Before(a, a)
    decreases |a|
  {
    if a != "" && b != "" {
      BeforeTotal(a[1..], b[1..]);
      BeforeTotal(a[1..], a[1..]);
      assert a == [a[0]] + a[1..] && b == [b[0]] + b[1..];
    } else if a != "" {
      BeforeTotal(a[1..], a[1..]);
    }
  }

  lemma {:induction false} BeforeTransitive(a: string, b: string, c: string)
    requires Before(a, b) && Before(b, c)
    ensures Before(a, c)
    decreases |a|
  {
    if a != "" && a[0] == b[0] && b[0] == c[0] { BeforeTransitive(a[1..], b[1..], c[1..]); }
  }

  /** A proper prefix comes first; otherwise the first character that differs decides. */
  lemma {:induction false} BeforeIff(a: string, b: string)
    ensures Before(a, b) <==> a < b || exists k :: 0 <= k < |a| && k < |b| && a[..k] == b[..k] && a[k] < b[k]
    decreases |a|
  {
    if a != "" && b != "" {
      BeforeIff(a[1..], b[1..]);
      if a[0] == b[0] {
        assert a == [a[0]] + a[1..] && b == [b[0]] + b[1..];
        if k :| 0 <= k < |a[1..]| && k < |b[1..]| && a[1..][..k] == b[1..][..k] && a[1..][k] < b[1..][k] {
          assert a[..k + 1] == [a[0]] + a[1..][..k] && b[..k + 1] == [b[0]] + b[1..][..k];
        }
        if k :| 0 <= k < |a| && k < |b| && a[..k] == b[..k] && a[k] < b[k] {
          assert k > 0 && a[1..][..k - 1] == a[..k][1..] && b[1..][..k - 1] == b[..k][1..];
          assert a[1..][k - 1] < b[1..][k - 1];
        }
      } else {
        assert a[..0] == b[..0];
        if k :| 0 <= k < |a| && k < |b| && a[..k] == b[..k] && a[k] < b[k] { assert k > 0 ==> a[..k][0] == b[..k][0]; }
      }
    }
  }

  /** Listed smallest first, without repeats. */
  ghost predicate Increasing(s: seq<string>) {
    forall i, j :: 0 <= i < j < |s| ==> Before(s[i], s[j])
  }

  lemma IncreasingSnoc(s: seq<string>, x: string)
    requires Increasing(s) && forall y :: y in s ==> Before(y, x)
    ensures Increasing(s + [x])
  {
  }

  /** The smallest element of a set. */
  method Least(ids: set<string>) returns (least: string)
    requires ids != {}
    ensures least in ids && forall x :: x in ids && x != least ==> Before(least, x)
  {
    least :| least in ids;
    var left := ids - {least};
    while left != {}
      invariant left <= ids && least in ids && least !in left
      invariant forall x :: x in ids && x !in left && x != least ==> Before(least, x)
      decreases left
    {
      var x :| x in left;
      BeforeTotal(least, x);
      if Before(x, least) {
        forall y | y in ids && y !in left && y != least ensures Before(x, y) { BeforeTransitive(x, least, y); }
        least := x;
      }
      left := left - {x};
    }
  }

  /** The elements of a set, sorted. */
  method Sorted(ids: set<string>) returns (s: seq<string>)
    ensures Increasing(s) && forall x :: x in s <==> x in ids
  {
    s := [];
    var left := ids;
    while left != {}
      invariant left <= ids && Increasing(s)
      invariant forall x :: x in s <==> x in ids && x !in left
      invariant forall x, y :: x in s && y in left ==> Before(x, y)
      decreases left
    {
      var x := Least(left);
      IncreasingSnoc(s, x);
      s := s + [x];
      left := left - {x};
    }
  }

  lemma IncreasingDistinct(s: seq<string>, i: nat, j: nat)
    requires Increasing(s) && i < |s| && j < |s| && s[i] == s[j]
    ensures i == j
  {
    BeforeTotal(s[i], s[j]);
  }
}
