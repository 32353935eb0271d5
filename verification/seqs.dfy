/** Sequence helpers shared by the model: reversal, order-preserving selection and subsequences. */
module Seqs {
  import opened Wrappers

  /** `iter().rev()` */
  function Reverse<T>(s: seq<T>): (r: seq<T>)
    ensures |r| == |s|
    ensures forall i :: 0 <= i < |s| ==> r[i] == s[|s| - 1 - i]
  {
    if |s| == 0 then [] else Reverse(s[1..]) + [s[0]]
  }

  /** `into_iter().filter(p).collect()`: the elements satisfying `p`, in their original order. */
  function Select<T>(s: seq<T>, p: T -> bool): (r: seq<T>)
    ensures |r| <= |s|
    ensures forall i :: 0 <= i < |r| ==> r[i] in s && p(r[i])
    ensures forall i :: 0 <= i < |s| && p(s[i]) ==> s[i] in r
  {
    if |s| == 0 then []
    else if p(s[0]) then [s[0]] + Select(s[1..], p)
    else Select(s[1..], p)
  }

  /** `sub` is obtained from `s` by deleting elements: relative order is preserved. */
  ghost predicate IsSubsequence<T>(sub: seq<T>, s: seq<T>)
    decreases |s|
  {
    if |sub| == 0 then true
    else if |s| == 0 then false
    else if sub[0] == s[0] then IsSubsequence(sub[1..], s[1..])
    else IsSubsequence(sub, s[1..])
  }

  lemma {:induction false} SelectIsSubsequence<T>(s: seq<T>, p: T -> bool)
    ensures IsSubsequence(Select(s, p), s)
  {
    if |s| > 0 {
      SelectIsSubsequence(s[1..], p);
      if p(s[0]) {
        assert ([s[0]] + Select(s[1..], p))[1..] == Select(s[1..], p);
      }
    }
  }

  /** Selecting from a concatenation is concatenating the selections: chunked filtering merges back in order. */
  lemma {:induction false} SelectAppend<T>(a: seq<T>, b: seq<T>, p: T -> bool)
    ensures Select(a + b, p) == Select(a, p) + Select(b, p)
  {
    if |a| > 0 {
      assert (a + b)[1..] == a[1..] + b;
      SelectAppend(a[1..], b, p);
    } else {
      assert a + b == b;
    }
  }

  /**
   * Selection keeps every occurrence of an accepted value and none of a
   * rejected one; with `SelectIsSubsequence` this pins the result down.
   */
  lemma {:induction false} SelectCounts<T>(s: seq<T>, p: T -> bool)
    ensures forall x :: multiset(Select(s, p))[x] == if p(x) then multiset(s)[x] else 0
  {
    if |s| > 0 {
      SelectCounts(s[1..], p);
      assert s == [s[0]] + s[1..];
      assert multiset(s) == multiset{s[0]} + multiset(s[1..]);
    }
  }

  /** `into_iter().filter_map(f).collect()`: the values `f` yields, in order. */
  function FilterMap<T, U>(s: seq<T>, f: T -> Option<U>): (r: seq<U>)
    ensures |r| <= |s|
    ensures forall i :: 0 <= i < |r| ==> exists j :: 0 <= j < |s| && f(s[j]) == Some(r[i])
  {
    if |s| == 0 then []
    else
      var rest := FilterMap(s[1..], f);
      assert forall j :: 1 <= j < |s| ==> s[j] == s[1..][j - 1];
      match f(s[0])
      case Some(y) => [y] + rest
      case None => rest
  }

  /**
   * `filter_map` is `filter` by the elements `f` accepts followed by `f`:
   * the i-th output is the image of the i-th accepted element.
   */
  lemma {:induction false} FilterMapOfSelect<T, U>(s: seq<T>, f: T -> Option<U>, p: T -> bool)
    requires forall x :: p(x) <==> f(x).Some?
    ensures |FilterMap(s, f)| == |Select(s, p)|
    ensures forall i :: 0 <= i < |Select(s, p)| ==> f(Select(s, p)[i]) == Some(FilterMap(s, f)[i])
  {
    if |s| > 0 {
      FilterMapOfSelect(s[1..], f, p);
      if p(s[0]) {
        assert Select(s, p) == [s[0]] + Select(s[1..], p);
        assert FilterMap(s, f) == [f(s[0]).value] + FilterMap(s[1..], f);
        ConsAligned(f, s[0], f(s[0]).value, Select(s[1..], p), FilterMap(s[1..], f));
      } else {
        assert Select(s, p) == Select(s[1..], p);
        assert FilterMap(s, f) == FilterMap(s[1..], f);
      }
    }
  }

  /** Two sequences related pointwise by `f` stay so when an element and its image are put in front. */
  lemma ConsAligned<T, U>(f: T -> Option<U>, x: T, y: U, xs: seq<T>, ys: seq<U>)
    requires f(x) == Some(y) && |xs| == |ys|
    requires forall i :: 0 <= i < |xs| ==> f(xs[i]) == Some(ys[i])
    ensures forall i :: 0 <= i < |xs| + 1 ==> f(([x] + xs)[i]) == Some(([y] + ys)[i])
  {
    forall i | 0 <= i < |xs| + 1 ensures f(([x] + xs)[i]) == Some(([y] + ys)[i]) {
      if i > 0 {
        assert ([x] + xs)[i] == xs[i - 1] && ([y] + ys)[i] == ys[i - 1];
      }
    }
  }

  /** `filter_map` over a concatenation is the concatenation of the two results. */
  lemma {:induction false} FilterMapAppend<T, U>(a: seq<T>, b: seq<T>, f: T -> Option<U>)
    ensures FilterMap(a + b, f) == FilterMap(a, f) + FilterMap(b, f)
  {
    if |a| == 0 {
      assert a + b == b;
    } else {
      assert (a + b)[1..] == a[1..] + b;
      assert (a + b)[0] == a[0];
      FilterMapAppend(a[1..], b, f);
    }
  }

  function Min(a: nat, b: nat): nat { if a <= b then a else b }

  /**
   * `xs[from.min(len)..to.min(len)]`: the window of `xs` between two bounds
   * that may lie past its end. Rust panics when the clamped start exceeds
   * the clamped end, hence the requirement.
   */
  function Window<T>(xs: seq<T>, from: nat, to: nat): (r: seq<T>)
    requires Min(from, |xs|) <= Min(to, |xs|)
    ensures |r| == Min(to, |xs|) - Min(from, |xs|)
    ensures forall k :: 0 <= k < |r| ==> r[k] == xs[from + k]
    ensures from <= to ==> |r| <= to - from
    ensures from <= to && to <= |xs| ==> |r| == to - from
  {
    xs[Min(from, |xs|)..Min(to, |xs|)]
  }
}
