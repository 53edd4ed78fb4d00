/** The two array queries the pages build on: `Array.prototype.find` (the
    first element that satisfies a test) and `Array.prototype.filter` (the
    elements that satisfy it, in order). */
module Lists {
  import opened Wrappers

  /** `xs.find(p)`: the first element satisfying p, none when there is none. */
  function Find<T>(xs: seq<T>, p: T -> bool): (r: Option<T>)
    ensures r.None? <==> forall k :: 0 <= k < |xs| ==> !p(xs[k])
    ensures r.Some? ==> p(r.value) && r.value in xs
  {
    if xs == [] then None
    else if p(xs[0]) then Some(xs[0])
    else
      assert forall k :: 1 <= k < |xs| ==> xs[k] == xs[1..][k - 1];
      Find(xs[1..], p)
  }

  /** The element found is the first that satisfies p. */
  lemma {:induction false} FindIsFirst<T>(xs: seq<T>, p: T -> bool, k: int)
    requires 0 <= k < |xs| && p(xs[k])
    requires forall j :: 0 <= j < k ==> !p(xs[j])
    ensures Find(xs, p) == Some(xs[k])
  {
    if k > 0 {
      assert !p(xs[0]);
      assert forall j :: 0 <= j < k - 1 ==> xs[1..][j] == xs[j + 1];
      FindIsFirst(xs[1..], p, k - 1);
    }
  }

  /** `xs.filter(p)`. */
  function Filter<T>(xs: seq<T>, p: T -> bool): (r: seq<T>)
    ensures |r| <= |xs|
    ensures forall k :: 0 <= k < |r| ==> p(r[k])
  {
    if xs == [] then []
    else
      var n := |xs| - 1;
      Filter(xs[..n], p) + (if p(xs[n]) then [xs[n]] else [])
  }

  /** Each value occurs in the result as often as in xs when it satisfies p,
      and not at all otherwise. */
  lemma {:induction false} FilterCounts<T>(xs: seq<T>, p: T -> bool, x: T)
    ensures multiset(Filter(xs, p))[x] == if p(x) then multiset(xs)[x] else 0
  {
    if xs != [] {
      var n := |xs| - 1;
      assert xs == xs[..n] + [xs[n]];
      FilterCounts(xs[..n], p, x);
    }
  }

  /** A test every element passes keeps the whole sequence. */
  lemma {:induction false} FilterAll<T>(xs: seq<T>, p: T -> bool)
    requires forall k :: 0 <= k < |xs| ==> p(xs[k])
    ensures Filter(xs, p) == xs
  {
    if xs != [] {
      var n := |xs| - 1;
      assert xs == xs[..n] + [xs[n]];
      FilterAll(xs[..n], p);
    }
  }

  /** Two tests that agree on every element filter alike. */
  lemma {:induction false} FilterSame<T>(xs: seq<T>, p: T -> bool, q: T -> bool)
    requires forall k :: 0 <= k < |xs| ==> p(xs[k]) == q(xs[k])
    ensures Filter(xs, p) == Filter(xs, q)
  {
    if xs != [] {
      FilterSame(xs[..|xs| - 1], p, q);
    }
  }

  /** The positions of xs that the filter keeps, in increasing order. */
  function FilterIndices<T>(xs: seq<T>, p: T -> bool): (idx: seq<int>)
    ensures forall k :: 0 <= k < |idx| ==> 0 <= idx[k] < |xs|
  {
    if xs == [] then []
    else
      var n := |xs| - 1;
      FilterIndices(xs[..n], p) + (if p(xs[n]) then [n] else [])
  }

  /** The kept positions increase, and a position is kept exactly when its
      element satisfies p. */
  lemma {:induction false} FilterIndicesExact<T>(xs: seq<T>, p: T -> bool)
    ensures var idx := FilterIndices(xs, p);
      && (forall k, l :: 0 <= k < l < |idx| ==> idx[k] < idx[l])
      && (forall i :: 0 <= i < |xs| ==> (i in idx <==> p(xs[i])))
  {
    if xs != [] {
      var n := |xs| - 1;
      var pre := xs[..n];
      FilterIndicesExact(pre, p);
      var ip := FilterIndices(pre, p);
      assert forall i :: 0 <= i < n ==> pre[i] == xs[i];
      assert forall k :: 0 <= k < |ip| ==> ip[k] < n;
    }
  }

  /** The filter keeps the elements that satisfy p in their original order:
      the k-th result is the element at the k-th kept position. */
  lemma {:induction false} FilterKeepsOrder<T>(xs: seq<T>, p: T -> bool)
    ensures var r, idx := Filter(xs, p), FilterIndices(xs, p);
      |idx| == |r| && forall k :: 0 <= k < |r| ==> r[k] == xs[idx[k]]
  {
    if xs != [] {
      var n := |xs| - 1;
      var pre := xs[..n];
      FilterKeepsOrder(pre, p);
      var ip := FilterIndices(pre, p);
      assert forall k :: 0 <= k < |ip| ==> xs[ip[k]] == pre[ip[k]];
    }
  }

  /** `xs[::-1]`. */
  function Reverse<T>(xs: seq<T>): (r: seq<T>)
    ensures |r| == |xs|
    ensures forall k :: 0 <= k < |xs| ==> r[k] == xs[|xs| - 1 - k]
  {
    if xs == [] then [] else [xs[|xs| - 1]] + Reverse(xs[..|xs| - 1])
  }
}
