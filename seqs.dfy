/** Sequence helpers with Python/numpy meaning: slicing with negative and
    out-of-range bounds, `np.where` on a boolean vector, and counting. */
module Seqs {
  import opened Wrappers

  /** The start or stop of a Python slice `s[a:b]`, normalised against the
      length `n`: a negative bound counts from the end, and the result is
      clamped into `0..n`. */
  function SliceBound(n: nat, a: int): (r: nat)
    ensures r <= n
    ensures 0 <= a <= n ==> r == a
    ensures a < 0 ==> r == (if a + n < 0 then 0 else a + n)
  {
    if a < 0 then (if a + n < 0 then 0 else a + n)
    else if a > n then n
    else a
  }

  /** Python's `s[a:b]`. */
  function PySlice<T>(s: seq<T>, a: int, b: int): (r: seq<T>)
    ensures |r| <= |s|
    ensures 0 <= a <= b <= |s| ==> r == s[a..b]
  {
    var lo, hi := SliceBound(|s|, a), SliceBound(|s|, b);
    if lo < hi then s[lo..hi] else []
  }

  predicate StrictlyIncreasing(s: seq<nat>)
  {
    forall j, k :: 0 <= j < k < |s| ==> s[j] < s[k]
  }

  /** `np.where(c)[0]`: the indices at which `c` holds, in increasing order. */
  function Where(c: seq<bool>): (r: seq<nat>)
    ensures StrictlyIncreasing(r)
    ensures forall k :: 0 <= k < |r| ==> r[k] < |c| && c[r[k]]
    ensures forall j :: 0 <= j < |c| && c[j] ==> j in r
    decreases |c|
  {
    if c == [] then []
    else
      var init := c[..|c| - 1];
      var front := Where(init);
      assert forall j :: 0 <= j < |init| ==> init[j] == c[j];
      if c[|c| - 1] then front + [|c| - 1] else front
  }

  /** The first index `Where` reports is the least index at which `c` holds. */
  lemma WhereFirst(c: seq<bool>)
    requires |Where(c)| > 0
    ensures forall j :: 0 <= j < Where(c)[0] ==> !c[j]
  {
  }

  /** The last index `Where` reports is the greatest index at which `c` holds. */
  lemma WhereLast(c: seq<bool>)
    requires |Where(c)| > 0
    ensures forall j :: Where(c)[|Where(c)| - 1] < j < |c| ==> !c[j]
  {
  }

  /** `np.where(c)[0][0]`, absent when `c` holds nowhere: the least index
      at which `c` holds. */
  function FirstTrue(c: seq<bool>): (r: Option<nat>)
    ensures r.Some? ==> r.value < |c| && c[r.value] && forall j :: 0 <= j < r.value ==> !c[j]
    ensures r.None? <==> forall j :: 0 <= j < |c| ==> !c[j]
  {
    var w := Where(c);
    if |w| > 0 then
      WhereFirst(c);
      Some(w[0])
    else None
  }

  /** `np.where(c)[0][-1]`, absent when `c` holds nowhere: the greatest
      index at which `c` holds. */
  function LastTrue(c: seq<bool>): (r: Option<nat>)
    ensures r.Some? ==> r.value < |c| && c[r.value] && forall j :: r.value < j < |c| ==> !c[j]
    ensures r.None? <==> forall j :: 0 <= j < |c| ==> !c[j]
  {
    var w := Where(c);
    if |w| > 0 then
      WhereLast(c);
      Some(w[|w| - 1])
    else None
  }

  /** `np.sum(s == v)`. */
  function Count(s: seq<int>, v: int): (r: nat)
    ensures r <= |s|
    ensures r == 0 <==> v !in s
  {
    if s == [] then 0 else (if s[0] == v then 1 else 0) + Count(s[1..], v)
  }

  /** `np.sum(s <= v)`. */
  function CountAtMost(s: seq<real>, v: real): (r: nat)
    ensures r <= |s|
  {
    if s == [] then 0 else (if s[0] <= v then 1 else 0) + CountAtMost(s[1..], v)
  }

  /** `np.sum(s >= v)`. */
  function CountAtLeast(s: seq<real>, v: real): (r: nat)
    ensures r <= |s|
  {
    if s == [] then 0 else (if s[0] >= v then 1 else 0) + CountAtLeast(s[1..], v)
  }

  /** A sequence of `n` copies of `v` (`np.zeros`, `np.ones`). */
  function Constant<T>(n: nat, v: T): (r: seq<T>)
    ensures |r| == n && forall j :: 0 <= j < n ==> r[j] == v
  {
    seq(n, _ => v)
  }
}
