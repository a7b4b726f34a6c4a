/** Order statistics over real samples: numpy's `median` (defined through
    sorting), `max`, and the absolute deviations used for the MAD. */
module Stats {

  predicate Sorted(s: seq<real>)
  {
    forall j, k :: 0 <= j < k < |s| ==> s[j] <= s[k]
  }

  /** `v` inserted before the first element of `s` not smaller than it. */
  function Insert(v: real, s: seq<real>): (r: seq<real>)
    ensures |r| == |s| + 1
  {
    if s == [] || v <= s[0] then [v] + s
    else [s[0]] + Insert(v, s[1..])
  }

  /** Insertion sort. */
  function Sort(s: seq<real>): (r: seq<real>)
    ensures |r| == |s|
  {
    if s == [] then [] else Insert(s[0], Sort(s[1..]))
  }

  /** Inserting adds exactly `v` ... */
  lemma {:induction false} InsertElements(v: real, s: seq<real>)
    ensures multiset(Insert(v, s)) == multiset(s) + multiset{v}
    ensures forall k :: 0 <= k < |s| + 1 ==> Insert(v, s)[k] == v || Insert(v, s)[k] in s
  {
    if s != [] && v > s[0] {
      InsertElements(v, s[1..]);
      assert s == [s[0]] + s[1..];
    }
  }

  /** ... and keeps an ordered sequence ordered. */
  lemma {:induction false} InsertSorted(v: real, s: seq<real>)
    requires Sorted(s)
    ensures Sorted(Insert(v, s))
  {
    if s != [] && v > s[0] {
      var rest := Insert(v, s[1..]);
      InsertSorted(v, s[1..]);
      InsertElements(v, s[1..]);
      assert forall k :: 0 <= k < |rest| ==> s[0] <= rest[k];
      assert Insert(v, s) == [s[0]] + rest;
    }
  }

  /** The sort is an ordered permutation of its input. */
  lemma {:induction false} SortSpec(s: seq<real>)
    ensures Sorted(Sort(s))
    ensures multiset(Sort(s)) == multiset(s)
  {
    if s != [] {
      SortSpec(s[1..]);
      InsertSorted(s[0], Sort(s[1..]));
      InsertElements(s[0], Sort(s[1..]));
      assert s == [s[0]] + s[1..];
    }
  }

  /** The first element of an ordered arrangement is the least sample. */
  lemma SortedHeadLeast(a: seq<real>, v: real)
    requires Sorted(a) && v in multiset(a)
    ensures a[0] <= v
  {
    var k :| 0 <= k < |a| && a[k] == v;
  }

  /** Two ordered arrangements of the same samples are the same sequence. */
  lemma {:induction false} SortedUnique(a: seq<real>, b: seq<real>)
    requires Sorted(a) && Sorted(b) && multiset(a) == multiset(b)
    ensures a == b
    decreases |a|
  {
    assert |a| == |multiset(a)| == |multiset(b)| == |b|;
    if |a| > 0 {
      SortedHeadLeast(a, b[0]);
      SortedHeadLeast(b, a[0]);
      assert a[0] == b[0];
      assert a == [a[0]] + a[1..];
      assert b == [b[0]] + b[1..];
      assert multiset(a) == multiset{a[0]} + multiset(a[1..]);
      assert multiset(b) == multiset{a[0]} + multiset(b[1..]);
      assert multiset(a[1..]) == multiset(a) - multiset{a[0]};
      assert multiset(b[1..]) == multiset(b) - multiset{a[0]};
      SortedUnique(a[1..], b[1..]);
    }
  }

  lemma SortedArrangementUnique(s: seq<real>)
    ensures forall a, b :: Sorted(a) && multiset(a) == multiset(s) && Sorted(b) && multiset(b) == multiset(s) ==> a == b
  {
    forall a, b | Sorted(a) && multiset(a) == multiset(s) && Sorted(b) && multiset(b) == multiset(s)
      ensures a == b
    {
      SortedUnique(a, b);
    }
  }

  /** The middle element of an ordered sequence, or the mean of the two
      middle elements when their number is even. */
  function Middle(t: seq<real>): real
    requires |t| > 0
  {
    var n := |t|;
    if n % 2 == 1 then t[n / 2] else (t[n / 2 - 1] + t[n / 2]) / 2.0
  }

  /** `np.median`: the middle of the samples arranged in order. */
  function Median(s: seq<real>): real
    requires |s| > 0
  {
    SortSpec(s);
    SortedArrangementUnique(s);
    var t :| Sorted(t) && multiset(t) == multiset(s);
    assert |t| == |multiset(t)| == |s|;
    Middle(t)
  }

  /** The median is the middle of the insertion sort's output. */
  lemma MedianBySort(s: seq<real>)
    requires |s| > 0
    ensures Median(s) == Middle(Sort(s))
  {
    SortSpec(s);
    SortedArrangementUnique(s);
  }

  /** Every element of the sorted samples is one of the samples. */
  lemma SortedElementIsSample(s: seq<real>, k: nat)
    requires k < |s|
    ensures exists j :: 0 <= j < |s| && s[j] == Sort(s)[k]
  {
    var t := Sort(s);
    SortSpec(s);
    assert t[k] in multiset(t);
    assert t[k] in multiset(s);
  }

  /** The median is no smaller than a lower bound of all samples. */
  lemma MedianAtLeast(s: seq<real>, lo: real)
    requires |s| > 0
    requires forall j :: 0 <= j < |s| ==> lo <= s[j]
    ensures lo <= Median(s)
  {
    var n := |s|;
    MedianBySort(s);
    SortedElementIsSample(s, n / 2);
    if n % 2 == 0 {
      SortedElementIsSample(s, n / 2 - 1);
    }
  }

  /** The median is no greater than an upper bound of all samples. */
  lemma MedianAtMost(s: seq<real>, hi: real)
    requires |s| > 0
    requires forall j :: 0 <= j < |s| ==> s[j] <= hi
    ensures Median(s) <= hi
  {
    var n := |s|;
    MedianBySort(s);
    SortedElementIsSample(s, n / 2);
    if n % 2 == 0 {
      SortedElementIsSample(s, n / 2 - 1);
    }
  }

  /** The median of a constant sequence is that constant. */
  lemma MedianOfConstant(s: seq<real>, c: real)
    requires |s| > 0
    requires forall j :: 0 <= j < |s| ==> s[j] == c
    ensures Median(s) == c
  {
    MedianAtLeast(s, c);
    MedianAtMost(s, c);
  }

  /** `np.abs(s - c)`. */
  function AbsDev(s: seq<real>, c: real): (r: seq<real>)
    ensures |r| == |s|
    ensures forall j :: 0 <= j < |s| ==> r[j] >= 0.0 && (r[j] == s[j] - c || r[j] == c - s[j])
  {
    seq(|s|, j requires 0 <= j < |s| => if s[j] >= c then s[j] - c else c - s[j])
  }

  /** `np.max`: the largest sample, which is one of the samples. */
  function MaxOf(s: seq<real>): (r: real)
    requires |s| > 0
    ensures forall j :: 0 <= j < |s| ==> s[j] <= r
    ensures exists j :: 0 <= j < |s| && s[j] == r
  {
    if |s| == 1 then s[0]
    else
      var m := MaxOf(s[1..]);
      assert forall j :: 1 <= j < |s| ==> s[j] == s[1..][j - 1];
      if s[0] >= m then s[0] else m
  }
}
