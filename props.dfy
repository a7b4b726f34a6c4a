/** Properties of the adaptive event detector of module Detection: the
    bounds the rolling estimates keep, the quiet answer on a constant trace,
    the inert run merge for short runs, the refinement's blind first samples
    and closure, and the exact rule the gap-filling sweep obeys. */
module DetectionProps {
  import opened Seqs
  import opened Stats
  import opened Detection

  // ---------------------------------------------------------------------
  // The scan's rolling estimates

  predicate Within(s: seq<real>, lo: real, hi: real)
  {
    forall k :: 0 <= k < |s| ==> lo <= s[k] <= hi
  }

  /** The buffer and baseline stay inside the range of the samples, and the
      spread is never negative. */
  predicate Bounded(st: ScanState, lo: real, hi: real)
  {
    |st.buf| > 0 && Within(st.buf, lo, hi) && lo <= st.baseline <= hi && st.sd >= 0.0
  }

  /** The value pushed onto the buffer is the sample itself or a weighted
      mean of the sample and the last buffer entry. */
  lemma PushedWithin(xi: real, c: int, influence: real, last: real, lo: real, hi: real)
    requires lo <= xi <= hi && lo <= last <= hi && 0.0 <= influence <= 1.0
    ensures lo <= Pushed(xi, c, influence, last) <= hi
  {
    if c != 0 {
      var v := influence * xi + (1.0 - influence) * last;
      assert v - lo == influence * (xi - lo) + (1.0 - influence) * (last - lo);
      assert hi - v == influence * (hi - xi) + (1.0 - influence) * (hi - last);
      assert influence * (xi - lo) >= 0.0 && (1.0 - influence) * (last - lo) >= 0.0;
      assert influence * (hi - xi) >= 0.0 && (1.0 - influence) * (hi - last) >= 0.0;
    }
  }

  /** Median and MAD of a buffer inside `lo..hi`. */
  lemma EstimatesWithin(buf: seq<real>, lo: real, hi: real)
    requires |buf| > 0 && Within(buf, lo, hi)
    ensures lo <= Median(buf) <= hi
    ensures Median(AbsDev(buf, Median(buf))) >= 0.0
  {
    MedianAtLeast(buf, lo);
    MedianAtMost(buf, hi);
    MedianAtLeast(AbsDev(buf, Median(buf)), 0.0);
  }

  lemma StepBounded(x: seq<real>, p: Params, st: ScanState, i: nat, lo: real, hi: real)
    requires WellFormed(x, p, st) && p.w <= i < |x|
    requires Within(x, lo, hi) && 0.0 <= p.influence <= 1.0
    requires Bounded(st, lo, hi)
    ensures Bounded(Step(x, p, st, i), lo, hi)
  {
    var c := Classify(x[i] - st.baseline, p.kUp, p.kDown, st.sd, st.mask[i - 1]);
    var v := Pushed(x[i], c, p.influence, st.buf[|st.buf| - 1]);
    PushedWithin(x[i], c, p.influence, st.buf[|st.buf| - 1], lo, hi);
    var grown := st.buf + [v];
    var buf := grown[|grown| - p.w..];
    assert Within(buf, lo, hi) by {
      forall k | 0 <= k < |buf| ensures lo <= buf[k] <= hi {
        assert buf[k] == grown[k + 1];
      }
    }
    EstimatesWithin(buf, lo, hi);
    assert Step(x, p, st, i).buf == buf;
  }

  lemma InitialBounded(x: seq<real>, p: Params, lo: real, hi: real)
    requires 1 <= p.w <= |x| && Within(x, lo, hi)
    ensures Bounded(InitialState(x, p), lo, hi)
  {
    var buf := x[..p.w];
    assert Within(buf, lo, hi);
    EstimatesWithin(buf, lo, hi);
  }

  /** For samples inside `lo..hi` and an influence between 0 and 1, the
      rolling buffer and the baseline stay inside `lo..hi` at every step, and
      the spread is never negative. */
  lemma {:induction false} ScanBounded(x: seq<real>, p: Params, i: nat, lo: real, hi: real)
    requires 1 <= p.w <= i <= |x|
    requires Within(x, lo, hi) && 0.0 <= p.influence <= 1.0
    ensures Bounded(ScanTo(x, p, i), lo, hi)
    decreases i
  {
    hide *;
    if i == p.w {
      ScanToFirst(x, p);
      InitialBounded(x, p, lo, hi);
    } else {
      ScanBounded(x, p, i - 1, lo, hi);
      ScanToNext(x, p, i - 1);
      StepBounded(x, p, ScanTo(x, p, i - 1), i - 1, lo, hi);
    }
  }

  // ---------------------------------------------------------------------
  // A constant trace

  predicate Zeros(m: seq<int>)
  {
    forall j :: 0 <= j < |m| ==> m[j] == 0
  }

  /** The scan state on a constant trace `c`: no labels, a buffer of `c`,
      baseline `c` and spread 0. */
  predicate Quiet(st: ScanState, c: real)
  {
    Zeros(st.mask) && |st.buf| > 0 && (forall k :: 0 <= k < |st.buf| ==> st.buf[k] == c)
    && st.baseline == c && st.sd == 0.0
  }

  lemma ConstantEstimates(buf: seq<real>, c: real)
    requires |buf| > 0 && forall k :: 0 <= k < |buf| ==> buf[k] == c
    ensures Median(buf) == c && Median(AbsDev(buf, c)) == 0.0
  {
    MedianOfConstant(buf, c);
    MedianOfConstant(AbsDev(buf, c), 0.0);
  }

  lemma StepQuiet(x: seq<real>, p: Params, st: ScanState, i: nat, c: real)
    requires WellFormed(x, p, st) && p.w <= i < |x|
    requires forall k :: 0 <= k < |x| ==> x[k] == c
    requires Quiet(st, c)
    ensures Quiet(Step(x, p, st, i), c)
  {
    var tag := Classify(x[i] - st.baseline, p.kUp, p.kDown, st.sd, st.mask[i - 1]);
    assert tag == 0;
    var grown := st.buf + [Pushed(x[i], tag, p.influence, st.buf[|st.buf| - 1])];
    var buf := grown[|grown| - p.w..];
    assert forall k :: 0 <= k < |buf| ==> buf[k] == grown[k + 1];
    ConstantEstimates(buf, c);
    var labelled := st.mask[i := tag];
    var merged := MergeRun(labelled, i, p);
    assert Zeros(labelled);
    assert Zeros(merged);
  }

  lemma InitialQuiet(x: seq<real>, p: Params, c: real)
    requires 1 <= p.w <= |x|
    requires forall k :: 0 <= k < |x| ==> x[k] == c
    ensures Quiet(InitialState(x, p), c)
  {
    ConstantEstimates(x[..p.w], c);
  }

  /** On a constant trace the scan labels nothing. */
  lemma {:induction false} ScanQuiet(x: seq<real>, p: Params, i: nat, c: real)
    requires 1 <= p.w <= i <= |x|
    requires forall k :: 0 <= k < |x| ==> x[k] == c
    ensures Quiet(ScanTo(x, p, i), c)
    decreases i
  {
    hide *;
    if i == p.w {
      ScanToFirst(x, p);
      InitialQuiet(x, p, c);
    } else {
      ScanQuiet(x, p, i - 1, c);
      ScanToNext(x, p, i - 1);
      StepQuiet(x, p, ScanTo(x, p, i - 1), i - 1, c);
    }
  }

  /** No labels, no refinement. */
  lemma RefineZeros(x: seq<real>, m: seq<int>)
    requires |m| == |x| && Zeros(m)
    ensures RefineFix(x, m) == m
  {
    assert RefinePass(x, m) == m;
  }

  /** No labels, nothing to fill. */
  lemma {:induction false} FillZeros(m: seq<int>, pre: nat, post: nat, i: nat)
    requires pre <= i && Zeros(m)
    ensures FillFrom(m, pre, post, i) == m
    decreases |m| - i
  {
    if i + post + 1 < |m| {
      assert 1 !in m[i - pre..i] && -1 !in m[i - pre..i];
      assert m[i := FillRule(m[i], m[i - pre..i], m[i + 1..i + 1 + post])] == m;
      FillZeros(m, pre, post, i + 1);
    }
  }

  /** A constant trace is labelled 0 everywhere by the detector ... */
  lemma DetectQuiet(x: seq<real>, p: Params, c: real)
    requires 1 <= p.w <= |x|
    requires forall k :: 0 <= k < |x| ==> x[k] == c
    ensures Zeros(DetectMask(x, p))
  {
    ScanQuiet(x, p, |x|, c);
    var m := ScanMask(x, p);
    RefineZeros(x, m);
    FillZeros(m, p.pre, p.post, p.pre);
  }

  /** ... and so by `robust_event_detection`, whatever its length. */
  lemma RobustQuiet(x: seq<real>, p: Params, c: real)
    requires p.w >= 1
    requires forall k :: 0 <= k < |x| ==> x[k] == c
    ensures Zeros(RobustDetection(x, p).mask)
  {
    if |x| >= 2 * p.w {
      DetectQuiet(x, p, c);
      DetectQuiet(x, DownParams(p), c);
    }
  }

  // ---------------------------------------------------------------------
  // The run merge

  /** The merge counts `runMin - 1` labels against a threshold of
      `0.8 * runMin`, which is out of reach unless `runMin > 5`. */
  lemma MergeRunIdle(m: seq<int>, i: nat, p: Params)
    requires i < |m| && p.runMin <= 5
    ensures MergeRun(m, i, p) == m
  {
    if i > p.w + p.runMin {
      var run := PySlice(m, i - p.runMin, i - 1);
      if p.runMin == 0 {
        assert run == [];
      } else {
        assert |run| == p.runMin - 1;
      }
      assert (|run| as real) <= RunFraction * (p.runMin as real);
    }
  }

  // ---------------------------------------------------------------------
  // The refinement

  /** For `i < 5` the window `x[i-5:i]` starts at a negative index, which
      Python reads from the end of the trace: on a trace of 5 or more
      samples the window is empty ... */
  lemma EarlyWindowEmpty(x: seq<real>, i: nat)
    requires i < PreviousPoints <= |x|
    ensures Window(x, i) == []
  {
  }

  /** ... and on a shorter one it has fewer than 4 samples, so the first
      five samples never fire the refinement. */
  lemma EarlyNeverFires(x: seq<real>, m: seq<int>, i: nat)
    requires |m| == |x| && i < |m| && i < PreviousPoints
    ensures !Fires(x, m, i)
  {
    var wnd := Window(x, i);
    assert |wnd| <= 3;
    assert CountAtMost(wnd, x[i]) <= 3;
    assert CountAtLeast(wnd, x[i]) <= 3;
  }

  /** A pass never changes indices 0..3. */
  lemma PassKeepsEarly(x: seq<real>, m: seq<int>, j: nat)
    requires |m| == |x| && j < |m| && j + 1 < PreviousPoints
    ensures RefinePass(x, m)[j] == m[j]
  {
    if j + 2 < |m| {
      EarlyNeverFires(x, m, j + 1);
    }
  }

  /** Nor does the refinement as a whole. */
  lemma {:induction false} RefineKeepsEarly(x: seq<real>, m: seq<int>, j: nat)
    requires |m| == |x| && j < |m| && j + 1 < PreviousPoints
    ensures RefineFix(x, m)[j] == m[j]
    decreases Frontier(x, m)
  {
    var next := RefinePass(x, m);
    if next != m {
      PassAdvances(x, m);
      PassKeepsEarly(x, m, j);
      RefineKeepsEarly(x, next, j);
    }
  }

  /** When the refinement stops, every firing index has passed its label to
      its left neighbour: a rise preceded by at least 4 of its 5 previous
      samples at or below it extends one sample back, likewise for falls. */
  lemma RefinedIsClosed(x: seq<real>, m: seq<int>, i: nat)
    requires |m| == |x| && 1 <= i && i + 1 < |m|
    ensures var r := RefineFix(x, m);
      (r[i] == 1 && RisingOnset(x, i) ==> r[i - 1] == 1) &&
      (r[i] == -1 && FallingOnset(x, i) ==> r[i - 1] == -1)
  {
    var r := RefineFix(x, m);
    assert RefinePass(x, r)[i - 1] == r[i - 1];
  }

  // ---------------------------------------------------------------------
  // Gap filling

  /** The sweep from `i` sets index `i` by the rule, applied to the labels
      before it (left alone by the rest of the sweep) and the labels after it. */
  lemma FillHere(m: seq<int>, pre: nat, post: nat, i: nat)
    requires pre <= i && i + post + 1 < |m|
    ensures var r := FillFrom(m, pre, post, i);
      r[i] == FillRule(m[i], r[i - pre..i], m[i + 1..i + 1 + post])
  {
    var m' := m[i := FillRule(m[i], m[i - pre..i], m[i + 1..i + 1 + post])];
    var r := FillFrom(m', pre, post, i + 1);
    assert r == FillFrom(m, pre, post, i);
    FillFromChanges(m', pre, post, i + 1);
    hide FillFrom;
    assert r[i] == m'[i];
    var written, original := r[i - pre..i], m[i - pre..i];
    forall k | 0 <= k < pre ensures written[k] == original[k] {
      assert r[i - pre + k] == m'[i - pre + k];
    }
    assert written == original;
  }

  /** The in-place sweep obeys, at every index it visits, the rule applied
      to the labels already written before it and the original labels after
      it; every other index is left alone. */
  lemma {:induction false} FillFromRule(m: seq<int>, pre: nat, post: nat, i: nat)
    requires pre <= i
    ensures var r := FillFrom(m, pre, post, i);
      forall j :: i <= j && j + post + 1 < |m| ==>
        r[j] == FillRule(m[j], r[j - pre..j], m[j + 1..j + 1 + post])
    decreases |m| - i
  {
    if i + post + 1 < |m| {
      var m' := m[i := FillRule(m[i], m[i - pre..i], m[i + 1..i + 1 + post])];
      var r := FillFrom(m', pre, post, i + 1);
      assert r == FillFrom(m, pre, post, i);
      hide FillFrom;
      hide FillRule;
      FillFromRule(m', pre, post, i + 1);
      FillHere(m, pre, post, i);
      forall j | i < j && j + post + 1 < |m|
        ensures r[j] == FillRule(m[j], r[j - pre..j], m[j + 1..j + 1 + post])
      {
        UpdateBehind(m, i, FillRule(m[i], m[i - pre..i], m[i + 1..i + 1 + post]), j, post);
      }
    }
  }

  /** Writing index `i` leaves every later label, and every window that
      starts after `i`, as it was. */
  lemma UpdateBehind(m: seq<int>, i: nat, v: int, j: nat, post: nat)
    requires i < j && j + 1 + post <= |m|
    ensures m[i := v][j] == m[j]
    ensures m[i := v][j + 1..j + 1 + post] == m[j + 1..j + 1 + post]
  {
  }

  /** The gap-filling pass of the detector: every index from `pre` to
      `N - post - 2` follows the rule; the rest are left alone. */
  lemma GapFillRule(m: seq<int>, pre: nat, post: nat, j: nat)
    requires pre <= j && j + post + 1 < |m|
    ensures var r := GapFill(m, pre, post);
      r[j] == FillRule(m[j], r[j - pre..j], m[j + 1..j + 1 + post])
  {
    FillFromRule(m, pre, post, pre);
  }

  /** What the rule means: a 0 becomes 1 exactly when a 1 lies in both
      windows, else -1 exactly when a -1 lies in both, and a label other than
      0 never changes. */
  lemma FillRuleMeaning(v: int, before: seq<int>, after: seq<int>)
    ensures FillRule(v, before, after) == 1 <==> v == 1 || (v == 0 && 1 in before && 1 in after)
    ensures FillRule(v, before, after) == -1 <==>
      v == -1 || (v == 0 && !(1 in before && 1 in after) && -1 in before && -1 in after)
    ensures v != 0 ==> FillRule(v, before, after) == v
  {
  }
}
