/** The adaptive event detector of `SignalProcessor` as functions of the
    trace: the sample-by-sample scan with a rolling robust baseline and
    hysteresis thresholds, the run merge inside the scan, the backward
    refinement run to a fixed point, the gap filling pass, and the two-pass
    combination of `robust_event_detection`. The imperative routines in
    module Processor are proved equal to these functions. */
module Detection {
  import opened Seqs
  import opened Stats

  /** The detector's arguments: baseline window `w`, threshold factors,
      influence of an event sample on the baseline, run-merge length and the
      gap-filling windows before and after a sample. */
  datatype Params = Params(w: nat, kUp: real, kDown: real, influence: real,
                           runMin: nat, pre: nat, post: nat)

  /** Event labels: 1 for a rise, -1 for a fall, 0 for neither. */
  predicate Ternary(m: seq<int>)
  {
    forall j :: 0 <= j < |m| ==> m[j] == -1 || m[j] == 0 || m[j] == 1
  }

  /** Divisor turning the first MAD into a standard deviation. */
  const InitialScale: real := 0.6745
  /** Factor turning every later MAD into a standard deviation. */
  const MadScale: real := 1.4826
  /** Fraction of a run that must already carry the label for a merge. */
  const RunFraction: real := 0.8
  /** Number of earlier samples inspected by the refinement. */
  const PreviousPoints: nat := 5
  /** Fraction of those samples that must lie on the event's side. */
  const OnsetFraction: real := 0.8

  // ---------------------------------------------------------------------
  // The scan

  /** The label of one sample, `d` being its distance from the baseline,
      `sd` the spread estimate and `prev` the previous sample's label. */
  function Classify(d: real, kUp: real, kDown: real, sd: real, prev: int): (c: int)
    ensures c == 1 <==> d > 0.0 && (d > kUp * sd || prev == 1)
    ensures c == -1 <==> d < 0.0 && (d < -kDown * sd || prev == -1)
    ensures c == -1 || c == 0 || c == 1
  {
    if (d > kUp * sd && d > 0.0) || (d > 0.0 && prev == 1) then 1
    else if (d < -kDown * sd && d < 0.0) || (d < 0.0 && prev == -1) then -1
    else 0
  }

  /** What the scan knows after a step: the labels so far, the rolling
      buffer, and the baseline and spread estimated from that buffer. */
  datatype ScanState = ScanState(mask: seq<int>, buf: seq<real>, baseline: real, sd: real)

  predicate WellFormed(x: seq<real>, p: Params, st: ScanState)
  {
    p.w >= 1 && |st.mask| == |x| && |st.buf| == p.w && Ternary(st.mask)
  }

  /** Baseline and spread of a buffer after the first step. */
  function Baseline(buf: seq<real>): real
    requires |buf| > 0
  {
    Median(buf)
  }

  function Spread(buf: seq<real>): real
    requires |buf| > 0
  {
    MadScale * Median(AbsDev(buf, Median(buf)))
  }

  /** The state before index `w`: all labels 0, the buffer holding the first
      `w` samples. */
  function InitialState(x: seq<real>, p: Params): (st: ScanState)
    requires 1 <= p.w <= |x|
    ensures WellFormed(x, p, st)
    ensures st.buf == x[..p.w]
    ensures forall j :: 0 <= j < |x| ==> st.mask[j] == 0
  {
    var buf := x[..p.w];
    var b := Median(buf);
    ScanState(Constant(|x|, 0), buf, b, Median(AbsDev(buf, b)) / InitialScale)
  }

  /** The value pushed onto the buffer for a sample labelled `c`: the sample
      itself when it is not part of an event, otherwise the sample weighed by
      `influence` against the buffer's last value. */
  function Pushed(xi: real, c: int, influence: real, last: real): real
  {
    if c != 0 then influence * xi + (1.0 - influence) * last else xi
  }

  /** `m` with the indices `lo..hi-1` set to `v`. */
  function Fill(m: seq<int>, lo: nat, hi: nat, v: int): (r: seq<int>)
    requires lo <= hi <= |m|
    ensures |r| == |m|
    ensures forall j :: 0 <= j < |m| ==> r[j] == if lo <= j < hi then v else m[j]
  {
    seq(|m|, j requires 0 <= j < |m| => if lo <= j < hi then v else m[j])
  }

  /** The run merge after labelling sample `i`: once `i > w + runMin`, if
      more than `0.8 * runMin` of the labels at `i-runMin .. i-2` equal the
      label of `i`, the whole run `i-runMin .. i-1` takes that label. */
  function MergeRun(m: seq<int>, i: nat, p: Params): (r: seq<int>)
    requires i < |m|
    ensures |r| == |m|
    ensures forall j :: 0 <= j < |m| && r[j] != m[j] ==> i - p.runMin <= j < i && r[j] == m[i]
    ensures r[i] == m[i]
  {
    if i > p.w + p.runMin then
      var run := PySlice(m, i - p.runMin, i - 1);
      if m[i] == 1 && (Count(run, 1) as real) > RunFraction * (p.runMin as real) then
        Fill(m, i - p.runMin, i, 1)
      else if m[i] == -1 && (Count(run, -1) as real) > RunFraction * (p.runMin as real) then
        Fill(m, i - p.runMin, i, -1)
      else m
    else m
  }

  /** One step of the scan, at index `i`. */
  function Step(x: seq<real>, p: Params, st: ScanState, i: nat): (next: ScanState)
    requires WellFormed(x, p, st) && p.w <= i < |x|
    ensures WellFormed(x, p, next)
  {
    var c := Classify(x[i] - st.baseline, p.kUp, p.kDown, st.sd, st.mask[i - 1]);
    var grown := st.buf + [Pushed(x[i], c, p.influence, st.buf[|st.buf| - 1])];
    var buf := grown[|grown| - p.w..];
    ScanState(MergeRun(st.mask[i := c], i, p), buf, Baseline(buf), Spread(buf))
  }

  /** The scan state once the indices `w .. i-1` have been processed. */
  function ScanTo(x: seq<real>, p: Params, i: nat): (st: ScanState)
    requires 1 <= p.w <= i <= |x|
    ensures WellFormed(x, p, st)
    decreases i
  {
    if i == p.w then InitialState(x, p) else Step(x, p, ScanTo(x, p, i - 1), i - 1)
  }

  /** The scan starts from the initial state ... */
  lemma ScanToFirst(x: seq<real>, p: Params)
    requires 1 <= p.w <= |x|
    ensures ScanTo(x, p, p.w) == InitialState(x, p)
  {}

  /** ... and advances one `Step` per index. */
  lemma ScanToNext(x: seq<real>, p: Params, i: nat)
    requires 1 <= p.w <= i < |x|
    ensures ScanTo(x, p, i + 1) == Step(x, p, ScanTo(x, p, i), i)
  {}

  /** Labels at the end of the scan. */
  function ScanMask(x: seq<real>, p: Params): (m: seq<int>)
    requires 1 <= p.w <= |x|
    ensures |m| == |x| && Ternary(m)
  {
    ScanTo(x, p, |x|).mask
  }

  /** Baselines recorded at the indices before `i`: the initial estimate at
      the first `w` indices, then the estimate after each step. */
  function BaselinesTo(x: seq<real>, p: Params, i: nat): (r: seq<real>)
    requires 1 <= p.w <= i <= |x|
    ensures |r| == i
    decreases i
  {
    if i == p.w then Constant(p.w, InitialState(x, p).baseline)
    else BaselinesTo(x, p, i - 1) + [ScanTo(x, p, i).baseline]
  }

  /** Spreads recorded at the indices before `i`, likewise. */
  function SpreadsTo(x: seq<real>, p: Params, i: nat): (r: seq<real>)
    requires 1 <= p.w <= i <= |x|
    ensures |r| == i
    decreases i
  {
    if i == p.w then Constant(p.w, InitialState(x, p).sd)
    else SpreadsTo(x, p, i - 1) + [ScanTo(x, p, i).sd]
  }

  function BaselineTrajectory(x: seq<real>, p: Params): (r: seq<real>)
    requires 1 <= p.w <= |x|
  {
    BaselinesTo(x, p, |x|)
  }

  function SpreadTrajectory(x: seq<real>, p: Params): (r: seq<real>)
    requires 1 <= p.w <= |x|
  {
    SpreadsTo(x, p, |x|)
  }

  // ---------------------------------------------------------------------
  // Backward refinement

  /** `x[i-5:i]`, with Python's reading of a negative start. */
  function Window(x: seq<real>, i: int): seq<real>
  {
    PySlice(x, i - PreviousPoints, i)
  }

  /** At least 80% of the previous samples lie at or below `x[i]`. */
  predicate RisingOnset(x: seq<real>, i: nat)
    requires i < |x|
  {
    (CountAtMost(Window(x, i), x[i]) as real) >= OnsetFraction * (PreviousPoints as real)
  }

  /** At least 80% of the previous samples lie at or above `x[i]`. */
  predicate FallingOnset(x: seq<real>, i: nat)
    requires i < |x|
  {
    (CountAtLeast(Window(x, i), x[i]) as real) >= OnsetFraction * (PreviousPoints as real)
  }

  /** The refinement at `i` pulls the label of `i` onto `i - 1`. */
  predicate Fires(x: seq<real>, m: seq<int>, i: nat)
    requires |m| == |x| && i < |m|
  {
    (m[i] == 1 && RisingOnset(x, i)) || (m[i] == -1 && FallingOnset(x, i))
  }

  /** One pass of the refinement over `i = 1 .. N-2`. Pass `i` writes only
      index `i - 1` and reads only `i` and `i - 1`, which no earlier pass of
      the same sweep wrote, so the in-place sweep equals this one. */
  function RefinePass(x: seq<real>, m: seq<int>): (r: seq<int>)
    requires |m| == |x|
    ensures |r| == |m|
    ensures forall j :: 0 <= j < |m| ==>
      r[j] == if j + 2 < |m| && Fires(x, m, j + 1) then m[j + 1] else m[j]
  {
    seq(|m|, j requires 0 <= j < |m| => if j + 2 < |m| && Fires(x, m, j + 1) then m[j + 1] else m[j])
  }

  /** Index `j` would not change in a pass: if `j + 1` fires, `j` already
      carries its label. */
  predicate Settled(x: seq<real>, m: seq<int>, j: nat)
    requires |m| == |x| && j + 1 < |m|
  {
    Fires(x, m, j + 1) ==> m[j] == m[j + 1]
  }

  function UnsettledFrom(x: seq<real>, m: seq<int>, k: nat): (r: nat)
    requires |m| == |x| && k + 2 <= |m|
    ensures r <= k
    ensures forall j :: r <= j < k ==> Settled(x, m, j)
    ensures r > 0 ==> !Settled(x, m, r - 1)
  {
    if k == 0 then 0
    else if Settled(x, m, k - 1) then UnsettledFrom(x, m, k - 1)
    else k
  }

  /** The least index from which every index up to `N - 3` is settled; each
      pass that changes something lowers it, so the refinement terminates. */
  function Frontier(x: seq<real>, m: seq<int>): (r: nat)
    requires |m| == |x|
    ensures forall j :: r <= j && j + 2 < |m| ==> Settled(x, m, j)
    ensures r > 0 ==> r + 2 <= |m| && !Settled(x, m, r - 1)
  {
    if |m| < 2 then 0 else UnsettledFrom(x, m, |m| - 2)
  }

  lemma {:induction false} UnsettledFromLeast(x: seq<real>, m: seq<int>, k: nat, a: nat)
    requires |m| == |x| && k + 2 <= |m|
    requires forall j :: a <= j < k ==> Settled(x, m, j)
    ensures UnsettledFrom(x, m, k) <= a
    decreases k
  {
    if k > a {
      UnsettledFromLeast(x, m, k - 1, a);
    }
  }

  /** With nothing unsettled a pass changes nothing. */
  lemma PassIdle(x: seq<real>, m: seq<int>)
    requires |m| == |x| && Frontier(x, m) == 0
    ensures RefinePass(x, m) == m
  {
    var next := RefinePass(x, m);
    forall j | 0 <= j < |m| ensures next[j] == m[j] {
      if j + 2 < |m| {
        assert Settled(x, m, j);
      }
    }
  }

  /** A pass leaves the settled suffix unchanged and settles the index just
      left of it. */
  lemma PassSettles(x: seq<real>, m: seq<int>, j: nat)
    requires |m| == |x| && j + 2 < |m| && Frontier(x, m) <= j + 1
    ensures Settled(x, RefinePass(x, m), j)
  {
    var next := RefinePass(x, m);
    if j + 3 < |m| {
      assert Settled(x, m, j + 1);
    }
    assert next[j + 1] == m[j + 1];
  }

  /** A pass that changes the labels moves the frontier strictly left. */
  lemma PassAdvances(x: seq<real>, m: seq<int>)
    requires |m| == |x|
    ensures RefinePass(x, m) != m ==> Frontier(x, RefinePass(x, m)) < Frontier(x, m)
  {
    var k := Frontier(x, m);
    if k == 0 {
      PassIdle(x, m);
    } else {
      var next := RefinePass(x, m);
      forall j | k - 1 <= j && j + 2 < |m| ensures Settled(x, next, j) {
        PassSettles(x, m, j);
      }
      UnsettledFromLeast(x, next, |m| - 2, k - 1);
    }
  }

  /** The refinement: passes repeated until one changes nothing. */
  function RefineFix(x: seq<real>, m: seq<int>): (r: seq<int>)
    requires |m| == |x|
    ensures |r| == |m|
    ensures RefinePass(x, r) == r
    ensures forall j :: 0 <= j < |m| && r[j] != m[j] ==> j + 2 < |m| && (r[j] == 1 || r[j] == -1)
    decreases Frontier(x, m)
  {
    var next := RefinePass(x, m);
    if next == m then m
    else
      PassAdvances(x, m);
      RefineFix(x, next)
  }

  // ---------------------------------------------------------------------
  // Gap filling

  /** The new label of a 0-labelled sample given the labels just before it
      and just after it. */
  function FillRule(v: int, before: seq<int>, after: seq<int>): int
  {
    if v == 0 && 1 in before && 1 in after then 1
    else if v == 0 && -1 in before && -1 in after then -1
    else v
  }

  /** The in-place gap-filling sweep from index `i` up to `N - post - 2`;
      later indices see the values already written at earlier ones. */
  function FillFrom(m: seq<int>, pre: nat, post: nat, i: nat): (r: seq<int>)
    requires pre <= i
    ensures |r| == |m|
    decreases |m| - i
  {
    if i + post + 1 < |m| then
      FillFrom(m[i := FillRule(m[i], m[i - pre..i], m[i + 1..i + 1 + post])], pre, post, i + 1)
    else m
  }

  /** The sweep changes only 0 labels, only to ±1, and only at indices from
      `i` up to `N - post - 2`. */
  lemma {:induction false} FillFromChanges(m: seq<int>, pre: nat, post: nat, i: nat)
    requires pre <= i
    ensures var r := FillFrom(m, pre, post, i);
      forall j :: 0 <= j < |m| && r[j] != m[j] ==>
        i <= j && j + post + 1 < |m| && m[j] == 0 && (r[j] == 1 || r[j] == -1)
    decreases |m| - i
  {
    if i + post + 1 < |m| {
      var v := FillRule(m[i], m[i - pre..i], m[i + 1..i + 1 + post]);
      assert v != m[i] ==> m[i] == 0 && (v == 1 || v == -1);
      var m' := m[i := v];
      var r := FillFrom(m', pre, post, i + 1);
      assert r == FillFrom(m, pre, post, i);
      hide *;
      FillFromChanges(m', pre, post, i + 1);
      forall j | 0 <= j < |m| && r[j] != m[j]
        ensures i <= j && j + post + 1 < |m| && m[j] == 0 && (r[j] == 1 || r[j] == -1)
      {
        if j != i {
          assert m'[j] == m[j];
        } else {
          assert r[i] == m'[i] == v;
        }
      }
    }
  }

  function GapFill(m: seq<int>, pre: nat, post: nat): (r: seq<int>)
    ensures |r| == |m|
    ensures forall j :: 0 <= j < |m| && r[j] != m[j] ==>
      pre <= j && j + post + 1 < |m| && m[j] == 0 && (r[j] == 1 || r[j] == -1)
  {
    FillFromChanges(m, pre, post, pre);
    FillFrom(m, pre, post, pre)
  }

  // ---------------------------------------------------------------------
  // Whole detector

  /** The labels `_detect_events_with_params` and
      `_detect_events_with_baseline` both compute. */
  function DetectMask(x: seq<real>, p: Params): (m: seq<int>)
    requires 1 <= p.w <= |x|
    ensures |m| == |x| && Ternary(m)
  {
    GapFill(RefineFix(x, ScanMask(x, p)), p.pre, p.post)
  }

  /** Parameters of the second, fall-oriented pass: `k_up = 2 * k_down`. */
  function DownParams(p: Params): Params
  {
    p.(kUp := 2.0 * p.kDown)
  }

  /** Falls from the second pass override rises from the first. */
  function MergeMasks(up: seq<int>, down: seq<int>): (r: seq<int>)
    requires |up| == |down|
    ensures |r| == |up| && Ternary(r)
    ensures forall j :: 0 <= j < |r| ==> (r[j] == -1 <==> down[j] == -1)
    ensures forall j :: 0 <= j < |r| ==> (r[j] == 1 <==> up[j] == 1 && down[j] != -1)
  {
    seq(|up|, j requires 0 <= j < |up| => if down[j] == -1 then -1 else if up[j] == 1 then 1 else 0)
  }

  /** Labels, baseline trajectory and spread trajectory. */
  datatype Detection = Detection(mask: seq<int>, baseline: seq<real>, sd: seq<real>)

  /** `robust_event_detection`: all zeros for a trace shorter than `2w`. */
  function RobustDetection(x: seq<real>, p: Params): (d: Detection)
    requires p.w >= 1
    ensures |d.mask| == |d.baseline| == |d.sd| == |x| && Ternary(d.mask)
    ensures |x| < 2 * p.w ==> forall j :: 0 <= j < |x| ==> d.mask[j] == 0 && d.baseline[j] == 0.0 && d.sd[j] == 0.0
  {
    if |x| < 2 * p.w then Detection(Constant(|x|, 0), Constant(|x|, 0.0), Constant(|x|, 0.0))
    else
      Detection(MergeMasks(DetectMask(x, p), DetectMask(x, DownParams(p))),
                BaselineTrajectory(x, p), SpreadTrajectory(x, p))
  }
}
