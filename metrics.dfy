/** `calculate_stimulus_metrics`: the response to one stimulus, measured
    between the first rise after the stimulus and the last fall before the
    next one, on the trace with a straight line between the segment's ends
    subtracted. Every failure of the original yields `None`. */
module Metrics {
  import opened Wrappers
  import opened Seqs
  import opened Stats

  /** The record returned for one stimulus. */
  datatype StimulusMetrics = StimulusMetrics(
    startTime: real, endTime: real, duration: real,
    areaTotal: real, area1Min: real, maxValue: real,
    corrected: seq<real>, timeCorrected: seq<real>, baselineLocal: seq<real>)

  /** First and last index of the measured segment. */
  datatype Span = Span(start: nat, end: nat)

  predicate Increasing(t: seq<real>)
  {
    forall j, k :: 0 <= j < k < |t| ==> t[j] < t[k]
  }

  // ---------------------------------------------------------------------
  // Resolving the window

  /** The window closes at the next stimulus's start, or at the last time
      when there is no next stimulus; an empty time axis has no last time. */
  function EffectiveEnd(time: seq<real>, next: Option<real>): Option<real>
  {
    if next.Some? then next else if |time| > 0 then Some(time[|time| - 1]) else None
  }

  predicate InWindow(time: seq<real>, s: real, e: real, j: nat)
    requires j < |time|
  {
    s <= time[j] <= e
  }

  /** Some sample time lies in `s..e`. */
  predicate Occupied(time: seq<real>, s: real, e: real)
  {
    exists j :: 0 <= j < |time| && InWindow(time, s, e, j)
  }

  /** The vector `(time >= s) & (time <= e)`. */
  function Window(time: seq<real>, s: real, e: real): (c: seq<bool>)
    ensures |c| == |time| && forall j :: 0 <= j < |time| ==> (c[j] <==> InWindow(time, s, e, j))
  {
    seq(|time|, j requires 0 <= j < |time| => InWindow(time, s, e, j))
  }

  /** A rise inside the window. */
  predicate RiseAt(time: seq<real>, mask: seq<int>, s: real, e: real, j: nat)
    requires |mask| == |time| && j < |time|
  {
    InWindow(time, s, e, j) && mask[j] == 1
  }

  /** A fall later in time than `t0` and not after `e`. */
  predicate FallAt(time: seq<real>, mask: seq<int>, t0: real, e: real, j: nat)
    requires |mask| == |time| && j < |time|
  {
    t0 < time[j] <= e && mask[j] == -1
  }

  /** The vector `(time >= s) & (time <= e) & (mask == 1)`. */
  function Rises(time: seq<real>, mask: seq<int>, s: real, e: real): (c: seq<bool>)
    requires |mask| == |time|
    ensures |c| == |time| && forall j :: 0 <= j < |time| ==> (c[j] <==> RiseAt(time, mask, s, e, j))
  {
    seq(|time|, j requires 0 <= j < |time| => RiseAt(time, mask, s, e, j))
  }

  /** The vector `(time > t0) & (time <= e) & (mask == -1)`. */
  function Falls(time: seq<real>, mask: seq<int>, t0: real, e: real): (c: seq<bool>)
    requires |mask| == |time|
    ensures |c| == |time| && forall j :: 0 <= j < |time| ==> (c[j] <==> FallAt(time, mask, t0, e, j))
  {
    seq(|time|, j requires 0 <= j < |time| => FallAt(time, mask, t0, e, j))
  }

  /** The vector `time >= s`. */
  function NotBefore(time: seq<real>, s: real): (c: seq<bool>)
    ensures |c| == |time| && forall j :: 0 <= j < |time| ==> (c[j] <==> s <= time[j])
  {
    seq(|time|, j requires 0 <= j < |time| => s <= time[j])
  }

  /** The vector `time <= e`. */
  function NotAfter(time: seq<real>, e: real): (c: seq<bool>)
    ensures |c| == |time| && forall j :: 0 <= j < |time| ==> (c[j] <==> time[j] <= e)
  {
    seq(|time|, j requires 0 <= j < |time| => time[j] <= e)
  }

  /** The first rise in the window, or failing that the first index whose
      time is not before the stimulus. */
  function StartIndex(time: seq<real>, mask: seq<int>, s: real, e: real): (r: Option<nat>)
    requires |mask| == |time|
    ensures r.Some? ==> r.value < |time| && s <= time[r.value]
    ensures (exists j :: 0 <= j < |time| && RiseAt(time, mask, s, e, j)) ==>
      r.Some? && RiseAt(time, mask, s, e, r.value) &&
      forall j :: 0 <= j < r.value ==> !RiseAt(time, mask, s, e, j)
    ensures (forall j :: 0 <= j < |time| ==> !RiseAt(time, mask, s, e, j)) ==>
      (r.Some? <==> exists j :: 0 <= j < |time| && s <= time[j]) &&
      (r.Some? ==> forall j :: 0 <= j < r.value ==> time[j] < s)
  {
    var first := FirstTrue(Rises(time, mask, s, e));
    if first.Some? then first else FirstTrue(NotBefore(time, s))
  }

  /** The last fall after the start's time in the window, or failing that
      the last index whose time is not after the window. */
  function EndIndex(time: seq<real>, mask: seq<int>, t0: real, e: real): (r: Option<nat>)
    requires |mask| == |time|
    ensures r.Some? ==> r.value < |time| && time[r.value] <= e
    ensures (exists j :: 0 <= j < |time| && FallAt(time, mask, t0, e, j)) ==>
      r.Some? && FallAt(time, mask, t0, e, r.value) &&
      forall j :: r.value < j < |time| ==> !FallAt(time, mask, t0, e, j)
    ensures (forall j :: 0 <= j < |time| ==> !FallAt(time, mask, t0, e, j)) ==>
      (r.Some? <==> exists j :: 0 <= j < |time| && time[j] <= e) &&
      (r.Some? ==> forall j :: r.value < j < |time| ==> time[j] > e)
  {
    var last := LastTrue(Falls(time, mask, t0, e));
    if last.Some? then last else LastTrue(NotAfter(time, e))
  }

  /** The segment to measure: `None` when the window holds no sample time,
      when no start or end is found, or when the start is not before the
      end. */
  function Resolve(time: seq<real>, mask: seq<int>, s: real, next: Option<real>): (r: Option<Span>)
    requires |mask| == |time|
    ensures r.Some? ==> r.value.start < r.value.end < |time|
  {
    var end := EffectiveEnd(time, next);
    if end.None? then None
    else
      var e := end.value;
      var some := FirstTrue(Window(time, s, e));
      if some.None? then None
      else
        var start := StartIndex(time, mask, s, e);
        if start.None? then None
        else
          var stop := EndIndex(time, mask, time[start.value], e);
          if stop.None? || start.value >= stop.value then None
          else Some(Span(start.value, stop.value))
  }

  /** A resolved segment runs from the start index to the end index of an
      occupied window; an empty window resolves to nothing. */
  lemma ResolveMeaning(time: seq<real>, mask: seq<int>, s: real, next: Option<real>)
    requires |mask| == |time|
    ensures var r := Resolve(time, mask, s, next);
      r.Some? ==>
        var e := EffectiveEnd(time, next).value;
        EffectiveEnd(time, next).Some? && Occupied(time, s, e) &&
        StartIndex(time, mask, s, e) == Some(r.value.start) &&
        EndIndex(time, mask, time[r.value.start], e) == Some(r.value.end)
    ensures EffectiveEnd(time, next).Some? && !Occupied(time, s, EffectiveEnd(time, next).value) ==>
      Resolve(time, mask, s, next).None?
  {
    var e := EffectiveEnd(time, next);
    if e.Some? {
      var some := FirstTrue(Window(time, s, e.value));
      if some.Some? {
        assert InWindow(time, s, e.value, some.value);
      } else {
        assert !Occupied(time, s, e.value);
      }
    }
  }

  /** With a sample time in the window a start and an end are always found:
      the fallbacks of the original cannot fail. */
  lemma OccupiedResolves(time: seq<real>, mask: seq<int>, s: real, e: real, t0: real)
    requires |mask| == |time| && Occupied(time, s, e)
    ensures StartIndex(time, mask, s, e).Some?
    ensures EndIndex(time, mask, t0, e).Some?
  {
    var j :| 0 <= j < |time| && InWindow(time, s, e, j);
    assert s <= time[j] && time[j] <= e;
  }

  // ---------------------------------------------------------------------
  // Measuring a segment

  /** `np.linspace(a, b, n)`. */
  function Linspace(a: real, b: real, n: nat): (r: seq<real>)
    requires n >= 2
    ensures |r| == n && r[0] == a && r[n - 1] == b
    ensures forall k :: 0 <= k < n - 1 ==> r[k + 1] - r[k] == (b - a) / ((n - 1) as real)
  {
    var step := (b - a) / ((n - 1) as real);
    assert ((n - 1) as real) * step == b - a;
    seq(n, k requires 0 <= k < n => a + (k as real) * step)
  }

  /** `s - t`, element by element. */
  function Minus(s: seq<real>, t: seq<real>): (r: seq<real>)
    requires |s| == |t|
    ensures |r| == |s| && forall k :: 0 <= k < |s| ==> r[k] + t[k] == s[k]
  {
    seq(|s|, k requires 0 <= k < |s| => s[k] - t[k])
  }

  /** `scipy.integrate.trapezoid(y, t)`. */
  function Trapezoid(y: seq<real>, t: seq<real>): real
    requires |y| == |t|
    decreases |y|
  {
    if |y| < 2 then 0.0
    else (t[1] - t[0]) * (y[0] + y[1]) / 2.0 + Trapezoid(y[1..], t[1..])
  }

  /** The area under a zero curve is 0 ... */
  lemma {:induction false} TrapezoidOfZero(y: seq<real>, t: seq<real>)
    requires |y| == |t| && forall k :: 0 <= k < |y| ==> y[k] == 0.0
    ensures Trapezoid(y, t) == 0.0
    decreases |y|
  {
    if |y| >= 2 {
      TrapezoidOfZero(y[1..], t[1..]);
    }
  }

  /** ... and under a constant curve it is the constant times the elapsed
      time. */
  lemma {:induction false} TrapezoidOfConstant(y: seq<real>, t: seq<real>, c: real)
    requires |y| == |t| >= 1 && forall k :: 0 <= k < |y| ==> y[k] == c
    ensures Trapezoid(y, t) == c * (t[|t| - 1] - t[0])
    decreases |y|
  {
    if |y| >= 2 {
      TrapezoidOfConstant(y[1..], t[1..], c);
      assert (t[1] - t[0]) * (c + c) / 2.0 == c * (t[1] - t[0]);
      assert c * (t[1] - t[0]) + c * (t[|t| - 1] - t[1]) == c * (t[|t| - 1] - t[0]);
    }
  }

  /** Python's `int()` on a real: truncation toward zero. */
  function Trunc(v: real): (r: int)
    ensures v >= 0.0 ==> 0 <= r && (r as real) <= v < (r as real) + 1.0
    ensures v < 0.0 ==> r <= 0 && (r as real) - 1.0 < v <= (r as real)
  {
    if v >= 0.0 then v.Floor else -((-v).Floor)
  }

  /** The area over the first `int(1 / (time[1] - time[0]))` samples of the
      segment, or the whole area when the segment is not longer than that
      or the step is unusable (too short a trace, a zero step). */
  function Area1Min(time: seq<real>, corrected: seq<real>, tseg: seq<real>, areaTotal: real): real
    requires |corrected| == |tseg|
  {
    if |time| < 2 || time[1] - time[0] == 0.0 then areaTotal
    else
      var n := Trunc(1.0 / (time[1] - time[0]));
      if |corrected| > n then Trapezoid(PySlice(corrected, 0, n), PySlice(tseg, 0, n))
      else areaTotal
  }

  /** The metrics of one segment, `seg` being the signal and `tseg` the
      times of the segment, `time` the whole time axis. */
  function Measure(seg: seq<real>, tseg: seq<real>, time: seq<real>): (m: StimulusMetrics)
    requires |seg| == |tseg| >= 2
    ensures |m.corrected| == |m.baselineLocal| == |seg| && m.timeCorrected == tseg
  {
    var baseline := Linspace(seg[0], seg[|seg| - 1], |seg|);
    var corrected := Minus(seg, baseline);
    var total := Trapezoid(corrected, tseg);
    StimulusMetrics(tseg[0], tseg[|tseg| - 1], tseg[|tseg| - 1] - tseg[0],
                    total, Area1Min(time, corrected, tseg, total), MaxOf(corrected),
                    corrected, tseg, baseline)
  }

  /** The measured segment is the signal minus a baseline that meets it at
      both ends, so the corrected segment starts and ends at 0 and its
      maximum, one of its values, is never negative; the duration is the
      time between the segment's ends. */
  lemma MeasureShape(seg: seq<real>, tseg: seq<real>, time: seq<real>)
    requires |seg| == |tseg| >= 2
    ensures var m := Measure(seg, tseg, time);
      (forall k :: 0 <= k < |seg| ==> m.corrected[k] + m.baselineLocal[k] == seg[k]) &&
      m.corrected[0] == 0.0 && m.corrected[|seg| - 1] == 0.0 &&
      (forall k :: 0 <= k < |seg| ==> m.corrected[k] <= m.maxValue) &&
      (exists k :: 0 <= k < |seg| && m.corrected[k] == m.maxValue) &&
      m.maxValue >= 0.0 &&
      m.startTime == tseg[0] && m.endTime == tseg[|tseg| - 1] &&
      m.duration == m.endTime - m.startTime
  {
    var m := Measure(seg, tseg, time);
    assert m.corrected[0] <= m.maxValue;
  }

  // ---------------------------------------------------------------------
  // The whole extractor

  /** `calculate_stimulus_metrics`. `stimulusEnd` is accepted and ignored,
      as in the original. */
  function CalculateStimulusMetrics(signal: seq<real>, time: seq<real>, mask: seq<int>,
                                    stimulusStart: real, stimulusEnd: real, next: Option<real>)
    : Option<StimulusMetrics>
    requires |mask| == |time|
  {
    hide *;
    var span := Resolve(time, mask, stimulusStart, next);
    if span.None? then None
    else
      var sp := span.value;
      if sp.end >= |signal| then None
      else Some(Measure(signal[sp.start..sp.end + 1], time[sp.start..sp.end + 1], time))
  }

  /** Exactly when the extractor answers `None`: no sample time in the
      window (or no time axis at all without a next stimulus), a start not
      before the end, or an end past the signal. */
  lemma NoneCases(signal: seq<real>, time: seq<real>, mask: seq<int>,
                  stimulusStart: real, stimulusEnd: real, next: Option<real>)
    requires |mask| == |time|
    ensures var e := EffectiveEnd(time, next);
      CalculateStimulusMetrics(signal, time, mask, stimulusStart, stimulusEnd, next).None? <==>
        e.None? || !Occupied(time, stimulusStart, e.value) ||
        (var st := StartIndex(time, mask, stimulusStart, e.value).value;
         var en := EndIndex(time, mask, time[st], e.value).value;
         st >= en || en >= |signal|)
  {
    hide Measure;
    hide StartIndex;
    hide EndIndex;
    ResolveMeaning(time, mask, stimulusStart, next);
    var e := EffectiveEnd(time, next);
    if e.Some? && Occupied(time, stimulusStart, e.value) {
      var st := StartIndex(time, mask, stimulusStart, e.value);
      OccupiedResolves(time, mask, stimulusStart, e.value, 0.0);
      OccupiedResolves(time, mask, stimulusStart, e.value, time[st.value]);
      var w :| 0 <= w < |time| && InWindow(time, stimulusStart, e.value, w);
      assert Window(time, stimulusStart, e.value)[w];
    }
  }

  /** A result measures the signal over the resolved segment, from its
      start index to its end index inclusive (see ResolveMeaning for what
      those indices are). */
  lemma ResultOfResolve(signal: seq<real>, time: seq<real>, mask: seq<int>,
                        stimulusStart: real, stimulusEnd: real, next: Option<real>)
    requires |mask| == |time|
    requires CalculateStimulusMetrics(signal, time, mask, stimulusStart, stimulusEnd, next).Some?
    ensures var r := Resolve(time, mask, stimulusStart, next);
      r.Some? && r.value.end < |signal| &&
      CalculateStimulusMetrics(signal, time, mask, stimulusStart, stimulusEnd, next).value ==
        Measure(signal[r.value.start..r.value.end + 1], time[r.value.start..r.value.end + 1], time)
  {
    hide Measure;
    hide Resolve;
  }

  /** The result's corrected segment starts and ends at 0, so its maximum
      is never negative. */
  lemma CorrectedEnds(signal: seq<real>, time: seq<real>, mask: seq<int>,
                      stimulusStart: real, stimulusEnd: real, next: Option<real>)
    requires |mask| == |time|
    requires CalculateStimulusMetrics(signal, time, mask, stimulusStart, stimulusEnd, next).Some?
    ensures var m := CalculateStimulusMetrics(signal, time, mask, stimulusStart, stimulusEnd, next).value;
      |m.corrected| >= 2 && m.corrected[0] == 0.0 && m.corrected[|m.corrected| - 1] == 0.0 &&
      m.maxValue >= 0.0
  {
    hide Measure;
    hide Resolve;
    var sp := Resolve(time, mask, stimulusStart, next).value;
    var seg, tseg := signal[sp.start..sp.end + 1], time[sp.start..sp.end + 1];
    assert |seg| == |tseg| == sp.end + 1 - sp.start >= 2;
    MeasureShape(seg, tseg, time);
  }

  /** With strictly increasing times the measured response lasts a positive
      time. */
  lemma PositiveDuration(signal: seq<real>, time: seq<real>, mask: seq<int>,
                         stimulusStart: real, stimulusEnd: real, next: Option<real>)
    requires |mask| == |time| && Increasing(time)
    requires CalculateStimulusMetrics(signal, time, mask, stimulusStart, stimulusEnd, next).Some?
    ensures CalculateStimulusMetrics(signal, time, mask, stimulusStart, stimulusEnd, next).value.duration > 0.0
  {
    hide Measure;
    hide Resolve;
    var sp := Resolve(time, mask, stimulusStart, next).value;
    var seg, tseg := signal[sp.start..sp.end + 1], time[sp.start..sp.end + 1];
    MeasureShape(seg, tseg, time);
    assert tseg[0] == time[sp.start] && tseg[|tseg| - 1] == time[sp.end];
  }

  /** `np.linspace` between the ends of a straight line gives back that
      line. */
  lemma LinspaceOfLine(seg: seq<real>, a: real, c: real)
    requires |seg| >= 2
    requires forall k :: 0 <= k < |seg| ==> seg[k] == a + (k as real) * c
    ensures Linspace(seg[0], seg[|seg| - 1], |seg|) == seg
  {
    var n := |seg|;
    var line := Linspace(seg[0], seg[n - 1], n);
    var step := (seg[n - 1] - seg[0]) / ((n - 1) as real);
    assert seg[n - 1] - seg[0] == ((n - 1) as real) * c;
    assert step == c;
    forall k | 0 <= k < n ensures line[k] == seg[k] {
      assert line[k] == seg[0] + (k as real) * step;
      assert seg[k] == a + (k as real) * c && seg[0] == a;
    }
  }

  /** Any slice of a zero curve has zero area. */
  lemma SliceOfZeroArea(y: seq<real>, t: seq<real>, cut: int)
    requires |y| == |t| && forall k :: 0 <= k < |y| ==> y[k] == 0.0
    ensures Trapezoid(PySlice(y, 0, cut), PySlice(t, 0, cut)) == 0.0
  {
    var head := PySlice(y, 0, cut);
    var lo := SliceBound(|y|, 0);
    assert forall k :: 0 <= k < |head| ==> head[k] == y[lo + k];
    TrapezoidOfZero(head, PySlice(t, 0, cut));
  }

  /** A segment that is a straight line in the sample index is all
      baseline: nothing is left after the correction, so its areas and its
      maximum are 0. */
  lemma LinearSegmentIsFlat(seg: seq<real>, tseg: seq<real>, time: seq<real>, a: real, c: real)
    requires |seg| == |tseg| >= 2
    requires forall k :: 0 <= k < |seg| ==> seg[k] == a + (k as real) * c
    ensures var m := Measure(seg, tseg, time);
      (forall k :: 0 <= k < |seg| ==> m.corrected[k] == 0.0) &&
      m.areaTotal == 0.0 && m.area1Min == 0.0 && m.maxValue == 0.0
  {
    var m := Measure(seg, tseg, time);
    MeasureShape(seg, tseg, time);
    LinspaceOfLine(seg, a, c);
    assert m.baselineLocal == seg;
    assert m.areaTotal == Trapezoid(m.corrected, tseg);
    assert m.area1Min == Area1Min(time, m.corrected, tseg, m.areaTotal);
    hide Measure;
    assert forall k :: 0 <= k < |seg| ==> m.corrected[k] == 0.0;
    TrapezoidOfZero(m.corrected, tseg);
    if |time| >= 2 && time[1] - time[0] != 0.0 {
      SliceOfZeroArea(m.corrected, tseg, Trunc(1.0 / (time[1] - time[0])));
    }
  }

  /** When the segment has no more samples than fit in the first minute,
      `area_1min` is the whole area. */
  lemma ShortSegmentArea(signal: seq<real>, time: seq<real>, mask: seq<int>,
                         stimulusStart: real, stimulusEnd: real, next: Option<real>)
    requires |mask| == |time|
    requires CalculateStimulusMetrics(signal, time, mask, stimulusStart, stimulusEnd, next).Some?
    requires |time| >= 2 && time[1] != time[0]
    requires |CalculateStimulusMetrics(signal, time, mask, stimulusStart, stimulusEnd, next).value.corrected|
             <= Trunc(1.0 / (time[1] - time[0]))
    ensures var m := CalculateStimulusMetrics(signal, time, mask, stimulusStart, stimulusEnd, next).value;
      m.area1Min == m.areaTotal
  {
  }

  /** The stimulus's own end time plays no part in the result. */
  lemma StimulusEndUnused(signal: seq<real>, time: seq<real>, mask: seq<int>,
                          stimulusStart: real, end1: real, end2: real, next: Option<real>)
    requires |mask| == |time|
    ensures CalculateStimulusMetrics(signal, time, mask, stimulusStart, end1, next) ==
            CalculateStimulusMetrics(signal, time, mask, stimulusStart, end2, next)
  {
  }
}
