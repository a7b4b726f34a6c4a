/** `SignalProcessor`: the object that holds one trace, its smoothed copy
    and its latest event labels, with the detector written as the source
    writes it — a scan over an array of labels with a rolling buffer, a
    refinement loop repeated until a sweep changes nothing, and an in-place
    gap-filling sweep — each proved equal to the functions of module
    Detection. */
module Processor {
  import opened Wrappers
  import opened Seqs
  import opened Stats
  import opened Detection
  import opened Bounds

  /** The window the smoothing filter is given: an even window is raised
      to the next odd number. */
  function SavgolWindow(window: int): (r: int)
    ensures r % 2 == 1
    ensures window <= r <= window + 1
  {
    if window % 2 == 0 then window + 1 else window
  }

  /** One sweep of the refinement over `i = 1 .. N-2`, reporting whether it
      changed a label. */
  method RefineSweep(x: seq<real>, mask: array<int>) returns (changed: bool)
    requires mask.Length == |x|
    modifies mask
    ensures mask[..] == RefinePass(x, old(mask[..]))
    ensures changed <==> mask[..] != old(mask[..])
  {
    ghost var before := mask[..];
    var n := mask.Length;
    changed := false;
    var i := 1;
    while i < n - 1
      invariant 1 <= i <= if n >= 2 then n - 1 else 1
      invariant forall j :: 0 <= j < i - 1 ==> mask[j] == RefinePass(x, before)[j]
      invariant forall j :: i - 1 <= j < n ==> mask[j] == before[j]
      invariant changed <==> mask[..] != before
    {
      ghost var m := mask[..];
      var wrote := RefineStep(x, mask, i);
      SweepKeeps(x, before, m, mask[..], i, changed, wrote);
      changed := changed || wrote;
      i := i + 1;
    }
    assert forall j :: 0 <= j < n ==> mask[..][j] == RefinePass(x, before)[j];
  }

  /** Step `i` keeps the sweep's invariant: the labels before `i` are those
      of the pass, the rest are untouched, and a change has been reported
      exactly when some label differs. */
  lemma SweepKeeps(x: seq<real>, before: seq<int>, m: seq<int>, m': seq<int>, i: nat, changed: bool, wrote: bool)
    requires |before| == |x| == |m| && 1 <= i < |m| - 1
    requires forall j :: 0 <= j < i - 1 ==> m[j] == RefinePass(x, before)[j]
    requires forall j :: i - 1 <= j < |m| ==> m[j] == before[j]
    requires changed <==> m != before
    requires m' == m[i - 1 := if Fires(x, m, i) then m[i] else m[i - 1]]
    requires wrote <==> m'[i - 1] != m[i - 1]
    ensures forall j :: 0 <= j < i ==> m'[j] == RefinePass(x, before)[j]
    ensures forall j :: i <= j < |m'| ==> m'[j] == before[j]
    ensures changed || wrote <==> m' != before
  {
    var target := RefinePass(x, before);
    assert Fires(x, m, i) == Fires(x, before, i);
    assert m'[i - 1] == target[i - 1];
    forall j | 0 <= j < i - 1 ensures m'[j] == target[j] {
      assert m'[j] == m[j];
    }
    forall j | i <= j < |m'| ensures m'[j] == before[j] {
      assert m'[j] == m[j];
    }
    if changed {
      var k :| 0 <= k < |m| && m[k] != before[k];
      assert k < i - 1 && m'[k] == m[k];
    } else if wrote {
      assert m'[i - 1] != before[i - 1];
    } else {
      assert m' == m;
    }
  }

  /** Step `i` of the sweep: when `i` fires, its label is copied onto
      `i - 1`; the result says whether that changed the label. */
  method RefineStep(x: seq<real>, mask: array<int>, i: nat) returns (wrote: bool)
    requires mask.Length == |x| && 1 <= i < mask.Length
    modifies mask
    ensures mask[..] == old(mask[..])[i - 1 := if Fires(x, old(mask[..]), i) then old(mask[i]) else old(mask[i - 1])]
    ensures wrote <==> mask[i - 1] != old(mask[i - 1])
  {
    wrote := false;
    if mask[i] == 1 && (CountAtMost(Window(x, i), x[i]) as real) >= OnsetFraction * (PreviousPoints as real) {
      if mask[i - 1] != 1 {
        mask[i - 1] := 1;
        wrote := true;
      }
    } else if mask[i] == -1 && (CountAtLeast(Window(x, i), x[i]) as real) >= OnsetFraction * (PreviousPoints as real) {
      if mask[i - 1] != -1 {
        mask[i - 1] := -1;
        wrote := true;
      }
    }
  }

  /** The refinement loop of the detector, in place on `mask`: sweeps until
      one changes nothing. */
  method RefineEvents(x: seq<real>, mask: array<int>)
    requires mask.Length == |x|
    modifies mask
    ensures mask[..] == RefineFix(x, old(mask[..]))
  {
    ghost var start := mask[..];
    var changed := true;
    while changed
      invariant RefineFix(x, mask[..]) == RefineFix(x, start)
      invariant !changed ==> RefinePass(x, mask[..]) == mask[..]
      decreases if changed then Frontier(x, mask[..]) + 1 else 0
    {
      ghost var before := mask[..];
      PassAdvances(x, before);
      changed := RefineSweep(x, mask);
    }
  }

  /** The labels with index `i` rewritten by the gap-filling rule. */
  function RuleAt(m: seq<int>, pre: nat, post: nat, i: nat): (r: seq<int>)
    requires pre <= i && i + post + 1 < |m|
    ensures |r| == |m|
  {
    m[i := FillRule(m[i], m[i - pre..i], m[i + 1..i + 1 + post])]
  }

  /** The sweep from index `i` over `cur` ends in `target`. */
  ghost predicate SweepReaches(cur: seq<int>, pre: nat, post: nat, i: nat, target: seq<int>)
  {
    pre <= i && FillFrom(cur, pre, post, i) == target
  }

  /** One step of the gap-filling sweep: the sweep from `i` is the sweep
      from `i + 1` over the labels with index `i` rewritten by the rule. */
  lemma FillStep(before: seq<int>, after: seq<int>, pre: nat, post: nat, i: nat, target: seq<int>)
    requires i + post + 1 < |before| && SweepReaches(before, pre, post, i, target)
    requires after == RuleAt(before, pre, post, i)
    ensures SweepReaches(after, pre, post, i + 1, target)
  {
  }

  /** The sweep has nothing left to do once `i + post + 1` reaches the end. */
  lemma FillDone(m: seq<int>, pre: nat, post: nat, i: nat, target: seq<int>)
    requires i + post + 1 >= |m| && SweepReaches(m, pre, post, i, target)
    ensures m == target
  {
  }

  /** Index `i` of the gap-filling sweep, rewritten by the rule in place. */
  method FillAt(mask: array<int>, pre: nat, post: nat, i: nat)
    requires pre <= i && i + post + 1 < mask.Length
    modifies mask
    ensures mask[..] == RuleAt(old(mask[..]), pre, post, i)
  {
    if mask[i] == 0 && 1 in mask[i - pre..i] && 1 in mask[i + 1..i + 1 + post] {
      mask[i] := 1;
    } else if mask[i] == 0 && -1 in mask[i - pre..i] && -1 in mask[i + 1..i + 1 + post] {
      mask[i] := -1;
    }
  }

  /** The gap-filling sweep of the detector, in place on `mask`. */
  method FillGaps(mask: array<int>, pre: nat, post: nat)
    modifies mask
    ensures mask[..] == GapFill(old(mask[..]), pre, post)
  {
    ghost var target := GapFill(mask[..], pre, post);
    assert SweepReaches(mask[..], pre, post, pre, target);
    hide *;
    var n := mask.Length;
    var i := pre;
    while i + post + 1 < n
      invariant pre <= i
      invariant SweepReaches(mask[..], pre, post, i, target)
      decreases n - i
    {
      ghost var before := mask[..];
      FillAt(mask, pre, post, i);
      FillStep(before, mask[..], pre, post, i, target);
      i := i + 1;
    }
    FillDone(mask[..], pre, post, i, target);
  }

  /** The run merge after labelling sample `i`, in place on `m`. */
  method MergeRunInPlace(m: array<int>, i: nat, p: Params)
    requires i < m.Length
    modifies m
    ensures m[..] == MergeRun(old(m[..]), i, p)
  {
    hide Count;
    hide PySlice;
    ghost var before := m[..];
    if i > p.w + p.runMin {
      if m[i] == 1 && (Count(PySlice(m[..], i - p.runMin, i - 1), 1) as real) > RunFraction * (p.runMin as real) {
        forall j | i - p.runMin <= j < i {
          m[j] := 1;
        }
        assert forall j :: 0 <= j < m.Length ==> m[..][j] == Fill(before, i - p.runMin, i, 1)[j];
      } else if m[i] == -1 && (Count(PySlice(m[..], i - p.runMin, i - 1), -1) as real) > RunFraction * (p.runMin as real) {
        forall j | i - p.runMin <= j < i {
          m[j] := -1;
        }
        assert forall j :: 0 <= j < m.Length ==> m[..][j] == Fill(before, i - p.runMin, i, -1)[j];
      }
    }
  }

  /** The label of sample `i` under the hysteresis rule, written into `m`,
      and the buffer with the corresponding value pushed. */
  method LabelSample(x: seq<real>, p: Params, m: array<int>, buf: seq<real>, baseline: real, sd: real, i: nat)
    returns (grown: seq<real>)
    requires m.Length == |x| && 1 <= i < |x| && |buf| > 0
    modifies m
    ensures var c := Classify(x[i] - baseline, p.kUp, p.kDown, sd, old(m[i - 1]));
      m[..] == old(m[..])[i := c] && grown == buf + [Pushed(x[i], c, p.influence, buf[|buf| - 1])]
  {
    ghost var c: int;
    var difference := x[i] - baseline;
    if (difference > p.kUp * sd && difference > 0.0) || (difference > 0.0 && m[i - 1] == 1) {
      c := 1;
      m[i] := 1;
      grown := buf + [p.influence * x[i] + (1.0 - p.influence) * buf[|buf| - 1]];
      assert grown[|buf|] == Pushed(x[i], c, p.influence, buf[|buf| - 1]);
    } else if (difference < -p.kDown * sd && difference < 0.0) || (difference < 0.0 && m[i - 1] == -1) {
      c := -1;
      m[i] := -1;
      grown := buf + [p.influence * x[i] + (1.0 - p.influence) * buf[|buf| - 1]];
      assert grown[|buf|] == Pushed(x[i], c, p.influence, buf[|buf| - 1]);
    } else {
      c := 0;
      m[i] := 0;
      grown := buf + [x[i]];
    }
    assert c == Classify(difference, p.kUp, p.kDown, sd, old(m[i - 1]));
    assert grown == buf + [Pushed(x[i], c, p.influence, buf[|buf| - 1])];
  }

  /** One step of the scan at index `i`: label the sample against the
      current baseline, push onto the buffer, merge a run, keep the last `w`
      buffer entries and re-estimate baseline and spread from them. */
  method ScanStep(x: seq<real>, p: Params, m: array<int>, buf: seq<real>, baseline: real, sd: real, i: nat,
                  ghost st: ScanState)
    returns (nextBuf: seq<real>, nextBaseline: real, nextSd: real)
    requires m.Length == |x| && st == ScanState(m[..], buf, baseline, sd)
    requires WellFormed(x, p, st) && p.w <= i < |x|
    modifies m
    ensures ScanState(m[..], nextBuf, nextBaseline, nextSd) == Step(x, p, st, i)
  {
    hide Classify;
    hide Pushed;
    hide MergeRun;
    hide Median;
    hide AbsDev;
    var grown := LabelSample(x, p, m, buf, baseline, sd, i);
    MergeRunInPlace(m, i, p);
    nextBuf := grown[|grown| - p.w..];
    nextBaseline := Median(nextBuf);
    nextSd := MadScale * Median(AbsDev(nextBuf, nextBaseline));
  }

  /** The state before the first step: no labels, the first `w` samples as
      buffer, their median and their MAD divided by 0.6745. */
  method ScanStart(x: seq<real>, p: Params) returns (m: array<int>, buf: seq<real>, baseline: real, sd: real)
    requires 1 <= p.w <= |x|
    ensures fresh(m) && ScanState(m[..], buf, baseline, sd) == ScanTo(x, p, p.w)
  {
    m := new int[|x|](_ => 0);
    buf := x[..p.w];
    baseline := Median(buf);
    sd := Median(AbsDev(buf, baseline)) / InitialScale;
    ScanToFirst(x, p);
    assert m[..] == Constant(|x|, 0);
  }

  /** The scan of `_detect_events_with_params`: labels in a fresh array,
      baseline and spread re-estimated after every sample. */
  method Scan(x: seq<real>, p: Params) returns (m: array<int>)
    requires 1 <= p.w <= |x|
    ensures fresh(m) && m[..] == ScanMask(x, p)
  {
    hide Step;
    var buf, baseline, sd;
    m, buf, baseline, sd := ScanStart(x, p);
    var i := p.w;
    while i < |x|
      invariant p.w <= i <= |x| && m.Length == |x|
      invariant ScanState(m[..], buf, baseline, sd) == ScanTo(x, p, i)
    {
      ScanToNext(x, p, i);
      buf, baseline, sd := ScanStep(x, p, m, buf, baseline, sd, i, ScanTo(x, p, i));
      i := i + 1;
    }
  }

  /** The scan of `_detect_events_with_baseline`: as `Scan`, also recording
      the baseline and spread in force at every index (the first `w` entries
      hold the initial estimates, entry `i` the estimates after step `i`). */
  method ScanRecording(x: seq<real>, p: Params) returns (m: array<int>, baselines: seq<real>, sds: seq<real>)
    requires 1 <= p.w <= |x|
    ensures fresh(m)
    ensures m[..] == ScanMask(x, p)
    ensures baselines == BaselineTrajectory(x, p) && sds == SpreadTrajectory(x, p)
  {
    hide Step;
    var buf, base, spread;
    m, buf, base, spread := ScanStart(x, p);
    baselines, sds := Constant(p.w, base), Constant(p.w, spread);
    var i := p.w;
    while i < |x|
      invariant p.w <= i <= |x| && m.Length == |x|
      invariant ScanState(m[..], buf, base, spread) == ScanTo(x, p, i)
      invariant baselines == BaselinesTo(x, p, i) && sds == SpreadsTo(x, p, i)
    {
      ScanToNext(x, p, i);
      buf, base, spread := ScanStep(x, p, m, buf, base, spread, i, ScanTo(x, p, i));
      baselines, sds := baselines + [base], sds + [spread];
      i := i + 1;
    }
  }

  /** The combination step of `robust_event_detection`: a zero array, set to
      1 where the first mask has a rise, then to -1 where the second has a
      fall. */
  method Combine(up: seq<int>, down: seq<int>) returns (mask: seq<int>)
    requires |up| == |down|
    ensures mask == MergeMasks(up, down)
  {
    var combined := new int[|up|](_ => 0);
    forall j | 0 <= j < |up| && up[j] == 1 {
      combined[j] := 1;
    }
    forall j | 0 <= j < |up| && down[j] == -1 {
      combined[j] := -1;
    }
    mask := combined[..];
    assert forall j :: 0 <= j < |up| ==> mask[j] == MergeMasks(up, down)[j];
  }

  /** Index `i` of the boundary scan for one flag sequence: a rising edge
      records a start at `time[i]` and enters an event, a falling edge
      records an end at `time[i-1]` and leaves it. */
  method TrackEdge(time: seq<real>, f: seq<bool>, i: nat, starts: seq<real>, ends: seq<real>, inside: bool)
    returns (starts': seq<real>, ends': seq<real>, inside': bool)
    requires 1 <= i < |f| <= |time|
    requires starts == Starts(time, f, i) && ends == Ends(time, f, i) && inside == InEvent(f, i)
    ensures starts' == Starts(time, f, i + 1) && ends' == Ends(time, f, i + 1) && inside' == InEvent(f, i + 1)
  {
    starts', ends', inside' := starts, ends, inside;
    if f[i] && !f[i - 1] {
      starts' := starts + [time[i]];
      inside' := true;
    } else if !f[i] && f[i - 1] {
      ends' := ends + [time[i - 1]];
      inside' := false;
    }
  }

  /** The end of the boundary scan: an event still open at the last sample
      is closed at the last time stamp. */
  method CloseEvent(time: seq<real>, f: seq<bool>, ends: seq<real>, inside: bool) returns (ends': seq<real>)
    requires |f| <= |time|
    requires ends == Ends(time, f, |f|) && inside == InEvent(f, |f|)
    ensures ends' == EventEnds(time, f)
  {
    ends' := ends;
    if inside {
      ends' := ends + [time[|time| - 1]];
    }
  }

  class SignalProcessor {
    const originalSignal: seq<real>
    const time: seq<real>
    var smoothedSignal: Option<seq<real>>
    var eventMask: Option<seq<int>>

    constructor (signalData: seq<real>, timeArray: seq<real>)
      ensures originalSignal == signalData && time == timeArray
      ensures smoothedSignal == None && eventMask == None
    {
      originalSignal := signalData;
      time := timeArray;
      smoothedSignal := None;
      eventMask := None;
    }

    /** Smooths the original trace. The Savitzky-Golay filter itself is
        numeric library code and is the parameter `savgol`. */
    method ApplySavgolFilter(window: int, polyorder: int, savgol: (seq<real>, int, int) -> seq<real>)
      returns (smoothed: seq<real>)
      modifies this
      ensures smoothed == savgol(originalSignal, SavgolWindow(window), polyorder)
      ensures smoothedSignal == Some(smoothed) && eventMask == old(eventMask)
    {
      var wnd := window;
      if wnd % 2 == 0 {
        wnd := wnd + 1;
      }
      smoothedSignal := Some(savgol(originalSignal, wnd, polyorder));
      smoothed := smoothedSignal.value;
    }

    /** The trace the detector runs on: the smoothed one when asked for and
        present, else the original. */
    function DetectionInput(useSmoothed: bool): seq<real>
      reads this
    {
      if useSmoothed && smoothedSignal.Some? then smoothedSignal.value else originalSignal
    }

    /** `robust_event_detection`: the detector run as given and with
        `k_up = 2 * k_down`, falls of the second run overriding rises of the
        first, with the baseline and spread of a third, recording run. */
    method RobustEventDetection(p: Params, useSmoothed: bool)
      returns (mask: seq<int>, baseline: seq<real>, sd: seq<real>)
      requires p.w >= 1
      modifies this
      ensures Detection(mask, baseline, sd) == RobustDetection(old(DetectionInput(useSmoothed)), p)
      ensures |old(DetectionInput(useSmoothed))| < 2 * p.w ==> eventMask == old(eventMask)
      ensures |old(DetectionInput(useSmoothed))| >= 2 * p.w ==> eventMask == Some(mask)
      ensures smoothedSignal == old(smoothedSignal)
    {
      var x := DetectionInput(useSmoothed);
      var n := |x|;
      if n < 2 * p.w {
        return Constant(n, 0), Constant(n, 0.0), Constant(n, 0.0);
      }
      var up := DetectEventsWithParams(x, p);
      var down := DetectEventsWithParams(x, DownParams(p));
      var combined := Combine(up, down);
      var _, b, s := DetectEventsWithBaseline(x, p);
      mask := combined;
      eventMask := Some(mask);
      baseline, sd := b, s;
    }

    /** `_detect_events_with_params`: the labels only. */
    method DetectEventsWithParams(x: seq<real>, p: Params) returns (mask: seq<int>)
      requires 1 <= p.w <= |x|
      ensures mask == DetectMask(x, p)
    {
      var m := Scan(x, p);
      RefineEvents(x, m);
      FillGaps(m, p.pre, p.post);
      mask := m[..];
    }

    /** `_detect_events_with_baseline`: the same labels, with the baseline
        and spread recorded at every index; it also stores the labels. */
    method DetectEventsWithBaseline(x: seq<real>, p: Params)
      returns (mask: seq<int>, baseline: seq<real>, sd: seq<real>)
      requires 1 <= p.w <= |x|
      modifies this`eventMask
      ensures mask == DetectMask(x, p)
      ensures baseline == BaselineTrajectory(x, p) && sd == SpreadTrajectory(x, p)
      ensures eventMask == Some(mask)
    {
      var m, baselines, sds := ScanRecording(x, p);
      RefineEvents(x, m);
      FillGaps(m, p.pre, p.post);
      mask, baseline, sd := m[..], baselines, sds;
      eventMask := Some(mask);
    }

    /** The labels `detect_event_bounds` works on. */
    function ChosenMask(given: Option<seq<int>>): Option<seq<int>>
      reads this
    {
      if given.Some? then given else eventMask
    }

    /** `detect_event_bounds`: start and end times of rises and falls. */
    method DetectEventBounds(given: Option<seq<int>>) returns (r: Result<EventBounds>)
      requires ChosenMask(given).Some? ==> |ChosenMask(given).value| <= |time|
      ensures r.Failure? <==> ChosenMask(given).None?
      ensures r.Success? ==>
        var up, down := Flags(ChosenMask(given).value, true), Flags(ChosenMask(given).value, false);
        r.value == EventBounds(EventStarts(time, up), EventEnds(time, up),
                               EventStarts(time, down), EventEnds(time, down))
    {
      var chosen := if given.Some? then given else eventMask;
      if chosen.None? {
        return Failure("No hay máscara de eventos. Ejecuta robust_event_detection() primero.");
      }
      var m := chosen.value;
      var upEvents, downEvents := Flags(m, true), Flags(m, false);
      var upStarts, upEnds, downStarts, downEnds := [], [], [], [];
      var inUp, inDown := false, false;
      var i := 1;
      while i < |m|
        invariant 1 <= i && (i <= |m| || |m| == 0)
        invariant var k := if |m| == 0 then 0 else i;
          upStarts == Starts(time, upEvents, k) && upEnds == Ends(time, upEvents, k) &&
          inUp == InEvent(upEvents, k) &&
          downStarts == Starts(time, downEvents, k) && downEnds == Ends(time, downEvents, k) &&
          inDown == InEvent(downEvents, k)
      {
        upStarts, upEnds, inUp := TrackEdge(time, upEvents, i, upStarts, upEnds, inUp);
        downStarts, downEnds, inDown := TrackEdge(time, downEvents, i, downStarts, downEnds, inDown);
        i := i + 1;
      }
      upEnds := CloseEvent(time, upEvents, upEnds, inUp);
      downEnds := CloseEvent(time, downEvents, downEnds, inDown);
      r := Success(EventBounds(upStarts, upEnds, downStarts, downEnds));
    }
  }

  /** The four lists `detect_event_bounds` returns. */
  datatype EventBounds = EventBounds(upStart: seq<real>, upEnd: seq<real>,
                                     downStart: seq<real>, downEnd: seq<real>)
}
