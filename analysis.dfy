/** The per-ROI results table of the application: each stimulus is measured
    up to the start of the next one, and a stimulus without a measurable
    response gets a row of zeros with no start or end time. */
module Analysis {
  import opened Wrappers
  import opened Metrics
  import opened DataProcessor

  /** One row of the results table; a missing time stands for NaN. */
  datatype ResultRow = ResultRow(
    roi: string, stimulus: string,
    startTime: Option<real>, endTime: Option<real>,
    duration: real, areaTotal: real, area1Min: real, maxValue: real)

  /** The start of the stimulus after row `k`, if there is one. */
  function NextStart(rows: seq<Stimulus>, k: nat): (r: Option<real>)
    requires k < |rows|
    ensures r.None? <==> k == |rows| - 1
    ensures r.Some? ==> r.value == rows[k + 1].inicio
  {
    if k < |rows| - 1 then Some(rows[k + 1].inicio) else None
  }

  /** The results row of one stimulus. */
  function RowFor(roi: string, signal: seq<real>, time: seq<real>, mask: seq<int>, rows: seq<Stimulus>, k: nat)
    : (r: ResultRow)
    requires |mask| == |time| && k < |rows|
    ensures r.roi == roi && r.stimulus == rows[k].name
    ensures r.startTime.Some? <==>
      CalculateStimulusMetrics(signal, time, mask, rows[k].inicio, rows[k].fin, NextStart(rows, k)).Some?
  {
    match CalculateStimulusMetrics(signal, time, mask, rows[k].inicio, rows[k].fin, NextStart(rows, k))
    case Some(m) =>
      ResultRow(roi, rows[k].name, Some(m.startTime), Some(m.endTime), m.duration, m.areaTotal, m.area1Min, m.maxValue)
    case None =>
      ResultRow(roi, rows[k].name, None, None, 0.0, 0.0, 0.0, 0.0)
  }

  /** The loop over the stimulus table for one ROI, appending a row per
      stimulus in table order. */
  method StimulusResults(roi: string, signal: seq<real>, time: seq<real>, mask: seq<int>, rows: seq<Stimulus>)
    returns (results: seq<ResultRow>)
    requires |mask| == |time|
    ensures |results| == |rows|
    ensures forall k :: 0 <= k < |rows| ==> results[k] == RowFor(roi, signal, time, mask, rows, k)
  {
    results := [];
    for k := 0 to |rows|
      invariant |results| == k
      invariant forall j :: 0 <= j < k ==> results[j] == RowFor(roi, signal, time, mask, rows, j)
    {
      results := results + [RowFor(roi, signal, time, mask, rows, k)];
    }
  }

  /** On an increasing time axis every measured row has a positive
      duration, and an unmeasured row reports all quantities as zero. */
  lemma RowDuration(roi: string, signal: seq<real>, time: seq<real>, mask: seq<int>, rows: seq<Stimulus>, k: nat)
    requires |mask| == |time| && k < |rows| && Increasing(time)
    ensures var r := RowFor(roi, signal, time, mask, rows, k);
      (r.startTime.Some? ==> r.duration > 0.0) &&
      (r.startTime.None? ==> r.endTime.None? && r.duration == r.areaTotal == r.area1Min == r.maxValue == 0.0)
  {
    var next := NextStart(rows, k);
    if CalculateStimulusMetrics(signal, time, mask, rows[k].inicio, rows[k].fin, next).Some? {
      PositiveDuration(signal, time, mask, rows[k].inicio, rows[k].fin, next);
    }
  }
}
