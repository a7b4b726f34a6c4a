/** The small signal helpers next to the detector: the sampling-rate
    estimate, the interpolation over excluded samples, the argument guard of
    the Butterworth filter and the per-bin keep rule of the FFT filter. The
    numeric transforms themselves (Butterworth design with `filtfilt`, the
    real FFT and its inverse) are library code and appear as parameters. */
module Filters {
  import opened Wrappers
  import opened Seqs
  import opened Stats

  // ---------------------------------------------------------------------
  // Sampling rate

  /** `np.diff(t)`. */
  function Diff(t: seq<real>): (d: seq<real>)
    requires |t| >= 1
    ensures |d| == |t| - 1 && forall k :: 0 <= k < |d| ==> t[k] + d[k] == t[k + 1]
  {
    seq(|t| - 1, k requires 0 <= k < |t| - 1 => t[k + 1] - t[k])
  }

  /** `estimate_sampling_rate`: the rate in Hz of a time axis in minutes,
      from the median step; 0 when there are fewer than two samples or the
      median step is not positive. */
  function EstimateSamplingRate(time: seq<real>): (r: real)
    ensures r >= 0.0
    ensures r > 0.0 <==> |time| >= 2 && Median(Diff(time)) > 0.0
    ensures r > 0.0 ==> r * (Median(Diff(time)) * 60.0) == 1.0
  {
    if |time| < 2 then 0.0
    else
      var dtSeconds := Median(Diff(time)) * 60.0;
      if dtSeconds <= 0.0 then 0.0 else 1.0 / dtSeconds
  }

  /** On a uniform grid with step `h` minutes the estimate is one sample
      per `60 h` seconds. */
  lemma UniformRate(time: seq<real>, h: real)
    requires |time| >= 2 && h > 0.0
    requires forall k :: 0 <= k < |time| - 1 ==> time[k + 1] - time[k] == h
    ensures EstimateSamplingRate(time) == 1.0 / (h * 60.0)
  {
    var d := Diff(time);
    assert forall k :: 0 <= k < |d| ==> d[k] == h;
    MedianOfConstant(d, h);
  }

  /** Times that never increase give the fail-soft answer 0. */
  lemma NonIncreasingRate(time: seq<real>)
    requires forall k :: 0 <= k < |time| - 1 ==> time[k + 1] <= time[k]
    ensures EstimateSamplingRate(time) == 0.0
  {
    if |time| >= 2 {
      var d := Diff(time);
      assert forall k :: 0 <= k < |d| ==> d[k] <= 0.0;
      MedianAtMost(d, 0.0);
    }
  }

  // ---------------------------------------------------------------------
  // Interpolation over excluded samples

  /** `np.interp(q, xp, fp)` at one point: `fp[0]` left of the first knot,
      the last value right of the last knot, and the straight line between
      the two knots around `q` elsewhere. */
  function Interp(q: int, xp: seq<nat>, fp: seq<real>): real
    requires |xp| == |fp| >= 1 && StrictlyIncreasing(xp)
    decreases |xp|
  {
    if |xp| == 1 || q <= xp[0] then fp[0]
    else if q <= xp[1] then
      var slope := (fp[1] - fp[0]) / (xp[1] as real - xp[0] as real);
      fp[0] + slope * (q as real - xp[0] as real)
    else Interp(q, xp[1..], fp[1..])
  }

  /** At a knot the interpolant takes the knot's value. */
  lemma {:induction false} InterpAtKnot(xp: seq<nat>, fp: seq<real>, k: nat)
    requires |xp| == |fp| >= 1 && StrictlyIncreasing(xp) && k < |xp|
    ensures Interp(xp[k], xp, fp) == fp[k]
    decreases |xp|
  {
    if k > 0 {
      if k == 1 {
        var dx := xp[1] as real - xp[0] as real;
        assert (fp[1] - fp[0]) / dx * dx == fp[1] - fp[0];
      } else {
        InterpAtKnot(xp[1..], fp[1..], k - 1);
      }
    }
  }

  lemma NonnegProduct(x: real, y: real)
    requires x >= 0.0 && y >= 0.0
    ensures x * y >= 0.0
  {
  }

  /** A weighted mean of two values in a range stays in the range. */
  lemma Convex(t: real, f0: real, f1: real, lo: real, hi: real)
    requires 0.0 <= t <= 1.0 && lo <= f0 <= hi && lo <= f1 <= hi
    ensures lo <= (1.0 - t) * f0 + t * f1 <= hi
  {
    var u := 1.0 - t;
    NonnegProduct(u, f0 - lo);
    NonnegProduct(t, f1 - lo);
    NonnegProduct(u, hi - f0);
    NonnegProduct(t, hi - f1);
    assert u * f0 + t * f1 - lo == u * (f0 - lo) + t * (f1 - lo);
    assert hi - (u * f0 + t * f1) == u * (hi - f0) + t * (hi - f1);
  }

  /** The interpolant never leaves the range of the knot values. */
  lemma {:induction false} InterpBounded(q: int, xp: seq<nat>, fp: seq<real>, lo: real, hi: real)
    requires |xp| == |fp| >= 1 && StrictlyIncreasing(xp)
    requires forall k :: 0 <= k < |fp| ==> lo <= fp[k] <= hi
    ensures lo <= Interp(q, xp, fp) <= hi
    decreases |xp|
  {
    if |xp| > 1 && q > xp[0] {
      if q <= xp[1] {
        var dx, dq := xp[1] as real - xp[0] as real, q as real - xp[0] as real;
        var t := dq / dx;
        assert 0.0 < t <= 1.0;
        assert (fp[1] - fp[0]) / dx * dq == t * (fp[1] - fp[0]);
        assert Interp(q, xp, fp) == (1.0 - t) * fp[0] + t * fp[1];
        Convex(t, fp[0], fp[1], lo, hi);
      } else {
        InterpBounded(q, xp[1..], fp[1..], lo, hi);
      }
    }
  }

  /** One segment of the interpolant through two points of a line. */
  lemma SegmentOfLine(q: real, x0: real, x1: real, a: real, b: real)
    requires x0 < x1
    ensures (a + b * x0) + ((a + b * x1) - (a + b * x0)) / (x1 - x0) * (q - x0) == a + b * q
  {
    assert (a + b * x1) - (a + b * x0) == b * (x1 - x0);
    assert b * (x1 - x0) / (x1 - x0) == b;
    assert b * (q - x0) == b * q - b * x0;
  }

  lemma FirstSegmentOfLine(q: int, xp: seq<nat>, fp: seq<real>, a: real, b: real)
    requires |xp| == |fp| >= 2 && StrictlyIncreasing(xp)
    requires fp[0] == a + b * (xp[0] as real) && fp[1] == a + b * (xp[1] as real)
    requires xp[0] < q <= xp[1]
    ensures Interp(q, xp, fp) == a + b * (q as real)
  {
    SegmentOfLine(q as real, xp[0] as real, xp[1] as real, a, b);
  }

  /** Knot values on a straight line are interpolated exactly between the
      first and last knot. */
  lemma {:induction false} InterpOfLine(q: int, xp: seq<nat>, fp: seq<real>, a: real, b: real)
    requires |xp| == |fp| >= 1 && StrictlyIncreasing(xp)
    requires forall k :: 0 <= k < |xp| ==> fp[k] == a + b * (xp[k] as real)
    requires xp[0] <= q <= xp[|xp| - 1]
    ensures Interp(q, xp, fp) == a + b * (q as real)
    decreases |xp|
  {
    if |xp| > 1 && q > xp[0] {
      if q <= xp[1] {
        FirstSegmentOfLine(q, xp, fp, a, b);
      } else {
        InterpOfLine(q, xp[1..], fp[1..], a, b);
      }
    } else {
      assert q == xp[0];
    }
  }

  /** `x[idx]` for an index vector `idx`. */
  function Gather(x: seq<real>, idx: seq<nat>): (r: seq<real>)
    requires forall k :: 0 <= k < |idx| ==> idx[k] < |x|
    ensures |r| == |idx| && forall k :: 0 <= k < |idx| ==> r[k] == x[idx[k]]
  {
    seq(|idx|, k requires 0 <= k < |idx| => x[idx[k]])
  }

  /** `interpolate_masked_signal`: samples whose `keep` flag is false are
      replaced by the interpolant through the kept samples, unless every
      sample is kept or fewer than two are. */
  function InterpolateMasked(x: seq<real>, keep: seq<bool>): (r: seq<real>)
    requires |keep| == |x|
    ensures |r| == |x|
    ensures forall j :: 0 <= j < |x| && keep[j] ==> r[j] == x[j]
    ensures |Where(keep)| < 2 ==> r == x
    ensures |Where(keep)| >= 2 ==> forall j :: 0 <= j < |x| && !keep[j] ==>
      r[j] == Interp(j, Where(keep), Gather(x, Where(keep)))
  {
    if forall j :: 0 <= j < |keep| ==> keep[j] then
      assert forall j :: 0 <= j < |x| ==> !(0 <= j < |x| && !keep[j]);
      x
    else
      var valid := Where(keep);
      if |valid| < 2 then x
      else seq(|x|, j requires 0 <= j < |x| => if keep[j] then x[j] else Interp(j, valid, Gather(x, valid)))
  }

  /** A filled-in sample lies within the range of the kept samples. */
  lemma FilledWithinKept(x: seq<real>, keep: seq<bool>, j: nat, lo: real, hi: real)
    requires |keep| == |x| && j < |x|
    requires forall k :: 0 <= k < |x| && keep[k] ==> lo <= x[k] <= hi
    requires !keep[j] && |Where(keep)| >= 2
    ensures lo <= InterpolateMasked(x, keep)[j] <= hi
  {
    var valid := Where(keep);
    InterpBounded(j, valid, Gather(x, valid), lo, hi);
  }

  /** A trace that is a straight line in the sample index comes back
      unchanged between the first and the last kept sample. */
  lemma LineRestored(x: seq<real>, keep: seq<bool>, a: real, b: real, j: nat)
    requires |keep| == |x| && j < |x|
    requires forall k :: 0 <= k < |x| ==> x[k] == a + b * (k as real)
    requires |Where(keep)| >= 2
    requires Where(keep)[0] <= j <= Where(keep)[|Where(keep)| - 1]
    ensures InterpolateMasked(x, keep)[j] == x[j]
  {
    var valid := Where(keep);
    var fp := Gather(x, valid);
    if !keep[j] {
      InterpOfLine(j, valid, fp, a, b);
    }
  }

  // ---------------------------------------------------------------------
  // Butterworth guard

  /** The cutoff argument: one frequency (possibly missing) or a sequence of
      them, as Python allows either. */
  datatype Cutoff = Scalar(hz: Option<real>) | Several(items: seq<Option<real>>)

  /** A cutoff as a fraction of the Nyquist frequency. */
  datatype Normalized = Single(w: real) | Band(low: real, high: real)

  /** A frequency below the Nyquist frequency is a fraction of it. */
  lemma Fraction(a: real, b: real, nyquist: real)
    requires 0.0 < a < b && b <= nyquist
    ensures 0.0 < a / nyquist < b / nyquist <= 1.0
  {
  }

  /** The guard of `apply_butter_filter`: `None` when the filter is
      skipped (type `none`, a non-positive rate, a malformed or out-of-range
      cutoff), else the cutoff divided by the Nyquist frequency. */
  function ButterCutoff(filterType: string, rate: real, cutoff: Cutoff): (r: Option<Normalized>)
    ensures r.Some? ==> filterType != "none" && rate > 0.0
    ensures r.Some? && r.value.Single? ==> 0.0 < r.value.w < 1.0
    ensures r.Some? && r.value.Band? ==> 0.0 < r.value.low < r.value.high < 1.0
    ensures r.Some? ==> (r.value.Single? <==> cutoff.Scalar?)
  {
    if filterType == "none" || rate <= 0.0 then None
    else
      var nyquist := 0.5 * rate;
      match cutoff
      case Several(items) =>
        if |items| != 2 || items[0].None? || items[1].None? then None
        else
          var lo, hi := items[0].value, items[1].value;
          if lo <= 0.0 || hi >= nyquist || lo >= hi then None
          else
            Fraction(lo, hi, nyquist);
            Fraction(hi, nyquist, nyquist);
            Some(Band(lo / nyquist, hi / nyquist))
      case Scalar(hz) =>
        if hz.None? || hz.value <= 0.0 || hz.value >= nyquist then None
        else
          Fraction(hz.value, nyquist, nyquist);
          Some(Single(hz.value / nyquist))
  }

  /** Every cutoff strictly between 0 and the Nyquist frequency is
      accepted, and scaled by it. */
  lemma ButterAcceptsInRange(filterType: string, rate: real, hz: real)
    requires filterType != "none" && 0.0 < hz < 0.5 * rate
    ensures ButterCutoff(filterType, rate, Scalar(Some(hz))) == Some(Single(hz / (0.5 * rate)))
  {
  }

  /** Every band strictly inside `(0, nyquist)` with its low edge below its
      high edge is accepted, and both edges are scaled by the Nyquist
      frequency. */
  lemma ButterAcceptsBand(filterType: string, rate: real, lo: real, hi: real)
    requires filterType != "none" && 0.0 < lo < hi < 0.5 * rate
    ensures ButterCutoff(filterType, rate, Several([Some(lo), Some(hi)])) ==
      Some(Band(lo / (0.5 * rate), hi / (0.5 * rate)))
  {
  }

  /** The guard refuses the type `none`, a non-positive rate, a scalar
      cutoff that is missing or outside `(0, nyquist)`, and a cutoff list
      that is not two present values `0 < lo < hi < nyquist`. */
  lemma ButterRejects(filterType: string, rate: real, cutoff: Cutoff)
    requires filterType == "none" || rate <= 0.0 ||
      (cutoff.Scalar? && (cutoff.hz.None? || cutoff.hz.value <= 0.0 || cutoff.hz.value >= 0.5 * rate)) ||
      (cutoff.Several? && (|cutoff.items| != 2 || cutoff.items[0].None? || cutoff.items[1].None? ||
                           cutoff.items[0].value <= 0.0 || cutoff.items[1].value >= 0.5 * rate ||
                           cutoff.items[0].value >= cutoff.items[1].value))
    ensures ButterCutoff(filterType, rate, cutoff).None?
  {
  }

  /** `apply_butter_filter`: the input unchanged when the guard refuses,
      else the zero-phase Butterworth filter, given as `filtfilt`. */
  function ApplyButterFilter(signal: seq<real>, rate: real, filterType: string, cutoff: Cutoff, order: int,
                             filtfilt: (seq<real>, int, Normalized, string) -> seq<real>): (r: seq<real>)
    ensures ButterCutoff(filterType, rate, cutoff).None? ==> r == signal
    ensures ButterCutoff(filterType, rate, cutoff).Some? ==>
      r == filtfilt(signal, order, ButterCutoff(filterType, rate, cutoff).value, filterType)
  {
    match ButterCutoff(filterType, rate, cutoff)
    case None => signal
    case Some(c) => filtfilt(signal, order, c, filterType)
  }

  // ---------------------------------------------------------------------
  // FFT keep mask

  /** The frequency of bin `k` of an `n`-point real FFT at `rate` Hz. */
  function Bin(k: nat, n: nat, rate: real): real
    requires n >= 1
  {
    (k as real) * rate / (n as real)
  }

  lemma BinOrder(j: nat, k: nat, n: nat, rate: real)
    requires n >= 1 && rate > 0.0 && j < k
    ensures Bin(j, n, rate) < Bin(k, n, rate)
  {
    assert (j as real) * rate < (k as real) * rate;
  }

  lemma BinRange(k: nat, n: nat, rate: real)
    requires n >= 1 && rate > 0.0 && k <= n / 2
    ensures 0.0 <= Bin(k, n, rate) <= rate / 2.0
  {
    assert (k as real) * 2.0 <= n as real;
    assert (k as real) * rate * 2.0 <= (n as real) * rate;
  }

  /** `np.fft.rfftfreq(n, 1 / rate)`: the frequencies of the real FFT's
      bins, from 0 up to the Nyquist frequency. */
  function RfftFreqs(n: nat, rate: real): (f: seq<real>)
    requires n >= 1 && rate > 0.0
    ensures |f| == n / 2 + 1 && f[0] == 0.0
    ensures forall j, k :: 0 <= j < k < |f| ==> f[j] < f[k]
    ensures forall k :: 0 <= k < |f| ==> 0.0 <= f[k] <= rate / 2.0
  {
    var f := seq(n / 2 + 1, k requires 0 <= k < n / 2 + 1 => Bin(k, n, rate));
    forall j, k | 0 <= j < k < |f| ensures f[j] < f[k] {
      BinOrder(j, k, n, rate);
    }
    forall k | 0 <= k < |f| ensures 0.0 <= f[k] <= rate / 2.0 {
      BinRange(k, n, rate);
    }
    f
  }

  /** The cutoff argument of the FFT filter. */
  datatype FftCutoff = Hz(value: real) | Pair(low: real, high: real)

  /** Whether the cutoff has the shape the filter type uses: one frequency
      for the one-sided filters, two for the band filters; any shape for a
      type the filter does not name. */
  predicate ShapeFits(filterType: string, cutoff: FftCutoff)
  {
    if filterType == "lowpass" || filterType == "highpass" then cutoff.Hz?
    else if filterType == "bandpass" || filterType == "bandstop" then cutoff.Pair?
    else true
  }

  /** The keep rule of `apply_fft_filter` for one bin; a type other than
      the four named ones keeps every bin. */
  predicate Keeps(filterType: string, f: real, cutoff: FftCutoff)
    requires ShapeFits(filterType, cutoff)
  {
    match filterType
    case "lowpass" => f <= cutoff.value
    case "highpass" => f >= cutoff.value
    case "bandpass" => cutoff.low <= f <= cutoff.high
    case "bandstop" => f < cutoff.low || f > cutoff.high
    case _ => true
  }

  /** The keep vector over all bins; a cutoff of the wrong shape is the
      error Python raises when comparing or unpacking it. */
  function KeepMask(filterType: string, freqs: seq<real>, cutoff: FftCutoff): (r: Result<seq<bool>>)
    ensures r.Failure? <==> !ShapeFits(filterType, cutoff)
    ensures r.Success? ==> |r.value| == |freqs|
    ensures r.Success? && filterType !in {"lowpass", "highpass", "bandpass", "bandstop"} ==>
      forall k :: 0 <= k < |freqs| ==> r.value[k]
  {
    if !ShapeFits(filterType, cutoff) then Failure("cutoff shape does not fit the filter type")
    else Success(seq(|freqs|, k requires 0 <= k < |freqs| => Keeps(filterType, freqs[k], cutoff)))
  }

  /** Band-pass and band-stop with the same band keep complementary bins. */
  lemma BandsComplementary(freqs: seq<real>, low: real, high: real)
    ensures forall k :: 0 <= k < |freqs| ==>
      KeepMask("bandpass", freqs, Pair(low, high)).value[k] == !KeepMask("bandstop", freqs, Pair(low, high)).value[k]
  {
  }

  /** Low-pass and high-pass with the same cutoff together keep every bin,
      and only a bin at the cutoff itself is kept by both. */
  lemma OneSidedCover(freqs: seq<real>, c: real)
    ensures forall k :: 0 <= k < |freqs| ==>
      KeepMask("lowpass", freqs, Hz(c)).value[k] || KeepMask("highpass", freqs, Hz(c)).value[k]
    ensures forall k :: 0 <= k < |freqs| ==>
      (KeepMask("lowpass", freqs, Hz(c)).value[k] && KeepMask("highpass", freqs, Hz(c)).value[k] <==> freqs[k] == c)
  {
  }

  /** Over the ascending FFT bins a low-pass filter keeps a prefix of the
      bins and a high-pass filter a suffix. */
  lemma OneSidedContiguous(n: nat, rate: real, c: real, j: nat, k: nat)
    requires n >= 1 && rate > 0.0 && j < k <= n / 2
    ensures KeepMask("lowpass", RfftFreqs(n, rate), Hz(c)).value[k] ==> KeepMask("lowpass", RfftFreqs(n, rate), Hz(c)).value[j]
    ensures KeepMask("highpass", RfftFreqs(n, rate), Hz(c)).value[j] ==> KeepMask("highpass", RfftFreqs(n, rate), Hz(c)).value[k]
  {
  }

  /** A complex FFT coefficient. */
  datatype Complex = Complex(re: real, im: real)

  /** `fft_vals[~keep] = 0`. */
  function Suppress(spectrum: seq<Complex>, keep: seq<bool>): (r: seq<Complex>)
    requires |keep| == |spectrum|
    ensures |r| == |spectrum|
    ensures forall k :: 0 <= k < |r| ==> r[k] == if keep[k] then spectrum[k] else Complex(0.0, 0.0)
  {
    seq(|spectrum|, k requires 0 <= k < |spectrum| => if keep[k] then spectrum[k] else Complex(0.0, 0.0))
  }

  /** Suppressing twice is suppressing once. */
  lemma SuppressIdempotent(spectrum: seq<Complex>, keep: seq<bool>)
    requires |keep| == |spectrum|
    ensures Suppress(Suppress(spectrum, keep), keep) == Suppress(spectrum, keep)
  {
  }

  /** `apply_fft_filter`: the input unchanged for a non-positive rate or
      type `none`; otherwise the spectrum from `rfft` with the rejected
      bins zeroed, transformed back by `irfft`. An empty trace (the
      division by zero in `rfftfreq`) and a cutoff of the wrong shape are
      errors. */
  function ApplyFftFilter(signal: seq<real>, rate: real, filterType: string, cutoff: FftCutoff,
                          rfft: seq<real> -> seq<Complex>, irfft: (seq<Complex>, nat) -> seq<real>)
    : (r: Result<seq<real>>)
    requires forall x :: |rfft(x)| == |x| / 2 + 1
    ensures rate <= 0.0 || filterType == "none" ==> r == Success(signal)
    ensures r.Failure? <==> rate > 0.0 && filterType != "none" && (|signal| == 0 || !ShapeFits(filterType, cutoff))
    ensures (r.Success? && rate > 0.0 && filterType != "none") ==>
      |signal| >= 1 && ShapeFits(filterType, cutoff) &&
      r.value == irfft(Suppress(rfft(signal), KeepMask(filterType, RfftFreqs(|signal|, rate), cutoff).value), |signal|)
  {
    if rate <= 0.0 || filterType == "none" then Success(signal)
    else if |signal| == 0 then Failure("division by zero in rfftfreq")
    else
      match KeepMask(filterType, RfftFreqs(|signal|, rate), cutoff)
      case Failure(e) => Failure(e)
      case Success(keep) => Success(irfft(Suppress(rfft(signal), keep), |signal|))
  }
}
