/** Event edges as `detect_event_bounds` reports them: the time of each
    sample where a run of labelled samples starts, and the time of the last
    sample of each run, for rises and for falls separately. */
module Bounds {

  /** `event_mask > 0` (rises) or `event_mask < 0` (falls). */
  function Flags(m: seq<int>, rising: bool): (f: seq<bool>)
    ensures |f| == |m|
    ensures forall j :: 0 <= j < |m| ==> f[j] == if rising then m[j] > 0 else m[j] < 0
  {
    seq(|m|, j requires 0 <= j < |m| => if rising then m[j] > 0 else m[j] < 0)
  }

  /** Start times recorded while scanning `i = 1 .. n-1`. */
  function Starts(time: seq<real>, f: seq<bool>, n: nat): seq<real>
    requires n <= |f| <= |time|
  {
    if n <= 1 then []
    else Starts(time, f, n - 1) + (if f[n - 1] && !f[n - 2] then [time[n - 1]] else [])
  }

  /** End times recorded while scanning `i = 1 .. n-1`. */
  function Ends(time: seq<real>, f: seq<bool>, n: nat): seq<real>
    requires n <= |f| <= |time|
  {
    if n <= 1 then []
    else Ends(time, f, n - 1) + (if !f[n - 1] && f[n - 2] then [time[n - 2]] else [])
  }

  /** The "inside an event" flag after scanning `i = 1 .. n-1`: set by a
      start, cleared by an end, untouched otherwise. */
  function InEvent(f: seq<bool>, n: nat): bool
    requires n <= |f|
  {
    if n <= 1 then false
    else if f[n - 1] && !f[n - 2] then true
    else if !f[n - 1] && f[n - 2] then false
    else InEvent(f, n - 1)
  }

  /** All starts, and all ends including the one closed at the last time
      stamp when the scan finishes inside an event. */
  function EventStarts(time: seq<real>, f: seq<bool>): seq<real>
    requires |f| <= |time|
  {
    Starts(time, f, |f|)
  }

  function EventEnds(time: seq<real>, f: seq<bool>): seq<real>
    requires |f| <= |time|
  {
    Ends(time, f, |f|) + (if InEvent(f, |f|) then [time[|time| - 1]] else [])
  }

  function Bit(b: bool): int { if b then 1 else 0 }

  /** The flag is set at the end exactly when the last sample is flagged
      and some earlier sample is not: an event that covers the whole trace
      is never opened. */
  lemma {:induction false} InEventMeaning(f: seq<bool>, n: nat)
    requires 1 <= n <= |f|
    ensures InEvent(f, n) <==> f[n - 1] && exists j :: 0 <= j < n - 1 && !f[j]
  {
    if n > 1 {
      InEventMeaning(f, n - 1);
      if f[n - 1] && !f[n - 2] {
        assert !f[n - 2];
      } else if f[n - 1] && f[n - 2] {
        if InEvent(f, n - 1) {
          var j :| 0 <= j < n - 2 && !f[j];
          assert 0 <= j < n - 1 && !f[j];
        }
      }
    }
  }

  /** Starts minus in-scan ends is the change of the flag between the first
      and the last sample. */
  lemma {:induction false} EdgeBalance(time: seq<real>, f: seq<bool>, n: nat)
    requires 1 <= n <= |f| <= |time|
    ensures |Starts(time, f, n)| - |Ends(time, f, n)| == Bit(f[n - 1]) - Bit(f[0])
  {
    if n > 1 {
      EdgeBalance(time, f, n - 1);
    }
  }

  /** When the first sample is not in an event, every reported start has a
      matching end. */
  lemma StartsAndEndsPair(time: seq<real>, f: seq<bool>)
    requires 1 <= |f| <= |time| && !f[0]
    ensures |EventStarts(time, f)| == |EventEnds(time, f)|
  {
    var n := |f|;
    EdgeBalance(time, f, n);
    InEventMeaning(f, n);
    if f[n - 1] {
      assert 0 <= 0 < n - 1 && !f[0];
    }
  }

  /** A trace labelled throughout reports neither a start nor an end. */
  lemma {:induction false} UnbrokenEventUnreported(time: seq<real>, f: seq<bool>, n: nat)
    requires n <= |f| <= |time|
    requires forall j :: 0 <= j < |f| ==> f[j]
    ensures Starts(time, f, n) == [] && Ends(time, f, n) == [] && !InEvent(f, n)
  {
    if n > 1 {
      UnbrokenEventUnreported(time, f, n - 1);
    }
  }
}
