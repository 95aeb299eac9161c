/** The statistics computed once the probe loop returns (main.go, lines
    87-101): the min/max fold over the response times and the loss
    percentage. The median ("avg") is not part of this model. */
module Summary {
  import opened Wrappers
  import opened Session

  const NanosPerSecond: int := 1_000_000_000
  const TwoTo63: int := 0x8000_0000_0000_0000
  const TwoTo64: int := 0x1_0000_0000_0000_0000

  /** Two's-complement wrap-around of Go's `int` on a 64-bit platform, where
      it is 64 bits wide (the model assumes such a platform). */
  function Int64(x: int): (r: int)
    ensures -TwoTo63 <= r < TwoTo63
    ensures -TwoTo63 <= x < TwoTo63 ==> r == x
    ensures (x - r) % TwoTo64 == 0
  {
    var m := x % TwoTo64;
    if m >= TwoTo63 then m - TwoTo64 else m
  }

  /** The starting value of the minimum: the timeout in nanoseconds,
      multiplied in 64-bit arithmetic. */
  function Sentinel(timeout: int): (s: int)
    ensures -TwoTo63 <= NanosPerSecond * timeout < TwoTo63 ==> s == NanosPerSecond * timeout
    ensures -TwoTo63 <= s < TwoTo63
  {
    Int64(NanosPerSecond * timeout)
  }

  /** A running minimum and maximum. */
  datatype Extremes = Extremes(lo: int, hi: int)

  /** One pass of the fold body: lower the minimum, raise the maximum. */
  function FoldStep(acc: Extremes, v: int): Extremes {
    Extremes(if v < acc.lo then v else acc.lo, if v > acc.hi then v else acc.hi)
  }

  /** The fold over the samples from a given start: the result bounds every
      sample and the start, and each end is the start or one of the samples. */
  function FoldFrom(acc: Extremes, ts: seq<int>): (r: Extremes)
    ensures r.lo <= acc.lo && acc.hi <= r.hi
    ensures forall i :: 0 <= i < |ts| ==> r.lo <= ts[i] && ts[i] <= r.hi
    ensures r.lo == acc.lo || r.lo in ts
    ensures r.hi == acc.hi || r.hi in ts
    decreases |ts|
  {
    if |ts| == 0 then acc
    else
      var r := FoldFrom(FoldStep(acc, ts[0]), ts[1..]);
      assert forall v :: v in ts[1..] ==> v in ts;
      r
  }

  /** The fold as the program writes it: the maximum starts at 0 and the
      minimum at the timeout in nanoseconds. */
  function SourceExtremes(ts: seq<int>, timeout: int): (r: Extremes)
    ensures |ts| == 0 ==> r == Extremes(Sentinel(timeout), 0)
    ensures r.lo <= Sentinel(timeout) && 0 <= r.hi
    ensures forall i :: 0 <= i < |ts| ==> r.lo <= ts[i] && ts[i] <= r.hi
    ensures r.lo == Sentinel(timeout) || r.lo in ts
    ensures r.hi == 0 || r.hi in ts
  {
    FoldFrom(Extremes(Sentinel(timeout), 0), ts)
  }

  /** The evidently intended fold: with samples, the minimum and maximum are
      the smallest and largest sample; without, the program's starting values
      are kept. */
  function SampleExtremes(ts: seq<int>, timeout: int): (r: Extremes)
    ensures |ts| == 0 ==> r == Extremes(Sentinel(timeout), 0)
    ensures |ts| > 0 ==> r.lo in ts && r.hi in ts
    ensures forall i :: 0 <= i < |ts| ==> r.lo <= ts[i] && ts[i] <= r.hi
  {
    if |ts| == 0 then Extremes(Sentinel(timeout), 0)
    else
      assert forall v :: v in ts[1..] ==> v in ts;
      FoldFrom(Extremes(ts[0], ts[0]), ts[1..])
  }

  /** Whenever every sample lies in 0 .. timeout, the program's fold finds the
      true smallest and largest sample: it agrees with the intended fold. */
  lemma SourceExtremesInRange(ts: seq<int>, timeout: int)
    ensures (forall i :: 0 <= i < |ts| ==> 0 <= ts[i] <= Sentinel(timeout)) ==>
      SourceExtremes(ts, timeout) == SampleExtremes(ts, timeout)
    ensures (|ts| > 0 && forall i :: 0 <= i < |ts| ==> 0 <= ts[i] <= Sentinel(timeout)) ==>
      SourceExtremes(ts, timeout).lo in ts && SourceExtremes(ts, timeout).hi in ts
  {
    if |ts| > 0 && forall i :: 0 <= i < |ts| ==> 0 <= ts[i] <= Sentinel(timeout) {
      var s := SourceExtremes(ts, timeout);
      var c := SampleExtremes(ts, timeout);
      var i :| 0 <= i < |ts| && ts[i] == c.lo;
      var j :| 0 <= j < |ts| && ts[j] == c.hi;
      assert s.lo <= c.lo && c.hi <= s.hi;
      assert s.lo == Sentinel(timeout) || s.lo in ts;
      assert s.hi == 0 || s.hi in ts;
    }
  }

  /** With a zero timeout the minimum starts at 0, so no positive sample can
      lower it: the reported minimum is 0 although every sample is larger. */
  lemma ZeroTimeoutHidesMinimum(ts: seq<int>)
    requires |ts| > 0
    requires forall i :: 0 <= i < |ts| ==> ts[i] > 0
    ensures SourceExtremes(ts, 0).lo == 0
    ensures SampleExtremes(ts, 0).lo > 0
    ensures SourceExtremes(ts, 0) != SampleExtremes(ts, 0)
  {
    var s := SourceExtremes(ts, 0);
    assert s.lo == Sentinel(0) || s.lo in ts;
  }

  /** Why the loss cannot be computed: the integer division by zero panics. */
  datatype SummaryError = DivisionByZero

  /** `100 - (received*100)/transmitted` in integer arithmetic; the division
      truncates, which for these non-negative counters is Dafny's division.
      Zero attempts divide by zero. */
  function LossPercent(received: nat, transmitted: nat): (r: Option<int>)
    ensures r.None? <==> transmitted == 0
  {
    if transmitted == 0 then None
    else Some(100 - (received * 100) / transmitted)
  }

  lemma MulMono(a: int, b: int, c: nat)
    requires a <= b
    ensures a * c <= b * c
  {
  }

  /** With at least one attempt and no more successes than attempts, the
      loss lies in 0..100; it is 0 exactly when every attempt succeeded, and
      100 when none did. */
  lemma LossBounds(received: nat, transmitted: nat)
    requires 0 < transmitted
    ensures received == 0 ==> LossPercent(received, transmitted) == Some(100)
    ensures received <= transmitted ==>
      (LossPercent(received, transmitted).Some? && 0 <= LossPercent(received, transmitted).value <= 100)
    ensures received <= transmitted ==> (LossPercent(received, transmitted) == Some(0) <==> received == transmitted)
  {
    var p := transmitted;
    var q := (received * 100) / p;
    var m := (received * 100) % p;
    assert received * 100 == q * p + m && 0 <= m < p;
    if received <= p && q >= 101 {
      MulMono(received, p, 100);
      MulMono(101, q, p);
      assert false;
    }
    if q < 0 {
      MulMono(q, -1, p);
      assert false;
    }
    if q == 100 {
      assert 100 * received == 100 * p + m;
    }
    if received == p && q <= 99 {
      MulMono(q, 99, p);
      assert false;
    }
    if received == 0 && q >= 1 {
      MulMono(1, q, p);
      assert false;
    }
  }

  /** The truncation rounds the loss up: the reported percentage is the
      smallest whole number at or above the exact loss. */
  lemma LossRoundsUp(received: nat, transmitted: nat)
    requires 0 < transmitted && received <= transmitted
    ensures var l := LossPercent(received, transmitted).value;
      (l - 1) * transmitted < 100 * (transmitted - received) <= l * transmitted
  {
    var p := transmitted;
    var q := (received * 100) / p;
    var m := (received * 100) % p;
    assert received * 100 == q * p + m && 0 <= m < p;
    var l := 100 - q;
    assert l * p == 100 * p - q * p;
    assert (l - 1) * p == l * p - p;
  }

  /** A full 100% loss is reported exactly when fewer than one attempt in a
      hundred succeeded, not only when none did. */
  lemma FullLossExactly(received: nat, transmitted: nat)
    requires 0 < transmitted && received <= transmitted
    ensures LossPercent(received, transmitted) == Some(100) <==> 100 * received < transmitted
  {
    var p := transmitted;
    var q := (received * 100) / p;
    var m := (received * 100) % p;
    assert received * 100 == q * p + m && 0 <= m < p;
    LossBounds(received, p);
    if q >= 1 {
      MulMono(1, q, p);
    }
  }

  /** The printed statistics line: attempts, successes, loss, and the
      round-trip minimum and maximum in nanoseconds. */
  datatype Report = Report(transmitted: nat, received: nat, lossPercent: int, minRtt: int, maxRtt: int)

  /** The statistics of a finished run, as the program computes them. A run
      with no attempt fails on the loss division before the statistics line
      is printed. The minimum and maximum come from the program's fold: each
      is a sample or its starting value, and both are samples whenever every
      sample lies in 0 .. `Sentinel(timeout)`. */
  function Summarize(p: Ping): (r: Result<Report, SummaryError>)
    ensures r.Err? <==> p.probes == 0
    ensures r.Ok? ==> r.value.transmitted == p.probes && r.value.received == p.successfulProbes
    ensures r.Ok? ==> LossPercent(p.successfulProbes, p.probes) == Some(r.value.lossPercent)
    ensures r.Ok? && Wellformed(p) ==> 0 <= r.value.lossPercent <= 100
    ensures r.Ok? && Wellformed(p) ==> (r.value.lossPercent == 0 <==> p.successfulProbes == p.probes)
    ensures r.Ok? && p.successfulProbes == 0 ==> r.value.lossPercent == 100
    ensures r.Ok? && |p.responseTimes| == 0 ==>
      r.value.minRtt == Sentinel(p.timeout) && r.value.maxRtt == 0
    ensures r.Ok? ==>
      r.value.minRtt <= Sentinel(p.timeout) && 0 <= r.value.maxRtt &&
      (r.value.minRtt == Sentinel(p.timeout) || r.value.minRtt in p.responseTimes) &&
      (r.value.maxRtt == 0 || r.value.maxRtt in p.responseTimes) &&
      forall i :: 0 <= i < |p.responseTimes| ==>
        r.value.minRtt <= p.responseTimes[i] <= r.value.maxRtt
    ensures (r.Ok? && |p.responseTimes| > 0 &&
             forall i :: 0 <= i < |p.responseTimes| ==> p.responseTimes[i] <= Sentinel(p.timeout)) ==>
      r.value.minRtt in p.responseTimes && r.value.maxRtt in p.responseTimes
  {
    match LossPercent(p.successfulProbes, p.probes)
    case None => Err(DivisionByZero)
    case Some(loss) =>
      LossBounds(p.successfulProbes, p.probes);
      SourceExtremesInRange(p.responseTimes, p.timeout);
      var e := SourceExtremes(p.responseTimes, p.timeout);
      Ok(Report(p.probes, p.successfulProbes, loss, e.lo, e.hi))
  }

  /** The statistics with the intended fold: same counters and loss as the
      program, but with samples the minimum and maximum are always the
      smallest and largest sample. */
  function IntendedSummarize(p: Ping): (r: Result<Report, SummaryError>)
    ensures r.Err? <==> p.probes == 0
    ensures r.Ok? ==>
      (Summarize(p).Ok? &&
       r.value.transmitted == Summarize(p).value.transmitted &&
       r.value.received == Summarize(p).value.received &&
       r.value.lossPercent == Summarize(p).value.lossPercent)
    ensures r.Ok? && |p.responseTimes| == 0 ==> r == Summarize(p)
    ensures r.Ok? && |p.responseTimes| > 0 ==>
      r.value.minRtt in p.responseTimes && r.value.maxRtt in p.responseTimes &&
      forall i :: 0 <= i < |p.responseTimes| ==>
        r.value.minRtt <= p.responseTimes[i] <= r.value.maxRtt
  {
    match LossPercent(p.successfulProbes, p.probes)
    case None => Err(DivisionByZero)
    case Some(loss) =>
      var e := SampleExtremes(p.responseTimes, p.timeout);
      Ok(Report(p.probes, p.successfulProbes, loss, e.lo, e.hi))
  }

  /** The program's statistics and the intended ones agree whenever every
      sample lies in 0 .. `Sentinel(timeout)`. */
  lemma SummariesAgreeInRange(p: Ping)
    requires forall i :: 0 <= i < |p.responseTimes| ==> p.responseTimes[i] <= Sentinel(p.timeout)
    ensures IntendedSummarize(p) == Summarize(p)
  {
    SourceExtremesInRange(p.responseTimes, p.timeout);
  }
}
