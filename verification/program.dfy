/** The `-p` path of the program (main.go, lines 65-71, 84-101): choose the
    port, run the probe loop on a fresh `Ping` record, and compute the
    statistics. DNS resolution, the signal goroutine and all printing are
    replaced by the inputs of `PingCommand`. */
module Program {
  import opened Wrappers
  import opened Port
  import opened Session
  import opened Scheduler
  import opened Summary

  /** How the command ends without statistics: a refused port argument
      (exit status 255), or the division by zero of a run with no attempt. */
  datatype CommandError = InvalidPort | LossDivisionByZero

  /** Attempts a fresh run makes. */
  function Attempts(count: int, cancelAfter: Option<nat>): nat
    requires count == 0 ==> cancelAfter.Some?
  {
    if count > 0 then count else if count < 0 then 0 else cancelAfter.value
  }

  /** The `-p` path end to end, with the statistics as the program
      computes them. */
  function PingCommand(host: string, extra: seq<Option<int>>, timeout: int, count: int,
                       outcomes: seq<Outcome>, cancelAfter: Option<nat>): (r: Result<Report, CommandError>)
    requires CanEnd(count, 0, outcomes, cancelAfter)
    ensures r == Err(InvalidPort) <==> PortFromArgs(extra).Err?
    ensures PortFromArgs(extra).Ok? ==>
      (r == Err(LossDivisionByZero) <==> Attempts(count, cancelAfter) == 0)
    ensures r.Ok? ==>
      var n := Attempts(count, cancelAfter);
      var ts := Successes(outcomes[..n]);
      r.value.transmitted == n &&
      r.value.received == SuccessCount(outcomes[..n]) <= n &&
      LossPercent(r.value.received, n) == Some(r.value.lossPercent) &&
      0 <= r.value.lossPercent <= 100 &&
      (r.value.lossPercent == 0 <==> r.value.received == n) &&
      r.value.minRtt == SourceExtremes(ts, timeout).lo &&
      r.value.maxRtt == SourceExtremes(ts, timeout).hi
  {
    match PortFromArgs(extra)
    case Err(_) => Err(InvalidPort)
    case Ok(port) =>
      var p := NewPing(host, port, timeout, count);
      var run := PingLoop(p, outcomes, cancelAfter);
      FreshRunSession(p, outcomes, cancelAfter);
      match Summarize(run.session)
      case Err(_) => Err(LossDivisionByZero)
      case Ok(report) => Ok(report)
  }

  /** The record a fresh run ends with holds one attempt per dial, and
      exactly the successful times among the outcomes it consumed. */
  lemma FreshRunSession(p: Ping, outcomes: seq<Outcome>, cancelAfter: Option<nat>)
    requires p.probes == 0 && p.successfulProbes == 0 && p.responseTimes == []
    requires CanEnd(p.count, 0, outcomes, cancelAfter)
    ensures var n := Attempts(p.count, cancelAfter);
      var q := PingLoop(p, outcomes, cancelAfter).session;
      q.timeout == p.timeout && q.probes == n &&
      q.successfulProbes == SuccessCount(outcomes[..n]) <= n &&
      q.responseTimes == Successes(outcomes[..n]) && Wellformed(q)
  {
    var n := Attempts(p.count, cancelAfter);
    assert PingLoop(p, outcomes, cancelAfter).session == Replay(p, outcomes[..n]);
    ReplayContents(p, outcomes[..n]);
    SuccessesLength(outcomes[..n]);
  }

  /** A counted run against a target that always answers in `rtt`: no loss,
      the maximum is `rtt`, and the minimum is `rtt` unless the starting
      minimum `Sentinel(timeout)` is already smaller, in which case it stays. */
  lemma AllSucceed(host: string, timeout: int, n: nat, rtt: nat, outcomes: seq<Outcome>)
    requires n > 0 && |outcomes| == n
    requires forall i :: 0 <= i < n ==> outcomes[i] == Success(rtt)
    ensures PingCommand(host, [], timeout, n, outcomes, None)
         == Ok(Report(n, n, 0, if rtt < Sentinel(timeout) then rtt else Sentinel(timeout), rtt))
  {
    var p := NewPing(host, DefaultPort, timeout, n);
    assert outcomes[..n] == outcomes;
    ReplayContents(p, outcomes);
    AllSucceedSamples(outcomes, rtt);
    var ts := Successes(outcomes);
    var e := SourceExtremes(ts, timeout);
    assert ts[0] == rtt;
    assert e.lo in ts ==> e.lo == rtt;
    assert e.hi in ts ==> e.hi == rtt;
  }

  /** A counted run against a target that never answers: 100% loss, and the
      minimum and maximum keep their starting values. */
  lemma AllFail(host: string, timeout: int, n: nat, outcomes: seq<Outcome>)
    requires n > 0 && |outcomes| == n
    requires forall i :: 0 <= i < n ==> outcomes[i].Failure?
    ensures PingCommand(host, [], timeout, n, outcomes, None) == Ok(Report(n, 0, 100, Sentinel(timeout), 0))
  {
    var p := NewPing(host, DefaultPort, timeout, n);
    assert outcomes[..n] == outcomes;
    ReplayContents(p, outcomes);
    AllFailSamples(outcomes);
  }

  /** An unbounded run cancelled after k attempts reports k attempts; one
      cancelled before its first attempt has no statistics at all. */
  lemma CancelledRun(host: string, timeout: int, outcomes: seq<Outcome>, k: nat)
    requires |outcomes| >= k
    ensures k == 0 ==> PingCommand(host, [], timeout, 0, outcomes, Some(k)) == Err(LossDivisionByZero)
    ensures k > 0 ==> PingCommand(host, [], timeout, 0, outcomes, Some(k)).Ok?
    ensures k > 0 ==> PingCommand(host, [], timeout, 0, outcomes, Some(k)).value.transmitted == k
  {
  }
}
