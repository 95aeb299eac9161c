/** The `Ping` record of one probing run and the bookkeeping that every
    iteration of the probe loop performs on it (main.go, lines 26-34,
    133-143 and 149-158). */
module Session {

  /** The result of one connection attempt, as the dial and the clock report
      it: the attempt failed or succeeded, and took `elapsed` nanoseconds
      either way (the monotonic clock never runs backwards). */
  datatype Outcome = Failure(elapsed: nat) | Success(elapsed: nat)

  /** The `Ping` record. `count == 0` asks for an unbounded run. Response
      times are whole nanoseconds. */
  datatype Ping = Ping(
    host: string,
    port: int,
    timeout: int,
    count: int,
    successfulProbes: nat,
    responseTimes: seq<nat>,
    probes: nat)

  /** The record as the program creates it, before the first attempt. */
  function NewPing(host: string, port: int, timeout: int, count: int): (p: Ping)
    ensures Wellformed(p)
    ensures p.probes == 0 && p.successfulProbes == 0 && p.responseTimes == []
    ensures p.host == host && p.port == port && p.timeout == timeout && p.count == count
  {
    Ping(host, port, timeout, count, 0, [], 0)
  }

  /** The counters agree with the samples: no more successes than attempts,
      and one response time per success. */
  predicate Wellformed(p: Ping) {
    p.successfulProbes <= p.probes && |p.responseTimes| == p.successfulProbes
  }

  /** The configuration part of the record, which the loop never touches. */
  predicate SameConfig(p: Ping, q: Ping) {
    p.host == q.host && p.port == q.port && p.timeout == q.timeout && p.count == q.count
  }

  /** The bookkeeping of one loop iteration, identical in both branches: one
      more attempt, and on success one more success with its time appended. */
  function Record(p: Ping, o: Outcome): (q: Ping)
    ensures SameConfig(p, q)
    ensures Wellformed(p) ==> Wellformed(q)
    ensures q.probes == p.probes + 1
    ensures o.Failure? ==> q.successfulProbes == p.successfulProbes && q.responseTimes == p.responseTimes
    ensures o.Success? ==> q.successfulProbes == p.successfulProbes + 1
    ensures o.Success? ==> q.responseTimes == p.responseTimes + [o.elapsed]
  {
    match o
    case Failure(_) => p.(probes := p.probes + 1)
    case Success(e) =>
      p.(probes := p.probes + 1,
         successfulProbes := p.successfulProbes + 1,
         responseTimes := p.responseTimes + [e])
  }

  /** The record after a sequence of iterations, in attempt order. */
  function Replay(p: Ping, os: seq<Outcome>): Ping
    decreases |os|
  {
    if |os| == 0 then p else Replay(Record(p, os[0]), os[1..])
  }

  /** Reference definition: the times of the successful attempts, in attempt
      order. */
  function Successes(os: seq<Outcome>): seq<nat>
    decreases |os|
  {
    if |os| == 0 then []
    else if os[0].Success? then [os[0].elapsed] + Successes(os[1..])
    else Successes(os[1..])
  }

  /** Number of successful outcomes, counted independently of their times. */
  function SuccessCount(os: seq<Outcome>): nat
    decreases |os|
  {
    if |os| == 0 then 0 else (if os[0].Success? then 1 else 0) + SuccessCount(os[1..])
  }

  lemma {:induction false} SuccessesLength(os: seq<Outcome>)
    ensures |Successes(os)| == SuccessCount(os) <= |os|
    decreases |os|
  {
    if |os| > 0 {
      SuccessesLength(os[1..]);
    }
  }

  /** After any number of iterations: one attempt per outcome, one success
      per successful outcome, and the response times extended by exactly the
      successful times in attempt order; the configuration is untouched. */
  lemma {:induction false} ReplayContents(p: Ping, os: seq<Outcome>)
    ensures SameConfig(p, Replay(p, os))
    ensures Replay(p, os).probes == p.probes + |os|
    ensures Replay(p, os).successfulProbes == p.successfulProbes + SuccessCount(os)
    ensures Replay(p, os).responseTimes == p.responseTimes + Successes(os)
    decreases |os|
  {
    if |os| > 0 {
      ReplayContents(Record(p, os[0]), os[1..]);
      if os[0].Success? {
        assert p.responseTimes + Successes(os)
            == (p.responseTimes + [os[0].elapsed]) + Successes(os[1..]);
      }
    }
  }

  /** The counter invariant holds after every iteration. */
  lemma ReplayKeepsInvariant(p: Ping, os: seq<Outcome>)
    requires Wellformed(p)
    ensures Wellformed(Replay(p, os))
  {
    ReplayContents(p, os);
    SuccessesLength(os);
  }

  /** When every attempt succeeds in `rtt`, every attempt contributes one
      sample, and each sample is `rtt`. */
  lemma {:induction false} AllSucceedSamples(os: seq<Outcome>, rtt: nat)
    requires forall i :: 0 <= i < |os| ==> os[i] == Success(rtt)
    ensures SuccessCount(os) == |os| && |Successes(os)| == |os|
    ensures forall i :: 0 <= i < |Successes(os)| ==> Successes(os)[i] == rtt
    decreases |os|
  {
    if |os| > 0 {
      AllSucceedSamples(os[1..], rtt);
    }
  }

  /** When every attempt fails, no sample is recorded. */
  lemma {:induction false} AllFailSamples(os: seq<Outcome>)
    requires forall i :: 0 <= i < |os| ==> os[i].Failure?
    ensures SuccessCount(os) == 0 && Successes(os) == []
    decreases |os|
  {
    if |os| > 0 {
      AllFailSamples(os[1..]);
    }
  }
}
