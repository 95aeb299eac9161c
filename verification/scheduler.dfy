/** The probe loop `ping` (main.go, lines 122-163) with the dial, the clock
    and the cancellation channel replaced by inputs.

    The dials are an oracle: the i-th attempt of the call yields
    `outcomes[i]`. Cancellation is the number of attempts the unbounded loop
    completes before it finds the `done` channel ready at the top of an
    iteration; the channel is only ever looked at there. */
module Scheduler {
  import opened Wrappers
  import opened Session
  import opened Pacing

  /** What one call of the loop did: the final record, how many attempts it
      dialled, how many times it looked at the cancellation channel, and the
      pacing wait it computed after each attempt. */
  datatype LoopRun = LoopRun(session: Ping, dials: nat, polls: nat, waits: seq<int>)

  /** Iterations the counted loop still has to make. */
  function Remaining(p: Ping): nat {
    if p.count > p.probes then p.count - p.probes else 0
  }

  /** The waits a run computes: one per consumed outcome, in order. */
  predicate PacedBy(waits: seq<int>, outcomes: seq<Outcome>) {
    |waits| <= |outcomes| &&
    forall i :: 0 <= i < |waits| ==> waits[i] == PacingWait(outcomes[i].elapsed)
  }

  lemma PrefixStep(p: Ping, outcomes: seq<Outcome>, n: nat)
    requires 0 < n <= |outcomes|
    ensures Replay(p, outcomes[..n]) == Replay(Record(p, outcomes[0]), outcomes[1..][..n - 1])
  {
    assert outcomes[..n][1..] == outcomes[1..][..n - 1];
  }

  /** The counted branch (`for ; p.Count > p.Probes; p.Probes++`): it runs
      until `probes` reaches `count`, and never looks at the channel. */
  function CountedLoop(p: Ping, outcomes: seq<Outcome>): (r: LoopRun)
    requires |outcomes| >= Remaining(p)
    ensures r.dials == Remaining(p)
    ensures r.polls == 0
    ensures r.session == Replay(p, outcomes[..Remaining(p)])
    ensures r.session.probes == (if p.count > p.probes then p.count else p.probes)
    ensures |r.waits| == r.dials && PacedBy(r.waits, outcomes)
    decreases Remaining(p)
  {
    if p.count > p.probes then
      var rest := CountedLoop(Record(p, outcomes[0]), outcomes[1..]);
      PrefixStep(p, outcomes, rest.dials + 1);
      LoopRun(rest.session, rest.dials + 1, rest.polls, [PacingWait(outcomes[0].elapsed)] + rest.waits)
    else
      LoopRun(p, 0, 0, [])
  }

  /** The unbounded branch (`for { select { case <-done: return ... } }`):
      each iteration first looks at the channel; `cancelAfter` further
      attempts are made before it is found ready. */
  function UnboundedLoop(p: Ping, outcomes: seq<Outcome>, cancelAfter: nat): (r: LoopRun)
    requires |outcomes| >= cancelAfter
    ensures r.dials == cancelAfter
    ensures r.polls == cancelAfter + 1
    ensures r.session == Replay(p, outcomes[..cancelAfter])
    ensures r.session.probes == p.probes + cancelAfter
    ensures |r.waits| == r.dials && PacedBy(r.waits, outcomes)
    decreases cancelAfter
  {
    if cancelAfter == 0 then
      LoopRun(p, 0, 1, [])
    else
      var rest := UnboundedLoop(Record(p, outcomes[0]), outcomes[1..], cancelAfter - 1);
      PrefixStep(p, outcomes, cancelAfter);
      ReplayContents(p, outcomes[..cancelAfter]);
      LoopRun(rest.session, rest.dials + 1, rest.polls + 1, [PacingWait(outcomes[0].elapsed)] + rest.waits)
  }

  /** The environment can drive a loop with this count, started after
      `probes` attempts, to an end: enough outcomes for every dial, and in
      unbounded mode a cancellation that arrives. An unbounded run that is
      never cancelled does not return. */
  predicate CanEnd(count: int, probes: nat, outcomes: seq<Outcome>, cancelAfter: Option<nat>) {
    if count == 0 then cancelAfter.Some? && |outcomes| >= cancelAfter.value
    else |outcomes| >= (if count > probes then count - probes else 0)
  }

  predicate Terminates(p: Ping, outcomes: seq<Outcome>, cancelAfter: Option<nat>) {
    CanEnd(p.count, p.probes, outcomes, cancelAfter)
  }

  /** `ping`: the count selects the branch; a non-zero count, negative ones
      included, takes the counted branch. */
  function PingLoop(p: Ping, outcomes: seq<Outcome>, cancelAfter: Option<nat>): (r: LoopRun)
    requires Terminates(p, outcomes, cancelAfter)
    ensures p.count != 0 ==>
      r.dials == Remaining(p) && r.polls == 0 && r.session == Replay(p, outcomes[..Remaining(p)])
    ensures p.count == 0 ==>
      r.dials == cancelAfter.value && r.polls == r.dials + 1 &&
      r.session == Replay(p, outcomes[..cancelAfter.value])
    ensures |r.waits| == r.dials && PacedBy(r.waits, outcomes)
  {
    if p.count == 0 then UnboundedLoop(p, outcomes, cancelAfter.value)
    else CountedLoop(p, outcomes)
  }

  /** A fresh counted run makes exactly `count` attempts (none for a negative
      count), dials exactly that often, and never looks at the channel, so
      any cancellation is ignored. */
  lemma CountedRunsExactly(host: string, port: int, timeout: int, count: int,
                           outcomes: seq<Outcome>, cancelAfter: Option<nat>)
    requires count != 0 && |outcomes| >= count
    ensures var r := PingLoop(NewPing(host, port, timeout, count), outcomes, cancelAfter);
      r.dials == r.session.probes && r.polls == 0 &&
      (count > 0 ==> r.session.probes == count) &&
      (count < 0 ==> r.session.probes == 0) &&
      r == PingLoop(NewPing(host, port, timeout, count), outcomes, None)
  {
  }

  /** A fresh unbounded run cancelled after k attempts returns with
      `probes == k`: attempt k+1 is never dialled, whatever outcomes the
      oracle still holds. */
  lemma CancelStopsBeforeNextAttempt(host: string, port: int, timeout: int,
                                     outcomes: seq<Outcome>, k: nat)
    requires |outcomes| >= k
    ensures var r := PingLoop(NewPing(host, port, timeout, 0), outcomes, Some(k));
      r.session.probes == k && r.dials == k &&
      r == PingLoop(NewPing(host, port, timeout, 0), outcomes[..k], Some(k))
  {
    var p := NewPing(host, port, timeout, 0);
    ReplayContents(p, outcomes[..k]);
    UnboundedPrefixOnly(p, outcomes, k);
  }

  /** The unbounded loop reads no outcome past the cancellation point. */
  lemma {:induction false} UnboundedPrefixOnly(p: Ping, outcomes: seq<Outcome>, k: nat)
    requires |outcomes| >= k
    ensures UnboundedLoop(p, outcomes, k) == UnboundedLoop(p, outcomes[..k], k)
    decreases k
  {
    if k > 0 {
      assert outcomes[..k][1..] == outcomes[1..][..k - 1];
      UnboundedPrefixOnly(Record(p, outcomes[0]), outcomes[1..], k - 1);
    }
  }

  /** The record after k iterations of either branch (a run cancelled after
      k attempts, or counted up to k more attempts) keeps the counter
      invariant, and its samples are the successful times so far in attempt
      order. */
  lemma EveryIterationWellformed(p: Ping, outcomes: seq<Outcome>, k: nat)
    requires Wellformed(p) && k <= |outcomes|
    ensures Wellformed(UnboundedLoop(p, outcomes, k).session)
    ensures Wellformed(CountedLoop(p.(count := p.probes + k), outcomes).session)
    ensures UnboundedLoop(p, outcomes, k).session.responseTimes == p.responseTimes + Successes(outcomes[..k])
    ensures CountedLoop(p.(count := p.probes + k), outcomes).session.responseTimes
         == p.responseTimes + Successes(outcomes[..k])
  {
    ReplayKeepsInvariant(p, outcomes[..k]);
    ReplayContents(p, outcomes[..k]);
    var pc := p.(count := p.probes + k);
    ReplayKeepsInvariant(pc, outcomes[..k]);
    ReplayContents(pc, outcomes[..k]);
  }

  /** Given the same outcomes, the counted and the unbounded branch end with
      the same counters, samples and waits; only the stop condition and the
      channel polls differ. */
  lemma BranchesAgree(p: Ping, outcomes: seq<Outcome>)
    requires p.count == 0 && p.probes + |outcomes| > 0
    ensures var c := CountedLoop(p.(count := p.probes + |outcomes|), outcomes);
      var u := UnboundedLoop(p, outcomes, |outcomes|);
      c.dials == u.dials && c.waits == u.waits &&
      c.session.probes == u.session.probes &&
      c.session.successfulProbes == u.session.successfulProbes &&
      c.session.responseTimes == u.session.responseTimes
  {
    var pc := p.(count := p.probes + |outcomes|);
    var c := CountedLoop(pc, outcomes);
    var u := UnboundedLoop(p, outcomes, |outcomes|);
    ReplayContents(pc, outcomes[..c.dials]);
    ReplayContents(p, outcomes[..u.dials]);
    assert c.waits == u.waits;
  }
}
