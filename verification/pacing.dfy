/** The wait after each attempt that keeps attempts about one second apart
    (main.go, lines 144 and 159). Durations are whole nanoseconds. */
module Pacing {

  /** One second in nanoseconds. */
  const Second: int := 1_000_000_000

  /** The argument handed to the sleep after an attempt that took `elapsed`. */
  function PacingWait(elapsed: int): (w: int)
    ensures w <= 0 <==> elapsed >= Second
    ensures w > 0 ==> w <= Second - elapsed
  {
    Second - elapsed
  }

  /** How long the sleep really lasts: a sleep of zero or a negative
      duration returns at once. */
  function Slept(w: int): (d: nat)
    ensures w <= 0 ==> d == 0
    ensures w > 0 ==> d == w
  {
    if w <= 0 then 0 else w
  }

  /** The attempt's elapsed time plus the sleep it requests: exactly one
      second when the attempt took less than a second, and just the elapsed
      time when it took a second or more. The next attempt therefore starts
      no earlier than one second after this one, or right after it; the
      sleep may overrun and printing adds time, neither of which is modelled. */
  lemma StartToStartGap(elapsed: nat)
    ensures elapsed < Second ==> elapsed + Slept(PacingWait(elapsed)) == Second
    ensures elapsed >= Second ==> elapsed + Slept(PacingWait(elapsed)) == elapsed
  {
  }
}
