# nemtcping probing engine in Dafny

nemtcping is a TCP "ping": it dials `host:port` over and over, times each
connection handshake, and prints the number of packets transmitted and
received, the packet loss, and the min/avg/max round-trip time. This project
models its probing engine in `main.go`. That covers the port argument check,
the `Ping` record, the probe loop `ping` in its counted and unbounded forms,
the pacing wait after each attempt, and the summary arithmetic (min/max fold
and loss percentage). The environment becomes inputs:

- each dial is an oracle `Outcome`: `Failure(elapsed)` or `Success(elapsed)`, in whole nanoseconds;
- SIGINT is an optional count `cancelAfter` of attempts the unbounded loop completes before it finds the `done` channel ready at the top of an iteration;
- the port argument arrives already converted to an integer (`None` when the conversion fails).

Modules (one per file):
- `Port` (port.dfy) holds the port rule.
- `Session` (session.dfy) holds the `Ping` record, the bookkeeping of one iteration (`Record`) and its fold `Replay`.
- `Pacing` (pacing.dfy) holds the sleep after each attempt.
- `Scheduler` (scheduler.dfy) holds the two loop branches.
- `Summary` (summary.dfy) holds the statistics.
- `Program` (program.dfy) chains port check, loop and statistics into the `-p` path of `main`.
- `Wrappers` (wrappers.dfy) holds `Option` and `Result`.

Behaviour of the code that the model keeps, edge cases included:
- Any non-zero count takes the counted branch, so a negative count makes no attempt.
- The counted branch never looks at the cancellation channel.
- With no successful sample, the minimum is `1e9·timeout` and the maximum is 0.
- The minimum starts at `1e9·timeout`, so a sample above it never becomes the minimum. `Summary.Summarize` and `Program.PingCommand` compute min/max with exactly this fold. `Summary.IntendedSummarize` is a separate variant that uses the smallest sample (see "## Findings").
- A run with no attempt has no statistics. The loss division by zero panics, modelled as `Err(DivisionByZero)`.
- The loss is truncated, which rounds the loss up, not to the nearest value.
- The pacing sleep receives `1s − elapsed` unclamped. A sleep of zero or a negative duration returns at once, which `Pacing.Slept` models.

## Model

| member | source | states |
|---|---|---|
| `Port.PortFromArgs` | main.go:65-71 | a single port argument is accepted iff it converts to an integer in 1..65535, and is then used unchanged; with no port argument (or two or more extra arguments) the port stays 80 |
| `Session.NewPing` | main.go:85 | the record the program creates is well formed (no successes beyond attempts, one time per success) and starts with no attempts, no successes and no samples |
| `Session.Record` | main.go:133-143 | one iteration adds one attempt; a success adds one success and appends its time; a failure leaves successes and samples unchanged; the counter invariant is preserved and the configuration untouched |
| `Session.ReplayContents` | main.go:148-158 | after any sequence of iterations, probes grew by the number of outcomes, successes by the number of successful ones, and the samples by exactly the successful times in attempt order |
| `Session.ReplayKeepsInvariant` | main.go:26-34 | `SuccessfulProbes ≤ Probes` and `len(ResponseTimes) == SuccessfulProbes` hold after any number of iterations |
| `Pacing.PacingWait` | main.go:144 | the wait after an attempt is non-positive exactly when the attempt took a second or more, and otherwise no more than what is left of the second |
| `Pacing.StartToStartGap` | main.go:134-144 | the attempt's elapsed time plus the sleep it requests is exactly one second when the attempt took less than a second, and just the elapsed time otherwise, so the next attempt starts no earlier than one second after this one, or with no added wait |
| `Scheduler.CountedLoop` | main.go:148-160 | the counted branch dials exactly `count − probes` times (none if not positive), ends with `probes == max(count, probes)`, never polls the channel, and its record is the replay of the outcomes it consumed, with one pacing wait per attempt |
| `Scheduler.UnboundedLoop` | main.go:127-146 | the unbounded branch cancelled after k attempts dials exactly k times, polls the channel k+1 times, and its record is the replay of those k outcomes |
| `Scheduler.PingLoop` | main.go:122-163 | a zero count selects the unbounded branch and any other count the counted one; both share the same per-iteration bookkeeping |
| `Scheduler.CountedRunsExactly` | main.go:148-160 | a fresh counted run makes exactly `count` attempts (zero for a negative count), never polls the channel, and so ignores any cancellation |
| `Scheduler.CancelStopsBeforeNextAttempt` | main.go:128-133 | a fresh unbounded run cancelled after k attempts returns with `Probes == k`, and the outcome of attempt k+1 is never consumed |
| `Scheduler.UnboundedPrefixOnly` | main.go:128-133 | the unbounded loop reads no outcome past the cancellation point |
| `Scheduler.EveryIterationWellformed` | main.go:127-160 | after k iterations of either branch (unbounded cancelled after k, or counted up to k more attempts) the counter invariant holds and the samples are the successful times so far, in attempt order |
| `Scheduler.BranchesAgree` | main.go:133-159 | on the same outcomes, the counted and unbounded branches end with the same probes, successes, samples and pacing waits |
| `Summary.Int64` | main.go:88 | 64-bit two's-complement wrap-around: the result is in the int64 range, congruent to the input modulo 2^64, and equal to it when it already fits |
| `Summary.Sentinel` | main.go:88 | the starting minimum is `1e9·timeout` nanoseconds whenever that product fits in 64 bits (negative timeouts included), and always lies in the int64 range |
| `Summary.FoldFrom` | main.go:89-96 | the fold's minimum and maximum bound every sample and the start, and each is either its start value or one of the samples |
| `Summary.SourceExtremes` | main.go:87-96 | the program's fold: with no samples it gives `(1e9·timeout, 0)`; its minimum is the sentinel or a sample and at most the sentinel, its maximum is 0 or a sample and at least 0, and both bound every sample |
| `Summary.SampleExtremes` | main.go:87-96 | the intended fold: with samples, minimum and maximum are samples and bound every sample; with none, the program's starting values |
| `Summary.SourceExtremesInRange` | main.go:87-96 | when every sample lies in 0..1e9·timeout, the program's fold returns the actual smallest and largest samples |
| `Summary.ZeroTimeoutHidesMinimum` | main.go:88-95 | with timeout 0 and positive samples, the program's minimum stays 0, which is not the smallest sample |
| `Summary.LossPercent` | main.go:101 | the loss is undefined (division by zero) exactly when no attempt was made |
| `Summary.LossBounds` | main.go:101 | for `0 ≤ S ≤ P`, `P > 0` the loss lies in 0..100, is 0 exactly when `S == P`, and is 100 when `S == 0` |
| `Summary.LossRoundsUp` | main.go:101 | the truncating division makes the loss the exact loss percentage rounded up to a whole number |
| `Summary.FullLossExactly` | main.go:101 | 100% loss is reported exactly when fewer than one attempt in a hundred succeeded |
| `Summary.Summarize` | main.go:87-101 | a run with no attempt has no statistics; otherwise transmitted and received are the counters, the loss is `100 − (S·100)/P` (in 0..100, 0 exactly when all succeeded, 100 with no success), and min/max are the program's fold: each a sample or its starting value, bounding every sample, and both samples when all samples lie within the sentinel |
| `Summary.IntendedSummarize` | main.go:87-101 | the corrected statistics: same counters and loss as the program, and with samples min/max are always the smallest and largest sample |
| `Summary.SummariesAgreeInRange` | main.go:87-96 | the program's statistics equal the corrected ones whenever every sample lies within `1e9·timeout` |
| `Program.PingCommand` | main.go:65-101 | the command fails with an invalid port exactly when the port rule refuses the arguments, and with the division by zero exactly when no attempt is made; otherwise it reports the attempts made, the successes among the consumed outcomes, the loss `100 − (S·100)/P`, and min/max as the program's fold over the successful times |
| `Program.FreshRunSession` | main.go:85-86 | a fresh run ends with one attempt per consumed outcome and exactly the successful times among them, in order |
| `Program.AllSucceed` | main.go:84-101 | n attempts that all succeed in rtt report n transmitted, n received, 0% loss, max = rtt, and min = rtt unless `1e9·timeout` is smaller, in which case min stays at `1e9·timeout` |
| `Program.AllFail` | main.go:84-101 | n attempts that all fail report n transmitted, 0 received, 100% loss, min `1e9·timeout` and max 0 |
| `Program.CancelledRun` | main.go:127-133 | an unbounded run cancelled after k > 0 attempts reports k transmitted; cancelled before its first attempt it has no statistics |

## Left out

- Name resolution (`net.LookupIP`) and the dial (`net.DialTimeout`) are network I/O. Each dial is an oracle outcome, and the resolved address is not modelled.
- `time.Now`, `time.Since` and `time.Sleep` are the clock. Only the elapsed time each outcome reports and the computed wait are modelled.
- The SIGINT handler goroutine and the `sigs`/`done` channels are concurrency. Cancellation is an input checked only at the top of unbounded iterations.
- Scheduler.PingLoop: requires a cancellation in unbounded mode, because an unbounded run that is never cancelled does not return. The per-iteration lemmas on `Session.Replay` cover every finite prefix of such a run.
- The median printed as "avg" (`stats.Median`) is an external library whose code is not part of this model.
- Flag parsing, `strconv.Atoi` and the usage exit for a missing host are library or CLI code. The port rule starts from already converted integers.
- All printing, the `say`/quiet switch, and the float conversions to milliseconds (`float32(x)/1e6`, `%.1f`, `%.3f`) are presentation.
- Response times are stored as `float64` nanoseconds in the program and as integers here. The conversion is exact below 2^53 ns, about 104 days.
- The `float64` conversion of the sentinel is not modelled. It is exact while `1e9·timeout` fits in 53 bits.
- The plain open/closed check without `-p` (one dial, then exit status 0 or 1) has no logic beyond the I/O.
- Summary.Sentinel: assumes a 64-bit platform where Go's `int` is int64. On a 32-bit build (386, arm) `1000000000 * timeout` already wraps at 2^31 for `-t 3`, and this wrap is not modelled.
- Summary.Int64: models 64-bit wrap-around only, for the same reason.
- Session.Record: the wrap-around of `Probes++`, `SuccessfulProbes++` and `SuccessfulProbes*100` is not modelled. On a 64-bit platform it needs more than 9·10^16 attempts; on a 32-bit one `SuccessfulProbes*100` overflows after about 2.1·10^7 successes.
- Pacing.Slept: treats the sleep as lasting exactly the requested time. `time.Sleep` may pause longer, and the progress line printed between the measurement and the sleep takes time too, so the real start-to-start gap is at least what the model states.

## Findings

| source | as written | input that shows it | evidently intended | confidence | as-written member | corrected member |
|---|---|---|---|---|---|---|
| main.go:88-95 | the minimum starts at `1e9·timeout` and only a smaller sample can lower it | `-p -t 0`: the dial then has no timeout, and one success after 5 ms reports min 0.000 ms | the minimum is the smallest successful sample | medium; not executed | `Summary.SourceExtremes` (with `Summary.ZeroTimeoutHidesMinimum`) | `Summary.SampleExtremes` (with `Summary.SourceExtremesInRange`, and `Summary.IntendedSummarize` with `Summary.SummariesAgreeInRange`) |
