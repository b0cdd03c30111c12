# PingVe agent — a Dafny model

This project models the logic of the PingVe monitoring agent. The agent
connects to a PingVe server over a gRPC stream, authenticates with a token,
and runs the ping and MTR tasks the server sends. It streams each task's
results back as partial messages followed by a final one. The same binary
can install itself as a systemd service.

The model covers four parts:

- **The MTR hop walk** (`executor.dfy`, module `Executor`).
  - `HopTable` is a class holding the table of 30 hop records and the records passed to the per-hop callback.
  - Its methods `Probe` and `RunCycle` update that table in place, one TTL at a time.
  - `DoMtr` runs 20 cycles over a fresh table.
  - Each method is proved against the specification functions `Step`, `WalkTo`, `CycleOf` and `RunTo`, and the lemmas are stated about those functions.
  - The ICMP socket is an *oracle*: a function from (cycle, ttl) to what that iteration observed (marshal or write failure, failed read (the deadline or any other read error), parse failure, other ICMP type, Time Exceeded or Echo Reply with an RTT and a peer).
  - RTTs are exact reals, in milliseconds.
- **The worker** (`worker.dfy`, module `Worker`).
  - `Start` is the reconnect loop with its capped doubling backoff.
  - `ConnectAndLoop` is one session: the Auth send, the auth gate and the read loop.
  - `HandleMessage`, `HandlePing` and `HandleMtr` map one task's executor run to the result messages sent for it.
  - The transport is a trace of what dialing, sending and each receive returned.
- **The installer and entry point** (`agent.dfy`, module `Agent`, and `text.dfy`, module `Text`).
  - `RunInstall` models the guard checks and the ordered side effects.
  - `Render` models the three `strings.ReplaceAll` passes over the unit template. `Text.ReplaceAll` models Go's leftmost, non-overlapping replacement.
  - `ParseFlags` and `ChooseMode` model the flag defaults and the choice between installing and running.
- **The configuration loader** (`config.dfy`, module `Config`). `LoadConfig` is a function of the environment map.

`Agent.UnitEnvironmentNotRead` shows the installed unit does not configure the agent:

- The unit sets `AGENT_TOKEN`, `SERVER_ADDR` and `AGENT_HOSTNAME`.
- `LoadConfig` reads `PINGVE_SERVER`, `PINGVE_TOKEN` and `PINGVE_SECURE`.
- So, when the token, server and hostname contain no whitespace, quote, backslash, `%` or control character, an agent started by the installed unit alone gets an empty token and an empty server address.

The model keeps the template and the loader as written.

## Model

| member | source | states |
|---|---|---|
| Executor.InitialTable | internal/executor/executors.go:92-96 | The table holds exactly hops 1..30. Each has Hop = i, Best = 999999, Worst = 0, Sent = 0, Loss = 0, no IP and no RTTs. |
| Executor.HopTable.constructor | internal/executor/executors.go:92-96 | The initialisation loop builds exactly that table, and there are no callbacks yet. |
| Executor.LossBounds | internal/executor/executors.go:205 | With 1 <= Sent and 0 <= received <= Sent, loss lies in [0, 100]. It is 0 exactly when every probe was answered, and 100 exactly when none was. |
| Executor.MeanBounds | internal/executor/executors.go:190-194 | The average of the RTTs lies between any lower and upper bound of them. |
| Executor.Record | internal/executor/executors.go:176-205 | On a reply: the RTT is appended, Last = rtt and IP = peer. Best becomes min(Best, rtt) and Worst becomes max(Worst, rtt). Avg is the mean of the RTTs and Loss = (Sent - len(Rtts)) / Sent * 100. |
| Executor.RecordReply | internal/executor/executors.go:176-205 | The imperative statistics update computes exactly Record. |
| Executor.SumRtts | internal/executor/executors.go:190-193 | The summing loop returns the sum of all RTTs. |
| Executor.SumSquaredDeviations | internal/executor/executors.go:196-200 | The variance loop returns the sum of squared deviations from Avg. |
| Executor.Step | internal/executor/executors.go:123-207 | Sent is incremented exactly when the write succeeded, and RTTs grow exactly on TimeExceeded or EchoReply. A marshal or write failure leaves the hop unchanged. A parse failure or other ICMP type only counts the send. A failed read, whether it timed out or not, only counts the send and recomputes loss; every other field is kept. A reply is the send followed by Record. Best never rises and Worst never falls. |
| Executor.StepValid | internal/executor/executors.go:141-205 | One iteration keeps the hop invariant: len(Rtts) <= Sent, loss in [0, 100], Best <= every RTT <= Worst, Avg = mean, Last = last RTT, and the variance formula once len(Rtts) > 1. It allows one more send. Every record passed to the callback has Sent >= 1 and the loss formula. |
| Executor.HopAverageBounded | internal/executor/executors.go:183-194 | For a hop with RTTs, Best <= Avg <= Worst. |
| Executor.AfterProbe | internal/executor/executors.go:141-211 | An iteration changes only hops[ttl]. It appends one callback record exactly when the outcome is reported. It sets targetReachedAt exactly on an Echo Reply. |
| Executor.HopTable.Probe | internal/executor/executors.go:115-211 | The in-place iteration leaves the table as old(hops)[ttl := Step(old(hops)[ttl], outcome)]. It emits one callback exactly on a failed read or a reply, and reports whether an Echo Reply arrived. |
| Executor.WalkTo | internal/executor/executors.go:110-212 | The TTL loop up to TTL k keeps hops 1..30 in the table. WalkToNext, WalkStops, WalkFrame, WalkShape and NoEchoYet state what the walk does. |
| Executor.WalkToNext | internal/executor/executors.go:110-112 | While the target has not answered, the walk to TTL k is the walk to k - 1 followed by the iteration for TTL k. |
| Executor.WalkStops | internal/executor/executors.go:108-112 | Once targetReachedAt is set to a TTL already walked, the remaining TTLs change nothing. |
| Executor.NoEchoYet | internal/executor/executors.go:209-211 | targetReachedAt stays 0 until the first Echo Reply of the cycle. |
| Executor.WalkFrame | internal/executor/executors.go:110-212 | Within a cycle, TTLs not yet walked are untouched, and targetReachedAt is 0 or a TTL already walked. Earlier callbacks are kept, and at most one is added per TTL walked. |
| Executor.WalkShape | internal/executor/executors.go:110-212 | In a cycle each hop is probed at most once: each record is the old one or Step applied to it once. Each callback of the cycle carries such a record. |
| Executor.EarlyStop | internal/executor/executors.go:108-112 | targetReachedAt is reset every cycle. If the first Echo Reply of a cycle comes at TTL t, the cycle ends in its state after TTL t. No TTL beyond t is probed, and at most t callbacks are made. |
| Executor.CycleOf | internal/executor/executors.go:108-212 | One cycle, with targetReachedAt reset to 0, keeps hops 1..30 in the table. EarlyStop and CycleMonotone state its stop and its effect on Best and Worst. |
| Executor.HopTable.RunCycle | internal/executor/executors.go:108-212 | The in-place TTL loop with its break computes exactly CycleOf. |
| Executor.RunTo | internal/executor/executors.go:92-216 | n cycles over the initial table keep hops 1..30 in the table. RunValid, RunMonotone and TraceReportsOk state the hop invariant, the monotone bounds and the callback properties. |
| Executor.RunValid | internal/executor/executors.go:101-216 | After n cycles every hop satisfies the hop invariant with Sent <= n. Every callback so far had Sent >= 1 and loss = (Sent - len(Rtts)) / Sent * 100 in [0, 100]. |
| Executor.CycleMonotone | internal/executor/executors.go:183-188 | One cycle never raises a hop's Best nor lowers its Worst. |
| Executor.RunMonotone | internal/executor/executors.go:101-216 | Across the cycles, Best never rises and Worst never falls. |
| Executor.DoMtr | internal/executor/executors.go:72-219 | A resolve or listen failure returns that error with no callbacks. Otherwise the callbacks are exactly those of 20 cycles over the initial table, and there is no error. |
| Executor.TraceReportsOk | internal/executor/executors.go:101-216 | In a completed trace every callback has loss in [0, 100] with Sent >= 1, and every hop has len(Rtts) <= Sent <= 20. |
| Executor.ShiftOrIsAdd | internal/executor/executors.go:119 | (cycle << 8) \| ttl equals cycle * 256 + ttl when ttl < 256. |
| Executor.SeqRoundTrip | internal/executor/executors.go:119 | The sequence number decodes back to (cycle, ttl). |
| Executor.SeqInjective | internal/executor/executors.go:101-119 | Over cycles 1..20 and TTLs 1..30 the sequence numbers are distinct and fit in 16 bits. |
| Worker.Backoff | internal/worker/worker.go:27-37 | The sleep after the k-th session lies in [1, 30]. BackoffClosedForm gives its values. |
| Worker.BackoffClosedForm | internal/worker/worker.go:27-38 | The sleeps after sessions are 1, 2, 4, 8, 16 and then 30 seconds from then on. |
| Worker.BackoffBounds | internal/worker/worker.go:33-37 | Every sleep lies in [1, 30], and the sleeps never decrease. |
| Worker.Start | internal/worker/worker.go:26-39 | A sleep follows exactly the sessions that return, and the loop stops at the first session still blocked on a receive. The k-th sleep is Backoff(k) whatever the sessions did, so the backoff is never reset. |
| Worker.AuthRequest | internal/worker/worker.go:54-70 | The Auth message carries the configured token and version "1.0.1". Its hostname is the OS hostname when that is non-empty, and "unknown-agent" otherwise. |
| Worker.ConnectAndLoop | internal/worker/worker.go:41-113 | A dial or stream failure sends nothing. Otherwise the Auth message is the only message the session sends itself. The task loop starts exactly when the first reply is an auth response with Success. Otherwise the session ends with the send or receive error or the rejection message. The messages dispatched are exactly the received ones up to the first receive failure. EOF ends the session cleanly and any other failure ends it with that error. A session with nothing received after the Auth send, or with only successful receives after acceptance, is still waiting (Waiting), and this happens exactly when Returns is false. |
| Worker.HandlePing | internal/worker/worker.go:117-157 | There is one non-final message per packet, carrying its seq, ttl and rtt. A single final summary comes last, only when stats are present, with Sent = len(Rtts) and the stats copied. Every message carries the task id and target. |
| Worker.HandleMtr | internal/worker/worker.go:159-200 | There is one non-final message per hop callback, carrying that hop. A hop-less final message follows only when DoMTR returned no error. Every message carries the task id and target. |
| Worker.HandleMessage | internal/worker/worker.go:115-203 | A ping task yields HandlePing of DoPing(target, count), and an MTR task yields HandleMtr of DoMTR(target). Either stream carries that task's id and target, and only its last message may be final. Any other message yields no messages. |
| Worker.MtrStreamOfTrace | internal/worker/worker.go:163-200 | The MTR messages of a completed trace end with the final marker. Every hop message has Sent >= 1 and a loss in [0, 100] equal to (Sent - len(Rtts)) / Sent * 100. |
| Config.LoadConfig | internal/config/config.go:13-23 | ServerAddr and Token are the PINGVE_SERVER and PINGVE_TOKEN values, or "" when unset. Secure holds exactly when PINGVE_SECURE is "true". The function is total. |
| Config.LoadConfigEmpty | internal/config/config.go:13-23 | An empty environment gives an empty address, an empty token and an insecure transport. |
| Config.SecureNeedsExactTrue | internal/config/config.go:16 | "TRUE", "True", "1", "yes" and "" do not enable Secure. |
| Config.LoadConfigReadsOnlyPingveVars | internal/config/config.go:14-16 | Environments that agree on the three PINGVE_ variables give the same Config. |
| Text.ReplaceAll | cmd/agent/main.go:88-90 | Replacing the pattern by itself leaves the text unchanged. ReplaceAllFront, ReplaceAllConcat, ReplaceAllIdentity and ReplaceAllNoOccurrence state the leftmost, non-overlapping scan. |
| Text.ReplaceAllChars | cmd/agent/main.go:88-90 | Every character of the result comes from the text or from the replacement. |
| Text.ReplaceAllIdentity | cmd/agent/main.go:88-90 | Text without the pattern's first character is left unchanged. |
| Text.ReplaceAllFront | cmd/agent/main.go:88-90 | An occurrence at the front is replaced, and scanning resumes after it without rescanning the replacement. |
| Text.ReplaceAllConcat | cmd/agent/main.go:88-90 | Replacement distributes over a join that no occurrence can straddle. |
| Text.ReplaceAllNoOccurrence | cmd/agent/main.go:88-90 | Text without an occurrence of the pattern is left unchanged. |
| Agent.TemplateFrame | cmd/agent/main.go:14-28 | The template's fixed text has no brace. It meets each placeholder at an '=' before it and a newline after it. |
| Agent.Render | cmd/agent/main.go:88-90 | The three passes run in the order token, server, hostname, and every character of the unit comes from the template or from one of the three values. RenderLayout states the result exactly. |
| Agent.PassJoin | cmd/agent/main.go:88-90 | One placeholder pass preserves the fixed template text and acts on each place independently. |
| Agent.SlotsKept | cmd/agent/main.go:88-90 | Each placeholder survives the pass for each other placeholder, for all six pairs. |
| Agent.RenderLayout | cmd/agent/main.go:88-90 | The rendered unit is the template text unchanged, except for the three places. The token place gets the token after the server and host passes. The server place gets the server after the host pass. The host place gets the host verbatim. |
| Agent.RenderPlain | cmd/agent/main.go:14-28 | Values without placeholders appear verbatim in their places, and no placeholder remains in the unit. |
| Agent.RenderTokenTakesServer | cmd/agent/main.go:88-90 | Substitution order shows: a token "{{SERVER}}" comes out as the server address. |
| Agent.RenderServerKeepsTokenSlot | cmd/agent/main.go:88-90 | Substitution order shows: a server "{{TOKEN}}" survives literally in the unit. |
| Agent.RunInstall | cmd/agent/main.go:50-106 | An empty token or a non-root euid is fatal before any effect. The effects are always a prefix of stop, copy binary, write unit, daemon-reload, enable. The first failing step determines the error, and the effects stop right after that step. Success means every step succeeded and every effect happened. |
| Agent.UnitCarriesHost | cmd/agent/main.go:83-90 | When the token and server hold no placeholder, the installed unit carries the -host value when one is given, and the OS hostname otherwise, whatever that value holds. |
| Agent.ParseFlags | cmd/agent/main.go:32-36 | A given -token, -server or -host value is kept. Otherwise -server defaults to "localhost:50051", and -token and -host default to "". Install is set only by -install. |
| Agent.ChooseMode | cmd/agent/main.go:38-47 | With -install the installer runs with the flag values and the worker is not started. Otherwise the worker starts with LoadConfig of the environment. |
| Agent.UnitEnvironmentNotRead | cmd/agent/main.go:22-24 | For values without whitespace, quotes, backslashes, `%` or control characters, the variables the installed unit sets are not the ones LoadConfig reads, so the agent gets Config("", "", false) from them. |

## Left out

- Raw socket I/O is not modelled. Resolving, listening, marshalling, setting the TTL, writing, reading with a deadline and parsing an ICMP message are replaced by the oracle, and the resolve and listen results are booleans. The echo ID (the process id) is not modelled.
- Timing is not modelled: the RTT measurement, the 1 s read deadline, the 500 ms pause between cycles, the backoff sleeps and the 5 s heartbeat ticker. RTTs come from the oracle, and sleeps are returned as seconds.
- Executor.Record: StdDev is kept as its square (the sample variance, `variance`), because square roots of reals are not available. Float64 rounding is not modelled; RTTs, loss and averages are exact reals.
- DoPing is not modelled. It wraps an external ping library. Its callbacks and statistics are an input to Worker.HandlePing.
- Goroutines and concurrency are not modelled: the heartbeat goroutine, the goroutine per task, and unsynchronised concurrent sends. The Heartbeat message is not modelled. Send errors on result messages are ignored by the source and are not modelled.
- Worker.ConnectAndLoop: the value returned on an auth rejection is log.Output's return value. It is modelled as the AuthRejected end carrying the error message. Start ignores it either way.
- Worker.Start and the read loop never terminate in the source. The model runs them over finite traces. A trace that ends while the session is still reading ends as Waiting. Start sleeps only after a session that returns, and a session that never returns is the last one it runs.
- The conversions to 32-bit integers for Seq, Ttl, Hop and Sent in result messages are not modelled. Those values stay small.
- gRPC dialing is not modelled. The unused Secure field is not modelled either, because the dial always uses insecure credentials.
- Installer effects are abstract. Finding and reading the executable, copying the binary, writing the unit file and the systemctl calls succeed or fail according to the environment. Their file contents and permissions are not modelled, except the rendered unit text. log.Fatal is modelled as returning the error.
- Agent.UnitEnvironment: systemd's parsing of `Environment=` lines is not modelled. Whitespace splits a value into several assignments, quotes and backslashes are interpreted, `%` specifiers are expanded and a newline ends the directive. So a value such as `t PINGVE_TOKEN=t` could set a variable LoadConfig reads. The model and Agent.UnitEnvironmentNotRead cover only values without those characters.
- Agent.ParseFlags: the Go flag syntax (for example `-token=x` or `-token x`) and flag parse errors are not modelled. The input is the set of flags already parsed.
