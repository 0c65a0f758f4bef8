# network_monitor: the reachability state machine

`network_monitor` pings one host over IPv4 and IPv6 at a fixed interval and
logs when the network, or one address family, goes down or comes back. All
of this happens in one loop in `main`. Each iteration pings both families
together and waits for both answers. It then updates per-family counters of
consecutive failures and consecutive successes. A family counts as down once
its failure streak reaches the hysteresis threshold. Finally it compares
this tick's down pair with the pair of "error active" flags left by the
previous tick, and logs at most one event.

This project models that loop body as a pure function and proves properties
of it, one tick at a time and over whole runs.

- `Probe` (`probe.dfy`): the per-family counters (`Counters`, `Record`), the
  hysteresis test (`IsDown`) and the latency-sampling rule (`Sampled`).
  `Replay` applies a history of outcomes. The lemmas tie the counters to a
  declarative reference: the length of the trailing run of failures or
  successes in the history.
- `Events` (`events.dfy`): the (IPv4, IPv6) flag pair, the six log events
  and `Edge`, the four-way `match` that picks the event. Its contract
  characterises the choice completely (`EdgeDeterminedByContract`).
- `Monitor` (`monitor.dfy`): the loop state, `Step` (one iteration), `Run`
  (a fold of `Step` over a sequence of ticks) and `MonitorLoop` (the loop as
  an imperative method). The lemmas are stated over whole runs.
- `Scenarios` (`scenarios.dfy`): concrete runs and the log each produces.

A tick is a pair `Tick(v4Ok, v6Ok)`, because the two pings are awaited
jointly. The hysteresis threshold `h` is a `nat` parameter of every
operation. The loop ends when the Ctrl-C watcher task signals or exits
(`src/main.rs:66-73`, `src/main.rs:170`); the model represents either as the
end of the tick sequence.

Behaviour of the code that the model reproduces as written:

- When both families were down and exactly one recovers, nothing is logged.
  `Edge`'s contract proves these are the only changes of the down pair that
  go unreported. One consequence is that "network is down!" can be logged
  twice with no recovery message in between (`Scenarios.FullOutageLoggedTwice`).
- A switch from an IPv4-only outage to an IPv6-only outage logs "IPv6 is
  down!" and no IPv4 recovery.
- With `h = 0` both families are down from the first tick on.

Further facts about the code that shape the model:

- The loop awaits both pings together (`src/main.rs:97-100`). The two
  families therefore never update out of step, and there is no interleaving
  to model.
- Recovery messages carry no outage duration (`src/main.rs:159-163`).
- Failed pings are logged at debug level only (`src/main.rs:112`,
  `src/main.rs:128`). Log levels are not modelled.
- A partial recovery from a full outage is silent, because of the guards at
  `src/main.rs:146` and `src/main.rs:152`.
- The threshold is read as `args.hysteresis` (`src/main.rs:135-136`), but
  `Args` (`src/cli.rs:8-26`) declares no such field. The model therefore
  takes `h` as any `nat`, including 0.

## Model

| member | source | states |
|---|---|---|
| `Probe.Record` | src/main.rs:102-132 | A success sets the error streak to 0 and extends the success streak by one. A failure sets the success streak to 0 and extends the error streak by one. |
| `Probe.IsDown` | src/main.rs:134-136 | The hysteresis test: with `h = 0` every family is down, and with `h >= 1` a family without a failure streak is not down. `DownIffLastFailed` gives the exact condition over a history. |
| `Probe.Sampled` | src/main.rs:106-109 | Only a successful ping has its latency logged, and the first success of a streak always does. `SampledEveryTenth` gives the exact every-tenth rule over a history. |
| `Probe.Replay` | src/main.rs:102-132 | After n outcomes neither counter has grown by more than n. After at least one outcome, at most one of the two streaks is non-zero. |
| `Probe.ReplayMeasuresRuns` | src/main.rs:76-132 | From the start-up zeros, the error counter is exactly the length of the history's trailing run of failures. The success counter is exactly the length of its trailing run of successes. |
| `Probe.DownIffLastFailed` | src/main.rs:134-136 | A family is down exactly when it has at least `h` outcomes and the last `h` of them are all failures. This holds for every `h`, including 0. |
| `Probe.FailuresAccumulate` | src/main.rs:111-115 | `k` further failures add exactly `k` to the error counter. |
| `Probe.FailureStreakDown` | src/main.rs:134-136 | For `h >= 1`, starting from a clean failure streak, `k` consecutive failures leave the family down iff `k >= h`. With `h = 1`, one failure is enough. |
| `Probe.SuccessClearsDown` | src/main.rs:102-110 | For `h >= 1`, a family is never down right after a success. |
| `Probe.SampledEveryTenth` | src/main.rs:106-109 | A success is sampled exactly when the success streak before it has a length divisible by 10: the 1st, 11th, 21st, ... success of a streak. |
| `Probe.FirstSuccessSampled` | src/main.rs:106-115 | The first success at start-up or after a failure is always sampled. |
| `Events.Edge` | src/main.rs:138-167 | No event when the down pair equals the previous flags. An event names the pair just entered and appears only on a change. A recovery names the situation that ended. A change goes unreported exactly when both families were down and one recovered. |
| `Events.EdgeDeterminedByContract` | src/main.rs:138-167 | Any event choice that meets `Edge`'s contract is `Edge`'s choice, so the contract fixes the event for every pair of pairs. |
| `Events.EnteringFullOutage` | src/main.rs:139-144 | Entering (down, down) from any other pair logs exactly "network is down!" and no per-family message. Staying there logs nothing. |
| `Events.EnteringHealthy` | src/main.rs:157-166 | Entering (up, up) logs "network is back online" if both flags were active. Otherwise it logs the recovery of the one active family, or nothing if neither was active. |
| `Events.GuardQuirks` | src/main.rs:139-155 | Partial recovery from a full outage is silent. An IPv4 outage turning into an IPv6 outage logs only "IPv6 is down!". IPv6 failing during an IPv4 outage logs "network is down!". |
| `Monitor.Step` | src/main.rs:97-167 | Each family's counters consume exactly that family's outcome of the tick. Afterwards the active flags equal the tick's down pair, whatever the previous state. An event appears only when the pair changed. A change goes unlogged if and only if it is a partial recovery from a full outage. The event announces the pair entered, and a recovery names the situation that ended. A family's latency is logged iff its ping succeeded and its success streak before the tick is a multiple of 10. |
| `Monitor.DownPair` | src/main.rs:134-136 | The (IPv4, IPv6) down pair is each family's hysteresis test. With `h = 0` it is (down, down). With `h >= 1` and no failure streaks it is (up, up). |
| `Monitor.Run` | src/main.rs:91-173 | One output per tick. A family's counters are the replay of its own outcomes only. After at least one tick the loop state is consistent: flags equal the down pair and no family runs two streaks at once. |
| `Monitor.MonitorLoop` | src/main.rs:76-173 | The imperative loop, started from all-zero counters and inactive flags, produces the same log and final state as `Run`. |
| `Monitor.ActiveIsLevel` | src/main.rs:134-167 | For `h >= 1`, after any run the active flags equal the hysteresis classification of the history: a family is flagged iff its last `h` outcomes all failed. |
| `Monitor.EventsFromHistory` | src/main.rs:134-167 | For `h >= 1`, the event of tick `i` is `Edge` applied to the history's classification before and after that tick. It depends on the outcomes only, not on the counters. |
| `Monitor.ZeroThresholdAlwaysDown` | src/main.rs:134-144 | With `h = 0`, the first tick logs "network is down!". No later tick logs anything, and both flags stay active. |
| `Monitor.SampledOnRun` | src/main.rs:102-132 | In a run, family `f`'s latency at tick `i` is logged iff that ping succeeded and the success streak before it is divisible by 10. |
| `Monitor.FirstSuccessOnRunSampled` | src/main.rs:102-132 | In a run, a success at the first tick or right after a failure of the same family is always sampled. |
| `Monitor.RepeatedEventNeedsChange` | src/main.rs:138-167 | The same event is never logged twice unless the flags changed in between, so never on two adjacent ticks. |
| `Scenarios.ShortIPv4Outage` | src/main.rs:102-167 | With `h = 2`, IPv4 failing twice and then answering, and IPv6 always answering, logs [nothing, "IPv4 is down!", "IPv4 is back online"]. |
| `Scenarios.SimultaneousOutage` | src/main.rs:134-143 | With `h = 2`, two joint failures from start-up log [nothing, "network is down!"]: one full-outage message and no per-family message. |
| `Scenarios.SimultaneousOutageAnyThreshold` | src/main.rs:134-143 | For every `h >= 1`, `h` joint failures from start-up log nothing on the first `h - 1` ticks and "network is down!" on the `h`-th: exactly one message, and no per-family message. |
| `Scenarios.FullOutageLoggedTwice` | src/main.rs:138-149 | With `h = 1`, a one-tick IPv6 recovery inside a full outage is not logged. "network is down!" then appears twice in a row. |
| `Scenarios.OutageSwitchesFamily` | src/main.rs:145-165 | With `h = 1` and ticks (fail, ok), (ok, fail), (ok, ok), an IPv4 outage turning into an IPv6 outage logs "IPv4 is down!", then "IPv6 is down!", then only "IPv6 is back online". |

## Left out

- Logger set-up, the formatters and daily file rotation (`src/main.rs:10-30`, `src/main.rs:36-58`): output formatting and library configuration.
- The log lines that carry no state: the trace of each reply, the debug line for each failure, the latency value itself, and the start/stop banners. Only whether a latency sample is logged is modelled.
- The ICMP transport (`surge_ping::ping`, `src/main.rs:92-100`): a foreign asynchronous call. It is modelled only as one boolean per family per tick.
- Ctrl-C handling, the `watch` channel, the interval timer and the `tokio::select!` (`src/main.rs:62-74`, `src/main.rs:86`, `src/main.rs:169-172`): concurrency, cancellation and timers. The interrupt is the end of the tick sequence.
- All of `src/cli.rs`: directory checks, DNS resolution and URL parsing are filesystem and network I/O.
- Outage durations and independent per-family streams: the code has none.
- `usize` overflow of the counters (`src/main.rs:109`, `src/main.rs:114`, and the same for IPv6): the counters are `nat`. Overflow needs 2^32 or 2^64 consecutive outcomes of one kind, depending on the target. It would panic in a debug build and wrap in a release build. Not modelled.
