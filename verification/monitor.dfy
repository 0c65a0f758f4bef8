/**
 The monitor loop: each tick pings both address families jointly, updates
 both families' counters, classifies each family by hysteresis and logs at
 most one transition event.

 `Step` is the body of one loop iteration as a pure function of the loop's
 state, the tick's pair of ping outcomes and the hysteresis threshold `h`.
 `Run` folds `Step` over a finite sequence of ticks. The loop ends when the
 Ctrl-C watcher task signals, or exits and so drops its end of the watch
 channel; the model represents either as the end of the sequence.
 */
module Monitor {
  import opened Probe
  import opened Events

  /** The outcome of both pings of one tick, awaited together. */
  datatype Tick = Tick(v4Ok: bool, v6Ok: bool) {
    function Ok(f: Family): bool {
      match f
      case V4 => v4Ok
      case V6 => v6Ok
    }
  }

  /** The variables the loop carries from one iteration to the next: the
      counters of both families and the "error active" flags recording the
      down pair of the previous iteration. */
  datatype State = State(v4: Counters, v6: Counters, active: Flags) {
    function Of(f: Family): Counters {
      match f
      case V4 => v4
      case V6 => v6
    }
  }

  /** All counters zero and no error active, as before the first tick. */
  const Init: State := State(Fresh, Fresh, Neither)

  /** What one tick logs: at most one transition event, and per family
      whether the ping's latency was logged. */
  datatype Output = Output(event: Option<Event>, v4Sampled: bool, v6Sampled: bool) {
    function LatencyLogged(f: Family): bool {
      match f
      case V4 => v4Sampled
      case V6 => v6Sampled
    }
  }

  datatype StepResult = StepResult(state: State, output: Output)

  /** The hysteresis classification of both families. */
  function DownPair(v4: Counters, v6: Counters, h: nat): (down: Flags)
    // a zero threshold puts both families down
    ensures h == 0 ==> down == Both
    // for a positive threshold, neither family is down without a failure streak
    ensures h >= 1 && v4.errors == 0 && v6.errors == 0 ==> down == Neither
  {
    Flags(IsDown(v4, h), IsDown(v6, h))
  }

  /** What holds of the loop's state after every iteration: the active
      flags are the classification of the current counters, and no family
      has a failure streak and a success streak running at the same time. */
  ghost predicate Consistent(s: State, h: nat) {
    && s.active == DownPair(s.v4, s.v6, h)
    && (s.v4.errors == 0 || s.v4.successes == 0)
    && (s.v6.errors == 0 || s.v6.successes == 0)
  }

  /** One iteration of the loop. */
  function Step(s: State, t: Tick, h: nat): (r: StepResult)
    // each family consumes exactly its own outcome of this tick
    ensures forall f: Family :: r.state.Of(f) == Record(s.Of(f), t.Ok(f))
    // afterwards the active flags equal this tick's down pair, whatever came before
    ensures Consistent(r.state, h)
    // edge-triggered: an event only when the pair changed
    ensures r.output.event.Some? ==> r.state.active != s.active
    // a change goes unlogged exactly when it is a partial recovery from a full outage
    ensures r.state.active != s.active ==> (r.output.event == None <==> SilentChange(s.active, r.state.active))
    // the event announces the pair entered; a recovery names the situation that ended
    ensures r.output.event.Some? ==> Announces(r.output.event.value) == r.state.active
    ensures r.output.event.Some? && IsRecovery(r.output.event.value) ==> Ends(r.output.event.value) == s.active
    // a latency is logged for a successful ping whose preceding success streak is a multiple of ten
    ensures forall f: Family :: r.output.LatencyLogged(f) <==> t.Ok(f) && s.Of(f).successes % 10 == 0
  {
    var v4 := Record(s.v4, t.v4Ok);
    var v6 := Record(s.v6, t.v6Ok);
    var down := DownPair(v4, v6, h);
    StepResult(
      State(v4, v6, down),
      Output(Edge(s.active, down), Sampled(s.v4, t.v4Ok), Sampled(s.v6, t.v6Ok)))
  }

  /** The outcomes of one family over a sequence of ticks. */
  function Outcomes(ticks: seq<Tick>, f: Family): (o: seq<bool>)
    ensures |o| == |ticks| && forall i | 0 <= i < |ticks| :: o[i] == ticks[i].Ok(f)
  {
    seq(|ticks|, i requires 0 <= i < |ticks| => ticks[i].Ok(f))
  }

  /** The state after a sequence of iterations and what each of them logged. */
  datatype Trace = Trace(final: State, outputs: seq<Output>)

  /** The loop run over `ticks`, oldest first, starting from state `s`. */
  function Run(s: State, ticks: seq<Tick>, h: nat): (r: Trace)
    // one output per tick
    ensures |r.outputs| == |ticks|
    // a family's counters depend on its own outcomes only
    ensures forall f: Family :: r.final.Of(f) == Replay(s.Of(f), Outcomes(ticks, f))
    // after at least one iteration the loop state is consistent
    ensures ticks != [] ==> Consistent(r.final, h)
    decreases |ticks|
  {
    if ticks == [] then Trace(s, [])
    else
      var n := |ticks| - 1;
      var p := Run(s, ticks[..n], h);
      var r := Step(p.final, ticks[n], h);
      assert forall f: Family :: Outcomes(ticks, f)[..n] == Outcomes(ticks[..n], f);
      Trace(r.state, p.outputs + [r.output])
  }

  /** The loop of the program as an imperative method: it iterates over the
      ticks until the watch channel fires (the end of `ticks`) and returns
      the log. */
  method MonitorLoop(ticks: seq<Tick>, h: nat) returns (log: seq<Output>, s: State)
    ensures Trace(s, log) == Run(Init, ticks, h)
    ensures |log| == |ticks|
  {
    s := Init;
    log := [];
    var i := 0;
    while i < |ticks|
      invariant 0 <= i <= |ticks|
      invariant Trace(s, log) == Run(Init, ticks[..i], h)
    {
      assert ticks[..i + 1][..i] == ticks[..i];
      var r := Step(s, ticks[i], h);
      s := r.state;
      log := log + [r.output];
      i := i + 1;
    }
    assert ticks[..i] == ticks;
  }

  /** The output of the `i`-th iteration of a run is the output of `Step`
      applied to the state the first `i` iterations left. */
  lemma {:induction false} RunOutputAt(s: State, ticks: seq<Tick>, h: nat, i: nat)
    requires i < |ticks|
    ensures Run(s, ticks, h).outputs[i] == Step(Run(s, ticks[..i], h).final, ticks[i], h).output
    decreases |ticks|
  {
    var n := |ticks| - 1;
    if i < n {
      assert ticks[..n][..i] == ticks[..i];
      RunOutputAt(s, ticks[..n], h, i);
    }
  }

  /** Appending one tick to a run appends one iteration. */
  lemma RunSnoc(s: State, ticks: seq<Tick>, t: Tick, h: nat)
    ensures Run(s, ticks + [t], h)
         == Trace(Step(Run(s, ticks, h).final, t, h).state,
                  Run(s, ticks, h).outputs + [Step(Run(s, ticks, h).final, t, h).output])
  {
    assert (ticks + [t])[..|ticks|] == ticks;
  }

  /** Running a longer sequence of ticks extends the run of its prefix. */
  lemma {:induction false} RunPrefix(s: State, ticks: seq<Tick>, h: nat, i: nat)
    requires i < |ticks|
    ensures Run(s, ticks[..i + 1], h).final == Step(Run(s, ticks[..i], h).final, ticks[i], h).state
  {
    assert ticks[..i + 1][..i] == ticks[..i];
  }

  /** The down pair a history of ticks calls for. */
  ghost function Level(ticks: seq<Tick>, h: nat): Flags {
    Flags(LastFailed(Outcomes(ticks, V4), h), LastFailed(Outcomes(ticks, V6), h))
  }

  /** For a positive threshold, the loop's active flags after any number of
      ticks are exactly the hysteresis classification of the history. */
  lemma ActiveIsLevel(ticks: seq<Tick>, h: nat)
    requires h >= 1
    ensures Run(Init, ticks, h).final.active == Level(ticks, h)
  {
    var r := Run(Init, ticks, h).final;
    DownIffLastFailed(Outcomes(ticks, V4), h);
    DownIffLastFailed(Outcomes(ticks, V6), h);
    if ticks == [] {
      assert r == Init;
    }
  }

  /** Edge detection over a whole history: for a positive threshold, the
      event of the `i`-th tick depends only on the hysteresis classification
      before and after that tick, never on the counters themselves. */
  lemma EventsFromHistory(ticks: seq<Tick>, h: nat, i: nat)
    requires h >= 1 && i < |ticks|
    ensures Run(Init, ticks, h).outputs[i].event == Edge(Level(ticks[..i], h), Level(ticks[..i + 1], h))
  {
    RunOutputAt(Init, ticks, h, i);
    RunPrefix(Init, ticks, h, i);
    ActiveIsLevel(ticks[..i], h);
    ActiveIsLevel(ticks[..i + 1], h);
  }

  /** With a zero threshold both families are down from the first tick on:
      the first tick logs "network is down!" and no tick after it logs
      anything. */
  lemma {:induction false} ZeroThresholdAlwaysDown(ticks: seq<Tick>)
    requires ticks != []
    ensures Run(Init, ticks, 0).final.active == Both
    ensures Run(Init, ticks, 0).outputs[0].event == Some(NetworkDown)
    ensures forall i | 0 < i < |ticks| :: Run(Init, ticks, 0).outputs[i].event == None
    decreases |ticks|
  {
    var n := |ticks| - 1;
    if n > 0 {
      ZeroThresholdAlwaysDown(ticks[..n]);
    }
  }

  /** Latency sampling over a run: the ping of family `f` at tick `i` is
      logged exactly when it succeeded and the success streak before it has
      a length divisible by ten. */
  lemma SampledOnRun(ticks: seq<Tick>, h: nat, i: nat, f: Family, k: nat)
    requires i < |ticks| && TrailingRun(Outcomes(ticks[..i], f), true, k)
    ensures Run(Init, ticks, h).outputs[i].LatencyLogged(f) <==> ticks[i].Ok(f) && k % 10 == 0
  {
    RunOutputAt(Init, ticks, h, i);
    SampledEveryTenth(Outcomes(ticks[..i], f), k);
  }

  /** The first success of a family at start-up or after a failure of that
      family is always sampled. */
  lemma FirstSuccessOnRunSampled(ticks: seq<Tick>, h: nat, i: nat, f: Family)
    requires i < |ticks| && ticks[i].Ok(f) && (i == 0 || !ticks[i - 1].Ok(f))
    ensures Run(Init, ticks, h).outputs[i].LatencyLogged(f)
  {
    RunOutputAt(Init, ticks, h, i);
    FirstSuccessSampled(Outcomes(ticks[..i], f));
  }

  /** The same event is never logged twice without the active flags having
      changed in between: between two equal events at ticks `i < j`, the
      flags the `j`-th tick starts from differ from those the `i`-th tick
      left, so in particular `j` is not the tick right after `i`. */
  lemma RepeatedEventNeedsChange(ticks: seq<Tick>, h: nat, i: nat, j: nat)
    requires i < j < |ticks|
    requires Run(Init, ticks, h).outputs[i].event.Some?
    requires Run(Init, ticks, h).outputs[j].event == Run(Init, ticks, h).outputs[i].event
    ensures Run(Init, ticks[..i + 1], h).final.active != Run(Init, ticks[..j], h).final.active
    ensures i + 1 < j
  {
    RunOutputAt(Init, ticks, h, i);
    RunPrefix(Init, ticks, h, i);
    RunOutputAt(Init, ticks, h, j);
  }
}
