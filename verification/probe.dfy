/**
 The per-family half of the monitor loop: the two "in a row" counters that
 every ping outcome updates, the hysteresis comparison that turns the error
 counter into a "down" classification, and the rule that decides which
 successful pings get their latency logged.

 Each address family owns one `Counters` value. A tick's outcome for that
 family is a single boolean (the ping answered or it did not); the reason
 for a failure and the measured latency only reach the log and never the
 counters, so they are not modelled.
 */
module Probe {

  /** Consecutive failures and consecutive successes of one address family. */
  datatype Counters = Counters(errors: nat, successes: nat)

  /** Both counters start at zero when the monitor starts. */
  const Fresh: Counters := Counters(0, 0)

  /** Applies one ping outcome: a success restarts the failure streak and
      extends the success streak, a failure does the opposite. */
  function Record(c: Counters, ok: bool): (r: Counters)
    ensures ok ==> r.errors == 0 && r.successes == c.successes + 1
    ensures !ok ==> r.successes == 0 && r.errors == c.errors + 1
  {
    if ok then Counters(0, c.successes + 1) else Counters(c.errors + 1, 0)
  }

  /** A family is considered down once its failure streak has reached the
      hysteresis threshold `h`. */
  function IsDown(c: Counters, h: nat): (down: bool)
    // a zero threshold classifies every family as down
    ensures h == 0 ==> down
    // for a positive threshold, a family with no failure streak is never down
    ensures h >= 1 && c.errors == 0 ==> !down
  {
    c.errors >= h
  }

  /** The latency of a successful ping is logged when the success streak
      that precedes it is a multiple of ten. */
  function Sampled(c: Counters, ok: bool): (logged: bool)
    // only a successful ping has a latency to log
    ensures logged ==> ok
    // the first success of a streak is always logged
    ensures ok && c.successes == 0 ==> logged
  {
    ok && c.successes % 10 == 0
  }

  /** Applies a whole history of outcomes, oldest first. */
  function Replay(c: Counters, outcomes: seq<bool>): (r: Counters)
    ensures r.errors <= c.errors + |outcomes| && r.successes <= c.successes + |outcomes|
    ensures outcomes != [] ==> (r.errors == 0 || r.successes == 0)
    decreases |outcomes|
  {
    if outcomes == [] then c
    else Record(Replay(c, outcomes[..|outcomes| - 1]), outcomes[|outcomes| - 1])
  }

  /** `k` is the length of the maximal run of `v` at the end of `o`. */
  ghost predicate TrailingRun(o: seq<bool>, v: bool, k: nat) {
    && k <= |o|
    && (forall i | |o| - k <= i < |o| :: o[i] == v)
    && (k < |o| ==> o[|o| - k - 1] != v)
  }

  /** No run longer than the maximal one ends the sequence. */
  lemma RunStopsAt(o: seq<bool>, v: bool, k: nat, k': nat)
    requires TrailingRun(o, v, k) && k < k'
    ensures !TrailingRun(o, v, k')
  {
    if k' <= |o| {
      assert o[|o| - k - 1] != v;
    }
  }

  /** The maximal trailing run is unique. */
  lemma TrailingRunUnique(o: seq<bool>, v: bool, k: nat, k': nat)
    requires TrailingRun(o, v, k) && TrailingRun(o, v, k')
    ensures k == k'
  {
    if k < k' {
      RunStopsAt(o, v, k, k');
    } else if k' < k {
      RunStopsAt(o, v, k', k);
    }
  }

  /** Replaying a history from the start-up counters leaves in each counter
      exactly the length of the trailing run of failures, respectively
      successes, of that history. */
  lemma {:induction false} ReplayMeasuresRuns(o: seq<bool>)
    ensures TrailingRun(o, false, Replay(Fresh, o).errors)
    ensures TrailingRun(o, true, Replay(Fresh, o).successes)
  {
    if o != [] {
      var p := o[..|o| - 1];
      var x := o[|o| - 1];
      ReplayMeasuresRuns(p);
      var c := Replay(Fresh, p);
      assert forall i | 0 <= i < |p| :: o[i] == p[i];
      if x {
        assert c.errors == 0 || c.successes == 0 || p == [];
        assert TrailingRun(o, true, c.successes + 1);
      } else {
        assert TrailingRun(o, false, c.errors + 1);
      }
    }
  }

  /** The hysteresis classification of one family read off its history:
      at least `h` outcomes, and the last `h` of them all failures. */
  ghost predicate LastFailed(o: seq<bool>, h: nat) {
    h <= |o| && forall i | |o| - h <= i < |o| :: !o[i]
  }

  /** Hysteresis over a whole history: a family is down exactly when it has
      at least `h` outcomes and the last `h` of them are all failures. */
  lemma DownIffLastFailed(o: seq<bool>, h: nat)
    ensures IsDown(Replay(Fresh, o), h) <==> LastFailed(o, h)
  {
    var k := Replay(Fresh, o).errors;
    ReplayMeasuresRuns(o);
    if k < h <= |o| {
      assert o[|o| - k - 1];
    }
  }

  /** `k` failures in a row. */
  function Failures(k: nat): (r: seq<bool>)
    ensures |r| == k && forall i | 0 <= i < k :: !r[i]
  {
    seq(k, _ => false)
  }

  /** Each further failure adds exactly one to the error counter. */
  lemma {:induction false} FailuresAccumulate(c: Counters, k: nat)
    ensures Replay(c, Failures(k)).errors == c.errors + k
  {
    if k > 0 {
      assert Failures(k)[..k - 1] == Failures(k - 1);
      FailuresAccumulate(c, k - 1);
    }
  }

  /** Starting from a clean failure streak (at start-up or right after a
      success), `k` consecutive failures leave the family down exactly when
      `k` has reached the threshold. In particular, with `h == 1` one
      failure suffices. */
  lemma FailureStreakDown(c: Counters, k: nat, h: nat)
    requires h >= 1 && c.errors == 0
    ensures IsDown(Replay(c, Failures(k)), h) <==> k >= h
  {
    FailuresAccumulate(c, k);
  }

  /** For any positive threshold, one success is enough to clear the down
      classification, however long the outage was. */
  lemma SuccessClearsDown(c: Counters, h: nat)
    requires h >= 1
    ensures !IsDown(Record(c, true), h)
  {
  }

  /** Latency sampling over a history: a success is sampled exactly when the
      run of successes immediately before it has a length divisible by ten,
      i.e. the 1st, 11th, 21st, ... success of every streak. */
  lemma SampledEveryTenth(o: seq<bool>, k: nat)
    requires TrailingRun(o, true, k)
    ensures Sampled(Replay(Fresh, o), true) <==> k % 10 == 0
  {
    ReplayMeasuresRuns(o);
    TrailingRunUnique(o, true, k, Replay(Fresh, o).successes);
  }

  /** The first success at start-up or after any failure is always sampled. */
  lemma FirstSuccessSampled(o: seq<bool>)
    requires o == [] || !o[|o| - 1]
    ensures Sampled(Replay(Fresh, o), true)
  {
    ReplayMeasuresRuns(o);
  }
}
