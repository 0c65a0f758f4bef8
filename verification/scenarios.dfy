/**
 Concrete runs of the monitor loop, each with the log it produces.
 */
module Scenarios {
  import opened Probe
  import opened Events
  import opened Monitor

  /** The events of a run, one entry per tick. */
  function Logged(ticks: seq<Tick>, h: nat): (es: seq<Option<Event>>)
    ensures |es| == |ticks|
  {
    var outputs := Run(Init, ticks, h).outputs;
    seq(|outputs|, i requires 0 <= i < |outputs| => outputs[i].event)
  }

  /** The events of three ticks, computed one iteration at a time. */
  lemma ThreeTicks(a: Tick, b: Tick, c: Tick, h: nat)
    ensures Logged([a, b, c], h)
         == [Step(Init, a, h).output.event,
             Step(Step(Init, a, h).state, b, h).output.event,
             Step(Step(Step(Init, a, h).state, b, h).state, c, h).output.event]
  {
    RunSnoc(Init, [], a, h);
    assert [] + [a] == [a];
    RunSnoc(Init, [a], b, h);
    assert [a] + [b] == [a, b];
    RunSnoc(Init, [a, b], c, h);
    assert [a, b] + [c] == [a, b, c];
  }

  /** Threshold 2, IPv4 fails twice and then answers, IPv6 always answers:
      nothing at the first failure, "IPv4 is down!" at the second, "IPv4 is
      back online" at the recovery, and no IPv6 event. */
  lemma ShortIPv4Outage()
    ensures Logged([Tick(false, true), Tick(false, true), Tick(true, true)], 2)
         == [None, Some(V4Down), Some(V4Up)]
  {
    ThreeTicks(Tick(false, true), Tick(false, true), Tick(true, true), 2);
  }

  /** Both families reach the threshold on the same tick: one "network is
      down!" and no per-family message. */
  lemma SimultaneousOutage()
    ensures Logged([Tick(false, false), Tick(false, false)], 2) == [None, Some(NetworkDown)]
  {
    var a := Tick(false, false);
    RunSnoc(Init, [], a, 2);
    assert [] + [a] == [a];
    RunSnoc(Init, [a], a, 2);
    assert [a] + [a] == [a, a];
  }

  /** `k` ticks on which both pings fail. */
  function JointFailures(k: nat): (ticks: seq<Tick>)
    ensures |ticks| == k && forall i | 0 <= i < k :: !ticks[i].v4Ok && !ticks[i].v6Ok
  {
    seq(k, _ => Tick(false, false))
  }

  /** For any positive threshold `h`, `h` joint failures from start-up log
      nothing on the first `h - 1` ticks and "network is down!" on the
      `h`-th: exactly one message, and no per-family one. */
  lemma SimultaneousOutageAnyThreshold(h: nat)
    requires h >= 1
    ensures Run(Init, JointFailures(h), h).outputs[h - 1].event == Some(NetworkDown)
    ensures forall i | 0 <= i < h - 1 :: Run(Init, JointFailures(h), h).outputs[i].event == None
  {
    var ticks := JointFailures(h);
    EventsFromHistory(ticks, h, h - 1);
    assert ticks[..h] == ticks;
    assert Outcomes(ticks[..h], V4) == seq(h, _ => false);
    forall i | 0 <= i < h - 1
      ensures Run(Init, ticks, h).outputs[i].event == None
    {
      EventsFromHistory(ticks, h, i);
      assert !LastFailed(Outcomes(ticks[..i + 1], V4), h);
      assert !LastFailed(Outcomes(ticks[..i + 1], V6), h);
    }
  }

  /** During a full outage IPv6 comes back for one tick and fails again:
      the recovery is not logged, and "network is down!" is logged a second
      time with no recovery message in between. */
  lemma FullOutageLoggedTwice()
    ensures Logged([Tick(false, false), Tick(false, true), Tick(false, false)], 1)
         == [Some(NetworkDown), None, Some(NetworkDown)]
  {
    ThreeTicks(Tick(false, false), Tick(false, true), Tick(false, false), 1);
  }

  /** An IPv4 outage turning into an IPv6 outage logs the new outage but not
      the IPv4 recovery; the later recovery names IPv6 only. */
  lemma OutageSwitchesFamily()
    ensures Logged([Tick(false, true), Tick(true, false), Tick(true, true)], 1)
         == [Some(V4Down), Some(V6Down), Some(V6Up)]
  {
    ThreeTicks(Tick(false, true), Tick(true, false), Tick(true, true), 1);
  }
}
