/**
 Edge detection of the monitor loop: the down classification of both
 families after this tick is compared with the pair of "error active" flags
 left by the previous tick, and at most one log event is chosen.

 The choice is made by a four-way match on this tick's pair, each arm
 guarded by the previous flags. The guards do not cover every change of the
 pair: when both families were down and exactly one of them recovers, no
 event is chosen at all. `Edge` reproduces that behaviour.
 */
module Events {

  datatype Option<+T> = None | Some(value: T)

  /** The two address families the loop pings. */
  datatype Family = V4 | V6

  /** A (IPv4, IPv6) pair of booleans: either this tick's down
      classification or the loop's "error active" flags. */
  datatype Flags = Flags(v4: bool, v6: bool)

  const Neither: Flags := Flags(false, false)
  const OnlyV4: Flags := Flags(true, false)
  const OnlyV6: Flags := Flags(false, true)
  const Both: Flags := Flags(true, true)

  /** The six messages the loop can log on a transition. */
  datatype Event =
    | NetworkDown   // error: "network is down!"
    | V4Down        // error: "IPv4 is down!"
    | V6Down        // error: "IPv6 is down!"
    | NetworkUp     // info: "network is back online"
    | V4Up          // info: "IPv4 is back online"
    | V6Up          // info: "IPv6 is back online"

  predicate IsRecovery(e: Event) {
    e.NetworkUp? || e.V4Up? || e.V6Up?
  }

  /** The down pair that an event announces as the new situation. */
  function Announces(e: Event): Flags {
    match e
    case NetworkDown => Both
    case V4Down => OnlyV4
    case V6Down => OnlyV6
    case _ => Neither
  }

  /** The pair a recovery event announces as having ended. */
  function Ends(e: Event): Flags
    requires IsRecovery(e)
  {
    match e
    case NetworkUp => Both
    case V4Up => OnlyV4
    case V6Up => OnlyV6
  }

  /** A change of the down pair that the loop leaves unreported: both
      families were down and exactly one of them has recovered. */
  predicate SilentChange(prev: Flags, down: Flags) {
    prev == Both && down.v4 != down.v6
  }

  /** The event logged when the previous tick left the flags `prev` and this
      tick's down pair is `down`. */
  function Edge(prev: Flags, down: Flags): (r: Option<Event>)
    // suppression: no change, no event
    ensures prev == down ==> r == None
    // an event always announces the pair just entered, and only on a change
    ensures r.Some? ==> prev != down && Announces(r.value) == down
    // a recovery event names exactly the situation that ended
    ensures r.Some? && IsRecovery(r.value) ==> Ends(r.value) == prev
    // every change is reported except a partial recovery from a full outage
    ensures prev != down ==> (r == None <==> SilentChange(prev, down))
  {
    match (down.v4, down.v6)
    case (true, true) => if !(prev.v4 && prev.v6) then Some(NetworkDown) else None
    case (true, false) => if !prev.v4 then Some(V4Down) else None
    case (false, true) => if !prev.v6 then Some(V6Down) else None
    case (false, false) =>
      if prev.v4 && prev.v6 then Some(NetworkUp)
      else if prev.v4 then Some(V4Up)
      else if prev.v6 then Some(V6Up)
      else None
  }

  /** The event is determined by the contract of `Edge` alone: any choice
      that suppresses unchanged pairs, announces the pair entered, names the
      situation a recovery ends and stays silent exactly on a partial
      recovery from a full outage is the one `Edge` makes. */
  lemma EdgeDeterminedByContract(prev: Flags, down: Flags, r: Option<Event>)
    requires prev == down ==> r == None
    requires r.Some? ==> prev != down && Announces(r.value) == down
    requires r.Some? && IsRecovery(r.value) ==> Ends(r.value) == prev
    requires prev != down ==> (r == None <==> SilentChange(prev, down))
    ensures r == Edge(prev, down)
  {
    if r.Some? {
      match r.value
      case NetworkDown =>
      case V4Down =>
      case V6Down =>
      case NetworkUp =>
      case V4Up =>
      case V6Up =>
    }
  }

  /** Entering the full outage from any other situation logs one
      "network is down!" and never a separate per-family message; staying in
      it logs nothing. */
  lemma EnteringFullOutage(prev: Flags)
    ensures prev != Both ==> Edge(prev, Both) == Some(NetworkDown)
    ensures Edge(Both, Both) == None
  {
  }

  /** Entering the healthy situation: "network is back online" if both flags
      were active, otherwise the recovery of the one family that was active,
      and nothing if neither was. */
  lemma EnteringHealthy(prev: Flags)
    ensures prev == Both ==> Edge(prev, Neither) == Some(NetworkUp)
    ensures prev == OnlyV4 ==> Edge(prev, Neither) == Some(V4Up)
    ensures prev == OnlyV6 ==> Edge(prev, Neither) == Some(V6Up)
    ensures prev == Neither ==> Edge(prev, Neither) == None
  {
  }

  /** Transitions whose outcome the per-arm guards make surprising: either
      family recovering during a full outage goes unreported, a switch from
      an IPv4 outage to an IPv6 outage reports only the new outage, and IPv6
      failing during an IPv4 outage reports a full outage. */
  lemma GuardQuirks()
    ensures Edge(Both, OnlyV4) == None
    ensures Edge(Both, OnlyV6) == None
    ensures Edge(OnlyV4, OnlyV6) == Some(V6Down)
    ensures Edge(OnlyV4, Both) == Some(NetworkDown)
  {
  }
}
