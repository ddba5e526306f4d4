/** One interface, one place on it and no jitter: what the runs need that show where a property fails. */
module SmallWorld {
  import opened Bytes
  import opened Announce
  import opened EntryGroups
  import opened AnnounceRun

  const ETH0 := Interface(1, 0)
  const P0 := Place(0, ETH0)
  const NO_JITTER: Jitter := p => 0
  const SHARED := Flags(false, false, false)
  const UNIQUE := Flags(true, false, false)

  function EntryOf(group: Option<nat>, flags: Flags): Entry {
    Entry(group, None, None, flags, false)
  }

  /** A group that nobody has committed yet. */
  const PLAIN := Group(Uncommitted, false, 0, 0, 0, 0, None, 0, [])

  /** The interface is up, and that is all. */
  function Bare(clock: int): World {
    World(map[], [], map[], map[], [ETH0], {ETH0}, clock)
  }

  function At0(event: Event, now: int): Step {
    Step(event, now, NO_JITTER)
  }

  lemma ComesUp(clock: int, now: int)
    requires clock <= now
    ensures var s := At0(InterfaceAdded(ETH0), now); CanTake(Start(clock), s) && Take(Start(clock), s) == Bare(now)
  {
  }
}
