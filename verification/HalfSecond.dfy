/** The half second in Network.AtMostOneRegistered cannot be longer: a run in which a host is late by no more than that,
    and two hosts register the same record set. */
module HalfSecond {
  import opened Bytes
  import opened Records
  import opened NameRelations
  import opened RecordOrder
  import opened Announce
  import opened EntryGroups
  import opened AnnounceRun
  import opened ProbeSteps
  import opened SmallWorld
  import opened Network
  import TieBreak

  const MS := 1000
  const OWN := EntryOf(None, UNIQUE)

  function HostRecord(n: byte): Record {
    Record(Key([], CLASS_IN, TYPE_A), 120, Address([10, 0, 0, n]))
  }

  /** The record of host 0 is the greater one. */
  const PEERS := [Peer(HostRecord(2), P0), Peer(HostRecord(1), P0)]

  lemma Rivals()
    ensures AllRivals(PEERS) && RecordCompare(HostRecord(2), HostRecord(1)) > 0
  {
    assert Comparable(HostRecord(1)) && Comparable(HostRecord(2));
    var a, b: seq<byte> := [10, 0, 0, 2], [10, 0, 0, 1];
    assert a[1..][1..][1..] == [2] && b[1..][1..][1..] == [1];
    assert RecordCompare(HostRecord(2), HostRecord(1)) > 0;
  }

  // ---------- One host ----------

  function Host(a: Announcer, clock: int): World {
    World(map[0 := OWN], [0], map[], map[P0 := a], [ETH0], {ETH0}, clock)
  }

  /** The host has posted these probes and will go on at the given time. */
  function Tries(probes: seq<int>, timer: int, clock: int): World {
    Host(Announcer(Probing, |probes| + 1, 1, Some(timer), probes, [], Prompt), clock)
  }

  lemma IsAdded(now: int)
    ensures var s := At0(EntryAdded(0, OWN), now); CanTake(Bare(now), s) && Take(Bare(now), s) == Tries([], now, now)
  {
    var w := Bare(now);
    var v := Inserted(w, 0, OWN);
    assert AnnounceOn(v, 0, [], now, NO_JITTER) == v;
    assert AnnounceOn(v, 0, [ETH0], now, NO_JITTER) == NewAnnouncer(v, P0, now, NO_JITTER);
    assert NewAnnouncer(v, P0, now, NO_JITTER) == Tries([], now, now);
  }

  lemma Posts(probes: seq<int>, timer: int, clock: int)
    requires |probes| < 3 && clock <= timer
    ensures var w, s := Tries(probes, timer, clock), At0(TimerElapsed(P0), timer);
            && CanTake(w, s) && PostsFor(w, s.event, P0)
            && Take(w, s) == Tries(probes + [timer], timer + PROBE_INTERVAL, timer)
  {
  }

  lemma IsClaimed(probes: seq<int>, timer: int, clock: int, now: int)
    requires |probes| == 3 && clock <= now && timer <= now
    ensures var w, s := Tries(probes, timer, clock), At0(TimerElapsed(P0), now);
            && CanTake(w, s) && !PostsFor(w, s.event, P0)
            && Take(w, s).clock == now && ViewOf(Take(w, s), P0) == Claimed && IsRegistered(Take(w, s), P0)
  {
    var u := Later(Tries(probes, timer, clock), now);
    var b := ProbingDone(u, P0);
    assert b.phase == Announcing;
    assert NextState(Put(u, P0, b), P0, now, NO_JITTER) == Put(Put(u, P0, b), P0, Announced(b, now, 0));
  }

  // ---------- The link ----------

  function Duo(h: nat, mine: World, other: World, clock: int): Net {
    Net(if h == 0 then [mine, other] else [other, mine], multiset{}, multiset{}, clock)
  }

  /** The moves lead to that state of the link. */
  predicate Reaches(moves: seq<Move>, net: Net) {
    AllRivals(PEERS) && IsNetRun(PEERS, 0, moves) && AfterMoves(PEERS, 0, moves) == net
  }

  lemma OneMore(moves: seq<Move>, net: Net, m: Move)
    requires Reaches(moves, net) && CanMove(PEERS, net, m)
    ensures Reaches(moves + [m], Moved(PEERS, net, m))
  {
    hide CanMove, Moved, AllRivals;
    assert (moves + [m])[..|moves|] == moves;
  }

  lemma Quietly(h: nat, mine: World, other: World, clock: int, s: Step)
    requires AllRivals(PEERS) && h < 2 && CanTake(mine, s) && clock <= s.now && !PostsFor(mine, s.event, P0)
    ensures var net := Duo(h, mine, other, clock);
            && CanMove(PEERS, net, Local(h, s))
            && Moved(PEERS, net, Local(h, s)) == Duo(h, Take(mine, s), other, s.now)
  {
    hide AllRivals, Take, CanTake, PostsFor;
  }

  function Other(h: nat): nat {
    if h == 0 then 1 else 0
  }

  lemma OthersAre(h: nat)
    requires h < 2
    ensures ToOthers(h, 2) == {(h, Other(h))}
  {
  }

  /** A host is left alone by a probe when it does not probe, or when its record is the greater one. */
  predicate Unmoved(h: nat, other: World) {
    !IsProbing(other, P0) || h == 1
  }

  lemma Unimpressed(h: nat, other: World, now: int)
    requires AllRivals(PEERS) && h < 2 && Unmoved(h, other) && other.clock <= now
    ensures HearProbe(other, PEERS[Other(h)], PEERS[h].record, now, NO_JITTER) == Later(other, now)
  {
    Rivals();
    hide RecordCompare, Comparable;
    LosesAlone(OwnEntry(other, PEERS[Other(h)]), PEERS[h].record);
  }

  /** The host posts a probe, and the other hears it. */
  function Round(h: nat, t: int): seq<Move> {
    [Local(h, At0(TimerElapsed(P0), t))] + [ProbeArrives(h, Other(h), t, NO_JITTER)]
  }

  /** The moves lead to a host that has posted these probes, with nothing under way. */
  predicate Stage(moves: seq<Move>, h: nat, probes: seq<int>, timer: int, clock: int, other: World) {
    h < 2 && Reaches(moves, Duo(h, Tries(probes, timer, clock), other, clock))
  }

  function UnderWay(h: nat, mine: World, other: World, clock: int): Net {
    Duo(h, mine, other, clock).(probes := multiset{(h, Other(h))})
  }

  lemma PostedMove(h: nat, mine: World, other: World, clock: int, s: Step)
    requires AllRivals(PEERS) && h < 2 && CanTake(mine, s) && clock <= s.now && PostsFor(mine, s.event, P0)
    ensures var net := Duo(h, mine, other, clock);
            && CanMove(PEERS, net, Local(h, s))
            && Moved(PEERS, net, Local(h, s)) == UnderWay(h, Take(mine, s), other, s.now)
  {
    OthersAre(h);
    hide AllRivals, Take, CanTake, PostsFor, ToOthers;
  }

  lemma HeardMove(h: nat, mine: World, other: World, now: int)
    requires AllRivals(PEERS) && h < 2 && other.clock <= now && Unmoved(h, other) && !IsRegistered(other, P0)
    ensures var net, m := UnderWay(h, mine, other, now), ProbeArrives(h, Other(h), now, NO_JITTER);
            CanMove(PEERS, net, m) && Moved(PEERS, net, m) == Duo(h, mine, Later(other, now), now)
  {
    Unimpressed(h, other, now);
    hide AllRivals, HearProbe, IsRegistered, Unmoved;
  }

  lemma Goes(moves: seq<Move>, h: nat, probes: seq<int>, t: int, clock: int, other: World)
    requires Stage(moves, h, probes, t, clock, other) && |probes| < 3 && clock <= t
    requires other.clock <= t && Unmoved(h, other) && !IsRegistered(other, P0)
    ensures Stage(moves + Round(h, t), h, probes + [t], t + PROBE_INTERVAL, t, Later(other, t))
  {
    var mine, s := Tries(probes, t, clock), At0(TimerElapsed(P0), t);
    var m, n := Local(h, s), ProbeArrives(h, Other(h), t, NO_JITTER);
    Posts(probes, t, clock);
    hide AllRivals, Take, CanTake, PostsFor, IsRegistered, Tries, IsNetRun, AfterMoves, CanMove, Moved, Unmoved, Duo,
         UnderWay;
    PostedMove(h, mine, other, clock, s);
    OneMore(moves, Duo(h, mine, other, clock), m);
    HeardMove(h, Take(mine, s), other, t);
    OneMore(moves + [m], UnderWay(h, Take(mine, s), other, t), n);
    assert moves + [m] + [n] == moves + Round(h, t);
  }

  function Beginning(moves: seq<Move>, h: nat, t: int): seq<Move> {
    moves + [Local(h, At0(InterfaceAdded(ETH0), t))] + [Local(h, At0(EntryAdded(0, OWN), t))]
  }

  /** All of a host's probing, from its start to its third probe. */
  function Probing3(moves: seq<Move>, h: nat, t: int): seq<Move> {
    Beginning(moves, h, t) + Round(h, t) + Round(h, t + PROBE_INTERVAL) + Round(h, t + 2 * PROBE_INTERVAL)
  }

  function Third(t: int): World {
    Tries([t, t + PROBE_INTERVAL, t + 2 * PROBE_INTERVAL], t + 3 * PROBE_INTERVAL, t + 2 * PROBE_INTERVAL)
  }

  lemma Begins3(moves: seq<Move>, h: nat, t: int, other: World)
    requires h < 2 && Reaches(moves, Duo(h, Start(t), other, t))
    ensures Stage(Beginning(moves, h, t), h, [], t, t, other)
  {
    var s, r := At0(InterfaceAdded(ETH0), t), At0(EntryAdded(0, OWN), t);
    ComesUp(t, t);
    IsAdded(t);
    hide Take, CanTake, Tries, IsNetRun, AfterMoves, AllRivals;
    Quietly(h, Start(t), other, t, s);
    OneMore(moves, Duo(h, Start(t), other, t), Local(h, s));
    Quietly(h, Bare(t), other, t, r);
    OneMore(moves + [Local(h, s)], Duo(h, Bare(t), other, t), Local(h, r));
  }

  lemma Goes3(u: seq<Move>, h: nat, t: int, t1: int, t2: int, other: World)
    requires Stage(u, h, [], t, t, other) && t1 == t + PROBE_INTERVAL && t2 == t1 + PROBE_INTERVAL
    requires other.clock <= t && Unmoved(h, other) && !IsRegistered(other, P0)
    ensures var v := u + Round(h, t) + Round(h, t1) + Round(h, t2);
            Stage(v, h, [t, t1, t2], t2 + PROBE_INTERVAL, t2, Later(other, t2))
  {
    StillUnmoved(h, other, t);
    StillUnmoved(h, other, t1);
    hide Stage, Round, IsRegistered, Unmoved;
    assert [] + [t] == [t] && [t] + [t1] == [t, t1] && [t, t1] + [t2] == [t, t1, t2];
    Goes(u, h, [], t, t, other);
    Goes(u + Round(h, t), h, [t], t1, t, Later(other, t));
    Goes(u + Round(h, t) + Round(h, t1), h, [t, t1], t2, t1, Later(other, t1));
  }

  lemma Probes3(moves: seq<Move>, h: nat, t: int, other: World)
    requires h < 2 && Reaches(moves, Duo(h, Start(t), other, t)) && other.clock <= t && Unmoved(h, other)
             && !IsRegistered(other, P0)
    ensures var end := t + 2 * PROBE_INTERVAL; Reaches(Probing3(moves, h, t), Duo(h, Third(t), Later(other, end), end))
  {
    var u := Beginning(moves, h, t);
    var t1 := t + PROBE_INTERVAL;
    var t2 := t1 + PROBE_INTERVAL;
    Begins3(moves, h, t, other);
    hide Tries, Reaches, Round, IsRegistered, Unmoved, Beginning, Duo, Start;
    Goes3(u, h, t, t1, t2, other);
  }

  lemma StillUnmoved(h: nat, other: World, t: int)
    requires Unmoved(h, other) && !IsRegistered(other, P0)
    ensures Unmoved(h, Later(other, t)) && !IsRegistered(Later(other, t), P0)
  {
  }

  /** Host 0 posts its third probe at 500 ms, host 1 begins then, and host 0 is silent until host 1 has posted its own
      third probe at 1000 ms: all probes are heard, and both register at 1250 ms. */
  const LATE := Probing3(Probing3([], 0, 0), 1, 500 * MS)
  const CLAIM := At0(TimerElapsed(P0), 1250 * MS)

  lemma NothingYet(none: seq<Move>)
    requires none == []
    ensures Reaches(none, Duo(0, Start(0), Start(0), 0))
  {
    Rivals();
    hide AllRivals;
    assert StartNet(2, 0).hosts == [Start(0), Start(0)];
  }

  lemma OtherSide(a: World, b: World, clock: int)
    ensures Duo(0, a, b, clock) == Duo(1, b, a, clock)
  {
  }

  lemma StartUnmoved()
    ensures Unmoved(0, Start(0)) && !IsRegistered(Start(0), P0) && Later(Start(0), 500 * MS) == Start(500 * MS)
    ensures Unmoved(1, Third(0)) && !IsRegistered(Third(0), P0) && Third(0).clock == 500 * MS
  {
  }

  lemma BothSilent()
    ensures Reaches(LATE, Duo(1, Third(500 * MS), Later(Third(0), 1000 * MS), 1000 * MS))
  {
    StartUnmoved();
    hide Reaches, Probing3, Duo, Third, Unmoved, IsRegistered, Later;
    NothingYet([]);
    Probes3([], 0, 0, Start(0));
    OtherSide(Third(0), Start(500 * MS), 500 * MS);
    Probes3(Probing3([], 0, 0), 1, 500 * MS, Third(0));
  }

  lemma HalfASecondIsTooLate()
    ensures AllRivals(PEERS)
    ensures var net := Duo(1, Third(500 * MS), Later(Third(0), 1000 * MS), 1000 * MS);
            && Reaches(LATE, net) && ViewAt(PEERS, net, 0) == Trying([0, 250 * MS, 500 * MS])
    ensures var moves := LATE + [Local(1, CLAIM)] + [Local(0, CLAIM)];
            && IsNetRun(PEERS, 0, moves)
            && var net := AfterMoves(PEERS, 0, moves);
               && |net.hosts| == 2 && net.probes == net.answers == multiset{}
               && IsRegistered(net.hosts[0], P0) && IsRegistered(net.hosts[1], P0)
  {
    Rivals();
    BothSilent();
    var w0, w1 := Later(Third(0), 1000 * MS), Third(500 * MS);
    IsClaimed([500 * MS, 750 * MS, 1000 * MS], 1250 * MS, 1000 * MS, 1250 * MS);
    IsClaimed([0, 250 * MS, 500 * MS], 750 * MS, 1000 * MS, 1250 * MS);
    assert w0 == Tries([0, 250 * MS, 500 * MS], 750 * MS, 1000 * MS);
    hide Take, CanTake, PostsFor, AllRivals, IsRegistered, IsNetRun, AfterMoves, LATE;
    Quietly(1, w1, w0, 1000 * MS, CLAIM);
    OneMore(LATE, Duo(1, w1, w0, 1000 * MS), Local(1, CLAIM));
    var v1 := Take(w1, CLAIM);
    assert Duo(1, v1, w0, 1250 * MS) == Duo(0, w0, v1, 1250 * MS);
    Quietly(0, w0, v1, 1250 * MS, CLAIM);
    OneMore(LATE + [Local(1, CLAIM)], Duo(0, w0, v1, 1250 * MS), Local(0, CLAIM));
  }
}
