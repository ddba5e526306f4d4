/** Entry groups in whole runs of avahi-core/announce.c, when an interface goes away while a record is probed for on it:
    the count of the group is never lowered again. */
module Orphans {
  import opened Bytes
  import opened Announce
  import opened EntryGroups
  import opened AnnounceRun
  import opened SmallWorld

  /** A live group that has lost a probing announcer since it was last reset. */
  predicate Orphaned(w: World, g: nat) {
    g in w.groups && !w.groups[g].dead && w.groups[g].orphans > 0
  }

  /** The events that start the group over: reset, free, and a collision of one of its entries. */
  predicate Resets(w: World, ev: Event, g: nat) {
    ev == GroupReset(g) || ev == GroupFreed(g) || (ev.EntryWithdrawn? && GroupOf(w, ev.e) == Some(g))
  }

  predicate Keeps(w: World, v: World, g: nat) {
    Orphaned(w, g) ==> Orphaned(v, g)
  }

  lemma SameKeeps(w: World, v: World, g: nat)
    requires SameStates(w, v)
    ensures Keeps(w, v, g)
  {
    if Orphaned(w, g) {
      assert w.groups[g].orphans <= v.groups[g].orphans;
    }
  }

  lemma KeepsOn(w: World, u: World, v: World, w': World, g: nat)
    requires Keeps(w, u, g) && Keeps(u, v, g) && Keeps(v, w', g)
    ensures Keeps(w, w', g)
  {
  }

  lemma CommitRealKeepsOrphans(w: World, h: nat, now: int, jitter: Jitter, g: nat)
    requires Inv(w) && h in w.groups && w.groups[h].registerTimer == None && MayCommit(w.groups[h], now)
    requires w.groups[h].state != Established
    ensures Keeps(w, CommitReal(w, h, now, jitter), g)
  {
    assert HeldOff(w.groups[h]);
    CommittedNowHeldOff(w.groups[h], now);
    hide Inv, HeldOff;
    var u := PutGroup(w, h, CommittedNow(w.groups[h], now));
    assert Keeps(w, u, g);
    hide Keeps, AnnounceGroup, CheckProbed, CommittedNow;
    PutGroupKeeps(w, h, CommittedNow(w.groups[h], now));
    AnnounceGroupKeeps(u, u.entryList, h, now, jitter);
    var v := AnnounceGroup(u, u.entryList, h, now, jitter);
    SameKeeps(u, v, g);
    CheckProbedKeepsOrphans(v, h, false, now, jitter, g);
    KeepsOn(w, u, v, CheckProbed(v, h, false, now, jitter), g);
  }

  lemma CommitKeepsOrphans(w: World, h: nat, now: int, jitter: Jitter, g: nat)
    requires Inv(w) && Committable(w, h)
    ensures Keeps(w, CommitGroup(w, h, now, jitter), g)
  {
    var r := Requested(w.groups[h]);
    assert HeldOff(w.groups[h]);
    assert HeldOff(r) && r.registerTimer == None;
    if r.registerTime <= now {
      assert MayCommit(r, now);
      hide Inv, HeldOff, IsEmpty, CommitReal;
      PutGroupKeeps(w, h, r);
      CommitRealKeepsOrphans(PutGroup(w, h, r), h, now, jitter, g);
    }
  }

  lemma HoldoffKeepsOrphans(w: World, h: nat, now: int, jitter: Jitter, g: nat)
    requires Inv(w) && RegisterDue(w, h, now)
    ensures Keeps(w, RegisterElapsed(w, h, now, jitter), g)
  {
    var r := w.groups[h].(registerTimer := None);
    assert HeldOff(w.groups[h]);
    assert HeldOff(r) && MayCommit(r, now);
    hide Inv, HeldOff, CommitReal;
    PutGroupKeeps(w, h, r);
    CommitRealKeepsOrphans(PutGroup(w, h, r), h, now, jitter, g);
  }

  lemma CheckProbedKeepsOrphans(w: World, h: nat, immediately: bool, now: int, jitter: Jitter, g: nat)
    requires h in w.groups
    ensures Keeps(w, CheckProbed(w, h, immediately, now, jitter), g)
  {
    hide ReleaseAll;
  }

  lemma TimerKeepsOrphans(w: World, p: Place, now: int, jitter: Jitter, g: nat)
    requires p in w.announcers
    ensures Keeps(w, NextState(w, p, now, jitter), g)
    decreases Rank(w.announcers[p].phase)
  {
    hide CheckProbed;
    var a, h := w.announcers[p], GroupOf(w, p.entry);
    match a.phase
    case Settled =>
    case Announcing =>
      PutSameStates(w, p, Announced(a, now, jitter(p)));
      SameKeeps(w, Put(w, p, Announced(a, now, jitter(p))), g);
    case Waiting =>
      if h.Some? && h.value in w.groups {
        CheckProbedKeepsOrphans(w, h.value, true, now, jitter, g);
      }
    case Probing =>
      var b := if a.nIteration >= 4 then ProbingDone(w, p) else ProbePosted(a, now);
      PutSameStates(w, p, b);
      SameKeeps(w, Put(w, p, b), g);
      if a.nIteration >= 4 {
        TimerKeepsOrphans(Put(w, p, b), p, now, jitter, g);
      }
  }

  lemma WithdrawKeepsOrphans(w: World, e: nat, now: int, g: nat)
    requires e in w.entries && GroupOf(w, e) != Some(g)
    ensures Keeps(w, Withdraw(w, e, now), g)
  {
    hide Killed, Outside, Withdrawn;
  }

  /** Nothing but a reset, a free or a collision lets a group forget what it has lost. */
  lemma ApplyKeepsOrphans(w: World, ev: Event, jitter: Jitter, g: nat)
    requires Inv(w) && Enabled(w, ev, w.clock) && !Resets(w, ev, g)
    ensures Keeps(w, Apply(w, ev, w.clock, jitter), g)
  {
    hide Inv, Keeps, AnnounceOn, ReannounceOn, CommitGroup, RegisterElapsed, NextState, Withdraw, AnnounceInterface;
    hide Addable, Committable, Due, RegisterDue, LiveOnly, Killed, Outside, Reflagged, Put, ProbingOn;
    var now := w.clock;
    match ev
    case GroupAdded(h) => SameKeeps(w, NewGroup(w, h), g);
    case EntryAdded(e, entry) =>
      AddKeepsOrphans(w, e, entry, now, jitter, g);
    case EntryUpdated(e, flags, differs) =>
      ReflaggedKeeps(w, e, flags);
      ReflaggedGroups(w, e, flags);
      ReannounceOnKeeps(Reflagged(w, e, flags), e, Reflagged(w, e, flags).interfaces, now, jitter);
      SameKeeps(w, UpdateEntry(w, e, flags, differs, now, jitter), g);
    case GroupCommitted(h) => CommitKeepsOrphans(w, h, now, jitter, g);
    case HoldoffElapsed(h) => HoldoffKeepsOrphans(w, h, now, jitter, g);
    case TimerElapsed(p) => DueIsThere(w, p, now); TimerKeepsOrphans(w, p, now, jitter, g);
    case GroupReset(h) => OtherGroup(w, h, Withdrawn(w.groups[h], Uncommitted, now), g);
    case GroupFreed(h) => OtherGroup(w, h, w.groups[h].(registerTimer := None, dead := true), g);
    case EntryWithdrawn(e) => WithdrawKeepsOrphans(w, e, now, g);
    case Challenged(p) => ChallengeKeepsOrphans(w, p, now, jitter, g);
    case InterfaceAdded(i) =>
      MoreInterfaces(w, i);
      AnnounceInterfaceKeeps(
        WithInterface(w, i),
        w.entryList, i, now, jitter);
      SameKeeps(w, InterfaceUp(w, i, now, jitter), g);
    case InterfaceRemoved(i) => SameKeeps(w, InterfaceDown(w, i), g);
    case DeadCleaned => CleanupKeepsOrphans(w, g);
  }

  lemma AddKeepsOrphans(w: World, e: nat, entry: Entry, now: int, jitter: Jitter, g: nat)
    requires Inv(w) && Addable(w, e, entry)
    ensures Keeps(w, AddEntry(w, e, entry, now, jitter), g)
  {
    hide Inv, Keeps, AnnounceOn;
    InsertedKeeps(w, e, entry);
    AnnounceOnKeeps(Inserted(w, e, entry), e, w.interfaces, now, jitter);
    SameKeeps(w, AddEntry(w, e, entry, now, jitter), g);
  }

  lemma DueIsThere(w: World, p: Place, now: int)
    requires Due(w, p, now)
    ensures p in w.announcers
  {
  }

  lemma ReflaggedGroups(w: World, e: nat, flags: Flags)
    requires e in w.entries
    ensures Reflagged(w, e, flags).groups == w.groups
  {
  }

  lemma OtherGroup(w: World, h: nat, gr: Group, g: nat)
    requires h != g
    ensures Keeps(w, Discard(w, h, gr), g)
  {
    hide Killed, Outside;
  }

  lemma ChallengeKeepsOrphans(w: World, p: Place, now: int, jitter: Jitter, g: nat)
    ensures Keeps(w, ReturnToInitial(w, p, now, jitter), g)
  {
    if p in w.announcers && p.entry in w.entries {
      var a := Restarted(Finished(w, p), InitialPhase(w, p.entry), now, jitter(p));
      PutSameStates(w, p, a);
      hide Put;
      SameKeeps(w, Put(w, p, a), g);
    }
  }

  lemma CleanupKeepsOrphans(w: World, g: nat)
    ensures Keeps(w, Cleanup(w), g)
  {
    hide LiveOnly;
  }

  /** In every run, a group that has lost a probing announcer and is not established stays so, and keeps the loss, until
      it is reset, freed or collides. */
  lemma {:induction false} StaysOut(clock: int, steps: seq<Step>, n: nat, g: nat)
    requires IsRun(clock, steps) && n <= |steps| && IsRun(clock, steps[..n])
    requires Orphaned(After(clock, steps[..n]), g) && After(clock, steps[..n]).groups[g].state != Established
    requires forall i :: n <= i < |steps| && IsRun(clock, steps[..i]) ==>
               !Resets(After(clock, steps[..i]), steps[i].event, g)
    ensures Orphaned(After(clock, steps), g) && After(clock, steps).groups[g].state != Established
    decreases |steps|
  {
    hide CanTake, Take, Orphaned, Resets;
    if n == |steps| {
      assert steps[..n] == steps;
    } else {
      var m := |steps| - 1;
      var before, s := steps[..m], steps[m];
      assert before[..n] == steps[..n];
      forall i | n <= i < |before| && IsRun(clock, before[..i])
        ensures !Resets(After(clock, before[..i]), before[i].event, g)
      {
        assert before[..i] == steps[..i] && before[i] == steps[i];
      }
      StaysOut(clock, before, n, g);
      InvariantOfRuns(clock, before);
      EstablishedMeansProbed(clock, before, s);
      hide Inv, IsRun, After;
      OneStep(After(clock, before), s, g);
    }
  }

  lemma OneStep(w: World, s: Step, g: nat)
    requires Inv(w) && CanTake(w, s) && !Resets(w, s.event, g) && Orphaned(w, g) && w.groups[g].state != Established
    requires Establishing(w, Take(w, s))
    ensures Orphaned(Take(w, s), g) && Take(w, s).groups[g].state != Established
  {
    LaterKeeps(w, s.now);
    hide Inv, Apply, Enabled;
    ApplyKeepsOrphans(Later(w, s.now), s.event, s.jitter, g);
  }

  // ---------- Such a run ----------

  const OWN := EntryOf(Some(0), UNIQUE)

  const GROUPED := World(map[0 := OWN], [0], map[0 := PLAIN], map[], [ETH0], {ETH0}, 0)

  const BUSY := Group(Registering, false, 1, 0, 1, SECOND, None, 0, [Commit(SECOND, 1)])

  const PROBING := World(map[0 := OWN], [0], map[0 := BUSY],
                         map[P0 := Announcer(Probing, 1, 1, Some(SECOND), [], [], Prompt)], [ETH0], {ETH0}, SECOND)

  const UP := At0(InterfaceAdded(ETH0), 0)
  const GROUP := At0(GroupAdded(0), 0)
  const ENTRY := At0(EntryAdded(0, OWN), 0)
  const COMMIT := At0(GroupCommitted(0), SECOND)
  const DOWN := At0(InterfaceRemoved(ETH0), SECOND)

  lemma Prepared()
    ensures var w1 := Bare(0);
            var w2 := w1.(groups := map[0 := PLAIN]);
            && CanTake(Start(0), UP) && Take(Start(0), UP) == w1
            && CanTake(w1, GROUP) && Take(w1, GROUP) == w2
            && CanTake(w2, ENTRY) && Take(w2, ENTRY) == GROUPED
  {
    ComesUp(0, 0);
    var w2 := Bare(0).(groups := map[0 := PLAIN]);
    var v := Inserted(w2, 0, OWN);
    assert AnnounceOn(v, 0, [ETH0], 0, NO_JITTER) == NewAnnouncer(AnnounceOn(v, 0, [], 0, NO_JITTER), P0, 0, NO_JITTER);
    assert AnnounceOn(v, 0, [], 0, NO_JITTER) == v;
  }

  lemma CommitProbes()
    ensures CanTake(GROUPED, COMMIT) && Take(GROUPED, COMMIT) == PROBING
  {
    var w := Later(GROUPED, SECOND);
    assert !IsEmpty(w, 0) by { assert w.entries[0] == OWN; }
    var u := PutGroup(PutGroup(w, 0, Requested(PLAIN)), 0, CommittedNow(Requested(PLAIN), SECOND));
    assert [0][..0] == [] && [ETH0][..0] == [];
    assert AnnounceGroup(u, [], 0, SECOND, NO_JITTER) == u;
    assert AnnounceOn(u, 0, [], SECOND, NO_JITTER) == u;
    assert AnnounceOn(u, 0, [ETH0], SECOND, NO_JITTER) == NewAnnouncer(u, P0, SECOND, NO_JITTER);
    var v := NewAnnouncer(u, P0, SECOND, NO_JITTER);
    assert v.announcers == PROBING.announcers && v.groups[0] == BUSY && v.groups == PROBING.groups;
    assert v == PROBING;
    assert AnnounceGroup(u, [0], 0, SECOND, NO_JITTER) == PROBING;
  }

  lemma LosesOne()
    ensures CanTake(PROBING, DOWN) && Orphaned(Take(PROBING, DOWN), 0)
            && Take(PROBING, DOWN).groups[0].state == Registering
  {
    assert P0 in ProbingOn(PROBING, 0, ETH0);
  }

  /** A run in which a group loses its only probing announcer, so that it is stuck in REGISTERING. */
  lemma MayLoseItsProbe() returns (steps: seq<Step>)
    ensures IsRun(0, steps) && Orphaned(After(0, steps), 0) && After(0, steps).groups[0].state == Registering
  {
    hide IsRun, After, CanTake, Take;
    NothingYet(0);
    Prepared();
    CommitProbes();
    LosesOne();
    Extend(0, [], UP);
    Extend(0, [] + [UP], GROUP);
    Extend(0, [] + [UP] + [GROUP], ENTRY);
    Extend(0, [] + [UP] + [GROUP] + [ENTRY], COMMIT);
    steps := [] + [UP] + [GROUP] + [ENTRY] + [COMMIT];
    Extend(0, steps, DOWN);
    steps := steps + [DOWN];
  }
}
