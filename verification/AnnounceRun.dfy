/** Whole runs of avahi-core/announce.c and avahi-core/entry.c: whatever the order of requests, conflicts, timers
    and interface changes. */
module AnnounceRun {
  import opened Bytes
  import opened Announce
  import opened EntryGroups

  datatype Event =
    | GroupAdded(g: nat)
    | EntryAdded(e: nat, entry: Entry)
    | EntryUpdated(e: nat, flags: Flags, differs: bool)
    | GroupCommitted(g: nat)
    | HoldoffElapsed(g: nat)
    | TimerElapsed(p: Place)
    | GroupReset(g: nat)
    | GroupFreed(g: nat)
    | EntryWithdrawn(e: nat)
    | Challenged(p: Place)
    | InterfaceAdded(i: Interface)
    | InterfaceRemoved(i: Interface)
    | DeadCleaned

  datatype Step = Step(event: Event, now: int, jitter: Jitter)

  /** When an event can happen: names of new things are fresh, requests concern things that exist, and timers
      fire when they are due. */
  predicate Enabled(w: World, ev: Event, now: int) {
    match ev
    case GroupAdded(g) => g !in w.groups
    case EntryAdded(e, entry) => Addable(w, e, entry)
    case EntryUpdated(e, _, _) => Live(w, e)
    case GroupCommitted(g) => Committable(w, g)
    case HoldoffElapsed(g) => RegisterDue(w, g, now)
    case TimerElapsed(p) => Due(w, p, now)
    case GroupReset(g) => g in w.groups && !w.groups[g].dead
    case GroupFreed(g) => g in w.groups && !w.groups[g].dead
    case EntryWithdrawn(e) => e in w.entries
    case Challenged(p) => p in w.announcers
    case InterfaceAdded(_) => true
    case InterfaceRemoved(_) => true
    case DeadCleaned => true
  }

  function Apply(w: World, ev: Event, now: int, jitter: Jitter): World
    requires Enabled(w, ev, now)
  {
    match ev
    case GroupAdded(g) => NewGroup(w, g)
    case EntryAdded(e, entry) => AddEntry(w, e, entry, now, jitter)
    case EntryUpdated(e, flags, differs) => UpdateEntry(w, e, flags, differs, now, jitter)
    case GroupCommitted(g) => CommitGroup(w, g, now, jitter)
    case HoldoffElapsed(g) => RegisterElapsed(w, g, now, jitter)
    case TimerElapsed(p) => NextState(w, p, now, jitter)
    case GroupReset(g) => ResetGroup(w, g, Uncommitted, now)
    case GroupFreed(g) => FreeGroup(w, g)
    case EntryWithdrawn(e) => Withdraw(w, e, now)
    case Challenged(p) => ReturnToInitial(w, p, now, jitter)
    case InterfaceAdded(i) => InterfaceUp(w, i, now, jitter)
    case InterfaceRemoved(i) => InterfaceDown(w, i)
    case DeadCleaned => Cleanup(w)
  }

  predicate CanTake(w: World, s: Step) {
    w.clock <= s.now && Enabled(Later(w, s.now), s.event, s.now)
  }

  function Take(w: World, s: Step): World
    requires CanTake(w, s)
  {
    Apply(Later(w, s.now), s.event, s.now, s.jitter)
  }

  lemma ApplyKeeps(w: World, ev: Event, jitter: Jitter)
    requires Inv(w) && Enabled(w, ev, w.clock)
    ensures Inv(Apply(w, ev, w.clock, jitter))
  {
    hide Inv, NewGroup, AddEntry, UpdateEntry, CommitGroup, RegisterElapsed, NextState, ResetGroup, FreeGroup, Withdraw,
         ReturnToInitial, InterfaceUp, InterfaceDown, Cleanup, Addable, Committable, Due, RegisterDue;
    var now := w.clock;
    match ev
    case GroupAdded(g) => NewGroupKeeps(w, g);
    case EntryAdded(e, entry) => AddEntryKeeps(w, e, entry, now, jitter);
    case EntryUpdated(e, flags, differs) => UpdateEntryKeeps(w, e, flags, differs, now, jitter);
    case GroupCommitted(g) => CommitGroupKeeps(w, g, now, jitter);
    case HoldoffElapsed(g) => RegisterElapsedKeeps(w, g, now, jitter);
    case TimerElapsed(p) => NextStateKeeps(w, p, jitter);
    case GroupReset(g) => ResetGroupKeeps(w, g, Uncommitted, now);
    case GroupFreed(g) => FreeGroupKeeps(w, g);
    case EntryWithdrawn(e) => WithdrawKeeps(w, e, now);
    case Challenged(p) => ReturnToInitialKeeps(w, p, now, jitter);
    case InterfaceAdded(i) => InterfaceUpKeeps(w, i, now, jitter);
    case InterfaceRemoved(i) => InterfaceDownKeeps(w, i);
    case DeadCleaned => CleanupKeeps(w);
  }

  function Start(clock: int): World {
    World(map[], [], map[], map[], [], {}, clock)
  }

  predicate IsRun(clock: int, steps: seq<Step>)
    decreases |steps|, 0
  {
    steps == [] ||
    (IsRun(clock, steps[..|steps| - 1]) && CanTake(After(clock, steps[..|steps| - 1]), steps[|steps| - 1]))
  }

  function After(clock: int, steps: seq<Step>): World
    requires IsRun(clock, steps)
    decreases |steps|, 1
  {
    if steps == [] then Start(clock) else Take(After(clock, steps[..|steps| - 1]), steps[|steps| - 1])
  }

  lemma TakeKeeps(w: World, s: Step)
    requires Inv(w) && CanTake(w, s)
    ensures Inv(Take(w, s))
  {
    hide Inv, Enabled, Apply;
    LaterKeeps(w, s.now);
    ApplyKeeps(Later(w, s.now), s.event, s.jitter);
  }

  lemma {:induction false} InvariantOfRuns(clock: int, steps: seq<Step>)
    requires IsRun(clock, steps)
    ensures Inv(After(clock, steps))
    decreases |steps|
  {
    hide CanTake, Take;
    if steps != [] {
      hide Inv;
      InvariantOfRuns(clock, steps[..|steps| - 1]);
      TakeKeeps(After(clock, steps[..|steps| - 1]), steps[|steps| - 1]);
    }
  }

  // ---------- Groups ----------

  /** In every run the count of a live group is exactly the number of its probing announcers and of those lost
      while probing; an announcer waits only while its group is being registered; real commits keep the
      hold-off; and a pending register timer means that the group is being registered. */
  lemma GroupsInRuns(clock: int, steps: seq<Step>, g: nat)
    requires IsRun(clock, steps) && g in After(clock, steps).groups
    ensures var w := After(clock, steps);
            var gr := w.groups[g];
            && (!gr.dead ==> gr.nProbing == |ProbingOf(w.entries, w.announcers, g)| + gr.orphans)
            && (forall p {:trigger w.announcers[p]} ::
                  p in w.announcers && In(w.entries, p, g) && w.announcers[p].phase == Waiting ==>
                    gr.state == Registering)
            && (forall i {:trigger gr.commits[i]} :: 0 < i < |gr.commits| ==>
                  gr.commits[i].time - gr.commits[i - 1].time >=
                    (if gr.commits[i].tries >= 15 then 20_000_000 else 1_000_000))
            && (gr.registerTimer.Some? ==> gr.state == Registering)
  {
    InvariantOfRuns(clock, steps);
    var w := After(clock, steps);
    hide After, IsRun;
    assert CountOK(w, g) && HeldOff(w.groups[g]);
    forall p {:trigger w.announcers[p]} | p in w.announcers && In(w.entries, p, g) && w.announcers[p].phase == Waiting
      ensures w.groups[g].state == Registering
    {
      assert AnnouncerOK(w, p, w.announcers[p]);
    }
  }

  /** Group g is there before and after, and not established before. */
  predicate Unestablished(w: World, w': World, g: nat) {
    g in w.groups && g in w'.groups && w.groups[g].state != Established
  }

  /** Groups that become established have nothing left to probe for. */
  ghost predicate Establishing(w: World, w': World) {
    forall g {:trigger w'.groups[g]} :: Unestablished(w, w', g) && w'.groups[g].state == Established ==>
      ProbingOf(w'.entries, w'.announcers, g) == {} && w'.groups[g].orphans == 0
  }

  /** No group is established that was not. */
  ghost predicate NotEstablishing(w: World, w': World) {
    forall g {:trigger w'.groups[g]} :: Unestablished(w, w', g) ==>
      w'.groups[g].state != Established
  }

  lemma CheckProbedEstablishes(w: World, g: nat, immediately: bool, now: int, jitter: Jitter)
    requires Inv(w) && g in w.groups && !w.groups[g].dead
    ensures Establishing(w, CheckProbed(w, g, immediately, now, jitter))
  {
    assert CountOK(w, g);
    hide AnnouncersOK, GroupsOK, EntriesOK, ReleaseAll, ProbingOf;
    ReleaseProbing(w, g, immediately, now, jitter, g);
  }

  lemma Through(w: World, v: World, w': World)
    requires NotEstablishing(w, v) && Establishing(v, w') && w.groups.Keys <= v.groups.Keys
    ensures Establishing(w, w')
  {
    hide ProbingOf;
    forall g {:trigger w'.groups[g]} | Unestablished(w, w', g) && w'.groups[g].state == Established
      ensures ProbingOf(w'.entries, w'.announcers, g) == {} && w'.groups[g].orphans == 0
    {
      assert v.groups[g].state != Established;
    }
  }

  lemma SameIsNotEstablishing(w: World, w': World)
    requires SameStates(w, w')
    ensures NotEstablishing(w, w')
  {
    forall g {:trigger w'.groups[g]} | Unestablished(w, w', g) ensures w'.groups[g].state != Established {
      assert w.groups[g].state == w'.groups[g].state;
    }
  }

  lemma CommitRealEstablishes(w: World, g: nat, now: int, jitter: Jitter)
    requires Inv(w) && g in w.groups && w.groups[g].registerTimer == None && MayCommit(w.groups[g], now)
    requires w.groups[g].state != Established && !w.groups[g].dead
    ensures Establishing(w, CommitReal(w, g, now, jitter))
  {
    assert HeldOff(w.groups[g]);
    CommittedNowHeldOff(w.groups[g], now);
    var u := PutGroup(w, g, CommittedNow(w.groups[g], now));
    assert NotEstablishing(w, u) by { hide Inv; }
    hide HeldOff, Inv, NotEstablishing, Establishing;
    PutGroupKeeps(w, g, CommittedNow(w.groups[g], now));
    AnnounceGroupKeeps(u, u.entryList, g, now, jitter);
    var v := AnnounceGroup(u, u.entryList, g, now, jitter);
    SameIsNotEstablishing(u, v);
    assert v.groups[g].dead == u.groups[g].dead;
    CheckProbedEstablishes(v, g, false, now, jitter);
    NotThenNot(w, u, v);
    Through(w, v, CheckProbed(v, g, false, now, jitter));
  }

  lemma NotThenNot(w: World, v: World, w': World)
    requires NotEstablishing(w, v) && NotEstablishing(v, w') && w.groups.Keys <= v.groups.Keys
    ensures NotEstablishing(w, w')
  {
    forall g {:trigger w'.groups[g]} | Unestablished(w, w', g) ensures w'.groups[g].state != Established {
      assert v.groups[g].state != Established;
    }
  }

  lemma NotIsEstablishing(w: World, w': World)
    requires NotEstablishing(w, w')
    ensures Establishing(w, w')
  {
    hide ProbingOf;
  }

  lemma PutGroupNotEstablishing(w: World, g: nat, gr: Group)
    requires gr.state != Established
    ensures NotEstablishing(w, PutGroup(w, g, gr))
  {
  }

  lemma CommitEstablishes(w: World, g: nat, now: int, jitter: Jitter)
    requires Inv(w) && Committable(w, g)
    ensures Establishing(w, CommitGroup(w, g, now, jitter))
  {
    var r := Requested(w.groups[g]);
    assert HeldOff(w.groups[g]);
    assert HeldOff(r) && r.registerTimer == None;
    if r.registerTime <= now {
      assert MayCommit(r, now);
      hide Inv, HeldOff, Establishing, NotEstablishing, IsEmpty;
      var v := PutGroup(w, g, r);
      PutGroupKeeps(w, g, r);
      PutGroupNotEstablishing(w, g, r);
      CommitRealEstablishes(v, g, now, jitter);
      Through(w, v, CommitReal(v, g, now, jitter));
    } else {
      hide Inv, HeldOff, Establishing, NotEstablishing, IsEmpty;
      var gr := ChangeState(r.(registerTimer := Some(r.registerTime)), Registering, now);
      PutGroupNotEstablishing(w, g, gr);
      NotIsEstablishing(w, PutGroup(w, g, gr));
    }
  }

  lemma HoldoffEstablishes(w: World, g: nat, now: int, jitter: Jitter)
    requires Inv(w) && RegisterDue(w, g, now)
    ensures Establishing(w, RegisterElapsed(w, g, now, jitter))
  {
    var r := w.groups[g].(registerTimer := None);
    assert HeldOff(w.groups[g]);
    assert HeldOff(r) && MayCommit(r, now);
    hide Inv, HeldOff, Establishing, NotEstablishing;
    var v := PutGroup(w, g, r);
    PutGroupKeeps(w, g, r);
    PutGroupNotEstablishing(w, g, r);
    CommitRealEstablishes(v, g, now, jitter);
    Through(w, v, CommitReal(v, g, now, jitter));
  }

  lemma PutEstablishes(w: World, p: Place, a: Announcer)
    ensures Establishing(w, Put(w, p, a)) && NotEstablishing(w, Put(w, p, a))
  {
    hide Establishing, NotEstablishing;
    PutSameStates(w, p, a);
    SameIsNotEstablishing(w, Put(w, p, a));
    NotIsEstablishing(w, Put(w, p, a));
  }

  lemma ProbingDoneEstablishes(w: World, p: Place, jitter: Jitter)
    requires Inv(w) && Due(w, p, w.clock) && w.announcers[p].phase == Probing && w.announcers[p].nIteration >= 4
    ensures Establishing(w, NextState(Put(w, p, ProbingDone(w, p)), p, w.clock, jitter))
  {
    var b, now := ProbingDone(w, p), w.clock;
    DoneIsOK(w, p);
    hide Inv, Establishing, NotEstablishing, AnnouncerOK;
    var v := Put(w, p, b);
    PutEstablishes(w, p, b);
    if b.phase == Waiting {
      PutKeeps(w, p, b);
      var g := GroupOf(w, p.entry).value;
      AnnouncerGroup(w, p, b);
      CheckProbedEstablishes(v, g, true, now, jitter);
      Through(w, v, CheckProbed(v, g, true, now, jitter));
    } else {
      var c := Announced(b, now, jitter(p));
      PutTwice(w, p, b, c);
      PutEstablishes(w, p, c);
    }
  }

  lemma AnnouncerGroup(w: World, p: Place, a: Announcer)
    requires AnnouncerOK(w, p, a) && GroupOf(w, p.entry).Some?
    ensures var g := GroupOf(w, p.entry).value; g in w.groups && !w.groups[g].dead
  {
  }

  lemma TimerEstablishes(w: World, p: Place, jitter: Jitter)
    requires Inv(w) && Due(w, p, w.clock)
    ensures Establishing(w, NextState(w, p, w.clock, jitter))
  {
    var a, now := w.announcers[p], w.clock;
    assert AnnouncerOK(w, p, a);
    hide Inv, Establishing, NotEstablishing, CheckProbed;
    match a.phase
    case Waiting =>
    case Settled =>
    case Announcing => PutEstablishes(w, p, Announced(a, now, jitter(p)));
    case Probing =>
      if a.nIteration >= 4 {
        ProbingDoneEstablishes(w, p, jitter);
      } else {
        PutEstablishes(w, p, ProbePosted(a, now));
      }
  }

  lemma DiscardEstablishes(w: World, g: nat, gr: Group)
    requires g in w.groups && (gr.state == w.groups[g].state || gr.state != Established)
    ensures Establishing(w, Discard(w, g, gr))
  {
    hide Establishing, In;
    assert NotEstablishing(w, Discard(w, g, gr));
    NotIsEstablishing(w, Discard(w, g, gr));
  }

  lemma WithdrawEstablishes(w: World, e: nat, now: int)
    requires e in w.entries
    ensures Establishing(w, Withdraw(w, e, now))
  {
    hide Establishing, Discard;
    var g := w.entries[e].group;
    if w.entries[e].dead || g.None? || g.value !in w.groups {
      assert NotEstablishing(w, Withdraw(w, e, now));
      NotIsEstablishing(w, Withdraw(w, e, now));
    } else {
      DiscardEstablishes(w, g.value, Withdrawn(w.groups[g.value], Collision, now));
    }
  }

  lemma SameEstablishes(w: World, w': World)
    requires SameStates(w, w')
    ensures Establishing(w, w')
  {
    hide Establishing, SameStates, NotEstablishing;
    SameIsNotEstablishing(w, w');
    NotIsEstablishing(w, w');
  }

  lemma AddEstablishes(w: World, e: nat, entry: Entry, now: int, jitter: Jitter)
    requires Inv(w) && Addable(w, e, entry)
    ensures Establishing(w, AddEntry(w, e, entry, now, jitter))
  {
    hide Inv, Establishing, AnnounceOn;
    InsertedKeeps(w, e, entry);
    AnnounceOnKeeps(Inserted(w, e, entry), e, w.interfaces, now, jitter);
    SameEstablishes(w, AddEntry(w, e, entry, now, jitter));
  }

  lemma UpdateEstablishes(w: World, e: nat, flags: Flags, differs: bool, now: int, jitter: Jitter)
    requires Inv(w) && e in w.entries
    ensures Establishing(w, UpdateEntry(w, e, flags, differs, now, jitter))
  {
    hide Inv, Establishing, ReannounceOn;
    ReflaggedKeeps(w, e, flags);
    var v := Reflagged(w, e, flags);
    ReannounceOnKeeps(v, e, v.interfaces, now, jitter);
    SameEstablishes(w, UpdateEntry(w, e, flags, differs, now, jitter));
  }

  lemma InterfaceUpEstablishes(w: World, i: Interface, now: int, jitter: Jitter)
    requires Inv(w)
    ensures Establishing(w, InterfaceUp(w, i, now, jitter))
  {
    hide Inv, Establishing;
    var v := WithInterface(w, i);
    MoreInterfaces(w, i);
    AnnounceInterfaceKeeps(v, v.entryList, i, now, jitter);
    SameEstablishes(w, InterfaceUp(w, i, now, jitter));
  }

  lemma ApplyEstablishes(w: World, ev: Event, jitter: Jitter)
    requires Inv(w) && Enabled(w, ev, w.clock)
    ensures Establishing(w, Apply(w, ev, w.clock, jitter))
  {
    hide Inv, Establishing, AddEntry, UpdateEntry, CommitGroup, RegisterElapsed, NextState, Discard, Withdraw,
         InterfaceUp, Addable, Committable, Due, RegisterDue, LiveOnly;
    var now := w.clock;
    match ev
    case GroupAdded(g) => SameEstablishes(w, NewGroup(w, g));
    case EntryAdded(e, entry) => AddEstablishes(w, e, entry, now, jitter);
    case EntryUpdated(e, flags, differs) => UpdateEstablishes(w, e, flags, differs, now, jitter);
    case GroupCommitted(g) => CommitEstablishes(w, g, now, jitter);
    case HoldoffElapsed(g) => HoldoffEstablishes(w, g, now, jitter);
    case TimerElapsed(p) => TimerEstablishes(w, p, jitter);
    case GroupReset(g) => DiscardEstablishes(w, g, Withdrawn(w.groups[g], Uncommitted, now));
    case GroupFreed(g) => DiscardEstablishes(w, g, w.groups[g].(registerTimer := None, dead := true));
    case EntryWithdrawn(e) => WithdrawEstablishes(w, e, now);
    case Challenged(p) => ChallengeEstablishes(w, p, now, jitter);
    case InterfaceAdded(i) => InterfaceUpEstablishes(w, i, now, jitter);
    case InterfaceRemoved(i) => SameEstablishes(w, InterfaceDown(w, i));
    case DeadCleaned => NotIsEstablishing(w, Cleanup(w));
  }

  lemma ChallengeEstablishes(w: World, p: Place, now: int, jitter: Jitter)
    ensures Establishing(w, ReturnToInitial(w, p, now, jitter))
  {
    hide Establishing;
    if p in w.announcers && p.entry in w.entries {
      PutSameStates(w, p, Restarted(w.announcers[p].probes, InitialPhase(w, p.entry), now, jitter(p)));
    }
    SameEstablishes(w, ReturnToInitial(w, p, now, jitter));
  }

  /** In every run, at the step where a group becomes established none of its announcers is probing, and none was
      lost while probing: a group whose probing announcer went away with its interface is not established
      before it is reset. */
  lemma EstablishedMeansProbed(clock: int, steps: seq<Step>, s: Step)
    requires IsRun(clock, steps) && CanTake(After(clock, steps), s)
    ensures Establishing(After(clock, steps), Take(After(clock, steps), s))
  {
    InvariantOfRuns(clock, steps);
    var w := After(clock, steps);
    hide Inv, Apply, Enabled, After, IsRun;
    LaterKeeps(w, s.now);
    ApplyEstablishes(Later(w, s.now), s.event, s.jitter);
  }

  // ---------- Steps of a run ----------

  lemma CommittableGroup(w: World, g: nat)
    requires Committable(w, g)
    ensures g in w.groups
  {
  }

  lemma DueGroup(w: World, g: nat, now: int)
    requires RegisterDue(w, g, now)
    ensures g in w.groups
  {
  }

  lemma NothingYet(clock: int)
    ensures IsRun(clock, []) && After(clock, []) == Start(clock)
  {
  }

  lemma Extend(clock: int, steps: seq<Step>, s: Step)
    requires IsRun(clock, steps) && CanTake(After(clock, steps), s)
    ensures IsRun(clock, steps + [s]) && After(clock, steps + [s]) == Take(After(clock, steps), s)
  {
    hide CanTake, Take;
    assert (steps + [s])[..|steps|] == steps;
  }

  /** A part of a run from its beginning is a run. */
  lemma {:induction false} PartOfRun(clock: int, steps: seq<Step>, n: nat)
    requires IsRun(clock, steps) && n <= |steps|
    ensures IsRun(clock, steps[..n])
    decreases |steps|
  {
    hide CanTake, Take;
    if n < |steps| {
      assert steps[..|steps| - 1][..n] == steps[..n];
      PartOfRun(clock, steps[..|steps| - 1], n);
    } else {
      assert steps[..n] == steps;
    }
  }
}
