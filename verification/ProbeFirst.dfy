/** Probe before claim (section 8.1 of RFC 6762) in whole runs of avahi-core/announce.c: when a record is claimed with
    its probes sent, and exactly which updates let it be claimed without. */
module ProbeFirst {
  import opened Bytes
  import opened Announce
  import opened EntryGroups
  import opened AnnounceRun
  import opened SmallWorld

  /** Beyond probing, without a finished probing behind it. */
  predicate PastProbing(w: World, p: Place) {
    p in w.announcers && w.announcers[p].phase != Probing && w.announcers[p].probes == []
  }

  /** The same of a record that has to be probed for: if it is not registered yet, it will be without a probe. */
  predicate Unprobed(w: World, p: Place) {
    PastProbing(w, p) && p.entry in w.entries && Probes(w.entries[p.entry].flags)
  }

  /** Nothing becomes unprobed. */
  ghost predicate NoneNew(w: World, v: World) {
    forall p {:trigger Unprobed(v, p)} :: Unprobed(v, p) ==> Unprobed(w, p)
  }

  lemma NoneThenNone(w: World, v: World, u: World)
    requires NoneNew(w, v) && NoneNew(v, u)
    ensures NoneNew(w, u)
  {
    hide Unprobed;
  }

  lemma PutNoneNew(w: World, p: Place, a: Announcer)
    requires a.phase == Probing || a.probes != [] || PastProbing(w, p)
             || p.entry !in w.entries || !Probes(w.entries[p.entry].flags)
    ensures NoneNew(w, Put(w, p, a))
  {
  }

  lemma LaunchNoneNew(w: World, p: Place, now: int, jitter: Jitter)
    requires p.entry in w.entries
    ensures NoneNew(w, Launch(w, p, now, jitter))
  {
    hide NoneNew;
    PutNoneNew(w, p, Restarted(Finished(w, p), InitialPhase(w, p.entry), now, jitter(p)));
  }

  lemma NewNoneNew(w: World, p: Place, now: int, jitter: Jitter)
    ensures NoneNew(w, NewAnnouncer(w, p, now, jitter))
  {
    if Wanted(w, p) {
      LaunchNoneNew(w, p, now, jitter);
    }
  }

  lemma {:induction false} OnNoneNew(w: World, e: nat, ifaces: seq<Interface>, now: int, jitter: Jitter)
    ensures NoneNew(w, AnnounceOn(w, e, ifaces, now, jitter))
    decreases |ifaces|
  {
    if ifaces != [] {
      hide NoneNew, NewAnnouncer;
      var v := AnnounceOn(w, e, ifaces[..|ifaces| - 1], now, jitter);
      OnNoneNew(w, e, ifaces[..|ifaces| - 1], now, jitter);
      NewNoneNew(v, Place(e, ifaces[|ifaces| - 1]), now, jitter);
      NoneThenNone(w, v, AnnounceOn(w, e, ifaces, now, jitter));
    }
  }

  lemma {:induction false} GroupNoneNew(w: World, es: seq<nat>, g: nat, now: int, jitter: Jitter)
    ensures NoneNew(w, AnnounceGroup(w, es, g, now, jitter))
    decreases |es|
  {
    if es != [] {
      hide NoneNew, AnnounceOn;
      var v, e := AnnounceGroup(w, es[..|es| - 1], g, now, jitter), es[|es| - 1];
      GroupNoneNew(w, es[..|es| - 1], g, now, jitter);
      OnNoneNew(v, e, v.interfaces, now, jitter);
      NoneThenNone(w, v, AnnounceOn(v, e, v.interfaces, now, jitter));
    }
  }

  lemma {:induction false} InterfaceNoneNew(w: World, es: seq<nat>, i: Interface, now: int, jitter: Jitter)
    ensures NoneNew(w, AnnounceInterface(w, es, i, now, jitter))
    decreases |es|
  {
    if es != [] {
      hide NoneNew, NewAnnouncer;
      var v, e := AnnounceInterface(w, es[..|es| - 1], i, now, jitter), es[|es| - 1];
      InterfaceNoneNew(w, es[..|es| - 1], i, now, jitter);
      NewNoneNew(v, Place(e, i), now, jitter);
      NoneThenNone(w, v, NewAnnouncer(v, Place(e, i), now, jitter));
    }
  }

  lemma CheckProbedNoneNew(w: World, g: nat, immediately: bool, now: int, jitter: Jitter)
    requires g in w.groups
    ensures NoneNew(w, CheckProbed(w, g, immediately, now, jitter))
  {
    hide ChangeState;
  }

  lemma CommitRealNoneNew(w: World, g: nat, now: int, jitter: Jitter)
    requires g in w.groups
    ensures NoneNew(w, CommitReal(w, g, now, jitter))
  {
    var u := PutGroup(w, g, CommittedNow(w.groups[g], now));
    var v := AnnounceGroup(u, w.entryList, g, now, jitter);
    assert NoneNew(w, u);
    GroupNoneNew(u, w.entryList, g, now, jitter);
    NoneThenNone(w, u, v);
    hide NoneNew, AnnounceGroup, CheckProbed, CommittedNow;
    if g in v.groups {
      CheckProbedNoneNew(v, g, false, now, jitter);
      NoneThenNone(w, v, CheckProbed(v, g, false, now, jitter));
    }
  }

  lemma CommitNoneNew(w: World, g: nat, now: int, jitter: Jitter)
    requires g in w.groups
    ensures NoneNew(w, CommitGroup(w, g, now, jitter)) && NoneNew(w, RegisterElapsed(w, g, now, jitter))
  {
    hide CommitReal, ChangeState;
    var r, q := PutGroup(w, g, Requested(w.groups[g])), PutGroup(w, g, w.groups[g].(registerTimer := None));
    assert NoneNew(w, r) && NoneNew(w, q);
    CommitRealNoneNew(r, g, now, jitter);
    CommitRealNoneNew(q, g, now, jitter);
    NoneThenNone(w, r, CommitReal(r, g, now, jitter));
    NoneThenNone(w, q, CommitReal(q, g, now, jitter));
  }

  lemma TimerNoneNew(w: World, p: Place, now: int, jitter: Jitter)
    requires Inv(w) && p in w.announcers
    ensures NoneNew(w, NextState(w, p, now, jitter))
  {
    var a := w.announcers[p];
    assert AnnouncerOK(w, p, a);
    hide Inv, NoneNew, CheckProbed;
    match a.phase
    case Settled => NoneItself(w);
    case Announcing => PutNoneNew(w, p, Announced(a, now, jitter(p)));
    case Waiting =>
      NoneItself(w);
      var g := GroupOf(w, p.entry);
      if g.Some? && g.value in w.groups {
        CheckProbedNoneNew(w, g.value, true, now, jitter);
      }
    case Probing =>
      if a.nIteration < 4 {
        PutNoneNew(w, p, ProbePosted(a, now));
      } else {
        DoneNoneNew(w, p, now, jitter);
      }
  }

  lemma NoneItself(w: World)
    ensures NoneNew(w, w)
  {
  }

  lemma DoneNoneNew(w: World, p: Place, now: int, jitter: Jitter)
    requires p in w.announcers && w.announcers[p].phase == Probing && w.announcers[p].probes != []
    ensures NoneNew(w, NextState(Put(w, p, ProbingDone(w, p)), p, now, jitter))
  {
    hide NoneNew, CheckProbed;
    var b := ProbingDone(w, p);
    var v := Put(w, p, b);
    PutNoneNew(w, p, b);
    if b.phase == Waiting {
      var g := GroupOf(v, p.entry);
      if g.Some? && g.value in v.groups {
        CheckProbedNoneNew(v, g.value, true, now, jitter);
        NoneThenNone(w, v, CheckProbed(v, g.value, true, now, jitter));
      }
    } else {
      var c := Announced(b, now, jitter(p));
      PutTwice(w, p, b, c);
      PutNoneNew(w, p, c);
    }
  }

  lemma DiscardNoneNew(w: World, g: nat, gr: Group)
    ensures NoneNew(w, Discard(w, g, gr))
  {
    hide In;
  }

  lemma WithdrawNoneNew(w: World, e: nat, now: int)
    requires e in w.entries
    ensures NoneNew(w, Withdraw(w, e, now))
  {
    hide Discard;
    var g := w.entries[e].group;
    if g.Some? && g.value in w.groups {
      DiscardNoneNew(w, g.value, Withdrawn(w.groups[g.value], Collision, now));
    }
  }

  lemma AddNoneNew(w: World, e: nat, entry: Entry, now: int, jitter: Jitter)
    requires Inv(w) && Addable(w, e, entry)
    ensures NoneNew(w, AddEntry(w, e, entry, now, jitter))
  {
    var v := Inserted(w, e, entry);
    assert NoneNew(w, v) by {
      forall p | Unprobed(v, p) ensures Unprobed(w, p) {
        assert AnnouncerOK(w, p, w.announcers[p]);
      }
    }
    hide Inv, NoneNew, AnnounceOn;
    OnNoneNew(v, e, w.interfaces, now, jitter);
    NoneThenNone(w, v, AnnounceOn(v, e, w.interfaces, now, jitter));
  }

  lemma UpNoneNew(w: World, i: Interface, now: int, jitter: Jitter)
    ensures NoneNew(w, InterfaceUp(w, i, now, jitter))
  {
    hide AnnounceInterface;
    var v := WithInterface(w, i);
    assert NoneNew(w, v);
    InterfaceNoneNew(v, v.entryList, i, now, jitter);
    NoneThenNone(w, v, AnnounceInterface(v, v.entryList, i, now, jitter));
  }

  /** No event but an update makes a record unprobed. */
  lemma OthersNoneNew(w: World, ev: Event, now: int, jitter: Jitter)
    requires Inv(w) && Enabled(w, ev, now) && !ev.EntryUpdated?
    ensures NoneNew(w, Apply(w, ev, now, jitter))
  {
    hide Inv, NoneNew, AddEntry, CommitGroup, RegisterElapsed, NextState, Discard, Withdraw, InterfaceUp, Addable;
    hide Committable, RegisterDue, LiveOnly, Launch;
    match ev
    case GroupAdded(g) => SameAnnouncers(w, NewGroup(w, g));
    case EntryAdded(e, entry) => AddNoneNew(w, e, entry, now, jitter);
    case GroupCommitted(g) => CommittableGroup(w, g); CommitNoneNew(w, g, now, jitter);
    case HoldoffElapsed(g) => DueGroup(w, g, now); CommitNoneNew(w, g, now, jitter);
    case TimerElapsed(p) => TimerNoneNew(w, p, now, jitter);
    case GroupReset(g) => DiscardNoneNew(w, g, Withdrawn(w.groups[g], Uncommitted, now));
    case GroupFreed(g) => DiscardNoneNew(w, g, w.groups[g].(registerTimer := None, dead := true));
    case EntryWithdrawn(e) => WithdrawNoneNew(w, e, now);
    case Challenged(p) => ChallengeNoneNew(w, p, now, jitter);
    case InterfaceAdded(i) => UpNoneNew(w, i, now, jitter);
    case InterfaceRemoved(i) => SameAnnouncers(w, InterfaceDown(w, i));
    case DeadCleaned => SameAnnouncers(w, Cleanup(w));
  }

  lemma SameAnnouncers(w: World, v: World)
    requires forall p :: p in v.announcers ==> p in w.announcers && v.announcers[p] == w.announcers[p]
    requires forall e :: e in v.entries ==> e in w.entries && v.entries[e] == w.entries[e]
    ensures NoneNew(w, v)
  {
  }

  lemma ChallengeNoneNew(w: World, p: Place, now: int, jitter: Jitter)
    ensures NoneNew(w, ReturnToInitial(w, p, now, jitter))
  {
    NoneItself(w);
    hide NoneNew;
    if p in w.announcers && p.entry in w.entries {
      LaunchNoneNew(w, p, now, jitter);
    }
  }

  // ---------- Updates ----------

  /** An update to flags that ask for probes finds an announcer beyond probing, with none behind it, and does not make
      it start again: it is not announced again, or it is, but does not wait any more. */
  predicate Harms(w: World, ev: Event, p: Place) {
    && ev.EntryUpdated? && ev.e == p.entry && Probes(ev.flags) && PastProbing(w, p)
    && !(ev.differs && w.announcers[p].phase == Waiting)
  }

  /** Announcing again one entry whose record has to be probed for: who waits starts to probe, who is beyond stays. */
  lemma ReannounceStep(w: World, p: Place, now: int, jitter: Jitter, q: Place)
    requires q in w.announcers && p.entry in w.entries && Committed(w, p.entry) && Probes(w.entries[p.entry].flags)
    ensures var v := Reannounce(w, p, now, jitter);
            && q in v.announcers
            && (PastProbing(v, q) <==> PastProbing(w, q) && !(p == q && w.announcers[q].phase == Waiting))
            && (v.announcers[q].phase == Waiting <==> w.announcers[q].phase == Waiting && p != q)
  {
  }

  lemma {:induction false} ReannouncedPast(w: World, e: nat, ifaces: seq<Interface>, now: int, jitter: Jitter, q: Place)
    requires Inv(w) && q in w.announcers && e in w.entries && Committed(w, e) && Probes(w.entries[e].flags)
    ensures var v := ReannounceOn(w, e, ifaces, now, jitter);
            var again := q.entry == e && q.iface in ifaces;
            && q in v.announcers
            && (PastProbing(v, q) <==> PastProbing(w, q) && !(again && w.announcers[q].phase == Waiting))
            && (v.announcers[q].phase == Waiting <==> w.announcers[q].phase == Waiting && !again)
    decreases |ifaces|
  {
    hide Inv, Reannounce, PastProbing, Committed, Probes;
    if ifaces != [] {
      var n := |ifaces| - 1;
      var u := ReannounceOn(w, e, ifaces[..n], now, jitter);
      ReannouncedPast(w, e, ifaces[..n], now, jitter, q);
      ReannounceOnKeeps(w, e, ifaces[..n], now, jitter);
      StillCommitted(w, u, e);
      ReannounceStep(u, Place(e, ifaces[n]), now, jitter, q);
      assert ifaces == ifaces[..n] + [ifaces[n]];
    }
  }

  lemma StillCommitted(w: World, u: World, e: nat)
    requires SameSetting(w, u) && Committed(w, e)
    ensures Committed(u, e)
  {
    var g := GroupOf(w, e);
    assert g.Some? ==> u.groups[g.value].state == w.groups[g.value].state;
  }

  /** The places of a world do not change by announcing again. */
  lemma {:induction false} ReannouncedPlaces(
    w: World, e: nat, ifaces: seq<Interface>, now: int, jitter: Jitter, q: Place)
    ensures q in ReannounceOn(w, e, ifaces, now, jitter).announcers <==> q in w.announcers
    decreases |ifaces|
  {
    if ifaces != [] {
      ReannouncedPlaces(w, e, ifaces[..|ifaces| - 1], now, jitter, q);
    }
  }

  /** After an update, exactly the harmed announcers of its entry are unprobed, and of other entries those that were. */
  lemma UpdateHarms(w: World, e: nat, flags: Flags, differs: bool, now: int, jitter: Jitter, p: Place)
    requires Inv(w) && Live(w, e)
    ensures Unprobed(UpdateEntry(w, e, flags, differs, now, jitter), p) <==>
            if p.entry == e then Harms(w, EntryUpdated(e, flags, differs), p) else Unprobed(w, p)
  {
    hide PhaseOK, Matches, GroupsOK;
    var v := Reflagged(w, e, flags);
    var u := ReannounceOn(v, e, v.interfaces, now, jitter);
    ReflaggedKeeps(w, e, flags);
    ReannouncedPlaces(v, e, v.interfaces, now, jitter, p);
    ReannounceOnKeeps(v, e, v.interfaces, now, jitter);
    if p in w.announcers {
      assert AnnouncerOK(w, p, w.announcers[p]);
      assert p.iface in w.interfaces;
      hide Inv, ReannounceOn;
      if p.entry == e {
        assert Committed(v, e);
        if Probes(flags) {
          ReannouncedPast(v, e, v.interfaces, now, jitter, p);
        }
      } else {
        OthersUntouched(v, e, v.interfaces, now, jitter, p);
      }
    }
  }

  lemma {:induction false} OthersUntouched(w: World, e: nat, ifaces: seq<Interface>, now: int, jitter: Jitter, q: Place)
    requires q.entry != e && q in w.announcers
    ensures var v := ReannounceOn(w, e, ifaces, now, jitter); q in v.announcers && v.announcers[q] == w.announcers[q]
    decreases |ifaces|
  {
    if ifaces != [] {
      OthersUntouched(w, e, ifaces[..|ifaces| - 1], now, jitter, q);
    }
  }

  // ---------- Runs ----------

  /** At any step of a run, a record that was not unprobed becomes so if and only if the step is an update that harms
      it. */
  lemma ExactlyByUpdate(clock: int, steps: seq<Step>, s: Step, p: Place)
    requires IsRun(clock, steps) && CanTake(After(clock, steps), s) && !Unprobed(After(clock, steps), p)
    ensures Unprobed(Take(After(clock, steps), s), p) <==> Harms(After(clock, steps), s.event, p)
  {
    InvariantOfRuns(clock, steps);
    var w := After(clock, steps);
    LaterKeeps(w, s.now);
    var v := Later(w, s.now);
    assert Unprobed(v, p) <==> Unprobed(w, p);
    assert Harms(v, s.event, p) <==> Harms(w, s.event, p);
    hide Inv, After, IsRun, Unprobed, Harms;
    match s.event
    case EntryUpdated(e, flags, differs) =>
      hide UpdateEntry;
      UpdateHarms(v, e, flags, differs, s.now, s.jitter, p);
      HarmsOwn(v, s.event, p);
    case _ =>
      hide Apply;
      OthersNoneNew(v, s.event, s.now, s.jitter);
      HarmsOwn(v, s.event, p);
  }

  lemma HarmsOwn(w: World, ev: Event, p: Place)
    ensures Harms(w, ev, p) ==> ev.EntryUpdated? && ev.e == p.entry
  {
  }

  predicate HarmedAt(clock: int, steps: seq<Step>, i: nat, p: Place)
    requires i < |steps| && IsRun(clock, steps[..i])
  {
    Harms(After(clock, steps[..i]), steps[i].event, p)
  }

  /** So in a run that ends with an unprobed record, some update has harmed it. */
  lemma {:induction false} SomeUpdateHarmed(clock: int, steps: seq<Step>, p: Place) returns (i: nat)
    requires IsRun(clock, steps) && Unprobed(After(clock, steps), p)
    ensures i < |steps| && IsRun(clock, steps[..i]) && HarmedAt(clock, steps, i, p)
    decreases |steps|
  {
    assert steps != [];
    var n := |steps| - 1;
    var before := steps[..n];
    if Unprobed(After(clock, before), p) {
      hide Unprobed, CanTake, Take, Harms;
      i := SomeUpdateHarmed(clock, before, p);
      assert before[..i] == steps[..i] && before[i] == steps[i];
    } else {
      i := n;
      ExactlyByUpdate(clock, before, steps[n], p);
    }
  }

  /** In every run, a registered record that has to be probed for has exactly three probes behind it, at least 250 ms
      apart and the first 750 ms ago, if and only if it is not unprobed. */
  lemma ProbeBeforeClaim(clock: int, steps: seq<Step>, p: Place)
    requires IsRun(clock, steps)
    ensures var w := After(clock, steps);
            IsRegistered(w, p) && Probes(w.entries[p.entry].flags) ==>
              var probes := w.announcers[p].probes;
              (|probes| == 3 && Gaps(probes) && w.clock - probes[0] >= 750_000 <==> !Unprobed(w, p))
  {
    InvariantOfRuns(clock, steps);
    var w := After(clock, steps);
    hide GroupsOK, EntriesOK, After, IsRun;
    if IsRegistered(w, p) {
      assert AnnouncerOK(w, p, w.announcers[p]);
    }
  }

  /** Hence, as long as no update harms it, a unique record is claimed only after its three probes. */
  lemma ClaimedOnlyProbed(clock: int, steps: seq<Step>, p: Place)
    requires IsRun(clock, steps)
    requires forall i :: 0 <= i < |steps| && IsRun(clock, steps[..i]) ==> !HarmedAt(clock, steps, i, p)
    ensures var w := After(clock, steps);
            IsRegistered(w, p) && Probes(w.entries[p.entry].flags) ==>
              var probes := w.announcers[p].probes;
              |probes| == 3 && Gaps(probes) && w.clock - probes[0] >= 750_000
  {
    ProbeBeforeClaim(clock, steps, p);
    if Unprobed(After(clock, steps), p) {
      var i := SomeUpdateHarmed(clock, steps, p);
      assert false;
    }
  }

  /** An unprobed announcer that waits for its group is released as it is, and registered without a probe. */
  lemma ReleasedUnprobed(w: World, p: Place, g: nat, immediately: bool, now: int, jitter: Jitter)
    requires Unprobed(w, p) && WaitsFor(w, p, g) && g in w.groups
    requires w.groups[g].state == Registering && w.groups[g].nProbing <= 0
    ensures var v := CheckProbed(w, g, immediately, now, jitter); Unprobed(v, p) && IsRegistered(v, p)
  {
    hide ChangeState;
  }

  // ---------- Claims without a probe ----------

  function OneEntry(flags: Flags): World {
    Bare(0).(entries := map[0 := EntryOf(None, flags)], entryList := [0],
             announcers := map[P0 := Announcer(Announcing, 1, 1, Some(0), [], [], Prompt)])
  }

  const UP := At0(InterfaceAdded(ETH0), 0)
  const ADD := At0(EntryAdded(0, EntryOf(None, SHARED)), 0)
  const UPDATE := At0(EntryUpdated(0, UNIQUE, true), 0)

  lemma SharedEntryAnnounces()
    ensures CanTake(Bare(0), ADD) && Take(Bare(0), ADD) == OneEntry(SHARED)
  {
    var v := Inserted(Bare(0), 0, EntryOf(None, SHARED));
    assert AnnounceOn(v, 0, [ETH0], 0, NO_JITTER) == NewAnnouncer(AnnounceOn(v, 0, [], 0, NO_JITTER), P0, 0, NO_JITTER);
    assert AnnounceOn(v, 0, [], 0, NO_JITTER) == v;
    assert NewAnnouncer(v, P0, 0, NO_JITTER) == OneEntry(SHARED);
  }

  lemma UpdateReannounces()
    ensures CanTake(OneEntry(SHARED), UPDATE) && Take(OneEntry(SHARED), UPDATE) == OneEntry(UNIQUE)
  {
    var v := OneEntry(UNIQUE);
    assert Reflagged(OneEntry(SHARED), 0, UNIQUE) == v;
    assert ReannounceOn(v, 0, [ETH0], 0, NO_JITTER) ==
           Reannounce(ReannounceOn(v, 0, [], 0, NO_JITTER), P0, 0, NO_JITTER);
    assert ReannounceOn(v, 0, [], 0, NO_JITTER) == v;
    assert Reannounce(v, P0, 0, NO_JITTER) == v;
  }

  lemma NowUnprobed()
    ensures IsRegistered(OneEntry(UNIQUE), P0) && Unprobed(OneEntry(UNIQUE), P0)
  {
  }

  /** An update that turns a registered shared record into a unique one claims it without a probe. */
  lemma UpdateMayClaimUnprobed()
    ensures var steps := [] + [UP] + [ADD] + [UPDATE];
            IsRun(0, steps) && IsRegistered(After(0, steps), P0) && Unprobed(After(0, steps), P0)
  {
    hide IsRun, After, CanTake, Take, IsRegistered, Unprobed, OneEntry;
    NothingYet(0);
    ComesUp(0, 0);
    Extend(0, [], UP);
    SharedEntryAnnounces();
    Extend(0, [] + [UP], ADD);
    UpdateReannounces();
    Extend(0, [] + [UP] + [ADD], UPDATE);
    NowUnprobed();
  }

  // ---------- The second way ----------

  const CLAIMED := Flags(true, true, false)
  const HELD := Group(Registering, false, 0, 0, 1, SECOND, Some(SECOND), 0, [])

  /** A group with one entry, before an interface is up. */
  function Offline(g: Group): World {
    Start(0).(entries := map[0 := EntryOf(Some(0), CLAIMED)], entryList := [0], groups := map[0 := g])
  }

  /** The entry waits on the interface for the hold-off of its group to pass. */
  function Holding(flags: Flags): World {
    Bare(0).(entries := map[0 := EntryOf(Some(0), flags)], entryList := [0], groups := map[0 := HELD],
             announcers := map[P0 := Announcer(Waiting, 1, 1, None, [], [], Prompt)])
  }

  const NEW := At0(GroupAdded(0), 0)
  const ENTRY := At0(EntryAdded(0, EntryOf(Some(0), CLAIMED)), 0)
  const COMMIT := At0(GroupCommitted(0), 0)
  const DROP := At0(EntryUpdated(0, UNIQUE, false), 0)
  const ELAPSE := At0(HoldoffElapsed(0), SECOND)

  lemma IsGrouped()
    ensures var w := Start(0).(groups := map[0 := PLAIN]);
            && CanTake(Start(0), NEW) && Take(Start(0), NEW) == w
            && CanTake(w, ENTRY) && Take(w, ENTRY) == Offline(PLAIN)
  {
    var v := Inserted(Start(0).(groups := map[0 := PLAIN]), 0, EntryOf(Some(0), CLAIMED));
    assert AnnounceOn(v, 0, [], 0, NO_JITTER) == v;
  }

  lemma IsHeldOff()
    ensures CanTake(Offline(PLAIN), COMMIT) && Take(Offline(PLAIN), COMMIT) == Offline(HELD)
  {
    var w := Offline(PLAIN);
    assert !IsEmpty(w, 0) by { assert w.entries[0] == EntryOf(Some(0), CLAIMED); }
    assert map[0 := PLAIN][0 := HELD] == map[0 := HELD];
  }

  lemma StartsToWait()
    ensures CanTake(Offline(HELD), UP) && Take(Offline(HELD), UP) == Holding(CLAIMED)
  {
    var v := WithInterface(Offline(HELD), ETH0);
    assert [0][..0] == [];
    assert AnnounceInterface(v, [], ETH0, 0, NO_JITTER) == v;
    assert NewAnnouncer(v, P0, 0, NO_JITTER) == Holding(CLAIMED) by {
      assert map[0 := HELD][0 := HELD] == map[0 := HELD];
    }
    assert AnnounceInterface(v, [0], ETH0, 0, NO_JITTER) == Holding(CLAIMED);
  }

  lemma DropsNoProbe()
    ensures CanTake(Holding(CLAIMED), DROP) && Take(Holding(CLAIMED), DROP) == Holding(UNIQUE)
  {
    assert map[0 := EntryOf(Some(0), CLAIMED)][0 := EntryOf(Some(0), UNIQUE)] == map[0 := EntryOf(Some(0), UNIQUE)];
  }

  lemma IsReleased()
    ensures CanTake(Holding(UNIQUE), ELAPSE)
    ensures Unprobed(Take(Holding(UNIQUE), ELAPSE), P0) && IsRegistered(Take(Holding(UNIQUE), ELAPSE), P0)
  {
    var w := Later(Holding(UNIQUE), SECOND);
    var r := HELD.(registerTimer := None);
    var u := PutGroup(PutGroup(w, 0, r), 0, CommittedNow(r, SECOND));
    assert [0][..0] == [] && [ETH0][..0] == [];
    assert AnnounceGroup(u, [], 0, SECOND, NO_JITTER) == u;
    assert AnnounceOn(u, 0, [], SECOND, NO_JITTER) == u;
    assert AnnounceOn(u, 0, [ETH0], SECOND, NO_JITTER) == u;
    assert AnnounceGroup(u, [0], 0, SECOND, NO_JITTER) == u;
    ReleasedUnprobed(u, P0, 0, false, SECOND, NO_JITTER);
  }

  /** A group is committed and held off, its entry, which need not be probed for, waits on an interface, and an update
      drops NO_PROBE from it without changing its data: when the hold-off has passed it is registered without a
      probe. */
  lemma WaitingMayClaimUnprobed()
    ensures var steps := [] + [NEW] + [ENTRY] + [COMMIT] + [UP] + [DROP] + [ELAPSE];
            IsRun(0, steps) && IsRegistered(After(0, steps), P0) && Unprobed(After(0, steps), P0)
  {
    hide IsRun, After, CanTake, Take;
    NothingYet(0);
    IsGrouped();
    Extend(0, [], NEW);
    Extend(0, [] + [NEW], ENTRY);
    IsHeldOff();
    Extend(0, [] + [NEW] + [ENTRY], COMMIT);
    StartsToWait();
    Extend(0, [] + [NEW] + [ENTRY] + [COMMIT], UP);
    DropsNoProbe();
    Extend(0, [] + [NEW] + [ENTRY] + [COMMIT] + [UP], DROP);
    IsReleased();
    Extend(0, [] + [NEW] + [ENTRY] + [COMMIT] + [UP] + [DROP], ELAPSE);
  }
}
