/** The methods of avahi-core/announce.c and avahi-core/entry.c in their imperative form: announcers, groups and
    entries are updated in place, in loops over the lists of the server. */
module Registrar {
  import opened Bytes
  import opened Announce
  import opened EntryGroups

  class Server {
    var entries: map<nat, Entry>
    var entryList: seq<nat>
    var groups: map<nat, Group>
    var announcers: map<Place, Announcer>
    var interfaces: seq<Interface>
    var announcing: set<Interface>
    var clock: int

    function Now(): World
      reads this
    {
      World(entries, entryList, groups, announcers, interfaces, announcing, clock)
    }

    predicate Valid()
      reads this
    {
      Inv(Now())
    }

    constructor (clock: int)
      ensures Valid() && Now() == World(map[], [], map[], map[], [], {}, clock)
    {
      entries, entryList, groups, announcers, interfaces, announcing := map[], [], map[], map[], [], {};
      this.clock := clock;
    }

    /** Adds to the count of probing announcers of the group of p. */
    method Count(p: Place, delta: int)
      modifies `groups
      ensures groups == (var g := GroupOf(old(Now()), p.entry);
                         if g.Some? && g.value in old(groups)
                         then old(groups)[g.value :=
                           old(groups)[g.value].(nProbing := old(groups)[g.value].nProbing + delta)]
                         else old(groups))
    {
      if p.entry in entries && entries[p.entry].group.Some? && entries[p.entry].group.value in groups {
        var g := entries[p.entry].group.value;
        groups := groups[g := groups[g].(nProbing := groups[g].nProbing + delta)];
      }
    }

    /** avahi_entry_is_commited, and for an entry that is not known. */
    method IsCommitted(e: nat) returns (yes: bool)
      ensures yes == Committed(Now(), e)
    {
      if e !in entries || entries[e].group.None? {
        return true;
      }
      var g := entries[e].group.value;
      yes := g in groups && (groups[g].state == Registering || groups[g].state == Established);
    }

    /** avahi_entry_is_registered. */
    method EntryIsRegistered(p: Place) returns (yes: bool)
      ensures yes == IsRegistered(Now(), p)
    {
      if p !in announcers || p.entry !in entries {
        return false;
      }
      var a := announcers[p].phase;
      yes := a == Announcing || a == Settled || (a == Waiting && !entries[p.entry].flags.unique);
    }

    /** avahi_entry_is_probing. */
    method EntryIsProbing(p: Place) returns (yes: bool)
      ensures yes == IsProbing(Now(), p)
    {
      if p !in announcers || p.entry !in entries {
        return false;
      }
      var a := announcers[p].phase;
      yes := a == Probing || (a == Waiting && entries[p.entry].flags.unique);
    }

    /** The choice of the first state in go_to_initial_state. */
    method FirstPhase(e: nat) returns (phase: Phase)
      requires e in entries
      ensures phase == InitialPhase(Now(), e)
    {
      var f, g := entries[e].flags, entries[e].group;
      if f.unique && !f.noProbe {
        phase := Probing;
      } else if !f.noAnnounce {
        if g.None? || (g.value in groups && groups[g.value].state == Established) {
          phase := Announcing;
        } else {
          phase := Waiting;
        }
      } else {
        phase := Settled;
      }
    }

    /** The common end of go_to_initial_state and reannounce: counters and timer; probes and announcements are
        forgotten, except for those of a finished probing. */
    method Restart(p: Place, phase: Phase, now: int, jitter: nat)
      requires p in announcers
      modifies `announcers
      ensures announcers == old(announcers)[p := Restarted(Finished(old(Now()), p), phase, now, jitter)]
    {
      var a := announcers[p];
      if a.phase == Probing || phase == Probing {
        a := a.(probes := []);
      }
      a := a.(phase := phase, nIteration := 1, secDelay := 1, said := [], course := Prompt, timer := None);
      if phase == Probing || phase == Announcing {
        a := a.(timer := Some(now + jitter));
      } else if phase == Settled {
        a := a.(course := Silent);
      }
      announcers := announcers[p := a];
    }

    /** go_to_initial_state, for an announcer that is not counted as probing. */
    method GoToInitialState(p: Place, now: int, jitter: Jitter)
      requires p.entry in entries && p in announcers && announcers[p].phase != Probing
      modifies `groups, `announcers
      ensures Now() == Launch(old(Now()), p, now, jitter)
    {
      hide InitialPhase, Restarted, Finished;
      var phase := FirstPhase(p.entry);
      RestartedPhase(Finished(Now(), p), phase, now, jitter(p));
      Restart(p, phase, now, jitter(p));
      if phase == Probing {
        Count(p, 1);
      }
    }

    lemma RestartedPhase(probes: seq<int>, phase: Phase, now: int, jitter: nat)
      ensures Restarted(probes, phase, now, jitter).phase == phase
    {
    }

    /** new_announcer. */
    method StartAnnouncer(p: Place, now: int, jitter: Jitter)
      modifies `groups, `announcers
      ensures Now() == NewAnnouncer(old(Now()), p, now, jitter)
    {
      hide InitialPhase, Restarted, Launch, Committed;
      if p.entry !in entries || p.iface !in announcing {
        return;
      }
      var e := entries[p.entry];
      if (e.index.Some? && e.index.value != p.iface.index)
        || (e.protocol.Some? && e.protocol.value != p.iface.protocol) {
        return;
      }
      var committed := IsCommitted(p.entry);
      if !committed || p in announcers {
        return;
      }
      ghost var w, blank := Now(), Announcer(Settled, 0, 0, None, [], [], Silent);
      announcers := announcers[p := Announcer(Settled, 0, 0, None, [], [], Silent)];
      GoToInitialState(p, now, jitter);
      LaunchedBlank(w, p, blank, now, jitter);
    }

    /** A new announcer is launched as if it had not been there. */
    lemma LaunchedBlank(w: World, p: Place, blank: Announcer, now: int, jitter: Jitter)
      requires p !in w.announcers && p.entry in w.entries && blank.phase == Settled && blank.probes == []
      ensures Launch(w.(announcers := w.announcers[p := blank]), p, now, jitter) == Launch(w, p, now, jitter)
    {
      var v := w.(announcers := w.announcers[p := blank]);
      assert InitialPhase(v, p.entry) == InitialPhase(w, p.entry);
      hide InitialPhase, Restarted;
      var a := Restarted([], InitialPhase(w, p.entry), now, jitter(p));
      assert Put(w, p, blank) == v;
      PutTwice(w, p, blank, a);
    }

    /** avahi_announce_entry. */
    method AnnounceEntry(e: nat, now: int, jitter: Jitter)
      modifies `groups, `announcers
      ensures Now() == AnnounceOn(old(Now()), e, interfaces, now, jitter)
    {
      hide NewAnnouncer;
      for i := 0 to |interfaces|
        invariant Now() == AnnounceOn(old(Now()), e, interfaces[..i], now, jitter)
      {
        assert interfaces[..i + 1][..i] == interfaces[..i];
        StartAnnouncer(Place(e, interfaces[i]), now, jitter);
      }
      assert interfaces[..|interfaces|] == interfaces;
    }

    /** avahi_announce_group. */
    method AnnounceEntries(g: nat, now: int, jitter: Jitter)
      modifies `groups, `announcers
      ensures Now() == AnnounceGroup(old(Now()), entryList, g, now, jitter)
    {
      hide AnnounceOn;
      for i := 0 to |entryList|
        invariant Now() == AnnounceGroup(old(Now()), entryList[..i], g, now, jitter)
      {
        assert entryList[..i + 1][..i] == entryList[..i];
        var e := entryList[i];
        if e in entries && !entries[e].dead && entries[e].group == Some(g) {
          AnnounceEntry(e, now, jitter);
        }
      }
      assert entryList[..|entryList|] == entryList;
    }

    /** avahi_announce_interface, once the interface has become relevant. */
    method AddInterface(i: Interface, now: int, jitter: Jitter)
      requires Valid()
      modifies `groups, `announcers, `interfaces, `announcing
      ensures Now() == InterfaceUp(old(Now()), i, now, jitter) && Valid()
    {
      hide NewAnnouncer, Inv;
      InterfaceUpKeeps(Now(), i, now, jitter);
      announcing := announcing + {i};
      if i !in interfaces {
        interfaces := interfaces + [i];
      }
      ghost var w := Now();
      for k := 0 to |entryList|
        invariant Now() == AnnounceInterface(w, entryList[..k], i, now, jitter)
      {
        assert entryList[..k + 1][..k] == entryList[..k];
        var e := entryList[k];
        if e in entries && !entries[e].dead {
          StartAnnouncer(Place(e, i), now, jitter);
        }
      }
      assert entryList[..|entryList|] == entryList;
    }

    /** avahi_goodbye_interface with removal: the announcers of the interface go one by one. */
    method RemoveInterface(i: Interface)
      requires Valid()
      modifies `groups, `announcers, `announcing
      ensures Now() == InterfaceDown(old(Now()), i) && Valid()
    {
      hide Inv;
      InterfaceDownKeeps(Now(), i);
      groups := InterfaceDown(Now(), i).groups; // only the record of lost announcers
      announcing := announcing - {i};
      RemoveAnnouncers(i);
    }

    method RemoveAnnouncers(i: Interface)
      modifies `announcers
      ensures announcers == map p | p in old(announcers) && p.iface != i :: old(announcers)[p]
    {
      var todo := set p | p in announcers && p.iface == i;
      while todo != {}
        invariant todo <= set p | p in old(announcers) && p.iface == i
        invariant announcers == map p | p in old(announcers) && (p.iface != i || p in todo) :: old(announcers)[p]
        decreases todo
      {
        var p :| p in todo;
        announcers := announcers - {p};
        todo := todo - {p};
      }
    }

    /** avahi_s_entry_group_change_state: a group that was established for more than five seconds starts counting its
        tries anew; one that was being registered has no timer any more; one that is established remembers when. */
    method ChangeGroupState(g: nat, state: GroupState, now: int)
      requires g in groups
      modifies `groups
      ensures groups == old(groups)[g := ChangeState(old(groups)[g], state, now)]
    {
      var gr := groups[g];
      if gr.state == state {
        return;
      }
      if gr.state == Established {
        if now - gr.establishedAt > 5_000_000 {
          gr := gr.(nRegisterTry := 0);
        }
      } else if gr.state == Registering {
        gr := gr.(registerTimer := None);
      }
      if state == Established {
        gr := gr.(establishedAt := now);
      }
      groups := groups[g := gr.(state := state)];
    }

    /** avahi_s_entry_group_check_probed: every waiting announcer of the group, in any order. */
    method CheckGroupProbed(g: nat, immediately: bool, now: int, jitter: Jitter)
      requires g in groups
      modifies `groups, `announcers
      ensures Now() == CheckProbed(old(Now()), g, immediately, now, jitter)
    {
      if groups[g].state != Registering || groups[g].nProbing > 0 {
        return;
      }
      ChangeGroupState(g, Established, now);
      ReleaseWaiting(g, immediately, now, jitter);
    }

    method ReleaseWaiting(g: nat, immediately: bool, now: int, jitter: Jitter)
      modifies `announcers
      ensures announcers == ReleaseAll(old(Now()), g, immediately, now, jitter)
    {
      hide Released, In;
      ghost var w := Now();
      var todo := announcers.Keys;
      while todo != {}
        invariant todo <= announcers.Keys == w.announcers.Keys
        invariant forall p {:trigger announcers[p]} :: p in announcers ==>
                    announcers[p] == if p in todo || !WaitsFor(w, p, g) then w.announcers[p]
                                     else Released(w.announcers[p], immediately, now, jitter(p))
        decreases todo
      {
        var p :| p in todo;
        todo := todo - {p};
        if announcers[p].phase == Waiting && In(entries, p, g) {
          Release(p, immediately, now, jitter(p));
        }
      }
    }

    method Release(p: Place, immediately: bool, now: int, jitter: nat)
      requires p in announcers
      modifies `announcers
      ensures announcers == old(announcers)[p := Released(old(announcers)[p], immediately, now, jitter)]
    {
      var a := announcers[p].(phase := Announcing);
      if immediately {
        announcers := announcers[p := a.(nIteration := 1)];
        Say(p, now, jitter);
      } else {
        announcers := announcers[p := a.(nIteration := 0, timer := Some(now + jitter), course := Delayed)];
      }
    }

    /** The ANNOUNCING branch of next_state: one announcement, and a timer for the next one, unless it is the last. */
    method Say(p: Place, now: int, jitter: nat)
      requires p in announcers && announcers[p].phase == Announcing
      modifies `announcers
      ensures announcers == old(announcers)[p := Announced(old(announcers)[p], now, jitter)]
    {
      var a := announcers[p];
      a := a.(said := a.said + [now], nIteration := a.nIteration + 1);
      if a.nIteration >= 4 {
        a := a.(phase := Settled, timer := None);
      } else {
        a := a.(timer := Some(now + a.secDelay * 1_000_000 + jitter), secDelay := a.secDelay * 2);
      }
      announcers := announcers[p := a];
    }

    /** next_state, called when the timer of an announcer elapses. */
    method Advance(p: Place, now: int, jitter: Jitter)
      requires p in announcers
      modifies `groups, `announcers
      ensures Now() == NextState(old(Now()), p, now, jitter)
      decreases Rank(announcers[p].phase)
    {
      hide CheckProbed;
      var a := announcers[p];
      if a.phase == Waiting {
        if p.entry in entries && entries[p.entry].group.Some? && entries[p.entry].group.value in groups {
          CheckGroupProbed(entries[p.entry].group.value, true, now, jitter);
        }
      } else if a.phase == Probing {
        if a.nIteration >= 4 {
          Finish(p);
          Advance(p, now, jitter);
        } else {
          a := a.(probes := a.probes + [now], nIteration := a.nIteration + 1, timer := Some(now + 250_000));
          announcers := announcers[p := a];
        }
      } else if a.phase == Announcing {
        Say(p, now, jitter(p));
      }
    }

    /** elapse_announce. */
    method Elapse(p: Place, jitter: Jitter)
      requires Valid() && Due(Now(), p, clock)
      modifies `groups, `announcers
      ensures Now() == NextState(old(Now()), p, clock, jitter) && Valid()
    {
      hide Inv, NextState;
      NextStateKeeps(Now(), p, jitter);
      Advance(p, clock, jitter);
    }

    /** Probing is done. */
    method Finish(p: Place)
      requires p in announcers && announcers[p].phase == Probing
      modifies `groups, `announcers
      ensures Now() == Put(old(Now()), p, ProbingDone(old(Now()), p))
    {
      var a := announcers[p];
      Count(p, -1);
      var g := if p.entry in entries then entries[p.entry].group else None;
      if g.Some? && g.value in groups && groups[g.value].state == Registering {
        a := a.(phase := Waiting);
      } else {
        a := a.(phase := Announcing, nIteration := 1);
      }
      announcers := announcers[p := a.(timer := None)];
    }

    /** reannounce: the counter goes down before and up after the change of state. */
    method ReannounceAt(p: Place, now: int, jitter: Jitter)
      modifies `groups, `announcers
      ensures Now() == Reannounce(old(Now()), p, now, jitter)
    {
      hide Restarted;
      var committed := IsCommitted(p.entry);
      if p !in announcers || p.entry !in entries || !committed {
        return;
      }
      var phase, f := announcers[p].phase, entries[p.entry].flags;
      if phase == Probing {
        Count(p, -1);
      }
      if phase == Probing || (phase == Waiting && f.unique && !f.noProbe) {
        phase := Probing;
      } else if phase == Waiting {
        phase := Waiting;
      } else if f.noAnnounce {
        phase := Settled;
      } else {
        phase := Announcing;
      }
      if phase == Probing {
        Count(p, 1);
      }
      RestartedPhase(Finished(Now(), p), phase, now, jitter(p));
      Restart(p, phase, now, jitter(p));
    }

    /** avahi_reannounce_entry. */
    method ReannounceEntry(e: nat, now: int, jitter: Jitter)
      modifies `groups, `announcers
      ensures Now() == ReannounceOn(old(Now()), e, interfaces, now, jitter)
    {
      hide Reannounce;
      for i := 0 to |interfaces|
        invariant Now() == ReannounceOn(old(Now()), e, interfaces[..i], now, jitter)
      {
        assert interfaces[..i + 1][..i] == interfaces[..i];
        ReannounceAt(Place(e, interfaces[i]), now, jitter);
      }
      assert interfaces[..|interfaces|] == interfaces;
    }

    /** avahi_entry_return_to_initial_state. */
    method ReturnToInitialState(p: Place, now: int, jitter: Jitter)
      requires Valid()
      modifies `groups, `announcers
      ensures Now() == ReturnToInitial(old(Now()), p, now, jitter) && Valid()
    {
      hide Inv;
      ReturnToInitialKeeps(Now(), p, now, jitter);
      if p !in announcers || p.entry !in entries {
        return;
      }
      hide InitialPhase, Restarted;
      var phase := FirstPhase(p.entry);
      if announcers[p].phase == Probing {
        Count(p, -1);
      }
      RestartedPhase(Finished(Now(), p), phase, now, jitter(p));
      Restart(p, phase, now, jitter(p));
      if phase == Probing {
        Count(p, 1);
      }
    }

    /** server_add_internal for a new entry: refused in a group that is committed. */
    method Add(e: nat, entry: Entry, now: int, jitter: Jitter) returns (ok: bool)
      requires Valid() && e !in entries && !entry.dead
      requires entry.group.Some? ==> entry.group.value in groups && !groups[entry.group.value].dead
      modifies `entries, `entryList, `groups, `announcers
      ensures ok == Addable(old(Now()), e, entry)
      ensures Now() == if ok then AddEntry(old(Now()), e, entry, now, jitter) else old(Now())
      ensures Valid()
    {
      hide AnnounceOn, Inv;
      ok := entry.group.None?
        || (groups[entry.group.value].state != Established && groups[entry.group.value].state != Registering);
      if !ok {
        return;
      }
      AddEntryKeeps(Now(), e, entry, now, jitter);
      entries, entryList := entries[e := entry], [e] + entryList;
      AnnounceEntry(e, now, jitter);
    }

    /** server_add_internal for an update. */
    method Update(e: nat, flags: Flags, differs: bool, now: int, jitter: Jitter)
      requires Valid() && e in entries
      modifies `entries, `groups, `announcers
      ensures Now() == UpdateEntry(old(Now()), e, flags, differs, now, jitter) && Valid()
    {
      hide ReannounceOn, Inv;
      UpdateEntryKeeps(Now(), e, flags, differs, now, jitter);
      var g := entries[e].group;
      entries := entries[e := entries[e].(flags := flags)];
      if differs && (g.None? || (g.value in groups && groups[g.value].state != Uncommitted)) {
        ReannounceEntry(e, now, jitter);
      }
    }

    /** avahi_s_entry_group_is_empty. */
    method GroupIsEmpty(g: nat) returns (empty: bool)
      requires Valid()
      ensures empty == IsEmpty(Now(), g)
    {
      hide AnnouncersOK, GroupsOK;
      for i := 0 to |entryList|
        invariant forall k :: 0 <= k < i && entryList[k] in entries && entries[entryList[k]].group == Some(g) ==>
                    entries[entryList[k]].dead
      {
        var e := entryList[i];
        if e in entries && entries[e].group == Some(g) && !entries[e].dead {
          return false;
        }
      }
      forall e | e in entries && entries[e].group == Some(g) ensures entries[e].dead {
        assert EntryOK(Now(), e);
        var k :| 0 <= k < |entryList| && entryList[k] == e;
      }
      return true;
    }

    /** entry_group_commit_real. */
    method CommitNow(g: nat, now: int, jitter: Jitter)
      requires g in groups
      modifies `groups, `announcers
      ensures Now() == CommitReal(old(Now()), g, now, jitter)
    {
      hide AnnounceGroup, CheckProbed;
      var gr := groups[g];
      gr := gr.(registerTime := now, commits := gr.commits + [Commit(now, gr.nRegisterTry)]);
      groups := groups[g := gr];
      ChangeGroupState(g, Registering, now);
      assert groups == old(groups)[g := CommittedNow(old(groups)[g], now)];
      hide CommittedNow;
      AnnounceEntries(g, now, jitter);
      if g in groups {
        CheckGroupProbed(g, false, now, jitter);
      }
    }

    /** avahi_s_entry_group_commit. */
    method CommitRequest(g: nat, now: int, jitter: Jitter) returns (ok: bool)
      requires Valid() && g in groups && !groups[g].dead
      modifies `groups, `announcers
      ensures ok == Committable(old(Now()), g)
      ensures Now() == if ok then CommitGroup(old(Now()), g, now, jitter) else old(Now())
      ensures Valid()
    {
      hide CommitReal, Inv, IsEmpty;
      if groups[g].state != Uncommitted && groups[g].state != Collision {
        return false;
      }
      var empty := GroupIsEmpty(g);
      if empty {
        return false;
      }
      CommitGroupKeeps(Now(), g, now, jitter);
      var r := groups[g].(nRegisterTry := groups[g].nRegisterTry + 1);
      var wait := if r.nRegisterTry >= 15 then 20_000_000 else 1_000_000;
      r := r.(registerTime := r.registerTime + wait);
      groups := groups[g := r];
      if r.registerTime <= now {
        CommitNow(g, now, jitter);
      } else {
        r := r.(registerTimer := Some(r.registerTime));
        groups := groups[g := r];
        ChangeGroupState(g, Registering, now);
      }
      ok := true;
    }

    /** entry_group_register_time_event_callback. */
    method HoldoffPassed(g: nat, now: int, jitter: Jitter)
      requires Valid() && RegisterDue(Now(), g, now)
      modifies `groups, `announcers
      ensures Now() == RegisterElapsed(old(Now()), g, now, jitter) && Valid()
    {
      hide CommitReal, Inv;
      RegisterElapsedKeeps(Now(), g, now, jitter);
      groups := groups[g := groups[g].(registerTimer := None)];
      CommitNow(g, now, jitter);
    }

    /** avahi_s_entry_group_new. */
    method AddGroup(g: nat)
      requires Valid() && g !in groups
      modifies `groups
      ensures Now() == NewGroup(old(Now()), g) && Valid()
    {
      NewGroupKeeps(Now(), g);
      hide Inv;
      var gr := Group(Uncommitted, false, 0, 0, 0, 0, None, 0, []);
      groups := groups[g := gr];
    }

    /** avahi_cleanup_dead_entries: the dead groups and the dead entries, which then leave the list as well. */
    method CleanUp()
      requires Valid()
      modifies `entries, `entryList, `groups
      ensures Now() == Cleanup(old(Now())) && Valid()
    {
      CleanupKeeps(Now());
      hide Inv;
      ghost var w := Now();
      var kept: seq<nat> := [];
      for i := 0 to |entryList|
        invariant Now() == w && kept == LiveOnly(w, entryList[..i])
      {
        assert entryList[..i + 1][..i] == entryList[..i];
        var e := entryList[i];
        if e in entries && !entries[e].dead {
          kept := kept + [e];
        } else {
          EmptySides(kept);
        }
      }
      assert entryList[..|entryList|] == entryList;
      entryList := kept;
      DropDeadGroups();
      DropDeadEntries();
    }

    method DropDeadGroups()
      modifies `groups
      ensures groups == map g | g in old(groups) && !old(groups)[g].dead :: old(groups)[g]
    {
      var todo := groups.Keys;
      while todo != {}
        invariant todo <= groups.Keys
        invariant groups == map g | g in old(groups) && (!old(groups)[g].dead || g in todo) :: old(groups)[g]
        decreases todo
      {
        var g :| g in todo;
        todo := todo - {g};
        if groups[g].dead {
          groups := groups - {g};
        }
      }
    }

    method DropDeadEntries()
      modifies `entries
      ensures entries == map e | e in old(entries) && !old(entries)[e].dead :: old(entries)[e]
    {
      var todo := entries.Keys;
      while todo != {}
        invariant todo <= entries.Keys
        invariant entries == map e | e in old(entries) && (!old(entries)[e].dead || e in todo) :: old(entries)[e]
        decreases todo
      {
        var e :| e in todo;
        todo := todo - {e};
        if entries[e].dead {
          entries := entries - {e};
        }
      }
    }

    /** avahi_goodbye_entry with removal, and the dead flag. */
    method Kill(e: nat)
      requires e in entries
      modifies `entries, `announcers
      ensures entries == old(entries)[e := old(entries)[e].(dead := true)]
      ensures announcers == map p | p in old(announcers) && p.entry != e :: old(announcers)[p]
    {
      var todo := set p | p in announcers && p.entry == e;
      while todo != {}
        invariant entries == old(entries) && todo <= set p | p in old(announcers) && p.entry == e
        invariant announcers == map p | p in old(announcers) && (p.entry != e || p in todo) :: old(announcers)[p]
        decreases todo
      {
        var p :| p in todo;
        announcers := announcers - {p};
        todo := todo - {p};
      }
      entries := entries[e := entries[e].(dead := true)];
    }

    /** The loop of avahi_s_entry_group_reset, avahi_s_entry_group_free and withdraw_entry over the entries of a
        group. */
    method KillEntries(g: nat)
      requires forall p :: p in announcers ==> Live(Now(), p.entry)
      modifies `entries, `announcers
      ensures entries == Killed(old(entries), g) && announcers == Outside(old(entries), old(announcers), g)
    {
      ghost var w := Now();
      var todo := entries.Keys;
      while todo != {}
        invariant todo <= entries.Keys == w.entries.Keys
        invariant forall e {:trigger entries[e]} :: e in entries ==>
                    entries[e] == if e in todo then w.entries[e] else Killed(w.entries, g)[e]
        invariant announcers ==
                  map p | p in w.announcers && (p.entry in todo || !In(w.entries, p, g)) :: w.announcers[p]
        decreases todo
      {
        var e :| e in todo;
        ghost var was := announcers;
        if entries[e].group == Some(g) && !entries[e].dead {
          Kill(e);
        }
        StillThere(w, was, announcers, todo, e, g);
        todo := todo - {e};
      }
    }

    lemma StillThere(w: World, was: map<Place, Announcer>, left: map<Place, Announcer>, todo: set<nat>, e: nat, g: nat)
      requires forall p :: p in w.announcers ==> Live(w, p.entry)
      requires e in w.entries && e in todo
      requires was == map p | p in w.announcers && (p.entry in todo || !In(w.entries, p, g)) :: w.announcers[p]
      requires left == if w.entries[e].group == Some(g) && !w.entries[e].dead
                       then map p | p in was && p.entry != e :: was[p] else was
      ensures left == map p | p in w.announcers && (p.entry in todo - {e} || !In(w.entries, p, g)) :: w.announcers[p]
    {
      forall p | p in w.announcers && p.entry == e ensures !w.entries[e].dead {
        assert Live(w, p.entry);
      }
    }

    /** avahi_s_entry_group_reset, and withdraw_entry for an entry of a group. */
    method ResetEntries(g: nat, state: GroupState, now: int)
      requires Valid() && g in groups && (state == Uncommitted || state == Collision)
      modifies `entries, `announcers, `groups
      ensures Now() == ResetGroup(old(Now()), g, state, now) && Valid()
    {
      ResetGroupKeeps(Now(), g, state, now);
      AnnouncersLive(Now());
      hide Inv, Killed, Outside, AnnouncersOK, GroupsOK, EntriesOK, InterfacesOK;
      KillEntries(g);
      groups := groups[g := groups[g].(nProbing := 0, orphans := 0)];
      ChangeGroupState(g, state, now);
      assert groups == old(groups)[g := Withdrawn(old(groups)[g], state, now)];
    }

    lemma AnnouncersLive(w: World)
      requires Inv(w)
      ensures forall p :: p in w.announcers ==> Live(w, p.entry)
    {
      forall p | p in w.announcers ensures Live(w, p.entry) {
        assert AnnouncerOK(w, p, w.announcers[p]);
      }
    }

    /** avahi_s_entry_group_free. */
    method FreeEntries(g: nat)
      requires Valid() && g in groups
      modifies `entries, `announcers, `groups
      ensures Now() == FreeGroup(old(Now()), g) && Valid()
    {
      FreeGroupKeeps(Now(), g);
      AnnouncersLive(Now());
      hide Inv, Killed, Outside;
      KillEntries(g);
      groups := groups[g := groups[g].(registerTimer := None, dead := true)];
    }

    /** withdraw_entry. */
    method WithdrawEntry(e: nat, now: int)
      requires Valid() && e in entries
      modifies `entries, `announcers, `groups
      ensures Now() == Withdraw(old(Now()), e, now) && Valid()
    {
      WithdrawKeeps(Now(), e, now);
      hide Inv, ResetGroup;
      if entries[e].dead {
        return;
      }
      var g := entries[e].group;
      if g.Some? && g.value in groups {
        ResetEntries(g.value, Collision, now);
      } else {
        Kill(e);
      }
    }
  }
}
