/** avahi-core/entry.c, withdraw_entry of avahi-core/server.c and the interface steps of avahi-core/announce.c:
    the life of entry groups. */
module EntryGroups {
  import opened Bytes
  import opened Announce

  // ---------- Commit ----------

  function PutGroup(w: World, g: nat, gr: Group): World {
    w.(groups := w.groups[g := gr])
  }

  predicate SameCount(a: Group, b: Group) {
    a.nProbing == b.nProbing && a.orphans == b.orphans && a.dead == b.dead
  }

  lemma PutGroupOK(w: World, g: nat, gr: Group, p: Place, a: Announcer)
    requires AnnouncerOK(w, p, a) && g in w.groups && gr.dead == w.groups[g].dead
    requires gr.state == w.groups[g].state || (w.groups[g].state != Registering && w.groups[g].state != Established)
    ensures AnnouncerOK(PutGroup(w, g, gr), p, a)
  {
    hide PhaseOK, Matches;
  }

  lemma PutGroupCounts(w: World, g: nat, gr: Group)
    requires GroupsOK(w) && g in w.groups && HeldOff(gr) && SameCount(gr, w.groups[g])
    ensures GroupsOK(PutGroup(w, g, gr))
  {
    hide ProbingOf, HeldOff;
    var w' := PutGroup(w, g, gr);
    forall h {:trigger w'.groups[h]} | h in w'.groups ensures CountOK(w', h) && HeldOff(w'.groups[h]) {
      assert CountOK(w, h) && HeldOff(w.groups[h]);
    }
  }

  /** A group changes without losing a state its announcers rely on. */
  lemma PutGroupKeeps(w: World, g: nat, gr: Group)
    requires Inv(w) && g in w.groups && HeldOff(gr) && SameCount(gr, w.groups[g])
    requires gr.state == w.groups[g].state || (w.groups[g].state != Registering && w.groups[g].state != Established)
    ensures Inv(PutGroup(w, g, gr))
  {
    hide GroupsOK, HeldOff, AnnouncerOK;
    var w' := PutGroup(w, g, gr);
    PutGroupCounts(w, g, gr);
    forall p {:trigger w'.announcers[p]} | p in w'.announcers ensures AnnouncerOK(w', p, w'.announcers[p]) {
      PutGroupOK(w, g, gr, p, w.announcers[p]);
    }
  }

  /** The group part of entry_group_commit_real. */
  function CommittedNow(g: Group, now: int): Group {
    ChangeState(g.(registerTime := now, commits := g.commits + [Commit(now, g.nRegisterTry)]), Registering, now)
  }

  /** entry_group_commit_real. */
  function CommitReal(w: World, g: nat, now: int, jitter: Jitter): World
    requires g in w.groups
  {
    var v := AnnounceGroup(PutGroup(w, g, CommittedNow(w.groups[g], now)), w.entryList, g, now, jitter);
    if g in v.groups then CheckProbed(v, g, false, now, jitter) else v
  }

  /** The hold-off has passed. */
  predicate MayCommit(g: Group, now: int) {
    g.commits != [] ==> now - g.commits[|g.commits| - 1].time >= Holdoff(g.nRegisterTry)
  }

  lemma CommittedNowHeldOff(g: Group, now: int)
    requires Spaced(g.commits) && g.registerTimer == None && MayCommit(g, now) && g.state != Established
    ensures HeldOff(CommittedNow(g, now)) && CommittedNow(g, now).state == Registering
  {
  }

  lemma CommitRealKeeps(w: World, g: nat, now: int, jitter: Jitter)
    requires Inv(w) && g in w.groups && w.groups[g].registerTimer == None && MayCommit(w.groups[g], now)
    requires w.groups[g].state != Established
    ensures Inv(CommitReal(w, g, now, jitter))
  {
    assert HeldOff(w.groups[g]);
    CommittedNowHeldOff(w.groups[g], now);
    hide AnnouncersOK, GroupsOK, EntriesOK, HeldOff;
    var u := PutGroup(w, g, CommittedNow(w.groups[g], now));
    PutGroupKeeps(w, g, CommittedNow(w.groups[g], now));
    AnnounceGroupKeeps(u, u.entryList, g, now, jitter);
    var v := AnnounceGroup(u, u.entryList, g, now, jitter);
    CheckProbedKeeps(v, g, false, now, jitter);
  }

  predicate IsEmpty(w: World, g: nat) {
    forall e :: e in w.entries && w.entries[e].group == Some(g) ==> w.entries[e].dead
  }

  /** One more try, and the time before which it may not start. */
  function Requested(g: Group): Group {
    g.(nRegisterTry := g.nRegisterTry + 1, registerTime := g.registerTime + Holdoff(g.nRegisterTry + 1))
  }

  /** avahi_s_entry_group_commit, when the group is neither committed nor empty. */
  function CommitGroup(w: World, g: nat, now: int, jitter: Jitter): World
    requires g in w.groups
  {
    var r := Requested(w.groups[g]);
    if r.registerTime <= now then CommitReal(PutGroup(w, g, r), g, now, jitter)
    else PutGroup(w, g, ChangeState(r.(registerTimer := Some(r.registerTime)), Registering, now))
  }

  predicate Committable(w: World, g: nat) {
    && g in w.groups && !w.groups[g].dead && !IsEmpty(w, g)
    && (w.groups[g].state == Uncommitted || w.groups[g].state == Collision)
  }

  lemma CommitGroupKeeps(w: World, g: nat, now: int, jitter: Jitter)
    requires Inv(w) && Committable(w, g)
    ensures Inv(CommitGroup(w, g, now, jitter))
  {
    var r := Requested(w.groups[g]);
    assert HeldOff(w.groups[g]);
    assert HeldOff(r) && r.registerTimer == None;
    hide AnnouncersOK, GroupsOK, EntriesOK;
    if r.registerTime <= now {
      assert MayCommit(r, now);
      hide HeldOff, IsEmpty;
      PutGroupKeeps(w, g, r);
      CommitRealKeeps(PutGroup(w, g, r), g, now, jitter);
    } else {
      PutGroupKeeps(w, g, ChangeState(r.(registerTimer := Some(r.registerTime)), Registering, now));
    }
  }

  predicate RegisterDue(w: World, g: nat, now: int) {
    g in w.groups && w.groups[g].registerTimer.Some? && w.groups[g].registerTimer.value <= now
  }

  /** entry_group_register_time_event_callback. */
  function RegisterElapsed(w: World, g: nat, now: int, jitter: Jitter): World
    requires g in w.groups
  {
    CommitReal(PutGroup(w, g, w.groups[g].(registerTimer := None)), g, now, jitter)
  }

  lemma RegisterElapsedKeeps(w: World, g: nat, now: int, jitter: Jitter)
    requires Inv(w) && RegisterDue(w, g, now)
    ensures Inv(RegisterElapsed(w, g, now, jitter))
  {
    var r := w.groups[g].(registerTimer := None);
    assert HeldOff(w.groups[g]);
    assert HeldOff(r) && MayCommit(r, now);
    hide AnnouncersOK, GroupsOK, EntriesOK, HeldOff;
    PutGroupKeeps(w, g, r);
    CommitRealKeeps(PutGroup(w, g, r), g, now, jitter);
  }

  // ---------- Reset, withdrawal and removal ----------

  function Killed(entries: map<nat, Entry>, g: nat): map<nat, Entry> {
    map e | e in entries :: if entries[e].group == Some(g) then entries[e].(dead := true) else entries[e]
  }

  function Outside(entries: map<nat, Entry>, announcers: map<Place, Announcer>, g: nat): map<Place, Announcer> {
    map p | p in announcers && !In(entries, p, g) :: announcers[p]
  }

  /** All entries of the group are dead, their announcers are gone, and the group is gr. */
  function Discard(w: World, g: nat, gr: Group): World {
    w.(entries := Killed(w.entries, g), announcers := Outside(w.entries, w.announcers, g), groups := w.groups[g := gr])
  }

  lemma DiscardProbing(w: World, g: nat, gr: Group, h: nat)
    ensures var w' := Discard(w, g, gr);
            ProbingOf(w'.entries, w'.announcers, h) == if h == g then {} else ProbingOf(w.entries, w.announcers, h)
  {
  }

  lemma DiscardKeepsGroups(w: World, g: nat, gr: Group)
    requires GroupsOK(w) && HeldOff(gr) && (gr.dead || gr.nProbing == gr.orphans == 0)
    ensures GroupsOK(Discard(w, g, gr))
  {
    var w' := Discard(w, g, gr);
    forall h {:trigger w'.groups[h]} | h in w'.groups ensures CountOK(w', h) && HeldOff(w'.groups[h]) {
      hide ProbingOf, HeldOff, In;
      DiscardProbing(w, g, gr, h);
      if h != g {
        assert CountOK(w, h) && HeldOff(w.groups[h]);
      }
    }
  }

  lemma DiscardKeeps(w: World, g: nat, gr: Group)
    requires Inv(w) && g in w.groups && HeldOff(gr) && (gr.dead || gr.nProbing == gr.orphans == 0)
    ensures Inv(Discard(w, g, gr))
  {
    hide PhaseOK, Matches;
    DiscardKeepsGroups(w, g, gr);
    hide GroupsOK, HeldOff;
    var w' := Discard(w, g, gr);
    assert EntriesOK(w') by { hide AnnouncersOK; }
    forall p {:trigger w'.announcers[p]} | p in w'.announcers ensures AnnouncerOK(w', p, w'.announcers[p]) {
      assert AnnouncerOK(w, p, w.announcers[p]);
    }
  }

  /** avahi_s_entry_group_reset (state Uncommitted) and the group part of withdraw_entry (state Collision). */
  function Withdrawn(g: Group, state: GroupState, now: int): Group {
    ChangeState(g.(nProbing := 0, orphans := 0), state, now)
  }

  lemma WithdrawnHeldOff(g: Group, state: GroupState, now: int)
    requires HeldOff(g) && (state == Uncommitted || state == Collision)
    ensures HeldOff(Withdrawn(g, state, now)) && Withdrawn(g, state, now).registerTimer == None
  {
    hide Spaced;
  }

  function ResetGroup(w: World, g: nat, state: GroupState, now: int): World
    requires g in w.groups
  {
    Discard(w, g, Withdrawn(w.groups[g], state, now))
  }

  lemma ResetGroupKeeps(w: World, g: nat, state: GroupState, now: int)
    requires Inv(w) && g in w.groups && (state == Uncommitted || state == Collision)
    ensures Inv(ResetGroup(w, g, state, now))
  {
    assert HeldOff(w.groups[g]);
    WithdrawnHeldOff(w.groups[g], state, now);
    hide Inv, HeldOff;
    DiscardKeeps(w, g, Withdrawn(w.groups[g], state, now));
  }

  /** avahi_s_entry_group_free. */
  function FreeGroup(w: World, g: nat): World
    requires g in w.groups
  {
    Discard(w, g, w.groups[g].(registerTimer := None, dead := true))
  }

  lemma FreeGroupKeeps(w: World, g: nat)
    requires Inv(w) && g in w.groups
    ensures Inv(FreeGroup(w, g))
  {
    assert HeldOff(w.groups[g]);
    assert HeldOff(w.groups[g].(registerTimer := None, dead := true));
    hide Inv, HeldOff;
    DiscardKeeps(w, g, w.groups[g].(registerTimer := None, dead := true));
  }

  /** withdraw_entry for an entry without a group. */
  function Forget(w: World, e: nat): World
    requires e in w.entries
  {
    w.(entries := w.entries[e := w.entries[e].(dead := true)],
       announcers := map p | p in w.announcers && p.entry != e :: w.announcers[p])
  }

  lemma ForgetKeeps(w: World, e: nat)
    requires Inv(w) && e in w.entries && w.entries[e].group == None
    ensures Inv(Forget(w, e))
  {
    hide PhaseOK, Matches;
    var w' := Forget(w, e);
    assert EntriesOK(w') by { hide AnnouncersOK, GroupsOK; }
    assert GroupsOK(w') by {
      hide AnnouncersOK, EntriesOK, HeldOff;
      forall g {:trigger w'.groups[g]} | g in w'.groups ensures CountOK(w', g) && HeldOff(w'.groups[g]) {
        assert CountOK(w, g) && HeldOff(w.groups[g]);
        assert ProbingOf(w'.entries, w'.announcers, g) == ProbingOf(w.entries, w.announcers, g);
      }
    }
    hide GroupsOK, EntriesOK;
    forall p {:trigger w'.announcers[p]} | p in w'.announcers ensures AnnouncerOK(w', p, w'.announcers[p]) {
      assert AnnouncerOK(w, p, w.announcers[p]);
    }
  }

  /** withdraw_entry. */
  function Withdraw(w: World, e: nat, now: int): World
    requires e in w.entries
  {
    var g := w.entries[e].group;
    if w.entries[e].dead then w
    else if g.Some? && g.value in w.groups then ResetGroup(w, g.value, Collision, now) else Forget(w, e)
  }

  lemma WithdrawKeeps(w: World, e: nat, now: int)
    requires Inv(w) && e in w.entries
    ensures Inv(Withdraw(w, e, now))
  {
    var g := w.entries[e].group;
    assert g.Some? ==> g.value in w.groups;
    hide Inv, ResetGroup, Forget;
    if g.Some? {
      ResetGroupKeeps(w, g.value, Collision, now);
    } else {
      ForgetKeeps(w, e);
    }
  }

  // ---------- Interfaces ----------

  function WithInterface(w: World, i: Interface): World {
    w.(announcing := w.announcing + {i}, interfaces := if i in w.interfaces then w.interfaces else w.interfaces + [i])
  }

  function InterfaceUp(w: World, i: Interface, now: int, jitter: Jitter): World {
    var v := WithInterface(w, i);
    AnnounceInterface(v, v.entryList, i, now, jitter)
  }

  lemma MoreInterfaces(w: World, i: Interface)
    requires Inv(w)
    ensures Inv(WithInterface(w, i))
  {
    var v := WithInterface(w, i);
    assert GroupsOK(v) by {
      forall g {:trigger v.groups[g]} | g in v.groups ensures CountOK(v, g) && HeldOff(v.groups[g]) {
        assert CountOK(w, g) && HeldOff(w.groups[g]);
      }
    }
    hide GroupsOK, PhaseOK, Matches;
    forall p {:trigger v.announcers[p]} | p in v.announcers ensures AnnouncerOK(v, p, v.announcers[p]) {
      assert AnnouncerOK(w, p, w.announcers[p]);
    }
  }

  lemma InterfaceUpKeeps(w: World, i: Interface, now: int, jitter: Jitter)
    requires Inv(w)
    ensures Inv(InterfaceUp(w, i, now, jitter))
  {
    hide Inv;
    MoreInterfaces(w, i);
    AnnounceInterfaceKeeps(WithInterface(w, i), w.entryList, i, now, jitter);
  }

  function ProbingOn(w: World, g: nat, i: Interface): set<Place> {
    set p | p in ProbingOf(w.entries, w.announcers, g) && p.iface == i
  }

  /** avahi_goodbye_interface with removal: the counts of the groups stay as they are. */
  function InterfaceDown(w: World, i: Interface): World {
    w.(announcing := w.announcing - {i},
       announcers := map p | p in w.announcers && p.iface != i :: w.announcers[p],
       groups := map g | g in w.groups :: w.groups[g].(orphans := w.groups[g].orphans + |ProbingOn(w, g, i)|))
  }

  lemma FewerProbing(w: World, i: Interface, g: nat)
    ensures |ProbingOf(w.entries, InterfaceDown(w, i).announcers, g)| + |ProbingOn(w, g, i)| ==
              |ProbingOf(w.entries, w.announcers, g)|
  {
    var s, t := ProbingOf(w.entries, InterfaceDown(w, i).announcers, g), ProbingOf(w.entries, w.announcers, g);
    assert t == s + ProbingOn(w, g, i) && s !! ProbingOn(w, g, i);
  }

  lemma OrphansHeldOff(g: Group, n: nat)
    ensures HeldOff(g) <==> HeldOff(g.(orphans := n))
  {
  }

  lemma InterfaceDownCounts(w: World, i: Interface)
    requires GroupsOK(w)
    ensures GroupsOK(InterfaceDown(w, i))
  {
    hide HeldOff, ProbingOf, ProbingOn;
    var w' := InterfaceDown(w, i);
    forall g {:trigger w'.groups[g]} | g in w'.groups ensures CountOK(w', g) && HeldOff(w'.groups[g]) {
      assert CountOK(w, g) && HeldOff(w.groups[g]);
      FewerProbing(w, i, g);
      OrphansHeldOff(w.groups[g], w'.groups[g].orphans);
    }
  }

  lemma InterfaceDownKeeps(w: World, i: Interface)
    requires Inv(w)
    ensures Inv(InterfaceDown(w, i))
  {
    var w' := InterfaceDown(w, i);
    InterfaceDownCounts(w, i);
    hide GroupsOK, AnnouncerOK, ProbingOn;
    assert EntriesOK(w') by { hide AnnouncersOK; }
    hide EntriesOK;
    forall p {:trigger w'.announcers[p]} | p in w'.announcers ensures AnnouncerOK(w', p, w'.announcers[p]) {
      StaysOnOther(w, i, p);
    }
  }

  lemma StaysOnOther(w: World, i: Interface, p: Place)
    requires p in w.announcers && p.iface != i && AnnouncerOK(w, p, w.announcers[p])
    ensures AnnouncerOK(InterfaceDown(w, i), p, w.announcers[p])
  {
    hide PhaseOK, Matches, ProbingOn;
  }

  // ---------- Adding, updating and cleaning up ----------

  /** avahi_s_entry_group_new. */
  function NewGroup(w: World, g: nat): World {
    PutGroup(w, g, Group(Uncommitted, false, 0, 0, 0, 0, None, 0, []))
  }

  lemma NoneInNewGroup(w: World, g: nat)
    requires AnnouncersOK(w) && g !in w.groups
    ensures ProbingOf(w.entries, w.announcers, g) == {}
  {
    forall p | p in w.announcers ensures !In(w.entries, p, g) {
      assert AnnouncerOK(w, p, w.announcers[p]);
    }
  }

  lemma NewGroupCounts(w: World, g: nat)
    requires AnnouncersOK(w) && GroupsOK(w) && g !in w.groups
    ensures GroupsOK(NewGroup(w, g))
  {
    NoneInNewGroup(w, g);
    hide AnnouncersOK, ProbingOf;
    var w' := NewGroup(w, g);
    forall h {:trigger w'.groups[h]} | h in w'.groups ensures CountOK(w', h) && HeldOff(w'.groups[h]) {
      if h != g {
        assert CountOK(w, h) && HeldOff(w.groups[h]);
      }
    }
  }

  lemma NewGroupKeeps(w: World, g: nat)
    requires Inv(w) && g !in w.groups
    ensures Inv(NewGroup(w, g))
  {
    hide AnnouncerOK;
    var w' := NewGroup(w, g);
    NewGroupCounts(w, g);
    assert SameStates(w, w') by { hide Inv; }
    StillEntries(w, w');
    hide GroupsOK, EntriesOK, AnnouncerOK, SameStates;
    forall p {:trigger w'.announcers[p]} | p in w'.announcers ensures AnnouncerOK(w', p, w'.announcers[p]) {
      StillOK(w, w', p, w.announcers[p]);
    }
  }

  /** The new entry is put at the head of the list. */
  function Inserted(w: World, e: nat, entry: Entry): World {
    w.(entries := w.entries[e := entry], entryList := [e] + w.entryList)
  }

  /** server_add_internal for a new entry. */
  function AddEntry(w: World, e: nat, entry: Entry, now: int, jitter: Jitter): World {
    AnnounceOn(Inserted(w, e, entry), e, w.interfaces, now, jitter)
  }

  /** A new entry is accepted outside groups and in groups that are not committed. */
  predicate Addable(w: World, e: nat, entry: Entry) {
    && e !in w.entries && !entry.dead
    && (entry.group.Some? ==>
          && entry.group.value in w.groups && !w.groups[entry.group.value].dead
          && w.groups[entry.group.value].state != Established && w.groups[entry.group.value].state != Registering)
  }

  lemma InsertedKeeps(w: World, e: nat, entry: Entry)
    requires Inv(w) && Addable(w, e, entry)
    ensures Inv(Inserted(w, e, entry))
  {
    var w' := Inserted(w, e, entry);
    NoneOfNewEntry(w, e);
    InsertedCounts(w, e, entry);
    assert EntriesOK(w') by { hide AnnouncersOK, GroupsOK; }
    hide GroupsOK, EntriesOK, PhaseOK, Matches;
    forall p {:trigger w'.announcers[p]} | p in w'.announcers ensures AnnouncerOK(w', p, w'.announcers[p]) {
      assert AnnouncerOK(w, p, w.announcers[p]);
    }
  }

  predicate NoneOf(w: World, e: nat) {
    forall p :: p in w.announcers ==> p.entry != e
  }

  lemma NoneOfNewEntry(w: World, e: nat)
    requires AnnouncersOK(w) && e !in w.entries
    ensures NoneOf(w, e)
  {
    forall p | p in w.announcers ensures p.entry != e {
      assert AnnouncerOK(w, p, w.announcers[p]);
    }
  }

  lemma InsertedCounts(w: World, e: nat, entry: Entry)
    requires GroupsOK(w) && NoneOf(w, e)
    ensures GroupsOK(Inserted(w, e, entry))
  {
    hide HeldOff;
    var w' := Inserted(w, e, entry);
    forall g {:trigger w'.groups[g]} | g in w'.groups ensures CountOK(w', g) && HeldOff(w'.groups[g]) {
      assert CountOK(w, g) && HeldOff(w.groups[g]);
      assert ProbingOf(w'.entries, w'.announcers, g) == ProbingOf(w.entries, w.announcers, g);
    }
  }

  lemma AddEntryKeeps(w: World, e: nat, entry: Entry, now: int, jitter: Jitter)
    requires Inv(w) && Addable(w, e, entry)
    ensures Inv(AddEntry(w, e, entry, now, jitter))
  {
    InsertedKeeps(w, e, entry);
    hide Inv;
    AnnounceOnKeeps(Inserted(w, e, entry), e, w.interfaces, now, jitter);
  }

  function Reflagged(w: World, e: nat, flags: Flags): World
    requires e in w.entries
  {
    w.(entries := w.entries[e := w.entries[e].(flags := flags)])
  }

  lemma ReflaggedOK(w: World, e: nat, flags: Flags, p: Place, a: Announcer)
    requires e in w.entries && AnnouncerOK(w, p, a)
    ensures AnnouncerOK(Reflagged(w, e, flags), p, a)
  {
    hide PhaseOK;
  }

  lemma ReflaggedKeeps(w: World, e: nat, flags: Flags)
    requires Inv(w) && e in w.entries
    ensures Inv(Reflagged(w, e, flags))
  {
    var w' := Reflagged(w, e, flags);
    assert EntriesOK(w') by { hide AnnouncersOK, GroupsOK; }
    assert GroupsOK(w') by {
      hide AnnouncersOK, EntriesOK, HeldOff;
      forall g {:trigger w'.groups[g]} | g in w'.groups ensures CountOK(w', g) && HeldOff(w'.groups[g]) {
        assert CountOK(w, g) && HeldOff(w.groups[g]);
        assert ProbingOf(w'.entries, w'.announcers, g) == ProbingOf(w.entries, w.announcers, g);
      }
    }
    hide GroupsOK, EntriesOK, AnnouncerOK;
    forall p {:trigger w'.announcers[p]} | p in w'.announcers ensures AnnouncerOK(w', p, w'.announcers[p]) {
      ReflaggedOK(w, e, flags, p, w.announcers[p]);
    }
  }

  /** server_add_internal with AVAHI_PUBLISH_UPDATE, for the entry it finds: a record that differs is announced
      again. */
  function UpdateEntry(w: World, e: nat, flags: Flags, differs: bool, now: int, jitter: Jitter): World
    requires e in w.entries
  {
    var g := w.entries[e].group;
    var v := Reflagged(w, e, flags);
    if differs && (g.None? || (g.value in w.groups && w.groups[g.value].state != Uncommitted))
    then ReannounceOn(v, e, v.interfaces, now, jitter) else v
  }

  lemma UpdateEntryKeeps(w: World, e: nat, flags: Flags, differs: bool, now: int, jitter: Jitter)
    requires Inv(w) && e in w.entries
    ensures Inv(UpdateEntry(w, e, flags, differs, now, jitter))
  {
    ReflaggedKeeps(w, e, flags);
    hide Inv, Reflagged;
    var v := Reflagged(w, e, flags);
    ReannounceOnKeeps(v, e, v.interfaces, now, jitter);
  }

  function LiveOnly(w: World, es: seq<nat>): seq<nat> {
    if es == [] then [] else LiveOnly(w, es[..|es| - 1]) + if Live(w, es[|es| - 1]) then [es[|es| - 1]] else []
  }

  lemma {:induction false} LiveOnlyKeeps(w: World, es: seq<nat>, e: nat)
    requires e in es && Live(w, e)
    ensures e in LiveOnly(w, es)
    decreases |es|
  {
    var n := |es| - 1;
    assert es == es[..n] + [es[n]];
    if es[n] != e {
      LiveOnlyKeeps(w, es[..n], e);
    }
  }

  /** avahi_cleanup_dead_entries. */
  function Cleanup(w: World): World {
    w.(entries := map e | e in w.entries && !w.entries[e].dead :: w.entries[e], entryList := LiveOnly(w, w.entryList),
       groups := map g | g in w.groups && !w.groups[g].dead :: w.groups[g])
  }

  lemma CleanupKeeps(w: World)
    requires Inv(w)
    ensures Inv(Cleanup(w))
  {
    hide PhaseOK, Matches;
    var w' := Cleanup(w);
    assert EntriesOK(w') by {
      hide AnnouncersOK, GroupsOK, LiveOnly;
      forall e {:trigger w'.entries[e]} | e in w'.entries ensures EntryOK(w', e) {
        assert EntryOK(w, e);
        LiveOnlyKeeps(w, w.entryList, e);
      }
    }
    assert GroupsOK(w') by {
      forall g {:trigger w'.groups[g]} | g in w'.groups ensures CountOK(w', g) && HeldOff(w'.groups[g]) {
        hide EntriesOK, HeldOff, LiveOnly;
        assert CountOK(w, g) && HeldOff(w.groups[g]);
        CleanupProbing(w, g);
      }
    }
    hide GroupsOK, EntriesOK, PhaseOK, Matches, LiveOnly;
    forall p {:trigger w'.announcers[p]} | p in w'.announcers ensures AnnouncerOK(w', p, w'.announcers[p]) {
      assert AnnouncerOK(w, p, w.announcers[p]);
    }
  }

  lemma CleanupProbing(w: World, g: nat)
    requires AnnouncersOK(w)
    ensures ProbingOf(Cleanup(w).entries, w.announcers, g) == ProbingOf(w.entries, w.announcers, g)
  {
    hide LiveOnly, PhaseOK, Matches;
    forall p | p in w.announcers ensures p.entry in w.entries && !w.entries[p.entry].dead {
      assert AnnouncerOK(w, p, w.announcers[p]);
    }
  }
}
