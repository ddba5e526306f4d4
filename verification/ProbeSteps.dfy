/** What one event can do to one record that has to be probed for: avahi-core/announce.c, seen from a single place. */
module ProbeSteps {
  import opened Bytes
  import opened Announce
  import opened EntryGroups
  import opened AnnounceRun

  /** Where a record stands on an interface: nothing goes on, it is being probed for (avahi_entry_is_probing), with the
      times of its probes, or it is registered (avahi_entry_is_registered). */
  datatype View = Idle | Trying(probes: seq<int>) | Claimed

  function ViewOf(w: World, p: Place): View {
    if p !in w.announcers then Idle
    else match w.announcers[p].phase
      case Probing => Trying(w.announcers[p].probes)
      case Waiting => Trying(w.announcers[p].probes)
      case _ => Claimed
  }

  /** The entry at that place, if there is one, is unique and has to be probed for. */
  predicate ToBeProbed(w: World, p: Place) {
    p.entry in w.entries ==> Probes(w.entries[p.entry].flags)
  }

  /** The view is what the two questions of the source answer. */
  lemma ViewIsState(w: World, p: Place)
    requires Inv(w) && ToBeProbed(w, p)
    ensures ViewOf(w, p).Trying? <==> IsProbing(w, p)
    ensures ViewOf(w, p).Claimed? <==> IsRegistered(w, p)
  {
    if p in w.announcers {
      assert AnnouncerOK(w, p, w.announcers[p]);
    }
  }

  /** What an announcer may become without a probe: its probes stay, and it passes probing only with three of them. */
  predicate Continues(a: Announcer, b: Announcer) {
    && b.probes == a.probes
    && (b.phase == Probing ==> a.phase == Probing)
    && (b.phase != Probing && a.phase == Probing ==> |a.probes| == 3)
    && (b.phase == Waiting ==> a.phase == Waiting || a.phase == Probing)
  }

  predicate Begins(a: Announcer) {
    a.phase == Probing && a.probes == []
  }

  /** Place q has no announcer afterwards, one that begins to probe, or one that continues. */
  predicate Quiet(w: World, v: World, q: Place) {
    q in v.announcers ==>
      Begins(v.announcers[q]) || (q in w.announcers && Continues(w.announcers[q], v.announcers[q]))
  }

  lemma QuietThenQuiet(w: World, v: World, u: World, q: Place)
    requires Quiet(w, v, q) && Quiet(v, u, q)
    ensures Quiet(w, u, q)
  {
  }

  lemma SameIsQuiet(w: World, v: World, q: Place)
    requires q in v.announcers ==> q in w.announcers && v.announcers[q] == w.announcers[q]
    ensures Quiet(w, v, q)
  {
  }

  lemma PutQuiet(w: World, p: Place, a: Announcer, q: Place)
    requires p == q ==> Begins(a) || (q in w.announcers && Continues(w.announcers[q], a))
    ensures Quiet(w, Put(w, p, a), q) && Put(w, p, a).entries == w.entries
  {
  }

  lemma LaunchQuiet(w: World, p: Place, now: int, jitter: Jitter, q: Place)
    requires p.entry in w.entries && ToBeProbed(w, q)
    ensures Quiet(w, Launch(w, p, now, jitter), q) && Launch(w, p, now, jitter).entries == w.entries
  {
    hide Quiet, Put;
    PutQuiet(w, p, Restarted(Finished(w, p), InitialPhase(w, p.entry), now, jitter(p)), q);
  }

  lemma NewQuiet(w: World, p: Place, now: int, jitter: Jitter, q: Place)
    requires ToBeProbed(w, q)
    ensures Quiet(w, NewAnnouncer(w, p, now, jitter), q) && NewAnnouncer(w, p, now, jitter).entries == w.entries
  {
    SameIsQuiet(w, w, q);
    hide Quiet, Launch;
    if Wanted(w, p) {
      LaunchQuiet(w, p, now, jitter, q);
    }
  }

  lemma {:induction false} OnQuiet(w: World, e: nat, ifaces: seq<Interface>, now: int, jitter: Jitter, q: Place)
    requires ToBeProbed(w, q)
    ensures Quiet(w, AnnounceOn(w, e, ifaces, now, jitter), q)
            && AnnounceOn(w, e, ifaces, now, jitter).entries == w.entries
    decreases |ifaces|
  {
    SameIsQuiet(w, w, q);
    hide Quiet, NewAnnouncer;
    if ifaces != [] {
      var v := AnnounceOn(w, e, ifaces[..|ifaces| - 1], now, jitter);
      OnQuiet(w, e, ifaces[..|ifaces| - 1], now, jitter, q);
      NewQuiet(v, Place(e, ifaces[|ifaces| - 1]), now, jitter, q);
      QuietThenQuiet(w, v, AnnounceOn(w, e, ifaces, now, jitter), q);
    }
  }

  lemma {:induction false} GroupQuiet(w: World, es: seq<nat>, g: nat, now: int, jitter: Jitter, q: Place)
    requires ToBeProbed(w, q)
    ensures Quiet(w, AnnounceGroup(w, es, g, now, jitter), q)
            && AnnounceGroup(w, es, g, now, jitter).entries == w.entries
    decreases |es|
  {
    SameIsQuiet(w, w, q);
    hide Quiet, AnnounceOn;
    if es != [] {
      var v, e := AnnounceGroup(w, es[..|es| - 1], g, now, jitter), es[|es| - 1];
      GroupQuiet(w, es[..|es| - 1], g, now, jitter, q);
      OnQuiet(v, e, v.interfaces, now, jitter, q);
      QuietThenQuiet(w, v, AnnounceOn(v, e, v.interfaces, now, jitter), q);
    }
  }

  lemma {:induction false} InterfaceQuiet(w: World, es: seq<nat>, i: Interface, now: int, jitter: Jitter, q: Place)
    requires ToBeProbed(w, q)
    ensures Quiet(w, AnnounceInterface(w, es, i, now, jitter), q)
    ensures AnnounceInterface(w, es, i, now, jitter).entries == w.entries
    decreases |es|
  {
    SameIsQuiet(w, w, q);
    hide Quiet, NewAnnouncer;
    if es != [] {
      var v, e := AnnounceInterface(w, es[..|es| - 1], i, now, jitter), es[|es| - 1];
      InterfaceQuiet(w, es[..|es| - 1], i, now, jitter, q);
      NewQuiet(v, Place(e, i), now, jitter, q);
      QuietThenQuiet(w, v, NewAnnouncer(v, Place(e, i), now, jitter), q);
    }
  }

  lemma CheckProbedQuiet(w: World, g: nat, immediately: bool, now: int, jitter: Jitter, q: Place)
    requires g in w.groups
    ensures Quiet(w, CheckProbed(w, g, immediately, now, jitter), q)
  {
    hide ChangeState, In;
  }

  lemma CommitRealQuiet(w: World, g: nat, now: int, jitter: Jitter, q: Place)
    requires g in w.groups && ToBeProbed(w, q)
    ensures Quiet(w, CommitReal(w, g, now, jitter), q)
  {
    var u := PutGroup(w, g, CommittedNow(w.groups[g], now));
    var v := AnnounceGroup(u, w.entryList, g, now, jitter);
    SameIsQuiet(w, u, q);
    hide Quiet, AnnounceGroup, CheckProbed, CommittedNow;
    GroupQuiet(u, w.entryList, g, now, jitter, q);
    QuietThenQuiet(w, u, v, q);
    if g in v.groups {
      CheckProbedQuiet(v, g, false, now, jitter, q);
      QuietThenQuiet(w, v, CheckProbed(v, g, false, now, jitter), q);
    }
  }

  lemma CommitQuiet(w: World, g: nat, now: int, jitter: Jitter, q: Place)
    requires g in w.groups && ToBeProbed(w, q)
    ensures Quiet(w, CommitGroup(w, g, now, jitter), q) && Quiet(w, RegisterElapsed(w, g, now, jitter), q)
  {
    var r, s := PutGroup(w, g, Requested(w.groups[g])), PutGroup(w, g, w.groups[g].(registerTimer := None));
    SameIsQuiet(w, r, q);
    SameIsQuiet(w, s, q);
    hide CommitReal, ChangeState;
    CommitRealQuiet(r, g, now, jitter, q);
    CommitRealQuiet(s, g, now, jitter, q);
    QuietThenQuiet(w, r, CommitReal(r, g, now, jitter), q);
    QuietThenQuiet(w, s, CommitReal(s, g, now, jitter), q);
  }

  lemma DoneQuiet(w: World, p: Place, now: int, jitter: Jitter, q: Place)
    requires p in w.announcers && w.announcers[p].phase == Probing && |w.announcers[p].probes| == 3
    ensures Quiet(w, NextState(Put(w, p, ProbingDone(w, p)), p, now, jitter), q)
  {
    hide Quiet, CheckProbed;
    var b := ProbingDone(w, p);
    var v := Put(w, p, b);
    PutQuiet(w, p, b, q);
    if b.phase == Waiting {
      var g := GroupOf(v, p.entry);
      if g.Some? && g.value in v.groups {
        CheckProbedQuiet(v, g.value, true, now, jitter, q);
        QuietThenQuiet(w, v, CheckProbed(v, g.value, true, now, jitter), q);
      }
    } else {
      var c := Announced(b, now, jitter(p));
      PutTwice(w, p, b, c);
      PutQuiet(w, p, c, q);
    }
  }

  /** The event posts a probe for q: exactly when its timer is due and it has not posted three yet. */
  predicate PostsFor(w: World, ev: Event, q: Place) {
    && ev == TimerElapsed(q) && q in w.announcers && w.announcers[q].phase == Probing && w.announcers[q].nIteration < 4
  }

  lemma TimerQuiet(w: World, p: Place, now: int, jitter: Jitter, q: Place)
    requires Inv(w) && p in w.announcers && !PostsFor(w, TimerElapsed(p), q)
    ensures Quiet(w, NextState(w, p, now, jitter), q)
  {
    var a := w.announcers[p];
    assert AnnouncerOK(w, p, a);
    SameIsQuiet(w, w, q);
    hide Inv, Quiet, CheckProbed;
    match a.phase
    case Settled =>
    case Announcing => PutQuiet(w, p, Announced(a, now, jitter(p)), q);
    case Waiting =>
      var g := GroupOf(w, p.entry);
      if g.Some? && g.value in w.groups {
        CheckProbedQuiet(w, g.value, true, now, jitter, q);
      }
    case Probing =>
      if a.nIteration < 4 {
        PutQuiet(w, p, ProbePosted(a, now), q);
      } else {
        DoneQuiet(w, p, now, jitter, q);
      }
  }

  lemma WithdrawQuiet(w: World, e: nat, now: int, q: Place)
    requires e in w.entries
    ensures Quiet(w, Withdraw(w, e, now), q)
  {
    SameIsQuiet(w, Withdraw(w, e, now), q);
  }

  lemma AddQuiet(w: World, e: nat, entry: Entry, now: int, jitter: Jitter, q: Place)
    requires ToBeProbed(AddEntry(w, e, entry, now, jitter), q) && ToBeProbed(w, q)
    ensures Quiet(w, AddEntry(w, e, entry, now, jitter), q)
  {
    var v := Inserted(w, e, entry);
    SameIsQuiet(w, v, q);
    hide Quiet, AnnounceOn;
    OnEntries(v, e, w.interfaces, now, jitter);
    OnQuiet(v, e, w.interfaces, now, jitter, q);
    QuietThenQuiet(w, v, AnnounceOn(v, e, w.interfaces, now, jitter), q);
  }

  lemma {:induction false} OnEntries(w: World, e: nat, ifaces: seq<Interface>, now: int, jitter: Jitter)
    ensures AnnounceOn(w, e, ifaces, now, jitter).entries == w.entries
    decreases |ifaces|
  {
    if ifaces != [] {
      OnEntries(w, e, ifaces[..|ifaces| - 1], now, jitter);
    }
  }

  lemma {:induction false} ReannounceQuiet(w: World, e: nat, ifaces: seq<Interface>, now: int, jitter: Jitter, q: Place)
    requires ToBeProbed(w, q)
    ensures Quiet(w, ReannounceOn(w, e, ifaces, now, jitter), q)
    ensures ReannounceOn(w, e, ifaces, now, jitter).entries == w.entries
    decreases |ifaces|
  {
    SameIsQuiet(w, w, q);
    hide Quiet;
    if ifaces != [] {
      var v := ReannounceOn(w, e, ifaces[..|ifaces| - 1], now, jitter);
      ReannounceQuiet(w, e, ifaces[..|ifaces| - 1], now, jitter, q);
      AgainQuiet(v, Place(e, ifaces[|ifaces| - 1]), now, jitter, q);
      QuietThenQuiet(w, v, ReannounceOn(w, e, ifaces, now, jitter), q);
    }
  }

  lemma AgainQuiet(w: World, p: Place, now: int, jitter: Jitter, q: Place)
    requires ToBeProbed(w, q)
    ensures Quiet(w, Reannounce(w, p, now, jitter), q) && Reannounce(w, p, now, jitter).entries == w.entries
  {
    SameIsQuiet(w, w, q);
    hide Quiet, Put;
    if p in w.announcers && p.entry in w.entries && Committed(w, p.entry) {
      var a := w.announcers[p];
      PutQuiet(w, p, Restarted(Finished(w, p), ReannouncedPhase(a.phase, w.entries[p.entry].flags), now, jitter(p)), q);
    }
  }

  lemma UpdateQuiet(w: World, e: nat, flags: Flags, differs: bool, now: int, jitter: Jitter, q: Place)
    requires e in w.entries && ToBeProbed(Reflagged(w, e, flags), q)
    ensures Quiet(w, UpdateEntry(w, e, flags, differs, now, jitter), q)
  {
    var v := Reflagged(w, e, flags);
    SameIsQuiet(w, v, q);
    hide Quiet, ReannounceOn;
    ReannounceQuiet(v, e, v.interfaces, now, jitter, q);
    QuietThenQuiet(w, v, ReannounceOn(v, e, v.interfaces, now, jitter), q);
  }

  lemma UpQuiet(w: World, i: Interface, now: int, jitter: Jitter, q: Place)
    requires ToBeProbed(w, q)
    ensures Quiet(w, InterfaceUp(w, i, now, jitter), q)
  {
    var v := WithInterface(w, i);
    SameIsQuiet(w, v, q);
    hide Quiet, AnnounceInterface;
    InterfaceQuiet(v, v.entryList, i, now, jitter, q);
    QuietThenQuiet(w, v, AnnounceInterface(v, v.entryList, i, now, jitter), q);
  }

  lemma ChallengeQuiet(w: World, p: Place, now: int, jitter: Jitter, q: Place)
    requires ToBeProbed(w, q)
    ensures Quiet(w, ReturnToInitial(w, p, now, jitter), q)
  {
    SameIsQuiet(w, w, q);
    hide Quiet, Launch;
    if p in w.announcers && p.entry in w.entries {
      LaunchQuiet(w, p, now, jitter, q);
    }
  }

  lemma UpdatedFlags(w: World, e: nat, flags: Flags, differs: bool, now: int, jitter: Jitter)
    requires e in w.entries
    ensures UpdateEntry(w, e, flags, differs, now, jitter).entries == Reflagged(w, e, flags).entries
  {
    ReannouncedEntries(Reflagged(w, e, flags), e, w.interfaces, now, jitter);
    hide ReannounceOn;
  }

  lemma {:induction false} ReannouncedEntries(w: World, e: nat, ifaces: seq<Interface>, now: int, jitter: Jitter)
    ensures ReannounceOn(w, e, ifaces, now, jitter).entries == w.entries
    decreases |ifaces|
  {
    if ifaces != [] {
      ReannouncedEntries(w, e, ifaces[..|ifaces| - 1], now, jitter);
    }
  }

  /** Every event but the posting of a probe is quiet. */
  lemma EventQuiet(w: World, ev: Event, now: int, jitter: Jitter, q: Place)
    requires Inv(w) && Enabled(w, ev, now) && !PostsFor(w, ev, q)
    requires ToBeProbed(w, q) && ToBeProbed(Apply(w, ev, now, jitter), q)
    ensures Quiet(w, Apply(w, ev, now, jitter), q)
  {
    hide Inv, Quiet, AddEntry, CommitGroup, RegisterElapsed, NextState, Withdraw, InterfaceUp, Addable;
    hide Committable, RegisterDue, LiveOnly, Launch, UpdateEntry, ToBeProbed, PostsFor, ReturnToInitial;
    match ev
    case GroupAdded(g) => SameIsQuiet(w, NewGroup(w, g), q);
    case EntryAdded(e, entry) => AddQuiet(w, e, entry, now, jitter, q);
    case EntryUpdated(e, flags, differs) =>
      UpdatedFlags(w, e, flags, differs, now, jitter);
      SameNeeds(UpdateEntry(w, e, flags, differs, now, jitter), Reflagged(w, e, flags), q);
      UpdateQuiet(w, e, flags, differs, now, jitter, q);
    case GroupCommitted(g) => CommittableGroup(w, g); CommitQuiet(w, g, now, jitter, q);
    case HoldoffElapsed(g) => DueGroup(w, g, now); CommitQuiet(w, g, now, jitter, q);
    case TimerElapsed(p) => TimerQuiet(w, p, now, jitter, q);
    case GroupReset(g) => SameIsQuiet(w, ResetGroup(w, g, Uncommitted, now), q);
    case GroupFreed(g) => SameIsQuiet(w, FreeGroup(w, g), q);
    case EntryWithdrawn(e) => WithdrawQuiet(w, e, now, q);
    case Challenged(p) => ChallengeQuiet(w, p, now, jitter, q);
    case InterfaceAdded(i) => UpQuiet(w, i, now, jitter, q);
    case InterfaceRemoved(i) => SameIsQuiet(w, InterfaceDown(w, i), q);
    case DeadCleaned => SameIsQuiet(w, Cleanup(w), q);
  }

  lemma SameNeeds(w: World, v: World, q: Place)
    requires w.entries == v.entries && ToBeProbed(w, q)
    ensures ToBeProbed(v, q)
  {
  }

  // ---------- Steps ----------

  /** What a host keeps at a place where it probes before it claims. */
  predicate Sound(w: World, p: Place) {
    && Inv(w) && ToBeProbed(w, p)
    && (p in w.announcers && w.announcers[p].phase != Probing ==> w.announcers[p].probes != [])
  }

  /** The view before and after a step, with and without a probe: a claim takes three probes. */
  predicate Moves(a: View, b: View, posts: bool, now: int) {
    if posts then a.Trying? && |a.probes| < 3 && b == Trying(a.probes + [now])
    else b == Idle || b == Trying([]) || b == a || (b == Claimed && a.Trying? && |a.probes| == 3)
  }

  lemma PostedView(w: World, q: Place, now: int, jitter: Jitter)
    requires Inv(w) && PostsFor(w, TimerElapsed(q), q)
    ensures var v := NextState(w, q, now, jitter);
            Moves(ViewOf(w, q), ViewOf(v, q), true, now) && q in v.announcers && v.announcers[q].phase == Probing
  {
    assert AnnouncerOK(w, q, w.announcers[q]);
  }

  /** Every step of a host moves its view of the record on, and leaves it sound. */
  lemma StepMoves(w: World, s: Step, q: Place)
    requires Sound(w, q) && CanTake(w, s) && ToBeProbed(Take(w, s), q)
    ensures Sound(Take(w, s), q)
    ensures Moves(ViewOf(w, q), ViewOf(Take(w, s), q), PostsFor(w, s.event, q), s.now)
  {
    hide CourseOK, Matches, GroupsOK, EntriesOK;
    var u, v := Later(w, s.now), Take(w, s);
    TakeKeeps(w, s);
    LaterKeeps(w, s.now);
    if PostsFor(w, s.event, q) {
      PostedView(u, q, s.now, s.jitter);
    } else {
      hide Apply;
      EventQuiet(u, s.event, s.now, s.jitter, q);
      if q in w.announcers {
        assert AnnouncerOK(w, q, w.announcers[q]);
      }
    }
  }

  /** The probes of a sound view: at most three, a quarter of a second apart. */
  lemma SoundView(w: World, q: Place)
    requires Sound(w, q) && ViewOf(w, q).Trying?
    ensures var probes := ViewOf(w, q).probes; |probes| <= 3 && Gaps(probes)
  {
    assert AnnouncerOK(w, q, w.announcers[q]);
  }
}
