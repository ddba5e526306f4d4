/** avahi-core/announce.c, avahi-core/entry.c and withdraw_entry of avahi-core/server.c: what a server knows
    about its entries, its entry groups and the announcers that probe for and announce each entry on each
    interface. Times are in microseconds. */
module Announce {
  import opened Bytes

  const JITTER := 250_000 // of the first probe and of announcements
  const PROBE_INTERVAL := 250_000
  const SECOND := 1_000_000
  const HOLDOFF := 1_000_000
  const HOLDOFF_RATE_LIMIT := 20_000_000
  const RATE_LIMIT_COUNT := 15

  datatype Flags = Flags(unique: bool, noProbe: bool, noAnnounce: bool)

  datatype Interface = Interface(index: nat, protocol: nat)

  /** An entry; None stands for the unspecified interface or protocol. */
  datatype Entry = Entry(group: Option<nat>, index: Option<nat>, protocol: Option<nat>, flags: Flags, dead: bool)

  datatype GroupState = Uncommitted | Registering | Established | Collision

  /** One call of entry_group_commit_real: when, and the count of tries at the request that led to it. */
  datatype Commit = Commit(time: int, tries: nat)

  /** Orphans counts the announcers that were probing when their interface was removed, since the last reset. */
  datatype Group = Group(
    state: GroupState, dead: bool, nProbing: int, orphans: nat, nRegisterTry: nat,
    registerTime: int, registerTimer: Option<int>, establishedAt: int, commits: seq<Commit>)

  datatype Phase = Probing | Waiting | Announcing | Settled

  /** How an announcer comes to announce: not at all, as NO_ANNOUNCE asks for; with its first announcement at once or
      counted from its start; or released from waiting with a delay. */
  datatype Course = Silent | Prompt | Delayed

  /** The state of one entry on one interface. Probes are the times of the probes posted since it last started probing,
      unless it gave up probing since; said are the times of the announcements since it last started at all. */
  datatype Announcer = Announcer(
    phase: Phase, nIteration: nat, secDelay: nat, timer: Option<int>, probes: seq<int>, said: seq<int>, course: Course)

  datatype Place = Place(entry: nat, iface: Interface)

  datatype World = World(
    entries: map<nat, Entry>, entryList: seq<nat>, groups: map<nat, Group>, announcers: map<Place, Announcer>,
    interfaces: seq<Interface>, announcing: set<Interface>, clock: int)

  type Jitter = j: Place -> nat | forall p :: j(p) <= JITTER witness p => 0

  // ---------- Groups ----------

  function Holdoff(tries: nat): int {
    if tries >= RATE_LIMIT_COUNT then HOLDOFF_RATE_LIMIT else HOLDOFF
  }

  /** avahi_s_entry_group_change_state. */
  function ChangeState(g: Group, state: GroupState, now: int): Group {
    if g.state == state then g else
    g.(nRegisterTry := if g.state == Established && now - g.establishedAt > 5 * SECOND then 0 else g.nRegisterTry,
       registerTimer := if g.state == Registering then None else g.registerTimer,
       establishedAt := if state == Established then now else g.establishedAt,
       state := state)
  }

  predicate Spaced(commits: seq<Commit>) {
    forall i {:trigger commits[i]} :: 0 < i < |commits| ==>
      commits[i].time - commits[i - 1].time >= Holdoff(commits[i].tries)
  }

  /** Real commits keep their distance, and a pending register timer waits in REGISTERING for the hold-off to pass. */
  predicate HeldOff(g: Group) {
    && Spaced(g.commits)
    && (g.commits != [] ==> g.commits[|g.commits| - 1].time <= g.registerTime)
    && (g.registerTimer.Some? ==>
          && g.state == Registering && !g.dead && g.registerTimer.value == g.registerTime
          && (g.commits != [] ==> g.registerTime >= g.commits[|g.commits| - 1].time + Holdoff(g.nRegisterTry)))
  }

  // ---------- Announcers ----------

  function GroupOf(w: World, e: nat): Option<nat> {
    if e in w.entries then w.entries[e].group else None
  }

  predicate Committed(w: World, e: nat) {
    var g := GroupOf(w, e);
    g.Some? ==>
      g.value in w.groups && (w.groups[g.value].state == Registering || w.groups[g.value].state == Established)
  }

  predicate Probes(f: Flags) {
    f.unique && !f.noProbe
  }

  predicate Matches(i: Interface, e: Entry) {
    (e.index == None || e.index == Some(i.index)) && (e.protocol == None || e.protocol == Some(i.protocol))
  }

  /** avahi_entry_is_registered. */
  predicate IsRegistered(w: World, p: Place) {
    && p in w.announcers && p.entry in w.entries
    && (w.announcers[p].phase == Announcing || w.announcers[p].phase == Settled
        || (w.announcers[p].phase == Waiting && !w.entries[p.entry].flags.unique))
  }

  /** avahi_entry_is_probing. */
  predicate IsProbing(w: World, p: Place) {
    && p in w.announcers && p.entry in w.entries
    && (w.announcers[p].phase == Probing || (w.announcers[p].phase == Waiting && w.entries[p.entry].flags.unique))
  }

  predicate In(entries: map<nat, Entry>, p: Place, g: nat) {
    p.entry in entries && entries[p.entry].group == Some(g)
  }

  /** The places of group g where probing is under way. */
  function ProbingOf(entries: map<nat, Entry>, announcers: map<Place, Announcer>, g: nat): set<Place> {
    set p | p in announcers && announcers[p].phase == Probing && In(entries, p, g)
  }

  function One(b: bool): int {
    if b then 1 else 0
  }

  /** Gives place p the announcer a, and keeps the count of probing announcers in its group. */
  function Put(w: World, p: Place, a: Announcer): World {
    var delta := One(a.phase == Probing) - One(p in w.announcers && w.announcers[p].phase == Probing);
    var g := GroupOf(w, p.entry);
    w.(announcers := w.announcers[p := a],
       groups := if g.Some? && g.value in w.groups
                 then w.groups[g.value := w.groups[g.value].(nProbing := w.groups[g.value].nProbing + delta)]
                 else w.groups)
  }

  // ---------- The invariant ----------

  predicate Gaps(probes: seq<int>) {
    forall i {:trigger probes[i]} :: 0 < i < |probes| ==> probes[i] - probes[i - 1] >= PROBE_INTERVAL
  }

  /** Three probes a quarter of a second apart, the last of them a quarter of a second ago. */
  predicate Probed(a: Announcer, clock: int) {
    |a.probes| == 3 && Gaps(a.probes) && clock >= a.probes[2] + PROBE_INTERVAL
  }

  /** How many announcements there are in the end. */
  function InAll(course: Course): nat {
    match course case Silent => 0 case Prompt => 3 case Delayed => 4
  }

  function Doubled(n: nat): nat {
    match n case 0 => 1 case 1 => 2 case 2 => 4 case _ => 8
  }

  /** Announcements are 1, 2 and 4 seconds apart, each at most a quarter of a second late. */
  predicate Doubling(said: seq<int>) {
    forall i {:trigger said[i]} :: 0 < i < |said| ==> said[i] - said[i - 1] >= Doubled(i - 1) * SECOND
  }

  /** Where an announcer stands with its announcements. */
  predicate CourseOK(a: Announcer) {
    && (a.phase == Probing || a.phase == Waiting ==> a.said == [] && a.secDelay == 1 && a.course == Prompt)
    && (a.phase == Announcing ==>
          && a.course != Silent && |a.said| < InAll(a.course) && a.secDelay == Doubled(|a.said|)
          && a.nIteration == |a.said| + (if a.course == Prompt then 1 else 0)
          && (a.said != [] ==>
                var d := a.said[|a.said| - 1] + Doubled(|a.said| - 1) * SECOND;
                a.timer.Some? && d <= a.timer.value <= d + JITTER))
    && (a.phase == Settled ==> |a.said| == InAll(a.course))
    && Doubling(a.said)
  }

  predicate PhaseOK(a: Announcer, clock: int) {
    && CourseOK(a)
    && (a.phase == Probing ==>
          && 1 <= a.nIteration <= 4 && |a.probes| == a.nIteration - 1 && Gaps(a.probes) && a.timer.Some?
          && (a.probes != [] ==> a.timer.value == a.probes[|a.probes| - 1] + PROBE_INTERVAL))
    && (a.phase != Probing ==> a.probes == [] || Probed(a, clock))
    && (a.timer.Some? <==> a.phase == Probing || a.phase == Announcing)
  }

  /** Announcers belong to live entries of committed groups and to relevant interfaces, and wait only while
      their group is being registered. */
  predicate AnnouncerOK(w: World, p: Place, a: Announcer) {
    && p.entry in w.entries && !w.entries[p.entry].dead && Committed(w, p.entry)
    && (GroupOf(w, p.entry).Some? ==> !w.groups[GroupOf(w, p.entry).value].dead)
    && p.iface in w.announcing && Matches(p.iface, w.entries[p.entry])
    && (a.phase == Waiting ==> GroupOf(w, p.entry).Some? && w.groups[GroupOf(w, p.entry).value].state == Registering)
    && PhaseOK(a, w.clock)
  }

  predicate AnnouncersOK(w: World) {
    forall p {:trigger w.announcers[p]} :: p in w.announcers ==> AnnouncerOK(w, p, w.announcers[p])
  }

  /** The count of a live group is that of its probing announcers and of those lost with their interface. */
  predicate CountOK(w: World, g: nat)
    requires g in w.groups
  {
    !w.groups[g].dead ==> w.groups[g].nProbing == |ProbingOf(w.entries, w.announcers, g)| + w.groups[g].orphans
  }

  predicate GroupsOK(w: World) {
    forall g {:trigger w.groups[g]} :: g in w.groups ==> CountOK(w, g) && HeldOff(w.groups[g])
  }

  /** Entries are listed, and groups of entries exist; a dead group has dead entries only. */
  predicate EntryOK(w: World, e: nat)
    requires e in w.entries
  {
    && e in w.entryList
    && (w.entries[e].group.Some? ==>
          w.entries[e].group.value in w.groups && (w.groups[w.entries[e].group.value].dead ==> w.entries[e].dead))
  }

  predicate EntriesOK(w: World) {
    forall e {:trigger w.entries[e]} :: e in w.entries ==> EntryOK(w, e)
  }

  /** The relevant interfaces are known. */
  predicate InterfacesOK(w: World) {
    forall i {:trigger i in w.announcing} :: i in w.announcing ==> i in w.interfaces
  }

  predicate Inv(w: World) {
    AnnouncersOK(w) && GroupsOK(w) && EntriesOK(w) && InterfacesOK(w)
  }

  // ---------- One announcer changes ----------

  lemma ProbingSets(entries: map<nat, Entry>, announcers: map<Place, Announcer>, p: Place, a: Announcer, g: nat)
    ensures var s, t := ProbingOf(entries, announcers, g), ProbingOf(entries, announcers[p := a], g);
            && t == (if In(entries, p, g) && a.phase == Probing then s + {p} else s - {p})
            && (p in s <==> p in announcers && announcers[p].phase == Probing && In(entries, p, g))
  {
    hide In;
    var s, t := ProbingOf(entries, announcers, g), ProbingOf(entries, announcers[p := a], g);
    forall q ensures q in t <==> if q == p then In(entries, p, g) && a.phase == Probing else q in s {
    }
  }

  lemma ProbingAfterPut(entries: map<nat, Entry>, announcers: map<Place, Announcer>, p: Place, a: Announcer, g: nat)
    ensures var before := One(p in announcers && announcers[p].phase == Probing);
            |ProbingOf(entries, announcers[p := a], g)| ==
            |ProbingOf(entries, announcers, g)| + if In(entries, p, g) then One(a.phase == Probing) - before else 0
  {
    hide In, ProbingOf;
    ProbingSets(entries, announcers, p, a, g);
  }

  lemma PutKeepsGroups(w: World, p: Place, a: Announcer)
    requires GroupsOK(w)
    ensures GroupsOK(Put(w, p, a))
  {
    hide ProbingOf, HeldOff;
    var w' := Put(w, p, a);
    forall g {:trigger w'.groups[g]} | g in w'.groups ensures CountOK(w', g) && HeldOff(w'.groups[g]) {
      assert CountOK(w, g) && HeldOff(w.groups[g]);
      ProbingAfterPut(w.entries, w.announcers, p, a, g);
      SameHoldOff(w.groups[g], w'.groups[g].nProbing);
    }
  }

  lemma SameHoldOff(g: Group, n: int)
    ensures HeldOff(g) <==> HeldOff(g.(nProbing := n))
  {
  }

  /** Every group is still there, in its old state. */
  predicate SameStates(w: World, w': World) {
    forall g {:trigger w.groups[g]} :: g in w.groups ==>
      && g in w'.groups && w'.groups[g].state == w.groups[g].state && w'.groups[g].dead == w.groups[g].dead
      && w'.groups[g].orphans >= w.groups[g].orphans
  }

  lemma StillOK(w: World, w': World, p: Place, a: Announcer)
    requires AnnouncerOK(w, p, a) && SameStates(w, w')
    requires w'.entries == w.entries && w'.announcing == w.announcing && w'.clock == w.clock
    ensures AnnouncerOK(w', p, a)
  {
    hide PhaseOK, Matches;
    var g := GroupOf(w, p.entry);
    assert g.Some? ==> w'.groups[g.value].state == w.groups[g.value].state;
  }

  lemma StillEntries(w: World, w': World)
    requires EntriesOK(w) && SameStates(w, w') && w'.entries == w.entries && w'.entryList == w.entryList
    ensures EntriesOK(w')
  {
  }

  lemma PutSameStates(w: World, p: Place, a: Announcer)
    ensures SameStates(w, Put(w, p, a))
  {
  }

  lemma PutKeeps(w: World, p: Place, a: Announcer)
    requires Inv(w) && AnnouncerOK(w, p, a)
    ensures Inv(Put(w, p, a))
  {
    var w' := Put(w, p, a);
    PutKeepsGroups(w, p, a);
    PutSameStates(w, p, a);
    StillEntries(w, w');
    hide GroupsOK, AnnouncerOK, EntriesOK, SameStates;
    forall q {:trigger w'.announcers[q]} | q in w'.announcers ensures AnnouncerOK(w', q, w'.announcers[q]) {
      StillOK(w, w', q, if q == p then a else w.announcers[q]);
    }
  }

  // ---------- The clock ----------

  function Later(w: World, now: int): World {
    w.(clock := now)
  }

  lemma LaterKeeps(w: World, now: int)
    requires Inv(w) && w.clock <= now
    ensures Inv(Later(w, now))
  {
    hide CourseOK, Matches, HeldOff, ProbingOf;
    var w' := Later(w, now);
    assert GroupsOK(w') by {
      forall g {:trigger w'.groups[g]} | g in w'.groups ensures CountOK(w', g) && HeldOff(w'.groups[g]) {
        assert CountOK(w, g) && HeldOff(w.groups[g]);
      }
    }
    hide GroupsOK;
    forall p {:trigger w'.announcers[p]} | p in w'.announcers ensures AnnouncerOK(w', p, w'.announcers[p]) {
      assert AnnouncerOK(w, p, w.announcers[p]);
    }
  }

  // ---------- Starting an announcer ----------

  /** The common end of go_to_initial_state and reannounce. */
  function Restarted(probes: seq<int>, phase: Phase, now: int, jitter: nat): Announcer {
    Announcer(phase, 1, 1, if phase == Probing || phase == Announcing then Some(now + jitter) else None,
              if phase == Probing then [] else probes, [], if phase == Settled then Silent else Prompt)
  }

  lemma RestartedCourse(probes: seq<int>, phase: Phase, now: int, jitter: nat)
    ensures CourseOK(Restarted(probes, phase, now, jitter))
  {
  }

  /** The probes that still count when an announcer starts again. */
  function Finished(w: World, p: Place): seq<int> {
    if p in w.announcers && w.announcers[p].phase != Probing then w.announcers[p].probes else []
  }

  function InitialPhase(w: World, e: nat): Phase
    requires e in w.entries
  {
    var f, g := w.entries[e].flags, w.entries[e].group;
    if Probes(f) then Probing
    else if f.noAnnounce then Settled
    else if g.None? || (g.value in w.groups && w.groups[g.value].state == Established) then Announcing
    else Waiting
  }

  /** go_to_initial_state. */
  function Launch(w: World, p: Place, now: int, jitter: Jitter): World
    requires p.entry in w.entries
  {
    Put(w, p, Restarted(Finished(w, p), InitialPhase(w, p.entry), now, jitter(p)))
  }

  /** What new_announcer asks of a place. */
  predicate Wanted(w: World, p: Place) {
    && p.entry in w.entries && Matches(p.iface, w.entries[p.entry]) && p.iface in w.announcing
    && Committed(w, p.entry) && p !in w.announcers
  }

  function NewAnnouncer(w: World, p: Place, now: int, jitter: Jitter): World {
    if Wanted(w, p) then Launch(w, p, now, jitter) else w
  }

  predicate Live(w: World, e: nat) {
    e in w.entries && !w.entries[e].dead
  }

  lemma LaunchKeeps(w: World, p: Place, now: int, jitter: Jitter)
    requires Inv(w) && Live(w, p.entry) && Matches(p.iface, w.entries[p.entry]) && Committed(w, p.entry)
    requires p.iface in w.announcing
    ensures Inv(Launch(w, p, now, jitter))
  {
    hide GroupsOK, CourseOK, Matches;
    assert p in w.announcers ==> AnnouncerOK(w, p, w.announcers[p]);
    hide AnnouncersOK;
    RestartedCourse(Finished(w, p), InitialPhase(w, p.entry), now, jitter(p));
    PutKeeps(w, p, Restarted(Finished(w, p), InitialPhase(w, p.entry), now, jitter(p)));
  }

  /** avahi_announce_entry: on every interface in turn. */
  function AnnounceOn(w: World, e: nat, ifaces: seq<Interface>, now: int, jitter: Jitter): World {
    if ifaces == [] then w else
    NewAnnouncer(AnnounceOn(w, e, ifaces[..|ifaces| - 1], now, jitter), Place(e, ifaces[|ifaces| - 1]), now, jitter)
  }

  /** What starting announcers leaves as it is. */
  predicate SameSetting(w: World, w': World) {
    && w'.entries == w.entries && w'.entryList == w.entryList && w'.interfaces == w.interfaces
    && w'.announcing == w.announcing && w'.clock == w.clock
    && w'.groups.Keys == w.groups.Keys && SameStates(w, w')
  }

  lemma NewAnnouncerKeeps(w: World, p: Place, now: int, jitter: Jitter)
    requires Inv(w) && Live(w, p.entry)
    ensures Inv(NewAnnouncer(w, p, now, jitter)) && SameSetting(w, NewAnnouncer(w, p, now, jitter))
  {
    hide Inv;
    if Wanted(w, p) {
      LaunchKeeps(w, p, now, jitter);
    }
  }

  lemma {:induction false} AnnounceOnKeeps(w: World, e: nat, ifaces: seq<Interface>, now: int, jitter: Jitter)
    requires Inv(w) && Live(w, e)
    ensures Inv(AnnounceOn(w, e, ifaces, now, jitter)) && SameSetting(w, AnnounceOn(w, e, ifaces, now, jitter))
    decreases |ifaces|
  {
    hide Inv, NewAnnouncer;
    if ifaces != [] {
      AnnounceOnKeeps(w, e, ifaces[..|ifaces| - 1], now, jitter);
      var v := AnnounceOn(w, e, ifaces[..|ifaces| - 1], now, jitter);
      NewAnnouncerKeeps(v, Place(e, ifaces[|ifaces| - 1]), now, jitter);
    }
  }

  /** avahi_announce_group: the live entries of the group in turn. */
  function AnnounceGroup(w: World, es: seq<nat>, g: nat, now: int, jitter: Jitter): World {
    if es == [] then w else
    var v, e := AnnounceGroup(w, es[..|es| - 1], g, now, jitter), es[|es| - 1];
    if Live(v, e) && v.entries[e].group == Some(g) then AnnounceOn(v, e, v.interfaces, now, jitter) else v
  }

  lemma {:induction false} AnnounceGroupKeeps(w: World, es: seq<nat>, g: nat, now: int, jitter: Jitter)
    requires Inv(w)
    ensures Inv(AnnounceGroup(w, es, g, now, jitter)) && SameSetting(w, AnnounceGroup(w, es, g, now, jitter))
    decreases |es|
  {
    hide Inv;
    if es != [] {
      var v, e := AnnounceGroup(w, es[..|es| - 1], g, now, jitter), es[|es| - 1];
      AnnounceGroupKeeps(w, es[..|es| - 1], g, now, jitter);
      if Live(v, e) {
        AnnounceOnKeeps(v, e, v.interfaces, now, jitter);
      }
    }
  }

  /** avahi_announce_interface: every live entry in turn. */
  function AnnounceInterface(w: World, es: seq<nat>, i: Interface, now: int, jitter: Jitter): World {
    if es == [] then w else
    var v, e := AnnounceInterface(w, es[..|es| - 1], i, now, jitter), es[|es| - 1];
    if Live(v, e) then NewAnnouncer(v, Place(e, i), now, jitter) else v
  }

  lemma {:induction false} AnnounceInterfaceKeeps(w: World, es: seq<nat>, i: Interface, now: int, jitter: Jitter)
    requires Inv(w)
    ensures Inv(AnnounceInterface(w, es, i, now, jitter)) && SameSetting(w, AnnounceInterface(w, es, i, now, jitter))
    decreases |es|
  {
    hide Inv, NewAnnouncer;
    if es != [] {
      var v, e := AnnounceInterface(w, es[..|es| - 1], i, now, jitter), es[|es| - 1];
      AnnounceInterfaceKeeps(w, es[..|es| - 1], i, now, jitter);
      if Live(v, e) {
        NewAnnouncerKeeps(v, Place(e, i), now, jitter);
      }
    }
  }

  // ---------- Announcing again ----------

  function ReannouncedPhase(phase: Phase, f: Flags): Phase {
    if phase == Probing || (phase == Waiting && Probes(f)) then Probing
    else if phase == Waiting then Waiting
    else if f.noAnnounce then Settled else Announcing
  }

  /** reannounce, for a place that has an announcer. */
  function Reannounce(w: World, p: Place, now: int, jitter: Jitter): World {
    if p !in w.announcers || p.entry !in w.entries || !Committed(w, p.entry) then w else
    var a := w.announcers[p];
    Put(w, p, Restarted(Finished(w, p), ReannouncedPhase(a.phase, w.entries[p.entry].flags), now, jitter(p)))
  }

  lemma ReannounceKeeps(w: World, p: Place, now: int, jitter: Jitter)
    requires Inv(w)
    ensures Inv(Reannounce(w, p, now, jitter)) && SameSetting(w, Reannounce(w, p, now, jitter))
  {
    hide GroupsOK, EntriesOK, CourseOK, Matches;
    if p in w.announcers && p.entry in w.entries && Committed(w, p.entry) {
      var a := w.announcers[p];
      assert AnnouncerOK(w, p, a);
      hide AnnouncersOK;
      var phase := ReannouncedPhase(a.phase, w.entries[p.entry].flags);
      var b := Restarted(Finished(w, p), phase, now, jitter(p));
      RestartedCourse(Finished(w, p), phase, now, jitter(p));
      PutSameStates(w, p, b);
      PutKeeps(w, p, b);
    }
  }

  /** avahi_reannounce_entry. */
  function ReannounceOn(w: World, e: nat, ifaces: seq<Interface>, now: int, jitter: Jitter): World {
    if ifaces == [] then w else
    Reannounce(ReannounceOn(w, e, ifaces[..|ifaces| - 1], now, jitter), Place(e, ifaces[|ifaces| - 1]), now, jitter)
  }

  lemma {:induction false} ReannounceOnKeeps(w: World, e: nat, ifaces: seq<Interface>, now: int, jitter: Jitter)
    requires Inv(w)
    ensures Inv(ReannounceOn(w, e, ifaces, now, jitter)) && SameSetting(w, ReannounceOn(w, e, ifaces, now, jitter))
    decreases |ifaces|
  {
    hide Inv, Reannounce;
    if ifaces != [] {
      ReannounceOnKeeps(w, e, ifaces[..|ifaces| - 1], now, jitter);
      var v := ReannounceOn(w, e, ifaces[..|ifaces| - 1], now, jitter);
      ReannounceKeeps(v, Place(e, ifaces[|ifaces| - 1]), now, jitter);
    }
  }

  /** avahi_entry_return_to_initial_state. */
  function ReturnToInitial(w: World, p: Place, now: int, jitter: Jitter): World {
    if p in w.announcers && p.entry in w.entries then Launch(w, p, now, jitter) else w
  }

  lemma ReturnToInitialKeeps(w: World, p: Place, now: int, jitter: Jitter)
    requires Inv(w)
    ensures Inv(ReturnToInitial(w, p, now, jitter))
  {
    hide GroupsOK;
    if p in w.announcers && p.entry in w.entries {
      assert AnnouncerOK(w, p, w.announcers[p]);
      LaunchKeeps(w, p, now, jitter);
    }
  }

  // ---------- The group is probed ----------

  /** The ANNOUNCING branch of next_state. */
  function Announced(a: Announcer, now: int, jitter: nat): Announcer {
    var a := a.(said := a.said + [now]);
    if a.nIteration + 1 >= 4 then a.(nIteration := a.nIteration + 1, phase := Settled, timer := None)
    else a.(nIteration := a.nIteration + 1, timer := Some(now + a.secDelay * SECOND + jitter),
            secDelay := a.secDelay * 2)
  }

  /** One announcement more. */
  lemma AnnouncedCourse(a: Announcer, now: int, jitter: nat)
    requires CourseOK(a) && a.phase == Announcing && (a.timer.Some? ==> a.timer.value <= now) && jitter <= JITTER
    ensures CourseOK(Announced(a, now, jitter))
    ensures Announced(a, now, jitter).said == a.said + [now]
  {
  }

  /** A waiting announcer whose group has been probed. */
  function Released(a: Announcer, immediately: bool, now: int, jitter: nat): Announcer {
    if immediately then Announced(a.(phase := Announcing, nIteration := 1), now, jitter)
    else a.(phase := Announcing, nIteration := 0, timer := Some(now + jitter), course := Delayed)
  }

  lemma ReleasedCourse(a: Announcer, immediately: bool, now: int, jitter: nat)
    requires CourseOK(a) && a.phase == Waiting && jitter <= JITTER
    ensures CourseOK(Released(a, immediately, now, jitter))
  {
    var b := a.(phase := Announcing, nIteration := 1, timer := None);
    if immediately {
      assert CourseOK(b);
      AnnouncedCourse(b, now, jitter);
      assert Announced(a.(phase := Announcing, nIteration := 1), now, jitter) == Announced(b, now, jitter);
    }
  }

  predicate WaitsFor(w: World, p: Place, g: nat) {
    p in w.announcers && w.announcers[p].phase == Waiting && In(w.entries, p, g)
  }

  /** The waiting announcers of the group start announcing. */
  function ReleaseAll(w: World, g: nat, immediately: bool, now: int, jitter: Jitter): map<Place, Announcer> {
    map p | p in w.announcers ::
      if WaitsFor(w, p, g) then Released(w.announcers[p], immediately, now, jitter(p)) else w.announcers[p]
  }

  /** avahi_s_entry_group_check_probed. */
  function CheckProbed(w: World, g: nat, immediately: bool, now: int, jitter: Jitter): World
    requires g in w.groups
  {
    if w.groups[g].state != Registering || w.groups[g].nProbing > 0 then w else
    w.(groups := w.groups[g := ChangeState(w.groups[g], Established, now)],
       announcers := ReleaseAll(w, g, immediately, now, jitter))
  }

  lemma ReleasedOK(w: World, g: nat, immediately: bool, now: int, jitter: Jitter, p: Place)
    requires p in w.announcers && AnnouncerOK(w, p, w.announcers[p]) && g in w.groups
             && w.groups[g].state == Registering
    ensures var w' := w.(groups := w.groups[g := ChangeState(w.groups[g], Established, now)]);
            AnnouncerOK(w', p, ReleaseAll(w, g, immediately, now, jitter)[p])
  {
    hide CourseOK, Matches;
    if WaitsFor(w, p, g) {
      ReleasedCourse(w.announcers[p], immediately, now, jitter(p));
    }
  }

  lemma ReleaseProbing(w: World, g: nat, immediately: bool, now: int, jitter: Jitter, h: nat)
    ensures ProbingOf(w.entries, ReleaseAll(w, g, immediately, now, jitter), h) == ProbingOf(w.entries, w.announcers, h)
  {
  }

  lemma CheckProbedCounts(w: World, g: nat, immediately: bool, now: int, jitter: Jitter)
    requires GroupsOK(w) && g in w.groups && w.groups[g].state == Registering && w.groups[g].nProbing <= 0
    ensures GroupsOK(CheckProbed(w, g, immediately, now, jitter))
  {
    hide ProbingOf, ReleaseAll, HeldOff;
    var w' := CheckProbed(w, g, immediately, now, jitter);
    forall h {:trigger w'.groups[h]} | h in w'.groups ensures CountOK(w', h) && HeldOff(w'.groups[h]) {
      assert CountOK(w, h) && HeldOff(w.groups[h]);
      ReleaseProbing(w, g, immediately, now, jitter, h);
      EstablishedHeldOff(w.groups[h], now);
    }
  }

  lemma EstablishedHeldOff(g: Group, now: int)
    requires HeldOff(g)
    ensures g.state == Registering ==> HeldOff(ChangeState(g, Established, now))
  {
  }

  lemma CheckProbedKeeps(w: World, g: nat, immediately: bool, now: int, jitter: Jitter)
    requires Inv(w) && g in w.groups
    ensures Inv(CheckProbed(w, g, immediately, now, jitter))
  {
    var w' := CheckProbed(w, g, immediately, now, jitter);
    if w.groups[g].state == Registering && w.groups[g].nProbing <= 0 {
      CheckProbedCounts(w, g, immediately, now, jitter);
      hide GroupsOK, AnnouncerOK, ReleaseAll;
      var v := w.(groups := w'.groups);
      assert EntriesOK(w') by { hide AnnouncersOK; }
      hide EntriesOK, ChangeState;
      assert SameStates(v, w');
      hide SameStates;
      forall p {:trigger w'.announcers[p]} | p in w'.announcers ensures AnnouncerOK(w', p, w'.announcers[p]) {
        ReleaseKeys(w, g, immediately, now, jitter);
        ReleasedOK(w, g, immediately, now, jitter, p);
        StillOK(v, w', p, w'.announcers[p]);
      }
    }
  }

  lemma ReleaseKeys(w: World, g: nat, immediately: bool, now: int, jitter: Jitter)
    ensures ReleaseAll(w, g, immediately, now, jitter).Keys == w.announcers.Keys
  {
  }

  // ---------- The timer of an announcer ----------

  function Rank(phase: Phase): nat {
    match phase case Probing => 2 case Waiting => 1 case _ => 0
  }

  /** The end of probing: the announcer waits for its group while that is being registered. */
  function ProbingDone(w: World, p: Place): Announcer
    requires p in w.announcers
  {
    var a, g := w.announcers[p], GroupOf(w, p.entry);
    if g.Some? && g.value in w.groups && w.groups[g.value].state == Registering then a.(phase := Waiting, timer := None)
    else a.(phase := Announcing, nIteration := 1, timer := None)
  }

  /** A probe is posted now. */
  function ProbePosted(a: Announcer, now: int): Announcer {
    a.(timer := Some(now + PROBE_INTERVAL), nIteration := a.nIteration + 1, probes := a.probes + [now])
  }

  /** next_state. */
  function NextState(w: World, p: Place, now: int, jitter: Jitter): World
    requires p in w.announcers
    decreases Rank(w.announcers[p].phase)
  {
    var a := w.announcers[p];
    match a.phase
    case Waiting =>
      var g := GroupOf(w, p.entry);
      if g.Some? && g.value in w.groups then CheckProbed(w, g.value, true, now, jitter) else w
    case Probing =>
      if a.nIteration >= 4 then NextState(Put(w, p, ProbingDone(w, p)), p, now, jitter)
      else Put(w, p, ProbePosted(a, now))
    case Announcing => Put(w, p, Announced(a, now, jitter(p)))
    case Settled => w
  }

  predicate Due(w: World, p: Place, now: int) {
    p in w.announcers && w.announcers[p].timer.Some? && w.announcers[p].timer.value <= now
  }

  lemma PutTwice(w: World, p: Place, a: Announcer, b: Announcer)
    ensures Put(Put(w, p, a), p, b) == Put(w, p, b)
  {
    assert w.announcers[p := a][p := b] == w.announcers[p := b];
    var g := GroupOf(w, p.entry);
    if g.Some? && g.value in w.groups {
      var l, r := Put(Put(w, p, a), p, b).groups, Put(w, p, b).groups;
      assert l[g.value].nProbing == r[g.value].nProbing;
      assert l == r;
    }
  }

  lemma MoreGaps(probes: seq<int>, now: int)
    requires Gaps(probes) && (probes != [] ==> now >= probes[|probes| - 1] + PROBE_INTERVAL)
    ensures Gaps(probes + [now])
  {
  }

  lemma ProbePostedKeeps(w: World, p: Place, now: int)
    requires Inv(w) && Due(w, p, now) && w.announcers[p].phase == Probing && w.announcers[p].nIteration < 4
    ensures Inv(Put(w, p, ProbePosted(w.announcers[p], now)))
  {
    hide GroupsOK, EntriesOK;
    var a := w.announcers[p];
    assert AnnouncerOK(w, p, a);
    MoreGaps(a.probes, now);
    PutKeeps(w, p, ProbePosted(a, now));
  }

  /** The C code asserts that the group counts a probing announcer when one is done. */
  lemma ProbingIsCounted(w: World, p: Place)
    requires Inv(w) && p in w.announcers && w.announcers[p].phase == Probing && GroupOf(w, p.entry).Some?
    ensures GroupOf(w, p.entry).value in w.groups && w.groups[GroupOf(w, p.entry).value].nProbing > 0
  {
    var g := GroupOf(w, p.entry).value;
    assert AnnouncerOK(w, p, w.announcers[p]);
    assert CountOK(w, g);
    assert p in ProbingOf(w.entries, w.announcers, g);
  }

  lemma DoneIsOK(w: World, p: Place)
    requires AnnouncersOK(w) && Due(w, p, w.clock) && w.announcers[p].phase == Probing
             && w.announcers[p].nIteration >= 4
    ensures CourseOK(ProbingDone(w, p)) && (ProbingDone(w, p).phase == Waiting ==> AnnouncerOK(w, p, ProbingDone(w, p)))
  {
    hide Matches;
    assert AnnouncerOK(w, p, w.announcers[p]);
  }

  lemma ProbingDoneKeeps(w: World, p: Place, jitter: Jitter)
    requires Inv(w) && Due(w, p, w.clock) && w.announcers[p].phase == Probing && w.announcers[p].nIteration >= 4
    ensures Inv(NextState(Put(w, p, ProbingDone(w, p)), p, w.clock, jitter))
  {
    DoneIsOK(w, p);
    hide GroupsOK, EntriesOK, Matches, CourseOK;
    var a, b, now := w.announcers[p], ProbingDone(w, p), w.clock;
    assert AnnouncerOK(w, p, a);
    var v := Put(w, p, b);
    if b.phase == Waiting {
      PutKeeps(w, p, b);
      var g := GroupOf(w, p.entry);
      assert GroupOf(v, p.entry) == g && g.value in v.groups;
      hide AnnouncersOK;
      CheckProbedKeeps(v, g.value, true, now, jitter);
    } else {
      var c := Announced(b, now, jitter(p));
      AnnouncedCourse(b, now, jitter(p));
      PutTwice(w, p, b, c);
      PutKeeps(w, p, c);
    }
  }

  lemma NextStateKeeps(w: World, p: Place, jitter: Jitter)
    requires Inv(w) && Due(w, p, w.clock)
    ensures Inv(NextState(w, p, w.clock, jitter))
  {
    hide GroupsOK, EntriesOK, CourseOK, Matches;
    var a, now := w.announcers[p], w.clock;
    assert AnnouncerOK(w, p, a);
    match a.phase
    case Waiting =>
    case Settled =>
    case Announcing =>
      AnnouncedCourse(a, now, jitter(p));
      hide AnnouncersOK;
      PutKeeps(w, p, Announced(a, now, jitter(p)));
    case Probing =>
      hide AnnouncersOK, AnnouncerOK;
      if a.nIteration >= 4 {
        ProbingDoneKeeps(w, p, jitter);
      } else {
        ProbePostedKeeps(w, p, now);
      }
  }
}
