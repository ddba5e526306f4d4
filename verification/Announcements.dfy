/** How often and when a registered record is announced (section 8.3 of RFC 6762), in whole runs of
    avahi-core/announce.c. */
module Announcements {
  import opened Bytes
  import opened Announce
  import opened EntryGroups
  import opened AnnounceRun

  /** In every run: an announcer says nothing while it probes or waits. One that has settled through announcing has said
      three announcements, or four if it was released with a delay; one that still announces has said fewer, and waits
      for the next. Announcements are one, two and four seconds apart, and each is planned at most a quarter of a second
      after that. */
  lemma AnnouncedInRuns(clock: int, steps: seq<Step>, p: Place)
    requires IsRun(clock, steps) && p in After(clock, steps).announcers
    ensures var a := After(clock, steps).announcers[p];
            var said, all := a.said, if a.course == Delayed then 4 else 3;
            && (a.phase == Probing || a.phase == Waiting ==> said == [])
            && (a.phase == Settled ==> |said| == if a.course == Silent then 0 else all)
            && (a.phase == Announcing ==> a.course != Silent && |said| < all && a.timer.Some?)
            && |said| <= 4
            && (|said| >= 2 ==> said[1] - said[0] >= 1_000_000)
            && (|said| >= 3 ==> said[2] - said[1] >= 2_000_000)
            && (|said| >= 4 ==> said[3] - said[2] >= 4_000_000)
            && (a.phase == Announcing && said != [] ==>
                  var wait := if |said| == 1 then 1_000_000 else if |said| == 2 then 2_000_000 else 4_000_000;
                  var last := said[|said| - 1];
                  last + wait <= a.timer.value <= last + wait + 250_000)
  {
    InvariantOfRuns(clock, steps);
    var w := After(clock, steps);
    hide After, IsRun, GroupsOK, EntriesOK;
    assert AnnouncerOK(w, p, w.announcers[p]);
    hide AnnouncersOK, Matches;
    SaidIs(w.announcers[p].said);
  }

  lemma SaidIs(said: seq<int>)
    requires Doubling(said) && |said| <= 4
    ensures |said| >= 2 ==> said[1] - said[0] >= 1_000_000
    ensures |said| >= 3 ==> said[2] - said[1] >= 2_000_000
    ensures |said| >= 4 ==> said[3] - said[2] >= 4_000_000
  {
  }

  /** When the timer of an announcing announcer elapses, that is one announcement, and nothing else changes. */
  lemma TimerSays(w: World, s: Step, p: Place)
    requires CanTake(w, s) && s.event == TimerElapsed(p) && w.announcers[p].phase == Announcing
    ensures var v := Take(w, s);
            && p in v.announcers && v.announcers[p].said == w.announcers[p].said + [s.now]
            && v.announcers == w.announcers[p := v.announcers[p]] && v.entries == w.entries
            && v.groups.Keys == w.groups.Keys
            && forall g :: g in w.groups ==> v.groups[g] == w.groups[g]
  {
  }

  /** An announcer that waits for its group is released with its first announcement at once when the group was probed,
      and with a delay when it was just committed. */
  lemma ReleaseSays(w: World, p: Place, g: nat, immediately: bool, now: int, jitter: Jitter)
    requires g in w.groups && w.groups[g].state == Registering && w.groups[g].nProbing <= 0 && WaitsFor(w, p, g)
    requires w.announcers[p].said == []
    ensures var v := CheckProbed(w, g, immediately, now, jitter);
            && p in v.announcers && v.announcers[p].phase == Announcing
            && v.announcers[p].said == (if immediately then [now] else [])
            && (!immediately ==>
                  v.announcers[p].course == Delayed && now <= v.announcers[p].timer.value <= now + 250_000)
            && (immediately ==> v.announcers[p].course == w.announcers[p].course)
  {
  }

  /** In every run, a probing announcer has posted at most three probes, at least a quarter of a second apart, and is
      due exactly a quarter of a second after the last. */
  lemma ProbedInRuns(clock: int, steps: seq<Step>, p: Place)
    requires IsRun(clock, steps) && p in After(clock, steps).announcers
    ensures var a := After(clock, steps).announcers[p];
            && |a.probes| <= 3
            && (forall i {:trigger a.probes[i]} :: 0 < i < |a.probes| ==> a.probes[i] - a.probes[i - 1] >= 250_000)
            && (a.phase == Probing ==> a.timer.Some?)
            && (a.phase == Probing && a.probes != [] ==> a.timer.value == a.probes[|a.probes| - 1] + 250_000)
  {
    InvariantOfRuns(clock, steps);
    var w := After(clock, steps);
    hide After, IsRun, GroupsOK, EntriesOK, CourseOK, Matches;
    assert AnnouncerOK(w, p, w.announcers[p]);
  }

  /** What is started starts within a quarter of a second. */
  lemma StartsSoon(w: World, p: Place, now: int, jitter: Jitter)
    requires p.entry in w.entries
    ensures var v := Launch(w, p, now, jitter);
            && p in v.announcers
            && (v.announcers[p].phase == Probing || v.announcers[p].phase == Announcing ==>
                  v.announcers[p].timer.Some? && now <= v.announcers[p].timer.value <= now + 250_000)
  {
  }
}
