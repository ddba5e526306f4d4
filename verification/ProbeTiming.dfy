/** avahi-core/announce.c on top of avahi-core/probe-sched.c: probes that an announcer posts a quarter of a second apart
    are not kept back by the history of the scheduler. */
module ProbeTiming {
  import opened Bytes
  import opened Scheduler
  import Announce

  /** The probes of w that the history holds were done by that time. */
  predicate DoneBy<I(==), P>(history: seq<Job<I, P>>, w: I, time: int) {
    forall k {:trigger history[k]} :: 0 <= k < |history| && history[k].what == w ==> history[k].delivery <= time
  }

  /** A job for w waits for that time. */
  predicate WaitsFor<I(==), P>(jobs: seq<Job<I, P>>, w: I, time: int) {
    exists k :: 0 <= k < |jobs| && jobs[k].what == w && jobs[k].timer == time
  }

  /** Posting something else leaves it waiting. */
  lemma StillWaits<I, P>(before: seq<Job<I, P>>, after: seq<Job<I, P>>, j: Job<I, P>, w: I, time: int)
    requires WaitsFor(before, w, time) && j.what != w
    requires || after == [j] + before
             || exists k :: 0 <= k < |before| && before[k].what == j.what && after == before[k := j]
    ensures WaitsFor(after, w, time)
  {
    var m :| 0 <= m < |before| && before[m].what == w && before[m].timer == time;
    if after == [j] + before {
      assert after[m + 1] == before[m];
    } else {
      assert after[m] == before[m];
    }
  }

  method PostOther<I(!new, ==)>(s: JobScheduler<I>, w: I, time: int, other: I)
    requires s.Valid() && other != w && WaitsFor(s.jobs, w, time)
    modifies s
    ensures s.Valid() && WaitsFor(s.jobs, w, time) && s.clock == old(s.clock) && s.sent == old(s.sent)
  {
    hide Once, Guarded, Spaced, Waiting, Kept, Past, Whats, WaitsFor, Aged;
    ghost var before := s.jobs;
    var ok := s.Post(other, false);
    if ok {
      if other !in Whats(before) {
        StillWaits(before, s.jobs, s.jobs[0], w, time);
      } else {
        var tv := s.clock + s.defer;
        ghost var k :| 0 <= k < |before| && before[k].what == other && s.jobs == before[k := Reposted(before[k], tv)];
        StillWaits(before, s.jobs, Reposted(before[k], tv), w, time);
      }
    }
  }

  lemma NotRefused<I(!new), P>(history: seq<Job<I, P>>, w: I, time: int, clock: int, window: nat)
    requires DoneBy(history, w, time) && clock - time > window
    ensures !exists k :: 0 <= k < |history| && history[k].what == w && clock - history[k].delivery <= window
  {
  }

  lemma NewWaits<I, P>(j: Job<I, P>, jobs: seq<Job<I, P>>)
    ensures WaitsFor([j] + jobs, j.what, j.timer)
  {
    assert ([j] + jobs)[0] == j;
  }

  lemma {:induction false} IsPicked<I, P>(js: seq<Job<I, P>>, chosen: set<I>, k: nat, time: int)
    requires k < |js| && js[k].what in chosen
    ensures Sending(js[k].what, time) in Sendings(Picked(js, chosen, true), time)
    decreases |js|
  {
    var n := |js| - 1;
    var less, all := Picked(js[..n], chosen, true), Picked(js, chosen, true);
    if k == n {
      assert all[|all| - 1] == js[k];
      assert Sendings(all, time)[|all| - 1] == Sending(js[k].what, time);
    } else {
      assert js[..n][k] == js[k];
      IsPicked(js[..n], chosen, k, time);
      var m :| 0 <= m < |Sendings(less, time)| && Sendings(less, time)[m] == Sending(js[k].what, time);
      assert all[m] == less[m];
      assert Sendings(all, time)[m] == Sending(js[k].what, time);
    }
  }

  lemma {:induction false} NotLeft<I, P>(js: seq<Job<I, P>>, chosen: set<I>, w: I)
    requires w in chosen
    ensures |Picked(js, chosen, true)| <= |js| && forall k :: 0 <= k < |Picked(js, chosen, false)| ==>
              Picked(js, chosen, false)[k].what != w
    decreases |js|
  {
    if js != [] {
      NotLeft(js[..|js| - 1], chosen, w);
    }
  }

  /** The due job is sent, with all others that are chosen. */
  method SendDue<I(!new, ==)>(s: JobScheduler<I>, w: I, time: int, chosen: set<I>)
    requires s.Valid() && WaitsFor(s.jobs, w, time) && time <= s.clock && w in chosen
    modifies s
    ensures s.Valid() && w !in Whats(s.jobs) && s.clock == old(s.clock) && DoneBy(s.history, w, s.clock)
    ensures old(s.sent) <= s.sent && Sending(w, s.clock) in s.sent
  {
    ghost var all := s.jobs;
    ghost var k :| 0 <= k < |all| && all[k].what == w && all[k].timer == time;
    NotLeft(all, chosen, w);
    IsPicked(all, chosen, k, s.clock);
    hide Once, Guarded, Spaced, Waiting, Kept, Whats, Picked, Sendings;
    var m := s.ElapseProbe(k, chosen, |s.jobs| + 1);
    NotLeft(all[..m], chosen, w);
    assert all[..m] == all;
    WhatsIn(s.jobs, w);
  }

  /** One probe is posted, others are posted in the meantime, and the timer of its job is less than 50 ms late. */
  method OneProbe<I(!new, ==)>(s: JobScheduler<I>, w: I, probe: int, late: nat, others: seq<I>, chosen: set<I>)
    returns (ok: bool)
    requires s.Valid() && s.defer == PROBE_DEFER && s.window == PROBE_HISTORY && s.clock <= probe
    requires w !in others && w in chosen && w !in Whats(s.jobs) && DoneBy(s.history, w, probe - PROBE_HISTORY - 1)
    modifies s
    ensures s.Valid() && w !in Whats(s.jobs) && s.clock == probe + PROBE_DEFER + late && DoneBy(s.history, w, s.clock)
    ensures ok && old(s.sent) <= s.sent && Sending(w, s.clock) in s.sent
  {
    hide Once, Guarded, Spaced, Waiting, Kept, Past, Whats, Aged;
    s.Tick(probe);
    NotRefused(s.history, w, probe - PROBE_HISTORY - 1, probe, PROBE_HISTORY);
    ghost var before, history := s.jobs, s.history;
    ok := s.Post(w, false);
    NewWaits(s.jobs[0], before);
    hide WaitsFor, DoneBy;
    for i := 0 to |others|
      invariant s.Valid() && WaitsFor(s.jobs, w, probe + PROBE_DEFER) && s.clock == probe && s.sent == old(s.sent)
    {
      assert others[i] in others;
      PostOther(s, w, probe + PROBE_DEFER, others[i]);
    }
    s.Tick(probe + PROBE_DEFER + late);
    SendDue(s, w, probe + PROBE_DEFER, chosen);
  }

  lemma DoneBefore<I, P>(history: seq<Job<I, P>>, w: I, a: int, b: int)
    requires DoneBy(history, w, a) && a <= b
    ensures DoneBy(history, w, b)
  {
  }

  lemma GapAfter(probes: seq<int>, i: nat)
    requires Announce.Gaps(probes) && i + 1 < |probes|
    ensures probes[i + 1] - probes[i] >= 250_000
  {
  }

  /** Whatever else the scheduler has to do: probes posted a quarter of a second apart are all accepted, and all sent,
      as long as no timer is late by 50 ms. */
  method ProbesGoOut<I(!new, ==)>(
      s: JobScheduler<I>, w: I, probes: seq<int>, late: seq<nat>, others: seq<seq<I>>, chosen: seq<set<I>>)
    returns (oks: seq<bool>)
    requires s.Valid() && s.defer == PROBE_DEFER && s.window == PROBE_HISTORY && w !in Whats(s.jobs)
    requires |late| == |others| == |chosen| == |probes| && Announce.Gaps(probes)
    requires probes != [] ==> s.clock <= probes[0] && DoneBy(s.history, w, probes[0] - PROBE_HISTORY - 1)
    requires forall i :: 0 <= i < |probes| ==> late[i] < 50_000 && w !in others[i] && w in chosen[i]
    modifies s
    ensures s.Valid() && |oks| == |probes|
    ensures forall i :: 0 <= i < |probes| ==> oks[i] && Sending(w, probes[i] + PROBE_DEFER + late[i]) in s.sent
  {
    hide Once, Guarded, Spaced, Waiting, Kept, Past, Whats, DoneBy, Announce.Gaps;
    oks := [];
    for i := 0 to |probes|
      invariant s.Valid() && |oks| == i && w !in Whats(s.jobs)
      invariant i < |probes| ==> s.clock <= probes[i] && DoneBy(s.history, w, probes[i] - PROBE_HISTORY - 1)
      invariant forall j :: 0 <= j < i ==> oks[j] && Sending(w, probes[j] + PROBE_DEFER + late[j]) in s.sent
    {
      ghost var before := s.sent;
      var ok := OneProbe(s, w, probes[i], late[i], others[i], chosen[i]);
      if i + 1 < |probes| {
        GapAfter(probes, i);
        DoneBefore(s.history, w, s.clock, probes[i + 1] - PROBE_HISTORY - 1);
      }
      oks := oks + [ok];
    }
  }

  lemma RecentStays<I, P>(before: seq<Job<I, P>>, after: seq<Job<I, P>>, w: I, limit: int)
    requires Aged(before, after, w, limit) && Remembered(before, Sending(w, limit))
    ensures w in Whats(after)
  {
    var k :| 0 <= k < |before| && before[k].what == w && before[k].delivery >= limit;
    if after == before {
      assert after[k].what == w;
    } else {
      var i :| 0 <= i < |before| && before[i].what == w && before[i].delivery < limit && after == Drop(before, i);
      assert after[if k < i then k else k - 1] == before[k];
    }
    WhatsIn(after, w);
  }

  /** With a timer that is late by just 50 ms, the next probe is refused, and the announcer does not learn of it. */
  method LateProbeIsRefused<I(!new, ==)>(w: I) returns (s: JobScheduler<I>, first: bool, second: bool)
    ensures fresh(s) && s.Valid() && s.clock == 250_000 && first && !second
    ensures Sending(w, 100_000) in s.sent && w !in Whats(s.jobs)
  {
    s := NewProbeScheduler(0);
    hide Once, Spaced, Waiting, Kept, Past, Aged, Remembered;
    first := OneProbe(s, w, 0, 50_000, [], {w});
    ghost var i :| 0 <= i < |s.sent| && s.sent[i] == Sending(w, 100_000);
    assert Remembered(s.history, s.sent[i]);
    ghost var history := s.history;
    s.Tick(250_000);
    second := s.Post(w, false);
    RecentStays(history, s.history, w, 100_000);
  }
}
