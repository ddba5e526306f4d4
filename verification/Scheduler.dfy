/** avahi-core/query-sched.c and avahi-core/probe-sched.c: jobs wait in a list, are sent, and then stay for a while in a
    history that keeps the same question or probe from being sent again. Both schedulers work alike on what they
    identify: keys for queries, records for probes. Times are in microseconds. */
module Scheduler {
  import opened Bytes

  const QUERY_HISTORY := 100_000
  const QUERY_DEFER := 100_000
  const PROBE_HISTORY := 150_000
  const PROBE_DEFER := 50_000

  /** What a job is about, whether it is in the history, and when it is looked at next. */
  datatype Job<I, P> = Job(what: I, done: bool, delivery: int, timer: int, info: P)

  datatype Posting = Posting(id: nat, nPosted: int)

  datatype Sending<I> = Sending(what: I, time: int)

  // ---------- Lists of jobs ----------

  ghost function Whats<I, P>(s: seq<Job<I, P>>): multiset<I> {
    if s == [] then multiset{} else multiset{s[0].what} + Whats(s[1..])
  }

  function Drop<T>(s: seq<T>, k: nat): seq<T>
    requires k < |s|
  {
    s[..k] + s[k + 1..]
  }

  lemma WhatsCons<I, P>(j: Job<I, P>, s: seq<Job<I, P>>)
    ensures Whats([j] + s) == multiset{j.what} + Whats(s)
  {
    assert ([j] + s)[1..] == s;
  }

  lemma DropTail<T>(s: seq<T>, k: nat)
    requires 0 < k < |s|
    ensures Drop(s, k) == [s[0]] + Drop(s[1..], k - 1)
  {
  }

  lemma {:induction false} WhatsDrop<I, P>(s: seq<Job<I, P>>, k: nat)
    requires k < |s|
    ensures Whats(s) == Whats(Drop(s, k)) + multiset{s[k].what}
  {
    if k == 0 {
      assert Drop(s, 0) == s[1..];
    } else {
      WhatsDrop(s[1..], k - 1);
      DropTail(s, k);
      WhatsCons(s[0], Drop(s[1..], k - 1));
      hide Drop;
      assert s[1..][k - 1] == s[k];
    }
  }

  lemma {:induction false} WhatsIn<I, P>(s: seq<Job<I, P>>, w: I)
    ensures w in Whats(s) <==> exists k :: 0 <= k < |s| && s[k].what == w
  {
    if s != [] {
      WhatsIn(s[1..], w);
      if w in Whats(s) {
        if s[0].what != w {
          var k :| 0 <= k < |s[1..]| && s[1..][k].what == w;
          assert s[k + 1].what == w;
        }
      }
      if k :| 0 <= k < |s| && s[k].what == w {
        if k > 0 {
          assert s[1..][k - 1].what == w;
        }
      }
    }
  }

  lemma {:induction false} WhatsUpdate<I, P>(s: seq<Job<I, P>>, k: nat, j: Job<I, P>)
    requires k < |s| && j.what == s[k].what
    ensures Whats(s[k := j]) == Whats(s)
  {
    if k == 0 {
      assert s[0 := j][1..] == s[1..];
    } else {
      WhatsUpdate(s[1..], k - 1, j);
      assert s[k := j][1..] == s[1..][k - 1 := j];
    }
  }

  // ---------- The invariant ----------

  /** At most one job per question, waiting or in the history. */
  ghost predicate Once<I(!new), P>(jobs: seq<Job<I, P>>, history: seq<Job<I, P>>) {
    forall w: I {:trigger Whats(jobs)[w]} {:trigger Whats(history)[w]} :: Whats(jobs)[w] + Whats(history)[w] <= 1
  }

  predicate Waiting<I, P>(jobs: seq<Job<I, P>>) {
    forall k {:trigger jobs[k]} :: 0 <= k < |jobs| ==> !jobs[k].done && jobs[k].timer == jobs[k].delivery
  }

  predicate Kept<I, P>(window: nat, history: seq<Job<I, P>>) {
    forall k {:trigger history[k]} :: 0 <= k < |history| ==>
      history[k].done && history[k].timer == history[k].delivery + window
  }

  predicate Past<I, P>(clock: int, history: seq<Job<I, P>>) {
    forall k {:trigger history[k]} :: 0 <= k < |history| ==> history[k].delivery <= clock
  }

  lemma MoreHistory<I, P>(window: nat, clock: int, history: seq<Job<I, P>>, j: Job<I, P>)
    requires Kept(window, history) && Past(clock, history) && j.done && j.timer == j.delivery + window
             && j.delivery <= clock
    ensures Kept(window, [j] + history) && Past(clock, [j] + history)
  {
  }

  lemma SameHistory<I, P>(window: nat, clock: int, history: seq<Job<I, P>>, k: nat, j: Job<I, P>)
    requires Kept(window, history) && Past(clock, history) && j.done && j.timer == j.delivery + window
             && j.delivery <= clock
    requires k < |history|
    ensures Kept(window, history[k := j]) && Past(clock, history[k := j])
  {
  }

  lemma LessHistory<I, P>(window: nat, clock: int, history: seq<Job<I, P>>, k: nat)
    requires Kept(window, history) && Past(clock, history) && k < |history|
    ensures Kept(window, Drop(history, k)) && Past(clock, Drop(history, k))
  {
  }

  lemma MoreWaiting<I, P>(jobs: seq<Job<I, P>>, j: Job<I, P>)
    requires Waiting(jobs) && !j.done && j.timer == j.delivery
    ensures Waiting([j] + jobs)
  {
  }

  lemma SameWaiting<I, P>(jobs: seq<Job<I, P>>, k: nat, j: Job<I, P>)
    requires Waiting(jobs) && k < |jobs| && !j.done && j.timer == j.delivery
    ensures Waiting(jobs[k := j])
  {
  }

  lemma LessWaiting<I, P>(jobs: seq<Job<I, P>>, k: nat)
    requires Waiting(jobs) && k < |jobs|
    ensures Waiting(Drop(jobs, k))
  {
  }

  ghost predicate Remembered<I, P>(history: seq<Job<I, P>>, s: Sending<I>) {
    exists k :: 0 <= k < |history| && history[k].what == s.what && history[k].delivery >= s.time
  }

  /** What was sent less than a window ago is in the history. */
  ghost predicate Guarded<I, P>(window: nat, clock: int, sent: seq<Sending<I>>, history: seq<Job<I, P>>) {
    forall i {:trigger sent[i]} :: 0 <= i < |sent| ==>
      sent[i].time <= clock && (clock >= sent[i].time + window || Remembered(history, sent[i]))
  }

  /** The same question is never sent twice within the window. */
  predicate Spaced<I(==)>(window: nat, sent: seq<Sending<I>>) {
    forall i, j {:trigger sent[i], sent[j]} :: 0 <= i < j < |sent| && sent[i].what == sent[j].what ==>
      sent[j].time - sent[i].time >= window
  }

  lemma NotRemembered<I(!new), P>(jobs: seq<Job<I, P>>, history: seq<Job<I, P>>, k: nat, s: Sending<I>)
    requires Once(jobs, history) && k < |jobs| && s.what == jobs[k].what
    ensures !Remembered(history, s)
  {
    WhatsIn(jobs, s.what);
    WhatsIn(history, s.what);
    assert Whats(jobs)[s.what] + Whats(history)[s.what] <= 1;
  }

  /** A waiting job may be sent now: nothing of the kind was sent within the window. */
  lemma MayBeSent<I(!new), P>(
    window: nat, clock: int, sent: seq<Sending<I>>, jobs: seq<Job<I, P>>, history: seq<Job<I, P>>, k: nat)
    requires Once(jobs, history) && k < |jobs| && Guarded(window, clock, sent, history) && Spaced(window, sent)
    ensures Spaced(window, sent + [Sending(jobs[k].what, clock)])
  {
    hide Once, Remembered;
    var more := sent + [Sending(jobs[k].what, clock)];
    forall i, j {:trigger more[i], more[j]} | 0 <= i < j < |more| && more[i].what == more[j].what
      ensures more[j].time - more[i].time >= window
    {
      assert more[i] == sent[i];
      if j == |sent| {
        NotRemembered(jobs, history, k, sent[i]);
      } else {
        assert more[j] == sent[j];
      }
    }
  }

  lemma LongAgo<I>(window: nat, sent: seq<Sending<I>>, s: Sending<I>)
    requires Spaced(window, sent + [s])
    ensures forall i {:trigger sent[i]} :: 0 <= i < |sent| && sent[i].what == s.what ==> s.time - sent[i].time >= window
  {
    var more := sent + [s];
    forall i {:trigger sent[i]} | 0 <= i < |sent| && sent[i].what == s.what ensures s.time - sent[i].time >= window {
      assert more[i] == sent[i] && more[|sent|] == s;
    }
  }

  lemma OnceMoved<I(!new), P>(jobs: seq<Job<I, P>>, history: seq<Job<I, P>>, k: nat, j: Job<I, P>)
    requires Once(jobs, history) && k < |jobs| && j.what == jobs[k].what
    ensures Once(Drop(jobs, k), [j] + history)
  {
    WhatsDrop(jobs, k);
    WhatsCons(j, history);
    hide Drop;
    forall w: I ensures Whats(Drop(jobs, k))[w] + Whats([j] + history)[w] <= 1 {
      assert Whats(jobs)[w] + Whats(history)[w] <= 1;
    }
  }

  lemma OnceFewer<I(!new), P>(jobs: seq<Job<I, P>>, history: seq<Job<I, P>>, k: nat)
    requires Once(jobs, history)
    ensures k < |jobs| ==> Once(Drop(jobs, k), history)
    ensures k < |history| ==> Once(jobs, Drop(history, k))
  {
    hide Drop;
    if k < |jobs| {
      WhatsDrop(jobs, k);
      forall w: I ensures Whats(Drop(jobs, k))[w] + Whats(history)[w] <= 1 {
        assert Whats(jobs)[w] + Whats(history)[w] <= 1;
      }
    }
    if k < |history| {
      WhatsDrop(history, k);
      forall w: I ensures Whats(jobs)[w] + Whats(Drop(history, k))[w] <= 1 {
        assert Whats(jobs)[w] + Whats(history)[w] <= 1;
      }
    }
  }

  lemma OnceNew<I(!new), P>(jobs: seq<Job<I, P>>, history: seq<Job<I, P>>, j: Job<I, P>)
    requires Once(jobs, history) && j.what !in Whats(jobs) && j.what !in Whats(history)
    ensures Once([j] + jobs, history) && Once(jobs, [j] + history)
  {
    WhatsCons(j, jobs);
    WhatsCons(j, history);
    forall w: I ensures Whats([j] + jobs)[w] + Whats(history)[w] <= 1 && Whats(jobs)[w] + Whats([j] + history)[w] <= 1 {
      assert Whats(jobs)[w] + Whats(history)[w] <= 1;
    }
  }

  lemma RememberedMore<I, P>(history: seq<Job<I, P>>, j: Job<I, P>, s: Sending<I>)
    ensures Remembered(history, s) ==> Remembered([j] + history, s)
    ensures j.what == s.what && j.delivery >= s.time ==> Remembered([j] + history, s)
  {
    if Remembered(history, s) {
      var k :| 0 <= k < |history| && history[k].what == s.what && history[k].delivery >= s.time;
      assert ([j] + history)[k + 1] == history[k];
    }
    assert ([j] + history)[0] == j;
  }

  lemma GuardedMore<I, P>(window: nat, clock: int, sent: seq<Sending<I>>, history: seq<Job<I, P>>, j: Job<I, P>)
    requires Guarded(window, clock, sent, history)
    ensures Guarded(window, clock, sent, [j] + history)
    ensures j.delivery == clock ==> Guarded(window, clock, sent + [Sending(j.what, clock)], [j] + history)
  {
    hide Remembered;
    var more := sent + [Sending(j.what, clock)];
    forall i {:trigger more[i]} | 0 <= i < |more| ensures i < |sent| ==> more[i] == sent[i] {
      RememberedMore(history, j, more[i]);
    }
    forall i {:trigger sent[i]} | 0 <= i < |sent|
      ensures sent[i].time <= clock && (clock >= sent[i].time + window || Remembered([j] + history, sent[i]))
    {
      RememberedMore(history, j, sent[i]);
    }
    if j.delivery == clock {
      RememberedMore(history, j, Sending(j.what, clock));
    }
  }

  /** A job may leave the history once its window has passed. */
  lemma GuardedFewer<I, P>(window: nat, clock: int, sent: seq<Sending<I>>, history: seq<Job<I, P>>, k: nat)
    requires Guarded(window, clock, sent, history) && k < |history| && clock >= history[k].delivery + window
    ensures Guarded(window, clock, sent, Drop(history, k))
  {
    var less := Drop(history, k);
    forall i {:trigger sent[i]} | 0 <= i < |sent|
      ensures sent[i].time <= clock && (clock >= sent[i].time + window || Remembered(less, sent[i]))
    {
      if Remembered(history, sent[i]) && clock < sent[i].time + window {
        var m :| 0 <= m < |history| && history[m].what == sent[i].what && history[m].delivery >= sent[i].time;
        assert m != k && less[if m < k then m else m - 1] == history[m];
      }
    }
  }

  lemma GuardedLater<I, P>(window: nat, clock: int, sent: seq<Sending<I>>, history: seq<Job<I, P>>, k: nat, now: int)
    requires Guarded(window, clock, sent, history) && clock <= now && k < |history| && history[k].delivery <= now
    ensures Guarded(window, now, sent, history)
    ensures Guarded(window, now, sent, history[k := history[k].(delivery := now, timer := now + window)])
  {
    var h := history[k := history[k].(delivery := now, timer := now + window)];
    forall i {:trigger sent[i]} | 0 <= i < |sent|
      ensures sent[i].time <= now && (now >= sent[i].time + window || Remembered(h, sent[i]))
    {
      if Remembered(history, sent[i]) {
        var m :| 0 <= m < |history| && history[m].what == sent[i].what && history[m].delivery >= sent[i].time;
        assert h[m].what == sent[i].what && h[m].delivery >= sent[i].time;
      }
    }
  }

  function Renewed<I, P>(history: seq<Job<I, P>>, k: nat, clock: int, window: nat): seq<Job<I, P>>
    requires k < |history|
  {
    history[k := history[k].(delivery := clock, timer := clock + window)]
  }

  /** Looking for w in the history has removed nothing, or an outdated job for w. */
  ghost predicate Aged<I, P>(before: seq<Job<I, P>>, after: seq<Job<I, P>>, w: I, limit: int) {
    || after == before
    || exists i :: 0 <= i < |before| && before[i].what == w && before[i].delivery < limit && after == Drop(before, i)
  }

  /** A waiting job that is posted once more, for time tv. */
  function Reposted<I>(j: Job<I, Posting>, tv: int): Job<I, Posting> {
    (if tv < j.delivery then j.(delivery := tv, timer := tv) else j).(info := j.info.(nPosted := j.info.nPosted + 1))
  }

  function Sendings<I, P>(js: seq<Job<I, P>>, time: int): seq<Sending<I>> {
    seq(|js|, i requires 0 <= i < |js| => Sending(js[i].what, time))
  }

  /** The jobs that are chosen, or those that are not, in order. */
  function Picked<I(==), P>(js: seq<Job<I, P>>, chosen: set<I>, want: bool): seq<Job<I, P>> {
    if js == [] then [] else
    var j := js[|js| - 1];
    Picked(js[..|js| - 1], chosen, want) + if (j.what in chosen) == want then [j] else []
  }

  lemma PickedMore<I, P>(js: seq<Job<I, P>>, m: nat, chosen: set<I>, want: bool)
    requires m < |js|
    ensures Picked(js[..m + 1], chosen, want) ==
            Picked(js[..m], chosen, want) + if (js[m].what in chosen) == want then [js[m]] else []
  {
    assert js[..m + 1][..m] == js[..m];
  }

  /** One job more is looked at. */
  lemma PickStep<I, P>(all: seq<Job<I, P>>, jobs: seq<Job<I, P>>, m: nat, chosen: set<I>, time: int)
    requires m < |all| && jobs == Picked(all[..m], chosen, false) + all[m..]
    ensures var left, left' := Picked(all[..m], chosen, false), Picked(all[..m + 1], chosen, false);
            var out, out' := Picked(all[..m], chosen, true), Picked(all[..m + 1], chosen, true);
            && |left| < |jobs| && jobs[|left|] == all[m]
            && if all[m].what in chosen then
                 && left' == left && |out'| == |out| + 1 && Drop(jobs, |left|) == left' + all[m + 1..]
                 && Sendings(out', time) == Sendings(out, time) + [Sending(all[m].what, time)]
               else
                 out' == out && |left'| == |left| + 1 && jobs == left' + all[m + 1..]
  {
    PickedMore(all, m, chosen, true);
    PickedMore(all, m, chosen, false);
    hide Picked;
    assert all[m..] == [all[m]] + all[m + 1..];
    SendingsMore(Picked(all[..m], chosen, true), all[m], time);
  }

  lemma SendingsMore<I, P>(js: seq<Job<I, P>>, j: Job<I, P>, time: int)
    ensures Sendings(js + [j], time) == Sendings(js, time) + [Sending(j.what, time)]
  {
  }

  /** One poster less for the job of that id. */
  function TakenBack<I>(j: Job<I, Posting>, id: nat): Job<I, Posting> {
    if j.info.id == id then j.(info := j.info.(nPosted := j.info.nPosted - 1)) else j
  }

  function AllTakenBack<I>(js: seq<Job<I, Posting>>, id: nat): seq<Job<I, Posting>> {
    seq(|js|, i requires 0 <= i < |js| => TakenBack(js[i], id))
  }

  lemma TakeBackStep<I>(all: seq<Job<I, Posting>>, jobs: seq<Job<I, Posting>>, k: nat, id: nat)
    requires k < |all| && jobs == AllTakenBack(all[..k], id) + all[k..]
    ensures |jobs| == |all| && jobs[k] == all[k]
    ensures var after := jobs[k := TakenBack(all[k], id)];
            && after == AllTakenBack(all[..k + 1], id) + all[k + 1..]
            && Drop(after, k) == AllTakenBack(all[..k], id) + all[k + 1..]
  {
    hide TakenBack;
  }

  lemma NoneTakenBack<I>(all: seq<Job<I, Posting>>, id: nat)
    ensures all == AllTakenBack(all[..0], id) + all[0..]
    ensures AllTakenBack(all[..|all|], id) + all[|all|..] == AllTakenBack(all, id)
  {
    hide TakenBack;
    assert all[..|all|] == all;
  }

  /** The jobs for anything but w, in order. */
  ghost function Others<I, P>(s: seq<Job<I, P>>, w: I): seq<Job<I, P>> {
    if s == [] then [] else (if s[0].what == w then [] else [s[0]]) + Others(s[1..], w)
  }

  lemma OthersCons<I, P>(j: Job<I, P>, s: seq<Job<I, P>>)
    ensures Others([j] + s, j.what) == Others(s, j.what)
  {
    assert ([j] + s)[1..] == s;
  }

  lemma {:induction false} OthersDrop<I, P>(s: seq<Job<I, P>>, k: nat)
    requires k < |s|
    ensures Others(Drop(s, k), s[k].what) == Others(s, s[k].what)
  {
    if k == 0 {
      assert Drop(s, 0) == s[1..];
    } else {
      DropTail(s, k);
      assert Drop(s, k)[1..] == Drop(s[1..], k - 1);
      OthersDrop(s[1..], k - 1);
    }
  }

  lemma {:induction false} OthersUpdate<I, P>(s: seq<Job<I, P>>, k: nat, j: Job<I, P>)
    requires k < |s| && j.what == s[k].what
    ensures Others(s[k := j], j.what) == Others(s, j.what)
  {
    if k == 0 {
      assert s[0 := j][1..] == s[1..];
    } else {
      assert s[k := j][1..] == s[1..][k - 1 := j];
      OthersUpdate(s[1..], k - 1, j);
    }
  }

  lemma OthersAged<I, P>(before: seq<Job<I, P>>, after: seq<Job<I, P>>, w: I, limit: int)
    requires Aged(before, after, w, limit)
    ensures Others(after, w) == Others(before, w)
  {
    if after != before {
      var i :| 0 <= i < |before| && before[i].what == w && before[i].delivery < limit && after == Drop(before, i);
      OthersDrop(before, i);
    }
  }

  class JobScheduler<I(!new, ==)> {
    const window: nat
    const defer: nat
    var nextId: nat
    var jobs: seq<Job<I, Posting>>
    var history: seq<Job<I, Posting>>
    ghost var sent: seq<Sending<I>>
    var clock: int

    ghost predicate Valid()
      reads this
    {
      && Once(jobs, history) && Waiting(jobs) && Kept(window, history)
      && Guarded(window, clock, sent, history) && Spaced(window, sent)
      && Past(clock, history)
    }

    constructor (window: nat, defer: nat, clock: int)
      ensures Valid() && jobs == history == [] && sent == [] && this.window == window && this.defer == defer
              && this.clock == clock
    {
      this.window, this.defer, this.clock := window, defer, clock;
      nextId, jobs, history, sent := 0, [], [], [];
    }

    /** avahi_query_scheduler_clear and avahi_probe_scheduler_clear; what was sent is remembered since the last of
        these. */
    method Clear()
      modifies `jobs, `history, `sent
      ensures Valid() && jobs == history == [] && sent == []
    {
      jobs, history, sent := [], [], [];
    }

    /** Time passes. */
    method Tick(now: int)
      requires Valid() && clock <= now
      modifies `clock
      ensures Valid() && clock == now
    {
      hide Once, Remembered;
      clock := now;
    }

    /** find_scheduled_job. */
    method FindScheduled(w: I) returns (k: Option<nat>)
      ensures k.Some? ==> k.value < |jobs| && jobs[k.value].what == w
      ensures k.None? ==> w !in Whats(jobs)
    {
      WhatsIn(jobs, w);
      for i := 0 to |jobs|
        invariant forall j :: 0 <= j < i ==> jobs[j].what != w
      {
        if jobs[i].what == w {
          return Some(i);
        }
      }
      return None;
    }

    /** find_history_job: an outdated job is removed on the way. */
    method FindHistory(w: I) returns (k: Option<nat>)
      requires Valid()
      modifies `history
      ensures Valid()
      ensures k.Some? ==> k.value < |history| && history[k.value].what == w && history == old(history)
      ensures k.Some? ==> clock - history[k.value].delivery <= window
      ensures k.None? ==> w !in Whats(history)
      ensures Aged(old(history), history, w, clock - window)
    {
      WhatsIn(history, w);
      for i := 0 to |history|
        invariant history == old(history) && forall j :: 0 <= j < i ==> history[j].what != w
      {
        if history[i].what == w {
          if clock - history[i].delivery > window {
            DropHistory(i);
            return None;
          }
          return Some(i);
        }
      }
      return None;
    }

    /** job_free for a job of the history whose window has passed. */
    method DropHistory(k: nat)
      requires Valid() && k < |history| && clock >= history[k].delivery + window
      modifies `history
      ensures Valid() && history == Drop(old(history), k) && old(history)[k].what !in Whats(history)
    {
      hide Guarded, Spaced, Whats, Waiting, Kept, Past, Drop;
      WhatsDrop(history, k);
      assert Whats(jobs)[history[k].what] + Whats(history)[history[k].what] <= 1;
      hide Once;
      OnceFewer(jobs, history, k);
      GuardedFewer(window, clock, sent, history, k);
      LessHistory(window, clock, history, k);
      history := Drop(history, k);
    }

    /** job_mark_done: a waiting job goes to the history. */
    method MarkDone(k: nat)
      requires Valid() && k < |jobs|
      modifies `jobs, `history
      ensures Valid() && jobs == Drop(old(jobs), k)
      ensures history == [old(jobs)[k].(done := true, delivery := clock, timer := clock + window)] + old(history)
    {
      var j := jobs[k].(done := true, delivery := clock, timer := clock + window);
      hide Once, Guarded, Spaced, Whats, Waiting, Kept, Past, Drop;
      OnceMoved(jobs, history, k, j);
      GuardedMore(window, clock, sent, history, j);
      LessWaiting(jobs, k);
      MoreHistory(window, clock, history, j);
      jobs, history := Drop(jobs, k), [j] + history;
    }

    /** A waiting job is put into a packet that will be sent now. */
    method Send(k: nat)
      requires Valid() && k < |jobs|
      modifies `jobs, `history, `sent
      ensures Valid() && jobs == Drop(old(jobs), k) && sent == old(sent) + [Sending(old(jobs)[k].what, clock)]
      ensures forall i {:trigger old(sent)[i]} :: 0 <= i < |old(sent)| && old(sent)[i].what == old(jobs)[k].what ==>
                clock - old(sent)[i].time >= window
      ensures history == [old(jobs)[k].(done := true, delivery := clock, timer := clock + window)] + old(history)
    {
      var j := jobs[k].(done := true, delivery := clock, timer := clock + window);
      MayBeSent(window, clock, sent, jobs, history, k);
      LongAgo(window, sent, Sending(j.what, clock));
      GuardedMore(window, clock, sent, history, j);
      MarkDone(k);
      hide Once, Guarded, Spaced;
      sent := sent + [Sending(j.what, clock)];
    }

    /** job_new, for a job that waits or for one of the history. */
    method Enlist(w: I, done: bool, delivery: int)
      requires Valid() && w !in Whats(jobs) && w !in Whats(history) && (done ==> delivery == clock)
      modifies `jobs, `history, `nextId
      ensures Valid() && nextId == old(nextId) + 1
      ensures var j := Job(w, done, delivery, if done then delivery + window else delivery, Posting(old(nextId), 1));
              if done then jobs == old(jobs) && history == [j] + old(history)
              else jobs == [j] + old(jobs) && history == old(history)
    {
      hide Once, Guarded, Spaced, Whats, Waiting, Kept, Past;
      var j := Job(w, done, delivery, if done then delivery + window else delivery, Posting(nextId, 1));
      OnceNew(jobs, history, j);
      nextId := nextId + 1;
      if done {
        GuardedMore(window, clock, sent, history, j);
        MoreHistory(window, clock, history, j);
        history := [j] + history;
      } else {
        MoreWaiting(jobs, j);
        jobs := [j] + jobs;
      }
    }

    /** A waiting job changes and stays one for the same question. */
    method Amend(k: nat, j: Job<I, Posting>)
      requires Valid() && k < |jobs| && j.what == jobs[k].what && !j.done && j.timer == j.delivery
      modifies `jobs
      ensures Valid() && jobs == old(jobs)[k := j] && Whats(jobs) == Whats(old(jobs))
    {
      hide Once, Guarded, Spaced, Whats, Waiting, Kept, Past;
      WhatsUpdate(jobs, k, j);
      SameWaiting(jobs, k, j);
      OnceSame(jobs, jobs[k := j], history);
      jobs := jobs[k := j];
    }

    /** job_free for a waiting job. */
    method DropJob(k: nat)
      requires Valid() && k < |jobs|
      modifies `jobs
      ensures Valid() && jobs == Drop(old(jobs), k) && Whats(jobs) <= Whats(old(jobs))
    {
      hide Once, Guarded, Spaced, Whats, Waiting, Kept, Past, Drop;
      OnceFewer(jobs, history, k);
      WhatsDrop(jobs, k);
      LessWaiting(jobs, k);
      jobs := Drop(jobs, k);
    }

    /** avahi_query_scheduler_post and avahi_probe_scheduler_post: refused while the history remembers the question;
        otherwise exactly one job for it waits, no later than asked for. */
    method Post(w: I, immediately: bool) returns (ok: bool)
      requires Valid()
      modifies `jobs, `history, `nextId
      ensures Valid()
      ensures Aged(old(history), history, w, clock - window)
      ensures !ok ==> jobs == old(jobs) && history == old(history)
      ensures !ok ==> exists k :: 0 <= k < |history| && history[k].what == w && clock - history[k].delivery <= window
      ensures ok ==> w !in Whats(history)
      ensures ok && w !in Whats(old(jobs)) ==>
                var tv := clock + if immediately then 0 else defer;
                jobs == [Job(w, false, tv, tv, Posting(old(nextId), 1))] + old(jobs)
      ensures ok && w in Whats(old(jobs)) ==>
                var tv := clock + if immediately then 0 else defer;
                exists k :: 0 <= k < |old(jobs)| && old(jobs)[k].what == w
                            && jobs == old(jobs)[k := Reposted(old(jobs)[k], tv)]
    {
      hide Once, Guarded, Spaced, Waiting, Kept, Past, Whats;
      WhatsIn(jobs, w);
      var h := FindHistory(w);
      if h.Some? {
        return false;
      }
      var tv := clock + if immediately then 0 else defer;
      var k := FindScheduled(w);
      if k.Some? {
        var j := jobs[k.value];
        WaitingAt(k.value);
        if tv < j.delivery {
          j := j.(delivery := tv, timer := tv);
        }
        Amend(k.value, j.(info := j.info.(nPosted := j.info.nPosted + 1)));
      } else {
        Enlist(w, false, tv);
      }
      ok := true;
    }

    lemma WaitingAt(k: nat)
      requires Valid() && k < |jobs|
      ensures !jobs[k].done && jobs[k].timer == jobs[k].delivery
    {
    }

    lemma OnceSame(a: seq<Job<I, Posting>>, b: seq<Job<I, Posting>>, history: seq<Job<I, Posting>>)
      requires Once(a, history) && Whats(a) == Whats(b)
      ensures Once(b, history)
    {
      forall w: I ensures Whats(b)[w] + Whats(history)[w] <= 1 {
        assert Whats(a)[w] + Whats(history)[w] <= 1;
      }
    }

    /** avahi_query_scheduler_incoming: the question has been asked by somebody else. */
    method Incoming(w: I)
      requires Valid()
      modifies `jobs, `history, `nextId
      ensures Valid() && w in Whats(history) && w !in Whats(jobs)
      ensures exists k :: 0 <= k < |history| && history[k].what == w && history[k].delivery == clock
      ensures jobs == old(jobs) ||
              exists k :: 0 <= k < |old(jobs)| && old(jobs)[k].what == w && jobs == Drop(old(jobs), k)
      ensures Others(history, w) == Others(old(history), w)
    {
      hide Once, Guarded, Spaced, Waiting, Kept, Past, Whats, Drop, Aged, Others;
      var at := 0;
      ghost var before := history;
      var k := FindScheduled(w);
      if k.Some? {
        MarkDone(k.value);
        OthersCons(history[0], before);
      } else {
        var h := FindHistory(w);
        OthersAged(before, history, w, clock - window);
        ghost var found := history;
        if h.Some? {
          Renew(h.value);
          OthersUpdate(found, h.value, history[h.value]);
          at := h.value;
        } else {
          Enlist(w, true, clock);
          OthersCons(history[0], found);
        }
      }
      assert history[at].what == w && history[at].delivery == clock;
      InHistoryOnly(w, at);
    }

    lemma InHistoryOnly(w: I, k: nat)
      requires Valid() && k < |history| && history[k].what == w
      ensures w in Whats(history) && w !in Whats(jobs)
    {
      WhatsIn(history, w);
      assert Whats(jobs)[w] + Whats(history)[w] <= 1;
    }

    /** A job of the history is given another full window. */
    method Renew(k: nat)
      requires Valid() && k < |history|
      modifies `history
      ensures Valid() && history == Renewed(old(history), k, clock, window)
    {
      hide Once, Guarded, Spaced, Waiting, Kept, Past;
      RenewedGuard(window, clock, sent, history, k);
      RenewedOnce(jobs, history, k, clock, window);
      history := Renewed(history, k, clock, window);
    }

    lemma RenewedGuard(window: nat, clock: int, sent: seq<Sending<I>>, history: seq<Job<I, Posting>>, k: nat)
      requires Kept(window, history) && Past(clock, history) && Guarded(window, clock, sent, history) && k < |history|
      ensures var h := Renewed(history, k, clock, window);
              Kept(window, h) && Past(clock, h) && Guarded(window, clock, sent, h)
    {
      DoneAt(window, clock, history, k);
      hide Guarded, Kept, Past;
      GuardedLater(window, clock, sent, history, k, clock);
      SameHistory(window, clock, history, k, history[k].(delivery := clock, timer := clock + window));
    }

    lemma RenewedOnce(jobs: seq<Job<I, Posting>>, history: seq<Job<I, Posting>>, k: nat, clock: int, window: nat)
      requires Once(jobs, history) && k < |history|
      ensures Once(jobs, Renewed(history, k, clock, window))
    {
      hide Once;
      WhatsUpdate(history, k, history[k].(delivery := clock, timer := clock + window));
      OnceRenewed(jobs, history, Renewed(history, k, clock, window));
    }

    lemma DoneAt(window: nat, clock: int, history: seq<Job<I, Posting>>, k: nat)
      requires Kept(window, history) && Past(clock, history) && k < |history|
      ensures history[k].done && history[k].delivery <= clock
    {
    }

    lemma OnceRenewed(jobs: seq<Job<I, Posting>>, a: seq<Job<I, Posting>>, b: seq<Job<I, Posting>>)
      requires Once(jobs, a) && Whats(a) == Whats(b)
      ensures Once(jobs, b)
    {
      forall w: I ensures Whats(jobs)[w] + Whats(b)[w] <= 1 {
        assert Whats(jobs)[w] + Whats(a)[w] <= 1;
      }
    }

    /** elapse_callback for a job of the history. */
    method Forget(k: nat)
      requires Valid() && k < |history| && history[k].timer <= clock
      modifies `history
      ensures Valid() && history == Drop(old(history), k)
    {
      DropHistory(k);
    }

    /** elapse_callback of the query scheduler for a waiting job: it is sent, and with it n more jobs, from the head of
        the list, as many as the packet has room for. */
    method ElapseQuery(k: nat, room: nat) returns (n: nat)
      requires Valid() && k < |jobs| && jobs[k].timer <= clock
      modifies `jobs, `history, `sent
      ensures Valid() && n <= |old(jobs)| - 1 && (n == room || (n < room && jobs == []))
      ensures var others := Drop(old(jobs), k);
              jobs == others[n..] && sent == old(sent) + [Sending(old(jobs)[k].what, clock)]
                + Sendings(others[..n], clock)
    {
      hide Once, Guarded, Spaced, Waiting, Kept, Past;
      Send(k);
      ghost var others, before := jobs, sent;
      n := 0;
      assert others[0..] == others && Sendings(others[..0], clock) == [];
      while jobs != [] && n < room
        invariant Valid() && n <= room && n <= |others|
        invariant jobs == others[n..] && sent == before + Sendings(others[..n], clock)
        decreases |jobs|
      {
        assert others[..n + 1] == others[..n] + [others[n]];
        SendingsMore(others[..n], others[n], clock);
        assert Drop(others[n..], 0) == others[n + 1..];
        Send(0);
        n := n + 1;
      }
    }

    /** elapse_callback of the probe scheduler for a due job that does not fit a packet with others: it is sent alone in
        a larger packet, if at all, and done in either case. */
    method ElapseLargeProbe(k: nat, fits: bool)
      requires Valid() && k < |jobs| && jobs[k].timer <= clock
      modifies `jobs, `history, `sent
      ensures Valid() && jobs == Drop(old(jobs), k)
      ensures history == [old(jobs)[k].(done := true, delivery := clock, timer := clock + window)] + old(history)
      ensures sent == if fits then old(sent) + [Sending(old(jobs)[k].what, clock)] else old(sent)
    {
      hide Once, Guarded, Spaced, Waiting, Kept, Past, Drop;
      if fits {
        Send(k);
      } else {
        MarkDone(k);
      }
    }

    /** Its last loop otherwise: of the first m jobs, the chosen ones, the due one among them, are sent in list order;
        all are looked at unless the packet is full. */
    method ElapseProbe(ghost due: nat, chosen: set<I>, room: nat) returns (m: nat)
      requires Valid() && due < |jobs| && jobs[due].timer <= clock && jobs[due].what in chosen
      modifies `jobs, `history, `sent
      ensures Valid() && m <= |old(jobs)| && (m == |old(jobs)| || |Picked(old(jobs)[..m], chosen, true)| == room)
      ensures jobs == Picked(old(jobs)[..m], chosen, false) + old(jobs)[m..]
      ensures sent == old(sent) + Sendings(Picked(old(jobs)[..m], chosen, true), clock)
    {
      hide Once, Guarded, Spaced, Waiting, Kept, Past, Picked, Sendings, Drop;
      ghost var all, before := jobs, sent;
      var k, n := 0, 0;
      m := 0;
      NonePicked(all, chosen);
      assert jobs == [] + all[0..];
      while k < |jobs| && n < room
        invariant Valid() && m <= |all| && n <= room
        invariant k == |Picked(all[..m], chosen, false)| && n == |Picked(all[..m], chosen, true)|
        invariant jobs == Picked(all[..m], chosen, false) + all[m..]
        invariant sent == before + Sendings(Picked(all[..m], chosen, true), clock)
        decreases |all| - m
      {
        PickStep(all, jobs, m, chosen, clock);
        if jobs[k].what in chosen {
          Send(k);
          n := n + 1;
        } else {
          k := k + 1;
        }
        m := m + 1;
      }
    }

    lemma NonePicked(all: seq<Job<I, Posting>>, chosen: set<I>)
      ensures Picked(all[..0], chosen, true) == [] && Picked(all[..0], chosen, false) == []
              && Sendings(Picked(all[..0], chosen, true), clock) == []
    {
    }

    /** avahi_query_scheduler_withdraw_by_id: each job of that id loses a poster, up to the first that has none left,
        which goes. */
    method WithdrawById(id: nat) returns (gone: Option<nat>)
      requires Valid()
      modifies `jobs
      ensures Valid()
      ensures gone.None? ==>
                && jobs == AllTakenBack(old(jobs), id)
                && forall i :: 0 <= i < |jobs| && jobs[i].info.id == id ==> jobs[i].info.nPosted > 0
      ensures gone.Some? ==>
                var k := gone.value;
                && k < |old(jobs)| && old(jobs)[k].info.id == id && old(jobs)[k].info.nPosted <= 1
                && jobs == AllTakenBack(old(jobs)[..k], id) + old(jobs)[k + 1..]
    {
      hide Once, Guarded, Spaced, Waiting, Kept, Past, Whats, AllTakenBack, Drop;
      ghost var all := jobs;
      NoneTakenBack(all, id);
      for k := 0 to |jobs|
        invariant Valid() && |jobs| == |all| && jobs == AllTakenBack(all[..k], id) + all[k..]
        invariant forall i :: 0 <= i < k && jobs[i].info.id == id ==> jobs[i].info.nPosted > 0
      {
        TakeBackStep(all, jobs, k, id);
        if jobs[k].info.id == id {
          var j := jobs[k].(info := jobs[k].info.(nPosted := jobs[k].info.nPosted - 1));
          WaitingAt(k);
          Amend(k, j);
          if j.info.nPosted <= 0 {
            DropJob(k);
            return Some(k);
          }
        }
      }
      return None;
    }
  }

  /** avahi_query_scheduler_new: no question twice within 100 ms. */
  method NewQueryScheduler<I(!new, ==)>(clock: int) returns (s: JobScheduler<I>)
    ensures fresh(s) && s.Valid() && s.jobs == s.history == [] && s.clock == clock
    ensures s.window == 100_000 && s.defer == 100_000
  {
    s := new JobScheduler(QUERY_HISTORY, QUERY_DEFER, clock);
  }

  /** avahi_probe_scheduler_new: no probe record twice within 150 ms. */
  method NewProbeScheduler<I(!new, ==)>(clock: int) returns (s: JobScheduler<I>)
    ensures fresh(s) && s.Valid() && s.jobs == s.history == [] && s.clock == clock
    ensures s.window == 150_000 && s.defer == 50_000
  {
    s := new JobScheduler(PROBE_HISTORY, PROBE_DEFER, clock);
  }
}
