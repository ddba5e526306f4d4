/** avahi-core/response-sched.c: responses wait in a list, are sent, and stay for a while in a history; known answers of
    queriers are kept in a third list. Times are in microseconds. */
module ResponseScheduler {
  import opened Bytes
  import opened Records
  import opened Identity
  import opened Scheduler

  const HISTORY := 500_000
  const DEFER := 20_000
  const SUPPRESS := 700_000

  datatype Reply = Reply(record: Rec, flush: bool, querier: Option<nat>)

  type RJob = Job<Ident, Reply>

  /** A known answer of one querier. */
  datatype Known = Known(what: Ident, querier: nat)

  type KJob = Job<Known, Reply>

  predicate IsGoodbye(r: Rec) {
    r.ttl == 0
  }

  /** A response that was seen makes another one needless: both or neither say goodbye, its TTL is at least half the
      other's, and the cache-flush bit is set if it has to be. */
  predicate Covers(seen: Reply, r: Rec, flush: bool) {
    IsGoodbye(seen.record) == IsGoodbye(r) && seen.record.ttl >= r.ttl / 2 && (seen.flush || !flush)
  }

  /** By the numbers: both TTLs are zero or neither is, the one that was seen is at least half the other, rounded down,
      and a cache-flush bit that is wanted was seen. */
  lemma CoversByNumber(seen: Reply, r: Rec, flush: bool)
    ensures Covers(seen, r, flush) <==>
            && (seen.record.ttl == 0 <==> r.ttl == 0) && r.ttl <= 2 * seen.record.ttl + 1 && (flush ==> seen.flush)
  {
  }

  predicate Labelled(s: seq<RJob>) {
    forall k {:trigger s[k]} :: 0 <= k < |s| ==> s[k].what == Id(s[k].info.record)
  }

  predicate KnownLabelled(s: seq<KJob>) {
    forall k {:trigger s[k]} :: 0 <= k < |s| ==>
      s[k].info.querier == Some(s[k].what.querier) && s[k].what.what == Id(s[k].info.record)
  }

  /** At most one known answer per record and querier. */
  ghost predicate KnownOK(clock: int, suppressed: seq<KJob>) {
    Once(suppressed, []) && Kept(SUPPRESS, suppressed) && Past(clock, suppressed) && KnownLabelled(suppressed)
  }

  // ---------- What happened ----------

  /** What can happen to a response. This host sent it. Somebody else's was heard on the wire, and the history keeps a
      reply for it: what was heard, or the waiting one of our own that it stands for. Somebody else's was heard while
      one of our own waits that it does not stand for, and nothing is kept. It was too large to be sent, and is kept as
      if it had been. A post for it was accepted. */
  datatype Happening =
    | Sent(what: Ident, time: int, reply: Reply)
    | Heard(what: Ident, time: int, reply: Reply, kept: Reply)
    | Overheard(what: Ident, time: int, reply: Reply)
    | Unsent(what: Ident, time: int, kept: Reply)
    | Accepted(what: Ident, time: int)

  /** It was on the wire. */
  predicate Appeared(h: Happening) {
    h.Sent? || h.Heard? || h.Overheard?
  }

  /** It went to the history. */
  predicate WentToHistory(h: Happening) {
    h.Sent? || h.Heard? || h.Unsent?
  }

  function KeptReply(h: Happening): Reply
    requires WentToHistory(h)
  {
    if h.Sent? then h.reply else h.kept
  }

  /** The last thing that happened to w. */
  function LastOf(trace: seq<Happening>, w: Ident): Option<Happening> {
    if trace == [] then None
    else if trace[|trace| - 1].what == w then Some(trace[|trace| - 1])
    else LastOf(trace[..|trace| - 1], w)
  }

  lemma LastOfMore(trace: seq<Happening>, h: Happening, w: Ident)
    ensures LastOf(trace + [h], w) == if h.what == w then Some(h) else LastOf(trace, w)
  {
    assert (trace + [h])[..|trace|] == trace;
  }

  /** What a job of the history tells is the last thing that happened. */
  predicate FromTrace(trace: seq<Happening>, history: seq<RJob>) {
    forall k {:trigger history[k]} :: 0 <= k < |history| ==>
      Tells(LastOf(trace, history[k].what), history[k])
  }

  /** That is what put the job into the history. */
  predicate Tells(o: Option<Happening>, j: RJob) {
    && o.Some? && WentToHistory(o.value) && o.value.what == j.what && o.value.time == j.delivery
    && KeptReply(o.value) == j.info
  }

  /** What went to the history less than the window ago, with nothing since, is there. */
  ghost predicate StillKnown(clock: int, trace: seq<Happening>, history: seq<RJob>, w: Ident) {
    var o := LastOf(trace, w);
    o.Some? && WentToHistory(o.value) ==> clock >= o.value.time + HISTORY || w in Whats(history)
  }

  /** Things happened one after the other, and none lies in the future. */
  predicate InOrder(clock: int, trace: seq<Happening>) {
    && (forall i {:trigger trace[i]} :: 0 <= i < |trace| ==> trace[i].time <= clock)
    && (forall i, j {:trigger trace[i], trace[j]} :: 0 <= i < j < |trace| ==> trace[i].time <= trace[j].time)
  }

  lemma InOrderMore(clock: int, trace: seq<Happening>, h: Happening)
    requires InOrder(clock, trace) && h.time == clock
    ensures InOrder(clock, trace + [h])
  {
  }

  ghost predicate Recorded(clock: int, trace: seq<Happening>, history: seq<RJob>) {
    && InOrder(clock, trace) && FromTrace(trace, history)
    && forall w {:trigger StillKnown(clock, trace, history, w)} :: StillKnown(clock, trace, history, w)
  }

  /** Something puts a job into the history that was not there. */
  lemma RecordedMore(clock: int, trace: seq<Happening>, history: seq<RJob>, j: RJob, h: Happening)
    requires Recorded(clock, trace, history) && j.what !in Whats(history) && j.delivery == clock && Tells(Some(h), j)
    ensures Recorded(clock, trace + [h], [j] + history)
  {
    var more, longer := trace + [h], [j] + history;
    InOrderMore(clock, trace, h);
    WhatsCons(j, history);
    WhatsIn(history, j.what);
    hide Whats, LastOf, InOrder;
    forall w ensures StillKnown(clock, more, longer, w) {
      assert StillKnown(clock, trace, history, w);
      LastOfMore(trace, h, w);
    }
    hide StillKnown;
    forall k {:trigger longer[k]} | 0 <= k < |longer| ensures Tells(LastOf(more, longer[k].what), longer[k]) {
      LastOfMore(trace, h, longer[k].what);
      assert k > 0 ==> longer[k] == history[k - 1];
    }
  }

  /** Something renews a job of the history. */
  lemma RecordedAgain(clock: int, trace: seq<Happening>, history: seq<RJob>, k: nat, j: RJob, h: Happening)
    requires Recorded(clock, trace, history) && k < |history| && j.what == history[k].what && j.delivery == clock
    requires Tells(Some(h), j) && forall m :: 0 <= m < |history| && m != k ==> history[m].what != j.what
    ensures Recorded(clock, trace + [h], history[k := j])
  {
    var more, renewed := trace + [h], history[k := j];
    InOrderMore(clock, trace, h);
    WhatsUpdate(history, k, j);
    WhatsIn(history, j.what);
    hide Whats, LastOf, InOrder;
    forall w ensures StillKnown(clock, more, renewed, w) {
      assert StillKnown(clock, trace, history, w);
      LastOfMore(trace, h, w);
    }
    hide StillKnown;
    forall m {:trigger renewed[m]} | 0 <= m < |renewed| ensures Tells(LastOf(more, renewed[m].what), renewed[m]) {
      LastOfMore(trace, h, renewed[m].what);
    }
  }

  /** A job leaves the history when its window has passed. */
  lemma RecordedOutdated(clock: int, trace: seq<Happening>, history: seq<RJob>, k: nat)
    requires Recorded(clock, trace, history) && k < |history| && clock >= history[k].delivery + HISTORY
    ensures Recorded(clock, trace, Drop(history, k))
  {
    var less := Drop(history, k);
    WhatsDrop(history, k);
    assert Tells(LastOf(trace, history[k].what), history[k]);
    FromFewer(trace, history, k);
    hide Whats, LastOf, Drop, FromTrace, InOrder;
    forall w ensures StillKnown(clock, trace, less, w) {
      assert StillKnown(clock, trace, history, w);
    }
  }

  lemma RecordedLater(clock: int, now: int, trace: seq<Happening>, history: seq<RJob>)
    requires Recorded(clock, trace, history) && clock <= now
    ensures Recorded(now, trace, history)
  {
    hide FromTrace, LastOf, WentToHistory;
    forall w ensures StillKnown(now, trace, history, w) {
      assert StillKnown(clock, trace, history, w);
    }
  }

  lemma NothingRecorded(clock: int)
    ensures Recorded(clock, [], [])
  {
    forall w ensures StillKnown(clock, [], [], w) {
      assert LastOf([], w) == None;
    }
  }

  lemma FromFewer(trace: seq<Happening>, history: seq<RJob>, k: nat)
    requires FromTrace(trace, history) && k < |history|
    ensures FromTrace(trace, Drop(history, k))
  {
    hide LastOf;
    var less := Drop(history, k);
    forall m {:trigger less[m]} | 0 <= m < |less| ensures Tells(LastOf(trace, less[m].what), less[m]) {
      assert less[m] == history[if m < k then m else m + 1];
    }
  }

  /** Something happens to a response that is not, or no longer, in the history, and does not put it there. */
  lemma RecordedGone(clock: int, trace: seq<Happening>, before: seq<RJob>, after: seq<RJob>, h: Happening)
    requires Recorded(clock, trace, before) && OnlyRemoves(before, after, h.what) && h.what !in Whats(after)
    requires h.time == clock && !WentToHistory(h)
    ensures Recorded(clock, trace + [h], after)
  {
    var more := trace + [h];
    InOrderMore(clock, trace, h);
    AfterRemoval(trace, before, after, h.what);
    WhatsIn(after, h.what);
    hide Whats, LastOf, OnlyRemoves, InOrder;
    forall v ensures StillKnown(clock, more, after, v) {
      assert StillKnown(clock, trace, before, v);
      LastOfMore(trace, h, v);
    }
    hide StillKnown;
    forall m {:trigger after[m]} | 0 <= m < |after| ensures Tells(LastOf(more, after[m].what), after[m]) {
      LastOfMore(trace, h, after[m].what);
    }
  }

  lemma AfterRemoval(trace: seq<Happening>, before: seq<RJob>, after: seq<RJob>, w: Ident)
    requires FromTrace(trace, before) && OnlyRemoves(before, after, w)
    ensures FromTrace(trace, after) && forall v :: v != w && v in Whats(before) ==> v in Whats(after)
  {
    hide LastOf;
    if after != before {
      var k :| 0 <= k < |before| && before[k].what == w && after == Drop(before, k);
      FromFewer(trace, before, k);
      WhatsDrop(before, k);
    }
  }

  /** Of a list, a job for w is gone, or nothing. */
  ghost predicate OnlyRemoves(before: seq<RJob>, after: seq<RJob>, w: Ident) {
    after == before || exists i :: 0 <= i < |before| && before[i].what == w && after == Drop(before, i)
  }

  lemma OthersRemoved(before: seq<RJob>, after: seq<RJob>, w: Ident)
    requires OnlyRemoves(before, after, w)
    ensures Others(after, w) == Others(before, w)
  {
    if after != before {
      var i :| 0 <= i < |before| && before[i].what == w && after == Drop(before, i);
      OthersDrop(before, i);
    }
  }

  lemma LabelledMore(s: seq<RJob>, j: RJob)
    requires Labelled(s) && j.what == Id(j.info.record)
    ensures Labelled([j] + s)
  {
    hide Id;
  }

  lemma LabelledFewer(s: seq<RJob>, k: nat)
    requires Labelled(s) && k < |s|
    ensures Labelled(Drop(s, k))
  {
    hide Id;
  }

  lemma LabelledSame(s: seq<RJob>, k: nat, j: RJob)
    requires Labelled(s) && k < |s| && j.what == Id(j.info.record)
    ensures Labelled(s[k := j])
  {
    hide Id;
  }

  lemma OnceUpdate(jobs: seq<RJob>, history: seq<RJob>, k: nat, j: RJob)
    requires Once(jobs, history)
    ensures k < |jobs| && j.what == jobs[k].what ==> Once(jobs[k := j], history) && Whats(jobs[k := j]) == Whats(jobs)
    ensures k < |history| && j.what == history[k].what ==>
              Once(jobs, history[k := j]) && Whats(history[k := j]) == Whats(history)
  {
    if k < |jobs| && j.what == jobs[k].what {
      WhatsUpdate(jobs, k, j);
      hide Whats;
      forall w: Ident ensures Whats(jobs[k := j])[w] + Whats(history)[w] <= 1 {
        assert Whats(jobs)[w] + Whats(history)[w] <= 1;
      }
    }
    if k < |history| && j.what == history[k].what {
      WhatsUpdate(history, k, j);
      hide Whats;
      forall w: Ident ensures Whats(jobs)[w] + Whats(history[k := j])[w] <= 1 {
        assert Whats(jobs)[w] + Whats(history)[w] <= 1;
      }
    }
  }

  class Responses {
    var jobs: seq<RJob>
    var history: seq<RJob>
    var suppressed: seq<KJob>
    var clock: int
    ghost var trace: seq<Happening>

    ghost predicate Lists()
      reads this
    {
      && Once(jobs, history) && Waiting(jobs) && Kept(HISTORY, history) && Past(clock, history)
      && Labelled(jobs) && Labelled(history) && Recorded(clock, trace, history)
    }

    /** The state of every job names its list, no response is in two places, and the history tells what happened
        last. */
    ghost predicate Valid()
      reads this
    {
      Lists() && KnownOK(clock, suppressed)
    }

    constructor (clock: int)
      ensures Valid() && jobs == history == [] && suppressed == [] && trace == [] && this.clock == clock
    {
      jobs, history, suppressed, trace := [], [], [], [];
      this.clock := clock;
      NothingRecorded(clock);
    }

    /** job_mark_done: after a send, because somebody else has answered, or because it is too large. */
    method MarkDone(k: nat, ghost h: Happening)
      requires Valid() && k < |jobs|
      requires WentToHistory(h) && h.what == jobs[k].what && h.time == clock && KeptReply(h) == jobs[k].info
      modifies `jobs, `history, `trace
      ensures Valid() && jobs == Drop(old(jobs), k) && old(jobs)[k].what !in Whats(jobs)
      ensures history == [old(jobs)[k].(done := true, delivery := clock, timer := clock + 500_000)] + old(history)
      ensures trace == old(trace) + [h]
    {
      hide Once, Waiting, Kept, Past, Labelled, Recorded, Drop, Id, KnownOK, Whats;
      var j := jobs[k].(done := true, delivery := clock, timer := clock + HISTORY);
      WaitingAt(k);
      JobIsOnlyThere(k);
      OnceMoved(jobs, history, k, j);
      LessWaiting(jobs, k);
      MoreHistory(HISTORY, clock, history, j);
      LabelledFewer(jobs, k);
      LabelledMore(history, j);
      RecordedMore(clock, trace, history, j, h);
      jobs, history, trace := Drop(jobs, k), [j] + history, trace + [h];
    }

    /** A waiting job is not in the history, nor a second time in the list. */
    lemma JobIsOnlyThere(k: nat)
      requires Lists() && k < |jobs|
      ensures jobs[k].what !in Whats(history) && jobs[k].what !in Whats(Drop(jobs, k)) && jobs[k].what in Whats(jobs)
    {
      hide Waiting, Kept, Past, Labelled, Recorded, Drop, Whats;
      WhatsDrop(jobs, k);
      assert Whats(jobs)[jobs[k].what] + Whats(history)[jobs[k].what] <= 1;
    }

    /** job_free for a waiting job. */
    method DropJob(k: nat)
      requires Valid() && k < |jobs|
      modifies `jobs
      ensures Valid() && jobs == Drop(old(jobs), k) && old(jobs)[k].what !in Whats(jobs)
    {
      hide Once, Waiting, Kept, Past, Labelled, Recorded, Drop, Id, KnownOK, Whats;
      JobIsOnlyThere(k);
      OnceFewer(jobs, history, k);
      LessWaiting(jobs, k);
      LabelledFewer(jobs, k);
      jobs := Drop(jobs, k);
    }

    /** job_free for a job of the history whose window has passed. */
    method DropHistory(k: nat)
      requires Valid() && k < |history| && clock >= history[k].delivery + HISTORY
      modifies `history
      ensures Valid() && history == Drop(old(history), k) && old(history)[k].what !in Whats(history)
    {
      hide Once, Waiting, Kept, Past, Labelled, Recorded, Drop, Id, KnownOK, Whats;
      OutOfHistory(k);
      RecordedOutdated(clock, trace, history, k);
      history := Drop(history, k);
    }

    /** What removing a job of the history keeps. */
    lemma OutOfHistory(k: nat)
      requires Lists() && k < |history|
      ensures var h := Drop(history, k);
              && Once(jobs, h) && Kept(HISTORY, h) && Past(clock, h) && Labelled(h)
              && history[k].what !in Whats(h) && OnlyRemoves(history, h, history[k].what)
    {
      hide Waiting, Kept, Past, Labelled, Recorded, Drop, Id, Whats;
      WhatsDrop(history, k);
      assert Whats(jobs)[history[k].what] + Whats(history)[history[k].what] <= 1;
      hide Once;
      OnceFewer(jobs, history, k);
      LessHistory(HISTORY, clock, history, k);
      LabelledFewer(history, k);
    }

    /** A post for w is accepted, and what the history knew of w is removed. */
    method Accept(w: Ident, h: Option<nat>)
      requires Valid() && (h.Some? ==> h.value < |history| && history[h.value].what == w)
      requires h.None? ==> w !in Whats(history)
      modifies `history, `trace
      ensures Valid() && w !in Whats(history) && OnlyRemoves(old(history), history, w)
      ensures h.None? ==> history == old(history)
      ensures trace == old(trace) + [Accepted(w, clock)]
    {
      hide Once, Waiting, Kept, Past, Labelled, Recorded, Drop, Id, KnownOK, Whats;
      ghost var before := history;
      if h.Some? {
        OutOfHistory(h.value);
        RecordedGone(clock, trace, before, Drop(before, h.value), Accepted(w, clock));
        history, trace := Drop(history, h.value), trace + [Accepted(w, clock)];
      } else {
        RecordedGone(clock, trace, before, before, Accepted(w, clock));
        trace := trace + [Accepted(w, clock)];
      }
    }

    /** job_new for a waiting job. */
    method Enlist(info: Reply, delivery: int)
      requires Valid() && Id(info.record) !in Whats(jobs) && Id(info.record) !in Whats(history)
      modifies `jobs
      ensures Valid() && jobs == [Job(Id(info.record), false, delivery, delivery, info)] + old(jobs)
    {
      hide Once, Waiting, Kept, Past, Labelled, Recorded, Id, KnownOK, Whats;
      var j := Job(Id(info.record), false, delivery, delivery, info);
      OnceNew(jobs, history, j);
      MoreWaiting(jobs, j);
      LabelledMore(jobs, j);
      jobs := [j] + jobs;
    }

    /** job_new for a job of the history: somebody else's response is remembered. */
    method EnlistDone(info: Reply)
      requires Valid() && Id(info.record) !in Whats(jobs) && Id(info.record) !in Whats(history)
      modifies `history, `trace
      ensures Valid() && history == [Job(Id(info.record), true, clock, clock + HISTORY, info)] + old(history)
      ensures trace == old(trace) + [Heard(Id(info.record), clock, info, info)]
    {
      hide Once, Waiting, Kept, Past, Labelled, Recorded, Id, KnownOK, Whats;
      var j := Job(Id(info.record), true, clock, clock + HISTORY, info);
      OnceNew(jobs, history, j);
      MoreHistory(HISTORY, clock, history, j);
      LabelledMore(history, j);
      RecordedMore(clock, trace, history, j, Heard(j.what, clock, info, info));
      history, trace := [j] + history, trace + [Heard(j.what, clock, info, info)];
    }

    /** A waiting job changes and stays one for the same record. */
    method Amend(k: nat, j: RJob)
      requires Valid() && k < |jobs| && j.what == jobs[k].what && !j.done && j.timer == j.delivery
      requires j.what == Id(j.info.record)
      modifies `jobs
      ensures Valid() && jobs == old(jobs)[k := j] && Whats(jobs) == Whats(old(jobs))
    {
      hide Once, Waiting, Kept, Past, Labelled, Recorded, Id, KnownOK, Whats;
      OnceUpdate(jobs, history, k, j);
      SameWaiting(jobs, k, j);
      LabelledSame(jobs, k, j);
      jobs := jobs[k := j];
    }

    /** A job of the history is given another full window: somebody else's response takes its place. */
    method Renew(k: nat, info: Reply)
      requires Valid() && k < |history| && history[k].what == Id(info.record)
      modifies `history, `trace
      ensures Valid() && history == old(history)[k := Job(Id(info.record), true, clock, clock + HISTORY, info)]
      ensures trace == old(trace) + [Heard(Id(info.record), clock, info, info)]
    {
      hide Once, Waiting, Kept, Past, Labelled, Recorded, Id, KnownOK, Whats;
      var j := Job(Id(info.record), true, clock, clock + HISTORY, info);
      OnceUpdate(jobs, history, k, j);
      SameHistory(HISTORY, clock, history, k, j);
      LabelledSame(history, k, j);
      OnlyOneInHistory(k);
      RecordedAgain(clock, trace, history, k, j, Heard(j.what, clock, info, info));
      history, trace := history[k := j], trace + [Heard(j.what, clock, info, info)];
    }

    lemma OnlyOneInHistory(k: nat)
      requires Lists() && k < |history|
      ensures forall m :: 0 <= m < |history| && m != k ==> history[m].what != history[k].what
    {
      hide Once, Waiting, Kept, Past, Labelled, Recorded;
      forall m | 0 <= m < |history| && m != k ensures history[m].what != history[k].what {
        if history[m].what == history[k].what {
          OnlyOne(jobs, history, m, k);
        }
      }
    }

    /** find_scheduled_job. */
    method FindScheduled(w: Ident) returns (k: Option<nat>)
      ensures k.Some? ==> k.value < |jobs| && jobs[k.value].what == w
      ensures k.Some? ==> forall m :: 0 <= m < k.value ==> jobs[m].what != w
      ensures k.None? ==> w !in Whats(jobs)
    {
      WhatsIn(jobs, w);
      for i := 0 to |jobs|
        invariant forall j :: 0 <= j < i ==> jobs[j].what != w
      {
        if jobs[i].what == w {
          return Some(i);
        }
      }
      return None;
    }

    /** find_history_job: an outdated job is removed on the way. */
    method FindHistory(w: Ident) returns (k: Option<nat>)
      requires Valid()
      modifies `history
      ensures Valid() && OnlyRemoves(old(history), history, w)
      ensures k.Some? ==> k.value < |history| && history[k.value].what == w && history == old(history)
      ensures k.Some? ==> (clock - history[k.value].delivery) / 1000 <= 500
      ensures k.None? ==> w !in Whats(history)
      ensures k.None? ==> Outdated(old(history), clock, w)
    {
      hide Once, Waiting, Kept, Past, Labelled, Recorded, KnownOK, Drop;
      WhatsIn(history, w);
      for i := 0 to |history|
        invariant history == old(history) && forall j :: 0 <= j < i ==> history[j].what != w
      {
        if history[i].what == w {
          if (clock - history[i].delivery) / 1000 > 500 {
            OnlyOneInHistory(i);
            DropHistory(i);
            return None;
          }
          return Some(i);
        }
      }
      return None;
    }

    /** job_free for a known answer whose window has passed. */
    method DropKnown(k: nat)
      requires Valid() && k < |suppressed| && clock - suppressed[k].delivery > SUPPRESS
      modifies `suppressed
      ensures Valid() && Whats(suppressed) <= Whats(old(suppressed)) && old(suppressed)[k].what !in Whats(suppressed)
      ensures KnownOutdated(old(suppressed), clock, old(suppressed)[k].what)
    {
      hide Once, Waiting, Kept, Past, Labelled, Recorded, KnownOK, Drop, Whats;
      KnownFewer(clock, suppressed, k);
      OldestKnown(clock, suppressed, k);
      suppressed := Drop(suppressed, k);
    }

    /** find_suppressed_job: an outdated known answer is removed on the way. */
    method FindSuppressed(w: Known) returns (k: Option<nat>)
      requires Valid()
      modifies `suppressed
      ensures Valid() && Whats(suppressed) <= Whats(old(suppressed))
      ensures k.Some? ==> k.value < |suppressed| && suppressed[k.value].what == w && suppressed == old(suppressed)
      ensures k.Some? ==> clock - suppressed[k.value].delivery <= SUPPRESS
      ensures k.None? ==> w !in Whats(suppressed)
      ensures k.None? ==> KnownOutdated(old(suppressed), clock, w)
    {
      hide Once, Waiting, Kept, Past, Labelled, Recorded, KnownOK, Whats;
      WhatsIn(suppressed, w);
      for i := 0 to |suppressed|
        invariant suppressed == old(suppressed) && forall j :: 0 <= j < i ==> suppressed[j].what != w
      {
        if suppressed[i].what == w {
          if clock - suppressed[i].delivery > SUPPRESS {
            DropKnown(i);
            return None;
          }
          return Some(i);
        }
      }
      return None;
    }

    /** The first check of avahi_response_scheduler_post: the querier has the record already. */
    method KnownByQuerier(r: Rec, querier: nat) returns (yes: bool)
      requires Valid()
      modifies `suppressed
      ensures Valid() && Whats(suppressed) <= Whats(old(suppressed))
      ensures yes <==> KnownLately(old(suppressed), clock, r, querier)
    {
      hide Once, Waiting, Kept, Past, Labelled, Recorded, KnownOK, Id, Whats;
      var s := FindSuppressed(Known(Id(r), querier));
      if s.None? {
        return false;
      }
      KnownIsOne(clock, suppressed, s.value);
      return IsGoodbye(r) == IsGoodbye(suppressed[s.value].info.record)
        && suppressed[s.value].info.record.ttl >= r.ttl / 2;
    }

    /** The second check: it has been seen lately. What is found is returned for removal. */
    method SeenBefore(r: Rec, flush: bool) returns (yes: bool, h: Option<nat>)
      requires Valid()
      modifies `history
      ensures Valid() && OnlyRemoves(old(history), history, Id(r))
      ensures yes <==> SeenLately(old(history), clock, r, flush)
      ensures h.Some? ==> h.value < |history| && history[h.value].what == Id(r) && history == old(history)
      ensures h.None? ==> Id(r) !in Whats(history)
    {
      hide Once, Waiting, Kept, Past, Labelled, Recorded, KnownOK, Id, Whats, OnlyRemoves, Covers;
      h := FindHistory(Id(r));
      yes := false;
      if h.Some? {
        var seen := history[h.value].info;
        yes := IsGoodbye(r) == IsGoodbye(seen.record) && seen.record.ttl >= r.ttl / 2 && (seen.flush || !flush);
        CoversByNumber(seen, r, flush);
        OnlyOneInHistory(h.value);
      }
    }

    /** avahi_response_scheduler_post. It is refused exactly when a response that covers it was seen lately, or the
        querier said lately that it has it. */
    method Post(r: Rec, flush: bool, querier: Option<nat>, immediately: bool, jitter: nat) returns (ok: bool)
      requires Valid() && jitter <= 100_000
      modifies `jobs, `history, `suppressed, `trace
      ensures Valid() && OnlyRemoves(old(history), history, Id(r)) && Whats(suppressed) <= Whats(old(suppressed))
      ensures querier.None? ==> suppressed == old(suppressed)
      ensures !ok <==> SeenLately(old(history), clock, r, flush)
                       || (querier.Some? && KnownLately(old(suppressed), clock, r, querier.value))
      ensures !ok ==> jobs == old(jobs) && trace == old(trace)
      ensures ok ==> Id(r) !in Whats(history) && trace == old(trace) + [Accepted(Id(r), clock)]
      ensures ok ==> Scheduled(old(jobs), jobs, r, flush, querier, clock + if immediately then 0 else 20_000 + jitter)
    {
      hide Once, Waiting, Kept, Past, Labelled, Recorded, KnownOK, Id, Whats, SeenLately, KnownLately, Scheduled, Drop;
      if querier.Some? {
        var known := KnownByQuerier(r, querier.value);
        if known {
          return false;
        }
      }
      ghost var before := history;
      var seen, h := SeenBefore(r, flush);
      if seen {
        return false;
      }
      Accept(Id(r), h);
      Schedule(r, flush, querier, clock + if immediately then 0 else DEFER + jitter);
      return true;
    }

    /** The last part: a waiting response is brought forward and takes the new record, or a new one waits. */
    method Schedule(r: Rec, flush: bool, querier: Option<nat>, tv: int)
      requires Valid() && Id(r) !in Whats(history)
      modifies `jobs
      ensures Valid() && Scheduled(old(jobs), jobs, r, flush, querier, tv)
    {
      hide Once, Waiting, Kept, Past, Labelled, Recorded, KnownOK, Id, Whats;
      WhatsIn(jobs, Id(r));
      var k := FindScheduled(Id(r));
      if k.Some? {
        var j := jobs[k.value];
        WaitingAt(k.value);
        if tv < j.delivery {
          j := j.(delivery := tv, timer := tv);
        }
        var q := if querier.None? || (j.info.querier.Some? && querier != j.info.querier) then None else j.info.querier;
        j := j.(info := Reply(r, j.info.flush || flush, q));
        assert j == Updated(jobs[k.value], r, flush, querier, tv);
        Amend(k.value, j);
      } else {
        Enlist(Reply(r, flush, querier), tv);
      }
    }

    lemma WaitingAt(k: nat)
      requires Lists() && k < |jobs|
      ensures !jobs[k].done && jobs[k].timer == jobs[k].delivery && jobs[k].what == Id(jobs[k].info.record)
    {
      hide Id;
    }

    /** Somebody else's response is heard, and a job of our own goes on waiting. */
    method Overhear(k: nat, r: Rec, flush: bool)
      requires Valid() && k < |jobs| && jobs[k].what == Id(r)
      modifies `trace
      ensures Valid() && trace == old(trace) + [Overheard(Id(r), clock, Reply(r, flush, None))]
    {
      hide Once, Waiting, Kept, Past, Labelled, Recorded, KnownOK, Id, Whats;
      ghost var h := Overheard(Id(r), clock, Reply(r, flush, None));
      JobIsOnlyThere(k);
      RecordedGone(clock, trace, history, history, h);
      trace := trace + [h];
    }

    /** avahi_response_scheduler_incoming: somebody else's response stands for ours when it covers it; without one of
        ours it is remembered. When it stands for ours, it is ours that the history keeps. */
    method Incoming(r: Rec, flush: bool)
      requires Valid()
      modifies `jobs, `history, `trace
      ensures Valid() && OnlyRemoves(old(jobs), jobs, Id(r)) && Others(history, Id(r)) == Others(old(history), Id(r))
      ensures var h := HeardNow(WaitingReply(old(jobs), Id(r)), clock, r, flush);
              && trace == old(trace) + [h]
              && (h.Overheard? ==> jobs == old(jobs) && history == old(history))
              && (h.Heard? ==> Id(r) in Whats(history) && Id(r) !in Whats(jobs))
    {
      hide Once, Waiting, Kept, Past, Labelled, Recorded, KnownOK, Id, Whats, Drop, Others, WaitingReply;
      ghost var before := history;
      ghost var h := HeardNow(WaitingReply(jobs, Id(r)), clock, r, flush);
      NoneWaits(jobs, Id(r));
      var k := FindScheduled(Id(r));
      if k.Some? {
        FirstWaits(jobs, k.value);
        var j := jobs[k.value].info;
        if (!j.flush || flush) && IsGoodbye(r) == IsGoodbye(j.record) && r.ttl >= j.record.ttl / 2 {
          MarkDone(k.value, h);
          InHistoryOnly(Id(r), 0);
          OthersCons(history[0], before);
        } else {
          Overhear(k.value, r, flush);
        }
        return;
      }
      var f := FindHistory(Id(r));
      OthersRemoved(before, history, Id(r));
      ghost var found := history;
      if f.Some? {
        Renew(f.value, Reply(r, flush, None));
        InHistoryOnly(Id(r), f.value);
        OthersUpdate(found, f.value, history[f.value]);
      } else {
        EnlistDone(Reply(r, flush, None));
        InHistoryOnly(Id(r), 0);
        OthersCons(history[0], found);
      }
    }

    lemma InHistoryOnly(w: Ident, k: nat)
      requires Lists() && k < |history| && history[k].what == w
      ensures w in Whats(history) && w !in Whats(jobs)
    {
      WhatsIn(history, w);
      assert Whats(jobs)[w] + Whats(history)[w] <= 1;
    }

    /** avahi_response_scheduler_suppress: the querier has the answer already. */
    method SuppressKnown(r: Rec, querier: nat)
      requires Valid()
      modifies `jobs, `suppressed
      ensures Valid() && OnlyRemoves(old(jobs), jobs, Id(r))
      ensures Id(r) in Whats(jobs) <==> Id(r) in Whats(old(jobs)) && !Withdrawable(old(jobs), r, querier)
      ensures Whats(suppressed) <= Whats(old(suppressed)) + multiset{Known(Id(r), querier)}
      ensures IsRemembered(suppressed, r, querier, clock)
    {
      hide Once, Waiting, Kept, Past, Labelled, Recorded, KnownOK, Id, Whats, Drop, IsRemembered;
      WhatsIn(jobs, Id(r));
      var k := FindScheduled(Id(r));
      if k.Some? {
        OnlyWithdrawable(k.value, r, querier);
        var j := jobs[k.value].info;
        if j.querier == Some(querier) && IsGoodbye(r) == IsGoodbye(j.record) && r.ttl >= j.record.ttl / 2 {
          DropJob(k.value);
        }
      }
      Remember(r, querier);
    }

    lemma OnlyWithdrawable(k: nat, r: Rec, querier: nat)
      requires Lists() && k < |jobs| && jobs[k].what == Id(r)
      ensures Withdrawable(jobs, r, querier) <==>
              var j := jobs[k].info;
              j.querier == Some(querier) && IsGoodbye(r) == IsGoodbye(j.record) && r.ttl >= j.record.ttl / 2
    {
      hide Id;
      forall m | 0 <= m < |jobs| && jobs[m].what == jobs[k].what ensures m == k {
        OnlyOneJob(jobs, history, m, k);
      }
    }

    /** The known answer takes the new record and a full window; there is one for the record and the querier. */
    method Remember(r: Rec, querier: nat)
      requires Valid()
      modifies `suppressed
      ensures Valid() && IsRemembered(suppressed, r, querier, clock)
      ensures Whats(suppressed) <= Whats(old(suppressed)) + multiset{Known(Id(r), querier)}
    {
      hide Once, Waiting, Kept, Past, Labelled, Recorded, KnownOK, Id, Whats;
      var s := FindSuppressed(Known(Id(r), querier));
      var j := Job(Known(Id(r), querier), true, clock, clock + SUPPRESS, Reply(r, false, Some(querier)));
      if s.Some? {
        KnownSame(clock, suppressed, s.value, j);
        WhatsUpdate(suppressed, s.value, j);
        suppressed := suppressed[s.value := j];
        assert suppressed[s.value] == j;
      } else {
        KnownMore(clock, suppressed, j);
        WhatsCons(j, suppressed);
        suppressed := [j] + suppressed;
        assert suppressed[0] == j;
      }
    }

    /** packet_add_response_job for a record that fits: the records it refers to are posted, then it is done. The posts
        that are accepted, and no others, add jobs; no other job leaves. */
    method Send(w: Ident, aux: seq<Aux>, jitter: nat) returns (oks: seq<bool>, reply: Reply)
      requires Valid() && w in Whats(jobs) && jitter <= 100_000
      modifies `jobs, `history, `suppressed, `trace
      ensures Valid() && w in Whats(history) && |oks| == |aux|
      ensures trace == old(trace) + Acceptances(aux, oks, clock) + [Sent(w, clock, reply)]
      ensures forall x {:trigger Whats(jobs)[x]} :: x in Whats(jobs) <==>
                x != w && (x in Whats(old(jobs)) || Added(aux, oks, x))
    {
      hide Once, Waiting, Kept, Past, Labelled, Recorded, KnownOK, Id, Whats, SeenLately, KnownLately, Covers, Drop;
      hide Acceptances, Added, Scheduled, OnlyRemoves;
      oks := [];
      NoneAdded(aux[..0], oks, clock);
      assert old(trace) + [] == old(trace);
      for i := 0 to |aux|
        invariant Valid() && |oks| == i && clock == old(clock)
        invariant trace == old(trace) + Acceptances(aux[..i], oks, clock)
        invariant forall x {:trigger Whats(jobs)[x]} :: x in Whats(jobs) <==>
                    x in Whats(old(jobs)) || Added(aux[..i], oks, x)
      {
        var k := FindScheduled(w);
        ghost var before := jobs;
        var ok := Post(aux[i].record, aux[i].flush, jobs[k.value].info.querier, false, jitter);
        if ok {
          ScheduledWhats(
            before, jobs, aux[i].record, aux[i].flush, before[k.value].info.querier, clock + DEFER + jitter);
        }
        OneMoreAdded(aux, oks, i, ok, clock);
        oks := oks + [ok];
      }
      assert aux[..|aux|] == aux;
      var k := FindScheduled(w);
      reply := jobs[k.value].info;
      ghost var before := jobs;
      WhatsDrop(jobs, k.value);
      MarkDone(k.value, Sent(w, clock, reply));
      InHistoryOnly(w, 0);
      forall x {:trigger Whats(jobs)[x]} ensures x in Whats(jobs) <==> x != w && x in Whats(before) {
        assert Whats(before)[x] == Whats(jobs)[x] + multiset{w}[x];
      }
    }

    /** The branch of send_response_packet for a record that fits no packet: it is done without being sent. */
    method GiveUp(k: nat)
      requires Valid() && k < |jobs|
      modifies `jobs, `history, `trace
      ensures Valid() && jobs == Drop(old(jobs), k) && old(jobs)[k].what !in Whats(jobs)
      ensures history == [old(jobs)[k].(done := true, delivery := clock, timer := clock + 500_000)] + old(history)
      ensures trace == old(trace) + [Unsent(old(jobs)[k].what, clock, old(jobs)[k].info)]
    {
      hide Once, Waiting, Kept, Past, Labelled, Recorded, Drop, Id, KnownOK, Whats;
      MarkDone(k, Unsent(jobs[k].what, clock, jobs[k].info));
    }

    /** send_response_packet for a waiting job: with as many more from the head of the list as the packet has room for,
        alone in a larger packet, or not at all. */
    method SendPacket(k: nat, fits: bool, large: bool, room: nat, aux: Rec -> seq<Aux>, jitter: nat) returns (n: nat)
      requires Valid() && k < |jobs| && jitter <= 100_000
      modifies `jobs, `history, `suppressed, `trace
      ensures Valid() && old(trace) <= trace && n == CountSent(trace) - CountSent(old(trace))
      ensures fits ==> 1 <= n <= room + 1 && (n == room + 1 || jobs == [])
      ensures !fits && large ==> n == 1
      ensures !fits && !large ==>
                n == 0 && jobs == Drop(old(jobs), k)
                && trace == old(trace) + [Unsent(old(jobs)[k].what, clock, old(jobs)[k].info)]
    {
      hide Once, Waiting, Kept, Past, Labelled, Recorded, KnownOK, Id, Whats, Drop, Acceptances, Added, CountSent;
      ghost var start := trace;
      InJobs(k);
      if !fits && !large {
        CountMore(trace, Unsent(jobs[k].what, clock, jobs[k].info));
        GiveUp(k);
        return 0;
      }
      var w, record := jobs[k].what, jobs[k].info.record;
      var oks, reply := Send(w, aux(record), jitter);
      CountAcceptances(start, aux(record), oks, clock);
      CountMore(start + Acceptances(aux(record), oks, clock), Sent(w, clock, reply));
      n := 1;
      while fits && jobs != [] && n <= room
        invariant Valid() && start <= trace && 1 <= n && (fits ==> n <= room + 1) && (!fits ==> n == 1)
        invariant n == CountSent(trace) - CountSent(start)
        decreases room + 1 - n
      {
        ghost var before := trace;
        InJobs(0);
        w, record := jobs[0].what, jobs[0].info.record;
        oks, reply := Send(w, aux(record), jitter);
        CountAcceptances(before, aux(record), oks, clock);
        CountMore(before + Acceptances(aux(record), oks, clock), Sent(w, clock, reply));
        n := n + 1;
      }
    }

    lemma InJobs(k: nat)
      requires k < |jobs|
      ensures jobs[k].what in Whats(jobs)
    {
      WhatsIn(jobs, jobs[k].what);
    }

    /** Time passes. */
    method Tick(now: int)
      requires Valid() && clock <= now
      modifies `clock
      ensures Valid() && clock == now
    {
      hide Once, Labelled, KnownLabelled;
      RecordedLater(clock, now, trace, history);
      hide Recorded;
      clock := now;
    }

    /** elapse_callback for a job of the history. */
    method Forget(k: nat)
      requires Valid() && k < |history| && history[k].timer <= clock
      modifies `history
      ensures Valid() && history == Drop(old(history), k)
    {
      DropHistory(k);
    }
  }

  /** A waiting response that is asked for once more, for time tv. */
  function Updated(j: RJob, r: Rec, flush: bool, querier: Option<nat>, tv: int): RJob {
    (if tv < j.delivery then j.(delivery := tv, timer := tv) else j).(
      info := Reply(r, j.info.flush || flush,
                    if querier.None? || (j.info.querier.Some? && querier != j.info.querier) then None
                    else j.info.querier))
  }

  /** A response that covers this one was seen at most half a second ago, counted in milliseconds. */
  predicate SeenLately(history: seq<RJob>, clock: int, r: Rec, flush: bool) {
    exists k :: 0 <= k < |history| && history[k].what == Id(r) && (clock - history[k].delivery) / 1000 <= 500
                && Covers(history[k].info, r, flush)
  }

  /** The querier said lately that it has the record, with at least half its TTL. */
  predicate KnownLately(suppressed: seq<KJob>, clock: int, r: Rec, querier: nat) {
    exists k :: 0 <= k < |suppressed| && suppressed[k].what == Known(Id(r), querier)
                && clock - suppressed[k].delivery <= 700_000 && Has(suppressed[k].info.record, r)
  }

  /** The history has nothing of w, or nothing recent. */
  predicate Outdated(history: seq<RJob>, clock: int, w: Ident) {
    forall k {:trigger history[k]} :: 0 <= k < |history| && history[k].what == w ==>
      (clock - history[k].delivery) / 1000 > 500
  }

  predicate KnownOutdated(suppressed: seq<KJob>, clock: int, w: Known) {
    forall k {:trigger suppressed[k]} :: 0 <= k < |suppressed| && suppressed[k].what == w ==>
      clock - suppressed[k].delivery > SUPPRESS
  }

  /** The known answer holds this very record, from now on. */
  predicate IsRemembered(suppressed: seq<KJob>, r: Rec, querier: nat, clock: int) {
    Job(Known(Id(r), querier), true, clock, clock + 700_000, Reply(r, false, Some(querier))) in suppressed
  }

  /** One more job waits, or the one that waited for the record takes over what was asked for. */
  ghost predicate Scheduled(before: seq<RJob>, after: seq<RJob>, r: Rec, flush: bool, querier: Option<nat>, tv: int) {
    if Id(r) !in Whats(before) then after == [Job(Id(r), false, tv, tv, Reply(r, flush, querier))] + before
    else exists k :: 0 <= k < |before| && before[k].what == Id(r)
                     && after == before[k := Updated(before[k], r, flush, querier, tv)]
  }

  lemma ScheduledWhats(before: seq<RJob>, after: seq<RJob>, r: Rec, flush: bool, querier: Option<nat>, tv: int)
    requires Scheduled(before, after, r, flush, querier, tv)
    ensures forall x {:trigger Whats(after)[x]} :: x in Whats(after) <==> x in Whats(before) || x == Id(r)
  {
    hide Id;
    if Id(r) !in Whats(before) {
      WhatsCons(after[0], before);
    } else {
      var k :| 0 <= k < |before| && before[k].what == Id(r)
        && after == before[k := Updated(before[k], r, flush, querier, tv)];
      WhatsUpdate(before, k, Updated(before[k], r, flush, querier, tv));
    }
  }

  /** A record makes another one needless for somebody who has it. */
  predicate Has(known: Rec, r: Rec) {
    IsGoodbye(r) == IsGoodbye(known) && known.ttl >= r.ttl / 2
  }

  /** A waiting response was asked for by a querier that has the answer. */
  predicate Withdrawable(jobs: seq<RJob>, r: Rec, querier: nat) {
    exists k :: 0 <= k < |jobs| && jobs[k].what == Id(r) && jobs[k].info.querier == Some(querier)
                && IsGoodbye(r) == IsGoodbye(jobs[k].info.record) && r.ttl >= jobs[k].info.record.ttl / 2
  }

  /** A record to send along, and whether it is unique. */
  datatype Aux = Aux(record: Rec, flush: bool)

  /** The posts among the auxiliary records that were accepted. */
  function Acceptances(aux: seq<Aux>, oks: seq<bool>, time: int): seq<Happening>
    requires |oks| == |aux|
  {
    if aux == [] then [] else
    var n := |aux| - 1;
    Acceptances(aux[..n], oks[..n], time) + if oks[n] then [Accepted(Id(aux[n].record), time)] else []
  }

  /** How many responses this host has sent. */
  function CountSent(trace: seq<Happening>): nat {
    if trace == [] then 0 else CountSent(trace[..|trace| - 1]) + if trace[|trace| - 1].Sent? then 1 else 0
  }

  lemma CountMore(trace: seq<Happening>, h: Happening)
    ensures CountSent(trace + [h]) == CountSent(trace) + if h.Sent? then 1 else 0
  {
    assert (trace + [h])[..|trace|] == trace;
  }

  lemma {:induction false} CountAcceptances(trace: seq<Happening>, aux: seq<Aux>, oks: seq<bool>, time: int)
    requires |oks| == |aux|
    ensures CountSent(trace + Acceptances(aux, oks, time)) == CountSent(trace)
    decreases |aux|
  {
    hide Id, CountSent;
    if aux == [] {
      assert trace + [] == trace;
    } else {
      var n := |aux| - 1;
      CountAcceptances(trace, aux[..n], oks[..n], time);
      CountOneMore(trace, Acceptances(aux[..n], oks[..n], time), Accepted(Id(aux[n].record), time));
    }
  }

  lemma CountOneMore(trace: seq<Happening>, more: seq<Happening>, h: Happening)
    requires h.Accepted?
    ensures CountSent(trace + (more + [h])) == CountSent(trace + more) && more + [] == more
  {
    CountMore(trace + more, h);
    hide CountSent;
    assert trace + (more + [h]) == trace + more + [h];
  }

  predicate Added(aux: seq<Aux>, oks: seq<bool>, x: Ident)
    requires |oks| == |aux|
  {
    exists i :: 0 <= i < |aux| && oks[i] && Id(aux[i].record) == x
  }

  lemma NoneAdded(aux: seq<Aux>, oks: seq<bool>, time: int)
    requires aux == [] && oks == []
    ensures Acceptances(aux, oks, time) == [] && forall x :: !Added(aux, oks, x)
  {
  }

  lemma OneMoreAdded(aux: seq<Aux>, oks: seq<bool>, i: nat, ok: bool, time: int)
    requires i < |aux| && |oks| == i
    ensures Acceptances(aux[..i + 1], oks + [ok], time) ==
            Acceptances(aux[..i], oks, time) + if ok then [Accepted(Id(aux[i].record), time)] else []
    ensures forall x :: Added(aux[..i + 1], oks + [ok], x) <==>
              Added(aux[..i], oks, x) || (ok && x == Id(aux[i].record))
  {
    hide Id;
    var a, o := aux[..i + 1], oks + [ok];
    assert a[..i] == aux[..i] && o[..i] == oks;
    forall x ensures Added(a, o, x) <==> Added(aux[..i], oks, x) || (ok && x == Id(aux[i].record)) {
      if Added(aux[..i], oks, x) {
        var m :| 0 <= m < i && oks[m] && Id(aux[m].record) == x;
        assert o[m] && Id(a[m].record) == x;
      }
      assert o[i] == ok && a[i] == aux[i];
    }
  }

  /** A foreign response makes the waiting one needless. */
  predicate StandsFor(waiting: Reply, r: Rec, flush: bool) {
    (!waiting.flush || flush) && IsGoodbye(r) == IsGoodbye(waiting.record) && r.ttl >= waiting.record.ttl / 2
  }

  /** The response for w that waits, if any. */
  function WaitingReply(jobs: seq<RJob>, w: Ident): Option<Reply> {
    if jobs == [] then None else if jobs[0].what == w then Some(jobs[0].info) else WaitingReply(jobs[1..], w)
  }

  lemma {:induction false} FirstWaits(jobs: seq<RJob>, k: nat)
    requires k < |jobs| && forall m :: 0 <= m < k ==> jobs[m].what != jobs[k].what
    ensures WaitingReply(jobs, jobs[k].what) == Some(jobs[k].info)
  {
    if k > 0 {
      assert jobs[1..][k - 1] == jobs[k];
      FirstWaits(jobs[1..], k - 1);
    }
  }

  lemma {:induction false} NoneWaits(jobs: seq<RJob>, w: Ident)
    ensures WaitingReply(jobs, w).None? <==> w !in Whats(jobs)
  {
    if jobs != [] {
      NoneWaits(jobs[1..], w);
    }
  }

  /** What it means that somebody else's response is heard: the history keeps the one that waits if that is stood for,
      nothing if it is not, and what was heard if none waits. */
  function HeardNow(waiting: Option<Reply>, clock: int, r: Rec, flush: bool): Happening {
    var wire := Reply(r, flush, None);
    if waiting.None? then Heard(Id(r), clock, wire, wire)
    else if StandsFor(waiting.value, r, flush) then Heard(Id(r), clock, wire, waiting.value)
    else Overheard(Id(r), clock, wire)
  }

  lemma TwiceIsTwo<I, P>(s: seq<Job<I, P>>, m: nat, k: nat)
    requires m < k < |s| && s[m].what == s[k].what
    ensures Whats(s)[s[k].what] >= 2
  {
    WhatsDrop(s, k);
    assert Drop(s, k)[m] == s[m];
    WhatsIn(Drop(s, k), s[k].what);
  }

  lemma OnlyOne(jobs: seq<RJob>, history: seq<RJob>, m: nat, k: nat)
    requires Once(jobs, history) && m < |history| && k < |history| && history[m].what == history[k].what
    ensures m == k
  {
    assert Whats(jobs)[history[k].what] + Whats(history)[history[k].what] <= 1;
    if m < k {
      TwiceIsTwo(history, m, k);
    } else if k < m {
      TwiceIsTwo(history, k, m);
    }
  }

  lemma OnlyOneJob(jobs: seq<RJob>, history: seq<RJob>, m: nat, k: nat)
    requires Once(jobs, history) && m < |jobs| && k < |jobs| && jobs[m].what == jobs[k].what
    ensures m == k
  {
    assert Whats(jobs)[jobs[k].what] + Whats(history)[jobs[k].what] <= 1;
    if m < k {
      TwiceIsTwo(jobs, m, k);
    } else if k < m {
      TwiceIsTwo(jobs, k, m);
    }
  }

  lemma KnownIsOne(clock: int, s: seq<KJob>, k: nat)
    requires KnownOK(clock, s) && k < |s|
    ensures forall m :: 0 <= m < |s| && m != k ==> s[m].what != s[k].what
  {
    hide Kept, Past, KnownLabelled;
    var none: seq<KJob> := [];
    assert Whats(s)[s[k].what] + Whats(none)[s[k].what] <= 1;
    hide Once, Whats;
    forall m | 0 <= m < |s| && m != k ensures s[m].what != s[k].what {
      if s[m].what == s[k].what && m < k {
        TwiceIsTwo(s, m, k);
      } else if s[m].what == s[k].what {
        TwiceIsTwo(s, k, m);
      }
    }
  }

  lemma KnownFewer(clock: int, s: seq<KJob>, k: nat)
    requires KnownOK(clock, s) && k < |s|
    ensures KnownOK(clock, Drop(s, k)) && s[k].what !in Whats(Drop(s, k)) && Whats(Drop(s, k)) <= Whats(s)
  {
    hide Kept, Past, KnownLabelled, Drop, Whats;
    var none: seq<KJob> := [];
    WhatsDrop(s, k);
    assert Whats(s)[s[k].what] + Whats(none)[s[k].what] <= 1;
    hide Once;
    OnceFewer(s, none, k);
    LessHistory(SUPPRESS, clock, s, k);
    KnownLabelledFewer(s, k);
  }

  lemma OldestKnown(clock: int, s: seq<KJob>, k: nat)
    requires KnownOK(clock, s) && k < |s| && clock - s[k].delivery > SUPPRESS
    ensures KnownOutdated(s, clock, s[k].what)
  {
    KnownIsOne(clock, s, k);
  }

  lemma KnownLabelledFewer(s: seq<KJob>, k: nat)
    requires KnownLabelled(s) && k < |s|
    ensures KnownLabelled(Drop(s, k))
  {
    hide Id;
  }

  lemma KnownMore(clock: int, s: seq<KJob>, j: KJob)
    requires KnownOK(clock, s) && j.done && j.timer == j.delivery + SUPPRESS && j.delivery <= clock
    requires j.info.querier == Some(j.what.querier) && j.what.what == Id(j.info.record)
    ensures j.what !in Whats(s) ==> KnownOK(clock, [j] + s)
  {
    var none: seq<KJob> := [];
    assert j.what !in Whats(none);
    hide Id, Once, Whats, Kept, Past, KnownLabelled;
    if j.what !in Whats(s) {
      OnceNew(s, none, j);
      MoreHistory(SUPPRESS, clock, s, j);
      KnownLabelledMore(s, j);
    }
  }

  lemma KnownLabelledMore(s: seq<KJob>, j: KJob)
    requires KnownLabelled(s) && j.info.querier == Some(j.what.querier) && j.what.what == Id(j.info.record)
    ensures KnownLabelled([j] + s)
  {
    hide Id;
  }

  lemma KnownSame(clock: int, s: seq<KJob>, k: nat, j: KJob)
    requires KnownOK(clock, s) && j.done && j.timer == j.delivery + SUPPRESS && j.delivery <= clock
    requires j.info.querier == Some(j.what.querier) && j.what.what == Id(j.info.record)
    requires k < |s| && s[k].what == j.what
    ensures KnownOK(clock, s[k := j])
  {
    hide Id;
    var none: seq<KJob> := [];
    WhatsUpdate(s, k, j);
    hide Whats;
    forall w: Known ensures Whats(s[k := j])[w] + Whats(none)[w] <= 1 {
      assert Whats(s)[w] + Whats(none)[w] <= 1;
    }
    hide Once;
    SameHistory(SUPPRESS, clock, s, k, j);
  }

  // ---------- The half second ----------

  /** Entry i of the trace is the last appearance of its response. */
  predicate LastAppearance(trace: seq<Happening>, i: nat) {
    && i < |trace| && Appeared(trace[i])
    && forall j :: i < j < |trace| && trace[j].what == trace[i].what ==> !Appeared(trace[j])
  }

  /** Nothing has happened to the response after entry i. */
  predicate NoneSince(trace: seq<Happening>, i: nat)
    requires i < |trace|
  {
    forall j :: i < j < |trace| ==> trace[j].what != trace[i].what
  }

  lemma {:induction false} LastIsThat(trace: seq<Happening>, clock: int, i: nat)
    requires LastAppearance(trace, i) && InOrder(clock, trace)
    ensures var l := LastOf(trace, trace[i].what);
            && l.Some? && trace[i].time <= l.value.time <= clock && l.value.what == trace[i].what
            && if NoneSince(trace, i) then l.value == trace[i] else l.value.Accepted? || l.value.Unsent?
    decreases |trace|
  {
    var n := |trace| - 1;
    var before := trace[..n];
    if i < n && trace[n].what != trace[i].what {
      assert before[i] == trace[i];
      LastIsThat(before, clock, i);
      assert NoneSince(trace, i) <==> NoneSince(before, i) by {
        assert forall j :: 0 <= j < n ==> before[j] == trace[j];
      }
    }
  }

  /** What the history knows of a response is exactly the last thing that happened to it: if that went to the history,
      its reply and its time, for half a second at least; and nothing otherwise. */
  lemma RememberedExactly(s: Responses, w: Ident)
    requires s.Valid()
    ensures var l := LastOf(s.trace, w);
            && (w in Whats(s.history) ==> l.Some? && WentToHistory(l.value))
            && (l.Some? && WentToHistory(l.value) && s.clock - l.value.time < 500_000 ==> w in Whats(s.history))
            && forall k {:trigger s.history[k]} :: 0 <= k < |s.history| && s.history[k].what == w ==>
                 Tells(l, s.history[k])
  {
    hide Once, Waiting, Kept, Past, Labelled, KnownOK, Whats, LastOf, InOrder;
    WhatsIn(s.history, w);
    assert StillKnown(s.clock, s.trace, s.history, w);
  }

  /** So a post is taken for needless if and only if the last thing that happened to its response went to the history,
      and the reply that was kept then covers the post. */
  lemma DecidedByTheLast(s: Responses, r: Rec, flush: bool)
    requires s.Valid()
    ensures var l := LastOf(s.trace, Id(r));
            && (SeenLately(s.history, s.clock, r, flush) ==>
                  l.Some? && WentToHistory(l.value) && Covers(KeptReply(l.value), r, flush))
            && (l.Some? && WentToHistory(l.value) && s.clock - l.value.time < 500_000 ==>
                  (SeenLately(s.history, s.clock, r, flush) <==> Covers(KeptReply(l.value), r, flush)))
  {
    RememberedExactly(s, Id(r));
    hide Once, Waiting, Kept, Past, Labelled, KnownOK, Recorded, Whats, LastOf, Id, Covers;
    WhatsIn(s.history, Id(r));
    if k :| 0 <= k < |s.history| && s.history[k].what == Id(r) && s.clock - s.history[k].delivery < HISTORY {
      assert (s.clock - s.history[k].delivery) / 1000 <= 500;
    }
  }

  /** Of a response that appeared less than half a second ago, and not since, a post is taken for needless if and only
      if that appearance went to the history, nothing has happened to the response since, and the reply that was kept
      covers the post; or a later post was accepted, was too large to be sent, and covers it. That what appeared covers
      the post is neither enough nor needed. */
  lemma CoveredAgain(s: Responses, i: nat, r: Rec, flush: bool)
    requires s.Valid() && LastAppearance(s.trace, i) && s.clock - s.trace[i].time < 500_000 && s.trace[i].what == Id(r)
    ensures var h, l := s.trace[i], LastOf(s.trace, Id(r));
            SeenLately(s.history, s.clock, r, flush) <==>
            if NoneSince(s.trace, i) then WentToHistory(h) && Covers(KeptReply(h), r, flush)
            else l.Some? && l.value.Unsent? && Covers(l.value.kept, r, flush)
  {
    assert InOrder(s.clock, s.trace);
    hide Once, Waiting, Kept, Past, Labelled, KnownOK, Recorded, Whats, NoneSince, LastAppearance, LastOf, Id, Covers;
    hide SeenLately, InOrder;
    LastIsThat(s.trace, s.clock, i);
    DecidedByTheLast(s, r, flush);
  }

  lemma NothingSeen(clock: int, r: Rec, flush: bool, querier: nat)
    ensures !SeenLately([], clock, r, flush) && !KnownLately([], clock, r, querier)
    ensures !SeenLately([Job(Id(r), true, 0, HISTORY, Reply(r, false, None))], clock, r, true)
    ensures Whats<Known, Reply>([]) == multiset{} && Id(r) !in Whats<Ident, Reply>([])
  {
    hide Id;
  }

  lemma NotKnownTo(suppressed: seq<KJob>, clock: int, r: Rec, querier: nat)
    requires Known(Id(r), querier) !in Whats(suppressed)
    ensures !KnownLately(suppressed, clock, r, querier)
  {
    hide Id;
    WhatsIn(suppressed, Known(Id(r), querier));
  }

  lemma TheOneIsGone(x: RJob, after: seq<RJob>)
    requires OnlyRemoves([x], after, x.what) && x.what !in Whats(after)
    ensures after == []
  {
  }

  lemma AskedBy(x: RJob, r: Rec, querier: nat)
    requires x.what == Id(r) && x.info.record == r && x.info.querier == Some(querier)
    ensures Withdrawable([x], r, querier) && x.what in Whats([x])
  {
    hide Id;
    assert [x][0] == x;
  }

  /** A response that was asked for and sent at time 0. */
  method SentAtZero(r: Rec) returns (s: Responses)
    ensures fresh(s) && s.Valid() && s.clock == 0 && s.jobs == [] && s.suppressed == []
    ensures s.history == [Job(Id(r), true, 0, HISTORY, Reply(r, false, None))]
    ensures s.trace == [Accepted(Id(r), 0), Sent(Id(r), 0, Reply(r, false, None))]
  {
    hide Once, Waiting, Kept, Past, Labelled, Recorded, KnownOK, Id, SeenLately, KnownLately, Whats;
    s := new Responses(0);
    NothingSeen(0, r, false, 0);
    var ok := s.Post(r, false, None, true, 0);
    s.MarkDone(0, Sent(Id(r), 0, Reply(r, false, None)));
  }

  /** Ten milliseconds later the cache-flush bit is wanted by querier 1, which then says that it has the record. */
  method AskedAndWithdrawn(s: Responses, r: Rec)
    requires s.Valid() && s.clock == 0 && s.jobs == [] && s.suppressed == []
    requires s.history == [Job(Id(r), true, 0, HISTORY, Reply(r, false, None))]
    modifies s
    ensures s.Valid() && s.clock == 10_000 && s.history == [] && s.jobs == []
    ensures Whats(s.suppressed) <= multiset{Known(Id(r), 1)} && s.trace == old(s.trace) + [Accepted(Id(r), 10_000)]
  {
    hide Once, Waiting, Kept, Past, Labelled, Recorded, KnownOK, Id, SeenLately, KnownLately, Whats;
    hide Withdrawable, OnlyRemoves;
    s.Tick(10_000);
    NothingSeen(10_000, r, true, 1);
    ghost var sent := s.history[0];
    var ok := s.Post(r, true, Some(1), true, 0);
    TheOneIsGone(sent, s.history);
    ghost var asked := s.jobs[0];
    assert s.jobs == [asked];
    AskedBy(asked, r, 1);
    s.SuppressKnown(r, 1);
    TheOneIsGone(asked, s.jobs);
  }

  /** The half second is not kept: a response that was sent at time 0, and nothing of it since, is accepted again at 20
      ms although what was sent covers it, because the post at 10 ms has been accepted and withdrawn in between. */
  method AppearanceForgotten(r: Rec) returns (s: Responses, again: bool)
    ensures fresh(s) && s.Valid() && s.clock == 20_000 && again
    ensures s.trace == [Accepted(Id(r), 0), Sent(Id(r), 0, Reply(r, false, None)),
                        Accepted(Id(r), 10_000), Accepted(Id(r), 20_000)]
    ensures LastAppearance(s.trace, 1) && Covers(s.trace[1].reply, r, false)
    ensures s.jobs == [Job(Id(r), false, 20_000, 20_000, Reply(r, false, Some(2)))]
  {
    hide Once, Waiting, Kept, Past, Labelled, Recorded, KnownOK, Id, SeenLately, KnownLately, Whats;
    hide OnlyRemoves;
    s := SentAtZero(r);
    AskedAndWithdrawn(s, r);
    s.Tick(20_000);
    NothingSeen(20_000, r, false, 2);
    NotKnownTo(s.suppressed, 20_000, r, 2);
    again := s.Post(r, false, Some(2), true, 0);
  }

  /** Nor is it kept without an accepted post in between: somebody else's response with the cache-flush bit stands for a
      waiting one without it, the history keeps ours, and a post with the bit is accepted at the same time. */
  method ForeignForgotten(r: Rec) returns (s: Responses, again: bool)
    ensures fresh(s) && s.Valid() && s.clock == 0 && again
    ensures s.trace == [Accepted(Id(r), 0), Heard(Id(r), 0, Reply(r, true, None), Reply(r, false, None)),
                        Accepted(Id(r), 0)]
    ensures LastAppearance(s.trace, 1) && Covers(s.trace[1].reply, r, true)
  {
    hide Once, Waiting, Kept, Past, Labelled, Recorded, KnownOK, Id, SeenLately, KnownLately, Whats, OnlyRemoves;
    s := new Responses(0);
    NothingSeen(0, r, false, 0);
    var ok := s.Post(r, false, None, true, 0);
    FirstWaits(s.jobs, 0);
    s.Incoming(r, true);
    ghost var heard := Heard(Id(r), 0, Reply(r, true, None), Reply(r, false, None));
    LastOfMore([Accepted(Id(r), 0)], heard, Id(r));
    DecidedByTheLast(s, r, true);
    again := s.Post(r, true, None, true, 0);
  }

  /** Nor when a waiting one is not stood for: what is heard leaves no trace in the history, the waiting one is
      withdrawn by a known answer, and a post that was covered all along is accepted. */
  method OverheardForgotten(r: Rec) returns (s: Responses, again: bool)
    ensures fresh(s) && s.Valid() && s.clock == 0 && again
    ensures s.trace == [Accepted(Id(r), 0), Overheard(Id(r), 0, Reply(r, false, None)), Accepted(Id(r), 0)]
    ensures LastAppearance(s.trace, 1) && Covers(s.trace[1].reply, r, false)
  {
    hide Once, Waiting, Kept, Past, Labelled, Recorded, KnownOK, Id, SeenLately, KnownLately, Whats, OnlyRemoves;
    hide Withdrawable;
    s := new Responses(0);
    NothingSeen(0, r, true, 1);
    var ok := s.Post(r, true, Some(1), true, 0);
    FirstWaits(s.jobs, 0);
    s.Incoming(r, false);
    s.SuppressKnown(r, 1);
    LastOfMore([Accepted(Id(r), 0)], Overheard(Id(r), 0, Reply(r, false, None)), Id(r));
    DecidedByTheLast(s, r, false);
    NotKnownTo(s.suppressed, 0, r, 2);
    again := s.Post(r, false, Some(2), true, 0);
  }

  /** And a post is refused although nothing appeared: the one before was too large to be sent. */
  method RefusedUnsent(r: Rec) returns (s: Responses, again: bool)
    ensures fresh(s) && s.Valid() && s.clock == 0 && !again
    ensures s.trace == [Accepted(Id(r), 0), Unsent(Id(r), 0, Reply(r, false, None))]
  {
    hide Once, Waiting, Kept, Past, Labelled, Recorded, KnownOK, Id, KnownLately, Whats, OnlyRemoves;
    s := new Responses(0);
    NothingSeen(0, r, false, 0);
    var ok := s.Post(r, false, None, true, 0);
    s.GiveUp(0);
    assert s.history[0].what == Id(r) && Covers(s.history[0].info, r, false);
    again := s.Post(r, false, None, true, 0);
  }

  /** A response that was sent does not stop a post of more than twice its TTL at the same time. */
  method HalfTheTtlIsTooLittle(r: Rec, q: Rec) returns (s: Responses, again: bool)
    requires Id(q) == Id(r) && q.ttl > 2 * r.ttl + 1
    ensures fresh(s) && s.Valid() && s.clock == 0 && again
    ensures s.trace == [Accepted(Id(r), 0), Sent(Id(r), 0, Reply(r, false, None)), Accepted(Id(r), 0)]
  {
    CoversByNumber(Reply(r, false, None), q, false);
    hide Once, Waiting, Kept, Past, Labelled, Recorded, KnownOK, Id, SeenLately, KnownLately, Whats, Covers;
    s := SentAtZero(r);
    LastOfMore([Accepted(Id(r), 0)], Sent(Id(r), 0, Reply(r, false, None)), Id(r));
    DecidedByTheLast(s, q, false);
    again := s.Post(q, false, None, true, 0);
  }
}
