/** avahi-core/cache.c: the life of one cache entry. Times are in microseconds. */
module CacheLife {
  import opened Bytes
  import opened Records
  import opened Identity

  const SECOND := 1_000_000
  const PERCENT := 10_000 // of a time to live given in seconds

  datatype State = Valid | Expiry1 | Expiry2 | Expiry3 | ExpiryFinal | Poof | PoofFinal | GoodbyeFinal | ReplaceFinal

  /** Timers counts the timers that elapsed since the last refresh, and counted holds the times of the queries counted
      since the entry last entered POOF. */
  datatype CacheEntry = CacheEntry(
    record: Rec, timestamp: int, expiry: int, cacheFlush: bool, state: State,
    origin: nat, poofAddress: nat, poofTimestamp: int, poofNum: nat, timers: nat, counted: seq<int>)

  /** The random part of next_expiry stays below two percent of the time to live. */
  predicate InJitter(r: Rec, jitter: nat) {
    jitter < 2 * PERCENT * r.ttl
  }

  /** These are the values that a random number last, out of range many, can lead to, and no others. */
  lemma JitterOfRandom(r: Rec, last: nat, range: nat)
    requires last < range && r.ttl > 0
    ensures InJitter(r, 20_000 * r.ttl * last / range)
  {
    PartIsLess(20_000 * r.ttl, last, range);
  }

  lemma RandomOfJitter(r: Rec, jitter: nat) returns (last: nat, range: nat)
    requires InJitter(r, jitter)
    ensures last < range && jitter == 20_000 * r.ttl * last / range
  {
    last, range := jitter, 20_000 * r.ttl;
    AllOfIt(range, jitter);
  }

  lemma PartIsLess(n: nat, last: nat, range: nat)
    requires last < range && n > 0
    ensures n * last / range < n
  {
    assert n * last < n * range;
    var q := n * last / range;
    assert q * range <= n * last;
  }

  lemma AllOfIt(n: nat, k: nat)
    requires n > 0
    ensures n * k / n == k
  {
    var q, rest := n * k / n, n * k % n;
    assert n * k == n * q + rest;
    MoreTimes(n, q, k);
    MoreTimes(n, k, q);
  }

  lemma MoreTimes(n: nat, a: nat, b: nat)
    ensures a < b ==> n * a + n <= n * b
  {
    if a < b {
      var more: nat := b - a - 1;
      assert n * b == n * a + n + n * more;
    }
  }

  /** next_expiry. */
  function Planned(e: CacheEntry, percent: nat, jitter: nat): CacheEntry {
    e.(expiry := e.timestamp + e.record.ttl * PERCENT * percent + jitter)
  }

  /** expire_in_one_second. */
  function ExpireSoon(e: CacheEntry, state: State, now: int): CacheEntry {
    e.(state := state, expiry := now + SECOND)
  }

  predicate IsFinal(s: State) {
    s == ExpiryFinal || s == PoofFinal || s == GoodbyeFinal || s == ReplaceFinal
  }

  function NextState(s: State): State
    requires !IsFinal(s)
  {
    match s
    case Valid => Expiry1
    case Poof => Expiry1
    case Expiry1 => Expiry2
    case Expiry2 => Expiry3
    case Expiry3 => ExpiryFinal
  }

  /** The percentage of the time to live at which an entry in this state is looked at. */
  function PercentOf(s: State): nat {
    match s
    case Valid => 80
    case Poof => 80
    case Expiry1 => 85
    case Expiry2 => 90
    case Expiry3 => 95
    case _ => 100
  }

  /** elapse_func: None when the entry is removed. */
  function Elapsed(e: CacheEntry, jitter: nat): Option<CacheEntry> {
    if IsFinal(e.state) then None else
    var s := NextState(e.state);
    Some(Planned(e.(state := s, timers := e.timers + 1), PercentOf(s), jitter))
  }

  /** The last part of avahi_cache_update, for a new entry as for an old one. */
  function Refreshed(e: CacheEntry, r: Rec, flush: bool, address: nat, now: int, jitter: nat): CacheEntry {
    Planned(e.(record := r, origin := address, timestamp := now, timers := 0), 80, jitter)
      .(state := Valid, cacheFlush := flush)
  }

  /** start_poof_callback. */
  function PoofStarted(e: CacheEntry, address: nat, now: int): CacheEntry {
    match e.state
    case Valid => e.(state := Poof, poofAddress := address, poofTimestamp := now, poofNum := 0, counted := [now])
    case Poof =>
      if now - e.poofTimestamp < SECOND then e else
      var f := e.(poofTimestamp := now, poofAddress := address, poofNum := e.poofNum + 1, counted := e.counted + [now]);
      if f.poofNum > 3 then ExpireSoon(f, PoofFinal, now) else f
    case _ => e
  }

  /** The end of avahi_cache_stop_poof. */
  function PoofStopped(e: CacheEntry, address: nat, jitter: nat): CacheEntry {
    if (e.state == Poof || e.state == PoofFinal) && address == e.poofAddress
    then Planned(e.(state := Valid), 80, jitter) else e
  }

  // ---------- The invariant ----------

  /** Counted queries are at least a second apart. */
  predicate Spread(times: seq<int>) {
    forall i {:trigger times[i]} :: 0 < i < |times| ==> times[i] - times[i - 1] >= SECOND
  }

  /** How many timers have elapsed in a state that was reached by them alone. */
  predicate TimersOK(e: CacheEntry) {
    match e.state
    case Valid => e.timers == 0
    case Poof => e.timers == 0
    case PoofFinal => e.timers == 0
    case Expiry1 => e.timers == 1
    case Expiry2 => e.timers == 2
    case Expiry3 => e.timers == 3
    case ExpiryFinal => e.timers == 4
    case _ => e.timers <= 4
  }

  /** The planned time lies less than two percent after the mark of the state. */
  predicate Planning(e: CacheEntry) {
    e.state == PoofFinal || e.state == GoodbyeFinal || e.state == ReplaceFinal ||
    (var mark := e.timestamp + e.record.ttl * PERCENT * PercentOf(e.state);
     mark <= e.expiry < mark + 2 * PERCENT * e.record.ttl)
  }

  predicate PoofOK(e: CacheEntry) {
    e.state == Poof || e.state == PoofFinal ==>
      && |e.counted| == e.poofNum + 1 && Spread(e.counted) && e.counted[e.poofNum] == e.poofTimestamp
      && (e.state == Poof ==> e.poofNum <= 3) && (e.state == PoofFinal ==> e.poofNum == 4)
  }

  predicate LifeOK(e: CacheEntry) {
    e.record.ttl > 0 && TimersOK(e) && Planning(e) && PoofOK(e)
  }

  lemma ElapsedKeeps(e: CacheEntry, jitter: nat)
    requires LifeOK(e) && InJitter(e.record, jitter)
    ensures Elapsed(e, jitter).Some? ==> LifeOK(Elapsed(e, jitter).value)
  {
  }

  lemma RefreshedKeeps(e: CacheEntry, r: Rec, flush: bool, address: nat, now: int, jitter: nat)
    requires r.ttl > 0 && InJitter(r, jitter)
    ensures LifeOK(Refreshed(e, r, flush, address, now, jitter))
  {
  }

  lemma ExpireSoonKeeps(e: CacheEntry, state: State, now: int)
    requires LifeOK(e) && (state == GoodbyeFinal || state == ReplaceFinal)
    ensures LifeOK(ExpireSoon(e, state, now))
  {
  }

  lemma PoofStartedKeeps(e: CacheEntry, address: nat, now: int)
    requires LifeOK(e)
    ensures LifeOK(PoofStarted(e, address, now))
  {
  }

  lemma PoofStoppedKeeps(e: CacheEntry, address: nat, jitter: nat)
    requires LifeOK(e) && InJitter(e.record, jitter)
    ensures LifeOK(PoofStopped(e, address, jitter))
  {
  }

  // ---------- Lifetime ----------

  /** Each planned time lies strictly after the one before. */
  lemma PlannedTimesIncrease(e: CacheEntry, jitter: nat)
    requires LifeOK(e) && InJitter(e.record, jitter) && Elapsed(e, jitter).Some?
    ensures Elapsed(e, jitter).value.expiry > e.expiry
  {
  }

  /** What can happen to an entry between two refreshes. */
  datatype Event =
    | Timer(jitter: nat)
    | Goodbye(now: int)
    | Replaced(now: int)
    | Queried(address: nat, now: int)
    | Answered(address: nat, jitter: nat)

  function Step(e: CacheEntry, ev: Event): Option<CacheEntry> {
    match ev
    case Timer(j) => Elapsed(e, j)
    case Goodbye(now) => Some(ExpireSoon(e, GoodbyeFinal, now))
    case Replaced(now) => Some(ExpireSoon(e, ReplaceFinal, now))
    case Queried(a, now) => Some(PoofStarted(e, a, now))
    case Answered(a, j) => Some(PoofStopped(e, a, j))
  }

  predicate Possible(r: Rec, ev: Event) {
    (ev.Timer? || ev.Answered?) ==> InJitter(r, ev.jitter)
  }

  /** The entry after some events, None once it has been removed. */
  function Run(e: CacheEntry, evs: seq<Event>): Option<CacheEntry>
    decreases |evs|
  {
    if evs == [] then Some(e) else
    var d := Run(e, evs[..|evs| - 1]);
    if d.None? then None else Step(d.value, evs[|evs| - 1])
  }

  function TimersIn(evs: seq<Event>): nat {
    if evs == [] then 0 else TimersIn(evs[..|evs| - 1]) + if evs[|evs| - 1].Timer? then 1 else 0
  }

  lemma StepKeeps(e: CacheEntry, ev: Event)
    requires LifeOK(e) && Possible(e.record, ev)
    ensures Step(e, ev).Some? ==>
              var f := Step(e, ev).value;
              LifeOK(f) && f.record == e.record && f.timestamp == e.timestamp
              && f.timers == e.timers + if ev.Timer? then 1 else 0
  {
    match ev
    case Timer(j) => ElapsedKeeps(e, j);
    case Goodbye(now) => ExpireSoonKeeps(e, GoodbyeFinal, now);
    case Replaced(now) => ExpireSoonKeeps(e, ReplaceFinal, now);
    case Queried(a, now) => PoofStartedKeeps(e, a, now);
    case Answered(a, j) => PoofStoppedKeeps(e, a, j);
  }

  lemma {:induction false} RunKeeps(e: CacheEntry, evs: seq<Event>)
    requires LifeOK(e) && forall i :: 0 <= i < |evs| ==> Possible(e.record, evs[i])
    ensures Run(e, evs).Some? ==>
              var f := Run(e, evs).value;
              LifeOK(f) && f.record == e.record && f.timestamp == e.timestamp && f.timers == e.timers + TimersIn(evs)
    decreases |evs|
  {
    hide LifeOK, Step, Possible;
    if evs != [] {
      var d := Run(e, evs[..|evs| - 1]);
      RunKeeps(e, evs[..|evs| - 1]);
      if d.Some? {
        StepKeeps(d.value, evs[|evs| - 1]);
      }
    }
  }

  /** When an entry is looked at next: after a refresh at 80 percent of its time to live, then at 85, 90, 95 and 100
      percent, and the jitter later. */
  lemma NextLook(e: CacheEntry, r: Rec, flush: bool, address: nat, now: int, jitter: nat)
    ensures 100 * (Refreshed(e, r, flush, address, now, jitter).expiry - now - jitter) == 80 * (r.ttl * 1_000_000)
    ensures Elapsed(e, jitter).Some? ==>
              100 * (Elapsed(e, jitter).value.expiry - e.timestamp - jitter) ==
              (match e.state case Expiry1 => 90 case Expiry2 => 95 case Expiry3 => 100 case _ => 85)
              * (e.record.ttl * 1_000_000)
  {
  }

  /** Whatever happens to a refreshed entry short of another refresh, its fifth timer removes it at the latest. */
  lemma FifthTimerRemoves(e: CacheEntry, evs: seq<Event>)
    requires LifeOK(e) && e.timers == 0 && forall i :: 0 <= i < |evs| ==> Possible(e.record, evs[i])
    requires TimersIn(evs) >= 5
    ensures Run(e, evs) == None
  {
    RunKeeps(e, evs);
  }

  /** That many percent of the time to live, which is in seconds, have passed, and not two percent more. */
  predicate Due(e: CacheEntry, percent: nat, time: int) {
    percent * 1_000_000 * e.record.ttl <= 100 * (time - e.timestamp) < (percent + 2) * 1_000_000 * e.record.ttl
  }

  function StateAfter(timers: nat): State {
    match timers case 0 => Valid case 1 => Expiry1 case 2 => Expiry2 case 3 => Expiry3 case _ => ExpiryFinal
  }

  /** Left alone, a refreshed entry is looked at 80, 85, 90, 95 and 100 percent into its time to live, each less than
      two percent late, and goes at the last of these times. */
  lemma {:induction false} Schedule(e: CacheEntry, evs: seq<Event>)
    requires LifeOK(e) && e.state == Valid && |evs| <= 4
    requires forall i :: 0 <= i < |evs| ==> evs[i].Timer? && Possible(e.record, evs[i])
    ensures var f := Run(e, evs);
            && f.Some? && f.value.state == StateAfter(|evs|) && Due(e, 80 + 5 * |evs|, f.value.expiry)
            && f.value.record == e.record && f.value.timestamp == e.timestamp
    decreases |evs|
  {
    RunKeeps(e, evs);
    hide LifeOK, TimersOK, Planning, PoofOK, Possible;
    if evs != [] {
      Schedule(e, evs[..|evs| - 1]);
    }
    WindowOf(e, Run(e, evs).value, |evs|);
  }

  lemma WindowOf(e: CacheEntry, f: CacheEntry, k: nat)
    requires LifeOK(f) && k <= 4 && f.state == StateAfter(k) && f.record == e.record && f.timestamp == e.timestamp
    ensures Due(e, 80 + 5 * k, f.expiry)
  {
    assert PercentOf(f.state) == 80 + 5 * k;
  }

  /** An entry is given up on by passive observation only at the fifth counted query, four seconds after the first. */
  lemma PoofTakesFourSeconds(e: CacheEntry)
    requires LifeOK(e) && e.state == PoofFinal
    ensures |e.counted| == 5 && Spread(e.counted) && e.counted[4] - e.counted[0] >= 4 * SECOND
  {
  }

  // ---------- One second ----------

  /** A goodbye, a record that replaces it, or the counted query that makes the entry be given up, at time t. */
  predicate Condemns(e: CacheEntry, ev: Event, t: int) {
    || ev == Goodbye(t) || ev == Replaced(t)
    || (ev.Queried? && ev.now == t && e.state != PoofFinal && PoofStarted(e, ev.address, t).state == PoofFinal)
  }

  /** What does not change it any more: queries, and answers unless it is given up for want of one. */
  predicate Harmless(e: CacheEntry, ev: Event) {
    ev.Queried? || (ev.Answered? && e.state != PoofFinal)
  }

  /** Condemned at time t, an entry is planned to go one second later (sections 10.1 and 10.2 of RFC 6762), whatever
      queries and answers follow, and the timer then removes it. */
  lemma {:induction false} GoneInOneSecond(e: CacheEntry, ev: Event, t: int, evs: seq<Event>, jitter: nat)
    requires Condemns(e, ev, t)
    requires forall i :: 0 <= i < |evs| ==> Harmless(Step(e, ev).value, evs[i])
    ensures Step(e, ev).Some?
    ensures var f := Run(Step(e, ev).value, evs);
            && f == Step(e, ev) && f.value.expiry == t + 1_000_000 && f.value.record == e.record
            && Step(f.value, Timer(jitter)) == None
    decreases |evs|
  {
    if evs != [] {
      GoneInOneSecond(e, ev, t, evs[..|evs| - 1], jitter);
    }
  }

  /** A query is counted when the entry is valid, or when a second or more has passed since the last one that was; the
      fifth one condemns it, and any other leaves the planned time as it is. */
  lemma QueryCounts(e: CacheEntry, address: nat, t: int)
    requires LifeOK(e)
    ensures var f := PoofStarted(e, address, t);
            var counts := e.state == Valid || (e.state == Poof && t - e.counted[|e.counted| - 1] >= 1_000_000);
            && (!counts ==> f == e)
            && (counts ==> f.poofAddress == address
                           && f.counted == (if e.state == Valid then [] else e.counted) + [t]
                           && f.state == (if |f.counted| == 5 then PoofFinal else Poof)
                           && f.expiry == if |f.counted| == 5 then t + 1_000_000 else e.expiry)
  {
  }

  /** An answer to the query from the same address makes the entry valid again, planned for 80 to 82 percent of its time
      to live after its last refresh; no other answer changes anything. */
  lemma AnswerRevives(e: CacheEntry, address: nat, jitter: nat)
    requires LifeOK(e) && InJitter(e.record, jitter)
    ensures var f := PoofStopped(e, address, jitter);
            if (e.state == Poof || e.state == PoofFinal) && address == e.poofAddress
            then f.state == Valid && 100 * (f.expiry - e.timestamp) >= 80 * 1_000_000 * e.record.ttl
                 && 100 * (f.expiry - e.timestamp) < 82 * 1_000_000 * e.record.ttl
            else f == e
  {
  }
}
