/** The methods of avahi-core/cache.c in their imperative form. */
module CacheStore {
  import opened Bytes
  import opened Records
  import opened NameRelations
  import opened Identity
  import opened CacheLife
  import opened Cache
  import opened Lists
  import CacheTable
  import HashTable

  class Store {
    const max: nat
    var entries: seq<nat>
    var nEntries: nat
    var store: map<nat, CacheEntry>
    const table: CacheTable.Chained
    var notices: seq<Notice>

    ghost function Now(): Contents
      reads this, table
    {
      Contents(entries, nEntries, store, table.table, notices)
    }

    /** The list, the chains in the buckets of the hash table and the notices describe the same set, and the size limit
        holds. */
    ghost predicate Agreed()
      reads this, table, table.buckets, table.buckets.buckets
    {
      table.Valid() && Agrees(Now()) && nEntries <= max
    }

    constructor (max: nat)
      ensures Agreed() && Now() == Contents([], 0, map[], map[], []) && this.max == max
      ensures fresh(table) && fresh(table.buckets) && fresh(table.buckets.buckets)
    {
      this.max := max;
      entries, nEntries, store, notices := [], 0, map[], [];
      table := new CacheTable.Chained();
    }

    /** lookup_key. */
    method LookupKey(k: HashTable.DomainKey) returns (chain: seq<nat>)
      requires Agreed()
      ensures chain == ChainOf(Now(), ClassOf(k))
    {
      hide Agrees, CacheTable.Chained.Valid, ClassOf;
      var found := table.Lookup(k);
      chain := if found.None? then [] else found.value;
    }

    /** remove_entry. */
    method RemoveEntry(x: nat)
      requires Agreed() && x in store
      modifies `entries, `nEntries, `store, `notices, table, table.buckets, table.buckets.buckets
      ensures old(nEntries) >= 1 && Now() == Removed(old(Now()), x) && Agreed()
    {
      hide Agrees, Without, ClassOf, ChainOf, CacheTable.Chained.Valid;
      RemovedKeeps(Now(), x);
      var e := store[x];
      SameKeyInChain(Now(), KeyOf(e), x);
      var t := LookupKey(e.record.key);
      t := Without(t, x);
      if t != [] && t[0] in store {
        table.Replace(store[t[0]].record.key, t);
      } else {
        table.Remove(e.record.key);
      }
      entries := Without(entries, x);
      notices := notices + [Notice(false, e.record)];
      store := store - {x};
      nEntries := nEntries - 1;
    }

    lemma SameKeyInChain(c: Contents, k: KeyClass, x: nat)
      requires Agrees(c)
      ensures forall y :: y in Without(ChainOf(c, k), x) && y in c.store ==> KeyOf(c.store[y]) == k
    {
      ChainNoDup(c, k);
      WithoutMembers(ChainOf(c, k), x);
      hide ListOK, IndexOK, UniqueOK, NoticesOK, LivesOK, KeyOf, Without;
      if k in c.table {
        assert SlotOK(c, k, c.table[k]);
      }
    }

    /** avahi_cache_flush. */
    method Flush()
      requires Agreed()
      modifies `entries, `nEntries, `store, `notices, table, table.buckets, table.buckets.buckets
      ensures Agreed() && entries == [] && store == map[] && table.table == map[] && nEntries == 0
    {
      while entries != []
        invariant Agreed()
        decreases nEntries
      {
        FirstIsStored(Now());
        hide Agrees;
        RemoveEntry(entries[0]);
      }
      EmptyList(Now());
    }

    lemma FirstIsStored(c: Contents)
      requires Agrees(c) && c.entries != []
      ensures c.entries[0] in c.store
    {
      hide TableOK, IndexOK, UniqueOK, NoticesOK, LivesOK;
    }

    lemma EmptyList(c: Contents)
      requires Agrees(c) && c.entries == []
      ensures c.store == map[] && c.table == map[] && c.nEntries == 0
    {
      hide IndexOK, UniqueOK, NoticesOK, LivesOK;
      assert forall x :: x !in c.store;
      forall k | k in c.table ensures c.table[k].chain != [] && c.table[k].chain[0] in c.store {
        assert SlotOK(c, k, c.table[k]);
        assert c.table[k].chain[0] in c.table[k].chain;
      }
    }

    /** lookup_record: the cached entry equal to r, ignoring TTL. */
    method LookupRecord(r: Rec) returns (found: Option<nat>)
      requires Agreed()
      ensures found.Some? <==> Cached(Now(), Id(r))
      ensures found.Some? ==> found.value in store && Id(store[found.value].record) == Id(r)
    {
      hide Agrees, ChainOf, Id, ClassOf, SameRecord;
      var chain := LookupKey(r.key);
      ChainInStore(Now(), ClassOf(r.key));
      for i := 0 to |chain|
        invariant forall k {:trigger chain[k]} :: 0 <= k < i ==> Id(store[chain[k]].record) != Id(r)
      {
        SameRecordSameId(store[chain[i]].record, r);
        if SameRecord(store[chain[i]].record, r) {
          return Some(chain[i]);
        }
      }
      NotInChain(Now(), r);
      return None;
    }

    lemma ChainInStore(c: Contents, k: KeyClass)
      requires Agrees(c)
      ensures forall x :: x in ChainOf(c, k) ==> x in c.store
    {
      hide ListOK, IndexOK, UniqueOK, NoticesOK, LivesOK, KeyOf, NoDup;
      if k in c.table {
        assert SlotOK(c, k, c.table[k]);
      }
    }

    /** A record that is not in the chain of its key is not cached at all. */
    lemma NotInChain(c: Contents, r: Rec)
      requires Agrees(c)
      requires forall x :: x in ChainOf(c, ClassOf(r.key)) && x in c.store ==> Id(c.store[x].record) != Id(r)
      ensures !Cached(c, Id(r))
    {
      hide ListOK, TableOK, UniqueOK, NoticesOK, LivesOK, ClassOf, DataClassOf;
      forall x | x in c.store ensures Id(c.store[x].record) != Id(r) {
        assert x in ChainOf(c, KeyOf(c.store[x]));
      }
    }

    /** elapse_func. */
    method Elapse(x: nat, jitter: nat)
      requires Agreed() && x in store && InJitter(store[x].record, jitter)
      modifies `entries, `nEntries, `store, `notices, table, table.buckets, table.buckets.buckets
      ensures Agreed()
      ensures var e := Elapsed(old(store)[x], jitter);
              if e.None? then old(nEntries) >= 1 && Now() == Removed(old(Now()), x)
              else Now() == old(Now()).(store := old(store)[x := e.value])
    {
      hide Agrees, Removed;
      var e := store[x];
      if IsFinal(e.state) {
        RemoveEntry(x);
      } else {
        OneLife(Now(), x);
        ElapsedKeeps(e, jitter);
        OneTouched(Now(), x, Elapsed(e, jitter).value);
        var s := CacheLife.NextState(e.state);
        store := store[x := Planned(e.(state := s, timers := e.timers + 1), PercentOf(s), jitter)];
      }
    }

    lemma OneLife(c: Contents, x: nat)
      requires Agrees(c) && x in c.store
      ensures LifeOK(c.store[x])
    {
      hide ListOK, TableOK, IndexOK, UniqueOK, NoticesOK;
    }

    lemma OneTouched(c: Contents, x: nat, e: CacheEntry)
      requires Agrees(c) && x in c.store && e.record == c.store[x].record && LifeOK(e)
      ensures Agrees(c.(store := c.store[x := e]))
    {
      hide ListOK, TableOK, IndexOK, UniqueOK, NoticesOK, LifeOK;
      assert LivesOK(c.(store := c.store[x := e]));
      hide LivesOK;
      TouchedKeeps(c, c.store[x := e]);
    }

    lemma NextInWalk(walk: seq<nat>, i: nat)
      requires NoDup(walk) && i < |walk|
      ensures walk[i] !in walk[..i] && forall x :: x in walk[..i + 1] <==> x in walk[..i] || x == walk[i]
    {
      assert walk[..i + 1] == walk[..i] + [walk[i]];
    }

    /** The first loop of avahi_cache_update, over one chain. */
    method FlushChain(chain: seq<nat>, now: int)
      requires NoDup(chain) && forall x :: x in chain ==> x in store
      modifies `store
      ensures store == map x | x in old(store) :: if x in chain && now - old(store)[x].timestamp > SECOND
                                                  then ExpireSoon(old(store)[x], ReplaceFinal, now) else old(store)[x]
    {
      hide ExpireSoon, NoDup;
      for i := 0 to |chain|
        invariant store.Keys == old(store).Keys
        invariant forall x {:trigger store[x]} :: x in store ==>
                    store[x] == if x in chain[..i] && now - old(store)[x].timestamp > SECOND
                                then ExpireSoon(old(store)[x], ReplaceFinal, now) else old(store)[x]
      {
        var e := store[chain[i]];
        NextInWalk(chain, i);
        if now - e.timestamp > SECOND {
          store := store[chain[i] := ExpireSoon(e, ReplaceFinal, now)];
        }
      }
      assert chain[..|chain|] == chain;
    }

    method FlushKey(key: HashTable.DomainKey, now: int)
      requires Agreed()
      modifies `store
      ensures store == Flushed(old(Now()), ClassOf(key), now) && Agreed()
    {
      hide Agrees, ChainOf, ExpireSoon, NoDup, ClassOf;
      FlushedKeeps(Now(), ClassOf(key), now);
      ChainInStore(Now(), ClassOf(key));
      ChainNoDup(Now(), ClassOf(key));
      var chain := LookupKey(key);
      FlushChain(chain, now);
    }

    lemma ChainNoDup(c: Contents, k: KeyClass)
      requires Agrees(c)
      ensures NoDup(ChainOf(c, k))
    {
      hide ListOK, IndexOK, UniqueOK, NoticesOK, LivesOK, KeyOf;
      if k in c.table {
        assert SlotOK(c, k, c.table[k]);
      }
    }

    /** avahi_cache_update for a goodbye record. */
    method Goodbye(r: Rec, now: int) returns (y: Option<nat>)
      requires Agreed()
      modifies `store
      ensures y.Some? <==> Cached(old(Now()), Id(r))
      ensures y.Some? ==> y.value in old(store) && Id(old(store)[y.value].record) == Id(r)
      ensures store == if y.None? then old(store)
                       else old(store)[y.value := ExpireSoon(old(store)[y.value], GoodbyeFinal, now)]
      ensures y.Some? ==> store[y.value].state == GoodbyeFinal && store[y.value].expiry == now + 1_000_000
      ensures Agreed()
    {
      hide Agrees, Cached, Id;
      y := LookupRecord(r);
      if y.Some? {
        OneLife(Now(), y.value);
        ExpireSoonKeeps(store[y.value], GoodbyeFinal, now);
        OneTouched(Now(), y.value, ExpireSoon(store[y.value], GoodbyeFinal, now));
        store := store[y.value := ExpireSoon(store[y.value], GoodbyeFinal, now)];
      }
    }

    /** The branch of avahi_cache_update for a record that is cached. */
    method Refresh(y: nat, r: Rec, flush: bool, address: nat, now: int, jitter: nat)
      requires Agreed() && r.ttl > 0 && InJitter(r, jitter) && y in store && Id(store[y].record) == Id(r)
      modifies `store, table, table.buckets, table.buckets.buckets
      ensures Now() == Changed(old(Now()), y, Refreshed(old(store)[y], r, flush, address, now, jitter)) && Agreed()
    {
      hide Agrees, Id, ClassOf, Refreshed, LifeOK, InJitter;
      var e := Refreshed(store[y], r, flush, address, now, jitter);
      RefreshedKeeps(store[y], r, flush, address, now, jitter);
      RefreshedRecord(store[y], r, flush, address, now, jitter);
      ChangedKeeps(Now(), y, e);
      var chain := LookupKey(r.key);
      if chain != [] && chain[0] == y {
        table.Replace(r.key, chain);
      }
      store := store[y := e];
    }

    lemma RefreshedRecord(e: CacheEntry, r: Rec, flush: bool, address: nat, now: int, jitter: nat)
      ensures var f := Refreshed(e, r, flush, address, now, jitter);
              f.record == r && f.state == CacheLife.Valid && f.timestamp == now && f.cacheFlush == flush
              && f.origin == address
    {
    }

    /** The branch for a record that is not. */
    method Create(x: nat, r: Rec, flush: bool, address: nat, now: int, jitter: nat)
      requires Agreed() && r.ttl > 0 && InJitter(r, jitter) && x !in store && !Cached(Now(), Id(r)) && nEntries < max
      modifies `entries, `nEntries, `store, `notices, table, table.buckets, table.buckets.buckets
      ensures Now() == Inserted(old(Now()), x, Refreshed(Blank(r), r, flush, address, now, jitter)) && Agreed()
    {
      hide Agrees, Cached, Id, ClassOf, ChainOf, Refreshed, LifeOK, InJitter;
      var e := Refreshed(Blank(r), r, flush, address, now, jitter);
      RefreshedKeeps(Blank(r), r, flush, address, now, jitter);
      RefreshedRecord(Blank(r), r, flush, address, now, jitter);
      InsertedKeeps(Now(), x, e);
      var first := LookupKey(r.key);
      table.Replace(r.key, [x] + first);
      entries := [x] + entries;
      nEntries := nEntries + 1;
      notices := notices + [Notice(true, r)];
      store := store[x := e];
    }

    /** avahi_cache_update, once old entries have been flushed. */
    method Learn(r: Rec, flush: bool, address: nat, now: int, jitter: nat, x: nat) returns (y: Option<nat>)
      requires Agreed() && r.ttl > 0 && InJitter(r, jitter) && x !in store
      modifies `entries, `nEntries, `store, `notices, table, table.buckets, table.buckets.buckets
      ensures Agreed()
      ensures y.Some? <==> Cached(old(Now()), Id(r)) || old(nEntries) < max
      ensures y.Some? ==> y.value in store && IsNow(store[y.value], r, flush, address, now)
      ensures y.Some? ==> (y.value in old(store) <==> Cached(old(Now()), Id(r)))
      ensures store == if y.Some? && y.value in store then old(store)[y.value := store[y.value]] else old(store)
      ensures notices == if Cached(old(Now()), Id(r)) || y.None? then old(notices) else old(notices) + [Notice(true, r)]
    {
      hide Agrees, Cached, Id, ClassOf, ChainOf, Refreshed, LifeOK, InJitter;
      y := LookupRecord(r);
      if y.Some? {
        RefreshedRecord(store[y.value], r, flush, address, now, jitter);
        Refresh(y.value, r, flush, address, now, jitter);
      } else if nEntries < max {
        RefreshedRecord(Blank(r), r, flush, address, now, jitter);
        Create(x, r, flush, address, now, jitter);
        y := Some(x);
      }
    }

    /** avahi_cache_update. */
    method Update(r: Rec, flush: bool, address: nat, now: int, jitter: nat, x: nat) returns (y: Option<nat>)
      requires Agreed() && x !in store && (r.ttl > 0 ==> InJitter(r, jitter))
      modifies `entries, `nEntries, `store, `notices, table, table.buckets, table.buckets.buckets
      ensures Agreed() && nEntries <= max
      ensures r.ttl > 0 ==> (y.Some? <==> Cached(old(Now()), Id(r)) || old(nEntries) < max)
      ensures r.ttl > 0 && y.Some? ==>
                y.value in store && IsNow(store[y.value], r, flush, address, now) && Cached(Now(), Id(r))
      ensures r.ttl > 0 && y.Some? ==> (y.value in old(store) <==> Cached(old(Now()), Id(r)))
      ensures r.ttl > 0 ==>
                notices == if Cached(old(Now()), Id(r)) || y.None? then old(notices)
                           else old(notices) + [Notice(true, r)]
      ensures r.ttl == 0 ==> (y.Some? <==> Cached(old(Now()), Id(r)))
      ensures r.ttl == 0 && y.Some? ==> y.value in old(store) && Id(old(store)[y.value].record) == Id(r)
      ensures r.ttl == 0 ==>
                Now() == old(Now()).(store :=
                  if y.None? then old(store)
                  else old(store)[y.value := ExpireSoon(old(store)[y.value], GoodbyeFinal, now)])
      ensures r.ttl == 0 && y.Some? ==>
                y.value in store && store[y.value].state == GoodbyeFinal && store[y.value].expiry == now + 1_000_000
      ensures r.ttl > 0 ==> forall z {:trigger store[z]} :: z in old(store) && Some(z) != y ==>
                z in store && store[z] == if flush then Flushed(old(Now()), ClassOf(r.key), now)[z] else old(store)[z]
    {
      hide Agrees, Cached, Id, ClassOf, Flushed, LifeOK;
      if r.ttl == 0 {
        y := Goodbye(r, now);
        return;
      }
      ghost var c := Now();
      FlushedRecords(c, ClassOf(r.key), now);
      if flush {
        FlushKey(r.key, now);
        StillCached(c, Now(), Id(r));
      }
      y := Learn(r, flush, address, now, jitter, x);
      if y.Some? {
        IsCached(Now(), y.value);
      }
    }

    lemma StillCached(c: Contents, d: Contents, i: Ident)
      requires SameRecords(c.store, d.store)
      ensures Cached(d, i) <==> Cached(c, i)
    {
      hide Id;
      if Cached(c, i) {
        var y :| y in c.store && Id(c.store[y].record) == i;
        assert d.store[y].record == c.store[y].record;
      }
    }

    lemma IsCached(c: Contents, y: nat)
      requires y in c.store
      ensures Cached(c, Id(c.store[y].record))
    {
      hide Id;
    }

    /** start_poof_callback on every entry of a walk. */
    method PoofAll(walk: seq<nat>, k: KeyClass, address: nat, now: int)
      requires NoDup(walk) && (forall x :: x in walk ==> x in store)
      modifies `store
      ensures store == map x | x in old(store) :: if x in walk && Matches(k, KeyOf(old(store)[x]))
                                                  then PoofStarted(old(store)[x], address, now) else old(store)[x]
    {
      hide PoofStarted, KeyOf, Matches, NoDup;
      for i := 0 to |walk|
        invariant store.Keys == old(store).Keys
        invariant forall x {:trigger store[x]} :: x in store ==>
                    store[x] == if x in walk[..i] && Matches(k, KeyOf(old(store)[x]))
                                then PoofStarted(old(store)[x], address, now) else old(store)[x]
      {
        var x := walk[i];
        NextInWalk(walk, i);
        if Matches(k, KeyOf(store[x])) {
          store := store[x := PoofStarted(store[x], address, now)];
        }
      }
      assert walk[..|walk|] == walk;
    }

    /** avahi_cache_start_poof: a pattern walks the whole list, any other key its chain. */
    method StartPoof(key: HashTable.DomainKey, address: nat, now: int)
      requires Agreed()
      modifies `store
      ensures store == Poofed(old(Now()), ClassOf(key), address, now) && Agreed()
    {
      hide Agrees, ChainOf, PoofStarted, KeyOf, Matches, NoDup, ClassOf;
      var k := ClassOf(key);
      PoofedKeeps(Now(), k, address, now);
      Walk(Now(), k);
      var walk := entries;
      if !IsPattern(k) {
        walk := LookupKey(key);
      }
      PoofAll(walk, k, address, now);
    }

    lemma Walk(c: Contents, k: KeyClass)
      requires Agrees(c)
      ensures var walk := if IsPattern(k) then c.entries else ChainOf(c, k);
              NoDup(walk) && (forall x :: x in walk ==> x in c.store)
              && (forall x :: x in c.store && Matches(k, KeyOf(c.store[x])) ==> x in walk)
    {
      if IsPattern(k) {
        hide TableOK, IndexOK, UniqueOK, NoticesOK, LivesOK, KeyOf, NoDup;
      } else {
        hide Agrees, NoDup, KeyOf, ChainOf, Matches;
        ChainNoDup(c, k);
        forall x ensures x in ChainOf(c, k) <==> x in c.store && Matches(k, KeyOf(c.store[x])) {
          ChainIsMatches(c, k, x);
        }
      }
    }

    /** avahi_cache_stop_poof. */
    method StopPoof(r: Rec, address: nat, jitter: nat)
      requires Agreed() && forall x :: x in store && Id(store[x].record) == Id(r) ==> InJitter(store[x].record, jitter)
      modifies `store
      ensures Agreed() && store.Keys == old(store).Keys
      ensures forall x {:trigger store[x]} :: x in store ==>
                store[x] == if Id(old(store)[x].record) == Id(r)
                            then PoofStopped(old(store)[x], address, jitter) else old(store)[x]
    {
      hide Agrees, Id, PoofStopped, InJitter;
      ghost var c := Now();
      OnlyOne(c);
      var y := LookupRecord(r);
      if y.Some? {
        OneLife(c, y.value);
        PoofStoppedKeeps(store[y.value], address, jitter);
        StoppedRecord(store[y.value], address, jitter);
        OneTouched(c, y.value, PoofStopped(store[y.value], address, jitter));
        store := store[y.value := PoofStopped(store[y.value], address, jitter)];
      }
    }

    lemma StoppedRecord(e: CacheEntry, address: nat, jitter: nat)
      ensures PoofStopped(e, address, jitter).record == e.record
    {
    }

    lemma OnlyOne(c: Contents)
      requires Agrees(c)
      ensures UniqueOK(c)
    {
    }
  }

  /** The entry has just been refreshed. */
  predicate IsNow(e: CacheEntry, r: Rec, flush: bool, address: nat, now: int) {
    e.record == r && e.state == CacheLife.Valid && e.timestamp == now && e.cacheFlush == flush && e.origin == address
  }

  /** A new entry before its first refresh. */
  function Blank(r: Rec): CacheEntry {
    CacheEntry(r, 0, 0, false, CacheLife.Valid, 0, 0, 0, 0, 0, [])
  }
}
