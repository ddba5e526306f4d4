/** avahi-core/cache.c: the list of entries, the chains by key and the hash table, which always describe the same
    set. The table is a finite map over classes of equal keys; module CacheTable keeps it in the buckets of
    HashTable. */
module Cache {
  import opened Bytes
  import opened Records
  import opened Identity
  import opened CacheLife
  import opened Lists

  // ---------- The state ----------

  /** What the hash table holds for a class of keys: the stored key and the chain of entries. */
  datatype Slot = Slot(key: Key, chain: seq<nat>)

  /** A notice to the subscribers: AVAHI_BROWSER_NEW or AVAHI_BROWSER_REMOVE. */
  datatype Notice = Notice(isNew: bool, record: Rec)

  datatype Contents = Contents(
    entries: seq<nat>, nEntries: nat, store: map<nat, CacheEntry>, table: map<KeyClass, Slot>, notices: seq<Notice>)

  function KeyOf(e: CacheEntry): KeyClass {
    ClassOf(e.record.key)
  }

  function ChainOf(c: Contents, k: KeyClass): seq<nat> {
    if k in c.table then c.table[k].chain else []
  }

  // ---------- Agreement ----------

  ghost predicate ListOK(c: Contents) {
    NoDup(c.entries) && c.nEntries == |c.entries| && forall x :: x in c.entries <==> x in c.store
  }

  /** A chain holds entries of its class, and is stored under the key of its head. */
  predicate SlotOK(c: Contents, k: KeyClass, slot: Slot) {
    && slot.chain != [] && NoDup(slot.chain)
    && (forall x :: x in slot.chain ==> x in c.store && KeyOf(c.store[x]) == k)
    && slot.key == c.store[slot.chain[0]].record.key
  }

  predicate TableOK(c: Contents) {
    forall k {:trigger c.table[k]} :: k in c.table ==> SlotOK(c, k, c.table[k])
  }

  /** Every entry is in the chain of its key. */
  predicate IndexOK(c: Contents) {
    forall x {:trigger c.store[x]} :: x in c.store ==> x in ChainOf(c, KeyOf(c.store[x]))
  }

  /** No two cached records are equal ignoring TTL. */
  predicate UniqueOK(c: Contents) {
    forall x, y {:trigger c.store[x], c.store[y]} :: x in c.store && y in c.store && x != y ==>
      Id(c.store[x].record) != Id(c.store[y].record)
  }

  predicate Cached(c: Contents, r: Ident) {
    exists x :: x in c.store && Id(c.store[x].record) == r
  }

  /** The last notice about a record says that it is there. */
  predicate Announced(notices: seq<Notice>, r: Ident) {
    notices != [] &&
    (var n := notices[|notices| - 1];
     if Id(n.record) == r then n.isNew else Announced(notices[..|notices| - 1], r))
  }

  /** NEW and REMOVE alternate for each record, beginning with NEW. */
  predicate Alternating(notices: seq<Notice>) {
    notices == [] ||
    (var n, before := notices[|notices| - 1], notices[..|notices| - 1];
     Alternating(before) && n.isNew == !Announced(before, Id(n.record)))
  }

  ghost predicate NoticesOK(c: Contents) {
    && Alternating(c.notices)
    && forall r: Ident {:trigger Announced(c.notices, r)} :: Announced(c.notices, r) <==> Cached(c, r)
  }

  predicate LivesOK(c: Contents) {
    forall x {:trigger c.store[x]} :: x in c.store ==> LifeOK(c.store[x])
  }

  ghost predicate Agrees(c: Contents) {
    ListOK(c) && TableOK(c) && IndexOK(c) && UniqueOK(c) && NoticesOK(c) && LivesOK(c)
  }

  // ---------- One entry changes and keeps its identity ----------

  /** The entry x becomes e; the table follows when it is the head of its chain. */
  function Changed(c: Contents, x: nat, e: CacheEntry): Contents {
    var k := KeyOf(e);
    c.(store := c.store[x := e],
       table := if k in c.table && c.table[k].chain != [] && c.table[k].chain[0] == x
                then c.table[k := Slot(e.record.key, c.table[k].chain)] else c.table)
  }

  predicate SameId(c: Contents, x: nat, e: CacheEntry) {
    x in c.store && Id(c.store[x].record) == Id(e.record)
  }

  lemma ChangedTable(c: Contents, x: nat, e: CacheEntry)
    requires TableOK(c) && SameId(c, x, e)
    ensures TableOK(Changed(c, x, e))
  {
    hide ClassOf, DataClassOf, NoDup;
    var d := Changed(c, x, e);
    forall k {:trigger d.table[k]} | k in d.table ensures SlotOK(d, k, d.table[k]) {
      assert SlotOK(c, k, c.table[k]);
      assert c.table[k].chain[0] in c.table[k].chain;
    }
  }

  lemma ChangedIndex(c: Contents, x: nat, e: CacheEntry)
    requires IndexOK(c) && SameId(c, x, e)
    ensures IndexOK(Changed(c, x, e))
  {
    hide ClassOf, DataClassOf;
    var d := Changed(c, x, e);
    forall y {:trigger d.store[y]} | y in d.store ensures y in ChainOf(d, KeyOf(d.store[y])) {
      assert y in ChainOf(c, KeyOf(c.store[y]));
    }
  }

  /** What is cached depends on the identities in the store only. */
  lemma SameCached(c: Contents, d: Contents)
    requires d.store.Keys == c.store.Keys
    requires forall y {:trigger d.store[y]} :: y in c.store ==> Id(d.store[y].record) == Id(c.store[y].record)
    ensures forall r :: Cached(d, r) <==> Cached(c, r)
    ensures UniqueOK(c) ==> UniqueOK(d)
  {
    hide Id;
    forall r ensures Cached(d, r) <==> Cached(c, r) {
      if Cached(c, r) {
        var y :| y in c.store && Id(c.store[y].record) == r;
        assert Id(d.store[y].record) == r;
      }
    }
  }

  lemma SameNotices(c: Contents, d: Contents)
    requires NoticesOK(c) && d.notices == c.notices && forall r :: Cached(d, r) <==> Cached(c, r)
    ensures NoticesOK(d)
  {
    hide Cached, Announced, Alternating;
  }

  lemma ChangedLists(c: Contents, x: nat, e: CacheEntry)
    requires ListOK(c) && LivesOK(c) && x in c.store && LifeOK(e)
    ensures ListOK(Changed(c, x, e)) && LivesOK(Changed(c, x, e))
  {
    hide LifeOK, KeyOf, NoDup;
  }

  lemma ChangedCached(c: Contents, x: nat, e: CacheEntry)
    requires UniqueOK(c) && SameId(c, x, e)
    ensures UniqueOK(Changed(c, x, e)) && forall r :: Cached(Changed(c, x, e), r) <==> Cached(c, r)
  {
    hide Id, KeyOf;
    SameCached(c, Changed(c, x, e));
  }

  lemma ChangedKeeps(c: Contents, x: nat, e: CacheEntry)
    requires Agrees(c) && SameId(c, x, e) && LifeOK(e)
    ensures Agrees(Changed(c, x, e))
  {
    hide ListOK, TableOK, IndexOK, UniqueOK, LivesOK, NoticesOK, LifeOK, Id, KeyOf, Cached;
    ChangedTable(c, x, e);
    ChangedIndex(c, x, e);
    ChangedLists(c, x, e);
    ChangedCached(c, x, e);
    SameNotices(c, Changed(c, x, e));
  }

  // ---------- Insertion ----------

  /** A new entry becomes the head of the list and of its chain. */
  function Inserted(c: Contents, x: nat, e: CacheEntry): Contents {
    var k := KeyOf(e);
    Contents([x] + c.entries, c.nEntries + 1, c.store[x := e], c.table[k := Slot(e.record.key, [x] + ChainOf(c, k))],
             c.notices + [Notice(true, e.record)])
  }

  lemma InsertedTable(c: Contents, x: nat, e: CacheEntry)
    requires TableOK(c) && x !in c.store
    ensures TableOK(Inserted(c, x, e))
  {
    hide ClassOf;
    var d := Inserted(c, x, e);
    forall k {:trigger d.table[k]} | k in d.table ensures SlotOK(d, k, d.table[k]) {
      assert k in c.table ==> SlotOK(c, k, c.table[k]);
      assert k in c.table ==> c.table[k].chain[0] in c.table[k].chain;
      hide NoDup;
      if k == KeyOf(e) {
        EmptyNoDup();
        NoDupCons(x, ChainOf(c, k));
      }
    }
  }

  lemma InsertedIndex(c: Contents, x: nat, e: CacheEntry)
    requires IndexOK(c) && x !in c.store
    ensures IndexOK(Inserted(c, x, e))
  {
    hide ClassOf;
    var d := Inserted(c, x, e);
    forall y {:trigger d.store[y]} | y in d.store ensures y in ChainOf(d, KeyOf(d.store[y])) {
      assert y != x ==> y in ChainOf(c, KeyOf(c.store[y]));
    }
  }

  lemma InsertedLists(c: Contents, x: nat, e: CacheEntry)
    requires ListOK(c) && LivesOK(c) && x !in c.store && LifeOK(e)
    ensures ListOK(Inserted(c, x, e)) && LivesOK(Inserted(c, x, e))
  {
    hide LifeOK, KeyOf, NoDup;
    NoDupCons(x, c.entries);
  }

  lemma InsertedCached(c: Contents, x: nat, e: CacheEntry)
    requires UniqueOK(c) && x !in c.store && !Cached(c, Id(e.record))
    ensures UniqueOK(Inserted(c, x, e))
    ensures forall r :: Cached(Inserted(c, x, e), r) <==> Cached(c, r) || r == Id(e.record)
  {
    hide Id, KeyOf;
    var d := Inserted(c, x, e);
    forall r ensures Cached(d, r) <==> Cached(c, r) || r == Id(e.record) {
      if Cached(c, r) {
        var y :| y in c.store && Id(c.store[y].record) == r;
        assert d.store[y] == c.store[y];
      }
      assert d.store[x] == e;
    }
  }

  /** A notice is about one record only. */
  lemma MoreNotices(notices: seq<Notice>, n: Notice)
    requires Alternating(notices) && n.isNew == !Announced(notices, Id(n.record))
    ensures Alternating(notices + [n])
    ensures forall r :: Announced(notices + [n], r) <==> if r == Id(n.record) then n.isNew else Announced(notices, r)
  {
    hide Id;
    assert (notices + [n])[..|notices|] == notices;
  }

  lemma InsertedKeeps(c: Contents, x: nat, e: CacheEntry)
    requires Agrees(c) && x !in c.store && !Cached(c, Id(e.record)) && LifeOK(e)
    ensures Agrees(Inserted(c, x, e))
  {
    hide ListOK, TableOK, IndexOK, UniqueOK, LivesOK, LifeOK, Id, KeyOf, Cached, Announced, Alternating;
    InsertedTable(c, x, e);
    InsertedIndex(c, x, e);
    InsertedLists(c, x, e);
    InsertedCached(c, x, e);
    MoreNotices(c.notices, Notice(true, e.record));
  }

  // ---------- Removal ----------

  /** remove_entry. */
  function Removed(c: Contents, x: nat): Contents
    requires x in c.store && c.nEntries >= 1
  {
    var k := KeyOf(c.store[x]);
    var rest := Without(ChainOf(c, k), x);
    Contents(Without(c.entries, x), c.nEntries - 1, c.store - {x},
             if rest != [] && rest[0] in c.store
             then c.table[k := Slot(c.store[rest[0]].record.key, rest)] else c.table - {k},
             c.notices + [Notice(false, c.store[x].record)])
  }

  lemma RemovedSlot(c: Contents, x: nat, k: KeyClass)
    requires x in c.store && c.nEntries >= 1 && k in c.table && SlotOK(c, k, c.table[k]) && k in Removed(c, x).table
    ensures SlotOK(Removed(c, x), k, Removed(c, x).table[k])
  {
    hide ClassOf;
    var d := Removed(c, x);
    WithoutMembers(c.table[k].chain, x);
    hide NoDup, Without;
    assert d.table[k].chain[0] in d.table[k].chain;
    if k != KeyOf(c.store[x]) {
      assert d.table[k] == c.table[k];
    }
  }

  lemma RemovedTable(c: Contents, x: nat)
    requires TableOK(c) && x in c.store && c.nEntries >= 1 && KeyOf(c.store[x]) in c.table
    ensures TableOK(Removed(c, x))
  {
    hide ClassOf, SlotOK, Without;
    var d := Removed(c, x);
    forall k {:trigger d.table[k]} | k in d.table ensures SlotOK(d, k, d.table[k]) {
      RemovedSlot(c, x, k);
    }
  }

  lemma RemovedChain(c: Contents, x: nat, y: nat)
    requires x in c.store && c.nEntries >= 1 && y in c.store && y != x && y in ChainOf(c, KeyOf(c.store[y]))
    requires forall k {:trigger c.table[k]} :: k in c.table ==>
               NoDup(c.table[k].chain) && forall z :: z in c.table[k].chain ==> z in c.store
    ensures y in ChainOf(Removed(c, x), KeyOf(c.store[y]))
  {
    hide ClassOf, NoDup;
    var k := KeyOf(c.store[y]);
    if k == KeyOf(c.store[x]) {
      WithoutMembers(c.table[k].chain, x);
      var rest := Without(c.table[k].chain, x);
      assert rest[0] in rest;
    }
  }

  lemma RemovedIndex(c: Contents, x: nat)
    requires TableOK(c) && IndexOK(c) && x in c.store && c.nEntries >= 1
    ensures IndexOK(Removed(c, x))
  {
    hide ClassOf, NoDup, Without, ChainOf;
    var d := Removed(c, x);
    assert forall k {:trigger c.table[k]} :: k in c.table ==> SlotOK(c, k, c.table[k]);
    forall y {:trigger d.store[y]} | y in d.store ensures y in ChainOf(d, KeyOf(d.store[y])) {
      RemovedChain(c, x, y);
    }
  }

  lemma RemovedLists(c: Contents, x: nat)
    requires ListOK(c) && LivesOK(c) && x in c.store && c.nEntries >= 1
    ensures ListOK(Removed(c, x)) && LivesOK(Removed(c, x))
  {
    hide LifeOK, KeyOf;
    WithoutMembers(c.entries, x);
    hide NoDup, Without;
  }

  lemma RemovedCached(c: Contents, x: nat)
    requires UniqueOK(c) && x in c.store && c.nEntries >= 1
    ensures UniqueOK(Removed(c, x))
    ensures forall r :: Cached(Removed(c, x), r) <==> Cached(c, r) && r != Id(c.store[x].record)
    ensures Cached(c, Id(c.store[x].record))
  {
    hide Id, KeyOf, Without;
    var d := Removed(c, x);
    forall r ensures Cached(d, r) <==> Cached(c, r) && r != Id(c.store[x].record) {
      if Cached(c, r) && r != Id(c.store[x].record) {
        var y :| y in c.store && Id(c.store[y].record) == r;
        assert y in d.store && d.store[y] == c.store[y];
      }
    }
  }

  lemma RemovedKeeps(c: Contents, x: nat)
    requires Agrees(c) && x in c.store
    ensures c.nEntries >= 1 && Agrees(Removed(c, x))
  {
    assert c.nEntries >= 1 by { assert x in c.entries; }
    assert KeyOf(c.store[x]) in c.table by { assert x in ChainOf(c, KeyOf(c.store[x])); }
    hide ListOK, TableOK, IndexOK, UniqueOK, LivesOK, Id, KeyOf, Cached, Announced, Alternating, Without;
    RemovedTable(c, x);
    RemovedIndex(c, x);
    RemovedLists(c, x);
    RemovedCached(c, x);
    MoreNotices(c.notices, Notice(false, c.store[x].record));
  }

  // ---------- Changes that keep all records ----------

  predicate SameRecords(a: map<nat, CacheEntry>, b: map<nat, CacheEntry>) {
    a.Keys == b.Keys && forall x {:trigger b[x]} :: x in a ==> b[x].record == a[x].record
  }

  lemma TouchedSlot(c: Contents, store: map<nat, CacheEntry>, k: KeyClass, slot: Slot)
    requires SlotOK(c, k, slot) && SameRecords(c.store, store)
    ensures SlotOK(c.(store := store), k, slot)
  {
    hide ClassOf, NoDup;
    assert slot.chain[0] in slot.chain;
  }

  lemma TouchedTable(c: Contents, store: map<nat, CacheEntry>)
    requires TableOK(c) && SameRecords(c.store, store)
    ensures TableOK(c.(store := store))
  {
    hide SlotOK, SameRecords;
    var d := c.(store := store);
    forall k {:trigger d.table[k]} | k in d.table ensures SlotOK(d, k, d.table[k]) {
      TouchedSlot(c, store, k, c.table[k]);
    }
  }

  lemma TouchedIndex(c: Contents, store: map<nat, CacheEntry>)
    requires IndexOK(c) && SameRecords(c.store, store)
    ensures IndexOK(c.(store := store))
  {
    hide ClassOf;
    var d := c.(store := store);
    forall y {:trigger d.store[y]} | y in d.store ensures y in ChainOf(d, KeyOf(d.store[y])) {
      assert y in ChainOf(c, KeyOf(c.store[y]));
    }
  }

  lemma TouchedKeeps(c: Contents, store: map<nat, CacheEntry>)
    requires Agrees(c) && SameRecords(c.store, store) && LivesOK(c.(store := store))
    ensures Agrees(c.(store := store))
  {
    var d := c.(store := store);
    assert ListOK(d);
    hide ListOK, TableOK, IndexOK, LivesOK, NoticesOK, Id, KeyOf;
    TouchedTable(c, store);
    TouchedIndex(c, store);
    assert forall y {:trigger d.store[y]} :: y in c.store ==> Id(d.store[y].record) == Id(c.store[y].record);
    SameCached(c, d);
    SameNotices(c, d);
  }

  predicate IsPattern(k: KeyClass) {
    k.kind == TYPE_ANY || k.clazz == CLASS_ANY
  }

  /** avahi_key_pattern_match. */
  predicate Matches(pattern: KeyClass, k: KeyClass) {
    && pattern.labels == k.labels && (pattern.kind == k.kind || pattern.kind == TYPE_ANY)
    && (pattern.clazz == k.clazz || pattern.clazz == CLASS_ANY)
  }

  /** The chain of a key holds exactly the entries that match it: both ways of walking visit the same entries. */
  lemma ChainIsMatches(c: Contents, k: KeyClass, x: nat)
    requires Agrees(c) && !IsPattern(k)
    ensures x in ChainOf(c, k) <==> x in c.store && Matches(k, KeyOf(c.store[x]))
  {
    hide ListOK, UniqueOK, NoticesOK, LivesOK, ClassOf, NoDup;
    if k in c.table {
      assert SlotOK(c, k, c.table[k]);
    }
    if x in c.store {
      assert x in ChainOf(c, KeyOf(c.store[x]));
    }
  }

  /** The first loop of avahi_cache_update: all entries of the key older than a second are about to go. */
  function Flushed(c: Contents, k: KeyClass, now: int): map<nat, CacheEntry> {
    map x | x in c.store ::
      if x in ChainOf(c, k) && now - c.store[x].timestamp > SECOND
      then ExpireSoon(c.store[x], ReplaceFinal, now) else c.store[x]
  }

  /** Exactly the entries of the key that were refreshed more than a second ago go a second from now. */
  lemma FlushedByKey(c: Contents, k: KeyClass, now: int, x: nat)
    requires Agrees(c) && !IsPattern(k) && x in c.store
    ensures var e, f := c.store[x], Flushed(c, k, now)[x];
            if KeyOf(e) == k && now - e.timestamp > 1_000_000
            then f == e.(state := ReplaceFinal, expiry := now + 1_000_000) else f == e
  {
    hide Agrees, ChainOf, KeyOf, IsPattern, Matches;
    ChainIsMatches(c, k, x);
    MatchesItself(k, KeyOf(c.store[x]));
  }

  lemma MatchesItself(p: KeyClass, k: KeyClass)
    requires !IsPattern(p)
    ensures Matches(p, k) <==> p == k
  {
  }

  /** By the numbers: a key is a pattern when its type or its class is 255, which stand for any; it matches the keys of
      the same name whose type and class are its own or that any stands for. */
  lemma MatchesByNumber(p: KeyClass, k: KeyClass)
    ensures IsPattern(p) <==> p.kind == 255 || p.clazz == 255
    ensures Matches(p, k) <==>
            p.labels == k.labels && p.kind in {k.kind, 255} && p.clazz in {k.clazz, 255}
  {
  }

  lemma FlushedLives(c: Contents, k: KeyClass, now: int)
    requires LivesOK(c)
    ensures LivesOK(c.(store := Flushed(c, k, now)))
  {
    hide LifeOK, ChainOf, ExpireSoon;
    var store := Flushed(c, k, now);
    forall x {:trigger store[x]} | x in store ensures LifeOK(store[x]) {
      assert LifeOK(c.store[x]);
      ExpireSoonKeeps(c.store[x], ReplaceFinal, now);
    }
  }

  lemma FlushedRecords(c: Contents, k: KeyClass, now: int)
    ensures SameRecords(c.store, Flushed(c, k, now))
  {
    hide ChainOf;
  }

  lemma FlushedKeeps(c: Contents, k: KeyClass, now: int)
    requires Agrees(c)
    ensures Agrees(c.(store := Flushed(c, k, now)))
  {
    hide ListOK, TableOK, IndexOK, UniqueOK, NoticesOK, LivesOK, Flushed;
    FlushedLives(c, k, now);
    FlushedRecords(c, k, now);
    TouchedKeeps(c, Flushed(c, k, now));
  }

  /** avahi_cache_start_poof. */
  function Poofed(c: Contents, k: KeyClass, address: nat, now: int): map<nat, CacheEntry> {
    map x | x in c.store :: if Matches(k, KeyOf(c.store[x])) then PoofStarted(c.store[x], address, now) else c.store[x]
  }

  lemma PoofedLives(c: Contents, k: KeyClass, address: nat, now: int)
    requires LivesOK(c)
    ensures LivesOK(c.(store := Poofed(c, k, address, now)))
  {
    hide LifeOK, KeyOf, PoofStarted;
    var store := Poofed(c, k, address, now);
    forall x {:trigger store[x]} | x in store ensures LifeOK(store[x]) {
      assert LifeOK(c.store[x]);
      PoofStartedKeeps(c.store[x], address, now);
    }
  }

  lemma PoofedRecords(c: Contents, k: KeyClass, address: nat, now: int)
    ensures SameRecords(c.store, Poofed(c, k, address, now))
  {
    hide KeyOf;
  }

  lemma PoofedKeeps(c: Contents, k: KeyClass, address: nat, now: int)
    requires Agrees(c)
    ensures Agrees(c.(store := Poofed(c, k, address, now)))
  {
    hide ListOK, TableOK, IndexOK, UniqueOK, NoticesOK, LivesOK, Poofed;
    PoofedLives(c, k, address, now);
    PoofedRecords(c, k, address, now);
    TouchedKeeps(c, Poofed(c, k, address, now));
  }

  // ---------- What the notices say ----------

  /** Between two notices that the same record is new lies one that it is gone. */
  lemma {:induction false} NewsAreSeparated(notices: seq<Notice>, i: nat, j: nat)
    requires Alternating(notices) && i < j < |notices| && notices[i].isNew && notices[j].isNew
    requires Id(notices[i].record) == Id(notices[j].record)
    ensures exists k :: i < k < j && !notices[k].isNew && Id(notices[k].record) == Id(notices[i].record)
    decreases |notices|
  {
    hide Id;
    var before := notices[..|notices| - 1];
    if j < |notices| - 1 {
      NewsAreSeparated(before, i, j);
      var k :| i < k < j && !before[k].isNew && Id(before[k].record) == Id(before[i].record);
      assert notices[k] == before[k];
    } else {
      GoneSince(before, i);
      var k :| i < k < |before| && !before[k].isNew && Id(before[k].record) == Id(before[i].record);
      assert notices[k] == before[k];
    }
  }

  lemma {:induction false} GoneSince(notices: seq<Notice>, i: nat)
    requires i < |notices| && notices[i].isNew && !Announced(notices, Id(notices[i].record))
    ensures exists k :: i < k < |notices| && !notices[k].isNew && Id(notices[k].record) == Id(notices[i].record)
    decreases |notices|
  {
    hide Id;
    var last, before := |notices| - 1, notices[..|notices| - 1];
    if Id(notices[last].record) != Id(notices[i].record) {
      assert before[i] == notices[i];
      GoneSince(before, i);
      var k :| i < k < |before| && !before[k].isNew && Id(before[k].record) == Id(before[i].record);
      assert notices[k] == before[k];
    } else {
      assert last != i;
    }
  }
}
