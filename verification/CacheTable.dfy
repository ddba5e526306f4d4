/** The table of avahi-core/cache.c: chains of entries in the buckets of avahi-core/hashmap.c, found by any key equal to
    the stored one. It is the finite map from classes of keys to slots that module Cache works with. */
module CacheTable {
  import opened Bytes
  import opened Records
  import opened NameRelations
  import opened Identity
  import opened Cache
  import HashTable

  type Entry = HashTable.Item<HashTable.DomainKey, seq<nat>>

  type Chains = map<nat, Entry>

  /** An item of the table is the slot of its class. */
  predicate IsSlot(table: map<KeyClass, Slot>, it: Entry) {
    ClassOf(it.key) in table && table[ClassOf(it.key)] == Slot(it.key, it.value)
  }

  predicate Backs(items: Chains, c: KeyClass) {
    exists x :: x in items && ClassOf(items[x].key) == c
  }

  /** The items of the table are exactly the slots of the map, each under its class. */
  ghost predicate Refines(items: Chains, table: map<KeyClass, Slot>) {
    && (forall x {:trigger items[x]} :: x in items ==> IsSlot(table, items[x]))
    && (forall c {:trigger Backs(items, c)} :: c in table ==> Backs(items, c))
  }

  lemma FoundInMap(items: Chains, table: map<KeyClass, Slot>, k: HashTable.DomainKey)
    requires Refines(items, table)
    ensures HashTable.Get(HashTable.KeyEqual, items, k) ==
            if ClassOf(k) in table then Some(table[ClassOf(k)].chain) else None
  {
    forall x | x in items ensures HashTable.KeyEqual(k, items[x].key) <==> ClassOf(k) == ClassOf(items[x].key) {
      SameKeySameClass(k, items[x].key);
    }
    hide ClassOf;
    if ClassOf(k) in table {
      assert Backs(items, ClassOf(k));
      var x :| x in items && ClassOf(items[x].key) == ClassOf(k);
    }
  }

  /** Storing under a key changes the slot of its class. */
  lemma StoredInMap(items: Chains, table: map<KeyClass, Slot>, y: nat, k: HashTable.DomainKey, chain: seq<nat>)
    requires Refines(items, table) && HashTable.UniqueKeys(HashTable.KeyEqual, items)
    requires if y in items then HashTable.KeyEqual(k, items[y].key)
             else forall z :: z in items ==> !HashTable.KeyEqual(k, items[z].key)
    ensures Refines(items[y := HashTable.Item(k, chain)], table[ClassOf(k) := Slot(k, chain)])
  {
    var after, map1 := items[y := HashTable.Item(k, chain)], table[ClassOf(k) := Slot(k, chain)];
    forall x | x in items && x != y ensures ClassOf(items[x].key) != ClassOf(k) {
      OtherClass(items, y, k, x);
    }
    hide ClassOf;
    forall x {:trigger after[x]} | x in after ensures IsSlot(map1, after[x]) {
      assert x != y ==> after[x] == items[x] && IsSlot(table, items[x]);
    }
    SameClassThere(items, y, k);
    forall c {:trigger Backs(after, c)} | c in map1 ensures Backs(after, c) {
      if c == ClassOf(k) {
        assert ClassOf(after[y].key) == c;
      } else {
        assert Backs(items, c);
        var x :| x in items && ClassOf(items[x].key) == c;
        assert x != y && after[x] == items[x];
      }
    }
  }

  lemma OtherClass(items: Chains, y: nat, k: HashTable.DomainKey, x: nat)
    requires HashTable.UniqueKeys(HashTable.KeyEqual, items) && x in items && x != y
    requires if y in items then HashTable.KeyEqual(k, items[y].key)
             else forall z :: z in items ==> !HashTable.KeyEqual(k, items[z].key)
    ensures ClassOf(items[x].key) != ClassOf(k)
  {
    SameKeySameClass(k, items[x].key);
    if y in items {
      SameKeySameClass(k, items[y].key);
      SameKeySameClass(items[y].key, items[x].key);
      assert !HashTable.KeyEqual(items[y].key, items[x].key);
    }
  }

  lemma SameClassThere(items: Chains, y: nat, k: HashTable.DomainKey)
    requires y in items ==> HashTable.KeyEqual(k, items[y].key)
    ensures y in items ==> ClassOf(items[y].key) == ClassOf(k)
  {
    if y in items {
      SameKeySameClass(k, items[y].key);
    }
  }

  /** Removing the item of a key removes the slot of its class. */
  lemma RemovedFromMap(items: Chains, table: map<KeyClass, Slot>, y: nat)
    requires Refines(items, table) && HashTable.UniqueKeys(HashTable.KeyEqual, items) && y in items
    ensures Refines(items - {y}, table - {ClassOf(items[y].key)})
  {
    var after, map1 := items - {y}, table - {ClassOf(items[y].key)};
    forall x | x in items && x != y ensures ClassOf(items[x].key) != ClassOf(items[y].key) {
      SameKeySameClass(items[y].key, items[x].key);
      assert !HashTable.KeyEqual(items[y].key, items[x].key);
    }
    hide ClassOf;
    forall x {:trigger after[x]} | x in after ensures IsSlot(map1, after[x]) {
      assert x in items && x != y && after[x] == items[x] && IsSlot(table, items[x]);
    }
    forall c {:trigger Backs(after, c)} | c in map1 ensures Backs(after, c) {
      assert Backs(items, c);
      var x :| x in items && ClassOf(items[x].key) == c;
      assert x != y && after[x] == items[x];
    }
  }

  /** The table in its buckets, and the map it stands for. */
  class Chained {
    const buckets: HashTable.Table<HashTable.DomainKey, seq<nat>>
    var next: nat // a place that no item has had yet
    ghost var table: map<KeyClass, Slot>

    ghost predicate Valid()
      reads this, buckets, buckets.buckets
    {
      && buckets.Valid() && buckets.equal == HashTable.KeyEqual && buckets.hash == HashTable.KeyNumber
      && Refines(buckets.items, table) && forall x :: x in buckets.items ==> x < next
    }

    constructor ()
      ensures Valid() && table == map[] && fresh(buckets) && fresh(buckets.buckets)
    {
      HashTable.KeysFit();
      buckets := new HashTable.Table(HashTable.KeyNumber, HashTable.KeyEqual);
      table, next := map[], 0;
    }

    /** avahi_hashmap_lookup: the chain of the class of the key. */
    method Lookup(k: HashTable.DomainKey) returns (chain: Option<seq<nat>>)
      requires Valid()
      ensures chain == if ClassOf(k) in table then Some(table[ClassOf(k)].chain) else None
    {
      FoundInMap(buckets.items, table, k);
      hide Refines, ClassOf;
      chain := buckets.Lookup(k);
    }

    /** avahi_hashmap_replace. */
    method Replace(k: HashTable.DomainKey, chain: seq<nat>)
      requires Valid()
      modifies this, buckets, buckets.buckets
      ensures Valid() && table == old(table)[ClassOf(k) := Slot(k, chain)]
    {
      hide Refines, ClassOf, HashTable.UniqueKeys, HashTable.Equivalence, HashTable.Respects;
      ghost var was := buckets.items;
      var ret := buckets.Replace(next, k, chain);
      ghost var y :| (y == next || y in was) && buckets.items == was[y := HashTable.Item(k, chain)]
                     && buckets.Fits(was, y, k);
      StoredInMap(was, table, y, k, chain);
      table, next := table[ClassOf(k) := Slot(k, chain)], next + 1;
    }

    /** avahi_hashmap_remove. */
    method Remove(k: HashTable.DomainKey)
      requires Valid()
      modifies this, buckets, buckets.buckets
      ensures Valid() && table == old(table) - {ClassOf(k)}
    {
      hide Refines, ClassOf, HashTable.UniqueKeys, HashTable.Equivalence, HashTable.Respects;
      ghost var was := buckets.items;
      FoundInMap(was, table, k);
      ghost var found := buckets.Value(k);
      buckets.Remove(k);
      ghost var gone := table - {ClassOf(k)};
      RemovedClass(was, table, buckets.items, k);
      table := gone;
    }
  }

  lemma RemovedClass(items: Chains, table: map<KeyClass, Slot>, after: Chains, k: HashTable.DomainKey)
    requires Refines(items, table) && HashTable.UniqueKeys(HashTable.KeyEqual, items)
    requires after == items || exists y :: y in items && after == items - {y} && HashTable.KeyEqual(k, items[y].key)
    requires after == items ==> ClassOf(k) !in table
    ensures Refines(after, table - {ClassOf(k)})
  {
    if after == items {
      assert table - {ClassOf(k)} == table;
    } else {
      var y :| y in items && after == items - {y} && HashTable.KeyEqual(k, items[y].key);
      SameClassThere(items, y, k);
      hide ClassOf, Refines;
      RemovedFromMap(items, table, y);
    }
  }
}
