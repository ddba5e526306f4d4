/** avahi-core/hashmap.c: a table of buckets and a list of all entries, as a finite map over classes of equal keys. */
module HashTable {
  import opened Bytes
  import opened Records
  import opened NameRelations
  import opened Lists

  const HASH_MAP_SIZE := 123

  datatype Item<K, V> = Item(key: K, value: V)

  ghost predicate Equivalence<K(!new)>(equal: (K, K) -> bool) {
    && (forall a :: equal(a, a))
    && (forall a, b :: equal(a, b) ==> equal(b, a))
    && (forall a, b, c :: equal(a, b) && equal(b, c) ==> equal(a, c))
  }

  ghost predicate Respects<K(!new)>(hash: K -> nat, equal: (K, K) -> bool) {
    forall a, b :: equal(a, b) ==> hash(a) == hash(b)
  }

  /** No two items have equal keys. */
  predicate UniqueKeys<K, V>(equal: (K, K) -> bool, items: map<nat, Item<K, V>>) {
    forall x, y {:trigger items[x], items[y]} :: x in items && y in items && x != y ==>
      !equal(items[x].key, items[y].key)
  }

  /** The value stored for a key equal to k. */
  ghost function Get<K, V>(equal: (K, K) -> bool, items: map<nat, Item<K, V>>, k: K): Option<V> {
    if x :| x in items && equal(k, items[x].key) then Some(items[x].value) else None
  }

  lemma GetIs<K(!new), V>(equal: (K, K) -> bool, items: map<nat, Item<K, V>>, k: K, x: nat)
    requires Equivalence(equal) && UniqueKeys(equal, items) && x in items && equal(k, items[x].key)
    ensures Get(equal, items, k) == Some(items[x].value)
  {
    forall y | y in items && equal(k, items[y].key) ensures y == x {
      assert equal(items[x].key, k);
      assert equal(items[x].key, items[y].key);
    }
  }

  lemma GetNone<K(!new), V>(equal: (K, K) -> bool, items: map<nat, Item<K, V>>, k: K)
    requires forall x :: x in items ==> !equal(k, items[x].key)
    ensures Get(equal, items, k) == None
  {
  }

  /** Storing a value changes what is found for the keys equal to its key, and for no others. */
  lemma GetStored<K(!new), V>(equal: (K, K) -> bool, items: map<nat, Item<K, V>>, x: nat, k: K, v: V, q: K)
    requires Equivalence(equal) && UniqueKeys(equal, items) && UniqueKeys(equal, items[x := Item(k, v)])
    requires x in items ==> equal(k, items[x].key)
    ensures Get(equal, items[x := Item(k, v)], q) == if equal(q, k) then Some(v) else Get(equal, items, q)
  {
    var after := items[x := Item(k, v)];
    if equal(q, k) {
      GetIs(equal, after, q, x);
    } else if y :| y in items && equal(q, items[y].key) {
      var ky := items[y].key;
      assert equal(ky, k) && equal(q, ky) ==> equal(q, k);
      assert y == x ==> equal(ky, k);
      GetIs(equal, items, q, y);
      GetIs(equal, after, q, y);
    } else {
      GetNone(equal, items, q);
      GetNone(equal, after, q);
    }
  }

  lemma GetRemoved<K(!new), V>(equal: (K, K) -> bool, items: map<nat, Item<K, V>>, x: nat, q: K)
    requires Equivalence(equal) && UniqueKeys(equal, items) && x in items
    ensures UniqueKeys(equal, items - {x})
    ensures Get(equal, items - {x}, q) == if equal(q, items[x].key) then None else Get(equal, items, q)
  {
    var after := items - {x};
    if equal(q, items[x].key) {
      forall y | y in after ensures !equal(q, after[y].key) {
        var kx, ky := items[x].key, items[y].key;
        assert equal(kx, q);
        assert equal(q, ky) ==> equal(kx, ky);
      }
      GetNone(equal, after, q);
    } else if y :| y in items && equal(q, items[y].key) {
      GetIs(equal, items, q, y);
      GetIs(equal, after, q, y);
    } else {
      GetNone(equal, items, q);
      GetNone(equal, after, q);
    }
  }

  lemma UniqueStored<K(!new), V>(equal: (K, K) -> bool, items: map<nat, Item<K, V>>, x: nat, k: K, v: V)
    requires Equivalence(equal) && UniqueKeys(equal, items)
    requires if x in items then equal(k, items[x].key) else forall y :: y in items ==> !equal(k, items[y].key)
    ensures UniqueKeys(equal, items[x := Item(k, v)])
  {
    forall y | y in items && y != x ensures !equal(k, items[y].key) && !equal(items[y].key, k) {
      if x in items {
        var kx, ky := items[x].key, items[y].key;
        assert equal(kx, k);
        assert equal(k, ky) ==> equal(kx, ky);
      }
    }
  }

  class Table<K(!new), V> {
    const hash: K -> nat
    const equal: (K, K) -> bool
    const buckets: array<seq<nat>>
    var entriesList: seq<nat>
    var items: map<nat, Item<K, V>>

    function Index(k: K): nat {
      hash(k) % HASH_MAP_SIZE
    }

    ghost predicate BucketOK(b: nat, s: seq<nat>)
      reads this
    {
      NoDup(s) && forall x :: x in s <==> x in items && Index(items[x].key) == b
    }

    /** Every item is in the bucket of its key and in the list, once, and no two items have equal keys. */
    ghost predicate Valid()
      reads this, buckets
    {
      && buckets.Length == HASH_MAP_SIZE && Equivalence(equal) && Respects(hash, equal)
      && (forall b {:trigger buckets[b]} :: 0 <= b < HASH_MAP_SIZE ==> BucketOK(b, buckets[b]))
      && NoDup(entriesList) && (forall x :: x in entriesList <==> x in items)
      && UniqueKeys(equal, items)
    }

    /** The place of a value for k: that of an equal key, or a new one when there is none. */
    ghost predicate Fits(items: map<nat, Item<K, V>>, y: nat, k: K) {
      if y in items then equal(k, items[y].key) else forall z :: z in items ==> !equal(k, items[z].key)
    }

    ghost function Value(k: K): Option<V>
      reads this
    {
      Get(equal, items, k)
    }

    constructor (hash: K -> nat, equal: (K, K) -> bool)
      requires Equivalence(equal) && Respects(hash, equal)
      ensures Valid() && items == map[] && fresh(buckets) && this.hash == hash && this.equal == equal
      ensures buckets.Length == 123
    {
      this.hash := hash;
      this.equal := equal;
      buckets := new seq<nat>[HASH_MAP_SIZE](_ => []);
      entriesList := [];
      items := map[];
    }

    /** entry_get: only the bucket of the key is searched. */
    method EntryGet(k: K) returns (x: Option<nat>)
      requires Valid()
      ensures x.Some? ==> x.value in items && equal(k, items[x.value].key) && Value(k) == Some(items[x.value].value)
      ensures x.None? ==> Value(k) == None && forall y :: y in items ==> !equal(k, items[y].key)
    {
      var b := buckets[Index(k)];
      for i := 0 to |b|
        invariant forall j {:trigger b[j]} :: 0 <= j < i ==> !equal(k, items[b[j]].key)
      {
        if equal(k, items[b[i]].key) {
          GetIs(equal, items, k, b[i]);
          return Some(b[i]);
        }
      }
      forall y | y in items ensures !equal(k, items[y].key) {
        assert y in b <==> Index(items[y].key) == Index(k);
      }
      return None;
    }

    /** avahi_hashmap_lookup. */
    method Lookup(k: K) returns (v: Option<V>)
      requires Valid()
      ensures v == Value(k)
    {
      var x := EntryGet(k);
      v := if x.None? then None else Some(items[x.value].value);
    }

    /** A new item at the head of its bucket and of the list. */
    method Prepend(x: nat, k: K, v: V)
      requires Valid() && x !in items && forall y :: y in items ==> !equal(k, items[y].key)
      modifies this, buckets
      ensures Valid() && items == old(items)[x := Item(k, v)]
    {
      UniqueStored(equal, items, x, k, v);
      hide Equivalence, Respects, UniqueKeys;
      items := items[x := Item(k, v)];
      entriesList := [x] + entriesList;
      var idx := Index(k);
      buckets[idx] := [x] + buckets[idx];
    }

    /** An equal key takes the place of the stored one. */
    method Overwrite(y: nat, k: K, v: V)
      requires Valid() && y in items && equal(k, items[y].key)
      modifies this
      ensures Valid() && items == old(items)[y := Item(k, v)]
    {
      UniqueStored(equal, items, y, k, v);
      assert Index(k) == Index(items[y].key);
      hide Equivalence, Respects, UniqueKeys;
      items := items[y := Item(k, v)];
    }

    /** avahi_hashmap_replace: 1 when a key equal to k was there, which then is replaced together with its value. */
    method Replace(x: nat, k: K, v: V) returns (ret: int)
      requires Valid() && x !in items
      modifies this, buckets
      ensures Valid() && ret == if old(Value(k)).Some? then 1 else 0
      ensures forall q {:trigger Value(q)} :: Value(q) == if equal(q, k) then Some(v) else old(Value(q))
      ensures exists y :: (y == x || y in old(items)) && items == old(items)[y := Item(k, v)] && Fits(old(items), y, k)
    {
      ghost var was := items;
      var e := EntryGet(k);
      var y := if e.Some? then e.value else x;
      UniqueStored(equal, items, y, k, v);
      hide Equivalence, Respects, BucketOK;
      if e.Some? {
        Overwrite(y, k, v);
        ret := 1;
      } else {
        Prepend(x, k, v);
        ret := 0;
      }
      forall q ensures Value(q) == if equal(q, k) then Some(v) else Get(equal, was, q) {
        GetStored(equal, was, y, k, v, q);
      }
      assert (y == x || y in was) && items == was[y := Item(k, v)] && Fits(was, y, k);
    }

    /** avahi_hashmap_insert: 1, and nothing changes, when a key equal to k was there. */
    method Insert(x: nat, k: K, v: V) returns (ret: int)
      requires Valid() && x !in items
      modifies this, buckets
      ensures Valid() && ret == if old(Value(k)).Some? then 1 else 0
      ensures ret == 1 ==> items == old(items)
      ensures ret == 0 ==> forall q {:trigger Value(q)} :: Value(q) == if equal(q, k) then Some(v) else old(Value(q))
    {
      ghost var was := items;
      var e := EntryGet(k);
      if e.Some? {
        return 1;
      }
      UniqueStored(equal, items, x, k, v);
      Prepend(x, k, v);
      forall q ensures Value(q) == if equal(q, k) then Some(v) else Get(equal, was, q) {
        GetStored(equal, was, x, k, v, q);
      }
      ret := 0;
    }

    /** entry_free. */
    method EntryFree(x: nat)
      requires Valid() && x in items
      modifies this, buckets
      ensures Valid() && items == old(items) - {x}
    {
      GetRemoved(equal, items, x, items[x].key);
      hide Equivalence, Respects, UniqueKeys;
      var idx := Index(items[x].key);
      WithoutMembers(buckets[idx], x);
      WithoutMembers(entriesList, x);
      hide NoDup, Without;
      buckets[idx] := Without(buckets[idx], x);
      entriesList := Without(entriesList, x);
      items := items - {x};
    }

    /** avahi_hashmap_remove. */
    method Remove(k: K)
      requires Valid()
      modifies this, buckets
      ensures Valid() && (items == old(items) ||
                          exists y :: y in old(items) && equal(k, old(items)[y].key) && items == old(items) - {y})
      ensures items == old(items) ==> old(Value(k)) == None
      ensures forall q {:trigger Value(q)} :: Value(q) == if equal(q, k) then None else old(Value(q))
    {
      ghost var was := items;
      var e := EntryGet(k);
      if e.Some? {
        EntryFree(e.value);
      }
      forall q ensures Value(q) == if equal(q, k) then None else Get(equal, was, q) {
        if e.Some? {
          GetRemoved(equal, was, e.value, q);
          assert equal(q, k) <==> equal(q, was[e.value].key) by {
            assert equal(k, was[e.value].key) && equal(was[e.value].key, k);
          }
        } else if equal(q, k) {
          assert equal(k, q);
          GetNone(equal, was, q);
        }
      }
    }
  }

  // ---------- The keys of the server ----------

  /** A key that can be compared. */
  type DomainKey = k: Key | IsName(k.name) witness Key([], CLASS_IN, TYPE_A)

  /** avahi_key_equal and avahi_key_hash, as the server gives them to its tables. */
  predicate KeyEqual(a: DomainKey, b: DomainKey) {
    SameKey(a, b)
  }

  function KeyNumber(k: DomainKey): nat {
    KeyHash(k)
  }

  /** They meet what a table demands. */
  lemma KeysFit()
    ensures Equivalence(KeyEqual) && Respects(KeyNumber, KeyEqual)
  {
    hide KeyHash, HashLabels;
    forall a: DomainKey, b: DomainKey ensures KeyEqual(a, b) ==> KeyNumber(a) == KeyNumber(b) {
      if SameKey(a, b) {
        EqualKeysHashEqual(a, b);
      }
    }
  }
}
