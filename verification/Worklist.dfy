/** avahi-core/rrlist.c, and from avahi-core/server.c the enumeration of auxiliary records and the legacy-unicast loop
    of avahi_server_generate_response that follows it. */
module Worklist {
  import opened Bytes
  import opened Records
  import opened NameRelations
  import opened Identity
  import opened Names

  // ---------- The record list ----------

  datatype Item = Item(record: Rec, flushCache: bool, unicast: bool, auxiliary: bool)

  function Ids(items: seq<Item>): set<Ident> {
    set k | 0 <= k < |items| :: Id(items[k].record)
  }

  predicate Distinct(items: seq<Item>) {
    forall j, k {:trigger items[j], items[k]} :: 0 <= j < k < |items| ==> Id(items[j].record) != Id(items[k].record)
  }

  lemma IdsOfConcat(a: seq<Item>, b: seq<Item>)
    ensures Ids(a + b) == Ids(a) + Ids(b)
  {
    hide Id;
    forall i | i in Ids(a) + Ids(b) ensures i in Ids(a + b) {
      if i in Ids(a) {
        var k :| 0 <= k < |a| && Id(a[k].record) == i;
        assert (a + b)[k] == a[k];
      } else {
        var k :| 0 <= k < |b| && Id(b[k].record) == i;
        assert (a + b)[|a| + k] == b[k];
      }
    }
  }

  lemma IdsOfOne(x: Item)
    ensures Ids([x]) == {Id(x.record)}
  {
    hide Id;
    assert [x][0] == x;
  }

  class RecordList {
    var read: seq<Item>
    var unread: seq<Item>
    var allFlushCache: bool

    /** No two items, read or not, are equal ignoring TTL. */
    ghost predicate Valid()
      reads this
    {
      Distinct(read + unread) && (allFlushCache ==> forall x :: x in read + unread ==> x.flushCache)
    }

    ghost function Seen(): set<Ident>
      reads this
    {
      Ids(read) + Ids(unread)
    }

    constructor ()
      ensures Valid() && read == unread == [] && allFlushCache
    {
      read, unread, allFlushCache := [], [], true;
    }

    /** get: among the items that were read, then among those that were not. */
    method Has(r: Rec) returns (found: bool)
      ensures found <==> Id(r) in Seen()
    {
      found := HasIn(read, r);
      if !found {
        found := HasIn(unread, r);
      }
    }

    static method HasIn(items: seq<Item>, r: Rec) returns (found: bool)
      ensures found <==> Id(r) in Ids(items)
    {
      hide Id, SameRecord;
      for k := 0 to |items|
        invariant forall j :: 0 <= j < k ==> Id(items[j].record) != Id(r)
      {
        SameRecordSameId(items[k].record, r);
        if SameRecord(items[k].record, r) {
          return true;
        }
      }
      return false;
    }

    /** avahi_record_list_push: records that are in either list already are ignored. */
    method Push(x: Item)
      requires Valid()
      modifies `unread, `allFlushCache
      ensures Valid()
      ensures unread == if Id(x.record) in old(Seen()) then old(unread) else [x] + old(unread)
      ensures Seen() == old(Seen()) + {Id(x.record)}
    {
      hide Id;
      var found := Has(x.record);
      if found {
        return;
      }
      allFlushCache := allFlushCache && x.flushCache;
      IdsOfConcat([x], unread);
      IdsOfOne(x);
      PushedDistinct(read, x, unread);
      hide Ids, Distinct;
      unread := [x] + unread;
    }

    lemma PushedDistinct(a: seq<Item>, x: Item, b: seq<Item>)
      requires Distinct(a + b) && Id(x.record) !in Ids(a) && Id(x.record) !in Ids(b)
      ensures Distinct(a + ([x] + b))
    {
      hide Id;
      var l, m := a + b, a + ([x] + b);
      forall j, k {:trigger m[j], m[k]} | 0 <= j < k < |m| ensures Id(m[j].record) != Id(m[k].record) {
        var j', k' := if j < |a| then j else j - 1, if k < |a| then k else k - 1;
        if j != |a| && k != |a| {
          assert m[j] == l[j'] && m[k] == l[k'];
        } else if j == |a| {
          assert m[j] == x && m[k] == b[k - |a| - 1];
        } else {
          assert m[k] == x && m[j] == a[j];
        }
      }
    }

    /** avahi_record_list_next: the first unread item is read. */
    method Next() returns (x: Option<Item>)
      requires Valid()
      modifies `read, `unread
      ensures Valid() && Seen() == old(Seen())
      ensures x.None? <==> old(unread) == []
      ensures x.Some? ==> x.value == old(unread)[0] && unread == old(unread)[1..] && read == [x.value] + old(read)
      ensures x.None? ==> unread == old(unread) && read == old(read)
    {
      if unread == [] {
        return None;
      }
      x := Some(unread[0]);
      hide Id;
      assert unread == [unread[0]] + unread[1..];
      IdsOfConcat([unread[0]], unread[1..]);
      IdsOfConcat([unread[0]], read);
      MovedDistinct(read, unread[0], unread[1..]);
      hide Ids, Distinct;
      read, unread := [unread[0]] + read, unread[1..];
    }

    lemma MovedDistinct(a: seq<Item>, x: Item, b: seq<Item>)
      requires Distinct(a + ([x] + b))
      ensures Distinct(([x] + a) + b)
    {
      hide Id;
      var l, m := a + ([x] + b), ([x] + a) + b;
      forall j, k {:trigger m[j], m[k]} | 0 <= j < k < |m| ensures Id(m[j].record) != Id(m[k].record) {
        var j' := if j == 0 then |a| else if j <= |a| then j - 1 else j;
        var k' := if k <= |a| then k - 1 else k;
        assert m[j] == l[j'] && m[k] == l[k'] && j' != k';
      }
    }
  }

  // ---------- Auxiliary records ----------

  /** An entry of the server; registered: it is live and registered on the interface at hand. */
  datatype Offer = Offer(record: Rec, unique: bool, registered: bool)

  /** What enum_aux_records looks for: records of class IN with this name, and of this type unless it is ANY. */
  predicate LooksFor(labels: seq<Text>, kind: Uint16, k: KeyClass) {
    k.labels == labels && k.clazz == CLASS_IN && (kind == TYPE_ANY || k.kind == kind)
  }

  /** The reference relation: PTR to SRV and TXT, SRV to A and AAAA, CNAME to everything of that name. */
  predicate Refers(i: Ident, j: Ident) {
    && i.key.clazz == CLASS_IN
    && ((i.key.kind == TYPE_PTR && i.data.TargetClass?
         && (LooksFor(i.data.labels, TYPE_SRV, j.key) || LooksFor(i.data.labels, TYPE_TXT, j.key)))
        || (i.key.kind == TYPE_SRV && i.data.ServiceClass?
            && (LooksFor(i.data.labels, TYPE_A, j.key) || LooksFor(i.data.labels, TYPE_AAAA, j.key)))
        || (i.key.kind == TYPE_CNAME && i.data.TargetClass? && LooksFor(i.data.labels, TYPE_ANY, j.key)))
  }

  /** By the numbers of the types: in class 1, a CNAME (5) refers to every record of the name it points to, a PTR (12)
      to the SRV (33) and TXT (16) records of it, an SRV (33) to the A (1) and AAAA (28) records of its host, and
      nothing else refers to anything. */
  lemma RefersByNumber(r: Rec, s: Rec)
    ensures Refers(Id(r), Id(s)) <==>
            && r.key.clazz == 1 && s.key.clazz == 1
            && (r.key.kind == 5 || r.key.kind == 12 || r.key.kind == 33)
            && SameLabels(NameLabels(r.data.name).value, NameLabels(s.key.name).value)
            && (r.key.kind == 12 ==> s.key.kind == 33 || s.key.kind == 16)
            && (r.key.kind == 33 ==> s.key.kind == 1 || s.key.kind == 28)
  {
    if r.key.kind == 5 || r.key.kind == 12 || r.key.kind == 33 {
      FoldedLabels(NameLabels(r.data.name).value, NameLabels(s.key.name).value);
    }
    hide NameLabels, FoldedAll, SameLabels;
  }

  function Found(entries: seq<Offer>, labels: seq<Text>, kind: Uint16): set<Ident> {
    set k | 0 <= k < |entries| && entries[k].registered && LooksFor(labels, kind, Id(entries[k].record).key) ::
      Id(entries[k].record)
  }

  /** The registered records a record refers to. */
  function Referred(entries: seq<Offer>, i: Ident): set<Ident> {
    set k | 0 <= k < |entries| && entries[k].registered && Refers(i, Id(entries[k].record)) :: Id(entries[k].record)
  }

  lemma FoundMore(entries: seq<Offer>, n: nat, labels: seq<Text>, kind: Uint16)
    requires n < |entries|
    ensures Found(entries[..n + 1], labels, kind) ==
            Found(entries[..n], labels, kind)
            + if entries[n].registered && LooksFor(labels, kind, Id(entries[n].record).key)
              then {Id(entries[n].record)} else {}
  {
    hide Id, LooksFor;
    var a, b := entries[..n + 1], entries[..n];
    assert a[n] == entries[n] && forall k :: 0 <= k < n ==> a[k] == b[k];
  }

  /** enum_aux_records with append_aux_callback. */
  method EnumAux(list: RecordList, entries: seq<Offer>, labels: seq<Text>, kind: Uint16, unicast: bool)
    requires list.Valid()
    modifies list`unread, list`allFlushCache
    ensures list.Valid() && list.Seen() == old(list.Seen()) + Found(entries, labels, kind)
    ensures list.Seen() == old(list.Seen()) ==> list.unread == old(list.unread)
  {
    hide Id, LooksFor, Ids, Distinct, Found;
    assert Found(entries[..0], labels, kind) == {} by { FoundNothing(entries[..0], labels, kind); }
    for k := 0 to |entries|
      invariant list.Valid() && list.Seen() == old(list.Seen()) + Found(entries[..k], labels, kind)
      invariant list.Seen() == old(list.Seen()) ==> list.unread == old(list.unread)
    {
      FoundMore(entries, k, labels, kind);
      var e := entries[k];
      LooksForRecord(labels, kind, e.record);
      if e.registered && e.record.key.clazz == CLASS_IN && (kind == TYPE_ANY || e.record.key.kind == kind)
         && FoldedAll(NameLabels(e.record.key.name).value) == labels {
        list.Push(Item(e.record, e.unique, unicast, true));
      }
    }
    assert entries[..|entries|] == entries;
  }

  lemma LooksForRecord(labels: seq<Text>, kind: Uint16, r: Rec)
    ensures LooksFor(labels, kind, Id(r).key) <==>
            && r.key.clazz == CLASS_IN && (kind == TYPE_ANY || r.key.kind == kind)
            && FoldedAll(NameLabels(r.key.name).value) == labels
  {
  }

  lemma FoundNothing(entries: seq<Offer>, labels: seq<Text>, kind: Uint16)
    requires entries == []
    ensures Found(entries, labels, kind) == {}
  {
  }

  /** avahi_server_enumerate_aux_records: what a record of each type refers to. */
  lemma ReferredIs(entries: seq<Offer>, i: Ident)
    ensures Referred(entries, i) ==
            if i.key.clazz != CLASS_IN then {}
            else if i.key.kind == TYPE_PTR && i.data.TargetClass?
            then Found(entries, i.data.labels, TYPE_SRV) + Found(entries, i.data.labels, TYPE_TXT)
            else if i.key.kind == TYPE_SRV && i.data.ServiceClass?
            then Found(entries, i.data.labels, TYPE_A) + Found(entries, i.data.labels, TYPE_AAAA)
            else if i.key.kind == TYPE_CNAME && i.data.TargetClass? then Found(entries, i.data.labels, TYPE_ANY)
            else {}
  {
    hide Id, LooksFor;
  }

  /** append_aux_records_to_list. */
  method AppendAux(list: RecordList, entries: seq<Offer>, r: Rec, unicast: bool)
    requires list.Valid()
    modifies list`unread, list`allFlushCache
    ensures list.Valid() && list.Seen() == old(list.Seen()) + Referred(entries, Id(r))
    ensures list.Seen() == old(list.Seen()) ==> list.unread == old(list.unread)
  {
    ReferredIs(entries, Id(r));
    TypeDecidesData(r);
    hide Ids, Distinct, Found, Referred;
    if r.key.clazz == CLASS_IN {
      if r.key.kind == TYPE_PTR {
        EnumAux(list, entries, Id(r).data.labels, TYPE_SRV, unicast);
        EnumAux(list, entries, Id(r).data.labels, TYPE_TXT, unicast);
      } else if r.key.kind == TYPE_SRV {
        EnumAux(list, entries, Id(r).data.labels, TYPE_A, unicast);
        EnumAux(list, entries, Id(r).data.labels, TYPE_AAAA, unicast);
      } else if r.key.kind == TYPE_CNAME {
        EnumAux(list, entries, Id(r).data.labels, TYPE_ANY, unicast);
      }
    }
  }

  lemma TypeDecidesData(r: Rec)
    ensures Id(r).key.kind == r.key.kind && Id(r).key.clazz == r.key.clazz
    ensures r.key.kind == TYPE_PTR || r.key.kind == TYPE_CNAME ==> Id(r).data.TargetClass?
    ensures r.key.kind == TYPE_SRV ==> Id(r).data.ServiceClass?
  {
  }

  // ---------- The loop ----------

  /** A set of records that holds whatever its members refer to. */
  predicate Closed(entries: seq<Offer>, t: set<Ident>) {
    forall i :: i in t ==> Referred(entries, i) <= t
  }

  /** The least closed set that contains the given records. */
  ghost predicate LeastClosed(entries: seq<Offer>, init: set<Ident>, s: set<Ident>) {
    && init <= s && Closed(entries, s)
    && forall t {:trigger Closed(entries, t)} :: init <= t && Closed(entries, t) ==> s <= t
  }

  function Offered(entries: seq<Offer>): set<Ident> {
    set k | 0 <= k < |entries| :: Id(entries[k].record)
  }

  lemma ReferredIsOffered(entries: seq<Offer>, i: Ident)
    ensures Referred(entries, i) <= Offered(entries)
  {
    hide Id, Refers;
  }

  lemma Fewer(u: set<Ident>, s: set<Ident>, t: set<Ident>)
    requires s <= t <= u
    ensures |u - t| <= |u - s| && (s != t ==> |u - t| < |u - s|)
  {
    assert u - s == (u - t) + (t - s);
    if s != t {
      assert t - s != {};
    }
  }

  /** Half-way: what the records that were read refer to has been seen, and nothing beyond need. */
  ghost predicate Working(entries: seq<Offer>, init: set<Ident>, seen: set<Ident>, read: set<Ident>) {
    && init <= seen <= init + Offered(entries)
    && (forall i :: i in read ==> Referred(entries, i) <= seen)
    && (forall t {:trigger Closed(entries, t)} :: init <= t && Closed(entries, t) ==> seen <= t)
  }

  lemma WorkingStep(entries: seq<Offer>, init: set<Ident>, seen: set<Ident>, read: set<Ident>, i: Ident)
    requires Working(entries, init, seen, read) && i in seen
    ensures Working(entries, init, seen + Referred(entries, i), {i} + read)
  {
    hide Referred, Offered;
    ReferredIsOffered(entries, i);
  }

  lemma WorkingDone(entries: seq<Offer>, init: set<Ident>, seen: set<Ident>)
    requires Working(entries, init, seen, seen)
    ensures LeastClosed(entries, init, seen)
  {
    hide Referred, Offered;
  }

  /** One round: the next record is taken, and what it refers to is pushed. */
  method Consider(list: RecordList, entries: seq<Offer>, ghost init: set<Ident>) returns (x: Option<Item>)
    requires list.Valid() && Working(entries, init, list.Seen(), Ids(list.read))
    modifies list
    ensures list.Valid() && Working(entries, init, list.Seen(), Ids(list.read))
    ensures x.None? ==>
              && old(list.unread) == [] && list.unread == [] && list.read == old(list.read)
              && list.Seen() == old(list.Seen())
    ensures x.Some? ==> list.read == [x.value] + old(list.read) && old(list.Seen()) <= list.Seen()
    ensures x.Some? && list.Seen() == old(list.Seen()) ==> |list.unread| < old(|list.unread|)
  {
    hide Id, Ids, Distinct, Referred, Working;
    ghost var seen, read := list.Seen(), list.read;
    x := list.Next();
    if x.Some? {
      NewlyRead(x.value, read, list.unread);
      WorkingStep(entries, init, seen, Ids(read), Id(x.value.record));
      AppendAux(list, entries, x.value.record, false);
    }
  }

  /** The loop of avahi_server_generate_response for legacy unicast: the records it considers, the latest first. */
  method Respond(list: RecordList, entries: seq<Offer>) returns (considered: seq<Item>)
    requires list.Valid() && list.read == []
    modifies list
    ensures Distinct(considered) && LeastClosed(entries, old(Ids(list.unread)), Ids(considered))
    ensures list.Valid() && list.unread == []
  {
    assert Ids([]) == {};
    hide Id, Ids, Distinct, Offered, Working, LeastClosed;
    ghost var init := Ids(list.unread);
    considered := [];
    NothingYet(entries, init);
    while true
      invariant list.Valid() && considered == list.read && Working(entries, init, list.Seen(), Ids(considered))
      decreases |init + Offered(entries) - list.Seen()|, |list.unread|
    {
      ghost var seen := list.Seen();
      var x := Consider(list, entries, init);
      if x.None? {
        break;
      }
      InUniverse(entries, init, list.Seen(), Ids(list.read));
      Fewer(init + Offered(entries), seen, list.Seen());
      considered := [x.value] + considered;
    }
    AllRead(list, considered);
    WorkingDone(entries, init, list.Seen());
  }

  lemma NothingYet(entries: seq<Offer>, init: set<Ident>)
    ensures Working(entries, init, init, {})
  {
  }

  lemma InUniverse(entries: seq<Offer>, init: set<Ident>, seen: set<Ident>, read: set<Ident>)
    requires Working(entries, init, seen, read)
    ensures seen <= init + Offered(entries)
  {
  }

  lemma NewlyRead(x: Item, read: seq<Item>, unread: seq<Item>)
    ensures Ids([x] + read) == {Id(x.record)} + Ids(read)
    ensures Id(x.record) in Ids([x] + read) + Ids(unread)
  {
    IdsOfConcat([x], read);
    IdsOfOne(x);
  }

  lemma AllRead(list: RecordList, considered: seq<Item>)
    requires list.Valid() && list.unread == [] && considered == list.read
    ensures list.Seen() == Ids(considered) && Distinct(considered)
  {
    assert list.read + list.unread == list.read;
    assert Ids([]) == {};
  }
}
