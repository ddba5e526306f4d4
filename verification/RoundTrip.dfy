/** The codec as a whole: any run of appends to a packet reads back as the items that fitted. */
module RoundTrip {
  import opened Bytes
  import opened Names
  import opened Records
  import opened Walk
  import opened Wire
  import opened Reader
  import opened Message

  /** A packet under construction, as a value. */
  datatype Contents = Contents(bytes: Text, table: Table, max: nat)

  datatype Item = Question(key: Key, unicast: bool) | Answer(record: Record, flush: bool, maxTtl: Uint32)

  /** What every append keeps: room for the header, and a table whose entries decode to their names. */
  predicate Sound(p: Contents) {
    HEADER_SIZE <= |p.bytes| <= p.max && GoodTable(p.bytes, p.table)
  }

  predicate Fresh(p: Contents) {
    |p.bytes| == HEADER_SIZE <= p.max && p.table == map[]
  }

  function ItemOut(p: Contents, item: Item): Option<Written> {
    match item
    case Question(k, u) => KeyOut(|p.bytes|, p.table, p.max, k, u)
    case Answer(r, f, m) => RecordOut(|p.bytes|, p.table, p.max, r, f, m)
  }

  /** The packet after trying to append an item: unchanged when the append fails. */
  function Append(p: Contents, item: Item): Contents {
    match ItemOut(p, item)
    case None => p
    case Some(w) => Contents(p.bytes + w.wire, w.table, p.max)
  }

  predicate Fits(p: Contents, item: Item) {
    ItemOut(p, item).Some?
  }

  function AppendAll(p: Contents, items: seq<Item>): Contents
    decreases |items|
  {
    if items == [] then p else AppendAll(Append(p, items[0]), items[1..])
  }

  /** The items that found room, in order. */
  function Kept(p: Contents, items: seq<Item>): seq<Item>
    decreases |items|
  {
    if items == [] then []
    else (if Fits(p, items[0]) then [items[0]] else []) + Kept(Append(p, items[0]), items[1..])
  }

  lemma {:induction false} AppendOne(p: Contents, items: seq<Item>, x: Item)
    ensures AppendAll(p, items + [x]) == Append(AppendAll(p, items), x)
    ensures Kept(p, items + [x]) == Kept(p, items) + if Fits(AppendAll(p, items), x) then [x] else []
    decreases |items|
  {
    hide Append, Fits;
    if items == [] {
      assert (items + [x])[1..] == [];
    } else {
      assert (items + [x])[1..] == items[1..] + [x];
      AppendOne(Append(p, items[0]), items[1..], x);
    }
  }

  lemma {:induction false} AppendMore(p: Contents, a: seq<Item>, b: seq<Item>)
    ensures AppendAll(p, a + b) == AppendAll(AppendAll(p, a), b)
    ensures Kept(p, a + b) == Kept(p, a) + Kept(AppendAll(p, a), b)
    decreases |a|
  {
    hide Append, Fits;
    if a == [] {
      EmptySides(b);
    } else {
      assert (a + b)[1..] == a[1..] + b && (a + b)[0] == a[0];
      AppendMore(Append(p, a[0]), a[1..], b);
    }
  }

  /** What the reader makes of an item. */
  function AsRead(item: Item): Item {
    match item
    case Question(k, u) => Question(ReceivedKey(k), u || k.clazz >= 0x8000)
    case Answer(r, f, m) => Answer(Received(r, m), f, 0)
  }

  function AllAsRead(items: seq<Item>): (r: seq<Item>)
    ensures |r| == |items| && forall i :: 0 <= i < |items| ==> r[i] == AsRead(items[i])
  {
    seq(|items|, i requires 0 <= i < |items| => AsRead(items[i]))
  }

  /** An item the reader gives back. */
  predicate Survives(item: Item, steps: nat) {
    match item
    case Question(k, _) => Readable(k.name, steps) && |k.name| < KEY_NAME_SIZE
    case Answer(r, _, _) => ReadableRecord(r, steps)
  }

  predicate AllSurvive(items: seq<Item>, steps: nat) {
    forall i :: 0 <= i < |items| ==> Survives(items[i], steps)
  }

  /** Reading the next item, as a question or as a record. */
  function ReadItem(b: Text, i: nat, question: bool, steps: nat): Read<Item> {
    if question then
      var (q, i) :- ReadKey(b, i, steps);
      Got(Question(q.0, q.1), i)
    else
      var (a, i) :- ReadRecord(b, i, steps);
      Got(Answer(a.0, a.1, 0), i)
  }

  /** Reading as many items as the given ones, of the same kinds. */
  function ReadLike(b: Text, i: nat, like: seq<Item>, steps: nat): Read<seq<Item>>
    decreases |like|
  {
    if like == [] then Got([], i)
    else
      var (item, i) :- ReadItem(b, i, like[0].Question?, steps);
      var (rest, i) :- ReadLike(b, i, like[1..], steps);
      Got([item] + rest, i)
  }

  lemma FreshIsSound(p: Contents)
    requires Fresh(p)
    ensures Sound(p)
  {
  }

  lemma ItemStays(p: Contents, item: Item)
    requires |p.bytes| <= p.max && Fits(p, item)
    ensures |Append(p, item).bytes| <= p.max
  {
    hide NameOut, GoodTable;
    if item.Answer? {
      NameOutStays(p.bytes, p.table, p.max, item.record.key.name);
    }
  }

  lemma ItemRoundTrip(p: Contents, item: Item, steps: nat)
    requires Sound(p) && Survives(item, steps)
    ensures Sound(Append(p, item)) && p.bytes <= Append(p, item).bytes
    ensures Fits(p, item) ==>
              ReadItem(Append(p, item).bytes, |p.bytes|, item.Question?, steps) ==
              Got(AsRead(item), |Append(p, item).bytes|)
  {
    hide NameOut, DataOut, GoodTable, ReadKey, ReadRecord, KeyOut, RecordOut, Readable, ReadableRecord;
    if Fits(p, item) {
      ItemStays(p, item);
      match item
      case Question(k, u) => KeyRoundTrip(p.bytes, p.table, p.max, k, u, steps);
      case Answer(r, f, m) => RecordRoundTrip(p.bytes, p.table, p.max, r, f, m, steps);
    }
  }

  lemma ReadItemExtends(b: Text, c: Text, i: nat, question: bool, steps: nat)
    requires b <= c && ReadItem(b, i, question, steps).Got?
    ensures ReadItem(c, i, question, steps) == ReadItem(b, i, question, steps)
  {
    hide ReadKey, ReadRecord;
    if question {
      ReadKeyExtends(b, c, i, steps);
    } else {
      ReadRecordExtends(b, c, i, steps);
    }
  }

  lemma AsReadOneMore(x: Item, rest: seq<Item>)
    ensures AllAsRead([x] + rest) == [AsRead(x)] + AllAsRead(rest)
  {
    hide AsRead;
  }

  lemma ReadLikeStep(b: Text, i: nat, like: seq<Item>, steps: nat)
    requires like != [] && ReadItem(b, i, like[0].Question?, steps).Got?
    ensures var first := ReadItem(b, i, like[0].Question?, steps);
            var more := ReadLike(b, first.next, like[1..], steps);
            more.Got? ==> ReadLike(b, i, like, steps) == Got([first.value] + more.value, more.next)
  {
    hide ReadItem;
  }

  lemma ReadOneMore(b: Text, i: nat, j: nat, x: Item, rest: seq<Item>, steps: nat)
    requires ReadItem(b, i, x.Question?, steps) == Got(AsRead(x), j)
    requires ReadLike(b, j, rest, steps) == Got(AllAsRead(rest), |b|)
    ensures ReadLike(b, i, [x] + rest, steps) == Got(AllAsRead([x] + rest), |b|)
  {
    hide ReadItem, ReadLike, AsRead, AllAsRead;
    assert ([x] + rest)[1..] == rest;
    ReadLikeStep(b, i, [x] + rest, steps);
    AsReadOneMore(x, rest);
  }

  /** A whole run of appends. */
  lemma {:induction false} RunRoundTrip(p: Contents, items: seq<Item>, steps: nat)
    requires Sound(p) && AllSurvive(items, steps)
    ensures var q := AppendAll(p, items);
            && Sound(q) && p.bytes <= q.bytes
            && ReadLike(q.bytes, |p.bytes|, Kept(p, items), steps) == Got(AllAsRead(Kept(p, items)), |q.bytes|)
    decreases |items|
  {
    hide Sound, Survives, ReadItem, ItemOut, Append, Fits, AsRead, AllAsRead;
    if items != [] {
      var p1, q := Append(p, items[0]), AppendAll(p, items);
      ItemRoundTrip(p, items[0], steps);
      RunRoundTrip(p1, items[1..], steps);
      hide AppendAll, ReadLike;
      var rest := Kept(p1, items[1..]);
      if Fits(p, items[0]) {
        ReadItemExtends(p1.bytes, q.bytes, |p.bytes|, items[0].Question?, steps);
        ReadOneMore(q.bytes, |p.bytes|, |p1.bytes|, items[0], rest, steps);
      } else {
        SameBytes(p, items[0]);
        EmptySides(rest);
      }
    } else {
      NothingRead(p.bytes, steps);
    }
  }

  lemma NothingRead(b: Text, steps: nat)
    ensures ReadLike(b, |b|, [], steps) == Got(AllAsRead([]), |b|)
  {
  }

  lemma SameBytes(p: Contents, item: Item)
    requires !Fits(p, item)
    ensures Append(p, item) == p
  {
  }

  lemma {:induction false} HeaderCannotMatter(b: Text, c: Text, i: nat, like: seq<Item>, steps: nat)
    requires SameBody(b, c) && HEADER_SIZE <= i && ReadLike(b, i, like, steps).Got?
    ensures ReadLike(c, i, like, steps) == ReadLike(b, i, like, steps)
    decreases |like|
  {
    hide ReadKey, ReadRecord, SameBody;
    if like != [] {
      if like[0].Question? {
        SameKey(b, c, i, steps);
        KeyAdvances(b, i, steps);
      } else {
        SameRecord(b, c, i, steps);
        RecordAdvances(b, i, steps);
      }
      HeaderCannotMatter(b, c, ReadItem(b, i, like[0].Question?, steps).next, like[1..], steps);
    }
  }

  lemma KeyAdvances(b: Text, i: nat, steps: nat)
    requires ReadKey(b, i, steps).Got?
    ensures ReadKey(b, i, steps).next >= i
  {
    hide NameText, Extent, Word;
  }

  lemma RecordAdvances(b: Text, i: nat, steps: nat)
    requires ReadRecord(b, i, steps).Got?
    ensures ReadRecord(b, i, steps).next >= i
  {
    hide NameText, Extent, Word, ReadData, Normal;
  }

  /** Codec round trip: items appended to a fresh packet, with failed appends in between, are read back
      exactly and in order, whatever the header fields are set to afterwards. */
  lemma CodecRoundTrip(p: Contents, items: seq<Item>, sent: Text)
    requires Fresh(p) && AllSurvive(items, LABELS_MAX)
    requires SameBody(AppendAll(p, items).bytes, sent)
    ensures ReadLike(sent, HEADER_SIZE, Kept(p, items), LABELS_MAX) == Got(AllAsRead(Kept(p, items)), |sent|)
  {
    FreshIsSound(p);
    RunForAnyLimit(p, items, sent, LABELS_MAX);
  }

  lemma RunForAnyLimit(p: Contents, items: seq<Item>, sent: Text, steps: nat)
    requires Sound(p) && AllSurvive(items, steps)
    requires SameBody(AppendAll(p, items).bytes, sent)
    ensures ReadLike(sent, |p.bytes|, Kept(p, items), steps) == Got(AllAsRead(Kept(p, items)), |sent|)
  {
    hide ReadLike, Kept, AppendAll, GoodTable;
    RunRoundTrip(p, items, steps);
    HeaderCannotMatter(AppendAll(p, items).bytes, sent, |p.bytes|, Kept(p, items), steps);
  }
}
