/** The bytes that avahi-core/dns.c writes, in the form of sections 3.2.1, 3.3 and 4.1 of RFC 1035 and section 10.2 of
    RFC 6762, by numbers alone. */
module WireForm {
  import opened Bytes
  import opened Names
  import opened Records
  import opened NameRelations
  import opened Wire
  import opened Message
  import opened WireOrder
  import Utf8

  // ---------- Names ----------

  /** A name with compression against table t: labels with their lengths, up to the first suffix that t has below
      0x4000, and then a pointer there, with its two top bits set, or a zero byte at the end. */
  function NameBytes(t: Table, name: Text): seq<int>
    decreases |name|
  {
    if name == [] then [0]
    else if name in t && t[name] < 0x4000 then [0xC0 + t[name] / 256, t[name] % 256]
    else match Unescape(name, LABEL_MAX)
      case None => []
      case Some(p) =>
        ScanFacts(name, LABEL_MAX);
        [|p.lbl|] + (p.lbl + NameBytes(t, p.rest))
  }

  lemma SameEntry(t: Table, u: Table, name: Text)
    requires SameUpTo(t, u, |name|)
    ensures Compressible(t, name) <==> Compressible(u, name)
    ensures Compressible(t, name) ==> t[name] == u[name]
  {
  }

  lemma ShorterOnly(t: Table, u: Table, off: nat, name: Text, n: nat)
    requires SameUpTo(t, u, |name|) && n < |name|
    ensures SameUpTo(t, Insert(u, name, off), n)
  {
  }

  lemma PieceFacts(name: Text)
    requires name != [] && Unescape(name, LABEL_MAX).Some?
    ensures var p := Unescape(name, LABEL_MAX).value;
            |p.lbl| < LABEL_MAX && |p.rest| < |name|
  {
    hide Utf8.WellFormed;
    ScanFacts(name, LABEL_MAX);
  }

  /** One label of a name that is written. */
  lemma LabelWritten(off: nat, u: Table, max: nat, name: Text)
    requires name != [] && !Compressible(u, name) && NameLoop(off, u, max, name).status.Done?
    ensures Unescape(name, LABEL_MAX).Some?
    ensures var p := Unescape(name, LABEL_MAX).value;
            var o := NameLoop(off + 1 + |p.lbl|, Insert(u, name, off), max, p.rest);
            && |p.rest| < |name| && o.status.Done?
            && NameLoop(off, u, max, name).wire == [|p.lbl|] + p.lbl + o.wire
  {
    hide Unescape, Insert, Compressible;
    if Unescape(name, LABEL_MAX).Some? {
      PieceFacts(name);
    }
  }

  lemma BytesStep(t: Table, name: Text)
    requires name != [] && !Compressible(t, name) && Unescape(name, LABEL_MAX).Some?
    ensures var p := Unescape(name, LABEL_MAX).value;
            NameBytes(t, name) == [|p.lbl|] + (p.lbl + NameBytes(t, p.rest))
  {
    hide Unescape;
  }

  lemma LabelBytes(off: nat, t: Table, u: Table, max: nat, name: Text)
    requires name != [] && !Compressible(u, name) && !Compressible(t, name) && NameLoop(off, u, max, name).status.Done?
    ensures Unescape(name, LABEL_MAX).Some?
    ensures var p := Unescape(name, LABEL_MAX).value;
            var o := NameLoop(off + 1 + |p.lbl|, Insert(u, name, off), max, p.rest);
            && |p.rest| < |name| && o.status.Done?
            && (o.wire == NameBytes(t, p.rest) ==> NameLoop(off, u, max, name).wire == NameBytes(t, name))
  {
    hide Unescape, NameLoop, NameBytes, Insert, Compressible;
    LabelWritten(off, u, max, name);
    BytesStep(t, name);
    var p := Unescape(name, LABEL_MAX).value;
    Regroup([|p.lbl|], p.lbl, NameBytes(t, p.rest));
  }

  lemma EndBytes(off: nat, t: Table, u: Table, max: nat, name: Text)
    requires name == [] || (Compressible(u, name) && Compressible(t, name) && t[name] == u[name])
    requires NameLoop(off, u, max, name).status.Done?
    ensures NameLoop(off, u, max, name).wire == NameBytes(t, name)
  {
    hide Unescape;
  }

  lemma {:induction false} LoopBytes(off: nat, t: Table, u: Table, max: nat, name: Text)
    requires SameUpTo(t, u, |name|) && NameLoop(off, u, max, name).status.Done?
    ensures NameLoop(off, u, max, name).wire == NameBytes(t, name)
    decreases |name|
  {
    hide NameLoop, NameBytes, Unescape, Insert, SameUpTo, Compressible;
    SameEntry(t, u, name);
    if name == [] || Compressible(u, name) {
      EndBytes(off, t, u, max, name);
    } else {
      LabelBytes(off, t, u, max, name);
      var p := Unescape(name, LABEL_MAX).value;
      ShorterOnly(t, u, off, name, |p.rest|);
      LoopBytes(off + 1 + |p.lbl|, t, Insert(u, name, off), max, p.rest);
    }
  }

  /** The bytes of every name that is written. */
  lemma WrittenName(off: nat, t: Table, max: nat, name: Text)
    requires NameOut(off, t, max, name).status.Done?
    ensures NameOut(off, t, max, name).wire == NameBytes(t, name)
  {
    LoopBytes(off, t, t, max, name);
  }

  /** The table has no suffix of the name that a pointer could lead to. */
  predicate NoSuffix(t: Table, name: Text)
    decreases |name|
  {
    name == [] ||
    (!(name in t && t[name] < 0x4000) &&
     match Unescape(name, LABEL_MAX)
     case None => true
     case Some(p) =>
       ScanFacts(name, LABEL_MAX);
       NoSuffix(t, p.rest))
  }

  /** Without any the name is written in full. */
  lemma {:induction false} FullName(t: Table, name: Text)
    requires Labels(name).Some? && NoSuffix(t, name)
    ensures NameBytes(t, name) == NameWire(Labels(name).value)
    decreases |name|
  {
    hide Scan;
    if name != [] {
      ScanFacts(name, LABEL_MAX);
      var p := Unescape(name, LABEL_MAX).value;
      FullName(t, p.rest);
      var ls := [p.lbl] + Labels(p.rest).value;
      assert ls[0] == p.lbl && ls[1..] == Labels(p.rest).value;
      assert WireOrder.Piece(p.lbl) + NameWire(ls[1..]) == [|p.lbl|] + (p.lbl + NameWire(ls[1..]));
    }
  }

  lemma {:induction false} EmptyTable(name: Text)
    ensures NoSuffix(map[], name)
    decreases |name|
  {
    hide Scan;
    if name != [] && Unescape(name, LABEL_MAX).Some? {
      ScanFacts(name, LABEL_MAX);
      EmptyTable(Unescape(name, LABEL_MAX).value.rest);
    }
  }

  // ---------- Keys ----------

  function Number16(v: int): seq<int> {
    [v / 256, v % 256]
  }

  function Number32(v: int): seq<int> {
    [v / 0x100_0000, v / 0x1_0000 % 256, v / 256 % 256, v % 256]
  }

  lemma Uint16IsNumber(v: Uint16)
    ensures Uint16Wire(v) == Number16(v)
  {
  }

  lemma Halves(v: nat)
    ensures v / 0x1_0000 / 256 == v / 0x100_0000
    ensures v % 0x1_0000 / 256 == v / 256 % 256 && v % 0x1_0000 % 256 == v % 256
  {
    var a, b := v / 0x1_0000, v % 0x1_0000;
    var c, d := b / 256, b % 256;
    assert v == (a * 256 + c) * 256 + d;
    assert v / 256 == a * 256 + c;
  }

  lemma Uint32IsNumber(v: Uint32)
    ensures Uint32Wire(v) == Number32(v)
  {
    Halves(v);
    var a, b := Uint16Wire(v / 0x1_0000), Uint16Wire(v % 0x1_0000);
    assert a == [v / 0x100_0000, v / 0x1_0000 % 256];
    assert b == [v / 256 % 256, v % 256];
  }

  /** A key is its name, its type, and its class with the top bit set when unicast responses are asked for. */
  lemma KeyBytes(off: nat, t: Table, max: nat, k: Key, unicast: bool)
    requires KeyOut(off, t, max, k, unicast).Some?
    ensures KeyOut(off, t, max, k, unicast).value.wire ==
            NameBytes(t, k.name) +
            (Number16(k.kind) + Number16(if unicast && k.clazz < 0x8000 then k.clazz + 0x8000 else k.clazz))
  {
    hide NameOut;
    WrittenName(off, t, max, k.name);
  }

  // ---------- Records ----------

  /** The data of a record by the number of its type: a compressed name for NS, CNAME and PTR; three numbers and a
      compressed name for SRV; two strings with their lengths for HINFO; strings with their lengths for TXT; and bytes
      as they are for A, AAAA and any other type. */
  function DataBytes(t: Table, kind: Uint16, d: RData): seq<int>
    requires Typed(kind, d)
  {
    if kind in {2, 5, 12} then NameBytes(t, d.name)
    else if kind == 33 then
      Number16(d.priority) + (Number16(d.weight) + (Number16(d.port) + NameBytes(t, d.name)))
    else if kind == 13 then ([|d.cpu|] + d.cpu) + ([|d.os|] + d.os)
    else if kind == 16 then TxtWire(d.strings)
    else if kind in {1, 28} then d.address
    else d.data
  }

  /** Which data goes with which type: a name in the source's own types NS (2), CNAME (5) and PTR (12), four bytes with
      A (1), sixteen with AAAA (28), and at most 65535 bytes with any type that the source does not know. */
  lemma TypedByNumber(kind: Uint16, d: RData)
    ensures Typed(kind, d) <==>
            if kind in {2, 5, 12} then d.Target? && NulFree(d.name)
            else if kind == 33 then d.Service? && NulFree(d.name)
            else if kind == 13 then d.Host? && NulFree(d.cpu) && NulFree(d.os)
            else if kind == 16 then d.Strings?
            else if kind == 1 then d.Address? && |d.address| == 4
            else if kind == 28 then d.Address? && |d.address| == 16
            else d.Generic? && |d.data| <= 65535
  {
  }

  lemma WrittenTarget(off: nat, t: Table, max: nat, d: RData)
    requires d.Target? && DataOut(off, t, max, d).Some?
    ensures DataOut(off, t, max, d).value.wire == NameBytes(t, d.name)
  {
    hide NameOut, NameBytes;
    WrittenName(off, t, max, d.name);
    EmptySides(NameOut(off, t, max, d.name).wire);
  }

  lemma WrittenService(off: nat, t: Table, max: nat, d: RData)
    requires d.Service? && DataOut(off, t, max, d).Some?
    ensures DataOut(off, t, max, d).value.wire ==
            Number16(d.priority) + (Number16(d.weight) + (Number16(d.port) + NameBytes(t, d.name)))
  {
    hide NameOut, NameBytes, Uint16Wire, Number16;
    WrittenName(off + 6, t, max, d.name);
    EmptySides(NameOut(off + 6, t, max, d.name).wire);
    Uint16IsNumber(d.priority);
    Uint16IsNumber(d.weight);
    Uint16IsNumber(d.port);
  }

  lemma WrittenHost(off: nat, t: Table, max: nat, d: RData)
    requires d.Host? && |d.cpu| <= 255 && |d.os| <= 255 && DataOut(off, t, max, d).Some?
    ensures DataOut(off, t, max, d).value.wire == ([|d.cpu|] + d.cpu) + ([|d.os|] + d.os)
  {
    WrittenString(d.cpu);
    WrittenString(d.os);
    hide CStringWire;
  }

  /** A string is written whole when it has at most 255 bytes, and otherwise the first 255 of it are. */
  lemma WrittenString(s: Text)
    ensures |s| <= 255 ==> CStringWire(s) == [|s|] + s
    ensures |s| > 255 ==> |CStringWire(s)| == 256 && CStringWire(s)[0] == 255 && CStringWire(s)[1..] <= s
  {
  }

  lemma WrittenData(off: nat, t: Table, max: nat, kind: Uint16, d: RData)
    requires Typed(kind, d) && ValidData(kind, d) && DataOut(off, t, max, d).Some?
    ensures DataOut(off, t, max, d).value.wire == DataBytes(t, kind, d)
  {
    if d.Target? {
      hide DataOut, NameBytes;
      WrittenTarget(off, t, max, d);
    } else if d.Service? {
      hide DataOut, NameBytes;
      WrittenService(off, t, max, d);
    } else if d.Host? {
      hide DataOut, NameBytes;
      WrittenHost(off, t, max, d);
    } else {
      hide NameBytes, TxtWire, NameOut;
    }
  }

  /** The fixed part: type, class with the flush bit instead of its top bit, TTL up to a maximum if that is given, and
      the length of the data. */
  function FixedBytes(r: Record, flush: bool, maxTtl: Uint32, len: nat): seq<int> {
    Number16(r.key.kind) +
    (Number16(r.key.clazz % 0x8000 + if flush then 0x8000 else 0) +
     (Number32(if maxTtl != 0 && maxTtl < r.ttl then maxTtl else r.ttl) + Number16(len % 0x1_0000)))
  }

  lemma WrittenFixed(r: Record, flush: bool, maxTtl: Uint32, len: nat)
    ensures FixedWire(r, flush, maxTtl, len) == FixedBytes(r, flush, maxTtl, len)
  {
    Uint32IsNumber(SentTtl(r.ttl, maxTtl));
    hide Number32, Uint32Wire;
  }

  /** A record is its name, the fixed part and the data. The names in the data are compressed against the table as it is
      after the name of the record. */
  lemma RecordBytes(off: nat, t: Table, max: nat, r: Record, flush: bool, maxTtl: Uint32)
    requires WellTyped(r) && ValidRecord(r) && RecordOut(off, t, max, r, flush, maxTtl).Some?
    ensures var u := NameOut(off, t, max, r.key.name).table;
            var d := DataBytes(u, r.key.kind, r.data);
            RecordOut(off, t, max, r, flush, maxTtl).value.wire ==
            NameBytes(t, r.key.name) + FixedBytes(r, flush, maxTtl, |d|) + d
  {
    hide NameOut, DataOut, FixedWire, FixedBytes, DataBytes, ValidDomainName, ValidData, Typed;
    var o := NameOut(off, t, max, r.key.name);
    var at := off + |o.wire| + 10;
    WrittenName(off, t, max, r.key.name);
    WrittenData(at, o.table, max, r.key.kind, r.data);
    WrittenFixed(r, flush, maxTtl, |DataOut(at, o.table, max, r.data).value.wire|);
  }

  /** Without a suffix to point to the data is the uncompressed wire form. */
  lemma FullData(t: Table, kind: Uint16, d: RData)
    requires Typed(kind, d) && (d.Target? || d.Service? ==> Labels(d.name).Some? && NoSuffix(t, d.name))
    ensures d.Target? || d.Service? ==> IsName(d.name)
    ensures DataBytes(t, kind, d) == DataWire(d)
  {
    hide NameBytes, TxtWire;
    if d.Target? || d.Service? {
      FullName(t, d.name);
      RootIsNoLabel();
    }
  }

  lemma RootIsNoLabel()
    ensures Labels([DOT]) == None
  {
  }

  /** In an empty packet, a record whose data has no name, or one that ends like no suffix of the record's own, is
      written in full. */
  lemma FirstRecord(off: nat, max: nat, r: Record, flush: bool, maxTtl: Uint32)
    requires WellTyped(r) && ValidRecord(r) && RecordOut(off, map[], max, r, flush, maxTtl).Some?
    requires Labels(r.key.name).Some?
    requires r.data.Target? || r.data.Service? ==>
               Labels(r.data.name).Some? && NoSuffix(NameOut(off, map[], max, r.key.name).table, r.data.name)
    ensures r.data.Target? || r.data.Service? ==> IsName(r.data.name)
    ensures RecordOut(off, map[], max, r, flush, maxTtl).value.wire ==
            NameWire(Labels(r.key.name).value) + FixedBytes(r, flush, maxTtl, |DataWire(r.data)|) + DataWire(r.data)
  {
    hide RecordOut, NameOut, NameBytes, FixedBytes, DataWire, DataBytes, ValidRecord, ValidDomainName, NoSuffix;
    RecordBytes(off, map[], max, r, flush, maxTtl);
    EmptyTable(r.key.name);
    FullName(map[], r.key.name);
    FullData(NameOut(off, map[], max, r.key.name).table, r.key.kind, r.data);
  }
}
