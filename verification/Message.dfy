/** avahi-core/dns.c: writing keys and records, and the round trip through a packet. */
module Message {
  import opened Bytes
  import opened Names
  import opened Records
  import opened Walk
  import opened Wire
  import opened Reader

  /** The bytes a successful append adds, and the name table after it. */
  datatype Written = Written(wire: Text, table: Table)

  function Uint16Wire(v: Uint16): (w: Text)
    ensures |w| == 2
  {
    [v / 256, v % 256]
  }

  function Uint32Wire(v: Uint32): (w: Text)
    ensures |w| == 4
  {
    Uint16Wire(v / 0x1_0000) + Uint16Wire(v % 0x1_0000)
  }

  /** avahi_dns_packet_append_string: cut at 255 bytes. */
  function CStringWire(s: Text): (w: Text)
    ensures 1 <= |w| <= 256
  {
    var k := if |s| >= 255 then 255 else |s|;
    [k] + s[..k]
  }

  /** The class with the top bit set or left as it is (keys), or set or cleared (records). */
  function KeyClass(clazz: Uint16, flag: bool): Uint16 {
    if flag && clazz < CACHE_FLUSH then clazz + CACHE_FLUSH else clazz
  }

  function RecordClass(clazz: Uint16, flag: bool): Uint16 {
    if flag then clazz % CACHE_FLUSH + CACHE_FLUSH else clazz % CACHE_FLUSH
  }

  function SentTtl(ttl: Uint32, maxTtl: Uint32): Uint32 {
    if maxTtl != 0 && ttl > maxTtl then maxTtl else ttl
  }

  /** Bytes after a name, if they fit. */
  function Then(off: nat, o: Out, max: nat, more: Text): Option<Written> {
    if o.status.Done? && off + |o.wire| + |more| <= max then Some(Written(o.wire + more, o.table)) else None
  }

  /** avahi_dns_packet_append_key; None when it fails. */
  function KeyOut(off: nat, t: Table, max: nat, k: Key, flag: bool): Option<Written> {
    Then(off, NameOut(off, t, max, k.name), max, Uint16Wire(k.kind) + Uint16Wire(KeyClass(k.clazz, flag)))
  }

  /** Plain bytes, if they fit. */
  function Plain(off: nat, t: Table, max: nat, w: Text): Option<Written> {
    if off + |w| <= max then Some(Written(w, t)) else None
  }

  function After(front: Text, w: Option<Written>): Option<Written> {
    match w
    case None => None
    case Some(w) => Some(Written(front + w.wire, w.table))
  }

  function ServiceWire(d: RData): (w: Text)
    requires d.Service?
    ensures |w| == 6
  {
    Uint16Wire(d.priority) + Uint16Wire(d.weight) + Uint16Wire(d.port)
  }

  /** append_rdata; None when it fails. */
  function DataOut(off: nat, t: Table, max: nat, d: RData): Option<Written> {
    match d
    case Target(name) => Then(off, NameOut(off, t, max, name), max, [])
    case Service(_, _, _, name) =>
      if off + 6 > max then None
      else After(ServiceWire(d), Then(off + 6, NameOut(off + 6, t, max, name), max, []))
    case Host(cpu, os) => Plain(off, t, max, CStringWire(cpu) + CStringWire(os))
    case Strings(l) => Plain(off, t, max, TxtWire(l))
    case Address(a) => Plain(off, t, max, a)
    case Generic(g) => Plain(off, t, max, g)
  }

  /** Type, class, TTL and data length of a record. */
  function FixedWire(r: Record, flush: bool, maxTtl: Uint32, len: nat): (w: Text)
    ensures |w| == 10
  {
    Uint16Wire(r.key.kind) + Uint16Wire(RecordClass(r.key.clazz, flush)) +
    Uint32Wire(SentTtl(r.ttl, maxTtl)) + Uint16Wire(len % 0x1_0000)
  }

  /** avahi_dns_packet_append_record; None when it fails. The length field is filled in last, but no
      byte written depends on it. */
  function RecordOut(off: nat, t: Table, max: nat, r: Record, flush: bool, maxTtl: Uint32): Option<Written> {
    var o := NameOut(off, t, max, r.key.name);
    var at := off + |o.wire| + 10;
    if !o.status.Done? || at > max then None
    else match DataOut(at, o.table, max, r.data)
      case None => None
      case Some(d) => Some(Written(o.wire + FixedWire(r, flush, maxTtl, |d.wire|) + d.wire, d.table))
  }

  // ---------- Names read back ----------

  /** A name in the form avahi_key_new gives it. */
  predicate IsNormal(name: Text) {
    NulFree(name) && Normal(name) == Some(name)
  }

  lemma NormalLabels(name: Text)
    requires IsNormal(name)
    ensures Labels(name).Some? && Join(Labels(name).value) == name && NameLabels(name) == Labels(name)
  {
    assert name != [DOT];
  }

  /** A normal name with few enough labels for the reader: each label and each pointer is one step. */
  predicate Readable(name: Text, steps: nat) {
    IsNormal(name) && Labels(name).Some? && 2 * |Labels(name).value| + 1 <= steps
  }

  /** A name just appended reads back as itself, whatever follows it. */
  lemma NameRoundTrip(b: Text, t: Table, max: nat, name: Text, c: Text, size: nat, steps: nat)
    requires HEADER_SIZE <= |b| <= max && GoodTable(b, t) && Readable(name, steps) && |name| < size
    requires NameOut(|b|, t, max, name).status.Done?
    requires b + NameOut(|b|, t, max, name).wire <= c
    ensures ReadName(c, |b|, size, steps) == Got(name, |b| + |NameOut(|b|, t, max, name).wire|)
    ensures GoodTable(b + NameOut(|b|, t, max, name).wire, NameOut(|b|, t, max, name).table)
  {
    hide NameOut, Decode, Extent, GoodTable, Labels, Join, Normal, NameLabels;
    NormalLabels(name);
    AppendedNameReadsBack(b, t, max, name);
    var c0, ls := b + NameOut(|b|, t, max, name).wire, Labels(name).value;
    MoreFuel(c0, |b|, 2 * |ls| + 1, steps);
    ReadNameExtends(c0, c, |b|, size, steps);
  }

  lemma NameOutStays(b: Text, t: Table, max: nat, name: Text)
    requires |b| <= max
    ensures |b| + |NameOut(|b|, t, max, name).wire| <= max
  {
    NameLoopTable(|b|, t, max, name);
  }

  lemma GoodTableExtends(b: Text, c: Text, t: Table)
    requires b <= c && GoodTable(b, t)
    ensures GoodTable(c, t)
  {
    hide GoodEntry;
    forall k | k in t ensures GoodEntry(c, t, k) {
      GoodEntryExtends(b, c, t, t, k);
    }
  }

  // ---------- Numbers and strings read back ----------

  /** The bytes w stand at offset i of c. */
  predicate StandsAt(c: Text, i: nat, w: Text) {
    i + |w| <= |c| && c[i..i + |w|] == w
  }

  lemma PartsStand(c: Text, i: nat, v: Text, w: Text)
    ensures StandsAt(c, i, v + w) <==> StandsAt(c, i, v) && StandsAt(c, i + |v|, w)
  {
    if StandsAt(c, i, v + w) {
      assert c[i..i + |v|] == (v + w)[..|v|] == v;
      assert c[i + |v|..i + |v| + |w|] == (v + w)[|v|..] == w;
    }
    if StandsAt(c, i, v) && StandsAt(c, i + |v|, w) {
      assert c[i..i + |v + w|] == c[i..i + |v|] + c[i + |v|..i + |v| + |w|];
    }
  }

  lemma AppendedStands(b: Text, w: Text)
    ensures StandsAt(b + w, |b|, w)
  {
  }

  lemma Uint16Reads(c: Text, i: nat, v: Uint16)
    requires StandsAt(c, i, Uint16Wire(v))
    ensures ReadUint16(c, i) == Got(v, i + 2) && Word(c, i) == v
  {
    assert c[i..i + 2][0] == c[i] && c[i..i + 2][1] == c[i + 1];
  }

  lemma Uint32Reads(c: Text, i: nat, v: Uint32)
    requires StandsAt(c, i, Uint32Wire(v))
    ensures ReadUint32(c, i) == Got(v, i + 4)
  {
    PartsStand(c, i, Uint16Wire(v / 0x1_0000), Uint16Wire(v % 0x1_0000));
    Uint16Reads(c, i, v / 0x1_0000);
    Uint16Reads(c, i + 2, v % 0x1_0000);
  }

  lemma CStringReads(c: Text, i: nat, s: Text)
    requires NulFree(s) && |s| <= 255 && StandsAt(c, i, CStringWire(s))
    ensures ReadString(c, i) == Got(s, i + 1 + |s|)
  {
    assert CStringWire(s) == [|s|] + s;
    PartsStand(c, i, [|s|], s);
    assert c[i] == c[i..i + 1][0];
  }

  // ---------- Keys read back ----------

  /** What becomes of a key on the way: the class loses its top bit, which asks for unicast responses on the wire. */
  function ReceivedKey(k: Key): Key {
    k.(clazz := k.clazz % 0x8000)
  }

  lemma ReceivedClass(k: Key, flag: bool)
    ensures ClassOf(KeyClass(k.clazz, flag)) == ReceivedKey(k).clazz
    ensures FlagOf(KeyClass(k.clazz, flag)) <==> flag || k.clazz >= 0x8000
  {
  }

  lemma KeyRoundTrip(b: Text, t: Table, max: nat, k: Key, flag: bool, steps: nat)
    requires HEADER_SIZE <= |b| <= max && GoodTable(b, t)
    requires Readable(k.name, steps) && |k.name| < KEY_NAME_SIZE
    requires KeyOut(|b|, t, max, k, flag).Some?
    ensures var w := KeyOut(|b|, t, max, k, flag).value;
            && ReadKey(b + w.wire, |b|, steps) == Got((ReceivedKey(k), flag || k.clazz >= 0x8000), |b| + |w.wire|)
            && GoodTable(b + w.wire, w.table)
  {
    ReceivedClass(k, flag);
    hide NameOut, ReadName, GoodTable, Labels, Uint16Wire, Word, Normal, NameLabels, KeyClass, ClassOf, FlagOf;
    var o := NameOut(|b|, t, max, k.name);
    var w := KeyOut(|b|, t, max, k, flag).value;
    var c := b + w.wire;
    var kind, clazz := Uint16Wire(k.kind), Uint16Wire(KeyClass(k.clazz, flag));
    Regroup(b, o.wire, kind + clazz);
    NameRoundTrip(b, t, max, k.name, c, KEY_NAME_SIZE, steps);
    GoodTableExtends(b + o.wire, c, o.table);
    AppendedStands(b + o.wire, kind + clazz);
    PartsStand(c, |b + o.wire|, kind, clazz);
    Uint16Reads(c, |b| + |o.wire|, k.kind);
    Uint16Reads(c, |b| + |o.wire| + 2, KeyClass(k.clazz, flag));
    NormalIsValid(k.name);
  }

  lemma NormalIsValid(name: Text)
    requires IsNormal(name) && |name| < DOMAIN_NAME_MAX
    ensures ValidDomainName(name)
  {
  }

  // ---------- Records read back ----------

  /** Data whose names the reader can follow and whose strings fit a record. */
  predicate ReadableData(kind: Uint16, d: RData, steps: nat) {
    && Typed(kind, d) && ValidData(kind, d)
    && (d.Target? || d.Service? ==> Readable(d.name, steps))
    && (d.Strings? ==> |TxtWire(d.strings)| <= RDATA_MAX)
  }

  /** The data part of a record reads back, fits the length field, and leaves a good table. */
  predicate DataReads(b: Text, w: Written, kind: Uint16, d: RData, steps: nat) {
    && ReadData(b + w.wire, |b|, kind, |w.wire|, steps) == Got(d, |b| + |w.wire|)
    && |w.wire| <= RDATA_MAX
    && GoodTable(b + w.wire, w.table)
  }

  lemma TargetRoundTrip(b: Text, t: Table, max: nat, kind: Uint16, d: RData, steps: nat)
    requires HEADER_SIZE <= |b| <= max && GoodTable(b, t) && ReadableData(kind, d, steps) && NamesTarget(kind)
    requires DataOut(|b|, t, max, d).Some?
    ensures DataReads(b, DataOut(|b|, t, max, d).value, kind, d, steps)
  {
    hide ReadName, GoodTable, Labels, Normal, NameLabels, NameLoop;
    var o := NameOut(|b|, t, max, d.name);
    EmptySides(o.wire);
    NameWireBound(|b|, t, max, d.name);
    NameRoundTrip(b, t, max, d.name, b + o.wire, DOMAIN_NAME_MAX, steps);
  }

  lemma ServiceRoundTrip(b: Text, t: Table, max: nat, d: RData, steps: nat)
    requires HEADER_SIZE <= |b| <= max && GoodTable(b, t) && ReadableData(TYPE_SRV, d, steps)
    requires DataOut(|b|, t, max, d).Some?
    ensures DataReads(b, DataOut(|b|, t, max, d).value, TYPE_SRV, d, steps)
  {
    hide ReadName, GoodTable, Labels, Normal, NameLabels, NameLoop, Uint16Wire, Word;
    var o := NameOut(|b| + 6, t, max, d.name);
    EmptySides(o.wire);
    NameWireBound(|b| + 6, t, max, d.name);
    var b1, c := b + ServiceWire(d), b + (ServiceWire(d) + o.wire);
    Regroup(b, ServiceWire(d), o.wire);
    GoodTableExtends(b, b1, t);
    NameRoundTrip(b1, t, max, d.name, c, DOMAIN_NAME_MAX, steps);
    AppendedStands(b, ServiceWire(d) + o.wire);
    PartsStand(c, |b|, ServiceWire(d), o.wire);
    PartsStand(c, |b|, Uint16Wire(d.priority) + Uint16Wire(d.weight), Uint16Wire(d.port));
    PartsStand(c, |b|, Uint16Wire(d.priority), Uint16Wire(d.weight));
    Uint16Reads(c, |b|, d.priority);
    Uint16Reads(c, |b| + 2, d.weight);
    Uint16Reads(c, |b| + 4, d.port);
  }

  lemma HostRoundTrip(b: Text, t: Table, max: nat, d: RData, steps: nat)
    requires GoodTable(b, t) && ReadableData(TYPE_HINFO, d, steps)
    requires DataOut(|b|, t, max, d).Some?
    ensures DataReads(b, DataOut(|b|, t, max, d).value, TYPE_HINFO, d, steps)
  {
    hide GoodTable, ReadString;
    var c := b + (CStringWire(d.cpu) + CStringWire(d.os));
    GoodTableExtends(b, c, t);
    AppendedStands(b, CStringWire(d.cpu) + CStringWire(d.os));
    PartsStand(c, |b|, CStringWire(d.cpu), CStringWire(d.os));
    CStringReads(c, |b|, d.cpu);
    CStringReads(c, |b| + 1 + |d.cpu|, d.os);
  }

  lemma PlainRoundTrip(b: Text, t: Table, max: nat, kind: Uint16, d: RData, steps: nat)
    requires GoodTable(b, t) && ReadableData(kind, d, steps)
    requires d.Strings? || d.Address? || d.Generic?
    requires DataOut(|b|, t, max, d).Some?
    ensures DataReads(b, DataOut(|b|, t, max, d).value, kind, d, steps)
  {
    hide GoodTable, TxtParse, TxtWire, ValidStrings;
    var w := DataOut(|b|, t, max, d).value.wire;
    GoodTableExtends(b, b + w, t);
    AppendedStands(b, w);
    if d.Strings? {
      TxtRoundTrip(d.strings);
    }
  }

  lemma DataRoundTrip(b: Text, t: Table, max: nat, kind: Uint16, d: RData, steps: nat)
    requires HEADER_SIZE <= |b| <= max && GoodTable(b, t) && ReadableData(kind, d, steps)
    requires DataOut(|b|, t, max, d).Some?
    ensures DataReads(b, DataOut(|b|, t, max, d).value, kind, d, steps)
  {
    hide DataReads, DataOut, GoodTable, ValidData;
    if NamesTarget(kind) {
      TargetRoundTrip(b, t, max, kind, d, steps);
    } else if kind == TYPE_SRV {
      ServiceRoundTrip(b, t, max, d, steps);
    } else if kind == TYPE_HINFO {
      HostRoundTrip(b, t, max, d, steps);
    } else {
      PlainRoundTrip(b, t, max, kind, d, steps);
    }
  }

  /** A record that survives the trip: normal names, and data that can be read back. */
  predicate ReadableRecord(r: Record, steps: nat) {
    && Readable(r.key.name, steps) && |r.key.name| < DOMAIN_NAME_MAX
    && ReadableData(r.key.kind, r.data, steps)
  }

  /** What becomes of a record on the way: the class loses its top bit, which is the flush bit on the wire; the TTL is
      at most maxTtl, if that is given; and the largest TTL there is means 4500 seconds to the reader. */
  function Received(r: Record, maxTtl: Uint32): Record {
    var sent := if maxTtl == 0 || r.ttl <= maxTtl then r.ttl else maxTtl;
    r.(key := r.key.(clazz := r.key.clazz % 0x8000), ttl := if sent == 0xFFFF_FFFF then 4500 else sent)
  }

  lemma ReceivedTtl(r: Record, maxTtl: Uint32)
    ensures StoredTtl(SentTtl(r.ttl, maxTtl)) == Received(r, maxTtl).ttl
    ensures ClassOf(RecordClass(r.key.clazz, true)) == ClassOf(RecordClass(r.key.clazz, false)) ==
            Received(r, maxTtl).key.clazz
    ensures FlagOf(RecordClass(r.key.clazz, true)) && !FlagOf(RecordClass(r.key.clazz, false))
  {
  }

  lemma FixedReads(c: Text, i: nat, r: Record, flush: bool, maxTtl: Uint32, len: nat)
    requires len <= RDATA_MAX && StandsAt(c, i, FixedWire(r, flush, maxTtl, len))
    ensures ReadUint16(c, i) == Got(r.key.kind, i + 2)
    ensures ReadUint16(c, i + 2) == Got(RecordClass(r.key.clazz, flush), i + 4)
    ensures ReadUint32(c, i + 4) == Got(SentTtl(r.ttl, maxTtl), i + 8)
    ensures ReadUint16(c, i + 8) == Got(len, i + 10)
  {
    hide Uint16Wire, Uint32Wire, Word, StandsAt;
    var kind, clazz := Uint16Wire(r.key.kind), Uint16Wire(RecordClass(r.key.clazz, flush));
    var ttl, n := Uint32Wire(SentTtl(r.ttl, maxTtl)), Uint16Wire(len);
    PartsStand(c, i, kind + clazz + ttl, n);
    PartsStand(c, i, kind + clazz, ttl);
    PartsStand(c, i, kind, clazz);
    Uint16Reads(c, i, r.key.kind);
    Uint16Reads(c, i + 2, RecordClass(r.key.clazz, flush));
    Uint32Reads(c, i + 4, SentTtl(r.ttl, maxTtl));
    Uint16Reads(c, i + 8, len);
  }

  lemma RecordRoundTrip(b: Text, t: Table, max: nat, r: Record, flush: bool, maxTtl: Uint32, steps: nat)
    requires HEADER_SIZE <= |b| <= max && GoodTable(b, t) && ReadableRecord(r, steps)
    requires RecordOut(|b|, t, max, r, flush, maxTtl).Some?
    ensures var w := RecordOut(|b|, t, max, r, flush, maxTtl).value;
            && ReadRecord(b + w.wire, |b|, steps) == Got((Received(r, maxTtl), flush), |b| + |w.wire|)
            && GoodTable(b + w.wire, w.table)
  {
    ReceivedTtl(r, maxTtl);
    hide NameOut, DataOut, GoodTable, FixedWire, ReadName, Word, Labels, Normal, NameLabels, ReadData, Typed,
         ValidData, ReadUint16, ReadUint32, SentTtl, StoredTtl, RecordClass, ClassOf, FlagOf;
    var o := NameOut(|b|, t, max, r.key.name);
    var at := |b| + |o.wire| + 10;
    var d := DataOut(at, o.table, max, r.data).value;
    var f := FixedWire(r, flush, maxTtl, |d.wire|);
    var b1 := b + o.wire + f;
    var c := b1 + d.wire;
    assert b + (o.wire + f + d.wire) == c;
    NameRoundTrip(b, t, max, r.key.name, c, DOMAIN_NAME_MAX, steps);
    GoodTableExtends(b + o.wire, b1, o.table);
    DataRoundTrip(b1, o.table, max, r.key.kind, r.data, steps);
    AppendedStands(b + o.wire, f + d.wire);
    Regroup(b + o.wire, f, d.wire);
    PartsStand(c, |b + o.wire|, f, d.wire);
    FixedReads(c, |b| + |o.wire|, r, flush, maxTtl, |d.wire|);
    NormalIsValid(r.key.name);
  }
}
