/** avahi-core/dns.c: reading keys and records out of a packet, as functions of its bytes. */
module Reader {
  import opened Bytes
  import opened Names
  import opened Records
  import opened Walk

  const KEY_NAME_SIZE := 256

  /** A value read, or nothing, and where the read index stands afterwards. */
  datatype Read<+T> = Got(value: T, next: nat) | Lost(next: nat) {
    predicate IsFailure() {
      Lost?
    }
    function PropagateFailure<U>(): Read<U>
      requires Lost?
    {
      Lost(next)
    }
    function Extract(): (T, nat)
      requires Got?
    {
      (value, next)
    }
  }

  function ReadName(b: Text, i: nat, size: nat, steps: nat): Read<Text> {
    match NameText(b, i, size, steps)
    case None => Lost(i)
    case Some(name) => Got(name, i + Extent(b, i))
  }

  function Word(b: Text, i: nat): Uint16
    requires i + 2 <= |b|
  {
    b[i] as int * 256 + b[i + 1]
  }

  function ReadUint16(b: Text, i: nat): Read<Uint16> {
    if i + 2 <= |b| then Got(Word(b, i), i + 2) else Lost(i)
  }

  function ReadUint32(b: Text, i: nat): Read<Uint32> {
    if i + 4 <= |b| then Got(Word(b, i) * 0x1_0000 + Word(b, i + 2), i + 4) else Lost(i)
  }

  function ReadBytes(b: Text, i: nat, n: nat): Read<Text> {
    if i + n <= |b| then Got(b[i..i + n], i + n) else Lost(i)
  }

  /** A C string ends at its first zero byte. */
  function UpToNul(s: Text): (r: Text)
    ensures NulFree(r) && (NulFree(s) ==> r == s)
  {
    if s == [] || s[0] == 0 then [] else [s[0]] + UpToNul(s[1..])
  }

  /** avahi_dns_packet_consume_string into a buffer that holds any string. */
  function ReadString(b: Text, i: nat): Read<Text> {
    if i >= |b| then Lost(i)
    else if i + 1 + b[i] > |b| then Lost(i)
    else Got(UpToNul(b[i + 1..i + 1 + b[i]]), i + 1 + b[i])
  }

  /** The class field carries the unicast-response or cache-flush bit. */
  function ClassOf(v: Uint16): Uint16 {
    v % CACHE_FLUSH
  }

  predicate FlagOf(v: Uint16) {
    v >= CACHE_FLUSH
  }

  /** avahi_dns_packet_consume_key. */
  function ReadKey(b: Text, i: nat, steps: nat): Read<(Key, bool)> {
    var (name, i) :- ReadName(b, i, KEY_NAME_SIZE, steps);
    var (kind, i) :- ReadUint16(b, i);
    var (clazz, i) :- ReadUint16(b, i);
    match Normal(name)
    case None => Lost(i)
    case Some(n) => if ValidDomainName(n) then Got((Key(n, ClassOf(clazz), kind), FlagOf(clazz)), i) else Lost(i)
  }

  /** Names of keys have less than 256 bytes of text, names of records less than 1014; a longer one is not read. */
  lemma NameLengths(b: Text, i: nat, steps: nat)
    requires Decode(b, i, steps).Some?
    ensures |Join(Decode(b, i, steps).value)| >= 256 ==> ReadKey(b, i, steps) == Lost(i)
    ensures |Join(Decode(b, i, steps).value)| < 256 ==> ReadName(b, i, KEY_NAME_SIZE, steps).Got?
    ensures ReadName(b, i, DOMAIN_NAME_MAX, steps).Got? <==> |Join(Decode(b, i, steps).value)| < 1014
  {
  }

  /** parse_rdata without its final length check. */
  function ReadData(b: Text, i: nat, kind: Uint16, len: nat, steps: nat): Read<RData>
    requires i + len <= |b|
  {
    if NamesTarget(kind) then
      var (name, i) :- ReadName(b, i, DOMAIN_NAME_MAX, steps);
      Got(Target(name), i)
    else if kind == TYPE_SRV then
      var (priority, i) :- ReadUint16(b, i);
      var (weight, i) :- ReadUint16(b, i);
      var (port, i) :- ReadUint16(b, i);
      var (name, i) :- ReadName(b, i, DOMAIN_NAME_MAX, steps);
      Got(Service(priority, weight, port, name), i)
    else if kind == TYPE_HINFO then
      var (cpu, i) :- ReadString(b, i);
      var (os, i) :- ReadString(b, i);
      Got(Host(cpu, os), i)
    else if kind == TYPE_TXT then
      match TxtParse(b[i..i + len], [])
      case None => Lost(i)
      case Some(l) => Got(Strings(l), i + len)
    else if kind == TYPE_A then
      var (a, i) :- ReadBytes(b, i, 4);
      Got(Address(a), i)
    else if kind == TYPE_AAAA then
      var (a, i) :- ReadBytes(b, i, 16);
      Got(Address(a), i)
    else Got(Generic(b[i..i + len]), i + len)
  }

  /** avahi_record_new turns the largest TTL into the default. */
  function StoredTtl(ttl: Uint32): Uint32 {
    if ttl == 0xFFFF_FFFF then DEFAULT_TTL else ttl
  }

  /** avahi_dns_packet_consume_record. */
  function ReadRecord(b: Text, i: nat, steps: nat): Read<(Record, bool)> {
    var (name, i) :- ReadName(b, i, DOMAIN_NAME_MAX, steps);
    var (kind, i) :- ReadUint16(b, i);
    var (clazz, i) :- ReadUint16(b, i);
    var (ttl, i) :- ReadUint32(b, i);
    var (len, i) :- ReadUint16(b, i);
    if i + len > |b| then Lost(i)
    else match Normal(name)
      case None => Lost(i)
      case Some(n) =>
        var (data, j) :- ReadData(b, i, kind, len, steps);
        if j - i != len then Lost(j)
        else if Typed(kind, data) && ValidDomainName(n) && ValidData(kind, data)
        then Got((Record(Key(n, ClassOf(clazz), kind), StoredTtl(ttl), data), FlagOf(clazz)), j)
        else Lost(j)
  }

  /** Data read for a type is data of that type. */
  lemma ReadDataTyped(b: Text, i: nat, kind: Uint16, len: nat, steps: nat)
    requires i + len <= |b| && len <= RDATA_MAX && ReadData(b, i, kind, len, steps).Got?
    ensures Typed(kind, ReadData(b, i, kind, len, steps).value)
  {
    hide Decode, Extent, Join;
    if NamesTarget(kind) || kind == TYPE_SRV {
      var j := if kind == TYPE_SRV then i + 6 else i;
      JoinNulFree(Decode(b, j, steps).value);
    }
  }

  // ---------- Bytes appended later do not change what is read ----------

  lemma ReadNameExtends(b: Text, c: Text, i: nat, size: nat, steps: nat)
    requires b <= c && ReadName(b, i, size, steps).Got?
    ensures ReadName(c, i, size, steps) == ReadName(b, i, size, steps)
  {
    hide Decode, Extent, Join;
    DecodeExtends(b, c, i, steps);
    DecodeHasExtent(b, i, steps);
    ExtentExtends(b, c, i);
  }

  lemma ReadKeyExtends(b: Text, c: Text, i: nat, steps: nat)
    requires b <= c && ReadKey(b, i, steps).Got?
    ensures ReadKey(c, i, steps) == ReadKey(b, i, steps)
  {
    hide ReadName, Normal, ValidDomainName;
    ReadNameExtends(b, c, i, KEY_NAME_SIZE, steps);
  }

  lemma ReadStringExtends(b: Text, c: Text, i: nat)
    requires b <= c && ReadString(b, i).Got?
    ensures ReadString(c, i) == ReadString(b, i)
  {
    assert b[i + 1..i + 1 + b[i]] == c[i + 1..i + 1 + b[i]];
  }

  lemma ReadBytesExtends(b: Text, c: Text, i: nat, n: nat)
    requires b <= c && ReadBytes(b, i, n).Got?
    ensures ReadBytes(c, i, n) == ReadBytes(b, i, n)
  {
    assert b[i..i + n] == c[i..i + n];
  }

  lemma ReadDataExtends(b: Text, c: Text, i: nat, kind: Uint16, len: nat, steps: nat)
    requires b <= c && i + len <= |b| && ReadData(b, i, kind, len, steps).Got?
    ensures ReadData(c, i, kind, len, steps) == ReadData(b, i, kind, len, steps)
  {
    hide ReadName, TxtParse, ReadString, ReadBytes;
    assert b[i..i + len] == c[i..i + len];
    if NamesTarget(kind) {
      ReadNameExtends(b, c, i, DOMAIN_NAME_MAX, steps);
    } else if kind == TYPE_SRV {
      ReadNameExtends(b, c, i + 6, DOMAIN_NAME_MAX, steps);
    } else if kind == TYPE_HINFO {
      ReadStringExtends(b, c, i);
      ReadStringExtends(b, c, ReadString(b, i).next);
    } else if kind == TYPE_A || kind == TYPE_AAAA {
      ReadBytesExtends(b, c, i, if kind == TYPE_A then 4 else 16);
    }
  }

  lemma ReadRecordExtends(b: Text, c: Text, i: nat, steps: nat)
    requires b <= c && ReadRecord(b, i, steps).Got?
    ensures ReadRecord(c, i, steps) == ReadRecord(b, i, steps)
  {
    hide ReadName, Normal, ReadData, ValidDomainName, ValidData, Typed;
    ReadNameExtends(b, c, i, DOMAIN_NAME_MAX, steps);
    var j := ReadName(b, i, DOMAIN_NAME_MAX, steps).next;
    ReadDataExtends(b, c, j + 10, Word(b, j), Word(b, j + 8), steps);
  }

  // ---------- The header does not matter either ----------

  /** Packets that agree from the end of the header on. */
  predicate SameBody(b: Text, c: Text) {
    HEADER_SIZE <= |b| == |c| && b[HEADER_SIZE..] == c[HEADER_SIZE..]
  }

  lemma SameByte(b: Text, c: Text, i: nat)
    requires SameBody(b, c) && HEADER_SIZE <= i < |b|
    ensures b[i] == c[i]
  {
    assert b[i] == b[HEADER_SIZE..][i - HEADER_SIZE];
    assert c[i] == c[HEADER_SIZE..][i - HEADER_SIZE];
  }

  lemma SameSlice(b: Text, c: Text, i: nat, n: nat)
    requires SameBody(b, c) && HEADER_SIZE <= i && i + n <= |b|
    ensures b[i..i + n] == c[i..i + n]
  {
    forall k | i <= k < i + n ensures b[k] == c[k] {
      SameByte(b, c, k);
    }
  }

  lemma SameName(b: Text, c: Text, i: nat, size: nat, steps: nat)
    requires SameBody(b, c) && HEADER_SIZE <= i
    ensures ReadName(b, i, size, steps) == ReadName(c, i, size, steps)
  {
    hide Decode, Extent, Join;
    HeaderIsIrrelevant(b, c, i, steps);
    HeaderKeepsExtent(b, c, i);
  }

  lemma SameWord(b: Text, c: Text, i: nat)
    requires SameBody(b, c) && HEADER_SIZE <= i
    ensures ReadUint16(b, i) == ReadUint16(c, i) && ReadUint32(b, i) == ReadUint32(c, i)
  {
    if i + 2 <= |b| {
      SameByte(b, c, i);
      SameByte(b, c, i + 1);
    }
    if i + 4 <= |b| {
      SameByte(b, c, i + 2);
      SameByte(b, c, i + 3);
    }
  }

  lemma SameKey(b: Text, c: Text, i: nat, steps: nat)
    requires SameBody(b, c) && HEADER_SIZE <= i
    ensures ReadKey(b, i, steps) == ReadKey(c, i, steps)
  {
    hide ReadUint16, Normal, ValidDomainName, SameBody, NameText, Extent;
    SameName(b, c, i, KEY_NAME_SIZE, steps);
    var j := ReadName(b, i, KEY_NAME_SIZE, steps).next;
    SameWord(b, c, j);
    SameWord(b, c, j + 2);
    WordLength(b, j);
  }

  lemma WordLength(b: Text, i: nat)
    ensures ReadUint16(b, i).Got? ==> ReadUint16(b, i).next == i + 2
    ensures ReadUint32(b, i).Got? ==> ReadUint32(b, i).next == i + 4
  {
  }

  lemma SameString(b: Text, c: Text, i: nat)
    requires SameBody(b, c) && HEADER_SIZE <= i
    ensures ReadString(b, i) == ReadString(c, i)
  {
    hide UpToNul;
    if i < |b| {
      SameByte(b, c, i);
      if i + 1 + b[i] <= |b| {
        SameSlice(b, c, i + 1, b[i]);
      }
    }
  }

  lemma SameBytes(b: Text, c: Text, i: nat, n: nat)
    requires SameBody(b, c) && HEADER_SIZE <= i
    ensures ReadBytes(b, i, n) == ReadBytes(c, i, n)
  {
    if i + n <= |b| {
      SameSlice(b, c, i, n);
    }
  }

  lemma SameData(b: Text, c: Text, i: nat, kind: Uint16, len: nat, steps: nat)
    requires SameBody(b, c) && HEADER_SIZE <= i && i + len <= |b|
    ensures ReadData(b, i, kind, len, steps) == ReadData(c, i, kind, len, steps)
  {
    hide ReadUint16, ReadName, ReadString, ReadBytes, TxtParse;
    SameSlice(b, c, i, len);
    if NamesTarget(kind) {
      SameName(b, c, i, DOMAIN_NAME_MAX, steps);
    } else if kind == TYPE_SRV {
      SameWord(b, c, i);
      SameWord(b, c, i + 2);
      SameWord(b, c, i + 4);
      WordLength(b, i);
      WordLength(b, i + 2);
      WordLength(b, i + 4);
      SameName(b, c, i + 6, DOMAIN_NAME_MAX, steps);
    } else if kind == TYPE_HINFO {
      SameString(b, c, i);
      StringAdvances(b, i);
      SameString(b, c, ReadString(b, i).next);
    } else if kind == TYPE_A || kind == TYPE_AAAA {
      SameBytes(b, c, i, if kind == TYPE_A then 4 else 16);
    }
  }

  lemma StringAdvances(b: Text, i: nat)
    ensures ReadString(b, i).next >= i
  {
  }

  lemma SameRecord(b: Text, c: Text, i: nat, steps: nat)
    requires SameBody(b, c) && HEADER_SIZE <= i
    ensures ReadRecord(b, i, steps) == ReadRecord(c, i, steps)
  {
    hide ReadUint16, ReadUint32, ReadData, Normal, ValidDomainName, ValidData, Typed, NameText, Extent;
    SameName(b, c, i, DOMAIN_NAME_MAX, steps);
    var j := ReadName(b, i, DOMAIN_NAME_MAX, steps).next;
    SameWord(b, c, j);
    SameWord(b, c, j + 2);
    SameWord(b, c, j + 4);
    SameWord(b, c, j + 8);
    WordLength(b, j);
    WordLength(b, j + 2);
    WordLength(b, j + 4);
    WordLength(b, j + 8);
    if ReadUint16(b, j).Got? && ReadUint16(b, j + 8).Got? && j + 10 + ReadUint16(b, j + 8).value <= |b| {
      SameData(b, c, j + 10, ReadUint16(b, j).value, ReadUint16(b, j + 8).value, steps);
    }
  }
}
