/** avahi-core/dns.c: the packet object, changed in place. Every method is tied to the functions of
    Wire, Message and Reader. */
module Packet {
  import opened Bytes
  import opened Names
  import opened Records
  import opened Walk
  import opened Wire
  import opened Reader
  import opened Message
  import opened RoundTrip

  const EXTRA_SIZE := 48
  const PACKET_SIZE_MAX := 12 + 256 + 2 + 2 + 4 + 2 + 0xFFFF

  function Prefixed(front: Text, o: Out): Out {
    Out(o.status, front + o.wire, o.table)
  }

  /** The scan of a label that holds a NUL fails, because \000 is not accepted. */
  lemma {:induction false} ScanWithNul(l: Text, tail: Text, room: nat)
    requires !NulFree(l)
    ensures Scan(Escape(l) + tail, room) == None
    decreases |l|
  {
    if room > 0 {
      var rest := Escape(l[1..]) + tail;
      Regroup(EscapeByte(l[0]), Escape(l[1..]), tail);
      if l[0] == 0 {
        assert (EscapeByte(0) + rest)[..4] == [BACKSLASH, 48, 48, 48];
      } else {
        ScanByte(l[0], rest, room);
        assert !NulFree(l[1..]);
        ScanWithNul(l[1..], tail, room - 1);
      }
    }
  }

  predicate SizedLabels(ls: seq<Text>) {
    forall i :: 0 <= i < |ls| ==> 1 <= |ls[i]| < LABEL_MAX
  }

  lemma {:induction false} DecodedSizes(b: Text, off: nat, fuel: nat)
    requires Decode(b, off, fuel).Some?
    ensures SizedLabels(Decode(b, off, fuel).value)
    decreases fuel
  {
    if b[off] != 0 {
      DecodedSizes(b, Next(b, off).value, fuel - 1);
    }
  }

  /** Of a decoded name, normalisation reads the labels up to the first that is not a C string in UTF-8. */
  lemma {:induction false} PrefixOfDecoded(ls: seq<Text>)
    requires SizedLabels(ls)
    ensures ReadablePrefix(Join(ls)) <= ls
    decreases |ls|
  {
    if ls != [] {
      var tail := JoinRest(ls[1..]);
      assert Join(ls) == Escape(ls[0]) + tail;
      assert AfterLabel(tail) == Join(ls[1..]);
      hide Scan, Escape;
      if NulFree(ls[0]) {
        ScanEscaped(ls[0], tail, LABEL_MAX);
        PrefixOfDecoded(ls[1..]);
        assert ls == [ls[0]] + ls[1..];
      } else {
        ScanWithNul(ls[0], tail, LABEL_MAX);
      }
    }
  }

  lemma DecodedFits(b: Text, i: nat, size: nat, steps: nat)
    requires NameText(b, i, size, steps).Some?
    ensures NormalHasRoom(NameText(b, i, size, steps).value, size)
  {
    hide Decode, ReadablePrefix, Join;
    var ls := Decode(b, i, steps).value;
    DecodedSizes(b, i, steps);
    PrefixOfDecoded(ls);
    var pre := ReadablePrefix(Join(ls));
    assert ls == pre + ls[|pre|..];
    JoinPrefixLength(pre, ls[|pre|..]);
  }

  /** Table u is t with entries added that point to offset n or later. */
  predicate GrewFrom(t: Table, u: Table, n: nat) {
    && (forall k :: k in t ==> k in u && u[k] == t[k])
    && (forall k :: k in u && k !in t ==> u[k] >= n)
  }

  lemma GrewBack(t: Table, u: Table, n: nat)
    requires GrewFrom(t, u, n) && TableBelow(t, n)
    ensures Below(u, n) == t
  {
  }

  lemma GrewTwice(t: Table, u: Table, v: Table, n: nat, m: nat)
    requires GrewFrom(t, u, n) && GrewFrom(u, v, m) && n <= m
    ensures GrewFrom(t, v, n)
  {
  }

  lemma NameOutGrew(off: nat, t: Table, max: nat, name: Text)
    requires off <= max && TableBelow(t, off)
    ensures GrewFrom(t, NameOut(off, t, max, name).table, off)
  {
    hide NameLoop;
    NameLoopTable(off, t, max, name);
    CuttingBackRestoresTable(off, t, max, name);
  }

  /** A consuming method returned r and left the read index at next, as the reading function says. */
  predicate Agrees<T(==)>(r: Option<T>, next: nat, read: Read<T>) {
    match r
    case None => read == Lost(next)
    case Some(v) => read == Got(v, next)
  }

  class DnsPacket {
    const data: array<byte>
    var size: nat
    var rindex: nat
    var nameTable: Table

    ghost predicate Valid()
      reads this, data
    {
      HEADER_SIZE <= size <= data.Length && TableBelow(nameTable, size)
    }

    /** The bytes that make up the packet. */
    ghost function Bytes(): Text
      requires Valid()
      reads this, data
    {
      data[..size]
    }

    /** The packet as a value. */
    ghost function View(): Contents
      requires Valid()
      reads this, data
    {
      Contents(Bytes(), nameTable, data.Length)
    }

    constructor (mtu: nat)
      ensures Valid() && fresh(data)
      ensures Fresh(View()) && rindex == HEADER_SIZE
      ensures data.Length == if mtu == 0 then 65813 else if mtu >= 60 then mtu - 48 else 12
      ensures Bytes() == seq(12, _ => 0)
    {
      var max := if mtu <= 0 then PACKET_SIZE_MAX else if mtu >= EXTRA_SIZE then mtu - EXTRA_SIZE else 0;
      if max < HEADER_SIZE { max := HEADER_SIZE; }
      data := new byte[max](_ => 0);
      size, rindex, nameTable := HEADER_SIZE, HEADER_SIZE, map[];
    }

    /** avahi_dns_packet_extend followed by a copy into the room gained. */
    method Put(w: Text) returns (ok: bool)
      requires Valid()
      modifies `size, data
      ensures Valid() && ok == (old(size) + |w| <= data.Length)
      ensures Bytes() == if ok then old(Bytes()) + w else old(Bytes())
    {
      if size + |w| > data.Length { return false; }
      var d := size;
      size := size + |w|;
      forall i | 0 <= i < |w| {
        data[d + i] := w[i];
      }
      return true;
    }

    method CleanupNameTable()
      modifies `nameTable
      ensures nameTable == Below(old(nameTable), size)
    {
      nameTable := map k | k in nameTable && nameTable[k] < size :: nameTable[k];
    }

    /** Cuts the packet back to an earlier size, as every failing append does. */
    method CutBack(saved: nat)
      requires Valid() && HEADER_SIZE <= saved <= size
      modifies `size, `nameTable
      ensures Valid() && Bytes() == old(Bytes())[..saved] && nameTable == Below(old(nameTable), saved)
    {
      size := saved;
      CleanupNameTable();
    }

    /** The loop of append_name, up to its return or its jump to the fail label. */
    method AppendLabels(name: Text) returns (status: Status)
      requires Valid()
      modifies `size, `nameTable, data
      ensures Valid() && old(size) <= size
      ensures var o := NameLoop(old(size), old(nameTable), data.Length, name);
              status == o.status && Bytes() == old(Bytes()) + o.wire && nameTable == o.table
    {
      hide Scan, Unescape, NameLoop;
      var rest := name;
      ghost var out, written: Text := NameLoop(size, nameTable, data.Length, name), [];
      ghost var b0 := Bytes();
      EmptySides(out.wire);
      EmptySides(b0);
      while rest != []
        invariant Valid() && old(size) <= size && Bytes() == b0 + written
        invariant out == Prefixed(written, NameLoop(size, nameTable, data.Length, rest))
        decreases |rest|
      {
        StopCases(size, nameTable, data.Length, rest);
        EmptySides(written);
        if rest in nameTable {
          var idx := nameTable[rest];
          if idx < TARGET_LIMIT {
            var ok := Put(Pointer(idx));
            Regroup(b0, written, Pointer(idx));
            return if ok then Done else HalfWay;
          }
        }
        var u := UnescapeLabel(rest, LABEL_MAX);
        if u.None? { return Undone; }
        var l, next := u.value.lbl, u.value.rest;
        var d := size;
        var ok := Put(LabelWire(l));
        if !ok { return Undone; }
        ghost var o1 := LabelCase(d, nameTable, data.Length, rest, l, next);
        nameTable := if rest in nameTable then nameTable else nameTable[rest := d];
        Regroup(b0, written, LabelWire(l));
        Regroup(written, LabelWire(l), o1.wire);
        written := written + LabelWire(l);
        rest := next;
      }
      StopCases(size, nameTable, data.Length, []);
      EmptySides(written);
      var ok := Put([0]);
      Regroup(b0, written, [0]);
      return if ok then Done else Undone;
    }

    /** append_name: the loop and its fail label. A name cut short in the compression branch stays behind. */
    method AppendName(name: Text) returns (ok: bool)
      requires Valid()
      modifies `size, `nameTable, data
      ensures Valid() && old(size) <= size
      ensures var o := NameOut(old(size), old(nameTable), data.Length, name);
              ok == o.status.Done? && Bytes() == old(Bytes()) + o.wire && nameTable == o.table
    {
      hide NameLoop;
      var saved := size;
      var status := AppendLabels(name);
      if status.Undone? {
        CutBack(saved);
        assert Bytes() == old(Bytes()) + [];
      }
      return status.Done?;
    }

    /** append_uint16 and append_uint32. */
    method AppendUint16(v: Uint16) returns (ok: bool)
      requires Valid()
      modifies `size, data
      ensures Valid() && ok == (old(size) + 2 <= data.Length)
      ensures Bytes() == if ok then old(Bytes()) + Uint16Wire(v) else old(Bytes())
    {
      ok := Put([v / 256, v % 256]);
    }

    method AppendUint32(v: Uint32) returns (ok: bool)
      requires Valid()
      modifies `size, data
      ensures Valid() && ok == (old(size) + 4 <= data.Length)
      ensures Bytes() == if ok then old(Bytes()) + Uint32Wire(v) else old(Bytes())
    {
      ok := Put(Uint16Wire(v / 0x1_0000) + Uint16Wire(v % 0x1_0000));
    }

    /** avahi_dns_packet_append_key: all of it, or nothing, for the bytes and for the table. */
    method AppendKey(k: Key, unicast: bool) returns (ok: bool)
      requires Valid()
      modifies `size, `nameTable, data
      ensures Valid() && View() == Append(old(View()), Question(k, unicast))
              && ok == Fits(old(View()), Question(k, unicast))
    {
      hide NameLoop, Uint16Wire, Below, TableBelow;
      var saved := size;
      ghost var b0, t0, o := Bytes(), nameTable, NameOut(size, nameTable, data.Length, k.name);
      var kind, clazz := Uint16Wire(k.kind), KeyClass(k.clazz, unicast);
      CuttingBackRestoresTable(size, nameTable, data.Length, k.name);
      ok := AppendName(k.name);
      if ok {
        ok := AppendUint16(k.kind);
      }
      if ok {
        ok := AppendUint16(clazz);
      }
      if !ok {
        CutBack(saved);
        assert Bytes() == b0;
      } else {
        Regroup(b0, o.wire, kind);
        Regroup(b0, o.wire + kind, Uint16Wire(clazz));
        Regroup(o.wire, kind, Uint16Wire(clazz));
      }
    }

    /** The three numbers of SRV data, one after the other. */
    method AppendService(priority: Uint16, weight: Uint16, port: Uint16) returns (ok: bool)
      requires Valid()
      modifies `size, data
      ensures Valid() && old(size) <= size && Bytes()[..old(size)] == old(Bytes())
      ensures ok == (old(size) + 6 <= data.Length)
      ensures ok ==> Bytes() == old(Bytes()) + (Uint16Wire(priority) + Uint16Wire(weight) + Uint16Wire(port))
    {
      hide Uint16Wire;
      ok := AppendUint16(priority);
      if ok { ok := AppendUint16(weight); }
      if ok { ok := AppendUint16(port); }
    }

    /** append_rdata. A failure leaves what was written; the caller cuts it off. */
    method AppendData(d: RData) returns (ok: bool)
      requires Valid()
      modifies `size, `nameTable, data
      ensures Valid() && old(size) <= size && Bytes()[..old(size)] == old(Bytes())
      ensures GrewFrom(old(nameTable), nameTable, old(size))
      ensures ok == DataOut(old(size), old(nameTable), data.Length, d).Some?
      ensures ok ==> var w := DataOut(old(size), old(nameTable), data.Length, d).value;
                     Bytes() == old(Bytes()) + w.wire && nameTable == w.table
    {
      hide NameLoop, NameOut, TxtWire, Uint16Wire, CStringWire, TableBelow;
      ghost var b0 := Bytes();
      match d
      case Target(name) =>
        NameOutGrew(size, nameTable, data.Length, name);
        NameOutStays(b0, nameTable, data.Length, name);
        EmptySides(NameOut(size, nameTable, data.Length, name).wire);
        ok := AppendName(name);
      case Service(priority, weight, port, name) =>
        ok := AppendService(priority, weight, port);
        if ok {
          ghost var o := NameOut(size, nameTable, data.Length, name);
          NameOutGrew(size, nameTable, data.Length, name);
          NameOutStays(Bytes(), nameTable, data.Length, name);
          EmptySides(o.wire);
          Regroup(b0, ServiceWire(d), o.wire);
          ok := AppendName(name);
        }
      case Host(cpu, os) =>
        ok := Put(CStringWire(cpu));
        if ok {
          Regroup(b0, CStringWire(cpu), CStringWire(os));
          ok := Put(CStringWire(os));
        }
      case Strings(l) =>
        var n := SerializedSize(l);
        var w := Serialize(l, n);
        ok := Put(w);
      case Address(a) =>
        ok := Put(a);
      case Generic(g) =>
        ok := Put(g);
    }

    /** The first half of the fixed part of a record: type and class. */
    method AppendTypeAndClass(kind: Uint16, clazz: Uint16) returns (ok: bool)
      requires Valid()
      modifies `size, data
      ensures Valid() && old(size) <= size && Bytes()[..old(size)] == old(Bytes())
      ensures ok == (old(size) + 4 <= data.Length)
      ensures ok ==> Bytes() == old(Bytes()) + (Uint16Wire(kind) + Uint16Wire(clazz))
    {
      hide Uint16Wire, TableBelow;
      ok := AppendUint16(kind);
      if ok { ok := AppendUint16(clazz); }
    }

    /** The second half: TTL and room for the length. */
    method AppendTtlAndLength(ttl: Uint32) returns (ok: bool)
      requires Valid()
      modifies `size, data
      ensures Valid() && old(size) <= size && Bytes()[..old(size)] == old(Bytes())
      ensures ok == (old(size) + 6 <= data.Length)
      ensures ok ==> Bytes() == old(Bytes()) + (Uint32Wire(ttl) + Uint16Wire(0))
    {
      hide Uint16Wire, Uint32Wire, TableBelow;
      ok := AppendUint32(ttl);
      if ok { ok := AppendUint16(0); }
    }

    /** The fixed part of a record: type, class, TTL and room for the length. */
    method AppendFixed(r: Record, flush: bool, maxTtl: Uint32) returns (ok: bool)
      requires Valid()
      modifies `size, data
      ensures Valid() && old(size) <= size && Bytes()[..old(size)] == old(Bytes())
      ensures ok == (old(size) + 10 <= data.Length)
      ensures ok ==> Bytes() == old(Bytes()) + FixedWire(r, flush, maxTtl, 0)
    {
      hide Uint16Wire, Uint32Wire, RecordClass, SentTtl, TableBelow, FixedWire;
      ghost var b0 := Bytes();
      FixedParts(r, flush, maxTtl);
      ok := AppendTypeAndClass(r.key.kind, RecordClass(r.key.clazz, flush));
      if ok {
        ghost var first := Uint16Wire(r.key.kind) + Uint16Wire(RecordClass(r.key.clazz, flush));
        Regroup(b0, first, Uint32Wire(SentTtl(r.ttl, maxTtl)) + Uint16Wire(0));
        ok := AppendTtlAndLength(SentTtl(r.ttl, maxTtl));
      }
    }

    /** Overwrites two bytes inside the packet. */
    method Patch(at: nat, v: Uint16)
      requires Valid() && at + 2 <= size
      modifies data
      ensures Valid() && Bytes() == old(Bytes())[..at] + Uint16Wire(v) + old(Bytes())[at + 2..]
    {
      data[at] := v / 256;
      data[at + 1] := v % 256;
    }

    /** What follows the name of a record: the fixed part, the data, and then the length. A failure leaves what was
        written; the caller cuts it off. */
    method AppendBody(r: Record, flush: bool, maxTtl: Uint32) returns (ok: bool)
      requires Valid()
      modifies `size, `nameTable, data
      ensures Valid() && old(size) <= size && Bytes()[..old(size)] == old(Bytes())
      ensures GrewFrom(old(nameTable), nameTable, old(size))
      ensures var at := old(size) + 10;
              && ok == (at <= data.Length && DataOut(at, old(nameTable), data.Length, r.data).Some?)
              && (ok ==> var d := DataOut(at, old(nameTable), data.Length, r.data).value;
                         Bytes() == old(Bytes()) + (FixedWire(r, flush, maxTtl, |d.wire|) + d.wire)
                         && nameTable == d.table)
    {
      hide DataOut, FixedWire, TableBelow, Uint16Wire;
      ghost var b0, t0, saved := Bytes(), nameTable, size;
      ok := AppendFixed(r, flush, maxTtl);
      if ok {
        var start := size;
        ok := AppendData(r.data);
        GrewTwice(t0, t0, nameTable, saved, start);
        if ok {
          Patched(b0, r, flush, maxTtl, DataOut(start, t0, data.Length, r.data).value.wire);
          Patch(start - 2, (size - start) % 0x1_0000);
        }
      }
    }

    /** avahi_dns_packet_append_record: all of it, or nothing, for the bytes and for the table. */
    method AppendRecord(r: Record, flush: bool, maxTtl: Uint32) returns (ok: bool)
      requires Valid()
      modifies `size, `nameTable, data
      ensures Valid()
      ensures match RecordOut(old(size), old(nameTable), data.Length, r, flush, maxTtl)
              case None => !ok && Bytes() == old(Bytes()) && nameTable == old(nameTable)
              case Some(w) => ok && Bytes() == old(Bytes()) + w.wire && nameTable == w.table
    {
      hide NameOut, DataOut, FixedWire, TableBelow, Below, GrewFrom;
      var saved := size;
      ghost var b0, t0, o := Bytes(), nameTable, NameOut(size, nameTable, data.Length, r.key.name);
      NameOutGrew(size, nameTable, data.Length, r.key.name);
      NameOutStays(b0, nameTable, data.Length, r.key.name);
      ok := AppendName(r.key.name);
      if ok {
        ghost var t1, at := nameTable, size;
        ok := AppendBody(r, flush, maxTtl);
        GrewTwice(t0, t1, nameTable, saved, at);
        if ok {
          ghost var d := DataOut(at + 10, t1, data.Length, r.data).value;
          Regroup(b0, o.wire, FixedWire(r, flush, maxTtl, |d.wire|) + d.wire);
          Regroup(o.wire, FixedWire(r, flush, maxTtl, |d.wire|), d.wire);
        } else {
          StartKept(b0, o.wire, Bytes());
        }
      }
      if !ok {
        Undo(saved, b0, t0);
      }
    }

    /** The failure path: back to the bytes and the table from before. */
    method Undo(saved: nat, ghost b0: Text, ghost t0: Table)
      requires Valid() && HEADER_SIZE <= saved <= size && |b0| == saved && b0 <= Bytes()
      requires GrewFrom(t0, nameTable, saved) && TableBelow(t0, saved)
      modifies `size, `nameTable
      ensures Valid() && Bytes() == b0 && nameTable == t0
    {
      GrewBack(t0, nameTable, saved);
      hide GrewFrom, TableBelow, Below;
      CutBack(saved);
    }
  
    // ---------- Reading ----------

    method ConsumeName(bufferSize: nat) returns (r: Option<Text>)
      requires Valid() && bufferSize > 0
      modifies `rindex
      ensures Valid() && Agrees(r, rindex, ReadName(Bytes(), old(rindex), bufferSize, 127))
    {
      hide Decode, Extent;
      var c := ConsumeLabels(data[..size], rindex, bufferSize, LABELS_MAX);
      if c.None? { return None; }
      rindex := rindex + c.value.0;
      return Some(c.value.1);
    }

    method ConsumeUint16() returns (r: Option<Uint16>)
      requires Valid()
      modifies `rindex
      ensures Valid() && Agrees(r, rindex, ReadUint16(Bytes(), old(rindex)))
    {
      if rindex + 2 > size { return None; }
      var v := data[rindex] as int * 256 + data[rindex + 1];
      rindex := rindex + 2;
      return Some(v);
    }

    method ConsumeUint32() returns (r: Option<Uint32>)
      requires Valid()
      modifies `rindex
      ensures Valid() && Agrees(r, rindex, ReadUint32(Bytes(), old(rindex)))
    {
      if rindex + 4 > size { return None; }
      var v := data[rindex] as int * 0x100_0000 + data[rindex + 1] as int * 0x1_0000 + data[rindex + 2] as int * 0x100
        + data[rindex + 3];
      rindex := rindex + 4;
      return Some(v);
    }

    method ConsumeBytes(n: nat) returns (r: Option<Text>)
      requires Valid()
      modifies `rindex
      ensures Valid() && Agrees(r, rindex, ReadBytes(Bytes(), old(rindex), n))
    {
      if rindex + n > size { return None; }
      var v := data[..size][rindex..rindex + n];
      rindex := rindex + n;
      return Some(v);
    }

    method ConsumeString() returns (r: Option<Text>)
      requires Valid()
      modifies `rindex
      ensures Valid() && Agrees(r, rindex, ReadString(Bytes(), old(rindex)))
    {
      hide UpToNul;
      if rindex >= size { return None; }
      var k := data[rindex];
      if rindex + 1 + k > size { return None; }
      var v := data[..size][rindex + 1..rindex + 1 + k];
      rindex := rindex + 1 + k;
      return Some(UpToNul(v));
    }

    method ConsumeKey() returns (r: Option<(Key, bool)>)
      requires Valid()
      modifies `rindex
      ensures Valid() && Agrees(r, rindex, ReadKey(Bytes(), old(rindex), 127))
    {
      hide NameText, ReadUint16, Normal, ValidDomainName, ReadablePrefix, Join;
      ghost var start := rindex;
      var name := ConsumeName(KEY_NAME_SIZE);
      if name.None? { return None; }
      var kind := ConsumeUint16();
      if kind.None? { return None; }
      var clazz := ConsumeUint16();
      if clazz.None? { return None; }
      DecodedFits(Bytes(), start, KEY_NAME_SIZE, LABELS_MAX);
      var n := NormalizeName(name.value, DOMAIN_NAME_MAX);
      if !n.Filled? { return None; }
      var valid := IsValidDomainName(n.text);
      if !valid { return None; }
      return Some((Key(n.text, ClassOf(clazz.value), kind.value), FlagOf(clazz.value)));
    }

    /** parse_rdata up to its final length check. */
    method ConsumeData(kind: Uint16, len: nat) returns (r: Option<RData>)
      requires Valid() && rindex + len <= size
      modifies `rindex
      ensures Valid() && Agrees(r, rindex, ReadData(Bytes(), old(rindex), kind, len, LABELS_MAX))
    {
      hide ReadName, ReadUint16, ReadString, ReadBytes, TxtParse;
      var rdata := data[..size][rindex..rindex + len];
      if NamesTarget(kind) {
        var name := ConsumeName(DOMAIN_NAME_MAX);
        if name.None? { return None; }
        return Some(Target(name.value));
      } else if kind == TYPE_SRV {
        r := ConsumeService();
      } else if kind == TYPE_HINFO {
        var cpu := ConsumeString();
        if cpu.None? { return None; }
        var os := ConsumeString();
        if os.None? { return None; }
        return Some(Host(cpu.value, os.value));
      } else if kind == TYPE_TXT {
        var l := ParseStrings(rdata);
        if l.None? { return None; }
        rindex := rindex + len;
        return Some(Strings(l.value));
      } else if kind == TYPE_A || kind == TYPE_AAAA {
        var a := ConsumeBytes(if kind == TYPE_A then 4 else 16);
        if a.None? { return None; }
        return Some(Address(a.value));
      } else {
        rindex := rindex + len;
        return Some(Generic(rdata));
      }
    }

    method ConsumeService() returns (r: Option<RData>)
      requires Valid()
      modifies `rindex
      ensures Valid()
      ensures old(rindex) <= size ==> Agrees(r, rindex, ReadData(Bytes(), old(rindex), TYPE_SRV, 0, LABELS_MAX))
    {
      hide ReadName, ReadUint16;
      var priority := ConsumeUint16();
      if priority.None? { return None; }
      var weight := ConsumeUint16();
      if weight.None? { return None; }
      var port := ConsumeUint16();
      if port.None? { return None; }
      var name := ConsumeName(DOMAIN_NAME_MAX);
      if name.None? { return None; }
      return Some(Service(priority.value, weight.value, port.value, name.value));
    }

    method ConsumeRecord() returns (r: Option<(Record, bool)>)
      requires Valid()
      modifies `rindex
      ensures Valid() && Agrees(r, rindex, ReadRecord(Bytes(), old(rindex), 127))
    {
      hide NameText, ReadUint16, ReadUint32, Normal, ValidDomainName, ReadablePrefix, Join, ReadData, Typed, ValidData;
      ghost var start := rindex;
      var name := ConsumeName(DOMAIN_NAME_MAX);
      if name.None? { return None; }
      var kind := ConsumeUint16();
      if kind.None? { return None; }
      var clazz := ConsumeUint16();
      if clazz.None? { return None; }
      var ttl := ConsumeUint32();
      if ttl.None? { return None; }
      var len := ConsumeUint16();
      if len.None? { return None; }
      if rindex + len.value > size { return None; }
      DecodedFits(Bytes(), start, DOMAIN_NAME_MAX, LABELS_MAX);
      var n := NormalizeName(name.value, DOMAIN_NAME_MAX);
      if !n.Filled? { return None; }
      var at := rindex;
      var d := ConsumeData(kind.value, len.value);
      if d.None? || rindex - at != len.value { return None; }
      ReadDataTyped(Bytes(), at, kind.value, len.value, LABELS_MAX);
      var valid := IsValidDomainName(n.text);
      if valid { valid := DataIsValid(kind.value, d.value); }
      if !valid { return None; }
      return Some((Record(Key(n.text, ClassOf(clazz.value), kind.value), StoredTtl(ttl.value), d.value),
                   FlagOf(clazz.value)));
    }

    /** The 16-bit header fields. The assertion of the source also lets six fields behind the header pass, as far as the
        buffer goes. */
    method SetField(idx: nat, v: Uint16)
      requires Valid() && idx < HEADER_SIZE && 2 * idx + 2 <= data.Length
      modifies data
      ensures Valid() && data[..] == old(data[..])[..2 * idx] + Uint16Wire(v) + old(data[..])[2 * idx + 2..]
      ensures idx < 6 ==> Bytes() == old(Bytes())[..2 * idx] + Uint16Wire(v) + old(Bytes())[2 * idx + 2..]
      ensures idx < 6 ==> SameBody(old(Bytes()), Bytes())
    {
      data[2 * idx] := v / 256;
      data[2 * idx + 1] := v % 256;
    }

    method GetField(idx: nat) returns (v: Uint16)
      requires Valid() && idx < HEADER_SIZE && 2 * idx + 2 <= data.Length
      ensures v == Word(data[..], 2 * idx) && (idx < 6 ==> v == Word(Bytes(), 2 * idx))
    {
      v := data[2 * idx] as int * 256 + data[2 * idx + 1];
    }
  }

  lemma FixedParts(r: Record, flush: bool, maxTtl: Uint32)
    ensures FixedWire(r, flush, maxTtl, 0) == (Uint16Wire(r.key.kind) + Uint16Wire(RecordClass(r.key.clazz, flush)))
                                              + (Uint32Wire(SentTtl(r.ttl, maxTtl)) + Uint16Wire(0))
  {
    hide Uint16Wire, Uint32Wire;
  }

  lemma StartKept(b: Text, w: Text, c: Text)
    requires |b + w| <= |c| && c[..|b + w|] == b + w
    ensures b <= c
  {
  }

  /** Filling in the length afterwards gives the fixed part with that length. */
  lemma Patched(b: Text, r: Record, flush: bool, maxTtl: Uint32, data: Text)
    ensures var c := b + FixedWire(r, flush, maxTtl, 0) + data;
            c[..|b| + 8] + Uint16Wire(|data| % 0x1_0000) + c[|b| + 10..] == b
              + (FixedWire(r, flush, maxTtl, |data|) + data)
  {
    hide Uint16Wire, Uint32Wire;
    var first := Uint16Wire(r.key.kind) + Uint16Wire(RecordClass(r.key.clazz, flush))
      + Uint32Wire(SentTtl(r.ttl, maxTtl));
    var c := b + FixedWire(r, flush, maxTtl, 0) + data;
    assert c[..|b| + 8] == b + first;
    assert c[|b| + 10..] == data;
  }
}
