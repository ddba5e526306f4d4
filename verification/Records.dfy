/** avahi-core/rr.c and avahi-common/strlst.c: keys, records and TXT string lists as values. */
module Records {
  import opened Bytes
  import opened Names

  const TYPE_A: Uint16 := 0x01
  const TYPE_NS: Uint16 := 0x02
  const TYPE_CNAME: Uint16 := 0x05
  const TYPE_PTR: Uint16 := 0x0C
  const TYPE_HINFO: Uint16 := 0x0D
  const TYPE_TXT: Uint16 := 0x10
  const TYPE_AAAA: Uint16 := 0x1C
  const TYPE_SRV: Uint16 := 0x21
  const TYPE_ANY: Uint16 := 0xFF
  const CLASS_IN: Uint16 := 0x01
  const CLASS_ANY: Uint16 := 0xFF
  const CACHE_FLUSH := 0x8000
  const DEFAULT_TTL: Uint32 := 4500
  const RDATA_MAX := 0xFFFF

  datatype Key = Key(name: Text, clazz: Uint16, kind: Uint16)

  datatype RData =
    | Target(name: Text)                                                   // PTR, CNAME and NS
    | Service(priority: Uint16, weight: Uint16, port: Uint16, name: Text)  // SRV
    | Host(cpu: Text, os: Text)                                            // HINFO
    | Strings(strings: seq<Text>)                                          // TXT, in link order
    | Address(address: seq<byte>)                                          // A and AAAA
    | Generic(data: seq<byte>)

  datatype Record = Record(key: Key, ttl: Uint32, data: RData)

  predicate NamesTarget(kind: Uint16) {
    kind == TYPE_PTR || kind == TYPE_CNAME || kind == TYPE_NS
  }

  /** The union member in use is the one the record type selects. */
  predicate Typed(kind: Uint16, d: RData) {
    if NamesTarget(kind) then d.Target? && NulFree(d.name)
    else if kind == TYPE_SRV then d.Service? && NulFree(d.name)
    else if kind == TYPE_HINFO then d.Host? && NulFree(d.cpu) && NulFree(d.os)
    else if kind == TYPE_TXT then d.Strings?
    else if kind == TYPE_A then d.Address? && |d.address| == 4
    else if kind == TYPE_AAAA then d.Address? && |d.address| == 16
    else d.Generic? && |d.data| <= RDATA_MAX
  }

  predicate WellTyped(r: Record) {
    NulFree(r.key.name) && Typed(r.key.kind, r.data)
  }

  // ---------- Validity ----------

  predicate ValidStrings(l: seq<Text>) {
    forall i :: 0 <= i < |l| ==> 1 <= |l[i]| <= 255
  }

  /** avahi_record_is_valid, on the data part. */
  predicate ValidData(kind: Uint16, d: RData)
    requires Typed(kind, d)
  {
    if NamesTarget(kind) || kind == TYPE_SRV then ValidDomainName(d.name)
    else if kind == TYPE_HINFO then |d.os| <= 255 && |d.cpu| <= 255
    else if kind == TYPE_TXT then ValidStrings(d.strings)
    else true
  }

  /** avahi_record_is_valid. */
  predicate ValidRecord(r: Record)
    requires WellTyped(r)
  {
    ValidDomainName(r.key.name) && ValidData(r.key.kind, r.data)
  }

  method StringsAreValid(l: seq<Text>) returns (ok: bool)
    ensures ok <==> ValidStrings(l)
  {
    for i := 0 to |l|
      invariant ValidStrings(l[..i])
    {
      if |l[i]| > 255 || |l[i]| <= 0 { return false; }
    }
    assert l[..|l|] == l;
    return true;
  }

  method DataIsValid(kind: Uint16, d: RData) returns (ok: bool)
    requires Typed(kind, d)
    ensures ok <==> ValidData(kind, d)
  {
    if NamesTarget(kind) || kind == TYPE_SRV {
      ok := IsValidDomainName(d.name);
    } else if kind == TYPE_HINFO {
      ok := |d.os| <= 255 && |d.cpu| <= 255;
    } else if kind == TYPE_TXT {
      ok := StringsAreValid(d.strings);
    } else {
      ok := true;
    }
  }

  method RecordIsValid(r: Record) returns (ok: bool)
    requires WellTyped(r)
    ensures ok <==> ValidRecord(r)
  {
    ok := IsValidDomainName(r.key.name);
    if ok {
      ok := DataIsValid(r.key.kind, r.data);
    }
  }

  // ---------- TXT string lists ----------

  /** One string as length byte and contents: empty ones are skipped, long ones cut at 255. */
  function StringWire(s: Text): Text {
    if s == [] then [] else var k := if |s| > 255 then 255 else |s|; [k] + s[..k]
  }

  /** The list is linked back to front, so its head is written last. */
  function StringsWire(l: seq<Text>): Text {
    if l == [] then [] else StringsWire(l[1..]) + StringWire(l[0])
  }

  /** A list without any contents is written as one empty string. */
  function TxtWire(l: seq<Text>): (w: Text)
    ensures w != []
  {
    var w := StringsWire(l);
    if w == [] then [0] else w
  }

  function TxtParse(w: Text, acc: seq<Text>): Option<seq<Text>>
    decreases |w|
  {
    if w == [] then Some(acc)
    else
      var k := w[0];
      if k > |w| - 1 then None
      else TxtParse(w[1 + k..], if k > 0 then [w[1..1 + k]] + acc else acc)
  }

  lemma TxtParseOne(s: Text, tail: Text, acc: seq<Text>)
    requires 1 <= |s| <= 255
    ensures TxtParse(StringWire(s) + tail, acc) == TxtParse(tail, [s] + acc)
  {
    var w := StringWire(s) + tail;
    assert StringWire(s) == [|s|] + s;
    assert w[1 + |s|..] == tail;
    assert w[1..1 + |s|] == s;
  }

  lemma {:induction false} TxtParseWire(l: seq<Text>, tail: Text, acc: seq<Text>)
    requires ValidStrings(l)
    ensures TxtParse(StringsWire(l) + tail, acc) == TxtParse(tail, l + acc)
    decreases |l|
  {
    if l == [] {
      EmptySides(tail);
      EmptySides(acc);
    } else {
      var w := StringWire(l[0]);
      Regroup(StringsWire(l[1..]), w, tail);
      TxtParseWire(l[1..], w + tail, acc);
      TxtParseOne(l[0], tail, l[1..] + acc);
      HeadAndTail(l, acc);
    }
  }

  /** Parsing undoes serialising on every valid list, the empty one included. */
  lemma TxtRoundTrip(l: seq<Text>)
    requires ValidStrings(l)
    ensures TxtParse(TxtWire(l), []) == Some(l)
  {
    assert l + [] == l;
    assert StringsWire(l) + [] == StringsWire(l);
    TxtParseWire(l, [], []);
    if StringsWire(l) == [] {
      assert TxtParse([0], []) == TxtParse([0][1..], []);
    }
  }

  /** The wire form determines a valid list. */
  lemma TxtWireInjective(a: seq<Text>, b: seq<Text>)
    requires ValidStrings(a) && ValidStrings(b) && TxtWire(a) == TxtWire(b)
    ensures a == b
  {
    TxtRoundTrip(a);
    TxtRoundTrip(b);
  }

  lemma {:induction false} StringsWireSnoc(l: seq<Text>, i: nat)
    requires i < |l|
    ensures StringsWire(l[i..]) == StringsWire(l[i + 1..]) + StringWire(l[i])
  {
    assert l[i..][1..] == l[i + 1..];
  }

  lemma {:induction false} StringsWireSuffix(l: seq<Text>, i: nat)
    requires i <= |l|
    ensures |StringsWire(l[i..])| <= |StringsWire(l)|
  {
    if i > 0 {
      StringsWireSnoc(l, i - 1);
      StringsWireSuffix(l, i - 1);
    } else {
      assert l[0..] == l;
    }
  }

  /** avahi_string_list_serialize without a buffer: the room needed. */
  method SerializedSize(l: seq<Text>) returns (used: nat)
    ensures used == |TxtWire(l)|
  {
    used := 0;
    var i := |l|;
    assert l[|l|..] == [];
    while i > 0
      invariant 0 <= i <= |l| && used == |StringsWire(l[i..])|
    {
      i := i - 1;
      StringsWireSnoc(l, i);
      var k := |l[i]|;
      if k != 0 {
        if k > 255 { k := 255; }
        used := used + 1 + k;
      }
    }
    assert l[0..] == l;
    if used == 0 { used := 1; }
  }

  /** avahi_string_list_serialize into a buffer; the source walks the reversed list. */
  method Serialize(l: seq<Text>, size: nat) returns (w: Text)
    ensures |w| <= size
    ensures |TxtWire(l)| <= size ==> w == TxtWire(l)
  {
    w := [];
    var left, i := size, |l|;
    ghost var fits := |TxtWire(l)| <= size;
    assert l[|l|..] == [];
    while left > 1 && i > 0
      invariant 0 <= i <= |l| && left == size - |w| >= 0
      invariant fits ==> w == StringsWire(l[i..])
    {
      i := i - 1;
      StringsWireSnoc(l, i);
      StringsWireSuffix(l, i);
      var k := |l[i]|;
      if k != 0 {
        if k > 255 { k := 255; }
        ghost var full := k;
        if k > left - 1 { k := left - 1; }
        assert fits ==> |StringsWire(l[i..])| == |w| + 1 + full && k == full;
        w := w + ([k] + l[i][..k]);
        left := left - 1 - k;
      }
    }
    if fits {
      NothingLeft(l, i, size);
    }
    if w == [] && left > 0 { w := [0]; }
  }

  /** When the whole wire form fits and at most one byte is left, the strings not visited are empty. */
  lemma {:induction false} NothingLeft(l: seq<Text>, i: nat, size: nat)
    requires i <= |l| && |StringsWire(l)| <= size
    requires i == 0 || size - |StringsWire(l[i..])| <= 1
    ensures StringsWire(l) == StringsWire(l[i..])
    decreases i
  {
    if i == 0 {
      assert l[0..] == l;
    } else {
      var before, w := StringsWire(l[i..]), StringWire(l[i - 1]);
      StringsWireSnoc(l, i - 1);
      StringsWireSuffix(l, i - 1);
      assert |before + w| <= size && w == [];
      assert before + w == before;
      NothingLeft(l, i - 1, size);
    }
  }

  method ParseStrings(w: Text) returns (r: Option<seq<Text>>)
    ensures r == TxtParse(w, [])
  {
    var list: seq<Text>, c := [], 0;
    assert w[0..] == w;
    while c < |w|
      invariant 0 <= c <= |w| && TxtParse(w, []) == TxtParse(w[c..], list)
    {
      ghost var rest := w[c..];
      var k := w[c];
      c := c + 1;
      if k > |w| - c { return None; }
      assert rest[1 + k..] == w[c + k..] && rest[1..1 + k] == w[c..c + k];
      if k > 0 { list := [w[c..c + k]] + list; }
      c := c + k;
    }
    return Some(list);
  }
}
