/** The order of section 8.2 of RFC 6762, on class, type and uncompressed wire form of the data, a shorter prefix being
    the lesser; and exactly where the order of avahi-core/rr.c differs from it. */
module WireOrder {
  import opened Bytes
  import opened Names
  import opened Records
  import opened NameRelations
  import opened RecordOrder

  // ---------- The wire form ----------

  /** A string with its length byte. */
  function Piece(s: Text): seq<int> {
    [|s|] + s
  }

  function NameWire(ls: seq<Text>): seq<int> {
    if ls == [] then [0] else Piece(ls[0]) + NameWire(ls[1..])
  }

  function NumberWire(v: Uint16): seq<int> {
    [v / 256, v % 256]
  }

  function DataWire(d: RData): seq<int>
    requires d.Target? || d.Service? ==> IsName(d.name)
  {
    match d
    case Target(n) => NameWire(NameLabels(n).value)
    case Service(p, w, o, n) => NumberWire(p) + (NumberWire(w) + (NumberWire(o) + NameWire(NameLabels(n).value)))
    case Host(cpu, os) => Piece(cpu) + Piece(os)
    case Strings(l) => TxtWire(l)
    case Address(x) => x
    case Generic(g) => g
  }

  /** The comparison that section 8.2 asks for. */
  function RfcCompare(a: Record, b: Record): int
    requires Comparable(a) && Comparable(b)
  {
    var r := Sign(a.key.clazz, b.key.clazz);
    if r != 0 then r else
    var r := Sign(a.key.kind, b.key.kind);
    if r != 0 then r else Lex(DataWire(a.data), DataWire(b.data))
  }

  // ---------- Where the two agree ----------

  predicate ProperPrefix(a: Text, b: Text) {
    a <= b && a != b
  }

  /** Different strings of different lengths are in the order of their lengths. */
  predicate InStep(a: Text, b: Text) {
    |a| == |b| || Lex(a, b) == Sign(|a|, |b|)
  }

  /** The first labels that differ are in step; a name that ends first is the lesser in any case. */
  predicate NamesInStep(a: seq<Text>, b: seq<Text>) {
    a == [] || b == [] || (if a[0] == b[0] then NamesInStep(a[1..], b[1..]) else InStep(a[0], b[0]))
  }

  /** What decides, in terms of the data, whether both orders say the same. */
  predicate DataInStep(a: RData, b: RData)
    requires a.Target? || a.Service? ==> IsName(a.name)
    requires b.Target? || b.Service? ==> IsName(b.name)
    requires SameShape(a, b)
  {
    match a
    case Target(n) => NamesInStep(NameLabels(n).value, NameLabels(b.name).value)
    case Service(p, w, o, n) =>
      p != b.priority || w != b.weight || o != b.port || NamesInStep(NameLabels(n).value, NameLabels(b.name).value)
    case Host(cpu, os) => if cpu == b.cpu then InStep(os, b.os) else InStep(cpu, b.cpu)
    case Strings(l) =>
      !ProperPrefix(TxtWire(l), TxtWire(b.strings)) && !ProperPrefix(TxtWire(b.strings), TxtWire(l))
    case Address(_) => true
    case Generic(g) => !ProperPrefix(g, b.data) && !ProperPrefix(b.data, g)
  }

  // ---------- Bytes ----------

  lemma {:induction false} LexOfPrefix(a: seq<int>, b: seq<int>)
    requires a <= b && a != b
    ensures Lex(a, b) == -1 && Lex(b, a) == 1
  {
    if a != [] {
      assert a[1..] == b[1..][..|a| - 1];
      assert a == [a[0]] + a[1..] && b == [b[0]] + b[1..];
      LexOfPrefix(a[1..], b[1..]);
    }
  }

  lemma {:induction false} LexOfParts(a: seq<int>, b: seq<int>, c: nat)
    requires c <= |a| && c <= |b| && Lex(a[..c], b[..c]) != 0
    ensures Lex(a, b) == Lex(a[..c], b[..c])
    decreases c
  {
    if a[0] == b[0] {
      assert a[..c][1..] == a[1..][..c - 1] && b[..c][1..] == b[1..][..c - 1];
      LexOfParts(a[1..], b[1..], c - 1);
    }
  }

  /** lexicographical_memcmp differs from the order of the RFC exactly on proper prefixes. */
  lemma MemCompareAgrees(a: Text, b: Text)
    ensures MemCompare(a, b) == Lex(a, b) <==> !ProperPrefix(a, b) && !ProperPrefix(b, a)
  {
    var c := Min(|a|, |b|);
    if Lex(a[..c], b[..c]) != 0 {
      LexOfParts(a, b, c);
      LexZero(a[..c], b[..c]);
    } else {
      LexZero(a[..c], b[..c]);
      LexZero(a, b);
      if ProperPrefix(a, b) {
        LexOfPrefix(a, b);
      } else if ProperPrefix(b, a) {
        LexOfPrefix(b, a);
      }
    }
  }

  lemma {:induction false} LexSameLength(a: seq<int>, b: seq<int>, x: seq<int>, y: seq<int>)
    requires |a| == |b|
    ensures Lex(a + x, b + y) == if a == b then Lex(x, y) else Lex(a, b)
  {
    if a == [] {
      EmptySides(x);
      EmptySides(y);
    } else {
      assert (a + x)[1..] == a[1..] + x && (b + y)[1..] == b[1..] + y;
      assert a == [a[0]] + a[1..] && b == [b[0]] + b[1..];
      LexSameLength(a[1..], b[1..], x, y);
    }
  }

  /** Of strings with length bytes, the lengths decide first. */
  lemma PieceCompare(a: Text, b: Text, x: seq<int>, y: seq<int>)
    ensures Lex(Piece(a) + x, Piece(b) + y) ==
            if |a| != |b| then Sign(|a|, |b|) else if a == b then Lex(x, y) else Lex(a, b)
  {
    Regroup([|a|], a, x);
    Regroup([|b|], b, y);
    LexHead(|a|, |b|, a + x, b + y);
    if |a| == |b| {
      LexSameLength(a, b, x, y);
    }
  }

  lemma {:induction false} NamesAgree(a: seq<Text>, b: seq<Text>)
    requires NulFreeLabels(a) && NulFreeLabels(b)
    ensures LabelsCompare(a, b) == Lex(NameWire(a), NameWire(b)) <==> NamesInStep(a, b)
    decreases |a| + |b|
  {
    LabelsCompareIsLex(a, b);
    if a != [] && b != [] {
      PieceCompare(a[0], b[0], NameWire(a[1..]), NameWire(b[1..]));
      ZeroTerminated(a[0], b[0], NameKey(a[1..]), NameKey(b[1..]));
      if a[0] == b[0] {
        NamesAgree(a[1..], b[1..]);
        LabelsCompareIsLex(a[1..], b[1..]);
      } else {
        LexZero(a[0], b[0]);
      }
    } else {
      EndedName(a, b);
    }
  }

  lemma EndedName(a: seq<Text>, b: seq<Text>)
    requires NulFreeLabels(a) && NulFreeLabels(b) && (a == [] || b == [])
    ensures Lex(NameKey(a), NameKey(b)) == Lex(NameWire(a), NameWire(b))
  {
    if a == [] && b == [] {
      LexZero([0], [0]);
    } else {
      var ls := if a == [] then b else a;
      assert NameKey(ls)[0] == ls[0][0] && NameWire(ls)[0] == |ls[0]|;
    }
  }

  lemma NumberAgrees(p: Uint16, q: Uint16, x: seq<int>, y: seq<int>)
    ensures Lex(NumberWire(p) + x, NumberWire(q) + y) == if p != q then Sign(p, q) else Lex(x, y)
  {
    assert p == p / 256 * 256 + p % 256 && q == q / 256 * 256 + q % 256;
    assert NumberWire(p) + x == [p / 256] + ([p % 256] + x) && NumberWire(q) + y == [q / 256] + ([q % 256] + y);
    LexHead(p / 256, q / 256, [p % 256] + x, [q % 256] + y);
    LexHead(p % 256, q % 256, x, y);
  }

  lemma HostAgrees(a: RData, b: RData)
    requires a.Host? && b.Host?
    ensures DataCompare(a, b) == Lex(DataWire(a), DataWire(b)) <==> DataInStep(a, b)
  {
    PieceCompare(a.cpu, b.cpu, Piece(a.os), Piece(b.os));
    PieceCompare(a.os, b.os, [], []);
    EmptySides(Piece(a.os));
    EmptySides(Piece(b.os));
    LexZero(a.cpu, b.cpu);
    LexZero(a.os, b.os);
    LexZero([], []);
  }

  lemma DataAgrees(kind: Uint16, a: RData, b: RData)
    requires Typed(kind, a) && Typed(kind, b) && SameShape(a, b)
    requires a.Target? || a.Service? ==> IsName(a.name)
    requires b.Target? || b.Service? ==> IsName(b.name)
    ensures DataCompare(a, b) == Lex(DataWire(a), DataWire(b)) <==> DataInStep(a, b)
  {
    hide NameLabels, LabelsCompare, NameWire, NumberWire, TxtWire, MemCompare, Lex, NamesInStep, ProperPrefix;
    match a
    case Target(n) =>
      NameLabelsNulFree(n);
      NameLabelsNulFree(b.name);
      NamesAgree(NameLabels(n).value, NameLabels(b.name).value);
    case Service(p, w, o, n) =>
      NameLabelsNulFree(n);
      NameLabelsNulFree(b.name);
      var x, y := NameWire(NameLabels(n).value), NameWire(NameLabels(b.name).value);
      NamesAgree(NameLabels(n).value, NameLabels(b.name).value);
      NumberAgrees(p, b.priority, NumberWire(w) + (NumberWire(o) + x), NumberWire(b.weight) + (NumberWire(b.port) + y));
      NumberAgrees(w, b.weight, NumberWire(o) + x, NumberWire(b.port) + y);
      NumberAgrees(o, b.port, x, y);
    case Host(_, _) => HostAgrees(a, b);
    case Strings(l) => MemCompareAgrees(TxtWire(l), TxtWire(b.strings));
    case Address(_) =>
    case Generic(g) => MemCompareAgrees(g, b.data);
  }

  /** The comparison of the source is that of the RFC if and only if classes or types differ or the data is in step. */
  lemma OrdersAgree(a: Record, b: Record)
    requires Comparable(a) && Comparable(b)
    ensures RecordCompare(a, b) == RfcCompare(a, b) <==>
            a.key.clazz != b.key.clazz || a.key.kind != b.key.kind
            || (TypedSameShape(a.key.kind, a.data, b.data); DataInStep(a.data, b.data))
  {
    hide DataCompare, DataWire, DataInStep, NameLabels, Lex;
    if a.key.clazz == b.key.clazz && a.key.kind == b.key.kind {
      TypedSameShape(a.key.kind, a.data, b.data);
      DataAgrees(a.key.kind, a.data, b.data);
    }
  }

  /** Two such pairs: data that begins with other data, and the labels "aa" and "b", of which the wire form puts the
      shorter first. */
  lemma OrdersMayDiffer()
    ensures MemCompare([1], [1, 2]) == 1 && Lex([1], [1, 2]) == -1
    ensures LabelsCompare([[97, 97]], [[98]]) == -1 && Lex(NameWire([[97, 97]]), NameWire([[98]])) == 1
  {
    MemCompareAgrees([1], [1, 2]);
    LexOfPrefix([1], [1, 2]);
    LexZero([1], [1]);
    assert NameWire([[97, 97]])[0] == 2 && NameWire([[98]])[0] == 1;
  }
}
