/** avahi-core/rr.c and avahi-core/domain-util.c: the order on records that decides probe conflicts.
    The branching comparison of the source is shown to be one lexicographic order on flattened records. */
module RecordOrder {
  import opened Bytes
  import opened Names
  import opened Records
  import opened NameRelations

  // ---------- The reference order ----------

  function Sign(x: int, y: int): int {
    if x < y then -1 else if x > y then 1 else 0
  }

  /** Lexicographic comparison; a proper prefix is smaller. */
  function Lex(a: seq<int>, b: seq<int>): (r: int)
    ensures -1 <= r <= 1
  {
    if a == [] || b == [] then Sign(|a|, |b|)
    else if a[0] != b[0] then Sign(a[0], b[0])
    else Lex(a[1..], b[1..])
  }

  lemma {:induction false} LexReverse(a: seq<int>, b: seq<int>)
    ensures Lex(b, a) == -Lex(a, b)
  {
    if a != [] && b != [] && a[0] == b[0] {
      LexReverse(a[1..], b[1..]);
    }
  }

  lemma {:induction false} LexZero(a: seq<int>, b: seq<int>)
    ensures Lex(a, b) == 0 <==> a == b
  {
    if a != [] && b != [] && a[0] == b[0] {
      LexZero(a[1..], b[1..]);
      assert a == [a[0]] + a[1..] && b == [b[0]] + b[1..];
    }
  }

  lemma {:induction false} LexTransitive(a: seq<int>, b: seq<int>, c: seq<int>)
    requires Lex(a, b) < 0 && Lex(b, c) < 0
    ensures Lex(a, c) < 0
  {
    if a != [] && b != [] && c != [] && a[0] == b[0] == c[0] {
      LexTransitive(a[1..], b[1..], c[1..]);
    }
  }

  lemma {:induction false} LexCommonFront(p: seq<int>, a: seq<int>, b: seq<int>)
    ensures Lex(p + a, p + b) == Lex(a, b)
  {
    if p == [] {
      assert p + a == a && p + b == b;
    } else {
      assert (p + a)[1..] == p[1..] + a && (p + b)[1..] == p[1..] + b;
      LexCommonFront(p[1..], a, b);
    }
  }

  // ---------- The comparisons of the source ----------

  function Min(a: nat, b: nat): nat {
    if a < b then a else b
  }

  /** lexicographical_memcmp: here a proper prefix is the greater one. */
  function MemCompare(a: Text, b: Text): int {
    var c := Min(|a|, |b|);
    var r := Lex(a[..c], b[..c]);
    if r != 0 then r
    else if |a| == |b| then 0
    else if |a| == c then 1 else -1
  }

  /** strcmp on C strings. */
  function StrCompare(a: Text, b: Text): int {
    Lex(a, b)
  }

  /** The loop of avahi_binary_domain_cmp, on label sequences: a name that has ended keeps giving empty labels. */
  function LabelsCompare(a: seq<Text>, b: seq<Text>): int
    decreases |a| + |b|
  {
    var la, lb := (if a == [] then [] else a[0]), (if b == [] then [] else b[0]);
    var r := StrCompare(la, lb);
    if r != 0 then r
    else if |a| <= 1 && |b| <= 1 then 0
    else LabelsCompare(if a == [] then a else a[1..], if b == [] then b else b[1..])
  }

  function DomainCompare(a: Text, b: Text): int
    requires IsName(a) && IsName(b)
  {
    LabelsCompare(NameLabels(a).value, NameLabels(b).value)
  }

  /** avahi_binary_domain_cmp, on any texts whose labels can be read. */
  method BinaryDomainCmp(a: Text, b: Text) returns (r: int)
    requires IsReadable(a) && IsReadable(b)
    ensures r == LabelsCompare(RawLabels(a).value, RawLabels(b).value)
    ensures IsName(a) && IsName(b) ==> r == DomainCompare(a, b)
  {
    if IsName(a) && IsName(b) {
      RawOrNot(a, b);
    }
    hide RawLabels, Unescape, NameLabels, Lex;
    var ra, rb := a, b;
    while true
      invariant IsReadable(ra) && IsReadable(rb)
      invariant LabelsCompare(RawLabels(a).value, RawLabels(b).value) ==
                  LabelsCompare(RawLabels(ra).value, RawLabels(rb).value)
      decreases |ra| + |rb|
    {
      RawStep(ra);
      RawStep(rb);
      var ua := UnescapeLabel(ra, LABEL_MAX);
      var ub := UnescapeLabel(rb, LABEL_MAX);
      r := StrCompare(ua.value.lbl, ub.value.lbl);
      if r != 0 { return; }
      if ua.value.rest == [] && ub.value.rest == [] { return 0; }
      ra, rb := ua.value.rest, ub.value.rest;
    }
    return 0;
  }

  lemma RawOrNot(a: Text, b: Text)
    requires IsName(a) && IsName(b)
    ensures IsReadable(a) && IsReadable(b)
    ensures LabelsCompare(RawLabels(a).value, RawLabels(b).value) == DomainCompare(a, b)
  {
    RawRoot(a);
    RawRoot(b);
    hide RawLabels, NameLabels, Lex;
    LexZero([], []);
  }

  lemma RawRoot(s: Text)
    requires IsName(s)
    ensures IsReadable(s)
    ensures RawLabels(s) == NameLabels(s) || (RawLabels(s) == Some([[]]) && NameLabels(s) == Some([]))
  {
    NameIsReadable(s);
    if s == [DOT] {
      RootIsEmptyLabel(s);
    } else {
      RawOfName(s);
    }
  }

  /** The data part of avahi_record_lexicographical_compare, for data of one type. */
  function DataCompare(a: RData, b: RData): int
    requires a.Target? || a.Service? ==> IsName(a.name)
    requires b.Target? || b.Service? ==> IsName(b.name)
    requires SameShape(a, b)
  {
    match a
    case Target(n) => DomainCompare(n, b.name)
    case Service(p, w, o, n) =>
      var r := Sign(p, b.priority);
      if r != 0 then r else
      var r := Sign(w, b.weight);
      if r != 0 then r else
      var r := Sign(o, b.port);
      if r != 0 then r else DomainCompare(n, b.name)
    case Host(cpu, os) =>
      var r := StrCompare(cpu, b.cpu);
      if r != 0 then r else StrCompare(os, b.os)
    case Strings(l) => MemCompare(TxtWire(l), TxtWire(b.strings))
    case Address(x) => Lex(x, b.address)
    case Generic(g) => MemCompare(g, b.data)
  }

  predicate SameShape(a: RData, b: RData) {
    match a
    case Target(_) => b.Target?
    case Service(_, _, _, _) => b.Service?
    case Host(_, _) => b.Host?
    case Strings(_) => b.Strings?
    case Address(_) => b.Address?
    case Generic(_) => b.Generic?
  }

  lemma TypedSameShape(kind: Uint16, a: RData, b: RData)
    requires Typed(kind, a) && Typed(kind, b)
    ensures SameShape(a, b)
  {
  }

  /** avahi_record_lexicographical_compare. */
  function RecordCompare(a: Record, b: Record): int
    requires Comparable(a) && Comparable(b)
  {
    var r := Sign(a.key.clazz, b.key.clazz);
    if r != 0 then r else
    var r := Sign(a.key.kind, b.key.kind);
    if r != 0 then r else
    TypedSameShape(a.key.kind, a.data, b.data);
    DataCompare(a.data, b.data)
  }

  // ---------- Flattened records ----------

  /** Labels as C strings with their NULs, closed by an empty one. */
  function NameKey(ls: seq<Text>): seq<int> {
    if ls == [] then [0] else ls[0] + [0] + NameKey(ls[1..])
  }

  /** A marker above every byte makes a prefix the greater one. */
  function Marked(s: Text): seq<int> {
    var t: seq<int> := s;
    t + [256]
  }

  function DataKey(d: RData): seq<int>
    requires d.Target? || d.Service? ==> IsName(d.name)
  {
    match d
    case Target(n) => NameKey(NameLabels(n).value)
    case Service(p, w, o, n) => [p, w, o] + NameKey(NameLabels(n).value)
    case Host(cpu, os) => cpu + [0] + os
    case Strings(l) => Marked(TxtWire(l))
    case Address(x) => x
    case Generic(g) => Marked(g)
  }

  function OrderKey(r: Record): seq<int>
    requires Comparable(r)
  {
    [r.key.clazz, r.key.kind] + DataKey(r.data)
  }

  lemma {:induction false} MemCompareIsLex(a: Text, b: Text)
    ensures MemCompare(a, b) == Lex(Marked(a), Marked(b))
  {
    if a != [] && b != [] {
      var c := Min(|a|, |b|);
      assert a[..c][1..] == a[1..][..c - 1] && b[..c][1..] == b[1..][..c - 1];
      assert Marked(a)[1..] == Marked(a[1..]) && Marked(b)[1..] == Marked(b[1..]);
      MemCompareIsLex(a[1..], b[1..]);
    } else if a == [] && b == [] {
      LexZero(Marked(a), Marked(b));
    }
  }

  /** Zero-terminated strings compare as themselves; only equal ones let what follows decide. */
  lemma {:induction false} ZeroTerminated(a: Text, b: Text, x: seq<int>, y: seq<int>)
    requires NulFree(a) && NulFree(b)
    ensures Lex(a + [0] + x, b + [0] + y) == if a == b then Lex(x, y) else Lex(a, b)
    decreases |a|
  {
    var s, t := a + [0] + x, b + [0] + y;
    if a != [] && b != [] && a[0] == b[0] {
      assert s[1..] == a[1..] + [0] + x && t[1..] == b[1..] + [0] + y;
      ZeroTerminated(a[1..], b[1..], x, y);
      assert a == [a[0]] + a[1..] && b == [b[0]] + b[1..];
    } else if a == [] && b == [] {
      assert s[1..] == x && t[1..] == y;
    }
  }

  predicate NulFreeLabels(ls: seq<Text>) {
    forall i :: 0 <= i < |ls| ==> ls[i] != [] && NulFree(ls[i])
  }

  lemma {:induction false} LabelsCompareIsLex(a: seq<Text>, b: seq<Text>)
    requires NulFreeLabels(a) && NulFreeLabels(b)
    ensures LabelsCompare(a, b) == Lex(NameKey(a), NameKey(b))
    decreases |a| + |b|
  {
    if a != [] && b != [] {
      ZeroTerminated(a[0], b[0], NameKey(a[1..]), NameKey(b[1..]));
      LexZero(a[0], b[0]);
      if |a| > 1 || |b| > 1 {
        LabelsCompareIsLex(a[1..], b[1..]);
      } else {
        assert a[1..] == [] && b[1..] == [];
        LexZero([0], [0]);
      }
    } else if a == [] && b == [] {
      LexZero([0], [0]);
      LexZero([], []);
    } else {
      var ls := if a == [] then b else a;
      assert NameKey(ls)[0] == ls[0][0];
    }
  }

  lemma NameLabelsNulFree(n: Text)
    requires IsName(n) && NulFree(n)
    ensures NulFreeLabels(NameLabels(n).value)
  {
    if n != [DOT] {
      LabelsAreGood(n);
    }
  }

  lemma DataCompareIsLex(kind: Uint16, a: RData, b: RData)
    requires Typed(kind, a) && Typed(kind, b) && SameShape(a, b)
    requires a.Target? || a.Service? ==> IsName(a.name)
    requires b.Target? || b.Service? ==> IsName(b.name)
    ensures DataCompare(a, b) == Lex(DataKey(a), DataKey(b))
  {
    hide NameLabels, LabelsCompare, NameKey, TxtWire, MemCompare;
    match a
    case Target(n) =>
      NameLabelsNulFree(n);
      NameLabelsNulFree(b.name);
      LabelsCompareIsLex(NameLabels(n).value, NameLabels(b.name).value);
    case Service(p, w, o, n) =>
      NameLabelsNulFree(n);
      NameLabelsNulFree(b.name);
      LabelsCompareIsLex(NameLabels(n).value, NameLabels(b.name).value);
      ThreeNumbers([p, w, o], [b.priority, b.weight, b.port], NameKey(NameLabels(n).value),
                   NameKey(NameLabels(b.name).value));
    case Host(cpu, os) =>
      ZeroTerminated(cpu, b.cpu, os, b.os);
      LexZero(cpu, b.cpu);
    case Strings(l) => MemCompareIsLex(TxtWire(l), TxtWire(b.strings));
    case Address(_) =>
    case Generic(g) => MemCompareIsLex(g, b.data);
  }

  lemma LexHead(p: int, q: int, x: seq<int>, y: seq<int>)
    ensures Lex([p] + x, [q] + y) == if p != q then Sign(p, q) else Lex(x, y)
  {
    assert ([p] + x)[1..] == x && ([q] + y)[1..] == y;
  }

  lemma ThreeNumbers(p: seq<int>, q: seq<int>, x: seq<int>, y: seq<int>)
    requires |p| == |q| == 3
    ensures Lex(p + x, q + y) ==
            if p[0] != q[0] then Sign(p[0], q[0]) else if p[1] != q[1] then Sign(p[1], q[1])
            else if p[2] != q[2] then Sign(p[2], q[2]) else Lex(x, y)
  {
    assert p + x == [p[0]] + ([p[1]] + ([p[2]] + x)) && q + y == [q[0]] + ([q[1]] + ([q[2]] + y));
    hide Lex;
    LexHead(p[0], q[0], [p[1]] + ([p[2]] + x), [q[1]] + ([q[2]] + y));
    LexHead(p[1], q[1], [p[2]] + x, [q[2]] + y);
    LexHead(p[2], q[2], x, y);
  }

  /** The comparison of the source is lexicographic order on flattened records. */
  lemma RecordCompareIsLex(a: Record, b: Record)
    requires Comparable(a) && Comparable(b)
    ensures RecordCompare(a, b) == Lex(OrderKey(a), OrderKey(b))
  {
    hide DataKey, DataCompare, NameLabels;
    var p, q := [a.key.clazz, a.key.kind], [b.key.clazz, b.key.kind];
    var x, y := DataKey(a.data), DataKey(b.data);
    if p == q {
      LexCommonFront(p, x, y);
      TypedSameShape(a.key.kind, a.data, b.data);
      DataCompareIsLex(a.key.kind, a.data, b.data);
    } else {
      assert (p + x)[1..][0] == p[1] && (q + y)[1..][0] == q[1];
    }
  }

  // ---------- Only identical data compares equal ----------

  lemma {:induction false} NameKeyInjective(a: seq<Text>, b: seq<Text>)
    requires NulFreeLabels(a) && NulFreeLabels(b) && NameKey(a) == NameKey(b)
    ensures a == b
    decreases |a|
  {
    if a != [] && b != [] {
      LexZero(NameKey(a), NameKey(b));
      ZeroTerminated(a[0], b[0], NameKey(a[1..]), NameKey(b[1..]));
      LexZero(a[0], b[0]);
      LexZero(NameKey(a[1..]), NameKey(b[1..]));
      NameKeyInjective(a[1..], b[1..]);
      assert a == [a[0]] + a[1..] && b == [b[0]] + b[1..];
    }
  }

  /** The same labels letter by letter, or the same bytes. */
  predicate IdenticalData(a: RData, b: RData)
    requires a.Target? || a.Service? ==> IsName(a.name)
    requires b.Target? || b.Service? ==> IsName(b.name)
  {
    match a
    case Target(n) => b.Target? && NameLabels(n) == NameLabels(b.name)
    case Service(p, w, o, n) =>
      b.Service? && (p, w, o) == (b.priority, b.weight, b.port) && NameLabels(n) == NameLabels(b.name)
    case _ => a == b
  }

  lemma DataKeyInjective(kind: Uint16, a: RData, b: RData)
    requires Typed(kind, a) && Typed(kind, b) && ValidData(kind, a) && ValidData(kind, b)
    requires a.Target? || a.Service? ==> IsName(a.name)
    requires b.Target? || b.Service? ==> IsName(b.name)
    requires DataKey(a) == DataKey(b)
    ensures IdenticalData(a, b)
  {
    hide NameLabels, NameKey, TxtWire;
    TypedSameShape(kind, a, b);
    match a
    case Target(n) =>
      NameLabelsNulFree(n);
      NameLabelsNulFree(b.name);
      NameKeyInjective(NameLabels(n).value, NameLabels(b.name).value);
    case Service(p, w, o, n) =>
      NameLabelsNulFree(n);
      NameLabelsNulFree(b.name);
      var x, y := DataKey(a), DataKey(b);
      assert x[0] == y[0] && x[1] == y[1] && x[2] == y[2] && x[3..] == y[3..];
      assert x[3..] == NameKey(NameLabels(n).value) && y[3..] == NameKey(NameLabels(b.name).value);
      NameKeyInjective(NameLabels(n).value, NameLabels(b.name).value);
    case Host(cpu, os) =>
      ZeroTerminated(cpu, b.cpu, os, b.os);
      LexZero(DataKey(a), DataKey(b));
      LexZero(cpu, b.cpu);
      LexZero(os, b.os);
    case Strings(l) =>
      assert DataKey(a)[..|TxtWire(l)|] == TxtWire(l) && DataKey(b)[..|TxtWire(b.strings)|] == TxtWire(b.strings);
      TxtWireInjective(l, b.strings);
    case Address(_) =>
    case Generic(g) =>
      assert DataKey(a)[..|g|] == g && DataKey(b)[..|b.data|] == b.data;
  }

  predicate ValidComparable(r: Record) {
    Comparable(r) && ValidData(r.key.kind, r.data)
  }

  /** The comparison is a total order on the data of valid records of one class and type. */
  lemma TotalOrder(a: Record, b: Record, c: Record)
    requires ValidComparable(a) && ValidComparable(b) && ValidComparable(c)
    ensures RecordCompare(b, a) == -RecordCompare(a, b)
    ensures RecordCompare(a, b) < 0 && RecordCompare(b, c) < 0 ==> RecordCompare(a, c) < 0
    ensures RecordCompare(a, b) == 0 ==>
              IdenticalData(a.data, b.data) && a.key.kind == b.key.kind && a.key.clazz == b.key.clazz
    ensures RecordCompare(a, a) == 0
  {
    hide RecordCompare, DataKey, IdenticalData, ValidData, NameLabels;
    RecordCompareIsLex(a, b);
    RecordCompareIsLex(b, a);
    RecordCompareIsLex(b, c);
    RecordCompareIsLex(a, c);
    RecordCompareIsLex(a, a);
    LexReverse(OrderKey(a), OrderKey(b));
    LexZero(OrderKey(a), OrderKey(b));
    LexZero(OrderKey(a), OrderKey(a));
    if Lex(OrderKey(a), OrderKey(b)) < 0 && Lex(OrderKey(b), OrderKey(c)) < 0 {
      LexTransitive(OrderKey(a), OrderKey(b), OrderKey(c));
    }
    if OrderKey(a) == OrderKey(b) {
      assert OrderKey(a)[0] == OrderKey(b)[0] && OrderKey(a)[1] == OrderKey(b)[1];
      assert OrderKey(a)[2..] == DataKey(a.data) && OrderKey(b)[2..] == DataKey(b.data);
      DataKeyInjective(a.key.kind, a.data, b.data);
    }
  }
}
