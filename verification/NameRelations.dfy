/** avahi-common/domain.c and avahi-core/rr.c: equality and hashing of names, keys and records. */
module NameRelations {
  import opened Bytes
  import opened Names
  import opened Records

  // ---------- Equality of names ----------

  function Folded(s: Text): Text {
    seq(|s|, i requires 0 <= i < |s| => Lower(s[i]))
  }

  function FoldedAll(ls: seq<Text>): seq<Text> {
    seq(|ls|, i requires 0 <= i < |ls| => Folded(ls[i]))
  }

  /** A readable name: what the assertions of the source demand of both arguments. */
  predicate IsName(s: Text) {
    NameLabels(s).Some?
  }

  /** Equal label sequences, ignoring ASCII case. */
  predicate SameName(a: Text, b: Text)
    requires IsName(a) && IsName(b)
  {
    FoldedAll(NameLabels(a).value) == FoldedAll(NameLabels(b).value)
  }

  // ---------- The same, byte by byte ----------

  /** Equal, or the two cases of one ASCII letter. */
  predicate SameLetter(x: byte, y: byte) {
    x == y || (65 <= x <= 90 && y == x + 32) || (65 <= y <= 90 && x == y + 32)
  }

  predicate SameLetters(a: Text, b: Text) {
    |a| == |b| && forall k :: 0 <= k < |a| ==> SameLetter(a[k], b[k])
  }

  predicate SameLabels(a: seq<Text>, b: seq<Text>) {
    |a| == |b| && forall i :: 0 <= i < |a| ==> SameLetters(a[i], b[i])
  }

  lemma FoldedLetters(a: Text, b: Text)
    ensures Folded(a) == Folded(b) <==> SameLetters(a, b)
  {
    var x, y := Folded(a), Folded(b);
    forall k | 0 <= k < |a| && k < |b| ensures x[k] == y[k] <==> SameLetter(a[k], b[k]) {
    }
  }

  lemma FoldedLabels(a: seq<Text>, b: seq<Text>)
    ensures FoldedAll(a) == FoldedAll(b) <==> SameLabels(a, b)
  {
    var x, y := FoldedAll(a), FoldedAll(b);
    forall i | 0 <= i < |a| && i < |b| ensures x[i] == y[i] <==> SameLetters(a[i], b[i]) {
      FoldedLetters(a[i], b[i]);
    }
    hide Folded, SameLetters;
  }

  /** Two names are equal if and only if they have as many labels, of equal lengths, whose bytes are equal or the two
      cases of one letter. */
  lemma SameNameByLetters(a: Text, b: Text)
    requires IsName(a) && IsName(b)
    ensures SameName(a, b) <==> SameLabels(NameLabels(a).value, NameLabels(b).value)
  {
    FoldedLabels(NameLabels(a).value, NameLabels(b).value);
  }

  /** What the assertions of the source demand of a text: every label can be read. Labels may be empty. */
  predicate IsReadable(s: Text) {
    RawLabels(s).Some?
  }

  /** Without the empty labels at the end. */
  function Stripped(ls: seq<Text>): seq<Text> {
    if ls != [] && ls[|ls| - 1] == [] then Stripped(ls[..|ls| - 1]) else ls
  }

  /** Equal labels, ignoring ASCII case and empty labels at the end. */
  predicate SameSpelling(a: Text, b: Text)
    requires IsReadable(a) && IsReadable(b)
  {
    FoldedAll(Stripped(RawLabels(a).value)) == FoldedAll(Stripped(RawLabels(b).value))
  }

  function Head(ls: seq<Text>): Text {
    if ls == [] then [] else ls[0]
  }

  function Tail(ls: seq<Text>): seq<Text> {
    if ls == [] then [] else ls[1..]
  }

  /** Reading one label off a text; a text that has ended keeps giving empty labels. */
  lemma RawStep(s: Text)
    requires IsReadable(s)
    ensures Unescape(s, LABEL_MAX).Some?
    ensures var ls, p := RawLabels(s).value, Unescape(s, LABEL_MAX).value;
            && p.lbl == Head(ls) && RawLabels(p.rest) == Some(Tail(ls)) && (p.rest == [] <==> |ls| <= 1)
            && (s != [] ==> |p.rest| < |s|) && (s == [] ==> p.rest == []) && (s == [] <==> ls == [])
  {
    if s != [] {
      ScanFacts(s, LABEL_MAX);
      var p := Unescape(s, LABEL_MAX).value;
      assert ([p.lbl] + RawLabels(p.rest).value)[1..] == RawLabels(p.rest).value;
      RawEmpty(p.rest);
    }
  }

  lemma RawEmpty(s: Text)
    ensures RawLabels(s) == Some([]) <==> s == []
  {
  }

  lemma FoldedTail(a: seq<Text>, b: seq<Text>)
    requires a != [] && b != []
    ensures FoldedAll(a) == FoldedAll(b) <==> Folded(a[0]) == Folded(b[0]) && FoldedAll(a[1..]) == FoldedAll(b[1..])
  {
    var fa, fb := FoldedAll(a), FoldedAll(b);
    assert fa[1..] == FoldedAll(a[1..]) && fb[1..] == FoldedAll(b[1..]);
    assert fa == [fa[0]] + fa[1..] && fb == [fb[0]] + fb[1..];
  }

  /** The first label of stripped labels, and the rest. */
  lemma {:induction false} StrippedTail(ls: seq<Text>)
    ensures Stripped(ls) == if Head(ls) == [] && Stripped(Tail(ls)) == [] then [] else [Head(ls)] + Stripped(Tail(ls))
    decreases |ls|
  {
    if ls != [] {
      var n := |ls| - 1;
      if ls[n] == [] && n > 0 {
        StrippedTail(ls[..n]);
        assert ls[..n][1..] == ls[1..][..n - 1];
      } else {
        assert ls == [ls[0]] + ls[1..];
      }
    }
  }

  lemma FoldedEmpty(l: Text)
    ensures Folded(l) == [] <==> l == []
  {
  }

  /** One round of the comparison. */
  lemma SpellingStep(a: seq<Text>, b: seq<Text>)
    ensures FoldedAll(Stripped(a)) == FoldedAll(Stripped(b)) <==>
            Folded(Head(a)) == Folded(Head(b)) && FoldedAll(Stripped(Tail(a))) == FoldedAll(Stripped(Tail(b)))
  {
    StrippedTail(a);
    StrippedTail(b);
    var x, y := [Head(a)] + Stripped(Tail(a)), [Head(b)] + Stripped(Tail(b));
    assert x[1..] == Stripped(Tail(a)) && y[1..] == Stripped(Tail(b));
    FoldedTail(x, y);
    FoldedEmpty(Head(a));
    FoldedEmpty(Head(b));
    hide Stripped, Head, Tail, Folded;
    assert forall ls :: FoldedAll(ls) == [] <==> ls == [];
  }

  lemma SpellingByLetters(a: Text, b: Text)
    requires IsReadable(a) && IsReadable(b)
    ensures SameSpelling(a, b) <==> SameLabels(Stripped(RawLabels(a).value), Stripped(RawLabels(b).value))
  {
    hide RawLabels, Stripped, FoldedAll, SameLabels;
    FoldedLabels(Stripped(RawLabels(a).value), Stripped(RawLabels(b).value));
  }

  /** avahi_domain_equal. */
  method DomainEqual(a: Text, b: Text) returns (equal: bool)
    requires IsReadable(a) && IsReadable(b)
    ensures equal <==> SameLabels(Stripped(RawLabels(a).value), Stripped(RawLabels(b).value))
  {
    hide RawLabels, Unescape, Stripped, FoldedAll, SameLabels;
    SpellingByLetters(a, b);
    if a == b { return true; }
    var ra, rb := a, b;
    while true
      invariant IsReadable(ra) && IsReadable(rb)
      invariant SameSpelling(a, b) <==> SameSpelling(ra, rb)
      decreases |ra| + |rb|
    {
      RawStep(ra);
      RawStep(rb);
      SpellingStep(RawLabels(ra).value, RawLabels(rb).value);
      var ua := UnescapeLabel(ra, LABEL_MAX);
      var ub := UnescapeLabel(rb, LABEL_MAX);
      if Folded(ua.value.lbl) != Folded(ub.value.lbl) { return false; }
      if ua.value.rest == [] && ub.value.rest == [] {
        return true;
      }
      ra, rb := ua.value.rest, ub.value.rest;
    }
    return true;
  }

  /** A name has no empty labels, but for the root, which may be spelled as one. */
  lemma {:induction false} RawOfName(s: Text)
    requires Labels(s).Some?
    ensures RawLabels(s) == Labels(s) && forall i :: 0 <= i < |Labels(s).value| ==> Labels(s).value[i] != []
    decreases |s|
  {
    if s != [] {
      ScanFacts(s, LABEL_MAX);
      RawOfName(Unescape(s, LABEL_MAX).value.rest);
    }
  }

  lemma RootIsEmptyLabel(s: Text)
    requires s == [DOT]
    ensures RawLabels(s) == Some([[]]) && Stripped(RawLabels(s).value) == []
  {
    var p := Piece([], []);
    assert s[1..] == [];
    assert Scan(s, LABEL_MAX) == Some(p);
    assert Unescape(s, LABEL_MAX) == Some(p);
    RawEmpty(p.rest);
    var root, none: seq<Text> := [p.lbl], [];
    assert RawLabels(p.rest) == Some(none) && root + none == root;
    assert RawLabels(s) == Some(root) && root[..0] == none;
  }

  lemma NameIsReadable(s: Text)
    requires IsName(s)
    ensures IsReadable(s) && Stripped(RawLabels(s).value) == NameLabels(s).value
  {
    if s == [DOT] {
      RootIsEmptyLabel(s);
    } else {
      RawOfName(s);
    }
  }

  /** On names, avahi_domain_equal is equality of the label sequences ignoring ASCII case. */
  lemma SpellingOfNames(a: Text, b: Text)
    requires IsName(a) && IsName(b)
    ensures IsReadable(a) && IsReadable(b) && (SameSpelling(a, b) <==> SameName(a, b))
  {
    hide RawLabels, NameLabels, Stripped, FoldedAll;
    NameIsReadable(a);
    NameIsReadable(b);
  }

  // ---------- Hashing of names ----------

  const WORD := 0x1_0000_0000

  /** tolower() of a signed char, as an unsigned machine word. */
  function LowerWord(b: byte): int {
    if b < 128 then Lower(b) as int else b as int - 256
  }

  function HashBytes(h: Uint32, s: Text): Uint32
    decreases |s|
  {
    if s == [] then h else HashBytes((31 * h + LowerWord(s[0])) % WORD, s[1..])
  }

  function HashLabels(h: Uint32, ls: seq<Text>): Uint32
    decreases |ls|
  {
    if ls == [] then h else HashLabels(HashBytes(h, ls[0]), ls[1..])
  }

  /** The last byte of a text: 31 times the hash of what is before it, plus the byte as a signed character, in lower
      case. */
  lemma {:induction false} HashOfOneMore(h: Uint32, s: Text, b: byte)
    ensures HashBytes(h, s + [b]) ==
            (31 * HashBytes(h, s) + if 65 <= b <= 90 then b + 32 else if b < 128 then b as int else b - 256)
              % 0x1_0000_0000
    decreases |s|
  {
    if s == [] {
      assert s + [b] == [b] && [b][1..] == [];
    } else {
      assert (s + [b])[1..] == s[1..] + [b];
      HashOfOneMore((31 * h + LowerWord(s[0])) % WORD, s[1..], b);
    }
  }

  lemma {:induction false} HashIgnoresCase(h: Uint32, s: Text)
    ensures HashBytes(h, s) == HashBytes(h, Folded(s))
    decreases |s|
  {
    if s != [] {
      assert Folded(s)[0] == Lower(s[0]) && Folded(s)[1..] == Folded(s[1..]);
      HashIgnoresCase((31 * h + LowerWord(s[0])) % WORD, s[1..]);
    }
  }

  lemma {:induction false} EqualLabelsHashEqual(h: Uint32, a: seq<Text>, b: seq<Text>)
    requires FoldedAll(a) == FoldedAll(b)
    ensures HashLabels(h, a) == HashLabels(h, b)
    decreases |a|
  {
    assert |a| == |FoldedAll(a)| == |b|;
    if a != [] {
      FoldedTail(a, b);
      HashIgnoresCase(h, a[0]);
      HashIgnoresCase(h, b[0]);
      EqualLabelsHashEqual(HashBytes(h, a[0]), a[1..], b[1..]);
    }
  }

  /** avahi_domain_hash. */
  method DomainHash(s: Text) returns (hash: Uint32)
    requires IsReadable(s)
    ensures hash == HashLabels(0, RawLabels(s).value)
  {
    hide RawLabels, Unescape;
    hash := 0;
    var rest := s;
    RawEmpty([]);
    while rest != []
      invariant IsReadable(rest) && HashLabels(hash, RawLabels(rest).value) == HashLabels(0, RawLabels(s).value)
      decreases |rest|
    {
      RawStep(rest);
      var u := UnescapeLabel(rest, LABEL_MAX);
      var c := u.value.lbl;
      ghost var before := hash;
      assert c[0..] == c;
      for p := 0 to |c|
        invariant HashBytes(hash, c[p..]) == HashBytes(before, c)
      {
        assert c[p..][1..] == c[p + 1..];
        hash := (31 * hash + LowerWord(c[p])) % WORD;
      }
      rest := u.value.rest;
    }
  }

  lemma {:induction false} HashOfMore(h: Uint32, ls: seq<Text>, l: Text)
    ensures HashLabels(h, ls + [l]) == HashBytes(HashLabels(h, ls), l)
    decreases |ls|
  {
    if ls == [] {
      assert [l][1..] == [];
      assert ls + [l] == [l];
    } else {
      assert (ls + [l])[1..] == ls[1..] + [l];
      HashOfMore(HashBytes(h, ls[0]), ls[1..], l);
    }
  }

  lemma {:induction false} HashStripped(h: Uint32, ls: seq<Text>)
    ensures HashLabels(h, ls) == HashLabels(h, Stripped(ls))
    decreases |ls|
  {
    if ls != [] && ls[|ls| - 1] == [] {
      HashStripped(h, ls[..|ls| - 1]);
      HashOfMore(h, ls[..|ls| - 1], []);
      assert ls == ls[..|ls| - 1] + [[]];
    }
  }

  /** Texts that avahi_domain_equal takes for equal have equal hashes. */
  lemma EqualSpellingsHashEqual(a: Text, b: Text)
    requires IsReadable(a) && IsReadable(b) && SameSpelling(a, b)
    ensures HashLabels(0, RawLabels(a).value) == HashLabels(0, RawLabels(b).value)
  {
    HashStripped(0, RawLabels(a).value);
    HashStripped(0, RawLabels(b).value);
    hide RawLabels, Stripped, FoldedAll, HashLabels;
    EqualLabelsHashEqual(0, Stripped(RawLabels(a).value), Stripped(RawLabels(b).value));
  }

  // ---------- Keys ----------

  /** avahi_key_equal on readable names. */
  predicate SameKey(a: Key, b: Key)
    requires IsName(a.name) && IsName(b.name)
  {
    SameName(a.name, b.name) && a.kind == b.kind && a.clazz == b.clazz
  }

  function KeyHash(k: Key): Uint32
    requires IsName(k.name)
  {
    (HashLabels(0, NameLabels(k.name).value) + k.kind + k.clazz) % WORD
  }

  /** avahi_key_hash. */
  method HashKey(k: Key) returns (hash: Uint32)
    requires IsName(k.name)
    ensures hash == KeyHash(k)
  {
    NameIsReadable(k.name);
    HashStripped(0, RawLabels(k.name).value);
    hide RawLabels, Stripped, HashLabels, NameLabels;
    hash := DomainHash(k.name);
    hash := (hash + k.kind + k.clazz) % 0x1_0000_0000;
  }

  /** Equal keys have equal hashes, the side condition of every table indexed by key. */
  lemma EqualKeysHashEqual(a: Key, b: Key)
    requires IsName(a.name) && IsName(b.name) && SameKey(a, b)
    ensures KeyHash(a) == KeyHash(b)
  {
    EqualLabelsHashEqual(0, NameLabels(a.name).value, NameLabels(b.name).value);
  }

  // ---------- Records ----------

  /** A record whose names the comparison functions can read. */
  predicate Comparable(r: Record) {
    && IsName(r.key.name) && Typed(r.key.kind, r.data)
    && (r.data.Target? || r.data.Service? ==> IsName(r.data.name))
  }

  /** rdata_equal. */
  predicate SameData(a: RData, b: RData)
    requires a.Target? || a.Service? ==> IsName(a.name)
    requires b.Target? || b.Service? ==> IsName(b.name)
  {
    match a
    case Target(n) => b.Target? && SameName(n, b.name)
    case Service(p, w, o, n) => b.Service? && p == b.priority && w == b.weight && o == b.port && SameName(n, b.name)
    case _ => a == b
  }

  /** avahi_record_equal_no_ttl. */
  predicate SameRecord(a: Record, b: Record)
    requires Comparable(a) && Comparable(b)
  {
    SameKey(a.key, b.key) && SameData(a.data, b.data)
  }

  /** Equality of records is an equivalence. */
  lemma SameRecordIsEquivalence(a: Record, b: Record, c: Record)
    requires Comparable(a) && Comparable(b) && Comparable(c)
    ensures SameRecord(a, a)
    ensures SameRecord(a, b) ==> SameRecord(b, a)
    ensures SameRecord(a, b) && SameRecord(b, c) ==> SameRecord(a, c)
  {
    hide NameLabels, FoldedAll;
  }
}
