/** How many labels the reader of avahi-core/dns.c is good for. Every label and every pointer it follows
    takes one of its 127 steps, so a name of up to 63 labels always reads back, and one of 64 may not. */
module LabelLimit {
  import opened Bytes
  import Utf8
  import opened Names
  import opened Records
  import opened Walk
  import opened Wire
  import opened Message
  import opened RoundTrip

  /** The name a.a. ... .a of k labels. */
  function Copies(k: nat): seq<Text> {
    seq(k, _ => [97])
  }

  function Chained(k: nat): Text {
    Join(Copies(k))
  }

  lemma ChainedFacts(k: nat)
    requires k >= 1
    ensures |Chained(k)| == 2 * k - 1 && NulFree(Chained(k)) && Labels(Chained(k)) == Some(Copies(k))
    ensures Unescape(Chained(k), LABEL_MAX) == Some(Piece([97], Chained(k - 1)))
  {
    assert Utf8.WellFormed([97]) by {
      assert [97][1..] == [];
    }
    assert GoodLabel([97]);
    LabelsOfJoin(Copies(k));
    JoinNulFree(Copies(k));
    ChainedText(k);
    assert Copies(k)[1..] == Copies(k - 1);
    ScanEscaped([97], JoinRest(Copies(k - 1)), LABEL_MAX);
  }

  lemma {:induction false} ChainedText(k: nat)
    ensures |Chained(k)| == if k == 0 then 0 else 2 * k - 1
  {
    if k > 0 {
      assert Copies(k)[1..] == Copies(k - 1);
      assert Escape([97]) == [97] by {
        assert [97][1..] == [];
      }
      ChainedText(k - 1);
      assert Copies(k)[0] == [97];
      assert JoinRest(Copies(k - 1)) == if k == 1 then [] else [DOT] + Chained(k - 1);
    }
  }

  /** As long as a walk succeeds inside b, it goes the same way in any longer packet. */
  lemma {:induction false} DecodeAgrees(b: Text, c: Text, off: nat, fuel: nat, less: nat)
    requires b <= c && Decode(b, off, fuel).Some? && less <= fuel
    ensures Decode(c, off, less) == Decode(b, off, less)
    decreases fuel
  {
    SameStep(b, c, off);
    if b[off] != 0 && less > 0 {
      DecodeAgrees(b, c, Next(b, off).value, fuel - 1, less - 1);
    }
  }

  predicate ShortNames(t: Table, n: nat) {
    forall k :: k in t ==> |k| <= n
  }

  /** A packet in which reading the name of k labels takes two steps a label. */
  predicate Slow(b: Text, t: Table, k: nat) {
    && HEADER_SIZE <= |b| <= HEADER_SIZE + 8 * k && GoodTable(b, t)
    && Chained(k) in t && t[Chained(k)] < |b|
    && ShortNames(t, |Chained(k)|)
    && Decode(b, t[Chained(k)], 2 * k - 1) == None
  }

  /** Following a pointer takes one step. */
  lemma PointerStep(b: Text, target: nat, more: Text, fuel: nat)
    requires HEADER_SIZE <= target < |b| && target < TARGET_LIMIT
    ensures var c := b + Pointer(target) + more; Decode(c, |b|, fuel + 1) == Decode(c, target, fuel)
  {
    var c := b + Pointer(target) + more;
    assert c[|b|] == 192 + target / 256 && c[|b| + 1] == target % 256;
    assert PointerTarget(c, |b|) == target;
  }

  /** Reading a label takes one step. */
  lemma LabelStep97(b: Text, more: Text, fuel: nat)
    ensures var c := b + LabelWire([97]) + more;
            Decode(c, |b|, fuel + 1) == Continue([[97]], Decode(c, |b| + 2, fuel))
  {
    var c := b + LabelWire([97]) + more;
    assert c[|b|] == 1 && c[|b| + 1] == 97;
    assert LabelAt(c, |b|) == [97];
  }

  lemma GoodByTable(b: Text, t: Table, name: Text)
    requires GoodTable(b, t) && name in t
    ensures GoodEntry(b, t, name)
  {
  }

  /** In any longer packet, the slow name still needs its two steps a label. */
  lemma StillSlow(b: Text, t: Table, k: nat, c: Text)
    requires 1 <= k && Slow(b, t, k) && b <= c
    ensures HEADER_SIZE <= t[Chained(k)]
    ensures Decode(c, t[Chained(k)], 2 * k - 1) == None && Decode(c, t[Chained(k)], 2 * k) == Some(Copies(k))
  {
    hide GoodTable, Decode, Labels, Chained;
    ChainedFacts(k);
    var at := t[Chained(k)];
    GoodByTable(b, t, Chained(k));
    assert |Copies(k)| == k;
    DecodeAgrees(b, c, at, 2 * k, 2 * k - 1);
    DecodeAgrees(b, c, at, 2 * k, 2 * k);
  }

  /** Appending the next longer name adds one label and one pointer. */
  lemma ChainAppends(b: Text, t: Table, k: nat, max: nat)
    requires 1 <= k < 1000 && Slow(b, t, k) && |b| + 4 <= max
    ensures NameOut(|b|, t, max, Chained(k + 1)) ==
            Out(Done, LabelWire([97]) + Pointer(t[Chained(k)]), t[Chained(k + 1) := |b|])
    ensures ShortNames(t[Chained(k + 1) := |b|], |Chained(k + 1)|)
  {
    ChainedFacts(k + 1);
    ChainedText(k);
    hide GoodTable, Decode, Labels, Chained, Copies, Scan, Unescape, NameLoop;
    var name := Chained(k + 1);
    assert name !in t;
    var o1 := LabelCase(|b|, t, max, name, [97], Chained(k));
    StopCases(|b| + 2, t[name := |b|], max, Chained(k));
  }

  lemma SlowWalk(b: Text, t: Table, k: nat)
    requires 1 <= k < 1000 && Slow(b, t, k)
    ensures Decode(b + (LabelWire([97]) + Pointer(t[Chained(k)])), |b|, 2 * k + 1) == None
  {
    hide GoodTable, Decode, Labels, Chained, LabelWire;
    var at, b1 := t[Chained(k)], b + LabelWire([97]);
    Regroup(b, LabelWire([97]), Pointer(at));
    StillSlow(b, t, k, b1 + Pointer(at));
    EmptySides(b1 + Pointer(at));
    PointerStep(b1, at, [], 2 * k - 1);
    LabelStep97(b, Pointer(at), 2 * k);
  }

  // ---------- A packet of questions ----------

  /** The question for the name of k labels. */
  function Asked(k: nat): Item {
    Question(Key(Chained(k), CLASS_IN, TYPE_A), false)
  }

  /** The questions for the names of 1 to n labels. */
  function Asking(n: nat): seq<Item> {
    if n == 0 then [] else Asking(n - 1) + [Asked(n)]
  }

  const TAIL := Uint16Wire(TYPE_A) + Uint16Wire(KeyClass(CLASS_IN, false))

  lemma ChainedIsReadable(k: nat, steps: nat)
    requires 1 <= k && 2 * k + 1 <= steps
    ensures Readable(Chained(k), steps) && IsNormal(Chained(k))
  {
    ChainedFacts(k);
    hide Labels, Chained;
    ChainedIsNoDot(k);
    assert NameLabels(Chained(k)) == Some(Copies(k));
    JoinOfCopies(k);
  }

  lemma ChainedIsNoDot(k: nat)
    requires 1 <= k
    ensures Chained(k) != [DOT]
  {
    ChainedText(k);
    if k == 1 {
      assert Copies(1)[1..] == [] && Copies(1)[0] == [97];
      assert [97][1..] == [];
      assert Escape([97]) == [97];
    }
  }

  lemma JoinOfCopies(k: nat)
    ensures Join(Copies(k)) == Chained(k)
  {
  }

  lemma {:induction false} AllReadable(n: nat)
    requires n <= 63
    ensures AllSurvive(Asking(n), LABELS_MAX) && |Asking(n)| == n
  {
    if n > 0 {
      AllReadable(n - 1);
      hide Readable;
      ChainedIsReadable(n, LABELS_MAX);
      ChainedText(n);
      hide Chained, Survives;
      assert Survives(Asked(n), LABELS_MAX) by { Survives1(n); }
    }
  }

  lemma Survives1(n: nat)
    requires Readable(Chained(n), LABELS_MAX) && |Chained(n)| < 256
    ensures Survives(Asked(n), LABELS_MAX)
  {
    hide Readable, Chained;
  }

  /** The first question. */
  lemma FirstAsked(p: Contents)
    requires Fresh(p) && p.max >= HEADER_SIZE + 8
    ensures var q := Append(p, Asked(1)); Fits(p, Asked(1)) && Slow(q.bytes, q.table, 1) && q.max == p.max
  {
    ChainedFacts(1);
    var name := Chained(1);
    assert Chained(0) == [] by { assert Copies(0) == []; }
    var o := NameOut(|p.bytes|, p.table, p.max, name);
    assert o == Out(Done, [1, 97, 0], map[name := HEADER_SIZE]) by {
      hide Scan, Unescape, Labels, Chained;
      var o1 := LabelCase(HEADER_SIZE, map[], p.max, name, [97], []);
      StopCases(HEADER_SIZE + 2, map[name := HEADER_SIZE], p.max, []);
      assert LabelWire([97]) + [0] == [1, 97, 0];
    }
    hide NameOut, Labels, Chained;
    var b := p.bytes + [1, 97, 0];
    FirstReads(p.bytes);
    assert GoodTable(b, o.table);
    var q := Append(p, Asked(1));
    Regroup(p.bytes, [1, 97, 0], TAIL);
    GoodTableExtends(b, q.bytes, o.table);
    hide Decode;
    DecodeAgrees(b, q.bytes, HEADER_SIZE, 2, 1);
  }

  lemma FirstReads(b: Text)
    requires |b| == HEADER_SIZE
    ensures Decode(b + [1, 97, 0], HEADER_SIZE, 2) == Some(Copies(1)) && Decode(b + [1, 97, 0], HEADER_SIZE, 1) == None
  {
    var c := b + [1, 97, 0];
    assert c[12] == 1 && c[13] == 97 && c[14] == 0;
    assert LabelAt(c, 12) == [97];
    assert Decode(c, 14, 1) == Some([]);
    assert Copies(1) == [[97]];
    EmptySides([[97]]);
  }

  lemma TailIsFour()
    ensures |TAIL| == 4
  {
  }

  /** What a question adds to a packet. */
  lemma AskedAppends(q: Contents, k: nat, o: Out)
    requires o == NameOut(|q.bytes|, q.table, q.max, Chained(k)) && o.status == Done
             && |q.bytes| + |o.wire| + 4 <= q.max
    ensures Fits(q, Asked(k)) && Append(q, Asked(k)) == Contents(q.bytes + o.wire + TAIL, o.table, q.max)
  {
    hide NameOut, Chained, Uint16Wire;
    Regroup(q.bytes, o.wire, TAIL);
  }

  /** The name of k + 1 labels, just appended, is the slow one now. */
  lemma NextIsSlow(b: Text, t: Table, k: nat, max: nat)
    requires 1 <= k < 1000 && Slow(b, t, k) && |b| + 4 <= max
    ensures var o := NameOut(|b|, t, max, Chained(k + 1));
            o.status == Done && |o.wire| == 4 && Slow(b + o.wire, o.table, k + 1)
  {
    hide Slow, GoodTable, Decode, Chained, LabelWire, NameOut, ShortNames, Pointer;
    LabelWireIsTwo();
    SlowParts(b, t, k);
    ChainAppends(b, t, k, max);
    var o := NameOut(|b|, t, max, Chained(k + 1));
    assert |o.wire| == 4 by { PointerIsTwo(t[Chained(k)]); }
    NextReadsBack(b, t, k, max);
    SlowWalk(b, t, k);
    MakesSlow(b + o.wire, o.table, k + 1, |b|);
  }

  lemma PointerIsTwo(at: nat)
    requires at < TARGET_LIMIT
    ensures |Pointer(at)| == 2
  {
  }

  lemma SlowParts(b: Text, t: Table, k: nat)
    requires Slow(b, t, k)
    ensures HEADER_SIZE <= |b| <= HEADER_SIZE + 8 * k && GoodTable(b, t) && Chained(k) in t && t[Chained(k)] < |b|
  {
    hide GoodTable, Decode, Chained, ShortNames;
  }

  lemma MakesSlow(b: Text, t: Table, k: nat, at: nat)
    requires HEADER_SIZE <= |b| <= HEADER_SIZE + 8 * k && GoodTable(b, t) && Chained(k) in t
             && t[Chained(k)] == at < |b|
    requires ShortNames(t, |Chained(k)|) && k > 0 && Decode(b, at, 2 * k - 1) == None
    ensures Slow(b, t, k)
  {
    hide GoodTable, Decode, Chained, ShortNames;
  }

  lemma NextReadsBack(b: Text, t: Table, k: nat, max: nat)
    requires 1 <= k < 1000 && HEADER_SIZE <= |b| <= max && GoodTable(b, t)
             && NameOut(|b|, t, max, Chained(k + 1)).status == Done
    ensures var o := NameOut(|b|, t, max, Chained(k + 1)); GoodTable(b + o.wire, o.table)
  {
    hide GoodTable, Decode, Labels, Chained, NameOut;
    ChainedFacts(k + 1);
    AppendedNameReadsBack(b, t, max, Chained(k + 1));
  }

  lemma SlowExtends(b: Text, t: Table, k: nat, c: Text)
    requires 1 <= k && Slow(b, t, k) && b <= c && |c| <= HEADER_SIZE + 8 * k
    ensures Slow(c, t, k)
  {
    hide GoodTable, Decode, Labels, Chained;
    StillSlow(b, t, k, c);
    GoodTableExtends(b, c, t);
  }

  /** The next question. */
  lemma NextAsked(q: Contents, k: nat)
    requires 1 <= k < 1000 && Slow(q.bytes, q.table, k) && |q.bytes| + 8 <= q.max
    ensures var c := Append(q, Asked(k + 1)); Fits(q, Asked(k + 1)) && Slow(c.bytes, c.table, k + 1) && c.max == q.max
  {
    hide NameOut, Chained, Append, Fits, Asked, Slow, LabelWire, Uint16Wire;
    SlowIsShort(q.bytes, q.table, k);
    TailIsFour();
    var o := NameOut(|q.bytes|, q.table, q.max, Chained(k + 1));
    NextIsSlow(q.bytes, q.table, k, q.max);
    AskedAppends(q, k + 1, o);
    SlowExtends(q.bytes + o.wire, o.table, k + 1, q.bytes + o.wire + TAIL);
  }

  /** After the questions for 1 to n labels, the last of them is slow. */
  lemma {:induction false} AskingIsSlow(p: Contents, n: nat)
    requires Fresh(p) && 1 <= n < 1000 && p.max >= HEADER_SIZE + 8 * n
    ensures var q := AppendAll(p, Asking(n));
            Slow(q.bytes, q.table, n) && q.max == p.max && Kept(p, Asking(n)) == Asking(n)
  {
    hide Slow, Append, Fits, Asked, Fresh;
    if n == 1 {
      assert Asking(0) == [];
      EmptySides([Asked(1)]);
      assert [Asked(1)][1..] == [];
      FirstAsked(p);
      assert AppendAll(p, Asking(1)) == Append(p, Asked(1));
      EmptySides([Asked(1)]);
    } else {
      AskingIsSlow(p, n - 1);
      AppendOne(p, Asking(n - 1), Asked(n));
      var q := AppendAll(p, Asking(n - 1));
      SlowIsShort(q.bytes, q.table, n - 1);
      NextAsked(q, n - 1);
    }
  }

  lemma SlowIsShort(b: Text, t: Table, k: nat)
    requires Slow(b, t, k)
    ensures |b| <= HEADER_SIZE + 8 * k
  {
  }

  // ---------- Longer names behind a slow one ----------

  /** The wire form of j labels "a". */
  function Labels97(j: nat): Text {
    if j == 0 then [] else LabelWire([97]) + Labels97(j - 1)
  }

  lemma {:induction false} Labels97Length(j: nat)
    ensures |Labels97(j)| == 2 * j
  {
    if j > 0 {
      Labels97Length(j - 1);
    }
  }

  /** A name of j labels more is written as j labels and a pointer to the slow name. */
  lemma {:induction false} LongNameOut(off: nat, t: Table, u: Table, k: nat, j: nat, max: nat)
    requires 1 <= k && Compressible(t, Chained(k)) && off + 2 * j + 2 <= max
    requires ShortNames(t, |Chained(k)|) && SameUpTo(t, u, |Chained(k + j)|)
    ensures var o := NameLoop(off, u, max, Chained(k + j));
            o.status == Done && o.wire == Labels97(j) + Pointer(t[Chained(k)])
    decreases j
  {
    hide Chained, NameLoop, LabelWire, SameUpTo, ShortNames, Insert, Pointer, Labels97;
    if j == 0 {
      ShortNameOut(off, t, u, k, max);
    } else {
      NotThere(t, u, k, j);
      LongNameStep(off, u, max, k + j);
      LongerEntry(t, u, k + j, off);
      LongNameOut(off + 2, t, Insert(u, Chained(k + j), off), k, j - 1, max);
      OneMoreLabel(j, Pointer(t[Chained(k)]));
    }
  }

  lemma ShortNameOut(off: nat, t: Table, u: Table, k: nat, max: nat)
    requires 1 <= k && Compressible(t, Chained(k)) && off + 2 <= max && SameUpTo(t, u, |Chained(k)|)
    ensures var o := NameLoop(off, u, max, Chained(k));
            o.status == Done && o.wire == Labels97(0) + Pointer(t[Chained(k)])
  {
    ChainedText(k);
    SameHere(t, u, Chained(k));
    hide Chained, NameLoop, SameUpTo;
    StopCases(off, u, max, Chained(k));
    EmptySides(Pointer(t[Chained(k)]));
  }

  lemma NotThere(t: Table, u: Table, k: nat, j: nat)
    requires 1 <= k && 1 <= j && ShortNames(t, |Chained(k)|) && SameUpTo(t, u, |Chained(k + j)|)
    ensures Chained(k + j) !in u
  {
    ChainedText(k);
    ChainedText(k + j);
    hide Chained;
    SameHere(t, u, Chained(k + j));
  }

  lemma LongNameStep(off: nat, u: Table, max: nat, m: nat)
    requires 1 <= m && Chained(m) !in u && off + 2 <= max
    ensures var o := NameLoop(off, u, max, Chained(m));
            var o1 := NameLoop(off + 2, Insert(u, Chained(m), off), max, Chained(m - 1));
            o.status == o1.status && o.wire == LabelWire([97]) + o1.wire
  {
    ChainedFacts(m);
    ChainedText(m - 1);
    LabelWireIsTwo();
    hide Labels, Chained, Copies, Scan, Unescape, NameLoop, LabelWire, Insert;
    var o1 := LabelCase(off, u, max, Chained(m), [97], Chained(m - 1));
  }

  lemma OneMoreLabel(j: nat, w: Text)
    requires j > 0
    ensures LabelWire([97]) + (Labels97(j - 1) + w) == Labels97(j) + w
  {
    Regroup(LabelWire([97]), Labels97(j - 1), w);
  }

  lemma SameHere(t: Table, u: Table, name: Text)
    requires SameUpTo(t, u, |name|)
    ensures (name in t <==> name in u) && (name in t ==> t[name] == u[name])
  {
  }

  lemma LongerEntry(t: Table, u: Table, m: nat, off: nat)
    requires m > 0 && SameUpTo(t, u, |Chained(m)|)
    ensures SameUpTo(t, Insert(u, Chained(m), off), |Chained(m - 1)|)
  {
    ChainedText(m);
    ChainedText(m - 1);
    hide Chained;
  }

  /** In no packet that begins like b, the name at the offset is read within n steps. */
  ghost predicate NeverWithin(b: Text, at: nat, n: nat) {
    forall c: Text {:trigger Decode(c, at, n)} :: b <= c ==> Decode(c, at, n) == None
  }

  lemma NeverLater(b: Text, c: Text, at: nat, n: nat)
    requires NeverWithin(b, at, n) && b <= c
    ensures NeverWithin(c, at, n) && Decode(c, at, n) == None
  {
    forall d: Text {:trigger Decode(d, at, n)} | c <= d ensures Decode(d, at, n) == None {
      assert b <= d;
    }
  }

  /** Reading it takes a step for each label, one for the pointer, and what the slow name takes. */
  lemma {:induction false} LongWalk(b: Text, at: nat, n: nat, j: nat, more: Text, fuel: nat)
    requires HEADER_SIZE <= at < |b| && at < TARGET_LIMIT && fuel <= n + 1 + j && NeverWithin(b, at, n)
    ensures Decode(b + (Labels97(j) + Pointer(at)) + more, |b|, fuel) == None
    decreases j
  {
    hide Decode, LabelWire, NeverWithin, Pointer;
    NoSteps(b + (Labels97(j) + Pointer(at)) + more, |b|);
    if j == 0 {
      EmptySides(Pointer(at));
      SlowPointerStep(b, at, n, more, fuel);
    } else if fuel > 0 {
      var b1, rest := b + LabelWire([97]), Labels97(j - 1) + Pointer(at);
      Regroup(LabelWire([97]), Labels97(j - 1), Pointer(at));
      Regroup(b, LabelWire([97]), rest);
      Regroup(b1, rest, more);
      LabelWireIsTwo();
      NeverLater(b, b1, at, n);
      LongWalk(b1, at, n, j - 1, more, fuel - 1);
      LabelStep97(b, rest + more, fuel - 1);
    }
  }

  lemma LabelWireIsTwo()
    ensures |LabelWire([97])| == 2
  {
  }

  lemma NoSteps(b: Text, off: nat)
    ensures Decode(b, off, 0) == None
  {
  }

  lemma SlowPointerStep(b: Text, at: nat, n: nat, more: Text, fuel: nat)
    requires HEADER_SIZE <= at < |b| && at < TARGET_LIMIT && fuel <= n + 1 && NeverWithin(b, at, n)
    ensures Decode(b + Pointer(at) + more, |b|, fuel) == None
  {
    hide Decode, NeverWithin;
    var c := b + Pointer(at) + more;
    NoSteps(c, |b|);
    if fuel > 0 {
      PointerStep(b, at, more, fuel - 1);
      NeverLater(b, c, at, n);
      if Decode(c, at, fuel - 1).Some? {
        MoreFuel(c, at, fuel - 1, n);
      }
    }
  }

  // ---------- The limit ----------

  /** Whatever questions and records that can be read back a packet holds, a question with a normal name of k labels
      that is appended to it can be read back too. */
  ghost predicate AlwaysReadsBack(k: nat) {
    forall p: Contents, items: seq<Item>, key: Key, unicast: bool {:trigger Ends(p, items, key, unicast, k)} ::
      Ends(p, items, key, unicast, k) ==> EndReads(p, items, key, unicast)
  }

  predicate Ends(p: Contents, items: seq<Item>, key: Key, unicast: bool, k: nat) {
    && Fresh(p) && AllSurvive(items, LABELS_MAX) && Fits(AppendAll(p, items), Question(key, unicast))
    && IsNormal(key.name) && Labels(key.name).Some? && |Labels(key.name).value| == k
  }

  predicate EndReads(p: Contents, items: seq<Item>, key: Key, unicast: bool) {
    var q := AppendAll(p, items);
    Decode(Append(q, Question(key, unicast)).bytes, |q.bytes|, LABELS_MAX) == Labels(key.name)
  }

  lemma EnoughSteps(p: Contents, items: seq<Item>, key: Key, unicast: bool, k: nat)
    requires Ends(p, items, key, unicast, k) && k <= 63
    ensures EndReads(p, items, key, unicast)
  {
    hide AppendAll, AllSurvive, Append, Fits, IsNormal, Labels, Decode, ReadLike, Kept, AllAsRead;
    FreshIsSound(p);
    RunRoundTrip(p, items, LABELS_MAX);
    EnoughForOne(AppendAll(p, items), key, unicast, k);
  }

  lemma EnoughForOne(q: Contents, key: Key, unicast: bool, k: nat)
    requires Sound(q) && Fits(q, Question(key, unicast)) && k <= 63
    requires IsNormal(key.name) && Labels(key.name).Some? && |Labels(key.name).value| == k
    ensures Decode(Append(q, Question(key, unicast)).bytes, |q.bytes|, LABELS_MAX) == Labels(key.name)
  {
    hide Decode, NameOut, Labels, Normal, Uint16Wire, KeyClass, GoodTable;
    var c := Append(q, Question(key, unicast));
    var o := NameOut(|q.bytes|, q.table, q.max, key.name);
    AppendedNameReadsBack(q.bytes, q.table, q.max, key.name);
    Regroup(q.bytes, o.wire, Uint16Wire(key.kind) + Uint16Wire(KeyClass(key.clazz, unicast)));
    DecodeExtends(q.bytes + o.wire, c.bytes, |q.bytes|, 2 * k + 1);
    MoreFuel(c.bytes, |q.bytes|, 2 * k + 1, LABELS_MAX);
  }

  /** A name of k labels behind a slow one of m labels. */
  lemma BehindSlow(q: Contents, m: nat, k: nat, steps: nat)
    requires 1 <= m < 1000 && m < k && Slow(q.bytes, q.table, m) && |q.bytes| + 2 * k + 8 <= q.max && steps <= m + k
    ensures Fits(q, Asked(k)) && Decode(Append(q, Asked(k)).bytes, |q.bytes|, steps) == None
  {
    hide Decode, Chained, Labels97, NameOut, Fits, Append, Asked, Slow, Pointer, Uint16Wire;
    var b, t, j := q.bytes, q.table, k - m;
    var at := SlowOut(b, t, m, j, q.max);
    TailIsFour();
    AskedAppends(q, k, NameOut(|b|, t, q.max, Chained(k)));
    LongWalk(b, at, 2 * m - 1, j, TAIL, steps);
  }

  lemma SlowOut(b: Text, t: Table, m: nat, j: nat, max: nat) returns (at: nat)
    requires 1 <= m < 1000 && Slow(b, t, m) && |b| + 2 * j + 2 <= max
    ensures HEADER_SIZE <= at < |b| && at < TARGET_LIMIT && NeverWithin(b, at, 2 * m - 1)
    ensures var o := NameOut(|b|, t, max, Chained(m + j));
            o.status == Done && o.wire == Labels97(j) + Pointer(at) && |o.wire| == 2 * j + 2
  {
    hide GoodTable, Decode, Labels, Chained, Labels97, NameLoop, ShortNames, SameUpTo, NeverWithin;
    at := t[Chained(m)];
    StillSlow(b, t, m, b);
    SlowNever(b, t, m);
    SameAsItself(t, |Chained(m + j)|);
    LongNameOut(|b|, t, t, m, j, max);
    Labels97Length(j);
  }

  lemma SameAsItself(t: Table, n: nat)
    ensures SameUpTo(t, t, n)
  {
  }

  lemma SlowNever(b: Text, t: Table, k: nat)
    requires 1 <= k && Slow(b, t, k)
    ensures NeverWithin(b, t[Chained(k)], 2 * k - 1)
  {
    hide GoodTable, Decode, Labels, Chained;
    var at, n := t[Chained(k)], 2 * k - 1;
    forall c: Text {:trigger Decode(c, at, n)} | b <= c ensures Decode(c, at, n) == None {
      StillSlow(b, t, k, c);
    }
  }

  /** The question for k labels after those for 1 to m: it needs m + k + 1 steps. */
  lemma TooManySteps(p: Contents, m: nat, k: nat)
    requires 1 <= m <= 63 && m < k && LABELS_MAX <= m + k && Fresh(p) && p.max == HEADER_SIZE + 8 * m + 2 * k + 8
    ensures Ends(p, Asking(m), Key(Chained(k), CLASS_IN, TYPE_A), false, k)
    ensures !EndReads(p, Asking(m), Key(Chained(k), CLASS_IN, TYPE_A), false)
  {
    AllReadable(m);
    AskingIsSlow(p, m);
    ChainedIsReadable(k, 2 * k + 1);
    ChainedFacts(k);
    hide Asking, AppendAll, AllSurvive, Decode, Labels, Chained, IsNormal, Slow, Append, Fits, Fresh;
    var q := AppendAll(p, Asking(m));
    SlowIsShort(q.bytes, q.table, m);
    BehindSlow(q, m, k, LABELS_MAX);
  }

  lemma NewPacket(max: nat) returns (p: Contents)
    requires max >= HEADER_SIZE
    ensures Fresh(p) && p.max == max
  {
    p := Contents(seq(HEADER_SIZE, _ => 0), map[], max);
  }

  /** Within the 127 steps of consume_labels, exactly the names of at most 63 labels are safe: a packet of 63 questions,
      each of which is read back, makes the writer write a longer one that the reader refuses. */
  lemma SixtyThreeLabels(k: nat)
    ensures AlwaysReadsBack(k) <==> k <= 63
  {
    hide Ends, EndReads;
    if k <= 63 {
      forall p: Contents, items: seq<Item>, key: Key, unicast: bool {:trigger Ends(p, items, key, unicast, k)} |
        Ends(p, items, key, unicast, k)
        ensures EndReads(p, items, key, unicast)
      {
        EnoughSteps(p, items, key, unicast, k);
      }
    } else {
      var p := NewPacket(HEADER_SIZE + 8 * 63 + 2 * k + 8);
      TooManySteps(p, 63, k);
    }
  }
}
