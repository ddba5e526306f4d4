/** avahi-core/dns.c: writing names with compression.
    The writer never looks at the bytes already in the packet, only at their number and at the
    table of name suffixes, so its effect is given by the bytes it adds and the new table. */
module Wire {
  import opened Bytes
  import opened Names
  import opened Walk
  import Utf8

  /** Where the text of each name suffix already written can be found. */
  type Table = map<Text, nat>

  /** How a write ends: finished, failed with its own effects undone, or failed half way. */
  datatype Status = Done | Undone | HalfWay

  datatype Out = Out(status: Status, wire: Text, table: Table)

  const TARGET_LIMIT := 0x4000

  function Pointer(target: nat): Text
    requires target < TARGET_LIMIT
  {
    [192 + target / 256, target % 256]
  }

  /** A label on the wire: its length and its bytes. */
  function LabelWire(l: Text): (w: Text)
    requires |l| < LABEL_MAX
    ensures |w| == 1 + |l|
  {
    [|l|] + l
  }

  /** Inserting keeps an entry that is already there. */
  function Insert(t: Table, name: Text, off: nat): Table {
    if name in t then t else t[name := off]
  }

  /** What cleanup_name_table leaves when the packet is cut to size bytes. */
  function Below(t: Table, size: nat): Table {
    map k | k in t && t[k] < size :: t[k]
  }

  predicate Compressible(t: Table, name: Text) {
    name in t && t[name] < TARGET_LIMIT
  }

  /** The loop of append_name from a packet of off bytes. Undone means the source jumps to its fail
      label, HalfWay that it returns from the compression branch without jumping there. */
  function NameLoop(off: nat, t: Table, max: nat, name: Text): Out
    decreases |name|
  {
    if name == [] then
      if off + 1 <= max then Out(Done, [0], t) else Out(Undone, [], t)
    else if Compressible(t, name) then
      if off + 2 <= max then Out(Done, Pointer(t[name]), t) else Out(HalfWay, [], t)
    else match Unescape(name, LABEL_MAX)
      case None => Out(Undone, [], t)
      case Some(p) =>
        ScanFacts(name, LABEL_MAX);
        var w := LabelWire(p.lbl);
        if off + |w| > max then Out(Undone, [], t)
        else
          var o := NameLoop(off + |w|, Insert(t, name, off), max, p.rest);
          Out(o.status, w + o.wire, o.table)
  }

  /** append_name: the loop, and its fail label. */
  function NameOut(off: nat, t: Table, max: nat, name: Text): Out {
    var o := NameLoop(off, t, max, name);
    if o.status.Undone? then Out(Undone, [], Below(o.table, off)) else o
  }

  // ---------- The table stays a map below the packet size ----------

  predicate TableBelow(t: Table, size: nat) {
    forall k :: k in t ==> t[k] < size
  }

  /** A write keeps the entries it finds, and the entries it adds lie in the bytes it adds. */
  predicate TableGrows(off: nat, t: Table, o: Out, n: nat) {
    && (forall k :: k in t ==> k in o.table && o.table[k] == t[k])
    && (forall k :: k in o.table && k !in t ==> off <= o.table[k] < off + |o.wire| && |k| <= n)
  }

  /** The case of the loop that writes a label. */
  predicate WritesLabel(off: nat, t: Table, max: nat, name: Text, l: Text, rest: Text) {
    && name != [] && !Compressible(t, name)
    && Unescape(name, LABEL_MAX) == Some(Piece(l, rest))
    && |l| < LABEL_MAX && |rest| < |name|
    && off + 1 + |l| <= max
  }

  lemma LabelCase(off: nat, t: Table, max: nat, name: Text, l: Text, rest: Text) returns (o1: Out)
    requires WritesLabel(off, t, max, name, l, rest)
    ensures o1 == NameLoop(off + 1 + |l|, Insert(t, name, off), max, rest)
    ensures NameLoop(off, t, max, name) == Out(o1.status, LabelWire(l) + o1.wire, o1.table)
  {
    o1 := NameLoop(off + 1 + |l|, Insert(t, name, off), max, rest);
  }

  /** The cases in which the loop stops. */
  lemma StopCases(off: nat, t: Table, max: nat, name: Text)
    ensures name == [] ==>
              NameLoop(off, t, max, name) == (if off + 1 <= max then Out(Done, [0], t) else Out(Undone, [], t))
    ensures name != [] && Compressible(t, name) ==>
              NameLoop(off, t, max, name) == (if off + 2 <= max then Out(Done, Pointer(t[name]), t)
                                              else Out(HalfWay, [], t))
    ensures name != [] && !Compressible(t, name) && Unescape(name, LABEL_MAX).None? ==>
              NameLoop(off, t, max, name) == Out(Undone, [], t)
    ensures name != [] && !Compressible(t, name) && Unescape(name, LABEL_MAX).Some? ==>
              var p := Unescape(name, LABEL_MAX).value;
              && |p.lbl| < LABEL_MAX && |p.rest| < |name|
              && (off + 1 + |p.lbl| > max ==> NameLoop(off, t, max, name) == Out(Undone, [], t))
  {
    if Unescape(name, LABEL_MAX).Some? {
      ScanFacts(name, LABEL_MAX);
    }
  }

  /** Outside the label case the table does not change. */
  lemma OtherCases(off: nat, t: Table, max: nat, name: Text) returns (l: Text, rest: Text)
    ensures WritesLabel(off, t, max, name, l, rest) ||
            (var o := NameLoop(off, t, max, name);
             && o.table == t && (off <= max ==> off + |o.wire| <= max)
             && (o.status.Done? ==> name == [] || Compressible(t, name)))
  {
    l, rest := [], [];
    if name != [] && !Compressible(t, name) && Unescape(name, LABEL_MAX).Some? {
      ScanFacts(name, LABEL_MAX);
      l, rest := Unescape(name, LABEL_MAX).value.lbl, Unescape(name, LABEL_MAX).value.rest;
    }
  }

  lemma GrowsThroughLabel(off: nat, t: Table, name: Text, l: Text, rest: Text, o1: Out)
    requires |rest| < |name| && |l| < LABEL_MAX
    requires TableGrows(off + 1 + |l|, Insert(t, name, off), o1, |rest|)
    ensures TableGrows(off, t, Out(o1.status, LabelWire(l) + o1.wire, o1.table), |name|)
  {
  }

  lemma SameTableGrows(off: nat, t: Table, o: Out, n: nat)
    requires o.table == t
    ensures TableGrows(off, t, o, n)
  {
  }

  lemma {:induction false} NameLoopTable(off: nat, t: Table, max: nat, name: Text)
    requires off <= max
    ensures off + |NameLoop(off, t, max, name).wire| <= max
    ensures TableGrows(off, t, NameLoop(off, t, max, name), |name|)
    decreases |name|
  {
    hide Scan, Unescape, NameLoop, TableGrows, Insert, LabelWire, Compressible;
    var l, rest := OtherCases(off, t, max, name);
    if !WritesLabel(off, t, max, name, l, rest) {
      SameTableGrows(off, t, NameLoop(off, t, max, name), |name|);
    } else {
      var o1 := LabelCase(off, t, max, name, l, rest);
      NameLoopTable(off + 1 + |l|, Insert(t, name, off), max, rest);
      GrowsThroughLabel(off, t, name, l, rest, o1);
    }
  }

  /** A name takes at most two bytes more than its text. */
  lemma {:induction false} NameWireBound(off: nat, t: Table, max: nat, name: Text)
    ensures |NameLoop(off, t, max, name).wire| <= |name| + 2
    decreases |name|
  {
    hide Scan, LabelWire, Insert, Compressible;
    if name != [] && !Compressible(t, name) && Unescape(name, LABEL_MAX).Some? {
      ScanFacts(name, LABEL_MAX);
      var p := Unescape(name, LABEL_MAX).value;
      NameWireBound(off + 1 + |p.lbl|, Insert(t, name, off), max, p.rest);
      if p.rest == [] {
        EmptyNameWire(off + 1 + |p.lbl|, Insert(t, name, off), max);
      }
    }
  }

  lemma EmptyNameWire(off: nat, t: Table, max: nat)
    ensures |NameLoop(off, t, max, []).wire| <= 1
  {
  }

  /** Cutting the packet back to where a write began gives back the old table, whatever the write did. */
  lemma CuttingBackRestoresTable(off: nat, t: Table, max: nat, name: Text)
    requires TableBelow(t, off) && off <= max
    ensures Below(NameLoop(off, t, max, name).table, off) == t
    ensures Below(NameOut(off, t, max, name).table, off) == t
  {
    NameLoopTable(off, t, max, name);
    var u := NameLoop(off, t, max, name).table;
    assert Below(u, off) == t;
    assert Below(t, off) == t;
  }

  /** Going along the suffixes of the name, all labels before the first suffix that t has below 0x4000 are readable and
      fit, and behind them there is no room for a pointer. */
  predicate PointerMisses(off: nat, t: Table, max: nat, name: Text)
    decreases |name|
  {
    name != [] &&
    if Compressible(t, name) then off + 2 > max
    else match Unescape(name, LABEL_MAX)
      case None => false
      case Some(p) =>
        ScanFacts(name, LABEL_MAX);
        off + 1 + |p.lbl| <= max && PointerMisses(off + 1 + |p.lbl|, t, max, p.rest)
  }

  /** The two tables have the same entries for names of at most n bytes. */
  ghost predicate SameUpTo(t: Table, u: Table, n: nat) {
    forall k :: |k| <= n ==> (k in t <==> k in u) && (k in t ==> t[k] == u[k])
  }

  /** The entries made on the way are longer than the suffixes still to come, so they never help. */
  lemma {:induction false} HalfWayIsMiss(off: nat, t: Table, u: Table, max: nat, name: Text)
    requires SameUpTo(t, u, |name|)
    ensures NameLoop(off, u, max, name).status.HalfWay? <==> PointerMisses(off, t, max, name)
    decreases |name|
  {
    hide Scan, LabelWire;
    if name != [] && !Compressible(u, name) && Unescape(name, LABEL_MAX).Some? {
      ScanFacts(name, LABEL_MAX);
      var p := Unescape(name, LABEL_MAX).value;
      HalfWayIsMiss(off + 1 + |p.lbl|, t, Insert(u, name, off), max, p.rest);
    }
  }

  /** A failing append_name leaves something behind exactly when it runs out of room at a pointer after it has written a
      label, which name, table and room tell beforehand; its callers have to cut the packet back. */
  lemma FailedNameIsAtomic(off: nat, t: Table, max: nat, name: Text)
    requires TableBelow(t, off) && off <= max
    ensures var o := NameOut(off, t, max, name);
            !o.status.Done? && (o.wire != [] || o.table != t) <==>
              PointerMisses(off, t, max, name) && !Compressible(t, name)
  {
    HalfWayIsMiss(off, t, t, max, name);
    if NameLoop(off, t, max, name).status.Undone? {
      CuttingBackRestoresTable(off, t, max, name);
    } else {
      StopCases(off, t, max, name);
    }
  }

  /** Such a failure: "b" is in the table, and after the label of "a.b" no pointer fits any more. */
  lemma NameMayStayHalfWritten()
    ensures NameOut(20, map[[98] := 12], 22, [97, DOT, 98]) ==
              Out(HalfWay, [1, 97], map[[98] := 12, [97, DOT, 98] := 20])
  {
    var name: Text, rest: Text := [97, DOT, 98], [98];
    var t: Table := map[rest := 12];
    assert Unescape(name, LABEL_MAX) == Some(Piece([97], rest)) by {
      assert name == Escape([97]) + [DOT, 98] by { assert Escape([97]) == EscapeByte(97) + Escape([]); }
      ScanEscaped([97], [DOT, 98], LABEL_MAX);
      assert AfterLabel([DOT, 98]) == rest;
      AsciiLabel();
    }
    assert NameLoop(22, Insert(t, name, 20), 22, rest) == Out(HalfWay, [], Insert(t, name, 20));
    assert LabelWire([97]) == [1, 97];
    assert Insert(t, name, 20) == map[rest := 12, name := 20];
  }

  lemma AsciiLabel()
    ensures Utf8.WellFormed([97])
  {
  }

  /** Two bytes more than the text are always enough for a well-formed name. */
  lemma {:induction false} NameFits(off: nat, t: Table, max: nat, name: Text)
    requires Labels(name).Some? && off + |name| + 2 <= max
    ensures NameLoop(off, t, max, name).status.Done?
    decreases |name|
  {
    hide Scan, LabelWire, Insert, Compressible;
    if name != [] && !Compressible(t, name) {
      ScanFacts(name, LABEL_MAX);
      var p := Unescape(name, LABEL_MAX).value;
      if p.rest == [] {
        EndFits(off + 1 + |p.lbl|, Insert(t, name, off), max);
      } else {
        NameFits(off + 1 + |p.lbl|, Insert(t, name, off), max, p.rest);
      }
    }
  }

  lemma EndFits(off: nat, t: Table, max: nat)
    requires off + 1 <= max
    ensures NameLoop(off, t, max, []).status.Done?
  {
  }

  // ---------- What is written reads back ----------

  /** A table entry leads to bytes that spell exactly its text, in at most two steps a label. */
  predicate GoodEntry(b: Text, t: Table, k: Text) {
    && k in t && k != [] && NulFree(k)
    && HEADER_SIZE <= t[k] < |b|
    && Labels(k).Some?
    && Decode(b, t[k], 2 * |Labels(k).value|) == Labels(k)
  }

  /** The entries for names no longer than n bytes are good. */
  predicate GoodUpTo(b: Text, t: Table, n: nat) {
    forall k :: k in t && |k| <= n ==> GoodEntry(b, t, k)
  }

  predicate GoodTable(b: Text, t: Table) {
    forall k :: k in t ==> GoodEntry(b, t, k)
  }

  lemma GoodEntryExtends(b: Text, c: Text, t: Table, u: Table, k: Text)
    requires b <= c && GoodEntry(b, t, k) && k in u && u[k] == t[k]
    ensures GoodEntry(c, u, k)
  {
    DecodeExtends(b, c, t[k], 2 * |Labels(k).value|);
  }

  lemma GoodUpToExtends(b: Text, c: Text, t: Table, n: nat)
    requires b <= c && GoodUpTo(b, t, n)
    ensures GoodUpTo(c, t, n)
  {
    forall k | k in t && |k| <= n ensures GoodEntry(c, t, k) {
      GoodEntryExtends(b, c, t, t, k);
    }
  }

  lemma ZeroDecodes(b: Text, fuel: nat)
    requires fuel > 0
    ensures Decode(b + [0], |b|, fuel) == Some([]) && Extent(b + [0], |b|) == 1
  {
  }

  lemma PointerDecodes(b: Text, target: nat, fuel: nat)
    requires HEADER_SIZE <= target < |b| && target < TARGET_LIMIT && Decode(b, target, fuel).Some?
    ensures Decode(b + Pointer(target), |b|, fuel + 1) == Decode(b, target, fuel)
    ensures Extent(b + Pointer(target), |b|) == 2
  {
    var c := b + Pointer(target);
    DecodeExtends(b, c, target, fuel);
    assert c[|b|] == 192 + target / 256 && c[|b| + 1] == target % 256;
    assert PointerTarget(c, |b|) == target;
  }

  /** A label in front of bytes that decode from just after it. */
  lemma LabelDecodes(b: Text, l: Text, more: Text, fuel: nat)
    requires 1 <= |l| < LABEL_MAX
    requires Decode(b + LabelWire(l) + more, |b| + 1 + |l|, fuel).Some?
    ensures var c := b + LabelWire(l) + more;
            && Decode(c, |b|, fuel + 1) == Continue([l], Decode(c, |b| + 1 + |l|, fuel))
            && Extent(c, |b|) == 1 + |l| + Extent(c, |b| + 1 + |l|)
  {
    var c := b + LabelWire(l) + more;
    assert c[|b|] == |l| && c[|b| + 1..|b| + 1 + |l|] == l;
    DecodeHasExtent(c, |b| + 1 + |l|, fuel);
  }

  lemma LabelsCons(name: Text, l: Text, rest: Text)
    requires name != [] && NulFree(name) && Labels(name).Some?
    requires Unescape(name, LABEL_MAX) == Some(Piece(l, rest))
    ensures l != [] && NulFree(rest) && Labels(rest).Some? && Labels(name).value == [l] + Labels(rest).value
  {
    ScanFacts(name, LABEL_MAX);
  }

  /** Bytes b followed by the output o: the name at the end of b decodes to ls in at most two steps a
      label and one more, fills the output exactly, and the entries up to n bytes long are good. */
  predicate ReadsBack(b: Text, o: Out, ls: seq<Text>, n: nat) {
    && Decode(b + o.wire, |b|, 2 * |ls| + 1) == Some(ls)
    && Extent(b + o.wire, |b|) == |o.wire|
    && GoodUpTo(b + o.wire, o.table, n)
  }

  /** Putting a label in front of a name that reads back. */
  lemma LabelInFront(b: Text, l: Text, o1: Out, ls: seq<Text>, n: nat)
    requires 1 <= |l| < LABEL_MAX && ReadsBack(b + LabelWire(l), o1, ls, n)
    ensures var c := b + LabelWire(l) + o1.wire;
            && Decode(c, |b|, 2 * |ls| + 2) == Some([l] + ls)
            && Decode(c, |b|, 2 * |ls| + 3) == Some([l] + ls)
            && Extent(c, |b|) == 1 + |l| + |o1.wire|
  {
    hide Decode, Extent, LabelWire, GoodUpTo;
    var c := b + LabelWire(l) + o1.wire;
    assert |b + LabelWire(l)| == |b| + 1 + |l|;
    LabelDecodes(b, l, o1.wire, 2 * |ls| + 1);
    MoreFuel(c, |b|, 2 * |ls| + 2, 2 * |ls| + 3);
  }

  /** The entry of the name being written is longer than any name still to be written. */
  lemma InsertLonger(b: Text, t: Table, name: Text, off: nat, n: nat)
    requires GoodUpTo(b, t, |name|) && n < |name|
    ensures GoodUpTo(b, Insert(t, name, off), n)
  {
  }

  /** The entry of a name whose label starts at the end of b. */
  lemma NewEntry(b: Text, c: Text, u: Table, name: Text, ls: seq<Text>)
    requires HEADER_SIZE <= |b| < |c| && name != [] && NulFree(name) && Labels(name) == Some(ls)
    requires Decode(c, |b|, 2 * |ls|) == Some(ls)
    requires name in u && u[name] == |b|
    ensures GoodEntry(c, u, name)
  {
  }

  /** The entries stay good when the rest of a name has been written and its own entry is added. */
  lemma EntriesThroughLabel(b: Text, t: Table, off: nat, name: Text, rest: Text, c: Text, o1: Out)
    requires b <= c && |rest| < |name|
    requires GoodUpTo(b, t, |name|) && GoodUpTo(c, o1.table, |rest|)
    requires TableGrows(off, Insert(t, name, |b|), o1, |rest|)
    requires name !in t ==> GoodEntry(c, o1.table, name)
    ensures GoodUpTo(c, o1.table, |name|)
  {
    hide Labels, Decode;
    forall k | k in o1.table && |k| <= |name| ensures GoodEntry(c, o1.table, k) {
      if |k| > |rest| && k in t {
        GoodEntryExtends(b, c, t, o1.table, k);
      }
    }
  }

  /** The label case: what was proved of the rest of the name carries over to the whole. */
  lemma LabelCaseReadsBack(b: Text, t: Table, name: Text, l: Text, rest: Text, o1: Out)
    requires HEADER_SIZE <= |b| && 1 <= |l| < LABEL_MAX && |rest| < |name| && NulFree(name)
    requires Labels(rest).Some? && Labels(name) == Some([l] + Labels(rest).value)
    requires GoodUpTo(b, t, |name|)
    requires ReadsBack(b + LabelWire(l), o1, Labels(rest).value, |rest|)
    requires TableGrows(|b| + 1 + |l|, Insert(t, name, |b|), o1, |rest|)
    ensures ReadsBack(b, Out(o1.status, LabelWire(l) + o1.wire, o1.table), Labels(name).value, |name|)
  {
    hide Labels, Decode, Extent, LabelWire, GoodUpTo, GoodEntry;
    var c := b + LabelWire(l) + o1.wire;
    Regroup(b, LabelWire(l), o1.wire);
    assert |b| < |c|;
    LabelInFront(b, l, o1, Labels(rest).value, |rest|);
    if name !in t {
      NewEntry(b, c, o1.table, name, Labels(name).value);
    }
    EntriesThroughLabel(b, t, |b| + 1 + |l|, name, rest, c, o1);
  }

  /** The two cases in which the loop ends: the terminator and the pointer. */
  lemma EndCasesReadBack(b: Text, t: Table, max: nat, name: Text)
    requires HEADER_SIZE <= |b| <= max && NulFree(name) && Labels(name).Some?
    requires name == [] || Compressible(t, name)
    requires GoodUpTo(b, t, |name|)
    requires NameLoop(|b|, t, max, name).status.Done?
    ensures ReadsBack(b, NameLoop(|b|, t, max, name), Labels(name).value, |name|)
  {
    hide Scan, Unescape, Decode, Extent, Insert, LabelWire, GoodUpTo;
    if name == [] {
      ZeroDecodes(b, 1);
      GoodUpToExtends(b, b + [0], t, 0);
    } else {
      GoodByName(b, t, name);
      PointerDecodes(b, t[name], 2 * |Labels(name).value|);
      GoodUpToExtends(b, b + Pointer(t[name]), t, |name|);
    }
  }

  lemma GoodByName(b: Text, t: Table, name: Text)
    requires GoodUpTo(b, t, |name|) && name in t
    ensures GoodEntry(b, t, name)
  {
  }

  /** The main lemma: a name written after bytes b reads back. */
  lemma {:induction false} WrittenNameReadsBack(b: Text, t: Table, max: nat, name: Text)
    requires HEADER_SIZE <= |b| <= max && NulFree(name) && Labels(name).Some?
    requires GoodUpTo(b, t, |name|)
    requires NameLoop(|b|, t, max, name).status.Done?
    ensures ReadsBack(b, NameLoop(|b|, t, max, name), Labels(name).value, |name|)
    decreases |name|
  {
    hide Scan, Unescape, LabelWire, TableGrows, ReadsBack, GoodUpTo, Labels, NameLoop, Compressible, Insert;
    if name == [] || Compressible(t, name) {
      EndCasesReadBack(b, t, max, name);
    } else {
      var l, rest := OtherCases(|b|, t, max, name);
      var o1 := LabelCase(|b|, t, max, name, l, rest);
      LabelsCons(name, l, rest);
      GoodUpToExtends(b, b + LabelWire(l), t, |name|);
      InsertLonger(b + LabelWire(l), t, name, |b|, |rest|);
      WrittenNameReadsBack(b + LabelWire(l), Insert(t, name, |b|), max, rest);
      NameLoopTable(|b| + 1 + |l|, Insert(t, name, |b|), max, rest);
      LabelCaseReadsBack(b, t, name, l, rest, o1);
    }
  }

  /** After a complete append_name the whole table is good again. */
  lemma AppendedNameReadsBack(b: Text, t: Table, max: nat, name: Text)
    requires HEADER_SIZE <= |b| <= max && NulFree(name) && Labels(name).Some? && GoodTable(b, t)
    requires NameOut(|b|, t, max, name).status.Done?
    ensures var o := NameOut(|b|, t, max, name);
            var c := b + o.wire;
            && Decode(c, |b|, 2 * |Labels(name).value| + 1) == Labels(name)
            && Extent(c, |b|) == |o.wire|
            && GoodTable(c, o.table)
  {
    var o := NameLoop(|b|, t, max, name);
    WrittenNameReadsBack(b, t, max, name);
    NameLoopTable(|b|, t, max, name);
    forall k | k in o.table ensures GoodEntry(b + o.wire, o.table, k) {
      if |k| > |name| {
        GoodEntryExtends(b, b + o.wire, t, o.table, k);
      }
    }
  }
}
