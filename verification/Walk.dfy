/** Reading compressed names: the label walk of consume_labels in avahi-core/dns.c, and the
    decoding of section 4.1.4 of RFC 1035 it is compared with. */
module Walk {
  import opened Bytes
  import opened Names

  const HEADER_SIZE := 12
  const LABELS_MAX := 127

  // ---------- The decoding function ----------

  predicate IsLabelAt(b: Text, off: nat) {
    off < |b| && 1 <= b[off] <= 63 && off + 1 + b[off] <= |b|
  }

  function LabelAt(b: Text, off: nat): Text
    requires IsLabelAt(b, off)
  {
    b[off + 1..off + 1 + b[off]]
  }

  function PointerTarget(b: Text, off: nat): nat
    requires off + 1 < |b| && b[off] >= 192
  {
    (b[off] as int - 192) * 256 + b[off + 1]
  }

  /** A compression pointer that leads backwards, past the packet header. */
  predicate IsPointerAt(b: Text, off: nat) {
    off + 1 < |b| && b[off] >= 192 && HEADER_SIZE <= PointerTarget(b, off) < off
  }

  /** The labels met from off on, if a zero byte is reached within fuel steps. */
  function Decode(b: Text, off: nat, fuel: nat): Option<seq<Text>>
    decreases fuel
  {
    if fuel == 0 || off >= |b| then None
    else if b[off] == 0 then Some([])
    else if IsLabelAt(b, off) then
      Continue([LabelAt(b, off)], Decode(b, off + 1 + b[off], fuel - 1))
    else if IsPointerAt(b, off) then Decode(b, PointerTarget(b, off), fuel - 1)
    else None
  }

  /** The bytes a name occupies in place: up to its first pointer or its terminator. */
  function Extent(b: Text, off: nat): (n: nat)
    ensures n > 0 ==> off + n <= |b|
    decreases |b| - off
  {
    if off >= |b| then 0
    else if b[off] == 0 then 1
    else if IsLabelAt(b, off) then
      var n := Extent(b, off + 1 + b[off]);
      if n == 0 then 0 else 1 + b[off] + n
    else if IsPointerAt(b, off) then 2
    else 0
  }

  // ---------- Walks as paths of offsets ----------

  /** The offset reached from off in one step, for a label or a pointer. */
  function Next(b: Text, off: nat): Option<nat> {
    if IsLabelAt(b, off) then Some(off + 1 + b[off])
    else if IsPointerAt(b, off) then Some(PointerTarget(b, off))
    else None
  }

  /** A sequence of offsets, each reached from the one before, ending at a zero byte. */
  predicate IsPath(b: Text, path: seq<nat>) {
    && path != []
    && (forall i :: 0 <= i < |path| - 1 ==> Next(b, path[i]) == Some(path[i + 1]))
    && path[|path| - 1] < |b| && b[path[|path| - 1]] == 0
  }

  function LabelsOn(b: Text, path: seq<nat>): seq<Text> {
    if path == [] then []
    else (if IsLabelAt(b, path[0]) then [LabelAt(b, path[0])] else []) + LabelsOn(b, path[1..])
  }

  lemma {:induction false} PathOfDecode(b: Text, off: nat, fuel: nat) returns (path: seq<nat>)
    requires Decode(b, off, fuel).Some?
    ensures IsPath(b, path) && path[0] == off && |path| <= fuel && LabelsOn(b, path) == Decode(b, off, fuel).value
    decreases fuel
  {
    if b[off] == 0 {
      path := [off];
      assert path[1..] == [];
    } else {
      var rest := PathOfDecode(b, Next(b, off).value, fuel - 1);
      path := [off] + rest;
      assert path[1..] == rest;
      assert forall i :: 0 < i < |path| - 1 ==> path[i] == rest[i - 1] && path[i + 1] == rest[i];
    }
  }

  lemma {:induction false} DecodeOfPath(b: Text, path: seq<nat>, fuel: nat)
    requires IsPath(b, path) && |path| <= fuel
    ensures Decode(b, path[0], fuel) == Some(LabelsOn(b, path))
    decreases |path|
  {
    if |path| == 1 {
      assert path[1..] == [];
      assert LabelsOn(b, path) == [];
    } else {
      assert Next(b, path[0]) == Some(path[1]);
      assert IsPath(b, path[1..]);
      DecodeOfPath(b, path[1..], fuel - 1);
      EmptySides(LabelsOn(b, path[1..]));
    }
  }

  /** Decoding within fuel steps succeeds exactly when a path of at most fuel offsets leads to a zero byte. */
  lemma DecodeIffPath(b: Text, off: nat, fuel: nat, ls: seq<Text>)
    ensures Decode(b, off, fuel) == Some(ls) <==>
            exists path :: IsPath(b, path) && path[0] == off && |path| <= fuel && LabelsOn(b, path) == ls
  {
    if Decode(b, off, fuel) == Some(ls) {
      var path := PathOfDecode(b, off, fuel);
    }
    forall path | IsPath(b, path) && path[0] == off && |path| <= fuel && LabelsOn(b, path) == ls
      ensures Decode(b, off, fuel) == Some(ls)
    {
      DecodeOfPath(b, path, fuel);
    }
  }

  /** Backward pointers alone do not bound a walk: this packet has one, and no number of steps suffices. */
  lemma {:induction false} BackwardPointersMayLoop(b: Text, fuel: nat)
    requires |b| >= 16 && b[12..16] == [1, 97, 192, 12]
    ensures IsPointerAt(b, 14) && Decode(b, 12, fuel) == None && Decode(b, 14, fuel) == None
    decreases fuel
  {
    assert b[12] == b[12..16][0] && b[13] == b[12..16][1] && b[14] == b[12..16][2] && b[15] == b[12..16][3];
    if fuel > 0 {
      BackwardPointersMayLoop(b, fuel - 1);
    }
  }

  // ---------- What a walk depends on ----------

  lemma {:induction false} MoreFuel(b: Text, off: nat, fuel: nat, more: nat)
    requires Decode(b, off, fuel).Some? && fuel <= more
    ensures Decode(b, off, more) == Decode(b, off, fuel)
    decreases fuel
  {
    if b[off] != 0 {
      MoreFuel(b, Next(b, off).value, fuel - 1, more - 1);
    }
  }

  lemma SameStep(b: Text, c: Text, off: nat)
    requires b <= c
    ensures Next(b, off).Some? ==> Next(c, off) == Next(b, off)
    ensures IsLabelAt(b, off) ==> IsLabelAt(c, off) && LabelAt(c, off) == LabelAt(b, off)
    ensures IsPointerAt(b, off) ==> IsPointerAt(c, off) && !IsLabelAt(c, off)
  {
  }

  /** Bytes appended later do not change a name already there. */
  lemma {:induction false} DecodeExtends(b: Text, c: Text, off: nat, fuel: nat)
    requires b <= c && Decode(b, off, fuel).Some?
    ensures Decode(c, off, fuel) == Decode(b, off, fuel)
    decreases fuel
  {
    SameStep(b, c, off);
    if b[off] != 0 {
      DecodeExtends(b, c, Next(b, off).value, fuel - 1);
    }
  }

  lemma {:induction false} ExtentExtends(b: Text, c: Text, off: nat)
    requires b <= c && Extent(b, off) > 0
    ensures Extent(c, off) == Extent(b, off)
    decreases |b| - off
  {
    SameStep(b, c, off);
    if IsLabelAt(b, off) {
      ExtentExtends(b, c, off + 1 + b[off]);
    }
  }

  lemma {:induction false} DecodeHasExtent(b: Text, off: nat, fuel: nat)
    requires Decode(b, off, fuel).Some?
    ensures Extent(b, off) > 0
    decreases fuel
  {
    if IsLabelAt(b, off) {
      DecodeHasExtent(b, off + 1 + b[off], fuel - 1);
    }
  }

  /** Names never look at the twelve header bytes. */
  lemma {:induction false} HeaderIsIrrelevant(b: Text, c: Text, off: nat, fuel: nat)
    requires HEADER_SIZE <= off && HEADER_SIZE <= |b| && |b| == |c| && b[HEADER_SIZE..] == c[HEADER_SIZE..]
    ensures Decode(b, off, fuel) == Decode(c, off, fuel)
    decreases fuel
  {
    assert forall i :: HEADER_SIZE <= i < |b| ==> b[i] == b[HEADER_SIZE..][i - HEADER_SIZE] == c[i];
    if fuel > 0 && off < |b| && b[off] != 0 {
      if IsLabelAt(b, off) {
        assert LabelAt(b, off) == LabelAt(c, off);
        HeaderIsIrrelevant(b, c, off + 1 + b[off], fuel - 1);
      } else if IsPointerAt(b, off) {
        HeaderIsIrrelevant(b, c, PointerTarget(b, off), fuel - 1);
      }
    }
  }

  lemma {:induction false} HeaderKeepsExtent(b: Text, c: Text, off: nat)
    requires HEADER_SIZE <= off && HEADER_SIZE <= |b| && |b| == |c| && b[HEADER_SIZE..] == c[HEADER_SIZE..]
    ensures Extent(b, off) == Extent(c, off)
    decreases |b| - off
  {
    assert forall i :: HEADER_SIZE <= i < |b| ==> b[i] == b[HEADER_SIZE..][i - HEADER_SIZE] == c[i];
    if IsLabelAt(b, off) {
      HeaderKeepsExtent(b, c, off + 1 + b[off]);
    }
  }

  // ---------- The reader ----------

  /** A decoded name as text: present when the walk ends in time and the text and its NUL fit the buffer. */
  function NameText(b: Text, off: nat, size: nat, steps: nat): Option<Text> {
    match Decode(b, off, steps)
    case None => None
    case Some(ls) => if |Join(ls)| + 1 <= size then Some(Join(ls)) else None
  }

  /** Taking one label off a walk moves it to the labels already read. */
  lemma LabelStep(b: Text, done: seq<Text>, idx: nat, fuel: nat)
    requires IsLabelAt(b, idx) && fuel > 0
    ensures Continue(done, Decode(b, idx, fuel)) ==
            Continue(done + [LabelAt(b, idx)], Decode(b, idx + 1 + b[idx], fuel - 1))
  {
    var rest := Decode(b, idx + 1 + b[idx], fuel - 1);
    if rest.Some? {
      Regroup(done, [LabelAt(b, idx)], rest.value);
    }
  }

  /** Once the labels read so far overflow the buffer, the whole name does. */
  lemma TooLong(b: Text, start: nat, size: nat, steps: nat, done: seq<Text>, rest: Option<seq<Text>>)
    requires Decode(b, start, steps) == Continue(done, rest)
    requires |Join(done)| + 1 > size
    ensures NameText(b, start, size, steps) == None
  {
    if rest.Some? {
      JoinPrefixLength(done, rest.value);
    }
  }

  /** The label branch of consume_labels: a dot unless it is the first label, then the escaped label. */
  method WriteLabel(ghost done: seq<Text>, text: Text, left: nat, lbl: Text, first: bool) returns (ok: bool, out: Text)
    requires text == Join(done) && left >= 1 && first == (done == []) && lbl != []
    ensures ok <==> |Join(done + [lbl])| + 1 <= |text| + left
    ensures ok ==> out == Join(done + [lbl])
  {
    JoinSnoc(done, lbl);
    if |lbl| + 1 > left { return false, text; }
    var e;
    if !first {
      ok, e := EscapeLabel(lbl, left - 1);
      return ok, text + [DOT] + e;
    } else {
      ok, e := EscapeLabel(lbl, left);
      return ok, text + e;
    }
  }

  /** consume_labels: -1 is None; otherwise the bytes used up in place and the text written.
      The source calls it with a budget of LABELS_MAX steps. */
  method ConsumeLabels(b: Text, start: nat, size: nat, steps: nat) returns (r: Option<(nat, Text)>)
    requires size > 0
    ensures r.None? <==> NameText(b, start, size, steps).None?
    ensures r.Some? ==> r.value.0 == Extent(b, start) && Some(r.value.1) == NameText(b, start, size, steps)
  {
    var ret: nat, compressed, first, idx: nat, text: Text := 0, false, true, start, [];
    ghost var done: seq<Text> := [];
    ghost var all := Decode(b, start, steps);
    if all.Some? {
      EmptySides(all.value);
    }
    for i := 0 to steps
      invariant text == Join(done) && |text| < size && first == (done == [])
      invariant all == Continue(done, Decode(b, idx, steps - i))
      invariant all.Some? ==> Extent(b, start) == ret + (if compressed then 0 else Extent(b, idx))
    {
      if all.Some? {
        DecodeHasExtent(b, idx, steps - i);
      }
      if idx + 1 > |b| { return None; }
      var n := b[idx];
      if n == 0 {
        if !compressed { ret := ret + 1; }
        EmptySides(done);
        return Some((ret, text));
      } else if n <= 63 {
        if idx + 1 + n > |b| { return None; }
        var lbl := b[idx + 1..idx + 1 + n];
        LabelStep(b, done, idx, steps - i);
        var ok, out := WriteLabel(done, text, size - |text|, lbl, first);
        done := done + [lbl];
        if !ok {
          TooLong(b, start, size, steps, done, Decode(b, idx + 1 + n, steps - i - 1));
          return None;
        }
        text, first := out, false;
        if !compressed { ret := ret + 1 + n; }
        idx := idx + 1 + n;
      } else if n >= 192 {
        if idx + 2 > |b| { return None; }
        var target := PointerTarget(b, idx);
        if target < HEADER_SIZE || target >= idx { return None; }
        if !compressed { ret := ret + 2; }
        compressed := true;
        idx := target;
      } else {
        return None;
      }
    }
    return None;
  }
}
