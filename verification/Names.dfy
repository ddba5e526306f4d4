/** avahi-common/domain.c: domain names as escaped text and as sequences of labels. */
module Names {
  import opened Bytes
  import Utf8

  const LABEL_MAX := 64
  const DOMAIN_NAME_MAX := 1014

  // ---------- Reading one label ----------

  /** A label taken off the front of a name, and the text that follows it. */
  datatype Piece = Piece(lbl: Text, rest: Text)

  function Prepend(front: Text, o: Option<Piece>): Option<Piece> {
    match o
    case None => None
    case Some(p) => Some(Piece(front + p.lbl, p.rest))
  }

  lemma PrependNothing(o: Option<Piece>)
    ensures Prepend([], o) == o
  {
    if o.Some? {
      assert [] + o.value.lbl == o.value.lbl;
    }
  }

  lemma PrependTwice(a: Text, b: Text, o: Option<Piece>)
    ensures Prepend(a, Prepend(b, o)) == Prepend(a + b, o)
  {
    if o.Some? {
      assert a + (b + o.value.lbl) == a + b + o.value.lbl;
    }
  }

  predicate IsByteEscape(s: Text) {
    |s| >= 4 && IsDigit(s[1]) && IsDigit(s[2]) && IsDigit(s[3]) && 1 <= EscapedValue(s) <= 255
  }

  function EscapedValue(s: Text): int
    requires |s| >= 4
  {
    Digit(s[1]) * 100 + Digit(s[2]) * 10 + Digit(s[3])
  }

  function Digit(b: byte): int {
    b as int - 48
  }

  /** The character-level grammar of a label: up to an unescaped dot or the end, fewer than room bytes. */
  function Scan(s: Text, room: nat): Option<Piece>
    decreases |s|
  {
    if room == 0 then None
    else if s == [] then Some(Piece([], []))
    else if s[0] == DOT then Some(Piece([], s[1..]))
    else if s[0] != BACKSLASH then Prepend([s[0]], Scan(s[1..], room - 1))
    else if |s| >= 2 && (s[1] == BACKSLASH || s[1] == DOT) then Prepend([s[1]], Scan(s[2..], room - 1))
    else if IsByteEscape(s) then Prepend([EscapedValue(s)], Scan(s[4..], room - 1))
    else None
  }

  /** A scanned label is accepted only when it is UTF-8. */
  function Unescape(s: Text, size: nat): Option<Piece> {
    match Scan(s, size)
    case None => None
    case Some(p) => if Utf8.WellFormed(p.lbl) then Some(p) else None
  }

  method UnescapeLabel(name: Text, size: nat) returns (r: Option<Piece>)
    requires size > 0
    ensures r == Unescape(name, size)
  {
    var i, pos, lbl: Text := 0, 0, [];
    PrependNothing(Scan(name, size));
    assert name[0..] == name;
    while true
      invariant i == |lbl| <= size && pos <= |name|
      invariant Scan(name, size) == Prepend(lbl, Scan(name[pos..], size - i))
      decreases |name| - pos
    {
      ghost var s := name[pos..];
      if i >= size { return None; }
      assert lbl + [] == lbl;
      if At(name, pos) == DOT {
        pos := pos + 1;
        assert name[pos..] == s[1..];
        break;
      }
      if pos == |name| { break; }
      if name[pos] == BACKSLASH {
        pos := pos + 1;
        if pos == |name| {
          return None;
        } else if name[pos] == BACKSLASH || name[pos] == DOT {
          lbl := lbl + [name[pos]];
          pos := pos + 1;
          assert name[pos..] == s[2..];
        } else if IsDigit(name[pos]) {
          if !IsDigit(At(name, pos + 1)) || !IsDigit(At(name, pos + 2)) { return None; }
          var n := Digit(name[pos]) * 100 + Digit(name[pos + 1]) * 10 + Digit(name[pos + 2]);
          assert n == EscapedValue(s);
          if n > 255 || n == 0 { return None; }
          lbl := lbl + [n];
          pos := pos + 3;
          assert name[pos..] == s[4..];
        } else {
          return None;
        }
      } else {
        lbl := lbl + [name[pos]];
        pos := pos + 1;
        assert name[pos..] == s[1..];
      }
      PrependTwice(lbl[..i], [lbl[i]], Scan(name[pos..], size - i - 1));
      assert lbl == lbl[..i] + [lbl[i]];
      i := i + 1;
    }
    assert Scan(name, size) == Some(Piece(lbl, name[pos..]));
    var valid := Utf8.Utf8Valid(lbl);
    return if valid then Some(Piece(lbl, name[pos..])) else None;
  }

  lemma {:induction false} ScanFacts(s: Text, room: nat)
    requires Scan(s, room).Some?
    ensures var p := Scan(s, room).value;
            && |p.lbl| < room
            && |p.rest| <= |s| && (s != [] ==> |p.rest| < |s|)
            && |p.lbl| + |p.rest| + (if p.rest == [] then 0 else 1) <= |s|
            && (NulFree(s) ==> NulFree(p.lbl) && NulFree(p.rest))
    decreases |s|
  {
    if s != [] && s[0] != DOT {
      var k := if s[0] != BACKSLASH then 1 else if s[1] == BACKSLASH || s[1] == DOT then 2 else 4;
      ScanFacts(s[k..], room - 1);
    }
  }

  // ---------- Writing one label ----------

  /** Letters, digits, '-' and '_' stand for themselves. */
  predicate IsProper(b: byte) {
    b == UNDERSCORE || b == 45 || IsDigit(b) || 97 <= b <= 122 || 65 <= b <= 90
  }

  function EscapeByte(b: byte): (t: Text)
    ensures 1 <= |t| <= 4
  {
    if b == DOT || b == BACKSLASH then [BACKSLASH, b]
    else if IsProper(b) then [b]
    else [BACKSLASH, 48 + b / 100, 48 + b / 10 % 10, 48 + b % 10]
  }

  /** By the numbers: a dot (46) or backslash (92) has a backslash before it; underscore (95), hyphen (45), digits and
      letters stand for themselves; any other byte is a backslash and three decimal digits. */
  lemma EscapedByNumber(b: byte)
    ensures EscapeByte(b) ==
            if b == 46 || b == 92 then [92, b]
            else if b == 95 || b == 45 || 48 <= b <= 57 || 65 <= b <= 90 || 97 <= b <= 122 then [b]
            else [92, 48 + b / 100, 48 + b / 10 % 10, 48 + b % 10]
  {
  }

  function Escape(lbl: Text): (t: Text)
    ensures |lbl| <= |t| <= 4 * |lbl|
  {
    if lbl == [] then [] else EscapeByte(lbl[0]) + Escape(lbl[1..])
  }

  lemma {:induction false} EscapeSnoc(l: Text, b: byte)
    ensures Escape(l + [b]) == Escape(l) + EscapeByte(b)
  {
    if l == [] {
      assert l + [b] == [b];
      assert Escape([b]) == EscapeByte(b) + Escape([]);
    } else {
      assert (l + [b])[1..] == l[1..] + [b];
      EscapeSnoc(l[1..], b);
    }
  }

  lemma {:induction false} EscapePrefixLength(l: Text, i: nat)
    requires i <= |l|
    ensures |Escape(l[..i])| <= |Escape(l)|
    decreases |l| - i
  {
    if i < |l| {
      assert l[..i + 1] == l[..i] + [l[i]];
      EscapeSnoc(l[..i], l[i]);
      EscapePrefixLength(l, i + 1);
    } else {
      assert l[..i] == l;
    }
  }

  /** Writes the escaped label and a NUL into a buffer of the given size; fails exactly when it does not fit. */
  method EscapeLabel(src: Text, size: nat) returns (ok: bool, text: Text)
    requires size > 0
    ensures ok <==> |Escape(src)| + 1 <= size
    ensures ok ==> text == Escape(src)
    ensures |text| < size
  {
    text := [];
    var left := size;
    assert src[..|src|] == src;
    for i := 0 to |src|
      invariant text == Escape(src[..i])
      invariant left == size - |text| && left >= 1
    {
      var b := src[i];
      assert src[..i + 1] == src[..i] + [b];
      EscapeSnoc(src[..i], b);
      EscapePrefixLength(src, i + 1);
      if b == DOT || b == BACKSLASH {
        if left < 3 { return false, text; }
        text := text + [BACKSLASH, b];
        left := left - 2;
      } else if b == 95 || b == 45 || 48 <= b <= 57 || 97 <= b <= 122 || 65 <= b <= 90 {
        if left < 2 { return false, text; }
        text := text + [b];
        left := left - 1;
      } else {
        if left < 5 { return false, text; }
        text := text + [BACKSLASH, 48 + b / 100, 48 + b / 10 % 10, 48 + b % 10];
        left := left - 4;
      }
    }
    ok := true;
  }

  /** What can follow an escaped label in a name: nothing, or a dot and more. */
  function AfterLabel(tail: Text): Text {
    if tail == [] then [] else tail[1..]
  }

  lemma DigitsOf(b: byte)
    ensures b as int == (b / 100) * 100 + (b / 10 % 10) * 10 + b % 10
  {
  }

  /** Three digits after a backslash stand for the byte they spell. */
  lemma ScanDigits(b: byte, s: Text, rest: Text, room: nat)
    requires b != 0 && room > 0 && s == [BACKSLASH, 48 + b / 100, 48 + b / 10 % 10, 48 + b % 10] + rest
    ensures Scan(s, room) == Prepend([b], Scan(rest, room - 1))
  {
    DigitsOf(b);
    assert EscapedValue(s) == b as int;
    assert s[4..] == rest;
  }

  lemma ScanByte(b: byte, rest: Text, room: nat)
    requires b != 0 && room > 0
    ensures Scan(EscapeByte(b) + rest, room) == Prepend([b], Scan(rest, room - 1))
  {
    var s := EscapeByte(b) + rest;
    if b == DOT || b == BACKSLASH {
      assert s[2..] == rest;
    } else if IsProper(b) {
      assert s[1..] == rest;
    } else {
      hide Scan;
      ScanDigits(b, s, rest, room);
    }
  }

  lemma ScanNothing(tail: Text, room: nat)
    requires room > 0 && (tail == [] || tail[0] == DOT)
    ensures Scan(tail, room) == Some(Piece([], AfterLabel(tail)))
  {
  }

  lemma {:induction false} ScanEscaped(l: Text, tail: Text, room: nat)
    requires NulFree(l) && |l| < room
    requires tail == [] || tail[0] == DOT
    ensures Scan(Escape(l) + tail, room) == Some(Piece(l, AfterLabel(tail)))
    decreases |l|
  {
    hide Scan, EscapeByte;
    if l == [] {
      EmptySides(tail);
      ScanNothing(tail, room);
    } else {
      Regroup(EscapeByte(l[0]), Escape(l[1..]), tail);
      ScanByte(l[0], Escape(l[1..]) + tail, room);
      ScanEscaped(l[1..], tail, room - 1);
      assert [l[0]] + l[1..] == l;
    }
  }

  lemma {:induction false} ScanMoreRoom(s: Text, a: nat, b: nat)
    requires Scan(s, a).Some? && a <= b
    ensures Scan(s, b) == Scan(s, a)
    decreases |s|
  {
    if s != [] && s[0] != DOT {
      if s[0] != BACKSLASH {
        ScanMoreRoom(s[1..], a - 1, b - 1);
      } else if |s| >= 2 && (s[1] == BACKSLASH || s[1] == DOT) {
        ScanMoreRoom(s[2..], a - 1, b - 1);
      } else {
        ScanMoreRoom(s[4..], a - 1, b - 1);
      }
    }
  }

  /** Of the labels that can be in a name, exactly those of at most 63 bytes are read. */
  lemma LongestLabel(l: Text, tail: Text)
    requires NulFree(l) && Utf8.WellFormed(l) && (tail == [] || tail[0] == DOT)
    ensures Unescape(Escape(l) + tail, LABEL_MAX).Some? <==> |l| <= 63
  {
    hide Scan, Escape, Utf8.WellFormed, NulFree;
    var s := Escape(l) + tail;
    ScanEscaped(l, tail, |l| + 1);
    if |l| <= 63 {
      ScanMoreRoom(s, |l| + 1, LABEL_MAX);
    } else if Scan(s, LABEL_MAX).Some? {
      ScanFacts(s, LABEL_MAX);
      ScanMoreRoom(s, LABEL_MAX, LABEL_MAX + |l| + 1);
      ScanMoreRoom(s, |l| + 1, LABEL_MAX + |l| + 1);
    }
  }

  // ---------- Whole names ----------

  /** Every label a wire name may hold. */
  predicate GoodLabel(l: Text) {
    1 <= |l| < LABEL_MAX && NulFree(l) && Utf8.WellFormed(l)
  }

  predicate GoodLabels(ls: seq<Text>) {
    forall i :: 0 <= i < |ls| ==> GoodLabel(ls[i])
  }

  /** The label sequence a name text spells, when every label is readable and non-empty. */
  function Labels(s: Text): Option<seq<Text>>
    decreases |s|
  {
    if s == [] then Some([])
    else match Unescape(s, LABEL_MAX)
      case None => None
      case Some(p) =>
        ScanFacts(s, LABEL_MAX);
        if p.lbl == [] then None
        else match Labels(p.rest)
          case None => None
          case Some(ls) => Some([p.lbl] + ls)
  }

  /** The labels of a name, empty ones included. */
  function RawLabels(s: Text): Option<seq<Text>>
    decreases |s|
  {
    if s == [] then Some([])
    else match Unescape(s, LABEL_MAX)
      case None => None
      case Some(p) =>
        ScanFacts(s, LABEL_MAX);
        match RawLabels(p.rest)
        case None => None
        case Some(ls) => Some([p.lbl] + ls)
  }

  /** As Labels, with the single dot as a second spelling of the root. */
  function NameLabels(s: Text): Option<seq<Text>> {
    if s == [DOT] then Some([]) else Labels(s)
  }

  /** The normal form: escaped labels joined by dots. */
  function Join(ls: seq<Text>): Text
    decreases |ls|, 0
  {
    if ls == [] then [] else Escape(ls[0]) + JoinRest(ls[1..])
  }

  function JoinRest(ls: seq<Text>): Text
    decreases |ls|, 1
  {
    if ls == [] then [] else [DOT] + Join(ls)
  }

  function Normal(s: Text): Option<Text> {
    match NameLabels(s)
    case None => None
    case Some(ls) => Some(Join(ls))
  }

  lemma {:induction false} JoinAppend(a: seq<Text>, b: seq<Text>)
    ensures Join(a + b) == if a == [] then Join(b) else Join(a) + JoinRest(b)
  {
    hide Escape;
    if a == [] {
      EmptySides(b);
    } else {
      assert (a + b)[1..] == a[1..] + b;
      JoinAppend(a[1..], b);
      Regroup(Escape(a[0]), JoinRest(a[1..]), JoinRest(b));
      Regroup([DOT], Join(a[1..]), JoinRest(b));
      EmptySides(Escape(a[0]));
    }
  }

  lemma JoinSnoc(ls: seq<Text>, l: Text)
    ensures Join(ls + [l]) == Join(ls) + (if ls == [] then [] else [DOT]) + Escape(l)
  {
    hide Escape;
    JoinAppend(ls, [l]);
    assert [l][1..] == [];
    EmptySides(Escape(l));
    Regroup(Join(ls), [DOT], Escape(l));
  }

  lemma JoinPrefixLength(a: seq<Text>, b: seq<Text>)
    ensures |Join(a)| <= |Join(a + b)|
  {
    JoinAppend(a, b);
  }

  lemma {:induction false} LabelsAreGood(s: Text)
    requires NulFree(s) && Labels(s).Some?
    ensures GoodLabels(Labels(s).value) && |Labels(s).value| <= |s|
    decreases |s|
  {
    if s != [] {
      ScanFacts(s, LABEL_MAX);
      LabelsAreGood(Unescape(s, LABEL_MAX).value.rest);
    }
  }

  /** Reading the normal form gives back the labels it was made from. */
  lemma {:induction false} LabelsOfJoin(ls: seq<Text>)
    requires GoodLabels(ls)
    ensures Labels(Join(ls)) == Some(ls) && NameLabels(Join(ls)) == Some(ls)
    decreases |ls|
  {
    if ls != [] {
      var tail := JoinRest(ls[1..]);
      ScanEscaped(ls[0], tail, LABEL_MAX);
      assert AfterLabel(tail) == Join(ls[1..]);
      LabelsOfJoin(ls[1..]);
      assert [ls[0]] + ls[1..] == ls;
      assert Escape(ls[0]) == EscapeByte(ls[0][0]) + Escape(ls[0][1..]);
      assert Join(ls)[0] != DOT;
    }
  }

  lemma {:induction false} EscapeNulFree(l: Text)
    ensures NulFree(Escape(l))
  {
    if l != [] {
      EscapeNulFree(l[1..]);
    }
  }

  lemma {:induction false} JoinNulFree(ls: seq<Text>)
    ensures NulFree(Join(ls))
  {
    if ls != [] {
      EscapeNulFree(ls[0]);
      JoinNulFree(ls[1..]);
    }
  }

  /** Normalisation is idempotent and keeps the label sequence. */
  lemma NormalIsStable(s: Text)
    requires NulFree(s) && Normal(s).Some?
    ensures var n := Normal(s).value; NameLabels(n) == NameLabels(s) && Normal(n) == Some(n) && NulFree(n)
  {
    var ls := NameLabels(s).value;
    if s != [DOT] {
      LabelsAreGood(s);
    }
    LabelsOfJoin(ls);
    JoinNulFree(ls);
  }

  /** Two names have the same normal form exactly when they spell the same labels. */
  lemma NormalIsCanonical(s: Text, t: Text)
    requires NulFree(s) && NulFree(t) && Normal(s).Some? && Normal(t).Some?
    ensures Normal(s) == Normal(t) <==> NameLabels(s) == NameLabels(t)
  {
    NormalIsStable(s);
    NormalIsStable(t);
  }

  /** The labels read before the first unreadable one; all of them when there is none. */
  function ReadablePrefix(s: Text): seq<Text>
    decreases |s|
  {
    if s == [] then []
    else match Unescape(s, LABEL_MAX)
      case None => []
      case Some(p) =>
        ScanFacts(s, LABEL_MAX);
        if p.lbl == [] then [] else [p.lbl] + ReadablePrefix(p.rest)
  }

  lemma {:induction false} ReadablePrefixIsLabels(s: Text)
    ensures Labels(s).Some? ==> ReadablePrefix(s) == Labels(s).value
    decreases |s|
  {
    if s != [] && Unescape(s, LABEL_MAX).Some? {
      ScanFacts(s, LABEL_MAX);
      ReadablePrefixIsLabels(Unescape(s, LABEL_MAX).value.rest);
    }
  }

  lemma NextLabelFits(done: seq<Text>, rest: Text, size: nat)
    requires rest != [] && Unescape(rest, LABEL_MAX).Some? && Unescape(rest, LABEL_MAX).value.lbl != []
    requires |Join(done + ReadablePrefix(rest))| < size
    ensures var p := Unescape(rest, LABEL_MAX).value;
            && |Join(done + [p.lbl])| < size
            && |Join(done + [p.lbl] + ReadablePrefix(p.rest))| < size
  {
    var p := Unescape(rest, LABEL_MAX).value;
    ScanFacts(rest, LABEL_MAX);
    assert done + ReadablePrefix(rest) == done + [p.lbl] + ReadablePrefix(p.rest);
    JoinPrefixLength(done + [p.lbl], ReadablePrefix(p.rest));
  }

  function Continue(done: seq<Text>, o: Option<seq<Text>>): Option<seq<Text>> {
    match o
    case None => None
    case Some(ls) => Some(done + ls)
  }

  lemma LabelsStep(done: seq<Text>, rest: Text)
    requires rest != [] && Unescape(rest, LABEL_MAX).Some? && Unescape(rest, LABEL_MAX).value.lbl != []
    ensures var p := Unescape(rest, LABEL_MAX).value;
            Continue(done, Labels(rest)) == Continue(done + [p.lbl], Labels(p.rest))
  {
    var p := Unescape(rest, LABEL_MAX).value;
    if Labels(p.rest).Some? {
      var ls := Labels(p.rest).value;
      assert done + ([p.lbl] + ls) == done + [p.lbl] + ls;
    }
  }

  /** Half-way through a name: its labels so far, and what is left of it. */
  predicate Normalizing(s: Text, done: seq<Text>, rest: Text) {
    && Labels(s) == Continue(done, Labels(rest))
    && if done == [] then rest == s else s != [DOT]
  }

  /** The rest of the normal form has room. */
  predicate Fitting(size: nat, done: seq<Text>, rest: Text) {
    |Join(done + ReadablePrefix(rest))| < size
  }

  /** As much of the normal form as there is fits a buffer of that size. */
  predicate NormalHasRoom(s: Text, size: nat) {
    |Join(ReadablePrefix(s))| < size
  }

  lemma NormalizeStart(s: Text, size: nat)
    ensures Normalizing(s, [], s) && Join([]) == [] && (NormalHasRoom(s, size) ==> Fitting(size, [], s))
  {
    hide Labels, ReadablePrefix;
    EmptySides(ReadablePrefix(s));
    if Labels(s).Some? {
      EmptySides(Labels(s).value);
    }
  }

  lemma NormalizeStep(s: Text, size: nat, done: seq<Text>, rest: Text)
    requires Normalizing(s, done, rest) && rest != []
    requires Unescape(rest, LABEL_MAX).Some? && Unescape(rest, LABEL_MAX).value.lbl != []
    ensures var p := Unescape(rest, LABEL_MAX).value;
            && Normalizing(s, done + [p.lbl], p.rest) && |p.rest| < |rest|
            && (Fitting(size, done, rest) ==> Fitting(size, done + [p.lbl], p.rest) && |Join(done + [p.lbl])| < size)
            && Join(done + [p.lbl]) == Join(done) + (if done == [] then [] else [DOT]) + Escape(p.lbl)
  {
    ScanFacts(rest, LABEL_MAX);
    assert rest != [DOT];
    hide Scan, Unescape, Join, Escape, ReadablePrefix, Labels;
    var p := Unescape(rest, LABEL_MAX).value;
    if Fitting(size, done, rest) {
      NextLabelFits(done, rest, size);
    }
    LabelsStep(done, rest);
    JoinSnoc(done, p.lbl);
  }

  /** The three ways in which the loop ends. */
  lemma NormalizeEnd(s: Text, done: seq<Text>, rest: Text)
    requires Normalizing(s, done, rest)
    ensures rest == [] ==> Normal(s) == Some(Join(done))
    ensures rest != [] && Unescape(rest, LABEL_MAX).None? ==> Normal(s) == None
    ensures rest != [] && Unescape(rest, LABEL_MAX).Some? && Unescape(rest, LABEL_MAX).value.lbl == [] ==>
              Normal(s) == if done == [] && Unescape(rest, LABEL_MAX).value.rest == [] then Some([]) else None
  {
    hide Join, Escape, ReadablePrefix;
    EmptySides(done);
    if rest != [] && Unescape(rest, LABEL_MAX).Some? && Unescape(rest, LABEL_MAX).value.lbl == [] {
      EmptyLabel(rest);
      JoinNothing();
    }
  }

  lemma EmptyLabel(rest: Text)
    requires rest != [] && Unescape(rest, LABEL_MAX).Some? && Unescape(rest, LABEL_MAX).value.lbl == []
    ensures Unescape(rest, LABEL_MAX).value.rest == [] <==> rest == [DOT]
    ensures Labels(rest) == None
  {
    assert rest[0] == DOT;
    assert rest == [DOT] + rest[1..];
  }

  lemma JoinNothing()
    ensures Join([]) == []
  {
  }

  /** What avahi_normalize_name leaves behind: NULL; a text in the buffer, with or without a NUL at its end; or nothing,
      when avahi_escape_label stops the program for want of room. */
  datatype Outcome = NotNormal | Filled(text: Text, ended: bool) | Overrun

  function AsOutcome(o: Option<Text>): Outcome {
    match o case None => NotNormal case Some(t) => Filled(t, true)
  }

  lemma NormalFits(s: Text, size: nat)
    requires Normal(s).Some?
    ensures NormalHasRoom(s, size) <==> |Normal(s).value| < size
  {
    hide Join, Unescape;
    ReadablePrefixIsLabels(s);
    if s == [DOT] {
      RootPrefix(s);
    }
  }

  lemma RootPrefix(s: Text)
    requires s == [DOT]
    ensures ReadablePrefix(s) == []
  {
  }

  /** avahi_normalize_name. It does not look at the result of avahi_escape_label, so that the text is the normal form if
      and only if that fits the buffer. */
  method NormalizeName(s: Text, size: nat) returns (r: Outcome)
    requires size > 0
    ensures NormalHasRoom(s, size) ==> r == AsOutcome(Normal(s))
    ensures Normal(s).Some? ==> (r == Filled(Normal(s).value, true) <==> |Normal(s).value| < size)
    ensures Normal(s).None? ==> r == NotNormal || r == Overrun
    ensures r.Filled? ==> |r.text| <= size && (r.ended ==> |r.text| < size)
  {
    hide Scan, Unescape, Join, Escape, Labels, Normal, Normalizing, NormalHasRoom, Fitting;
    var rest, left, empty, out: Text, ended := s, size, true, [], true;
    ghost var done: seq<Text> := [];
    NormalizeStart(s, size);
    if Normal(s).Some? {
      NormalFits(s, size);
    }
    while rest != []
      invariant left == size - |out| >= 0 && (ended ==> left > 0) && empty == (done == []) && Normalizing(s, done, rest)
      invariant NormalHasRoom(s, size) ==> Fitting(size, done, rest) && out == Join(done) && ended
      decreases |rest|
    {
      NormalizeEnd(s, done, rest);
      var u := UnescapeLabel(rest, LABEL_MAX);
      if u.None? { return NotNormal; }
      var lbl, next := u.value.lbl, u.value.rest;
      if lbl == [] {
        if next == [] && empty { return Filled([], true); }
        return NotNormal;
      }
      NormalizeStep(s, size, done, rest);
      if !empty {
        if left < 1 { return NotNormal; }
        out, ended := out + [DOT], false;
        left := left - 1;
      } else {
        empty := false;
        EmptySides(out);
      }
      if left == 0 { return Overrun; }
      var ok, text := EscapeLabel(lbl, left);
      out := out + text;
      left := left - |text|;
      ended := ok || (ended && text == []);
      done := done + [lbl];
      rest := next;
    }
    NormalizeEnd(s, done, rest);
    return Filled(out, ended);
  }

  /** avahi_is_valid_domain_name. */
  predicate ValidDomainName(t: Text) {
    |t| < DOMAIN_NAME_MAX && NameLabels(t).Some?
  }

  method IsValidDomainName(t: Text) returns (ok: bool)
    ensures ok <==> ValidDomainName(t)
    ensures ok <==> |t| < 1014 && NameLabels(t).Some?
  {
    if |t| >= DOMAIN_NAME_MAX { return false; }
    var rest, first := t, true;
    while true
      invariant Labels(t).Some? <==> Labels(rest).Some?
      invariant first ==> rest == t
      invariant !first ==> rest != [] && t != [DOT]
      decreases |rest|
    {
      var u := UnescapeLabel(rest, LABEL_MAX);
      if u.None? { return false; }
      ScanFacts(rest, LABEL_MAX);
      var lbl := u.value.lbl;
      if first && lbl == [] && u.value.rest == [] {
        assert t == [] || t == [DOT];
        return true;
      }
      first := false;
      if lbl == [] { return false; }
      rest := u.value.rest;
      if rest == [] { return true; }
    }
    return true;
  }
}
