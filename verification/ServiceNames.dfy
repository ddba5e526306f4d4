/** avahi-common/domain.c: service names, made of an instance name, a service type and a domain (section 4.3 of
    RFC 6763), put together and taken apart. */
module ServiceNames {
  import opened Bytes
  import opened Names
  import Utf8

  // ---------- Validity ----------

  /** avahi_is_valid_service_name. */
  predicate ValidServiceName(t: Text) {
    1 <= |t| < LABEL_MAX
  }

  predicate IsTypeLabel(l: Text) {
    |l| > 2 && l[0] == UNDERSCORE
  }

  predicate TypeLabels(ls: seq<Text>) {
    forall i :: 0 <= i < |ls| ==> IsTypeLabel(ls[i])
  }

  /** avahi_is_valid_service_type_generic: a series of words that begin with an underscore. */
  predicate ValidServiceType(t: Text) {
    0 < |t| < DOMAIN_NAME_MAX && Labels(t).Some? && TypeLabels(Labels(t).value)
  }

  predicate TypeSoFar(o: Option<seq<Text>>) {
    o.Some? && TypeLabels(o.value)
  }

  lemma TypeStep(rest: Text)
    requires rest != []
    ensures var u := Unescape(rest, LABEL_MAX);
            TypeSoFar(Labels(rest)) <==> u.Some? && IsTypeLabel(u.value.lbl) && TypeSoFar(Labels(u.value.rest))
  {
    var u := Unescape(rest, LABEL_MAX);
    if u.Some? {
      ScanFacts(rest, LABEL_MAX);
      if u.value.lbl != [] && Labels(u.value.rest).Some? {
        var ls := Labels(u.value.rest).value;
        var all := [u.value.lbl] + ls;
        assert all[0] == u.value.lbl && forall i :: 0 <= i < |ls| ==> all[i + 1] == ls[i];
      }
    }
  }

  method IsValidServiceType(t: Text) returns (ok: bool)
    ensures ok <==> ValidServiceType(t)
    ensures ok <==>
              && 0 < |t| < 1014 && Labels(t).Some?
              && forall i :: 0 <= i < |Labels(t).value| ==> |Labels(t).value[i]| > 2 && Labels(t).value[i][0] == 95
  {
    if |t| >= DOMAIN_NAME_MAX || t == [] {
      return false;
    }
    hide Unescape, Labels;
    var rest := t;
    while true
      invariant rest != [] && (TypeSoFar(Labels(t)) <==> TypeSoFar(Labels(rest)))
      decreases |rest|
    {
      TypeStep(rest);
      var u := UnescapeLabel(rest, LABEL_MAX);
      if u.None? || |u.value.lbl| <= 2 || u.value.lbl[0] != UNDERSCORE {
        return false;
      }
      RestIsShorter(rest);
      rest := u.value.rest;
      if rest == [] {
        NoLabels();
        return true;
      }
    }
    return true;
  }

  lemma RestIsShorter(s: Text)
    requires s != [] && Unescape(s, LABEL_MAX).Some?
    ensures |Unescape(s, LABEL_MAX).value.rest| < |s|
  {
    ScanFacts(s, LABEL_MAX);
  }

  lemma NoLabels()
    ensures Labels([]) == Some([])
  {
  }

  // ---------- Taking apart ----------

  datatype Mode = InName | InType | InDomain

  datatype Parts = Parts(mode: Mode, name: Text, types: seq<Text>, domains: seq<Text>)

  /** One label goes to the name, to the type while labels begin with an underscore, and to the domain from then on. */
  function Feed(p: Parts, l: Text): Parts {
    match p.mode
    case InName => p.(name := l, mode := InType)
    case InType =>
      if l != [] && l[0] == UNDERSCORE then p.(types := p.types + [l])
      else p.(mode := InDomain, domains := p.domains + [l])
    case InDomain => p.(domains := p.domains + [l])
  }

  function FeedAll(p: Parts, ls: seq<Text>): Parts
    decreases |ls|
  {
    if ls == [] then p else FeedAll(Feed(p, ls[0]), ls[1..])
  }

  function Start(named: bool): Parts {
    Parts(if named then InName else InType, [], [], [])
  }

  /** The texts that avahi_service_name_split gives out. */
  datatype Service = Service(name: Text, kind: Text, domain: Text)

  function Texts(p: Parts): Service {
    Service(p.name, Join(p.types), Join(p.domains))
  }

  /** avahi_service_name_split with buffers that are large enough. */
  function Split(s: Text, named: bool): Option<Service> {
    match RawLabels(s)
    case None => None
    case Some(ls) => Some(Texts(FeedAll(Start(named), ls)))
  }

  lemma FeedGrows(p: Parts, l: Text)
    ensures p.types <= Feed(p, l).types && p.domains <= Feed(p, l).domains
  {
  }

  lemma {:induction false} FeedAllGrows(p: Parts, ls: seq<Text>)
    ensures p.types <= FeedAll(p, ls).types && p.domains <= FeedAll(p, ls).domains
    ensures |Join(p.types)| <= |Join(FeedAll(p, ls).types)| && |Join(p.domains)| <= |Join(FeedAll(p, ls).domains)|
    decreases |ls|
  {
    hide Join;
    if ls != [] {
      FeedGrows(p, ls[0]);
      FeedAllGrows(Feed(p, ls[0]), ls[1..]);
    }
    LongerJoin(p.types, FeedAll(p, ls).types);
    LongerJoin(p.domains, FeedAll(p, ls).domains);
  }

  lemma LongerJoin(a: seq<Text>, b: seq<Text>)
    requires a <= b
    ensures |Join(a)| <= |Join(b)|
  {
    JoinPrefixLength(a, b[|a|..]);
    assert b == a + b[|a|..];
  }

  /** Failures of avahi_service_name_split: a bad label, a buffer that is too small, or the assertion of
      avahi_escape_label that it has room for the terminator. */
  datatype SplitResult = Done(service: Service) | BadLabel | NoMemory | Aborted

  /** Appends a label to the text of some labels in a buffer. */
  method AppendTo(ghost ls: seq<Text>, empty: bool, text: Text, l: Text, size: nat)
    returns (failed: Option<SplitResult>, more: Text)
    requires text == Join(ls) && |text| < size && empty == (ls == [])
    ensures failed == None <==> |Join(ls + [l])| < size
    ensures failed == None ==> more == Join(ls + [l])
    ensures failed.Some? ==> failed.value == NoMemory || failed.value == Aborted
  {
    hide Join, Escape;
    JoinSnoc(ls, l);
    more := text;
    var left := size - |text|;
    if !empty {
      more := more + [DOT];
      left := left - 1;
      if left == 0 {
        return Some(Aborted), more;
      }
    } else {
      assert more + [] == more;
    }
    var ok, e := EscapeLabel(l, left);
    if !ok {
      return Some(NoMemory), more;
    }
    return None, more + e;
  }

  /** As much of a text as there is room for with a NUL at its end. */
  function Cut(t: Text, size: nat): (r: Text)
    ensures size > 0 ==> r <= t && |r| < size && (r == t || |r| == size - 1)
  {
    if |t| < size || size == 0 then t else t[..size - 1]
  }

  /** What remains to be read decides the outcome. */
  function Rest(p: Parts, s: Text): Option<Parts> {
    match RawLabels(s)
    case None => None
    case Some(ls) => Some(FeedAll(p, ls))
  }

  lemma RestStep(p: Parts, s: Text)
    requires s != []
    ensures var u := Unescape(s, LABEL_MAX);
            Rest(p, s) == if u.None? then None else Rest(Feed(p, u.value.lbl), u.value.rest)
  {
    var u := Unescape(s, LABEL_MAX);
    if u.Some? {
      ScanFacts(s, LABEL_MAX);
      if RawLabels(u.value.rest).Some? {
        var ls := RawLabels(u.value.rest).value;
        assert ([u.value.lbl] + ls)[1..] == ls;
      }
    }
  }

  predicate FitsIn(p: Parts, typeSize: nat, domainSize: nat) {
    |Join(p.types)| < typeSize && |Join(p.domains)| < domainSize
  }

  /** What does not fit now will not fit later. */
  lemma NeverFits(p: Parts, s: Text, typeSize: nat, domainSize: nat)
    requires Rest(p, s).Some? && FitsIn(Rest(p, s).value, typeSize, domainSize)
    ensures FitsIn(p, typeSize, domainSize)
  {
    hide Join;
    FeedAllGrows(p, RawLabels(s).value);
  }

  /** avahi_service_name_split: it succeeds exactly when every label can be read and both texts fit. */
  method ServiceNameSplit(s: Text, named: bool, nameSize: nat, typeSize: nat, domainSize: nat) returns (r: SplitResult)
    requires typeSize > 0 && domainSize > 0 && (named ==> nameSize > 0)
    ensures r.Done? <==>
              && Split(s, named).Some? && |Split(s, named).value.kind| < typeSize
              && |Split(s, named).value.domain| < domainSize
    ensures r.Done? ==> r.service == Split(s, named).value.(name := Cut(Split(s, named).value.name, nameSize))
  {
    var rest, mode := s, if named then InName else InType;
    var name: Text, kind: Text, domain: Text := [], [], [];
    var typeEmpty, domainEmpty := true, true;
    ghost var p := Start(named);
    hide Join, RawLabels, Unescape, FitsIn, Cut;
    assert FitsIn(p, typeSize, domainSize) by { EmptyFits(typeSize, domainSize, named); }
    JoinNothing();
    CutNothing(nameSize);
    while rest != []
      invariant p.mode == mode && Cut(p.name, nameSize) == name && kind == Join(p.types) && domain == Join(p.domains)
      invariant typeEmpty == (p.types == []) && domainEmpty == (p.domains == [])
      invariant FitsIn(p, typeSize, domainSize) && Rest(Start(named), s) == Rest(p, rest)
      decreases |rest|
    {
      RestStep(p, rest);
      var u := UnescapeLabel(rest, LABEL_MAX);
      if u.None? {
        return BadLabel;
      }
      RestIsShorter(rest);
      var l := u.value.lbl;
      rest := u.value.rest;
      ghost var q := Feed(p, l);
      var failed: Option<SplitResult> := None;
      FitsMeans(p, typeSize, domainSize);
      FitsMeans(q, typeSize, domainSize);
      if mode == InName {
        name, mode := Cut(l, nameSize), InType;
      } else if mode == InType && l != [] && l[0] == UNDERSCORE {
        failed, kind := AppendTo(p.types, typeEmpty, kind, l, typeSize);
        typeEmpty := false;
      } else {
        mode := InDomain;
        failed, domain := AppendTo(p.domains, domainEmpty, domain, l, domainSize);
        domainEmpty := false;
      }
      if failed.Some? {
        if Rest(q, rest).Some? && FitsIn(Rest(q, rest).value, typeSize, domainSize) {
          NeverFits(q, rest, typeSize, domainSize);
        }
        FitsSplit(s, named, typeSize, domainSize);
        return failed.value;
      }
      p := q;
    }
    RestOfNothing(p);
    FitsSplit(s, named, typeSize, domainSize);
    return Done(Service(name, kind, domain));
  }

  lemma RestOfNothing(p: Parts)
    ensures Rest(p, []) == Some(p)
  {
  }

  lemma FitsMeans(p: Parts, typeSize: nat, domainSize: nat)
    ensures FitsIn(p, typeSize, domainSize) <==> |Join(p.types)| < typeSize && |Join(p.domains)| < domainSize
  {
  }

  lemma FitsSplit(s: Text, named: bool, typeSize: nat, domainSize: nat)
    ensures Split(s, named).Some? <==> Rest(Start(named), s).Some?
    ensures Split(s, named).Some? ==>
              && Split(s, named).value == Texts(Rest(Start(named), s).value)
              && (FitsIn(Rest(Start(named), s).value, typeSize, domainSize) <==>
                  |Split(s, named).value.kind| < typeSize && |Split(s, named).value.domain| < domainSize)
  {
  }

  lemma CutNothing(size: nat)
    ensures Cut([], size) == []
  {
  }

  lemma EmptyFits(typeSize: nat, domainSize: nat, named: bool)
    requires typeSize > 0 && domainSize > 0
    ensures FitsIn(Start(named), typeSize, domainSize)
  {
  }

  // ---------- Putting together ----------

  /** The joined text of a name, a type and a domain given by their labels. */
  function Joined(name: Option<Text>, types: seq<Text>, domains: seq<Text>): Text {
    (if name.Some? then Escape(name.value) + [DOT] else []) + Join(types) + [DOT] + Join(domains)
  }

  /** Unknown when the text is put together from a buffer without a NUL at its end, or there is no room for any. */
  datatype JoinResult =
    Text(text: Text) | InvalidServiceName | InvalidServiceType | InvalidDomainName | Stopped | Unknown

  /** avahi_service_name_join; the text is cut to the size of the buffer. */
  method ServiceNameJoin(size: nat, name: Option<Text>, kind: Text, domain: Text) returns (r: JoinResult)
    ensures if name.Some? && (name.value == [] || |name.value| > 63) then r == InvalidServiceName
            else if !ValidServiceType(kind) then r == InvalidServiceType
            else if !ValidDomainName(domain) then r == InvalidDomainName
            else size > 0 && |Normal(kind).value| < 1014 && |Normal(domain).value| < 1014 ==>
              r == Text(Cut(Joined(name, Labels(kind).value, NameLabels(domain).value), size))
  {
    DotIsNoType();
    hide Join, Labels, Escape, NormalHasRoom;
    if name.Some? && (|name.value| >= LABEL_MAX || name.value == []) {
      return InvalidServiceName;
    }
    var ok := IsValidServiceType(kind);
    if !ok {
      return InvalidServiceType;
    }
    ok := IsValidDomainName(domain);
    if !ok {
      return InvalidDomainName;
    }
    var front: Text := [];
    if name.Some? {
      var fits, e := EscapeLabel(name.value, LABEL_MAX * 4);
      front := e + [DOT];
    }
    var t := NormalizeName(kind, DOMAIN_NAME_MAX);
    if t.Overrun? { return Stopped; }
    if t.NotNormal? { return InvalidServiceType; }
    var d := NormalizeName(domain, DOMAIN_NAME_MAX);
    if d.Overrun? { return Stopped; }
    if d.NotNormal? { return InvalidDomainName; }
    if !t.ended || !d.ended || size == 0 { return Unknown; }
    return Text(Cut(front + t.text + [DOT] + d.text, size));
  }

  lemma DotIsNoType()
    ensures !ValidServiceType([DOT])
  {
  }

  // ---------- Splitting undoes joining ----------

  lemma {:induction false} RawOfJoin(ls: seq<Text>, tail: Text)
    requires GoodLabels(ls) && ls != [] && (tail == [] || tail == [DOT])
    ensures RawLabels(Join(ls) + tail) == Some(ls)
    decreases |ls|
  {
    hide Escape, Utf8.WellFormed;
    var after := JoinRest(ls[1..]) + tail;
    Regroup(Escape(ls[0]), JoinRest(ls[1..]), tail);
    ScanEscaped(ls[0], after, LABEL_MAX);
    LabelNotEmpty(ls[0]);
    if |ls| == 1 {
      assert after == tail;
      assert [ls[0]] + [] == ls;
    } else {
      Regroup([DOT], Join(ls[1..]), tail);
      assert AfterLabel(after) == Join(ls[1..]) + tail;
      RawOfJoin(ls[1..], tail);
      assert [ls[0]] + ls[1..] == ls;
    }
  }

  lemma LabelNotEmpty(l: Text)
    requires GoodLabel(l)
    ensures Escape(l) != []
  {
  }

  /** The labels of the type and the domain, read back. */
  lemma RawOfRest(types: seq<Text>, domains: seq<Text>)
    requires GoodLabels(types) && types != [] && GoodLabels(domains)
    ensures RawLabels(Join(types) + [DOT] + Join(domains)) == Some(types + domains)
  {
    hide Join, Escape, RawLabels, GoodLabel;
    if domains == [] {
      JoinNothing();
      EmptySides(Join(types) + [DOT]);
      EmptySides(types);
      RawOfJoin(types, [DOT]);
    } else {
      JoinAppend(types, domains);
      Regroup(Join(types), [DOT], Join(domains));
      assert JoinRest(domains) == [DOT] + Join(domains);
      RawOfJoin(types + domains, []);
      EmptySides(Join(types + domains));
    }
  }

  /** The name is read back when it is UTF-8, and stops the reader when it is not. */
  lemma RawOfNamed(name: Text, rest: Text)
    requires 1 <= |name| < LABEL_MAX && NulFree(name)
    ensures RawLabels(Escape(name) + [DOT] + rest) ==
            if !Utf8.WellFormed(name) then None else Rest1(name, RawLabels(rest))
  {
    hide Escape, Utf8.WellFormed;
    var s := Escape(name) + [DOT] + rest;
    Regroup(Escape(name), [DOT], rest);
    ScanEscaped(name, [DOT] + rest, LABEL_MAX);
    assert AfterLabel([DOT] + rest) == rest;
    assert s != [];
  }

  function Rest1(l: Text, o: Option<seq<Text>>): Option<seq<Text>> {
    match o case None => None case Some(ls) => Some([l] + ls)
  }

  lemma {:induction false} FeedTypes(p: Parts, types: seq<Text>, domains: seq<Text>)
    requires p.mode == InType && TypeLabels(types)
    ensures FeedAll(p, types + domains) == FeedAll(p.(types := p.types + types), domains)
    decreases |types|
  {
    if types == [] {
      EmptySides(domains);
      EmptySides(p.types);
    } else {
      assert (types + domains)[1..] == types[1..] + domains && (types + domains)[0] == types[0];
      FeedTypes(Feed(p, types[0]), types[1..], domains);
      assert p.types + [types[0]] + types[1..] == p.types + types;
    }
  }

  lemma {:induction false} FeedDomains(p: Parts, domains: seq<Text>)
    requires p.mode == InDomain
    ensures FeedAll(p, domains) == p.(domains := p.domains + domains)
    decreases |domains|
  {
    if domains == [] {
      EmptySides(p.domains);
    } else {
      FeedDomains(Feed(p, domains[0]), domains[1..]);
      assert p.domains + [domains[0]] + domains[1..] == p.domains + domains;
    }
  }

  predicate BeginsLikeType(domains: seq<Text>) {
    domains != [] && domains[0] != [] && domains[0][0] == UNDERSCORE
  }

  /** The domain stays whole, and the type what it was, exactly when the domain does not go on like a type. */
  lemma TypeAndDomain(p: Parts, types: seq<Text>, domains: seq<Text>)
    requires p.mode == InType && p.types == p.domains == [] && TypeLabels(types) && types != []
    ensures var t := Texts(FeedAll(p, types + domains));
            t.name == p.name && (t.kind == Join(types) && t.domain == Join(domains) <==> !BeginsLikeType(domains))
  {
    hide Join, Escape;
    FeedTypes(p, types, domains);
    EmptySides(types);
    var q := p.(types := types);
    NameKept(q, domains);
    if domains != [] {
      if BeginsLikeType(domains) {
        var r := Feed(q, domains[0]);
        FeedAllGrows(r, domains[1..]);
        JoinSnoc(types, domains[0]);
      } else {
        FeedDomains(Feed(q, domains[0]), domains[1..]);
        assert [domains[0]] + domains[1..] == domains;
        EmptySides([domains[0]]);
      }
    }
  }

  lemma {:induction false} NameKept(p: Parts, ls: seq<Text>)
    requires p.mode != InName
    ensures FeedAll(p, ls).name == p.name
    decreases |ls|
  {
    if ls != [] {
      NameKept(Feed(p, ls[0]), ls[1..]);
    }
  }

  /** avahi_service_name_split gives back what avahi_service_name_join was given, up to normalisation, exactly when the
      name is UTF-8 and the first label of the domain does not begin with an underscore. */
  lemma SplitUndoesJoin(name: Option<Text>, kind: Text, domain: Text)
    requires name.Some? ==> ValidServiceName(name.value) && NulFree(name.value)
    requires ValidServiceType(kind) && ValidDomainName(domain) && NulFree(kind) && NulFree(domain)
    ensures var text := Joined(name, Labels(kind).value, NameLabels(domain).value);
            var first := if name.Some? then name.value else [];
            Split(text, name.Some?) == Some(Service(first, Normal(kind).value, Normal(domain).value))
            <==> (name.Some? ==> Utf8.WellFormed(name.value)) && !BeginsLikeType(NameLabels(domain).value)
  {
    var types, domains := Labels(kind).value, NameLabels(domain).value;
    DotIsNoType();
    LabelsAreGood(kind);
    if domain != [DOT] {
      LabelsAreGood(domain);
    }
    TypeHasLabels(kind);
    hide Labels, Join, Escape, RawLabels, TypeLabels, GoodLabels, Utf8.WellFormed, BeginsLikeType;
    var rest := Join(types) + [DOT] + Join(domains);
    RawOfRest(types, domains);
    match name
    case None =>
      TypeAndDomain(Start(false), types, domains);
      NoName(types, domains);
    case Some(n) =>
      Regroup3(Escape(n), Join(types), Join(domains));
      RawOfNamed(n, rest);
      if Utf8.WellFormed(n) {
        FirstIsName(n, types + domains);
        TypeAndDomain(Start(false).(name := n), types, domains);
      }
  }

  lemma NoName(types: seq<Text>, domains: seq<Text>)
    ensures [] + Join(types) + [DOT] + Join(domains) == Join(types) + [DOT] + Join(domains)
  {
    hide Join;
    EmptySides(Join(types));
  }

  lemma Regroup3(a: Text, b: Text, c: Text)
    ensures (a + [DOT]) + b + [DOT] + c == a + [DOT] + (b + [DOT] + c)
  {
  }

  lemma FirstIsName(n: Text, ls: seq<Text>)
    ensures FeedAll(Start(true), [n] + ls) == FeedAll(Start(false).(name := n), ls)
  {
    assert ([n] + ls)[1..] == ls;
  }

  lemma TypeHasLabels(kind: Text)
    requires ValidServiceType(kind)
    ensures Labels(kind).value != []
  {
  }
}
