/** Several hosts on one link that want the same unique record set: avahi-core/announce.c on every host, joined by the
    probes and answers that avahi-core/server.c exchanges (section 8 of RFC 6762). */
module Network {
  import opened Bytes
  import opened Records
  import opened NameRelations
  import opened RecordOrder
  import opened Announce
  import opened EntryGroups
  import opened AnnounceRun
  import opened ProbeSteps
  import opened Identity
  import TieBreak
  import Conflict

  /** The record that a host publishes for the key, and where. */
  datatype Peer = Peer(record: Record, place: Place)

  /** Messages are pairs of sender and receiver, under way until they arrive. */
  datatype Net = Net(hosts: seq<World>, probes: multiset<(nat, nat)>, answers: multiset<(nat, nat)>, clock: int)

  /** Valid records of one key, no two of them equal. */
  predicate AllRivals(peers: seq<Peer>) {
    && (forall i {:trigger peers[i]} :: 0 <= i < |peers| ==> ValidComparable(peers[i].record))
    && (forall i, j :: 0 <= i < j < |peers| ==>
          && SameKey(peers[i].record.key, peers[j].record.key)
          && RecordCompare(peers[i].record, peers[j].record) != 0)
  }

  lemma RivalKeys(peers: seq<Peer>, i: nat, j: nat)
    requires AllRivals(peers) && i < |peers| && j < |peers|
    ensures ValidComparable(peers[i].record) && ValidComparable(peers[j].record)
    ensures SameKey(peers[i].record.key, peers[j].record.key)
  {
    hide RecordCompare, FoldedAll, ValidData;
    if i < j {
      assert SameKey(peers[i].record.key, peers[j].record.key);
    } else if j < i {
      assert SameKey(peers[j].record.key, peers[i].record.key);
    }
  }

  /** A host takes a step of its own, or hears a probe or an answer. */
  datatype Move =
    | Local(h: nat, step: Step)
    | ProbeArrives(from: nat, to: nat, now: int, jitter: Jitter)
    | AnswerArrives(from: nat, to: nat, now: int, jitter: Jitter)

  // ---------- What a message does ----------

  function OwnEntry(w: World, peer: Peer): TieBreak.LocalEntry {
    TieBreak.LocalEntry(peer.record, !Live(w, peer.place.entry), IsProbing(w, peer.place))
  }

  /** The entries that are found under the key of an incoming record. */
  function Found(w: World, peer: Peer, key: Key): seq<TieBreak.LocalEntry>
    requires IsName(peer.record.key.name) && IsName(key.name)
  {
    if SameKey(peer.record.key, key) then [OwnEntry(w, peer)] else []
  }

  lemma FoundComparable(w: World, peer: Peer, key: Key)
    requires Comparable(peer.record) && IsName(key.name)
    ensures TieBreak.AllComparable(Found(w, peer, key))
  {
    hide SameKey;
  }

  /** incoming_probe and withdraw_rrset. */
  function HearProbe(w: World, peer: Peer, record: Record, now: int, jitter: Jitter): World
    requires Comparable(peer.record) && Comparable(record) && w.clock <= now
  {
    FoundComparable(w, peer, record.key);
    if peer.place.entry in w.entries && TieBreak.Loses(Found(w, peer, record.key), record)
    then Take(w, Step(EntryWithdrawn(peer.place.entry), now, jitter)) else Later(w, now)
  }

  /** handle_conflict and what it leads to, for a record that is not ours. */
  function HearAnswer(w: World, peer: Peer, record: Record, now: int, jitter: Jitter): World
    requires Comparable(peer.record) && Comparable(record) && w.clock <= now
  {
    if !SameKey(peer.record.key, record.key) then Later(w, now)
    else if IsRegistered(w, peer.place) then Take(w, Step(Challenged(peer.place), now, jitter))
    else if IsProbing(w, peer.place) then Take(w, Step(EntryWithdrawn(peer.place.entry), now, jitter))
    else Later(w, now)
  }

  /** These are the verdicts of handle_conflict on a record of the key that differs from ours. */
  lemma AnswerIsJudged(w: World, peer: Peer, answer: Rec, v: Conflict.Verdict)
    requires Comparable(peer.record) && Id(peer.record) != Id(answer) && Live(w, peer.place.entry)
    requires w.entries[peer.place.entry].flags.unique
    ensures var own := Conflict.Own(peer.record, false, true, IsRegistered(w, peer.place), IsProbing(w, peer.place));
            Conflict.Judged([own], answer, true, v) <==>
            v == if IsRegistered(w, peer.place) then Conflict.Restarted(0)
                 else if IsProbing(w, peer.place) then Conflict.Withdrawn else Conflict.Accepted
  {
    var own := Conflict.Own(peer.record, false, true, IsRegistered(w, peer.place), IsProbing(w, peer.place));
    hide IsRegistered, IsProbing, Id;
    var entries := [own];
    assert entries[0] == own;
  }

  // ---------- Moves ----------

  function ToOthers(h: nat, n: nat): set<(nat, nat)> {
    set k | 0 <= k < n && k != h :: (h, k)
  }

  predicate CanMove(peers: seq<Peer>, net: Net, m: Move) {
    && |net.hosts| == |peers|
    && match m
       case Local(h, s) => h < |peers| && net.clock <= s.now && CanTake(net.hosts[h], s)
       case ProbeArrives(from, to, now, _) =>
         && (from, to) in net.probes && from < |peers| && to < |peers| && from != to
         && net.clock <= now && net.hosts[to].clock <= now
       case AnswerArrives(from, to, now, _) =>
         && (from, to) in net.answers && from < |peers| && to < |peers| && from != to
         && net.clock <= now && net.hosts[to].clock <= now
  }

  /** A posted probe is under way to all others; a probe that finds the record registered is answered. */
  function Moved(peers: seq<Peer>, net: Net, m: Move): Net
    requires AllRivals(peers) && CanMove(peers, net, m)
  {
    match m
    case Local(h, s) =>
      Net(net.hosts[h := Take(net.hosts[h], s)],
          if PostsFor(net.hosts[h], s.event, peers[h].place)
          then net.probes + multiset(ToOthers(h, |peers|)) else net.probes,
          net.answers, s.now)
    case ProbeArrives(from, to, now, jitter) =>
      var w := net.hosts[to];
      Net(net.hosts[to := HearProbe(w, peers[to], peers[from].record, now, jitter)], net.probes - multiset{(from, to)},
          if IsRegistered(w, peers[to].place) then net.answers + multiset{(to, from)} else net.answers, now)
    case AnswerArrives(from, to, now, jitter) =>
      Net(net.hosts[to := HearAnswer(net.hosts[to], peers[to], peers[from].record, now, jitter)], net.probes,
          net.answers - multiset{(from, to)}, now)
  }

  function Time(m: Move): int {
    match m case Local(_, s) => s.now case ProbeArrives(_, _, now, _) => now case AnswerArrives(_, _, now, _) => now
  }

  function ViewAt(peers: seq<Peer>, net: Net, h: nat): View
    requires h < |peers| == |net.hosts|
  {
    ViewOf(net.hosts[h], peers[h].place)
  }

  // ---------- Two hosts ----------

  /** What matters of two hosts: their views, whose record is greater, and the messages between them. */
  datatype Pair = Pair(a: View, b: View, greater: bool, probeAB: bool, probeBA: bool, answerAB: bool, answerBA: bool)

  function Flip(p: Pair): Pair {
    Pair(p.b, p.a, !p.greater, p.probeBA, p.probeAB, p.answerBA, p.answerAB)
  }

  /** Not both have claimed; once a has, it warns b before b does; and as long as b probes against a greater record, it
      began after the last probe for that. */
  predicate OneWay(p: Pair) {
    && !(p.a == Claimed && p.b == Claimed)
    && (p.a == Claimed && p.b.Trying? && |p.b.probes| == 3 ==> p.probeBA || p.answerAB)
    && (p.greater && p.a.Trying? && p.a.probes != [] && p.b.Trying? && p.b.probes != [] && !p.probeAB ==>
          p.b.probes[0] >= p.a.probes[|p.a.probes| - 1])
  }

  predicate Apart(p: Pair) {
    OneWay(p) && OneWay(Flip(p))
  }

  /** The probes of a view lie in the past, a quarter of a second apart. */
  predicate Timely(v: View, clock: int) {
    v.Trying? ==> |v.probes| <= 3 && Gaps(v.probes) && (v.probes != [] ==> v.probes[|v.probes| - 1] <= clock)
  }

  /** Half a second after its third probe a host has claimed its record or given up. */
  predicate PromptAt(v: View, now: int) {
    v.Trying? && |v.probes| == 3 ==> now < v.probes[2] + 2 * PROBE_INTERVAL
  }

  predicate NoMessages(p: Pair) {
    !p.probeAB && !p.probeBA && !p.answerAB && !p.answerBA
  }

  /** With all probes heard, two prompt hosts do not both get as far as the third probe. */
  lemma NotBothThird(p: Pair, clock: int, now: int)
    requires Apart(p) && Timely(p.a, clock) && Timely(p.b, clock) && PromptAt(p.a, now) && PromptAt(p.b, now)
             && clock <= now
    requires !p.probeAB && !p.probeBA
    ensures !(p.a.Trying? && p.b.Trying? && |p.a.probes| == 3 && |p.b.probes| == 3)
  {
  }

  /** A step of host a. */
  lemma LocalApart(p: Pair, a: View, posts: bool, clock: int, now: int)
    requires Apart(p) && Timely(p.a, clock) && Timely(p.b, clock) && clock <= now && Moves(p.a, a, posts, now)
    requires a == Claimed && p.a != Claimed ==> NoMessages(p) && PromptAt(p.a, now) && PromptAt(p.b, now)
    ensures Apart(p.(a := a, probeAB := p.probeAB || posts))
  {
    if a == Claimed && p.a != Claimed {
      NotBothThird(p, clock, now);
    }
  }

  /** A probe from a arrives at b. */
  lemma ProbeApart(p: Pair, b: View, more: bool)
    requires Apart(p) && p.probeAB
    requires b == if p.b.Trying? && p.greater then Idle else p.b
    ensures Apart(p.(b := b, probeAB := more, answerBA := p.answerBA || p.b == Claimed))
  {
  }

  /** An answer from a arrives at b. */
  lemma AnswerApart(p: Pair, b: View, more: bool)
    requires Apart(p)
    requires b == if p.b == Claimed then Trying([]) else Idle
    ensures Apart(p.(b := b, answerAB := more))
  {
  }

  // ---------- All hosts ----------

  function PairAt(peers: seq<Peer>, net: Net, x: nat, y: nat): Pair
    requires AllRivals(peers) && |net.hosts| == |peers| && x < |peers| && y < |peers|
  {
    Pair(ViewAt(peers, net, x), ViewAt(peers, net, y), RecordCompare(peers[x].record, peers[y].record) > 0,
         (x, y) in net.probes, (y, x) in net.probes, (x, y) in net.answers, (y, x) in net.answers)
  }

  lemma PairFlipped(peers: seq<Peer>, net: Net, x: nat, y: nat)
    requires AllRivals(peers) && |net.hosts| == |peers| && x < |peers| && y < |peers| && x != y
    ensures PairAt(peers, net, y, x) == Flip(PairAt(peers, net, x, y))
  {
    hide RecordCompare, ValidComparable;
    TieBreak.CompareReversed(peers[x].record, peers[y].record);
  }

  predicate HostOK(peers: seq<Peer>, net: Net, h: nat)
    requires h < |peers| == |net.hosts|
  {
    Sound(net.hosts[h], peers[h].place) && Timely(ViewAt(peers, net, h), net.clock)
  }

  predicate HostsOK(peers: seq<Peer>, net: Net)
    requires |peers| == |net.hosts|
  {
    forall h :: 0 <= h < |peers| ==> HostOK(peers, net, h)
  }

  predicate AllApart(peers: seq<Peer>, net: Net)
    requires AllRivals(peers) && |peers| == |net.hosts|
  {
    forall x, y :: 0 <= x < |peers| && 0 <= y < |peers| && x != y ==> Apart(PairAt(peers, net, x, y))
  }

  predicate NetOK(peers: seq<Peer>, net: Net) {
    AllRivals(peers) && |net.hosts| == |peers| && HostsOK(peers, net) && AllApart(peers, net)
  }

  /** All hosts publish their record as unique and do not ask to skip probing. */
  predicate AllToBeProbed(peers: seq<Peer>, net: Net) {
    && |net.hosts| == |peers|
    && forall h {:trigger net.hosts[h]} :: 0 <= h < |peers| ==> ToBeProbed(net.hosts[h], peers[h].place)
  }

  predicate Involves(m: (nat, nat), h: nat) {
    m.0 == h || m.1 == h
  }

  /** No message to or from host h is under way. */
  predicate Heard(net: Net, h: nat) {
    && (forall m {:trigger Involves(m, h)} :: m in net.probes ==> !Involves(m, h))
    && (forall m {:trigger Involves(m, h)} :: m in net.answers ==> !Involves(m, h))
  }

  predicate Prompt(peers: seq<Peer>, net: Net, now: int)
    requires |net.hosts| == |peers|
  {
    forall k :: 0 <= k < |peers| ==> PromptAt(ViewAt(peers, net, k), now)
  }

  predicate Claims(peers: seq<Peer>, net: Net, m: Move)
    requires AllRivals(peers) && CanMove(peers, net, m)
  {
    m.Local? && ViewAt(peers, net, m.h) != Claimed && ViewAt(peers, Moved(peers, net, m), m.h) == Claimed
  }

  /** A record is claimed only after all probes and answers of the host have arrived, and no host has been silent for
      half a second since its third probe. */
  predicate Careful(peers: seq<Peer>, net: Net, m: Move)
    requires AllRivals(peers) && CanMove(peers, net, m)
  {
    && AllToBeProbed(peers, Moved(peers, net, m))
    && (Claims(peers, net, m) ==> Heard(net, m.h) && Prompt(peers, net, m.step.now))
  }

  // ---------- Every move keeps the hosts apart ----------

  lemma MovesTimely(a: View, b: View, posts: bool, clock: int, now: int)
    requires Timely(a, clock) && Moves(a, b, posts, now) && clock <= now
             && (b.Trying? ==> |b.probes| <= 3 && Gaps(b.probes))
    ensures Timely(b, now)
  {
  }

  lemma StepHost(peers: seq<Peer>, net: Net, h: nat, s: Step, net': Net)
    requires h < |peers| == |net.hosts| == |net'.hosts| && HostOK(peers, net, h) && CanTake(net.hosts[h], s)
    requires net.clock <= s.now == net'.clock && net'.hosts[h] == Take(net.hosts[h], s)
             && ToBeProbed(net'.hosts[h], peers[h].place)
    ensures HostOK(peers, net', h)
    ensures Moves(ViewAt(peers, net, h), ViewAt(peers, net', h), PostsFor(net.hosts[h], s.event, peers[h].place), s.now)
  {
    hide Sound, ViewOf, Moves, Timely, Take, CanTake, PostsFor, ToBeProbed;
    StepMoves(net.hosts[h], s, peers[h].place);
    if ViewAt(peers, net', h).Trying? {
      SoundView(net'.hosts[h], peers[h].place);
    }
    MovesTimely(ViewAt(peers, net, h), ViewAt(peers, net', h), PostsFor(net.hosts[h], s.event, peers[h].place),
                net.clock, s.now);
  }

  lemma StillThere(peers: seq<Peer>, net: Net, h: nat, net': Net)
    requires h < |peers| == |net.hosts| == |net'.hosts| && HostOK(peers, net, h)
    requires net.clock <= net'.clock && net'.hosts[h] == net.hosts[h]
    ensures HostOK(peers, net', h) && ViewAt(peers, net', h) == ViewAt(peers, net, h)
  {
  }

  lemma HeardPair(peers: seq<Peer>, net: Net, x: nat, y: nat)
    requires AllRivals(peers) && |net.hosts| == |peers| && x < |peers| && y < |peers| && Heard(net, x)
    ensures NoMessages(PairAt(peers, net, x, y))
  {
    assert Involves((x, y), x) && Involves((y, x), x);
  }

  lemma LocalHosts(peers: seq<Peer>, net: Net, h: nat, s: Step)
    requires NetOK(peers, net) && CanMove(peers, net, Local(h, s)) && Careful(peers, net, Local(h, s))
    ensures var net' := Moved(peers, net, Local(h, s)); |net'.hosts| == |peers| && HostsOK(peers, net')
  {
    hide AllRivals, AllApart, HostOK, Take, CanTake, PostsFor, Claims, ToBeProbed, Heard, Prompt;
    var net' := Moved(peers, net, Local(h, s));
    forall k | 0 <= k < |peers| ensures HostOK(peers, net', k) {
      assert HostOK(peers, net, k);
      if k == h {
        StepHost(peers, net, h, s, net');
      } else {
        StillThere(peers, net, k, net');
      }
    }
  }

  /** The pairs of the host that steps. */
  lemma LocalPair(peers: seq<Peer>, net: Net, h: nat, s: Step, y: nat)
    requires NetOK(peers, net) && CanMove(peers, net, Local(h, s)) && Careful(peers, net, Local(h, s)) && y < |peers|
             && y != h
    ensures Apart(PairAt(peers, Moved(peers, net, Local(h, s)), h, y))
  {
    hide AllRivals, Take, CanTake, PostsFor, ToBeProbed, RecordCompare, Timely, ViewOf, Moves, Sound, Apart;
    var net' := Moved(peers, net, Local(h, s));
    var posts := PostsFor(net.hosts[h], s.event, peers[h].place);
    var p, p' := PairAt(peers, net, h, y), PairAt(peers, net', h, y);
    assert Apart(p) && HostOK(peers, net, h) && HostOK(peers, net, y);
    if p'.a == Claimed && p.a != Claimed {
      assert PromptAt(ViewAt(peers, net, h), s.now) && PromptAt(ViewAt(peers, net, y), s.now);
      hide AllApart, HostsOK, Prompt, PromptAt, Heard;
      HeardPair(peers, net, h, y);
    }
    hide AllApart, HostsOK, Heard, Prompt, PromptAt;
    StepHost(peers, net, h, s, net');
    assert p' == p.(a := p'.a, probeAB := p.probeAB || posts);
    LocalApart(p, p'.a, posts, net.clock, s.now);
  }

  lemma LocalKeeps(peers: seq<Peer>, net: Net, h: nat, s: Step)
    requires NetOK(peers, net) && CanMove(peers, net, Local(h, s)) && Careful(peers, net, Local(h, s))
    ensures NetOK(peers, Moved(peers, net, Local(h, s)))
  {
    LocalHosts(peers, net, h, s);
    hide AllRivals, HostsOK, Take, CanTake, PostsFor, Careful, RecordCompare, Apart, ViewOf;
    var net' := Moved(peers, net, Local(h, s));
    forall x, y | 0 <= x < |peers| && 0 <= y < |peers| && x != y ensures Apart(PairAt(peers, net', x, y)) {
      assert Apart(PairAt(peers, net, x, y));
      if x == h {
        LocalPair(peers, net, h, s, y);
      } else if y == h {
        LocalPair(peers, net, h, s, x);
        PairFlipped(peers, net', h, x);
        FlipApart(PairAt(peers, net', h, x));
      } else {
        assert PairAt(peers, net', x, y) == PairAt(peers, net, x, y);
      }
    }
  }

  lemma FlipApart(p: Pair)
    requires Apart(p)
    ensures Apart(Flip(p))
  {
    assert Flip(Flip(p)) == p;
  }

  // ---------- Messages ----------

  lemma LosesAlone(e: TieBreak.LocalEntry, record: Record)
    requires Comparable(e.record) && Comparable(record)
    ensures TieBreak.AllComparable([e])
    ensures TieBreak.Loses([e], record) <==> !e.dead && e.probing && RecordCompare(e.record, record) < 0
  {
    hide RecordCompare, Comparable;
    var es := [e];
    assert es[0] == e;
  }

  lemma NoneLoses(record: Record)
    requires Comparable(record)
    ensures TieBreak.AllComparable([]) && !TieBreak.Loses([], record)
  {
  }

  lemma NamesOf(r: Record)
    requires Comparable(r)
    ensures IsName(r.key.name)
  {
  }

  lemma WithdrawnIsIdle(w: World, s: Step, p: Place)
    requires Inv(w) && p in w.announcers && s.event == EntryWithdrawn(p.entry) && CanTake(w, s)
    ensures ViewOf(Take(w, s), p) == Idle
  {
    assert AnnouncerOK(w, p, w.announcers[p]);
    hide AnnouncersOK, GroupsOK, ChangeState;
  }

  lemma ChallengedTries(w: World, s: Step, p: Place)
    requires Inv(w) && p in w.announcers && s.event == Challenged(p) && CanTake(w, s) && ToBeProbed(w, p)
    ensures ViewOf(Take(w, s), p) == Trying([])
  {
    assert AnnouncerOK(w, p, w.announcers[p]);
    hide AnnouncersOK, GroupsOK;
  }

  lemma LaterSound(w: World, p: Place, now: int)
    requires Sound(w, p) && w.clock <= now
    ensures Sound(Later(w, now), p) && ViewOf(Later(w, now), p) == ViewOf(w, p)
  {
    hide Inv;
    LaterKeeps(w, now);
  }

  lemma GivesUp(w: World, s: Step, p: Place)
    requires Sound(w, p) && IsProbing(w, p) && s.event == EntryWithdrawn(p.entry) && w.clock <= s.now
    ensures CanTake(w, s)
    ensures ToBeProbed(Take(w, s), p) ==> Sound(Take(w, s), p) && ViewOf(Take(w, s), p) == Idle
  {
    hide Inv, Take;
    if ToBeProbed(Take(w, s), p) {
      StepMoves(w, s, p);
      WithdrawnIsIdle(w, s, p);
    }
  }

  lemma TriesAgain(w: World, s: Step, p: Place)
    requires Sound(w, p) && IsRegistered(w, p) && s.event == Challenged(p) && w.clock <= s.now
    ensures CanTake(w, s)
    ensures ToBeProbed(Take(w, s), p) ==> Sound(Take(w, s), p) && ViewOf(Take(w, s), p) == Trying([])
  {
    hide Inv, Take;
    if ToBeProbed(Take(w, s), p) {
      StepMoves(w, s, p);
      ChallengedTries(w, s, p);
    }
  }

  /** A probe makes a host give up exactly when it probes for a smaller record of the same key, and leaves it alone
      otherwise. */
  lemma HearProbeView(w: World, peer: Peer, record: Record, now: int, jitter: Jitter)
    requires ValidComparable(peer.record) && ValidComparable(record) && Sound(w, peer.place) && w.clock <= now
    requires ToBeProbed(HearProbe(w, peer, record, now, jitter), peer.place)
    ensures var v := HearProbe(w, peer, record, now, jitter);
            && Sound(v, peer.place)
            && ViewOf(v, peer.place) ==
               if SameKey(peer.record.key, record.key) && ViewOf(w, peer.place).Trying?
                  && RecordCompare(record, peer.record) > 0 then Idle
               else ViewOf(w, peer.place)
  {
    var p := peer.place;
    NamesOf(peer.record);
    NamesOf(record);
    hide RecordCompare, Comparable, ValidData, SameKey;
    LosesAlone(OwnEntry(w, peer), record);
    NoneLoses(record);
    TieBreak.CompareReversed(peer.record, record);
    ViewIsState(w, p);
    if p in w.announcers {
      assert AnnouncerOK(w, p, w.announcers[p]);
    }
    LaterSound(w, p, now);
    hide Sound, Inv, Take, CanTake, TieBreak.Loses;
    if SameKey(peer.record.key, record.key) && IsProbing(w, p) && RecordCompare(peer.record, record) < 0 {
      GivesUp(w, Step(EntryWithdrawn(p.entry), now, jitter), p);
    }
  }

  /** An answer for the same key makes a host that probes give up, and one that has claimed its record probe again. */
  lemma HearAnswerView(w: World, peer: Peer, record: Record, now: int, jitter: Jitter)
    requires Comparable(peer.record) && Comparable(record) && Sound(w, peer.place) && w.clock <= now
    requires ToBeProbed(HearAnswer(w, peer, record, now, jitter), peer.place)
    ensures var v := HearAnswer(w, peer, record, now, jitter);
            && Sound(v, peer.place)
            && ViewOf(v, peer.place) ==
               if !SameKey(peer.record.key, record.key) then ViewOf(w, peer.place)
               else if ViewOf(w, peer.place) == Claimed then Trying([]) else Idle
  {
    var p := peer.place;
    NamesOf(peer.record);
    NamesOf(record);
    hide SameKey, Comparable;
    ViewIsState(w, p);
    LaterSound(w, p, now);
    hide Sound, Inv, Take, CanTake, ViewOf, IsRegistered, IsProbing;
    var ours := SameKey(peer.record.key, record.key);
    if ours && IsRegistered(w, p) {
      TriesAgain(w, Step(Challenged(p), now, jitter), p);
    } else if ours && IsProbing(w, p) {
      GivesUp(w, Step(EntryWithdrawn(p.entry), now, jitter), p);
    }
  }

  /** Host `to` hears a message and changes its view without a probe and without a claim. */
  predicate Hears(peers: seq<Peer>, net: Net, net': Net, to: nat)
    requires to < |peers| == |net.hosts|
  {
    && |net'.hosts| == |peers| && net.clock <= net'.clock && net'.hosts == net.hosts[to := net'.hosts[to]]
    && Sound(net'.hosts[to], peers[to].place)
    && Moves(ViewAt(peers, net, to), ViewAt(peers, net', to), false, net'.clock)
    && (ViewAt(peers, net', to) == Claimed ==> ViewAt(peers, net, to) == Claimed)
  }

  lemma HearsHosts(peers: seq<Peer>, net: Net, net': Net, to: nat)
    requires to < |peers| == |net.hosts| && HostsOK(peers, net) && Hears(peers, net, net', to)
    ensures HostsOK(peers, net')
  {
    hide Sound, ViewOf, Moves, Timely, HostOK;
    forall k | 0 <= k < |peers| ensures HostOK(peers, net', k) {
      assert HostOK(peers, net, k);
      if k == to {
        HearsHost(peers, net, net', to);
      } else {
        StillThere(peers, net, k, net');
      }
    }
  }

  lemma HearsHost(peers: seq<Peer>, net: Net, net': Net, to: nat)
    requires to < |peers| == |net.hosts| && HostOK(peers, net, to) && Hears(peers, net, net', to)
    ensures HostOK(peers, net', to)
  {
    hide Sound, ViewOf, Moves, Timely;
    if ViewAt(peers, net', to).Trying? {
      SoundView(net'.hosts[to], peers[to].place);
    }
    MovesTimely(ViewAt(peers, net, to), ViewAt(peers, net', to), false, net.clock, net'.clock);
  }

  /** The pairs of that host with hosts other than the sender, and all pairs without it. */
  lemma BystanderPair(peers: seq<Peer>, net: Net, net': Net, to: nat, y: nat)
    requires NetOK(peers, net) && to < |peers| && Hears(peers, net, net', to) && y < |peers| && y != to
    requires var p, p' := PairAt(peers, net, to, y), PairAt(peers, net', to, y); p' == p.(a := p'.a)
    ensures Apart(PairAt(peers, net', to, y))
  {
    var p, p' := PairAt(peers, net, to, y), PairAt(peers, net', to, y);
    assert Apart(p) && HostOK(peers, net, to) && HostOK(peers, net, y);
    hide AllRivals, AllApart, HostsOK, RecordCompare, Apart, Timely, ViewOf, Moves, Sound;
    LocalApart(p, p'.a, false, net.clock, net'.clock);
  }

  /** Messages of other pairs stay under way. */
  ghost predicate OnlyTheirs(net: Net, net': Net, from: nat, to: nat) {
    forall m: (nat, nat) :: m != (from, to) && m != (to, from) ==>
      (m in net'.probes <==> m in net.probes) && (m in net'.answers <==> m in net.answers)
  }

  lemma ReceiverPair(peers: seq<Peer>, net: Net, net': Net, from: nat, to: nat, z: nat)
    requires NetOK(peers, net) && from < |peers| && to < |peers| && z < |peers| && z != to
             && Hears(peers, net, net', to)
    requires Apart(PairAt(peers, net', to, from)) && OnlyTheirs(net, net', from, to)
    ensures Apart(PairAt(peers, net', to, z)) && Apart(PairAt(peers, net', z, to))
  {
    hide AllRivals, HostsOK, AllApart, RecordCompare, Apart, ViewOf, Moves, Sound;
    if z != from {
      BystanderPair(peers, net, net', to, z);
    }
    PairFlipped(peers, net', to, z);
    FlipApart(PairAt(peers, net', to, z));
  }

  /** All pairs stay apart when those of the receiver do. */
  lemma HearsKeeps(peers: seq<Peer>, net: Net, net': Net, from: nat, to: nat)
    requires NetOK(peers, net) && from < |peers| && to < |peers| && from != to && Hears(peers, net, net', to)
    requires Apart(PairAt(peers, net', to, from))
    requires OnlyTheirs(net, net', from, to)
    ensures NetOK(peers, net')
  {
    HearsHosts(peers, net, net', to);
    HearsLength(peers, net, net', to);
    hide AllRivals, HostsOK, Apart, Hears, OnlyTheirs, PairAt;
    forall x, y | 0 <= x < |peers| && 0 <= y < |peers| && x != y ensures Apart(PairAt(peers, net', x, y)) {
      assert Apart(PairAt(peers, net, x, y));
      if x == to || y == to {
        ReceiverPair(peers, net, net', from, to, if x == to then y else x);
      } else {
        StrangerPair(peers, net, net', from, to, x, y);
      }
    }
  }

  lemma StrangerPair(peers: seq<Peer>, net: Net, net': Net, from: nat, to: nat, x: nat, y: nat)
    requires AllRivals(peers) && from < |peers| && to < |peers| == |net.hosts| && x < |peers| && y < |peers| && x != to
             && y != to
    requires Hears(peers, net, net', to) && OnlyTheirs(net, net', from, to)
    ensures PairAt(peers, net', x, y) == PairAt(peers, net, x, y)
  {
    hide AllRivals, RecordCompare, ViewOf, Moves, Sound;
  }

  /** What a probe changes for sender and receiver. */
  lemma ProbeHeard(peers: seq<Peer>, net: Net, m: Move)
    requires NetOK(peers, net) && m.ProbeArrives? && CanMove(peers, net, m) && Careful(peers, net, m)
    ensures var net' := Moved(peers, net, m);
            && Hears(peers, net, net', m.to)
            && var p, p' := PairAt(peers, net, m.from, m.to), PairAt(peers, net', m.from, m.to);
               && p'.b == (if p.b.Trying? && p.greater then Idle else p.b)
               && p' == p.(b := p'.b, probeAB := p'.probeAB, answerBA := p.answerBA || p.b == Claimed)
  {
    var net', from, to := Moved(peers, net, m), m.from, m.to;
    assert HostOK(peers, net, to);
    assert ToBeProbed(net'.hosts[to], peers[to].place);
    hide RecordCompare, ViewOf, Sound, HearProbe, Comparable, IsRegistered, ToBeProbed, AllApart, AllToBeProbed;
    HearProbeHere(net, peers, m);
  }

  lemma HearProbeHere(net: Net, peers: seq<Peer>, m: Move)
    requires AllRivals(peers) && m.ProbeArrives? && CanMove(peers, net, m)
    requires var w, p := net.hosts[m.to], peers[m.to].place;
             Sound(w, p) && ToBeProbed(HearProbe(w, peers[m.to], peers[m.from].record, m.now, m.jitter), p)
    ensures var w, peer, record := net.hosts[m.to], peers[m.to], peers[m.from].record;
            var v := HearProbe(w, peer, record, m.now, m.jitter);
            && (ViewOf(w, peer.place) == Claimed <==> IsRegistered(w, peer.place))
            && Sound(v, peer.place)
            && ViewOf(v, peer.place) ==
               if ViewOf(w, peer.place).Trying? && RecordCompare(record, peer.record) > 0 then Idle
               else ViewOf(w, peer.place)
  {
    RivalKeys(peers, m.to, m.from);
    hide RecordCompare, ViewOf, HearProbe, Comparable, IsRegistered, ToBeProbed, SameKey, AllRivals;
    ViewIsState(net.hosts[m.to], peers[m.to].place);
    HearProbeView(net.hosts[m.to], peers[m.to], peers[m.from].record, m.now, m.jitter);
  }

  /** What an answer changes for sender and receiver. */
  lemma AnswerHeard(peers: seq<Peer>, net: Net, m: Move)
    requires NetOK(peers, net) && m.AnswerArrives? && CanMove(peers, net, m) && Careful(peers, net, m)
    ensures var net' := Moved(peers, net, m);
            && Hears(peers, net, net', m.to)
            && var p, p' := PairAt(peers, net, m.from, m.to), PairAt(peers, net', m.from, m.to);
               && p'.b == (if p.b == Claimed then Trying([]) else Idle)
               && p' == p.(b := p'.b, answerAB := p'.answerAB)
  {
    var net', to := Moved(peers, net, m), m.to;
    assert HostOK(peers, net, to);
    assert ToBeProbed(net'.hosts[to], peers[to].place);
    RivalKeys(peers, to, m.from);
    hide RecordCompare, ViewOf, Sound, HearAnswer, ToBeProbed, AllRivals, AllApart, AllToBeProbed, SameKey, Comparable;
    HearAnswerView(net.hosts[to], peers[to], peers[m.from].record, m.now, m.jitter);
  }

  lemma MessageOnlyTheirs(peers: seq<Peer>, net: Net, m: Move)
    requires AllRivals(peers) && CanMove(peers, net, m) && !m.Local?
    ensures OnlyTheirs(net, Moved(peers, net, m), m.from, m.to)
  {
    hide AllRivals, HearProbe, HearAnswer, IsRegistered;
  }

  lemma MessagePair(peers: seq<Peer>, net: Net, m: Move)
    requires NetOK(peers, net) && !m.Local? && CanMove(peers, net, m) && Careful(peers, net, m)
    ensures var net' := Moved(peers, net, m); Hears(peers, net, net', m.to) && Apart(PairAt(peers, net', m.to, m.from))
  {
    var net', from, to := Moved(peers, net, m), m.from, m.to;
    var p := PairAt(peers, net, from, to);
    assert Apart(p);
    hide HostsOK, RecordCompare, Apart, ViewOf, AllRivals, AllApart, Careful, Hears, Moved;
    if m.ProbeArrives? {
      ProbeHeard(peers, net, m);
      HearsLength(peers, net, net', to);
      var p' := PairAt(peers, net', from, to);
      ProbeApart(p, p'.b, p'.probeAB);
    } else {
      AnswerHeard(peers, net, m);
      HearsLength(peers, net, net', to);
      var p' := PairAt(peers, net', from, to);
      AnswerApart(p, p'.b, p'.answerAB);
    }
    PairFlipped(peers, net', from, to);
    FlipApart(PairAt(peers, net', from, to));
  }

  lemma MessageKeeps(peers: seq<Peer>, net: Net, m: Move)
    requires NetOK(peers, net) && !m.Local? && CanMove(peers, net, m) && Careful(peers, net, m)
    ensures NetOK(peers, Moved(peers, net, m))
  {
    hide HostsOK, AllRivals, AllApart, Careful, Hears, Moved, OnlyTheirs, Apart, PairAt;
    MessagePair(peers, net, m);
    MessageOnlyTheirs(peers, net, m);
    HearsLength(peers, net, Moved(peers, net, m), m.to);
    HearsKeeps(peers, net, Moved(peers, net, m), m.from, m.to);
  }

  lemma HearsLength(peers: seq<Peer>, net: Net, net': Net, to: nat)
    requires to < |peers| == |net.hosts| && Hears(peers, net, net', to)
    ensures |net'.hosts| == |peers|
  {
  }

  lemma MoveKeeps(peers: seq<Peer>, net: Net, m: Move)
    requires NetOK(peers, net) && CanMove(peers, net, m) && Careful(peers, net, m)
    ensures NetOK(peers, Moved(peers, net, m))
  {
    hide NetOK, CanMove, Careful, Moved;
    match m
    case Local(h, s) => LocalKeeps(peers, net, h, s);
    case ProbeArrives(_, _, _, _) => MessageKeeps(peers, net, m);
    case AnswerArrives(_, _, _, _) => MessageKeeps(peers, net, m);
  }

  // ---------- Runs ----------

  function StartNet(n: nat, clock: int): Net {
    Net(seq(n, i => Start(clock)), multiset{}, multiset{}, clock)
  }

  /** A run of the whole link; the hosts' own steps, probes and answers come in any order. */
  predicate IsNetRun(peers: seq<Peer>, clock: int, moves: seq<Move>)
    requires AllRivals(peers)
    decreases |moves|, 0
  {
    var n := |moves| - 1;
    moves == [] ||
    (IsNetRun(peers, clock, moves[..n]) && CanMove(peers, AfterMoves(peers, clock, moves[..n]), moves[n]))
  }

  function AfterMoves(peers: seq<Peer>, clock: int, moves: seq<Move>): Net
    requires AllRivals(peers) && IsNetRun(peers, clock, moves)
    decreases |moves|, 1
  {
    var n := |moves| - 1;
    if moves == [] then StartNet(|peers|, clock) else Moved(peers, AfterMoves(peers, clock, moves[..n]), moves[n])
  }

  predicate CarefulRun(peers: seq<Peer>, clock: int, moves: seq<Move>)
    requires AllRivals(peers) && IsNetRun(peers, clock, moves)
    decreases |moves|
  {
    var n := |moves| - 1;
    moves == [] ||
    (CarefulRun(peers, clock, moves[..n]) && Careful(peers, AfterMoves(peers, clock, moves[..n]), moves[n]))
  }

  lemma StartOK(peers: seq<Peer>, clock: int)
    requires AllRivals(peers)
    ensures NetOK(peers, StartNet(|peers|, clock))
  {
    hide AllRivals, RecordCompare;
    var net := StartNet(|peers|, clock);
    assert HostsOK(peers, net);
    assert AllApart(peers, net);
  }

  lemma {:induction false} RunKeeps(peers: seq<Peer>, clock: int, moves: seq<Move>)
    requires AllRivals(peers) && IsNetRun(peers, clock, moves) && CarefulRun(peers, clock, moves)
    ensures NetOK(peers, AfterMoves(peers, clock, moves))
    decreases |moves|
  {
    hide NetOK, CanMove, Careful, Moved, AllRivals;
    if moves == [] {
      StartOK(peers, clock);
    } else {
      var n := |moves| - 1;
      RunKeeps(peers, clock, moves[..n]);
      MoveKeeps(peers, AfterMoves(peers, clock, moves[..n]), moves[n]);
    }
  }

  /** However many hosts want the same record set with different records, and whatever else happens on them: in every
      careful run, at no time have two of them registered it. */
  lemma AtMostOneRegistered(peers: seq<Peer>, clock: int, moves: seq<Move>, x: nat, y: nat)
    requires AllRivals(peers) && IsNetRun(peers, clock, moves) && CarefulRun(peers, clock, moves)
    requires x < |peers| && y < |peers| && x != y
    ensures var net := AfterMoves(peers, clock, moves);
            && |net.hosts| == |peers|
            && !(IsRegistered(net.hosts[x], peers[x].place) && IsRegistered(net.hosts[y], peers[y].place))
  {
    RunKeeps(peers, clock, moves);
    var net := AfterMoves(peers, clock, moves);
    hide AfterMoves, IsNetRun, CarefulRun, AllRivals, RecordCompare, Inv, Timely;
    assert HostOK(peers, net, x) && HostOK(peers, net, y) && Apart(PairAt(peers, net, x, y));
    ViewIsState(net.hosts[x], peers[x].place);
    ViewIsState(net.hosts[y], peers[y].place);
  }
}
