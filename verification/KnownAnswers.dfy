/** append_known_answers_and_send of avahi-core/query-sched.c: known answers are spread over as many packets as they
    need (section 7.2 of RFC 6762). */
module KnownAnswers {
  import opened Bytes
  import opened Records
  import opened Wire
  import opened Walk
  import opened Message
  import opened Reader
  import opened RoundTrip

  /** A packet handed to the interface, with its ANCOUNT and its TC flag. */
  datatype Sent = Sent(packet: Contents, answers: seq<Record>, ancount: nat, tc: bool)

  function Answers(rs: seq<Record>): seq<Item> {
    seq(|rs|, i requires 0 <= i < |rs| => Answer(rs[i], false, 0))
  }

  /** A new query packet. */
  function NewQuery(max: nat): Contents {
    Contents(seq(HEADER_SIZE, _ => 0), map[], max)
  }

  predicate FitsAlone(max: nat, r: Record) {
    Fits(NewQuery(max), Answer(r, false, 0))
  }

  predicate IsEmpty(p: Contents) {
    |p.bytes| <= HEADER_SIZE
  }

  /** Packet p holds the answers after what it started with, and all of them found room. */
  predicate Holds(start: Contents, rs: seq<Record>, p: Contents) {
    p == AppendAll(start, Answers(rs)) && Kept(start, Answers(rs)) == Answers(rs)
  }

  lemma HoldsOneMore(start: Contents, rs: seq<Record>, p: Contents, r: Record)
    requires Holds(start, rs, p) && Fits(p, Answer(r, false, 0))
    ensures Holds(start, rs + [r], Append(p, Answer(r, false, 0)))
  {
    hide Append, Fits, AppendAll, Kept;
    AppendOne(start, Answers(rs), Answer(r, false, 0));
    assert Answers(rs + [r]) == Answers(rs) + [Answer(r, false, 0)];
  }

  lemma HoldsNothing(p: Contents)
    ensures Holds(p, [], p)
  {
    assert Answers([]) == [];
  }

  function Flatten(sent: seq<Sent>): seq<Record> {
    if sent == [] then [] else Flatten(sent[..|sent| - 1]) + sent[|sent| - 1].answers
  }

  /** The records that were not dropped, in order. */
  function Chosen(rs: seq<Record>, kept: seq<bool>): seq<Record>
    requires |rs| == |kept|
  {
    if rs == [] then [] else Chosen(rs[..|rs| - 1], kept[..|rs| - 1]) + if kept[|rs| - 1] then [rs[|rs| - 1]] else []
  }

  /** What the k-th packet of a run started with. */
  function StartOf(p: Contents, k: nat): Contents {
    if k == 0 then p else NewQuery(p.max)
  }

  /** Each packet but the last carries TC, each counts the answers it holds. */
  predicate PacketOK(p: Contents, k: nat, s: Sent) {
    Holds(StartOf(p, k), s.answers, s.packet) && s.ancount == |s.answers|
  }

  lemma FlattenOne(sent: seq<Sent>, s: Sent)
    ensures Flatten(sent + [s]) == Flatten(sent) + s.answers
  {
    assert (sent + [s])[..|sent|] == sent;
  }

  lemma ChosenOne(rs: seq<Record>, kept: seq<bool>, n: nat, k: bool)
    requires n < |rs| && |kept| == n
    ensures Chosen(rs[..n + 1], kept + [k]) == Chosen(rs[..n], kept) + if k then [rs[n]] else []
  {
    assert rs[..n + 1][..n] == rs[..n] && (kept + [k])[..n] == kept;
  }

  /** So far the answers are those that were not dropped, and only what fits no packet was dropped. */
  predicate Served(max: nat, known: seq<Record>, kept: seq<bool>, answers: seq<Record>) {
    && |kept| <= |known| && answers == Chosen(known[..|kept|], kept)
    && forall i :: 0 <= i < |kept| && !kept[i] ==> !FitsAlone(max, known[i])
  }

  lemma NothingServed(known: seq<Record>, max: nat)
    ensures Served(max, known, [], Flatten([]) + [])
  {
  }

  lemma OneMoreServed(max: nat, known: seq<Record>, kept: seq<bool>, answers: seq<Record>, k: bool)
    requires Served(max, known, kept, answers) && |kept| < |known| && (k || !FitsAlone(max, known[|kept|]))
    ensures Served(max, known, kept + [k], answers + if k then [known[|kept|]] else [])
    ensures !k ==> Served(max, known, kept + [k], answers)
  {
    ChosenOne(known, kept, |kept|, k);
    hide Chosen, FitsAlone;
    EmptySides(answers);
  }

  lemma AllServed(max: nat, known: seq<Record>, kept: seq<bool>, answers: seq<Record>)
    requires Served(max, known, kept, answers) && |kept| == |known|
    ensures answers == Chosen(known, kept)
    ensures forall i :: 0 <= i < |known| && !kept[i] ==> !FitsAlone(max, known[i])
  {
    hide Chosen, FitsAlone;
    assert known[..|known|] == known;
  }

  // ---------- A run under way ----------

  /** Packets were sent, all with TC, and the one under construction holds n answers so far. */
  predicate Underway(p0: Contents, sent: seq<Sent>, p: Contents, answers: seq<Record>, n: nat) {
    && Holds(StartOf(p0, |sent|), answers, p) && n == |answers|
    && forall k {:trigger sent[k]} :: 0 <= k < |sent| ==> PacketOK(p0, k, sent[k]) && sent[k].tc
  }

  lemma NothingSent(p0: Contents)
    ensures Underway(p0, [], p0, [], 0)
  {
    HoldsNothing(p0);
  }

  lemma OneMoreAnswer(p0: Contents, sent: seq<Sent>, p: Contents, answers: seq<Record>, n: nat, r: Record)
    requires Underway(p0, sent, p, answers, n) && Fits(p, Answer(r, false, 0))
    ensures Underway(p0, sent, Append(p, Answer(r, false, 0)), answers + [r], n + 1)
  {
    HoldsOneMore(StartOf(p0, |sent|), answers, p, r);
    hide Holds, Fits, Append;
  }

  lemma NextPacket(p0: Contents, sent: seq<Sent>, p: Contents, answers: seq<Record>, n: nat)
    requires Underway(p0, sent, p, answers, n)
    ensures var sent' := sent + [Sent(p, answers, n, true)];
            Underway(p0, sent', NewQuery(p0.max), [], 0) && Flatten(sent') == Flatten(sent) + answers
  {
    HoldsNothing(NewQuery(p0.max));
    FlattenOne(sent, Sent(p, answers, n, true));
    hide Holds, Flatten;
  }

  lemma LastPacket(p0: Contents, sent: seq<Sent>, p: Contents, answers: seq<Record>, n: nat)
    requires Underway(p0, sent, p, answers, n)
    ensures var sent' := sent + [Sent(p, answers, n, false)];
            && Flatten(sent') == Flatten(sent) + answers
            && forall k {:trigger sent'[k]} :: 0 <= k < |sent'| ==>
                 PacketOK(p0, k, sent'[k]) && sent'[k].tc == (k < |sent'| - 1)
  {
    FlattenOne(sent, Sent(p, answers, n, false));
    hide Holds, Flatten;
  }

  /** The inner loop: packets are sent until the record fits or the packet is empty. */
  method MakeRoom(p0: Contents, r: Record, p: Contents, answers: seq<Record>, n: nat, sent: seq<Sent>)
    returns (q: Contents, answers': seq<Record>, n': nat, sent': seq<Sent>, tooLarge: bool)
    requires Underway(p0, sent, p, answers, n)
    ensures Underway(p0, sent', q, answers', n')
    ensures Flatten(sent') + answers' == Flatten(sent) + answers
    ensures tooLarge ==> IsEmpty(q) && !Fits(q, Answer(r, false, 0))
    ensures !tooLarge ==> Fits(q, Answer(r, false, 0))
    ensures q == p || q == NewQuery(p0.max)
  {
    hide Underway, Fits, Append, Flatten;
    q, answers', n', sent', tooLarge := p, answers, n, sent, false;
    while !Fits(q, Answer(r, false, 0))
      invariant Underway(p0, sent', q, answers', n')
      invariant Flatten(sent') + answers' == Flatten(sent) + answers
      invariant q == p || q == NewQuery(p0.max)
      decreases !IsEmpty(q)
    {
      if IsEmpty(q) {
        tooLarge := true;
        break;
      }
      NextPacket(p0, sent', q, answers', n');
      sent' := sent' + [Sent(q, answers', n', true)];
      q, answers', n' := NewQuery(p0.max), [], 0;
    }
  }

  /** append_known_answers_and_send: kept[i] says whether the i-th known answer was sent. */
  method AppendKnownAnswersAndSend(known: seq<Record>, p0: Contents) returns (sent: seq<Sent>, kept: seq<bool>)
    requires !IsEmpty(p0)
    ensures sent != [] && |kept| == |known|
    ensures forall k {:trigger sent[k]} :: 0 <= k < |sent| ==>
              PacketOK(p0, k, sent[k]) && sent[k].tc == (k < |sent| - 1)
    ensures Flatten(sent) == Chosen(known, kept)
    ensures forall i :: 0 <= i < |known| && !kept[i] ==> !FitsAlone(p0.max, known[i])
  {
    var p, answers, n := p0, [], 0;
    sent, kept := [], [];
    NothingSent(p0);
    NothingServed(known, p0.max);
    hide Underway, Served, PacketOK, Fits, FitsAlone, NewQuery, Append, Flatten, Chosen;
    for i := 0 to |known|
      invariant Underway(p0, sent, p, answers, n) && |kept| == i
      invariant Served(p0.max, known, kept, Flatten(sent) + answers)
      invariant |p.bytes| >= HEADER_SIZE && p.max == p0.max && (IsEmpty(p) ==> p == NewQuery(p0.max))
    {
      var tooLarge;
      p, answers, n, sent, tooLarge := MakeRoom(p0, known[i], p, answers, n, sent);
      if tooLarge {
        TooLarge(p, known[i]);
        OneMoreServed(p0.max, known, kept, Flatten(sent) + answers, false);
        kept := kept + [false];
      } else {
        OneMoreAnswer(p0, sent, p, answers, n, known[i]);
        NotEmptyAfter(p, known[i]);
        Regroup(Flatten(sent), answers, [known[i]]);
        OneMoreServed(p0.max, known, kept, Flatten(sent) + answers, true);
        p, answers, n, kept := Append(p, Answer(known[i], false, 0)), answers + [known[i]], n + 1, kept + [true];
      }
    }
    LastPacket(p0, sent, p, answers, n);
    AllServed(p0.max, known, kept, Flatten(sent) + answers);
    sent := sent + [Sent(p, answers, n, false)];
  }

  lemma TooLarge(p: Contents, r: Record)
    requires p == NewQuery(p.max) && !Fits(p, Answer(r, false, 0))
    ensures !FitsAlone(p.max, r)
  {
  }

  lemma NotEmptyAfter(p: Contents, r: Record)
    requires Fits(p, Answer(r, false, 0)) && |p.bytes| >= HEADER_SIZE
    ensures |Append(p, Answer(r, false, 0)).bytes| > HEADER_SIZE
  {
    hide NameOut, DataOut;
  }

  lemma {:induction false} StartsLike(p: Contents, items: seq<Item>)
    ensures p.bytes <= AppendAll(p, items).bytes
    decreases |items|
  {
    hide ItemOut;
    if items != [] {
      StartsLike(Append(p, items[0]), items[1..]);
    }
  }

  /** Every packet after the first has the header of a query, with no field set, and no question before its answers. */
  lemma LaterPackets(p0: Contents, k: nat, s: Sent)
    requires 0 < k && PacketOK(p0, k, s)
    ensures [0, 0, 0, 0, 0, 0, 0, 0, 0, 0, 0, 0] <= s.packet.bytes
    ensures s.answers == [] ==> |s.packet.bytes| == 12
  {
    StartsLike(NewQuery(p0.max), Answers(s.answers));
  }

  /** Every packet sent is read back as the questions it started with, which only the first has, followed by exactly the
      answers it counts, whatever its header says. */
  lemma SentIsReadBack(p0: Contents, questions: seq<Item>, k: nat, s: Sent, bytes: Text)
    requires HEADER_SIZE <= p0.max && PacketOK(p0, k, s) && AllSurvive(questions + Answers(s.answers), LABELS_MAX)
    requires StartOf(p0, k) == AppendAll(NewQuery(p0.max), questions) && Kept(NewQuery(p0.max), questions) == questions
    requires SameBody(s.packet.bytes, bytes)
    ensures var items := questions + Answers(s.answers);
            ReadLike(bytes, HEADER_SIZE, items, LABELS_MAX) == Got(AllAsRead(items), |bytes|)
    ensures s.ancount == |s.answers|
  {
    hide AppendAll, Kept, ReadLike;
    AppendMore(NewQuery(p0.max), questions, Answers(s.answers));
    CodecRoundTrip(NewQuery(p0.max), questions + Answers(s.answers), bytes);
  }
}
