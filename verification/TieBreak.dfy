/** avahi-core/server.c: simultaneous probing for one key (section 8.2 of RFC 6762).
    Follows the code's record order, in which a proper prefix of TXT or generic data is the greater one. */
module TieBreak {
  import opened Records
  import opened NameRelations
  import opened RecordOrder

  /** One of our own entries for the key of an incoming probe. */
  datatype LocalEntry = LocalEntry(record: Record, dead: bool, probing: bool)

  predicate AllComparable(entries: seq<LocalEntry>) {
    forall i {:trigger entries[i]} :: 0 <= i < |entries| ==> Comparable(entries[i].record)
  }

  predicate AllValid(records: seq<Record>) {
    forall i {:trigger records[i]} :: 0 <= i < |records| ==> ValidComparable(records[i])
  }

  predicate HasEqual(entries: seq<LocalEntry>, record: Record)
    requires AllComparable(entries) && Comparable(record)
  {
    exists i :: 0 <= i < |entries| && !entries[i].dead && RecordCompare(entries[i].record, record) == 0
  }

  predicate HasProbing(entries: seq<LocalEntry>, record: Record, sign: int)
    requires AllComparable(entries) && Comparable(record)
  {
    exists i :: 0 <= i < |entries| && !entries[i].dead && entries[i].probing
                && (RecordCompare(entries[i].record, record) > 0) == (sign > 0)
                && RecordCompare(entries[i].record, record) != 0
  }

  /** A probe makes us withdraw when it is not one of our own records, beats some record we probe for,
      and is beaten by none. */
  predicate Loses(entries: seq<LocalEntry>, record: Record)
    requires AllComparable(entries) && Comparable(record)
  {
    !HasEqual(entries, record) && !HasProbing(entries, record, 1) && HasProbing(entries, record, -1)
  }

  /** incoming_probe: the loop over the entries of the key. */
  method IncomingProbe(entries: seq<LocalEntry>, record: Record) returns (withdraw: bool)
    requires AllComparable(entries) && Comparable(record)
    ensures withdraw <==> Loses(entries, record)
  {
    hide RecordCompare, Comparable;
    var ours, won, lost, i := false, false, false, 0;
    while i < |entries|
      invariant 0 <= i <= |entries| && !ours
      invariant forall j :: 0 <= j < i && !entries[j].dead ==> RecordCompare(entries[j].record, record) != 0
      invariant won <==> exists j ::
                  0 <= j < i && !entries[j].dead && entries[j].probing && RecordCompare(entries[j].record, record) > 0
      invariant lost <==> exists j ::
                  0 <= j < i && !entries[j].dead && entries[j].probing && RecordCompare(entries[j].record, record) < 0
    {
      var e := entries[i];
      if !e.dead {
        var cmp := RecordCompare(e.record, record);
        if cmp == 0 {
          ours := true;
          break;
        } else if e.probing {
          if cmp > 0 { won := true; } else { lost := true; }
        }
      }
      i := i + 1;
    }
    return !ours && !won && lost;
  }

  // ---------- The protocol ----------

  /** Host i probes for records[i], all of one key; alive[i] until it has withdrawn. */
  predicate Contest(records: seq<Record>, alive: seq<bool>) {
    && |records| == |alive| > 0
    && AllValid(records)
    && (forall i, j :: 0 <= i < j < |records| ==>
          SameKey(records[i].key, records[j].key) && RecordCompare(records[i], records[j]) != 0)
  }

  /** The entry of one host, seen by incoming_probe. */
  function Seen(records: seq<Record>, alive: seq<bool>, j: nat): seq<LocalEntry>
    requires j < |records| == |alive|
  {
    [LocalEntry(records[j], !alive[j], true)]
  }

  /** The probe of host d.0, sent some time earlier, arrives at host d.1. */
  function Deliver(records: seq<Record>, alive: seq<bool>, d: (nat, nat)): seq<bool>
    requires Contest(records, alive) && d.0 < |records| && d.1 < |records|
  {
    if Loses(Seen(records, alive, d.1), records[d.0]) then alive[d.1 := false] else alive
  }

  predicate Between(ds: seq<(nat, nat)>, n: nat) {
    forall k :: 0 <= k < |ds| ==> ds[k].0 < n && ds[k].1 < n
  }

  function Run(records: seq<Record>, alive: seq<bool>, ds: seq<(nat, nat)>): (after: seq<bool>)
    requires Contest(records, alive) && Between(ds, |records|)
    ensures Contest(records, after)
    decreases |ds|
  {
    if ds == [] then alive else Run(records, Deliver(records, alive, ds[0]), ds[1..])
  }

  /** A host whose record is greater than every other. */
  predicate Wins(records: seq<Record>, w: nat)
    requires AllValid(records)
  {
    w < |records| && forall j :: 0 <= j < |records| && j != w ==> RecordCompare(records[w], records[j]) > 0
  }

  lemma CompareReversed(a: Record, b: Record)
    requires ValidComparable(a) && ValidComparable(b)
    ensures RecordCompare(b, a) == -RecordCompare(a, b)
  {
    TotalOrder(a, b, b);
  }

  lemma CompareChain(a: Record, b: Record, c: Record)
    requires ValidComparable(a) && ValidComparable(b) && ValidComparable(c)
    requires RecordCompare(a, b) > 0 && RecordCompare(b, c) > 0
    ensures RecordCompare(a, c) > 0
  {
    hide RecordCompare;
    TotalOrder(c, b, a);
    CompareReversed(a, b);
    CompareReversed(b, c);
    CompareReversed(a, c);
  }

  /** Among the first n hosts, one beats all the others. */
  lemma {:induction false} GreatestAmong(records: seq<Record>, alive: seq<bool>, n: nat) returns (w: nat)
    requires Contest(records, alive) && 1 <= n <= |records|
    ensures w < n && forall j :: 0 <= j < n && j != w ==> RecordCompare(records[w], records[j]) > 0
  {
    hide RecordCompare, Comparable, ValidData;
    if n == 1 {
      w := 0;
    } else {
      var v := GreatestAmong(records, alive, n - 1);
      assert RecordCompare(records[v], records[n - 1]) != 0;
      if RecordCompare(records[v], records[n - 1]) > 0 {
        w := v;
      } else {
        w := n - 1;
        CompareReversed(records[v], records[w]);
        forall j | 0 <= j < n && j != w ensures RecordCompare(records[w], records[j]) > 0 {
          if j != v {
            CompareChain(records[w], records[v], records[j]);
          }
        }
      }
    }
  }

  lemma {:induction false} WinnerSurvives(records: seq<Record>, alive: seq<bool>, ds: seq<(nat, nat)>, w: nat)
    requires Contest(records, alive) && Between(ds, |records|) && Wins(records, w) && alive[w]
    ensures Run(records, alive, ds)[w]
    decreases |ds|
  {
    hide RecordCompare, Comparable, ValidData;
    if ds != [] {
      if ds[0].1 == w {
        OneEntry(records, alive, w, records[ds[0].0]);
        CompareReversed(records[w], records[ds[0].0]);
      }
      WinnerSurvives(records, Deliver(records, alive, ds[0]), ds[1..], w);
    }
  }

  lemma OneEntry(records: seq<Record>, alive: seq<bool>, j: nat, r: Record)
    requires j < |records| == |alive| && Comparable(records[j]) && Comparable(r)
    ensures Loses(Seen(records, alive, j), r) <==> alive[j] && RecordCompare(records[j], r) < 0
  {
    hide RecordCompare, Comparable;
    var es := Seen(records, alive, j);
    if alive[j] && RecordCompare(records[j], r) < 0 {
      assert !es[0].dead && es[0].probing && RecordCompare(es[0].record, r) < 0;
    }
  }

  lemma {:induction false} DeadStaysDead(records: seq<Record>, alive: seq<bool>, ds: seq<(nat, nat)>, j: nat)
    requires Contest(records, alive) && Between(ds, |records|) && j < |records| && !alive[j]
    ensures !Run(records, alive, ds)[j]
    decreases |ds|
  {
    hide RecordCompare, Comparable, ValidData;
    if ds != [] {
      DeadStaysDead(records, Deliver(records, alive, ds[0]), ds[1..], j);
    }
  }

  lemma {:induction false} LoserWithdraws(records: seq<Record>, alive: seq<bool>, ds: seq<(nat, nat)>, w: nat, j: nat)
    requires Contest(records, alive) && Between(ds, |records|) && Wins(records, w)
    requires j < |records| && j != w && (w, j) in ds
    ensures !Run(records, alive, ds)[j]
    decreases |ds|
  {
    hide RecordCompare, Comparable, ValidData;
    if ds[0] == (w, j) {
      OneEntry(records, alive, j, records[w]);
      CompareReversed(records[w], records[j]);
      DeadStaysDead(records, Deliver(records, alive, ds[0]), ds[1..], j);
    } else {
      LoserWithdraws(records, Deliver(records, alive, ds[0]), ds[1..], w, j);
    }
  }

  /** Every pair of hosts has exchanged probes in both directions. */
  predicate AllExchanged(ds: seq<(nat, nat)>, n: nat) {
    forall i, j :: 0 <= i < n && 0 <= j < n && i != j ==> (i, j) in ds
  }

  /** Probes may arrive in any order, any number of times, even from hosts that have withdrawn since:
      one host never withdraws, and once all probes have been exchanged it is the only one left. */
  lemma ExactlyOneSurvives(records: seq<Record>, alive: seq<bool>) returns (w: nat)
    requires Contest(records, alive) && forall i :: 0 <= i < |alive| ==> alive[i]
    ensures w < |records|
    ensures forall ds | Between(ds, |records|) :: Run(records, alive, ds)[w]
    ensures forall ds | Between(ds, |records|) && AllExchanged(ds, |records|) ::
              forall j :: 0 <= j < |records| ==> (Run(records, alive, ds)[j] <==> j == w)
  {
    hide RecordCompare, Comparable, ValidData, Run;
    w := GreatestAmong(records, alive, |records|);
    forall ds | Between(ds, |records|) ensures Run(records, alive, ds)[w] {
      WinnerSurvives(records, alive, ds, w);
    }
    forall ds, j | Between(ds, |records|) && AllExchanged(ds, |records|) && 0 <= j < |records|
      ensures Run(records, alive, ds)[j] <==> j == w
    {
      if j != w {
        LoserWithdraws(records, alive, ds, w, j);
      }
    }
  }
}
