/** avahi-core/server.c, handle_conflict: what an incoming record means for our own entries of its key (section 9 of
    RFC 6762). */
module Conflict {
  import opened Bytes
  import opened Records
  import opened NameRelations
  import opened Identity

  /** One of our own entries for the key, and its state on the interface the record came from. */
  datatype Own = Own(record: Rec, dead: bool, unique: bool, registered: bool, probing: bool)

  /** The record is taken as it is; answered with our own records; makes us give up the record set; or makes entry k
      start from the beginning. Only in the first case it is valid. */
  datatype Verdict = Accepted | Refreshed | Withdrawn | Restarted(k: nat)

  /** A live entry can be in conflict when it or the record is unique. */
  predicate Concerned(e: Own, unique: bool) {
    !e.dead && (e.unique || unique)
  }

  predicate Same(e: Own, r: Rec) {
    Id(e.record) == Id(r)
  }

  /** Entry m is the first concerned one that is equal to the record. */
  predicate IsOurs(entries: seq<Own>, r: Rec, unique: bool, m: nat) {
    && m < |entries| && Concerned(entries[m], unique) && Same(entries[m], r)
    && forall j :: 0 <= j < m && Concerned(entries[j], unique) ==> !Same(entries[j], r)
  }

  predicate NoneOurs(entries: seq<Own>, r: Rec, unique: bool) {
    forall j :: 0 <= j < |entries| && Concerned(entries[j], unique) ==> !Same(entries[j], r)
  }

  /** We are about to claim what somebody else has. */
  predicate Claiming(e: Own, unique: bool) {
    Concerned(e, unique) && e.probing && !e.registered
  }

  /** We have claimed what somebody else claims. */
  predicate Claimed(e: Own, unique: bool) {
    Concerned(e, unique) && e.registered
  }

  /** The verdict on a record that is not a goodbye: an equal record of ours decides alone; otherwise any entry we probe
      for makes us withdraw, and failing that the last registered one starts again. */
  ghost predicate Judged(entries: seq<Own>, r: Rec, unique: bool, v: Verdict) {
    && (forall m {:trigger entries[m]} :: 0 <= m < |entries| && IsOurs(entries, r, unique, m) ==>
          v == if r.ttl <= entries[m].record.ttl / 2 && entries[m].registered then Refreshed else Accepted)
    && (NoneOurs(entries, r, unique) ==>
          && (v == Withdrawn <==> exists j :: 0 <= j < |entries| && Claiming(entries[j], unique))
          && (v == Accepted <==>
              forall j :: 0 <= j < |entries| ==> !Claiming(entries[j], unique) && !Claimed(entries[j], unique))
          && (v.Restarted? ==>
                && v.k < |entries| && Claimed(entries[v.k], unique)
                && forall j :: v.k < j < |entries| ==> !Claimed(entries[j], unique))
          && v != Refreshed)
  }

  /** A goodbye for one of our records is answered; any other is nothing to us. */
  method HandleGoodbye(entries: seq<Own>, r: Rec) returns (v: Verdict)
    ensures v == Refreshed || v == Accepted
    ensures v == Refreshed <==> exists j :: 0 <= j < |entries| && !entries[j].dead && Same(entries[j], r)
  {
    hide Id, SameRecord;
    for i := 0 to |entries|
      invariant forall j :: 0 <= j < i ==> entries[j].dead || !Same(entries[j], r)
    {
      SameRecordSameId(entries[i].record, r);
      if !entries[i].dead && SameRecord(entries[i].record, r) {
        assert Same(entries[i], r);
        return Refreshed;
      }
    }
    return Accepted;
  }

  /** What the loop knows after i entries, none of them ours. */
  ghost predicate SoFar(entries: seq<Own>, r: Rec, unique: bool, i: nat, conflicting: Option<nat>, withdraw: bool) {
    && i <= |entries|
    && (forall j :: 0 <= j < i && Concerned(entries[j], unique) ==> !Same(entries[j], r))
    && (withdraw <==> exists j :: 0 <= j < i && Claiming(entries[j], unique))
    && (conflicting.None? ==> forall j :: 0 <= j < i ==> !Claimed(entries[j], unique))
    && (conflicting.Some? ==>
          && conflicting.value < i && Claimed(entries[conflicting.value], unique)
          && forall j :: conflicting.value < j < i ==> !Claimed(entries[j], unique))
  }

  lemma OneMore(entries: seq<Own>, r: Rec, unique: bool, i: nat, conflicting: Option<nat>, withdraw: bool)
    requires SoFar(entries, r, unique, i, conflicting, withdraw) && i < |entries|
    requires Concerned(entries[i], unique) ==> !Same(entries[i], r)
    ensures var last := if Claimed(entries[i], unique) then Some(i) else conflicting;
            SoFar(entries, r, unique, i + 1, last, withdraw || Claiming(entries[i], unique))
  {
    hide Same, Claimed, Claiming, Concerned;
  }

  lemma AllSeen(entries: seq<Own>, r: Rec, unique: bool, conflicting: Option<nat>, withdraw: bool)
    requires SoFar(entries, r, unique, |entries|, conflicting, withdraw)
    ensures var v := if withdraw then Withdrawn
                     else if conflicting.Some? then Restarted(conflicting.value) else Accepted;
            Judged(entries, r, unique, v)
  {
    hide Same, Claimed, Claiming, Concerned;
  }

  lemma NotBefore(entries: seq<Own>, r: Rec, unique: bool, i: nat, conflicting: Option<nat>, withdraw: bool)
    requires SoFar(entries, r, unique, i, conflicting, withdraw) && i < |entries| && Concerned(entries[i], unique)
             && Same(entries[i], r)
    ensures IsOurs(entries, r, unique, i)
  {
    hide Same, Claimed, Claiming, Concerned;
  }

  /** The loop of handle_conflict for a record that is not a goodbye. */
  method HandleRecord(entries: seq<Own>, r: Rec, unique: bool) returns (v: Verdict)
    ensures Judged(entries, r, unique, v)
  {
    var conflicting: Option<nat>, withdraw := None, false;
    hide Id, SameRecord, SoFar, Judged;
    assert SoFar(entries, r, unique, 0, None, false) by { NothingSeen(entries, r, unique); }
    for i := 0 to |entries|
      invariant SoFar(entries, r, unique, i, conflicting, withdraw)
    {
      var e := entries[i];
      SameRecordSameId(e.record, r);
      if !e.dead && (e.unique || unique) && SameRecord(e.record, r) {
        NotBefore(entries, r, unique, i, conflicting, withdraw);
        v := if r.ttl <= e.record.ttl / 2 && e.registered then Refreshed else Accepted;
        OnlyOurs(entries, r, unique, i, v);
        return;
      }
      OneMore(entries, r, unique, i, conflicting, withdraw);
      if e.dead || (!e.unique && !unique) {
        continue;
      }
      if e.registered {
        conflicting := Some(i);
      } else if e.probing {
        withdraw := true;
      }
    }
    AllSeen(entries, r, unique, conflicting, withdraw);
    return if withdraw then Withdrawn else if conflicting.Some? then Restarted(conflicting.value) else Accepted;
  }

  lemma NothingSeen(entries: seq<Own>, r: Rec, unique: bool)
    ensures SoFar(entries, r, unique, 0, None, false)
  {
  }

  lemma OnlyOurs(entries: seq<Own>, r: Rec, unique: bool, m: nat, v: Verdict)
    requires IsOurs(entries, r, unique, m)
    requires v == if r.ttl <= entries[m].record.ttl / 2 && entries[m].registered then Refreshed else Accepted
    ensures Judged(entries, r, unique, v)
  {
    hide Same;
    forall n | 0 <= n < |entries| && IsOurs(entries, r, unique, n) ensures n == m {
      assert Concerned(entries[n], unique) && Same(entries[n], r);
    }
  }

  /** handle_conflict: whether the record is valid, and what to do about our own. */
  method HandleConflict(entries: seq<Own>, r: Rec, unique: bool) returns (v: Verdict)
    ensures r.ttl == 0 ==>
              (v == Refreshed <==> exists j :: 0 <= j < |entries| && !entries[j].dead && Same(entries[j], r))
    ensures r.ttl == 0 ==> v == Refreshed || v == Accepted
    ensures r.ttl > 0 ==> Judged(entries, r, unique, v)
  {
    hide Judged, Same;
    if r.ttl == 0 {
      v := HandleGoodbye(entries, r);
    } else {
      v := HandleRecord(entries, r, unique);
    }
  }
}
