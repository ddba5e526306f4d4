/** avahi-common/timeval.c and avahi-core/timeeventq.c: points in time and the queue of pending events. */
module TimeEvents {
  import opened Bytes
  import opened PrioNodes
  import opened HeapOrder
  import PrioQueue

  const SECOND := 1_000_000

  datatype Timeval = Timeval(sec: int, usec: int)

  /** The point in time, in microseconds. */
  function Micros(t: Timeval): int {
    t.sec * 1_000_000 + t.usec
  }

  predicate Canonical(t: Timeval) {
    0 <= t.usec < 1_000_000
  }

  function Compare(a: Timeval, b: Timeval): (c: int) {
    if a.sec < b.sec then -1 else if a.sec > b.sec then 1
    else if a.usec < b.usec then -1 else if a.usec > b.usec then 1 else 0
  }

  function Diff(a: Timeval, b: Timeval): (d: int)
    ensures d == Micros(a) - Micros(b)
    decreases Compare(a, b) < 0
  {
    if Compare(a, b) < 0 then -Diff(b, a) else (a.sec - b.sec) * SECOND + a.usec - b.usec
  }

  /** C division truncates toward zero. */
  function TruncDiv(a: int, m: nat): int
    requires m > 0
  {
    if a >= 0 then a / m else -((-a) / m)
  }

  function TruncMod(a: int, m: nat): int
    requires m > 0
  {
    a - TruncDiv(a, m) * m
  }

  function Add(a: Timeval, usec: int): (r: Timeval)
    ensures Micros(r) == Micros(a) + usec
  {
    var u := usec + a.usec;
    if u < 0 then Timeval(a.sec - 1 + TruncDiv(u, SECOND), SECOND + TruncMod(u, SECOND))
    else Timeval(a.sec + TruncDiv(u, SECOND), TruncMod(u, SECOND))
  }

  /** On canonical times the comparison agrees with the time line. */
  lemma CompareIsDiff(a: Timeval, b: Timeval)
    requires Canonical(a) && Canonical(b)
    ensures Compare(a, b) < 0 <==> Diff(a, b) < 0
    ensures Compare(a, b) == 0 <==> Diff(a, b) == 0
    ensures Compare(a, b) == 0 <==> a == b
  {
    if a.sec < b.sec {
      assert Micros(a) < (a.sec + 1) * SECOND <= b.sec * SECOND <= Micros(b);
    } else if a.sec > b.sec {
      assert Micros(b) < (b.sec + 1) * SECOND <= a.sec * SECOND <= Micros(a);
    }
  }

  /** Adding keeps times canonical except when a negative amount lands on a whole second. */
  lemma AddCanonical(a: Timeval, usec: int)
    ensures Canonical(Add(a, usec)) <==> usec + a.usec >= 0 || (usec + a.usec) % SECOND != 0
  {
    var u := usec + a.usec;
    if u < 0 {
      assert TruncMod(u, SECOND) == -((-u) % SECOND);
      if u % SECOND == 0 {
        assert (-u) % SECOND == 0;
      } else {
        assert (-u) % SECOND != 0;
      }
    }
  }

  lemma AddMayLeaveAFullSecond()
    ensures Add(Timeval(5, 0), -SECOND) == Timeval(3, SECOND) && Compare(Timeval(4, 0), Timeval(3, SECOND)) != 0
  {
    assert TruncDiv(-SECOND, SECOND) == -1;
  }

  // ---------- The queue of events ----------

  /** A pending event; its identity is the node of the priority queue that holds it. */
  datatype Event = Event(expiry: Timeval, lastRun: Timeval, callback: nat)

  function EventCompare(a: Event, b: Event): int {
    if Compare(a.expiry, b.expiry) != 0 then Compare(a.expiry, b.expiry) else Compare(a.lastRun, b.lastRun)
  }

  lemma EventsAreOrdered()
    ensures TotalPreorder(EventCompare)
  {
  }

  class EventQueue {
    const prioq: PrioQueue.Queue<Event>
    var timeout: Option<Timeval>

    ghost function Pending(): set<Node<Event>>
      reads this, prioq
    {
      PrioQueue.NodeSet(prioq.nodes)
    }

    ghost predicate Ordered()
      reads this, prioq, prioq.ends, Pending()
    {
      prioq.Valid() && prioq.cmp == EventCompare
    }

    /** The timeout is armed for the event at the root. */
    ghost predicate Valid()
      reads this, prioq, prioq.ends, Pending()
    {
      && Ordered()
      && timeout == if prioq.ends.root == null then None else Some(prioq.ends.root.data.expiry)
    }

    constructor ()
      ensures Valid() && Pending() == {} && fresh(prioq) && fresh(prioq.ends)
    {
      EventsAreOrdered();
      prioq := new PrioQueue.Queue(EventCompare);
      timeout := None;
    }

    /** The armed timeout is the least pending expiry, and it is off exactly when nothing is pending. */
    lemma ArmedForTheLeast()
      requires Valid()
      ensures timeout == None <==> Pending() == {}
      ensures timeout.Some? ==> exists m :: m in Pending() && m.data.expiry == timeout.value
      ensures timeout.Some? ==> forall m :: m in Pending() ==> Compare(timeout.value, m.data.expiry) <= 0
    {
      hide HeapOrder.Heap, HeapOrder.TotalPreorder, PrioQueue.Places, PrioQueue.Levels;
      var root := prioq.ends.root;
      assert root == PrioQueue.At(prioq.nodes, 0);
      if root == null {
        assert prioq.nodes == [];
      } else {
        assert root in Pending();
        forall m | m in Pending() ensures Compare(root.data.expiry, m.data.expiry) <= 0 {
          prioq.RootHoldsMinimum(m);
        }
      }
    }

    /** update_timeout. */
    method UpdateTimeout()
      requires Ordered()
      modifies `timeout
      ensures Valid()
    {
      var e := prioq.ends.root;
      timeout := if e == null then None else Some(e.data.expiry);
    }

    /** avahi_time_event_new: without a time the event is due at once. */
    method New(timeval: Option<Timeval>, callback: nat) returns (e: Node<Event>)
      requires Valid()
      modifies `timeout, prioq, prioq.ends, Pending()
      ensures Valid() && fresh(e) && Pending() == old(Pending()) + {e}
      ensures e.data == Event(if timeval.Some? then timeval.value else Timeval(0, 0), Timeval(0, 0), callback)
      ensures forall m {:trigger m.data} :: m in old(Pending()) ==> m.data == old(m.data)
    {
      hide PrioQueue.Queue.Valid;
      var expiry := if timeval.Some? then timeval.value else Timeval(0, 0);
      e := prioq.Put(Event(expiry, Timeval(0, 0), callback));
      UpdateTimeout();
    }

    /** avahi_time_event_free. */
    method Free(e: Node<Event>)
      requires Valid() && e in Pending()
      modifies `timeout, prioq, prioq.ends, Pending()
      ensures Valid() && Pending() == old(Pending()) - {e}
      ensures forall m {:trigger m.data} :: m in old(Pending()) ==> m.data == old(m.data)
    {
      hide PrioQueue.Queue.Valid;
      prioq.Remove(e);
      UpdateTimeout();
    }

    /** Changes the data of one event and lets the priority queue move it. */
    method Change(e: Node<Event>, d: Event)
      requires Ordered() && e in Pending()
      modifies prioq, prioq.ends, Pending()
      ensures Ordered() && Pending() == old(Pending()) && e.data == d
      ensures forall m {:trigger m.data} :: m in Pending() && m != e ==> m.data == old(m.data)
    {
      hide PrioQueue.Tree, PrioQueue.Levels, PrioQueue.Places, HeapOrder.Heap, HeapOrder.Hole, HeapOrder.TotalPreorder;
      ghost var i :| 0 <= i < |prioq.nodes| && prioq.nodes[i] == e;
      ghost var ds := PrioQueue.DataOf(prioq.nodes);
      e.data := d;
      assert PrioQueue.DataOf(prioq.nodes) == ds[i := d];
      ChangedData(EventCompare, ds, i, d);
      prioq.Shuffle(e, i);
    }

    /** avahi_time_event_update. */
    method Update(e: Node<Event>, timeval: Timeval)
      requires Valid() && e in Pending()
      modifies `timeout, prioq, prioq.ends, Pending()
      ensures Valid() && Pending() == old(Pending()) && e.data == old(e.data).(expiry := timeval)
      ensures forall m {:trigger m.data} :: m in Pending() && m != e ==> m.data == old(m.data)
    {
      hide PrioQueue.Queue.Valid;
      Change(e, e.data.(expiry := timeval));
      UpdateTimeout();
    }

    /** expiration_event: the event whose callback runs, if any. One runs exactly when some event is due; it is due
        itself, no event is due strictly earlier, and of those due at the same time none ran less recently. */
    method Expire(now: Timeval) returns (ran: Node?<Event>)
      requires Valid()
      modifies `timeout, prioq, prioq.ends, Pending()
      ensures Valid() && Pending() == old(Pending())
      ensures ran == null ==> forall m :: m in Pending() ==> Compare(now, m.data.expiry) < 0
      ensures ran != null ==> ran in Pending() && Compare(now, ran.data.expiry) >= 0
      ensures ran != null ==> ran.data == old(ran.data).(lastRun := now)
      ensures ran != null ==> forall m :: m in Pending() ==>
                              && Compare(ran.data.expiry, old(m.data.expiry)) <= 0
                              && (m.data.expiry == ran.data.expiry ==>
                                    Compare(old(ran.data.lastRun), old(m.data.lastRun)) <= 0)
      ensures forall m {:trigger m.data} :: m in Pending() && m != ran ==> m.data == old(m.data)
    {
      hide PrioQueue.Queue.Valid;
      forall m | m in Pending()
        ensures prioq.ends.root != null && prioq.ends.root in Pending()
                && EventCompare(prioq.ends.root.data, m.data) <= 0
      {
        prioq.RootHoldsMinimum(m);
      }
      var e := prioq.ends.root;
      ran := null;
      if e != null && Compare(now, e.data.expiry) >= 0 {
        RootIsPending();
        Change(e, e.data.(lastRun := now));
        ran := e;
      }
      UpdateTimeout();
    }

    lemma RootIsPending()
      requires Ordered() && prioq.ends.root != null
      ensures prioq.ends.root in Pending()
    {
    }
  }
}
