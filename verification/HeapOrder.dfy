/** avahi-core/prioq.c: heap order on the sequence of data in level order, and what one exchange of a
    node with its parent does to it. */
module HeapOrder {

  /** The comparison functions avahi_prio_queue_new is given. */
  ghost predicate TotalPreorder<T(!new)>(cmp: (T, T) -> int) {
    && (forall a, b :: cmp(a, b) >= 0 ==> cmp(b, a) <= 0)
    && (forall a, b, c :: cmp(a, b) <= 0 && cmp(b, c) <= 0 ==> cmp(a, c) <= 0)
  }

  function Parent(i: nat): nat
    requires i > 0
  {
    (i - 1) / 2
  }

  predicate InOrder<T>(cmp: (T, T) -> int, ds: seq<T>, i: nat)
    requires i < |ds|
  {
    i == 0 || cmp(ds[Parent(i)], ds[i]) <= 0
  }

  predicate Heap<T>(cmp: (T, T) -> int, ds: seq<T>) {
    forall i {:trigger InOrder(cmp, ds, i)} :: 0 <= i < |ds| ==> InOrder(cmp, ds, i)
  }

  /** In order except between i and its parent and between i and its children; the children are still in
      order with the parent of i. */
  predicate Hole<T>(cmp: (T, T) -> int, ds: seq<T>, i: nat)
    requires i < |ds|
  {
    && (forall k {:trigger InOrder(cmp, ds, k)} :: 0 <= k < |ds| && k != i && (k == 0 || Parent(k) != i) ==>
          InOrder(cmp, ds, k))
    && (forall k {:trigger ds[k]} :: 0 < k < |ds| && Parent(k) == i && i > 0 ==> cmp(ds[Parent(i)], ds[k]) <= 0)
  }

  predicate ChildrenInOrder<T>(cmp: (T, T) -> int, ds: seq<T>, i: nat) {
    forall k {:trigger InOrder(cmp, ds, k)} :: 0 < k < |ds| && Parent(k) == i ==> InOrder(cmp, ds, k)
  }

  function Exchanged<T>(ds: seq<T>, i: nat, j: nat): seq<T>
    requires i < |ds| && j < |ds|
  {
    ds[i := ds[j]][j := ds[i]]
  }

  lemma Chain<T(!new)>(cmp: (T, T) -> int, a: T, b: T, c: T)
    requires TotalPreorder(cmp) && cmp(a, b) <= 0 && cmp(b, c) <= 0
    ensures cmp(a, c) <= 0
  {
  }

  lemma Converse<T(!new)>(cmp: (T, T) -> int, a: T, b: T)
    requires TotalPreorder(cmp) && cmp(a, b) >= 0
    ensures cmp(b, a) <= 0
  {
  }

  /** Replacing the data of one node in a heap leaves a hole there. */
  lemma ChangedData<T(!new)>(cmp: (T, T) -> int, ds: seq<T>, i: nat, d: T)
    requires TotalPreorder(cmp) && Heap(cmp, ds) && i < |ds|
    ensures Hole(cmp, ds[i := d], i)
  {
    hide TotalPreorder;
    var es := ds[i := d];
    forall k {:trigger InOrder(cmp, es, k)} | 0 <= k < |es| && k != i && (k == 0 || Parent(k) != i)
      ensures InOrder(cmp, es, k)
    {
      assert InOrder(cmp, ds, k);
    }
    forall k {:trigger es[k]} | 0 < k < |es| && Parent(k) == i && i > 0 ensures cmp(es[Parent(i)], es[k]) <= 0 {
      assert InOrder(cmp, ds, k) && InOrder(cmp, ds, i);
      Chain(cmp, ds[Parent(i)], ds[i], ds[k]);
    }
  }

  /** So does putting data at the end. */
  lemma AppendedData<T(!new)>(cmp: (T, T) -> int, ds: seq<T>, d: T)
    requires Heap(cmp, ds)
    ensures Hole(cmp, ds + [d], |ds|)
  {
    var es := ds + [d];
    forall k {:trigger InOrder(cmp, es, k)} | 0 <= k < |ds| ensures InOrder(cmp, es, k) {
      assert InOrder(cmp, ds, k);
    }
  }

  lemma HeapPrefix<T(!new)>(cmp: (T, T) -> int, ds: seq<T>, d: T)
    requires Heap(cmp, ds + [d])
    ensures Heap(cmp, ds)
  {
    forall k {:trigger InOrder(cmp, ds, k)} | 0 <= k < |ds| ensures InOrder(cmp, ds, k) {
      assert InOrder(cmp, ds + [d], k);
    }
  }

  lemma FilledHole<T(!new)>(cmp: (T, T) -> int, ds: seq<T>, i: nat)
    requires i < |ds| && Hole(cmp, ds, i) && InOrder(cmp, ds, i) && ChildrenInOrder(cmp, ds, i)
    ensures Heap(cmp, ds)
  {
  }

  /** One step up: the hole moves to the parent, and everything below is in order. */
  lemma StepUp<T(!new)>(cmp: (T, T) -> int, ds: seq<T>, i: nat)
    requires TotalPreorder(cmp) && 0 < i < |ds| && Hole(cmp, ds, i) && cmp(ds[Parent(i)], ds[i]) > 0
    ensures var es := Exchanged(ds, i, Parent(i));
            Hole(cmp, es, Parent(i)) && ChildrenInOrder(cmp, es, Parent(i))
  {
    hide TotalPreorder;
    var p := Parent(i);
    var es := Exchanged(ds, i, p);
    Converse(cmp, ds[p], ds[i]);
    forall k {:trigger InOrder(cmp, es, k)} | 0 < k < |es| && Parent(k) == p ensures InOrder(cmp, es, k) {
      if k != i {
        assert InOrder(cmp, ds, k);
        Chain(cmp, ds[i], ds[p], ds[k]);
      }
    }
    forall k {:trigger InOrder(cmp, es, k)} | 0 <= k < |es| && k != p && (k == 0 || Parent(k) != p)
      ensures InOrder(cmp, es, k)
    {
      if k > 0 && Parent(k) == i {
        assert ds[k] == es[k];
      } else {
        assert InOrder(cmp, ds, k);
      }
    }
    forall k {:trigger es[k]} | 0 < k < |es| && Parent(k) == p && p > 0 ensures cmp(es[Parent(p)], es[k]) <= 0 {
      assert InOrder(cmp, ds, p);
      if k != i {
        assert InOrder(cmp, ds, k);
        Chain(cmp, ds[Parent(p)], ds[p], ds[k]);
      }
    }
  }

  /** The smaller of the children of i. */
  predicate SmallestChild<T>(cmp: (T, T) -> int, ds: seq<T>, i: nat, m: nat) {
    && 0 < m < |ds| && Parent(m) == i
    && forall k {:trigger ds[k]} :: 0 < k < |ds| && Parent(k) == i ==> cmp(ds[m], ds[k]) <= 0
  }

  lemma SmallestIsInOrder<T(!new)>(cmp: (T, T) -> int, ds: seq<T>, i: nat, m: nat)
    requires TotalPreorder(cmp) && i < |ds| && SmallestChild(cmp, ds, i, m) && cmp(ds[i], ds[m]) <= 0
    ensures ChildrenInOrder(cmp, ds, i)
  {
    hide TotalPreorder;
    forall k {:trigger InOrder(cmp, ds, k)} | 0 < k < |ds| && Parent(k) == i ensures InOrder(cmp, ds, k) {
      Chain(cmp, ds[i], ds[m], ds[k]);
    }
  }

  /** One step down: the hole moves to the smaller child, and is in order with its new parent. */
  lemma StepDown<T(!new)>(cmp: (T, T) -> int, ds: seq<T>, i: nat, m: nat)
    requires TotalPreorder(cmp) && i < |ds| && Hole(cmp, ds, i) && InOrder(cmp, ds, i)
    requires SmallestChild(cmp, ds, i, m) && cmp(ds[i], ds[m]) > 0
    ensures var es := Exchanged(ds, i, m); Hole(cmp, es, m) && InOrder(cmp, es, m)
  {
    hide TotalPreorder;
    var es := Exchanged(ds, i, m);
    Converse(cmp, ds[i], ds[m]);
    forall k {:trigger InOrder(cmp, es, k)} | 0 <= k < |es| && k != m && (k == 0 || Parent(k) != m)
      ensures InOrder(cmp, es, k)
    {
      if k > 0 && Parent(k) == i {
        assert es[k] == ds[k];
      } else if k == i && i > 0 {
        assert es[m] == ds[i] && cmp(ds[Parent(i)], ds[m]) <= 0;
      } else {
        assert InOrder(cmp, ds, k);
      }
    }
    forall k {:trigger es[k]} | 0 < k < |es| && Parent(k) == m && m > 0 ensures cmp(es[Parent(m)], es[k]) <= 0 {
      assert InOrder(cmp, ds, k);
    }
  }

  lemma ReflexiveOrder<T(!new)>(cmp: (T, T) -> int, a: T)
    requires TotalPreorder(cmp)
    ensures cmp(a, a) <= 0
  {
    if cmp(a, a) > 0 {
      Converse(cmp, a, a);
    }
  }

  /** The first element of a heap is a minimum. */
  lemma {:induction false} RootIsMinimum<T(!new)>(cmp: (T, T) -> int, ds: seq<T>, i: nat)
    requires TotalPreorder(cmp) && Heap(cmp, ds) && i < |ds|
    ensures cmp(ds[0], ds[i]) <= 0
    decreases i
  {
    hide TotalPreorder;
    if i == 0 {
      ReflexiveOrder(cmp, ds[0]);
    } else {
      RootIsMinimum(cmp, ds, Parent(i));
      assert InOrder(cmp, ds, i);
      Chain(cmp, ds[0], ds[Parent(i)], ds[i]);
    }
  }
}
