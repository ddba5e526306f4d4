/** avahi-core/prioq.c: the priority queue, a complete binary tree of linked nodes. Its abstract value is
    the sequence of its nodes in level order. */
module PrioQueue {
  import opened PrioNodes
  import opened HeapOrder

  // ---------- The links of a complete tree in level order ----------

  ghost function NodeSet<T>(nodes: seq<Node<T>>): set<Node<T>> {
    set n | n in nodes
  }

  ghost function At<T>(nodes: seq<Node<T>>, i: int): Node?<T> {
    if 0 <= i < |nodes| then nodes[i] else null
  }

  ghost predicate Distinct<T>(nodes: seq<Node<T>>) {
    forall i, j :: 0 <= i < j < |nodes| ==> nodes[i] != nodes[j]
  }

  ghost predicate TreeAt<T>(nodes: seq<Node<T>>, k: Links<T>, i: nat)
    requires Covers(NodeSet(nodes), k) && i < |nodes|
  {
    && k.left[nodes[i]] == At(nodes, 2 * i + 1)
    && k.right[nodes[i]] == At(nodes, 2 * i + 2)
    && k.parent[nodes[i]] == (if i == 0 then null else nodes[Parent(i)])
  }

  ghost predicate TreeShape<T>(nodes: seq<Node<T>>, k: Links<T>)
    requires Covers(NodeSet(nodes), k)
  {
    forall i {:trigger TreeAt(nodes, k, i)} :: 0 <= i < |nodes| ==> TreeAt(nodes, k, i)
  }

  ghost predicate SpansRow<T>(nodes: seq<Node<T>>, r: Row<T>) {
    r.next.Keys == r.prev.Keys == NodeSet(nodes)
  }

  ghost predicate RowAt<T>(nodes: seq<Node<T>>, r: Row<T>, i: nat)
    requires SpansRow(nodes, r) && i < |nodes|
  {
    r.next[nodes[i]] == At(nodes, i + 1) && r.prev[nodes[i]] == At(nodes, i - 1)
  }

  ghost predicate RowShape<T>(nodes: seq<Node<T>>, r: Row<T>)
    requires SpansRow(nodes, r)
  {
    forall i {:trigger RowAt(nodes, r, i)} :: 0 <= i < |nodes| ==> RowAt(nodes, r, i)
  }

  lemma ChildLinks<T>(nodes: seq<Node<T>>, k: Links<T>, i: nat)
    requires Covers(NodeSet(nodes), k) && TreeShape(nodes, k) && Distinct(nodes) && i < |nodes|
    ensures var n, s := nodes[i], NodeSet(nodes);
            && (k.left[n] != null ==> k.left[n] in s && k.parent[k.left[n]] == n)
            && (k.right[n] != null ==> k.right[n] in s && k.parent[k.right[n]] == n && k.right[n] != k.left[n])
  {
    assert TreeAt(nodes, k, i);
    if 2 * i + 1 < |nodes| {
      assert TreeAt(nodes, k, 2 * i + 1);
    }
    if 2 * i + 2 < |nodes| {
      assert TreeAt(nodes, k, 2 * i + 2);
    }
  }

  lemma ParentLink<T>(nodes: seq<Node<T>>, k: Links<T>, i: nat)
    requires Covers(NodeSet(nodes), k) && TreeShape(nodes, k) && i < |nodes|
    ensures var n, s := nodes[i], NodeSet(nodes);
            k.parent[n] != null ==> k.parent[n] in s && (k.left[k.parent[n]] == n || k.right[k.parent[n]] == n)
  {
    assert TreeAt(nodes, k, i);
    if i > 0 {
      assert TreeAt(nodes, k, Parent(i));
      assert i == 2 * Parent(i) + 1 || i == 2 * Parent(i) + 2;
    }
  }

  lemma TreeShapeLinks<T>(nodes: seq<Node<T>>, k: Links<T>)
    requires Covers(NodeSet(nodes), k) && TreeShape(nodes, k) && Distinct(nodes)
    ensures TreeLinks(NodeSet(nodes), k)
  {
    hide TreeShape, Distinct;
    forall n | n in nodes
      ensures k.left[n] != null ==> k.left[n] in nodes && k.parent[k.left[n]] == n
      ensures k.right[n] != null ==> k.right[n] in nodes && k.parent[k.right[n]] == n && k.right[n] != k.left[n]
      ensures k.parent[n] != null ==> k.parent[n] in nodes && (k.left[k.parent[n]] == n || k.right[k.parent[n]] == n)
    {
      var i :| 0 <= i < |nodes| && nodes[i] == n;
      ChildLinks(nodes, k, i);
      ParentLink(nodes, k, i);
    }
  }

  lemma RowShapeLinks<T>(nodes: seq<Node<T>>, r: Row<T>)
    requires SpansRow(nodes, r) && RowShape(nodes, r)
    ensures ListLinks(NodeSet(nodes), r)
  {
    var s := NodeSet(nodes);
    forall n {:trigger r.next[n]} | n in s && r.next[n] != null ensures r.next[n] in s && r.prev[r.next[n]] == n {
      var i :| 0 <= i < |nodes| && nodes[i] == n;
      assert RowAt(nodes, r, i) && RowAt(nodes, r, i + 1);
    }
    forall n {:trigger r.prev[n]} | n in s && r.prev[n] != null ensures r.prev[n] in s && r.next[r.prev[n]] == n {
      var i :| 0 <= i < |nodes| && nodes[i] == n;
      assert RowAt(nodes, r, i) && RowAt(nodes, r, i - 1);
    }
  }

  // ---------- Exchanging two nodes permutes the sequence ----------

  lemma ExchangedNodes<T>(nodes: seq<Node<T>>, i: nat, j: nat)
    requires i < |nodes| && j < |nodes| && i != j && Distinct(nodes)
    ensures NodeSet(Exchanged(nodes, i, j)) == NodeSet(nodes) && Distinct(Exchanged(nodes, i, j))
    ensures forall m: int {:trigger At(nodes, m)} ::
              At(Exchanged(nodes, i, j), m) == Swap(nodes[i], nodes[j], At(nodes, m))
  {
    var ms := Exchanged(nodes, i, j);
    forall n | n in nodes ensures n in ms {
      var m :| 0 <= m < |nodes| && nodes[m] == n;
      assert n == ms[if m == i then j else if m == j then i else m];
    }
  }

  lemma TreeShapeSwapped<T>(nodes: seq<Node<T>>, k0: Links<T>, k1: Links<T>, i: nat, j: nat)
    requires i < |nodes| && j < |nodes| && i != j && Distinct(nodes)
    requires Covers(NodeSet(nodes), k0) && Covers(NodeSet(nodes), k1) && TreeShape(nodes, k0)
    requires TreeSwapped(NodeSet(nodes), k0, k1, nodes[i], nodes[j])
    requires NodeSet(Exchanged(nodes, i, j)) == NodeSet(nodes)
    ensures TreeShape(Exchanged(nodes, i, j), k1)
  {
    var ms := Exchanged(nodes, i, j);
    ExchangedNodes(nodes, i, j);
    forall m {:trigger TreeAt(ms, k1, m)} | 0 <= m < |ms| ensures TreeAt(ms, k1, m) {
      assert TreeAt(nodes, k0, m);
      var n := ms[m];
      assert Swap(nodes[i], nodes[j], n) == nodes[m];
      assert At(ms, 2 * m + 1) == Swap(nodes[i], nodes[j], At(nodes, 2 * m + 1));
      assert At(ms, 2 * m + 2) == Swap(nodes[i], nodes[j], At(nodes, 2 * m + 2));
      if m > 0 {
        assert At(ms, Parent(m)) == Swap(nodes[i], nodes[j], At(nodes, Parent(m)));
      }
    }
  }

  lemma RowShapeSwapped<T>(nodes: seq<Node<T>>, r0: Row<T>, r1: Row<T>, i: nat, j: nat)
    requires i < |nodes| && j < |nodes| && i != j && Distinct(nodes)
    requires SpansRow(nodes, r0) && SpansRow(nodes, r1) && RowShape(nodes, r0)
    requires RowSwapped(NodeSet(nodes), r0, r1, nodes[i], nodes[j])
    requires NodeSet(Exchanged(nodes, i, j)) == NodeSet(nodes)
    ensures RowShape(Exchanged(nodes, i, j), r1)
  {
    var ms := Exchanged(nodes, i, j);
    ExchangedNodes(nodes, i, j);
    forall m {:trigger RowAt(ms, r1, m)} | 0 <= m < |ms| ensures RowAt(ms, r1, m) {
      assert RowAt(nodes, r0, m);
      assert Swap(nodes[i], nodes[j], ms[m]) == nodes[m];
      assert At(ms, m + 1) == Swap(nodes[i], nodes[j], At(nodes, m + 1));
      assert At(ms, m - 1) == Swap(nodes[i], nodes[j], At(nodes, m - 1));
    }
  }

  // ---------- Appending and dropping the last node ----------

  /** The tree links after node n has been hung below its parent. */
  ghost predicate Hung<T>(nodes: seq<Node<T>>, k0: Links<T>, n: Node<T>, k1: Links<T>)
    requires n !in nodes && Covers(NodeSet(nodes), k0) && Covers(NodeSet(nodes + [n]), k1)
  {
    var i := |nodes|;
    && k1.left[n] == null && k1.right[n] == null && k1.parent[n] == (if i == 0 then null else nodes[Parent(i)])
    && (forall m {:trigger k1.parent[m]} :: m in nodes ==> k1.parent[m] == k0.parent[m])
    && (forall m {:trigger k1.left[m]} :: m in nodes ==>
          k1.left[m] == (if i % 2 == 1 && m == nodes[Parent(i)] then n else k0.left[m]))
    && (forall m {:trigger k1.right[m]} :: m in nodes ==>
          k1.right[m] == (if i > 0 && i % 2 == 0 && m == nodes[Parent(i)] then n else k0.right[m]))
  }

  lemma LastChild(i: nat, p: nat)
    requires i < p
    ensures 2 * i + 1 == p <==> p % 2 == 1 && i == Parent(p)
    ensures 2 * i + 2 == p <==> p % 2 == 0 && i == Parent(p)
    ensures Parent(p) < p
  {
  }

  lemma HungLeft<T>(nodes: seq<Node<T>>, k0: Links<T>, n: Node<T>, k1: Links<T>, i: nat)
    requires n !in nodes && Distinct(nodes) && Covers(NodeSet(nodes), k0) && Covers(NodeSet(nodes + [n]), k1)
    requires Hung(nodes, k0, n, k1) && i < |nodes| && k0.left[nodes[i]] == At(nodes, 2 * i + 1)
    ensures k1.left[nodes[i]] == At(nodes + [n], 2 * i + 1)
  {
    LastChild(i, |nodes|);
    assert nodes[i] in nodes && nodes[Parent(|nodes|)] in nodes;
  }

  lemma HungRight<T>(nodes: seq<Node<T>>, k0: Links<T>, n: Node<T>, k1: Links<T>, i: nat)
    requires n !in nodes && Distinct(nodes) && Covers(NodeSet(nodes), k0) && Covers(NodeSet(nodes + [n]), k1)
    requires Hung(nodes, k0, n, k1) && i < |nodes| && k0.right[nodes[i]] == At(nodes, 2 * i + 2)
    ensures k1.right[nodes[i]] == At(nodes + [n], 2 * i + 2)
  {
    LastChild(i, |nodes|);
    assert nodes[i] in nodes && nodes[Parent(|nodes|)] in nodes;
  }

  lemma HungParent<T>(nodes: seq<Node<T>>, k0: Links<T>, n: Node<T>, k1: Links<T>, i: nat)
    requires n !in nodes && Covers(NodeSet(nodes), k0) && Covers(NodeSet(nodes + [n]), k1)
    requires Hung(nodes, k0, n, k1) && i < |nodes|
    ensures (nodes + [n])[i] == nodes[i] && nodes[i] in k0.parent && nodes[i] in k1.parent
    ensures k1.parent[nodes[i]] == k0.parent[nodes[i]]
  {
    assert nodes[i] in nodes && nodes[i] in nodes + [n];
  }

  lemma HungAt<T>(nodes: seq<Node<T>>, k0: Links<T>, n: Node<T>, k1: Links<T>, i: nat)
    requires n !in nodes && Distinct(nodes) && Covers(NodeSet(nodes), k0) && Covers(NodeSet(nodes + [n]), k1)
    requires Hung(nodes, k0, n, k1) && i < |nodes| && TreeAt(nodes, k0, i)
    ensures TreeAt(nodes + [n], k1, i)
  {
    hide Hung, Distinct, Covers, NodeSet;
    HungParent(nodes, k0, n, k1, i);
    HungLeft(nodes, k0, n, k1, i);
    HungRight(nodes, k0, n, k1, i);
  }

  lemma HungShape<T>(nodes: seq<Node<T>>, k0: Links<T>, n: Node<T>, k1: Links<T>)
    requires n !in nodes && Distinct(nodes) && Covers(NodeSet(nodes), k0) && Covers(NodeSet(nodes + [n]), k1)
    requires TreeShape(nodes, k0) && Hung(nodes, k0, n, k1)
    ensures TreeShape(nodes + [n], k1)
  {
    var ms := nodes + [n];
    forall i {:trigger TreeAt(ms, k1, i)} | 0 <= i < |ms| ensures TreeAt(ms, k1, i) {
      hide Distinct;
      if i < |nodes| {
        hide Hung, TreeAt;
        assert TreeAt(nodes, k0, i);
        HungAt(nodes, k0, n, k1, i);
      }
    }
  }

  /** The links along the levels after node n has been put at the end. */
  ghost predicate Trailed<T>(nodes: seq<Node<T>>, r0: Row<T>, n: Node<T>, r1: Row<T>)
    requires n !in nodes && SpansRow(nodes, r0) && SpansRow(nodes + [n], r1)
  {
    && r1.next[n] == null && r1.prev[n] == At(nodes, |nodes| - 1)
    && (forall m {:trigger r1.prev[m]} :: m in nodes ==> r1.prev[m] == r0.prev[m])
    && (forall m {:trigger r1.next[m]} :: m in nodes ==>
          r1.next[m] == (if m == nodes[|nodes| - 1] then n else r0.next[m]))
  }

  lemma TrailedShape<T>(nodes: seq<Node<T>>, r0: Row<T>, n: Node<T>, r1: Row<T>)
    requires n !in nodes && Distinct(nodes) && SpansRow(nodes, r0) && SpansRow(nodes + [n], r1)
    requires RowShape(nodes, r0) && Trailed(nodes, r0, n, r1)
    ensures RowShape(nodes + [n], r1)
  {
    var ms := nodes + [n];
    forall i {:trigger RowAt(ms, r1, i)} | 0 <= i < |ms| ensures RowAt(ms, r1, i) {
      if i < |nodes| {
        assert RowAt(nodes, r0, i);
        assert nodes[i] in nodes && ms[i] == nodes[i];
      }
    }
  }

  /** The tree links after the last node n has been cut off its parent. */
  ghost predicate Unhung<T>(nodes: seq<Node<T>>, n: Node<T>, k0: Links<T>, k1: Links<T>)
    requires n !in nodes && Covers(NodeSet(nodes + [n]), k0) && Covers(NodeSet(nodes), k1)
  {
    var i := |nodes|;
    && (forall m {:trigger k1.parent[m]} :: m in nodes ==> k1.parent[m] == k0.parent[m])
    && (forall m {:trigger k1.left[m]} :: m in nodes ==>
          k1.left[m] == (if i % 2 == 1 && m == nodes[Parent(i)] then null else k0.left[m]))
    && (forall m {:trigger k1.right[m]} :: m in nodes ==>
          k1.right[m] == (if i > 0 && i % 2 == 0 && m == nodes[Parent(i)] then null else k0.right[m]))
  }

  lemma UnhungLeft<T>(nodes: seq<Node<T>>, n: Node<T>, k0: Links<T>, k1: Links<T>, i: nat)
    requires n !in nodes && Distinct(nodes) && Covers(NodeSet(nodes + [n]), k0) && Covers(NodeSet(nodes), k1)
    requires Unhung(nodes, n, k0, k1) && i < |nodes| && k0.left[nodes[i]] == At(nodes + [n], 2 * i + 1)
    ensures k1.left[nodes[i]] == At(nodes, 2 * i + 1)
  {
    LastChild(i, |nodes|);
    assert nodes[i] in nodes && nodes[Parent(|nodes|)] in nodes;
  }

  lemma UnhungRight<T>(nodes: seq<Node<T>>, n: Node<T>, k0: Links<T>, k1: Links<T>, i: nat)
    requires n !in nodes && Distinct(nodes) && Covers(NodeSet(nodes + [n]), k0) && Covers(NodeSet(nodes), k1)
    requires Unhung(nodes, n, k0, k1) && i < |nodes| && k0.right[nodes[i]] == At(nodes + [n], 2 * i + 2)
    ensures k1.right[nodes[i]] == At(nodes, 2 * i + 2)
  {
    LastChild(i, |nodes|);
    assert nodes[i] in nodes && nodes[Parent(|nodes|)] in nodes;
  }

  lemma UnhungParent<T>(nodes: seq<Node<T>>, n: Node<T>, k0: Links<T>, k1: Links<T>, i: nat)
    requires n !in nodes && Covers(NodeSet(nodes + [n]), k0) && Covers(NodeSet(nodes), k1)
    requires Unhung(nodes, n, k0, k1) && i < |nodes|
    ensures (nodes + [n])[i] == nodes[i] && nodes[i] in k0.parent && nodes[i] in k1.parent
    ensures k1.parent[nodes[i]] == k0.parent[nodes[i]]
  {
    assert nodes[i] in nodes && nodes[i] in nodes + [n];
  }

  lemma UnhungAt<T>(nodes: seq<Node<T>>, n: Node<T>, k0: Links<T>, k1: Links<T>, i: nat)
    requires n !in nodes && Distinct(nodes) && Covers(NodeSet(nodes + [n]), k0) && Covers(NodeSet(nodes), k1)
    requires Unhung(nodes, n, k0, k1) && i < |nodes| && TreeAt(nodes + [n], k0, i)
    ensures TreeAt(nodes, k1, i)
  {
    hide Unhung, Distinct, Covers, NodeSet;
    UnhungParent(nodes, n, k0, k1, i);
    UnhungLeft(nodes, n, k0, k1, i);
    UnhungRight(nodes, n, k0, k1, i);
  }

  /** What remains is again complete. */
  lemma UnhungShape<T>(nodes: seq<Node<T>>, n: Node<T>, k0: Links<T>, k1: Links<T>)
    requires n !in nodes && Distinct(nodes) && Covers(NodeSet(nodes + [n]), k0) && Covers(NodeSet(nodes), k1)
    requires TreeShape(nodes + [n], k0) && Unhung(nodes, n, k0, k1)
    ensures TreeShape(nodes, k1)
  {
    hide Distinct, Unhung, TreeAt;
    var ms := nodes + [n];
    forall i {:trigger TreeAt(nodes, k1, i)} | 0 <= i < |nodes| ensures TreeAt(nodes, k1, i) {
      assert TreeAt(ms, k0, i);
      UnhungAt(nodes, n, k0, k1, i);
    }
  }

  lemma UntrailedShape<T>(nodes: seq<Node<T>>, n: Node<T>, r0: Row<T>, r1: Row<T>)
    requires n !in nodes && Distinct(nodes) && SpansRow(nodes + [n], r0) && SpansRow(nodes, r1)
    requires RowShape(nodes + [n], r0)
    requires forall m {:trigger r1.prev[m]} :: m in nodes ==> r1.prev[m] == r0.prev[m]
    requires forall m {:trigger r1.next[m]} :: m in nodes ==>
               r1.next[m] == (if m == nodes[|nodes| - 1] then null else r0.next[m])
    ensures RowShape(nodes, r1)
  {
    var ms := nodes + [n];
    forall i {:trigger RowAt(nodes, r1, i)} | 0 <= i < |nodes| ensures RowAt(nodes, r1, i) {
      assert RowAt(ms, r0, i);
      assert nodes[i] in nodes && ms[i] == nodes[i];
    }
  }

  // ---------- Coordinates ----------

  function Pow2(y: nat): (p: nat)
    ensures p >= 1
  {
    if y == 0 then 1 else 2 * Pow2(y - 1)
  }

  /** Column x of row y is position i in level order. */
  predicate IsPlace(i: nat, x: nat, y: nat) {
    x < Pow2(y) && i + 1 == Pow2(y) + x
  }

  lemma NextPlace(i: nat, x: nat, y: nat)
    requires IsPlace(i, x, y)
    ensures if x + 1 >= Pow2(y) then IsPlace(i + 1, 0, y + 1) else IsPlace(i + 1, x + 1, y)
  {
  }

  /** The parent of a place is one row up, in half the column. */
  lemma ParentPlace(i: nat, x: nat, y: nat)
    requires i > 0 && IsPlace(i, x, y)
    ensures y > 0 && IsPlace(Parent(i), x / 2, y - 1) && i == 2 * Parent(i) + 1 + x % 2
  {
    assert Pow2(y) == if y == 0 then 1 else 2 * Pow2(y - 1);
  }

  /** x >> k, one bit at a time. */
  function ShiftRight(x: nat, k: nat): nat {
    if k == 0 then x else ShiftRight(x, k - 1) / 2
  }

  /** The position met after r steps on the way to column x of row y. */
  function OnTheWay(x: nat, y: nat, r: nat): nat
    requires r <= y
  {
    Pow2(r) - 1 + ShiftRight(x, y - r)
  }

  /** One step down follows one bit of the column. */
  lemma NextOnTheWay(x: nat, y: nat, r: nat)
    requires r < y
    ensures OnTheWay(x, y, r + 1) == 2 * OnTheWay(x, y, r) + 1 + ShiftRight(x, y - r - 1) % 2
  {
  }

  lemma {:induction false} NeverPastTheEnd(x: nat, y: nat, r: nat)
    requires r <= y
    ensures OnTheWay(x, y, r) <= OnTheWay(x, y, y) == Pow2(y) - 1 + x
    decreases y - r
  {
    if r < y {
      NextOnTheWay(x, y, r);
      NeverPastTheEnd(x, y, r + 1);
    }
  }

  lemma {:induction false} ShiftedBound(x: nat, y: nat, k: nat)
    requires k <= y && x < Pow2(y)
    ensures ShiftRight(x, k) < Pow2(y - k)
  {
    if k > 0 {
      ShiftedBound(x, y, k - 1);
    }
  }

  /** The way starts at the root. */
  lemma StartsAtRoot(x: nat, y: nat)
    requires x < Pow2(y)
    ensures OnTheWay(x, y, 0) == 0
  {
    ShiftedBound(x, y, y);
  }

  ghost function DataOf<T>(nodes: seq<Node<T>>): seq<T>
    reads NodeSet(nodes)
  {
    seq(|nodes|, i requires 0 <= i < |nodes| reads NodeSet(nodes) => nodes[i].data)
  }

  /** The tree links, the root included, describe the sequence. */
  ghost predicate Tree<T>(nodes: seq<Node<T>>, e: Ends<T>)
    reads e`root, NodeSet(nodes)`left, NodeSet(nodes)`right, NodeSet(nodes)`parent
  {
    e.root == At(nodes, 0) && TreeShape(nodes, Snapshot(NodeSet(nodes)))
  }

  /** The links along the levels, the last node included, describe the sequence. */
  ghost predicate Levels<T>(nodes: seq<Node<T>>, e: Ends<T>)
    reads e`last, NodeSet(nodes)`next, NodeSet(nodes)`prev
  {
    e.last == At(nodes, |nodes| - 1) && RowShape(nodes, RowOf(NodeSet(nodes)))
  }

  ghost predicate Places<T>(nodes: seq<Node<T>>)
    reads NodeSet(nodes)`x, NodeSet(nodes)`y
  {
    forall i {:trigger nodes[i]} :: 0 <= i < |nodes| ==> IsPlace(i, nodes[i].x, nodes[i].y)
  }

  lemma TreeLinksOf<T>(nodes: seq<Node<T>>, e: Ends<T>, i: nat)
    requires Tree(nodes, e) && i < |nodes|
    ensures nodes[i].left == At(nodes, 2 * i + 1) && nodes[i].right == At(nodes, 2 * i + 2)
    ensures nodes[i].parent == (if i == 0 then null else nodes[Parent(i)])
  {
    assert TreeAt(nodes, Snapshot(NodeSet(nodes)), i);
  }

  lemma RowLinksOf<T>(nodes: seq<Node<T>>, e: Ends<T>, i: nat)
    requires Levels(nodes, e) && i < |nodes|
    ensures nodes[i].next == At(nodes, i + 1) && nodes[i].prev == At(nodes, i - 1)
  {
    assert RowAt(nodes, RowOf(NodeSet(nodes)), i);
  }

  lemma OnlyRootHasNoParent<T>(nodes: seq<Node<T>>, e: Ends<T>)
    requires Tree(nodes, e) && Distinct(nodes)
    ensures forall n {:trigger n.parent} :: n in NodeSet(nodes) ==> (n.parent == null <==> n == e.root)
  {
    forall n {:trigger n.parent} | n in NodeSet(nodes) ensures n.parent == null <==> n == e.root {
      var i :| 0 <= i < |nodes| && nodes[i] == n;
      TreeLinksOf(nodes, e, i);
    }
  }

  lemma OnlyLastHasNoNext<T>(nodes: seq<Node<T>>, e: Ends<T>)
    requires Levels(nodes, e) && Distinct(nodes)
    ensures forall n {:trigger n.next} :: n in NodeSet(nodes) ==> (n.next == null <==> n == e.last)
  {
    forall n {:trigger n.next} | n in NodeSet(nodes) ensures n.next == null <==> n == e.last {
      var i :| 0 <= i < |nodes| && nodes[i] == n;
      RowLinksOf(nodes, e, i);
    }
  }

  method ExchangeInTree<T>(ghost nodes: seq<Node<T>>, e: Ends<T>, a: Node<T>, b: Node<T>, ghost i: nat, ghost j: nat)
    requires Tree(nodes, e) && Distinct(nodes) && i < |nodes| && j < |nodes| && i != j && nodes[i] == a && nodes[j] == b
    modifies NodeSet(nodes)`left, NodeSet(nodes)`right, NodeSet(nodes)`parent, e`root
    ensures Tree(Exchanged(nodes, i, j), e)
  {
    hide TreeShape, TreeLinks, TreeSwapped;
    ghost var s, k0 := NodeSet(nodes), Snapshot(NodeSet(nodes));
    ExchangedNodes(nodes, i, j);
    TreeShapeLinks(nodes, k0);
    TreeLinksOf(nodes, e, i);
    TreeLinksOf(nodes, e, j);
    OnlyRootHasNoParent(nodes, e);
    assert At(Exchanged(nodes, i, j), 0) == Swap(a, b, At(nodes, 0));
    ExchangeTree(s, e, a, b);
    TreeShapeSwapped(nodes, k0, Snapshot(s), i, j);
  }

  lemma LastOf<T>(nodes: seq<Node<T>>, e: Ends<T>)
    requires Levels(nodes, e)
    ensures e.last == At(nodes, |nodes| - 1)
  {
  }

  lemma SplitLast<T>(nodes: seq<Node<T>>, e: Ends<T>)
    requires Levels(nodes, e) && Distinct(nodes) && Places(nodes) && e.last != null
    ensures nodes != []
    ensures var ns := nodes[..|nodes| - 1];
            && nodes == ns + [e.last] && Distinct(ns) && Places(ns)
            && e.last !in ns && NodeSet(ns) == NodeSet(nodes) - {e.last} && NodeSet(nodes) == NodeSet(ns) + {e.last}
  {
    hide RowShape, IsPlace;
    var ns := nodes[..|nodes| - 1];
    assert nodes == ns + [e.last];
  }

  lemma MakesLevels<T>(nodes: seq<Node<T>>, s: set<Node<T>>, e: Ends<T>)
    requires NodeSet(nodes) == s && e.last == At(nodes, |nodes| - 1)
    requires SpansRow(nodes, RowOf(s)) && RowShape(nodes, RowOf(s))
    ensures Levels(nodes, e)
  {
  }

  method ExchangeInLevels<T>(ghost nodes: seq<Node<T>>, e: Ends<T>, a: Node<T>, b: Node<T>, ghost i: nat, ghost j: nat)
    requires Levels(nodes, e) && Distinct(nodes) && i < |nodes| && j < |nodes| && i != j && nodes[i] == a
             && nodes[j] == b
    modifies NodeSet(nodes)`next, NodeSet(nodes)`prev, e`last
    ensures Levels(Exchanged(nodes, i, j), e)
  {
    ghost var ms := Exchanged(nodes, i, j);
    ghost var s, r0 := NodeSet(nodes), RowOf(NodeSet(nodes));
    assert e.last == At(nodes, |nodes| - 1) && RowShape(nodes, r0);
    hide RowShape, ListLinks, RowSwapped, Levels;
    ExchangedNodes(nodes, i, j);
    RowShapeLinks(nodes, r0);
    RowLinksOf(nodes, e, i);
    RowLinksOf(nodes, e, j);
    OnlyLastHasNoNext(nodes, e);
    assert At(ms, |ms| - 1) == Swap(a, b, e.last);
    ExchangeRow(s, e, a, b);
    RowShapeSwapped(nodes, r0, RowOf(s), i, j);
    MakesLevels(ms, s, e);
  }

  /** The coordinates follow the position. */
  method ExchangePlaces<T>(ghost nodes: seq<Node<T>>, a: Node<T>, b: Node<T>, ghost i: nat, ghost j: nat)
    requires Places(nodes) && Distinct(nodes) && i < |nodes| && j < |nodes| && i != j && nodes[i] == a && nodes[j] == b
    modifies a`x, a`y, b`x, b`y
    ensures Places(Exchanged(nodes, i, j))
  {
    hide IsPlace;
    a.x, b.x := b.x, a.x;
    a.y, b.y := b.y, a.y;
  }

  /** get_node_at_xy: the node at column x of row y. */
  method NodeAtXY<T>(ghost nodes: seq<Node<T>>, e: Ends<T>, x: nat, y: nat, ghost i: nat) returns (n: Node<T>)
    requires Tree(nodes, e) && i < |nodes| && IsPlace(i, x, y)
    ensures n == nodes[i]
  {
    StartsAtRoot(x, y);
    var m := e.root;
    for r := 0 to y
      invariant OnTheWay(x, y, r) < |nodes| && m == nodes[OnTheWay(x, y, r)]
    {
      TreeLinksOf(nodes, e, OnTheWay(x, y, r));
      NextOnTheWay(x, y, r);
      NeverPastTheEnd(x, y, r + 1);
      if ShiftRight(x, y - r - 1) % 2 == 1 {
        m := m.right;
      } else {
        m := m.left;
      }
    }
    NeverPastTheEnd(x, y, y);
    n := m;
  }

  /** Makes n a child of p, or the root. */
  method LinkBelow<T>(ghost s: set<Node<T>>, e: Ends<T>, n: Node<T>, p: Node?<T>)
    requires n !in s && (p != null ==> p in s)
    modifies n`parent, s`left, s`right, e`root
    ensures n.parent == p && e.root == (if p == null then n else old(e.root))
    ensures forall m {:trigger m.left} :: m in s ==> m.left == (if m == p && n.x % 2 == 0 then n else old(m.left))
    ensures forall m {:trigger m.right} :: m in s ==> m.right == (if m == p && n.x % 2 == 1 then n else old(m.right))
  {
    n.parent := p;
    if p != null {
      if n.x % 2 == 1 {
        p.right := n;
      } else {
        p.left := n;
      }
    } else {
      e.root := n;
    }
  }

  lemma HungNow<T>(nodes: seq<Node<T>>, k0: Links<T>, n: Node<T>, p: Node?<T>, x: nat)
    requires n !in nodes && Covers(NodeSet(nodes), k0)
    requires p == (if |nodes| == 0 then null else nodes[Parent(|nodes|)])
    requires |nodes| > 0 ==> (|nodes| % 2 == 1 <==> x % 2 == 0)
    requires n.left == n.right == null && n.parent == p
    requires forall m {:trigger m.parent} :: m in NodeSet(nodes) ==> m.parent == k0.parent[m]
    requires forall m {:trigger m.left} :: m in NodeSet(nodes) ==>
               m.left == (if m == p && x % 2 == 0 then n else k0.left[m])
    requires forall m {:trigger m.right} :: m in NodeSet(nodes) ==>
               m.right == (if m == p && x % 2 == 1 then n else k0.right[m])
    ensures Hung(nodes, k0, n, Snapshot(NodeSet(nodes + [n])))
  {
    hide Parent;
  }

  /** The tree part of avahi_prio_queue_put. */
  method Hang<T>(ghost nodes: seq<Node<T>>, e: Ends<T>, n: Node<T>)
    requires Tree(nodes, e) && Distinct(nodes) && n !in nodes && IsPlace(|nodes|, n.x, n.y)
    requires n.left == n.right == n.parent == null
    modifies n`parent, NodeSet(nodes)`left, NodeSet(nodes)`right, e`root
    ensures Tree(nodes + [n], e)
  {
    hide TreeShape, Distinct, IsPlace;
    ghost var s, k0 := NodeSet(nodes), Snapshot(NodeSet(nodes));
    ghost var i := |nodes|;
    var p: Node?<T> := null;
    if e.root != null {
      ParentPlace(i, n.x, n.y);
      p := NodeAtXY(nodes, e, n.x / 2, n.y - 1, Parent(i));
    }
    assert (|nodes| == 0) == (p == null);
    LinkBelow(s, e, n, p);
    hide Hung, Parent, Covers;
    HungNow(nodes, k0, n, p, n.x);
    HungShape(nodes, k0, n, Snapshot(NodeSet(nodes + [n])));
  }

  /** Its list part. */
  method Trail<T>(ghost nodes: seq<Node<T>>, e: Ends<T>, n: Node<T>)
    requires Levels(nodes, e) && Distinct(nodes) && n !in nodes && n.next == n.prev == null
    modifies n`prev, NodeSet(nodes)`next, e`last
    ensures Levels(nodes + [n], e)
  {
    hide RowShape;
    ghost var r0 := RowOf(NodeSet(nodes));
    if e.last != null {
      e.last.next := n;
      n.prev := e.last;
    }
    e.last := n;
    TrailedShape(nodes, r0, n, RowOf(NodeSet(nodes + [n])));
  }

  /** Clears the link to n in its parent, or the root. */
  method Unlink<T>(ghost s: set<Node<T>>, e: Ends<T>, n: Node<T>)
    requires n !in s && (n.parent != null ==> n.parent in s)
    modifies s`left, s`right, e`root
    ensures e.root == (if n.parent == null then null else old(e.root))
    ensures forall m {:trigger m.left} :: m in s ==>
              m.left == (if m == n.parent && old(m.left) == n then null else old(m.left))
    ensures forall m {:trigger m.right} :: m in s ==>
              m.right == (if m == n.parent && old(m.left) != n then null else old(m.right))
  {
    if n.parent != null {
      if n.parent.left == n {
        n.parent.left := null;
      } else {
        n.parent.right := null;
      }
    } else {
      e.root := null;
    }
  }

  lemma UnhungNow<T>(nodes: seq<Node<T>>, n: Node<T>, k0: Links<T>)
    requires n !in nodes && Covers(NodeSet(nodes + [n]), k0)
    requires n.parent == (if |nodes| == 0 then null else nodes[Parent(|nodes|)])
    requires |nodes| > 0 ==> nodes[Parent(|nodes|)] in NodeSet(nodes + [n])
                             && (k0.left[nodes[Parent(|nodes|)]] == n <==> |nodes| % 2 == 1)
    requires forall m {:trigger m.parent} :: m in NodeSet(nodes) ==> m in k0.parent && m.parent == k0.parent[m]
    requires forall m {:trigger m.left} :: m in NodeSet(nodes) ==>
               m in k0.left && m.left == (if m == n.parent && k0.left[m] == n then null else k0.left[m])
    requires forall m {:trigger m.right} :: m in NodeSet(nodes) ==>
               m in k0.right && m.right == (if m == n.parent && k0.left[m] != n then null else k0.right[m])
    ensures Unhung(nodes, n, k0, Snapshot(NodeSet(nodes)))
  {
    hide Parent;
  }

  /** The tree part of avahi_prio_queue_remove, for the last node. */
  method Cut<T>(ghost nodes: seq<Node<T>>, e: Ends<T>, n: Node<T>)
    requires Tree(nodes + [n], e) && Distinct(nodes) && n !in nodes
    modifies NodeSet(nodes)`left, NodeSet(nodes)`right, e`root
    ensures Tree(nodes, e)
  {
    hide TreeShape, Distinct;
    ghost var ms, i := nodes + [n], |nodes|;
    ghost var k0 := Snapshot(NodeSet(ms));
    TreeLinksOf(ms, e, i);
    if i > 0 {
      TreeLinksOf(ms, e, Parent(i));
    }
    Unlink(NodeSet(nodes), e, n);
    hide Unhung, Covers;
    UnhungNow(nodes, n, k0);
    UnhungShape(nodes, n, k0, Snapshot(NodeSet(nodes)));
  }

  /** Its list part. */
  method Untrail<T>(ghost nodes: seq<Node<T>>, e: Ends<T>, n: Node<T>)
    requires Levels(nodes + [n], e) && Distinct(nodes) && n !in nodes
    modifies NodeSet(nodes)`next, e`last
    ensures Levels(nodes, e)
  {
    ghost var ms := nodes + [n];
    ghost var r0 := RowOf(NodeSet(ms));
    RowLinksOf(ms, e, |nodes|);
    e.last := n.prev;
    if n.prev != null {
      n.prev.next := null;
    }
    UntrailedShape(nodes, n, r0, RowOf(NodeSet(nodes)));
  }

  /** The coordinates of a new last node. */
  method PlaceNext<T>(ghost nodes: seq<Node<T>>, e: Ends<T>, n: Node<T>)
    requires Levels(nodes, e) && Places(nodes) && n !in nodes
    modifies n`x, n`y
    ensures IsPlace(|nodes|, n.x, n.y)
  {
    hide RowShape;
    if e.last != null {
      n.y := e.last.y;
      n.x := e.last.x + 1;
      NextPlace(|nodes| - 1, e.last.x, e.last.y);
      if n.x >= Pow2(n.y) {
        n.x := 0;
        n.y := n.y + 1;
      }
    } else {
      n.x, n.y := 0, 0;
    }
  }

  lemma MorePlaces<T>(nodes: seq<Node<T>>, n: Node<T>)
    requires Places(nodes) && IsPlace(|nodes|, n.x, n.y)
    ensures Places(nodes + [n])
  {
  }

  class Queue<T(!new)> {
    const ends: Ends<T>
    const cmp: (T, T) -> int
    var nNodes: nat
    ghost var nodes: seq<Node<T>>

    /** The links, the coordinates, the two ends and the count all describe the same sequence of nodes. */
    ghost predicate Linked()
      reads this, ends, NodeSet(nodes)
    {
      Distinct(nodes) && nNodes == |nodes| && Tree(nodes, ends) && Levels(nodes, ends) && Places(nodes)
    }

    /** And the data is in heap order. */
    ghost predicate Valid()
      reads this, ends, NodeSet(nodes)
    {
      Linked() && TotalPreorder(cmp) && Heap(cmp, DataOf(nodes))
    }

    constructor (cmp: (T, T) -> int)
      requires TotalPreorder(cmp)
      ensures Valid() && nodes == [] && fresh(ends) && this.cmp == cmp
    {
      this.cmp := cmp;
      ends := new Ends();
      nNodes, nodes := 0, [];
    }

    /** exchange_nodes: the two nodes change places in the sequence, and keep their data. */
    method Exchange(a: Node<T>, b: Node<T>, ghost i: nat, ghost j: nat)
      requires Linked() && i < |nodes| && j < |nodes| && i != j && nodes[i] == a && nodes[j] == b
      modifies `nodes, NodeSet(nodes)`left, NodeSet(nodes)`right, NodeSet(nodes)`parent
      modifies NodeSet(nodes)`next, NodeSet(nodes)`prev, NodeSet(nodes)`x, NodeSet(nodes)`y, ends
      ensures nodes == Exchanged(old(nodes), i, j) && NodeSet(nodes) == old(NodeSet(nodes)) && Linked()
      ensures DataOf(nodes) == Exchanged(old(DataOf(nodes)), i, j)
    {
      hide Tree, Levels, Places, Distinct;
      ExchangedNodes(nodes, i, j);
      ExchangePlaces(nodes, a, b, i, j);
      ExchangeInTree(nodes, ends, a, b, i, j);
      ExchangeInLevels(nodes, ends, a, b, i, j);
      nodes := Exchanged(nodes, i, j);
    }

    /** The first loop of avahi_prio_queue_shuffle. */
    method MoveUp(n: Node<T>, ghost i: nat) returns (ghost p: nat)
      requires Linked() && TotalPreorder(cmp) && i < |nodes| && nodes[i] == n && Hole(cmp, DataOf(nodes), i)
      modifies `nodes, NodeSet(nodes)`left, NodeSet(nodes)`right, NodeSet(nodes)`parent
      modifies NodeSet(nodes)`next, NodeSet(nodes)`prev, NodeSet(nodes)`x, NodeSet(nodes)`y, ends
      ensures Linked() && NodeSet(nodes) == old(NodeSet(nodes)) && |nodes| == old(|nodes|)
      ensures p < |nodes| && nodes[p] == n && Hole(cmp, DataOf(nodes), p) && InOrder(cmp, DataOf(nodes), p)
    {
      hide Tree, Levels, Places, Distinct, TotalPreorder, Hole;
      p := i;
      while n.parent != null && cmp(n.parent.data, n.data) > 0
        invariant Linked() && NodeSet(nodes) == old(NodeSet(nodes)) && |nodes| == old(|nodes|)
        invariant p < |nodes| && nodes[p] == n && Hole(cmp, DataOf(nodes), p)
        decreases p
      {
        TreeLinksOf(nodes, ends, p);
        ghost var ds := DataOf(nodes);
        assert ds[p] == n.data && ds[Parent(p)] == n.parent.data;
        StepUp(cmp, ds, p);
        Exchange(n, n.parent, p, Parent(p));
        p := Parent(p);
      }
      TreeLinksOf(nodes, ends, p);
    }

    /** The second loop of avahi_prio_queue_shuffle. */
    method MoveDown(n: Node<T>, ghost i: nat)
      requires Linked() && TotalPreorder(cmp) && i < |nodes| && nodes[i] == n
      requires Hole(cmp, DataOf(nodes), i) && InOrder(cmp, DataOf(nodes), i)
      modifies `nodes, NodeSet(nodes)`left, NodeSet(nodes)`right, NodeSet(nodes)`parent
      modifies NodeSet(nodes)`next, NodeSet(nodes)`prev, NodeSet(nodes)`x, NodeSet(nodes)`y, ends
      ensures Valid() && NodeSet(nodes) == old(NodeSet(nodes)) && |nodes| == old(|nodes|)
    {
      hide Tree, Levels, Places, Distinct, TotalPreorder, Hole;
      ghost var p := i;
      while true
        invariant Linked() && NodeSet(nodes) == old(NodeSet(nodes)) && |nodes| == old(|nodes|)
        invariant p < |nodes| && nodes[p] == n && Hole(cmp, DataOf(nodes), p) && InOrder(cmp, DataOf(nodes), p)
        decreases |nodes| - p
      {
        TreeLinksOf(nodes, ends, p);
        ghost var ds, m := DataOf(nodes), 2 * p + 1;
        var min := n.left;
        if min == null {
          FilledHole(cmp, ds, p);
          break;
        }
        if n.right != null && cmp(n.right.data, min.data) < 0 {
          min := n.right;
          m := 2 * p + 2;
        }
        assert ds[m] == min.data && ds[p] == n.data;
        ChosenIsSmallest(ds, p, m);
        if cmp(n.data, min.data) <= 0 {
          SmallestIsInOrder(cmp, ds, p, m);
          FilledHole(cmp, ds, p);
          break;
        }
        StepDown(cmp, ds, p, m);
        Exchange(n, min, p, m);
        p := m;
      }
    }

    lemma ChosenIsSmallest(ds: seq<T>, p: nat, m: nat)
      requires TotalPreorder(cmp) && 2 * p + 1 < |ds|
      requires m == if 2 * p + 2 < |ds| && cmp(ds[2 * p + 2], ds[2 * p + 1]) < 0 then 2 * p + 2 else 2 * p + 1
      ensures SmallestChild(cmp, ds, p, m)
    {
      ReflexiveOrder(cmp, ds[m]);
    }

    /** avahi_prio_queue_shuffle: restores heap order around one node; nodes keep their data. */
    method Shuffle(n: Node<T>, ghost i: nat)
      requires Linked() && TotalPreorder(cmp) && i < |nodes| && nodes[i] == n && Hole(cmp, DataOf(nodes), i)
      modifies `nodes, NodeSet(nodes)`left, NodeSet(nodes)`right, NodeSet(nodes)`parent
      modifies NodeSet(nodes)`next, NodeSet(nodes)`prev, NodeSet(nodes)`x, NodeSet(nodes)`y, ends
      ensures Valid() && NodeSet(nodes) == old(NodeSet(nodes)) && |nodes| == old(|nodes|)
    {
      ghost var p := MoveUp(n, i);
      MoveDown(n, p);
    }

    /** The part of avahi_prio_queue_put before the shuffle: n becomes the last node. */
    method Attach(n: Node<T>)
      requires Linked() && n !in nodes && n.left == n.right == n.parent == n.next == n.prev == null
      modifies this`nodes, this`nNodes, NodeSet(nodes)`left, NodeSet(nodes)`right, NodeSet(nodes)`next, ends
      modifies n`parent, n`prev, n`x, n`y
      ensures Linked() && nodes == old(nodes) + [n]
    {
      hide Tree, Levels, Places, IsPlace;
      PlaceNext(nodes, ends, n);
      ghost var ms := nodes + [n];
      assert NodeSet(ms) == NodeSet(nodes) + {n};
      Hang(nodes, ends, n);
      Trail(nodes, ends, n);
      assert Tree(ms, ends);
      MorePlaces(nodes, n);
      nNodes, nodes := nNodes + 1, ms;
    }

    /** avahi_prio_queue_put: the new node joins the others, which keep their data. */
    method Put(data: T) returns (n: Node<T>)
      requires Valid()
      modifies this`nodes, this`nNodes, ends, NodeSet(nodes)`left, NodeSet(nodes)`right, NodeSet(nodes)`parent
      modifies NodeSet(nodes)`next, NodeSet(nodes)`prev, NodeSet(nodes)`x, NodeSet(nodes)`y
      ensures Valid() && fresh(n) && n.data == data
      ensures NodeSet(nodes) == old(NodeSet(nodes)) + {n} && |nodes| == old(|nodes|) + 1
    {
      hide Tree, Levels, Places, Distinct, TotalPreorder, Heap, Hole;
      n := new Node(data);
      ghost var ns, ds := nodes, DataOf(nodes);
      Attach(n);
      assert DataOf(nodes) == ds + [data];
      AppendedData(cmp, ds, data);
      Shuffle(n, |ns|);
    }

    /** avahi_prio_queue_remove for the last node. */
    method Detach(n: Node<T>)
      requires Linked() && n == ends.last
      modifies this`nodes, this`nNodes, ends, NodeSet(nodes)`left, NodeSet(nodes)`right, NodeSet(nodes)`next
      ensures Linked() && old(nodes) == nodes + [n] && NodeSet(nodes) == old(NodeSet(nodes)) - {n}
    {
      hide Tree, Levels, Places, Distinct;
      SplitLast(nodes, ends);
      ghost var ns := nodes[..|nodes| - 1];
      Untrail(ns, ends, n);
      Cut(ns, ends, n);
      nNodes, nodes := nNodes - 1, ns;
    }

    /** avahi_prio_queue_remove: the others stay, with their data. */
    method Remove(n: Node<T>)
      requires Valid() && n in NodeSet(nodes)
      modifies this`nodes, this`nNodes, ends, NodeSet(nodes)`left, NodeSet(nodes)`right, NodeSet(nodes)`parent
      modifies NodeSet(nodes)`next, NodeSet(nodes)`prev, NodeSet(nodes)`x, NodeSet(nodes)`y
      ensures Valid() && NodeSet(nodes) == old(NodeSet(nodes)) - {n} && |nodes| == old(|nodes|) - 1
    {
      hide Places, TotalPreorder, Heap, Tree, Distinct;
      ghost var ds := DataOf(nodes);
      if n != ends.last {
        var replacement := ends.last;
        ghost var i :| 0 <= i < |nodes| && nodes[i] == n;
        MoveToEnd(n, replacement, i);
        Detach(n);
        WithoutLast(ds, i, DataOf(nodes));
        Shuffle(replacement, i);
      } else {
        Detach(n);
        assert ds == DataOf(nodes) + [n.data];
        HeapPrefix(cmp, DataOf(nodes), n.data);
      }
    }

    /** The exchange with the last node. */
    method MoveToEnd(n: Node<T>, replacement: Node<T>, ghost i: nat)
      requires Linked() && i < |nodes| - 1 && nodes[i] == n && replacement == ends.last
      modifies `nodes, NodeSet(nodes)`left, NodeSet(nodes)`right, NodeSet(nodes)`parent
      modifies NodeSet(nodes)`next, NodeSet(nodes)`prev, NodeSet(nodes)`x, NodeSet(nodes)`y, ends
      ensures Linked() && NodeSet(nodes) == old(NodeSet(nodes)) && |nodes| == old(|nodes|)
      ensures ends.last == n && nodes[i] == replacement
      ensures DataOf(nodes) == Exchanged(old(DataOf(nodes)), |nodes| - 1, i)
    {
      hide Tree, Places;
      ghost var last := |nodes| - 1;
      LastOf(nodes, ends);
      hide Levels;
      Exchange(replacement, n, last, i);
      LastOf(nodes, ends);
    }

    lemma WithoutLast(ds: seq<T>, i: nat, es: seq<T>)
      requires TotalPreorder(cmp) && Heap(cmp, ds) && i < |ds| - 1
      requires |es| == |ds| - 1 && es == Exchanged(ds, |ds| - 1, i)[..|es|]
      ensures Hole(cmp, es, i)
    {
      var last := |ds| - 1;
      assert ds == ds[..last] + [ds[last]];
      HeapPrefix(cmp, ds[..last], ds[last]);
      ChangedData(cmp, ds[..last], i, ds[last]);
      assert es == ds[..last][i := ds[last]];
    }

    /** The root, when there is one, holds a minimum of the data. */
    lemma RootHoldsMinimum(n: Node<T>)
      requires Valid() && n in NodeSet(nodes)
      ensures ends.root != null && ends.root in NodeSet(nodes) && cmp(ends.root.data, n.data) <= 0
    {
      var i :| 0 <= i < |nodes| && nodes[i] == n;
      RootIsMinimum(cmp, DataOf(nodes), i);
    }
  }
}
