/** avahi-core/prioq.c: the nodes of the priority queue and the exchange of two of them.
    Five links of each node, and those of its neighbours, are rewritten in place. */
module PrioNodes {

  class Node<T> {
    var data: T
    var x: nat
    var y: nat
    var left: Node?<T>
    var right: Node?<T>
    var parent: Node?<T>
    var next: Node?<T>
    var prev: Node?<T>

    constructor (data: T)
      ensures this.data == data
      ensures left == right == parent == next == prev == null
    {
      this.data := data;
      x, y := 0, 0;
      left, right, parent, next, prev := null, null, null, null, null;
    }
  }

  /** The two ends of the structure, kept by the queue. */
  class Ends<T> {
    var root: Node?<T>
    var last: Node?<T>

    constructor ()
      ensures root == last == null
    {
      root, last := null, null;
    }
  }

  ghost function Maybe<T>(n: Node?<T>): set<Node<T>> {
    if n == null then {} else {n}
  }

  /** n with the roles of a and b exchanged. */
  ghost function Swap<T>(a: Node<T>, b: Node<T>, n: Node?<T>): Node?<T> {
    if n == a then b else if n == b then a else n
  }

  // ---------- Tree links ----------

  /** One link of every node, as a value. */
  type LinkMap<!T> = map<Node<T>, Node?<T>>

  datatype Links<!T> = Links(left: LinkMap<T>, right: LinkMap<T>, parent: LinkMap<T>)

  ghost function Snapshot<T>(s: set<Node<T>>): Links<T>
    reads s`left, s`right, s`parent
  {
    Links(map n | n in s :: n.left, map n | n in s :: n.right, map n | n in s :: n.parent)
  }

  ghost predicate Covers<T>(s: set<Node<T>>, k: Links<T>) {
    k.left.Keys == k.right.Keys == k.parent.Keys == s
  }

  /** Parent and child links agree. */
  ghost predicate TreeLinks<T>(s: set<Node<T>>, k: Links<T>)
    requires Covers(s, k)
  {
    && (forall n {:trigger k.left[n]} :: n in s && k.left[n] != null ==> k.left[n] in s && k.parent[k.left[n]] == n)
    && (forall n {:trigger k.right[n]} :: n in s && k.right[n] != null ==>
          k.right[n] in s && k.parent[k.right[n]] == n && k.right[n] != k.left[n])
    && (forall n {:trigger k.parent[n]} :: n in s && k.parent[n] != null ==>
          k.parent[n] in s && (k.left[k.parent[n]] == n || k.right[k.parent[n]] == n))
  }

  /** The link f1 of every node is the link f0 it had, with a and b exchanged at both ends. */
  ghost predicate Swapped<T>(s: set<Node<T>>, f0: LinkMap<T>, f1: LinkMap<T>, a: Node<T>, b: Node<T>)
    requires a in s && b in s && f0.Keys == f1.Keys == s
  {
    forall n {:trigger f1[n]} :: n in s ==> f1[n] == Swap(a, b, f0[Swap(a, b, n)])
  }

  ghost predicate TreeSwapped<T>(s: set<Node<T>>, k0: Links<T>, k1: Links<T>, a: Node<T>, b: Node<T>)
    requires a in s && b in s && Covers(s, k0) && Covers(s, k1)
  {
    Swapped(s, k0.left, k1.left, a, b) && Swapped(s, k0.right, k1.right, a, b) && Swapped(s, k0.parent, k1.parent, a, b)
  }

  /** Sets the left child of p, and the child's parent. */
  method SetLeft<T>(p: Node<T>, c: Node?<T>)
    modifies p`left, Maybe(c)`parent
    ensures p.left == c && (c != null ==> c.parent == p)
  {
    p.left := c;
    if c != null {
      c.parent := p;
    }
  }

  method SetRight<T>(p: Node<T>, c: Node?<T>)
    modifies p`right, Maybe(c)`parent
    ensures p.right == c && (c != null ==> c.parent == p)
  {
    p.right := c;
    if c != null {
      c.parent := p;
    }
  }

  /** First half of exchange_nodes for a child a of b: a takes the place of b below its parent or at the root. */
  method Lift<T>(ghost s: set<Node<T>>, e: Ends<T>, a: Node<T>, b: Node<T>)
    requires a in s && b in s && a != b && b.parent != a && b.parent != b && (b.parent != null ==> b.parent in s)
    modifies s`left, s`right, s`parent, e`root
    ensures forall n {:trigger n.parent} :: n in s ==>
              n.parent == (if n == a then old(b.parent) else if n == b then a else old(n.parent))
    ensures forall n {:trigger n.left} :: n in s ==>
              n.left == (if n == old(b.parent) && old(n.left) == b then a else old(n.left))
    ensures forall n {:trigger n.right} :: n in s ==>
              n.right == (if n == old(b.parent) && old(n.left) != b then a else old(n.right))
    ensures e.root == (if old(b.parent) == null then a else old(e.root))
  {
    var p := b.parent;
    b.parent := a;
    a.parent := p;
    if p != null {
      if p.left == b {
        p.left := a;
      } else {
        p.right := a;
      }
    } else {
      e.root := a;
    }
  }

  /** Second half, when a was the left child: b gets the children of a, and a those of b. */
  method HandDownLeft<T>(ghost s: set<Node<T>>, a: Node<T>, b: Node<T>)
    requires a in s && b in s && a != b
    requires a.left != null ==> a.left in s
    requires a.right != null ==> a.right in s
    requires b.right != null ==> b.right in s
    modifies s`left, s`right, s`parent
    ensures forall n {:trigger n.left} :: n in s ==>
              n.left == (if n == a then b else if n == b then old(a.left) else old(n.left))
    ensures forall n {:trigger n.right} :: n in s ==>
              n.right == (if n == a then old(b.right) else if n == b then old(a.right) else old(n.right))
    ensures forall n {:trigger n.parent} :: n in s ==>
              n.parent == (if n == old(a.right) then b else if n == old(b.right) then a else if n == old(a.left) then b
                           else old(n.parent))
  {
    SetLeft(b, a.left);
    a.left := b;
    var r := a.right;
    SetRight(a, b.right);
    SetRight(b, r);
  }

  /** Second half, when a was the right child. */
  method HandDownRight<T>(ghost s: set<Node<T>>, a: Node<T>, b: Node<T>)
    requires a in s && b in s && a != b
    requires a.left != null ==> a.left in s
    requires a.right != null ==> a.right in s
    requires b.left != null ==> b.left in s
    modifies s`left, s`right, s`parent
    ensures forall n {:trigger n.right} :: n in s ==>
              n.right == (if n == a then b else if n == b then old(a.right) else old(n.right))
    ensures forall n {:trigger n.left} :: n in s ==>
              n.left == (if n == a then old(b.left) else if n == b then old(a.left) else old(n.left))
    ensures forall n {:trigger n.parent} :: n in s ==>
              n.parent == (if n == old(a.left) then b else if n == old(b.left) then a else if n == old(a.right) then b
                           else old(n.parent))
  {
    SetRight(b, a.right);
    a.right := b;
    var l := a.left;
    SetLeft(a, b.left);
    SetLeft(b, l);
  }

  /** The links after a child a of b has been exchanged with it. */
  ghost predicate ChildForm<T>(s: set<Node<T>>, k0: Links<T>, k1: Links<T>, a: Node<T>, b: Node<T>)
    requires a in s && b in s && Covers(s, k0) && Covers(s, k1)
  {
    && (forall n {:trigger k1.left[n]} :: n in s ==>
          k1.left[n] == (if n == a then (if k0.left[b] == a then b else k0.left[b]) else if n == b then k0.left[a]
                         else if n == k0.parent[b] && k0.left[n] == b then a else k0.left[n]))
    && (forall n {:trigger k1.right[n]} :: n in s ==>
          k1.right[n] == (if n == a then (if k0.left[b] == a then k0.right[b] else b) else if n == b then k0.right[a]
                          else if n == k0.parent[b] && k0.left[n] != b then a else k0.right[n]))
    && (forall n {:trigger k1.parent[n]} :: n in s ==>
          k1.parent[n] == (if n == k0.left[a] || n == k0.right[a] then b else if n == a then k0.parent[b]
                           else if n == b then a
                           else if n == k0.left[b] || n == k0.right[b] then a else k0.parent[n]))
  }

  /** a is a child of b, and b is neither its own parent nor the child of a. */
  ghost predicate IsChild<T>(s: set<Node<T>>, k: Links<T>, a: Node<T>, b: Node<T>)
    requires Covers(s, k)
  {
    a in s && b in s && a != b && k.parent[a] == b && k.parent[b] != a && k.parent[b] != b
  }

  /** exchange_nodes when b is the parent of a (and, with the names exchanged, when a is the parent of b). */
  method ExchangeChild<T>(ghost s: set<Node<T>>, e: Ends<T>, a: Node<T>, b: Node<T>)
    requires TreeLinks(s, Snapshot(s)) && IsChild(s, Snapshot(s), a, b)
    modifies s`left, s`right, s`parent, e`root
    ensures ChildForm(s, old(Snapshot(s)), Snapshot(s), a, b)
    ensures e.root == (if old(b.parent) == null then a else old(e.root))
  {
    ghost var k := Snapshot(s);
    assert k.left[a] == a.left && k.right[a] == a.right && k.left[b] == b.left && k.right[b] == b.right;
    assert k.parent[a] == a.parent && k.parent[b] == b.parent;
    if b.left == a {
      Lift(s, e, a, b);
      HandDownLeft(s, a, b);
    } else {
      Lift(s, e, a, b);
      HandDownRight(s, a, b);
    }
  }

  lemma ChildLeft<T>(s: set<Node<T>>, k0: Links<T>, k1: Links<T>, a: Node<T>, b: Node<T>)
    requires Covers(s, k0) && Covers(s, k1) && TreeLinks(s, k0) && IsChild(s, k0, a, b) && ChildForm(s, k0, k1, a, b)
    ensures Swapped(s, k0.left, k1.left, a, b)
  {
    forall n {:trigger k1.left[n]} | n in s ensures k1.left[n] == Swap(a, b, k0.left[Swap(a, b, n)]) {
      if n == a {
        assert k0.left[b] != b;
      } else if n == b {
        assert k0.left[a] != a && k0.left[a] != b;
      } else {
        assert k0.left[n] != a && (k0.left[n] == b ==> n == k0.parent[b]);
      }
    }
  }

  lemma ChildRight<T>(s: set<Node<T>>, k0: Links<T>, k1: Links<T>, a: Node<T>, b: Node<T>)
    requires Covers(s, k0) && Covers(s, k1) && TreeLinks(s, k0) && IsChild(s, k0, a, b) && ChildForm(s, k0, k1, a, b)
    ensures Swapped(s, k0.right, k1.right, a, b)
  {
    forall n {:trigger k1.right[n]} | n in s ensures k1.right[n] == Swap(a, b, k0.right[Swap(a, b, n)]) {
      if n == a {
        assert k0.left[b] == a ==> k0.right[b] != a && k0.right[b] != b;
      } else if n == b {
        assert k0.right[a] != a && k0.right[a] != b;
      } else {
        assert k0.right[n] != a && (k0.right[n] == b ==> n == k0.parent[b]);
      }
    }
  }

  lemma ChildParent<T>(s: set<Node<T>>, k0: Links<T>, k1: Links<T>, a: Node<T>, b: Node<T>)
    requires Covers(s, k0) && Covers(s, k1) && TreeLinks(s, k0) && IsChild(s, k0, a, b) && ChildForm(s, k0, k1, a, b)
    ensures Swapped(s, k0.parent, k1.parent, a, b)
  {
    forall n {:trigger k1.parent[n]} | n in s ensures k1.parent[n] == Swap(a, b, k0.parent[Swap(a, b, n)]) {
      if n != a && n != b {
        assert n == k0.left[a] || n == k0.right[a] <==> k0.parent[n] == a;
        assert n == k0.left[b] || n == k0.right[b] <==> k0.parent[n] == b;
      }
    }
  }

  /** First half of exchange_nodes for unrelated nodes: each takes the place of the other below its parent. */
  method SwapParents<T>(ghost s: set<Node<T>>, e: Ends<T>, a: Node<T>, b: Node<T>)
    requires a in s && b in s && a != b
    requires a.parent != null ==> a.parent in s && a.parent != b
    requires b.parent != null ==> b.parent in s && b.parent != a
    modifies s`left, s`right, s`parent, e`root
    ensures forall n {:trigger n.parent} :: n in s ==>
              n.parent == (if n == a then old(b.parent) else if n == b then old(a.parent) else old(n.parent))
    ensures forall n {:trigger n.left} :: n in s ==>
              n.left == (if n == old(a.parent) && old(n.left) == a then b
                         else if n == old(b.parent) && old(n.left) == b then a else old(n.left))
    ensures forall n {:trigger n.right} :: n in s ==>
              n.right == (if n == old(a.parent) && old(n.left) != a then b
                          else if n == old(b.parent) && old(n.left) != b then a else old(n.right))
    ensures e.root == (if old(a.parent) == null then b else if old(b.parent) == null then a else old(e.root))
  {
    var apl: Node?<T>, bpl: Node?<T> := null, null;
    var ap, bp := a.parent, b.parent;
    if ap != null { apl := ap.left; }
    if bp != null { bpl := bp.left; }
    a.parent := bp;
    if bp != null {
      if bpl == b {
        bp.left := a;
      } else {
        bp.right := a;
      }
    } else {
      e.root := a;
    }
    b.parent := ap;
    if ap != null {
      if apl == a {
        ap.left := b;
      } else {
        ap.right := b;
      }
    } else {
      e.root := b;
    }
  }

  /** Second half: the children. */
  method SwapChildren<T>(ghost s: set<Node<T>>, a: Node<T>, b: Node<T>)
    requires a in s && b in s && a != b
    requires a.left != null ==> a.left in s
    requires a.right != null ==> a.right in s
    requires b.left != null ==> b.left in s
    requires b.right != null ==> b.right in s
    modifies s`left, s`right, s`parent
    ensures forall n {:trigger n.left} :: n in s ==>
              n.left == (if n == a then old(b.left) else if n == b then old(a.left) else old(n.left))
    ensures forall n {:trigger n.right} :: n in s ==>
              n.right == (if n == a then old(b.right) else if n == b then old(a.right) else old(n.right))
    ensures forall n {:trigger n.parent} :: n in s ==>
              n.parent == (if n == old(a.right) then b else if n == old(b.right) then a
                           else if n == old(a.left) then b else if n == old(b.left) then a else old(n.parent))
  {
    var l, r := a.left, a.right;
    SetLeft(a, b.left);
    SetLeft(b, l);
    SetRight(a, b.right);
    SetRight(b, r);
  }

  /** The links after unrelated nodes have been exchanged. */
  ghost predicate ApartForm<T>(s: set<Node<T>>, k0: Links<T>, k1: Links<T>, a: Node<T>, b: Node<T>)
    requires a in s && b in s && Covers(s, k0) && Covers(s, k1)
  {
    && (forall n {:trigger k1.left[n]} :: n in s ==>
          k1.left[n] == (if n == a then k0.left[b] else if n == b then k0.left[a]
                         else if n == k0.parent[a] && k0.left[n] == a then b
                         else if n == k0.parent[b] && k0.left[n] == b then a else k0.left[n]))
    && (forall n {:trigger k1.right[n]} :: n in s ==>
          k1.right[n] == (if n == a then k0.right[b] else if n == b then k0.right[a]
                          else if n == k0.parent[a] && k0.left[n] != a then b
                          else if n == k0.parent[b] && k0.left[n] != b then a else k0.right[n]))
    && (forall n {:trigger k1.parent[n]} :: n in s ==>
          k1.parent[n] == (if n == a then k0.parent[b] else if n == b then k0.parent[a]
                           else if n == k0.right[a] || n == k0.left[a] then b
                           else if n == k0.right[b] || n == k0.left[b] then a else k0.parent[n]))
  }

  ghost predicate Unrelated<T>(s: set<Node<T>>, k: Links<T>, a: Node<T>, b: Node<T>)
    requires Covers(s, k)
  {
    a in s && b in s && a != b && k.parent[a] != b && k.parent[a] != a && k.parent[b] != a && k.parent[b] != b
  }

  method ExchangeApart<T>(ghost s: set<Node<T>>, e: Ends<T>, a: Node<T>, b: Node<T>)
    requires TreeLinks(s, Snapshot(s)) && Unrelated(s, Snapshot(s), a, b)
    modifies s`left, s`right, s`parent, e`root
    ensures ApartForm(s, old(Snapshot(s)), Snapshot(s), a, b)
    ensures e.root == (if old(a.parent) == null then b else if old(b.parent) == null then a else old(e.root))
  {
    ghost var k := Snapshot(s);
    assert k.left[a] == a.left && k.right[a] == a.right && k.left[b] == b.left && k.right[b] == b.right;
    assert k.parent[a] == a.parent && k.parent[b] == b.parent;
    SwapParents(s, e, a, b);
    SwapChildren(s, a, b);
  }

  lemma ApartLeft<T>(s: set<Node<T>>, k0: Links<T>, k1: Links<T>, a: Node<T>, b: Node<T>)
    requires Covers(s, k0) && Covers(s, k1) && TreeLinks(s, k0) && Unrelated(s, k0, a, b) && ApartForm(s, k0, k1, a, b)
    ensures Swapped(s, k0.left, k1.left, a, b)
  {
    forall n {:trigger k1.left[n]} | n in s ensures k1.left[n] == Swap(a, b, k0.left[Swap(a, b, n)]) {
      assert k0.left[n] == a ==> n == k0.parent[a];
      assert k0.left[n] == b ==> n == k0.parent[b];
    }
  }

  lemma ApartRight<T>(s: set<Node<T>>, k0: Links<T>, k1: Links<T>, a: Node<T>, b: Node<T>)
    requires Covers(s, k0) && Covers(s, k1) && TreeLinks(s, k0) && Unrelated(s, k0, a, b) && ApartForm(s, k0, k1, a, b)
    ensures Swapped(s, k0.right, k1.right, a, b)
  {
    forall n {:trigger k1.right[n]} | n in s ensures k1.right[n] == Swap(a, b, k0.right[Swap(a, b, n)]) {
      assert k0.right[n] == a ==> n == k0.parent[a];
      assert k0.right[n] == b ==> n == k0.parent[b];
    }
  }

  lemma ApartParent<T>(s: set<Node<T>>, k0: Links<T>, k1: Links<T>, a: Node<T>, b: Node<T>)
    requires Covers(s, k0) && Covers(s, k1) && TreeLinks(s, k0) && Unrelated(s, k0, a, b) && ApartForm(s, k0, k1, a, b)
    ensures Swapped(s, k0.parent, k1.parent, a, b)
  {
    forall n {:trigger k1.parent[n]} | n in s ensures k1.parent[n] == Swap(a, b, k0.parent[Swap(a, b, n)]) {
      if n != a && n != b {
        assert n == k0.left[a] || n == k0.right[a] <==> k0.parent[n] == a;
        assert n == k0.left[b] || n == k0.right[b] <==> k0.parent[n] == b;
      }
    }
  }

  /** Exchanging a and b is exchanging b and a. */
  lemma EitherWay<T>(s: set<Node<T>>, f0: LinkMap<T>, f1: LinkMap<T>, a: Node<T>, b: Node<T>)
    requires a in s && b in s && f0.Keys == f1.Keys == s && Swapped(s, f0, f1, b, a)
    ensures Swapped(s, f0, f1, a, b)
  {
  }

  /** The tree part of exchange_nodes. The source spells out the case of a above b with the names exchanged. */
  method ExchangeTree<T>(ghost s: set<Node<T>>, e: Ends<T>, a: Node<T>, b: Node<T>)
    requires a in s && b in s && a != b && TreeLinks(s, Snapshot(s))
    requires forall n {:trigger n.parent} :: n in s ==> (n.parent == null <==> n == e.root)
    requires a.parent != a && b.parent != b && !(a.parent == b && b.parent == a)
    modifies s`left, s`right, s`parent, e`root
    ensures TreeSwapped(s, old(Snapshot(s)), Snapshot(s), a, b)
    ensures e.root == Swap(a, b, old(e.root))
  {
    hide TreeLinks, ChildForm, ApartForm, Swapped;
    ghost var k0 := Snapshot(s);
    assert k0.parent[a] == a.parent && k0.parent[b] == b.parent;
    if a.parent == b {
      ExchangeChild(s, e, a, b);
      ChildLeft(s, k0, Snapshot(s), a, b);
      ChildRight(s, k0, Snapshot(s), a, b);
      ChildParent(s, k0, Snapshot(s), a, b);
    } else if b.parent == a {
      ExchangeChild(s, e, b, a);
      ghost var k1 := Snapshot(s);
      ChildLeft(s, k0, k1, b, a);
      ChildRight(s, k0, k1, b, a);
      ChildParent(s, k0, k1, b, a);
      EitherWay(s, k0.left, k1.left, a, b);
      EitherWay(s, k0.right, k1.right, a, b);
      EitherWay(s, k0.parent, k1.parent, a, b);
    } else {
      ExchangeApart(s, e, a, b);
      ApartLeft(s, k0, Snapshot(s), a, b);
      ApartRight(s, k0, Snapshot(s), a, b);
      ApartParent(s, k0, Snapshot(s), a, b);
    }
  }

  // ---------- List links ----------

  datatype Row<!T> = Row(next: LinkMap<T>, prev: LinkMap<T>)

  ghost function RowOf<T>(s: set<Node<T>>): Row<T>
    reads s`next, s`prev
  {
    Row(map n | n in s :: n.next, map n | n in s :: n.prev)
  }

  /** The links along the levels agree. */
  ghost predicate ListLinks<T>(s: set<Node<T>>, k: Row<T>)
    requires k.next.Keys == k.prev.Keys == s
  {
    && (forall n {:trigger k.next[n]} :: n in s && k.next[n] != null ==> k.next[n] in s && k.prev[k.next[n]] == n)
    && (forall n {:trigger k.prev[n]} :: n in s && k.prev[n] != null ==> k.prev[n] in s && k.next[k.prev[n]] == n)
  }

  ghost predicate RowSwapped<T>(s: set<Node<T>>, k0: Row<T>, k1: Row<T>, a: Node<T>, b: Node<T>)
    requires a in s && b in s && k0.next.Keys == k0.prev.Keys == k1.next.Keys == k1.prev.Keys == s
  {
    Swapped(s, k0.next, k1.next, a, b) && Swapped(s, k0.prev, k1.prev, a, b)
  }

  /** Sets the successor of n: its link and the link back, or the end of the list. */
  method SetNext<T>(e: Ends<T>, n: Node<T>, c: Node?<T>)
    modifies n`next, Maybe(c)`prev, e`last
    ensures n.next == c && (c != null ==> c.prev == n)
    ensures e.last == (if c == null then n else old(e.last))
  {
    n.next := c;
    if c != null {
      c.prev := n;
    } else {
      e.last := n;
    }
  }

  method SetPrev<T>(n: Node<T>, c: Node?<T>)
    modifies n`prev, Maybe(c)`next
    ensures n.prev == c && (c != null ==> c.next == n)
  {
    n.prev := c;
    if c != null {
      c.next := n;
    }
  }

  /** The list links after b, the successor of a, has been exchanged with it. */
  ghost predicate NeighbourForm<T>(s: set<Node<T>>, k0: Row<T>, k1: Row<T>, a: Node<T>, b: Node<T>)
    requires a in s && b in s && k0.next.Keys == k0.prev.Keys == k1.next.Keys == k1.prev.Keys == s
  {
    && (forall n {:trigger k1.next[n]} :: n in s ==>
          k1.next[n] == (if n == a then k0.next[b] else if n == b then a else if n == k0.prev[a] then b
                         else k0.next[n]))
    && (forall n {:trigger k1.prev[n]} :: n in s ==>
          k1.prev[n] == (if n == a then b else if n == b then k0.prev[a] else if n == k0.next[b] then a
                         else k0.prev[n]))
  }

  /** The list links after nodes that are not neighbours have been exchanged. */
  ghost predicate FarForm<T>(s: set<Node<T>>, k0: Row<T>, k1: Row<T>, a: Node<T>, b: Node<T>)
    requires a in s && b in s && k0.next.Keys == k0.prev.Keys == k1.next.Keys == k1.prev.Keys == s
  {
    && (forall n {:trigger k1.next[n]} :: n in s ==>
          k1.next[n] == (if n == a then k0.next[b] else if n == b then k0.next[a]
                         else if n == k0.prev[a] then b else if n == k0.prev[b] then a else k0.next[n]))
    && (forall n {:trigger k1.prev[n]} :: n in s ==>
          k1.prev[n] == (if n == a then k0.prev[b] else if n == b then k0.prev[a]
                         else if n == k0.next[a] then b else if n == k0.next[b] then a else k0.prev[n]))
  }

  /** The assignments of the sibling part when b directly follows a. */
  method RelinkNeighbours<T>(ghost s: set<Node<T>>, e: Ends<T>, a: Node<T>, b: Node<T>)
    requires a in s && b in s && a != b
    requires b.next != a && b.next != b && a.prev != a && a.prev != b
    requires b.next != null ==> b.next in s
    requires a.prev != null ==> a.prev in s
    modifies s`next, s`prev, e`last
    ensures forall n {:trigger n.next} :: n in s ==>
              n.next == (if n == a then old(b.next) else if n == b then a else if n == old(a.prev) then b
                         else old(n.next))
    ensures forall n {:trigger n.prev} :: n in s ==>
              n.prev == (if n == a then b else if n == b then old(a.prev) else if n == old(b.next) then a
                         else old(n.prev))
    ensures e.last == (if old(b.next) == null then a else old(e.last))
  {
    var ap, bn := a.prev, b.next;
    a.prev := b;
    b.next := a;
    SetNext(e, a, bn);
    SetPrev(b, ap);
  }

  method ExchangeNeighbours<T>(ghost s: set<Node<T>>, e: Ends<T>, a: Node<T>, b: Node<T>)
    requires a in s && b in s && a != b && ListLinks(s, RowOf(s)) && a.next == b && b.next != a && b.next != b
             && a.prev != a
    modifies s`next, s`prev, e`last
    ensures NeighbourForm(s, old(RowOf(s)), RowOf(s), a, b)
    ensures e.last == (if old(b.next) == null then a else old(e.last))
  {
    ghost var k := RowOf(s);
    assert k.next[a] == a.next && k.next[b] == b.next && k.prev[a] == a.prev && k.prev[b] == b.prev;
    RelinkNeighbours(s, e, a, b);
  }

  lemma NeighbourSwap<T>(s: set<Node<T>>, k0: Row<T>, k1: Row<T>, a: Node<T>, b: Node<T>)
    requires a in s && b in s && a != b && k0.next.Keys == k0.prev.Keys == k1.next.Keys == k1.prev.Keys == s
    requires ListLinks(s, k0) && k0.next[a] == b && k0.next[b] != a && k0.next[b] != b && k0.prev[a] != a
    requires NeighbourForm(s, k0, k1, a, b)
    ensures RowSwapped(s, k0, k1, a, b)
  {
  }

  /** The assignments of the sibling part when neither follows the other. */
  method RelinkFar<T>(ghost s: set<Node<T>>, e: Ends<T>, a: Node<T>, b: Node<T>)
    requires a in s && b in s && a != b
    requires a.next != a && a.next != b && b.next != a && b.next != b
    requires a.prev != a && a.prev != b && b.prev != a && b.prev != b
    requires a.next != null ==> a.next in s
    requires b.next != null ==> b.next in s
    requires a.prev != null ==> a.prev in s
    requires b.prev != null ==> b.prev in s
    modifies s`next, s`prev, e`last
    ensures forall n {:trigger n.next} :: n in s ==>
              n.next == (if n == a then old(b.next) else if n == b then old(a.next)
                         else if n == old(a.prev) then b else if n == old(b.prev) then a else old(n.next))
    ensures forall n {:trigger n.prev} :: n in s ==>
              n.prev == (if n == a then old(b.prev) else if n == b then old(a.prev)
                         else if n == old(a.next) then b else if n == old(b.next) then a else old(n.prev))
    ensures e.last == (if old(a.next) == null then b else if old(b.next) == null then a else old(e.last))
  {
    var ap, an, bp, bn := a.prev, a.next, b.prev, b.next;
    SetPrev(a, bp);
    SetNext(e, a, bn);
    SetPrev(b, ap);
    SetNext(e, b, an);
  }

  method ExchangeFar<T>(ghost s: set<Node<T>>, e: Ends<T>, a: Node<T>, b: Node<T>)
    requires a in s && b in s && a != b && ListLinks(s, RowOf(s))
    requires a.next != b && b.next != a && a.next != a && b.next != b
    modifies s`next, s`prev, e`last
    ensures FarForm(s, old(RowOf(s)), RowOf(s), a, b)
    ensures e.last == (if old(a.next) == null then b else if old(b.next) == null then a else old(e.last))
  {
    ghost var k := RowOf(s);
    assert k.next[a] == a.next && k.next[b] == b.next && k.prev[a] == a.prev && k.prev[b] == b.prev;
    RelinkFar(s, e, a, b);
  }

  lemma FarNext<T>(s: set<Node<T>>, k0: Row<T>, k1: Row<T>, a: Node<T>, b: Node<T>)
    requires a in s && b in s && a != b && k0.next.Keys == k0.prev.Keys == k1.next.Keys == k1.prev.Keys == s
    requires ListLinks(s, k0) && k0.next[a] != b && k0.next[b] != a && k0.next[a] != a && k0.next[b] != b
    requires FarForm(s, k0, k1, a, b)
    ensures Swapped(s, k0.next, k1.next, a, b)
  {
    forall n {:trigger k1.next[n]} | n in s ensures k1.next[n] == Swap(a, b, k0.next[Swap(a, b, n)]) {
      if n != a && n != b {
        assert n == k0.prev[a] <==> k0.next[n] == a;
        assert n == k0.prev[b] <==> k0.next[n] == b;
      }
    }
  }

  lemma FarPrev<T>(s: set<Node<T>>, k0: Row<T>, k1: Row<T>, a: Node<T>, b: Node<T>)
    requires a in s && b in s && a != b && k0.next.Keys == k0.prev.Keys == k1.next.Keys == k1.prev.Keys == s
    requires ListLinks(s, k0) && k0.next[a] != b && k0.next[b] != a && k0.next[a] != a && k0.next[b] != b
    requires FarForm(s, k0, k1, a, b)
    ensures Swapped(s, k0.prev, k1.prev, a, b)
  {
    forall n {:trigger k1.prev[n]} | n in s ensures k1.prev[n] == Swap(a, b, k0.prev[Swap(a, b, n)]) {
      if n != a && n != b {
        assert n == k0.next[a] <==> k0.prev[n] == a;
        assert n == k0.next[b] <==> k0.prev[n] == b;
      } else {
        assert k0.prev[a] != a && k0.prev[a] != b && k0.prev[b] != a && k0.prev[b] != b;
      }
    }
  }

  /** The sibling part of exchange_nodes. */
  method ExchangeRow<T>(ghost s: set<Node<T>>, e: Ends<T>, a: Node<T>, b: Node<T>)
    requires a in s && b in s && a != b && ListLinks(s, RowOf(s))
    requires forall n {:trigger n.next} :: n in s ==> (n.next == null <==> n == e.last)
    requires a.next != a && b.next != b && a.prev != a && b.prev != b && !(a.next == b && b.next == a)
    modifies s`next, s`prev, e`last
    ensures RowSwapped(s, old(RowOf(s)), RowOf(s), a, b)
    ensures e.last == Swap(a, b, old(e.last))
  {
    hide ListLinks, NeighbourForm, FarForm, Swapped;
    ghost var k0 := RowOf(s);
    assert k0.next[a] == a.next && k0.next[b] == b.next && k0.prev[a] == a.prev && k0.prev[b] == b.prev;
    if a.next == b {
      ExchangeNeighbours(s, e, a, b);
      NeighbourSwap(s, k0, RowOf(s), a, b);
    } else if b.next == a {
      ExchangeNeighbours(s, e, b, a);
      ghost var k1 := RowOf(s);
      NeighbourSwap(s, k0, k1, b, a);
      EitherWay(s, k0.next, k1.next, a, b);
      EitherWay(s, k0.prev, k1.prev, a, b);
    } else {
      ExchangeFar(s, e, a, b);
      FarNext(s, k0, RowOf(s), a, b);
      FarPrev(s, k0, RowOf(s), a, b);
    }
  }
}
