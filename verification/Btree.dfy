/**
  The intrusive binary tree with parent links (mk/core/btree.h).

  A `Node` carries the three links of BTREE_NODE and the item it is embedded in.  A `Tree`
  is a BTREE_ROOT.  The ghost `Shape` of a tree says which node hangs where; `Linked` ties
  the shape to the heap, and everything a caller may rely on is a statement about `Inorder`.
  A position in a tree is a `Context`: the tree with one subtree cut out, read from the
  cut up to the root.  The loops of the macros walk contexts up and down.
 */
module Btree {

  class Node<T> {
    const item: T
    var left: Node?<T>
    var right: Node?<T>
    var parent: Node?<T>

    constructor (item: T)
      ensures this.item == item
      ensures Loose()
    {
      this.item := item;
      left, right, parent := null, null, null;
    }

    /** What BTREE_NODE_INIT leaves behind. */
    ghost predicate Loose()
      reads this
    {
      left == null && right == null && parent == null
    }
  }

  datatype Shape<T> = Nil | Fork(l: Shape<T>, n: Node<T>, r: Shape<T>)

  ghost function Root<T>(s: Shape<T>): Node?<T> {
    if s.Nil? then null else s.n
  }

  ghost function Inorder<T>(s: Shape<T>): seq<Node<T>> {
    if s.Nil? then [] else Inorder(s.l) + [s.n] + Inorder(s.r)
  }

  ghost function Nodes<T>(s: Shape<T>): set<Node<T>> {
    if s.Nil? then {} else Nodes(s.l) + {s.n} + Nodes(s.r)
  }

  /** No node occurs twice. */
  ghost predicate Distinct<T>(s: Shape<T>) {
    s.Fork? ==>
      && s.n !in Nodes(s.l) && s.n !in Nodes(s.r) && Nodes(s.l) !! Nodes(s.r)
      && Distinct(s.l) && Distinct(s.r)
  }

  /** The heap links every node of `s` as `s` says, with `up` above its root. */
  ghost predicate Linked<T>(s: Shape<T>, up: Node?<T>)
    reads Nodes(s)
  {
    s.Fork? ==>
      && s.n.left == Root(s.l) && s.n.right == Root(s.r) && s.n.parent == up
      && Linked(s.l, s.n) && Linked(s.r, s.n)
  }

  // ---------- Walks ----------

  /** Where a walk ends that goes left at the nodes in `less` and stops at the others in `same`. */
  ghost function Walk<T>(s: Shape<T>, less: set<Node<T>>, same: set<Node<T>>): Node?<T> {
    if s.Nil? then null
    else if s.n in less then Walk(s.l, less, same)
    else if s.n in same then s.n
    else Walk(s.r, less, same)
  }

  /** The tree with a leaf where a walk falls off that goes left at the nodes in `less` and right at the others. */
  ghost function Planted<T>(s: Shape<T>, v: Node<T>, less: set<Node<T>>): Shape<T> {
    if s.Nil? then Fork(Nil, v, Nil)
    else if s.n in less then Fork(Planted(s.l, v, less), s.n, s.r)
    else Fork(s.l, s.n, Planted(s.r, v, less))
  }

  /** A walk ends at a hit, or between neighbours it has tried and passed. */
  lemma {:induction false} WalkPlace<T>(s: Shape<T>, less: set<Node<T>>, same: set<Node<T>>) returns (k: nat)
    ensures k <= |Inorder(s)|
    ensures var hit := Walk(s, less, same);
            && (hit != null ==> k < |Inorder(s)| && hit == Inorder(s)[k] && hit !in less && hit in same)
            && (hit == null && k > 0 ==> Inorder(s)[k - 1] !in less && Inorder(s)[k - 1] !in same)
            && (hit == null && k < |Inorder(s)| ==> Inorder(s)[k] in less)
  {
    if s.Nil? {
      k := 0;
    } else if s.n in less {
      k := WalkPlace(s.l, less, same);
    } else if s.n in same {
      k := |Inorder(s.l)|;
    } else {
      k := WalkPlace(s.r, less, same);
      k := |Inorder(s.l)| + 1 + k;
    }
  }

  /** The leaf stands between a node the walk went right at and one it went left at. */
  lemma {:induction false} PlantedPlace<T>(s: Shape<T>, v: Node<T>, less: set<Node<T>>) returns (k: nat)
    ensures k <= |Inorder(s)| && Inorder(Planted(s, v, less)) == Inorder(s)[..k] + [v] + Inorder(s)[k..]
    ensures k > 0 ==> Inorder(s)[k - 1] !in less
    ensures k < |Inorder(s)| ==> Inorder(s)[k] in less
  {
    if s.Nil? {
      k := 0;
    } else if s.n in less {
      k := PlantedPlace(s.l, v, less);
      PutLeft(Inorder(s.l), Inorder(s.r), s.n, k, v);
    } else {
      var j := PlantedPlace(s.r, v, less);
      k := |Inorder(s.l)| + 1 + j;
      PutRight(Inorder(s.l), Inorder(s.r), s.n, j, v);
    }
  }

  lemma PutLeft<T>(l: seq<T>, r: seq<T>, n: T, k: nat, v: T)
    requires k <= |l|
    ensures l[..k] + [v] + l[k..] + [n] + r == (l + [n] + r)[..k] + [v] + (l + [n] + r)[k..]
  {
  }

  lemma PutRight<T>(l: seq<T>, r: seq<T>, n: T, k: nat, v: T)
    requires k <= |r|
    ensures var j := |l| + 1 + k;
            l + [n] + (r[..k] + [v] + r[k..]) == (l + [n] + r)[..j] + [v] + (l + [n] + r)[j..]
  {
  }

  // ---------- Contexts ----------

  datatype Context<T> =
    | Top
    | InLeft(up: Context<T>, n: Node<T>, r: Shape<T>)
    | InRight(up: Context<T>, l: Shape<T>, n: Node<T>)

  ghost function Plug<T>(c: Context<T>, s: Shape<T>): Shape<T> {
    match c
    case Top => s
    case InLeft(up, n, r) => Plug(up, Fork(s, n, r))
    case InRight(up, l, n) => Plug(up, Fork(l, n, s))
  }

  ghost function Above<T>(c: Context<T>): Node?<T> {
    if c.Top? then null else c.n
  }

  ghost function ContextNodes<T>(c: Context<T>): set<Node<T>> {
    match c
    case Top => {}
    case InLeft(up, n, r) => ContextNodes(up) + {n} + Nodes(r)
    case InRight(up, l, n) => ContextNodes(up) + {n} + Nodes(l)
  }

  ghost function Before<T>(c: Context<T>): seq<Node<T>> {
    match c
    case Top => []
    case InLeft(up, n, r) => Before(up)
    case InRight(up, l, n) => Before(up) + Inorder(l) + [n]
  }

  ghost function After<T>(c: Context<T>): seq<Node<T>> {
    match c
    case Top => []
    case InLeft(up, n, r) => [n] + Inorder(r) + After(up)
    case InRight(up, l, n) => After(up)
  }

  ghost predicate ContextDistinct<T>(c: Context<T>) {
    match c
    case Top => true
    case InLeft(up, n, r) =>
      && n !in ContextNodes(up) && n !in Nodes(r) && Nodes(r) !! ContextNodes(up)
      && Distinct(r) && ContextDistinct(up)
    case InRight(up, l, n) =>
      && n !in ContextNodes(up) && n !in Nodes(l) && Nodes(l) !! ContextNodes(up)
      && Distinct(l) && ContextDistinct(up)
  }

  /** The heap links every node of `c` as `c` says, with `hole` at the cut. */
  ghost predicate Hung<T>(c: Context<T>, hole: Node?<T>)
    reads ContextNodes(c)
  {
    match c
    case Top => true
    case InLeft(up, n, r) =>
      && n.left == hole && n.right == Root(r) && n.parent == Above(up)
      && Linked(r, n) && Hung(up, n)
    case InRight(up, l, n) =>
      && n.left == Root(l) && n.right == hole && n.parent == Above(up)
      && Linked(l, n) && Hung(up, n)
  }

  lemma {:induction false} PlugLinked<T>(c: Context<T>, s: Shape<T>)
    ensures Linked(Plug(c, s), null) <==> Hung(c, Root(s)) && Linked(s, Above(c))
  {
    match c
    case Top =>
    case InLeft(up, n, r) => PlugLinked(up, Fork(s, n, r));
    case InRight(up, l, n) => PlugLinked(up, Fork(l, n, s));
  }

  lemma {:induction false} PlugDistinct<T>(c: Context<T>, s: Shape<T>)
    ensures Nodes(Plug(c, s)) == ContextNodes(c) + Nodes(s)
    ensures Distinct(Plug(c, s)) <==>
            Distinct(s) && ContextDistinct(c) && ContextNodes(c) !! Nodes(s)
  {
    match c
    case Top =>
    case InLeft(up, n, r) => PlugDistinct(up, Fork(s, n, r));
    case InRight(up, l, n) => PlugDistinct(up, Fork(l, n, s));
  }

  lemma Regroup<T>(a: seq<T>, x: seq<T>, n: seq<T>, y: seq<T>, b: seq<T>)
    ensures a + (x + n + y) + b == a + x + (n + y + b)
    ensures a + (x + n + y) + b == (a + x + n) + y + b
  {
  }

  lemma {:induction false} PlugInorder<T>(c: Context<T>, s: Shape<T>)
    ensures Inorder(Plug(c, s)) == Before(c) + Inorder(s) + After(c)
  {
    match c
    case Top =>
    case InLeft(up, n, r) =>
      PlugInorder(up, Fork(s, n, r));
      Regroup(Before(up), Inorder(s), [n], Inorder(r), After(up));
    case InRight(up, l, n) =>
      PlugInorder(up, Fork(l, n, s));
      Regroup(Before(up), Inorder(l), [n], Inorder(s), After(up));
  }

  /** The root of the tree around a cut that holds `hole`. */
  ghost function Head<T>(c: Context<T>, hole: Node?<T>): Node?<T> {
    if c.Top? then hole else Head(c.up, c.n)
  }

  lemma {:induction false} PlugRoot<T>(c: Context<T>, s: Shape<T>)
    ensures Root(Plug(c, s)) == Head(c, Root(s))
    ensures !c.Top? ==> Head(c, Root(s)) != null && Head(c, Root(s)) in ContextNodes(c)
  {
    match c
    case Top =>
    case InLeft(up, n, r) => PlugRoot(up, Fork(s, n, r));
    case InRight(up, l, n) => PlugRoot(up, Fork(l, n, s));
  }

  /** What a plugged shape says, all at once. */
  lemma PlugFacts<T>(c: Context<T>, s: Shape<T>)
    ensures Linked(Plug(c, s), null) <==> Hung(c, Root(s)) && Linked(s, Above(c))
    ensures Nodes(Plug(c, s)) == ContextNodes(c) + Nodes(s)
    ensures Distinct(Plug(c, s)) <==>
            Distinct(s) && ContextDistinct(c) && ContextNodes(c) !! Nodes(s)
    ensures Root(Plug(c, s)) == Head(c, Root(s))
    ensures !c.Top? ==> Head(c, Root(s)) != null && Head(c, Root(s)) in ContextNodes(c)
  {
    PlugRoot(c, s);
    PlugLinked(c, s);
    PlugDistinct(c, s);
  }

  /** `all` falls apart into the nodes of `s`, the node `v` and the nodes of `u`. */
  ghost predicate Apart<T>(all: set<Node<T>>, s: Shape<T>, v: Node<T>, u: Shape<T>) {
    && all == Nodes(s) + {v} + Nodes(u)
    && v !in Nodes(s) && v !in Nodes(u) && Nodes(s) !! Nodes(u) && Distinct(s) && Distinct(u)
  }

  /** The shape `u` holds neither the node above the cut `c` nor `iter`. */
  ghost predicate Aside<T>(u: Shape<T>, c: Context<T>, iter: Node?<T>) {
    (c.Top? || c.n !in Nodes(u)) && (iter == null || iter !in Nodes(u))
  }

  /** Taking the root of `s` out of the tree and leaving only its subtree `t` behind. */
  lemma SplitNodes<T>(c: Context<T>, s: Shape<T>, t: Shape<T>, u: Shape<T>)
    requires s.Fork? && ((t == s.l && u == s.r) || (t == s.r && u == s.l))
    requires Distinct(Plug(c, s))
    ensures Apart(Nodes(Plug(c, s)), Plug(c, t), s.n, u)
    ensures ContextDistinct(c) && s.n !in ContextNodes(c) && Nodes(t) !! ContextNodes(c) && Distinct(t)
    ensures s.n !in Nodes(t)
    ensures !c.Top? ==> c.n in Nodes(Plug(c, t))
    ensures t.Fork? ==> t.n in Nodes(Plug(c, t))
    ensures Aside(u, c, Root(t))
  {
    PlugDistinct(c, s);
    PlugDistinct(c, t);
  }

  /** The subtree `t` hangs below `v`, and `v` at the cut `c`. */
  ghost predicate Swappable<T>(c: Context<T>, v: Node<T>, t: Shape<T>)
    reads ContextNodes(c), v, Nodes(t)
  {
    && Hung(c, v) && ContextDistinct(c) && v !in ContextNodes(c) && v.parent == Above(c)
    && Linked(t, v) && Distinct(t) && Nodes(t) !! ContextNodes(c) && v !in Nodes(t)
  }

  /** What the links around the root of `s` are, before its subtree `t` takes its place. */
  lemma ReadyToSwap<T>(c: Context<T>, s: Shape<T>, t: Shape<T>, u: Shape<T>)
    requires s.Fork? && ((t == s.l && u == s.r) || (t == s.r && u == s.l))
    requires Distinct(Plug(c, s)) && Linked(Plug(c, s), null)
    ensures Apart(Nodes(Plug(c, s)), Plug(c, t), s.n, u) && Aside(u, c, Root(t))
    ensures Swappable(c, s.n, t) && Linked(u, s.n) && Root(Plug(c, s)) == Head(c, s.n)
    ensures !c.Top? ==> c.n in Nodes(Plug(c, s))
    ensures t.Fork? ==> t.n in Nodes(Plug(c, s))
  {
    SplitNodes(c, s, t, u);
    PlugLinked(c, s);
    PlugRoot(c, s);
  }

  /** A leaf hung at the open cut `c`. */
  lemma LeafNodes<T>(c: Context<T>, v: Node<T>)
    requires Distinct(Plug(c, Nil)) && v !in Nodes(Plug(c, Nil)) && !c.Top?
    ensures Distinct(Plug(c, Fork(Nil, v, Nil)))
    ensures Nodes(Plug(c, Fork(Nil, v, Nil))) == Nodes(Plug(c, Nil)) + {v}
    ensures Root(Plug(c, Fork(Nil, v, Nil))) == Root(Plug(c, Nil))
  {
    PlugDistinct(c, Nil);
    PlugDistinct(c, Fork(Nil, v, Nil));
    PlugRoot(c, Nil);
    PlugRoot(c, Fork(Nil, v, Nil));
  }

  lemma GraftCut<T>(all: set<Node<T>>, v: Node<T>, l: Shape<T>, d: Context<T>, m: Shape<T>)
    requires m.Fork? && l.Fork? && Apart(all, Plug(d, m), v, l)
    ensures v != m.n && m.n in all && l.n in all
    ensures m.n !in ContextNodes(d) && m.n !in Nodes(m.r) && m.n !in Nodes(l)
    ensures Nodes(l) !! ContextNodes(d) && Nodes(l) !! Nodes(m.r)
  {
    PlugDistinct(d, m);
  }

  /** The nodes of the tree at the cut `d`, after `l` went below its leftmost node. */
  lemma GraftNodes<T>(l: Shape<T>, d: Context<T>, m: Shape<T>)
    requires m.Fork? && m.l.Nil?
    requires Distinct(Plug(d, m)) && Distinct(l) && Nodes(l) !! Nodes(Plug(d, m))
    ensures Distinct(Plug(d, Fork(l, m.n, m.r)))
    ensures Nodes(Plug(d, Fork(l, m.n, m.r))) == Nodes(Plug(d, m)) + Nodes(l)
    ensures Root(Plug(d, Fork(l, m.n, m.r))) == Root(Plug(d, m))
  {
    PlugDistinct(d, m);
    PlugDistinct(d, Fork(l, m.n, m.r));
    PlugRoot(d, m);
    PlugRoot(d, Fork(l, m.n, m.r));
  }

  lemma Cancel<T>(a: seq<T>, x: seq<T>, y: seq<T>)
    requires a + x == a + y
    ensures x == y
  {
    assert x == (a + x)[|a|..];
    assert y == (a + y)[|a|..];
  }

  lemma Assoc<T>(a: seq<T>, b: seq<T>, c: seq<T>)
    ensures a + b + c == a + (b + c)
  {
  }

  lemma Shift<T>(a: seq<T>, x: seq<T>, n: seq<T>, y: seq<T>, b: seq<T>, z: seq<T>)
    requires z == n + y + b
    ensures a + (x + n + y) + b == a + (x + z)
  {
  }

  /** `b` is `a` without its element at place `k`. */
  ghost predicate Without<T>(a: seq<T>, b: seq<T>, k: nat) {
    k < |a| && b == a[..k] + a[k + 1..]
  }

  lemma Drop<T>(s: seq<T>, t: seq<T>, k: nat, a: seq<T>, x: seq<T>, n: T, y: seq<T>, b: seq<T>)
    requires s == a + (x + [n] + y) + b && t == a + (x + (y + b)) && k == |a| + |x|
    ensures Without(s, t, k)
  {
    assert s[..k] == a + x;
    assert s[k + 1..] == y + b;
  }

  lemma Empty<T>(a: seq<T>, x: seq<T>, b: seq<T>)
    ensures a + x + b == a + ([] + (x + b)) == a + (x + ([] + b))
  {
  }

  /** Taking out the root of `s`, which has at most the child subtree `t`. */
  lemma OneChild<T>(c: Context<T>, s: Shape<T>, t: Shape<T>, k: nat)
    requires s.Fork? && k == |Before(c)| + |Inorder(s.l)|
    requires (s.l.Nil? && t == s.r) || (s.r.Nil? && t == s.l)
    ensures Without(Inorder(Plug(c, s)), Inorder(Plug(c, t)), k)
  {
    PlugInorder(c, s);
    PlugInorder(c, t);
    Empty(Before(c), Inorder(t), After(c));
    Drop(Inorder(Plug(c, s)), Inorder(Plug(c, t)), k, Before(c), Inorder(s.l), s.n, Inorder(s.r), After(c));
  }

  /** Taking out the root of `s` and hanging its left subtree below the leftmost node of its right one. */
  lemma TwoChildren<T>(c: Context<T>, s: Shape<T>, d: Context<T>, m: Shape<T>, k: nat)
    requires s.Fork? && k == |Before(c)| + |Inorder(s.l)|
    requires m.Fork? && m.l.Nil? && Plug(d, m) == Plug(c, s.r) && Before(d) == Before(c)
    ensures Without(Inorder(Plug(c, s)), Inorder(Plug(d, Fork(s.l, m.n, m.r))), k)
  {
    PlugInorder(c, s);
    GraftInorder(c, s.l, s.r, d, m);
    Drop(Inorder(Plug(c, s)), Inorder(Plug(d, Fork(s.l, m.n, m.r))), k,
         Before(c), Inorder(s.l), s.n, Inorder(s.r), After(c));
  }

  lemma GraftInorder<T>(c: Context<T>, l: Shape<T>, r: Shape<T>, d: Context<T>, m: Shape<T>)
    requires m.Fork? && m.l.Nil? && Plug(d, m) == Plug(c, r) && Before(d) == Before(c)
    ensures Inorder(Plug(d, Fork(l, m.n, m.r))) == Before(c) + (Inorder(l) + (Inorder(r) + After(c)))
  {
    PlugInorder(d, m);
    PlugInorder(c, r);
    PlugInorder(d, Fork(l, m.n, m.r));
    GraftSeq(Before(c), Inorder(l), m.n, Inorder(m.r), After(d), Inorder(r), After(c));
  }

  lemma GraftSeq<T>(a: seq<T>, x: seq<T>, n: T, y: seq<T>, b: seq<T>, r: seq<T>, e: seq<T>)
    requires a + ([] + [n] + y) + b == a + r + e
    ensures a + (x + [n] + y) + b == a + (x + (r + e))
  {
    Assoc(a, r, e);
    Assoc(a, [] + [n] + y, b);
    Cancel(a, r + e, [] + [n] + y + b);
    assert [] + [n] + y + b == [n] + y + b;
    Shift(a, x, [n], y, b, r + e);
  }

  lemma {:induction false} InorderNodes<T>(s: Shape<T>, n: Node<T>)
    ensures n in Inorder(s) <==> n in Nodes(s)
  {
    if s.Fork? {
      InorderNodes(s.l, n);
      InorderNodes(s.r, n);
    }
  }

  /** The in-order sequence of a distinct shape repeats nothing. */
  lemma {:induction false} InorderInjective<T>(s: Shape<T>, i: nat, j: nat)
    requires Distinct(s) && i < j < |Inorder(s)|
    ensures Inorder(s)[i] != Inorder(s)[j]
  {
    var a := |Inorder(s.l)|;
    var x, y := Inorder(s)[i], Inorder(s)[j];
    if j < a {
      InorderInjective(s.l, i, j);
    } else if i > a {
      InorderInjective(s.r, i - a - 1, j - a - 1);
    } else {
      assert i < a ==> x == Inorder(s.l)[i];
      assert j > a ==> y == Inorder(s.r)[j - a - 1];
      InorderNodes(s.l, x);
      InorderNodes(s.r, y);
    }
  }

  /** Cut `s` at the node that stands at place `k` of its in-order sequence. */
  lemma {:induction false} CutAt<T>(c: Context<T>, s: Shape<T>, k: nat)
    returns (d: Context<T>, t: Shape<T>)
    requires k < |Inorder(s)|
    ensures Plug(d, t) == Plug(c, s) && t.Fork? && t.n == Inorder(s)[k]
    ensures |Before(d)| + |Inorder(t.l)| == |Before(c)| + k
    decreases s
  {
    var a := |Inorder(s.l)|;
    if k < a {
      d, t := CutAt(InLeft(c, s.n, s.r), s.l, k);
    } else if k == a {
      d, t := c, s;
    } else {
      d, t := CutAt(InRight(c, s.l, s.n), s.r, k - a - 1);
    }
  }

  // ---------- The tree ----------

  // ---------- Trees in order of a key ----------

  ghost predicate Sorted<T>(nodes: seq<Node<T>>, key: T -> int) {
    forall i, j :: 0 <= i < j < |nodes| ==> key(nodes[i].item) <= key(nodes[j].item)
  }

  /** Inserted at the place that Insert finds by comparing keys, a node leaves a sorted tree sorted. */
  lemma InsertSorted<T>(before: seq<Node<T>>, after: seq<Node<T>>, v: Node<T>, k: nat, key: T -> int)
    requires Sorted(before, key) && k <= |before| && after == before[..k] + [v] + before[k..]
    requires k > 0 ==> !(key(v.item) < key(before[k - 1].item))
    requires k < |before| ==> key(v.item) < key(before[k].item)
    ensures Sorted(after, key)
  {
    assert forall i :: 0 <= i < |after| ==> after[i] == if i < k then before[i] else if i == k then v else before[i - 1];
    forall i, j | 0 <= i < j < |after| ensures key(after[i].item) <= key(after[j].item) {
      if i < k && j == k {
        assert key(before[i].item) <= key(before[k - 1].item);
      } else if i == k {
        assert key(before[k].item) <= key(before[j - 1].item);
      }
    }
  }

  /** Where Find falls off a sorted tree comparing keys with `x`, no node of the tree has the key `x`. */
  lemma MissSorted<T>(nodes: seq<Node<T>>, k: nat, key: T -> int, x: int)
    requires Sorted(nodes, key) && k <= |nodes|
    requires k > 0 ==> !(x < key(nodes[k - 1].item)) && x != key(nodes[k - 1].item)
    requires k < |nodes| ==> x < key(nodes[k].item)
    ensures forall i :: 0 <= i < |nodes| ==> key(nodes[i].item) != x
  {
    forall i | 0 <= i < |nodes| ensures key(nodes[i].item) != x {
      if i < k {
        assert key(nodes[i].item) <= key(nodes[k - 1].item);
      } else {
        assert key(nodes[k].item) <= key(nodes[i].item);
      }
    }
  }

  /** A removal leaves a sorted tree sorted. */
  lemma RemoveSorted<T>(before: seq<Node<T>>, after: seq<Node<T>>, k: nat, key: T -> int)
    requires Sorted(before, key) && k < |before| && Without(before, after, k)
    ensures Sorted(after, key)
  {
  }

  class Tree<T> {
    var child: Node?<T>
    ghost var shape: Shape<T>
    ghost var repr: set<Node<T>>

    ghost predicate Valid()
      reads this, repr
    {
      repr == Nodes(shape) && child == Root(shape) && Linked(shape, null) && Distinct(shape)
    }

    ghost function Contents(): seq<Node<T>>
      reads this
    {
      Inorder(shape)
    }

    /** The nodes in the in-order sequence are those of the representation. */
    lemma Members()
      requires Valid()
      ensures forall k :: 0 <= k < |Contents()| ==> Contents()[k] in repr
    {
      forall k | 0 <= k < |Contents()| ensures Contents()[k] in repr {
        InorderNodes(shape, Contents()[k]);
      }
    }

    lemma PlaceOf(n: Node<T>) returns (k: nat)
      requires Valid() && n in repr
      ensures k < |Contents()| && Contents()[k] == n
    {
      InorderNodes(shape, n);
      k :| 0 <= k < |Contents()| && Contents()[k] == n;
    }

    /** BTREE_ROOT_INIT */
    constructor ()
      ensures Valid() && Contents() == [] && repr == {}
    {
      child := null;
      shape, repr := Nil, {};
    }

    /** The nodes of which a test holds. */
    ghost function Those(test: T ~> bool): set<Node<T>>
      requires forall n :: n in repr ==> test.requires(n.item)
      reads this, set n, o | n in repr && o in test.reads(n.item) :: o
    {
      set n | n in repr && test(n.item)
    }

    /**
      BTREE_FIND.  Following `cmp` the walk ends at a hit, or falls off the tree at a place
      `k` whose left neighbour it has tried and whose right neighbour it has passed.
     */
    method Find(cmp: T ~> bool, matches: T ~> bool) returns (hit: Node?<T>, ghost k: nat)
      requires Valid()
      requires forall n :: n in repr ==> cmp.requires(n.item) && matches.requires(n.item)
      ensures hit == Walk(shape, Those(cmp), Those(matches))
      ensures k <= |Contents()|
      ensures hit != null ==>
                && k < |Contents()| && hit == Contents()[k] && hit in repr
                && !cmp(hit.item) && matches(hit.item)
      ensures hit == null && k > 0 ==>
                var p := Contents()[k - 1]; p in repr && !cmp(p.item) && !matches(p.item)
      ensures hit == null && k < |Contents()| ==>
                var q := Contents()[k]; q in repr && cmp(q.item)
    {
      hit := FindFrom(cmp, matches);
      k := WalkPlace(shape, Those(cmp), Those(matches));
      Members();
    }

    /** The loop of BTREE_FIND. */
    method FindFrom(cmp: T ~> bool, matches: T ~> bool) returns (hit: Node?<T>)
      requires Valid()
      requires forall n :: n in repr ==> cmp.requires(n.item) && matches.requires(n.item)
      ensures hit == Walk(shape, Those(cmp), Those(matches))
    {
      ghost var s, up, less, same := shape, null, Those(cmp), Those(matches);
      var iter := child;
      if iter == null {
        return null;
      }
      while true
        invariant iter == Root(s) && s.Fork? && Linked(s, up) && Nodes(s) <= repr
        invariant Walk(s, less, same) == Walk(shape, less, same)
        decreases s
      {
        if cmp(iter.item) {
          if iter.left == null {
            return null;
          }
          iter := iter.left;
          s, up := s.l, s.n;
          continue;
        }
        if matches(iter.item) {
          return iter;
        }
        if iter.right == null {
          return null;
        }
        iter := iter.right;
        s, up := s.r, s.n;
      }
    }

    /**
      BTREE_INSERT.  The node lands between a left neighbour it does not precede and a right
      neighbour it does; nothing else moves.
     */
    method Insert(v: Node<T>, cmp: T ~> bool) returns (ghost k: nat)
      requires Valid() && v !in repr && v.Loose()
      requires forall n :: n in repr ==> cmp.requires(n.item)
      modifies this, repr, v
      ensures Valid() && repr == old(repr) + {v}
      ensures shape == Planted(old(shape), v, old(Those(cmp)))
      ensures k <= |old(Contents())|
      ensures Contents() == old(Contents())[..k] + [v] + old(Contents())[k..]
      ensures k > 0 ==> var p := old(Contents())[k - 1]; p in old(repr) && !old(cmp(p.item))
      ensures k < |old(Contents())| ==> var q := old(Contents())[k]; q in old(repr) && old(cmp(q.item))
    {
      Members();
      k := PlantedPlace(shape, v, Those(cmp));
      Grow(v, cmp);
    }

    /** The code of BTREE_INSERT. */
    method Grow(v: Node<T>, cmp: T ~> bool)
      requires Valid() && v !in repr && v.Loose()
      requires forall n :: n in repr ==> cmp.requires(n.item)
      modifies this, repr, v
      ensures Valid() && repr == old(repr) + {v}
      ensures shape == Planted(old(shape), v, old(Those(cmp)))
    {
      var iter := child;
      if iter == null {
        child := v;
        v.parent := iter;
        shape, repr := Fork(Nil, v, Nil), {v};
        return;
      }
      var left;
      ghost var c;
      iter, left, c := Descend(cmp, v);
      LinkLeaf(v, iter, left, c);
    }

    /** The loop of BTREE_INSERT_SUB, up to the open slot it stops at. */
    method Descend(cmp: T ~> bool, ghost v: Node<T>) returns (iter: Node<T>, left: bool, ghost c: Context<T>)
      requires Valid() && child != null
      requires forall n :: n in repr ==> cmp.requires(n.item)
      ensures !c.Top? && c.n == iter && iter in repr && left == c.InLeft? && shape == Plug(c, Nil)
      ensures Plug(c, Fork(Nil, v, Nil)) == Planted(shape, v, Those(cmp))
    {
      iter := child;
      c := Top;
      ghost var s, less := shape, Those(cmp);
      while true
        invariant iter == Root(s) && s.Fork? && Linked(s, Above(c)) && Nodes(s) <= repr
        invariant Plug(c, s) == shape && Plug(c, Planted(s, v, less)) == Planted(shape, v, less)
        decreases s
      {
        if cmp(iter.item) {
          if iter.left == null {
            return iter, true, InLeft(c, s.n, s.r);
          }
          iter := iter.left;
          c, s := InLeft(c, s.n, s.r), s.l;
          continue;
        }
        if iter.right == null {
          return iter, false, InRight(c, s.l, s.n);
        }
        iter := iter.right;
        c, s := InRight(c, s.l, s.n), s.r;
      }
    }

    /** The two assignments that end BTREE_INSERT_SUB. */
    method LinkLeaf(v: Node<T>, iter: Node<T>, left: bool, ghost c: Context<T>)
      requires Valid() && v !in repr && v.Loose()
      requires !c.Top? && c.n == iter && left == c.InLeft? && shape == Plug(c, Nil)
      modifies this`shape, this`repr, iter, v
      ensures Valid() && repr == old(repr) + {v} && shape == Plug(c, Fork(Nil, v, Nil))
    {
      PlugFacts(c, Nil);
      if left {
        iter.left := v;
      } else {
        iter.right := v;
      }
      v.parent := iter;
      Attach(c, v);
    }

    /** The shape after the loose node `v` was hung at the open cut of `c`. */
    ghost method Attach(c: Context<T>, v: Node<T>)
      requires !c.Top? && shape == Plug(c, Nil) && child == Root(shape) && Distinct(shape)
      requires repr == Nodes(shape) && v !in repr
      requires v.left == null && v.right == null && v.parent == Above(c)
      requires Hung(c, v)
      modifies this`shape, this`repr
      ensures Valid() && repr == old(repr) + {v} && shape == Plug(c, Fork(Nil, v, Nil))
    {
      PlugLinked(c, Fork(Nil, v, Nil));
      LeafNodes(c, v);
      shape, repr := Plug(c, Fork(Nil, v, Nil)), repr + {v};
    }

    /** BTREE_MIN_SUB: the leftmost node below `node`, which heads the subtree `s` cut at `c`. */
    method MinSub(node: Node?<T>, ghost c: Context<T>, ghost s: Shape<T>)
      returns (v: Node?<T>, ghost d: Context<T>, ghost t: Shape<T>)
      requires Linked(s, Above(c)) && node == Root(s)
      ensures v == if Inorder(s) == [] then null else Inorder(s)[0]
      ensures v == Root(t) && Plug(d, t) == Plug(c, s) && Before(d) == Before(c)
      ensures s.Fork? ==> t.Fork? && t.l.Nil?
    {
      v, d, t := node, c, s;
      if node == null {
        return;
      }
      while v.left != null
        invariant v == Root(t) && t.Fork? && Linked(t, Above(d))
        invariant Plug(d, t) == Plug(c, s) && Before(d) == Before(c)
        invariant Inorder(t)[0] == Inorder(s)[0]
        decreases t
      {
        v := v.left;
        d, t := InLeft(d, t.n, t.r), t.l;
      }
    }

    /** BTREE_MAX_SUB */
    method MaxSub(node: Node?<T>, ghost s: Shape<T>, ghost up: Node?<T>) returns (v: Node?<T>)
      requires Linked(s, up) && node == Root(s)
      ensures v == if Inorder(s) == [] then null else Inorder(s)[|Inorder(s)| - 1]
    {
      v := node;
      if node == null {
        return;
      }
      ghost var t, u := s, up;
      while v.right != null
        invariant v == Root(t) && t.Fork? && Linked(t, u)
        invariant Inorder(t)[|Inorder(t)| - 1] == Inorder(s)[|Inorder(s)| - 1]
        decreases t
      {
        v := v.right;
        u, t := t.n, t.r;
      }
    }

    /** BTREE_MIN */
    method Min() returns (v: Node?<T>)
      requires Valid()
      ensures v == if Contents() == [] then null else Contents()[0]
    {
      ghost var d, t;
      v, d, t := MinSub(child, Top, shape);
    }

    /** BTREE_MAX */
    method Max() returns (v: Node?<T>)
      requires Valid()
      ensures v == if Contents() == [] then null else Contents()[|Contents()| - 1]
    {
      v := MaxSub(child, shape, null);
    }

    /** BTREE_NEXT: the in-order successor of the node at place `k`. */
    method Next(n: Node<T>, ghost k: nat) returns (v: Node?<T>)
      requires Valid() && k < |Contents()| && Contents()[k] == n
      ensures v == if k + 1 < |Contents()| then Contents()[k + 1] else null
    {
      ghost var c, s := CutAt(Top, shape, k);
      PlugFacts(c, s);
      PlugInorder(c, s);
      if n.right != null {
        ghost var d, t;
        v, d, t := MinSub(n.right, InRight(c, s.l, n), s.r);
      } else {
        v := ClimbRight(n, c, s);
      }
    }

    /** The upward loop of BTREE_NEXT, from a node whose subtree is done. */
    method ClimbRight(n: Node<T>, ghost c: Context<T>, ghost s: Shape<T>) returns (v: Node?<T>)
      requires Hung(c, n) && ContextDistinct(c)
      requires s.Fork? && s.n == n && n.parent == Above(c) && ContextNodes(c) !! Nodes(s)
      ensures v == if After(c) == [] then null else After(c)[0]
    {
      v := n;
      ghost var d, t := c, {n};
      while true
        invariant v != null && v in t && t !! ContextNodes(d)
        invariant Hung(d, v) && ContextDistinct(d) && v.parent == Above(d) && After(d) == After(c)
        decreases d
      {
        if v.parent == null {
          return null;
        }
        if v.parent.left == v {
          return v.parent;
        }
        v := v.parent;
        d, t := d.up, {v};
      }
    }

    /** BTREE_PREV: the in-order predecessor of the node at place `k`. */
    method Prev(n: Node<T>, ghost k: nat) returns (v: Node?<T>)
      requires Valid() && k < |Contents()| && Contents()[k] == n
      ensures v == if k > 0 then Contents()[k - 1] else null
    {
      ghost var c, s := CutAt(Top, shape, k);
      PlugFacts(c, s);
      PlugInorder(c, s);
      if n.left != null {
        v := MaxSub(n.left, s.l, n);
      } else {
        v := ClimbLeft(n, c, s);
      }
    }

    /** The upward loop of BTREE_PREV. */
    method ClimbLeft(n: Node<T>, ghost c: Context<T>, ghost s: Shape<T>) returns (v: Node?<T>)
      requires Hung(c, n) && ContextDistinct(c)
      requires s.Fork? && s.n == n && n.parent == Above(c) && ContextNodes(c) !! Nodes(s)
      ensures v == if Before(c) == [] then null else Before(c)[|Before(c)| - 1]
    {
      v := n;
      ghost var d, t := c, {n};
      while true
        invariant v != null && v in t && t !! ContextNodes(d)
        invariant Hung(d, v) && ContextDistinct(d) && v.parent == Above(d) && Before(d) == Before(c)
        decreases d
      {
        if v.parent == null {
          return null;
        }
        if v.parent.right == v {
          return v.parent;
        }
        v := v.parent;
        d, t := d.up, {v};
      }
    }

    /** BTREE_FOREACH: every node once, in order; the method run on a node is its record here. */
    method Foreach() returns (visited: seq<Node<T>>)
      requires Valid()
      ensures visited == Contents()
    {
      visited := [];
      var v := Min();
      while v != null
        invariant Valid() && visited <= Contents()
        invariant v == if |visited| < |Contents()| then Contents()[|visited|] else null
        decreases |Contents()| - |visited|
      {
        visited := visited + [v];
        v := Next(v, |visited| - 1);
      }
    }

    /** The walk of BTREE_MAX and BTREE_PREV: every node once, in reverse order. */
    method ForeachReverse() returns (visited: seq<Node<T>>)
      requires Valid()
      ensures |visited| == |Contents()|
      ensures forall i :: 0 <= i < |visited| ==> visited[i] == Contents()[|visited| - 1 - i]
    {
      visited := [];
      var v := Max();
      ghost var k := |Contents()|;
      while v != null
        invariant Valid() && 0 <= k <= |Contents()| && |visited| == |Contents()| - k
        invariant forall i :: 0 <= i < |visited| ==> visited[i] == Contents()[|Contents()| - 1 - i]
        invariant v == if k > 0 then Contents()[k - 1] else null
        decreases k
      {
        visited := visited + [v];
        k := k - 1;
        v := Prev(v, k);
      }
    }

    /**
      The common part of the branches of BTREE_REMOVE_SUB: the subtree `t` below `v`, headed by
      `iter`, takes the place of `v`; the first assignment is to the slot BTREE_REMOVE picked.
     */
    method Splice(v: Node<T>, iter: Node?<T>, ghost c: Context<T>, ghost t: Shape<T>)
      requires Hung(c, v) && ContextDistinct(c) && v !in ContextNodes(c)
      requires v.parent == Above(c) && (child == v <==> c.Top?)
      requires Linked(t, v) && Distinct(t) && Nodes(t) !! ContextNodes(c) && v !in Nodes(t)
      requires iter == Root(t)
      modifies this`child, if c.Top? then {} else {c.n}, if iter == null then {} else {iter}
      ensures Hung(c, iter) && Linked(t, Above(c))
      ensures child == if c.Top? then iter else old(child)
    {
      if child == v {
        child := iter;
      } else if v.parent.left == v {
        v.parent.left := iter;
      } else {
        v.parent.right := iter;
      }
      if iter != null {
        iter.parent := v.parent;
      }
    }

    /** The same, seen from the whole tree: the other subtree `u` stays below the dangling `v`. */
    method Replace(v: Node<T>, iter: Node?<T>, ghost c: Context<T>, ghost t: Shape<T>, ghost u: Shape<T>)
      requires Swappable(c, v, t) && child == Head(c, v) && iter == Root(t)
      requires Linked(u, v) && Aside(u, c, iter) && Apart(repr, Plug(c, t), v, u)
      requires (!c.Top? ==> c.n in repr) && (iter != null ==> iter in repr)
      modifies this`child, repr
      ensures Linked(Plug(c, t), null) && child == Root(Plug(c, t)) && Linked(u, v) && unchanged(v)
    {
      Swap(v, iter, c, t);
      assert Linked(u, v) == old(Linked(u, v));
    }

    /** The same, seen from the subtree that stays. */
    method Swap(v: Node<T>, iter: Node?<T>, ghost c: Context<T>, ghost t: Shape<T>)
      requires Swappable(c, v, t) && child == Head(c, v) && iter == Root(t)
      modifies this`child, if c.Top? then {} else {c.n}, if iter == null then {} else {iter}
      ensures Linked(Plug(c, t), null) && child == Root(Plug(c, t))
    {
      PlugRoot(c, t);
      PlugRoot(c, Fork(Nil, v, Nil));
      Splice(v, iter, c, t);
      PlugLinked(c, t);
    }

    /** The last two assignments of the two-child branch: `l` goes below the leftmost node `iter`. */
    method Hang(v: Node<T>, iter: Node<T>, ghost d: Context<T>, ghost l: Shape<T>, ghost r: Shape<T>)
      requires v != iter && l.Fork? && v.left == l.n && v !in Nodes(l) && Linked(l, v) && Distinct(l)
      requires Hung(d, iter) && iter.right == Root(r) && iter.parent == Above(d) && Linked(r, iter)
      requires iter !in ContextNodes(d) && iter !in Nodes(r) && iter !in Nodes(l)
      requires Nodes(l) !! ContextNodes(d) && Nodes(l) !! Nodes(r)
      modifies iter, l.n
      ensures Hung(d, iter) && Linked(Fork(l, iter, r), Above(d))
    {
      iter.left := v.left;
      v.left.parent := iter;
    }

    /** The rest of the two-child branch: the left subtree goes below the leftmost node of the right one. */
    method Graft(v: Node<T>, ghost c: Context<T>, ghost l: Shape<T>, ghost r: Shape<T>)
      returns (ghost d: Context<T>, ghost m: Shape<T>)
      requires Linked(Plug(c, r), null) && l.Fork? && r.Fork?
      requires v.left == Root(l) && v.right == Root(r) && Linked(l, v)
      requires Apart(repr, Plug(c, r), v, l)
      modifies repr
      ensures m.Fork? && m.l.Nil? && Plug(d, m) == Plug(c, r) && Before(d) == Before(c)
      ensures Linked(Plug(d, Fork(l, m.n, m.r)), null)
    {
      PlugLinked(c, r);
      var iter;
      iter, d, m := MinSub(v.right, c, r);
      PlugLinked(d, m);
      GraftCut(repr, v, l, d, m);
      Hang(v, iter, d, l, m.r);
      PlugLinked(d, Fork(l, m.n, m.r));
    }

    /**
      BTREE_REMOVE.  Whatever children the node has, exactly that node leaves the in-order
      sequence, every remaining link is consistent, and the node is left without links.
     */
    method Remove(v: Node<T>, ghost k: nat)
      requires Valid() && k < |Contents()| && Contents()[k] == v
      modifies this, repr
      ensures Valid() && repr == old(repr) - {v} && v in old(repr) && v.Loose()
      ensures Without(old(Contents()), Contents(), k)
    {
      ghost var t := Unlink(v, k);
      v.left, v.right, v.parent := null, null, null;
      shape, repr := t, repr - {v};
    }

    /** BTREE_REMOVE up to its last step: the tree is now `t`, and `v` dangles. */
    method Unlink(v: Node<T>, ghost k: nat) returns (ghost t: Shape<T>)
      requires Valid() && k < |Contents()| && Contents()[k] == v
      modifies this`child, repr
      ensures Linked(t, null) && Distinct(t) && child == Root(t)
      ensures v in repr && Nodes(t) == repr - {v}
      ensures Without(Contents(), Inorder(t), k)
    {
      ghost var c, s := CutAt(Top, shape, k);
      PlugLinked(c, s);
      Members();
      if v.left == null {
        t := UnlinkOne(v, v.right, c, s, s.r, s.l, k);
      } else if v.right == null {
        t := UnlinkOne(v, v.left, c, s, s.l, s.r, k);
      } else {
        t := UnlinkTwo(v, c, s, k);
      }
    }

    /** The branch for a node with two children. */
    method UnlinkTwo(v: Node<T>, ghost c: Context<T>, ghost s: Shape<T>, ghost k: nat) returns (ghost r: Shape<T>)
      requires Valid() && shape == Plug(c, s) && s.Fork? && s.n == v && s.l.Fork? && s.r.Fork?
      requires v.left == Root(s.l) && v.right == Root(s.r) && k == |Before(c)| + |Inorder(s.l)|
      modifies this`child, repr
      ensures Linked(r, null) && Distinct(r) && child == Root(r) && Nodes(r) == repr - {v}
      ensures Without(Contents(), Inorder(r), k)
    {
      ReadyToSwap(c, s, s.r, s.l);
      Replace(v, v.right, c, s.r, s.l);
      r := GraftAll(v, c, s, k);
    }

    /** The branches for a node with at most one child. */
    method UnlinkOne(v: Node<T>, iter: Node?<T>, ghost c: Context<T>, ghost s: Shape<T>, ghost t: Shape<T>,
                     ghost u: Shape<T>, ghost k: nat) returns (ghost r: Shape<T>)
      requires Valid() && shape == Plug(c, s) && s.Fork? && s.n == v && iter == Root(t) && u.Nil?
      requires ((t == s.l && u == s.r) || (t == s.r && u == s.l)) && k == |Before(c)| + |Inorder(s.l)|
      modifies this`child, repr
      ensures Linked(r, null) && Distinct(r) && child == Root(r) && Nodes(r) == repr - {v}
      ensures Without(Contents(), Inorder(r), k)
    {
      ReadyToSwap(c, s, t, u);
      OneChild(c, s, t, k);
      r := Plug(c, t);
      Replace(v, iter, c, t, u);
    }

    method GraftAll(v: Node<T>, ghost c: Context<T>, ghost s: Shape<T>, ghost k: nat)
      returns (ghost t: Shape<T>)
      requires s.Fork? && s.l.Fork? && s.r.Fork? && s.n == v && k == |Before(c)| + |Inorder(s.l)|
      requires Linked(Plug(c, s.r), null) && child == Root(Plug(c, s.r))
      requires v.left == Root(s.l) && v.right == Root(s.r) && Linked(s.l, v)
      requires Apart(repr, Plug(c, s.r), v, s.l)
      modifies repr
      ensures Linked(t, null) && Distinct(t) && child == Root(t)
      ensures Nodes(t) == repr - {v}
      ensures Without(Inorder(Plug(c, s)), Inorder(t), k)
    {
      ghost var d, m;
      d, m := Graft(v, c, s.l, s.r);
      t := Plug(d, Fork(s.l, m.n, m.r));
      GraftNodes(s.l, d, m);
      TwoChildren(c, s, d, m, k);
    }

    // ---------- By key ----------

    /** BTREE_FIND by key: in a tree in order of the key it finds a node with the key, or there is none. */
    method FindKey(key: T -> int, x: int) returns (hit: Node?<T>, ghost k: nat)
      requires Valid() && Sorted(Contents(), key)
      ensures hit == null <==> forall n :: n in repr ==> key(n.item) != x
      ensures hit != null ==> k < |Contents()| && Contents()[k] == hit && key(hit.item) == x
    {
      hit, k := Find((i: T) => x < key(i), (i: T) => x == key(i));
      if hit == null {
        MissSorted(Contents(), k, key, x);
        forall n | n in repr ensures key(n.item) != x {
          var j := PlaceOf(n);
        }
      }
    }

    /** BTREE_INSERT by key: a tree in order of the key stays so, and the node comes behind all with its key. */
    method InsertKey(v: Node<T>, key: T -> int) returns (ghost k: nat)
      requires Valid() && v !in repr && v.Loose() && Sorted(Contents(), key)
      modifies this, repr, v
      ensures Valid() && repr == old(repr) + {v} && Sorted(Contents(), key)
      ensures k <= |old(Contents())| && Contents() == old(Contents())[..k] + [v] + old(Contents())[k..]
      ensures forall j :: 0 <= j < |old(Contents())| ==> (j < k <==> key(old(Contents())[j].item) <= key(v.item))
    {
      ghost var before := Contents();
      k := Insert(v, (i: T) => key(v.item) < key(i));
      InsertSorted(before, Contents(), v, k, key);
    }

    /** BTREE_REMOVE of what FIND finds: a tree in order of the key stays so. */
    method RemoveKey(key: T -> int, x: int) returns (v: Node?<T>, ghost k: nat)
      requires Valid() && Sorted(Contents(), key)
      modifies this, repr
      ensures Valid() && Sorted(Contents(), key)
      ensures v == null <==> forall n :: n in old(repr) ==> key(n.item) != x
      ensures v == null ==> repr == old(repr) && Contents() == old(Contents())
      ensures v != null ==> v in old(repr) && v.Loose() && key(v.item) == x && repr == old(repr) - {v}
      ensures v != null ==> Without(old(Contents()), Contents(), k) && old(Contents())[k] == v
    {
      ghost var before := Contents();
      v, k := FindKey(key, x);
      if v != null {
        Remove(v, k);
        RemoveSorted(before, Contents(), k, key);
      }
    }
  }
}
