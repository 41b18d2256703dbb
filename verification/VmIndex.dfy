/**
  The address-space allocator (mk/vm/vm_index.c).

  A vm_index is named by its node in the free tree, whose item holds its fields; the nodes
  of the tree by base address hold that name.  The ghost `view` is the base tree read in
  order as extents, and `sizes` the free tree read in order as sizes; what each call does to
  the view is said in `Extents`.  Pool exhaustion is a parameter: `room` is the number of
  indexes the pool can still supply.
 */
module VmIndex {
  import opened Machine
  import opened Queues
  import opened Btree
  import opened Extents

  /** The fields of struct vm_index. */
  class Range {
    const base: nat
    var size: nat
    var inUse: bool

    constructor (base: nat, pages: nat)
      ensures this.base == base && size == pages && !inUse
    {
      this.base, size, inUse := base, pages, false;
    }

    ghost function View(): Extent
      reads this
    {
      Extent(PageOf(base), size, inUse)
    }
  }

  type Index = Node<Range>

  /** The base tree's nodes `ns` hold `order`, whose fields read `view`. */
  ghost predicate Viewed(ns: seq<Node<Index>>, order: seq<Index>, view: seq<Extent>, ranges: set<Range>)
    reads ranges
  {
    && |ns| == |order| == |view|
    && forall k :: 0 <= k < |order| ==>
         && ns[k].item == order[k] && order[k].item in ranges
         && Aligned(order[k].item.base) && view[k] == order[k].item.View()
  }

  ghost function Elements<T>(s: seq<T>): set<T> {
    if s == [] then {} else Elements(s[..|s| - 1]) + {s[|s| - 1]}
  }

  lemma {:induction false} ElementAt<T>(s: seq<T>, k: nat)
    requires k < |s|
    ensures s[k] in Elements(s)
  {
    if k < |s| - 1 {
      ElementAt(s[..|s| - 1], k);
    }
  }

  lemma {:induction false} PlaceOfElement<T>(s: seq<T>, x: T) returns (k: nat)
    requires x in Elements(s)
    ensures k < |s| && s[k] == x
  {
    if s[|s| - 1] == x {
      k := |s| - 1;
    } else {
      k := PlaceOfElement(s[..|s| - 1], x);
    }
  }

  lemma {:induction false} PutElements<T>(s: seq<T>, p: nat, x: T)
    requires p <= |s|
    ensures Elements(Put(s, p, x)) == Elements(s) + {x}
  {
    var t := Put(s, p, x);
    if p == |s| {
      assert t[..|t| - 1] == s;
    } else {
      var u := s[..|s| - 1];
      assert t[..|t| - 1] == Put(u, p, x);
      PutElements(u, p, x);
    }
  }

  /** The free tree's nodes `fs` are exactly the indexes not in use; the others have no links. */
  ghost predicate Listed(order: seq<Index>, view: seq<Extent>, all: set<Index>, fs: set<Index>)
    reads all
  {
    && |order| == |view|
    && (forall k :: 0 <= k < |order| ==> (order[k] in fs <==> !view[k].inUse))
    && all == Elements(order) && fs <= all
    && (forall f :: f in all && f !in fs ==> f.Loose())
  }

  /** The same, but for the index at `k`, which is no longer in use and not yet in the free tree. */
  ghost predicate Unlisted(order: seq<Index>, view: seq<Extent>, all: set<Index>, fs: set<Index>, k: nat)
    reads all
  {
    && k < |order| == |view| && order[k] in all && all == Elements(order) && fs <= all
    && (forall j :: 0 <= j < |order| ==> (order[j] in fs + {order[k]} <==> !view[j].inUse))
    && (forall f :: f in all && f !in fs && f != order[k] ==> f.Loose())
  }

  ghost predicate Sized(fs: seq<Index>, sizes: seq<nat>, ranges: set<Range>)
    reads ranges
  {
    && |fs| == |sizes|
    && forall k :: 0 <= k < |sizes| ==> fs[k].item in ranges && sizes[k] == fs[k].item.size
  }

  lemma PutViewed(ns: seq<Node<Index>>, order: seq<Index>, view: seq<Extent>, ranges: set<Range>,
                  n: Node<Index>, p: nat)
    requires Viewed(ns, order, view, ranges) && p <= |ns| && Aligned(n.item.item.base)
    ensures Viewed(Put(ns, p, n), Put(order, p, n.item),
                   Put(view, p, n.item.item.View()), ranges + {n.item.item})
  {
  }

  lemma PutListed(order: seq<Index>, view: seq<Extent>, all: set<Index>, fs: set<Index>,
                  v: Index, e: Extent, p: nat)
    requires Listed(order, view, all, fs) && p <= |order| && v !in all && !e.inUse
    ensures Listed(Put(order, p, v), Put(view, p, e), all + {v}, fs + {v})
  {
    PutElements(order, p, v);
    forall k | 0 <= k < |order| ensures order[k] != v {
      ElementAt(order, k);
    }
  }

  lemma PutSized(fs: seq<Index>, sizes: seq<nat>, ranges: set<Range>, v: Index, q: nat)
    requires Sized(fs, sizes, ranges) && q <= |fs|
    ensures Sized(Put(fs, q, v), Put(sizes, q, v.item.size), ranges + {v.item})
  {
  }

  /** What the two trees hold, as mathematical values. */
  datatype Shadow = Shadow(order: seq<Index>, all: set<Index>, ranges: set<Range>,
                           view: seq<Extent>, sizes: seq<nat>)

  /** The index `vmi`, which reads `e`, added at `p` of the base tree and `q` of the free tree. */
  ghost function Grown(s: Shadow, p: nat, q: nat, vmi: Index, e: Extent): Shadow
    requires p <= |s.order| && p <= |s.view| && q <= |s.sizes|
  {
    Shadow(Put(s.order, p, vmi), s.all + {vmi}, s.ranges + {vmi.item}, Put(s.view, p, e), Put(s.sizes, q, e.size))
  }

  /** ... where the orders of the two trees want it. */
  ghost predicate Placed(s: Shadow, p: nat, q: nat, vmi: Index, e: Extent, t: Shadow) {
    && p <= |s.order| && p <= |s.view| && q <= |s.sizes|
    && t == Grown(s, p, q, vmi, e) && Inserted(s.view, p, e, t.view)
    && (q > 0 ==> s.sizes[q - 1] <= e.size) && (q < |s.sizes| ==> e.size < s.sizes[q])
  }

  /** pool_allocate and the assignments that follow it in vm_insert_index. */
  method NewIndex(base: nat, pages: nat) returns (f: Index, n: Node<Index>, ghost more: set<object>)
    ensures fresh(more) && f in more && n in more && f.item in more
    ensures n.item == f && f.Loose() && n.Loose()
    ensures f.item.base == base && f.item.size == pages && !f.item.inUse
  {
    var range := new Range(base, pages);
    f := new Node<Range>(range);
    n := new Node<Index>(f);
    more := {range, f, n};
  }

  lemma PlacedAt(s: Shadow, p: nat, q: nat, vmi: Index, e: Extent, t: Shadow)
    requires Placed(s, p, q, vmi, e, t)
    ensures p < |t.order| && t.order[p] == vmi
    ensures Ascending(s.sizes) ==> Ascending(t.sizes)
  {
    if Ascending(s.sizes) {
      AscendingPut(s.sizes, q, e.size);
    }
  }

  /** From the front pieces of a claim to all of them. */
  ghost predicate Trailed(was: Shadow, now: Shadow, s: seq<Extent>, k: nat, begin: nat, end: nat)
    requires k < |s| && s[k].first <= begin < end <= s[k].End()
  {
    var j := k + |Lead(s[k], begin)|;
    && now.view == Split(s, k, begin, end)
    && j < |was.order| && j < |now.order| && now.order[j] == was.order[j]
    && (Ascending(was.sizes) ==> Ascending(now.sizes))
  }

  lemma TrailPlaced(was: Shadow, p: nat, q: nat, vmi: Index, now: Shadow,
                     s: seq<Extent>, k: nat, begin: nat, end: nat)
    requires Tidy(s) && k < |s| && s[k].first <= begin < end < s[k].End() && |was.order| == |was.view|
    requires was.view == Front(s, k, begin, end)
    requires Placed(was, p, q, vmi, Extent(end, s[k].End() - end, false), now)
    ensures Trailed(was, now, s, k, begin, end)
  {
    PlacedAt(was, p, q, vmi, Extent(end, s[k].End() - end, false), now);
    TrailPlace(s, k, begin, end, p, now.view);
  }

  /** The free index at `k`, whose size stands at `q` of the free tree, made to end at `m`. */
  ghost predicate ShortenedBy(was: Shadow, k: nat, q: nat, m: nat, s: Shadow) {
    && Tidy(was.view) && k < |was.view| && k < |was.order| && q < |was.sizes| && was.sizes[q] == was.view[k].size
    && !was.view[k].inUse && was.view[k].first < m <= was.view[k].End()
    && s == was.(view := Shortened(was.view, k, m), sizes := was.sizes[q := m - was.view[k].first])
  }

  lemma PiecePlaced(was: Shadow, s: Shadow, p: nat, r: nat, vmi: Index, now: Shadow, k: nat, q: nat, b: nat, pages: nat)
    requires ShortenedBy(was, k, q, b, s) && pages > 0 && b + pages <= was.view[k].End() && |s.order| == |s.view|
    requires Placed(s, p, r, vmi, Extent(b, pages, false), now)
    ensures now.view == Front(was.view, k, b, b + pages) && k + 1 < |now.order| && now.order[k + 1] == vmi
  {
    PlacedAt(s, p, r, vmi, Extent(b, pages, false), now);
    SplitFront(was.view, k, Extent(b, pages, false), p, now.view);
  }

  /** What a claim of the pages of that index up to `m` leaves. */
  ghost predicate Lowered(was: Shadow, k: nat, q: nat, m: nat, ok: bool, now: Shadow) {
    && k < |was.view| && was.view[k].first < m <= was.view[k].End()
    && (!ok ==> now == was)
    && (ok ==> now.view == Replace(was.view, k, Taken(was.view[k], was.view[k].first, m)))
    && (Fitted(was.sizes, q, m - was.view[k].first) ==> Ascending(now.sizes))
  }

  lemma ShortenedSizes(was: Shadow, k: nat, q: nat, m: nat, s: Shadow)
    requires ShortenedBy(was, k, q, m, s)
    ensures Fitted(was.sizes, q, m - was.view[k].first) ==> Ascending(s.sizes)
  {
    if Fitted(was.sizes, q, m - was.view[k].first) {
      AscendingShrink(was.sizes, q, m - was.view[k].first);
    }
  }

  lemma SetBack<T>(s: seq<T>, k: nat, x: T)
    requires k < |s|
    ensures s[k := x][k := s[k]] == s
  {
  }

  /** Every size met before `q`, from the small or the large end, is too small. */
  ghost predicate Passed(sizes: seq<nat>, pages: nat, high: bool, q: nat) {
    if high then forall j :: q < j < |sizes| ==> sizes[j] < pages
    else forall j :: 0 <= j < q && j < |sizes| ==> sizes[j] < pages
  }

  class Vm {
    const index: Tree<Index>
    const free: Tree<Range>
    ghost var now: Shadow
    ghost var repr: set<object>

    /** The invariant: the trees agree, and the extents are in order and apart. */
    ghost predicate Valid()
      reads this, index, index.repr, free, free.repr, now.all, now.ranges
    {
      Agree(now)
    }

    ghost predicate Agree(s: Shadow)
      reads this, index, index.repr, free, free.repr, s.all, s.ranges
    {
      && index.Valid() && free.Valid() && Tidy(s.view)
      && Viewed(index.Contents(), s.order, s.view, s.ranges)
      && Listed(s.order, s.view, s.all, free.repr)
      && Sized(free.Contents(), s.sizes, s.ranges)
    }

    ghost predicate Owned()
      reads this, index, free
    {
      && this in repr && index in repr && free in repr && index.repr <= repr && free.repr <= repr
      && now.all <= repr && now.ranges <= repr
    }

    /** The invariant, and `repr` holds everything it is about. */
    ghost predicate Ready()
      reads this, repr
      ensures Ready() ==> Valid()
    {
      this in repr && index in repr && free in repr && Owned() && Valid()
    }

    /** vm_setup, as far as the indexes go. */
    constructor ()
      ensures Ready() && fresh(repr) && now == Shadow([], {}, {}, [], [])
    {
      index := new Tree();
      free := new Tree();
      now := Shadow([], {}, {}, [], []);
      new;
      repr := {this, index, free};
    }

    /** vm_find_index */
    method FindIndex(vaddr: nat) returns (vmi: Node?<Range>, ghost k: nat)
      requires Valid()
      ensures vmi == null ==> !Covers(now.view, PageOf(vaddr))
      ensures vmi != null ==> k < |now.view| && now.order[k] == vmi && Holds(now.view[k], PageOf(vaddr))
    {
      assert forall n :: n in index.repr ==> n.item.item in now.ranges by {
        forall n | n in index.repr ensures n.item.item in now.ranges {
          var j := index.PlaceOf(n);
        }
      }
      var hit;
      hit, k := index.Find(
        (i: Index) reads i.item => vaddr < i.item.base,
        (i: Index) reads i.item => vaddr == i.item.base
                || (vaddr > i.item.base && vaddr < i.item.base + i.item.size * PAGE_SIZE));
      if hit == null {
        vmi := null;
      } else {
        vmi := hit.item;
      }
    }

    /** BTREE_INSERT into the free tree, by size. */
    method LinkFree(vmi: Index) returns (ghost q: nat)
      requires Sized(free.Contents(), now.sizes, now.ranges) && free.Valid() && vmi !in free.repr && vmi.Loose()
      requires index.Valid() && Viewed(index.Contents(), now.order, now.view, now.ranges)
      modifies free, free.repr, vmi
      ensures index.Valid() && Viewed(index.Contents(), now.order, now.view, now.ranges)
      ensures free.Valid() && free.repr == old(free.repr) + {vmi}
      ensures q <= |now.sizes|
      ensures Sized(free.Contents(), Put(now.sizes, q, vmi.item.size), now.ranges + {vmi.item})
      ensures (q > 0 ==> now.sizes[q - 1] <= vmi.item.size) && (q < |now.sizes| ==> vmi.item.size < now.sizes[q])
    {
      var size := vmi.item.size;
      q := free.Insert(vmi, (i: Range) reads i => size < i.size);
      PutSized(old(free.Contents()), now.sizes, now.ranges, vmi, q);
    }

    method InsertBase(n: Node<Index>) returns (ghost p: nat)
      requires Viewed(index.Contents(), now.order, now.view, now.ranges) && index.Valid()
      requires n !in index.repr && n.Loose() && Aligned(n.item.item.base)
      modifies index, index.repr, n
      ensures index.Valid() && index.repr == old(index.repr) + {n}
      ensures p <= |now.view|
      ensures Viewed(index.Contents(), Put(now.order, p, n.item),
                     Put(now.view, p, n.item.item.View()), now.ranges + {n.item.item})
      ensures Inserted(now.view, p, n.item.item.View(), Put(now.view, p, n.item.item.View()))
    {
      var base := n.item.item.base;
      p := index.Insert(n, (i: Index) => base < i.item.base);
      PutViewed(old(index.Contents()), now.order, now.view, now.ranges, n, p);
    }

    /** BTREE_INSERT into the tree by base, which leaves the free tree alone. */
    method LinkBase(n: Node<Index>, ghost zs: seq<nat>) returns (ghost p: nat)
      requires free.Valid() && Sized(free.Contents(), zs, now.ranges + {n.item.item})
      requires Viewed(index.Contents(), now.order, now.view, now.ranges) && index.Valid()
      requires n !in index.repr && n.Loose() && Aligned(n.item.item.base)
      modifies index, index.repr, n
      ensures free.Valid() && Sized(free.Contents(), zs, now.ranges + {n.item.item})
      ensures index.Valid() && index.repr == old(index.repr) + {n}
      ensures p <= |now.view|
      ensures Viewed(index.Contents(), Put(now.order, p, n.item),
                     Put(now.view, p, n.item.item.View()), now.ranges + {n.item.item})
      ensures Inserted(now.view, p, n.item.item.View(), Put(now.view, p, n.item.item.View()))
    {
      p := InsertBase(n);
    }

    /** The two BTREE_INSERTs of vm_insert_index. */
    method LinkBoth(vmi: Index, n: Node<Index>) returns (ghost p: nat, ghost q: nat)
      requires index.Valid() && free.Valid()
      requires Viewed(index.Contents(), now.order, now.view, now.ranges) && Sized(free.Contents(), now.sizes, now.ranges)
      requires n.item == vmi && n !in index.repr && n.Loose() && vmi !in free.repr && vmi.Loose()
      requires Aligned(vmi.item.base)
      modifies index, free, index.repr, free.repr, n, vmi
      ensures p <= |now.view| && q <= |now.sizes| && index.Valid() && free.Valid()
      ensures index.repr == old(index.repr) + {n} && free.repr == old(free.repr) + {vmi}
      ensures Viewed(index.Contents(), Put(now.order, p, vmi),
                     Put(now.view, p, vmi.item.View()), now.ranges + {vmi.item})
      ensures Sized(free.Contents(), Put(now.sizes, q, vmi.item.size), now.ranges + {vmi.item})
      ensures Inserted(now.view, p, vmi.item.View(), Put(now.view, p, vmi.item.View()))
      ensures (q > 0 ==> now.sizes[q - 1] <= vmi.item.size) && (q < |now.sizes| ==> vmi.item.size < now.sizes[q])
    {
      q := LinkFree(vmi);
      p := LinkBase(n, Put(now.sizes, q, vmi.item.size));
    }

    /** ... for an index linked nowhere yet. */
    method Adopt(vmi: Index, n: Node<Index>) returns (ghost t: Shadow, ghost p: nat, ghost q: nat)
      requires Valid() && n.item == vmi && n !in index.repr && n.Loose() && vmi !in now.all && vmi.Loose()
      requires Aligned(vmi.item.base) && vmi.item.size > 0 && !vmi.item.inUse
      requires Clear(now.view, PageOf(vmi.item.base), PageOf(vmi.item.base) + vmi.item.size)
      modifies index, free, index.repr, free.repr, n, vmi
      ensures Placed(now, p, q, vmi, vmi.item.View(), t) && Agree(t)
      ensures index.repr == old(index.repr) + {n} && free.repr == old(free.repr) + {vmi}
    {
      p, q := LinkBoth(vmi, n);
      t := Grown(now, p, q, vmi, vmi.item.View());
      InsertTidy(now.view, p, vmi.item.View(), t.view);
      assert Listed(now.order, now.view, now.all, old(free.repr));
      PutListed(now.order, now.view, now.all, old(free.repr), vmi, vmi.item.View(), p);
    }

    /** Take note of what the trees have become. */
    ghost method Record(s: Shadow)
      requires Agree(s)
      modifies this`now
      ensures Valid() && now == s
    {
      now := s;
    }

    ghost method Own(more: set<object>)
      requires Valid() && this in repr && index in repr && free in repr
      requires index.repr <= repr + more && free.repr <= repr + more
      requires now.all <= repr + more && now.ranges <= repr + more
      modifies this`repr
      ensures Ready() && repr == old(repr) + more
    {
      repr := repr + more;
    }

    /** Link the index `f`, and take note of it. */
    method Take(f: Index, n: Node<Index>, ghost more: set<object>) returns (ghost p: nat, ghost q: nat)
      requires Ready() && n.item == f && n !in index.repr && n.Loose() && f !in now.all && f.Loose()
      requires Aligned(f.item.base) && f.item.size > 0 && !f.item.inUse
      requires Clear(now.view, PageOf(f.item.base), PageOf(f.item.base) + f.item.size)
      requires f in more && n in more && f.item in more
      modifies this, index, free, index.repr, free.repr, n, f
      ensures Ready() && repr == old(repr) + more
      ensures Placed(old(now), p, q, f, f.item.View(), now)
    {
      ghost var t;
      t, p, q := Adopt(f, n);
      Settle(t, more);
    }

    /** Take note of what the trees have become, and own the new objects. */
    ghost method Settle(s: Shadow, more: set<object>)
      requires Agree(s) && this in repr && index in repr && free in repr
      requires index.repr <= repr + more && free.repr <= repr + more
      requires s.all <= repr + more && s.ranges <= repr + more
      modifies this`now, this`repr
      ensures Ready() && now == s && repr == old(repr) + more
    {
      Record(s);
      Own(more);
    }

    /** vm_insert_index, once the pool has supplied an index. */
    method Plant(base: nat, pages: nat) returns (f: Index, ghost p: nat, ghost q: nat)
      requires Ready() && Aligned(base) && pages > 0 && Clear(now.view, PageOf(base), PageOf(base) + pages)
      modifies repr
      ensures Ready() && (forall x :: x in repr ==> x in old(repr) || fresh(x))
      ensures Placed(old(now), p, q, f, Extent(PageOf(base), pages, false), now)
    {
      var n;
      ghost var more;
      f, n, more := NewIndex(base, pages);
      p, q := Take(f, n, more);
    }

    /** vm_insert_index */
    method InsertIndex(base: nat, pages: nat, room: nat)
      returns (vmi: Node?<Range>, ghost p: nat, ghost q: nat)
      requires Ready() && Aligned(base) && pages > 0 && Clear(now.view, PageOf(base), PageOf(base) + pages)
      modifies repr
      ensures Ready() && (forall x :: x in repr ==> x in old(repr) || fresh(x)) && (vmi == null <==> room == 0)
      ensures vmi == null ==> now == old(now) && free.Contents() == old(free.Contents())
      ensures vmi != null ==> Placed(old(now), p, q, vmi, Extent(PageOf(base), pages, false), now)
    {
      if room == 0 {
        return null, 0, 0;
      }
      vmi, p, q := Plant(base, pages);
    }

    /** No two indexes share their fields. */
    lemma OneIndex(f: Index, g: Index)
      requires Valid() && f in now.all && g in now.all && f.item == g.item
      ensures f == g
    {
      var i := PlaceOfElement(now.order, f);
      var j := PlaceOfElement(now.order, g);
    }

    /** Assign to vmi_size of the index at `k`, while its key stands at `q` in the free tree. */
    method SetSize(vmi: Index, pages: nat, ghost k: nat, ghost q: nat)
      requires Ready() && k < |now.order| && now.order[k] == vmi && q < |now.sizes| && free.Contents()[q] == vmi
      requires Tidy(now.view[k := now.view[k].(size := pages)])
      modifies this`now, vmi.item
      ensures Ready() && vmi.item in old(repr)
      ensures now == old(now).(view := old(now).view[k := old(now).view[k].(size := pages)],
                               sizes := old(now).sizes[q := pages])
      ensures vmi.item.size == pages && vmi.item.inUse == old(vmi.item.inUse)
    {
      SizePlaces(k, q);
      vmi.item.size := pages;
      now := now.(view := now.view[k := now.view[k].(size := pages)], sizes := now.sizes[q := pages]);
    }

    /** The fields of the index at place `k`, and `q` in the free tree, are seen nowhere else. */
    lemma SizePlaces(k: nat, q: nat)
      requires Valid() && k < |now.order| && q < |now.sizes| && free.Contents()[q] == now.order[k]
      ensures forall j :: 0 <= j < |now.order| && j != k ==> now.order[j].item != now.order[k].item
      ensures forall j :: 0 <= j < |now.sizes| && j != q ==> free.Contents()[j].item != now.order[k].item
    {
      free.Members();
      forall j | 0 <= j < |now.sizes| && j != q ensures free.Contents()[j].item != now.order[k].item {
        if free.Contents()[j].item == now.order[k].item {
          ElementAt(now.order, k);
          OneIndex(free.Contents()[j], now.order[k]);
          if j < q {
            InorderInjective(free.shape, j, q);
          } else {
            InorderInjective(free.shape, q, j);
          }
        }
      }
    }

    /** vm_use_index, with its place in the free tree still to be found. */
    method Use(vmi: Index, pages: nat, ghost k: nat)
      requires Ready() && k < |now.order| && now.order[k] == vmi && !now.view[k].inUse && now.view[k].size == pages
      modifies repr
      ensures Ready() && repr == old(repr) && (Ascending(old(now).sizes) ==> Ascending(now.sizes))
      ensures now == old(now).(view := old(now).view[k := old(now).view[k].(inUse := true)], sizes := now.sizes)
    {
      ghost var q := free.PlaceOf(vmi);
      UseIndex(vmi, pages, k, q);
      if Ascending(old(now).sizes) {
        AscendingLess(old(now).sizes, now.sizes, q);
      }
    }

    /** Set or clear INUSE in the index at `k`. */
    method SetFlag(vmi: Index, used: bool, ghost k: nat)
      requires Valid() && k < |now.order| && now.order[k] == vmi
      modifies vmi.item
      ensures index.Valid() && free.Valid() && vmi.item.size == old(vmi.item.size)
      ensures Tidy(now.view[k := now.view[k].(inUse := used)])
      ensures Viewed(index.Contents(), now.order, now.view[k := now.view[k].(inUse := used)], now.ranges)
      ensures Sized(free.Contents(), now.sizes, now.ranges)
      ensures Listed(now.order, now.view, now.all, free.repr)
    {
      ViewPlace(k);
      FlagTidy(now.view, k, used);
      vmi.item.inUse := used;
    }

    /** vm_use_index */
    method UseIndex(vmi: Index, pages: nat, ghost k: nat, ghost q: nat)
      requires Valid() && k < |now.order| && now.order[k] == vmi && q < |now.sizes| && free.Contents()[q] == vmi
      requires vmi.item.size == pages && !vmi.item.inUse
      modifies this`now, vmi.item, free, free.repr
      ensures Valid() && Without(old(now).sizes, now.sizes, q)
      ensures now == old(now).(view := old(now).view[k := old(now).view[k].(inUse := true)], sizes := now.sizes)
      ensures free.repr <= old(free.repr)
    {
      OrderPlaces(k);
      SetFlag(vmi, true, k);
      free.Remove(vmi, q);
      DropSized(old(free.Contents()), now.sizes, now.ranges, free.Contents(), q);
      UseListed(now.order, now.view, now.all, old(free.repr), k);
      ghost var t := now.(view := now.view[k := now.view[k].(inUse := true)], sizes := now.sizes[..q] + now.sizes[q + 1..]);
      Record(t);
    }

    /** vm_free_index */
    method FreeIndex(vmi: Index, ghost k: nat)
      requires Valid() && k < |now.order| && now.order[k] == vmi && now.view[k].inUse
      modifies this`now, vmi.item, free, free.repr, vmi
      ensures Valid() && now == old(now).(view := old(now).view[k := old(now).view[k].(inUse := false)], sizes := now.sizes)
      ensures free.repr == old(free.repr) + {vmi}
      ensures Ascending(old(now).sizes) ==> Ascending(now.sizes)
    {
      Unuse(vmi, k);
      ghost var q := Relink(vmi, k);
      if Ascending(old(now).sizes) {
        AscendingPut(old(now).sizes, q, vmi.item.size);
      }
    }

    /** Clear INUSE in the index at `k`. */
    method Unuse(vmi: Index, ghost k: nat)
      requires Valid() && k < |now.order| && now.order[k] == vmi && now.view[k].inUse
      modifies this`now, vmi.item
      ensures index.Valid() && free.Valid() && Tidy(now.view) && vmi !in free.repr && vmi.Loose()
      ensures Viewed(index.Contents(), now.order, now.view, now.ranges)
      ensures Unlisted(now.order, now.view, now.all, free.repr, k)
      ensures Sized(free.Contents(), now.sizes, now.ranges)
      ensures now == old(now).(view := old(now).view[k := old(now).view[k].(inUse := false)])
    {
      ElementAt(now.order, k);
      OrderPlaces(k);
      SetFlag(vmi, false, k);
      UnuseListed(now.order, now.view, now.all, free.repr, k);
      now := now.(view := now.view[k := now.view[k].(inUse := false)]);
    }

    /** Put it back in the free tree. */
    method Relink(vmi: Index, ghost k: nat) returns (ghost q: nat)
      requires index.Valid() && free.Valid() && Tidy(now.view) && vmi !in free.repr && vmi.Loose()
      requires k < |now.order| && now.order[k] == vmi
      requires Viewed(index.Contents(), now.order, now.view, now.ranges)
      requires Unlisted(now.order, now.view, now.all, free.repr, k)
      requires Sized(free.Contents(), now.sizes, now.ranges)
      modifies this`now, free, free.repr, vmi
      ensures Valid() && q <= |old(now).sizes| && free.repr == old(free.repr) + {vmi}
      ensures now == old(now).(sizes := Put(old(now).sizes, q, vmi.item.size))
      ensures q > 0 ==> old(now).sizes[q - 1] <= vmi.item.size
      ensures q < |old(now).sizes| ==> vmi.item.size < old(now).sizes[q]
    {
      q := LinkFree(vmi);
      assert now.ranges + {vmi.item} == now.ranges;
      Record(now.(sizes := Put(now.sizes, q, vmi.item.size)));
    }

    /** The index at `k`, which stands at `q` of the free tree, is `vmi`. */
    ghost predicate FreeAt(vmi: Index, k: nat, q: nat)
      reads this, free
    {
      && k < |now.order| && now.order[k] == vmi && k < |now.view| && !now.view[k].inUse
      && q < |now.sizes| && q < |free.Contents()| && free.Contents()[q] == vmi
    }

    /** What the fields of a free index read. */
    lemma Reads(vmi: Index, k: nat, q: nat)
      requires Valid() && FreeAt(vmi, k, q)
      ensures Tidy(now.view) && vmi.item.size == now.view[k].size == now.sizes[q]
      ensures Aligned(vmi.item.base) && PageOf(vmi.item.base) == now.view[k].first
    {
    }

    /** Leave to `vmi` only what comes before `begin`. */
    method Shorten(vmi: Index, begin: nat, ghost k: nat, ghost q: nat)
      requires Ready() && FreeAt(vmi, k, q) && Aligned(begin)
      requires now.view[k].first < PageOf(begin) <= now.view[k].End()
      modifies this`now, vmi.item
      ensures Ready() && repr == old(repr) && vmi.item in repr && FreeAt(vmi, k, q)
      ensures ShortenedBy(old(now), k, q, PageOf(begin), now)
      ensures Clear(now.view, PageOf(begin), old(now).view[k].End())
    {
      Reads(vmi, k, q);
      var leader := Span(vmi.item.base, begin);
      ShortenReady(now.view, k, PageOf(begin));
      SetSize(vmi, leader, k, q);
    }

    /** Give `vmi` back the size it had. */
    method Restore(vmi: Index, size: nat, ghost was: Shadow, ghost m: nat, ghost k: nat, ghost q: nat)
      requires Ready() && FreeAt(vmi, k, q) && ShortenedBy(was, k, q, m, now) && was.view[k].size == size
      modifies this`now, vmi.item
      ensures Ready() && repr == old(repr) && now == was && vmi.item in repr
    {
      SetBack(was.view, k, now.view[k]);
      SetBack(was.sizes, q, now.sizes[q]);
      SetSize(vmi, size, k, q);
    }

    /** The branch of vm_claim_range with a leader: it stays in `vmi`, the rest becomes an index of its own. */
    method CutLead(vmi: Index, begin: nat, pages: nat, room: nat, ghost k: nat, ghost q: nat)
      returns (nvmi: Node?<Range>)
      requires Ready() && FreeAt(vmi, k, q) && Aligned(begin) && pages > 0
      requires now.view[k].first < PageOf(begin) && PageOf(begin) + pages <= now.view[k].End()
      modifies repr
      ensures Ready() && (forall x :: x in repr ==> x in old(repr) || fresh(x)) && (nvmi == null <==> room == 0)
      ensures nvmi == null ==> now == old(now)
      ensures nvmi != null ==>
                && now.view == Front(old(now).view, k, PageOf(begin), PageOf(begin) + pages)
                && k + 1 < |now.order| && now.order[k + 1] == nvmi
    {
      Reads(vmi, k, q);
      ghost var was, b := now, PageOf(begin);
      var size := vmi.item.size;
      Shorten(vmi, begin, k, q);
      nvmi := AddPiece(begin, pages, room, was, k, q, b);
      if nvmi == null {
        Restore(vmi, size, was, b, k, q);
      }
    }

    method AddPiece(begin: nat, pages: nat, room: nat, ghost was: Shadow, ghost k: nat, ghost q: nat, ghost b: nat)
      returns (nvmi: Node?<Range>)
      requires Ready() && Aligned(begin) && b == PageOf(begin) && pages > 0 && ShortenedBy(was, k, q, b, now)
      requires b + pages <= was.view[k].End() && Clear(now.view, b, was.view[k].End())
      modifies repr
      ensures Ready() && (forall x :: x in repr ==> x in old(repr) || fresh(x)) && (nvmi == null <==> room == 0)
      ensures nvmi == null ==> now == old(now) && free.Contents() == old(free.Contents())
      ensures nvmi != null ==>
                now.view == Front(was.view, k, b, b + pages) && k + 1 < |now.order| && now.order[k + 1] == nvmi
    {
      ghost var s, p, r := now, 0, 0;
      nvmi, p, r := InsertIndex(begin, pages, room);
      if nvmi != null {
        PiecePlaced(was, s, p, r, nvmi, now, k, q, b, pages);
      }
    }

    /**
      The trailer branch of vm_claim_range: what is left of the claimed extent behind `end`
      becomes an index of its own.
     */
    method CutTrail(end: nat, trailer: nat, room: nat, ghost s: seq<Extent>, ghost k: nat, ghost begin: nat)
      returns (ok: bool)
      requires Ready() && Aligned(end) && Tidy(s) && k < |s| && s[k].first <= begin < PageOf(end) <= s[k].End()
      requires trailer == s[k].End() - PageOf(end) && now.view == Front(s, k, begin, PageOf(end))
      modifies repr
      ensures Ready() && (forall x :: x in repr ==> x in old(repr) || fresh(x)) && (ok <==> trailer == 0 || room > 0)
      ensures !ok ==> now == old(now) && free.Contents() == old(free.Contents())
      ensures ok ==> Trailed(old(now), now, s, k, begin, PageOf(end))
    {
      FrontFacts(s, k, begin, PageOf(end));
      ok := true;
      if trailer != 0 {
        ok := AddTrail(end, trailer, room, s, k, begin);
      }
    }

    method AddTrail(end: nat, trailer: nat, room: nat, ghost s: seq<Extent>, ghost k: nat, ghost begin: nat)
      returns (ok: bool)
      requires Ready() && Aligned(end) && Tidy(s) && k < |s| && s[k].first <= begin < PageOf(end) < s[k].End()
      requires trailer == s[k].End() - PageOf(end) && now.view == Front(s, k, begin, PageOf(end))
      modifies repr
      ensures Ready() && (forall x :: x in repr ==> x in old(repr) || fresh(x)) && (ok <==> room > 0)
      ensures !ok ==> now == old(now) && free.Contents() == old(free.Contents())
      ensures ok ==> Trailed(old(now), now, s, k, begin, PageOf(end))
    {
      FrontFacts(s, k, begin, PageOf(end));
      ghost var p, r;
      var vmi;
      vmi, p, r := InsertIndex(end, trailer, room);
      ok := vmi != null;
      if ok {
        TrailPlaced(old(now), p, r, vmi, now, s, k, begin, PageOf(end));
      }
    }

    /** vm_claim_range at the very start of `vmi`, after its checks. */
    method CarveLow(vmi: Index, end: nat, room: nat, ghost k: nat, ghost q: nat)
      returns (ok: bool)
      requires Ready() && FreeAt(vmi, k, q) && Aligned(end)
      requires now.view[k].first < PageOf(end) <= now.view[k].End()
      modifies repr
      ensures Ready() && (forall x :: x in repr ==> x in old(repr) || fresh(x))
      ensures ok <==> room > 0 || PageOf(end) == old(now).view[k].End()
      ensures Lowered(old(now), k, q, PageOf(end), ok, now)
    {
      Reads(vmi, k, q);
      ghost var was := now;
      var size, range := vmi.item.size, Span(vmi.item.base, end);
      Shorten(vmi, end, k, q);
      FrontLow(was.view, k, PageOf(end));
      ghost var s := now;
      ok := CutTrail(end, size - range, room, was.view, k, was.view[k].first);
      FinishLow(vmi, size, range, ok, was, s, k, q, PageOf(end));
    }

    /** The end of vm_claim_range: `vmi`, now as long as the claim, is used, or is given back the size it had. */
    method FinishLow(vmi: Index, size: nat, range: nat, ok: bool,
                     ghost was: Shadow, ghost s: Shadow, ghost k: nat, ghost q: nat, ghost m: nat)
      requires Ready() && ShortenedBy(was, k, q, m, s) && s.order[k] == vmi
      requires size == was.view[k].size && range == m - was.view[k].first
      requires ok ==> Trailed(s, now, was.view, k, was.view[k].first, m)
      requires !ok ==> now == s && FreeAt(vmi, k, q)
      modifies repr
      ensures Ready() && repr == old(repr) && Lowered(was, k, q, m, ok, now)
    {
      ShortenedSizes(was, k, q, m, s);
      if !ok {
        Restore(vmi, size, was, m, k, q);
      } else {
        MarkTaken(was.view, k, was.view[k].first, m);
        Use(vmi, range, k);
      }
    }

    /** vm_claim_range behind a leader, after its checks. */
    method CarveMid(vmi: Index, begin: nat, end: nat, room: nat, ghost k: nat, ghost q: nat)
      returns (ok: bool)
      requires Ready() && FreeAt(vmi, k, q) && Aligned(begin) && Aligned(end)
      requires now.view[k].first < PageOf(begin) < PageOf(end) <= now.view[k].End()
      modifies repr
      ensures Ready() && (forall x :: x in repr ==> x in old(repr) || fresh(x))
      ensures ok <==> room >= if PageOf(end) == old(now).view[k].End() then 1 else 2
      ensures !ok ==>
                now.view == if room == 0 then old(now).view else Replace(old(now).view, k, Cut(old(now).view[k], PageOf(begin)))
      ensures ok ==> now.view == Replace(old(now).view, k, Taken(old(now).view[k], PageOf(begin), PageOf(end)))
    {
      Reads(vmi, k, q);
      ghost var was := now;
      var size, leader, range := vmi.item.size, Span(vmi.item.base, begin), Span(begin, end);
      var nvmi;
      nvmi := CutLead(vmi, begin, range, room, k, q);
      if nvmi == null {
        return false;
      }
      ok := Finish(nvmi, end, range, size - (leader + range), room - 1, was.view, k, PageOf(begin));
    }

    /** The rest of vm_claim_range, once the leader has an index of its own. */
    method Finish(nvmi: Index, end: nat, range: nat, trailer: nat, room: nat,
                  ghost s: seq<Extent>, ghost k: nat, ghost begin: nat) returns (ok: bool)
      requires Ready() && Aligned(end) && Tidy(s) && k < |s| && !s[k].inUse
      requires s[k].first < begin < PageOf(end) <= s[k].End()
      requires range == PageOf(end) - begin && trailer == s[k].End() - PageOf(end)
      requires now.view == Front(s, k, begin, PageOf(end)) && k + 1 < |now.order| && now.order[k + 1] == nvmi
      modifies repr
      ensures Ready() && (forall x :: x in repr ==> x in old(repr) || fresh(x)) && (ok <==> trailer == 0 || room > 0)
      ensures now.view == Replace(s, k, if ok then Taken(s[k], begin, PageOf(end)) else Cut(s[k], begin))
    {
      ok := CutTrail(end, trailer, room, s, k, begin);
      if !ok {
        Widen(nvmi, range + trailer, s, k, begin, PageOf(end));
      } else {
        MarkTaken(s, k, begin, PageOf(end));
        Use(nvmi, range, k + 1);
      }
    }

    /** The last exit of vm_claim_range: the trailer is given back to the piece before it. */
    method Widen(nvmi: Index, pages: nat, ghost s: seq<Extent>, ghost k: nat, ghost begin: nat, ghost end: nat)
      requires Ready() && Tidy(s) && k < |s| && !s[k].inUse && s[k].first < begin < end <= s[k].End()
      requires now.view == Front(s, k, begin, end) && k + 1 < |now.order| && now.order[k + 1] == nvmi
      requires pages == s[k].End() - begin
      modifies repr
      ensures Ready() && repr == old(repr) && now.view == Replace(s, k, Cut(s[k], begin))
    {
      WidenFacts(s, k, begin, end);
      ghost var q := free.PlaceOf(nvmi);
      SetSize(nvmi, pages, k + 1, q);
    }

    /** vm_claim_range, for the index at `k`, which stands at `q` of the free tree if it is free. */
    method ClaimFrom(vmi: Index, begin: nat, end: nat, room: nat, ghost k: nat, ghost q: nat)
      returns (r: Outcome)
      requires Ready() && k < |now.order| && now.order[k] == vmi && Aligned(begin) && Aligned(end)
      requires PageOf(begin) < PageOf(end) && Holds(now.view[k], PageOf(begin))
      requires !now.view[k].inUse ==> FreeAt(vmi, k, q)
      modifies repr
      ensures Ready() && (forall x :: x in repr ==> x in old(repr) || fresh(x))
      ensures RangeAt(old(now).view, k, PageOf(begin), PageOf(end), r, now.view)
      ensures !old(now).view[k].inUse && PageOf(end) <= old(now).view[k].End() ==>
                (r.Ok? <==> room >= Pieces(old(now).view[k], PageOf(begin), PageOf(end)))
      ensures !old(now).view[k].inUse && PageOf(end) <= old(now).view[k].End() && !r.Ok? ==>
                now.view == if room == 0 then old(now).view else Replace(old(now).view, k, Cut(old(now).view[k], PageOf(begin)))
      ensures PageOf(begin) == old(now).view[k].first && Fitted(old(now).sizes, q, PageOf(end) - PageOf(begin)) ==>
                Ascending(now.sizes)
    {
      PageDistance(vmi.item.base, begin);
      PageDistance(begin, end);
      if vmi.item.inUse {
        return Err(NotFree);
      }
      var size := vmi.item.size * PAGE_SIZE;
      if vmi.item.base + size < end {
        return Err(NotImplemented);
      }
      var ok;
      if begin != vmi.item.base {
        ok := CarveMid(vmi, begin, end, room, k, q);
      } else {
        ok := CarveLow(vmi, end, room, k, q);
      }
      r := if ok then Ok(begin / PAGE_SIZE) else Err(Exhausted);
    }

    /** vm_claim_range, when its caller names no index */
    method ClaimRange(begin: nat, end: nat, room: nat) returns (r: Outcome)
      requires Ready() && Aligned(begin) && Aligned(end) && PageOf(begin) < PageOf(end)
      modifies repr
      ensures Ready() && (forall x :: x in repr ==> x in old(repr) || fresh(x))
      ensures RangeStep(old(now).view, PageOf(begin), PageOf(end), r, now.view)
      ensures Supplied(old(now).view, PageOf(begin), PageOf(end), room, r, now.view)
    {
      var vmi;
      ghost var k, q := 0, 0;
      vmi, k := FindIndex(begin);
      if vmi == null {
        return Err(NotFound);
      }
      if !now.view[k].inUse {
        q := free.PlaceOf(vmi);
      }
      r := ClaimFrom(vmi, begin, end, room, k, q);
      SuppliedAt(old(now).view, k, PageOf(begin), PageOf(end), room, r, now.view);
    }

    /** The loop of vm_alloc_address: the first index, from the small or the large end, that is large enough. */
    method Scan(pages: nat, high: bool) returns (vmi: Node?<Range>, ghost q: nat)
      requires Valid()
      ensures vmi == null ==> forall j :: 0 <= j < |now.sizes| ==> now.sizes[j] < pages
      ensures vmi != null ==>
                && q < |now.sizes| && free.Contents()[q] == vmi && pages <= now.sizes[q]
                && Passed(now.sizes, pages, high, q)
    {
      ghost var n := |now.sizes|;
      if !high {
        vmi := free.Min();
      } else {
        vmi := free.Max();
      }
      q := if high && n > 0 then n - 1 else 0;
      while vmi != null
        invariant vmi != null ==> q < n && free.Contents()[q] == vmi && Passed(now.sizes, pages, high, q)
        invariant vmi == null ==> forall j :: 0 <= j < n ==> now.sizes[j] < pages
        decreases vmi != null, if high then q else n - q
      {
        if vmi.item.size >= pages {
          return;
        }
        vmi, q := Advance(vmi, high, q);
      }
    }

    /** The neighbour in the free tree towards the large or the small end. */
    method Advance(vmi: Index, high: bool, ghost q: nat) returns (v: Node?<Range>, ghost p: nat)
      requires free.Valid() && q < |free.Contents()| && free.Contents()[q] == vmi
      ensures v == null <==> q == if high then 0 else |free.Contents()| - 1
      ensures v != null ==> p == (if high then q - 1 else q + 1) && free.Contents()[p] == v
    {
      p := if !high then q + 1 else if q > 0 then q - 1 else 0;
      if !high {
        v := free.Next(vmi, q);
      } else {
        v := free.Prev(vmi, q);
      }
    }

    /** Which places of the view and of the free tree belong together. */
    lemma NoFit(pages: nat)
      requires Valid() && forall j :: 0 <= j < |now.sizes| ==> now.sizes[j] < pages
      ensures forall i: nat :: !Fits(now.view, i, pages)
    {
      forall i: nat ensures !Fits(now.view, i, pages) {
        if i < |now.view| && !now.view[i].inUse {
          var j := free.PlaceOf(now.order[i]);
        }
      }
    }

    lemma BestFit(pages: nat, k: nat, q: nat)
      requires Valid() && k < |now.order| && q < |now.sizes| && free.Contents()[q] == now.order[k]
      requires Ascending(now.sizes) && forall j :: 0 <= j < q ==> now.sizes[j] < pages
      ensures Smallest(now.view, k, pages)
    {
      forall i: nat | Fits(now.view, i, pages) ensures now.view[k].size <= now.view[i].size {
        var j := free.PlaceOf(now.order[i]);
        assert j >= q;
      }
    }

    /** From the large end of a free tree in order of size the first that is large enough is a largest. */
    lemma LargestFit(pages: nat, k: nat, q: nat)
      requires Valid() && k < |now.order| && q < |now.sizes| && free.Contents()[q] == now.order[k]
      requires Ascending(now.sizes) && pages <= now.sizes[q] && forall j :: q < j < |now.sizes| ==> now.sizes[j] < pages
      ensures Largest(now.view, k)
    {
      forall i | 0 <= i < |now.view| && !now.view[i].inUse ensures now.view[i].size <= now.view[k].size {
        var j := free.PlaceOf(now.order[i]);
      }
    }

    /**
      vm_alloc_address.  It fails for want of space only if no single free index is large
      enough.  Allocating from the small end keeps the free tree in order of size, and then
      takes a smallest index that will do; `k` is the place of the index it picked.
     */
    method AllocAddress(pages: nat, high: bool, room: nat) returns (r: Outcome, ghost k: nat)
      requires Ready() && pages > 0
      modifies repr
      ensures Ready() && (forall x :: x in repr ==> x in old(repr) || fresh(x))
      ensures AllocStep(old(now).view, pages, high, r, now.view) && (!r.Ok? ==> now.view == old(now).view)
      ensures r != Err(NotImplemented) ==>
                && Fits(old(now).view, k, pages)
                && (r.Ok? <==> room > 0 || old(now).view[k].size == pages)
                && (r.Ok? ==> r.page == Start(old(now).view[k], pages, high))
      ensures !high && Ascending(old(now).sizes) ==>
                Ascending(now.sizes) && (r.Ok? ==> Smallest(old(now).view, k, pages))
      ensures high && Ascending(old(now).sizes) && r.Ok? ==> Largest(old(now).view, k)
    {
      var vmi;
      ghost var q;
      k := 0;
      vmi, q := Scan(pages, high);
      if vmi == null {
        NoFit(pages);
        return Err(NotImplemented), 0;
      }
      k := Picked(vmi, q);
      if Ascending(now.sizes) {
        if !high {
          BestFit(pages, k, q);
        } else {
          LargestFit(pages, k, q);
        }
      }
      r := AllocFrom(vmi, pages, high, room, k, q);
      assert AllocAt(old(now).view, k, pages, high, r, now.view);
    }

    lemma Picked(vmi: Index, q: nat) returns (k: nat)
      requires Valid() && q < |now.sizes| && free.Contents()[q] == vmi
      ensures FreeAt(vmi, k, q) && now.view[k].size == now.sizes[q]
    {
      free.Members();
      k := PlaceOfElement(now.order, vmi);
    }

    /** The body of the loop of vm_alloc_address, for the index it stops at. */
    method AllocFrom(vmi: Index, pages: nat, high: bool, room: nat, ghost k: nat, ghost q: nat)
      returns (r: Outcome)
      requires Ready() && FreeAt(vmi, k, q) && 0 < pages <= now.view[k].size
      modifies repr
      ensures Ready() && (forall x :: x in repr ==> x in old(repr) || fresh(x))
      ensures AllocAt(old(now).view, k, pages, high, r, now.view)
      ensures r.Ok? <==> room > 0 || old(now).view[k].size == pages
      ensures !r.Ok? ==> now.view == old(now).view
      ensures !high && Fitted(old(now).sizes, q, pages) ==> Ascending(now.sizes)
    {
      if vmi.item.size == pages {
        r := AllocWhole(vmi, pages, high, k, q);
      } else {
        r := AllocPart(vmi, pages, high, room, k, q);
      }
    }

    /** ... when that index is as large as what is asked for. */
    method AllocWhole(vmi: Index, pages: nat, ghost high: bool, ghost k: nat, ghost q: nat) returns (r: Outcome)
      requires Ready() && FreeAt(vmi, k, q) && 0 < pages == now.view[k].size
      modifies repr
      ensures Ready() && repr == old(repr) && r.Ok?
      ensures AllocAt(old(now).view, k, pages, high, r, now.view)
      ensures !high && Fitted(old(now).sizes, q, pages) ==> Ascending(now.sizes)
    {
      WholeTaken(now.view, k);
      Use(vmi, pages, k);
      r := Ok(vmi.item.base / PAGE_SIZE);
    }

    /** Where in that index to take the pages from. */
    method Ends(vmi: Index, pages: nat, high: bool, ghost k: nat, ghost q: nat) returns (start: nat, end: nat)
      requires Valid() && FreeAt(vmi, k, q) && 0 < pages <= now.view[k].size
      ensures Aligned(start) && Aligned(end)
      ensures PageOf(start) == Start(now.view[k], pages, high) && PageOf(end) == Start(now.view[k], pages, high) + pages
    {
      Reads(vmi, k, q);
      start := vmi.item.base;
      if high {
        start := start + (vmi.item.size - pages) * PAGE_SIZE;
      }
      end := start + pages * PAGE_SIZE;
      StartPages(now.view[k], vmi.item.base, pages, high, start, end);
    }

    /** ... when that index is larger than what is asked for. */
    method AllocPart(vmi: Index, pages: nat, high: bool, room: nat, ghost k: nat, ghost q: nat)
      returns (r: Outcome)
      requires Ready() && FreeAt(vmi, k, q) && 0 < pages < now.view[k].size
      modifies repr
      ensures Ready() && (forall x :: x in repr ==> x in old(repr) || fresh(x))
      ensures AllocAt(old(now).view, k, pages, high, r, now.view)
      ensures (r.Ok? <==> room > 0) && (!r.Ok? ==> now.view == old(now).view)
      ensures !high && Fitted(old(now).sizes, q, pages) ==> Ascending(now.sizes)
    {
      var start, end := Ends(vmi, pages, high, k, q);
      r := ClaimFrom(vmi, start, end, room, k, q);
      PartClaimed(old(now).view, k, pages, high, PageOf(start), PageOf(end), r, now.view);
    }

    /** vm_alloc_range */
    method AllocRange(begin: nat, end: nat, room: nat) returns (r: Outcome)
      requires Ready() && begin < end
      modifies repr
      ensures Ready() && (forall x :: x in repr ==> x in old(repr) || fresh(x))
      ensures Step(old(now).view, Call.AllocRange(begin, end), r, now.view)
      ensures Supplied(old(now).view, PageOf(begin), PageCount(end), room, r, now.view)
    {
      PageBounds(begin, end);
      r := ClaimRange(PageOf(begin) * PAGE_SIZE, PageCount(end) * PAGE_SIZE, room);
    }

    method FreeFound(vmi: Index, ghost k: nat)
      requires Ready() && k < |now.order| && now.order[k] == vmi && now.view[k].inUse
      modifies repr
      ensures Ready() && repr == old(repr) && (Ascending(old(now).sizes) ==> Ascending(now.sizes))
      ensures now == old(now).(view := old(now).view[k := old(now).view[k].(inUse := false)], sizes := now.sizes)
    {
      ElementAt(now.order, k);
      FreeIndex(vmi, k);
    }

    /** vm_free_address */
    method FreeAddress(vaddr: nat) returns (r: Outcome)
      requires Ready() && Legal(now.view, Call.FreeAddress(vaddr))
      modifies repr
      ensures Ready() && (forall x :: x in repr ==> x in old(repr) || fresh(x))
      ensures Step(old(now).view, Call.FreeAddress(vaddr), r, now.view)
      ensures Ascending(old(now).sizes) ==> Ascending(now.sizes)
    {
      var vmi;
      ghost var k;
      vmi, k := FindIndex(vaddr);
      if vmi == null {
        return Err(NotFound);
      }
      FreeFound(vmi, k);
      r := Ok(vaddr / PAGE_SIZE);
      assert Extents.FreeAt(old(now).view, k, PageOf(vaddr), now.view);
    }

    /** vm_insert_range */
    method InsertRange(begin: nat, end: nat, room: nat) returns (r: Outcome)
      requires Ready() && Legal(now.view, Call.InsertRange(begin, end))
      modifies repr
      ensures Ready() && (forall x :: x in repr ==> x in old(repr) || fresh(x))
      ensures Step(old(now).view, Call.InsertRange(begin, end), r, now.view) && (r.Ok? <==> room > 0)
      ensures Ascending(old(now).sizes) ==> Ascending(now.sizes)
    {
      var vmi;
      ghost var p, q;
      vmi, p, q := InsertIndex(begin, PageCount(end - begin), room);
      if vmi == null {
        return Err(Exhausted);
      }
      PlacedAt(old(now), p, q, vmi, Extent(PageOf(begin), PageCount(end - begin), false), now);
      r := Ok(begin / PAGE_SIZE);
    }

    /** Any one call. */
    method Do(c: Call, room: nat) returns (r: Outcome)
      requires Ready() && Legal(now.view, c)
      modifies repr
      ensures Ready() && (forall x :: x in repr ==> x in old(repr) || fresh(x)) && Step(old(now).view, c, r, now.view)
      ensures room >= 2 ==> r != Err(Exhausted)
      ensures Gentle(c) && Ascending(old(now).sizes) ==> Ascending(now.sizes) && Best(old(now).view, c, r)
    {
      match c
      case InsertRange(begin, end) => r := InsertRange(begin, end, room);
      case AllocAddress(pages, high) =>
        ghost var k;
        r, k := AllocAddress(pages, high, room);
      case AllocRange(begin, end) => r := AllocRange(begin, end, room);
      case FreeAddress(vaddr) => r := FreeAddress(vaddr);
    }

    lemma OrderPlaces(k: nat)
      requires Valid() && k < |now.order|
      ensures forall j :: 0 <= j < |now.order| && j != k ==> now.order[j] != now.order[k]
    {
      ViewPlace(k);
    }

    lemma ViewPlace(k: nat)
      requires Valid() && k < |now.order|
      ensures forall j :: 0 <= j < |now.order| && j != k ==> now.order[j].item != now.order[k].item
    {
    }
  }

  // ---------- Any calls, one after the other ----------

  ghost predicate AllGentle(events: seq<Event>) {
    forall k :: 0 <= k < |events| ==> Gentle(events[k].call)
  }

  /** Every allocation so far is made from a smallest extent that would do. */
  ghost predicate AllBest(states: seq<seq<Extent>>, events: seq<Event>)
    requires |states| > |events|
  {
    forall k :: 0 <= k < |events| ==> Best(states[k], events[k].call, events[k].outcome)
  }

  /** The calls made so far are those of `next`, and have led to `s`. */
  ghost predicate Played(next: seq<Event> -> Call, states: seq<seq<Extent>>, events: seq<Event>, s: Shadow) {
    && Run(states, events) && Followed(events, next) && states[|events|] == s.view
    && (AllGentle(events) ==> Ascending(s.sizes) && AllBest(states, events))
  }

  lemma PlayedNext(next: seq<Event> -> Call, states: seq<seq<Extent>>, events: seq<Event>, s: Shadow, x: Event, t: Shadow)
    requires Played(next, states, events, s) && x.call == next(events) && Legal(s.view, x.call)
    requires Step(s.view, x.call, x.outcome, t.view)
    requires Gentle(x.call) && Ascending(s.sizes) ==> Ascending(t.sizes) && Best(s.view, x.call, x.outcome)
    ensures Played(next, states + [t.view], events + [x], t)
  {
    RunNext(states, events, x, t.view);
    var all, n := events + [x], |events|;
    forall k | 0 <= k < |all| ensures all[k].call == next(all[..k]) {
      assert all[..k] == events[..k];
    }
    if AllGentle(all) {
      assert Gentle(all[n].call);
      assert AllGentle(events) by {
        assert forall k :: 0 <= k < n ==> all[k] == events[k];
      }
    }
  }

  /**
    A new address space and a caller that chooses each call from the calls before it and their
    answers, with any supply of indexes: the views make a run.  If no call takes from the high end
    or claims a range, the free tree is always in order of size and every allocation is made from
    a smallest extent that will do.
   */
  method Replay(next: seq<Event> -> Call, rooms: seq<nat>)
    returns (vm: Vm, events: seq<Event>, ghost states: seq<seq<Extent>>)
    requires Obedient(next, |rooms|)
    ensures fresh(vm) && vm.Ready() && |events| == |rooms|
    ensures Run(states, events) && Followed(events, next) && states[|events|] == vm.now.view
    ensures AllGentle(events) ==> Ascending(vm.now.sizes) && AllBest(states, events)
  {
    vm := new Vm();
    events, states := [], [[]];
    while |events| < |rooms|
      invariant vm.Ready() && forall x :: x in vm.repr ==> fresh(x)
      invariant |events| <= |rooms| && Played(next, states, events, vm.now)
    {
      ghost var s := vm.now;
      var c := next(events);
      var r := vm.Do(c, rooms[|events|]);
      PlayedNext(next, states, events, s, Event(c, r), vm.now);
      events, states := events + [Event(c, r)], states + [vm.now.view];
    }
  }

  lemma DropSized(fs: seq<Index>, sizes: seq<nat>, ranges: set<Range>, gs: seq<Index>, q: nat)
    requires Sized(fs, sizes, ranges) && Without(fs, gs, q)
    ensures Sized(gs, sizes[..q] + sizes[q + 1..], ranges)
  {
  }

  lemma UnuseListed(order: seq<Index>, view: seq<Extent>, all: set<Index>, fs: set<Index>, k: nat)
    requires Listed(order, view, all, fs) && k < |order| && order[k] in all && view[k].inUse
    requires forall j :: 0 <= j < |order| && j != k ==> order[j] != order[k]
    ensures Unlisted(order, view[k := view[k].(inUse := false)], all, fs, k) && order[k] !in fs && order[k].Loose()
  {
  }

  lemma UseListed(order: seq<Index>, view: seq<Extent>, all: set<Index>, fs: set<Index>, k: nat)
    requires |order| == |view| && k < |order| && all == Elements(order) && fs <= all && order[k].Loose()
    requires forall j :: 0 <= j < |order| ==> (order[j] in fs <==> !view[j].inUse)
    requires forall j :: 0 <= j < |order| && j != k ==> order[j] != order[k]
    requires forall f :: f in all && f !in fs ==> f.Loose()
    ensures Listed(order, view[k := view[k].(inUse := true)], all, fs - {order[k]})
  {
  }
}
