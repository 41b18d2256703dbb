/** Tree pages and page queues together: page_insert_pages, and what every other operation keeps. */
module PhysicalPages {
  import opened Machine
  import opened Arithmetic
  import opened Optional
  import opened PageDescriptors
  import T = PageTree
  import Q = PageQueues
  import Btree

  /** The tree pages that page_insert_pages makes for a region; a last single page gets no descriptor. */
  ghost function Region(frame: Frame, pages: nat): map<Frame, nat>
    decreases pages
  {
    if pages <= 1 then map[]
    else Region(frame + ENTRIES, pages - Least(pages, ENTRIES))[frame := Least(pages, ENTRIES)]
  }

  /** How many pages of a region get a descriptor. */
  ghost function Registered(pages: nat): nat {
    if pages % ENTRIES == 1 then pages - 1 else pages
  }

  lemma RegisteredStep(pages: nat)
    requires pages > ENTRIES
    ensures Registered(pages) == ENTRIES + Registered(pages - ENTRIES)
  {
    ModLess(pages - ENTRIES);
  }

  lemma ModLess(x: nat)
    ensures (x + ENTRIES) % ENTRIES == x % ENTRIES
  {
  }

  lemma RegisteredMore(pages: nat, k: nat)
    requires Least(pages, ENTRIES) <= k < Registered(pages)
    ensures pages > ENTRIES && k - ENTRIES < Registered(pages - ENTRIES)
  {
    RegisteredStep(pages);
  }

  lemma RegisteredLast(pages: nat)
    requires 1 < pages <= ENTRIES
    ensures Registered(pages) == pages
  {
  }

  /** The tree pages of a region follow each other, and their entries stay inside it. */
  lemma {:induction false} RegionWithin(frame: Frame, pages: nat, f: Frame)
    requires f in Region(frame, pages)
    ensures frame <= f && 0 < Region(frame, pages)[f] <= ENTRIES && f + Region(frame, pages)[f] <= frame + Registered(pages)
    decreases pages
  {
    var n := Least(pages, ENTRIES);
    if pages > ENTRIES {
      RegisteredStep(pages);
      if f != frame {
        RegionWithin(frame + n, pages - n, f);
      }
    } else {
      RegisteredLast(pages);
    }
  }

  lemma {:induction false} RegionSpaced(frame: Frame, pages: nat, f: Frame, g: Frame)
    requires f in Region(frame, pages) && g in Region(frame, pages) && f < g
    ensures f + ENTRIES <= g
    decreases pages
  {
    var n := Least(pages, ENTRIES);
    RegionWithin(frame, pages, f);
    if f == frame {
      RegionWithin(frame + ENTRIES, pages - n, g);
    } else {
      RegionSpaced(frame + ENTRIES, pages - n, f, g);
    }
  }

  /** The tree pages of one region of up to 2^32 pages never answer for each other, wherever the region lies. */
  lemma RegionCompatible(frame: Frame, pages: nat)
    requires pages <= UNSIGNED && frame + pages <= DIRECT_PAGES
    ensures Compatible(Region(frame, pages))
  {
    var region := Region(frame, pages);
    forall f | f in region ensures Legal(f, region[f]) && frame <= f && f + region[f] <= frame + UNSIGNED {
      RegionWithin(frame, pages, f);
    }
    forall f, g | f in region && g in region && f < g ensures f + ENTRIES <= g {
      RegionSpaced(frame, pages, f, g);
    }
    WindowCompatible(region, frame);
  }

  /** The descriptors made for a region are for its registered pages. */
  lemma {:induction false} DescribedAddress(frame: Frame, pages: nat, f: Frame, i: nat)
    requires f in Region(frame, pages) && i < Region(frame, pages)[f] && frame + pages <= DIRECT_PAGES
    ensures frame <= f + i < frame + Registered(pages) && Address(Descriptor(f, i)) == (f + i) * PAGE_SIZE
  {
    RegionWithin(frame, pages, f);
    AddressOf(f, i);
  }

  /** Every registered page of a region has a descriptor among them. */
  lemma {:induction false} AddressDescribed(frame: Frame, pages: nat, k: nat) returns (f: Frame, i: nat)
    requires k < Registered(pages) && frame + pages <= DIRECT_PAGES
    ensures f in Region(frame, pages) && i < Region(frame, pages)[f] && Address(Descriptor(f, i)) == (frame + k) * PAGE_SIZE
    decreases pages
  {
    var n := Least(pages, ENTRIES);
    if k < n {
      f, i := frame, k;
      AddressOf(frame, k);
    } else {
      RegisteredMore(pages, k);
      f, i := AddressDescribed(frame + n, pages - n, k - n);
      RegionWithin(frame + n, pages - n, f);
      assert f != frame;
    }
  }

  // ---------- What is known after a tree page more ----------

  lemma KnownMore(counts: map<Frame, nat>, frame: Frame, n: nat, p: Page)
    requires frame !in counts
    ensures Known(counts[frame := n], p) <==> Known(counts, p) || p in Q.Span(frame, n)
  {
    var more := counts[frame := n];
    if Known(counts, p) {
      var f, i :| f in counts && 0 <= i < counts[f] && p == Descriptor(f, i);
      assert f in more && i < more[f];
    }
    if p in Q.Span(frame, n) {
      var i :| 0 <= i < n && p == Descriptor(frame, i);
      assert frame in more && i < more[frame];
    }
    if Known(more, p) {
      var f, i :| f in more && 0 <= i < more[f] && p == Descriptor(f, i);
      assert f != frame ==> f in counts && i < counts[f];
    }
  }

  /** A tree page that is not in the tree has no entry known. */
  lemma NotKnown(counts: map<Frame, nat>, frame: Frame, i: nat)
    requires frame !in counts && i < ENTRIES && forall f :: f in counts ==> counts[f] <= ENTRIES
    ensures !Known(counts, Descriptor(frame, i))
  {
    forall f, j | f in counts && 0 <= j < counts[f] ensures Descriptor(frame, i) != Descriptor(f, j) {
      Different(frame, i, f, j);
    }
  }

  /** The pages with a reference count are the registered ones, and every tree page's own is held. */
  ghost predicate Tied(counts: map<Frame, nat>, pages: set<Page>, owners: map<Page, Q.Owner>) {
    && (forall p :: p in pages <==> Known(counts, p))
    && (forall f :: f in counts ==> Descriptor(f, 0) in owners && owners[Descriptor(f, 0)] == Q.TreePage)
  }

  lemma TiedMore(counts: map<Frame, nat>, pages: set<Page>, owners: map<Page, Q.Owner>, frame: Frame, n: nat)
    requires Tied(counts, pages, owners) && frame !in counts && 0 < n <= ENTRIES
    ensures Tied(counts[frame := n], pages + Q.Span(frame, n), owners[Descriptor(frame, 0) := Q.TreePage])
  {
    forall p ensures p in pages + Q.Span(frame, n) <==> Known(counts[frame := n], p) {
      KnownMore(counts, frame, n, p);
    }
  }

  lemma TiedKept(counts: map<Frame, nat>, pages: set<Page>, before: map<Page, Q.Owner>, after: map<Page, Q.Owner>)
    requires Tied(counts, pages, before) && Q.TreePagesKept(before, after)
    ensures Tied(counts, pages, after)
  {
  }

  type Nodes = Btree.Node<Frame>

  class Pages {
    const tree: T.PageTree
    const queues: Q.PageQueues

    ghost predicate Valid()
      reads this, tree, tree.tree, tree.tree.repr, queues
    {
      tree.Valid() && queues.Valid() && Tied(tree.counts, queues.refs.Keys, queues.owners)
    }

    constructor ()
      ensures Valid() && tree.counts == map[] && queues.refs == map[]
    {
      tree := new T.PageTree();
      queues := new Q.PageQueues();
    }

    /** A tree page's own descriptor is never on the free queue. */
    lemma TreePagesHeld(f: Frame)
      requires Valid() && f in tree.counts
      ensures Descriptor(f, 0) !in queues.free && Descriptor(f, 0) in queues.use
    {
    }

    /** For every page with a descriptor, looking its address up gives the descriptor, if tree pages are compatible. */
    method LookupAddress(p: Page) returns (r: Option<Page>)
      requires Valid() && p in queues.refs
      ensures Compatible(tree.counts) ==> r == Some(p)
    {
      r := tree.LookupAddress(p);
    }

    /** The descriptors of a new tree page, and the tree page in the tree. */
    method InsertTreePage(frame: Frame, n: nat) returns (ghost more: set<Nodes>)
      requires Valid() && frame !in tree.counts && Legal(frame, n)
      modifies tree, tree.tree, tree.tree.repr, queues
      ensures Valid() && tree.counts == old(tree.counts)[frame := n]
      ensures fresh(more) && tree.tree.repr == old(tree.tree.repr) + more
      ensures forall p :: p in old(queues.refs) ==> p in queues.refs && queues.refs[p] == old(queues.refs)[p]
    {
      ghost var counts := tree.counts[frame := n];
      Describe(frame, n);
      ghost var pages, owners := queues.refs.Keys, queues.owners;
      assert Tied(counts, pages, owners);
      more := tree.Insert(frame, n);
    }

    /** The inner loop of page_insert_pages. */
    method Describe(frame: Frame, n: nat)
      requires queues.Valid() && Tied(tree.counts, queues.refs.Keys, queues.owners)
      requires frame !in tree.counts && 0 < n <= ENTRIES && forall f :: f in tree.counts ==> tree.counts[f] <= ENTRIES
      modifies queues
      ensures queues.Valid() && Tied(tree.counts[frame := n], queues.refs.Keys, queues.owners)
      ensures forall p :: p in old(queues.refs) ==> p in queues.refs && queues.refs[p] == old(queues.refs)[p]
    {
      forall i | 0 <= i < n ensures Descriptor(frame, i) !in queues.refs {
        NotKnown(tree.counts, frame, i);
      }
      TiedMore(tree.counts, queues.refs.Keys, queues.owners, frame, n);
      queues.InsertSpan(frame, n);
    }

    /** In the outer loop: the rest of the region is to be done, and nothing known before has changed. */
    ghost predicate Running(frame: Frame, left: nat, goal: map<Frame, nat>, before: map<Page, nat>)
      reads this, tree, tree.tree, tree.tree.repr, queues
    {
      && Valid() && Going(tree.counts, frame, left, goal)
      && forall p :: p in before ==> p in queues.refs && queues.refs[p] == before[p]
    }

    /** One round of the outer loop. */
    method Round(frame: Frame, left: nat, ghost goal: map<Frame, nat>, ghost before: map<Page, nat>)
      returns (next: Frame, rest: nat, ghost more: set<Nodes>)
      requires Running(frame, left, goal, before) && left > 1
      modifies tree, tree.tree, tree.tree.repr, queues
      ensures Running(next, rest, goal, before) && rest < left
      ensures fresh(more) && tree.tree.repr == old(tree.tree.repr) + more
    {
      var n := Least(left, ENTRIES);
      RoundFits(tree.counts, frame, left, n, goal);
      next, rest := frame + ENTRIES, left - n;
      more := InsertTreePage(frame, n);
    }

    /** The outer loop of page_insert_pages. */
    method Rounds(base: Frame, pages: nat, ghost goal: map<Frame, nat>, ghost before: map<Page, nat>)
      returns (frame: Frame, left: nat)
      requires Running(base, pages, goal, before)
      modifies tree, tree.tree, tree.tree.repr, queues
      ensures Running(frame, left, goal, before) && left <= 1
      ensures fresh(tree.tree.repr - old(tree.tree.repr))
    {
      frame, left := base, pages;
      while left > 1
        invariant Running(frame, left, goal, before)
        invariant forall n :: n in tree.tree.repr ==> n in old(tree.tree.repr) || fresh(n)
      {
        ghost var more;
        frame, left, more := Round(frame, left, goal, before);
      }
    }

    /**
      page_insert_pages: every page of the region but a last single one gets a descriptor, in tree
      pages that follow each other.  The region's tree pages must be new.
     */
    method InsertPages(base: Frame, pages: nat)
      requires Valid() && tree.counts.Keys !! Region(base, pages).Keys
      requires base + pages <= DIRECT_PAGES
      modifies tree, tree.tree, tree.tree.repr, queues
      ensures Valid() && fresh(tree.tree.repr - old(tree.tree.repr))
      ensures tree.counts == old(tree.counts) + Region(base, pages)
      ensures forall p :: p in old(queues.refs) ==> p in queues.refs && queues.refs[p] == old(queues.refs)[p]
    {
      ghost var goal := tree.counts + Region(base, pages);
      var frame, left := Rounds(base, pages, goal, queues.refs);
      GoneAll(tree.counts, frame, left, goal);
    }

    // ---------- Every other operation ----------

    /** Every operation keeps tree pages held, lookups right and references counted. */
    method Do(op: Q.Op)
      requires Valid() && queues.Allowed(op)
      modifies queues
      ensures Valid()
    {
      ghost var counts, pages, before := tree.counts, queues.refs.Keys, queues.owners;
      queues.Do(op);
      TiedKept(counts, pages, before, queues.owners);
    }
  }

  /** What is left to do: with the rest of the region the tree pages will be those of `goal`. */
  ghost predicate Going(counts: map<Frame, nat>, frame: Frame, left: nat, goal: map<Frame, nat>) {
    && counts.Keys !! Region(frame, left).Keys && counts + Region(frame, left) == goal
    && (left > 0 ==> frame + left <= DIRECT_PAGES)
  }

  lemma GoneAll(counts: map<Frame, nat>, frame: Frame, left: nat, goal: map<Frame, nat>)
    requires Going(counts, frame, left, goal) && left <= 1
    ensures counts == goal
  {
    assert counts + map[] == counts;
  }

  lemma RoundFits(counts: map<Frame, nat>, frame: Frame, left: nat, n: nat, goal: map<Frame, nat>)
    requires Going(counts, frame, left, goal) && left > 1 && n == Least(left, ENTRIES)
    ensures frame !in counts && Legal(frame, n) && Going(counts[frame := n], frame + ENTRIES, left - n, goal)
  {
    var rest := Region(frame + ENTRIES, left - n);
    assert Region(frame, left) == rest[frame := n];
    if frame in rest {
      RegionWithin(frame + ENTRIES, left - n, frame);
    }
  }
}
