/**
  Physical page descriptors (mk/vm/vm_page.c).  A descriptor is named by the kernel virtual
  address of its struct vm_page, which lies in the first page of the span it describes.
 */
module PageDescriptors {
  import opened Machine

  /** sizeof (struct vm_page_tree) and sizeof (struct vm_page). */
  const HEADER: nat := 24
  const ENTRY: nat := 24
  /** VM_PAGE_TREE_ENTRIES: as many as fit in a page after the header. */
  const ENTRIES: nat := 340
  /** XKPHYS_MAP with the cacheable attribute, and the pages that XKPHYS_EXTRACT can tell apart. */
  const DIRECT: nat := 0x9800_0000_0000_0000
  const DIRECT_PAGES: nat := 0x4000_0000_0000

  type Page = nat

  /** A page frame number; its address is as many pages. */
  type Frame = nat

  /** &ptp->ptp_entries[i] in the tree page of a frame. */
  function Descriptor(frame: Frame, i: nat): Page {
    DIRECT + frame * PAGE_SIZE + HEADER + ENTRY * i
  }

  /** page_address. */
  function Address(page: Page): nat {
    var floor := page - page % PAGE_SIZE;
    var entry := if page >= floor + HEADER then (page - floor - HEADER) / ENTRY else 0;
    floor % (DIRECT_PAGES * PAGE_SIZE) + PAGE_SIZE * entry
  }

  /** A descriptor's address is as many pages past its tree page as its place in it. */
  lemma AddressOf(frame: Frame, i: nat)
    requires frame + i < DIRECT_PAGES && i < ENTRIES
    ensures Address(Descriptor(frame, i)) == (frame + i) * PAGE_SIZE
  {
    FloorOf(frame, HEADER + ENTRY * i);
    DirectOf(frame);
  }

  /** It is that page's frame number in pages. */
  lemma FrameOf(frame: Frame, i: nat)
    requires frame + i < DIRECT_PAGES && i < ENTRIES
    ensures Address(Descriptor(frame, i)) / PAGE_SIZE == frame + i
  {
    AddressOf(frame, i);
    Quotient(frame + i);
  }

  lemma Quotient(n: nat)
    ensures n * PAGE_SIZE / PAGE_SIZE == n
  {
  }

  lemma FloorOf(frame: Frame, offset: nat)
    requires offset < PAGE_SIZE
    ensures (DIRECT + frame * PAGE_SIZE + offset) % PAGE_SIZE == offset
  {
  }

  lemma DirectOf(frame: Frame)
    requires frame < DIRECT_PAGES
    ensures (DIRECT + frame * PAGE_SIZE) % (DIRECT_PAGES * PAGE_SIZE) == frame * PAGE_SIZE
  {
    assert DIRECT == 19 * (DIRECT_PAGES * PAGE_SIZE);
  }

  /** Entries of different tree pages are different descriptors. */
  lemma Different(f: Frame, i: nat, g: Frame, j: nat)
    requires i < ENTRIES && j < ENTRIES && f != g
    ensures Descriptor(f, i) != Descriptor(g, j)
  {
    FloorOf(f, HEADER + ENTRY * i);
    FloorOf(g, HEADER + ENTRY * j);
  }

  // ---------- The comparison ----------

  datatype Order = Less | Equal | Greater

  /** The entry that page_lookup_cmp computes, in an unsigned of 32 bits. */
  function EntryOf(paddr: nat, frame: Frame): nat
    requires frame * PAGE_SIZE <= paddr
  {
    (paddr - frame * PAGE_SIZE) / PAGE_SIZE % UNSIGNED
  }

  /** page_lookup_cmp. */
  function Compare(paddr: nat, frame: Frame): Order {
    if paddr < frame * PAGE_SIZE then Less
    else if EntryOf(paddr, frame) < ENTRIES then Equal
    else Greater
  }

  /** Where a page lies with respect to the span of a tree page. */
  function Place(n: Frame, frame: Frame): Order {
    if n < frame then Less else if n < frame + ENTRIES then Equal else Greater
  }

  lemma EntryIs(n: Frame, frame: Frame)
    requires frame <= n
    ensures EntryOf(n * PAGE_SIZE, frame) == (n - frame) % UNSIGNED
  {
    Difference(n, frame);
  }

  lemma Difference(n: Frame, frame: Frame)
    requires frame <= n
    ensures (n * PAGE_SIZE - frame * PAGE_SIZE) / PAGE_SIZE == n - frame
  {
    assert n * PAGE_SIZE - frame * PAGE_SIZE == (n - frame) * PAGE_SIZE;
  }

  /** The comparison is right except where the entry number is cut to 32 bits and lands on a real entry. */
  lemma CompareIsPlace(n: Frame, frame: Frame)
    ensures Compare(n * PAGE_SIZE, frame) == Place(n, frame) <==>
            n < frame + ENTRIES || (n - frame) % UNSIGNED >= ENTRIES
  {
    if frame <= n {
      EntryIs(n, frame);
    }
  }

  // ---------- Tree pages that do not answer for each other ----------

  /** A tree page with its first `n` entries registered. */
  predicate Legal(frame: Frame, n: nat) {
    0 < n <= ENTRIES && frame + n <= DIRECT_PAGES
  }

  /** No registered page of the tree page at `g` is taken for an entry of the one at `f`, below it. */
  predicate Apart(f: Frame, g: Frame, n: nat)
    requires f <= g
  {
    var d := (g - f) % UNSIGNED;
    ENTRIES <= d && d + n <= UNSIGNED
  }

  /** The comparison with `f` passes the i-th page of `g` on. */
  predicate Passes(f: Frame, g: Frame, i: nat) {
    Compare((g + i) * PAGE_SIZE, f) == Greater
  }

  /** What the comparison does with it, told from the distance in 32 bits. */
  lemma PassesIff(f: Frame, g: Frame, i: nat)
    requires f <= g
    ensures Compare((g + i) * PAGE_SIZE, f) ==
            if ((g - f) % UNSIGNED + i) % UNSIGNED < ENTRIES then Equal else Greater
  {
    EntryIs(g + i, f);
    ModAdd(g - f, i);
  }

  /** That is what being apart means: the comparison passes every registered page of `g` on. */
  lemma ApartMeans(f: Frame, g: Frame, n: nat)
    requires f <= g && 0 < n <= ENTRIES
    ensures Apart(f, g, n) <==> forall i :: 0 <= i < n ==> Passes(f, g, i)
  {
    var d := (g - f) % UNSIGNED;
    forall i | 0 <= i < n ensures Passes(f, g, i) <==> (d + i) % UNSIGNED >= ENTRIES {
      PassesIff(f, g, i);
    }
    if Apart(f, g, n) {
      assert forall i :: 0 <= i < n ==> Passes(f, g, i);
    } else {
      var i := NotApart(f, g, n);
    }
  }

  /** The first page of `g` that the comparison takes for an entry of `f`, if there is one. */
  function FirstTaken(f: Frame, g: Frame): nat
    requires f <= g
  {
    var d := (g - f) % UNSIGNED;
    if d < ENTRIES then 0 else UNSIGNED - d
  }

  /** Otherwise some registered page of `g` is taken for an entry of `f`. */
  lemma NotApart(f: Frame, g: Frame, n: nat) returns (i: nat)
    requires f <= g && 0 < n <= ENTRIES && !Apart(f, g, n)
    ensures i < n && !Passes(f, g, i) && Compare((g + i) * PAGE_SIZE, f) == Equal
    ensures i == FirstTaken(f, g)
  {
    i := FirstTaken(f, g);
    PassesIff(f, g, i);
  }

  lemma ModAdd(x: nat, i: nat)
    ensures (x + i) % UNSIGNED == (x % UNSIGNED + i) % UNSIGNED
  {
    var q := x / UNSIGNED;
    ModShift(x % UNSIGNED + i, q);
  }

  lemma ModShift(y: nat, q: nat)
    ensures (q * UNSIGNED + y) % UNSIGNED == y % UNSIGNED
  {
  }

  /** Tree pages by frame, with how many of their entries are registered: none answers for another's page. */
  ghost predicate Compatible(counts: map<Frame, nat>) {
    && (forall f :: f in counts ==> Legal(f, counts[f]))
    && (forall f, g :: f in counts && g in counts && f < g ==> Apart(f, g, counts[g]))
  }

  /** Tree pages whose registered pages are different pages. */
  ghost predicate Disjoint(counts: map<Frame, nat>) {
    && (forall f :: f in counts ==> Legal(f, counts[f]))
    && (forall f, g :: f in counts && g in counts && f < g ==> f + counts[f] <= g)
  }

  lemma ApartDistance(f: Frame, g: Frame, n: nat)
    requires f <= g && Apart(f, g, n)
    ensures f + ENTRIES <= g
  {
  }

  lemma CompatibleDisjoint(counts: map<Frame, nat>)
    requires Compatible(counts)
    ensures Disjoint(counts)
  {
    forall f, g | f in counts && g in counts && f < g ensures f + counts[f] <= g {
      ApartDistance(f, g, counts[g]);
    }
  }

  /** Tree pages with spans that do not overlap, and all pages within 2^32 of the lowest, are compatible, wherever they lie. */
  lemma WindowCompatible(counts: map<Frame, nat>, low: Frame)
    requires forall f :: f in counts ==> Legal(f, counts[f]) && low <= f && f + counts[f] <= low + UNSIGNED
    requires forall f, g :: f in counts && g in counts && f < g ==> f + ENTRIES <= g
    ensures Compatible(counts)
  {
  }

  /** The page is a registered entry of one of the tree pages. */
  ghost predicate Known(counts: map<Frame, nat>, page: Page) {
    exists f, i :: f in counts && 0 <= i < counts[f] && page == Descriptor(f, i)
  }

  /** Distinct descriptors have distinct addresses. */
  lemma AddressesDistinct(counts: map<Frame, nat>, p: Page, q: Page)
    requires Disjoint(counts) && Known(counts, p) && Known(counts, q) && Address(p) == Address(q)
    ensures p == q
  {
    var f, i :| f in counts && 0 <= i < counts[f] && p == Descriptor(f, i);
    var g, j :| g in counts && 0 <= j < counts[g] && q == Descriptor(g, j);
    AddressOf(f, i);
    AddressOf(g, j);
  }
}

/** The tree of tree pages, and page_lookup in it. */
module PageTree {
  import opened Machine
  import opened Optional
  import opened PageDescriptors
  import Btree

  /** The tree as the frames of its nodes. */
  datatype Frames = Leaf | Fork(l: Frames, frame: Frame, r: Frames)

  ghost function Members(t: Frames): set<Frame> {
    if t.Leaf? then {} else Members(t.l) + {t.frame} + Members(t.r)
  }

  ghost predicate Ordered(t: Frames) {
    t.Fork? ==>
      && (forall f :: f in Members(t.l) ==> f < t.frame)
      && (forall f :: f in Members(t.r) ==> t.frame < f)
      && Ordered(t.l) && Ordered(t.r)
  }

  /** The descriptor that page_lookup finds for the n-th page. */
  ghost function Seek(t: Frames, n: Frame): Option<Page> {
    if t.Leaf? then None
    else
      match Compare(n * PAGE_SIZE, t.frame)
      case Less => Seek(t.l, n)
      case Equal => Some(Descriptor(t.frame, EntryOf(n * PAGE_SIZE, t.frame)))
      case Greater => Seek(t.r, n)
  }

  /** The tree after BTREE_INSERT of a tree page. */
  ghost function Grown(t: Frames, f: Frame): Frames {
    if t.Leaf? then Fork(Leaf, f, Leaf)
    else if f < t.frame then Fork(Grown(t.l, f), t.frame, t.r)
    else Fork(t.l, t.frame, Grown(t.r, f))
  }

  lemma {:induction false} GrownFacts(t: Frames, f: Frame)
    requires Ordered(t) && f !in Members(t)
    ensures Ordered(Grown(t, f)) && Members(Grown(t, f)) == Members(t) + {f}
  {
    if t.Fork? {
      if f < t.frame {
        GrownFacts(t.l, f);
      } else {
        GrownFacts(t.r, f);
      }
    }
  }

  // ---------- When lookups are right ----------

  /** Looking up the i-th page of `g` gives its descriptor. */
  ghost predicate Finds(t: Frames, g: Frame, i: nat) {
    Seek(t, g + i) == Some(Descriptor(g, i))
  }

  /** Looking up every registered page gives its descriptor. */
  ghost predicate Right(t: Frames, counts: map<Frame, nat>)
    requires Members(t) <= counts.Keys
  {
    forall g, i :: g in Members(t) && 0 <= i < counts[g] ==> Finds(t, g, i)
  }

  /** No tree page on the way to another answers for its registered pages. */
  ghost predicate Fine(t: Frames, counts: map<Frame, nat>)
    requires Members(t) <= counts.Keys && Ordered(t)
  {
    t.Fork? ==>
      && (forall g :: g in Members(t.l) ==> g + counts[g] <= t.frame)
      && (forall g :: g in Members(t.r) ==> Apart(t.frame, g, counts[g]))
      && Fine(t.l, counts) && Fine(t.r, counts)
  }

  /** What a lookup finds is an entry of a tree page of the tree. */
  lemma {:induction false} SeekFinds(t: Frames, n: Frame) returns (f: Frame, j: nat)
    requires Seek(t, n).Some?
    ensures f in Members(t) && j < ENTRIES && Seek(t, n) == Some(Descriptor(f, j))
  {
    match Compare(n * PAGE_SIZE, t.frame)
    case Less => f, j := SeekFinds(t.l, n);
    case Equal => f, j := t.frame, EntryOf(n * PAGE_SIZE, t.frame);
    case Greater => f, j := SeekFinds(t.r, n);
  }

  /** A lookup in a tree without `g` never gives an entry of `g`. */
  lemma SeekMisses(t: Frames, n: Frame, g: Frame, i: nat)
    requires i < ENTRIES && g !in Members(t)
    ensures Seek(t, n) != Some(Descriptor(g, i))
  {
    if Seek(t, n).Some? {
      var f, j := SeekFinds(t, n);
      Different(f, j, g, i);
    }
  }

  /** A tree page's own pages are found at it. */
  lemma SeekHere(t: Frames, i: nat)
    requires t.Fork? && i < ENTRIES
    ensures Finds(t, t.frame, i)
  {
    var n := t.frame + i;
    EntryIs(n, t.frame);
    assert EntryOf(n * PAGE_SIZE, t.frame) == i;
  }

  /** A page of a tree page to the left is found exactly when it lies below the root and is found there. */
  lemma SeekLeft(t: Frames, g: Frame, i: nat)
    requires t.Fork? && Ordered(t) && g in Members(t.l) && i < ENTRIES
    ensures Finds(t, g, i) <==> g + i < t.frame && Finds(t.l, g, i)
  {
    var n := g + i;
    match Compare(n * PAGE_SIZE, t.frame)
    case Less =>
    case Equal => Different(t.frame, EntryOf(n * PAGE_SIZE, t.frame), g, i);
    case Greater => SeekMisses(t.r, n, g, i);
  }

  /** One to the right, exactly when the comparison passes it on and it is found there. */
  lemma SeekRight(t: Frames, g: Frame, i: nat)
    requires t.Fork? && Ordered(t) && g in Members(t.r) && i < ENTRIES
    ensures Finds(t, g, i) <==> Passes(t.frame, g, i) && Finds(t.r, g, i)
  {
    var n := g + i;
    if Compare(n * PAGE_SIZE, t.frame) == Equal {
      Different(t.frame, EntryOf(n * PAGE_SIZE, t.frame), g, i);
    }
  }

  /** The pages of one tree page to the left. */
  lemma LeftRight(t: Frames, g: Frame, n: nat)
    requires t.Fork? && Ordered(t) && g in Members(t.l) && 0 < n <= ENTRIES
    ensures (forall i :: 0 <= i < n ==> Finds(t, g, i)) <==>
            g + n <= t.frame && forall i :: 0 <= i < n ==> Finds(t.l, g, i)
  {
    forall i | 0 <= i < n ensures Finds(t, g, i) <==> g + i < t.frame && Finds(t.l, g, i) {
      SeekLeft(t, g, i);
    }
    assert (forall i :: 0 <= i < n ==> Finds(t, g, i)) ==> Finds(t, g, n - 1);
  }

  /** The pages of one tree page to the right. */
  lemma RightRight(t: Frames, g: Frame, n: nat)
    requires t.Fork? && Ordered(t) && g in Members(t.r) && 0 < n <= ENTRIES
    ensures (forall i :: 0 <= i < n ==> Finds(t, g, i)) <==>
            Apart(t.frame, g, n) && forall i :: 0 <= i < n ==> Finds(t.r, g, i)
  {
    forall i | 0 <= i < n ensures Finds(t, g, i) <==> Passes(t.frame, g, i) && Finds(t.r, g, i) {
      SeekRight(t, g, i);
    }
    ApartMeans(t.frame, g, n);
  }

  /** Every registered page of `g` is found. */
  ghost predicate RightFor(t: Frames, g: Frame, n: nat) {
    forall i :: 0 <= i < n ==> Finds(t, g, i)
  }

  lemma RightSplits(t: Frames, counts: map<Frame, nat>)
    requires t.Fork? && Ordered(t) && Members(t) <= counts.Keys
    requires forall f :: f in counts ==> Legal(f, counts[f])
    ensures Right(t, counts) <==>
            && Right(t.l, counts) && Right(t.r, counts)
            && (forall g :: g in Members(t.l) ==> g + counts[g] <= t.frame)
            && (forall g :: g in Members(t.r) ==> Apart(t.frame, g, counts[g]))
  {
    forall g | g in Members(t)
      ensures g == t.frame ==> RightFor(t, g, counts[g])
      ensures g in Members(t.l) ==>
                (RightFor(t, g, counts[g]) <==> g + counts[g] <= t.frame && RightFor(t.l, g, counts[g]))
      ensures g in Members(t.r) ==>
                (RightFor(t, g, counts[g]) <==> Apart(t.frame, g, counts[g]) && RightFor(t.r, g, counts[g]))
    {
      if g == t.frame {
        forall i | 0 <= i < counts[g] ensures Finds(t, g, i) {
          SeekHere(t, i);
        }
      }
      if g in Members(t.l) {
        LeftRight(t, g, counts[g]);
      }
      if g in Members(t.r) {
        RightRight(t, g, counts[g]);
      }
    }
    RightEach(t, counts);
    RightEach(t.l, counts);
    RightEach(t.r, counts);
  }

  lemma RightEach(t: Frames, counts: map<Frame, nat>)
    requires Members(t) <= counts.Keys
    ensures Right(t, counts) <==> forall g :: g in Members(t) ==> RightFor(t, g, counts[g])
  {
  }

  /** In any tree every registered page is found if and only if no tree page on the way answers for it. */
  lemma {:induction false} LookupExact(t: Frames, counts: map<Frame, nat>)
    requires Ordered(t) && Members(t) <= counts.Keys
    requires forall f :: f in counts ==> Legal(f, counts[f])
    ensures Right(t, counts) <==> Fine(t, counts)
  {
    if t.Fork? {
      RightSplits(t, counts);
      LookupExact(t.l, counts);
      LookupExact(t.r, counts);
    }
  }

  /** Compatible tree pages are found whatever the shape of the tree. */
  lemma {:induction false} CompatibleFine(t: Frames, counts: map<Frame, nat>)
    requires Ordered(t) && Members(t) <= counts.Keys && Compatible(counts)
    ensures Fine(t, counts)
  {
    if t.Fork? {
      CompatibleDisjoint(counts);
      CompatibleFine(t.l, counts);
      CompatibleFine(t.r, counts);
    }
  }

  /** The descriptor is for the n-th page. */
  ghost predicate Describes(counts: map<Frame, nat>, n: Frame, page: Page) {
    exists f, i :: f in counts && 0 <= i < counts[f] && n == f + i && page == Descriptor(f, i)
  }

  lemma Located(counts: map<Frame, nat>, page: Page)
    requires (forall f :: f in counts ==> Legal(f, counts[f])) && Known(counts, page)
    ensures Describes(counts, Address(page) / PAGE_SIZE, page)
  {
    var f, i :| f in counts && 0 <= i < counts[f] && page == Descriptor(f, i);
    FrameOf(f, i);
    var n := f + i;
    assert n == f + i && page == Descriptor(f, i);
  }

  lemma DescribedFound(t: Frames, counts: map<Frame, nat>, n: Frame, page: Page)
    requires Members(t) == counts.Keys && Right(t, counts) && Describes(counts, n, page)
    ensures Seek(t, n) == Some(page)
  {
    var f, i :| f in counts && 0 <= i < counts[f] && n == f + i && page == Descriptor(f, i);
    assert Finds(t, f, i);
  }

  lemma CompatibleRight(t: Frames, counts: map<Frame, nat>)
    requires Ordered(t) && Members(t) == counts.Keys && Compatible(counts)
    ensures Right(t, counts)
  {
    CompatibleFine(t, counts);
    LookupExact(t, counts);
  }

  /** Looking up the address of a registered page gives the page, in a tree of any shape and at any height. */
  lemma AddressInverse(t: Frames, counts: map<Frame, nat>, page: Page)
    requires Ordered(t) && Members(t) == counts.Keys && Compatible(counts) && Known(counts, page)
    ensures Seek(t, Address(page) / PAGE_SIZE) == Some(page)
  {
    Located(counts, page);
    CompatibleRight(t, counts);
    DescribedFound(t, counts, Address(page) / PAGE_SIZE, page);
  }

  /** The tree of two tree pages, the lower one inserted first. */
  ghost function Two(f: Frame, g: Frame): Frames {
    Grown(Grown(Leaf, f), g)
  }

  lemma TwoIs(f: Frame, g: Frame)
    requires f < g
    ensures Two(f, g) == Fork(Leaf, f, Fork(Leaf, g, Leaf))
  {
    assert Grown(Leaf, f) == Fork(Leaf, f, Leaf) && Grown(Leaf, g) == Fork(Leaf, g, Leaf);
  }

  /** For two tree pages, the lower one inserted first, being apart is exactly what lookups need. */
  lemma TwoExact(f: Frame, g: Frame, counts: map<Frame, nat>)
    requires f < g && counts.Keys == {f, g} && Legal(f, counts[f]) && Legal(g, counts[g])
    ensures Ordered(Two(f, g)) && Members(Two(f, g)) == counts.Keys
    ensures Right(Two(f, g), counts) <==> Apart(f, g, counts[g])
  {
    var t := Two(f, g);
    TwoIs(f, g);
    assert Members(t.l) == {} && Members(t.r) == {g};
    assert Members(t.r.l) == {} && Members(t.r.r) == {};
    assert Fine(t.r, counts);
    LookupExact(t, counts);
  }

  /** Where they are not, the lookup of a registered page of the higher one gives an entry of the lower one. */
  lemma TakenForOther(f: Frame, g: Frame, n: nat) returns (i: nat, j: nat)
    requires f < g && Legal(g, n) && !Apart(f, g, n)
    ensures i == FirstTaken(f, g) < n && j < ENTRIES && Seek(Two(f, g), g + i) == Some(Descriptor(f, j))
    ensures Descriptor(f, j) != Descriptor(g, i)
  {
    i := NotApart(f, g, n);
    j := EntryOf((g + i) * PAGE_SIZE, f);
    TwoIs(f, g);
    Different(f, j, g, i);
  }

  /** So it is for tree pages 2^45 bytes apart: the second's own page is taken for the first's. */
  lemma WrapsAt()
    ensures !Apart(0, UNSIGNED, 1)
    ensures Seek(Two(0, UNSIGNED), UNSIGNED) == Some(Descriptor(0, 0)) != Some(Descriptor(UNSIGNED, 0))
  {
    TwoIs(0, UNSIGNED);
  }

  // ---------- The tree on the heap ----------

  ghost function View(s: Btree.Shape<Frame>): Frames {
    if s.Nil? then Leaf else Fork(View(s.l), s.n.item, View(s.r))
  }

  lemma {:induction false} ViewGrows(s: Btree.Shape<Frame>, v: Btree.Node<Frame>, less: set<Btree.Node<Frame>>)
    requires forall n :: n in Btree.Nodes(s) ==> (n in less <==> v.item < n.item)
    ensures View(Btree.Planted(s, v, less)) == Grown(View(s), v.item)
  {
    if s.Fork? {
      ViewGrows(s.l, v, less);
      ViewGrows(s.r, v, less);
    }
  }

  lemma {:induction false} ViewSeeks(s: Btree.Shape<Frame>, less: set<Btree.Node<Frame>>, same: set<Btree.Node<Frame>>,
                                     n: Frame)
    requires forall x :: x in Btree.Nodes(s) ==> (x in less <==> Compare(n * PAGE_SIZE, x.item) == Less)
    requires forall x :: x in Btree.Nodes(s) ==> (x in same <==> Compare(n * PAGE_SIZE, x.item) == Equal)
    ensures var hit := Btree.Walk(s, less, same);
            && (hit == null <==> Seek(View(s), n) == None)
            && (hit != null ==> Compare(n * PAGE_SIZE, hit.item) == Equal)
            && (hit != null ==> Seek(View(s), n) == Some(Descriptor(hit.item, EntryOf(n * PAGE_SIZE, hit.item))))
  {
    if s.Fork? {
      ViewSeeks(s.l, less, same, n);
      ViewSeeks(s.r, less, same, n);
    }
  }

  class PageTree {
    const tree: Btree.Tree<Frame>
    /** The tree pages, with how many of their entries are registered. */
    ghost var counts: map<Frame, nat>

    ghost predicate Valid()
      reads this, tree, tree.repr
    {
      && tree.Valid() && Ordered(View(tree.shape)) && Members(View(tree.shape)) == counts.Keys
      && forall f :: f in counts ==> Legal(f, counts[f])
    }

    constructor ()
      ensures Valid() && counts == map[] && View(tree.shape) == Leaf && fresh(tree) && tree.repr == {}
    {
      tree := new Btree.Tree<Frame>();
      counts := map[];
      new;
      assert tree.shape.Nil? by {
        assert tree.Contents() == [];
      }
    }

    /** The BTREE_INSERT of page_insert_pages, for a tree page with `n` entries. */
    method Insert(frame: Frame, ghost n: nat) returns (ghost more: set<Btree.Node<Frame>>)
      requires Valid() && frame !in counts && Legal(frame, n)
      modifies this, tree, tree.repr
      ensures Valid() && fresh(more) && tree.repr == old(tree.repr) + more && counts == old(counts)[frame := n]
      ensures View(tree.shape) == Grown(old(View(tree.shape)), frame)
    {
      var ptp := new Btree.Node<Frame>(frame);
      GrownFacts(View(tree.shape), frame);
      ViewGrows(tree.shape, ptp, tree.Those((x: Frame) => frame < x));
      var k := tree.Insert(ptp, (x: Frame) => frame < x);
      counts := counts[frame := n];
      more := {ptp};
    }

    /** page_lookup of the address of the n-th page. */
    method Lookup(n: Frame) returns (page: Option<Page>)
      requires Valid()
      ensures page == Seek(View(tree.shape), n)
    {
      var paddr := n * PAGE_SIZE;
      ViewSeeks(tree.shape, tree.Those((x: Frame) => Compare(paddr, x) == Less),
                tree.Those((x: Frame) => Compare(paddr, x) == Equal), n);
      var hit, k := tree.Find((x: Frame) => Compare(paddr, x) == Less, (x: Frame) => Compare(paddr, x) == Equal);
      if hit == null {
        return None;
      }
      return Some(Descriptor(hit.item, EntryOf(paddr, hit.item)));
    }

    /** For compatible tree pages, looking up a registered page's address gives the page. */
    method LookupAddress(page: Page) returns (r: Option<Page>)
      requires Valid() && Known(counts, page)
      ensures Compatible(counts) ==> r == Some(page)
    {
      if Compatible(counts) {
        AddressInverse(View(tree.shape), counts, page);
      }
      r := Lookup(Address(page) / PAGE_SIZE);
    }
  }

  method WrongPage(f: Frame, m: nat, g: Frame, n: nat) returns (r: Option<Page>, page: Page, ghost j: nat)
    requires f < g && Legal(f, m) && Legal(g, n) && !Apart(f, g, n)
    ensures page == Descriptor(g, FirstTaken(f, g)) && FirstTaken(f, g) < n
    ensures r == Some(Descriptor(f, j)) && j < ENTRIES && r != Some(page)
  {
    var pages := new PageTree();
    ghost var _ := pages.Insert(f, m);
    ghost var _ := pages.Insert(g, n);
    ghost var i;
    i, j := TakenForOther(f, g, n);
    page := Descriptor(g, FirstTaken(f, g));
    FrameOf(g, i);
    r := pages.Lookup(Address(page) / PAGE_SIZE);
  }
}
