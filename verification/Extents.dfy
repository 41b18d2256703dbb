/**
  What the address-space allocator means: a sequence of extents in address order, and what
  one call of its interface (mk/vm/vm_index.c) may do to that sequence.  Places are page
  numbers here; the calls speak of byte addresses.
 */
module Extents {
  import opened Machine
  import opened Queues

  /** One vm_index: its first page, its size in pages, and the INUSE flag. */
  datatype Extent = Extent(first: nat, size: nat, inUse: bool) {
    function End(): nat {
      first + size
    }
  }

  datatype Error = NotFound | NotFree | NotImplemented | Exhausted
  datatype Outcome = Ok(page: nat) | Err(error: Error)

  function PageOf(a: nat): nat { a / PAGE_SIZE }
  function PageCount(a: nat): nat { (a + (PAGE_SIZE - 1)) / PAGE_SIZE }
  predicate Aligned(a: nat) { a % PAGE_SIZE == 0 }

  lemma PageDistance(a: nat, b: nat)
    requires Aligned(a) && Aligned(b) && PageOf(a) <= PageOf(b)
    ensures a <= b && (b - a) / PAGE_SIZE == PageOf(b) - PageOf(a)
    ensures b - a == (PageOf(b) - PageOf(a)) * PAGE_SIZE
  {
  }

  /** ADDR_TO_PAGE of the distance between two addresses. */
  function Span(a: nat, b: nat): (n: nat)
    requires Aligned(a) && Aligned(b) && PageOf(a) <= PageOf(b)
    ensures n == PageOf(b) - PageOf(a)
  {
    PageDistance(a, b);
    (b - a) / PAGE_SIZE
  }

  lemma PageSteps(a: nat, n: nat)
    requires Aligned(a)
    ensures Aligned(a + n * PAGE_SIZE) && PageOf(a + n * PAGE_SIZE) == PageOf(a) + n
  {
  }

  /** PAGE_FLOOR of `begin` and PAGE_ROUNDUP of `end`. */
  lemma PageBounds(begin: nat, end: nat)
    requires begin < end
    ensures Aligned(PageOf(begin) * PAGE_SIZE) && PageOf(PageOf(begin) * PAGE_SIZE) == PageOf(begin)
    ensures Aligned(PageCount(end) * PAGE_SIZE) && PageOf(PageCount(end) * PAGE_SIZE) == PageCount(end)
    ensures PageOf(begin) < PageCount(end)
    ensures PageOf(begin) * PAGE_SIZE <= begin && end <= PageCount(end) * PAGE_SIZE
  {
  }

  /** No extent is empty, they are in address order, and no two overlap. */
  ghost predicate Tidy(s: seq<Extent>) {
    && (forall k :: 0 <= k < |s| ==> s[k].size > 0)
    && (forall i, j :: 0 <= i < j < |s| ==> s[i].End() <= s[j].first)
  }

  ghost predicate Holds(e: Extent, page: nat) {
    e.first <= page < e.End()
  }

  ghost predicate Covers(s: seq<Extent>, page: nat) {
    exists k :: 0 <= k < |s| && Holds(s[k], page)
  }

  /** No extent meets the pages from `begin` up to `end`. */
  ghost predicate Clear(s: seq<Extent>, begin: nat, end: nat) {
    forall k :: 0 <= k < |s| ==> s[k].End() <= begin || end <= s[k].first
  }

  // ---------- One call ----------

  function Lead(e: Extent, begin: nat): seq<Extent>
    requires e.first <= begin
  {
    if begin == e.first then [] else [Extent(e.first, begin - e.first, false)]
  }

  function Trail(e: Extent, end: nat): seq<Extent>
    requires end <= e.End()
  {
    if end == e.End() then [] else [Extent(end, e.End() - end, false)]
  }

  function Replace(s: seq<Extent>, i: nat, pieces: seq<Extent>): seq<Extent>
    requires i < |s|
  {
    s[..i] + pieces + s[i + 1..]
  }

  /** `begin`..`end` taken out of `e` for use. */
  function Taken(e: Extent, begin: nat, end: nat): seq<Extent>
    requires e.first <= begin < end <= e.End()
  {
    Lead(e, begin) + [Extent(begin, end - begin, true)] + Trail(e, end)
  }

  /** `e` cut at `begin` and left free: what a claim leaves when its second index cannot be had. */
  function Cut(e: Extent, begin: nat): seq<Extent>
    requires e.first <= begin < e.End()
  {
    Lead(e, begin) + [Extent(begin, e.End() - begin, false)]
  }

  /** vm_claim_range on the extent at `i`, with its two exhausted-pool exits. */
  ghost predicate Claims(s: seq<Extent>, i: nat, begin: nat, end: nat, r: Outcome, t: seq<Extent>) {
    && i < |s| && !s[i].inUse && s[i].first <= begin < end <= s[i].End()
    && match r
       case Ok(v) => v == begin && t == Replace(s, i, Taken(s[i], begin, end))
       case Err(e) => e == Exhausted && (t == s || t == Replace(s, i, Cut(s[i], begin)))
  }

  datatype Call =
    | InsertRange(begin: nat, end: nat)
    | AllocAddress(pages: nat, high: bool)
    | AllocRange(begin: nat, end: nat)
    | FreeAddress(vaddr: nat)

  /** What the allocator asks of its callers. */
  ghost predicate Legal(s: seq<Extent>, c: Call) {
    match c
    case InsertRange(begin, end) =>
      Aligned(begin) && begin < end && Clear(s, PageOf(begin), PageOf(begin) + PageCount(end - begin))
    case AllocAddress(pages, _) => pages > 0
    case AllocRange(begin, end) => begin < end
    case FreeAddress(vaddr) => forall k :: 0 <= k < |s| && Holds(s[k], PageOf(vaddr)) ==> s[k].inUse
  }

  ghost predicate Fits(s: seq<Extent>, i: nat, pages: nat) {
    i < |s| && !s[i].inUse && pages <= s[i].size
  }

  lemma StartPages(e: Extent, base: nat, pages: nat, high: bool, start: nat, end: nat)
    requires Aligned(base) && PageOf(base) == e.first && pages <= e.size
    requires start == if high then base + (e.size - pages) * PAGE_SIZE else base
    requires end == start + pages * PAGE_SIZE
    ensures Aligned(start) && Aligned(end)
    ensures PageOf(start) == Start(e, pages, high) && PageOf(end) == Start(e, pages, high) + pages
  {
    PageSteps(base, e.size - pages);
    PageSteps(start, pages);
  }

  /** No free extent that is large enough is smaller than the one at `i`. */
  ghost predicate Smallest(s: seq<Extent>, i: nat, pages: nat) {
    i < |s| && forall j: nat :: Fits(s, j, pages) ==> s[i].size <= s[j].size
  }

  /** No free extent is larger than the one at `i`. */
  ghost predicate Largest(s: seq<Extent>, i: nat) {
    i < |s| && forall j :: 0 <= j < |s| && !s[j].inUse ==> s[j].size <= s[i].size
  }

  /** Neither an allocation from the high end nor a claim of a range. */
  predicate Gentle(c: Call) {
    !c.AllocRange? && (c.AllocAddress? ==> !c.high)
  }

  /** A successful allocation is made at the front of a smallest free extent that will do. */
  ghost predicate Best(s: seq<Extent>, c: Call, r: Outcome) {
    c.AllocAddress? && r.Ok? ==>
      exists i: nat :: Fits(s, i, c.pages) && Smallest(s, i, c.pages) && r.page == s[i].first
  }

  /** An allocation of part of a free extent is a claim of one end of it, and takes one new index. */
  lemma PartClaimed(s: seq<Extent>, i: nat, pages: nat, high: bool, begin: nat, end: nat, r: Outcome, t: seq<Extent>)
    requires i < |s| && !s[i].inUse && 0 < pages < s[i].size
    requires begin == Start(s[i], pages, high) && end == begin + pages && RangeAt(s, i, begin, end, r, t)
    ensures AllocAt(s, i, pages, high, r, t) && end <= s[i].End() && Pieces(s[i], begin, end) == 1
  {
  }

  /** How many new indexes it takes to cut `begin`..`end` out of `e`. */
  function Pieces(e: Extent, begin: nat, end: nat): nat {
    (if begin == e.first then 0 else 1) + (if end == e.End() then 0 else 1)
  }

  /** Where an allocation of `pages` starts inside `e`. */
  function Start(e: Extent, pages: nat, high: bool): nat
    requires pages <= e.size
  {
    if high then e.End() - pages else e.first
  }

  /** `t` is `s` with `e` put in at `p`, where the order of the first pages wants it. */
  ghost predicate Inserted(s: seq<Extent>, p: nat, e: Extent, t: seq<Extent>) {
    && p <= |s| && t == Put(s, p, e)
    && (p > 0 ==> s[p - 1].first <= e.first)
    && (p < |s| ==> e.first < s[p].first)
  }

  ghost predicate Gains(s: seq<Extent>, e: Extent, t: seq<Extent>) {
    exists p :: Inserted(s, p, e, t)
  }

  ghost predicate InsertStep(s: seq<Extent>, begin: nat, end: nat, r: Outcome, t: seq<Extent>)
    requires begin < end
  {
    || (r == Err(Exhausted) && t == s)
    || (r.Ok? && Gains(s, Extent(PageOf(begin), PageCount(end - begin), false), t))
  }

  ghost predicate AllocAt(s: seq<Extent>, i: nat, pages: nat, high: bool, r: Outcome, t: seq<Extent>) {
    && Fits(s, i, pages)
    && var start := Start(s[i], pages, high); Claims(s, i, start, start + pages, r, t)
  }

  ghost predicate AllocStep(s: seq<Extent>, pages: nat, high: bool, r: Outcome, t: seq<Extent>) {
    || (r == Err(NotImplemented) && t == s && forall i: nat :: !Fits(s, i, pages))
    || exists i: nat :: AllocAt(s, i, pages, high, r, t)
  }

  ghost predicate RangeAt(s: seq<Extent>, i: nat, b: nat, e: nat, r: Outcome, t: seq<Extent>) {
    && i < |s| && Holds(s[i], b)
    && if s[i].inUse then r == Err(NotFree) && t == s
       else if s[i].End() < e then r == Err(NotImplemented) && t == s
       else Claims(s, i, b, e, r, t)
  }

  ghost predicate RangeStep(s: seq<Extent>, b: nat, e: nat, r: Outcome, t: seq<Extent>) {
    || (r == Err(NotFound) && t == s && !Covers(s, b))
    || exists i: nat :: RangeAt(s, i, b, e, r, t)
  }

  /**
    A claim that its extent has room for fails exactly for want of the indexes it takes; with one of
    two it leaves the extent cut where it would have begun.
   */
  ghost predicate Supplied(s: seq<Extent>, b: nat, e: nat, room: nat, r: Outcome, t: seq<Extent>) {
    forall i :: 0 <= i < |s| && Holds(s[i], b) && !s[i].inUse && e <= s[i].End() ==>
      && (r.Ok? <==> room >= Pieces(s[i], b, e)) && (!r.Ok? <==> r == Err(Exhausted))
      && (!r.Ok? ==> t == if room == 0 then s else Replace(s, i, Cut(s[i], b)))
  }

  ghost predicate FreeAt(s: seq<Extent>, i: nat, page: nat, t: seq<Extent>) {
    i < |s| && Holds(s[i], page) && t == s[i := s[i].(inUse := false)]
  }

  ghost predicate FreeStep(s: seq<Extent>, page: nat, r: Outcome, t: seq<Extent>) {
    || (r == Err(NotFound) && t == s && !Covers(s, page))
    || (r.Ok? && exists i: nat :: FreeAt(s, i, page, t))
  }

  /** `c` may answer `r` and lead from `s` to `t`. */
  ghost predicate Step(s: seq<Extent>, c: Call, r: Outcome, t: seq<Extent>)
    requires Legal(s, c)
  {
    match c
    case InsertRange(begin, end) => InsertStep(s, begin, end, r, t)
    case AllocAddress(pages, high) => AllocStep(s, pages, high, r, t)
    case AllocRange(begin, end) => RangeStep(s, PageOf(begin), PageCount(end), r, t)
    case FreeAddress(vaddr) => FreeStep(s, PageOf(vaddr), r, t)
  }

  // ---------- What one call keeps ----------

  /** The pieces follow one another without a gap from `b` up to `e`. */
  ghost predicate Tiles(s: seq<Extent>, b: nat, e: nat) {
    && Tidy(s) && |s| > 0 && s[0].first == b && s[|s| - 1].End() == e
    && (forall k :: 0 <= k < |s| - 1 ==> s[k].End() == s[k + 1].first)
  }

  lemma CoversConcat(s: seq<Extent>, t: seq<Extent>, a: nat)
    ensures Covers(s + t, a) <==> Covers(s, a) || Covers(t, a)
  {
    if Covers(s, a) {
      var k :| 0 <= k < |s| && Holds(s[k], a);
      assert Holds((s + t)[k], a);
    }
    if Covers(t, a) {
      var k :| 0 <= k < |t| && Holds(t[k], a);
      assert Holds((s + t)[|s| + k], a);
    }
  }

  lemma {:induction false} TilesCover(s: seq<Extent>, b: nat, e: nat, a: nat)
    requires Tiles(s, b, e)
    ensures Covers(s, a) <==> b <= a < e
  {
    if |s| == 1 {
      assert Covers(s, a) <==> Holds(s[0], a);
    } else {
      var l := s[..|s| - 1];
      var x := s[|s| - 1];
      assert Tiles(l, b, x.first);
      TilesCover(l, b, x.first, a);
      CoversConcat(l, [x], a);
      assert s == l + [x];
      assert Covers([x], a) <==> Holds([x][0], a);
      assert l[0].End() <= x.first;
    }
  }

  lemma TilesWithin(s: seq<Extent>, b: nat, e: nat, k: nat)
    requires Tiles(s, b, e) && k < |s|
    ensures b <= s[k].first && s[k].End() <= e
  {
    if k > 0 {
      assert s[0].End() <= s[k].first;
    }
    if k < |s| - 1 {
      assert s[k].End() <= s[|s| - 1].first;
    }
  }

  lemma ReplaceTidy(s: seq<Extent>, i: nat, pieces: seq<Extent>)
    requires Tidy(s) && i < |s| && Tiles(pieces, s[i].first, s[i].End())
    ensures Tidy(Replace(s, i, pieces))
  {
    var t := Replace(s, i, pieces);
    var n := |pieces|;
    assert forall k :: 0 <= k < i ==> t[k] == s[k];
    assert forall k :: i <= k < i + n ==> t[k] == pieces[k - i];
    assert forall k :: i + n <= k < |t| ==> t[k] == s[k - n + 1];
    forall j, k | 0 <= j < k < |t| ensures t[j].End() <= t[k].first {
      if i <= j < i + n {
        TilesWithin(pieces, s[i].first, s[i].End(), j - i);
      }
      if i <= k < i + n {
        TilesWithin(pieces, s[i].first, s[i].End(), k - i);
      }
    }
  }

  lemma ReplaceCovers(s: seq<Extent>, i: nat, pieces: seq<Extent>, a: nat)
    requires Tidy(s) && i < |s| && Tiles(pieces, s[i].first, s[i].End())
    ensures Covers(Replace(s, i, pieces), a) <==> Covers(s, a)
  {
    TilesCover(pieces, s[i].first, s[i].End(), a);
    TilesCover([s[i]], s[i].first, s[i].End(), a);
    CoversConcat(s[..i] + pieces, s[i + 1..], a);
    CoversConcat(s[..i], pieces, a);
    CoversConcat(s[..i] + [s[i]], s[i + 1..], a);
    CoversConcat(s[..i], [s[i]], a);
    assert s == s[..i] + [s[i]] + s[i + 1..];
  }

  /** Both ways of splitting an extent tile it. */
  lemma TakenTiles(e: Extent, begin: nat, end: nat)
    requires e.first <= begin < end <= e.End()
    ensures Tiles(Taken(e, begin, end), e.first, e.End())
  {
  }

  lemma CutTiles(e: Extent, begin: nat)
    requires e.first <= begin < e.End()
    ensures Tiles(Cut(e, begin), e.first, e.End())
  {
  }

  /** Everything before the place of `e` ends before it, everything after starts after it. */
  lemma InsertSides(s: seq<Extent>, p: nat, e: Extent, k: nat)
    requires Tidy(s) && e.size > 0 && p <= |s| && k < |s| && Clear(s, e.first, e.End())
    requires (p > 0 ==> s[p - 1].first <= e.first) && (p < |s| ==> e.first < s[p].first)
    ensures if k < p then s[k].End() <= e.first else e.End() <= s[k].first
  {
    assert s[k].size > 0;
    if k < p - 1 {
      assert s[k].End() <= s[p - 1].first;
    }
    if p < k {
      assert s[p].End() <= s[k].first;
    }
  }

  lemma InsertTidy(s: seq<Extent>, p: nat, e: Extent, t: seq<Extent>)
    requires Tidy(s) && e.size > 0 && Inserted(s, p, e, t) && Clear(s, e.first, e.End())
    ensures Tidy(t)
  {
    forall i, j | 0 <= i < j < |t| ensures t[i].End() <= t[j].first {
      InsertPair(s, p, e, t, i, j);
    }
  }

  lemma InsertPair(s: seq<Extent>, p: nat, e: Extent, t: seq<Extent>, i: nat, j: nat)
    requires Tidy(s) && e.size > 0 && Inserted(s, p, e, t) && Clear(s, e.first, e.End()) && i < j < |t|
    ensures t[i].End() <= t[j].first
  {
    if i == p {
      assert t[j] == s[j - 1];
      InsertSides(s, p, e, j - 1);
    } else if j == p {
      assert t[i] == s[i];
      InsertSides(s, p, e, i);
    } else {
      assert t[i] == s[if i < p then i else i - 1];
      assert t[j] == s[if j < p then j else j - 1];
    }
  }

  lemma TidyClear(s: seq<Extent>, p: nat, e: Extent, t: seq<Extent>)
    requires Inserted(s, p, e, t) && Tidy(t)
    ensures Clear(s, e.first, e.End())
  {
    forall k | 0 <= k < |s| ensures s[k].End() <= e.first || e.End() <= s[k].first {
      assert t[p] == e;
      assert s[k] == if k < p then t[k] else t[k + 1];
    }
  }

  lemma InsertCovers(s: seq<Extent>, p: nat, e: Extent, t: seq<Extent>, a: nat)
    requires Inserted(s, p, e, t)
    ensures Covers(t, a) <==> Covers(s, a) || Holds(e, a)
  {
    CoversConcat(s[..p] + [e], s[p..], a);
    CoversConcat(s[..p], [e], a);
    CoversConcat(s[..p], s[p..], a);
    assert s == s[..p] + s[p..];
    assert Covers([e], a) <==> Holds([e][0], a);
  }

  /**
    Inserting a range keeps the extents apart exactly when it is clear of them, and adds
    exactly its pages.
   */
  lemma InsertKeeps(s: seq<Extent>, p: nat, e: Extent, t: seq<Extent>)
    requires Tidy(s) && e.size > 0 && Inserted(s, p, e, t)
    ensures Tidy(t) <==> Clear(s, e.first, e.End())
    ensures forall a: nat :: Covers(t, a) <==> Covers(s, a) || Holds(e, a)
  {
    if Clear(s, e.first, e.End()) {
      InsertTidy(s, p, e, t);
    }
    if Tidy(t) {
      TidyClear(s, p, e, t);
    }
    forall a: nat ensures Covers(t, a) <==> Covers(s, a) || Holds(e, a) {
      InsertCovers(s, p, e, t, a);
    }
  }

  lemma ClaimKeeps(s: seq<Extent>, i: nat, begin: nat, end: nat, r: Outcome, t: seq<Extent>)
    requires Tidy(s) && Claims(s, i, begin, end, r, t)
    ensures Tidy(t)
    ensures forall a: nat :: Covers(t, a) <==> Covers(s, a)
  {
    if t != s {
      var pieces := if r.Ok? then Taken(s[i], begin, end) else Cut(s[i], begin);
      TakenTiles(s[i], begin, end);
      CutTiles(s[i], begin);
      ReplaceTidy(s, i, pieces);
      forall a: nat ensures Covers(t, a) <==> Covers(s, a) {
        ReplaceCovers(s, i, pieces, a);
      }
    }
  }

  lemma FreeKeeps(s: seq<Extent>, i: nat, page: nat, t: seq<Extent>)
    requires Tidy(s) && FreeAt(s, i, page, t)
    ensures Tidy(t)
    ensures forall a: nat :: Covers(t, a) <==> Covers(s, a)
  {
    forall a: nat ensures Covers(t, a) <==> Covers(s, a) {
      assert forall k :: 0 <= k < |s| ==> (Holds(t[k], a) <==> Holds(s[k], a));
    }
  }

  // ---------- Runs ----------

  ghost predicate Adds(c: Call, r: Outcome, page: nat) {
    && c.InsertRange? && r.Ok? && c.begin < c.end
    && PageOf(c.begin) <= page < PageOf(c.begin) + PageCount(c.end - c.begin)
  }

  lemma InsertStepKeeps(s: seq<Extent>, c: Call, r: Outcome, t: seq<Extent>)
    requires Tidy(s) && Legal(s, c) && Step(s, c, r, t) && c.InsertRange?
    ensures Tidy(t)
    ensures forall a: nat :: Covers(t, a) <==> Covers(s, a) || Adds(c, r, a)
  {
    if r.Ok? {
      var e := Extent(PageOf(c.begin), PageCount(c.end - c.begin), false);
      var p :| Inserted(s, p, e, t);
      InsertKeeps(s, p, e, t);
      assert forall a: nat :: Holds(e, a) <==> Adds(c, r, a);
    }
  }

  /** An allocation that finds space is a claim. */
  lemma AllocClaims(s: seq<Extent>, pages: nat, high: bool, r: Outcome, t: seq<Extent>) returns (i: nat, start: nat)
    requires AllocStep(s, pages, high, r, t) && !(r == Err(NotImplemented) && t == s)
    ensures Claims(s, i, start, start + pages, r, t)
  {
    i :| AllocAt(s, i, pages, high, r, t);
    start := Start(s[i], pages, high);
  }

  lemma SuppliedAt(s: seq<Extent>, k: nat, b: nat, e: nat, room: nat, r: Outcome, t: seq<Extent>)
    requires Tidy(s) && RangeAt(s, k, b, e, r, t)
    requires !s[k].inUse && e <= s[k].End() ==> (r.Ok? <==> room >= Pieces(s[k], b, e))
    requires !s[k].inUse && e <= s[k].End() && !r.Ok? ==> t == if room == 0 then s else Replace(s, k, Cut(s[k], b))
    ensures Supplied(s, b, e, room, r, t)
  {
    assert forall i :: 0 <= i < |s| && Holds(s[i], b) ==> i == k;
  }

  /** One call keeps the extents tidy and covers exactly what it covered, plus what it inserts. */
  lemma StepKeeps(s: seq<Extent>, c: Call, r: Outcome, t: seq<Extent>)
    requires Tidy(s) && Legal(s, c) && Step(s, c, r, t)
    ensures Tidy(t)
    ensures forall a: nat :: Covers(t, a) <==> Covers(s, a) || Adds(c, r, a)
  {
    if c.InsertRange? {
      InsertStepKeeps(s, c, r, t);
    } else if t != s {
      match c
      case AllocAddress(pages, high) =>
        var i, start := AllocClaims(s, pages, high, r, t);
        ClaimKeeps(s, i, start, start + pages, r, t);
      case AllocRange(begin, end) =>
        var i: nat :| RangeAt(s, i, PageOf(begin), PageCount(end), r, t);
        ClaimKeeps(s, i, PageOf(begin), PageCount(end), r, t);
      case FreeAddress(vaddr) =>
        var i: nat :| FreeAt(s, i, PageOf(vaddr), t);
        FreeKeeps(s, i, PageOf(vaddr), t);
    }
  }

  datatype Event = Event(call: Call, outcome: Outcome)

  /** `states` is a run of legal calls that starts from an empty address space. */
  ghost predicate Run(states: seq<seq<Extent>>, events: seq<Event>) {
    && |states| == |events| + 1 && states[0] == []
    && forall k :: 0 <= k < |events| ==>
         && Legal(states[k], events[k].call)
         && Step(states[k], events[k].call, events[k].outcome, states[k + 1])
  }

  lemma RunNext(states: seq<seq<Extent>>, events: seq<Event>, event: Event, t: seq<Extent>)
    requires Run(states, events)
    requires var s := states[|events|]; Legal(s, event.call) && Step(s, event.call, event.outcome, t)
    ensures Run(states + [t], events + [event])
  {
  }

  ghost predicate EverAdded(events: seq<Event>, page: nat) {
    exists k :: 0 <= k < |events| && Adds(events[k].call, events[k].outcome, page)
  }

  lemma EverAddedSnoc(events: seq<Event>, e: Event, a: nat)
    ensures EverAdded(events + [e], a) <==> EverAdded(events, a) || Adds(e.call, e.outcome, a)
  {
    var all := events + [e];
    if EverAdded(events, a) {
      var k :| 0 <= k < |events| && Adds(events[k].call, events[k].outcome, a);
      assert Adds(all[k].call, all[k].outcome, a);
    }
    assert all[|events|] == e;
  }

  /** Over every run the extents tile exactly the ranges inserted so far. */
  lemma {:induction false} RunTiles(states: seq<seq<Extent>>, events: seq<Event>)
    requires Run(states, events)
    ensures Tidy(states[|events|])
    ensures forall a: nat :: Covers(states[|events|], a) <==> EverAdded(events, a)
  {
    var n := |events|;
    if n > 0 {
      var before, e := events[..n - 1], events[n - 1];
      RunPrefix(states, events);
      RunTiles(states[..n], before);
      StepKeeps(states[n - 1], e.call, e.outcome, states[n]);
      forall a: nat ensures EverAdded(events, a) <==> EverAdded(before, a) || Adds(e.call, e.outcome, a) {
        EverAddedSnoc(before, e, a);
      }
    }
  }

  /** A run without its last call is a run. */
  lemma RunPrefix(states: seq<seq<Extent>>, events: seq<Event>)
    requires Run(states, events) && events != []
    ensures var n := |events|;
            && Run(states[..n], events[..n - 1]) && events == events[..n - 1] + [events[n - 1]]
            && states[..n][n - 1] == states[n - 1] && Legal(states[n - 1], events[n - 1].call)
            && Step(states[n - 1], events[n - 1].call, events[n - 1].outcome, states[n])
  {
  }

  lemma ReplaceOthers(s: seq<Extent>, i: nat, pieces: seq<Extent>, k: nat)
    requires i < |s| && k < |s| && k != i
    ensures s[k] in Replace(s, i, pieces)
  {
    var t := Replace(s, i, pieces);
    assert s[k] == t[if k < i then k else k - 1 + |pieces|];
  }

  lemma ClaimOthers(s: seq<Extent>, i: nat, begin: nat, end: nat, r: Outcome, t: seq<Extent>, e: Extent)
    requires Claims(s, i, begin, end, r, t) && e in s && e.inUse
    ensures e in t
  {
    var k :| 0 <= k < |s| && s[k] == e;
    ReplaceOthers(s, i, Cut(s[i], begin), k);
    ReplaceOthers(s, i, Taken(s[i], begin, end), k);
  }

  lemma InsertOthers(s: seq<Extent>, p: nat, x: Extent, t: seq<Extent>, e: Extent)
    requires Inserted(s, p, x, t) && e in s
    ensures e in t
  {
    var k :| 0 <= k < |s| && s[k] == e;
    assert s[k] == t[if k < p then k else k + 1];
  }

  lemma FreeOthers(s: seq<Extent>, i: nat, page: nat, t: seq<Extent>, e: Extent)
    requires FreeAt(s, i, page, t) && e in s && !Holds(e, page)
    ensures e in t
  {
    var k :| 0 <= k < |s| && s[k] == e;
    assert t[k] == e;
  }

  lemma InsertStays(s: seq<Extent>, x: Extent, t: seq<Extent>, e: Extent)
    requires Gains(s, x, t) && e in s
    ensures e in t
  {
    var p :| Inserted(s, p, x, t);
    InsertOthers(s, p, x, t, e);
  }

  lemma AllocStays(s: seq<Extent>, pages: nat, high: bool, r: Outcome, t: seq<Extent>, e: Extent)
    requires AllocStep(s, pages, high, r, t) && e in s && e.inUse
    ensures e in t
  {
    if t != s {
      var i, start := AllocClaims(s, pages, high, r, t);
      ClaimOthers(s, i, start, start + pages, r, t, e);
    }
  }

  lemma FreeStays(s: seq<Extent>, page: nat, r: Outcome, t: seq<Extent>, e: Extent)
    requires FreeStep(s, page, r, t) && e in s && !Holds(e, page)
    ensures e in t
  {
    if t != s {
      var i: nat :| FreeAt(s, i, page, t);
      FreeOthers(s, i, page, t, e);
    }
  }

  lemma RangeStays(s: seq<Extent>, b: nat, end: nat, r: Outcome, t: seq<Extent>, e: Extent)
    requires RangeStep(s, b, end, r, t) && e in s && e.inUse
    ensures e in t
  {
    if t != s {
      var i: nat :| RangeAt(s, i, b, end, r, t);
      ClaimOthers(s, i, b, end, r, t, e);
    }
  }

  /** An allocation stays exactly as it was made until the call that frees it. */
  lemma LiveStays(s: seq<Extent>, c: Call, r: Outcome, t: seq<Extent>, e: Extent)
    requires Legal(s, c) && Step(s, c, r, t) && e in s && e.inUse
    requires !(c.FreeAddress? && Holds(e, PageOf(c.vaddr)))
    ensures e in t
  {
    if t != s {
      match c
      case InsertRange(begin, end) => InsertStays(s, Extent(PageOf(begin), PageCount(end - begin), false), t, e);
      case AllocAddress(pages, high) => AllocStays(s, pages, high, r, t, e);
      case AllocRange(begin, end) => RangeStays(s, PageOf(begin), PageCount(end), r, t, e);
      case FreeAddress(vaddr) => FreeStays(s, PageOf(vaddr), r, t, e);
    }
  }

  /**
    A successful allocation is made of pages no live allocation holds, and is in use after
    the call; it succeeds or runs out of indexes exactly when one free extent is large enough.
   */
  lemma AllocFresh(s: seq<Extent>, pages: nat, high: bool, r: Outcome, t: seq<Extent>)
    requires Tidy(s) && pages > 0 && AllocStep(s, pages, high, r, t)
    ensures r.Ok? || r == Err(Exhausted) <==> exists i: nat :: Fits(s, i, pages)
    ensures r.Ok? ==> Extent(r.page, pages, true) in t
    ensures r.Ok? ==> forall e :: e in s && e.inUse ==> e.End() <= r.page || r.page + pages <= e.first
  {
    if r.Ok? {
      var i: nat :| AllocAt(s, i, pages, high, r, t);
      var start := Start(s[i], pages, high);
      var taken := Taken(s[i], start, start + pages);
      assert taken[|Lead(s[i], start)|] == Extent(start, pages, true);
      assert t[i + |Lead(s[i], start)|] == Extent(start, pages, true);
      forall e | e in s && e.inUse ensures e.End() <= r.page || r.page + pages <= e.first {
        var k :| 0 <= k < |s| && s[k] == e;
        assert k != i;
      }
    }
  }

  // ---------- What is in use, told from the calls ----------

  /** The call frees an address of `e`. */
  ghost predicate Frees(c: Call, e: Extent) {
    c.FreeAddress? && Holds(e, PageOf(c.vaddr))
  }

  /** What a call that answers `r` gives its caller to use. */
  ghost predicate Grants(c: Call, r: Outcome, e: Extent) {
    && r.Ok?
    && match c
       case AllocAddress(pages, _) => e == Extent(r.page, pages, true)
       case AllocRange(begin, end) => begin < end && e == Extent(PageOf(begin), PageCount(end) - PageOf(begin), true)
       case _ => false
  }

  ghost predicate InUse(s: seq<Extent>, e: Extent) {
    e in s && e.inUse
  }

  lemma ReplaceUsed(s: seq<Extent>, i: nat, pieces: seq<Extent>, e: Extent)
    requires i < |s| && !s[i].inUse
    ensures InUse(Replace(s, i, pieces), e) <==> InUse(s, e) || InUse(pieces, e)
  {
    var t := Replace(s, i, pieces);
    assert forall x :: x in t <==> x in s[..i] || x in pieces || x in s[i + 1..];
    assert s == s[..i] + [s[i]] + s[i + 1..];
  }

  lemma ClaimUsed(s: seq<Extent>, i: nat, begin: nat, end: nat, r: Outcome, t: seq<Extent>, e: Extent)
    requires Claims(s, i, begin, end, r, t)
    ensures InUse(t, e) <==> InUse(s, e) || (r.Ok? && e == Extent(begin, end - begin, true))
    ensures r.Ok? ==> r.page == begin
  {
    ReplaceUsed(s, i, Cut(s[i], begin), e);
    ReplaceUsed(s, i, Taken(s[i], begin, end), e);
    assert Taken(s[i], begin, end)[|Lead(s[i], begin)|] == Extent(begin, end - begin, true);
  }

  lemma InsertUsed(s: seq<Extent>, x: Extent, t: seq<Extent>, e: Extent)
    requires Gains(s, x, t) && !x.inUse
    ensures InUse(t, e) <==> InUse(s, e)
  {
    var p: nat :| Inserted(s, p, x, t);
    assert s == s[..p] + s[p..];
  }

  lemma FreeUsed(s: seq<Extent>, i: nat, page: nat, t: seq<Extent>, e: Extent)
    requires Tidy(s) && FreeAt(s, i, page, t)
    ensures InUse(t, e) <==> InUse(s, e) && !Holds(e, page)
  {
    if InUse(t, e) {
      var k :| 0 <= k < |t| && t[k] == e;
      assert k != i && s[k] == e;
    }
    if InUse(s, e) && !Holds(e, page) {
      FreeOthers(s, i, page, t, e);
    }
  }

  /** One call puts in use exactly what it grants, and out of use exactly what it frees. */
  lemma StepUsed(s: seq<Extent>, c: Call, r: Outcome, t: seq<Extent>, e: Extent)
    requires Tidy(s) && Legal(s, c) && Step(s, c, r, t)
    ensures InUse(t, e) <==> Grants(c, r, e) || (InUse(s, e) && !Frees(c, e))
  {
    match c
    case InsertRange(begin, end) =>
      if r.Ok? {
        InsertUsed(s, Extent(PageOf(begin), PageCount(end - begin), false), t, e);
      }
    case AllocAddress(pages, high) => AllocUsed(s, pages, high, r, t, e);
    case AllocRange(begin, end) =>
      PageBounds(begin, end);
      RangeUsed(s, PageOf(begin), PageCount(end), r, t, e);
    case FreeAddress(vaddr) => FreeStepUsed(s, PageOf(vaddr), r, t, e);
  }

  lemma AllocUsed(s: seq<Extent>, pages: nat, high: bool, r: Outcome, t: seq<Extent>, e: Extent)
    requires AllocStep(s, pages, high, r, t)
    ensures InUse(t, e) <==> InUse(s, e) || (r.Ok? && e == Extent(r.page, pages, true))
  {
    if r != Err(NotImplemented) {
      var i, start := AllocClaims(s, pages, high, r, t);
      ClaimUsed(s, i, start, start + pages, r, t, e);
    }
  }

  lemma FreeStepUsed(s: seq<Extent>, page: nat, r: Outcome, t: seq<Extent>, e: Extent)
    requires Tidy(s) && FreeStep(s, page, r, t)
    ensures InUse(t, e) <==> InUse(s, e) && !Holds(e, page)
  {
    if r.Ok? {
      var i: nat :| FreeAt(s, i, page, t);
      FreeUsed(s, i, page, t, e);
    }
  }

  lemma RangeUsed(s: seq<Extent>, begin: nat, end: nat, r: Outcome, t: seq<Extent>, e: Extent)
    requires RangeStep(s, begin, end, r, t) && begin < end
    ensures InUse(t, e) <==> InUse(s, e) || (r.Ok? && e == Extent(begin, end - begin, true))
  {
    if r != Err(NotFound) {
      var i: nat :| RangeAt(s, i, begin, end, r, t);
      if !s[i].inUse && end <= s[i].End() {
        ClaimUsed(s, i, begin, end, r, t, e);
      }
    }
  }

  /** Granted by the k-th call, and no address of it freed since. */
  ghost predicate GrantedAt(events: seq<Event>, k: nat, e: Extent) {
    && k < |events| && Grants(events[k].call, events[k].outcome, e)
    && forall j :: k < j < |events| ==> !Frees(events[j].call, e)
  }

  ghost predicate Outstanding(events: seq<Event>, e: Extent) {
    exists k :: GrantedAt(events, k, e)
  }

  lemma OutstandingSnoc(events: seq<Event>, x: Event, e: Extent)
    ensures Outstanding(events + [x], e) <==>
            Grants(x.call, x.outcome, e) || (Outstanding(events, e) && !Frees(x.call, e))
  {
    var all, n := events + [x], |events|;
    assert all[n] == x;
    if Grants(x.call, x.outcome, e) {
      assert GrantedAt(all, n, e);
    } else if Outstanding(events, e) && !Frees(x.call, e) {
      var k: nat :| GrantedAt(events, k, e);
      assert GrantedAt(all, k, e);
    }
    if Outstanding(all, e) {
      var k: nat :| GrantedAt(all, k, e);
      forall j | k < j < n ensures !Frees(events[j].call, e) {
        assert all[j] == events[j];
      }
      assert k < n ==> GrantedAt(events, k, e);
    }
  }

  /** Over every run what is in use is exactly what was granted and not freed since, in the very extents granted. */
  lemma {:induction false} RunUses(states: seq<seq<Extent>>, events: seq<Event>, e: Extent)
    requires Run(states, events)
    ensures InUse(states[|events|], e) <==> Outstanding(events, e)
  {
    var n := |events|;
    if n > 0 {
      var before, x := events[..n - 1], events[n - 1];
      RunPrefix(states, events);
      RunTiles(states[..n], before);
      RunUses(states[..n], before, e);
      StepUsed(states[n - 1], x.call, x.outcome, states[n], e);
      OutstandingSnoc(before, x, e);
    }
  }

  /** What the callers must keep to, told from the calls made and their answers. */
  ghost predicate Proper(events: seq<Event>, c: Call) {
    match c
    case InsertRange(begin, end) =>
      && Aligned(begin) && begin < end
      && forall a: nat :: PageOf(begin) <= a < PageOf(begin) + PageCount(end - begin) ==> !EverAdded(events, a)
    case AllocAddress(pages, _) => pages > 0
    case AllocRange(begin, end) => begin < end
    case FreeAddress(vaddr) => EverAdded(events, PageOf(vaddr)) ==> Owned(events, PageOf(vaddr))
  }

  ghost predicate Owned(events: seq<Event>, page: nat) {
    exists e :: Outstanding(events, e) && Holds(e, page)
  }

  lemma ClearMeans(s: seq<Extent>, begin: nat, end: nat)
    requires Tidy(s) && begin < end
    ensures Clear(s, begin, end) <==> forall a: nat :: begin <= a < end ==> !Covers(s, a)
  {
    if !Clear(s, begin, end) {
      var k :| 0 <= k < |s| && !(s[k].End() <= begin || end <= s[k].first);
      var a := if begin <= s[k].first then s[k].first else begin;
      assert Holds(s[k], a) && Covers(s, a);
    }
  }

  /** A call is legal if and only if a caller who remembers the calls and their answers would say so. */
  lemma LegalExact(states: seq<seq<Extent>>, events: seq<Event>, c: Call)
    requires Run(states, events)
    ensures Legal(states[|events|], c) <==> Proper(events, c)
  {
    var s := states[|events|];
    RunTiles(states, events);
    match c
    case InsertRange(begin, end) =>
      if begin < end {
        PageCountPositive(end - begin);
        ClearMeans(s, PageOf(begin), PageOf(begin) + PageCount(end - begin));
      }
    case FreeAddress(vaddr) => FreeExact(states, events, PageOf(vaddr));
    case _ =>
  }

  lemma PageCountPositive(n: nat)
    requires n > 0
    ensures PageCount(n) > 0
  {
  }

  lemma FreeExact(states: seq<seq<Extent>>, events: seq<Event>, page: nat)
    requires Run(states, events)
    ensures (forall k :: 0 <= k < |states[|events|]| && Holds(states[|events|][k], page) ==> states[|events|][k].inUse)
            <==> (EverAdded(events, page) ==> Owned(events, page))
  {
    var s := states[|events|];
    RunTiles(states, events);
    if Owned(events, page) {
      var e :| Outstanding(events, e) && Holds(e, page);
      RunUses(states, events, e);
      var i :| 0 <= i < |s| && s[i] == e;
      assert forall k :: 0 <= k < |s| && Holds(s[k], page) ==> k == i;
    }
    if k :| 0 <= k < |s| && Holds(s[k], page) && s[k].inUse {
      RunUses(states, events, s[k]);
      assert Owned(events, page);
    }
  }

  // ---------- In bytes ----------

  /** The byte lies in the page. */
  predicate InPage(b: nat, page: nat) {
    page * PAGE_SIZE <= b < (page + 1) * PAGE_SIZE
  }

  /** Some byte from `begin` up to `end` lies in the page. */
  ghost predicate Touches(begin: nat, end: nat, page: nat) {
    exists b: nat :: begin <= b < end && InPage(b, page)
  }

  lemma TouchesPages(begin: nat, end: nat, page: nat)
    requires begin < end
    ensures Touches(begin, end, page) <==> PageOf(begin) <= page < PageCount(end)
  {
    if PageOf(begin) <= page < PageCount(end) {
      var b := if begin <= page * PAGE_SIZE then page * PAGE_SIZE else begin;
      assert InPage(b, page);
    }
  }

  lemma CountFrom(begin: nat, end: nat)
    requires Aligned(begin) && begin < end
    ensures PageOf(begin) + PageCount(end - begin) == PageCount(end)
  {
    var q := begin / PAGE_SIZE;
    assert begin == q * PAGE_SIZE;
    CountShift(q, end - begin);
  }

  lemma CountShift(q: nat, n: nat)
    ensures (q * PAGE_SIZE + n + (PAGE_SIZE - 1)) / PAGE_SIZE == q + (n + (PAGE_SIZE - 1)) / PAGE_SIZE
  {
  }

  /** An accepted insert adds exactly the pages that its bytes lie in. */
  lemma AddsBytes(s: seq<Extent>, begin: nat, end: nat, r: Outcome, page: nat)
    requires Legal(s, InsertRange(begin, end))
    ensures Adds(InsertRange(begin, end), r, page) <==> r.Ok? && Touches(begin, end, page)
  {
    CountFrom(begin, end);
    TouchesPages(begin, end, page);
  }

  /** An accepted claim of a range grants exactly the pages that its bytes lie in. */
  lemma GrantsBytes(begin: nat, end: nat, r: Outcome, e: Extent, page: nat)
    requires Grants(AllocRange(begin, end), r, e)
    ensures Holds(e, page) <==> Touches(begin, end, page)
  {
    PageBounds(begin, end);
    TouchesPages(begin, end, page);
  }

  /** A call frees the extent that the address's byte lies in. */
  lemma FreesBytes(vaddr: nat, e: Extent)
    ensures Frees(FreeAddress(vaddr), e) <==> e.first * PAGE_SIZE <= vaddr < e.End() * PAGE_SIZE
  {
  }

  /** The k-th call was an accepted insert of a byte of the page. */
  ghost predicate InsertedAt(events: seq<Event>, k: nat, page: nat) {
    && k < |events| && events[k].call.InsertRange? && events[k].outcome.Ok?
    && Touches(events[k].call.begin, events[k].call.end, page)
  }

  /** Over every run the extents cover exactly the pages of the bytes inserted so far. */
  lemma RunTilesBytes(states: seq<seq<Extent>>, events: seq<Event>, page: nat)
    requires Run(states, events)
    ensures Covers(states[|events|], page) <==> exists k: nat :: InsertedAt(events, k, page)
  {
    RunTiles(states, events);
    forall k: nat | k < |events| ensures Adds(events[k].call, events[k].outcome, page) <==> InsertedAt(events, k, page) {
      if events[k].call.InsertRange? {
        AddsBytes(states[k], events[k].call.begin, events[k].call.end, events[k].outcome, page);
      }
    }
  }

  /** An allocation is made at the front of a free extent, or for the high end at its back. */
  lemma AllocPlaces(s: seq<Extent>, pages: nat, high: bool, r: Outcome, t: seq<Extent>)
    requires AllocStep(s, pages, high, r, t) && r.Ok?
    ensures exists e :: e in s && !e.inUse && pages <= e.size
                        && r.page == if high then e.first + e.size - pages else e.first
  {
    var i: nat :| AllocAt(s, i, pages, high, r, t);
    assert s[i] in s;
  }

  // ---------- Callers that choose each call from what they have seen ----------

  /** Every call is what `next` makes of the calls before it and their answers. */
  ghost predicate Followed(events: seq<Event>, next: seq<Event> -> Call) {
    forall k :: 0 <= k < |events| ==> events[k].call == next(events[..k])
  }

  /** In every run that follows `next` its first `n` calls are legal. */
  ghost predicate Obedient(next: seq<Event> -> Call, n: nat) {
    forall states, events ::
      Run(states, events) && |events| < n && Followed(events, next) ==> Legal(states[|events|], next(events))
  }

  /** A caller that keeps to what it has seen is always within the law. */
  lemma ProperObeys(next: seq<Event> -> Call, n: nat)
    requires forall events :: |events| < n && Followed(events, next) ==> Proper(events, next(events))
    ensures Obedient(next, n)
  {
    forall states, events | Run(states, events) && |events| < n && Followed(events, next)
      ensures Legal(states[|events|], next(events))
    {
      LegalExact(states, events, next(events));
    }
  }

  /** Inserts a range, allocates from it, and frees what it was given; and so on with the last two. */
  function Cycle(begin: nat, end: nat, pages: nat, high: bool, events: seq<Event>): Call {
    if events == [] then InsertRange(begin, end)
    else
      var last := events[|events| - 1];
      if last.call.AllocAddress? && last.outcome.Ok? then FreeAddress(last.outcome.page * PAGE_SIZE)
      else AllocAddress(pages, high)
  }

  /** That caller is obedient for as long as it likes: it frees again and again. */
  lemma CycleObeys(begin: nat, end: nat, pages: nat, high: bool, n: nat)
    requires Aligned(begin) && begin < end && pages > 0
    ensures Obedient(events => Cycle(begin, end, pages, high, events), n)
  {
    var next := events => Cycle(begin, end, pages, high, events);
    forall events: seq<Event> | |events| < n && Followed(events, next) ensures Proper(events, next(events)) {
      if next(events).FreeAddress? {
        var k := |events| - 1;
        var page := events[k].outcome.page;
        assert events[k].call == Cycle(begin, end, pages, high, events[..k]);
        var e := Extent(page, pages, true);
        assert GrantedAt(events, k, e);
        PageSteps(0, page);
        assert Holds(e, page) && Owned(events, page);
      }
    }
    ProperObeys(next, n);
  }

  lemma InsertFirst(begin: nat, end: nat)
    requires Aligned(begin) && begin < end
    ensures PageCount(end - begin) > 0
    ensures var e := Extent(PageOf(begin), PageCount(end - begin), false);
            Legal([], InsertRange(begin, end)) && Step([], InsertRange(begin, end), Ok(e.first), [e])
  {
    PageCountPositive(end - begin);
    var e := Extent(PageOf(begin), PageCount(end - begin), false);
    assert Inserted([], 0, e, [e]);
  }

  lemma AllocAll(e: Extent, high: bool)
    requires e.size > 0 && !e.inUse
    ensures Legal([e], AllocAddress(e.size, high)) && Step([e], AllocAddress(e.size, high), Ok(e.first), [e.(inUse := true)])
  {
    assert AllocAt([e], 0, e.size, high, Ok(e.first), [e.(inUse := true)]);
  }

  lemma FreeAll(e: Extent, vaddr: nat)
    requires e.inUse && Holds(e, PageOf(vaddr))
    ensures Legal([e], FreeAddress(vaddr)) && Step([e], FreeAddress(vaddr), Ok(PageOf(vaddr)), [e.(inUse := false)])
  {
    assert FreeAt([e], 0, PageOf(vaddr), [e.(inUse := false)]);
  }

  /** ... for instance in this run, where it gets the whole range and the free call puts it back. */
  lemma CycleFrees(begin: nat, end: nat, high: bool) returns (states: seq<seq<Extent>>, events: seq<Event>)
    requires Aligned(begin) && begin < end
    ensures Run(states, events) && Followed(events, h => Cycle(begin, end, PageCount(end - begin), high, h))
    ensures |events| == 3 && events[2] == Event(FreeAddress(begin), Ok(PageOf(begin)))
    ensures states[2] == [Extent(PageOf(begin), PageCount(end - begin), true)]
    ensures states[3] == [Extent(PageOf(begin), PageCount(end - begin), false)]
  {
    var page, pages := PageOf(begin), PageCount(end - begin);
    var free, used := Extent(page, pages, false), Extent(page, pages, true);
    InsertFirst(begin, end);
    AllocAll(free, high);
    FreeAll(used, begin);
    states, events := [[], [free], [used], [free]], CycleEvents(begin, end, high);
    CycleFollows(begin, end, high);
  }

  function CycleEvents(begin: nat, end: nat, high: bool): seq<Event>
    requires begin < end
  {
    [Event(InsertRange(begin, end), Ok(PageOf(begin))),
     Event(AllocAddress(PageCount(end - begin), high), Ok(PageOf(begin))),
     Event(FreeAddress(begin), Ok(PageOf(begin)))]
  }

  lemma CycleFollows(begin: nat, end: nat, high: bool)
    requires Aligned(begin) && begin < end
    ensures Followed(CycleEvents(begin, end, high), h => Cycle(begin, end, PageCount(end - begin), high, h))
  {
    var events := CycleEvents(begin, end, high);
    PageDistance(0, begin);
    assert events[..0] == [] && events[..1] == [events[0]] && events[..2] == [events[0], events[1]];
  }

  // ---------- Building a claim step by step ----------

  /** An extent that starts inside the one at `k`, but before the next, lands right behind it. */
  lemma PlaceAfter(s: seq<Extent>, p: nat, e: Extent, t: seq<Extent>, k: nat)
    requires Tidy(s) && Inserted(s, p, e, t) && k < |s| && s[k].first <= e.first
    requires k + 1 < |s| ==> e.first < s[k + 1].first
    ensures p == k + 1
  {
    assert forall i, j :: 0 <= i < j < |s| ==> s[i].first < s[j].first by {
      forall i, j | 0 <= i < j < |s| ensures s[i].first < s[j].first {
        assert s[i].End() <= s[j].first;
      }
    }
  }

  lemma ReplaceMore(s: seq<Extent>, k: nat, pieces: seq<Extent>, e: Extent)
    requires k < |s|
    ensures Put(Replace(s, k, pieces), k + |pieces|, e) == Replace(s, k, pieces + [e])
  {
  }

  lemma ReplaceSet(s: seq<Extent>, k: nat, pieces: seq<Extent>, j: nat, e: Extent)
    requires k < |s| && j < |pieces|
    ensures Replace(s, k, pieces)[k + j] == pieces[j]
    ensures Replace(s, k, pieces)[k + j := e] == Replace(s, k, pieces[j := e])
    ensures s[k := e] == Replace(s, k, [e])
  {
  }

  /** Pieces that tile the front of an extent leave the rest of it clear. */
  lemma FrontPieces(s: seq<Extent>, k: nat, pieces: seq<Extent>, m: nat)
    requires Tidy(s) && k < |s| && Tiles(pieces, s[k].first, m) && m <= s[k].End()
    ensures Tidy(Replace(s, k, pieces))
    ensures Clear(Replace(s, k, pieces), m, s[k].End())
    ensures var t, j := Replace(s, k, pieces), k + |pieces| - 1;
            t[j].first < m && (j + 1 < |t| ==> s[k].End() <= t[j + 1].first)
  {
    var t := Replace(s, k, pieces);
    var n := |pieces|;
    var s1 := s[k := s[k].(size := m - s[k].first)];
    assert pieces[0].End() <= m by { TilesWithin(pieces, s[k].first, m, 0); }
    assert s1[k].End() == m;
    assert Tidy(s1);
    ReplaceTidy(s1, k, pieces);
    assert Replace(s1, k, pieces) == t;
    forall j | 0 <= j < |t| ensures t[j].End() <= m || s[k].End() <= t[j].first {
      if j < k {
        assert t[j] == s[j];
      } else if j < k + n {
        assert t[j] == pieces[j - k];
        TilesWithin(pieces, s[k].first, m, j - k);
      } else {
        assert t[j] == s[j - n + 1];
      }
    }
    assert t[k + n - 1] == pieces[n - 1];
  }

  /** `s` with the size of its extent at `k` set to end at `m`. */
  function Shortened(s: seq<Extent>, k: nat, m: nat): seq<Extent>
    requires k < |s| && s[k].first <= m
  {
    s[k := s[k].(size := m - s[k].first)]
  }

  lemma FlagTidy(s: seq<Extent>, k: nat, used: bool)
    requires Tidy(s) && k < |s|
    ensures Tidy(s[k := s[k].(inUse := used)])
  {
  }

  lemma ShortenReady(s: seq<Extent>, k: nat, m: nat)
    requires Tidy(s) && k < |s| && s[k].first < m <= s[k].End()
    ensures Tidy(Shortened(s, k, m)) && Clear(Shortened(s, k, m), m, s[k].End())
  {
    var x := s[k].(size := m - s[k].first);
    FrontPieces(s, k, [x], m);
    ReplaceSet(s, k, [x], 0, x);
  }

  /** Shortening the extent at `k` and inserting a new one where it now ends. */
  lemma SplitFront(s: seq<Extent>, k: nat, e: Extent, p: nat, t: seq<Extent>)
    requires Tidy(s) && k < |s| && s[k].first < e.first && e.End() <= s[k].End() && e.size > 0 && !s[k].inUse
    requires Inserted(Shortened(s, k, e.first), p, e, t)
    ensures p == k + 1 && t == Replace(s, k, Lead(s[k], e.first) + [e])
  {
    var x := s[k].(size := e.first - s[k].first);
    FrontPieces(s, k, [x], e.first);
    ReplaceSet(s, k, [x], 0, x);
    PlaceAfter(Replace(s, k, [x]), p, e, t, k);
    ReplaceMore(s, k, [x], e);
  }

  /** Inserting the rest of the extent at `k` behind the pieces that tile its front. */
  lemma SplitBack(s: seq<Extent>, k: nat, pieces: seq<Extent>, e: Extent, p: nat, t: seq<Extent>)
    requires Tidy(s) && k < |s| && Tiles(pieces, s[k].first, e.first) && e.End() == s[k].End() && e.size > 0
    requires Inserted(Replace(s, k, pieces), p, e, t)
    ensures p == k + |pieces| && t == Replace(s, k, pieces + [e])
  {
    FrontPieces(s, k, pieces, e.first);
    PlaceAfter(Replace(s, k, pieces), p, e, t, k + |pieces| - 1);
    ReplaceMore(s, k, pieces, e);
  }

  /** A claim in the making: the extent at `k` cut at `begin` and `end`, nothing in use yet, ... */
  function Split(s: seq<Extent>, k: nat, begin: nat, end: nat): seq<Extent>
    requires k < |s| && s[k].first <= begin < end <= s[k].End()
  {
    Replace(s, k, Lead(s[k], begin) + [Extent(begin, end - begin, false)] + Trail(s[k], end))
  }

  /** ... and with the rest behind `end` still missing. */
  function Front(s: seq<Extent>, k: nat, begin: nat, end: nat): seq<Extent>
    requires k < |s| && s[k].first <= begin < end <= s[k].End()
  {
    Replace(s, k, Lead(s[k], begin) + [Extent(begin, end - begin, false)])
  }

  /** A claim is done when the piece in the middle is marked. */
  lemma MarkTaken(s: seq<Extent>, k: nat, begin: nat, end: nat)
    requires k < |s| && s[k].first <= begin < end <= s[k].End()
    ensures var t, j := Split(s, k, begin, end), k + |Lead(s[k], begin)|;
            && j < |t| && t[j] == Extent(begin, end - begin, false)
            && t[j := t[j].(inUse := true)] == Replace(s, k, Taken(s[k], begin, end))
  {
    var lead := Lead(s[k], begin);
    var x := Extent(begin, end - begin, false);
    var pieces := lead + [x] + Trail(s[k], end);
    ReplaceSet(s, k, pieces, |lead|, x.(inUse := true));
    assert pieces[|lead| := x.(inUse := true)] == Taken(s[k], begin, end);
  }

  lemma WholeTaken(s: seq<Extent>, k: nat)
    requires k < |s| && s[k].size > 0
    ensures s[k := s[k].(inUse := true)] == Replace(s, k, Taken(s[k], s[k].first, s[k].End()))
  {
    var x := s[k].(inUse := true);
    assert Taken(s[k], s[k].first, s[k].End()) == [x];
    ReplaceSet(s, k, [x], 0, x);
  }

  /** The front pieces of a claim leave the rest of the extent clear. */
  lemma FrontFacts(s: seq<Extent>, k: nat, begin: nat, end: nat)
    requires Tidy(s) && k < |s| && s[k].first <= begin < end <= s[k].End()
    ensures Tidy(Front(s, k, begin, end)) && Clear(Front(s, k, begin, end), end, s[k].End())
    ensures Tiles(Lead(s[k], begin) + [Extent(begin, end - begin, false)], s[k].first, end)
    ensures end == s[k].End() ==> Split(s, k, begin, end) == Front(s, k, begin, end)
  {
    var front := Lead(s[k], begin) + [Extent(begin, end - begin, false)];
    FrontTiles(s[k], begin, end);
    FrontPieces(s, k, front, end);
    FrontSplit(s, k, begin, end);
  }

  lemma FrontSplit(s: seq<Extent>, k: nat, begin: nat, end: nat)
    requires k < |s| && s[k].first <= begin < end <= s[k].End()
    ensures end == s[k].End() ==> Split(s, k, begin, end) == Front(s, k, begin, end)
  {
    var front := Lead(s[k], begin) + [Extent(begin, end - begin, false)];
    assert front + [] == front;
  }

  lemma FrontTiles(e: Extent, begin: nat, end: nat)
    requires e.first <= begin < end <= e.End()
    ensures Tiles(Lead(e, begin) + [Extent(begin, end - begin, false)], e.first, end)
  {
  }

  lemma FrontLow(s: seq<Extent>, k: nat, end: nat)
    requires k < |s| && s[k].first < end <= s[k].End() && !s[k].inUse
    ensures Front(s, k, s[k].first, end) == Shortened(s, k, end)
  {
    var x := s[k].(size := end - s[k].first);
    assert Lead(s[k], s[k].first) + [x] == [x];
    ReplaceSet(s, k, [x], 0, x);
  }

  lemma WidenFacts(s: seq<Extent>, k: nat, begin: nat, end: nat)
    requires Tidy(s) && k < |s| && s[k].first < begin < end <= s[k].End()
    ensures var t := Front(s, k, begin, end);
            && k + 1 < |t| && !t[k + 1].inUse
            && t[k + 1 := t[k + 1].(size := s[k].End() - begin)] == Replace(s, k, Cut(s[k], begin))
    ensures Tidy(Replace(s, k, Cut(s[k], begin)))
  {
    var x := Extent(begin, end - begin, false);
    var front := Lead(s[k], begin) + [x];
    var y := x.(size := s[k].End() - begin);
    ReplaceSet(s, k, front, 1, y);
    assert front[1 := y] == Cut(s[k], begin);
    CutTiles(s[k], begin);
    ReplaceTidy(s, k, Cut(s[k], begin));
  }

  /** Inserting the trailer behind the front pieces. */
  lemma TrailPlace(s: seq<Extent>, k: nat, begin: nat, end: nat, p: nat, t: seq<Extent>)
    requires Tidy(s) && k < |s| && s[k].first <= begin < end < s[k].End()
    requires Inserted(Front(s, k, begin, end), p, Extent(end, s[k].End() - end, false), t)
    ensures p > k + |Lead(s[k], begin)| && t == Split(s, k, begin, end)
  {
    FrontFacts(s, k, begin, end);
    SplitBack(s, k, Lead(s[k], begin) + [Extent(begin, end - begin, false)],
              Extent(end, s[k].End() - end, false), p, t);
  }

  ghost predicate Ascending(s: seq<nat>) {
    forall i, j :: 0 <= i < j < |s| ==> s[i] <= s[j]
  }

  lemma AscendingPut(s: seq<nat>, q: nat, x: nat)
    requires Ascending(s) && q <= |s|
    requires (q > 0 ==> s[q - 1] <= x) && (q < |s| ==> x <= s[q])
    ensures Ascending(Put(s, q, x))
  {
  }

  lemma AscendingLess(s: seq<nat>, t: seq<nat>, q: nat)
    requires Ascending(s) && q < |s| && t == s[..q] + s[q + 1..]
    ensures Ascending(t)
  {
  }

  /** Nothing before place `q` is larger than `x`, which is to replace the element there. */
  ghost predicate Fitted(s: seq<nat>, q: nat, x: nat) {
    Ascending(s) && q < |s| && x <= s[q] && forall j :: 0 <= j < q ==> s[j] <= x
  }

  /** Shrinking an element no further than those before it allow keeps the order. */
  lemma AscendingShrink(s: seq<nat>, q: nat, x: nat)
    requires Fitted(s, q, x)
    ensures Ascending(s[q := x])
  {
  }
}
