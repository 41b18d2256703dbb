/**
  The pool allocator (mk/core/core_pool.c): fixed-size items carved out of pages, each with a
  header, a bitmap of its free items, and the items.
 */
module PoolLayout {
  import opened Machine

  const ALIGNMENT: nat := 8
  const WORD_BITS: nat := 64

  function RoundUp(x: nat, y: nat): nat
    requires y > 0
  {
    (x + (y - 1)) / y * y
  }

  function PageFloor(a: nat): nat { a / PAGE_SIZE * PAGE_SIZE }

  function MapBits(n: nat): nat { RoundUp(n, WORD_BITS) }
  function MapBytes(n: nat): nat { MapBits(n) / 8 }
  function MapWords(n: nat): nat { MapBytes(n) / 8 }

  /** sizeof (struct pool_page), without and with its magic number. */
  predicate Header(h: nat) { h == 24 || h == 32 }

  /** POOL_UTILIZATION: the bytes a page of `n` items of `size` takes. */
  function Utilization(n: nat, size: nat, h: nat): nat {
    h + MapBytes(n) + size * n
  }

  function MaxAlloc(h: nat): nat
    requires Header(h)
  {
    PAGE_SIZE / 2 - (MapBytes(2) + h)
  }

  /** Two items of the largest size, each with a header and a map word of its own, would fill a page. */
  lemma MaxAllocExact(h: nat)
    requires Header(h)
    ensures 2 * (MaxAlloc(h) + 8 + h) == PAGE_SIZE
  {
    MapFacts(2);
  }

  lemma MapFacts(n: nat)
    ensures n <= WORD_BITS * MapWords(n) < n + WORD_BITS
    ensures MapBytes(n) == 8 * MapWords(n) && MapWords(n) == (n + 63) / 64
  {
    var q := (n + 63) / 64;
    assert MapBits(n) == 64 * q;
    Eighths(8 * q);
    Eighths(q);
  }

  lemma Eighths(q: nat)
    ensures 8 * q / 8 == q
  {
  }

  /** In bytes: the header, as many words of 64 bits as have a bit for each item, and the items. */
  lemma UtilizationBytes(n: nat, size: nat, h: nat, words: nat)
    requires n <= 64 * words < n + 64
    ensures Utilization(n, size, h) == h + 8 * words + size * n
  {
    MapFacts(n);
  }

  lemma UtilizationGrows(m: nat, n: nat, size: nat, h: nat)
    requires m <= n
    ensures Utilization(m, size, h) <= Utilization(n, size, h)
  {
    MapGrows(m, n);
    ProductGrows(size, m, n);
  }

  lemma MapGrows(m: nat, n: nat)
    requires m <= n
    ensures MapBytes(m) <= MapBytes(n)
  {
    MapFacts(m);
    MapFacts(n);
    QuotientGrows(m + 63, n + 63);
  }

  lemma QuotientGrows(x: nat, y: nat)
    requires x <= y
    ensures x / 64 <= y / 64
  {
  }

  lemma ProductGrows(size: nat, m: nat, n: nat)
    requires m <= n
    ensures size * m <= size * n
  {
  }

  /** The loop of pool_create: `n` is the largest number of items that fit a page. */
  method MaxItems(size: nat, h: nat) returns (n: nat)
    requires Header(h)
    ensures forall m: nat :: Utilization(m, size, h) <= PAGE_SIZE <==> m <= n
    ensures size <= MaxAlloc(h) ==> n >= 2
  {
    n := 0;
    while Utilization(n + 1, size, h) <= PAGE_SIZE
      invariant Utilization(n, size, h) <= PAGE_SIZE
      decreases 8 * PAGE_SIZE - n
    {
      ItemsBounded(n + 1, size, h);
      n := n + 1;
    }
    forall m: nat ensures Utilization(m, size, h) <= PAGE_SIZE <==> m <= n {
      if m <= n {
        UtilizationGrows(m, n, size, h);
      } else {
        UtilizationGrows(n + 1, m, size, h);
      }
    }
    if size <= MaxAlloc(h) {
      TwoFit(size, h);
    }
  }

  lemma ItemsBounded(n: nat, size: nat, h: nat)
    requires Utilization(n, size, h) <= PAGE_SIZE
    ensures n <= 8 * PAGE_SIZE
  {
    MapFacts(n);
    ProductGrows(size, 0, n);
  }

  lemma TwoFit(size: nat, h: nat)
    requires Header(h) && size <= MaxAlloc(h)
    ensures Utilization(2, size, h) <= PAGE_SIZE
  {
    MapFacts(2);
  }

  /** The shape of a pool: legal item size, and as many items to a page as fit. */
  datatype Shape = Shape(size: nat, max: nat, header: nat) {
    ghost predicate Valid() {
      && Header(header) && size > 0 && size % ALIGNMENT == 0 && size <= MaxAlloc(header)
      && max >= 2 && Utilization(max, size, header) <= PAGE_SIZE
    }

    /** pool_page_datum: the address of item `i` of the page at `page`. */
    function Datum(page: nat, i: nat): nat {
      page + header + MapBytes(max) + i * size
    }

    /** The index pool_page_free_datum computes from an address. */
    function IndexOf(page: nat, datum: nat): nat
      requires size > 0 && datum >= Datum(page, 0)
    {
      (datum - Datum(page, 0)) / size
    }
  }

  lemma RoundedUp(size: nat)
    ensures RoundUp(size, ALIGNMENT) % ALIGNMENT == 0 && size <= RoundUp(size, ALIGNMENT) < size + ALIGNMENT
  {
    var q := (size + 7) / 8;
    assert RoundUp(size, ALIGNMENT) == 8 * q;
  }

  lemma Items(s: Shape, i: nat, j: nat)
    requires i < j
    ensures (i + 1) * s.size <= j * s.size && (i + 1) * s.size == i * s.size + s.size
  {
  }

  lemma MultipleAligned(i: nat, size: nat)
    requires size % ALIGNMENT == 0
    ensures i * size % ALIGNMENT == 0
  {
    var q := size / ALIGNMENT;
    assert size == ALIGNMENT * q;
    assert i * size == ALIGNMENT * (i * q);
  }

  lemma SumAligned(page: nat, h: nat, words: nat, x: nat)
    requires page % PAGE_SIZE == 0 && h % ALIGNMENT == 0 && x % ALIGNMENT == 0
    ensures (page + h + 8 * words + x) % ALIGNMENT == 0
  {
    var a, b, c := page / PAGE_SIZE, h / 8, x / 8;
    assert page == PAGE_SIZE * a && h == 8 * b && x == 8 * c;
    Multiple(1024 * a + b + words + c);
  }

  lemma Multiple(q: nat)
    ensures 8 * q % ALIGNMENT == 0
  {
  }

  lemma DatumBounds(s: Shape, page: nat, i: nat)
    requires s.Valid() && i < s.max
    ensures page + s.header + MapBytes(s.max) <= s.Datum(page, i)
    ensures s.Datum(page, i) + s.size <= page + PAGE_SIZE
  {
    Items(s, i, s.max);
    var bytes, all, x := MapBytes(s.max), s.size * s.max, i * s.size;
    assert s.max * s.size == all;
    assert s.header + bytes + all <= PAGE_SIZE;
    assert x + s.size <= all;
  }

  /** An item lies inside its page, clear of header and bitmap, and is aligned. */
  lemma DatumInside(s: Shape, page: nat, i: nat)
    requires s.Valid() && page % PAGE_SIZE == 0 && i < s.max
    ensures page + s.header + MapBytes(s.max) <= s.Datum(page, i)
    ensures s.Datum(page, i) + s.size <= page + PAGE_SIZE
    ensures s.Datum(page, i) % ALIGNMENT == 0
  {
    DatumBounds(s, page, i);
    DatumAligned(s.size, s.max, s.header, page, i);
  }

  lemma DatumAligned(size: nat, max: nat, header: nat, page: nat, i: nat)
    requires Header(header) && size % ALIGNMENT == 0 && page % PAGE_SIZE == 0
    ensures (page + header + MapBytes(max) + i * size) % ALIGNMENT == 0
  {
    MapFacts(max);
    MultipleAligned(i, size);
    SumAligned(page, header, MapWords(max), i * size);
  }

  /** The items of a page are pairwise disjoint. */
  lemma DatumDisjoint(s: Shape, page: nat, i: nat, j: nat)
    requires i < j
    ensures s.Datum(page, i) + s.size <= s.Datum(page, j)
  {
    Items(s, i, j);
  }

  lemma DivUnique(x: nat, k: nat, y: nat)
    requires y > 0 && k * y <= x < (k + 1) * y
    ensures x / y == k
  {
    var q := x / y;
    assert q * y <= x < (q + 1) * y;
    assert q < k ==> (q + 1) * y <= k * y;
    assert q > k ==> (k + 1) * y <= q * y;
  }

  /** Both computations of pool_free are inverse to pool_page_datum. */
  lemma DatumInverse(s: Shape, page: nat, i: nat)
    requires s.Valid() && page % PAGE_SIZE == 0 && i < s.max
    ensures PageFloor(s.Datum(page, i)) == page
    ensures s.Datum(page, i) >= s.Datum(page, 0) && s.IndexOf(page, s.Datum(page, i)) == i
  {
    DatumInside(s, page, i);
    DivUnique(s.Datum(page, i), page / PAGE_SIZE, PAGE_SIZE);
    Items(s, i, i + 1);
    DivUnique(i * s.size, i, s.size);
  }

  lemma PagesApart(p: nat, q: nat)
    requires p % PAGE_SIZE == 0 && q % PAGE_SIZE == 0 && p != q
    ensures p + PAGE_SIZE <= q || q + PAGE_SIZE <= p
  {
  }

  /** Items of different pages, or different items of one page, share no byte. */
  lemma ItemsDisjoint(s: Shape, p: nat, i: nat, q: nat, j: nat)
    requires s.Valid() && p % PAGE_SIZE == 0 && q % PAGE_SIZE == 0 && i < s.max && j < s.max && (p, i) != (q, j)
    ensures s.Datum(p, i) + s.size <= s.Datum(q, j) || s.Datum(q, j) + s.size <= s.Datum(p, i)
  {
    DatumInside(s, p, i);
    DatumInside(s, q, j);
    if p == q {
      if i < j {
        DatumDisjoint(s, p, i, j);
      } else {
        DatumDisjoint(s, p, j, i);
      }
    } else {
      PagesApart(p, q);
    }
  }
}

/** The three records of what is free: the bitmap and the counter of each page, and the pool's counter. */
module Pool {
  import opened Optional
  import opened Machine
  import opened Arithmetic
  import opened PoolLayout
  import opened Queues

  /** A pool_map_t, as its bits from the least significant up. */
  type Word = w: seq<bool> | |w| == WORD_BITS witness seq(WORD_BITS, _ => false)

  /** struct pool_page: pp_items and the bitmap behind the header. */
  datatype Page = Page(items: nat, bits: seq<Word>)

  predicate Bit(m: seq<Word>, n: nat)
    requires n < WORD_BITS * |m|
  {
    m[n / WORD_BITS][n % WORD_BITS]
  }

  function SetBit(m: seq<Word>, n: nat, b: bool): seq<Word>
    requires n < WORD_BITS * |m|
  {
    m[n / WORD_BITS := m[n / WORD_BITS][n % WORD_BITS := b]]
  }

  /** How many of the first `n` bits are set. */
  ghost function Count(m: seq<Word>, n: nat): nat
    requires n <= WORD_BITS * |m|
  {
    if n == 0 then 0 else Count(m, n - 1) + if Bit(m, n - 1) then 1 else 0
  }

  lemma BitOfSet(m: seq<Word>, n: nat, b: bool, k: nat)
    requires n < WORD_BITS * |m| && k < WORD_BITS * |m|
    ensures Bit(SetBit(m, n, b), k) == if k == n then b else Bit(m, k)
  {
    assert k / WORD_BITS == n / WORD_BITS && k % WORD_BITS == n % WORD_BITS ==> k == n;
  }

  lemma {:induction false} CountOfSet(m: seq<Word>, n: nat, b: bool, k: nat)
    requires n < WORD_BITS * |m| && k <= WORD_BITS * |m| && Bit(m, n) != b
    ensures Count(SetBit(m, n, b), k) == Count(m, k) + if k <= n then 0 else if b then 1 else -1
  {
    if k > 0 {
      CountOfSet(m, n, b, k - 1);
      BitOfSet(m, n, b, k - 1);
    }
  }

  lemma {:induction false} CountNone(m: seq<Word>, n: nat)
    requires n <= WORD_BITS * |m| && forall k :: 0 <= k < n ==> !Bit(m, k)
    ensures Count(m, n) == 0
  {
    if n > 0 {
      CountNone(m, n - 1);
    }
  }

  lemma {:induction false} CountFirst(m: seq<Word>, max: nat, n: nat)
    requires max <= WORD_BITS * |m| && n <= WORD_BITS * |m|
    requires forall k :: 0 <= k < WORD_BITS * |m| ==> (Bit(m, k) <==> k < max)
    ensures Count(m, n) == if n <= max then n else max
  {
    if n > 0 {
      CountFirst(m, max, n - 1);
    }
  }

  lemma {:induction false} CountSome(m: seq<Word>, n: nat, k: nat)
    requires n <= WORD_BITS * |m| && k < n && Bit(m, k)
    ensures Count(m, n) > 0
  {
    if k < n - 1 {
      CountSome(m, n - 1, k);
    }
  }

  /** The bitmap and the counter of a page agree, and no bit past the last item is set. */
  ghost predicate PageOk(pg: Page, max: nat) {
    && |pg.bits| == MapWords(max) && pg.items <= max <= WORD_BITS * |pg.bits|
    && (forall k :: max <= k < WORD_BITS * |pg.bits| ==> !Bit(pg.bits, k))
    && Count(pg.bits, WORD_BITS * |pg.bits|) == max - pg.items
  }

  /** Taking a free item, or giving one back, keeps bitmap and counter in agreement. */
  lemma TakeKeeps(pg: Page, max: nat, n: nat)
    requires PageOk(pg, max) && n < max && Bit(pg.bits, n)
    ensures pg.items < max
    ensures PageOk(Page(pg.items + 1, SetBit(pg.bits, n, false)), max)
  {
    CountOfSet(pg.bits, n, false, WORD_BITS * |pg.bits|);
    CountSome(pg.bits, WORD_BITS * |pg.bits|, n);
    forall k | max <= k < WORD_BITS * |pg.bits| ensures !Bit(SetBit(pg.bits, n, false), k) {
      BitOfSet(pg.bits, n, false, k);
    }
  }

  lemma GiveKeeps(pg: Page, max: nat, n: nat)
    requires PageOk(pg, max) && n < max && !Bit(pg.bits, n)
    ensures pg.items > 0
    ensures PageOk(Page(pg.items - 1, SetBit(pg.bits, n, true)), max)
  {
    var all := WORD_BITS * |pg.bits|;
    CountOfSet(pg.bits, n, true, all);
    forall k | max <= k < all ensures !Bit(SetBit(pg.bits, n, true), k) {
      BitOfSet(pg.bits, n, true, k);
    }
    CountBound(SetBit(pg.bits, n, true), max, all);
  }

  lemma {:induction false} CountBound(m: seq<Word>, max: nat, n: nat)
    requires n <= WORD_BITS * |m| && forall k :: max <= k < n ==> !Bit(m, k)
    ensures Count(m, n) <= max && Count(m, n) <= n
  {
    if n > 0 {
      CountBound(m, max, n - 1);
    }
  }

  /** The free items of the pages `ps`. */
  ghost function FreeSum(ps: seq<nat>, mem: map<nat, Page>, max: nat): int
    requires forall p :: p in ps ==> p in mem
  {
    if ps == [] then 0 else (max - mem[ps[0]].items) + FreeSum(ps[1..], mem, max)
  }

  lemma {:induction false} SumUpdate(ps: seq<nat>, mem: map<nat, Page>, max: nat, p: nat, pg: Page)
    requires NoRepeats(ps) && forall x :: x in ps ==> x in mem
    ensures FreeSum(ps, mem[p := pg], max) ==
            FreeSum(ps, mem, max) + if p in ps then mem[p].items - pg.items else 0
  {
    if ps != [] {
      assert NoRepeats(ps[1..]);
      SumUpdate(ps[1..], mem, max, p, pg);
      assert p in ps <==> p == ps[0] || p in ps[1..];
      assert p == ps[0] ==> p !in ps[1..];
    }
  }

  lemma {:induction false} SumRemove(ps: seq<nat>, mem: map<nat, Page>, max: nat, k: nat)
    requires k < |ps| && forall x :: x in ps ==> x in mem
    ensures forall x :: x in ps[..k] + ps[k + 1..] ==> x in mem
    ensures FreeSum(ps[..k] + ps[k + 1..], mem, max) == FreeSum(ps, mem, max) - (max - mem[ps[k]].items)
  {
    var qs := ps[..k] + ps[k + 1..];
    forall x | x in qs ensures x in mem {
      assert x in ps;
    }
    if k > 0 {
      SumRemove(ps[1..], mem, max, k - 1);
      assert qs[1..] == ps[1..][..k - 1] + ps[1..][k..];
      assert qs[0] == ps[0];
    } else {
      assert qs == ps[1..];
    }
  }

  lemma {:induction false} SumFull(ps: seq<nat>, mem: map<nat, Page>, max: nat)
    requires forall x :: x in ps ==> x in mem && mem[x].items == max
    ensures FreeSum(ps, mem, max) == 0
  {
    if ps != [] {
      SumFull(ps[1..], mem, max);
    }
  }

  /** ~0 and (1 << n) - 1, as bits. */
  function LowOnes(n: nat): Word {
    seq(WORD_BITS, i => i < n)
  }

  ghost function Value(w: seq<bool>): nat {
    if w == [] then 0 else (if w[0] then 1 else 0) + 2 * Value(w[1..])
  }

  /** `LowOnes` is the word whose value is one less than a power of two. */
  lemma {:induction false} LowOnesValue(len: nat, n: nat)
    requires n <= len
    ensures Value(seq(len, i => i < n)) == Pow2(n) - 1
  {
    if len > 0 {
      var w := seq(len, i => i < n);
      if n > 0 {
        assert w[1..] == seq(len - 1, i => i < n - 1);
        LowOnesValue(len - 1, n - 1);
      } else {
        assert w[1..] == seq(len - 1, i => i < 0);
        LowOnesValue(len - 1, 0);
      }
    }
  }

  /** The two steps of pool_insert_page that write the bitmap, over whatever it held. */
  method FillMap(garbage: seq<Word>, max: nat) returns (m: seq<Word>)
    requires max > 0 && |garbage| == MapWords(max)
    ensures |m| == |garbage| && max <= WORD_BITS * |m|
    ensures forall k :: 0 <= k < WORD_BITS * |m| ==> (Bit(m, k) <==> k < max)
  {
    MapFacts(max);
    m := garbage;
    var i := 0;
    while i < MapWords(max) - 1
      invariant 0 <= i <= MapWords(max) - 1 && |m| == |garbage|
      invariant forall j :: 0 <= j < i ==> m[j] == LowOnes(WORD_BITS)
    {
      m := m[i := LowOnes(WORD_BITS)];
      i := i + 1;
    }
    var o := (max - 1) % WORD_BITS;
    if o == WORD_BITS - 1 {
      m := m[i := LowOnes(WORD_BITS)];
    } else {
      m := m[i := LowOnes(o + 1)];
    }
    assert m[i] == LowOnes(o + 1);
    forall k | 0 <= k < WORD_BITS * |m| ensures Bit(m, k) <==> k < max {
      var w := k / WORD_BITS;
      assert w < i ==> m[w] == LowOnes(WORD_BITS);
    }
  }

  /** A word is divided into places: the k-th bit is bit k % 64 of word k / 64. */
  lemma Places(i: nat, j: nat)
    requires j < WORD_BITS
    ensures (i * WORD_BITS + j) / WORD_BITS == i && (i * WORD_BITS + j) % WORD_BITS == j
  {
  }

  lemma EmptyWord(bits: seq<Word>, i: nat)
    requires i < |bits| && bits[i] == LowOnes(0)
    ensures forall k :: i * WORD_BITS <= k < (i + 1) * WORD_BITS ==> !Bit(bits, k)
  {
    forall k | i * WORD_BITS <= k < (i + 1) * WORD_BITS ensures !Bit(bits, k) {
      Places(i, k - i * WORD_BITS);
    }
  }

  /** The two inner loops of pool_get: a page with a free item has a bit for it, and they find one. */
  method SearchMap(pg: Page, max: nat) returns (i: nat, j: nat)
    requires PageOk(pg, max) && pg.items < max
    ensures i < |pg.bits| && j < WORD_BITS && i * WORD_BITS + j < max && pg.bits[i][j]
    ensures forall k :: 0 <= k < i * WORD_BITS + j ==> !Bit(pg.bits, k)
  {
    MapFacts(max);
    i, j := 0, 0;
    while i < MapWords(max)
      invariant 0 <= i <= |pg.bits|
      invariant forall k :: 0 <= k < i * WORD_BITS ==> !Bit(pg.bits, k)
    {
      if pg.bits[i] == LowOnes(0) {
        EmptyWord(pg.bits, i);
        i := i + 1;
        continue;
      }
      var o := i * WORD_BITS;
      j := 0;
      while o + j < max && j < WORD_BITS
        invariant 0 <= j <= WORD_BITS
        invariant forall k :: 0 <= k < o + j ==> !Bit(pg.bits, k)
      {
        if pg.bits[i][j] {
          return;
        }
        Places(i, j);
        j := j + 1;
      }
      i := i + 1;
    }
    CountNone(pg.bits, WORD_BITS * |pg.bits|);
    assert false;
  }

  class Pool {
    const shape: Shape
    var pages: seq<nat>
    var mem: map<nat, Page>
    var freeitems: int

    /** The linked pages are whole, and the three records agree. */
    ghost predicate Agree()
      reads this
    {
      && shape.Valid() && NoRepeats(pages)
      && (forall p :: p in pages ==> p in mem && p % PAGE_SIZE == 0 && PageOk(mem[p], shape.max))
      && freeitems == FreeSum(pages, mem, shape.max)
    }

    /** Between calls no linked page is without a live item, either. */
    ghost predicate Valid()
      reads this
    {
      Agree() && forall p :: p in pages ==> mem[p].items > 0
    }

    /** The live items, by page and index. */
    ghost predicate Live(p: nat, i: nat)
      reads this
    {
      p in pages && p in mem && i < WORD_BITS * |mem[p].bits| && i < shape.max && !Bit(mem[p].bits, i)
    }

    /** pool_create */
    constructor (size: nat, header: nat)
      requires Header(header) && 0 < size && RoundUp(size, ALIGNMENT) <= MaxAlloc(header)
      ensures Valid() && pages == [] && shape.size == RoundUp(size, ALIGNMENT) && shape.header == header
      ensures forall m: nat :: Utilization(m, shape.size, header) <= PAGE_SIZE <==> m <= shape.max
    {
      var n := MaxItems(RoundUp(size, ALIGNMENT), header);
      RoundedUp(size);
      shape := Shape(RoundUp(size, ALIGNMENT), n, header);
      pages, mem, freeitems := [], map[], 0;
    }

    /** pool_insert_page */
    method InsertPage(page: nat, garbage: seq<Word>)
      requires Agree() && page % PAGE_SIZE == 0 && page !in pages && |garbage| == MapWords(shape.max)
      modifies this
      ensures Agree() && pages == [page] + old(pages) && freeitems == old(freeitems) + shape.max
      ensures mem == old(mem)[page := mem[page]] && mem[page].items == 0
      ensures forall p: nat, i: nat :: Live(p, i) <==> old(Live(p, i))
    {
      var m := FillMap(garbage, shape.max);
      var pg := Page(0, m);
      CountFirst(m, shape.max, WORD_BITS * |m|);
      SumUpdate(pages, mem, shape.max, page, pg);
      mem := mem[page := pg];
      pages := [page] + pages;
      freeitems := freeitems + shape.max;
    }

    /** The first linked page that is not full. */
    ghost predicate FirstWithRoom(page: nat)
      reads this
    {
      exists n :: 0 <= n < |pages| && pages[n] == page && page in mem && mem[page].items < shape.max
                  && forall x :: x in pages[..n] ==> x in mem && mem[x].items == shape.max
    }

    /** The loops of pool_get: a page with a free item, and the first one in it. */
    method Search() returns (page: nat, i: nat, j: nat)
      requires Agree() && freeitems > 0
      ensures page in pages && page in mem && i < |mem[page].bits| && j < WORD_BITS
      ensures i * WORD_BITS + j < shape.max && mem[page].bits[i][j]
      ensures forall k :: 0 <= k < i * WORD_BITS + j ==> !Bit(mem[page].bits, k)
      ensures FirstWithRoom(page)
      ensures pages != [] && pages[0] in mem && mem[pages[0]].items < shape.max ==> page == pages[0]
    {
      var n := 0;
      while n < |pages|
        invariant 0 <= n <= |pages|
        invariant forall x :: x in pages[..n] ==> x in mem && mem[x].items == shape.max
      {
        page := pages[n];
        var pg := mem[page];
        if pg.items == shape.max {
          n := n + 1;
          continue;
        }
        i, j := SearchMap(pg, shape.max);
        return;
      }
      assert pages[..n] == pages;
      SumFull(pages, mem, shape.max);
      assert false;
    }

    /** pool_get: one free item becomes live, and it is the one returned. */
    method Get() returns (datum: nat, ghost page: nat, ghost n: nat)
      requires Agree() && freeitems > 0
      modifies this
      ensures Agree() && pages == old(pages) && datum == shape.Datum(page, n)
      ensures page in pages && n < shape.max && !old(Live(page, n))
      ensures forall p: nat, i: nat :: Live(p, i) <==> old(Live(p, i)) || (p, i) == (page, n)
      ensures old(FirstWithRoom(page)) && forall k: nat :: k < n ==> old(Live(page, k))
      ensures freeitems == old(freeitems) - 1
      ensures page in old(mem) && mem == old(mem)[page := mem[page]] && mem[page].items == old(mem)[page].items + 1
      ensures old(pages[0] in mem && mem[pages[0]].items < shape.max) ==> page == pages[0]
    {
      var at, i, j := Search();
      var o := i * WORD_BITS;
      page, n := at, o + j;
      var pg := mem[at];
      assert n / WORD_BITS == i && n % WORD_BITS == j;
      var now := Page(pg.items + 1, pg.bits[i := pg.bits[i][j := false]]);
      assert now.bits == SetBit(pg.bits, n, false);
      TakeKeeps(pg, shape.max, n);
      SumUpdate(pages, mem, shape.max, at, now);
      forall k: nat | k < WORD_BITS * |pg.bits| ensures Bit(now.bits, k) == if k == n then false else Bit(pg.bits, k) {
        BitOfSet(pg.bits, n, false, k);
      }
      mem := mem[at := now];
      freeitems := freeitems - 1;
      datum := shape.Datum(at, o + j);
    }

    /** pool_allocate; `supply` is the page the system would give, none when it has none. */
    method Allocate(supply: Option<(nat, seq<Word>)>) returns (datum: Option<nat>, ghost page: nat, ghost n: nat)
      requires Valid()
      requires supply.Some? ==> supply.value.0 % PAGE_SIZE == 0 && supply.value.0 !in pages
                                && |supply.value.1| == MapWords(shape.max)
      modifies this
      ensures Valid() && (datum == None <==> supply == None && old(freeitems) == 0)
      ensures pages == if old(freeitems) == 0 && supply.Some? then [supply.value.0] + old(pages) else old(pages)
      ensures datum == None ==> forall p: nat, i: nat :: Live(p, i) <==> old(Live(p, i))
      ensures datum.Some? ==>
                && datum.value == shape.Datum(page, n) && !old(Live(page, n)) && (forall k: nat :: k < n ==> old(Live(page, k)))
                && forall p: nat, i: nat :: Live(p, i) <==> old(Live(p, i)) || (p, i) == (page, n)
    {
      page, n := 0, 0;
      if freeitems == 0 {
        if supply == None {
          return None, 0, 0;
        }
        InsertPage(supply.value.0, supply.value.1);
      } else {
        SumPositive(pages, mem, shape.max);
      }
      var d;
      d, page, n := Get();
      datum := Some(d);
    }

    /** pool_free of the live item `n` of `page`. */
    method Free(datum: nat, ghost page: nat, ghost n: nat)
      requires Valid() && Live(page, n) && datum == shape.Datum(page, n)
      modifies this
      ensures Valid()
      ensures forall p: nat, i: nat :: Live(p, i) <==> old(Live(p, i)) && (p, i) != (page, n)
      ensures pages == if old(mem)[page].items == 1 then Remove(old(pages), page) else old(pages)
      ensures page !in pages <==> old(mem)[page].items == 1
    {
      DatumInverse(shape, page, n);
      var at := PageFloor(datum);
      var i := shape.IndexOf(at, datum);
      GiveBack(at, i);
      if mem[at].items != 0 {
        freeitems := freeitems + 1;
      } else {
        LastItem(at, n);
        Unlink(at);
      }
    }

    /** pool_page_free_datum, and the page's counter; the pool's counter is now one behind. */
    method GiveBack(page: nat, n: nat)
      requires Agree() && Live(page, n)
      modifies this`mem
      ensures forall p :: p in pages ==> p in mem && p % PAGE_SIZE == 0 && PageOk(mem[p], shape.max)
      ensures freeitems == FreeSum(pages, mem, shape.max) - 1
      ensures page in old(mem) && mem == old(mem)[page := mem[page]] && mem[page].items == old(mem)[page].items - 1
      ensures forall p: nat, i: nat :: Live(p, i) <==> old(Live(p, i)) && (p, i) != (page, n)
    {
      var pg := mem[page];
      var bits := SetBit(pg.bits, n, true);
      GiveKeeps(pg, shape.max, n);
      forall k: nat | k < WORD_BITS * |pg.bits| ensures Bit(bits, k) == if k == n then true else Bit(pg.bits, k) {
        BitOfSet(pg.bits, n, true, k);
      }
      var now := Page(pg.items - 1, bits);
      SumUpdate(pages, mem, shape.max, page, now);
      mem := mem[page := now];
    }

    /** A page whose counter says it is empty has no live item. */
    lemma LastItem(page: nat, n: nat)
      requires page in pages && page in mem && PageOk(mem[page], shape.max) && mem[page].items == 0
      ensures forall i: nat :: !Live(page, i)
    {
      forall i: nat ensures !Live(page, i) {
        if Live(page, i) {
          AllSet(mem[page].bits, shape.max, i);
        }
      }
    }

    /** The last part of pool_free: an empty page leaves the list, and its free items the count. */
    method Unlink(page: nat)
      requires shape.Valid() && NoRepeats(pages) && page in pages
      requires forall p :: p in pages ==> p in mem && p % PAGE_SIZE == 0 && PageOk(mem[p], shape.max)
      requires mem[page].items == 0 && freeitems == FreeSum(pages, mem, shape.max) - 1
      modifies this
      ensures Agree() && mem == old(mem) && (forall p :: p in pages <==> p in old(pages) && p != page)
      ensures pages == Remove(old(pages), page)
    {
      var k :| 0 <= k < |pages| && pages[k] == page;
      SumRemove(pages, mem, shape.max, k);
      DropFacts(pages, k);
      RemovePlace(pages, k);
      pages := pages[..k] + pages[k + 1..];
      freeitems := freeitems - (shape.max - 1);
    }
  }

  lemma {:induction false} RemovePlace(ps: seq<nat>, k: nat)
    requires NoRepeats(ps) && k < |ps|
    ensures Remove(ps, ps[k]) == ps[..k] + ps[k + 1..]
  {
    if k > 0 {
      RemovePlace(ps[1..], k - 1);
      assert [ps[0]] + ps[1..][..k - 1] == ps[..k] && ps[1..][k..] == ps[k + 1..];
    }
  }

  lemma DropFacts(ps: seq<nat>, k: nat)
    requires NoRepeats(ps) && k < |ps|
    ensures var r := ps[..k] + ps[k + 1..];
            NoRepeats(r) && forall p :: p in r <==> p in ps && p != ps[k]
  {
    var r := ps[..k] + ps[k + 1..];
    assert ps == ps[..k] + [ps[k]] + ps[k + 1..];
    assert forall i :: 0 <= i < |r| ==> r[i] == ps[if i < k then i else i + 1];
  }

  lemma {:induction false} SumPositive(ps: seq<nat>, mem: map<nat, Page>, max: nat)
    requires forall x :: x in ps ==> x in mem && mem[x].items <= max
    ensures FreeSum(ps, mem, max) >= 0
  {
    if ps != [] {
      SumPositive(ps[1..], mem, max);
    }
  }

  /** If all of the first `max` items are free, so is each. */
  lemma AllSet(m: seq<Word>, max: nat, i: nat)
    requires i < max <= WORD_BITS * |m| && Count(m, WORD_BITS * |m|) == max
    requires forall k :: max <= k < WORD_BITS * |m| ==> !Bit(m, k)
    ensures Bit(m, i)
  {
    if !Bit(m, i) {
      var all := WORD_BITS * |m|;
      CountOfSet(m, i, true, all);
      forall k | max <= k < all ensures !Bit(SetBit(m, i, true), k) {
        BitOfSet(m, i, true, k);
      }
      CountBound(SetBit(m, i, true), max, all);
    }
  }
}
