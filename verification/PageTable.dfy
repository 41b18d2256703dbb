/**
  Page table entries (mk/cpu/mips/cpu/pte.h) and the way an address selects them.  Words and
  addresses have 64 bits.  Shifts are written as products and quotients by powers of two, and a
  mask of neighbouring bits as the field it keeps.
 */
module Pte {
  import opened Machine

  type Word = w: nat | w < WORD

  const TLB_PAGE_SIZE: nat := 0x1000

  const PG_G: nat := 0x01
  const PG_V: nat := 0x02
  const PG_C_CNC: nat := 0x18

  /** The word with its bits 6 to 29 alone: the mask for the frame number. */
  function PfnField(w: Word): Word {
    (w / 0x40) % 0x100_0000 * 0x40
  }

  function PaToPfn(pa: Word): Word {
    PfnField(pa / 0x1000 * 0x40)
  }

  function PteToPa(pte: Word): Word {
    PfnField(pte) / 0x40 * 0x1000
  }

  predicate Flag(pte: Word, bit: nat)
    requires bit > 0
  {
    pte / bit % 2 == 1
  }

  /** The bits outside the frame number: the hardware's flags below it and the software's above it. */
  ghost function Flags(pte: Word): (nat, nat) {
    (pte % 0x40, pte / 0x4000_0000)
  }

  /** A frame number and flags below it, put together with or. */
  function MakePte(pa: Word, flags: Word): (pte: Word)
    requires flags < 0x40
    ensures Flags(pte) == (flags, 0)
  {
    PaToPfn(pa) + flags
  }

  /** What comes out of an entry is bits 12 to 35 of the frame. */
  lemma FrameStored(pa: Word, flags: Word)
    requires flags < 0x40
    ensures PteToPa(MakePte(pa, flags)) == pa / 0x1000 % 0x100_0000 * 0x1000
  {
  }

  /** A frame goes into an entry and comes out again exactly when it is 4K-aligned and below 2^36. */
  lemma FrameRoundTrip(pa: Word, flags: Word)
    requires flags < 0x40
    ensures PteToPa(MakePte(pa, flags)) == pa <==> pa % 0x1000 == 0 && pa < 0x10_0000_0000
  {
    FrameStored(pa, flags);
  }

  /** EntryLo1 is EntryLo0 plus the frame number of one TLB page: the second half of the frame with the same flags. */
  lemma SecondHalf(pte: Word)
    requires PteToPa(pte) % PAGE_SIZE == 0 && pte + PaToPfn(TLB_PAGE_SIZE) < WORD
    ensures PteToPa(pte + PaToPfn(TLB_PAGE_SIZE)) == PteToPa(pte) + TLB_PAGE_SIZE
    ensures Flags(pte + PaToPfn(TLB_PAGE_SIZE)) == Flags(pte)
  {
    var low, pfn, high := pte % 0x40, pte / 0x40 % 0x100_0000, pte / 0x4000_0000;
    assert PaToPfn(TLB_PAGE_SIZE) == 0x40;
    Fields(pte, high, pfn, low);
    EvenFrame(pfn);
    Fields(pte + 0x40, high, pfn + 1, low);
  }

  lemma EvenFrame(pfn: nat)
    requires pfn < 0x100_0000 && pfn * 0x1000 % PAGE_SIZE == 0
    ensures pfn + 1 < 0x100_0000
  {
  }

  /** A word is its three fields. */
  lemma Fields(w: Word, high: nat, pfn: nat, low: nat)
    requires pfn < 0x100_0000 && low < 0x40
    ensures w == high * 0x4000_0000 + pfn * 0x40 + low <==>
            w / 0x4000_0000 == high && w / 0x40 % 0x100_0000 == pfn && w % 0x40 == low
  {
    var n := high * 0x100_0000 + pfn;
    DivDiv(w);
    LowField(w, n, low);
    HighField(w / 0x40, high, pfn);
  }

  lemma DivDiv(w: nat)
    ensures w / 0x40 / 0x100_0000 == w / 0x4000_0000
  {
  }

  lemma LowField(w: nat, n: nat, low: nat)
    requires low < 0x40
    ensures w == n * 0x40 + low <==> w / 0x40 == n && w % 0x40 == low
  {
  }

  lemma HighField(n: nat, high: nat, pfn: nat)
    requires pfn < 0x100_0000
    ensures n == high * 0x100_0000 + pfn <==> n / 0x100_0000 == high && n % 0x100_0000 == pfn
  {
  }

  // ---------- Addresses ----------

  function Page(v: Word): Word {
    v - v % PAGE_SIZE
  }

  function Index0(v: Word): (i: nat)
    ensures i < 128
  {
    v / 0x2_0000_0000 % 128
  }

  function Index1(v: Word): (i: nat)
    ensures i < 1024
  {
    v / 0x80_0000 % 1024
  }

  function IndexPte(v: Word): (i: nat)
    ensures i < 1024
  {
    v / 0x2000 % 1024
  }

  const USER_BASE: Word := 0
  const USER_END: Word := 0x0000_00ff_ffff_ffff
  const KERNEL_BASE: Word := 0xc000_0000_0000_0000
  const KERNEL_END: Word := 0xc000_00ff_7fff_ffff

  predicate Space(base: Word, end: Word) {
    (base == USER_BASE && end == USER_END) || (base == KERNEL_BASE && end == KERNEL_END)
  }

  /** An address is its region, its three indexes and its offset in the page. */
  lemma Parts(v: Word)
    ensures v / 0x2000 == v / 0x100_0000_0000 * 0x800_0000 + Index0(v) * 0x10_0000 + Index1(v) * 0x400 + IndexPte(v)
  {
    var n := v / 0x2000;
    assert v / 0x80_0000 == n / 1024;
    assert v / 0x2_0000_0000 == n / 1024 / 1024;
    assert v / 0x100_0000_0000 == n / 1024 / 1024 / 128;
  }

  lemma Region(base: Word, end: Word, v: Word)
    requires Space(base, end) && base <= v < end
    ensures v / 0x100_0000_0000 == base / 0x100_0000_0000
    ensures base <= Page(v) < end && Page(Page(v)) == Page(v)
  {
  }

  /** The three indexes of an address of one address space determine its page, and the other way round. */
  lemma SamePage(base: Word, end: Word, v: Word, w: Word)
    requires Space(base, end) && base <= v < end && base <= w < end
    ensures Page(v) == Page(w) <==> Index0(v) == Index0(w) && Index1(v) == Index1(w) && IndexPte(v) == IndexPte(w)
  {
    Region(base, end, v);
    Region(base, end, w);
    Parts(v);
    Parts(w);
    PageNumber(v, w);
  }

  lemma PageNumber(v: Word, w: Word)
    ensures Page(v) == Page(w) <==> v / 0x2000 == w / 0x2000
    ensures v / 0x2000 == w / 0x2000 ==> Index0(v) == Index0(w) && Index1(v) == Index1(w) && IndexPte(v) == IndexPte(w)
  {
    assert v / 0x80_0000 == v / 0x2000 / 1024 && w / 0x80_0000 == w / 0x2000 / 1024;
    assert v / 0x2_0000_0000 == v / 0x2000 / 0x10_0000 && w / 0x2_0000_0000 == w / 0x2000 / 0x10_0000;
  }

  // ---------- The refill handler's arithmetic ----------

  /** dsrl and andi with a mask of `n` index bits above three zero bits. */
  function ByteOffset(v: Word, divisor: nat, n: nat): nat
    requires divisor > 0 && n > 0
  {
    v / divisor / 8 % n * 8
  }

  /** The shifted and masked register is eight times the index that the C code computes. */
  lemma Offsets(v: Word)
    ensures ByteOffset(v, 0x4000_0000, 128) == 8 * Index0(v)
    ensures ByteOffset(v, 0x10_0000, 1024) == 8 * Index1(v)
    ensures ByteOffset(v, 0x400, 1024) == 8 * IndexPte(v)
  {
  }
}

/**
  The three-level table (mk/cpu/mips/cpu/cpu_pmap.c) and the refill handler that walks it
  (mk/cpu/mips/cpu/cpu_vector.S).  A table page is a sequence of 1024 words.
 */
module PageTable {
  import opened Optional
  import opened Machine
  import opened Pte

  datatype Error = NotPermitted | NotFound

  datatype Result = Done | Fail(error: Error) | Panic

  /** What a table page is for: a level 0 page for a level 0 index, or a level 1 page for two indexes. */
  datatype Place = Level0(i: nat) | Level1(i: nat, j: nat)

  type Table = seq<Word>

  /** pmap_is_direct. */
  predicate Direct(v: Word) {
    0x8000_0000_0000_0000 <= v <= 0xbfff_ffff_ffff_ffff
  }

  /** XKPHYS_EXTRACT. */
  function DirectFrame(v: Word): Word {
    v % 0x0800_0000_0000_0000
  }

  /** The direct addresses are those whose top two bits are 10, and the frame is what is below bit 59. */
  lemma DirectExact(v: Word, cache: nat, frame: Word)
    requires cache < 8 && frame < 0x0800_0000_0000_0000
    ensures Direct(v) <==> v / 0x4000_0000_0000_0000 == 2
    ensures var a := 0x8000_0000_0000_0000 + cache * 0x0800_0000_0000_0000 + frame;
            a < WORD && Direct(a) && DirectFrame(a) == frame
  {
  }

  /** What this code stores in an entry: no software bits, and a whole page. */
  predicate Sane(e: Word) {
    e < 0x4000_0000 && PteToPa(e) % PAGE_SIZE == 0
  }

  class Pmap {
    const root: Word
    const base: Word
    const end: Word
    const kernel: bool
    var level0: seq<Word>
    var pages: map<Word, Table>
    ghost var owner: map<Word, Place>

    // ---------- What the tables mean ----------

    ghost predicate Owns(q: Word, place: Place)
      reads this
    {
      q in owner && owner[q] == place
    }

    ghost predicate TablePage(q: Word)
      reads this
    {
      q != 0 && Page(q) == q && Page(root) != q && q in pages && |pages[q]| == 1024
    }

    ghost predicate Linked0()
      reads this
    {
      |level0| == 128 && forall i :: 0 <= i < 128 && level0[i] != 0 ==> Owns(level0[i], Level0(i))
    }

    ghost predicate Linked1(q: Word)
      requires q in owner && q in pages && |pages[q]| == 1024
      reads this
    {
      match owner[q]
      case Level0(i) => forall j :: 0 <= j < 1024 && pages[q][j] != 0 ==> Owns(pages[q][j], Level1(i, j))
      case Level1(_, _) => forall k :: 0 <= k < 1024 ==> Sane(pages[q][k])
    }

    /** Every table page is linked once: from the slot that its place names. */
    ghost predicate Valid()
      reads this
    {
      && Space(base, end)
      && (kernel <==> base == KERNEL_BASE)
      && root % 8 == 0 && root % PAGE_SIZE + 1024 <= PAGE_SIZE
      && Linked0()
      && owner.Keys == pages.Keys
      && (forall q :: q in owner ==> TablePage(q) && Linked1(q))
    }

    predicate InRange(v: Word) {
      base <= v < end
    }

    /** The level 0 page and the level 1 page that the walk for an address reaches, or 0. */
    ghost function Walk0(v: Word): Word
      requires Valid()
      reads this
    {
      level0[Index0(v)]
    }

    ghost function Walk1(v: Word): Word
      requires Valid()
      reads this
    {
      var q := Walk0(v);
      if q == 0 then 0
      else
        assert Owns(q, Level0(Index0(v)));
        pages[q][Index1(v)]
    }

    lemma WalkOwns(v: Word)
      requires Valid()
      ensures Walk0(v) != 0 ==> Owns(Walk0(v), Level0(Index0(v)))
      ensures Walk1(v) != 0 ==> Owns(Walk1(v), Level1(Index0(v), Index1(v)))
    {
      if Walk0(v) != 0 {
        assert Owns(Walk0(v), Level0(Index0(v)));
        assert Linked1(Walk0(v));
      }
    }

    /** The entry that the walk reaches, or 0. */
    ghost function Entry(v: Word): Word
      requires Valid()
      reads this
    {
      WalkOwns(v);
      var q := Walk1(v);
      if q == 0 then 0 else pages[q][IndexPte(v)]
    }

    /** The partial map from addresses to the frames of their pages, which the tables stand for. */
    ghost function Frame(v: Word): Option<Word>
      requires Valid()
      reads this
    {
      if Flag(Entry(v), PG_V) then Some(PteToPa(Entry(v))) else None
    }

    /** How many table pages an entry for the address still lacks. */
    ghost function Missing(v: Word): nat
      requires Valid()
      reads this
    {
      if Walk0(v) == 0 then 2 else if Walk1(v) == 0 then 1 else 0
    }

    /** Addresses of pages that are in no use, all different. */
    ghost predicate Spare(supply: seq<Word>)
      reads this
    {
      && (forall k :: 0 <= k < |supply| ==>
            supply[k] != 0 && Page(supply[k]) == supply[k] && Page(root) != supply[k] && supply[k] !in pages)
      && (forall k, l :: 0 <= k < l < |supply| ==> supply[k] != supply[l])
    }

    // ---------- cpu_pmap.c ----------

    /** pmap_pinit. */
    constructor (root: Word, base: Word, end: Word)
      requires Space(base, end) && root % 8 == 0 && root % PAGE_SIZE + 1024 <= PAGE_SIZE
      ensures Valid() && this.root == root && this.base == base && this.end == end
      ensures forall v: Word :: Frame(v) == None
    {
      this.root, this.base, this.end, this.kernel := root, base, end, base == KERNEL_BASE;
      level0, pages, owner := seq(128, _ => 0), map[], map[];
      new;
      assert forall p :: Entry(p) == 0;
    }

    /** pmap_find: the level 1 page that holds the entry for `v`, or 0. */
    method Find(v: Word) returns (q: Word)
      requires Valid()
      ensures q == if InRange(v) then Walk1(v) else 0
      ensures q != 0 ==> Owns(q, Level1(Index0(v), Index1(v))) && pages[q][IndexPte(v)] == Entry(v)
    {
      WalkOwns(v);
      if !InRange(v) {
        return 0;
      }
      var q0 := level0[Index0(v)];
      if q0 == 0 {
        return 0;
      }
      q := pages[q0][Index1(v)];
    }

    /** pmap_extract of a page address that is not directly mapped. */
    method Lookup(p: Word) returns (r: Result, pa: Word)
      requires Valid() && Page(p) == p
      ensures !InRange(p) ==> r == Fail(NotPermitted)
      ensures InRange(p) ==> if Frame(p).Some? then r == Done && pa == Frame(p).value else r == Fail(NotFound)
    {
      if !InRange(p) {
        return Fail(NotPermitted), 0;
      }
      var q := Find(p);
      if q == 0 {
        return Fail(NotFound), 0;
      }
      var pte := pages[q][IndexPte(p)];
      if !Flag(pte, PG_V) {
        return Fail(NotFound), 0;
      }
      return Done, PteToPa(pte);
    }

    method Extract(v: Word) returns (r: Result, pa: Word)
      requires Valid()
      ensures Direct(Page(v)) ==> if kernel then r == Done && pa == DirectFrame(Page(v)) else r == Fail(NotPermitted)
      ensures !Direct(Page(v)) && !InRange(Page(v)) ==> r == Fail(NotPermitted)
      ensures !Direct(Page(v)) && InRange(Page(v)) ==>
                if Frame(v).Some? then r == Done && pa == Frame(v).value else r == Fail(NotFound)
    {
      var p := Page(v);
      PageOfPage(v);
      if Direct(p) {
        if !kernel {
          return Fail(NotPermitted), 0;
        }
        return Done, DirectFrame(p);
      }
      SameFrame(p, v);
      r, pa := Lookup(p);
    }

    /** Addresses in one page have the same entry. */
    lemma SameFrame(v: Word, w: Word)
      requires Valid() && Page(v) == Page(w)
      ensures Entry(v) == Entry(w)
    {
      PageNumber(v, w);
    }

    /** atomic_store64 to the entry of `v`. */
    method Store(q: Word, v: Word, e: Word)
      requires Valid() && InRange(v) && Owns(q, Level1(Index0(v), Index1(v))) && q == Walk1(v) && Sane(e)
      modifies this`pages
      ensures Valid()
      ensures forall w: Word :: InRange(w) ==> Entry(w) == if Page(w) == Page(v) then e else old(Entry(w))
      ensures pages.Keys == old(pages.Keys)
    {
      var table: Table := pages[q][IndexPte(v) := e];
      pages := pages[q := table];
      assert forall x :: x in owner ==> TablePage(x) && Linked1(x);
      forall w: Word | InRange(w) ensures Entry(w) == if Page(w) == Page(v) then e else old(Entry(w)) {
        SamePage(base, end, v, w);
        WalkOwns(w);
      }
    }

    /** The page is all zeros. */
    ghost predicate Blank(q: Word)
      reads this
    {
      q in pages && |pages[q]| == 1024 && forall i :: 0 <= i < 1024 ==> pages[q][i] == 0
    }

    /** A zeroed page is allocated for a place, and not yet linked. */
    method AddPage(q: Word, ghost place: Place)
      requires Valid() && Spare([q])
      modifies this`pages, this`owner
      ensures Valid() && Owns(q, place) && Blank(q)
      ensures forall w: Word :: Walk0(w) == old(Walk0(w)) && Walk1(w) == old(Walk1(w)) && Entry(w) == old(Entry(w))
      ensures pages.Keys == old(pages.Keys) + {q}
    {
      assert q == [q][0];
      var zero: Table := seq(1024, _ => 0);
      forall w: Word {
        WalkOwns(w);
      }
      pages := pages[q := zero];
      owner := owner[q := place];
    }

    /** The page becomes the level 0 page for `v`. */
    method SetLevel0(v: Word, q: Word)
      requires Valid() && Walk0(v) == 0 && q != 0 && Owns(q, Level0(Index0(v))) && Blank(q)
      modifies this`level0
      ensures Valid() && Walk0(v) == q && Walk1(v) == 0
      ensures forall w: Word :: Entry(w) == old(Entry(w))
    {
      forall w: Word {
        WalkOwns(w);
      }
      level0 := level0[Index0(v) := q];
    }

    /** The page becomes the level 1 page for `v`. */
    method SetLevel1(v: Word, q: Word)
      requires Valid() && Walk0(v) != 0 && Walk1(v) == 0 && q != 0 && Owns(q, Level1(Index0(v), Index1(v))) && Blank(q)
      modifies this`pages
      ensures Valid() && Walk1(v) == q
      ensures forall w: Word :: Entry(w) == old(Entry(w))
      ensures pages.Keys == old(pages.Keys)
    {
      var q0 := level0[Index0(v)];
      WalkOwns(v);
      forall w: Word {
        WalkOwns(w);
      }
      var table: Table := pages[q0][Index1(v) := q];
      pages := pages[q0 := table];
    }

    /** Links a zeroed page as level 0 page for `v`. */
    method Link0(v: Word, q: Word)
      requires Valid() && Walk0(v) == 0 && Spare([q])
      modifies this
      ensures Valid() && Walk0(v) == q && Walk1(v) == 0
      ensures forall w: Word :: Entry(w) == old(Entry(w))
      ensures pages.Keys == old(pages.Keys) + {q}
    {
      AddPage(q, Level0(Index0(v)));
      SetLevel0(v, q);
    }

    /** Links a zeroed page as level 1 page for `v`. */
    method Link1(v: Word, q: Word)
      requires Valid() && Walk0(v) != 0 && Walk1(v) == 0 && Spare([q])
      modifies this
      ensures Valid() && Walk1(v) == q
      ensures forall w: Word :: Entry(w) == old(Entry(w))
      ensures pages.Keys == old(pages.Keys) + {q}
    {
      AddPage(q, Level1(Index0(v), Index1(v)));
      SetLevel1(v, q);
    }

    /** pmap_alloc_pte: links the table pages that `v` lacks, from pages that page_alloc_direct would give. */
    method AllocPte(v: Word, supply: seq<Word>) returns (ok: bool)
      requires Valid() && Spare(supply)
      modifies this
      ensures Valid() && (ok <==> |supply| >= old(Missing(v))) && (ok ==> Walk1(v) != 0)
      ensures forall w: Word :: Entry(w) == old(Entry(w))
    {
      var rest := supply;
      if level0[Index0(v)] == 0 {
        if rest == [] {
          return false;
        }
        Link0(v, rest[0]);
        rest := rest[1..];
      }
      WalkOwns(v);
      var q0 := level0[Index0(v)];
      if pages[q0][Index1(v)] == 0 {
        if rest == [] {
          return false;
        }
        assert Spare([rest[0]]);
        Link1(v, rest[0]);
      }
      return true;
    }

    /** pmap_map: an update of the map at the page of `v`. */
    method Map(v: Word, pa: Word, supply: seq<Word>) returns (r: Result)
      requires Valid() && Spare(supply) && pa % PAGE_SIZE == 0
      modifies this
      ensures Valid()
      ensures r == Fail(NotPermitted) <==> !InRange(v)
      ensures r == Panic <==> InRange(v) && (|supply| < old(Missing(v)) || old(Frame(v)) == Some(pa))
      ensures r == Done ==> forall w: Word :: InRange(w) ==>
                Frame(w) == if Page(w) == Page(v) then Some(pa % 0x10_0000_0000) else old(Frame(w))
      ensures r == Done ==> Flags(Entry(v)) == (PG_V + PG_C_CNC + (if kernel then PG_G else 0), 0)
      ensures r != Done ==> forall w: Word :: Frame(w) == old(Frame(w))
    {
      if !InRange(v) {
        return Fail(NotPermitted);
      }
      var ok := AllocPte(v, supply);
      if !ok {
        return Panic;
      }
      var flags := PG_V + (if kernel then PG_G else 0) + PG_C_CNC;
      r := Update(v, pa, flags);
    }

    /** pmap_update. */
    method Update(v: Word, pa: Word, flags: Word) returns (r: Result)
      requires Valid() && InRange(v) && Walk1(v) != 0 && pa % PAGE_SIZE == 0
      requires flags < 0x40 && Flag(flags, PG_V)
      modifies this`pages
      ensures Valid() && r == if old(Frame(v)) == Some(pa) then Panic else Done
      ensures r == Done ==> forall w: Word :: InRange(w) ==>
                Frame(w) == if Page(w) == Page(v) then Some(pa % 0x10_0000_0000) else old(Frame(w))
      ensures r == Done ==> Entry(v) == MakePte(pa, flags)
      ensures r == Panic ==> forall w: Word :: Frame(w) == old(Frame(w))
    {
      var p := Page(v);
      Region(base, end, v);
      PageNumber(p, v);
      SameFrame(p, v);
      var q := Find(p);
      var old_pte := pages[q][IndexPte(p)];
      if Flag(old_pte, PG_V) && PteToPa(old_pte) == pa {
        return Panic;
      }
      NewEntry(pa, flags);
      Store(q, p, MakePte(pa, flags));
      return Done;
    }

    /** pmap_unmap: removes the page of `v` from the map. */
    method Unmap(v: Word) returns (r: Result)
      requires Valid()
      modifies this`pages
      ensures Valid()
      ensures r == if InRange(v) && old(Walk1(v)) != 0 then Done else Fail(NotFound)
      ensures forall w: Word :: InRange(v) && InRange(w) ==>
                Frame(w) == if Page(w) == Page(v) then None else old(Frame(w))
      ensures r != Done ==> pages == old(pages)
    {
      var q := Find(v);
      if q == 0 {
        if InRange(v) {
          NothingThere(v);
        }
        return Fail(NotFound);
      }
      if !Flag(pages[q][IndexPte(v)], PG_V) {
        NothingThere(v);
        return Done;
      }
      Store(q, v, 0);
      return Done;
    }

    /** What is not mapped at an address is not mapped in its page. */
    lemma NothingThere(v: Word)
      requires Valid() && Frame(v) == None
      ensures forall w: Word :: Page(w) == Page(v) ==> Frame(w) == None
    {
      forall w: Word | Page(w) == Page(v) ensures Frame(w) == None {
        SameFrame(w, v);
      }
    }

    /**
      What the processor gets: after a page is mapped, the refill for any address in it loads its two
      halves, global for the kernel alone, valid and cached.
     */
    method MapRefill(v: Word, w: Word, pa: Word, supply: seq<Word>) returns (r: Result, lo0: Word, lo1: Word)
      requires Valid() && Spare(supply) && pa % PAGE_SIZE == 0 && Page(w) == Page(v) && InRange(w)
      modifies this
      ensures Valid()
      ensures r == Done ==>
                && PteToPa(lo0) == pa % 0x10_0000_0000 && PteToPa(lo1) == pa % 0x10_0000_0000 + TLB_PAGE_SIZE
                && Flags(lo0) == Flags(lo1) == (PG_V + PG_C_CNC + (if kernel then PG_G else 0), 0)
    {
      lo0, lo1 := 0, 0;
      r := Map(v, pa, supply);
      if r == Done {
        SameFrame(v, w);
        var hit;
        hit, lo0, lo1 := Refill(w);
      }
    }

    // ---------- cpu_vector.S ----------

    /** A doubleword of memory: the level 0 slots in struct pmap, or a slot of a table page. */
    function Load(a: Word): Word
      requires Valid()
      reads this
    {
      if root <= a < root + 1024 then level0[(a - root) / 8]
      else if Page(a) in pages then
        assert TablePage(Page(a));
        pages[Page(a)][a % PAGE_SIZE / 8]
      else 0
    }

    lemma LoadRoot(i: nat)
      requires Valid() && i < 128
      ensures root + 8 * i < WORD && Load(root + 8 * i) == level0[i]
    {
      RootEnd(root);
    }

    lemma LoadTable(q: Word, i: nat)
      requires Valid() && q in pages && i < 1024
      ensures q + 8 * i < WORD && Load(q + 8 * i) == pages[q][i]
    {
      assert TablePage(q);
      SlotPage(q, i);
      if root <= q + 8 * i < root + 1024 {
        RootPage(root, q + 8 * i);
      }
    }

    /**
      The table walk of tlb_exception, for an address of this address space: shifts, masks and
      loads, without the bounds that pmap_find checks.
     */
    method Refill(v: Word) returns (hit: bool, lo0: Word, lo1: Word)
      requires Valid() && InRange(v)
      ensures hit <==> Frame(v).Some?
      ensures hit ==> lo0 == Entry(v) && PteToPa(lo0) == Frame(v).value
      ensures hit ==> PteToPa(lo1) == Frame(v).value + TLB_PAGE_SIZE && Flags(lo1) == Flags(lo0)
    {
      lo0, lo1 := 0, 0;
      WalkOwns(v);
      Offsets(v);
      LoadRoot(Index0(v));
      var k0: nat := ByteOffset(v, 0x4000_0000, 128);
      var k1: Word := Load(root + k0);
      if k1 == 0 {
        return false, 0, 0;
      }
      LoadTable(k1, Index1(v));
      k0 := ByteOffset(v, 0x10_0000, 1024);
      k1 := Load(k1 + k0);
      if k1 == 0 {
        return false, 0, 0;
      }
      assert Owns(k1, Level1(Index0(v), Index1(v)));
      assert Linked1(k1);
      LoadTable(k1, IndexPte(v));
      k0 := ByteOffset(v, 0x400, 1024);
      k1 := Load(k1 + k0);
      if !Flag(k1, PG_V) {
        return false, 0, 0;
      }
      assert Sane(k1);
      SecondHalf(k1);
      lo0 := k1;
      lo1 := k1 + PaToPfn(TLB_PAGE_SIZE);
      return true, lo0, lo1;
    }
  }

  lemma RootEnd(root: Word)
    requires root % PAGE_SIZE + 1024 <= PAGE_SIZE
    ensures root + 1024 <= WORD
  {
  }

  /** A slot of a table page lies in that page, at its index. */
  lemma SlotPage(q: Word, i: nat)
    requires Page(q) == q && i < 1024
    ensures q + 8 * i < WORD && Page(q + 8 * i) == q && (q + 8 * i) % PAGE_SIZE / 8 == i
  {
    var n := q / PAGE_SIZE;
    assert q == n * PAGE_SIZE;
    assert (q + 8 * i) / PAGE_SIZE == n;
  }

  /** The level 0 slots lie in one page. */
  lemma RootPage(root: Word, a: Word)
    requires root % PAGE_SIZE + 1024 <= PAGE_SIZE && root <= a < root + 1024
    ensures Page(a) == Page(root)
  {
  }

  lemma PageOfPage(v: Word)
    ensures Page(Page(v)) == Page(v)
  {
  }

  lemma Halves(n: nat, f: nat)
    ensures (2 * n + f) / 2 == n + f / 2 && (2 * n + f) % 2 == f % 2
  {
  }

  lemma FlagKept(pfn: nat, flags: nat)
    ensures (pfn * 0x40 + flags) / PG_V % 2 == flags / PG_V % 2
  {
    Halves(pfn * 0x20, flags);
    Halves(pfn * 0x10, flags / 2);
  }

  /** Bits 12 to 35 of a page address are the address below 2^36. */
  lemma PageBits(pa: Word)
    requires pa % PAGE_SIZE == 0
    ensures pa / 0x1000 % 0x100_0000 * 0x1000 == pa % 0x10_0000_0000
    ensures pa % 0x10_0000_0000 % PAGE_SIZE == 0
  {
    var n := pa / PAGE_SIZE;
    assert pa == n * PAGE_SIZE;
    Tlbs(n);
    TwiceMod(n);
    PagesMod(n);
  }

  lemma Tlbs(n: nat)
    ensures n * PAGE_SIZE / 0x1000 == 2 * n
  {
  }

  lemma TwiceMod(n: nat)
    ensures 2 * n % 0x100_0000 == 2 * (n % 0x80_0000)
  {
    var q, m := n / 0x80_0000, n % 0x80_0000;
    assert 2 * n == q * 0x100_0000 + 2 * m;
  }

  lemma PagesMod(n: nat)
    ensures n * PAGE_SIZE % 0x10_0000_0000 == n % 0x80_0000 * PAGE_SIZE
    ensures n * PAGE_SIZE % 0x10_0000_0000 % PAGE_SIZE == 0
  {
    var q, m := n / 0x80_0000, n % 0x80_0000;
    assert n * PAGE_SIZE == q * 0x10_0000_0000 + m * PAGE_SIZE;
  }

  /** The new entry is valid, sane, and holds the frame. */
  lemma NewEntry(pa: Word, flags: Word)
    requires pa % PAGE_SIZE == 0 && flags < 0x40 && Flag(flags, PG_V)
    ensures Sane(MakePte(pa, flags)) && Flag(MakePte(pa, flags), PG_V)
    ensures PteToPa(MakePte(pa, flags)) == pa % 0x10_0000_0000
  {
    FrameStored(pa, flags);
    PageBits(pa);
    FlagKept(PaToPfn(pa) / 0x40, flags);
    assert PaToPfn(pa) == PaToPfn(pa) / 0x40 * 0x40;
  }
}
