/** Reference counts, queues and the uses of pages they stand for. */
module PageQueues {
  import opened Machine
  import opened PageDescriptors
  import opened Queues
  import opened Optional

  /** An address of an address space. */
  type Key = (nat, nat)

  /** Who has the reference that page_alloc gave, or that page_insert_pages keeps for the tree page. */
  datatype Owner = Holder | InMessage | TreePage

  /** The addresses that a page is mapped at. */
  ghost function Keys(maps: map<Key, Page>, p: Page): set<Key> {
    set k | k in maps && maps[k] == p
  }

  lemma KeysAdd(maps: map<Key, Page>, k: Key, p: Page, x: Page)
    requires k !in maps
    ensures |Keys(maps[k := p], x)| == |Keys(maps, x)| + if x == p then 1 else 0
  {
    assert Keys(maps[k := p], x) == Keys(maps, x) + if x == p then {k} else {};
  }

  lemma KeysDrop(maps: map<Key, Page>, k: Key, x: Page)
    requires k in maps
    ensures |Keys(maps - {k}, x)| == |Keys(maps, x)| - if x == maps[k] then 1 else 0
  {
    assert Keys(maps - {k}, x) == Keys(maps, x) - if x == maps[k] then {k} else {};
    assert x == maps[k] ==> k in Keys(maps, x);
  }

  /** The entries from the second up to the n-th, in order. */
  ghost function Entries(frame: Frame, n: nat): seq<Page> {
    if n <= 1 then [] else Entries(frame, n - 1) + [Descriptor(frame, n - 1)]
  }

  ghost function Span(frame: Frame, n: nat): set<Page> {
    set i | 0 <= i < n :: Descriptor(frame, i)
  }

  lemma SpanNext(frame: Frame, n: nat)
    ensures Span(frame, n + 1) == Span(frame, n) + {Descriptor(frame, n)}
    ensures Descriptor(frame, n) !in Span(frame, n)
  {
  }

  lemma SetTwice(refs: map<Page, nat>, p: Page, a: nat, b: nat)
    ensures refs[p := a][p := b] == refs[p := b]
  {
  }

  lemma RemoveFirst(q: seq<Page>)
    requires q != []
    ensures Remove(q, q[0]) == q[1..]
  {
  }

  lemma {:induction false} RemoveLast(q: seq<Page>, p: Page)
    requires p !in q
    ensures Remove(q + [p], p) == q
  {
    if q == [] {
      assert q + [p] == [p];
    } else {
      assert (q + [p])[1..] == q[1..] + [p];
      RemoveLast(q[1..], p);
    }
  }

  /** A page without a descriptor has no uses. */
  lemma Unused(maps: map<Key, Page>, direct: multiset<Page>, refs: map<Page, nat>, p: Page)
    requires p !in refs && (forall k :: k in maps ==> maps[k] in refs) && (forall x :: x in direct ==> x in refs)
    ensures Keys(maps, p) == {} && direct[p] == 0
  {
  }

  /** A page is on the free queue exactly when it has no references, and on the use queue otherwise. */
  ghost predicate Queued(free: seq<Page>, use: seq<Page>, refs: map<Page, nat>) {
    && NoRepeats(free) && NoRepeats(use)
    && (forall p :: p in free <==> p in refs && refs[p] == 0)
    && (forall p :: p in use <==> p in refs && refs[p] != 0)
  }

  /** How page_map ends: pmap_update panics over an address that maps the same page. */
  datatype Mapping = Done | Refused | Panic

  /** References of a page: its mappings, its direct mappings, and one for its owner. */
  ghost function Uses(maps: map<Key, Page>, direct: multiset<Page>, owners: map<Page, Owner>, p: Page): nat {
    |Keys(maps, p)| + direct[p] + if p in owners then 1 else 0
  }

  /** Every page has as many references as uses. */
  ghost predicate Counted(refs: map<Page, nat>, maps: map<Key, Page>, direct: multiset<Page>, owners: map<Page, Owner>) {
    && (forall p :: p in refs ==> refs[p] == Uses(maps, direct, owners, p))
    && (forall k :: k in maps ==> maps[k] in refs)
    && (forall p :: p in direct ==> p in refs)
    && (forall p :: p in owners ==> p in refs)
  }

  /** One mapping and one reference more. */
  lemma CountedMapped(refs: map<Page, nat>, maps: map<Key, Page>, direct: multiset<Page>, owners: map<Page, Owner>,
                      k: Key, p: Page)
    requires Counted(refs, maps, direct, owners) && p in refs && k !in maps
    ensures Counted(refs[p := refs[p] + 1], maps[k := p], direct, owners)
  {
    forall x ensures Uses(maps[k := p], direct, owners, x) == Uses(maps, direct, owners, x) + if x == p then 1 else 0 {
      KeysAdd(maps, k, p, x);
    }
  }

  /** One mapping and one reference less. */
  lemma CountedUnmapped(refs: map<Page, nat>, maps: map<Key, Page>, direct: multiset<Page>, owners: map<Page, Owner>,
                        k: Key)
    requires Counted(refs, maps, direct, owners) && k in maps
    ensures refs[maps[k]] > 0 && Counted(refs[maps[k] := refs[maps[k]] - 1], maps - {k}, direct, owners)
  {
    assert k in Keys(maps, maps[k]);
    forall x
      ensures Uses(maps - {k}, direct, owners, x) == Uses(maps, direct, owners, x) - if x == maps[k] then 1 else 0
    {
      KeysDrop(maps, k, x);
    }
  }

  /** Over another page's mapping: that page keeps a reference that nobody will drop. */
  lemma CountedOver(refs: map<Page, nat>, maps: map<Key, Page>, direct: multiset<Page>, owners: map<Page, Owner>,
                    k: Key, p: Page)
    requires Counted(refs, maps, direct, owners) && p in refs && k in maps && maps[k] != p
    ensures !Counted(refs[p := refs[p] + 1], maps[k := p], direct, owners)
  {
    var q := maps[k];
    KeysDrop(maps, k, q);
    assert Keys(maps[k := p], q) == Keys(maps - {k}, q);
  }

  /** A page is on the free queue exactly when nobody maps it and nobody owns it. */
  lemma FreeIsUnused(free: seq<Page>, use: seq<Page>, refs: map<Page, nat>, maps: map<Key, Page>,
                     direct: multiset<Page>, owners: map<Page, Owner>, p: Page)
    requires Queued(free, use, refs) && Counted(refs, maps, direct, owners) && p in refs
    ensures p in free <==> p !in maps.Values && p !in direct && p !in owners
    ensures p in use <==> p !in free
  {
    if p in maps.Values {
      var k :| k in maps && maps[k] == p;
      assert k in Keys(maps, p);
    } else {
      assert Keys(maps, p) == {};
    }
  }

  lemma ThereAndBack(refs: map<Page, nat>, p: Page)
    requires p in refs && refs[p] > 0
    ensures refs[p := refs[p] - 1][p := refs[p]] == refs
  {
  }

  /** A page taken and given back leaves no trace in the counts. */
  lemma TakenAndBack(refs: map<Page, nat>, owners: map<Page, Owner>, p: Page)
    requires p in refs && refs[p] == 0 && p !in owners
    ensures refs[p := 1][p := 0] == refs && refs[p := 1][p := 2] == refs[p := 2]
    ensures owners[p := Holder] - {p} == owners
  {
  }

  /** A new page with one reference, which is its tree page's. */
  lemma CountedFirst(refs: map<Page, nat>, maps: map<Key, Page>, direct: multiset<Page>, owners: map<Page, Owner>, p: Page)
    requires Counted(refs, maps, direct, owners) && p !in refs
    ensures Counted(refs[p := 1], maps, direct, owners[p := TreePage])
  {
    Unused(maps, direct, refs, p);
  }

  lemma CountedPassed(refs: map<Page, nat>, maps: map<Key, Page>, direct: multiset<Page>, owners: map<Page, Owner>,
                      p: Page, o: Owner)
    requires Counted(refs, maps, direct, owners) && p in owners
    ensures Counted(refs, maps, direct, owners[p := o])
  {
  }

  lemma CountedFree(refs: map<Page, nat>, maps: map<Key, Page>, direct: multiset<Page>, owners: map<Page, Owner>, p: Page)
    requires Counted(refs, maps, direct, owners) && p !in refs
    ensures Counted(refs[p := 0], maps, direct, owners)
  {
    Unused(maps, direct, refs, p);
  }

  /** What a caller may do with pages. */
  datatype Op =
    | Alloc
    | Release(p: Page)
    | Map(k: Key, p: Page, fits: bool)
    | Unmap(k: Key)
    | MapDirect(p: Page)
    | UnmapDirect(p: Page)
    | AllocMap(k: Key, fits: bool)
    | FreeMap(k: Key)
    | Send(k: Key)
    | SendDirect(p: Page)
    | Receive(p: Page, k: Key)
    | ReceiveDirect(p: Page)
    | Discard(p: Page)

  /** An owner other than a tree page passes a page on, or gives it up. */
  lemma OwnerKept(owners: map<Page, Owner>, p: Page, o: Owner)
    requires p in owners && owners[p] != TreePage
    ensures TreePagesKept(owners, owners[p := o]) && TreePagesKept(owners, owners - {p})
  {
  }

  ghost predicate TreePagesKept(before: map<Page, Owner>, after: map<Page, Owner>) {
    forall p :: p in before && before[p] == TreePage ==> p in after && after[p] == TreePage
  }

  class PageQueues {
    var free: seq<Page>
    var use: seq<Page>
    var refs: map<Page, nat>
    /** What the page tables of all address spaces map. */
    var maps: map<Key, Page>
    ghost var direct: multiset<Page>
    ghost var owners: map<Page, Owner>

    ghost predicate Valid()
      reads this
    {
      Queued(free, use, refs) && Counted(refs, maps, direct, owners)
    }

    constructor ()
      ensures Valid() && refs == map[] && maps == map[] && owners == map[] && direct == multiset{}
    {
      free, use, refs, maps, direct, owners := [], [], map[], map[], multiset{}, map[];
    }

    // ---------- page_insert, page_ref_hold, page_ref_drop ----------

    method Insert(p: Page)
      requires Queued(free, use, refs) && p !in refs
      modifies this`free, this`refs
      ensures Queued(free, use, refs) && refs == old(refs)[p := 0]
      ensures free == old(free) + [p]
    {
      refs := refs[p := 0];
      free := free + [p];
    }

    method Hold(p: Page)
      requires Queued(free, use, refs) && p in refs && refs[p] + 1 < UNSIGNED
      modifies this`free, this`use, this`refs
      ensures Queued(free, use, refs) && refs == old(refs)[p := old(refs)[p] + 1]
      ensures refs.Keys == old(refs.Keys)
      ensures free == (if old(refs)[p] == 0 then Remove(old(free), p) else old(free))
      ensures use == (if old(refs)[p] == 0 then old(use) + [p] else old(use))
    {
      if refs[p] == 0 {
        RemoveFacts(free, p);
        free := Remove(free, p);
        use := use + [p];
      }
      refs := refs[p := refs[p] + 1];
    }

    method Drop(p: Page)
      requires Queued(free, use, refs) && p in refs && refs[p] != 0
      modifies this`free, this`use, this`refs
      ensures Queued(free, use, refs) && refs == old(refs)[p := old(refs)[p] - 1]
      ensures refs.Keys == old(refs.Keys)
      ensures use == (if old(refs)[p] == 1 then Remove(old(use), p) else old(use))
      ensures free == (if old(refs)[p] == 1 then old(free) + [p] else old(free))
    {
      refs := refs[p := refs[p] - 1];
      if refs[p] == 0 {
        RemoveFacts(use, p);
        use := Remove(use, p);
        free := free + [p];
      }
    }

    /** The first reference of the first free page. */
    method HoldFirst()
      requires Queued(free, use, refs) && free != []
      modifies this`free, this`use, this`refs
      ensures Queued(free, use, refs) && old(free)[0] in old(refs) && refs == old(refs)[old(free)[0] := 1]
      ensures free == old(free)[1..] && use == old(use) + [old(free)[0]]
    {
      assert free[0] in free;
      RemoveFirst(free);
      Hold(free[0]);
    }

    /** One more reference of a page in use. */
    method HoldMore(p: Page)
      requires Queued(free, use, refs) && p in refs && 0 < refs[p] && refs[p] + 1 < UNSIGNED
      modifies this`free, this`use, this`refs
      ensures Queued(free, use, refs) && refs == old(refs)[p := old(refs)[p] + 1] && refs.Keys == old(refs.Keys)
      ensures free == old(free) && use == old(use)
    {
      Hold(p);
    }

    /** One reference less of a page that stays in use. */
    method DropSome(p: Page)
      requires Queued(free, use, refs) && p in refs && refs[p] > 1
      modifies this`free, this`use, this`refs
      ensures Queued(free, use, refs) && refs == old(refs)[p := old(refs)[p] - 1] && refs.Keys == old(refs.Keys)
      ensures free == old(free) && use == old(use)
    {
      Drop(p);
    }

    /** A reference taken and given back, around a mapping that is refused. */
    method HoldDrop(p: Page)
      requires Queued(free, use, refs) && p in refs && 0 < refs[p] && refs[p] + 1 < UNSIGNED
      modifies this`free, this`use, this`refs
      ensures Queued(free, use, refs) && refs == old(refs) && free == old(free) && use == old(use)
    {
      HoldMore(p);
      DropSome(p);
      assert refs == old(refs);
    }

    method InsertFree(p: Page)
      requires Valid() && p !in refs
      modifies this`free, this`refs
      ensures Valid() && refs == old(refs)[p := 0] && free == old(free) + [p]
    {
      CountedFree(refs, maps, direct, owners, p);
      Insert(p);
    }

    method InsertHeld(p: Page)
      requires Queued(free, use, refs) && p !in refs
      modifies this`free, this`use, this`refs
      ensures Queued(free, use, refs) && refs == old(refs)[p := 1]
      ensures free == old(free) && use == old(use) + [p]
    {
      Insert(p);
      RemoveLast(old(free), p);
      Hold(p);
    }

    /** The entry for the tree page itself. */
    method InsertFirst(p: Page)
      requires Valid() && p !in refs
      modifies this`free, this`use, this`refs, this`owners
      ensures Valid() && refs == old(refs)[p := 1] && owners == old(owners)[p := TreePage] && free == old(free)
    {
      CountedFirst(refs, maps, direct, owners, p);
      InsertHeld(p);
      owners := owners[p := TreePage];
    }

    /** The inner loop of page_insert_pages: the first `n` entries of a tree page, the first of them held for good. */
    method InsertSpan(frame: Frame, n: nat)
      requires Valid() && 0 < n <= ENTRIES && forall i :: 0 <= i < n ==> Descriptor(frame, i) !in refs
      modifies this`free, this`use, this`refs, this`owners
      ensures Valid() && refs.Keys == old(refs.Keys) + Span(frame, n)
      ensures owners == old(owners)[Descriptor(frame, 0) := TreePage] && free == old(free) + Entries(frame, n)
      ensures forall p :: p in old(refs) ==> refs[p] == old(refs)[p]
    {
      ghost var before, held, queue := refs, owners[Descriptor(frame, 0) := TreePage], free;
      InsertStart(frame, before, held, queue);
      var i := 1;
      while i < n
        invariant 1 <= i <= n && Spanned(frame, i, before, held, queue)
      {
        InsertNext(frame, i, before, held, queue);
        i := i + 1;
      }
    }

    method InsertStart(frame: Frame, ghost before: map<Page, nat>, ghost held: map<Page, Owner>, ghost queue: seq<Page>)
      requires Valid() && Descriptor(frame, 0) !in refs
      requires before == refs && held == owners[Descriptor(frame, 0) := TreePage] && queue == free
      modifies this`free, this`use, this`refs, this`owners
      ensures Spanned(frame, 1, before, held, queue)
    {
      InsertFirst(Descriptor(frame, 0));
      assert Span(frame, 1) == {Descriptor(frame, 0)};
    }

    /** The first `i` entries are in, and nothing else has changed. */
    ghost predicate Spanned(frame: Frame, i: nat, before: map<Page, nat>, held: map<Page, Owner>, queue: seq<Page>)
      reads this
    {
      && Valid() && owners == held && free == queue + Entries(frame, i)
      && refs.Keys == before.Keys + Span(frame, i)
      && forall p :: p in before ==> refs[p] == before[p]
    }

    method InsertNext(frame: Frame, i: nat, ghost before: map<Page, nat>, ghost held: map<Page, Owner>,
                      ghost queue: seq<Page>)
      requires i > 0 && Spanned(frame, i, before, held, queue) && Descriptor(frame, i) !in before
      modifies this`free, this`refs
      ensures Spanned(frame, i + 1, before, held, queue)
    {
      SpanNext(frame, i);
      InsertFree(Descriptor(frame, i));
    }

    // ---------- Allocation and release ----------

    /** page_alloc: takes the first free page; its one reference is the caller's. */
    method Alloc() returns (r: Option<Page>)
      requires Valid()
      modifies this`free, this`use, this`refs, this`owners
      ensures Valid()
      ensures r.None? <==> old(free) == []
      ensures r.None? ==> refs == old(refs) && owners == old(owners)
      ensures r.Some? ==>
                && r.value == old(free)[0] && r.value in old(refs) && old(refs)[r.value] == 0
                && r.value !in old(owners)
                && refs == old(refs)[r.value := 1] && owners == old(owners)[r.value := Holder]
      ensures refs.Keys == old(refs.Keys)
      ensures r.None? ==> free == old(free) && use == old(use)
      ensures r.Some? ==> free == old(free)[1..] && use == old(use) + [r.value]
    {
      if free == [] {
        return None;
      }
      var p := free[0];
      assert p in free;
      assert p !in owners;
      HoldFirst();
      owners := owners[p := Holder];
      return Some(p);
    }

    /** page_release: the owner gives the page up; nothing else may use it. */
    method Release(p: Page)
      requires Valid() && p in owners && owners[p] != TreePage && refs[p] == 1
      modifies this`free, this`use, this`refs, this`owners
      ensures Valid() && refs == old(refs)[p := 0] && owners == old(owners) - {p} && p in free
      ensures refs.Keys == old(refs.Keys)
      ensures free == old(free) + [p] && use == Remove(old(use), p)
    {
      Drop(p);
      owners := owners - {p};
    }

    /** ... where nobody asks for the use queue. */
    method GiveUp(p: Page)
      requires Valid() && p in owners && owners[p] != TreePage && refs[p] == 1
      modifies this`free, this`use, this`refs, this`owners
      ensures Valid() && refs == old(refs)[p := 0] && owners == old(owners) - {p} && free == old(free) + [p]
    {
      Release(p);
    }

    lemma OwnedUsed(p: Page)
      requires Valid() && p in owners
      ensures p in refs && refs[p] > 0
    {
    }

    // ---------- Mappings ----------

    /**
      page_map; `fits` is whether pmap_map accepts the address.  It does not ask what is mapped
      there: the counts are right afterwards if and only if nothing was.
     */
    method Map(k: Key, p: Page, fits: bool) returns (r: Mapping)
      requires Valid() && p in owners && refs[p] + 1 < UNSIGNED
      modifies this`free, this`use, this`refs, this`maps
      ensures r == if !fits then Refused else if k in old(maps) && old(maps)[k] == p then Panic else Done
      ensures maps == (if r == Done then old(maps)[k := p] else old(maps))
      ensures refs == (if r == Refused then old(refs) else old(refs)[p := old(refs)[p] + 1])
      ensures Queued(free, use, refs)
      ensures r == Refused ==> Valid()
      ensures r == Done ==> (Valid() <==> k !in old(maps))
      ensures refs.Keys == old(refs.Keys)
      ensures free == old(free) && use == old(use)
    {
      OwnedUsed(p);
      if !fits {
        HoldDrop(p);
        return Refused;
      }
      HoldMore(p);
      if k in maps && maps[k] == p {
        return Panic;
      }
      SetMap(k, p, old(refs));
      return Done;
    }

    /** The store of pmap_update, after the reference was taken. */
    method SetMap(k: Key, p: Page, ghost before: map<Page, nat>)
      requires Queued(free, use, refs) && Counted(before, maps, direct, owners)
      requires p in before && refs == before[p := before[p] + 1] && (k in maps ==> maps[k] != p)
      modifies this`maps
      ensures maps == old(maps)[k := p] && (Valid() <==> k !in old(maps))
    {
      if k in maps {
        CountedOver(before, maps, direct, owners, k, p);
      } else {
        CountedMapped(before, maps, direct, owners, k, p);
      }
      maps := maps[k := p];
    }

    /** page_unmap of the page that is mapped at the address. */
    method Unmap(k: Key)
      requires Valid() && k in maps
      modifies this`free, this`use, this`refs, this`maps
      ensures Valid() && maps == old(maps) - {k}
      ensures old(maps)[k] in refs && old(refs) == refs[old(maps)[k] := refs[old(maps)[k]] + 1]
      ensures refs.Keys == old(refs.Keys)
      ensures free == (if refs[old(maps)[k]] == 0 then old(free) + [old(maps)[k]] else old(free))
    {
      var p := maps[k];
      CountedUnmapped(refs, maps, direct, owners, k);
      ThereAndBack(refs, p);
      Drop(p);
      maps := maps - {k};
    }

    /** ... of a page that its owner still has. */
    method UnmapOwned(k: Key) returns (p: Page)
      requires Valid() && k in maps && maps[k] in owners
      modifies this`free, this`use, this`refs, this`maps
      ensures Valid() && p == old(maps)[k] && maps == old(maps) - {k} && p in use
      ensures p in old(refs) && refs == old(refs)[p := old(refs)[p] - 1] && refs.Keys == old(refs.Keys)
      ensures free == old(free) && use == old(use)
    {
      p := maps[k];
      OwnedMapped(k);
      CountedUnmapped(refs, maps, direct, owners, k);
      ThereAndBack(refs, p);
      DropSome(p);
      maps := maps - {k};
    }

    lemma OwnedMapped(k: Key)
      requires Valid() && k in maps && maps[k] in owners
      ensures maps[k] in refs && refs[maps[k]] > 1
    {
      assert k in Keys(maps, maps[k]);
    }

    /** page_map_direct, which cannot fail. */
    method MapDirect(p: Page)
      requires Valid() && p in owners && refs[p] + 1 < UNSIGNED
      modifies this`free, this`use, this`refs, this`direct
      ensures Valid() && direct == old(direct) + multiset{p} && refs == old(refs)[p := old(refs)[p] + 1]
      ensures refs.Keys == old(refs.Keys)
      ensures free == old(free) && use == old(use)
    {
      OwnedUsed(p);
      HoldMore(p);
      direct := direct + multiset{p};
    }

    method UnmapDirect(p: Page)
      requires Valid() && p in direct
      modifies this`free, this`use, this`refs, this`direct
      ensures Valid() && direct == old(direct) - multiset{p} && refs == old(refs)[p := old(refs)[p] - 1]
      ensures refs.Keys == old(refs.Keys)
      ensures free == (if refs[p] == 0 then old(free) + [p] else old(free))
    {
      Drop(p);
      direct := direct - multiset{p};
    }

    /** The rest of page_alloc_map: on failure the page goes back. */
    method MapNew(k: Key, p: Page, fits: bool)
      requires Valid() && k !in maps && p in owners && owners[p] == Holder && refs[p] == 1
      modifies this`free, this`use, this`refs, this`maps, this`owners
      ensures Valid()
      ensures fits ==> maps == old(maps)[k := p] && refs == old(refs)[p := 2] && owners == old(owners)
      ensures !fits ==> maps == old(maps) && refs == old(refs)[p := 0] && owners == old(owners) - {p}
      ensures refs.Keys == old(refs.Keys)
      ensures free == (if fits then old(free) else old(free) + [p])
    {
      var r := Map(k, p, fits);
      if r == Refused {
        Release(p);
      }
    }

    method AllocMap(k: Key, fits: bool) returns (ok: bool)
      requires Valid() && k !in maps
      modifies this`free, this`use, this`refs, this`maps, this`owners
      ensures Valid() && (ok <==> fits && old(free) != [])
      ensures ok ==> k in maps && maps == old(maps)[k := maps[k]] && refs == old(refs)[maps[k] := 2]
                     && owners == old(owners)[maps[k] := Holder] && maps[k] in old(free)
      ensures !ok ==> maps == old(maps) && refs == old(refs) && owners == old(owners)
      ensures refs.Keys == old(refs.Keys)
      ensures ok ==> maps[k] == old(free)[0] && free == old(free)[1..]
      ensures !ok && old(free) != [] ==> free == old(free)[1..] + [old(free)[0]]
    {
      var r := Alloc();
      if r.None? {
        return false;
      }
      TakenAndBack(old(refs), old(owners), r.value);
      MapNew(k, r.value, fits);
      return fits;
    }

    /** page_free_map of a page that is mapped there alone. */
    method FreeMap(k: Key)
      requires Valid() && k in maps && maps[k] in owners && owners[maps[k]] != TreePage && refs[maps[k]] == 2
      modifies this`free, this`use, this`refs, this`maps, this`owners
      ensures Valid() && maps == old(maps) - {k} && owners == old(owners) - {old(maps)[k]}
      ensures refs == old(refs)[old(maps)[k] := 0] && old(maps)[k] in free
      ensures refs.Keys == old(refs.Keys)
      ensures free == old(free) + [old(maps)[k]]
    {
      ghost var was := refs;
      var p := UnmapOwned(k);
      GiveUp(p);
      SetTwice(was, p, 1, 0);
    }

    // ---------- A page in a message ----------

    /** ipc_port_send: the page leaves the sender's address space, and its owner's reference travels in the message. */
    method SendPage(k: Key) returns (p: Page)
      requires Valid() && k in maps && maps[k] in owners && owners[maps[k]] == Holder
      modifies this`free, this`use, this`refs, this`maps, this`owners
      ensures Valid() && p == old(maps)[k] && maps == old(maps) - {k} && owners == old(owners)[p := InMessage]
      ensures p in use && refs == old(refs)[p := old(refs)[p] - 1]
      ensures refs.Keys == old(refs.Keys)
      ensures free == old(free)
    {
      p := UnmapOwned(k);
      PassOn(p, InMessage);
    }

    /** The owner's reference changes hands. */
    ghost method PassOn(p: Page, o: Owner)
      requires Valid() && p in owners
      modifies this`owners
      ensures Valid() && owners == old(owners)[p := o]
    {
      CountedPassed(refs, maps, direct, owners, p, o);
      owners := owners[p := o];
    }

    /** ipc_port_receive at a fresh address: the receiver's mapping, and the reference that travelled. */
    method ReceivePage(p: Page, k: Key)
      requires Valid() && p in owners && owners[p] == InMessage && k !in maps && refs[p] + 1 < UNSIGNED
      modifies this`free, this`use, this`refs, this`maps, this`owners
      ensures Valid() && maps == old(maps)[k := p] && owners == old(owners)[p := Holder]
      ensures refs == old(refs)[p := old(refs)[p] + 1]
      ensures refs.Keys == old(refs.Keys)
      ensures free == old(free)
    {
      var r := Map(k, p, true);
      PassOn(p, Holder);
    }

    /** ipc_port_send by a kernel task: the page leaves the direct map. */
    method SendDirect(p: Page)
      requires Valid() && p in direct && p in owners && owners[p] == Holder
      modifies this`free, this`use, this`refs, this`direct, this`owners
      ensures Valid() && direct == old(direct) - multiset{p} && owners == old(owners)[p := InMessage]
      ensures p in use && refs == old(refs)[p := old(refs)[p] - 1]
      ensures refs.Keys == old(refs.Keys)
      ensures free == old(free)
    {
      UnmapDirect(p);
      PassOn(p, InMessage);
    }

    /** ipc_port_receive by a kernel task: the page is mapped directly. */
    method ReceiveDirect(p: Page)
      requires Valid() && p in owners && owners[p] == InMessage && refs[p] + 1 < UNSIGNED
      modifies this`free, this`use, this`refs, this`direct, this`owners
      ensures Valid() && direct == old(direct) + multiset{p} && owners == old(owners)[p := Holder]
      ensures refs == old(refs)[p := old(refs)[p] + 1]
      ensures refs.Keys == old(refs.Keys)
      ensures free == old(free)
    {
      MapDirect(p);
      PassOn(p, Holder);
    }

    /** A message that is refused, or whose page the receiver does not want. */
    method DiscardPage(p: Page)
      requires Valid() && p in owners && owners[p] == InMessage && refs[p] == 1
      modifies this`free, this`use, this`refs, this`owners
      ensures Valid() && refs == old(refs)[p := 0] && owners == old(owners) - {p} && p in free
      ensures refs.Keys == old(refs.Keys)
      ensures free == old(free) + [p]
    {
      Release(p);
    }

    // ---------- Any of them ----------

    /** What the operations ask of their callers. */
    ghost predicate Allowed(op: Op)
      requires Valid()
      reads this
    {
      match op
      case Alloc => true
      case Release(p) => p in owners && owners[p] != TreePage && refs[p] == 1
      case Map(k, p, _) => k !in maps && p in owners && refs[p] + 1 < UNSIGNED
      case Unmap(k) => k in maps
      case MapDirect(p) => p in owners && refs[p] + 1 < UNSIGNED
      case UnmapDirect(p) => p in direct
      case AllocMap(k, _) => k !in maps
      case FreeMap(k) =>
        && k in maps && maps[k] in owners
        && owners[maps[k]] != TreePage && refs[maps[k]] == 2
      case Send(k) =>
        k in maps && maps[k] in owners && owners[maps[k]] == Holder
      case SendDirect(p) => p in direct && p in owners && owners[p] == Holder
      case Receive(p, k) =>
        && p in owners && owners[p] == InMessage && k !in maps
        && refs[p] + 1 < UNSIGNED
      case ReceiveDirect(p) => p in owners && owners[p] == InMessage && refs[p] + 1 < UNSIGNED
      case Discard(p) => p in owners && owners[p] == InMessage && refs[p] == 1
    }

    /** Every operation keeps the counts and the queues, and no tree page loses its own page. */
    method Do(op: Op)
      requires Valid() && Allowed(op)
      modifies this
      ensures Valid() && refs.Keys == old(refs.Keys) && TreePagesKept(old(owners), owners)
    {
      if op.Alloc? || op.Release? || op.AllocMap? || op.FreeMap? {
        DoOwned(op);
      } else if op.Map? || op.Unmap? || op.MapDirect? || op.UnmapDirect? {
        DoMapped(op);
      } else {
        DoMessage(op);
      }
    }

    method DoOwned(op: Op)
      requires Valid() && Allowed(op) && (op.Alloc? || op.Release? || op.AllocMap? || op.FreeMap?)
      modifies this
      ensures Valid() && refs.Keys == old(refs.Keys) && TreePagesKept(old(owners), owners)
    {
      match op {
        case Alloc => var r := Alloc();
        case Release(p) => Release(p);
        case AllocMap(k, fits) => var r := AllocMap(k, fits);
        case FreeMap(k) => FreeMap(k);
      }
    }

    method DoMapped(op: Op)
      requires Valid() && Allowed(op) && (op.Map? || op.Unmap? || op.MapDirect? || op.UnmapDirect?)
      modifies this
      ensures Valid() && refs.Keys == old(refs.Keys) && TreePagesKept(old(owners), owners)
    {
      match op {
        case Map(k, p, fits) => var r := Map(k, p, fits);
        case Unmap(k) => Unmap(k);
        case MapDirect(p) => MapDirect(p);
        case UnmapDirect(p) => UnmapDirect(p);
      }
    }

    method DoMessage(op: Op)
      requires Valid() && Allowed(op)
      requires op.Send? || op.SendDirect? || op.Receive? || op.ReceiveDirect? || op.Discard?
      modifies this
      ensures Valid() && refs.Keys == old(refs.Keys) && TreePagesKept(old(owners), owners)
    {
      ghost var page := if op.Send? then maps[op.k] else op.p;
      OwnerKept(owners, page, if op.Send? || op.SendDirect? then InMessage else Holder);
      match op {
        case Send(k) => var p := SendPage(k);
        case SendDirect(p) => SendDirect(p);
        case Receive(p, k) => ReceivePage(p, k);
        case ReceiveDirect(p) => ReceiveDirect(p);
        case Discard(p) => DiscardPage(p);
      }
    }
  }
}
