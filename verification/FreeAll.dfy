/** memblock_free_all: boot memory becomes the page allocator's (src/mm/memblock.c, src/mm/pgalloc.c). */
module FreeAll {
  import Arith
  import opened MemRegions
  import opened Memblock
  import opened FreeMemory
  import opened BuddyBlocks
  import opened PageAlloc

  const PAGE: nat := 4096
  const MAX_FREE_RANGES: nat := 128

  lemma {:induction false} SizeGrows(a: nat, b: nat)
    requires a < b
    ensures Size(a) < Size(b)
  {
    if a < b - 1 {
      SizeGrows(a, b - 1);
    }
  }

  /** page_order, in pages: the first order that holds `n` pages, or the largest there is. */
  method PageOrder(n: nat) returns (o: nat)
    ensures o <= MAX_ORDER && (o < MAX_ORDER ==> Size(o) >= n) && forall k: nat :: k < o ==> Size(k) < n
  {
    hide Size;
    o := 0;
    while o < MAX_ORDER
      invariant o <= MAX_ORDER && forall k: nat :: k < o ==> Size(k) < n
    {
      if Size(o) >= n {
        return;
      }
      o := o + 1;
    }
  }

  predicate Fits(s: nat, e: nat, o: nat) {
    s % Size(o) == 0 && s + Size(o) <= e
  }

  /** The largest aligned chunk that fits at the start of `[s, e)`. */
  method ChunkOrder(s: nat, e: nat) returns (o: nat)
    requires s < e
    ensures o <= MAX_ORDER && Fits(s, e, o) && forall k: nat :: k <= MAX_ORDER && Fits(s, e, k) ==> k <= o
  {
    o := PageOrder(e - s);
    assert Size(0) == 1;
    FitsBelow(s, e, o);
    hide Size, Fits;
    while !Fits(s, e, o)
      invariant o <= MAX_ORDER && forall k: nat :: k <= MAX_ORDER && Fits(s, e, k) ==> k <= o
      invariant Fits(s, e, 0)
      decreases o
    {
      o := o - 1;
    }
  }

  lemma FitsBelow(s: nat, e: nat, o: nat)
    requires s < e && o <= MAX_ORDER && (o < MAX_ORDER ==> Size(o) >= e - s)
    ensures forall k: nat :: k <= MAX_ORDER && Fits(s, e, k) ==> k <= o
    ensures Fits(s, e, 0)
  {
    assert Size(0) == 1;
    forall k: nat | k <= MAX_ORDER && Fits(s, e, k)
      ensures k <= o
    {
      if k > o {
        SizeGrows(o, k);
      }
    }
  }

  // Page frame numbers count from `offset`, the start of memory (phys_offset).

  /** The physical page that has frame number 0. */
  function FirstPage(offset: nat): nat {
    RoundUp(offset, PAGE) / PAGE
  }

  /** phys_to_pfn. */
  function Pfn(offset: nat, paddr: nat): nat
    requires offset <= paddr
  {
    (paddr - offset) / PAGE
  }

  lemma PfnIs(offset: nat, p: nat)
    requires offset <= p * PAGE
    ensures FirstPage(offset) <= p && Pfn(offset, p * PAGE) == p - FirstPage(offset)
  {
    RoundUpIs(offset, PAGE);
    var c := FirstPage(offset);
    assert RoundUp(offset, PAGE) == c * PAGE;
    assert p * PAGE - offset == (p - c) * PAGE + (c * PAGE - offset);
    Arith.DivModUnique(p * PAGE - offset, PAGE, p - c, c * PAGE - offset);
  }

  /**
   Whether chunks aligned by physical address are aligned by frame number, which is what the search for a buddy goes
   by: they are, for every chunk above the offset, if and only if the offset is a multiple of the largest block.
   */
  lemma OffsetExact(offset: nat)
    ensures (forall p: nat, o: nat :: o <= MAX_ORDER && FirstPage(offset) <= p && p % Size(o) == 0 ==>
            Aligns(p, offset, o)) <==>
            FirstPage(offset) % Size(MAX_ORDER) == 0
  {
    var c, big := FirstPage(offset), Size(MAX_ORDER);
    if c % big == 0 {
      forall p: nat, o: nat | o <= MAX_ORDER && c <= p && p % Size(o) == 0
        ensures Aligns(p, offset, o)
      {
        ChunkAligned(offset, p, o);
      }
    } else {
      var p := RoundUp(c, big);
      RoundUpIs(c, big);
      assert 0 < p - c < big;
      assert !Aligns(p, offset, MAX_ORDER);
    }
  }

  /** The chunk at physical page `p` is aligned by frame number. */
  ghost predicate Aligns(p: nat, offset: nat, o: nat) {
    (p - FirstPage(offset)) % Size(o) == 0
  }

  lemma ChunkAligned(offset: nat, p: nat, o: nat)
    requires FirstPage(offset) % Size(MAX_ORDER) == 0 && o <= MAX_ORDER && FirstPage(offset) <= p && p % Size(o) == 0
    ensures Aligns(p, offset, o)
  {
    hide FirstPage;
    var c := FirstPage(offset);
    SizeDivides(c, o, MAX_ORDER);
    hide Size;
    Differ(p, c, Size(o));
  }

  lemma Differ(p: nat, c: nat, n: nat)
    requires n > 0 && c <= p && p % n == 0 && c % n == 0
    ensures (p - c) % n == 0
  {
    var a, b := p / n, c / n;
    assert p == a * n && c == b * n;
    assert p - c == (a - b) * n;
    Arith.DivModUnique(p - c, n, a - b, 0);
  }

  /** A multiple of a larger block is a multiple of a smaller one. */
  lemma {:induction false} SizeDivides(c: nat, o: nat, m: nat)
    requires o <= m && c % Size(m) == 0
    ensures c % Size(o) == 0 && Size(o) > 0
    decreases m
  {
    if o < m {
      var k, half := c / Size(m), Size(m - 1);
      assert Size(m) == 2 * half;
      assert c == k * (2 * half) == (2 * k) * half;
      Arith.DivModUnique(c, half, 2 * k, 0);
      SizeDivides(c, o, m - 1);
    }
  }

  /**
   Memory from 0x80200000 on: the physical page 0x80400 starts a chunk of order 10, whose frame number 0x200 is no
   multiple of 1024.
   */
  lemma OffsetMisaligns()
    ensures var offset := 0x8020_0000;
            && FirstPage(offset) == 0x80200 && 0x80400 % Size(10) == 0 && Pfn(offset, 0x8040_0000) == 0x200
            && !Aligns(0x80400, offset, 10)
  {
    assert Size(10) == 1024 by {
      assert Size(5) == 32;
      assert Size(8) == 256;
    }
  }

  /** Page `q` lies wholly inside region `r`. */
  predicate Inside(r: Region, q: nat) {
    r.base <= q * PAGE && q * PAGE + PAGE <= End(r)
  }

  lemma InsideIs(start: nat, end: nat, q: nat)
    requires start <= end
    ensures RoundUp(start, PAGE) / PAGE <= q < end / PAGE <==> Inside(Region(start, end - start), q)
    ensures RoundUp(start, PAGE) % PAGE == 0
  {
  }

  /** The size that memblock_free_range reserves, as a 64-bit difference. */
  function Span(s: nat, e: nat): nat
    requires s < U64 && e < U64
  {
    (e + U64 - s) % U64
  }

  lemma SpanIs(s: nat, e: nat)
    requires s < U64 && e < U64
    ensures s <= e ==> Span(s, e) == e - s
    ensures e < s ==> Span(s, e) == U64 - s + e && s + Span(s, e) >= U64
    ensures Span(s, e) < U64
  {
  }

  /**
   memblock_free_range: the whole pages of the range go to the page allocator, each once, in aligned chunks, and are
   marked reserved. A range without a whole page changes nothing, the wrapped size it reserves included. The allocator
   knows pages by frame number, counted from `offset`.
   */
  method FreeRange(alloc: Allocator, res: RegionSet, cpu: nat, offset: nat, start: nat, end: nat) returns (ok: bool)
    requires alloc.Valid() && cpu < |alloc.pcps| && res.Valid() && res.cnt > 0 && start < end && end + PAGE <= U64
    requires offset <= start && FirstPage(offset) % Size(MAX_ORDER) == 0
    requires forall q: nat :: Inside(Region(start, end - start), q + FirstPage(offset)) ==> !Covers(alloc.blocks, q)
    modifies alloc, res, res.regions
    ensures res.cnt <= res.regions.Length
    ensures ok ==> alloc.Valid() && |alloc.pcps| == |old(alloc.pcps)| && res.Valid() && res.cnt > 0
    ensures ok ==> forall q: nat :: Covers(alloc.blocks, q) <==>
            Covers(old(alloc.blocks), q) || Inside(Region(start, end - start), q + FirstPage(offset))
    ensures ok ==> forall x: nat :: Points(res.View(), x) <==>
            Points(old(res.View()), x) || RoundUp(start, PAGE) <= x < end / PAGE * PAGE
  {
    hide *;
    PageIs();
    RoundUpIs(start, PAGE);
    var s, e := RoundUp(start, PAGE), end / PAGE * PAGE;
    SpanIs(s, e);
    res.ValidIs();
    ghost var rs := res.View();
    Nonempty(res);
    res.ViewIs();
    ok := res.AddRegion(s, Span(s, e));
    if !ok {
      return;
    }
    ReservedIs(rs, res.View(), s, e);
    res.ViewIs();
    var p, stop := s / PAGE, e / PAGE;
    ghost var c := FirstPage(offset);
    FirstBelow(offset, start);
    ghost var first, b0 := p, alloc.blocks;
    PagesInside(start, end);
    PagesNone(first, stop);
    while p < stop
      modifies alloc
      invariant first <= p && (first <= stop ==> p <= stop) && alloc.Valid() && |alloc.pcps| == |old(alloc.pcps)|
      invariant forall q: nat :: Covers(alloc.blocks, q) <==>
                Covers(b0, q) || (Between(first, q + c, p) && Between(first, q + c, stop))
    {
      var o := ChunkOrder(p, stop);
      FitsIs(p, stop, o);
      BetweenMore(first, p, p + Size(o), stop);
      AbovePage(offset, start, p);
      PfnIs(offset, p);
      ChunkAligned(offset, p, o);
      AlignsIs(p, offset, o);
      var pfn := Pfn(offset, p * PAGE);
      forall x: nat | pfn <= x < pfn + Size(o)
        ensures !Covers(alloc.blocks, x)
      {
        assert p <= x + c < p + Size(o);
        assert Between(first, x + c, stop) && !Between(first, x + c, p);
        assert Inside(Region(start, end - start), x + c);
      }
      alloc.Donate(cpu, pfn, o);
      p := p + Size(o);
    }
    BetweenAll(first, p, stop);
  }

  lemma FirstBelow(offset: nat, start: nat)
    requires offset <= start
    ensures FirstPage(offset) <= RoundUp(start, PAGE) / PAGE
  {
  }

  lemma AbovePage(offset: nat, start: nat, p: nat)
    requires offset <= start && RoundUp(start, PAGE) / PAGE <= p
    ensures offset <= p * PAGE
  {
    RoundUpIs(start, PAGE);
  }

  lemma AlignsIs(p: nat, offset: nat, o: nat)
    requires Aligns(p, offset, o)
    ensures (p - FirstPage(offset)) % Size(o) == 0
  {
  }

  predicate Between(a: nat, q: nat, b: nat) {
    a <= q < b
  }

  lemma PagesInside(start: nat, end: nat)
    requires start <= end
    ensures forall q: nat :: Between(RoundUp(start, PAGE) / PAGE, q, end / PAGE * PAGE / PAGE) <==>
            Inside(Region(start, end - start), q)
  {
    hide Inside, RoundUp;
    forall q: nat
      ensures Between(RoundUp(start, PAGE) / PAGE, q, end / PAGE * PAGE / PAGE) <==>
              Inside(Region(start, end - start), q)
    {
      InsideIs(start, end, q);
    }
  }

  lemma PagesNone(first: nat, stop: nat)
    ensures forall q: nat :: !Between(first, q, first)
  {
  }

  lemma BetweenMore(first: nat, p: nat, p': nat, stop: nat)
    requires first <= p < p' <= stop
    ensures forall q: nat :: Between(first, q, p') && Between(first, q, stop) <==>
            (Between(first, q, p) && Between(first, q, stop)) || p <= q < p'
    ensures forall q: nat :: p <= q < p' ==> Between(first, q, stop) && !Between(first, q, p)
  {
  }

  lemma BetweenAll(first: nat, p: nat, stop: nat)
    requires p >= stop
    ensures forall q: nat :: Between(first, q, p) && Between(first, q, stop) <==> Between(first, q, stop)
  {
  }

  /** The reserved set after the call: the whole pages are in, and a wrapped size has added nothing. */
  lemma ReservedIs(rs: seq<Region>, rs': seq<Region>, s: nat, e: nat)
    requires s < U64 && e < U64 && Merged(rs) && |rs| > 0
    requires s + Span(s, e) < U64 ==> forall x: nat :: Points(rs', x) <==> Points(rs, x) || s <= x < s + Span(s, e)
    requires s + Span(s, e) >= U64 ==> rs' == rs
    ensures |rs'| > 0 && forall x: nat :: Points(rs', x) <==> Points(rs, x) || s <= x < e
  {
    SpanIs(s, e);
    assert rs[0].base <= rs[0].base < End(rs[0]);
    assert Points(rs, rs[0].base);
    assert Points(rs', rs[0].base);
  }

  lemma PageIs()
    ensures PAGE == 4096 && U64 == 0x1_0000_0000_0000_0000
  {
  }

  lemma FitsIs(p: nat, stop: nat, o: nat)
    requires Fits(p, stop, o)
    ensures p % Size(o) == 0 && p + Size(o) <= stop && Size(o) > 0
  {
  }

  lemma Nonempty(res: RegionSet)
    requires res.Valid() && res.cnt > 0
    ensures res.regions.Length > 0
  {
  }

  /** A page all of whose bytes are memory that is not reserved. */
  ghost predicate WholeFree(mem: seq<Region>, res: seq<Region>, q: nat) {
    forall x: nat :: q * PAGE <= x < q * PAGE + PAGE ==> FreeAt(mem, res, x)
  }

  ghost predicate InSome(ranges: seq<Region>, n: nat, q: nat)
    requires n <= |ranges|
  {
    exists j :: 0 <= j < n && Inside(ranges[j], q)
  }

  /** With gaps between the ranges, a page that is free all over lies in one of them. */
  lemma WholeIsInside(mem: seq<Region>, res: seq<Region>, ranges: seq<Region>, q: nat)
    requires Merged(ranges) && forall x: nat :: Points(ranges, x) <==> FreeAt(mem, res, x)
    ensures WholeFree(mem, res, q) <==> InSome(ranges, |ranges|, q)
  {
    hide FreeAt;
    if WholeFree(mem, res, q) {
      assert FreeAt(mem, res, q * PAGE);
      assert Points(ranges, q * PAGE);
      var j :| 0 <= j < |ranges| && ranges[j].base <= q * PAGE < End(ranges[j]);
      EndIsOut(ranges, j);
      assert !FreeAt(mem, res, End(ranges[j]));
      assert Inside(ranges[j], q);
    }
    if InSome(ranges, |ranges|, q) {
      var j :| 0 <= j < |ranges| && Inside(ranges[j], q);
      forall x: nat | q * PAGE <= x < q * PAGE + PAGE
        ensures FreeAt(mem, res, x)
      {
        assert ranges[j].base <= x < End(ranges[j]);
        assert Points(ranges, x);
      }
    }
  }

  lemma EndIsOut(ranges: seq<Region>, j: nat)
    requires Merged(ranges) && j < |ranges|
    ensures !Points(ranges, End(ranges[j]))
  {
  }

  lemma InsideOne(ranges: seq<Region>, i: nat, q: nat)
    requires Merged(ranges) && i < |ranges| && Inside(ranges[i], q)
    ensures !InSome(ranges, i, q) && InSome(ranges, |ranges|, q)
  {
  }

  lemma InSomeMore(ranges: seq<Region>, i: nat, q: nat)
    requires i < |ranges|
    ensures InSome(ranges, i + 1, q) <==> InSome(ranges, i, q) || Inside(ranges[i], q)
  {
  }

  /**
   memblock_free_all: the page allocator gets exactly the pages that are memory and not reserved all over, each
   once. `ok` is false where the code panics: too many free ranges, or a reserved set that is full. `offset` is at or
   below all memory, and a multiple of the largest block but for a fraction of a page (see OffsetExact).
   */
  method FreeAll(alloc: Allocator, mem: RegionSet, res: RegionSet, cpu: nat, offset: nat) returns (ok: bool)
    requires alloc.Valid() && cpu < |alloc.pcps| && mem.Valid() && res.Valid() && res.cnt > 0 && mem != res &&
             mem.regions != res.regions
    requires SetsOk(mem.View(), res.View()) && forall i :: 0 <= i < |mem.View()| ==> End(mem.View()[i]) + PAGE <= U64
    requires FirstPage(offset) % Size(MAX_ORDER) == 0 &&
             forall i :: 0 <= i < |mem.View()| ==> offset <= mem.View()[i].base
    requires forall q: nat :: WholeFree(mem.View(), res.View(), q + FirstPage(offset)) ==> !Covers(alloc.blocks, q)
    modifies alloc, res, res.regions
    ensures ok ==>
              && alloc.Valid()
              && forall q: nat :: Covers(alloc.blocks, q) <==>
                   Covers(old(alloc.blocks), q) || WholeFree(old(mem.View()), old(res.View()), q + FirstPage(offset))
  {
    hide *;
    mem.ValidIs();
    res.ValidIs();
    ghost var ms, rs, b0 := mem.View(), res.View(), alloc.blocks;
    var ranges := FreeRanges(mem, res);
    assert mem.View() == ms && res.View() == rs;
    if |ranges| > MAX_FREE_RANGES {
      return false;
    }
    forall q: nat
      ensures WholeFree(ms, rs, q) <==> InSome(ranges, |ranges|, q)
    {
      WholeIsInside(ms, rs, ranges, q);
    }
    NoneYet(ranges);
    ghost var c := FirstPage(offset);
    var i := 0;
    while i < |ranges|
      invariant i <= |ranges| && alloc.Valid() && |alloc.pcps| == |old(alloc.pcps)| && res.Valid() && res.cnt > 0
      invariant forall q: nat :: Covers(alloc.blocks, q) <==> Covers(b0, q) || InSome(ranges, i, q + c)
    {
      RangeIs(ms, rs, ranges, i, offset);
      forall q: nat | Inside(ranges[i], q + c)
        ensures !Covers(alloc.blocks, q)
      {
        InsideOne(ranges, i, q + c);
        assert WholeFree(ms, rs, q + c);
      }
      EndIs(ranges[i]);
      ok := FreeRange(alloc, res, cpu, offset, ranges[i].base, End(ranges[i]));
      if !ok {
        return;
      }
      forall q: nat
        ensures InSome(ranges, i + 1, q) <==> InSome(ranges, i, q) || Inside(ranges[i], q)
      {
        InSomeMore(ranges, i, q);
      }
      i := i + 1;
    }
    ok := true;
  }

  lemma NoneYet(ranges: seq<Region>)
    ensures forall q: nat :: !InSome(ranges, 0, q)
  {
  }

  lemma EndIs(r: Region)
    requires r.size > 0
    ensures End(r) == r.base + r.size && Region(r.base, End(r) - r.base) == r
  {
  }

  lemma RangeIs(mem: seq<Region>, res: seq<Region>, ranges: seq<Region>, i: nat, offset: nat)
    requires Merged(ranges) && i < |ranges| && (forall x: nat :: Points(ranges, x) <==> FreeAt(mem, res, x))
    requires forall k :: 0 <= k < |mem| ==> End(mem[k]) + PAGE <= U64 && offset <= mem[k].base
    ensures ranges[i].size > 0 && End(ranges[i]) + PAGE <= U64 && offset <= ranges[i].base
  {
    assert Points(ranges, ranges[i].base) by {
      assert ranges[i].base <= ranges[i].base < End(ranges[i]);
    }
    assert FreeAt(mem, res, ranges[i].base);
    var x := End(ranges[i]) - 1;
    assert ranges[i].size > 0;
    assert ranges[i].base <= x < End(ranges[i]);
    assert Points(ranges, x);
    assert FreeAt(mem, res, x);
    var k :| 0 <= k < |mem| && mem[k].base <= x < End(mem[k]);
  }
}
