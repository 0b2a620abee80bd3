/** Walking the memory that is not reserved, and handing it to the page allocator (src/mm/memblock.c). */
module FreeMemory {
  import Arith
  import opened MemRegions
  import opened Memblock

  const TOP: nat := 0xffff_ffff_ffff_ffff

  /** Where the gap before reserved region `r` begins and ends. */
  function GapStart(res: seq<Region>, r: nat): nat
    requires r <= |res|
  {
    if r == 0 then 0 else End(res[r - 1])
  }

  function GapEnd(res: seq<Region>, r: nat): nat
    requires r <= |res|
  {
    if r < |res| then res[r].base else TOP
  }

  /** Memory that is not reserved. */
  ghost predicate FreeAt(mem: seq<Region>, res: seq<Region>, x: nat) {
    Points(mem, x) && !Points(res, x)
  }

  /** What is left of it for an iterator at memory region `m` and gap `r`. */
  ghost predicate Left(mem: seq<Region>, res: seq<Region>, m: nat, r: nat, x: nat)
    requires m <= |mem| && r <= |res|
  {
    Points(mem[m..], x) && !Points(res, x) && x >= GapStart(res, r)
  }

  ghost predicate SetsOk(mem: seq<Region>, res: seq<Region>) {
    Merged(mem) && Merged(res) && forall i :: 0 <= i < |mem| ==> End(mem[i]) <= TOP
  }

  lemma FirstPoints(mem: seq<Region>, m: nat, x: nat)
    requires m < |mem|
    ensures Points(mem[m..], x) <==> mem[m].base <= x < End(mem[m]) || Points(mem[m + 1..], x)
  {
    assert mem[m..] == [mem[m]] + mem[m + 1..];
    ConsPoints(mem[m], mem[m + 1..], x);
  }

  lemma LaterPoints(mem: seq<Region>, m: nat, x: nat)
    requires Merged(mem) && m < |mem|
    ensures Points(mem[m + 1..], x) ==> x > End(mem[m])
    ensures Points(mem[m..], x) ==> x >= mem[m].base
  {
  }

  lemma InReserved(res: seq<Region>, r: nat, x: nat)
    requires Merged(res) && r <= |res|
    ensures r < |res| && res[r].base <= x < End(res[r]) ==> Points(res, x)
    ensures GapStart(res, r) <= x < GapEnd(res, r) ==> !Points(res, x)
    ensures r < |res| ==> GapStart(res, r) <= res[r].base && (r > 0 ==> GapStart(res, r) < res[r].base)
  {
  }

  /** This memory region ends before the gap begins: go on to the next. */
  lemma SkipMemory(mem: seq<Region>, res: seq<Region>, m: nat, r: nat, x: nat)
    requires SetsOk(mem, res) && m < |mem| && r <= |res| && GapStart(res, r) >= End(mem[m])
    ensures Left(mem, res, m, r, x) <==> Left(mem, res, m + 1, r, x)
  {
    hide Points, Merged;
    FirstPoints(mem, m, x);
  }

  /** The gap ends before this memory region begins: go on to the next gap. */
  lemma SkipGap(mem: seq<Region>, res: seq<Region>, m: nat, r: nat, x: nat)
    requires SetsOk(mem, res) && m < |mem| && r < |res| && mem[m].base >= GapEnd(res, r)
    ensures Left(mem, res, m, r, x) <==> Left(mem, res, m, r + 1, x)
  {
    hide Points, Merged;
    LaterPoints(mem, m, x);
    InReserved(res, r, x);
  }

  /** The memory region and the gap overlap: the overlap is the next range, and the one that ends first is done with. */
  lemma Overlap(mem: seq<Region>, res: seq<Region>, m: nat, r: nat, x: nat)
    requires SetsOk(mem, res) && m < |mem| && r <= |res| && GapStart(res, r) < End(mem[m]) &&
             mem[m].base < GapEnd(res, r)
    ensures var a := if mem[m].base < GapStart(res, r) then GapStart(res, r) else mem[m].base;
            var b := Min(End(mem[m]), GapEnd(res, r));
            var m', r' := if End(mem[m]) <= GapEnd(res, r) then m + 1 else m, if End(mem[m]) <= GapEnd(res, r) then r
                else r + 1;
            && a < b && m' <= |mem| && r' <= |res|
            && (Left(mem, res, m, r, x) <==> a <= x < b || Left(mem, res, m', r', x))
            && (Left(mem, res, m', r', x) ==> x > b)
  {
    FirstPoints(mem, m, x);
    LaterPoints(mem, m, x);
    InReserved(res, r, x);
    assert mem[m].size > 0 && End(mem[m]) <= TOP;
    if r < |res| {
      InReserved(res, r, res[r].base);
      assert res[r].size > 0;
    }
    hide Points, Merged;
  }

  /** __next_mem_range: the next range of free memory from the position on, or none if there is no more. */
  method NextMemRange(mem: RegionSet, res: RegionSet, m: nat, r: nat)
    returns (found: bool, a: nat, b: nat, m': nat, r': nat)
    requires mem.cnt <= mem.regions.Length && res.cnt <= res.regions.Length && SetsOk(mem.View(), res.View()) &&
             m <= mem.cnt && r <= res.cnt
    ensures m' <= mem.cnt && r' <= res.cnt
    ensures !found ==> forall x: nat :: !Left(mem.View(), res.View(), m, r, x)
    ensures found ==>
              && a < b && m + r < m' + r'
              && forall x: nat ::
                 (Left(mem.View(), res.View(), m, r, x) <==> a <= x < b || Left(mem.View(), res.View(), m', r', x)) &&
                     (Left(mem.View(), res.View(), m', r', x) ==> x > b)
  {
    hide *;
    mem.ViewIs();
    res.ViewIs();
    ghost var ms, rs := mem.View(), res.View();
    m', r' := m, r;
    found, a, b := false, 0, 0;
    LeftSame(ms, rs, m, r);
    while m' < mem.cnt
      invariant m <= m' <= mem.cnt && r <= r' <= res.cnt && SameLeft(ms, rs, m, r, m', r')
    {
      var mstart, mend := mem.regions[m'].base, End(mem.regions[m']);
      while r' < res.cnt + 1
        invariant r <= r' <= res.cnt && SameLeft(ms, rs, m, r, m', r') && m' < mem.cnt
        decreases res.cnt - r'
      {
        var rstart := if r' == 0 then 0 else End(res.regions[r' - 1]);
        var rend := if r' < res.cnt then res.regions[r'].base else TOP;
        GapIs(rs, r');
        if rstart >= mend {
          break;
        }
        if mstart < rend {
          a := if mstart < rstart then rstart else mstart;
          b := Min(mend, rend);
          Found(ms, rs, m, r, m', r');
          MinIs(mend, rend);
          if mend <= rend {
            m' := m' + 1;
          } else {
            r' := r' + 1;
          }
          return true, a, b, m', r';
        }
        LastGap(ms, rs, m', r');
        NextGap(ms, rs, m, r, m', r');
        r' := r' + 1;
      }
      NextMemory(ms, rs, m, r, m', r');
      m' := m' + 1;
    }
    NothingLeft(ms, rs, m, r, m', r');
  }

  ghost predicate SameLeft(mem: seq<Region>, res: seq<Region>, m: nat, r: nat, m': nat, r': nat) {
    m <= |mem| && r <= |res| && m' <= |mem| && r' <= |res| &&
        forall x: nat :: Left(mem, res, m, r, x) <==> Left(mem, res, m', r', x)
  }

  lemma LeftSame(mem: seq<Region>, res: seq<Region>, m: nat, r: nat)
    requires m <= |mem| && r <= |res|
    ensures SameLeft(mem, res, m, r, m, r)
  {
  }

  lemma GapIs(res: seq<Region>, r: nat)
    requires r <= |res|
    ensures GapStart(res, r) == (if r == 0 then 0 else End(res[r - 1])) &&
            GapEnd(res, r) == if r < |res| then res[r].base else TOP
  {
  }

  lemma MinIs(a: nat, b: nat)
    ensures Min(a, b) == if a < b then a else b
  {
  }

  /** The last gap reaches to the top of memory. */
  lemma LastGap(mem: seq<Region>, res: seq<Region>, m: nat, r: nat)
    requires SetsOk(mem, res) && m < |mem| && r <= |res| && mem[m].base >= GapEnd(res, r)
    ensures r < |res|
  {
    assert mem[m].size > 0;
  }

  lemma NextGap(mem: seq<Region>, res: seq<Region>, m0: nat, r0: nat, m: nat, r: nat)
    requires SetsOk(mem, res) && SameLeft(mem, res, m0, r0, m, r) && m < |mem| && r < |res| &&
             mem[m].base >= GapEnd(res, r)
    ensures SameLeft(mem, res, m0, r0, m, r + 1)
  {
    hide Left, SetsOk;
    forall x: nat
      ensures Left(mem, res, m0, r0, x) <==> Left(mem, res, m, r + 1, x)
    {
      SkipGap(mem, res, m, r, x);
    }
  }

  lemma NextMemory(mem: seq<Region>, res: seq<Region>, m0: nat, r0: nat, m: nat, r: nat)
    requires SetsOk(mem, res) && SameLeft(mem, res, m0, r0, m, r) && m < |mem| && r <= |res| &&
             GapStart(res, r) >= End(mem[m])
    ensures SameLeft(mem, res, m0, r0, m + 1, r)
  {
    hide Left, SetsOk;
    forall x: nat
      ensures Left(mem, res, m0, r0, x) <==> Left(mem, res, m + 1, r, x)
    {
      SkipMemory(mem, res, m, r, x);
    }
  }

  lemma Found(mem: seq<Region>, res: seq<Region>, m0: nat, r0: nat, m: nat, r: nat)
    requires SetsOk(mem, res) && SameLeft(mem, res, m0, r0, m, r) && m < |mem| && r <= |res| &&
             GapStart(res, r) < End(mem[m]) && mem[m].base < GapEnd(res, r)
    ensures var a := if mem[m].base < GapStart(res, r) then GapStart(res, r) else mem[m].base;
            var b := Min(End(mem[m]), GapEnd(res, r));
            var m', r' := if End(mem[m]) <= GapEnd(res, r) then m + 1 else m, if End(mem[m]) <= GapEnd(res, r) then r
                else r + 1;
            && a < b && m' <= |mem| && r' <= |res|
            && forall x: nat ::
               (Left(mem, res, m0, r0, x) <==> a <= x < b || Left(mem, res, m', r', x)) &&
               (Left(mem, res, m', r', x) ==> x > b)
  {
    hide Left, SetsOk, GapStart, GapEnd, Min;
    Overlap(mem, res, m, r, 0);
    var a := if mem[m].base < GapStart(res, r) then GapStart(res, r) else mem[m].base;
    var b := Min(End(mem[m]), GapEnd(res, r));
    var m', r' := if End(mem[m]) <= GapEnd(res, r) then m + 1 else m, if End(mem[m]) <= GapEnd(res, r) then r
        else r + 1;
    forall x: nat
      ensures (Left(mem, res, m0, r0, x) <==> a <= x < b || Left(mem, res, m', r', x)) &&
              (Left(mem, res, m', r', x) ==> x > b)
    {
      Overlap(mem, res, m, r, x);
      assert Left(mem, res, m0, r0, x) <==> Left(mem, res, m, r, x);
    }
  }

  lemma NothingLeft(mem: seq<Region>, res: seq<Region>, m0: nat, r0: nat, m: nat, r: nat)
    requires SameLeft(mem, res, m0, r0, m, r) && m == |mem|
    ensures forall x: nat :: !Left(mem, res, m0, r0, x)
  {
    assert mem[m..] == [];
  }

  // The loops over all of it.

  /** The ranges so far, and what the iterator has still to give: the free memory, in order, with gaps between. */
  ghost predicate Walked(mem: seq<Region>, res: seq<Region>, ranges: seq<Region>, m: nat, r: nat) {
    && m <= |mem| && r <= |res| && Merged(ranges)
    && (forall x: nat :: FreeAt(mem, res, x) <==> Points(ranges, x) || Left(mem, res, m, r, x))
    && (forall x: nat :: |ranges| > 0 && Left(mem, res, m, r, x) ==> x > End(ranges[|ranges| - 1]))
  }

  lemma WalkStart(mem: seq<Region>, res: seq<Region>)
    ensures Walked(mem, res, [], 0, 0)
  {
    assert mem[0..] == mem;
  }

  lemma SnocMerged(s: seq<Region>, r: Region)
    requires Merged(s) && r.size > 0 && (|s| > 0 ==> End(s[|s| - 1]) < r.base)
    ensures Merged(s + [r])
  {
    var t := s + [r];
    forall i | 0 <= i < |s|
      ensures End(s[i]) < r.base
    {
    }
  }

  lemma SnocPoints(s: seq<Region>, r: Region, x: nat)
    ensures Points(s + [r], x) <==> Points(s, x) || r.base <= x < End(r)
  {
    AppendPoints(s, [r], x);
    assert [r] == [r] + [];
    ConsPoints(r, [], x);
  }

  lemma WalkOn(mem: seq<Region>, res: seq<Region>, ranges: seq<Region>, m: nat, r: nat, a: nat, b: nat, m': nat,
               r': nat)
    requires Walked(mem, res, ranges, m, r) && a < b && m' <= |mem| && r' <= |res|
    requires forall x: nat ::
             (Left(mem, res, m, r, x) <==> a <= x < b || Left(mem, res, m', r', x)) &&
             (Left(mem, res, m', r', x) ==> x > b)
    ensures Walked(mem, res, ranges + [Region(a, b - a)], m', r')
  {
    hide Left, Points, FreeAt, Merged;
    var rg := Region(a, b - a);
    assert Left(mem, res, m, r, a);
    SnocMerged(ranges, rg);
    forall x: nat
      ensures FreeAt(mem, res, x) <==> Points(ranges + [rg], x) || Left(mem, res, m', r', x)
    {
      SnocPoints(ranges, rg, x);
      assert FreeAt(mem, res, x) <==> Points(ranges, x) || Left(mem, res, m, r, x);
    }
  }

  lemma WalkEnd(mem: seq<Region>, res: seq<Region>, ranges: seq<Region>, m: nat, r: nat)
    requires Walked(mem, res, ranges, m, r) && forall x: nat :: !Left(mem, res, m, r, x)
    ensures Merged(ranges) && forall x: nat :: Points(ranges, x) <==> FreeAt(mem, res, x)
  {
    hide Left, Points, FreeAt, Merged;
    forall x: nat
      ensures Points(ranges, x) <==> FreeAt(mem, res, x)
    {
      assert FreeAt(mem, res, x) <==> Points(ranges, x) || Left(mem, res, m, r, x);
    }
  }

  /** for_each_mem_range to exhaustion, as memblock_free_all takes its snapshot: exactly the free memory, in order. */
  method FreeRanges(mem: RegionSet, res: RegionSet) returns (ranges: seq<Region>)
    requires mem.cnt <= mem.regions.Length && res.cnt <= res.regions.Length && SetsOk(mem.View(), res.View())
    ensures Merged(ranges) && forall x: nat :: Points(ranges, x) <==> FreeAt(mem.View(), res.View(), x)
  {
    hide *;
    mem.ViewIs();
    res.ViewIs();
    ghost var ms, rs := mem.View(), res.View();
    ranges := [];
    WalkStart(ms, rs);
    var m: nat, r: nat, more := 0, 0, true;
    while more
      invariant m <= mem.cnt && r <= res.cnt && Walked(ms, rs, ranges, m, r)
      invariant !more ==> forall x: nat :: !Left(ms, rs, m, r, x)
      decreases more, mem.cnt + res.cnt - m - r
    {
      var found, a, b, m', r' := NextMemRange(mem, res, m, r);
      assert mem.View() == ms && res.View() == rs;
      if found {
        WalkOn(ms, rs, ranges, m, r, a, b, m', r');
        ranges := ranges + [Region(a, b - a)];
        m, r := m', r';
      } else {
        more := false;
      }
    }
    WalkEnd(ms, rs, ranges, m, r);
  }

  /** The next address that is a multiple of `align`, as round_up. */
  function RoundUp(x: nat, align: nat): nat
    requires align > 0
  {
    (x + align - 1) / align * align
  }

  lemma RoundUpIs(x: nat, align: nat)
    requires align > 0
    ensures x <= RoundUp(x, align) < x + align && RoundUp(x, align) % align == 0
  {
    var q := (x + align - 1) / align;
    assert x + align - 1 == q * align + (x + align - 1) % align;
    Arith.DivModUnique(q * align, align, q, 0);
  }

  datatype Option<T> = None | Some(value: T)

  /** What memblock_alloc makes of one free range, in 64-bit arithmetic: its aligned start, if the range is taken. */
  function Fit(range: Region, size: nat, minAddr: nat, align: nat): Option<nat>
    requires align > 0
  {
    var start := RoundUp(range.base, align) % U64;
    if range.base < minAddr || (start + size) % U64 > End(range) then None else Some(start)
  }

  /** The block lies in the range it was found in, if and only if the sum of its aligned start and size did not wrap. */
  lemma FitExact(range: Region, size: nat, minAddr: nat, align: nat)
    requires 0 < align <= U64 && U64 % align == 0 && End(range) <= TOP && size < U64
    requires Fit(range, size, minAddr, align).Some?
    ensures var addr := Fit(range, size, minAddr, align).value;
            && addr % align == 0
            && (range.base <= addr && addr + size <= End(range) <==> RoundUp(range.base, align) + size < U64)
            && (RoundUp(range.base, align) + size < U64 ==> minAddr <= addr)
  {
    var up := RoundUp(range.base, align);
    RoundUpIs(range.base, align);
    if up >= U64 {
      assert up % U64 == up - U64;
      Wrapped(up, align);
    }
  }

  lemma Wrapped(up: nat, align: nat)
    requires align > 0 && up >= U64 && up % align == 0 && U64 % align == 0
    ensures (up - U64) % align == 0
  {
    hide RoundUp;
    var p, q := up / align, U64 / align;
    assert up - U64 == (p - q) * align;
    Arith.DivModUnique(up - U64, align, p - q, 0);
  }

  /** A size near 2^64 is accepted: the block is far larger than the range it is said to lie in. */
  lemma HugeSizeAccepted()
    ensures Fit(Region(0x1000, 0x1000), U64 - 0x1000, 0, 0x1000) == Some(0x1000)
  {
  }

  /** The ranges tried, in order: the free memory from its start on, and all of it unless an address was found. */
  ghost predicate Tried(mem: seq<Region>, res: seq<Region>, seen: seq<Region>, addr: Option<nat>, size: nat,
                        minAddr: nat, align: nat)
    requires align > 0
  {
    && Merged(seen) && (forall x: nat :: Points(seen, x) ==> FreeAt(mem, res, x))
    && (forall x: nat :: FreeAt(mem, res, x) && !Points(seen, x) ==>
       addr.Some? && |seen| > 0 && x > End(seen[|seen| - 1]))
    && (addr.None? ==> NoneFits(seen, size, minAddr, align))
    && (addr.Some? ==>
       |seen| > 0 && NoneFits(seen[..|seen| - 1], size, minAddr, align) &&
       Fit(seen[|seen| - 1], size, minAddr, align) == addr)
  }

  ghost predicate NoneFits(seen: seq<Region>, size: nat, minAddr: nat, align: nat)
    requires align > 0
  {
    forall i :: 0 <= i < |seen| ==> Fit(seen[i], size, minAddr, align) == None
  }

  /**
   memblock_alloc: first fit over the free ranges that begin at or after `minAddr`; a range that begins below it is
   passed over whole. The block is reserved from then on. `ok` is false where the code panics.
   */
  method Alloc(mem: RegionSet, res: RegionSet, size: nat, minAddr: nat, align: nat)
    returns (addr: Option<nat>, ok: bool, ghost seen: seq<Region>)
    requires mem.Valid() && res.Valid() && mem != res && mem.regions != res.regions && res.regions.Length > 0
    requires SetsOk(mem.View(), res.View()) && 0 < align && size < U64
    modifies res, res.regions
    ensures mem.Valid() && mem.View() == old(mem.View()) && res.cnt <= res.regions.Length
    ensures Tried(mem.View(), old(res.View()), seen, addr, size, minAddr, align)
    ensures addr.Some? && U64 % align == 0 && Room(mem.View(), size + align) ==>
              && addr.value % align == 0 && minAddr <= addr.value && addr.value + size < U64
              && forall x: nat :: addr.value <= x < addr.value + size ==> FreeAt(mem.View(), old(res.View()), x)
    ensures addr.None? ==> ok && res.View() == old(res.View())
    ensures addr.Some? && ok && addr.value + size < U64 ==>
              res.Valid() && forall x: nat :: Points(res.View(), x) <==>
                  Points(old(res.View()), x) || addr.value <= x < addr.value + size
  {
    hide *;
    mem.ValidIs();
    res.ValidIs();
    mem.ViewIs();
    res.ViewIs();
    ghost var ms, rs := mem.View(), res.View();
    var m: nat, r: nat, more := 0, 0, true;
    addr, ok, seen := None, true, [];
    WalkStart(ms, rs);
    NothingTried(size, minAddr, align);
    while more
      invariant mem.Valid() && res.Valid() && mem.cnt <= mem.regions.Length && res.cnt <= res.regions.Length &&
                |rs| == res.cnt && |ms| == mem.cnt
      invariant m <= mem.cnt && r <= res.cnt && mem.View() == ms && res.View() == rs && addr == None && ok
      invariant Walked(ms, rs, seen, m, r) && NoneFits(seen, size, minAddr, align)
      invariant !more ==> forall x: nat :: !Left(ms, rs, m, r, x)
      decreases more, mem.cnt + res.cnt - m - r
    {
      var found, a, b, m', r' := NextMemRange(mem, res, m, r);
      assert mem.View() == ms && res.View() == rs;
      if !found {
        more := false;
      } else {
        WalkOn(ms, rs, seen, m, r, a, b, m', r');
        ghost var range := Region(a, b - a);
        FitIs(range, a, b, size, minAddr, align);
        if a >= minAddr {
          var start := RoundUp(a, align) % U64;
          if (start + size) % U64 <= b {
            FoundIn(ms, rs, seen, range, m', r', start, size, minAddr, align);
            FoundFree(ms, rs, seen + [range], start, size, minAddr, align);
            ok := res.AddRegion(start, size);
            return Some(start), ok, seen + [range];
          }
        }
        TriedMore(seen, range, size, minAddr, align);
        m, r, seen := m', r', seen + [range];
      }
    }
    FoundNowhere(ms, rs, seen, m, r, size, minAddr, align);
  }

  lemma NothingTried(size: nat, minAddr: nat, align: nat)
    requires align > 0
    ensures NoneFits([], size, minAddr, align)
  {
  }

  lemma FitIs(range: Region, a: nat, b: nat, size: nat, minAddr: nat, align: nat)
    requires align > 0 && a <= b && range == Region(a, b - a)
    ensures Fit(range, size, minAddr, align) ==
            if a < minAddr || (RoundUp(a, align) % U64 + size) % U64 > b then None else Some(RoundUp(a, align) % U64)
  {
  }

  lemma TriedMore(seen: seq<Region>, range: Region, size: nat, minAddr: nat, align: nat)
    requires align > 0 && NoneFits(seen, size, minAddr, align) && Fit(range, size, minAddr, align) == None
    ensures NoneFits(seen + [range], size, minAddr, align)
  {
    hide Fit;
  }

  lemma FoundIn(mem: seq<Region>, res: seq<Region>, seen: seq<Region>, range: Region, m: nat, r: nat, start: nat,
                size: nat, minAddr: nat, align: nat)
    requires align > 0 && Walked(mem, res, seen + [range], m, r) && NoneFits(seen, size, minAddr, align)
    requires Fit(range, size, minAddr, align) == Some(start)
    ensures Tried(mem, res, seen + [range], Some(start), size, minAddr, align)
  {
    hide Fit, Left, Points, FreeAt, Merged;
    assert (seen + [range])[..|seen|] == seen;
    forall x: nat
      ensures Points(seen + [range], x) ==> FreeAt(mem, res, x)
      ensures FreeAt(mem, res, x) && !Points(seen + [range], x) ==> x > End(range)
    {
      assert FreeAt(mem, res, x) <==> Points(seen + [range], x) || Left(mem, res, m, r, x);
    }
  }

  /** Every memory region ends `n` bytes or more below 2^64. */
  ghost predicate Room(mem: seq<Region>, n: nat) {
    forall i :: 0 <= i < |mem| ==> End(mem[i]) + n <= U64
  }

  /** With that room nothing wraps, and the block found is free memory. */
  lemma FoundFree(mem: seq<Region>, res: seq<Region>, seen: seq<Region>, start: nat, size: nat, minAddr: nat,
                  align: nat)
    requires align > 0 && size < U64 && Tried(mem, res, seen, Some(start), size, minAddr, align)
    ensures U64 % align == 0 && Room(mem, size + align) ==>
              && start % align == 0 && minAddr <= start && start + size < U64
              && forall x: nat :: start <= x < start + size ==> FreeAt(mem, res, x)
  {
    if U64 % align == 0 && Room(mem, size + align) {
      var range := seen[|seen| - 1];
      InMemory(mem, res, seen, |seen| - 1, size + align);
      RoundUpIs(range.base, align);
      if align > U64 {
        Arith.DivModUnique(U64, align, 0, U64);
      }
      FitExact(range, size, minAddr, align);
      hide Fit, RoundUp;
      forall x: nat | start <= x < start + size
        ensures FreeAt(mem, res, x)
      {
        assert Points(seen, x);
      }
    }
  }

  lemma InMemory(mem: seq<Region>, res: seq<Region>, seen: seq<Region>, i: nat, n: nat)
    requires Merged(seen) && i < |seen| && Room(mem, n) && forall x: nat :: Points(seen, x) ==> FreeAt(mem, res, x)
    ensures seen[i].size > 0 && End(seen[i]) + n <= U64
  {
    var x := End(seen[i]) - 1;
    assert seen[i].base <= x < End(seen[i]);
    assert Points(seen, x);
    assert FreeAt(mem, res, x);
  }

  lemma FoundNowhere(mem: seq<Region>, res: seq<Region>, seen: seq<Region>, m: nat, r: nat, size: nat, minAddr: nat,
                     align: nat)
    requires align > 0 && Walked(mem, res, seen, m, r) && NoneFits(seen, size, minAddr, align)
    requires forall x: nat :: !Left(mem, res, m, r, x)
    ensures Tried(mem, res, seen, None, size, minAddr, align)
  {
    hide NoneFits;
    WalkEnd(mem, res, seen, m, r);
  }
}
