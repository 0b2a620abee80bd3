/** The boot-time region sets of src/mm/memblock.c, kept in fixed arrays that are shifted in place. */
module Memblock {
  import opened MemRegions

  const U64: nat := 0x1_0000_0000_0000_0000

  class RegionSet {
    const regions: array<Region>
    var cnt: nat

    constructor (max: nat)
      ensures fresh(regions) && regions.Length == max && cnt == 0
    {
      regions := new Region[max](_ => Region(0, 0));
      cnt := 0;
    }

    /** Sorted, merged, and every region ends below 2^64. */
    ghost predicate Valid()
      reads `cnt, regions
    {
      cnt <= regions.Length && Merged(regions[..cnt]) && Bounded(regions[..cnt])
    }

    ghost function View(): seq<Region>
      requires cnt <= regions.Length
      reads `cnt, regions
    {
      regions[..cnt]
    }

    /** memblock_move_regions, a memmove. */
    method MoveRegions(to: nat, from: nat, n: nat)
      requires to + n <= regions.Length && from + n <= regions.Length
      modifies regions
      ensures regions[..] == old(regions[..to]) + old(regions[from..from + n]) + old(regions[to + n..])
    {
      ghost var before := regions[..];
      var moved := regions[from..from + n];
      var i := 0;
      while i < n
        invariant i <= n
        invariant forall j :: 0 <= j < regions.Length ==>
                  regions[j] == if to <= j < to + i then moved[j - to] else before[j]
      {
        regions[to + i] := moved[i];
        i := i + 1;
      }
      assert regions[..] == before[..to] + moved + before[to + n..];
    }

    /** memblock_insert_region. */
    method InsertRegion(idx: nat, base: nat, size: nat)
      requires idx <= cnt < regions.Length
      modifies regions, `cnt
      ensures cnt == old(cnt) + 1 && View() == old(View())[..idx] + [Region(base, size)] + old(View())[idx..]
    {
      ghost var before := regions[..];
      if idx < cnt {
        MoveRegions(idx + 1, idx, cnt - idx);
      }
      regions[idx] := Region(base, size);
      cnt := cnt + 1;
      assert regions[..cnt] == before[..cnt - 1][..idx] + [Region(base, size)] + before[..cnt - 1][idx..];
    }

    /** Two neighbours become one and the rest moves down. */
    method JoinAt(idx: nat)
      requires idx + 1 < cnt <= regions.Length
      modifies regions, `cnt
      ensures cnt == old(cnt) - 1 && View() == JoinedAt(old(View()), idx)
    {
      ghost var s := View();
      var r := Region(regions[idx].base, regions[idx].size + regions[idx + 1].size);
      regions[idx] := r;
      MoveRegions(idx + 1, idx + 2, cnt - idx - 2);
      cnt := cnt - 1;
      assert regions[..cnt] == s[..idx] + [r] + s[idx + 2..];
    }

    /** memblock_merge_regions. */
    method MergeRegions()
      requires cnt <= regions.Length
      modifies regions, `cnt
      ensures cnt <= regions.Length && View() == Joined(old(View()))
    {
      hide *;
      ghost var s0 := View();
      ViewIs();
      JoinStart(s0);
      if cnt < 2 {
        return;
      }
      var idx := 0;
      while idx < cnt - 1
        invariant idx < cnt <= regions.Length && |View()| == cnt && Joining(s0, View(), idx)
        decreases cnt - idx
      {
        ViewIs();
        JoinStep(s0, View(), idx);
        if End(regions[idx]) == regions[idx + 1].base {
          JoinAt(idx);
        } else {
          idx := idx + 1;
        }
        ViewIs();
      }
      JoinStop(s0, View(), idx);
    }

    lemma ViewIs()
      requires cnt <= regions.Length
      ensures |View()| == cnt && forall i :: 0 <= i < cnt ==> View()[i] == regions[i]
    {
    }

    /** One pass of memblock_add_region: count what is missing, and put it in if `insert` says so. */
    method Pass(from: nat, end: nat, insert: bool) returns (nrNew: nat)
      requires cnt <= regions.Length && (insert ==> |Fill(View(), from, end)| <= regions.Length)
      modifies regions, `cnt
      ensures cnt <= regions.Length && nrNew + |old(View())| == |Fill(old(View()), from, end)|
      ensures View() == if insert then Fill(old(View()), from, end) else old(View())
    {
      hide *;
      ghost var s0 := View();
      ghost var p := Pos([], 0);
      var base, idx := from, 0;
      nrNew := 0;
      PassStart(s0, from, end, insert);
      ViewIs();
      while idx < cnt
        invariant cnt <= regions.Length && idx <= cnt
        invariant Passing(s0, View(), from, end, insert, p, base, idx, nrNew)
        decreases |s0| - p.k
      {
        ViewIs();
        PassHere(s0, View(), from, end, insert, p, base, idx, nrNew);
        var rbase, rend := regions[idx].base, End(regions[idx]);
        if end <= rbase {
          break;
        }
        if base < rend {
          if base < rbase {
            nrNew := nrNew + 1;
            PassGap(s0, View(), from, end, insert, p, base, idx, nrNew - 1);
            if insert {
              InsertRegion(idx, base, rbase - base);
              idx := idx + 1;
            }
            p := Pos(p.done + [Region(base, rbase - base)], p.k);
            PassOver(s0, View(), from, end, insert, p, rbase, idx, nrNew);
          } else {
            PassOver(s0, View(), from, end, insert, p, base, idx, nrNew);
          }
          base := Min(end, rend);
        } else {
          PassSkip(s0, View(), from, end, insert, p, base, idx, nrNew);
        }
        p := Pos(p.done + [s0[p.k]], p.k + 1);
        idx := idx + 1;
        ViewIs();
      }
      ViewIs();
      PassEnd(s0, View(), from, end, insert, p, base, idx, nrNew);
      if end > base {
        nrNew := nrNew + 1;
        if insert {
          InsertRegion(idx, base, end - base);
        }
      }
    }

    /**
     memblock_add_region. The end wraps at 64 bits. The first pass only counts, unless there is room for the
     worst case; `ok` is false where the code panics, and then nothing has changed.
     */
    method AddRegion(base: nat, size: nat) returns (ok: bool)
      requires Valid() && regions.Length > 0 && base < U64 && size < U64
      modifies regions, `cnt
      ensures cnt <= regions.Length
      ensures size == 0 ==> ok && View() == old(View())
      ensures size > 0 && old(cnt) == 0 ==> ok && View() == [Region(base, size)]
      ensures size > 0 && old(cnt) > 0 ==>
                && (ok <==> |Fill(old(View()), base, (base + size) % U64)| <= regions.Length)
                && View() == if ok then Added(old(View()), base, (base + size) % U64) else old(View())
      ensures ok && (base + size < U64 || old(cnt) > 0) ==> Valid()
      ensures ok && base + size < U64 ==>
              forall x: nat :: Points(View(), x) <==> Points(old(View()), x) || base <= x < base + size
      ensures base + size >= U64 && old(cnt) > 0 ==> ok && View() == old(View())
      ensures 2 * old(cnt) + 1 <= regions.Length ==> ok
    {
      hide *;
      ValidIs();
      ViewIs();
      var end := (base + size) % U64;
      Wrap(base, size);
      AddedAlways(View(), base, end);
      AddedBounded(View(), base, end);
      ok := true;
      if size == 0 {
        return;
      }
      if cnt == 0 {
        regions[0] := Region(base, size);
        cnt := cnt + 1;
        OnlyRegion(base, size);
        return;
      }
      if cnt * 2 + 1 > regions.Length {
        var missing := Pass(base, end, false);
        ViewIs();
        if missing > regions.Length - cnt {
          ok := false;
          return;
        }
      }
      var _ := Pass(base, end, true);
      MergeRegions();
      ValidNow();
    }

    lemma ValidIs()
      requires Valid()
      ensures cnt <= regions.Length && Merged(View()) && Bounded(View())
    {
    }

    lemma ValidNow()
      requires cnt <= regions.Length
      ensures Merged(View()) && Bounded(View()) ==> Valid()
    {
    }

    lemma OnlyRegion(base: nat, size: nat)
      requires 1 == cnt <= regions.Length && regions[0] == Region(base, size) && size > 0
      ensures View() == [Region(base, size)] && (base + size < U64 ==> Valid())
      ensures forall x: nat :: Points(View(), x) <==> base <= x < base + size
      ensures forall x: nat :: !Points([], x)
    {
      assert regions[..1] == [Region(base, size)];
      assert [Region(base, size)][0].base == base;
    }

    /**
     memblock_remove_region of a part of region `idx`. The end wraps at 64 bits. The precondition is the assertion
     of the code; `ok` is false where it panics.
     */
    method RemoveRegion(idx: nat, base: nat, size: nat) returns (ok: bool)
      requires Valid() && idx < cnt && base < U64 && size < U64
      requires regions[idx].base <= base && (base + size) % U64 <= End(regions[idx])
      modifies regions, `cnt
      ensures cnt <= regions.Length
      ensures ok <==>
              !(old(regions[idx].base) < base && (base + size) % U64 != old(End(regions[idx])) &&
                  old(cnt) == regions.Length)
      ensures !ok ==> View() == old(View())
      ensures ok ==> View() == Cut(old(View()), idx, base, (base + size) % U64)
    {
      hide *;
      ValidIs();
      ViewIs();
      ghost var s := View();
      var end := (base + size) % U64;
      var rbase, rend := regions[idx].base, End(regions[idx]);
      CutForms(s, idx, base, end);
      ok := true;
      if base == rbase {
        if end == rend {
          DeleteAt(idx);
        } else {
          SetAt(idx, Region(end, rend - end));
        }
        return;
      }
      if end == rend {
        SetAt(idx, Region(rbase, base - rbase));
        return;
      }
      if cnt > regions.Length - 1 {
        return false;
      }
      InsertRegion(idx + 1, end, rend - end);
      SetAt(idx, Region(rbase, base - rbase));
    }

    method DeleteAt(idx: nat)
      requires idx < cnt <= regions.Length
      modifies regions, `cnt
      ensures cnt == old(cnt) - 1 && View() == old(View())[..idx] + old(View())[idx + 1..]
    {
      ghost var s := View();
      MoveRegions(idx, idx + 1, cnt - idx - 1);
      cnt := cnt - 1;
      assert View() == s[..idx] + s[idx + 1..];
    }

    method SetAt(idx: nat, r: Region)
      requires idx < cnt <= regions.Length
      modifies regions
      ensures View() == old(View())[idx := r]
    {
      regions[idx] := r;
    }

    /** memblock_find_region: the first region that the base and the end, which wraps at 64 bits, lie in. */
    method FindRegion(base: nat, size: nat) returns (found: bool, idx: nat)
      requires Valid() && base < U64 && size < U64
      ensures found ==> idx < cnt && Within(View()[idx], base, (base + size) % U64)
      ensures found ==> forall i :: 0 <= i < idx ==> !Within(View()[i], base, (base + size) % U64)
      ensures !found ==> forall i :: 0 <= i < |View()| ==> !Within(View()[i], base, (base + size) % U64)
    {
      var end := (base + size) % U64;
      idx := 0;
      while idx < cnt
        invariant idx <= cnt && forall i :: 0 <= i < idx ==> !Within(regions[i], base, end)
      {
        if base >= regions[idx].base && end <= End(regions[idx]) {
          return true, idx;
        }
        idx := idx + 1;
      }
      found := false;
    }

    /**
     memblock_free: what is wholly inside one region is taken out, anything else ignored. If base plus size wraps, a
     region may be found all the same; then the result is wrong (see CutWraps).
     */
    method Free(base: nat, size: nat) returns (ok: bool, ghost idx: nat)
      requires Valid() && base < U64 && size < U64
      modifies regions, `cnt
      ensures cnt <= regions.Length
      ensures old(cnt) < regions.Length ==> ok
      ensures !ok ==> View() == old(View())
      ensures !Holds(old(View()), base, (base + size) % U64) ==> ok && View() == old(View())
      ensures ok && Holds(old(View()), base, (base + size) % U64) ==>
                && idx < |old(View())| && Within(old(View())[idx], base, (base + size) % U64)
                && View() == Cut(old(View()), idx, base, (base + size) % U64)
      ensures ok && base + size < U64 && size > 0 ==> Valid()
      ensures ok && base + size < U64 && Holds(old(View()), base, base + size) ==>
                forall x: nat :: Points(View(), x) <==> Points(old(View()), x) && !(base <= x < base + size)
    {
      hide *;
      ValidIs();
      ViewIs();
      Wrap(base, size);
      ghost var s, end := View(), (base + size) % U64;
      var found, i := FindRegion(base, size);
      idx := i;
      assert View() == s;
      FoundIs(s, base, end, found, i);
      ok := true;
      if found {
        if base <= end {
          CutIs(s, i, base, end);
          CutBounded(s, i, base, end);
        }
        ok := RemoveRegion(i, base, size);
        ValidNow();
      }
    }
  }

  ghost predicate Bounded(s: seq<Region>) {
    forall i :: 0 <= i < |s| ==> End(s[i]) < U64
  }

  /** The test of memblock_find_region. */
  predicate Within(r: Region, base: nat, end: nat) {
    r.base <= base && end <= End(r)
  }

  /** Some region passes it. */
  ghost predicate Holds(s: seq<Region>, base: nat, end: nat) {
    exists i :: 0 <= i < |s| && Within(s[i], base, end)
  }

  lemma FoundIs(s: seq<Region>, base: nat, end: nat, found: bool, idx: nat)
    requires found ==> idx < |s| && Within(s[idx], base, end)
    requires !found ==> forall i :: 0 <= i < |s| ==> !Within(s[i], base, end)
    ensures found <==> Holds(s, base, end)
    ensures found ==> s[idx].base <= base && end <= End(s[idx])
  {
  }

  lemma PointBounded(s: seq<Region>, x: nat)
    requires Bounded(s) && Points(s, x)
    ensures x + 1 < U64
  {
  }

  lemma BoundedFrom(s: seq<Region>)
    requires Merged(s) && forall x: nat :: Points(s, x) ==> x + 1 < U64
    ensures Bounded(s)
  {
    forall i | 0 <= i < |s|
      ensures End(s[i]) < U64
    {
      var x := End(s[i]) - 1;
      assert s[i].base <= x < End(s[i]);
      assert Points(s, x);
    }
  }

  lemma AddedBounded(s: seq<Region>, base: nat, end: nat)
    requires Merged(s) && Bounded(s) && end < U64
    ensures Bounded(Added(s, base, end))
  {
    hide Merged, Added;
    if base <= end {
      AddedIs(s, base, end);
      forall x: nat | Points(Added(s, base, end), x)
        ensures x + 1 < U64
      {
        if Points(s, x) {
          PointBounded(s, x);
        }
      }
      BoundedFrom(Added(s, base, end));
    } else {
      AddedWrapped(s, base, end);
    }
  }

  lemma CutBounded(s: seq<Region>, idx: nat, base: nat, end: nat)
    requires Bounded(s) && idx < |s| && s[idx].base <= base <= end <= End(s[idx])
    ensures Bounded(Cut(s, idx, base, end))
  {
  }

  /**
   Taking a part out of a region leaves a merged list of exactly the difference if and only if base plus size does not
   wrap, for every part that is not empty.
   */
  lemma CutWraps(s: seq<Region>, idx: nat, base: nat, size: nat)
    requires Merged(s) && Bounded(s) && idx < |s| && base < U64 && 0 < size < U64 &&
             Within(s[idx], base, (base + size) % U64)
    ensures var t := Cut(s, idx, base, (base + size) % U64);
            (Merged(t) && forall x: nat :: Points(t, x) <==> Points(s, x) && !(base <= x < base + size))
            <==> base + size < U64
  {
    Wrap(base, size);
    var end := (base + size) % U64;
    if base + size < U64 {
      CutIs(s, idx, base, end);
    } else {
      var t := Cut(s, idx, base, end);
      var r := s[idx];
      if base == r.base {
        assert t[idx] == Region(end, End(r) - end);
        assert t[idx].base <= base < End(t[idx]);
        assert Points(t, base);
      } else if end == End(r) {
        assert t[idx] == Region(r.base, base - r.base);
        assert t[idx].base <= End(r) < End(t[idx]);
        assert Points(t, End(r)) && !Points(s, End(r));
      } else {
        assert t[idx] == Region(r.base, base - r.base) && t[idx + 1] == Region(end, End(r) - end);
        assert !Merged(t);
      }
    }
  }

  /** A size near 2^64 passes the test, and two overlapping regions are left. */
  lemma WrappedFree()
    ensures var s := [Region(0x1000, 0x2000)];
            && Within(s[0], 0x2000, (0x2000 + (U64 - 0x1000)) % U64)
            && Cut(s, 0, 0x2000, 0x1000) == [Region(0x1000, 0x1000), Region(0x1000, 0x2000)]
  {
  }

  /** An empty part strictly inside a region: two pieces that touch. */
  lemma EmptyCut()
    ensures var s := [Region(0x1000, 0x2000)];
            Merged(s) && Cut(s, 0, 0x2000, 0x2000) == [Region(0x1000, 0x1000), Region(0x2000, 0x1000)] &&
                !Merged(Cut(s, 0, 0x2000, 0x2000))
  {
    var t := Cut([Region(0x1000, 0x2000)], 0, 0x2000, 0x2000);
    assert End(t[0]) == t[1].base;
  }

  lemma CutForms(s: seq<Region>, idx: nat, base: nat, end: nat)
    requires idx < |s| && s[idx].base <= base && end <= End(s[idx])
    ensures base == s[idx].base && end == End(s[idx]) ==> Cut(s, idx, base, end) == s[..idx] + s[idx + 1..]
    ensures base == s[idx].base && end != End(s[idx]) ==>
            Cut(s, idx, base, end) == s[idx := Region(end, End(s[idx]) - end)]
    ensures base != s[idx].base && end == End(s[idx]) ==>
            Cut(s, idx, base, end) == s[idx := Region(s[idx].base, base - s[idx].base)]
    ensures base != s[idx].base && end != End(s[idx]) ==>
              Cut(s, idx, base, end) == (s[..idx + 1] + [Region(end,
                                                                End(s[idx]) - end)] + s[idx + 1..])[idx :=
                                                                    Region(s[idx].base, base - s[idx].base)]
  {
    assert s[..idx] + [] + s[idx + 1..] == s[..idx] + s[idx + 1..];
  }

  /** Region `idx` without `[base, end)`, as the code computes it whether or not the end has wrapped. */
  function Cut(s: seq<Region>, idx: nat, base: nat, end: nat): seq<Region>
    requires idx < |s| && s[idx].base <= base && end <= End(s[idx])
  {
    s[..idx] + Left(s[idx], base, end) + s[idx + 1..]
  }

  lemma CutIs(s: seq<Region>, idx: nat, base: nat, end: nat)
    requires Merged(s) && idx < |s| && s[idx].base <= base <= end <= End(s[idx])
    ensures Merged(Cut(s, idx, base, end)) <==> base < end || base == s[idx].base || end == End(s[idx])
    ensures forall x: nat :: Points(Cut(s, idx, base, end), x) <==> Points(s, x) && !(base <= x < end)
  {
    CutMerged(s, idx, base, end);
    hide Merged, Cut;
    forall x: nat
      ensures Points(Cut(s, idx, base, end), x) <==> Points(s, x) && !(base <= x < end)
    {
      CutPoints(s, idx, base, end, x);
    }
  }

  lemma CutMerged(s: seq<Region>, idx: nat, base: nat, end: nat)
    requires Merged(s) && idx < |s| && s[idx].base <= base <= end <= End(s[idx])
    ensures Merged(Cut(s, idx, base, end)) <==> base < end || base == s[idx].base || end == End(s[idx])
  {
    var t := Cut(s, idx, base, end);
    if base == end && base != s[idx].base && end != End(s[idx]) {
      assert End(t[idx]) == t[idx + 1].base;
    }
  }

  lemma AppendPoints(a: seq<Region>, b: seq<Region>, x: nat)
    ensures Points(a + b, x) <==> Points(a, x) || Points(b, x)
  {
    var t := a + b;
    if Points(a, x) {
      var i :| 0 <= i < |a| && a[i].base <= x < End(a[i]);
      assert t[i].base <= x < End(t[i]);
    }
    if Points(b, x) {
      var i :| 0 <= i < |b| && b[i].base <= x < End(b[i]);
      assert t[i + |a|].base <= x < End(t[i + |a|]);
    }
    if Points(t, x) {
      var i :| 0 <= i < |t| && t[i].base <= x < End(t[i]);
      if i < |a| {
        assert a[i].base <= x < End(a[i]);
      } else {
        assert b[i - |a|].base <= x < End(b[i - |a|]);
      }
    }
  }

  /** What is left of one region. */
  function Left(r: Region, base: nat, end: nat): seq<Region>
    requires r.base <= base && end <= End(r)
  {
    if base == r.base && end == End(r) then [] else if base == r.base then [Region(end, End(r) - end)]
    else if end == End(r) then [Region(r.base, base - r.base)]
        else [Region(r.base, base - r.base), Region(end, End(r) - end)]
  }

  lemma LeftPoints(r: Region, base: nat, end: nat, x: nat)
    requires r.base <= base <= end <= End(r)
    ensures Points(Left(r, base, end), x) <==> r.base <= x < End(r) && !(base <= x < end)
  {
    var t := Left(r, base, end);
    if |t| >= 1 {
      assert t[0].base <= x < End(t[0]) ==> Points(t, x);
    }
    if |t| == 2 {
      assert t[1].base <= x < End(t[1]) ==> Points(t, x);
    }
  }

  lemma Aside(s: seq<Region>, idx: nat, x: nat)
    requires Merged(s) && idx < |s|
    ensures Points(s[..idx], x) ==> x < s[idx].base
    ensures Points(s[idx + 1..], x) ==> x >= End(s[idx])
  {
  }

  lemma CutPoints(s: seq<Region>, idx: nat, base: nat, end: nat, x: nat)
    requires Merged(s) && idx < |s| && s[idx].base <= base <= end <= End(s[idx])
    ensures Points(Cut(s, idx, base, end), x) <==> Points(s, x) && !(base <= x < end)
  {
    hide Merged, Points, Left;
    var r, a, b := s[idx], s[..idx], s[idx + 1..];
    Aside(s, idx, x);
    assert s == a + ([r] + b) && Cut(s, idx, base, end) == a + (Left(r, base, end) + b);
    AppendPoints(a, [r] + b, x);
    ConsPoints(r, b, x);
    AppendPoints(a, Left(r, base, end) + b, x);
    AppendPoints(Left(r, base, end), b, x);
    LeftPoints(r, base, end, x);
  }

  lemma Wrap(base: nat, size: nat)
    requires base < U64 && size < U64
    ensures base + size < U64 ==> (base + size) % U64 == base + size
    ensures base + size >= U64 ==> (base + size) % U64 < base
  {
  }

  /** All that holds of an addition, wrapped or not. */
  lemma AddedAlways(s: seq<Region>, base: nat, end: nat)
    requires Merged(s)
    ensures Added(s, base, end) == Joined(Fill(s, base, end)) && |s| <= |Fill(s, base, end)| <= 2 * |s| + 1
    ensures base <= end ==>
            Merged(Added(s, base, end)) &&
            forall x: nat :: Points(Added(s, base, end), x) <==> Points(s, x) || base <= x < end
    ensures end < base ==> Added(s, base, end) == s && Fill(s, base, end) == s
  {
    MergedSorted(s);
    hide Points, Merged, Sorted, Fill, Joined;
    if base <= end {
      AddedIs(s, base, end);
      FillSorted(s, base, end);
    } else {
      AddedWrapped(s, base, end);
      FillWrapped(s, base, end);
    }
  }

  /** How far a pass has come: what it has put out, and how many of the regions it has seen. */
  datatype Pos = Pos(done: seq<Region>, k: nat)

  ghost predicate Passing(s0: seq<Region>, v: seq<Region>, from: nat, end: nat, insert: bool, p: Pos, base: nat,
                          idx: nat, nrNew: nat) {
    && p.k <= |s0| && |p.done| == nrNew + p.k && (v == if insert then p.done + s0[p.k..] else s0)
    && (idx == if insert then |p.done| else p.k) && Fill(s0, from, end) == p.done + Fill(s0[p.k..], base, end)
  }

  lemma PassStart(s0: seq<Region>, from: nat, end: nat, insert: bool)
    ensures Passing(s0, s0, from, end, insert, Pos([], 0), from, 0, 0)
  {
    hide Fill;
    assert s0[0..] == s0 && [] + s0 == s0;
  }

  lemma PassHere(s0: seq<Region>, v: seq<Region>, from: nat, end: nat, insert: bool, p: Pos, base: nat, idx: nat,
                 nrNew: nat)
    requires Passing(s0, v, from, end, insert, p, base, idx, nrNew) && idx < |v|
    ensures p.k < |s0| && v[idx] == s0[p.k]
  {
    hide Fill;
  }

  lemma GapFill(rest: seq<Region>, base: nat, end: nat)
    requires |rest| > 0 && base < rest[0].base < end && base < End(rest[0])
    ensures Fill(rest, base, end) == [Region(base, rest[0].base - base)] + Fill(rest, rest[0].base, end)
    ensures |Fill(rest, rest[0].base, end)| >= |rest|
  {
    FillStep(rest, base, end);
    FillStep(rest, rest[0].base, end);
    FillLonger(rest, rest[0].base, end);
  }

  /** The gap before the next region. */
  lemma PassGap(s0: seq<Region>, v: seq<Region>, from: nat, end: nat, insert: bool, p: Pos, base: nat, idx: nat,
                nrNew: nat)
    requires Passing(s0, v, from, end, insert, p, base, idx, nrNew) && idx < |v| && v[idx].base < end &&
             base < v[idx].base && base < End(v[idx])
    ensures p.k < |s0| && (insert ==> |v| + 1 <= |Fill(s0, from, end)|)
    ensures var piece := Region(base, v[idx].base - base); var p' := Pos(p.done + [piece], p.k);
            Passing(s0, if insert then v[..idx] + [piece] + v[idx..]
                else v, from, end, insert, p', v[idx].base, if insert then idx + 1 else idx, nrNew + 1)
  {
    hide Fill;
    PassHere(s0, v, from, end, insert, p, base, idx, nrNew);
    var r, rest := s0[p.k], s0[p.k..];
    GapFill(rest, base, end);
    var piece := Region(base, r.base - base);
    assert p.done + ([piece] + Fill(rest, r.base, end)) == p.done + [piece] + Fill(rest, r.base, end);
    if insert {
      assert v[..idx] + [piece] + v[idx..] == p.done + [piece] + rest;
    }
  }

  /** A region that overlaps what is left is passed over, and so is what it covers. */
  lemma PassOver(s0: seq<Region>, v: seq<Region>, from: nat, end: nat, insert: bool, p: Pos, base: nat, idx: nat,
                 nrNew: nat)
    requires Passing(s0, v, from, end, insert, p, base, idx, nrNew) && p.k < |s0| && s0[p.k].base < end &&
             s0[p.k].base <= base && (base < End(s0[p.k]) || base == s0[p.k].base)
    ensures Passing(s0, v, from, end, insert, Pos(p.done + [s0[p.k]], p.k + 1), Min(end, End(s0[p.k])), idx + 1, nrNew)
  {
    FillStep(s0[p.k..], base, end);
    hide Fill;
    PassOn(s0, p);
  }

  lemma PassOn(s0: seq<Region>, p: Pos)
    requires p.k < |s0|
    ensures s0[p.k..][1..] == s0[p.k + 1..] && p.done + s0[p.k..] == p.done + [s0[p.k]] + s0[p.k + 1..]
    ensures forall t: seq<Region> :: p.done + ([s0[p.k]] + t) == p.done + [s0[p.k]] + t
  {
  }

  lemma PassSkip(s0: seq<Region>, v: seq<Region>, from: nat, end: nat, insert: bool, p: Pos, base: nat, idx: nat,
                 nrNew: nat)
    requires Passing(s0, v, from, end, insert, p, base, idx, nrNew) && p.k < |s0| && s0[p.k].base < end &&
             base >= End(s0[p.k])
    ensures Passing(s0, v, from, end, insert, Pos(p.done + [s0[p.k]], p.k + 1), base, idx + 1, nrNew)
  {
    FillStep(s0[p.k..], base, end);
    hide Fill;
    PassOn(s0, p);
  }

  /** What is left when the pass is past every region that begins before `end`. */
  lemma PassEnd(s0: seq<Region>, v: seq<Region>, from: nat, end: nat, insert: bool, p: Pos, base: nat, idx: nat,
                nrNew: nat)
    requires Passing(s0, v, from, end, insert, p, base, idx, nrNew) && idx <= |v| && (idx < |v| ==> end <= v[idx].base)
    ensures nrNew + |s0| + (if base < end then 1 else 0) == |Fill(s0, from, end)|
    ensures insert && base < end ==>
            |v| < |Fill(s0, from, end)| && Fill(s0, from, end) == v[..idx] + [Region(base, end - base)] + v[idx..]
    ensures insert && base >= end ==> v == Fill(s0, from, end)
    ensures !insert ==> v == s0
  {
    FillRest(s0[p.k..], base, end);
    hide Fill;
    if base < end {
      var piece := Region(base, end - base);
      assert p.done + ([piece] + s0[p.k..]) == p.done + [piece] + s0[p.k..];
    }
  }

  function JoinedAt(s: seq<Region>, idx: nat): seq<Region>
    requires idx + 1 < |s|
  {
    s[..idx] + [Region(s[idx].base, s[idx].size + s[idx + 1].size)] + s[idx + 2..]
  }

  /** Everything before `idx` is final. */
  ghost predicate Joining(s0: seq<Region>, v: seq<Region>, idx: nat) {
    idx <= |v| && Joined(s0) == v[..idx] + Joined(v[idx..])
  }

  lemma JoinStart(s: seq<Region>)
    ensures Joining(s, s, 0) && (|s| < 2 ==> Joined(s) == s)
  {
    hide Joined;
    assert s[0..] == s && s[..0] == [] && [] + Joined(s) == Joined(s);
    JoinedShort(s);
  }

  lemma JoinStep(s0: seq<Region>, v: seq<Region>, idx: nat)
    requires Joining(s0, v, idx) && idx + 1 < |v|
    ensures End(v[idx]) == v[idx + 1].base ==> Joining(s0, JoinedAt(v, idx), idx)
    ensures End(v[idx]) != v[idx + 1].base ==> Joining(s0, v, idx + 1)
  {
    assert v[idx..][2..] == v[idx + 2..] && v[idx..][1..] == v[idx + 1..];
    JoinedCases(v[idx..]);
    hide Joined;
    if End(v[idx]) == v[idx + 1].base {
      var w := JoinedAt(v, idx);
      assert w[..idx] == v[..idx] && w[idx..] == [Region(v[idx].base, v[idx].size + v[idx + 1].size)] + v[idx + 2..];
    } else {
      assert v[..idx + 1] == v[..idx] + [v[idx]];
    }
  }

  lemma JoinedCases(s: seq<Region>)
    requires |s| >= 2
    ensures End(s[0]) == s[1].base ==> Joined(s) == Joined([Region(s[0].base, s[0].size + s[1].size)] + s[2..])
    ensures End(s[0]) != s[1].base ==> Joined(s) == [s[0]] + Joined(s[1..])
  {
  }

  lemma JoinStop(s0: seq<Region>, v: seq<Region>, idx: nat)
    requires Joining(s0, v, idx) && idx + 1 == |v|
    ensures v == Joined(s0)
  {
    JoinedShort(v[idx..]);
    hide Joined;
    assert v == v[..idx] + v[idx..];
  }

  lemma JoinedShort(s: seq<Region>)
    ensures |s| < 2 ==> Joined(s) == s
  {
  }

  /** What is left when the pass is past every region that begins before `end`. */
  lemma FillRest(s: seq<Region>, base: nat, end: nat)
    requires |s| == 0 || end <= s[0].base
    ensures Fill(s, base, end) == if base < end then [Region(base, end - base)] + s else s
  {
    if |s| > 0 {
      FillStep(s, base, end);
    } else {
      assert [Region(base, if base < end then end - base else 0)] + s ==
             [Region(base, if base < end then end - base else 0)];
    }
  }

  lemma {:induction false} FillLonger(s: seq<Region>, base: nat, end: nat)
    ensures |Fill(s, base, end)| >= |s|
  {
    if |s| > 0 {
      FillStep(s, base, end);
      hide Fill;
      FillLonger(s[1..], base, end);
      FillLonger(s[1..], Min(end, End(s[0])), end);
    }
  }
}
