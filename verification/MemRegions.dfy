/** Sorted lists of memory regions: the union with one more region, and merging neighbours (src/mm/memblock.c). */
module MemRegions {
  datatype Region = Region(base: nat, size: nat)

  function End(r: Region): nat {
    r.base + r.size
  }

  /** The addresses a list of regions stands for. */
  ghost predicate Points(s: seq<Region>, x: nat) {
    exists i :: 0 <= i < |s| && s[i].base <= x < End(s[i])
  }

  /** In order, none empty, none overlapping; neighbours may touch. */
  ghost predicate Sorted(s: seq<Region>) {
    && (forall i :: 0 <= i < |s| ==> s[i].size > 0)
    && (forall i, j :: 0 <= i < j < |s| ==> End(s[i]) <= s[j].base)
  }

  /** And no neighbours touch. */
  ghost predicate Merged(s: seq<Region>) {
    && (forall i :: 0 <= i < |s| ==> s[i].size > 0)
    && (forall i, j :: 0 <= i < j < |s| ==> End(s[i]) < s[j].base)
  }

  lemma MergedSorted(s: seq<Region>)
    requires Merged(s)
    ensures Sorted(s)
  {
  }

  lemma TailSorted(s: seq<Region>)
    requires Sorted(s) && |s| > 0
    ensures Sorted(s[1..]) && s[0].size > 0 && forall i :: 0 <= i < |s[1..]| ==> End(s[0]) <= s[1..][i].base
  {
  }

  lemma ConsSorted(r: Region, s: seq<Region>)
    requires r.size > 0 && Sorted(s) && (|s| > 0 ==> End(r) <= s[0].base)
    ensures Sorted([r] + s)
  {
    forall j | 0 <= j < |s|
      ensures End(r) <= s[j].base
    {
    }
  }

  lemma ConsPoints(r: Region, s: seq<Region>, x: nat)
    ensures Points([r] + s, x) <==> r.base <= x < End(r) || Points(s, x)
  {
    var t := [r] + s;
    if Points(s, x) {
      var i :| 0 <= i < |s| && s[i].base <= x < End(s[i]);
      assert t[i + 1].base <= x < End(t[i + 1]);
    }
    if r.base <= x < End(r) {
      assert t[0].base <= x < End(t[0]);
    }
    if Points(t, x) {
      var i :| 0 <= i < |t| && t[i].base <= x < End(t[i]);
      if i > 0 {
        assert s[i - 1].base <= x < End(s[i - 1]);
      }
    }
  }

  /** The piece `[base, end)`, if there is any. */
  function Piece(base: nat, end: nat): seq<Region> {
    if base < end then [Region(base, end - base)] else []
  }

  lemma PiecePoints(base: nat, end: nat, s: seq<Region>, x: nat)
    ensures Points(Piece(base, end) + s, x) <==> base <= x < end || Points(s, x)
  {
    if base < end {
      ConsPoints(Region(base, end - base), s, x);
    } else {
      assert Piece(base, end) + s == s;
    }
  }

  function Min(a: nat, b: nat): nat {
    if a < b then a else b
  }

  /** The pass of memblock_add_region that inserts what is missing of `[base, end)` between the regions. */
  function Fill(s: seq<Region>, base: nat, end: nat): seq<Region> {
    if |s| == 0 then Piece(base, end)
    else if end <= s[0].base then Piece(base, end) + s
    else if base >= End(s[0]) then [s[0]] + Fill(s[1..], base, end)
    else Piece(base, s[0].base) + [s[0]] + Fill(s[1..], Min(end, End(s[0])), end)
  }

  /** The cases of the pass, with the piece in front written out. */
  lemma FillStep(s: seq<Region>, base: nat, end: nat)
    requires |s| > 0
    ensures s == [s[0]] + s[1..]
    ensures end <= s[0].base ==> Fill(s, base, end) == if base < end then [Region(base, end - base)] + s else s
    ensures end > s[0].base && base >= End(s[0]) ==> Fill(s, base, end) == [s[0]] + Fill(s[1..], base, end)
    ensures end > s[0].base && base < End(s[0]) ==>
              var rest := Fill(s[1..], Min(end, End(s[0])), end);
              Fill(s, base, end) == if base < s[0].base then [Region(base, s[0].base - base)] + ([s[0]] + rest)
                  else [s[0]] + rest
  {
    assert [] + s == s;
    if end > s[0].base && base < End(s[0]) {
      var rest := Fill(s[1..], Min(end, End(s[0])), end);
      assert Piece(base, s[0].base) + [s[0]] + rest == Piece(base, s[0].base) + ([s[0]] + rest);
    }
  }

  /** The filled list is sorted and starts no earlier than the list or the region does. */
  lemma {:induction false} FillSorted(s: seq<Region>, base: nat, end: nat)
    requires Sorted(s) && base <= end
    ensures Sorted(Fill(s, base, end))
    ensures |Fill(s, base, end)| > 0 ==> Fill(s, base, end)[0].base >= (if |s| > 0 then Min(base, s[0].base) else base)
    ensures |s| <= |Fill(s, base, end)| <= 2 * |s| + 1
  {
    if |s| > 0 {
      FillStep(s, base, end);
      TailSorted(s);
      hide Sorted, Fill;
      if end <= s[0].base {
        if base < end {
          ConsSorted(Region(base, end - base), s);
        }
      } else if base >= End(s[0]) {
        FillSorted(s[1..], base, end);
        ConsSorted(s[0], Fill(s[1..], base, end));
      } else {
        var mid := Min(end, End(s[0]));
        var rest := Fill(s[1..], mid, end);
        FillSorted(s[1..], mid, end);
        ConsSorted(s[0], rest);
        if base < s[0].base {
          ConsSorted(Region(base, s[0].base - base), [s[0]] + rest);
        }
      }
    }
  }

  lemma {:induction false} FillPoints(s: seq<Region>, base: nat, end: nat, x: nat)
    requires Sorted(s) && base <= end
    ensures Points(Fill(s, base, end), x) <==> Points(s, x) || base <= x < end
  {
    if |s| == 0 {
      assert Piece(base, end) + s == Piece(base, end);
      PiecePoints(base, end, s, x);
    } else if end <= s[0].base {
      PiecePoints(base, end, s, x);
    } else {
      TailSorted(s);
      assert s == [s[0]] + s[1..];
      ConsPoints(s[0], s[1..], x);
      if base >= End(s[0]) {
        FillPoints(s[1..], base, end, x);
        ConsPoints(s[0], Fill(s[1..], base, end), x);
      } else {
        var rest := Fill(s[1..], Min(end, End(s[0])), end);
        FillPoints(s[1..], Min(end, End(s[0])), end, x);
        ConsPoints(s[0], rest, x);
        PiecePoints(base, s[0].base, [s[0]] + rest, x);
        assert Piece(base, s[0].base) + [s[0]] + rest == Piece(base, s[0].base) + ([s[0]] + rest);
      }
    }
  }

  lemma {:induction false} FillNothing(s: seq<Region>, base: nat)
    requires Sorted(s)
    ensures Fill(s, base, base) == s
  {
    if |s| > 0 {
      FillStep(s, base, base);
      TailSorted(s);
      hide Sorted, Fill;
      FillNothing(s[1..], base);
    }
  }

  /** A region whose end has wrapped below its start adds nothing to a list that has any region. */
  lemma {:induction false} FillWrapped(s: seq<Region>, base: nat, end: nat)
    requires Sorted(s) && end < base
    ensures Fill(s, base, end) == s
  {
    if |s| > 0 {
      FillStep(s, base, end);
      TailSorted(s);
      hide Sorted, Fill;
      FillWrapped(s[1..], base, end);
      FillNothing(s[1..], end);
    }
  }

  /** The loop of memblock_merge_regions. */
  function Joined(s: seq<Region>): seq<Region>
    decreases |s|
  {
    if |s| < 2 then s
    else if End(s[0]) == s[1].base then Joined([Region(s[0].base, s[0].size + s[1].size)] + s[2..])
    else [s[0]] + Joined(s[1..])
  }

  lemma {:induction false} JoinedPoints(s: seq<Region>, x: nat)
    ensures Points(Joined(s), x) <==> Points(s, x)
    decreases |s|
  {
    if |s| >= 2 {
      assert s == [s[0]] + s[1..] && s[1..] == [s[1]] + s[2..];
      ConsPoints(s[0], s[1..], x);
      ConsPoints(s[1], s[2..], x);
      if End(s[0]) == s[1].base {
        var r := Region(s[0].base, s[0].size + s[1].size);
        JoinedPoints([r] + s[2..], x);
        ConsPoints(r, s[2..], x);
      } else {
        JoinedPoints(s[1..], x);
        ConsPoints(s[0], Joined(s[1..]), x);
      }
    }
  }

  lemma ConsMerged(r: Region, s: seq<Region>)
    requires r.size > 0 && Merged(s) && (|s| > 0 ==> End(r) < s[0].base)
    ensures Merged([r] + s)
  {
  }

  lemma {:induction false} JoinedMerged(s: seq<Region>)
    requires Sorted(s)
    ensures Merged(Joined(s)) && |Joined(s)| <= |s| && (|s| > 0 ==> |Joined(s)| > 0 && Joined(s)[0].base == s[0].base)
    decreases |s|
  {
    if |s| >= 2 {
      TailSorted(s);
      TailSorted(s[1..]);
      assert s[1..][1..] == s[2..];
      assert End(s[0]) <= s[1].base && s[1].size > 0 && forall i :: 0 <= i < |s[2..]| ==> End(s[1]) <= s[2..][i].base;
      hide Sorted, Merged;
      if End(s[0]) == s[1].base {
        var r := Region(s[0].base, s[0].size + s[1].size);
        ConsSorted(r, s[2..]);
        JoinedMerged([r] + s[2..]);
      } else {
        JoinedMerged(s[1..]);
        ConsMerged(s[0], Joined(s[1..]));
      }
    } else {
      assert Joined(s) == s;
    }
  }

  lemma {:induction false} JoinedSame(s: seq<Region>)
    requires Merged(s)
    ensures Joined(s) == s
  {
    if |s| >= 2 {
      assert End(s[0]) < s[1].base && Merged(s[1..]);
      JoinedSame(s[1..]);
      assert s == [s[0]] + s[1..];
    }
  }

  /** What memblock_add_region makes of a set. */
  function Added(s: seq<Region>, base: nat, end: nat): seq<Region> {
    Joined(Fill(s, base, end))
  }

  /** The result is sorted and merged again and stands for exactly the union. */
  lemma AddedIs(s: seq<Region>, base: nat, end: nat)
    requires Merged(s) && base <= end
    ensures Merged(Added(s, base, end)) && |Added(s, base, end)| <= 2 * |s| + 1
    ensures forall x: nat :: Points(Added(s, base, end), x) <==> Points(s, x) || base <= x < end
  {
    MergedSorted(s);
    FillSorted(s, base, end);
    JoinedMerged(Fill(s, base, end));
    forall x: nat
      ensures Points(Added(s, base, end), x) <==> Points(s, x) || base <= x < end
    {
      FillPoints(s, base, end, x);
      JoinedPoints(Fill(s, base, end), x);
    }
  }

  lemma AddedWrapped(s: seq<Region>, base: nat, end: nat)
    requires Merged(s) && end < base
    ensures Added(s, base, end) == s
  {
    MergedSorted(s);
    FillWrapped(s, base, end);
    JoinedSame(s);
  }
}
