/**
 The VMA list of an address space (src/mm/mmap.c), in page units. A list of regions denotes a
 partial map from pages to what backs them; splitting, trimming and removing regions are
 specified by what they do to that map.
 */
module Vma {
  import opened Cow

  datatype Kind = Anon | SharedFile

  datatype Slot = NoPage | Has(frame: Frame)

  /** `offset` is the file offset of the first page, in pages; it means nothing in an anonymous region. */
  datatype Region = Region(kind: Kind, start: nat, prot: Prot, offset: nat, slots: seq<Slot>)

  /** What a region says about one of its pages; the offset of an anonymous page is not looked at. */
  datatype Info = Info(kind: Kind, prot: Prot, offset: nat, slot: Slot)

  datatype Option<T> = None | Some(value: T)

  function End(r: Region): nat {
    r.start + |r.slots|
  }

  predicate Covers(r: Region, page: nat) {
    r.start <= page < End(r)
  }

  /** The offset in the file of page `i` of the region, or 0 where there is no file. */
  function FileOffset(r: Region, i: nat): nat {
    if r.kind == SharedFile then r.offset + i else 0
  }

  function InfoAt(r: Region, page: nat): Info
    requires Covers(r, page)
  {
    Info(r.kind, r.prot, FileOffset(r, page - r.start), r.slots[page - r.start])
  }

  /** find_region_containing: the first region that covers the page. */
  ghost function Lookup(rs: seq<Region>, page: nat): Option<Info> {
    if |rs| == 0 then None
    else if Covers(rs[0], page) then Some(InfoAt(rs[0], page))
    else Lookup(rs[1..], page)
  }

  predicate Overlap(a: Region, b: Region) {
    a.start < End(b) && b.start < End(a)
  }

  /** Regions are not empty and no two share a page. */
  ghost predicate Disjoint(rs: seq<Region>) {
    && (forall i :: 0 <= i < |rs| ==> |rs[i].slots| > 0)
    && (forall i, j :: 0 <= i < j < |rs| ==> !Overlap(rs[i], rs[j]))
  }

  lemma {:induction false} LookupAppend(a: seq<Region>, b: seq<Region>, page: nat)
    ensures Lookup(a + b, page) == if Lookup(a, page).Some? then Lookup(a, page) else Lookup(b, page)
  {
    if |a| == 0 {
      assert a + b == b;
    } else {
      LookupAppend(a[1..], b, page);
      assert (a + b)[1..] == a[1..] + b;
    }
  }

  /** In a disjoint list the region that covers a page is the one that is found. */
  lemma {:induction false} LookupAt(rs: seq<Region>, i: nat, page: nat)
    requires Disjoint(rs) && i < |rs| && Covers(rs[i], page)
    ensures Lookup(rs, page) == Some(InfoAt(rs[i], page))
  {
    if i > 0 {
      assert !Overlap(rs[0], rs[i]);
      DisjointTail(rs);
      LookupAt(rs[1..], i - 1, page);
    }
  }

  lemma DisjointTail(rs: seq<Region>)
    requires Disjoint(rs) && |rs| > 0
    ensures Disjoint(rs[1..])
  {
    var t := rs[1..];
    forall i, j | 0 <= i < j < |t|
      ensures !Overlap(t[i], t[j])
    {
      assert !Overlap(rs[i + 1], rs[j + 1]);
    }
  }

  lemma {:induction false} LookupNone(rs: seq<Region>, page: nat)
    ensures Lookup(rs, page) == None <==> forall i :: 0 <= i < |rs| ==> !Covers(rs[i], page)
  {
    if |rs| > 0 {
      LookupNone(rs[1..], page);
      assert forall i :: 1 <= i < |rs| ==> rs[i] == rs[1..][i - 1];
    }
  }

  /** The part of a region inside [from, to), which must be within it. */
  function Slice(r: Region, from: nat, to: nat): Region
    requires r.start <= from <= to <= End(r)
  {
    Region(r.kind, from, r.prot, r.offset + (from - r.start), r.slots[from - r.start..to - r.start])
  }

  lemma SliceInfo(r: Region, from: nat, to: nat, page: nat)
    requires r.start <= from <= to <= End(r)
    ensures Covers(Slice(r, from, to), page) <==> from <= page < to
    ensures from <= page < to ==> Covers(r, page) && InfoAt(Slice(r, from, to), page) == InfoAt(r, page)
  {
  }

  /** What munmap leaves from page `hi` on when the start goes: the file offset moves in a shared region only. */
  function TrimLeft(r: Region, hi: nat): Region
    requires r.start <= hi <= End(r)
  {
    Region(r.kind, hi, r.prot, if r.kind == SharedFile then r.offset + (hi - r.start)
        else r.offset, r.slots[hi - r.start..])
  }

  /** What munmap of [lo, hi) leaves of one region: nothing, one end, or both ends. */
  function Remains(r: Region, lo: nat, hi: nat): seq<Region>
    requires |r.slots| > 0
  {
    if End(r) <= lo || r.start >= hi || lo >= hi then [r]
    else if r.start < lo then [Slice(r, r.start, lo)] + (if hi < End(r) then [Slice(r, hi, End(r))] else [])
    else if hi < End(r) then [TrimLeft(r, hi)] else []
  }

  lemma RemainsLookup(r: Region, lo: nat, hi: nat, page: nat)
    requires |r.slots| > 0
    ensures Lookup(Remains(r, lo, hi), page) ==
            if Covers(r, page) && !(lo <= page < hi) then Some(InfoAt(r, page)) else None
  {
    if End(r) <= lo || r.start >= hi || lo >= hi {
      assert [r][1..] == [];
    } else if r.start < lo {
      var a := [Slice(r, r.start, lo)];
      var b := if hi < End(r) then [Slice(r, hi, End(r))] else [];
      LookupAppend(a, b, page);
      SliceInfo(r, r.start, lo, page);
      assert a[1..] == [];
      if hi < End(r) {
        SliceInfo(r, hi, End(r), page);
        assert b[1..] == [];
      }
    } else if hi < End(r) {
      assert [TrimLeft(r, hi)][1..] == [];
    }
  }

  /** Regions that each lie inside one of a disjoint list's regions stay clear of the others. */
  ghost predicate Inside(a: Region, r: Region) {
    r.start <= a.start && End(a) <= End(r)
  }

  lemma RemainsInside(r: Region, lo: nat, hi: nat)
    requires |r.slots| > 0
    ensures Disjoint(Remains(r, lo, hi))
    ensures forall i :: 0 <= i < |Remains(r, lo, hi)| ==> Inside(Remains(r, lo, hi)[i], r)
  {
  }

  lemma DisjointAppend(a: seq<Region>, b: seq<Region>)
    requires Disjoint(a) && Disjoint(b)
    requires forall i, j :: 0 <= i < |a| && 0 <= j < |b| ==> !Overlap(a[i], b[j])
    ensures Disjoint(a + b)
  {
  }
}
