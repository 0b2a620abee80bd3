/**
 User address spaces (src/mm/mmap.c, src/mm/mm.c): faults, fork, mmap, munmap, mprotect and exit over
 VMA lists, page tables and reference counts. Frame allocation succeeds. The page table is kept as two
 maps: `ptes` for pages of anonymous regions, `fptes` for pages of shared file regions.
 */
module Uvm {
  import opened Cow
  import opened FileMap
  import opened Vma
  import opened UvmLink
  import opened MmapSearch

  datatype Error = Ok | Fault | Access | Invalid

  const USER_PAGES: nat := 0x3ff_ffff  // USER_SPACE_SIZE_MAX in pages

  /**
   `refs` and `mem` are reference counts and contents of frames of anonymous memory; `frefs` and `fmem` are
   the references regions hold to page-cache pages, and their contents; `dirty` the page-cache pages marked
   for write-back.
   */
  class Kernel {
    var spaces: map<nat, seq<Region>>
    var ptes: map<Key, Pte>
    var refs: map<Frame, nat>
    var mem: map<Frame, Bytes>
    var fptes: map<Key, Pte>
    var frefs: map<Frame, nat>
    var fmem: map<Frame, Bytes>
    var dirty: set<Frame>
    ghost var prot: map<Key, Prot>
    ghost var own: map<Key, Frame>
    ghost var fprot: map<Key, Prot>
    ghost var fown: map<Key, Frame>

    /** The pages of anonymous regions. */
    ghost function W(): World
      reads `prot, `own, `ptes, `refs, `mem
    {
      World(prot, own, ptes, refs, mem)
    }

    /** The pages of shared file regions. */
    ghost function F(): World
      reads `fprot, `fown, `fptes, `frefs, `fmem
    {
      World(fprot, fown, fptes, frefs, fmem)
    }

    ghost predicate Valid()
      reads this
    {
      Good(W(), F(), spaces)
    }

    /** The rule that makes stores private; only an mprotect that adds write permission can break it. */
    ghost predicate Sound()
      reads `prot, `own, `ptes, `refs, `mem
    {
      SharedIsCow(W())
    }

    /** Every page of a shared file region has its page-cache page. */
    ghost predicate Filled()
      reads `fprot, `fown
    {
      fprot.Keys <= fown.Keys
    }

    /** The page-table entry of a page, whichever kind of region it is in. */
    ghost function Entry(k: Key): Option<Pte>
      reads `ptes, `fptes
    {
      if k in ptes then Some(ptes[k]) else if k in fptes then Some(fptes[k]) else None
    }

    /** Every page-table entry belongs to a page of a region and allows nothing that region forbids. */
    ghost predicate Confined()
      reads `spaces, `ptes, `fptes
    {
      Confines(spaces, ptes) && Confines(spaces, fptes)
    }

    constructor ()
      ensures Valid() && Sound() && Filled() && spaces == map[]
    {
      spaces, ptes, refs, mem := map[], map[], map[], map[];
      fptes, frefs, fmem, dirty := map[], map[], map[], {};
      prot, own, fprot, fown := map[], map[], map[], map[];
    }

    /** page_alloc and the filling of the new frame: some frame that nothing referred to, with one reference. */
    method PageAlloc(bytes: Bytes) returns (f: Frame)
      modifies `refs, `mem
      ensures f !in old(refs) && refs == old(refs)[f := 1] && mem == old(mem)[f := bytes]
    {
      FreshFrame(refs.Keys);
      f :| f !in refs;
      refs := refs[f := 1];
      mem := mem[f := bytes];
    }

    /** page_put: the frame is free again once its last reference is gone. */
    method PagePut(f: Frame)
      modifies `refs
      ensures refs == Put(old(refs), f)
    {
      if f in refs && refs[f] > 1 {
        refs := refs[f := refs[f] - 1];
      } else {
        refs := refs - {f};
      }
    }

    /** cached_page_get, for a page named by a region. */
    method CachedGet(f: Frame)
      modifies `frefs
      ensures frefs == Get(old(frefs), f)
    {
      if f in frefs {
        frefs := frefs[f := frefs[f] + 1];
      } else {
        frefs := frefs[f := 1];
      }
    }

    /** cached_page_mark_dirty and cached_page_put of a page a region lets go of. */
    method CachedPut(f: Frame)
      modifies `frefs, `dirty
      ensures frefs == Put(old(frefs), f) && dirty == old(dirty) + {f}
    {
      dirty := dirty + {f};
      if f in frefs && frefs[f] > 1 {
        frefs := frefs[f := frefs[f] - 1];
      } else {
        frefs := frefs - {f};
      }
    }

    /** find_region_containing. */
    method FindRegion(pid: nat, page: nat) returns (found: bool, i: nat)
      requires pid in spaces
      ensures found ==> i < |spaces[pid]| && Covers(spaces[pid][i], page)
      ensures !found ==> Lookup(spaces[pid], page) == None
    {
      var rs := spaces[pid];
      i := 0;
      while i < |rs|
        invariant i <= |rs| && forall j :: 0 <= j < i ==> !Covers(rs[j], page)
      {
        if Covers(rs[i], page) {
          return true, i;
        }
        i := i + 1;
      }
      LookupNone(rs, page);
      found := false;
    }

    /**
     uvm_handle_fault. No page of any process reads differently afterwards; on success the faulting
     access is allowed by the new mapping; each failure is stated exactly.
     */
    method HandleFault(pid: nat, page: nat, write: bool, instr: bool) returns (err: Error)
      requires Valid() && pid in spaces
      modifies `spaces, `ptes, `refs, `mem, `own, `fptes
      ensures Valid() && Keeps(old(W()), W()) && spaces.Keys == old(spaces.Keys)
      ensures SameElsewhere(old(W()), W(), {}) && SameElsewhere(old(F()), F(), {})
      ensures err == Outcome(Lookup(old(spaces)[pid], page), write, instr)
      ensures err == Ok ==> Entry(Key(pid, page)).Some? && Allows(Entry(Key(pid, page)).value.prot, write, instr)
    {
      hide *;
      ValidFacts(pid);
      var k := Key(pid, page);
      var found, i := FindRegion(pid, page);
      SameElsewhereRefl(W(), {});
      SameElsewhereRefl(F(), {});
      KeepsRefl(W());
      OutcomeIs(spaces[pid], i, page, write, instr);
      if !found {
        return Fault;
      }
      var r := spaces[pid][i];
      var idx := page - r.start;
      CoversIs(r, page);
      RegionProt(spaces[pid], i);
      if !Allows(r.prot, write, instr) {
        return Access;
      }
      AllowsSome(r.prot, write, instr);
      if r.kind == SharedFile {
        if r.slots[idx].NoPage? {
          return Fault;
        }
        FaultShared(pid, i, idx);
        EntryIs(k);
        return Ok;
      }
      SlotIs(Anon, prot, own, pid, spaces[pid], i, idx);
      if write && k in ptes && ptes[k].cow {
        MappedIsOwned(W(), k);
        BreakCow(pid, i, idx);
        EntryIs(k);
        return Ok;
      }
      var f;
      if r.slots[idx].NoPage? {
        f := ZeroFill(pid, i, idx);
      } else {
        f := r.slots[idx].frame;
      }
      ghost var mid := W();
      MapPage(k, r.prot, f, write, instr);
      SameThen(old(W()), mid, W(), {});
      KeepsTrans(old(W()), mid, W());
      EntryIs(k);
      err := Ok;
    }

    /** The page-cache page is mapped with the protection of the region; an entry that is there takes it over. */
    method FaultShared(pid: nat, i: nat, idx: nat)
      requires Valid() && pid in spaces && i < |spaces[pid]| && idx < |spaces[pid][i].slots|
      requires spaces[pid][i].kind == SharedFile && spaces[pid][i].slots[idx].Has? && Usable(spaces[pid][i].prot)
      modifies `fptes
      ensures Valid() && SameElsewhere(old(F()), F(), {})
      ensures var k := Key(pid, spaces[pid][i].start + idx);
              k !in ptes && k in fptes && fptes[k].prot == spaces[pid][i].prot
    {
      hide *;
      ValidFacts(pid);
      var r := spaces[pid][i];
      var k := Key(pid, r.start + idx);
      SlotIs(SharedFile, fprot, fown, pid, spaces[pid], i, idx);
      NotThere(Anon, prot, own, pid, spaces[pid], i, idx);
      NotMapped(W(), k);
      FileFault(F(), k, r.prot);
      fptes := fptes[k := Pte(r.slots[idx].frame, r.prot, false)];
      FIs();
      WIs();
      GoodMake(W(), F(), spaces);
      NowValid();
    }

    /** A COW page gets a private copy, mapped with the region's full protection. */
    method BreakCow(pid: nat, i: nat, idx: nat)
      requires Valid() && pid in spaces && i < |spaces[pid]| && idx < |spaces[pid][i].slots|
      requires spaces[pid][i].kind == Anon && spaces[pid][i].slots[idx].Has? && Usable(spaces[pid][i].prot)
      modifies `spaces, `ptes, `refs, `mem, `own
      ensures Valid() && Keeps(old(W()), W()) && spaces.Keys == old(spaces.Keys)
      ensures SameElsewhere(old(W()), W(), {})
      ensures var k := Key(pid, old(spaces)[pid][i].start + idx);
              k in ptes && ptes[k].prot == old(spaces)[pid][i].prot
    {
      hide *;
      IsGood();
      var rs := spaces[pid];
      var r := rs[i];
      var k := Key(pid, r.start + idx);
      HasFrame(W(), F(), spaces, pid, i, idx);
      var was := r.slots[idx].frame;
      var f := PageAlloc(mem[was]);
      BreakCowGood(old(W()), F(), spaces, pid, i, idx, f);
      spaces := spaces[pid := WithSlot(rs, i, idx, Has(f))];
      PagePut(was);
      ptes := ptes[k := Pte(f, r.prot, false)];
      own := own[k := f];
      WIs();
      FIs();
      NowValid();
    }

    /** First touch of an anonymous page. */
    method ZeroFill(pid: nat, i: nat, idx: nat) returns (f: Frame)
      requires Valid() && pid in spaces && i < |spaces[pid]| && idx < |spaces[pid][i].slots|
      requires spaces[pid][i].kind == Anon && spaces[pid][i].slots[idx].NoPage?
      modifies `spaces, `refs, `mem, `own
      ensures Valid() && Keeps(old(W()), W()) && spaces.Keys == old(spaces.Keys)
      ensures SameElsewhere(old(W()), W(), {})
      ensures var k := Key(pid, old(spaces)[pid][i].start + idx); k in own && own[k] == f
    {
      hide *;
      IsGood();
      var rs := spaces[pid];
      var k := Key(pid, rs[i].start + idx);
      f := PageAlloc(ZeroPage());
      ZeroFillGood(old(W()), F(), spaces, pid, i, idx, f);
      spaces := spaces[pid := WithSlot(rs, i, idx, Has(f))];
      own := own[k := f];
      WIs();
      FIs();
      NowValid();
    }

    /** The end of the fault handler: an existing mapping is updated, a missing one made. */
    method MapPage(k: Key, p: Prot, f: Frame, write: bool, instr: bool)
      requires Valid() && k in own && own[k] == f && k in prot && prot[k] == p && Allows(p, write, instr) &&
               (p.w ==> p.r)
      requires write && k in ptes ==> !ptes[k].cow
      modifies `ptes
      ensures Valid() && Keeps(old(W()), W()) && SameElsewhere(old(W()), W(), {})
      ensures k in ptes && Allows(ptes[k].prot, write, instr)
    {
      hide *;
      ghost var w := W();
      ValidInv();
      AllowsSome(p, write, instr);
      if k in ptes {
        MappedIsOwned(w, k);
        UpdateKeeps(w, k, p);
        UpdateIs(w, k, p);
        var e := ptes[k];
        var p' := if e.cow then p.(w := false) else p;
        if p'.r || p'.w || p'.x {
          ptes := ptes[k := Pte(e.frame, p', e.cow)];
        } else {
          assert false;
        }
      } else {
        UnmappedIsSole(w, k);
        SameWithin(p);
        MapKeeps(w, k, p, false);
        MapIs(w, k, p);
        ptes := ptes[k := Pte(f, p, false)];
      }
      WIs();
      KeepsIs(w, W());
      FIs();
      GoodMake(W(), F(), spaces);
      NowValid();
    }

    /** One page of an anonymous region: unmapped if mapped, its frame released if it has one. */
    method ReleaseAnon(pid: nat, i: nat, idx: nat)
      requires Valid() && pid in spaces && i < |spaces[pid]| && idx < |spaces[pid][i].slots| &&
               spaces[pid][i].kind == Anon
      modifies `spaces, `ptes, `refs, `own
      ensures Valid() && Keeps(old(W()), W())
      ensures spaces == old(spaces)[pid := WithSlot(old(spaces)[pid], i, idx, NoPage)]
      ensures var k := Key(pid, old(spaces)[pid][i].start + idx);
              SameElsewhere(old(W()), W(), {k}) && own == old(own) - {k} && k !in fown
    {
      hide *;
      IsGood();
      var rs := spaces[pid];
      var k := Key(pid, rs[i].start + idx);
      ReleaseAnonGood(W(), F(), spaces, pid, i, idx);
      ptes := ptes - {k};
      spaces := spaces[pid := WithSlot(rs, i, idx, NoPage)];
      own := own - {k};
      if rs[i].slots[idx].Has? {
        PagePut(rs[i].slots[idx].frame);
      }
      WIs();
      FIs();
      NowValid();
    }

    /** One page of a shared file region: the page-cache page is marked dirty and put. */
    method ReleaseShared(pid: nat, i: nat, idx: nat)
      requires Valid() && pid in spaces && i < |spaces[pid]| && idx < |spaces[pid][i].slots| &&
               spaces[pid][i].kind == SharedFile
      modifies `spaces, `fptes, `frefs, `fown, `dirty
      ensures Valid()
      ensures spaces == old(spaces)[pid := WithSlot(old(spaces)[pid], i, idx, NoPage)]
      ensures var k := Key(pid, old(spaces)[pid][i].start + idx);
              && SameElsewhere(old(F()), F(), {k}) && fown == old(fown) - {k} && k !in own
              && LetGo(old(fown), {k}, old(dirty), dirty)
    {
      hide *;
      IsGood();
      var rs := spaces[pid];
      var k := Key(pid, rs[i].start + idx);
      ReleaseSharedGood(W(), F(), spaces, pid, i, idx);
      fptes := fptes - {k};
      spaces := spaces[pid := WithSlot(rs, i, idx, NoPage)];
      fown := fown - {k};
      if rs[i].slots[idx].Has? {
        CachedPut(rs[i].slots[idx].frame);
      }
      LetGoOne(old(fown), k, old(dirty), dirty);
      WIs();
      FIs();
      NowValid();
    }

    /** One page of a region of either kind. */
    method ReleasePage(pid: nat, i: nat, idx: nat)
      requires Valid() && pid in spaces && i < |spaces[pid]| && idx < |spaces[pid][i].slots|
      modifies `spaces, `ptes, `refs, `own, `fptes, `frefs, `fown, `dirty
      ensures Valid() && Keeps(old(W()), W())
      ensures spaces == old(spaces)[pid := WithSlot(old(spaces)[pid], i, idx, NoPage)]
      ensures var k := Key(pid, old(spaces)[pid][i].start + idx);
              && SameElsewhere(old(W()), W(), {k}) && SameElsewhere(old(F()), F(), {k})
              && own == old(own) - {k} && fown == old(fown) - {k} && LetGo(old(fown), {k}, old(dirty), dirty)
    {
      hide *;
      ghost var k := Key(pid, spaces[pid][i].start + idx);
      ValidInv();
      SameElsewhereRefl(W(), {k});
      SameElsewhereRefl(F(), {k});
      KeepsRefl(W());
      if spaces[pid][i].kind == Anon {
        ReleaseAnon(pid, i, idx);
        LetGoNone(fown, k, dirty);
        assert fown - {k} == fown;
      } else {
        ReleaseShared(pid, i, idx);
        assert own - {k} == own;
      }
    }

    /** uvm_region_unmap_range and uvm_region_free_range over slots [from, to) of a region. */
    method ReleaseRange(pid: nat, i: nat, from: nat, to: nat)
      requires Valid() && pid in spaces && i < |spaces[pid]| && from <= to <= |spaces[pid][i].slots|
      modifies `spaces, `ptes, `refs, `own, `fptes, `frefs, `fown, `dirty
      ensures Valid() && Keeps(old(W()), W()) && pid in spaces && |spaces[pid]| == |old(spaces)[pid]|
      ensures spaces == old(spaces)[pid := old(spaces)[pid][i := spaces[pid][i]]]
      ensures Released(old(spaces)[pid][i], spaces[pid][i], from, to)
      ensures var start := old(spaces)[pid][i].start;
              var s := Pages(pid, start + from, start + to);
              && SameElsewhere(old(W()), W(), s) && SameElsewhere(old(F()), F(), s)
              && own == old(own) - s && fown == old(fown) - s && LetGo(old(fown), s, old(dirty), dirty)
    {
      hide *;
      ghost var was := spaces[pid][i];
      var start := spaces[pid][i].start;
      ReleasedNone(was, from);
      ValidFacts(pid);
      KeepsRefl(W());
      PagesNone(pid, start + from);
      SameElsewhereRefl(W(), {});
      SameElsewhereRefl(F(), {});
      LetGoNothing(fown, dirty);
      assert own - {} == own && fown - {} == fown;
      assert spaces[pid][i := spaces[pid][i]] == spaces[pid] && spaces[pid := spaces[pid]] == spaces;
      for idx := from to to
        invariant Valid() && Keeps(old(W()), W())
        invariant pid in spaces && |spaces[pid]| == |old(spaces)[pid]|
        invariant spaces == old(spaces)[pid := old(spaces)[pid][i := spaces[pid][i]]]
        invariant Released(was, spaces[pid][i], from, idx)
        invariant SameElsewhere(old(W()), W(), Pages(pid, start + from, start + idx))
        invariant SameElsewhere(old(F()), F(), Pages(pid, start + from, start + idx))
        invariant own == old(own) - Pages(pid, start + from, start + idx)
        invariant fown == old(fown) - Pages(pid, start + from, start + idx)
        invariant LetGo(old(fown), Pages(pid, start + from, start + idx), old(dirty), dirty)
      {
        ghost var w, f, rs, r, d := W(), F(), spaces[pid], spaces[pid][i], dirty;
        ghost var s, k := Pages(pid, start + from, start + idx), Key(pid, start + idx);
        ReleasedLength(was, r, from, idx);
        ReleasePage(pid, i, idx);
        ReleasedNext(was, r, from, idx);
        WithSlotIs(rs, i, idx, NoPage);
        assert spaces[pid] == old(spaces)[pid][i := spaces[pid][i]];
        KeepsTrans(old(W()), w, W());
        SameElsewhereTrans(old(W()), w, W(), s, {k});
        SameElsewhereTrans(old(F()), f, F(), s, {k});
        LetGoMore(old(fown), s, {k}, old(dirty), d, dirty);
        WithoutMore(old(own), s, k);
        WithoutMore(old(fown), s, k);
        PagesNext(pid, start + from, start + idx);
      }
    }

    /**
     uvm_munmap of `n` pages from page `addr`: exactly the pages of the range leave the address
     space, whether that removes, trims or splits regions; nothing else changes for any process, and
     page-cache pages that are let go of are marked dirty.
     */
    method Munmap(pid: nat, addr: nat, n: nat) returns (err: Error)
      requires Valid() && pid in spaces
      modifies `spaces, `ptes, `refs, `own, `prot, `fptes, `frefs, `fown, `fprot, `dirty
      ensures Valid() && Keeps(old(W()), W()) && (old(Filled()) ==> Filled()) && spaces.Keys == old(spaces.Keys)
      ensures err == if n == 0 || addr > USER_PAGES || n > USER_PAGES - addr then Invalid else Ok
      ensures err != Ok ==> spaces == old(spaces) && W() == old(W()) && F() == old(F())
      ensures err == Ok ==>
                && (forall page: nat :: Lookup(spaces[pid], page) ==
                      if addr <= page < addr + n then None else Lookup(old(spaces)[pid], page))
                && SameElsewhere(old(W()), W(), Pages(pid, addr, addr + n))
                && SameElsewhere(old(F()), F(), Pages(pid, addr, addr + n))
                && LetGo(old(fown), Pages(pid, addr, addr + n), old(dirty), dirty)
    {
      hide *;
      ValidInv();
      KeepsRefl(W());
      if n == 0 || addr > USER_PAGES || n > USER_PAGES - addr {
        return Invalid;
      }
      var end := addr + n;
      var rs := spaces[pid];
      var out: seq<Region> := [];
      ghost var s := Pages(pid, addr, end);
      ghost var gone: set<Key> := {};
      SameElsewhereRefl(W(), s);
      SameElsewhereRefl(F(), s);
      CutNone(rs, addr, end);
      LetGoNothing(fown, dirty);
      assert fown - {} == fown;
      assert [] + rs[0..] == rs;
      for i := 0 to |rs|
        invariant Valid() && Keeps(old(W()), W()) && (old(Filled()) ==> Filled())
        invariant pid in spaces && spaces.Keys == old(spaces.Keys)
        invariant spaces[pid] == out + rs[i..]
        invariant CutOut(rs[..i], out, addr, end)
        invariant SameElsewhere(old(W()), W(), s) && SameElsewhere(old(F()), F(), s)
        invariant fown == old(fown) - gone && LetGo(old(fown), gone, old(dirty), dirty)
      {
        ghost var w, f, d := W(), F(), dirty;
        var r := rs[i];
        ListStep(out, rs, i);
        ValidFacts(pid);
        RegionNotEmpty(spaces[pid], |out|);
        assert rs[..i + 1] == rs[..i] + [r];
        CutStep(rs[..i], out, r, addr, end);
        ghost var here;
        var keep;
        keep, here := MunmapRegion(pid, out, r, rs[i + 1..], addr, end);
        KeepsTrans(old(W()), w, W());
        SameElsewhereTwice(old(W()), w, W(), s);
        SameElsewhereTwice(old(F()), f, F(), s);
        LetGoMore(old(fown), gone, here, old(dirty), d, dirty);
        WithoutBoth(old(fown), gone, here);
        gone := gone + here;
        out := out + keep;
      }
      assert rs[..|rs|] == rs && out + rs[|rs|..] == out;
      CutDone(rs, out, addr, end);
      ValidFacts(pid);
      AllGone(fprot, fown, pid, out, old(fown), gone, addr, end, old(dirty), dirty);
      err := Ok;
    }

    /** The loop body of uvm_munmap for region `r`, which stands between `a` and `b` in the list. */
    method MunmapRegion(pid: nat, a: seq<Region>, r: Region, b: seq<Region>, addr: nat, end: nat)
      returns (keep: seq<Region>, ghost gone: set<Key>)
      requires Valid() && pid in spaces && spaces[pid] == a + [r] + b && |r.slots| > 0 && addr < end
      modifies `spaces, `ptes, `refs, `own, `prot, `fptes, `frefs, `fown, `fprot, `dirty
      ensures Valid() && Keeps(old(W()), W()) && (old(Filled()) ==> Filled())
      ensures spaces == old(spaces)[pid := a + keep + b]
      ensures keep == Remains(r, addr, end) && gone <= Pages(pid, addr, end)
      ensures SameElsewhere(old(W()), W(), Pages(pid, addr, end)) && SameElsewhere(old(F()), F(), Pages(pid, addr, end))
      ensures fown == old(fown) - gone && LetGo(old(fown), gone, old(dirty), dirty)
    {
      hide *;
      ghost var s := Pages(pid, addr, end);
      EndIs(r);
      var rend := r.start + |r.slots|;
      if rend <= addr || r.start >= end {
        SameElsewhereRefl(W(), s);
        SameElsewhereRefl(F(), s);
        ValidInv();
        KeepsRefl(W());
        RemainsIs(r, addr, end);
        LetGoNothing(fown, dirty);
        assert fown - {} == fown;
        assert spaces == spaces[pid := a + [r] + b];
        return [r], {};
      }
      var lo := if addr > r.start then addr else r.start;
      var hi := if end < rend then end else rend;
      keep := CutRegion(pid, a, r, b, addr, end, lo, hi);
      gone := Pages(pid, lo, hi);
      SubPages(pid, lo, hi, addr, end);
      SameElsewhereWiden(old(W()), W(), gone, s);
      SameElsewhereWiden(old(F()), F(), gone, s);
    }

    /** The case of a region that the range meets, in pages [lo, hi). */
    method CutRegion(pid: nat, a: seq<Region>, r: Region, b: seq<Region>, addr: nat, end: nat, lo: nat, hi: nat)
      returns (keep: seq<Region>)
      requires Valid() && pid in spaces && spaces[pid] == a + [r] + b && |r.slots| > 0 && addr < end
      requires !(r.start + |r.slots| <= addr || r.start >= end)
      requires lo == (if addr > r.start then addr else r.start) &&
               hi == (if end < r.start + |r.slots| then end else r.start + |r.slots|)
      modifies `spaces, `ptes, `refs, `own, `prot, `fptes, `frefs, `fown, `fprot, `dirty
      ensures Valid() && Keeps(old(W()), W()) && (old(Filled()) ==> Filled())
      ensures spaces == old(spaces)[pid := a + keep + b] && keep == Remains(r, addr, end)
      ensures SameElsewhere(old(W()), W(), Pages(pid, lo, hi)) && SameElsewhere(old(F()), F(), Pages(pid, lo, hi))
      ensures fown == old(fown) - Pages(pid, lo, hi) && LetGo(old(fown), Pages(pid, lo, hi), old(dirty), dirty)
    {
      hide *;
      ghost var gone := Pages(pid, lo, hi);
      FilledIs();
      EndIs(r);
      var off, nr := lo - r.start, hi - lo;
      assert spaces[pid][|a|] == r;
      ReleaseRange(pid, |a|, off, off + nr);
      ghost var w, f := W(), F();
      var r' := spaces[pid][|a|];
      ReleasedLength(r, r', off, off + nr);
      assert (a + [r] + b)[|a| := r'] == a + [r'] + b;
      ReleasedRemains(r, r', addr, end, off, off + nr);
      keep := TrimRegion(r', addr, end, lo, hi);
      SpliceOut(pid, a, r', b, keep, addr, end, lo, hi);
      KeepsTrans(old(W()), w, W());
      FilledLess(old(fprot), old(fown), fprot, fown, gone);
      FilledIs();
      SameElsewhereTwice(old(W()), w, W(), gone);
      SameElsewhereTwice(old(F()), f, F(), gone);
    }

    /** What is left of a region whose pages [lo, hi) have been released. */
    static method TrimRegion(r: Region, addr: nat, end: nat, lo: nat, hi: nat) returns (keep: seq<Region>)
      requires |r.slots| > 0 && addr < end && !(r.start + |r.slots| <= addr || r.start >= end)
      requires lo == (if addr > r.start then addr else r.start) &&
               hi == (if end < r.start + |r.slots| then end else r.start + |r.slots|)
      ensures keep == Remains(r, addr, end)
    {
      hide *;
      var rend := r.start + |r.slots|;
      var off, nr := lo - r.start, hi - lo;
      EndIs(r);
      RemainsParts(r, addr, end);
      if lo == r.start && hi == rend {
        keep := [];
      } else if lo == r.start {
        LeftIs(r, end);
        keep := [Region(r.kind, hi, r.prot, if r.kind == SharedFile then r.offset + nr else r.offset, r.slots[nr..])];
      } else if hi == rend {
        SliceLeft(r, addr);
        keep := [r.(slots := r.slots[..off])];
      } else {
        SliceLeft(r, addr);
        SliceRight(r, end);
        var right := Region(r.kind, hi, r.prot, r.offset + (hi - r.start), r.slots[off + nr..]);
        keep := [r.(slots := r.slots[..off]), right];
      }
    }

    /** The list takes `keep` in place of a region whose pages [lo, hi) have been released. */
    method SpliceOut(pid: nat, a: seq<Region>, r: Region, b: seq<Region>, keep: seq<Region>, addr: nat, end: nat,
                     lo: nat, hi: nat)
      requires Valid() && pid in spaces && spaces[pid] == a + [r] + b && |r.slots| > 0 && keep == Remains(r, addr, end)
      requires lo == (if addr > r.start then addr else r.start) &&
               hi == (if end < r.start + |r.slots| then end else r.start + |r.slots|)
      requires own.Keys !! Pages(pid, lo, hi) && fown.Keys !! Pages(pid, lo, hi)
      modifies `spaces, `prot, `fprot
      ensures Valid() && Keeps(old(W()), W()) && spaces == old(spaces)[pid := a + keep + b]
      ensures SameElsewhere(old(W()), W(), Pages(pid, lo, hi)) && SameElsewhere(old(F()), F(), Pages(pid, lo, hi))
      ensures fprot.Keys <= old(fprot).Keys && fprot.Keys !! Pages(pid, lo, hi)
    {
      hide *;
      ghost var gone := Pages(pid, lo, hi);
      IsGood();
      SpliceGood(W(), F(), spaces, pid, a, r, b, addr, end, lo, hi);
      spaces := spaces[pid := a + keep + b];
      if r.kind == Anon {
        prot := prot - gone;
      } else {
        fprot := fprot - gone;
      }
      WIs();
      FIs();
      NowValid();
    }

    /** One page of an anonymous region being copied at fork. */
    method ForkOne(k: Key, k': Key, slot: Slot, p: Prot) returns (slot': Slot)
      requires Inv(W()) && k in prot && prot[k] == p && k' !in prot && (p.w ==> p.r)
      requires (k in own <==> slot.Has?) && (k in own ==> own[k] == slot.frame)
      modifies `ptes, `refs, `mem, `own, `prot
      ensures Keeps(old(W()), W()) && SameElsewhere(old(W()), W(), {k'})
      ensures prot == old(prot)[k' := p] && Read(W(), k') == Read(old(W()), k)
      ensures own == if slot'.Has? then old(own)[k' := slot'.frame] else old(own)
    {
      hide *;
      ghost var w := W();
      WIs();
      FramesHaveBytes(w);
      ghost var copy: Frame := 0;
      slot' := slot;
      if slot.NoPage? {
        FreshFrame(refs.Keys);
        copy :| copy !in refs;
      } else if k !in ptes {
        var f := PageAlloc(mem[slot.frame]);
        copy := f;
        slot' := Has(f);
        own := own[k' := f];
      } else {
        MappedIsOwned(w, k);
        FreshFrame(refs.Keys);
        copy :| copy !in refs;
        var f := slot.frame;
        refs := refs[f := refs[f] + 1];
        var e := ptes[k];
        if p.w {
          ptes := ptes[k' := Pte(f, e.prot.(w := false), true)];
          ptes := ptes[k := Pte(e.frame, e.prot.(w := false), true)];
        } else {
          ptes := ptes[k' := Pte(f, e.prot, e.cow)];
        }
        own := own[k' := f];
      }
      prot := prot[k' := p];
      ForkPageKeeps(w, k, k', copy);
      ForkIs(w, k, k', copy);
      WIs();
    }

    /** The anonymous part of uvm_space_copy_region, with the regions already copied to the child in `seg`. */
    method CopyAnon(parent: nat, i: nat, child: nat, seg: seq<Region>) returns (dst: Region)
      requires parent in spaces && child !in spaces && i < |spaces[parent]| && spaces[parent][i].kind == Anon
      requires Inv(W()) && BothOk(prot, own, fprot, fown, spaces[child := seg])
      requires forall j :: 0 <= j < |seg| ==> !Overlap(seg[j], spaces[parent][i])
      modifies `ptes, `refs, `mem, `own, `prot
      ensures Keeps(old(W()), W()) && BothOk(prot, own, fprot, fown, spaces[child := [dst] + seg])
      ensures CopyOf(spaces[parent][i], dst)
      ensures SameElsewhere(old(W()), W(), Pages(child, dst.start, dst.start + |dst.slots|))
      ensures Copied(old(W()), W(), parent, child, dst.start, dst.start + |dst.slots|)
    {
      hide *;
      var r := spaces[parent][i];
      ghost var t := r.(offset := 0);
      var pgs: seq<Slot> := [];
      BothSpaces(prot, own, fprot, fown, spaces[child := seg], child);
      BothSpaces(prot, own, fprot, fown, spaces[child := seg], parent);
      SameExtent(r, t, seg);
      PartialNone(t, seg);
      RegionProt(spaces[parent], i);
      RegionNotEmpty(spaces[parent], i);
      PagesNone(child, r.start);
      SameElsewhereRefl(W(), {});
      KeepsRefl(W());
      CopiedNone(W(), parent, child, r.start);
      while |pgs| < |r.slots|
        invariant |pgs| <= |r.slots|
        invariant Keeps(old(W()), W()) && BothOk(prot, own, fprot, fown, spaces[child := Partial(t, pgs, seg)])
        invariant SameElsewhere(old(W()), W(), Pages(child, r.start, r.start + |pgs|))
        invariant Copied(old(W()), W(), parent, child, r.start, r.start + |pgs|)
      {
        var idx := |pgs|;
        var k, k' := Key(parent, r.start + idx), Key(child, r.start + idx);
        ghost var w, sp := W(), spaces[child := Partial(t, pgs, seg)];
        WIs();
        KeepsIs(old(W()), w);
        BothSpaces(prot, own, fprot, fown, sp, child);
        BothSpaces(prot, own, fprot, fown, sp, parent);
        SlotIs(Anon, prot, own, parent, spaces[parent], i, idx);
        PartialFresh(Anon, prot, own, child, t, pgs, seg);
        var slot' := ForkOne(k, k', r.slots[idx], r.prot);
        WIs();
        KeepsTrans(old(W()), w, W());
        PartialGrows(Anon, w.prot, w.own, own, child, t, pgs, seg, slot');
        PartialSwitch(SharedFile, fprot, fown, child, t, pgs, seg, slot');
        OneKeyAdded(w.prot, w.own, prot, own, k');
        BothChanged(w.prot, w.own, fprot, fown, prot, own, fprot, fown, sp, child, Partial(t, pgs + [slot'], seg));
        assert sp[child := Partial(t, pgs + [slot'], seg)] == spaces[child := Partial(t, pgs + [slot'], seg)];
        CopiedNext(old(W()), w, W(), parent, child, r.start, r.start + idx);
        SameElsewhereTrans(old(W()), w, W(), Pages(child, r.start, r.start + idx), {k'});
        PagesNext(child, r.start, r.start + idx);
        pgs := pgs + [slot'];
      }
      dst := r.(offset := 0, slots := pgs);
      PartialAll(t, pgs, seg);
      CopyOfMake(r, dst);
    }

    /** One page of a shared file region being copied at fork. */
    method ShareOne(k: Key, k': Key, cp: Frame, p: Prot)
      requires FileInv(F()) && k in fprot && fprot[k] == p && k in fown && fown[k] == cp && k' !in fprot
      modifies `fptes, `frefs, `fown, `fprot
      ensures FileInv(F()) && SameElsewhere(old(F()), F(), {k'})
      ensures fprot == old(fprot)[k' := p] && fown == old(fown)[k' := cp]
      ensures k' in fptes <==> k in old(fptes)
    {
      hide *;
      ghost var f := F();
      FIs();
      FileInvIs(f);
      FramesHaveBytes(f);
      UnmappedYet(f, k');
      CachedGet(cp);
      ghost var e := if k in fptes then fptes[k].prot else p;
      if k in fptes {
        FileMappedIs(f, k);
      }
      FileAttach(f, k', p, cp, k in fptes, e);
      AttachIs(f, k', p, cp, k in fptes, e);
      if k in fptes {
        fptes := fptes[k' := Pte(cp, fptes[k].prot, false)];
      }
      fprot, fown := fprot[k' := p], fown[k' := cp];
      FIs();
    }

    /** The shared part: the child names the same page-cache pages, mapped as the parent maps them. */
    method CopyShared(parent: nat, i: nat, child: nat, seg: seq<Region>) returns (dst: Region)
      requires parent in spaces && child !in spaces && i < |spaces[parent]| && spaces[parent][i].kind == SharedFile
      requires FileInv(F()) && Filled() && BothOk(prot, own, fprot, fown, spaces[child := seg])
      requires forall j :: 0 <= j < |seg| ==> !Overlap(seg[j], spaces[parent][i])
      modifies `fptes, `frefs, `fown, `fprot
      ensures FileInv(F()) && Filled() && BothOk(prot, own, fprot, fown, spaces[child := [dst] + seg])
      ensures dst == spaces[parent][i]
      ensures SameElsewhere(old(F()), F(), Pages(child, dst.start, dst.start + |dst.slots|))
    {
      hide *;
      var r := spaces[parent][i];
      var cached: seq<Slot> := [];
      BothSpaces(prot, own, fprot, fown, spaces[child := seg], child);
      BothSpaces(prot, own, fprot, fown, spaces[child := seg], parent);
      PartialNone(r, seg);
      RegionProt(spaces[parent], i);
      RegionNotEmpty(spaces[parent], i);
      PagesNone(child, r.start);
      SameElsewhereRefl(F(), {});
      while |cached| < |r.slots|
        invariant |cached| <= |r.slots| && cached == r.slots[..|cached|]
        invariant FileInv(F()) && Filled() && BothOk(prot, own, fprot, fown, spaces[child := Partial(r, cached, seg)])
        invariant SameElsewhere(old(F()), F(), Pages(child, r.start, r.start + |cached|))
      {
        var idx := |cached|;
        var k, k' := Key(parent, r.start + idx), Key(child, r.start + idx);
        ghost var f, sp := F(), spaces[child := Partial(r, cached, seg)];
        FIs();
        FilledIs();
        BothSpaces(prot, own, fprot, fown, sp, child);
        BothSpaces(prot, own, fprot, fown, sp, parent);
        SlotIs(SharedFile, fprot, fown, parent, spaces[parent], i, idx);
        PartialFresh(SharedFile, fprot, fown, child, r, cached, seg);
        ShareOne(k, k', r.slots[idx].frame, r.prot);
        FIs();
        FilledIs();
        PartialGrows(SharedFile, f.prot, f.own, fown, child, r, cached, seg, r.slots[idx]);
        PartialSwitch(Anon, prot, own, child, r, cached, seg, r.slots[idx]);
        OneKeyAdded(f.prot, f.own, fprot, fown, k');
        BothChanged(prot, own, f.prot, f.own, prot, own, fprot, fown, sp, child,
                    Partial(r, cached + [r.slots[idx]], seg));
        assert sp[child := Partial(r, cached + [r.slots[idx]], seg)] ==
               spaces[child := Partial(r, cached + [r.slots[idx]], seg)];
        SameElsewhereTrans(old(F()), f, F(), Pages(child, r.start, r.start + idx), {k'});
        PagesNext(child, r.start, r.start + idx);
        assert r.slots[..idx + 1] == r.slots[..idx] + [r.slots[idx]];
        cached := cached + [r.slots[idx]];
      }
      assert r.slots[..|r.slots|] == r.slots;
      dst := r;
      PartialAll(r, cached, seg);
      assert r.(slots := cached) == r;
    }

    /** uvm_space_copy_region. */
    method CopyRegion(parent: nat, i: nat, child: nat, seg: seq<Region>) returns (dst: Region)
      requires parent in spaces && child !in spaces && i < |spaces[parent]|
      requires Inv(W()) && FileInv(F()) && Filled() && BothOk(prot, own, fprot, fown, spaces[child := seg])
      requires forall j :: 0 <= j < |seg| ==> !Overlap(seg[j], spaces[parent][i])
      modifies `ptes, `refs, `mem, `own, `prot, `fptes, `frefs, `fown, `fprot
      ensures Keeps(old(W()), W()) && FileInv(F()) && Filled()
      ensures BothOk(prot, own, fprot, fown, spaces[child := [dst] + seg])
      ensures CopyOf(spaces[parent][i], dst)
      ensures SameElsewhere(old(W()), W(), Pages(child, dst.start, dst.start + |dst.slots|))
      ensures SameElsewhere(old(F()), F(), Pages(child, dst.start, dst.start + |dst.slots|))
      ensures dst.kind == Anon ==> Copied(old(W()), W(), parent, child, dst.start, dst.start + |dst.slots|)
      ensures dst.kind == SharedFile ==> W() == old(W())
    {
      hide *;
      WIs();
      FIs();
      FilledIs();
      KeepsRefl(W());
      var r := spaces[parent][i];
      SameElsewhereRefl(W(), Pages(child, r.start, r.start + |r.slots|));
      SameElsewhereRefl(F(), Pages(child, r.start, r.start + |r.slots|));
      if r.kind == Anon {
        dst := CopyAnon(parent, i, child, seg);
        CopyOfIs(r, dst);
      } else {
        dst := CopyShared(parent, i, child, seg);
        CopyOfMake(r, r);
      }
      WIs();
      FIs();
      FilledIs();
    }

    /**
     Fork (uvm_space_copy_segments): the child has the parent's pages with the parent's protections
     and bytes, and the parent's shared file pages at the same file offsets; no page of any existing
     process, the parent's included, reads differently.
     */
    method Fork(parent: nat, child: nat)
      requires Valid() && Filled() && parent in spaces && child !in spaces
      modifies `spaces, `ptes, `refs, `mem, `own, `prot, `fptes, `frefs, `fown, `fprot
      ensures Valid() && Filled() && Keeps(old(W()), W()) && spaces.Keys == old(spaces.Keys) + {child}
      ensures OthersSame(old(W()), W(), child) && OthersSame(old(F()), F(), child)
      ensures ForkedFrom(old(W()), W(), parent, child)
      ensures forall page: nat ::
              OfKind(SharedFile, spaces[child], page) == OfKind(SharedFile, old(spaces)[parent], page)
    {
      hide *;
      ValidFacts(parent);
      FilledIs();
      ghost var w0 := W();
      var rs := spaces[parent];
      var seg: seq<Region> := [];
      EmptySpace(w0, F(), spaces, child);
      OthersSameRefl(w0, child);
      OthersSameRefl(F(), child);
      KeepsRefl(w0);
      for i := 0 to |rs|
        invariant spaces == old(spaces)
        invariant Keeps(w0, W()) && FileInv(F()) && Filled() && BothOk(prot, own, fprot, fown, spaces[child := seg])
        invariant SameShape(rs[..i], seg)
        invariant OthersSame(w0, W(), child) && OthersSame(old(F()), F(), child)
        invariant ChildReads(w0, W(), parent, child)
      {
        ghost var w, f := W(), F();
        WIs();
        KeepsIs(w0, w);
        BothSpaces(prot, own, fprot, fown, spaces[child := seg], parent);
        BothSpaces(prot, own, fprot, fown, spaces[child := seg], child);
        ShapeClear(rs, i, seg);
        var dst := CopyRegion(parent, i, child, seg);
        CopyOfIs(rs[i], dst);
        OthersFromPages(w, W(), child, dst.start, dst.start + |dst.slots|);
        OthersFromPages(f, F(), child, dst.start, dst.start + |dst.slots|);
        OthersSameTrans(w0, w, W(), child);
        OthersSameTrans(old(F()), f, F(), child);
        KeepsTrans(w0, w, W());
        if dst.kind == Anon {
          RegionPages(Anon, w.prot, w.own, parent, rs, i);
          CopiedReads(w, W(), parent, child, dst.start, dst.start + |dst.slots|);
          ChildReadsNext(w0, w, W(), parent, child, dst.start, dst.start + |dst.slots|);
        }
        ShapeNext(rs, i, seg, dst);
        seg := [dst] + seg;
      }
      assert rs[..|rs|] == rs;
      WIs();
      BothSpaces(prot, own, fprot, fown, spaces[child := seg], child);
      BothSpaces(prot, own, fprot, fown, spaces[child := seg], parent);
      ForkDone(w0, W(), parent, child, rs, seg);
      ShapeShared(rs, seg);
      KeepsIs(w0, W());
      spaces := spaces[child := seg];
      WIs();
      FIs();
      FilledIs();
      GoodMake(W(), F(), spaces);
      NowValid();
    }

    /**
     A user store of one byte, faulting first where the page is not writable yet. To an anonymous page it is
     seen by the storing process only, at that byte only; to a page of a shared file region, by everyone who
     maps the same page-cache page.
     */
    method StoreByte(pid: nat, page: nat, i: nat, b: int) returns (err: Error)
      requires Valid() && pid in spaces
      modifies `spaces, `ptes, `refs, `mem, `own, `fptes, `fmem
      ensures Valid() && Keeps(old(W()), W()) && spaces.Keys == old(spaces.Keys)
      ensures var k, info := Key(pid, page), Lookup(old(spaces)[pid], page);
              && err == Outcome(info, true, false)
              && (err == Ok && info.value.kind == Anon ==>
                    && Read(W(), k) == SetByte(Read(old(W()), k), i, b)
                    && (old(Sound()) ==> SameElsewhere(old(W()), W(), {k}))
                    && SameElsewhere(old(F()), F(), {}))
              && (err == Ok && info.value.kind == SharedFile ==>
                    && SameElsewhere(old(W()), W(), {})
                    && k in old(fown) && fown == old(fown)
                    && forall k' :: k' in fown ==>
                         Read(F(), k') == if fown[k'] == fown[k] then SetByte(Read(old(F()), k'), i, b)
                             else Read(old(F()), k'))
              && (err != Ok ==> SameElsewhere(old(W()), W(), {}) && SameElsewhere(old(F()), F(), {}))
    {
      hide *;
      ValidFacts(pid);
      var k := Key(pid, page);
      ghost var info := Lookup(spaces[pid], page);
      SameElsewhereRefl(W(), {});
      SameElsewhereRefl(F(), {});
      KeepsRefl(W());
      SoundIs();
      err := MakeWritable(pid, page);
      if err != Ok {
        return;
      }
      ghost var w, f := W(), F();
      ValidInv();
      FileInvIs(f);
      KeepsIs(old(W()), w);
      if k in ptes && ptes[k].prot.w {
        StoreAnon(k, i, b);
        KeepsTrans(old(W()), w, W());
        if old(Sound()) {
          SameThen(old(W()), w, W(), {k});
        }
        SameReads(old(W()), w, k);
      } else {
        StoreShared(k, i, b);
        SharedReads(old(F()), f, F(), k, i, b);
      }
    }

    /** The fault that a store takes where the page is not mapped writable. */
    method MakeWritable(pid: nat, page: nat) returns (err: Error)
      requires Valid() && pid in spaces
      modifies `spaces, `ptes, `refs, `mem, `own, `fptes
      ensures Valid() && Keeps(old(W()), W()) && spaces.Keys == old(spaces.Keys)
      ensures SameElsewhere(old(W()), W(), {}) && SameElsewhere(old(F()), F(), {})
      ensures err == Outcome(Lookup(old(spaces)[pid], page), true, false)
      ensures var k, info := Key(pid, page), Lookup(old(spaces)[pid], page);
              err == Ok ==>
                && info.Some?
                && (if k in ptes && ptes[k].prot.w then info.value.kind == Anon && k in old(prot)
                    else k in fptes && info.value.kind == SharedFile && k in fown)
    {
      hide *;
      ValidFacts(pid);
      var k := Key(pid, page);
      ghost var info := Lookup(spaces[pid], page);
      SameElsewhereRefl(W(), {});
      SameElsewhereRefl(F(), {});
      KeepsRefl(W());
      PageIs(spaces, prot, own, fprot, fown, pid, page);
      err := Ok;
      if !(k in ptes && ptes[k].prot.w) && !(k in fptes && fptes[k].prot.w) {
        err := HandleFault(pid, page, true, false);
        EntryIs(k);
        WriteAllowed(ptes, k);
        WriteAllowed(fptes, k);
        if err != Ok {
          return;
        }
        OutcomeOk(info, true, false);
      } else {
        MappedInfo(W(), F(), k, info);
      }
      ValidInv();
      FileInvIs(F());
      ViewKind(info, prot, old(own), fprot, fown, k);
      if k in ptes {
        MappedIsOwned(W(), k);
      }
      if k in fptes {
        MappedIsOwned(F(), k);
      }
    }

    /** The store itself, to a page of an anonymous region. */
    method StoreAnon(k: Key, i: nat, b: int)
      requires Valid() && k in ptes && ptes[k].prot.w
      modifies `mem
      ensures Valid() && Keeps(old(W()), W()) && Read(W(), k) == SetByte(Read(old(W()), k), i, b)
      ensures SharedIsCow(old(W())) ==> SameElsewhere(old(W()), W(), {k})
    {
      hide *;
      ValidInv();
      ghost var w := W();
      MappedIsOwned(w, k);
      StoreKeeps(w, k, i, b);
      StoreIs(w, k, i, b);
      if SharedIsCow(w) {
        StoreIsPrivate(w, k, i, b);
      }
      var f := ptes[k].frame;
      mem := mem[f := SetByte(mem[f], i, b)];
      WIs();
      KeepsIs(w, W());
      FIs();
      GoodMake(W(), F(), spaces);
      NowValid();
    }

    /** The store itself, to a page of a shared file region. */
    method StoreShared(k: Key, i: nat, b: int)
      requires Valid() && k in fptes
      modifies `fmem
      ensures Valid() && k in fown
      ensures forall k' :: k' in fown ==>
                Read(F(), k') == if fown[k'] == fown[k] then SetByte(Read(old(F()), k'), i, b) else Read(old(F()), k')
    {
      hide *;
      ValidInv();
      ghost var f := F();
      FileInvIs(f);
      MappedIsOwned(f, k);
      FileStore(f, k, i, b);
      StoreIs(f, k, i, b);
      var cp := fptes[k].frame;
      fmem := fmem[cp := SetByte(fmem[cp], i, b)];
      FIs();
      WIs();
      GoodMake(W(), F(), spaces);
      NowValid();
    }

    /** Exit (uvm_space_free_segments): all pages of the process go; no other process notices. */
    method Exit(pid: nat)
      requires Valid() && pid in spaces
      modifies `spaces, `ptes, `refs, `own, `prot, `fptes, `frefs, `fown, `fprot, `dirty
      ensures Valid() && Keeps(old(W()), W()) && (old(Filled()) ==> Filled()) && spaces.Keys == old(spaces.Keys) - {pid}
      ensures OthersSame(old(W()), W(), pid) && OthersSame(old(F()), F(), pid)
      ensures forall page: nat :: Key(pid, page) !in prot && Key(pid, page) !in fprot
    {
      hide *;
      ValidInv();
      KeepsRefl(W());
      OthersSameRefl(W(), pid);
      OthersSameRefl(F(), pid);
      while |spaces[pid]| > 0
        invariant Valid() && Keeps(old(W()), W()) && (old(Filled()) ==> Filled())
        invariant pid in spaces && spaces.Keys == old(spaces.Keys)
        invariant OthersSame(old(W()), W(), pid) && OthersSame(old(F()), F(), pid)
        decreases |spaces[pid]|
      {
        ghost var w, f := W(), F();
        var r, rest := spaces[pid][0], spaces[pid][1..];
        assert spaces[pid] == [] + [r] + rest;
        ValidFacts(pid);
        RegionNotEmpty(spaces[pid], 0);
        var keep;
        ghost var gone;
        keep, gone := MunmapRegion(pid, [], r, rest, r.start, r.start + |r.slots|);
        WholeRegion(r);
        assert [] + keep + rest == rest;
        KeepsTrans(old(W()), w, W());
        OthersFromPages(w, W(), pid, r.start, r.start + |r.slots|);
        OthersFromPages(f, F(), pid, r.start, r.start + |r.slots|);
        OthersSameTrans(old(W()), w, W(), pid);
        OthersSameTrans(old(F()), f, F(), pid);
      }
      ValidFacts(pid);
      FilledIs();
      NonesLeft(prot, own, fprot, fown, pid, spaces);
      spaces := spaces - {pid};
      WIs();
      FIs();
      FilledIs();
      GoodMake(W(), F(), spaces);
      NowValid();
    }

    /**
     uvm_mprotect of `n` pages from page `addr`: regions are split at the ends of the range, and
     only protections inside the range change. The bytes every process reads stay the same. The rule for
     shared frames survives if and only if no frame shared without a mark becomes writable.
     */
    method Mprotect(pid: nat, addr: nat, n: nat, p: Prot) returns (err: Error)
      requires Valid() && pid in spaces && (p.w ==> p.r)
      modifies `spaces, `ptes, `refs, `mem, `own, `prot, `fptes, `fprot
      ensures Valid() && (old(Filled()) ==> Filled()) && spaces.Keys == old(spaces.Keys)
      ensures err == if n == 0 || addr > USER_PAGES || n > USER_PAGES - addr then Invalid else Ok
      ensures err != Ok ==> spaces == old(spaces) && W() == old(W()) && F() == old(F())
      ensures err == Ok ==>
                && ProtectedOn(old(W()), W(), Pages(pid, addr, addr + n), p)
                && ProtectedOn(old(F()), F(), Pages(pid, addr, addr + n), p)
                && AtMost(ptes, Pages(pid, addr, addr + n), p) && AtMost(fptes, Pages(pid, addr, addr + n), p)
                && (forall page: nat ::
                   Reprotection(Lookup(old(spaces)[pid], page), Lookup(spaces[pid], page), addr <= page < addr + n, p))
                && (old(Sound()) ==> (Sound() <==> RangeMay(old(W()), pid, addr, addr + n, p)))
    {
      hide *;
      FilledIs();
      SoundIs();
      if n == 0 || addr > USER_PAGES || n > USER_PAGES - addr {
        return Invalid;
      }
      ghost var w0, f0 := W(), F();
      ValidFacts(pid);
      ghost var rs := spaces[pid];
      ghost var done := MprotectAll(pid, addr, addr + n, p);
      ProtectedDone(Anon, w0, W(), pid, addr, addr + n, rs, done, p);
      ProtectedDone(SharedFile, f0, F(), pid, addr, addr + n, rs, done, p);
      ValidInv();
      FilledIs();
      SoundIs();
      StillFilled(f0, F(), Pages(pid, addr, addr + n), p);
      FileInvIs(F());
      ProtectedAtMost(w0, W(), Pages(pid, addr, addr + n), p);
      ProtectedAtMost(f0, F(), Pages(pid, addr, addr + n), p);
      SoundMeansMay(w0, W(), pid, addr, addr + n, p);
      err := Ok;
    }

    /** The loop of uvm_mprotect over the VMA list. */
    method MprotectAll(pid: nat, addr: nat, end: nat, p: Prot) returns (ghost done: set<Key>)
      requires Valid() && pid in spaces && (p.w ==> p.r) && addr < end
      modifies `spaces, `ptes, `refs, `mem, `own, `prot, `fptes, `fprot
      ensures Valid() && spaces.Keys == old(spaces.Keys)
      ensures ProtectedSoFar(old(W()), W(), old(spaces)[pid], |old(spaces)[pid]|, pid, addr, end, done, p)
      ensures ProtectedSoFar(old(F()), F(), old(spaces)[pid], |old(spaces)[pid]|, pid, addr, end, done, p)
      ensures forall page: nat ::
              Reprotection(Lookup(old(spaces)[pid], page), Lookup(spaces[pid], page), addr <= page < end, p)
      ensures Permits(old(W()), W(), pid, addr, end, p)
    {
      hide *;
      var rs := spaces[pid];
      var out: seq<Region> := [];
      ghost var w0, f0 := W(), F();
      done := {};
      ProtectedStart(w0, rs, pid, addr, end, p);
      ProtectedStart(f0, rs, pid, addr, end, p);
      PermitsRefl(w0, pid, addr, end, p);
      RelistNone(rs, addr, end, p);
      assert [] + rs[0..] == rs;
      for i := 0 to |rs|
        invariant Valid() && pid in spaces && spaces.Keys == old(spaces.Keys)
        invariant spaces[pid] == out + rs[i..]
        invariant ProtectedSoFar(w0, W(), rs, i, pid, addr, end, done, p)
        invariant ProtectedSoFar(f0, F(), rs, i, pid, addr, end, done, p)
        invariant Relisted(rs[..i], out, addr, end, p)
        invariant Permits(w0, W(), pid, addr, end, p)
      {
        ghost var w, f := W(), F();
        ListStep(out, rs, i);
        ValidFacts(pid);
        RegionNotEmpty(spaces[pid], |out|);
        var pieces := MprotectRegion(pid, out, rs[i], rs[i + 1..], addr, end, p);
        ProtectedMore(w0, w, W(), rs, i, pid, addr, end, done, p);
        ProtectedMore(f0, f, F(), rs, i, pid, addr, end, done, p);
        PermitsTrans(w0, w, W(), pid, addr, end, p);
        assert rs[..i + 1] == rs[..i] + [rs[i]];
        RelistMore(rs[..i], out, rs[i], pieces, addr, end, p);
        done := done + Pages(pid, rs[i].start, rs[i].start + |rs[i].slots|) * Pages(pid, addr, end);
        out := out + pieces;
      }
      assert rs[..|rs|] == rs && out + rs[|rs|..] == out;
      RelistDone(rs, out, addr, end, p);
    }

    /** The loop body of uvm_mprotect for region `r`: split at the ends of the range, re-protect the middle. */
    method MprotectRegion(pid: nat, a: seq<Region>, r: Region, b: seq<Region>, addr: nat, end: nat, p: Prot)
      returns (pieces: seq<Region>)
      requires Valid() && pid in spaces && spaces[pid] == a + [r] + b && |r.slots| > 0 && addr < end && (p.w ==> p.r)
      modifies `spaces, `ptes, `refs, `mem, `own, `prot, `fptes, `fprot
      ensures Valid() && spaces == old(spaces)[pid := a + pieces + b] && Relisted([r], pieces, addr, end, p)
      ensures ProtectedOn(old(W()), W(), Pages(pid, r.start, r.start + |r.slots|) * Pages(pid, addr, end), p)
      ensures ProtectedOn(old(F()), F(), Pages(pid, r.start, r.start + |r.slots|) * Pages(pid, addr, end), p)
      ensures Permits(old(W()), W(), pid, addr, end, p)
    {
      hide *;
      EndIs(r);
      var rend := r.start + |r.slots|;
      ghost var w0, f0, was := W(), F(), spaces;
      if rend <= addr || r.start >= end {
        ProtectedNone(w0, p);
        ProtectedNone(f0, p);
        PermitsRefl(w0, pid, addr, end, p);
        PagesApart(pid, r.start, rend, addr, end);
        RelistOutside(r, addr, end, p);
        assert spaces == spaces[pid := a + [r] + b];
        return [r];
      }
      var lo := if r.start < addr then addr else r.start;
      var hi := if rend > end then end else rend;
      var before, mid, after := SplitRegion(pid, a, r, b, addr, end, lo, hi);
      var mid';
      if r.kind == Anon {
        mid' := ProtectPages(pid, a + before, mid, after + b, p);
      } else {
        PermitsRefl(w0, pid, lo, hi, p);
        mid' := ProtectShared(pid, a + before, mid, after + b, p);
      }
      pieces := before + [mid'] + after;
      assert (a + before) + [mid'] + (after + b) == a + pieces + b;
      PagesMeet(pid, r.start, rend, addr, end);
      PermitsWiden(w0, W(), pid, addr, end, lo, hi, p);
      RelistPieces(r, lo, hi, mid', addr, end, p);
    }

    /** split_region_at, at either end of the range that lies inside the region. */
    method SplitRegion(pid: nat, a: seq<Region>, r: Region, b: seq<Region>, addr: nat, end: nat, lo: nat, hi: nat)
      returns (before: seq<Region>, mid: Region, after: seq<Region>)
      requires Valid() && pid in spaces && spaces[pid] == a + [r] + b && |r.slots| > 0 && addr < end
      requires !(r.start + |r.slots| <= addr || r.start >= end)
      requires lo == (if r.start < addr then addr else r.start) &&
               hi == (if r.start + |r.slots| > end then end else r.start + |r.slots|)
      modifies `spaces
      ensures Valid() && spaces == old(spaces)[pid := (a + before) + [mid] + (after + b)]
      ensures r.start <= lo <= hi <= End(r) && mid == Slice(r, lo, hi)
      ensures mid.start == lo && |mid.slots| == hi - lo && mid.kind == r.kind
      ensures before == (if r.start < addr then [Slice(r, r.start, addr)] else [])
      ensures after == (if r.start + |r.slots| > end then [Slice(r, end, r.start + |r.slots|)] else [])
    {
      hide *;
      EndIs(r);
      var rend := r.start + |r.slots|;
      before, after := [], [];
      if r.start < addr {
        before := [Slice(r, r.start, addr)];
      }
      if rend > end {
        after := [Slice(r, end, rend)];
      }
      mid := Slice(r, lo, hi);
      SliceExtent(r, lo, hi);
      ValidFacts(pid);
      SplitKeeps(Anon, prot, own, pid, a, r, b, addr, end);
      SplitKeeps(SharedFile, fprot, fown, pid, a, r, b, addr, end);
      assert before + [mid] + after == Pieces(r, addr, end) by { PiecesIs(r, addr, end); }
      assert a + (before + [mid] + after) + b == (a + before) + [mid] + (after + b);
      BothChanged(prot, own, fprot, fown, prot, own, fprot, fown, spaces, pid, (a + before) + [mid] + (after + b));
      spaces := spaces[pid := (a + before) + [mid] + (after + b)];
      WIs();
      FIs();
      GoodMake(W(), F(), spaces);
      NowValid();
    }

    /** The page loop of uvm_mprotect over an anonymous region that lies inside the range. */
    method ProtectPages(pid: nat, a: seq<Region>, r: Region, b: seq<Region>, p: Prot) returns (r': Region)
      requires Valid() && pid in spaces && spaces[pid] == a + [r] + b && (p.w ==> p.r) && r.kind == Anon
      modifies `spaces, `ptes, `refs, `mem, `own, `prot
      ensures Valid() && spaces == old(spaces)[pid := a + [r'] + b] && Reprotected(r, r', p)
      ensures ProtectedOn(old(W()), W(), Pages(pid, r.start, r.start + |r.slots|), p)
      ensures ProtectedOn(old(F()), F(), Pages(pid, r.start, r.start + |r.slots|), p)
      ensures Permits(old(W()), W(), pid, r.start, r.start + |r.slots|, p)
    {
      hide *;
      ghost var w0 := W();
      ValidFacts(pid);
      assert spaces[pid][|a|] == r;
      RegionViewStart(Anon, prot, own, pid, spaces[pid], |a|, p);
      ProtectedNone(w0, p);
      PermitsRefl(w0, pid, r.start, r.start, p);
      PagesNone(pid, r.start);
      var slots := r.slots;
      SameSlots(r.slots);
      for idx := 0 to |r.slots|
        invariant |slots| == |r.slots| && SlotsLike(r.slots, slots) && spaces == old(spaces)
        invariant Inv(W()) && RegionView(w0.prot, w0.own, prot, own, pid, r.start, p, slots, idx)
        invariant ProtectedOn(w0, W(), Pages(pid, r.start, r.start + idx), p)
        invariant Permits(w0, W(), pid, r.start, r.start + idx, p)
      {
        var k := Key(pid, r.start + idx);
        ghost var w := W();
        WIs();
        RegionViewAt(w0.prot, w0.own, prot, own, pid, r.start, p, slots, idx);
        var slot' := ProtectOne(k, slots[idx], p);
        RegionViewNext(w0, w, prot, own, pid, r.start, p, slots, idx, slot');
        LikeMore(r.slots, slots, idx, slot');
        slots := slots[idx := slot'];
        WIs();
        ProtectedStep(w, W(), k, p);
        ProtectedThen(w0, w, W(), Pages(pid, r.start, r.start + idx), {k}, p);
        PermitsNext(w0, w, W(), pid, r.start, idx, p);
        PagesNext(pid, r.start, r.start + idx);
      }
      r' := r.(prot := p, slots := slots);
      WIs();
      ReprotectedMake(r, r', p);
      RegionReplaced(Anon, w0.prot, w0.own, prot, own, pid, a, r, b, r', p);
      ReplacedOther(SharedFile, fprot, fown, pid, a, r, b, r', p);
      EndIs(r);
      NotOthers(SharedFile, fprot, fown, pid, a, r, b, r.start, r.start + |r.slots|);
      ProtectedAway(F(), Pages(pid, r.start, r.start + |r.slots|), p);
      BothChanged(w0.prot, w0.own, fprot, fown, prot, own, fprot, fown, spaces, pid, a + [r'] + b);
      spaces := spaces[pid := a + [r'] + b];
      WIs();
      FIs();
      GoodMake(W(), F(), spaces);
      NowValid();
    }

    /** The same loop over a shared file region, whose pages are never copied. */
    method ProtectShared(pid: nat, a: seq<Region>, r: Region, b: seq<Region>, p: Prot) returns (r': Region)
      requires Valid() && pid in spaces && spaces[pid] == a + [r] + b && (p.w ==> p.r) && r.kind == SharedFile
      modifies `spaces, `fptes, `fprot
      ensures Valid() && spaces == old(spaces)[pid := a + [r'] + b] && Reprotected(r, r', p)
      ensures ProtectedOn(old(W()), W(), Pages(pid, r.start, r.start + |r.slots|), p)
      ensures ProtectedOn(old(F()), F(), Pages(pid, r.start, r.start + |r.slots|), p)
    {
      hide *;
      ghost var f0 := F();
      ValidFacts(pid);
      assert spaces[pid][|a|] == r;
      RegionViewStart(SharedFile, fprot, fown, pid, spaces[pid], |a|, p);
      ProtectedNone(f0, p);
      PagesNone(pid, r.start);
      for idx := 0 to |r.slots|
        invariant spaces == old(spaces)
        invariant FileInv(F()) && RegionView(f0.prot, f0.own, fprot, fown, pid, r.start, p, r.slots, idx)
        invariant ProtectedOn(f0, F(), Pages(pid, r.start, r.start + idx), p)
      {
        var k := Key(pid, r.start + idx);
        ghost var f := F();
        FIs();
        RegionViewAt(f0.prot, f0.own, fprot, fown, pid, r.start, p, r.slots, idx);
        FollowOne(k, p);
        FIs();
        SlotAgain(f.own, k, r.slots[idx]);
        RegionViewNext(f0, f, fprot, fown, pid, r.start, p, r.slots, idx, r.slots[idx]);
        assert r.slots[idx := r.slots[idx]] == r.slots;
        ProtectedStep(f, F(), k, p);
        ProtectedThen(f0, f, F(), Pages(pid, r.start, r.start + idx), {k}, p);
        PagesNext(pid, r.start, r.start + idx);
      }
      r' := r.(prot := p);
      FIs();
      SameSlots(r.slots);
      ReprotectedMake(r, r', p);
      RegionReplaced(SharedFile, f0.prot, f0.own, fprot, fown, pid, a, r, b, r', p);
      ReplacedOther(Anon, prot, own, pid, a, r, b, r', p);
      EndIs(r);
      NotOthers(Anon, prot, own, pid, a, r, b, r.start, r.start + |r.slots|);
      ProtectedAway(W(), Pages(pid, r.start, r.start + |r.slots|), p);
      BothChanged(prot, own, f0.prot, f0.own, prot, own, fprot, fown, spaces, pid, a + [r'] + b);
      spaces := spaces[pid := a + [r'] + b];
      WIs();
      FIs();
      GoodMake(W(), F(), spaces);
      NowValid();
    }

    /** One page of a shared file region: update_present_pte. */
    method FollowOne(k: Key, p: Prot)
      requires FileInv(F()) && k in fprot && (p.w ==> p.r)
      modifies `fptes, `fprot
      ensures FileInv(F()) && SameElsewhere(old(F()), F(), {k}) && Read(F(), k) == Read(old(F()), k)
      ensures fprot == old(fprot)[k := p] && AtMost(fptes, {k}, p)
    {
      hide *;
      ghost var f := F();
      FIs();
      FileProtect(f, k, p);
      FollowedIs(f, k, p);
      if k in fptes {
        if p.r || p.w || p.x {
          fptes := fptes[k := fptes[k].(prot := p)];
        } else {
          fptes := fptes - {k};
        }
      }
      fprot := fprot[k := p];
      FIs();
      FileInvIs(F());
      AtMostIs(F(), {k}, p);
    }

    /** One page: a pending COW is broken before access is taken away altogether, then the mapping follows. */
    method ProtectOne(k: Key, slot: Slot, p: Prot) returns (slot': Slot)
      requires Inv(W()) && k in prot && (p.w ==> p.r)
      requires (k in own <==> slot.Has?) && (k in own ==> own[k] == slot.frame)
      modifies `ptes, `refs, `mem, `own, `prot
      ensures Inv(W()) && SameElsewhere(old(W()), W(), {k}) && Read(W(), k) == Read(old(W()), k)
      ensures prot == old(prot)[k := p] && AtMost(ptes, {k}, p)
      ensures slot'.Has? <==> slot.Has?
      ensures own == if slot'.Has? then old(own)[k := slot'.frame] else old(own)
      ensures MaySame(old(W()), W(), p)
      ensures SharedIsCow(old(W())) && MayProtect(old(W()), k, p) ==> SharedIsCow(W())
    {
      hide *;
      ghost var w := W();
      WIs();
      FramesHaveBytes(w);
      ghost var copy: Frame := 0;
      slot' := slot;
      if !(p.r || p.w || p.x) && k in ptes && ptes[k].cow && slot.Has? {
        var was := slot.frame;
        var f := PageAlloc(mem[was]);
        copy := f;
        slot' := Has(f);
        PagePut(was);
        ptes := ptes[k := Pte(f, ptes[k].prot.(w := false), false)];
        own := own[k := f];
      } else {
        FreshFrame(refs.Keys);
        copy :| copy !in refs;
      }
      UpdatedIs(ptes, k, p);
      if k in ptes {
        var e := ptes[k];
        var p' := if e.cow then p.(w := false) else p;
        if p'.r || p'.w || p'.x {
          ptes := ptes[k := Pte(e.frame, p', e.cow)];
        } else {
          ptes := ptes - {k};
        }
      }
      prot := prot[k := p];
      ReprotectKeeps(w, k, p, copy);
      ReprotectIs(w, k, p, copy);
      OthersMay(w, k, p, copy);
      WIs();
      AtMostIs(W(), {k}, p);
    }

    /**
     uvm_mmap_anon of `n` pages: a free range above the heap joins the address space, reading as
     zeros; `fixtures` are the stack and the heap, which lie outside the VMA list.
     */
    method MmapAnon(pid: nat, hint: nat, n: nat, isFixed: bool, p: Prot, heapStart: nat, top: nat,
                    fixtures: seq<Region>)
      returns (c: Choice)
      requires Valid() && pid in spaces && (p.w ==> p.r)
      modifies `spaces, `prot
      ensures Valid() && Keeps(old(W()), W()) && spaces.Keys == old(spaces.Keys)
      ensures MapChoice(old(spaces)[pid], fixtures, heapStart, top, hint, n, isFixed, c)
      ensures !c.Chosen? ==> spaces == old(spaces) && W() == old(W())
      ensures c.Chosen? ==>
                && spaces[pid] == old(spaces)[pid] + [Region(Anon, c.addr, p, 0, seq(n, _ => NoPage))]
                && SameElsewhere(old(W()), W(), Pages(pid, c.addr, c.addr + n))
                && (forall page :: c.addr <= page < c.addr + n ==>
                      && Key(pid, page) !in old(prot) && Key(pid, page) in prot && prot[Key(pid, page)] == p
                      && Read(W(), Key(pid, page)) == ZeroPage())
    {
      hide *;
      ValidFacts(pid);
      KeepsRefl(W());
      var rs := spaces[pid];
      c := ChooseRange(rs, fixtures, heapStart, top, hint, n, isFixed);
      if !c.Chosen? {
        return;
      }
      ChosenFree(rs, fixtures, heapStart, top, hint, n, isFixed, c);
      var r := Region(Anon, c.addr, p, 0, seq(n, _ => NoPage));
      ghost var w, s := W(), Pages(pid, c.addr, c.addr + n);
      FreeIsUnused(Anon, prot, own, pid, rs, c.addr, n);
      AddAllKeeps(w, s, p);
      AddAllIs(w, pid, c.addr, c.addr + n, p);
      SlotsOf(r, n);
      AppendKeeps(Anon, prot, own, own, pid, rs, r);
      AppendOther(SharedFile, fprot, fown, pid, rs, r);
      ghost var prot' := AddAll(w, s, p).prot;
      OthersAfterAdd(w, pid, c.addr, c.addr + n, p);
      BothChanged(prot, own, fprot, fown, prot', own, fprot, fown, spaces, pid, rs + [r]);
      spaces := spaces[pid := rs + [r]];
      prot := prot';
      WIs();
      FIs();
      KeepsIs(w, W());
      GoodMake(W(), F(), spaces);
      NowValid();
    }

    /**
     uvm_mmap_file_shared, after its checks: the region names `cached`, the page-cache pages of the file from
     page `offset` on, and maps them at once unless it allows no access.
     */
    method MmapShared(pid: nat, hint: nat, n: nat, isFixed: bool, p: Prot, heapStart: nat, top: nat,
                      fixtures: seq<Region>,
                      offset: nat, cached: seq<Frame>)
      returns (c: Choice)
      requires Valid() && Filled() && pid in spaces && (p.w ==> p.r) && |cached| == n &&
               forall i :: 0 <= i < n ==> cached[i] in fmem
      modifies `spaces, `fprot, `fown, `fptes, `frefs
      ensures Valid() && Filled() && spaces.Keys == old(spaces.Keys)
      ensures MapChoice(old(spaces)[pid], fixtures, heapStart, top, hint, n, isFixed, c)
      ensures !c.Chosen? ==> spaces == old(spaces) && F() == old(F())
      ensures c.Chosen? ==>
                && spaces[pid] == old(spaces)[pid] + [Region(SharedFile, c.addr, p, offset, SlotsFor(cached))]
                && SameElsewhere(old(F()), F(), Pages(pid, c.addr, c.addr + n))
                && forall i :: 0 <= i < n ==> Read(F(), Key(pid, c.addr + i)) == fmem[cached[i]]
    {
      hide *;
      ValidFacts(pid);
      FilledIs();
      var rs := spaces[pid];
      c := ChooseRange(rs, fixtures, heapStart, top, hint, n, isFixed);
      if !c.Chosen? {
        return;
      }
      ChosenFree(rs, fixtures, heapStart, top, hint, n, isFixed, c);
      var r := Region(SharedFile, c.addr, p, offset, SlotsFor(cached));
      SlotsForIs(cached);
      FreeIsUnused(SharedFile, fprot, fown, pid, rs, c.addr, n);
      ghost var f0 := F();
      AttachAll(pid, c.addr, p, cached);
      FIs();
      AddedAll(f0, F(), pid, c.addr, p, cached);
      AddedReads(f0, F(), pid, c.addr, p, cached);
      AppendKeeps(SharedFile, f0.prot, f0.own, fown, pid, rs, r);
      AppendOther(Anon, prot, own, pid, rs, r);
      BothChanged(prot, own, f0.prot, f0.own, prot, own, fprot, fown, spaces, pid, rs + [r]);
      spaces := spaces[pid := rs + [r]];
      WIs();
      FIs();
      FilledIs();
      GoodMake(W(), F(), spaces);
      NowValid();
    }

    /** The loop of uvm_mmap_file_shared. */
    method AttachAll(pid: nat, addr: nat, p: Prot, cached: seq<Frame>)
      requires FileInv(F()) && Filled() && (p.w ==> p.r) && Pages(pid, addr, addr + |cached|) !! fprot.Keys &&
               forall i :: 0 <= i < |cached| ==> cached[i] in fmem
      modifies `fprot, `fown, `fptes, `frefs
      ensures FileInv(F()) && Filled() && SameElsewhere(old(F()), F(), Pages(pid, addr, addr + |cached|))
      ensures FilesAdded(old(F()), F(), pid, addr, p, cached, |cached|)
    {
      hide *;
      ghost var f0 := F();
      FIs();
      PagesNone(pid, addr);
      SameElsewhereRefl(f0, {});
      AddedNone(f0, pid, addr, p, cached);
      for i := 0 to |cached|
        invariant FileInv(F()) && Filled() && SameElsewhere(f0, F(), Pages(pid, addr, addr + i))
        invariant FilesAdded(f0, F(), pid, addr, p, cached, i)
      {
        var k := Key(pid, addr + i);
        ghost var f := F();
        FIs();
        FilledIs();
        AddedFresh(f0, f, pid, addr, p, cached, i);
        CachedGet(cached[i]);
        SameWithin(p);
        FileAttach(f, k, p, cached[i], p.r || p.w || p.x, p);
        AttachIs(f, k, p, cached[i], p.r || p.w || p.x, p);
        if p.r || p.w || p.x {
          fptes := fptes[k := Pte(cached[i], p, false)];
        }
        fprot, fown := fprot[k := p], fown[k := cached[i]];
        FIs();
        FilledIs();
        AddedMore(f0, f, F(), pid, addr, p, cached, i);
        SameElsewhereTrans(f0, f, F(), Pages(pid, addr, addr + i), {k});
        PagesNext(pid, addr, addr + i);
      }
    }

    lemma EntriesConfined()
      requires Valid()
      ensures Confined()
    {
      EntriesInside(Anon, prot, own, ptes, refs, mem, spaces);
      EntriesInside(SharedFile, fprot, fown, fptes, frefs, fmem, spaces);
    }

    lemma ValidInv()
      requires Valid()
      ensures Inv(W()) && FileInv(F()) && BothOk(prot, own, fprot, fown, spaces)
      ensures W() == World(prot, own, ptes, refs, mem) && F() == World(fprot, fown, fptes, frefs, fmem)
    {
    }

    lemma WIs()
      ensures W() == World(prot, own, ptes, refs, mem)
    {
    }

    lemma FIs()
      ensures F() == World(fprot, fown, fptes, frefs, fmem)
    {
    }

    lemma FilledIs()
      ensures Filled() <==> fprot.Keys <= fown.Keys
    {
    }

    lemma SoundIs()
      ensures Sound() <==> SharedIsCow(W())
    {
    }

    lemma EntryIs(k: Key)
      ensures Entry(k) == if k in ptes then Some(ptes[k]) else if k in fptes then Some(fptes[k]) else None
    {
    }

    lemma NowValid()
      requires Good(World(prot, own, ptes, refs, mem), World(fprot, fown, fptes, frefs, fmem), spaces)
      ensures Valid()
    {
    }

    lemma IsGood()
      requires Valid()
      ensures Good(World(prot, own, ptes, refs, mem), World(fprot, fown, fptes, frefs, fmem), spaces)
      ensures W() == World(prot, own, ptes, refs, mem) && F() == World(fprot, fown, fptes, frefs, fmem)
    {
    }

    lemma ValidFacts(pid: nat)
      requires Valid() && pid in spaces
      ensures Inv(W()) && FileInv(F()) && BothOk(prot, own, fprot, fown, spaces)
      ensures W() == World(prot, own, ptes, refs, mem) && F() == World(fprot, fown, fptes, frefs, fmem)
      ensures SpaceOk(Anon, prot, own, pid, spaces[pid]) && SpaceOk(SharedFile, fprot, fown, pid, spaces[pid])
      ensures Disjoint(spaces[pid]) && Readable(spaces[pid])
    {
    }
  }

  /** Each entry has a region that covers its page, and stays within the protection of that region. */
  ghost predicate Confines(spaces: map<nat, seq<Region>>, ptes: map<Key, Pte>) {
    forall k :: k in ptes ==>
      && k.pid in spaces && Lookup(spaces[k.pid], k.page).Some?
      && Within(ptes[k].prot, Lookup(spaces[k.pid], k.page).value.prot)
  }

  lemma EntriesInside(kind: Kind, prot: map<Key, Prot>, own: map<Key, Frame>, ptes: map<Key, Pte>,
                      refs: map<Frame, nat>, mem: map<Frame, Bytes>, spaces: map<nat, seq<Region>>)
    requires Inv(World(prot, own, ptes, refs, mem)) && AllSpacesOk(kind, prot, own, spaces)
    ensures Confines(spaces, ptes)
  {
    forall k | k in ptes
      ensures k.pid in spaces && Lookup(spaces[k.pid], k.page).Some?
      ensures Within(ptes[k].prot, Lookup(spaces[k.pid], k.page).value.prot)
    {
      assert k in prot;
      assert LinkedPage(kind, prot, own, k.pid, spaces[k.pid], k.page);
    }
  }

  /** The entries for pages of `s` allow at most `p`, and there are none if `p` allows nothing. */
  ghost predicate AtMost(ptes: map<Key, Pte>, s: set<Key>, p: Prot) {
    forall k :: k in s && k in ptes ==> Within(ptes[k].prot, p) && (p.r || p.w || p.x)
  }

  lemma AtMostIs(w: World, s: set<Key>, p: Prot)
    requires Inv(w) && forall k :: k in s && k in w.prot ==> w.prot[k] == p
    ensures AtMost(w.ptes, s, p)
  {
    hide Counted;
  }

  lemma ProtectedAtMost(w0: World, w: World, s: set<Key>, p: Prot)
    requires Inv(w) && ProtectedOn(w0, w, s, p)
    ensures AtMost(w.ptes, s, p)
  {
    hide Read, Inv;
    AtMostIs(w, s, p);
  }

  lemma AllowsSome(p: Prot, write: bool, instr: bool)
    requires Allows(p, write, instr)
    ensures p.r || p.w || p.x
    ensures (p.w ==> p.r) ==> Usable(p)
    ensures !write && (p.w ==> p.r) ==> Allows(p.(w := false), write, instr)
  {
  }

  lemma SameWithin(p: Prot)
    ensures Within(p, p)
    ensures (p.w ==> p.r) && (p.r || p.w || p.x) ==> Usable(p)
  {
  }

  lemma UpdateIs(w: World, k: Key, p: Prot)
    requires k in w.ptes && k in w.prot && w.prot[k] == p
    ensures w.(prot := w.prot[k := p]) == w
    ensures var e := w.ptes[k];
            var p' := if e.cow then p.(w := false) else p;
            UpdatePte(w, k, p) == w.(ptes := if p'.r || p'.w || p'.x then w.ptes[k := Pte(e.frame, p', e.cow)]
                                     else w.ptes - {k})
  {
    assert w.prot[k := p] == w.prot;
  }

  /** update_present_pte with the protection the page has anyway. */
  lemma UpdateKeeps(w: World, k: Key, p: Prot)
    requires Inv(w) && k in w.ptes && k in w.prot && w.prot[k] == p && (p.w ==> p.r)
    ensures Keeps(w, UpdatePte(w, k, p)) && SameElsewhere(w, UpdatePte(w, k, p), {})
  {
    hide Inv, SameElsewhere, Read, UpdatePte, SharedIsCow;
    assert w.prot[k := p] == w.prot;
    var w' := UpdatePte(w, k, p);
    LowerProt(w, k, p);
    assert w.(prot := w.prot[k := p]) == w;
    if SharedIsCow(w) {
      KeepingWrite(w, k, p);
    }
    NowhereElse(w, w', k);
  }

  lemma MapIs(w: World, k: Key, p: Prot)
    requires k in w.own
    ensures Map(w, k, p, false) == w.(ptes := w.ptes[k := Pte(w.own[k], p, false)])
  {
  }

  lemma CopyIs(w: World, k: Key, p: Prot, f: Frame)
    requires k in w.own && w.own[k] in w.mem && w.own[k] in w.refs && f !in w.refs
    ensures Map(Replace(w, k, f), k, p, false) ==
            World(w.prot, w.own[k := f], w.ptes[k := Pte(f, p, false)], Put(w.refs[f := 1], w.own[k]),
                  w.mem[f := w.mem[w.own[k]]])
  {
    assert (w.own - {k})[k := f] == w.own[k := f];
    assert (w.ptes - {k})[k := Pte(f, p, false)] == w.ptes[k := Pte(f, p, false)];
    assert Put(w.refs, w.own[k])[f := 1] == Put(w.refs[f := 1], w.own[k]);
  }

  lemma CopiedKeeps(w: World, k: Key, p: Prot, f: Frame)
    requires k in w.own && w.own[k] in w.mem && w.own[k] in w.refs && f !in w.refs &&
             Keeps(w, Map(Replace(w, k, f), k, p, false))
    ensures var w' := World(w.prot, w.own[k := f], w.ptes[k := Pte(f, p, false)], Put(w.refs[f := 1], w.own[k]),
                            w.mem[f := w.mem[w.own[k]]]);
            Inv(w') && Keeps(w, w')
  {
    CopyIs(w, k, p, f);
  }

  lemma ZeroIs(w: World, k: Key, f: Frame)
    requires Inv(w) && k in w.prot && k !in w.own && f !in w.refs
    ensures Install(w, k, f, ZeroPage()) == World(w.prot, w.own[k := f], w.ptes, w.refs[f := 1], w.mem[f := ZeroPage()])
    ensures Keeps(w, Install(w, k, f, ZeroPage())) && SameElsewhere(w, Install(w, k, f, ZeroPage()), {})
  {
    InstallKeeps(w, k, f, ZeroPage());
    NowhereElse(w, Install(w, k, f, ZeroPage()), k);
  }

  lemma DetachIs(w: World, k: Key)
    requires k in w.own
    ensures Detach(w, k) == World(w.prot, w.own - {k}, w.ptes - {k}, Put(w.refs, w.own[k]), w.mem)
  {
  }

  /** `r'` is `r` with slots [from, to) emptied. */
  ghost predicate Released(r: Region, r': Region, from: nat, to: nat) {
    && r' == r.(slots := r'.slots) && |r'.slots| == |r.slots|
    && forall j :: 0 <= j < |r.slots| ==> r'.slots[j] == if from <= j < to then NoPage else r.slots[j]
  }

  lemma ReleasedNone(r: Region, from: nat)
    ensures Released(r, r, from, from)
  {
  }

  lemma ReleasedLength(r: Region, r': Region, from: nat, to: nat)
    requires Released(r, r', from, to)
    ensures |r'.slots| == |r.slots| && r'.start == r.start && r'.kind == r.kind
  {
  }

  lemma ReleasedNext(r: Region, r': Region, from: nat, idx: nat)
    requires Released(r, r', from, idx) && from <= idx < |r.slots|
    ensures idx < |r'.slots| && Released(r, r'.(slots := r'.slots[idx := NoPage]), from, idx + 1)
  {
  }

  lemma PagesNext(pid: nat, lo: nat, hi: nat)
    requires lo <= hi
    ensures Pages(pid, lo, hi) + {Key(pid, hi)} == Pages(pid, lo, hi + 1)
  {
  }

  /** `out` says about every page what `rs` says, except that it has nothing in [lo, hi). */
  ghost predicate CutOut(rs: seq<Region>, out: seq<Region>, lo: nat, hi: nat) {
    forall page: nat :: Lookup(out, page) == if lo <= page < hi then None else Lookup(rs, page)
  }

  lemma CutNone(rs: seq<Region>, lo: nat, hi: nat)
    ensures CutOut(rs[..0], [], lo, hi)
  {
  }

  lemma CutStep(rs: seq<Region>, out: seq<Region>, r: Region, lo: nat, hi: nat)
    requires CutOut(rs, out, lo, hi) && |r.slots| > 0
    ensures CutOut(rs + [r], out + Remains(r, lo, hi), lo, hi)
  {
    forall page: nat
      ensures Lookup(out + Remains(r, lo, hi), page) == if lo <= page < hi then None else Lookup(rs + [r], page)
    {
      LookupAppend(out, Remains(r, lo, hi), page);
      LookupAppend(rs, [r], page);
      RemainsLookup(r, lo, hi, page);
      assert [r][1..] == [];
    }
  }

  lemma CutDone(rs: seq<Region>, out: seq<Region>, lo: nat, hi: nat)
    requires CutOut(rs, out, lo, hi)
    ensures forall page: nat :: Lookup(out, page) == if lo <= page < hi then None else Lookup(rs, page)
  {
  }

  /** What munmap leaves of a region, written out by cases. */
  lemma RemainsIs(r: Region, lo: nat, hi: nat)
    requires |r.slots| > 0 && lo < hi
    ensures r.start + |r.slots| <= lo || r.start >= hi ==> Remains(r, lo, hi) == [r]
  {
  }

  lemma RemainsParts(r: Region, lo: nat, hi: nat)
    requires |r.slots| > 0 && lo < hi && !(r.start + |r.slots| <= lo || r.start >= hi)
    ensures r.start < lo && hi < End(r) ==> Remains(r, lo, hi) == [Slice(r, r.start, lo), Slice(r, hi, End(r))]
    ensures r.start < lo && hi >= End(r) ==> Remains(r, lo, hi) == [Slice(r, r.start, lo)]
    ensures r.start >= lo && hi < End(r) ==> Remains(r, lo, hi) == [TrimLeft(r, hi)]
    ensures r.start >= lo && hi >= End(r) ==> Remains(r, lo, hi) == []
  {
    hide Slice, TrimLeft;
  }

  lemma LeftIs(r: Region, hi: nat)
    requires r.start < hi < End(r)
    ensures TrimLeft(r, hi) ==
            Region(r.kind, hi, r.prot, if r.kind == SharedFile then r.offset + (hi - r.start) else r.offset,
                   r.slots[hi - r.start..])
  {
    assert r.slots[hi - r.start..|r.slots|] == r.slots[hi - r.start..];
  }

  lemma SliceLeft(r: Region, lo: nat)
    requires r.start < lo <= End(r)
    ensures Slice(r, r.start, lo) == r.(slots := r.slots[..lo - r.start])
  {
    assert r.slots[0..lo - r.start] == r.slots[..lo - r.start];
  }

  lemma SliceRight(r: Region, hi: nat)
    requires r.start <= hi <= End(r)
    ensures Slice(r, hi, End(r)) == Region(r.kind, hi, r.prot, r.offset + (hi - r.start), r.slots[hi - r.start..])
  {
    assert r.slots[hi - r.start..|r.slots|] == r.slots[hi - r.start..];
  }

  lemma ReleasedRemains(r: Region, r': Region, addr: nat, end: nat, from: nat, to: nat)
    requires |r.slots| > 0 && addr < end && !(End(r) <= addr || r.start >= end)
    requires from == (if addr > r.start then addr - r.start else 0) &&
             to == (if end < End(r) then end else End(r)) - r.start
    requires Released(r, r', from, to)
    ensures |r'.slots| > 0 && Remains(r', addr, end) == Remains(r, addr, end)
    ensures Remains(r', addr, end) ==
            (if from > 0 then [r'.(slots := r'.slots[..from])] else []) +
            (if to < |r.slots| then
               [Region(r'.kind, r'.start + to, r'.prot, if from > 0 || r'.kind == SharedFile then r'.offset + to
                   else r'.offset, r'.slots[to..])]
             else [])
  {
    if from > 0 {
      assert r'.slots[0..from] == r.slots[0..from] == r'.slots[..from];
    }
    if to < |r.slots| {
      assert r'.slots[to..|r.slots|] == r.slots[to..|r.slots|] == r'.slots[to..] == r.slots[to..];
    }
  }

  lemma RangeReleased(pid: nat, own: map<Key, Frame>, fown: map<Key, Frame>, r: Region, addr: nat, end: nat, lo: nat,
                      hi: nat)
    requires lo == (if addr > r.start then addr else r.start) &&
             hi == (if end < r.start + |r.slots| then end else r.start + |r.slots|)
    requires own.Keys !! Pages(pid, lo, hi) && fown.Keys !! Pages(pid, lo, hi)
    ensures forall page: nat :: addr <= page < end && Covers(r, page) ==>
            Key(pid, page) !in own && Key(pid, page) !in fown
    ensures Pages(pid, lo, hi) <= Pages(pid, addr, end)
  {
    forall page: nat | addr <= page < end && Covers(r, page)
      ensures Key(pid, page) !in own && Key(pid, page) !in fown
    {
      assert Key(pid, page) in Pages(pid, lo, hi);
    }
  }

  lemma SubPages(pid: nat, lo: nat, hi: nat, lo': nat, hi': nat)
    requires lo' <= lo && hi <= hi'
    ensures Pages(pid, lo, hi) <= Pages(pid, lo', hi')
  {
  }

  lemma TrimBounds(r: Region, addr: nat, end: nat, lo: nat, hi: nat)
    requires lo == (if addr > r.start then addr else r.start) &&
             hi == (if end < r.start + |r.slots| then end else r.start + |r.slots|)
    ensures (if addr > r.start then addr else r.start) == lo && (if end < End(r) then end else End(r)) == hi
  {
  }

  lemma OthersAfterTrim(prot: map<Key, Prot>, own: map<Key, Frame>, prot': map<Key, Prot>, pid: nat, lo: nat, hi: nat)
    requires prot' == prot || prot' == prot - Pages(pid, lo, hi)
    ensures OthersAgree(prot, own, prot', own, pid)
  {
  }

  lemma EndIs(r: Region)
    ensures End(r) == r.start + |r.slots|
  {
  }

  lemma ForkIs(w: World, k: Key, k': Key, f: Frame)
    requires Inv(w) && k in w.prot && k' !in w.prot && f !in w.refs &&
             (k in w.own ==> w.own[k] in w.mem && w.own[k] in w.refs)
    ensures k !in w.own ==> ForkPage(w, k, k', f) == World(w.prot[k' := w.prot[k]], w.own, w.ptes, w.refs, w.mem)
    ensures k in w.own && k !in w.ptes ==>
              ForkPage(w, k, k', f) == World(w.prot[k' := w.prot[k]], w.own[k' := f], w.ptes, w.refs[f := 1],
                                             w.mem[f := w.mem[w.own[k]]])
    ensures k in w.own && k in w.ptes ==>
              var e := w.ptes[k];
              var cow := Pte(e.frame, e.prot.(w := false), true);
              && e.frame == w.own[k]
              && ForkPage(w, k, k', f) ==
                 World(w.prot[k' := w.prot[k]], w.own[k' := e.frame], if w.prot[k].w then w.ptes[k' := cow][k := cow]
                     else w.ptes[k' := e],
                       w.refs[e.frame := w.refs[e.frame] + 1], w.mem)
  {
    if k in w.own && k in w.ptes {
      MappedIsOwned(w, k);
      var cow := Pte(w.ptes[k].frame, w.ptes[k].prot.(w := false), true);
      assert k != k' ==> w.ptes[k := cow][k' := cow] == w.ptes[k' := cow][k := cow];
    }
  }

  /** The child's pages [lo, hi) are there and read as the parent's did. */
  ghost predicate Copied(w: World, w': World, parent: nat, child: nat, lo: nat, hi: nat) {
    forall page :: lo <= page < hi ==>
        Key(child, page) in w'.prot && Read(w', Key(child, page)) == Read(w, Key(parent, page))
  }

  lemma CopiedNone(w: World, parent: nat, child: nat, lo: nat)
    ensures Copied(w, w, parent, child, lo, lo)
  {
  }

  lemma CopiedNext(w0: World, w: World, w': World, parent: nat, child: nat, lo: nat, page: nat)
    requires Copied(w0, w, parent, child, lo, page) && parent != child && lo <= page
    requires SameElsewhere(w0, w, Pages(child, lo, page)) && Key(parent, page) in w.prot
    requires SameElsewhere(w, w', {Key(child, page)}) && Key(child, page) in w'.prot
    requires Read(w', Key(child, page)) == Read(w, Key(parent, page))
    ensures Copied(w0, w', parent, child, lo, page + 1)
  {
    hide Read;
    assert Key(parent, page) !in Pages(child, lo, page);
  }

  lemma CopiedReads(w: World, w': World, parent: nat, child: nat, lo: nat, hi: nat)
    requires Copied(w, w', parent, child, lo, hi)
    ensures forall page :: lo <= page < hi ==> Read(w', Key(child, page)) == Read(w, Key(parent, page))
  {
  }

  /** After the fork: the same pages, the same protections, the same bytes. */
  ghost predicate ForkedFrom(w: World, w': World, parent: nat, child: nat) {
    forall page: nat ::
      var k, k' := Key(parent, page), Key(child, page);
      && (k' in w'.prot <==> k in w.prot)
      && (k in w.prot ==> w'.prot[k'] == w.prot[k] && Read(w', k') == Read(w, k))
  }

  ghost predicate ChildReads(w: World, w': World, parent: nat, child: nat) {
    forall page: nat :: Key(child, page) in w'.prot ==> Read(w', Key(child, page)) == Read(w, Key(parent, page))
  }

  lemma ChildReadsNext(w0: World, w: World, w': World, parent: nat, child: nat, lo: nat, hi: nat)
    requires parent != child && ChildReads(w0, w, parent, child) && OthersSame(w0, w, child)
    requires SameElsewhere(w, w', Pages(child, lo, hi))
    requires forall page :: lo <= page < hi ==>
             Key(parent, page) in w.prot && Read(w', Key(child, page)) == Read(w, Key(parent, page))
    ensures ChildReads(w0, w', parent, child)
  {
    hide Read;
    forall page: nat | Key(child, page) in w'.prot
      ensures Read(w', Key(child, page)) == Read(w0, Key(parent, page))
    {
      assert Key(child, page) in Pages(child, lo, hi) <==> lo <= page < hi;
    }
  }

  lemma OthersSameRefl(w: World, pid: nat)
    ensures OthersSame(w, w, pid)
  {
  }

  lemma OthersSameTrans(w0: World, w1: World, w2: World, pid: nat)
    requires OthersSame(w0, w1, pid) && OthersSame(w1, w2, pid)
    ensures OthersSame(w0, w2, pid)
  {
  }

  lemma EmptySpace(w: World, f: World, spaces: map<nat, seq<Region>>, child: nat)
    requires Inv(w) && FileInv(f) && BothOk(w.prot, w.own, f.prot, f.own, spaces) && child !in spaces
    ensures BothOk(w.prot, w.own, f.prot, f.own, spaces[child := []])
    ensures SameShape([], []) && forall parent: nat :: ChildReads(w, w, parent, child)
  {
    EmptyKind(Anon, w, spaces, child);
    EmptyKind(SharedFile, f, spaces, child);
  }

  lemma EmptyKind(kind: Kind, w: World, spaces: map<nat, seq<Region>>, child: nat)
    requires Inv(w) && AllSpacesOk(kind, w.prot, w.own, spaces) && child !in spaces
    ensures AllSpacesOk(kind, w.prot, w.own, spaces[child := []])
    ensures forall page: nat :: Key(child, page) !in w.prot
  {
    FramesHaveBytes(w);
    forall page: nat
      ensures LinkedPage(kind, w.prot, w.own, child, [], page)
    {
      assert Key(child, page).pid == child;
    }
  }

  /** What fork makes of one region: an anonymous one has no file offset, a shared one is the same all over. */
  ghost predicate CopyOf(r: Region, dst: Region) {
    && dst.kind == r.kind && dst.start == r.start && dst.prot == r.prot && |dst.slots| == |r.slots|
    && (r.kind == SharedFile ==> dst == r)
    && (r.kind == Anon ==> dst.offset == 0)
  }

  lemma CopyOfMake(r: Region, dst: Region)
    requires (r.kind == SharedFile && dst == r) ||
             (r.kind == Anon && dst == r.(offset := 0, slots := dst.slots) && |dst.slots| == |r.slots|)
    ensures CopyOf(r, dst)
  {
  }

  lemma CopyOfIs(r: Region, dst: Region)
    requires CopyOf(r, dst)
    ensures dst.kind == r.kind && dst.start == r.start && dst.prot == r.prot && |dst.slots| == |r.slots|
    ensures r.kind == SharedFile ==> dst == r
  {
  }

  /** `seg` holds the copies of `rs` in reverse order. */
  ghost predicate SameShape(rs: seq<Region>, seg: seq<Region>) {
    |seg| == |rs| && forall j :: 0 <= j < |rs| ==> CopyOf(rs[j], seg[|rs| - 1 - j])
  }

  lemma ShapeClear(rs: seq<Region>, i: nat, seg: seq<Region>)
    requires i < |rs| && SameShape(rs[..i], seg) && Disjoint(rs)
    ensures forall j :: 0 <= j < |seg| ==> !Overlap(seg[j], rs[i])
  {
    forall j | 0 <= j < |seg|
      ensures !Overlap(seg[j], rs[i])
    {
      var m := i - 1 - j;
      assert rs[..i][m] == rs[m];
      assert CopyOf(rs[..i][m], seg[j]) && !Overlap(rs[m], rs[i]);
    }
  }

  lemma ShapeNext(rs: seq<Region>, i: nat, seg: seq<Region>, dst: Region)
    requires i < |rs| && SameShape(rs[..i], seg) && CopyOf(rs[i], dst)
    ensures SameShape(rs[..i + 1], [dst] + seg)
  {
    hide CopyOf;
    var done, copies := rs[..i + 1], [dst] + seg;
    forall j | 0 <= j < |done|
      ensures CopyOf(done[j], copies[|done| - 1 - j])
    {
      if j < i {
        assert rs[..i][j] == rs[j] && copies[i - j] == seg[i - 1 - j];
      }
    }
  }

  lemma ShapeLookup(rs: seq<Region>, seg: seq<Region>, page: nat)
    requires SameShape(rs, seg) && Disjoint(rs) && Disjoint(seg)
    ensures Lookup(rs, page).Some? <==> Lookup(seg, page).Some?
    ensures Lookup(rs, page).Some? ==>
              Lookup(rs, page).value.prot == Lookup(seg, page).value.prot &&
                  Lookup(rs, page).value.kind == Lookup(seg, page).value.kind
    ensures OfKind(SharedFile, seg, page) == OfKind(SharedFile, rs, page)
  {
    if j :| 0 <= j < |rs| && Covers(rs[j], page) {
      var c := |rs| - 1 - j;
      assert CopyOf(rs[j], seg[c]) && Covers(seg[c], page);
      LookupAt(rs, j, page);
      LookupAt(seg, c, page);
    } else {
      forall m | 0 <= m < |seg|
        ensures !Covers(seg[m], page)
      {
        assert CopyOf(rs[|rs| - 1 - m], seg[m]) && !Covers(rs[|rs| - 1 - m], page);
      }
      LookupNone(rs, page);
      LookupNone(seg, page);
    }
  }

  lemma ShapeShared(rs: seq<Region>, seg: seq<Region>)
    requires SameShape(rs, seg) && Disjoint(rs) && Disjoint(seg)
    ensures forall page: nat :: OfKind(SharedFile, seg, page) == OfKind(SharedFile, rs, page)
  {
    forall page: nat
      ensures OfKind(SharedFile, seg, page) == OfKind(SharedFile, rs, page)
    {
      ShapeLookup(rs, seg, page);
    }
  }

  lemma ForkDone(w0: World, w: World, parent: nat, child: nat, rs: seq<Region>, seg: seq<Region>)
    requires SpaceOk(Anon, w.prot, w.own, parent, rs) && SpaceOk(Anon, w.prot, w.own, child, seg) && SameShape(rs, seg)
    requires OthersSame(w0, w, child) && ChildReads(w0, w, parent, child) && parent != child
    ensures ForkedFrom(w0, w, parent, child)
  {
    hide Read;
    forall page: nat
      ensures var k, k' := Key(parent, page), Key(child, page);
              (k' in w.prot <==> k in w0.prot) &&
                  (k in w0.prot ==> w.prot[k'] == w0.prot[k] && Read(w, k') == Read(w0, k))
    {
      ShapeLookup(rs, seg, page);
      assert LinkedPage(Anon, w.prot, w.own, parent, rs, page);
      assert LinkedPage(Anon, w.prot, w.own, child, seg, page);
    }
  }

  lemma RegionPages(kind: Kind, prot: map<Key, Prot>, own: map<Key, Frame>, pid: nat, rs: seq<Region>, i: nat)
    requires SpaceOk(kind, prot, own, pid, rs) && i < |rs| && rs[i].kind == kind
    ensures forall page :: rs[i].start <= page < rs[i].start + |rs[i].slots| ==> Key(pid, page) in prot
  {
    forall page | rs[i].start <= page < rs[i].start + |rs[i].slots|
      ensures Key(pid, page) in prot
    {
      SlotIs(kind, prot, own, pid, rs, i, page - rs[i].start);
    }
  }

  lemma WriteAllowed(ptes: map<Key, Pte>, k: Key)
    ensures k in ptes ==> (Allows(ptes[k].prot, true, false) <==> ptes[k].prot.w)
  {
  }

  lemma StoreIs(w: World, k: Key, i: nat, b: int)
    requires k in w.own && w.own[k] in w.mem
    ensures Store(w, k, i, b) == World(w.prot, w.own, w.ptes, w.refs, w.mem[w.own[k] := SetByte(w.mem[w.own[k]], i, b)])
  {
  }

  lemma WholeRegion(r: Region)
    requires |r.slots| > 0
    ensures Remains(r, r.start, r.start + |r.slots|) == []
  {
  }

  lemma NoPagesLeft(kind: Kind, prot: map<Key, Prot>, own: map<Key, Frame>, pid: nat, spaces: map<nat, seq<Region>>)
    requires AllSpacesOk(kind, prot, own, spaces) && pid in spaces && spaces[pid] == []
    ensures AllSpacesOk(kind, prot, own, spaces - {pid})
    ensures forall page: nat :: Key(pid, page) !in prot
  {
    forall k | k in prot
      ensures k.pid != pid
    {
      assert LinkedPage(kind, prot, own, pid, [], k.page);
      assert k == Key(k.pid, k.page);
    }
  }

  /** The page-table entries after update_present_pte. */
  function Updated(ptes: map<Key, Pte>, k: Key, p: Prot): map<Key, Pte> {
    if k !in ptes then ptes
    else
      var e := ptes[k];
      var p' := if e.cow then p.(w := false) else p;
      if p'.r || p'.w || p'.x then ptes[k := Pte(e.frame, p', e.cow)] else ptes - {k}
  }

  lemma UpdatedIs(ptes: map<Key, Pte>, k: Key, p: Prot)
    ensures k !in ptes ==> Updated(ptes, k, p) == ptes
    ensures k in ptes ==>
              var e := ptes[k];
              var p' := if e.cow then p.(w := false) else p;
              Updated(ptes, k, p) == if p'.r || p'.w || p'.x then ptes[k := Pte(e.frame, p', e.cow)] else ptes - {k}
  {
  }

  lemma ReprotectIs(w: World, k: Key, p: Prot, f: Frame)
    requires Inv(w) && k in w.prot && f !in w.refs && (k in w.own ==> w.own[k] in w.mem && w.own[k] in w.refs)
    ensures var copied := !(p.r || p.w || p.x) && k in w.ptes && w.ptes[k].cow && k in w.own;
            Reprotect(w, k, p, f) ==
            if copied then
              World(w.prot[k := p], w.own[k := f], Updated(w.ptes[k := Pte(f, w.ptes[k].prot.(w := false), false)], k,
                                                           p),
                    Put(w.refs[f := 1], w.own[k]), w.mem[f := w.mem[w.own[k]]])
            else World(w.prot[k := p], w.own, Updated(w.ptes, k, p), w.refs, w.mem)
  {
    if !(p.r || p.w || p.x) && k in w.ptes && w.ptes[k].cow && k in w.own {
      CopyIs(w, k, w.ptes[k].prot.(w := false), f);
    }
  }

  /** What may be given protection `p` does not depend on what has been given it already. */
  ghost predicate MaySame(w: World, w': World, p: Prot) {
    forall k: Key :: MayProtect(w', k, p) <==> MayProtect(w, k, p)
  }

  lemma OthersMay(w: World, k: Key, p: Prot, f: Frame)
    requires Inv(w) && k in w.prot && f !in w.refs && (p.w ==> p.r) &&
             (k in w.own ==> w.own[k] in w.mem && w.own[k] in w.refs)
    ensures MaySame(w, Reprotect(w, k, p, f), p)
  {
    ReprotectIs(w, k, p, f);
    hide Reprotect;
    UpdatedIs(w.ptes, k, p);
    hide Updated;
    if k in w.ptes {
      MappedIsOwned(w, k);
    }
  }

  /** Protections inside `s` are now `p`; every page still reads the same and no page came or went. */
  ghost predicate ProtectedOn(w: World, w': World, s: set<Key>, p: Prot) {
    forall k: Key ::
      && (k in w'.prot <==> k in w.prot)
      && (k in w.prot ==> w'.prot[k] == (if k in s then p else w.prot[k]) && Read(w', k) == Read(w, k))
  }

  lemma ProtectedNone(w: World, p: Prot)
    ensures ProtectedOn(w, w, {}, p)
  {
  }

  lemma ProtectedThen(w0: World, w1: World, w2: World, s: set<Key>, s': set<Key>, p: Prot)
    requires ProtectedOn(w0, w1, s, p) && ProtectedOn(w1, w2, s', p)
    ensures ProtectedOn(w0, w2, s + s', p)
  {
    hide Read;
  }

  lemma ProtectedStep(w: World, w': World, k: Key, p: Prot)
    requires SameElsewhere(w, w', {k}) && k in w.prot && w'.prot == w.prot[k := p] && Read(w', k) == Read(w, k)
    ensures ProtectedOn(w, w', {k}, p)
  {
    hide Read;
  }

  /** The pages in [lo, hi) of the first `n` regions are all in `done`. */
  ghost predicate RegionsDone(rs: seq<Region>, n: nat, pid: nat, lo: nat, hi: nat, done: set<Key>)
    requires n <= |rs|
  {
    forall j :: 0 <= j < n ==> Pages(pid, rs[j].start, rs[j].start + |rs[j].slots|) * Pages(pid, lo, hi) <= done
  }

  lemma RegionsDoneNext(rs: seq<Region>, n: nat, pid: nat, lo: nat, hi: nat, done: set<Key>)
    requires n < |rs| && RegionsDone(rs, n, pid, lo, hi, done)
    ensures RegionsDone(rs, n + 1, pid, lo, hi, done + Pages(pid, rs[n].start, rs[n].start + |rs[n].slots|) * Pages(pid,
            lo, hi))
  {
  }

  ghost predicate ProtectedSoFar(w0: World, w: World, rs: seq<Region>, n: nat, pid: nat, lo: nat, hi: nat,
                                 done: set<Key>, p: Prot)
    requires n <= |rs|
  {
    ProtectedOn(w0, w, done, p) && done <= Pages(pid, lo, hi) && RegionsDone(rs, n, pid, lo, hi, done)
  }

  lemma ProtectedStart(w: World, rs: seq<Region>, pid: nat, lo: nat, hi: nat, p: Prot)
    ensures ProtectedSoFar(w, w, rs, 0, pid, lo, hi, {}, p)
  {
  }

  lemma ProtectedMore(w0: World, w: World, w': World, rs: seq<Region>, n: nat, pid: nat, lo: nat, hi: nat,
                      done: set<Key>, p: Prot)
    requires n < |rs| && ProtectedSoFar(w0, w, rs, n, pid, lo, hi, done, p)
    requires ProtectedOn(w, w', Pages(pid, rs[n].start, rs[n].start + |rs[n].slots|) * Pages(pid, lo, hi), p)
    ensures ProtectedSoFar(w0, w', rs, n + 1, pid, lo, hi,
                           done + Pages(pid, rs[n].start, rs[n].start + |rs[n].slots|) * Pages(pid, lo, hi), p)
  {
    hide ProtectedOn, Pages;
    var here := Pages(pid, rs[n].start, rs[n].start + |rs[n].slots|) * Pages(pid, lo, hi);
    ProtectedThen(w0, w, w', done, here, p);
    RegionsDoneNext(rs, n, pid, lo, hi, done);
  }

  lemma ProtectedDone(kind: Kind, w: World, w': World, pid: nat, lo: nat, hi: nat, rs: seq<Region>, done: set<Key>,
                      p: Prot)
    requires ProtectedSoFar(w, w', rs, |rs|, pid, lo, hi, done, p) && SpaceOk(kind, w.prot, w.own, pid, rs)
    ensures ProtectedOn(w, w', Pages(pid, lo, hi), p)
  {
    hide Read;
    forall k | k in w.prot && k in Pages(pid, lo, hi)
      ensures k in done
    {
      assert LinkedPage(kind, w.prot, w.own, pid, rs, k.page) && k == Key(pid, k.page);
      LookupNone(rs, k.page);
      var j :| 0 <= j < |rs| && Covers(rs[j], k.page);
      assert k in Pages(pid, rs[j].start, rs[j].start + |rs[j].slots|);
    }
  }

  /** Pages that are not there are protected as anybody likes. */
  lemma ProtectedAway(w: World, s: set<Key>, p: Prot)
    requires s !! w.prot.Keys
    ensures ProtectedOn(w, w, s, p)
  {
    hide Read;
  }

  lemma PagesApart(pid: nat, a: nat, b: nat, lo: nat, hi: nat)
    requires b <= lo || a >= hi
    ensures Pages(pid, a, b) * Pages(pid, lo, hi) == {}
  {
  }

  lemma PagesMeet(pid: nat, a: nat, b: nat, lo: nat, hi: nat)
    ensures Pages(pid, a, b) * Pages(pid, lo, hi) == Pages(pid, if a < lo then lo else a, if b > hi then hi else b)
  {
  }

  lemma PagesNone(pid: nat, lo: nat)
    ensures Pages(pid, lo, lo) == {}
  {
  }

  ghost predicate RangeMay(w: World, pid: nat, lo: nat, hi: nat, p: Prot) {
    forall page :: lo <= page < hi ==> MayProtect(w, Key(pid, page), p)
  }

  /** The rule for shared frames survives the step if the range may be given protection `p`. */
  ghost predicate Permits(w: World, w': World, pid: nat, lo: nat, hi: nat, p: Prot) {
    MaySame(w, w', p) && (SharedIsCow(w) && RangeMay(w, pid, lo, hi, p) ==> SharedIsCow(w'))
  }

  lemma PermitsRefl(w: World, pid: nat, lo: nat, hi: nat, p: Prot)
    ensures Permits(w, w, pid, lo, hi, p)
  {
  }

  lemma PermitsTrans(w0: World, w1: World, w2: World, pid: nat, lo: nat, hi: nat, p: Prot)
    requires Permits(w0, w1, pid, lo, hi, p) && Permits(w1, w2, pid, lo, hi, p)
    ensures Permits(w0, w2, pid, lo, hi, p)
  {
    hide MayProtect, SharedIsCow;
  }

  lemma PermitsNext(w0: World, w: World, w': World, pid: nat, start: nat, idx: nat, p: Prot)
    requires Permits(w0, w, pid, start, start + idx, p) && MaySame(w, w', p)
    requires SharedIsCow(w) && MayProtect(w, Key(pid, start + idx), p) ==> SharedIsCow(w')
    ensures Permits(w0, w', pid, start, start + idx + 1, p)
  {
    hide MayProtect, SharedIsCow;
  }

  lemma PermitsWiden(w: World, w': World, pid: nat, lo: nat, hi: nat, lo': nat, hi': nat, p: Prot)
    requires Permits(w, w', pid, lo', hi', p) && lo <= lo' && hi' <= hi
    ensures Permits(w, w', pid, lo, hi, p)
  {
    hide MayProtect, SharedIsCow;
  }

  lemma SoundMeansMay(w: World, w': World, pid: nat, lo: nat, hi: nat, p: Prot)
    requires Inv(w) && Inv(w') && Permits(w, w', pid, lo, hi, p) && ProtectedOn(w, w', Pages(pid, lo, hi), p)
    ensures SharedIsCow(w) ==> (SharedIsCow(w') <==> RangeMay(w, pid, lo, hi, p))
  {
    hide Counted, Owners, Mapped;
    if SharedIsCow(w') {
      forall page | lo <= page < hi
        ensures MayProtect(w, Key(pid, page), p)
      {
        var k := Key(pid, page);
        assert k in Pages(pid, lo, hi);
        assert MayProtect(w', k, p);
      }
    }
  }

  lemma StillFilled(f: World, f': World, s: set<Key>, p: Prot)
    requires ProtectedOn(f, f', s, p)
    ensures f'.prot.Keys == f.prot.Keys
  {
    hide Read;
  }

  lemma ListStep(out: seq<Region>, rs: seq<Region>, i: nat)
    requires i < |rs|
    ensures out + rs[i..] == out + [rs[i]] + rs[i + 1..]
  {
    assert rs[i..] == [rs[i]] + rs[i + 1..];
  }

  lemma SliceExtent(r: Region, lo: nat, hi: nat)
    requires r.start <= lo <= hi <= End(r)
    ensures Slice(r, lo, hi).start == lo && |Slice(r, lo, hi).slots| == hi - lo && Slice(r, lo, hi).kind == r.kind
  {
  }

  lemma OthersAgreeRefl(prot: map<Key, Prot>, own: map<Key, Frame>, pid: nat)
    ensures OthersAgree(prot, own, prot, own, pid)
  {
  }

  lemma PiecesIs(r: Region, lo: nat, hi: nat)
    requires |r.slots| > 0 && lo < hi && lo < End(r) && r.start < hi
    ensures var from, to := if r.start < lo then lo else r.start, if End(r) > hi then hi else End(r);
            Pieces(r, lo, hi) == (if r.start < lo then [Slice(r, r.start, lo)] else []) + [Slice(r, from, to)] +
                                 (if End(r) > hi then [Slice(r, hi, End(r))] else [])
  {
  }

  lemma SplitKeeps(kind: Kind, prot: map<Key, Prot>, own: map<Key, Frame>, pid: nat, a: seq<Region>, r: Region,
                   b: seq<Region>, lo: nat, hi: nat)
    requires SpaceOk(kind, prot, own, pid, a + [r] + b) && |r.slots| > 0 && lo < hi && lo < End(r) && r.start < hi
    ensures SpaceOk(kind, prot, own, pid, a + Pieces(r, lo, hi) + b)
  {
    var pieces := Pieces(r, lo, hi);
    PiecesAre(r, lo, hi);
    assert (a + [r] + b)[|a|] == r;
    forall page: nat
      ensures Lookup(pieces, page) == Lookup([r], page)
    {
      PiecesLookup(r, lo, hi, page);
    }
    SpliceSame(kind, prot, own, pid, a, r, b, pieces);
  }

  lemma RegionViewStart(kind: Kind, prot: map<Key, Prot>, own: map<Key, Frame>, pid: nat, rs: seq<Region>, i: nat,
                        p: Prot)
    requires SpaceOk(kind, prot, own, pid, rs) && i < |rs| && rs[i].kind == kind
    ensures RegionView(prot, own, prot, own, pid, rs[i].start, p, rs[i].slots, 0)
  {
    forall k: Key | k.pid == pid && rs[i].start <= k.page < rs[i].start + |rs[i].slots|
      ensures k in prot && (k in own <==> rs[i].slots[k.page - rs[i].start].Has?)
      ensures k in own ==> own[k] == rs[i].slots[k.page - rs[i].start].frame
    {
      SlotIs(kind, prot, own, pid, rs, i, k.page - rs[i].start);
    }
  }

  lemma RegionViewAt(prot0: map<Key, Prot>, own0: map<Key, Frame>, prot: map<Key, Prot>, own: map<Key, Frame>,
                     pid: nat, start: nat, p: Prot, slots: seq<Slot>, idx: nat)
    requires idx < |slots| && RegionView(prot0, own0, prot, own, pid, start, p, slots, idx)
    ensures var k := Key(pid, start + idx);
            k in prot && (k in own <==> slots[idx].Has?) && (k in own ==> own[k] == slots[idx].frame)
  {
  }

  lemma RegionViewNext(w0: World, w: World, prot: map<Key, Prot>, own: map<Key, Frame>, pid: nat, start: nat, p: Prot,
                       slots: seq<Slot>, idx: nat, slot': Slot)
    requires idx < |slots| && RegionView(w0.prot, w0.own, w.prot, w.own, pid, start, p, slots, idx)
    requires prot == w.prot[Key(pid, start + idx) := p]
    requires own == if slot'.Has? then w.own[Key(pid, start + idx) := slot'.frame] else w.own
    requires slot'.Has? <==> slots[idx].Has?
    ensures RegionView(w0.prot, w0.own, prot, own, pid, start, p, slots[idx := slot'], idx + 1)
  {
  }

  lemma ReprotectedMake(r: Region, r': Region, p: Prot)
    requires r' == r.(prot := p, slots := r'.slots) && |r'.slots| == |r.slots| && SlotsLike(r.slots, r'.slots)
    requires r.kind == SharedFile ==> r'.slots == r.slots
    ensures Reprotected(r, r', p)
  {
  }

  lemma SameSlots(slots: seq<Slot>)
    ensures SlotsLike(slots, slots)
  {
  }

  lemma LikeMore(slots0: seq<Slot>, slots: seq<Slot>, idx: nat, slot: Slot)
    requires SlotsLike(slots0, slots) && idx < |slots| && (slot.Has? <==> slots[idx].Has?)
    ensures SlotsLike(slots0, slots[idx := slot])
  {
  }

  lemma FreeParts(a: seq<Region>, b: seq<Region>, addr: nat, n: nat)
    requires Free(a + b, addr, n)
    ensures Free(a, addr, n) && Free(b, addr, n)
  {
    assert forall i :: 0 <= i < |a| ==> (a + b)[i] == a[i];
    assert forall i :: 0 <= i < |b| ==> (a + b)[|a| + i] == b[i];
  }

  lemma FreeIsUnused(kind: Kind, prot: map<Key, Prot>, own: map<Key, Frame>, pid: nat, rs: seq<Region>, addr: nat,
                     n: nat)
    requires SpaceOk(kind, prot, own, pid, rs) && Free(rs, addr, n) && n > 0
    ensures Pages(pid, addr, addr + n) !! prot.Keys
    ensures forall page :: addr <= page < addr + n ==> Lookup(rs, page) == None && Key(pid, page) !in prot
  {
    forall page | addr <= page < addr + n
      ensures Lookup(rs, page) == None && Key(pid, page) !in prot
    {
      assert forall i :: 0 <= i < |rs| ==> !Covers(rs[i], page) by {
        forall i | 0 <= i < |rs|
          ensures !Covers(rs[i], page)
        {
          assert !RangesOverlap(addr, n, rs[i].start, |rs[i].slots|);
        }
      }
      LookupNone(rs, page);
      assert LinkedPage(kind, prot, own, pid, rs, page);
    }
  }

  lemma SlotsOf(r: Region, n: nat)
    requires r.slots == seq(n, _ => NoPage)
    ensures |r.slots| == n && forall i :: 0 <= i < n ==> r.slots[i] == NoPage
  {
  }

  lemma AddAllIs(w: World, pid: nat, lo: nat, hi: nat, p: Prot)
    ensures var w' := AddAll(w, Pages(pid, lo, hi), p);
            && w'.prot == WithPages(w.prot, Pages(pid, lo, hi), p)
            && w'.own == w.own && w'.ptes == w.ptes && w'.refs == w.refs && w'.mem == w.mem
            && forall page :: lo <= page < hi ==>
               Key(pid, page) in Pages(pid, lo, hi) && Key(pid, page) in w'.prot && w'.prot[Key(pid, page)] == p
  {
  }

  lemma OthersAfterAdd(w: World, pid: nat, lo: nat, hi: nat, p: Prot)
    ensures OthersAgree(w.prot, w.own, AddAll(w, Pages(pid, lo, hi), p).prot, w.own, pid)
  {
  }

  /** A new region at the end of the list, over pages nothing else covers. */
  lemma AppendKeeps(kind: Kind, prot: map<Key, Prot>, own: map<Key, Frame>, own': map<Key, Frame>, pid: nat,
                    rs: seq<Region>, r: Region)
    requires SpaceOk(kind, prot, own, pid, rs) && Free(rs, r.start, |r.slots|) && |r.slots| > 0
    requires r.kind == kind && (r.prot.w ==> r.prot.r)
    requires forall k: Key :: k !in Pages(pid, r.start, r.start + |r.slots|) ==>
             (k in own' <==> k in own) && (k in own ==> own'[k] == own[k])
    requires forall i :: 0 <= i < |r.slots| ==>
               var k := Key(pid, r.start + i);
               r.slots[i] == if k in own' then Has(own'[k]) else NoPage
    ensures SpaceOk(kind, WithPages(prot, Pages(pid, r.start, r.start + |r.slots|), r.prot), own', pid, rs + [r])
  {
    var prot', list := WithPages(prot, Pages(pid, r.start, r.start + |r.slots|), r.prot), rs + [r];
    FreeIsUnused(kind, prot, own, pid, rs, r.start, |r.slots|);
    AppendDisjoint(rs, r);
    assert Readable(rs + [r]);
    forall page: nat
      ensures LinkedPage(kind, prot', own', pid, list, page)
    {
      assert LinkedPage(kind, prot, own, pid, rs, page);
      AppendLookup(rs, r, page);
      assert Key(pid, page) in Pages(pid, r.start, r.start + |r.slots|) <==> Covers(r, page);
      if Covers(r, page) {
        assert r.slots[page - r.start] == if Key(pid, page) in own' then Has(own'[Key(pid, page)]) else NoPage;
      }
      hide Lookup, Disjoint, Free;
    }
  }

  lemma AppendLookup(rs: seq<Region>, r: Region, page: nat)
    requires Free(rs, r.start, |r.slots|) && |r.slots| > 0
    ensures Lookup(rs + [r], page) == if Covers(r, page) then Some(InfoAt(r, page)) else Lookup(rs, page)
  {
    LookupAppend(rs, [r], page);
    assert [r][1..] == [];
    if Covers(r, page) {
      forall i | 0 <= i < |rs|
        ensures !Covers(rs[i], page)
      {
        assert !RangesOverlap(r.start, |r.slots|, rs[i].start, |rs[i].slots|);
      }
      LookupNone(rs, page);
    }
  }

  lemma AppendDisjoint(rs: seq<Region>, r: Region)
    requires Disjoint(rs) && Free(rs, r.start, |r.slots|) && |r.slots| > 0
    ensures Disjoint(rs + [r])
  {
    forall i | 0 <= i < |rs|
      ensures !Overlap(rs[i], r)
    {
      assert !RangesOverlap(r.start, |r.slots|, rs[i].start, |rs[i].slots|);
    }
    DisjointAppend(rs, [r]);
  }

  lemma AppendOther(kind: Kind, prot: map<Key, Prot>, own: map<Key, Frame>, pid: nat, rs: seq<Region>, r: Region)
    requires SpaceOk(kind, prot, own, pid, rs) && Free(rs, r.start, |r.slots|) && |r.slots| > 0
    requires r.kind != kind && (r.prot.w ==> r.prot.r)
    ensures SpaceOk(kind, prot, own, pid, rs + [r])
  {
    AppendDisjoint(rs, r);
    assert Readable(rs + [r]);
    forall page: nat
      ensures OfKind(kind, rs + [r], page) == OfKind(kind, rs, page)
    {
      AppendLookup(rs, r, page);
      LookupAppend(rs, [r], page);
    }
    OtherKind(kind, prot, own, pid, rs, rs + [r]);
  }

  lemma LocalStep(w: World, w': World, pid: nat, page: nat)
    requires SameElsewhere(w, w', {}) || SameElsewhere(w, w', {Key(pid, page)})
    ensures OthersSame(w, w', pid)
  {
    hide Read;
  }

  lemma ProtectedOthers(w: World, w': World, pid: nat, lo: nat, hi: nat, p: Prot)
    requires ProtectedOn(w, w', Pages(pid, lo, hi), p)
    ensures OthersSame(w, w', pid)
  {
    hide Read;
  }

  lemma CoversIs(r: Region, page: nat)
    requires Covers(r, page)
    ensures r.start <= page < r.start + |r.slots|
  {
  }

  /** The access is a fetch, a store or a load, in the order the fault handler tests them. */
  predicate Allows(p: Prot, write: bool, instr: bool) {
    if instr then p.x else if write then p.w else p.r
  }

  lemma FreshFrame(s: set<Frame>)
    ensures exists f: Frame :: f !in s
  {
    var n: Frame := 0;
    var seen: set<Frame> := {};
    while n in s
      invariant seen <= s && forall m: nat :: m < n <==> m in seen
      decreases s - seen
    {
      seen := seen + {n};
      n := n + 1;
    }
  }

  /** What the fault handler answers, by what the VMA list says about the page. */
  function Outcome(info: Option<Info>, write: bool, instr: bool): Error {
    match info
    case None => Fault
    case Some(i) =>
      if !Allows(i.prot, write, instr) then Access
      else if i.kind == SharedFile && i.slot.NoPage? then Fault else Ok
  }

  lemma OutcomeIs(rs: seq<Region>, i: nat, page: nat, write: bool, instr: bool)
    requires Disjoint(rs)
    ensures Lookup(rs, page) == None ==> Outcome(Lookup(rs, page), write, instr) == Fault
    ensures i < |rs| && Covers(rs[i], page) ==>
              Outcome(Lookup(rs, page), write, instr) ==
              if !Allows(rs[i].prot, write, instr) then Access
              else if rs[i].kind == SharedFile && rs[i].slots[page - rs[i].start].NoPage? then Fault else Ok
  {
    if i < |rs| && Covers(rs[i], page) {
      LookupAt(rs, i, page);
    }
  }

  lemma OutcomeOk(info: Option<Info>, write: bool, instr: bool)
    requires Outcome(info, write, instr) == Ok
    ensures info.Some?
  {
  }

  /** A page of a region of one kind is not in the view of the other. */
  lemma NotThere(kind: Kind, prot: map<Key, Prot>, own: map<Key, Frame>, pid: nat, rs: seq<Region>, i: nat, idx: nat)
    requires SpaceOk(kind, prot, own, pid, rs) && i < |rs| && idx < |rs[i].slots| && rs[i].kind != kind
    ensures Key(pid, rs[i].start + idx) !in prot && Key(pid, rs[i].start + idx) !in own
    ensures own - {Key(pid, rs[i].start + idx)} == own
  {
    LookupAt(rs, i, rs[i].start + idx);
    assert LinkedPage(kind, prot, own, pid, rs, rs[i].start + idx);
  }

  lemma NotOthers(kind: Kind, prot: map<Key, Prot>, own: map<Key, Frame>, pid: nat, a: seq<Region>, r: Region,
                  b: seq<Region>, lo: nat, hi: nat)
    requires SpaceOk(kind, prot, own, pid, a + [r] + b) && r.kind != kind && r.start <= lo && hi <= End(r)
    ensures Pages(pid, lo, hi) !! prot.Keys
  {
    var rs := a + [r] + b;
    forall page | lo <= page < hi
      ensures Key(pid, page) !in prot
    {
      assert rs[|a|] == r;
      NotThere(kind, prot, own, pid, rs, |a|, page - r.start);
    }
  }

  lemma UnmappedYet(f: World, k: Key)
    requires FileInv(f) && k !in f.prot
    ensures k !in f.ptes
  {
  }

  lemma NotMapped(w: World, k: Key)
    requires Inv(w) && k !in w.prot
    ensures k !in w.ptes
  {
  }

  /** The page-cache pages behind `s` are marked dirty. */
  ghost predicate LetGo(fown: map<Key, Frame>, s: set<Key>, dirty: set<Frame>, dirty': set<Frame>) {
    dirty <= dirty' && forall k :: k in s && k in fown ==> fown[k] in dirty'
  }

  lemma LetGoNone(fown: map<Key, Frame>, k: Key, dirty: set<Frame>)
    requires k !in fown
    ensures LetGo(fown, {k}, dirty, dirty)
  {
  }

  lemma LetGoNothing(fown: map<Key, Frame>, dirty: set<Frame>)
    ensures LetGo(fown, {}, dirty, dirty)
  {
  }

  lemma LetGoOne(fown: map<Key, Frame>, k: Key, dirty: set<Frame>, dirty': set<Frame>)
    requires if k in fown then dirty' == dirty + {fown[k]} else dirty' == dirty
    ensures LetGo(fown, {k}, dirty, dirty')
  {
  }

  lemma LetGoMore(fown: map<Key, Frame>, s: set<Key>, s': set<Key>, d0: set<Frame>, d1: set<Frame>, d2: set<Frame>)
    requires LetGo(fown, s, d0, d1) && LetGo(fown - s, s', d1, d2)
    ensures LetGo(fown, s + s', d0, d2)
  {
    forall k | k in s + s' && k in fown
      ensures fown[k] in d2
    {
      if k !in s {
        assert k in fown - s;
      }
    }
  }

  lemma WithoutMore(own: map<Key, Frame>, s: set<Key>, k: Key)
    ensures (own - s) - {k} == own - (s + {k})
  {
  }

  lemma WithoutBoth(own: map<Key, Frame>, s: set<Key>, s': set<Key>)
    ensures (own - s) - s' == own - (s + s')
  {
  }

  lemma SameElsewhereTwice(w0: World, w1: World, w2: World, s: set<Key>)
    requires SameElsewhere(w0, w1, s) && SameElsewhere(w1, w2, s)
    ensures SameElsewhere(w0, w2, s)
  {
    SameElsewhereTrans(w0, w1, w2, s, s);
    assert s + s == s;
  }

  /** With the whole range gone from the list, every page-cache page it named has been let go of. */
  lemma AllGone(fprot: map<Key, Prot>, fown: map<Key, Frame>, pid: nat, out: seq<Region>, fown0: map<Key, Frame>,
                gone: set<Key>,
                lo: nat, hi: nat, d0: set<Frame>, d: set<Frame>)
    requires SpaceOk(SharedFile, fprot, fown, pid, out) && fown == fown0 - gone && LetGo(fown0, gone, d0, d)
    requires forall page: nat :: lo <= page < hi ==> Lookup(out, page) == None
    ensures LetGo(fown0, Pages(pid, lo, hi), d0, d)
  {
    forall k | k in Pages(pid, lo, hi) && k in fown0
      ensures k in gone
    {
      assert LinkedPage(SharedFile, fprot, fown, pid, out, k.page) && k == Key(pid, k.page);
    }
  }

  lemma FilledLess(fprot0: map<Key, Prot>, fown0: map<Key, Frame>, fprot: map<Key, Prot>, fown: map<Key, Frame>,
                   gone: set<Key>)
    requires fown == fown0 - gone && fprot.Keys <= fprot0.Keys && fprot.Keys !! gone
    ensures fprot0.Keys <= fown0.Keys ==> fprot.Keys <= fown.Keys
  {
  }

  ghost predicate BothOk(prot: map<Key, Prot>, own: map<Key, Frame>, fprot: map<Key, Prot>, fown: map<Key, Frame>,
                         spaces: map<nat, seq<Region>>) {
    AllSpacesOk(Anon, prot, own, spaces) && AllSpacesOk(SharedFile, fprot, fown, spaces)
  }

  lemma SlotAnon(prot: map<Key, Prot>, own: map<Key, Frame>, own': map<Key, Frame>, fprot: map<Key, Prot>,
                 fown: map<Key, Frame>,
                 spaces: map<nat, seq<Region>>, pid: nat, i: nat, idx: nat, slot: Slot)
    requires BothOk(prot, own, fprot, fown, spaces) && pid in spaces && i < |spaces[pid]| &&
             idx < |spaces[pid][i].slots|
    requires spaces[pid][i].kind == Anon
    requires var k := Key(pid, spaces[pid][i].start + idx);
             own' == if slot.Has? then own[k := slot.frame] else own - {k}
    ensures BothOk(prot, own', fprot, fown, spaces[pid := WithSlot(spaces[pid], i, idx, slot)])
  {
    SlotKeeps(Anon, prot, own, own', pid, spaces[pid], i, idx, slot);
    SlotOther(SharedFile, fprot, fown, pid, spaces[pid], i, idx, slot);
    OwnChanged(prot, own, own', Key(pid, spaces[pid][i].start + idx));
    hide BothOk, SpaceOk, WithSlot, OthersAgree;
    BothChanged(prot, own, fprot, fown, prot, own', fprot, fown, spaces, pid, WithSlot(spaces[pid], i, idx, slot));
  }

  lemma SlotShared(prot: map<Key, Prot>, own: map<Key, Frame>, fprot: map<Key, Prot>, fown: map<Key, Frame>,
                   fown': map<Key, Frame>,
                   spaces: map<nat, seq<Region>>, pid: nat, i: nat, idx: nat, slot: Slot)
    requires BothOk(prot, own, fprot, fown, spaces) && pid in spaces && i < |spaces[pid]| &&
             idx < |spaces[pid][i].slots|
    requires spaces[pid][i].kind == SharedFile
    requires var k := Key(pid, spaces[pid][i].start + idx);
             fown' == if slot.Has? then fown[k := slot.frame] else fown - {k}
    ensures BothOk(prot, own, fprot, fown', spaces[pid := WithSlot(spaces[pid], i, idx, slot)])
  {
    SlotKeeps(SharedFile, fprot, fown, fown', pid, spaces[pid], i, idx, slot);
    SlotOther(Anon, prot, own, pid, spaces[pid], i, idx, slot);
    OwnChanged(fprot, fown, fown', Key(pid, spaces[pid][i].start + idx));
    hide BothOk, SpaceOk, WithSlot, OthersAgree;
    BothChanged(prot, own, fprot, fown, prot, own, fprot, fown', spaces, pid, WithSlot(spaces[pid], i, idx, slot));
  }

  lemma NonesLeft(prot: map<Key, Prot>, own: map<Key, Frame>, fprot: map<Key, Prot>, fown: map<Key, Frame>, pid: nat,
                  spaces: map<nat, seq<Region>>)
    requires BothOk(prot, own, fprot, fown, spaces) && pid in spaces && spaces[pid] == []
    ensures BothOk(prot, own, fprot, fown, spaces - {pid})
    ensures forall page: nat :: Key(pid, page) !in prot && Key(pid, page) !in fprot
  {
    hide AllSpacesOk;
    NoPagesLeft(Anon, prot, own, pid, spaces);
    NoPagesLeft(SharedFile, fprot, fown, pid, spaces);
  }

  lemma BothSpaces(prot: map<Key, Prot>, own: map<Key, Frame>, fprot: map<Key, Prot>, fown: map<Key, Frame>,
                   spaces: map<nat, seq<Region>>, pid: nat)
    requires BothOk(prot, own, fprot, fown, spaces) && pid in spaces
    ensures SpaceOk(Anon, prot, own, pid, spaces[pid]) && SpaceOk(SharedFile, fprot, fown, pid, spaces[pid])
    ensures Disjoint(spaces[pid]) && Readable(spaces[pid])
  {
  }

  lemma BothChanged(prot: map<Key, Prot>, own: map<Key, Frame>, fprot: map<Key, Prot>, fown: map<Key, Frame>,
                    prot': map<Key, Prot>, own': map<Key, Frame>, fprot': map<Key, Prot>, fown': map<Key, Frame>,
                    spaces: map<nat, seq<Region>>, pid: nat, rs: seq<Region>)
    requires BothOk(prot, own, fprot, fown, spaces)
    requires (prot' == prot && own' == own) || OthersAgree(prot, own, prot', own', pid)
    requires (fprot' == fprot && fown' == fown) || OthersAgree(fprot, fown, fprot', fown', pid)
    requires SpaceOk(Anon, prot', own', pid, rs) && SpaceOk(SharedFile, fprot', fown', pid, rs)
    ensures BothOk(prot', own', fprot', fown', spaces[pid := rs])
  {
    hide SpaceOk;
    OthersAgreeRefl(prot, own, pid);
    OthersAgreeRefl(fprot, fown, pid);
    hide OthersAgree;
    OneSpaceChanged(Anon, prot, own, prot', own', spaces, pid, rs);
    OneSpaceChanged(SharedFile, fprot, fown, fprot', fown', spaces, pid, rs);
  }

  lemma SameExtent(r: Region, t: Region, seg: seq<Region>)
    requires t == r.(offset := t.offset) && forall j :: 0 <= j < |seg| ==> !Overlap(seg[j], r)
    ensures forall j :: 0 <= j < |seg| ==> !Overlap(seg[j], t)
  {
    forall j | 0 <= j < |seg|
      ensures !Overlap(seg[j], t)
    {
      assert !Overlap(seg[j], r);
    }
  }

  /** One more page of a region of another kind. */
  lemma PartialSwitch(kind: Kind, prot: map<Key, Prot>, own: map<Key, Frame>, child: nat, r: Region, pgs: seq<Slot>,
                      seg: seq<Region>, slot: Slot)
    requires SpaceOk(kind, prot, own, child, Partial(r, pgs, seg)) && Disjoint(seg) && Readable(seg) &&
             |pgs| < |r.slots|
    requires r.kind != kind && (r.prot.w ==> r.prot.r) && forall j :: 0 <= j < |seg| ==> !Overlap(seg[j], r)
    ensures SpaceOk(kind, prot, own, child, Partial(r, pgs + [slot], seg))
  {
    PartialDisjoint(r, pgs + [slot], seg);
    assert Readable(Partial(r, pgs + [slot], seg));
    forall page: nat
      ensures OfKind(kind, Partial(r, pgs + [slot], seg), page) == OfKind(kind, Partial(r, pgs, seg), page)
    {
      PartialLookup(r, pgs, seg, page);
      PartialLookup(r, pgs + [slot], seg, page);
      if page == r.start + |pgs| {
        OnlyIn(seg, r, page);
      }
    }
    OtherKind(kind, prot, own, child, Partial(r, pgs, seg), Partial(r, pgs + [slot], seg));
  }

  lemma FileMappedIs(f: World, k: Key)
    requires FileInv(f) && k in f.ptes
    ensures k in f.prot && Within(f.ptes[k].prot, f.prot[k]) && Usable(f.ptes[k].prot)
  {
  }

  lemma AttachIs(w: World, k: Key, p: Prot, f: Frame, mapped: bool, e: Prot)
    ensures Attach(w, k, p, f, mapped, e) ==
            World(w.prot[k := p], w.own[k := f], if mapped then w.ptes[k := Pte(f, e, false)]
                else w.ptes, Get(w.refs, f), w.mem)
  {
  }

  lemma FollowedIs(f: World, k: Key, p: Prot)
    ensures Followed(f.ptes, k, p) ==
            if k !in f.ptes then f.ptes else if p.r || p.w || p.x then f.ptes[k := f.ptes[k].(prot := p)]
               else f.ptes - {k}
  {
  }

  lemma SlotAgain(own: map<Key, Frame>, k: Key, slot: Slot)
    requires (k in own <==> slot.Has?) && (k in own ==> own[k] == slot.frame)
    ensures own == if slot.Has? then own[k := slot.frame] else own
  {
  }

  /** The two views of one page, by what the list says. */
  lemma PageIs(spaces: map<nat, seq<Region>>, prot: map<Key, Prot>, own: map<Key, Frame>, fprot: map<Key, Prot>,
               fown: map<Key, Frame>, pid: nat, page: nat)
    requires BothOk(prot, own, fprot, fown, spaces) && pid in spaces
    ensures PageView(Lookup(spaces[pid], page), prot, own, fprot, fown, Key(pid, page))
  {
    assert LinkedPage(Anon, prot, own, pid, spaces[pid], page);
    assert LinkedPage(SharedFile, fprot, fown, pid, spaces[pid], page);
  }

  ghost predicate PageView(info: Option<Info>, prot: map<Key, Prot>, own: map<Key, Frame>, fprot: map<Key, Prot>,
                           fown: map<Key, Frame>, k: Key) {
    && (k in prot <==> info.Some? && info.value.kind == Anon) && (k in prot ==> prot[k] == info.value.prot)
    && (k in fprot <==> info.Some? && info.value.kind == SharedFile) && (k in fprot ==> fprot[k] == info.value.prot)
    && (k in own ==> k in prot) && (k in fown <==> k in fprot && info.value.slot.Has?)
  }

  /** A page mapped writable is one that a store may go to. */
  lemma MappedInfo(w: World, f: World, k: Key, info: Option<Info>)
    requires Inv(w) && FileInv(f) && PageView(info, w.prot, w.own, f.prot, f.own, k)
    requires (k in w.ptes && w.ptes[k].prot.w) || (k in f.ptes && f.ptes[k].prot.w)
    ensures Outcome(info, true, false) == Ok && info.Some?
  {
  }

  lemma ViewKind(info: Option<Info>, prot: map<Key, Prot>, own: map<Key, Frame>, fprot: map<Key, Prot>, fown: map<Key,
                 Frame>, k: Key)
    requires PageView(info, prot, own, fprot, fown, k)
    ensures k in prot ==> info.Some? && info.value.kind == Anon
    ensures k in fprot ==> info.Some? && info.value.kind == SharedFile
  {
  }

  lemma SharedReads(f0: World, f: World, f': World, k: Key, i: nat, b: int)
    requires SameElsewhere(f0, f, {}) && Inv(f) && k in f.own
    requires forall k' :: k' in f.own ==>
             Read(f', k') == if f.own[k'] == f.own[k] then SetByte(Read(f, k'), i, b) else Read(f, k')
    ensures forall k' :: k' in f.own ==>
            Read(f', k') == if f.own[k'] == f.own[k] then SetByte(Read(f0, k'), i, b) else Read(f0, k')
  {
    hide Read, SetByte;
    forall k' | k' in f.own
      ensures Read(f, k') == Read(f0, k')
    {
      assert k' in f.prot;
    }
  }

  /** The list after mprotect: the same pages with the same backing; the protection is new inside the range. */
  ghost predicate Reprotection(info: Option<Info>, info': Option<Info>, inside: bool, p: Prot) {
    if info.None? then info'.None?
    else
      && info'.Some? && info'.value.kind == info.value.kind && info'.value.offset == info.value.offset
      && info'.value.prot == (if inside then p else info.value.prot)
      && (info'.value.slot.Has? <==> info.value.slot.Has?)
      && (!inside || info.value.kind == SharedFile ==> info'.value.slot == info.value.slot)
  }

  ghost predicate Relisted(rs: seq<Region>, out: seq<Region>, lo: nat, hi: nat, p: Prot) {
    forall page: nat :: Reprotection(Lookup(rs, page), Lookup(out, page), lo <= page < hi, p)
  }

  lemma RelistNone(rs: seq<Region>, lo: nat, hi: nat, p: Prot)
    ensures Relisted(rs[..0], [], lo, hi, p)
  {
  }

  lemma RelistMore(rs: seq<Region>, out: seq<Region>, r: Region, pieces: seq<Region>, lo: nat, hi: nat, p: Prot)
    requires Relisted(rs, out, lo, hi, p) && Relisted([r], pieces, lo, hi, p)
    ensures Relisted(rs + [r], out + pieces, lo, hi, p)
  {
    hide Lookup;
    forall page: nat
      ensures Reprotection(Lookup(rs + [r], page), Lookup(out + pieces, page), lo <= page < hi, p)
    {
      LookupAppend(rs, [r], page);
      LookupAppend(out, pieces, page);
      assert Reprotection(Lookup(rs, page), Lookup(out, page), lo <= page < hi, p);
    }
  }

  lemma RelistDone(rs: seq<Region>, out: seq<Region>, lo: nat, hi: nat, p: Prot)
    requires Relisted(rs, out, lo, hi, p)
    ensures forall page: nat :: Reprotection(Lookup(rs, page), Lookup(out, page), lo <= page < hi, p)
  {
  }

  lemma RelistOutside(r: Region, lo: nat, hi: nat, p: Prot)
    requires r.start + |r.slots| <= lo || r.start >= hi
    ensures Relisted([r], [r], lo, hi, p)
  {
    forall page: nat
      ensures Reprotection(Lookup([r], page), Lookup([r], page), lo <= page < hi, p)
    {
      assert [r][1..] == [];
    }
  }

  /** Split at the ends of the range with the middle re-protected. */
  lemma RelistPieces(r: Region, from: nat, to: nat, mid: Region, lo: nat, hi: nat, p: Prot)
    requires |r.slots| > 0 && lo < hi && lo < End(r) && r.start < hi
    requires from == (if r.start < lo then lo else r.start) && to == (if End(r) > hi then hi else End(r))
    requires Reprotected(Slice(r, from, to), mid, p)
    ensures Relisted([r], (if r.start < lo then [Slice(r, r.start, lo)]
                           else []) + [mid] + (if End(r) > hi then [Slice(r, hi, End(r))] else []), lo, hi, p)
  {
    var a := if r.start < lo then [Slice(r, r.start, lo)] else [];
    var b := if End(r) > hi then [Slice(r, hi, End(r))] else [];
    forall page: nat
      ensures Reprotection(Lookup([r], page), Lookup(a + [mid] + b, page), lo <= page < hi, p)
    {
      LookupAppend(a + [mid], b, page);
      LookupAppend(a, [mid], page);
      SliceInfo(r, from, to, page);
      assert [mid][1..] == [] && [r][1..] == [] && a[|a|..] == [] && b[|b|..] == [];
      if r.start < lo {
        SliceInfo(r, r.start, lo, page);
        assert a[1..] == [];
      }
      if End(r) > hi {
        SliceInfo(r, hi, End(r), page);
        assert b[1..] == [];
      }
    }
  }

  /** The answer of the address search, and what it means for the list. */
  ghost predicate MapChoice(rs: seq<Region>, fixtures: seq<Region>, heapStart: nat, top: nat, hint: nat, n: nat,
                            isFixed: bool, c: Choice) {
    && (n == 0 ==> c == BadAddress)
    && (n > USER_PAGES ==> c == NoRoom)
    && (0 < n <= USER_PAGES && !isFixed ==> c == Search(rs + fixtures, heapStart, top, n))
    && (0 < n <= USER_PAGES && isFixed ==>
          (c == Chosen(hint) <==>
              0 < hint && hint + n <= USER_PAGES && heapStart <= hint && Free(rs + fixtures, hint, n)))
    && (isFixed && c.Chosen? ==> c == Chosen(hint))
    && (c.Chosen? ==> n > 0 && Free(rs, c.addr, n) && Free(fixtures, c.addr, n) && heapStart <= c.addr)
  }

  method ChooseRange(rs: seq<Region>, fixtures: seq<Region>, heapStart: nat, top: nat, hint: nat, n: nat, isFixed: bool)
    returns (c: Choice)
    ensures MapChoice(rs, fixtures, heapStart, top, hint, n, isFixed, c)
  {
    if n == 0 {
      return BadAddress;
    }
    if n > USER_PAGES {
      return NoRoom;
    }
    c := ChooseAddr(rs + fixtures, heapStart, top, USER_PAGES, hint, n, isFixed);
    if c.Chosen? {
      FreeParts(rs, fixtures, c.addr, n);
    }
  }

  lemma ChosenFree(rs: seq<Region>, fixtures: seq<Region>, heapStart: nat, top: nat, hint: nat, n: nat, isFixed: bool,
                   c: Choice)
    requires MapChoice(rs, fixtures, heapStart, top, hint, n, isFixed, c) && c.Chosen?
    ensures n > 0 && Free(rs, c.addr, n)
  {
  }

  function SlotsFor(cached: seq<Frame>): seq<Slot> {
    seq(|cached|, i requires 0 <= i < |cached| => Has(cached[i]))
  }

  lemma SlotsForIs(cached: seq<Frame>)
    ensures |SlotsFor(cached)| == |cached| && forall i :: 0 <= i < |cached| ==> SlotsFor(cached)[i] == Has(cached[i])
  {
  }

  ghost predicate InRange(k: Key, pid: nat, lo: nat, hi: nat) {
    k.pid == pid && lo <= k.page < hi
  }

  /** The first `i` pages of a new shared region are in place. */
  ghost predicate FilesAdded(f0: World, f: World, pid: nat, addr: nat, p: Prot, cached: seq<Frame>, i: nat)
    requires i <= |cached|
  {
    && f.mem == f0.mem
    && forall k: Key ::
         if InRange(k, pid, addr, addr + i) then k in f.prot && f.prot[k] == p && k in f.own &&
            f.own[k] == cached[k.page - addr]
         else
           && (k in f.prot <==> k in f0.prot) && (k in f0.prot ==> f.prot[k] == f0.prot[k])
           && (k in f.own <==> k in f0.own) && (k in f0.own ==> f.own[k] == f0.own[k])
  }

  lemma AddedNone(f0: World, pid: nat, addr: nat, p: Prot, cached: seq<Frame>)
    ensures FilesAdded(f0, f0, pid, addr, p, cached, 0)
  {
  }

  lemma AddedFresh(f0: World, f: World, pid: nat, addr: nat, p: Prot, cached: seq<Frame>, i: nat)
    requires i < |cached| && FilesAdded(f0, f, pid, addr, p, cached, i) &&
             Pages(pid, addr, addr + |cached|) !! f0.prot.Keys
    ensures Key(pid, addr + i) !in f.prot
  {
    assert Key(pid, addr + i) in Pages(pid, addr, addr + |cached|) && !InRange(Key(pid, addr + i), pid, addr, addr + i);
  }

  lemma AddedMore(f0: World, f: World, f': World, pid: nat, addr: nat, p: Prot, cached: seq<Frame>, i: nat)
    requires i < |cached| && FilesAdded(f0, f, pid, addr, p, cached, i)
    requires f'.prot == f.prot[Key(pid, addr + i) := p] && f'.own == f.own[Key(pid, addr + i) := cached[i]] &&
             f'.mem == f.mem
    ensures FilesAdded(f0, f', pid, addr, p, cached, i + 1)
  {
    forall k: Key
      ensures if InRange(k, pid, addr, addr + i + 1) then k in f'.prot && f'.prot[k] == p && k in f'.own &&
              f'.own[k] == cached[k.page - addr]
              else
                && (k in f'.prot <==> k in f0.prot) && (k in f0.prot ==> f'.prot[k] == f0.prot[k])
                && (k in f'.own <==> k in f0.own) && (k in f0.own ==> f'.own[k] == f0.own[k])
    {
      assert InRange(k, pid, addr, addr + i + 1) <==> InRange(k, pid, addr, addr + i) || k == Key(pid, addr + i);
    }
  }

  lemma AddedAll(f0: World, f: World, pid: nat, addr: nat, p: Prot, cached: seq<Frame>)
    requires FilesAdded(f0, f, pid, addr, p, cached, |cached|)
    ensures f.prot == WithPages(f0.prot, Pages(pid, addr, addr + |cached|), p) &&
            OthersAgree(f0.prot, f0.own, f.prot, f.own, pid)
    ensures forall k: Key :: k !in Pages(pid, addr, addr + |cached|) ==>
            (k in f.own <==> k in f0.own) && (k in f0.own ==> f.own[k] == f0.own[k])
  {
    var s := Pages(pid, addr, addr + |cached|);
    forall k: Key
      ensures k in s <==> InRange(k, pid, addr, addr + |cached|)
    {
      assert k == Key(k.pid, k.page);
    }
    hide Pages;
    assert f.prot == WithPages(f0.prot, s, p) by {
      SameMap(f.prot, f0.prot, s, p);
    }
    hide WithPages;
  }

  lemma SameMap(m: map<Key, Prot>, m0: map<Key, Prot>, s: set<Key>, p: Prot)
    requires forall k: Key :: if k in s then k in m && m[k] == p
             else (k in m <==> k in m0) && (k in m0 ==> m[k] == m0[k])
    ensures m == WithPages(m0, s, p)
  {
  }

  lemma AddedReads(f0: World, f: World, pid: nat, addr: nat, p: Prot, cached: seq<Frame>)
    requires FilesAdded(f0, f, pid, addr, p, cached, |cached|) && forall i :: 0 <= i < |cached| ==> cached[i] in f0.mem
    ensures forall i :: 0 <= i < |cached| ==> Key(pid, addr + i) in f.own && f.own[Key(pid, addr + i)] == cached[i]
    ensures forall i :: 0 <= i < |cached| ==> Read(f, Key(pid, addr + i)) == f0.mem[cached[i]]
  {
    forall i | 0 <= i < |cached|
      ensures Key(pid, addr + i) in f.own && f.own[Key(pid, addr + i)] == cached[i]
    {
      assert InRange(Key(pid, addr + i), pid, addr, addr + |cached|);
    }
  }

  /** The two page-level views are sound and agree with the VMA lists. */
  ghost predicate Good(w: World, f: World, spaces: map<nat, seq<Region>>) {
    Inv(w) && FileInv(f) && BothOk(w.prot, w.own, f.prot, f.own, spaces)
  }

  lemma GoodMake(w: World, f: World, spaces: map<nat, seq<Region>>)
    requires Inv(w) && FileInv(f) && BothOk(w.prot, w.own, f.prot, f.own, spaces)
    ensures Good(w, f, spaces)
  {
  }

  lemma GoodIs(w: World, f: World, spaces: map<nat, seq<Region>>, pid: nat)
    requires Good(w, f, spaces) && pid in spaces
    ensures Inv(w) && FileInv(f) && BothOk(w.prot, w.own, f.prot, f.own, spaces)
    ensures SpaceOk(Anon, w.prot, w.own, pid, spaces[pid]) && SpaceOk(SharedFile, f.prot, f.own, pid, spaces[pid])
    ensures Disjoint(spaces[pid]) && Readable(spaces[pid])
  {
  }

  lemma HasFrame(w: World, f: World, spaces: map<nat, seq<Region>>, pid: nat, i: nat, idx: nat)
    requires Good(w, f, spaces) && pid in spaces && i < |spaces[pid]| && idx < |spaces[pid][i].slots|
    requires spaces[pid][i].kind == Anon && spaces[pid][i].slots[idx].Has?
    ensures spaces[pid][i].slots[idx].frame in w.mem
  {
    hide *;
    GoodIs(w, f, spaces, pid);
    SlotIs(Anon, w.prot, w.own, pid, spaces[pid], i, idx);
    FramesHaveBytes(w);
  }

  lemma BreakCowGood(w: World, f: World, spaces: map<nat, seq<Region>>, pid: nat, i: nat, idx: nat, fr: Frame)
    requires Good(w, f, spaces) && pid in spaces && i < |spaces[pid]| && idx < |spaces[pid][i].slots|
    requires spaces[pid][i].kind == Anon && spaces[pid][i].slots[idx].Has? && fr !in w.refs
    requires Usable(spaces[pid][i].prot)
    ensures var r := spaces[pid][i];
            var k, was := Key(pid, r.start + idx), r.slots[idx].frame;
            && was in w.mem
            && var w' := World(w.prot, w.own[k := fr], w.ptes[k := Pte(fr, r.prot, false)], Put(w.refs[fr := 1], was),
                               w.mem[fr := w.mem[was]]);
               && Good(w', f, spaces[pid := WithSlot(spaces[pid], i, idx, Has(fr))]) && Keeps(w, w') &&
                  SameElsewhere(w, w', {})
  {
    hide *;
    GoodIs(w, f, spaces, pid);
    var r := spaces[pid][i];
    var k := Key(pid, r.start + idx);
    SlotIs(Anon, w.prot, w.own, pid, spaces[pid], i, idx);
    FramesHaveBytes(w);
    SlotAnon(w.prot, w.own, w.own[k := fr], f.prot, f.own, spaces, pid, i, idx, Has(fr));
    SameWithin(r.prot);
    CopyKeeps(w, k, r.prot, fr);
    CopyIs(w, k, r.prot, fr);
    CopiedKeeps(w, k, r.prot, fr);
    var w' := World(w.prot, w.own[k := fr], w.ptes[k := Pte(fr, r.prot, false)], Put(w.refs[fr := 1], w.own[k]),
                    w.mem[fr := w.mem[w.own[k]]]);
    GoodMake(w', f, spaces[pid := WithSlot(spaces[pid], i, idx, Has(fr))]);
  }

  lemma ZeroFillGood(w: World, f: World, spaces: map<nat, seq<Region>>, pid: nat, i: nat, idx: nat, fr: Frame)
    requires Good(w, f, spaces) && pid in spaces && i < |spaces[pid]| && idx < |spaces[pid][i].slots|
    requires spaces[pid][i].kind == Anon && spaces[pid][i].slots[idx].NoPage? && fr !in w.refs
    ensures var k := Key(pid, spaces[pid][i].start + idx);
            var w' := World(w.prot, w.own[k := fr], w.ptes, w.refs[fr := 1], w.mem[fr := ZeroPage()]);
            && Good(w', f, spaces[pid := WithSlot(spaces[pid], i, idx, Has(fr))]) && Keeps(w, w') &&
               SameElsewhere(w, w', {})
  {
    hide *;
    GoodIs(w, f, spaces, pid);
    var k := Key(pid, spaces[pid][i].start + idx);
    SlotIs(Anon, w.prot, w.own, pid, spaces[pid], i, idx);
    SlotAnon(w.prot, w.own, w.own[k := fr], f.prot, f.own, spaces, pid, i, idx, Has(fr));
    ZeroIs(w, k, fr);
    var w' := World(w.prot, w.own[k := fr], w.ptes, w.refs[fr := 1], w.mem[fr := ZeroPage()]);
    KeepsIs(w, w');
    GoodMake(w', f, spaces[pid := WithSlot(spaces[pid], i, idx, Has(fr))]);
  }

  lemma ReleaseAnonGood(w: World, f: World, spaces: map<nat, seq<Region>>, pid: nat, i: nat, idx: nat)
    requires Good(w, f, spaces) && pid in spaces && i < |spaces[pid]| && idx < |spaces[pid][i].slots|
    requires spaces[pid][i].kind == Anon
    ensures var k, slot := Key(pid, spaces[pid][i].start + idx), spaces[pid][i].slots[idx];
            var w' := World(w.prot, w.own - {k}, w.ptes - {k}, if slot.Has? then Put(w.refs, slot.frame)
                            else w.refs, w.mem);
            && Good(w', f, spaces[pid := WithSlot(spaces[pid], i, idx, NoPage)]) && Keeps(w, w') &&
               SameElsewhere(w, w', {k})
            && k !in f.own
  {
    hide *;
    GoodIs(w, f, spaces, pid);
    var rs := spaces[pid];
    var k, slot := Key(pid, rs[i].start + idx), rs[i].slots[idx];
    var w' := World(w.prot, w.own - {k}, w.ptes - {k}, if slot.Has? then Put(w.refs, slot.frame) else w.refs, w.mem);
    SlotIs(Anon, w.prot, w.own, pid, rs, i, idx);
    NotThere(SharedFile, f.prot, f.own, pid, rs, i, idx);
    SlotAnon(w.prot, w.own, w.own - {k}, f.prot, f.own, spaces, pid, i, idx, NoPage);
    if slot.Has? {
      DetachKeeps(w, k);
      DetachIs(w, k);
    } else {
      if k in w.ptes {
        MappedIsOwned(w, k);
      }
      assert w.own - {k} == w.own && w.ptes - {k} == w.ptes;
      KeepsRefl(w);
      SameElsewhereRefl(w, {k});
    }
    KeepsIs(w, w');
    GoodMake(w', f, spaces[pid := WithSlot(rs, i, idx, NoPage)]);
  }

  lemma ReleaseSharedGood(w: World, f: World, spaces: map<nat, seq<Region>>, pid: nat, i: nat, idx: nat)
    requires Good(w, f, spaces) && pid in spaces && i < |spaces[pid]| && idx < |spaces[pid][i].slots|
    requires spaces[pid][i].kind == SharedFile
    ensures var k, slot := Key(pid, spaces[pid][i].start + idx), spaces[pid][i].slots[idx];
            var f' := World(f.prot, f.own - {k}, f.ptes - {k}, if slot.Has? then Put(f.refs, slot.frame)
                            else f.refs, f.mem);
            && Good(w, f', spaces[pid := WithSlot(spaces[pid], i, idx, NoPage)]) && SameElsewhere(f, f', {k})
            && k !in w.own && (k in f.own <==> slot.Has?) && (k in f.own ==> f.own[k] == slot.frame)
  {
    hide *;
    GoodIs(w, f, spaces, pid);
    var rs := spaces[pid];
    var k, slot := Key(pid, rs[i].start + idx), rs[i].slots[idx];
    var f' := World(f.prot, f.own - {k}, f.ptes - {k}, if slot.Has? then Put(f.refs, slot.frame) else f.refs, f.mem);
    SlotIs(SharedFile, f.prot, f.own, pid, rs, i, idx);
    NotThere(Anon, w.prot, w.own, pid, rs, i, idx);
    SlotShared(w.prot, w.own, f.prot, f.own, f.own - {k}, spaces, pid, i, idx, NoPage);
    if slot.Has? {
      FileDetach(f, k);
    } else {
      FileInvIs(f);
      if k in f.ptes {
        MappedIsOwned(f, k);
      }
      assert f.own - {k} == f.own && f.ptes - {k} == f.ptes;
      SameElsewhereRefl(f, {k});
    }
    GoodMake(w, f', spaces[pid := WithSlot(rs, i, idx, NoPage)]);
  }

  lemma SpliceGood(w: World, f: World, spaces: map<nat, seq<Region>>, pid: nat, a: seq<Region>, r: Region,
                   b: seq<Region>,
                   addr: nat, end: nat, lo: nat, hi: nat)
    requires Good(w, f, spaces) && pid in spaces && spaces[pid] == a + [r] + b && |r.slots| > 0
    requires lo == (if addr > r.start then addr else r.start) &&
             hi == (if end < r.start + |r.slots| then end else r.start + |r.slots|)
    requires w.own.Keys !! Pages(pid, lo, hi) && f.own.Keys !! Pages(pid, lo, hi)
    ensures var gone := Pages(pid, lo, hi);
            var w' := World(if r.kind == Anon then w.prot - gone else w.prot, w.own, w.ptes, w.refs, w.mem);
            var f' := World(if r.kind == Anon then f.prot else f.prot - gone, f.own, f.ptes, f.refs, f.mem);
            && Good(w', f', spaces[pid := a + Remains(r, addr, end) + b]) && Keeps(w, w')
            && SameElsewhere(w, w', gone) && SameElsewhere(f, f', gone)
            && f'.prot.Keys <= f.prot.Keys && f'.prot.Keys !! gone
  {
    hide *;
    GoodIs(w, f, spaces, pid);
    var gone, keep := Pages(pid, lo, hi), Remains(r, addr, end);
    var w' := World(if r.kind == Anon then w.prot - gone else w.prot, w.own, w.ptes, w.refs, w.mem);
    var f' := World(if r.kind == Anon then f.prot else f.prot - gone, f.own, f.ptes, f.refs, f.mem);
    EndIs(r);
    RangeReleased(pid, w.own, f.own, r, addr, end, lo, hi);
    TrimBounds(r, addr, end, lo, hi);
    if r.kind == Anon {
      TrimKeeps(Anon, w.prot, w.own, pid, a, r, b, addr, end);
      TrimOther(SharedFile, f.prot, f.own, pid, a, r, b, addr, end);
      NotOthers(SharedFile, f.prot, f.own, pid, a, r, b, lo, hi);
      ForgetAll(w, gone);
      SameElsewhereRefl(f, gone);
    } else {
      TrimKeeps(SharedFile, f.prot, f.own, pid, a, r, b, addr, end);
      TrimOther(Anon, w.prot, w.own, pid, a, r, b, addr, end);
      FileForget(f, gone);
      SameElsewhereRefl(w, gone);
      KeepsRefl(w);
    }
    KeepsIs(w, w');
    OthersAfterTrim(w.prot, w.own, w'.prot, pid, lo, hi);
    OthersAfterTrim(f.prot, f.own, f'.prot, pid, lo, hi);
    BothChanged(w.prot, w.own, f.prot, f.own, w'.prot, w.own, f'.prot, f.own, spaces, pid, a + keep + b);
    GoodMake(w', f', spaces[pid := a + keep + b]);
  }
}
