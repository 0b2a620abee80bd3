/** Block mapping and truncation of one inode (brkfs_inode_getblk, brkfs_truncate_inode_blocks). */
module BrkfsInode {
  import opened Arith
  import opened BlockTree
  import opened Truncation
  import opened Growth
  import opened InodeMap
  import opened Brkfs

  /** The first `n` slots have been cut and the others still hold their original trees. */
  ghost predicate CutUpTo(d: Disk, ptrs: nat, iblock: seq<nat>, ts: seq<Tree>, cut: seq<Tree>, n: nat) {
    && |iblock| == |ts| == |cut| == BLOCKS
    && forall j :: 0 <= j < BLOCKS ==> View(d, ptrs, iblock[j], LevelOf(j)) == if j < n then cut[j] else ts[j]
  }

  lemma CutStart(d: Disk, ptrs: nat, iblock: seq<nat>, cut: seq<Tree>)
    requires |iblock| == BLOCKS == |cut|
    ensures CutUpTo(d, ptrs, iblock, Trees(d, ptrs, iblock), cut, 0)
    ensures BlocksOf(Trees(d, ptrs, iblock)[..0]) == {} == BlocksOf(cut[..0])
    ensures SameOutside(d, d, BlocksOf(Trees(d, ptrs, iblock)))
  {
  }

  /** The blocks in use after the first `n` slots have been cut. */
  ghost function Left(u: set<nat>, ts: seq<Tree>, cut: seq<Tree>, n: nat): set<nat>
    requires n <= |ts| == |cut|
  {
    u - (BlocksOf(ts[..n]) - BlocksOf(cut[..n]))
  }

  lemma LeftIs(u: set<nat>, ts: seq<Tree>, cut: seq<Tree>, n: nat)
    requires n <= |ts| == |cut|
    ensures Left(u, ts, cut, n) == u - (BlocksOf(ts[..n]) - BlocksOf(cut[..n]))
  {
  }

  lemma LeftNone(u: set<nat>, ts: seq<Tree>, cut: seq<Tree>)
    requires |ts| == |cut|
    ensures Left(u, ts, cut, 0) == u
  {
  }

  lemma LeftNext(u: set<nat>, ts: seq<Tree>, cut: seq<Tree>, n: nat)
    requires n < |ts| == |cut| && UnsharedOf(ts) && BlocksOf(ts) <= u
    requires BlocksOf(cut[..n]) <= BlocksOf(ts[..n]) && Blocks(cut[n]) <= Blocks(ts[n])
    ensures Left(u, ts, cut, n + 1) == Left(u, ts, cut, n) - (Blocks(ts[n]) - Blocks(cut[n]))
    ensures Blocks(ts[n]) <= Left(u, ts, cut, n) && BlocksOf(cut[..n + 1]) <= BlocksOf(ts[..n + 1])
  {
    hide Blocks, BlocksOf, UnsharedOf;
    UnsharedSplit(ts, n);
    BlocksOfSplit(ts, n);
    BlocksOfSplit(cut, n);
    SetsStep(u, BlocksOf(ts[..n]), BlocksOf(cut[..n]), Blocks(ts[n]), Blocks(cut[n]));
  }

  lemma CutSlot(d: Disk, ptrs: nat, iblock: seq<nat>, ts: seq<Tree>, cut: seq<Tree>, n: nat, k: nat)
    requires CutUpTo(d, ptrs, iblock, ts, cut, n) && n <= k < BLOCKS
    ensures View(d, ptrs, iblock[k], LevelOf(k)) == ts[k]
  {
  }

  lemma {:induction false} CutNext(d: Disk, d': Disk, ptrs: nat, iblock: seq<nat>, iblock': seq<nat>,
                                   ts: seq<Tree>, cut: seq<Tree>, k: nat)
    requires CutUpTo(d, ptrs, iblock, ts, cut, k) && k < BLOCKS && UnsharedOf(ts)
    requires forall j :: 0 <= j < BLOCKS ==> Blocks(cut[j]) <= Blocks(ts[j])
    requires SameOutside(d, d', Blocks(ts[k]))
    requires |iblock'| == BLOCKS && forall j :: 0 <= j < BLOCKS && j != k ==> iblock'[j] == iblock[j]
    requires View(d', ptrs, iblock'[k], LevelOf(k)) == cut[k]
    ensures CutUpTo(d', ptrs, iblock', ts, cut, k + 1)
  {
    forall j | 0 <= j < BLOCKS && j != k
      ensures View(d', ptrs, iblock'[j], LevelOf(j)) == if j < k then cut[j] else ts[j]
    {
      assert j < k ==> Blocks(ts[j]) !! Blocks(ts[k]);
      assert k < j ==> Blocks(ts[k]) !! Blocks(ts[j]);
      ViewFrame(d, d', Blocks(ts[k]), ptrs, iblock[j], LevelOf(j));
    }
  }

  lemma CutFinish(d: Disk, ptrs: nat, iblock: seq<nat>, ts: seq<Tree>, cut: seq<Tree>)
    requires CutUpTo(d, ptrs, iblock, ts, cut, BLOCKS)
    ensures Trees(d, ptrs, iblock) == cut && cut[..BLOCKS] == cut && ts[..BLOCKS] == ts
  {
  }

  /** A direct slot is kept or dropped whole. */
  lemma CutDirect(ts: seq<Tree>, ptrs: nat, n: nat, k: nat)
    requires ShapedAll(ts, ptrs) && UnsharedOf(ts) && k < DIRECT_BLOCKS
    ensures CutAll(ts, ptrs, n)[k] == if n <= k then Hole else ts[k]
  {
    hide Shaped, UnsharedOf;
    CutSlotAt(ts, ptrs, n, k);
    SpanPositive(ptrs, 0);
    CutTrivial(ts[k], ptrs, 0, n - k);
  }

  /** The cut of an indirect slot, with block numbers counted from the first indirect block. */
  lemma CutIndirect(ts: seq<Tree>, ptrs: nat, n: nat, k: nat)
    requires ShapedAll(ts, ptrs) && UnsharedOf(ts) && DIRECT_BLOCKS <= k < BLOCKS
    ensures BaseOf(ptrs, k) >= DIRECT_BLOCKS && Shaped(ts[k], ptrs, LevelOf(k))
    ensures var freeFrom := if n > DIRECT_BLOCKS then n - DIRECT_BLOCKS else 0;
            CutAll(ts, ptrs, n)[k] == Cut(ts[k], ptrs, LevelOf(k), freeFrom - (BaseOf(ptrs, k) - DIRECT_BLOCKS))
  {
    hide Shaped, UnsharedOf, Cut, Span;
    CutSlotAt(ts, ptrs, n, k);
    BaseSteps(ptrs);
    if n <= DIRECT_BLOCKS {
      CutTrivial(ts[k], ptrs, LevelOf(k), n - BaseOf(ptrs, k));
      CutTrivial(ts[k], ptrs, LevelOf(k), DIRECT_BLOCKS - BaseOf(ptrs, k));
    }
  }

  /** Trees of an inode after slot `k` has grown, as read back from the disk. */
  lemma {:induction false} TreesAfter(d: Disk, d': Disk, ptrs: nat, iblock: seq<nat>, k: nat, root: nat, t': Tree,
                                      u: set<nat>)
    requires |iblock| == BLOCKS && k < BLOCKS
    requires UnsharedOf(Trees(d, ptrs, iblock)) && BlocksOf(Trees(d, ptrs, iblock)) <= u
    requires t' == View(d', ptrs, root, LevelOf(k)) && SameOutside(d, d', Blocks(t'))
    requires Blocks(Trees(d, ptrs, iblock)[k]) <= Blocks(t') && (Blocks(t') - Blocks(Trees(d, ptrs, iblock)[k])) !! u
    ensures |iblock[k := root]| == BLOCKS
    ensures Trees(d', ptrs, iblock[k := root]) == Trees(d, ptrs, iblock)[k := t']
  {
    var ts := Trees(d, ptrs, iblock);
    forall j | 0 <= j < BLOCKS && j != k
      ensures View(d', ptrs, iblock[j], LevelOf(j)) == ts[j]
    {
      assert Blocks(ts[j]) <= BlocksOf(ts);
      assert j < k ==> Blocks(ts[j]) !! Blocks(ts[k]);
      assert k < j ==> Blocks(ts[k]) !! Blocks(ts[j]);
      ViewFrame(d, d', Blocks(t'), ptrs, iblock[j], LevelOf(j));
    }
  }

  /** Growth in one slot is seen at one logical block of the file only. */
  lemma {:induction false} MappedAfter(ts: seq<Tree>, ptrs: nat, idx: nat, t': Tree, u: set<nat>, u': set<nat>)
    requires ShapedAll(ts, ptrs) && UnsharedOf(ts) && BlocksOf(ts) <= u && idx < Capacity(ptrs)
    requires Grown(ts[SlotOf(ptrs, idx)], t', ptrs, LevelOf(SlotOf(ptrs, idx)),
                   (SlotCovers(ptrs, idx); idx - BaseOf(ptrs, SlotOf(ptrs, idx))), u, u')
    ensures var k := SlotOf(ptrs, idx);
            var ts' := ts[k := t'];
            && ShapedAll(ts', ptrs) && UnsharedOf(ts') && BlocksOf(ts') == BlocksOf(ts) + Blocks(t')
            && BlocksOf(ts') <= u' && u' == u + BlocksOf(ts')
            && Mapped(ts', ptrs, idx) == (SlotCovers(ptrs, idx); At(t', ptrs, LevelOf(k), idx - BaseOf(ptrs, k)))
            && forall j: nat :: j < Capacity(ptrs) && j != idx ==> Mapped(ts', ptrs, j) == Mapped(ts, ptrs, j)
  {
    hide SlotOf, BaseOf, Capacity, Span, LevelOf, Shaped, BlocksOf, UnsharedOf, Unshared, At;
    var k := SlotOf(ptrs, idx);
    SlotCovers(ptrs, idx);
    var ts' := ts[k := t'];
    ReplaceKidBlocks(ts, k, t', u);
    assert ShapedAll(ts', ptrs);
    forall j: nat | j < Capacity(ptrs) && j != idx
      ensures Mapped(ts', ptrs, j) == Mapped(ts, ptrs, j)
    {
      SlotCovers(ptrs, j);
    }
  }

  class Inode {
    const vol: Volume
    var iblock: seq<nat>
    var size: int

    constructor (vol: Volume, iblock: seq<nat>, size: int)
      ensures this.vol == vol && this.iblock == iblock && this.size == size
    {
      this.vol, this.iblock, this.size := vol, iblock, size;
    }

    /** The inode's trees share no block and all their blocks are marked in use. */
    ghost predicate Valid()
      reads `iblock, vol
      ensures Valid() ==> |iblock| == BLOCKS && vol.BitmapOk() && vol.ptrs > 0
    {
      && |iblock| == BLOCKS && vol.ptrs > 0
      && vol.AllocOk() && vol.DiskOk(vol.disk)
      && UnsharedOf(Trees(vol.disk, vol.ptrs, iblock)) && BlocksOf(Trees(vol.disk, vol.ptrs, iblock)) <= vol.Used()
    }

    ghost function MyTrees(): (ts: seq<Tree>)
      requires |iblock| == BLOCKS
      reads `iblock, vol
      ensures ShapedAll(ts, vol.ptrs)
    {
      Trees(vol.disk, vol.ptrs, iblock)
    }

    /** The direct slots: blocks at or past the cut are released one by one. */
    method TruncateDirect(newN: nat, ghost ts: seq<Tree>, ghost cut: seq<Tree>)
      requires Valid() && ts == MyTrees() && cut == CutAll(ts, vol.ptrs, newN)
      modifies `iblock, vol`bitmaps, vol`freeBlocks
      ensures |iblock| == BLOCKS && vol.AllocOk()
      ensures CutUpTo(vol.disk, vol.ptrs, iblock, ts, cut, DIRECT_BLOCKS)
      ensures vol.Used() == old(vol.Used()) - (BlocksOf(ts[..DIRECT_BLOCKS]) - BlocksOf(cut[..DIRECT_BLOCKS]))
      ensures BlocksOf(cut[..DIRECT_BLOCKS]) <= BlocksOf(ts[..DIRECT_BLOCKS])
    {
      hide *;
      Sizes();
      ValidFacts();
      ghost var u := vol.Used();
      CutStart(vol.disk, vol.ptrs, iblock, cut);
      CutAllStructure(ts, vol.ptrs, newN);
      LeftNone(u, ts, cut);
      for bi := 0 to DIRECT_BLOCKS
        invariant |iblock| == BLOCKS && vol.AllocOk() && vol.disk == old(vol.disk)
        invariant CutUpTo(vol.disk, vol.ptrs, iblock, ts, cut, bi)
        invariant vol.Used() == Left(u, ts, cut, bi) && BlocksOf(cut[..bi]) <= BlocksOf(ts[..bi])
      {
        ghost var before := iblock;
        CutDirect(ts, vol.ptrs, newN, bi);
        LeftNext(u, ts, cut, bi);
        CutSlot(vol.disk, vol.ptrs, iblock, ts, cut, bi, bi);
        DirectLevel(bi);
        DropDirect(bi, newN, ts[bi]);
        SameOutsideRefl(vol.disk, Blocks(ts[bi]));
        CutNext(vol.disk, vol.disk, vol.ptrs, before, iblock, ts, cut, bi);
      }
      LeftIs(u, ts, cut, DIRECT_BLOCKS);
    }

    method DropDirect(bi: nat, newN: nat, ghost t: Tree)
      requires |iblock| == BLOCKS && bi < DIRECT_BLOCKS && vol.AllocOk()
      requires t == View(vol.disk, vol.ptrs, iblock[bi], 0) && Blocks(t) <= vol.Used()
      modifies `iblock, vol`bitmaps, vol`freeBlocks
      ensures vol.AllocOk() && |iblock| == BLOCKS
      ensures forall j :: 0 <= j < BLOCKS && j != bi ==> iblock[j] == old(iblock[j])
      ensures View(vol.disk, vol.ptrs, iblock[bi], 0) == if newN <= bi then Hole else t
      ensures vol.Used() == old(vol.Used()) - (Blocks(t) - Blocks(if newN <= bi then Hole else t))
    {
      hide *;
      Sizes();
      if bi < newN {
        return;
      }
      var bno := iblock[bi];
      ViewRoot(vol.disk, vol.ptrs, bno, 0);
      ViewRoot(vol.disk, vol.ptrs, 0, 0);
      if bno != 0 {
        vol.UsedValid();
        if vol.ValidBno(bno) {
          var _ := vol.DataFree(bno);
        }
        iblock := iblock[bi := 0];
      }
    }

    /** The three indirect slots, each handed to the recursive walk; `u` is what was in use at first. */
    method TruncateIndirect(newN: nat, ghost ts: seq<Tree>, ghost cut: seq<Tree>, ghost u: set<nat>)
      requires |iblock| == BLOCKS && vol.ptrs > 0 && vol.AllocOk() && vol.DiskOk(vol.disk)
      requires |ts| == BLOCKS && ShapedAll(ts, vol.ptrs) && UnsharedOf(ts) && BlocksOf(ts) <= u
      requires cut == CutAll(ts, vol.ptrs, newN)
      requires CutUpTo(vol.disk, vol.ptrs, iblock, ts, cut, DIRECT_BLOCKS)
      requires BlocksOf(cut[..DIRECT_BLOCKS]) <= BlocksOf(ts[..DIRECT_BLOCKS])
      requires vol.Used() == u - (BlocksOf(ts[..DIRECT_BLOCKS]) - BlocksOf(cut[..DIRECT_BLOCKS]))
      modifies `iblock, vol`bitmaps, vol`freeBlocks, vol`disk
      ensures |iblock| == BLOCKS && vol.AllocOk() && vol.DiskOk(vol.disk)
      ensures Trees(vol.disk, vol.ptrs, iblock) == cut
      ensures vol.Used() == u - (BlocksOf(ts) - BlocksOf(cut))
      ensures SameOutside(old(vol.disk), vol.disk, PointersOf(ts))
    {
      hide *;
      Sizes();
      var freeFrom := if newN > DIRECT_BLOCKS then newN - DIRECT_BLOCKS else 0;
      var base := 0;
      FirstIndirect(vol.ptrs);
      CutAllStructure(ts, vol.ptrs, newN);
      SameOutsideRefl(vol.disk, PointersOf(ts));
      for level := 1 to 4
        invariant |iblock| == BLOCKS && vol.AllocOk() && vol.DiskOk(vol.disk)
        invariant DIRECT_BLOCKS + base == BaseOf(vol.ptrs, DIRECT_BLOCKS + level - 1)
        invariant CutUpTo(vol.disk, vol.ptrs, iblock, ts, cut, DIRECT_BLOCKS + level - 1)
        invariant vol.Used() ==
                  u - (BlocksOf(ts[..DIRECT_BLOCKS + level - 1]) - BlocksOf(cut[..DIRECT_BLOCKS + level - 1]))
        invariant BlocksOf(cut[..DIRECT_BLOCKS + level - 1]) <= BlocksOf(ts[..DIRECT_BLOCKS + level - 1])
        invariant SameOutside(old(vol.disk), vol.disk, PointersOf(ts))
      {
        var k := DIRECT_BLOCKS + level - 1;
        var span := vol.IndirectSpan(level);
        var end := base + span;
        var root := iblock[k];
        ghost var before, d := iblock, vol.disk;
        IndirectLevel(vol.ptrs, level);
        CutIndirect(ts, vol.ptrs, newN, k);
        CutSlotAt(ts, vol.ptrs, newN, k);
        UnsharedSplit(ts, k);
        BlocksOfSplit(ts, k);
        BlocksOfSplit(cut, k);
        CutSlot(vol.disk, vol.ptrs, iblock, ts, cut, k, k);
        SetsStep(u, BlocksOf(ts[..k]), BlocksOf(cut[..k]), Blocks(ts[k]), Blocks(cut[k]));
        ViewRoot(vol.disk, vol.ptrs, root, level);
        CutTrivial(ts[k], vol.ptrs, level, freeFrom - base);
        SameOutsideRefl(vol.disk, Pointers(ts[k]));
        if root != 0 {
          var root', keep := vol.FreeIndirectRange(root, level, base, end, freeFrom, ts[k]);
          iblock := iblock[k := root'];
        }
        PointersAreBlocks(ts[k]);
        SameOutsideWiden(d, vol.disk, Pointers(ts[k]), Blocks(ts[k]));
        CutNext(d, vol.disk, vol.ptrs, before, iblock, ts, cut, k);
        PointersAt(ts, k);
        SameOutsideTrans(old(vol.disk), d, vol.disk, PointersOf(ts), Pointers(ts[k]));
        base := end;
      }
      CutFinish(vol.disk, vol.ptrs, iblock, ts, cut);
    }

    /**
     brkfs_truncate_inode_blocks. Shrinking leaves every logical block below the new end where it
     was, makes holes of the rest, and releases exactly the blocks no longer reachable.
     */
    method Truncate(newSize: int) returns (err: Error)
      requires Valid()
      modifies this, vol`bitmaps, vol`freeBlocks, vol`disk
      ensures Valid()
      ensures err == if newSize < 0 then Invalid else Ok
      ensures newSize < 0 || newSize > old(size) ==>
                iblock == old(iblock) && vol.disk == old(vol.disk) && vol.Used() == old(vol.Used())
      ensures size == if newSize < 0 then old(size) else newSize
      ensures 0 <= newSize <= old(size) ==>
                var n := DivCeil(newSize, BlockSize());
                && (forall i: nat :: i < Capacity(vol.ptrs) ==>
                      Mapped(MyTrees(), vol.ptrs, i) == if i < n then Mapped(old(MyTrees()), vol.ptrs, i) else 0)
                && BlocksOf(MyTrees()) <= BlocksOf(old(MyTrees()))
                && vol.Used() == old(vol.Used()) - (BlocksOf(old(MyTrees())) - BlocksOf(MyTrees()))
                && vol.freeBlocks - old(vol.freeBlocks) == CountOf(old(MyTrees())) - CountOf(MyTrees())
                && SameOutside(old(vol.disk), vol.disk, PointersOf(old(MyTrees())))
    {
      hide *;
      Sizes();
      ValidFacts();
      if newSize < 0 {
        return Invalid;
      }
      err := Ok;
      if newSize > size {
        size := newSize;
        StillValid();
        return;
      }
      BlockSizePositive();
      var newN := DivCeil(newSize, BlockSize());
      ghost var ts, u := MyTrees(), vol.Used();
      ghost var cut := CutAll(ts, vol.ptrs, newN);
      TruncateDirect(newN, ts, cut);
      TruncateIndirect(newN, ts, cut, u);
      size := newSize;
      MyTreesDef();
      TruncateDone(newN, ts, cut, u, old(vol.freeBlocks));
    }

    function BlockSize(): nat {
      4 * vol.ptrs
    }

    /** The logical block that holds byte `off`. */
    function BlockIndex(off: nat): nat
      requires vol.ptrs > 0
    {
      Quotient(off, BlockSize())
    }

    lemma BlockSizePositive()
      requires Valid()
      ensures BlockSize() > 0 && vol.ptrs > 0
    {
    }

    lemma StillValid()
      requires |iblock| == BLOCKS && vol.ptrs > 0 && vol.AllocOk() && vol.DiskOk(vol.disk)
      requires UnsharedOf(MyTrees()) && BlocksOf(MyTrees()) <= vol.Used()
      ensures Valid()
    {
    }

    lemma TruncateDone(n: nat, ts: seq<Tree>, cut: seq<Tree>, u: set<nat>, free: int)
      requires |iblock| == BLOCKS && vol.ptrs > 0 && vol.AllocOk() && vol.DiskOk(vol.disk)
      requires ShapedAll(ts, vol.ptrs) && UnsharedOf(ts) && BlocksOf(ts) <= u && free == vol.count - |u|
      requires cut == CutAll(ts, vol.ptrs, n) == MyTrees() && vol.Used() == u - (BlocksOf(ts) - BlocksOf(cut))
      ensures Valid()
      ensures BlocksOf(cut) <= BlocksOf(ts)
      ensures vol.freeBlocks - free == CountOf(ts) - CountOf(cut)
      ensures forall i: nat :: i < Capacity(vol.ptrs) ==>
                Mapped(MyTrees(), vol.ptrs, i) == if i < n then Mapped(ts, vol.ptrs, i) else 0
    {
      hide *;
      CutAllStructure(ts, vol.ptrs, n);
      CutAllCount(ts, vol.ptrs, n);
      Taken(u, BlocksOf(ts) - BlocksOf(cut));
      FreeIs();
      CutMapped(ts, vol.ptrs, n);
      StillValid();
    }

    lemma FreeIs()
      requires vol.AllocOk()
      ensures vol.freeBlocks == vol.count - |vol.Used()|
    {
    }

    /**
     brkfs_inode_getblk: the physical block behind byte offset `off`. Creating a block changes the
     map at that logical block only, takes only blocks that were free, and repeats: a later
     lookup returns the same block.
     */
    method GetBlk(off: nat, create: bool) returns (err: Error, bno: nat)
      requires Valid()
      modifies `iblock, vol`bitmaps, vol`freeBlocks, vol`disk
      ensures Valid()
      ensures SameOutside(old(vol.disk), vol.disk, PointersOf(MyTrees()))
      ensures if BlockIndex(off) < Capacity(vol.ptrs) then
                GotBlock(old(MyTrees()), MyTrees(), BlockIndex(off), create, old(vol.Used()), vol.Used(), err, bno)
              else err == NoSpace
      ensures BlockIndex(off) >= Capacity(vol.ptrs) || !create ||
              Mapped(old(MyTrees()), vol.ptrs, BlockIndex(off)) != 0 ==>
                iblock == old(iblock) && vol.disk == old(vol.disk) && vol.Used() == old(vol.Used())
    {
      hide *;
      Sizes();
      ValidFacts();
      SameOutsideRefl(vol.disk, PointersOf(MyTrees()));
      var blkIdx := BlockIndex(off);
      BaseSteps(vol.ptrs);
      CapacityIs(vol.ptrs);
      if blkIdx < DIRECT_BLOCKS {
        err, bno := GetDirect(blkIdx, create);
        SameOutsideRefl(vol.disk, PointersOf(MyTrees()));
        return;
      }
      var adj := blkIdx - DIRECT_BLOCKS;
      var span1 := vol.IndirectSpan(1);
      var span2 := vol.IndirectSpan(2);
      var span3 := vol.IndirectSpan(3);
      if adj >= span1 + span2 + span3 {
        return NoSpace, 0;
      }
      var level, idx;
      if adj < span1 {
        level, idx := 1, adj;
      } else if adj < span1 + span2 {
        level, idx := 2, adj - span1;
      } else {
        level, idx := 3, adj - span1 - span2;
      }
      IndirectSlot(vol.ptrs, blkIdx, level);
      err, bno := GetIndirect(blkIdx, level, idx, create);
    }

    /** What a lookup of logical block `idx` promises about the file's map and the allocator. */
    ghost predicate GotBlock(ts: seq<Tree>, ts': seq<Tree>, idx: nat, create: bool, u: set<nat>, u': set<nat>,
                             err: Error, bno: nat) {
      && ShapedAll(ts, vol.ptrs) && ShapedAll(ts', vol.ptrs) && idx < Capacity(vol.ptrs)
      && (err == Ok || err == NoSpace)
      && (forall j: nat :: j < Capacity(vol.ptrs) && j != idx ==> Mapped(ts', vol.ptrs, j) == Mapped(ts, vol.ptrs, j))
      && (err == Ok ==> bno == Mapped(ts', vol.ptrs, idx) && (create ==> bno != 0))
      && (Mapped(ts, vol.ptrs, idx) != 0 ==> err == Ok && bno == Mapped(ts, vol.ptrs, idx))
      && (err == NoSpace ==> create && Mapped(ts', vol.ptrs, idx) == 0 && u' == vol.Area())
      && BlocksOf(ts) <= BlocksOf(ts') && u' == u + BlocksOf(ts') && (BlocksOf(ts') - BlocksOf(ts)) !! u
    }

    method GetDirect(blkIdx: nat, create: bool) returns (err: Error, bno: nat)
      requires Valid() && blkIdx < DIRECT_BLOCKS
      modifies `iblock, vol`bitmaps, vol`freeBlocks
      ensures Valid() && blkIdx < Capacity(vol.ptrs)
      ensures GotBlock(old(MyTrees()), MyTrees(), blkIdx, create, old(vol.Used()), vol.Used(), err, bno)
      ensures !create || Mapped(old(MyTrees()), vol.ptrs, blkIdx) != 0 ==>
                iblock == old(iblock) && vol.Used() == old(vol.Used())
    {
      hide *;
      Sizes();
      ValidFacts();
      ghost var ts, u, d := MyTrees(), vol.Used(), vol.disk;
      DirectInRange(vol.ptrs, blkIdx);
      TreesAt(d, vol.ptrs, iblock, blkIdx);
      var root := iblock[blkIdx];
      err, bno := Ok, root;
      if root == 0 && create {
        err, bno := vol.DataAlloc();
        vol.NotZero();
        root := if err == Ok then bno else 0;
      }
      DirectLookedUp(d, blkIdx, create, iblock[blkIdx], u, vol.Used(), err, bno);
      SlotGot(d, d, iblock, blkIdx, root, blkIdx, create, u, vol.Used(), err, bno);
      iblock := iblock[blkIdx := root];
      MyTreesDef();
      StillValid();
    }

    method GetIndirect(blkIdx: nat, level: nat, idx: nat, create: bool) returns (err: Error, bno: nat)
      requires Valid() && 1 <= level <= 3 && blkIdx < Capacity(vol.ptrs)
      requires SlotOf(vol.ptrs, blkIdx) == DIRECT_BLOCKS + level - 1
      requires blkIdx == BaseOf(vol.ptrs, DIRECT_BLOCKS + level - 1) + idx && idx < Span(vol.ptrs, level)
      modifies `iblock, vol`bitmaps, vol`freeBlocks, vol`disk
      ensures Valid()
      ensures GotBlock(old(MyTrees()), MyTrees(), blkIdx, create, old(vol.Used()), vol.Used(), err, bno)
      ensures !create || Mapped(old(MyTrees()), vol.ptrs, blkIdx) != 0 ==>
                iblock == old(iblock) && vol.disk == old(vol.disk) && vol.Used() == old(vol.Used())
      ensures SameOutside(old(vol.disk), vol.disk, PointersOf(MyTrees()))
    {
      hide *;
      Sizes();
      ValidFacts();
      var k := DIRECT_BLOCKS + level - 1;
      IndirectLevel(vol.ptrs, level);
      ghost var ts, u, d := MyTrees(), vol.Used(), vol.disk;
      TreesAt(d, vol.ptrs, iblock, k);
      UnsharedSplit(ts, k);
      var root;
      err, root, bno := vol.IndirectLookup(iblock[k], level, idx, create, ts[k]);
      SlotGot(d, vol.disk, iblock, k, root, blkIdx, create, u, vol.Used(), err, bno);
      iblock := iblock[k := root];
      MyTreesDef();
      StillValid();
    }

    /** A lookup in one slot of i_block, seen as a lookup in the whole file. */
    lemma SlotGot(d: Disk, d': Disk, was: seq<nat>, k: nat, root: nat, idx: nat, create: bool,
                  u: set<nat>, u': set<nat>, err: Error, out: nat)
      requires |was| == BLOCKS && k < BLOCKS && idx < Capacity(vol.ptrs) && SlotOf(vol.ptrs, idx) == k
      requires BaseOf(vol.ptrs, k) <= idx
      requires UnsharedOf(Trees(d, vol.ptrs, was)) && BlocksOf(Trees(d, vol.ptrs, was)) <= u
      requires vol.LookedUp(View(d, vol.ptrs, was[k], LevelOf(k)), View(d', vol.ptrs, root, LevelOf(k)), LevelOf(k),
                            idx - BaseOf(vol.ptrs, k), create, u, u', d, d', err, out)
      ensures |was[k := root]| == BLOCKS
      ensures var ts, ts' := Trees(d, vol.ptrs, was), Trees(d', vol.ptrs, was[k := root]);
              && UnsharedOf(ts') && BlocksOf(ts') <= u'
              && GotBlock(ts, ts', idx, create, u, u', err, out)
              && SameOutside(d, d', PointersOf(ts'))
              && (!create || Mapped(ts, vol.ptrs, idx) != 0 ==> d' == d && u' == u && was[k := root] == was)
    {
      var ptrs := vol.ptrs;
      var ts := Trees(d, ptrs, was);
      var t' := View(d', ptrs, root, LevelOf(k));
      TreesAt(d, ptrs, was, k);
      SlotCovers(ptrs, idx);
      hide SameOutside, UnsharedOf, Unshared, BlocksOf, Blocks, Pointers, PointersOf, Shaped, View, SlotOf, BaseOf,
           Capacity, Span, LevelOf, At, Mapped;
      GrownFacts(ts[k], t', ptrs, LevelOf(k), idx - BaseOf(ptrs, k), u, u');
      PointersAreBlocks(t');
      SameOutsideWiden(d, d', Pointers(t'), Blocks(t'));
      TreesAfter(d, d', ptrs, was, k, root, t', u);
      MappedAfter(ts, ptrs, idx, t', u, u');
      MappedIs(ts, ptrs, idx);
      assert (BlocksOf(ts) + Blocks(t')) - BlocksOf(ts) !! u by { TreeBlocks(ts, k); }
      PointersAt(ts[k := t'], k);
      SameOutsideWiden(d, d', Pointers(t'), PointersOf(ts[k := t']));
      SameRoot(d, d', ptrs, was[k], root, LevelOf(k));
    }

    lemma DirectLookedUp(d: Disk, k: nat, create: bool, root: nat, u: set<nat>, u': set<nat>, err: Error, bno: nat)
      requires k < DIRECT_BLOCKS && (root != 0 ==> root in u)
      requires if root == 0 && create then
                 if err == Ok then bno != 0 && bno !in u && u' == u + {bno} else err == NoSpace && u' == u == vol.Area()
               else err == Ok && bno == root && u' == u
      ensures LevelOf(k) == 0 && BaseOf(vol.ptrs, k) == k
      ensures var root' := if root == 0 && create && err == Ok then bno else root;
              vol.LookedUp(View(d, vol.ptrs, root, 0), View(d, vol.ptrs, root', 0), 0, 0, create, u, u', d, d, err, bno)
    {
    }

    /** brkfs_count_tree. */
    method CountTree(bno: nat, level: nat, ghost t: Tree) returns (blocks: nat)
      requires Valid() && t == View(vol.disk, vol.ptrs, bno, level) && Blocks(t) <= vol.Used()
      ensures blocks == Count(t)
      decreases level
    {
      ValidFacts();
      vol.UsedValid();
      ViewRoot(vol.disk, vol.ptrs, bno, level);
      if bno == 0 || !vol.ValidBno(bno) {
        return 0;
      }
      blocks := 1;
      if level == 0 {
        return;
      }
      hide *;
      ViewNode(vol.disk, vol.ptrs, bno, level);
      vol.DiskAt(vol.disk, bno);
      CountStart(t);
      for i := 0 to vol.ptrs
        invariant blocks == 1 + CountOf(t.kids[..i])
      {
        ViewKid(vol.disk, vol.ptrs, bno, level, i);
        CountStep(t.kids, i);
        TreeBlocks(t.kids, i);
        var child := vol.disk[bno][i];
        if child != 0 {
          var n := CountTree(child, level - 1, t.kids[i]);
          blocks := blocks + n;
        }
      }
      assert t.kids[..vol.ptrs] == t.kids;
    }

    /** brkfs_inode_allocated_blocks: direct blocks and whole indirect trees. */
    method AllocatedBlocks() returns (blocks: nat)
      requires Valid()
      ensures blocks == CountOf(MyTrees()) == |BlocksOf(MyTrees())|
    {
      hide *;
      Sizes();
      ValidFacts();
      ghost var ts := MyTrees();
      CountOfIsSize(ts);
      CountNone(ts);
      blocks := 0;
      for i := 0 to BLOCKS
        invariant blocks == CountOf(ts[..i])
      {
        TreesAt(vol.disk, vol.ptrs, iblock, i);
        CountStep(ts, i);
        TreeBlocks(ts, i);
        ViewRoot(vol.disk, vol.ptrs, iblock[i], LevelOf(i));
        var n := CountTree(iblock[i], LevelOf(i), ts[i]);
        blocks := blocks + n;
      }
      assert ts[..BLOCKS] == ts;
    }

    lemma MyTreesDef()
      requires |iblock| == BLOCKS
      ensures MyTrees() == Trees(vol.disk, vol.ptrs, iblock)
    {
    }

    lemma ValidFacts()
      requires Valid()
      ensures |iblock| == BLOCKS && vol.AllocOk() && vol.DiskOk(vol.disk) &&
              MyTrees() == Trees(vol.disk, vol.ptrs, iblock)
      ensures UnsharedOf(MyTrees()) && BlocksOf(MyTrees()) <= vol.Used()
      ensures ShapedAll(MyTrees(), vol.ptrs) && |MyTrees()| == BLOCKS
      ensures vol.freeBlocks == vol.count - |vol.Used()| && vol.ptrs > 0
    {
    }
  }

  lemma Taken(u: set<nat>, gone: set<nat>)
    requires gone <= u
    ensures |u - gone| == |u| - |gone|
  {
    assert u == (u - gone) + gone;
  }

  lemma CutMapped(ts: seq<Tree>, ptrs: nat, n: nat)
    requires ptrs > 0 && ShapedAll(ts, ptrs) && UnsharedOf(ts)
    ensures ShapedAll(CutAll(ts, ptrs, n), ptrs)
    ensures forall i: nat :: i < Capacity(ptrs) ==>
            Mapped(CutAll(ts, ptrs, n), ptrs, i) == if i < n then Mapped(ts, ptrs, i) else 0
  {
    hide UnsharedOf, BlocksOf, CountOf, Mapped, CutAll, Capacity;
    CutAllStructure(ts, ptrs, n);
    forall i: nat | i < Capacity(ptrs)
      ensures Mapped(CutAll(ts, ptrs, n), ptrs, i) == if i < n then Mapped(ts, ptrs, i) else 0
    {
      CutAllMapped(ts, ptrs, n, i);
    }
  }

  lemma Sizes()
    ensures DIRECT_BLOCKS == 7 && BLOCKS == 10
  {
  }

  lemma CountStart(t: Tree)
    requires t.Node?
    ensures Count(t) == 1 + CountOf(t.kids) && CountOf(t.kids[..0]) == 0
  {
  }

  lemma CountNone(ts: seq<Tree>)
    ensures CountOf(ts[..0]) == 0
  {
  }

  lemma CountStep(ts: seq<Tree>, i: nat)
    requires i < |ts|
    ensures CountOf(ts[..i + 1]) == CountOf(ts[..i]) + Count(ts[i])
    ensures ts[i] == Hole ==> Count(ts[i]) == 0
  {
    assert ts[..i + 1][..i] == ts[..i];
  }

  lemma TreesAt(d: Disk, ptrs: nat, iblock: seq<nat>, k: nat)
    requires |iblock| == BLOCKS && k < BLOCKS
    ensures |Trees(d, ptrs, iblock)| == BLOCKS && Trees(d, ptrs, iblock)[k] == View(d, ptrs, iblock[k], LevelOf(k))
    ensures iblock[k] != 0 ==> iblock[k] in BlocksOf(Trees(d, ptrs, iblock))
  {
    ViewRoot(d, ptrs, iblock[k], LevelOf(k));
    assert Blocks(Trees(d, ptrs, iblock)[k]) <= BlocksOf(Trees(d, ptrs, iblock));
  }

  lemma TreeBlocks(ts: seq<Tree>, k: nat)
    requires k < |ts|
    ensures Blocks(ts[k]) <= BlocksOf(ts)
  {
  }

  lemma SameRoot(d: Disk, d': Disk, ptrs: nat, b: nat, b': nat, level: nat)
    ensures View(d, ptrs, b, level) == View(d', ptrs, b', level) ==> b == b'
  {
    assert Root(View(d, ptrs, b, level)) == b && Root(View(d', ptrs, b', level)) == b';
  }

  lemma DirectInRange(ptrs: nat, k: nat)
    requires k < DIRECT_BLOCKS
    ensures k < Capacity(ptrs) && SlotOf(ptrs, k) == k && BaseOf(ptrs, k) == k && LevelOf(k) == 0
  {
    BaseSteps(ptrs);
  }

  lemma IndirectSlot(ptrs: nat, idx: nat, level: nat)
    requires 1 <= level <= 3 && BaseOf(ptrs, DIRECT_BLOCKS + level - 1) <= idx < BaseOf(ptrs, DIRECT_BLOCKS + level)
    ensures idx < Capacity(ptrs) && SlotOf(ptrs, idx) == DIRECT_BLOCKS + level - 1
  {
    BaseSteps(ptrs);
  }

  lemma CapacityIs(ptrs: nat)
    ensures Capacity(ptrs) == BaseOf(ptrs, BLOCKS)
    ensures DIRECT_BLOCKS <= Capacity(ptrs)
  {
    BaseSteps(ptrs);
  }

  lemma FirstIndirect(ptrs: nat)
    ensures BaseOf(ptrs, DIRECT_BLOCKS) == DIRECT_BLOCKS
  {
  }

  lemma IndirectLevel(ptrs: nat, level: nat)
    requires 1 <= level <= 3
    ensures LevelOf(DIRECT_BLOCKS + level - 1) == level
    ensures BaseOf(ptrs, DIRECT_BLOCKS + level) == BaseOf(ptrs, DIRECT_BLOCKS + level - 1) + Span(ptrs, level)
  {
  }

  lemma DirectLevel(k: nat)
    requires k < DIRECT_BLOCKS
    ensures LevelOf(k) == 0
  {
  }
}
