/**
 The block map of a whole inode: seven direct blocks and three trees of one, two and three levels
 (src/fs/brkfs/brkfs.h, src/fs/brkfs/inode.c).
 */
module InodeMap {
  import opened BlockTree
  import opened Truncation

  const DIRECT_BLOCKS: nat := 7
  const BLOCKS: nat := 10

  /** Depth of the tree in slot `k` of i_block. */
  function LevelOf(k: nat): nat {
    if k < DIRECT_BLOCKS then 0 else k - DIRECT_BLOCKS + 1
  }

  /** First logical block that slot `k` covers. */
  ghost function BaseOf(ptrs: nat, k: nat): nat {
    if k <= DIRECT_BLOCKS then k else BaseOf(ptrs, k - 1) + Span(ptrs, LevelOf(k - 1))
  }

  ghost function Capacity(ptrs: nat): nat {
    BaseOf(ptrs, BLOCKS)
  }

  /** The slot that covers logical block `idx`. */
  ghost function SlotOf(ptrs: nat, idx: nat): nat {
    if idx < DIRECT_BLOCKS then idx
    else if idx < BaseOf(ptrs, 8) then 7
    else if idx < BaseOf(ptrs, 9) then 8
    else 9
  }

  /** The slots partition the logical blocks. */
  lemma SlotCovers(ptrs: nat, idx: nat)
    requires idx < Capacity(ptrs)
    ensures var k := SlotOf(ptrs, idx);
            k < BLOCKS && BaseOf(ptrs, k) <= idx < BaseOf(ptrs, k) + Span(ptrs, LevelOf(k))
  {
    BaseSteps(ptrs);
  }

  lemma BaseSteps(ptrs: nat)
    ensures BaseOf(ptrs, 7) == 7
    ensures BaseOf(ptrs, 8) == 7 + Span(ptrs, 1)
    ensures BaseOf(ptrs, 9) == 7 + Span(ptrs, 1) + Span(ptrs, 2)
    ensures BaseOf(ptrs, 10) == 7 + Span(ptrs, 1) + Span(ptrs, 2) + Span(ptrs, 3)
    ensures forall k: nat :: k < DIRECT_BLOCKS ==> LevelOf(k) == 0 && Span(ptrs, LevelOf(k)) == 1
  {
  }

  lemma SlotUnique(ptrs: nat, k: nat, off: nat)
    requires k < BLOCKS && off < Span(ptrs, LevelOf(k))
    ensures BaseOf(ptrs, k) + off < Capacity(ptrs) && SlotOf(ptrs, BaseOf(ptrs, k) + off) == k
  {
    BaseSteps(ptrs);
  }

  /** The trees of an inode, read off the disk. */
  ghost function Trees(disk: Disk, ptrs: nat, iblock: seq<nat>): (ts: seq<Tree>)
    requires |iblock| == BLOCKS
    ensures |ts| == BLOCKS && ShapedAll(ts, ptrs)
  {
    seq(BLOCKS, k requires 0 <= k < BLOCKS => View(disk, ptrs, iblock[k], LevelOf(k)))
  }

  ghost predicate ShapedAll(ts: seq<Tree>, ptrs: nat) {
    |ts| == BLOCKS && forall k :: 0 <= k < BLOCKS ==> Shaped(ts[k], ptrs, LevelOf(k))
  }

  /** The physical block of logical block `idx` of the file, 0 for a hole. */
  ghost function Mapped(ts: seq<Tree>, ptrs: nat, idx: nat): nat
    requires ShapedAll(ts, ptrs) && idx < Capacity(ptrs)
  {
    var k := SlotOf(ptrs, idx);
    SlotCovers(ptrs, idx);
    At(ts[k], ptrs, LevelOf(k), idx - BaseOf(ptrs, k))
  }

  /** Distinct logical blocks of a file never share a physical block. */
  lemma {:induction false} MappedInjective(ts: seq<Tree>, ptrs: nat, i: nat, j: nat)
    requires ShapedAll(ts, ptrs) && UnsharedOf(ts) && i < Capacity(ptrs) && j < Capacity(ptrs)
    requires Mapped(ts, ptrs, i) == Mapped(ts, ptrs, j) != 0
    ensures i == j
  {
    var k, l := SlotOf(ptrs, i), SlotOf(ptrs, j);
    SlotCovers(ptrs, i);
    SlotCovers(ptrs, j);
    AtIsData(ts[k], ptrs, LevelOf(k), i - BaseOf(ptrs, k));
    AtIsData(ts[l], ptrs, LevelOf(l), j - BaseOf(ptrs, l));
    if k == l {
      AtInjective(ts[k], ptrs, LevelOf(k), i - BaseOf(ptrs, k), j - BaseOf(ptrs, k));
    }
  }

  /** A mapped block is never one of the file's pointer blocks. */
  lemma {:induction false} MappedNotPointer(ts: seq<Tree>, ptrs: nat, i: nat, k: nat)
    requires ShapedAll(ts, ptrs) && UnsharedOf(ts) && i < Capacity(ptrs) && k < BLOCKS
    requires Mapped(ts, ptrs, i) != 0
    ensures Mapped(ts, ptrs, i) !in Pointers(ts[k])
  {
    var s := SlotOf(ptrs, i);
    SlotCovers(ptrs, i);
    AtIsData(ts[s], ptrs, LevelOf(s), i - BaseOf(ptrs, s));
    PointersAreBlocks(ts[k]);
    if s < k {
      assert Blocks(ts[s]) !! Blocks(ts[k]);
    } else if k < s {
      assert Blocks(ts[k]) !! Blocks(ts[s]);
    }
  }

  /** The trees that a truncation to `n` logical blocks leaves. */
  ghost function CutAll(ts: seq<Tree>, ptrs: nat, n: nat): (r: seq<Tree>)
    requires ShapedAll(ts, ptrs)
    ensures |r| == BLOCKS
  {
    seq(BLOCKS, k requires 0 <= k < BLOCKS => Cut(ts[k], ptrs, LevelOf(k), n - BaseOf(ptrs, k)))
  }

  lemma CutAllStructure(ts: seq<Tree>, ptrs: nat, n: nat)
    requires ShapedAll(ts, ptrs) && UnsharedOf(ts)
    ensures var r := CutAll(ts, ptrs, n);
            && ShapedAll(r, ptrs) && UnsharedOf(r) && BlocksOf(r) <= BlocksOf(ts)
            && forall k :: 0 <= k < BLOCKS ==> Blocks(r[k]) <= Blocks(ts[k])
  {
    var r := CutAll(ts, ptrs, n);
    forall k | 0 <= k < BLOCKS
      ensures Shaped(r[k], ptrs, LevelOf(k)) && Unshared(r[k]) && Blocks(r[k]) <= Blocks(ts[k])
    {
      CutStructure(ts[k], ptrs, LevelOf(k), n - BaseOf(ptrs, k));
    }
    CutKidsUnshared(ts, r);
  }

  lemma MappedIs(ts: seq<Tree>, ptrs: nat, idx: nat)
    requires ShapedAll(ts, ptrs) && idx < Capacity(ptrs)
    ensures var k := SlotOf(ptrs, idx);
            Mapped(ts, ptrs, idx) == (SlotCovers(ptrs, idx); At(ts[k], ptrs, LevelOf(k), idx - BaseOf(ptrs, k)))
  {
  }

  lemma ShapedLength(ts: seq<Tree>, ptrs: nat)
    requires ShapedAll(ts, ptrs)
    ensures |ts| == BLOCKS
  {
  }

  lemma CutSlotAt(ts: seq<Tree>, ptrs: nat, n: nat, k: nat)
    requires ShapedAll(ts, ptrs) && UnsharedOf(ts) && k < BLOCKS
    ensures Shaped(ts[k], ptrs, LevelOf(k)) && Unshared(ts[k])
    ensures CutAll(ts, ptrs, n)[k] == Cut(ts[k], ptrs, LevelOf(k), n - BaseOf(ptrs, k))
    ensures Blocks(CutAll(ts, ptrs, n)[k]) <= Blocks(ts[k])
  {
    CutAllStructure(ts, ptrs, n);
    hide Blocks, BlocksOf, Unshared, Shaped, Cut, BaseOf, LevelOf;
  }

  /** Below the cut nothing moves; from the cut on the file is a hole. */
  lemma {:induction false} CutAllMapped(ts: seq<Tree>, ptrs: nat, n: nat, idx: nat)
    requires ShapedAll(ts, ptrs) && UnsharedOf(ts) && idx < Capacity(ptrs)
    ensures ShapedAll(CutAll(ts, ptrs, n), ptrs)
    ensures Mapped(CutAll(ts, ptrs, n), ptrs, idx) == if idx < n then Mapped(ts, ptrs, idx) else 0
  {
    hide *;
    CutAllStructure(ts, ptrs, n);
    SlotCovers(ptrs, idx);
    ShapedLength(ts, ptrs);
    var k := SlotOf(ptrs, idx);
    CutSlotAt(ts, ptrs, n, k);
    MappedIs(ts, ptrs, idx);
    MappedIs(CutAll(ts, ptrs, n), ptrs, idx);
    CutAt(ts[k], ptrs, LevelOf(k), n - BaseOf(ptrs, k), idx - BaseOf(ptrs, k));
  }

  /** The number of blocks released equals the drop in the inode's block count. */
  lemma CutAllCount(ts: seq<Tree>, ptrs: nat, n: nat)
    requires ShapedAll(ts, ptrs) && UnsharedOf(ts)
    ensures var r := CutAll(ts, ptrs, n);
            CountOf(ts) - CountOf(r) == |BlocksOf(ts) - BlocksOf(r)|
  {
    var r := CutAll(ts, ptrs, n);
    CutAllStructure(ts, ptrs, n);
    CountOfIsSize(ts);
    CountOfIsSize(r);
    assert BlocksOf(ts) == (BlocksOf(ts) - BlocksOf(r)) + BlocksOf(r);
  }

  /** A file whose blocks are not among the rewritten ones keeps its whole block map. */
  lemma {:induction false} TreesFrame(disk: Disk, disk': Disk, s: set<nat>, ptrs: nat, iblock: seq<nat>)
    requires |iblock| == BLOCKS && SameOutside(disk, disk', s) && s !! BlocksOf(Trees(disk, ptrs, iblock))
    ensures Trees(disk', ptrs, iblock) == Trees(disk, ptrs, iblock)
  {
    var ts := Trees(disk, ptrs, iblock);
    forall k | 0 <= k < BLOCKS
      ensures View(disk', ptrs, iblock[k], LevelOf(k)) == ts[k]
    {
      assert Blocks(ts[k]) <= BlocksOf(ts);
      ViewFrame(disk, disk', s, ptrs, iblock[k], LevelOf(k));
    }
  }
}
