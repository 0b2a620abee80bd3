/**
 The brkfs data-block allocator and block map (src/fs/brkfs/block.c, src/fs/brkfs/inode.c).
 Block I/O and memory allocation succeed; running out of data blocks is modelled.
 */
module Brkfs {
  import opened Arith
  import opened BlockTree
  import opened Truncation
  import opened Growth
  import Bitmap

  datatype Error = Ok | NoSpace | Invalid

  /** Bit `k` of a bitmap that runs over several blocks of `per` bits. */
  ghost predicate BitAt(bitmaps: seq<seq<bool>>, per: nat, k: nat)
    requires per > 0
  {
    k / per < |bitmaps| && k % per < |bitmaps[k / per]| && bitmaps[k / per][k % per]
  }

  lemma BitAtBlock(bitmaps: seq<seq<bool>>, per: nat, bno: nat, i: nat)
    requires bno < |bitmaps| && |bitmaps[bno]| == per && i < per
    ensures BitAt(bitmaps, per, Start(bno, per) + i) == bitmaps[bno][i]
  {
    DivModUnique(Start(bno, per) + i, per, bno, i);
  }

  /** Storing one bit of one bitmap block changes exactly that bit of the whole bitmap. */
  lemma BitAtStored(bitmaps: seq<seq<bool>>, per: nat, bno: nat, i: nat, v: bool, k: nat)
    requires bno < |bitmaps| && |bitmaps[bno]| == per && i < per
    ensures BitAt(bitmaps[bno := bitmaps[bno][i := v]], per, k) ==
            if k == Start(bno, per) + i then v else BitAt(bitmaps, per, k)
  {
    DivModUnique(Start(bno, per) + i, per, bno, i);
    assert k == k / per * per + k % per;
  }

  /** The number of `per`-bit blocks that `count` bits fill, rounding up (div_ceil). */
  function DivCeil(count: nat, per: nat): (q: nat)
    requires per > 0
  {
    (count + per - 1) / per
  }

  /** The first bit of bitmap block `bno`. */
  ghost function Start(bno: nat, per: nat): nat {
    bno * per
  }

  lemma StartDef(bno: nat, per: nat)
    ensures Start(bno, per) == bno * per
  {
  }

  lemma StartNext(bno: nat, per: nat)
    ensures Start(bno + 1, per) == Start(bno, per) + per
  {
  }

  lemma StartMonotone(i: nat, j: nat, per: nat)
    requires i <= j
    ensures Start(i, per) <= Start(j, per)
  {
    assert (j - i) * per >= 0;
    assert (j - i) * per == j * per - i * per;
  }

  /** DivCeil blocks are enough for `count` bits, and one block fewer is not. */
  lemma DivCeilBounds(count: nat, per: nat)
    requires per > 0
    ensures Start(DivCeil(count, per), per) >= count
    ensures DivCeil(count, per) > 0 ==> Start(DivCeil(count, per) - 1, per) < count
  {
    var q := DivCeil(count, per);
    assert count + per - 1 == q * per + (count + per - 1) % per;
    if q > 0 {
      StartNext(q - 1, per);
    }
  }

  class Volume {
    const ptrs: nat          // block pointers per pointer block
    const first: nat         // s_first_data_block
    const count: nat         // s_data_blocks_count
    const bitsPerBlock: nat  // s_bits_per_block

    var bitmaps: seq<seq<bool>>  // contents of the data bitmap's blocks
    var freeBlocks: int          // s_free_blocks
    var disk: Disk               // contents of the data area, as vectors of block numbers

    constructor (ptrs: nat, first: nat, count: nat, bitsPerBlock: nat, bitmaps: seq<seq<bool>>, freeBlocks: int,
                 disk: Disk)
      ensures this.ptrs == ptrs && this.first == first && this.count == count && this.bitsPerBlock == bitsPerBlock
      ensures this.bitmaps == bitmaps && this.freeBlocks == freeBlocks && this.disk == disk
    {
      this.ptrs, this.first, this.count, this.bitsPerBlock := ptrs, first, count, bitsPerBlock;
      this.bitmaps, this.freeBlocks, this.disk := bitmaps, freeBlocks, disk;
    }

    predicate ValidBno(bno: nat) {
      first <= bno < first + count
    }

    ghost function Area(): set<nat> {
      set b: nat | first <= b < first + count && ValidBno(b)
    }

    ghost predicate BitmapOk()
      reads `bitmaps
    {
      && first > 0
      && bitsPerBlock > 0
      && |bitmaps| >= 1
      && count <= |bitmaps| * bitsPerBlock
      && (forall i :: 0 <= i < |bitmaps| ==> |bitmaps[i]| == bitsPerBlock)
    }

    /** The data blocks whose bitmap bit is set. */
    ghost function Used(): set<nat>
      requires BitmapOk()
      reads `bitmaps
    {
      set b: nat | first <= b < first + count && ValidBno(b) && BitAt(bitmaps, bitsPerBlock, b - first)
    }

    /** The free counter agrees with the bitmap. */
    ghost predicate AllocOk()
      reads `bitmaps, `freeBlocks
      ensures AllocOk() ==> BitmapOk()
    {
      BitmapOk() && freeBlocks == count - |Used()|
    }

    /** One bitmap block: take the first clear bit among its first `n`. */
    method AllocInBlock(bno: nat, n: nat) returns (ok: bool, bit: nat)
      requires BitmapOk() && bno < |bitmaps| && n <= bitsPerBlock
      modifies `bitmaps
      ensures BitmapOk()
      ensures ok ==> Start(bno, bitsPerBlock) <= bit < Start(bno, bitsPerBlock) + n
      ensures ok ==> !BitAt(old(bitmaps), bitsPerBlock, bit)
      ensures ok ==>
              forall k: nat :: BitAt(bitmaps, bitsPerBlock, k) <==> k == bit || BitAt(old(bitmaps), bitsPerBlock, k)
      ensures !ok ==> bitmaps == old(bitmaps)
      ensures !ok ==> forall k: nat :: Start(bno, bitsPerBlock) <= k < Start(bno, bitsPerBlock) + n ==>
              BitAt(bitmaps, bitsPerBlock, k)
    {
      hide BitAt, Start;
      var per := bitsPerBlock;
      var content := bitmaps[bno];
      var block := new bool[per](i requires 0 <= i < |content| => content[i]);
      assert block[..] == content;
      var b;
      ok, b := Bitmap.AllocBit(block, n);
      bit := bno * per + b;
      assert bit == Start(bno, per) + b by { StartDef(bno, per); }
      if ok {
        BitAtBlock(bitmaps, per, bno, b);
        bitmaps := bitmaps[bno := block[..]];
        forall k: nat
          ensures BitAt(bitmaps, per, k) <==> k == bit || BitAt(old(bitmaps), per, k)
        {
          BitAtStored(old(bitmaps), per, bno, b, true, k);
        }
      } else {
        forall k: nat | Start(bno, per) <= k < Start(bno, per) + n
          ensures BitAt(bitmaps, per, k)
        {
          assert content[..n][k - Start(bno, per)] != false;
          BitAtBlock(bitmaps, per, bno, k - Start(bno, per));
        }
      }
    }

    method BitmapAlloc() returns (ok: bool, bit: nat)
      requires BitmapOk()
      modifies `bitmaps
      ensures BitmapOk()
      ensures ok ==> bit < count && !BitAt(old(bitmaps), bitsPerBlock, bit)
      ensures ok ==>
              forall k: nat :: BitAt(bitmaps, bitsPerBlock, k) <==> k == bit || BitAt(old(bitmaps), bitsPerBlock, k)
      ensures !ok ==> bitmaps == old(bitmaps) && forall k: nat :: k < count ==> BitAt(bitmaps, bitsPerBlock, k)
    {
      hide BitAt, Start, DivCeil;
      var per := bitsPerBlock;
      var nblks := DivCeil(count, per);
      DivCeilBounds(count, per);
      bit := 0;
      var bno := 0;
      var nbits := count;
      BitmapSpans();
      while true
        invariant bno == 0 || bno < nblks
        invariant bitmaps == old(bitmaps)
        invariant nbits == count - Start(bno, per)
        invariant forall k: nat :: k < Start(bno, per) ==> BitAt(bitmaps, per, k)
        decreases nblks - bno
      {
        var n := if nbits > per then per else nbits;
        ok, bit := AllocInBlock(bno, n);
        if ok {
          return;
        }
        nbits := nbits - n;
        StartNext(bno, per);
        bno := bno + 1;
        if bno >= nblks {
          break;
        }
        StartMonotone(bno, nblks - 1, per);
      }
    }

    lemma BitmapSpans()
      requires BitmapOk()
      ensures DivCeil(count, bitsPerBlock) <= |bitmaps|
      ensures Start(0, bitsPerBlock) == 0
    {
      DivCeilBounds(count, bitsPerBlock);
      var q := DivCeil(count, bitsPerBlock);
      if q > |bitmaps| {
        StartMonotone(|bitmaps|, q - 1, bitsPerBlock);
      }
    }

    lemma LocateBit(bit: nat)
      requires BitmapOk() && bit < count
      ensures bit / bitsPerBlock < |bitmaps|
      ensures Start(bit / bitsPerBlock, bitsPerBlock) <= bit < Start(bit / bitsPerBlock, bitsPerBlock) + bitsPerBlock
    {
      var q := bit / bitsPerBlock;
      assert bit == q * bitsPerBlock + bit % bitsPerBlock;
      if q >= |bitmaps| {
        StartMonotone(|bitmaps|, q, bitsPerBlock);
      }
    }

    /** brkfs_bitmap_free: clears the bit in whichever bitmap block holds it. */
    method BitmapFree(bit: nat) returns (err: Error)
      requires BitmapOk()
      modifies `bitmaps
      ensures BitmapOk()
      ensures err == if bit < count then Ok else Invalid
      ensures forall k: nat :: BitAt(bitmaps, bitsPerBlock, k) <==>
                               BitAt(old(bitmaps), bitsPerBlock, k) && !(k == bit && bit < count)
    {
      if bit >= count {
        return Invalid;
      }
      hide BitAt, Start;
      var per := bitsPerBlock;
      var bno := bit / per;
      var lb := bno * per;
      var n := if count - lb > per then per else count - lb;
      LocateBit(bit);
      assert lb == Start(bno, per) by { StartDef(bno, per); }
      var content := bitmaps[bno];
      var block := new bool[per](i requires 0 <= i < |content| => content[i]);
      assert block[..] == content;
      Bitmap.FreeBit(block, n, bit - lb);
      bitmaps := bitmaps[bno := block[..]];
      forall k: nat
        ensures BitAt(bitmaps, per, k) <==> BitAt(old(bitmaps), per, k) && k != bit
      {
        BitAtStored(old(bitmaps), per, bno, bit - lb, false, k);
      }
      err := Ok;
    }

    /** Takes a free data block; fails only when every data block is in use. */
    method DataAlloc() returns (err: Error, bno: nat)
      requires AllocOk()
      modifies `bitmaps, `freeBlocks
      ensures AllocOk()
      ensures err == Ok || err == NoSpace
      ensures err == Ok ==> ValidBno(bno) && bno !in old(Used()) && Used() == old(Used()) + {bno}
      ensures err == NoSpace ==> Used() == old(Used()) == Area() && freeBlocks == 0
    {
      hide BitAt;
      var ok, bit := BitmapAlloc();
      if !ok {
        assert Used() == Area();
        AreaSize();
        return NoSpace, 0;
      }
      bno := first + bit;
      assert bno !in old(Used());
      assert Used() == old(Used()) + {bno};
      UsedFits();
      if freeBlocks > 0 {
        freeBlocks := freeBlocks - 1;
      }
      err := Ok;
    }

    lemma AreaSize()
      ensures |Area()| == count
    {
      var n := 0;
      var s: set<nat> := {};
      while n < count
        invariant n <= count && |s| == n
        invariant forall b: nat :: b in s <==> first <= b < first + n
      {
        s := s + {first + n};
        n := n + 1;
      }
      assert s == Area();
    }

    lemma UsedFits()
      requires BitmapOk()
      ensures |Used()| <= count
    {
      AreaSize();
      SubsetSize(Used(), Area());
    }

    /**
     Clears the block's bit. The counter goes up even when the bit was already clear, so the
     counter stays exact if and only if the block was in use.
     */
    method DataFree(bno: nat) returns (err: Error)
      requires BitmapOk()
      modifies `bitmaps, `freeBlocks
      ensures BitmapOk()
      ensures err == if ValidBno(bno) then Ok else Invalid
      ensures Used() == old(Used()) - {bno}
      ensures freeBlocks == old(freeBlocks) + if ValidBno(bno) then 1 else 0
      ensures old(AllocOk()) && ValidBno(bno) ==> (AllocOk() <==> bno in old(Used()))
    {
      hide BitAt;
      if bno < first || bno >= first + count {
        return Invalid;
      }
      var bit := bno - first;
      err := BitmapFree(bit);
      assert Used() == old(Used()) - {bno};
      if err == Ok {
        freeBlocks := freeBlocks + 1;
      }
    }

    /** Every data block has contents, and read as pointers there are `ptrs` of them. */
    ghost predicate DiskOk(disk: Disk)
    {
      forall b: nat :: ValidBno(b) ==> b in disk && |disk[b]| == ptrs
    }

    /** brkfs_free_tree: releases every block of the tree, pointer blocks included. */
    method FreeTree(bno: nat, level: nat, ghost t: Tree)
      requires AllocOk() && DiskOk(disk)
      requires t == View(disk, ptrs, bno, level) && Unshared(t) && Blocks(t) <= Used()
      modifies `bitmaps, `freeBlocks
      ensures AllocOk()
      ensures Used() == old(Used()) - Blocks(t)
      decreases level, 1
    {
      ViewRoot(disk, ptrs, bno, level);
      hide View, BlocksOf, UnsharedOf, BitAt;
      if bno == 0 || !ValidBno(bno) {
        return;
      }
      if level > 0 {
        FreeChildren(bno, level, t);
      }
      var _ := DataFree(bno);
    }

    method FreeChildren(bno: nat, level: nat, ghost t: Tree)
      requires AllocOk() && DiskOk(disk) && ValidBno(bno) && bno != 0 && level > 0
      requires t == View(disk, ptrs, bno, level) && Unshared(t) && Blocks(t) <= Used()
      modifies `bitmaps, `freeBlocks
      ensures AllocOk()
      ensures t.Node? && Used() == old(Used()) - BlocksOf(t.kids)
      decreases level, 0
    {
      hide *;
      ViewNode(disk, ptrs, bno, level);
      UnsharedNode(t);
      BlocksOfNone(t.kids);
      DiskAt(disk, bno);
      var children := disk[bno];
      for i := 0 to ptrs
        invariant AllocOk()
        invariant Used() == old(Used()) - BlocksOf(t.kids[..i])
      {
        BlocksOfSplit(t.kids, i);
        UnsharedSplit(t.kids, i);
        ViewKid(disk, ptrs, bno, level, i);
        if children[i] != 0 {
          FreeTree(children[i], level - 1, t.kids[i]);
        }
      }
      assert t.kids[..ptrs] == t.kids;
    }

    /**
     brkfs_free_indirect_range: frees the part of the subtree at and above `freeFrom`, rewriting
     the pointer block that straddles the cut. The subtree covers [base, end).
     */
    method FreeIndirectRange(root: nat, level: nat, base: nat, end: nat, freeFrom: nat, ghost t: Tree)
      returns (root': nat, keep: bool)
      requires AllocOk() && DiskOk(disk) && level > 0
      requires t == View(disk, ptrs, root, level) && Unshared(t) && Blocks(t) <= Used()
      requires end == base + Span(ptrs, level)
      modifies `bitmaps, `freeBlocks, `disk
      ensures AllocOk() && DiskOk(disk)
      ensures View(disk, ptrs, root', level) == Cut(t, ptrs, level, freeFrom - base)
      ensures keep <==> root' != 0
      ensures Used() == old(Used()) - (Blocks(t) - Blocks(Cut(t, ptrs, level, freeFrom - base)))
      ensures SameOutside(old(disk), disk, Pointers(t))
      decreases level, 1
    {
      hide *;
      ghost var c := freeFrom - base;
      ViewRoot(disk, ptrs, root, level);
      CutTrivial(t, ptrs, level, c);
      UsedValid();
      SameOutsideRefl(disk, Pointers(t));
      if root == 0 {
        return root, false;
      }
      if !ValidBno(root) {
        assert false;
      }
      if base >= freeFrom {
        FreeTree(root, level, t);
        ViewRoot(disk, ptrs, 0, level);
        return 0, false;
      }
      if end <= freeFrom {
        return root, true;
      }
      root', keep := CutStraddled(root, level, base, freeFrom, t);
    }

    /** The case of a pointer block that covers the cut. */
    method CutStraddled(root: nat, level: nat, base: nat, freeFrom: nat, ghost t: Tree)
      returns (root': nat, keep: bool)
      requires AllocOk() && DiskOk(disk) && level > 0 && root != 0 && ValidBno(root)
      requires t == View(disk, ptrs, root, level) && Unshared(t) && Blocks(t) <= Used()
      requires base < freeFrom < base + Span(ptrs, level)
      modifies `bitmaps, `freeBlocks, `disk
      ensures AllocOk() && DiskOk(disk)
      ensures View(disk, ptrs, root', level) == Cut(t, ptrs, level, freeFrom - base)
      ensures keep <==> root' != 0
      ensures Used() == old(Used()) - (Blocks(t) - Blocks(Cut(t, ptrs, level, freeFrom - base)))
      ensures SameOutside(old(disk), disk, Pointers(t))
      decreases level, 0, 1
    {
      hide *;
      ghost var c := freeFrom - base;
      ViewNode(disk, ptrs, root, level);
      CutNode(t, ptrs, level, c);
      UnsharedNode(t);
      ghost var cut := CutKids(t.kids, ptrs, level, c);
      DiskAt(disk, root);
      var children, anyKeep, changed := FreeSlots(root, level, base, freeFrom, t);
      ghost var mid := disk;
      DiskAt(disk, root);
      PointersOfInside(t.kids);
      RowAt(old(disk), mid, PointersOf(t.kids), root);
      if changed {
        disk := disk[root := children];
      }
      assert disk == mid[root := children];
      DiskStored(mid, root, children);
      StoredNode(mid, root, children, ptrs, level, cut);
      PointersNode(t);
      SameOutsideWiden(old(disk), mid, PointersOf(t.kids), Pointers(t));
      SameOutsideTrans(old(disk), mid, disk, Pointers(t), {root});
      NodeBlocks(root, cut);
      SetsKept(old(Used()), root, BlocksOf(t.kids), BlocksOf(cut));
      keep := anyKeep;
      if anyKeep {
        root' := root;
      } else {
        var _ := DataFree(root);
        root' := 0;
        ViewRoot(disk, ptrs, 0, level);
      }
    }

    /** brkfs_indirect_span. */
    method IndirectSpan(level: nat) returns (span: nat)
      ensures span == Span(ptrs, level)
    {
      span := 1;
      for i := 0 to level
        invariant span == Span(ptrs, i)
      {
        span := span * ptrs;
      }
    }

    /** The first `n` slots have been cut and the others still hold their original subtrees. */
    ghost predicate SlotsOk(d: Disk, children: seq<nat>, level: nat, kids: seq<Tree>, cut: seq<Tree>, n: nat) {
      && |children| == ptrs == |kids| == |cut| && level > 0
      && forall j :: 0 <= j < ptrs ==> View(d, ptrs, children[j], level - 1) == if j < n then cut[j] else kids[j]
    }

    lemma InitSlots(d: Disk, root: nat, level: nat, children: seq<nat>, t: Tree, cut: seq<Tree>)
      requires root != 0 && level > 0 && root in d && |d[root]| == ptrs && children == d[root]
      requires t == View(d, ptrs, root, level) && |cut| == ptrs
      ensures t.Node? && SlotsOk(d, children, level, t.kids, cut, 0)
      ensures BlocksOf(t.kids[..0]) == BlocksOf(cut[..0]) == {} && AllHoles(cut[..0])
    {
      forall j | 0 <= j < ptrs
        ensures View(d, ptrs, children[j], level - 1) == t.kids[j]
      {
        ViewKid(d, ptrs, root, level, j);
      }
    }

    /** Cutting one slot leaves the others as they were. */
    lemma SlotStep(d: Disk, d': Disk, children: seq<nat>, children': seq<nat>, level: nat,
                   kids: seq<Tree>, cut: seq<Tree>, i: nat)
      requires SlotsOk(d, children, level, kids, cut, i) && i < ptrs
      requires UnsharedOf(kids) && forall j :: 0 <= j < ptrs ==> Blocks(cut[j]) <= Blocks(kids[j])
      requires SameOutside(d, d', Blocks(kids[i]))
      requires |children'| == ptrs && forall j :: 0 <= j < ptrs && j != i ==> children'[j] == children[j]
      requires View(d', ptrs, children'[i], level - 1) == cut[i]
      ensures SlotsOk(d', children', level, kids, cut, i + 1)
    {
      forall j | 0 <= j < ptrs && j != i
        ensures View(d', ptrs, children'[j], level - 1) == if j < i then cut[j] else kids[j]
      {
        assert Blocks(kids[i]) !! Blocks(kids[j]);
        ViewFrame(d, d', Blocks(kids[i]), ptrs, children[j], level - 1);
      }
    }

    lemma SlotsDone(d: Disk, children: seq<nat>, level: nat, kids: seq<Tree>, cut: seq<Tree>)
      requires SlotsOk(d, children, level, kids, cut, ptrs)
      ensures forall i :: 0 <= i < ptrs ==> View(d, ptrs, children[i], level - 1) == cut[i]
      ensures kids[..ptrs] == kids && cut[..ptrs] == cut
    {
    }

    lemma SlotAt(d: Disk, children: seq<nat>, level: nat, kids: seq<Tree>, cut: seq<Tree>, i: nat)
      requires SlotsOk(d, children, level, kids, cut, i) && i < ptrs
      ensures View(d, ptrs, children[i], level - 1) == kids[i]
      ensures Unshared(Hole)
    {
    }

    /** The loop over the slots of the straddling pointer block. */
    method FreeSlots(root: nat, level: nat, base: nat, freeFrom: nat, ghost t: Tree)
      returns (children: seq<nat>, anyKeep: bool, changed: bool)
      requires AllocOk() && DiskOk(disk) && level > 0 && root != 0 && ValidBno(root)
      requires t == View(disk, ptrs, root, level) && Unshared(t) && Blocks(t) <= Used() && t.Node?
      requires base < freeFrom < base + Span(ptrs, level)
      modifies `bitmaps, `freeBlocks, `disk
      ensures AllocOk() && DiskOk(disk)
      ensures |children| == ptrs && ValidBno(root) && (!changed ==> children == old(disk)[root])
      ensures forall i :: 0 <= i < ptrs ==> Shaped(t.kids[i], ptrs, level - 1)
      ensures |t.kids| == ptrs
      ensures var cut := CutKids(t.kids, ptrs, level, freeFrom - base);
              && (anyKeep <==> !AllHoles(cut))
              && Used() == old(Used()) - (BlocksOf(t.kids) - BlocksOf(cut))
              && forall i :: 0 <= i < ptrs ==> View(disk, ptrs, children[i], level - 1) == cut[i]
      ensures SameOutside(old(disk), disk, PointersOf(t.kids))
      decreases level, 0, 0
    {
      hide *;
      var childSpan := IndirectSpan(level - 1);
      ghost var c := freeFrom - base;
      ViewNode(disk, ptrs, root, level);
      CutNode(t, ptrs, level, c);
      UnsharedNode(t);
      ghost var cut := CutKids(t.kids, ptrs, level, c);
      DiskAt(disk, root);
      children := disk[root];
      anyKeep, changed := false, false;
      InitSlots(disk, root, level, children, t, cut);
      SameOutsideRefl(disk, PointersOf(t.kids));
      CutKidsBlocks(t, ptrs, level, c);
      SpanPositive(ptrs, level - 1);
      for i := 0 to ptrs
        invariant AllocOk() && DiskOk(disk)
        invariant |children| == ptrs && SlotsOk(disk, children, level, t.kids, cut, i)
        invariant anyKeep <==> !AllHoles(cut[..i])
        invariant !changed ==> children == old(disk)[root]
        invariant Used() == old(Used()) - (BlocksOf(t.kids[..i]) - BlocksOf(cut[..i]))
        invariant BlocksOf(cut[..i]) <= BlocksOf(t.kids[..i]) <= BlocksOf(t.kids)
        invariant SameOutside(old(disk), disk, PointersOf(t.kids))
      {
        var childBase := base + i * childSpan;
        var childEnd := childBase + childSpan;
        var child := children[i];
        CutKidAt(t, ptrs, level, c, i);
        UnsharedSplit(t.kids, i);
        BlocksOfSplit(t.kids, i);
        BlocksOfSplit(cut, i);
        AllHolesSplit(cut, i);
        SlotAt(disk, children, level, t.kids, cut, i);
        SetsStep(old(Used()), BlocksOf(t.kids[..i]), BlocksOf(cut[..i]), Blocks(t.kids[i]), Blocks(cut[i]));
        CutTrivial(t.kids[i], ptrs, level - 1, freeFrom - childBase);
        ViewRoot(disk, ptrs, child, level - 1);
        SameOutsideRefl(disk, Blocks(t.kids[i]));
        ghost var before, childrenBefore := disk, children;
        if child != 0 {
          if childBase >= freeFrom {
            FreeTree(child, level - 1, t.kids[i]);
            children := children[i := 0];
            changed := true;
          } else if childEnd <= freeFrom {
            anyKeep := true;
          } else {
            var child', childKeep := FreeIndirectRange(child, level - 1, childBase, childEnd, freeFrom, t.kids[i]);
            children := children[i := child'];
            changed := true;
            if childKeep {
              anyKeep := true;
            }
            PointersAt(t.kids, i);
            SameOutsideTrans(old(disk), before, disk, PointersOf(t.kids), Pointers(t.kids[i]));
            PointersAreBlocks(t.kids[i]);
            SameOutsideWiden(before, disk, Pointers(t.kids[i]), Blocks(t.kids[i]));
          }
        }
        ViewRoot(disk, ptrs, children[i], level - 1);
        SlotStep(before, disk, childrenBefore, children, level, t.kids, cut, i);
      }
      SlotsDone(disk, children, level, t.kids, cut);
    }

    /** brkfs_alloc_zeroed_block. */
    method AllocZeroed() returns (err: Error, bno: nat)
      requires AllocOk() && DiskOk(disk)
      modifies `bitmaps, `freeBlocks, `disk
      ensures AllocOk() && DiskOk(disk)
      ensures err == Ok || err == NoSpace
      ensures err == Ok ==> bno != 0 && ValidBno(bno) && bno !in old(Used()) && Used() == old(Used()) + {bno}
      ensures err == Ok ==> disk == old(disk)[bno := Zeros(ptrs)]
      ensures err == NoSpace ==> Used() == old(Used()) == Area() && disk == old(disk)
    {
      err, bno := DataAlloc();
      if err == Ok {
        disk := disk[bno := Zeros(ptrs)];
      }
    }

    /** brkfs_set_ptr_if_zero: an already filled slot wins and the new block is given back. */
    method SetPtrIfZero(bno: nat, index: nat, newBno: nat) returns (out: nat)
      requires AllocOk() && DiskOk(disk) && ValidBno(bno) && index < ptrs && ValidBno(newBno) && newBno in Used()
      modifies `bitmaps, `freeBlocks, `disk
      ensures AllocOk() && DiskOk(disk) && bno in old(disk) && |old(disk)[bno]| == ptrs
      ensures old(disk)[bno][index] == 0 ==>
                && out == newBno && disk == old(disk)[bno := WithPtr(old(disk)[bno], index, newBno)]
                && Used() == old(Used())
      ensures old(disk)[bno][index] != 0 ==>
                out == old(disk)[bno][index] && disk == old(disk) && Used() == old(Used()) - {newBno}
    {
      var row := disk[bno];
      if row[index] == 0 {
        disk := disk[bno := WithPtr(row, index, newBno)];
        out := newBno;
      } else {
        out := row[index];
        var _ := DataFree(newBno);
      }
    }

    /** Fill an empty slot of a pointer block with a fresh subtree of the level below. */
    method FillSlot(b: nat, level: nat, idx: nat, k: nat, ghost t: Tree) returns (err: Error, child: nat)
      requires AllocOk() && DiskOk(disk) && ValidBno(b) && b != 0 && level > 0
      requires t == View(disk, ptrs, b, level) && Unshared(t) && Blocks(t) <= Used()
      requires idx < Span(ptrs, level) && Span(ptrs, level - 1) > 0 && k == idx / Span(ptrs, level - 1) && k < ptrs
      requires b in disk && |disk[b]| == ptrs && disk[b][k] == 0
      modifies `bitmaps, `freeBlocks, `disk
      ensures AllocOk() && DiskOk(disk)
      ensures err == Ok || err == NoSpace
      ensures err == NoSpace ==> disk == old(disk) && Used() == old(Used()) == Area()
      ensures err == Ok ==> child != 0 && ValidBno(child) && child !in old(Used())
      ensures err == Ok ==>
                && |t.kids| == ptrs
                && View(disk, ptrs, b, level) == Node(b, t.kids[k := Fresh(child, ptrs, level - 1)])
                && View(disk, ptrs, child, level - 1) == Fresh(child, ptrs, level - 1)
                && |Row(disk, b)| == ptrs && Slot(disk, b, k) == child
                && Grown(t, View(disk, ptrs, b, level), ptrs, level, idx, old(Used()), Used())
                && SameOutside(old(disk), disk, if level == 1 then {b} else {b, child})
    {
      hide *;
      ViewNode(disk, ptrs, b, level);
      ViewKid(disk, ptrs, b, level, k);
      var newBno;
      if level == 1 {
        err, newBno := DataAlloc();
        NotZero();
      } else {
        err, newBno := AllocZeroed();
      }
      if err != Ok {
        return err, 0;
      }
      ghost var mid := disk;
      assert b in mid && |mid[b]| == ptrs by { DiskAt(mid, b); }
      assert mid[b] == old(disk)[b];
      child := SetPtrIfZero(b, k, newBno);
      FilledSlot(old(disk), mid, disk, b, level, idx, k, child, t, old(Used()));
    }

    /** The state a lookup of logical block `idx` below slot value `root` leaves behind. */
    ghost predicate LookedUp(t: Tree, t': Tree, level: nat, idx: nat, create: bool, u: set<nat>, u': set<nat>,
                             d: Disk, d': Disk, err: Error, out: nat)
    {
      && idx < Span(ptrs, level)
      && Grown(t, t', ptrs, level, idx, u, u')
      && SameOutside(d, d', Pointers(t'))
      && (err == Ok || err == NoSpace)
      && (err == Ok ==> out == At(t', ptrs, level, idx) && (create ==> out != 0))
      && (err == NoSpace ==> create && At(t', ptrs, level, idx) == 0 && u' == Area())
      && (!create || At(t, ptrs, level, idx) != 0 ==> err == Ok && t' == t && d' == d && u' == u)
    }

    /** brkfs_get_leaf: the data block in a slot of a level-1 pointer block. */
    method GetLeaf(parent: nat, index: nat, create: bool, ghost t: Tree) returns (err: Error, out: nat)
      requires AllocOk() && DiskOk(disk) && ValidBno(parent) && parent != 0 && index < Span(ptrs, 1)
      requires t == View(disk, ptrs, parent, 1) && Unshared(t) && Blocks(t) <= Used()
      modifies `bitmaps, `freeBlocks, `disk
      ensures AllocOk() && DiskOk(disk)
      ensures LookedUp(t, View(disk, ptrs, parent, 1), 1, index, create, old(Used()), Used(), old(disk), disk, err, out)
    {
      Digit(ptrs, 1, index);
      LeafIndex(index);
      hide *;
      DiskAt(disk, parent);
      ViewKid(disk, ptrs, parent, 1, index);
      out := disk[parent][index];
      err := Ok;
      if out != 0 || !create {
        LeafFound(disk, parent, index, create, t, Used());
        return;
      }
      err, out := FillSlot(parent, 1, index, index, t);
      if err == Ok {
        LeafFilled(old(disk), disk, parent, index, out, t, old(Used()), Used());
      } else {
        LeafFull(disk, parent, index, t, Used());
        out := 0;
      }
    }

    lemma LeafIndex(index: nat)
      requires index < Span(ptrs, 1)
      ensures Span(ptrs, 0) == 1 && index / Span(ptrs, 0) == index && index % Span(ptrs, 0) == 0 && index < ptrs
    {
      SpanPositive(ptrs, 1);
    }

    lemma LeafFound(d: Disk, parent: nat, index: nat, create: bool, t: Tree, u: set<nat>)
      requires DiskOk(d) && ValidBno(parent) && parent != 0 && index < Span(ptrs, 1)
      requires t == View(d, ptrs, parent, 1) && Unshared(t) && Blocks(t) <= u
      requires index < ptrs && parent in d && |d[parent]| == ptrs && (d[parent][index] != 0 || !create)
      ensures LookedUp(t, t, 1, index, create, u, u, d, d, Ok, d[parent][index])
    {
      LeafIndex(index);
      KidAt(t, ptrs, 1, index);
      ViewKid(d, ptrs, parent, 1, index);
      GrownRefl(t, ptrs, 1, index, u);
    }

    lemma LeafFull(d: Disk, parent: nat, index: nat, t: Tree, u: set<nat>)
      requires DiskOk(d) && ValidBno(parent) && parent != 0 && index < Span(ptrs, 1)
      requires t == View(d, ptrs, parent, 1) && Unshared(t) && Blocks(t) <= u && u == Area()
      requires index < ptrs && parent in d && |d[parent]| == ptrs && d[parent][index] == 0
      ensures LookedUp(t, t, 1, index, true, u, u, d, d, NoSpace, 0)
    {
      LeafIndex(index);
      KidAt(t, ptrs, 1, index);
      ViewKid(d, ptrs, parent, 1, index);
      GrownRefl(t, ptrs, 1, index, u);
    }

    lemma LeafFilled(d: Disk, d': Disk, parent: nat, index: nat, out: nat, t: Tree, u: set<nat>, u': set<nat>)
      requires DiskOk(d) && ValidBno(parent) && parent != 0 && index < Span(ptrs, 1) && out != 0
      requires t == View(d, ptrs, parent, 1) && Unshared(t) && Blocks(t) <= u
      requires index < ptrs && parent in d && |d[parent]| == ptrs && d[parent][index] == 0
      requires |t.kids| == ptrs && View(d', ptrs, parent, 1) == Node(parent, t.kids[index := Fresh(out, ptrs, 0)])
      requires Grown(t, View(d', ptrs, parent, 1), ptrs, 1, index, u, u')
      requires SameOutside(d, d', {parent})
      ensures LookedUp(t, View(d', ptrs, parent, 1), 1, index, true, u, u', d, d', Ok, out)
    {
      var t' := View(d', ptrs, parent, 1);
      LeafIndex(index);
      KidAt(t, ptrs, 1, index);
      KidAt(t', ptrs, 1, index);
      ViewKid(d, ptrs, parent, 1, index);
      FreshBlocks(out, ptrs, 0);
      SameOutsideWiden(d, d', {parent}, Pointers(t'));
    }

    /**
     brkfs_indirect_lookup: the physical block of logical block `idx` below `root`, allocating
     the missing blocks on the way down when `create` is set.
     */
    method IndirectLookup(root: nat, level: nat, idx: nat, create: bool, ghost t: Tree)
      returns (err: Error, root': nat, out: nat)
      requires AllocOk() && DiskOk(disk) && level > 0 && idx < Span(ptrs, level)
      requires t == View(disk, ptrs, root, level) && Unshared(t) && Blocks(t) <= Used()
      modifies `bitmaps, `freeBlocks, `disk
      ensures AllocOk() && DiskOk(disk)
      ensures LookedUp(t, View(disk, ptrs, root', level), level, idx, create, old(Used()), Used(), old(disk), disk, err,
                       out)
      ensures root != 0 ==> root' == root
      decreases level, 1
    {
      hide *;
      ViewRoot(disk, ptrs, root, level);
      UsedValid();
      root' := root;
      if root == 0 {
        if !create {
          NothingThere(disk, level, idx, false, t, Used());
          return Ok, 0, 0;
        }
        err, root' := AllocZeroed();
        if err != Ok {
          NothingThere(disk, level, idx, true, t, Used());
          return err, 0, 0;
        }
        ghost var d1, u1 := disk, Used();
        RootMade(old(disk), d1, level, idx, root', old(Used()));
        err, out := LookupInNode(root', level, idx, create, Fresh(root', ptrs, level));
        RootThen(old(disk), d1, disk, level, idx, root', View(disk, ptrs, root', level), old(Used()), u1, Used(), err,
                 out);
        return;
      }
      err, out := LookupInNode(root, level, idx, create, t);
    }

    lemma NothingThere(d: Disk, level: nat, idx: nat, create: bool, t: Tree, u: set<nat>)
      requires t == Hole == View(d, ptrs, 0, level) && idx < Span(ptrs, level) && (create ==> u == Area())
      ensures LookedUp(t, View(d, ptrs, 0, level), level, idx, create, u, u, d, d, if create then NoSpace else Ok, 0)
    {
    }

    lemma RootMade(d: Disk, d1: Disk, level: nat, idx: nat, b: nat, u: set<nat>)
      requires level > 0 && idx < Span(ptrs, level) && b != 0 && b !in u && d1 == d[b := Zeros(ptrs)]
      ensures View(d1, ptrs, b, level) == Fresh(b, ptrs, level)
      ensures Unshared(Fresh(b, ptrs, level)) && Blocks(Fresh(b, ptrs, level)) == {b}
      ensures Grown(Hole, Fresh(b, ptrs, level), ptrs, level, idx, u, u + {b})
      ensures SameOutside(d, d1, {b})
    {
      FreshView(d1, ptrs, b, level);
      FreshBlocks(b, ptrs, level);
      GrownFresh(b, ptrs, level, idx, u);
    }

    lemma RootThen(d: Disk, d1: Disk, d2: Disk, level: nat, idx: nat, b: nat, t2: Tree,
                   u: set<nat>, u1: set<nat>, u2: set<nat>, err: Error, out: nat)
      requires level > 0 && idx < Span(ptrs, level) && Grown(Hole, Fresh(b, ptrs, level), ptrs, level, idx, u, u1)
      requires SameOutside(d, d1, {b})
      requires LookedUp(Fresh(b, ptrs, level), t2, level, idx, true, u1, u2, d1, d2, err, out)
      ensures LookedUp(Hole, t2, level, idx, true, u, u2, d, d2, err, out)
    {
      FreshBlocks(b, ptrs, level);
      GrownTrans(Hole, Fresh(b, ptrs, level), t2, ptrs, level, idx, u, u1, u2);
      SameOutsideWiden(d, d1, {b}, Pointers(t2));
      SameOutsideTrans(d, d1, d2, Pointers(t2), Pointers(t2));
    }

    /** The part of the lookup below an existing pointer block. */
    method LookupInNode(root: nat, level: nat, idx: nat, create: bool, ghost t: Tree) returns (err: Error, out: nat)
      requires AllocOk() && DiskOk(disk) && level > 0 && idx < Span(ptrs, level) && root != 0 && ValidBno(root)
      requires t == View(disk, ptrs, root, level) && Unshared(t) && Blocks(t) <= Used()
      modifies `bitmaps, `freeBlocks, `disk
      ensures AllocOk() && DiskOk(disk)
      ensures LookedUp(t, View(disk, ptrs, root, level), level, idx, create, old(Used()), Used(), old(disk), disk, err,
                       out)
      decreases level, 0
    {
      hide *;
      if level == 1 {
        err, out := GetLeaf(root, idx, create, t);
        return;
      }
      var shift := IndirectSpan(level - 1);
      Digit(ptrs, level, idx);
      var top, next := idx / shift, idx % shift;
      DiskAt(disk, root);
      ViewNode(disk, ptrs, root, level);
      ViewKid(disk, ptrs, root, level, top);
      var child := disk[root][top];
      if child == 0 {
        EmptySlot(disk, root, level, idx, top, t, Used());
        if !create {
          return Ok, 0;
        }
        err, child := FillSlot(root, level, idx, top, t);
        if err != Ok {
          out := 0;
          return;
        }
        ghost var t1, d1, u1 := View(disk, ptrs, root, level), disk, Used();
        Filled(old(disk), d1, root, level, idx, top, child, t, old(Used()), u1);
        ghost var child';
        err, child', out := IndirectLookup(child, level - 1, next, create, Fresh(child, ptrs, level - 1));
        Descend(d1, disk, root, level, idx, top, child, create, t1, u1, Used(), err, out);
        FilledThen(old(disk), d1, disk, root, level, idx, child, t, t1, View(disk, ptrs, root, level), old(Used()), u1,
                   Used(), err, out);
      } else {
        UnsharedNode(t);
        UnsharedSplit(t.kids, top);
        ghost var child';
        err, child', out := IndirectLookup(child, level - 1, next, create, t.kids[top]);
        Descend(old(disk), disk, root, level, idx, top, child, create, t, old(Used()), Used(), err, out);
      }
    }

    lemma EmptySlot(d: Disk, root: nat, level: nat, idx: nat, k: nat, t: Tree, u: set<nat>)
      requires level > 0 && root != 0 && idx < Span(ptrs, level) && Span(ptrs, level - 1) > 0
      requires k == idx / Span(ptrs, level - 1) && k < ptrs && Slot(d, root, k) == 0
      requires t == View(d, ptrs, root, level) && Unshared(t) && Blocks(t) <= u
      ensures LookedUp(t, t, level, idx, false, u, u, d, d, Ok, 0)
      ensures u == Area() ==> LookedUp(t, t, level, idx, true, u, u, d, d, NoSpace, 0)
      ensures At(t, ptrs, level, idx) == 0
    {
      ViewKid(d, ptrs, root, level, k);
      KidAt(t, ptrs, level, idx);
      GrownRefl(t, ptrs, level, idx, u);
    }

    /** After filling a slot: the facts the descent needs. */
    lemma Filled(d: Disk, d1: Disk, root: nat, level: nat, idx: nat, k: nat, child: nat, t: Tree, u: set<nat>,
                 u1: set<nat>)
      requires level > 1 && k < ptrs && t.Node? && |t.kids| == ptrs && child != 0
      requires View(d1, ptrs, root, level) == Node(root, t.kids[k := Fresh(child, ptrs, level - 1)])
      requires Grown(t, View(d1, ptrs, root, level), ptrs, level, idx, u, u1)
      ensures var t1 := View(d1, ptrs, root, level);
              && Unshared(t1) && Blocks(t1) <= u1
              && Unshared(Fresh(child, ptrs, level - 1)) && Blocks(Fresh(child, ptrs, level - 1)) == {child}
              && child in u1 && child in Pointers(t1) && root in Pointers(t1)
    {
      var t1 := View(d1, ptrs, root, level);
      GrownFacts(t, t1, ptrs, level, idx, u, u1);
      FreshBlocks(child, ptrs, level - 1);
      ReplaceKidPointers(root, t.kids, k, Fresh(child, ptrs, level - 1));
      PointersAreBlocks(t1);
    }

    lemma FilledThen(d: Disk, d1: Disk, d2: Disk, root: nat, level: nat, idx: nat, child: nat, t: Tree, t1: Tree,
                     t2: Tree,
                     u: set<nat>, u1: set<nat>, u2: set<nat>, err: Error, out: nat)
      requires idx < Span(ptrs, level) && Grown(t, t1, ptrs, level, idx, u, u1) && At(t, ptrs, level, idx) == 0
      requires SameOutside(d, d1, {root, child}) && child in Pointers(t1) && root in Pointers(t1)
      requires LookedUp(t1, t2, level, idx, true, u1, u2, d1, d2, err, out)
      ensures LookedUp(t, t2, level, idx, true, u, u2, d, d2, err, out)
    {
      GrownTrans(t, t1, t2, ptrs, level, idx, u, u1, u2);
      SameOutsideWiden(d, d1, {root, child}, Pointers(t2));
      SameOutsideTrans(d, d1, d2, Pointers(t2), Pointers(t2));
    }

    /** A lookup below one slot is a lookup in the node. */
    lemma Descend(d: Disk, d': Disk, root: nat, level: nat, idx: nat, k: nat, child: nat, create: bool, t: Tree,
                  u: set<nat>, u': set<nat>, err: Error, out: nat)
      requires level > 1 && root != 0 && idx < Span(ptrs, level) && Span(ptrs, level - 1) > 0
      requires k == idx / Span(ptrs, level - 1) && k < ptrs
      requires |Row(d, root)| == ptrs && Slot(d, root, k) == child
      requires t == View(d, ptrs, root, level) && Unshared(t) && Blocks(t) <= u
      requires LookedUp(View(d, ptrs, child, level - 1), View(d', ptrs, child, level - 1), level - 1,
                        idx % Span(ptrs, level - 1), create, u, u', d, d', err, out)
      ensures LookedUp(t, View(d', ptrs, root, level), level, idx, create, u, u', d, d', err, out)
    {
      ViewNode(d, ptrs, root, level);
      ViewKid(d, ptrs, root, level, k);
      UnsharedNode(t);
      UnsharedSplit(t.kids, k);
      var kid, kid' := t.kids[k], View(d', ptrs, child, level - 1);
      var r := idx % Span(ptrs, level - 1);
      hide View, BlocksOf, UnsharedOf, Unshared, Shaped;
      GrownFacts(kid, kid', ptrs, level - 1, r, u, u');
      DescendView(d, d', root, level, k, child, t, kid', u);
      var t' := Node(root, t.kids[k := kid']);
      GrownKid(t, k, kid', ptrs, level, idx, u, u');
      GrownKidAt(t, k, kid', ptrs, level, idx, u, u');
      KidAt(t, ptrs, level, idx);
    }

    lemma DescendView(d: Disk, d': Disk, root: nat, level: nat, k: nat, child: nat, t: Tree, kid': Tree, u: set<nat>)
      requires level > 1 && root != 0 && k < ptrs && |Row(d, root)| == ptrs && Slot(d, root, k) == child
      requires t == View(d, ptrs, root, level) && Unshared(t) && Blocks(t) <= u
      requires kid' == View(d', ptrs, child, level - 1)
      requires var kid := View(d, ptrs, child, level - 1);
               Blocks(kid) <= Blocks(kid') && (Blocks(kid') - Blocks(kid)) !! u
      requires SameOutside(d, d', Pointers(kid'))
      ensures t.Node? && |t.kids| == ptrs
      ensures View(d', ptrs, root, level) == Node(root, t.kids[k := kid'])
      ensures SameOutside(d, d', Pointers(View(d', ptrs, root, level)))
    {
      ViewNode(d, ptrs, root, level);
      ViewKid(d, ptrs, root, level, k);
      UnsharedNode(t);
      UnsharedSplit(t.kids, k);
      PointersAreBlocks(kid');
      assert root !in Blocks(kid');
      assert Row(d', root) == Row(d, root);
      SameOutsideWiden(d, d', Pointers(kid'), {root} + Blocks(kid'));
      KidView(d, d', ptrs, root, level, k, child, kid');
      var kids' := t.kids[k := kid'];
      ReplaceKidPointers(root, t.kids, k, kid');
      SameOutsideWiden(d, d', Pointers(kid'), Pointers(Node(root, kids')));
    }

    lemma NotZero()
      requires BitmapOk()
      ensures !ValidBno(0)
    {
    }

    lemma FilledSlot(d: Disk, mid: Disk, d': Disk, b: nat, level: nat, idx: nat, k: nat, child: nat, t: Tree,
                     u: set<nat>)
      requires b in d && |d[b]| == ptrs && b != 0 && child != 0 && level > 0 && k < ptrs && d[b][k] == 0
      requires t == View(d, ptrs, b, level) && Unshared(t) && Blocks(t) <= u && child !in u
      requires idx < Span(ptrs, level) && Span(ptrs, level - 1) > 0 && k == idx / Span(ptrs, level - 1) && k < ptrs
      requires mid == if level == 1 then d else d[child := Zeros(ptrs)]
      requires d' == mid[b := WithPtr(d[b], k, child)]
      ensures |t.kids| == ptrs
      ensures View(d', ptrs, b, level) == Node(b, t.kids[k := Fresh(child, ptrs, level - 1)])
      ensures View(d', ptrs, child, level - 1) == Fresh(child, ptrs, level - 1)
      ensures |Row(d', b)| == ptrs && Slot(d', b, k) == child
      ensures Grown(t, View(d', ptrs, b, level), ptrs, level, idx, u, u + {child})
      ensures SameOutside(d, d', if level == 1 then {b} else {b, child})
    {
      ViewRoot(d, ptrs, b, level);
      ViewNode(d, ptrs, b, level);
      ViewKid(d, ptrs, b, level, k);
      var kid := Fresh(child, ptrs, level - 1);
      hide View, BlocksOf, UnsharedOf, Grown;
      FreshBlocks(child, ptrs, level - 1);
      FreshView(d', ptrs, child, level - 1);
      assert SameOutside(d, d', {b} + Blocks(kid));
      KidView(d, d', ptrs, b, level, k, child, kid);
      GrownFresh(child, ptrs, level - 1, idx % Span(ptrs, level - 1), u);
      GrownKid(t, k, kid, ptrs, level, idx, u, u + {child});
    }

    lemma UsedValid()
      requires BitmapOk()
      ensures forall b :: b in Used() ==> ValidBno(b)
    {
    }

    lemma DiskStored(d: Disk, b: nat, row: seq<nat>)
      requires DiskOk(d) && |row| == ptrs
      ensures DiskOk(d[b := row])
    {
    }

    lemma DiskAt(d: Disk, b: nat)
      requires DiskOk(d) && ValidBno(b)
      ensures b in d && |d[b]| == ptrs && Row(d, b) == d[b]
      ensures forall i :: 0 <= i < ptrs ==> Slot(d, b, i) == d[b][i]
    {
    }
  }

  lemma SetsKept(u: set<nat>, b: nat, k: set<nat>, c: set<nat>)
    requires c <= k && b in u && b !in k
    ensures b in u - (k - c)
    ensures u - (k - c) == u - (({b} + k) - ({b} + c))
    ensures c == {} ==> u - (k - c) - {b} == u - (({b} + k) - {})
  {
  }

  lemma SetsStep(u: set<nat>, k: set<nat>, c: set<nat>, k': set<nat>, c': set<nat>)
    requires c <= k && c' <= k' && k !! k'
    ensures u - (k - c) - (k' - c') == u - ((k + k') - (c + c'))
    ensures k' <= u ==> k' <= u - (k - c)
  {
  }

  lemma {:induction false} SubsetSize(a: set<nat>, b: set<nat>)
    requires a <= b
    ensures |a| <= |b|
  {
    if a != {} {
      var x :| x in a;
      SubsetSize(a - {x}, b - {x});
    }
  }

  /** A volume with one data block, which is free: freeing it once more makes the counter say two. */
  method DoubleFree() returns (vol: Volume)
    ensures fresh(vol) && vol.count == 1 && vol.BitmapOk() && vol.Used() == {} && vol.freeBlocks == 2 && !vol.AllocOk()
  {
    vol := new Volume(1, 1, 1, 1, [[false]], 1, map[]);
    assert vol.Used() == {};
    assert vol.AllocOk();
    var _ := vol.DataFree(1);
    assert vol.Used() == {};
  }
}
