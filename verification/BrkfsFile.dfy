/**
 File pages on the blocks of an inode (src/fs/brkfs/file.c): what the page cache reads, writes and cuts off is what
 the inode's block map says.
 */
module BrkfsFile {
  import opened Arith
  import opened PageData
  import opened BlockTree
  import opened InodeMap
  import opened Brkfs
  import opened BrkfsInode
  import CachedFile

  // A block as bytes and as little-endian words.

  ghost predicate IsBytes(b: seq<int>) {
    forall k :: 0 <= k < |b| ==> 0 <= b[k] < 256
  }

  function ByteOf(w: nat, j: nat): int {
    if j == 0 then w % 256 else ByteOf(w / 256, j - 1)
  }

  function ByteIn(row: seq<nat>, k: nat): int {
    if k / 4 < |row| then ByteOf(row[k / 4], k % 4) else 0
  }

  function Words(b: seq<int>): (w: seq<nat>)
    requires |b| % 4 == 0 && IsBytes(b)
    ensures |w| == |b| / 4
  {
    seq(|b| / 4, i requires 0 <= i < |b| / 4 =>
      b[4 * i] + 256 * (b[4 * i + 1] + 256 * (b[4 * i + 2] + 256 * b[4 * i + 3])))
  }

  lemma LowByte(b: int, high: nat)
    requires 0 <= b < 256
    ensures (b + 256 * high) % 256 == b && (b + 256 * high) / 256 == high
  {
    DivModUnique(b + 256 * high, 256, high, b);
  }

  lemma WordBytes(b0: int, b1: int, b2: int, b3: int, j: nat)
    requires 0 <= b0 < 256 && 0 <= b1 < 256 && 0 <= b2 < 256 && 0 <= b3 < 256 && j < 4
    ensures ByteOf(b0 + 256 * (b1 + 256 * (b2 + 256 * b3)), j) ==
            if j == 0 then b0 else if j == 1 then b1 else if j == 2 then b2 else b3
  {
    LowByte(b0, b1 + 256 * (b2 + 256 * b3));
    LowByte(b1, b2 + 256 * b3);
    LowByte(b2, b3);
    LowByte(b3, 0);
    if j > 0 {
      assert ByteOf(b0 + 256 * (b1 + 256 * (b2 + 256 * b3)), j) == ByteOf(b1 + 256 * (b2 + 256 * b3), j - 1);
    }
    if j > 1 {
      assert ByteOf(b1 + 256 * (b2 + 256 * b3), j - 1) == ByteOf(b2 + 256 * b3, j - 2);
    }
    if j > 2 {
      assert ByteOf(b2 + 256 * b3, j - 2) == ByteOf(b3, j - 3);
    }
  }

  lemma WordsBack(b: seq<int>, k: nat)
    requires |b| % 4 == 0 && IsBytes(b) && k < |b|
    ensures ByteIn(Words(b), k) == b[k]
  {
    var i := k / 4;
    WordBytes(b[4 * i], b[4 * i + 1], b[4 * i + 2], b[4 * i + 3], k % 4);
    hide ByteOf;
  }

  // The bytes of a file.

  function Bytes(row: seq<nat>, bs: nat): (b: seq<int>)
    ensures |b| == bs
  {
    seq(bs, r requires 0 <= r < bs => ByteIn(row, r))
  }

  function Blank(bs: nat): (b: seq<int>)
    ensures |b| == bs
  {
    seq(bs, _ => 0)
  }

  /** Logical block `idx`; a hole reads as zeros. */
  ghost function BlockOf(d: Disk, ts: seq<Tree>, ptrs: nat, idx: nat): (b: seq<int>)
    requires ShapedAll(ts, ptrs)
    ensures |b| == 4 * ptrs
  {
    if idx < Capacity(ptrs) && Mapped(ts, ptrs, idx) != 0
    then Bytes(Row(d, Mapped(ts, ptrs, idx)), 4 * ptrs) else Blank(4 * ptrs)
  }

  ghost function ByteAt(d: Disk, ts: seq<Tree>, ptrs: nat, q: nat): int
    requires ShapedAll(ts, ptrs) && ptrs > 0
  {
    BlockOf(d, ts, ptrs, q / (4 * ptrs))[q % (4 * ptrs)]
  }

  ghost function PageOf(d: Disk, ts: seq<Tree>, ptrs: nat, i: Index): Data
    requires ShapedAll(ts, ptrs) && ptrs > 0
  {
    seq(PAGE_SIZE, k requires 0 <= k < PAGE_SIZE => ByteAt(d, ts, ptrs, i * PAGE_SIZE + k))
  }

  /** Page `i` of the file behind an inode. */
  ghost function FilePage(inode: Inode, i: Index): Data
    requires |inode.iblock| == BLOCKS && inode.vol.ptrs > 0
    reads inode`iblock, inode.vol
  {
    PageOf(inode.vol.disk, inode.MyTrees(), inode.vol.ptrs, i)
  }

  // Truncation.

  /** The first `n` logical blocks are as before and the others are holes. */
  ghost predicate CutBlocks(d: Disk, ts: seq<Tree>, d': Disk, ts': seq<Tree>, ptrs: nat, n: nat)
    requires ShapedAll(ts, ptrs) && ShapedAll(ts', ptrs)
  {
    forall idx: nat :: BlockOf(d', ts', ptrs, idx) == if idx < n then BlockOf(d, ts, ptrs, idx) else Blank(4 * ptrs)
  }

  lemma BlockKept(d: Disk, ts: seq<Tree>, d': Disk, ts': seq<Tree>, ptrs: nat, idx: nat)
    requires ShapedAll(ts, ptrs) && ShapedAll(ts', ptrs) && UnsharedOf(ts)
    requires SameOutside(d, d', PointersOf(ts))
    requires idx < Capacity(ptrs) ==> Mapped(ts', ptrs, idx) == Mapped(ts, ptrs, idx)
    ensures BlockOf(d', ts', ptrs, idx) == BlockOf(d, ts, ptrs, idx)
  {
    if idx < Capacity(ptrs) && Mapped(ts, ptrs, idx) != 0 {
      DataBlock(ts, ptrs, idx);
      assert Row(d', Mapped(ts, ptrs, idx)) == Row(d, Mapped(ts, ptrs, idx));
    }
    hide Row, Mapped, Capacity, ByteIn;
  }

  lemma DataBlock(ts: seq<Tree>, ptrs: nat, idx: nat)
    requires ShapedAll(ts, ptrs) && UnsharedOf(ts) && idx < Capacity(ptrs) && Mapped(ts, ptrs, idx) != 0
    ensures Mapped(ts, ptrs, idx) !in PointersOf(ts)
  {
    var b := Mapped(ts, ptrs, idx);
    if b in PointersOf(ts) {
      var k :| 0 <= k < |ts| && b in Pointers(ts[k]);
      MappedNotPointer(ts, ptrs, idx, k);
      assert false;
    }
  }

  lemma CutBlocksIs(d: Disk, ts: seq<Tree>, d': Disk, ts': seq<Tree>, ptrs: nat, n: nat)
    requires ShapedAll(ts, ptrs) && ShapedAll(ts', ptrs) && UnsharedOf(ts) && SameOutside(d, d', PointersOf(ts))
    requires forall i: nat :: i < Capacity(ptrs) ==> Mapped(ts', ptrs, i) == if i < n then Mapped(ts, ptrs, i) else 0
    ensures CutBlocks(d, ts, d', ts', ptrs, n)
  {
    forall idx: nat
      ensures BlockOf(d', ts', ptrs, idx) == if idx < n then BlockOf(d, ts, ptrs, idx) else Blank(4 * ptrs)
    {
      hide SameOutside, UnsharedOf, PointersOf, Row, ByteIn, ShapedAll;
      if idx < n {
        BlockKept(d, ts, d', ts', ptrs, idx);
        hide BlockOf;
      }
    }
  }

  lemma CutBlockByte(d: Disk, ts: seq<Tree>, d': Disk, ts': seq<Tree>, ptrs: nat, n: nat, idx: nat, r: nat)
    requires ShapedAll(ts, ptrs) && ShapedAll(ts', ptrs) && CutBlocks(d, ts, d', ts', ptrs, n) && r < 4 * ptrs
    ensures BlockOf(d', ts', ptrs, idx)[r] == if idx < n then BlockOf(d, ts, ptrs, idx)[r] else 0
  {
    hide ShapedAll, BlockOf;
  }

  lemma CutByte(d: Disk, ts: seq<Tree>, d': Disk, ts': seq<Tree>, ptrs: nat, n: nat, q: nat)
    requires ShapedAll(ts, ptrs) && ShapedAll(ts', ptrs) && ptrs > 0 && CutBlocks(d, ts, d', ts', ptrs, n)
    ensures ByteAt(d', ts', ptrs, q) == if q < n * (4 * ptrs) then ByteAt(d, ts, ptrs, q) else 0
  {
    hide ShapedAll, BlockOf, CutBlocks;
    CutBlockByte(d, ts, d', ts', ptrs, n, q / (4 * ptrs), q % (4 * ptrs));
    Below(q, 4 * ptrs, n);
  }

  lemma CutPages(d: Disk, ts: seq<Tree>, d': Disk, ts': seq<Tree>, ptrs: nat, n: nat)
    requires ShapedAll(ts, ptrs) && ShapedAll(ts', ptrs) && ptrs > 0 && CutBlocks(d, ts, d', ts', ptrs, n)
    ensures forall i: Index :: PageOf(d', ts', ptrs, i) == CachedFile.Cut(PageOf(d, ts, ptrs, i), i, n * (4 * ptrs))
  {
    hide ShapedAll, ByteAt, CutBlocks;
    forall i: Index
      ensures PageOf(d', ts', ptrs, i) == CachedFile.Cut(PageOf(d, ts, ptrs, i), i, n * (4 * ptrs))
    {
      forall k: nat | k < PAGE_SIZE
        ensures PageOf(d', ts', ptrs, i)[k] == CachedFile.Cut(PageOf(d, ts, ptrs, i), i, n * (4 * ptrs))[k]
      {
        CutByte(d, ts, d', ts', ptrs, n, i * PAGE_SIZE + k);
      }
    }
  }

  lemma Below(q: nat, bs: nat, n: nat)
    requires bs > 0
    ensures q / bs < n <==> q < n * bs
  {
    var a, r := q / bs, q % bs;
    assert q == a * bs + r;
    if a < n {
      assert (a + 1) * bs <= n * bs;
    } else {
      assert a * bs >= n * bs;
    }
  }

  /**
   brkfs_truncate_inode_blocks, seen from the pages: the blocks from the new end on read as zeros, and every byte
   before them is what it was.
   */
  method TruncateFile(inode: Inode, n: nat)
    requires inode.Valid()
    modifies inode, inode.vol`bitmaps, inode.vol`freeBlocks, inode.vol`disk
    ensures inode.Valid() && inode.size == n
    ensures n > old(inode.size) ==> forall i: Index :: FilePage(inode, i) == old(FilePage(inode, i))
    ensures n <= old(inode.size) ==> var bs := inode.BlockSize();
      forall i: Index :: FilePage(inode, i) == CachedFile.Cut(old(FilePage(inode, i)), i, (n + bs - 1) / bs * bs)
  {
    hide *;
    inode.ValidFacts();
    ghost var d, ts, ptrs := inode.vol.disk, inode.MyTrees(), inode.vol.ptrs;
    Pages(inode);
    var _ := inode.Truncate(n);
    inode.ValidFacts();
    Pages(inode);
    BlockSizeIs(inode);
    if n <= old(inode.size) {
      CeilIs(n, 4 * ptrs);
      CutBlocksIs(d, ts, inode.vol.disk, inode.MyTrees(), ptrs, DivCeil(n, 4 * ptrs));
      CutPages(d, ts, inode.vol.disk, inode.MyTrees(), ptrs, DivCeil(n, 4 * ptrs));
    }
  }

  lemma Pages(inode: Inode)
    requires |inode.iblock| == BLOCKS && inode.vol.ptrs > 0
    ensures forall i: Index :: FilePage(inode, i) == PageOf(inode.vol.disk, inode.MyTrees(), inode.vol.ptrs, i)
    ensures inode.MyTrees() == Trees(inode.vol.disk, inode.vol.ptrs, inode.iblock)
  {
  }

  lemma BlockSizeIs(inode: Inode)
    ensures inode.BlockSize() == 4 * inode.vol.ptrs
  {
  }

  lemma CeilIs(n: nat, bs: nat)
    requires bs > 0
    ensures DivCeil(n, bs) == (n + bs - 1) / bs
  {
  }

  // Reading and writing a page.

  datatype PageResult = Done | Unsupported | NoBlock

  /** Page `i` is made of logical blocks `[i * n, i * n + n)`. */
  lemma PageBlock(i: nat, n: nat, bs: nat, m: nat, r: nat)
    requires n * bs == PAGE_SIZE && m < n && r < bs
    ensures (i * PAGE_SIZE + m * bs + r) / bs == i * n + m && (i * PAGE_SIZE + m * bs + r) % bs == r
    ensures m * bs + bs <= PAGE_SIZE
  {
    assert i * PAGE_SIZE == (i * n) * bs;
    assert (i * n) * bs + m * bs == (i * n + m) * bs;
    DivModUnique(i * PAGE_SIZE + m * bs + r, bs, i * n + m, r);
    assert (m + 1) * bs <= n * bs;
  }

  lemma PageAt(d: Disk, ts: seq<Tree>, ptrs: nat, i: nat, k: nat)
    requires ShapedAll(ts, ptrs) && ptrs > 0 && k < PAGE_SIZE
    ensures var q := i * PAGE_SIZE + k;
            PageOf(d, ts, ptrs, i)[k] == BlockOf(d, ts, ptrs, q / (4 * ptrs))[q % (4 * ptrs)]
  {
    hide ShapedAll, BlockOf;
    assert PageOf(d, ts, ptrs, i)[k] == ByteAt(d, ts, ptrs, i * PAGE_SIZE + k);
  }

  lemma PageSlice(d: Disk, ts: seq<Tree>, ptrs: nat, i: nat, n: nat, m: nat)
    requires ShapedAll(ts, ptrs) && ptrs > 0 && n * (4 * ptrs) == PAGE_SIZE && m < n
    ensures m * (4 * ptrs) + 4 * ptrs <= PAGE_SIZE
    ensures PageOf(d, ts, ptrs, i)[m * (4 * ptrs)..m * (4 * ptrs) + 4 * ptrs] == BlockOf(d, ts, ptrs, i * n + m)
  {
    hide *;
    var bs := 4 * ptrs;
    PageBlock(i, n, bs, m, 0);
    var block, page, at := BlockOf(d, ts, ptrs, i * n + m), PageOf(d, ts, ptrs, i), m * bs;
    assert |page| == PAGE_SIZE;
    forall r: nat | r < bs
      ensures page[at + r] == block[r]
    {
      PageBlock(i, n, bs, m, r);
      PageAt(d, ts, ptrs, i, at + r);
      assert i * PAGE_SIZE + (at + r) == i * PAGE_SIZE + m * bs + r;
    }
    assert page[at..at + bs] == block;
  }

  /** What one step of the read loop adds. */
  lemma ReadMore(d: Disk, ts: seq<Tree>, ptrs: nat, i: nat, n: nat, m: nat, got: seq<int>, block: seq<int>)
    requires ShapedAll(ts, ptrs) && ptrs > 0 && n * (4 * ptrs) == PAGE_SIZE && m < n
    requires block == BlockOf(d, ts, ptrs, i * n + m)
    requires m * (4 * ptrs) <= PAGE_SIZE && got == PageOf(d, ts, ptrs, i)[..m * (4 * ptrs)]
    ensures (m + 1) * (4 * ptrs) <= PAGE_SIZE && got + block == PageOf(d, ts, ptrs, i)[..(m + 1) * (4 * ptrs)]
  {
    PageSlice(d, ts, ptrs, i, n, m);
    hide PageOf, BlockOf, ShapedAll;
    assert (m + 1) * (4 * ptrs) == m * (4 * ptrs) + 4 * ptrs;
  }

  lemma BlocksPerPage(bs: nat)
    requires bs > 0 && PAGE_SIZE % bs == 0
    ensures PAGE_SIZE / bs * bs == PAGE_SIZE && PAGE_SIZE / bs > 0
  {
  }

  /** One block of the read loop. */
  method ReadBlock(inode: Inode, off: nat) returns (err: Error, block: seq<int>)
    requires inode.Valid()
    modifies inode`iblock, inode.vol`bitmaps, inode.vol`freeBlocks, inode.vol`disk
    ensures inode.Valid() && inode.iblock == old(inode.iblock) && inode.vol.disk == old(inode.vol.disk)
    ensures inode.vol.Used() == old(inode.vol.Used()) && inode.MyTrees() == old(inode.MyTrees())
    ensures err == Ok <==> inode.BlockIndex(off) < Capacity(inode.vol.ptrs)
    ensures err == Ok ==> block == BlockOf(inode.vol.disk, inode.MyTrees(), inode.vol.ptrs, inode.BlockIndex(off))
  {
    hide *;
    inode.ValidFacts();
    ghost var ts, u, idx := inode.MyTrees(), inode.vol.Used(), inode.BlockIndex(off);
    var bno;
    err, bno := inode.GetBlk(off, false);
    inode.ValidFacts();
    block := [];
    if err == Ok {
      Found(inode, ts, idx, u, inode.vol.Used(), err, bno);
      MappedOnDisk(inode, idx);
      block := if bno != 0 then Bytes(inode.vol.disk[bno], 4 * inode.vol.ptrs) else Blank(4 * inode.vol.ptrs);
      BlockIs(inode.vol.disk, ts, inode.vol.ptrs, idx);
    } else if idx < Capacity(inode.vol.ptrs) {
      Found(inode, ts, idx, u, inode.vol.Used(), err, bno);
    }
  }

  lemma BlockIs(d: Disk, ts: seq<Tree>, ptrs: nat, idx: nat)
    requires ShapedAll(ts, ptrs) && idx < Capacity(ptrs)
    ensures var b := Mapped(ts, ptrs, idx);
            && (b != 0 && b in d ==> BlockOf(d, ts, ptrs, idx) == Bytes(d[b], 4 * ptrs))
            && (b == 0 ==> BlockOf(d, ts, ptrs, idx) == Blank(4 * ptrs))
  {
    hide Mapped, Capacity, Bytes, Blank;
  }

  /** brkfs_file_read_page: exactly the page that the block map says, or an error; nothing changes. */
  method ReadPage(inode: Inode, i: Index) returns (r: PageResult, data: seq<int>)
    requires inode.Valid()
    modifies inode`iblock, inode.vol`bitmaps, inode.vol`freeBlocks, inode.vol`disk
    ensures inode.Valid() && inode.iblock == old(inode.iblock) && inode.vol.disk == old(inode.vol.disk)
    ensures inode.vol.Used() == old(inode.vol.Used())
    ensures r == Unsupported <==> PAGE_SIZE % inode.BlockSize() != 0
    ensures r == Done ==> data == FilePage(inode, i)
    ensures r != Unsupported ==>
            (r == Done <==> inode.BlockIndex(i * PAGE_SIZE + (PAGE_SIZE - 1)) < Capacity(inode.vol.ptrs))
  {
    hide *;
    inode.ValidFacts();
    BlockSizeIs(inode);
    ghost var d, ts := inode.vol.disk, inode.MyTrees();
    var bs, ptrs := inode.BlockSize(), inode.vol.ptrs;
    Pages(inode);
    data := [];
    BigBlock(bs);
    if bs > PAGE_SIZE || PAGE_SIZE % bs != 0 {
      return Unsupported, data;
    }
    BlocksPerPage(bs);
    var n := PAGE_SIZE / bs;
    ghost var page := PageOf(d, ts, ptrs, i);
    LastBlock(i, n, bs);
    BlockIndexIs(inode, i * PAGE_SIZE + (PAGE_SIZE - 1));
    for m := 0 to n
      invariant inode.Valid() && inode.iblock == old(inode.iblock) && inode.vol.disk == d && inode.MyTrees() == ts
      invariant inode.vol.Used() == old(inode.vol.Used())
      invariant m * bs <= PAGE_SIZE && data == page[..m * bs] && (m > 0 ==> i * n + (m - 1) < Capacity(ptrs))
    {
      PageBlock(i, n, bs, m, 0);
      BlockIndexIs(inode, i * PAGE_SIZE + m * bs);
      var err, block := ReadBlock(inode, i * PAGE_SIZE + m * bs);
      if err != Ok {
        return NoBlock, data;
      }
      ReadMore(d, ts, ptrs, i, n, m, data, block);
      data := data + block;
    }
    r := Done;
    assert page[..n * bs] == page;
    Pages(inode);
  }

  lemma LastBlock(i: nat, n: nat, bs: nat)
    requires n * bs == PAGE_SIZE && n > 0 && bs > 0
    ensures (i * PAGE_SIZE + (PAGE_SIZE - 1)) / bs == i * n + (n - 1)
  {
    PageBlock(i, n, bs, n - 1, bs - 1);
    assert (n - 1) * bs + bs == n * bs;
  }

  lemma BigBlock(bs: nat)
    ensures bs > PAGE_SIZE ==> PAGE_SIZE % bs != 0
  {
  }

  lemma BlockIndexIs(inode: Inode, off: nat)
    requires inode.vol.ptrs > 0
    ensures inode.BlockIndex(off) == off / (4 * inode.vol.ptrs)
  {
  }

  /** A lookup that does not create. */
  lemma Found(inode: Inode, ts: seq<Tree>, idx: nat, u: set<nat>, u': set<nat>, err: Error, bno: nat)
    requires inode.GotBlock(ts, ts, idx, false, u, u', err, bno)
    ensures ShapedAll(ts, inode.vol.ptrs) && idx < Capacity(inode.vol.ptrs)
    ensures err == Ok && bno == Mapped(ts, inode.vol.ptrs, idx)
  {
    hide Mapped, Capacity, BlocksOf;
  }

  /** A mapped block is in use, so the disk has it. */
  lemma MappedOnDisk(inode: Inode, idx: nat)
    requires inode.Valid() && idx < Capacity(inode.vol.ptrs)
    ensures var b := Mapped(inode.MyTrees(), inode.vol.ptrs, idx); b != 0 ==> b in inode.vol.disk
  {
    inode.ValidFacts();
    var ts, ptrs := inode.MyTrees(), inode.vol.ptrs;
    var b := Mapped(ts, ptrs, idx);
    if b != 0 {
      MappedInUse(ts, ptrs, idx);
      hide Mapped, Capacity, Inode.MyTrees, Inode.Valid, BlocksOf, UnsharedOf, ShapedAll;
      assert inode.vol.ValidBno(b);
    }
  }

  lemma MappedInUse(ts: seq<Tree>, ptrs: nat, idx: nat)
    requires ShapedAll(ts, ptrs) && UnsharedOf(ts) && idx < Capacity(ptrs) && Mapped(ts, ptrs, idx) != 0
    ensures Mapped(ts, ptrs, idx) in BlocksOf(ts)
  {
    var s := SlotOf(ptrs, idx);
    SlotCovers(ptrs, idx);
    AtIsData(ts[s], ptrs, LevelOf(s), idx - BaseOf(ptrs, s));
    assert Blocks(ts[s]) <= BlocksOf(ts);
  }

  /** The block at `at` of a page as written: what lies past the end of the file is zero. */
  function Padded(data: seq<int>, at: nat, bs: nat, left: int): (b: seq<int>)
    ensures |b| == bs
  {
    seq(bs, r requires 0 <= r < bs => if r < left && at + r < |data| then data[at + r] else 0)
  }

  lemma PaddedBytes(data: seq<int>, at: nat, bs: nat, left: int)
    requires IsBytes(data)
    ensures IsBytes(Padded(data, at, bs, left))
  {
  }

  lemma BytesBack(b: seq<int>)
    requires |b| % 4 == 0 && IsBytes(b)
    ensures Bytes(Words(b), |b|) == b
  {
    forall k: nat | k < |b|
      ensures Bytes(Words(b), |b|)[k] == b[k]
    {
      WordsBack(b, k);
    }
  }

  /** Logical block `idx` reads `b` now, and every other block reads as before. */
  ghost predicate OneBlock(d: Disk, ts: seq<Tree>, d': Disk, ts': seq<Tree>, ptrs: nat, idx: nat, b: seq<int>)
    requires ShapedAll(ts, ptrs) && ShapedAll(ts', ptrs)
  {
    forall j: nat :: BlockOf(d', ts', ptrs, j) == if j == idx then b else BlockOf(d, ts, ptrs, j)
  }

  ghost predicate SameBlocks(d: Disk, ts: seq<Tree>, d': Disk, ts': seq<Tree>, ptrs: nat)
    requires ShapedAll(ts, ptrs) && ShapedAll(ts', ptrs)
  {
    forall j: nat :: BlockOf(d', ts', ptrs, j) == BlockOf(d, ts, ptrs, j)
  }

  /** Growth writes only pointer blocks of the new trees, so a block mapped as before reads as before. */
  lemma GrownBlock(d: Disk, ts: seq<Tree>, d': Disk, ts': seq<Tree>, ptrs: nat, j: nat)
    requires ShapedAll(ts, ptrs) && ShapedAll(ts', ptrs) && UnsharedOf(ts') && SameOutside(d, d', PointersOf(ts'))
    requires j < Capacity(ptrs) ==> Mapped(ts', ptrs, j) == Mapped(ts, ptrs, j)
    ensures BlockOf(d', ts', ptrs, j) == BlockOf(d, ts, ptrs, j)
  {
    if j < Capacity(ptrs) && Mapped(ts', ptrs, j) != 0 {
      DataBlock(ts', ptrs, j);
      assert Row(d', Mapped(ts', ptrs, j)) == Row(d, Mapped(ts', ptrs, j));
    }
    hide Row, Mapped, Capacity, Bytes, Blank;
  }

  /** Storing the contents of a data block moves nothing and changes that block only. */
  lemma StoredBlock(d: Disk, d': Disk, ptrs: nat, iblock: seq<nat>, idx: nat, b: seq<int>)
    requires |iblock| == BLOCKS && idx < Capacity(ptrs) && |b| == 4 * ptrs && IsBytes(b)
    requires var ts := Trees(d, ptrs, iblock); UnsharedOf(ts) && Mapped(ts, ptrs, idx) != 0
    requires d' == d[Mapped(Trees(d, ptrs, iblock), ptrs, idx) := Words(b)]
    ensures Trees(d', ptrs, iblock) == Trees(d, ptrs, iblock)
    ensures OneBlock(d, Trees(d, ptrs, iblock), d', Trees(d', ptrs, iblock), ptrs, idx, b)
  {
    var ts := Trees(d, ptrs, iblock);
    var bno := Mapped(ts, ptrs, idx);
    DataBlock(ts, ptrs, idx);
    StoredTrees(d, d', ptrs, iblock, bno, Words(b));
    BytesBack(b);
    forall j: nat
      ensures BlockOf(d', ts, ptrs, j) == if j == idx then b else BlockOf(d, ts, ptrs, j)
    {
      if j < Capacity(ptrs) && j != idx && Mapped(ts, ptrs, j) == bno {
        MappedInjective(ts, ptrs, j, idx);
      }
      hide Mapped, Capacity, Bytes, Blank, Words, UnsharedOf, Trees, ShapedAll;
    }
  }

  lemma StoredTrees(d: Disk, d': Disk, ptrs: nat, iblock: seq<nat>, bno: nat, row: seq<nat>)
    requires |iblock| == BLOCKS && bno !in PointersOf(Trees(d, ptrs, iblock)) && d' == d[bno := row]
    ensures Trees(d', ptrs, iblock) == Trees(d, ptrs, iblock)
  {
    var ts := Trees(d, ptrs, iblock);
    assert SameOutside(d, d', {bno});
    forall k | 0 <= k < BLOCKS
      ensures View(d', ptrs, iblock[k], LevelOf(k)) == ts[k]
    {
      PointersAt(ts, k);
      PointerFrame(d, d', {bno}, ptrs, iblock[k], LevelOf(k));
    }
    assert Trees(d', ptrs, iblock) == ts;
  }

  /** One block of the write loop: it reads back, and no other block of the file is different. */
  method WriteBlock(inode: Inode, off: nat, b: seq<int>) returns (err: Error)
    requires inode.Valid() && |b| == inode.BlockSize() && IsBytes(b)
    modifies inode`iblock, inode.vol`bitmaps, inode.vol`freeBlocks, inode.vol`disk
    ensures inode.Valid() && (err == Ok || err == NoSpace)
    ensures err == Ok ==>
            OneBlock(old(inode.vol.disk), old(inode.MyTrees()), inode.vol.disk, inode.MyTrees(), inode.vol.ptrs,
                     inode.BlockIndex(off), b)
    ensures err != Ok ==>
            SameBlocks(old(inode.vol.disk), old(inode.MyTrees()), inode.vol.disk, inode.MyTrees(), inode.vol.ptrs)
    ensures err != Ok ==> inode.BlockIndex(off) >= Capacity(inode.vol.ptrs) || inode.vol.Used() == inode.vol.Area()
  {
    hide *;
    inode.ValidFacts();
    BlockSizeIs(inode);
    ghost var d0, ts0, u0, idx := inode.vol.disk, inode.MyTrees(), inode.vol.Used(), inode.BlockIndex(off);
    var bno;
    err, bno := inode.GetBlk(off, true);
    inode.ValidFacts();
    ghost var d1, ts1 := inode.vol.disk, inode.MyTrees();
    if err != Ok || bno == 0 {
      NotGot(inode, d0, ts0, d1, ts1, idx, u0, inode.vol.Used(), err, bno);
      return NoSpace;
    }
    Got(inode, d0, ts0, d1, ts1, idx, u0, inode.vol.Used(), bno);
    StoredBlock(d1, d1[bno := Words(b)], inode.vol.ptrs, inode.iblock, idx, b);
    inode.vol.DiskStored(d1, bno, Words(b));
    inode.vol.disk := inode.vol.disk[bno := Words(b)];
    inode.MyTreesDef();
    inode.StillValid();
    OneBlockThen(d0, ts0, d1, ts1, inode.vol.disk, inode.vol.ptrs, idx, b);
  }

  lemma NotGot(inode: Inode, d: Disk, ts: seq<Tree>, d': Disk, ts': seq<Tree>, idx: nat, u: set<nat>, u': set<nat>,
               err: Error, bno: nat)
    requires ShapedAll(ts, inode.vol.ptrs) && ShapedAll(ts', inode.vol.ptrs) && UnsharedOf(ts') &&
             SameOutside(d, d', PointersOf(ts'))
    requires if idx < Capacity(inode.vol.ptrs) then inode.GotBlock(ts, ts', idx, true, u, u', err, bno)
             else d' == d && ts' == ts
    requires err != Ok || bno == 0
    ensures SameBlocks(d, ts, d', ts', inode.vol.ptrs)
    ensures idx < Capacity(inode.vol.ptrs) ==> u' == inode.vol.Area()
  {
    var ptrs := inode.vol.ptrs;
    hide BlockOf, Mapped, Capacity, SameOutside, UnsharedOf, ShapedAll, BlocksOf, PointersOf, Volume.Area;
    forall j: nat
      ensures BlockOf(d', ts', ptrs, j) == BlockOf(d, ts, ptrs, j)
    {
      if idx < Capacity(ptrs) {
        GrownBlock(d, ts, d', ts', ptrs, j);
      }
    }
  }

  /** After a block was found or made: every other block reads as before. */
  lemma Got(inode: Inode, d: Disk, ts: seq<Tree>, d': Disk, ts': seq<Tree>, idx: nat, u: set<nat>, u': set<nat>,
            bno: nat)
    requires ShapedAll(ts, inode.vol.ptrs) && ShapedAll(ts', inode.vol.ptrs) && UnsharedOf(ts') &&
             SameOutside(d, d', PointersOf(ts'))
    requires idx < Capacity(inode.vol.ptrs) && inode.GotBlock(ts, ts', idx, true, u, u', Ok, bno)
    ensures bno == Mapped(ts', inode.vol.ptrs, idx)
    ensures forall j: nat :: j != idx ==> BlockOf(d', ts', inode.vol.ptrs, j) == BlockOf(d, ts, inode.vol.ptrs, j)
  {
    var ptrs := inode.vol.ptrs;
    hide BlockOf, Mapped, Capacity, SameOutside, UnsharedOf, ShapedAll, BlocksOf, PointersOf, Volume.Area;
    forall j: nat | j != idx
      ensures BlockOf(d', ts', ptrs, j) == BlockOf(d, ts, ptrs, j)
    {
      GrownBlock(d, ts, d', ts', ptrs, j);
    }
  }

  lemma OneBlockThen(d0: Disk, ts0: seq<Tree>, d1: Disk, ts1: seq<Tree>, d2: Disk, ptrs: nat, idx: nat, b: seq<int>)
    requires ShapedAll(ts0, ptrs) && ShapedAll(ts1, ptrs) && OneBlock(d1, ts1, d2, ts1, ptrs, idx, b)
    requires forall j: nat :: j != idx ==> BlockOf(d1, ts1, ptrs, j) == BlockOf(d0, ts0, ptrs, j)
    ensures OneBlock(d0, ts0, d2, ts1, ptrs, idx, b)
  {
    hide BlockOf, ShapedAll;
  }

  /** Where logical block `j` starts. */
  function Pos(j: nat, ptrs: nat): nat {
    j * (4 * ptrs)
  }

  lemma PosIs(j: nat, ptrs: nat)
    ensures Pos(j, ptrs) == j * (4 * ptrs)
  {
  }

  /** What logical block `j` reads once the first `m` blocks from `first` on hold `data`, as far as the file goes. */
  ghost predicate WroteAt(d0: Disk, ts0: seq<Tree>, d: Disk, ts: seq<Tree>, ptrs: nat, first: nat, m: nat,
                          data: seq<int>, size: int, j: nat)
    requires ShapedAll(ts0, ptrs) && ShapedAll(ts, ptrs)
  {
    BlockOf(d, ts, ptrs, j) ==
      if first <= j < first + m && Pos(j, ptrs) < size
      then Padded(data, Pos(j - first, ptrs), 4 * ptrs, size - Pos(j, ptrs)) else BlockOf(d0, ts0, ptrs, j)
  }

  ghost predicate Wrote(d0: Disk, ts0: seq<Tree>, d: Disk, ts: seq<Tree>, ptrs: nat, first: nat, m: nat,
                        data: seq<int>, size: int)
    requires ShapedAll(ts0, ptrs) && ShapedAll(ts, ptrs)
  {
    forall j: nat :: WroteAt(d0, ts0, d, ts, ptrs, first, m, data, size, j)
  }

  lemma WroteNone(d: Disk, ts: seq<Tree>, ptrs: nat, first: nat, data: seq<int>, size: int)
    requires ShapedAll(ts, ptrs)
    ensures Wrote(d, ts, d, ts, ptrs, first, 0, data, size)
  {
    hide BlockOf, ShapedAll, Padded, Pos;
  }

  lemma WroteMore(d0: Disk, ts0: seq<Tree>, d: Disk, ts: seq<Tree>, d': Disk, ts': seq<Tree>, ptrs: nat, first: nat,
                  m: nat, data: seq<int>, size: int)
    requires ShapedAll(ts0, ptrs) && ShapedAll(ts, ptrs) && ShapedAll(ts', ptrs)
    requires Wrote(d0, ts0, d, ts, ptrs, first, m, data, size) && Pos(first + m, ptrs) < size
    requires OneBlock(d, ts, d', ts', ptrs, first + m,
                      Padded(data, Pos(m, ptrs), 4 * ptrs, size - Pos(first + m, ptrs)))
    ensures Wrote(d0, ts0, d', ts', ptrs, first, m + 1, data, size)
  {
    hide BlockOf, ShapedAll, Padded, Pos;
    var m' := m + 1;
    forall j: nat
      ensures WroteAt(d0, ts0, d', ts', ptrs, first, m', data, size, j)
    {
      assert WroteAt(d0, ts0, d, ts, ptrs, first, m, data, size, j);
      assert j == first + m ==> j - first == m;
    }
  }

  lemma WroteSame(d0: Disk, ts0: seq<Tree>, d: Disk, ts: seq<Tree>, d': Disk, ts': seq<Tree>, ptrs: nat, first: nat,
                  m: nat, data: seq<int>, size: int)
    requires ShapedAll(ts0, ptrs) && ShapedAll(ts, ptrs) && ShapedAll(ts', ptrs)
    requires Wrote(d0, ts0, d, ts, ptrs, first, m, data, size) && SameBlocks(d, ts, d', ts', ptrs)
    ensures Wrote(d0, ts0, d', ts', ptrs, first, m, data, size)
  {
    hide BlockOf, ShapedAll, Padded, Pos;
    forall j: nat
      ensures WroteAt(d0, ts0, d', ts', ptrs, first, m, data, size, j)
    {
      assert WroteAt(d0, ts0, d, ts, ptrs, first, m, data, size, j);
    }
  }

  /** The blocks past the end of the file are left alone, so leaving the loop early there misses nothing. */
  lemma WroteRest(d0: Disk, ts0: seq<Tree>, d: Disk, ts: seq<Tree>, ptrs: nat, first: nat, m: nat, n: nat,
                  data: seq<int>, size: int)
    requires ShapedAll(ts0, ptrs) && ShapedAll(ts, ptrs) && m <= n && (m < n ==> Pos(first + m, ptrs) >= size)
    requires Wrote(d0, ts0, d, ts, ptrs, first, m, data, size)
    ensures Wrote(d0, ts0, d, ts, ptrs, first, n, data, size)
  {
    hide BlockOf, ShapedAll, Padded, Pos;
    forall j: nat
      ensures WroteAt(d0, ts0, d, ts, ptrs, first, n, data, size, j)
    {
      assert WroteAt(d0, ts0, d, ts, ptrs, first, m, data, size, j);
      if first + m <= j < first + n {
        Later(first + m, j, ptrs);
      }
    }
  }

  lemma Later(a: nat, b: nat, ptrs: nat)
    requires a <= b
    ensures Pos(a, ptrs) <= Pos(b, ptrs)
  {
    assert b * (4 * ptrs) == a * (4 * ptrs) + (b - a) * (4 * ptrs);
  }

  /** A byte of another page lies in another block. */
  lemma OtherPage(i: nat, i': nat, k: nat, n: nat, bs: nat)
    requires n * bs == PAGE_SIZE && bs > 0 && k < PAGE_SIZE && i' != i
    ensures !(i * n <= (i' * PAGE_SIZE + k) / bs < i * n + n)
  {
    var q := i' * PAGE_SIZE + k;
    Below(q, bs, i * n);
    Below(q, bs, i * n + n);
    assert (i * n) * bs == i * PAGE_SIZE && (i * n + n) * bs == i * PAGE_SIZE + PAGE_SIZE;
    if i' < i {
      assert i' * PAGE_SIZE + PAGE_SIZE <= i * PAGE_SIZE;
    } else {
      assert i * PAGE_SIZE + PAGE_SIZE <= i' * PAGE_SIZE;
    }
  }

  lemma OthersKept(d0: Disk, ts0: seq<Tree>, d: Disk, ts: seq<Tree>, ptrs: nat, i: nat, n: nat, m: nat, data: seq<int>,
                   size: int)
    requires ShapedAll(ts0, ptrs) && ShapedAll(ts, ptrs) && ptrs > 0 && n * (4 * ptrs) == PAGE_SIZE && m <= n
    requires Wrote(d0, ts0, d, ts, ptrs, i * n, m, data, size)
    ensures forall i': Index :: i' != i ==> PageOf(d, ts, ptrs, i') == PageOf(d0, ts0, ptrs, i')
  {
    hide *;
    forall i': Index | i' != i
      ensures PageOf(d, ts, ptrs, i') == PageOf(d0, ts0, ptrs, i')
    {
      var a, b: seq<int> := PageOf(d, ts, ptrs, i'), PageOf(d0, ts0, ptrs, i');
      assert |a| == PAGE_SIZE == |b|;
      forall k: nat | k < PAGE_SIZE
        ensures a[k] == b[k]
      {
        OtherPage(i, i', k, n, 4 * ptrs);
        PageAt(d, ts, ptrs, i', k);
        PageAt(d0, ts0, ptrs, i', k);
        WroteElse(d0, ts0, d, ts, ptrs, i * n, m, data, size, (i' * PAGE_SIZE + k) / (4 * ptrs));
      }
      assert a == b;
    }
  }

  /** A block outside the page reads as before. */
  lemma WroteElse(d0: Disk, ts0: seq<Tree>, d: Disk, ts: seq<Tree>, ptrs: nat, first: nat, m: nat, data: seq<int>,
                  size: int, j: nat)
    requires ShapedAll(ts0, ptrs) && ShapedAll(ts, ptrs) && Wrote(d0, ts0, d, ts, ptrs, first, m, data, size)
    requires !(first <= j < first + m)
    ensures BlockOf(d, ts, ptrs, j) == BlockOf(d0, ts0, ptrs, j)
  {
    hide BlockOf, ShapedAll, Padded, Pos;
    assert WroteAt(d0, ts0, d, ts, ptrs, first, m, data, size, j);
  }

  /** Byte `k` of page `i` is byte `r` of logical block `j`, the `m`-th of the page. */
  lemma Locate(i: nat, n: nat, bs: nat, k: nat) returns (first: nat, m: nat, r: nat, j: nat, at: nat, start: nat)
    requires n * bs == PAGE_SIZE && bs > 0 && k < PAGE_SIZE
    ensures first == i * n && m < n && r < bs && j == first + m && at == m * bs && start == j * bs
    ensures at + r == k && start + r == i * PAGE_SIZE + k
    ensures (i * PAGE_SIZE + k) / bs == j && (i * PAGE_SIZE + k) % bs == r
  {
    Below(k, bs, n);
    first, m, r := i * n, k / bs, k % bs;
    j, at := first + m, m * bs;
    start := j * bs;
    assert at + r == k;
    PageBlock(i, n, bs, m, r);
    StartOf(i, n, m, bs);
  }

  lemma WroteIn(d0: Disk, ts0: seq<Tree>, d: Disk, ts: seq<Tree>, ptrs: nat, first: nat, n: nat, data: seq<int>,
                size: int,
                m: nat, j: nat, at: nat, start: nat)
    requires ShapedAll(ts0, ptrs) && ShapedAll(ts, ptrs) && Wrote(d0, ts0, d, ts, ptrs, first, n, data, size)
    requires m < n && j == first + m && at == Pos(m, ptrs) && start == Pos(j, ptrs)
    ensures BlockOf(d, ts, ptrs, j) == if start < size then Padded(data, at, 4 * ptrs, size - start)
            else BlockOf(d0, ts0, ptrs, j)
  {
    hide BlockOf, ShapedAll, Padded, Pos;
    assert WroteAt(d0, ts0, d, ts, ptrs, first, n, data, size, j);
    assert j - first == m;
  }

  /** Where byte `k` of the page lies, and what it reads now. */
  lemma ByteWhere(d0: Disk, ts0: seq<Tree>, d: Disk, ts: seq<Tree>, ptrs: nat, i: nat, n: nat, data: Data, size: int,
                  k: nat)
    returns (start: nat, r: nat)
    requires ShapedAll(ts0, ptrs) && ShapedAll(ts, ptrs) && ptrs > 0 && n * (4 * ptrs) == PAGE_SIZE && k < PAGE_SIZE
    requires Wrote(d0, ts0, d, ts, ptrs, i * n, n, data, size)
    ensures start + r == i * PAGE_SIZE + k
    ensures PageOf(d, ts, ptrs, i)[k] ==
            if start >= size then PageOf(d0, ts0, ptrs, i)[k] else if r < size - start then data[k] else 0
  {
    hide *;
    var bs := 4 * ptrs;
    var first, m, j, at;
    first, m, r, j, at, start := Locate(i, n, bs, k);
    PosIs(m, ptrs);
    PosIs(j, ptrs);
    PageAt(d, ts, ptrs, i, k);
    PageAt(d0, ts0, ptrs, i, k);
    WroteIn(d0, ts0, d, ts, ptrs, first, n, data, size, m, j, at, start);
    PaddedAt(data, at, bs, size - start, r);
  }

  lemma ByteWritten(d0: Disk, ts0: seq<Tree>, d: Disk, ts: seq<Tree>, ptrs: nat, i: nat, n: nat, data: Data, size: int,
                    k: nat)
    requires ShapedAll(ts0, ptrs) && ShapedAll(ts, ptrs) && ptrs > 0 && n * (4 * ptrs) == PAGE_SIZE && k < PAGE_SIZE
    requires Wrote(d0, ts0, d, ts, ptrs, i * n, n, data, size)
    requires i * PAGE_SIZE + k >= size ==> data[k] == 0 && PageOf(d0, ts0, ptrs, i)[k] == 0
    ensures PageOf(d, ts, ptrs, i)[k] == data[k]
  {
    hide *;
    var start, r := ByteWhere(d0, ts0, d, ts, ptrs, i, n, data, size, k);
  }

  /** With nothing but zeros past the end, in the page and on disk, the page reads back as it was written. */
  lemma PageWritten(d0: Disk, ts0: seq<Tree>, d: Disk, ts: seq<Tree>, ptrs: nat, i: nat, n: nat, data: Data, size: int)
    requires ShapedAll(ts0, ptrs) && ShapedAll(ts, ptrs) && ptrs > 0 && n * (4 * ptrs) == PAGE_SIZE
    requires Wrote(d0, ts0, d, ts, ptrs, i * n, n, data, size)
    requires forall k: nat :: k < PAGE_SIZE && i * PAGE_SIZE + k >= size ==>
             data[k] == 0 && PageOf(d0, ts0, ptrs, i)[k] == 0
    ensures PageOf(d, ts, ptrs, i) == data
  {
    hide *;
    forall k: nat | k < PAGE_SIZE
      ensures PageOf(d, ts, ptrs, i)[k] == data[k]
    {
      ByteWritten(d0, ts0, d, ts, ptrs, i, n, data, size, k);
    }
  }

  lemma PaddedAt(data: seq<int>, at: nat, bs: nat, left: int, r: nat)
    requires r < bs
    ensures Padded(data, at, bs, left)[r] == if r < left && at + r < |data| then data[at + r] else 0
  {
  }

  /**
   brkfs_file_write_page. When it succeeds the page reads back as written, and no other page of the file is different,
   whether it succeeds or not; it fails only for a block size it does not support, past the last block a file can
   have, or when no block is free.
   */
  method WritePage(inode: Inode, i: Index, data: Data) returns (r: PageResult)
    requires inode.Valid() && IsBytes(data)
    modifies inode`iblock, inode.vol`bitmaps, inode.vol`freeBlocks, inode.vol`disk
    ensures inode.Valid() && (r == Unsupported <==> PAGE_SIZE % inode.BlockSize() != 0)
    ensures forall j: Index :: j != i ==> FilePage(inode, j) == old(FilePage(inode, j))
    ensures r == Done &&
            (forall k: nat :: k < PAGE_SIZE && i * PAGE_SIZE + k >= inode.size ==>
                data[k] == 0 && old(FilePage(inode, i))[k] == 0) ==>
              FilePage(inode, i) == data
    ensures r == NoBlock ==>
            inode.vol.Used() == inode.vol.Area() ||
            inode.BlockIndex(i * PAGE_SIZE + (PAGE_SIZE - 1)) >= Capacity(inode.vol.ptrs)
  {
    hide *;
    inode.ValidFacts();
    BlockSizeIs(inode);
    ghost var d, ts := inode.vol.disk, inode.MyTrees();
    var bs, ptrs, size := inode.BlockSize(), inode.vol.ptrs, inode.size;
    Pages(inode);
    BigBlock(bs);
    if bs > PAGE_SIZE || PAGE_SIZE % bs != 0 {
      return Unsupported;
    }
    BlocksPerPage(bs);
    var n := PAGE_SIZE / bs;
    LastBlock(i, n, bs);
    BlockIndexIs(inode, i * PAGE_SIZE + (PAGE_SIZE - 1));
    WroteNone(d, ts, ptrs, i * n, data, size);
    var m := 0;
    while m < n
      invariant m <= n && inode.Valid() && ShapedAll(inode.MyTrees(), ptrs)
      invariant Wrote(d, ts, inode.vol.disk, inode.MyTrees(), ptrs, i * n, m, data, size)
    {
      PageBlock(i, n, bs, m, 0);
      var off := i * PAGE_SIZE + m * bs;
      if off >= size {
        break;
      }
      ghost var d1, ts1 := inode.vol.disk, inode.MyTrees();
      var block := Padded(data, m * bs, bs, size - off);
      PaddedBytes(data, m * bs, bs, size - off);
      PosIs(m, ptrs);
      PosIs(i * n + m, ptrs);
      BlockIndexIs(inode, off);
      var err := WriteBlock(inode, off, block);
      inode.ValidFacts();
      if err != Ok {
        WroteSame(d, ts, d1, ts1, inode.vol.disk, inode.MyTrees(), ptrs, i * n, m, data, size);
        OthersKept(d, ts, inode.vol.disk, inode.MyTrees(), ptrs, i, n, m, data, size);
        Pages(inode);
        return NoBlock;
      }
      StartOf(i, n, m, bs);
      WroteMore(d, ts, d1, ts1, inode.vol.disk, inode.MyTrees(), ptrs, i * n, m, data, size);
      m := m + 1;
    }
    StartOf(i, n, m, bs);
    PosIs(i * n + m, ptrs);
    WroteRest(d, ts, inode.vol.disk, inode.MyTrees(), ptrs, i * n, m, n, data, size);
    OthersKept(d, ts, inode.vol.disk, inode.MyTrees(), ptrs, i, n, n, data, size);
    Pages(inode);
    if forall k: nat :: k < PAGE_SIZE && i * PAGE_SIZE + k >= size ==> data[k] == 0 && PageOf(d, ts, ptrs, i)[k] == 0 {
      PageWritten(d, ts, inode.vol.disk, inode.MyTrees(), ptrs, i, n, data, size);
    }
    r := Done;
  }

  lemma StartOf(i: nat, n: nat, m: nat, bs: nat)
    requires n * bs == PAGE_SIZE
    ensures i * PAGE_SIZE + m * bs == (i * n + m) * bs
  {
    assert i * PAGE_SIZE == (i * n) * bs;
  }

  // The store of the page cache and the inode behind it.

  /** Every page of the store is what the inode's blocks hold. */
  ghost predicate Backed(store: map<Index, Data>, inode: Inode)
    requires |inode.iblock| == BLOCKS && inode.vol.ptrs > 0
    reads inode`iblock, inode.vol
  {
    forall i: Index :: PageData.At(store, i) == FilePage(inode, i)
  }

  /** The store that the page cache truncates stays the one that the inode has. */
  method TruncateBacked(file: CachedFile.Cached, inode: Inode, n: nat)
    requires inode.Valid() && file.bs == inode.BlockSize() && file.size == inode.size && Backed(file.store, inode)
    modifies file`store, file`size, inode, inode.vol`bitmaps, inode.vol`freeBlocks, inode.vol`disk
    ensures inode.Valid() && file.size == inode.size == n && Backed(file.store, inode)
  {
    hide *;
    BackedIs(file.store, inode);
    inode.ValidFacts();
    BlockSizeIs(inode);
    file.TruncateBlocks(n);
    TruncateFile(inode, n);
    inode.ValidFacts();
    BackedIs(file.store, inode);
  }

  /** So does a page that the page cache writes back, unless the inode has no room for it. */
  method WriteBacked(file: CachedFile.Cached, inode: Inode, i: Index, data: Data) returns (r: PageResult)
    requires inode.Valid() && file.bs == inode.BlockSize() && file.size == inode.size && Backed(file.store, inode)
    requires IsBytes(data)
    requires forall k: nat :: k < PAGE_SIZE && i * PAGE_SIZE + k >= file.size ==>
             data[k] == 0 && PageData.At(file.store, i)[k] == 0
    modifies file`store, inode`iblock, inode.vol`bitmaps, inode.vol`freeBlocks, inode.vol`disk
    ensures inode.Valid() && (r == Done ==> Backed(file.store, inode) && PageData.At(file.store, i) == data)
    ensures r != Done ==> file.store == old(file.store)
  {
    hide *;
    BackedIs(file.store, inode);
    inode.ValidFacts();
    BlockSizeIs(inode);
    r := WritePage(inode, i, data);
    inode.ValidFacts();
    if r == Done {
      file.WritePage(i, data);
    }
    BackedIs(file.store, inode);
  }

  lemma BackedIs(store: map<Index, Data>, inode: Inode)
    requires |inode.iblock| == BLOCKS && inode.vol.ptrs > 0
    ensures Backed(store, inode) <==> forall i: Index :: PageData.At(store, i) == FilePage(inode, i)
  {
  }
}
