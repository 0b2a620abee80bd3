/**
 The cached file of src/mm/pagecache.c with its calls serialised by the inode lock: reads, writes, flushes,
 reclaim and truncation, over a backing store written block by block (src/fs/brkfs/file.c).
 */
module CachedFile {
  import Arith
  import opened PageData
  import opened FlatFile

  ghost predicate Distinct(s: seq<Index>) {
    forall a, b :: 0 <= a < b < |s| ==> s[a] != s[b]
  }

  /** The dirty list names the dirty pages and the LRU list every page, each once. */
  ghost predicate ListsOk(pages: Pages, dirtyList: seq<Index>, lru: seq<Index>) {
    && Distinct(dirtyList) && (forall i :: i in dirtyList <==> i in pages && pages[i].dirty)
    && Distinct(lru) && (forall i :: i in lru <==> i in pages)
  }

  lemma DistinctAdd(s: seq<Index>, i: Index)
    requires Distinct(s) && i !in s
    ensures Distinct(s + [i])
  {
  }

  lemma NotBefore(s: seq<Index>, k: nat)
    requires Distinct(s) && k < |s|
    ensures s[k] !in s[..k]
  {
    forall a | 0 <= a < k
      ensures s[..k][a] != s[k]
    {
    }
  }

  lemma AddPage(pages: Pages, store: Store, i: Index)
    requires i !in pages && PagesOk(pages, store)
    ensures PagesOk(pages[i := CPage(Zero(), false, false)], store)
    ensures SameFile(pages, store, pages[i := CPage(Zero(), false, false)], store)
  {
    hide At, Zero;
  }

  lemma FillPage(pages: Pages, store: Store, i: Index)
    requires i in pages && !pages[i].uptodate && PagesOk(pages, store)
    ensures PagesOk(pages[i := CPage(At(store, i), true, false)], store) && !pages[i].dirty
    ensures SameFile(pages, store, pages[i := CPage(At(store, i), true, false)], store)
  {
    hide At;
  }

  lemma SameTail(pages: Pages, store: Store, pages': Pages, size: nat)
    requires TailOk(pages, store, size) && SameFile(pages, store, pages', store)
    ensures TailOk(pages', store, size)
  {
    hide At, FileData;
    forall q: nat | q >= size
      ensures ByteAt(pages', store, q) == 0
    {
      assert ByteAt(pages, store, q) == 0;
    }
  }

  /** Only page `i` may have changed its state. */
  ghost predicate OnlyAt(pages: Pages, pages': Pages, i: Index) {
    i in pages' && pages'.Keys == pages.Keys + {i} && forall j :: j in pages && j != i ==> pages'[j] == pages[j]
  }

  class Cached {
    var pages: Pages
    var dirtyList: seq<Index>
    var lru: seq<Index>
    var store: Store
    var size: nat
    const bs: nat

    ghost predicate Valid()
      reads `pages, `dirtyList, `lru, `store, `size
    {
      bs > 0 && PAGE_SIZE % bs == 0 && PagesOk(pages, store) && TailOk(pages, store, size) &&
          ListsOk(pages, dirtyList, lru)
    }

    /** The file as its users see it. */
    ghost function File(): seq<int>
      reads `pages, `store, `size
    {
      Contents(pages, store, size)
    }

    /** find_or_create_page: the page is in the cache, and is the most recently used one. */
    method FindOrCreate(i: Index)
      requires PagesOk(pages, store) && ListsOk(pages, dirtyList, lru)
      modifies `pages, `lru
      ensures PagesOk(pages, store) && ListsOk(pages, dirtyList, lru) && SameFile(old(pages), store, pages, store)
      ensures i in pages && OnlyAt(old(pages), pages, i) && (i in old(pages) ==> pages[i] == old(pages[i]))
      ensures i !in old(pages) ==> !pages[i].uptodate
      ensures lru == Without(old(lru), i) + [i]
    {
      hide Without, Distinct, PagesOk, SameFile, Zero;
      WithoutIs(lru, i);
      DistinctAdd(Without(lru, i), i);
      SameRefl(pages, store);
      if i in pages {
        lru := Without(lru, i) + [i];
      } else {
        AddPage(pages, store, i);
        pages := pages[i := CPage(Zero(), false, false)];
        WithoutNone(lru, i);
        lru := lru + [i];
      }
    }

    /** read_mapping_page. */
    method ReadMappingPage(i: Index)
      requires PagesOk(pages, store) && ListsOk(pages, dirtyList, lru)
      modifies `pages, `lru
      ensures PagesOk(pages, store) && ListsOk(pages, dirtyList, lru) && SameFile(old(pages), store, pages, store)
      ensures i in pages && OnlyAt(old(pages), pages, i) && pages[i].uptodate &&
              pages[i].data == FileData(old(pages), store, i)
      ensures lru == Without(old(lru), i) + [i]
    {
      hide Without, Distinct;
      FindOrCreate(i);
      if !pages[i].uptodate {
        FillPage(pages, store, i);
        hide PagesOk;
        pages := pages[i := CPage(At(store, i), true, false)];
      }
    }

    /** cached_page_mark_dirty after the copy of `data` into page `i`. */
    method Modify(i: Index, data: Data)
      requires PagesOk(pages, store) && ListsOk(pages, dirtyList, lru) && i in pages
      modifies `pages, `dirtyList
      ensures PagesOk(pages, store) && ListsOk(pages, dirtyList, lru)
      ensures i in pages && OnlyAt(old(pages), pages, i) && pages[i] == CPage(data, true, true)
      ensures forall j: Index :: FileData(pages, store, j) == if j == i then data else FileData(old(pages), store, j)
    {
      hide At;
      if !pages[i].dirty {
        DistinctAdd(dirtyList, i);
        dirtyList := dirtyList + [i];
      }
      pages := pages[i := CPage(data, true, true)];
    }

    /** generic_file_read. */
    method Read(pos: nat, len: nat) returns (buf: seq<int>)
      requires Valid()
      modifies `pages, `lru
      ensures Valid() && File() == old(File())
      ensures buf == ReadAt(File(), pos, len)
    {
      hide *;
      buf := [];
      FileIs();
      ReadIs(pages, store, size, pos, len);
      if pos >= size {
        return;
      }
      var n := if pos + len > size then size - pos else len;
      ghost var pages0 := pages;
      var done := 0;
      SameRefl(pages, store);
      ValidParts();
      BytesNone(pages, store, pos);
      PageArith();
      while done < n
        invariant done <= n && buf == Bytes(pages0, store, pos, done)
        invariant PagesOk(pages, store) && ListsOk(pages, dirtyList, lru) && SameFile(pages0, store, pages, store)
      {
        var at := pos + done;
        var i, off := at / PAGE_SIZE, at % PAGE_SIZE;
        var nr := PAGE_SIZE - off;
        if nr > n - done {
          nr := n - done;
        }
        ghost var pages1 := pages;
        ReadMappingPage(i);
        SameTrans(pages0, store, pages1, pages);
        SameAt(pages0, store, pages1, i);
        buf := buf + pages[i].data[off..off + nr];
        PageBytes(pages0, store, at, nr);
        BytesAppend(pages0, store, pos, done, nr);
        done := done + nr;
      }
      ValidFrom(pages0);
    }

    /** generic_file_write. A whole page is not read first. */
    method Write(pos: nat, buf: seq<int>)
      requires Valid()
      modifies `pages, `dirtyList, `lru, `size
      ensures Valid() && File() == Written(old(File()), pos, buf)
    {
      hide *;
      ghost var pages0, size0 := pages, size;
      var done := 0;
      PageArith();
      ValidParts();
      FileIs();
      OverlaidNothing(pages, store, pos);
      assert buf[..0] == [];
      while done < |buf|
        invariant done <= |buf| && PagesOk(pages, store) && ListsOk(pages, dirtyList, lru)
        invariant Overlaid(pages0, store, pages, store, pos, buf[..done])
        invariant size == if done > 0 && pos + done > size0 then pos + done else size0
      {
        var at := pos + done;
        var i, off := at / PAGE_SIZE, at % PAGE_SIZE;
        var nr := PAGE_SIZE - off;
        var whole := off == 0 && |buf| - done >= PAGE_SIZE;
        if nr > |buf| - done {
          nr := |buf| - done;
        }
        ghost var pages1 := pages;
        var chunk := buf[done..done + nr];
        WholeSplice(FileData(pages, store, i), off, chunk);
        ghost var pages2: Pages;
        if whole {
          FindOrCreate(i);
          pages2 := pages;
          Modify(i, chunk);
        } else {
          ReadMappingPage(i);
          pages2 := pages;
          Modify(i, Splice(pages[i].data, off, chunk));
        }
        ModifiedAt(pages1, pages2, pages, store, at, chunk);
        OverlaidMore(pages0, store, pages1, store, pages, store, pos, buf[..done], chunk);
        assert buf[..done] + chunk == buf[..done + nr];
        done := done + nr;
        if pos + done > size {
          size := pos + done;
        }
      }
      assert buf[..done] == buf;
      WrittenIs(pages0, store, size0, pages, store, pos, buf);
      OverlaidTail(pages0, store, size0, pages, pos, buf, size);
      ValidNow();
      FileIs();
    }

    /** brkfs_file_write_page: the blocks below the end of the file, the last one padded with zeros. */
    method WritePage(i: Index, data: Data)
      requires bs > 0 && PAGE_SIZE % bs == 0
      requires forall k :: 0 <= k < PAGE_SIZE && i * PAGE_SIZE + k >= size ==> data[k] == 0 && At(store, i)[k] == 0
      modifies `store
      ensures At(store, i) == data && forall j: Index :: j != i ==> At(store, j) == At(old(store), j)
    {
      hide At;
      ghost var before := At(store, i);
      var boff := 0;
      WroteNone(data, before);
      AtRefl(store, i);
      while boff < PAGE_SIZE
        invariant 0 <= boff <= PAGE_SIZE && boff % bs == 0
        invariant At(store, i) == Wrote(data, before, boff) && SameElsewhere(old(store), store, i)
      {
        BlockFits(boff, bs);
        if i * PAGE_SIZE + boff >= size {
          break;
        }
        var valid := size - (i * PAGE_SIZE + boff);
        if valid > bs {
          valid := bs;
        }
        var block := data[boff..boff + valid] + seq(bs - valid, _ => 0);
        assert block == data[boff..boff + bs];
        WroteMore(data, before, boff, bs);
        AtSet(store, i, Splice(At(store, i), boff, block));
        store := store[i := Splice(At(store, i), boff, block)];
        boff := boff + bs;
      }
      WroteAll(data, before, boff);
      SameElsewhereIs(old(store), store, i);
    }

    /** The loop of collect_dirty_batch: the dirty pages in the range leave the list, in order. */
    method Collect(first: Index, last: Index) returns (batch: seq<Index>)
      requires ListsOk(pages, dirtyList, lru)
      modifies `dirtyList
      ensures Distinct(batch) && Distinct(dirtyList)
      ensures forall i :: i in batch <==> i in old(dirtyList) && first <= i <= last
      ensures forall i :: i in dirtyList <==> i in old(dirtyList) && !(first <= i <= last)
    {
      batch := [];
      var list := dirtyList;
      var rest: seq<Index>, k := [], 0;
      while k < |list|
        invariant k <= |list| && Distinct(batch) && Distinct(rest)
        invariant forall i :: i in batch <==> i in list[..k] && first <= i <= last
        invariant forall i :: i in rest <==> i in list[..k] && !(first <= i <= last)
      {
        var i := list[k];
        NotBefore(list, k);
        assert list[..k + 1] == list[..k] + [i];
        if first <= i <= last {
          DistinctAdd(batch, i);
          batch := batch + [i];
        } else {
          DistinctAdd(rest, i);
          rest := rest + [i];
        }
        k := k + 1;
      }
      assert list[..k] == list;
      dirtyList := rest;
    }

    /** page_cache_flush_range: afterwards no page in the range is dirty, and the file is the same. */
    method FlushRange(first: Index, last: Index)
      requires Valid()
      modifies `pages, `dirtyList, `store
      ensures Valid() && File() == old(File()) && Flushed(old(pages), old(store), pages, store)
      ensures forall i :: i in pages && first <= i <= last ==> !pages[i].dirty
    {
      hide *;
      ValidParts();
      FileIs();
      ghost var pages0, store0 := pages, store;
      var batch := Collect(first, last);
      FlushStart(pages, store, lru, old(dirtyList), dirtyList, batch, first, last);
      while batch != []
        invariant Flushing(pages0, store0, pages, store, dirtyList, batch, first, last)
        invariant PagesOk(pages, store) && TailOk(pages, store, size)
        decreases |batch|
      {
        var i := batch[0];
        FlushNext(pages0, store0, pages, store, dirtyList, batch, first, last, size);
        ghost var store1, pages1 := store, pages;
        pages := pages[i := pages[i].(dirty := false)];
        WritePage(i, pages[i].data);
        FlushDone(pages0, store0, pages1, store1, store, dirtyList, batch, first, last, size);
        batch := batch[1..];
      }
      FlushEnd(pages0, store0, pages, store, old(dirtyList), dirtyList, lru, first, last);
      ValidNow();
      FlushedContents(pages0, store0, pages, store, size);
      FileIs();
    }

    /** page_cache_shrink, with no page in use: the oldest pages go unless they are dirty. */
    method Shrink(toReclaim: nat) returns (freed: nat, ghost n: nat)
      requires Valid()
      modifies `pages, `lru
      ensures Valid() && File() == old(File())
      ensures freed <= toReclaim && |pages| + freed == |old(pages)|
      ensures Scanned(old(pages), old(lru), pages, lru, n) && (freed == toReclaim || n >= |pages|)
      ensures forall i :: i in pages ==> i in old(pages) && pages[i] == old(pages)[i]
      ensures forall i :: i in old(pages) && old(pages)[i].dirty ==> i in pages
    {
      hide *;
      ghost var pages0 := pages;
      ValidParts();
      FileIs();
      freed := 0;
      var scanned: nat := 0;
      ShrinkStart(pages, store, dirtyList, lru);
      ghost var lru0 := lru;
      ScanStart(pages, dirtyList, lru);
      while freed < toReclaim && scanned < |pages| && lru != []
        invariant freed <= toReclaim && |pages| + freed == |pages0|
        invariant Shrinking(pages0, store, pages, dirtyList, lru)
        invariant Scanned(pages0, lru0, pages, lru, scanned) && |lru0| == |pages0| && ListsOk(pages0, dirtyList, lru0)
        decreases |pages| - scanned
      {
        var i := lru[0];
        ScanNext(pages0, dirtyList, lru0, pages, lru, scanned);
        scanned := scanned + 1;
        LruHead(pages0, store, pages, dirtyList, lru);
        if pages[i].dirty {
          lru := lru[1..] + [i];
        } else {
          pages := pages - {i};
          lru := lru[1..];
          freed := freed + 1;
        }
      }
      n := scanned;
      LruEmpty(pages0, store, pages, dirtyList, lru);
      ShrinkEnd(pages0, store, pages, dirtyList, lru);
      ValidFrom(pages0);
    }

    /** __detach_locked. */
    method Detach(i: Index)
      requires PagesOk(pages, store) && ListsOk(pages, dirtyList, lru) && i in pages
      modifies `pages, `dirtyList, `lru
      ensures pages == old(pages) - {i} && PagesOk(pages, store) && ListsOk(pages, dirtyList, lru)
    {
      hide Distinct;
      WithoutIs(lru, i);
      WithoutIs(dirtyList, i);
      if pages[i].dirty {
        dirtyList := Without(dirtyList, i);
      }
      lru := Without(lru, i);
      pages := pages - {i};
    }

    /** truncate_inode_pages: whole pages past the new end leave the cache; the page that straddles it ends in zeros. */
    method TruncatePages(n: nat)
      requires Valid()
      modifies `pages, `dirtyList, `lru
      ensures Valid() && forall i :: i in pages ==> i < FirstFull(n)
      ensures forall q: nat :: q < n ==> ByteAt(pages, store, q) == ByteAt(old(pages), store, q)
      ensures n % PAGE_SIZE != 0 ==> Straddled(pages, store, n)
    {
      hide *;
      PageArith();
      ValidParts();
      ghost var pages0 := pages;
      var first := FirstFull(n);
      var todo := set i | i in pages && i >= first;
      while todo != {}
        invariant PagesOk(pages, store) && ListsOk(pages, dirtyList, lru)
        invariant pages == map i | i in pages0 && (i < first || i in todo) :: pages0[i]
        invariant forall i :: i in todo ==> i in pages0 && i >= first
        decreases |todo|
      {
        var i :| i in todo;
        Detach(i);
        todo := todo - {i};
      }
      DetachedBytes(pages0, pages, store, n, size);
      if n % PAGE_SIZE != 0 {
        ghost var pages1 := pages;
        var i, off := n / PAGE_SIZE, n % PAGE_SIZE;
        ReadMappingPage(i);
        ghost var pages2 := pages;
        var zeros := seq(PAGE_SIZE - off, _ => 0);
        Modify(i, Splice(pages[i].data, off, zeros));
        ModifiedAt(pages1, pages2, pages, store, n, zeros);
        ZeroedBytes(pages1, pages, store, n, size);
        KeysBelow(pages1, pages2, pages, i, n);
      }
      ValidNow();
    }

    /** brkfs_truncate_inode_blocks as the page store sees it: blocks past the new end read as zeros. */
    method TruncateBlocks(n: nat)
      requires bs > 0
      modifies `store, `size
      ensures size == n
      ensures n > old(size) ==> store == old(store)
      ensures n <= old(size) ==> forall i: Index :: At(store, i) == Cut(At(old(store), i), i, (n + bs - 1) / bs * bs)
    {
      if n <= size {
        CutZero((n + bs - 1) / bs * bs);
        hide Zero, Cut;
        store := map i | i in store :: Cut(store[i], i, (n + bs - 1) / bs * bs);
      }
      size := n;
    }

    /** brkfs_setattr with a new size. */
    method SetSize(n: nat)
      requires Valid() && n < 0x8000_0000_0000_0000
      modifies `pages, `dirtyList, `lru, `store, `size
      ensures Valid() && File() == Resized(old(File()), n)
    {
      hide *;
      ghost var pages0, store0, size0 := pages, store, size;
      FileIs();
      ValidParts();
      TruncatePages(n);
      ghost var pages1 := pages;
      ValidParts();
      FlushRange(0, LAST);
      ValidParts();
      AllClean(n, pages1, pages, store0, store);
      ghost var store2 := store;
      TruncateBlocks(n);
      TruncatedOk(pages0, store0, size0, pages1, pages, store2, store, n, bs);
      ValidNow();
      FileIs();
    }

    lemma ValidNow()
      requires bs > 0 && PAGE_SIZE % bs == 0 && PagesOk(pages, store) && TailOk(pages, store, size) &&
               ListsOk(pages, dirtyList, lru)
      ensures Valid()
    {
    }

    lemma FileIs()
      ensures File() == Contents(pages, store, size)
    {
    }

    /** What only moves pages in and out of the cache keeps the file. */
    lemma ValidFrom(pages0: Pages)
      requires bs > 0 && PAGE_SIZE % bs == 0 && TailOk(pages0, store, size) && SameFile(pages0, store, pages, store)
      requires PagesOk(pages, store) && ListsOk(pages, dirtyList, lru)
      ensures Valid() && File() == Contents(pages0, store, size)
    {
      SameTail(pages0, store, pages, size);
      SameContents(pages0, store, pages, store, size);
    }

    lemma ValidParts()
      requires Valid()
      ensures bs > 0 && PAGE_SIZE % bs == 0 && PagesOk(pages, store) && TailOk(pages, store, size) &&
              ListsOk(pages, dirtyList, lru)
    {
    }
  }

  lemma BytesNone(pages: Pages, store: Store, pos: nat)
    ensures Bytes(pages, store, pos, 0) == []
  {
  }

  lemma SameRefl(pages: Pages, store: Store)
    ensures SameFile(pages, store, pages, store)
  {
  }

  lemma SameTrans(p0: Pages, store: Store, p1: Pages, p2: Pages)
    requires SameFile(p0, store, p1, store) && SameFile(p1, store, p2, store)
    ensures SameFile(p0, store, p2, store)
  {
    hide FileData;
    forall i: Index
      ensures FileData(p2, store, i) == FileData(p0, store, i)
    {
      assert FileData(p1, store, i) == FileData(p0, store, i);
    }
  }

  lemma SameAt(p0: Pages, store: Store, p1: Pages, i: Index)
    requires SameFile(p0, store, p1, store)
    ensures FileData(p1, store, i) == FileData(p0, store, i)
  {
  }

  /** Part way through reclaim: some clean pages are gone. */
  ghost predicate Shrinking(pages0: Pages, store: Store, pages: Pages, dirtyList: seq<Index>, lru: seq<Index>) {
    && SameFile(pages0, store, pages, store) && PagesOk(pages, store) && ListsOk(pages, dirtyList, lru)
    && (forall i :: i in pages ==> i in pages0 && pages[i] == pages0[i])
    && (forall i :: i in pages0 && pages0[i].dirty ==> i in pages)
  }

  /** The dirty pages of a list, in order. */
  ghost function DirtyOf(s: seq<Index>, pages: Pages): seq<Index> {
    if s == [] then []
    else var i := s[|s| - 1];
      DirtyOf(s[..|s| - 1], pages) + if i in pages && pages[i].dirty then [i] else []
  }

  /** The pages left once those in `seen` have been dropped, except for the dirty ones. */
  ghost function Spared(pages: Pages, seen: seq<Index>): Pages {
    map i | i in pages && (i in seen ==> pages[i].dirty) :: pages[i]
  }

  /** The first `n` pages of the list have been looked at: the dirty ones moved to its end, the others dropped. */
  ghost predicate Scanned(pages0: Pages, lru0: seq<Index>, pages: Pages, lru: seq<Index>, n: nat) {
    && n <= |lru0| && lru == lru0[n..] + DirtyOf(lru0[..n], pages0)
    && pages == Spared(pages0, lru0[..n])
  }

  lemma ScanStart(pages: Pages, dirtyList: seq<Index>, lru: seq<Index>)
    requires ListsOk(pages, dirtyList, lru)
    ensures Scanned(pages, lru, pages, lru, 0) && |lru| == |pages|
  {
    ListSize(lru, pages.Keys);
    assert |pages.Keys| == |pages|;
  }

  lemma {:induction false} ListSize(s: seq<Index>, keys: set<Index>)
    requires Distinct(s) && forall i :: i in s <==> i in keys
    ensures |s| == |keys|
  {
    if s == [] {
      assert keys == {};
    } else {
      Head(s);
      ListSize(s[1..], keys - {s[0]});
    }
  }

  lemma ScanNext(pages0: Pages, dirtyList: seq<Index>, lru0: seq<Index>, pages: Pages, lru: seq<Index>, n: nat)
    requires Scanned(pages0, lru0, pages, lru, n) && n < |lru0| && ListsOk(pages0, dirtyList, lru0)
    ensures lru != [] && lru[0] in pages
    ensures if pages[lru[0]].dirty then Scanned(pages0, lru0, pages, lru[1..] + [lru[0]], n + 1)
            else Scanned(pages0, lru0, pages - {lru[0]}, lru[1..], n + 1)
  {
    var i := lru0[n];
    assert i in lru0 && i !in lru0[..n];
    hide DirtyOf, Spared;
    ScanList(pages0, lru0, lru, n);
    ScanPages(pages0, lru0[..n], pages, i);
    assert lru0[..n] + [i] == lru0[..n + 1];
  }

  lemma ScanList(pages0: Pages, lru0: seq<Index>, lru: seq<Index>, n: nat)
    requires n < |lru0| && lru0[n] in pages0 && lru == lru0[n..] + DirtyOf(lru0[..n], pages0)
    ensures lru[0] == lru0[n]
    ensures lru0[n + 1..] + DirtyOf(lru0[..n + 1], pages0) == if pages0[lru[0]].dirty then lru[1..] + [lru[0]]
            else lru[1..]
  {
    assert lru0[..n + 1][..n] == lru0[..n] && lru0[n..] == [lru0[n]] + lru0[n + 1..];
  }

  lemma ScanPages(pages0: Pages, seen: seq<Index>, pages: Pages, i: Index)
    requires i in pages0 && i !in seen && pages == Spared(pages0, seen)
    ensures i in pages && pages[i] == pages0[i]
    ensures (if pages0[i].dirty then pages else pages - {i}) == Spared(pages0, seen + [i])
  {
  }

  lemma LruEmpty(pages0: Pages, store: Store, pages: Pages, dirtyList: seq<Index>, lru: seq<Index>)
    requires Shrinking(pages0, store, pages, dirtyList, lru)
    ensures lru == [] ==> |pages| == 0
  {
    if lru == [] {
      assert pages == map[];
    }
  }

  lemma ShrinkStart(pages: Pages, store: Store, dirtyList: seq<Index>, lru: seq<Index>)
    requires PagesOk(pages, store) && ListsOk(pages, dirtyList, lru)
    ensures Shrinking(pages, store, pages, dirtyList, lru)
  {
    hide PagesOk, ListsOk, FileData;
  }

  lemma ShrinkEnd(pages0: Pages, store: Store, pages: Pages, dirtyList: seq<Index>, lru: seq<Index>)
    requires Shrinking(pages0, store, pages, dirtyList, lru)
    ensures SameFile(pages0, store, pages, store) && PagesOk(pages, store) && ListsOk(pages, dirtyList, lru)
    ensures forall i :: i in pages ==> i in pages0 && pages[i] == pages0[i]
    ensures forall i :: i in pages0 && pages0[i].dirty ==> i in pages
  {
    hide PagesOk, ListsOk, FileData;
  }

  lemma Head(lru: seq<Index>)
    requires Distinct(lru) && lru != []
    ensures lru[0] in lru && lru[0] !in lru[1..] && Distinct(lru[1..]) && Distinct(lru[1..] + [lru[0]])
    ensures forall i :: i in lru <==> i == lru[0] || i in lru[1..]
    ensures forall i :: i in lru[1..] + [lru[0]] <==> i in lru
  {
    assert lru == [lru[0]] + lru[1..];
  }

  lemma RotateLists(pages: Pages, dirtyList: seq<Index>, lru: seq<Index>, lru': seq<Index>)
    requires ListsOk(pages, dirtyList, lru) && Distinct(lru') && forall i :: i in lru' <==> i in lru
    ensures ListsOk(pages, dirtyList, lru')
  {
    hide Distinct;
  }

  lemma DropLists(pages: Pages, dirtyList: seq<Index>, lru: seq<Index>, i: Index, lru': seq<Index>)
    requires ListsOk(pages, dirtyList, lru) && i in pages && !pages[i].dirty
    requires Distinct(lru') && i !in lru' && forall j :: j in lru <==> j == i || j in lru'
    ensures ListsOk(pages - {i}, dirtyList, lru')
  {
    hide Distinct;
  }

  lemma LruHead(pages0: Pages, store: Store, pages: Pages, dirtyList: seq<Index>, lru: seq<Index>)
    requires Shrinking(pages0, store, pages, dirtyList, lru) && lru != []
    ensures lru[0] in pages
    ensures pages[lru[0]].dirty ==> Shrinking(pages0, store, pages, dirtyList, lru[1..] + [lru[0]])
    ensures !pages[lru[0]].dirty ==>
            Shrinking(pages0, store, pages - {lru[0]}, dirtyList, lru[1..]) && |pages - {lru[0]}| == |pages| - 1
  {
    Head(lru);
    var i := lru[0];
    assert i in pages;
    if pages[i].dirty {
      RotateLists(pages, dirtyList, lru, lru[1..] + [i]);
      hide ListsOk, PagesOk, SameFile;
    } else {
      DropLists(pages, dirtyList, lru, i, lru[1..]);
      DropClean(pages0, store, pages, i);
      hide ListsOk, PagesOk, SameFile;
    }
  }

  lemma DropClean(pages0: Pages, store: Store, pages: Pages, i: Index)
    requires SameFile(pages0, store, pages, store) && PagesOk(pages, store) && i in pages && !pages[i].dirty
    ensures SameFile(pages0, store, pages - {i}, store) && PagesOk(pages - {i}, store) && |pages - {i}| == |pages| - 1
  {
    hide At;
    var pages' := pages - {i};
    assert pages'.Keys == pages.Keys - {i};
    assert |pages'| == |pages'.Keys|;
    forall j: Index
      ensures FileData(pages', store, j) == FileData(pages0, store, j)
    {
      assert FileData(pages, store, j) == FileData(pages0, store, j);
    }
  }

  /** Same pages with the same contents; only dirty marks were taken away. */
  ghost predicate Flushed(pages: Pages, store: Store, pages': Pages, store': Store) {
    && pages'.Keys == pages.Keys && SameFile(pages, store, pages', store')
    && (forall i :: i in pages ==>
       pages'[i].data == pages[i].data && pages'[i].uptodate == pages[i].uptodate &&
       (pages'[i].dirty ==> pages[i].dirty))
  }

  lemma FlushedContents(pages: Pages, store: Store, pages': Pages, store': Store, size: nat)
    requires Flushed(pages, store, pages', store')
    ensures Contents(pages', store', size) == Contents(pages, store, size)
  {
    SameContents(pages, store, pages', store', size);
  }

  /** Half way through a flush: the pages still in the batch are dirty and on no list. */
  ghost predicate Flushing(pages: Pages, store: Store, pages': Pages, store': Store, dirtyList: seq<Index>,
                           batch: seq<Index>, first: Index, last: Index) {
    && Flushed(pages, store, pages', store') && Distinct(batch) && Distinct(dirtyList)
    && (forall i :: i in batch ==> i in pages' && pages'[i].dirty && first <= i <= last)
    && (forall i :: i in dirtyList ==> i in pages' && pages'[i].dirty && !(first <= i <= last))
    && (forall i :: i in pages' && pages'[i].dirty ==> i in batch || i in dirtyList)
  }

  lemma FlushStart(pages: Pages, store: Store, lru: seq<Index>, list0: seq<Index>, list: seq<Index>, batch: seq<Index>,
                   first: Index, last: Index)
    requires ListsOk(pages, list0, lru) && Distinct(batch) && Distinct(list)
    requires forall i :: i in batch <==> i in list0 && first <= i <= last
    requires forall i :: i in list <==> i in list0 && !(first <= i <= last)
    ensures Flushing(pages, store, pages, store, list, batch, first, last)
  {
    hide FileData;
  }

  lemma FlushNext(pages0: Pages, store0: Store, pages: Pages, store: Store, list: seq<Index>, batch: seq<Index>,
                  first: Index, last: Index, size: nat)
    requires Flushing(pages0, store0, pages, store, list, batch, first, last) && batch != [] && PagesOk(pages, store) &&
             TailOk(pages, store, size)
    ensures batch[0] in pages && pages[batch[0]].uptodate
    ensures forall k :: 0 <= k < PAGE_SIZE && batch[0] * PAGE_SIZE + k >= size ==>
            pages[batch[0]].data[k] == 0 && At(store, batch[0])[k] == 0
  {
    var i := batch[0];
    assert i in batch;
    hide Flushing, SameFile, PagesOk;
    forall k | 0 <= k < PAGE_SIZE && i * PAGE_SIZE + k >= size
      ensures pages[i].data[k] == 0 && At(store, i)[k] == 0
    {
      var q := i * PAGE_SIZE + k;
      assert q / PAGE_SIZE == i && q % PAGE_SIZE == k;
      assert ByteAt(pages, store, q) == 0;
      assert At(store, q / PAGE_SIZE)[q % PAGE_SIZE] == 0;
    }
  }

  lemma CleanedSame(pages: Pages, store: Store, store': Store, i: Index)
    requires i in pages && pages[i].uptodate && PagesOk(pages, store)
    requires At(store', i) == pages[i].data && forall j: Index :: j != i ==> At(store', j) == At(store, j)
    ensures var pages' := pages[i := pages[i].(dirty := false)];
            SameFile(pages, store, pages', store') && PagesOk(pages', store')
  {
    hide At;
  }

  lemma FlushedTrans(p0: Pages, s0: Store, p1: Pages, s1: Store, p2: Pages, s2: Store)
    requires Flushed(p0, s0, p1, s1) && Flushed(p1, s1, p2, s2)
    ensures Flushed(p0, s0, p2, s2)
  {
    hide FileData;
    forall j: Index
      ensures FileData(p2, s2, j) == FileData(p0, s0, j)
    {
      assert FileData(p1, s1, j) == FileData(p0, s0, j);
    }
  }

  lemma CleanedTail(pages: Pages, store: Store, pages': Pages, store': Store, i: Index, size: nat)
    requires TailOk(pages, store, size) && SameFile(pages, store, pages', store') && i in pages && pages[i].uptodate
    requires At(store', i) == pages[i].data && forall j: Index :: j != i ==> At(store', j) == At(store, j)
    ensures TailOk(pages', store', size)
  {
    hide At;
    forall q: nat | q >= size
      ensures ByteAt(pages', store', q) == 0 && At(store', q / PAGE_SIZE)[q % PAGE_SIZE] == 0
    {
      assert ByteAt(pages, store, q) == 0;
      assert At(store, q / PAGE_SIZE)[q % PAGE_SIZE] == 0;
    }
  }

  lemma FlushDone(pages0: Pages, store0: Store, pages: Pages, store: Store, store': Store, list: seq<Index>,
                  batch: seq<Index>, first: Index, last: Index, size: nat)
    requires Flushing(pages0, store0, pages, store, list, batch, first, last) && batch != [] && PagesOk(pages, store) &&
             TailOk(pages, store, size)
    requires batch[0] in pages && At(store', batch[0]) == pages[batch[0]].data &&
             forall j: Index :: j != batch[0] ==> At(store', j) == At(store, j)
    ensures var pages' := pages[batch[0] := pages[batch[0]].(dirty := false)];
            Flushing(pages0, store0, pages', store', list, batch[1..], first, last) && PagesOk(pages', store') &&
                TailOk(pages', store', size)
  {
    var i := batch[0];
    assert i in batch && pages[i].uptodate;
    var pages' := pages[i := pages[i].(dirty := false)];
    CleanedSame(pages, store, store', i);
    hide FileData, At, PagesOk;
    CleanedTail(pages, store, pages', store', i, size);
    hide TailOk;
    assert Flushed(pages, store, pages', store');
    FlushedTrans(pages0, store0, pages, store, pages', store');
    hide Flushed, SameFile;
    assert batch == [i] + batch[1..];
  }

  lemma FlushEnd(pages0: Pages, store0: Store, pages: Pages, store: Store, list0: seq<Index>, list: seq<Index>,
                 lru: seq<Index>, first: Index, last: Index)
    requires Flushing(pages0, store0, pages, store, list, [], first, last) && ListsOk(pages0, list0, lru)
    ensures Flushed(pages0, store0, pages, store) && ListsOk(pages, list, lru)
    ensures forall i :: i in pages && first <= i <= last ==> !pages[i].dirty
  {
    hide SameFile, FileData;
  }

  /** The first `n` bytes written. */
  ghost function Wrote(data: Data, before: Data, n: nat): seq<int>
    requires n <= PAGE_SIZE
  {
    data[..n] + before[n..]
  }

  lemma WroteNone(data: Data, before: Data)
    ensures Wrote(data, before, 0) == before
  {
  }

  lemma WroteMore(data: Data, before: Data, n: nat, m: nat)
    requires n + m <= PAGE_SIZE
    ensures |Wrote(data, before, n)| == PAGE_SIZE
    ensures Splice(Wrote(data, before, n), n, data[n..n + m]) == Wrote(data, before, n + m)
  {
  }

  lemma WroteAll(data: Data, before: Data, n: nat)
    requires n <= PAGE_SIZE && forall k :: n <= k < PAGE_SIZE ==> data[k] == before[k]
    ensures Wrote(data, before, n) == data
  {
  }

  lemma BlockFits(boff: nat, bs: nat)
    requires bs > 0 && PAGE_SIZE % bs == 0 && boff % bs == 0 && boff < PAGE_SIZE
    ensures boff + bs <= PAGE_SIZE && (boff + bs) % bs == 0
  {
    var a, b := boff / bs, PAGE_SIZE / bs;
    assert boff == a * bs && PAGE_SIZE == b * bs;
    if a >= b {
      Multiply(b, a, bs);
    }
    Multiply(a + 1, b, bs);
    assert boff + bs == (a + 1) * bs;
    AddModulus(boff, bs);
  }

  lemma Multiply(a: nat, b: nat, m: nat)
    ensures a <= b ==> a * m <= b * m
  {
    if a <= b {
      assert b * m - a * m == (b - a) * m;
    }
  }

  lemma AddModulus(a: nat, m: nat)
    requires m > 0
    ensures (a + m) % m == a % m
  {
    Arith.DivModUnique(a + m, m, a / m + 1, a % m);
  }

  ghost predicate SameElsewhere(store: Store, store': Store, i: Index) {
    forall j: Index :: j != i ==> At(store', j) == At(store, j)
  }

  lemma SameElsewhereIs(store: Store, store': Store, i: Index)
    requires SameElsewhere(store, store', i)
    ensures forall j: Index :: j != i ==> At(store', j) == At(store, j)
  {
  }

  lemma AtRefl(store: Store, i: Index)
    ensures SameElsewhere(store, store, i)
  {
  }

  lemma AtSet(store: Store, i: Index, d: Data)
    ensures At(store[i := d], i) == d && forall j: Index :: j != i ==> At(store[i := d], j) == At(store, j)
  {
  }

  const LAST: Index := 0xffff_ffff_ffff_ffff

  /** The first page that starts at or after byte `n`. */
  function FirstFull(n: nat): Index {
    (n + PAGE_SIZE - 1) / PAGE_SIZE
  }

  lemma FirstFullIs(n: nat, i: Index)
    ensures i < FirstFull(n) <==> i * PAGE_SIZE < n
    ensures n % PAGE_SIZE != 0 ==> n / PAGE_SIZE < FirstFull(n) && FirstFull(n) == n / PAGE_SIZE + 1
  {
  }

  /** The page with the new end in it is cached, and zero from there on. */
  ghost predicate Straddled(pages: Pages, store: Store, n: nat) {
    n / PAGE_SIZE in pages && pages[n / PAGE_SIZE].uptodate &&
        forall q: nat :: n <= q && q / PAGE_SIZE == n / PAGE_SIZE ==> ByteAt(pages, store, q) == 0
  }

  function Without(s: seq<Index>, i: Index): seq<Index> {
    if |s| == 0 then [] else if s[0] == i then Without(s[1..], i) else [s[0]] + Without(s[1..], i)
  }

  lemma {:induction false} WithoutIs(s: seq<Index>, i: Index)
    requires Distinct(s)
    ensures Distinct(Without(s, i)) && forall j :: j in Without(s, i) <==> j in s && j != i
  {
    if |s| > 0 {
      assert s == [s[0]] + s[1..];
      WithoutIs(s[1..], i);
      assert s[0] !in s[1..];
    }
  }

  lemma {:induction false} WithoutNone(s: seq<Index>, i: Index)
    requires i !in s
    ensures Without(s, i) == s
  {
    if |s| > 0 {
      WithoutNone(s[1..], i);
    }
  }

  lemma DetachedBytes(pages0: Pages, pages: Pages, store: Store, n: nat, size: nat)
    requires pages == map i | i in pages0 && (i < FirstFull(n) || i in {}) :: pages0[i]
    requires TailOk(pages0, store, size)
    ensures TailOk(pages, store, size) && forall q: nat :: q < n ==> ByteAt(pages, store, q) == ByteAt(pages0, store, q)
    ensures forall i :: i in pages ==> i < FirstFull(n)
  {
    hide At, FirstFull;
    forall q: nat | q < n
      ensures ByteAt(pages, store, q) == ByteAt(pages0, store, q)
    {
      FirstFullIs(n, q / PAGE_SIZE);
    }
    forall q: nat | q >= size
      ensures ByteAt(pages, store, q) == 0
    {
      assert ByteAt(pages0, store, q) == 0;
      assert At(store, q / PAGE_SIZE)[q % PAGE_SIZE] == 0;
    }
  }

  lemma ZeroedBytes(pages1: Pages, pages: Pages, store: Store, n: nat, size: nat)
    requires n % PAGE_SIZE != 0 && n / PAGE_SIZE in pages && pages[n / PAGE_SIZE].uptodate &&
             TailOk(pages1, store, size)
    requires Overlaid(pages1, store, pages, store, n, seq(PAGE_SIZE - n % PAGE_SIZE, _ => 0))
    ensures TailOk(pages, store, size) && Straddled(pages, store, n) &&
            forall q: nat :: q < n ==> ByteAt(pages, store, q) == ByteAt(pages1, store, q)
  {
    hide ByteAt, At;
    forall q: nat | n <= q && q / PAGE_SIZE == n / PAGE_SIZE
      ensures ByteAt(pages, store, q) == 0
    {
    }
  }

  lemma KeysBelow(pages1: Pages, pages2: Pages, pages: Pages, i: Index, n: nat)
    requires OnlyAt(pages1, pages2, i) && OnlyAt(pages2, pages, i) && i == n / PAGE_SIZE && n % PAGE_SIZE != 0
    requires forall j :: j in pages1 ==> j < FirstFull(n)
    ensures forall j :: j in pages ==> j < FirstFull(n)
  {
    FirstFullIs(n, i);
  }

  /** A page of the store with the blocks from byte `limit` of the file on freed. */
  function Cut(d: Data, i: Index, limit: nat): Data {
    seq(PAGE_SIZE, k => if 0 <= k < PAGE_SIZE && i * PAGE_SIZE + k < limit then d[k] else 0)
  }

  lemma CutZero(limit: nat)
    ensures forall i: Index :: Cut(Zero(), i, limit) == Zero()
  {
  }

  lemma AllClean(n: nat, pages1: Pages, pages: Pages, store0: Store, store2: Store)
    requires n < 0x8000_0000_0000_0000 && Flushed(pages1, store0, pages, store2)
    requires (forall i :: i in pages1 ==> i < FirstFull(n)) &&
             (forall i :: i in pages && 0 <= i <= LAST ==> !pages[i].dirty)
    ensures forall i :: i in pages ==> i < FirstFull(n) && !pages[i].dirty
  {
    forall i | i in pages
      ensures i < FirstFull(n) && !pages[i].dirty
    {
      assert i in pages1;
    }
  }

  /** The first block boundary at or after `n` lies between `n` and the first whole page after it. */
  lemma LimitIs(n: nat, bs: nat)
    requires bs > 0 && PAGE_SIZE % bs == 0
    ensures n <= (n + bs - 1) / bs * bs <= FirstFull(n) * PAGE_SIZE
  {
    var m, f := (n + bs - 1) / bs, FirstFull(n);
    assert n + bs - 1 == m * bs + (n + bs - 1) % bs;
    assert n <= f * PAGE_SIZE;
    var b := PAGE_SIZE / bs;
    assert PAGE_SIZE == b * bs;
    Assoc(f, b, bs);
    Multiply(f * b + 1, m, bs);
    assert (f * b + 1) * bs == f * b * bs + bs;
    assert m <= f * b;
    Multiply(m, f * b, bs);
  }

  lemma Assoc(f: nat, b: nat, bs: nat)
    ensures f * (b * bs) == f * b * bs
  {
  }

  /** State of the cache after the truncation of its pages and the flush, before the blocks go. */
  ghost predicate Emptied(pages: Pages, store: Store, n: nat) {
    && PagesOk(pages, store) && (forall i :: i in pages ==> i < FirstFull(n) && !pages[i].dirty)
    && (n % PAGE_SIZE != 0 ==> Straddled(pages, store, n))
  }

  /** A cached page has nothing past byte `n`. */
  lemma CachedPast(pages: Pages, store: Store, n: nat, q: nat)
    requires Emptied(pages, store, n) && q >= n && q / PAGE_SIZE < FirstFull(n)
    ensures q / PAGE_SIZE in pages && pages[q / PAGE_SIZE].uptodate && pages[q / PAGE_SIZE].data[q % PAGE_SIZE] == 0
    ensures At(store, q / PAGE_SIZE)[q % PAGE_SIZE] == 0
  {
    FirstFullIs(n, q / PAGE_SIZE);
    hide At;
    assert q / PAGE_SIZE == n / PAGE_SIZE && n % PAGE_SIZE != 0;
    assert ByteAt(pages, store, q) == 0;
  }

  /** What freeing the blocks does to the bytes. */
  lemma CutBytes(pages: Pages, store: Store, store': Store, n: nat, limit: nat)
    requires Emptied(pages, store, n) && n <= limit <= FirstFull(n) * PAGE_SIZE
    requires forall i: Index :: At(store', i) == Cut(At(store, i), i, limit)
    ensures PagesOk(pages, store')
    ensures forall q: nat :: ByteAt(pages, store', q) == if q < n then ByteAt(pages, store, q) else 0
    ensures forall q: nat :: q >= n ==> At(store', q / PAGE_SIZE)[q % PAGE_SIZE] == 0
  {
    hide At;
    forall i, k: nat | i in pages && k < PAGE_SIZE && pages[i].uptodate
      ensures pages[i].data[k] == Cut(At(store, i), i, limit)[k]
    {
      var q := i * PAGE_SIZE + k;
      assert q / PAGE_SIZE == i && q % PAGE_SIZE == k;
      if q >= n {
        CachedPast(pages, store, n, q);
      }
    }
    forall i | i in pages && pages[i].uptodate
      ensures pages[i].data == At(store', i)
    {
    }
    forall q: nat
      ensures ByteAt(pages, store', q) == if q < n then ByteAt(pages, store, q) else 0
      ensures q >= n ==> At(store', q / PAGE_SIZE)[q % PAGE_SIZE] == 0
    {
      var i, k := q / PAGE_SIZE, q % PAGE_SIZE;
      assert q == i * PAGE_SIZE + k;
      if q >= n && i < FirstFull(n) {
        CachedPast(pages, store, n, q);
      }
    }
  }

  lemma ResizedIs(pages0: Pages, store0: Store, size0: nat, pages: Pages, store: Store, n: nat)
    requires TailOk(pages0, store0, size0)
    requires forall q: nat :: ByteAt(pages, store, q) == if q < n then ByteAt(pages0, store0, q) else 0
    ensures Contents(pages, store, n) == Resized(Contents(pages0, store0, size0), n)
  {
    hide ByteAt, At;
    var c, r := Contents(pages, store, n), Resized(Contents(pages0, store0, size0), n);
    assert |c| == |r| == n;
    forall q: nat | q < n
      ensures c[q] == r[q]
    {
      assert c[q] == ByteAt(pages, store, q) == ByteAt(pages0, store0, q);
      if q >= size0 {
        assert ByteAt(pages0, store0, q) == 0;
      }
    }
  }

  lemma FlushedStraddled(pages1: Pages, store0: Store, pages: Pages, store2: Store, n: nat)
    requires Flushed(pages1, store0, pages, store2) && Straddled(pages1, store0, n)
    ensures Straddled(pages, store2, n)
  {
    hide FileData;
    forall q: nat | n <= q && q / PAGE_SIZE == n / PAGE_SIZE
      ensures ByteAt(pages, store2, q) == 0
    {
      assert ByteAt(pages1, store0, q) == 0;
    }
  }

  lemma FlushedBytes(pages1: Pages, store0: Store, pages: Pages, store2: Store)
    requires Flushed(pages1, store0, pages, store2)
    ensures forall q: nat :: ByteAt(pages, store2, q) == ByteAt(pages1, store0, q)
  {
    hide FileData;
  }

  lemma TruncatedOk(pages0: Pages, store0: Store, size0: nat, pages1: Pages, pages: Pages, store2: Store, store: Store,
                    n: nat, bs: nat)
    requires bs > 0 && PAGE_SIZE % bs == 0 && TailOk(pages0, store0, size0)
    requires (forall q: nat :: q < n ==> ByteAt(pages1, store0, q) == ByteAt(pages0, store0, q)) &&
             (n % PAGE_SIZE != 0 ==> Straddled(pages1, store0, n))
    requires Flushed(pages1, store0, pages, store2) && PagesOk(pages, store2) && TailOk(pages, store2, size0)
    requires forall i :: i in pages ==> i < FirstFull(n) && !pages[i].dirty
    requires n > size0 ==> store == store2
    requires n <= size0 ==> forall i: Index :: At(store, i) == Cut(At(store2, i), i, (n + bs - 1) / bs * bs)
    ensures PagesOk(pages, store) && TailOk(pages, store, n) &&
            Contents(pages, store, n) == Resized(Contents(pages0, store0, size0), n)
  {
    hide FileData, At, Cut, FirstFull, ByteAt;
    if n % PAGE_SIZE != 0 {
      FlushedStraddled(pages1, store0, pages, store2, n);
    }
    FlushedBytes(pages1, store0, pages, store2);
    assert Emptied(pages, store2, n);
    if n <= size0 {
      LimitIs(n, bs);
      CutBytes(pages, store2, store, n, (n + bs - 1) / bs * bs);
      hide TailOk;
      ResizedIs(pages0, store0, size0, pages, store, n);
    } else {
      assert forall q: nat :: ByteAt(pages, store, q) == if q < n then ByteAt(pages0, store0, q) else 0 by {
        TailBytes(pages, store, size0);
      }
      ResizedIs(pages0, store0, size0, pages, store, n);
    }
  }

  lemma TailBytes(pages: Pages, store: Store, size: nat)
    requires TailOk(pages, store, size)
    ensures forall q: nat :: q >= size ==> ByteAt(pages, store, q) == 0
  {
    hide ByteAt, At;
  }

  lemma WholeSplice(d: Data, off: nat, chunk: seq<int>)
    requires off + |chunk| <= PAGE_SIZE
    ensures off == 0 && |chunk| == PAGE_SIZE ==> Splice(d, off, chunk) == chunk
  {
  }

  /** The new page is the old one with the chunk spliced in. */
  lemma ModifiedAt(pages: Pages, mid: Pages, pages': Pages, store: Store, at: nat, chunk: seq<int>)
    requires at % PAGE_SIZE + |chunk| <= PAGE_SIZE && SameFile(pages, store, mid, store)
    requires forall j: Index :: FileData(pages', store, j) ==
                                if j == at / PAGE_SIZE then Splice(FileData(pages, store, at / PAGE_SIZE),
                                                                   at % PAGE_SIZE, chunk) else FileData(mid, store, j)
    ensures Overlaid(pages, store, pages', store, at, chunk)
  {
    hide FileData, Splice;
    SpliceOverlaid(pages, store, pages', store, at, chunk);
  }

  lemma OverlaidTail(pages: Pages, store: Store, size: nat, pages': Pages, pos: nat, buf: seq<int>, size': nat)
    requires TailOk(pages, store, size) && Overlaid(pages, store, pages', store, pos, buf)
    requires size' >= size && (buf != [] ==> size' >= pos + |buf|)
    ensures TailOk(pages', store, size')
  {
    hide FileData, At;
    forall q: nat | q >= size'
      ensures ByteAt(pages', store, q) == 0
    {
      assert ByteAt(pages, store, q) == 0;
    }
  }

  lemma PageArith()
    ensures PAGE_SIZE == 4096
  {
  }
}
