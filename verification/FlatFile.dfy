/** A file as a plain array of bytes, and a cached file read as one. */
module FlatFile {
  import opened PageData

  /** Writing past the end fills the gap with zeros; writing nothing changes nothing. */
  function Written(b: seq<int>, pos: nat, buf: seq<int>): seq<int> {
    if buf == [] then b
    else
      var padded := if |b| < pos + |buf| then b + seq(pos + |buf| - |b|, _ => 0) else b;
      padded[..pos] + buf + padded[pos + |buf|..]
  }

  function Resized(b: seq<int>, n: nat): seq<int> {
    if n <= |b| then b[..n] else b + seq(n - |b|, _ => 0)
  }

  function ReadAt(b: seq<int>, pos: nat, len: nat): seq<int> {
    if pos >= |b| then [] else if pos + len > |b| then b[pos..] else b[pos..pos + len]
  }

  datatype CPage = CPage(data: Data, uptodate: bool, dirty: bool)

  type Pages = map<Index, CPage>
  type Store = map<Index, Data>

  /** The contents of page `i`: the cached page if it has contents, the store otherwise. */
  function FileData(pages: Pages, store: Store, i: Index): Data {
    if i in pages && pages[i].uptodate then pages[i].data else At(store, i)
  }

  function ByteAt(pages: Pages, store: Store, q: nat): int {
    FileData(pages, store, q / PAGE_SIZE)[q % PAGE_SIZE]
  }

  ghost function Contents(pages: Pages, store: Store, size: nat): seq<int> {
    seq(size, q requires 0 <= q => ByteAt(pages, store, q))
  }

  /** A page that is not dirty is in the store. */
  ghost predicate PagesOk(pages: Pages, store: Store) {
    forall i :: i in pages ==>
        (pages[i].dirty ==> pages[i].uptodate) &&
            (pages[i].uptodate && !pages[i].dirty ==> pages[i].data == At(store, i))
  }

  /** Nothing but zeros past the end. */
  ghost predicate TailOk(pages: Pages, store: Store, size: nat) {
    && (forall q: nat :: q >= size ==> ByteAt(pages, store, q) == 0)
    && (forall q: nat :: q >= size ==> At(store, q / PAGE_SIZE)[q % PAGE_SIZE] == 0)
  }

  ghost predicate SameFile(pages: Pages, store: Store, pages': Pages, store': Store) {
    forall i: Index :: FileData(pages', store', i) == FileData(pages, store, i)
  }

  lemma SameContents(pages: Pages, store: Store, pages': Pages, store': Store, size: nat)
    requires SameFile(pages, store, pages', store')
    ensures Contents(pages', store', size) == Contents(pages, store, size)
  {
  }

  /** The bytes from `from` on. */
  ghost function Bytes(pages: Pages, store: Store, from: nat, n: nat): seq<int> {
    seq(n, k requires 0 <= k => ByteAt(pages, store, from + k))
  }

  /** A stretch within one page. */
  lemma PageBytes(pages: Pages, store: Store, pos: nat, n: nat)
    requires pos % PAGE_SIZE + n <= PAGE_SIZE
    ensures Bytes(pages, store, pos, n) == FileData(pages, store, pos / PAGE_SIZE)[pos % PAGE_SIZE..pos % PAGE_SIZE + n]
  {
    var b := Bytes(pages, store, pos, n);
    var d := FileData(pages, store, pos / PAGE_SIZE)[pos % PAGE_SIZE..pos % PAGE_SIZE + n];
    assert |b| == |d|;
    forall k: nat | k < |b|
      ensures b[k] == d[k]
    {
      SamePage(pos, k);
      assert b[k] == ByteAt(pages, store, pos + k);
      assert ByteAt(pages, store, pos + k) == FileData(pages, store, pos / PAGE_SIZE)[pos % PAGE_SIZE + k];
    }
  }

  lemma SamePage(pos: nat, k: nat)
    requires pos % PAGE_SIZE + k < PAGE_SIZE
    ensures (pos + k) / PAGE_SIZE == pos / PAGE_SIZE && (pos + k) % PAGE_SIZE == pos % PAGE_SIZE + k
  {
  }

  lemma BytesAppend(pages: Pages, store: Store, from: nat, m: nat, n: nat)
    ensures Bytes(pages, store, from, m + n) == Bytes(pages, store, from, m) + Bytes(pages, store, from + m, n)
  {
  }

  lemma ReadIs(pages: Pages, store: Store, size: nat, pos: nat, len: nat)
    ensures ReadAt(Contents(pages, store, size), pos, len) ==
            if pos >= size then [] else Bytes(pages, store, pos, if pos + len > size then size - pos else len)
  {
    hide ByteAt;
    if pos < size {
      var c := Contents(pages, store, size);
      var n := if pos + len > size then size - pos else len;
      assert ReadAt(c, pos, len) == c[pos..pos + n];
      assert c[pos..pos + n] == Bytes(pages, store, pos, n);
    }
  }

  /** The bytes `[pos, pos + |buf|)` are `buf` and all others are as before. */
  ghost predicate Overlaid(pages: Pages, store: Store, pages': Pages, store': Store, pos: nat, buf: seq<int>) {
    forall q: nat :: ByteAt(pages', store', q) == if pos <= q < pos + |buf| then buf[q - pos]
        else ByteAt(pages, store, q)
  }

  lemma OverlaidNothing(pages: Pages, store: Store, pos: nat)
    ensures Overlaid(pages, store, pages, store, pos, [])
  {
  }

  lemma OverlaidMore(p0: Pages, s0: Store, p1: Pages, s1: Store, p2: Pages, s2: Store, pos: nat, a: seq<int>,
                     b: seq<int>)
    requires Overlaid(p0, s0, p1, s1, pos, a) && Overlaid(p1, s1, p2, s2, pos + |a|, b)
    ensures Overlaid(p0, s0, p2, s2, pos, a + b)
  {
    hide ByteAt;
    forall q: nat
      ensures ByteAt(p2, s2, q) == if pos <= q < pos + |a + b| then (a + b)[q - pos] else ByteAt(p0, s0, q)
    {
      assert ByteAt(p1, s1, q) == if pos <= q < pos + |a| then a[q - pos] else ByteAt(p0, s0, q);
      assert ByteAt(p2, s2, q) == if pos + |a| <= q < pos + |a| + |b| then b[q - (pos + |a|)] else ByteAt(p1, s1, q);
    }
  }

  lemma WrittenIs(p0: Pages, s0: Store, size: nat, p1: Pages, s1: Store, pos: nat, buf: seq<int>)
    requires TailOk(p0, s0, size) && Overlaid(p0, s0, p1, s1, pos, buf)
    ensures Contents(p1, s1, if buf != [] && pos + |buf| > size then pos + |buf| else size) ==
            Written(Contents(p0, s0, size), pos, buf)
  {
    hide ByteAt;
    var size' := if buf != [] && pos + |buf| > size then pos + |buf| else size;
    var c, w := Contents(p1, s1, size'), Written(Contents(p0, s0, size), pos, buf);
    assert |w| == size';
    forall q: nat | q < size'
      ensures c[q] == w[q]
    {
      assert ByteAt(p1, s1, q) == if pos <= q < pos + |buf| then buf[q - pos] else ByteAt(p0, s0, q);
    }
  }

  /** One page spliced. */
  lemma SpliceOverlaid(p0: Pages, s0: Store, p1: Pages, s1: Store, pos: nat, b: seq<int>)
    requires pos % PAGE_SIZE + |b| <= PAGE_SIZE
    requires forall i: Index :: FileData(p1, s1, i) ==
                                if i == pos / PAGE_SIZE then Splice(FileData(p0, s0, i), pos % PAGE_SIZE, b)
                                   else FileData(p0, s0, i)
    ensures Overlaid(p0, s0, p1, s1, pos, b)
  {
    forall q: nat
      ensures ByteAt(p1, s1, q) == if pos <= q < pos + |b| then b[q - pos] else ByteAt(p0, s0, q)
    {
      hide FileData;
      var i, k := q / PAGE_SIZE, q % PAGE_SIZE;
      assert q == PAGE_SIZE * i + k && pos == PAGE_SIZE * (pos / PAGE_SIZE) + pos % PAGE_SIZE;
      SpliceAt(FileData(p0, s0, i), pos % PAGE_SIZE, b, k);
      SameIndex(q, pos, |b|);
    }
  }

  lemma SpliceAt(d: Data, off: nat, b: seq<int>, k: nat)
    requires off + |b| <= PAGE_SIZE && k < PAGE_SIZE
    ensures Splice(d, off, b)[k] == if off <= k < off + |b| then b[k - off] else d[k]
  {
  }

  lemma SameIndex(q: nat, pos: nat, n: nat)
    requires pos % PAGE_SIZE + n <= PAGE_SIZE
    ensures pos <= q < pos + n <==>
            q / PAGE_SIZE == pos / PAGE_SIZE && pos % PAGE_SIZE <= q % PAGE_SIZE < pos % PAGE_SIZE + n
    ensures pos <= q < pos + n ==> q - pos == q % PAGE_SIZE - pos % PAGE_SIZE
  {
  }
}
