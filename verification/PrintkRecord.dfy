/**
 Records of the printk ring as bytes (src/include/brk/printk_log.h, src/kern/printk.c):
 a 16-byte header, the text, and zero padding to the header's alignment.
 */
module PrintkRecord {
  type Byte = b: nat | b < 256

  const SIZE: nat := 0x10000    // PRINTK_RING_BUFFER_SIZE
  const MAX_PAYLOAD: nat := 1024
  const HEADER: nat := 16
  const MAGIC0: Byte := 0x5a
  const MAGIC1: Byte := 0xa5
  const WRAP: Byte := 4         // PRINTK_FLAGS_WRAP
  const KERN_DEBUG: Byte := 7
  const KERN_MAX: Byte := 7

  /** The low `n` bytes of `x`, least significant first. */
  function ToBytes(x: nat, n: nat): (s: seq<Byte>)
    ensures |s| == n
  {
    if n == 0 then [] else [x % 256] + ToBytes(x / 256, n - 1)
  }

  function FromBytes(s: seq<Byte>): nat {
    if |s| == 0 then 0 else s[0] + 256 * FromBytes(s[1..])
  }

  function Pow256(n: nat): nat {
    if n == 0 then 1 else 256 * Pow256(n - 1)
  }

  lemma {:induction false} BytesRoundTrip(x: nat, n: nat)
    requires x < Pow256(n)
    ensures FromBytes(ToBytes(x, n)) == x
  {
    if n > 0 {
      BytesRoundTrip(x / 256, n - 1);
      assert ToBytes(x, n)[1..] == ToBytes(x / 256, n - 1);
    }
  }

  datatype Header = Header(magic0: Byte, magic1: Byte, level: Byte, flags: Byte, len: nat, nsec: nat)

  /** The fields fit their C types. */
  predicate Fits(h: Header) {
    h.len < 0x1_0000_0000 && h.nsec < 0x1_0000_0000_0000_0000
  }

  function Encode(h: Header): (s: seq<Byte>)
    ensures |s| == HEADER
  {
    [h.magic0, h.magic1, h.level, h.flags] + ToBytes(h.len, 4) + ToBytes(h.nsec, 8)
  }

  function Decode(s: seq<Byte>): Header
    requires |s| == HEADER
  {
    Header(s[0], s[1], s[2], s[3], FromBytes(s[4..8]), FromBytes(s[8..16]))
  }

  /** A header read back from the ring is the header that was written. */
  lemma {:induction false} HeaderRoundTrip(h: Header)
    requires Fits(h)
    ensures Decode(Encode(h)) == h
  {
    assert Pow256(4) == 0x1_0000_0000 && Pow256(8) == 0x1_0000_0000_0000_0000 by {
      assert Pow256(2) == 0x1_0000;
      assert Pow256(6) == 0x1_0000_0000_0000;
    }
    BytesRoundTrip(h.len, 4);
    BytesRoundTrip(h.nsec, 8);
    var s := Encode(h);
    assert s[4..8] == ToBytes(h.len, 4);
    assert s[8..16] == ToBytes(h.nsec, 8);
  }

  predicate IsWrap(flags: Byte) {
    flags / 4 % 2 == 1
  }

  /** flags |= PRINTK_FLAGS_TRUNCATED. */
  function Truncated(flags: Byte): (r: Byte)
    ensures IsWrap(r) == IsWrap(flags)
    ensures r / 8 % 2 == 1
  {
    if flags / 8 % 2 == 1 then flags else flags + 8
  }

  function RecordTotal(len: nat): (r: nat)
    ensures r % 8 == 0 && HEADER + len <= r < HEADER + len + 8
  {
    (HEADER + len + 7) / 8 * 8
  }

  predicate HeaderValid(h: Header) {
    && h.magic0 == MAGIC0 && h.magic1 == MAGIC1
    && (if IsWrap(h.flags) then h.len <= SIZE - HEADER else h.len <= MAX_PAYLOAD)
  }

  function Zeros(n: nat): (s: seq<Byte>)
    ensures |s| == n
  {
    seq(n, _ => 0)
  }

  datatype Entry =
    | Data(level: Byte, flags: Byte, nsec: nat, text: seq<Byte>)
    | Pad(size: nat)

  /** A stored record as a reader sees it. */
  ghost predicate IsRecord(e: Entry) {
    e.Data? && 1 <= |e.text| <= MAX_PAYLOAD && !IsWrap(e.flags) && e.nsec < 0x1_0000_0000_0000_0000
  }

  ghost function Length(e: Entry): nat {
    match e
    case Data(_, _, _, text) => RecordTotal(|text|)
    case Pad(n) => n
  }

  ghost function HeaderOf(e: Entry): Header {
    match e
    case Data(level, flags, nsec, text) => Header(MAGIC0, MAGIC1, level, flags, |text|, nsec)
    case Pad(n) => Header(MAGIC0, MAGIC1, KERN_DEBUG, WRAP, if n >= HEADER then n - HEADER else 0, 0)
  }

  /** Entry `e` lies in the ring at stream position `pos`. */
  ghost predicate EntryAt(bytes: seq<Byte>, pos: nat, e: Entry)
    requires |bytes| == SIZE
  {
    var off := pos % SIZE;
    && 0 < Length(e) && off + Length(e) <= SIZE && Length(e) % 8 == 0
    && (e.Data? ==>
       IsRecord(e) && off + HEADER + |e.text| <= SIZE && bytes[off + HEADER..off + HEADER + |e.text|] == e.text)
    && (e.Pad? ==> off + e.size == SIZE)
    && (off + HEADER <= SIZE ==> bytes[off..off + HEADER] == Encode(HeaderOf(e)))
  }

  lemma TotalOfLength(e: Entry)
    requires Length(e) % 8 == 0 && (e.Pad? ==> e.size >= HEADER)
    ensures RecordTotal(HeaderOf(e).len) == Length(e)
  {
  }

  /** What the code finds when it looks at an entry. */
  lemma EntryRead(bytes: seq<Byte>, pos: nat, e: Entry)
    requires |bytes| == SIZE && EntryAt(bytes, pos, e)
    ensures var off := pos % SIZE;
            if off + HEADER > SIZE then e == Pad(SIZE - off)
            else var h := Decode(bytes[off..off + HEADER]);
              && h == HeaderOf(e) && HeaderValid(h) && RecordTotal(h.len) == Length(e)
              && (IsWrap(h.flags) <==> e.Pad?)
  {
    hide Encode, Decode;
    var off := pos % SIZE;
    if off + HEADER <= SIZE {
      HeaderRoundTrip(HeaderOf(e));
      TotalOfLength(e);
    }
  }

  lemma RangesDisjoint(pos: nat, len: nat, w: nat, n: nat)
    requires pos % SIZE + len <= SIZE && w % SIZE + n <= SIZE && pos + len <= w && w + n <= pos + SIZE
    ensures pos % SIZE + len <= w % SIZE || w % SIZE + n <= pos % SIZE
  {
  }

  lemma LengthCovers(e: Entry)
    ensures e.Data? ==> HEADER + |e.text| <= Length(e)
    ensures e.Pad? ==> Length(e) == e.size
  {
  }

  /** Bytes written at stream positions [w, w + n) leave an earlier entry within one turn of the ring intact. */
  lemma EntryFrame(bytes: seq<Byte>, bytes': seq<Byte>, pos: nat, e: Entry, w: nat, n: nat)
    requires |bytes| == SIZE == |bytes'| && EntryAt(bytes, pos, e)
    requires w % SIZE + n <= SIZE && pos + Length(e) <= w && w + n <= pos + SIZE
    requires bytes'[..w % SIZE] == bytes[..w % SIZE] && bytes'[w % SIZE + n..] == bytes[w % SIZE + n..]
    ensures EntryAt(bytes', pos, e)
  {
    hide Encode, IsRecord;
    var off, wo, len := pos % SIZE, w % SIZE, Length(e);
    RangesDisjoint(pos, len, w, n);
    LengthCovers(e);
    forall i | off <= i < off + len
      ensures bytes'[i] == bytes[i]
    {
      if off + len <= wo {
        assert bytes'[..wo][i] == bytes[..wo][i];
      } else {
        assert bytes'[wo + n..][i - wo - n] == bytes[wo + n..][i - wo - n];
      }
    }
    if off + HEADER <= SIZE {
      assert bytes'[off..off + HEADER] == bytes[off..off + HEADER];
    }
    if e.Data? {
      assert bytes'[off + HEADER..off + HEADER + |e.text|] == bytes[off + HEADER..off + HEADER + |e.text|];
    }
  }
}
