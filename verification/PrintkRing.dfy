/** The printk ring buffer and its independent readers (src/kern/printk.c). */
module PrintkRing {
  import opened PrintkRecord
  import opened PrintkLog

  /** The bytes from stream position `pos` to `head` are exactly the entries `es`. */
  ghost predicate Parses(bytes: seq<Byte>, pos: nat, es: seq<Entry>, head: nat)
    requires |bytes| == SIZE
    decreases |es|
  {
    if |es| == 0 then pos == head
    else EntryAt(bytes, pos, es[0]) && Parses(bytes, pos + Length(es[0]), es[1..], head)
  }

  /** The records among the entries, padding left out. */
  ghost function Items(es: seq<Entry>, pos: nat): seq<Item> {
    if |es| == 0 then []
    else (if es[0].Data? then [Item(pos, es[0])] else []) + Items(es[1..], pos + Length(es[0]))
  }

  /** `c` is the start of one of the entries, or the end of the last. */
  ghost predicate OnBoundary(es: seq<Entry>, pos: nat, c: nat) {
    c == pos || (|es| > 0 && OnBoundary(es[1..], pos + Length(es[0]), c))
  }

  /** The history ends with the records still in the ring; everything before lies below `tail`. */
  ghost predicate HistoryOk(history: seq<Item>, es: seq<Entry>, tail: nat) {
    var live := Items(es, tail);
    && |live| <= |history|
    && history[|history| - |live|..] == live
    && forall i :: 0 <= i < |history| - |live| ==> history[i].pos < tail
  }

  lemma EntryLength(bytes: seq<Byte>, pos: nat, e: Entry)
    requires |bytes| == SIZE && EntryAt(bytes, pos, e)
    ensures Length(e) > 0 && Length(e) % 8 == 0
  {
  }

  lemma {:induction false} ParsesBounds(bytes: seq<Byte>, pos: nat, es: seq<Entry>, head: nat)
    requires |bytes| == SIZE && Parses(bytes, pos, es, head)
    ensures pos <= head && (pos == head <==> |es| == 0)
    ensures pos % 8 == 0 ==> head % 8 == 0
    decreases |es|
  {
    hide EntryAt, Length;
    if |es| > 0 {
      EntryLength(bytes, pos, es[0]);
      if pos % 8 == 0 {
        AlignedSum(pos, Length(es[0]));
      }
      ParsesBounds(bytes, pos + Length(es[0]), es[1..], head);
    }
  }

  lemma ParsesStep(bytes: seq<Byte>, pos: nat, es: seq<Entry>, head: nat)
    requires |bytes| == SIZE && Parses(bytes, pos, es, head) && pos != head
    ensures |es| > 0 && EntryAt(bytes, pos, es[0]) && 0 < Length(es[0]) && pos + Length(es[0]) <= head
    ensures Length(es[0]) % 8 == 0
    ensures Parses(bytes, pos + Length(es[0]), es[1..], head)
  {
    ParsesBounds(bytes, pos, es, head);
    EntryLength(bytes, pos, es[0]);
    hide EntryAt, Length;
    ParsesBounds(bytes, pos + Length(es[0]), es[1..], head);
  }

  lemma {:induction false} ParsesFrame(bytes: seq<Byte>, bytes': seq<Byte>, pos: nat, es: seq<Entry>, head: nat, w: nat,
                                       n: nat)
    requires |bytes| == SIZE == |bytes'| && Parses(bytes, pos, es, head)
    requires w % SIZE + n <= SIZE && head <= w && w + n <= pos + SIZE
    requires bytes'[..w % SIZE] == bytes[..w % SIZE] && bytes'[w % SIZE + n..] == bytes[w % SIZE + n..]
    ensures Parses(bytes', pos, es, head)
    decreases |es|
  {
    if |es| > 0 {
      ParsesBounds(bytes, pos + Length(es[0]), es[1..], head);
      EntryFrame(bytes, bytes', pos, es[0], w, n);
      ParsesFrame(bytes, bytes', pos + Length(es[0]), es[1..], head, w, n);
    }
  }

  lemma {:induction false} ParsesAppend(bytes: seq<Byte>, pos: nat, es: seq<Entry>, head: nat, e: Entry)
    requires |bytes| == SIZE && Parses(bytes, pos, es, head) && EntryAt(bytes, head, e)
    ensures Parses(bytes, pos, es + [e], head + Length(e))
    ensures Items(es + [e], pos) == Items(es, pos) + (if e.Data? then [Item(head, e)] else [])
    ensures forall c: nat :: OnBoundary(es, pos, c) ==> OnBoundary(es + [e], pos, c)
    ensures OnBoundary(es + [e], pos, head + Length(e))
    decreases |es|
  {
    hide EntryAt, Length;
    if |es| == 0 {
      assert es + [e] == [e];
      assert Parses(bytes, head + Length(e), [], head + Length(e));
      assert [e][1..] == [];
    } else {
      ParsesAppend(bytes, pos + Length(es[0]), es[1..], head, e);
      assert (es + [e])[1..] == es[1..] + [e];
    }
  }

  /** Dropping the oldest entry drops at most one record, the oldest, from the live part of the history. */
  lemma HistoryDrop(history: seq<Item>, es: seq<Entry>, tail: nat)
    requires HistoryOk(history, es, tail) && |es| > 0 && Length(es[0]) > 0
    ensures HistoryOk(history, es[1..], tail + Length(es[0]))
  {
    var live, live' := Items(es, tail), Items(es[1..], tail + Length(es[0]));
    var k := |history| - |live|;
    if es[0].Data? {
      assert live == [Item(tail, es[0])] + live';
      assert history[k] == history[k..][0];
      assert history[k + 1..] == history[k..][1..];
    } else {
      assert live == live';
    }
  }

  lemma HistoryAppend(history: seq<Item>, es: seq<Entry>, es': seq<Entry>, tail: nat, new': seq<Item>)
    requires HistoryOk(history, es, tail) && Items(es', tail) == Items(es, tail) + new'
    ensures HistoryOk(history + new', es', tail)
  {
    var live := Items(es, tail);
    var k := |history| - |live|;
    assert (history + new')[k..] == history[k..] + new';
  }

  /** Writing one more entry at the head keeps the old entries and adds one at the end. */
  lemma Grow(bytes: seq<Byte>, bytes': seq<Byte>, tail: nat, es: seq<Entry>, head: nat, history: seq<Item>, e: Entry,
             n: nat)
    requires |bytes| == SIZE == |bytes'| && Parses(bytes, tail, es, head) && HistoryOk(history, es, tail)
    requires head % SIZE + n <= SIZE && head + n <= tail + SIZE
    requires bytes'[..head % SIZE] == bytes[..head % SIZE] && bytes'[head % SIZE + n..] == bytes[head % SIZE + n..]
    requires EntryAt(bytes', head, e)
    ensures Parses(bytes', tail, es + [e], head + Length(e))
    ensures HistoryOk(history + (if e.Data? then [Item(head, e)] else []), es + [e], tail)
    ensures forall c: nat :: OnBoundary(es, tail, c) ==> OnBoundary(es + [e], tail, c)
    ensures OnBoundary(es + [e], tail, head + Length(e))
  {
    hide EntryAt, Length;
    ParsesFrame(bytes, bytes', tail, es, head, head, n);
    ParsesAppend(bytes', tail, es, head, e);
    HistoryAppend(history, es, es + [e], tail, if e.Data? then [Item(head, e)] else []);
  }

  /** The filler written at the end of the ring is a pad entry. */
  lemma PadLayout(bytes: seq<Byte>, head: nat, pad: nat, filler: seq<Byte>)
    requires |bytes| == SIZE && head % 8 == 0 && pad == SIZE - head % SIZE
    requires |filler| <= pad && bytes[head % SIZE..head % SIZE + |filler|] == filler
    requires pad >= HEADER ==> filler == Encode(HeaderOf(Pad(pad)))
    ensures EntryAt(bytes, head, Pad(pad))
  {
  }

  /** A header followed by its text is a data entry. */
  lemma DataLayout(bytes: seq<Byte>, head: nat, e: Entry, tailZeros: seq<Byte>)
    requires |bytes| == SIZE && IsRecord(e) && head % SIZE + Length(e) <= SIZE
    requires var data := Encode(HeaderOf(e)) + e.text + tailZeros;
             |data| == Length(e) && bytes[head % SIZE..head % SIZE + |data|] == data
    ensures EntryAt(bytes, head, e)
  {
    var off := head % SIZE;
    var header := Encode(HeaderOf(e));
    var data := header + e.text + tailZeros;
    var n := |e.text|;
    ThreeParts(header, e.text, tailZeros);
    SliceOfSlice(bytes, off, |data|, 0, HEADER);
    SliceOfSlice(bytes, off, |data|, HEADER, HEADER + n);
  }

  lemma SliceOfSlice(s: seq<Byte>, off: nat, n: nat, i: nat, j: nat)
    requires i <= j <= n && off + n <= |s|
    ensures s[off..off + n][i..j] == s[off + i..off + j]
  {
    var part := s[off..off + n];
    assert forall k :: 0 <= k < j - i ==> part[i..j][k] == part[i + k] == s[off + i + k];
  }

  lemma ThreeParts(a: seq<Byte>, b: seq<Byte>, c: seq<Byte>)
    ensures (a + b + c)[0..|a|] == a && (a + b + c)[|a|..|a| + |b|] == b
  {
    var all := a + b + c;
    assert forall k :: 0 <= k < |b| ==> all[|a|..|a| + |b|][k] == all[|a| + k] == b[k];
  }

  class Ring {
    const buf: array<Byte>
    var head: nat
    var tail: nat
    ghost var entries: seq<Entry>
    ghost var history: seq<Item>

    ghost predicate Valid()
      reads this, buf
      ensures Valid() ==> buf.Length == SIZE
    {
      && buf.Length == SIZE
      && head <= tail + SIZE && tail % 8 == 0
      && Parses(buf[..], tail, entries, head)
      && HistoryOk(history, entries, tail)
      && LogOk(View())
    }

    ghost function View(): Log
      reads this
    {
      Log(history, tail, head)
    }

    /** A reader may stand at `c`: on a record boundary, or behind what has been dropped. */
    ghost predicate CursorOk(c: nat)
      reads this
    {
      c < tail || OnBoundary(entries, tail, c)
    }

    constructor ()
      ensures Valid() && history == [] && fresh(buf)
    {
      buf := new Byte[SIZE](_ => 0);
      head, tail := 0, 0;
      entries, history := [], [];
    }

    /** Size of the oldest entry. */
    method OldestRecordTotal() returns (step: nat)
      requires Valid() && tail != head
      ensures |entries| > 0 && step == Length(entries[0])
    {
      hide *;
      Sizes();
      ValidFacts();
      ghost var bytes := buf[..];
      ParsesStep(bytes, tail, entries, head);
      EntryRead(bytes, tail, entries[0]);
      EntryFits(bytes, tail, entries[0]);
      PadHeader(SIZE - tail % SIZE);
      var off := tail % SIZE;
      if off + HEADER > SIZE {
        return SIZE - off;
      }
      var h := Decode(buf[off..off + HEADER]);
      assert buf[off..off + HEADER] == bytes[off..off + HEADER];
      if !HeaderValid(h) {
        assert false;
      }
      step := RecordTotal(h.len);
      if step == 0 || step > SIZE || off + step > SIZE {
        assert false;
      }
    }

    method DropOldest()
      requires Valid()
      modifies `tail, `entries
      ensures Valid()
      ensures old(tail) == head ==> tail == old(tail) && entries == old(entries)
      ensures old(tail) != head ==>
                && |old(entries)| > 0 && entries == old(entries)[1..]
                && tail == old(tail) + Length(old(entries)[0]) && old(tail) < tail <= head
    {
      hide *;
      Sizes();
      ValidFacts();
      if tail == head {
        return;
      }
      ParsesStep(buf[..], tail, entries, head);
      HistoryDrop(history, entries, tail);
      var step := OldestRecordTotal();
      AlignedSum(tail, step);
      LogMoved(Log(history, tail, head), tail + step, head);
      if step == 0 {
        assert false;
      }
      tail := tail + step;
      entries := entries[1..];
      if tail > head {
        assert false;
      }
      NowValid();
    }

    lemma ValidFacts()
      requires Valid()
      ensures buf.Length == SIZE && tail <= head <= tail + SIZE && head % 8 == 0 && tail % 8 == 0
      ensures Parses(buf[..], tail, entries, head) && HistoryOk(history, entries, tail)
      ensures View() == Log(history, tail, head) && LogOk(Log(history, tail, head))
    {
      ParsesBounds(buf[..], tail, entries, head);
    }

    /** One turn of the read loop: what lies at `cursor`, and whether it is padding to skip. */
    method Examine(cursor: nat, ghost e: Entry) returns (ok: bool, total: nat, skip: bool, rec: Entry)
      requires buf.Length == SIZE && EntryAt(buf[..], cursor, e) && cursor + Length(e) <= head
      ensures ok && total == Length(e) && (skip <==> e.Pad?) && (!skip ==> rec == e)
    {
      hide *;
      Sizes();
      ghost var bytes := buf[..];
      EntryRead(bytes, cursor, e);
      EntryFits(bytes, cursor, e);
      var off := cursor % SIZE;
      rec := Pad(0);
      if off + HEADER > SIZE {
        PadHeader(SIZE - off);
        return true, SIZE - off, true, rec;
      }
      var h := Decode(buf[off..off + HEADER]);
      assert buf[off..off + HEADER] == bytes[off..off + HEADER];
      if !HeaderValid(h) {
        assert false;
      }
      total := RecordTotal(h.len);
      if total == 0 || total > SIZE || off + total > SIZE || cursor + total > head {
        assert false;
      }
      ok, skip := true, IsWrap(h.flags);
      if !skip {
        var text := buf[off + HEADER..off + HEADER + h.len];
        assert text == bytes[off + HEADER..off + HEADER + h.len];
        rec := Data(h.level, h.flags, h.nsec, text);
      }
    }

    lemma CursorIs(c: nat)
      requires CursorOk(c) && Valid()
      ensures c < tail || (OnBoundary(entries, tail, c) && tail <= c <= head)
      ensures View() == Log(history, tail, head)
    {
      if !(c < tail) {
        BoundaryAboveAt(entries, tail, c);
        SuffixIs(buf[..], entries, tail, c, head);
        ParsesBounds(buf[..], c, Suffix(entries, tail, c), head);
      }
    }

    lemma CursorMake(c: nat)
      requires OnBoundary(entries, tail, c)
      ensures CursorOk(c)
    {
    }

    lemma NowValid()
      requires buf.Length == SIZE && head <= tail + SIZE && tail % 8 == 0
      requires Parses(buf[..], tail, entries, head) && HistoryOk(history, entries, tail)
      requires LogOk(Log(history, tail, head))
      ensures Valid()
    {
    }

    /** Overwrites part of the buffer. */
    method Write(off: nat, bytes: seq<Byte>)
      requires off + |bytes| <= buf.Length
      modifies buf
      ensures buf[..][..off] == old(buf[..])[..off] && buf[..][off..off + |bytes|] == bytes
      ensures buf[..][off + |bytes|..] == old(buf[..])[off + |bytes|..]
    {
      for i := 0 to |bytes|
        invariant forall k :: 0 <= k < off ==> buf[k] == old(buf[k])
        invariant forall k :: off <= k < off + i ==> buf[k] == bytes[k - off]
        invariant forall k :: off + i <= k < buf.Length ==> buf[k] == old(buf[k])
      {
        buf[off + i] := bytes[i];
      }
    }

    /** Fills the end of the ring so that the next record starts at offset 0. */
    method WriteWrap(off: nat, pad: nat)
      requires Valid() && off == head % SIZE && pad == SIZE - off && head + pad <= tail + SIZE
      modifies `head, `entries, buf
      ensures Valid() && head == old(head) + pad && head % SIZE == 0
      ensures entries == old(entries) + [Pad(pad)]
      ensures forall c: nat :: OnBoundary(old(entries), tail, c) ==> OnBoundary(entries, tail, c)
    {
      hide *;
      Sizes();
      ValidFacts();
      ghost var bytes, e := buf[..], Pad(pad);
      var filler;
      if pad >= HEADER {
        filler := Encode(Header(MAGIC0, MAGIC1, KERN_DEBUG, WRAP, pad - HEADER, 0));
      } else {
        filler := Zeros(pad);
      }
      PadHeader(pad);
      Write(off, filler);
      PadLayout(buf[..], head, pad, filler);
      Grow(bytes, buf[..], tail, entries, head, history, e, |filler|);
      assert history + [] == history;
      entries := entries + [e];
      head := head + pad;
      WrapsTo(old(head), pad);
      LogMoved(Log(history, tail, old(head)), tail, head);
      NowValid();
    }

    /** What is kept of a message: the level is clamped and a long text cut and marked. */
    static function Clamped(level: Byte, text: seq<Byte>, flags: Byte, nsec: nat): Entry {
      var level' := if level > KERN_MAX then KERN_MAX else level;
      if |text| > MAX_PAYLOAD then Data(level', Truncated(flags), nsec, text[..MAX_PAYLOAD])
      else Data(level', flags, nsec, text)
    }

    /**
     printk_log_store_locked: appends exactly one record, dropping whole entries from the old end
     only, and no more of them than the new record needs.
     */
    method StoreLocked(level: Byte, text: seq<Byte>, flags: Byte, nsec: nat)
      requires Valid() && !IsWrap(flags) && nsec < 0x1_0000_0000_0000_0000
      modifies this, buf
      ensures Valid() && tail >= old(tail)
      ensures |text| == 0 ==> View() == old(View())
      ensures |text| > 0 ==> Stored(old(View()), View(), Clamped(level, text, flags, nsec))
      ensures forall c: nat :: old(CursorOk(c)) ==> CursorOk(c)
      ensures forall c: nat :: old(OnBoundary(entries, tail, c)) && c < tail ==> head - c > SIZE
    {
      hide Parses, Items, OnBoundary, HistoryOk, Valid, EntryAt, IsRecord, Length, HeaderOf, Encode, IsWrap, Clamped,
           RecordTotal;
      BoundaryAbove(entries, tail);
      if |text| == 0 {
        return;
      }
      ghost var e := Clamped(level, text, flags, nsec);
      Ring.ClampedIs(level, text, flags, nsec);
      var level' := if level > KERN_MAX then KERN_MAX else level;
      var len, flags' := |text|, flags;
      if len > MAX_PAYLOAD {
        len := MAX_PAYLOAD;
        flags' := Truncated(flags);
      }
      var total := RecordTotal(len);
      if total > SIZE {
        assert false;
      }
      var off := head % SIZE;
      var pad := if off + total > SIZE then SIZE - off else 0;
      var need := pad + total;
      if need > SIZE {
        assert false;
      }
      MakeRoom(need);
      if pad > 0 {
        WriteWrap(off, pad);
      }
      ghost var pos := head;
      WriteRecord(Header(MAGIC0, MAGIC1, level', flags', len, nsec), text[..len], total, e);
      assert history == old(history) + [Item(pos, e)];
      ValidFacts();
    }

    /** Header, text and zero padding go in at the head. */
    method WriteRecord(h: Header, text: seq<Byte>, total: nat, ghost e: Entry)
      requires Valid() && IsRecord(e) && h == HeaderOf(e) && text == e.text && total == Length(e)
      requires head % SIZE + total <= SIZE && head + total <= tail + SIZE && HEADER + |text| <= total
      modifies `head, `entries, `history, buf
      ensures Valid() && head == old(head) + total
      ensures history == old(history) + [Item(old(head), e)]
      ensures forall c: nat :: OnBoundary(old(entries), tail, c) ==> OnBoundary(entries, tail, c)
    {
      hide *;
      Sizes();
      ValidFacts();
      ghost var bytes := buf[..];
      var zeros := Zeros(total - HEADER - |text|);
      var data := Encode(h) + text + zeros;
      Write(head % SIZE, data);
      DataLayout(buf[..], head, e, zeros);
      Grow(bytes, buf[..], tail, entries, head, history, e, |data|);
      RecordsAreData(e);
      LogAppended(Log(history, tail, head), e);
      entries := entries + [e];
      history := history + [Item(head, e)];
      head := head + total;
      NowValid();
    }

    static lemma ClampedIs(level: Byte, text: seq<Byte>, flags: Byte, nsec: nat)
      requires |text| > 0 && !IsWrap(flags) && nsec < 0x1_0000_0000_0000_0000
      ensures var e := Clamped(level, text, flags, nsec);
              var len := if |text| > MAX_PAYLOAD then MAX_PAYLOAD else |text|;
              && e.Data? && e.text == text[..len] && IsRecord(e) && Length(e) == RecordTotal(len)
              && HeaderOf(e) == Header(MAGIC0, MAGIC1, if level > KERN_MAX then KERN_MAX else level,
                                       if |text| > MAX_PAYLOAD then Truncated(flags) else flags, len, nsec)
    {
    }

    /** Drops the oldest entries until `need` more bytes fit. */
    method MakeRoom(need: nat)
      requires Valid() && need <= SIZE
      modifies `tail, `entries
      ensures Valid() && tail >= old(tail) && head + need <= tail + SIZE
      ensures forall c: nat :: OnBoundary(entries, tail, c) ==> tail <= c
      ensures forall c: nat :: OnBoundary(old(entries), old(tail), c) ==>
                OnBoundary(entries, tail, c) || (c < tail && head + need - c > SIZE)
    {
      while head - tail + need > SIZE
        invariant Valid() && tail >= old(tail)
        invariant forall c: nat :: OnBoundary(old(entries), old(tail), c) ==>
                    OnBoundary(entries, tail, c) || (c < tail && head + need - c > SIZE)
        decreases head - tail
      {
        hide *;
        Sizes();
        ValidFacts();
        ghost var es, t := entries, tail;
        DropOldest();
        BoundaryStep(es, t);
      }
      BoundaryAbove(entries, tail);
    }
  }

  /** The entries from boundary `c` on. */
  ghost function Suffix(es: seq<Entry>, pos: nat, c: nat): seq<Entry>
    requires OnBoundary(es, pos, c)
  {
    if c == pos then es else Suffix(es[1..], pos + Length(es[0]), c)
  }

  /** From a boundary on, the bytes are the remaining entries and the history is their records. */
  lemma {:induction false} SuffixIs(bytes: seq<Byte>, es: seq<Entry>, pos: nat, c: nat, head: nat)
    requires |bytes| == SIZE && Parses(bytes, pos, es, head) && OnBoundary(es, pos, c)
    ensures var rs := Suffix(es, pos, c);
            && Parses(bytes, c, rs, head)
            && (forall c': nat :: OnBoundary(rs, c, c') ==> OnBoundary(es, pos, c'))
            && Items(es, pos)[FirstFrom(Items(es, pos), c)..] == Items(rs, c)
    decreases |es|
  {
    hide EntryAt, Length;
    if c == pos {
      ItemsFrom(es, pos);
    } else {
      SuffixIs(bytes, es[1..], pos + Length(es[0]), c, head);
      BoundaryAboveAt(es[1..], pos + Length(es[0]), c);
      ParsesPositive(bytes, pos, es, head);
      var all, rest := Items(es, pos), Items(es[1..], pos + Length(es[0]));
      if es[0].Data? {
        assert all == [Item(pos, es[0])] + rest && all[1..] == rest;
        assert all[1 + FirstFrom(rest, c)..] == rest[FirstFrom(rest, c)..];
      } else {
        assert all == rest;
      }
    }
  }

  lemma ParsesPositive(bytes: seq<Byte>, pos: nat, es: seq<Entry>, head: nat)
    requires |bytes| == SIZE && Parses(bytes, pos, es, head) && |es| > 0
    ensures Length(es[0]) > 0
  {
  }

  /** No record of the entries starts before them. */
  lemma {:induction false} ItemsFrom(es: seq<Entry>, pos: nat)
    ensures FirstFrom(Items(es, pos), pos) == 0
    ensures |Items(es, pos)| > 0 ==> Items(es, pos)[0].pos >= pos
    decreases |es|
  {
    if |es| > 0 {
      ItemsFrom(es[1..], pos + Length(es[0]));
    }
  }

  /** Looking for the first record from `c` skips exactly the dropped part of the history. */
  lemma {:induction false} FirstPastDropped(history: seq<Item>, gone: nat, c: nat)
    requires gone <= |history| && forall i :: 0 <= i < gone ==> history[i].pos < c
    ensures FirstFrom(history, c) == gone + FirstFrom(history[gone..], c)
  {
    if gone > 0 {
      assert forall i :: 0 <= i < gone - 1 ==> history[1..][i] == history[i + 1];
      FirstPastDropped(history[1..], gone - 1, c);
      assert history[1..][gone - 1..] == history[gone..];
    } else {
      assert history[0..] == history;
    }
  }

  lemma HistoryFrom(bytes: seq<Byte>, history: seq<Item>, es: seq<Entry>, tail: nat, c: nat, head: nat)
    requires |bytes| == SIZE && Parses(bytes, tail, es, head) && HistoryOk(history, es, tail) && OnBoundary(es, tail, c)
    ensures var rs := Suffix(es, tail, c);
            && Parses(bytes, c, rs, head)
            && (forall c': nat :: OnBoundary(rs, c, c') ==> OnBoundary(es, tail, c'))
            && history[FirstFrom(history, c)..] == Items(rs, c)
  {
    hide Parses, EntryAt, Length, Items, OnBoundary, Suffix, FirstFrom;
    SuffixIs(bytes, es, tail, c, head);
    BoundaryAboveAt(es, tail, c);
    var live := Items(es, tail);
    var gone := |history| - |live|;
    FirstPastDropped(history, gone, c);
    assert history[gone + FirstFrom(live, c)..] == live[FirstFrom(live, c)..];
  }

  class Reader {
    const ring: Ring
    var cursor: nat
    var pendingLost: nat

    /** printk_log_reader_init. */
    constructor (ring: Ring, newest: bool)
      requires ring.Valid()
      ensures this.ring == ring && pendingLost == 0 && ring.CursorOk(cursor)
      ensures cursor == if newest then ring.head else ring.tail
    {
      this.ring := ring;
      cursor := if newest then ring.head else ring.tail;
      pendingLost := 0;
      new;
      HeadIsBoundary(ring.buf[..], ring.entries, ring.tail, ring.head);
    }

    /** printk_log_read: the corrupt-record exits are never taken. */
    method Read(size: nat) returns (r: ReadResult)
      requires ring.Valid() && ring.CursorOk(cursor)
      modifies this
      ensures ring.CursorOk(cursor)
      ensures size == 0 ==> r == InvalidArgument && cursor == old(cursor) && pendingLost == old(pendingLost)
      ensures size > 0 ==> ReadOnce(ring.View(), old(cursor), old(pendingLost), size, cursor, pendingLost, r)
      ensures r != Corrupt
    {
      hide *;
      if size == 0 {
        return InvalidArgument;
      }
      Sizes();
      ring.ValidFacts();
      ring.CursorIs(cursor);
      ghost var l, bytes, es := ring.View(), ring.buf[..], ring.entries;
      if cursor < ring.tail {
        pendingLost := pendingLost + (ring.tail - cursor);
        cursor := ring.tail;
        TailIsBoundary(es, ring.tail);
      }
      ghost var from := cursor;
      HistoryFrom(bytes, l.history, es, ring.tail, from, ring.head);
      ghost var rs := Suffix(es, ring.tail, from);
      ghost var items := Items(rs, from);
      while cursor != ring.head
        invariant from <= cursor <= ring.head && pendingLost == old(pendingLost) + (from - old(cursor))
        invariant Parses(bytes, cursor, rs, ring.head) && Items(rs, cursor) == items
        invariant forall c: nat :: OnBoundary(rs, cursor, c) ==> OnBoundary(es, ring.tail, c)
      {
        ParsesStep(bytes, cursor, rs, ring.head);
        ghost var e := rs[0];
        ItemsStep(rs, cursor);
        BoundaryNext(rs, cursor);
        var ok, total, skip, rec := ring.Examine(cursor, e);
        if !ok {
          assert false;
        }
        cursor := cursor + total;
        if !skip {
          r := if |rec.text| + 1 > size then NoRoom else Record(rec);
          FoundRecord(l, old(cursor), old(pendingLost), size, from, items, pendingLost, r);
          ring.CursorMake(cursor);
          return;
        }
        rs := rs[1..];
      }
      r := Empty;
      NoMore(bytes, rs, cursor, ring.head);
      FoundNothing(l, old(cursor), old(pendingLost), size, from, items, pendingLost);
      ring.CursorMake(cursor);
    }
  }

  lemma TailIsBoundary(es: seq<Entry>, pos: nat)
    ensures OnBoundary(es, pos, pos)
  {
  }

  lemma BoundaryNext(es: seq<Entry>, pos: nat)
    requires |es| > 0
    ensures forall c: nat :: OnBoundary(es[1..], pos + Length(es[0]), c) ==> OnBoundary(es, pos, c)
    ensures OnBoundary(es, pos, pos + Length(es[0]))
  {
    TailIsBoundary(es[1..], pos + Length(es[0]));
  }

  lemma ItemsStep(es: seq<Entry>, pos: nat)
    requires |es| > 0
    ensures es[0].Pad? ==> Items(es, pos) == Items(es[1..], pos + Length(es[0]))
    ensures es[0].Data? ==> |Items(es, pos)| > 0 && Items(es, pos)[0] == Item(pos, es[0])
  {
  }

  lemma NoMore(bytes: seq<Byte>, es: seq<Entry>, pos: nat, head: nat)
    requires |bytes| == SIZE && Parses(bytes, pos, es, head) && pos == head
    ensures Items(es, pos) == [] && OnBoundary(es, pos, pos)
  {
    ParsesBounds(bytes, pos, es, head);
  }

  lemma FoundRecord(l: Log, cursor: nat, lost: nat, size: nat, from: nat, items: seq<Item>, lost': nat, r: ReadResult)
    requires from == (if cursor < l.tail then l.tail else cursor) && lost' == lost + (from - cursor)
    requires l.history[FirstFrom(l.history, from)..] == items && |items| > 0 && items[0].rec.Data?
    requires r == if |items[0].rec.text| + 1 > size then NoRoom else Record(items[0].rec)
    ensures ReadOnce(l, cursor, lost, size, items[0].pos + Length(items[0].rec), lost', r)
  {
    var k := FirstFrom(l.history, from);
    assert l.history[k] == l.history[k..][0];
  }

  lemma FoundNothing(l: Log, cursor: nat, lost: nat, size: nat, from: nat, items: seq<Item>, lost': nat)
    requires from == (if cursor < l.tail then l.tail else cursor) && lost' == lost + (from - cursor)
    requires l.history[FirstFrom(l.history, from)..] == items == []
    ensures ReadOnce(l, cursor, lost, size, l.head, lost', Empty)
  {
  }

  lemma {:induction false} HeadIsBoundary(bytes: seq<Byte>, es: seq<Entry>, pos: nat, head: nat)
    requires |bytes| == SIZE && Parses(bytes, pos, es, head)
    ensures OnBoundary(es, pos, head)
    decreases |es|
  {
    if |es| > 0 {
      HeadIsBoundary(bytes, es[1..], pos + Length(es[0]), head);
    }
  }

  lemma Sizes()
    ensures SIZE == 0x10000 && HEADER == 16 && MAX_PAYLOAD == 1024 && KERN_MAX == 7
  {
  }

  lemma EntryFits(bytes: seq<Byte>, pos: nat, e: Entry)
    requires |bytes| == SIZE && EntryAt(bytes, pos, e)
    ensures 0 < Length(e) && pos % SIZE + Length(e) <= SIZE
    ensures e.Data? ==>
            1 <= |e.text| <= MAX_PAYLOAD && HeaderOf(e) == Header(MAGIC0, MAGIC1, e.level, e.flags, |e.text|, e.nsec)
    ensures e.Data? ==> pos % SIZE + HEADER + |e.text| <= SIZE
                        && bytes[pos % SIZE + HEADER..pos % SIZE + HEADER + |e.text|] == e.text
  {
  }

  lemma BoundaryStep(es: seq<Entry>, pos: nat)
    requires |es| > 0
    ensures forall c: nat :: OnBoundary(es, pos, c) ==> c == pos || OnBoundary(es[1..], pos + Length(es[0]), c)
  {
  }

  lemma {:induction false} BoundaryAboveAt(es: seq<Entry>, pos: nat, c: nat)
    requires OnBoundary(es, pos, c)
    ensures pos <= c
  {
    if c != pos {
      BoundaryAboveAt(es[1..], pos + Length(es[0]), c);
    }
  }

  lemma BoundaryAbove(es: seq<Entry>, pos: nat)
    ensures forall c: nat :: OnBoundary(es, pos, c) ==> pos <= c
  {
    forall c: nat | OnBoundary(es, pos, c)
      ensures pos <= c
    {
      BoundaryAboveAt(es, pos, c);
    }
  }

  lemma RecordsAreData(e: Entry)
    requires IsRecord(e)
    ensures e.Data?
  {
  }

  lemma AlignedSum(a: nat, b: nat)
    requires a % 8 == 0 && b % 8 == 0
    ensures (a + b) % 8 == 0
  {
  }

  lemma PadHeader(pad: nat)
    ensures Length(Pad(pad)) == pad &&
            (pad >= HEADER ==> HeaderOf(Pad(pad)) == Header(MAGIC0, MAGIC1, KERN_DEBUG, WRAP, pad - HEADER, 0))
  {
  }

  lemma WrapsTo(head: nat, pad: nat)
    requires pad == SIZE - head % SIZE
    ensures (head + pad) % SIZE == 0
  {
  }
}
