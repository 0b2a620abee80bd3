/** One printk ring with any number of readers, over any list of stores and reads (src/kern/printk.c). */
module PrintkRun {
  import opened PrintkRecord
  import opened PrintkLog
  import opened PrintkRing

  datatype Act =
    | StoreAct(level: Byte, text: seq<Byte>, flags: Byte, nsec: nat)
    | ReadAct(reader: nat, size: nat)

  /** What a reader was told so far, apart from "nothing new": one answer for each record it came to. */
  ghost predicate Told(w: Walk, answers: seq<ReadResult>) {
    |answers| == |w.got| && forall i :: 0 <= i < |answers| ==> Answers(w, w.got[i], answers[i])
  }

  /** The record itself, unaltered, or that the buffer is too small for it. */
  ghost predicate Answers(w: Walk, k: nat, r: ReadResult) {
    k < |w.log.history| && (r == NoRoom || r == Record(w.log.history[k].rec))
  }

  /** A reader at `cursor` of log `l` that has been told `answers`. */
  ghost predicate Follows(l: Log, cursor: nat, lost: nat, w: Walk, answers: seq<ReadResult>) {
    w.log == l && w.cursor == cursor && w.lost == lost && WalkOk(w) && Told(w, answers)
  }

  lemma FollowsStart(l: Log, cursor: nat)
    requires LogOk(l) && cursor <= l.head
    ensures Follows(l, cursor, 0, Walk(l, cursor, cursor, 0, 0, [], {}), [])
  {
    ReaderStart(l, cursor);
  }

  lemma FollowsStored(l: Log, l': Log, rec: Entry, cursor: nat, lost: nat, w: Walk, answers: seq<ReadResult>)
    requires Follows(l, cursor, lost, w, answers) && Length(rec) > 0 && Stored(l, l', rec)
    ensures Follows(l', cursor, lost, w.(log := l'), answers)
  {
    StoreKeeps(w, w.(log := l'), rec);
    hide WalkOk, Length;
    forall i | 0 <= i < |answers|
      ensures Answers(w.(log := l'), w.got[i], answers[i])
    {
      assert Answers(w, w.got[i], answers[i]);
    }
  }

  /** The walk after a read. */
  ghost function Walked(w: Walk, cursor: nat, lost: nat): Walk {
    var from := if w.cursor < w.log.tail then w.log.tail else w.cursor;
    var k := FirstFrom(w.log.history, from);
    w.(cursor := cursor, lost := lost, consumed := if cursor >= from then w.consumed + (cursor - from) else 0,
       got := if k < |w.log.history| then w.got + [k] else w.got,
       missed := w.missed + set i | 0 <= i < |w.log.history| && w.cursor <= w.log.history[i].pos < w.log.tail)
  }

  lemma ReadForward(l: Log, cursor: nat, lost: nat, size: nat, cursor': nat, lost': nat, r: ReadResult)
    requires LogOk(l) && cursor <= l.head && ReadOnce(l, cursor, lost, size, cursor', lost', r)
    ensures cursor' >= if cursor < l.tail then l.tail else cursor
  {
    FirstFromIs(l.history, if cursor < l.tail then l.tail else cursor);
    hide FirstFrom;
  }

  lemma WalkedStep(w: Walk, size: nat, cursor: nat, lost: nat, r: ReadResult)
    requires ReadOnce(w.log, w.cursor, w.lost, size, cursor, lost, r) &&
             cursor >= if w.cursor < w.log.tail then w.log.tail else w.cursor
    ensures Step(w, Walked(w, cursor, lost), Read(size, r))
  {
    hide FirstFrom, ReadOnce;
  }

  lemma WalkedTold(w: Walk, size: nat, cursor: nat, lost: nat, r: ReadResult, answers: seq<ReadResult>)
    requires Told(w, answers) && ReadOnce(w.log, w.cursor, w.lost, size, cursor, lost, r)
    ensures Told(Walked(w, cursor, lost), answers + if r == Empty then [] else [r])
  {
    hide FirstFrom, Length;
    var w' := Walked(w, cursor, lost);
    var all := answers + if r == Empty then [] else [r];
    assert w'.log == w.log && w.got <= w'.got && |all| == |w'.got|;
    forall i | 0 <= i < |all|
      ensures Answers(w', w'.got[i], all[i])
    {
      if i < |answers| {
        assert Answers(w, w.got[i], answers[i]);
      }
    }
  }

  lemma FollowsRead(l: Log, cursor: nat, lost: nat, w: Walk, answers: seq<ReadResult>, size: nat, cursor': nat,
                    lost': nat, r: ReadResult)
    requires Follows(l, cursor, lost, w, answers) && size > 0 && ReadOnce(l, cursor, lost, size, cursor', lost', r)
    ensures Follows(l, cursor', lost', Walked(w, cursor', lost'), answers + if r == Empty then [] else [r])
  {
    ReadForward(l, cursor, lost, size, cursor', lost', r);
    hide ReadOnce, Step, Told, Walked;
    WalkedStep(w, size, cursor', lost', r);
    ReadKeeps(w, Walked(w, cursor', lost'), size, r);
    WalkedTold(w, size, cursor', lost', r, answers);
    WalkedIs(w, cursor', lost');
    hide WalkOk;
  }

  lemma WalkedIs(w: Walk, cursor: nat, lost: nat)
    ensures var w' := Walked(w, cursor, lost); w'.log == w.log && w'.cursor == cursor && w'.lost == lost
  {
  }

  /** The readers, all of this ring, follow it as their walks say. */
  ghost predicate AllFollow(ring: Ring, readers: seq<Reader>, walks: seq<Walk>, told: seq<seq<ReadResult>>)
    requires ring.buf.Length == SIZE
    reads ring, readers
  {
    && |walks| == |readers| == |told|
    && forall j :: 0 <= j < |readers| ==>
         && readers[j].ring == ring && ring.CursorOk(readers[j].cursor)
         && Follows(ring.View(), readers[j].cursor, readers[j].pendingLost, walks[j], told[j])
  }

  ghost predicate Apart(readers: seq<Reader>) {
    forall i, j :: 0 <= i < j < |readers| ==> readers[i] != readers[j]
  }

  ghost function Records(history: seq<Item>): seq<Entry> {
    seq(|history|, i requires 0 <= i < |history| => history[i].rec)
  }

  /** The records that the stores among `acts` leave, in order; an empty message leaves none. */
  ghost function Printed(acts: seq<Act>): seq<Entry> {
    if acts == [] then [] else Printed(acts[..|acts| - 1]) + PrintedBy(acts[|acts| - 1])
  }

  ghost function PrintedBy(a: Act): seq<Entry> {
    if a.StoreAct? && |a.text| > 0 then [Ring.Clamped(a.level, a.text, a.flags, a.nsec)] else []
  }

  lemma PrintedNext(acts: seq<Act>, i: nat)
    requires i < |acts|
    ensures Printed(acts[..i + 1]) == Printed(acts[..i]) + PrintedBy(acts[i])
  {
    assert acts[..i + 1][..i] == acts[..i];
  }

  /** What reader `j` was told, apart from "nothing new" and "no buffer". */
  ghost function Heard(results: seq<(nat, ReadResult)>, j: nat): seq<ReadResult> {
    if results == [] then [] else Heard(results[..|results| - 1], j) + HeardBy(results[|results| - 1], j)
  }

  ghost function HeardBy(r: (nat, ReadResult), j: nat): seq<ReadResult> {
    if r.0 == j && r.1 != Empty && r.1 != InvalidArgument then [r.1] else []
  }

  lemma HeardNext(results: seq<(nat, ReadResult)>, r: (nat, ReadResult), j: nat)
    ensures Heard(results + [r], j) == Heard(results, j) + HeardBy(r, j)
  {
    assert (results + [r])[..|results|] == results;
  }

  /** Each reader's answers are in `told`. */
  ghost predicate AllHeard(results: seq<(nat, ReadResult)>, told: seq<seq<ReadResult>>) {
    forall j :: 0 <= j < |told| ==> told[j] == Heard(results, j)
  }

  lemma AllHeardNext(results: seq<(nat, ReadResult)>, told: seq<seq<ReadResult>>, told': seq<seq<ReadResult>>, j: nat,
                     r: ReadResult)
    requires AllHeard(results, told) && j < |told| && told' == told[j := told[j] + HeardBy((j, r), j)]
    ensures AllHeard(results + [(j, r)], told')
  {
    hide Heard;
    forall i | 0 <= i < |told'|
      ensures told'[i] == Heard(results + [(j, r)], i)
    {
      HeardNext(results, (j, r), i);
      assert told[i] + [] == told[i];
    }
  }

  lemma RecordsStored(l: Log, l': Log, rec: Entry)
    requires Stored(l, l', rec)
    ensures Records(l'.history) == Records(l.history) + [rec]
  {
    hide Length;
  }

  /** printk_log_store_locked, seen by every reader. */
  method Store(ring: Ring, readers: seq<Reader>, a: Act, ghost walks: seq<Walk>, ghost told: seq<seq<ReadResult>>)
    returns (ghost walks': seq<Walk>)
    requires a.StoreAct? && !IsWrap(a.flags) && a.nsec < 0x1_0000_0000_0000_0000
    requires ring.Valid() && AllFollow(ring, readers, walks, told)
    modifies ring, ring.buf
    ensures ring.Valid() && AllFollow(ring, readers, walks', told)
    ensures Records(ring.View().history) == old(Records(ring.View().history)) + PrintedBy(a)
  {
    hide Ring.CursorOk, Follows, Ring.Valid, Stored, Ring.View, IsWrap, Ring.Clamped, Length, IsRecord, Records;
    ghost var l := ring.View();
    ring.StoreLocked(a.level, a.text, a.flags, a.nsec);
    ghost var l' := ring.View();
    if |a.text| == 0 {
      walks' := walks;
    } else {
      ghost var rec := Ring.Clamped(a.level, a.text, a.flags, a.nsec);
      Ring.ClampedIs(a.level, a.text, a.flags, a.nsec);
      RecordLength(rec);
      RecordsStored(l, l', rec);
      walks' := seq(|walks|, j requires 0 <= j < |walks| => walks[j].(log := l'));
      forall j | 0 <= j < |readers|
        ensures Follows(l', readers[j].cursor, readers[j].pendingLost, walks'[j], told[j])
      {
        FollowsStored(l, l', rec, readers[j].cursor, readers[j].pendingLost, walks[j], told[j]);
      }
    }
  }

  lemma RecordLength(e: Entry)
    requires IsRecord(e)
    ensures Length(e) > 0
  {
  }

  /** printk_log_read by one of the readers; the others are not concerned. */
  method ReadBy(ring: Ring, readers: seq<Reader>, j: nat, size: nat,
                ghost walks: seq<Walk>, ghost told: seq<seq<ReadResult>>)
    returns (r: ReadResult, ghost walks': seq<Walk>, ghost told': seq<seq<ReadResult>>)
    requires ring.Valid() && AllFollow(ring, readers, walks, told) && Apart(readers) && j < |readers|
    modifies readers[j]
    ensures ring.Valid() && AllFollow(ring, readers, walks', told') && r != Corrupt
    ensures told' == told[j := told[j] + HeardBy((j, r), j)]
  {
    hide Ring.CursorOk, Follows, Ring.Valid, Ring.View, ReadOnce, Walked;
    ghost var l, cursor, lost := ring.View(), readers[j].cursor, readers[j].pendingLost;
    r := readers[j].Read(size);
    if size == 0 {
      assert told[j] + [] == told[j];
      walks', told' := walks, told[j := told[j]];
    } else {
      ReadAnswer(l, cursor, lost, size, readers[j].cursor, readers[j].pendingLost, r);
      FollowsRead(l, cursor, lost, walks[j], told[j], size, readers[j].cursor, readers[j].pendingLost, r);
      walks' := walks[j := Walked(walks[j], readers[j].cursor, readers[j].pendingLost)];
      told' := told[j := told[j] + if r == Empty then [] else [r]];
    }
  }

  lemma ReadAnswer(l: Log, cursor: nat, lost: nat, size: nat, cursor': nat, lost': nat, r: ReadResult)
    requires ReadOnce(l, cursor, lost, size, cursor', lost', r)
    ensures r != InvalidArgument && r != Corrupt
  {
  }

  /** What printk_log_store is given: any level, text and time, but not the flag kept for wrap markers. */
  ghost predicate Storable(acts: seq<Act>) {
    forall i :: 0 <= i < |acts| && acts[i].StoreAct? ==>
        !IsWrap(acts[i].flags) && acts[i].nsec < 0x1_0000_0000_0000_0000
  }

  /**
   Readers are set up at either end of the log, and then stores and reads follow in any order. The log takes the
   stored messages in order. Each reader gets stored records only, unaltered, each at most once and in the order
   they were stored; what it passed over had been evicted first; its cursor has moved by the bytes consumed plus
   those counted as lost; and no read says that the log is corrupt.
   */
  method RunAll(ring: Ring, newest: seq<bool>, acts: seq<Act>)
    returns (readers: seq<Reader>, results: seq<(nat, ReadResult)>, ghost walks: seq<Walk>,
             ghost told: seq<seq<ReadResult>>)
    requires ring.Valid() && Storable(acts)
    modifies ring, ring.buf
    ensures ring.Valid() && |readers| == |newest| && AllFollow(ring, readers, walks, told)
    ensures AllHeard(results, told) && forall i :: 0 <= i < |results| ==> results[i].1 != Corrupt
    ensures Records(ring.View().history) == old(Records(ring.View().history)) + Printed(acts)
  {
    hide Ring.CursorOk, Follows, Ring.Valid, Ring.View, IsWrap, Records, Printed, PrintedBy, AllHeard, HeardBy;
    readers, walks, told := Open(ring, newest);
    results := [];
    NothingYet(ring.View().history, acts, told);
    for i := 0 to |acts|
      invariant ring.Valid() && |readers| == |newest| && Apart(readers) && AllFollow(ring, readers, walks, told)
      invariant forall j :: 0 <= j < |readers| ==> fresh(readers[j])
      invariant AllHeard(results, told) && forall k :: 0 <= k < |results| ==> results[k].1 != Corrupt
      invariant Records(ring.View().history) == old(Records(ring.View().history)) + Printed(acts[..i])
    {
      PrintedNext(acts, i);
      if acts[i].StoreAct? {
        walks := Store(ring, readers, acts[i], walks, told);
      } else {
        NotPrinted(acts[i]);
        var j := acts[i].reader;
        if j < |readers| {
          ghost var before := told;
          var r;
          r, walks, told := ReadBy(ring, readers, j, acts[i].size, walks, told);
          AllHeardNext(results, before, told, j, r);
          results := results + [(j, r)];
        }
      }
    }
    assert acts[..|acts|] == acts;
  }

  lemma NothingYet(history: seq<Item>, acts: seq<Act>, told: seq<seq<ReadResult>>)
    requires forall j :: 0 <= j < |told| ==> told[j] == []
    ensures Records(history) == Records(history) + Printed(acts[..0]) && AllHeard([], told)
  {
  }

  lemma NotPrinted(a: Act)
    requires a.ReadAct?
    ensures PrintedBy(a) == []
  {
  }

  /** printk_log_reader_init, once for each reader. */
  method Open(ring: Ring, newest: seq<bool>)
    returns (readers: seq<Reader>, ghost walks: seq<Walk>, ghost told: seq<seq<ReadResult>>)
    requires ring.Valid()
    ensures ring.Valid() && |readers| == |newest| && Apart(readers) && AllFollow(ring, readers, walks, told)
    ensures forall j :: 0 <= j < |readers| ==> fresh(readers[j]) && told[j] == []
  {
    hide Ring.CursorOk, Follows, Ring.Valid, Ring.View;
    readers, walks, told := [], [], [];
    for i := 0 to |newest|
      invariant ring.Valid() && |readers| == i && Apart(readers) && AllFollow(ring, readers, walks, told)
      invariant forall j :: 0 <= j < |readers| ==> fresh(readers[j]) && told[j] == []
    {
      var reader := new Reader(ring, newest[i]);
      RingLog(ring);
      FollowsStart(ring.View(), reader.cursor);
      ghost var start := Walk(ring.View(), reader.cursor, reader.cursor, 0, 0, [], {});
      readers, walks, told := readers + [reader], walks + [start], told + [[]];
    }
  }

  lemma RingLog(ring: Ring)
    requires ring.Valid()
    ensures LogOk(ring.View()) && ring.View().head == ring.head && ring.View().tail == ring.tail <= ring.head
  {
  }
}
