/**
 The printk log as its clients see it: an append-only sequence of records at increasing stream
 positions, a prefix of which has been dropped, and readers that walk it independently.
 */
module PrintkLog {
  import opened PrintkRecord

  /** A stored record together with its position in the byte stream. */
  datatype Item = Item(pos: nat, rec: Entry)

  datatype Log = Log(history: seq<Item>, tail: nat, head: nat)

  datatype ReadResult = Empty | Record(rec: Entry) | NoRoom | Corrupt | InvalidArgument

  /** Index of the first record at or past stream position `c`. */
  ghost function FirstFrom(history: seq<Item>, c: nat): (k: nat)
    ensures k <= |history|
  {
    if |history| == 0 || history[0].pos >= c then 0 else 1 + FirstFrom(history[1..], c)
  }

  /** One store: the record goes to the end of the history, and only old bytes are given up. */
  ghost predicate Stored(l: Log, l': Log, rec: Entry) {
    && l.tail <= l'.tail <= l'.head
    && exists pos: nat :: l.head <= pos && l'.head == pos + Length(rec) && l'.history == l.history + [Item(pos, rec)]
  }

  /** One read with a buffer of `size` bytes by a reader at `cursor` that has counted `lost` bytes as missed. */
  ghost predicate ReadOnce(l: Log, cursor: nat, lost: nat, size: nat, cursor': nat, lost': nat, r: ReadResult) {
    var from := if cursor < l.tail then l.tail else cursor;
    var k := FirstFrom(l.history, from);
    && lost' == lost + (from - cursor)
    && (k == |l.history| ==> r == Empty && cursor' == l.head)
    && (k < |l.history| ==>
          && l.history[k].rec.Data?
          && cursor' == l.history[k].pos + Length(l.history[k].rec)
          && r == if |l.history[k].rec.text| + 1 > size then NoRoom else Record(l.history[k].rec))
  }

  lemma {:induction false} FirstFromIs(history: seq<Item>, c: nat)
    ensures var k := FirstFrom(history, c);
            && (forall i :: 0 <= i < k ==> history[i].pos < c)
            && (k < |history| ==> history[k].pos >= c)
  {
    if |history| > 0 && history[0].pos < c {
      FirstFromIs(history[1..], c);
      var k := FirstFrom(history[1..], c);
      assert forall i :: 0 < i <= k ==> history[i] == history[1..][i - 1];
      assert k < |history[1..]| ==> history[k + 1] == history[1..][k];
    }
  }

  /** A reader in the middle of a run; `got` are the indices of the records it has been given. */
  datatype Walk = Walk(log: Log, start: nat, cursor: nat, lost: nat, consumed: nat, got: seq<nat>, missed: set<nat>)

  datatype Event = Store(rec: Entry) | Read(size: nat, result: ReadResult)

  ghost predicate Step(w: Walk, w': Walk, e: Event) {
    match e
    case Store(rec) =>
      Length(rec) > 0 && Stored(w.log, w'.log, rec) && w' == w.(log := w'.log)
    case Read(size, r) =>
      var from := if w.cursor < w.log.tail then w.log.tail else w.cursor;
      var k := FirstFrom(w.log.history, from);
      && w'.log == w.log && w'.start == w.start
      && ReadOnce(w.log, w.cursor, w.lost, size, w'.cursor, w'.lost, r)
      && w'.consumed == w.consumed + (w'.cursor - from)
      && w'.got == (if k < |w.log.history| then w.got + [k] else w.got)
      && w'.missed == w.missed + set i | 0 <= i < |w.log.history| && w.cursor <= w.log.history[i].pos < w.log.tail
  }

  ghost predicate LogOk(l: Log) {
    && l.tail <= l.head
    && (forall i :: 0 <= i < |l.history| ==> l.history[i].pos < EndOf(l.history[i]) <= l.head)
    && (forall i, j :: 0 <= i < j < |l.history| ==> EndOf(l.history[i]) <= l.history[j].pos)
  }

  ghost function EndOf(item: Item): nat {
    item.pos + Length(item.rec)
  }

  /** Moving the ends of the log forward keeps it well formed. */
  lemma LogMoved(l: Log, tail: nat, head: nat)
    requires LogOk(l) && l.head <= head && tail <= head
    ensures LogOk(Log(l.history, tail, head))
  {
  }

  lemma LogAppended(l: Log, rec: Entry)
    requires LogOk(l) && Length(rec) > 0
    ensures LogOk(Log(l.history + [Item(l.head, rec)], l.tail, l.head + Length(rec)))
  {
  }

  /** The cursor has moved by the bytes consumed plus the bytes counted as lost. */
  ghost predicate BytesAddUp(w: Walk) {
    w.start <= w.cursor <= w.log.head && w.cursor == w.start + w.consumed + w.lost
  }

  /** The records given out are stored records behind the cursor, in storage order, none twice. */
  ghost predicate GotInOrder(w: Walk) {
    && (forall i :: 0 <= i < |w.got| ==>
       w.got[i] < |w.log.history| && w.start <= w.log.history[w.got[i]].pos < w.cursor)
    && (forall i, j :: 0 <= i < j < |w.got| ==> w.got[i] < w.got[j])
  }

  /** Every record behind the cursor was given out or had been evicted. */
  ghost predicate NothingSkipped(w: Walk) {
    forall i :: 0 <= i < |w.log.history| && w.start <= w.log.history[i].pos < w.cursor ==> i in w.got || i in w.missed
  }

  ghost predicate MissedAreEvicted(w: Walk) {
    forall i :: i in w.missed ==>
        0 <= i < |w.log.history| && w.log.history[i].pos < w.log.tail && w.log.history[i].pos < w.cursor && i !in w.got
  }

  ghost predicate WalkOk(w: Walk) {
    LogOk(w.log) && BytesAddUp(w) && GotInOrder(w) && NothingSkipped(w) && MissedAreEvicted(w)
  }

  /** A reader fresh from printk_log_reader_init, at either end of the log. */
  lemma ReaderStart(l: Log, cursor: nat)
    requires LogOk(l) && cursor <= l.head
    ensures WalkOk(Walk(l, cursor, cursor, 0, 0, [], {}))
  {
  }

  lemma StoreKeeps(w: Walk, w': Walk, rec: Entry)
    requires WalkOk(w) && Step(w, w', Store(rec))
    ensures WalkOk(w')
  {
    hide Length;
    var n := |w.log.history|;
    assert forall i :: 0 <= i < n ==> w'.log.history[i] == w.log.history[i];
  }

  lemma ReadKeeps(w: Walk, w': Walk, size: nat, r: ReadResult)
    requires WalkOk(w) && Step(w, w', Read(size, r))
    ensures WalkOk(w')
  {
    var h := w.log.history;
    var from := if w.cursor < w.log.tail then w.log.tail else w.cursor;
    var k := FirstFrom(h, from);
    FirstFromIs(h, from);
    hide FirstFrom, Length;
    assert k < |h| ==> from <= h[k].pos < w'.cursor == EndOf(h[k]) <= w.log.head;
    assert k == |h| ==> w'.cursor == w.log.head;
    ReadGot(w, w', k);
    ReadMissed(w, w', k);
    ReadSkips(w, w', from, k);
  }

  /** The facts about one read that the two lemmas below share. */
  ghost predicate Advanced(w: Walk, w': Walk, k: nat) {
    && LogOk(w.log) && w'.log == w.log && w'.start == w.start && w.start <= w.cursor <= w'.cursor &&
       k <= |w.log.history|
    && (k < |w.log.history| ==> w.cursor <= w.log.history[k].pos < w'.cursor && w.log.tail <= w.log.history[k].pos)
    && w'.got == (if k < |w.log.history| then w.got + [k] else w.got)
    && w'.missed == w.missed + set i | 0 <= i < |w.log.history| && w.cursor <= w.log.history[i].pos < w.log.tail
  }

  lemma NotAfter(l: Log, i: nat, k: nat)
    requires LogOk(l) && i < |l.history| && k < |l.history| && l.history[i].pos < EndOf(l.history[k])
    ensures i <= k
  {
  }

  lemma ReadGot(w: Walk, w': Walk, k: nat)
    requires GotInOrder(w) && Advanced(w, w', k)
    ensures GotInOrder(w')
  {
    hide Length;
    forall i | 0 <= i < |w.got| && k < |w.log.history|
      ensures w.got[i] < k
    {
      var g := w.got[i];
      NotAfter(w.log, g, k);
    }
    hide LogOk;
    assert forall i :: 0 <= i < |w.got| ==> w'.got[i] == w.got[i];
  }

  lemma ReadMissed(w: Walk, w': Walk, k: nat)
    requires GotInOrder(w) && MissedAreEvicted(w) && Advanced(w, w', k) && w.log.tail <= w'.cursor
    ensures MissedAreEvicted(w')
  {
    hide LogOk;
    forall i | i in w'.missed
      ensures 0 <= i < |w.log.history| && w.log.history[i].pos < w.log.tail && i !in w'.got
    {
      assert i in w'.got ==> i in w.got || i == k;
    }
  }

  lemma ReadSkips(w: Walk, w': Walk, from: nat, k: nat)
    requires NothingSkipped(w) && Advanced(w, w', k)
    requires from == if w.cursor < w.log.tail then w.log.tail else w.cursor
    requires forall i :: 0 <= i < k ==> w.log.history[i].pos < from
    requires k < |w.log.history| ==> w'.cursor == EndOf(w.log.history[k])
    ensures NothingSkipped(w')
  {
    var h := w.log.history;
    forall i | 0 <= i < |h| && w.start <= h[i].pos < w'.cursor
      ensures i in w'.got || i in w'.missed
    {
      if k < |h| {
        NotAfter(w.log, i, k);
      }
      assert i < k ==> h[i].pos < from;
      if i == k {
        assert w'.got[|w.got|] == k;
      }
    }
  }

  /**
   Over any interleaving of stores and reads: what one reader gets are stored records, each at most
   once and in the order they were stored; the records it passed over were evicted before it came
   to them; and the cursor has moved by the bytes consumed plus the bytes counted as lost.
   */
  lemma {:induction false} ReaderRun(run: seq<Walk>, events: seq<Event>, n: nat)
    requires |run| == |events| + 1 && WalkOk(run[0]) && n <= |events|
    requires forall i :: 0 <= i < |events| ==> Step(run[i], run[i + 1], events[i])
    ensures WalkOk(run[n])
  {
    if n > 0 {
      ReaderRun(run, events, n - 1);
      assert Step(run[n - 1], run[n - 1 + 1], events[n - 1]);
      match events[n - 1]
      case Store(rec) => StoreKeeps(run[n - 1], run[n], rec);
      case Read(size, r) => ReadKeeps(run[n - 1], run[n], size, r);
    }
  }
}
