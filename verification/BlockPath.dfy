/**
 A buffer on its way to the disk, from blkdev_submit_buf through submit_bio_wait, the request queue with its other
 users, the worker and the driver, to what the device is given (src/dev/base/blkdev.c, src/dev/base/bio.c,
 src/dev/block/virtio_blk.c).
 */
module BlockPath {
  import opened BlockIo
  import opened BlockQueue

  const EINVAL: int := -22
  const EOPNOTSUPP: int := -95
  const ENXIO: int := -6

  /** The tests at the head of submit_bio_wait, for a device of `count` blocks. */
  function Refusal(bio: Bio, phyBsize: nat, count: nat): int {
    if (if bio.op == Flush then bio.vecs != [] else bio.vecs == []) then EINVAL
    else if phyBsize != SECTOR then EOPNOTSUPP
    else if bio.op != Flush && !(bio.sector < count && Sectors(bio.vecs) <= count - bio.sector) then ENXIO
    else 0
  }

  /**
   submit_bio_wait up to the wait: `chain` leads from the device of the bio to its disk. The bio joins the queue at the
   sector of the whole disk, or is refused and nothing changes.
   */
  method SubmitBio(q: Queue, chain: seq<Dev>, phyBsize: nat, bio: Bio) returns (err: int)
    requires q.Valid() && |chain| > 0 && BioOk(bio)
    modifies q`queue, q`accepted
    ensures q.Valid()
    ensures err == if Refusal(bio, phyBsize, chain[0].count) != 0 then Refusal(bio, phyBsize, chain[0].count)
                   else if q.dead then ENODEV else 0
    ensures err != 0 ==> q.queue == old(q.queue) && q.accepted == old(q.accepted)
    ensures err == 0 ==> q.accepted == old(q.accepted) + [OnDisk(bio, chain)]
  {
    if (if bio.op == Flush then bio.vecs != [] else bio.vecs == []) {
      return EINVAL;
    }
    if phyBsize != SECTOR {
      return EOPNOTSUPP;
    }
    if bio.op != Flush {
      if bio.sector >= chain[0].count || Sectors(bio.vecs) > chain[0].count - bio.sector {
        return ENXIO;
      }
    }
    var disk := Translate(chain, bio.sector);
    var ok := q.Enqueue(bio.(sector := disk));
    err := if ok then 0 else ENODEV;
  }

  /** The bio as the disk sees it. */
  function OnDisk(bio: Bio, chain: seq<Dev>): Bio {
    bio.(sector := bio.sector + Offset(chain))
  }

  // What others do while a submitter sleeps.

  /** Another bio comes in; the worker begins with the next request or ends with the one it has; the queue goes. */
  datatype Event =
    | Other(chain: seq<Dev>, phyBsize: nat, bio: Bio)
    | Begin
    | End(device: Device, flush: int)
    | Die

  /** The accepted bios, the completions, and what the device was given of each and in all. */
  datatype Past = Past(accepted: seq<Bio>, completions: seq<Completion>, shares: seq<seq<Slice>>, received: seq<Slice>)

  ghost function History(q: Queue): Past
    reads q
  {
    Past(q.accepted, q.completions, q.shares, q.received)
  }

  /** The past only grows. */
  ghost predicate Later(h: Past, h': Past) {
    h.accepted <= h'.accepted && h.completions <= h'.completions && h.shares <= h'.shares && h.received <= h'.received
  }

  lemma LaterTrans(h0: Past, h1: Past, h2: Past)
    requires Later(h0, h1) && Later(h1, h2)
    ensures Later(h0, h2)
  {
  }

  lemma LaterRefl(h: Past)
    ensures Later(h, h)
  {
  }

  /** Bios complete in the order they were accepted, and the device has what the completed ones were given. */
  ghost predicate PastOk(h: Past) {
    && |h.completions| <= |h.accepted| &&
       (forall i :: 0 <= i < |h.completions| ==> h.completions[i].bio == h.accepted[i])
    && SharesOk(h.completions, h.shares) && Concat(h.shares) == h.received
  }

  lemma HistoryOk(q: Queue)
    requires q.Valid()
    ensures PastOk(History(q))
  {
    hide Outcomes, Flat, SharesOk, Concat;
    var n := |q.statuses|;
    OutcomesBios(q.given[..n], q.statuses);
    FlatPrefix(q.given, n);
    FlatConcat(q.given, q.queue);
  }

  lemma FlatPrefix(rqs: seq<Request>, n: nat)
    requires n <= |rqs|
    ensures Flat(rqs[..n]) <= Flat(rqs)
  {
    assert rqs == rqs[..n] + rqs[n..];
    FlatConcat(rqs[..n], rqs[n..]);
  }

  /** The worker goes on: a dead queue fails what it holds, otherwise the first request is taken off. */
  method WorkerBegin(q: Queue)
    requires q.Valid()
    modifies q
    ensures q.Valid() && Later(old(History(q)), History(q))
  {
    if q.current.None? {
      if q.dead {
        q.FailAll();
      } else if q.queue != [] {
        var _ := q.Take();
      }
    }
  }

  /** virtio_blk_queue_rq and the completion of the request; a flush carries no data and has a status of its own. */
  method WorkerEnd(q: Queue, device: Device, flush: int)
    requires q.Valid()
    modifies q
    ensures q.Valid() && Later(old(History(q)), History(q))
  {
    if q.current.Some? {
      var rq := q.current.value;
      GivenOk(q.given, |q.given| - 1);
      hide *;
      if rq.op == Flush {
        q.Complete(flush, []);
      } else {
        var err, batches := QueueRq(rq, device);
        q.Complete(err, BatchSlices(batches));
      }
      HistoryIs(q);
      LaterIs(old(History(q)), History(q));
    }
  }

  lemma HistoryIs(q: Queue)
    ensures History(q) == Past(q.accepted, q.completions, q.shares, q.received)
  {
  }

  lemma LaterIs(h: Past, h': Past)
    requires h.accepted <= h'.accepted && h.completions <= h'.completions && h.shares <= h'.shares &&
             h.received <= h'.received
    ensures Later(h, h')
  {
  }

  method Happen(q: Queue, e: Event)
    requires q.Valid()
    modifies q
    ensures q.Valid() && Later(old(History(q)), History(q))
  {
    hide *;
    LaterRefl(History(q));
    HistoryIs(q);
    match e {
      case Other(chain, phyBsize, bio) =>
        if |chain| > 0 && IsBio(bio) {
          IsBioOk(bio);
          var _ := SubmitBio(q, chain, phyBsize, bio);
          HistoryIs(q);
          LaterIs(old(History(q)), History(q));
        }
      case Begin =>
        WorkerBegin(q);
      case End(device, flush) =>
        WorkerEnd(q, device, flush);
      case Die =>
        q.Kill();
        HistoryIs(q);
    }
  }

  predicate IsBio(b: Bio) {
    |b.vecs| <= BIO_MAX_VECS && forall i :: 0 <= i < |b.vecs| ==> VecOk(b.vecs[i]) && b.vecs[i].len <= PAGE_SIZE
  }

  lemma IsBioOk(b: Bio)
    requires IsBio(b)
    ensures BioOk(b)
  {
  }

  /** The wait of submit_bio_wait for bio number `index`; `env` is what happens, and may end too soon. */
  method Wait(q: Queue, index: nat, env: seq<Event>, from: nat) returns (to: nat)
    requires q.Valid() && index < |q.accepted| && from <= |env|
    modifies q
    ensures q.Valid() && Later(old(History(q)), History(q)) && from <= to <= |env|
    ensures index < |q.completions| || to == |env|
  {
    hide *;
    LaterRefl(History(q));
    to := from;
    while index >= |q.completions| && to < |env|
      invariant from <= to <= |env| && q.Valid() && Later(old(History(q)), History(q))
      decreases |env| - to
    {
      ghost var h := History(q);
      Happen(q, env[to]);
      LaterTrans(old(History(q)), h, History(q));
      to := to + 1;
    }
  }

  // The buffer.

  datatype Result = Done(err: int) | StillWaiting

  /** The shares with the given numbers, one after the other. */
  ghost function Picked(shares: seq<seq<Slice>>, mine: seq<nat>): seq<Slice>
    requires forall j :: 0 <= j < |mine| ==> mine[j] < |shares|
  {
    if |mine| == 0 then [] else Picked(shares, mine[..|mine| - 1]) + shares[mine[|mine| - 1]]
  }

  /** The bios of the buffer so far: in the order of acceptance, all done, and `got` is what the device was given. */
  ghost predicate Given(h: Past, mine: seq<nat>, got: seq<Slice>) {
    && (forall j :: 0 <= j < |mine| ==> mine[j] < |h.shares|)
    && (forall j, k :: 0 <= j < k < |mine| ==> mine[j] < mine[k])
    && Picked(h.shares, mine) == got
  }

  lemma GivenNone(h: Past)
    ensures Given(h, [], [])
  {
  }

  lemma {:induction false} PickedLater(shares: seq<seq<Slice>>, shares': seq<seq<Slice>>, mine: seq<nat>)
    requires shares <= shares' && forall j :: 0 <= j < |mine| ==> mine[j] < |shares|
    ensures Picked(shares', mine) == Picked(shares, mine)
    decreases |mine|
  {
    if |mine| > 0 {
      PickedLater(shares, shares', mine[..|mine| - 1]);
    }
  }

  lemma GivenLater(h: Past, h': Past, mine: seq<nat>, got: seq<Slice>)
    requires Given(h, mine, got) && Later(h, h')
    ensures Given(h', mine, got)
  {
    PickedLater(h.shares, h'.shares, mine);
  }

  lemma GivenMore(h: Past, mine: seq<nat>, got: seq<Slice>, index: nat)
    requires Given(h, mine, got) && index < |h.shares| && forall j :: 0 <= j < |mine| ==> mine[j] < index
    ensures Given(h, mine + [index], got + h.shares[index])
  {
    var more := mine + [index];
    assert more[..|mine|] == mine && more[|mine|] == index;
  }

  /** Every slice goes to a sector of the window of the first device of the chain. */
  ghost predicate InWindow(slices: seq<Slice>, chain: seq<Dev>)
    requires |chain| > 0
  {
    forall i :: 0 <= i < |slices| ==> Offset(chain) <= slices[i].sector < Offset(chain) + chain[0].count
  }

  /** Inside the window is inside the disk. */
  lemma WindowOnDisk(slices: seq<Slice>, chain: seq<Dev>)
    requires |chain| > 0 && Nested(chain) && InWindow(slices, chain)
    ensures forall i :: 0 <= i < |slices| ==> slices[i].sector < chain[|chain| - 1].count
  {
    WindowInside(chain);
  }

  /** What the device was given of a completed bio. */
  lemma ShareOf(h: Past, index: nat)
    requires PastOk(h) && index < |h.completions|
    ensures index < |h.accepted| && index < |h.shares|
    ensures ShareOk(h.accepted[index], h.shares[index],
                    h.completions[index].status == 0 && h.accepted[index].op != Flush)
  {
    hide Concat, BioSlices;
    assert h.completions[index].bio == h.accepted[index];
  }

  /** What one bio of the buffer can bring: a prefix of its stretch, and all of it on success. */
  lemma ShareIs(share: seq<Slice>, whole: bool, bio: Bio, chain: seq<Dev>, sector: nat, buf: nat, n: nat, write: bool)
    requires |chain| > 0 && ShareOk(OnDisk(bio, chain), share, whole)
    requires BioSlices(bio) == Wanted(sector, buf, n, write) && sector + n <= chain[0].count
    ensures InWindow(share, chain) && share <= Wanted(sector + Offset(chain), buf, n, write)
    ensures whole ==> share == Wanted(sector + Offset(chain), buf, n, write)
  {
    DiskSlices(bio, chain);
    WantedShift(sector, buf, n, Offset(chain), write);
    hide BioSlices, Offset, Shift, Wanted;
    PrefixWindow(share, sector, buf, n, chain, write);
  }

  lemma SameOp(bio: Bio, chain: seq<Dev>)
    ensures OnDisk(bio, chain).op == bio.op
  {
  }

  lemma DiskSlices(bio: Bio, chain: seq<Dev>)
    ensures BioSlices(OnDisk(bio, chain)) == Shift(BioSlices(bio), Offset(chain))
  {
    ShiftSlices(bio.sector, bio.vecs, Offset(chain), bio.op == Write);
  }

  lemma PrefixWindow(share: seq<Slice>, sector: nat, buf: nat, n: nat, chain: seq<Dev>, write: bool)
    requires |chain| > 0 && share <= Wanted(sector + Offset(chain), buf, n, write) && sector + n <= chain[0].count
    ensures InWindow(share, chain)
  {
    hide Offset, Wanted;
    forall i | 0 <= i < |share|
      ensures Offset(chain) <= share[i].sector < Offset(chain) + chain[0].count
    {
      WantedAt(sector + Offset(chain), buf, n, i, write);
    }
  }

  lemma WantedAt(sector: nat, buf: nat, n: nat, i: nat, write: bool)
    ensures |Wanted(sector, buf, n, write)| == n && (i < n ==> Wanted(sector, buf, n, write)[i].sector == sector + i)
  {
  }

  lemma WantedShift(sector: nat, buf: nat, n: nat, off: nat, write: bool)
    ensures Shift(Wanted(sector, buf, n, write), off) == Wanted(sector + off, buf, n, write)
  {
  }

  lemma WantedMore(sector: nat, buf: nat, done: nat, n: nat, len: nat, got: seq<Slice>, share: seq<Slice>, write: bool)
    requires done % SECTOR == 0 && n % SECTOR == 0 && len % SECTOR == 0 && done + n <= len &&
             got == Wanted(sector, buf, done / SECTOR, write)
    requires share <= Wanted(sector + done / SECTOR, buf + done, n / SECTOR, write)
    ensures got + share <= Wanted(sector, buf, len / SECTOR, write)
    ensures share == Wanted(sector + done / SECTOR, buf + done, n / SECTOR, write) ==>
            got + share == Wanted(sector, buf, (done + n) / SECTOR, write)
  {
    WantedConcat(sector, buf, done / SECTOR, n / SECTOR, write);
    WantedConcat(sector, buf, (done + n) / SECTOR, (len - done - n) / SECTOR, write);
    hide Wanted;
  }

  lemma WindowMore(a: seq<Slice>, b: seq<Slice>, chain: seq<Dev>)
    requires |chain| > 0 && InWindow(a, chain) && InWindow(b, chain)
    ensures InWindow(a + b, chain)
  {
  }

  /** The bios with the given numbers are all of one kind. */
  ghost predicate AllAre(h: Past, mine: seq<nat>, op: Op) {
    forall j :: 0 <= j < |mine| ==> mine[j] < |h.accepted| && h.accepted[mine[j]].op == op
  }

  /** What is known of the bios `mine` of a buffer of `n` sectors, and of what the device was given for them. */
  ghost predicate Sent(h: Past, mine: seq<nat>, got: seq<Slice>, chain: seq<Dev>, blk: nat, buf: nat, n: nat, op: Op)
    requires |chain| > 0
  {
    && Given(h, mine, got) && AllAre(h, mine, op) && InWindow(got, chain)
    && got <= Wanted(blk + Offset(chain), buf, n, op == Write)
  }

  lemma SentNone(h: Past, chain: seq<Dev>, blk: nat, buf: nat, n: nat, op: Op)
    requires |chain| > 0
    ensures Sent(h, [], [], chain, blk, buf, n, op) && Wanted(blk + Offset(chain), buf, 0, op == Write) == []
  {
    GivenNone(h);
    hide Offset;
  }

  lemma SentLater(h: Past, h': Past, mine: seq<nat>, got: seq<Slice>, chain: seq<Dev>, blk: nat, buf: nat, n: nat,
                  op: Op)
    requires |chain| > 0 && Sent(h, mine, got, chain, blk, buf, n, op) && Later(h, h')
    ensures Sent(h', mine, got, chain, blk, buf, n, op)
  {
    hide Picked, Wanted, Offset;
    GivenLater(h, h', mine, got);
    hide Given;
  }

  /** One more bio, with its share. */
  lemma SentMore(h: Past, h': Past, mine: seq<nat>, got: seq<Slice>, chain: seq<Dev>, blk: nat, buf: nat, done: nat,
                 n: nat, len: nat, op: Op, index: nat)
    requires |chain| > 0 && PastOk(h) && Sent(h, mine, got, chain, blk, buf, len / SECTOR, op)
    requires Sent(h', mine, got, chain, blk, buf, len / SECTOR, op)
    requires done % SECTOR == 0 && n % SECTOR == 0 && len % SECTOR == 0 && done + n <= len
    requires got == Wanted(blk + Offset(chain), buf, done / SECTOR, op == Write)
    requires index == |h.accepted| < |h'.accepted| && h'.accepted[index].op == op && index < |h'.shares|
    requires InWindow(h'.shares[index], chain)
    requires h'.shares[index] <= Wanted(blk + done / SECTOR + Offset(chain), buf + done, n / SECTOR, op == Write)
    ensures Sent(h', mine + [index], got + h'.shares[index], chain, blk, buf, len / SECTOR, op)
    ensures h'.shares[index] == Wanted(blk + done / SECTOR + Offset(chain), buf + done, n / SECTOR, op == Write) ==>
              got + h'.shares[index] == Wanted(blk + Offset(chain), buf, (done + n) / SECTOR, op == Write)
  {
    hide *;
    Units();
    SentParts(h, mine, got, chain, blk, buf, len / SECTOR, op);
    SentParts(h', mine, got, chain, blk, buf, len / SECTOR, op);
    MineBefore(h, mine, got, index);
    GivenMore(h', mine, got, index);
    AllAreMore(h', mine, op, index);
    WantedMore(blk + Offset(chain), buf, done, n, len, got, h'.shares[index], op == Write);
    WindowMore(got, h'.shares[index], chain);
    SentWhole(h', mine + [index], got + h'.shares[index], chain, blk, buf, len / SECTOR, op);
  }

  lemma SentParts(h: Past, mine: seq<nat>, got: seq<Slice>, chain: seq<Dev>, blk: nat, buf: nat, n: nat, op: Op)
    requires |chain| > 0 && Sent(h, mine, got, chain, blk, buf, n, op)
    ensures Given(h, mine, got) && AllAre(h, mine, op) && InWindow(got, chain)
    ensures got <= Wanted(blk + Offset(chain), buf, n, op == Write)
  {
    hide Given, AllAre, InWindow, Wanted, Offset;
  }

  lemma SentWhole(h: Past, mine: seq<nat>, got: seq<Slice>, chain: seq<Dev>, blk: nat, buf: nat, n: nat, op: Op)
    requires |chain| > 0 && Given(h, mine, got) && AllAre(h, mine, op) && InWindow(got, chain)
    requires got <= Wanted(blk + Offset(chain), buf, n, op == Write)
    ensures Sent(h, mine, got, chain, blk, buf, n, op)
  {
    hide Given, AllAre, InWindow, Wanted, Offset;
  }

  lemma AllAreMore(h: Past, mine: seq<nat>, op: Op, index: nat)
    requires AllAre(h, mine, op) && index < |h.accepted| && h.accepted[index].op == op
    ensures AllAre(h, mine + [index], op)
  {
  }

  lemma AllAreIs(q: Queue, mine: seq<nat>, op: Op)
    requires AllAre(History(q), mine, op)
    ensures forall j :: 0 <= j < |mine| ==> mine[j] < |q.accepted| && q.accepted[mine[j]].op == op
  {
  }

  lemma SentIs(q: Queue, mine: seq<nat>, got: seq<Slice>, chain: seq<Dev>, blk: nat, buf: nat, n: nat, op: Op)
    requires |chain| > 0 && Sent(History(q), mine, got, chain, blk, buf, n, op)
    ensures Given(History(q), mine, got)
    ensures forall j :: 0 <= j < |mine| ==> mine[j] < |q.accepted| && q.accepted[mine[j]].op == op
    ensures forall i :: 0 <= i < |got| ==> (got[i].write <==> op == Write)
    ensures got <= Wanted(blk + Offset(chain), buf, n, op == Write) && InWindow(got, chain)
  {
    hide *;
    SentParts(History(q), mine, got, chain, blk, buf, n, op);
    AllAreIs(q, mine, op);
    WantedWay(got, blk + Offset(chain), buf, n, op == Write);
  }

  /** A prefix of what is wanted has the direction wanted. */
  lemma WantedWay(got: seq<Slice>, sector: nat, buf: nat, n: nat, write: bool)
    requires got <= Wanted(sector, buf, n, write)
    ensures forall i :: 0 <= i < |got| ==> got[i].write == write
  {
  }

  /**
   One bio of the buffer: cut, submitted and waited for. `index` is its number among the accepted bios; unless it is
   refused, nothing outside its stretch can be given to the device on its behalf.
   */
  method SubmitNext(q: Queue, chain: seq<Dev>, phyBsize: nat, op: Op, sector: nat, buf: nat, len: nat, env: seq<Event>,
                    from: nat)
    returns (r: Result, refused: bool, n: nat, to: nat, ghost index: nat)
    requires q.Valid() && |chain| > 0 && op != Flush && 0 < len && len % SECTOR == 0 && from <= |env|
    modifies q
    ensures q.Valid() && Later(old(History(q)), History(q)) && from <= to <= |env|
    ensures 0 < n <= len && n % SECTOR == 0 && index == |old(q.accepted)|
    ensures refused ==> History(q) == old(History(q)) && r.Done? && r.err != 0
    ensures !refused ==> index < |q.accepted| && q.accepted[index].op == op && sector + n / SECTOR <= chain[0].count
    ensures !refused && r.Done? ==>
              && index < |q.shares| && InWindow(q.shares[index], chain)
              && q.shares[index] <= Wanted(sector + Offset(chain), buf, n / SECTOR, op == Write)
              && (r.err == 0 ==> q.shares[index] == Wanted(sector + Offset(chain), buf, n / SECTOR, op == Write))
  {
    hide *;
    Units();
    ghost var h := History(q);
    HistoryIs(q);
    LaterRefl(h);
    var bio;
    bio, n := FillBio(op, sector, buf, len);
    RefusalIs(bio, phyBsize, chain[0].count);
    index, to := |q.accepted|, from;
    var err := SubmitBio(q, chain, phyBsize, bio);
    HistoryIs(q);
    if err != 0 {
      assert History(q) == h;
      return Done(err), true, n, to, index;
    }
    var number := |q.accepted| - 1;
    ghost var h1 := History(q);
    LaterIs(h, h1);
    to := Wait(q, number, env, to);
    ghost var h2 := History(q);
    HistoryIs(q);
    LaterTrans(h, h1, h2);
    StillAccepted(h1, h2, number);
    SameOp(bio, chain);
    if number >= |q.completions| {
      return StillWaiting, false, n, to, index;
    }
    HistoryOk(q);
    ShareOf(h2, number);
    ShareIs(h2.shares[number], q.completions[number].status == 0, bio, chain, sector, buf, n / SECTOR, op == Write);
    return Done(q.completions[number].status), false, n, to, index;
  }

  /** The loop of blkdev_submit_buf. */
  method SubmitAll(q: Queue, chain: seq<Dev>, phyBsize: nat, op: Op, blk: nat, buf: nat, len: nat, env: seq<Event>)
    returns (r: Result, ghost mine: seq<nat>, ghost got: seq<Slice>)
    requires q.Valid() && |chain| > 0 && op != Flush && 0 < len && len % SECTOR == 0
    modifies q
    ensures q.Valid() && Later(old(History(q)), History(q))
    ensures Sent(History(q), mine, got, chain, blk, buf, len / SECTOR, op)
    ensures r == Done(0) ==>
              && got == Wanted(blk + Offset(chain), buf, len / SECTOR, op == Write)
              && blk + len / SECTOR <= chain[0].count
  {
    hide *;
    Units();
    LaterRefl(History(q));
    mine, got := [], [];
    SentNone(History(q), chain, blk, buf, len / SECTOR, op);
    var done, at := 0, 0;
    while done < len
      invariant done <= len && done % SECTOR == 0 && at <= |env| && q.Valid() && Later(old(History(q)), History(q))
      invariant Sent(History(q), mine, got, chain, blk, buf, len / SECTOR, op)
      invariant got == Wanted(blk + Offset(chain), buf, done / SECTOR, op == Write)
      invariant done > 0 ==> blk + done / SECTOR <= chain[0].count
      decreases len - done
    {
      ghost var h := History(q);
      HistoryIs(q);
      HistoryOk(q);
      var refused, n;
      ghost var index;
      r, refused, n, at, index := SubmitNext(q, chain, phyBsize, op, blk + done / SECTOR, buf + done, len - done, env,
                                             at);
      LaterTrans(old(History(q)), h, History(q));
      if refused {
        return r, mine, got;
      }
      SentLater(h, History(q), mine, got, chain, blk, buf, len / SECTOR, op);
      if r.StillWaiting? {
        return r, mine, got;
      }
      HistoryIs(q);
      SentMore(h, History(q), mine, got, chain, blk, buf, done, n, len, op, index);
      mine, got := mine + [index], got + q.shares[index];
      if r.err != 0 {
        return r, mine, got;
      }
      SectorsMore(blk, done, n);
      done := done + n;
    }
    r := Done(0);
  }

  /**
   blkdev_submit_buf, with everything below it. `got` is what the device was given for the buffer, told by the bios
   `mine`. If the call succeeds, every 512-byte slice of the buffer reached exactly its sector, translated to the disk;
   if it fails or still waits, a prefix of them did; each slice in the direction asked for; and in no case anything
   outside the window of the device.
   */
  method SubmitBuf(q: Queue, chain: seq<Dev>, phyBsize: nat, op: Op, blk: nat, buf: nat, len: nat, env: seq<Event>)
    returns (r: Result, ghost mine: seq<nat>, ghost got: seq<Slice>)
    requires q.Valid() && |chain| > 0 && op != Flush
    modifies q
    ensures q.Valid() && Later(old(History(q)), History(q)) && Given(History(q), mine, got)
    ensures len == 0 ==> r == Done(0)
    ensures len > 0 && (phyBsize != SECTOR || len % SECTOR != 0) ==> r == Done(EINVAL) && got == []
    ensures len > 0 && phyBsize == SECTOR && len % SECTOR == 0 && blk + len / SECTOR > chain[0].count ==> r != Done(0)
    ensures forall j :: 0 <= j < |mine| ==> mine[j] < |q.accepted| && q.accepted[mine[j]].op == op
    ensures forall i :: 0 <= i < |got| ==> (got[i].write <==> op == Write)
    ensures r == Done(0) ==> got == Wanted(blk + Offset(chain), buf, len / SECTOR, op == Write)
    ensures got <= Wanted(blk + Offset(chain), buf, len / SECTOR, op == Write) && InWindow(got, chain)
  {
    hide *;
    Units();
    LaterRefl(History(q));
    mine, got := [], [];
    SentNone(History(q), chain, blk, buf, len / SECTOR, op);
    SentIs(q, mine, got, chain, blk, buf, len / SECTOR, op);
    if len == 0 {
      return Done(0), [], [];
    }
    if phyBsize != SECTOR || len % SECTOR != 0 {
      return Done(EINVAL), [], [];
    }
    InBoundsIs(blk, len / SECTOR % COUNT_LIMIT, chain[0].count);
    if !InBounds(blk, len / SECTOR % COUNT_LIMIT, chain[0].count) {
      return Done(ENXIO), [], [];
    }
    r, mine, got := SubmitAll(q, chain, phyBsize, op, blk, buf, len, env);
    SentIs(q, mine, got, chain, blk, buf, len / SECTOR, op);
  }

  lemma Units()
    ensures SECTOR == 512 && COUNT_LIMIT == 0x1_0000_0000 && EINVAL != 0 && ENXIO != 0 && EOPNOTSUPP != 0 && ENODEV != 0
  {
  }

  lemma InBoundsIs(blk: nat, count: nat, devCount: nat)
    ensures InBounds(blk, count, devCount) <==> count == 0 || blk + count <= devCount
  {
  }

  lemma RefusalIs(bio: Bio, phyBsize: nat, count: nat)
    ensures Refusal(bio, phyBsize, count) == 0 && bio.op != Flush ==> bio.sector + Sectors(bio.vecs) <= count
  {
  }

  lemma StillAccepted(h: Past, h': Past, index: nat)
    requires Later(h, h') && index < |h.accepted|
    ensures index < |h'.accepted| && h'.accepted[index] == h.accepted[index]
  {
  }

  /** The bios of the buffer that are done were accepted before this one. */
  lemma MineBefore(h: Past, mine: seq<nat>, got: seq<Slice>, index: nat)
    requires PastOk(h) && Given(h, mine, got) && index == |h.accepted|
    ensures forall j :: 0 <= j < |mine| ==> mine[j] < index
  {
  }

  lemma SectorsMore(blk: nat, done: nat, n: nat)
    requires done % SECTOR == 0 && n % SECTOR == 0
    ensures blk + (done + n) / SECTOR == blk + done / SECTOR + n / SECTOR && (done + n) % SECTOR == 0
  {
  }
}
