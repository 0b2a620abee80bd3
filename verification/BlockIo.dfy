/**
 The block request path: a buffer is cut into bios, bios are queued and merged into requests, and the driver cuts
 requests into segment batches (src/dev/base/blkdev.c, src/dev/base/bio.c, src/dev/block/virtio_blk.c). What
 travels is told sector by sector: each 512-byte slice of memory and the sector it goes to.
 */
module BlockIo {
  const SECTOR: nat := 512
  const PAGE_SIZE: nat := 4096
  const BIO_MAX_VECS: nat := 8
  const MAX_SEGS: nat := 16

  datatype Op = Read | Write | Flush

  /** A piece of memory: an address and a length in bytes. */
  datatype Vec = Vec(buf: nat, len: nat)

  /** A bio; in a queue `sector` is that of the whole disk. */
  datatype Bio = Bio(op: Op, sector: nat, vecs: seq<Vec>)

  datatype Request = Request(op: Op, start: nat, nrSectors: nat, bios: seq<Bio>)

  /** Which sector and which memory, and whether the memory goes to the disk. */
  datatype Slice = Slice(sector: nat, mem: nat, write: bool)

  predicate VecOk(v: Vec) {
    v.len > 0 && v.len % SECTOR == 0
  }

  /** The sector pairs of one piece of memory. */
  function VecSlices(sector: nat, v: Vec, write: bool): seq<Slice> {
    seq(v.len / SECTOR, j requires 0 <= j => Slice(sector + j, v.buf + SECTOR * j, write))
  }

  function Sectors(vecs: seq<Vec>): nat {
    if |vecs| == 0 then 0 else vecs[0].len / SECTOR + Sectors(vecs[1..])
  }

  function Slices(sector: nat, vecs: seq<Vec>, write: bool): seq<Slice>
    decreases |vecs|
  {
    if |vecs| == 0 then []
       else VecSlices(sector, vecs[0], write) + Slices(sector + vecs[0].len / SECTOR, vecs[1..], write)
  }

  lemma {:induction false} SlicesConcat(sector: nat, a: seq<Vec>, b: seq<Vec>, write: bool)
    ensures Slices(sector, a + b, write) == Slices(sector, a, write) + Slices(sector + Sectors(a), b, write)
    ensures Sectors(a + b) == Sectors(a) + Sectors(b)
    decreases |a|
  {
    hide VecSlices;
    if |a| == 0 {
      assert a + b == b;
    } else {
      SlicesConcat(sector + a[0].len / SECTOR, a[1..], b, write);
      assert (a + b)[1..] == a[1..] + b;
    }
  }

  lemma SlicesOne(sector: nat, v: Vec, write: bool)
    ensures Slices(sector, [v], write) == VecSlices(sector, v, write) && Sectors([v]) == v.len / SECTOR
  {
    assert [v][1..] == [];
  }

  function BioSlices(b: Bio): seq<Slice> {
    Slices(b.sector, b.vecs, b.op == Write)
  }

  function AllSlices(bios: seq<Bio>): seq<Slice> {
    if |bios| == 0 then [] else BioSlices(bios[0]) + AllSlices(bios[1..])
  }

  function AllVecs(bios: seq<Bio>): seq<Vec> {
    if |bios| == 0 then [] else bios[0].vecs + AllVecs(bios[1..])
  }

  /** The bios lie one after the other on the disk, from `sector` on. */
  ghost predicate Contiguous(sector: nat, bios: seq<Bio>)
    decreases |bios|
  {
    |bios| > 0 ==> bios[0].sector == sector && Contiguous(sector + Sectors(bios[0].vecs), bios[1..])
  }

  function AllSectors(bios: seq<Bio>): nat {
    if |bios| == 0 then 0 else Sectors(bios[0].vecs) + AllSectors(bios[1..])
  }

  /** One kind of operation, contiguous, counted right; a flush stands alone. */
  ghost predicate RequestOk(rq: Request) {
    && |rq.bios| > 0 && (forall i :: 0 <= i < |rq.bios| ==> rq.bios[i].op == rq.op)
    && rq.nrSectors == AllSectors(rq.bios) && rq.start == rq.bios[0].sector
    && (rq.op == Flush ==> |rq.bios| == 1) && (rq.op != Flush ==> Contiguous(rq.start, rq.bios))
  }

  lemma {:induction false} ContiguousSnoc(sector: nat, bios: seq<Bio>, b: Bio)
    requires Contiguous(sector, bios) && b.sector == sector + AllSectors(bios)
    ensures Contiguous(sector, bios + [b]) && AllSectors(bios + [b]) == AllSectors(bios) + Sectors(b.vecs)
    decreases |bios|
  {
    if |bios| == 0 {
      assert bios + [b] == [b] && [b][1..] == [];
    } else {
      ContiguousSnoc(sector + Sectors(bios[0].vecs), bios[1..], b);
      assert (bios + [b])[1..] == bios[1..] + [b];
    }
  }

  /** A merged request is one stretch of sectors: its pieces of memory, end to end, go where the bios said. */
  lemma {:induction false} MergedSlices(sector: nat, bios: seq<Bio>, write: bool)
    requires Contiguous(sector, bios) && forall i :: 0 <= i < |bios| ==> (bios[i].op == Write <==> write)
    ensures Slices(sector, AllVecs(bios), write) == AllSlices(bios)
    decreases |bios|
  {
    hide VecSlices;
    if |bios| > 0 {
      MergedSlices(sector + Sectors(bios[0].vecs), bios[1..], write);
      SlicesConcat(sector, bios[0].vecs, AllVecs(bios[1..]), write);
    }
  }

  // Partitions.

  /** A block device on the way from a partition to its disk: where it begins in its parent, and its size. */
  datatype Dev = Dev(start: nat, count: nat)

  /** Every device on the chain lies inside the next. */
  ghost predicate Nested(chain: seq<Dev>) {
    forall i :: 0 <= i < |chain| - 1 ==> chain[i].start + chain[i].count <= chain[i + 1].count
  }

  /** The offset of the first device of the chain on the disk. */
  function Offset(chain: seq<Dev>): nat {
    if |chain| <= 1 then 0 else chain[0].start + Offset(chain[1..])
  }

  /** bio_lookup_queue: the sector on the whole disk. */
  method Translate(chain: seq<Dev>, sector: nat) returns (disk: nat)
    requires |chain| > 0
    ensures disk == sector + Offset(chain)
  {
    disk := sector;
    var i := 0;
    while i < |chain| - 1
      invariant i <= |chain| - 1 && disk + Offset(chain[i..]) == sector + Offset(chain)
    {
      assert chain[i..][1..] == chain[i + 1..];
      disk := disk + chain[i].start;
      i := i + 1;
    }
    assert |chain[i..]| == 1;
  }

  /** A partition is a window of its disk: inside it, and moved by a fixed offset. */
  lemma {:induction false} WindowInside(chain: seq<Dev>)
    requires |chain| > 0 && Nested(chain)
    ensures Offset(chain) + chain[0].count <= chain[|chain| - 1].count
  {
    if |chain| > 1 {
      var rest := chain[1..];
      forall i | 0 <= i < |rest| - 1
        ensures rest[i].start + rest[i].count <= rest[i + 1].count
      {
        assert rest[i] == chain[i + 1] && rest[i + 1] == chain[i + 1 + 1];
      }
      WindowInside(rest);
    }
  }

  // Cutting a buffer into bios.

  /** blkdev_check_bounds. */
  predicate InBounds(blk: nat, count: nat, devCount: nat) {
    count == 0 || (blk < devCount && count <= devCount - blk)
  }

  /** The number of sectors goes through a 32-bit argument. */
  const COUNT_LIMIT: nat := 0x1_0000_0000

  /** What a buffer of `n` sectors at memory address `buf` should become. */
  function Wanted(sector: nat, buf: nat, n: nat, write: bool): seq<Slice> {
    seq(n, j requires 0 <= j => Slice(sector + j, buf + SECTOR * j, write))
  }

  lemma WantedConcat(sector: nat, buf: nat, m: nat, n: nat, write: bool)
    ensures Wanted(sector, buf, m + n, write) ==
            Wanted(sector, buf, m, write) + Wanted(sector + m, buf + SECTOR * m, n, write)
  {
  }

  ghost predicate BioOk(b: Bio) {
    && (forall i :: 0 <= i < |b.vecs| ==> VecOk(b.vecs[i]) && b.vecs[i].len <= PAGE_SIZE)
    && |b.vecs| <= BIO_MAX_VECS
  }

  /** The inner loop of blkdev_submit_buf: one bio, as full as it may be. */
  method FillBio(op: Op, sector: nat, buf: nat, len: nat) returns (bio: Bio, done: nat)
    requires 0 < len && len % SECTOR == 0
    ensures bio.op == op && bio.sector == sector && BioOk(bio) && 0 < done <= len && done % SECTOR == 0
    ensures BioSlices(bio) == Wanted(sector, buf, done / SECTOR, op == Write) && Sectors(bio.vecs) == done / SECTOR
  {
    hide Slices, VecSlices, Sectors, Wanted;
    var vecs: seq<Vec> := [];
    done := 0;
    FillStart(sector, buf, op == Write);
    while |vecs| < BIO_MAX_VECS && done < len
      invariant done <= len && done % SECTOR == 0 && |vecs| <= BIO_MAX_VECS && (done > 0 || (vecs == [] && done < len))
      invariant forall i :: 0 <= i < |vecs| ==> VecOk(vecs[i]) && vecs[i].len <= PAGE_SIZE
      invariant Slices(sector, vecs, op == Write) == Wanted(sector, buf, done / SECTOR, op == Write) &&
                Sectors(vecs) == done / SECTOR
    {
      var chunk := len - done;
      if chunk > PAGE_SIZE {
        chunk := PAGE_SIZE;
      }
      FillMore(sector, buf, vecs, done, chunk, op == Write);
      vecs := vecs + [Vec(buf + done, chunk)];
      done := done + chunk;
    }
    bio := Bio(op, sector, vecs);
  }

  lemma FillStart(sector: nat, buf: nat, write: bool)
    ensures Slices(sector, [], write) == Wanted(sector, buf, 0, write) && Sectors([]) == 0
  {
  }

  lemma FillMore(sector: nat, buf: nat, vecs: seq<Vec>, done: nat, chunk: nat, write: bool)
    requires done % SECTOR == 0 && chunk % SECTOR == 0
    requires Slices(sector, vecs, write) == Wanted(sector, buf, done / SECTOR, write) && Sectors(vecs) == done / SECTOR
    ensures Slices(sector, vecs + [Vec(buf + done, chunk)], write) ==
            Wanted(sector, buf, (done + chunk) / SECTOR, write)
    ensures Sectors(vecs + [Vec(buf + done, chunk)]) == (done + chunk) / SECTOR
  {
    hide Slices, Sectors;
    var v := Vec(buf + done, chunk);
    SlicesConcat(sector, vecs, [v], write);
    SlicesOne(sector + Sectors(vecs), v, write);
    WantedConcat(sector, buf, done / SECTOR, chunk / SECTOR, write);
    assert VecSlices(sector + done / SECTOR, v, write) ==
           Wanted(sector + done / SECTOR, buf + SECTOR * (done / SECTOR), chunk / SECTOR, write);
  }

  /** The same slices, `off` sectors further on. */
  function Shift(slices: seq<Slice>, off: nat): seq<Slice> {
    seq(|slices|, i requires 0 <= i < |slices| => slices[i].(sector := slices[i].sector + off))
  }

  lemma ShiftConcat(a: seq<Slice>, b: seq<Slice>, off: nat)
    ensures Shift(a + b, off) == Shift(a, off) + Shift(b, off)
  {
  }

  lemma {:induction false} ShiftSlices(sector: nat, vecs: seq<Vec>, off: nat, write: bool)
    ensures Slices(sector + off, vecs, write) == Shift(Slices(sector, vecs, write), off)
    decreases |vecs|
  {
    if |vecs| > 0 {
      ShiftSlices(sector + vecs[0].len / SECTOR, vecs[1..], off, write);
      ShiftConcat(VecSlices(sector, vecs[0], write), Slices(sector + vecs[0].len / SECTOR, vecs[1..], write), off);
      assert VecSlices(sector + off, vecs[0], write) == Shift(VecSlices(sector, vecs[0], write), off);
    }
  }

  // Cutting a request into segment batches.

  /** What the driver hands the device in one go. */
  datatype Batch = Batch(sector: nat, segs: seq<Vec>, write: bool)

  function BatchSlices(batches: seq<Batch>): seq<Slice> {
    if |batches| == 0 then []
       else Slices(batches[0].sector, batches[0].segs, batches[0].write) + BatchSlices(batches[1..])
  }

  lemma {:induction false} BatchSnoc(batches: seq<Batch>, b: Batch)
    ensures BatchSlices(batches + [b]) == BatchSlices(batches) + Slices(b.sector, b.segs, b.write)
  {
    hide Slices;
    if |batches| == 0 {
      assert batches + [b] == [b] && [b][1..] == [];
    } else {
      BatchSnoc(batches[1..], b);
      assert (batches + [b])[1..] == batches[1..] + [b];
    }
  }

  /** Part way: the batches out and the one being filled hold the vectors seen so far. */
  ghost predicate Batching(start: nat, seen: seq<Vec>, batches: seq<Batch>, segSector: nat, segs: seq<Vec>,
                           sector: nat, write: bool) {
    && sector == start + Sectors(seen) && (segs == [] || segSector + Sectors(segs) == sector)
    && BatchSlices(batches) + Slices(segSector, segs, write) == Slices(start, seen, write)
    && |segs| < MAX_SEGS && forall i :: 0 <= i < |batches| ==> 0 < |batches[i].segs| <= MAX_SEGS
  }

  lemma BatchStart(start: nat, write: bool)
    ensures Batching(start, [], [], start, [], start, write)
  {
  }

  lemma BatchSlicesOn(start: nat, seen: seq<Vec>, batches: seq<Batch>, segSector: nat, segs: seq<Vec>, sector: nat,
                      v: Vec, write: bool)
    requires Batching(start, seen, batches, segSector, segs, sector, write)
    ensures var first := if segs == [] then sector else segSector;
            && first + Sectors(segs + [v]) == sector + v.len / SECTOR == start + Sectors(seen + [v])
            && BatchSlices(batches) + Slices(first, segs + [v], write) == Slices(start, seen + [v], write)
  {
    hide VecSlices, BatchSlices;
    var first := if segs == [] then sector else segSector;
    NoSlices(segSector, write);
    NoSlices(first, write);
    hide Slices, Sectors;
    SlicesConcat(start, seen, [v], write);
    SlicesConcat(first, segs, [v], write);
    SlicesOne(sector, v, write);
    assert BatchSlices(batches) + (Slices(first, segs, write) + VecSlices(sector, v, write)) ==
           (BatchSlices(batches) + Slices(first, segs, write)) + VecSlices(sector, v, write);
  }

  /** One more vector joins the batch, and a full batch goes out. */
  lemma BatchVec(start: nat, seen: seq<Vec>, batches: seq<Batch>, segSector: nat, segs: seq<Vec>, sector: nat, v: Vec,
                 write: bool)
    requires Batching(start, seen, batches, segSector, segs, sector, write)
    ensures var first := if segs == [] then sector else segSector;
            var segs' := segs + [v]; var sector' := sector + v.len / SECTOR;
            if |segs'| < MAX_SEGS then Batching(start, seen + [v], batches, first, segs', sector', write)
            else
              && |segs'| == MAX_SEGS
              && Batching(start, seen + [v], batches + [Batch(first, segs', write)], first, [], sector', write)
  {
    BatchSlicesOn(start, seen, batches, segSector, segs, sector, v, write);
    hide Slices, VecSlices, Sectors, BatchSlices;
    var first := if segs == [] then sector else segSector;
    NoSlices(first, write);
    BatchSnoc(batches, Batch(first, segs + [v], write));
    assert Slices(start, seen + [v], write) + [] == Slices(start, seen + [v], write);
  }

  lemma NoSlices(sector: nat, write: bool)
    ensures Slices(sector, [], write) == [] && Sectors([]) == 0
  {
  }

  /** The status a device gives for one batch; 0 is success. */
  type Device = Batch -> int

  /**
   virtio_blk_queue_rq for a read or a write. On success the batches carry exactly the request's slices, in order;
   on an error, those up to and including the batch that failed.
   */
  method QueueRq(rq: Request, device: Device) returns (err: int, batches: seq<Batch>)
    requires RequestOk(rq) && rq.op != Flush
    ensures forall i :: 0 <= i < |batches| ==> 0 < |batches[i].segs| <= MAX_SEGS
    ensures err == 0 ==>
            BatchSlices(batches) == AllSlices(rq.bios) &&
            forall i :: 0 <= i < |batches| ==> device(batches[i]) == 0
    ensures err != 0 ==>
              && |batches| > 0 && device(batches[|batches| - 1]) == err &&
                 (forall i :: 0 <= i < |batches| - 1 ==> device(batches[i]) == 0)
              && BatchSlices(batches) <= AllSlices(rq.bios)
  {
    hide *;
    ghost var all := AllVecs(rq.bios);
    RequestIs(rq);
    batches := [];
    var write := rq.op == Write;
    var segs: seq<Vec>, sector: nat, segSector: nat := [], rq.start, rq.start;
    ghost var seen: seq<Vec> := [];
    BatchStart(rq.start, write);
    Sizes();
    var b := 0;
    VecsStart(rq.bios);
    while b < |rq.bios|
      invariant b <= |rq.bios| && seen + AllVecs(rq.bios[b..]) == all
      invariant Batching(rq.start, seen, batches, segSector, segs, sector, write)
      invariant forall i :: 0 <= i < |batches| ==> device(batches[i]) == 0
    {
      ghost var before := seen;
      VecsNext(rq.bios, b);
      var i := 0;
      while i < |rq.bios[b].vecs|
        invariant i <= |rq.bios[b].vecs| && seen == before + rq.bios[b].vecs[..i]
        invariant Batching(rq.start, seen, batches, segSector, segs, sector, write)
        invariant forall j :: 0 <= j < |batches| ==> device(batches[j]) == 0
      {
        var v := rq.bios[b].vecs[i];
        BatchVec(rq.start, seen, batches, segSector, segs, sector, v, write);
        if |segs| == 0 {
          segSector := sector;
        }
        segs := segs + [v];
        sector := sector + v.len / SECTOR;
        assert before + rq.bios[b].vecs[..i + 1] == seen + [v];
        seen := seen + [v];
        i := i + 1;
        if |segs| == MAX_SEGS {
          batches := batches + [Batch(segSector, segs, write)];
          err := device(batches[|batches| - 1]);
          if err != 0 {
            SeenPrefix(rq, seen, before, b, i, all);
            BatchingIs(rq.start, seen, batches, segSector, [], sector, all, write);
            return;
          }
          segs := [];
        }
      }
      VecsAfter(rq.bios, b, before, seen, all);
      b := b + 1;
    }
    assert rq.bios[b..] == [];
    VecsEnd(seen, rq.bios, b, all);
    err := 0;
    if segs != [] {
      BatchLast(rq.start, seen, batches, segSector, segs, sector, all, write);
      batches := batches + [Batch(segSector, segs, write)];
      err := device(batches[|batches| - 1]);
    } else {
      BatchingIs(rq.start, seen, batches, segSector, [], sector, all, write);
    }
  }

  lemma Sizes()
    ensures MAX_SEGS == 16 && SECTOR == 512
  {
  }

  lemma RequestIs(rq: Request)
    requires RequestOk(rq) && rq.op != Flush
    ensures Slices(rq.start, AllVecs(rq.bios), rq.op == Write) == AllSlices(rq.bios)
  {
    MergedSlices(rq.start, rq.bios, rq.op == Write);
  }

  lemma VecsStart(bios: seq<Bio>)
    ensures [] + AllVecs(bios[0..]) == AllVecs(bios)
  {
    assert bios[0..] == bios;
  }

  lemma VecsNext(bios: seq<Bio>, b: nat)
    requires b < |bios|
    ensures AllVecs(bios[b..]) == bios[b].vecs + AllVecs(bios[b + 1..])
  {
    assert bios[b..][1..] == bios[b + 1..];
  }

  lemma VecsAfter(bios: seq<Bio>, b: nat, before: seq<Vec>, seen: seq<Vec>, all: seq<Vec>)
    requires b < |bios| && before + AllVecs(bios[b..]) == all &&
             AllVecs(bios[b..]) == bios[b].vecs + AllVecs(bios[b + 1..])
    requires seen == before + bios[b].vecs[..|bios[b].vecs|]
    ensures seen + AllVecs(bios[b + 1..]) == all
  {
    hide AllVecs;
    assert bios[b].vecs[..|bios[b].vecs|] == bios[b].vecs;
    assert before + (bios[b].vecs + AllVecs(bios[b + 1..])) == before + bios[b].vecs + AllVecs(bios[b + 1..]);
  }

  lemma VecsEnd(seen: seq<Vec>, bios: seq<Bio>, b: nat, all: seq<Vec>)
    requires b == |bios| && seen + AllVecs(bios[b..]) == all
    ensures seen == all
  {
    assert bios[b..] == [];
  }

  lemma SeenPrefix(rq: Request, seen: seq<Vec>, before: seq<Vec>, b: nat, i: nat, all: seq<Vec>)
    requires b < |rq.bios| && i <= |rq.bios[b].vecs| && seen == before + rq.bios[b].vecs[..i]
    requires before + AllVecs(rq.bios[b..]) == all &&
             AllVecs(rq.bios[b..]) == rq.bios[b].vecs + AllVecs(rq.bios[b + 1..])
    ensures seen <= all
  {
    hide AllVecs;
    var vecs := rq.bios[b].vecs;
    assert vecs == vecs[..i] + vecs[i..];
    assert all == seen + (vecs[i..] + AllVecs(rq.bios[b + 1..]));
  }

  lemma BatchingIs(start: nat, seen: seq<Vec>, batches: seq<Batch>, segSector: nat, segs: seq<Vec>, sector: nat,
                   all: seq<Vec>, write: bool)
    requires Batching(start, seen, batches, segSector, segs, sector, write) && segs == [] && seen <= all
    ensures BatchSlices(batches) <= Slices(start, all, write) &&
            (seen == all ==> BatchSlices(batches) == Slices(start, all, write))
    ensures forall i :: 0 <= i < |batches| ==> 0 < |batches[i].segs| <= MAX_SEGS
  {
    hide BatchSlices, VecSlices, Sectors;
    NoSlices(segSector, write);
    hide Slices;
    assert BatchSlices(batches) + [] == BatchSlices(batches);
    assert all == seen + all[|seen|..];
    SlicesConcat(start, seen, all[|seen|..], write);
  }

  lemma BatchLast(start: nat, seen: seq<Vec>, batches: seq<Batch>, segSector: nat, segs: seq<Vec>, sector: nat,
                  all: seq<Vec>, write: bool)
    requires Batching(start, seen, batches, segSector, segs, sector, write) && segs != [] && seen == all
    ensures BatchSlices(batches + [Batch(segSector, segs, write)]) == Slices(start, all, write)
    ensures forall i :: 0 <= i < |batches| + 1 ==> 0 < |(batches + [Batch(segSector, segs, write)])[i].segs| <= MAX_SEGS
  {
    hide BatchSlices, Slices, Sectors;
    BatchSnoc(batches, Batch(segSector, segs, write));
  }
}
