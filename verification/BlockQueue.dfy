/**
 The request queue of src/dev/base/bio.c: submitters add bios under the queue lock, one worker takes requests off,
 hands them to the driver and completes their bios. Each method is one section under the lock.
 */
module BlockQueue {
  import opened BlockIo

  const ENODEV: int := -19

  datatype Option<T> = None | Some(value: T)

  datatype Completion = Completion(bio: Bio, status: int)

  function Flat(rqs: seq<Request>): seq<Bio> {
    if |rqs| == 0 then [] else rqs[0].bios + Flat(rqs[1..])
  }

  lemma FlatHead(rqs: seq<Request>)
    ensures |rqs| == 0 ==> Flat(rqs) == []
    ensures |rqs| > 0 ==> Flat(rqs) == rqs[0].bios + Flat(rqs[1..])
  {
  }

  lemma Assoc(x: seq<Bio>, y: seq<Bio>, z: seq<Bio>)
    ensures x + (y + z) == x + y + z && [] + z == z
  {
  }

  lemma {:induction false} FlatConcat(a: seq<Request>, b: seq<Request>)
    ensures Flat(a + b) == Flat(a) + Flat(b)
  {
    hide Flat;
    FlatHead(a);
    if |a| == 0 {
      assert a + b == b;
      Assoc([], [], Flat(b));
    } else {
      FlatConcat(a[1..], b);
      var c := a + b;
      assert c[1..] == a[1..] + b && c[0] == a[0];
      FlatHead(c);
      Assoc(a[0].bios, Flat(a[1..]), Flat(b));
    }
  }

  lemma FlatOne(rq: Request)
    ensures Flat([rq]) == rq.bios
  {
    hide Flat;
    FlatHead([rq]);
    FlatHead([rq][1..]);
    assert rq.bios + [] == rq.bios;
  }

  function Completed(bios: seq<Bio>, status: int): seq<Completion> {
    seq(|bios|, i requires 0 <= i < |bios| => Completion(bios[i], status))
  }

  /** Every bio of each request, with the status of the request. */
  function Outcomes(rqs: seq<Request>, statuses: seq<int>): seq<Completion>
    requires |statuses| == |rqs|
  {
    if |rqs| == 0 then [] else Completed(rqs[0].bios, statuses[0]) + Outcomes(rqs[1..], statuses[1..])
  }

  lemma {:induction false} OutcomesSnoc(rqs: seq<Request>, statuses: seq<int>, rq: Request, status: int)
    requires |statuses| == |rqs|
    ensures Outcomes(rqs + [rq], statuses + [status]) == Outcomes(rqs, statuses) + Completed(rq.bios, status)
  {
    hide Completed;
    if |rqs| == 0 {
      assert rqs + [rq] == [rq] && statuses + [status] == [status];
      assert [rq][1..] == [] && [status][1..] == [];
    } else {
      OutcomesSnoc(rqs[1..], statuses[1..], rq, status);
      assert (rqs + [rq])[1..] == rqs[1..] + [rq] && (statuses + [status])[1..] == statuses[1..] + [status];
    }
  }

  /** One completion for every bio, in order: none is left out and none completes twice. */
  lemma {:induction false} OutcomesBios(rqs: seq<Request>, statuses: seq<int>)
    requires |statuses| == |rqs|
    ensures |Outcomes(rqs, statuses)| == |Flat(rqs)| &&
            forall i :: 0 <= i < |Flat(rqs)| ==> Outcomes(rqs, statuses)[i].bio == Flat(rqs)[i]
  {
    if |rqs| > 0 {
      OutcomesBios(rqs[1..], statuses[1..]);
    }
  }

  ghost predicate AllOk(rqs: seq<Request>) {
    forall i :: 0 <= i < |rqs| ==> RequestOk(rqs[i])
  }

  predicate CanMerge(last: Request, bio: Bio) {
    bio.op != Flush && last.op == bio.op && last.start + last.nrSectors == bio.sector
  }

  function Extended(rq: Request, bio: Bio): Request {
    rq.(bios := rq.bios + [bio], nrSectors := rq.nrSectors + Sectors(bio.vecs))
  }

  lemma ExtendedOk(rq: Request, bio: Bio)
    requires RequestOk(rq) && CanMerge(rq, bio)
    ensures RequestOk(Extended(rq, bio))
  {
    ContiguousSnoc(rq.start, rq.bios, bio);
  }

  function Alone(bio: Bio): Request {
    Request(bio.op, bio.sector, Sectors(bio.vecs), [bio])
  }

  lemma AloneOk(bio: Bio)
    ensures RequestOk(Alone(bio))
  {
    assert [bio][1..] == [];
  }

  function Concat(parts: seq<seq<Slice>>): seq<Slice> {
    if |parts| == 0 then [] else parts[0] + Concat(parts[1..])
  }

  lemma {:induction false} ConcatAppend(a: seq<seq<Slice>>, b: seq<seq<Slice>>)
    ensures Concat(a + b) == Concat(a) + Concat(b)
  {
    if |a| == 0 {
      assert a + b == b;
    } else {
      ConcatAppend(a[1..], b);
      assert (a + b)[1..] == a[1..] + b;
    }
  }

  /** What the device was given of a request, told apart by bio. */
  function Shares(bios: seq<Bio>, sent: seq<Slice>): seq<seq<Slice>> {
    if |bios| == 0 then []
    else
      var n := |BioSlices(bios[0])|;
      var here := if n <= |sent| then n else |sent|;
      [sent[..here]] + Shares(bios[1..], sent[here..])
  }

  /** A share is a prefix of the slices of its bio: all of them if the whole request was given. */
  ghost predicate ShareOk(bio: Bio, share: seq<Slice>, whole: bool) {
    share <= BioSlices(bio) && (whole ==> share == BioSlices(bio))
  }

  lemma {:induction false} SharesAre(bios: seq<Bio>, sent: seq<Slice>)
    requires sent <= AllSlices(bios)
    ensures |Shares(bios, sent)| == |bios| && Concat(Shares(bios, sent)) == sent
    ensures forall i :: 0 <= i < |bios| ==> ShareOk(bios[i], Shares(bios, sent)[i], sent == AllSlices(bios))
    decreases |bios|
  {
    hide BioSlices;
    if |bios| > 0 {
      var n, rest := |BioSlices(bios[0])|, AllSlices(bios[1..]);
      var here := if n <= |sent| then n else |sent|;
      assert AllSlices(bios) == BioSlices(bios[0]) + rest;
      assert sent[here..] <= rest;
      SharesAre(bios[1..], sent[here..]);
      var s := Shares(bios, sent);
      assert s[0] == sent[..here] && s[1..] == Shares(bios[1..], sent[here..]);
      assert sent == sent[..here] + sent[here..];
      forall i | 1 <= i < |bios|
        ensures ShareOk(bios[i], s[i], sent == AllSlices(bios))
      {
        assert bios[i] == bios[1..][i - 1] && s[i] == s[1..][i - 1];
      }
    }
  }

  class Queue {
    var queue: seq<Request>
    var dead: bool
    // the request the worker is busy with
    var current: Option<Request>
    // the bios accepted, and those that are done with their status (bi_done, bi_status), in order
    var accepted: seq<Bio>
    var completions: seq<Completion>

    // history: the requests given to the driver or failed, their statuses, the part of each completed bio that the
    // device was given, and all it was given
    ghost var given: seq<Request>
    ghost var statuses: seq<int>
    ghost var shares: seq<seq<Slice>>
    ghost var received: seq<Slice>

    /**
     What the driver was given and what is queued are the accepted bios in order; every request is one operation on
     one stretch of sectors, a flush by itself; and the completions are those of the requests that are over.
     */
    ghost predicate Valid()
      reads this
    {
      && AllOk(given) && AllOk(queue) && accepted == Flat(given) + Flat(queue)
      && |given| == |statuses| + (if current.Some? then 1 else 0) &&
         (current.Some? ==> given[|given| - 1] == current.value)
      && completions == Outcomes(given[..|statuses|], statuses)
      && SharesOk(completions, shares) && Concat(shares) == received
    }

    constructor ()
      ensures Valid() && queue == [] && accepted == [] && given == [] && !dead
    {
      queue, dead, current := [], false, None;
      accepted, given, statuses, completions, shares, received := [], [], [], [], [], [];
    }

    /** The part of submit_bio_wait under the lock: the bio extends the last request, or makes one of its own. */
    method Enqueue(bio: Bio) returns (ok: bool)
      requires Valid()
      modifies `queue, `accepted
      ensures Valid() && ok == !old(dead)
      ensures !ok ==> queue == old(queue) && accepted == old(accepted)
      ensures ok ==> accepted == old(accepted) + [bio] && Flat(queue) == old(Flat(queue)) + [bio]
      ensures ok && old(queue) != [] && CanMerge(old(queue)[|old(queue)| - 1], bio) ==>
                |queue| == |old(queue)| && queue[..|queue| - 1] == old(queue)[..|queue| - 1]
      ensures ok && !(old(queue) != [] && CanMerge(old(queue)[|old(queue)| - 1], bio)) ==>
              |queue| == |old(queue)| + 1 && old(queue) <= queue
    {
      hide RequestOk, Flat, Outcomes, Sectors;
      if dead {
        return false;
      }
      ok := true;
      var n := |queue|;
      if n > 0 && CanMerge(queue[n - 1], bio) {
        var rq := Extended(queue[n - 1], bio);
        ExtendedOk(queue[n - 1], bio);
        MergeFlat(queue, bio);
        queue := queue[..n - 1] + [rq];
      } else {
        AloneOk(bio);
        FlatConcat(queue, [Alone(bio)]);
        FlatOne(Alone(bio));
        queue := queue + [Alone(bio)];
      }
      assert Flat(given) + (old(Flat(queue)) + [bio]) == Flat(given) + old(Flat(queue)) + [bio];
      accepted := accepted + [bio];
    }

    /** The worker takes the first request off the queue before it dispatches it. */
    method Take() returns (rq: Request)
      requires Valid() && !dead && queue != [] && current.None?
      modifies `queue, `current, `given
      ensures Valid() && rq == old(queue)[0] && RequestOk(rq) && current == Some(rq) && queue == old(queue)[1..] &&
              given == old(given) + [rq]
    {
      hide RequestOk, Outcomes;
      rq := queue[0];
      TakeFlat(given, queue);
      hide Flat;
      assert (given + [rq])[..|statuses|] == given[..|statuses|];
      queue := queue[1..];
      current := Some(rq);
      given := given + [rq];
    }

    /** The driver is done with the request: its bios complete with its status. `sent` is what the device got. */
    method Complete(status: int, ghost sent: seq<Slice>)
      requires Valid() && current.Some? && sent <= AllSlices(current.value.bios)
      requires status == 0 && current.value.op != Flush ==> sent == AllSlices(current.value.bios)
      modifies `current, `statuses, `completions, `shares, `received
      ensures Valid() && current == None && statuses == old(statuses) + [status]
      ensures completions == old(completions) + Completed(old(current).value.bios, status)
      ensures shares == old(shares) + Shares(old(current).value.bios, sent) && received == old(received) + sent
    {
      hide RequestOk, Outcomes, Flat, Completed, SharesOk, Shares, Concat, AllSlices, AllOk;
      GivenOk(given, |given| - 1);
      SharesMore(completions, shares, current.value, status, sent);
      shares := shares + Shares(current.value.bios, sent);
      received := received + sent;
      OutcomesSnoc(given[..|statuses|], statuses, current.value, status);
      assert given[..|statuses|] + [current.value] == given[..|statuses| + 1];
      completions := completions + Completed(current.value.bios, status);
      statuses := statuses + [status];
      current := None;
    }

    /** blk_cleanup_queue marks the queue dead. */
    method Kill()
      requires Valid()
      modifies `dead
      ensures Valid() && dead
    {
      dead := true;
    }

    /** The worker of a dead queue fails what is still queued: every accepted bio has then completed, once. */
    method FailAll()
      requires Valid() && dead && current.None?
      modifies `queue, `given, `statuses, `completions, `shares
      ensures Valid() && queue == [] && dead && Flat(given) == accepted == old(accepted)
      ensures |completions| == |accepted| && forall i :: 0 <= i < |accepted| ==> completions[i].bio == accepted[i]
      ensures old(shares) <= shares && old(completions) <= completions &&
              forall i :: |old(completions)| <= i < |completions| ==> completions[i].status == ENODEV
    {
      hide RequestOk, Outcomes, Flat, Completed, SharesOk, Shares, Concat;
      ghost var before := completions;
      while queue != []
        invariant Valid() && dead && current.None? && accepted == old(accepted) && before <= completions &&
                  old(shares) <= shares
        invariant forall i :: |before| <= i < |completions| ==> completions[i].status == ENODEV
        decreases |queue|
      {
        var rq := queue[0];
        TakeFlat(given, queue);
        OutcomesSnoc(given[..|statuses|], statuses, rq, ENODEV);
        assert given[..|statuses|] == given && (given + [rq])[..|statuses| + 1] == given + [rq];
        CompletedIs(rq.bios, ENODEV);
        RequestKind(rq);
        SharesMore(completions, shares, rq, ENODEV, []);
        assert received + [] == received;
        shares := shares + Shares(rq.bios, []);
        queue := queue[1..];
        given := given + [rq];
        statuses := statuses + [ENODEV];
        completions := completions + Completed(rq.bios, ENODEV);
      }
      assert given[..|statuses|] == given;
      OutcomesBios(given, statuses);
      FlatNone(given);
    }
  }

  lemma GivenOk(rqs: seq<Request>, i: nat)
    requires AllOk(rqs) && i < |rqs|
    ensures RequestOk(rqs[i])
  {
  }

  lemma RequestKind(rq: Request)
    requires RequestOk(rq)
    ensures forall i :: 0 <= i < |rq.bios| ==> rq.bios[i].op == rq.op
  {
  }

  /** What each completed bio had of the device: a prefix of its slices, all of them if it succeeded. */
  ghost predicate SharesOk(completions: seq<Completion>, shares: seq<seq<Slice>>) {
    |shares| == |completions| &&
    forall i :: 0 <= i < |shares| ==>
      ShareOk(completions[i].bio, shares[i], completions[i].status == 0 && completions[i].bio.op != Flush)
  }

  lemma SharesMore(completions: seq<Completion>, shares: seq<seq<Slice>>, rq: Request, status: int, sent: seq<Slice>)
    requires SharesOk(completions, shares) && RequestOk(rq) && sent <= AllSlices(rq.bios)
    requires status == 0 && rq.op != Flush ==> sent == AllSlices(rq.bios)
    ensures SharesOk(completions + Completed(rq.bios, status), shares + Shares(rq.bios, sent))
    ensures Concat(shares + Shares(rq.bios, sent)) == Concat(shares) + sent
  {
    RequestKind(rq);
    SharesAre(rq.bios, sent);
    ConcatAppend(shares, Shares(rq.bios, sent));
    hide RequestOk, Concat, Shares, BioSlices, AllSlices;
    var cs, ss := completions + Completed(rq.bios, status), shares + Shares(rq.bios, sent);
    forall i | 0 <= i < |ss|
      ensures ShareOk(cs[i].bio, ss[i], cs[i].status == 0 && cs[i].bio.op != Flush)
    {
      if i >= |shares| {
        var j := i - |shares|;
        assert ss[i] == Shares(rq.bios, sent)[j] && cs[i] == Completion(rq.bios[j], status);
        assert ShareOk(rq.bios[j], Shares(rq.bios, sent)[j], sent == AllSlices(rq.bios));
      }
    }
  }

  lemma FlatNone(given: seq<Request>)
    ensures Flat(given) + Flat([]) == Flat(given)
  {
  }

  lemma CompletedIs(bios: seq<Bio>, status: int)
    ensures forall i :: 0 <= i < |Completed(bios, status)| ==> Completed(bios, status)[i].status == status
  {
  }

  lemma TakeFlat(given: seq<Request>, queue: seq<Request>)
    requires queue != []
    ensures Flat(given + [queue[0]]) + Flat(queue[1..]) == Flat(given) + Flat(queue)
  {
    hide Flat;
    FlatConcat(given, [queue[0]]);
    FlatOne(queue[0]);
    FlatHead(queue);
    Assoc(Flat(given), queue[0].bios, Flat(queue[1..]));
  }

  lemma ReplaceLast(front: seq<Request>, last: Request, rq: Request, bio: Bio)
    requires rq.bios == last.bios + [bio]
    ensures Flat(front + [rq]) == Flat(front + [last]) + [bio]
  {
    hide Flat;
    FlatConcat(front, [last]);
    FlatConcat(front, [rq]);
    FlatOne(last);
    FlatOne(rq);
    Assoc(Flat(front), last.bios, [bio]);
  }

  lemma MergeFlat(queue: seq<Request>, bio: Bio)
    requires queue != []
    ensures var n := |queue|; Flat(queue[..n - 1] + [Extended(queue[n - 1], bio)]) == Flat(queue) + [bio]
  {
    hide Flat, Sectors;
    var n := |queue|;
    assert queue == queue[..n - 1] + [queue[n - 1]];
    ReplaceLast(queue[..n - 1], queue[n - 1], Extended(queue[n - 1], bio), bio);
  }

  /** No read or write is merged across a flush: in the order of acceptance, a flush is a request of its own. */
  lemma FlushIsAlone(rqs: seq<Request>, i: nat, j: nat)
    requires AllOk(rqs) && i < |rqs| && j < |rqs[i].bios| && rqs[i].bios[j].op == Flush
    ensures rqs[i].op == Flush && rqs[i].bios == [rqs[i].bios[j]]
  {
    assert RequestOk(rqs[i]);
  }
}
