/**
 Two endpoints running the code of src/net/tcp.c over a network that loses, duplicates and reorders:
 any segment ever sent may be delivered any number of times, in any order, or never.
 */
module TcpProtocol {
  import opened TcpSpec

  datatype System = System(client: Sock, server: Sock, fromClient: set<Segment>, fromServer: set<Segment>)

  /** How far sequence number `x` lies past the first byte after `iss`. */
  function Off(iss: Seq32, x: Seq32): nat {
    (x - iss - 1) % MOD
  }

  /** Sequence numbers the receiver has taken, counting a FIN as one. */
  function Taken(y: Sock): nat {
    |y.accepted| + if y.finRcvd then 1 else 0
  }

  function Given(x: Sock): nat {
    |x.sent| + if x.finSent then 1 else 0
  }

  /** Before the handshake is over nothing has been sent or received. */
  ghost predicate Opening(x: Sock) {
    x.state == Listen || x.state == SynSent || x.state == SynRecv
  }

  /** The outstanding segment is the last chunk of the stream, or the FIN after it, or the SYN. */
  ghost predicate TxOk(x: Sock) {
    && (x.txKind == TxSyn <==> x.state == SynSent)
    && (x.txKind == TxSyn ==> x.txSeq == x.iss)
    && (x.txKind == TxData ==>
          && !x.finSent && 0 < |x.txData| <= |x.sent|
          && x.txData == x.sent[|x.sent| - |x.txData|..] && x.txSeq == Add(x.iss, 1 + |x.sent| - |x.txData|))
    && (x.txKind == TxFin ==> x.finSent && x.txSeq == Add(x.iss, 1 + |x.sent|))
  }

  /** The sending side of one endpoint. */
  ghost predicate SenderOk(x: Sock) {
    && |x.sent| < HALF - 1
    && x.sndNxt == Add(x.iss, 1 + Given(x))
    && (Opening(x) ==> x.sent == [] && !x.finSent && x.txKind != TxData && x.txKind != TxFin)
    && (CanFin(x) ==> !x.finSent)
    && TxOk(x)
  }

  /** The receiving side at `y` of what `x` sends: a prefix, with the FIN after all of it. */
  ghost predicate ReceiverOk(x: Sock, y: Sock) {
    && y.accepted <= x.sent
    && (y.finRcvd ==> x.finSent && |y.accepted| == |x.sent|)
    && (y.known ==> y.rcvNxt == Add(x.iss, 1 + Taken(y)))
    && (!y.known ==>
       y.accepted == [] && !y.finRcvd && x.sent == [] && !x.finSent && !CanFin(x) && !CanFin(y) &&
       y.state != SynRecv && y.sent == [] && !y.finSent)
    && (y.state == SynSent || y.state == Listen ==> !y.known)
    && (!y.orphan ==> y.dequeued + Flatten(y.queue) == y.accepted)
  }

  /** A segment that `x` has sent: its bytes are the stream's, its acknowledgement no more than `x` has taken. */
  ghost predicate SegmentOk(x: Sock, y: Sock, seg: Segment) {
    && (seg.syn ==> seg.data == [] && !seg.fin && seg.seqno == x.iss)
    && (seg.data != [] ==>
          !seg.fin && Off(x.iss, seg.seqno) + |seg.data| <= |x.sent|
          && x.sent[Off(x.iss, seg.seqno)..Off(x.iss, seg.seqno) + |seg.data|] == seg.data)
    && (seg.fin ==> seg.data == [] && x.finSent && Off(x.iss, seg.seqno) == |x.sent|)
    && (seg.ack ==> x.known && y.state != Listen && Off(y.iss, seg.ackno) <= Taken(x))
  }

  ghost predicate SegmentsOk(x: Sock, y: Sock, sent: set<Segment>) {
    forall seg :: seg in sent ==> SegmentOk(x, y, seg)
  }

  /** Stop and wait: with nothing outstanding, everything sent has arrived; otherwise all but the outstanding chunk. */
  ghost predicate Progress(x: Sock, y: Sock) {
    && (x.txKind == TxData ==> |y.accepted| >= |x.sent| - |x.txData|)
    && (x.txKind != TxData && !x.err && !x.finSent ==> |y.accepted| == |x.sent|)
  }

  ghost predicate Direction(x: Sock, y: Sock, sent: set<Segment>) {
    SenderOk(x) && ReceiverOk(x, y) && SegmentsOk(x, y, sent) && Progress(x, y)
  }

  ghost predicate Inv(s: System) {
    && Direction(s.client, s.server, s.fromClient) && Direction(s.server, s.client, s.fromServer)
    && s.client.state != Listen && s.client.state != SynRecv && s.server.state != SynSent
    && (s.server.state == Listen ==> s.fromServer == {} && !s.client.known)
  }

  function Flatten(q: seq<Bytes>): Bytes {
    if |q| == 0 then [] else q[0] + Flatten(q[1..])
  }

  lemma {:induction false} FlattenAppend(q: seq<Bytes>, d: Bytes)
    ensures Flatten(q + [d]) == Flatten(q) + d
  {
    if |q| == 0 {
      assert q + [d] == [d];
      assert Flatten([d]) == d + Flatten([]);
    } else {
      FlattenAppend(q[1..], d);
      assert (q + [d])[1..] == q[1..] + [d];
    }
  }

  // Sequence-number arithmetic within half the number space.

  lemma OffAdd(iss: Seq32, n: nat)
    requires n < MOD
    ensures Off(iss, Add(iss, 1 + n)) == n
  {
  }

  lemma AddAdd(iss: Seq32, m: nat, n: nat)
    ensures Add(Add(iss, m), n) == Add(iss, m + n)
  {
  }

  /** The wrapped comparison agrees with the order of stream offsets. */
  lemma GeqIs(iss: Seq32, ackno: Seq32, e: nat)
    requires Off(iss, ackno) < HALF && e < HALF
    ensures Geq(ackno, Add(iss, 1 + e)) <==> Off(iss, ackno) >= e
  {
  }

  /** Both directions at once: `sx` are the segments `x` has sent, `sy` those of `y`. */
  ghost predicate Both(x: Sock, y: Sock, sx: set<Segment>, sy: set<Segment>) {
    Direction(x, y, sx) && Direction(y, x, sy)
  }

  lemma AckBound(x: Sock, y: Sock, sx: set<Segment>, sy: set<Segment>, seg: Segment)
    requires Both(x, y, sx, sy) && seg in sx && seg.ack
    ensures Off(y.iss, seg.ackno) <= Taken(x) <= |y.sent| + 1 < HALF
  {
    assert SegmentOk(x, y, seg);
  }

  /** Only the retransmission fields and SND.UNA differ. */
  ghost predicate SameButTx(y: Sock, y': Sock) {
    y' == y.(txKind := y'.txKind, txData := y'.txData, txSeq := y'.txSeq, retries := y'.retries, sndUna := y'.sndUna)
  }

  lemma TxChanged(x: Sock, y: Sock, y': Sock, sx: set<Segment>, sy: set<Segment>)
    requires Both(x, y, sx, sy) && SameButTx(y, y') && !Opening(y) && TxOk(y') && Progress(y', x)
    ensures Both(x, y', sx, sy)
  {
    hide Add, Off, TxOk, Flatten;
    assert SegmentsOk(x, y', sx) by {
      forall s | s in sx
        ensures SegmentOk(x, y', s)
      {
        assert SegmentOk(x, y, s);
      }
    }
    assert SegmentsOk(y', x, sy) by {
      forall s | s in sy
        ensures SegmentOk(y', x, s)
      {
        assert SegmentOk(y, x, s);
      }
    }
  }

  lemma AckIsSameButTx(y: Sock, seg: Segment)
    ensures SameButTx(y, AckPart(y, seg))
    ensures AckPart(y, seg).txKind == y.txKind ==> AckPart(y, seg) == y.(sndUna := AckPart(y, seg).sndUna)
    ensures AckPart(y, seg).txKind != y.txKind ==>
              && AckPart(y, seg).txKind == TxNone && seg.ack
              && ((y.txKind == TxData && Geq(seg.ackno, Add(y.txSeq, |y.txData|))) || y.txKind == TxFin)
  {
    hide Add, Geq, After;
  }

  lemma AckTx(x: Sock, y: Sock, seg: Segment)
    requires TxOk(y) && Progress(y, x) && ReceiverOk(y, x) && |y.sent| < HALF - 1 && !Opening(y)
    requires seg.ack ==> Off(y.iss, seg.ackno) <= Taken(x) < HALF
    ensures TxOk(AckPart(y, seg)) && Progress(AckPart(y, seg), x)
  {
    hide Add, Off, Geq, After, Flatten, AckPart;
    AckIsSameButTx(y, seg);
    var y' := AckPart(y, seg);
    if y'.txKind != y.txKind && y.txKind == TxData {
      AddAdd(y.iss, 1 + |y.sent| - |y.txData|, |y.txData|);
      GeqIs(y.iss, seg.ackno, |y.sent|);
    }
  }

  /** Processing the acknowledgement of a segment: what it clears has arrived. */
  lemma AckKeeps(x: Sock, y: Sock, sx: set<Segment>, sy: set<Segment>, seg: Segment)
    requires Both(x, y, sx, sy) && seg in sx && !Opening(y)
    ensures Both(x, AckPart(y, seg), sx, sy) && SameButTx(y, AckPart(y, seg))
  {
    hide Add, Off, Flatten, AckPart, SegmentsOk, ReceiverOk, TxOk, Progress, SameButTx, Opening, Taken;
    if seg.ack {
      AckBound(x, y, sx, sy, seg);
    }
    AckIsSameButTx(y, seg);
    AckTx(x, y, seg);
    TxChanged(x, y, AckPart(y, seg), sx, sy);
  }

  /** The receiving fields of `y` moved on by what `x` really sent; its sending fields are untouched. */
  ghost predicate SameButReceiving(y: Sock, y': Sock) {
    y' == y.(rcvNxt := y'.rcvNxt, accepted := y'.accepted, queue := y'.queue, finRcvd := y'.finRcvd, eof := y'.eof,
             state := y'.state)
  }

  lemma ReceivedMore(x: Sock, y: Sock, y': Sock, sx: set<Segment>, sy: set<Segment>)
    requires Both(x, y, sx, sy) && SameButReceiving(y, y') && !Opening(y) && !Opening(y') && (CanFin(y') ==> CanFin(y))
    requires y.known && ReceiverOk(x, y') && |y'.accepted| >= |y.accepted| && Taken(y') >= Taken(y)
    ensures Both(x, y', sx, sy)
  {
    hide Add, Off, Flatten;
    assert SegmentsOk(x, y', sx) by {
      hide SenderOk, ReceiverOk, Progress;
      forall s | s in sx
        ensures SegmentOk(x, y', s)
      {
        assert SegmentOk(x, y, s);
      }
    }
    assert SegmentsOk(y', x, sy) by {
      hide SenderOk, ReceiverOk, Progress;
      forall s | s in sy
        ensures SegmentOk(y', x, s)
      {
        assert SegmentOk(y, x, s);
      }
    }
    hide SegmentsOk;
  }

  /** In-order payload is the next piece of the peer's stream. */
  lemma PayloadIs(x: Sock, y: Sock, seg: Segment)
    requires ReceiverOk(x, y) && SegmentOk(x, y, seg) && |x.sent| < HALF - 1 && Takes(y, seg) && y.known
    ensures !y.finRcvd && |y.accepted| + |seg.data| <= |x.sent| && Off(x.iss, seg.seqno) == |y.accepted|
    ensures x.sent[|y.accepted|..|y.accepted| + |seg.data|] == seg.data
  {
    OffAdd(x.iss, Taken(y));
  }

  /** Taking the payload keeps the receiver's prefix. */
  lemma PayloadReceiver(x: Sock, y: Sock, seg: Segment)
    requires ReceiverOk(x, y) && SegmentOk(x, y, seg) && |x.sent| < HALF - 1 && Takes(y, seg) && y.known
    ensures ReceiverOk(x, PayloadPart(y, seg))
  {
    PayloadIs(x, y, seg);
    hide Off, SegmentOk, Takes;
    AddAdd(x.iss, 1 + |y.accepted|, |seg.data|);
    FlattenAppend(y.queue, seg.data);
    hide Add, Flatten;
    assert y.accepted + seg.data == x.sent[..|y.accepted| + |seg.data|];
    if !y.orphan {
      assert y.dequeued + Flatten(y.queue + [seg.data]) == (y.dequeued + Flatten(y.queue)) + seg.data;
    }
  }

  lemma PayloadKeeps(x: Sock, y: Sock, sx: set<Segment>, sy: set<Segment>, seg: Segment)
    requires Both(x, y, sx, sy) && seg in sx && !Opening(y) && (y.known || seg.data == [])
    ensures Both(x, PayloadPart(y, seg), sx, sy) && SameButReceiving(y, PayloadPart(y, seg))
    ensures PayloadPart(y, seg).state == y.state
  {
    hide ReceiverOk, TxOk, Progress, Off, Add;
    if Takes(y, seg) {
      assert SegmentOk(x, y, seg);
      hide SegmentsOk, SegmentOk;
      PayloadReceiver(x, y, seg);
      hide SenderOk, Both;
      ReceivedMore(x, y, PayloadPart(y, seg), sx, sy);
    }
  }

  /** A FIN is accepted only when every byte before it has been. */
  lemma FinIs(x: Sock, y: Sock, seg: Segment)
    requires ReceiverOk(x, y) && SegmentOk(x, y, seg) && |x.sent| < HALF - 1 && TakesFin(y, seg) && y.known
    ensures !y.finRcvd && x.finSent && |y.accepted| == |x.sent|
  {
    OffAdd(x.iss, Taken(y));
  }

  lemma FinKeeps(x: Sock, y: Sock, sx: set<Segment>, sy: set<Segment>, seg: Segment)
    requires Both(x, y, sx, sy) && seg in sx && !Opening(y) && (y.known || !seg.fin)
    ensures Both(x, FinPart(y, seg), sx, sy) && SameButReceiving(y, FinPart(y, seg)) && !Opening(FinPart(y, seg))
  {
    var y' := FinPart(y, seg);
    if TakesFin(y, seg) {
      assert SegmentOk(x, y, seg);
      FinIs(x, y, seg);
      hide Off, SegmentsOk, TxOk, Flatten;
      AddAdd(x.iss, 1 + Taken(y), 1);
      assert ReceiverOk(x, y') by {
        hide Add;
      }
      ReceivedMore(x, y, y', sx, sy);
    }
  }

  lemma StateChanged(x: Sock, y: Sock, y': Sock, sx: set<Segment>, sy: set<Segment>)
    requires Both(x, y, sx, sy) &&
             y' == y.(state := y'.state, err := y'.err, eof := y'.eof, orphan := y'.orphan, queue := y'.queue)
    requires !Opening(y) && !Opening(y') && (CanFin(y') ==> CanFin(y)) && (y.err ==> y'.err)
    requires (y'.orphan || y'.queue == y.queue) && (y.orphan ==> y'.orphan)
    ensures Both(x, y', sx, sy)
  {
    hide Add, Off, Flatten;
    assert SegmentsOk(x, y', sx) by {
      hide SenderOk, ReceiverOk, Progress;
      forall s | s in sx
        ensures SegmentOk(x, y', s)
      {
        assert SegmentOk(x, y, s);
      }
    }
    assert SegmentsOk(y', x, sy) by {
      hide SenderOk, ReceiverOk, Progress;
      forall s | s in sy
        ensures SegmentOk(y', x, s)
      {
        assert SegmentOk(y, x, s);
      }
    }
    hide SegmentsOk;
  }

  lemma LastKeeps(x: Sock, y: Sock, sx: set<Segment>, sy: set<Segment>, seg: Segment)
    requires Both(x, y, sx, sy) && !Opening(y)
    ensures Both(x, LastPart(y, seg), sx, sy) && !Opening(LastPart(y, seg))
  {
    hide Both;
    StateChanged(x, y, LastPart(y, seg), sx, sy);
  }

  /** One more segment on the wire. */
  lemma SendKeeps(x: Sock, y: Sock, sx: set<Segment>, sy: set<Segment>, seg: Segment)
    requires Both(x, y, sx, sy) && SegmentOk(y, x, seg)
    ensures Both(x, y, sx, sy + {seg})
  {
    hide SegmentOk, SenderOk, ReceiverOk, Progress;
  }

  lemma PureAckOk(x: Sock, y: Sock, sx: set<Segment>, sy: set<Segment>)
    requires Both(x, y, sx, sy) && y.known && x.state != Listen
    ensures SegmentOk(y, x, PureAck(y))
  {
    OffAdd(x.iss, Taken(y));
  }

  lemma GeneralKeeps(x: Sock, y: Sock, sx: set<Segment>, sy: set<Segment>, seg: Segment)
    requires Both(x, y, sx, sy) && seg in sx && !Opening(y) && x.state != Listen &&
             (y.known || (seg.data == [] && !seg.fin))
    ensures var (y', r) := General(y, seg);
            Both(x, y', sx, if r.Some? then sy + {r.value} else sy) && !Opening(y') && y'.known == y.known
  {
    hide Both, AckPart, PayloadPart, FinPart, LastPart, PureAck;
    AckKeeps(x, y, sx, sy, seg);
    var y1 := AckPart(y, seg);
    PayloadKeeps(x, y1, sx, sy, seg);
    var y2 := PayloadPart(y1, seg);
    FinKeeps(x, y2, sx, sy, seg);
    var y3 := FinPart(y2, seg);
    var sy' := sy;
    if Answers(y1, seg) {
      PureAckOk(x, y3, sx, sy);
      SendKeeps(x, y3, sx, sy, PureAck(y3));
      sy' := sy + {PureAck(y3)};
    }
    LastKeeps(x, y3, sx, sy', seg);
    LastIs(y3, seg);
  }

  lemma LastIs(y: Sock, seg: Segment)
    ensures LastPart(y, seg).known == y.known
  {
  }

  /** Two sockets at the same stream position that have taken the same from the peer agree on every segment. */
  lemma SegmentsSame(x: Sock, y: Sock, x': Sock, y': Sock, sx: set<Segment>)
    requires SegmentsOk(x, y, sx)
    requires x'.iss == x.iss && x.sent <= x'.sent && (x.finSent ==> x'.finSent && x'.sent == x.sent)
    requires Taken(x') >= Taken(x) && (x.known ==> x'.known) && y'.iss == y.iss &&
             (y'.state == Listen ==> y.state == Listen)
    ensures SegmentsOk(x', y', sx)
  {
    forall s | s in sx
      ensures SegmentOk(x', y', s)
    {
      assert SegmentOk(x, y, s);
      if s.data != [] {
        var o := Off(x.iss, s.seqno);
        assert x'.sent[o..o + |s.data|] == x.sent[o..o + |s.data|];
      }
    }
  }

  /** The parts that make up both directions after `y` has become `y'`. */
  lemma Rebuilt(x: Sock, y: Sock, y': Sock, sx: set<Segment>, sy: set<Segment>)
    requires Both(x, y, sx, sy)
    requires SenderOk(y') && ReceiverOk(y', x) && Progress(y', x) && ReceiverOk(x, y') && |y'.accepted| == |y.accepted|
    requires y'.iss == y.iss && y.sent <= y'.sent && (y.finSent ==> y'.finSent && y'.sent == y.sent)
    requires Taken(y') == Taken(y) && (y.known ==> y'.known) && (y'.state == Listen ==> y.state == Listen)
    ensures Both(x, y', sx, sy)
  {
    hide SenderOk, ReceiverOk, Off, Taken;
    SegmentsSame(x, y, x, y', sx);
    SegmentsSame(y, x, y', x, sy);
  }

  /** The client takes the SYN-ACK and is established. */
  lemma ConnectKeeps(x: Sock, y: Sock, sx: set<Segment>, sy: set<Segment>, seg: Segment)
    requires Both(x, y, sx, sy) && seg in sx && y.state == SynSent && x.state != Listen
    ensures var (y', r) := Receive(y, seg);
            && Both(x, y', sx, if r.Some? then sy + {r.value} else sy)
            && (y' == y || (y'.state == Established && y'.known))
  {
    if seg.syn && seg.ack && seg.ackno == y.sndNxt {
      var y' := Receive(y, seg).0;
      assert SegmentOk(x, y, seg);
      SegmentsSame(x, y, x, y', sx);
      SegmentsSame(y, x, y', x, sy);
      hide SegmentsOk, Off, Flatten;
      assert Direction(x, y', sx) && Direction(y', x, sy);
      PureAckOk(x, y', sx, sy);
      SendKeeps(x, y', sx, sy, PureAck(y'));
    }
  }

  /** The server side of the handshake, up to the ACK that establishes it. */
  lemma AcceptKeeps(x: Sock, y: Sock, sx: set<Segment>, sy: set<Segment>, seg: Segment)
    requires Both(x, y, sx, sy) && seg in sx && y.state == SynRecv && x.state != Listen
    ensures var (y', r) := Receive(y, seg);
            Both(x, y', sx, if r.Some? then sy + {r.value} else sy) && y'.known && y'.state != SynSent &&
                y'.state != Listen
  {
    assert y.known;
    if seg.syn && !seg.ack {
      OffAdd(x.iss, Taken(y));
      SendKeeps(x, y, sx, sy, Segment(y.iss, y.rcvNxt, true, true, false, []));
    } else if seg.ack && seg.ackno == y.sndNxt {
      var y1 := y.(sndUna := seg.ackno, state := Established);
      assert SegmentOk(x, y, seg);
      SegmentsSame(x, y, x, y1, sx);
      SegmentsSame(y, x, y1, x, sy);
      hide SegmentsOk, Off, Flatten, General;
      assert Direction(x, y1, sx) && Direction(y1, x, sy);
      GeneralKeeps(x, y1, sx, sy, seg);
    }
  }

  lemma ListenKeeps(x: Sock, y: Sock, sx: set<Segment>, seg: Segment, iss: Seq32)
    requires Both(x, y, sx, {}) && seg in sx && y.state == Listen && !x.known && seg.syn && !seg.ack
    requires x.state != SynRecv && x.state != Listen
    ensures var y' := Accepted(seg, iss);
            Both(x, y', sx, {Segment(y'.iss, y'.rcvNxt, true, true, false, [])})
  {
    var y' := Accepted(seg, iss);
    assert SegmentOk(x, y, seg);
    assert SegmentsOk(x, y', sx) by {
      forall s | s in sx
        ensures SegmentOk(x, y', s)
      {
        assert SegmentOk(x, y, s);
      }
    }
    assert Given(y') == 0 && Taken(y') == 0;
    assert y.accepted == [] && x.accepted == [];
    hide SegmentsOk, Flatten;
    assert Flatten([]) == [] by { FlattenNone(); }
    assert Direction(x, y', sx);
    assert SegmentsOk(y', x, {}) by { NoSegments(y', x); }
    assert Direction(y', x, {});
    OffAdd(x.iss, 0);
    SendKeeps(x, y', sx, {}, Segment(y'.iss, y'.rcvNxt, true, true, false, []));
    assert {} + {Segment(y'.iss, y'.rcvNxt, true, true, false, [])} ==
           {Segment(y'.iss, y'.rcvNxt, true, true, false, [])};
  }

  lemma FlattenNone()
    ensures Flatten([]) == []
  {
  }

  lemma NoSegments(x: Sock, y: Sock)
    ensures SegmentsOk(x, y, {})
  {
  }

  /** A new chunk extends the stream. */
  lemma SendDataKeeps(x: Sock, y: Sock, sx: set<Segment>, sy: set<Segment>, chunk: Bytes)
    requires Both(x, y, sx, sy) && CanSend(y) && 0 < |chunk| && |y.sent| + |chunk| < HALF - 1 && x.state != Listen
    ensures var (y', seg) := SendData(y, chunk); Both(x, y', sx, sy + {seg})
  {
    var (y', seg) := SendData(y, chunk);
    assert y.known && x.known;
    AddAdd(y.iss, 1 + |y.sent|, |chunk|);
    hide SegmentsOk, Flatten, Off, Add;
    assert ReceiverOk(y', x) && Progress(y', x);
    assert ReceiverOk(x, y');
    assert SenderOk(y');
    Rebuilt(x, y, y', sx, sy);
    NewDataOk(x, y, sx, sy, chunk);
    SendKeeps(x, y', sx, sy, seg);
  }

  lemma NewDataOk(x: Sock, y: Sock, sx: set<Segment>, sy: set<Segment>, chunk: Bytes)
    requires Both(x, y, sx, sy) && CanSend(y) && 0 < |chunk| && |y.sent| + |chunk| < HALF - 1 && x.state != Listen
    ensures var (y', seg) := SendData(y, chunk); SegmentOk(y', x, seg)
  {
    OffAdd(x.iss, Taken(y));
    OffAdd(y.iss, |y.sent|);
    hide Off, Add, SegmentsOk, Flatten, TxOk, Progress;
    assert y.known && Off(y.iss, y.sndNxt) == |y.sent| && Off(x.iss, y.rcvNxt) <= Taken(y);
    hide SenderOk, ReceiverOk;
    assert (y.sent + chunk)[|y.sent|..|y.sent| + |chunk|] == chunk;
  }

  lemma SendFinKeeps(x: Sock, y: Sock, sx: set<Segment>, sy: set<Segment>, release: bool)
    requires Both(x, y, sx, sy) && CanFin(y) && x.state != Listen
    ensures var (y', seg) := SendFin(y, release); Both(x, y', sx, sy + {seg})
  {
    var (y', seg) := SendFin(y, release);
    AddAdd(y.iss, 1 + |y.sent|, 1);
    OffAdd(x.iss, Taken(y));
    OffAdd(y.iss, |y.sent|);
    hide SegmentsOk, Flatten, Off, Add;
    assert SegmentOk(y', x, seg) by { hide TxOk, Progress; }
    hide SegmentOk;
    assert SenderOk(y') && Progress(y', x);
    assert ReceiverOk(y', x) && ReceiverOk(x, y') by { hide TxOk, Progress; }
    Rebuilt(x, y, y', sx, sy);
    SendKeeps(x, y', sx, sy, seg);
  }

  lemma ResentOk(x: Sock, y: Sock, sx: set<Segment>, sy: set<Segment>)
    requires Both(x, y, sx, sy) && y.txKind != TxNone && (x.state == Listen ==> !y.known)
    ensures SegmentOk(y, x, Resent(y))
  {
    OffAdd(x.iss, Taken(y));
    OffAdd(y.iss, |y.sent|);
    if y.txKind == TxData {
      OffAdd(y.iss, |y.sent| - |y.txData|);
    }
    hide Off, Add, SegmentsOk, Flatten, Progress;
    assert y.txKind != TxSyn ==> y.known && Off(x.iss, y.rcvNxt) <= Taken(y);
    hide ReceiverOk;
  }

  lemma TickKeeps(x: Sock, y: Sock, sx: set<Segment>, sy: set<Segment>)
    requires Both(x, y, sx, sy) && (x.state == Listen ==> !y.known)
    ensures var (y', r) := Tick(y);
            Both(x, y', sx, if r.Some? then sy + {r.value} else sy) && (y'.state == y.state || y'.state == Closed) &&
                y'.known == y.known
  {
    hide Add, Off, Flatten, SegmentsOk;
    if y.txKind != TxNone {
      if y.retries >= MAX_RETRIES {
        GiveUpKeeps(x, y, sx, sy);
      } else {
        RetryKeeps(x, y, sx, sy);
        ResentOk(x, y, sx, sy);
        hide Both, Resent, SegmentOk;
        var y' := y.(retries := y.retries + 1);
        ResentSame(x, y);
        SendKeeps(x, y', sx, sy, Resent(y));
      }
    }
  }

  lemma ResentSame(x: Sock, y: Sock)
    requires SegmentOk(y, x, Resent(y))
    ensures SegmentOk(y.(retries := y.retries + 1), x, Resent(y))
  {
    hide Add, Off, Resent;
  }

  lemma RetryKeeps(x: Sock, y: Sock, sx: set<Segment>, sy: set<Segment>)
    requires Both(x, y, sx, sy)
    ensures Both(x, y.(retries := y.retries + 1), sx, sy)
  {
    var y' := y.(retries := y.retries + 1);
    hide SegmentsOk, Flatten, Off, Add;
    Rebuilt(x, y, y', sx, sy);
  }

  lemma GiveUpKeeps(x: Sock, y: Sock, sx: set<Segment>, sy: set<Segment>)
    requires Both(x, y, sx, sy)
    ensures Both(x, ClearTx(y.(err := true, state := Closed, eof := true)), sx, sy)
  {
    var y' := ClearTx(y.(err := true, state := Closed, eof := true));
    hide SegmentsOk, Flatten, Off, Add;
    Rebuilt(x, y, y', sx, sy);
  }

  lemma AbandonKeeps(x: Sock, y: Sock, sx: set<Segment>, sy: set<Segment>)
    requires Both(x, y, sx, sy)
    ensures Both(x, Abandon(y), sx, sy)
  {
    hide Both;
    if Abandon(y) != y {
      StateChanged(x, y, Abandon(y), sx, sy);
    }
  }

  lemma TakeFlatten(y: Sock)
    requires |y.queue| > 0
    ensures TakeQueued(y).dequeued + Flatten(TakeQueued(y).queue) == y.dequeued + Flatten(y.queue)
  {
  }

  lemma TakeKeeps(x: Sock, y: Sock, sx: set<Segment>, sy: set<Segment>)
    requires Both(x, y, sx, sy) && |y.queue| > 0
    ensures Both(x, TakeQueued(y), sx, sy)
  {
    hide SegmentsOk, Flatten, Off, Add;
    var y' := TakeQueued(y);
    TakeFlatten(y);
    assert SenderOk(y') && Progress(y', x) by { hide ReceiverOk; }
    assert ReceiverOk(y', x) by { hide SenderOk, Progress; }
    assert ReceiverOk(x, y') by { hide SenderOk, Progress; }
    hide SenderOk, ReceiverOk, Progress;
    Rebuilt(x, y, y', sx, sy);
  }
}
