/**
 That a connection gets on (src/net/tcp.c): every reply acknowledges exactly what has been taken, and one undisturbed
 round trip of what is outstanding settles it.
 */
module TcpProgress {
  import opened TcpSpec
  import opened TcpProtocol
  import opened TcpRun

  /** The segment carries what `x` has outstanding. */
  predicate Carries(x: Sock, seg: Segment) {
    match x.txKind
    case TxNone => false
    case TxSyn => seg.syn && seg.seqno == x.iss
    case TxData => seg.ack && !seg.syn && !seg.fin && seg.seqno == x.txSeq && seg.data == x.txData
    case TxFin => seg.ack && !seg.syn && seg.fin && seg.seqno == x.txSeq && seg.data == []
  }

  /** The payload is what is outstanding, or lies before it. */
  predicate Placed(x: Sock, seg: Segment) {
    |x.txData| <= |x.sent| && seg.data != [] ==>
      var outstanding := |x.sent| - |x.txData|;
      || Off(x.iss, seg.seqno) + |seg.data| <= outstanding
      || (Off(x.iss, seg.seqno) == outstanding && seg.data == x.txData)
  }

  /** The peer has all of the outstanding chunk or nothing of it, and a segment with it is on its way. */
  ghost predicate Whole(x: Sock, y: Sock, sx: set<Segment>) {
    && (x.txKind == TxData ==> |y.accepted| == |x.sent| - |x.txData| || |y.accepted| == |x.sent|)
    && (x.txKind == TxData ==> forall seg :: seg in sx ==> Placed(x, seg))
    && (x.txKind != TxNone ==> exists seg :: seg in sx && Carries(x, seg))
    && (x.known && !Opening(x) ==> Off(x.iss, x.sndUna) <= Taken(y))
  }

  // What the peer's steps do to it.

  lemma PeerSame(x: Sock, y: Sock, y': Sock, sx: set<Segment>)
    requires Whole(x, y, sx) && |y'.accepted| == |y.accepted| && Taken(y') >= Taken(y)
    ensures Whole(x, y', sx)
  {
    hide Placed, Carries, Off;
  }

  /** An action adds nothing to what a socket has taken. */
  ghost predicate TakesNothing(y: Sock, y': Sock) {
    y'.accepted == y.accepted && y'.finRcvd == y.finRcvd && y'.iss == y.iss
  }

  lemma ActTakes(y: Sock, a: Action)
    requires Allowed(y, a)
    ensures TakesNothing(y, Act(y, a).0)
  {
    hide Add, SendData, SendFin, Tick, Resent;
    match a
    case Send(chunk) => SendTakes(y, chunk);
    case Fin(release) => FinTakes(y, release);
    case Leave =>
    case Expire => TickTakes(y);
    case Take =>
  }

  lemma SendTakes(y: Sock, chunk: Bytes)
    ensures TakesNothing(y, SendData(y, chunk).0)
  {
    hide Add;
  }

  lemma FinTakes(y: Sock, release: bool)
    ensures TakesNothing(y, SendFin(y, release).0)
  {
    hide Add;
  }

  lemma TickTakes(y: Sock)
    ensures TakesNothing(y, Tick(y).0)
  {
    hide Resent;
  }

  // What a socket's own actions do to it.

  lemma SendWhole(x: Sock, y: Sock, sx: set<Segment>, sy: set<Segment>, chunk: Bytes)
    requires Both(x, y, sx, sy) && Whole(y, x, sy) && CanSend(y) && 0 < |chunk| && |y.sent| + |chunk| < HALF - 1
    ensures var (y', seg) := SendData(y, chunk); Whole(y', x, sy + {seg})
  {
    var (y', seg) := SendData(y, chunk);
    assert Off(y.iss, seg.seqno) == |y.sent| by {
      OffAdd(y.iss, |y.sent|);
    }
    forall prior | prior in sy
      ensures Placed(y', prior)
    {
      assert SegmentOk(y, x, prior);
    }
    hide Off, Add;
    assert Carries(y', seg) && seg in sy + {seg};
  }

  lemma FinWhole(x: Sock, y: Sock, sy: set<Segment>, release: bool)
    requires Whole(y, x, sy) && CanFin(y)
    ensures var (y', seg) := SendFin(y, release); Whole(y', x, sy + {seg})
  {
    hide Off, Add, Placed;
    var (y', seg) := SendFin(y, release);
    assert Carries(y', seg) && seg in sy + {seg};
  }

  lemma TickWhole(x: Sock, y: Sock, sy: set<Segment>)
    requires SenderOk(y) && Whole(y, x, sy) && (y.state == SynSent || y.state == Listen ==> !y.known)
    ensures Whole(Tick(y).0, x, Wire(sy, Tick(y).1))
  {
    assert y.txKind != TxNone ==> y.state != SynRecv;
    hide Resent, SenderOk, Placed, Carries, Off;
    if y.txKind != TxNone {
      if y.retries < MAX_RETRIES {
        AgainWhole(x, y, sy);
      } else {
        GoneWhole(x, y, Tick(y).0, sy);
      }
    }
  }

  lemma GoneWhole(x: Sock, y: Sock, y': Sock, sy: set<Segment>)
    requires Whole(y, x, sy) && y'.txKind == TxNone && y'.iss == y.iss && y'.sndUna == y.sndUna
    requires (y'.known && !Opening(y') ==> y.known && !Opening(y))
    ensures Whole(y', x, sy)
  {
    hide Placed, Carries, Off;
  }

  lemma AgainWhole(x: Sock, y: Sock, sy: set<Segment>)
    requires SenderOk(y) && Whole(y, x, sy) && y.txKind != TxNone
    ensures Whole(y.(retries := y.retries + 1), x, sy + {Resent(y)})
  {
    AgainPlaced(y);
    hide Off, Add, Placed, Carries, Resent, SenderOk;
    var y', seg := y.(retries := y.retries + 1), Resent(y);
    assert Carries(y', seg) && seg in sy + {seg};
    forall s | s in sy && Placed(y, s)
      ensures Placed(y', s)
    {
      SamePlaced(y, y', s);
    }
  }

  lemma AgainPlaced(y: Sock)
    requires SenderOk(y) && y.txKind != TxNone
    ensures var y' := y.(retries := y.retries + 1);
            Carries(y', Resent(y)) && Placed(y', Resent(y))
  {
    if y.txKind == TxData {
      OffAdd(y.iss, |y.sent| - |y.txData|);
    }
    hide Off, Add;
  }

  lemma SamePlaced(y: Sock, y': Sock, seg: Segment)
    requires y'.iss == y.iss && y'.sent == y.sent && y'.txData == y.txData
    ensures Placed(y', seg) == Placed(y, seg)
  {
  }

  // What a delivered segment does.

  ghost predicate SameTx(y: Sock, y': Sock) {
    y'.txKind == y.txKind && y'.txData == y.txData && y'.txSeq == y.txSeq
  }

  /** The outstanding segment stays or is cleared, in-order payload is taken, and an acknowledgement moves SND.UNA. */
  ghost predicate Received(y: Sock, y': Sock, seg: Segment) {
    && y'.iss == y.iss && y'.sent == y.sent && y'.finSent == y.finSent && y'.sndNxt == y.sndNxt
    && (y'.txKind == TxNone || SameTx(y, y'))
    && (y'.accepted == y.accepted || (Takes(y, seg) && y'.accepted == y.accepted + seg.data))
    && (y.finRcvd ==> y'.finRcvd)
    && (y'.sndUna == y.sndUna || (seg.ack && y'.sndUna == seg.ackno))
    && (y'.known == y.known || y.state == SynSent)
  }

  lemma AckReceived(y: Sock, seg: Segment)
    ensures var y' := AckPart(y, seg);
            && SameButTx(y, y') && (y'.sndUna == y.sndUna || (seg.ack && y'.sndUna == seg.ackno))
            && (y'.txKind == TxNone || SameTx(y, y'))
  {
    AckIsSameButTx(y, seg);
    UnaReceived(y, seg);
    hide AckPart;
  }

  lemma UnaReceived(y: Sock, seg: Segment)
    ensures AckPart(y, seg).sndUna == y.sndUna || (seg.ack && AckPart(y, seg).sndUna == seg.ackno)
  {
    hide Add, Geq, After, Acked;
  }

  lemma PayloadReceived(y: Sock, seg: Segment)
    ensures var y' := PayloadPart(y, seg);
            && SameButReceiving(y, y') && y'.finRcvd == y.finRcvd
            && y'.accepted == if Takes(y, seg) then y.accepted + seg.data else y.accepted
  {
    hide Add, Takes;
  }

  lemma FinReceived(y: Sock, seg: Segment)
    ensures var y' := FinPart(y, seg);
            SameButReceiving(y, y') && y'.accepted == y.accepted && (y.finRcvd ==> y'.finRcvd)
  {
    hide Add, TakesFin;
  }

  lemma LastReceived(y: Sock, seg: Segment)
    ensures LastPart(y, seg) == y.(state := LastPart(y, seg).state)
  {
  }

  /** A reply is a pure acknowledgement of all the socket has now. */
  ghost predicate Replies(y': Sock, r: Option<Segment>) {
    r.Some? ==> r.value.ack && r.value.ackno == y'.rcvNxt && r.value.data == [] && !r.value.fin
  }

  lemma GeneralReceived(y: Sock, seg: Segment)
    ensures var (y', r) := General(y, seg); Received(y, y', seg) && Replies(y', r)
  {
    hide AckPart, PayloadPart, FinPart, LastPart, Answers;
    AckReceived(y, seg);
    var y1 := AckPart(y, seg);
    PayloadReceived(y1, seg);
    var y2 := PayloadPart(y1, seg);
    FinReceived(y2, seg);
    var y3 := FinPart(y2, seg);
    LastReceived(y3, seg);
  }

  /** The three ways tcp_rcv leaves the handshake behind, or does not. */
  lemma ReceiveReceived(y: Sock, seg: Segment)
    ensures var (y', r) := Receive(y, seg); Received(y, y', seg) && Replies(y', r)
    ensures var y' := Receive(y, seg).0;
            !Opening(y') && Opening(y) ==> y.state != Listen && seg.ack && y'.sndUna == seg.ackno
  {
    hide General, Add, Takes;
    if y.state == SynRecv && seg.ack && seg.ackno == y.sndNxt {
      var y1 := y.(sndUna := seg.ackno, state := Established);
      GeneralReceived(y1, seg);
      SameTakes(y, y1, seg);
    } else if !Opening(y) {
      GeneralReceived(y, seg);
    }
  }

  lemma SameTakes(y: Sock, y': Sock, seg: Segment)
    requires y'.rcvNxt == y.rcvNxt && y'.orphan == y.orphan && y'.queue == y.queue
    ensures Takes(y', seg) == Takes(y, seg)
  {
  }

  /** Payload that is taken while a chunk is outstanding is that chunk, whole. */
  lemma WholeChunk(x: Sock, y: Sock, sx: set<Segment>, sy: set<Segment>, seg: Segment)
    requires Both(x, y, sx, sy) && Whole(x, y, sx) && seg in sx && Takes(y, seg) && x.txKind == TxData
    ensures |y.accepted| + |seg.data| == |x.sent|
  {
    UnknownPeer(x, y, sx, sy, seg);
    assert SegmentOk(x, y, seg);
    PayloadIs(x, y, seg);
    hide Off, SegmentOk, SegmentsOk, ReceiverOk, Add;
    assert Placed(x, seg);
  }

  lemma DeliveryWhole(x: Sock, y: Sock, sx: set<Segment>, sy: set<Segment>, seg: Segment)
    requires Both(x, y, sx, sy) && Whole(x, y, sx) && seg in sx
    ensures Whole(x, Receive(y, seg).0, sx)
  {
    ReceiveReceived(y, seg);
    var y' := Receive(y, seg).0;
    if x.txKind == TxData && y'.accepted != y.accepted {
      WholeChunk(x, y, sx, sy, seg);
    }
    hide Receive, Both, Carries, Placed, Off, Takes;
  }

  lemma ReplyWhole(x: Sock, y: Sock, sx: set<Segment>, sy: set<Segment>, seg: Segment)
    requires Both(x, y, sx, sy) && Whole(y, x, sy) && seg in sx
    ensures Whole(Receive(y, seg).0, x, Wire(sy, Receive(y, seg).1))
  {
    ReceiveReceived(y, seg);
    var y', r := Receive(y, seg).0, Receive(y, seg).1;
    if seg.ack {
      AckBound(x, y, sx, sy, seg);
    }
    hide Receive, Both, Off, Takes, Carries, Placed, SameTx;
    if y'.txKind != TxNone {
      SameCarried(y, y', sy, r);
    }
  }

  lemma SameCarried(y: Sock, y': Sock, sy: set<Segment>, r: Option<Segment>)
    requires SameTx(y, y') && y'.iss == y.iss && y'.sent == y.sent && y.txKind != TxNone
    requires r.Some? ==> r.value.data == []
    requires exists seg :: seg in sy && Carries(y, seg)
    requires y.txKind == TxData ==> forall seg :: seg in sy ==> Placed(y, seg)
    ensures y'.txKind == y.txKind && y'.txData == y.txData && exists seg :: seg in Wire(sy, r) && Carries(y', seg)
    ensures y.txKind == TxData ==> forall seg :: seg in Wire(sy, r) ==> Placed(y', seg)
  {
    hide Off;
    var outstanding :| outstanding in sy && Carries(y, outstanding);
    assert outstanding in Wire(sy, r) && Carries(y', outstanding);
    forall s | s in Wire(sy, r) && y.txKind == TxData
      ensures Placed(y', s)
    {
      if s in sy {
        assert Placed(y, s);
      }
    }
  }

  lemma ArriveWhole(x: Sock, y: Sock, sx: set<Segment>, sy: set<Segment>, seg: Segment, iss: Seq32)
    requires Both(x, y, sx, sy) && Whole(x, y, sx) && Whole(y, x, sy) && seg in sx
    ensures Whole(x, Arrive(y, seg, iss).0, sx)
    ensures Whole(Arrive(y, seg, iss).0, x, Wire(sy, Arrive(y, seg, iss).1))
  {
    if y.state == Listen {
      NothingYet(x, y, sx, sy);
      PeerSame(x, y, Arrive(y, seg, iss).0, sx);
    } else {
      hide *;
      ArrivesAs(y, seg, iss);
      DeliveryWhole(x, y, sx, sy, seg);
      ReplyWhole(x, y, sx, sy, seg);
    }
  }

  lemma ArrivesAs(y: Sock, seg: Segment, iss: Seq32)
    requires y.state != Listen
    ensures Arrive(y, seg, iss) == Receive(y, seg)
  {
    hide Receive;
  }

  lemma ActWhole(x: Sock, y: Sock, sx: set<Segment>, sy: set<Segment>, a: Action)
    requires Both(x, y, sx, sy) && Whole(x, y, sx) && Whole(y, x, sy) && Allowed(y, a)
    ensures Whole(x, Act(y, a).0, sx) && Whole(Act(y, a).0, x, Wire(sy, Act(y, a).1))
  {
    hide SegmentsOk, Progress, Off, Add, Flatten, Whole, SendData, SendFin, Tick;
    ActTakes(y, a);
    PeerSame(x, y, Act(y, a).0, sx);
    match a
    case Send(chunk) => SendWhole(x, y, sx, sy, chunk);
    case Fin(release) => FinWhole(x, y, sy, release);
    case Leave => IdleWhole(x, y, Abandon(y), sy);
    case Expire => TickWhole(x, y, sy);
    case Take => IdleWhole(x, y, TakeQueued(y), sy);
  }

  lemma IdleWhole(x: Sock, y: Sock, y': Sock, sy: set<Segment>)
    requires Whole(y, x, sy) && y' == y.(orphan := y'.orphan, queue := y'.queue, dequeued := y'.dequeued)
    ensures Whole(y', x, sy)
  {
    hide Off;
    if y.txKind != TxNone {
      var outstanding :| outstanding in sy && Carries(y, outstanding);
      assert Carries(y', outstanding);
    }
    if y.txKind == TxData {
      forall s | s in sy
        ensures Placed(y', s)
      {
        assert Placed(y, s);
      }
    }
  }

  // Over whole runs.

  ghost predicate Wholes(s: System) {
    Whole(s.client, s.server, s.fromClient) && Whole(s.server, s.client, s.fromServer)
  }

  lemma ApplyWhole(s: System, step: Step)
    requires Inv(s) && Wholes(s) && Enabled(s, step)
    ensures Wholes(Apply(s, step))
  {
    hide Direction, Receive, Arrive, Act, Whole;
    var c, v := s.client, s.server;
    assert Both(c, v, s.fromClient, s.fromServer) && Both(v, c, s.fromServer, s.fromClient);
    match step
    case ToServer(seg, iss) => ArriveWhole(c, v, s.fromClient, s.fromServer, seg, iss);
    case ToClient(seg) =>
      DeliveryWhole(v, c, s.fromServer, s.fromClient, seg);
      ReplyWhole(v, c, s.fromServer, s.fromClient, seg);
    case Client(a) => ActWhole(v, c, s.fromServer, s.fromClient, a);
    case Server(a) => ActWhole(c, v, s.fromClient, s.fromServer, a);
  }

  lemma {:induction false} RunWhole(s: System, steps: seq<Step>)
    requires Inv(s) && Wholes(s) && Runs(s, steps)
    ensures Inv(Final(s, steps)) && Wholes(Final(s, steps))
    decreases |steps|
  {
    hide Inv, Enabled, Apply, Wholes;
    if |steps| > 0 {
      ApplyKeeps(s, steps[0]);
      ApplyWhole(s, steps[0]);
      RunWhole(Apply(s, steps[0]), steps[1..]);
    }
  }

  lemma StartWhole(clientIss: Seq32, serverIss: Seq32)
    ensures Wholes(Start(clientIss, serverIss))
  {
    var s := Start(clientIss, serverIss);
    var syn := Segment(clientIss, 0, true, false, false, []);
    assert syn in s.fromClient && Carries(s.client, syn);
  }

  lemma Reached(clientIss: Seq32, serverIss: Seq32, steps: seq<Step>)
    requires Runs(Start(clientIss, serverIss), steps)
    ensures var s := Final(Start(clientIss, serverIss), steps);
            && Both(s.client, s.server, s.fromClient, s.fromServer)
            && Both(s.server, s.client, s.fromServer, s.fromClient) && Wholes(s) && Inv(s)
  {
    hide Start, Wholes, Direction, Apply, Enabled;
    StartInv(clientIss, serverIss);
    StartWhole(clientIss, serverIss);
    RunWhole(Start(clientIss, serverIss), steps);
  }

  // Every reply acknowledges exactly what its sender has taken.

  lemma ReplyKnown(x: Sock, y: Sock, sx: set<Segment>, sy: set<Segment>, seg: Segment)
    requires Both(x, y, sx, sy) && seg in sx
    ensures Receive(y, seg).1.Some? ==> Receive(y, seg).0.known
  {
    UnknownPeer(x, y, sx, sy, seg);
    ReceiveReceived(y, seg);
    hide SegmentsOk, Add, Off, Takes, AckPart, PayloadPart, FinPart, LastPart, PureAck;
  }

  /** What `r` acknowledges of the stream of `x` is what `y` has taken of it. */
  ghost predicate Acknowledges(x: Sock, y: Sock, r: Segment) {
    r.ack ==> Off(x.iss, r.ackno) == Taken(y)
  }

  lemma ReplyTaken(x: Sock, y: Sock, sx: set<Segment>, sy: set<Segment>, seg: Segment)
    requires Both(x, y, sx, sy) && seg in sx && x.state != Listen
    ensures var (y', r) := Receive(y, seg);
            r.Some? ==> r.value.ack && Acknowledges(x, y', r.value)
  {
    hide Receive, SegmentsOk, Add, Off, Progress, Flatten;
    if y.state == Listen {
      ListenQuiet(y, seg);
    } else if Receive(y, seg).1.Some? {
      ReplyKnown(x, y, sx, sy, seg);
      ReceiveReceived(y, seg);
      ReceiveKeeps(x, y, sx, sy, seg);
      OffTaken(x, Receive(y, seg).0);
    }
  }

  lemma ListenQuiet(y: Sock, seg: Segment)
    requires y.state == Listen
    ensures Receive(y, seg) == (y, None)
  {
  }

  lemma OffTaken(x: Sock, y: Sock)
    requires ReceiverOk(x, y) && |x.sent| < HALF - 1 && y.known
    ensures Off(x.iss, y.rcvNxt) == Taken(y)
  {
    OffAdd(x.iss, Taken(y));
  }

  lemma ListenTaken(x: Sock, y: Sock, sx: set<Segment>, seg: Segment, iss: Seq32)
    requires SegmentsOk(x, y, sx) && seg in sx && seg.syn
    ensures Off(x.iss, Accepted(seg, iss).rcvNxt) == 0
  {
    assert SegmentOk(x, y, seg);
    OffAdd(x.iss, 0);
  }

  lemma ArriveTaken(x: Sock, y: Sock, sx: set<Segment>, sy: set<Segment>, seg: Segment, iss: Seq32)
    requires Both(x, y, sx, sy) && seg in sx && x.state != Listen
    ensures var (y', r) := Arrive(y, seg, iss);
            r.Some? ==> r.value.ack && Acknowledges(x, y', r.value)
  {
    if y.state == Listen {
      hide Off, Add, SegmentsOk;
      if seg.syn && !seg.ack {
        ListenTaken(x, y, sx, seg, iss);
      }
    } else {
      hide *;
      ArrivesAs(y, seg, iss);
      ReplyTaken(x, y, sx, sy, seg);
    }
  }

  lemma ActTaken(x: Sock, y: Sock, sx: set<Segment>, sy: set<Segment>, a: Action)
    requires Both(x, y, sx, sy) && Allowed(y, a)
    ensures var (y', r) := Act(y, a); r.Some? ==> Acknowledges(x, y', r.value)
  {
    hide SegmentsOk, Progress, Flatten, Off, Add;
    ActTakes(y, a);
    if Act(y, a).1.Some? {
      ActAcks(y, a);
      assert Act(y, a).1.value.ack ==> y.known;
      hide Act;
      if y.known {
        OffTaken(x, y);
      }
    }
  }

  lemma ActAcks(y: Sock, a: Action)
    requires Allowed(y, a) && Act(y, a).1.Some?
    ensures Act(y, a).1.value.ack ==> Act(y, a).1.value.ackno == y.rcvNxt
  {
    hide Add;
  }

  /** The segment a step puts on the wire. */
  function Emits(s: System, step: Step): Option<Segment>
    requires Enabled(s, step)
  {
    match step
    case ToServer(seg, iss) => Arrive(s.server, seg, iss).1
    case ToClient(seg) => Receive(s.client, seg).1
    case Client(a) => Act(s.client, a).1
    case Server(a) => Act(s.server, a).1
  }

  /**
   Over every run: whatever an endpoint sends, a reply, new data, a FIN or a retransmission, acknowledges exactly the
   bytes and the FIN it has taken by the end of that step; and a reply to a delivered segment does acknowledge.
   */
  lemma AcknowledgesExactly(clientIss: Seq32, serverIss: Seq32, steps: seq<Step>, step: Step)
    requires Runs(Start(clientIss, serverIss), steps) && Enabled(Final(Start(clientIss, serverIss), steps), step)
    ensures var s := Final(Start(clientIss, serverIss), steps);
            var s' := Apply(s, step);
            Emits(s, step).Some? ==>
              var r := Emits(s, step).value;
              && (step.ToServer? || step.Server? ==> r in s'.fromServer && Acknowledges(s.client, s'.server, r))
              && (step.ToClient? || step.Client? ==> r in s'.fromClient && Acknowledges(s.server, s'.client, r))
              && (step.ToServer? || step.ToClient? ==> r.ack)
  {
    Reached(clientIss, serverIss, steps);
    var s := Final(Start(clientIss, serverIss), steps);
    hide Start, Final, Runs, Direction, Receive, Arrive, Act, Wholes, Acknowledges;
    match step
    case ToServer(seg, iss) => ArriveTaken(s.client, s.server, s.fromClient, s.fromServer, seg, iss);
    case ToClient(seg) =>
      if s.server.state != Listen {
        ReplyTaken(s.server, s.client, s.fromServer, s.fromClient, seg);
      }
    case Client(a) => ActTaken(s.server, s.client, s.fromServer, s.fromClient, a);
    case Server(a) => ActTaken(s.client, s.server, s.fromClient, s.fromServer, a);
  }
}
