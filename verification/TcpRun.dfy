/**
 Whole runs of a connection: one endpoint connects, the other listens, and both run the code of
 src/net/tcp.c over a network that loses, duplicates and reorders what is sent.
 */
module TcpRun {
  import opened TcpSpec
  import opened TcpProtocol

  /** What a process or the clock does to one endpoint. */
  datatype Action = Send(chunk: Bytes) | Fin(release: bool) | Leave | Expire | Take

  /** One atomic step of the connection: a section of code under the socket lock. */
  datatype Step = ToServer(seg: Segment,
                           iss: Seq32) | ToClient(seg: Segment) | Client(action: Action) | Server(action: Action)

  predicate Allowed(s: Sock, a: Action) {
    match a
    case Send(chunk) => CanSend(s) && 0 < |chunk| && |s.sent| + |chunk| < HALF - 1
    case Fin(_) => CanFin(s)
    case Leave => true
    case Expire => true
    case Take => |s.queue| > 0
  }

  function Act(s: Sock, a: Action): (Sock, Option<Segment>)
    requires Allowed(s, a)
  {
    match a
    case Send(chunk) => (SendData(s, chunk).0, Some(SendData(s, chunk).1))
    case Fin(release) => (SendFin(s, release).0, Some(SendFin(s, release).1))
    case Leave => (Abandon(s), None)
    case Expire => Tick(s)
    case Take => (TakeQueued(s), None)
  }

  /** The listener's lookup: a SYN makes the child socket and its SYN-ACK. */
  function Arrive(s: Sock, seg: Segment, iss: Seq32): (Sock, Option<Segment>) {
    if s.state == Listen then
      if seg.syn && !seg.ack
      then (Accepted(seg, iss), Some(Segment(iss, Accepted(seg, iss).rcvNxt, true, true, false, [])))
      else (s, None)
    else Receive(s, seg)
  }

  function Wire(sent: set<Segment>, r: Option<Segment>): set<Segment> {
    if r.Some? then sent + {r.value} else sent
  }

  /** Delivery picks any segment ever sent; the network keeps it, so it may come again. */
  predicate Enabled(s: System, step: Step) {
    match step
    case ToServer(seg, _) => seg in s.fromClient
    case ToClient(seg) => seg in s.fromServer
    case Client(a) => Allowed(s.client, a)
    case Server(a) => Allowed(s.server, a)
  }

  function Apply(s: System, step: Step): System
    requires Enabled(s, step)
  {
    match step
    case ToServer(seg, iss) => s.(server := Arrive(s.server, seg, iss).0,
                                  fromServer := Wire(s.fromServer, Arrive(s.server, seg, iss).1))
    case ToClient(seg) => s.(client := Receive(s.client, seg).0,
                             fromClient := Wire(s.fromClient, Receive(s.client, seg).1))
    case Client(a) => s.(client := Act(s.client, a).0, fromClient := Wire(s.fromClient, Act(s.client, a).1))
    case Server(a) => s.(server := Act(s.server, a).0, fromServer := Wire(s.fromServer, Act(s.server, a).1))
  }

  /** The listening side before any SYN: no connection yet. */
  function Waiting(iss: Seq32): Sock {
    Sock(Listen, iss, iss, Add(iss, 1), 0, TxNone, [], 0, 0, false, false, false, [], [], [], [], false, false, false)
  }

  function Start(clientIss: Seq32, serverIss: Seq32): System {
    System(Connecting(clientIss), Waiting(serverIss), {Segment(clientIss, 0, true, false, false, [])}, {})
  }

  ghost predicate Runs(s: System, steps: seq<Step>)
    decreases |steps|
  {
    |steps| > 0 ==> Enabled(s, steps[0]) && Runs(Apply(s, steps[0]), steps[1..])
  }

  ghost function Final(s: System, steps: seq<Step>): System
    requires Runs(s, steps)
    decreases |steps|
  {
    if |steps| == 0 then s else Final(Apply(s, steps[0]), steps[1..])
  }

  lemma StartInv(clientIss: Seq32, serverIss: Seq32)
    ensures Inv(Start(clientIss, serverIss))
  {
    var s := Start(clientIss, serverIss);
    NoSegments(s.server, s.client);
    FlattenNone();
  }

  // What a step of one endpoint keeps.

  lemma SendersKnow(x: Sock, y: Sock, sx: set<Segment>, sy: set<Segment>)
    requires Both(x, y, sx, sy) && CanFin(y)
    ensures y.known
  {
  }

  lemma ActKeeps(x: Sock, y: Sock, sx: set<Segment>, sy: set<Segment>, a: Action)
    requires Both(x, y, sx, sy) && Allowed(y, a) && (x.state == Listen ==> !y.known)
    ensures Both(x, Act(y, a).0, sx, Wire(sy, Act(y, a).1))
  {
    hide Both, SendData, SendFin, Tick;
    match a
    case Send(chunk) =>
      SendersKnow(x, y, sx, sy);
      SendDataKeeps(x, y, sx, sy, chunk);
    case Fin(release) =>
      SendersKnow(x, y, sx, sy);
      SendFinKeeps(x, y, sx, sy, release);
    case Leave => AbandonKeeps(x, y, sx, sy);
    case Expire => TickKeeps(x, y, sx, sy);
    case Take => TakeKeeps(x, y, sx, sy);
  }

  /** A socket only ever adds to its stream, and leaves the handshake states for good. */
  ghost predicate Advances(y: Sock, y': Sock) {
    && y.sent <= y'.sent && y.accepted <= y'.accepted && (y.known ==> y'.known)
    && (y'.state == Listen ==> y.state == Listen) && (y'.state == SynRecv ==> y.state == SynRecv || y.state == Listen)
    && (y'.state == SynSent ==> y.state == SynSent)
  }

  lemma SendAdvances(y: Sock, chunk: Bytes)
    ensures Advances(y, SendData(y, chunk).0) && SendData(y, chunk).0.known == y.known
  {
    hide Add;
  }

  lemma FinAdvances(y: Sock, release: bool)
    requires CanFin(y)
    ensures Advances(y, SendFin(y, release).0) && SendFin(y, release).0.known == y.known
  {
    hide Add;
  }

  lemma LeaveAdvances(y: Sock)
    ensures Advances(y, Abandon(y)) && Abandon(y).known == y.known
  {
  }

  lemma TickAdvances(y: Sock)
    ensures Advances(y, Tick(y).0) && Tick(y).0.known == y.known
  {
    hide Resent;
  }

  lemma ActAdvances(y: Sock, a: Action)
    requires Allowed(y, a)
    ensures Advances(y, Act(y, a).0) && Act(y, a).0.known == y.known
  {
    hide Add, SendData, SendFin, Abandon, Tick, Resent, Advances;
    match a
    case Send(chunk) => SendAdvances(y, chunk);
    case Fin(release) => FinAdvances(y, release);
    case Leave => LeaveAdvances(y);
    case Expire => TickAdvances(y);
    case Take => TakeAdvances(y);
  }

  lemma TakeAdvances(y: Sock)
    requires |y.queue| > 0
    ensures Advances(y, TakeQueued(y)) && TakeQueued(y).known == y.known
  {
  }

  lemma UnknownPeer(x: Sock, y: Sock, sx: set<Segment>, sy: set<Segment>, seg: Segment)
    requires Both(x, y, sx, sy) && seg in sx
    ensures y.known || (seg.data == [] && !seg.fin)
  {
    assert SegmentOk(x, y, seg);
  }

  lemma ReceiveKeeps(x: Sock, y: Sock, sx: set<Segment>, sy: set<Segment>, seg: Segment)
    requires Both(x, y, sx, sy) && seg in sx && x.state != Listen && y.state != Listen
    ensures Both(x, Receive(y, seg).0, sx, Wire(sy, Receive(y, seg).1))
  {
    hide Both, General, Add;
    if y.state == SynSent {
      ConnectKeeps(x, y, sx, sy, seg);
    } else if y.state == SynRecv {
      AcceptKeeps(x, y, sx, sy, seg);
    } else {
      UnknownPeer(x, y, sx, sy, seg);
      GeneralKeeps(x, y, sx, sy, seg);
    }
  }

  lemma GeneralAdvances(y: Sock, seg: Segment)
    requires !Opening(y)
    ensures Advances(y, General(y, seg).0) && !Opening(General(y, seg).0)
  {
    hide Add, Geq, After, UnaPart, Acked, Answers, PureAck, Takes, TakesFin, AckPart, PayloadPart, FinPart, LastPart,
         Opening, Advances;
    AckAdvances(y, seg);
    var y1 := AckPart(y, seg);
    PayloadAdvances(y1, seg);
    var y2 := PayloadPart(y1, seg);
    FinPartAdvances(y2, seg);
    var y3 := FinPart(y2, seg);
    LastAdvances(y3, seg);
    AdvancesTrans(y, y1, y2);
    AdvancesTrans(y, y2, y3);
    AdvancesTrans(y, y3, LastPart(y3, seg));
  }

  lemma AdvancesTrans(a: Sock, b: Sock, c: Sock)
    requires Advances(a, b) && Advances(b, c)
    ensures Advances(a, c)
  {
  }

  lemma AckAdvances(y: Sock, seg: Segment)
    requires !Opening(y)
    ensures Advances(y, AckPart(y, seg)) && !Opening(AckPart(y, seg))
  {
    hide AckPart, Add, Geq;
    AckIsSameButTx(y, seg);
  }

  lemma PayloadAdvances(y: Sock, seg: Segment)
    requires !Opening(y)
    ensures Advances(y, PayloadPart(y, seg)) && !Opening(PayloadPart(y, seg))
  {
    hide Add;
  }

  lemma FinPartAdvances(y: Sock, seg: Segment)
    requires !Opening(y)
    ensures Advances(y, FinPart(y, seg)) && !Opening(FinPart(y, seg))
  {
    hide Add;
  }

  lemma LastAdvances(y: Sock, seg: Segment)
    requires !Opening(y)
    ensures Advances(y, LastPart(y, seg)) && !Opening(LastPart(y, seg))
  {
  }

  lemma ReceiveAdvances(y: Sock, seg: Segment)
    ensures Advances(y, Receive(y, seg).0)
  {
    hide Add, General, PureAck;
    if y.state == SynRecv && seg.ack && seg.ackno == y.sndNxt {
      var y1 := y.(sndUna := seg.ackno, state := Established);
      GeneralAdvances(y1, seg);
    } else if !Opening(y) {
      GeneralAdvances(y, seg);
    }
  }

  lemma ArriveKeeps(x: Sock, y: Sock, sx: set<Segment>, sy: set<Segment>, seg: Segment, iss: Seq32)
    requires Both(x, y, sx, sy) && seg in sx && x.state != Listen && x.state != SynRecv
    requires y.state == Listen ==> sy == {} && !x.known
    ensures Both(x, Arrive(y, seg, iss).0, sx, Wire(sy, Arrive(y, seg, iss).1))
    ensures Advances(y, Arrive(y, seg, iss).0) &&
            (Arrive(y, seg, iss).0.state == Listen ==> Arrive(y, seg, iss) == (y, None))
  {
    hide Both, Receive, Add;
    if y.state != Listen {
      ReceiveKeeps(x, y, sx, sy, seg);
      ReceiveAdvances(y, seg);
    } else if seg.syn && !seg.ack {
      ListenKeeps(x, y, sx, seg, iss);
      NothingYet(x, y, sx, sy);
      assert {} + {Arrive(y, seg, iss).1.value} == {Arrive(y, seg, iss).1.value};
    }
  }

  lemma NothingYet(x: Sock, y: Sock, sx: set<Segment>, sy: set<Segment>)
    requires Both(x, y, sx, sy) && y.state == Listen
    ensures y.sent == [] && y.accepted == [] && !y.known
  {
  }

  /** Every step of either endpoint or the network keeps the invariant. */
  lemma ApplyKeeps(s: System, step: Step)
    requires Inv(s) && Enabled(s, step)
    ensures Inv(Apply(s, step)) && Advances(s.client, Apply(s, step).client) &&
            Advances(s.server, Apply(s, step).server)
  {
    hide Direction, Receive, Arrive, Act, SendData;
    assert Both(s.client, s.server, s.fromClient, s.fromServer) && Both(s.server, s.client, s.fromServer, s.fromClient);
    match step
    case ToServer(seg, iss) =>
      ArriveKeeps(s.client, s.server, s.fromClient, s.fromServer, seg, iss);
    case ToClient(seg) =>
      ReceiveKeeps(s.server, s.client, s.fromServer, s.fromClient, seg);
      ReceiveAdvances(s.client, seg);
    case Client(a) =>
      ActKeeps(s.server, s.client, s.fromServer, s.fromClient, a);
      ActAdvances(s.client, a);
    case Server(a) =>
      ActKeeps(s.client, s.server, s.fromClient, s.fromServer, a);
      ActAdvances(s.server, a);
      ListenerSilent(s.client, s.server, s.fromClient, s.fromServer, a);
  }

  lemma ListenerSilent(x: Sock, y: Sock, sx: set<Segment>, sy: set<Segment>, a: Action)
    requires Both(x, y, sx, sy) && Allowed(y, a)
    ensures y.state == Listen ==> Act(y, a).1 == None
  {
    hide ReceiverOk, SegmentsOk, Add, Off;
  }

  lemma {:induction false} RunKeeps(s: System, steps: seq<Step>)
    requires Inv(s) && Runs(s, steps)
    ensures Inv(Final(s, steps)) && Advances(s.client, Final(s, steps).client) &&
            Advances(s.server, Final(s, steps).server)
    decreases |steps|
  {
    hide Inv, Enabled, Apply;
    if |steps| > 0 {
      ApplyKeeps(s, steps[0]);
      RunKeeps(Apply(s, steps[0]), steps[1..]);
    }
  }

  /** What a reader of `y` may conclude about the writer `x`. */
  ghost predicate Delivered(x: Sock, y: Sock) {
    && (x.txKind == TxData ==> |x.txData| <= |x.sent|)
    // what was accepted is a prefix of what was sent, and the reader sees it in order
    && y.accepted <= x.sent
    && (!y.orphan ==> y.dequeued + Flatten(y.queue) == y.accepted)
    // the end of the stream comes after every byte of it
    && (y.finRcvd ==> x.finSent && y.accepted == x.sent)
    && (y.finRcvd && !y.orphan && y.queue == [] ==> y.dequeued == x.sent)
    // a send that is over without an error has been accepted in full
    && (!x.err && x.txKind != TxData && !x.finSent ==> y.accepted == x.sent)
    // and one that is not over has all but the outstanding chunk accepted
    && (x.txKind == TxData ==> x.sent[..|x.sent| - |x.txData|] <= y.accepted)
  }

  lemma DirectionDelivered(x: Sock, y: Sock, sx: set<Segment>)
    requires Direction(x, y, sx)
    ensures Delivered(x, y)
  {
    hide SegmentsOk, Add;
    if x.txKind == TxData {
      assert |x.txData| <= |x.sent|;
    }
    FlattenNone();
  }

  /** Over every run, in both directions, the stream arrives in order and unaltered. */
  lemma StreamDelivered(clientIss: Seq32, serverIss: Seq32, steps: seq<Step>)
    requires Runs(Start(clientIss, serverIss), steps)
    ensures var s := Final(Start(clientIss, serverIss), steps);
            Delivered(s.client, s.server) && Delivered(s.server, s.client)
  {
    hide Start, Apply, Enabled, Delivered, Direction;
    StartInv(clientIss, serverIss);
    RunKeeps(Start(clientIss, serverIss), steps);
    var s := Final(Start(clientIss, serverIss), steps);
    DirectionDelivered(s.client, s.server, s.fromClient);
    DirectionDelivered(s.server, s.client, s.fromServer);
  }

  /**
   The wait at the end of tcp_sendmsg: from the state just after the client handed over its bytes, whatever
   happens next, if the wait ends with no error and no shutdown then the server has accepted every one of them.
   */
  lemma SendSucceeds(s: System, steps: seq<Step>)
    requires Inv(s) && Runs(s, steps)
    ensures var t := Final(s, steps);
            && (!t.client.err && t.client.txKind != TxData && !t.client.finSent ==> s.client.sent <= t.server.accepted)
            && (!t.server.err && t.server.txKind != TxData && !t.server.finSent ==> s.server.sent <= t.client.accepted)
  {
    hide Apply, Enabled, Direction;
    RunKeeps(s, steps);
    var t := Final(s, steps);
    DirectionDelivered(t.client, t.server, t.fromClient);
    DirectionDelivered(t.server, t.client, t.fromServer);
  }
}
