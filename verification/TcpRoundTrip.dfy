/**
 One undisturbed round trip settles what is outstanding (src/net/tcp.c): the handshake, a chunk of data, a FIN.
 */
module TcpRoundTrip {
  import opened TcpSpec
  import opened TcpProtocol
  import opened TcpRun
  import opened TcpProgress

  /** Offsets determine sequence numbers. */
  lemma OffBack(iss: Seq32, a: Seq32)
    ensures a == Add(iss, 1 + Off(iss, a))
  {
  }

  lemma AfterIs(iss: Seq32, a: Seq32, b: Seq32)
    requires Off(iss, a) < HALF && Off(iss, b) < HALF
    ensures After(a, b) <==> Off(iss, a) > Off(iss, b)
  {
  }

  // At the receiver.

  /** A socket still waiting for the last ACK of the handshake gets it from any acknowledgement its peer has sent. */
  lemma LastAckComes(x: Sock, y: Sock, sx: set<Segment>, sy: set<Segment>, seg: Segment)
    requires Both(x, y, sx, sy) && seg in sx && seg.ack && y.state == SynRecv
    ensures seg.ackno == y.sndNxt
  {
    AckBound(x, y, sx, sy, seg);
    OffBack(y.iss, seg.ackno);
  }

  /** The socket as the general path finds it. */
  function Entering(y: Sock, seg: Segment): Sock {
    if y.state == SynRecv then y.(sndUna := seg.ackno, state := Established) else y
  }

  lemma EntersGeneral(x: Sock, y: Sock, sx: set<Segment>, sy: set<Segment>, seg: Segment)
    requires Both(x, y, sx, sy) && seg in sx && seg.ack && !seg.syn && y.known
    ensures Receive(y, seg) == General(Entering(y, seg), seg)
  {
    hide General, Add, Off, SegmentsOk, Progress, TxOk;
    if y.state == SynRecv {
      LastAckComes(x, y, sx, sy, seg);
    }
  }

  /** Where the outstanding chunk stands in the receiver's sequence space. */
  lemma ChunkPlace(x: Sock, y: Sock, sx: set<Segment>, sy: set<Segment>)
    requires Both(x, y, sx, sy) && Whole(x, y, sx) && x.txKind == TxData
    ensures y.known && !y.finRcvd
    ensures x.txSeq == y.rcvNxt <==> |y.accepted| < |x.sent|
    ensures |y.accepted| < |x.sent| ==> y.accepted + x.txData == x.sent
    ensures |y.accepted| == |x.sent| ==> y.accepted == x.sent
  {
    hide SegmentsOk, Flatten, Progress, Placed, Carries;
    OffAdd(x.iss, |x.sent| - |x.txData|);
    OffAdd(x.iss, |y.accepted|);
    hide Off, Add;
    if |y.accepted| < |x.sent| {
      assert y.accepted == x.sent[..|x.sent| - |x.txData|];
      assert x.sent == x.sent[..|x.sent| - |x.txData|] + x.sent[|x.sent| - |x.txData|..];
    }
  }

  /** The general path on a segment that carries only data. */
  lemma GeneralOnData(y: Sock, seg: Segment)
    requires seg.data != [] && !seg.fin
    ensures var (y', r) := General(y, seg);
            && (seg.seqno != y.rcvNxt ==> r.Some? && y'.accepted == y.accepted)
            && (seg.seqno == y.rcvNxt && (y.orphan || |y.queue| < QUEUE_MAX) ==>
                  r.Some? && y'.accepted == y.accepted + seg.data)
            && (seg.seqno == y.rcvNxt && !(y.orphan || |y.queue| < QUEUE_MAX) ==>
                  r == None && y'.accepted == y.accepted)
  {
    hide AckPart, PayloadPart, FinPart, LastPart;
    AckReceived(y, seg);
    var y1 := AckPart(y, seg);
    PayloadReceived(y1, seg);
    var y2 := PayloadPart(y1, seg);
    FinReceived(y2, seg);
    LastReceived(FinPart(y2, seg), seg);
  }

  /** There is a reader with room, or none to wait for, or nothing new to take. */
  predicate Room(x: Sock, y: Sock) {
    y.orphan || |y.queue| < QUEUE_MAX || |y.accepted| == |x.sent|
  }

  /** The outstanding chunk arrives: with room it is taken and answered, without it is neither. */
  lemma ChunkArrives(x: Sock, y: Sock, sx: set<Segment>, sy: set<Segment>, seg: Segment)
    requires Both(x, y, sx, sy) && Whole(x, y, sx) && x.txKind == TxData && seg in sx && Carries(x, seg)
    ensures var (y', r) := Receive(y, seg);
            if Room(x, y) then y'.accepted == x.sent && r.Some? else y'.accepted == y.accepted && r == None
  {
    ChunkPlace(x, y, sx, sy);
    EntersGeneral(x, y, sx, sy, seg);
    assert 0 < |x.txData| && |y.accepted| <= |x.sent| by {
      hide SegmentsOk, Off, Add, Flatten;
    }
    hide Both, Whole, General, Receive;
    GeneralOnData(Entering(y, seg), seg);
  }

  // At the sender.

  /** An acknowledgement of everything sent. */
  lemma AllAcked(x: Sock, r: Segment)
    requires SenderOk(x) && r.ack && Off(x.iss, r.ackno) == Given(x) && (x.txKind == TxData || x.txKind == TxFin)
    ensures Acked(x, r.ackno) && r.ackno == x.sndNxt
  {
    OffBack(x.iss, r.ackno);
    if x.txKind == TxData {
      AddAdd(x.iss, 1 + |x.sent| - |x.txData|, |x.txData|);
      GeqIs(x.iss, r.ackno, |x.sent|);
    } else {
      AddAdd(x.iss, 1 + |x.sent|, 1);
      GeqIs(x.iss, r.ackno, |x.sent| + 1);
    }
  }

  lemma UnaCaughtUp(x: Sock, ackno: Seq32)
    requires ackno == x.sndNxt && Off(x.iss, x.sndUna) <= Off(x.iss, ackno) < HALF
    ensures UnaPart(x, ackno).sndUna == ackno
  {
    AfterIs(x.iss, ackno, x.sndUna);
    OffBack(x.iss, ackno);
    OffBack(x.iss, x.sndUna);
  }

  /** Nothing outstanding, and SND.UNA has caught up with SND.NXT. */
  predicate Quiet(x: Sock) {
    x.txKind == TxNone && x.sndUna == x.sndNxt
  }

  lemma AckSettles(x: Sock, r: Segment)
    requires SenderOk(x) && r.ack && Off(x.iss, r.ackno) == Given(x) && (x.txKind == TxData || x.txKind == TxFin)
    requires Off(x.iss, x.sndUna) <= Given(x)
    ensures Quiet(AckPart(x, r)) && AckPart(x, r).sndNxt == x.sndNxt == r.ackno && AckPart(x, r).state == x.state
  {
    AllAcked(x, r);
    UnaCaughtUp(x, r.ackno);
    hide Off, Add, Acked, After, SenderOk, Geq;
  }

  /** What an established socket does with a reply to everything it has sent. */
  lemma ReplySettles(x: Sock, r: Segment)
    requires SenderOk(x) && r.ack && Off(x.iss, r.ackno) == Given(x) && (x.txKind == TxData || x.txKind == TxFin)
    requires Off(x.iss, x.sndUna) <= Given(x) && r.data == [] && !r.fin
    ensures var x' := Receive(x, r).0;
            && Quiet(x') && x'.sndNxt == x.sndNxt
            && x'.state == if x.state == FinWait1 then FinWait2 else if x.state == LastAck then Closed else x.state
  {
    assert !Opening(x);
    AckSettles(x, r);
    hide AckPart, Off, SenderOk;
  }

  // The round trips.

  /** The outstanding chunk is delivered and the reply to it comes back. */
  lemma DataRoundTrip(x: Sock, y: Sock, sx: set<Segment>, sy: set<Segment>, seg: Segment)
    requires Both(x, y, sx, sy) && Whole(x, y, sx) && x.txKind == TxData && seg in sx && Carries(x, seg)
    requires x.state != Listen && y.state != Listen && Room(x, y)
    ensures var (y', r) := Receive(y, seg);
            && y'.accepted == x.sent && r.Some?
            && var x' := Receive(x, r.value).0;
            Quiet(x') && x'.sndNxt == x.sndNxt && (CanFin(x) ==> x'.state == x.state)
  {
    ChunkArrives(x, y, sx, sy, seg);
    ReplyTaken(x, y, sx, sy, seg);
    ReceiveReceived(y, seg);
    ReceiveKeeps(x, y, sx, sy, seg);
    var y', r := Receive(y, seg).0, Receive(y, seg).1.value;
    SenderPlace(x, y, sx, sy);
    NoFinYet(x, y', sx, Wire(sy, Receive(y, seg).1));
    assert SenderOk(x) by { hide Receive, SegmentsOk, ReceiverOk, Progress; }
    hide Receive, Both, SenderOk, Whole, Off;
    ReplySettles(x, r);
  }

  lemma SenderPlace(x: Sock, y: Sock, sx: set<Segment>, sy: set<Segment>)
    requires Both(x, y, sx, sy) && Whole(x, y, sx) && (x.txKind == TxData || x.txKind == TxFin)
    ensures Off(x.iss, x.sndUna) <= Taken(y) <= Given(x)
  {
    hide SegmentsOk, Off, Add, Flatten, Placed, Carries;
  }

  lemma NoFinYet(x: Sock, y: Sock, sx: set<Segment>, sy: set<Segment>)
    requires Both(x, y, sx, sy) && x.txKind == TxData && y.accepted == x.sent
    ensures Taken(y) == Given(x)
  {
    hide SegmentsOk, Off, Add, Flatten;
  }

  /** The general path on a FIN. */
  lemma GeneralOnFin(y: Sock, seg: Segment)
    requires seg.data == [] && seg.fin
    ensures var (y', r) := General(y, seg);
            && r.Some? && y'.accepted == y.accepted
            && (seg.seqno == y.rcvNxt ==>
                  && y'.finRcvd && y'.eof
                  && (y.state == Established ==> y'.state == CloseWait)
                  && (y.state == FinWait1 || y.state == FinWait2 ==> y'.state == TimeWait))
            && (y.finRcvd ==> y'.finRcvd)
  {
    hide AckPart;
    AckReceived(y, seg);
  }

  /** Where a FIN stands once everything before it has arrived. */
  lemma FinPlace(x: Sock, y: Sock, sx: set<Segment>, sy: set<Segment>)
    requires Both(x, y, sx, sy) && x.txKind == TxFin && |y.accepted| == |x.sent|
    ensures y.known && y.accepted == x.sent && (!y.finRcvd ==> x.txSeq == y.rcvNxt)
  {
    hide SegmentsOk, Flatten, Progress, Off, Add;
  }

  lemma FinArrives(x: Sock, y: Sock, sx: set<Segment>, sy: set<Segment>, seg: Segment)
    requires Both(x, y, sx, sy) && x.txKind == TxFin && seg in sx && Carries(x, seg) && |y.accepted| == |x.sent|
    ensures var (y', r) := Receive(y, seg);
            && y'.finRcvd && y'.accepted == x.sent && r.Some?
            && (!y.finRcvd ==>
                  && y'.eof
                  && (y.state == Established || y.state == SynRecv ==> y'.state == CloseWait)
                  && (y.state == FinWait1 || y.state == FinWait2 ==> y'.state == TimeWait))
  {
    FinPlace(x, y, sx, sy);
    EntersGeneral(x, y, sx, sy, seg);
    hide Both, General, Receive;
    GeneralOnFin(Entering(y, seg), seg);
  }

  /** The FIN is delivered after everything before it, and the reply to it comes back. */
  lemma FinRoundTrip(x: Sock, y: Sock, sx: set<Segment>, sy: set<Segment>, seg: Segment)
    requires Both(x, y, sx, sy) && Whole(x, y, sx) && x.txKind == TxFin && seg in sx && Carries(x, seg)
    requires x.state != Listen && y.state != Listen && |y.accepted| == |x.sent|
    ensures var (y', r) := Receive(y, seg);
            && y'.finRcvd && y'.accepted == x.sent && r.Some?
            && (!y.finRcvd ==>
                  && y'.eof
                  && (y.state == Established || y.state == SynRecv ==> y'.state == CloseWait)
                  && (y.state == FinWait1 || y.state == FinWait2 ==> y'.state == TimeWait))
            && var x' := Receive(x, r.value).0;
            && Quiet(x') && x'.sndNxt == x.sndNxt
            && (x.state == FinWait1 ==> x'.state == FinWait2) && (x.state == LastAck ==> x'.state == Closed)
  {
    FinArrives(x, y, sx, sy, seg);
    ReplyTaken(x, y, sx, sy, seg);
    ReceiveReceived(y, seg);
    ReceiveKeeps(x, y, sx, sy, seg);
    SenderPlace(x, y, sx, sy);
    assert SenderOk(x) && x.finSent by { hide Receive, SegmentsOk, ReceiverOk, Progress; }
    hide Receive, Both, SenderOk, Whole, Off;
    ReplySettles(x, Receive(y, seg).1.value);
  }

  // Over every run.

  lemma {:induction false} RunsAppend(s: System, steps: seq<Step>, more: seq<Step>)
    requires Runs(s, steps) && Runs(Final(s, steps), more)
    ensures Runs(s, steps + more) && Final(s, steps + more) == Final(Final(s, steps), more)
    decreases |steps|
  {
    hide Enabled, Apply;
    if |steps| == 0 {
      assert steps + more == more;
    } else {
      RunsAppend(Apply(s, steps[0]), steps[1..], more);
      assert (steps + more)[1..] == steps[1..] + more;
    }
  }

  lemma TwoSteps(s: System, a: Step, b: Step)
    requires Enabled(s, a) && Enabled(Apply(s, a), b)
    ensures Runs(s, [a, b]) && Final(s, [a, b]) == Apply(Apply(s, a), b)
  {
    hide Enabled, Apply;
    var t := Apply(s, a);
    assert [a, b][1..] == [b];
    assert [b][1..] == [];
    assert Runs(t, [b]) && Final(t, [b]) == Apply(t, b) by {
      assert Runs(Apply(t, b), []) && Final(Apply(t, b), []) == Apply(t, b);
    }
  }

  /**
   Whatever has been lost or reordered so far, a client with data outstanding and a server with room are two
   deliveries away from a finished send: the server has every byte, and the client nothing outstanding.
   */
  lemma ClientSendCompletes(clientIss: Seq32, serverIss: Seq32, steps: seq<Step>) returns (more: seq<Step>)
    requires Runs(Start(clientIss, serverIss), steps)
    requires var s := Final(Start(clientIss, serverIss), steps);
             s.client.txKind == TxData && Room(s.client, s.server)
    ensures |more| == 2 && more[0].ToServer? && more[1].ToClient?
    ensures Runs(Start(clientIss, serverIss), steps + more)
    ensures var s := Final(Start(clientIss, serverIss), steps);
            var s' := Final(Start(clientIss, serverIss), steps + more);
            s'.server.accepted == s.client.sent && s'.client.sent == s.client.sent && Quiet(s'.client)
  {
    Reached(clientIss, serverIss, steps);
    var s0 := Start(clientIss, serverIss);
    var s := Final(s0, steps);
    ServerKnows(s);
    var seg :| seg in s.fromClient && Carries(s.client, seg);
    hide Start, Final, Runs, Direction, Receive, Carries, Whole, Quiet, Room;
    DataRoundTrip(s.client, s.server, s.fromClient, s.fromServer, seg);
    ArrivesAs(s.server, seg, 0);
    hide Arrive;
    var t := Apply(s, ToServer(seg, 0));
    var reply := Receive(s.server, seg).1.value;
    assert reply in t.fromServer && t.client == s.client;
    ReceiveReceived(s.client, reply);
    more := [ToServer(seg, 0), ToClient(reply)];
    TwoSteps(s, ToServer(seg, 0), ToClient(reply));
    RunsAppend(s0, steps, more);
  }

  lemma ServerKnows(s: System)
    requires Inv(s) && s.client.txKind == TxData
    ensures s.server.state != Listen
  {
    hide SegmentsOk, Off, Add, Flatten;
  }

  /** Three deliveries open the connection, whatever the initial sequence numbers. */
  lemma HandshakeCompletes(clientIss: Seq32, serverIss: Seq32, iss: Seq32) returns (steps: seq<Step>)
    ensures |steps| == 3 && steps[0].ToServer? && steps[0].iss == iss && steps[1].ToClient? && steps[2].ToServer?
    ensures Runs(Start(clientIss, serverIss), steps)
    ensures var s := Final(Start(clientIss, serverIss), steps);
            && s.client.state == Established && s.server.state == Established
            && s.client.iss == clientIss && s.server.iss == iss && Quiet(s.client) && Quiet(s.server)
            && s.client.rcvNxt == s.server.sndNxt && s.server.rcvNxt == s.client.sndNxt
  {
    var s0 := Start(clientIss, serverIss);
    var syn := Segment(clientIss, 0, true, false, false, []);
    var a := ToServer(syn, iss);
    var s1 := Apply(s0, a);
    var b := ToClient(Segment(iss, Add(clientIss, 1), true, true, false, []));
    var s2 := Apply(s1, b);
    var c := ToServer(PureAck(s2.client), 0);
    var s3 := Apply(s2, c);
    steps := [a, b, c];
    hide Add;
    assert [a] + [b, c] == steps;
    TwoSteps(s1, b, c);
    OneStep(s0, a);
    RunsAppend(s0, [a], [b, c]);
  }

  lemma OneStep(s: System, a: Step)
    requires Enabled(s, a)
    ensures Runs(s, [a]) && Final(s, [a]) == Apply(s, a)
  {
    hide Enabled, Apply;
    assert [a][1..] == [];
    assert Runs(Apply(s, a), []) && Final(Apply(s, a), []) == Apply(s, a);
  }

  /** The client closes first: its FIN and the reply to it. */
  lemma ClientCloses(s: System) returns (steps: seq<Step>)
    requires Inv(s) && Wholes(s) && s.client.state == Established && s.server.state == Established
    requires |s.server.accepted| == |s.client.sent|
    ensures |steps| == 3 && steps[0] == Client(Fin(false)) && Runs(s, steps)
    ensures var t := Final(s, steps);
            && t.client.state == FinWait2 && t.server.state == CloseWait && Quiet(t.client)
            && t.server.finRcvd && t.server.accepted == s.client.sent
            && t.server.sent == s.server.sent && t.client.accepted == s.client.accepted
  {
    var a := Client(Fin(false));
    var s1 := Apply(s, a);
    var (c1, fin) := SendFin(s.client, false);
    assert s1 == s.(client := c1, fromClient := s.fromClient + {fin});
    assert Carries(c1, fin) && c1.txKind == TxFin && c1.state == FinWait1 && c1.sent == s.client.sent &&
           c1.accepted == s.client.accepted;
    ApplyKeeps(s, a);
    ApplyWhole(s, a);
    assert !s.server.finRcvd by { hide SegmentsOk, Off, Add, Flatten; }
    hide Direction, Receive, SendFin, Carries, Whole, Quiet;
    var sx := s1.fromClient;
    assert Both(c1, s1.server, sx, s1.fromServer);
    FinRoundTrip(c1, s1.server, sx, s1.fromServer, fin);
    var b := ToServer(fin, 0);
    ArrivesAs(s1.server, fin, 0);
    hide Arrive;
    var reply := Receive(s1.server, fin).1.value;
    ReceiveReceived(s1.server, fin);
    ReceiveReceived(c1, reply);
    var d := ToClient(reply);
    steps := [a, b, d];
    OneStep(s, a);
    TwoSteps(s1, b, d);
    assert [a] + [b, d] == steps;
    RunsAppend(s, [a], [b, d]);
    hide Runs, Final, Apply, Enabled, Takes;
  }

  /** The server closes second: its FIN takes the client to TIME_WAIT, and the reply closes it. */
  lemma ServerCloses(s: System) returns (steps: seq<Step>)
    requires Inv(s) && Wholes(s) && s.client.state == FinWait2 && s.server.state == CloseWait
    requires |s.client.accepted| == |s.server.sent|
    ensures |steps| == 3 && steps[0] == Server(Fin(false)) && Runs(s, steps)
    ensures var t := Final(s, steps);
            && t.client.state == TimeWait && t.server.state == Closed && Quiet(t.server)
            && t.client.finRcvd && t.client.accepted == s.server.sent && t.server.accepted == s.server.accepted
            && (s.server.finRcvd ==> t.server.finRcvd)
  {
    var a := Server(Fin(false));
    var s1 := Apply(s, a);
    var (v1, fin) := SendFin(s.server, false);
    assert s1 == s.(server := v1, fromServer := s.fromServer + {fin});
    assert Carries(v1, fin) && v1.txKind == TxFin && v1.state == LastAck && v1.sent == s.server.sent &&
           v1.accepted == s.server.accepted && v1.finRcvd == s.server.finRcvd;
    ApplyKeeps(s, a);
    ApplyWhole(s, a);
    assert !s.client.finRcvd by { hide SegmentsOk, Off, Add, Flatten; }
    hide Direction, Receive, SendFin, Carries, Whole, Quiet;
    assert Both(v1, s1.client, s1.fromServer, s1.fromClient);
    FinRoundTrip(v1, s1.client, s1.fromServer, s1.fromClient, fin);
    var b := ToClient(fin);
    var reply := Receive(s1.client, fin).1.value;
    var d := ToServer(reply, 0);
    ArrivesAs(v1, reply, 0);
    hide Arrive;
    ReceiveReceived(s1.client, fin);
    ReceiveReceived(v1, reply);
    steps := [a, b, d];
    OneStep(s, a);
    TwoSteps(s1, b, d);
    assert [a] + [b, d] == steps;
    RunsAppend(s, [a], [b, d]);
    hide Runs, Final, Apply, Enabled, Takes;
  }

  /** A connection on which both sides have said all they will closes in six steps, with every byte delivered. */
  lemma CloseCompletes(clientIss: Seq32, serverIss: Seq32, steps: seq<Step>) returns (more: seq<Step>)
    requires Runs(Start(clientIss, serverIss), steps)
    requires var s := Final(Start(clientIss, serverIss), steps);
             && s.client.state == Established && s.server.state == Established && !s.client.err && !s.server.err
             && s.client.txKind == TxNone && s.server.txKind == TxNone
    ensures |more| == 6 && Runs(Start(clientIss, serverIss), steps + more)
    ensures var s := Final(Start(clientIss, serverIss), steps);
            var t := Final(Start(clientIss, serverIss), steps + more);
            && t.client.state == TimeWait && t.server.state == Closed && t.client.finRcvd && t.server.finRcvd
            && t.client.accepted == s.server.sent && t.server.accepted == s.client.sent
  {
    Reached(clientIss, serverIss, steps);
    var s0 := Start(clientIss, serverIss);
    var s := Final(s0, steps);
    AllArrived(s);
    hide *;
    var first := ClientCloses(s);
    var u := Final(s, first);
    RunWhole(s, first);
    var second := ServerCloses(u);
    more := first + second;
    RunsAppend(s, first, second);
    RunsAppend(s0, steps, more);
  }

  lemma AllArrived(s: System)
    requires Inv(s) && CanFin(s.client) && CanFin(s.server) && !s.client.err && !s.server.err
    requires s.client.txKind == TxNone && s.server.txKind == TxNone
    ensures |s.server.accepted| == |s.client.sent| && |s.client.accepted| == |s.server.sent|
  {
    hide SegmentsOk, Off, Add, Flatten, TxOk;
  }

  // With no reply at all.

  predicate Again(s: Sock, seg: Segment) {
    Carries(s, seg) && (s.txKind != TxSyn ==> seg.ackno == s.rcvNxt)
  }

  lemma ResentAgain(s: Sock, n: nat)
    requires s.txKind != TxNone && (s.txKind == TxSyn ==> s.txSeq == s.iss)
    ensures Again(s, Resent(s.(retries := n)))
  {
  }

  ghost function Ticks(s: Sock, n: nat): Sock {
    if n == 0 then s else Tick(Ticks(s, n - 1)).0
  }

  lemma TickIs(s: Sock)
    ensures s.txKind == TxNone ==> Tick(s) == (s, None)
    ensures s.txKind != TxNone && s.retries < 5 ==> Tick(s) == (s.(retries := s.retries + 1), Some(Resent(s)))
    ensures s.txKind != TxNone && s.retries >= 5 ==> Tick(s).1 == None && GivenUp(Tick(s).0)
  {
    hide Resent;
  }

  predicate GivenUp(s: Sock) {
    s.err && s.eof && s.state == Closed && s.txKind == TxNone
  }

  lemma {:induction false} TicksRetry(s: Sock, n: nat)
    requires s.txKind != TxNone && s.retries == 0 && n <= 5
    ensures Ticks(s, n) == s.(retries := n)
  {
    hide Tick, Resent;
    if n > 0 {
      TicksRetry(s, n - 1);
      TickIs(s.(retries := n - 1));
    }
  }

  lemma {:induction false} TicksGone(s: Sock, n: nat)
    requires s.txKind != TxNone && s.retries == 0 && n > 5
    ensures GivenUp(Ticks(s, n))
  {
    hide Tick, Resent;
    TickIs(Ticks(s, n - 1));
    if n == 6 {
      TicksRetry(s, 5);
    } else {
      TicksGone(s, n - 1);
    }
  }

  /** Five expiries each send what is outstanding again; the sixth gives up, and nothing is sent after that. */
  lemma GivesUp(s: Sock, n: nat)
    requires s.txKind != TxNone && s.retries == 0 && (s.txKind == TxSyn ==> s.txSeq == s.iss)
    ensures n <= 5 ==> Ticks(s, n) == s.(retries := n)
    ensures n < 5 ==> Tick(Ticks(s, n)).1.Some? && Again(s, Tick(Ticks(s, n)).1.value)
    ensures n > 5 ==> GivenUp(Ticks(s, n))
    ensures n >= 5 ==> Tick(Ticks(s, n)).1 == None
  {
    hide Tick, Resent, Again, Ticks;
    TickIs(Ticks(s, n));
    if n <= 5 {
      TicksRetry(s, n);
      ResentAgain(s, n);
    } else {
      TicksGone(s, n);
    }
  }
}
