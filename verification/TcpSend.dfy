/** tcp_sendmsg as part of a whole run of the connection: success means that the peer has the bytes. */
module TcpSend {
  import opened TcpSpec
  import opened TcpProtocol
  import opened TcpRun
  import opened TcpSocket

  datatype Side = ClientEnd | ServerEnd

  function End(side: Side, s: System): Sock {
    if side == ClientEnd then s.client else s.server
  }

  function Peer(side: Side, s: System): Sock {
    if side == ClientEnd then s.server else s.client
  }

  /** What a step of a process or the clock at the sending end is to its socket; no one releases it during the call. */
  function ActMove(a: Action): Option<Move> {
    match a
    case Send(chunk) => Some(Chunk(chunk))
    case Expire => Some(Happens(TimerRuns))
    case Take => Some(Happens(Reads))
    case Fin(release) => if release then None else Some(Happens(ShutsDown))
    case Leave => None
  }

  /** The moves of one end in a step: none if the step belongs to the other end. */
  function StepMoves(side: Side, step: Step): Option<seq<Move>> {
    match step
    case ToServer(seg, _) => Some(if side == ServerEnd then [Happens(Arrives(seg))] else [])
    case ToClient(seg) => Some(if side == ClientEnd then [Happens(Arrives(seg))] else [])
    case Client(a) =>
      if side == ServerEnd then Some([]) else if ActMove(a).Some? then Some([ActMove(a).value]) else None
    case Server(a) =>
      if side == ClientEnd then Some([]) else if ActMove(a).Some? then Some([ActMove(a).value]) else None
  }

  /** `steps` interleaves exactly these moves of one end with anything the other end and the network do. */
  ghost predicate Interleaves(side: Side, steps: seq<Step>, moves: seq<Move>)
    decreases |steps|
  {
    if steps == [] then moves == []
    else
      var own := StepMoves(side, steps[0]);
      own.Some? && own.value <= moves && Interleaves(side, steps[1..], moves[|own.value|..])
  }

  /** A move at the front. */
  lemma {:induction false} PlayFirst(s: Sock, m: Move, moves: seq<Move>)
    ensures Play(s, [m] + moves) == Play(One(s, m), moves)
    decreases |moves|
  {
    hide One;
    var all := [m] + moves;
    if moves == [] {
      assert all[..0] == [];
    } else {
      assert all[..|all| - 1] == [m] + moves[..|moves| - 1];
      PlayFirst(s, m, moves[..|moves| - 1]);
    }
  }

  lemma ActIs(s: Sock, a: Action)
    requires Allowed(s, a) && ActMove(a).Some?
    ensures Act(s, a).0 == One(s, ActMove(a).value)
  {
    hide Add, Resent;
  }

  /** A step does to the sending end what its move says, and nothing if it has none. */
  lemma StepPlays(side: Side, s: System, step: Step)
    requires Enabled(s, step) && StepMoves(side, step).Some? && End(side, s).state != Listen
    ensures End(side, Apply(s, step)) == Play(End(side, s), StepMoves(side, step).value)
  {
    hide Receive, One, Act, Allowed, ActMove;
    var own := StepMoves(side, step).value;
    if own != [] {
      assert own == [own[0]] + [];
      PlayFirst(End(side, s), own[0], []);
    }
    match step
    case ToServer(seg, _) => OneArrives(End(side, s), seg);
    case ToClient(seg) => OneArrives(End(side, s), seg);
    case Client(a) =>
      if side == ClientEnd {
        ActIs(s.client, a);
      }
    case Server(a) =>
      if side == ServerEnd {
        ActIs(s.server, a);
      }
  }

  lemma OneArrives(s: Sock, seg: Segment)
    ensures One(s, Happens(Arrives(seg))) == Receive(s, seg).0
  {
    hide Receive;
  }

  /** In a run of the whole system, the sending end goes where its own moves lead. */
  lemma {:induction false} RunPlays(side: Side, s: System, steps: seq<Step>, moves: seq<Move>)
    requires Inv(s) && Runs(s, steps) && Interleaves(side, steps, moves) && End(side, s).state != Listen
    ensures End(side, Final(s, steps)) == Play(End(side, s), moves)
    decreases |steps|
  {
    hide Enabled, Apply, StepMoves, Inv, Play, End;
    if steps != [] {
      var own := StepMoves(side, steps[0]).value;
      StepPlays(side, s, steps[0]);
      StillOpen(side, s, steps[0]);
      RunPlays(side, Apply(s, steps[0]), steps[1..], moves[|own|..]);
      OwnIs(side, steps[0]);
      if own == [] {
        PlayNone(End(side, s));
        assert moves[0..] == moves;
      } else {
        assert moves == [own[0]] + moves[1..];
        PlayFirst(End(side, s), own[0], moves[1..]);
        assert own == [own[0]] + [];
        PlayFirst(End(side, s), own[0], []);
        PlayNone(One(End(side, s), own[0]));
      }
    } else {
      PlayNone(End(side, s));
    }
  }

  lemma StillOpen(side: Side, s: System, step: Step)
    requires Inv(s) && Enabled(s, step) && End(side, s).state != Listen
    ensures Inv(Apply(s, step)) && End(side, Apply(s, step)).state != Listen
  {
    hide Enabled, Apply, Inv;
    ApplyKeeps(s, step);
  }

  lemma OwnIs(side: Side, step: Step)
    ensures StepMoves(side, step).Some? ==> |StepMoves(side, step).value| <= 1
  {
  }

  lemma PlayNone(s: Sock)
    ensures Play(s, []) == s
  {
  }

  /** The run the call was part of, and what holds at its end. */
  ghost predicate Accepted(side: Side, s: System, steps: seq<Step>, sock: Sock, buf: Bytes, res: SendResult)
    requires Runs(s, steps)
  {
    var t := Final(s, steps);
    && End(side, t) == sock
    && (res == Sent && buf != [] && !sock.finSent ==> Peer(side, t).accepted == sock.sent == End(side, s).sent + buf)
  }

  lemma RunAccepts(side: Side, s: System, steps: seq<Step>, moves: seq<Move>, buf: Bytes, res: SendResult)
    requires Inv(s) && Runs(s, steps) && Interleaves(side, steps, moves) && End(side, s).state != Listen
    requires var x := Play(End(side, s), moves);
      res == Sent ==> Chunks(moves) == buf && (buf != [] ==> !x.err && x.txKind != TxData)
    ensures Accepted(side, s, steps, Play(End(side, s), moves), buf, res)
  {
    RunPlays(side, s, steps, moves);
    RunKeeps(s, steps);
    PlaySent(End(side, s), moves);
    var t := Final(s, steps);
    DirectionDelivered(t.client, t.server, t.fromClient);
    DirectionDelivered(t.server, t.client, t.fromServer);
    hide Runs, Final, Play, Chunks, Direction, Interleaves;
  }

  /**
   tcp_sendmsg by either end of a connection, while the network loses, duplicates and reorders and the peer does
   what it likes. Whatever run the call was part of, the socket ends up as the run says; and if the call succeeds
   and no one shut the socket down meanwhile, the peer has accepted exactly what was sent before and then the buffer.
   */
  method SendMsgAccepted(sock: TcpSock, buf: Bytes, mss: nat, env: seq<Event>, ghost side: Side, ghost s: System)
    returns (res: SendResult, ghost moves: seq<Move>)
    requires 0 < mss <= MSS && Inv(s) && sock.Abs() == End(side, s) && sock.state != Listen
    modifies sock
    ensures forall steps :: Runs(s, steps) && Interleaves(side, steps, moves) ==>
              Accepted(side, s, steps, sock.Abs(), buf, res)
  {
    hide *;
    SockState(sock);
    res, moves := sock.SendMsg(buf, mss, env);
    SockState(sock);
    forall steps | Runs(s, steps) && Interleaves(side, steps, moves)
      ensures Accepted(side, s, steps, sock.Abs(), buf, res)
    {
      RunAccepts(side, s, steps, moves, buf, res);
    }
  }

  lemma SockState(sock: TcpSock)
    ensures var x := sock.Abs(); x.state == sock.state && x.err == sock.err && x.txKind == sock.txKind
  {
  }

  /** The handshake, one byte sent, and a shutdown by another thread before the byte arrives. */
  function Overtaken(): seq<Step> {
    [ToServer(Segment(0, 0, true, false, false, []), 0), ToClient(Segment(0, 1, true, true, false, [])),
     Client(Send([7])), Client(Fin(false))]
  }

  /**
   The shutdown drops the byte that is outstanding, so the wait of tcp_sendmsg ends without an error while the peer
   has accepted nothing.
   */
  lemma ShutdownOvertakes()
    ensures Runs(Start(0, 0), Overtaken())
    ensures Interleaves(ClientEnd, Overtaken()[2..], [Chunk([7]), Happens(ShutsDown)])
    ensures var t := Final(Start(0, 0), Overtaken());
            !t.client.err && t.client.txKind == TxFin && t.client.sent == [7] && t.server.accepted == []
  {
    var s := Start(0, 0);
    var steps := Overtaken();
    var s1 := Apply(s, steps[0]);
    var s2 := Apply(s1, steps[1]);
    var s3 := Apply(s2, steps[2]);
    var s4 := Apply(s3, steps[3]);
    assert steps[1..] == [steps[1], steps[2], steps[3]];
    assert steps[1..][1..] == [steps[2], steps[3]];
    assert steps[1..][1..][1..] == [steps[3]];
    assert steps[1..][1..][1..][1..] == [];
    hide Apply, Enabled;
    assert Runs(s4, []) && Final(s4, []) == s4;
    assert Runs(s3, [steps[3]]) && Final(s3, [steps[3]]) == s4;
    assert Runs(s2, [steps[2], steps[3]]) && Final(s2, [steps[2], steps[3]]) == s4;
  }
}
