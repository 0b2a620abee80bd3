/**
 The socket of src/net/tcp.c as the code updates it, field by field under the lock. Every operation is
 proved to be the step that the connection model uses.
 */
module TcpSocket {
  import opened TcpSpec

  /** What happens to a socket while its owner sleeps in task_sleep; other threads may read from it or shut it down. */
  datatype Event = Arrives(seg: Segment) | TimerRuns | Reads | ShutsDown

  datatype SendResult = Sent | Failed | NotConnected | StillWaiting

  datatype Received = Data(bytes: Bytes) | EndOfFile | Error | Again

  /** One step of a socket while tcp_sendmsg runs: its own next chunk, or an event it slept through. */
  datatype Move = Chunk(bytes: Bytes) | Happens(event: Event)

  function One(s: Sock, m: Move): Sock {
    match m
    case Chunk(b) => SendData(s, b).0
    case Happens(Arrives(seg)) => Receive(s, seg).0
    case Happens(TimerRuns) => Tick(s).0
    case Happens(Reads) => if |s.queue| > 0 then TakeQueued(s) else s
    case Happens(ShutsDown) => if CanFin(s) then SendFin(s, false).0 else s
  }

  ghost function Play(s: Sock, moves: seq<Move>): Sock {
    if |moves| == 0 then s else One(Play(s, moves[..|moves| - 1]), moves[|moves| - 1])
  }

  /** Every chunk was sent by a socket with nothing outstanding, in a state that may send. */
  ghost predicate Legal(s: Sock, moves: seq<Move>, mss: nat) {
    |moves| > 0 ==>
      var before, m := moves[..|moves| - 1], moves[|moves| - 1];
      Legal(s, before, mss) && (m.Chunk? ==> CanSend(Play(s, before)) && 0 < |m.bytes| <= mss)
  }

  ghost function Chunks(moves: seq<Move>): Bytes {
    if |moves| == 0 then []
    else Chunks(moves[..|moves| - 1]) + if moves[|moves| - 1].Chunk? then moves[|moves| - 1].bytes else []
  }

  ghost function Events(moves: seq<Move>): seq<Event> {
    if |moves| == 0 then []
    else Events(moves[..|moves| - 1]) + if moves[|moves| - 1].Happens? then [moves[|moves| - 1].event] else []
  }

  /** One more move at the end. */
  lemma Played(s: Sock, moves: seq<Move>, m: Move, mss: nat)
    ensures Play(s, moves + [m]) == One(Play(s, moves), m)
    ensures Chunks(moves + [m]) == Chunks(moves) + if m.Chunk? then m.bytes else []
    ensures Events(moves + [m]) == Events(moves) + if m.Happens? then [m.event] else []
    ensures Legal(s, moves + [m], mss) <==>
            Legal(s, moves, mss) && (m.Chunk? ==> CanSend(Play(s, moves)) && 0 < |m.bytes| <= mss)
  {
    hide One;
    var all := moves + [m];
    assert all[..|all| - 1] == moves;
  }

  /** `s` is where `moves` lead from `start`; they sent `done` and slept through `past`. */
  ghost predicate Going(start: Sock, s: Sock, moves: seq<Move>, mss: nat, done: Bytes, past: seq<Event>) {
    s == Play(start, moves) && Legal(start, moves, mss) && Chunks(moves) == done && Events(moves) == past
  }

  lemma GoingFirst(start: Sock, mss: nat, buf: Bytes, env: seq<Event>)
    ensures Going(start, start, [], mss, buf[..0], env[..0])
  {
  }

  lemma GoingEvent(start: Sock, s: Sock, s': Sock, moves: seq<Move>, mss: nat, done: Bytes, env: seq<Event>, k: nat)
    requires k < |env| && Going(start, s, moves, mss, done, env[..k]) && s' == One(s, Happens(env[k]))
    ensures Going(start, s', moves + [Happens(env[k])], mss, done, env[..k + 1])
  {
    hide One;
    Played(start, moves, Happens(env[k]), mss);
    assert env[..k + 1] == env[..k] + [env[k]];
    assert done + [] == done;
  }

  lemma GoingChunk(start: Sock, s: Sock, s': Sock, moves: seq<Move>, mss: nat, buf: Bytes, off: nat, n: nat,
                   past: seq<Event>)
    requires off + n <= |buf| && 0 < n <= mss && CanSend(s)
    requires Going(start, s, moves, mss, buf[..off], past) && s' == SendData(s, buf[off..off + n]).0
    ensures Going(start, s', moves + [Chunk(buf[off..off + n])], mss, buf[..off + n], past)
  {
    hide SendData;
    Played(start, moves, Chunk(buf[off..off + n]), mss);
    assert buf[..off + n] == buf[..off] + buf[off..off + n];
    assert past + [] == past;
  }

  lemma GoingIs(start: Sock, s: Sock, moves: seq<Move>, mss: nat, buf: Bytes, off: nat, env: seq<Event>, k: nat)
    requires off <= |buf| && k <= |env| && Going(start, s, moves, mss, buf[..off], env[..k])
    ensures s == Play(start, moves) && Legal(start, moves, mss) && Chunks(moves) <= buf && Events(moves) <= env
    ensures off == |buf| ==> Chunks(moves) == buf
    ensures off < |buf| ==> Chunks(moves) < buf
    ensures k == |env| ==> Events(moves) == env
  {
    hide Play, Legal, Chunks, Events;
  }

  class TcpSock {
    var state: State
    var iss: Seq32
    var sndUna: Seq32
    var sndNxt: Seq32
    var rcvNxt: Seq32
    var txKind: TxKind
    var txData: Bytes
    var txSeq: Seq32
    var txRetries: nat
    var orphan: bool
    var err: bool
    var eof: bool
    var rcvQueue: seq<Bytes>

    ghost var sent: Bytes
    ghost var accepted: Bytes
    ghost var dequeued: Bytes
    ghost var known: bool
    ghost var finSent: bool
    ghost var finRcvd: bool

    ghost function Abs(): Sock
      reads this
    {
      Sock(state, iss, sndUna, sndNxt, rcvNxt, txKind, txData, txSeq, txRetries, orphan, err, eof, rcvQueue,
           sent, accepted, dequeued, known, finSent, finRcvd)
    }

    method ClearTxLocked()
      modifies `txData, `txKind, `txRetries
      ensures Abs() == ClearTx(old(Abs()))
    {
      txData := [];
      txKind := TxNone;
      txRetries := 0;
    }

    /** What has to be acknowledged from now on. */
    method ArmTx(kind: TxKind, data: Bytes, seqno: Seq32)
      modifies `txData, `txKind, `txRetries, `txSeq
      ensures Abs() == old(Abs()).(txKind := kind, txData := data, txSeq := seqno, retries := 0)
    {
      txKind := kind;
      txData := data;
      txSeq := seqno;
      txRetries := 0;
    }

    /** tcp_set_error_locked. */
    method SetErrorLocked()
      modifies `err, `state, `eof, `txData, `txKind, `txRetries
      ensures Abs() == ClearTx(old(Abs()).(err := true, state := Closed, eof := true))
    {
      err, state, eof := true, Closed, true;
      ClearTxLocked();
    }

    /** The acknowledgement part of tcp_rcv. */
    method RcvAck(ackno: Seq32)
      modifies `sndUna, `txData, `txKind, `txRetries
      ensures Abs() == if Acked(old(Abs()), ackno) then ClearTx(UnaPart(old(Abs()), ackno))
              else UnaPart(old(Abs()), ackno)
    {
      hide Add, After, Geq;
      if After(ackno, sndUna) && !After(ackno, sndNxt) {
        sndUna := ackno;
      }
      if txKind == TxData && Geq(ackno, Add(txSeq, |txData|)) {
        ClearTxLocked();
      }
      if txKind == TxFin && Geq(ackno, Add(txSeq, 1)) {
        ClearTxLocked();
      }
    }

    /** The payload part of tcp_rcv; says whether an ACK is owed. */
    method RcvPayload(seg: Segment) returns (needTx: bool)
      modifies `rcvNxt, `accepted, `rcvQueue
      ensures Abs() == PayloadPart(old(Abs()), seg)
      ensures needTx <==> |seg.data| > 0 && (seg.seqno != old(rcvNxt) || Takes(old(Abs()), seg))
    {
      hide Add;
      needTx := false;
      if |seg.data| > 0 {
        if seg.seqno == rcvNxt {
          if orphan {
            rcvNxt := Add(rcvNxt, |seg.data|);
            accepted := accepted + seg.data;
            needTx := true;
          } else if |rcvQueue| < QUEUE_MAX {
            rcvQueue := rcvQueue + [seg.data];
            rcvNxt := Add(rcvNxt, |seg.data|);
            accepted := accepted + seg.data;
            needTx := true;
          }
        } else {
          needTx := true;
        }
      }
    }

    /** The FIN part of tcp_rcv. */
    method RcvFin(seg: Segment)
      requires seg.fin
      modifies `rcvNxt, `state, `eof, `finRcvd
      ensures Abs() == FinPart(old(Abs()), seg)
    {
      hide Add;
      if Add(seg.seqno, |seg.data|) == rcvNxt {
        rcvNxt := Add(rcvNxt, 1);
        match state {
          case Established => state := CloseWait;
          case FinWait1 => state := TimeWait;
          case FinWait2 => state := TimeWait;
          case _ =>
        }
        eof := true;
        finRcvd := true;
      }
    }

    /** tcp_rcv from the ACK processing on. */
    method RcvSynchronised(seg: Segment) returns (reply: Option<Segment>)
      modifies this
      ensures (Abs(), reply) == General(old(Abs()), seg)
    {
      hide Acked, UnaPart, PayloadPart, FinPart, Takes, Add;
      if seg.ack {
        RcvAck(seg.ackno);
      }
      assert Abs() == AckPart(old(Abs()), seg);
      var needTx := RcvPayload(seg);
      if seg.fin {
        RcvFin(seg);
        needTx := true;
      } else {
        NoFin(Abs(), seg);
      }
      reply := if needTx then Some(Segment(sndNxt, rcvNxt, false, true, false, [])) else None;
      if state == FinWait1 && seg.ack && seg.ackno == sndNxt {
        state := FinWait2;
      }
      if state == LastAck && seg.ack && seg.ackno == sndNxt {
        state := Closed;
      }
    }

    /** tcp_rcv in the state after tcp_connect. */
    method RcvSynSent(seg: Segment) returns (reply: Option<Segment>)
      requires state == SynSent
      modifies this
      ensures (Abs(), reply) == Receive(old(Abs()), seg)
    {
      hide Add, General;
      reply := None;
      if seg.syn && seg.ack && seg.ackno == sndNxt {
        rcvNxt := Add(seg.seqno, 1);
        sndUna := seg.ackno;
        sndNxt := seg.ackno;
        state := Established;
        known := true;
        ClearTxLocked();
        reply := Some(Segment(sndNxt, rcvNxt, false, true, false, []));
      }
    }

    /** tcp_rcv for a child of a listener that is not established yet. */
    method RcvSynRecv(seg: Segment) returns (reply: Option<Segment>)
      requires state == SynRecv
      modifies this
      ensures (Abs(), reply) == Receive(old(Abs()), seg)
    {
      hide Add, General;
      reply := None;
      if seg.syn && !seg.ack {
        reply := Some(Segment(iss, rcvNxt, true, true, false, []));
      } else if seg.ack && seg.ackno == sndNxt {
        sndUna := seg.ackno;
        state := Established;
        reply := RcvSynchronised(seg);
      }
    }

    /** tcp_rcv for a segment that belongs to this socket; the reply goes out after the lock is dropped. */
    method Rcv(seg: Segment) returns (reply: Option<Segment>)
      modifies this
      ensures (Abs(), reply) == Receive(old(Abs()), seg)
    {
      hide Add, General;
      reply := None;
      if state == SynSent {
        reply := RcvSynSent(seg);
      } else if state == SynRecv {
        reply := RcvSynRecv(seg);
      } else if state != Listen {
        reply := RcvSynchronised(seg);
      }
    }

    /** The FIN that tcp_shutdown and tcp_release send. */
    method FinLocked() returns (fin: Segment)
      requires CanFin(Abs())
      modifies `txData, `txKind, `txRetries, `txSeq, `sndNxt, `finSent, `state
      ensures (Abs(), fin) == SendFin(old(Abs()), false)
    {
      hide Add;
      fin := Segment(sndNxt, rcvNxt, false, true, true, []);
      ArmTx(TxFin, [], sndNxt);
      sndNxt := Add(sndNxt, 1);
      finSent := true;
      state := if state == CloseWait then LastAck else FinWait1;
    }

    /** The sending side of tcp_shutdown. */
    method Shutdown() returns (fin: Option<Segment>)
      modifies this
      ensures CanFin(old(Abs())) ==> fin.Some? && (Abs(), fin.value) == SendFin(old(Abs()), false)
      ensures !CanFin(old(Abs())) ==> fin == None && Abs() == old(Abs())
    {
      hide SendFin;
      fin := None;
      if state == Established || state == CloseWait {
        var f := FinLocked();
        fin := Some(f);
      }
    }

    /** tcp_release of a connection that has to linger: no reader is left, and what was queued is dropped. */
    method Release() returns (fin: Option<Segment>)
      modifies this
      ensures CanFin(old(Abs())) ==> fin.Some? && (Abs(), fin.value) == SendFin(old(Abs()), true)
      ensures !CanFin(old(Abs())) ==> fin == None && Abs() == Abandon(old(Abs()))
    {
      hide Add;
      fin := None;
      if state == Established || state == CloseWait {
        var f := FinLocked();
        fin := Some(f);
        orphan, rcvQueue := true, [];
      } else if state == FinWait1 || state == FinWait2 || state == LastAck || state == TimeWait {
        orphan, rcvQueue := true, [];
      }
    }

    /** tcp_recvmsg of another thread takes a payload, if there is one. */
    method Dequeue() returns (out: Option<Segment>)
      modifies `rcvQueue, `dequeued
      ensures Abs() == One(old(Abs()), Happens(Reads)) && out == None
    {
      out := None;
      if rcvQueue != [] {
        dequeued := dequeued + rcvQueue[0];
        rcvQueue := rcvQueue[1..];
      }
    }

    /** What task_sleep lets happen. */
    method Sleep(e: Event) returns (out: Option<Segment>)
      modifies this
      ensures Abs() == One(old(Abs()), Happens(e))
    {
      hide Receive, Tick, SendFin, CanFin;
      match e
      case Arrives(seg) => out := Rcv(seg);
      case TimerRuns => out := TimerTick();
      case Reads => out := Dequeue();
      case ShutsDown => out := Shutdown();
    }

    /** The section of tcp_sendmsg that gives the next chunk its sequence numbers. */
    method SendChunk(chunk: Bytes) returns (seg: Segment)
      modifies `sndNxt, `txKind, `txData, `txSeq, `txRetries, `sent
      ensures (Abs(), seg) == SendData(old(Abs()), chunk)
    {
      hide Add;
      seg := Segment(sndNxt, rcvNxt, false, true, false, chunk);
      ArmTx(TxData, chunk, sndNxt);
      sndNxt := Add(sndNxt, |chunk|);
      sent := sent + chunk;
    }

    /**
     tcp_sendmsg. `env` is what happens while the caller sleeps, in order; when it runs out the call is
     still asleep. The chunks are the buffer cut in order, each sent when nothing is outstanding, and the
     call succeeds only with all of them sent, none outstanding and no error.
     */
    method SendMsg(buf: Bytes, mss: nat, env: seq<Event>) returns (res: SendResult, ghost moves: seq<Move>)
      requires 0 < mss <= MSS
      modifies this
      ensures Abs() == Play(old(Abs()), moves) && Legal(old(Abs()), moves, mss)
      ensures Chunks(moves) <= buf && Events(moves) <= env
      ensures res == Sent ==> Chunks(moves) == buf && (buf != [] ==> !err && txKind != TxData)
      ensures res == Failed ==> err
      ensures res == NotConnected ==> !err && !CanFin(Abs()) && Chunks(moves) < buf
      ensures res == StillWaiting ==>
              Events(moves) == env && !err && txKind != TxNone && (Chunks(moves) < buf || txKind == TxData)
    {
      hide *;
      moves := [];
      var off, k := 0, 0;
      ghost var start := Abs();
      GoingFirst(start, mss, buf, env);
      while off < |buf|
        invariant off <= |buf| && k <= |env|
        invariant Going(start, Abs(), moves, mss, buf[..off], env[..k])
        invariant off > 0 ==> !err && txKind != TxData
      {
        GoingIs(start, Abs(), moves, mss, buf, off, env, k);
        Fields();
        var n := if |buf| - off < mss then |buf| - off else mss;
        if err {
          return Failed, moves;
        }
        if state != Established && state != CloseWait {
          return NotConnected, moves;
        }
        while !err && txKind != TxNone
          invariant k <= |env| && Going(start, Abs(), moves, mss, buf[..off], env[..k])
          decreases |env| - k
        {
          if k == |env| {
            GoingIs(start, Abs(), moves, mss, buf, off, env, k);
            return StillWaiting, moves;
          }
          ghost var s := Abs();
          var _ := Sleep(env[k]);
          GoingEvent(start, s, Abs(), moves, mss, buf[..off], env, k);
          moves, k := moves + [Happens(env[k])], k + 1;
        }
        GoingIs(start, Abs(), moves, mss, buf, off, env, k);
        Fields();
        if err {
          return Failed, moves;
        }
        if state != Established && state != CloseWait {
          return NotConnected, moves;
        }
        ghost var s := Abs();
        var chunk := buf[off..off + n];
        var _ := SendChunk(chunk);
        GoingChunk(start, s, Abs(), moves, mss, buf, off, n, env[..k]);
        moves, off := moves + [Chunk(chunk)], off + n;
        while !err && txKind == TxData
          invariant k <= |env| && Going(start, Abs(), moves, mss, buf[..off], env[..k])
          decreases |env| - k
        {
          if k == |env| {
            GoingIs(start, Abs(), moves, mss, buf, off, env, k);
            return StillWaiting, moves;
          }
          ghost var s := Abs();
          var _ := Sleep(env[k]);
          GoingEvent(start, s, Abs(), moves, mss, buf[..off], env, k);
          moves, k := moves + [Happens(env[k])], k + 1;
        }
        if err {
          GoingIs(start, Abs(), moves, mss, buf, off, env, k);
          return Failed, moves;
        }
      }
      GoingIs(start, Abs(), moves, mss, buf, off, env, k);
      return Sent, moves;
    }

    /** The guards of the code, read off the abstract socket. */
    lemma Fields()
      ensures CanFin(Abs()) <==> state == Established || state == CloseWait
      ensures CanSend(Abs()) <==> !err && CanFin(Abs()) && txKind == TxNone
    {
    }

    /** tcp_timer_tick for one socket whose deadline has passed. */
    method TimerTick() returns (again: Option<Segment>)
      modifies `err, `state, `eof, `txData, `txKind, `txRetries
      ensures (Abs(), again) == Tick(old(Abs()))
    {
      again := None;
      if txKind == TxNone {
        return;
      }
      if txRetries >= MAX_RETRIES {
        SetErrorLocked();
        return;
      }
      if txKind == TxSyn {
        again := Some(Segment(txSeq, 0, true, false, false, []));
      } else if txKind == TxData {
        again := Some(Segment(txSeq, rcvNxt, false, true, false, txData));
      } else {
        again := Some(Segment(txSeq, rcvNxt, false, true, true, []));
      }
      txRetries := txRetries + 1;
    }

    /**
     tcp_recvmsg once it stops sleeping: the oldest payload, cut to the caller's buffer. The rest of that
     payload is not kept, so the caller sees all of it exactly when the buffer is large enough.
     */
    method RecvMsg(len: nat) returns (r: Received)
      modifies this
      ensures old(err) ==> r == Error && Abs() == old(Abs())
      ensures !old(err) && old(rcvQueue) != [] ==>
                && Abs() == TakeQueued(old(Abs()))
                && r == Data(if len < |old(rcvQueue)[0]| then old(rcvQueue)[0][..len] else old(rcvQueue)[0])
                && (r.bytes == old(rcvQueue)[0] <==> |old(rcvQueue)[0]| <= len)
      ensures !old(err) && old(rcvQueue) == [] ==> r == (if eof then EndOfFile else Again) && Abs() == old(Abs())
    {
      if rcvQueue == [] && !eof && !err {
        return Again;
      }
      if err {
        return Error;
      }
      if rcvQueue == [] {
        return EndOfFile;
      }
      var payload := rcvQueue[0];
      rcvQueue := rcvQueue[1..];
      dequeued := dequeued + payload;
      r := Data(if len < |payload| then payload[..len] else payload);
    }
  }

  /** A payload of two bytes read with a buffer of one: the second byte is gone. */
  method ShortRead() returns (s: TcpSock, first: Received, second: Received)
    ensures fresh(s) && first == Data([1]) && second == Again && s.dequeued == [1, 2]
  {
    s := new TcpSock;
    s.state, s.err, s.eof, s.rcvQueue, s.dequeued := Established, false, false, [[1, 2]], [];
    first := s.RecvMsg(1);
    second := s.RecvMsg(1);
  }

  /** The stream a socket has sent grows by exactly the chunks of its moves. */
  lemma {:induction false} PlaySent(s: Sock, moves: seq<Move>)
    ensures Play(s, moves).sent == s.sent + Chunks(moves)
  {
    if |moves| == 0 {
      assert s.sent + [] == s.sent;
    } else {
      var before, m := moves[..|moves| - 1], moves[|moves| - 1];
      PlaySent(s, before);
      OneSent(Play(s, before), m);
      assert s.sent + Chunks(moves) == s.sent + Chunks(before) + (if m.Chunk? then m.bytes else []);
    }
  }

  lemma OneSent(s: Sock, m: Move)
    ensures One(s, m).sent == s.sent + if m.Chunk? then m.bytes else []
  {
    hide Add, Resent, Receive;
    if m.Happens? && m.event.Arrives? {
      ReceiveSent(s, m.event.seg);
    }
  }

  lemma ReceiveSent(s: Sock, seg: Segment)
    ensures Receive(s, seg).0.sent == s.sent
  {
    hide Add, General;
    GeneralSent(s, seg);
    GeneralSent(s.(sndUna := seg.ackno, state := Established), seg);
  }

  lemma GeneralSent(s: Sock, seg: Segment)
    ensures General(s, seg).0.sent == s.sent
  {
    hide AckPart, PayloadPart, FinPart, LastPart, Answers;
    PartsSent(s, seg);
    PartsSent(AckPart(s, seg), seg);
    PartsSent(PayloadPart(AckPart(s, seg), seg), seg);
    PartsSent(FinPart(PayloadPart(AckPart(s, seg), seg), seg), seg);
  }

  lemma PartsSent(s: Sock, seg: Segment)
    ensures AckPart(s, seg).sent == s.sent && PayloadPart(s, seg).sent == s.sent
    ensures FinPart(s, seg).sent == s.sent && LastPart(s, seg).sent == s.sent
  {
    AckSent(s, seg);
    assert PayloadPart(s, seg).sent == s.sent by { hide Add, Takes; }
    assert FinPart(s, seg).sent == s.sent by { hide Add, TakesFin; }
    hide AckPart, PayloadPart, FinPart;
  }

  lemma AckSent(s: Sock, seg: Segment)
    ensures AckPart(s, seg).sent == s.sent
  {
    hide Acked, After;
  }

  lemma NoFin(s: Sock, seg: Segment)
    requires !seg.fin
    ensures FinPart(s, seg) == s
  {
  }
}
