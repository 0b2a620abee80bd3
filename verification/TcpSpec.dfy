/**
 What one TCP endpoint does with a segment, a send, a shutdown and a timer tick (src/net/tcp.c).
 Sequence numbers are 32-bit and wrap.
 */
module TcpSpec {
  const MOD: nat := 0x1_0000_0000
  const HALF: nat := 0x8000_0000
  const QUEUE_MAX: nat := 64
  const MAX_RETRIES: nat := 5
  const MSS: nat := 1460

  type Seq32 = x: nat | x < MOD
  type Bytes = seq<int>

  datatype State =
    | Closed | Listen | SynSent | SynRecv | Established | FinWait1 | FinWait2 | CloseWait | LastAck | TimeWait

  datatype TxKind = TxNone | TxSyn | TxData | TxFin

  datatype Segment = Segment(seqno: Seq32, ackno: Seq32, syn: bool, ack: bool, fin: bool, data: Bytes)

  datatype Option<T> = None | Some(value: T)

  /**
   A socket. The fields from `sent` on are history: the bytes handed to tcp_sendmsg and given sequence
   numbers, the bytes taken in order from the peer, those of them a reader has dequeued, whether the
   peer's initial sequence number is known, and whether a FIN has been sent and accepted.
   */
  datatype Sock = Sock(state: State, iss: Seq32, sndUna: Seq32, sndNxt: Seq32, rcvNxt: Seq32,
                       txKind: TxKind, txData: Bytes, txSeq: Seq32, retries: nat,
                       orphan: bool, err: bool, eof: bool, queue: seq<Bytes>,
                       sent: Bytes, accepted: Bytes, dequeued: Bytes, known: bool, finSent: bool, finRcvd: bool)

  function Add(a: Seq32, n: nat): Seq32 {
    (a + n) % MOD
  }

  /** (s32)(a - b) > 0 */
  predicate After(a: Seq32, b: Seq32) {
    0 < (a - b) % MOD < HALF
  }

  /** (s32)(a - b) >= 0 */
  predicate Geq(a: Seq32, b: Seq32) {
    (a - b) % MOD < HALF
  }

  function ClearTx(s: Sock): Sock {
    s.(txKind := TxNone, txData := [], retries := 0)
  }

  /** The outstanding data or FIN is covered by `ackno`. */
  predicate Acked(s: Sock, ackno: Seq32) {
    || (s.txKind == TxData && Geq(ackno, Add(s.txSeq, |s.txData|)))
    || (s.txKind == TxFin && Geq(ackno, Add(s.txSeq, 1)))
  }

  function UnaPart(s: Sock, ackno: Seq32): Sock {
    if After(ackno, s.sndUna) && !After(ackno, s.sndNxt) then s.(sndUna := ackno) else s
  }

  function AckPart(s: Sock, seg: Segment): Sock {
    if !seg.ack then s
    else if Acked(s, seg.ackno) then ClearTx(UnaPart(s, seg.ackno))
    else UnaPart(s, seg.ackno)
  }

  /** In-order payload is taken if there is a reader with room, or no reader at all. */
  predicate Takes(s: Sock, seg: Segment) {
    |seg.data| > 0 && seg.seqno == s.rcvNxt && (s.orphan || |s.queue| < QUEUE_MAX)
  }

  function PayloadPart(s: Sock, seg: Segment): Sock {
    if !Takes(s, seg) then s
    else s.(rcvNxt := Add(s.rcvNxt, |seg.data|), accepted := s.accepted + seg.data,
            queue := if s.orphan then s.queue else s.queue + [seg.data])
  }

  predicate TakesFin(s: Sock, seg: Segment) {
    seg.fin && Add(seg.seqno, |seg.data|) == s.rcvNxt
  }

  function FinPart(s: Sock, seg: Segment): Sock {
    if !TakesFin(s, seg) then s
    else s.(rcvNxt := Add(s.rcvNxt, 1), eof := true, finRcvd := true,
            state := match s.state
                     case Established => CloseWait
                     case FinWait1 => TimeWait
                     case FinWait2 => TimeWait
                     case _ => s.state)
  }

  function LastPart(s: Sock, seg: Segment): Sock {
    if seg.ack && seg.ackno == s.sndNxt then
      s.(state := if s.state == FinWait1 then FinWait2 else if s.state == LastAck then Closed else s.state)
    else s
  }

  function PureAck(s: Sock): Segment {
    Segment(s.sndNxt, s.rcvNxt, false, true, false, [])
  }

  /** An ACK goes back for payload that was taken or out of order, and for every FIN. */
  predicate Answers(s: Sock, seg: Segment) {
    (|seg.data| > 0 && (seg.seqno != s.rcvNxt || Takes(s, seg))) || seg.fin
  }

  /** The path of tcp_rcv for a synchronised socket. */
  function General(s: Sock, seg: Segment): (Sock, Option<Segment>) {
    var s1 := AckPart(s, seg);
    var s2 := PayloadPart(s1, seg);
    var s3 := FinPart(s2, seg);
    (LastPart(s3, seg), if Answers(s1, seg) then Some(PureAck(s3)) else None)
  }

  /** tcp_rcv on an existing connection. */
  function Receive(s: Sock, seg: Segment): (Sock, Option<Segment>) {
    if s.state == Listen then (s, None)
    else if s.state == SynSent then
      if seg.syn && seg.ack && seg.ackno == s.sndNxt then
        var s' := ClearTx(s.(rcvNxt := Add(seg.seqno, 1), sndUna := seg.ackno, sndNxt := seg.ackno,
                             state := Established, known := true));
        (s', Some(PureAck(s')))
      else (s, None)
    else if s.state == SynRecv then
      if seg.syn && !seg.ack then (s, Some(Segment(s.iss, s.rcvNxt, true, true, false, [])))
      else if !seg.ack || seg.ackno != s.sndNxt then (s, None)
      else General(s.(sndUna := seg.ackno, state := Established), seg)
    else General(s, seg)
  }

  /** The socket a listener makes for a SYN. */
  function Accepted(seg: Segment, iss: Seq32): Sock {
    Sock(SynRecv, iss, iss, Add(iss, 1), Add(seg.seqno, 1), TxNone, [], 0, 0, false, false, false, [], [], [], [], true,
         false, false)
  }

  /** tcp_connect. */
  function Connecting(iss: Seq32): Sock {
    Sock(SynSent, iss, iss, Add(iss, 1), 0, TxSyn, [], iss, 0, false, false, false, [], [], [], [], false, false, false)
  }

  predicate CanSend(s: Sock) {
    !s.err && (s.state == Established || s.state == CloseWait) && s.txKind == TxNone
  }

  /** tcp_sendmsg gives the next chunk its sequence numbers and sends it. */
  function SendData(s: Sock, chunk: Bytes): (Sock, Segment) {
    var s' := s.(sndNxt := Add(s.sndNxt, |chunk|), txKind := TxData, txData := chunk, txSeq := s.sndNxt, retries := 0,
                 sent := s.sent + chunk);
    (s', Segment(s.sndNxt, s.rcvNxt, false, true, false, chunk))
  }

  predicate CanFin(s: Sock) {
    s.state == Established || s.state == CloseWait
  }

  /** tcp_shutdown of the sending side, and the FIN of tcp_release. */
  function SendFin(s: Sock, release: bool): (Sock, Segment) {
    var s' := ClearTx(s).(txKind := TxFin, txSeq := s.sndNxt, sndNxt := Add(s.sndNxt, 1), finSent := true,
                          state := if s.state == CloseWait then LastAck
                              else FinWait1, orphan := s.orphan || release, queue := if release then [] else s.queue);
    (s', Segment(s.sndNxt, s.rcvNxt, false, true, true, []))
  }

  /** tcp_release of a socket that is already closing. */
  function Abandon(s: Sock): Sock {
    if s.state == FinWait1 || s.state == FinWait2 || s.state == LastAck || s.state == TimeWait
    then s.(orphan := true, queue := []) else s
  }

  /** The segment the retransmission timer sends again. */
  function Resent(s: Sock): Segment {
    match s.txKind
    case TxSyn => Segment(s.txSeq, 0, true, false, false, [])
    case TxData => Segment(s.txSeq, s.rcvNxt, false, true, false, s.txData)
    case _ => Segment(s.txSeq, s.rcvNxt, false, true, true, [])
  }

  /** tcp_timer_tick on an expired deadline. */
  function Tick(s: Sock): (Sock, Option<Segment>) {
    if s.txKind == TxNone then (s, None)
    else if s.retries >= MAX_RETRIES then (ClearTx(s.(err := true, state := Closed, eof := true)), None)
    else (s.(retries := s.retries + 1), Some(Resent(s)))
  }

  /** tcp_recvmsg takes one queued payload. */
  function TakeQueued(s: Sock): Sock
    requires |s.queue| > 0
  {
    s.(queue := s.queue[1..], dequeued := s.dequeued + s.queue[0])
  }
}
