/**
 Segments as bytes: what tcp_build_segment writes, and what tcp_rcv checks and reads back (src/net/tcp.c).
 */
module TcpWire {
  import opened Checksum

  const TCP_MSS: nat := 1460
  const IPPROTO_TCP: nat := 6
  const HEADER: nat := 20

  type Address = a: seq<Byte> | |a| == 4 witness [0, 0, 0, 0]

  datatype Fields = Fields(source: Word, dest: Word, seqno: Long, ackno: Long, flags: Byte, window: Word)

  function Put16(x: Word): (b: seq<Byte>)
    ensures |b| == 2
  {
    [x / 256, x % 256]
  }

  function Put32(x: Long): (b: seq<Byte>)
    ensures |b| == 4
  {
    Put16(x / 0x1_0000) + Put16(x % 0x1_0000)
  }

  function Get16(b: seq<Byte>, i: nat): Word
    requires i + 2 <= |b|
  {
    var hi: nat, lo: nat := b[i], b[i + 1];
    256 * hi + lo
  }

  function Get32(b: seq<Byte>, i: nat): Long
    requires i + 4 <= |b|
  {
    var hi: nat, lo: nat := Get16(b, i), Get16(b, i + 2);
    0x1_0000 * hi + lo
  }

  function Options(withMss: bool): (b: seq<Byte>)
    ensures |b| == if withMss then 4 else 0
  {
    if withMss then [2, 4, TCP_MSS / 256, TCP_MSS % 256] else []
  }

  function Front(f: Fields, withMss: bool): (b: seq<Byte>)
    ensures |b| == 16
  {
    Put16(f.source) + Put16(f.dest) + Put32(f.seqno) + Put32(f.ackno)
    + [if withMss then 96 else 80, f.flags] + Put16(f.window)
  }

  /** The header, the options and the payload, with `check` in the checksum field. */
  function Image(f: Fields, withMss: bool, data: seq<Byte>, check: Word): (b: seq<Byte>)
    ensures |b| == HEADER + |Options(withMss)| + |data|
  {
    Front(f, withMss) + Put16(check) + ([0, 0] + Options(withMss) + data)
  }

  /** The pseudo-header in front of a segment of `len` bytes. */
  function Pseudo(saddr: Address, daddr: Address, len: nat): (b: seq<Byte>)
    ensures |b| == 12
  {
    saddr + daddr + [0, IPPROTO_TCP, len / 256 % 256, len % 256]
  }

  /** Everything the checksum of a segment covers. */
  ghost function Covered(saddr: Address, daddr: Address, seg: seq<Byte>): nat {
    WordSum(Pseudo(saddr, daddr, |seg|)) + WordSum(seg)
  }

  lemma CoveredBound(saddr: Address, daddr: Address, seg: seq<Byte>)
    requires |seg| <= 0xffff
    ensures 0 < Covered(saddr, daddr, seg) < U32
  {
    var p := Pseudo(saddr, daddr, |seg|);
    WordSumBound(p);
    WordSumBound(seg);
    assert p[..8] + p[8..] == p;
    WordSumConcat(p[..8], p[8..]);
    assert WordSum(p[8..]) >= 256 * p[8] + p[9];
  }

  /** The sum over the four pieces, one call of inet_csum_add each. */
  method Sum(saddr: Address, daddr: Address, seg: seq<Byte>) returns (sum: Long)
    requires |seg| <= 0xffff
    ensures sum == Covered(saddr, daddr, seg)
  {
    CoveredBound(saddr, daddr, seg);
    var tail := [0, IPPROTO_TCP, |seg| / 256 % 256, |seg| % 256];
    assert Pseudo(saddr, daddr, |seg|) == saddr + (daddr + tail);
    WordSumConcat(saddr, daddr + tail);
    WordSumConcat(daddr, tail);
    sum := CsumAdd(0, saddr);
    sum := CsumAdd(sum, daddr);
    sum := CsumAdd(sum, tail);
    sum := CsumAdd(sum, seg);
  }

  /** The receiver's test accepts exactly the segments whose covered words sum to zero modulo 65535. */
  ghost predicate Passes(saddr: Address, daddr: Address, seg: seq<Byte>) {
    Covered(saddr, daddr, seg) % 0xffff == 0
  }

  /** tcp_checksum: zero means that the segment is accepted. */
  method TcpChecksum(saddr: Address, daddr: Address, seg: seq<Byte>) returns (c: Word)
    requires |seg| <= 0xffff
    ensures c == 0 <==> Passes(saddr, daddr, seg)
  {
    var sum := Sum(saddr, daddr, seg);
    CoveredBound(saddr, daddr, seg);
    c := CsumFold(sum);
    ZeroComplement(c, sum);
  }

  lemma ZeroComplement(c: nat, sum: nat)
    requires Complements(c, sum) && sum > 0
    ensures c == 0 <==> sum % 0xffff == 0
  {
    if sum % 0xffff == 0 {
      SumMod(sum, c, 0);
    }
  }

  /** Only the checksum field separates the image with a checksum from the one with a zero there. */
  lemma CheckAdds(saddr: Address, daddr: Address, f: Fields, withMss: bool, data: seq<Byte>, check: Word)
    ensures Covered(saddr, daddr, Image(f, withMss, data, check)) ==
            Covered(saddr, daddr, Image(f, withMss, data, 0)) + check
  {
    var front, rest := Front(f, withMss), [0, 0] + Options(withMss) + data;
    forall c: Word
      ensures WordSum(Image(f, withMss, data, c)) == WordSum(front) + c + WordSum(rest)
    {
      assert Image(f, withMss, data, c) == front + (Put16(c) + rest);
      WordSumConcat(front, Put16(c) + rest);
      WordSumConcat(Put16(c), rest);
      assert WordSum(Put16(c)) == c by {
        assert Put16(c)[2..] == [];
      }
    }
  }

  /** A segment whose checksum field complements the sum of the rest passes; 0xffff does as well as zero. */
  lemma BuiltPasses(saddr: Address, daddr: Address, f: Fields, withMss: bool, data: seq<Byte>, c: Word)
    requires Complements(c, Covered(saddr, daddr, Image(f, withMss, data, 0)))
    ensures Passes(saddr, daddr, Image(f, withMss, data, c))
    ensures c == 0 ==> Passes(saddr, daddr, Image(f, withMss, data, 0xffff))
  {
    CheckAdds(saddr, daddr, f, withMss, data, c);
    CheckAdds(saddr, daddr, f, withMss, data, 0xffff);
    var sum := Covered(saddr, daddr, Image(f, withMss, data, 0));
    AddMultiple(sum, 1);
  }

  /** tcp_build_segment. */
  method BuildSegment(saddr: Address, daddr: Address, f: Fields, withMss: bool, data: seq<Byte>)
    returns (seg: seq<Byte>, ghost check: Word)
    requires HEADER + |Options(withMss)| + |data| <= 0xffff
    ensures seg == Image(f, withMss, data, check) && check != 0
    ensures Passes(saddr, daddr, seg)
  {
    var sum := Sum(saddr, daddr, Image(f, withMss, data, 0));
    var c := CsumFold(sum);
    BuiltPasses(saddr, daddr, f, withMss, data, c);
    if c == 0 {
      c := 0xffff;
    }
    seg, check := Image(f, withMss, data, c), c;
  }

  // The receiver.

  /** The option walk of tcp_rcv: the last MSS option before the end of the options or a malformed one. */
  ghost function MssOption(opt: seq<Byte>, found: Word): Word
    decreases |opt|
  {
    if |opt| == 0 || opt[0] == 0 then found
    else if opt[0] == 1 then MssOption(opt[1..], found)
    else if |opt| == 1 || opt[1] < 2 || opt[1] > |opt| then found
    else MssOption(opt[opt[1]..], if opt[0] == 2 && opt[1] == 4 then Get16(opt, 2) else found)
  }

  method FindMss(opts: seq<Byte>) returns (mss: Word)
    ensures mss == MssOption(opts, 0)
  {
    mss := 0;
    var opt := opts;
    while |opt| > 0
      invariant MssOption(opt, mss) == MssOption(opts, 0)
      decreases |opt|
    {
      if opt[0] == 0 {
        break;
      }
      if opt[0] == 1 {
        opt := opt[1..];
        continue;
      }
      if |opt| == 1 {
        break;
      }
      var len := opt[1];
      if len < 2 || len > |opt| {
        break;
      }
      if opt[0] == 2 && len == 4 {
        mss := Get16(opt, 2);
      }
      opt := opt[len..];
    }
  }

  datatype Parsed = Dropped | Parsed(fields: Fields, mss: Word, data: seq<Byte>)

  /** The checks and the header reading of tcp_rcv, before any socket is looked up. */
  method Receive(saddr: Address, daddr: Address, seg: seq<Byte>) returns (r: Parsed)
    requires |seg| <= 0xffff
    ensures r.Dropped? <==> |seg| < HEADER || Doff(seg) < HEADER || Doff(seg) > |seg| || !Passes(saddr, daddr, seg)
    ensures r.Parsed? ==> r.fields == FieldsOf(seg) && r.data == seg[Doff(seg)..]
                          && r.mss == if IsSyn(seg) then MssOption(seg[HEADER..Doff(seg)], 0) else 0
  {
    if |seg| < HEADER {
      return Dropped;
    }
    var doff := Doff(seg);
    if doff < HEADER || doff > |seg| {
      return Dropped;
    }
    var c := TcpChecksum(saddr, daddr, seg);
    if c != 0 {
      return Dropped;
    }
    var mss: Word := 0;
    if IsSyn(seg) {
      mss := FindMss(seg[HEADER..doff]);
    }
    r := Parsed(FieldsOf(seg), mss, seg[doff..]);
  }

  predicate IsSyn(seg: seq<Byte>)
    requires |seg| >= HEADER
  {
    seg[13] / 2 % 2 == 1
  }

  function Doff(seg: seq<Byte>): nat
    requires |seg| >= HEADER
  {
    var b: nat := seg[12];
    b / 16 * 4
  }

  function FieldsOf(seg: seq<Byte>): Fields
    requires |seg| >= HEADER
  {
    Fields(Get16(seg, 0), Get16(seg, 2), Get32(seg, 4), Get32(seg, 8), seg[13], Get16(seg, 14))
  }

  lemma GetPut16(x: Word, b: seq<Byte>, i: nat)
    requires i + 2 <= |b| && b[i..i + 2] == Put16(x)
    ensures Get16(b, i) == x
  {
    assert b[i] == b[i..i + 2][0] && b[i + 1] == b[i..i + 2][1];
  }

  lemma GetPut32(x: Long, b: seq<Byte>, i: nat)
    requires i + 4 <= |b| && b[i..i + 4] == Put32(x)
    ensures Get32(b, i) == x
  {
    assert b[i..i + 2] == b[i..i + 4][..2] == Put16(x / 0x1_0000);
    assert b[i + 2..i + 4] == b[i..i + 4][2..] == Put16(x % 0x1_0000);
    GetPut16(x / 0x1_0000, b, i);
    GetPut16(x % 0x1_0000, b, i + 2);
  }

  /** What was built is what is read: fields, payload and the MSS offer. */
  lemma RoundTrip(f: Fields, withMss: bool, data: seq<Byte>, check: Word)
    ensures var seg := Image(f, withMss, data, check);
            && FieldsOf(seg) == f
            && Doff(seg) == HEADER + |Options(withMss)|
            && seg[Doff(seg)..] == data
            && MssOption(seg[HEADER..Doff(seg)], 0) == if withMss then TCP_MSS else 0
  {
    var seg := Image(f, withMss, data, check);
    var front := Front(f, withMss);
    assert seg[..16] == front;
    assert seg[12] == front[12] && seg[13] == front[13];
    assert seg[0..2] == front[0..2] == Put16(f.source);
    assert seg[2..4] == front[2..4] == Put16(f.dest);
    assert seg[4..8] == front[4..8] == Put32(f.seqno);
    assert seg[8..12] == front[8..12] == Put32(f.ackno);
    assert seg[14..16] == front[14..16] == Put16(f.window);
    GetPut16(f.source, seg, 0);
    GetPut16(f.dest, seg, 2);
    GetPut32(f.seqno, seg, 4);
    GetPut32(f.ackno, seg, 8);
    GetPut16(f.window, seg, 14);
    assert seg[HEADER..Doff(seg)] == Options(withMss);
    if withMss {
      assert Options(true)[4..] == [];
    }
  }

  /**
   Damage to one 16-bit word at an even offset is caught, unless it swaps the two representations of zero.
   */
  lemma DamageDetected(saddr: Address, daddr: Address, a: seq<Byte>, w: seq<Byte>, w': seq<Byte>, b: seq<Byte>)
    requires |a| % 2 == 0 && |w| == 2 == |w'| && w != w' && Passes(saddr, daddr, a + w + b)
    ensures Passes(saddr, daddr, a + w' + b) <==>
            (w == [0, 0] && w' == [255, 255]) || (w == [255, 255] && w' == [0, 0])
  {
    var seg, seg' := a + w + b, a + w' + b;
    assert seg == a + (w + b) && seg' == a + (w' + b);
    WordSumConcat(a, w + b);
    WordSumConcat(w, b);
    WordSumConcat(a, w' + b);
    WordSumConcat(w', b);
    assert WordSum(w) == Get16(w, 0) && WordSum(w') == Get16(w', 0) by {
      assert w[2..] == [] && w'[2..] == [];
    }
    WordsDiffer(w, w');
    var rest := WordSum(Pseudo(saddr, daddr, |seg|)) + WordSum(a) + WordSum(b);
    hide WordSum, Get16;
    OtherWord(rest, Get16(w, 0), Get16(w', 0));
  }

  lemma OtherWord(rest: nat, d: nat, d': nat)
    requires (rest + d) % 0xffff == 0 && d <= 0xffff && d' <= 0xffff && d != d'
    ensures (rest + d') % 0xffff == 0 <==> (d == 0 && d' == 0xffff) || (d == 0xffff && d' == 0)
  {
    if (rest + d') % 0xffff == 0 {
      if d < d' {
        Congruent(rest + d, rest + d');
      } else {
        Congruent(rest + d', rest + d);
      }
    } else {
      AddMultiple(rest, 1);
    }
  }

  lemma WordsDiffer(w: seq<Byte>, w': seq<Byte>)
    requires |w| == 2 == |w'| && w != w'
    ensures Get16(w, 0) != Get16(w', 0)
    ensures Get16(w, 0) == 0 <==> w == [0, 0]
    ensures Get16(w, 0) == 0xffff <==> w == [255, 255]
    ensures Get16(w', 0) == 0 <==> w' == [0, 0]
    ensures Get16(w', 0) == 0xffff <==> w' == [255, 255]
  {
    assert w == [w[0], w[1]] && w' == [w'[0], w'[1]];
  }

  /** A passing segment whose first word is zero still passes with all ones there. */
  lemma ZerosSwap()
    ensures var z: Address := [0, 0, 0, 0]; Passes(z, z, [0, 0, 0xff, 0xf5]) && Passes(z, z, [0xff, 0xff, 0xff, 0xf5])
  {
    var z: Address := [0, 0, 0, 0];
    PseudoZero(4);
    FourBytes(0, 0, 0xff, 0xf5);
    FourBytes(0xff, 0xff, 0xff, 0xf5);
  }

  lemma FourBytes(a: Byte, b: Byte, c: Byte, d: Byte)
    ensures WordSum([a, b, c, d]) == 256 * a + b + 256 * c + d
  {
    TwoBytes(a, b);
    TwoBytes(c, d);
    WordSumConcat([a, b], [c, d]);
    assert [a, b] + [c, d] == [a, b, c, d];
  }

  lemma TwoBytes(a: Byte, b: Byte)
    ensures WordSum([a, b]) == 256 * a + b
  {
    assert [a, b][2..] == [];
    assert WordSum([]) == 0;
  }

  lemma PseudoZero(n: nat)
    requires n <= 0xffff
    ensures WordSum(Pseudo([0, 0, 0, 0], [0, 0, 0, 0], n)) == 6 + n
  {
    var z, tail: seq<Byte> := [0, 0, 0, 0], [0, IPPROTO_TCP, n / 256 % 256, n % 256];
    FourBytes(0, 0, 0, 0);
    FourBytes(0, IPPROTO_TCP, n / 256 % 256, n % 256);
    WordSumConcat(z + z, tail);
    WordSumConcat(z, z);
  }
}
