/**
 The internet checksum (src/net/checksum.c) and the segments tcp_build_segment makes and tcp_rcv accepts
 (src/net/tcp.c). The sum is RFC 1071's; the pseudo-header is that of RFC 9293 section 3.1.
 */
module Checksum {
  const U32: nat := 0x1_0000_0000

  type Byte = x: nat | x < 256
  type Word = x: nat | x < 0x1_0000
  type Long = x: nat | x < 0x1_0000_0000

  /** The sum of the big-endian 16-bit words, an odd last byte counting as a high byte. */
  ghost function WordSum(p: seq<Byte>): nat {
    if |p| == 0 then 0
    else if |p| == 1 then 256 * (p[0] as nat)
    else 256 * (p[0] as nat) + p[1] + WordSum(p[2..])
  }

  lemma {:induction false} WordSumConcat(a: seq<Byte>, b: seq<Byte>)
    requires |a| % 2 == 0
    ensures WordSum(a + b) == WordSum(a) + WordSum(b)
  {
    if |a| == 0 {
      assert a + b == b;
    } else {
      WordSumConcat(a[2..], b);
      assert (a + b)[2..] == a[2..] + b;
    }
  }

  lemma {:induction false} WordSumBound(p: seq<Byte>)
    ensures WordSum(p) <= 0xffff * ((|p| + 1) / 2)
  {
    if |p| > 1 {
      WordSumBound(p[2..]);
    }
  }

  /** inet_csum_add: the accumulator is 32 bits wide and wraps. */
  method CsumAdd(start: Long, data: seq<Byte>) returns (sum: Long)
    ensures sum == (start + WordSum(data)) % U32
    ensures start + WordSum(data) < U32 ==> sum == start + WordSum(data)
  {
    sum := start;
    var p := data;
    while |p| > 1
      invariant (sum + WordSum(p)) % U32 == (start + WordSum(data)) % U32
      decreases |p|
    {
      var hi: nat, lo: nat := p[0], p[1];
      WrapAdd(sum, 256 * hi + lo, WordSum(p[2..]));
      sum := (sum + (256 * hi + lo)) % U32;
      p := p[2..];
    }
    if |p| == 1 {
      var hi: nat := p[0];
      sum := (sum + 256 * hi) % U32;
    }
  }

  lemma WrapAdd(sum: nat, word: nat, rest: nat)
    ensures ((sum + word) % U32 + rest) % U32 == (sum + (word + rest)) % U32
  {
  }

  /** `c` is the one's complement of the folded sum: the only 16-bit value that brings the sum to zero modulo 65535. */
  ghost predicate Complements(c: nat, sum: nat) {
    c <= 0xffff && (sum + c) % 0xffff == 0 && (c == 0xffff <==> sum == 0)
  }

  lemma ComplementUnique(c: nat, d: nat, sum: nat)
    requires Complements(c, sum) && Complements(d, sum)
    ensures c == d
  {
    if sum > 0 && c < d {
      assert (sum + d) - (sum + c) == d - c;
      Congruent(sum + c, sum + d);
    } else if sum > 0 && d < c {
      Congruent(sum + d, sum + c);
    }
  }

  lemma Congruent(a: nat, b: nat)
    requires a <= b && a % 0xffff == b % 0xffff
    ensures (b - a) % 0xffff == 0
  {
  }

  /** inet_csum_fold, in host byte order. */
  method CsumFold(start: Long) returns (c: Word)
    ensures Complements(c, start)
  {
    var sum := start;
    while sum / 0x10000 != 0
      invariant sum % 0xffff == start % 0xffff && (sum == 0 <==> start == 0)
      decreases sum
    {
      FoldStep(sum);
      sum := sum % 0x10000 + sum / 0x10000;
    }
    c := 0xffff - sum;
    FoldEnd(sum, start);
  }

  lemma FoldStep(sum: nat)
    requires sum >= 0x10000
    ensures 0 < sum % 0x10000 + sum / 0x10000 < sum
    ensures (sum % 0x10000 + sum / 0x10000) % 0xffff == sum % 0xffff
  {
    var q, r := sum / 0x10000, sum % 0x10000;
    assert sum == 0xffff * q + (q + r);
    AddMultiple(q + r, q);
  }

  lemma AddMultiple(a: nat, k: nat)
    ensures (0xffff * k + a) % 0xffff == a % 0xffff
  {
  }

  lemma FoldEnd(sum: nat, start: nat)
    requires sum <= 0xffff && sum % 0xffff == start % 0xffff && (sum == 0 <==> start == 0)
    ensures Complements(0xffff - sum, start)
  {
    SumMod(start, 0xffff - sum, sum);
  }

  lemma SumMod(a: nat, c: nat, b: nat)
    requires a % 0xffff == b % 0xffff
    ensures (a + c) % 0xffff == (b + c) % 0xffff
  {
  }
}
