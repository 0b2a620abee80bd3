/** Bitmaps (src/lib/bitmap.c): a fixed-size buffer of bits changed in place. */
module Bitmap {
  /** The first clear bit at or after `start`, or `nbits` when every bit from there on is set. */
  method FindNextZeroBit(bitmap: array<bool>, nbits: nat, start: nat) returns (bit: nat)
    requires nbits <= bitmap.Length
    ensures bit <= nbits
    ensures bit < nbits ==> start <= bit && !bitmap[bit]
    ensures forall b: nat :: start <= b < bit ==> bitmap[b]
  {
    if start >= nbits {
      return nbits;
    }
    bit := start;
    while bit < nbits
      invariant start <= bit <= nbits
      invariant forall b: nat :: start <= b < bit ==> bitmap[b]
    {
      if !bitmap[bit] {
        return;
      }
      bit := bit + 1;
    }
  }

  /** Takes the first clear bit among the first `nbits`; fails exactly when there is none. */
  method AllocBit(bitmap: array<bool>, nbits: nat) returns (ok: bool, bit: nat)
    requires nbits <= bitmap.Length
    modifies bitmap
    ensures ok <==> false in old(bitmap[..nbits])
    ensures ok ==> bit < nbits && !old(bitmap[bit]) && bitmap[..] == old(bitmap[..])[bit := true]
    ensures ok ==> false !in old(bitmap[..bit])
    ensures !ok ==> bitmap[..] == old(bitmap[..])
  {
    bit := FindNextZeroBit(bitmap, nbits, 0);
    if bit >= nbits {
      return false, 0;
    }
    assert bitmap[..nbits][bit] == false;
    bitmap[bit] := true;
    ok := true;
  }

  /** Clears one bit; a bit number past the end is ignored. */
  method FreeBit(bitmap: array<bool>, nbits: nat, bit: nat)
    requires nbits <= bitmap.Length
    modifies bitmap
    ensures bitmap[..] == if bit < nbits then old(bitmap[..])[bit := false] else old(bitmap[..])
  {
    if bit < nbits {
      bitmap[bit] := false;
    }
  }
}
