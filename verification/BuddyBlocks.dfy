/** Aligned power-of-two blocks of pages: splitting one, and merging a pair of buddies. */
module BuddyBlocks {
  import Arith

  const MAX_ORDER: nat := 12

  datatype Kind = Free | Cached(cpu: nat) | Live

  datatype Block = Block(order: nat, kind: Kind)

  /** Every block by its first page frame. */
  type Blocks = map<nat, Block>

  function Size(order: nat): (n: nat)
    ensures n > 0
  {
    if order == 0 then 1 else 2 * Size(order - 1)
  }

  /** The page frame with bit `order` flipped. */
  function BuddyOf(p: nat, order: nat): nat {
    if p / Size(order) % 2 == 0 then p + Size(order) else if p >= Size(order) then p - Size(order) else p
  }

  ghost predicate Aligned(b: Blocks) {
    forall p :: p in b ==> b[p].order <= MAX_ORDER && p % Size(b[p].order) == 0
  }

  ghost predicate Apart(b: Blocks) {
    forall p, q :: p in b && q in b && p < q ==> p + Size(b[p].order) <= q
  }

  ghost predicate Covers(b: Blocks, x: nat) {
    exists p :: p in b && p <= x < p + Size(b[p].order)
  }

  /** The same pages, however they are cut into blocks. */
  ghost predicate SameCover(b: Blocks, b': Blocks) {
    forall x: nat :: Covers(b, x) <==> Covers(b', x)
  }

  /** No two free buddies of the same order, short of the largest. */
  ghost predicate NoBuddies(b: Blocks) {
    forall p :: p in b && b[p].kind == Free && b[p].order < MAX_ORDER ==>
      !(BuddyOf(p, b[p].order) in b && b[BuddyOf(p, b[p].order)] == b[p])
  }

  // Arithmetic of buddies.

  /** An aligned block is a half of the block of twice its size. */
  lemma Halves(p: nat, o: nat)
    requires p % Size(o) == 0
    ensures Size(o + 1) == 2 * Size(o)
    ensures p / Size(o) % 2 == 0 <==> p % Size(o + 1) == 0
    ensures p / Size(o) % 2 == 1 ==> p >= Size(o) && (p - Size(o)) % Size(o + 1) == 0 && (p - Size(o)) % Size(o) == 0
    ensures (p + Size(o)) % Size(o) == 0
  {
    assert Size(o + 1) == 2 * Size(o);
    hide Size;
    Multiples(p / Size(o), Size(o));
    assert p == p / Size(o) * Size(o);
    if p / Size(o) % 2 == 0 {
      EvenHalf(p, Size(o));
    } else {
      OddPart(p, Size(o));
    }
  }

  lemma EvenHalf(p: nat, s: nat)
    requires s > 0 && p % s == 0 && p / s % 2 == 0
    ensures p % (2 * s) == 0
  {
    var k := p / s / 2;
    assert p == 2 * k * s == k * (2 * s);
    Divides(k, 2 * s);
  }

  lemma OddPart(p: nat, s: nat)
    requires s > 0 && p % s == 0 && p / s % 2 == 1
    ensures p >= s && (p - s) % (2 * s) == 0 && p % (2 * s) != 0
  {
    var k := p / s / 2;
    assert p == (2 * k + 1) * s == k * (2 * s) + s;
    Divides(k, 2 * s);
    OddHalf(k, s);
  }

  lemma Divides(k: nat, m: nat)
    requires m > 0
    ensures k * m % m == 0 && k * m / m == k
  {
    Arith.DivModUnique(k * m, m, k, 0);
  }

  lemma OddHalf(k: nat, s: nat)
    requires s > 0
    ensures (k * (2 * s) + s) % (2 * s) == s
  {
    Arith.DivModUnique(k * (2 * s) + s, 2 * s, k, s);
  }

  lemma Multiples(n: nat, s: nat)
    requires s > 0
    ensures (n * s + s) % s == 0 && (n > 0 ==> n * s >= s && (n * s - s) % s == 0)
  {
    Divides(n + 1, s);
    assert n * s + s == (n + 1) * s;
    if n > 0 {
      Divides(n - 1, s);
      assert n * s - s == (n - 1) * s;
    }
  }

  lemma BuddyIs(p: nat, o: nat)
    requires p % Size(o) == 0
    ensures var q := BuddyOf(p, o);
            && q % Size(o) == 0 && q != p && BuddyOf(q, o) == p
            && (if p < q then p % Size(o + 1) == 0 && q == p + Size(o) else q % Size(o + 1) == 0 && p == q + Size(o))
  {
    Halves(p, o);
    var q := BuddyOf(p, o);
    Halves(q, o);
    if p < q {
      assert q / Size(o) % 2 == 1 by { UpIsOdd(p, o); }
    }
  }

  lemma UpIsOdd(p: nat, o: nat)
    requires p % Size(o) == 0 && p / Size(o) % 2 == 0
    ensures (p + Size(o)) / Size(o) % 2 == 1
  {
    hide Size;
    NextQuotient(p, Size(o));
  }

  lemma NextQuotient(p: nat, s: nat)
    requires s > 0 && p % s == 0
    ensures (p + s) / s == p / s + 1
  {
    var n := p / s;
    assert p == n * s;
    Arith.DivModUnique(p + s, s, n + 1, 0);
  }

  // Splitting and merging.

  /** The upper half of block `c` becomes a free block of its own. */
  function Split(b: Blocks, c: nat): Blocks
    requires c in b && b[c].order > 0
  {
    var o := b[c].order - 1;
    b[c := Block(o, b[c].kind)][c + Size(o) := Block(o, Free)]
  }

  lemma SplitOk(b: Blocks, c: nat)
    requires Aligned(b) && Apart(b) && c in b && b[c].order > 0
    ensures var o := b[c].order - 1;
            && c + Size(o) !in b && BuddyOf(c + Size(o), o) == c && BuddyOf(c, o) == c + Size(o)
            && Aligned(Split(b, c)) && Apart(Split(b, c))
  {
    hide BuddyOf, Apart, Split;
    var o := b[c].order - 1;
    assert Size(o + 1) == 2 * Size(o);
    hide Size;
    LowerHalf(c, o);
    BuddyIs(c, o);
    hide Aligned;
    SplitApart(b, c);
    BuddyHigher(c, o);
    SplitAligned(b, c);
  }

  lemma BuddyHigher(c: nat, o: nat)
    requires c / Size(o) % 2 == 0
    ensures BuddyOf(c, o) == c + Size(o)
  {
  }

  lemma SplitAligned(b: Blocks, c: nat)
    requires Aligned(b) && c in b && b[c].order > 0 && c % Size(b[c].order - 1) == 0 &&
             (c + Size(b[c].order - 1)) % Size(b[c].order - 1) == 0
    ensures Aligned(Split(b, c))
  {
    hide Size;
  }

  lemma SplitApart(b: Blocks, c: nat)
    requires Apart(b) && c in b && b[c].order > 0 && Size(b[c].order) == 2 * Size(b[c].order - 1)
    ensures c + Size(b[c].order - 1) !in b && Apart(Split(b, c))
  {
    hide Size;
    var o, b' := b[c].order - 1, Split(b, c);
    assert c + Size(o) !in b;
    forall p, q | p in b' && q in b' && p < q
      ensures p + Size(b'[p].order) <= q
    {
      if p == c + Size(o) {
        assert c < q;
      }
    }
  }

  lemma LowerHalf(c: nat, o: nat)
    requires c % Size(o + 1) == 0
    ensures c % Size(o) == 0 && (c + Size(o)) % Size(o) == 0 && c / Size(o) % 2 == 0
  {
    HalfDivides(c, Size(o));
  }

  lemma HalfDivides(c: nat, s: nat)
    requires s > 0 && c % (2 * s) == 0
    ensures c % s == 0 && (c + s) % s == 0 && c / s % 2 == 0
  {
    var k := c / (2 * s);
    assert c == k * (2 * s) == 2 * k * s;
    Divides(2 * k, s);
    Multiples(2 * k, s);
  }

  lemma SplitCoverAt(b: Blocks, c: nat, x: nat)
    requires c in b && b[c].order > 0 && c + Size(b[c].order - 1) !in b && Size(b[c].order) == 2 * Size(b[c].order - 1)
    ensures Covers(b, x) <==> Covers(Split(b, c), x)
  {
    hide Size;
    var o, b' := b[c].order - 1, Split(b, c);
    var u := c + Size(o);
    if Covers(b, x) {
      var p :| p in b && p <= x < p + Size(b[p].order);
      var q := if p != c then p else if x < u then c else u;
      assert q in b' && q <= x < q + Size(b'[q].order);
    }
    if Covers(b', x) {
      var q :| q in b' && q <= x < q + Size(b'[q].order);
      var p := if q == u then c else q;
      assert p in b && p <= x < p + Size(b[p].order);
    }
  }

  lemma SplitCover(b: Blocks, c: nat)
    requires c in b && b[c].order > 0 && c + Size(b[c].order - 1) !in b
    ensures SameCover(b, Split(b, c))
  {
    assert Size(b[c].order) == 2 * Size(b[c].order - 1);
    hide Size, Covers, Split;
    forall x: nat
      ensures Covers(b, x) <==> Covers(Split(b, c), x)
    {
      SplitCoverAt(b, c, x);
    }
  }

  /** Block `p` in hand takes in its free buddy. */
  function Merge(b: Blocks, p: nat): Blocks
    requires p in b
  {
    var o, q := b[p].order, BuddyOf(p, b[p].order);
    (b - {p, q})[if p < q then p else q := Block(o + 1, b[p].kind)]
  }

  lemma MergeOk(b: Blocks, p: nat)
    requires Aligned(b) && Apart(b) && p in b && b[p].order < MAX_ORDER
    requires BuddyOf(p, b[p].order) in b && b[BuddyOf(p, b[p].order)].order == b[p].order
    ensures Aligned(Merge(b, p)) && Apart(Merge(b, p)) && SameCover(b, Merge(b, p))
  {
    hide BuddyOf, SameCover, Apart;
    var o := b[p].order;
    BuddyIs(p, o);
    assert Size(o + 1) == 2 * Size(o);
    hide Size;
    MergeCover(b, p, BuddyOf(p, o));
    MergeApart(b, p, BuddyOf(p, o));
  }

  lemma MergeApart(b: Blocks, p: nat, q: nat)
    requires Apart(b) && p in b && q in b && q == BuddyOf(p, b[p].order) && b[q].order == b[p].order &&
             Size(b[p].order + 1) == 2 * Size(b[p].order)
    requires p == q + Size(b[p].order) || q == p + Size(b[p].order)
    ensures Apart(Merge(b, p))
  {
    hide Size, BuddyOf;
    var o := b[p].order;
    var b', lo := Merge(b, p), if p < q then p else q;
    forall x, y | x in b' && y in b' && x < y
      ensures x + Size(b'[x].order) <= y
    {
      if x == lo {
        assert lo + Size(o) < y;
      }
    }
  }

  lemma MergeCover(b: Blocks, p: nat, q: nat)
    requires p in b && q in b && q == BuddyOf(p, b[p].order) && b[q].order == b[p].order &&
             Size(b[p].order + 1) == 2 * Size(b[p].order)
    requires p == q + Size(b[p].order) || q == p + Size(b[p].order)
    ensures SameCover(b, Merge(b, p))
  {
    hide Size, BuddyOf;
    var o := b[p].order;
    var b', lo := Merge(b, p), if p < q then p else q;
    forall x: nat
      ensures Covers(b, x) <==> Covers(b', x)
    {
      if Covers(b, x) {
        var r :| r in b && r <= x < r + Size(b[r].order);
        var r' := if r == p || r == q then lo else r;
        assert r' in b' && r' <= x < r' + Size(b'[r'].order);
      }
      if Covers(b', x) {
        var r' :| r' in b' && r' <= x < r' + Size(b'[r'].order);
        var r := if r' != lo then r' else if x < lo + Size(o) then lo else lo + Size(o);
        assert r in b && r <= x < r + Size(b[r].order);
      }
    }
  }

  lemma SameCoverTrans(a: Blocks, b: Blocks, c: Blocks)
    requires SameCover(a, b) && SameCover(b, c)
    ensures SameCover(a, c)
  {
  }

  lemma SameOrdersCover(b: Blocks, b': Blocks)
    requires b'.Keys == b.Keys && forall p :: p in b ==> b'[p].order == b[p].order
    ensures SameCover(b, b') && (Aligned(b) ==> Aligned(b')) && (Apart(b) ==> Apart(b'))
  {
    hide Size;
    forall x: nat
      ensures Covers(b, x) <==> Covers(b', x)
    {
      if Covers(b, x) {
        var p :| p in b && p <= x < p + Size(b[p].order);
        assert p in b' && p <= x < p + Size(b'[p].order);
      }
      if Covers(b', x) {
        var p :| p in b' && p <= x < p + Size(b'[p].order);
        assert p in b && p <= x < p + Size(b[p].order);
      }
    }
  }

  /** A page is in at most one block, whatever kinds they are. */
  lemma OneBlock(b: Blocks, p: nat, q: nat, x: nat)
    requires Apart(b) && p in b && q in b && p <= x < p + Size(b[p].order) && q <= x < q + Size(b[q].order)
    ensures p == q
  {
    hide Size;
  }

  // Free buddies.

  /** Taking a block off the free lists, or leaving it off, makes no new free buddies. */
  lemma TakenNoBuddies(b: Blocks, b': Blocks)
    requires NoBuddies(b) && forall p :: p in b' && b'[p].kind == Free ==> p in b && b[p] == b'[p]
    ensures NoBuddies(b')
  {
    hide BuddyOf, Size;
  }

  /** The upper half is free and the lower half is not. */
  lemma SplitNoBuddies(b: Blocks, c: nat)
    requires NoBuddies(b) && Aligned(b) && Apart(b) && c in b && b[c].order > 0 && b[c].kind != Free
    ensures NoBuddies(Split(b, c))
  {
    hide Size, Apart, BuddyOf, Aligned;
    SplitOk(b, c);
    var o := b[c].order - 1;
    var b', u := Split(b, c), c + Size(o);
    forall p | p in b' && b'[p].kind == Free && b'[p].order < MAX_ORDER
      ensures !(BuddyOf(p, b'[p].order) in b' && b'[BuddyOf(p, b'[p].order)] == b'[p])
    {
      if p != u {
        assert p in b && b[p] == b'[p];
        BuddyBack(b, p);
      }
    }
  }

  lemma BuddyBack(b: Blocks, p: nat)
    requires Aligned(b) && p in b
    ensures BuddyOf(BuddyOf(p, b[p].order), b[p].order) == p && BuddyOf(p, b[p].order) != p
  {
    BuddyIs(p, b[p].order);
  }

  /** A block whose buddy is not free may be freed. */
  lemma FreedNoBuddies(b: Blocks, p: nat)
    requires NoBuddies(b) && Aligned(b) && p in b
    requires b[p].order == MAX_ORDER || BuddyOf(p, b[p].order) !in b ||
             b[BuddyOf(p, b[p].order)] != Block(b[p].order, Free)
    ensures NoBuddies(b[p := Block(b[p].order, Free)])
  {
    hide Size, BuddyOf, Aligned;
    var b' := b[p := Block(b[p].order, Free)];
    forall r | r in b' && b'[r].kind == Free && b'[r].order < MAX_ORDER
      ensures !(BuddyOf(r, b'[r].order) in b' && b'[BuddyOf(r, b'[r].order)] == b'[r])
    {
      BuddyBack(b, r);
    }
  }
}
