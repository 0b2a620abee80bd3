/** How a block tree grows when a lookup creates a missing logical block. */
module Growth {
  import opened BlockTree

  /** A freshly allocated block: a data block, or a zeroed pointer block. */
  ghost function Fresh(b: nat, ptrs: nat, level: nat): Tree {
    if level == 0 then Leaf(b) else Node(b, seq(ptrs, _ => Hole))
  }

  /**
   `t'` is `t` with blocks added that were free before (`u` and `u'` are the blocks in use before
   and after), and no logical block other than `idx` is mapped differently.
   */
  ghost predicate Grown(t: Tree, t': Tree, ptrs: nat, level: nat, idx: nat, u: set<nat>, u': set<nat>) {
    && Shaped(t, ptrs, level) && Shaped(t', ptrs, level) && Unshared(t')
    && Blocks(t) <= Blocks(t') && (Blocks(t') - Blocks(t)) !! u
    && Blocks(t) <= u && u' == u + Blocks(t') && Pointers(t) <= Pointers(t')
    && forall j: nat :: j < Span(ptrs, level) && j != idx ==> At(t', ptrs, level, j) == At(t, ptrs, level, j)
  }

  lemma GrownRefl(t: Tree, ptrs: nat, level: nat, idx: nat, u: set<nat>)
    requires Shaped(t, ptrs, level) && Unshared(t) && Blocks(t) <= u
    ensures Grown(t, t, ptrs, level, idx, u, u)
  {
  }

  lemma GrownTrans(t0: Tree, t1: Tree, t2: Tree, ptrs: nat, level: nat, idx: nat, u0: set<nat>, u1: set<nat>,
                   u2: set<nat>)
    requires Grown(t0, t1, ptrs, level, idx, u0, u1) && Grown(t1, t2, ptrs, level, idx, u1, u2)
    ensures Grown(t0, t2, ptrs, level, idx, u0, u2)
  {
    assert u2 == u0 + Blocks(t2);
    assert (Blocks(t2) - Blocks(t0)) !! u0;
  }

  lemma GrownFacts(t: Tree, t': Tree, ptrs: nat, level: nat, idx: nat, u: set<nat>, u': set<nat>)
    requires Grown(t, t', ptrs, level, idx, u, u')
    ensures Shaped(t', ptrs, level) && Unshared(t') && Blocks(t) <= Blocks(t') <= u' && u <= u'
    ensures (Blocks(t') - Blocks(t)) !! u && u' == u + Blocks(t') && Pointers(t) <= Pointers(t')
  {
  }

  lemma HolesEmpty(kids: seq<Tree>)
    requires forall i :: 0 <= i < |kids| ==> kids[i] == Hole
    ensures PointersOf(kids) == {} && BlocksOf(kids) == {} && UnsharedOf(kids)
  {
    assert Pointers(Hole) == {} && Blocks(Hole) == {};
  }

  lemma FreshBlocks(b: nat, ptrs: nat, level: nat)
    ensures Blocks(Fresh(b, ptrs, level)) == {b} && Unshared(Fresh(b, ptrs, level))
    ensures Pointers(Fresh(b, ptrs, level)) == if level == 0 then {} else {b}
    ensures b != 0 ==> Shaped(Fresh(b, ptrs, level), ptrs, level)
  {
    if level > 0 {
      var kids: seq<Tree> := seq(ptrs, _ => Hole);
      HolesEmpty(kids);
    }
  }

  lemma FreshAt(b: nat, ptrs: nat, level: nat, idx: nat)
    requires b != 0 && idx < Span(ptrs, level)
    ensures Shaped(Fresh(b, ptrs, level), ptrs, level)
    ensures At(Fresh(b, ptrs, level), ptrs, level, idx) == if level == 0 then b else 0
  {
    FreshBlocks(b, ptrs, level);
    if level > 0 {
      Digit(ptrs, level, idx);
    }
  }

  /** Allocating the root of an empty tree. */
  lemma GrownFresh(b: nat, ptrs: nat, level: nat, idx: nat, u: set<nat>)
    requires b != 0 && b !in u && idx < Span(ptrs, level)
    ensures Grown(Hole, Fresh(b, ptrs, level), ptrs, level, idx, u, u + {b})
  {
    FreshBlocks(b, ptrs, level);
    forall j: nat | j < Span(ptrs, level) && j != idx
      ensures At(Fresh(b, ptrs, level), ptrs, level, j) == 0
    {
      FreshAt(b, ptrs, level, j);
    }
  }

  /** The slots of a node with one child replaced by a grown one stay disjoint. */
  lemma {:induction false} ReplaceKidBlocks(kids: seq<Tree>, k: nat, kid: Tree, u: set<nat>)
    requires k < |kids| && UnsharedOf(kids) && BlocksOf(kids) <= u
    requires Unshared(kid) && Blocks(kids[k]) <= Blocks(kid) && (Blocks(kid) - Blocks(kids[k])) !! u
    ensures UnsharedOf(kids[k := kid])
    ensures BlocksOf(kids[k := kid]) == BlocksOf(kids) + Blocks(kid)
  {
    var kids' := kids[k := kid];
    forall i | 0 <= i < |kids|
      ensures Blocks(kids[i]) <= BlocksOf(kids)
      ensures i != k ==> Blocks(kids'[i]) !! Blocks(kid)
    {
      assert Blocks(kids[i]) <= BlocksOf(kids);
      assert i < k ==> Blocks(kids[i]) !! Blocks(kids[k]);
      assert k < i ==> Blocks(kids[k]) !! Blocks(kids[i]);
    }
    forall b | b in BlocksOf(kids) + Blocks(kid)
      ensures b in BlocksOf(kids')
    {
      if b in Blocks(kid) {
        assert b in Blocks(kids'[k]);
      } else {
        var i :| 0 <= i < |kids| && b in Blocks(kids[i]);
        assert b in Blocks(kids'[i]);
      }
    }
    forall b | b in BlocksOf(kids')
      ensures b in BlocksOf(kids) + Blocks(kid)
    {
      var i :| 0 <= i < |kids'| && b in Blocks(kids'[i]);
      assert i != k ==> b in Blocks(kids[i]);
    }
  }

  /** The pointer blocks of a node with one child replaced. */
  lemma ReplaceKidPointers(b: nat, kids: seq<Tree>, k: nat, kid: Tree)
    requires k < |kids|
    ensures var t' := Node(b, kids[k := kid]); b in Pointers(t') && Pointers(kid) <= Pointers(t')
    ensures Pointers(kids[k]) <= Pointers(kid) ==> Pointers(Node(b, kids)) <= Pointers(Node(b, kids[k := kid]))
  {
    var kids' := kids[k := kid];
    PointersAt(kids', k);
    if Pointers(kids[k]) <= Pointers(kid) {
      forall c | c in PointersOf(kids)
        ensures c in PointersOf(kids')
      {
        var i :| 0 <= i < |kids| && c in Pointers(kids[i]);
        assert c in Pointers(kids'[i]);
      }
    }
  }

  /** Growth below one slot is growth of the whole node, at the matching logical block. */
  lemma {:induction false} GrownKid(t: Tree, k: nat, kid: Tree, ptrs: nat, level: nat, idx: nat, u: set<nat>,
                                    u': set<nat>)
    requires level > 0 && t.Node? && Shaped(t, ptrs, level) && Unshared(t) && Blocks(t) <= u
    requires idx < Span(ptrs, level) && Span(ptrs, level - 1) > 0 && k == idx / Span(ptrs, level - 1) && k < ptrs
    requires Grown(t.kids[k], kid, ptrs, level - 1, idx % Span(ptrs, level - 1), u, u')
    ensures Grown(t, Node(t.bno, t.kids[k := kid]), ptrs, level, idx, u, u')
  {
    var s := Span(ptrs, level - 1);
    var t' := Node(t.bno, t.kids[k := kid]);
    NodeBlocks(t.bno, t.kids);
    NodeBlocks(t.bno, t'.kids);
    ReplaceKidBlocks(t.kids, k, kid, u);
    ReplaceKidPointers(t.bno, t.kids, k, kid);
    assert t.bno !in Blocks(kid) by {
      assert Blocks(t.kids[k]) <= BlocksOf(t.kids);
    }
    assert u' == u + Blocks(t');
    GrownKidAt(t, k, kid, ptrs, level, idx, u, u');
  }

  lemma {:induction false} GrownKidAt(t: Tree, k: nat, kid: Tree, ptrs: nat, level: nat, idx: nat, u: set<nat>,
                                      u': set<nat>)
    requires level > 0 && t.Node? && Shaped(t, ptrs, level)
    requires idx < Span(ptrs, level) && Span(ptrs, level - 1) > 0 && k == idx / Span(ptrs, level - 1) && k < ptrs
    requires Grown(t.kids[k], kid, ptrs, level - 1, idx % Span(ptrs, level - 1), u, u')
    ensures var t' := Node(t.bno, t.kids[k := kid]);
            && Shaped(t', ptrs, level)
            && At(t', ptrs, level, idx) == At(kid, ptrs, level - 1, idx % Span(ptrs, level - 1))
            && forall j: nat :: j < Span(ptrs, level) && j != idx ==> At(t', ptrs, level, j) == At(t, ptrs, level, j)
  {
    var s := Span(ptrs, level - 1);
    var t' := Node(t.bno, t.kids[k := kid]);
    forall j: nat | j < Span(ptrs, level) && j != idx
      ensures At(t', ptrs, level, j) == At(t, ptrs, level, j)
    {
      Digit(ptrs, level, j);
      Digit(ptrs, level, idx);
      assert j / s == k ==> j % s != idx % s;
    }
  }

  // How growth shows on disk.

  /** A zeroed block reads as a fresh pointer block; any block reads as a data block at level 0. */
  lemma FreshView(disk: Disk, ptrs: nat, b: nat, level: nat)
    requires b != 0 && (level > 0 ==> Row(disk, b) == Zeros(ptrs))
    ensures View(disk, ptrs, b, level) == Fresh(b, ptrs, level)
  {
    if level > 0 {
      forall i | 0 <= i < ptrs
        ensures Slot(disk, b, i) == 0
      {
      }
      var t := View(disk, ptrs, b, level);
      assert t.kids == seq(ptrs, _ => Hole);
    }
  }

  /** A node whose child below slot `k` changed reads as the node with that child replaced. */
  lemma {:induction false} KidView(d: Disk, d': Disk, ptrs: nat, b: nat, level: nat, k: nat, ptr: nat, kid: Tree)
    requires b != 0 && level > 0 && k < ptrs && Unshared(View(d, ptrs, b, level))
    requires |Row(d, b)| == ptrs && Row(d', b) == Row(d, b)[k := ptr]
    requires View(d', ptrs, ptr, level - 1) == kid
    requires SameOutside(d, d', {b} + Blocks(kid))
    requires Blocks(kid) !! (Blocks(View(d, ptrs, b, level)) - Blocks(View(d, ptrs, Slot(d, b, k), level - 1)))
    ensures View(d', ptrs, b, level) == Node(b, View(d, ptrs, b, level).kids[k := kid])
  {
    var t, t' := View(d, ptrs, b, level), View(d', ptrs, b, level);
    forall i | 0 <= i < ptrs && i != k
      ensures t'.kids[i] == t.kids[i]
    {
      assert Blocks(t.kids[i]) <= BlocksOf(t.kids);
      assert i < k ==> Blocks(t.kids[i]) !! Blocks(t.kids[k]);
      assert k < i ==> Blocks(t.kids[k]) !! Blocks(t.kids[i]);
      ViewFrame(d, d', {b} + Blocks(kid), ptrs, Slot(d, b, i), level - 1);
      assert Slot(d', b, i) == Slot(d, b, i);
    }
    assert Slot(d', b, k) == ptr;
    assert t'.kids == t.kids[k := kid];
  }

  lemma KidAt(t: Tree, ptrs: nat, level: nat, idx: nat)
    requires Shaped(t, ptrs, level) && level > 0 && idx < Span(ptrs, level)
    ensures t.Node? ==> At(t, ptrs, level, idx) ==
                        (Digit(ptrs, level, idx); At(t.kids[idx / Span(ptrs, level - 1)], ptrs, level - 1,
                                                     idx % Span(ptrs, level - 1)))
    ensures t.Hole? ==> At(t, ptrs, level, idx) == 0
    ensures t.Node? || t.Hole?
  {
  }
}
