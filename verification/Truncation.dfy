/** What truncation leaves of a block tree: the part below the cut, with empty pointer blocks pruned. */
module Truncation {
  import opened Arith
  import opened BlockTree

  ghost predicate AllHoles(ts: seq<Tree>) {
    forall i :: 0 <= i < |ts| ==> ts[i].Hole?
  }

  /** The children of a pointer block after cutting at `c`. */
  ghost function CutKids(kids: seq<Tree>, ptrs: nat, level: nat, c: int): (r: seq<Tree>)
    requires |kids| == ptrs && level > 0
    requires forall i :: 0 <= i < ptrs ==> Shaped(kids[i], ptrs, level - 1)
    ensures |r| == ptrs
    decreases level, 0
  {
    seq(ptrs, i requires 0 <= i < ptrs => Cut(kids[i], ptrs, level - 1, c - i * Span(ptrs, level - 1)))
  }

  ghost function Cut(t: Tree, ptrs: nat, level: nat, c: int): Tree
    requires Shaped(t, ptrs, level)
    decreases level, 1
  {
    if t.Hole? || c <= 0 then Hole
    else if c >= Span(ptrs, level) then t
    else
      var kids := CutKids(t.kids, ptrs, level, c);
      if AllHoles(kids) then Hole else Node(t.bno, kids)
  }

  /** The cut tree is well shaped, shares nothing, and holds only blocks of the original. */
  lemma {:induction false} CutStructure(t: Tree, ptrs: nat, level: nat, c: int)
    requires Shaped(t, ptrs, level) && Unshared(t)
    ensures Shaped(Cut(t, ptrs, level, c), ptrs, level)
    ensures Unshared(Cut(t, ptrs, level, c))
    ensures Blocks(Cut(t, ptrs, level, c)) <= Blocks(t)
    decreases level
  {
    if !t.Hole? && 0 < c < Span(ptrs, level) {
      var kids := CutKids(t.kids, ptrs, level, c);
      forall i | 0 <= i < ptrs
        ensures Shaped(kids[i], ptrs, level - 1) && Unshared(kids[i]) && Blocks(kids[i]) <= Blocks(t.kids[i])
      {
        CutStructure(t.kids[i], ptrs, level - 1, c - i * Span(ptrs, level - 1));
      }
      CutKidsUnshared(t.kids, kids);
    }
  }

  lemma CutKidsUnshared(kids: seq<Tree>, kids': seq<Tree>)
    requires |kids| == |kids'| && UnsharedOf(kids)
    requires forall i :: 0 <= i < |kids| ==> Unshared(kids'[i]) && Blocks(kids'[i]) <= Blocks(kids[i])
    ensures UnsharedOf(kids') && BlocksOf(kids') <= BlocksOf(kids)
  {
    forall b | b in BlocksOf(kids')
      ensures b in BlocksOf(kids)
    {
      var i :| 0 <= i < |kids'| && b in Blocks(kids'[i]);
      assert b in Blocks(kids[i]);
    }
    forall i, j | 0 <= i < j < |kids'|
      ensures Blocks(kids'[i]) !! Blocks(kids'[j])
    {
      assert Blocks(kids[i]) !! Blocks(kids[j]);
    }
  }

  /** Truncation as a caller sees it: the same map below the cut, holes from the cut on. */
  lemma {:induction false} CutAt(t: Tree, ptrs: nat, level: nat, c: int, idx: nat)
    requires Shaped(t, ptrs, level) && Unshared(t) && idx < Span(ptrs, level)
    ensures Shaped(Cut(t, ptrs, level, c), ptrs, level)
    ensures At(Cut(t, ptrs, level, c), ptrs, level, idx) == if idx < c then At(t, ptrs, level, idx) else 0
    decreases level
  {
    CutStructure(t, ptrs, level, c);
    if !t.Hole? && 0 < c < Span(ptrs, level) {
      Digit(ptrs, level, idx);
      var s := Span(ptrs, level - 1);
      var k := idx / s;
      assert idx == k * s + idx % s;
      CutAt(t.kids[k], ptrs, level - 1, c - k * s, idx % s);
      var kids := CutKids(t.kids, ptrs, level, c);
      assert kids[k] == Cut(t.kids[k], ptrs, level - 1, c - k * s);
    }
  }

  /** Every pointer block leads to some data block. */
  ghost predicate Pruned(t: Tree) {
    t.Node? ==> !AllHoles(t.kids) && forall i :: 0 <= i < |t.kids| ==> Pruned(t.kids[i])
  }

  /** Truncation leaves no pointer block without data behind it. */
  lemma {:induction false} CutPruned(t: Tree, ptrs: nat, level: nat, c: int)
    requires Shaped(t, ptrs, level) && Pruned(t)
    ensures Pruned(Cut(t, ptrs, level, c))
    decreases level
  {
    if !t.Hole? && 0 < c < Span(ptrs, level) {
      forall i | 0 <= i < ptrs
        ensures Pruned(CutKids(t.kids, ptrs, level, c)[i])
      {
        CutPruned(t.kids[i], ptrs, level - 1, c - i * Span(ptrs, level - 1));
      }
    }
  }

  // Unfolding steps for the truncation walk.

  lemma CutTrivial(t: Tree, ptrs: nat, level: nat, c: int)
    requires Shaped(t, ptrs, level)
    ensures t.Hole? || c <= 0 ==> Cut(t, ptrs, level, c) == Hole && Blocks(Cut(t, ptrs, level, c)) == {}
    ensures c >= Span(ptrs, level) ==> c > 0 ==> Cut(t, ptrs, level, c) == t
  {
  }

  lemma CutNode(t: Tree, ptrs: nat, level: nat, c: int)
    requires Shaped(t, ptrs, level) && t.Node? && 0 < c < Span(ptrs, level)
    requires Unshared(t)
    ensures level > 0 && |t.kids| == ptrs
    ensures forall i :: 0 <= i < ptrs ==> Shaped(t.kids[i], ptrs, level - 1)
    ensures var kids := CutKids(t.kids, ptrs, level, c);
            && Cut(t, ptrs, level, c) == (if AllHoles(kids) then Hole else Node(t.bno, kids))
            && BlocksOf(kids) <= BlocksOf(t.kids)
            && (AllHoles(kids) ==> BlocksOf(kids) == {})
  {
    var kids := CutKids(t.kids, ptrs, level, c);
    forall i | 0 <= i < ptrs
      ensures Unshared(kids[i]) && Blocks(kids[i]) <= Blocks(t.kids[i])
    {
      CutStructure(t.kids[i], ptrs, level - 1, c - i * Span(ptrs, level - 1));
    }
    CutKidsUnshared(t.kids, kids);
  }

  lemma CutKidAt(t: Tree, ptrs: nat, level: nat, c: int, i: nat)
    requires Shaped(t, ptrs, level) && t.Node? && level > 0 && i < ptrs == |t.kids|
    requires Unshared(t)
    ensures Shaped(t.kids[i], ptrs, level - 1) && Unshared(t.kids[i])
    ensures forall i :: 0 <= i < ptrs ==> Shaped(t.kids[i], ptrs, level - 1)
    ensures var kid := CutKids(t.kids, ptrs, level, c)[i];
            && kid == Cut(t.kids[i], ptrs, level - 1, c - i * Span(ptrs, level - 1))
            && Blocks(kid) <= Blocks(t.kids[i])
  {
    CutStructure(t.kids[i], ptrs, level - 1, c - i * Span(ptrs, level - 1));
  }

  lemma CutKidsBlocks(t: Tree, ptrs: nat, level: nat, c: int)
    requires Shaped(t, ptrs, level) && t.Node? && level > 0 && ptrs == |t.kids|
    requires Unshared(t)
    ensures forall i :: 0 <= i < ptrs ==> Shaped(t.kids[i], ptrs, level - 1)
    ensures forall i :: 0 <= i < ptrs ==> Blocks(CutKids(t.kids, ptrs, level, c)[i]) <= Blocks(t.kids[i])
  {
    forall i | 0 <= i < ptrs
      ensures Blocks(CutKids(t.kids, ptrs, level, c)[i]) <= Blocks(t.kids[i])
    {
      CutKidAt(t, ptrs, level, c, i);
    }
  }

  lemma AllHolesSplit(ts: seq<Tree>, i: nat)
    requires i < |ts|
    ensures AllHoles(ts[..i + 1]) <==> AllHoles(ts[..i]) && ts[i].Hole?
  {
    assert AllHoles(ts[..i + 1]) ==> ts[..i + 1][i].Hole?;
    assert forall k :: 0 <= k < i ==> ts[..i + 1][k] == ts[..i][k];
  }
}
