/**
 The tree of blocks hanging off one slot of an inode's i_block array, as a mathematical value,
 and how it is read off the contents of the disk (src/fs/brkfs/inode.c).
 A level-0 tree is a data block; a level-n tree is a pointer block over level-(n-1) trees.
 */
module BlockTree {
  import opened Arith

  datatype Tree = Hole | Leaf(bno: nat) | Node(bno: nat, kids: seq<Tree>)

  type Disk = map<nat, seq<nat>>

  /** Logical blocks below one slot of a level-`level` tree (brkfs_indirect_span). */
  ghost function Span(ptrs: nat, level: nat): nat {
    if level == 0 then 1 else ptrs * Span(ptrs, level - 1)
  }

  lemma SpanPositive(ptrs: nat, level: nat)
    ensures Span(ptrs, 0) == 1
    ensures ptrs > 0 ==> Span(ptrs, level) > 0
  {
  }

  /** Every pointer block has `ptrs` slots and all data sits at level 0. */
  ghost predicate Shaped(t: Tree, ptrs: nat, level: nat)
    decreases level
  {
    match t
    case Hole => true
    case Leaf(b) => level == 0 && b != 0
    case Node(b, kids) =>
      level > 0 && b != 0 && |kids| == ptrs && forall i :: 0 <= i < |kids| ==> Shaped(kids[i], ptrs, level - 1)
  }

  ghost function Root(t: Tree): nat {
    if t.Hole? then 0 else t.bno
  }

  /** All blocks of the tree: data blocks and pointer blocks. */
  ghost function Blocks(t: Tree): set<nat> {
    match t
    case Hole => {}
    case Leaf(b) => {b}
    case Node(b, kids) => {b} + BlocksOf(kids)
  }

  ghost function BlocksOf(ts: seq<Tree>): set<nat> {
    set i, b | 0 <= i < |ts| && b in Blocks(ts[i]) :: b
  }

  /** The pointer blocks only. */
  ghost function Pointers(t: Tree): set<nat> {
    match t
    case Hole => {}
    case Leaf(_) => {}
    case Node(b, kids) => {b} + PointersOf(kids)
  }

  ghost function PointersOf(ts: seq<Tree>): set<nat> {
    set i, b | 0 <= i < |ts| && b in Pointers(ts[i]) :: b
  }

  lemma PointersOfInside(ts: seq<Tree>)
    ensures PointersOf(ts) <= BlocksOf(ts)
  {
    forall i | 0 <= i < |ts|
      ensures Pointers(ts[i]) <= Blocks(ts[i])
    {
      PointersAreBlocks(ts[i]);
    }
  }

  lemma PointersAt(ts: seq<Tree>, i: nat)
    requires i < |ts|
    ensures Pointers(ts[i]) <= PointersOf(ts)
  {
  }

  lemma PointersNode(t: Tree)
    requires t.Node?
    ensures Pointers(t) == {t.bno} + PointersOf(t.kids)
  {
  }

  /** No block occurs twice in the tree. */
  ghost predicate Unshared(t: Tree) {
    t.Node? ==> t.bno !in BlocksOf(t.kids) && UnsharedOf(t.kids)
  }

  ghost predicate UnsharedOf(ts: seq<Tree>) {
    && (forall i :: 0 <= i < |ts| ==> Unshared(ts[i]))
    && (forall i, j :: 0 <= i < j < |ts| ==> Blocks(ts[i]) !! Blocks(ts[j]))
  }

  /** Number of blocks, as brkfs_count_tree adds them up: one per non-zero pointer met. */
  ghost function Count(t: Tree): nat {
    match t
    case Hole => 0
    case Leaf(_) => 1
    case Node(_, kids) => 1 + CountOf(kids)
  }

  ghost function CountOf(ts: seq<Tree>): nat {
    if |ts| == 0 then 0 else CountOf(ts[..|ts| - 1]) + Count(ts[|ts| - 1])
  }

  /** The physical block of logical block `idx` of the tree, 0 for a hole. */
  ghost function At(t: Tree, ptrs: nat, level: nat, idx: nat): nat
    requires Shaped(t, ptrs, level) && idx < Span(ptrs, level)
    decreases level
  {
    match t
    case Hole => 0
    case Leaf(b) => b
    case Node(_, kids) =>
      var s := Span(ptrs, level - 1);
      Digit(ptrs, level, idx);
      At(kids[idx / s], ptrs, level - 1, idx % s)
  }

  /** The leading digit of an index selects a slot and the rest stays within the slot's span. */
  lemma Digit(ptrs: nat, level: nat, idx: nat)
    requires level > 0 && idx < Span(ptrs, level)
    ensures Span(ptrs, level - 1) > 0
    ensures 0 <= idx / Span(ptrs, level - 1) < ptrs
    ensures 0 <= idx % Span(ptrs, level - 1) < Span(ptrs, level - 1)
    ensures idx == idx / Span(ptrs, level - 1) * Span(ptrs, level - 1) + idx % Span(ptrs, level - 1)
  {
    var s := Span(ptrs, level - 1);
    assert s == 0 ==> ptrs * s == 0;
    var q := idx / s;
    assert idx == q * s + idx % s;
    assert q >= ptrs ==> q * s >= ptrs * s;
  }

  /** Putting the digits together again: the inverse of the decomposition. */
  lemma DigitUnique(ptrs: nat, level: nat, q: nat, r: nat)
    requires level > 0 && q < ptrs && r < Span(ptrs, level - 1)
    ensures q * Span(ptrs, level - 1) + r < Span(ptrs, level)
    ensures (q * Span(ptrs, level - 1) + r) / Span(ptrs, level - 1) == q
    ensures (q * Span(ptrs, level - 1) + r) % Span(ptrs, level - 1) == r
  {
    var s := Span(ptrs, level - 1);
    assert (q + 1) * s <= ptrs * s;
    DivModUnique(q * s + r, s, q, r);
  }

  /** A mapped logical block is a block of the tree and never one of its pointer blocks. */
  lemma {:induction false} AtIsData(t: Tree, ptrs: nat, level: nat, idx: nat)
    requires Shaped(t, ptrs, level) && idx < Span(ptrs, level) && Unshared(t)
    requires At(t, ptrs, level, idx) != 0
    ensures At(t, ptrs, level, idx) in Blocks(t)
    ensures At(t, ptrs, level, idx) !in Pointers(t)
    decreases level
  {
    if t.Node? {
      Digit(ptrs, level, idx);
      var s := Span(ptrs, level - 1);
      var k := idx / s;
      AtIsData(t.kids[k], ptrs, level - 1, idx % s);
      forall i | 0 <= i < |t.kids| && i != k
        ensures At(t, ptrs, level, idx) !in Pointers(t.kids[i])
      {
        PointersAreBlocks(t.kids[i]);
      }
    }
  }

  lemma {:induction false} PointersAreBlocks(t: Tree)
    ensures Pointers(t) <= Blocks(t)
  {
    if t.Node? {
      forall i | 0 <= i < |t.kids|
        ensures Pointers(t.kids[i]) <= Blocks(t.kids[i])
      {
        PointersAreBlocks(t.kids[i]);
      }
    }
  }

  /** Distinct logical blocks have distinct physical blocks. */
  lemma {:induction false} AtInjective(t: Tree, ptrs: nat, level: nat, i: nat, j: nat)
    requires Shaped(t, ptrs, level) && Unshared(t)
    requires i < Span(ptrs, level) && j < Span(ptrs, level)
    requires At(t, ptrs, level, i) == At(t, ptrs, level, j) != 0
    ensures i == j
    decreases level
  {
    if t.Node? {
      Digit(ptrs, level, i);
      Digit(ptrs, level, j);
      var s := Span(ptrs, level - 1);
      AtIsData(t.kids[i / s], ptrs, level - 1, i % s);
      AtIsData(t.kids[j / s], ptrs, level - 1, j % s);
      AtInjective(t.kids[i / s], ptrs, level - 1, i % s, j % s);
    }
  }

  /** In an unshared tree the count is the number of distinct blocks. */
  lemma {:induction false} CountIsSize(t: Tree)
    requires Unshared(t)
    ensures Count(t) == |Blocks(t)|
  {
    if t.Node? {
      CountOfIsSize(t.kids);
    }
  }

  lemma BlocksOfSplit(ts: seq<Tree>, n: nat)
    requires n < |ts|
    ensures BlocksOf(ts[..n + 1]) == BlocksOf(ts[..n]) + Blocks(ts[n])
  {
    var pre, ext := ts[..n], ts[..n + 1];
    forall b | b in BlocksOf(pre) + Blocks(ts[n])
      ensures b in BlocksOf(ext)
    {
      if b in BlocksOf(pre) {
        var i :| 0 <= i < n && b in Blocks(pre[i]);
        assert b in Blocks(ext[i]);
      } else {
        assert b in Blocks(ext[n]);
      }
    }
    forall b | b in BlocksOf(ext)
      ensures b in BlocksOf(pre) + Blocks(ts[n])
    {
      var i :| 0 <= i <= n && b in Blocks(ext[i]);
      assert i < n ==> b in Blocks(pre[i]);
    }
  }

  lemma UnsharedSplit(ts: seq<Tree>, n: nat)
    requires UnsharedOf(ts) && n < |ts|
    ensures UnsharedOf(ts[..n]) && Unshared(ts[n])
    ensures BlocksOf(ts[..n]) !! Blocks(ts[n])
    ensures Blocks(ts[n]) <= BlocksOf(ts)
  {
    var pre := ts[..n];
    forall i, j | 0 <= i < j < n
      ensures Blocks(pre[i]) !! Blocks(pre[j])
    {
      assert Blocks(ts[i]) !! Blocks(ts[j]);
    }
    forall b | b in BlocksOf(pre)
      ensures b !in Blocks(ts[n])
    {
      var i :| 0 <= i < n && b in Blocks(pre[i]);
      assert Blocks(ts[i]) !! Blocks(ts[n]);
    }
  }

  lemma {:induction false} CountOfIsSize(ts: seq<Tree>)
    requires UnsharedOf(ts)
    ensures CountOf(ts) == |BlocksOf(ts)|
  {
    if |ts| > 0 {
      hide BlocksOf, UnsharedOf, Unshared;
      var n := |ts| - 1;
      UnsharedSplit(ts, n);
      BlocksOfSplit(ts, n);
      CountOfIsSize(ts[..n]);
      CountIsSize(ts[n]);
      assert ts[..n + 1] == ts;
    }
  }

  /** The contents of a zeroed block. */
  function Zeros(ptrs: nat): seq<nat> {
    seq(ptrs, _ => 0)
  }

  /** A pointer vector with slot `i` replaced. */
  function WithPtr(row: seq<nat>, i: nat, ptr: nat): seq<nat>
    requires i < |row|
  {
    row[i := ptr]
  }

  /** The pointer vector stored in block `b`. */
  ghost function Row(disk: Disk, b: nat): seq<nat> {
    if b in disk then disk[b] else []
  }

  /** The pointer in slot `i` of block `b` as stored on disk. */
  ghost function Slot(disk: Disk, b: nat, i: nat): nat {
    if i < |Row(disk, b)| then Row(disk, b)[i] else 0
  }

  /** The two disks agree on every block outside `s`. */
  ghost predicate SameOutside(disk: Disk, disk': Disk, s: set<nat>) {
    forall c: nat :: c !in s ==> Row(disk, c) == Row(disk', c)
  }

  /** The tree below pointer `b`, read off the disk. */
  ghost function View(disk: Disk, ptrs: nat, b: nat, level: nat): (t: Tree)
    ensures Shaped(t, ptrs, level) && Root(t) == b
    decreases level
  {
    if b == 0 then Hole
    else if level == 0 then Leaf(b)
    else Node(b, seq(ptrs, i requires 0 <= i < ptrs => View(disk, ptrs, Slot(disk, b, i), level - 1)))
  }

  lemma ViewRoot(disk: Disk, ptrs: nat, b: nat, level: nat)
    ensures var t := View(disk, ptrs, b, level);
            if b == 0 then t == Hole && Blocks(t) == {} && Unshared(t)
            else !t.Hole? && t.bno == b && b in Blocks(t) && (level == 0 ==> t == Leaf(b) && Blocks(t) == {b})
  {
  }

  lemma ViewNode(disk: Disk, ptrs: nat, b: nat, level: nat)
    requires b != 0 && level > 0
    ensures var t := View(disk, ptrs, b, level);
            && t.Node? && t.bno == b && |t.kids| == ptrs
            && Blocks(t) == {b} + BlocksOf(t.kids)
  {
  }

  lemma ViewKid(disk: Disk, ptrs: nat, b: nat, level: nat, i: nat)
    requires b != 0 && level > 0 && i < ptrs
    ensures var t := View(disk, ptrs, b, level);
            && t.Node? && |t.kids| == ptrs
            && t.kids[i] == View(disk, ptrs, Slot(disk, b, i), level - 1)
            && (Slot(disk, b, i) == 0 ==> t.kids[i] == Hole && Blocks(t.kids[i]) == {})
            && (b in disk && i < |disk[b]| ==> Slot(disk, b, i) == disk[b][i])
  {
  }

  lemma UnsharedNode(t: Tree)
    requires t.Node?
    ensures Unshared(t) <==> t.bno !in BlocksOf(t.kids) && UnsharedOf(t.kids)
  {
  }

  lemma BlocksOfNone(ts: seq<Tree>)
    ensures BlocksOf(ts[..0]) == {}
  {
  }

  /** A tree is unchanged when none of its own blocks is rewritten. */
  lemma ViewFrame(disk: Disk, disk': Disk, s: set<nat>, ptrs: nat, b: nat, level: nat)
    requires SameOutside(disk, disk', s) && s !! Blocks(View(disk, ptrs, b, level))
    ensures View(disk', ptrs, b, level) == View(disk, ptrs, b, level)
  {
    PointersAreBlocks(View(disk, ptrs, b, level));
    PointerFrame(disk, disk', s, ptrs, b, level);
  }

  /** Only what the pointer blocks hold matters. */
  lemma {:induction false} PointerFrame(disk: Disk, disk': Disk, s: set<nat>, ptrs: nat, b: nat, level: nat)
    requires SameOutside(disk, disk', s) && s !! Pointers(View(disk, ptrs, b, level))
    ensures View(disk', ptrs, b, level) == View(disk, ptrs, b, level)
    decreases level
  {
    var t := View(disk, ptrs, b, level);
    if t.Node? {
      assert Row(disk, b) == Row(disk', b);
      forall i | 0 <= i < ptrs
        ensures View(disk', ptrs, Slot(disk', b, i), level - 1) == t.kids[i]
      {
        PointersAt(t.kids, i);
        PointerFrame(disk, disk', s, ptrs, Slot(disk, b, i), level - 1);
      }
      var t' := View(disk', ptrs, b, level);
      assert t'.kids == t.kids;
    }
  }

  lemma SameOutsideRefl(disk: Disk, s: set<nat>)
    ensures SameOutside(disk, disk, s)
  {
  }

  lemma SameOutsideTrans(d0: Disk, d1: Disk, d2: Disk, s: set<nat>, s': set<nat>)
    requires SameOutside(d0, d1, s) && SameOutside(d1, d2, s') && s' <= s
    ensures SameOutside(d0, d2, s)
  {
  }

  lemma SameOutsideWiden(disk: Disk, disk': Disk, s: set<nat>, s': set<nat>)
    requires SameOutside(disk, disk', s) && s <= s'
    ensures SameOutside(disk, disk', s')
  {
  }

  lemma RowAt(disk: Disk, disk': Disk, s: set<nat>, b: nat)
    requires SameOutside(disk, disk', s) && b !in s && b in disk && b in disk'
    ensures disk[b] == disk'[b]
  {
    assert Row(disk, b) == Row(disk', b);
  }

  /** Storing a pointer vector whose subtrees avoid the block itself gives exactly that node. */
  lemma StoredNode(disk: Disk, b: nat, row: seq<nat>, ptrs: nat, level: nat, kids: seq<Tree>)
    requires b != 0 && level > 0 && |row| == ptrs == |kids| && b !in BlocksOf(kids)
    requires forall i :: 0 <= i < ptrs ==> View(disk, ptrs, row[i], level - 1) == kids[i]
    ensures View(disk[b := row], ptrs, b, level) == Node(b, kids)
    ensures SameOutside(disk, disk[b := row], {b})
  {
    var disk' := disk[b := row];
    forall i | 0 <= i < ptrs
      ensures View(disk', ptrs, Slot(disk', b, i), level - 1) == kids[i]
    {
      assert Row(disk', b) == row;
      assert b !in Blocks(kids[i]);
      ViewFrame(disk, disk', {b}, ptrs, row[i], level - 1);
    }
    var t := View(disk', ptrs, b, level);
    assert t.kids == kids;
  }

  lemma NodeBlocks(b: nat, kids: seq<Tree>)
    ensures Blocks(Node(b, kids)) == {b} + BlocksOf(kids)
  {
  }
}
