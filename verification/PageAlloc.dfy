/**
 The buddy allocator and its per-CPU page caches (src/mm/pgalloc.c). Page frames stand for struct page, and the
 free lists and caches are lists of page frames. `blocks` is what the lists and the flags amount to.
 */
module PageAlloc {
  import opened BuddyBlocks

  const PCP_MAX: nat := 64

  /** The flags and the order of a struct page. */
  datatype Info = Info(buddy: bool, head: bool, free: bool, pcp: bool, order: nat)

  datatype Option<T> = None | Some(value: T)

  function At(info: map<nat, Info>, p: nat): Info {
    if p in info then info[p] else Info(false, false, false, false, 0)
  }

  function InfoOf(b: Block): Info {
    Info(true, true, b.kind != Live, b.kind.Cached?, b.order)
  }

  ghost predicate Distinct(s: seq<nat>) {
    forall i, j :: 0 <= i < j < |s| ==> s[i] != s[j]
  }

  function Without(s: seq<nat>, p: nat): seq<nat> {
    if |s| == 0 then [] else if s[0] == p then Without(s[1..], p) else [s[0]] + Without(s[1..], p)
  }

  lemma {:induction false} WithoutIs(s: seq<nat>, p: nat)
    requires Distinct(s)
    ensures Distinct(Without(s, p)) && forall q :: q in Without(s, p) <==> q in s && q != p
    ensures |Without(s, p)| == if p in s then |s| - 1 else |s|
  {
    if |s| > 0 {
      assert s == [s[0]] + s[1..];
      assert s[0] !in s[1..];
      WithoutIs(s[1..], p);
    }
  }

  lemma FrontDistinct(s: seq<nat>, p: nat)
    requires Distinct(s) && p !in s
    ensures Distinct([p] + s)
  {
  }

  lemma LastIs(s: seq<nat>)
    requires Distinct(s) && s != []
    ensures Distinct(s[..|s| - 1]) && s[|s| - 1] in s && forall q :: q in s[..|s| - 1] <==> q in s && q != s[|s| - 1]
  {
    assert s == s[..|s| - 1] + [s[|s| - 1]];
  }

  /** List `o` holds the free blocks of order `o`, each once. */
  ghost predicate ListOk(list: seq<nat>, blocks: Blocks, o: nat) {
    Distinct(list) && forall p :: p in list <==> p in blocks && blocks[p] == Block(o, Free)
  }

  ghost predicate ListsOk(areas: seq<seq<nat>>, blocks: Blocks) {
    |areas| == MAX_ORDER + 1 && forall o :: 0 <= o < |areas| ==> ListOk(areas[o], blocks, o)
  }

  ghost predicate PcpOk(pages: seq<nat>, blocks: Blocks, c: nat) {
    Distinct(pages) && |pages| <= PCP_MAX && forall p :: p in pages <==> p in blocks && blocks[p] == Block(0, Cached(c))
  }

  ghost predicate PcpsOk(pcps: seq<seq<nat>>, blocks: Blocks) {
    && (forall c :: 0 <= c < |pcps| ==> PcpOk(pcps[c], blocks, c))
    && (forall p :: p in blocks && blocks[p].kind.Cached? ==> blocks[p].order == 0 && blocks[p].kind.cpu < |pcps|)
  }

  /** The flags say what each block is, and a page that heads no block has none; page `hand` is in between. */
  ghost predicate InfoOk(info: map<nat, Info>, blocks: Blocks, hand: Option<nat>) {
    forall p: nat :: hand != Some(p) ==> if p in blocks then At(info, p) == InfoOf(blocks[p]) else !At(info, p).buddy
  }

  ghost predicate BlocksOk(blocks: Blocks) {
    Aligned(blocks) && Apart(blocks) && NoBuddies(blocks)
  }

  /** page_is_buddy: right about every page but the one in hand. */
  predicate IsBuddy(i: Info, order: nat) {
    i.buddy && i.head && i.free && !i.pcp && i.order == order
  }

  lemma IsBuddyExact(info: map<nat, Info>, blocks: Blocks, hand: Option<nat>, p: nat, o: nat)
    requires InfoOk(info, blocks, hand) && hand != Some(p)
    ensures IsBuddy(At(info, p), o) <==> p in blocks && blocks[p] == Block(o, Free)
  {
    if p in blocks {
      assert At(info, p) == InfoOf(blocks[p]);
    }
  }

  // What one move between kinds does to the lists.

  /** Block `p` leaves list `o` and becomes the allocator's own. */
  lemma TakeList(areas: seq<seq<nat>>, blocks: Blocks, p: nat, rest: seq<nat>)
    requires ListsOk(areas, blocks) && p in blocks && blocks[p].kind == Free && blocks[p].order <= MAX_ORDER
    requires Distinct(rest) && forall q :: q in rest <==> q in areas[blocks[p].order] && q != p
    ensures ListsOk(areas[blocks[p].order := rest], blocks[p := Block(blocks[p].order, Live)])
  {
    hide Distinct;
    var areas', blocks' := areas[blocks[p].order := rest], blocks[p := Block(blocks[p].order, Live)];
    forall o | 0 <= o < |areas'|
      ensures ListOk(areas'[o], blocks', o)
    {
      assert ListOk(areas[o], blocks, o);
    }
  }

  lemma PushList(areas: seq<seq<nat>>, blocks: Blocks, p: nat)
    requires ListsOk(areas, blocks) && p in blocks && blocks[p].kind != Free && blocks[p].order <= MAX_ORDER
    ensures ListsOk(areas[blocks[p].order := [p] + areas[blocks[p].order]], blocks[p := Block(blocks[p].order, Free)])
  {
    var k := blocks[p].order;
    assert ListOk(areas[k], blocks, k);
    FrontDistinct(areas[k], p);
    hide Distinct;
    var areas', blocks' := areas[k := [p] + areas[k]], blocks[p := Block(k, Free)];
    forall o | 0 <= o < |areas'|
      ensures ListOk(areas'[o], blocks', o)
    {
      assert ListOk(areas[o], blocks, o);
    }
  }

  lemma SplitList(areas: seq<seq<nat>>, blocks: Blocks, c: nat)
    requires ListsOk(areas, blocks) && c in blocks && blocks[c].kind == Live && 0 < blocks[c].order <= MAX_ORDER &&
             c + Size(blocks[c].order - 1) !in blocks
    ensures var o := blocks[c].order - 1; ListsOk(areas[o := [c + Size(o)] + areas[o]], Split(blocks, c))
  {
    hide Size;
    var k := blocks[c].order - 1;
    var u := c + Size(k);
    assert ListOk(areas[k], blocks, k);
    FrontDistinct(areas[k], u);
    hide Distinct;
    var areas', blocks' := areas[k := [u] + areas[k]], Split(blocks, c);
    forall o | 0 <= o < |areas'|
      ensures ListOk(areas'[o], blocks', o)
    {
      assert ListOk(areas[o], blocks, o);
    }
  }

  lemma MergeList(areas: seq<seq<nat>>, blocks: Blocks, p: nat)
    requires ListsOk(areas, blocks) && p in blocks && blocks[p].kind == Live && blocks[p].order <= MAX_ORDER
    requires BuddyOf(p, blocks[p].order) in blocks &&
             blocks[BuddyOf(p, blocks[p].order)] == Block(blocks[p].order, Free)
    ensures var o := blocks[p].order; ListsOk(areas[o := Without(areas[o], BuddyOf(p, o))], Merge(blocks, p))
  {
    hide BuddyOf, Without;
    var k := blocks[p].order;
    var q := BuddyOf(p, k);
    assert ListOk(areas[k], blocks, k);
    WithoutIs(areas[k], q);
    hide Distinct;
    var areas', blocks' := areas[k := Without(areas[k], q)], Merge(blocks, p);
    forall o | 0 <= o < |areas'|
      ensures ListOk(areas'[o], blocks', o)
    {
      assert ListOk(areas[o], blocks, o);
    }
  }

  /** The per-CPU caches do not notice a change of blocks that are not cached. */
  lemma PcpsSame(pcps: seq<seq<nat>>, blocks: Blocks, blocks': Blocks)
    requires PcpsOk(pcps, blocks) && CachedSame(blocks, blocks')
    ensures PcpsOk(pcps, blocks')
  {
    hide Distinct;
    forall c | 0 <= c < |pcps|
      ensures PcpOk(pcps[c], blocks', c)
    {
      assert PcpOk(pcps[c], blocks, c);
    }
  }

  // The flags.

  lemma HandInfo(info: map<nat, Info>, blocks: Blocks, p: nat)
    requires InfoOk(info, blocks, None)
    ensures InfoOk(info, blocks, Some(p))
  {
    hide At, InfoOf;
  }

  /** The page in hand gets the flags of its block. */
  lemma PlaceInfo(info: map<nat, Info>, blocks: Blocks, p: nat, b: Block)
    requires InfoOk(info, blocks, Some(p)) && p in blocks
    ensures InfoOk(info[p := InfoOf(b)], blocks[p := b], None)
  {
    hide InfoOf;
  }

  /** Flags of a merged pair: the buddy's are cleared, and the pair is in hand under its lower page. */
  lemma MergeInfo(info: map<nat, Info>, blocks: Blocks, p: nat, cleared: Info)
    requires InfoOk(info, blocks, Some(p)) && p in blocks && !At(info, p).buddy && !cleared.buddy
    requires BuddyOf(p, blocks[p].order) in blocks && BuddyOf(p, blocks[p].order) != p
    ensures var q := BuddyOf(p, blocks[p].order); var lo := if p < q then p else q;
            && InfoOk(info[q := cleared], Merge(blocks, p), Some(lo))
            && !At(info[q := cleared], lo).buddy
  {
    hide InfoOf, BuddyOf;
  }

  lemma SplitInfo(info: map<nat, Info>, blocks: Blocks, c: nat, own: Info)
    requires InfoOk(info, blocks, Some(c)) && c in blocks && blocks[c].order > 0 &&
             c + Size(blocks[c].order - 1) !in blocks
    ensures var o := blocks[c].order - 1;
            InfoOk(info[c := own][c + Size(o) := InfoOf(Block(o, Free))], Split(blocks, c), Some(c))
  {
    hide InfoOf, Size;
    assert Size(blocks[c].order - 1) > 0;
  }

  /** The same live blocks, but for `p`. */
  ghost predicate LiveBut(b: Blocks, b': Blocks, p: Option<nat>) {
    forall q :: p != Some(q) ==>
        (q in b && b[q].kind == Live <==> q in b' && b'[q].kind == Live) &&
        (q in b && b[q].kind == Live && q in b' ==> b[q] == b'[q])
  }

  lemma LiveTrans(a: Blocks, b: Blocks, c: Blocks, p: Option<nat>)
    requires LiveBut(a, b, p) && LiveBut(b, c, p)
    ensures LiveBut(a, c, p)
  {
  }

  class Allocator {
    var areas: seq<seq<nat>>
    var pcps: seq<seq<nat>>
    var info: map<nat, Info>
    var refs: map<nat, nat>
    ghost var blocks: Blocks

    ghost predicate Valid()
      reads `areas, `pcps, `info, `blocks
    {
      BlocksOk(blocks) && ListsOk(areas, blocks) && PcpsOk(pcps, blocks) && InfoOk(info, blocks, None)
    }

    lemma Parts()
      requires Valid()
      ensures BlocksOk(blocks) && ListsOk(areas, blocks) && PcpsOk(pcps, blocks) && InfoOk(info, blocks, None) &&
              |areas| == MAX_ORDER + 1
    {
    }

    lemma Whole()
      requires BlocksOk(blocks) && ListsOk(areas, blocks) && PcpsOk(pcps, blocks) && InfoOk(info, blocks, None)
      ensures Valid()
    {
    }

    /**
     __page_free_to_buddy: the block goes back, merged with its buddy as long as that is free too. The pages
     managed are the same, no other live block is touched, and no two free buddies are left.
     */
    method FreeToBuddy(page: nat, order: nat)
      requires Valid() && page in blocks && blocks[page] == Block(order, Live)
      modifies `areas, `info, `blocks
      ensures Valid() && SameCover(old(blocks), blocks)
      ensures LiveBut(old(blocks), blocks, Some(page)) && !(page in blocks && blocks[page].kind == Live)
      ensures CachedSame(old(blocks), blocks)
    {
      hide *;
      Parts();
      var pg, o := page, order;
      HandInfo(info, blocks, pg);
      ClearHand(info, blocks, pg);
      FreeStart(blocks, page, order);
      info := info[pg := Cleared(At(info, pg))];
      while o < MAX_ORDER
        invariant o <= MAX_ORDER && Freeing(old(blocks), blocks, page, pg, o)
        invariant ListsOk(areas, blocks) && PcpsOk(pcps, blocks) && |areas| == MAX_ORDER + 1
        invariant InfoOk(info, blocks, Some(pg)) && !At(info, pg).buddy
      {
        var buddy := BuddyOf(pg, o);
        FreeNext(old(blocks), blocks, page, pg, o);
        IsBuddyExact(info, blocks, Some(pg), buddy, o);
        if !IsBuddy(At(info, buddy), o) {
          break;
        }
        FreeMerge(old(blocks), blocks, page, pg, o);
        MergeList(areas, blocks, pg);
        PcpsSame(pcps, blocks, Merge(blocks, pg));
        ClearedIs(At(info, buddy));
        MergeInfo(info, blocks, pg, Cleared(At(info, buddy)));
        areas := areas[o := Without(areas[o], buddy)];
        info := info[buddy := Cleared(At(info, buddy))];
        blocks := Merge(blocks, pg);
        pg := if pg < buddy then pg else buddy;
        o := o + 1;
      }
      FreeEnd(old(blocks), blocks, page, pg, o);
      PushList(areas, blocks, pg);
      PcpsSame(pcps, blocks, blocks[pg := Block(o, Free)]);
      PlaceInfo(info, blocks, pg, Block(o, Free));
      info := info[pg := InfoOf(Block(o, Free))];
      areas := areas[o := [pg] + areas[o]];
      blocks := blocks[pg := Block(o, Free)];
      Whole();
    }

    /** pcp_alloc. */
    method PcpAlloc(cpu: nat) returns (page: Option<nat>)
      requires Valid() && cpu < |pcps|
      modifies `pcps, `info, `blocks
      ensures Valid() && |pcps| == |old(pcps)| && SameCover(old(blocks), blocks)
      ensures page.None? ==> blocks == old(blocks) && old(pcps)[cpu] == [] && pcps == old(pcps)
      ensures page.Some? ==>
              page.value in old(blocks) && old(blocks)[page.value] == Block(0, Cached(cpu)) &&
              blocks == old(blocks)[page.value := Block(0, Live)]
    {
      hide *;
      Parts();
      SameOrdersCover(blocks, blocks);
      page := None;
      if pcps[cpu] != [] {
        var p := pcps[cpu][0];
        FirstCached(pcps, blocks, cpu);
        HandInfo(info, blocks, p);
        PlaceInfo(info, blocks, p, Block(0, Live));
        KindChanged(blocks, p, Live);
        ListsSame(areas, blocks, p, Live);
        InfoLive(0);
        info := info[p := Info(true, true, false, false, 0)];
        pcps := pcps[cpu := pcps[cpu][1..]];
        blocks := blocks[p := Block(0, Live)];
        page := Some(p);
        Whole();
      }
    }

    /** pcp_free: the page is kept for this CPU if its cache is not full. */
    method PcpFree(cpu: nat, page: nat) returns (cached: bool)
      requires Valid() && cpu < |pcps| && page in blocks && blocks[page] == Block(0, Live)
      modifies `pcps, `info, `blocks
      ensures Valid() && |pcps| == |old(pcps)| && SameCover(old(blocks), blocks)
      ensures cached <==> |old(pcps)[cpu]| < PCP_MAX
      ensures blocks == if cached then old(blocks)[page := Block(0, Cached(cpu))] else old(blocks)
      ensures !cached ==> pcps == old(pcps)
    {
      hide *;
      Parts();
      SameOrdersCover(blocks, blocks);
      PcpMax();
      cached := false;
      if |pcps[cpu]| < PCP_MAX {
        CachedFront(pcps, blocks, cpu, page);
        HandInfo(info, blocks, page);
        PlaceInfo(info, blocks, page, Block(0, Cached(cpu)));
        KindChanged(blocks, page, Cached(cpu));
        ListsSame(areas, blocks, page, Cached(cpu));
        InfoCached(cpu);
        info := info[page := Info(true, true, true, true, 0)];
        pcps := pcps[cpu := [page] + pcps[cpu]];
        blocks := blocks[page := Block(0, Cached(cpu))];
        cached := true;
        Whole();
      }
    }

    /** page_free: a single page goes to the CPU's cache while there is room, anything else to the buddy lists. */
    method PageFree(cpu: nat, page: nat, order: nat)
      requires Valid() && cpu < |pcps| && page in blocks && blocks[page] == Block(order, Live)
      modifies `areas, `pcps, `info, `blocks
      ensures Valid() && |pcps| == |old(pcps)| && SameCover(old(blocks), blocks)
      ensures LiveBut(old(blocks), blocks, Some(page)) && !(page in blocks && blocks[page].kind == Live)
      ensures order > 0 ==> pcps == old(pcps)
    {
      hide *;
      var cached := false;
      if order == 0 {
        cached := PcpFree(cpu, page);
        CachedLive(old(blocks), page, cpu);
      }
      if !cached {
        FreeToBuddy(page, order);
      }
    }

    /** pcp_drain_all: every cached page goes back to the buddy lists. */
    method DrainAll()
      requires Valid()
      modifies `areas, `pcps, `info, `blocks
      ensures Valid() && |pcps| == |old(pcps)| && SameCover(old(blocks), blocks) && LiveBut(old(blocks), blocks, None)
      ensures forall p :: p in blocks ==> !blocks[p].kind.Cached?
    {
      hide *;
      ghost var b0 := blocks;
      SameOrdersCover(blocks, blocks);
      LiveRefl(blocks);
      var c := 0;
      while c < |pcps|
        invariant c <= |pcps| == |old(pcps)| && Valid() && SameCover(b0, blocks) && LiveBut(b0, blocks, None)
        invariant forall e :: 0 <= e < c ==> pcps[e] == []
      {
        while pcps[c] != []
          invariant c < |pcps| == |old(pcps)| && Valid() && SameCover(b0, blocks) && LiveBut(b0, blocks, None)
          invariant forall e :: 0 <= e < c ==> pcps[e] == []
          decreases |pcps[c]|
        {
          ghost var b1 := blocks;
          var p := Uncache(c);
          ghost var b2 := blocks;
          FreeToBuddy(p, 0);
          DrainStep(b0, b1, b2, blocks, p, c);
        }
        c := c + 1;
      }
      AllDrained();
    }

    lemma AllDrained()
      requires Valid() && forall e :: 0 <= e < |pcps| ==> pcps[e] == []
      ensures forall p :: p in blocks ==> !blocks[p].kind.Cached?
    {
      hide BlocksOk, ListsOk, InfoOk, Distinct;
      forall p | p in blocks
        ensures !blocks[p].kind.Cached?
      {
        assert blocks[p].kind.Cached? ==> PcpOk(pcps[blocks[p].kind.cpu], blocks, blocks[p].kind.cpu);
      }
    }

    /** The search of page_alloc: the first order with a free block, and the last block of that list. */
    method TakeFree(order: nat) returns (page: Option<nat>, o: nat)
      requires Valid()
      modifies `areas, `blocks
      ensures page.None? ==>
              blocks == old(blocks) && Valid() &&
              forall p :: p in blocks && blocks[p].kind == Free ==> blocks[p].order < order
      ensures page.Some? ==>
                && order <= o <= MAX_ORDER && page.value in old(blocks) && old(blocks)[page.value] == Block(o, Free)
                && blocks == old(blocks)[page.value := Block(o, Live)]
                && BlocksOk(blocks) && ListsOk(areas, blocks) && PcpsOk(pcps, blocks) && InfoOk(info, blocks, page)
    {
      hide *;
      Parts();
      o := order;
      page := None;
      while o <= MAX_ORDER
        invariant order <= o
        invariant forall k :: order <= k < o && k <= MAX_ORDER ==> areas[k] == []
      {
        if areas[o] != [] {
          var p := areas[o][|areas[o]| - 1];
          LastFree(areas, blocks, o);
          HandInfo(info, blocks, p);
          KindChanged(blocks, p, Live);
          CachedSet(blocks, p, Block(o, Live));
          PcpsSame(pcps, blocks, blocks[p := Block(o, Live)]);
          HandBlock(info, blocks, p, Block(o, Live));
          areas := areas[o := areas[o][..|areas[o]| - 1]];
          blocks := blocks[p := Block(o, Live)];
          return Some(p), o;
        }
        o := o + 1;
      }
      NoneFree(order);
    }

    lemma NoneFree(order: nat)
      requires Valid() && forall k :: order <= k <= MAX_ORDER ==> |areas| == MAX_ORDER + 1 && areas[k] == []
      ensures forall p :: p in blocks && blocks[p].kind == Free ==> blocks[p].order < order
    {
      hide PcpsOk, InfoOk, Distinct, Apart, NoBuddies;
      forall p | p in blocks && blocks[p].kind == Free
        ensures blocks[p].order < order
      {
        assert ListOk(areas[blocks[p].order], blocks, blocks[p].order);
      }
    }

    /** The split loop of page_alloc: halves go back to the lists until the block has the order asked for. */
    method SplitTo(page: nat, order: nat)
      requires page in blocks && blocks[page].kind == Live && order <= blocks[page].order &&
               At(info, page).order == blocks[page].order
      requires BlocksOk(blocks) && ListsOk(areas, blocks) && PcpsOk(pcps, blocks) && InfoOk(info, blocks, Some(page))
      modifies `areas, `info, `blocks
      ensures Valid() && SameCover(old(blocks), blocks) && page in blocks && blocks[page] == Block(order, Live) &&
              LiveBut(old(blocks), blocks, Some(page))
      ensures CachedSame(old(blocks), blocks)
    {
      hide *;
      Orders();
      SameOrdersCover(blocks, blocks);
      SplitStart(blocks, page);
      while At(info, page).order > order
        invariant Splitting(old(blocks), blocks, page, At(info, page).order) && order <= At(info, page).order
        invariant BlocksOk(blocks) && ListsOk(areas, blocks) && PcpsOk(pcps, blocks) &&
                  InfoOk(info, blocks, Some(page)) && |areas| == MAX_ORDER + 1
        decreases At(info, page).order
      {
        var o := At(info, page).order - 1;
        SplitNext(old(blocks), blocks, page, o);
        SplitList(areas, blocks, page);
        PcpsSame(pcps, blocks, Split(blocks, page));
        var own := At(info, page).(order := o);
        SplitInfo(info, blocks, page, own);
        var buddy := page + Size(o);
        AtTwo(info, page, own, buddy, InfoOf(Block(o, Free)));
        info := info[page := own][buddy := InfoOf(Block(o, Free))];
        areas := areas[o := [buddy] + areas[o]];
        blocks := Split(blocks, page);
      }
      SplitEnd(old(blocks), blocks, page, order);
      PlaceInfo(info, blocks, page, Block(order, Live));
      assert blocks[page := Block(order, Live)] == blocks;
      InfoLive(order);
      info := info[page := Info(true, true, false, false, order)];
      Whole();
    }

    lemma Orders()
      requires ListsOk(areas, blocks)
      ensures |areas| == MAX_ORDER + 1
    {
    }

    /** One pass of page_alloc over the CPU's cache and the free lists. */
    method TryAlloc(cpu: nat, order: nat) returns (page: Option<nat>)
      requires Valid() && cpu < |pcps|
      modifies `areas, `pcps, `info, `blocks
      ensures Valid() && |pcps| == |old(pcps)| && SameCover(old(blocks), blocks) && LiveBut(old(blocks), blocks, page)
      ensures page.None? ==>
              blocks == old(blocks) &&
              (forall p :: p in blocks && blocks[p].kind == Free ==> blocks[p].order < order) &&
                  (order == 0 ==> pcps[cpu] == [])
      ensures page.Some? ==>
              page.value in blocks && blocks[page.value] == Block(order, Live) &&
              !(page.value in old(blocks) && old(blocks)[page.value].kind == Live)
    {
      hide *;
      page := None;
      if order == 0 {
        page := PcpAlloc(cpu);
        if page.Some? {
          TakenLive(old(blocks), page.value, 0);
          return;
        }
      }
      SameOrdersCover(blocks, blocks);
      LiveRefl(blocks);
      Parts();
      ghost var b0 := blocks;
      var block, o := TakeFree(order);
      if block.Some? {
        OrderKept(info, b0, block.value);
        TakenLive(b0, block.value, o);
        ghost var b1 := blocks;
        SplitTo(block.value, order);
        SameCoverTrans(b0, b1, blocks);
        LiveTrans(b0, b1, blocks, block);
        page := block;
      }
    }

    /** page_cache_shrink gives back some single pages that are in use by the page cache. */
    method Reclaim(cpu: nat, shrunk: seq<nat>)
      requires Valid() && cpu < |pcps| && Shrinkable(blocks, shrunk)
      modifies `areas, `pcps, `info, `blocks
      ensures Valid() && |pcps| == |old(pcps)| && SameCover(old(blocks), blocks) &&
              LiveLess(old(blocks), blocks, shrunk, None)
    {
      hide *;
      SameOrdersCover(blocks, blocks);
      LessNone(blocks, shrunk);
      var i := 0;
      while i < |shrunk|
        invariant i <= |shrunk| && Valid() && |pcps| == |old(pcps)| && SameCover(old(blocks), blocks)
        invariant LiveLess(old(blocks), blocks, shrunk[..i], None)
      {
        LessNext(old(blocks), blocks, shrunk, i);
        ghost var b := blocks;
        PageFree(cpu, shrunk[i], 0);
        SameCoverTrans(old(blocks), b, blocks);
        LessMore(old(blocks), b, blocks, shrunk, i);
        i := i + 1;
      }
      assert shrunk[..i] == shrunk;
    }

    /**
     page_alloc. A block comes back aligned, of the order asked for and apart from every block in use; the pages
     managed are the same and the other blocks in use untouched, but for those the page cache gave up. Nothing
     comes back only if, after the caches were drained and the page cache shrunk, no free block is large enough.
     */
    method PageAlloc(cpu: nat, order: nat, shrunk: seq<nat>) returns (page: Option<nat>)
      requires Valid() && cpu < |pcps| && Shrinkable(blocks, shrunk)
      modifies this
      ensures Valid() && |pcps| == |old(pcps)| && SameCover(old(blocks), blocks)
      ensures LiveBut(old(blocks), blocks, page) || LiveLess(old(blocks), blocks, shrunk, page)
      ensures page.Some? ==>
              page.value in blocks && blocks[page.value] == Block(order, Live) && refs == old(refs)[page.value := 1]
      ensures page.Some? ==>
              !(page.value in old(blocks) && old(blocks)[page.value].kind == Live) || page.value in shrunk
      ensures page.None? ==>
              refs == old(refs) &&
              (forall p :: p in blocks && blocks[p].kind == Free ==> blocks[p].order < order) &&
                  (order == 0 ==> pcps[cpu] == [])
    {
      hide *;
      page := TryAlloc(cpu, order);
      if page.None? {
        ghost var b0 := blocks;
        DrainAll();
        ghost var b1 := blocks;
        StillShrinkable(b0, b1, shrunk);
        Reclaim(cpu, shrunk);
        ghost var b2 := blocks;
        SameCoverTrans(b0, b1, b2);
        LessAfter(b0, b1, b2, shrunk);
        page := TryAlloc(cpu, order);
        SameCoverTrans(b0, b2, blocks);
        LessThen(b0, b2, blocks, shrunk, page);
      }
      if page.Some? {
        refs := refs[page.value := 1];
      }
    }

    /** page_get: one reference more; `Refer` says what references do for a page. */
    method PageGet(page: nat)
      requires Valid() && page in refs
      modifies `refs
      ensures Valid() && refs == old(refs)[page := old(refs)[page] + 1]
    {
      refs := refs[page := refs[page] + 1];
    }

    /** page_put: the last reference frees the page, and no other does. */
    method PagePut(cpu: nat, page: nat)
      requires Valid() && cpu < |pcps| && page in refs && refs[page] > 0 && page in blocks &&
               blocks[page] == Block(0, Live)
      modifies this
      ensures Valid() && |pcps| == |old(pcps)| && SameCover(old(blocks), blocks) &&
              LiveBut(old(blocks), blocks, Some(page))
      ensures refs == old(refs)[page := old(refs)[page] - 1]
      ensures old(refs)[page] > 1 ==> blocks == old(blocks)
      ensures old(refs)[page] == 1 ==> !(page in blocks && blocks[page].kind == Live)
    {
      hide *;
      SameOrdersCover(blocks, blocks);
      LiveSelf(blocks, page);
      refs := refs[page := refs[page] - 1];
      if refs[page] > 0 {
        return;
      }
      PageFree(cpu, page, 0);
    }

    /**
     Any list of gets and puts of single pages by callers that hold a reference. A page stays allocated for as long
     as it has been got more often than put, and is freed by the very put that takes its count to zero.
     */
    method Refer(ops: seq<RefOp>)
      requires Valid() && Held(blocks, refs, |pcps|, ops)
      modifies this
      ensures Valid() && |pcps| == |old(pcps)| && SameCover(old(blocks), blocks)
      ensures Counted(old(refs), refs, ops) && LiveWhileHeld(old(blocks), old(refs), blocks, ops)
    {
      hide *;
      ghost var b0, r0 := blocks, refs;
      SameOrdersCover(blocks, blocks);
      NoneYet(blocks, refs, ops[..0]);
      for i := 0 to |ops|
        invariant Valid() && |pcps| == |old(pcps)| && SameCover(b0, blocks)
        invariant Counted(r0, refs, ops[..i]) && LiveWhileHeld(b0, r0, blocks, ops[..i])
      {
        ghost var b := blocks;
        HeldAt(b0, r0, b, refs, |pcps|, ops, i);
        HeldNext(b0, r0, b, refs, |pcps|, ops, i);
        match ops[i] {
          case Get(page) =>
            PageGet(page);
          case Put(cpu, page) =>
            PagePut(cpu, page);
            PutNext(b0, r0, b, blocks, refs, |pcps|, ops, i);
            SameCoverTrans(b0, b, blocks);
        }
      }
      assert ops[..|ops|] == ops;
    }

    /** A block of boot memory is handed over: its pages join those managed. */
    method Donate(cpu: nat, page: nat, order: nat)
      requires Valid() && cpu < |pcps| && order <= MAX_ORDER && page % Size(order) == 0
      requires forall x: nat :: page <= x < page + Size(order) ==> !Covers(blocks, x)
      modifies `areas, `pcps, `info, `blocks
      ensures Valid() && |pcps| == |old(pcps)| && LiveBut(old(blocks), blocks, Some(page)) &&
              !(page in blocks && blocks[page].kind == Live)
      ensures forall x: nat :: Covers(blocks, x) <==> Covers(old(blocks), x) || page <= x < page + Size(order)
    {
      hide *;
      Parts();
      ghost var b0 := blocks;
      NewBlock(blocks, page, order);
      NewLists(areas, pcps, info, blocks, page, order);
      InfoLive(order);
      info := info[page := Info(true, true, false, false, order)];
      blocks := blocks[page := Block(order, Live)];
      Whole();
      ghost var b1 := blocks;
      PageFree(cpu, page, order);
      NewCover(b0, b1, blocks, page, order);
    }

    /** page_alloc_init. */
    constructor (cpus: nat)
      ensures Valid() && |pcps| == cpus && blocks == map[] && refs == map[]
    {
      areas := seq(MAX_ORDER + 1, _ => []);
      pcps := seq(cpus, _ => []);
      info := map[];
      refs := map[];
      blocks := map[];
    }

    /** The head of a drained cache becomes an ordinary allocated page again. */
    method Uncache(c: nat) returns (p: nat)
      requires Valid() && c < |pcps| && pcps[c] != []
      modifies `pcps, `info, `blocks
      ensures Valid() && pcps == old(pcps)[c := old(pcps)[c][1..]]
      ensures p in old(blocks) && old(blocks)[p] == Block(0, Cached(c)) && blocks == old(blocks)[p := Block(0, Live)]
    {
      hide *;
      Parts();
      p := pcps[c][0];
      FirstCached(pcps, blocks, c);
      HandInfo(info, blocks, p);
      PlaceInfo(info, blocks, p, Block(0, Live));
      KindChanged(blocks, p, Live);
      ListsSame(areas, blocks, p, Live);
      InfoLive(0);
      info := info[p := Info(true, true, false, false, 0)];
      pcps := pcps[c := pcps[c][1..]];
      blocks := blocks[p := Block(0, Live)];
      Whole();
    }
  }

  ghost predicate CachedSame(b: Blocks, b': Blocks) {
    && (forall p :: p in b' && b'[p].kind.Cached? ==> p in b && b[p] == b'[p])
    && (forall p :: p in b && b[p].kind.Cached? ==> p in b' && b'[p] == b[p])
  }

  lemma PcpMax()
    ensures PCP_MAX == 64
  {
  }

  lemma InfoLive(o: nat)
    ensures InfoOf(Block(o, Live)) == Info(true, true, false, false, o)
  {
  }

  lemma InfoCached(c: nat)
    ensures InfoOf(Block(0, Cached(c))) == Info(true, true, true, true, 0)
  {
  }

  lemma LiveRefl(b: Blocks)
    ensures LiveBut(b, b, None)
  {
  }

  lemma FirstCached(pcps: seq<seq<nat>>, blocks: Blocks, c: nat)
    requires PcpsOk(pcps, blocks) && c < |pcps| && pcps[c] != []
    ensures var p := pcps[c][0];
            p in blocks && blocks[p] == Block(0, Cached(c)) &&
                PcpsOk(pcps[c := pcps[c][1..]], blocks[p := Block(0, Live)])
  {
    var p := pcps[c][0];
    assert PcpOk(pcps[c], blocks, c);
    assert p in pcps[c];
    HeadIs(pcps[c]);
    hide Distinct;
    var pcps', blocks' := pcps[c := pcps[c][1..]], blocks[p := Block(0, Live)];
    forall e | 0 <= e < |pcps'|
      ensures PcpOk(pcps'[e], blocks', e)
    {
      assert PcpOk(pcps[e], blocks, e);
    }
  }

  lemma HeadIs(s: seq<nat>)
    requires Distinct(s) && s != []
    ensures Distinct(s[1..]) && forall q :: q in s[1..] <==> q in s && q != s[0]
  {
    assert s == [s[0]] + s[1..];
  }

  lemma CachedFront(pcps: seq<seq<nat>>, blocks: Blocks, c: nat, p: nat)
    requires PcpsOk(pcps, blocks) && c < |pcps| && |pcps[c]| < PCP_MAX && p in blocks && blocks[p] == Block(0, Live)
    ensures PcpsOk(pcps[c := [p] + pcps[c]], blocks[p := Block(0, Cached(c))])
  {
    assert PcpOk(pcps[c], blocks, c);
    FrontDistinct(pcps[c], p);
    hide Distinct;
    var pcps', blocks' := pcps[c := [p] + pcps[c]], blocks[p := Block(0, Cached(c))];
    forall e | 0 <= e < |pcps'|
      ensures PcpOk(pcps'[e], blocks', e)
    {
      assert PcpOk(pcps[e], blocks, e);
    }
  }

  /** A block that changes its kind without becoming free keeps the blocks as they are. */
  lemma KindChanged(blocks: Blocks, p: nat, kind: Kind)
    requires BlocksOk(blocks) && p in blocks && kind != Free
    ensures BlocksOk(blocks[p := Block(blocks[p].order, kind)]) &&
            SameCover(blocks, blocks[p := Block(blocks[p].order, kind)])
  {
    SameOrdersCover(blocks, blocks[p := Block(blocks[p].order, kind)]);
    TakenNoBuddies(blocks, blocks[p := Block(blocks[p].order, kind)]);
    hide Aligned, Apart, NoBuddies, SameCover;
  }

  lemma ListsSame(areas: seq<seq<nat>>, blocks: Blocks, p: nat, kind: Kind)
    requires ListsOk(areas, blocks) && p in blocks && blocks[p].kind != Free && kind != Free
    ensures ListsOk(areas, blocks[p := Block(blocks[p].order, kind)])
  {
    hide Distinct;
    forall o | 0 <= o < |areas|
      ensures ListOk(areas[o], blocks[p := Block(blocks[p].order, kind)], o)
    {
      assert ListOk(areas[o], blocks, o);
    }
  }

  lemma CachedLive(b: Blocks, p: nat, c: nat)
    requires p in b && b[p] == Block(0, Live)
    ensures LiveBut(b, b[p := Block(0, Cached(c))], Some(p))
  {
  }

  lemma DrainStep(b0: Blocks, b1: Blocks, b2: Blocks, b3: Blocks, p: nat, c: nat)
    requires SameCover(b0, b1) && LiveBut(b0, b1, None) && p in b1 && b1[p] == Block(0, Cached(c)) &&
             b2 == b1[p := Block(0, Live)]
    requires SameCover(b2, b3) && LiveBut(b2, b3, Some(p)) && !(p in b3 && b3[p].kind == Live)
    ensures SameCover(b0, b3) && LiveBut(b0, b3, None)
  {
    SameOrdersCover(b1, b2);
    SameCoverTrans(b0, b1, b2);
    SameCoverTrans(b0, b2, b3);
    hide SameCover;
  }

  lemma CachedSet(b: Blocks, p: nat, block: Block)
    requires p in b && !b[p].kind.Cached? && !block.kind.Cached?
    ensures CachedSame(b, b[p := block])
  {
  }

  lemma HandBlock(info: map<nat, Info>, blocks: Blocks, p: nat, block: Block)
    requires InfoOk(info, blocks, Some(p)) && p in blocks
    ensures InfoOk(info, blocks[p := block], Some(p))
  {
    hide At, InfoOf;
  }

  lemma LastFree(areas: seq<seq<nat>>, blocks: Blocks, o: nat)
    requires ListsOk(areas, blocks) && o < |areas| && areas[o] != []
    ensures var p := areas[o][|areas[o]| - 1];
            p in blocks && blocks[p] == Block(o, Free) &&
                ListsOk(areas[o := areas[o][..|areas[o]| - 1]], blocks[p := Block(o, Live)])
  {
    var p := areas[o][|areas[o]| - 1];
    assert ListOk(areas[o], blocks, o);
    LastIs(areas[o]);
    hide Distinct;
    TakeList(areas, blocks, p, areas[o][..|areas[o]| - 1]);
  }

  lemma TakenLive(b: Blocks, p: nat, o: nat)
    requires p in b && b[p].kind != Live && b[p].order == o
    ensures SameCover(b, b[p := Block(o, Live)]) && LiveBut(b, b[p := Block(o, Live)], Some(p))
  {
    SameOrdersCover(b, b[p := Block(o, Live)]);
    hide SameCover;
  }

  lemma OrderKept(info: map<nat, Info>, blocks: Blocks, p: nat)
    requires InfoOk(info, blocks, None) && p in blocks
    ensures At(info, p).order == blocks[p].order
  {
  }

  lemma AtTwo(info: map<nat, Info>, p: nat, i: Info, q: nat, j: Info)
    requires p != q
    ensures At(info[p := i][q := j], p) == i
  {
  }

  /** Part way through the splits of block `page`. */
  ghost predicate Splitting(b0: Blocks, b: Blocks, page: nat, o: nat) {
    page in b && b[page] == Block(o, Live) && SameCover(b0, b) && LiveBut(b0, b, Some(page)) && CachedSame(b0, b)
  }

  lemma SplitStart(b: Blocks, page: nat)
    requires page in b && b[page].kind == Live
    ensures Splitting(b, b, page, b[page].order)
  {
    hide Covers;
  }

  lemma SplitNext(b0: Blocks, b: Blocks, page: nat, o: nat)
    requires Splitting(b0, b, page, o + 1) && BlocksOk(b)
    ensures o + 1 <= MAX_ORDER && page + Size(o) !in b && page + Size(o) != page && page in b &&
            b[page] == Block(o + 1, Live)
    ensures Splitting(b0, Split(b, page), page, o) && BlocksOk(Split(b, page)) && CachedSame(b, Split(b, page))
  {
    assert o + 1 <= MAX_ORDER;
    hide SameCover, Apart, NoBuddies, Aligned, BuddyOf, Size, Split;
    SplitOk(b, page);
    SplitCover(b, page);
    SplitNoBuddies(b, page);
    SameCoverTrans(b0, b, Split(b, page));
    SplitKinds(b, page);
    LiveTrans(b0, b, Split(b, page), Some(page));
    hide LiveBut;
  }

  lemma SplitKinds(b: Blocks, c: nat)
    requires c in b && b[c].order > 0 && b[c].kind == Live && c + Size(b[c].order - 1) !in b
    ensures var b' := Split(b, c);
            c in b' && b'[c] == Block(b[c].order - 1, Live) && LiveBut(b, b', Some(c)) && CachedSame(b, b')
    ensures c + Size(b[c].order - 1) != c
  {
    assert Size(b[c].order - 1) > 0;
    hide Size;
  }

  lemma SplitEnd(b0: Blocks, b: Blocks, page: nat, o: nat)
    requires Splitting(b0, b, page, o)
    ensures page in b && b[page] == Block(o, Live) && SameCover(b0, b) && LiveBut(b0, b, Some(page)) &&
            CachedSame(b0, b)
  {
    hide SameCover;
  }

  /** Distinct single pages in use. */
  ghost predicate Shrinkable(b: Blocks, shrunk: seq<nat>) {
    Distinct(shrunk) && forall i :: 0 <= i < |shrunk| ==> shrunk[i] in b && b[shrunk[i]] == Block(0, Live)
  }

  /** The blocks in use are those of `b` without the pages in `gone`, and but for `p`. */
  ghost predicate LiveLess(b: Blocks, b': Blocks, gone: seq<nat>, p: Option<nat>) {
    forall q :: p != Some(q) ==>
        (q in b && b[q].kind == Live && q !in gone <==> q in b' && b'[q].kind == Live) &&
        (q in b && b[q].kind == Live && q !in gone && q in b' ==> b[q] == b'[q])
  }

  lemma LessNone(b: Blocks, shrunk: seq<nat>)
    ensures LiveLess(b, b, shrunk[..0], None)
  {
  }

  lemma LessNext(b0: Blocks, b: Blocks, shrunk: seq<nat>, i: nat)
    requires i < |shrunk| && LiveLess(b0, b, shrunk[..i], None) && Shrinkable(b0, shrunk)
    ensures shrunk[i] in b && b[shrunk[i]] == Block(0, Live)
  {
    assert shrunk[i] !in shrunk[..i];
  }

  lemma LessMore(b0: Blocks, b: Blocks, b': Blocks, shrunk: seq<nat>, i: nat)
    requires i < |shrunk| && LiveLess(b0, b, shrunk[..i], None) && LiveBut(b, b', Some(shrunk[i])) &&
             !(shrunk[i] in b' && b'[shrunk[i]].kind == Live)
    ensures LiveLess(b0, b', shrunk[..i + 1], None)
  {
    assert shrunk[..i + 1] == shrunk[..i] + [shrunk[i]];
  }

  lemma StillShrinkable(b0: Blocks, b1: Blocks, shrunk: seq<nat>)
    requires Shrinkable(b0, shrunk) && LiveBut(b0, b1, None)
    ensures Shrinkable(b1, shrunk)
  {
    hide Distinct;
  }

  lemma LessAfter(b0: Blocks, b1: Blocks, b2: Blocks, shrunk: seq<nat>)
    requires LiveBut(b0, b1, None) && LiveLess(b1, b2, shrunk, None)
    ensures LiveLess(b0, b2, shrunk, None)
  {
  }

  lemma LessThen(b0: Blocks, b2: Blocks, b3: Blocks, shrunk: seq<nat>, page: Option<nat>)
    requires LiveLess(b0, b2, shrunk, None) && LiveBut(b2, b3, page)
    ensures LiveLess(b0, b3, shrunk, page)
    ensures page.Some? && !(page.value in b2 && b2[page.value].kind == Live) ==>
            !(page.value in b0 && b0[page.value].kind == Live) || page.value in shrunk
  {
  }

  lemma LiveSelf(b: Blocks, p: nat)
    ensures LiveBut(b, b, Some(p))
  {
  }

  lemma HeadCovered(b: Blocks, p: nat)
    requires p in b
    ensures Covers(b, p)
  {
    assert p <= p < p + Size(b[p].order);
  }

  lemma NotUnder(b: Blocks, p: nat, x: nat)
    requires p in b && p <= x && !Covers(b, x)
    ensures p + Size(b[p].order) <= x
  {
  }

  lemma NewApart(b: Blocks, page: nat, order: nat)
    requires Apart(b) && page !in b && forall x: nat :: page <= x < page + Size(order) ==> !Covers(b, x)
    ensures Apart(b[page := Block(order, Live)])
  {
    assert Size(order) > 0;
    hide Size, Covers;
    var b' := b[page := Block(order, Live)];
    forall p, q | p in b' && q in b' && p < q
      ensures p + Size(b'[p].order) <= q
    {
      if p == page {
        NotInside(b, q, page, order);
      } else if q == page {
        NotUnder(b, p, page);
      }
    }
  }

  /** A new block in memory not managed so far. */
  lemma NewBlock(b: Blocks, page: nat, order: nat)
    requires BlocksOk(b) && order <= MAX_ORDER && page % Size(order) == 0 &&
             forall x: nat :: page <= x < page + Size(order) ==> !Covers(b, x)
    ensures page !in b && BlocksOk(b[page := Block(order, Live)])
  {
    assert Size(order) > 0;
    hide Size, Covers, Apart, NoBuddies;
    assert !Covers(b, page);
    forall p | p in b
      ensures p != page
    {
      HeadCovered(b, p);
    }
    NewApart(b, page, order);
    TakenNoBuddies(b, b[page := Block(order, Live)]);
  }

  lemma NotInside(b: Blocks, q: nat, page: nat, order: nat)
    requires q in b && page < q && forall x: nat :: page <= x < page + Size(order) ==> !Covers(b, x)
    ensures page + Size(order) <= q
  {
    assert q <= q < q + Size(b[q].order);
    assert Covers(b, q);
  }

  lemma NewLists(areas: seq<seq<nat>>, pcps: seq<seq<nat>>, info: map<nat, Info>, b: Blocks, page: nat, order: nat)
    requires ListsOk(areas, b) && PcpsOk(pcps, b) && InfoOk(info, b, None) && page !in b
    ensures ListsOk(areas, b[page := Block(order, Live)]) && PcpsOk(pcps, b[page := Block(order, Live)])
    ensures InfoOk(info[page := InfoOf(Block(order, Live))], b[page := Block(order, Live)], None)
  {
    var b' := b[page := Block(order, Live)];
    hide Distinct, InfoOf;
    forall o | 0 <= o < |areas|
      ensures ListOk(areas[o], b', o)
    {
      assert ListOk(areas[o], b, o);
    }
    forall c | 0 <= c < |pcps|
      ensures PcpOk(pcps[c], b', c)
    {
      assert PcpOk(pcps[c], b, c);
    }
  }

  lemma NewCover(b0: Blocks, b1: Blocks, b2: Blocks, page: nat, order: nat)
    requires page !in b0 && b1 == b0[page := Block(order, Live)] && SameCover(b1, b2) && LiveBut(b1, b2, Some(page))
    ensures LiveBut(b0, b2, Some(page))
    ensures forall x: nat :: Covers(b2, x) <==> Covers(b0, x) || page <= x < page + Size(order)
  {
    hide Size;
    forall x: nat
      ensures Covers(b1, x) <==> Covers(b0, x) || page <= x < page + Size(order)
    {
      if Covers(b1, x) {
        var p :| p in b1 && p <= x < p + Size(b1[p].order);
        assert p != page ==> p in b0 && p <= x < p + Size(b0[p].order);
      }
      if Covers(b0, x) {
        var p :| p in b0 && p <= x < p + Size(b0[p].order);
        assert p in b1 && p <= x < p + Size(b1[p].order);
      }
      if page <= x < page + Size(order) {
        assert page in b1 && page <= x < page + Size(b1[page].order);
      }
    }
  }

  /** pg->flags = 0. */
  function Cleared(i: Info): Info {
    Info(false, false, false, false, i.order)
  }

  lemma ClearedIs(i: Info)
    ensures !Cleared(i).buddy
  {
  }

  lemma ClearHand(info: map<nat, Info>, blocks: Blocks, p: nat)
    requires InfoOk(info, blocks, Some(p))
    ensures InfoOk(info[p := Cleared(At(info, p))], blocks, Some(p)) && !At(info[p := Cleared(At(info, p))], p).buddy
  {
    hide InfoOf;
  }

  /** Part way through a free: block `pg` of order `o`, which has `page` in it, is in hand. */
  ghost predicate Freeing(b0: Blocks, b: Blocks, page: nat, pg: nat, o: nat) {
    && BlocksOk(b) && SameCover(b0, b) && pg in b && b[pg] == Block(o, Live)
    && (forall q :: q != pg ==> (q in b && b[q].kind == Live <==> q != page && q in b0 && b0[q].kind == Live))
    && (forall q :: q in b && q != pg ==> q in b0 && b0[q] == b[q])
    && (pg != page ==> !(pg in b0 && b0[pg].kind == Live))
    && (forall q :: q in b0 && b0[q].kind.Cached? ==> q in b && b[q] == b0[q])
  }

  lemma FreeStart(b: Blocks, page: nat, order: nat)
    requires BlocksOk(b) && page in b && b[page] == Block(order, Live)
    ensures Freeing(b, b, page, page, order) && order <= MAX_ORDER
  {
    hide Covers, Size, NoBuddies, Apart;
  }

  lemma FreeNext(b0: Blocks, b: Blocks, page: nat, pg: nat, o: nat)
    requires Freeing(b0, b, page, pg, o)
    ensures BuddyOf(pg, o) != pg && pg in b && b[pg] == Block(o, Live)
  {
    hide SameCover, NoBuddies, Apart;
    BuddyIs(pg, o);
  }

  lemma FreeMerge(b0: Blocks, b: Blocks, page: nat, pg: nat, o: nat)
    requires Freeing(b0, b, page, pg, o) && o < MAX_ORDER && BuddyOf(pg, o) in b &&
             b[BuddyOf(pg, o)] == Block(o, Free) && BuddyOf(pg, o) != pg
    ensures var q := BuddyOf(pg, o); Freeing(b0, Merge(b, pg), page, if pg < q then pg else q, o + 1)
    ensures CachedSame(b, Merge(b, pg))
  {
    hide BuddyOf, Aligned, Apart, SameCover, NoBuddies, Merge;
    MergeOk(b, pg);
    SameCoverTrans(b0, b, Merge(b, pg));
    MergeIs(b, pg);
    TakenNoBuddies(b, Merge(b, pg));
  }

  lemma MergeIs(b: Blocks, p: nat)
    requires p in b && BuddyOf(p, b[p].order) in b && BuddyOf(p, b[p].order) != p
    ensures var q := BuddyOf(p, b[p].order); var lo := if p < q then p else q; var b' := Merge(b, p);
            && lo in b' && b'[lo] == Block(b[p].order + 1, b[p].kind)
            && (forall x :: x != p && x != q ==> (x in b' <==> x in b))
            && (forall x :: x != p && x != q && x in b ==> b'[x] == b[x])
            && (if lo == p then q else p) !in b'
  {
    hide BuddyOf;
  }

  lemma FreeEnd(b0: Blocks, b: Blocks, page: nat, pg: nat, o: nat)
    requires Freeing(b0, b, page, pg, o) && o <= MAX_ORDER
    requires o == MAX_ORDER || !(BuddyOf(pg, o) in b && b[BuddyOf(pg, o)] == Block(o, Free))
    ensures var b' := b[pg := Block(o, Free)];
            && pg in b && b[pg] == Block(o, Live) && BlocksOk(b') && SameCover(b0, b') && LiveBut(b0, b', Some(page)) &&
               !(page in b' && b'[page].kind == Live)
            && CachedSame(b, b') && CachedSame(b0, b')
  {
    hide BuddyOf, Covers, Size;
    FreedNoBuddies(b, pg);
    SameOrdersCover(b, b[pg := Block(o, Free)]);
    SameCoverTrans(b0, b, b[pg := Block(o, Free)]);
    hide NoBuddies, SameCover, Aligned, Apart;
  }

  // References to single pages.

  datatype RefOp = Get(page: nat) | Put(cpu: nat, page: nat)

  /** Gets of page `p` less puts of it. */
  function Net(ops: seq<RefOp>, p: nat): int {
    if ops == [] then 0
    else Net(ops[..|ops| - 1], p) + var op := ops[|ops| - 1]; if op.page != p then 0 else if op.Get? then 1 else -1
  }

  /** Each operation is on a single page in use, by a caller that has a reference at that moment. */
  ghost predicate Held(b: Blocks, refs: map<nat, nat>, cpus: nat, ops: seq<RefOp>) {
    forall i :: 0 <= i < |ops| ==> var p := ops[i].page;
      && p in b && b[p] == Block(0, Live) && p in refs && refs[p] > 0 && refs[p] + Net(ops[..i], p) > 0
      && (ops[i].Put? ==> ops[i].cpu < cpus)
  }

  ghost predicate Counted(r0: map<nat, nat>, r: map<nat, nat>, ops: seq<RefOp>) {
    r.Keys == r0.Keys && forall p :: p in r0 ==> r[p] == r0[p] + Net(ops, p)
  }

  /** Page `p` had references, and they are all gone. */
  ghost predicate Dropped(r0: map<nat, nat>, ops: seq<RefOp>, p: nat) {
    p in r0 && r0[p] > 0 && r0[p] + Net(ops, p) == 0
  }

  /** The blocks in use are those of `b0` without the pages that lost their last reference. */
  ghost predicate LiveWhileHeld(b0: Blocks, r0: map<nat, nat>, b: Blocks, ops: seq<RefOp>) {
    forall q: nat ::
      && (q in b && b[q].kind == Live <==> q in b0 && b0[q].kind == Live && !Dropped(r0, ops, q))
      && (q in b && b[q].kind == Live ==> q in b0 && b0[q] == b[q])
  }

  lemma NoneYet(b: Blocks, refs: map<nat, nat>, ops: seq<RefOp>)
    requires ops == []
    ensures Counted(refs, refs, ops) && LiveWhileHeld(b, refs, b, ops)
  {
  }

  lemma NetNext(ops: seq<RefOp>, i: nat, p: nat)
    requires i < |ops|
    ensures Net(ops[..i + 1], p) == Net(ops[..i], p) + if ops[i].page != p then 0 else if ops[i].Get? then 1 else -1
  {
    assert ops[..i + 1][..i] == ops[..i];
  }

  lemma HeldAt(b0: Blocks, r0: map<nat, nat>, b: Blocks, r: map<nat, nat>, cpus: nat, ops: seq<RefOp>, i: nat)
    requires Held(b0, r0, cpus, ops) && i < |ops|
    requires Counted(r0, r, ops[..i]) && LiveWhileHeld(b0, r0, b, ops[..i])
    ensures var p := ops[i].page; p in r && r[p] > 0 && p in b && b[p] == Block(0, Live)
    ensures ops[i].Put? ==> ops[i].cpu < cpus
  {
    hide Net;
    assert !Dropped(r0, ops[..i], ops[i].page);
  }

  /** The counts after the next operation, and the blocks if it is a get. */
  lemma HeldNext(b0: Blocks, r0: map<nat, nat>, b: Blocks, r: map<nat, nat>, cpus: nat, ops: seq<RefOp>, i: nat)
    requires Held(b0, r0, cpus, ops) && i < |ops|
    requires Counted(r0, r, ops[..i]) && LiveWhileHeld(b0, r0, b, ops[..i])
    ensures ops[i].page in r && r[ops[i].page] > 0
    ensures var p := ops[i].page; Counted(r0, r[p := if ops[i].Get? then r[p] + 1 else r[p] - 1], ops[..i + 1])
    ensures ops[i].Get? ==> LiveWhileHeld(b0, r0, b, ops[..i + 1])
  {
    hide Net;
    forall q: nat
      ensures Net(ops[..i + 1], q) == Net(ops[..i], q) + if ops[i].page != q then 0 else if ops[i].Get? then 1 else -1
    {
      NetNext(ops, i, q);
    }
    assert !Dropped(r0, ops[..i], ops[i].page);
  }

  lemma PutNext(b0: Blocks, r0: map<nat, nat>, b: Blocks, b': Blocks, r': map<nat, nat>, cpus: nat, ops: seq<RefOp>,
                i: nat)
    requires Held(b0, r0, cpus, ops) && i < |ops| && ops[i].Put?
    requires LiveWhileHeld(b0, r0, b, ops[..i]) && Counted(r0, r', ops[..i + 1])
    requires LiveBut(b, b', Some(ops[i].page)) && ops[i].page in r'
    requires if r'[ops[i].page] > 0 then b' == b else !(ops[i].page in b' && b'[ops[i].page].kind == Live)
    ensures LiveWhileHeld(b0, r0, b', ops[..i + 1])
  {
    hide Net;
    var p := ops[i].page;
    forall q: nat | q != p
      ensures Net(ops[..i + 1], q) == Net(ops[..i], q)
    {
      NetNext(ops, i, q);
    }
    assert !Dropped(r0, ops[..i], p);
    assert Dropped(r0, ops[..i + 1], p) <==> r'[p] == 0;
  }
}
