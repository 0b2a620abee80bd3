/** The search for a free address range (src/mm/mmap.c), in page units. */
module MmapSearch {
  import opened Cow
  import opened Vma

  datatype Choice = Chosen(addr: nat) | BadAddress | NoRoom

  /** ranges_overlap; empty ranges overlap nothing. */
  predicate RangesOverlap(a: nat, alen: nat, b: nat, blen: nat) {
    alen != 0 && blen != 0 && a < b + blen && b < a + alen
  }

  ghost predicate Free(rs: seq<Region>, addr: nat, n: nat) {
    forall i :: 0 <= i < |rs| ==> !RangesOverlap(addr, n, rs[i].start, |rs[i].slots|)
  }

  /** The first region in the way, or the number of regions. */
  function First(rs: seq<Region>, addr: nat, n: nat): (i: nat)
    ensures i <= |rs| && forall j :: 0 <= j < i ==> !RangesOverlap(addr, n, rs[j].start, |rs[j].slots|)
    ensures i < |rs| ==> RangesOverlap(addr, n, rs[i].start, |rs[i].slots|)
  {
    if |rs| == 0 || RangesOverlap(addr, n, rs[0].start, |rs[0].slots|) then 0
    else
      var k := First(rs[1..], addr, n);
      assert forall j :: 1 <= j < k + 1 ==> rs[j] == rs[1..][j - 1];
      1 + k
  }

  /** find_conflict: the first region in the way, if any; `rs` ends with the stack and the heap. */
  method FindConflict(rs: seq<Region>, addr: nat, n: nat) returns (found: bool, i: nat)
    ensures found <==> !Free(rs, addr, n)
    ensures found ==> i == First(rs, addr, n) < |rs|
  {
    i := 0;
    while i < |rs|
      invariant i <= |rs| && forall j :: 0 <= j < i ==> !RangesOverlap(addr, n, rs[j].start, |rs[j].slots|)
    {
      if RangesOverlap(addr, n, rs[i].start, |rs[i].slots|) {
        return true, i;
      }
      i := i + 1;
    }
    found := false;
  }

  /** The search of choose_addr goes down from `t`, each time to just below the region in the way. */
  function Search(rs: seq<Region>, heapStart: nat, t: nat, n: nat): Choice {
    if t <= n || t - n < heapStart then NoRoom
    else
      var i := First(rs, t - n, n);
      if i == |rs| then Chosen(t - n)
      else if rs[i].start <= t - n then NoRoom
      else Search(rs, heapStart, rs[i].start, n)
  }

  lemma SearchStep(rs: seq<Region>, heapStart: nat, t: nat, n: nat)
    ensures t <= n || t - n < heapStart ==> Search(rs, heapStart, t, n) == NoRoom
    ensures n < t && heapStart <= t - n && Free(rs, t - n, n) ==> Search(rs, heapStart, t, n) == Chosen(t - n)
    ensures n < t && heapStart <= t - n && !Free(rs, t - n, n) ==>
              var i := First(rs, t - n, n);
              && i < |rs| && rs[i].start < t
              && Search(rs, heapStart, t, n) == if rs[i].start <= t - n then NoRoom
                 else Search(rs, heapStart, rs[i].start, n)
  {
  }

  ghost predicate Fits(rs: seq<Region>, heapStart: nat, t: nat, n: nat, a: nat) {
    0 < a && heapStart <= a && a + n <= t && Free(rs, a, n)
  }

  /** On its way down the search meets a region that starts at or below the candidate it blocks. */
  ghost predicate Stuck(rs: seq<Region>, heapStart: nat, t: nat, n: nat) {
    n < t && heapStart <= t - n
    && var i := First(rs, t - n, n); i < |rs| && (rs[i].start <= t - n || Stuck(rs, heapStart, rs[i].start, n))
  }

  /** What the search chooses is free and above every other free range. */
  lemma {:induction false} SearchHighest(rs: seq<Region>, heapStart: nat, t: nat, n: nat, a: nat)
    requires n > 0 && Search(rs, heapStart, t, n).Chosen?
    ensures var c := Search(rs, heapStart, t, n).addr;
            Fits(rs, heapStart, t, n, c) && (Fits(rs, heapStart, t, n, a) ==> a <= c)
    decreases t
  {
    var i := First(rs, t - n, n);
    if i < |rs| {
      SearchHighest(rs, heapStart, rs[i].start, n, a);
      BelowConflict(rs, heapStart, t, n, i, a);
    }
  }

  /** A free range other than the candidate lies wholly below the region in the way. */
  lemma BelowConflict(rs: seq<Region>, heapStart: nat, t: nat, n: nat, i: nat, a: nat)
    requires n > 0 && n < t && i < |rs| && RangesOverlap(t - n, n, rs[i].start, |rs[i].slots|)
    ensures Fits(rs, heapStart, t, n, a) ==> a + n <= rs[i].start
    ensures Fits(rs, heapStart, t, n, a) && rs[i].start > t - n ==> Fits(rs, heapStart, rs[i].start, n, a)
  {
  }

  /**
   The search finds an address if and only if there is room and it does not stop at a region that starts
   at or below its candidate.
   */
  lemma {:induction false} SearchExact(rs: seq<Region>, heapStart: nat, t: nat, n: nat)
    requires n > 0
    ensures Search(rs, heapStart, t, n).Chosen? <==>
            (exists a :: Fits(rs, heapStart, t, n, a)) && !Stuck(rs, heapStart, t, n)
    decreases t
  {
    if n < t && heapStart <= t - n {
      var i := First(rs, t - n, n);
      if i == |rs| {
        assert Fits(rs, heapStart, t, n, t - n);
      } else if rs[i].start > t - n {
        SearchExact(rs, heapStart, rs[i].start, n);
        forall a
          ensures Fits(rs, heapStart, t, n, a) <==> Fits(rs, heapStart, rs[i].start, n, a)
        {
          BelowConflict(rs, heapStart, t, n, i, a);
        }
      }
    }
  }

  /** No region covers the page `n` pages below `t`. */
  predicate Clear(rs: seq<Region>, t: nat, n: nat) {
    n < t ==> forall i :: 0 <= i < |rs| ==> !Covers(rs[i], t - n)
  }

  /** That holds below `t` and below the start of every region: a test of the list alone. */
  predicate AllClear(rs: seq<Region>, t: nat, n: nat) {
    Clear(rs, t, n) && forall j :: 0 <= j < |rs| ==> Clear(rs, rs[j].start, n)
  }

  lemma {:induction false} ClearNotStuck(rs: seq<Region>, heapStart: nat, t: nat, n: nat)
    requires n > 0 && AllClear(rs, t, n)
    ensures !Stuck(rs, heapStart, t, n)
    decreases t
  {
    if n < t && heapStart <= t - n {
      var i := First(rs, t - n, n);
      if i < |rs| {
        assert !Covers(rs[i], t - n);
        assert Clear(rs, rs[i].start, n);
        ClearNotStuck(rs, heapStart, rs[i].start, n);
      }
    }
  }

  /** On such a list the search is complete: it finds an address if and only if there is room. */
  lemma SearchComplete(rs: seq<Region>, heapStart: nat, t: nat, n: nat)
    requires n > 0 && AllClear(rs, t, n)
    ensures Search(rs, heapStart, t, n).Chosen? <==> exists a :: Fits(rs, heapStart, t, n, a)
  {
    hide Search, Stuck, Fits, AllClear;
    ClearNotStuck(rs, heapStart, t, n);
    SearchExact(rs, heapStart, t, n);
  }

  /** The search can stop with room left: one region of the wanted size at the top hides all that lies below. */
  lemma RoomMissed()
    ensures var rs := [Region(Anon, 90, Prot(true, true, false), 0, seq(10, _ => NoPage))];
            Fits(rs, 20, 100, 10, 80) && Search(rs, 20, 100, 10) == NoRoom
  {
    var r := Region(Anon, 90, Prot(true, true, false), 0, seq(10, _ => NoPage));
    assert RangesOverlap(90, 10, r.start, |r.slots|);
    assert First([r], 90, 10) == 0;
  }

  /** choose_addr for a fixed request. */
  method ChooseFixed(rs: seq<Region>, heapStart: nat, limit: nat, hint: nat, n: nat) returns (c: Choice)
    ensures c.Chosen? <==> 0 < hint && hint + n <= limit && heapStart <= hint && Free(rs, hint, n)
    ensures c.Chosen? ==> c.addr == hint
    ensures !c.Chosen? ==> (c == BadAddress <==> hint == 0 || hint + n > limit)
  {
    if hint == 0 {
      return BadAddress;
    }
    if hint > limit || n > limit - hint {
      return BadAddress;
    }
    if hint < heapStart {
      return NoRoom;
    }
    var found, _ := FindConflict(rs, hint, n);
    c := if found then NoRoom else Chosen(hint);
  }

  /** choose_addr. A fixed request gets its own address or nothing. */
  method ChooseAddr(rs: seq<Region>, heapStart: nat, top: nat, limit: nat, hint: nat, n: nat, fixed: bool)
    returns (c: Choice)
    ensures c.Chosen? ==> Free(rs, c.addr, n) && heapStart <= c.addr
    ensures fixed ==> (c.Chosen? <==> 0 < hint && hint + n <= limit && heapStart <= hint && Free(rs, hint, n))
    ensures fixed && c.Chosen? ==> c.addr == hint
    ensures fixed && !c.Chosen? ==> (c == BadAddress <==> hint == 0 || hint + n > limit)
    ensures !fixed ==> c == Search(rs, heapStart, top, n)
  {
    hide Search, Free, RangesOverlap;
    if fixed {
      c := ChooseFixed(rs, heapStart, limit, hint, n);
      return;
    }
    var t: nat := top;
    while true
      invariant Search(rs, heapStart, t, n) == Search(rs, heapStart, top, n)
      decreases t
    {
      SearchStep(rs, heapStart, t, n);
      if t <= n || t - n < heapStart {
        return NoRoom;
      }
      var candidate := t - n;
      var found, i := FindConflict(rs, candidate, n);
      if !found {
        return Chosen(candidate);
      }
      if rs[i].start <= candidate || rs[i].start > t {
        return NoRoom;
      }
      t := rs[i].start;
    }
  }
}
