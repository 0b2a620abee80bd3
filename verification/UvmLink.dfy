/** How the VMA lists of the processes and the page-level view of copy-on-write sharing agree. */
module UvmLink {
  import opened Cow
  import opened Vma

  /** What the list says about a page, as far as regions of one kind go. */
  ghost function OfKind(kind: Kind, rs: seq<Region>, page: nat): Option<Info> {
    var info := Lookup(rs, page);
    if info.Some? && info.value.kind == kind then info else None
  }

  /** Page `page` of process `pid` is in the page-level view of regions of one kind exactly as the VMA list has it. */
  ghost predicate LinkedPage(kind: Kind, prot: map<Key, Prot>, own: map<Key, Frame>, pid: nat, rs: seq<Region>,
                             page: nat) {
    var k, info := Key(pid, page), OfKind(kind, rs, page);
    if info.Some? then
      && k in prot && prot[k] == info.value.prot
      && (k in own <==> info.value.slot.Has?)
      && (k in own ==> own[k] == info.value.slot.frame)
    else k !in prot && k !in own
  }

  ghost predicate Linked(kind: Kind, prot: map<Key, Prot>, own: map<Key, Frame>, pid: nat, rs: seq<Region>) {
    forall page: nat :: LinkedPage(kind, prot, own, pid, rs, page)
  }

  /** PROT_WRITE implies PROT_READ (prot_to_pte). */
  ghost predicate Readable(rs: seq<Region>) {
    forall i :: 0 <= i < |rs| ==> rs[i].prot.w ==> rs[i].prot.r
  }

  ghost predicate SpaceOk(kind: Kind, prot: map<Key, Prot>, own: map<Key, Frame>, pid: nat, rs: seq<Region>) {
    Disjoint(rs) && Readable(rs) && Linked(kind, prot, own, pid, rs)
  }

  /** The two views agree on every page of `pid`. */
  ghost predicate Agree(prot: map<Key, Prot>, own: map<Key, Frame>, prot': map<Key, Prot>, own': map<Key, Frame>,
                        pid: nat) {
    forall page: nat ::
      var k := Key(pid, page);
      && (k in prot <==> k in prot') && (k in prot ==> prot[k] == prot'[k])
      && (k in own <==> k in own') && (k in own ==> own[k] == own'[k])
  }

  lemma AgreeKeeps(kind: Kind, prot: map<Key, Prot>, own: map<Key, Frame>, prot': map<Key, Prot>, own': map<Key, Frame>,
                   pid: nat, rs: seq<Region>)
    requires SpaceOk(kind, prot, own, pid, rs) && Agree(prot, own, prot', own', pid)
    ensures SpaceOk(kind, prot', own', pid, rs)
  {
    forall page: nat
      ensures LinkedPage(kind, prot', own', pid, rs, page)
    {
      assert LinkedPage(kind, prot, own, pid, rs, page);
    }
  }

  /** A change of the list that concerns regions of another kind only. */
  lemma OtherKind(kind: Kind, prot: map<Key, Prot>, own: map<Key, Frame>, pid: nat, rs: seq<Region>, rs': seq<Region>)
    requires SpaceOk(kind, prot, own, pid, rs) && Disjoint(rs') && Readable(rs')
    requires forall page: nat :: OfKind(kind, rs', page) == OfKind(kind, rs, page)
    ensures SpaceOk(kind, prot, own, pid, rs')
  {
    hide OfKind, Disjoint, Readable;
    forall page: nat
      ensures LinkedPage(kind, prot, own, pid, rs', page)
    {
      assert LinkedPage(kind, prot, own, pid, rs, page);
    }
  }

  /** The list with slot `idx` of region `i` replaced. */
  function WithSlot(rs: seq<Region>, i: nat, idx: nat, slot: Slot): seq<Region>
    requires i < |rs| && idx < |rs[i].slots|
  {
    rs[i := rs[i].(slots := rs[i].slots[idx := slot])]
  }

  lemma WithSlotIs(rs: seq<Region>, i: nat, idx: nat, slot: Slot)
    requires i < |rs| && idx < |rs[i].slots|
    ensures var rs' := WithSlot(rs, i, idx, slot);
            && |rs'| == |rs| && rs'[i] == rs[i].(slots := rs[i].slots[idx := slot])
            && forall j :: 0 <= j < |rs| && j != i ==> rs'[j] == rs[j]
  {
  }

  lemma {:induction false} WithSlotLookup(rs: seq<Region>, i: nat, idx: nat, slot: Slot, page: nat)
    requires Disjoint(rs) && i < |rs| && idx < |rs[i].slots|
    ensures Disjoint(WithSlot(rs, i, idx, slot))
    ensures Lookup(WithSlot(rs, i, idx, slot), page) ==
            if page == rs[i].start + idx then Some(InfoAt(rs[i], page).(slot := slot)) else Lookup(rs, page)
  {
    var rs' := WithSlot(rs, i, idx, slot);
    assert forall j :: 0 <= j < |rs| ==> rs'[j].start == rs[j].start && End(rs'[j]) == End(rs[j]);
    assert Disjoint(rs') by {
      forall a, b | 0 <= a < b < |rs'|
        ensures !Overlap(rs'[a], rs'[b])
      {
        assert !Overlap(rs[a], rs[b]);
      }
    }
    if j :| 0 <= j < |rs| && Covers(rs[j], page) {
      LookupAt(rs, j, page);
      assert Covers(rs'[j], page);
      LookupAt(rs', j, page);
      if page == rs[i].start + idx && j != i {
        LookupAt(rs, i, page);
        LookupAt(rs', i, page);
      }
    } else {
      LookupNone(rs, page);
      LookupNone(rs', page);
      assert !Covers(rs[i], page);
    }
  }

  function SlotPut(own: map<Key, Frame>, k: Key, slot: Slot): map<Key, Frame> {
    if slot.Has? then own[k := slot.frame] else own - {k}
  }

  /** Filling or emptying one slot of the list and of the page-level view together. */
  lemma SlotKeeps(kind: Kind, prot: map<Key, Prot>, own: map<Key, Frame>, own': map<Key, Frame>, pid: nat,
                  rs: seq<Region>, i: nat, idx: nat, slot: Slot)
    requires SpaceOk(kind, prot, own, pid, rs) && i < |rs| && idx < |rs[i].slots| && rs[i].kind == kind
    requires own' == SlotPut(own, Key(pid, rs[i].start + idx), slot)
    ensures SpaceOk(kind, prot, own', pid, WithSlot(rs, i, idx, slot))
  {
    WithSlotLookup(rs, i, idx, slot, 0);
    forall page: nat
      ensures LinkedPage(kind, prot, own', pid, WithSlot(rs, i, idx, slot), page)
    {
      WithSlotLookup(rs, i, idx, slot, page);
      assert LinkedPage(kind, prot, own, pid, rs, page);
      if page == rs[i].start + idx {
        LookupAt(rs, i, page);
      }
    }
  }

  lemma SlotOther(kind: Kind, prot: map<Key, Prot>, own: map<Key, Frame>, pid: nat, rs: seq<Region>, i: nat, idx: nat,
                  slot: Slot)
    requires SpaceOk(kind, prot, own, pid, rs) && i < |rs| && idx < |rs[i].slots| && rs[i].kind != kind
    ensures SpaceOk(kind, prot, own, pid, WithSlot(rs, i, idx, slot))
  {
    var rs' := WithSlot(rs, i, idx, slot);
    WithSlotLookup(rs, i, idx, slot, 0);
    assert Readable(rs');
    forall page: nat
      ensures OfKind(kind, rs', page) == OfKind(kind, rs, page)
    {
      WithSlotLookup(rs, i, idx, slot, page);
      if page == rs[i].start + idx {
        LookupAt(rs, i, page);
      }
    }
    OtherKind(kind, prot, own, pid, rs, rs');
  }

  /** What the page-level view says about a page of region `i`. */
  lemma SlotIs(kind: Kind, prot: map<Key, Prot>, own: map<Key, Frame>, pid: nat, rs: seq<Region>, i: nat, idx: nat)
    requires SpaceOk(kind, prot, own, pid, rs) && i < |rs| && idx < |rs[i].slots| && rs[i].kind == kind
    ensures var k := Key(pid, rs[i].start + idx);
            && k in prot && prot[k] == rs[i].prot
            && (k in own <==> rs[i].slots[idx].Has?)
            && (k in own ==> own[k] == rs[i].slots[idx].frame)
  {
    LookupAt(rs, i, rs[i].start + idx);
    assert LinkedPage(kind, prot, own, pid, rs, rs[i].start + idx);
  }

  /** Every process's list agrees with the page-level view, and no page belongs to a missing process. */
  ghost predicate AllSpacesOk(kind: Kind, prot: map<Key, Prot>, own: map<Key, Frame>, spaces: map<nat, seq<Region>>) {
    && (forall pid :: pid in spaces ==> SpaceOk(kind, prot, own, pid, spaces[pid]))
    && (forall k :: k in prot ==> k.pid in spaces)
  }

  /** Pages of processes other than `pid` are untouched. */
  ghost predicate OthersAgree(prot: map<Key, Prot>, own: map<Key, Frame>, prot': map<Key, Prot>, own': map<Key, Frame>,
                              pid: nat) {
    forall q: nat :: q != pid ==> Agree(prot, own, prot', own', q)
  }

  lemma OneSpaceChanged(kind: Kind, prot: map<Key, Prot>, own: map<Key, Frame>, prot': map<Key, Prot>, own': map<Key,
                        Frame>,
                        spaces: map<nat, seq<Region>>, pid: nat, rs: seq<Region>)
    requires AllSpacesOk(kind, prot, own, spaces) && OthersAgree(prot, own, prot', own', pid)
    requires SpaceOk(kind, prot', own', pid, rs)
    ensures AllSpacesOk(kind, prot', own', spaces[pid := rs])
  {
    forall q | q in spaces && q != pid
      ensures SpaceOk(kind, prot', own', q, spaces[q])
    {
      AgreeKeeps(kind, prot, own, prot', own', q, spaces[q]);
    }
    forall k | k in prot'
      ensures k.pid in spaces[pid := rs]
    {
      if k.pid != pid {
        assert Agree(prot, own, prot', own', k.pid);
        assert k == Key(k.pid, k.page) && k in prot;
      }
    }
  }

  lemma OwnChanged(prot: map<Key, Prot>, own: map<Key, Frame>, own': map<Key, Frame>, k: Key)
    requires forall k' :: k' != k ==> (k' in own <==> k' in own') && (k' in own ==> own[k'] == own'[k'])
    ensures OthersAgree(prot, own, prot, own', k.pid)
  {
  }

  lemma RegionProt(rs: seq<Region>, i: nat)
    requires Readable(rs) && i < |rs|
    ensures rs[i].prot.w ==> rs[i].prot.r
  {
  }

  /** A region whose pages in [lo, hi) have been released gives way to what munmap leaves of it. */
  lemma TrimKeeps(kind: Kind, prot: map<Key, Prot>, own: map<Key, Frame>, pid: nat, a: seq<Region>, r: Region,
                  b: seq<Region>, lo: nat, hi: nat)
    requires SpaceOk(kind, prot, own, pid, a + [r] + b) && |r.slots| > 0 && r.kind == kind
    requires forall page: nat :: lo <= page < hi && Covers(r, page) ==> Key(pid, page) !in own
    ensures SpaceOk(kind, prot - Pages(pid, if lo > r.start then lo else r.start, if hi < End(r) then hi else End(r)),
                    own, pid,
                    a + Remains(r, lo, hi) + b)
    ensures Disjoint(a + Remains(r, lo, hi) + b)
  {
    var keep := Remains(r, lo, hi);
    var from, to := if lo > r.start then lo else r.start, if hi < End(r) then hi else End(r);
    RemainsInside(r, lo, hi);
    SpliceDisjoint(a, r, b, keep);
    forall i | 0 <= i < |a + keep + b|
      ensures (a + keep + b)[i].prot.w ==> (a + keep + b)[i].prot.r
    {
      SpliceReadable(a, r, b, lo, hi, i);
    }
    forall page: nat
      ensures LinkedPage(kind, prot - Pages(pid, from, to), own, pid, a + keep + b, page)
    {
      assert LinkedPage(kind, prot, own, pid, a + [r] + b, page);
      SpliceLookup(a, r, b, lo, hi, page);
      TrimmedPage(prot, pid, from, to, page);
    }
  }

  lemma TrimOther(kind: Kind, prot: map<Key, Prot>, own: map<Key, Frame>, pid: nat, a: seq<Region>, r: Region,
                  b: seq<Region>, lo: nat, hi: nat)
    requires SpaceOk(kind, prot, own, pid, a + [r] + b) && |r.slots| > 0 && r.kind != kind
    ensures SpaceOk(kind, prot, own, pid, a + Remains(r, lo, hi) + b)
  {
    var keep := Remains(r, lo, hi);
    var rs, rs' := a + [r] + b, a + keep + b;
    RemainsInside(r, lo, hi);
    SpliceDisjoint(a, r, b, keep);
    assert Readable(rs') by {
      forall i | 0 <= i < |rs'|
        ensures rs'[i].prot.w ==> rs'[i].prot.r
      {
        SpliceReadable(a, r, b, lo, hi, i);
      }
    }
    forall page: nat
      ensures OfKind(kind, rs', page) == OfKind(kind, rs, page)
    {
      SpliceLookup(a, r, b, lo, hi, page);
      if Covers(r, page) {
        assert rs[|a|] == r;
        LookupAt(rs, |a|, page);
      }
    }
    OtherKind(kind, prot, own, pid, rs, rs');
  }

  lemma TrimmedPage(prot: map<Key, Prot>, pid: nat, from: nat, to: nat, page: nat)
    ensures Key(pid, page) in prot - Pages(pid, from, to) <==> Key(pid, page) in prot && !(from <= page < to)
  {
  }

  lemma SpliceReadable(a: seq<Region>, r: Region, b: seq<Region>, lo: nat, hi: nat, i: nat)
    requires Readable(a + [r] + b) && |r.slots| > 0 && i < |a + Remains(r, lo, hi) + b|
    ensures var x := (a + Remains(r, lo, hi) + b)[i]; x.prot.w ==> x.prot.r
  {
    var rs, keep := a + [r] + b, Remains(r, lo, hi);
    var i0 := if i < |a| then i else if i < |a| + |keep| then |a| else i - |keep| + 1;
    assert rs[i0].prot.w ==> rs[i0].prot.r;
  }

  /** Outside [lo, hi) the spliced list says what the original list said; inside it says nothing for r's pages. */
  lemma SpliceLookup(a: seq<Region>, r: Region, b: seq<Region>, lo: nat, hi: nat, page: nat)
    requires Disjoint(a + [r] + b) && |r.slots| > 0
    ensures Lookup(a + Remains(r, lo, hi) + b, page) ==
            if Covers(r, page) && lo <= page < hi then None else Lookup(a + [r] + b, page)
  {
    var keep := Remains(r, lo, hi);
    LookupAppend(a + keep, b, page);
    LookupAppend(a, keep, page);
    LookupAppend(a + [r], b, page);
    LookupAppend(a, [r], page);
    RemainsLookup(r, lo, hi, page);
    assert [r][1..] == [];
    if Covers(r, page) {
      var rs := a + [r] + b;
      assert rs[|a|] == r;
      LookupAt(rs, |a|, page);
      DisjointParts(a, r, b);
      OnlyIn(a, r, page);
      OnlyIn(b, r, page);
    }
  }

  lemma OnlyIn(a: seq<Region>, r: Region, page: nat)
    requires Covers(r, page) && forall i :: 0 <= i < |a| ==> !Overlap(a[i], r)
    ensures Lookup(a, page) == None
  {
    LookupNone(a, page);
  }

  lemma DisjointParts(a: seq<Region>, r: Region, b: seq<Region>)
    requires Disjoint(a + [r] + b)
    ensures Disjoint(a) && Disjoint(b) && |r.slots| > 0
    ensures forall i, j :: 0 <= i < |a| && 0 <= j < |b| ==> !Overlap(a[i], b[j])
    ensures forall i :: 0 <= i < |a| ==> !Overlap(a[i], r)
    ensures forall i :: 0 <= i < |b| ==> !Overlap(b[i], r)
  {
    var rs := a + [r] + b;
    assert forall i :: 0 <= i < |a| ==> rs[i] == a[i];
    assert rs[|a|] == r;
    forall j | 0 <= j < |b|
      ensures rs[|a| + 1 + j] == b[j] && !Overlap(b[j], r) && |b[j].slots| > 0
    {
      assert !Overlap(rs[|a|], rs[|a| + 1 + j]);
    }
    forall i, j | 0 <= i < |a| && 0 <= j < |b|
      ensures !Overlap(a[i], b[j])
    {
      assert !Overlap(rs[i], rs[|a| + 1 + j]);
    }
    forall i, j | 0 <= i < j < |b|
      ensures !Overlap(b[i], b[j])
    {
      assert !Overlap(rs[|a| + 1 + i], rs[|a| + 1 + j]);
    }
  }

  lemma SpliceDisjoint(a: seq<Region>, r: Region, b: seq<Region>, keep: seq<Region>)
    requires Disjoint(a + [r] + b) && Disjoint(keep)
    requires forall i :: 0 <= i < |keep| ==> Inside(keep[i], r)
    ensures Disjoint(a + keep + b)
  {
    DisjointParts(a, r, b);
    assert forall i, j :: 0 <= i < |a| && 0 <= j < |keep| ==> !Overlap(a[i], keep[j]) by {
      forall i, j | 0 <= i < |a| && 0 <= j < |keep|
        ensures !Overlap(a[i], keep[j])
      {
        assert !Overlap(a[i], r) && Inside(keep[j], r);
      }
    }
    DisjointAppend(a, keep);
    forall i, j | 0 <= i < |a + keep| && 0 <= j < |b|
      ensures !Overlap((a + keep)[i], b[j])
    {
      if i >= |a| {
        assert Inside(keep[i - |a|], r) && !Overlap(b[j], r);
      }
    }
    DisjointAppend(a + keep, b);
  }

  /** The child's list while a region is being copied: the pages so far, then the regions already done. */
  ghost function Partial(r: Region, pgs: seq<Slot>, seg: seq<Region>): seq<Region> {
    if |pgs| == 0 then seg else [r.(slots := pgs)] + seg
  }

  lemma PartialLookup(r: Region, pgs: seq<Slot>, seg: seq<Region>, page: nat)
    ensures Lookup(Partial(r, pgs, seg), page) ==
            if r.start <= page < r.start + |pgs| then Some(Info(r.kind, r.prot, FileOffset(r, page - r.start),
                                                                pgs[page - r.start]))
            else Lookup(seg, page)
  {
    if |pgs| > 0 {
      var x := r.(slots := pgs);
      assert ([x] + seg)[1..] == seg;
    }
  }

  lemma PartialDisjoint(r: Region, pgs: seq<Slot>, seg: seq<Region>)
    requires Disjoint(seg) && |pgs| <= |r.slots| && forall j :: 0 <= j < |seg| ==> !Overlap(seg[j], r)
    ensures Disjoint(Partial(r, pgs, seg))
  {
    if |pgs| > 0 {
      var x := r.(slots := pgs);
      assert forall j :: 0 <= j < |seg| ==> !Overlap(x, seg[j]) by {
        forall j | 0 <= j < |seg|
          ensures !Overlap(x, seg[j])
        {
          assert !Overlap(seg[j], r);
        }
      }
      assert Disjoint([x]);
      DisjointAppend([x], seg);
    }
  }

  /** One more page of the region being copied. */
  lemma PartialGrows(kind: Kind, prot: map<Key, Prot>, own: map<Key, Frame>, own': map<Key, Frame>, child: nat,
                     r: Region, pgs: seq<Slot>, seg: seq<Region>, slot: Slot)
    requires SpaceOk(kind, prot, own, child, Partial(r, pgs, seg)) && Disjoint(seg) && Readable(seg)
    requires |pgs| < |r.slots| && r.kind == kind && (r.prot.w ==> r.prot.r)
    requires forall j :: 0 <= j < |seg| ==> !Overlap(seg[j], r)
    requires own' == if slot.Has? then own[Key(child, r.start + |pgs|) := slot.frame] else own
    ensures SpaceOk(kind, prot[Key(child, r.start + |pgs|) := r.prot], own', child, Partial(r, pgs + [slot], seg))
    ensures Key(child, r.start + |pgs|) !in prot && Key(child, r.start + |pgs|) !in own
  {
    var k := Key(child, r.start + |pgs|);
    PartialDisjoint(r, pgs + [slot], seg);
    assert Readable(Partial(r, pgs + [slot], seg));
    OnlyIn(seg, r, r.start + |pgs|);
    PartialLookup(r, pgs, seg, r.start + |pgs|);
    assert LinkedPage(kind, prot, own, child, Partial(r, pgs, seg), r.start + |pgs|);
    var prot', list := prot[k := r.prot], Partial(r, pgs + [slot], seg);
    forall page: nat
      ensures LinkedPage(kind, prot', own', child, list, page)
    {
      PartialLookup(r, pgs, seg, page);
      PartialLookup(r, pgs + [slot], seg, page);
      assert LinkedPage(kind, prot, own, child, Partial(r, pgs, seg), page);
    }
  }

  lemma PartialFresh(kind: Kind, prot: map<Key, Prot>, own: map<Key, Frame>, child: nat, r: Region, pgs: seq<Slot>,
                     seg: seq<Region>)
    requires SpaceOk(kind, prot, own, child, Partial(r, pgs, seg)) && |pgs| < |r.slots|
    requires forall j :: 0 <= j < |seg| ==> !Overlap(seg[j], r)
    ensures Key(child, r.start + |pgs|) !in prot && Key(child, r.start + |pgs|) !in own
  {
    OnlyIn(seg, r, r.start + |pgs|);
    PartialLookup(r, pgs, seg, r.start + |pgs|);
    assert LinkedPage(kind, prot, own, child, Partial(r, pgs, seg), r.start + |pgs|);
  }

  lemma PartialNone(r: Region, seg: seq<Region>)
    ensures Partial(r, [], seg) == seg
  {
  }

  lemma PartialAll(r: Region, pgs: seq<Slot>, seg: seq<Region>)
    requires |pgs| > 0
    ensures Partial(r, pgs, seg) == [r.(slots := pgs)] + seg
  {
  }

  lemma RegionNotEmpty(rs: seq<Region>, i: nat)
    requires Disjoint(rs) && i < |rs|
    ensures |rs[i].slots| > 0
  {
  }

  lemma OneKeyAdded(prot: map<Key, Prot>, own: map<Key, Frame>, prot': map<Key, Prot>, own': map<Key, Frame>, k: Key)
    requires k !in own && prot'.Keys == prot.Keys + {k} &&
             (forall k' :: k' in prot && k' != k ==> prot'[k'] == prot[k'])
    requires own'.Keys - {k} == own.Keys && forall k' :: k' in own ==> k' in own' && own'[k'] == own[k']
    ensures OthersAgree(prot, own, prot', own', k.pid)
  {
    forall q: nat, page: nat | q != k.pid
      ensures Key(q, page) in own <==> Key(q, page) in own'
      ensures Key(q, page) in prot <==> Key(q, page) in prot'
    {
      assert Key(q, page) in own' ==> Key(q, page) in own'.Keys - {k};
    }
  }

  /** One region of a list gives way to others that say the same about every page it covered. */
  lemma SpliceSame(kind: Kind, prot: map<Key, Prot>, own: map<Key, Frame>, pid: nat, a: seq<Region>, r: Region,
                   b: seq<Region>, pieces: seq<Region>)
    requires SpaceOk(kind, prot, own, pid, a + [r] + b) && Disjoint(pieces) && Readable(pieces)
    requires forall i :: 0 <= i < |pieces| ==> Inside(pieces[i], r)
    requires forall page: nat :: Lookup(pieces, page) == Lookup([r], page)
    ensures SpaceOk(kind, prot, own, pid, a + pieces + b)
    ensures forall page: nat :: Lookup(a + pieces + b, page) == Lookup(a + [r] + b, page)
  {
    var rs, rs' := a + [r] + b, a + pieces + b;
    SpliceDisjoint(a, r, b, pieces);
    assert Readable(rs') by {
      forall i | 0 <= i < |rs'|
        ensures rs'[i].prot.w ==> rs'[i].prot.r
      {
        if i < |a| {
          assert rs'[i] == rs[i];
        } else if i >= |a| + |pieces| {
          assert rs'[i] == rs[i - |pieces| + 1];
        } else {
          assert rs'[i] == pieces[i - |a|];
        }
      }
    }
    forall page: nat
      ensures Lookup(rs', page) == Lookup(rs, page) && LinkedPage(kind, prot, own, pid, rs', page)
    {
      LookupAppend(a + pieces, b, page);
      LookupAppend(a, pieces, page);
      LookupAppend(a + [r], b, page);
      LookupAppend(a, [r], page);
      assert LinkedPage(kind, prot, own, pid, rs, page);
    }
  }

  /** The pieces that mprotect of [lo, hi) cuts a region into: before, inside and after the range. */
  function Pieces(r: Region, lo: nat, hi: nat): seq<Region>
    requires |r.slots| > 0 && lo < hi && lo < End(r) && r.start < hi
  {
    var from, to := if r.start < lo then lo else r.start, if End(r) > hi then hi else End(r);
    (if r.start < lo then [Slice(r, r.start, lo)] else []) + [Slice(r, from, to)] +
    (if End(r) > hi then [Slice(r, hi, End(r))] else [])
  }

  lemma PiecesAre(r: Region, lo: nat, hi: nat)
    requires |r.slots| > 0 && lo < hi && lo < End(r) && r.start < hi
    ensures Disjoint(Pieces(r, lo, hi))
    ensures forall i :: 0 <= i < |Pieces(r, lo, hi)| ==>
            Inside(Pieces(r, lo, hi)[i], r) &&
            Pieces(r, lo, hi)[i].prot == r.prot && Pieces(r, lo, hi)[i].kind == r.kind
  {
  }

  lemma PiecesLookup(r: Region, lo: nat, hi: nat, page: nat)
    requires |r.slots| > 0 && lo < hi && lo < End(r) && r.start < hi
    ensures Lookup(Pieces(r, lo, hi), page) == Lookup([r], page)
  {
    var from, to := if r.start < lo then lo else r.start, if End(r) > hi then hi else End(r);
    var a := if r.start < lo then [Slice(r, r.start, lo)] else [];
    var m := [Slice(r, from, to)];
    var b := if End(r) > hi then [Slice(r, hi, End(r))] else [];
    LookupAppend(a + m, b, page);
    LookupAppend(a, m, page);
    SliceInfo(r, from, to, page);
    assert m[1..] == [] && [r][1..] == [];
    if r.start < lo {
      SliceInfo(r, r.start, lo, page);
      assert a[1..] == [];
    }
    if End(r) > hi {
      SliceInfo(r, hi, End(r), page);
      assert b[1..] == [];
    }
  }

  /** `r'` is `r` with protection `p`, the same extent and backing kind, and frames as in `own`. */
  ghost predicate Reprotected(r: Region, r': Region, p: Prot) {
    && r' == r.(prot := p, slots := r'.slots) && SlotsLike(r.slots, r'.slots)
    && (r.kind == SharedFile ==> r'.slots == r.slots)
  }

  /** The same slots are filled. */
  ghost predicate SlotsLike(slots: seq<Slot>, slots': seq<Slot>) {
    |slots'| == |slots| && forall j :: 0 <= j < |slots| ==> (slots'[j].Has? <==> slots[j].Has?)
  }

  /** The page-level view after the pages of region `r` got protection `p` and the frames of `slots`. */
  ghost predicate RegionView(prot: map<Key, Prot>, own: map<Key, Frame>, prot': map<Key, Prot>, own': map<Key, Frame>,
                             pid: nat, start: nat, p: Prot, slots: seq<Slot>, done: nat)
    requires done <= |slots|
  {
    forall k: Key ::
      if k.pid == pid && start <= k.page < start + |slots| then
        var j := k.page - start;
        && k in prot' && prot'[k] == (if j < done then p else if k in prot then prot[k] else p)
        && (k in own' <==> slots[j].Has?) && (k in own' ==> own'[k] == slots[j].frame)
      else
        && (k in prot' <==> k in prot) && (k in prot ==> prot'[k] == prot[k])
        && (k in own' <==> k in own) && (k in own ==> own'[k] == own[k])
  }

  lemma RegionReplaced(kind: Kind, prot: map<Key, Prot>, own: map<Key, Frame>, prot': map<Key, Prot>, own': map<Key,
                       Frame>,
                       pid: nat, a: seq<Region>, r: Region, b: seq<Region>, r': Region, p: Prot)
    requires SpaceOk(kind, prot, own, pid, a + [r] + b) && Reprotected(r, r', p) && (p.w ==> p.r) && r.kind == kind
    requires RegionView(prot, own, prot', own', pid, r.start, p, r'.slots, |r'.slots|)
    ensures SpaceOk(kind, prot', own', pid, a + [r'] + b) && OthersAgree(prot, own, prot', own', pid)
  {
    var rs, rs' := a + [r] + b, a + [r'] + b;
    DisjointParts(a, r, b);
    assert Disjoint([r']);
    SpliceDisjoint(a, r, b, [r']);
    assert Readable(rs') by {
      forall i | 0 <= i < |rs'|
        ensures rs'[i].prot.w ==> rs'[i].prot.r
      {
        assert rs[i].prot.w ==> rs[i].prot.r;
        assert i != |a| ==> rs'[i] == rs[i];
      }
    }
    forall page: nat
      ensures LinkedPage(kind, prot', own', pid, rs', page)
    {
      assert LinkedPage(kind, prot, own, pid, rs, page);
      ReplacedLookup(a, r, b, r', p, page);
      var k := Key(pid, page);
      assert k.pid == pid && k.page == page;
      hide Lookup, Disjoint;
    }
  }

  lemma ReplacedOther(kind: Kind, prot: map<Key, Prot>, own: map<Key, Frame>, pid: nat, a: seq<Region>, r: Region,
                      b: seq<Region>, r': Region, p: Prot)
    requires SpaceOk(kind, prot, own, pid, a + [r] + b) && Reprotected(r, r', p) && (p.w ==> p.r) && r.kind != kind
    ensures SpaceOk(kind, prot, own, pid, a + [r'] + b)
  {
    var rs, rs' := a + [r] + b, a + [r'] + b;
    DisjointParts(a, r, b);
    assert Disjoint([r']);
    SpliceDisjoint(a, r, b, [r']);
    assert Readable(rs') by {
      forall i | 0 <= i < |rs'|
        ensures rs'[i].prot.w ==> rs'[i].prot.r
      {
        assert i != |a| ==> rs'[i] == rs[i];
      }
    }
    forall page: nat
      ensures OfKind(kind, rs', page) == OfKind(kind, rs, page)
    {
      ReplacedLookup(a, r, b, r', p, page);
      if Covers(r, page) {
        assert rs[|a|] == r;
        LookupAt(rs, |a|, page);
      }
    }
    OtherKind(kind, prot, own, pid, rs, rs');
  }

  lemma ReplacedLookup(a: seq<Region>, r: Region, b: seq<Region>, r': Region, p: Prot, page: nat)
    requires Disjoint(a + [r'] + b) && Reprotected(r, r', p)
    ensures Lookup(a + [r'] + b, page) == if Covers(r, page) then Some(InfoAt(r', page)) else Lookup(a + [r] + b, page)
  {
    if Covers(r, page) {
      assert (a + [r'] + b)[|a|] == r';
      LookupAt(a + [r'] + b, |a|, page);
    } else {
      LookupAppend(a + [r'], b, page);
      LookupAppend(a, [r'], page);
      LookupAppend(a + [r], b, page);
      LookupAppend(a, [r], page);
      assert [r][1..] == [] && [r'][1..] == [];
    }
  }
}
