/**
 The pages of shared file regions (src/mm/mm.c, src/mm/mmap.c), one by one: which page-cache page each
 names, how it is mapped, and the references the regions hold. Stores are seen by everyone who maps
 the page, so that there is no copy-on-write mark here.
 */
module FileMap {
  import opened Cow

  ghost predicate Unmarked(w: World) {
    forall k :: k in w.ptes ==> !w.ptes[k].cow
  }

  ghost predicate FileInv(w: World) {
    Inv(w) && Unmarked(w)
  }

  lemma FileInvIs(w: World)
    requires FileInv(w)
    ensures Inv(w)
  {
  }

  /** uvm_region_free_range of one page: the reference and the mapping go. */
  lemma FileDetach(w: World, k: Key)
    requires FileInv(w) && k in w.own
    ensures FileInv(Detach(w, k)) && SameElsewhere(w, Detach(w, k), {k})
    ensures Detach(w, k) == World(w.prot, w.own - {k}, w.ptes - {k}, Put(w.refs, w.own[k]), w.mem)
  {
    hide Inv;
    DetachKeeps(w, k);
    KeepsIs(w, Detach(w, k));
    hide SameElsewhere;
  }

  lemma FileForget(w: World, s: set<Key>)
    requires FileInv(w) && s !! w.own.Keys
    ensures FileInv(w.(prot := w.prot - s)) && SameElsewhere(w, w.(prot := w.prot - s), s)
  {
    hide Inv;
    ForgetAll(w, s);
    KeepsIs(w, w.(prot := w.prot - s));
    hide SameElsewhere;
  }

  /** A new page of a region names page-cache page `f`, mapped with `e` if at all. */
  function Attach(w: World, k: Key, p: Prot, f: Frame, mapped: bool, e: Prot): World {
    World(w.prot[k := p], w.own[k := f], if mapped then w.ptes[k := Pte(f, e, false)]
        else w.ptes, Get(w.refs, f), w.mem)
  }

  lemma FileAttach(w: World, k: Key, p: Prot, f: Frame, mapped: bool, e: Prot)
    requires FileInv(w) && k !in w.prot && f in w.mem && (mapped ==> Within(e, p) && Usable(e))
    ensures var w' := Attach(w, k, p, f, mapped, e);
            FileInv(w') && SameElsewhere(w, w', {k}) && Read(w', k) == w.mem[f]
  {
    hide Counted, Owners, ZeroPage;
    assert k !in w.own && k !in w.ptes;
    CountedGet(w.own, w.refs, k, f);
  }

  /** update_present_pte after the protection of the page has changed. */
  lemma FileProtect(w: World, k: Key, p: Prot)
    requires FileInv(w) && k in w.prot && (p.w ==> p.r)
    ensures var w' := World(w.prot[k := p], w.own, Followed(w.ptes, k, p), w.refs, w.mem);
            FileInv(w') && SameElsewhere(w, w', {k}) && Read(w', k) == Read(w, k)
  {
    LowerProt(w, k, p);
    hide Inv, SameElsewhere, Read, SharedIsCow;
    assert w.(prot := w.prot[k := p], ptes := Followed(w.ptes, k, p)) ==
           World(w.prot[k := p], w.own, Followed(w.ptes, k, p), w.refs, w.mem);
  }

  /** An entry without a copy-on-write mark takes the new protection, or goes if there is none. */
  function Followed(ptes: map<Key, Pte>, k: Key, p: Prot): map<Key, Pte> {
    if k !in ptes then ptes
    else if p.r || p.w || p.x then ptes[k := ptes[k].(prot := p)] else ptes - {k}
  }

  /** A fault on a page of a shared region: the entry gets the protection of the region. */
  lemma FileFault(w: World, k: Key, p: Prot)
    requires FileInv(w) && k in w.own && k in w.prot && w.prot[k] == p && Usable(p)
    ensures var w' := w.(ptes := w.ptes[k := Pte(w.own[k], p, false)]);
            FileInv(w') && SameElsewhere(w, w', {})
    ensures k in w.ptes ==> w.ptes[k].frame == w.own[k] && !w.ptes[k].cow
  {
    hide Counted, Owners, ZeroPage;
  }

  /** A store to a shared page is seen through every mapping of the same page-cache page and nowhere else. */
  lemma FileStore(w: World, k: Key, i: nat, b: int)
    requires FileInv(w) && k in w.own
    ensures w.own[k] in w.mem && FileInv(Store(w, k, i, b))
    ensures forall k' :: k' in w.own ==>
              Read(Store(w, k, i, b), k') == if w.own[k'] == w.own[k] then SetByte(Read(w, k'), i, b) else Read(w, k')
  {
    hide Counted, Owners, ZeroPage, SetByte;
    CountedFacts(w.own, w.refs);
  }
}
