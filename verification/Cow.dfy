/**
 Copy-on-write sharing page by page (src/mm/mm.c, src/mm/mmap.c): which address-space pages name
 which frame, how each is mapped, and the frame reference counts. A key is a process and a page number.
 */
module Cow {
  type Frame = nat
  type Bytes = seq<int>

  datatype Key = Key(pid: nat, page: nat)

  datatype Prot = Prot(r: bool, w: bool, x: bool)

  datatype Pte = Pte(frame: Frame, prot: Prot, cow: bool)

  /**
   `prot` gives the protection of every page inside a VMA, `own` the frame in its page array where
   there is one, `ptes` the page-table entries.
   */
  datatype World = World(prot: map<Key, Prot>, own: map<Key, Frame>, ptes: map<Key, Pte>,
                         refs: map<Frame, nat>, mem: map<Frame, Bytes>)

  const PAGE_SIZE: nat := 4096

  function ZeroPage(): Bytes {
    seq(PAGE_SIZE, _ => 0)
  }

  /** The page-array slots that name frame `f`. */
  ghost function Owners(own: map<Key, Frame>, f: Frame): set<Key> {
    set k | k in own && own[k] == f
  }

  /** Reference counts are exactly the number of slots naming the frame. */
  ghost predicate Counted(own: map<Key, Frame>, refs: map<Frame, nat>) {
    && (forall f :: f in refs ==> refs[f] == |Owners(own, f)| && refs[f] > 0)
    && (forall k :: k in own ==> own[k] in refs)
  }

  /** page_put: the frame goes away with its last reference. */
  function Put(refs: map<Frame, nat>, f: Frame): map<Frame, nat> {
    if f in refs && refs[f] > 1 then refs[f := refs[f] - 1] else refs - {f}
  }

  /** page_get, or the single reference of a frame just allocated. */
  function Get(refs: map<Frame, nat>, f: Frame): map<Frame, nat> {
    if f in refs then refs[f := refs[f] + 1] else refs[f := 1]
  }

  lemma CountedPut(own: map<Key, Frame>, refs: map<Frame, nat>, k: Key)
    requires Counted(own, refs) && k in own
    ensures Counted(own - {k}, Put(refs, own[k]))
  {
    var own', f := own - {k}, own[k];
    assert k in Owners(own, f) && Owners(own', f) == Owners(own, f) - {k};
    assert |Owners(own', f)| == |Owners(own, f)| - 1;
    assert forall f' :: f' != f ==> Owners(own', f') == Owners(own, f');
    forall k' | k' in own'
      ensures own'[k'] in Put(refs, f)
    {
      if own[k'] == f {
        assert k' in Owners(own', f);
        assert |Owners(own', f)| > 0;
      }
    }
  }

  lemma CountedGet(own: map<Key, Frame>, refs: map<Frame, nat>, k: Key, f: Frame)
    requires Counted(own, refs) && k !in own
    ensures Counted(own[k := f], Get(refs, f))
  {
    var own' := own[k := f];
    assert Owners(own', f) == Owners(own, f) + {k};
    assert forall f' :: f' != f ==> Owners(own', f') == Owners(own, f');
    if f !in refs {
      assert Owners(own, f) == {};
    }
  }

  lemma CountedFacts(own: map<Key, Frame>, refs: map<Frame, nat>)
    requires Counted(own, refs)
    ensures forall k :: k in own ==> own[k] in refs && refs[own[k]] > 0
  {
  }

  /** A frame with one reference has one owner. */
  lemma SoleOwner(own: map<Key, Frame>, refs: map<Frame, nat>, k: Key, k': Key)
    requires Counted(own, refs) && k in own && k' in own && own[k] == own[k'] && refs[own[k]] == 1
    ensures k == k'
  {
    var s := Owners(own, own[k]);
    assert k in s && k' in s;
    assert |s - {k}| == 0;
  }

  /** `p` allows nothing that `q` forbids. */
  predicate Within(p: Prot, q: Prot) {
    (p.r ==> q.r) && (p.w ==> q.w) && (p.x ==> q.x)
  }

  /** Some access is allowed, and writing only with reading. */
  predicate Usable(p: Prot) {
    (p.r || p.x) && (p.w ==> p.r)
  }

  /** An entry allows some access and none that the VMA forbids, and writes only where COW is not pending. */
  predicate EntryOk(e: Pte, prot: Prot) {
    Within(e.prot, prot) && Usable(e.prot) && (e.prot.w ==> !e.cow)
  }

  /** A mapped page maps the frame of its slot as the VMA allows. */
  ghost predicate Mapped(w: World) {
    forall k :: k in w.ptes ==>
      && k in w.own && k in w.prot && w.ptes[k].frame == w.own[k]
      && EntryOk(w.ptes[k], w.prot[k])
  }

  /** In a writable VMA a shared frame is mapped with the COW mark. */
  ghost predicate SharedIsCow(w: World) {
    forall k :: k in w.own && k in w.prot && w.own[k] in w.refs && w.prot[k].w && w.refs[w.own[k]] > 1 ==>
      k in w.ptes && w.ptes[k].cow
  }

  ghost predicate Inv(w: World) {
    && w.own.Keys <= w.prot.Keys
    && w.refs.Keys <= w.mem.Keys
    && Counted(w.own, w.refs)
    && Mapped(w)
  }

  /** A step keeps the bookkeeping, and the rule for shared frames if that held before. */
  ghost predicate Keeps(w: World, w': World) {
    Inv(w') && (SharedIsCow(w) ==> SharedIsCow(w'))
  }

  lemma KeepsRefl(w: World)
    requires Inv(w)
    ensures Keeps(w, w)
  {
  }

  lemma KeepsTrans(w0: World, w1: World, w2: World)
    requires Keeps(w0, w1) && Keeps(w1, w2)
    ensures Keeps(w0, w2)
  {
  }

  lemma KeepsIs(w: World, w': World)
    requires Keeps(w, w')
    ensures Inv(w') && (SharedIsCow(w) ==> SharedIsCow(w'))
  {
  }

  /** What a load from the page returns: the frame's bytes, or zeros before the first touch. */
  ghost function Read(w: World, k: Key): Bytes {
    if k in w.own && w.own[k] in w.mem then w.mem[w.own[k]] else ZeroPage()
  }

  /** Outside `s` the same pages are mapped with the same protection and read the same. */
  ghost predicate SameElsewhere(w: World, w': World, s: set<Key>) {
    forall k :: k !in s ==>
      && (k in w'.prot <==> k in w.prot)
      && (k in w.prot ==> w'.prot[k] == w.prot[k] && Read(w', k) == Read(w, k))
  }

  /** The pages [lo, hi) of one process. */
  ghost function Pages(pid: nat, lo: nat, hi: nat): set<Key> {
    set p | lo <= p < hi :: Key(pid, p)
  }

  /** No page of a process other than `pid` is added, removed, re-protected or reads differently. */
  ghost predicate OthersSame(w: World, w': World, pid: nat) {
    forall k: Key :: k.pid != pid ==>
      && (k in w'.prot <==> k in w.prot)
      && (k in w.prot ==> w'.prot[k] == w.prot[k] && Read(w', k) == Read(w, k))
  }

  lemma OthersFromPages(w: World, w': World, pid: nat, lo: nat, hi: nat)
    requires SameElsewhere(w, w', Pages(pid, lo, hi))
    ensures OthersSame(w, w', pid)
  {
  }

  lemma SameElsewhereWiden(w: World, w': World, s: set<Key>, s': set<Key>)
    requires SameElsewhere(w, w', s) && s <= s'
    ensures SameElsewhere(w, w', s')
  {
  }

  lemma SameElsewhereTrans(w0: World, w1: World, w2: World, s: set<Key>, s': set<Key>)
    requires SameElsewhere(w0, w1, s) && SameElsewhere(w1, w2, s')
    ensures SameElsewhere(w0, w2, s + s')
  {
  }

  lemma SameElsewhereRefl(w: World, s: set<Key>)
    ensures SameElsewhere(w, w, s)
  {
  }

  /** A page that also reads the same and keeps its protection is no exception. */
  lemma NowhereElse(w: World, w': World, k: Key)
    requires SameElsewhere(w, w', {k}) && (k in w.prot <==> k in w'.prot)
    requires k in w.prot ==> w'.prot[k] == w.prot[k] && Read(w', k) == Read(w, k)
    ensures SameElsewhere(w, w', {})
  {
  }

  lemma SameThen(w0: World, w1: World, w2: World, s: set<Key>)
    requires SameElsewhere(w0, w1, {}) && SameElsewhere(w1, w2, s)
    ensures SameElsewhere(w0, w2, s)
  {
  }

  lemma SameReads(w: World, w': World, k: Key)
    requires SameElsewhere(w, w', {}) && k in w.prot
    ensures k in w'.prot && w'.prot[k] == w.prot[k] && Read(w', k) == Read(w, k)
  {
  }

  /** A writable PTE has a sole owner. */
  lemma WritableIsSole(w: World, k: Key)
    requires Inv(w) && SharedIsCow(w) && k in w.ptes && w.ptes[k].prot.w
    ensures k in w.own && Owners(w.own, w.own[k]) == {k}
  {
    forall k' | k' in Owners(w.own, w.own[k])
      ensures k' == k
    {
      SoleOwner(w.own, w.refs, k, k');
    }
  }

  /** page_put of the frame in a slot, whose mapping goes with it. */
  function Detach(w: World, k: Key): World
    requires k in w.own
  {
    w.(own := w.own - {k}, ptes := w.ptes - {k}, refs := Put(w.refs, w.own[k]))
  }

  lemma DetachKeeps(w: World, k: Key)
    requires Inv(w) && k in w.own
    ensures Keeps(w, Detach(w, k)) && SameElsewhere(w, Detach(w, k), {k})
  {
    hide Counted, Owners, ZeroPage;
    CountedFacts(w.own, w.refs);
    CountedPut(w.own, w.refs, k);
    CountedFacts(w.own - {k}, Put(w.refs, w.own[k]));
  }

  /** A newly allocated frame with the given bytes goes into an empty slot. */
  function Install(w: World, k: Key, f: Frame, bytes: Bytes): World {
    w.(own := w.own[k := f], refs := w.refs[f := 1], mem := w.mem[f := bytes])
  }

  lemma InstallKeeps(w: World, k: Key, f: Frame, bytes: Bytes)
    requires Inv(w) && k in w.prot && k !in w.own && f !in w.refs
    ensures Keeps(w, Install(w, k, f, bytes)) && SameElsewhere(w, Install(w, k, f, bytes), {k})
    ensures Read(Install(w, k, f, bytes), k) == bytes
  {
    hide Counted, Owners, ZeroPage;
    CountedFacts(w.own, w.refs);
    CountedGet(w.own, w.refs, k, f);
  }

  /** A private copy takes the place of a frame in the page array; its mapping is dropped. */
  function Replace(w: World, k: Key, f: Frame): World
    requires k in w.own && w.own[k] in w.mem
  {
    Install(Detach(w, k), k, f, w.mem[w.own[k]])
  }

  lemma ReplaceKeeps(w: World, k: Key, f: Frame)
    requires Inv(w) && k in w.own && f !in w.refs
    ensures w.own[k] in w.mem && Keeps(w, Replace(w, k, f)) && SameElsewhere(w, Replace(w, k, f), {})
    ensures var w' := Replace(w, k, f); f in w'.refs && w'.refs[f] == 1 && w'.prot == w.prot && w'.own == w.own[k := f]
  {
    hide Counted, Owners, ZeroPage;
    CountedFacts(w.own, w.refs);
    DetachKeeps(w, k);
    assert (w.own - {k})[k := f] == w.own[k := f];
    var w1 := Detach(w, k);
    InstallKeeps(w1, k, f, w.mem[w.own[k]]);
    hide Inv, Mapped, SharedIsCow;
    assert Read(w, k) == w.mem[w.own[k]];
  }

  lemma MappedIsOwned(w: World, k: Key)
    requires Inv(w) && k in w.ptes
    ensures k in w.own && w.ptes[k].frame == w.own[k] && k in w.prot
  {
  }

  lemma UnmappedIsSole(w: World, k: Key)
    requires Inv(w) && k in w.own && k !in w.ptes
    ensures k in w.prot && w.own[k] in w.refs && (SharedIsCow(w) && w.prot[k].w ==> w.refs[w.own[k]] <= 1)
  {
  }

  /** A page-table entry is set for a page that has a frame. */
  function Map(w: World, k: Key, prot: Prot, cow: bool): World
    requires k in w.own
  {
    w.(ptes := w.ptes[k := Pte(w.own[k], prot, cow)])
  }

  lemma MapKeeps(w: World, k: Key, prot: Prot, cow: bool)
    requires Inv(w) && k in w.own && Within(prot, w.prot[k]) && Usable(prot) && (prot.w ==> !cow)
    requires SharedIsCow(w) && w.prot[k].w && w.refs[w.own[k]] > 1 ==> cow
    ensures Keeps(w, Map(w, k, prot, cow)) && SameElsewhere(w, Map(w, k, prot, cow), {})
  {
    hide Counted, Owners, ZeroPage;
    CountedFacts(w.own, w.refs);
  }

  function SetByte(bytes: Bytes, i: nat, b: int): Bytes {
    if i < |bytes| then bytes[i := b] else bytes
  }

  /** A store through a writable page-table entry. */
  function Store(w: World, k: Key, i: nat, b: int): World
    requires k in w.own && w.own[k] in w.mem
  {
    w.(mem := w.mem[w.own[k] := SetByte(w.mem[w.own[k]], i, b)])
  }

  lemma StoreKeeps(w: World, k: Key, i: nat, b: int)
    requires Inv(w) && k in w.own
    ensures w.own[k] in w.mem && Keeps(w, Store(w, k, i, b))
    ensures Read(Store(w, k, i, b), k) == SetByte(Read(w, k), i, b)
  {
    hide Counted, Owners, ZeroPage, SetByte;
    CountedFacts(w.own, w.refs);
  }

  /** A store is seen at one page of one process and nowhere else. */
  lemma StoreIsPrivate(w: World, k: Key, i: nat, b: int)
    requires Inv(w) && SharedIsCow(w) && k in w.ptes && w.ptes[k].prot.w
    ensures k in w.own && w.own[k] in w.mem
    ensures Keeps(w, Store(w, k, i, b)) && SameElsewhere(w, Store(w, k, i, b), {k})
    ensures Read(Store(w, k, i, b), k) == SetByte(Read(w, k), i, b)
  {
    WritableIsSole(w, k);
    CountedFacts(w.own, w.refs);
    SoleReads(w, k);
    hide Counted, Owners, ZeroPage, SetByte;
  }

  lemma SoleReads(w: World, k: Key)
    requires k in w.own && Owners(w.own, w.own[k]) == {k}
    ensures forall k' :: k' in w.own && k' != k ==> w.own[k'] != w.own[k]
  {
    forall k' | k' in w.own && w.own[k'] == w.own[k]
      ensures k' == k
    {
      assert k' in Owners(w.own, w.own[k]);
    }
  }

  /** A page with no frame yet is added to an address space. */
  function AddPage(w: World, k: Key, prot: Prot): World {
    w.(prot := w.prot[k := prot])
  }

  lemma AddPageKeeps(w: World, k: Key, prot: Prot)
    requires Inv(w) && k !in w.prot
    ensures Keeps(w, AddPage(w, k, prot)) && SameElsewhere(w, AddPage(w, k, prot), {k})
    ensures Read(AddPage(w, k, prot), k) == ZeroPage() == Read(w, k)
  {
    hide Counted, Owners, ZeroPage;
  }

  /** One more slot names the frame of page `k`. */
  function Share(w: World, k: Key, k': Key): World
    requires k in w.own && k in w.prot && k in w.ptes
  {
    var f, p := w.own[k], w.ptes[k];
    var cow := Pte(p.frame, p.prot.(w := false), true);
    var ptes := if w.prot[k].w then w.ptes[k := cow][k' := cow] else w.ptes[k' := p];
    World(w.prot[k' := w.prot[k]], w.own[k' := f], ptes, Get(w.refs, f), w.mem)
  }

  lemma ShareKeeps(w: World, k: Key, k': Key)
    requires Inv(w) && k in w.own && k in w.ptes && k' !in w.prot
    ensures k in w.prot && Keeps(w, Share(w, k, k')) && SameElsewhere(w, Share(w, k, k'), {k'})
    ensures Read(Share(w, k, k'), k') == Read(w, k)
  {
    hide Owners, ZeroPage;
    CountedFacts(w.own, w.refs);
    CountedGet(w.own, w.refs, k', w.own[k]);
    if SharedIsCow(w) {
      ShareCow(w, k, k');
    }
    ShareMapped(w, k, k');
    ShareReads(w, k, k');
    hide Counted, SharedIsCow, Mapped, SameElsewhere, Read;
  }

  lemma ShareMapped(w: World, k: Key, k': Key)
    requires Mapped(w) && k in w.own && k in w.ptes && k in w.prot && k' !in w.prot
    ensures Mapped(Share(w, k, k'))
  {
  }

  lemma ShareReads(w: World, k: Key, k': Key)
    requires k in w.own && k in w.ptes && k in w.prot && k' !in w.prot
    ensures SameElsewhere(w, Share(w, k, k'), {k'}) && Read(Share(w, k, k'), k') == Read(w, k)
  {
    hide ZeroPage;
  }

  lemma ShareCow(w: World, k: Key, k': Key)
    requires Inv(w) && SharedIsCow(w) && k in w.own && k in w.ptes && k in w.prot && k' !in w.prot
    ensures SharedIsCow(Share(w, k, k'))
  {
    var w' := Share(w, k, k');
    CountedFacts(w.own, w.refs);
    forall o | o in w'.own && o in w'.prot && w'.own[o] in w'.refs && w'.prot[o].w && w'.refs[w'.own[o]] > 1
      ensures o in w'.ptes && w'.ptes[o].cow
    {
      if o in w.own && w.own[o] == w.own[k] && w.refs[w.own[k]] == 1 {
        SoleOwner(w.own, w.refs, o, k);
      }
    }
  }

  /** fork of one page: shared if it is mapped, copied if it has a frame but no mapping, else left untouched. */
  function ForkPage(w: World, k: Key, k': Key, f: Frame): World
    requires k in w.prot && (k in w.own ==> w.own[k] in w.mem)
  {
    if k !in w.own then AddPage(w, k', w.prot[k])
    else if k !in w.ptes then Install(AddPage(w, k', w.prot[k]), k', f, w.mem[w.own[k]])
    else Share(w, k, k')
  }

  /** The child's page reads as the parent's, and no page of any other process changes. */
  lemma ForkPageKeeps(w: World, k: Key, k': Key, f: Frame)
    requires Inv(w) && k in w.prot && k' !in w.prot && f !in w.refs
    ensures k in w.own ==> w.own[k] in w.mem
    ensures Keeps(w, ForkPage(w, k, k', f)) && SameElsewhere(w, ForkPage(w, k, k', f), {k'})
    ensures k' in ForkPage(w, k, k', f).prot && ForkPage(w, k, k', f).prot[k'] == w.prot[k]
    ensures Read(ForkPage(w, k, k', f), k') == Read(w, k)
  {
    hide Counted, Owners, ZeroPage;
    CountedFacts(w.own, w.refs);
    if k !in w.own || k !in w.ptes {
      AddPageKeeps(w, k', w.prot[k]);
      if k in w.own {
        InstallKeeps(AddPage(w, k', w.prot[k]), k', f, w.mem[w.own[k]]);
      }
    } else {
      ShareKeeps(w, k, k');
    }
    hide Inv, Mapped, SharedIsCow;
  }

  /**
   update_present_pte: a present mapping takes the new protection, except that a pending COW keeps
   it read-only; no access at all clears it.
   */
  function UpdatePte(w: World, k: Key, prot: Prot): World
    requires k in w.ptes
  {
    var p := w.ptes[k];
    var prot' := if p.cow then prot.(w := false) else prot;
    if prot'.r || prot'.w || prot'.x then w.(ptes := w.ptes[k := Pte(p.frame, prot', p.cow)])
    else w.(ptes := w.ptes - {k})
  }

  /** The page may be given protection `prot`: it is not handed out writable while shared without a COW mark. */
  ghost predicate MayProtect(w: World, k: Key, prot: Prot) {
    prot.w && k in w.own && w.own[k] in w.refs && w.refs[w.own[k]] > 1 ==> k in w.ptes && w.ptes[k].cow
  }

  /** mprotect of one page. */
  function Reprotect(w: World, k: Key, prot: Prot, f: Frame): World
    requires k in w.prot && (k in w.own ==> w.own[k] in w.mem)
  {
    var none := !(prot.r || prot.w || prot.x);
    var w1 := if none && k in w.ptes && w.ptes[k].cow && k in w.own
              then Map(Replace(w, k, f), k, w.ptes[k].prot.(w := false), false) else w;
    var w2 := w1.(prot := w1.prot[k := prot]);
    if k in w2.ptes then UpdatePte(w2, k, prot) else w2
  }

  lemma ReprotectKeeps(w: World, k: Key, prot: Prot, f: Frame)
    requires Inv(w) && k in w.prot && f !in w.refs && (prot.w ==> prot.r)
    ensures k in w.own ==> w.own[k] in w.mem
    ensures var w' := Reprotect(w, k, prot, f);
            && Inv(w') && (SharedIsCow(w) && MayProtect(w, k, prot) ==> SharedIsCow(w')) && SameElsewhere(w, w', {k}) &&
               w'.prot == w.prot[k := prot] && Read(w', k) == Read(w, k)
  {
    FramesHaveBytes(w);
    hide Inv, Mapped, SharedIsCow, UpdatePte, SameElsewhere, Read, Replace, Map;
    if !(prot.r || prot.w || prot.x) && k in w.ptes && w.ptes[k].cow && k in w.own {
      var ro := w.ptes[k].prot.(w := false);
      CopyKeeps(w, k, ro, f);
      var w1 := Map(Replace(w, k, f), k, ro, false);
      LowerProt(w1, k, prot);
      SameThen(w, w1, Reprotect(w, k, prot, f), {k});
      SameReads(w, w1, k);
    } else {
      LowerProt(w, k, prot);
    }
  }

  /** Re-protecting a page keeps the sharing rules if and only if it does not make a shared, unmarked page writable. */
  lemma ReprotectExact(w: World, k: Key, prot: Prot, f: Frame)
    requires Inv(w) && SharedIsCow(w) && k in w.prot && f !in w.refs && (prot.w ==> prot.r)
    ensures k in w.own ==> w.own[k] in w.mem
    ensures SharedIsCow(Reprotect(w, k, prot, f)) <==> MayProtect(w, k, prot)
  {
    FramesHaveBytes(w);
    if MayProtect(w, k, prot) {
      ReprotectKeeps(w, k, prot, f);
    } else {
      var w' := Reprotect(w, k, prot, f);
      assert k in w'.own && k in w'.prot && w'.prot[k].w && w'.refs[w'.own[k]] > 1;
      assert !SharedIsCow(w');
    }
  }

  /** A page that is already writable may stay writable: only adding write permission can fail. */
  lemma KeepingWrite(w: World, k: Key, prot: Prot)
    requires Inv(w) && SharedIsCow(w) && k in w.prot && (prot.w ==> w.prot[k].w)
    ensures MayProtect(w, k, prot)
  {
  }

  lemma FramesHaveBytes(w: World)
    requires Inv(w)
    ensures forall k :: k in w.own ==> w.own[k] in w.mem && w.own[k] in w.refs && k in w.prot
  {
  }

  /** cow_replace_page and the COW fault: the page gets a frame of its own with the same bytes. */
  lemma CopyKeeps(w: World, k: Key, prot: Prot, f: Frame)
    requires Inv(w) && k in w.own && k in w.prot && f !in w.refs && Within(prot, w.prot[k]) && Usable(prot)
    ensures w.own[k] in w.mem
    ensures var w' := Map(Replace(w, k, f), k, prot, false);
            Keeps(w, w') && SameElsewhere(w, w', {}) && w'.prot == w.prot && w'.own == w.own[k := f]
  {
    hide Inv, Mapped, SharedIsCow, Read, SameElsewhere, Replace;
    FramesHaveBytes(w);
    ReplaceKeeps(w, k, f);
    var w1 := Replace(w, k, f);
    MapKeeps(w1, k, prot, false);
    SameThen(w, w1, Map(w1, k, prot, false), {});
  }

  ghost predicate SameEntries(m: map<Key, Pte>, m': map<Key, Pte>, k: Key) {
    forall k' :: k' != k ==> (k' in m' <==> k' in m) && (k' in m ==> m'[k'] == m[k'])
  }

  /** Writable, the page would be marked if its frame is shared. */
  ghost predicate CowAt(w: World, k: Key, prot: Prot, ptes: map<Key, Pte>) {
    k in w.own && w.own[k] in w.refs && prot.w && w.refs[w.own[k]] > 1 ==> k in ptes && ptes[k].cow
  }

  /** Changing the protection and the mapping of one page. */
  lemma RemapKeeps(w: World, k: Key, prot: Prot, ptes: map<Key, Pte>)
    requires Inv(w) && k in w.prot && SameEntries(w.ptes, ptes, k)
    requires k in ptes ==> k in w.own && ptes[k].frame == w.own[k] && EntryOk(ptes[k], prot)
    ensures var w' := w.(prot := w.prot[k := prot], ptes := ptes);
            && Inv(w') && (SharedIsCow(w) && CowAt(w, k, prot, ptes) ==> SharedIsCow(w')) &&
               SameElsewhere(w, w', {k}) && Read(w', k) == Read(w, k)
  {
    hide Counted, Owners, ZeroPage;
    RemapMapped(w, k, prot, ptes);
    if SharedIsCow(w) && CowAt(w, k, prot, ptes) {
      RemapCow(w, k, prot, ptes);
    }
    hide Mapped, SharedIsCow, SameEntries;
  }

  lemma RemapMapped(w: World, k: Key, prot: Prot, ptes: map<Key, Pte>)
    requires Mapped(w) && SameEntries(w.ptes, ptes, k)
    requires k in ptes ==> k in w.own && ptes[k].frame == w.own[k] && EntryOk(ptes[k], prot)
    ensures Mapped(w.(prot := w.prot[k := prot], ptes := ptes))
  {
  }

  lemma RemapCow(w: World, k: Key, prot: Prot, ptes: map<Key, Pte>)
    requires SharedIsCow(w) && SameEntries(w.ptes, ptes, k) && CowAt(w, k, prot, ptes)
    ensures SharedIsCow(w.(prot := w.prot[k := prot], ptes := ptes))
  {
  }

  lemma LowerProt(w: World, k: Key, prot: Prot)
    requires Inv(w) && k in w.prot && (prot.w ==> prot.r)
    ensures var w2 := w.(prot := w.prot[k := prot]);
            var w' := if k in w2.ptes then UpdatePte(w2, k, prot) else w2;
            && Inv(w') && (SharedIsCow(w) && MayProtect(w, k, prot) ==> SharedIsCow(w')) && SameElsewhere(w, w', {k}) &&
               w'.prot == w.prot[k := prot] && Read(w', k) == Read(w, k)
  {
    var w2 := w.(prot := w.prot[k := prot]);
    var w' := if k in w2.ptes then UpdatePte(w2, k, prot) else w2;
    assert SameEntries(w.ptes, w'.ptes, k);
    assert w' == w.(prot := w.prot[k := prot], ptes := w'.ptes);
    hide Counted, Owners, ZeroPage;
    RemapKeeps(w, k, prot, w'.ptes);
  }

  /** Pages that have no frame left go out of the address space together. */
  lemma ForgetAll(w: World, s: set<Key>)
    requires Inv(w) && s !! w.own.Keys
    ensures Keeps(w, w.(prot := w.prot - s)) && SameElsewhere(w, w.(prot := w.prot - s), s)
  {
    hide Counted, Owners, ZeroPage;
    var w' := w.(prot := w.prot - s);
    assert Mapped(w') by { hide SharedIsCow; }
    assert SharedIsCow(w) ==> SharedIsCow(w') by { hide Mapped; }
  }

  ghost function WithPages(prot: map<Key, Prot>, s: set<Key>, p: Prot): map<Key, Prot> {
    prot + map k | k in s :: p
  }

  /** New pages without frames join an address space. */
  ghost function AddAll(w: World, s: set<Key>, prot: Prot): World {
    w.(prot := WithPages(w.prot, s, prot))
  }

  lemma AddAllKeeps(w: World, s: set<Key>, prot: Prot)
    requires Inv(w) && s !! w.prot.Keys
    ensures Keeps(w, AddAll(w, s, prot)) && SameElsewhere(w, AddAll(w, s, prot), s)
    ensures forall k :: k in s ==> Read(AddAll(w, s, prot), k) == ZeroPage()
  {
    hide Counted, Owners, ZeroPage;
    var w' := AddAll(w, s, prot);
    assert Mapped(w') by { hide SharedIsCow; }
    assert SharedIsCow(w) ==> SharedIsCow(w') by { hide Mapped; }
  }

  /** A page shared read-only by processes 1 and 2, as a fork of a read-only region leaves it. */
  function ForkedReadOnly(): World {
    var ro := Prot(true, false, false);
    World(map[Key(1, 0) := ro, Key(2, 0) := ro], map[Key(1, 0) := 0, Key(2, 0) := 0],
          map[Key(1, 0) := Pte(0, ro, false), Key(2, 0) := Pte(0, ro, false)], map[0 := 2], map[0 := [0]])
  }

  lemma ForkedReadOnlyInv()
    ensures Inv(ForkedReadOnly()) && SharedIsCow(ForkedReadOnly())
  {
    var w := ForkedReadOnly();
    assert Owners(w.own, 0) == {Key(1, 0), Key(2, 0)};
    assert Counted(w.own, w.refs);
  }

  /**
   The case that MayProtect shuts out: process 2 makes its read-only page writable after the fork
   and stores to it, and process 1 reads the byte.
   */
  lemma WriteAddedAfterForkLeaks()
    ensures var w := ForkedReadOnly();
            var rw := Prot(true, true, false);
            && Inv(w) && SharedIsCow(w) && !MayProtect(w, Key(2, 0), rw)
            && var w1 := Reprotect(w, Key(2, 0), rw, 1);
               && Key(2, 0) in w1.own && w1.own[Key(2, 0)] in w1.mem && Key(2, 0) in w1.ptes &&
                  w1.ptes[Key(2, 0)].prot.w
               && Read(w, Key(1, 0)) == [0] && Read(Store(w1, Key(2, 0), 0, 7), Key(1, 0)) == [7]
  {
    ForkedReadOnlyInv();
    hide Inv, Counted, Owners, ZeroPage;
    var w := ForkedReadOnly();
    var w1 := Reprotect(w, Key(2, 0), Prot(true, true, false), 1);
    assert w1.own[Key(2, 0)] == 0 && w1.mem == w.mem;
    assert SetByte([0], 0, 7) == [7];
  }
}
