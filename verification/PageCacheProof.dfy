/** Every step keeps the invariant of the page cache. */
module PageCacheProof {
  import opened PageData
  import opened PageCacheSteps

  /** For any page but `p` the two program counters say the same. */
  ghost predicate Elsewhere(pc: Pc, pc': Pc, p: PageId) {
    && (forall q :: q != p ==> !On(pc, q) && !On(pc', q))
    && Batch(pc) - {p} == Batch(pc') - {p}
  }

  /** For any thread but `t` the page still supports what that thread relies on. */
  ghost predicate Kept(g: Page, g': Page, t: Tid) {
    && g'.holders - {t} == g.holders - {t} && g'.debt - {t} == g.debt - {t}
    && (g'.owner == g.owner || (g.owner == None && g'.owner == Some(t)) || (g.owner == Some(t) && g'.owner == None))
    && (g'.batchOf == g.batchOf || (g.batchOf == None && g'.batchOf == Some(t)) ||
       (g.batchOf == Some(t) && g'.batchOf == None))
    && (g.uptodate ==> g'.uptodate) && (g.filled ==> g'.filled) && (g'.filled && !g.filled ==> g.owner == Some(t))
    && (g.cached ==> g'.cached) && (g'.cached ==> g.cached)
    && (g'.dropper == g.dropper || (g.dropper == Some(t) && g'.dropper == None)) && g'.index == g.index
  }

  lemma PairElsewhere(pc: Pc, pc': Pc, g: Page, t: Tid, p: PageId, q: PageId)
    requires PairOk(pc, g, t, q) && Elsewhere(pc, pc', p) && q != p
    ensures PairOk(pc', g, t, q)
  {
    assert !On(pc, q) && !On(pc', q);
    assert q in Batch(pc) <==> q in Batch(pc') by {
      assert q in Batch(pc) - {p} <==> q in Batch(pc') - {p};
    }
  }

  lemma PairKept(pc: Pc, g: Page, g': Page, t: Tid, u: Tid, p: PageId)
    requires PairOk(pc, g, u, p) && Kept(g, g', t) && u != t
    ensures PairOk(pc, g', u, p)
  {
    assert u in g.holders - {t} <==> u in g.holders;
    assert u in g'.holders - {t} <==> u in g'.holders;
    assert u in g.debt - {t} <==> u in g.debt;
    assert u in g'.debt - {t} <==> u in g'.debt;
  }

  /** The store or the file changed at most at index `i`. */
  ghost predicate SameBut(m: map<Index, Data>, m': map<Index, Data>, i: Index) {
    forall j: Index :: j != i ==> At(m', j) == At(m, j)
  }

  /** A step that changes one page and one thread. */
  ghost predicate LocalChange(s: State, s': State, t: Tid, p: PageId) {
    && p in s.pages && p in s'.pages && s'.pages == s.pages[p := s'.pages[p]] &&
       s'.threads == s.threads[t := PcOf(s', t)] && t in s'.threads
    && s'.hash == s.hash && s'.dirtyList - {p} == s.dirtyList - {p} && s'.dirtyList <= s'.pages.Keys
    && SameBut(s.store, s'.store, s.pages[p].index) && SameBut(s.file, s'.file, s.pages[p].index)
    && (s.pages[p].cached || (s'.store == s.store && s'.file == s.file))
  }

  ghost predicate LocalOk(s: State, s': State, t: Tid, p: PageId)
    requires p in s.pages && p in s'.pages
  {
    var g, g' := s.pages[p], s'.pages[p];
    && PcOk(PcOf(s', t)) && Elsewhere(PcOf(s, t), PcOf(s', t), p) && Kept(g, g', t)
    && PairOk(PcOf(s', t), g', t, p)
    && MarksOk(g', p in s'.dirtyList)
    && ContentsOk(g', At(s'.store, g'.index), At(s'.file, g'.index))
  }

  lemma LocalPages(s: State, s': State, t: Tid, p: PageId)
    requires Inv(s) && LocalChange(s, s', t, p) && LocalOk(s, s', t, p)
    ensures PagesOk(s')
  {
    hide PairOk, MarksOk, ContentsOk, Elsewhere, At;
    forall q | q in s'.pages
      ensures PageOk(s', q)
    {
      assert q in s.pages && PageOk(s, q);
      assert PageOk(s, p);
      if q != p {
        assert q in s'.dirtyList <==> q in s.dirtyList by {
          assert q in s'.dirtyList - {p} <==> q in s.dirtyList - {p};
        }
        if s.pages[q].index == s.pages[p].index && s.pages[p].cached {
          assert !s.pages[q].cached;
          Uncached(s.pages[q], At(s'.store, s.pages[q].index), At(s'.file, s.pages[q].index));
        }
      }
    }
  }

  lemma Uncached(g: Page, store: Data, file: Data)
    requires !g.cached
    ensures ContentsOk(g, store, file)
  {
  }

  lemma LocalPairs(s: State, s': State, t: Tid, p: PageId)
    requires Inv(s) && LocalChange(s, s', t, p) && LocalOk(s, s', t, p)
    ensures PairsOk(s') && PcsOk(s') && HeldExist(s')
  {
    hide PairOk, MarksOk, ContentsOk, PageOk, PcOk, SameBut;
    forall u: Tid, q | q in s'.pages
      ensures PairOk(PcOf(s', u), s'.pages[q], u, q)
    {
      assert PairOk(PcOf(s, u), s.pages[q], u, q);
      if u == t && q != p {
        PairElsewhere(PcOf(s, t), PcOf(s', t), s.pages[q], t, p, q);
      } else if u != t && q == p {
        PairKept(PcOf(s, u), s.pages[p], s'.pages[p], t, u, p);
      }
    }
    forall u: Tid
      ensures PcOk(PcOf(s', u))
    {
      assert PcOk(PcOf(s, u));
    }
    forall u: Tid, q | Holds(PcOf(s', u), q)
      ensures q in s'.pages
    {
      if u != t {
        assert Holds(PcOf(s, u), q);
      } else if q != p {
        assert q in Batch(PcOf(s', t)) - {p};
        assert Holds(PcOf(s, t), q);
      }
    }
  }

  lemma LocalHash(s: State, s': State, t: Tid, p: PageId)
    requires Inv(s) && LocalChange(s, s', t, p) && LocalOk(s, s', t, p)
    ensures HashOk(s') && RestOk(s')
  {
    hide PairOk, MarksOk, ContentsOk, At, Elsewhere, PcOk;
    assert PageOk(s, p);
    forall i: Index | i !in s'.hash
      ensures At(s'.store, i) == At(s'.file, i)
    {
      assert i !in s.hash;
    }
  }

  lemma Local(s: State, s': State, t: Tid, p: PageId)
    requires Inv(s) && LocalChange(s, s', t, p) && LocalOk(s, s', t, p)
    ensures Inv(s')
  {
    hide *;
    LocalPages(s, s', t, p);
    LocalPairs(s, s', t, p);
    LocalHash(s, s', t, p);
    LocalRest(s, s', t, p);
  }

  lemma LocalRest(s: State, s': State, t: Tid, p: PageId)
    requires LocalChange(s, s', t, p) && PagesOk(s') && PairsOk(s') && PcsOk(s') && HeldExist(s') && HashOk(s') &&
             RestOk(s')
    ensures Inv(s')
  {
  }

  /** What a thread at work on page `p` may rely on. */
  lemma Ready(s: State, t: Tid, p: PageId)
    requires Inv(s) && On(PcOf(s, t), p)
    ensures p in s.pages && PairOk(PcOf(s, t), s.pages[p], t, p) && PageOk(s, p) && PcOk(PcOf(s, t))
    ensures s.pages[p].refs > 0 && t in s.pages[p].holders && t in s.threads
  {
    assert Holds(PcOf(s, t), p);
    assert PairOk(PcOf(s, t), s.pages[p], t, p) && PageOk(s, p) && PcOk(PcOf(s, t));
    assert |s.pages[p].holders| > 0 by {
      assert t in s.pages[p].holders;
    }
  }

  /** What thread `t` and its page know of each other. */
  ghost predicate ViewOk(v: View, t: Tid, p: PageId) {
    PcOk(v.pc) && PairOk(v.pc, v.g, t, p) && MarksOk(v.g, v.linked) && ContentsOk(v.g, v.store, v.file)
  }

  /** A step on one page is sound if it keeps that, and leaves other threads and other pages alone. */
  ghost predicate Sound(v: View, v': View, t: Tid, p: PageId) {
    && ViewOk(v', t, p) && Elsewhere(v.pc, v'.pc, p) && Kept(v.g, v'.g, t)
    && (v.g.cached || (v'.store == v.store && v'.file == v.file))
  }

  lemma SoundKeeps(s: State, t: Tid, p: PageId, v': View)
    requires Inv(s) && p in s.pages && Sound(ViewOf(s, t, p), v', t, p)
    ensures Inv(WithView(s, t, p, v'))
  {
    var s' := WithView(s, t, p, v');
    assert LocalChange(s, s', t, p) by {
      hide PairOk, MarksOk, ContentsOk, PcOk, PagesOk, PairsOk, PcsOk, HeldExist, HashOk, RestOk, Zero;
    }
    assert LocalOk(s, s', t, p) by {
      hide PairOk, MarksOk, ContentsOk, PcOk, Inv, Kept, Elsewhere;
      assert PcOf(s', t) == v'.pc && s'.pages[p] == v'.g && At(s'.store, v'.g.index) == v'.store &&
             At(s'.file, v'.g.index) == v'.file;
    }
    hide *;
    Local(s, s', t, p);
  }

  lemma ViewIs(s: State, t: Tid, p: PageId)
    requires Inv(s) && p in s.pages
    ensures ViewOk(ViewOf(s, t, p), t, p)
    ensures s.pages[p].cached <==> s.pages[p].index in s.hash && s.hash[s.pages[p].index] == p
  {
    assert PageOk(s, p) && PcOk(PcOf(s, t)) && PairOk(PcOf(s, t), s.pages[p], t, p);
  }

  // Steps on a single page, a few program counters at a time.

  /** The three places that take io_lock. */
  lemma LockSound(v: View, t: Tid, p: PageId, pc': Pc)
    requires ViewOk(v, t, p) && v.g.owner == None && On(v.pc, p)
    requires (v.pc.Lock? && pc' == ReCheck(p, v.pc.job)) || (v.pc.Use? && pc' == Copy(p, v.pc.job)) ||
             (v.pc.WbLock? && pc' == WbWrite(p, v.pc.batch))
    ensures Sound(v, Locked(v, t, pc'), t, p)
  {
  }

  /** The three places that release it. */
  lemma UnlockSound(v: View, t: Tid, p: PageId, pc': Pc)
    requires ViewOk(v, t, p) && On(v.pc, p)
    requires (v.pc.FillUnlock? && pc' == if v.pc.ok then Use(p, v.pc.job) else Put(p))
             || (v.pc.CopyUnlock? && pc' == if v.pc.wrote then MarkDirty(p) else Put(p))
             || (v.pc.WbUnlock? && pc' == WbEnd(p, v.pc.batch, v.pc.err))
    ensures Sound(v, Unlocked(v, pc'), t, p)
  {
    assert Section(v.pc, p);
  }

  lemma CheckSound(v: View, t: Tid, p: PageId, ok: bool)
    requires ViewOk(v, t, p) && (v.pc.Check? || v.pc.ReCheck?) && v.pc.p == p
    ensures Sound(v, ReadIn(v, t, ok), t, p)
  {
  }

  lemma FillSound(v: View, t: Tid, p: PageId, ok: bool)
    requires ViewOk(v, t, p) && (v.pc.Fill? || v.pc.FillMark?) && v.pc.p == p
    ensures Sound(v, ReadIn(v, t, ok), t, p)
  {
  }

  lemma ReadInSound(v: View, t: Tid, p: PageId, ok: bool)
    requires ViewOk(v, t, p) && InReadIn(v.pc) && v.pc.p == p && (v.pc.Lock? ==> v.g.owner == None)
    ensures Sound(v, ReadIn(v, t, ok), t, p)
  {
    hide Sound, ViewOk, Locked, Unlocked;
    if v.pc.Lock? {
      LockSound(v, t, p, ReCheck(p, v.pc.job));
    } else if v.pc.FillUnlock? {
      UnlockSound(v, t, p, if v.pc.ok then Use(p, v.pc.job) else Put(p));
    } else if v.pc.Check? || v.pc.ReCheck? {
      CheckSound(v, t, p, ok);
    } else {
      FillSound(v, t, p, ok);
    }
  }

  lemma CopySound(v: View, t: Tid, p: PageId)
    requires ViewOk(v, t, p) && v.pc.Copy? && v.pc.p == p
    ensures Sound(v, CopyIn(v, t), t, p)
  {
  }

  lemma MarkSound(v: View, t: Tid, p: PageId)
    requires ViewOk(v, t, p) && (v.pc.CopyMark? || v.pc.MarkDirty?) && v.pc.p == p
    ensures Sound(v, CopyIn(v, t), t, p)
  {
  }

  lemma CopyInSound(v: View, t: Tid, p: PageId)
    requires ViewOk(v, t, p) && InCopyIn(v.pc) && v.pc.p == p && (v.pc.Use? ==> v.g.owner == None) && PcOk(v.pc)
    ensures Sound(v, CopyIn(v, t), t, p)
  {
    hide Sound, ViewOk, Locked, Unlocked, Dirtied, Splice;
    if v.pc.Use? {
      LockSound(v, t, p, Copy(p, v.pc.job));
    } else if v.pc.CopyUnlock? {
      UnlockSound(v, t, p, if v.pc.wrote then MarkDirty(p) else Put(p));
    } else if v.pc.Copy? {
      CopySound(v, t, p);
    } else {
      MarkSound(v, t, p);
    }
  }

  lemma BeginSound(v: View, t: Tid, p: PageId, ok: bool, garbage: Data)
    requires ViewOk(v, t, p) && v.pc.Flush? && p in v.pc.batch
    ensures Sound(v, WriteBack(v, t, p, ok, garbage), t, p)
  {
  }

  lemma WriteSound(v: View, t: Tid, p: PageId, ok: bool, garbage: Data)
    requires ViewOk(v, t, p) && (v.pc.WbWrite? || v.pc.WbEnd?) && v.pc.p == p
    ensures Sound(v, WriteBack(v, t, p, ok, garbage), t, p)
  {
  }

  lemma RedirtySound(v: View, t: Tid, p: PageId, ok: bool, garbage: Data)
    requires ViewOk(v, t, p) && v.pc.WbRedirty? && v.pc.p == p
    ensures Sound(v, WriteBack(v, t, p, ok, garbage), t, p)
  {
  }

  lemma WriteBackSound(v: View, t: Tid, p: PageId, ok: bool, garbage: Data)
    requires ViewOk(v, t, p) && InWriteBack(v.pc) && (if v.pc.Flush? then p in v.pc.batch else v.pc.p == p) &&
             (v.pc.WbLock? ==> v.g.owner == None)
    ensures Sound(v, WriteBack(v, t, p, ok, garbage), t, p)
  {
    hide Sound, ViewOk, Locked, Unlocked, Dirtied;
    if v.pc.Flush? {
      BeginSound(v, t, p, ok, garbage);
    } else if v.pc.WbLock? {
      LockSound(v, t, p, WbWrite(p, v.pc.batch));
    } else if v.pc.WbUnlock? {
      UnlockSound(v, t, p, WbEnd(p, v.pc.batch, v.pc.err));
    } else if v.pc.WbRedirty? {
      RedirtySound(v, t, p, ok, garbage);
    } else {
      WriteSound(v, t, p, ok, garbage);
    }
  }

  lemma GainHolder(g: Page, t: Tid, linked: bool)
    requires MarksOk(g, linked) && t !in g.holders
    ensures MarksOk(Referenced(g, t), linked)
  {
  }

  lemma LoseHolder(g: Page, t: Tid, linked: bool)
    requires MarksOk(g, linked) && t in g.holders
    ensures g.refs > 0 && MarksOk(g.(refs := g.refs - 1, holders := g.holders - {t}), linked)
  {
    assert |g.holders - {t}| == |g.holders| - 1;
  }

  lemma PinSound(v: View, t: Tid, p: PageId)
    requires ViewOk(v, t, p) && v.g.refs > 0 && v.pc.Idle?
    ensures Sound(v, Refs(v, t, p), t, p)
  {
    assert t !in v.g.holders;
    GainHolder(v.g, t, v.linked);
    hide MarksOk;
  }

  lemma TakeSound(v: View, t: Tid, p: PageId)
    requires ViewOk(v, t, p) && v.g.refs > 0 && (v.pc.Find? || v.pc.Create?) && v.g.cached
    ensures Sound(v, Refs(v, t, p), t, p)
  {
    var v' := Refs(v, t, p);
    assert t !in v.g.holders;
    GainHolder(v.g, t, v.linked);
    hide MarksOk;
    assert ContentsOk(v'.g, v'.store, v'.file);
    hide ContentsOk;
    assert PcOk(v'.pc) && PairOk(v'.pc, v'.g, t, p);
    hide PairOk, PcOk;
  }

  lemma SpareSound(v: View, t: Tid, p: PageId)
    requires ViewOk(v, t, p) && v.g.refs > 0 && v.pc == ShrinkCheck(p)
    ensures Sound(v, Refs(v, t, p), t, p)
  {
    hide MarksOk;
  }

  lemma ReleasedSound(v: View, t: Tid, p: PageId, pc': Pc)
    requires ViewOk(v, t, p) && On(v.pc, p) && Puts(v.pc) && !v.pc.ShrinkDrop? && pc' == AfterPut(v.pc) && v.g.refs > 0
    ensures Sound(v, Released(v, t, pc'), t, p)
  {
    var v' := Released(v, t, pc');
    assert t in v.g.holders;
    LoseHolder(v.g, t, v.linked);
    hide MarksOk;
    assert ContentsOk(v'.g, v'.store, v'.file) by { hide PairOk, PcOk; }
    hide ContentsOk;
    ReleasedPair(v.pc, v.g, t, p);
    hide PairOk, PcOk;
    assert Kept(v.g, v'.g, t);
    hide Kept;
  }

  lemma ReleasedPair(pc: Pc, g: Page, t: Tid, p: PageId)
    requires PcOk(pc) && PairOk(pc, g, t, p) && On(pc, p) && Puts(pc) && !pc.ShrinkDrop? && g.refs > 0
    ensures PcOk(AfterPut(pc)) && PairOk(AfterPut(pc), g.(refs := g.refs - 1, holders := g.holders - {t}), t, p)
  {
  }

  lemma PutSound(v: View, t: Tid, p: PageId)
    requires ViewOk(v, t, p) && v.g.refs > 0 && Puts(v.pc) && !v.pc.ShrinkDrop? && v.pc.p == p
    ensures Sound(v, Refs(v, t, p), t, p)
  {
    ReleasedSound(v, t, p, AfterPut(v.pc));
    hide Sound, ViewOk, Released;
  }

  lemma DropSound(v: View, t: Tid, p: PageId)
    requires ViewOk(v, t, p) && v.g.refs > 0 && v.pc == ShrinkDrop(p)
    ensures Sound(v, Refs(v, t, p), t, p)
  {
  }

  /** Whatever single-page step a thread takes next is sound. */
  lemma TurnSound(v: View, t: Tid, p: PageId, c: Choice)
    requires ViewOk(v, t, p) && PcOk(v.pc) && v.g.refs > 0
    requires v.pc.Idle? || v.pc.Find? || v.pc.Create? || (v.pc.Flush? && p in v.pc.batch) || On(v.pc, p)
    requires v.pc.Find? || v.pc.Create? ==> v.g.cached
    requires v.pc.Lock? || v.pc.Use? || v.pc.WbLock? ==> v.g.owner == None
    ensures Sound(v, Turn(v, t, p, c), t, p)
  {
    hide Sound, ViewOk, ReadIn, CopyIn, WriteBack, Refs, PcOk;
    if InReadIn(v.pc) {
      ReadInSound(v, t, p, c.ok);
    } else if InCopyIn(v.pc) {
      CopyInSound(v, t, p);
    } else if InWriteBack(v.pc) {
      WriteBackSound(v, t, p, c.ok, c.garbage);
    } else if v.pc.Idle? {
      PinSound(v, t, p);
    } else if v.pc.Find? || v.pc.Create? {
      TakeSound(v, t, p);
    } else if v.pc.ShrinkCheck? {
      SpareSound(v, t, p);
    } else if v.pc.ShrinkDrop? {
      DropSound(v, t, p);
    } else {
      PutSound(v, t, p);
    }
  }

  // Steps that work on no page, or change which pages there are.

  lemma PcsKept(s: State, s': State, t: Tid, pc': Pc)
    requires PcsOk(s) && s'.threads == s.threads[t := pc'] && PcOk(pc')
    ensures PcsOk(s')
  {
    hide PcOk;
    forall u: Tid
      ensures PcOk(PcOf(s', u))
    {
      assert PcOk(PcOf(s, u));
    }
  }

  lemma MovedKeeps(s: State, t: Tid, pc': Pc)
    requires Inv(s) && PcOk(pc')
    requires forall p :: !Holds(PcOf(s, t), p) && !Holds(pc', p)
    ensures Inv(Moved(s, t, pc'))
  {
    var s' := Moved(s, t, pc');
    hide MarksOk, ContentsOk, At, PcOk;
    forall u: Tid, p | p in s'.pages
      ensures PairOk(PcOf(s', u), s'.pages[p], u, p)
    {
      assert PairOk(PcOf(s, u), s.pages[p], u, p);
      assert !Holds(PcOf(s, t), p) && !Holds(pc', p);
    }
    forall p | p in s'.pages
      ensures PageOk(s', p)
    {
      assert PageOk(s, p);
    }
    forall u: Tid
      ensures PcOk(PcOf(s', u))
    {
      assert PcOk(PcOf(s, u));
    }
    forall u: Tid, p | Holds(PcOf(s', u), p)
      ensures p in s'.pages
    {
      assert u != t && Holds(PcOf(s, u), p);
    }
  }

  lemma NewPageOk(index: Index, t: Tid, file: Data)
    ensures MarksOk(NewPage(index, t), false) && ContentsOk(NewPage(index, t), file, file)
  {
  }

  lemma InsertedPairs(s: State, t: Tid, index: Index, job: Job, n: PageId)
    requires Inv(s) && PcOf(s, t) == Create(index, job) && index !in s.hash && n !in s.pages
    ensures PairsOk(Inserted(s, t, index, job, n)) && HeldExist(Inserted(s, t, index, job, n))
  {
    hide PcOk, PagesOk, HashOk, RestOk;
    var s' := Inserted(s, t, index, job, n);
    forall u: Tid, p | p in s'.pages
      ensures PairOk(PcOf(s', u), s'.pages[p], u, p)
    {
      if p != n {
        assert PairOk(PcOf(s, u), s.pages[p], u, p);
      } else if u != t {
        assert !Holds(PcOf(s, u), n);
      }
    }
    hide PairOk, PairsOk;
    forall u: Tid, p | Holds(PcOf(s', u), p)
      ensures p in s'.pages
    {
      if u != t {
        assert Holds(PcOf(s, u), p);
      }
    }
  }

  lemma InsertedPages(s: State, t: Tid, index: Index, job: Job, n: PageId)
    requires Inv(s) && index !in s.hash && n !in s.pages
    ensures PagesOk(Inserted(s, t, index, job, n))
  {
    hide At, PcOk, PairsOk, HeldExist, PcsOk;
    var s' := Inserted(s, t, index, job, n);
    NewPageOk(index, t, At(s.file, index));
    hide MarksOk, ContentsOk;
    forall p | p in s'.pages
      ensures PageOk(s', p)
    {
      if p != n {
        assert PageOk(s, p);
      } else {
        assert n !in s'.dirtyList;
        assert At(s'.store, index) == At(s'.file, index);
      }
    }
  }

  lemma InsertedKeeps(s: State, t: Tid, index: Index, job: Job, n: PageId)
    requires Inv(s) && PcOf(s, t) == Create(index, job) && index !in s.hash && n !in s.pages
    ensures Inv(Inserted(s, t, index, job, n))
  {
    InsertedPairs(s, t, index, job, n);
    InsertedPages(s, t, index, job, n);
    hide PairsOk, HeldExist, PagesOk, At;
    var s' := Inserted(s, t, index, job, n);
    assert PcOk(PcOf(s, t));
    assert PcOk(Found(n, job));
    hide PcOk;
    forall u: Tid
      ensures PcOk(PcOf(s', u))
    {
      assert PcOk(PcOf(s, u));
    }
  }

  /** A page that passes the shrinker's test has no other user, and its contents are in the store. */
  lemma ReclaimableIsClean(s: State, t: Tid, p: PageId)
    requires Inv(s) && PcOf(s, t) == ShrinkCheck(p) && p in s.pages && Reclaimable(s.pages[p])
    ensures s.pages[p].holders == {t} && s.pages[p].debt == {} && s.pages[p].owner == None && s.pages[p].batchOf == None
    ensures At(s.store, s.pages[p].index) == At(s.file, s.pages[p].index)
    ensures s.pages[p].uptodate ==> s.pages[p].data == At(s.store, s.pages[p].index)
  {
    hide At, PcOk;
    var g := s.pages[p];
    assert PageOk(s, p);
    assert PairOk(PcOf(s, t), g, t, p);
    assert g.holders == {t} by {
      assert t in g.holders && |g.holders| == 1;
      assert |g.holders - {t}| == 0;
    }
    assert g.owner.Some? ==> PairOk(PcOf(s, g.owner.value), g, g.owner.value, p);
    forall u: Tid
      ensures u !in g.debt
    {
      assert PairOk(PcOf(s, u), g, u, p);
    }
  }

  lemma DetachedPairs(s: State, t: Tid, p: PageId)
    requires Inv(s) && PcOf(s, t) == ShrinkCheck(p) && p in s.pages && Reclaimable(s.pages[p])
    ensures PairsOk(Detached(s, t, p)) && HeldExist(Detached(s, t, p))
  {
    ReclaimableIsClean(s, t, p);
    assert PageOk(s, p);
    hide At, PcOk, ContentsOk, PagesOk, HashOk, RestOk, PcsOk;
    var s' := Detached(s, t, p);
    forall u: Tid, q | q in s'.pages
      ensures PairOk(PcOf(s', u), s'.pages[q], u, q)
    {
      assert PairOk(PcOf(s, u), s.pages[q], u, q);
    }
    hide PairOk, PairsOk, PageOk, MarksOk;
    forall u: Tid, q | Holds(PcOf(s', u), q)
      ensures q in s'.pages
    {
      assert u != t ==> Holds(PcOf(s, u), q);
    }
  }

  lemma DetachedPages(s: State, t: Tid, p: PageId)
    requires Inv(s) && PcOf(s, t) == ShrinkCheck(p) && p in s.pages && Reclaimable(s.pages[p])
    ensures PagesOk(Detached(s, t, p)) && HashOk(Detached(s, t, p)) && RestOk(Detached(s, t, p))
  {
    ReclaimableIsClean(s, t, p);
    hide At, PairsOk, HeldExist, PcsOk;
    var s' := Detached(s, t, p);
    assert PageOk(s, p);
    assert MarksOk(s'.pages[p], p in s'.dirtyList);
    hide MarksOk;
    forall q | q in s'.pages
      ensures PageOk(s', q)
    {
      assert PageOk(s, q);
    }
    hide PageOk;
    forall i: Index | i !in s'.hash
      ensures At(s'.store, i) == At(s'.file, i)
    {
    }
  }

  lemma DetachedKeeps(s: State, t: Tid, p: PageId)
    requires Inv(s) && PcOf(s, t) == ShrinkCheck(p) && p in s.pages && Reclaimable(s.pages[p])
    ensures Inv(Detached(s, t, p))
  {
    DetachedPairs(s, t, p);
    DetachedPages(s, t, p);
    PcsKept(s, Detached(s, t, p), t, ShrinkDrop(p));
    hide PairsOk, PagesOk, PcsOk, HeldExist, HashOk, RestOk, At;
  }

  /** The last reference goes: no thread is left on the page. */
  lemma DestroyedUnheld(s: State, t: Tid, p: PageId)
    requires Inv(s) && p in s.pages && s.pages[p].refs == 1 && Puts(PcOf(s, t)) && PcOf(s, t).p == p
    ensures s.pages[p].holders == {t} && !s.pages[p].cached && !PcOf(s, t).ShrinkDrop? && p !in s.dirtyList
  {
    hide At, ContentsOk;
    var g := s.pages[p];
    assert PageOk(s, p);
    assert PairOk(PcOf(s, t), g, t, p);
    assert t in g.holders;
    assert |g.holders - {t}| == |g.holders| - 1;
  }

  lemma DestroyedPairs(s: State, t: Tid, p: PageId)
    requires Inv(s) && p in s.pages && s.pages[p].refs == 1 && Puts(PcOf(s, t)) && PcOf(s, t).p == p
    ensures PairsOk(Destroyed(s, t, p, AfterPut(PcOf(s, t)))) && HeldExist(Destroyed(s, t, p, AfterPut(PcOf(s, t))))
  {
    DestroyedUnheld(s, t, p);
    hide PagesOk, HashOk, RestOk, PcOk;
    var s' := Destroyed(s, t, p, AfterPut(PcOf(s, t)));
    forall u: Tid, q | q in s'.pages
      ensures PairOk(PcOf(s', u), s'.pages[q], u, q)
    {
      assert PairOk(PcOf(s, u), s.pages[q], u, q);
    }
    assert p !in Batch(PcOf(s, t)) by {
      assert PcOk(PcOf(s, t));
      PutBatch(PcOf(s, t));
    }
    forall u: Tid, q | Holds(PcOf(s', u), q)
      ensures q in s'.pages
    {
      assert Holds(PcOf(s, u), q);
      assert PairOk(PcOf(s, u), s.pages[p], u, p);
    }
  }

  lemma PutBatch(pc: Pc)
    requires PcOk(pc) && Puts(pc)
    ensures pc.p !in Batch(pc)
  {
  }

  lemma DestroyedKeeps(s: State, t: Tid, p: PageId)
    requires Inv(s) && p in s.pages && s.pages[p].refs == 1 && Puts(PcOf(s, t)) && PcOf(s, t).p == p
    ensures Inv(Destroyed(s, t, p, AfterPut(PcOf(s, t))))
  {
    DestroyedUnheld(s, t, p);
    DestroyedPairs(s, t, p);
    var s' := Destroyed(s, t, p, AfterPut(PcOf(s, t)));
    assert PcOk(AfterPut(PcOf(s, t)));
    PcsKept(s, s', t, AfterPut(PcOf(s, t)));
    hide PairsOk, HeldExist, PcsOk, At, MarksOk, ContentsOk;
    assert PageOk(s, p);
    forall q | q in s'.pages
      ensures PageOk(s', q)
    {
      assert PageOk(s, q);
    }
  }

  lemma ParkedPage(g: Page, t: Tid, store: Data, file: Data)
    requires MarksOk(g, true) && ContentsOk(g, store, file) && t !in g.holders
    ensures MarksOk(Referenced(g, t).(batchOf := Some(t)), false) &&
            ContentsOk(Referenced(g, t).(batchOf := Some(t)), store, file)
  {
  }

  lemma ParkedPages(s: State, t: Tid, batch: set<PageId>)
    requires Inv(s) && PcOf(s, t) == Idle && batch <= s.dirtyList
    ensures PagesOk(Parked(s, t, batch))
  {
    var s' := Parked(s, t, batch);
    hide PcOk, HashOk, RestOk, HeldExist, PcsOk, At;
    forall p | p in s'.pages
      ensures PageOk(s', p)
    {
      assert PageOk(s, p);
      assert PairOk(PcOf(s, t), s.pages[p], t, p);
      assert t !in s.pages[p].holders;
      hide MarksOk, ContentsOk, PairOk;
      if p in batch {
        ParkedPage(s.pages[p], t, At(s.store, s.pages[p].index), At(s.file, s.pages[p].index));
      }
    }
  }

  lemma ParkedPairs(s: State, t: Tid, batch: set<PageId>)
    requires Inv(s) && PcOf(s, t) == Idle && batch <= s.dirtyList
    ensures PairsOk(Parked(s, t, batch))
  {
    var s' := Parked(s, t, batch);
    hide PcOk, HashOk, RestOk, HeldExist, PcsOk, At, ContentsOk;
    forall u: Tid, p | p in s'.pages
      ensures PairOk(PcOf(s', u), s'.pages[p], u, p)
    {
      assert PairOk(PcOf(s, u), s.pages[p], u, p) && PageOk(s, p);
      hide PageOk;
    }
  }

  lemma ParkedRest(s: State, t: Tid, batch: set<PageId>)
    requires Inv(s) && batch <= s.dirtyList
    ensures HashOk(Parked(s, t, batch)) && RestOk(Parked(s, t, batch)) && HeldExist(Parked(s, t, batch))
  {
    hide PairsOk, PagesOk, At, PcsOk;
    var s' := Parked(s, t, batch);
    forall u: Tid, p | Holds(PcOf(s', u), p)
      ensures p in s'.pages
    {
      assert u != t ==> Holds(PcOf(s, u), p);
    }
    forall i | i in s'.hash
      ensures s'.hash[i] in s'.pages && s'.pages[s'.hash[i]].index == i
    {
      assert i in s.hash;
    }
  }

  lemma ParkedKeeps(s: State, t: Tid, batch: set<PageId>)
    requires Inv(s) && PcOf(s, t) == Idle && batch <= s.dirtyList
    ensures Inv(Parked(s, t, batch))
  {
    ParkedPages(s, t, batch);
    ParkedPairs(s, t, batch);
    ParkedRest(s, t, batch);
    PcsKept(s, Parked(s, t, batch), t, Flush(batch));
    hide PairsOk, PagesOk, PcsOk, HeldExist, HashOk, RestOk, At;
  }

  // Runs.

  /** A step on a page, for whatever reason that page was picked. */
  lemma TargetKeeps(s: State, t: Tid, c: Choice, p: PageId)
    requires Inv(s) && Enabled(s, t, c) && Target(s, t, c) == Some(p)
    ensures Inv(Apply(s, t, c))
  {
    hide At, PcOk, PagesOk, PairsOk, PcsOk, HeldExist, RestOk, Turn, Detached, Destroyed, WithView;
    var pc := PcOf(s, t);
    ViewIs(s, t, p);
    if pc.ShrinkCheck? && Reclaimable(s.pages[p]) {
      DetachedKeeps(s, t, p);
    } else if Puts(pc) && s.pages[p].refs == 1 {
      DestroyedKeeps(s, t, p);
    } else {
      assert pc.Find? || pc.Create? ==> s.pages[p].cached;
      TurnSound(ViewOf(s, t, p), t, p, c);
      hide Inv, Sound;
      SoundKeeps(s, t, p, Turn(ViewOf(s, t, p), t, p, c));
    }
  }

  /** Any step of any thread keeps the invariant. */
  lemma ApplyKeeps(s: State, t: Tid, c: Choice)
    requires Inv(s) && Enabled(s, t, c)
    ensures Inv(Apply(s, t, c))
  {
    var pc := PcOf(s, t);
    match Target(s, t, c)
    case Some(p) => TargetKeeps(s, t, c, p);
    case None =>
      hide Inv;
      match pc
      case Idle =>
        if c.work.Access? {
          MovedKeeps(s, t, Find(c.work.index, c.work.job));
        } else if c.work.FlushRange? {
          ParkedKeeps(s, t, Collected(s, c.work.first, c.work.last));
        }
      case Find(i, job) => MovedKeeps(s, t, Create(i, job));
      case Create(i, job) => InsertedKeeps(s, t, i, job, c.page);
      case _ => MovedKeeps(s, t, Idle);
  }

  /** The file before anything is cached. */
  function Start(disk: map<Index, Data>): State {
    State(map[], map[], {}, disk, disk, map[])
  }

  ghost predicate Runs(s: State, steps: seq<(Tid, Choice)>)
    decreases |steps|
  {
    |steps| > 0 ==> Enabled(s, steps[0].0, steps[0].1) && Runs(Apply(s, steps[0].0, steps[0].1), steps[1..])
  }

  ghost function Final(s: State, steps: seq<(Tid, Choice)>): State
    requires Runs(s, steps)
    decreases |steps|
  {
    if |steps| == 0 then s else Final(Apply(s, steps[0].0, steps[0].1), steps[1..])
  }

  lemma {:induction false} RunKeeps(s: State, steps: seq<(Tid, Choice)>)
    requires Inv(s) && Runs(s, steps)
    ensures Inv(Final(s, steps))
    decreases |steps|
  {
    hide Inv, Enabled, Apply;
    if |steps| > 0 {
      ApplyKeeps(s, steps[0].0, steps[0].1);
      RunKeeps(Apply(s, steps[0].0, steps[0].1), steps[1..]);
    }
  }

  ghost predicate Reachable(s: State) {
    exists disk, steps :: Runs(Start(disk), steps) && s == Final(Start(disk), steps)
  }

  lemma ReachableInv(s: State)
    requires Reachable(s)
    ensures Inv(s)
  {
    hide Inv, Enabled, Apply;
    var disk, steps :| Runs(Start(disk), steps) && s == Final(Start(disk), steps);
    StartInv(disk);
    RunKeeps(Start(disk), steps);
  }

  lemma StartInv(disk: map<Index, Data>)
    ensures Inv(Start(disk))
  {
    hide At, PairOk, PageOk;
  }

  /** No lost update: an up-to-date page equals its backing page, or is dirty, or a thread that holds it owes it. */
  lemma NoLostUpdate(s: State, p: PageId)
    requires Reachable(s) && p in s.pages && s.pages[p].cached && s.pages[p].uptodate
    ensures s.pages[p].data == At(s.store, s.pages[p].index) || s.pages[p].dirty ||
            exists t: Tid :: Holds(PcOf(s, t), p) && Owes(PcOf(s, t), p)
  {
    ReachableInv(s);
    var g := s.pages[p];
    assert PageOk(s, p);
    if g.debt != {} {
      var t :| t in g.debt;
      assert PairOk(PcOf(s, t), g, t, p);
      assert Holds(PcOf(s, t), p) && Owes(PcOf(s, t), p);
    }
  }

  /** The shrinker takes a page out of the cache only if nobody else has it and its contents are in the store. */
  lemma ShrinkerDropsClean(s: State, t: Tid, c: Choice, p: PageId)
    requires Reachable(s) && Enabled(s, t, c) && p in s.pages && s.pages[p].cached
    requires p !in Apply(s, t, c).pages || !Apply(s, t, c).pages[p].cached
    ensures PcOf(s, t) == ShrinkCheck(p) && s.pages[p].holders == {t}
    ensures s.pages[p].uptodate ==> s.pages[p].data == At(s.store, s.pages[p].index)
  {
    ReachableInv(s);
    CachedStays(s, t, c, p);
    hide Enabled, Apply;
    ReclaimableIsClean(s, t, p);
  }

  /** Only a successful shrinker test takes a page out of the hash. */
  lemma CachedStays(s: State, t: Tid, c: Choice, p: PageId)
    requires Inv(s) && Enabled(s, t, c) && p in s.pages && s.pages[p].cached
    ensures (p in Apply(s, t, c).pages && Apply(s, t, c).pages[p].cached) ||
            (PcOf(s, t) == ShrinkCheck(p) && Reclaimable(s.pages[p]))
  {
    assert PageOk(s, p);
    match Target(s, t, c)
    case None =>
      hide At, Zero, PcOk;
    case Some(q) =>
      ViewIs(s, t, q);
      var pc := PcOf(s, t);
      if pc.ShrinkCheck? && Reclaimable(s.pages[q]) {
      } else if Puts(pc) && s.pages[q].refs == 1 {
        LastIsUncached(s, t, q);
      } else {
        TurnSound(ViewOf(s, t, q), t, q, c);
        hide Turn, ViewOk, At, PcOk;
      }
  }

  lemma LastIsUncached(s: State, t: Tid, p: PageId)
    requires Inv(s) && p in s.pages && s.pages[p].refs == 1 && Puts(PcOf(s, t)) && PcOf(s, t).p == p
    ensures !s.pages[p].cached
  {
    assert PageOk(s, p);
    assert PairOk(PcOf(s, t), s.pages[p], t, p);
    assert t in s.pages[p].holders;
  }

  /** A reader that copies a page copies the file: every write copied in so far, in order. */
  lemma ReadsLatest(s: State, t: Tid, p: PageId)
    requires Reachable(s) && PcOf(s, t) == Copy(p, Read)
    ensures p in s.pages && s.pages[p].data == At(s.file, s.pages[p].index)
  {
    ReachableInv(s);
    Ready(s, t, p);
  }

  /** Every dirty page can be found again: it is on the mapping's list, or on the batch of exactly one flusher. */
  lemma DirtyIsListed(s: State, p: PageId)
    requires Reachable(s) && p in s.pages && s.pages[p].dirty
    ensures p in s.dirtyList <==> !exists t: Tid :: p in Batch(PcOf(s, t))
    ensures forall t: Tid, u: Tid :: p in Batch(PcOf(s, t)) && p in Batch(PcOf(s, u)) ==> t == u
  {
    ReachableInv(s);
    assert PageOk(s, p);
    assert s.pages[p].batchOf.Some? ==>
           PairOk(PcOf(s, s.pages[p].batchOf.value), s.pages[p], s.pages[p].batchOf.value, p);
    forall t: Tid
      ensures p in Batch(PcOf(s, t)) <==> s.pages[p].batchOf == Some(t)
    {
      assert PairOk(PcOf(s, t), s.pages[p], t, p);
    }
  }

  /** With no thread at work and nothing dirty, the store is the file. */
  lemma QuietIsStored(s: State, i: Index)
    requires Reachable(s) && (forall t: Tid :: PcOf(s, t) == Idle) && (forall p :: p in s.pages ==> !s.pages[p].dirty)
    ensures At(s.store, i) == At(s.file, i)
  {
    ReachableInv(s);
    if i in s.hash {
      var p := s.hash[i];
      assert PageOk(s, p);
      forall t: Tid
        ensures t !in s.pages[p].debt
      {
        assert PairOk(PcOf(s, t), s.pages[p], t, p);
      }
    }
  }
}
