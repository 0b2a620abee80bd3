/**
 page_cache_flush_range (src/mm/pagecache.c): what was on the dirty list when a flush began has been stored by the time
 it ends, or its write failed and it has been marked dirty again. What another flusher has taken is not waited for.
 */
module PageCacheFlush {
  import opened PageData
  import opened PageCacheSteps
  import opened PageCacheProof
  import opened PageCacheRun

  // What happens in a run.

  /** In some step of `t` the store comes to hold, at index `i`, the file. */
  ghost predicate EverStored(s: State, steps: seq<(Tid, Choice)>, t: Tid, i: Index)
    requires Runs(s, steps)
    decreases |steps|
  {
    && |steps| > 0
    && var s' := Apply(s, steps[0].0, steps[0].1);
    (steps[0].0 == t && At(s'.store, i) == At(s.file, i)) || EverStored(s', steps[1..], t, i)
  }

  /** In some step of `t` the page is marked dirty. */
  ghost predicate EverDirtied(s: State, steps: seq<(Tid, Choice)>, t: Tid, p: PageId)
    requires Runs(s, steps)
    decreases |steps|
  {
    && |steps| > 0
    && var s' := Apply(s, steps[0].0, steps[0].1);
    (steps[0].0 == t && p in s'.pages && s'.pages[p].dirty) || EverDirtied(s', steps[1..], t, p)
  }

  /** Some write of `t` to the store fails, and later `t` marks the page dirty. */
  ghost predicate EverFailed(s: State, steps: seq<(Tid, Choice)>, t: Tid, p: PageId)
    requires Runs(s, steps)
    decreases |steps|
  {
    && |steps| > 0
    && var s' := Apply(s, steps[0].0, steps[0].1);
    || (steps[0].0 == t && !steps[0].1.ok && EverDirtied(s', steps[1..], t, p))
    || EverFailed(s', steps[1..], t, p)
  }

  // A flusher and one of its pages.

  /** The page still has to be written. */
  predicate Due(pc: Pc, p: PageId) {
    p in Batch(pc) || ((pc.WbLock? || pc.WbWrite?) && pc.p == p)
  }

  /** The page's write has failed and it has not been marked dirty again. */
  predicate InError(pc: Pc, p: PageId) {
    ((pc.WbUnlock? && pc.err) || (pc.WbEnd? && pc.err) || pc.WbRedirty?) && pc.p == p
  }

  /** A flusher's step on page `q`. */
  lemma FlusherTurn(v: View, t: Tid, p: PageId, q: PageId, c: Choice)
    requires Due(v.pc, p) && PcOk(v.pc) && v.g.refs > 0 && (if v.pc.Flush? then q in v.pc.batch else v.pc.p == q)
    requires q == p && v.pc.Flush? ==> v.g.uptodate
    ensures var v' := Turn(v, t, q, c);
            || Due(v'.pc, p)
            || (v.pc.WbWrite? && q == p && v'.store == (if c.ok then v.g.data else c.garbage)
                && (!c.ok ==> InError(v'.pc, p)))
  {
    hide At, Zero, ReadIn, CopyIn;
  }

  lemma ErrorTurn(v: View, t: Tid, p: PageId, c: Choice)
    requires InError(v.pc, p) && PcOk(v.pc) && v.g.refs > 0
    ensures InError(Turn(v, t, p, c).pc, p) || Turn(v, t, p, c).g.dirty
  {
    hide ReadIn, CopyIn;
  }

  /** What the thread may rely on about a page it has to write. */
  lemma DueReady(s: State, t: Tid, p: PageId)
    requires Inv(s) && Due(PcOf(s, t), p)
    ensures p in s.pages && s.pages[p].uptodate && s.pages[p].data == At(s.file, s.pages[p].index)
  {
    hide At;
    assert Holds(PcOf(s, t), p);
    assert PairOk(PcOf(s, t), s.pages[p], t, p);
    assert PageOk(s, p);
  }

  lemma ErrorReady(s: State, t: Tid, p: PageId)
    requires Inv(s) && InError(PcOf(s, t), p)
    ensures p in s.pages
  {
    assert Holds(PcOf(s, t), p);
  }

  lemma StoreIs(m: map<Index, Data>, i: Index, d: Data)
    ensures At(Store(m, i, d), i) == d
  {
    hide Zero;
  }

  lemma StoreApplied(s: State, t: Tid, c: Choice)
    requires Enabled(s, t, c) && Turns(s, t, c)
    ensures var p := Target(s, t, c).value;
            var v' := Turn(ViewOf(s, t, p), t, p, c);
            Apply(s, t, c).store == Store(s.store, v'.g.index, v'.store)
  {
    hide Turn, ViewOf, Store;
  }

  lemma DueTarget(s: State, t: Tid, c: Choice, p: PageId)
    requires Enabled(s, t, c) && (Due(PcOf(s, t), p) || InError(PcOf(s, t), p))
    ensures Target(s, t, c).Some? && var pc, q := PcOf(s, t), Target(s, t, c).value;
            if pc.Flush? then q in pc.batch else pc.p == q
  {
  }

  lemma DueStep(s: State, t: Tid, c: Choice, p: PageId)
    requires Inv(s) && Enabled(s, t, c) && Due(PcOf(s, t), p)
    ensures var s' := Apply(s, t, c);
            && p in s.pages
            && (|| Due(PcOf(s', t), p)
                || (c.ok && At(s'.store, s.pages[p].index) == At(s.file, s.pages[p].index))
                || (!c.ok && InError(PcOf(s', t), p)))
  {
    DueReady(s, t, p);
    DueTarget(s, t, c, p);
    var q := Target(s, t, c).value;
    assert Turns(s, t, c);
    TurnApplied(s, t, c);
    StoreApplied(s, t, c);
    TargetSteps(s, t, c, q);
    var v := ViewOf(s, t, q);
    FlusherTurn(v, t, p, q, c);
    hide Turn, Apply, Inv, Turns, Enabled, Outcome, Asks, Store, AskOk;
    StoreIs(s.store, s.pages[q].index, Turn(v, t, q, c).store);
  }

  lemma ErrorStep(s: State, t: Tid, c: Choice, p: PageId)
    requires Inv(s) && Enabled(s, t, c) && InError(PcOf(s, t), p)
    ensures var s' := Apply(s, t, c);
            InError(PcOf(s', t), p) || (p in s'.pages && s'.pages[p].dirty)
  {
    ErrorReady(s, t, p);
    DueTarget(s, t, c, p);
    assert Turns(s, t, c);
    TurnApplied(s, t, c);
    ErrorTurn(ViewOf(s, t, p), t, p, c);
    hide Turn, Apply, Inv, Turns, Enabled, Store;
  }

  // Whole flushes.

  lemma {:induction false} ErrorRun(s: State, steps: seq<(Tid, Choice)>, t: Tid, p: PageId)
    requires Inv(s) && Runs(s, steps) && InError(PcOf(s, t), p)
    ensures InError(PcOf(Final(s, steps), t), p) || EverDirtied(s, steps, t, p)
    decreases |steps|
  {
    hide Inv, Enabled, Apply, InError;
    if |steps| > 0 {
      var u, c := steps[0].0, steps[0].1;
      var s' := Apply(s, u, c);
      ApplyKeeps(s, u, c);
      if u == t {
        ErrorStep(s, t, c, p);
      } else {
        OtherPc(s, u, c, t);
      }
      if InError(PcOf(s', t), p) {
        ErrorRun(s', steps[1..], t, p);
      }
    }
  }

  lemma {:induction false} DueRun(s: State, steps: seq<(Tid, Choice)>, t: Tid, p: PageId, i: Index)
    requires Inv(s) && Runs(s, steps) && Due(PcOf(s, t), p) && (p in s.pages ==> s.pages[p].index == i)
    ensures var pc := PcOf(Final(s, steps), t);
            Due(pc, p) || InError(pc, p) || EverStored(s, steps, t, i) || EverFailed(s, steps, t, p)
    decreases |steps|
  {
    hide Inv, Enabled, Apply, InError, Due, At;
    if |steps| > 0 {
      var u, c := steps[0].0, steps[0].1;
      var s' := Apply(s, u, c);
      ApplyKeeps(s, u, c);
      DueReady(s, t, p);
      if u == t {
        DueStep(s, t, c, p);
      } else {
        OtherPc(s, u, c, t);
      }
      if p in s'.pages {
        IndexKept(s, u, c, p);
      }
      if Due(PcOf(s', t), p) {
        DueRun(s', steps[1..], t, p, i);
      } else if InError(PcOf(s', t), p) {
        ErrorRun(s', steps[1..], t, p);
      }
    }
  }

  /** A flush begins with everything in its range that is on the dirty list. */
  lemma FlushBegins(s: State, t: Tid, c: Choice, p: PageId)
    requires Inv(s) && Enabled(s, t, c) && PcOf(s, t) == Idle && c.work.FlushRange?
    requires p in s.dirtyList && c.work.first <= s.pages[p].index <= c.work.last
    ensures Due(PcOf(Apply(s, t, c), t), p) && p in s.pages && p in Apply(s, t, c).pages
  {
    hide PagesOk, PairsOk, HashOk, RestOk, HeldExist;
  }

  /**
   From the start of a flush to its end: a page in the range that was on the dirty list has been stored, as the file
   was then, by the flusher; or one of the flusher's writes failed and it marked the page dirty again.
   */
  lemma FlushStores(s: State, t: Tid, c: Choice, steps: seq<(Tid, Choice)>, p: PageId)
    requires Reachable(s) && Enabled(s, t, c) && PcOf(s, t) == Idle && c.work.FlushRange?
    requires p in s.pages && p in s.dirtyList && c.work.first <= s.pages[p].index <= c.work.last
    requires Runs(Apply(s, t, c), steps) && PcOf(Final(Apply(s, t, c), steps), t) == Idle
    ensures EverStored(Apply(s, t, c), steps, t, s.pages[p].index) || EverFailed(Apply(s, t, c), steps, t, p)
    ensures (forall k :: 0 <= k < |steps| && steps[k].0 == t ==> steps[k].1.ok) ==>
              EverStored(Apply(s, t, c), steps, t, s.pages[p].index)
  {
    ReachableInv(s);
    FlushBegins(s, t, c, p);
    ApplyKeeps(s, t, c);
    IndexKept(s, t, c, p);
    hide Inv, Apply, Enabled, At;
    DueRun(Apply(s, t, c), steps, t, p, s.pages[p].index);
    if forall k :: 0 <= k < |steps| && steps[k].0 == t ==> steps[k].1.ok {
      NoFailure(Apply(s, t, c), steps, t, p);
    }
  }

  lemma {:induction false} NoFailure(s: State, steps: seq<(Tid, Choice)>, t: Tid, p: PageId)
    requires Runs(s, steps) && forall k :: 0 <= k < |steps| && steps[k].0 == t ==> steps[k].1.ok
    ensures !EverFailed(s, steps, t, p)
    decreases |steps|
  {
    hide Enabled, Apply, EverDirtied;
    if |steps| > 0 {
      NoFailure(Apply(s, steps[0].0, steps[0].1), steps[1..], t, p);
    }
  }

  // A dirty page is not forgotten.

  /** In some step of any thread the store comes to hold, at index `i`, the file. */
  ghost predicate EverStoredByAny(s: State, steps: seq<(Tid, Choice)>, i: Index)
    requires Runs(s, steps)
    decreases |steps|
  {
    && |steps| > 0
    && var s' := Apply(s, steps[0].0, steps[0].1);
    At(s'.store, i) == At(s.file, i) || EverStoredByAny(s', steps[1..], i)
  }

  ghost predicate Unsettled(g: Page) {
    g.cached && (g.dirty || g.debt != {})
  }

  lemma ReadInUnsettled(v: View, t: Tid, ok: bool)
    requires InReadIn(v.pc) && Unsettled(v.g)
    ensures Unsettled(ReadIn(v, t, ok).g)
  {
  }

  lemma CopyInUnsettled(v: View, t: Tid)
    requires InCopyIn(v.pc) && Unsettled(v.g) && PcOk(v.pc)
    ensures Unsettled(CopyIn(v, t).g)
  {
    hide Splice;
    assert v.pc.Copy? && !v.pc.job.Read? ==> t in CopyIn(v, t).g.debt;
  }

  lemma WriteBackUnsettled(v: View, t: Tid, p: PageId, ok: bool, garbage: Data)
    requires InWriteBack(v.pc) && Unsettled(v.g) && (v.pc.Flush? ==> v.g.uptodate)
    ensures var v' := WriteBack(v, t, p, ok, garbage);
            Unsettled(v'.g) || (v.pc.WbWrite? && v'.store == v.g.data)
  {
    assert v.pc.Flush? ==> t in WriteBack(v, t, p, ok, garbage).g.debt;
  }

  lemma RefsUnsettled(v: View, t: Tid, p: PageId)
    requires v.g.refs > 0 && Unsettled(v.g)
    ensures Unsettled(Refs(v, t, p).g)
  {
  }

  lemma TurnUnsettled(v: View, t: Tid, p: PageId, c: Choice)
    requires PcOk(v.pc) && v.g.refs > 0 && Unsettled(v.g) && (v.pc.Flush? ==> v.g.uptodate)
    ensures var v' := Turn(v, t, p, c);
            Unsettled(v'.g) || (v.pc.WbWrite? && v'.store == v.g.data)
  {
    hide Unsettled, ReadIn, CopyIn, WriteBack, Refs, PcOk;
    if InReadIn(v.pc) {
      ReadInUnsettled(v, t, c.ok);
    } else if InCopyIn(v.pc) {
      CopyInUnsettled(v, t);
    } else if InWriteBack(v.pc) {
      WriteBackUnsettled(v, t, p, c.ok, c.garbage);
    } else {
      RefsUnsettled(v, t, p);
    }
  }

  /** A step on another page, or on none, or that takes a page away. */
  lemma ElsewhereUnsettled(s: State, t: Tid, c: Choice, p: PageId)
    requires Inv(s) && Enabled(s, t, c) && p in s.pages && Unsettled(s.pages[p])
    requires !Turns(s, t, c) || Target(s, t, c).value != p
    ensures p in Apply(s, t, c).pages && Unsettled(Apply(s, t, c).pages[p])
  {
    CachedStays(s, t, c, p);
    if PcOf(s, t) == ShrinkCheck(p) && Reclaimable(s.pages[p]) {
      ReclaimableIsClean(s, t, p);
    }
    hide Turn, ViewOf, Store, Inv, Reclaimable;
  }

  lemma UnsettledStep(s: State, t: Tid, c: Choice, p: PageId)
    requires Inv(s) && Enabled(s, t, c) && p in s.pages && Unsettled(s.pages[p])
    ensures var s' := Apply(s, t, c);
            || (p in s'.pages && Unsettled(s'.pages[p]))
            || At(s'.store, s.pages[p].index) == At(s.file, s.pages[p].index)
  {
    if Turns(s, t, c) && Target(s, t, c).value == p {
      var v := ViewOf(s, t, p);
      if v.pc.Flush? || v.pc.WbWrite? {
        DueReady(s, t, p);
      }
      TurnApplied(s, t, c);
      StoreApplied(s, t, c);
      TargetSteps(s, t, c, p);
      TurnUnsettled(v, t, p, c);
      hide Turn, Apply, Inv, Turns, Enabled, Outcome, Asks, Store, AskOk, Unsettled;
      StoreIs(s.store, s.pages[p].index, Turn(v, t, p, c).store);
    } else {
      ElsewhereUnsettled(s, t, c, p);
    }
  }

  lemma {:induction false} UnsettledRun(s: State, steps: seq<(Tid, Choice)>, p: PageId, i: Index)
    requires Inv(s) && Runs(s, steps) && p in s.pages && Unsettled(s.pages[p]) && s.pages[p].index == i
    ensures EverStoredByAny(s, steps, i) || (p in Final(s, steps).pages && Unsettled(Final(s, steps).pages[p]))
    decreases |steps|
  {
    hide Inv, Enabled, Apply, Unsettled, At;
    if |steps| > 0 {
      var t, c := steps[0].0, steps[0].1;
      var s' := Apply(s, t, c);
      ApplyKeeps(s, t, c);
      UnsettledStep(s, t, c, p);
      if p in s'.pages && Unsettled(s'.pages[p]) {
        IndexKept(s, t, c, p);
        UnsettledRun(s', steps[1..], p, i);
      }
    }
  }

  /** Until a dirty page is stored it stays in the cache, dirty or owed by a thread at work on it. */
  lemma DirtyUntilStored(s: State, steps: seq<(Tid, Choice)>, p: PageId)
    requires Reachable(s) && Runs(s, steps) && p in s.pages && s.pages[p].dirty
    ensures var s' := Final(s, steps);
            || EverStoredByAny(s, steps, s.pages[p].index)
            || (&& p in s'.pages && s'.pages[p].cached
                && (s'.pages[p].dirty || exists t: Tid :: Holds(PcOf(s', t), p) && Owes(PcOf(s', t), p)))
  {
    ReachableInv(s);
    assert PageOk(s, p);
    UnsettledRun(s, steps, p, s.pages[p].index);
    RunKeeps(s, steps);
    var s' := Final(s, steps);
    hide Runs, Final, Apply, Enabled, At;
    if p in s'.pages && Unsettled(s'.pages[p]) && !s'.pages[p].dirty {
      Owed(s', p);
    }
  }

  lemma Owed(s: State, p: PageId)
    requires Inv(s) && p in s.pages && s.pages[p].debt != {}
    ensures exists t: Tid :: Holds(PcOf(s, t), p) && Owes(PcOf(s, t), p)
  {
    var t :| t in s.pages[p].debt;
    assert PairOk(PcOf(s, t), s.pages[p], t, p);
    assert Holds(PcOf(s, t), p) && Owes(PcOf(s, t), p);
  }

  // What another flusher has taken is not waited for.

  lemma NoneCollected(s: State, u: Tid, p: PageId)
    requires Inv(s) && p in Batch(PcOf(s, u))
    ensures p in s.pages && s.pages[p].dirty && s.pages[p].refs > 0 && p !in s.dirtyList
    ensures Collected(s, s.pages[p].index, s.pages[p].index) == {}
  {
    assert Holds(PcOf(s, u), p);
    assert PairOk(PcOf(s, u), s.pages[p], u, p);
    assert PageOk(s, p);
    var i := s.pages[p].index;
    forall q | q in s.dirtyList && s.pages[q].index == i
      ensures q == p
    {
      assert PageOk(s, q);
    }
  }

  /** A flush that finds nothing on the dirty list. */
  lemma EmptyFlush(s: State, t: Tid, c: Choice)
    requires Enabled(s, t, c) && PcOf(s, t) == Idle && c.work.FlushRange?
    requires Collected(s, c.work.first, c.work.last) == {}
    ensures var s' := Apply(s, t, c);
            && s'.pages == s.pages && s'.store == s.store && s'.file == s.file
            && s'.threads == s.threads[t := Flush({})]
  {
    hide Collected;
    assert Parked(s, t, {}).pages == s.pages;
  }

  /** A flusher takes the dirty mark of a page of its batch. */
  lemma TakesMark(s: State, u: Tid, c: Choice, p: PageId)
    requires Enabled(s, u, c) && PcOf(s, u).Flush? && p in PcOf(s, u).batch && c.page == p
    ensures var s' := Apply(s, u, c);
            p in s'.pages && !s'.pages[p].dirty && s'.store == s.store && s'.file == s.file
  {
    hide At, PcOk;
  }

  lemma EndsFlush(s: State, t: Tid, c: Choice)
    requires Enabled(s, t, c) && PcOf(s, t) == Flush({})
    ensures Apply(s, t, c) == s.(threads := s.threads[t := Idle])
  {
  }

  lemma ThreeSteps(s: State, a: (Tid, Choice), b: (Tid, Choice), c: (Tid, Choice))
    requires Enabled(s, a.0, a.1) && var s1 := Apply(s, a.0, a.1);
             Enabled(s1, b.0, b.1) && Enabled(Apply(s1, b.0, b.1), c.0, c.1)
    ensures Runs(s, [a, b, c])
    ensures var s1 := Apply(s, a.0, a.1);
            Final(s, [a, b, c]) == Apply(Apply(s1, b.0, b.1), c.0, c.1)
  {
    hide Enabled, Apply;
    var s1 := Apply(s, a.0, a.1);
    var s2 := Apply(s1, b.0, b.1);
    var s3 := Apply(s2, c.0, c.1);
    assert [a, b, c][1..] == [b, c] && [b, c][1..] == [c] && [c][1..] == [];
    assert Runs(s3, []) && Final(s3, []) == s3;
    assert Runs(s2, [c]) && Final(s2, [c]) == s3;
    assert Runs(s1, [b, c]) && Final(s1, [b, c]) == s3;
  }

  /**
   A page on the batch of another flusher that is about to begin it: a flush of exactly that page can begin and end
   with the page dirty at its start, not dirty at its end, and nothing stored in between.
   */
  lemma FlushMisses(s: State, t: Tid, u: Tid, p: PageId, c: Choice) returns (steps: seq<(Tid, Choice)>)
    requires Reachable(s) && PcOf(s, t) == Idle && PcOf(s, u).Flush? && p in PcOf(s, u).batch
    ensures p in s.pages && s.pages[p].dirty && p !in s.dirtyList
    ensures |steps| == 3 && steps[0].0 == t && steps[0].1.work == FlushRange(s.pages[p].index, s.pages[p].index)
    ensures steps[1].0 == u && steps[2].0 == t && Runs(s, steps)
    ensures var s' := Final(s, steps);
            && PcOf(s', t) == Idle && p in s'.pages && !s'.pages[p].dirty
            && s'.store == s.store && s'.file == s.file
  {
    ReachableInv(s);
    NoneCollected(s, u, p);
    assert PcOk(PcOf(s, u));
    hide *;
    var i := s.pages[p].index;
    var a, b := c.(work := FlushRange(i, i)), c.(page := p);
    MayFlush(s, t, a);
    EmptyFlush(s, t, a);
    var s1 := Apply(s, t, a);
    PcStays(s, s1, t, u, Flush({}));
    MayTake(s1, u, b, p);
    TakesMark(s1, u, b, p);
    OtherPc(s1, u, b, t);
    var s2 := Apply(s1, u, b);
    MayEnd(s2, t, c);
    EndsFlush(s2, t, c);
    PcStays(s2, Apply(s2, t, c), t, u, Idle);
    steps := [(t, a), (u, b), (t, c)];
    ThreeSteps(s, (t, a), (u, b), (t, c));
  }

  lemma MayFlush(s: State, t: Tid, c: Choice)
    requires PcOf(s, t) == Idle && c.work.FlushRange?
    ensures Enabled(s, t, c)
  {
  }

  lemma MayTake(s: State, u: Tid, c: Choice, p: PageId)
    requires PcOf(s, u).Flush? && p in PcOf(s, u).batch && PcOk(PcOf(s, u)) && c.page == p
    requires p in s.pages && s.pages[p].refs > 0
    ensures Enabled(s, u, c)
  {
  }

  lemma MayEnd(s: State, t: Tid, c: Choice)
    requires PcOf(s, t) == Flush({})
    ensures Enabled(s, t, c)
  {
  }

  lemma PcStays(s: State, s': State, t: Tid, u: Tid, pc: Pc)
    requires s'.threads == s.threads[t := pc]
    ensures PcOf(s', t) == pc && (u != t ==> PcOf(s', u) == PcOf(s, u))
  {
  }

  // Such a state is reached when one thread has written a page and another has begun to flush it.

  /** How far a thread's first write of page 0 has come. */
  datatype Stage = Stage(pc: Pc, filled: bool, uptodate: bool, dirty: bool, locked: bool, owed: bool)

  function PageAt(d: Data, g: Stage): Page {
    Page(0, if g.filled then d else Zero(), g.uptodate, g.dirty, false, 2, true, g.filled, {0},
         if g.locked then Some(0) else None, if g.owed then {0} else {}, None, None)
  }

  function Written(d: Data, g: Stage): State {
    State(map[7 := PageAt(d, g)], map[0 := 7], if g.dirty then {7} else {}, map[],
          if g.filled then map[0 := d] else map[], map[0 := g.pc])
  }

  function Pick(work: Work): Choice {
    Choice(work, 7, true, Zero())
  }

  /** The stages from the page found to the page dirty. */
  function Stages(d: Data): seq<Stage> {
    var job := WriteFull(d);
    [Stage(Use(7, job), false, false, false, false, false), Stage(Copy(7, job), false, false, false, true, false),
     Stage(CopyMark(7), true, false, false, true, true), Stage(CopyUnlock(7, true), true, true, false, true, true),
     Stage(MarkDirty(7), true, true, false, false, true), Stage(Put(7), true, true, true, false, false)]
  }

  function ViewAt(d: Data, g: Stage): View {
    View(g.pc, PageAt(d, g), g.dirty, Zero(), if g.filled then d else Zero())
  }

  lemma StageCopies(d: Data, k: nat)
    requires k < 5
    ensures var g := Stages(d)[k];
            && InCopyIn(g.pc) && On(g.pc, 7) && PcOk(g.pc) && (g.pc.Use? ==> !g.locked) && !Puts(g.pc)
            && CopyIn(ViewAt(d, g), 0) == ViewAt(d, Stages(d)[k + 1])
  {
    hide Splice, Zero;
  }

  lemma StageView(d: Data, g: Stage)
    requires On(g.pc, 7)
    ensures PcOf(Written(d, g), 0) == g.pc && 7 in Written(d, g).pages && ViewOf(Written(d, g), 0, 7) == ViewAt(d, g)
  {
    hide Zero, PageAt;
    assert PageAt(d, g).index == 0 by { PageAtZero(d, g); }
  }

  lemma PageAtZero(d: Data, g: Stage)
    ensures PageAt(d, g).index == 0 && PageAt(d, g).refs == 2
    ensures PageAt(d, g).owner == if g.locked then Some(0) else None
  {
    hide Zero;
  }

  lemma StageStep(d: Data, k: nat, c: Choice)
    requires k < 5 && d != Zero()
    ensures var s := Written(d, Stages(d)[k]);
            Enabled(s, 0, c) && Apply(s, 0, c) == Written(d, Stages(d)[k + 1])
  {
    var g, g' := Stages(d)[k], Stages(d)[k + 1];
    StageCopies(d, k);
    StageView(d, g);
    PageAtZero(d, g);
    PageAtZero(d, g');
    hide Stages, PageAt, CopyIn, Zero, ViewOf, PcOf;
    var s := Written(d, g);
    assert Enabled(s, 0, c);
    assert Apply(s, 0, c) == WithView(s, 0, 7, ViewAt(d, g')) by {
      hide WithView, Written, ViewAt, On;
    }
    StageWith(d, g, g');
  }

  lemma StageWith(d: Data, g: Stage, g': Stage)
    requires (g.filled ==> g'.filled) && d != Zero()
    ensures WithView(Written(d, g), 0, 7, ViewAt(d, g')) == Written(d, g')
  {
    PageAtZero(d, g');
    hide PageAt, Zero;
    var s, s' := WithView(Written(d, g), 0, 7, ViewAt(d, g')), Written(d, g');
    assert s.dirtyList == s'.dirtyList && s.pages == s'.pages && s.threads == s'.threads && s.file == s'.file;
  }

  lemma WriteBegins(d: Data)
    ensures var s := Start(map[]);
            var c := Pick(Access(0, WriteFull(d)));
            && Enabled(s, 0, c) && Enabled(Apply(s, 0, c), 0, c)
            && var s2 := Apply(Apply(s, 0, c), 0, c);
            Enabled(s2, 0, c) && Apply(s2, 0, c) == Written(d, Stages(d)[0])
  {
    hide Turn, At, Store, Splice, Zero;
    var c := Pick(Access(0, WriteFull(d)));
    var s1 := Apply(Start(map[]), 0, c);
    assert s1.threads == map[0 := Find(0, WriteFull(d))];
    var s2 := Apply(s1, 0, c);
    assert s2.threads == map[0 := Create(0, WriteFull(d))];
    assert Apply(s2, 0, c).threads == map[0 := Use(7, WriteFull(d))];
  }

  lemma {:induction false} RunsMore(s: State, steps: seq<(Tid, Choice)>, t: Tid, c: Choice)
    requires Runs(s, steps) && Enabled(Final(s, steps), t, c)
    ensures Runs(s, steps + [(t, c)]) && Final(s, steps + [(t, c)]) == Apply(Final(s, steps), t, c)
    decreases |steps|
  {
    hide Enabled, Apply;
    if |steps| == 0 {
      assert steps + [(t, c)] == [(t, c)];
      assert [(t, c)][1..] == [];
      assert Runs(Apply(s, t, c), []) && Final(Apply(s, t, c), []) == Apply(s, t, c);
    } else {
      RunsMore(Apply(s, steps[0].0, steps[0].1), steps[1..], t, c);
      assert (steps + [(t, c)])[1..] == steps[1..] + [(t, c)];
    }
  }

  lemma ReachableStep(s: State, t: Tid, c: Choice)
    requires Reachable(s) && Enabled(s, t, c)
    ensures Reachable(Apply(s, t, c))
  {
    hide Enabled, Apply;
    var disk, steps :| Runs(Start(disk), steps) && s == Final(Start(disk), steps);
    RunsMore(Start(disk), steps, t, c);
    assert Runs(Start(disk), steps + [(t, c)]);
  }

  lemma {:induction false} StageReached(d: Data, k: nat)
    requires k <= 5 && d != Zero()
    ensures Reachable(Written(d, Stages(d)[k]))
  {
    var c := Pick(Access(0, WriteFull(d)));
    if k == 0 {
      WriteBegins(d);
      var s := Start(map[]);
      assert Reachable(s) by { assert Runs(s, []) && Final(s, []) == s; }
      hide *;
      ReachableStep(s, 0, c);
      ReachableStep(Apply(s, 0, c), 0, c);
      ReachableStep(Apply(Apply(s, 0, c), 0, c), 0, c);
    } else {
      StageReached(d, k - 1);
      StageStep(d, k - 1, c);
      hide *;
      ReachableStep(Written(d, Stages(d)[k - 1]), 0, c);
    }
  }

  /** Page 0 is dirty, holds what the store does not, and is on the batch of thread 1. */
  lemma MissHappens(d: Data) returns (s: State)
    requires d != Zero()
    ensures Reachable(s) && PcOf(s, 2) == Idle && PcOf(s, 1) == Flush({7})
    ensures 7 in s.pages && s.pages[7].index == 0 && At(s.file, 0) == d != At(s.store, 0)
  {
    StageReached(d, 5);
    var w, c := Written(d, Stages(d)[5]), Pick(FlushRange(0, 0));
    MayFlush(w, 1, c);
    ReachableStep(w, 1, c);
    s := Apply(w, 1, c);
    hide Reachable, Zero;
    assert Collected(w, 0, 0) == {7};
  }
}
