/**
 The page cache of one file under concurrent readers, writers, flushers and the shrinker (src/mm/pagecache.c).
 Every section of code under a spin lock, and every action on a page under its sleeping io_lock, is one step;
 the steps of any number of threads interleave freely.
 */
module PageCacheSteps {
  import opened PageData

  type Tid = nat
  type PageId = nat

  datatype Option<T> = None | Some(value: T)

  /** What a caller does with the page once it has it: generic_file_read, and the two branches of generic_file_write. */
  datatype Job = Read | Write(off: nat, bytes: seq<int>) | WriteFull(data: Data)

  predicate JobOk(job: Job) {
    job.Write? ==> job.off + |job.bytes| <= PAGE_SIZE
  }

  /**
   A struct cached_page; `cached` says that it is in the hash. The fields from `filled` on are history: the contents
   are the file's, the threads that hold a reference, the owner of io_lock, the threads that changed the page or took
   its dirty mark and have not settled it yet, the flusher whose batch the page is parked on, and the shrinker that
   has taken the page out of the hash and not yet dropped the cache's own reference.
   */
  datatype Page = Page(index: Index, data: Data, uptodate: bool, dirty: bool, writeback: bool, refs: nat,
                       cached: bool,
                       filled: bool, holders: set<Tid>, owner: Option<Tid>, debt: set<Tid>, batchOf: Option<Tid>,
                           dropper: Option<Tid>)

  /** Where a thread is. */
  datatype Pc =
    | Idle
    // find_or_create_page
    | Find(index: Index, job: Job) | Create(index: Index, job: Job)
    // read_mapping_page
    | Check(p: PageId, job: Job) | Lock(p: PageId, job: Job) | ReCheck(p: PageId, job: Job)
    | Fill(p: PageId, job: Job) | FillMark(p: PageId, job: Job) | FillUnlock(p: PageId, job: Job, ok: bool)
    // the copy in generic_file_read and generic_file_write
    | Use(p: PageId, job: Job) | Copy(p: PageId, job: Job) | CopyMark(p: PageId) | CopyUnlock(p: PageId, wrote: bool)
    | MarkDirty(p: PageId) | Put(p: PageId)
    // page_cache_flush_range and writeback_one
    | Flush(batch: set<PageId>) | WbLock(p: PageId, batch: set<PageId>) | WbWrite(p: PageId, batch: set<PageId>)
    | WbUnlock(p: PageId, batch: set<PageId>, err: bool) | WbEnd(p: PageId, batch: set<PageId>, err: bool)
    | WbRedirty(p: PageId, batch: set<PageId>) | WbPut(p: PageId, batch: set<PageId>)
    // page_cache_shrink
    | ShrinkCheck(p: PageId) | ShrinkDrop(p: PageId) | ShrinkPut(p: PageId)

  /** `store` is the backing file, `file` what the file should hold: every write that has been copied in, in order. */
  datatype State = State(pages: map<PageId, Page>, hash: map<Index, PageId>, dirtyList: set<PageId>,
                         store: map<Index, Data>, file: map<Index, Data>, threads: map<Tid, Pc>)

  function PcOf(s: State, t: Tid): Pc {
    if t in s.threads then s.threads[t] else Idle
  }

  // What a program counter says about one page.

  predicate On(pc: Pc, p: PageId) {
    !pc.Idle? && !pc.Find? && !pc.Create? && !pc.Flush? && pc.p == p
  }

  function Batch(pc: Pc): set<PageId> {
    if pc.Flush? || pc.WbLock? || pc.WbWrite? || pc.WbUnlock? || pc.WbEnd? || pc.WbRedirty? || pc.WbPut? then pc.batch
       else {}
  }

  predicate Holds(pc: Pc, p: PageId) {
    On(pc, p) || p in Batch(pc)
  }

  /** Inside the page's io_lock. */
  predicate Section(pc: Pc, p: PageId) {
    On(pc, p) &&
        (pc.ReCheck? || pc.Fill? || pc.FillMark? || pc.FillUnlock? || pc.Copy? || pc.CopyMark? || pc.CopyUnlock? ||
            pc.WbWrite? || pc.WbUnlock?)
  }

  /** A writer that has copied and not marked, or a flusher that took the dirty mark and has not written. */
  predicate Owes(pc: Pc, p: PageId) {
    On(pc, p) && (pc.CopyMark? || (pc.CopyUnlock? && pc.wrote) || pc.MarkDirty? || pc.WbLock? || pc.WbWrite?
                  || (pc.WbUnlock? && pc.err) || (pc.WbEnd? && pc.err) || pc.WbRedirty?)
  }

  predicate NeedsUptodate(pc: Pc, p: PageId) {
    On(pc, p) &&
        (((pc.Use? || pc.Copy?) && !pc.job.WriteFull?) || (pc.FillUnlock? && pc.ok) || pc.CopyUnlock? || pc.MarkDirty?
                  || pc.WbLock? || pc.WbWrite? || pc.WbUnlock? || pc.WbEnd? || pc.WbRedirty?)
  }

  predicate NeedsFilled(pc: Pc, p: PageId) {
    On(pc, p) && (pc.FillMark? || pc.CopyMark?)
  }

  predicate NeedsCached(pc: Pc, p: PageId) {
    Holds(pc, p) && !pc.ShrinkCheck? && !pc.ShrinkDrop? && !pc.ShrinkPut?
  }

  predicate PcOk(pc: Pc) {
    && ((pc.Find? || pc.Create? || pc.Check? || pc.Lock? || pc.ReCheck? || pc.Fill? || pc.FillMark? || pc.FillUnlock? ||
       pc.Use? || pc.Copy?) ==> JobOk(pc.job))
    && ((pc.Check? || pc.Lock? || pc.ReCheck? || pc.Fill? || pc.FillMark? || pc.FillUnlock?) ==> !pc.job.WriteFull?)
    && ((pc.WbLock? || pc.WbWrite? || pc.WbUnlock? || pc.WbEnd? || pc.WbRedirty? || pc.WbPut?) ==> pc.p !in pc.batch)
  }

  // The invariant.

  /** One thread and one page agree. */
  ghost predicate PairOk(pc: Pc, g: Page, t: Tid, p: PageId) {
    && (t in g.holders <==> Holds(pc, p))
    && (g.owner == Some(t) <==> Section(pc, p))
    && (t in g.debt <==> Owes(pc, p))
    && (g.batchOf == Some(t) <==> p in Batch(pc))
    && (NeedsUptodate(pc, p) ==> g.uptodate)
    && (NeedsFilled(pc, p) ==> g.filled)
    && (On(pc, p) && pc.Fill? ==> !g.filled)
    && (g.owner == Some(t) && g.filled && !g.uptodate ==> NeedsFilled(pc, p))
    && (NeedsCached(pc, p) ==> g.cached)
    && (g.dropper == Some(t) <==> On(pc, p) && pc.ShrinkDrop?)
  }

  /** The counts and marks of one page. */
  ghost predicate MarksOk(g: Page, linked: bool) {
    && g.refs == |g.holders| + (if g.cached || g.dropper.Some? then 1 else 0) && !(g.cached && g.dropper.Some?)
    && (g.dirty ==> g.uptodate && g.cached) && (g.uptodate ==> g.filled) && (g.filled && !g.uptodate ==> g.owner.Some?)
    && (g.dirty <==> linked || g.batchOf.Some?) && !(linked && g.batchOf.Some?)
  }

  /** A page with contents holds the file's; and it equals the store, or is dirty, or a thread still owes it. */
  ghost predicate ContentsOk(g: Page, store: Data, file: Data) {
    && (g.cached && g.filled ==> g.data == file && (g.data == store || g.dirty || g.debt != {}))
    && (g.cached && !g.filled ==> store == file)
  }

  ghost predicate PageOk(s: State, p: PageId)
    requires p in s.pages
  {
    var g := s.pages[p];
    && MarksOk(g, p in s.dirtyList)
    && ContentsOk(g, At(s.store, g.index), At(s.file, g.index))
    && (g.cached <==> g.index in s.hash && s.hash[g.index] == p)
  }

  ghost predicate PagesOk(s: State) {
    forall p :: p in s.pages ==> PageOk(s, p)
  }

  ghost predicate PairsOk(s: State) {
    forall t: Tid, p :: p in s.pages ==> PairOk(PcOf(s, t), s.pages[p], t, p)
  }

  ghost predicate PcsOk(s: State) {
    forall t: Tid :: PcOk(PcOf(s, t))
  }

  ghost predicate HeldExist(s: State) {
    forall t: Tid, p :: Holds(PcOf(s, t), p) ==> p in s.pages
  }

  ghost predicate HashOk(s: State) {
    forall i :: i in s.hash ==> s.hash[i] in s.pages && s.pages[s.hash[i]].index == i
  }

  /** What is not cached is in the store. */
  ghost predicate RestOk(s: State) {
    forall i: Index :: i !in s.hash ==> At(s.store, i) == At(s.file, i)
  }

  ghost predicate Inv(s: State) {
    PagesOk(s) && PairsOk(s) && PcsOk(s) && HeldExist(s) && HashOk(s) && RestOk(s) && s.dirtyList <= s.pages.Keys
  }

  // The steps. All but four work on one page: they see the page, whether it is on the dirty list, its part of
  // the store and its part of the file, and take one thread from one program counter to the next.

  datatype Work = Access(index: Index, job: Job) | FlushRange(first: Index, last: Index) | Reclaim

  /** What the environment decides: the work to start, the outcome of I/O, the name of a new page, the page to pick. */
  datatype Choice = Choice(work: Work, page: PageId, ok: bool, garbage: Data)

  datatype View = View(pc: Pc, g: Page, linked: bool, store: Data, file: Data)

  function Referenced(g: Page, t: Tid): Page {
    g.(refs := g.refs + 1, holders := g.holders + {t})
  }

  function Found(p: PageId, job: Job): Pc {
    if job.WriteFull? then Use(p, job) else Check(p, job)
  }

  /** cached_page_mark_dirty: the page is linked only if it was not marked already. */
  function Dirtied(v: View, t: Tid, pc: Pc): View {
    v.(pc := pc, g := v.g.(dirty := true, debt := v.g.debt - {t}), linked := v.linked || !v.g.dirty)
  }

  /** cached_page_put that does not drop the last reference. */
  function Released(v: View, t: Tid, pc: Pc): View
    requires v.g.refs > 0
  {
    v.(pc := pc, g := v.g.(refs := v.g.refs - 1, holders := v.g.holders - {t}))
  }

  function Locked(v: View, t: Tid, pc: Pc): View {
    v.(pc := pc, g := v.g.(owner := Some(t)))
  }

  function Unlocked(v: View, pc: Pc): View {
    v.(pc := pc, g := v.g.(owner := None))
  }

  /** The steps of read_mapping_page on a page that has been found. */
  function ReadIn(v: View, t: Tid, ok: bool): View {
    match v.pc
    case Check(p, job) => v.(pc := if v.g.uptodate then Use(p, job) else Lock(p, job))
    case Lock(p, job) => Locked(v, t, ReCheck(p, job))
    case ReCheck(p, job) => v.(pc := if v.g.uptodate then FillUnlock(p, job, true) else Fill(p, job))
    case Fill(p, job) => if ok then v.(pc := FillMark(p, job), g := v.g.(data := v.store, filled := true))
        else v.(pc := FillUnlock(p, job, false))
    case FillMark(p, job) => v.(pc := FillUnlock(p, job, true), g := v.g.(uptodate := true))
    case FillUnlock(p, job, good) => Unlocked(v, if good then Use(p, job) else Put(p))
    case _ => v
  }

  /** The copy of generic_file_read and generic_file_write, and the marks after it. */
  function CopyIn(v: View, t: Tid): View
    requires PcOk(v.pc)
  {
    match v.pc
    case Use(p, job) => Locked(v, t, Copy(p, job))
    case Copy(p, Read) => v.(pc := CopyUnlock(p, false))
    case Copy(p, Write(off, bytes)) =>
      v.(pc := CopyUnlock(p, true), g := v.g.(data := Splice(v.g.data, off, bytes), debt := v.g.debt + {t}),
         file := Splice(v.file, off, bytes))
    case Copy(p, WriteFull(data)) =>
      v.(pc := CopyMark(p), g := v.g.(data := data, filled := true, debt := v.g.debt + {t}), file := data)
    case CopyMark(p) => v.(pc := CopyUnlock(p, true), g := v.g.(uptodate := true))
    case CopyUnlock(p, wrote) => Unlocked(v, if wrote then MarkDirty(p) else Put(p))
    case MarkDirty(p) => Dirtied(v, t, Put(p))
    case _ => v
  }

  /** writeback_one. A write that fails may leave anything in the store. */
  function WriteBack(v: View, t: Tid, page: PageId, ok: bool, garbage: Data): View {
    match v.pc
    case Flush(batch) =>
      var clean := v.g.(dirty := false, batchOf := None);
      if v.g.uptodate then v.(pc := WbLock(page, batch - {page}),
                              g := clean.(writeback := true, debt := v.g.debt + {t}))
      else v.(pc := WbPut(page, batch - {page}), g := clean)
    case WbLock(p, rest) => Locked(v, t, WbWrite(p, rest))
    case WbWrite(p, rest) =>
      if ok then v.(pc := WbUnlock(p, rest, false), g := v.g.(debt := v.g.debt - {t}), store := v.g.data)
      else v.(pc := WbUnlock(p, rest, true), store := garbage)
    case WbUnlock(p, rest, err) => Unlocked(v, WbEnd(p, rest, err))
    case WbEnd(p, rest, err) => v.(pc := if err then WbRedirty(p, rest)
        else WbPut(p, rest), g := v.g.(writeback := false))
    case WbRedirty(p, rest) => Dirtied(v, t, WbPut(p, rest))
    case _ => v
  }

  /** The shrinker's test, under the mapping lock, of a page it has pinned. */
  predicate Reclaimable(g: Page) {
    g.refs == 2 && !g.dirty && !g.writeback && g.cached
  }

  /** Taking and dropping references. */
  function Refs(v: View, t: Tid, p: PageId): View
    requires v.g.refs > 0
  {
    match v.pc
    case Idle => v.(pc := ShrinkCheck(p), g := Referenced(v.g, t))
    case Find(_, job) => v.(pc := Found(p, job), g := Referenced(v.g, t))
    case Create(_, job) => v.(pc := Found(p, job), g := Referenced(v.g, t))
    case ShrinkCheck(_) => v.(pc := ShrinkPut(p))
    case ShrinkDrop(_) => v.(pc := ShrinkPut(p), g := v.g.(refs := v.g.refs - 1, dropper := None))
    case ShrinkPut(_) => Released(v, t, Idle)
    case WbPut(_, rest) => Released(v, t, Flush(rest))
    case Put(_) => Released(v, t, Idle)
    case _ => v
  }

  predicate InReadIn(pc: Pc) {
    pc.Check? || pc.Lock? || pc.ReCheck? || pc.Fill? || pc.FillMark? || pc.FillUnlock?
  }

  predicate InCopyIn(pc: Pc) {
    pc.Use? || pc.Copy? || pc.CopyMark? || pc.CopyUnlock? || pc.MarkDirty?
  }

  predicate InWriteBack(pc: Pc) {
    pc.Flush? || pc.WbLock? || pc.WbWrite? || pc.WbUnlock? || pc.WbEnd? || pc.WbRedirty?
  }

  function Turn(v: View, t: Tid, p: PageId, c: Choice): View
    requires PcOk(v.pc) && v.g.refs > 0
  {
    if InReadIn(v.pc) then ReadIn(v, t, c.ok)
    else if InCopyIn(v.pc) then CopyIn(v, t)
    else if InWriteBack(v.pc) then WriteBack(v, t, p, c.ok, c.garbage)
    else Refs(v, t, p)
  }

  // The state around a step.

  function ViewOf(s: State, t: Tid, p: PageId): View
    requires p in s.pages
  {
    View(PcOf(s, t), s.pages[p], p in s.dirtyList, At(s.store, s.pages[p].index), At(s.file, s.pages[p].index))
  }

  function Moved(s: State, t: Tid, pc: Pc): State {
    s.(threads := s.threads[t := pc])
  }

  function Store(m: map<Index, Data>, i: Index, d: Data): map<Index, Data> {
    if At(m, i) == d then m else m[i := d]
  }

  function WithView(s: State, t: Tid, p: PageId, v: View): State {
    State(s.pages[p := v.g], s.hash, if v.linked then s.dirtyList + {p} else s.dirtyList - {p},
          Store(s.store, v.g.index, v.store), Store(s.file, v.g.index, v.file), s.threads[t := v.pc])
  }

  function NewPage(index: Index, t: Tid): Page {
    Page(index, Zero(), false, false, false, 2, true, false, {t}, None, {}, None, None)
  }

  /** The insertion of find_or_create_page. */
  function Inserted(s: State, t: Tid, index: Index, job: Job, n: PageId): State {
    s.(pages := s.pages[n := NewPage(index, t)], hash := s.hash[index := n], threads := s.threads[t := Found(n, job)])
  }

  function Collected(s: State, first: Index, last: Index): set<PageId> {
    set p | p in s.dirtyList && p in s.pages && first <= s.pages[p].index <= last
  }

  /** collect_dirty_batch: the pages keep their dirty mark and gain a reference. */
  function Parked(s: State, t: Tid, batch: set<PageId>): State {
    State(map p | p in s.pages :: if p in batch then Referenced(s.pages[p], t).(batchOf := Some(t)) else s.pages[p],
          s.hash, s.dirtyList - batch, s.store, s.file, s.threads[t := Flush(batch)])
  }

  /** __detach_locked by the shrinker. */
  function Detached(s: State, t: Tid, p: PageId): State
    requires p in s.pages
  {
    s.(pages := s.pages[p := s.pages[p].(cached := false, dropper := Some(t))], hash := s.hash - {s.pages[p].index},
       threads := s.threads[t := ShrinkDrop(p)])
  }

  /** cached_page_put of the last reference. */
  function Destroyed(s: State, t: Tid, p: PageId, pc: Pc): State {
    s.(pages := s.pages - {p}, threads := s.threads[t := pc])
  }

  // One step of thread `t`.

  function Hit(s: State, pc: Pc): Option<PageId>
    requires pc.Find? || pc.Create?
  {
    if pc.index in s.hash then Some(s.hash[pc.index]) else None
  }

  predicate Puts(pc: Pc) {
    pc.Put? || pc.WbPut? || pc.ShrinkPut? || pc.ShrinkDrop?
  }

  function AfterPut(pc: Pc): Pc
    requires Puts(pc)
  {
    match pc
    case WbPut(_, rest) => Flush(rest)
    case ShrinkDrop(p) => ShrinkPut(p)
    case _ => Idle
  }

  /** The page that the next step of a thread works on, if it works on one. */
  function Target(s: State, t: Tid, c: Choice): Option<PageId> {
    var pc := PcOf(s, t);
    if pc.Idle? then if c.work.Reclaim? then Some(c.page) else None
    else if pc.Find? || pc.Create? then Hit(s, pc)
    else if pc.Flush? then if pc.batch == {} then None else Some(c.page)
    else Some(pc.p)
  }

  predicate Enabled(s: State, t: Tid, c: Choice) {
    var pc := PcOf(s, t);
    && PcOk(pc)
    && (pc.Idle? && c.work.Access? ==> JobOk(c.work.job))
    && (pc.Create? && Hit(s, pc).None? ==> c.page !in s.pages)
    && (pc.Flush? && pc.batch != {} ==> c.page in pc.batch)
    && (Target(s, t, c).Some? ==> Target(s, t, c).value in s.pages && s.pages[Target(s, t, c).value].refs > 0)
    && (pc.Lock? || pc.Use? || pc.WbLock? ==> s.pages[pc.p].owner == None)
  }

  function Apply(s: State, t: Tid, c: Choice): State
    requires Enabled(s, t, c)
  {
    var pc := PcOf(s, t);
    match Target(s, t, c)
    case None =>
      (match pc
       case Idle => if c.work.Access? then Moved(s, t, Find(c.work.index, c.work.job))
                    else if c.work.FlushRange? then Parked(s, t, Collected(s, c.work.first, c.work.last)) else s
       case Find(i, job) => Moved(s, t, Create(i, job))
       case Create(i, job) => Inserted(s, t, i, job, c.page)
       case _ => Moved(s, t, Idle))
    case Some(p) =>
      if pc.ShrinkCheck? && Reclaimable(s.pages[p]) then Detached(s, t, p)
      else if Puts(pc) && s.pages[p].refs == 1 then Destroyed(s, t, p, AfterPut(pc))
      else WithView(s, t, p, Turn(ViewOf(s, t, p), t, p, c))
  }
}
