/**
 Whole runs of the page cache (src/mm/pagecache.c): the file is the writes that were asked for, each in full and once,
 in the order in which they were copied; and a flush writes out what was on the dirty list when it began.
 */
module PageCacheRun {
  import opened PageData
  import opened PageCacheSteps
  import opened PageCacheProof

  // The file that the calls alone make.

  /** One call of generic_file_read or generic_file_write on a page, how often it has copied, and whether I/O failed. */
  datatype Ask = Ask(index: Index, job: Job, copied: nat, failed: bool)

  datatype Log = Log(file: map<Index, Data>, asks: map<Tid, Ask>)

  /** The page after the call, byte by byte. */
  function Outcome(job: Job, d: Data): Data {
    match job
    case Read => d
    case Write(off, bytes) => seq(PAGE_SIZE, k requires 0 <= k < PAGE_SIZE =>
      if off <= k < off + |bytes| then bytes[k - off] else d[k])
    case WriteFull(data) => data
  }

  /** The calls after a step of thread `t`: its arguments are those the call was made with. */
  function Asks(pc: Pc, asks: map<Tid, Ask>, t: Tid, c: Choice): map<Tid, Ask> {
    if pc.Idle? then if c.work.Access? then asks[t := Ask(c.work.index, c.work.job, 0, false)] else asks
    else if t !in asks then asks
    else if pc.Copy? then asks[t := asks[t].(copied := asks[t].copied + 1)]
    else if pc.Fill? && !c.ok then asks[t := asks[t].(failed := true)]
    else asks
  }

  /** What a step adds to the log: the copy of a call changes the page that was asked for as that call asked. */
  function Note(s: State, log: Log, t: Tid, c: Choice): Log {
    var asks := Asks(PcOf(s, t), log.asks, t, c);
    if PcOf(s, t).Copy? && t in log.asks then
      var a := log.asks[t];
      Log(log.file[a.index := Outcome(a.job, At(log.file, a.index))], asks)
    else log.(asks := asks)
  }

  ghost function Logged(s: State, log: Log, steps: seq<(Tid, Choice)>): Log
    requires Runs(s, steps)
    decreases |steps|
  {
    if |steps| == 0 then log
    else Logged(Apply(s, steps[0].0, steps[0].1), Note(s, log, steps[0].0, steps[0].1), steps[1..])
  }

  // That the cache agrees with the log.

  predicate Early(pc: Pc) {
    pc.Find? || pc.Create? || InReadIn(pc) || pc.Use? || pc.Copy?
  }

  predicate Late(pc: Pc) {
    pc.CopyMark? || pc.CopyUnlock? || pc.MarkDirty?
  }

  function PlaceOf(s: State, pc: Pc): Index {
    if pc.Find? || pc.Create? then pc.index
    else if Early(pc) && pc.p in s.pages then s.pages[pc.p].index
    else 0
  }

  ghost predicate AskOk(pc: Pc, place: Index, asks: map<Tid, Ask>, t: Tid) {
    && (Early(pc) ==>
          && t in asks && asks[t].job == pc.job && asks[t].index == place && asks[t].copied == 0
          && (asks[t].failed <==> pc.FillUnlock? && !pc.ok))
    && (Late(pc) ==> t in asks && asks[t].copied == 1 && !asks[t].failed)
    && (!Early(pc) && !Late(pc) && t in asks ==> asks[t].copied == if asks[t].failed then 0 else 1)
  }

  ghost predicate AsksOk(s: State, log: Log) {
    forall t: Tid :: AskOk(PcOf(s, t), PlaceOf(s, PcOf(s, t)), log.asks, t)
  }

  ghost predicate SameFile(s: State, log: Log) {
    forall i: Index :: At(s.file, i) == At(log.file, i)
  }

  lemma SpliceIs(d: Data, job: Job)
    requires job.Write? && JobOk(job)
    ensures Splice(d, job.off, job.bytes) == Outcome(job, d)
  {
  }

  // One step.

  lemma OtherPc(s: State, t: Tid, c: Choice, u: Tid)
    requires Enabled(s, t, c) && u != t
    ensures PcOf(Apply(s, t, c), u) == PcOf(s, u)
  {
    hide Turn, At, Store, Collected;
  }

  /** What a step on one page does to the file and to the thread's standing. */
  ghost predicate Steps(v: View, v': View, t: Tid, p: PageId, c: Choice) {
    && v'.g.index == v.g.index && (Early(v'.pc) ==> On(v'.pc, p))
    && v'.file == (if v.pc.Copy? then Outcome(v.pc.job, v.file) else v.file)
    && forall asks :: AskOk(v.pc, v.g.index, asks, t) ==> AskOk(v'.pc, v.g.index, Asks(v.pc, asks, t, c), t)
  }

  lemma ReadInSteps(v: View, t: Tid, p: PageId, c: Choice)
    requires InReadIn(v.pc) && v.pc.p == p
    ensures Steps(v, ReadIn(v, t, c.ok), t, p, c)
  {
    hide Outcome;
  }

  lemma CopyInSteps(v: View, t: Tid, p: PageId, c: Choice)
    requires InCopyIn(v.pc) && PcOk(v.pc) && v.pc.p == p
    ensures Steps(v, CopyIn(v, t), t, p, c)
  {
    if v.pc.Copy? && v.pc.job.Write? {
      SpliceIs(v.file, v.pc.job);
    }
    if v.pc.Copy? && v.pc.job.WriteFull? {
      assert Outcome(v.pc.job, v.file) == v.pc.job.data;
    }
    if v.pc.Copy? && v.pc.job.Read? {
      assert Outcome(v.pc.job, v.file) == v.file;
    }
    hide Outcome, Splice;
  }

  lemma WriteBackSteps(v: View, t: Tid, p: PageId, c: Choice)
    requires InWriteBack(v.pc)
    ensures Steps(v, WriteBack(v, t, p, c.ok, c.garbage), t, p, c)
  {
    hide Outcome;
  }

  lemma RefsSteps(v: View, t: Tid, p: PageId, c: Choice)
    requires v.g.refs > 0 && !InReadIn(v.pc) && !InCopyIn(v.pc) && !InWriteBack(v.pc)
    requires v.pc.Idle? ==> c.work.Reclaim?
    requires v.pc.Find? || v.pc.Create? ==> v.pc.index == v.g.index
    ensures Steps(v, Refs(v, t, p), t, p, c)
  {
    hide Outcome;
  }

  lemma TurnSteps(v: View, t: Tid, p: PageId, c: Choice)
    requires PcOk(v.pc) && v.g.refs > 0
    requires v.pc.Idle? ==> c.work.Reclaim?
    requires v.pc.Find? || v.pc.Create? ==> v.pc.index == v.g.index
    requires InReadIn(v.pc) || InCopyIn(v.pc) ==> v.pc.p == p
    ensures Steps(v, Turn(v, t, p, c), t, p, c)
  {
    hide Steps, ReadIn, CopyIn, WriteBack, Refs, PcOk;
    if InReadIn(v.pc) {
      ReadInSteps(v, t, p, c);
    } else if InCopyIn(v.pc) {
      CopyInSteps(v, t, p, c);
    } else if InWriteBack(v.pc) {
      WriteBackSteps(v, t, p, c);
    } else {
      RefsSteps(v, t, p, c);
    }
  }

  lemma TargetSteps(s: State, t: Tid, c: Choice, p: PageId)
    requires Inv(s) && Enabled(s, t, c) && Target(s, t, c) == Some(p)
    ensures Steps(ViewOf(s, t, p), Turn(ViewOf(s, t, p), t, p, c), t, p, c)
  {
    hide Steps, Turn, PagesOk, PairsOk, RestOk, At;
    TurnSteps(ViewOf(s, t, p), t, p, c);
  }

  /** A page keeps its index while it exists. */
  lemma IndexKept(s: State, t: Tid, c: Choice, p: PageId)
    requires Inv(s) && Enabled(s, t, c) && p in s.pages && p in Apply(s, t, c).pages
    ensures Apply(s, t, c).pages[p].index == s.pages[p].index
  {
    hide Turn, At, Store, Outcome, Asks, Inv;
    if Target(s, t, c).Some? {
      TargetSteps(s, t, c, Target(s, t, c).value);
    }
  }

  lemma PlaceKept(s: State, t: Tid, c: Choice, u: Tid)
    requires Inv(s) && Enabled(s, t, c) && u != t
    ensures PlaceOf(Apply(s, t, c), PcOf(s, u)) == PlaceOf(s, PcOf(s, u))
  {
    var s', pc := Apply(s, t, c), PcOf(s, u);
    OtherPc(s, t, c, u);
    ApplyKeeps(s, t, c);
    hide Apply, Enabled, PagesOk, PairsOk, HashOk, RestOk;
    if Early(pc) && !pc.Find? && !pc.Create? {
      assert Holds(PcOf(s, u), pc.p) && Holds(PcOf(s', u), pc.p);
      IndexKept(s, t, c, pc.p);
    }
  }

  lemma OtherAsk(s: State, log: Log, t: Tid, c: Choice, u: Tid)
    requires Inv(s) && Enabled(s, t, c) && AsksOk(s, log) && u != t
    ensures var s' := Apply(s, t, c);
            AskOk(PcOf(s', u), PlaceOf(s', PcOf(s', u)), Note(s, log, t, c).asks, u)
  {
    hide Apply, Enabled, Inv, Outcome, PlaceOf;
    OtherPc(s, t, c, u);
    PlaceKept(s, t, c, u);
    assert AskOk(PcOf(s, u), PlaceOf(s, PcOf(s, u)), log.asks, u);
  }

  // The thread that steps.

  predicate Turns(s: State, t: Tid, c: Choice)
    requires Enabled(s, t, c)
  {
    && Target(s, t, c).Some?
    && var p := Target(s, t, c).value;
    && !(PcOf(s, t).ShrinkCheck? && Reclaimable(s.pages[p])) && !(Puts(PcOf(s, t)) && s.pages[p].refs == 1)
  }

  lemma TurnApplied(s: State, t: Tid, c: Choice)
    requires Enabled(s, t, c) && Turns(s, t, c)
    ensures var p := Target(s, t, c).value;
            var v' := Turn(ViewOf(s, t, p), t, p, c);
            var s' := Apply(s, t, c);
            && PcOf(s', t) == v'.pc && p in s'.pages && s'.pages[p] == v'.g
            && s'.file == Store(s.file, v'.g.index, v'.file)
  {
    hide Turn, ViewOf, Store;
  }

  /** A thread that works on no page starts, misses, inserts, or ends a flush. */
  lemma PlainApplied(s: State, t: Tid, c: Choice)
    requires Enabled(s, t, c) && Target(s, t, c) == None
    ensures var s', pc, pc' := Apply(s, t, c), PcOf(s, t), PcOf(Apply(s, t, c), t);
            && s'.file == s.file
            && (pc.Idle? && c.work.Access? ==> pc' == Find(c.work.index, c.work.job))
            && (pc.Idle? && !c.work.Access? ==> pc'.Flush?)
            && (pc.Find? ==> pc' == Create(pc.index, pc.job))
            && (pc.Create? ==>
                  pc' == Found(c.page, pc.job) && c.page in s'.pages && s'.pages[c.page].index == pc.index)
            && (pc.Flush? ==> pc' == Idle)
            && (pc.Idle? || pc.Find? || pc.Create? || pc.Flush?)
  {
    hide Collected, Parked, Inserted, PcOk;
    if PcOf(s, t).Idle? && c.work.FlushRange? {
      ParkedIs(s, t, Collected(s, c.work.first, c.work.last));
    } else if PcOf(s, t).Create? {
      InsertedIs(s, t, PcOf(s, t).index, PcOf(s, t).job, c.page);
    }
  }

  lemma ParkedIs(s: State, t: Tid, batch: set<PageId>)
    ensures Parked(s, t, batch).file == s.file && PcOf(Parked(s, t, batch), t) == Flush(batch)
  {
    hide Referenced;
  }

  lemma InsertedIs(s: State, t: Tid, index: Index, job: Job, n: PageId)
    ensures var s' := Inserted(s, t, index, job, n);
            && s'.file == s.file && PcOf(s', t) == Found(n, job) && n in s'.pages && s'.pages[n].index == index
  {
    hide Zero, Found;
  }

  /** The shrinker takes a page out, or the last reference goes. */
  lemma GoneApplied(s: State, t: Tid, c: Choice)
    requires Enabled(s, t, c) && Target(s, t, c).Some? && !Turns(s, t, c)
    ensures var pc, pc' := PcOf(s, t), PcOf(Apply(s, t, c), t);
            && Apply(s, t, c).file == s.file
            && (pc.ShrinkCheck? || Puts(pc)) && (pc'.ShrinkDrop? || pc'.ShrinkPut? || pc'.Flush? || pc'.Idle?)
  {
    hide Turn, ViewOf, Store, PcOk;
  }

  lemma GoneAsk(pc: Pc, pc': Pc, place: Index, place': Index, asks: map<Tid, Ask>, t: Tid, c: Choice)
    requires AskOk(pc, place, asks, t) && (pc.ShrinkCheck? || Puts(pc))
    requires pc'.ShrinkDrop? || pc'.ShrinkPut? || pc'.Flush? || pc'.Idle?
    ensures AskOk(pc', place', Asks(pc, asks, t, c), t)
  {
  }

  lemma PlainAsk(pc: Pc, pc': Pc, place: Index, place': Index, asks: map<Tid, Ask>, t: Tid, c: Choice)
    requires AskOk(pc, place, asks, t) && (pc.Idle? || pc.Find? || pc.Create? || pc.Flush?)
    requires pc.Idle? && c.work.Access? ==> pc' == Find(c.work.index, c.work.job) && place' == c.work.index
    requires pc.Idle? && !c.work.Access? ==> pc'.Flush?
    requires pc.Find? ==> pc' == Create(pc.index, pc.job)
    requires pc.Create? ==> pc' == Found(c.page, pc.job)
    requires pc.Find? || pc.Create? ==> place == pc.index == place'
    requires pc.Flush? ==> pc' == Idle
    ensures AskOk(pc', place', Asks(pc, asks, t, c), t)
  {
  }

  lemma OwnAsk(s: State, log: Log, t: Tid, c: Choice)
    requires Inv(s) && Enabled(s, t, c) && AsksOk(s, log)
    ensures var s' := Apply(s, t, c);
            AskOk(PcOf(s', t), PlaceOf(s', PcOf(s', t)), Note(s, log, t, c).asks, t)
  {
    var pc := PcOf(s, t);
    assert AskOk(pc, PlaceOf(s, pc), log.asks, t);
    hide Apply, Inv, Turn, AsksOk, Turns, AskOk, Enabled, Asks, Target;
    var s' := Apply(s, t, c);
    if Turns(s, t, c) {
      TurnAsk(s, log, t, c);
    } else if Target(s, t, c).Some? {
      GoneApplied(s, t, c);
      hide PlaceOf, PcOf;
      GoneAsk(pc, PcOf(s', t), PlaceOf(s, pc), PlaceOf(s', PcOf(s', t)), log.asks, t, c);
    } else {
      PlainApplied(s, t, c);
      hide PcOf;
      PlainAsk(pc, PcOf(s', t), PlaceOf(s, pc), PlaceOf(s', PcOf(s', t)), log.asks, t, c);
    }
  }

  lemma TurnAsk(s: State, log: Log, t: Tid, c: Choice)
    requires Inv(s) && Enabled(s, t, c) && Turns(s, t, c)
    requires AskOk(PcOf(s, t), PlaceOf(s, PcOf(s, t)), log.asks, t)
    ensures var s' := Apply(s, t, c);
            AskOk(PcOf(s', t), PlaceOf(s', PcOf(s', t)), Note(s, log, t, c).asks, t)
  {
    var p := Target(s, t, c).value;
    TurnApplied(s, t, c);
    TargetSteps(s, t, c, p);
    EarlyPlace(s, t, c, p);
    hide Apply, Turn, Turns, Inv, Outcome, Store, Enabled, Target, Asks;
    PlaceFree(PcOf(s, t), PlaceOf(s, PcOf(s, t)), s.pages[p].index, log.asks, t);
    var s' := Apply(s, t, c);
    hide AskOk;
    PlaceFree(PcOf(s', t), PlaceOf(s', PcOf(s', t)), s.pages[p].index, Note(s, log, t, c).asks, t);
  }

  lemma EarlyPlace(s: State, t: Tid, c: Choice, p: PageId)
    requires Inv(s) && Enabled(s, t, c) && Target(s, t, c) == Some(p)
    ensures Early(PcOf(s, t)) ==> PlaceOf(s, PcOf(s, t)) == s.pages[p].index
  {
    hide PagesOk, PairsOk, RestOk;
  }

  /** Where it is matters only before the copy. */
  lemma PlaceFree(pc: Pc, a: Index, b: Index, asks: map<Tid, Ask>, t: Tid)
    requires Early(pc) ==> a == b
    ensures AskOk(pc, a, asks, t) == AskOk(pc, b, asks, t)
  {
  }

  // The file.

  lemma TurnFile(s: State, log: Log, t: Tid, c: Choice)
    requires Inv(s) && Enabled(s, t, c) && Turns(s, t, c) && SameFile(s, log)
    requires AskOk(PcOf(s, t), PlaceOf(s, PcOf(s, t)), log.asks, t)
    ensures SameFile(Apply(s, t, c), Note(s, log, t, c))
  {
    var p := Target(s, t, c).value;
    TurnApplied(s, t, c);
    TargetSteps(s, t, c, p);
    EarlyPlace(s, t, c, p);
    hide Apply, Turn, Turns, Inv, Outcome, Enabled, Asks, Target, Store, At;
    var i := s.pages[p].index;
    assert At(s.file, i) == At(log.file, i);
    if PcOf(s, t).Copy? {
      PutSame(s.file, log.file, i, Outcome(PcOf(s, t).job, At(s.file, i)));
    } else {
      assert Store(s.file, i, At(s.file, i)) == s.file by { StoreNothing(s.file, i); }
    }
  }

  lemma StoreNothing(m: map<Index, Data>, i: Index)
    ensures Store(m, i, At(m, i)) == m
  {
  }

  lemma PutSame(m: map<Index, Data>, n: map<Index, Data>, i: Index, d: Data)
    requires forall j: Index :: At(m, j) == At(n, j)
    ensures forall j: Index :: At(Store(m, i, d), j) == At(n[i := d], j)
  {
    hide Zero;
    forall j: Index
      ensures At(Store(m, i, d), j) == At(n[i := d], j)
    {
      assert At(m, j) == At(n, j);
    }
  }

  lemma SameFileStays(s: State, s': State, log: Log, log': Log)
    requires SameFile(s, log) && s'.file == s.file && log'.file == log.file
    ensures SameFile(s', log')
  {
    hide At;
  }

  lemma FileStep(s: State, log: Log, t: Tid, c: Choice)
    requires Inv(s) && Enabled(s, t, c) && AsksOk(s, log) && SameFile(s, log)
    ensures SameFile(Apply(s, t, c), Note(s, log, t, c))
  {
    hide Apply, Turns, Inv, Outcome, Enabled, Asks, Target, At;
    assert AskOk(PcOf(s, t), PlaceOf(s, PcOf(s, t)), log.asks, t);
    if Turns(s, t, c) {
      TurnFile(s, log, t, c);
    } else if Target(s, t, c).Some? {
      GoneApplied(s, t, c);
      SameFileStays(s, Apply(s, t, c), log, Note(s, log, t, c));
    } else {
      PlainApplied(s, t, c);
      SameFileStays(s, Apply(s, t, c), log, Note(s, log, t, c));
    }
  }

  lemma StepTracks(s: State, log: Log, t: Tid, c: Choice)
    requires Inv(s) && Enabled(s, t, c) && AsksOk(s, log) && SameFile(s, log)
    ensures AsksOk(Apply(s, t, c), Note(s, log, t, c)) && SameFile(Apply(s, t, c), Note(s, log, t, c))
  {
    FileStep(s, log, t, c);
    hide Apply, Enabled, Inv, SameFile, Note, AskOk;
    forall u: Tid
      ensures var s' := Apply(s, t, c);
              AskOk(PcOf(s', u), PlaceOf(s', PcOf(s', u)), Note(s, log, t, c).asks, u)
    {
      if u == t {
        OwnAsk(s, log, t, c);
      } else {
        OtherAsk(s, log, t, c, u);
      }
    }
  }

  lemma {:induction false} RunTracks(s: State, log: Log, steps: seq<(Tid, Choice)>)
    requires Inv(s) && Runs(s, steps) && AsksOk(s, log) && SameFile(s, log)
    ensures AsksOk(Final(s, steps), Logged(s, log, steps)) && SameFile(Final(s, steps), Logged(s, log, steps))
    decreases |steps|
  {
    hide Inv, Enabled, Apply, AsksOk, SameFile, Note;
    if |steps| > 0 {
      var t, c := steps[0].0, steps[0].1;
      ApplyKeeps(s, t, c);
      StepTracks(s, log, t, c);
      RunTracks(Apply(s, t, c), Note(s, log, t, c), steps[1..]);
    }
  }

  /** What the run's calls alone make of the disk. */
  ghost function Calls(disk: map<Index, Data>, steps: seq<(Tid, Choice)>): Log
    requires Runs(Start(disk), steps)
  {
    Logged(Start(disk), Log(disk, map[]), steps)
  }

  /**
   The file is the disk with every write's own bytes put in, in the order of the copies; and a thread that is between
   calls has copied its last call exactly once, unless the page could not be read, and then not at all.
   */
  lemma FileIsWrites(disk: map<Index, Data>, steps: seq<(Tid, Choice)>)
    requires Runs(Start(disk), steps)
    ensures var s, log := Final(Start(disk), steps), Calls(disk, steps);
            && (forall i: Index :: At(s.file, i) == At(log.file, i))
            && (forall t: Tid :: t in log.asks && PcOf(s, t) == Idle ==>
                  log.asks[t].copied == if log.asks[t].failed then 0 else 1)
  {
    var s0, log0 := Start(disk), Log(disk, map[]);
    StartInv(disk);
    assert AsksOk(s0, log0) && SameFile(s0, log0);
    hide Inv, Enabled, Apply, Note, PlaceOf, At;
    RunTracks(s0, log0, steps);
    var s, log := Final(Start(disk), steps), Calls(disk, steps);
    forall t: Tid | t in log.asks && PcOf(s, t) == Idle
      ensures log.asks[t].copied == if log.asks[t].failed then 0 else 1
    {
      assert AskOk(PcOf(s, t), PlaceOf(s, PcOf(s, t)), log.asks, t);
    }
  }

  /** A reader copies the page it asked for, as the calls copied before it have left it. */
  lemma ReadsWrites(disk: map<Index, Data>, steps: seq<(Tid, Choice)>, t: Tid, p: PageId)
    requires Runs(Start(disk), steps) && PcOf(Final(Start(disk), steps), t) == Copy(p, Read)
    ensures var s, log := Final(Start(disk), steps), Calls(disk, steps);
            && t in log.asks && log.asks[t].job == Read
            && p in s.pages && s.pages[p].data == At(log.file, log.asks[t].index)
  {
    var s0, log0 := Start(disk), Log(disk, map[]);
    var s, log := Final(s0, steps), Calls(disk, steps);
    StartInv(disk);
    assert AsksOk(s0, log0) && SameFile(s0, log0);
    hide Inv, Enabled, Apply, Note, At;
    RunTracks(s0, log0, steps);
    assert Reachable(s);
    ReadsLatest(s, t, p);
    assert AskOk(PcOf(s, t), PlaceOf(s, PcOf(s, t)), log.asks, t);
  }
}
