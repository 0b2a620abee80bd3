/** What holds of tasks, queues and sleep locks in every reachable state. */
module SchedSafety {
  import opened SchedSteps
  import opened SchedProof

  /** CPU `c` boots in task `2 c + 1` with idle task `2 c`. */
  function BootTask(t: Tid): Task {
    if t % 2 == 0 then Task(Running, NoChan, None, t / 2, None, None, Off, true, None, Some(t / 2), None)
    else Task(Running, NoChan, Some(t / 2), t / 2, None, None, Off, false, None, None, None)
  }

  function Start(n: nat, locks: set<LockId>): State {
    State(map t | 0 <= t < 2 * n :: BootTask(t),
          map c | 0 <= c < n :: Cpu(Run(2 * c + 1), Some(2 * c + 1), None, 2 * c, [], 0),
          map l | l in locks :: SLock(false, None, None), [])
  }

  lemma BootPair(c: CpuId, t: Tid)
    ensures PairOk(Cpu(Run(2 * c + 1), Some(2 * c + 1), None, 2 * c, [], 0), BootTask(t), c, t) &&
            TaskOk(BootTask(t), false)
  {
  }

  lemma StartPairs(n: nat, locks: set<LockId>)
    ensures PairsOk(Start(n, locks)) && TasksOk(Start(n, locks))
  {
    hide PairOk, TaskOk, BootTask;
    var s := Start(n, locks);
    forall c, t | c in s.cpus && t in s.tasks
      ensures PairOk(s.cpus[c], s.tasks[t], c, t)
    {
      BootPair(c, t);
    }
    forall t | t in s.tasks
      ensures TaskOk(s.tasks[t], t in s.sleepQueue)
    {
      BootPair(0, t);
    }
  }

  lemma StartCpus(n: nat, locks: set<LockId>)
    ensures CpusOk(Start(n, locks))
  {
    var s := Start(n, locks);
    forall c | c in s.cpus
      ensures CpuOk(s.cpus[c], c, s.tasks)
    {
      assert s.tasks[2 * c] == BootTask(2 * c);
    }
  }

  lemma StartClosed(n: nat, locks: set<LockId>)
    ensures Closed(Start(n, locks))
  {
    hide BootTask;
    var s := Start(n, locks);
    assert s.sleepQueue == [];
    forall c, t | c in s.cpus && Touches(s.cpus[c].pc, t)
      ensures t in s.tasks
    {
      assert t == 2 * c + 1;
    }
    forall t | t in s.tasks
      ensures Named(s.tasks[t], s.cpus.Keys)
    {
      assert t / 2 in s.cpus;
      BootNamed(t, s.cpus.Keys);
    }
  }

  lemma BootNamed(t: Tid, cpus: set<CpuId>)
    requires t / 2 in cpus
    ensures Named(BootTask(t), cpus)
  {
  }

  lemma StartLocks(n: nat, locks: set<LockId>)
    ensures LocksOk(Start(n, locks))
  {
    hide BootTask;
  }

  lemma StartInv(n: nat, locks: set<LockId>)
    ensures Inv(Start(n, locks))
  {
    hide Start, TasksOk, CpusOk, PairsOk, Closed, LocksOk;
    StartPairs(n, locks);
    StartCpus(n, locks);
    StartClosed(n, locks);
    StartLocks(n, locks);
  }

  ghost predicate Runs(s: State, steps: seq<(CpuId, Action)>)
    decreases |steps|
  {
    |steps| > 0 ==> Enabled(s, steps[0].0, steps[0].1) && Runs(Apply(s, steps[0].0, steps[0].1), steps[1..])
  }

  ghost function Final(s: State, steps: seq<(CpuId, Action)>): State
    requires Runs(s, steps)
    decreases |steps|
  {
    if |steps| == 0 then s else Final(Apply(s, steps[0].0, steps[0].1), steps[1..])
  }

  lemma {:induction false} RunsKeep(s: State, steps: seq<(CpuId, Action)>)
    requires Inv(s) && Runs(s, steps)
    ensures Inv(Final(s, steps))
    decreases |steps|
  {
    hide Inv, Enabled, Apply;
    if |steps| > 0 {
      ApplyKeeps(s, steps[0].0, steps[0].1);
      RunsKeep(Apply(s, steps[0].0, steps[0].1), steps[1..]);
    }
  }

  ghost predicate Reachable(s: State) {
    exists n: nat, locks, steps :: Runs(Start(n, locks), steps) && s == Final(Start(n, locks), steps)
  }

  lemma ReachableInv(s: State)
    requires Reachable(s)
    ensures Inv(s)
  {
    hide Inv, Enabled, Apply;
    var n: nat, locks, steps :| Runs(Start(n, locks), steps) && s == Final(Start(n, locks), steps);
    StartInv(n, locks);
    RunsKeep(Start(n, locks), steps);
  }

  /** A task is current on at most one CPU, and its `oncpu` says which. */
  lemma CurrentUnique(s: State, c: CpuId, e: CpuId, t: Tid)
    requires Reachable(s) && c in s.cpus && e in s.cpus && s.cpus[c].current == Some(t)
    ensures t in s.tasks && s.tasks[t].oncpu == Some(c) && s.tasks[t].cpu == c
    ensures s.cpus[e].current == Some(t) ==> e == c
  {
    ReachableInv(s);
    assert CpuOk(s.cpus[c], c, s.tasks) && CpuOk(s.cpus[e], e, s.tasks);
    CurrentIsOn(s.cpus[c].pc);
    CurrentIsOn(s.cpus[e].pc);
    assert Touches(s.cpus[c].pc, t);
    ViewIs(s, c, t);
    ViewIs(s, e, t);
  }

  /** On every CPU the counter is the length of the queue; and a task is on at most one queue, once. */
  lemma QueueUnique(s: State, c: CpuId, e: CpuId, t: Tid)
    requires Reachable(s) && c in s.cpus && e in s.cpus
    ensures s.cpus[c].nrRunning == |s.cpus[c].runQueue| && Distinct(s.cpus[c].runQueue) && Distinct(s.sleepQueue)
    ensures t in s.cpus[c].runQueue ==>
              && t !in s.sleepQueue && (t in s.cpus[e].runQueue ==> e == c)
              && t in s.tasks && s.tasks[t].state == Running && s.tasks[t].cpu == c
  {
    ReachableInv(s);
    assert CpuOk(s.cpus[c], c, s.tasks);
    if t in s.cpus[c].runQueue {
      assert t in s.tasks;
      ViewIs(s, c, t);
      ViewIs(s, e, t);
      hide TaskOk;
      assert TaskOk(s.tasks[t], t in s.sleepQueue);
    }
  }

  /** The assertions of task_sched, task_join and task_pick_next hold whenever they are reached. */
  lemma AssertionsHold(s: State, c: CpuId)
    requires Reachable(s) && c in s.cpus
    ensures var k := s.cpus[c];
            && (k.pc.Sched? ==>
               k.pc.t in s.tasks && s.tasks[k.pc.t].oncpu == Some(c) && s.tasks[k.pc.t].lock == Some(c))
            && (k.pc.Requeue? ==>
               k.pc.t in s.tasks && s.tasks[k.pc.t].cpu == c && s.tasks[k.pc.t].queue == Off &&
               s.tasks[k.pc.t].state == Running)
            && (k.pc.Join? ==>
               k.pc.p in s.tasks && s.tasks[k.pc.p].oncpu == None && s.tasks[k.pc.p].queue == Off &&
               s.tasks[k.pc.p].state == Running && s.tasks[k.pc.p].saved)
            && (k.pc.Pick? && k.runQueue != [] ==>
               k.runQueue[0] in s.tasks && s.tasks[k.runQueue[0]].cpu == c && k.nrRunning > 0)
            && (k.pc.SwitchTo? ==>
               k.pc.n in s.tasks && s.tasks[k.pc.n].oncpu == None && s.tasks[k.pc.n].lock == None &&
               s.tasks[k.pc.n].saved)
  {
    ReachableInv(s);
    var k := s.cpus[c];
    var t := Subject(k);
    if t.Some? {
      SubjectIs(s, c, t.value);
      ViewIs(s, c, t.value);
      hide Inv;
      SubjectFacts(k, s.tasks[t.value], c, t.value, t.value in s.sleepQueue);
    }
  }

  /** The task that an assertion is about. */
  function Subject(k: Cpu): Option<Tid> {
    if k.pc.Sched? || k.pc.Requeue? then Some(k.pc.t)
    else if k.pc.Join? then Some(k.pc.p)
    else if k.pc.SwitchTo? then Some(k.pc.n)
    else if k.pc.Pick? && k.runQueue != [] then Some(k.runQueue[0])
    else None
  }

  lemma SubjectIs(s: State, c: CpuId, t: Tid)
    requires Inv(s) && c in s.cpus && Subject(s.cpus[c]) == Some(t)
    ensures t in s.tasks
  {
    hide PairOk, TaskOk, LocksOk, Named, Distinct;
    assert Touches(s.cpus[c].pc, t) || t in s.cpus[c].runQueue;
  }

  lemma SubjectFacts(k: Cpu, g: Task, c: CpuId, t: Tid, asleep: bool)
    requires ViewOk(k, g, c, t, asleep) && Subject(k) == Some(t)
    ensures k.pc.Sched? ==> g.oncpu == Some(c) && g.lock == Some(c)
    ensures k.pc.Requeue? ==> g.cpu == c && g.queue == Off && g.state == Running
    ensures k.pc.Join? ==> g.oncpu == None && g.queue == Off && g.state == Running && g.saved
    ensures k.pc.Pick? ==> g.cpu == c && k.nrRunning > 0
    ensures k.pc.SwitchTo? ==> g.oncpu == None && g.lock == None && g.saved
  {
  }

  /** A sleeper is taken off the queue only when its context is saved and no CPU runs it. */
  lemma WokenIsSaved(s: State, p: Tid, e: CpuId)
    requires Reachable(s) && Wakeable(s, p) && e in s.cpus
    ensures s.tasks[p].saved && s.tasks[p].oncpu == None && !On(s.cpus[e].pc, p)
  {
    ReachableInv(s);
    ViewIs(s, e, p);
  }

  /** A zombie that passes the test of task_wait is in use by no CPU. */
  lemma ReapIsSafe(s: State, p: Tid, e: CpuId)
    requires Reachable(s) && e in s.cpus
    requires p in s.tasks && s.tasks[p].state == Zombie && s.tasks[p].oncpu == None && s.tasks[p].lock == None
    ensures !Touches(s.cpus[e].pc, p) && p !in s.cpus[e].runQueue && p !in s.sleepQueue && s.cpus[e].current != Some(p)
    ensures s.tasks[p].saved
  {
    ReachableInv(s);
    ReapedUntouched(s, p, e);
    ViewIs(s, e, p);
  }

  /** No runnable task is lost: it is on a CPU, about to be placed or switched to, or on a run queue. */
  lemma NoTaskLost(s: State, t: Tid)
    requires Reachable(s) && t in s.tasks && s.tasks[t].state == Running && s.tasks[t].idleOf == None
    ensures exists c :: c in s.cpus && (On(s.cpus[c].pc, t) || Claims(s.cpus[c].pc, t) || t in s.cpus[c].runQueue)
  {
    ReachableInv(s);
    var g := s.tasks[t];
    assert TaskOk(g, t in s.sleepQueue) && Named(g, s.cpus.Keys);
    var c := if g.oncpu.Some? then g.oncpu.value else if g.claim.Some? then g.claim.value else g.queue.c;
    ViewIs(s, c, t);
    assert On(s.cpus[c].pc, t) || Claims(s.cpus[c].pc, t) || t in s.cpus[c].runQueue;
  }

  /** And a sleeping task is on the sleep queue, or on its way there. */
  lemma SleeperIsListed(s: State, t: Tid)
    requires Reachable(s) && t in s.tasks && s.tasks[t].state == Sleeping && s.tasks[t].lock == None
    ensures t in s.sleepQueue
  {
    ReachableInv(s);
    assert TaskOk(s.tasks[t], t in s.sleepQueue);
  }

  /** No lost wake-up: a lock that is free, with its spin lock free, has nobody asleep on it, switched out or not. */
  lemma NoLostWakeup(s: State, l: LockId, t: Tid)
    requires Reachable(s) && l in s.locks && !s.locks[l].locked && s.locks[l].inner == None
    ensures !(t in s.sleepQueue && t in s.tasks && s.tasks[t].chan == OfLock(l))
    ensures forall c :: c in s.cpus ==> !GoingToSleep(s.cpus[c].pc, l)
  {
    ReachableInv(s);
    hide TasksOk, CpusOk, PairsOk, Closed;
    assert !Waited(s, l);
    assert LocksOk(s);
  }

  /** The scheduler's own steps leave the sleep locks alone. */
  lemma GoLocks(s: State, c: CpuId, d: CpuId)
    requires Enabled(s, c, Go(d)) && !s.cpus[c].pc.Run?
    ensures var pc := s.cpus[c].pc; var s' := GoStep(s, c, d);
            s'.locks == if pc.Acquiring? then (if s.locks[pc.l].locked then s.locks
                                               else s.locks[pc.l := SLock(true, Some(pc.t), None)])
                        else if pc.Releasing? then s.locks[pc.l := s.locks[pc.l].(inner := None)]
                        else if pc.SleepUnlock? &&
                            pc.chan.OfLock? then s.locks[pc.chan.l := s.locks[pc.chan.l].(inner := None)]
                        else s.locks
  {
    hide Removed, Wakeable, Sleeper;
    var pc := s.cpus[c].pc;
    match pc
    case Pick(t) => PickLocks(s, c, t);
    case _ =>
  }

  lemma PickLocks(s: State, c: CpuId, t: Tid)
    requires c in s.cpus && t in s.tasks && s.cpus[c].idle in s.tasks &&
             (s.cpus[c].runQueue != [] ==> s.cpus[c].runQueue[0] in s.tasks)
    ensures PickStep(s, c, t).locks == s.locks
  {
  }

  lemma RunLocks(s: State, c: CpuId, t: Tid, a: Action)
    requires c in s.cpus && RunEnabled(s, c, t, a)
    ensures var s' := RunStep(s, c, t, a);
            s'.locks == if a.Acquire? then s.locks[a.l := s.locks[a.l].(inner := Some(c))]
                        else if a.Release? then s.locks[a.l := SLock(false, None, Some(c))] else s.locks
  {
    hide Removed, Wakeable;
  }

  /** Mutual exclusion: while a task holds a lock, only that task's own release ends it. */
  lemma HolderStays(s: State, l: LockId, t: Tid, c: CpuId, a: Action)
    requires Reachable(s) && l in s.locks && s.locks[l].holder == Some(t) && Enabled(s, c, a)
    ensures l in Apply(s, c, a).locks &&
            (Apply(s, c, a).locks[l].holder == Some(t) || (s.cpus[c].pc == Run(t) && a == Release(l)))
  {
    hide Inv, Reachable, RunStep, GoStep, Woken, Sleeper;
    ReachableInv(s);
    HolderIs(s, l);
    var k := s.cpus[c];
    if k.pc.Run? {
      RunLocks(s, c, k.pc.t, a);
    } else if k.pc.Releasing? && a.Wake? {
      WokenLocks(s, c, a.p, ToRelease(k.pc.t, k.pc.l));
    } else {
      GoLocks(s, c, a.target);
    }
  }

  lemma WokenLocks(s: State, c: CpuId, p: Tid, back: Back)
    requires c in s.cpus && p in s.tasks
    ensures Woken(s, c, p, back).locks == s.locks
  {
    hide Removed;
  }
}
