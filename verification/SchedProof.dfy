/** Every step of every CPU keeps the scheduler's invariant. */
module SchedProof {
  import opened SchedSteps

  /** For tasks other than `x`, CPU `c` before and after the step agree with the same tasks. */
  ghost predicate Elsewhere(k: Cpu, k': Cpu, c: CpuId, x: Tid) {
    forall t, g :: t != x && PairOk(k, g, c, t) ==> PairOk(k', g, c, t)
  }

  /** CPUs other than `c` agree with the changed task as they did before. */
  ghost predicate Kept(g: Task, g': Task, c: CpuId, x: Tid) {
    forall e, k :: e != c && PairOk(k, g, e, x) ==> PairOk(k, g', e, x)
  }

  /** The task changed in nothing another CPU relies on. */
  lemma KeptIf(g: Task, g': Task, c: CpuId, x: Tid)
    requires g'.lock == g.lock || (Only(g.lock, c) && Only(g'.lock, c))
    requires g'.oncpu == g.oncpu || (Only(g.oncpu, c) && Only(g'.oncpu, c))
    requires g'.claim == g.claim || (Only(g.claim, c) && Only(g'.claim, c))
    requires g'.queue == g.queue || ((g.queue.OnRun? ==> g.queue.c == c) && (g'.queue.OnRun? ==> g'.queue.c == c))
    requires g'.idleOf == g.idleOf && Only(g.lock, c) && Only(g.oncpu, c) && Only(g.claim, c)
    ensures Kept(g, g', c, x)
  {
    forall e, k | e != c && PairOk(k, g, e, x)
      ensures PairOk(k, g', e, x)
    {
      assert !Locks(k.pc, x) && !On(k.pc, x) && !Claims(k.pc, x);
    }
  }

  /** A step that changes CPU `c`, task `x` and perhaps the place of `x` on the sleep queue. */
  ghost predicate LocalChange(s: State, s': State, c: CpuId, x: Tid) {
    && c in s.cpus && c in s'.cpus && x in s.tasks && x in s'.tasks
    && s'.tasks == s.tasks[x := s'.tasks[x]] && s'.cpus == s.cpus[c := s'.cpus[c]]
    && s'.cpus[c].idle == s.cpus[c].idle && s'.tasks[x].idleOf == s.tasks[x].idleOf
    && Distinct(s'.sleepQueue) && forall t :: t != x ==> (t in s'.sleepQueue <==> t in s.sleepQueue)
  }

  ghost predicate LocalOk(s: State, s': State, c: CpuId, x: Tid)
    requires c in s.cpus && c in s'.cpus && x in s.tasks && x in s'.tasks
  {
    var k, k', g, g' := s.cpus[c], s'.cpus[c], s.tasks[x], s'.tasks[x];
    && Elsewhere(k, k', c, x) && Kept(g, g', c, x) && PairOk(k', g', c, x) && TaskOk(g', x in s'.sleepQueue)
    && k'.current == CurrentOf(k'.pc) && k'.handoff == HandoffOf(k'.pc) && k'.nrRunning == |k'.runQueue| &&
       Distinct(k'.runQueue)
    && (forall t :: t != x && Touches(k'.pc, t) ==> Touches(k.pc, t))
    && (forall t :: t != x && t in k'.runQueue ==> t in k.runQueue)
    && Named(g', s.cpus.Keys)
  }

  lemma LocalPairs(s: State, s': State, c: CpuId, x: Tid)
    requires Inv(s) && LocalChange(s, s', c, x) && LocalOk(s, s', c, x)
    ensures PairsOk(s')
  {
    hide PairOk, TaskOk, LocksOk, Closed, CpusOk, TasksOk, CurrentOf, HandoffOf, Touches;
    forall e, t | e in s'.cpus && t in s'.tasks
      ensures PairOk(s'.cpus[e], s'.tasks[t], e, t)
    {
      assert e in s.cpus && t in s.tasks;
      assert PairOk(s.cpus[e], s.tasks[t], e, t);
    }
  }

  lemma LocalTasks(s: State, s': State, c: CpuId, x: Tid)
    requires Inv(s) && LocalChange(s, s', c, x) && LocalOk(s, s', c, x)
    ensures TasksOk(s') && CpusOk(s')
  {
    hide PairOk, TaskOk, LocksOk, PairsOk, CurrentOf, HandoffOf, Touches, Elsewhere, Kept, Distinct, Closed;
    forall t | t in s'.tasks
      ensures TaskOk(s'.tasks[t], t in s'.sleepQueue)
    {
      assert t in s.tasks && TaskOk(s.tasks[t], t in s.sleepQueue);
    }
    forall e | e in s'.cpus
      ensures CpuOk(s'.cpus[e], e, s'.tasks)
    {
      assert CpuOk(s.cpus[e], e, s.tasks);
    }
  }

  lemma LocalClosed(s: State, s': State, c: CpuId, x: Tid)
    requires Inv(s) && LocalChange(s, s', c, x) && LocalOk(s, s', c, x)
    ensures Closed(s')
  {
    hide PairOk, TaskOk, LocksOk, PairsOk, CurrentOf, HandoffOf, Touches, Elsewhere, Kept, Distinct, CpusOk, TasksOk,
         Named;
    assert s'.cpus.Keys == s.cpus.Keys && s'.tasks.Keys == s.tasks.Keys;
    forall e, t | e in s'.cpus && Touches(s'.cpus[e].pc, t)
      ensures t in s'.tasks
    {
      assert t != x ==> Touches(s.cpus[e].pc, t);
    }
    forall e, t | e in s'.cpus && t in s'.cpus[e].runQueue
      ensures t in s'.tasks
    {
      assert t != x ==> t in s.cpus[e].runQueue;
    }
    forall t | t in s'.sleepQueue
      ensures t in s'.tasks
    {
      assert t != x ==> t in s.sleepQueue;
    }
    forall t | t in s'.tasks
      ensures Named(s'.tasks[t], s'.cpus.Keys)
    {
      assert t in s.tasks && Named(s.tasks[t], s.cpus.Keys);
    }
  }

  /** The sleep locks are as they were, and nobody new sleeps on one. */
  lemma LocksSame(s: State, s': State, c: CpuId, x: Tid)
    requires LocksOk(s) && LocalChange(s, s', c, x) && s'.locks == s.locks
    requires InnerOf(s'.cpus[c].pc) == InnerOf(s.cpus[c].pc)
    requires x in s'.sleepQueue ==> x in s.sleepQueue && s'.tasks[x].chan == s.tasks[x].chan
    requires forall l :: GoingToSleep(s'.cpus[c].pc, l) ==>
             GoingToSleep(s.cpus[c].pc, l) || (l in s.locks && s.locks[l].locked)
    ensures LocksOk(s')
  {
    hide InnerOf, Distinct, GoingToSleep;
    forall l | l in s'.locks && Waited(s', l)
      ensures Waited(s, l)
    {
      var t :| t in s'.tasks && t in s'.sleepQueue && s'.tasks[t].chan == OfLock(l);
      assert t in s.tasks && t in s.sleepQueue && s.tasks[t].chan == OfLock(l);
    }
    hide Waited;
    forall e, l | e in s'.cpus && l in s'.locks && GoingToSleep(s'.cpus[e].pc, l)
      ensures s'.locks[l].locked
    {
      assert GoingToSleep(s.cpus[e].pc, l) || e == c;
    }
  }

  lemma Local(s: State, s': State, c: CpuId, x: Tid)
    requires Inv(s) && LocalChange(s, s', c, x) && LocalOk(s, s', c, x) && LocksOk(s')
    ensures Inv(s')
  {
    hide *;
    LocalPairs(s, s', c, x);
    LocalTasks(s, s', c, x);
    LocalClosed(s, s', c, x);
    InvIs(s');
  }

  lemma InvIs(s: State)
    requires TasksOk(s) && CpusOk(s) && PairsOk(s) && Closed(s) && LocksOk(s)
    ensures Inv(s)
  {
  }

  /** What CPU `c` and task `x` know of themselves and each other. */
  ghost predicate ViewOk(k: Cpu, g: Task, c: CpuId, x: Tid, asleep: bool) {
    && PairOk(k, g, c, x) && TaskOk(g, asleep)
    && k.current == CurrentOf(k.pc) && k.handoff == HandoffOf(k.pc) && k.nrRunning == |k.runQueue| &&
       Distinct(k.runQueue)
  }

  /** A step on one CPU and one task is sound. */
  ghost predicate Sound(k: Cpu, g: Task, k': Cpu, g': Task, c: CpuId, x: Tid, asleep': bool) {
    && ViewOk(k', g', c, x, asleep') && Elsewhere(k, k', c, x) && Kept(g, g', c, x)
    && (forall t :: t != x && Touches(k'.pc, t) ==> Touches(k.pc, t))
    && (forall t :: t != x && t in k'.runQueue ==> t in k.runQueue)
    && k'.idle == k.idle && g'.idleOf == g.idleOf && Renamed(g, g', c)
  }

  /** The changed task names no CPU but `c` anew. */
  ghost predicate Renamed(g: Task, g': Task, c: CpuId) {
    && (g'.lock == g.lock || Only(g'.lock, c)) && (g'.oncpu == g.oncpu || Only(g'.oncpu, c))
    && (g'.claim == g.claim || Only(g'.claim, c)) && (g'.queue == g.queue || (g'.queue.OnRun? ==> g'.queue.c == c))
  }

  lemma ViewIs(s: State, c: CpuId, x: Tid)
    requires Inv(s) && c in s.cpus && x in s.tasks
    ensures ViewOk(s.cpus[c], s.tasks[x], c, x, x in s.sleepQueue)
  {
    hide PairOk, TaskOk;
    assert CpuOk(s.cpus[c], c, s.tasks);
  }

  lemma YieldSound(k: Cpu, g: Task, c: CpuId, x: Tid, asleep: bool)
    requires ViewOk(k, g, c, x, asleep) && k.pc == Run(x) && g.lock == None
    ensures Sound(k, g, k.(pc := Sched(x)), g.(lock := Some(c)), c, x, asleep)
  {
    KeptIf(g, g.(lock := Some(c)), c, x);
  }

  lemma ExitSound(k: Cpu, g: Task, c: CpuId, x: Tid, asleep: bool)
    requires ViewOk(k, g, c, x, asleep) && k.pc == Run(x) && g.lock == None && g.idleOf == None
    ensures Sound(k, g, k.(pc := Sched(x)), g.(lock := Some(c), state := Zombie), c, x, asleep)
  {
    KeptIf(g, g.(lock := Some(c), state := Zombie), c, x);
  }

  lemma DozeSound(k: Cpu, g: Task, c: CpuId, x: Tid, asleep: bool, chan: Chan, retry: Option<LockId>)
    requires ViewOk(k, g, c, x, asleep) && (k.pc == Run(x) || (k.pc.Acquiring? && k.pc.t == x)) && g.lock == None &&
             g.idleOf == None
    ensures Sound(k, g, k.(pc := SleepLink(x, chan)),
                  g.(lock := Some(c), state := Sleeping, chan := chan, retry := retry), c, x, asleep)
  {
    KeptIf(g, g.(lock := Some(c), state := Sleeping, chan := chan, retry := retry), c, x);
  }

  lemma LinkSound(k: Cpu, g: Task, c: CpuId, x: Tid, asleep: bool)
    requires ViewOk(k, g, c, x, asleep) && k.pc.SleepLink? && k.pc.t == x
    ensures Sound(k, g, k.(pc := SleepUnlock(x, k.pc.chan)), g.(queue := OnSleep), c, x, true)
  {
    KeptIf(g, g.(queue := OnSleep), c, x);
  }

  /** Steps that only move the program counter within one task's own code. */
  lemma SleptSound(k: Cpu, g: Task, c: CpuId, x: Tid, asleep: bool)
    requires ViewOk(k, g, c, x, asleep) && k.pc.SleepUnlock? && k.pc.t == x
    ensures Sound(k, g, k.(pc := Sched(x)), g, c, x, asleep)
  {
  }

  lemma SchedSound(k: Cpu, g: Task, c: CpuId, x: Tid, asleep: bool)
    requires ViewOk(k, g, c, x, asleep) && k.pc == Sched(x)
    ensures Sound(k, g, k.(pc := if g.state == Running && x != k.idle then Requeue(x) else Pick(x), current := None), g,
                  c, x, asleep)
  {
    assert g.oncpu == Some(c);
  }

  lemma AppendDistinct(q: seq<Tid>, x: Tid)
    requires Distinct(q) && x !in q
    ensures Distinct(q + [x])
  {
  }

  lemma RequeueSound(k: Cpu, g: Task, c: CpuId, x: Tid, asleep: bool)
    requires ViewOk(k, g, c, x, asleep) && k.pc == Requeue(x)
    ensures Sound(k, g, k.(pc := Pick(x), runQueue := k.runQueue + [x], nrRunning := k.nrRunning + 1),
                  g.(queue := OnRun(c), cpu := c, claim := None), c, x, asleep)
  {
    KeptIf(g, g.(queue := OnRun(c), cpu := c, claim := None), c, x);
    AppendDistinct(k.runQueue, x);
    hide Distinct;
  }

  lemma TailIs(q: seq<Tid>)
    requires Distinct(q) && q != []
    ensures Distinct(q[1..]) && q[0] !in q[1..] && forall t :: t in q <==> t == q[0] || t in q[1..]
  {
    assert q == [q[0]] + q[1..];
  }

  /** The only runnable task is the one that gave up the CPU. */
  lemma PickSelfSound(k: Cpu, g: Task, c: CpuId, x: Tid, asleep: bool)
    requires ViewOk(k, g, c, x, asleep) && k.pc == Pick(x) && k.runQueue != [] && k.runQueue[0] == x
    ensures k.nrRunning > 0
    ensures Sound(k, g, k.(pc := Return(x), current := Some(x), runQueue := k.runQueue[1..],
                           nrRunning := k.nrRunning - 1), g.(queue := Off), c, x, asleep)
  {
    TailIs(k.runQueue);
    hide Distinct;
    KeptIf(g, g.(queue := Off), c, x);
  }

  lemma PickIdleSelfSound(k: Cpu, g: Task, c: CpuId, x: Tid, asleep: bool)
    requires ViewOk(k, g, c, x, asleep) && k.pc == Pick(x) && k.runQueue == [] && k.idle == x
    ensures Sound(k, g, k.(pc := Return(x), current := Some(x)), g, c, x, asleep)
  {
  }

  /** Another task from this CPU's queue: nobody else can have it. */
  lemma PickOtherSound(k: Cpu, g: Task, c: CpuId, x: Tid, asleep: bool)
    requires ViewOk(k, g, c, x, asleep) && k.pc.Pick? && k.pc.t != x && k.runQueue != [] && k.runQueue[0] == x
    ensures k.nrRunning > 0 && g.cpu == c && g.oncpu == None
    ensures Sound(k, g, k.(pc := SwitchTo(k.pc.t, x), handoff := Some(k.pc.t), runQueue := k.runQueue[1..],
                           nrRunning := k.nrRunning - 1),
                  g.(queue := Off, claim := Some(c)), c, x, asleep)
  {
    TailIs(k.runQueue);
    hide Distinct;
    KeptIf(g, g.(queue := Off, claim := Some(c)), c, x);
  }

  lemma PickIdleSound(k: Cpu, g: Task, c: CpuId, x: Tid, asleep: bool)
    requires ViewOk(k, g, c, x, asleep) && k.pc.Pick? && k.pc.t != x && k.runQueue == [] && k.idle == x
    ensures Sound(k, g, k.(pc := SwitchTo(k.pc.t, x), handoff := Some(k.pc.t)), g.(claim := Some(c)), c, x, asleep)
  {
    KeptIf(g, g.(claim := Some(c)), c, x);
  }

  lemma SwitchSound(k: Cpu, g: Task, c: CpuId, x: Tid, asleep: bool)
    requires ViewOk(k, g, c, x, asleep) && k.pc.SwitchTo? && k.pc.n == x
    ensures g.oncpu == None && g.saved && g.lock == None
    ensures Sound(k, g, k.(pc := Leaving(k.pc.t, x), current := Some(x)),
                  g.(lock := Some(c), oncpu := Some(c), claim := None, saved := false), c, x, asleep)
  {
    KeptIf(g, g.(lock := Some(c), oncpu := Some(c), claim := None, saved := false), c, x);
  }

  lemma LeaveSound(k: Cpu, g: Task, c: CpuId, x: Tid, asleep: bool)
    requires ViewOk(k, g, c, x, asleep) && k.pc.Leaving? && k.pc.t == x
    ensures Sound(k, g, k.(pc := Clear(x, k.pc.n)), g.(saved := true), c, x, asleep)
  {
    KeptSame(g, g.(saved := true), c, x);
  }

  /** A change that no other CPU can see at all. */
  lemma KeptSame(g: Task, g': Task, c: CpuId, x: Tid)
    requires g' == g.(saved := g'.saved, retry := g'.retry) && (g.saved ==> g'.saved)
    ensures Kept(g, g', c, x)
  {
  }

  lemma ClearSound(k: Cpu, g: Task, c: CpuId, x: Tid, asleep: bool, parent: Option<Tid>)
    requires ViewOk(k, g, c, x, asleep) && k.pc.Clear? && k.pc.t == x
    ensures Sound(k, g, k.(pc := Unlock(x, k.pc.n, parent)), g.(oncpu := None), c, x, asleep)
  {
    KeptIf(g, g.(oncpu := None), c, x);
  }

  lemma UnlockSound(k: Cpu, g: Task, c: CpuId, x: Tid, asleep: bool)
    requires ViewOk(k, g, c, x, asleep) && k.pc.Unlock? && k.pc.t == x
    ensures Sound(k, g, k.(pc := DropHandoff(x, k.pc.n, k.pc.parent)), g.(lock := None), c, x, asleep)
  {
    KeptIf(g, g.(lock := None), c, x);
  }

  lemma HandoffSound(k: Cpu, g: Task, c: CpuId, x: Tid, asleep: bool)
    requires ViewOk(k, g, c, x, asleep) && k.pc.DropHandoff? && k.pc.n == x
    ensures Sound(k, g, k.(pc := if k.pc.parent.Some? then WakeParent(x, k.pc.parent.value)
                           else Return(x), handoff := None), g, c, x, asleep)
  {
  }

  lemma NoParentSound(k: Cpu, g: Task, c: CpuId, x: Tid, asleep: bool)
    requires ViewOk(k, g, c, x, asleep) && k.pc.WakeParent? && k.pc.n == x
    ensures Sound(k, g, k.(pc := Return(x)), g, c, x, asleep)
  {
  }

  lemma ReturnSound(k: Cpu, g: Task, c: CpuId, x: Tid, asleep: bool)
    requires ViewOk(k, g, c, x, asleep) && k.pc == Return(x)
    ensures Sound(k, g, k.(pc := Run(x)), g.(lock := None, chan := NoChan), c, x, asleep)
  {
    KeptIf(g, g.(lock := None, chan := NoChan), c, x);
  }

  /** A sleeper whose lock is free has left its CPU, context and all. */
  lemma WakeSound(k: Cpu, g: Task, c: CpuId, x: Tid, back: Back)
    requires ViewOk(k, g, c, x, true) && g.lock == None
    requires (k.pc.Run? && back == ToRun(k.pc.t)) || (k.pc.WakeParent? && back == ToReturn(k.pc.n)) ||
             (k.pc.Releasing? && back == ToRelease(k.pc.t, k.pc.l))
    ensures g.oncpu == None && g.saved
    ensures Sound(k, g, k.(pc := Join(x, back)), g.(state := Running, chan := NoChan, queue := Off, claim := Some(c)),
                  c, x, false)
  {
    KeptIf(g, g.(state := Running, chan := NoChan, queue := Off, claim := Some(c)), c, x);
  }

  lemma JoinHereSound(k: Cpu, g: Task, c: CpuId, x: Tid, asleep: bool)
    requires ViewOk(k, g, c, x, asleep) && k.pc.Join? && k.pc.p == x
    ensures g.state == Running && g.queue == Off && g.oncpu == None
    ensures Sound(k, g, k.(pc := AfterJoin(k.pc.back), runQueue := k.runQueue + [x], nrRunning := k.nrRunning + 1),
                  g.(queue := OnRun(c), cpu := c, claim := None), c, x, asleep)
  {
    KeptIf(g, g.(queue := OnRun(c), cpu := c, claim := None), c, x);
    AppendDistinct(k.runQueue, x);
    hide Distinct;
  }

  lemma LockEnterSound(k: Cpu, g: Task, c: CpuId, x: Tid, asleep: bool, pc': Pc, retry: Option<LockId>)
    requires ViewOk(k, g, c, x, asleep) && k.pc == Run(x) && g.idleOf == None && (pc'.Acquiring? || pc'.Releasing?) &&
             pc'.t == x
    ensures Sound(k, g, k.(pc := pc'), g.(retry := retry), c, x, asleep)
  {
    KeptSame(g, g.(retry := retry), c, x);
  }

  lemma LockLeaveSound(k: Cpu, g: Task, c: CpuId, x: Tid, asleep: bool)
    requires ViewOk(k, g, c, x, asleep) && (k.pc.Acquiring? || k.pc.Releasing?) && k.pc.t == x
    ensures Sound(k, g, k.(pc := Run(x)), g, c, x, asleep)
  {
  }

  // From one CPU and one task to the whole state.

  lemma NamedKept(s: State, c: CpuId, x: Tid, g': Task)
    requires Closed(s) && c in s.cpus && x in s.tasks && Renamed(s.tasks[x], g', c)
    ensures Named(g', s.cpus.Keys)
  {
    hide Touches, Distinct;
    assert Named(s.tasks[x], s.cpus.Keys);
  }

  lemma SoundLocal(s: State, s': State, c: CpuId, x: Tid)
    requires Closed(s) && LocalChange(s, s', c, x)
    requires Sound(s.cpus[c], s.tasks[x], s'.cpus[c], s'.tasks[x], c, x, x in s'.sleepQueue)
    ensures LocalOk(s, s', c, x)
  {
    hide PairOk, TaskOk, Elsewhere, Kept, Touches, CurrentOf, HandoffOf, Distinct, Named, Closed;
    NamedKept(s, c, x, s'.tasks[x]);
  }

  lemma SoundKeeps(s: State, s': State, c: CpuId, x: Tid)
    requires Inv(s) && LocalChange(s, s', c, x) && LocksOk(s')
    requires Sound(s.cpus[c], s.tasks[x], s'.cpus[c], s'.tasks[x], c, x, x in s'.sleepQueue)
    ensures Inv(s')
  {
    hide TasksOk, CpusOk, PairsOk, Closed, LocksOk, LocalChange, Sound, LocalOk;
    assert Closed(s);
    SoundLocal(s, s', c, x);
    Local(s, s', c, x);
  }

  lemma SetLocal(s: State, c: CpuId, k': Cpu, x: Tid, g': Task)
    requires Closed(s) && c in s.cpus && x in s.tasks && k'.idle == s.cpus[c].idle && g'.idleOf == s.tasks[x].idleOf
    ensures LocalChange(s, Set(s, c, k', x, g'), c, x)
  {
    hide Touches, Distinct, Named;
  }

  /** A step that touches neither the sleep queue nor a sleep lock. */
  lemma SetKeeps(s: State, c: CpuId, k': Cpu, x: Tid, g': Task)
    requires Inv(s) && c in s.cpus && x in s.tasks
    requires Sound(s.cpus[c], s.tasks[x], k', g', c, x, x in s.sleepQueue)
    requires InnerOf(k'.pc) == InnerOf(s.cpus[c].pc) && (x in s.sleepQueue ==> g'.chan == s.tasks[x].chan)
    requires forall l :: GoingToSleep(k'.pc, l) ==> GoingToSleep(s.cpus[c].pc, l) || (l in s.locks && s.locks[l].locked)
    ensures Inv(Set(s, c, k', x, g'))
  {
    var s' := Set(s, c, k', x, g');
    assert k'.idle == s.cpus[c].idle && g'.idleOf == s.tasks[x].idleOf;
    hide Sound, InnerOf, GoingToSleep;
    SetLocal(s, c, k', x, g');
    assert LocksOk(s') by {
      hide TasksOk, CpusOk, PairsOk, Closed;
      LocksSame(s, s', c, x);
    }
    hide Inv, LocksOk;
    SoundKeeps(s, s', c, x);
  }

  /** A step that changes one sleep lock. */
  lemma LocksAt(s: State, s': State, c: CpuId, l: LockId)
    requires LocksOk(s) && c in s.cpus && c in s'.cpus && s'.cpus == s.cpus[c := s'.cpus[c]] && l in s.locks &&
             l in s'.locks
    requires s'.locks == s.locks[l := s'.locks[l]]
    requires InnerOf(s.cpus[c].pc) == None || InnerOf(s.cpus[c].pc) == Some(l)
    requires InnerOf(s'.cpus[c].pc) == None || InnerOf(s'.cpus[c].pc) == Some(l)
    requires Only(s.locks[l].inner, c) && Only(s'.locks[l].inner, c) &&
             (s'.locks[l].inner == Some(c) <==> InnerOf(s'.cpus[c].pc) == Some(l))
    requires s'.locks[l].locked <==> s'.locks[l].holder.Some?
    requires s'.locks[l].inner == None && !s'.locks[l].locked ==> !Waited(s', l)
    requires forall m :: m != l && Waited(s', m) ==> Waited(s, m)
    requires GoingToSleep(s'.cpus[c].pc, l) ==> s'.locks[l].locked
    ensures LocksOk(s')
  {
    hide Waited, InnerOf;
    assert InnerPairs(s');
    assert InnerClosed(s');
    assert FreeUnwaited(s');
    hide InnerClosed, FreeUnwaited;
    forall e, m | e in s'.cpus && m in s'.locks && GoingToSleep(s'.cpus[e].pc, m)
      ensures s'.locks[m].locked
    {
      SleeperInner(s'.cpus[e].pc, m);
      if e != c {
        assert GoingToSleep(s.cpus[e].pc, m);
      }
    }
  }

  lemma SleeperInner(pc: Pc, l: LockId)
    requires GoingToSleep(pc, l)
    ensures InnerOf(pc) == Some(l)
  {
  }

  // The steps of the switch.

  lemma SwitchKeeps(s: State, c: CpuId, d: CpuId)
    requires Inv(s) && Enabled(s, c, Go(d))
    requires var pc := s.cpus[c].pc;
             pc.Sched? || pc.SwitchTo? || pc.Leaving? || pc.Clear? || pc.Unlock? || pc.DropHandoff? || pc.Return?
    ensures Inv(GoStep(s, c, d))
  {
    hide Inv, Sound, ViewOk, LocksOk;
    var k := s.cpus[c];
    match k.pc
    case Sched(t) =>
      ViewIs(s, c, t);
      SchedSound(k, s.tasks[t], c, t, t in s.sleepQueue);
      SetKeeps(s, c, k.(pc := if s.tasks[t].state == Running && t != k.idle then Requeue(t)
                        else Pick(t), current := None), t, s.tasks[t]);
    case SwitchTo(t, n) =>
      ViewIs(s, c, n);
      SwitchSound(k, s.tasks[n], c, n, n in s.sleepQueue);
      SetKeeps(s, c, k.(pc := Leaving(t, n), current := Some(n)), n,
               s.tasks[n].(lock := Some(c), oncpu := Some(c), claim := None, saved := false));
    case Leaving(t, n) =>
      ViewIs(s, c, t);
      LeaveSound(k, s.tasks[t], c, t, t in s.sleepQueue);
      SetKeeps(s, c, k.(pc := Clear(t, n)), t, s.tasks[t].(saved := true));
    case Clear(t, n) =>
      ViewIs(s, c, t);
      var parent := if s.tasks[t].state == Zombie then s.tasks[t].parent else None;
      ClearSound(k, s.tasks[t], c, t, t in s.sleepQueue, parent);
      SetKeeps(s, c, k.(pc := Unlock(t, n, parent)), t, s.tasks[t].(oncpu := None));
    case Unlock(t, n, parent) =>
      ViewIs(s, c, t);
      UnlockSound(k, s.tasks[t], c, t, t in s.sleepQueue);
      SetKeeps(s, c, k.(pc := DropHandoff(t, n, parent)), t, s.tasks[t].(lock := None));
    case DropHandoff(t, n, parent) =>
      ViewIs(s, c, n);
      HandoffSound(k, s.tasks[n], c, n, n in s.sleepQueue);
      SetKeeps(s, c, k.(pc := if parent.Some? then WakeParent(n, parent.value) else Return(n), handoff := None), n,
               s.tasks[n]);
    case Return(n) =>
      ViewIs(s, c, n);
      ActiveAwake(k, s.tasks[n], c, n, n in s.sleepQueue);
      ReturnSound(k, s.tasks[n], c, n, n in s.sleepQueue);
      SetKeeps(s, c, k.(pc := Run(n)), n, s.tasks[n].(lock := None, chan := NoChan));
  }

  lemma ActiveAwake(k: Cpu, g: Task, c: CpuId, x: Tid, asleep: bool)
    requires ViewOk(k, g, c, x, asleep) && Active(k.pc, x)
    ensures !asleep
  {
  }

  lemma PickKeeps(s: State, c: CpuId, t: Tid)
    requires Inv(s) && Enabled(s, c, Go(0)) && s.cpus[c].pc == Pick(t)
    ensures Inv(PickStep(s, c, t))
  {
    hide Inv, Sound, ViewOk, LocksOk;
    var k := s.cpus[c];
    if k.runQueue == [] {
      ViewIs(s, c, k.idle);
      if k.idle == t {
        PickIdleSelfSound(k, s.tasks[t], c, t, t in s.sleepQueue);
        SetKeeps(s, c, k.(pc := Return(t), current := Some(t)), t, s.tasks[t]);
      } else {
        PickIdleSound(k, s.tasks[k.idle], c, k.idle, k.idle in s.sleepQueue);
        SetKeeps(s, c, k.(pc := SwitchTo(t, k.idle), handoff := Some(t)), k.idle, s.tasks[k.idle].(claim := Some(c)));
      }
    } else {
      var n := k.runQueue[0];
      ViewIs(s, c, n);
      if n == t {
        PickSelfSound(k, s.tasks[t], c, t, t in s.sleepQueue);
        SetKeeps(s, c, k.(pc := Return(t), current := Some(t), runQueue := k.runQueue[1..],
                          nrRunning := k.nrRunning - 1), t, s.tasks[t].(queue := Off));
      } else {
        PickOtherSound(k, s.tasks[n], c, n, n in s.sleepQueue);
        SetKeeps(s, c, k.(pc := SwitchTo(t, n), handoff := Some(t), runQueue := k.runQueue[1..],
                          nrRunning := k.nrRunning - 1), n, s.tasks[n].(queue := Off, claim := Some(c)));
      }
    }
  }

  // task_join.

  lemma QueuedHere(s: State, c: CpuId, p: Tid)
    requires Inv(s) && c in s.cpus && p in s.tasks
    requires s.cpus[c].pc == Requeue(p) || (s.cpus[c].pc.Join? && s.cpus[c].pc.p == p)
    ensures Inv(Queued(s, c, if s.cpus[c].pc.Requeue? then Pick(p) else AfterJoin(s.cpus[c].pc.back), p, c))
  {
    hide Inv, Sound, ViewOk, LocksOk;
    var k := s.cpus[c];
    ViewIs(s, c, p);
    var pc' := if k.pc.Requeue? then Pick(p) else AfterJoin(k.pc.back);
    if k.pc.Requeue? {
      RequeueSound(k, s.tasks[p], c, p, p in s.sleepQueue);
    } else {
      JoinHereSound(k, s.tasks[p], c, p, p in s.sleepQueue);
    }
    var k' := k.(pc := pc', runQueue := k.runQueue + [p], nrRunning := k.nrRunning + 1);
    var g' := s.tasks[p].(queue := OnRun(c), cpu := c, claim := None);
    SetKeeps(s, c, k', p, g');
    assert Queued(s, c, pc', p, c) == Set(s, c, k', p, g');
  }

  lemma RemovedIs(q: seq<Tid>, x: Tid)
    requires Distinct(q)
    ensures Distinct(Removed(q, x)) && forall t :: t in Removed(q, x) <==> t in q && t != x
  {
    if |q| > 0 {
      TailIs(q);
      RemovedIs(q[1..], x);
    }
  }

  /** A task placed on another CPU's queue. */
  ghost predicate Sent(s: State, c: CpuId, d: CpuId, p: Tid) {
    c in s.cpus && d in s.cpus && d != c && p in s.tasks && s.cpus[c].pc.Join? && s.cpus[c].pc.p == p
  }

  lemma SentSound(k: Cpu, kd: Cpu, g: Task, c: CpuId, d: CpuId, x: Tid, asleep: bool)
    requires ViewOk(k, g, c, x, asleep) && ViewOk(kd, g, d, x, asleep) && c != d && k.pc.Join? && k.pc.p == x
    ensures var k', kd', g' := k.(pc := AfterJoin(k.pc.back)),
            kd.(runQueue := kd.runQueue + [x], nrRunning := kd.nrRunning + 1),
                g.(queue := OnRun(d), cpu := d, claim := None);
            ViewOk(k', g', c, x, asleep) && ViewOk(kd', g', d, x, asleep) && x !in kd.runQueue
  {
    AppendDistinct(kd.runQueue, x);
    hide Distinct;
  }

  lemma SentElsewhere(k: Cpu, kd: Cpu, g: Task, c: CpuId, d: CpuId, x: Tid, asleep: bool)
    requires ViewOk(k, g, c, x, asleep) && ViewOk(kd, g, d, x, asleep) && c != d && k.pc.Join? && k.pc.p == x
    ensures Elsewhere(k, k.(pc := AfterJoin(k.pc.back)), c, x)
    ensures Elsewhere(kd, kd.(runQueue := kd.runQueue + [x], nrRunning := kd.nrRunning + 1), d, x)
    ensures forall e, ke :: e != c && e != d && PairOk(ke, g, e, x) ==>
            PairOk(ke, g.(queue := OnRun(d), cpu := d, claim := None), e, x)
  {
    forall e, ke | e != c && e != d && PairOk(ke, g, e, x)
      ensures PairOk(ke, g.(queue := OnRun(d), cpu := d, claim := None), e, x)
    {
      assert !Locks(ke.pc, x) && !On(ke.pc, x) && !Claims(ke.pc, x);
    }
  }

  /** CPU `c` has moved on, and task `p` is at the tail of the queue of CPU `d`. */
  ghost predicate SentChange(s: State, s': State, c: CpuId, d: CpuId, p: Tid) {
    && c in s.cpus && d in s.cpus && c != d && p in s.tasks && c in s'.cpus && d in s'.cpus && p in s'.tasks
    && s'.tasks == s.tasks[p := s'.tasks[p]] && s'.cpus == s.cpus[c := s'.cpus[c]][d := s'.cpus[d]]
    && s'.locks == s.locks && s'.sleepQueue == s.sleepQueue
    && s'.tasks[p] == s.tasks[p].(queue := OnRun(d), cpu := d, claim := None)
    && s'.cpus[d] == s.cpus[d].(runQueue := s.cpus[d].runQueue + [p], nrRunning := s.cpus[d].nrRunning + 1)
    && s'.cpus[c] == s.cpus[c].(pc := s'.cpus[c].pc)
  }

  lemma SentPairs(s: State, s': State, c: CpuId, d: CpuId, p: Tid)
    requires PairsOk(s) && SentChange(s, s', c, d, p)
    requires PairOk(s'.cpus[c], s'.tasks[p], c, p) && PairOk(s'.cpus[d], s'.tasks[p], d, p)
    requires Elsewhere(s.cpus[c], s'.cpus[c], c, p) && Elsewhere(s.cpus[d], s'.cpus[d], d, p)
    requires forall e, k :: e != c && e != d && PairOk(k, s.tasks[p], e, p) ==> PairOk(k, s'.tasks[p], e, p)
    ensures PairsOk(s')
  {
    hide PairOk;
    forall e, t | e in s'.cpus && t in s'.tasks
      ensures PairOk(s'.cpus[e], s'.tasks[t], e, t)
    {
      assert PairOk(s.cpus[e], s.tasks[t], e, t);
    }
  }

  lemma SentTasks(s: State, s': State, c: CpuId, d: CpuId, p: Tid)
    requires TasksOk(s) && CpusOk(s) && SentChange(s, s', c, d, p)
    requires TaskOk(s'.tasks[p], p in s.sleepQueue) && Distinct(s'.cpus[d].runQueue)
    requires CurrentOf(s'.cpus[c].pc) == CurrentOf(s.cpus[c].pc) && HandoffOf(s'.cpus[c].pc) == HandoffOf(s.cpus[c].pc)
    ensures TasksOk(s') && CpusOk(s')
  {
    hide TaskOk, Distinct, CurrentOf, HandoffOf;
    forall t | t in s'.tasks
      ensures TaskOk(s'.tasks[t], t in s'.sleepQueue)
    {
      assert TaskOk(s.tasks[t], t in s.sleepQueue);
    }
    forall e | e in s'.cpus
      ensures CpuOk(s'.cpus[e], e, s'.tasks)
    {
      assert CpuOk(s.cpus[e], e, s.tasks);
    }
  }

  lemma SentClosed(s: State, s': State, c: CpuId, d: CpuId, p: Tid)
    requires Closed(s) && SentChange(s, s', c, d, p)
    requires forall t :: Touches(s'.cpus[c].pc, t) ==> Touches(s.cpus[c].pc, t)
    ensures Closed(s')
  {
    hide Distinct, Touches;
    assert s'.cpus.Keys == s.cpus.Keys && s'.tasks.Keys == s.tasks.Keys;
    forall e, t | e in s'.cpus && Touches(s'.cpus[e].pc, t)
      ensures t in s'.tasks
    {
      assert Touches(s.cpus[e].pc, t);
    }
    forall e, t | e in s'.cpus && t in s'.cpus[e].runQueue
      ensures t in s'.tasks
    {
      assert t == p || t in s.cpus[e].runQueue;
    }
    forall t | t in s'.tasks
      ensures Named(s'.tasks[t], s'.cpus.Keys)
    {
      assert Named(s.tasks[t], s.cpus.Keys);
    }
  }

  lemma SentLocks(s: State, s': State, c: CpuId, d: CpuId, p: Tid)
    requires LocksOk(s) && SentChange(s, s', c, d, p)
    requires InnerOf(s'.cpus[c].pc) == InnerOf(s.cpus[c].pc) && forall l :: !GoingToSleep(s'.cpus[c].pc, l)
    ensures LocksOk(s')
  {
    hide InnerOf, GoingToSleep;
    forall l | l in s'.locks && Waited(s', l)
      ensures Waited(s, l)
    {
      var t :| t in s'.tasks && t in s'.sleepQueue && s'.tasks[t].chan == OfLock(l);
      assert t in s.tasks && t in s.sleepQueue && s.tasks[t].chan == OfLock(l);
    }
    hide Waited;
    assert InnerPairs(s') && InnerClosed(s') && FreeUnwaited(s');
    hide InnerPairs, InnerClosed, FreeUnwaited;
    forall e, l | e in s'.cpus && l in s'.locks && GoingToSleep(s'.cpus[e].pc, l)
      ensures s'.locks[l].locked
    {
      assert GoingToSleep(s.cpus[e].pc, l);
    }
  }

  lemma AfterJoinIs(pc: Pc)
    requires pc.Join?
    ensures InnerOf(AfterJoin(pc.back)) == InnerOf(pc) && forall l :: !GoingToSleep(AfterJoin(pc.back), l)
    ensures forall t :: Touches(AfterJoin(pc.back), t) ==> Touches(pc, t)
    ensures CurrentOf(AfterJoin(pc.back)) == CurrentOf(pc) && HandoffOf(AfterJoin(pc.back)) == HandoffOf(pc)
  {
  }

  lemma SentIs(s: State, c: CpuId, d: CpuId, p: Tid)
    requires Sent(s, c, d, p)
    ensures SentChange(s, Queued(s, c, AfterJoin(s.cpus[c].pc.back), p, d), c, d, p)
    ensures Queued(s, c, AfterJoin(s.cpus[c].pc.back), p, d).cpus[c].pc == AfterJoin(s.cpus[c].pc.back)
  {
    hide AfterJoin;
  }

  lemma SentKeeps(s: State, c: CpuId, d: CpuId, p: Tid)
    requires Inv(s) && Sent(s, c, d, p)
    ensures Inv(Queued(s, c, AfterJoin(s.cpus[c].pc.back), p, d))
  {
    ViewIs(s, c, p);
    ViewIs(s, d, p);
    var s' := Queued(s, c, AfterJoin(s.cpus[c].pc.back), p, d);
    SentIs(s, c, d, p);
    hide Queued, PairOk, TaskOk, TasksOk, CpusOk, PairsOk, Closed, LocksOk, InnerOf, GoingToSleep, Touches, Elsewhere,
         Distinct;
    SentSound(s.cpus[c], s.cpus[d], s.tasks[p], c, d, p, p in s.sleepQueue);
    SentElsewhere(s.cpus[c], s.cpus[d], s.tasks[p], c, d, p, p in s.sleepQueue);
    AfterJoinIs(s.cpus[c].pc);
    hide AfterJoin, CurrentOf, HandoffOf;
    SentPairs(s, s', c, d, p);
    SentTasks(s, s', c, d, p);
    SentClosed(s, s', c, d, p);
    SentLocks(s, s', c, d, p);
  }

  lemma JoinKeeps(s: State, c: CpuId, d: CpuId, p: Tid)
    requires Inv(s) && c in s.cpus && d in s.cpus && p in s.tasks && s.cpus[c].pc.Join? && s.cpus[c].pc.p == p
    ensures Inv(Queued(s, c, AfterJoin(s.cpus[c].pc.back), p, d))
  {
    hide Inv, Queued, AfterJoin;
    if d == c {
      QueuedHere(s, c, p);
    } else {
      SentKeeps(s, c, d, p);
    }
  }

  // Tasks made and reaped.

  lemma Untouched(k: Cpu, g: Task, e: CpuId, p: Tid)
    requires !Touches(k.pc, p) && p !in k.runQueue && p != k.idle
    requires g.lock != Some(e) && g.oncpu != Some(e) && g.claim != Some(e) && g.queue != OnRun(e) && g.idleOf != Some(e)
    ensures PairOk(k, g, e, p)
  {
  }

  lemma CreatePair(k: Cpu, c: CpuId, t: Tid, p: Tid)
    requires k.pc == Run(t) && t != p && p !in k.runQueue && p != k.idle
    ensures PairOk(k.(pc := Join(p, ToRun(t))), NewTask(c, t), c, p)
    ensures Elsewhere(k, k.(pc := Join(p, ToRun(t))), c, p)
  {
  }

  function Created(s: State, c: CpuId, t: Tid, p: Tid): State
    requires c in s.cpus
  {
    Set(s, c, s.cpus[c].(pc := Join(p, ToRun(t))), p, NewTask(c, t))
  }

  lemma CreatePairs(s: State, c: CpuId, t: Tid, p: Tid)
    requires PairsOk(s) && Closed(s) && CpusOk(s) && c in s.cpus && s.cpus[c].pc == Run(t) && t in s.tasks &&
             p !in s.tasks
    ensures PairsOk(Created(s, c, t, p))
  {
    hide PairOk, TaskOk, Touches, Distinct, NewTask, CurrentOf, HandoffOf, Named;
    var s' := Created(s, c, t, p);
    assert CpuOk(s.cpus[c], c, s.tasks);
    CreatePair(s.cpus[c], c, t, p);
    forall e, u | e in s'.cpus && u in s'.tasks
      ensures PairOk(s'.cpus[e], s'.tasks[u], e, u)
    {
      if u == p && e != c {
        assert CpuOk(s.cpus[e], e, s.tasks);
        NewUntouched(s.cpus[e], c, e, t, p);
      } else if u != p {
        assert PairOk(s.cpus[e], s.tasks[u], e, u);
      }
    }
  }

  lemma NewUntouched(k: Cpu, c: CpuId, e: CpuId, t: Tid, p: Tid)
    requires !Touches(k.pc, p) && p !in k.runQueue && p != k.idle && e != c
    ensures PairOk(k, NewTask(c, t), e, p)
  {
    hide PairOk;
    Untouched(k, NewTask(c, t), e, p);
  }

  lemma CreateTasks(s: State, c: CpuId, t: Tid, p: Tid)
    requires TasksOk(s) && Closed(s) && c in s.cpus && s.cpus[c].pc == Run(t) && t in s.tasks && p !in s.tasks
    ensures TasksOk(Created(s, c, t, p))
  {
    hide TaskOk, Touches, Distinct, NewTask, Named;
    var s' := Created(s, c, t, p);
    NewTaskOk(c, t);
    forall u | u in s'.tasks
      ensures TaskOk(s'.tasks[u], u in s'.sleepQueue)
    {
      if u != p {
        assert TaskOk(s.tasks[u], u in s.sleepQueue);
      }
    }
  }

  lemma NewTaskOk(c: CpuId, t: Tid)
    ensures TaskOk(NewTask(c, t), false)
  {
  }

  lemma CreateCpus(s: State, c: CpuId, t: Tid, p: Tid)
    requires CpusOk(s) && c in s.cpus && s.cpus[c].pc == Run(t) && p !in s.tasks
    ensures CpusOk(Created(s, c, t, p))
  {
    hide Distinct, NewTask;
    var s' := Created(s, c, t, p);
    forall e | e in s'.cpus
      ensures CpuOk(s'.cpus[e], e, s'.tasks)
    {
      assert CpuOk(s.cpus[e], e, s.tasks);
    }
  }

  lemma CreateClosed(s: State, c: CpuId, t: Tid, p: Tid)
    requires Closed(s) && c in s.cpus && s.cpus[c].pc == Run(t) && t in s.tasks && p !in s.tasks
    ensures Closed(Set(s, c, s.cpus[c].(pc := Join(p, ToRun(t))), p, NewTask(c, t)))
  {
    var s' := Set(s, c, s.cpus[c].(pc := Join(p, ToRun(t))), p, NewTask(c, t));
    assert s'.cpus.Keys == s.cpus.Keys;
    hide Distinct;
    forall e, u | e in s'.cpus && Touches(s'.cpus[e].pc, u)
      ensures u in s'.tasks
    {
      if e != c {
        assert Touches(s.cpus[e].pc, u);
      }
    }
    forall u | u in s'.tasks
      ensures Named(s'.tasks[u], s'.cpus.Keys)
    {
      if u != p {
        assert Named(s.tasks[u], s.cpus.Keys);
      }
    }
  }

  lemma CreateLocks(s: State, c: CpuId, t: Tid, p: Tid)
    requires LocksOk(s) && Closed(s) && c in s.cpus && s.cpus[c].pc == Run(t) && t in s.tasks && p !in s.tasks
    ensures LocksOk(Set(s, c, s.cpus[c].(pc := Join(p, ToRun(t))), p, NewTask(c, t)))
  {
    var s' := Set(s, c, s.cpus[c].(pc := Join(p, ToRun(t))), p, NewTask(c, t));
    hide Distinct, Touches, Named;
    forall l | l in s'.locks && Waited(s', l)
      ensures Waited(s, l)
    {
      var u :| u in s'.tasks && u in s'.sleepQueue && s'.tasks[u].chan == OfLock(l);
      assert u in s.tasks && u in s.sleepQueue && s.tasks[u].chan == OfLock(l);
    }
    hide Waited, Closed;
    assert InnerPairs(s') && InnerClosed(s') && FreeUnwaited(s');
    hide InnerPairs, InnerClosed, FreeUnwaited;
    forall e, l | e in s'.cpus && l in s'.locks && GoingToSleep(s'.cpus[e].pc, l)
      ensures s'.locks[l].locked
    {
      assert GoingToSleep(s.cpus[e].pc, l);
    }
  }

  /** A zombie that is off its CPU with its lock free: no CPU uses it any more. */
  lemma ReapedUntouched(s: State, p: Tid, e: CpuId)
    requires Inv(s) && p in s.tasks && s.tasks[p].state == Zombie && s.tasks[p].oncpu == None &&
             s.tasks[p].lock == None && e in s.cpus
    ensures !Touches(s.cpus[e].pc, p) && p !in s.cpus[e].runQueue && p !in s.sleepQueue && s.cpus[e].idle != p &&
            s.cpus[e].current != Some(p)
  {
    ViewIs(s, e, p);
    CurrentIsOn(s.cpus[e].pc);
  }

  lemma CurrentIsOn(pc: Pc)
    ensures CurrentOf(pc).Some? ==> On(pc, CurrentOf(pc).value)
  {
  }

  ghost predicate Loose(s: State, p: Tid) {
    p !in s.sleepQueue &&
        forall e :: e in s.cpus ==> !Touches(s.cpus[e].pc, p) && p !in s.cpus[e].runQueue && s.cpus[e].idle != p
  }

  lemma ReapLocks(s: State, p: Tid)
    requires LocksOk(s)
    ensures LocksOk(s.(tasks := s.tasks - {p}))
  {
    hide InnerOf, GoingToSleep;
    var s' := s.(tasks := s.tasks - {p});
    forall l | l in s'.locks && Waited(s', l)
      ensures Waited(s, l)
    {
      var u :| u in s'.tasks && u in s'.sleepQueue && s'.tasks[u].chan == OfLock(l);
      assert u in s.tasks && u in s.sleepQueue && s.tasks[u].chan == OfLock(l);
    }
  }

  lemma ReapRest(s: State, p: Tid)
    requires TasksOk(s) && CpusOk(s) && PairsOk(s) && Closed(s) && Loose(s, p)
    ensures var s' := s.(tasks := s.tasks - {p}); TasksOk(s') && CpusOk(s') && PairsOk(s') && Closed(s')
  {
    hide PairOk, TaskOk, Touches, Distinct, Named;
    var s' := s.(tasks := s.tasks - {p});
    forall e | e in s'.cpus
      ensures CpuOk(s'.cpus[e], e, s'.tasks)
    {
      assert CpuOk(s.cpus[e], e, s.tasks);
    }
  }

  lemma ReapKeeps(s: State, p: Tid)
    requires Inv(s) && p in s.tasks && s.tasks[p].state == Zombie && s.tasks[p].oncpu == None && s.tasks[p].lock == None
    ensures Inv(s.(tasks := s.tasks - {p}))
  {
    assert p !in s.sleepQueue by { assert TaskOk(s.tasks[p], p in s.sleepQueue); }
    hide TasksOk, CpusOk, PairsOk, Closed, LocksOk, Touches;
    forall e | e in s.cpus
      ensures !Touches(s.cpus[e].pc, p) && p !in s.cpus[e].runQueue && s.cpus[e].idle != p
    {
      ReapedUntouched(s, p, e);
    }
    ReapLocks(s, p);
    ReapRest(s, p);
  }

  lemma CreateKeeps(s: State, c: CpuId, t: Tid, p: Tid)
    requires Inv(s) && c in s.cpus && s.cpus[c].pc == Run(t) && t in s.tasks && p !in s.tasks
    ensures Inv(Set(s, c, s.cpus[c].(pc := Join(p, ToRun(t))), p, NewTask(c, t)))
  {
    hide TasksOk, CpusOk, PairsOk, Closed, LocksOk, Set, NewTask;
    CreatePairs(s, c, t, p);
    CreateTasks(s, c, t, p);
    CreateCpus(s, c, t, p);
    CreateClosed(s, c, t, p);
    CreateLocks(s, c, t, p);
  }

  // Going to sleep, waking, and sleep locks.

  lemma QueueLocal(s: State, c: CpuId, k': Cpu, x: Tid, g': Task, q: seq<Tid>)
    requires c in s.cpus && x in s.tasks && k'.idle == s.cpus[c].idle && g'.idleOf == s.tasks[x].idleOf
    requires Distinct(q) && forall t :: t != x ==> (t in q <==> t in s.sleepQueue)
    ensures LocalChange(s, Set(s, c, k', x, g').(sleepQueue := q), c, x)
  {
    hide Distinct;
  }

  lemma QueueDistinct(s: State)
    requires Inv(s)
    ensures Distinct(s.sleepQueue)
  {
    hide TasksOk, CpusOk, PairsOk, LocksOk, Distinct;
  }

  lemma LinkKeeps(s: State, c: CpuId, t: Tid, chan: Chan)
    requires Inv(s) && c in s.cpus && s.cpus[c].pc == SleepLink(t, chan) && t in s.tasks
    ensures Inv(Set(s, c, s.cpus[c].(pc := SleepUnlock(t, chan)), t,
                    s.tasks[t].(queue := OnSleep)).(sleepQueue := s.sleepQueue + [t]))
  {
    hide TasksOk, CpusOk, PairsOk, Closed, LocksOk, Sound, ViewOk, LocalChange, Distinct;
    var k', g', q := s.cpus[c].(pc := SleepUnlock(t, chan)), s.tasks[t].(queue := OnSleep), s.sleepQueue + [t];
    var s' := Set(s, c, k', t, g').(sleepQueue := q);
    ViewIs(s, c, t);
    LinkSound(s.cpus[c], s.tasks[t], c, t, t in s.sleepQueue);
    LinkIs(s.cpus[c], s.tasks[t], c, t, t in s.sleepQueue);
    QueueDistinct(s);
    AppendDistinct(s.sleepQueue, t);
    QueueLocal(s, c, k', t, g', q);
    LinkLocks(s, s', c, t, chan);
    hide Inv;
    SoundKeeps(s, s', c, t);
  }

  lemma LinkIs(k: Cpu, g: Task, c: CpuId, x: Tid, asleep: bool)
    requires ViewOk(k, g, c, x, asleep) && k.pc.SleepLink? && k.pc.t == x
    ensures !asleep && g.chan == k.pc.chan
  {
  }

  lemma LinkLocks(s: State, s': State, c: CpuId, t: Tid, chan: Chan)
    requires LocksOk(s) && LocalChange(s, s', c, t) && s'.locks == s.locks && s.cpus[c].pc == SleepLink(t, chan) &&
             s'.cpus[c].pc == SleepUnlock(t, chan)
    requires s'.tasks[t].chan == chan
    ensures LocksOk(s')
  {
    hide Distinct;
    assert chan.OfLock? && chan.l in s.locks ==> s.locks[chan.l].inner == Some(c);
    forall l | l in s'.locks && s'.locks[l].inner == None && Waited(s', l)
      ensures Waited(s, l)
    {
      var u :| u in s'.tasks && u in s'.sleepQueue && s'.tasks[u].chan == OfLock(l);
      assert u in s.tasks && u in s.sleepQueue && s.tasks[u].chan == OfLock(l);
    }
    hide Waited;
    assert InnerPairs(s') && InnerClosed(s') && FreeUnwaited(s');
    hide InnerPairs, InnerClosed, FreeUnwaited;
    forall e, l | e in s'.cpus && l in s'.locks && GoingToSleep(s'.cpus[e].pc, l)
      ensures s'.locks[l].locked
    {
      assert GoingToSleep(s.cpus[e].pc, l);
    }
  }

  /** The waker's half: whoever it takes off the queue is off its CPU. */
  lemma WokenKeeps(s: State, c: CpuId, p: Tid, back: Back)
    requires Inv(s) && c in s.cpus && Wakeable(s, p)
    requires var pc := s.cpus[c].pc;
             (pc.Run? && back == ToRun(pc.t)) || (pc.WakeParent? && back == ToReturn(pc.n)) ||
                 (pc.Releasing? && back == ToRelease(pc.t, pc.l))
    ensures Inv(Woken(s, c, p, back))
  {
    hide TasksOk, CpusOk, PairsOk, Closed, LocksOk, Sound, ViewOk, LocalChange, Distinct, Removed;
    var k', g', q := s.cpus[c].(pc := Join(p, back)),
        s.tasks[p].(state := Running, chan := NoChan, queue := Off, claim := Some(c)), Removed(s.sleepQueue, p);
    var s' := Set(s, c, k', p, g').(sleepQueue := q);
    ViewIs(s, c, p);
    WakeSound(s.cpus[c], s.tasks[p], c, p, back);
    QueueDistinct(s);
    RemovedIs(s.sleepQueue, p);
    QueueLocal(s, c, k', p, g', q);
    LocksSame(s, s', c, p);
    hide Inv;
    SoundKeeps(s, s', c, p);
  }

  lemma WaitedSame(s: State, s': State, c: CpuId, x: Tid, l: LockId)
    requires LocalChange(s, s', c, x) && s'.sleepQueue == s.sleepQueue &&
             (x in s.sleepQueue ==> s'.tasks[x].chan == s.tasks[x].chan)
    ensures Waited(s', l) ==> Waited(s, l)
  {
    hide Distinct;
    if Waited(s', l) {
      var u :| u in s'.tasks && u in s'.sleepQueue && s'.tasks[u].chan == OfLock(l);
      assert u in s.tasks && u in s.sleepQueue && s.tasks[u].chan == OfLock(l);
    }
  }

  function LockSet(s: State, c: CpuId, k': Cpu, x: Tid, g': Task, l: LockId, lock': SLock): State {
    Set(s, c, k', x, g').(locks := s.locks[l := lock'])
  }

  lemma LockSetLocks(s: State, c: CpuId, k': Cpu, x: Tid, g': Task, l: LockId, lock': SLock)
    requires LocksOk(s) && Distinct(s.sleepQueue) && c in s.cpus && x in s.tasks && l in s.locks
    requires k'.idle == s.cpus[c].idle && g'.idleOf == s.tasks[x].idleOf
    requires x in s.sleepQueue ==> g'.chan == s.tasks[x].chan
    requires InnerOf(s.cpus[c].pc) == None || InnerOf(s.cpus[c].pc) == Some(l)
    requires InnerOf(k'.pc) == None || InnerOf(k'.pc) == Some(l)
    requires Only(s.locks[l].inner, c) && Only(lock'.inner, c) &&
             (lock'.inner == Some(c) <==> InnerOf(k'.pc) == Some(l))
    requires lock'.locked <==> lock'.holder.Some?
    requires lock'.inner == None && !lock'.locked ==> !Waited(s, l)
    requires GoingToSleep(k'.pc, l) ==> lock'.locked
    ensures LocksOk(LockSet(s, c, k', x, g', l, lock')) && LocalChange(s, LockSet(s, c, k', x, g', l, lock'), c, x)
  {
    hide LocksOk, InnerOf, GoingToSleep, Waited, Distinct;
    var s' := LockSet(s, c, k', x, g', l, lock');
    assert LocalChange(s, s', c, x);
    forall m
      ensures Waited(s', m) ==> Waited(s, m)
    {
      WaitedSame(s, s', c, x, m);
    }
    LocksAt(s, s', c, l);
  }

  /** A step that moves CPU `c` and task `x` and changes lock `l`. */
  lemma LockSetKeeps(s: State, c: CpuId, k': Cpu, x: Tid, g': Task, l: LockId, lock': SLock)
    requires Inv(s) && c in s.cpus && x in s.tasks && l in s.locks &&
             Sound(s.cpus[c], s.tasks[x], k', g', c, x, x in s.sleepQueue)
    requires x in s.sleepQueue ==> g'.chan == s.tasks[x].chan
    requires InnerOf(s.cpus[c].pc) == None || InnerOf(s.cpus[c].pc) == Some(l)
    requires InnerOf(k'.pc) == None || InnerOf(k'.pc) == Some(l)
    requires Only(s.locks[l].inner, c) && Only(lock'.inner, c) &&
             (lock'.inner == Some(c) <==> InnerOf(k'.pc) == Some(l))
    requires lock'.locked <==> lock'.holder.Some?
    requires lock'.inner == None && !lock'.locked ==> !Waited(s, l)
    requires GoingToSleep(k'.pc, l) ==> lock'.locked
    ensures Inv(LockSet(s, c, k', x, g', l, lock'))
  {
    hide TasksOk, CpusOk, PairsOk, Closed, LocksOk, InnerOf, GoingToSleep, Waited, Distinct, Elsewhere, Kept, ViewOk,
         Touches, LocalChange;
    QueueDistinct(s);
    assert k'.idle == s.cpus[c].idle && g'.idleOf == s.tasks[x].idleOf;
    hide Sound;
    LockSetLocks(s, c, k', x, g', l, lock');
    hide Inv;
    SoundKeeps(s, LockSet(s, c, k', x, g', l, lock'), c, x);
  }

  /** The spin lock of a lock whose section a CPU is in is that CPU's. */
  lemma InnerIs(s: State, c: CpuId, l: LockId)
    requires Inv(s) && c in s.cpus && l in s.locks && InnerOf(s.cpus[c].pc) == Some(l)
    ensures s.locks[l].inner == Some(c) && (s.locks[l].locked <==> s.locks[l].holder.Some?) &&
            (GoingToSleep(s.cpus[c].pc, l) ==> s.locks[l].locked)
  {
    hide TasksOk, CpusOk, PairsOk, Closed, InnerOf;
  }

  lemma AcquireKeeps(s: State, c: CpuId, t: Tid, a: Action)
    requires Inv(s) && c in s.cpus && s.cpus[c].pc == Run(t) && RunEnabled(s, c, t, a) && (a.Acquire? || a.Release?)
    ensures Inv(RunStep(s, c, t, a))
  {
    hide Inv, Sound, ViewOk, LocksOk, Waited;
    var k, g, l := s.cpus[c], s.tasks[t], a.l;
    ViewIs(s, c, t);
    if a.Acquire? {
      LockEnterSound(k, g, c, t, t in s.sleepQueue, Acquiring(t, l), None);
      HolderIs(s, l);
      LockSetKeeps(s, c, k.(pc := Acquiring(t, l)), t, g.(retry := None), l, s.locks[l].(inner := Some(c)));
    } else {
      LockEnterSound(k, g, c, t, t in s.sleepQueue, Releasing(t, l), g.retry);
      assert g.(retry := g.retry) == g;
      LockSetKeeps(s, c, k.(pc := Releasing(t, l)), t, g, l, SLock(false, None, Some(c)));
    }
  }

  lemma HolderIs(s: State, l: LockId)
    requires Inv(s) && l in s.locks
    ensures s.locks[l].locked <==> s.locks[l].holder.Some?
  {
    hide TasksOk, CpusOk, PairsOk, Closed, InnerOf;
  }

  /** The test of sleeplock_acquire: sleep, or take the lock and go. */
  lemma AcquiringKeeps(s: State, c: CpuId, t: Tid, l: LockId, d: CpuId)
    requires Inv(s) && c in s.cpus && s.cpus[c].pc == Acquiring(t, l) && Enabled(s, c, Go(d))
    ensures Inv(GoStep(s, c, d))
  {
    hide Inv, Sound, ViewOk, LocksOk, Waited;
    var k, g := s.cpus[c], s.tasks[t];
    ViewIs(s, c, t);
    InnerIs(s, c, l);
    if s.locks[l].locked {
      AcquirerIs(k, g, c, t, t in s.sleepQueue);
      DozeSound(k, g, c, t, t in s.sleepQueue, OfLock(l), Some(l));
      SetKeeps(s, c, k.(pc := SleepLink(t, OfLock(l))), t,
               g.(lock := Some(c), state := Sleeping, chan := OfLock(l), retry := Some(l)));
    } else {
      LockLeaveSound(k, g, c, t, t in s.sleepQueue);
      LockSetKeeps(s, c, k.(pc := Run(t)), t, g, l, SLock(true, Some(t), None));
    }
  }

  lemma AcquirerIs(k: Cpu, g: Task, c: CpuId, t: Tid, asleep: bool)
    requires ViewOk(k, g, c, t, asleep) && (k.pc.Acquiring? || k.pc.Releasing? || k.pc.Run?) && k.pc.t == t
    ensures !asleep && g.lock != Some(c) && (!k.pc.Run? ==> g.idleOf == None)
  {
  }

  /** The wake-ups of sleeplock_release are over when no sleeper is left on the queue. */
  lemma ReleasingKeeps(s: State, c: CpuId, t: Tid, l: LockId, d: CpuId)
    requires Inv(s) && c in s.cpus && s.cpus[c].pc == Releasing(t, l) && Enabled(s, c, Go(d))
    ensures Inv(GoStep(s, c, d))
  {
    var k, g := s.cpus[c], s.tasks[t];
    ViewIs(s, c, t);
    InnerIs(s, c, l);
    NoSleeperNoWait(s, l);
    hide Inv, Sound, ViewOk, LocksOk, Waited;
    LockLeaveSound(k, g, c, t, t in s.sleepQueue);
    LockSetKeeps(s, c, k.(pc := Run(t)), t, g, l, s.locks[l].(inner := None));
  }

  lemma NoSleeperNoWait(s: State, l: LockId)
    requires Inv(s) && forall p :: p in s.sleepQueue ==> !Sleeper(s, p, l)
    ensures !Waited(s, l)
  {
    hide CpusOk, PairsOk, Closed, LocksOk;
    forall u | u in s.tasks && u in s.sleepQueue
      ensures s.tasks[u].chan != OfLock(l)
    {
      assert TaskOk(s.tasks[u], true);
      assert !Sleeper(s, u, l);
    }
  }

  lemma SleepUnlockKeeps(s: State, c: CpuId, d: CpuId)
    requires Inv(s) && Enabled(s, c, Go(d)) && s.cpus[c].pc.SleepUnlock?
    ensures Inv(GoStep(s, c, d))
  {
    hide Inv, Sound, ViewOk, LocksOk, Waited;
    var k := s.cpus[c];
    var t, chan := k.pc.t, k.pc.chan;
    ViewIs(s, c, t);
    SleptSound(k, s.tasks[t], c, t, t in s.sleepQueue);
    if chan.OfLock? {
      InnerIs(s, c, chan.l);
      LockSetKeeps(s, c, k.(pc := Sched(t)), t, s.tasks[t], chan.l, s.locks[chan.l].(inner := None));
    } else {
      SetKeeps(s, c, k.(pc := Sched(t)), t, s.tasks[t]);
    }
  }

  lemma RunKeeps(s: State, c: CpuId, t: Tid, a: Action)
    requires Inv(s) && c in s.cpus && s.cpus[c].pc == Run(t) && RunEnabled(s, c, t, a)
    ensures Inv(RunStep(s, c, t, a))
  {
    hide Inv, Sound, ViewOk, LocksOk, Woken;
    var k, g := s.cpus[c], s.tasks[t];
    ViewIs(s, c, t);
    AcquirerIs(k, g, c, t, t in s.sleepQueue);
    match a
    case Yield =>
      YieldSound(k, g, c, t, t in s.sleepQueue);
      SetKeeps(s, c, k.(pc := Sched(t)), t, g.(lock := Some(c)));
    case Exit =>
      ExitSound(k, g, c, t, t in s.sleepQueue);
      SetKeeps(s, c, k.(pc := Sched(t)), t, g.(lock := Some(c), state := Zombie));
    case Sleep(id) =>
      DozeSound(k, g, c, t, t in s.sleepQueue, Plain(id), None);
      SetKeeps(s, c, k.(pc := SleepLink(t, Plain(id))), t,
               g.(lock := Some(c), state := Sleeping, chan := Plain(id), retry := None));
    case Wake(p) => WokenKeeps(s, c, p, ToRun(t));
    case Create(p) => CreateKeeps(s, c, t, p);
    case Reap(p) => ReapKeeps(s, p);
    case Acquire(l) => AcquireKeeps(s, c, t, a);
    case Release(l) => AcquireKeeps(s, c, t, a);
    case Go(_) =>
  }

  lemma GoKeeps(s: State, c: CpuId, d: CpuId)
    requires Inv(s) && Enabled(s, c, Go(d))
    ensures Inv(GoStep(s, c, d))
  {
    hide Inv, Set, Queued, Woken, PickStep, Dozing;
    var k := s.cpus[c];
    if k.pc.Acquiring? {
      AcquiringKeeps(s, c, k.pc.t, k.pc.l, d);
    } else if k.pc.Releasing? {
      ReleasingKeeps(s, c, k.pc.t, k.pc.l, d);
    } else if k.pc.SleepLink? {
      LinkKeeps(s, c, k.pc.t, k.pc.chan);
    } else if k.pc.SleepUnlock? {
      SleepUnlockKeeps(s, c, d);
    } else if k.pc.Requeue? {
      QueuedHere(s, c, k.pc.t);
    } else if k.pc.Pick? {
      PickKeeps(s, c, k.pc.t);
    } else if k.pc.Join? {
      JoinKeeps(s, c, d, k.pc.p);
    } else if k.pc.WakeParent? {
      if k.pc.who in s.sleepQueue {
        WokenKeeps(s, c, k.pc.who, ToReturn(k.pc.n));
      } else {
        ViewIs(s, c, k.pc.n);
        NoParentSound(k, s.tasks[k.pc.n], c, k.pc.n, k.pc.n in s.sleepQueue);
        SetKeeps(s, c, k.(pc := Return(k.pc.n)), k.pc.n, s.tasks[k.pc.n]);
      }
    } else {
      SwitchKeeps(s, c, d);
    }
  }

  /** Any step of any CPU keeps the invariant. */
  lemma ApplyKeeps(s: State, c: CpuId, a: Action)
    requires Inv(s) && Enabled(s, c, a)
    ensures Inv(Apply(s, c, a))
  {
    hide Inv, RunStep, GoStep, Woken;
    var k := s.cpus[c];
    if k.pc.Run? {
      RunKeeps(s, c, k.pc.t, a);
    } else if k.pc.Releasing? && a.Wake? {
      WokenKeeps(s, c, a.p, ToRelease(k.pc.t, k.pc.l));
    } else {
      GoKeeps(s, c, a.target);
    }
  }
}
