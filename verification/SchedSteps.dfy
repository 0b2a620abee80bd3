/**
 Sleeping, waking, switching and reaping tasks on many CPUs (src/kern/sched.c), and sleep locks on top of them
 (src/kern/sleeplock.c). Each CPU runs its own code; a step is one store, or one section under a lock, of one
 CPU, and the steps of all CPUs interleave freely.
 */
module SchedSteps {
  type Tid = nat
  type CpuId = nat
  type LockId = nat

  datatype Option<T> = None | Some(value: T)

  datatype TaskState = Running | Sleeping | Zombie

  /** What a task sleeps on: a sleep lock, or anything else. */
  datatype Chan = NoChan | Plain(id: nat) | OfLock(l: LockId)

  /** The list that a task's queue node is linked into. */
  datatype Where = Off | OnRun(c: CpuId) | OnSleep

  /**
   A struct task. `oncpu` is None for -1 and `lock` names the CPU that holds task->lock. The fields from `queue` on
   are history: the list the task is linked into, whether its context is completely saved, the CPU that has taken it
   off a list or made it and not yet placed it, the CPU whose idle task it is, and the sleep lock it is about to retry.
   */
  datatype Task = Task(state: TaskState, chan: Chan, oncpu: Option<CpuId>, cpu: CpuId, lock: Option<CpuId>,
                       parent: Option<Tid>,
                       queue: Where, saved: bool, claim: Option<CpuId>, idleOf: Option<CpuId>, retry: Option<LockId>)

  /** Where a CPU goes when task_join returns. */
  datatype Back = ToRun(t: Tid) | ToReturn(n: Tid) | ToRelease(t: Tid, l: LockId)

  /** Where a CPU is in the code. */
  datatype Pc =
    | Run(t: Tid)                                        // ordinary code of the current task
    | Acquiring(t: Tid, l: LockId)                       // sleeplock_acquire, spin lock held
    | Releasing(t: Tid, l: LockId)                       // sleeplock_release, spin lock held, lock free again
    | SleepLink(t: Tid, chan: Chan)                      // task_sleep: state set, not yet on the sleep queue
    | SleepUnlock(t: Tid, chan: Chan)                    // on the queue, condition lock still held
    | Sched(t: Tid)                                      // task_sched, task->lock held
    | Requeue(t: Tid)                                    // about to task_join the task that was running
    | Pick(t: Tid)
    | SwitchTo(t: Tid, n: Tid)                           // handoff set, about to lock the next task
    | Leaving(t: Tid, n: Tid)                            // context_switch
    | Clear(t: Tid, n: Tid)                              // task_sched_resume, on the next task's stack
    | Unlock(t: Tid, n: Tid, parent: Option<Tid>)
    | DropHandoff(t: Tid, n: Tid, parent: Option<Tid>)
    | WakeParent(n: Tid, who: Tid)
    | Return(n: Tid)                                     // back in the code that called task_sched
    | Join(p: Tid, back: Back)                           // task_join of a task that is not running

  datatype Cpu = Cpu(pc: Pc, current: Option<Tid>, handoff: Option<Tid>, idle: Tid, runQueue: seq<Tid>, nrRunning: nat)

  /** A sleep lock; `inner` names the CPU that holds its spin lock. */
  datatype SLock = SLock(locked: bool, holder: Option<Tid>, inner: Option<CpuId>)

  datatype State = State(tasks: map<Tid, Task>, cpus: map<CpuId, Cpu>, locks: map<LockId, SLock>, sleepQueue: seq<Tid>)

  // What a program counter says about one task.

  function BackTask(b: Back): Tid {
    match b
    case ToRun(t) => t
    case ToReturn(n) => n
    case ToRelease(t, _) => t
  }

  /** The task whose code this CPU runs, as opposed to the one it is leaving. */
  predicate Active(pc: Pc, t: Tid) {
    match pc
    case Run(u) => t == u
    case Acquiring(u, _) => t == u
    case Releasing(u, _) => t == u
    case Leaving(_, n) => t == n
    case Clear(_, n) => t == n
    case Unlock(_, n, _) => t == n
    case DropHandoff(_, n, _) => t == n
    case WakeParent(n, _) => t == n
    case Return(n) => t == n
    case Join(_, b) => t == BackTask(b)
    case _ => false
  }

  /** A task that has entered the scheduler and is not out of it. */
  predicate Going(pc: Pc, t: Tid) {
    match pc
    case Sched(u) => t == u
    case Requeue(u) => t == u
    case Pick(u) => t == u
    case SwitchTo(u, _) => t == u
    case Leaving(u, _) => t == u
    case Clear(u, _) => t == u
    case _ => false
  }

  predicate Asleep(pc: Pc, t: Tid) {
    (pc.SleepLink? || pc.SleepUnlock?) && pc.t == t
  }

  predicate On(pc: Pc, t: Tid) {
    Active(pc, t) || Going(pc, t) || Asleep(pc, t)
  }

  predicate Locks(pc: Pc, t: Tid) {
    || Going(pc, t) || Asleep(pc, t) || (pc.Unlock? && pc.t == t)
    || (Active(pc, t) && !pc.Run? && !pc.Acquiring? && !pc.Releasing? && !(pc.Join? && !pc.back.ToReturn?))
  }

  predicate Claims(pc: Pc, t: Tid) {
    (pc.Join? && pc.p == t) || (pc.SwitchTo? && pc.n == t)
  }

  /** Still in use by the CPU in some way. */
  predicate Touches(pc: Pc, t: Tid) {
    On(pc, t) || Locks(pc, t) || Claims(pc, t)
  }

  function CurrentOf(pc: Pc): Option<Tid> {
    match pc
    case Run(t) => Some(t)
    case Acquiring(t, _) => Some(t)
    case Releasing(t, _) => Some(t)
    case SleepLink(t, _) => Some(t)
    case SleepUnlock(t, _) => Some(t)
    case Sched(t) => Some(t)
    case Leaving(_, n) => Some(n)
    case Clear(_, n) => Some(n)
    case Unlock(_, n, _) => Some(n)
    case DropHandoff(_, n, _) => Some(n)
    case WakeParent(n, _) => Some(n)
    case Return(n) => Some(n)
    case Join(_, b) => Some(BackTask(b))
    case _ => None
  }

  function HandoffOf(pc: Pc): Option<Tid> {
    match pc
    case SwitchTo(t, _) => Some(t)
    case Leaving(t, _) => Some(t)
    case Clear(t, _) => Some(t)
    case Unlock(t, _, _) => Some(t)
    case DropHandoff(t, _, _) => Some(t)
    case _ => None
  }

  /** The sleep lock whose spin lock this CPU holds. */
  function InnerOf(pc: Pc): Option<LockId> {
    match pc
    case Acquiring(_, l) => Some(l)
    case Releasing(_, l) => Some(l)
    case SleepLink(_, OfLock(l)) => Some(l)
    case SleepUnlock(_, OfLock(l)) => Some(l)
    case Join(_, ToRelease(_, l)) => Some(l)
    case _ => None
  }

  // The invariant.

  /** What a CPU's position says about the state of one task. */
  ghost predicate Facts(pc: Pc, g: Task, c: CpuId, t: Tid) {
    && (Active(pc, t) ==> g.state == Running && g.queue == Off)
    && (Asleep(pc, t) ==>
       g.state == Sleeping && g.chan == pc.chan && g.idleOf == None &&
       g.queue == (if pc.SleepLink? then Off else OnSleep))
    && (pc.Sched? && pc.t == t ==>
       (g.state == Running ==> g.queue == Off) && (g.state == Sleeping ==> g.queue == OnSleep))
    && (pc.Requeue? && pc.t == t ==> g.state == Running && g.queue == Off && g.idleOf == None)
    && ((pc.Pick? || pc.SwitchTo? || pc.Leaving? || pc.Clear? || pc.Unlock?) && pc.t == t ==>
          (g.state == Running ==> g.queue == OnRun(c) || g.idleOf == Some(c)) &&
              (g.state == Sleeping ==> g.queue == OnSleep))
    && (pc.Clear? && pc.t == t ==> g.saved)
    && (pc.Join? && pc.p == t ==> g.idleOf == None)
    && (pc.SwitchTo? && pc.n == t ==> g.cpu == c && pc.n != pc.t)
    && ((pc.Leaving? || pc.Clear? || pc.Unlock?) && pc.n == t ==> pc.n != pc.t)
    && (Active(pc, t) && (pc.Acquiring? || pc.Releasing? || (pc.Join? && pc.back.ToRelease?)) ==> g.idleOf == None)
  }

  /** One CPU and one task agree. */
  ghost predicate PairOk(k: Cpu, g: Task, c: CpuId, t: Tid) {
    && (g.lock == Some(c) <==> Locks(k.pc, t))
    && (g.oncpu == Some(c) <==> On(k.pc, t))
    && (g.claim == Some(c) <==> Claims(k.pc, t))
    && (g.queue == OnRun(c) <==> t in k.runQueue)
    && (g.idleOf == Some(c) <==> t == k.idle)
    && Facts(k.pc, g, c, t)
  }

  /** A place that belongs to CPU `c` alone. */
  predicate Only(o: Option<CpuId>, c: CpuId) {
    o == None || o == Some(c)
  }

  ghost predicate TaskOk(g: Task, asleep: bool) {
    && (g.queue == OnSleep <==> asleep)
    && (g.queue == OnSleep ==>
       g.state == Sleeping && g.claim == None && g.idleOf == None && (g.lock == None ==> g.oncpu == None))
    && (g.queue.OnRun? ==> g.state == Running && g.cpu == g.queue.c && g.idleOf == None && g.claim == None
                           && Only(g.oncpu, g.cpu) && Only(g.lock, g.cpu) && (g.lock == None ==> g.oncpu == None))
    && (g.claim.Some? ==> g.state == Running && g.queue == Off && g.oncpu == None && g.lock == None)
    && (g.oncpu == None ==> g.saved) && (g.oncpu.Some? ==> g.cpu == g.oncpu.value && Only(g.lock, g.cpu))
    && (g.state == Zombie ==> g.queue == Off && g.idleOf == None)
    && (g.state == Sleeping ==> g.queue == OnSleep || g.lock.Some?)
    && (g.idleOf.Some? ==> g.state == Running && g.queue == Off && g.cpu == g.idleOf.value
                           && Only(g.oncpu, g.cpu) && Only(g.claim, g.cpu) && Only(g.lock, g.cpu))
    // a runnable task is somewhere a CPU will find it
    && (g.state == Running && g.idleOf == None && g.oncpu == None && g.claim == None ==> g.queue.OnRun?)
  }

  ghost predicate Distinct(q: seq<Tid>) {
    forall i, j :: 0 <= i < j < |q| ==> q[i] != q[j]
  }

  ghost predicate CpuOk(k: Cpu, c: CpuId, tasks: map<Tid, Task>) {
    && k.current == CurrentOf(k.pc) && k.handoff == HandoffOf(k.pc)
    && k.nrRunning == |k.runQueue| && Distinct(k.runQueue)
    && k.idle in tasks && tasks[k.idle].idleOf == Some(c)
  }

  ghost predicate TasksOk(s: State) {
    forall t :: t in s.tasks ==> TaskOk(s.tasks[t], t in s.sleepQueue)
  }

  ghost predicate CpusOk(s: State) {
    forall c :: c in s.cpus ==> CpuOk(s.cpus[c], c, s.tasks)
  }

  ghost predicate PairsOk(s: State) {
    forall c, t :: c in s.cpus && t in s.tasks ==> PairOk(s.cpus[c], s.tasks[t], c, t)
  }

  ghost predicate Named(g: Task, cpus: set<CpuId>) {
    && (g.lock.Some? ==> g.lock.value in cpus) && (g.oncpu.Some? ==> g.oncpu.value in cpus)
    && (g.claim.Some? ==> g.claim.value in cpus) && (g.queue.OnRun? ==> g.queue.c in cpus)
  }

  /** Every task that a CPU touches or a list holds exists, and every CPU that a task names. */
  ghost predicate Closed(s: State) {
    && (forall c, t :: c in s.cpus && Touches(s.cpus[c].pc, t) ==> t in s.tasks)
    && (forall c, t :: c in s.cpus && t in s.cpus[c].runQueue ==> t in s.tasks)
    && (forall t :: t in s.sleepQueue ==> t in s.tasks) && Distinct(s.sleepQueue)
    && (forall t :: t in s.tasks ==> Named(s.tasks[t], s.cpus.Keys))
  }

  /** Some task is on the sleep queue waiting for this lock. */
  ghost predicate Waited(s: State, l: LockId) {
    exists t :: t in s.tasks && t in s.sleepQueue && s.tasks[t].chan == OfLock(l)
  }

  /** One lock and one CPU agree on who holds the lock's spin lock. */
  ghost predicate InnerPairs(s: State) {
    forall l, c :: l in s.locks && c in s.cpus ==> (s.locks[l].inner == Some(c) <==> InnerOf(s.cpus[c].pc) == Some(l))
  }

  ghost predicate InnerClosed(s: State) {
    && (forall c :: c in s.cpus && InnerOf(s.cpus[c].pc).Some? ==> InnerOf(s.cpus[c].pc).value in s.locks)
    && (forall l :: l in s.locks ==>
       (s.locks[l].inner.Some? ==> s.locks[l].inner.value in s.cpus) &&
       (s.locks[l].locked <==> s.locks[l].holder.Some?))
  }

  /** A lock that is free, spin lock and all, has no waiter. */
  ghost predicate FreeUnwaited(s: State) {
    forall l :: l in s.locks && s.locks[l].inner == None && !s.locks[l].locked ==> !Waited(s, l)
  }

  predicate GoingToSleep(pc: Pc, l: LockId) {
    (pc.SleepLink? || pc.SleepUnlock?) && pc.chan == OfLock(l)
  }

  /** A task about to sleep on a lock has seen it taken, and keeps it so. */
  ghost predicate SleepersKnow(s: State) {
    forall c, l :: c in s.cpus && l in s.locks && GoingToSleep(s.cpus[c].pc, l) ==> s.locks[l].locked
  }

  ghost predicate LocksOk(s: State) {
    InnerPairs(s) && InnerClosed(s) && FreeUnwaited(s) && SleepersKnow(s)
  }

  ghost predicate Inv(s: State) {
    TasksOk(s) && CpusOk(s) && PairsOk(s) && Closed(s) && LocksOk(s)
  }

  // The steps.

  /** What a CPU does next, where it has a choice. */
  datatype Action =
    | Yield | Exit | Sleep(id: nat) | Wake(p: Tid) | Create(p: Tid) | Reap(p: Tid)
    | Acquire(l: LockId) | Release(l: LockId)
    | Go(target: CpuId)

  function Set(s: State, c: CpuId, k: Cpu, x: Tid, g: Task): State {
    s.(tasks := s.tasks[x := g], cpus := s.cpus[c := k])
  }

  /** A sleeper that may be woken: it is on the queue and nobody holds its lock. */
  predicate Wakeable(s: State, p: Tid) {
    p in s.tasks && p in s.sleepQueue && s.tasks[p].state == Sleeping && s.tasks[p].lock == None
  }

  predicate Sleeper(s: State, p: Tid, l: LockId) {
    p in s.tasks && p in s.sleepQueue && s.tasks[p].state == Sleeping && s.tasks[p].chan == OfLock(l)
  }

  function Removed(q: seq<Tid>, t: Tid): seq<Tid> {
    if |q| == 0 then [] else if q[0] == t then Removed(q[1..], t) else [q[0]] + Removed(q[1..], t)
  }

  /** The section of task_wake_all and task_wake_spec that takes a sleeper off the queue. */
  function Woken(s: State, c: CpuId, p: Tid, back: Back): State
    requires c in s.cpus && p in s.tasks
  {
    Set(s, c, s.cpus[c].(pc := Join(p, back)), p,
        s.tasks[p].(state := Running, chan := NoChan, queue := Off, claim := Some(c)))
    .(sleepQueue := Removed(s.sleepQueue, p))
  }

  function NewTask(c: CpuId, parent: Tid): Task {
    Task(Running, NoChan, None, c, None, Some(parent), Off, true, Some(c), None, None)
  }

  function AfterJoin(back: Back): Pc {
    match back
    case ToRun(t) => Run(t)
    case ToReturn(n) => Return(n)
    case ToRelease(t, l) => Releasing(t, l)
  }

  /** task_join: the task goes to the tail of a run queue. */
  function Queued(s: State, c: CpuId, pc: Pc, p: Tid, d: CpuId): State
    requires c in s.cpus && d in s.cpus && p in s.tasks
  {
    var cpus1 := s.cpus[c := s.cpus[c].(pc := pc)];
    var k := cpus1[d];
    s.(tasks := s.tasks[p := s.tasks[p].(queue := OnRun(d), cpu := d, claim := None)],
       cpus := cpus1[d := k.(runQueue := k.runQueue + [p], nrRunning := k.nrRunning + 1)])
  }

  /** The start of task_sleep on `chan`. */
  function Dozing(s: State, c: CpuId, t: Tid, chan: Chan, retry: Option<LockId>): State
    requires c in s.cpus && t in s.tasks
  {
    Set(s, c, s.cpus[c].(pc := SleepLink(t, chan)), t,
        s.tasks[t].(lock := Some(c), state := Sleeping, chan := chan, retry := retry))
  }

  predicate RunEnabled(s: State, c: CpuId, t: Tid, a: Action) {
    && t in s.tasks
    && var g := s.tasks[t];
       match a
       case Yield => g.lock == None && g.retry == None
       case Exit => g.lock == None && g.retry == None && g.idleOf == None
       case Sleep(_) => g.lock == None && g.retry == None && g.idleOf == None
       case Wake(p) => g.retry == None && Wakeable(s, p)
       case Create(p) => g.retry == None && p !in s.tasks
       case Reap(p) => g.retry == None && p in s.tasks && p != t && s.tasks[p].state == Zombie &&
           s.tasks[p].oncpu == None && s.tasks[p].lock == None
       case Acquire(l) => l in s.locks && s.locks[l].inner == None && s.locks[l].holder != Some(t) &&
           g.idleOf == None && (g.retry == None || g.retry == Some(l))
       case Release(l) => g.retry == None && l in s.locks && s.locks[l].inner == None && s.locks[l].holder == Some(t) &&
           g.idleOf == None
       case Go(_) => false
  }

  function RunStep(s: State, c: CpuId, t: Tid, a: Action): State
    requires c in s.cpus && RunEnabled(s, c, t, a)
  {
    var k, g := s.cpus[c], s.tasks[t];
    match a
    case Yield => Set(s, c, k.(pc := Sched(t)), t, g.(lock := Some(c)))
    case Exit => Set(s, c, k.(pc := Sched(t)), t, g.(lock := Some(c), state := Zombie))
    case Sleep(id) => Dozing(s, c, t, Plain(id), None)
    case Wake(p) => Woken(s, c, p, ToRun(t))
    case Create(p) => Set(s, c, k.(pc := Join(p, ToRun(t))), p, NewTask(c, t))
    case Reap(p) => s.(tasks := s.tasks - {p})
    case Acquire(l) => Set(s, c, k.(pc := Acquiring(t, l)), t,
                           g.(retry := None)).(locks := s.locks[l := s.locks[l].(inner := Some(c))])
    case Release(l) => Set(s, c, k.(pc := Releasing(t, l)), t, g).(locks := s.locks[l := SLock(false, None, Some(c))])
    case Go(_) => s
  }

  predicate Enabled(s: State, c: CpuId, a: Action) {
    && c in s.cpus
    && var k := s.cpus[c];
       match k.pc
       case Run(t) => RunEnabled(s, c, t, a)
       case Acquiring(t, l) => a.Go? && l in s.locks && t in s.tasks && (s.locks[l].locked ==> s.tasks[t].lock == None)
       case Releasing(t, l) => (a.Wake? && Wakeable(s, a.p) && Sleeper(s, a.p, l)) ||
           (a.Go? && l in s.locks && t in s.tasks && forall p :: p in s.sleepQueue ==> !Sleeper(s, p, l))
       case SwitchTo(t, n) => a.Go? && t in s.tasks && n in s.tasks && s.tasks[n].lock == None
       case WakeParent(n, who) => a.Go? && n in s.tasks && (who in s.sleepQueue ==> Wakeable(s, who))
       case Join(p, _) => a.Go? && p in s.tasks && a.target in s.cpus
       case Pick(t) => a.Go? && t in s.tasks && k.idle in s.tasks && (k.runQueue != [] ==> k.runQueue[0] in s.tasks)
       case SleepUnlock(t, chan) => a.Go? && t in s.tasks && (chan.OfLock? ==> chan.l in s.locks)
       case Return(n) => a.Go? && n in s.tasks
       case DropHandoff(_, n, _) => a.Go? && n in s.tasks
       case _ => a.Go? && k.pc.t in s.tasks
  }

  /** task_pick_next, or the idle task, and the choice that task_sched makes. */
  function PickStep(s: State, c: CpuId, t: Tid): State
    requires c in s.cpus && t in s.tasks && s.cpus[c].idle in s.tasks &&
             (s.cpus[c].runQueue != [] ==> s.cpus[c].runQueue[0] in s.tasks)
  {
    var k := s.cpus[c];
    if k.runQueue == [] then
      if k.idle == t then Set(s, c, k.(pc := Return(t), current := Some(t)), t, s.tasks[t])
      else Set(s, c, k.(pc := SwitchTo(t, k.idle), handoff := Some(t)), k.idle, s.tasks[k.idle].(claim := Some(c)))
    else
      var n := k.runQueue[0];
      var k' := k.(runQueue := k.runQueue[1..], nrRunning := if k.nrRunning > 0 then k.nrRunning - 1 else 0);
      if n == t then Set(s, c, k'.(pc := Return(t), current := Some(t)), t, s.tasks[t].(queue := Off))
      else Set(s, c, k'.(pc := SwitchTo(t, n), handoff := Some(t)), n, s.tasks[n].(queue := Off, claim := Some(c)))
  }

  function GoStep(s: State, c: CpuId, d: CpuId): State
    requires Enabled(s, c, Go(d))
  {
    var k := s.cpus[c];
    match k.pc
    case Acquiring(t, l) =>
      if s.locks[l].locked then Dozing(s, c, t, OfLock(l), Some(l))
      else Set(s, c, k.(pc := Run(t)), t, s.tasks[t]).(locks := s.locks[l := SLock(true, Some(t), None)])
    case Releasing(t, l) => Set(s, c, k.(pc := Run(t)), t,
                                s.tasks[t]).(locks := s.locks[l := s.locks[l].(inner := None)])
    case SleepLink(t, chan) => Set(s, c, k.(pc := SleepUnlock(t, chan)), t,
                                   s.tasks[t].(queue := OnSleep)).(sleepQueue := s.sleepQueue + [t])
    case SleepUnlock(t, chan) =>
      Set(s, c, k.(pc := Sched(t)), t, s.tasks[t])
      .(locks := if chan.OfLock? then s.locks[chan.l := s.locks[chan.l].(inner := None)] else s.locks)
    case Sched(t) =>
      Set(s, c, k.(pc := if s.tasks[t].state == Running && t != k.idle then Requeue(t) else Pick(t), current := None),
          t, s.tasks[t])
    case Requeue(t) => Queued(s, c, Pick(t), t, c)
    case Pick(t) => PickStep(s, c, t)
    case SwitchTo(t, n) => Set(s, c, k.(pc := Leaving(t, n), current := Some(n)), n,
                               s.tasks[n].(lock := Some(c), oncpu := Some(c), claim := None, saved := false))
    case Leaving(t, n) => Set(s, c, k.(pc := Clear(t, n)), t, s.tasks[t].(saved := true))
    case Clear(t, n) => Set(s, c, k.(pc := Unlock(t, n, if s.tasks[t].state == Zombie then s.tasks[t].parent
                                                  else None)), t, s.tasks[t].(oncpu := None))
    case Unlock(t, n, parent) => Set(s, c, k.(pc := DropHandoff(t, n, parent)), t, s.tasks[t].(lock := None))
    case DropHandoff(t, n, parent) => Set(s, c,
                                          k.(pc := if parent.Some? then WakeParent(n, parent.value)
                                              else Return(n), handoff := None), n, s.tasks[n])
    case WakeParent(n, who) => if who in s.sleepQueue then Woken(s, c, who, ToReturn(n))
        else Set(s, c, k.(pc := Return(n)), n, s.tasks[n])
    case Return(n) => Set(s, c, k.(pc := Run(n)), n, s.tasks[n].(lock := None, chan := NoChan))
    case Join(p, back) => Queued(s, c, AfterJoin(back), p, d)
    case Run(_) => s
  }

  function Apply(s: State, c: CpuId, a: Action): State
    requires Enabled(s, c, a)
  {
    var k := s.cpus[c];
    if k.pc.Run? then RunStep(s, c, k.pc.t, a)
    else if k.pc.Releasing? && a.Wake? then Woken(s, c, a.p, ToRelease(k.pc.t, k.pc.l))
    else GoStep(s, c, a.target)
  }
}
