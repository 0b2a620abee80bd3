/** What runs of the scheduler promise to tasks: sleep locks are held on return, and queues are served in order. */
module SchedRun {
  import opened SchedSteps
  import opened SchedProof
  import opened SchedSafety

  // What a step leaves alone.

  /** CPU `e` takes a task off its queue. */
  predicate Serves(s: State, c: CpuId, e: CpuId) {
    c == e && e in s.cpus && s.cpus[e].pc.Pick? && s.cpus[e].runQueue != []
  }

  /** CPU `c` moves, no other does; a run queue only loses its head, to a CPU that picks, or grows at its end. */
  ghost predicate Moves(s: State, s': State, c: CpuId) {
    && s'.cpus.Keys == s.cpus.Keys
    && (forall e :: e in s.cpus && e != c ==> s'.cpus[e].pc == s.cpus[e].pc)
    && (forall e :: e in s.cpus && !Serves(s, c, e) ==> s.cpus[e].runQueue <= s'.cpus[e].runQueue)
    && (forall e :: e in s.cpus && Serves(s, c, e) ==> s'.cpus[e].runQueue == s.cpus[e].runQueue[1..])
  }

  lemma SetMoves(s: State, s': State, c: CpuId, k: Cpu)
    requires c in s.cpus && s'.cpus == s.cpus[c := k]
    requires k.runQueue == if Serves(s, c, c) then s.cpus[c].runQueue[1..] else s.cpus[c].runQueue
    ensures Moves(s, s', c)
  {
  }

  lemma RunMoves(s: State, c: CpuId, t: Tid, a: Action)
    requires c in s.cpus && s.cpus[c].pc.Run? && RunEnabled(s, c, t, a)
    ensures Moves(s, RunStep(s, c, t, a), c)
  {
    hide Removed, Wakeable, NewTask, Moves;
    var s' := RunStep(s, c, t, a);
    assert s'.cpus == s.cpus[c := s'.cpus[c]] && s'.cpus[c].runQueue == s.cpus[c].runQueue;
    SetMoves(s, s', c, s'.cpus[c]);
  }

  lemma QueuedMoves(s: State, c: CpuId, pc: Pc, p: Tid, d: CpuId)
    requires c in s.cpus && d in s.cpus && p in s.tasks && !s.cpus[c].pc.Pick?
    ensures Moves(s, Queued(s, c, pc, p, d), c)
  {
  }

  lemma PickMoves(s: State, c: CpuId, t: Tid)
    requires c in s.cpus && s.cpus[c].pc == Pick(t) && t in s.tasks && s.cpus[c].idle in s.tasks
    requires s.cpus[c].runQueue != [] ==> s.cpus[c].runQueue[0] in s.tasks
    ensures Moves(s, PickStep(s, c, t), c)
  {
    hide Moves;
    var s' := PickStep(s, c, t);
    SetMoves(s, s', c, s'.cpus[c]);
  }

  lemma WokenMoves(s: State, c: CpuId, p: Tid, back: Back)
    requires c in s.cpus && p in s.tasks && !s.cpus[c].pc.Pick?
    ensures Moves(s, Woken(s, c, p, back), c)
  {
    hide Removed, Moves;
    var s' := Woken(s, c, p, back);
    SetMoves(s, s', c, s'.cpus[c]);
  }

  lemma GoMoves(s: State, c: CpuId, d: CpuId)
    requires Enabled(s, c, Go(d)) && !s.cpus[c].pc.Run?
    ensures Moves(s, GoStep(s, c, d), c)
  {
    hide Removed, Wakeable, Sleeper, NewTask, Moves, Queued, PickStep;
    var s' := GoStep(s, c, d);
    var pc := s.cpus[c].pc;
    if pc.Join? {
      QueuedMoves(s, c, AfterJoin(pc.back), pc.p, d);
    } else if pc.Requeue? {
      QueuedMoves(s, c, Pick(pc.t), pc.t, c);
    } else if pc.Pick? {
      PickMoves(s, c, pc.t);
    } else {
      assert s'.cpus == s.cpus[c := s'.cpus[c]] && s'.cpus[c].runQueue == s.cpus[c].runQueue;
      SetMoves(s, s', c, s'.cpus[c]);
    }
  }

  lemma StepMoves(s: State, c: CpuId, a: Action)
    requires Enabled(s, c, a)
    ensures Moves(s, Apply(s, c, a), c)
  {
    hide RunStep, GoStep, Moves, Woken, Sleeper;
    var k := s.cpus[c];
    if k.pc.Run? {
      RunMoves(s, c, k.pc.t, a);
    } else if k.pc.Releasing? && a.Wake? {
      WokenMoves(s, c, a.p, ToRelease(k.pc.t, k.pc.l));
    } else {
      GoMoves(s, c, a.target);
    }
  }

  /** A step of one CPU does not move another. */
  lemma OtherPc(s: State, c: CpuId, a: Action, e: CpuId)
    requires Enabled(s, c, a) && e in s.cpus && e != c
    ensures e in Apply(s, c, a).cpus && Apply(s, c, a).cpus[e].pc == s.cpus[e].pc
  {
    StepMoves(s, c, a);
    hide Enabled, Apply, Serves;
  }

  lemma SameCpus(s: State, c: CpuId, a: Action)
    requires Enabled(s, c, a)
    ensures Apply(s, c, a).cpus.Keys == s.cpus.Keys
  {
    StepMoves(s, c, a);
    hide Enabled, Apply, Serves;
  }

  /** What a step may do to a task that is not the one that takes it. */
  ghost predicate Spared(s: State, s': State, t: Tid) {
    && t in s.tasks
    && (t in s'.tasks ==>
          && s'.tasks[t].retry == s.tasks[t].retry && s'.tasks[t].parent == s.tasks[t].parent
          && (s'.tasks[t].state == Zombie <==> s.tasks[t].state == Zombie))
    && (t !in s'.tasks ==> s.tasks[t].state == Zombie && s.tasks[t].oncpu == None)
  }

  lemma RunSpares(s: State, c: CpuId, u: Tid, a: Action, t: Tid)
    requires c in s.cpus && RunEnabled(s, c, u, a) && t in s.tasks && u != t
    ensures Spared(s, RunStep(s, c, u, a), t)
  {
    hide Removed;
  }

  lemma GoSpares(s: State, c: CpuId, d: CpuId, t: Tid)
    requires Enabled(s, c, Go(d)) && !s.cpus[c].pc.Run? && t in s.tasks &&
             !(s.cpus[c].pc.Acquiring? && s.cpus[c].pc.t == t)
    ensures Spared(s, GoStep(s, c, d), t)
  {
    hide Removed, Sleeper;
  }

  lemma StepSpares(s: State, c: CpuId, a: Action, t: Tid)
    requires Enabled(s, c, a) && t in s.tasks && s.cpus[c].pc != Run(t) &&
             !(s.cpus[c].pc.Acquiring? && s.cpus[c].pc.t == t)
    ensures Spared(s, Apply(s, c, a), t)
  {
    hide RunStep, GoStep, Removed;
    var k := s.cpus[c];
    if k.pc.Run? {
      RunSpares(s, c, k.pc.t, a, t);
    } else if !(k.pc.Releasing? && a.Wake?) {
      GoSpares(s, c, a.target, t);
    }
  }

  // sleeplock_acquire.

  ghost predicate AcquiringOn(s: State, c: CpuId, t: Tid) {
    c in s.cpus && s.cpus[c].pc.Acquiring? && s.cpus[c].pc.t == t
  }

  /** Task `t` has to retry lock `l` and has not begun to. */
  ghost predicate Retries(s: State, t: Tid, l: LockId) {
    && t in s.tasks && s.tasks[t].retry == Some(l) && s.tasks[t].state != Zombie
    && forall c :: c in s.cpus ==> !AcquiringOn(s, c, t)
  }

  ghost predicate TriesOn(s: State, c: CpuId, t: Tid, l: LockId) {
    c in s.cpus && s.cpus[c].pc == Acquiring(t, l)
  }

  /** Between the call of sleeplock_acquire by `t` and its next action afterwards. */
  ghost predicate Trying(s: State, t: Tid, l: LockId) {
    && l in s.locks
    && (s.locks[l].holder == Some(t) || Retries(s, t, l) || exists c :: TriesOn(s, c, t, l))
  }

  /** An action of task `t` in its ordinary code, other than going on with sleeplock_acquire of `l`. */
  predicate OwnAction(s: State, c: CpuId, a: Action, t: Tid, l: LockId) {
    c in s.cpus && s.cpus[c].pc == Run(t) && a != Acquire(l)
  }

  /** No step begins an acquire of `t` but `t`'s own. */
  lemma NoNewTry(s: State, c: CpuId, a: Action, t: Tid, l: LockId)
    requires Enabled(s, c, a) && !OwnAction(s, c, a, t, l) && (forall e :: e in s.cpus ==> !AcquiringOn(s, e, t))
    ensures TriesOn(Apply(s, c, a), c, t, l) ||
            forall e :: e in Apply(s, c, a).cpus ==> !AcquiringOn(Apply(s, c, a), e, t)
  {
    OwnPc(s, c, a, t);
    forall e | e in Apply(s, c, a).cpus && e != c
      ensures !AcquiringOn(Apply(s, c, a), e, t)
    {
      SameCpus(s, c, a);
      hide Enabled, Apply;
      OtherPc(s, c, a, e);
    }
  }

  /** Where a CPU comes to acquire a lock, and from where. */
  lemma OwnPc(s: State, c: CpuId, a: Action, t: Tid)
    requires Enabled(s, c, a)
    ensures c in Apply(s, c, a).cpus
    ensures AcquiringOn(Apply(s, c, a), c, t) ==>
              s.cpus[c].pc == Run(t) && a.Acquire? && Apply(s, c, a).cpus[c].pc == Acquiring(t, a.l)
  {
    hide Removed, Wakeable, Sleeper, NewTask;
  }

  lemma RetryKept(s: State, c: CpuId, a: Action, t: Tid, l: LockId)
    requires Enabled(s, c, a) && Retries(s, t, l) && !OwnAction(s, c, a, t, l)
    ensures Retries(Apply(s, c, a), t, l) || TriesOn(Apply(s, c, a), c, t, l)
  {
    assert c in s.cpus;
    hide Enabled, Apply, AcquiringOn;
    NoNewTry(s, c, a, t, l);
    if s.cpus[c].pc == Run(t) {
      Begins(s, c, t, l);
    } else {
      NotAcquiring(s, c, t);
      StepSpares(s, c, a, t);
    }
  }

  lemma NotAcquiring(s: State, c: CpuId, t: Tid)
    requires c in s.cpus && !AcquiringOn(s, c, t)
    ensures !(s.cpus[c].pc.Acquiring? && s.cpus[c].pc.t == t)
  {
  }

  lemma Begins(s: State, c: CpuId, t: Tid, l: LockId)
    requires Enabled(s, c, Acquire(l)) && s.cpus[c].pc == Run(t)
    ensures TriesOn(Apply(s, c, Acquire(l)), c, t, l) && l in Apply(s, c, Acquire(l)).locks
  {
  }

  /** A task is in the code of one CPU only. */
  lemma OneTry(s: State, c: CpuId, e: CpuId, t: Tid)
    requires Inv(s) && c in s.cpus && e in s.cpus && On(s.cpus[c].pc, t) && On(s.cpus[e].pc, t)
    ensures c == e && t in s.tasks
  {
    assert Touches(s.cpus[c].pc, t);
    ViewIs(s, c, t);
    ViewIs(s, e, t);
    hide Inv, TaskOk, Distinct, Facts;
  }

  lemma TryStep(s: State, c: CpuId, a: Action, t: Tid, l: LockId)
    requires Enabled(s, c, a) && TriesOn(s, c, t, l)
    ensures var s' := Apply(s, c, a);
            && l in s'.locks && !AcquiringOn(s', c, t) && t in s'.tasks && s'.cpus.Keys == s.cpus.Keys
            && (s'.locks[l].holder == Some(t) || (s'.tasks[t].retry == Some(l) && s'.tasks[t].state == Sleeping))
  {
  }

  /** The loop of sleeplock_acquire: the lock is taken if it is free, and otherwise has to be tried again. */
  lemma TryEnds(s: State, c: CpuId, a: Action, t: Tid, l: LockId)
    requires Inv(s) && Enabled(s, c, a) && TriesOn(s, c, t, l)
    ensures var s' := Apply(s, c, a); l in s'.locks && (s'.locks[l].holder == Some(t) || Retries(s', t, l))
  {
    TryStep(s, c, a, t, l);
    hide Inv, Enabled, Apply;
    var s' := Apply(s, c, a);
    forall e | e in s'.cpus && e != c
      ensures !AcquiringOn(s', e, t)
    {
      OtherPc(s, c, a, e);
      if AcquiringOn(s, e, t) {
        OneTry(s, c, e, t);
      }
    }
  }

  lemma LocksStay(s: State, c: CpuId, a: Action)
    requires Enabled(s, c, a)
    ensures s.locks.Keys <= Apply(s, c, a).locks.Keys
  {
    hide RunStep, GoStep, Sleeper, Woken;
    var k := s.cpus[c];
    if k.pc.Run? {
      RunLocks(s, c, k.pc.t, a);
    } else if k.pc.Releasing? && a.Wake? {
      WokenLocks(s, c, a.p, ToRelease(k.pc.t, k.pc.l));
    } else {
      GoLocks(s, c, a.target);
    }
  }

  /** Every step of anybody, but for an ordinary action of `t`, leaves `t` trying or holding. */
  lemma TryingKept(s: State, c: CpuId, a: Action, t: Tid, l: LockId)
    requires Reachable(s) && Enabled(s, c, a) && Trying(s, t, l) && !OwnAction(s, c, a, t, l)
    ensures Trying(Apply(s, c, a), t, l)
  {
    LocksStay(s, c, a);
    ReachableInv(s);
    hide Inv, Enabled, Apply, Retries, Reachable;
    if s.locks[l].holder == Some(t) {
      HolderStays(s, l, t, c, a);
    } else if Retries(s, t, l) {
      RetryKept(s, c, a, t, l);
    } else {
      var e :| TriesOn(s, e, t, l);
      if e == c {
        TryEnds(s, c, a, t, l);
      } else {
        OtherPc(s, c, a, e);
        assert TriesOn(Apply(s, c, a), e, t, l);
      }
    }
  }

  /** Task `t` does nothing of its own during the run but go on with the acquire. */
  ghost predicate Quiet(s: State, steps: seq<(CpuId, Action)>, t: Tid, l: LockId)
    requires Runs(s, steps)
    decreases |steps|
  {
    |steps| > 0 ==>
      && !OwnAction(s, steps[0].0, steps[0].1, t, l)
      && Quiet(Apply(s, steps[0].0, steps[0].1), steps[1..], t, l)
  }

  lemma {:induction false} QuietRun(s: State, steps: seq<(CpuId, Action)>, t: Tid, l: LockId)
    requires Reachable(s) && Runs(s, steps) && Quiet(s, steps, t, l) && Trying(s, t, l)
    ensures Trying(Final(s, steps), t, l) && Reachable(Final(s, steps))
    decreases |steps|
  {
    hide Reachable, Enabled, Apply, Trying, OwnAction;
    if |steps| > 0 {
      TryingKept(s, steps[0].0, steps[0].1, t, l);
      ReachableStep(s, steps[0].0, steps[0].1);
      QuietRun(Apply(s, steps[0].0, steps[0].1), steps[1..], t, l);
    }
  }

  lemma {:induction false} RunsAppend(s: State, steps: seq<(CpuId, Action)>, c: CpuId, a: Action)
    requires Runs(s, steps) && Enabled(Final(s, steps), c, a)
    ensures Runs(s, steps + [(c, a)]) && Final(s, steps + [(c, a)]) == Apply(Final(s, steps), c, a)
    decreases |steps|
  {
    hide Enabled, Apply;
    var all := steps + [(c, a)];
    if steps == [] {
      assert all[1..] == [];
      assert Runs(Apply(s, c, a), all[1..]) && Final(Apply(s, c, a), all[1..]) == Apply(s, c, a);
    } else {
      assert all[1..] == steps[1..] + [(c, a)];
      RunsAppend(Apply(s, steps[0].0, steps[0].1), steps[1..], c, a);
    }
  }

  lemma ReachableStep(s: State, c: CpuId, a: Action)
    requires Reachable(s) && Enabled(s, c, a)
    ensures Reachable(Apply(s, c, a))
  {
    hide Enabled, Apply;
    var n: nat, locks, steps :| Runs(Start(n, locks), steps) && s == Final(Start(n, locks), steps);
    RunsAppend(Start(n, locks), steps, c, a);
    assert Runs(Start(n, locks), steps + [(c, a)]);
  }

  /**
   sleeplock_acquire returns only with the lock held: after task `t` has called it, whatever all CPUs do and however
   often `t` sleeps, the next thing `t` does in its own code finds it the holder.
   */
  lemma AcquireHolds(s: State, c: CpuId, t: Tid, l: LockId, steps: seq<(CpuId, Action)>, e: CpuId, a: Action)
    requires Reachable(s) && c in s.cpus && s.cpus[c].pc == Run(t) && Enabled(s, c, Acquire(l))
    requires Runs(Apply(s, c, Acquire(l)), steps) && Quiet(Apply(s, c, Acquire(l)), steps, t, l)
    requires var u := Final(Apply(s, c, Acquire(l)), steps);
             Enabled(u, e, a) && u.cpus[e].pc == Run(t) && a != Acquire(l)
    ensures var u := Final(Apply(s, c, Acquire(l)), steps); l in u.locks && u.locks[l].holder == Some(t)
  {
    var s1 := Apply(s, c, Acquire(l));
    Begins(s, c, t, l);
    ReachableStep(s, c, Acquire(l));
    QuietRun(s1, steps, t, l);
    var u := Final(s1, steps);
    ReachableInv(u);
    hide Reachable, Apply, Runs, Final, Quiet, Inv;
    NotRetrying(u, e, t, l, a);
    NotTrying(u, e, t, l);
  }

  /** Whoever has to retry a lock can do nothing else. */
  lemma NotRetrying(s: State, c: CpuId, t: Tid, l: LockId, a: Action)
    requires Enabled(s, c, a) && s.cpus[c].pc == Run(t) && a != Acquire(l)
    ensures !Retries(s, t, l)
  {
    hide Wakeable;
  }

  lemma NotTrying(s: State, c: CpuId, t: Tid, l: LockId)
    requires Inv(s) && c in s.cpus && s.cpus[c].pc == Run(t)
    ensures forall d :: !TriesOn(s, d, t, l)
  {
    hide Inv;
    forall d
      ensures !TriesOn(s, d, t, l)
    {
      if TriesOn(s, d, t, l) {
        OneTry(s, d, c, t);
      }
    }
  }

  // Run queues.

  /** What is picked is the head; only a CPU with an empty queue goes idle. */
  lemma PickServes(s: State, c: CpuId, d: CpuId, t: Tid)
    requires Enabled(s, c, Go(d)) && s.cpus[c].pc == Pick(t)
    ensures c in Apply(s, c, Go(d)).cpus
    ensures var k := s.cpus[c]; var next := if k.runQueue == [] then k.idle else k.runQueue[0];
            Apply(s, c, Go(d)).cpus[c].pc == if next == t then Return(t) else SwitchTo(t, next)
  {
  }

  ghost function Served(s: State, steps: seq<(CpuId, Action)>, e: CpuId): nat
    requires Runs(s, steps)
    decreases |steps|
  {
    if |steps| == 0 then 0
    else (if Serves(s, steps[0].0, e) then 1 else 0) + Served(Apply(s, steps[0].0, steps[0].1), steps[1..], e)
  }

  /** First come, first served: in every run the task at place `i` of a queue is the one that pick number `i` takes. */
  lemma {:induction false} FirstComeFirstServed(s: State, steps: seq<(CpuId, Action)>, e: CpuId, i: nat)
    requires Runs(s, steps) && e in s.cpus && i < |s.cpus[e].runQueue| && Served(s, steps, e) <= i
    ensures e in Final(s, steps).cpus
    ensures var k, q' := Served(s, steps, e), Final(s, steps).cpus[e].runQueue;
            i - k < |q'| && q'[i - k] == s.cpus[e].runQueue[i]
    decreases |steps|
  {
    hide Enabled, Apply, Serves;
    if |steps| > 0 {
      StepMoves(s, steps[0].0, steps[0].1);
      var s1 := Apply(s, steps[0].0, steps[0].1);
      FirstComeFirstServed(s1, steps[1..], e, if Serves(s, steps[0].0, e) then i - 1 else i);
    }
  }

  // The end of a task.

  /** How far CPU `c` has come with the zombie `t`, whose parent is `q`. */
  ghost predicate Stage(s: State, c: CpuId, t: Tid, n: Tid, q: Tid, j: nat) {
    && c in s.cpus
    && match j
       case 0 => s.cpus[c].pc == Clear(t, n) && t in s.tasks && s.tasks[t].state == Zombie &&
           s.tasks[t].parent == Some(q)
       case 1 => s.cpus[c].pc == Unlock(t, n, Some(q))
       case 2 => s.cpus[c].pc == DropHandoff(t, n, Some(q))
       case 3 => s.cpus[c].pc == WakeParent(n, q)
       case _ => false
  }

  lemma StageNext(s: State, c: CpuId, a: Action, t: Tid, n: Tid, q: Tid, j: nat)
    requires Enabled(s, c, a) && Stage(s, c, t, n, q, j) && j < 3
    ensures Stage(Apply(s, c, a), c, t, n, q, j + 1)
  {
  }

  lemma StageStays(s: State, c: CpuId, e: CpuId, a: Action, t: Tid, n: Tid, q: Tid, j: nat)
    requires Inv(s) && Enabled(s, e, a) && e in s.cpus && e != c && Stage(s, c, t, n, q, j)
    ensures Stage(Apply(s, e, a), c, t, n, q, j)
  {
    hide *;
    StageIs(s, c, t, n, q, j);
    OtherPc(s, e, a, c);
    if j == 0 {
      Elsewhere(s, c, e, t);
      StepSpares(s, e, a, t);
    }
    StageSame(s, Apply(s, e, a), c, t, n, q, j);
  }

  lemma StageIs(s: State, c: CpuId, t: Tid, n: Tid, q: Tid, j: nat)
    requires Stage(s, c, t, n, q, j)
    ensures c in s.cpus && (j == 0 ==> On(s.cpus[c].pc, t))
  {
  }

  lemma StageSame(s: State, s': State, c: CpuId, t: Tid, n: Tid, q: Tid, j: nat)
    requires Stage(s, c, t, n, q, j) && c in s'.cpus && s'.cpus[c].pc == s.cpus[c].pc
    requires j == 0 ==> t in s.tasks && Spared(s, s', t) && s.tasks[t].oncpu.Some?
    ensures Stage(s', c, t, n, q, j)
  {
  }

  lemma Elsewhere(s: State, c: CpuId, e: CpuId, t: Tid)
    requires Inv(s) && c in s.cpus && e in s.cpus && c != e && On(s.cpus[c].pc, t)
    ensures t in s.tasks && s.tasks[t].oncpu == Some(c) && !On(s.cpus[e].pc, t)
    ensures s.cpus[e].pc != Run(t) && !(s.cpus[e].pc.Acquiring? && s.cpus[e].pc.t == t)
  {
    assert Touches(s.cpus[c].pc, t);
    ViewIs(s, c, t);
    ViewIs(s, e, t);
    hide Inv, TaskOk, Distinct, Facts;
  }

  lemma Acts(s: State, c: CpuId, a: Action)
    requires Enabled(s, c, a)
    ensures c in s.cpus
  {
  }

  /** The steps of a run that CPU `c` takes. */
  function Own(steps: seq<(CpuId, Action)>, c: CpuId): nat {
    if steps == [] then 0 else (if steps[0].0 == c then 1 else 0) + Own(steps[1..], c)
  }

  lemma {:induction false} StagesRun(s: State, steps: seq<(CpuId, Action)>, c: CpuId, t: Tid, n: Tid, q: Tid, j: nat)
    requires Inv(s) && Runs(s, steps) && Stage(s, c, t, n, q, j) && j + Own(steps, c) <= 3
    ensures Stage(Final(s, steps), c, t, n, q, j + Own(steps, c))
    decreases |steps|
  {
    hide Inv, Enabled, Apply, Stage;
    if |steps| > 0 {
      var (e, a) := steps[0];
      Acts(s, e, a);
      ApplyKeeps(s, e, a);
      if e == c {
        StageNext(s, c, a, t, n, q, j);
        StagesRun(Apply(s, e, a), steps[1..], c, t, n, q, j + 1);
      } else {
        StageStays(s, c, e, a, t, n, q, j);
        StagesRun(Apply(s, e, a), steps[1..], c, t, n, q, j);
      }
    }
  }

  /**
   A task that has exited wakes its parent: once its CPU has left it and gone on for three steps, whatever the others
   do meanwhile, the fourth takes the parent off the sleep queue if it is there.
   */
  lemma ExitWakesParent(s: State, c: CpuId, t: Tid, n: Tid, q: Tid, steps: seq<(CpuId, Action)>, a: Action)
    requires Reachable(s) && c in s.cpus && s.cpus[c].pc == Clear(t, n) && t in s.tasks
    requires s.tasks[t].state == Zombie && s.tasks[t].parent == Some(q)
    requires Runs(s, steps) && Own(steps, c) == 3 && Enabled(Final(s, steps), c, a) && q in Final(s, steps).sleepQueue
    ensures var u := Apply(Final(s, steps), c, a); q in u.tasks && q !in u.sleepQueue && u.tasks[q].state == Running
  {
    ReachableInv(s);
    assert Stage(s, c, t, n, q, 0);
    StagesRun(s, steps, c, t, n, q, 0);
    RunsKeep(s, steps);
    var u := Final(s, steps);
    hide Runs, Final, Reachable, Own;
    ParentWoken(u, c, a, n, q);
  }

  lemma ParentWoken(s: State, c: CpuId, a: Action, n: Tid, q: Tid)
    requires Inv(s) && Enabled(s, c, a) && s.cpus[c].pc == WakeParent(n, q) && q in s.sleepQueue
    ensures var u := Apply(s, c, a); q in u.tasks && q !in u.sleepQueue && u.tasks[q].state == Running
  {
    RemovedGone(s.sleepQueue, q);
    hide Inv, Removed, Sleeper;
  }

  lemma {:induction false} RemovedGone(l: seq<Tid>, q: Tid)
    ensures q !in Removed(l, q)
  {
    if |l| > 0 {
      RemovedGone(l[1..], q);
    }
  }
}
