/**
 Whole runs of the address-space operations: any sequence of faults, stores, munmaps, mmaps of both
 kinds, mprotects, forks and exits, by any processes in any order.
 */
module UvmRun {
  import opened Cow
  import opened FileMap
  import opened Vma
  import opened UvmLink
  import opened MmapSearch
  import opened Uvm

  datatype Op =
    | FaultOp(pid: nat, page: nat, write: bool, instr: bool)
    | StoreOp(pid: nat, page: nat, i: nat, b: int)
    | UnmapOp(pid: nat, addr: nat, n: nat)
    | MapOp(pid: nat, hint: nat, n: nat, isFixed: bool, p: Prot, heapStart: nat, top: nat, fixtures: seq<Region>)
    | MapFileOp(pid: nat, hint: nat, n: nat, isFixed: bool, p: Prot, heapStart: nat, top: nat, fixtures: seq<Region>,
                offset: nat, cached: seq<Frame>)
    | ProtectOp(pid: nat, addr: nat, n: nat, p: Prot)
    | ForkOp(parent: nat, pid: nat)
    | ExitOp(pid: nat)

  /** The process is there, protections come out of prot_to_pte, and page-cache pages are in the cache. */
  predicate Admitted(spaces: map<nat, seq<Region>>, fmem: map<Frame, Bytes>, op: Op) {
    match op
    case MapOp(pid, _, _, _, p, _, _, _) => pid in spaces && (p.w ==> p.r)
    case MapFileOp(pid, _, n, _, p, _, _, _, _, cached) =>
      pid in spaces && (p.w ==> p.r) && |cached| == n && forall i :: 0 <= i < |cached| ==> cached[i] in fmem
    case ProtectOp(pid, _, _, p) => pid in spaces && (p.w ==> p.r)
    case ForkOp(parent, pid) => parent in spaces && pid !in spaces
    case _ => op.pid in spaces
  }

  /** The operation is not an mprotect that makes a frame writable which is shared without a mark. */
  ghost predicate Harmless(w: World, op: Op) {
    op.ProtectOp? && 0 < op.n && op.addr <= USER_PAGES && op.n <= USER_PAGES - op.addr ==>
      RangeMay(w, op.pid, op.addr, op.addr + op.n, op.p)
  }

  /** No VMA the range touches gains write permission. */
  predicate KeepsWrite(rs: seq<Region>, addr: nat, n: nat, p: Prot) {
    p.w ==> forall i :: 0 <= i < |rs| && RangesOverlap(addr, n, rs[i].start, |rs[i].slots|) ==> rs[i].prot.w
  }

  lemma {:induction false} WritableLookup(rs: seq<Region>, addr: nat, n: nat, p: Prot, page: nat)
    requires KeepsWrite(rs, addr, n, p) && addr <= page < addr + n
    ensures Lookup(rs, page).Some? && p.w ==> Lookup(rs, page).value.prot.w
  {
    if |rs| > 0 && !Covers(rs[0], page) {
      assert KeepsWrite(rs[1..], addr, n, p);
      WritableLookup(rs[1..], addr, n, p, page);
    }
  }

  /** An mprotect that adds no write permission to any region is harmless. */
  lemma KeepsWriteMay(w: World, pid: nat, rs: seq<Region>, addr: nat, n: nat, p: Prot)
    requires Inv(w) && SharedIsCow(w) && SpaceOk(Anon, w.prot, w.own, pid, rs) && KeepsWrite(rs, addr, n, p)
    ensures RangeMay(w, pid, addr, addr + n, p)
  {
    hide MayProtect, Inv, KeepsWrite, Lookup, SharedIsCow;
    forall page | addr <= page < addr + n
      ensures MayProtect(w, Key(pid, page), p)
    {
      assert LinkedPage(Anon, w.prot, w.own, pid, rs, page);
      WritableLookup(rs, addr, n, p, page);
      if Key(pid, page) in w.prot {
        KeepingWrite(w, Key(pid, page), p);
      } else {
        UnownedMay(w, Key(pid, page), p);
      }
    }
  }

  lemma UnownedMay(w: World, k: Key, p: Prot)
    requires k !in w.own
    ensures MayProtect(w, k, p)
  {
  }

  lemma AdmittedIs(spaces: map<nat, seq<Region>>, fmem: map<Frame, Bytes>, op: Op)
    requires Admitted(spaces, fmem, op)
    ensures if op.ForkOp? then op.parent in spaces && op.pid !in spaces else op.pid in spaces
    ensures op.MapOp? || op.ProtectOp? || op.MapFileOp? ==> (op.p.w ==> op.p.r)
    ensures op.MapFileOp? ==> |op.cached| == op.n && forall i :: 0 <= i < |op.cached| ==> op.cached[i] in fmem
  {
  }

  lemma HarmlessIs(w: World, op: Op)
    requires op.ProtectOp?
    ensures if op.n == 0 || op.addr > USER_PAGES || op.n > USER_PAGES - op.addr then Harmless(w, op)
            else Harmless(w, op) <==> RangeMay(w, op.pid, op.addr, op.addr + op.n, op.p)
  {
  }

  lemma HarmlessElse(w: World, op: Op)
    requires !op.ProtectOp?
    ensures Harmless(w, op)
  {
  }

  /** What one step means for the sharing rule and for everybody else's anonymous memory. */
  ghost predicate StepOk(w: World, w': World, op: Op) {
    SharedIsCow(w) ==> OthersSame(w, w', op.pid) && (Harmless(w, op) ==> SharedIsCow(w'))
  }

  lemma StepIs(w: World, w': World, op: Op)
    requires OthersSame(w, w', op.pid) && (Keeps(w, w') || (SharedIsCow(w) && Harmless(w, op) ==> SharedIsCow(w')))
    ensures StepOk(w, w', op)
  {
    hide OthersSame, SharedIsCow, Harmless;
  }

  /** One admitted operation; under the sharing rule it changes nothing any other process reads in anonymous memory. */
  method Perform(k: Kernel, op: Op)
    requires k.Valid() && k.Filled()
    modifies k
    ensures k.Valid() && k.Filled() && StepOk(old(k.W()), k.W(), op)
    ensures !Admitted(old(k.spaces), old(k.fmem), op) ==>
            k.W() == old(k.W()) && k.F() == old(k.F()) && k.spaces == old(k.spaces)
    ensures k.spaces.Keys == if !Admitted(old(k.spaces), old(k.fmem), op) then old(k.spaces.Keys)
                             else if op.ForkOp? then old(k.spaces.Keys) + {op.pid}
                             else if op.ExitOp? then old(k.spaces.Keys) - {op.pid} else old(k.spaces.Keys)
  {
    hide *;
    ghost var w := k.W();
    OthersSameRefl(w, op.pid);
    k.ValidInv();
    KeepsRefl(w);
    if !Admitted(k.spaces, k.fmem, op) {
      StepIs(w, k.W(), op);
      return;
    }
    AdmittedIs(k.spaces, k.fmem, op);
    match op {
      case FaultOp(pid, page, write, instr) =>
        var _ := k.HandleFault(pid, page, write, instr);
        LocalStep(w, k.W(), pid, page);
        StepIs(w, k.W(), op);
      case StoreOp(pid, page, i, b) =>
        var _ := DoStore(k, op);
      case UnmapOp(pid, addr, n) =>
        var err := k.Munmap(pid, addr, n);
        if err == Ok {
          OthersFromPages(w, k.W(), pid, addr, addr + n);
        }
        StepIs(w, k.W(), op);
      case MapOp(pid, hint, n, isFixed, p, heapStart, top, fixtures) =>
        var c := k.MmapAnon(pid, hint, n, isFixed, p, heapStart, top, fixtures);
        if c.Chosen? {
          OthersFromPages(w, k.W(), pid, c.addr, c.addr + n);
        }
        StepIs(w, k.W(), op);
      case MapFileOp(pid, hint, n, isFixed, p, heapStart, top, fixtures, offset, cached) =>
        var _ := k.MmapShared(pid, hint, n, isFixed, p, heapStart, top, fixtures, offset, cached);
        StepIs(w, k.W(), op);
      case ProtectOp(pid, addr, n, p) =>
        DoProtect(k, op);
      case ForkOp(parent, pid) =>
        k.Fork(parent, pid);
        StepIs(w, k.W(), op);
      case ExitOp(pid) =>
        k.Exit(pid);
        StepIs(w, k.W(), op);
    }
  }

  method DoStore(k: Kernel, op: Op) returns (err: Error)
    requires k.Valid() && k.Filled() && op.StoreOp? && op.pid in k.spaces
    modifies k
    ensures k.Valid() && k.Filled() && k.spaces.Keys == old(k.spaces.Keys) && StepOk(old(k.W()), k.W(), op)
    ensures var info := Lookup(old(k.spaces)[op.pid], op.page);
            && err == Outcome(info, true, false)
            && (err == Ok && info.value.kind == Anon ==>
                  Read(k.W(), Key(op.pid, op.page)) == SetByte(Read(old(k.W()), Key(op.pid, op.page)), op.i, op.b))
  {
    hide *;
    ghost var w, info := k.W(), Lookup(k.spaces[op.pid], op.page);
    k.SoundIs();
    k.FilledIs();
    err := k.StoreByte(op.pid, op.page, op.i, op.b);
    k.FilledIs();
    if err == Ok {
      OutcomeOk(info, true, false);
    }
    HarmlessElse(w, op);
    if SharedIsCow(w) {
      LocalStep(w, k.W(), op.pid, op.page);
      StepIs(w, k.W(), op);
    } else {
      StepAway(w, k.W(), op);
    }
  }

  lemma StepAway(w: World, w': World, op: Op)
    requires !SharedIsCow(w)
    ensures StepOk(w, w', op)
  {
  }

  method DoProtect(k: Kernel, op: Op)
    requires k.Valid() && k.Filled() && op.ProtectOp? && op.pid in k.spaces && (op.p.w ==> op.p.r)
    modifies k
    ensures k.Valid() && k.Filled() && k.spaces.Keys == old(k.spaces.Keys) && StepOk(old(k.W()), k.W(), op)
  {
    hide *;
    ghost var w := k.W();
    k.SoundIs();
    k.ValidInv();
    OthersSameRefl(w, op.pid);
    KeepsRefl(w);
    HarmlessIs(w, op);
    var err := k.Mprotect(op.pid, op.addr, op.n, op.p);
    k.SoundIs();
    if err == Ok {
      ProtectedOthers(w, k.W(), op.pid, op.addr, op.addr + op.n, op.p);
    }
    StepIs(w, k.W(), op);
  }

  /** A run of worlds in which step `i` is taken by process `actors[i]`. */
  ghost predicate RunOk(run: seq<World>, actors: seq<nat>) {
    |run| == |actors| + 1 && forall i :: 0 <= i < |actors| ==> OthersSame(run[i], run[i + 1], actors[i])
  }

  /** The pages of process `q` are the same in both worlds and read the same. */
  ghost predicate Untouched(w: World, w': World, q: nat) {
    forall k: Key :: k.pid == q ==>
      && (k in w'.prot <==> k in w.prot)
      && (k in w.prot ==> w'.prot[k] == w.prot[k] && Read(w', k) == Read(w, k))
  }

  /** Over any run in which process `q` does not act, nothing it reads changes. */
  lemma {:induction false} RunLeavesOthers(run: seq<World>, actors: seq<nat>, q: nat, n: nat)
    requires RunOk(run, actors) && n <= |actors| && forall i :: 0 <= i < n ==> actors[i] != q
    ensures Untouched(run[0], run[n], q)
  {
    hide Read;
    if n > 0 {
      RunLeavesOthers(run, actors, q, n - 1);
      assert OthersSame(run[n - 1], run[n - 1 + 1], actors[n - 1]);
    }
  }

  /**
   Parent and child start from the same bytes at the fork, and from then on whatever one of them and
   all the other processes do, the other still reads what it read at the fork.
   */
  lemma {:induction false} ForkIsolation(w: World, parent: nat, child: nat, run: seq<World>, actors: seq<nat>, n: nat)
    requires parent != child && RunOk(run, actors) && n <= |actors|
    requires OthersSame(w, run[0], child) && ForkedFrom(w, run[0], parent, child)
    ensures (forall i :: 0 <= i < n ==> actors[i] != parent) ==> Untouched(w, run[n], parent)
    ensures (forall i :: 0 <= i < n ==> actors[i] != child) ==> ForkedFrom(w, run[n], parent, child)
  {
    hide Read;
    if forall i :: 0 <= i < n ==> actors[i] != parent {
      RunLeavesOthers(run, actors, parent, n);
    }
    if forall i :: 0 <= i < n ==> actors[i] != child {
      RunLeavesOthers(run, actors, child, n);
      forall page: nat
        ensures var k, k' := Key(parent, page), Key(child, page);
                (k' in run[n].prot <==> k in w.prot) &&
                    (k in w.prot ==> run[n].prot[k'] == w.prot[k] && Read(run[n], k') == Read(w, k))
      {
        assert Key(child, page).pid == child;
      }
    }
  }

  /** A run of the operations: each step is sound, and harmless unless its number says otherwise. */
  ghost predicate Ran(run: seq<World>, ops: seq<Op>) {
    && |run| == |ops| + 1 && (forall i :: 0 <= i < |run| ==> Inv(run[i]))
    && forall i :: 0 <= i < |ops| ==> StepOk(run[i], run[i + 1], ops[i])
  }

  /** Any sequence of operations is such a run. */
  method PerformAll(k: Kernel, ops: seq<Op>) returns (ghost run: seq<World>)
    requires k.Valid() && k.Filled()
    modifies k
    ensures k.Valid() && k.Filled() && Ran(run, ops) && run[0] == old(k.W()) && run[|ops|] == k.W()
    ensures k.Confined()
  {
    hide *;
    run := [k.W()];
    k.ValidInv();
    for n := 0 to |ops|
      invariant k.Valid() && k.Filled() && |run| == n + 1 && run[0] == old(k.W()) && run[n] == k.W()
      invariant forall i :: 0 <= i < n ==> StepOk(run[i], run[i + 1], ops[i])
      invariant forall i :: 0 <= i <= n ==> Inv(run[i])
    {
      Perform(k, ops[n]);
      k.ValidInv();
      run := run + [k.W()];
    }
    RanMake(run, ops);
    k.EntriesConfined();
  }

  lemma RanMake(run: seq<World>, ops: seq<Op>)
    requires |run| == |ops| + 1 && (forall i :: 0 <= i < |run| ==> Inv(run[i]))
    requires forall i :: 0 <= i < |ops| ==> StepOk(run[i], run[i + 1], ops[i])
    ensures Ran(run, ops)
  {
    hide Inv, StepOk;
  }

  /** Up to step `n` no mprotect breaks the sharing rule. */
  ghost predicate HarmlessTo(run: seq<World>, ops: seq<Op>, n: nat)
    requires n <= |ops| < |run|
  {
    forall i :: 0 <= i < n ==> Harmless(run[i], ops[i])
  }

  lemma {:induction false} RuleHolds(run: seq<World>, ops: seq<Op>, n: nat)
    requires Ran(run, ops) && n <= |ops| && SharedIsCow(run[0]) && HarmlessTo(run, ops, n)
    ensures SharedIsCow(run[n])
  {
    hide SharedIsCow, Harmless, Inv;
    if n > 0 {
      RuleHolds(run, ops, n - 1);
      assert StepOk(run[n - 1], run[n - 1 + 1], ops[n - 1]);
    }
  }

  ghost function Actors(ops: seq<Op>, n: nat): seq<nat>
    requires n <= |ops|
  {
    seq(n, i requires 0 <= i < n => ops[i].pid)
  }

  lemma StepsAreRun(run: seq<World>, ops: seq<Op>, n: nat)
    requires Ran(run, ops) && n <= |ops| && SharedIsCow(run[0]) && HarmlessTo(run, ops, n)
    ensures RunOk(run[..n + 1], Actors(ops, n))
  {
    hide SharedIsCow, Harmless, Inv, OthersSame;
    forall i | 0 <= i < n
      ensures OthersSame(run[..n + 1][i], run[..n + 1][i + 1], Actors(ops, n)[i])
    {
      RuleHolds(run, ops, i);
      assert StepOk(run[i], run[i + 1], ops[i]);
    }
  }

  /** What parent and child read at step `n`, as long as no mprotect has broken the sharing rule before. */
  ghost predicate Isolated(w: World, run: seq<World>, ops: seq<Op>, parent: nat, child: nat, n: nat)
    requires n <= |ops| < |run|
  {
    HarmlessTo(run, ops, n) ==>
      && SharedIsCow(run[n])
      && ((forall i :: 0 <= i < n ==> ops[i].pid != parent) ==> Untouched(w, run[n], parent))
      && ((forall i :: 0 <= i < n ==> ops[i].pid != child) ==> ForkedFrom(w, run[n], parent, child))
  }

  lemma IsolatedAt(w: World, run: seq<World>, ops: seq<Op>, parent: nat, child: nat, n: nat)
    requires Ran(run, ops) && n <= |ops| && parent != child && SharedIsCow(run[0])
    requires OthersSame(w, run[0], child) && ForkedFrom(w, run[0], parent, child)
    ensures Isolated(w, run, ops, parent, child, n)
  {
    hide SharedIsCow, Harmless, Inv, OthersSame, ForkedFrom, Untouched, StepOk;
    if HarmlessTo(run, ops, n) {
      RuleHolds(run, ops, n);
      StepsAreRun(run, ops, n);
      ForkIsolation(w, parent, child, run[..n + 1], Actors(ops, n), n);
    }
  }

  /**
   Fork, then any operations: while the parent does not act it reads what it read before the fork,
   and while the child does not act it reads what the parent read at the fork, whatever everyone
   else does, stores included. In every state of the run reference counts are exact (Cow.Inv), and as long as
   no mprotect makes writable a frame shared without a mark, a writable page table entry has a sole owner.
   */
  method ForkThenPerform(k: Kernel, parent: nat, child: nat, ops: seq<Op>) returns (ghost run: seq<World>)
    requires k.Valid() && k.Filled() && k.Sound() && parent in k.spaces && child !in k.spaces
    modifies k
    ensures k.Valid() && k.Filled() && |run| == |ops| + 1 && run[|ops|] == k.W()
    ensures forall n :: 0 <= n <= |ops| ==> Inv(run[n]) && Isolated(old(k.W()), run, ops, parent, child, n)
  {
    hide *;
    k.SoundIs();
    k.Fork(parent, child);
    KeepsIs(old(k.W()), k.W());
    run := PerformAll(k, ops);
    RanIs(run, ops);
    forall n | 0 <= n <= |ops|
      ensures Isolated(old(k.W()), run, ops, parent, child, n)
    {
      IsolatedAt(old(k.W()), run, ops, parent, child, n);
    }
  }

  lemma RanIs(run: seq<World>, ops: seq<Op>)
    requires Ran(run, ops)
    ensures |run| == |ops| + 1 && forall i :: 0 <= i < |run| ==> Inv(run[i])
  {
  }
}
