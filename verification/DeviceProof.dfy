/** What every run of the device model keeps. */
module DeviceProof {
  import opened DeviceModel

  /** Other threads see nothing they rely on change. */
  ghost predicate Kept(g: Device, g': Device, t: Tid) {
    && (g'.prober == g.prober || (g.prober == None && g'.prober == Some(t)) ||
       (g.prober == Some(t) && g'.prober == None))
    && (g.prober.Some? && g.prober != Some(t) ==> g'.driver == g.driver && g'.succeeded == g.succeeded)
    && g'.owing - {t} == g.owing - {t}
  }

  /** Owing for this thread may change without anyone noticing. */
  lemma OwingBut(owing: map<Tid, DrvId>, t: Tid, drv: DrvId)
    ensures owing[t := drv] - {t} == owing - {t} && (owing - {t}) - {t} == owing - {t}
  {
  }

  /** The thread works on device `d` only, and goes on sweeping whatever else it was sweeping. */
  ghost predicate Elsewhere(pc: Pc, pc': Pc, d: DevId) {
    && (forall e :: e != d ==> !Probes(pc, e) && !Probes(pc', e) && !Owes(pc, e) && !Owes(pc', e))
    && (forall e, drv :: e != d && Sweeping(pc, drv, e) ==> Sweeping(pc', drv, e))
  }

  /** If the device is bound now, it was bound before and is still looked after, or its driver is registered. */
  ghost predicate StillSwept(s: State, g: Device, g': Device, pc: Pc, pc': Pc, d: DevId) {
    g'.state == Bound && g'.driver.Some? ==>
      || Registered(s, g'.driver.value)
      || (g.state == Bound && g.driver == g'.driver &&
          (Sweeping(pc, g'.driver.value, d) ==> Sweeping(pc', g'.driver.value, d)))
  }

  lemma PairKept(pc: Pc, g: Device, g': Device, t: Tid, u: Tid, d: DevId)
    requires PairOk(pc, g, u, d) && Kept(g, g', t) && u != t
    ensures PairOk(pc, g', u, d)
  {
    assert u in g.owing - {t} <==> u in g.owing;
    assert u in g'.owing - {t} <==> u in g'.owing;
    assert u in g.owing ==> (g.owing - {t})[u] == g.owing[u] && (g'.owing - {t})[u] == g'.owing[u];
  }

  lemma LocalPairs(s: State, d: DevId, g': Device, t: Tid, pc': Pc)
    requires Inv(s) && d in s.devices && DevOk(g', s.drivers) && PairOk(pc', g', t, d) && Kept(s.devices[d], g', t)
    requires Elsewhere(PcOf(s, t), pc', d) && PcClosed(pc', s.devices.Keys, s.drivers.Keys)
    ensures var s' := Put(s, d, g', t, pc');
            && (forall e :: e in s'.devices ==> DevOk(s'.devices[e], s'.drivers))
            && (forall u: Tid, e :: e in s'.devices ==> PairOk(PcOf(s', u), s'.devices[e], u, e))
            && (forall u: Tid :: PcClosed(PcOf(s', u), s'.devices.Keys, s'.drivers.Keys))
  {
    hide DevOk, Swept;
    var s' := Put(s, d, g', t, pc');
    assert s'.devices.Keys == s.devices.Keys;
    forall u: Tid, e | e in s'.devices
      ensures PairOk(PcOf(s', u), s'.devices[e], u, e)
    {
      assert PairOk(PcOf(s, u), s.devices[e], u, e);
      if u != t && e == d {
        PairKept(PcOf(s, u), s.devices[d], g', t, u, d);
      }
    }
    hide PairOk;
    forall u: Tid
      ensures PcClosed(PcOf(s', u), s'.devices.Keys, s'.drivers.Keys)
    {
      assert PcClosed(PcOf(s, u), s.devices.Keys, s.drivers.Keys);
    }
  }

  lemma LocalSwept(s: State, d: DevId, g': Device, t: Tid, pc': Pc)
    requires Inv(s) && d in s.devices && Elsewhere(PcOf(s, t), pc', d) &&
             StillSwept(s, s.devices[d], g', PcOf(s, t), pc', d)
    ensures forall e :: e in s.devices ==> Swept(Put(s, d, g', t, pc'), e)
  {
    hide DevOk, PairOk, PcClosed, Probes, Owes;
    var s' := Put(s, d, g', t, pc');
    forall e | e in s.devices
      ensures Swept(s', e)
    {
      assert Swept(s, e);
      var g := s'.devices[e];
      if g.state == Bound && g.driver.Some? && !Registered(s', g.driver.value) && !Unswept(s', g.driver.value) {
        var u :| Sweeping(PcOf(s, u), g.driver.value, e);
        assert Sweeping(PcOf(s', u), g.driver.value, e);
      }
    }
  }

  lemma Local(s: State, d: DevId, g': Device, t: Tid, pc': Pc)
    requires Inv(s) && d in s.devices && DevOk(g', s.drivers) && PairOk(pc', g', t, d) && Kept(s.devices[d], g', t)
    requires Elsewhere(PcOf(s, t), pc', d) && PcClosed(pc', s.devices.Keys, s.drivers.Keys)
    requires StillSwept(s, s.devices[d], g', PcOf(s, t), pc', d)
    ensures Inv(Put(s, d, g', t, pc'))
  {
    hide DevOk, PairOk, PcClosed, Swept, Elsewhere, Kept, StillSwept;
    LocalPairs(s, d, g', t, pc');
    LocalSwept(s, d, g', t, pc');
  }

  lemma Here(s: State, t: Tid, d: DevId)
    requires Inv(s) && d in s.devices
    ensures DevOk(s.devices[d], s.drivers) && PairOk(PcOf(s, t), s.devices[d], t, d) &&
            PcClosed(PcOf(s, t), s.devices.Keys, s.drivers.Keys)
  {
  }

  /** What a step on device `d` may use. */
  lemma Facts(s: State, t: Tid, d: DevId, drv: DrvId)
    requires Inv(s) && d in s.devices
    ensures var g := s.devices[d]; BindOk(g, s.drivers) && CountsOk(g, s.drivers) && PairOk(PcOf(s, t), g, t, d)
    ensures !PcOf(s, t).CallRemove? ==> t !in s.devices[d].owing
    ensures HasRemove(s, drv) <==> drv in s.drivers && s.drivers[drv].hasRemove
  {
    Here(s, t, d);
    hide Inv, BindOk, CountsOk;
  }

  lemma DevOkIs(g: Device, drivers: map<DrvId, Driver>)
    requires BindOk(g, drivers) && CountsOk(g, drivers)
    ensures DevOk(g, drivers)
  {
    hide BindOk, CountsOk;
  }

  lemma ClaimKeeps(s: State, t: Tid, d: DevId, drv: DrvId)
    requires Inv(s) && PcOf(s, t) == Idle && d in s.devices &&
             (s.devices[d].state == Added || s.devices[d].state == Deferred) && Registered(s, drv)
    ensures Inv(Put(s, d, Claim(s.devices[d], t, drv), t, Claimed(d, drv)))
  {
    Here(s, t, d);
    hide Inv, CountsOk;
    CountsSame(s.devices[d], Claim(s.devices[d], t, drv), s.drivers);
    Local(s, d, Claim(s.devices[d], t, drv), t, Claimed(d, drv));
  }

  lemma ReturnKeeps(s: State, t: Tid, d: DevId, drv: DrvId, err: int)
    requires Inv(s) && PcOf(s, t) == Claimed(d, drv) && d in s.devices
    ensures var g := s.devices[d];
            Inv(Put(s, d, Returned(g, drv, err, HasRemove(s, drv)), t, Probed(d, drv, err)))
  {
    Here(s, t, d);
    hide Inv;
    var g := s.devices[d];
    CountsReturned(g, s.drivers, drv, err, HasRemove(s, drv));
    hide CountsOk;
    Local(s, d, Returned(g, drv, err, HasRemove(s, drv)), t, Probed(d, drv, err));
  }

  lemma OwingMore(owing: map<Tid, DrvId>, t: Tid, drv: DrvId, other: DrvId)
    ensures t !in owing ==> |Owing(owing[t := drv], other)| == |Owing(owing, other)| + if other == drv then 1 else 0
    ensures t in owing && owing[t] == drv ==>
            |Owing(owing - {t}, other)| == |Owing(owing, other)| - if other == drv then 1 else 0
  {
    if t !in owing {
      assert Owing(owing[t := drv], other) == Owing(owing, other) + if other == drv then {t} else {};
    }
    if t in owing && owing[t] == drv {
      assert Owing(owing - {t}, other) == Owing(owing, other) - if other == drv then {t} else {};
    }
  }

  /** The counts after this thread has taken on a remove call for the success that the device held. */
  lemma CountsOwe(g: Device, g': Device, drivers: map<DrvId, Driver>, t: Tid, drv: DrvId)
    requires CountsOk(g, drivers) && t !in g.owing && Holding(g, drivers, drv)
    requires g'.owing == g.owing[t := drv] && g'.ok == g.ok && g'.made == g.made && !(g'.state == Bound || g'.succeeded)
    ensures CountsOk(g', drivers)
  {
    forall other: DrvId
      ensures g'.ok[other] == g'.made[other] + |Owing(g'.owing, other)| + if Holding(g', drivers, other) then 1 else 0
    {
      assert g.ok[other] == g.made[other] + |Owing(g.owing, other)| + if Holding(g, drivers, other) then 1 else 0;
      OwingMore(g.owing, t, drv, other);
      hide Owing;
    }
  }

  /** The counts after a change that holds the same success. */
  lemma CountsSame(g: Device, g': Device, drivers: map<DrvId, Driver>)
    requires CountsOk(g, drivers) && g'.ok == g.ok && g'.made == g.made && g'.owing == g.owing
    requires forall drv: DrvId :: Holding(g', drivers, drv) <==> Holding(g, drivers, drv)
    ensures CountsOk(g', drivers)
  {
    hide Owing, Holding;
  }

  lemma CountsReturned(g: Device, drivers: map<DrvId, Driver>, drv: DrvId, err: int, hasRemove: bool)
    requires CountsOk(g, drivers) && g.driver == Some(drv) && !(g.state == Bound || g.succeeded)
    requires hasRemove <==> drv in drivers && drivers[drv].hasRemove
    ensures CountsOk(Returned(g, drv, err, hasRemove), drivers)
  {
    hide Owing;
  }

  lemma CountsCalled(g: Device, drivers: map<DrvId, Driver>, t: Tid, drv: DrvId)
    requires CountsOk(g, drivers) && t in g.owing && g.owing[t] == drv
    ensures CountsOk(Called(g, drv, t), drivers)
  {
    var g' := Called(g, drv, t);
    forall other: DrvId
      ensures g'.ok[other] == g'.made[other] + |Owing(g'.owing, other)| + if Holding(g', drivers, other) then 1 else 0
    {
      assert g.ok[other] == g.made[other] + |Owing(g.owing, other)| + if Holding(g, drivers, other) then 1 else 0;
      OwingMore(g.owing, t, drv, other);
      hide Owing;
    }
  }

  lemma FinishCounts(g: Device, drivers: map<DrvId, Driver>, drv: DrvId, err: int, registered: bool, hasRemove: bool,
                     t: Tid)
    requires CountsOk(g, drivers) && t !in g.owing && g.driver == Some(drv) && g.state != Bound &&
             (g.succeeded <==> err == 0)
    requires hasRemove <==> drv in drivers && drivers[drv].hasRemove
    ensures CountsOk(Finish(g, drv, err, registered, hasRemove, t).0, drivers)
  {
    hide CountsOk;
    var (g', remove) := Finish(g, drv, err, registered, hasRemove, t);
    if remove && g'.state != Bound {
      CountsOwe(g, g', drivers, t, drv);
    } else {
      CountsSame(g, g', drivers);
    }
  }

  lemma FinishDev(g: Device, drivers: map<DrvId, Driver>, drv: DrvId, err: int, registered: bool, hasRemove: bool,
                  t: Tid, d: DevId)
    requires BindOk(g, drivers) && PairOk(Probed(d, drv, err), g, t, d)
    ensures var (g', remove) := Finish(g, drv, err, registered, hasRemove, t);
            BindOk(g', drivers) && PairOk(Removal(remove, d, drv, Done), g', t, d) && Kept(g, g', t)
  {
    OwingBut(g.owing, t, drv);
  }

  lemma ProbedIs(g: Device, drivers: map<DrvId, Driver>, drv: DrvId, err: int, t: Tid, d: DevId)
    requires BindOk(g, drivers) && PairOk(Probed(d, drv, err), g, t, d)
    ensures g.driver == Some(drv) && g.state != Bound && (g.succeeded <==> err == 0)
  {
  }

  lemma FinishElse(s: State, t: Tid, d: DevId, drv: DrvId, err: int)
    requires d in s.devices && PcOf(s, t) == Probed(d, drv, err)
    requires var g := s.devices[d]; g.driver == Some(drv) && g.state != Bound
    ensures var (g', remove) := Finish(s.devices[d], drv, err, Registered(s, drv), HasRemove(s, drv), t);
            var pc' := Removal(remove, d, drv, Done);
            && Elsewhere(PcOf(s, t), pc', d) && PcClosed(pc', s.devices.Keys, s.drivers.Keys)
            && StillSwept(s, s.devices[d], g', PcOf(s, t), pc', d)
  {
  }

  /** The probing thread still owns the device: its driver is the one this thread claimed it for. */
  lemma FinishKeeps(s: State, t: Tid, d: DevId, drv: DrvId, err: int)
    requires Inv(s) && PcOf(s, t) == Probed(d, drv, err) && d in s.devices
    ensures var (g', remove) := Finish(s.devices[d], drv, err, Registered(s, drv), HasRemove(s, drv), t);
            Inv(Put(s, d, g', t, Removal(remove, d, drv, Done)))
  {
    hide *;
    Facts(s, t, d, drv);
    var g := s.devices[d];
    var (g', remove) := Finish(g, drv, err, Registered(s, drv), HasRemove(s, drv), t);
    ProbedIs(g, s.drivers, drv, err, t, d);
    FinishCounts(g, s.drivers, drv, err, Registered(s, drv), HasRemove(s, drv), t);
    FinishDev(g, s.drivers, drv, err, Registered(s, drv), HasRemove(s, drv), t, d);
    FinishElse(s, t, d, drv, err);
    DevOkIs(g', s.drivers);
    Local(s, d, g', t, Removal(remove, d, drv, Done));
  }

  lemma DelCounts(g: Device, drivers: map<DrvId, Driver>, hasRemove: bool, t: Tid)
    requires CountsOk(g, drivers) && BindOk(g, drivers) && g.registered && t !in g.owing
    requires hasRemove <==> g.driver.Some? && g.driver.value in drivers && drivers[g.driver.value].hasRemove
    ensures CountsOk(Del(g, hasRemove, t).0, drivers)
  {
    hide CountsOk;
    var (g', remove) := Del(g, hasRemove, t);
    if remove {
      CountsOwe(g, g', drivers, t, g.driver.value);
    } else {
      CountsSame(g, g', drivers);
    }
  }

  lemma DelDev(g: Device, drivers: map<DrvId, Driver>, hasRemove: bool, t: Tid, d: DevId)
    requires BindOk(g, drivers) && PairOk(Idle, g, t, d) && g.registered
    ensures var (g', remove) := Del(g, hasRemove, t);
            && (remove ==> g.driver.Some?) && BindOk(g', drivers)
            && PairOk(Removal(remove, d, if remove then g.driver.value else 0, Done), g', t, d) && Kept(g, g', t)
  {
    if g.driver.Some? {
      OwingBut(g.owing, t, g.driver.value);
    }
  }

  lemma DelElse(s: State, t: Tid, d: DevId)
    requires d in s.devices && PcOf(s, t) == Idle
    ensures var g := s.devices[d];
            var (g', remove) := Del(g, g.driver.Some? && HasRemove(s, g.driver.value), t);
            var pc' := Removal(remove, d, if remove then g.driver.value else 0, Done);
            && Elsewhere(PcOf(s, t), pc', d) && PcClosed(pc', s.devices.Keys, s.drivers.Keys)
            && StillSwept(s, s.devices[d], g', PcOf(s, t), pc', d)
  {
  }

  lemma DeleteKeeps(s: State, t: Tid, d: DevId)
    requires Inv(s) && PcOf(s, t) == Idle && d in s.devices && s.devices[d].registered
    ensures var g := s.devices[d];
            var (g', remove) := Del(g, g.driver.Some? && HasRemove(s, g.driver.value), t);
            Inv(Put(s, d, g', t, Removal(remove, d, if remove then g.driver.value else 0, Done)))
  {
    hide *;
    var g := s.devices[d];
    Facts(s, t, d, if g.driver.Some? then g.driver.value else 0);
    var (g', remove) := Del(g, g.driver.Some? && HasRemove(s, g.driver.value), t);
    DelCounts(g, s.drivers, g.driver.Some? && HasRemove(s, g.driver.value), t);
    DelDev(g, s.drivers, g.driver.Some? && HasRemove(s, g.driver.value), t, d);
    DelElse(s, t, d);
    DevOkIs(g', s.drivers);
    Local(s, d, g', t, Removal(remove, d, if remove then g.driver.value else 0, Done));
  }

  lemma RemoveKeeps(s: State, t: Tid, d: DevId, drv: DrvId, after: After)
    requires Inv(s) && PcOf(s, t) == CallRemove(d, drv, after) && d in s.devices
    ensures Inv(Put(s, d, Called(s.devices[d], drv, t), t, Removal(false, d, drv, after)))
  {
    Here(s, t, d);
    hide Inv;
    CountsCalled(s.devices[d], s.drivers, t, drv);
    hide CountsOk;
    Local(s, d, Called(s.devices[d], drv, t), t, Removal(false, d, drv, after));
  }

  lemma UnbindCounts(g: Device, drivers: map<DrvId, Driver>, drv: DrvId, hasRemove: bool, t: Tid)
    requires CountsOk(g, drivers) && BindOk(g, drivers) && t !in g.owing
    requires hasRemove <==> drv in drivers && drivers[drv].hasRemove
    ensures CountsOk(Unbind(g, drv, hasRemove, t).0, drivers)
  {
    hide CountsOk;
    var (g', remove) := Unbind(g, drv, hasRemove, t);
    if remove {
      CountsOwe(g, g', drivers, t, drv);
    } else {
      CountsSame(g, g', drivers);
    }
  }

  lemma UnbindDev(g: Device, drivers: map<DrvId, Driver>, drv: DrvId, hasRemove: bool, t: Tid, d: DevId,
                  todo: set<DevId>)
    requires BindOk(g, drivers) && PairOk(Sweep(drv, todo), g, t, d)
    ensures var (g', remove) := Unbind(g, drv, hasRemove, t);
            BindOk(g', drivers) && PairOk(Removal(remove, d, drv, More(drv, todo - {d})), g', t, d) && Kept(g, g', t)
  {
    OwingBut(g.owing, t, drv);
  }

  lemma UnbindElse(s: State, t: Tid, d: DevId, drv: DrvId, todo: set<DevId>)
    requires d in s.devices && d in todo && PcOf(s, t) == Sweep(drv, todo)
    ensures var (g', remove) := Unbind(s.devices[d], drv, HasRemove(s, drv), t);
            var pc' := Removal(remove, d, drv, More(drv, todo - {d}));
            && Elsewhere(PcOf(s, t), pc', d) && PcClosed(pc', s.devices.Keys, s.drivers.Keys)
            && StillSwept(s, s.devices[d], g', PcOf(s, t), pc', d)
  {
  }

  lemma UnbindKeeps(s: State, t: Tid, d: DevId, drv: DrvId, todo: set<DevId>)
    requires Inv(s) && PcOf(s, t) == Sweep(drv, todo) && d in todo && d in s.devices
    ensures var (g', remove) := Unbind(s.devices[d], drv, HasRemove(s, drv), t);
            Inv(Put(s, d, g', t, Removal(remove, d, drv, More(drv, todo - {d}))))
  {
    hide *;
    Facts(s, t, d, drv);
    var g := s.devices[d];
    var (g', remove) := Unbind(g, drv, HasRemove(s, drv), t);
    UnbindCounts(g, s.drivers, drv, HasRemove(s, drv), t);
    UnbindDev(g, s.drivers, drv, HasRemove(s, drv), t, d, todo);
    UnbindElse(s, t, d, drv, todo);
    DevOkIs(g', s.drivers);
    Local(s, d, g', t, Removal(remove, d, drv, More(drv, todo - {d})));
  }

  // Steps that concern no probe.

  lemma FreshOk(pc: Pc, t: Tid, d: DevId, devices: set<DevId>, drivers: map<DrvId, Driver>)
    requires PcClosed(pc, devices, drivers.Keys) && d !in devices
    ensures PairOk(pc, Fresh(), t, d) && DevOk(Fresh(), drivers)
  {
  }

  /** The same thread still sweeps for a bound device. */
  lemma SweptSame(s: State, s': State, d: DevId)
    requires d in s.devices && Swept(s, d) && d in s'.devices && s'.threads == s.threads
    requires s'.devices[d] == s.devices[d] || s'.devices[d].state != Bound
    requires forall drv :: Registered(s, drv) || Unswept(s, drv) ==> Registered(s', drv) || Unswept(s', drv)
    ensures Swept(s', d)
  {
    var g := s'.devices[d];
    if g.state == Bound && g.driver.Some? && !Registered(s', g.driver.value) && !Unswept(s', g.driver.value) {
      var u :| Sweeping(PcOf(s, u), g.driver.value, d);
      assert Sweeping(PcOf(s', u), g.driver.value, d);
    }
  }

  lemma CreateKeeps(s: State, d: DevId)
    requires Inv(s) && d !in s.devices
    ensures Inv(s.(devices := s.devices[d := Fresh()]))
  {
    var s' := s.(devices := s.devices[d := Fresh()]);
    hide DevOk, PairOk;
    forall t: Tid, e | e in s'.devices
      ensures PairOk(PcOf(s', t), s'.devices[e], t, e) && DevOk(s'.devices[e], s'.drivers) &&
              PcClosed(PcOf(s', t), s'.devices.Keys, s'.drivers.Keys)
    {
      assert PcClosed(PcOf(s, t), s.devices.Keys, s.drivers.Keys);
      FreshOk(PcOf(s, t), t, d, s.devices.Keys, s.drivers);
      if e != d {
        assert PairOk(PcOf(s, t), s.devices[e], t, e) && DevOk(s.devices[e], s.drivers);
      }
    }
    forall e | e in s'.devices
      ensures Swept(s', e) && DevOk(s'.devices[e], s'.drivers)
    {
      FreshOk(PcOf(s, 0), 0, d, s.devices.Keys, s.drivers);
      if e != d {
        SweptSame(s, s', e);
      }
    }
    forall t: Tid
      ensures PcClosed(PcOf(s', t), s'.devices.Keys, s'.drivers.Keys)
    {
      assert PcClosed(PcOf(s, t), s.devices.Keys, s.drivers.Keys);
    }
  }

  lemma AddDev(g: Device, drivers: map<DrvId, Driver>)
    requires DevOk(g, drivers) && g.state == New
    ensures DevOk(g.(registered := true, state := Added), drivers)
  {
    hide CountsOk;
    CountsSame(g, g.(registered := true, state := Added), drivers);
  }

  lemma AddKeeps(s: State, d: DevId)
    requires Inv(s) && d in s.devices && s.devices[d].state == New
    ensures Inv(s.(devices := s.devices[d := s.devices[d].(registered := true, state := Added)]))
  {
    hide PcClosed, DevOk, Sweeping, Swept, Registered, Unswept;
    var s' := s.(devices := s.devices[d := s.devices[d].(registered := true, state := Added)]);
    assert s'.devices.Keys == s.devices.Keys;
    AddDev(s.devices[d], s.drivers);
    forall e | e in s'.devices
      ensures DevOk(s'.devices[e], s'.drivers) && Swept(s', e)
    {
      assert DevOk(s.devices[e], s.drivers) && Swept(s, e);
      SameDrivers(s, s');
      SweptSame(s, s', e);
    }
    forall t: Tid, e | e in s'.devices
      ensures PairOk(PcOf(s', t), s'.devices[e], t, e)
    {
      assert PairOk(PcOf(s, t), s.devices[e], t, e);
    }
    forall t: Tid
      ensures PcClosed(PcOf(s', t), s'.devices.Keys, s'.drivers.Keys)
    {
      assert PcClosed(PcOf(s, t), s.devices.Keys, s.drivers.Keys);
    }
  }

  lemma SameDrivers(s: State, s': State)
    requires s'.drivers == s.drivers
    ensures forall drv :: Registered(s, drv) || Unswept(s, drv) ==> Registered(s', drv) || Unswept(s', drv)
  {
  }

  lemma DevOkMore(g: Device, drivers: map<DrvId, Driver>, drivers': map<DrvId, Driver>)
    requires DevOk(g, drivers) &&
             forall drv :: drv in drivers ==> drv in drivers' && drivers'[drv].hasRemove == drivers[drv].hasRemove
    ensures DevOk(g, drivers')
  {
  }

  /** A change of the drivers alone, which keeps every registration that a bound device relies on. */
  lemma DriversKeep(s: State, drivers': map<DrvId, Driver>)
    requires Inv(s) &&
             forall drv :: drv in s.drivers ==> drv in drivers' && drivers'[drv].hasRemove == s.drivers[drv].hasRemove
    requires forall drv :: drv in s.drivers && (s.drivers[drv].registered || s.drivers[drv].unswept) ==>
               drivers'[drv].registered || drivers'[drv].unswept
    ensures Inv(s.(drivers := drivers'))
  {
    var s' := s.(drivers := drivers');
    hide PairOk, DevOk;
    forall e | e in s'.devices
      ensures DevOk(s'.devices[e], s'.drivers) && Swept(s', e)
    {
      assert DevOk(s.devices[e], s.drivers) && Swept(s, e);
      DevOkMore(s.devices[e], s.drivers, drivers');
      SweptSame(s, s', e);
    }
    forall t: Tid, e | e in s'.devices
      ensures PairOk(PcOf(s', t), s'.devices[e], t, e)
    {
      assert PairOk(PcOf(s, t), s.devices[e], t, e);
    }
    forall t: Tid
      ensures PcClosed(PcOf(s', t), s'.devices.Keys, s'.drivers.Keys)
    {
      assert PcClosed(PcOf(s, t), s.devices.Keys, s.drivers.Keys);
    }
  }

  /** A thread with no device in hand moves on, sweeping no less than before. */
  lemma MoveKeeps(s: State, t: Tid, pc': Pc)
    requires Inv(s) && (PcOf(s, t).Idle? || PcOf(s, t).Snap? || PcOf(s, t).Sweep?) &&
             (pc'.Idle? || pc'.Snap? || pc'.Sweep?)
    requires forall d :: d in s.devices && s.devices[d].state == Bound ==>
             forall drv :: Sweeping(PcOf(s, t), drv, d) ==> Sweeping(pc', drv, d)
    ensures Inv(s.(threads := s.threads[t := pc']))
  {
    var s' := s.(threads := s.threads[t := pc']);
    hide DevOk;
    forall u: Tid, e | e in s'.devices
      ensures PairOk(PcOf(s', u), s'.devices[e], u, e)
    {
      assert PairOk(PcOf(s, u), s.devices[e], u, e);
    }
    forall u: Tid
      ensures PcClosed(PcOf(s', u), s'.devices.Keys, s'.drivers.Keys)
    {
      assert PcClosed(PcOf(s, u), s.devices.Keys, s.drivers.Keys);
    }
    forall e | e in s'.devices
      ensures Swept(s', e)
    {
      assert Swept(s, e);
      var g := s.devices[e];
      if g.state == Bound && g.driver.Some? && !Registered(s', g.driver.value) && !Unswept(s', g.driver.value) {
        var u :| Sweeping(PcOf(s, u), g.driver.value, e);
        assert Sweeping(PcOf(s', u), g.driver.value, e);
      }
    }
  }

  /** Unregistering leaves every bound device of the driver to be looked at by this thread. */
  lemma UnregisterKeeps(s: State, t: Tid, drv: DrvId)
    requires Inv(s) && PcOf(s, t) == Idle && drv in s.drivers
    ensures Inv(s.(drivers := s.drivers[drv := s.drivers[drv].(registered := false)],
                   threads := s.threads[t := Snap(drv)]))
  {
    var s1 := s.(threads := s.threads[t := Snap(drv)]);
    MoveKeeps(s, t, Snap(drv));
    var s' := s1.(drivers := s.drivers[drv := s.drivers[drv].(registered := false)]);
    hide PairOk, DevOk;
    forall e | e in s'.devices
      ensures DevOk(s'.devices[e], s'.drivers) && Swept(s', e)
    {
      assert DevOk(s1.devices[e], s1.drivers) && Swept(s1, e);
      DevOkMore(s.devices[e], s.drivers, s'.drivers);
      var g := s.devices[e];
      if g.state == Bound && g.driver.Some? && !Registered(s', g.driver.value) && !Unswept(s', g.driver.value) {
        if g.driver.value == drv {
          assert Sweeping(PcOf(s', t), drv, e);
        } else {
          var u :| Sweeping(PcOf(s1, u), g.driver.value, e);
          assert Sweeping(PcOf(s', u), g.driver.value, e);
        }
      }
    }
    forall u: Tid
      ensures PcClosed(PcOf(s', u), s'.devices.Keys, s'.drivers.Keys)
    {
      assert PcClosed(PcOf(s1, u), s1.devices.Keys, s1.drivers.Keys);
    }
    forall u: Tid, e | e in s'.devices
      ensures PairOk(PcOf(s', u), s'.devices[e], u, e)
    {
      assert PairOk(PcOf(s1, u), s1.devices[e], u, e);
    }
  }

  lemma SnapKeeps(s: State, t: Tid, drv: DrvId)
    requires Inv(s) && PcOf(s, t) == Snap(drv)
    ensures Inv(s.(threads := s.threads[t := Sweep(drv, Listed(s))]))
  {
    forall d | d in s.devices && s.devices[d].state == Bound
      ensures d in Listed(s)
    {
      assert DevOk(s.devices[d], s.drivers);
    }
    hide Inv;
    MoveKeeps(s, t, Sweep(drv, Listed(s)));
  }

  /** A snapshot that cannot be allocated is remembered, and nothing is looked at. */
  lemma NoSnapshotKeeps(s: State, t: Tid, drv: DrvId)
    requires Inv(s) && PcOf(s, t) == Snap(drv) && drv in s.drivers
    ensures Inv(s.(drivers := s.drivers[drv := s.drivers[drv].(unswept := true)],
                   threads := s.threads[t := Sweep(drv, {})]))
  {
    var s1 := s.(drivers := s.drivers[drv := s.drivers[drv].(unswept := true)]);
    DriversKeep(s, s1.drivers);
    var s' := s1.(threads := s.threads[t := Sweep(drv, {})]);
    hide PairOk, DevOk, PcClosed;
    forall u: Tid, e | e in s'.devices
      ensures PairOk(PcOf(s', u), s'.devices[e], u, e)
    {
      assert PairOk(PcOf(s1, u), s1.devices[e], u, e);
      PairFree(s1.devices[e], t, e, PcOf(s1, t), Sweep(drv, {}));
    }
    forall u: Tid
      ensures PcClosed(PcOf(s', u), s'.devices.Keys, s'.drivers.Keys)
    {
      assert PcClosed(PcOf(s1, u), s1.devices.Keys, s1.drivers.Keys);
      ClosedFree(Sweep(drv, {}), s'.devices.Keys, s'.drivers.Keys);
    }
    forall e | e in s'.devices
      ensures Swept(s', e)
    {
      assert Swept(s1, e);
      var g := s.devices[e];
      if g.state == Bound && g.driver.Some? && !Registered(s', g.driver.value) && !Unswept(s', g.driver.value) {
        var u :| Sweeping(PcOf(s1, u), g.driver.value, e);
        assert Sweeping(PcOf(s', u), g.driver.value, e);
      }
    }
  }

  lemma PairFree(g: Device, t: Tid, d: DevId, pc: Pc, pc': Pc)
    requires (pc.Snap? || pc.Sweep? || pc.Idle?) && (pc'.Snap? || pc'.Sweep? || pc'.Idle?)
    ensures PairOk(pc, g, t, d) <==> PairOk(pc', g, t, d)
  {
  }

  lemma ClosedFree(pc: Pc, devices: set<DevId>, drivers: set<DrvId>)
    requires pc.Snap? || pc.Sweep? || pc.Idle?
    ensures PcClosed(pc, devices, drivers)
  {
  }

  lemma IdleKeeps(s: State, t: Tid, a: Action)
    requires Inv(s) && PcOf(s, t) == Idle && Enabled(s, t, a)
    ensures Inv(IdleStep(s, t, a))
  {
    hide Inv, Del, Claim, Removal;
    match a
    case Create(d) => CreateKeeps(s, d);
    case Add(d) =>
      if !(s.devices[d].registered || s.devices[d].state != New) {
        AddKeeps(s, d);
      }
    case Probe(d, drv) => ClaimKeeps(s, t, d, drv);
    case Delete(d) =>
      if s.devices[d].registered {
        DeleteKeeps(s, t, d);
      }
    case NewDriver(drv, hasRemove) => DriversKeep(s, s.drivers[drv := Driver(false, hasRemove, false)]);
    case Register(drv) => DriversKeep(s, s.drivers[drv := s.drivers[drv].(registered := true, unswept := false)]);
    case Unregister(drv) => UnregisterKeeps(s, t, drv);
    case _ =>
  }

  /** Every step of every thread keeps the invariant. */
  lemma ApplyKeeps(s: State, t: Tid, a: Action)
    requires Inv(s) && Enabled(s, t, a)
    ensures Inv(Apply(s, t, a))
  {
    hide Inv, IdleStep, Finish, Unbind, Removal;
    match PcOf(s, t)
    case Idle => IdleKeeps(s, t, a);
    case Claimed(d, drv) => ReturnKeeps(s, t, d, drv, a.err);
    case Probed(d, drv, err) => FinishKeeps(s, t, d, drv, err);
    case CallRemove(d, drv, after) => RemoveKeeps(s, t, d, drv, after);
    case Snap(drv) =>
      if a.Go? {
        SnapKeeps(s, t, drv);
      } else {
        NoSnapshotKeeps(s, t, drv);
      }
    case Sweep(drv, todo) =>
      if todo == {} {
        MoveKeeps(s, t, Idle);
      } else {
        UnbindKeeps(s, t, a.d, drv, todo);
      }
  }

  ghost predicate Runs(s: State, steps: seq<(Tid, Action)>)
    decreases |steps|
  {
    |steps| > 0 ==> Enabled(s, steps[0].0, steps[0].1) && Runs(Apply(s, steps[0].0, steps[0].1), steps[1..])
  }

  ghost function Final(s: State, steps: seq<(Tid, Action)>): State
    requires Runs(s, steps)
    decreases |steps|
  {
    if |steps| == 0 then s else Final(Apply(s, steps[0].0, steps[0].1), steps[1..])
  }

  lemma {:induction false} RunKeeps(s: State, steps: seq<(Tid, Action)>)
    requires Inv(s) && Runs(s, steps)
    ensures Inv(Final(s, steps))
    decreases |steps|
  {
    hide Inv, Enabled, Apply;
    if |steps| > 0 {
      ApplyKeeps(s, steps[0].0, steps[0].1);
      RunKeeps(Apply(s, steps[0].0, steps[0].1), steps[1..]);
    }
  }

  function Start(): State {
    State(map[], map[], map[])
  }

  ghost predicate Reachable(s: State) {
    exists steps :: Runs(Start(), steps) && s == Final(Start(), steps)
  }

  lemma ReachableInv(s: State)
    requires Reachable(s)
    ensures Inv(s)
  {
    var start := Start();
    assert Inv(start);
    hide Inv, Enabled, Apply;
    var steps :| Runs(start, steps) && s == Final(start, steps);
    RunKeeps(start, steps);
  }

  /** A device is probed by one caller at a time, and for the driver it names. */
  lemma OneProber(s: State, t: Tid, u: Tid, d: DevId)
    requires Reachable(s) && Probes(PcOf(s, t), d)
    ensures d in s.devices && s.devices[d].driver == Some(PcOf(s, t).drv)
    ensures Probes(PcOf(s, u), d) ==> u == t
  {
    ReachableInv(s);
    assert PcClosed(PcOf(s, t), s.devices.Keys, s.drivers.Keys);
    assert PairOk(PcOf(s, t), s.devices[d], t, d) && PairOk(PcOf(s, u), s.devices[d], u, d);
  }

  /**
   For each device and each driver with a remove callback: every successful probe is answered by exactly one call of
   that driver's remove, made or owed by a thread that is about to make it, and by none while the device is bound to
   the driver or the probe that succeeded has not been settled.
   */
  lemma RemovesMatch(s: State, d: DevId, drv: DrvId)
    requires Reachable(s) && d in s.devices
    ensures var g := s.devices[d];
            g.ok[drv] == g.made[drv] + |Owing(g.owing, drv)| + if Holding(g, s.drivers, drv) then 1 else 0
    ensures forall t: Tid :: t in Owing(s.devices[d].owing, drv) <==> Owes(PcOf(s, t), d) && PcOf(s, t).drv == drv
  {
    ReachableInv(s);
    assert DevOk(s.devices[d], s.drivers);
    forall t: Tid
      ensures t in Owing(s.devices[d].owing, drv) <==> Owes(PcOf(s, t), d) && PcOf(s, t).drv == drv
    {
      assert PairOk(PcOf(s, t), s.devices[d], t, d);
    }
  }

  /** Every deferred device is on the deferred list, and what is on it is deferred or being probed again. */
  lemma DeferredListed(s: State, d: DevId)
    requires Reachable(s) && d in s.devices
    ensures s.devices[d].state == Deferred ==> s.devices[d].deferred
    ensures s.devices[d].deferred ==>
            s.devices[d].registered && (s.devices[d].state == Deferred || s.devices[d].state == Probing)
  {
    ReachableInv(s);
    assert DevOk(s.devices[d], s.drivers);
  }

  /**
   When no thread is unregistering a driver that is not registered, no device is bound to it, unless the list of devices
   could not be allocated when it was unregistered.
   */
  lemma UnregisterUnbinds(s: State, drv: DrvId, d: DevId)
    requires Reachable(s) && d in s.devices && !Registered(s, drv) && !Unswept(s, drv)
    requires forall t: Tid :: !Sweeping(PcOf(s, t), drv, d)
    ensures !(s.devices[d].state == Bound && s.devices[d].driver == Some(drv))
  {
    ReachableInv(s);
    assert Swept(s, d);
  }

  /** What other threads do leaves a thread where it is. */
  lemma OthersLeave(s: State, t: Tid, u: Tid, a: Action)
    requires Enabled(s, u, a) && u != t
    ensures PcOf(Apply(s, u, a), t) == PcOf(s, t)
  {
    hide Finish, Del, Unbind, Claim, Removal, Listed, Registered, HasRemove;
  }

  lemma {:induction false} OthersRun(s: State, t: Tid, steps: seq<(Tid, Action)>)
    requires Runs(s, steps) && forall i :: 0 <= i < |steps| ==> steps[i].0 != t
    ensures PcOf(Final(s, steps), t) == PcOf(s, t)
    decreases |steps|
  {
    hide Enabled, Apply, PcOf;
    if steps != [] {
      OthersLeave(s, t, steps[0].0, steps[0].1);
      OthersRun(Apply(s, steps[0].0, steps[0].1), t, steps[1..]);
    }
  }

  /**
   How a probe of device `d` by driver `drv` that returned `err` is settled. A device that is still there, with its
   driver still registered, is bound exactly after a success, deferred and on the list exactly after -EPROBE_DEFER, and
   otherwise added and on no list; a success that comes too late is undone with a remove call.
   */
  ghost predicate Settled(before: State, after: State, t: Tid, d: DevId, drv: DrvId, err: int) {
    && d in before.devices && d in after.devices
    && var g := after.devices[d];
       if before.devices[d].registered && Registered(before, drv) then
         && (g.state == Bound <==> err == 0) && (g.driver == Some(drv) <==> err == 0) && (g.driver.None? <==> err != 0)
         && (g.state == Deferred <==> err == -517) && (g.deferred <==> err == -517)
         && (err != 0 && err != -517 ==> g.state == Added)
         && g.registered && PcOf(after, t) == Idle
       else
         && g.state == (if before.devices[d].registered then Added else Removed)
         && g.registered == before.devices[d].registered && g.driver.None? && !g.deferred
         && PcOf(after, t) == if err == 0 && HasRemove(before, drv) then CallRemove(d, drv, Done) else Idle
  }

  lemma GoSettles(s: State, t: Tid, d: DevId, drv: DrvId, err: int)
    requires Inv(s) && PcOf(s, t) == Probed(d, drv, err) && Enabled(s, t, Go)
    ensures Settled(s, Apply(s, t, Go), t, d, drv, err)
  {
    Facts(s, t, d, drv);
    ProbedIs(s.devices[d], s.drivers, drv, err, t, d);
    hide Inv, CountsOk;
  }

  /**
   Over every run: thread `t` is in the probe of `drv` for `d`, the probe returns `err`, other threads do whatever they
   do, and `t` goes on. Then the probe is settled as `err`, and what became of device and driver meanwhile, say.
   */
  lemma ProbeSettles(pre: seq<(Tid, Action)>, t: Tid, d: DevId, drv: DrvId, err: int, mid: seq<(Tid, Action)>)
    requires Runs(Start(), pre + [(t, Return(err))] + mid + [(t, Go)]) && Runs(Start(), pre)
    requires PcOf(Final(Start(), pre), t) == Claimed(d, drv)
    requires forall i :: 0 <= i < |mid| ==> mid[i].0 != t
    ensures Runs(Start(), pre + [(t, Return(err))] + mid)
    ensures Settled(Final(Start(), pre + [(t, Return(err))] + mid),
                    Final(Start(), pre + [(t, Return(err))] + mid + [(t, Go)]), t, d, drv, err)
  {
    var start := Start();
    var a := pre + [(t, Return(err))];
    RunsSplit(start, a + mid, [(t, Go)]);
    RunsSplit(start, a, mid);
    RunsSplit(start, pre, [(t, Return(err))]);
    var s0, s1, s2 := Final(start, pre), Final(start, a), Final(start, a + mid);
    OneStep(s0, t, Return(err));
    OneStep(s2, t, Go);
    Returns(s0, t, d, drv, err);
    OthersRun(s1, t, mid);
    Reached(a + mid);
    ReachableInv(s2);
    hide Runs, Final, Enabled, Apply, Inv, Settled;
    GoSettles(s2, t, d, drv, err);
  }

  lemma Returns(s: State, t: Tid, d: DevId, drv: DrvId, err: int)
    requires PcOf(s, t) == Claimed(d, drv) && Enabled(s, t, Return(err))
    ensures PcOf(Apply(s, t, Return(err)), t) == Probed(d, drv, err)
  {
  }

  lemma OneStep(s: State, t: Tid, a: Action)
    requires Runs(s, [(t, a)])
    ensures Enabled(s, t, a) && Final(s, [(t, a)]) == Apply(s, t, a)
  {
    hide Enabled, Apply;
    assert [(t, a)][1..] == [];
  }

  lemma {:induction false} RunsSplit(s: State, steps: seq<(Tid, Action)>, more: seq<(Tid, Action)>)
    requires Runs(s, steps + more)
    ensures Runs(s, steps) && Runs(Final(s, steps), more) && Final(s, steps + more) == Final(Final(s, steps), more)
    decreases |steps|
  {
    hide Enabled, Apply;
    if steps == [] {
      assert steps + more == more;
    } else {
      assert (steps + more)[1..] == steps[1..] + more;
      RunsSplit(Apply(s, steps[0].0, steps[0].1), steps[1..], more);
    }
  }

  /** A deferred device can be tried again with any registered driver; a success binds it and takes it off the list. */
  lemma DeferredRetried(s: State, t: Tid, d: DevId, drv: DrvId)
    requires Reachable(s) && d in s.devices && s.devices[d].state == Deferred && Registered(s, drv) &&
             PcOf(s, t) == Idle
    ensures var steps := [(t, Probe(d, drv)), (t, Return(0)), (t, Go)];
            && Runs(s, steps)
            && d in Final(s, steps).devices
            && var g := Final(s, steps).devices[d]; g.state == Bound && g.driver == Some(drv) && !g.deferred
  {
    ReachableInv(s);
    assert DevOk(s.devices[d], s.drivers);
    hide Inv;
    var steps := [(t, Probe(d, drv)), (t, Return(0)), (t, Go)];
    var s1 := Apply(s, t, Probe(d, drv));
    var s2 := Apply(s1, t, Return(0));
    var s3 := Apply(s2, t, Go);
    RunsOne(s, t, Probe(d, drv));
    RunsOne(s1, t, Return(0));
    RunsOne(s2, t, Go);
    hide Runs, Final;
    RunsAppend(s, [(t, Probe(d, drv))], [(t, Return(0))]);
    RunsAppend(s, [(t, Probe(d, drv))] + [(t, Return(0))], [(t, Go)]);
    assert steps == [(t, Probe(d, drv))] + [(t, Return(0))] + [(t, Go)];
  }

  lemma {:induction false} RunsAppend(s: State, steps: seq<(Tid, Action)>, more: seq<(Tid, Action)>)
    requires Runs(s, steps) && Runs(Final(s, steps), more)
    ensures Runs(s, steps + more) && Final(s, steps + more) == Final(Final(s, steps), more)
    decreases |steps|
  {
    hide Enabled, Apply;
    if steps == [] {
      assert steps + more == more;
    } else {
      assert (steps + more)[1..] == steps[1..] + more;
      RunsAppend(Apply(s, steps[0].0, steps[0].1), steps[1..], more);
    }
  }

  lemma RunsOne(s: State, t: Tid, a: Action)
    requires Enabled(s, t, a)
    ensures Runs(s, [(t, a)]) && Final(s, [(t, a)]) == Apply(s, t, a)
  {
    hide Enabled, Apply;
    var rest := [(t, a)][1..];
    assert rest == [];
    assert Runs(Apply(s, t, a), rest) && Final(Apply(s, t, a), rest) == Apply(s, t, a);
  }

  lemma Then(s: State, steps: seq<(Tid, Action)>, t: Tid, a: Action)
    requires Runs(s, steps) && Enabled(Final(s, steps), t, a)
    ensures Runs(s, steps + [(t, a)]) && Final(s, steps + [(t, a)]) == Apply(Final(s, steps), t, a)
  {
    hide Enabled, Apply;
    RunsOne(Final(s, steps), t, a);
    RunsAppend(s, steps, [(t, a)]);
  }

  /** Device 0 with the given state and driver, after `ok` probes by driver 0 that succeeded. */
  function One(state: DevState, drv: Option<DrvId>, prober: Option<Tid>, succeeded: bool, ok: multiset<DrvId>,
               driver: Driver, pc: Pc): State {
    State(map[0 := Device(state, drv, true, false, prober, succeeded, ok, multiset{}, map[])], map[0 := driver],
          map[0 := pc])
  }

  lemma ClaimedRun() returns (steps: seq<(Tid, Action)>)
    ensures Runs(Start(), steps)
    ensures Final(Start(), steps) ==
            One(Probing, Some(0), Some(0), false, multiset{}, Driver(true, true, false), Claimed(0, 0))
  {
    hide Runs, Final;
    steps := [];
    assert Runs(Start(), steps) && Final(Start(), steps) == Start() by { RunsNone(Start()); }
    Then(Start(), steps, 0, Create(0));
    steps := steps + [(0, Create(0))];
    Then(Start(), steps, 0, Add(0));
    steps := steps + [(0, Add(0))];
    Then(Start(), steps, 0, NewDriver(0, true));
    steps := steps + [(0, NewDriver(0, true))];
    Then(Start(), steps, 0, Register(0));
    steps := steps + [(0, Register(0))];
    Then(Start(), steps, 0, Probe(0, 0));
    steps := steps + [(0, Probe(0, 0))];
  }

  lemma BoundRun() returns (steps: seq<(Tid, Action)>)
    ensures Runs(Start(), steps)
    ensures Final(Start(), steps) == One(Bound, Some(0), None, false, multiset{0}, Driver(true, true, false), Idle)
  {
    hide Runs, Final;
    steps := ClaimedRun();
    Then(Start(), steps, 0, Return(0));
    steps := steps + [(0, Return(0))];
    assert multiset{} + multiset{0 as DrvId} == multiset{0};
    assert Final(Start(), steps) ==
           One(Probing, Some(0), Some(0), true, multiset{0}, Driver(true, true, false), Probed(0, 0, 0));
    Then(Start(), steps, 0, Go);
    steps := steps + [(0, Go)];
  }

  lemma RunsNone(s: State)
    ensures Runs(s, []) && Final(s, []) == s
  {
  }

  lemma Reached(steps: seq<(Tid, Action)>)
    requires Runs(Start(), steps)
    ensures Reachable(Final(Start(), steps))
  {
  }

  /** A device may stay bound to a driver whose unregistration found no memory for the list of devices. */
  lemma SnapshotFails() returns (s: State)
    ensures Reachable(s) && !Registered(s, 0) && forall t: Tid :: PcOf(s, t) == Idle
    ensures 0 in s.devices && s.devices[0].state == Bound && s.devices[0].driver == Some(0)
  {
    var steps := BoundRun();
    hide Runs, Final;
    Then(Start(), steps, 0, Unregister(0));
    steps := steps + [(0, Unregister(0))];
    Then(Start(), steps, 0, NoMemory);
    steps := steps + [(0, NoMemory)];
    Then(Start(), steps, 0, Go);
    steps := steps + [(0, Go)];
    s := Final(Start(), steps);
    assert s == One(Bound, Some(0), None, false, multiset{0}, Driver(false, true, true), Idle);
    Reached(steps);
  }
}
