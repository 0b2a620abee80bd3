/**
 Probing, binding, deferring and removing devices while devices and drivers come and go (src/dev/base/device.c).
 A step is one section under device_lock, or a call into a driver; the steps of all threads interleave.
 */
module DeviceModel {
  type Tid = nat
  type DevId = nat
  type DrvId = nat

  datatype Option<T> = None | Some(value: T)

  datatype DevState = New | Added | Probing | Bound | Deferred | Removed

  /**
   A struct device; `deferred` says that it is on the deferred list. The fields from `prober` on are history: the thread
   whose probe is running or has just returned, whether it has returned with success, the drivers with a remove callback
   whose probes have succeeded, once for each success, the drivers whose remove was called, once for each call, and the
   threads about to call remove, with the driver whose it is.
   */
  datatype Device = Device(state: DevState, driver: Option<DrvId>, registered: bool, deferred: bool,
                           prober: Option<Tid>, succeeded: bool,
                           ok: multiset<DrvId>, made: multiset<DrvId>, owing: map<Tid, DrvId>)

  /** `unswept` is history: the snapshot of an unregistration failed, and the driver was not registered again since. */
  datatype Driver = Driver(registered: bool, hasRemove: bool, unswept: bool)

  datatype After = Done | More(drv: DrvId, todo: set<DevId>)

  datatype Pc =
    | Idle
    | Claimed(d: DevId, drv: DrvId)                 // in drv->probe
    | Probed(d: DevId, drv: DrvId, err: int)        // it has returned
    | CallRemove(d: DevId, drv: DrvId, after: After) // about to call drv->remove
    | Snap(drv: DrvId)                              // driver_unregister, before its snapshot
    | Sweep(drv: DrvId, todo: set<DevId>)           // and going through it

  datatype State = State(devices: map<DevId, Device>, drivers: map<DrvId, Driver>, threads: map<Tid, Pc>)

  const EPROBE_DEFER: int := -517

  function PcOf(s: State, t: Tid): Pc {
    if t in s.threads then s.threads[t] else Idle
  }

  function Fresh(): Device {
    Device(New, None, false, false, None, false, multiset{}, multiset{}, map[])
  }

  predicate Registered(s: State, drv: DrvId) {
    drv in s.drivers && s.drivers[drv].registered
  }

  predicate Unswept(s: State, drv: DrvId) {
    drv in s.drivers && s.drivers[drv].unswept
  }

  predicate HasRemove(s: State, drv: DrvId) {
    drv in s.drivers && s.drivers[drv].hasRemove
  }

  // The sections.

  /** The claim at the start of device_probe. */
  function Claim(g: Device, t: Tid, drv: DrvId): Device {
    g.(state := Probing, driver := Some(drv), prober := Some(t), succeeded := false)
  }

  /** The end of device_probe; says whether this thread has to call remove. */
  function Finish(g: Device, drv: DrvId, err: int, registered: bool, hasRemove: bool, t: Tid): (Device, bool) {
    var base := g.(prober := None, succeeded := false);
    if g.driver != Some(drv) then (base, false)
    else
      var remove := err == 0 && hasRemove;
      var gone := base.(driver := None, deferred := false, owing := if remove then g.owing[t := drv] else g.owing);
      if g.state == Removed then (gone, remove)
      else if !registered then (gone.(state := Added), remove)
      else if err == 0 then (base.(state := Bound, deferred := false), false)
      else if err == EPROBE_DEFER then (base.(driver := None, state := Deferred, deferred := true), false)
      else (base.(driver := None, state := Added, deferred := false), false)
  }

  /** device_del; says whether this thread has to call remove. */
  function Del(g: Device, hasRemove: bool, t: Tid): (Device, bool) {
    var remove := g.state == Bound && g.driver.Some? && hasRemove;
    var gone := g.(registered := false, state := Removed, deferred := false,
                   owing := if remove then g.owing[t := g.driver.value] else g.owing);
    if g.state == Probing then (gone, false) else (gone.(driver := None), remove)
  }

  /** The body of the loop of driver_unregister. */
  function Unbind(g: Device, drv: DrvId, hasRemove: bool, t: Tid): (Device, bool) {
    if g.driver == Some(drv) && g.state != Probing && g.state != Removed then
      var remove := g.state == Bound && hasRemove;
      (g.(driver := None, state := Added, deferred := false, owing := if remove then g.owing[t := drv] else g.owing),
       remove)
    else (g, false)
  }

  // The invariant.

  predicate Probes(pc: Pc, d: DevId) {
    (pc.Claimed? || pc.Probed?) && pc.d == d
  }

  predicate Owes(pc: Pc, d: DevId) {
    pc.CallRemove? && pc.d == d
  }

  /** One thread and one device agree. */
  ghost predicate PairOk(pc: Pc, g: Device, t: Tid, d: DevId) {
    && (g.prober == Some(t) <==> Probes(pc, d))
    && (Probes(pc, d) ==> g.driver == Some(pc.drv) && (g.succeeded <==> pc.Probed? && pc.err == 0))
    && (t in g.owing <==> Owes(pc, d)) && (t in g.owing ==> g.owing[t] == pc.drv)
  }

  /** A success of `drv` that no remove call answers yet, nor need. */
  predicate Holding(g: Device, drivers: map<DrvId, Driver>, drv: DrvId) {
    (g.state == Bound || g.succeeded) && g.driver == Some(drv) && drv in drivers && drivers[drv].hasRemove
  }

  /** The threads about to call the remove of `drv`. */
  function Owing(owing: map<Tid, DrvId>, drv: DrvId): set<Tid> {
    set t | t in owing && owing[t] == drv
  }

  ghost predicate CountsOk(g: Device, drivers: map<DrvId, Driver>) {
    forall drv: DrvId :: g.ok[drv] == g.made[drv] + |Owing(g.owing, drv)| + if Holding(g, drivers, drv) then 1 else 0
  }

  ghost predicate BindOk(g: Device, drivers: map<DrvId, Driver>) {
    && (g.state == Probing ==> g.prober.Some?) &&
       (g.prober.Some? ==> (g.state == Probing || g.state == Removed) && g.driver.Some?)
    && (g.driver.Some? ==> g.state == Bound || g.prober.Some?) && (g.state == Bound ==> g.driver.Some?)
    && (g.succeeded ==> g.prober.Some?) && (g.driver.Some? ==> g.driver.value in drivers)
    && (g.registered <==> g.state != New && g.state != Removed)
    && (g.state == Deferred ==> g.deferred) && (g.deferred ==> g.state == Deferred || g.state == Probing)
  }

  ghost predicate DevOk(g: Device, drivers: map<DrvId, Driver>) {
    BindOk(g, drivers) && CountsOk(g, drivers)
  }

  /** A thread that will still look at device `d` on behalf of the driver it unregisters. */
  predicate Sweeping(pc: Pc, drv: DrvId, d: DevId) {
    pc == Snap(drv) || (pc.Sweep? && pc.drv == drv && d in pc.todo) ||
        (pc.CallRemove? && pc.after.More? && pc.after.drv == drv && d in pc.after.todo)
  }

  ghost predicate Swept(s: State, d: DevId)
    requires d in s.devices
  {
    var g := s.devices[d];
    g.state == Bound && g.driver.Some? && !Registered(s, g.driver.value) ==>
      Unswept(s, g.driver.value) || exists t: Tid :: Sweeping(PcOf(s, t), g.driver.value, d)
  }

  predicate PcClosed(pc: Pc, devices: set<DevId>, drivers: set<DrvId>) {
    match pc
    case Claimed(d, drv) => d in devices && drv in drivers
    case Probed(d, drv, _) => d in devices && drv in drivers
    case CallRemove(d, _, _) => d in devices
    case _ => true
  }

  ghost predicate Inv(s: State) {
    && (forall d :: d in s.devices ==> DevOk(s.devices[d], s.drivers))
    && (forall t: Tid, d :: d in s.devices ==> PairOk(PcOf(s, t), s.devices[d], t, d))
    && (forall t: Tid :: PcClosed(PcOf(s, t), s.devices.Keys, s.drivers.Keys))
    && (forall d :: d in s.devices ==> Swept(s, d))
  }

  // The steps.

  datatype Action =
    | Create(d: DevId) | Add(d: DevId) | Probe(d: DevId, drv: DrvId) | Return(err: int) | Delete(d: DevId)
    | NewDriver(drv: DrvId, hasRemove: bool) | Register(drv: DrvId) | Unregister(drv: DrvId) | Next(d: DevId)
    | Go | NoMemory

  function Put(s: State, d: DevId, g: Device, t: Tid, pc: Pc): State {
    s.(devices := s.devices[d := g], threads := s.threads[t := pc])
  }

  predicate Enabled(s: State, t: Tid, a: Action) {
    match PcOf(s, t)
    case Idle =>
      (match a
       case Create(d) => d !in s.devices
       case Add(d) => d in s.devices
       case Probe(d, drv) => d in s.devices && (s.devices[d].state == Added || s.devices[d].state == Deferred) &&
           Registered(s, drv)
       case Delete(d) => d in s.devices
       case NewDriver(drv, _) => drv !in s.drivers
       case Register(drv) => drv in s.drivers
       case Unregister(drv) => drv in s.drivers
       case _ => false)
    case Claimed(d, drv) => a.Return? && d in s.devices
    case Probed(d, drv, _) => a.Go? && d in s.devices
    case CallRemove(d, _, _) => a.Go? && d in s.devices
    case Snap(drv) => (a.Go? || a.NoMemory?) && drv in s.drivers
    case Sweep(_, todo) => if todo == {} then a.Go? else a.Next? && a.d in todo && a.d in s.devices
  }

  function Removal(remove: bool, d: DevId, drv: DrvId, after: After): Pc {
    if remove then CallRemove(d, drv, after) else if after.Done? then Idle else Sweep(after.drv, after.todo)
  }

  function IdleStep(s: State, t: Tid, a: Action): State
    requires PcOf(s, t) == Idle && Enabled(s, t, a)
  {
    match a
    case Create(d) => s.(devices := s.devices[d := Fresh()])
    case Add(d) =>
      var g := s.devices[d];
      if g.registered || g.state != New then s
         else s.(devices := s.devices[d := g.(registered := true, state := Added)])
    case Probe(d, drv) => Put(s, d, Claim(s.devices[d], t, drv), t, Claimed(d, drv))
    case Delete(d) =>
      var g := s.devices[d];
      if !g.registered then s
      else
        var (g', remove) := Del(g, g.driver.Some? && HasRemove(s, g.driver.value), t);
        Put(s, d, g', t, Removal(remove, d, if remove then g.driver.value else 0, Done))
    case NewDriver(drv, hasRemove) => s.(drivers := s.drivers[drv := Driver(false, hasRemove, false)])
    case Register(drv) => s.(drivers := s.drivers[drv := s.drivers[drv].(registered := true, unswept := false)])
    case Unregister(drv) => s.(drivers := s.drivers[drv := s.drivers[drv].(registered := false)],
                               threads := s.threads[t := Snap(drv)])
    case _ => s
  }

  /** drv->probe has returned. */
  function Returned(g: Device, drv: DrvId, err: int, hasRemove: bool): Device {
    g.(succeeded := err == 0, ok := if err == 0 && hasRemove then g.ok + multiset{drv} else g.ok)
  }

  /** The call of drv->remove. */
  function Called(g: Device, drv: DrvId, t: Tid): Device {
    g.(made := g.made + multiset{drv}, owing := g.owing - {t})
  }

  /** device_snapshot: every device on the list. If the list cannot be allocated, the caller gets none. */
  function Listed(s: State): set<DevId> {
    set d | d in s.devices && s.devices[d].registered
  }

  function Apply(s: State, t: Tid, a: Action): State
    requires Enabled(s, t, a)
  {
    match PcOf(s, t)
    case Idle => IdleStep(s, t, a)
    case Claimed(d, drv) =>
      var g := s.devices[d];
      Put(s, d, Returned(g, drv, a.err, HasRemove(s, drv)), t, Probed(d, drv, a.err))
    case Probed(d, drv, err) =>
      var (g', remove) := Finish(s.devices[d], drv, err, Registered(s, drv), HasRemove(s, drv), t);
      Put(s, d, g', t, Removal(remove, d, drv, Done))
    case CallRemove(d, drv, after) => Put(s, d, Called(s.devices[d], drv, t), t, Removal(false, d, drv, after))
    case Snap(drv) =>
      if a.Go? then s.(threads := s.threads[t := Sweep(drv, Listed(s))])
      else s.(drivers := s.drivers[drv := s.drivers[drv].(unswept := true)], threads := s.threads[t := Sweep(drv, {})])
    case Sweep(drv, todo) =>
      if todo == {} then s.(threads := s.threads[t := Idle])
      else
        var (g', remove) := Unbind(s.devices[a.d], drv, HasRemove(s, drv), t);
        Put(s, a.d, g', t, Removal(remove, a.d, drv, More(drv, todo - {a.d})))
  }
}
