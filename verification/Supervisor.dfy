/**
 Worker mode's process supervisor as a step system.

 One task loop runs create, start, stop, restart, delete and inspect, one task at a
 time; every child it starts leaves a waiter goroutine behind that may run arbitrarily
 late and writes the same process table. The two interleave freely here, with children
 that exit at any moment, store and OS errors, a moving clock, and crashes of the agent.

 Assumed of the environment: a store update is one atomic step, the clock never goes
 back, and the kernel never hands out a (PID, start marker) pair twice.
 */
module Supervisor {
  import opened Basics
  import opened WorkerState

  /** How long `start` waits for an early exit, in milliseconds. */
  const STARTUP_GRACE := 350

  /** Where a child's waiter goroutine stands. `Unattached`: not launched (yet).
      `Waiting`: inside Wait. `Reaped`: Wait returned, the update is still to come.
      `Updated`: the update ran (and was written or not). `Done`: the exit was also sent.
      `Lost`: the agent crashed before the update. */
  datatype Waiter = Unattached | Waiting | Reaped | Updated(wrote: bool) | Done(wrote: bool) | Lost

  /** `alive` means that /proc still has an entry, as it does until the child is reaped. */
  datatype Child = Child(owner: string, alive: bool, startedAt: int, code: int, waiter: Waiter)

  /** What an operation does once the stop or inspect it called returns. */
  datatype After = Return | ThenStart | ThenRemove | ThenReplace(hash: string, start: bool) | ThenStartUnlessRunning

  /** The control point of the task loop, with the locals that are still read. */
  datatype Pc =
    | Idle
    | CreateLoad(p: string, hash: string, auto: bool)
    | CreateCheck(p: string, rec: ProcessRecord, hash: string, auto: bool)
    | Replace(p: string, hash: string, auto: bool)
    | StartLoad(p: string)
    | StartCheck(p: string, rec: ProcessRecord)
    | Spawn(p: string)
    | Spawned(p: string, child: Incarnation)
    | Record(p: string, child: Incarnation, at: int)
    | Grace(p: string, child: Incarnation, at: int)
    | StopLoad(p: string, after: After)
    | StopCheck(p: string, rec: ProcessRecord, after: After)
    | StopPoll(p: string, rec: ProcessRecord, after: After)
    | StopClear(p: string, gaveUp: bool, after: After)
    | InspectLoad(p: string, after: After)
    | InspectCheck(p: string, rec: ProcessRecord, after: After)
    | InspectClear(p: string, after: After)
    | Remove(p: string)

  /** `lastStart` and `stray` are history: the incarnation that the last start recorded
      in a record that still stands, and the children that were alive when the agent
      let go of them. No step reads either. */
  datatype State = State(
    clock: int,
    processes: ProcessTable,
    children: map<Incarnation, Child>,
    lastStart: map<string, Incarnation>,
    stray: set<Incarnation>,
    pc: Pc)

  datatype Step =
    | Begin(task: Pc)                             // the task loop takes up a task
    | Advance(now: int)                           // the task's next step; `now` is its time stamp
    | Fail                                        // a store or OS error ends the task
    | Launch(i: Incarnation)                      // a child starts
    | GiveUp                                      // stop's deadline after SIGKILL passes
    | Reap(i: Incarnation, code: int)             // a waiter's Wait returns
    | WaiterUpdate(i: Incarnation, now: int, wrote: bool)
    | Send(i: Incarnation)
    | OrphanExit(i: Incarnation)                  // a child that nobody waits for ends
    | Crash                                       // the agent dies and restarts
    | Tick(d: nat)

  predicate Live(s: State, i: Incarnation) {
    i in s.children && s.children[i].alive
  }

  /** processRecordRunning */
  predicate Running(s: State, rec: ProcessRecord) {
    rec.pid > 1 && rec.marker != "" && Live(s, Incarnation(rec.pid, rec.marker))
  }

  predicate NamedLive(s: State, p: string) {
    p in s.processes && Running(s, s.processes[p])
  }

  /** What the agent loses sight of when it drops the PID of `p`'s record. */
  function Dropped(s: State, p: string): set<Incarnation> {
    if NamedLive(s, p) then {Incarnation(s.processes[p].pid, s.processes[p].marker)} else {}
  }

  predicate Outstanding(c: Child) {
    c.waiter.Waiting? || c.waiter.Reaped?
  }

  predicate InFlight(pc: Pc, i: Incarnation) {
    (pc.Spawned? || pc.Record?) && pc.child == i
  }

  predicate IsTask(pc: Pc) {
    pc.CreateLoad? || pc.StartLoad? ||
    (pc.StopLoad? && (pc.after.Return? || pc.after.ThenStart? || pc.after.ThenRemove?)) ||
    (pc.InspectLoad? && pc.after.Return?)
  }

  function Continue(after: After, p: string, running: bool): Pc {
    match after
    case Return => Idle
    case ThenStart => StartLoad(p)
    case ThenRemove => Remove(p)
    case ThenReplace(hash, start) => Replace(p, hash, start)
    case ThenStartUnlessRunning => if running then Idle else StartLoad(p)
  }

  predicate CanAdvance(s: State) {
    match s.pc
    case Idle => false
    case Spawn(_) => false
    case Grace(p, i, at) => i in s.children && (s.children[i].waiter.Done? || at + STARTUP_GRACE <= s.clock)
    case StopPoll(p, rec, after) => !Running(s, rec)
    case Record(p, i, at) => i in s.children
    case _ => true
  }

  function Advanced(s: State, now: int): State
    requires CanAdvance(s)
  {
    var ps := s.processes;
    match s.pc
    case CreateLoad(p, hash, auto) =>
      s.(pc := if p in ps then CreateCheck(p, ps[p], hash, auto) else Replace(p, hash, auto))
    case CreateCheck(p, rec, hash, auto) =>
      s.(pc := if rec.definitionHash == hash then InspectLoad(p, if auto then ThenStartUnlessRunning else Return)
      else if Running(s, rec) then StopLoad(p, ThenReplace(hash, true))
      else Replace(p, hash, auto))
    case Replace(p, hash, auto) =>
      s.(processes := ps[p := Defined(hash, now)], lastStart := s.lastStart - {p}, stray := s.stray + Dropped(s, p),
      pc := if auto then StartLoad(p) else InspectLoad(p, Return))
    case StartLoad(p) => s.(pc := if p in ps then StartCheck(p, ps[p]) else Idle)
    case StartCheck(p, rec) => s.(pc := if Running(s, rec) then InspectLoad(p, Return) else Spawn(p))
    case Spawned(p, i) => s.(pc := Record(p, i, s.clock))
    case Record(p, i, at) =>
      var c := s.children[i];
      if p !in ps then Killed(s, i)
      else s.(processes := ps[p := Started(ps[p], i, at)],
           children := s.children[i := c.(startedAt := at, waiter := Waiting)],
           lastStart := s.lastStart[p := i], pc := Grace(p, i, at))
    case Grace(p, i, at) => s.(pc := InspectLoad(p, Return))
    case StopLoad(p, after) => s.(pc := if p in ps then StopCheck(p, ps[p], after) else Continue(after, p, false))
    case StopCheck(p, rec, after) =>
      s.(pc := if Running(s, rec) then StopPoll(p, rec, after) else StopClear(p, false, after))
    case StopPoll(p, rec, after) => s.(pc := StopClear(p, false, after))
    case StopClear(p, _, after) =>
      s.(processes := AfterClear(ps, p, now), stray := s.stray + Dropped(s, p), pc := InspectLoad(p, after))
    case InspectLoad(p, after) => s.(pc := if p in ps then InspectCheck(p, ps[p], after) else Continue(after, p, false))
    case InspectCheck(p, rec, after) =>
      s.(pc := if Running(s, rec) then Continue(after, p, true)
      else if rec.pid != 0 then InspectClear(p, after)
      else Continue(after, p, false))
    case InspectClear(p, after) =>
      s.(processes := AfterUnguardedClear(ps, p, now), stray := s.stray + Dropped(s, p),
      pc := Continue(after, p, false))
    case Remove(p) =>
      s.(processes := ps - {p}, lastStart := s.lastStart - {p}, stray := s.stray + Dropped(s, p), pc := Idle)
  }

  /** Start's error path after the child exists: kill it, wait for it, give up. */
  function Killed(s: State, i: Incarnation): State
    requires i in s.children
  {
    s.(children := s.children[i := s.children[i].(alive := false)], pc := Idle)
  }

  function Failed(s: State): State {
    match s.pc
    case Spawned(p, i) => if i in s.children then Killed(s, i) else s
    case Record(p, i, _) => if i in s.children then Killed(s, i) else s
    case InspectClear(p, after) => s.(pc := Continue(after, p, false))
    case _ => s.(pc := Idle)
  }

  function Orphaned(c: Child): Child {
    c.(waiter := if Outstanding(c) then Lost else if c.waiter.Updated? then Done(c.waiter.wrote) else c.waiter)
  }

  function Crashed(s: State): State {
    s.(children := map i | i in s.children :: Orphaned(s.children[i]),
    stray := s.stray + (set i | i in s.children && s.children[i].alive && InFlight(s.pc, i)),
    pc := Idle)
  }

  predicate Enabled(s: State, step: Step) {
    match step
    case Begin(task) => s.pc.Idle? && IsTask(task)
    case Advance(now) => CanAdvance(s) && now <= s.clock
    case Fail => !s.pc.Idle? && !s.pc.Grace?
    case Launch(i) => s.pc.Spawn? && i !in s.children && i.pid > 1 && i.marker != ""
    case GiveUp => s.pc.StopPoll?
    case Reap(i, code) => i in s.children && s.children[i].waiter.Waiting?
    case WaiterUpdate(i, now, wrote) => i in s.children && s.children[i].waiter.Reaped? && now <= s.clock
    case Send(i) => i in s.children && s.children[i].waiter.Updated?
    case OrphanExit(i) => Live(s, i) && !s.children[i].waiter.Waiting? && !InFlight(s.pc, i)
    case Crash => true
    case Tick(d) => true
  }

  function Apply(s: State, step: Step): State
    requires Enabled(s, step)
  {
    match step
    case Begin(task) => s.(pc := task)
    case Advance(now) => Advanced(s, now)
    case Fail => Failed(s)
    case Launch(i) =>
      s.(children := s.children[i := Child(s.pc.p, true, 0, 0, Unattached)], pc := Spawned(s.pc.p, i))
    case GiveUp => s.(pc := StopClear(s.pc.p, true, s.pc.after))
    case Reap(i, code) =>
      s.(children := s.children[i := s.children[i].(alive := false, code := code, waiter := Reaped)])
    case WaiterUpdate(i, now, wrote) =>
      var c := s.children[i];
      s.(children := s.children[i := c.(waiter := Updated(wrote))],
      processes := if wrote then AfterWait(s.processes, c.owner, i, c.startedAt, c.code, now) else s.processes)
    case Send(i) =>
      s.(children := s.children[i := s.children[i].(waiter := Done(s.children[i].waiter.wrote))])
    case OrphanExit(i) => s.(children := s.children[i := s.children[i].(alive := false)])
    case Crash => Crashed(s)
    case Tick(d) => s.(clock := s.clock + d)
  }

  predicate IsInitial(s: State) {
    s.clock > 0 && s == State(s.clock, map[], map[], map[], {}, Idle)
  }

  /** The state a run reaches, or None when one of its steps is not enabled. */
  function Run(s: State, steps: seq<Step>): Option<State>
    decreases |steps|
  {
    if steps == [] then Some(s)
    else if Enabled(s, steps[0]) then Run(Apply(s, steps[0]), steps[1..])
    else None
  }

  ghost predicate Reachable(s: State) {
    exists start, steps :: IsInitial(start) && Run(start, steps) == Some(s)
  }
}
