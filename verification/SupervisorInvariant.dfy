/** The inductive invariant of the supervisor and the proof that every step keeps it. */
module SupervisorInvariant {
  import opened Basics
  import opened WorkerState
  import opened Supervisor

  /** Every live child is stray, just launched, or named by its owner's record. */
  ghost predicate Accounted(s: State, i: Incarnation) {
    i in s.children && s.children[i].alive ==>
      var p := s.children[i].owner;
      i in s.stray || InFlight(s.pc, i) || (p in s.processes && Names(s.processes[p], i))
  }

  ghost predicate ChildOK(s: State, i: Incarnation) {
    i in s.children ==>
      var c := s.children[i];
      && i.pid > 1 && i.marker != ""
      && (c.waiter.Waiting? ==> c.alive)
      && (c.waiter.Reaped? || c.waiter.Updated? || c.waiter.Done? ==> !c.alive)
      && (c.waiter.Unattached? && c.alive ==> i in s.stray || InFlight(s.pc, i))
      && (!c.waiter.Unattached? ==> 1 <= c.startedAt <= s.clock)
  }

  /** The startup grace keeps the start times of outstanding waiters apart. */
  ghost predicate ClockOK(s: State, i: Incarnation) {
    i in s.children && Outstanding(s.children[i]) ==>
      var c := s.children[i];
      && (s.pc == Grace(c.owner, i, c.startedAt) || c.startedAt + STARTUP_GRACE <= s.clock)
      && (s.pc.Record? ==> c.startedAt + STARTUP_GRACE <= s.pc.at)
      && (c.owner in s.lastStart && s.lastStart[c.owner] != i && s.lastStart[c.owner] in s.children ==>
        s.children[s.lastStart[c.owner]].startedAt != c.startedAt)
  }

  ghost predicate RecordOK(rec: ProcessRecord) {
    (rec.status.Running? <==> rec.pid != 0) && (rec.pid != 0 <==> rec.marker != "")
  }

  ghost predicate ProcessOK(s: State, p: string) {
    p in s.processes ==>
      var rec := s.processes[p];
      && RecordOK(rec)
      && (p !in s.lastStart ==> rec.pid == 0 && rec.startedAt == 0 && rec.lastExitCode == None)
      && (p in s.lastStart ==>
        var i := s.lastStart[p];
        && i in s.children
        && var c := s.children[i];
        && c.owner == p && !c.waiter.Unattached?
        && rec.startedAt == c.startedAt
        && !rec.status.Created?
        && (rec.pid != 0 ==> Names(rec, i) && rec.lastExitCode == None)
        && (Outstanding(c) ==> rec.lastExitCode == None)
        && (c.waiter == Updated(true) || c.waiter == Done(true) ==> rec.pid == 0 && rec.lastExitCode == Some(c.code)))
  }

  /** The record now is the one read before, or has lost its PID since. */
  ghost predicate Follows(s: State, p: string, rec: ProcessRecord) {
    p in s.processes && (s.processes[p].pid == 0 ||
      (s.processes[p].pid == rec.pid && s.processes[p].marker == rec.marker))
  }

  ghost predicate MustBeQuiet(after: After) {
    after.ThenRemove? || after.ThenReplace?
  }

  ghost predicate PcOK(s: State) {
    match s.pc
    case CreateCheck(p, rec, _, _) => Follows(s, p, rec)
    case Replace(p, _, _) => !NamedLive(s, p)
    case StartCheck(p, rec) => Follows(s, p, rec)
    case Spawn(p) => p in s.processes && !NamedLive(s, p)
    case Spawned(p, i) => p in s.processes && !NamedLive(s, p) && FreshChild(s, p, i)
    case Record(p, i, at) => p in s.processes && !NamedLive(s, p) && FreshChild(s, p, i) && 1 <= at <= s.clock
    case Grace(p, i, at) => i in s.children && !s.children[i].waiter.Unattached?
    case StopCheck(p, rec, _) => Follows(s, p, rec)
    case StopPoll(p, rec, _) => Follows(s, p, rec)
    case StopClear(p, gaveUp, _) => !gaveUp ==> !NamedLive(s, p)
    case InspectLoad(p, after) => MustBeQuiet(after) ==> !NamedLive(s, p)
    case InspectCheck(p, rec, after) => Follows(s, p, rec) && (MustBeQuiet(after) ==> !NamedLive(s, p))
    case InspectClear(p, after) => p in s.processes && !NamedLive(s, p)
    case Remove(p) => !NamedLive(s, p)
    case _ => true
  }

  ghost predicate FreshChild(s: State, p: string, i: Incarnation) {
    i in s.children && s.children[i].owner == p && s.children[i].waiter.Unattached? && s.children[i].alive &&
      i !in s.stray
  }

  ghost predicate Tables(s: State) {
    && s.clock > 0
    && s.lastStart.Keys <= s.processes.Keys
    && s.stray <= s.children.Keys
    && (forall i :: i in s.children ==> ChildOK(s, i) && ClockOK(s, i) && Accounted(s, i))
    && (forall p :: p in s.processes ==> ProcessOK(s, p))
  }

  ghost predicate Inv(s: State) {
    Tables(s) && PcOK(s)
  }

  lemma InitialInv(s: State)
    requires IsInitial(s)
    ensures Inv(s)
  {
  }

  /** A start between the launch of its child and the end of the grace period. */
  predicate Starting(pc: Pc) {
    pc.Spawned? || pc.Record? || pc.Grace?
  }

  // ---- Steps of the task loop -------------------------------------------------

  predicate Writes(pc: Pc) {
    pc.Replace? || pc.Record? || pc.StopClear? || pc.InspectClear? || pc.Remove?
  }

  /** Moving the control point alone, outside of a start, disturbs no table. */
  lemma MoveKeepsTables(s: State, s': State)
    requires Tables(s) && s' == s.(pc := s'.pc)
    requires !Starting(s.pc) && !s'.pc.Record?
    ensures Tables(s')
  {
    forall i | i in s'.children ensures ChildOK(s', i) && ClockOK(s', i) && Accounted(s', i) {
      assert ChildOK(s, i) && ClockOK(s, i) && Accounted(s, i);
    }
    forall p | p in s'.processes ensures ProcessOK(s', p) {
      assert ProcessOK(s, p);
    }
  }

  lemma StampKeepsTables(s: State, p: string, i: Incarnation)
    requires Tables(s) && s.pc == Spawned(p, i)
    ensures Tables(s.(pc := Record(p, i, s.clock)))
  {
    var s' := s.(pc := Record(p, i, s.clock));
    forall j | j in s'.children ensures ChildOK(s', j) && ClockOK(s', j) && Accounted(s', j) {
      assert ChildOK(s, j) && ClockOK(s, j) && Accounted(s, j);
    }
    forall q | q in s'.processes ensures ProcessOK(s', q) {
      assert ProcessOK(s, q);
    }
  }

  lemma GraceKeepsTables(s: State, p: string, i: Incarnation, at: int)
    requires Tables(s) && s.pc == Grace(p, i, at) && CanAdvance(s)
    ensures Tables(s.(pc := InspectLoad(p, Return)))
  {
    var s' := s.(pc := InspectLoad(p, Return));
    forall j | j in s'.children ensures ChildOK(s', j) && ClockOK(s', j) && Accounted(s', j) {
      assert ChildOK(s, j) && ClockOK(s, j) && Accounted(s, j);
    }
    forall q | q in s'.processes ensures ProcessOK(s', q) {
      assert ProcessOK(s, q);
    }
  }

  lemma ControlKeepsPc(s: State, now: int)
    requires PcOK(s) && Enabled(s, Advance(now)) && !Writes(s.pc) && s.clock > 0
    ensures PcOK(Advanced(s, now))
  {
  }

  lemma ControlKeepsInv(s: State, now: int)
    requires Inv(s) && Enabled(s, Advance(now)) && !Writes(s.pc)
    ensures Inv(Advanced(s, now))
  {
    ControlKeepsPc(s, now);
    if s.pc.Spawned? {
      StampKeepsTables(s, s.pc.p, s.pc.child);
    } else if s.pc.Grace? {
      GraceKeepsTables(s, s.pc.p, s.pc.child, s.pc.at);
    } else {
      MoveKeepsTables(s, Advanced(s, now));
    }
  }

  lemma ClearKeepsTables(s: State, p: string, now: int, s': State)
    requires Tables(s) && !Starting(s.pc) && !Starting(s'.pc)
    requires s' == s.(processes := AfterClear(s.processes, p, now), stray := s.stray + Dropped(s, p), pc := s'.pc)
    ensures Tables(s') && !NamedLive(s', p)
  {
    forall i | i in s'.children ensures ChildOK(s', i) && ClockOK(s', i) && Accounted(s', i) {
      assert ChildOK(s, i) && ClockOK(s, i) && Accounted(s, i);
    }
    forall q | q in s'.processes ensures ProcessOK(s', q) {
      assert ProcessOK(s, q);
    }
  }

  lemma ForgetKeepsTables(s: State, p: string, s': State)
    requires Tables(s) && !Starting(s.pc) && !Starting(s'.pc)
    requires s'.processes == s.processes - {p} ||
             exists hash, now :: s'.processes == s.processes[p := Defined(hash, now)]
    requires s' == s.(processes := s'.processes, lastStart := s.lastStart - {p}, stray := s.stray + Dropped(s, p),
             pc := s'.pc)
    ensures Tables(s') && !NamedLive(s', p)
  {
    forall i | i in s'.children ensures ChildOK(s', i) && ClockOK(s', i) && Accounted(s', i) {
      assert ChildOK(s, i) && ClockOK(s, i) && Accounted(s, i);
    }
    forall q | q in s'.processes ensures ProcessOK(s', q) {
      assert q != p ==> ProcessOK(s, q);
    }
  }

  /** The new start time differs from that of every outstanding waiter. */
  lemma RecordKeepsTables(s: State, p: string, i: Incarnation, at: int, now: int)
    requires Tables(s) && s.pc == Record(p, i, at) && PcOK(s)
    ensures Tables(Advanced(s, now))
  {
    var s' := Advanced(s, now);
    forall j | j in s'.children ensures ChildOK(s', j) && ClockOK(s', j) && Accounted(s', j) {
      assert ChildOK(s, j) && ClockOK(s, j) && Accounted(s, j);
      assert ProcessOK(s, p);
    }
    forall q | q in s'.processes ensures ProcessOK(s', q) {
      assert ProcessOK(s, q);
    }
  }

  lemma WriteKeepsInv(s: State, now: int)
    requires Inv(s) && Enabled(s, Advance(now)) && Writes(s.pc)
    ensures Inv(Advanced(s, now))
  {
    var s' := Advanced(s, now);
    match s.pc
    case Record(p, i, at) => RecordKeepsTables(s, p, i, at, now);
    case StopClear(p, _, _) => ClearKeepsTables(s, p, now, s');
    case InspectClear(p, _) => ClearKeepsTables(s, p, now, s');
    case Replace(p, _, _) => ForgetKeepsTables(s, p, s');
    case Remove(p) => ForgetKeepsTables(s, p, s');
  }

  lemma LaunchKeepsInv(s: State, i: Incarnation)
    requires Inv(s) && Enabled(s, Launch(i))
    ensures Inv(Apply(s, Launch(i)))
  {
    var s' := Apply(s, Launch(i));
    forall j | j in s'.children ensures ChildOK(s', j) && ClockOK(s', j) && Accounted(s', j) {
      assert j != i ==> ChildOK(s, j) && ClockOK(s, j) && Accounted(s, j);
      assert j != i && s.children[j].owner in s.lastStart ==> ProcessOK(s, s.children[j].owner);
    }
    forall p | p in s'.processes ensures ProcessOK(s', p) {
      assert ProcessOK(s, p);
    }
  }

  lemma KilledKeepsInv(s: State, p: string, i: Incarnation)
    requires Tables(s) && FreshChild(s, p, i) && (s.pc.Spawned? || s.pc.Record?) && s.pc.child == i
    ensures Inv(Killed(s, i))
  {
    var s' := Killed(s, i);
    forall j | j in s'.children ensures ChildOK(s', j) && ClockOK(s', j) && Accounted(s', j) {
      assert ChildOK(s, j) && ClockOK(s, j) && Accounted(s, j);
    }
    forall q | q in s'.processes ensures ProcessOK(s', q) {
      assert ProcessOK(s, q);
    }
  }

  lemma FailKeepsInv(s: State)
    requires Inv(s) && Enabled(s, Fail)
    ensures Inv(Failed(s))
  {
    match s.pc
    case Spawned(p, i) => KilledKeepsInv(s, p, i);
    case Record(p, i, _) => KilledKeepsInv(s, p, i);
    case _ => MoveKeepsTables(s, Failed(s));
  }

  // ---- Steps of the world around it ----------------------------------------------

  /** Records keep their place and at most lose their PID, and children only die. */
  ghost predicate Fades(s: State, s': State) {
    && s'.pc == s.pc && s'.clock == s.clock && s'.stray == s.stray
    && s'.processes.Keys == s.processes.Keys
    && (forall p :: p in s.processes ==> s'.processes[p] == s.processes[p] || s'.processes[p].pid == 0)
    && s'.children.Keys == s.children.Keys
    && (forall i :: i in s.children ==> (s'.children[i].alive ==> s.children[i].alive))
    && (forall i :: i in s.children && s.children[i].waiter.Unattached? && InFlight(s.pc, i) ==>
        s'.children[i] == s.children[i])
    && (forall i :: i in s.children && !s.children[i].waiter.Unattached? ==> !s'.children[i].waiter.Unattached?)
  }

  lemma FadingKeepsPc(s: State, s': State)
    requires PcOK(s) && Fades(s, s')
    ensures PcOK(s')
  {
    assert forall p :: NamedLive(s', p) ==> NamedLive(s, p);
  }

  /** One child moves on while the records stand still. */
  ghost predicate ChildMoves(c: Child, c': Child) {
    || (c.waiter.Waiting? && c' == c.(alive := false, code := c'.code, waiter := Reaped))
    || (c.waiter.Updated? && c' == c.(waiter := Done(c.waiter.wrote)))
    || (!c.waiter.Waiting? && c' == c.(alive := false))
  }

  lemma ChildMoveKeepsTables(s: State, i: Incarnation, c: Child)
    requires Tables(s) && i in s.children && ChildMoves(s.children[i], c) && !InFlight(s.pc, i)
    ensures Tables(s.(children := s.children[i := c]))
  {
    var s' := s.(children := s.children[i := c]);
    forall j | j in s'.children ensures ChildOK(s', j) && ClockOK(s', j) && Accounted(s', j) {
      assert ChildOK(s, j) && ClockOK(s, j) && Accounted(s, j);
    }
    forall p | p in s'.processes ensures ProcessOK(s', p) {
      assert ProcessOK(s, p);
    }
  }

  /** The child of a start in progress has no waiter yet. */
  lemma InFlightIsUnattached(s: State, i: Incarnation)
    requires PcOK(s) && InFlight(s.pc, i)
    ensures i in s.children && s.children[i].waiter.Unattached?
  {
  }

  lemma ChildStepKeepsInv(s: State, i: Incarnation, c: Child, s': State)
    requires Inv(s) && i in s.children && ChildMoves(s.children[i], c) && !InFlight(s.pc, i)
    requires s' == s.(children := s.children[i := c])
    ensures Inv(s')
  {
    ChildMoveKeepsTables(s, i, c);
    FadingKeepsPc(s, s');
  }

  /** A reaped waiter's guard holds exactly on the record of its own incarnation. */
  lemma GuardIsExact(s: State, i: Incarnation)
    requires Tables(s) && i in s.children && s.children[i].waiter.Reaped? && s.children[i].owner in s.processes
    ensures var c := s.children[i];
            WaiterOwns(s.processes[c.owner], i, c.startedAt) <==> c.owner in s.lastStart && s.lastStart[c.owner] == i
  {
    var c := s.children[i];
    assert ChildOK(s, i) && ClockOK(s, i) && ProcessOK(s, c.owner);
  }

  lemma UpdateKeepsInv(s: State, i: Incarnation, now: int, wrote: bool)
    requires Inv(s) && Enabled(s, WaiterUpdate(i, now, wrote))
    ensures Inv(Apply(s, WaiterUpdate(i, now, wrote)))
  {
    var s' := Apply(s, WaiterUpdate(i, now, wrote));
    var c := s.children[i];
    if InFlight(s.pc, i) {
      InFlightIsUnattached(s, i);
    }
    FadingKeepsPc(s, s');
    if c.owner in s.processes {
      GuardIsExact(s, i);
    }
    UpdateKeepsTables(s, i, wrote, s');
  }

  lemma UpdateKeepsTables(s: State, i: Incarnation, wrote: bool, s': State)
    requires Tables(s) && i in s.children && s.children[i].waiter.Reaped?
    requires var c := s.children[i];
             && s' == s.(children := s.children[i := c.(waiter := Updated(wrote))], processes := s'.processes)
             && (s'.processes == s.processes ||
                 (c.owner in s.lastStart && s.lastStart[c.owner] == i &&
                  exists now :: s'.processes == s.processes[c.owner := Exited(s.processes[c.owner], c.code, now)]))
             && (wrote && c.owner in s.lastStart && s.lastStart[c.owner] == i ==> s'.processes != s.processes)
    ensures Tables(s')
  {
    var c := s.children[i];
    assert ChildOK(s, i);
    assert c.owner in s.processes ==> ProcessOK(s, c.owner);
    forall j | j in s'.children ensures ChildOK(s', j) && ClockOK(s', j) && Accounted(s', j) {
      assert ChildOK(s, j) && ClockOK(s, j) && Accounted(s, j);
    }
    forall p | p in s'.processes ensures ProcessOK(s', p) {
      assert ProcessOK(s, p);
    }
  }

  lemma CrashKeepsInv(s: State)
    requires Inv(s)
    ensures Inv(Crashed(s))
  {
    var s' := Crashed(s);
    forall i | i in s'.children ensures ChildOK(s', i) && ClockOK(s', i) && Accounted(s', i) {
      assert ChildOK(s, i) && Accounted(s, i);
    }
    forall p | p in s'.processes ensures ProcessOK(s', p) {
      assert ProcessOK(s, p);
    }
  }

  lemma TickKeepsInv(s: State, d: nat)
    requires Inv(s)
    ensures Inv(s.(clock := s.clock + d))
  {
    var s' := s.(clock := s.clock + d);
    forall i | i in s'.children ensures ChildOK(s', i) && ClockOK(s', i) && Accounted(s', i) {
      assert ChildOK(s, i) && ClockOK(s, i) && Accounted(s, i);
    }
    forall p | p in s'.processes ensures ProcessOK(s', p) {
      assert ProcessOK(s, p);
    }
  }

  // ---- Whole runs -----------------------------------------------------------------

  lemma MoveKeepsInv(s: State, step: Step)
    requires Inv(s) && Enabled(s, step) && (step.Begin? || step.GiveUp?)
    ensures Inv(Apply(s, step))
  {
    MoveKeepsTables(s, Apply(s, step));
  }

  /** Steps of a child and its waiter that write no record. */
  lemma OwnStepKeepsInv(s: State, step: Step, i: Incarnation)
    requires Inv(s) && Enabled(s, step)
    requires (step.Reap? || step.Send? || step.OrphanExit?) && step.i == i
    ensures Inv(Apply(s, step))
  {
    ChildStepKeepsInv(s, i, Apply(s, step).children[i], Apply(s, step));
  }

  lemma StepKeepsInv(s: State, step: Step)
    requires Inv(s) && Enabled(s, step)
    ensures Inv(Apply(s, step))
  {
    match step
    case Begin(_) => MoveKeepsInv(s, step);
    case GiveUp => MoveKeepsInv(s, step);
    case Advance(now) =>
      if Writes(s.pc) {
        WriteKeepsInv(s, now);
      } else {
        ControlKeepsInv(s, now);
      }
    case Fail => FailKeepsInv(s);
    case Launch(i) => LaunchKeepsInv(s, i);
    case Reap(i, _) => OwnStepKeepsInv(s, step, i);
    case WaiterUpdate(i, now, wrote) => UpdateKeepsInv(s, i, now, wrote);
    case Send(i) => OwnStepKeepsInv(s, step, i);
    case OrphanExit(i) => OwnStepKeepsInv(s, step, i);
    case Crash => CrashKeepsInv(s);
    case Tick(d) => TickKeepsInv(s, d);
  }

  lemma {:induction false} RunKeepsInv(s: State, steps: seq<Step>)
    requires Inv(s) && Run(s, steps).Some?
    ensures Inv(Run(s, steps).value)
    decreases |steps|
  {
    if steps != [] {
      StepKeepsInv(s, steps[0]);
      RunKeepsInv(Apply(s, steps[0]), steps[1..]);
    }
  }

  lemma ReachableInv(s: State)
    requires Reachable(s)
    ensures Inv(s)
  {
    var start, steps :| IsInitial(start) && Run(start, steps) == Some(s);
    InitialInv(start);
    RunKeepsInv(start, steps);
  }
}
