/** Exactly when two children of one process can be live. */
module SupervisorDoubling {
  import opened Basics
  import opened WorkerState
  import opened Supervisor
  import opened SupervisorInvariant
  import opened SupervisorSafety

  lemma Extend(s: State, step: Step) returns (s': State)
    requires Reachable(s) && Enabled(s, step)
    ensures s' == Apply(s, step) && Reachable(s')
  {
    var start, steps :| IsInitial(start) && Run(start, steps) == Some(s);
    RunAppend(start, steps, [step]);
    s' := Apply(s, step);
    assert Run(s, [step]) == Run(s', []);
  }

  lemma {:induction false} RunAppend(s: State, a: seq<Step>, b: seq<Step>)
    requires Run(s, a).Some?
    ensures Run(s, a + b) == Run(Run(s, a).value, b)
    decreases |a|
  {
    if a == [] {
      assert a + b == b;
    } else {
      RunAppend(Apply(s, a[0]), a[1..], b);
      assert (a + b)[1..] == a[1..] + b;
    }
  }

  // ---- Runs that keep hold of every live child ------------------------------------

  /** A run in which the agent never lets go of a live child. */
  ghost predicate KeepsHold(s: State, steps: seq<Step>)
    decreases |steps|
  {
    steps == [] ||
    (Enabled(s, steps[0]) && Holds(s, steps[0]) && KeepsHold(Apply(s, steps[0]), steps[1..]))
  }

  ghost predicate Holds(s: State, step: Step) {
    forall i :: !LetsGo(s, step, i)
  }

  /** No child that was let go of lives any more. */
  ghost predicate NoLiveStray(s: State) {
    forall i :: i in s.stray ==> !Live(s, i)
  }

  lemma HoldingStepKeepsQuiet(s: State, step: Step)
    requires Reachable(s) && NoLiveStray(s) && Enabled(s, step) && Holds(s, step)
    ensures NoLiveStray(Apply(s, step))
  {
    ReachableInv(s);
    forall i | i in Apply(s, step).stray ensures !Live(Apply(s, step), i) {
      StraysComeFromLettingGo(s, step, i);
      assert i in s.children && !s.children[i].alive;
    }
  }

  lemma {:induction false} HoldingKeepsQuiet(s: State, steps: seq<Step>)
    requires Reachable(s) && NoLiveStray(s) && KeepsHold(s, steps)
    ensures Run(s, steps).Some? && Reachable(Run(s, steps).value) && NoLiveStray(Run(s, steps).value)
    decreases |steps|
  {
    if steps != [] {
      HoldingStepKeepsQuiet(s, steps[0]);
      var next := Extend(s, steps[0]);
      HoldingKeepsQuiet(next, steps[1..]);
    }
  }

  /** In such a run at most one child of a process is ever alive; between tasks, it is the
      one that the process's record names. */
  lemma OneLiveWhileHolding(start: State, steps: seq<Step>, i: Incarnation, j: Incarnation)
    requires Reachable(start) && NoLiveStray(start) && KeepsHold(start, steps)
    ensures Run(start, steps).Some?
    ensures var s := Run(start, steps).value;
            Live(s, i) && Live(s, j) && s.children[i].owner == s.children[j].owner ==>
              && i == j
              && (s.pc.Idle? ==> s.children[i].owner in s.processes && Names(s.processes[s.children[i].owner], i))
  {
    HoldingKeepsQuiet(start, steps);
    var s := Run(start, steps).value;
    if Live(s, i) && Live(s, j) && s.children[i].owner == s.children[j].owner {
      AtMostOneLive(s, i, j);
    }
  }

  // ---- What letting go leads to -----------------------------------------------------

  ghost predicate TwoLive(s: State) {
    exists i, j :: i != j && Live(s, i) && Live(s, j) && s.children[i].owner == s.children[j].owner
  }

  /** The run leads to two live children without letting go of another one. */
  ghost predicate Doubles(s: State, steps: seq<Step>) {
    KeepsHold(s, steps) && Run(s, steps).Some? && TwoLive(Run(s, steps).value)
  }

  ghost predicate CanDouble(s: State) {
    exists steps :: Doubles(s, steps)
  }

  lemma LongerThanAll(used: set<Incarnation>) returns (n: nat)
    ensures forall i :: i in used ==> |i.marker| < n
  {
    if used == {} {
      n := 0;
    } else {
      var i :| i in used;
      var rest := LongerThanAll(used - {i});
      n := if |i.marker| < rest then rest else |i.marker| + 1;
      assert used == (used - {i}) + {i};
    }
  }

  lemma Unused(used: set<Incarnation>) returns (i: Incarnation)
    ensures i !in used && i.pid > 1 && i.marker != ""
  {
    var n := LongerThanAll(used);
    i := Incarnation(2, seq(n + 1, _ => '0'));
    assert |i.marker| == n + 1;
  }

  lemma OneStepEarlier(s: State, step: Step)
    requires Enabled(s, step) && Holds(s, step) && CanDouble(Apply(s, step))
    ensures CanDouble(s)
  {
    var steps :| Doubles(Apply(s, step), steps);
    var all := [step] + steps;
    assert all[0] == step && all[1..] == steps;
    assert Doubles(s, all);
  }

  lemma AlreadyDouble(s: State, i: Incarnation, j: Incarnation)
    requires i != j && Live(s, i) && Live(s, j) && s.children[i].owner == s.children[j].owner
    ensures CanDouble(s)
  {
    assert TwoLive(s);
    assert Doubles(s, []);
  }

  lemma LaunchDoubles(s: State, i: Incarnation)
    requires s.pc.Spawn? && Live(s, i) && s.children[i].owner == s.pc.p
    ensures CanDouble(s)
  {
    var j := Unused(s.children.Keys);
    AlreadyDouble(Apply(s, Launch(j)), i, j);
    OneStepEarlier(s, Launch(j));
  }

  /** A live child that its record does not name does not keep a start from launching
      another one. */
  lemma StartDoubles(s: State, i: Incarnation)
    requires s.pc.StartLoad? && Live(s, i) && s.children[i].owner == s.pc.p
    requires s.pc.p in s.processes && !NamedLive(s, s.pc.p)
    ensures CanDouble(s)
  {
    var checking := Apply(s, Advance(s.clock));
    LaunchDoubles(Apply(checking, Advance(s.clock)), i);
    OneStepEarlier(checking, Advance(s.clock));
    OneStepEarlier(s, Advance(s.clock));
  }

  /** Neither does a missing record keep a create from defining and launching one. */
  lemma CreateDoubles(s: State, i: Incarnation)
    requires s.pc.CreateLoad? && s.pc.auto && Live(s, i) && s.children[i].owner == s.pc.p && s.pc.p !in s.processes
    ensures CanDouble(s)
  {
    var defining := Apply(s, Advance(s.clock));
    StartDoubles(Apply(defining, Advance(s.clock)), i);
    OneStepEarlier(defining, Advance(s.clock));
    OneStepEarlier(s, Advance(s.clock));
  }

  /** No record names a child that was let go of. */
  ghost predicate NoStrayNamed(s: State) {
    forall i, p :: i in s.stray && p in s.processes ==> !Names(s.processes[p], i)
  }

  /** A record names only the child that it was last started from. */
  lemma NamedIsLastStart(s: State, i: Incarnation, p: string)
    requires Inv(s) && p in s.processes && Names(s.processes[p], i) && i in s.children
    ensures p in s.lastStart && s.lastStart[p] == i && s.children[i].owner == p && !s.children[i].waiter.Unattached?
  {
    assert ProcessOK(s, p) && ChildOK(s, i);
  }

  lemma CrashKeepsStraysUnnamed(s: State, i: Incarnation, p: string)
    requires Inv(s) && NoStrayNamed(s) && i in Crashed(s).stray && p in s.processes
    ensures !Names(s.processes[p], i)
  {
    if i !in s.stray && Names(s.processes[p], i) {
      NamedIsLastStart(s, i, p);
    }
  }

  lemma ClearKeepsStraysUnnamed(s: State, now: int, i: Incarnation, p: string)
    requires Inv(s) && NoStrayNamed(s) && CanAdvance(s) && !s.pc.Record?
    requires i in Advanced(s, now).stray && p in Advanced(s, now).processes
    ensures !Names(Advanced(s, now).processes[p], i)
  {
    assert ChildOK(s, i);
    var named := i !in s.stray && s.pc.p in s.processes && Names(s.processes[s.pc.p], i);
    if named {
      NamedIsLastStart(s, i, s.pc.p);
    }
    if p in s.processes && Names(s.processes[p], i) && i in s.children {
      NamedIsLastStart(s, i, p);
    }
  }

  lemma RecordKeepsStraysUnnamed(s: State, now: int, i: Incarnation, p: string)
    requires Inv(s) && NoStrayNamed(s) && s.pc.Record? && CanAdvance(s)
    requires i in Advanced(s, now).stray && p in Advanced(s, now).processes
    ensures !Names(Advanced(s, now).processes[p], i)
  {
    assert FreshChild(s, s.pc.p, s.pc.child);
  }

  lemma StepKeepsStraysUnnamed(s: State, step: Step, i: Incarnation, p: string)
    requires Inv(s) && Enabled(s, step) && NoStrayNamed(s)
    requires i in Apply(s, step).stray && p in Apply(s, step).processes
    ensures !Names(Apply(s, step).processes[p], i)
  {
    if step.Crash? {
      CrashKeepsStraysUnnamed(s, i, p);
    } else if step.Advance? && s.pc.Record? {
      RecordKeepsStraysUnnamed(s, step.now, i, p);
    } else if step.Advance? {
      ClearKeepsStraysUnnamed(s, step.now, i, p);
    } else {
      assert ChildOK(s, i);
    }
  }

  lemma {:induction false} RunKeepsStraysUnnamed(s: State, steps: seq<Step>)
    requires Inv(s) && NoStrayNamed(s) && Run(s, steps).Some?
    ensures NoStrayNamed(Run(s, steps).value)
    decreases |steps|
  {
    if steps != [] {
      StepKeepsInv(s, steps[0]);
      forall i, p | i in Apply(s, steps[0]).stray && p in Apply(s, steps[0]).processes
        ensures !Names(Apply(s, steps[0]).processes[p], i)
      {
        StepKeepsStraysUnnamed(s, steps[0], i, p);
      }
      RunKeepsStraysUnnamed(Apply(s, steps[0]), steps[1..]);
    }
  }

  lemma StraysAreUnnamed(s: State)
    requires Reachable(s)
    ensures NoStrayNamed(s)
  {
    var start, steps :| IsInitial(start) && Run(start, steps) == Some(s);
    InitialInv(start);
    RunKeepsStraysUnnamed(start, steps);
  }

  lemma StrayDoubles(s: State, i: Incarnation)
    requires Reachable(s) && s.pc.Idle? && i in s.stray && Live(s, i)
    ensures CanDouble(s)
  {
    ReachableInv(s);
    StraysAreUnnamed(s);
    var p := s.children[i].owner;
    if NamedLive(s, p) {
      assert ProcessOK(s, p);
      AlreadyDouble(s, i, Incarnation(s.processes[p].pid, s.processes[p].marker));
    } else if p in s.processes {
      StartDoubles(Apply(s, Begin(StartLoad(p))), i);
      OneStepEarlier(s, Begin(StartLoad(p)));
    } else {
      CreateDoubles(Apply(s, Begin(CreateLoad(p, "", true))), i);
      OneStepEarlier(s, Begin(CreateLoad(p, "", true)));
    }
  }

  /** From a reachable state, two children of a process can come to live together, without the
      agent letting go of another one, if and only if a child that was let go of still lives. */
  lemma DoublingIsExactly(s: State)
    requires Reachable(s)
    ensures CanDouble(s) <==> !NoLiveStray(s)
  {
    if i :| i in s.stray && Live(s, i) {
      LetGoDoubles(s, i);
    } else if steps :| Doubles(s, steps) {
      var end := Run(s, steps).value;
      var i, j :| i != j && Live(end, i) && Live(end, j) && end.children[i].owner == end.children[j].owner;
      OneLiveWhileHolding(s, steps, i, j);
    }
  }

  /** A task under way when the child was let go of may be cut short by a crash; if that would
      let go of a child just launched, that child and the stray one are as good. */
  lemma LetGoDoubles(s: State, i: Incarnation)
    requires Reachable(s) && i in s.stray && Live(s, i)
    ensures CanDouble(s)
  {
    ReachableInv(s);
    if (s.pc.Spawned? || s.pc.Record?) && Live(s, s.pc.child) {
      assert FreshChild(s, s.pc.p, s.pc.child);
      var idle := Extend(s, Fail);
      StrayDoubles(idle, i);
      OneStepEarlier(s, Fail);
    } else {
      var idle := Extend(s, Crash);
      StrayDoubles(idle, i);
      OneStepEarlier(s, Crash);
    }
  }

  /** So a step opens the way to two live children exactly when it lets go of a live one, as
      long as no child let go of before is still alive ... */
  lemma LettingGoIsExactly(s: State, step: Step)
    requires Reachable(s) && NoLiveStray(s) && Enabled(s, step)
    ensures CanDouble(Apply(s, step)) <==> exists i :: LetsGo(s, step, i)
  {
    var s' := Extend(s, step);
    DoublingIsExactly(s');
    if i :| LetsGo(s, step, i) {
      LettingGoDoubles(s, step, i);
    } else {
      HoldingStepKeepsQuiet(s, step);
    }
  }

  /** ... and a step that lets go of a live child always does. */
  lemma LettingGoDoubles(s: State, step: Step, i: Incarnation)
    requires Reachable(s) && Enabled(s, step) && LetsGo(s, step, i)
    ensures CanDouble(Apply(s, step))
  {
    StraysComeFromLettingGo(s, step, i);
    var s' := Extend(s, step);
    LetGoDoubles(s', i);
  }

  // ---- Both ways of letting go occur --------------------------------------------------

  const FIRST := Incarnation(2, "first")

  function JustLaunched(): State {
    State(1, map["p" := Defined("h", 1)], map[FIRST := Child("p", true, 0, 0, Unattached)], map[], {},
      Spawned("p", FIRST))
  }

  function UpAndRunning(): State {
    State(1 + STARTUP_GRACE, map["p" := Started(Defined("h", 1), FIRST, 1)],
      map[FIRST := Child("p", true, 1, 0, Waiting)],
          map["p" := FIRST], {}, Idle)
  }

  lemma JustLaunchedIsReachable()
    ensures Reachable(JustLaunched())
  {
    var s := State(1, map[], map[], map[], {}, Idle);
    assert IsInitial(s) && Run(s, []) == Some(s);
    s := Extend(s, Begin(CreateLoad("p", "h", true)));
    s := Extend(s, Advance(1));
    s := Extend(s, Advance(1));
    s := Extend(s, Advance(1));
    s := Extend(s, Advance(1));
    s := Extend(s, Launch(FIRST));
    assert s == JustLaunched();
  }

  lemma InGraceIsReachable()
    ensures Reachable(UpAndRunning().(clock := 1, pc := Grace("p", FIRST, 1)))
  {
    JustLaunchedIsReachable();
    var s := JustLaunched();
    s := Extend(s, Advance(1));
    s := Extend(s, Advance(1));
    assert s == UpAndRunning().(clock := 1, pc := Grace("p", FIRST, 1));
  }

  lemma UpAndRunningIsReachable()
    ensures Reachable(UpAndRunning())
  {
    InGraceIsReachable();
    var s := UpAndRunning().(clock := 1, pc := Grace("p", FIRST, 1));
    s := Extend(s, Tick(STARTUP_GRACE));
    s := Extend(s, Advance(1));
    assert s == UpAndRunning().(pc := InspectLoad("p", Return));
    s := Inspected(s);
  }

  /** An inspection that finds the child running changes nothing. */
  lemma Inspected(s: State) returns (s': State)
    requires Reachable(s) && s.pc.InspectLoad? && s.pc.after.Return? && NamedLive(s, s.pc.p)
    ensures s' == s.(pc := Idle) && Reachable(s')
  {
    s' := Extend(s, Advance(s.clock));
    s' := Extend(s', Advance(s.clock));
  }

  function GivenUp(): State {
    UpAndRunning().(pc := StopClear("p", true, ThenStart))
  }

  lemma GivenUpIsReachable()
    ensures Reachable(GivenUp())
  {
    UpAndRunningIsReachable();
    var s := UpAndRunning();
    s := Extend(s, Begin(StopLoad("p", ThenStart)));
    s := Extend(s, Advance(1));
    s := Extend(s, Advance(1));
    assert s.pc.StopPoll?;
    s := Extend(s, GiveUp);
    assert s == GivenUp();
  }

  /** Stop gives up on a child that survives SIGKILL past the deadline. */
  lemma GivingUpLetsGo()
    ensures Reachable(GivenUp()) && NoLiveStray(GivenUp())
    ensures LetsGo(GivenUp(), Advance(1), FIRST) && CanDouble(Apply(GivenUp(), Advance(1)))
  {
    GivenUpIsReachable();
    LettingGoDoubles(GivenUp(), Advance(1), FIRST);
  }

  /** The agent dies before it has recorded a child. */
  lemma CrashLetsGo()
    ensures Reachable(JustLaunched()) && NoLiveStray(JustLaunched())
    ensures LetsGo(JustLaunched(), Crash, FIRST) && CanDouble(Apply(JustLaunched(), Crash))
  {
    JustLaunchedIsReachable();
    LettingGoDoubles(JustLaunched(), Crash, FIRST);
  }
}
