/**
 What each task of the supervisor has done when it is over.

 A task is followed from its beginning to the next idle point, through any interleaving with
 waiters, exits and the clock, but without a store or OS error and without a crash.
 */
module SupervisorTasks {
  import opened Basics
  import opened WorkerState
  import opened Supervisor
  import opened SupervisorInvariant
  import SupervisorDoubling

  predicate Undisturbed(step: Step) {
    !step.Fail? && !step.Crash?
  }

  /** The steps that take a task from where it stands to its end. */
  ghost predicate Finishes(s: State, steps: seq<Step>)
    decreases |steps|
  {
    if s.pc.Idle? then steps == []
    else steps != [] && Undisturbed(steps[0]) && Enabled(s, steps[0]) && Finishes(Apply(s, steps[0]), steps[1..])
  }

  /** What happened on the way: a child was launched; a definition was written; create found the
      process running under another definition; start's own check, or an inspection, found it
      running. */
  datatype Facts = Facts(launched: bool, defined: bool, ran: bool, found: bool, seen: bool)

  const NOTHING_YET := Facts(false, false, false, false, false)

  function Noted(f: Facts, s: State, step: Step): Facts {
    Facts(
      f.launched || step.Launch?,
      f.defined || (step.Advance? && s.pc.Replace?),
      f.ran || (step.Advance? && s.pc.CreateCheck? && s.pc.rec.definitionHash != s.pc.hash &&
        Supervisor.Running(s, s.pc.rec)),
      f.found || (step.Advance? && s.pc.StartCheck? && Supervisor.Running(s, s.pc.rec)),
      f.seen || (step.Advance? && s.pc.InspectCheck? && Supervisor.Running(s, s.pc.rec)))
  }

  ghost function FactsOf(f: Facts, s: State, steps: seq<Step>): Facts
    requires Finishes(s, steps)
    decreases |steps|
  {
    if steps == [] then f else FactsOf(Noted(f, s, steps[0]), Apply(s, steps[0]), steps[1..])
  }

  // ---- Where a task may stand ---------------------------------------------------------

  predicate HasHash(s: State, p: string, hash: string) {
    p in s.processes && s.processes[p].definitionHash == hash
  }

  /** The record was last started by this task. */
  predicate StartedAnew(s0: State, s: State, p: string) {
    p in s.lastStart && s.lastStart[p] !in s0.children
  }

  predicate Settled(s0: State, s: State, p: string, f: Facts) {
    (f.launched ==> StartedAnew(s0, s, p)) && (f.launched || f.found)
  }

  /** From start's load to the end. */
  predicate OnStart(s0: State, s: State, p: string, f: Facts) {
    && p in s.processes
    && match s.pc
       case StartLoad(q) => q == p && !f.launched && !f.found
       case StartCheck(q, _) => q == p && !f.launched && !f.found
       case Spawn(q) => q == p && !f.launched
       case Spawned(q, i) => q == p && f.launched && i !in s0.children
       case Record(q, i, _) => q == p && f.launched && i !in s0.children
       case Grace(q, _, _) => q == p && f.launched && StartedAnew(s0, s, p)
       case InspectLoad(q, after) => q == p && after == Return && Settled(s0, s, p, f)
       case InspectCheck(q, _, after) => q == p && after == Return && Settled(s0, s, p, f)
       case InspectClear(q, after) => q == p && after == Return && Settled(s0, s, p, f)
       case Idle => Settled(s0, s, p, f)
       case _ => false
  }

  /** Inside a stop or its inspection, with the same continuation throughout. */
  predicate InStop(pc: Pc, p: string, after: After) {
    match pc
    case StopLoad(q, a) => q == p && a == after
    case StopCheck(q, _, a) => q == p && a == after
    case StopPoll(q, _, a) => q == p && a == after
    case StopClear(q, _, a) => q == p && a == after
    case _ => InInspect(pc, p, after)
  }

  predicate InInspect(pc: Pc, p: string, after: After) {
    match pc
    case InspectLoad(q, a) => q == p && a == after
    case InspectCheck(q, _, a) => q == p && a == after
    case InspectClear(q, a) => q == p && a == after
    case _ => false
  }

  predicate OnRestart(s0: State, s: State, p: string, f: Facts) {
    if InStop(s.pc, p, ThenStart) then p in s.processes && !f.launched && !f.found else OnStart(s0, s, p, f)
  }

  predicate OnDelete(s: State, p: string, f: Facts) {
    !f.launched && (InStop(s.pc, p, ThenRemove) || s.pc == Remove(p) || (s.pc.Idle? && p !in s.processes))
  }

  predicate OnStop(s0: State, s: State, p: string, f: Facts) {
    && !f.launched && !f.defined && (p in s.processes <==> p in s0.processes)
    && (InStop(s.pc, p, Return) || s.pc.Idle?)
    && (s.pc.Idle? || InInspect(s.pc, p, Return) ==> p in s.processes ==> s.processes[p].pid == 0)
  }

  predicate OnInspect(s0: State, s: State, p: string, f: Facts) {
    && !f.launched && !f.defined && (p in s.processes <==> p in s0.processes)
    && (InInspect(s.pc, p, Return) || s.pc.Idle?)
    && (s.pc.Idle? && p in s.processes ==> f.seen || s.processes[p].pid == 0)
  }

  predicate OwnHash(s0: State, p: string, hash: string) {
    HasHash(s0, p, hash)
  }

  /** The end of a create: the definition is the one asked for, and a start was made where one
      was due, and only there. */
  predicate Created(s0: State, s: State, p: string, hash: string, auto: bool, f: Facts) {
    && HasHash(s, p, hash) && (f.defined <==> !OwnHash(s0, p, hash))
    && (f.launched ==> auto || f.ran) && (f.ran ==> !OwnHash(s0, p, hash))
    && (auto || f.ran ==> f.launched || f.found || (f.seen && !f.defined))
  }

  /** Create is still looking. */
  predicate Looking(s0: State, s: State, p: string, hash: string, auto: bool, f: Facts) {
    && f == NOTHING_YET && (p in s.processes <==> p in s0.processes)
    && (p in s.processes ==> s.processes[p].definitionHash == s0.processes[p].definitionHash)
    && match s.pc
       case CreateLoad(q, h, a) => q == p && h == hash && a == auto
       case CreateCheck(q, rec, h, a) =>
         q == p && h == hash && a == auto && p in s.processes && rec.definitionHash == s.processes[p].definitionHash
       case _ => false
  }

  /** The definition is another one: the process is stopped, if it runs, and redefined. */
  predicate Redefining(s0: State, s: State, p: string, hash: string, auto: bool, f: Facts) {
    && !OwnHash(s0, p, hash) && !f.launched && !f.defined && !f.found
    && (if InStop(s.pc, p, ThenReplace(hash, true)) then f.ran else s.pc == Replace(p, hash, auto || f.ran))
  }

  /** The definition is the same: a look at the process decides about a start. */
  predicate Checking(s0: State, s: State, p: string, hash: string, auto: bool, f: Facts) {
    && InInspect(s.pc, p, ThenStartUnlessRunning) && HasHash(s, p, hash) && OwnHash(s0, p, hash)
    && auto && !f.launched && !f.defined && !f.found && !f.ran
  }

  predicate Ending(s0: State, s: State, p: string, hash: string, auto: bool, f: Facts) {
    (s.pc.Idle? || InInspect(s.pc, p, Return)) && Created(s0, s, p, hash, auto, f) &&
      (f.launched ==> StartedAnew(s0, s, p))
  }

  predicate CreateStarts(s0: State, s: State, p: string, hash: string, auto: bool, f: Facts) {
    && !s.pc.Idle? && !InInspect(s.pc, p, Return) && OnStart(s0, s, p, f)
    && HasHash(s, p, hash) && (f.defined <==> !OwnHash(s0, p, hash))
    && (auto || f.ran) && (f.ran ==> !OwnHash(s0, p, hash))
  }

  predicate OnCreate(s0: State, s: State, p: string, hash: string, auto: bool, f: Facts) {
    || Looking(s0, s, p, hash, auto, f)
    || Redefining(s0, s, p, hash, auto, f)
    || Checking(s0, s, p, hash, auto, f)
    || CreateStarts(s0, s, p, hash, auto, f)
    || Ending(s0, s, p, hash, auto, f)
  }

  /** Where the task `task`, begun in state `s0`, may stand. */
  predicate OnTrack(task: Pc, s0: State, s: State, f: Facts) {
    match task
    case CreateLoad(p, hash, auto) => OnCreate(s0, s, p, hash, auto, f)
    case StartLoad(p) => OnStart(s0, s, p, f)
    case StopLoad(p, after) =>
      if after == ThenStart then OnRestart(s0, s, p, f)
      else if after == ThenRemove then OnDelete(s, p, f)
      else OnStop(s0, s, p, f)
    case InspectLoad(p, _) => OnInspect(s0, s, p, f)
    case _ => false
  }

  // ---- One step ------------------------------------------------------------------------

  /** A step of anyone but the task loop leaves all records in place; it may only clear one. */
  lemma OthersKeepRecords(s: State, step: Step, q: string)
    requires Inv(s) && Enabled(s, step) && !step.Advance?
    ensures q in Apply(s, step).processes <==> q in s.processes
    ensures q in s.processes ==>
              && Apply(s, step).processes[q].definitionHash == s.processes[q].definitionHash
              && (s.processes[q].pid == 0 ==> Apply(s, step).processes[q].pid == 0)
    ensures Apply(s, step).lastStart == s.lastStart && s.children.Keys <= Apply(s, step).children.Keys
  {
    if !step.WaiterUpdate? {
      OtherRecordsStay(s, step);
    }
  }

  lemma OtherRecordsStay(s: State, step: Step)
    requires Enabled(s, step) && !step.Advance? && !step.WaiterUpdate?
    ensures Apply(s, step).processes == s.processes
  {
  }

  /** Such a step moves the task on only by launching its child or by giving up. */
  lemma OthersKeepPc(s: State, step: Step)
    requires Enabled(s, step) && !step.Advance? && Undisturbed(step) && !s.pc.Idle?
    ensures Apply(s, step).pc == s.pc || (s.pc.Spawn? && step.Launch?) || (s.pc.StopPoll? && step.GiveUp?)
  {
  }

  lemma OthersStayOnStart(s0: State, s: State, step: Step, p: string, f: Facts)
    requires Inv(s) && Enabled(s, step) && Undisturbed(step) && !step.Advance? && !s.pc.Idle?
    requires OnStart(s0, s, p, f) && s0.children.Keys <= s.children.Keys
    ensures OnStart(s0, Apply(s, step), p, Noted(f, s, step))
  {
    OthersKeepRecords(s, step, p);
    OthersKeepPc(s, step);
  }

  lemma StartStaysOnTrack(s0: State, s: State, now: int, p: string, f: Facts)
    requires Inv(s) && Enabled(s, Advance(now)) && OnStart(s0, s, p, f)
    ensures OnStart(s0, Advanced(s, now), p, Noted(f, s, Advance(now)))
  {
  }

  /** Of the task loop's own steps, only the definition, the removal and the recording of a
      start do more to a record than clear it. */
  lemma ControlKeepsRecords(s: State, now: int, q: string)
    requires Inv(s) && Enabled(s, Advance(now)) && !s.pc.Replace? && !s.pc.Remove? && !s.pc.Record?
    ensures q in Advanced(s, now).processes <==> q in s.processes
    ensures q in s.processes ==>
              && Advanced(s, now).processes[q].definitionHash == s.processes[q].definitionHash
              && (s.processes[q].pid == 0 ==> Advanced(s, now).processes[q].pid == 0)
    ensures Advanced(s, now).lastStart == s.lastStart
  {
  }

  /** A stop and its inspection lead to their continuation ... */
  lemma StopLeadsOn(s: State, now: int, p: string, after: After)
    requires Enabled(s, Advance(now)) && InStop(s.pc, p, after)
    ensures InStop(Advanced(s, now).pc, p, after) || exists running ::
            Advanced(s, now).pc == Continue(after, p, running)
  {
    assert Continue(after, p, false) == Continue(after, p, false);
    assert s.pc.InspectCheck? && Supervisor.Running(s, s.pc.rec) ==> Advanced(s, now).pc == Continue(after, p, true);
    assert !(s.pc.InspectCheck? && Supervisor.Running(s, s.pc.rec)) && !InStop(Advanced(s, now).pc, p, after) ==>
             Advanced(s, now).pc == Continue(after, p, false);
  }

  /** ... and once the stop has cleared the record, or the inspection found it dead, its PID is 0. */
  lemma StopClears(s: State, now: int, p: string, after: After)
    requires Inv(s) && Enabled(s, Advance(now)) && InStop(s.pc, p, after) && p in s.processes
    requires InInspect(s.pc, p, after) ==> s.processes[p].pid == 0
    ensures InInspect(Advanced(s, now).pc, p, after) ==>
              p in Advanced(s, now).processes && Advanced(s, now).processes[p].pid == 0
  {
  }

  lemma RestartStaysOnTrack(s0: State, s: State, now: int, p: string, f: Facts)
    requires Inv(s) && Enabled(s, Advance(now)) && OnRestart(s0, s, p, f)
    ensures OnRestart(s0, Advanced(s, now), p, Noted(f, s, Advance(now)))
  {
    if InStop(s.pc, p, ThenStart) {
      ControlKeepsRecords(s, now, p);
      StopLeadsOn(s, now, p, ThenStart);
    } else {
      StartStaysOnTrack(s0, s, now, p, f);
    }
  }

  lemma DeleteStaysOnTrack(s: State, now: int, p: string, f: Facts)
    requires Enabled(s, Advance(now)) && OnDelete(s, p, f)
    ensures OnDelete(Advanced(s, now), p, Noted(f, s, Advance(now)))
  {
    if InStop(s.pc, p, ThenRemove) {
      StopLeadsOn(s, now, p, ThenRemove);
    }
  }

  lemma PlainStopStaysOnTrack(s0: State, s: State, now: int, p: string, f: Facts)
    requires Inv(s) && Enabled(s, Advance(now)) && OnStop(s0, s, p, f)
    ensures OnStop(s0, Advanced(s, now), p, Noted(f, s, Advance(now)))
  {
    ControlKeepsRecords(s, now, p);
    StopLeadsOn(s, now, p, Return);
    if p in s.processes {
      StopClears(s, now, p, Return);
    }
  }

  lemma InspectStaysOnTrack(s0: State, s: State, now: int, p: string, f: Facts)
    requires Inv(s) && Enabled(s, Advance(now)) && OnInspect(s0, s, p, f)
    ensures OnInspect(s0, Advanced(s, now), p, Noted(f, s, Advance(now)))
  {
    ControlKeepsRecords(s, now, p);
    StopLeadsOn(s, now, p, Return);
  }

  lemma LookingLeadsOn(s0: State, s: State, now: int, p: string, hash: string, auto: bool, f: Facts)
    requires Inv(s) && Enabled(s, Advance(now)) && Looking(s0, s, p, hash, auto, f)
    ensures OnCreate(s0, Advanced(s, now), p, hash, auto, Noted(f, s, Advance(now)))
  {
  }

  lemma RedefiningLeadsOn(s0: State, s: State, now: int, p: string, hash: string, auto: bool, f: Facts)
    requires Inv(s) && Enabled(s, Advance(now)) && Redefining(s0, s, p, hash, auto, f)
    ensures OnCreate(s0, Advanced(s, now), p, hash, auto, Noted(f, s, Advance(now)))
  {
    if InStop(s.pc, p, ThenReplace(hash, true)) {
      StopLeadsOn(s, now, p, ThenReplace(hash, true));
    }
  }

  lemma CheckingLeadsOn(s0: State, s: State, now: int, p: string, hash: string, auto: bool, f: Facts)
    requires Inv(s) && Enabled(s, Advance(now)) && Checking(s0, s, p, hash, auto, f)
    ensures OnCreate(s0, Advanced(s, now), p, hash, auto, Noted(f, s, Advance(now)))
  {
    ControlKeepsRecords(s, now, p);
  }

  lemma StartsLeadOn(s0: State, s: State, now: int, p: string, hash: string, auto: bool, f: Facts)
    requires Inv(s) && Enabled(s, Advance(now)) && CreateStarts(s0, s, p, hash, auto, f)
    ensures OnCreate(s0, Advanced(s, now), p, hash, auto, Noted(f, s, Advance(now)))
  {
    StartStaysOnTrack(s0, s, now, p, f);
    assert HasHash(Advanced(s, now), p, hash);
  }

  lemma EndingLeadsOn(s0: State, s: State, now: int, p: string, hash: string, auto: bool, f: Facts)
    requires Inv(s) && Enabled(s, Advance(now)) && Ending(s0, s, p, hash, auto, f)
    ensures OnCreate(s0, Advanced(s, now), p, hash, auto, Noted(f, s, Advance(now)))
  {
    ControlKeepsRecords(s, now, p);
  }

  lemma CreateStaysOnTrack(s0: State, s: State, now: int, p: string, hash: string, auto: bool, f: Facts)
    requires Inv(s) && Enabled(s, Advance(now)) && OnCreate(s0, s, p, hash, auto, f)
    ensures OnCreate(s0, Advanced(s, now), p, hash, auto, Noted(f, s, Advance(now)))
  {
    if Looking(s0, s, p, hash, auto, f) {
      LookingLeadsOn(s0, s, now, p, hash, auto, f);
    } else if Redefining(s0, s, p, hash, auto, f) {
      RedefiningLeadsOn(s0, s, now, p, hash, auto, f);
    } else if Checking(s0, s, p, hash, auto, f) {
      CheckingLeadsOn(s0, s, now, p, hash, auto, f);
    } else if CreateStarts(s0, s, p, hash, auto, f) {
      StartsLeadOn(s0, s, now, p, hash, auto, f);
    } else {
      EndingLeadsOn(s0, s, now, p, hash, auto, f);
    }
  }

  lemma AdvanceStaysOnTrack(task: Pc, s0: State, s: State, now: int, f: Facts)
    requires Inv(s) && Enabled(s, Advance(now)) && OnTrack(task, s0, s, f)
    ensures OnTrack(task, s0, Advanced(s, now), Noted(f, s, Advance(now)))
  {
    match task
    case CreateLoad(p, hash, auto) => CreateStaysOnTrack(s0, s, now, p, hash, auto, f);
    case StartLoad(p) => StartStaysOnTrack(s0, s, now, p, f);
    case StopLoad(p, after) =>
      if after == ThenStart {
        RestartStaysOnTrack(s0, s, now, p, f);
      } else if after == ThenRemove {
        DeleteStaysOnTrack(s, now, p, f);
      } else {
        PlainStopStaysOnTrack(s0, s, now, p, f);
      }
    case InspectLoad(p, _) => InspectStaysOnTrack(s0, s, now, p, f);
  }

  /** `t` is what a step that neither advances nor launches makes of `s`. */
  predicate Calm(s: State, t: State, p: string) {
    && (t.pc == s.pc || (s.pc.StopPoll? && t.pc == StopClear(s.pc.p, true, s.pc.after)))
    && (p in t.processes <==> p in s.processes) && t.lastStart == s.lastStart
    && (p in s.processes ==>
          && t.processes[p].definitionHash == s.processes[p].definitionHash
          && (s.processes[p].pid == 0 ==> t.processes[p].pid == 0))
  }

  lemma OthersAreCalm(s: State, step: Step, p: string, f: Facts)
    requires Inv(s) && Enabled(s, step) && Undisturbed(step) && !step.Advance? && !step.Launch? && !s.pc.Idle?
    ensures Calm(s, Apply(s, step), p) && Noted(f, s, step) == f
  {
    OthersKeepRecords(s, step, p);
    OthersKeepPc(s, step);
  }

  lemma CalmKeepsCreate(s0: State, s: State, t: State, p: string, hash: string, auto: bool, f: Facts)
    requires Calm(s, t, p) && OnCreate(s0, s, p, hash, auto, f)
    ensures OnCreate(s0, t, p, hash, auto, f)
  {
    if Looking(s0, s, p, hash, auto, f) {
      assert Looking(s0, t, p, hash, auto, f);
    } else if Redefining(s0, s, p, hash, auto, f) {
      assert Redefining(s0, t, p, hash, auto, f);
    } else if Checking(s0, s, p, hash, auto, f) {
      assert Checking(s0, t, p, hash, auto, f);
    } else if CreateStarts(s0, s, p, hash, auto, f) {
      assert CreateStarts(s0, t, p, hash, auto, f);
    } else {
      assert Ending(s0, t, p, hash, auto, f);
    }
  }

  lemma CalmStaysOnTrack(task: Pc, s0: State, s: State, t: State, f: Facts)
    requires OnTrack(task, s0, s, f) && Calm(s, t, task.p)
    ensures OnTrack(task, s0, t, f)
  {
    if task.CreateLoad? {
      CalmKeepsCreate(s0, s, t, task.p, task.hash, task.auto, f);
    }
  }

  lemma LaunchStaysOnTrack(task: Pc, s0: State, s: State, i: Incarnation, f: Facts)
    requires Inv(s) && Enabled(s, Launch(i)) && OnTrack(task, s0, s, f) && s0.children.Keys <= s.children.Keys
    ensures OnTrack(task, s0, Apply(s, Launch(i)), Noted(f, s, Launch(i)))
  {
    if task.CreateLoad? {
      assert CreateStarts(s0, Apply(s, Launch(i)), task.p, task.hash, task.auto, Noted(f, s, Launch(i)));
    }
  }

  lemma StaysOnTrack(task: Pc, s0: State, s: State, step: Step, f: Facts)
    requires Inv(s) && Enabled(s, step) && Undisturbed(step) && !s.pc.Idle?
    requires OnTrack(task, s0, s, f) && s0.children.Keys <= s.children.Keys
    ensures OnTrack(task, s0, Apply(s, step), Noted(f, s, step)) && s0.children.Keys <= Apply(s, step).children.Keys
  {
    if step.Advance? {
      AdvanceStaysOnTrack(task, s0, s, step.now, f);
    } else if step.Launch? {
      LaunchStaysOnTrack(task, s0, s, step.i, f);
    } else {
      OthersAreCalm(s, step, task.p, f);
      CalmStaysOnTrack(task, s0, s, Apply(s, step), f);
    }
  }

  /** A task that is followed to its end is on its track all the way. */
  lemma {:induction false} EndsOnTrack(task: Pc, s0: State, s: State, steps: seq<Step>, f: Facts)
    requires Inv(s) && Finishes(s, steps)
    requires OnTrack(task, s0, s, f) && s0.children.Keys <= s.children.Keys
    ensures Run(s, steps).Some? && Run(s, steps).value.pc.Idle?
    ensures OnTrack(task, s0, Run(s, steps).value, FactsOf(f, s, steps))
    decreases |steps|
  {
    if steps != [] {
      StepKeepsInv(s, steps[0]);
      StaysOnTrack(task, s0, s, steps[0], f);
      EndsOnTrack(task, s0, Apply(s, steps[0]), steps[1..], Noted(f, s, steps[0]));
    }
  }

  // ---- What each task has done -----------------------------------------------------------

  /** The task `task`, taken up in the reachable idle state `s`, runs to its end. */
  ghost predicate Performs(s: State, task: Pc, steps: seq<Step>) {
    Reachable(s) && Enabled(s, Begin(task)) && Finishes(Apply(s, Begin(task)), steps)
  }

  ghost function After(s: State, task: Pc, steps: seq<Step>): State
    requires Performs(s, task, steps)
  {
    var end := Run(Apply(s, Begin(task)), steps);
    if end.Some? then end.value else s
  }

  ghost function FactsAfter(s: State, task: Pc, steps: seq<Step>): Facts
    requires Performs(s, task, steps)
  {
    FactsOf(NOTHING_YET, Apply(s, Begin(task)), steps)
  }

  lemma TaskEndsOnTrack(s: State, task: Pc, steps: seq<Step>)
    requires Performs(s, task, steps)
    requires OnTrack(task, s, Apply(s, Begin(task)), NOTHING_YET)
    ensures Run(Apply(s, Begin(task)), steps) == Some(After(s, task, steps)) && After(s, task, steps).pc.Idle?
    ensures OnTrack(task, s, After(s, task, steps), FactsAfter(s, task, steps))
  {
    ReachableInv(s);
    StepKeepsInv(s, Begin(task));
    EndsOnTrack(task, s, Apply(s, Begin(task)), steps, NOTHING_YET);
  }

  /** After a create the record has the definition asked for, and it was written exactly when it
      was another one before. The process was launched only if a start was asked for or it ran
      under another definition; and then it was launched, unless it was found running. */
  lemma CreateSettles(s: State, steps: seq<Step>, p: string, hash: string, auto: bool)
    requires Performs(s, CreateLoad(p, hash, auto), steps)
    ensures var end := After(s, CreateLoad(p, hash, auto), steps);
            var f := FactsAfter(s, CreateLoad(p, hash, auto), steps);
            && end.pc.Idle? && p in end.processes && end.processes[p].definitionHash == hash
            && (f.defined <==> !(p in s.processes && s.processes[p].definitionHash == hash))
            && (f.launched ==> (auto || f.ran) && p in end.lastStart && end.lastStart[p] !in s.children)
            && (auto || f.ran ==> f.launched || f.found || (f.seen && !f.defined))
  {
    TaskEndsOnTrack(s, CreateLoad(p, hash, auto), steps);
  }

  /** After a start of a defined process, it was launched and recorded, or found running. */
  lemma StartSettles(s: State, steps: seq<Step>, p: string)
    requires Performs(s, StartLoad(p), steps) && p in s.processes
    ensures var end, f := After(s, StartLoad(p), steps), FactsAfter(s, StartLoad(p), steps);
            && end.pc.Idle? && p in end.processes && (f.launched || f.found)
            && (f.launched ==> p in end.lastStart && end.lastStart[p] !in s.children)
  {
    TaskEndsOnTrack(s, StartLoad(p), steps);
  }

  /** The same after a restart, where it is the start that follows the stop that looks. */
  lemma RestartSettles(s: State, steps: seq<Step>, p: string)
    requires Performs(s, StopLoad(p, ThenStart), steps) && p in s.processes
    ensures var end, f := After(s, StopLoad(p, ThenStart), steps), FactsAfter(s, StopLoad(p, ThenStart), steps);
            && end.pc.Idle? && p in end.processes && (f.launched || f.found)
            && (f.launched ==> p in end.lastStart && end.lastStart[p] !in s.children)
  {
    TaskEndsOnTrack(s, StopLoad(p, ThenStart), steps);
  }

  /** After a delete there is no record, and nothing was launched. */
  lemma DeleteSettles(s: State, steps: seq<Step>, p: string)
    requires Performs(s, StopLoad(p, ThenRemove), steps)
    ensures var end := After(s, StopLoad(p, ThenRemove), steps);
            end.pc.Idle? && p !in end.processes && !FactsAfter(s, StopLoad(p, ThenRemove), steps).launched
  {
    TaskEndsOnTrack(s, StopLoad(p, ThenRemove), steps);
  }

  /** After a stop the record, if there is one, has no PID; nothing was launched or defined. */
  lemma StopSettles(s: State, steps: seq<Step>, p: string)
    requires Performs(s, StopLoad(p, Return), steps)
    ensures var end, f := After(s, StopLoad(p, Return), steps), FactsAfter(s, StopLoad(p, Return), steps);
            && end.pc.Idle? && (p in end.processes <==> p in s.processes) && !f.launched && !f.defined
            && (p in end.processes ==> end.processes[p].pid == 0)
  {
    TaskEndsOnTrack(s, StopLoad(p, Return), steps);
  }

  /** After an inspection that did not see the process running, the record has no PID. */
  lemma InspectSettles(s: State, steps: seq<Step>, p: string)
    requires Performs(s, InspectLoad(p, Return), steps)
    ensures var end, f := After(s, InspectLoad(p, Return), steps), FactsAfter(s, InspectLoad(p, Return), steps);
            && end.pc.Idle? && (p in end.processes <==> p in s.processes) && !f.launched && !f.defined
            && (p in end.processes ==> f.seen || end.processes[p].pid == 0)
  {
    TaskEndsOnTrack(s, InspectLoad(p, Return), steps);
  }

  // ---- What stays ------------------------------------------------------------------------

  /** A record's definition changes only where create writes one, records appear only there, and
      they disappear only where delete removes one. */
  lemma DefinitionsChangeOnlyByCreate(s: State, step: Step, q: string)
    requires Reachable(s) && Enabled(s, step)
    ensures var s' := Apply(s, step);
            && (q in s'.processes &&
                !(q in s.processes && s'.processes[q].definitionHash == s.processes[q].definitionHash) ==>
                  step.Advance? && s.pc.Replace? && s.pc.p == q && s'.processes[q].definitionHash == s.pc.hash)
            && (q in s.processes && q !in s'.processes ==> step.Advance? && s.pc.Remove? && s.pc.p == q)
  {
    ReachableInv(s);
    if !step.Advance? {
      OthersKeepRecords(s, step, q);
    } else if !s.pc.Replace? && !s.pc.Remove? && !s.pc.Record? {
      ControlKeepsRecords(s, step.now, q);
    }
  }

  /** Same definition, same start, and an exit code once recorded is still there. */
  predicate Kept(before: ProcessRecord, after: ProcessRecord) {
    && after.definitionHash == before.definitionHash && after.startedAt == before.startedAt
    && (before.lastExitCode.Some? ==> after.lastExitCode == before.lastExitCode)
  }

  lemma WaitKeepsRecord(s: State, i: Incarnation, now: int, wrote: bool, p: string)
    requires Inv(s) && Enabled(s, WaiterUpdate(i, now, wrote)) && p in s.processes
    ensures p in Apply(s, WaiterUpdate(i, now, wrote)).processes
    ensures Kept(s.processes[p], Apply(s, WaiterUpdate(i, now, wrote)).processes[p])
  {
    assert ProcessOK(s, p) && ChildOK(s, i);
  }

  lemma ControlKeepsRecord(s: State, now: int, p: string)
    requires Enabled(s, Advance(now)) && !s.pc.Replace? && !s.pc.Record?
    requires p in s.processes && p in Advanced(s, now).processes
    ensures Kept(s.processes[p], Advanced(s, now).processes[p])
  {
  }

  lemma StepKeepsRecord(s: State, step: Step, p: string)
    requires Inv(s) && Enabled(s, step) && p in s.processes && p in Apply(s, step).processes
    requires !(step.Advance? && (s.pc.Replace? || s.pc.Record?))
    ensures Kept(s.processes[p], Apply(s, step).processes[p])
  {
    if step.Advance? {
      ControlKeepsRecord(s, step.now, p);
    } else if step.WaiterUpdate? {
      WaitKeepsRecord(s, step.i, step.now, step.wrote, p);
    } else {
      OtherRecordsStay(s, step);
    }
  }

  /** The record is as it was, unless it is gone, redefined or started anew. */
  predicate KeptSoFar(before: ProcessRecord, s: State, p: string, f: Facts) {
    f.launched || f.defined || p !in s.processes || Kept(before, s.processes[p])
  }

  lemma RecordingMeansLaunched(task: Pc, s0: State, s: State, f: Facts)
    requires OnTrack(task, s0, s, f) && s.pc.Record?
    ensures f.launched
  {
  }

  lemma StepKeepsSoFar(task: Pc, s0: State, s: State, step: Step, f: Facts, p: string, before: ProcessRecord)
    requires Reachable(s) && Enabled(s, step) && OnTrack(task, s0, s, f) && KeptSoFar(before, s, p, f)
    ensures KeptSoFar(before, Apply(s, step), p, Noted(f, s, step))
  {
    ReachableInv(s);
    if step.Advance? && s.pc.Record? {
      RecordingMeansLaunched(task, s0, s, f);
    } else if p in s.processes && p in Apply(s, step).processes && !(step.Advance? && s.pc.Replace?) {
      StepKeepsRecord(s, step, p);
    } else {
      DefinitionsChangeOnlyByCreate(s, step, p);
    }
  }

  lemma {:induction false} TaskKeepsSoFar(task: Pc, s0: State, s: State, steps: seq<Step>, f: Facts, p: string,
                                          before: ProcessRecord)
    requires Reachable(s) && Finishes(s, steps) && OnTrack(task, s0, s, f) && s0.children.Keys <= s.children.Keys
    requires KeptSoFar(before, s, p, f) && Run(s, steps).Some?
    ensures KeptSoFar(before, Run(s, steps).value, p, FactsOf(f, s, steps))
    decreases |steps|
  {
    if steps != [] {
      ReachableInv(s);
      StepKeepsSoFar(task, s0, s, steps[0], f, p, before);
      StaysOnTrack(task, s0, s, steps[0], f);
      var next := SupervisorDoubling.Extend(s, steps[0]);
      TaskKeepsSoFar(task, s0, next, steps[1..], Noted(f, s, steps[0]), p, before);
    }
  }

  /** Any task that neither defines nor launches leaves every record's definition, start time and
      recorded exit code alone; of its own process, delete takes the record away. */
  lemma TasksKeepRecords(s: State, task: Pc, steps: seq<Step>, p: string)
    requires Performs(s, task, steps) && OnTrack(task, s, Apply(s, Begin(task)), NOTHING_YET) && p in s.processes
    requires !FactsAfter(s, task, steps).launched && !FactsAfter(s, task, steps).defined
    ensures p in After(s, task, steps).processes ==> Kept(s.processes[p], After(s, task, steps).processes[p])
  {
    TaskEndsOnTrack(s, task, steps);
    var begun := SupervisorDoubling.Extend(s, Begin(task));
    TaskKeepsSoFar(task, s, begun, steps, NOTHING_YET, p, s.processes[p]);
  }

  /** A create with the definition that is already there leaves it, and the exit code of the last
      run, alone, unless it was asked to start the process and did. */
  lemma CreateKeepsItsOwn(s: State, steps: seq<Step>, p: string, auto: bool)
    requires p in s.processes && Performs(s, CreateLoad(p, s.processes[p].definitionHash, auto), steps)
    ensures var task := CreateLoad(p, s.processes[p].definitionHash, auto);
            var end, f := After(s, task, steps), FactsAfter(s, task, steps);
            && p in end.processes && !f.defined && (f.launched ==> auto)
            && (!f.launched ==> Kept(s.processes[p], end.processes[p]))
  {
    var task := CreateLoad(p, s.processes[p].definitionHash, auto);
    CreateSettles(s, steps, p, s.processes[p].definitionHash, auto);
    TaskEndsOnTrack(s, task, steps);
    if !FactsAfter(s, task, steps).launched {
      TasksKeepRecords(s, task, steps, p);
    }
  }

  /** So do a stop and an inspection. */
  lemma StopKeepsRecord(s: State, steps: seq<Step>, p: string)
    requires Performs(s, StopLoad(p, Return), steps) && p in s.processes
    ensures p in After(s, StopLoad(p, Return), steps).processes
    ensures Kept(s.processes[p], After(s, StopLoad(p, Return), steps).processes[p])
  {
    StopSettles(s, steps, p);
    TasksKeepRecords(s, StopLoad(p, Return), steps, p);
  }

  lemma InspectKeepsRecord(s: State, steps: seq<Step>, p: string)
    requires Performs(s, InspectLoad(p, Return), steps) && p in s.processes
    ensures p in After(s, InspectLoad(p, Return), steps).processes
    ensures Kept(s.processes[p], After(s, InspectLoad(p, Return), steps).processes[p])
  {
    InspectSettles(s, steps, p);
    TasksKeepRecords(s, InspectLoad(p, Return), steps, p);
  }
}
