/** What the supervisor guarantees in every run. */
module SupervisorSafety {
  import opened Basics
  import opened WorkerState
  import opened Supervisor
  import opened SupervisorInvariant

  /** The fields of a record agree about whether it names an incarnation. */
  lemma RecordsAreCoherent(s: State, p: string)
    requires Reachable(s) && p in s.processes
    ensures var rec := s.processes[p];
            && (rec.status.Running? <==> rec.pid != 0)
            && (rec.status.Running? <==> rec.marker != "")
            && (rec.status.Created? ==> rec.startedAt == 0 && rec.lastExitCode == None)
  {
    ReachableInv(s);
    assert ProcessOK(s, p);
  }

  /** In every reachable state, with every interleaving of tasks, waiters, exits and
      crashes: a process has at most one live incarnation that the agent did not let go
      of, and between tasks it is the one its record names. */
  lemma AtMostOneLive(s: State, i: Incarnation, j: Incarnation)
    requires Reachable(s)
    requires Live(s, i) && i !in s.stray && Live(s, j) && j !in s.stray
    requires s.children[i].owner == s.children[j].owner
    ensures i == j
    ensures InFlight(s.pc, i) || (s.children[i].owner in s.processes && Names(s.processes[s.children[i].owner], i))
  {
    ReachableInv(s);
    assert Accounted(s, i) && Accounted(s, j) && ChildOK(s, i) && ChildOK(s, j);
  }

  /** The two ways in which the agent lets go of a live child: stop gives up on a child
      that survived SIGKILL past the deadline, or the agent dies between the launch of a
      child and the update that records it. */
  predicate LetsGo(s: State, step: Step, i: Incarnation) {
    || (step.Advance? && s.pc.StopClear? && s.pc.gaveUp && Live(s, i) && s.pc.p in s.processes &&
        Names(s.processes[s.pc.p], i))
    || (step.Crash? && InFlight(s.pc, i) && Live(s, i))
  }

  /** Exactly those steps make a child stray, in every reachable state. In particular
      replacing or deleting a record and inspect's unguarded clear never do. */
  lemma StraysComeFromLettingGo(s: State, step: Step, i: Incarnation)
    requires Reachable(s) && Enabled(s, step)
    ensures i in Apply(s, step).stray <==> i in s.stray || LetsGo(s, step, i)
  {
    ReachableInv(s);
    if s.pc.StopClear? && s.pc.p in s.processes {
      assert ProcessOK(s, s.pc.p);
    }
    if i in s.children {
      assert ChildOK(s, i);
    }
  }

  /** When stop clears a record without having given up, nothing of the process that the
      agent knows of runs any more. */
  lemma StopEndsTheChild(s: State, i: Incarnation)
    requires Reachable(s) && s.pc.StopClear? && !s.pc.gaveUp
    requires Live(s, i) && s.children[i].owner == s.pc.p
    ensures i in s.stray
  {
    ReachableInv(s);
    assert ChildOK(s, i);
    StraysComeFromLettingGo(s, Advance(s.clock), i);
    if i !in s.stray {
      AtMostOneLive(s, i, i);
    }
  }

  /** Inspect's clearing update does not check what it overwrites; it still never takes
      a live incarnation's PID away, and it never creates a record. */
  lemma InspectClearIsHarmless(s: State, now: int)
    requires Reachable(s) && s.pc.InspectClear? && Enabled(s, Advance(now))
    ensures var s' := Apply(s, Advance(now));
            && s'.processes.Keys == s.processes.Keys
            && forall i :: Live(s, i) ==> !Names(s.processes[s.pc.p], i)
  {
    ReachableInv(s);
    forall i | Live(s, i) ensures !Names(s.processes[s.pc.p], i) {
      assert ChildOK(s, i);
    }
  }

  /** A waiter, however late, touches no record but the one its own incarnation was the
      last to be started from, and it neither creates nor removes records. */
  lemma WaiterTouchesOnlyItsOwn(s: State, i: Incarnation, now: int, wrote: bool, p: string)
    requires Reachable(s) && Enabled(s, WaiterUpdate(i, now, wrote))
    ensures var s' := Apply(s, WaiterUpdate(i, now, wrote));
            && (p in s'.processes <==> p in s.processes)
            && (p in s.processes && s'.processes[p] != s.processes[p] ==>
                p == s.children[i].owner && p in s.lastStart && s.lastStart[p] == i)
  {
    ReachableInv(s);
    if s.children[i].owner in s.processes {
      GuardIsExact(s, i);
    }
  }

  /** Two outstanding waiters, even of different processes, never share a start time. */
  ghost predicate StartTimesDiffer(s: State) {
    forall i, j | i in s.children && j in s.children && i != j && Outstanding(s.children[i]) &&
      Outstanding(s.children[j])
      :: s.children[i].startedAt != s.children[j].startedAt
  }

  /** A child that is being recorded starts later than every other outstanding one did. */
  lemma RecordKeepsStartTimesApart(s: State, now: int, i: Incarnation, j: Incarnation)
    requires Inv(s) && s.pc.Record? && CanAdvance(s) && StartTimesDiffer(s) && i != j
    requires var cs := Advanced(s, now).children; i in cs && j in cs && Outstanding(cs[i]) && Outstanding(cs[j])
    ensures Advanced(s, now).children[i].startedAt != Advanced(s, now).children[j].startedAt
  {
    assert ClockOK(s, i) && ClockOK(s, j);
  }

  /** No other step changes the start time of a child whose waiter is outstanding. */
  lemma OtherStepsKeepStartTimes(s: State, step: Step, i: Incarnation)
    requires Enabled(s, step) && !(step.Advance? && s.pc.Record?)
    requires i in Apply(s, step).children && Outstanding(Apply(s, step).children[i])
    ensures i in s.children && Outstanding(s.children[i])
    ensures Apply(s, step).children[i].startedAt == s.children[i].startedAt
  {
  }

  lemma StepKeepsStartTimesApart(s: State, step: Step)
    requires Inv(s) && Enabled(s, step) && StartTimesDiffer(s)
    ensures StartTimesDiffer(Apply(s, step))
  {
    var cs := Apply(s, step).children;
    forall i, j | i in cs && j in cs && i != j && Outstanding(cs[i]) && Outstanding(cs[j])
      ensures cs[i].startedAt != cs[j].startedAt
    {
      if step.Advance? && s.pc.Record? {
        RecordKeepsStartTimesApart(s, step.now, i, j);
      } else {
        OtherStepsKeepStartTimes(s, step, i);
        OtherStepsKeepStartTimes(s, step, j);
      }
    }
  }

  lemma {:induction false} RunKeepsStartTimesApart(s: State, steps: seq<Step>)
    requires Inv(s) && StartTimesDiffer(s) && Run(s, steps).Some?
    ensures StartTimesDiffer(Run(s, steps).value)
    decreases |steps|
  {
    if steps != [] {
      StepKeepsInv(s, steps[0]);
      StepKeepsStartTimesApart(s, steps[0]);
      RunKeepsStartTimesApart(Apply(s, steps[0]), steps[1..]);
    }
  }

  lemma OutstandingStartTimesDiffer(s: State)
    requires Reachable(s)
    ensures StartTimesDiffer(s)
  {
    var start, steps :| IsInitial(start) && Run(start, steps) == Some(s);
    InitialInv(start);
    RunKeepsStartTimesApart(start, steps);
  }

  /** While the record still stands for incarnation `i`: once `i`'s waiter has written
      its update, the record is stopped with `i`'s exit code, whatever stops, inspects and
      other updates ran before or after it. */
  lemma ExitCodeIsRecorded(s: State, p: string)
    requires Reachable(s) && p in s.lastStart
    ensures p in s.processes && s.lastStart[p] in s.children
    ensures var rec := s.processes[p];
            var c := s.children[s.lastStart[p]];
            c.waiter == Updated(true) || c.waiter == Done(true) ==>
              rec.status.Stopped? && rec.pid == 0 && rec.marker == "" && rec.startedAt == c.startedAt &&
                rec.lastExitCode == Some(c.code)
  {
    ReachableInv(s);
    assert ProcessOK(s, p);
  }

  /** ... and no interleaving makes that update miss its record. */
  lemma WaiterUpdateApplies(s: State, i: Incarnation, now: int)
    requires Reachable(s) && Enabled(s, WaiterUpdate(i, now, true))
    requires var p := s.children[i].owner; p in s.lastStart && s.lastStart[p] == i
    ensures var p := s.children[i].owner;
            p in s.processes && Apply(s, WaiterUpdate(i, now, true)).processes ==
            s.processes[p := Exited(s.processes[p], s.children[i].code, now)]
  {
    ReachableInv(s);
    GuardIsExact(s, i);
  }

  /** `i`'s waiter has written its update, and the record still stands for `i`. */
  predicate Settled(s: State, p: string, i: Incarnation) {
    && p in s.lastStart && s.lastStart[p] == i && i in s.children
    && (s.children[i].waiter == Updated(true) || s.children[i].waiter == Done(true))
  }

  predicate HoldsExitCode(s: State, p: string, i: Incarnation, code: int) {
    p in s.processes && p in s.lastStart && s.lastStart[p] == i && s.processes[p].lastExitCode == Some(code)
  }

  predicate TakesOver(s: State, step: Step, p: string) {
    step.Advance? && (s.pc.Record? || s.pc.Replace? || s.pc.Remove?) && s.pc.p == p
  }

  /** Nothing but a newer start, a redefinition or a deletion takes the exit code away. */
  lemma ExitCodeStays(s: State, step: Step, p: string, i: Incarnation)
    requires Reachable(s) && Enabled(s, step) && Settled(s, p, i)
    ensures HoldsExitCode(Apply(s, step), p, i, s.children[i].code) || TakesOver(s, step, p)
  {
    ExitCodeIsRecorded(s, p);
    if step.Advance? {
      AdvanceKeepsExitCode(s, step.now, p, i);
    } else if step.WaiterUpdate? && s.children[step.i].owner in s.processes {
      ReachableInv(s);
      GuardIsExact(s, step.i);
    }
  }

  lemma AdvanceKeepsExitCode(s: State, now: int, p: string, i: Incarnation)
    requires Settled(s, p, i) && CanAdvance(s) && HoldsExitCode(s, p, i, s.children[i].code)
    ensures HoldsExitCode(Advanced(s, now), p, i, s.children[i].code) || TakesOver(s, Advance(now), p)
  {
  }
}
