/**
 Claiming, executing, caching and acknowledging tasks, as a step system.

 The server hands out claims as it likes, refuses or loses any request, and may take a
 lease away at any time; the agent may crash between any two steps and keeps only the
 outcome store. Tasks run one at a time.
 */
module TaskLease {
  import opened Basics
  import opened TaskResults

  /** How the execution of a task ended. */
  datatype Ran = Succeeded(result: string) | Errored(result: string, error: string, retryable: bool)

  datatype Ack =
    | Complete(task: string, lease: string, result: string)
    | Fail(task: string, lease: string, result: string, error: string, retryable: bool, delay: int)

  datatype Response = Accepted | Refused(code: int) | NoAnswer

  datatype Pc =
    | Idle
    | Lookup(task: string, lease: string)
    | Drop(task: string, lease: string)                                // remove the retryable failure
    | Dispatch(task: string, lease: string)
    | Executing(task: string, lease: string, lost: bool)
    | Check(task: string, lease: string, lost: bool, ran: Ran)         // executed; is the lease still ours?
    | Persist(task: string, lease: string, outcome: Outcome)
    | Acknowledge(task: string, lease: string, outcome: Outcome, executed: bool)
    | Await(task: string, lease: string, outcome: Outcome, executed: bool)
    | Forget(task: string)                                             // best-effort removal, then done

  /** `dispatched` and `sent` are the histories of executions and acknowledgements. */
  datatype State = State(now: int64, store: Outcomes, dispatched: seq<string>, sent: seq<Ack>, pc: Pc)

  datatype Step =
    | Claim(task: string, lease: string)
    | Advance
    | Return(ran: Ran)              // the execution ends
    | LoseLease                     // a heartbeat is answered 404 or 409
    | Put(after: Outcomes)          // the store as pruning leaves it
    | Reply(response: Response)     // to the acknowledgement
    | StoreError
    | Crash
    | Tick(later: int64)

  predicate MustRunAgain(o: Outcome) {
    o.status == "failed" && o.retryable
  }

  predicate DefinitelyLost(r: Response) {
    r.Refused? && (r.code == 404 || r.code == 409)
  }

  /** Whether an outcome is to be removed once its acknowledgement is answered. */
  predicate Forgets(o: Outcome, executed: bool, r: Response) {
    if r.Accepted? then executed && MustRunAgain(o) else DefinitelyLost(r) && o.status == "failed"
  }

  function OutcomeOf(ran: Ran, now: int64): Outcome {
    match ran
    case Succeeded(result) => Outcome("completed", result, "", false, now)
    case Errored(result, error, retryable) => Outcome("failed", result, error, retryable, now)
  }

  function AckFor(task: string, lease: string, o: Outcome): Ack {
    if o.status == "completed" then Complete(task, lease, o.result)
    else Fail(task, lease, o.result, o.errorMessage, o.retryable, if o.retryable then 5 else 0)
  }

  predicate CanAdvance(pc: Pc) {
    pc.Lookup? || pc.Drop? || pc.Dispatch? || pc.Check? || pc.Acknowledge? || pc.Forget?
  }

  function Advanced(s: State): State
    requires CanAdvance(s.pc)
  {
    match s.pc
    case Lookup(t, lease) =>
      s.(pc := if t !in s.store then Dispatch(t, lease)
      else if MustRunAgain(s.store[t]) then Drop(t, lease)
      else Acknowledge(t, lease, s.store[t], false))
    case Drop(t, lease) => s.(store := s.store - {t}, pc := Dispatch(t, lease))
    case Dispatch(t, lease) => s.(dispatched := s.dispatched + [t], pc := Executing(t, lease, false))
    case Check(t, lease, lost, ran) => s.(pc := if lost then Idle else Persist(t, lease, OutcomeOf(ran, s.now)))
    case Acknowledge(t, lease, o, executed) =>
      s.(sent := s.sent + [AckFor(t, lease, o)], pc := Await(t, lease, o, executed))
    case Forget(t) => s.(store := s.store - {t}, pc := Idle)
  }

  function Answered(s: State, r: Response): State
    requires s.pc.Await?
  {
    s.(pc := if Forgets(s.pc.outcome, s.pc.executed, r) then Forget(s.pc.task) else Idle)
  }

  ghost predicate Enabled(s: State, step: Step) {
    match step
    case Claim(t, lease) => s.pc.Idle? && t != "" && lease != ""
    case Advance => CanAdvance(s.pc)
    case Return(_) => s.pc.Executing?
    case LoseLease => s.pc.Executing? || s.pc.Check?
    case Put(after) => s.pc.Persist? && Pruned(s.store[s.pc.task := s.pc.outcome], s.now - RETENTION, after)
    case Reply(_) => s.pc.Await?
    case StoreError => s.pc.Lookup? || s.pc.Drop? || s.pc.Persist? || s.pc.Forget?
    case Crash => true
    case Tick(later) => s.now <= later
  }

  ghost function Apply(s: State, step: Step): State
    requires Enabled(s, step)
  {
    match step
    case Claim(t, lease) => s.(pc := Lookup(t, lease))
    case Advance => Advanced(s)
    case Return(ran) => s.(pc := Check(s.pc.task, s.pc.lease, s.pc.lost, ran))
    case LoseLease =>
      s.(pc := if s.pc.Executing? then Executing(s.pc.task, s.pc.lease, true)
        else Check(s.pc.task, s.pc.lease, true, s.pc.ran))
    case Put(after) => s.(store := after, pc := Acknowledge(s.pc.task, s.pc.lease, s.pc.outcome, true))
    case Reply(r) => Answered(s, r)
    case StoreError => s.(pc := Idle)
    case Crash => s.(pc := Idle)
    case Tick(later) => s.(now := later)
  }

  predicate IsInitial(s: State) {
    s == State(s.now, map[], [], [], Idle)
  }

  ghost function Run(s: State, steps: seq<Step>): Option<State>
    decreases |steps|
  {
    if steps == [] then Some(s)
    else if Enabled(s, steps[0]) then Run(Apply(s, steps[0]), steps[1..])
    else None
  }

  ghost predicate Reachable(s: State) {
    exists start, steps :: IsInitial(start) && Run(start, steps) == Some(s)
  }

  // ---- Invariant ------------------------------------------------------------------

  ghost predicate PcOK(s: State) {
    match s.pc
    case Drop(t, _) => t in s.store && MustRunAgain(s.store[t])
    case Dispatch(t, _) => t !in s.store
    case Executing(t, _, _) => t !in s.store && t in s.dispatched
    case Check(t, _, _, _) => t !in s.store && t in s.dispatched
    case Persist(t, _, o) => t !in s.store && t in s.dispatched && Settled(o)
    case Acknowledge(t, _, o, _) => (t in s.store ==> s.store[t] == o) && t in s.dispatched && Settled(o)
    case Await(t, _, o, _) => (t in s.store ==> s.store[t] == o) && t in s.dispatched && Settled(o)
    case Forget(t) => t in s.store ==> s.store[t].status == "failed"
    case _ => true
  }

  predicate Settled(o: Outcome) {
    o.status == "completed" || o.status == "failed"
  }

  ghost predicate Inv(s: State) {
    && PcOK(s)
    && (forall t :: t in s.store ==> Settled(s.store[t]) && t in s.dispatched)
    && (forall k :: 0 <= k < |s.sent| ==> s.sent[k].task in s.dispatched)
  }

  lemma StepKeepsInv(s: State, step: Step)
    requires Inv(s) && Enabled(s, step)
    ensures Inv(Apply(s, step))
  {
    if step.Put? {
      PutKeepsInv(s, step.after);
    }
  }

  lemma PutKeepsInv(s: State, after: Outcomes)
    requires Inv(s) && Enabled(s, Put(after))
    ensures Inv(Apply(s, Put(after)))
  {
    var stored := s.store[s.pc.task := s.pc.outcome];
    assert forall t :: t in after ==> after[t] == stored[t];
  }

  lemma {:induction false} RunKeepsInv(s: State, steps: seq<Step>)
    requires Inv(s) && Run(s, steps).Some?
    ensures Inv(Run(s, steps).value)
    decreases |steps|
  {
    if steps != [] {
      StepKeepsInv(s, steps[0]);
      RunKeepsInv(Apply(s, steps[0]), steps[1..]);
    }
  }

  lemma ReachableInv(s: State)
    requires Reachable(s)
    ensures Inv(s)
  {
    var start, steps :| IsInitial(start) && Run(start, steps) == Some(s);
    RunKeepsInv(start, steps);
  }

  // ---- What every run guarantees --------------------------------------------------

  /** Pruning takes `t`'s outcome (possibly the one just put) out of the store. */
  ghost predicate Evicts(s: State, step: Step, t: string) {
    step.Put? && s.pc.Persist? && (t in s.store || t == s.pc.task) && t !in step.after
  }

  ghost predicate Spares(s: State, steps: seq<Step>, t: string)
    decreases |steps|
  {
    steps != [] && Enabled(s, steps[0]) ==>
      !Evicts(s, steps[0], t) && Spares(Apply(s, steps[0]), steps[1..], t)
  }

  function Executions(dispatched: seq<string>, t: string): nat {
    multiset(dispatched)[t]
  }

  lemma StepOfACompletedTask(s: State, step: Step, t: string)
    requires Inv(s) && Enabled(s, step) && !Evicts(s, step, t)
    requires t in s.store && s.store[t].status == "completed"
    ensures var s' := Apply(s, step);
            && t in s'.store && s'.store[t] == s.store[t]
            && Executions(s'.dispatched, t) == Executions(s.dispatched, t)
            && s.sent <= s'.sent
            && (forall k :: |s.sent| <= k < |s'.sent| && s'.sent[k].task == t ==>
                s'.sent[k] == Complete(t, s'.sent[k].lease, s.store[t].result))
  {
  }

  /** Once a completed outcome is stored, the task never executes again, whatever leases,
      crashes and lost replies follow, and every later acknowledgement of it completes
      it with that same result -- until pruning evicts the outcome. */
  lemma {:induction false} NeverAgain(s: State, steps: seq<Step>, t: string)
    requires Inv(s) && Run(s, steps).Some? && Spares(s, steps, t)
    requires t in s.store && s.store[t].status == "completed"
    ensures var s' := Run(s, steps).value;
            && t in s'.store && s'.store[t] == s.store[t]
            && Executions(s'.dispatched, t) == Executions(s.dispatched, t)
            && s.sent <= s'.sent
            && (forall k :: |s.sent| <= k < |s'.sent| && s'.sent[k].task == t ==>
                s'.sent[k] == Complete(t, s'.sent[k].lease, s.store[t].result))
    decreases |steps|
  {
    if steps != [] {
      var s1 := Apply(s, steps[0]);
      StepKeepsInv(s, steps[0]);
      StepOfACompletedTask(s, steps[0], t);
      NeverAgain(s1, steps[1..], t);
      var s' := Run(s1, steps[1..]).value;
      forall k | |s.sent| <= k < |s'.sent| && s'.sent[k].task == t
        ensures s'.sent[k] == Complete(t, s'.sent[k].lease, s.store[t].result)
      {
        if k < |s1.sent| {
          assert s'.sent[k] == s1.sent[k];
        }
      }
    }
  }

  /** Every completion of `t` sent so far carries the outcome in the store. */
  ghost predicate OneResult(s: State, t: string) {
    forall k :: 0 <= k < |s.sent| && s.sent[k].task == t && s.sent[k].Complete? ==>
      t in s.store && s.store[t].status == "completed" && s.sent[k].result == s.store[t].result
  }

  /** What is about to be acknowledged is in the store. */
  ghost predicate Durable(s: State, t: string) {
    (s.pc.Acknowledge? || s.pc.Await?) && s.pc.task == t ==> t in s.store
  }

  lemma StepKeepsOneResult(s: State, step: Step, t: string)
    requires Inv(s) && Enabled(s, step) && !Evicts(s, step, t)
    requires OneResult(s, t) && Durable(s, t)
    ensures OneResult(Apply(s, step), t) && Durable(Apply(s, step), t)
  {
    var s' := Apply(s, step);
    if step.Put? && t in s.store {
      assert s'.store[t] == s.store[s.pc.task := s.pc.outcome][t];
    }
  }

  lemma {:induction false} RunKeepsOneResult(s: State, steps: seq<Step>, t: string)
    requires Inv(s) && Run(s, steps).Some? && Spares(s, steps, t)
    requires OneResult(s, t) && Durable(s, t)
    ensures OneResult(Run(s, steps).value, t) && Durable(Run(s, steps).value, t)
    decreases |steps|
  {
    if steps != [] {
      StepKeepsInv(s, steps[0]);
      StepKeepsOneResult(s, steps[0], t);
      RunKeepsOneResult(Apply(s, steps[0]), steps[1..], t);
    }
  }

  /** In a run that never evicts `t`, all its completions report one and the same result,
      and it was executed before any acknowledgement. */
  lemma CompletionsAgree(start: State, steps: seq<Step>, t: string, j: nat, k: nat)
    requires IsInitial(start) && Run(start, steps).Some? && Spares(start, steps, t)
    requires var sent := Run(start, steps).value.sent;
             j < |sent| && k < |sent| && sent[j].task == t && sent[k].task == t && sent[j].Complete? &&
               sent[k].Complete?
    ensures var s := Run(start, steps).value;
            s.sent[j].result == s.sent[k].result && t in s.dispatched
  {
    RunKeepsOneResult(start, steps, t);
    RunKeepsInv(start, steps);
  }

  // ---- What is reported is what happened ------------------------------------------------

  /** How executions ended so far, by task. */
  ghost function EndedIn(s: State, step: Step): set<(string, Ran)>
    requires Enabled(s, step)
  {
    if step.Return? then {(s.pc.task, step.ran)} else {}
  }

  ghost function Endings(s: State, steps: seq<Step>): set<(string, Ran)>
    requires Run(s, steps).Some?
    decreases |steps|
  {
    if steps == [] then {} else EndedIn(s, steps[0]) + Endings(Apply(s, steps[0]), steps[1..])
  }

  /** The outcome says how an execution of the task ended. */
  predicate Tells(o: Outcome, task: string, endings: set<(string, Ran)>) {
    || (o.status == "completed" && (task, Succeeded(o.result)) in endings)
    || (o.status == "failed" && (task, Errored(o.result, o.errorMessage, o.retryable)) in endings)
  }

  /** The acknowledgement says how an execution of its task ended; only a failure to be retried
      asks for a delay, of five seconds. */
  predicate Reports(ack: Ack, endings: set<(string, Ran)>) {
    match ack
    case Complete(task, _, result) => (task, Succeeded(result)) in endings
    case Fail(task, _, result, error, retryable, delay) =>
      (task, Errored(result, error, retryable)) in endings && delay == if retryable then 5 else 0
  }

  ghost predicate Truthful(s: State, endings: set<(string, Ran)>) {
    && (forall t :: t in s.store ==> Tells(s.store[t], t, endings))
    && (forall k :: 0 <= k < |s.sent| ==> Reports(s.sent[k], endings))
    && (s.pc.Check? ==> (s.pc.task, s.pc.ran) in endings)
    && (s.pc.Persist? || s.pc.Acknowledge? || s.pc.Await? ==> Tells(s.pc.outcome, s.pc.task, endings))
  }

  lemma PutStaysTruthful(s: State, after: Outcomes, endings: set<(string, Ran)>)
    requires Enabled(s, Put(after)) && Truthful(s, endings)
    ensures Truthful(Apply(s, Put(after)), endings)
  {
    var stored := s.store[s.pc.task := s.pc.outcome];
    forall t | t in after ensures Tells(after[t], t, endings) {
      assert after[t] == stored[t];
    }
  }

  lemma StepStaysTruthful(s: State, step: Step, endings: set<(string, Ran)>)
    requires Enabled(s, step) && Truthful(s, endings)
    ensures Truthful(Apply(s, step), endings + EndedIn(s, step))
  {
    if step.Put? {
      PutStaysTruthful(s, step.after, endings);
      assert endings + {} == endings;
    }
  }

  lemma {:induction false} RunStaysTruthful(s: State, steps: seq<Step>, endings: set<(string, Ran)>)
    requires Truthful(s, endings) && Run(s, steps).Some?
    ensures Truthful(Run(s, steps).value, endings + Endings(s, steps))
    decreases |steps|
  {
    if steps == [] {
      assert endings + Endings(s, steps) == endings;
    } else {
      StepStaysTruthful(s, steps[0], endings);
      RunStaysTruthful(Apply(s, steps[0]), steps[1..], endings + EndedIn(s, steps[0]));
      assert endings + EndedIn(s, steps[0]) + Endings(Apply(s, steps[0]), steps[1..]) == endings + Endings(s, steps);
    }
  }

  /** In every run, each acknowledgement reports how an earlier execution of its task ended: a
      completion the result of one that succeeded, a failure the result, message and retryability
      of one that did not. */
  lemma AcknowledgementsAreTrue(start: State, steps: seq<Step>, k: nat)
    requires IsInitial(start) && Run(start, steps).Some? && k < |Run(start, steps).value.sent|
    ensures match Run(start, steps).value.sent[k]
            case Complete(task, _, result) => (task, Succeeded(result)) in Endings(start, steps)
            case Fail(task, _, result, error, retryable, delay) =>
              && (task, Errored(result, error, retryable)) in Endings(start, steps)
              && delay == if retryable then 5 else 0
  {
    RunStaysTruthful(start, steps, {});
    assert {} + Endings(start, steps) == Endings(start, steps);
    assert Reports(Run(start, steps).value.sent[k], Endings(start, steps));
  }

  /** Those executions are steps of the run. */
  lemma {:induction false} EndingsAreSteps(s: State, steps: seq<Step>, task: string, ran: Ran) returns (k: nat)
    requires Run(s, steps).Some? && (task, ran) in Endings(s, steps)
    ensures k < |steps| && steps[k] == Return(ran)
    ensures Run(s, steps[..k]).Some?
    ensures var at := Run(s, steps[..k]).value; at.pc.Executing? && at.pc.task == task
    decreases |steps|
  {
    if (task, ran) in EndedIn(s, steps[0]) {
      k := 0;
      assert steps[..0] == [];
    } else {
      var j := EndingsAreSteps(Apply(s, steps[0]), steps[1..], task, ran);
      k := j + 1;
      assert steps[..k][1..] == steps[1..][..j] && steps[..k][0] == steps[0];
    }
  }

  /** A task executes only while the store holds nothing for it, and a put never
      overwrites an outcome. */
  lemma ExecutesOnlyUnknown(s: State, step: Step)
    requires Reachable(s) && Enabled(s, step)
    ensures Apply(s, step).dispatched != s.dispatched ==>
              step.Advance? && s.pc.Dispatch? && Apply(s, step).dispatched == s.dispatched + [s.pc.task] &&
                s.pc.task !in s.store
    ensures step.Put? ==> s.pc.task !in s.store
  {
    ReachableInv(s);
  }

  /** How an outcome leaves the store: pruning takes any; a failure goes when its task is
      claimed again and it is retryable, or by the removal after an acknowledgement. A
      completed outcome goes by pruning only. */
  lemma HowOutcomesLeave(s: State, step: Step, t: string)
    requires Reachable(s) && Enabled(s, step) && t in s.store
    ensures t !in Apply(s, step).store <==>
              || Evicts(s, step, t)
              || (step.Advance? && s.pc.Drop? && s.pc.task == t)
              || (step.Advance? && s.pc.Forget? && s.pc.task == t)
    ensures step.Advance? && s.pc.Drop? && s.pc.task == t ==> s.store[t].status == "failed" && s.store[t].retryable
    ensures step.Advance? && s.pc.Forget? && s.pc.task == t ==> s.store[t].status == "failed"
    ensures t in Apply(s, step).store ==> Apply(s, step).store[t] == s.store[t]
  {
    ReachableInv(s);
  }

  /** That removal follows an accepted report of a retryable failure just executed, or a
      404 or 409 to the report of a failure, and nothing else. */
  lemma WhenFailuresAreForgotten(s: State, step: Step)
    requires Reachable(s) && Enabled(s, step) && !s.pc.Forget?
    ensures Apply(s, step).pc.Forget? <==>
              step.Reply? && s.pc.outcome.status == "failed" &&
              (if step.response.Accepted? then s.pc.executed && s.pc.outcome.retryable
               else step.response.Refused? && (step.response.code == 404 || step.response.code == 409))
  {
  }

  ghost predicate NoClaim(steps: seq<Step>) {
    forall k :: 0 <= k < |steps| ==> !steps[k].Claim?
  }

  ghost predicate LeaseSeenLost(pc: Pc) {
    (pc.Executing? || pc.Check?) && pc.lost
  }

  /** A lease lost before the check leaves no trace of that execution: nothing is stored
      and nothing is sent before the next claim. */
  lemma {:induction false} LostLeaseIsSilent(s: State, steps: seq<Step>)
    requires Run(s, steps).Some? && NoClaim(steps)
    requires LeaseSeenLost(s.pc) || s.pc.Idle?
    ensures var s' := Run(s, steps).value;
            s'.store == s.store && s'.sent == s.sent && s'.dispatched == s.dispatched
    decreases |steps|
  {
    if steps != [] {
      assert !steps[0].Claim?;
      var s1 := Apply(s, steps[0]);
      assert NoClaim(steps[1..]);
      assert LeaseSeenLost(s1.pc) || s1.pc.Idle?;
      LostLeaseIsSilent(s1, steps[1..]);
    }
  }
}
