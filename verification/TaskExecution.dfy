/** executeClaimedTask as the agent runs it, and its place in the step system. */
module TaskExecution {
  import opened Basics
  import opened TaskResults
  import opened TaskLease

  /** The flag that the heartbeat goroutine raises and the task reads once. */
  class TaskLeaseHeartbeat {
    var leaseLost: bool

    constructor ()
      ensures !leaseLost
    {
      leaseLost := false;
    }

    /** One heartbeat was answered. `stop` tells the goroutine to end. */
    method Answered(r: Response) returns (stop: bool)
      modifies this
      ensures leaseLost == (old(leaseLost) || DefinitelyLost(r))
      ensures stop <==> DefinitelyLost(r)
    {
      if r.Refused? && (r.code == 404 || r.code == 409) {
        leaseLost := true;
        return true;
      }
      stop := false;
    }
  }

  /** The heartbeats of one execution, up to the one that ends them. */
  method RunHeartbeats(answers: seq<Response>) returns (heartbeat: TaskLeaseHeartbeat)
    ensures fresh(heartbeat)
    ensures heartbeat.leaseLost <==> exists k :: 0 <= k < |answers| && DefinitelyLost(answers[k])
  {
    heartbeat := new TaskLeaseHeartbeat();
    for k := 0 to |answers|
      invariant !heartbeat.leaseLost
      invariant forall j :: 0 <= j < k ==> !DefinitelyLost(answers[j])
    {
      var stop := heartbeat.Answered(answers[k]);
      if stop {
        return;
      }
    }
  }

  /** What the world does to one call: does each store access succeed, how does the
      execution end and when, how are the heartbeats and the acknowledgement answered. */
  datatype World = World(
    readable: bool,
    droppable: bool,
    ran: Ran,
    finished: int64,
    heartbeats: seq<Response>,
    loadable: bool,
    writable: bool,
    answer: Response,
    removable: bool)

  datatype Report = Report(ok: bool, hung: bool, dispatched: seq<string>, sent: seq<Ack>)

  lemma {:induction false} RunAppend(s: State, a: seq<Step>, b: seq<Step>)
    requires Run(s, a).Some?
    ensures Run(s, a + b) == Run(Run(s, a).value, b)
    decreases |a|
  {
    if a == [] {
      assert a + b == b;
    } else {
      RunAppend(Apply(s, a[0]), a[1..], b);
      assert (a + b)[1..] == a[1..] + b;
    }
  }

  ghost predicate Leads(start: State, s: State) {
    exists steps :: Run(start, steps) == Some(s)
  }

  lemma Stay(s: State)
    ensures Leads(s, s)
  {
    assert Run(s, []) == Some(s);
  }

  lemma Follow(start: State, s: State, step: Step) returns (s': State)
    requires Leads(start, s) && Enabled(s, step)
    ensures s' == Apply(s, step) && Leads(start, s')
  {
    var steps :| Run(start, steps) == Some(s);
    RunAppend(start, steps, [step]);
    s' := Apply(s, step);
    assert Run(s, [step]) == Run(s', []);
  }

  // ---- What a call does, exactly ------------------------------------------------------

  predicate LeaseLost(w: World) {
    exists k :: 0 <= k < |w.heartbeats| && DefinitelyLost(w.heartbeats[k])
  }

  /** One acknowledgement of `o` was sent, and the store is `before`, perhaps without the task. */
  ghost predicate Acknowledged(before: Outcomes, after: Outcomes, task: string, lease: string, o: Outcome,
                               executed: bool, w: World, r: Report) {
    && !r.hung && (r.ok <==> w.answer.Accepted?)
    && r.sent == [AckFor(task, lease, o)]
    && after == if Forgets(o, executed, w.answer) && w.removable then before - {task} else before
  }

  predicate Silent(r: Report) {
    !r.ok && r.sent == []
  }

  /** After an execution under a kept lease: an unreadable store leaves no trace, an endless
      pruning hangs, and otherwise the outcome is stored and acknowledged. */
  ghost predicate Stored(before: Outcomes, after: Outcomes, task: string, lease: string, o: Outcome, w: World,
                         r: Report) {
    if !w.loadable then Silent(r) && !r.hung && after == before
    else if |Immortal(before[task := o], w.finished - RETENTION)| > MAX_OUTCOMES then
      Silent(r) && r.hung && after == before
    else if !w.writable then Silent(r) && !r.hung && after == before
    else KeptAndAcknowledged(before[task := o], after, task, lease, o, w, r)
  }

  ghost predicate KeptAndAcknowledged(put: Outcomes, after: Outcomes, task: string, lease: string, o: Outcome, w: World,
                                      r: Report) {
    exists stored :: Pruned(put, w.finished - RETENTION, stored) &&
      Acknowledged(stored, after, task, lease, o, true, w, r)
  }

  /** After an execution; a lease lost meanwhile leaves no trace either. */
  ghost predicate Concluded(before: Outcomes, after: Outcomes, task: string, lease: string, w: World, r: Report) {
    if LeaseLost(w) then Silent(r) && !r.hung && after == before
    else Stored(before, after, task, lease, OutcomeOf(w.ran, w.finished), w, r)
  }

  /** A settled outcome in the store is acknowledged again; a task that is unknown or whose
      failure is to be retried is executed; anything else is left alone. */
  ghost predicate Called(before: Outcomes, after: Outcomes, task: string, lease: string, taskType: string, w: World,
                         r: Report) {
    if task == "" || lease == "" || taskType == "" || !w.readable then
      r == Report(false, false, [], []) && after == before
    else if task in before && !MustRunAgain(before[task]) then
      r.dispatched == [] && Acknowledged(before, after, task, lease, before[task], false, w, r)
    else if task in before && !w.droppable then
      r == Report(false, false, [], []) && after == before
    else
      r.dispatched == [task] && Concluded(before - {task}, after, task, lease, w, r)
  }

  // ---- The same, on what the world did and what the store held ---------------------------

  /** The task is executed, once, exactly if the claim is complete, the store can be read, and it
      holds nothing for the task or a retryable failure that can be dropped. */
  predicate ExecutesWhenDue(before: Outcomes, task: string, lease: string, taskType: string, w: World, r: Report) {
    r.dispatched ==
    if && task != "" && lease != "" && taskType != "" && w.readable
       && (task in before ==> before[task].status == "failed" && before[task].retryable && w.droppable)
    then [task] else []
  }

  /** At most one acknowledgement is sent. After an execution it reports how that ended: a
      completion with its result, or a failure with its result, message and retryability.
      Otherwise it reports the outcome found in the store. */
  predicate ReportsWhatHappened(before: Outcomes, task: string, lease: string, w: World, r: Report) {
    r.sent != [] ==>
      if r.dispatched == [] then
        task in before &&
        var o := before[task];
        r.sent == [if o.status == "completed" then Complete(task, lease, o.result)
                   else Fail(task, lease, o.result, o.errorMessage, o.retryable, if o.retryable then 5 else 0)]
      else
        match w.ran
        case Succeeded(result) => r.sent == [Complete(task, lease, result)]
        case Errored(result, error, retryable) =>
          r.sent == [Fail(task, lease, result, error, retryable, if retryable then 5 else 0)]
  }

  /** An acknowledged execution puts an entry of how it ended into the store; what pruning leaves
      of the store stays, perhaps without that entry once the acknowledgement is answered. */
  ghost predicate StoresWhatHappened(before: Outcomes, after: Outcomes, task: string, lease: string, w: World,
                                     r: Report) {
    r.sent != [] && r.dispatched != [] ==>
      var entry := match w.ran
                   case Succeeded(result) => Outcome("completed", result, "", false, w.finished)
                   case Errored(result, error, retryable) => Outcome("failed", result, error, retryable, w.finished);
      KeptAndAcknowledged((before - {task})[task := entry], after, task, lease, entry, w, r)
  }

  /** The exact description of a call says all this. */
  lemma CalledIsPlain(before: Outcomes, after: Outcomes, task: string, lease: string, taskType: string, w: World,
                      r: Report)
    requires Called(before, after, task, lease, taskType, w, r)
    ensures ExecutesWhenDue(before, task, lease, taskType, w, r)
    ensures ReportsWhatHappened(before, task, lease, w, r)
    ensures StoresWhatHappened(before, after, task, lease, w, r)
  {
  }

  method AcknowledgeTaskOutcome(results: TaskResultStore, task: string, lease: string, o: Outcome, w: World)
      returns (ok: bool, ack: Ack)
    modifies results
    ensures ok <==> w.answer.Accepted?
    ensures ack == AckFor(task, lease, o)
    ensures results.values ==
            if !ok && DefinitelyLost(w.answer) && o.status == "failed" && w.removable then old(results.values) - {task}
            else old(results.values)
  {
    if o.status == "completed" {
      ack := Complete(task, lease, o.result);
    } else {
      var delay := 0;
      if o.retryable {
        delay := 5;
      }
      ack := Fail(task, lease, o.result, o.errorMessage, o.retryable, delay);
    }
    if w.answer.Accepted? {
      return true, ack;
    }
    if DefinitelyLost(w.answer) && o.status == "failed" {
      if w.removable {
        results.Remove(task);
      }
    }
    ok := false;
  }

  /** The call is over: the run of which it is part leads on to an idle agent with this store,
      and the call's executions and acknowledgements come after the earlier ones. */
  ghost predicate Ends(start: State, store: Outcomes, r: Report) {
    exists now :: Leads(start, State(now, store, start.dispatched + r.dispatched, start.sent + r.sent, Idle))
  }

  lemma Finish(start: State, s: State, r: Report)
    requires Leads(start, s) && s.pc.Idle?
    requires s.dispatched == start.dispatched + r.dispatched && s.sent == start.sent + r.sent
    ensures Ends(start, s.store, r)
  {
    assert s == State(s.now, s.store, start.dispatched + r.dispatched, start.sent + r.sent, Idle);
  }

  lemma FinishWithNothing(start: State, s: State, r: Report)
    requires Leads(start, s) && s.pc.Idle? && r == Report(false, false, [], [])
    requires s.dispatched == start.dispatched && s.sent == start.sent
    ensures Ends(start, s.store, r)
  {
    assert start.dispatched + [] == start.dispatched && start.sent + [] == start.sent;
    Finish(start, s, r);
  }

  lemma FinishUnsent(start: State, s: State, r: Report)
    requires Leads(start, s) && s.pc.Idle? && r.sent == []
    requires s.dispatched == start.dispatched + r.dispatched && s.sent == start.sent
    ensures Ends(start, s.store, r)
  {
    assert start.sent + [] == start.sent;
    Finish(start, s, r);
  }

  /** A call of a task that the server handed out. `start` is the agent's state, with its whole
      history, at the moment of the call. The call is the next stretch of that history: it leads
      from there to an idle agent; a call that hangs is ended by a crash. */
  method ExecuteClaimedTask(results: TaskResultStore, task: string, lease: string, taskType: string, w: World,
                            ghost start: State)
      returns (r: Report)
    requires start.pc.Idle? && start.store == results.values && start.now <= w.finished
    modifies results
    ensures Ends(start, results.values, r)
    ensures Called(old(results.values), results.values, task, lease, taskType, w, r)
    ensures ExecutesWhenDue(old(results.values), task, lease, taskType, w, r)
    ensures ReportsWhatHappened(old(results.values), task, lease, w, r)
    ensures StoresWhatHappened(old(results.values), results.values, task, lease, w, r)
  {
    r := ExecuteClaimed(results, task, lease, taskType, w, start);
    CalledIsPlain(old(results.values), results.values, task, lease, taskType, w, r);
  }

  method ExecuteClaimed(results: TaskResultStore, task: string, lease: string, taskType: string, w: World,
                        ghost start: State)
      returns (r: Report)
    requires start.pc.Idle? && start.store == results.values && start.now <= w.finished
    modifies results
    ensures Ends(start, results.values, r)
    ensures Called(old(results.values), results.values, task, lease, taskType, w, r)
  {
    ghost var s := start;
    Stay(s);
    r := Report(false, false, [], []);
    if task == "" || lease == "" || taskType == "" {
      FinishWithNothing(start, s, r);
      return;
    }
    s := Follow(start, s, Claim(task, lease));
    if !w.readable {
      s := Follow(start, s, StoreError);
      FinishWithNothing(start, s, r);
      return;
    }
    var cached := results.Get(task);
    s := Follow(start, s, Advance);
    if cached.Some? {
      if cached.value.status != "failed" || !cached.value.retryable {
        r := AcknowledgeCached(results, task, lease, cached.value, w, start, s);
        return;
      }
      if !w.droppable {
        s := Follow(start, s, StoreError);
        FinishWithNothing(start, s, r);
        return;
      }
      results.Remove(task);
      s := Follow(start, s, Advance);
    }
    assert results.values == old(results.values) - {task};
    r := ExecuteUncached(results, task, lease, w, start, s);
  }

  /** The outcome found in the store is reported again. */
  method AcknowledgeCached(results: TaskResultStore, task: string, lease: string, o: Outcome, w: World,
                           ghost start: State, ghost before: State)
      returns (r: Report)
    requires Leads(start, before)
    requires before == State(before.now, results.values, start.dispatched, start.sent,
             Acknowledge(task, lease, o, false))
    modifies results
    ensures Ends(start, results.values, r)
    ensures r.dispatched == [] && Acknowledged(old(results.values), results.values, task, lease, o, false, w, r)
  {
    var ok, ack := AcknowledgeTaskOutcome(results, task, lease, o, w);
    ghost var s := FollowAcknowledgement(start, before, w);
    r := Report(ok, false, [], [ack]);
    assert start.dispatched + [] == start.dispatched;
    Finish(start, s, r);
  }

  /** The rest of the call, once the store holds nothing for the task. */
  method ExecuteUncached(results: TaskResultStore, task: string, lease: string, w: World, ghost start: State,
                         ghost before: State)
      returns (r: Report)
    requires Leads(start, before)
    requires before == State(before.now, results.values, start.dispatched, start.sent, Dispatch(task, lease))
    requires before.now <= w.finished && task !in results.values
    modifies results
    ensures Ends(start, results.values, r)
    ensures r.dispatched == [task] && Concluded(old(results.values), results.values, task, lease, w, r)
  {
    ghost var s := Follow(start, before, Advance);
    var heartbeat := RunHeartbeats(w.heartbeats);
    s := Follow(start, s, Return(w.ran));
    s := Follow(start, s, Tick(w.finished));
    if heartbeat.leaseLost {
      s := Follow(start, s, LoseLease);
      s := Follow(start, s, Advance);
      r := Report(false, false, [task], []);
      FinishUnsent(start, s, r);
      return;
    }
    s := Follow(start, s, Advance);
    r := StoreAndAcknowledge(results, task, lease, OutcomeOf(w.ran, w.finished), w, start, s);
  }

  /** The rest of the call, once the task has been executed and its lease is still held. */
  method StoreAndAcknowledge(results: TaskResultStore, task: string, lease: string, outcome: Outcome, w: World,
                             ghost start: State, ghost before: State)
      returns (r: Report)
    requires Leads(start, before)
    requires before ==
             State(w.finished, results.values, start.dispatched + [task], start.sent, Persist(task, lease, outcome))
    modifies results
    ensures Ends(start, results.values, r)
    ensures r.dispatched == [task] && Stored(old(results.values), results.values, task, lease, outcome, w, r)
  {
    ghost var s := before;
    r := Report(false, false, [task], []);
    if !w.loadable {
      s := Follow(start, s, StoreError);
      FinishUnsent(start, s, r);
      return;
    }
    var written, hung := results.Put(task, outcome, w.finished, w.writable);
    if hung {
      s := Follow(start, s, Crash);
      r := Report(false, true, [task], []);
      FinishUnsent(start, s, r);
      return;
    }
    if !written {
      s := Follow(start, s, StoreError);
      FinishUnsent(start, s, r);
      return;
    }
    ghost var stored := results.values;
    s := Follow(start, s, Put(stored));
    var ok, ack := AcknowledgeTaskOutcome(results, task, lease, outcome, w);
    if ok && outcome.status == "failed" && outcome.retryable && w.removable {
      results.Remove(task);
    }
    s := FollowAcknowledgement(start, s, w);
    r := Report(ok, false, [task], [ack]);
    Finish(start, s, r);
    assert Acknowledged(stored, results.values, task, lease, outcome, true, w, r);
  }

  /** From an acknowledgement to the next idle point. */
  lemma FollowAcknowledgement(start: State, s: State, w: World) returns (s': State)
    requires Leads(start, s) && s.pc.Acknowledge?
    ensures Leads(start, s')
    ensures var o := s.pc.outcome;
            var store := if Forgets(o, s.pc.executed, w.answer) && w.removable then s.store - {s.pc.task} else s.store;
            s' == State(s.now, store, s.dispatched, s.sent + [AckFor(s.pc.task, s.pc.lease, o)], Idle)
  {
    s' := Follow(start, s, Advance);
    s' := Follow(start, s', Reply(w.answer));
    if s'.pc.Forget? {
      if w.removable {
        s' := Follow(start, s', Advance);
      } else {
        s' := Follow(start, s', StoreError);
      }
    }
  }

  // ---- Calls one after the other --------------------------------------------------------

  /** A call made in a reachable state, perhaps after some time, leaves a reachable state. So
      whatever holds in every reachable state holds before and after every call. */
  lemma CallsStayReachable(s: State, later: int64, store: Outcomes, r: Report) returns (s': State)
    requires Reachable(s) && s.pc.Idle? && s.now <= later && Ends(s.(now := later), store, r)
    ensures Reachable(s') && s'.pc.Idle? && s'.store == store
    ensures s'.dispatched == s.dispatched + r.dispatched && s'.sent == s.sent + r.sent
  {
    var waited := s.(now := later);
    var start, steps :| IsInitial(start) && Run(start, steps) == Some(s);
    RunAppend(start, steps, [Tick(later)]);
    assert Run(s, [Tick(later)]) == Run(waited, []);
    var now :| Leads(waited, State(now, store, s.dispatched + r.dispatched, s.sent + r.sent, Idle));
    s' := State(now, store, s.dispatched + r.dispatched, s.sent + r.sent, Idle);
    var more :| Run(waited, more) == Some(s');
    RunAppend(start, steps + [Tick(later)], more);
  }

  /** A call, with what was claimed, what the world did, and what was reported. */
  datatype Call = Call(task: string, lease: string, taskType: string, w: World, r: Report)

  ghost predicate Follows(before: Outcomes, call: Call, after: Outcomes) {
    Called(before, after, call.task, call.lease, call.taskType, call.w, call.r)
  }

  predicate Completed(store: Outcomes, t: string) {
    t in store && store[t].status == "completed"
  }

  /** A call that finds a completed outcome of its task repeats it and executes nothing. */
  lemma CompletedIsRepeated(before: Outcomes, call: Call, after: Outcomes)
    requires Follows(before, call, after) && Completed(before, call.task)
    ensures call.r.dispatched == [] && after == before
    ensures call.r.sent == [] || call.r.sent == [Complete(call.task, call.lease, before[call.task].result)]
    ensures call.r.sent == [] <==> call.task == "" || call.lease == "" || call.taskType == "" || !call.w.readable
  {
  }

  /** No call changes a completed outcome; it may only be pruned, by a call of another task. */
  lemma CompletedStays(before: Outcomes, call: Call, after: Outcomes, t: string)
    requires Follows(before, call, after) && Completed(before, t)
    ensures t in after ==> after[t] == before[t]
    ensures t !in after ==> call.task != t && call.r.sent != []
  {
    if call.task == t {
      CompletedIsRepeated(before, call, after);
    }
  }

  /** The stores before, between and after some calls. */
  ghost predicate Session(stores: seq<Outcomes>, calls: seq<Call>) {
    |stores| == |calls| + 1 && forall k :: 0 <= k < |calls| ==> Follows(stores[k], calls[k], stores[k + 1])
  }

  /** Over any number of calls, a task whose completed outcome stays in the store is never
      executed, and each acknowledgement of it completes it with the same result. */
  lemma {:induction false} CallsNeverRepeatATask(stores: seq<Outcomes>, calls: seq<Call>, t: string, k: nat)
    requires Session(stores, calls) && Completed(stores[0], t) && k <= |calls|
    requires forall j :: 0 <= j <= k ==> t in stores[j]
    ensures stores[k][t] == stores[0][t]
    ensures forall j :: 0 <= j < k ==> t !in calls[j].r.dispatched
    ensures forall j :: 0 <= j < k && calls[j].task == t ==>
              calls[j].r.sent == [] || calls[j].r.sent == [Complete(t, calls[j].lease, stores[0][t].result)]
    decreases k
  {
    if k > 0 {
      CallsNeverRepeatATask(stores, calls, t, k - 1);
      var call := calls[k - 1];
      assert Follows(stores[k - 1], call, stores[k]);
      CompletedStays(stores[k - 1], call, stores[k], t);
      if call.task == t {
        CompletedIsRepeated(stores[k - 1], call, stores[k]);
      }
    }
  }
}
