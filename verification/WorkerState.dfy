/**
 The persistent process table of worker mode and the closures that the supervisor
 passes to its `update`.

 Each closure is a function from table to table; `WorkerStateStore` runs it the way
 the agent does, field by field on a copy of the record that is then written back.
 */
module WorkerState {
  import opened Basics

  datatype Status = Created | Running | Stopped

  /** One run of one process: the PID and the kernel's start-time marker for it. */
  datatype Incarnation = Incarnation(pid: int, marker: string)

  datatype ProcessRecord = ProcessRecord(
    definitionHash: string,
    pid: int,
    marker: string,
    status: Status,
    lastExitCode: Option<int>,
    startedAt: int,
    stoppedAt: int,
    updatedAt: int)

  type ProcessTable = map<string, ProcessRecord>

  /** The record Go hands out for a missing key. (Its status string is empty, which
      no caller reads before the clearing update overwrites it.) */
  const ZERO_RECORD := ProcessRecord("", 0, "", Created, None, 0, 0, 0)

  predicate Names(rec: ProcessRecord, i: Incarnation) {
    rec.pid == i.pid && rec.marker == i.marker
  }

  function Defined(hash: string, now: int): ProcessRecord {
    ProcessRecord(hash, 0, "", Created, None, 0, 0, now)
  }

  function Started(rec: ProcessRecord, i: Incarnation, now: int): ProcessRecord {
    rec.(pid := i.pid, marker := i.marker, status := Running, lastExitCode := None,
    startedAt := now, stoppedAt := 0, updatedAt := now)
  }

  function Cleared(rec: ProcessRecord, now: int): ProcessRecord {
    rec.(pid := 0, marker := "", status := Stopped, stoppedAt := now, updatedAt := now)
  }

  function Exited(rec: ProcessRecord, code: int, now: int): ProcessRecord {
    Cleared(rec, now).(lastExitCode := Some(code))
  }

  predicate StoppedBeforeWait(rec: ProcessRecord, startedAt: int) {
    rec.pid == 0 && rec.marker == "" && rec.status == Stopped && rec.startedAt == startedAt && rec.lastExitCode == None
  }

  /** The guard of the waiter's update. */
  predicate WaiterOwns(rec: ProcessRecord, i: Incarnation, startedAt: int) {
    Names(rec, i) || StoppedBeforeWait(rec, startedAt)
  }

  function AfterClear(ps: ProcessTable, p: string, now: int): ProcessTable {
    if p in ps then ps[p := Cleared(ps[p], now)] else ps
  }

  /** Inspect's clearing update, which does not check that the record exists. */
  function AfterUnguardedClear(ps: ProcessTable, p: string, now: int): ProcessTable {
    ps[p := Cleared(if p in ps then ps[p] else ZERO_RECORD, now)]
  }

  function AfterWait(ps: ProcessTable, p: string, i: Incarnation, startedAt: int, code: int, now: int): ProcessTable {
    if p in ps && WaiterOwns(ps[p], i, startedAt) then ps[p := Exited(ps[p], code, now)] else ps
  }

  /** The fields that say which incarnation a record stands for and how it ended. */
  predicate SameOutcome(a: ProcessRecord, b: ProcessRecord) {
    a.pid == b.pid && a.marker == b.marker && a.status == b.status &&
    a.startedAt == b.startedAt && a.lastExitCode == b.lastExitCode
  }

  /** Stop's (or inspect's) clear and the waiter's update may run in either order: the
      record ends stopped with the child's exit code both ways. */
  lemma ClearAndWaitCommute(ps: ProcessTable, p: string, i: Incarnation, code: int, cleared: int, waited: int)
    requires p in ps && Names(ps[p], i) && ps[p].lastExitCode == None
    ensures var at := ps[p].startedAt;
            var clearFirst := AfterWait(AfterClear(ps, p, cleared), p, i, at, code, waited);
            var waitFirst := AfterClear(AfterWait(ps, p, i, at, code, waited), p, cleared);
            && clearFirst.Keys == waitFirst.Keys == ps.Keys
            && SameOutcome(clearFirst[p], waitFirst[p])
            && waitFirst[p].pid == 0 && waitFirst[p].status == Stopped && waitFirst[p].lastExitCode == Some(code)
            && forall q :: q in ps && q != p ==> clearFirst[q] == ps[q] && waitFirst[q] == ps[q]
    ensures AfterClear(ps, p, cleared) == AfterUnguardedClear(ps, p, cleared)
  {
    var afterClear := AfterClear(ps, p, cleared);
    assert StoppedBeforeWait(afterClear[p], ps[p].startedAt);
    var afterWait := AfterWait(ps, p, i, ps[p].startedAt, code, waited);
    assert afterWait[p] == Exited(ps[p], code, waited);
  }

  class WorkerStateStore {
    var processes: ProcessTable

    constructor ()
      ensures processes == map[]
    {
      processes := map[];
    }

    method Define(p: string, hash: string, now: int)
      modifies this
      ensures processes == old(processes)[p := Defined(hash, now)]
    {
      processes := processes[p := ProcessRecord(hash, 0, "", Created, None, 0, 0, now)];
    }

    /** Start's update; it fails when the record disappeared in the meantime. */
    method RecordStart(p: string, i: Incarnation, now: int) returns (ok: bool)
      modifies this
      ensures ok <==> p in old(processes)
      ensures processes == if ok then old(processes)[p := Started(old(processes)[p], i, now)] else old(processes)
    {
      if p !in processes {
        return false;
      }
      var current := processes[p];
      current := current.(pid := i.pid);
      current := current.(marker := i.marker);
      current := current.(status := Running);
      current := current.(lastExitCode := None);
      current := current.(startedAt := now);
      current := current.(stoppedAt := 0);
      current := current.(updatedAt := now);
      processes := processes[p := current];
      ok := true;
    }

    /** Stop's update. */
    method Clear(p: string, now: int)
      modifies this
      ensures processes == AfterClear(old(processes), p, now)
    {
      if p in processes {
        var current := processes[p];
        current := current.(pid := 0);
        current := current.(marker := "");
        current := current.(status := Stopped);
        current := current.(stoppedAt := now);
        current := current.(updatedAt := now);
        processes := processes[p := current];
      }
    }

    /** Inspect's update. */
    method ClearUnguarded(p: string, now: int)
      modifies this
      ensures processes == AfterUnguardedClear(old(processes), p, now)
    {
      var current := if p in processes then processes[p] else ZERO_RECORD;
      current := current.(pid := 0);
      current := current.(marker := "");
      current := current.(status := Stopped);
      current := current.(stoppedAt := now);
      current := current.(updatedAt := current.stoppedAt);
      processes := processes[p := current];
    }

    /** The update of the waiter goroutine. */
    method RecordExit(p: string, i: Incarnation, startedAt: int, code: int, now: int)
      modifies this
      ensures processes == AfterWait(old(processes), p, i, startedAt, code, now)
    {
      var exists_ := p in processes;
      var current := if exists_ then processes[p] else ZERO_RECORD;
      var sameRunningProcess := current.pid == i.pid && current.marker == i.marker;
      var stoppedBeforeWait :=
        current.pid == 0 && current.marker == "" && current.status == Stopped &&
        current.startedAt == startedAt && current.lastExitCode == None;
      if !exists_ || (!sameRunningProcess && !stoppedBeforeWait) {
        return;
      }
      current := current.(pid := 0);
      current := current.(marker := "");
      current := current.(status := Stopped);
      current := current.(lastExitCode := Some(code));
      current := current.(stoppedAt := now);
      current := current.(updatedAt := now);
      processes := processes[p := current];
    }

    method Remove(p: string) returns (removed: bool)
      modifies this
      ensures removed <==> p in old(processes)
      ensures processes == old(processes) - {p}
    {
      removed := p in processes;
      processes := processes - {p};
    }
  }
}
