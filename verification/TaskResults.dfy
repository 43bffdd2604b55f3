/** The persistent cache of task outcomes, and how it is pruned. */
module TaskResults {
  import opened Basics

  type int64 = x: int | -0x8000_0000_0000_0000 <= x < 0x8000_0000_0000_0000

  const MAX_INT64: int64 := 0x7fff_ffff_ffff_ffff
  const MAX_OUTCOMES := 2000
  /** Seven days, in milliseconds. */
  const RETENTION := 7 * 24 * 60 * 60 * 1000

  datatype Outcome = Outcome(status: string, result: string, errorMessage: string, retryable: bool, completedAt: int64)

  type Outcomes = map<string, Outcome>

  ghost function Unexpired(values: Outcomes, cutoff: int): Outcomes {
    map id | id in values && values[id].completedAt >= cutoff :: values[id]
  }

  /** What pruning promises about the entries it leaves. It may choose among entries of
      the same age. */
  ghost predicate Pruned(before: Outcomes, cutoff: int, after: Outcomes) {
    var alive := Unexpired(before, cutoff);
    && after.Keys <= alive.Keys
    && (forall id :: id in after ==> after[id] == before[id])
    && |after| == (if |alive| <= MAX_OUTCOMES then |alive| else MAX_OUTCOMES)
    && (forall gone, kept :: gone in alive && gone !in after && kept in after ==>
      alive[gone].completedAt <= after[kept].completedAt)
  }

  /** Entries that the eviction loop can never pick: it looks for a time below the
      maximum, and when there is none it deletes the empty id. */
  ghost function Immortal(values: Outcomes, cutoff: int): set<string> {
    set id | id in values && id != "" && values[id].completedAt == MAX_INT64 && values[id].completedAt >= cutoff
  }

  lemma SubsetSize<T>(a: set<T>, b: set<T>)
    requires a <= b
    ensures |a| <= |b|
    ensures |a| == |b| ==> a == b
  {
    assert b == a + (b - a);
  }

  /** pruneTaskOutcomes. The agent's loop never returns when its evictions stop making
      progress; `stuck` reports that, and happens exactly when more than 2000 unexpired
      entries are immortal. */
  method PruneTaskOutcomes(values: Outcomes, cutoff: int) returns (kept: Outcomes, stuck: bool)
    ensures !stuck ==> Pruned(values, cutoff, kept)
    ensures stuck <==> |Immortal(values, cutoff)| > MAX_OUTCOMES
  {
    kept := DropExpired(values, cutoff);
    stuck := false;
    while |kept| > MAX_OUTCOMES && !stuck
      invariant Evicting(values, cutoff, kept)
      invariant stuck ==> kept.Keys <= Immortal(values, cutoff) && |kept| > MAX_OUTCOMES
      decreases |kept|, !stuck
    {
      var oldestID := FindOldest(kept);
      if oldestID in kept {
        EvictOne(values, cutoff, kept, oldestID);
        kept := kept - {oldestID};
      } else {
        stuck := true;
      }
    }
    EvictionEnds(values, cutoff, kept);
  }

  /** The entries left while the eviction loop is at work. */
  ghost predicate Evicting(values: Outcomes, cutoff: int, kept: Outcomes) {
    var alive := Unexpired(values, cutoff);
    && kept.Keys <= alive.Keys && (forall id :: id in kept ==> kept[id] == alive[id])
    && Immortal(values, cutoff) <= kept.Keys
    && (|kept| >= MAX_OUTCOMES || kept == alive)
    && forall gone, left :: gone in alive && gone !in kept && left in kept ==>
         alive[gone].completedAt <= kept[left].completedAt
  }

  lemma EvictOne(values: Outcomes, cutoff: int, kept: Outcomes, id: string)
    requires Evicting(values, cutoff, kept) && |kept| > MAX_OUTCOMES && id in kept
    requires forall other :: other in kept ==> kept[id].completedAt <= kept[other].completedAt
    requires kept[id].completedAt == MAX_INT64 ==> id == ""
    ensures Evicting(values, cutoff, kept - {id}) && |kept - {id}| == |kept| - 1
  {
    var fewer := kept - {id};
    assert fewer.Keys == kept.Keys - {id};
  }

  lemma EvictionEnds(values: Outcomes, cutoff: int, kept: Outcomes)
    requires Evicting(values, cutoff, kept)
    ensures |kept| <= MAX_OUTCOMES ==> Pruned(values, cutoff, kept) && |Immortal(values, cutoff)| <= MAX_OUTCOMES
    ensures kept.Keys <= Immortal(values, cutoff) ==> |Immortal(values, cutoff)| == |kept|
  {
    var alive := Unexpired(values, cutoff);
    SubsetSize(Immortal(values, cutoff), kept.Keys);
    SubsetSize(kept.Keys, alive.Keys);
    if kept.Keys == alive.Keys {
      assert kept == alive;
    }
    if kept.Keys <= Immortal(values, cutoff) {
      assert kept.Keys == Immortal(values, cutoff);
    }
  }

  method DropExpired(values: Outcomes, cutoff: int) returns (kept: Outcomes)
    ensures kept == Unexpired(values, cutoff)
  {
    kept := values;
    var todo := values.Keys;
    while todo != {}
      invariant todo <= values.Keys
      invariant forall id :: id in kept <==> id in values && (id in todo || values[id].completedAt >= cutoff)
      invariant forall id :: id in kept ==> kept[id] == values[id]
      decreases |todo|
    {
      var id :| id in todo;
      if values[id].completedAt < cutoff {
        kept := kept - {id};
      }
      todo := todo - {id};
    }
  }

  /** The inner scan, in any order: some oldest entry, or "" when all are at the maximum. */
  method FindOldest(values: Outcomes) returns (oldestID: string)
    ensures oldestID in values ==> forall id :: id in values ==> values[oldestID].completedAt <= values[id].completedAt
    ensures oldestID !in values || values[oldestID].completedAt == MAX_INT64 ==>
              oldestID == "" && forall id :: id in values ==> values[id].completedAt == MAX_INT64
  {
    oldestID := "";
    var oldestAt: int64 := MAX_INT64;
    var todo := values.Keys;
    while todo != {}
      invariant todo <= values.Keys
      invariant forall id :: id in values && id !in todo ==> oldestAt <= values[id].completedAt
      invariant oldestAt < MAX_INT64 ==> oldestID in values && values[oldestID].completedAt == oldestAt
      invariant oldestAt == MAX_INT64 ==> oldestID == ""
      decreases |todo|
    {
      var id :| id in todo;
      if values[id].completedAt < oldestAt {
        oldestID, oldestAt := id, values[id].completedAt;
      }
      todo := todo - {id};
    }
  }

  ghost predicate NoneOlder(values: Outcomes, alive: Outcomes, value: Outcome)
    requires alive.Keys <= values.Keys
  {
    forall other :: other in alive ==> values[other].completedAt >= value.completedAt
  }

  /** Pruning evicts a fresh outcome only when there are too many and none is older ... */
  lemma EvictedOnlyAsOldest(values: Outcomes, id: string, value: Outcome, cutoff: int, after: Outcomes)
    requires |values| <= MAX_OUTCOMES && value.completedAt >= cutoff
    requires Pruned(values[id := value], cutoff, after) && id !in after
    ensures var alive := Unexpired(values[id := value], cutoff);
            |alive| > MAX_OUTCOMES && NoneOlder(values[id := value], alive, value)
  {
    var alive := Unexpired(values[id := value], cutoff);
    assert after.Keys <= alive.Keys - {id} && alive.Keys <= values.Keys + {id};
    SubsetSize(after.Keys, alive.Keys - {id});
    SubsetSize(alive.Keys, values.Keys + {id});
  }

  /** ... and then it may. */
  lemma OldestMayGo(values: Outcomes, id: string, value: Outcome, cutoff: int)
    requires |values| <= MAX_OUTCOMES && value.completedAt >= cutoff
    requires var alive := Unexpired(values[id := value], cutoff);
             |alive| > MAX_OUTCOMES && NoneOlder(values[id := value], alive, value)
    ensures Pruned(values[id := value], cutoff, Unexpired(values[id := value], cutoff) - {id})
  {
    var alive := Unexpired(values[id := value], cutoff);
    assert alive.Keys <= values.Keys + {id};
    SubsetSize(alive.Keys, values.Keys + {id});
    assert (alive - {id}).Keys == alive.Keys - {id};
  }

  /** A fresh outcome survives its own put, however pruning chooses, exactly when nothing
      has to be evicted or some other unexpired entry is strictly older. */
  lemma FreshPutSurvives(values: Outcomes, id: string, value: Outcome, cutoff: int)
    requires |values| <= MAX_OUTCOMES && value.completedAt >= cutoff
    ensures var stored := values[id := value];
            (forall after :: Pruned(stored, cutoff, after) ==> id in after) <==>
            (|Unexpired(stored, cutoff)| <= MAX_OUTCOMES ||
             exists other :: other in Unexpired(stored, cutoff) && stored[other].completedAt < value.completedAt)
  {
    var stored := values[id := value];
    var alive := Unexpired(stored, cutoff);
    forall after | Pruned(stored, cutoff, after) && id !in after
      ensures |alive| > MAX_OUTCOMES && NoneOlder(stored, alive, value)
    {
      EvictedOnlyAsOldest(values, id, value, cutoff, after);
    }
    if |alive| > MAX_OUTCOMES && NoneOlder(stored, alive, value) {
      OldestMayGo(values, id, value, cutoff);
    }
  }

  /** `n` outcomes completed at the end of time. */
  ghost function Timeless(n: nat): Outcomes {
    if n == 0 then map[] else Timeless(n - 1)[LongName(n) := Outcome("completed", "", "", false, MAX_INT64)]
  }

  function LongName(n: nat): (name: string)
    ensures |name| == n
  {
    seq(n, _ => 'x')
  }

  lemma {:induction false} TimelessNames(n: nat, id: string)
    requires id in Timeless(n)
    ensures 0 < |id| <= n && Timeless(n)[id].completedAt == MAX_INT64
    decreases n
  {
    if n > 0 && id in Timeless(n - 1) {
      TimelessNames(n - 1, id);
    }
  }

  lemma {:induction false} LongerNameIsNew(n: nat, id: string)
    requires |id| > n
    ensures id !in Timeless(n)
  {
    if id in Timeless(n) {
      TimelessNames(n, id);
    }
  }

  lemma {:induction false} TimelessKeys(n: nat)
    requires n > 0
    ensures Timeless(n).Keys == Timeless(n - 1).Keys + {LongName(n)}
  {
  }

  /** So there are stores on which pruning hangs. */
  lemma {:induction false} TimelessAreImmortal(n: nat, cutoff: int)
    requires cutoff <= MAX_INT64
    ensures Immortal(Timeless(n), cutoff) == Timeless(n).Keys && |Timeless(n).Keys| == n
    decreases n
  {
    forall id ensures id in Immortal(Timeless(n), cutoff) <==> id in Timeless(n) {
      if id in Timeless(n) {
        TimelessNames(n, id);
      }
    }
    if n > 0 {
      TimelessAreImmortal(n - 1, cutoff);
      TimelessKeys(n);
      LongerNameIsNew(n - 1, LongName(n));
    }
  }

  class TaskResultStore {
    var values: Outcomes

    constructor ()
      ensures values == map[]
    {
      values := map[];
    }

    method Get(id: string) returns (value: Option<Outcome>)
      ensures value == if id in values then Some(values[id]) else None
    {
      if id in values {
        value := Some(values[id]);
      } else {
        value := None;
      }
    }

    /** `hung`: the pruning inside never returns, so that nothing is written. */
    method Put(id: string, value: Outcome, now: int, writable: bool) returns (written: bool, hung: bool)
      modifies this
      ensures hung <==> |Immortal(old(values)[id := value], now - RETENTION)| > MAX_OUTCOMES
      ensures written <==> !hung && writable
      ensures if written then Pruned(old(values)[id := value], now - RETENTION, values) else values == old(values)
    {
      var pruned, stuck := PruneTaskOutcomes(values[id := value], now - RETENTION);
      if stuck {
        return false, true;
      }
      if !writable {
        return false, false;
      }
      values := pruned;
      written, hung := true, false;
    }

    method Remove(id: string)
      modifies this
      ensures values == old(values) - {id}
    {
      values := values - {id};
    }
  }
}
