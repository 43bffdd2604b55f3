/** Measuring a worker's workspace: a bounded scan with an explicit stack of directories. */
module WorkspaceScan {

  const MAX_ENTRIES := 2048
  const WORD := 0x1_0000_0000_0000_0000

  /** What a directory read yields. `Other` is anything that is no regular file, or whose
      information could not be read. */
  datatype Entry =
    | Subdirectory(contents: Directory)
    | SymbolicLink
    | Regular(size: int, blocks: int)
    | Other

  /** A directory when the scan comes to open it; a read error may end its listing early. */
  datatype Directory =
    | Missing
    | Unreadable
    | Listing(entries: seq<Entry>, complete: bool)

  /** What the scan counts. */
  datatype Measure = EntryCount | FileCount | DirectoryCount | LogicalBytes | AllocatedBytes

  /** What one entry adds by itself. */
  function One(entry: Entry, m: Measure): nat {
    match m
    case EntryCount => 1
    case FileCount => if entry.Regular? then 1 else 0
    case DirectoryCount => if entry.Subdirectory? then 1 else 0
    case LogicalBytes => if entry.Regular? && entry.size > 0 then entry.size else 0
    case AllocatedBytes => if entry.Regular? && entry.blocks > 0 then entry.blocks * 512 else 0
  }

  function Entries(d: Directory): seq<Entry> {
    if d.Listing? then d.entries else []
  }

  // ---- The tree's own totals ------------------------------------------------------------

  /** The first `n` entries of a directory and everything below them. */
  function TreeUpTo(d: Directory, n: nat, m: Measure): nat
    requires n <= |Entries(d)|
    decreases d, n
  {
    if n == 0 then 0 else TreeUpTo(d, n - 1, m) + One(d.entries[n - 1], m) + Below(d.entries[n - 1], m)
  }

  function Below(entry: Entry, m: Measure): nat
    decreases entry, 0
  {
    if entry.Subdirectory? then TreeUpTo(entry.contents, |Entries(entry.contents)|, m) else 0
  }

  function Tree(d: Directory, m: Measure): nat {
    TreeUpTo(d, |Entries(d)|, m)
  }

  predicate OwnFlaw(d: Directory) {
    d.Unreadable? || (d.Listing? && !d.complete)
  }

  predicate FlawedUpTo(d: Directory, n: nat)
    requires n <= |Entries(d)|
    decreases d, n
  {
    n > 0 && (FlawedUpTo(d, n - 1) || FlawBelow(d.entries[n - 1]))
  }

  predicate FlawBelow(entry: Entry)
    decreases entry, 0
  {
    entry.Subdirectory? && (OwnFlaw(entry.contents) || FlawedUpTo(entry.contents, |Entries(entry.contents)|))
  }

  /** Something in the tree could not be read to the end. */
  predicate Flawed(d: Directory) {
    OwnFlaw(d) || FlawedUpTo(d, |Entries(d)|)
  }

  // ---- The order of the scan --------------------------------------------------------------

  /** The subdirectories among the first `n` entries, as the scan pushes them. */
  function Pushed(d: Directory, n: nat): seq<Directory>
    requires n <= |Entries(d)|
  {
    if n == 0 then []
    else Pushed(d, n - 1) + PushedBy(d.entries[n - 1])
  }

  function StackUpTo(stack: seq<Directory>, n: nat, m: Measure): nat
    requires n <= |stack|
  {
    if n == 0 then 0 else StackUpTo(stack, n - 1, m) + Tree(stack[n - 1], m)
  }

  function StackTotal(stack: seq<Directory>, m: Measure): nat {
    StackUpTo(stack, |stack|, m)
  }

  /** The counts of the first `n` of some entries, each by itself. */
  function Tally(entries: seq<Entry>, n: nat, m: Measure): nat
    requires n <= |entries|
  {
    if n == 0 then 0 else Tally(entries, n - 1, m) + One(entries[n - 1], m)
  }

  lemma {:induction false} StackPrefix(a: seq<Directory>, b: seq<Directory>, n: nat, m: Measure)
    requires n <= |a|
    ensures StackUpTo(a + b, n, m) == StackUpTo(a, n, m)
    decreases n
  {
    if n > 0 {
      StackPrefix(a, b, n - 1, m);
    }
  }

  lemma {:induction false} StackAppend(a: seq<Directory>, b: seq<Directory>, n: nat, m: Measure)
    requires n <= |b|
    ensures StackUpTo(a + b, |a| + n, m) == StackTotal(a, m) + StackUpTo(b, n, m)
    decreases n
  {
    if n == 0 {
      StackPrefix(a, b, |a|, m);
    } else {
      StackAppend(a, b, n - 1, m);
      assert (a + b)[|a| + n - 1] == b[n - 1];
    }
  }

  lemma {:induction false} TallyPrefix(a: seq<Entry>, b: seq<Entry>, n: nat, m: Measure)
    requires n <= |a|
    ensures Tally(a + b, n, m) == Tally(a, n, m)
    decreases n
  {
    if n > 0 {
      TallyPrefix(a, b, n - 1, m);
    }
  }

  lemma {:induction false} TallyAppend(a: seq<Entry>, b: seq<Entry>, n: nat, m: Measure)
    requires n <= |b|
    ensures Tally(a + b, |a| + n, m) == Tally(a, |a|, m) + Tally(b, n, m)
    decreases n
  {
    if n == 0 {
      TallyPrefix(a, b, |a|, m);
    } else {
      TallyAppend(a, b, n - 1, m);
      assert (a + b)[|a| + n - 1] == b[n - 1];
    }
  }

  lemma {:induction false} SingleTotal(d: Directory, m: Measure)
    ensures StackTotal([d], m) == Tree(d, m)
  {
    var stack := [d];
    assert StackUpTo(stack, |stack|, m) == StackUpTo(stack, |stack| - 1, m) + Tree(stack[|stack| - 1], m);
  }

  /** The directories still to be opened: the measure of the scan's termination. */
  function Unopened(stack: seq<Directory>): nat {
    |stack| + StackTotal(stack, DirectoryCount)
  }

  function Popped(stack: seq<Directory>): seq<Directory>
    requires stack != []
  {
    stack[..|stack| - 1] + Pushed(stack[|stack| - 1], |Entries(stack[|stack| - 1])|)
  }

  /** Every entry, in the order in which a scan without limits comes to it. */
  ghost function Visits(stack: seq<Directory>): seq<Entry>
    decreases Unopened(stack)
  {
    if stack == [] then []
    else
      PoppingShrinks(stack);
      Entries(stack[|stack| - 1]) + Visits(Popped(stack))
  }

  function PushedBy(entry: Entry): seq<Directory> {
    if entry.Subdirectory? then [entry.contents] else []
  }

  lemma {:induction false} PushedTotal(d: Directory, n: nat, m: Measure)
    requires n <= |Entries(d)|
    ensures TreeUpTo(d, n, m) == Tally(Entries(d), n, m) + StackTotal(Pushed(d, n), m)
    decreases n
  {
    if n > 0 {
      var entry := d.entries[n - 1];
      PushedTotal(d, n - 1, m);
      StackAppend(Pushed(d, n - 1), PushedBy(entry), |PushedBy(entry)|, m);
      PushedByTotal(entry, m);
    }
  }

  lemma {:induction false} PushedByTotal(entry: Entry, m: Measure)
    ensures StackTotal(PushedBy(entry), m) == Below(entry, m)
  {
    if entry.Subdirectory? {
      SingleTotal(entry.contents, m);
    }
  }

  lemma {:induction false} PushedCount(d: Directory, n: nat)
    requires n <= |Entries(d)|
    ensures |Pushed(d, n)| == Tally(Entries(d), n, DirectoryCount)
    decreases n
  {
    if n > 0 {
      PushedCount(d, n - 1);
    }
  }

  /** Opening a directory trades its tree for its entries and its subdirectories' trees. */
  lemma {:induction false} PoppedTotal(stack: seq<Directory>, m: Measure)
    requires stack != []
    ensures var d := stack[|stack| - 1];
            StackTotal(stack, m) == Tally(Entries(d), |Entries(d)|, m) + StackTotal(Popped(stack), m)
  {
    var rest, d := stack[..|stack| - 1], stack[|stack| - 1];
    var pushed := Pushed(d, |Entries(d)|);
    PushedTotal(d, |Entries(d)|, m);
    StackAppend(rest, pushed, |pushed|, m);
    StackPrefix(rest, [d], |rest|, m);
    assert rest + [d] == stack;
  }

  lemma {:induction false} PoppingShrinks(stack: seq<Directory>)
    requires stack != []
    ensures Unopened(Popped(stack)) < Unopened(stack)
  {
    PoppedTotal(stack, DirectoryCount);
    PushedCount(stack[|stack| - 1], |Entries(stack[|stack| - 1])|);
  }

  /** The scan order holds every entry of the trees once. */
  lemma {:induction false} VisitsTotal(stack: seq<Directory>, m: Measure)
    ensures Tally(Visits(stack), |Visits(stack)|, m) == StackTotal(stack, m)
    decreases Unopened(stack)
  {
    if stack != [] {
      var d := stack[|stack| - 1];
      PoppingShrinks(stack);
      VisitsTotal(Popped(stack), m);
      TallyAppend(Entries(d), Visits(Popped(stack)), |Visits(Popped(stack))|, m);
      PoppedTotal(stack, m);
    }
  }

  lemma {:induction false} TallyCounts(entries: seq<Entry>, n: nat)
    requires n <= |entries|
    ensures Tally(entries, n, EntryCount) == n
    ensures Tally(entries, n, FileCount) + Tally(entries, n, DirectoryCount) <= n
    decreases n
  {
    if n > 0 {
      TallyCounts(entries, n - 1);
    }
  }

  ghost predicate StackFlawed(stack: seq<Directory>) {
    exists k :: 0 <= k < |stack| && Flawed(stack[k])
  }

  lemma {:induction false} PushedFlaws(d: Directory, n: nat)
    requires n <= |Entries(d)|
    ensures StackFlawed(Pushed(d, n)) <==> FlawedUpTo(d, n)
    decreases n
  {
    if n > 0 {
      PushedFlaws(d, n - 1);
      var last := PushedBy(d.entries[n - 1]);
      FlawsAppend(Pushed(d, n - 1), last);
      assert StackFlawed(last) <==> last != [] && Flawed(last[0]);
    }
  }

  lemma {:induction false} FlawsAppend(a: seq<Directory>, b: seq<Directory>)
    ensures StackFlawed(a + b) <==> StackFlawed(a) || StackFlawed(b)
  {
    if StackFlawed(a) {
      var k :| 0 <= k < |a| && Flawed(a[k]);
      assert Flawed((a + b)[k]);
    }
    if StackFlawed(b) {
      var k :| 0 <= k < |b| && Flawed(b[k]);
      assert Flawed((a + b)[|a| + k]);
    }
  }

  lemma {:induction false} PoppingFlaws(stack: seq<Directory>)
    requires stack != []
    ensures StackFlawed(stack) <==> OwnFlaw(stack[|stack| - 1]) || StackFlawed(Popped(stack))
  {
    var rest, d := stack[..|stack| - 1], stack[|stack| - 1];
    assert rest + [d] == stack;
    FlawsAppend(rest, [d]);
    assert StackFlawed([d]) <==> Flawed([d][0]);
    FlawsAppend(rest, Pushed(d, |Entries(d)|));
    PushedFlaws(d, |Entries(d)|);
  }

  // ---- The scan ------------------------------------------------------------------------------

  /** The scan's counters; the byte sums are 64-bit. */
  datatype Counters = Counters(entries: nat, files: nat, directories: nat, logicalBytes: nat, allocatedBytes: nat)

  /** The counters hold the counts of the first entries of an order. */
  ghost predicate Hold(counters: Counters, order: seq<Entry>) {
    && counters.entries <= |order|
    && counters.entries == Tally(order, counters.entries, EntryCount)
    && counters.files == Tally(order, counters.entries, FileCount)
    && counters.directories == Tally(order, counters.entries, DirectoryCount)
    && counters.logicalBytes == Tally(order, counters.entries, LogicalBytes) % WORD
    && counters.allocatedBytes == Tally(order, counters.entries, AllocatedBytes) % WORD
  }

  /** The counters hold the counts of a whole tree. */
  ghost predicate HoldTree(counters: Counters, root: Directory) {
    && counters.entries == Tree(root, EntryCount)
    && counters.files == Tree(root, FileCount)
    && counters.directories == Tree(root, DirectoryCount)
    && counters.logicalBytes == Tree(root, LogicalBytes) % WORD
    && counters.allocatedBytes == Tree(root, AllocatedBytes) % WORD
  }

  /** Counting one entry, in 64-bit arithmetic. */
  function Count(counters: Counters, entry: Entry): Counters {
    var seen := counters.(entries := counters.entries + 1);
    match entry
    case Subdirectory(_) => seen.(directories := seen.directories + 1)
    case SymbolicLink => seen
    case Other => seen
    case Regular(size, blocks) =>
      seen.(files := seen.files + 1,
            logicalBytes := if size > 0 then (seen.logicalBytes + size) % WORD else seen.logicalBytes,
            allocatedBytes := if blocks > 0 then (seen.allocatedBytes + blocks * 512 % WORD) % WORD
              else seen.allocatedBytes)
  }

  lemma {:induction false} WrapAdds(a: nat, b: nat)
    ensures (a % WORD + b) % WORD == (a + b) % WORD
    ensures (a % WORD + b % WORD) % WORD == (a + b) % WORD
  {
  }

  /** The scan stops at the end, at the entry limit or at the deadline, whichever is first. */
  ghost predicate StopsAt(n: nat, length: nat, expired: nat -> bool) {
    && n <= length && n <= MAX_ENTRIES
    && (forall k :: 0 <= k < n ==> !expired(k))
    && (n < length ==> n == MAX_ENTRIES || expired(n))
  }

  /** Where a scan stands: what it has counted of the order. */
  ghost predicate Scanned(counters: Counters, order: seq<Entry>, expired: nat -> bool) {
    Hold(counters, order) && StopsAt(counters.entries, counters.entries, expired)
  }

  lemma {:induction false} CountOneMore(counters: Counters, entry: Entry, order: seq<Entry>, expired: nat -> bool)
    requires Scanned(counters, order, expired)
    requires counters.entries < |order| && order[counters.entries] == entry
    requires counters.entries < MAX_ENTRIES && !expired(counters.entries)
    ensures Scanned(Count(counters, entry), order, expired) && Count(counters, entry).entries == counters.entries + 1
  {
    var n := counters.entries;
    WrapAdds(Tally(order, n, LogicalBytes), One(entry, LogicalBytes));
    WrapAdds(Tally(order, n, AllocatedBytes), One(entry, AllocatedBytes));
    assert forall m :: Tally(order, n + 1, m) == Tally(order, n, m) + One(entry, m);
  }

  /** `expired(n)` says whether the deadline has passed when entry `n` is about to be counted.
      The scan counts exactly the first entries of its order, up to where it stops. */
  method CollectWorkspaceMetrics(root: Directory, expired: nat -> bool)
    returns (counters: Counters, truncated: bool, incomplete: bool)
    ensures StopsAt(counters.entries, |Visits([root])|, expired)
    ensures Hold(counters, Visits([root]))
    ensures truncated <==> counters.entries < |Visits([root])|
    ensures incomplete ==> Flawed(root)
    ensures !truncated ==> (incomplete <==> Flawed(root))
  {
    ghost var order := Visits([root]);
    counters, truncated, incomplete := NoCounts(order, expired), false, false;
    var stack := [root];
    OnlyRootFlawed(root);
    while stack != [] && !truncated
      invariant Underway(root, order, stack, counters, truncated, incomplete, expired)
      decreases if truncated then 0 else 1 + Unopened(stack)
    {
      var current := stack[|stack| - 1];
      ghost var before, start, found := stack, counters, incomplete;
      PoppingShrinks(stack);
      OrderOfDirectory(stack, order, counters.entries);
      counters, truncated, stack := ScanDirectory(stack, expired, counters, order);
      if !truncated && OwnFlaw(current) {
        incomplete := true;
      }
      RoundKeepsUnderway(root, order, before, start, found, stack, counters, truncated, expired);
    }
    assert !truncated ==> Visits(stack) == [];
  }

  /** The invariant of the outer loop. */
  ghost predicate Underway(root: Directory, order: seq<Entry>, stack: seq<Directory>, counters: Counters,
                           truncated: bool, incomplete: bool, expired: nat -> bool) {
    && Scanned(counters, order, expired)
    && (truncated ==> CutShort(counters.entries, order, expired))
    && (!truncated ==> order[counters.entries..] == Visits(stack))
    && (incomplete ==> Flawed(root))
    && (!truncated ==> (incomplete || StackFlawed(stack) <==> Flawed(root)))
  }

  lemma {:induction false} RoundKeepsUnderway(root: Directory, order: seq<Entry>, before: seq<Directory>,
                                              start: Counters, found: bool, stack: seq<Directory>,
                                              counters: Counters, truncated: bool,
                                              expired: nat -> bool)
    requires before != [] && Underway(root, order, before, start, false, found, expired)
    requires Scanned(counters, order, expired)
    requires if truncated then CutShort(counters.entries, order, expired)
             else stack == Popped(before) && counters.entries == start.entries + |Entries(before[|before| - 1])|
    ensures Underway(root, order, stack, counters, truncated,
                     found || (!truncated && OwnFlaw(before[|before| - 1])), expired)
  {
    PoppingFlaws(before);
    OrderOfDirectory(before, order, start.entries);
  }

  ghost predicate CutShort(n: nat, order: seq<Entry>, expired: nat -> bool) {
    n < |order| && (n == MAX_ENTRIES || expired(n))
  }

  function NoCounts(ghost order: seq<Entry>, expired: nat -> bool): (counters: Counters)
    ensures Scanned(counters, order, expired) && counters.entries == 0
  {
    Counters(0, 0, 0, 0, 0)
  }

  lemma {:induction false} OnlyRootFlawed(root: Directory)
    ensures StackFlawed([root]) <==> Flawed(root)
  {
    assert [root][0] == root;
  }

  method ScanDirectory(before: seq<Directory>, expired: nat -> bool, start: Counters, ghost order: seq<Entry>)
    returns (counters: Counters, truncated: bool, stack: seq<Directory>)
    requires before != [] && Scanned(start, order, expired)
    requires ComeNext(order, start.entries, Entries(before[|before| - 1]))
    ensures Scanned(counters, order, expired)
    ensures truncated ==> CutShort(counters.entries, order, expired)
    ensures !truncated ==>
              stack == Popped(before) && counters.entries == start.entries + |Entries(before[|before| - 1])|
  {
    var current := before[|before| - 1];
    stack := before[..|before| - 1];
    counters, truncated := start, false;
    var entries := Entries(current);
    for k := 0 to |entries|
      invariant counters.entries == start.entries + k && Scanned(counters, order, expired)
      invariant stack == before[..|before| - 1] + Pushed(current, k)
    {
      if counters.entries >= MAX_ENTRIES || expired(counters.entries) {
        truncated := true;
        break;
      }
      CountOneMore(counters, entries[k], order, expired);
      PushNext(before[..|before| - 1], current, k);
      counters := Count(counters, entries[k]);
      if entries[k].Subdirectory? {
        stack := stack + [entries[k].contents];
      }
    }
  }

  lemma {:induction false} PushNext(rest: seq<Directory>, d: Directory, k: nat)
    requires k < |Entries(d)|
    ensures rest + Pushed(d, k + 1) == rest + Pushed(d, k) + PushedBy(Entries(d)[k])
  {
  }

  ghost predicate ComeNext(order: seq<Entry>, start: nat, entries: seq<Entry>) {
    start + |entries| <= |order| && forall k :: 0 <= k < |entries| ==> order[start + k] == entries[k]
  }

  lemma {:induction false} OrderOfDirectory(before: seq<Directory>, order: seq<Entry>, start: nat)
    requires before != [] && start <= |order| && order[start..] == Visits(before)
    ensures var entries := Entries(before[|before| - 1]);
            && ComeNext(order, start, entries)
            && order[start + |entries|..] == Visits(Popped(before))
  {
    var entries := Entries(before[|before| - 1]);
    var rest := Visits(Popped(before));
    assert order[start..] == entries + rest;
    SuffixSplits(order, start, entries, rest);
  }

  lemma {:induction false} SuffixSplits(order: seq<Entry>, start: nat, entries: seq<Entry>, rest: seq<Entry>)
    requires start <= |order| && order[start..] == entries + rest
    ensures ComeNext(order, start, entries) && order[start + |entries|..] == rest
  {
    var suffix := order[start..];
    assert suffix[|entries|..] == rest && suffix[|entries|..] == order[start + |entries|..];
    assert forall k :: 0 <= k < |entries| ==> order[start + k] == suffix[k];
  }

  /** A scan that was not cut short counted the whole tree; with time enough it is cut short
      exactly when the tree is too large; and it says whether something could not be read. */
  method MeasureWorkspace(root: Directory, expired: nat -> bool)
    returns (counters: Counters, truncated: bool, incomplete: bool)
    ensures counters.entries <= MAX_ENTRIES && counters.files + counters.directories <= counters.entries
    ensures !truncated ==> HoldTree(counters, root)
    ensures (forall k :: !expired(k)) ==> (truncated <==> Tree(root, EntryCount) > MAX_ENTRIES)
    ensures !truncated ==> (incomplete <==> Flawed(root))
  {
    counters, truncated, incomplete := CollectWorkspaceMetrics(root, expired);
    ghost var order := Visits([root]);
    TallyCounts(order, |order|);
    TallyCounts(order, counters.entries);
    OrderCountsTree(root, EntryCount);
    OrderCountsTree(root, FileCount);
    OrderCountsTree(root, DirectoryCount);
    OrderCountsTree(root, LogicalBytes);
    OrderCountsTree(root, AllocatedBytes);
  }

  lemma {:induction false} OrderCountsTree(root: Directory, m: Measure)
    ensures Tally(Visits([root]), |Visits([root])|, m) == Tree(root, m)
  {
    VisitsTotal([root], m);
    SingleTotal(root, m);
  }
}
