/** What the totals of a workspace tree count, said by paths of entry indices. */
module WorkspaceTotals {
  import opened Basics
  import opened WorkspaceScan

  /** The entry at the end of a path of indices. */
  function EntryAt(d: Directory, path: seq<nat>): Option<Entry>
    decreases |path|
  {
    if path == [] || path[0] >= |Entries(d)| then None
    else if |path| == 1 then Some(d.entries[path[0]])
    else if d.entries[path[0]].Subdirectory? then EntryAt(d.entries[path[0]].contents, path[1..])
    else None
  }

  /** A measure counts its units: entries, files, directories, or single bytes. */
  predicate IsUnit(entry: Entry, m: Measure, b: nat) {
    match m
    case EntryCount => b == 0
    case FileCount => entry.Regular? && b == 0
    case DirectoryCount => entry.Subdirectory? && b == 0
    case LogicalBytes => entry.Regular? && b < entry.size
    case AllocatedBytes => entry.Regular? && b < entry.blocks * 512
  }

  type Unit = (seq<nat>, nat)

  /** A unit of some entry of the tree whose path starts below `n`. */
  predicate UnitIn(d: Directory, n: nat, m: Measure, u: Unit) {
    u.0 != [] && u.0[0] < n && EntryAt(d, u.0).Some? && IsUnit(EntryAt(d, u.0).value, m, u.1)
  }

  ghost predicate AreUnits(units: set<Unit>, d: Directory, n: nat, m: Measure) {
    forall u :: u in units <==> UnitIn(d, n, m, u)
  }

  lemma WeightIsUnits(entry: Entry, m: Measure, b: nat)
    ensures IsUnit(entry, m, b) <==> b < One(entry, m)
  {
  }

  lemma {:induction false} OwnUnits(i: nat, weight: nat) returns (own: set<Unit>)
    ensures |own| == weight && forall u :: u in own <==> u.0 == [i] && u.1 < weight
    decreases weight
  {
    if weight == 0 {
      own := {};
    } else {
      own := OwnUnits(i, weight - 1);
      own := own + {([i], weight - 1)};
    }
  }

  /** The units one level down, seen from the directory above. */
  lemma {:induction false} MovedUnits(i: nat, units: set<Unit>) returns (moved: set<Unit>)
    ensures |moved| == |units|
    ensures forall u :: u in moved <==> u.0 != [] && u.0[0] == i && (u.0[1..], u.1) in units
    decreases |units|
  {
    if units == {} {
      moved := {};
    } else {
      var v :| v in units;
      var w: Unit := ([i] + v.0, v.1);
      moved := MovedUnits(i, units - {v});
      assert w.0[1..] == v.0;
      moved := moved + {w};
      forall u: Unit ensures u in moved <==> u.0 != [] && u.0[0] == i && (u.0[1..], u.1) in units {
        if u.0 != [] && u.0[0] == i && u.0[1..] == v.0 {
          assert u.0 == [i] + v.0;
        }
      }
    }
  }

  lemma Together(a: set<Unit>, b: set<Unit>) returns (both: set<Unit>)
    requires a !! b
    ensures |both| == |a| + |b| && forall u :: u in both <==> u in a || u in b
  {
    both := a + b;
  }

  lemma {:induction false} Units(d: Directory, n: nat, m: Measure) returns (units: set<Unit>)
    requires n <= |Entries(d)|
    ensures AreUnits(units, d, n, m) && |units| == TreeUpTo(d, n, m)
    decreases d, n
  {
    if n == 0 {
      units := {};
    } else {
      var entry := d.entries[n - 1];
      var before := Units(d, n - 1, m);
      var own := OwnUnits(n - 1, One(entry, m));
      var below := UnitsBelow(entry, m);
      var moved := MovedUnits(n - 1, below);
      assert forall u :: u in before ==> u !in own && u !in moved;
      units := Together(before, own);
      units := Together(units, moved);
      forall u: Unit ensures u in units <==> UnitIn(d, n, m, u) {
        UnitsOfEntry(d, n, m, u);
      }
    }
  }

  lemma {:induction false} UnitsBelow(entry: Entry, m: Measure) returns (units: set<Unit>)
    ensures forall u :: u in units <==> UnitBelow(entry, m, u)
    ensures |units| == Below(entry, m)
    decreases entry, 0
  {
    units := {};
    if entry.Subdirectory? {
      units := Units(entry.contents, |Entries(entry.contents)|, m);
    }
  }

  predicate UnitBelow(entry: Entry, m: Measure, u: Unit) {
    entry.Subdirectory? && UnitIn(entry.contents, |Entries(entry.contents)|, m, u)
  }

  /** A unit lies in an earlier entry, is the last entry's own, or lies below the last entry. */
  lemma UnitsOfEntry(d: Directory, n: nat, m: Measure, u: Unit)
    requires 0 < n <= |Entries(d)|
    ensures var entry := d.entries[n - 1];
            UnitIn(d, n, m, u) <==>
            || UnitIn(d, n - 1, m, u)
            || (u.0 == [n - 1] && u.1 < One(entry, m))
            || (u.0 != [] && u.0[0] == n - 1 && UnitBelow(entry, m, (u.0[1..], u.1)))
  {
    var entry := d.entries[n - 1];
    WeightIsUnits(entry, m, u.1);
    if u.0 != [] && u.0[0] == n - 1 {
      if |u.0| == 1 {
        assert u.0 == [n - 1] && u.0[1..] == [];
        assert EntryAt(d, u.0) == Some(entry);
      } else {
        assert u.0 != [n - 1] && u.0[1..] != [];
        assert entry.Subdirectory? ==> EntryAt(d, u.0) == EntryAt(entry.contents, u.0[1..]);
      }
    }
  }

  /** Each total of a tree is the number of its units: the files, say, that some path of
      indices leads to, or the bytes of all of them. */
  lemma TotalsCountUnits(root: Directory, m: Measure, units: set<Unit>)
    requires forall u: Unit :: u in units <==> EntryAt(root, u.0).Some? && IsUnit(EntryAt(root, u.0).value, m, u.1)
    ensures |units| == Tree(root, m)
  {
    var n := |Entries(root)|;
    var found := Units(root, n, m);
    forall u: Unit ensures u in units <==> u in found {
      assert UnitIn(root, n, m, u) <==> u in units;
    }
    assert units == found;
  }

  /** A tree is flawed exactly when the root or a directory at some path could not be read to
      the end. */
  lemma FlawedIs(root: Directory)
    ensures Flawed(root) <==>
            root.Unreadable? || (root.Listing? && !root.complete) || exists path :: FlawAt(root, path)
  {
    FlawIsAtAPath(root, |Entries(root)|);
    if path :| FlawAt(root, path) {
      assert path[0] < |Entries(root)|;
    }
  }

  predicate FlawAt(d: Directory, path: seq<nat>) {
    match EntryAt(d, path)
    case Some(Subdirectory(Unreadable)) => true
    case Some(Subdirectory(Listing(_, complete))) => !complete
    case _ => false
  }

  lemma {:induction false} FlawIsAtAPath(d: Directory, n: nat)
    requires n <= |Entries(d)|
    ensures FlawedUpTo(d, n) <==> exists path :: FlawAt(d, path) && path[0] < n
    decreases d, n
  {
    if n > 0 {
      FlawIsAtAPath(d, n - 1);
      var entry := d.entries[n - 1];
      if entry.Subdirectory? {
        var below := entry.contents;
        FlawIsAtAPath(below, |Entries(below)|);
        if OwnFlaw(below) {
          assert FlawAt(d, [n - 1]);
        }
        if path :| FlawAt(below, path) && path[0] < |Entries(below)| {
          assert ([n - 1] + path)[1..] == path;
          assert FlawAt(d, [n - 1] + path);
        }
      }
      if path :| FlawAt(d, path) && path[0] < n {
        if path[0] == n - 1 && |path| > 1 {
          assert FlawAt(entry.contents, path[1..]);
          assert path[1..][0] < |Entries(entry.contents)|;
        }
      }
    }
  }
}
