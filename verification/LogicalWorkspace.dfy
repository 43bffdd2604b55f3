/** Rewriting the logical workspace root inside a command's text to the actual one. */
module LogicalWorkspace {
  import opened Basics
  import opened Strings

  predicate IsPathWord(c: char) {
    c == '_' || c == '-' || c == '.' || '0' <= c <= '9' || 'A' <= c <= 'Z' || 'a' <= c <= 'z'
  }

  function TrimSlashes(s: string): string {
    if s != "" && s[|s| - 1] == '/' then TrimSlashes(s[..|s| - 1]) else s
  }

  function LogicalOf(logicalRoot: string): string {
    TrimSlashes(TrimSpace(logicalRoot))
  }

  /** Only a rooted path is looked for. */
  predicate Searchable(logical: string) {
    logical != "" && logical[0] == '/'
  }

  predicate MatchesAt(value: string, i: nat, logical: string) {
    i + |logical| <= |value| && value[i..i + |logical|] == logical
  }

  /** The match at `i` is not part of a longer name. */
  predicate Bounded(value: string, i: nat, logical: string)
    requires i + |logical| <= |value|
  {
    var end := i + |logical|;
    (i == 0 || !IsPathWord(value[i - 1])) && (end == |value| || value[end] == '/' || !IsPathWord(value[end]))
  }

  /** strings.Index of `value[from..]`, counted from the start of `value`. */
  function IndexFrom(value: string, from: nat, logical: string): (r: Option<nat>)
    requires from <= |value|
    ensures match r
            case None => forall k :: from <= k <= |value| ==> !MatchesAt(value, k, logical)
            case Some(at) =>
              && from <= at && MatchesAt(value, at, logical)
              && forall k :: from <= k < at ==> !MatchesAt(value, k, logical)
    decreases |value| - from
  {
    if MatchesAt(value, from, logical) then Some(from)
    else if from == |value| then None
    else IndexFrom(value, from + 1, logical)
  }

  /** Scanning goes past a match as a whole, past other text one character at a time. */
  function Next(value: string, i: nat, logical: string): (next: nat)
    requires i < |value| && logical != ""
    ensures i < next <= |value|
  {
    if MatchesAt(value, i, logical) then i + |logical| else i + 1
  }

  predicate Replaces(value: string, i: nat, logical: string) {
    MatchesAt(value, i, logical) && Bounded(value, i, logical)
  }

  /** The rewriting, by recursion along the text. */
  function Rewrite(value: string, i: nat, logical: string, actual: string): string
    requires i <= |value| && logical != ""
    decreases |value| - i
  {
    if i == |value| then ""
    else
      var next := Next(value, i, logical);
      (if Replaces(value, i, logical) then actual else value[i..next]) + Rewrite(value, next, logical, actual)
  }

  function Mapped(value: string, logicalRoot: string, actualRoot: string): string {
    var logical := LogicalOf(logicalRoot);
    if Searchable(logical) then Rewrite(value, 0, logical, actualRoot) else value
  }

  method MapLogicalWorkspace(value: string, logicalRoot: string, actualRoot: string) returns (result: string)
    ensures result == Mapped(value, logicalRoot, actualRoot)
  {
    var logical := LogicalOf(logicalRoot);
    if !Searchable(logical) {
      return value;
    }
    result := ReplaceMatches(value, logical, actualRoot);
  }

  method ReplaceMatches(value: string, logical: string, actualRoot: string) returns (result: string)
    requires logical != ""
    ensures result == Rewrite(value, 0, logical, actualRoot)
  {
    result := "";
    var index := 0;
    Started(value, logical, actualRoot);
    while index < |value|
      invariant index <= |value|
      invariant RewrittenTo(result, value, index, logical, actualRoot)
    {
      var found := IndexFrom(value, index, logical);
      if found == None {
        CopyTheRest(result, value, index, logical, actualRoot);
        result := result + value[index..];
        index := |value|;
        break;
      }
      var offset := found.value;
      ToNextMatch(result, value, index, offset, logical, actualRoot);
      result := result + value[index..offset];
      result := result + Replacement(value, offset, logical, actualRoot);
      index := offset + |logical|;
    }
    Finished(result, value, logical, actualRoot);
  }

  function Replacement(value: string, offset: nat, logical: string, actual: string): string
    requires offset + |logical| <= |value|
  {
    if Bounded(value, offset, logical) then actual else logical
  }

  ghost predicate RewrittenTo(result: string, value: string, index: nat, logical: string, actual: string)
    requires index <= |value| && logical != ""
  {
    Rewrite(value, 0, logical, actual) == result + Rewrite(value, index, logical, actual)
  }

  lemma Started(value: string, logical: string, actual: string)
    requires logical != ""
    ensures RewrittenTo("", value, 0, logical, actual)
  {
  }

  lemma Finished(result: string, value: string, logical: string, actual: string)
    requires logical != "" && RewrittenTo(result, value, |value|, logical, actual)
    ensures result == Rewrite(value, 0, logical, actual)
  {
  }

  lemma CopyTheRest(result: string, value: string, index: nat, logical: string, actual: string)
    requires index <= |value| && logical != "" && RewrittenTo(result, value, index, logical, actual)
    requires forall k :: index <= k < |value| ==> !MatchesAt(value, k, logical)
    ensures RewrittenTo(result + value[index..], value, |value|, logical, actual)
  {
    CopiedUpTo(value, index, |value|, logical, actual);
  }

  /** One round of the scan: the text before a match, then what stands for the match. */
  lemma ToNextMatch(result: string, value: string, index: nat, offset: nat, logical: string, actual: string)
    requires index <= offset && logical != "" && MatchesAt(value, offset, logical)
    requires RewrittenTo(result, value, index, logical, actual)
    requires forall k :: index <= k < offset ==> !MatchesAt(value, k, logical)
    ensures RewrittenTo(result + value[index..offset] + Replacement(value, offset, logical, actual),
                        value, offset + |logical|, logical, actual)
  {
    CopiedUpTo(value, index, offset, logical, actual);
    var copied, replacement := value[index..offset], Replacement(value, offset, logical, actual);
    var rest := Rewrite(value, offset + |logical|, logical, actual);
    assert Rewrite(value, offset, logical, actual) == replacement + rest;
    Reassociate(result, copied, replacement + rest);
    Reassociate(result + copied, replacement, rest);
  }

  lemma Reassociate(a: string, b: string, c: string)
    ensures a + b + c == a + (b + c)
  {
  }

  /** Where nothing matches, the text is copied. */
  lemma {:induction false} CopiedUpTo(value: string, i: nat, j: nat, logical: string, actual: string)
    requires i <= j <= |value| && logical != ""
    requires forall k :: i <= k < j ==> !MatchesAt(value, k, logical)
    ensures Rewrite(value, i, logical, actual) == value[i..j] + Rewrite(value, j, logical, actual)
    decreases j - i
  {
    if i < j {
      CopiedUpTo(value, i + 1, j, logical, actual);
      SliceSplits(value, i, i + 1, j);
      Reassociate(value[i..i + 1], value[i + 1..j], Rewrite(value, j, logical, actual));
    }
  }

  lemma SliceSplits(value: string, i: nat, j: nat, k: nat)
    requires i <= j <= k <= |value|
    ensures value[i..k] == value[i..j] + value[j..k]
  {
  }

  // ---- What the rewriting means -------------------------------------------------------

  /** The leftmost matches that do not overlap: offsets of matches, a whole match apart,
      such that every match begins inside one of them. */
  ghost predicate Greedy(value: string, logical: string, sites: set<nat>) {
    && (forall s :: s in sites ==> MatchesAt(value, s, logical))
    && (forall s, t :: s in sites && t in sites && s < t ==> s + |logical| <= t)
    && forall m: nat :: MatchesAt(value, m, logical) ==> Covered(m, |logical|, sites)
  }

  ghost predicate Covered(m: nat, width: nat, sites: set<nat>) {
    exists s :: s in sites && s <= m < s + width
  }

  lemma GreedySubset(value: string, logical: string, one: set<nat>, other: set<nat>, m: nat)
    requires Greedy(value, logical, one) && Greedy(value, logical, other) && m in one
    ensures m in other
    decreases m
  {
    assert Covered(m, |logical|, other);
    var s :| s in other && s <= m < s + |logical|;
    if s < m {
      GreedySubset(value, logical, other, one, s);
    }
  }

  /** There is only one such set. */
  lemma GreedyIsUnique(value: string, logical: string, one: set<nat>, other: set<nat>)
    requires Greedy(value, logical, one) && Greedy(value, logical, other)
    ensures one == other
  {
    forall m ensures m in one <==> m in other {
      if m in one { GreedySubset(value, logical, one, other, m); }
      if m in other { GreedySubset(value, logical, other, one, m); }
    }
  }

  /** The offsets at which the scan finds `logical`. */
  ghost function Sites(value: string, i: nat, logical: string): set<nat>
    requires i <= |value| && logical != ""
    decreases |value| - i
  {
    if i == |value| then {}
    else (if MatchesAt(value, i, logical) then {i} else {}) + Sites(value, Next(value, i, logical), logical)
  }

  ghost predicate GreedyFrom(value: string, i: nat, logical: string, sites: set<nat>) {
    && (forall s :: s in sites ==> i <= s && MatchesAt(value, s, logical))
    && (forall s, t :: s in sites && t in sites && s < t ==> s + |logical| <= t)
    && forall m: nat :: i <= m && MatchesAt(value, m, logical) ==> Covered(m, |logical|, sites)
  }

  lemma {:induction false} SitesMatch(value: string, i: nat, logical: string)
    requires i <= |value| && logical != ""
    ensures forall s :: s in Sites(value, i, logical) ==> i <= s && MatchesAt(value, s, logical)
    decreases |value| - i
  {
    if i < |value| {
      SitesMatch(value, Next(value, i, logical), logical);
    }
  }

  lemma {:induction false} SitesApart(value: string, i: nat, logical: string, s: nat, t: nat)
    requires i <= |value| && logical != ""
    requires s in Sites(value, i, logical) && t in Sites(value, i, logical) && s < t
    ensures s + |logical| <= t
    decreases |value| - i
  {
    if i < |value| {
      var next := Next(value, i, logical);
      SitesMatch(value, next, logical);
      if s in Sites(value, next, logical) {
        SitesApart(value, next, logical, s, t);
      }
    }
  }

  lemma {:induction false} SitesCover(value: string, i: nat, logical: string, m: nat)
    requires i <= |value| && logical != "" && i <= m && MatchesAt(value, m, logical)
    ensures Covered(m, |logical|, Sites(value, i, logical))
    decreases |value| - i
  {
    var next := Next(value, i, logical);
    if next <= m {
      SitesCover(value, next, logical, m);
      var s :| s in Sites(value, next, logical) && s <= m < s + |logical|;
      assert s in Sites(value, i, logical);
    } else {
      assert i in Sites(value, i, logical);
    }
  }

  lemma ScanIsGreedyFrom(value: string, i: nat, logical: string)
    requires i <= |value| && logical != ""
    ensures GreedyFrom(value, i, logical, Sites(value, i, logical))
  {
    SitesMatch(value, i, logical);
    forall s, t | s in Sites(value, i, logical) && t in Sites(value, i, logical) && s < t ensures s + |logical| <= t {
      SitesApart(value, i, logical, s, t);
    }
    forall m: nat | i <= m && MatchesAt(value, m, logical) ensures Covered(m, |logical|, Sites(value, i, logical)) {
      SitesCover(value, i, logical, m);
    }
  }

  /** Replacing the marked occurrences and copying every other character, in order. */
  ghost function Splice(value: string, i: nat, width: nat, marked: set<nat>, actual: string): string
    requires width > 0
    decreases |value| - i
  {
    if i >= |value| then ""
    else if i in marked then actual + Splice(value, i + width, width, marked, actual)
    else value[i..i + 1] + Splice(value, i + 1, width, marked, actual)
  }

  ghost function Marked(value: string, logical: string, sites: set<nat>): set<nat> {
    set s | s in sites && Replaces(value, s, logical)
  }

  /** Exactly the leftmost non-overlapping matches bounded on both sides are replaced. */
  lemma MappingReplacesBoundedMatches(value: string, logicalRoot: string, actualRoot: string, sites: set<nat>)
    requires Searchable(LogicalOf(logicalRoot)) && Greedy(value, LogicalOf(logicalRoot), sites)
    ensures var logical := LogicalOf(logicalRoot);
            Mapped(value, logicalRoot, actualRoot) ==
              Splice(value, 0, |logical|, Marked(value, logical, sites), actualRoot)
  {
    var logical := LogicalOf(logicalRoot);
    ScanIsGreedyFrom(value, 0, logical);
    GreedyIsUnique(value, logical, sites, Sites(value, 0, logical));
    RewriteIsSplice(value, 0, logical, actualRoot, sites);
  }

  lemma {:induction false} RewriteIsSplice(value: string, i: nat, logical: string, actual: string, sites: set<nat>)
    requires i <= |value| && logical != ""
    requires forall s :: i <= s ==> (s in sites <==> s in Sites(value, i, logical))
    ensures Rewrite(value, i, logical, actual) == Splice(value, i, |logical|, Marked(value, logical, sites), actual)
    decreases |value| - i
  {
    if i < |value| {
      var next := Next(value, i, logical);
      SitesMatch(value, next, logical);
      ScanIsGreedyFrom(value, i, logical);
      RewriteIsSplice(value, next, logical, actual, sites);
      if !Replaces(value, i, logical) {
        UnmarkedIsCopied(value, i, next, |logical|, Marked(value, logical, sites), actual);
      }
    }
  }

  lemma {:induction false} UnmarkedIsCopied(value: string, i: nat, j: nat, width: nat, marked: set<nat>, actual: string)
    requires i <= j <= |value| && width > 0 && forall k :: i <= k < j ==> k !in marked
    ensures Splice(value, i, width, marked, actual) == value[i..j] + Splice(value, j, width, marked, actual)
    decreases j - i
  {
    if i < j {
      UnmarkedIsCopied(value, i + 1, j, width, marked, actual);
      SliceSplits(value, i, i + 1, j);
      Reassociate(value[i..i + 1], value[i + 1..j], Splice(value, j, width, marked, actual));
    }
  }

  /** The offsets at which `logical` is replaced. */
  ghost function ReplacedAt(value: string, logical: string): set<nat>
    requires logical != ""
  {
    Marked(value, logical, Sites(value, 0, logical))
  }

  ghost function ReplacedFrom(value: string, i: nat, logical: string): nat
    requires i <= |value| && logical != ""
    decreases |value| - i
  {
    if i == |value| then 0
    else (if Replaces(value, i, logical) then 1 else 0) + ReplacedFrom(value, Next(value, i, logical), logical)
  }

  lemma {:induction false} CountOfMarked(value: string, i: nat, logical: string)
    requires i <= |value| && logical != ""
    ensures |Marked(value, logical, Sites(value, i, logical))| == ReplacedFrom(value, i, logical)
    decreases |value| - i
  {
    if i < |value| {
      var next := Next(value, i, logical);
      CountOfMarked(value, next, logical);
      SitesMatch(value, next, logical);
      var now, later := Marked(value, logical, Sites(value, i, logical)),
        Marked(value, logical, Sites(value, next, logical));
      assert i !in later;
      assert now == if Replaces(value, i, logical) then {i} + later else later;
    }
  }

  function Times(n: nat, d: int): int {
    if n == 0 then 0 else d + Times(n - 1, d)
  }

  lemma {:induction false} TimesIsProduct(n: nat, d: int)
    ensures Times(n, d) == n * d
  {
    if n > 0 {
      TimesIsProduct(n - 1, d);
      assert n * d == d + (n - 1) * d;
    }
  }

  lemma {:induction false} TimesHasSign(n: nat, d: int)
    requires n > 0
    ensures d > 0 ==> Times(n, d) > 0
    ensures d < 0 ==> Times(n, d) < 0
    decreases n
  {
    if n > 1 {
      TimesHasSign(n - 1, d);
    }
  }

  lemma {:induction false} LengthFrom(value: string, i: nat, logical: string, actual: string)
    requires i <= |value| && logical != ""
    ensures |Rewrite(value, i, logical, actual)| ==
            |value| - i + Times(ReplacedFrom(value, i, logical), |actual| - |logical|)
    decreases |value| - i
  {
    if i < |value| {
      var next := Next(value, i, logical);
      LengthFrom(value, next, logical, actual);
      LengthOfStep(value, i, logical, actual);
    }
  }

  lemma {:induction false} LengthOfStep(value: string, i: nat, logical: string, actual: string)
    requires i < |value| && logical != ""
    ensures var next := Next(value, i, logical);
            var replaced := if Replaces(value, i, logical) then |actual| - |logical| else 0;
            && |Rewrite(value, i, logical, actual)| == next - i + replaced + |Rewrite(value, next, logical, actual)|
            && Times(ReplacedFrom(value, i, logical), |actual| - |logical|) ==
               replaced + Times(ReplacedFrom(value, next, logical), |actual| - |logical|)
  {
  }

  /** Each replacement changes the length by the difference of the roots. */
  lemma MappedLength(value: string, logicalRoot: string, actualRoot: string)
    requires Searchable(LogicalOf(logicalRoot))
    ensures var logical := LogicalOf(logicalRoot);
            |Mapped(value, logicalRoot, actualRoot)| ==
              |value| + |ReplacedAt(value, logical)| * (|actualRoot| - |logical|)
  {
    var logical := LogicalOf(logicalRoot);
    var count := |ReplacedAt(value, logical)|;
    var difference := |actualRoot| - |logical|;
    CountOfMarked(value, 0, logical);
    LengthFrom(value, 0, logical, actualRoot);
    TimesIsProduct(count, difference);
    assert |Mapped(value, logicalRoot, actualRoot)| == |value| + Times(count, difference);
  }

  /** With a root of the same length, text is kept exactly where nothing is replaced. */
  lemma {:induction false} RewriteKeeps(value: string, i: nat, logical: string, actual: string)
    requires i <= |value| && logical != "" && (|actual| == |logical| || ReplacedFrom(value, i, logical) == 0)
    ensures Rewrite(value, i, logical, actual) == value[i..] <==>
            ReplacedFrom(value, i, logical) == 0 || actual == logical
    decreases |value| - i
  {
    if i < |value| {
      var next := Next(value, i, logical);
      RewriteKeeps(value, next, logical, actual);
      SliceSplits(value, i, next, |value|);
      EqualParts(if Replaces(value, i, logical) then actual else value[i..next], Rewrite(value, next, logical, actual),
                 value[i..next], value[next..]);
    }
  }

  lemma EqualParts(a: string, b: string, c: string, d: string)
    requires |a| == |c|
    ensures a + b == c + d <==> a == c && b == d
  {
    assert (a + b)[..|a|] == a && (a + b)[|a|..] == b;
    assert (c + d)[..|c|] == c && (c + d)[|c|..] == d;
  }

  /** The text is unchanged exactly when there is nothing to replace or the actual root is
      the logical root without its trailing slashes. */
  lemma WhenMappingIsIdentity(value: string, logicalRoot: string, actualRoot: string)
    requires Searchable(LogicalOf(logicalRoot))
    ensures var logical := LogicalOf(logicalRoot);
            Mapped(value, logicalRoot, actualRoot) == value <==>
              ReplacedAt(value, logical) == {} || actualRoot == logical
  {
    var logical := LogicalOf(logicalRoot);
    var count := ReplacedFrom(value, 0, logical);
    CountOfMarked(value, 0, logical);
    assert ReplacedAt(value, logical) == {} <==> count == 0;
    assert value[0..] == value;
    if |actualRoot| == |logical| || count == 0 {
      RewriteKeeps(value, 0, logical, actualRoot);
    } else {
      LengthFrom(value, 0, logical, actualRoot);
      TimesHasSign(count, |actualRoot| - |logical|);
    }
  }

  // ---- The same, spelled out ------------------------------------------------------------

  /** A letter, a digit, or one of `-`, `.` and `_`, by character codes. */
  predicate NameCode(c: char) {
    var code := c as int;
    48 <= code <= 57 || 65 <= code <= 90 || 97 <= code <= 122 || code == 45 || code == 46 || code == 95
  }

  /** Neither the character before `from` nor the one at `to` could belong to the same name. */
  predicate StandsAlone(value: string, from: nat, to: nat)
    requires from <= to <= |value|
  {
    (from > 0 ==> !NameCode(value[from - 1])) && (to < |value| ==> !NameCode(value[to]))
  }

  /** The root between `i` and `j`: spaces before it, slashes up to `k`, and spaces after that. */
  predicate RootBetween(root: string, i: nat, j: nat, k: nat) {
    && i < j <= k <= |root| && AllSpace(root[..i]) && AllSpace(root[k..])
    && !IsSpace(root[i]) && !IsSpace(root[k - 1])
    && (forall n :: j <= n < k ==> root[n] == '/') && root[j - 1] != '/'
  }

  lemma {:induction false} TrimSlashesIs(s: string, j: nat)
    requires 0 < j <= |s| && s[j - 1] != '/' && forall n :: j <= n < |s| ==> s[n] == '/'
    ensures TrimSlashes(s) == s[..j]
    decreases |s|
  {
    if j < |s| {
      TrimSlashesIs(s[..|s| - 1], j);
      assert s[..|s| - 1][..j] == s[..j];
    } else {
      assert s[..j] == s;
    }
  }

  lemma LogicalIsBetween(root: string, i: nat, j: nat, k: nat)
    requires RootBetween(root, i, j, k)
    ensures LogicalOf(root) == root[i..j]
  {
    TrimSpaceIs(root, i, k);
    var trimmed := root[i..k];
    assert trimmed[j - i - 1] == root[j - 1];
    TrimSlashesIs(trimmed, j - i);
    assert trimmed[..j - i] == root[i..j];
  }

  lemma BoundedStandsAlone(value: string, s: nat, logical: string)
    requires s + |logical| <= |value|
    ensures Bounded(value, s, logical) <==> StandsAlone(value, s, s + |logical|)
  {
    assert forall c: char :: IsPathWord(c) <==> NameCode(c);
    assert !IsPathWord('/');
  }

  /** The sites at which an occurrence of this width stands alone. */
  ghost function Alone(value: string, width: nat, sites: set<nat>): set<nat> {
    set s | s in sites && s + width <= |value| && StandsAlone(value, s, s + width)
  }

  lemma MarkedStandAlone(value: string, logical: string, sites: set<nat>)
    requires forall s :: s in sites ==> MatchesAt(value, s, logical)
    ensures Marked(value, logical, sites) == Alone(value, |logical|, sites)
  {
    forall s | s in sites ensures s in Marked(value, logical, sites) <==> s in Alone(value, |logical|, sites) {
      BoundedStandsAlone(value, s, logical);
    }
  }

  /** A rooted logical root, whatever spaces surround it and slashes end it: the text is the given
      one with exactly those leftmost non-overlapping occurrences replaced that stand alone. */
  lemma MappingIs(value: string, logicalRoot: string, actualRoot: string, i: nat, j: nat, k: nat, sites: set<nat>)
    requires RootBetween(logicalRoot, i, j, k) && logicalRoot[i] == '/'
    requires Greedy(value, logicalRoot[i..j], sites)
    ensures Mapped(value, logicalRoot, actualRoot) ==
            Splice(value, 0, j - i, Alone(value, j - i, sites), actualRoot)
  {
    LogicalIsBetween(logicalRoot, i, j, k);
    MappingReplacesBoundedMatches(value, logicalRoot, actualRoot, sites);
    MarkedStandAlone(value, logicalRoot[i..j], sites);
  }

  /** A root that does not start with a slash changes nothing ... */
  lemma UnrootedMapsNothing(value: string, logicalRoot: string, actualRoot: string, i: nat, j: nat, k: nat)
    requires RootBetween(logicalRoot, i, j, k) && logicalRoot[i] != '/'
    ensures Mapped(value, logicalRoot, actualRoot) == value
  {
    LogicalIsBetween(logicalRoot, i, j, k);
  }

  /** ... nor does a blank one ... */
  lemma BlankMapsNothing(value: string, logicalRoot: string, actualRoot: string)
    requires AllSpace(logicalRoot)
    ensures Mapped(value, logicalRoot, actualRoot) == value
  {
    TrimSpaceOfSpaces(logicalRoot);
  }

  /** ... nor one of nothing but slashes. */
  lemma OnlySlashesMapNothing(value: string, logicalRoot: string, actualRoot: string, i: nat, k: nat)
    requires i < k <= |logicalRoot| && AllSpace(logicalRoot[..i]) && AllSpace(logicalRoot[k..])
    requires forall n :: i <= n < k ==> logicalRoot[n] == '/'
    ensures Mapped(value, logicalRoot, actualRoot) == value
  {
    TrimSpaceIs(logicalRoot, i, k);
    NothingButSlashes(logicalRoot[i..k]);
  }

  lemma {:induction false} NothingButSlashes(s: string)
    requires forall n :: 0 <= n < |s| ==> s[n] == '/'
    ensures TrimSlashes(s) == ""
    decreases |s|
  {
    if s != "" {
      NothingButSlashes(s[..|s| - 1]);
    }
  }
}
