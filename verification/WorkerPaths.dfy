/**
 Confining worker paths to the workspace, over a snapshot of a filesystem with symbolic
 links. A clean absolute path is the sequence of its components.
 */
module WorkerPaths {
  import opened Basics
  import opened Strings

  type Path = seq<string>

  datatype Node = Directory | File | Link(target: string)

  type Snapshot = map<Path, Node>

  datatype PathError = NotExist | NotDirectory | TooManyLinks | Outside

  /** An ordinary file name. */
  predicate Plain(name: string) {
    name != "" && '/' !in name && name != "." && name != ".."
  }

  predicate AllPlain(p: Path) {
    forall k :: 0 <= k < |p| ==> Plain(p[k])
  }

  function Parent(p: Path): Path {
    if p == [] then [] else p[..|p| - 1]
  }

  predicate Hangs(fs: Snapshot, p: Path) {
    p != [] ==> Parent(p) in fs && fs[Parent(p)].Directory? && Plain(p[|p| - 1])
  }

  ghost predicate WellFormed(fs: Snapshot) {
    [] in fs && fs[[]].Directory? && forall p {:trigger Hangs(fs, p)} :: p in fs ==> Hangs(fs, p)
  }

  /** The text between slashes. */
  function Split(s: string): (parts: seq<string>)
    ensures parts != [] && forall k :: 0 <= k < |parts| ==> '/' !in parts[k]
  {
    if s == "" then [""]
    else if s[0] == '/' then [""] + Split(s[1..])
    else
      var rest := Split(s[1..]);
      [[s[0]] + rest[0]] + rest[1..]
  }

  /** filepath.Clean of an absolute path, component by component. */
  function CleanOnto(stack: Path, parts: seq<string>): Path
    decreases |parts|
  {
    if parts == [] then stack
    else if parts[0] == "" || parts[0] == "." then CleanOnto(stack, parts[1..])
    else if parts[0] == ".." then CleanOnto(Parent(stack), parts[1..])
    else CleanOnto(stack + [parts[0]], parts[1..])
  }

  function Clean(path: string): Path {
    CleanOnto([], Split(path))
  }

  lemma {:induction false} CleanIsPlain(stack: Path, parts: seq<string>)
    requires AllPlain(stack) && forall k :: 0 <= k < |parts| ==> '/' !in parts[k]
    ensures AllPlain(CleanOnto(stack, parts))
    decreases |parts|
  {
    if parts != [] {
      if parts[0] == "" || parts[0] == "." {
        CleanIsPlain(stack, parts[1..]);
      } else if parts[0] == ".." {
        CleanIsPlain(Parent(stack), parts[1..]);
      } else {
        CleanIsPlain(stack + [parts[0]], parts[1..]);
      }
    }
  }

  lemma {:induction false} CleanKeepsPlain(stack: Path, parts: seq<string>)
    requires AllPlain(parts)
    ensures CleanOnto(stack, parts) == stack + parts
    decreases |parts|
  {
    if parts != [] {
      CleanKeepsPlain(stack + [parts[0]], parts[1..]);
      assert stack + [parts[0]] + parts[1..] == stack + parts;
    } else {
      assert stack + parts == stack;
    }
  }

  // ---- Resolving symbolic links -----------------------------------------------------

  const GO_LINK_LIMIT := 255
  const OS_LINK_LIMIT := 40

  /** Following `rest` from the resolved directory `dest`, through at most `links` links.
      This is how the kernel resolves a path, and what filepath.EvalSymlinks computes. */
  function Walk(fs: Snapshot, dest: Path, rest: seq<string>, links: nat): Result<Path, PathError>
    decreases links, |rest|
  {
    if rest == [] then Ok(dest)
    else if rest[0] == "" || rest[0] == "." then Walk(fs, dest, rest[1..], links)
    else if rest[0] == ".." then Walk(fs, Parent(dest), rest[1..], links)
    else
      var next := dest + [rest[0]];
      if next !in fs then Err(NotExist)
      else match fs[next]
        case Link(target) =>
          if links == 0 then Err(TooManyLinks)
          else Walk(fs, if "/" <= target then [] else dest, Split(target) + rest[1..], links - 1)
        case File => if |rest| > 1 then Err(NotDirectory) else Ok(next)
        case Directory => Walk(fs, next, rest[1..], links)
  }

  function EvalSymlinks(fs: Snapshot, p: Path): Result<Path, PathError> {
    Walk(fs, [], p, GO_LINK_LIMIT)
  }

  /** os.Lstat follows links everywhere but in the last component. */
  function Lstat(fs: Snapshot, p: Path): Option<PathError> {
    if p == [] then None
    else
      match Walk(fs, [], Parent(p), OS_LINK_LIMIT)
      case Err(e) => Some(e)
      case Ok(d) =>
        if d !in fs || !fs[d].Directory? then Some(NotDirectory)
        else if d + [p[|p| - 1]] in fs then None
        else Some(NotExist)
  }

  // ---- pathWithin -------------------------------------------------------------------

  function CommonPrefix(a: Path, b: Path): nat {
    if a == [] || b == [] || a[0] != b[0] then 0 else 1 + CommonPrefix(a[1..], b[1..])
  }

  /** filepath.Rel of two clean absolute paths, as text. */
  function Rel(base: Path, target: Path): string {
    var n := CommonPrefix(base, target);
    CommonPrefixBound(base, target);
    var parts := seq(|base| - n, _ => "..") + target[n..];
    if parts == [] then "." else Join(parts, "/")
  }

  lemma CommonPrefixBound(a: Path, b: Path)
    ensures CommonPrefix(a, b) <= |a| && CommonPrefix(a, b) <= |b|
    ensures CommonPrefix(a, b) == |a| <==> a <= b
  {
  }

  predicate Upwards(relative: string) {
    relative == ".." || "../" <= relative
  }

  predicate PathWithin(candidate: Path, root: Path) {
    !Upwards(Rel(root, candidate))
  }

  /** The test on the relative path's text is the component-prefix relation. */
  lemma PathWithinIsPrefix(candidate: Path, root: Path)
    requires AllPlain(candidate)
    ensures PathWithin(candidate, root) <==> root <= candidate
  {
    var n := CommonPrefix(root, candidate);
    CommonPrefixBound(root, candidate);
    var parts := seq(|root| - n, _ => "..") + candidate[n..];
    UpwardsByFirstName(Rel(root, candidate));
    if parts != [] {
      JoinStartsWith(parts);
      assert parts[0] == if n < |root| then ".." else candidate[n];
    }
  }

  function FirstName(text: string): string {
    if text == "" || text[0] == '/' then "" else [text[0]] + FirstName(text[1..])
  }

  lemma UpwardsByFirstName(text: string)
    ensures Upwards(text) <==> FirstName(text) == ".."
  {
    if |text| >= 2 {
      assert text == [text[0], text[1]] + text[2..];
      var rest := FirstName(text[2..]);
      assert text[1..][1..] == text[2..];
      assert rest == "" <==> |text| == 2 || text[2] == '/';
      assert text[0] != '/' && text[1] != '/' ==> FirstName(text) == [text[0], text[1]] + rest;
    }
  }

  lemma {:induction false} FirstNameOf(name: string, text: string)
    requires '/' !in name && name <= text && (name == text || text[|name|] == '/')
    ensures FirstName(text) == name
    decreases |name|
  {
    if name != "" {
      FirstNameOf(name[1..], text[1..]);
    }
  }

  lemma JoinStartsWith(parts: seq<string>)
    requires parts != [] && '/' !in parts[0]
    ensures FirstName(Join(parts, "/")) == parts[0]
  {
    var text := Join(parts, "/");
    if |parts| > 1 {
      assert text == parts[0] + ("/" + Join(parts[1..], "/"));
    }
    FirstNameOf(parts[0], text);
  }

  // ---- confinedWorkerPath -------------------------------------------------------------

  /** How many components of a path belong to its nearest existing ancestor (which may
      itself be a link). */
  function ExistingDepth(fs: Snapshot, p: Path): (depth: Result<nat, PathError>)
    ensures depth.Ok? ==> depth.value <= |p|
    decreases |p|
  {
    match Lstat(fs, p)
    case None => Ok(|p|)
    case Some(NotExist) => ExistingDepth(fs, Parent(p))
    case Some(e) => Err(e)
  }

  function Confined(fs: Snapshot, root: Path, candidate: Path): Result<Path, PathError> {
    match EvalSymlinks(fs, root)
    case Err(e) => Err(e)
    case Ok(resolvedRoot) =>
      match ExistingDepth(fs, candidate)
      case Err(e) => Err(e)
      case Ok(depth) =>
        match EvalSymlinks(fs, candidate[..depth])
        case Err(e) => Err(e)
        case Ok(resolvedExisting) =>
          var resolved := resolvedExisting + candidate[depth..];
          if resolvedRoot <= resolved then Ok(resolved) else Err(Outside)
  }

  /** confinedWorkerPath, for a root and a candidate that are absolute path names. The root's
      links are resolved as it stands, the candidate is cleaned first. */
  method ConfinedWorkerPath(fs: Snapshot, root: string, candidate: string) returns (r: Result<Path, PathError>)
    requires WellFormed(fs)
    ensures r == Confined(fs, Split(root), Clean(candidate))
    ensures forall answer :: r == Ok(answer) <==> Accepts(fs, Split(root), Clean(candidate), answer)
  {
    ConfinedAccepts(fs, Split(root), Clean(candidate));
    var resolvedRoot := EvalSymlinks(fs, Split(root));
    if resolvedRoot.Err? {
      return resolvedRoot;
    }
    var clean := Clean(candidate);
    CleanIsPlain([], Split(candidate));
    var statErr, existing, suffix := NearestExisting(fs, clean);
    if statErr.Some? {
      return Err(statErr.value);
    }
    var resolvedExisting := EvalSymlinks(fs, existing);
    if resolvedExisting.Err? {
      return resolvedExisting;
    }
    var resolved := Rejoin(resolvedExisting.value, suffix);
    WalkIsResolved(fs, [], existing, GO_LINK_LIMIT);
    ResolvedIsPlain(fs, resolvedExisting.value);
    assert AllPlain(resolved);
    CleanKeepsPlain([], resolved);
    assert [] + resolved == resolved;
    resolved := CleanOnto([], resolved);
    PathWithinIsPrefix(resolved, resolvedRoot.value);
    r := if PathWithin(resolved, resolvedRoot.value) then Ok(resolved) else Err(Outside);
  }

  /** The climb to the nearest ancestor that exists. */
  method NearestExisting(fs: Snapshot, clean: Path)
    returns (statErr: Option<PathError>, existing: Path, suffix: seq<string>)
    ensures match ExistingDepth(fs, clean)
            case Err(e) => statErr == Some(e)
            case Ok(depth) => statErr == None && existing == clean[..depth] && Reversed(suffix) == clean[depth..]
  {
    existing, suffix := clean, [];
    while true
      invariant |existing| <= |clean| && existing == clean[..|existing|]
      invariant Reversed(suffix) == clean[|existing|..]
      invariant ExistingDepth(fs, existing) == ExistingDepth(fs, clean)
      decreases |existing|
    {
      statErr := Lstat(fs, existing);
      if statErr != Some(NotExist) {
        break;
      }
      ReversedAppend(suffix, existing[|existing| - 1]);
      suffix := suffix + [existing[|existing| - 1]];
      existing := Parent(existing);
    }
  }

  /** Joining the missing names onto a directory, last found first. */
  method Rejoin(directory: Path, suffix: seq<string>) returns (resolved: Path)
    ensures resolved == directory + Reversed(suffix)
  {
    resolved := directory;
    var index := |suffix|;
    assert suffix[..index] == suffix;
    while index > 0
      invariant 0 <= index <= |suffix|
      invariant resolved + Reversed(suffix[..index]) == directory + Reversed(suffix)
    {
      index := index - 1;
      assert suffix[..index + 1][..index] == suffix[..index];
      resolved := resolved + [suffix[index]];
    }
  }

  function Reversed(s: seq<string>): seq<string> {
    if s == [] then [] else [s[|s| - 1]] + Reversed(s[..|s| - 1])
  }

  lemma ReversedAppend(s: seq<string>, name: string)
    ensures Reversed(s + [name]) == [name] + Reversed(s)
  {
    assert (s + [name])[..|s|] == s;
  }

  // ---- What a confined path is ----------------------------------------------------------

  /** An existing path that is not itself a link. */
  ghost predicate Resolved(fs: Snapshot, p: Path) {
    p in fs && !fs[p].Link?
  }

  /** The first `depth` components exist and the last of them is no link; the next one is
      missing. */
  ghost predicate EndsAt(fs: Snapshot, p: Path, depth: nat) {
    && depth <= |p| && AllPlain(p) && Resolved(fs, p[..depth])
    && (depth < |p| ==> fs[p[..depth]].Directory? && p[..depth + 1] !in fs)
  }

  /** Above an existing path there are only directories. */
  lemma {:induction false} DirectoriesAbove(fs: Snapshot, p: Path, k: nat)
    requires WellFormed(fs) && p in fs && k < |p|
    ensures p[..k] in fs && fs[p[..k]].Directory?
    decreases |p|
  {
    assert Hangs(fs, p);
    if k < |p| - 1 {
      DirectoriesAbove(fs, Parent(p), k);
      assert Parent(p)[..k] == p[..k];
    }
  }

  lemma {:induction false} ResolvedIsPlain(fs: Snapshot, p: Path)
    requires WellFormed(fs) && p in fs
    ensures AllPlain(p)
    decreases |p|
  {
    if p != [] {
      assert Hangs(fs, p);
      ResolvedIsPlain(fs, Parent(p));
      assert p == Parent(p) + [p[|p| - 1]];
    }
  }

  lemma {:induction false} WalkIsResolved(fs: Snapshot, dest: Path, rest: seq<string>, links: nat)
    requires WellFormed(fs) && Resolved(fs, dest)
    ensures Walk(fs, dest, rest, links).Ok? ==> Resolved(fs, Walk(fs, dest, rest, links).value)
    decreases links, |rest|
  {
    if rest != [] {
      if rest[0] == "" || rest[0] == "." {
        WalkIsResolved(fs, dest, rest[1..], links);
      } else if rest[0] == ".." {
        assert Hangs(fs, dest);
        WalkIsResolved(fs, Parent(dest), rest[1..], links);
      } else if dest + [rest[0]] in fs {
        var next := dest + [rest[0]];
        match fs[next]
        case Link(target) =>
          if links > 0 {
            WalkIsResolved(fs, if "/" <= target then [] else dest, Split(target) + rest[1..], links - 1);
          }
        case File =>
        case Directory => WalkIsResolved(fs, next, rest[1..], links);
      }
    }
  }

  /** A larger link limit changes a result only where the smaller one was exceeded. */
  lemma {:induction false} WalkWithMoreLinks(fs: Snapshot, dest: Path, rest: seq<string>, links: nat, more: nat)
    requires links <= more && Walk(fs, dest, rest, links) != Err(TooManyLinks)
    ensures Walk(fs, dest, rest, more) == Walk(fs, dest, rest, links)
    decreases links, |rest|
  {
    if rest != [] {
      if rest[0] == "" || rest[0] == "." {
        WalkWithMoreLinks(fs, dest, rest[1..], links, more);
      } else if rest[0] == ".." {
        WalkWithMoreLinks(fs, Parent(dest), rest[1..], links, more);
      } else if dest + [rest[0]] in fs {
        var next := dest + [rest[0]];
        match fs[next]
        case Link(target) =>
          WalkWithMoreLinks(fs, if "/" <= target then [] else dest, Split(target) + rest[1..], links - 1, more - 1);
        case File =>
        case Directory => WalkWithMoreLinks(fs, next, rest[1..], links, more);
      }
    }
  }

  /** Along an existing path that ends at no link, walking goes straight to its end ... */
  lemma {:induction false} WalkStraight(fs: Snapshot, p: Path, k: nat, links: nat)
    requires WellFormed(fs) && AllPlain(p) && Resolved(fs, p) && k <= |p|
    ensures Walk(fs, p[..k], p[k..], links) == Ok(p)
    decreases |p| - k
  {
    if k == |p| {
      assert p[..k] == p;
    } else {
      assert p[..k] + [p[k..][0]] == p[..k + 1] && p[k..][1..] == p[k + 1..];
      if k + 1 < |p| {
        DirectoriesAbove(fs, p, k + 1);
      } else {
        assert p[..k + 1] == p;
      }
      WalkStraight(fs, p, k + 1, links);
    }
  }

  /** ... and it stops where the next name is missing. */
  lemma {:induction false} WalkIntoNothing(fs: Snapshot, p: Path, depth: nat, k: nat, links: nat)
    requires WellFormed(fs) && EndsAt(fs, p, depth) && k <= depth < |p|
    ensures Walk(fs, p[..k], p[k..], links) == Err(NotExist)
    decreases depth - k
  {
    assert p[..k] + [p[k..][0]] == p[..k + 1] && p[k..][1..] == p[k + 1..];
    if k < depth {
      if k + 1 < depth {
        DirectoriesAbove(fs, p[..depth], k + 1);
        assert p[..depth][..k + 1] == p[..k + 1];
      }
      WalkIntoNothing(fs, p, depth, k + 1, links);
    }
  }

  lemma {:induction false} DepthIsNearest(fs: Snapshot, p: Path)
    requires ExistingDepth(fs, p).Ok?
    ensures var depth := ExistingDepth(fs, p).value;
            Lstat(fs, p[..depth]) == None && (depth < |p| ==> Lstat(fs, p[..depth + 1]) == Some(NotExist))
    decreases |p|
  {
    if Lstat(fs, p) == None {
      assert p[..|p|] == p;
    } else {
      DepthIsNearest(fs, Parent(p));
      var depth := ExistingDepth(fs, p).value;
      assert p[..depth] == Parent(p)[..depth];
      if depth < |Parent(p)| {
        assert Parent(p)[..depth + 1] == p[..depth + 1];
      } else {
        assert p[..depth + 1] == p;
      }
    }
  }

  /** A confined path starts with the resolved root; a first part of it exists and has no
      links on it, and of the rest nothing exists. */
  lemma ConfinedPathsStayInside(fs: Snapshot, root: Path, candidate: Path) returns (depth: nat)
    requires WellFormed(fs) && AllPlain(candidate) && Confined(fs, root, candidate).Ok?
    ensures EvalSymlinks(fs, root).Ok?
    ensures EvalSymlinks(fs, root).value <= Confined(fs, root, candidate).value
    ensures var p := Confined(fs, root, candidate).value;
            && depth <= |p|
            && forall k :: 0 <= k <= |p| ==> if k <= depth then Resolved(fs, p[..k]) else p[..k] !in fs
  {
    depth := ConfinedEndsAt(fs, root, candidate);
    ExistsExactlyTo(fs, Confined(fs, root, candidate).value, depth);
  }

  lemma ConfinedEndsAt(fs: Snapshot, root: Path, candidate: Path) returns (depth: nat)
    requires WellFormed(fs) && AllPlain(candidate) && Confined(fs, root, candidate).Ok?
    ensures EndsAt(fs, Confined(fs, root, candidate).value, depth)
  {
    var at := ExistingDepth(fs, candidate).value;
    var existing := EvalSymlinks(fs, candidate[..at]).value;
    var resolved := Confined(fs, root, candidate).value;
    depth := |existing|;
    assert resolved == existing + candidate[at..] && resolved[..depth] == existing;
    WalkIsResolved(fs, [], candidate[..at], GO_LINK_LIMIT);
    ResolvedIsPlain(fs, existing);
    if at < |candidate| {
      NextIsMissing(fs, candidate, at, existing);
      assert resolved[..depth + 1] == existing + [candidate[at]];
    }
  }

  lemma NextIsMissing(fs: Snapshot, candidate: Path, at: nat, existing: Path)
    requires WellFormed(fs) && ExistingDepth(fs, candidate) == Ok(at) && at < |candidate|
    requires EvalSymlinks(fs, candidate[..at]) == Ok(existing)
    ensures existing in fs && fs[existing].Directory? && existing + [candidate[at]] !in fs
  {
    DepthIsNearest(fs, candidate);
    var p := candidate[..at + 1];
    assert Parent(p) == candidate[..at] && p[|p| - 1] == candidate[at];
    WalkWithMoreLinks(fs, [], Parent(p), OS_LINK_LIMIT, GO_LINK_LIMIT);
  }

  lemma ExistsExactlyTo(fs: Snapshot, p: Path, depth: nat)
    requires WellFormed(fs) && EndsAt(fs, p, depth)
    ensures forall k :: 0 <= k <= |p| ==> if k <= depth then Resolved(fs, p[..k]) else p[..k] !in fs
  {
    forall k | 0 <= k <= |p| ensures if k <= depth then Resolved(fs, p[..k]) else p[..k] !in fs {
      if k < depth {
        DirectoriesAbove(fs, p[..depth], k);
        assert p[..depth][..k] == p[..k];
      } else if depth < k {
        assert p[..k][..depth + 1] == p[..depth + 1];
        NothingBelow(fs, p[..k], depth + 1);
      }
    }
  }

  /** Below a missing path nothing exists. */
  lemma {:induction false} NothingBelow(fs: Snapshot, p: Path, missing: nat)
    requires WellFormed(fs) && missing <= |p| && p[..missing] !in fs
    ensures p !in fs
    decreases |p|
  {
    assert p in fs ==> Hangs(fs, p);
    if missing < |p| {
      assert Parent(p)[..missing] == p[..missing];
      NothingBelow(fs, Parent(p), missing);
    } else {
      assert p[..missing] == p;
    }
  }

  /** Confining a confined path once more gives it back. */
  lemma ConfiningIsIdempotent(fs: Snapshot, root: Path, candidate: Path)
    requires WellFormed(fs) && AllPlain(candidate) && Confined(fs, root, candidate).Ok?
    ensures Confined(fs, root, Confined(fs, root, candidate).value) == Confined(fs, root, candidate)
  {
    var depth := ConfinedEndsAt(fs, root, candidate);
    var p := Confined(fs, root, candidate).value;
    DepthOfConfined(fs, p, depth, |p|);
    assert p[..|p|] == p;
    WalkFromTop(fs, p[..depth], GO_LINK_LIMIT);
    assert p[..depth] + p[depth..] == p;
  }

  lemma {:induction false} DepthOfConfined(fs: Snapshot, p: Path, depth: nat, n: nat)
    requires WellFormed(fs) && EndsAt(fs, p, depth) && depth <= n <= |p|
    ensures ExistingDepth(fs, p[..n]) == Ok(depth)
    decreases n
  {
    if n == depth {
      StatExisting(fs, p[..n]);
      assert |p[..n]| == depth;
    } else {
      assert Parent(p[..n]) == p[..n - 1];
      StatMissing(fs, p, depth, n);
      DepthOfConfined(fs, p, depth, n - 1);
    }
  }

  lemma StatExisting(fs: Snapshot, p: Path)
    requires WellFormed(fs) && Resolved(fs, p)
    ensures Lstat(fs, p) == None
  {
    if p != [] {
      assert Hangs(fs, p);
      var above := Parent(p);
      ResolvedIsPlain(fs, above);
      WalkFromTop(fs, above, OS_LINK_LIMIT);
      assert above + [p[|p| - 1]] == p;
    }
  }

  lemma WalkFromTop(fs: Snapshot, p: Path, links: nat)
    requires WellFormed(fs) && AllPlain(p) && Resolved(fs, p)
    ensures Walk(fs, [], p, links) == Ok(p)
  {
    WalkStraight(fs, p, 0, links);
    assert p[..0] == [] && p[0..] == p;
  }

  lemma StatMissing(fs: Snapshot, p: Path, depth: nat, n: nat)
    requires WellFormed(fs) && EndsAt(fs, p, depth) && depth < n <= |p|
    ensures Lstat(fs, p[..n]) == Some(NotExist)
  {
    var above := p[..n - 1];
    assert Parent(p[..n]) == above && above + [p[n - 1]] == p[..n];
    if depth == n - 1 {
      WalkFromTop(fs, above, OS_LINK_LIMIT);
    } else {
      assert above[..depth] == p[..depth] && above[..depth + 1] == p[..depth + 1];
      WalkIntoNothing(fs, above, depth, 0, OS_LINK_LIMIT);
      assert above[..0] == [] && above[0..] == above;
    }
  }

  // ---- What the answer is, for a candidate ------------------------------------------------

  /** The first `depth` components are the longest part of the path that exists. */
  ghost predicate Nearest(fs: Snapshot, p: Path, depth: nat) {
    && depth <= |p| && Lstat(fs, p[..depth]) == None
    && forall k :: depth < k <= |p| ==> Lstat(fs, p[..k]) == Some(NotExist)
  }

  lemma {:induction false} ExistingDepthIsNearest(fs: Snapshot, p: Path, depth: nat)
    ensures ExistingDepth(fs, p) == Ok(depth) <==> Nearest(fs, p, depth)
    decreases |p|
  {
    assert p[..|p|] == p;
    if Lstat(fs, p) == Some(NotExist) {
      var above := Parent(p);
      ExistingDepthIsNearest(fs, above, depth);
      assert forall k :: 0 <= k <= |above| ==> above[..k] == p[..k];
      assert depth <= |above| ==> (Nearest(fs, p, depth) <==> Nearest(fs, above, depth));
    }
  }

  /** The candidate is accepted with this answer: the root resolves, the longest existing part
      of the candidate resolves, the answer is that place and the remaining names, and it lies
      under the resolved root. */
  ghost predicate Accepts(fs: Snapshot, root: seq<string>, candidate: Path, answer: Path) {
    exists depth, top, place | Nearest(fs, candidate, depth) ::
      AcceptsAt(fs, root, candidate, answer, depth, top, place)
  }

  ghost predicate AcceptsAt(fs: Snapshot, root: seq<string>, candidate: Path, answer: Path, depth: nat, top: Path,
                            place: Path)
    requires depth <= |candidate|
  {
    && Walk(fs, [], root, 255) == Ok(top)
    && Walk(fs, [], candidate[..depth], 255) == Ok(place)
    && answer == place + candidate[depth..] && top <= answer
  }

  /** A path is answered exactly if it is accepted, and with that answer. */
  lemma ConfinedAccepts(fs: Snapshot, root: seq<string>, candidate: Path)
    ensures forall answer :: Confined(fs, root, candidate) == Ok(answer) <==> Accepts(fs, root, candidate, answer)
  {
    forall answer ensures Confined(fs, root, candidate) == Ok(answer) <==> Accepts(fs, root, candidate, answer) {
      if Confined(fs, root, candidate) == Ok(answer) {
        var depth := ExistingDepth(fs, candidate).value;
        ExistingDepthIsNearest(fs, candidate, depth);
        assert AcceptsAt(fs, root, candidate, answer, depth, EvalSymlinks(fs, root).value,
                         EvalSymlinks(fs, candidate[..depth]).value);
      }
      if Accepts(fs, root, candidate, answer) {
        var depth, top, place :| Nearest(fs, candidate, depth) &&
          AcceptsAt(fs, root, candidate, answer, depth, top, place);
        ExistingDepthIsNearest(fs, candidate, depth);
      }
    }
  }

  /** Walking on from a directory in which the next name is missing. */
  lemma {:induction false} WalkMisses(fs: Snapshot, dest: Path, rest: seq<string>, missing: seq<string>, place: Path,
                                      links: nat)
    requires Walk(fs, dest, rest, links) == Ok(place) && place in fs && fs[place].Directory?
    requires missing != [] && Plain(missing[0]) && place + [missing[0]] !in fs
    ensures Walk(fs, dest, rest + missing, links) == Err(NotExist)
    decreases links, |rest|
  {
    if rest == [] {
      assert rest + missing == missing;
    } else {
      assert (rest + missing)[1..] == rest[1..] + missing;
      if rest[0] == "" || rest[0] == "." {
        WalkMisses(fs, dest, rest[1..], missing, place, links);
      } else if rest[0] == ".." {
        WalkMisses(fs, Parent(dest), rest[1..], missing, place, links);
      } else {
        var next := dest + [rest[0]];
        match fs[next]
        case Link(target) =>
          var from := if "/" <= target then [] else dest;
          assert Split(target) + (rest[1..] + missing) == Split(target) + rest[1..] + missing;
          WalkMisses(fs, from, Split(target) + rest[1..], missing, place, links - 1);
        case File =>
        case Directory => WalkMisses(fs, next, rest[1..], missing, place, links);
      }
    }
  }

  /** An accepted candidate that exists is answered with the place it leads to. */
  lemma ExistingIsResolved(fs: Snapshot, root: seq<string>, candidate: Path, place: Path, answer: Path)
    requires WellFormed(fs) && AllPlain(candidate) && Accepts(fs, root, candidate, answer)
    requires Walk(fs, [], candidate, 255) == Ok(place)
    ensures answer == place
  {
    var depth: nat, top: Path, near: Path :| Nearest(fs, candidate, depth) &&
      AcceptsAt(fs, root, candidate, answer, depth, top, near);
    assert candidate[..depth] + candidate[depth..] == candidate;
    if depth < |candidate| {
      ExistingDepthIsNearest(fs, candidate, depth);
      NextIsMissing(fs, candidate, depth, near);
      WalkMisses(fs, [], candidate[..depth], candidate[depth..], near, 255);
    } else {
      assert candidate[..depth] == candidate && near + candidate[depth..] == near;
    }
  }

  /** A candidate without links under a root without links is answered with itself, whether its
      last components exist yet or not. */
  lemma PlainPathsAreKept(fs: Snapshot, root: Path, candidate: Path, depth: nat)
    requires WellFormed(fs) && Resolved(fs, root) && EndsAt(fs, candidate, depth) && root <= candidate
    ensures Accepts(fs, root, candidate, candidate)
  {
    ResolvedIsPlain(fs, root);
    WalkFromTop(fs, root, 255);
    DepthOfConfined(fs, candidate, depth, |candidate|);
    assert candidate[..|candidate|] == candidate;
    ExistingDepthIsNearest(fs, candidate, depth);
    WalkFromTop(fs, candidate[..depth], 255);
    assert candidate[..depth] + candidate[depth..] == candidate;
    assert AcceptsAt(fs, root, candidate, candidate, depth, root, candidate[..depth]);
  }

  // ---- Cleaning ----------------------------------------------------------------------------

  /** Splitting at the slashes is undone by joining with slashes. */
  lemma {:induction false} SplitIsExact(s: string)
    ensures Join(Split(s), "/") == s
    decreases |s|
  {
    if s != "" {
      SplitIsExact(s[1..]);
      var rest := Split(s[1..]);
      if s[0] == '/' {
        assert "" + "/" + Join(rest, "/") == s;
      } else {
        assert Split(s) == [[s[0]] + rest[0]] + rest[1..];
        assert Split(s)[1..] == rest[1..];
        if |rest| == 1 {
          assert [s[0]] + rest[0] == s;
        } else {
          assert [s[0]] + rest[0] + "/" + Join(rest[1..], "/") == s;
        }
      }
    }
  }

  /** Where nothing is a link, a path that leads anywhere leads where its cleaned form says. */
  lemma {:induction false} CleaningLeadsToTheSamePlace(fs: Snapshot, dest: Path, parts: seq<string>, links: nat,
                                                       place: Path)
    requires (forall p :: p in fs ==> !fs[p].Link?) && Walk(fs, dest, parts, links) == Ok(place)
    ensures CleanOnto(dest, parts) == place
    decreases |parts|
  {
    if parts != [] {
      if parts[0] == "" || parts[0] == "." {
        CleaningLeadsToTheSamePlace(fs, dest, parts[1..], links, place);
      } else if parts[0] == ".." {
        CleaningLeadsToTheSamePlace(fs, Parent(dest), parts[1..], links, place);
      } else if fs[dest + [parts[0]]].Directory? {
        CleaningLeadsToTheSamePlace(fs, dest + [parts[0]], parts[1..], links, place);
      } else {
        assert parts[1..] == [];
      }
    }
  }
}
