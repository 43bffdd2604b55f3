/** Which pods of a node a drain evicts, skips, ignores or refuses. */
module DrainPods {
  import opened Basics

  datatype Owner = Owner(kind: string, controller: bool)

  /** The fields of a pod that the agent reads, as trimmed text; `emptyDirs` says of each
      volume whether it is an emptyDir. */
  datatype Pod = Pod(
    namespace: string,
    name: string,
    phase: string,
    deleting: bool,
    mirror: string,
    owners: seq<Owner>,
    emptyDirs: seq<bool>)

  datatype PodRef = PodRef(namespace: string, name: string)

  datatype Options = Options(ignoreDaemonSets: bool, deleteEmptyDirData: bool, force: bool)

  datatype Refusal = Unnamed | DaemonSetPod(pod: PodRef) | LocalData(pod: PodRef) | Unmanaged(pod: PodRef)

  /** What becomes of one pod. */
  datatype Fate = Ignored | Skipped | Evicted | Refused(why: Refusal)

  function RefOf(pod: Pod): PodRef {
    PodRef(pod.namespace, pod.name)
  }

  /** podController: the kind of the first owner that controls the pod. */
  function Controller(owners: seq<Owner>): Option<string> {
    if owners == [] then None
    else if owners[0].controller then Some(owners[0].kind)
    else Controller(owners[1..])
  }

  predicate UsesEmptyDir(pod: Pod) {
    true in pod.emptyDirs
  }

  /** Already leaving, finished, or not the API server's to evict. */
  predicate NeedsNoEviction(pod: Pod) {
    pod.deleting || pod.phase == "Succeeded" || pod.phase == "Failed" || pod.mirror != ""
  }

  predicate OfDaemonSet(pod: Pod) {
    Controller(pod.owners) == Some("DaemonSet")
  }

  function FateOf(pod: Pod, options: Options): Fate {
    if pod.name == "" || pod.namespace == "" then Refused(Unnamed)
    else if NeedsNoEviction(pod) then Ignored
    else if OfDaemonSet(pod) then (if options.ignoreDaemonSets then Skipped else Refused(DaemonSetPod(RefOf(pod))))
    else if UsesEmptyDir(pod) && !options.deleteEmptyDirData then Refused(LocalData(RefOf(pod)))
    else if Controller(pod.owners) == None && !options.force then Refused(Unmanaged(RefOf(pod)))
    else Evicted
  }

  /** The references of the pods with a given fate, in order. */
  function With(pods: seq<Pod>, options: Options, fate: Fate): seq<PodRef> {
    if pods == [] then []
    else
      var last := pods[|pods| - 1];
      With(pods[..|pods| - 1], options, fate) + (if FateOf(last, options) == fate then [RefOf(last)] else [])
  }

  ghost predicate AllPass(pods: seq<Pod>, options: Options) {
    forall k :: 0 <= k < |pods| ==> !FateOf(pods[k], options).Refused?
  }

  // ---- The fates, on the pod's own fields -------------------------------------------

  /** Owner number `k` is the first that controls, and is of this kind. */
  predicate ControlsFirst(owners: seq<Owner>, k: nat, kind: string)
    requires k < |owners|
  {
    owners[k].controller && owners[k].kind == kind && forall j :: 0 <= j < k ==> !owners[j].controller
  }

  ghost predicate FirstControllerIs(owners: seq<Owner>, kind: string) {
    exists k | 0 <= k < |owners| :: ControlsFirst(owners, k, kind)
  }

  predicate NoneControls(owners: seq<Owner>) {
    forall k :: 0 <= k < |owners| ==> !owners[k].controller
  }

  predicate SomeVolumeIsLocal(pod: Pod) {
    exists k :: 0 <= k < |pod.emptyDirs| && pod.emptyDirs[k]
  }

  predicate Named(pod: Pod) {
    pod.name != "" && pod.namespace != ""
  }

  /** Being deleted, finished, or a mirror of a static pod. */
  predicate LeavesByItself(pod: Pod) {
    pod.deleting || pod.phase in {"Succeeded", "Failed"} || pod.mirror != ""
  }

  ghost predicate MustBeAskedAbout(pod: Pod) {
    Named(pod) && !LeavesByItself(pod) && !FirstControllerIs(pod.owners, "DaemonSet")
  }

  /** The fates, told apart by the pod's fields and the options alone. */
  ghost predicate HasFate(pod: Pod, options: Options, fate: Fate) {
    match fate
    case Ignored => Named(pod) && LeavesByItself(pod)
    case Skipped =>
      Named(pod) && !LeavesByItself(pod) && FirstControllerIs(pod.owners, "DaemonSet") && options.ignoreDaemonSets
    case Evicted =>
      && MustBeAskedAbout(pod)
      && (SomeVolumeIsLocal(pod) ==> options.deleteEmptyDirData) && (NoneControls(pod.owners) ==> options.force)
    case Refused(Unnamed) => !Named(pod)
    case Refused(DaemonSetPod(ref)) =>
      && Named(pod) && !LeavesByItself(pod) && FirstControllerIs(pod.owners, "DaemonSet") && !options.ignoreDaemonSets
      && ref == PodRef(pod.namespace, pod.name)
    case Refused(LocalData(ref)) =>
      && MustBeAskedAbout(pod) && SomeVolumeIsLocal(pod) && !options.deleteEmptyDirData
      && ref == PodRef(pod.namespace, pod.name)
    case Refused(Unmanaged(ref)) =>
      && MustBeAskedAbout(pod) && (SomeVolumeIsLocal(pod) ==> options.deleteEmptyDirData)
      && NoneControls(pod.owners) && !options.force
      && ref == PodRef(pod.namespace, pod.name)
  }

  lemma {:induction false} ControllerIsFirst(owners: seq<Owner>, kind: string)
    ensures Controller(owners) == None <==> NoneControls(owners)
    ensures Controller(owners) == Some(kind) <==> FirstControllerIs(owners, kind)
    decreases |owners|
  {
    if owners != [] && owners[0].controller {
      assert owners[0].kind == kind ==> ControlsFirst(owners, 0, kind);
    } else if owners != [] {
      var rest := owners[1..];
      ControllerIsFirst(rest, kind);
      assert forall k :: 0 < k < |owners| ==> owners[k] == rest[k - 1];
      assert forall k | 0 < k < |owners| :: ControlsFirst(owners, k, kind) <==> ControlsFirst(rest, k - 1, kind);
      assert forall k | 0 <= k < |rest| :: ControlsFirst(rest, k, kind) ==> ControlsFirst(owners, k + 1, kind);
    }
  }

  /** Each pod has exactly the fate that its fields and the options say. */
  lemma FateOnFields(pod: Pod, options: Options, fate: Fate)
    ensures FateOf(pod, options) == fate <==> HasFate(pod, options, fate)
  {
    ControllerIsFirst(pod.owners, "DaemonSet");
    assert UsesEmptyDir(pod) <==> SomeVolumeIsLocal(pod);
  }

  /** `refs` names, in list order and once each, exactly the pods with this fate. */
  ghost predicate Picks(refs: seq<PodRef>, pods: seq<Pod>, options: Options, fate: Fate) {
    exists ks :: PicksAt(refs, ks, pods, options, fate)
  }

  ghost predicate PicksAt(refs: seq<PodRef>, ks: seq<nat>, pods: seq<Pod>, options: Options, fate: Fate) {
    && |ks| == |refs| && (forall i, j :: 0 <= i < j < |ks| ==> ks[i] < ks[j])
    && (forall j :: 0 <= j < |ks| ==> ks[j] < |pods| && refs[j] == PodRef(pods[ks[j]].namespace, pods[ks[j]].name))
    && forall k :: 0 <= k < |pods| ==> (k in ks <==> HasFate(pods[k], options, fate))
  }

  lemma {:induction false} WithPicks(pods: seq<Pod>, options: Options, fate: Fate) returns (ks: seq<nat>)
    ensures PicksAt(With(pods, options, fate), ks, pods, options, fate)
    decreases |pods|
  {
    if pods == [] {
      ks := [];
    } else {
      var front, last := pods[..|pods| - 1], pods[|pods| - 1];
      var before := WithPicks(front, options, fate);
      FateOnFields(last, options, fate);
      PickOneMore(With(front, options, fate), before, front, last, options, fate);
      ks := before + if FateOf(last, options) == fate then [|front|] else [];
      assert front + [last] == pods;
    }
  }

  lemma PickOneMore(refs: seq<PodRef>, ks: seq<nat>, pods: seq<Pod>, last: Pod, options: Options, fate: Fate)
    requires PicksAt(refs, ks, pods, options, fate)
    ensures if HasFate(last, options, fate) then
            PicksAt(refs + [RefOf(last)], ks + [|pods|], pods + [last], options, fate)
            else PicksAt(refs, ks, pods + [last], options, fate)
  {
    forall k | k in ks ensures k < |pods| {
      var j :| 0 <= j < |ks| && ks[j] == k;
    }
  }

  // ---- As the agent computes it ---------------------------------------------------

  method PodController(owners: seq<Owner>) returns (kind: string, controlled: bool)
    ensures controlled <==> Controller(owners).Some?
    ensures kind == if controlled then Controller(owners).value else ""
  {
    for k := 0 to |owners|
      invariant Controller(owners) == Controller(owners[k..])
    {
      if owners[k].controller {
        return owners[k].kind, true;
      }
    }
    return "", false;
  }

  method PodUsesEmptyDir(volumes: seq<bool>) returns (uses: bool)
    ensures uses <==> true in volumes
  {
    for k := 0 to |volumes|
      invariant true !in volumes[..k]
    {
      if volumes[k] {
        return true;
      }
    }
    uses := false;
  }

  lemma OneMorePod(pods: seq<Pod>, k: nat, options: Options)
    requires k < |pods|
    ensures AllPass(pods[..k], options) && !FateOf(pods[k], options).Refused? ==> AllPass(pods[..k + 1], options)
    ensures forall fate :: With(pods[..k + 1], options, fate) ==
              With(pods[..k], options, fate) + (if FateOf(pods[k], options) == fate then [RefOf(pods[k])] else [])
  {
    var front, more := pods[..k], pods[..k + 1];
    assert more == front + [pods[k]] && more[..|more| - 1] == front;
    assert forall j :: 0 <= j < k ==> more[j] == front[j];
  }

  /** selectDrainPods: everything or nothing. It refuses exactly when some pod fails the
      options, naming the first such pod, and otherwise returns the pods to evict and the
      DaemonSet pods it skips, each in list order. */
  method SelectDrainPods(pods: seq<Pod>, options: Options) returns (r: Result<(seq<PodRef>, seq<PodRef>), Refusal>)
    ensures r.Ok? <==> AllPass(pods, options)
    ensures r.Ok? ==> r.value == (With(pods, options, Evicted), With(pods, options, Skipped))
    ensures r.Err? ==>
              exists k :: 0 <= k < |pods| && FateOf(pods[k], options) == Refused(r.error) && AllPass(pods[..k], options)
    ensures SelectsByFields(r, pods, options)
  {
    var candidates: seq<PodRef> := [];
    var skippedDaemonSets: seq<PodRef> := [];
    for k := 0 to |pods|
      invariant AllPass(pods[..k], options)
      invariant candidates == With(pods[..k], options, Evicted)
      invariant skippedDaemonSets == With(pods[..k], options, Skipped)
    {
      var pod := pods[k];
      OneMorePod(pods, k, options);
      FirstRefusal(pods, k, options);
      if pod.name == "" || pod.namespace == "" {
        return Err(Unnamed);
      }
      var qualified := PodRef(pod.namespace, pod.name);
      if pod.deleting || pod.phase == "Succeeded" || pod.phase == "Failed" {
        continue;
      }
      if pod.mirror != "" {
        continue;
      }
      var ownerKind, controlled := PodController(pod.owners);
      if ownerKind == "DaemonSet" {
        if !options.ignoreDaemonSets {
          return Err(DaemonSetPod(qualified));
        }
        skippedDaemonSets := skippedDaemonSets + [qualified];
        continue;
      }
      var emptyDir := PodUsesEmptyDir(pod.emptyDirs);
      if emptyDir && !options.deleteEmptyDirData {
        return Err(LocalData(qualified));
      }
      if !controlled && !options.force {
        return Err(Unmanaged(qualified));
      }
      candidates := candidates + [qualified];
    }
    assert pods[..|pods|] == pods;
    SelectionIsByFields(pods, options);
    r := Ok((candidates, skippedDaemonSets));
  }

  ghost predicate NoneRefused(pods: seq<Pod>, options: Options) {
    forall k, why :: 0 <= k < |pods| ==> !HasFate(pods[k], options, Refused(why))
  }

  /** A selection's answer, on the pods' fields. */
  ghost predicate SelectsByFields(r: Result<(seq<PodRef>, seq<PodRef>), Refusal>, pods: seq<Pod>, options: Options) {
    match r
    case Ok((candidates, skipped)) =>
      NoneRefused(pods, options) && Picks(candidates, pods, options, Evicted) && Picks(skipped, pods, options, Skipped)
    case Err(why) => exists k | 0 <= k < |pods| :: RefusedFirst(pods, k, options, why)
  }

  ghost predicate RefusedFirst(pods: seq<Pod>, k: nat, options: Options, why: Refusal)
    requires k < |pods|
  {
    HasFate(pods[k], options, Refused(why)) && NoneRefused(pods[..k], options)
  }

  lemma PassingIsByFields(pods: seq<Pod>, options: Options)
    ensures AllPass(pods, options) <==> NoneRefused(pods, options)
  {
    forall k, why | 0 <= k < |pods|
      ensures FateOf(pods[k], options) == Refused(why) <==> HasFate(pods[k], options, Refused(why))
    {
      FateOnFields(pods[k], options, Refused(why));
    }
  }

  lemma SelectionIsByFields(pods: seq<Pod>, options: Options)
    requires AllPass(pods, options)
    ensures SelectsByFields(Ok((With(pods, options, Evicted), With(pods, options, Skipped))), pods, options)
  {
    PassingIsByFields(pods, options);
    var evicted := WithPicks(pods, options, Evicted);
    var skipped := WithPicks(pods, options, Skipped);
  }

  lemma FirstRefusal(pods: seq<Pod>, k: nat, options: Options)
    requires k < |pods| && AllPass(pods[..k], options)
    ensures forall why :: FateOf(pods[k], options) == Refused(why) ==> SelectsByFields(Err(why), pods, options)
  {
    PassingIsByFields(pods[..k], options);
    forall why | FateOf(pods[k], options) == Refused(why) ensures SelectsByFields(Err(why), pods, options) {
      FateOnFields(pods[k], options, Refused(why));
      assert RefusedFirst(pods, k, options, why);
    }
  }

  // ---- What the selection means ---------------------------------------------------

  /** The selected references are those of the selected pods, and nothing else. */
  lemma {:induction false} WithIsExact(pods: seq<Pod>, options: Options, fate: Fate, ref: PodRef)
    ensures ref in With(pods, options, fate) <==>
            exists pod :: pod in pods && FateOf(pod, options) == fate && RefOf(pod) == ref
    decreases |pods|
  {
    if pods != [] {
      var front, last := pods[..|pods| - 1], pods[|pods| - 1];
      WithIsExact(front, options, fate, ref);
      assert forall pod :: pod in pods <==> pod in front || pod == last;
    }
  }

  /** On success the list splits into three parts, and no pod is lost or counted twice. */
  lemma {:induction false} PartsAddUp(pods: seq<Pod>, options: Options)
    requires AllPass(pods, options)
    ensures |pods| == |With(pods, options, Ignored)| + |With(pods, options, Skipped)| + |With(pods, options, Evicted)|
    decreases |pods|
  {
    if pods != [] {
      var front, last := pods[..|pods| - 1], pods[|pods| - 1];
      assert AllPass(front, options) by {
        forall k | 0 <= k < |front| ensures !FateOf(front[k], options).Refused? {
          assert front[k] == pods[k];
        }
      }
      PartsAddUp(front, options);
      assert !FateOf(pods[|pods| - 1], options).Refused?;
    }
  }

  /** No eviction breaks the options. */
  lemma EvictionsRespectOptions(pods: seq<Pod>, options: Options, ref: PodRef)
    requires ref in With(pods, options, Evicted)
    ensures exists pod :: pod in pods && RefOf(pod) == ref && HasFate(pod, options, Evicted)
  {
    WithIsExact(pods, options, Evicted, ref);
    var pod :| pod in pods && FateOf(pod, options) == Evicted && RefOf(pod) == ref;
    FateOnFields(pod, options, Evicted);
  }
}
