/** A whole drain: cordon, list, select, evict, wait. */
module DrainNode {
  import opened Basics
  import opened DrainPods
  import opened DrainSteps

  datatype Report = Report(changed: bool, evicted: seq<PodRef>, skippedDaemonSets: seq<PodRef>)

  datatype Failure = CordonFailed | ListingFailed(listing: Listing) | NotDrainable(why: Refusal) | NotDrained

  /** The node was seen cordoned before the first page of pods was asked for. */
  ghost predicate CordonedFirst(log: seq<Event>) {
    exists c :: 0 <= c < |log| && ShowsCordoned(log[c]) &&
      forall k :: 0 <= k < |log| && log[k].request.ListPods? ==> c < k
  }

  ghost predicate ListedBefore(log: seq<Event>, k: nat)
    requires k < |log|
  {
    forall j :: 0 <= j < |log| && log[j].request.ListPods? ==> j < k
  }

  /** The pages of the pod list were asked for one after the other, in one stretch: from the
      first page along the continue tokens to the page that announces no further one. */
  ghost predicate ListingComplete(log: seq<Event>) {
    exists from, to | 0 <= from < to <= |log| :: ListedWithin(log, from, to)
  }

  ghost predicate ListedWithin(log: seq<Event>, from: nat, to: nat)
    requires from < to <= |log|
  {
    && Pages(log[from..to]) && ListedToTheEnd(log[from..to])
    && forall k :: 0 <= k < |log| && log[k].request.ListPods? ==> from <= k < to
  }

  /** Every eviction ever asked for comes after the cordon and the whole listing, when all
      the listed pods had passed the options, and is for one of those to evict. */
  ghost predicate EvictionsJustified(log: seq<Event>, options: Options) {
    forall k :: 0 <= k < |log| && log[k].request.Evict? ==> Justified(log, k, options)
  }

  ghost predicate Justified(log: seq<Event>, k: nat, options: Options)
    requires k < |log| && log[k].request.Evict?
  {
    && CordonedFirst(log) && ListingComplete(log) && ListedBefore(log, k)
    && AllPass(PodsListed(log), options)
    && log[k].request.pod in With(PodsListed(log), options, Evicted)
  }

  /** The pod's eviction was accepted or answered 404, and later the pod was seen absent. */
  ghost predicate EvictedAndGone(log: seq<Event>, pod: PodRef) {
    exists e, g :: 0 <= e < g < |log| && EvictionDone(log[e], pod) && SeenAbsent(log[g], pod)
  }

  /** Nothing the listing showed is left on the node but what a drain leaves alone. */
  ghost predicate Drained(log: seq<Event>, options: Options) {
    && CordonedFirst(log) && ListingComplete(log)
    && forall pod :: pod in PodsListed(log) ==>
         FateOf(pod, options).Ignored? || FateOf(pod, options).Skipped? || EvictedAndGone(log, RefOf(pod))
  }

  ghost predicate NoListing(before: seq<Event>, log: seq<Event>) {
    before <= log && forall k :: |before| <= k < |log| ==> !log[k].request.ListPods?
  }

  ghost predicate NoEviction(log: seq<Event>) {
    forall k :: 0 <= k < |log| ==> !log[k].request.Evict?
  }

  /** Time is up, or the last eviction or look at a pod was turned down. */
  ghost predicate Stopped(log: seq<Event>, script: seq<Answer>) {
    || |log| == |script|
    || (log != [] && log[|log| - 1].request.Evict? && TurnedDown(log[|log| - 1].answer, {404, 429}))
    || (log != [] && log[|log| - 1].request.GetPod? && TurnedDown(log[|log| - 1].answer, {404}))
  }

  /** A drain fails only for a reason that its log shows. */
  ghost predicate FailsFor(why: Failure, log: seq<Event>, script: seq<Answer>, options: Options) {
    match why
    case CordonFailed => OnlyCordonRequests([], log) && CordonFails([], log, script)
    case ListingFailed(listing) =>
      !listing.Complete? && exists n | 0 <= n <= |log| :: ListingFailedFrom(listing, log, n, script)
    case NotDrainable(refusal) =>
      && CordonedFirst(log) && ListingComplete(log) && NoEviction(log)
      && exists pod :: pod in PodsListed(log) && FateOf(pod, options) == Fate.Refused(refusal)
    case NotDrained =>
      CordonedFirst(log) && ListingComplete(log) && AllPass(PodsListed(log), options) && Stopped(log, script)
  }

  ghost predicate ListingFailedFrom(listing: Listing, log: seq<Event>, n: nat, script: seq<Answer>)
    requires n <= |log|
  {
    IsCordon(log[..n]) && Lists(listing, log[n..], |log| == |script|)
  }

  ghost predicate IsCordon(cordoned: seq<Event>) {
    OnlyCordonRequests([], cordoned) && cordoned != [] && ShowsCordoned(cordoned[|cordoned| - 1])
  }

  /** The node was made unschedulable by this drain. */
  ghost predicate Cordoned(log: seq<Event>) {
    exists k :: 0 <= k < |log| && log[k].request == PatchNode(true) && Success(log[k].answer)
  }

  /** What a drain's answer says about its log. */
  ghost predicate DrainAnswers(r: Result<Report, Failure>, log: seq<Event>, script: seq<Answer>, options: Options) {
    match r
    case Ok(report) =>
      && Drained(log, options)
      && (report.changed <==> Cordoned(log))
      && report.evicted == With(PodsListed(log), options, Evicted)
      && report.skippedDaemonSets == With(PodsListed(log), options, Skipped)
    case Err(why) => FailsFor(why, log, script, options)
  }

  /** drainNode. `api.log` starts with the drain. */
  method DrainTheNode(api: ClusterApi, options: Options) returns (r: Result<Report, Failure>)
    requires api.Valid() && api.log == []
    modifies api
    ensures EvictionsJustified(api.log, options)
    ensures DrainAnswers(r, api.log, api.script, options)
    ensures r.Ok? ==> Emptied(api.log, options) && Picks(r.value.evicted, PodsListed(api.log), options, Evicted)
    ensures EvictionsAreDue(api.log, options)
  {
    var ok, changed := CordonNode(api);
    if !ok {
      return Err(CordonFailed);
    }
    ghost var cordoned := api.log;
    var listing := ListPodsOnNode(api);
    PagesAreRequests(cordoned, api.log);
    JustifiedIsDue(api.log, options);
    if !listing.Complete? {
      assert api.log[..|cordoned|] == cordoned && ListingFailedFrom(listing, api.log, |cordoned|, api.script);
      return Err(ListingFailed(listing));
    }
    r := DrainListed(api, listing.pods, changed, options, cordoned);
    JustifiedIsDue(api.log, options);
    if r.Ok? {
      DrainedIsEmptied(api.log, options);
      var ks := WithPicks(PodsListed(api.log), options, Evicted);
    }
  }

  /** On the fields of the pods in the pages themselves: each one is being deleted, finished or a
      mirror pod, or a DaemonSet's and to be ignored, or it was evicted and then seen absent. */
  ghost predicate Emptied(log: seq<Event>, options: Options) {
    forall k, pod :: 0 <= k < |log| && IsPage(log[k]) && pod in log[k].answer.pods ==>
      || LeavesByItself(pod)
      || (options.ignoreDaemonSets && FirstControllerIs(pod.owners, "DaemonSet"))
      || EvictedAndGone(log, PodRef(pod.namespace, pod.name))
  }

  /** A page of pods: a list request answered with a status from 200 to 299. */
  predicate IsPage(e: Event) {
    e.request.ListPods? && e.answer.Answer? && 200 <= e.answer.status <= 299
  }

  /** Whenever an eviction was asked for, no pod of any page was to be refused, and the pod to evict
      is on an earlier page and has, by its fields and the options, to be evicted. */
  ghost predicate EvictionsAreDue(log: seq<Event>, options: Options) {
    forall k :: 0 <= k < |log| && log[k].request.Evict? ==> NoPageRefused(log, options) && IsDue(log, k, options)
  }

  ghost predicate NoPageRefused(log: seq<Event>, options: Options) {
    forall j, pod, why :: 0 <= j < |log| && IsPage(log[j]) && pod in log[j].answer.pods ==>
      !HasFate(pod, options, Fate.Refused(why))
  }

  ghost predicate IsDue(log: seq<Event>, k: nat, options: Options)
    requires k < |log| && log[k].request.Evict?
  {
    exists j, pod :: 0 <= j < k && IsPage(log[j]) && pod in log[j].answer.pods &&
      log[k].request.pod == PodRef(pod.namespace, pod.name) && HasFate(pod, options, Evicted)
  }

  lemma JustifiedIsDue(log: seq<Event>, options: Options)
    requires EvictionsJustified(log, options)
    ensures EvictionsAreDue(log, options)
  {
    forall k | 0 <= k < |log| && log[k].request.Evict? ensures NoPageRefused(log, options) && IsDue(log, k, options) {
      assert Justified(log, k, options);
      NothingRefused(log, options);
      var pods, ref := PodsListed(log), log[k].request.pod;
      WithIsExact(pods, options, Evicted, ref);
      var pod :| pod in pods && FateOf(pod, options) == Evicted && RefOf(pod) == ref;
      FateOnFields(pod, options, Evicted);
      var j := ListedComesFromAPage(log, pod);
      assert j < k;
    }
  }

  lemma NothingRefused(log: seq<Event>, options: Options)
    requires AllPass(PodsListed(log), options)
    ensures NoPageRefused(log, options)
  {
    PassingIsByFields(PodsListed(log), options);
    forall j, pod, why | 0 <= j < |log| && IsPage(log[j]) && pod in log[j].answer.pods
      ensures !HasFate(pod, options, Fate.Refused(why))
    {
      EveryPodIsListed(log, j, pod);
      var i :| 0 <= i < |PodsListed(log)| && PodsListed(log)[i] == pod;
    }
  }

  /** The listed pods are those of the pages, page after page. */
  lemma ListedPageByPage(events: seq<Event>, e: Event)
    ensures PodsListed([]) == []
    ensures PodsListed(events + [e]) == PodsListed(events) + (if IsPage(e) then e.answer.pods else [])
  {
    PodsListedSnoc(events, e);
  }

  lemma {:induction false} EveryPodIsListed(events: seq<Event>, k: nat, pod: Pod)
    requires k < |events| && IsPage(events[k]) && pod in events[k].answer.pods
    ensures pod in PodsListed(events)
    decreases |events|
  {
    if k < |events| - 1 {
      EveryPodIsListed(events[..|events| - 1], k, pod);
    }
  }

  lemma {:induction false} ListedComesFromAPage(events: seq<Event>, pod: Pod) returns (k: nat)
    requires pod in PodsListed(events)
    ensures k < |events| && IsPage(events[k]) && pod in events[k].answer.pods
    decreases |events|
  {
    var front := events[..|events| - 1];
    if pod in PodsListed(front) {
      k := ListedComesFromAPage(front, pod);
    } else {
      k := |events| - 1;
    }
  }

  lemma DrainedIsEmptied(log: seq<Event>, options: Options)
    requires Drained(log, options)
    ensures Emptied(log, options)
  {
    forall k, pod | 0 <= k < |log| && IsPage(log[k]) && pod in log[k].answer.pods
      ensures || LeavesByItself(pod)
              || (options.ignoreDaemonSets && FirstControllerIs(pod.owners, "DaemonSet"))
              || EvictedAndGone(log, PodRef(pod.namespace, pod.name))
    {
      EveryPodIsListed(log, k, pod);
      FateOnFields(pod, options, Ignored);
      FateOnFields(pod, options, Skipped);
    }
  }

  /** The rest of drainNode, once the pods are listed. */
  method DrainListed(api: ClusterApi, pods: seq<Pod>, changed: bool, options: Options, ghost cordoned: seq<Event>)
      returns (r: Result<Report, Failure>)
    requires api.Valid() && IsCordon(cordoned) && ListsAll(cordoned, api.log) &&
             pods == PodsListed(Since(cordoned, api.log))
    requires (changed <==> cordoned[|cordoned| - 1].request.PatchNode?) && (changed || |cordoned| == 1)
    modifies api
    ensures EvictionsJustified(api.log, options)
    ensures DrainAnswers(r, api.log, api.script, options)
  {
    ghost var listed := api.log;
    var selection := SelectDrainPods(pods, options);
    NothingEvictedYet(cordoned, listed);
    if selection.Err? {
      return Err(NotDrainable(selection.error));
    }
    var selected := selection.value.0;
    var candidates := new PodRef[|selected|](k requires 0 <= k < |selected| => selected[k]);
    assert candidates[..] == selected;
    var drained, evicted := EvictAndWait(api, candidates, options, cordoned, listed);
    PatchesAreTheCordons(cordoned, listed, api.log, changed);
    r := if drained then Ok(Report(changed, evicted, selection.value.1)) else Err(NotDrained);
  }

  /** After the listing: the log is complete, and no pod has been evicted. */
  lemma NothingEvictedYet(cordoned: seq<Event>, listed: seq<Event>)
    requires IsCordon(cordoned) && ListsAll(cordoned, listed)
    ensures NoEviction(listed) && CordonedFirst(listed) && ListingComplete(listed)
    ensures PodsListed(listed) == PodsListed(Since(cordoned, listed))
  {
    PagesAreRequests(cordoned, listed);
    CordonCameFirst(cordoned, listed);
    ListingWasComplete(cordoned, listed, listed);
    ListingIsSettled(cordoned, listed, listed);
  }

  lemma PagesAreRequests(cordoned: seq<Event>, listed: seq<Event>)
    requires OnlyCordonRequests([], cordoned) && cordoned <= listed && Pages(Since(cordoned, listed))
    ensures NoEviction(listed)
    ensures forall k :: |cordoned| <= k < |listed| ==> listed[k].request.ListPods?
  {
    var events := Since(cordoned, listed);
    forall k | |cordoned| <= k < |listed| ensures listed[k].request.ListPods? {
      assert Continues(events, k - |cordoned|);
    }
  }

  lemma PatchesAreTheCordons(cordoned: seq<Event>, listed: seq<Event>, log: seq<Event>, changed: bool)
    requires IsCordon(cordoned) && ListsAll(cordoned, listed) && NoPatch(listed, log)
    requires changed <==> cordoned[|cordoned| - 1].request.PatchNode?
    requires changed || |cordoned| == 1
    ensures changed <==> Cordoned(log)
  {
    PagesAreRequests(cordoned, listed);
    assert forall k :: 0 <= k < |cordoned| ==> log[k] == cordoned[k];
    assert forall k :: 0 <= k < |listed| ==> log[k] == listed[k];
    assert forall k :: |cordoned| <= k < |log| ==> !log[k].request.PatchNode?;
    if changed {
      assert log[|cordoned| - 1].request == PatchNode(true);
    }
  }

  ghost predicate NoPatch(before: seq<Event>, log: seq<Event>) {
    before <= log && forall k :: |before| <= k < |log| ==> !log[k].request.PatchNode?
  }

  ghost predicate ListsAll(cordoned: seq<Event>, listed: seq<Event>) {
    cordoned <= listed && Pages(Since(cordoned, listed)) && ListedToTheEnd(Since(cordoned, listed))
  }

  /** The node is cordoned, its pods are listed, and `selected` are those to evict. */
  ghost predicate ReadyToEvict(cordoned: seq<Event>, listed: seq<Event>, selected: seq<PodRef>, options: Options) {
    && IsCordon(cordoned) && ListsAll(cordoned, listed)
    && AllPass(PodsListed(Since(cordoned, listed)), options)
    && selected == With(PodsListed(Since(cordoned, listed)), options, Evicted)
  }

  /** The rest of drainNode, once the pods to evict are known. */
  method EvictAndWait(api: ClusterApi, candidates: array<PodRef>, options: Options, ghost cordoned: seq<Event>,
                      ghost listed: seq<Event>)
      returns (drained: bool, evicted: seq<PodRef>)
    requires api.Valid() && api.log == listed && ReadyToEvict(cordoned, listed, candidates[..], options)
    modifies api
    ensures api.Valid() && NoPatch(listed, api.log) && PodsListed(api.log) == PodsListed(Since(cordoned, listed))
    ensures EvictionsJustified(api.log, options) && CordonedFirst(api.log) && ListingComplete(api.log)
    ensures if drained then Drained(api.log, options) && evicted == candidates[..] else Stopped(api.log, api.script)
  {
    evicted := EvictAll(api, candidates);
    if |evicted| < candidates.Length {
      EvictionsAreJustified(cordoned, listed, api.log, api.log, candidates[..], options);
      return false, evicted;
    }
    ghost var accepted := api.log;
    drained := WaitForPodsDeleted(api, candidates);
    EvictionsAreJustified(cordoned, listed, accepted, api.log, candidates[..], options);
    if drained {
      NodeIsDrained(cordoned, listed, accepted, api.log, candidates[..], options);
    }
  }

  /** The eviction loop of drainNode; it returns the pods whose eviction was accepted. */
  method EvictAll(api: ClusterApi, candidates: array<PodRef>) returns (evicted: seq<PodRef>)
    requires api.Valid()
    modifies api
    ensures api.Valid() && OnlyEvictionsOf(old(api.log), api.log, candidates[..])
    ensures evicted <= candidates[..]
    ensures |evicted| < candidates.Length ==> Stopped(api.log, api.script)
    ensures forall pod :: pod in evicted ==> WasEvicted(old(api.log), api.log, pod)
  {
    evicted := [];
    for k := 0 to candidates.Length
      invariant api.Valid() && OnlyEvictionsOf(old(api.log), api.log, candidates[..])
      invariant evicted == candidates[..k]
      invariant forall pod :: pod in evicted ==> WasEvicted(old(api.log), api.log, pod)
    {
      var pod := candidates[k];
      ghost var before := api.log;
      var ok := EvictPodUntilAccepted(api, pod);
      forall earlier | earlier in evicted ensures WasEvicted(old(api.log), api.log, earlier) {
        WasEvictedStays(old(api.log), before, api.log, earlier);
      }
      if !ok {
        return;
      }
      assert EvictionDone(api.log[|api.log| - 1], pod);
      evicted := evicted + [pod];
    }
  }

  ghost predicate WasEvicted(before: seq<Event>, log: seq<Event>, pod: PodRef) {
    exists k :: |before| <= k < |log| && EvictionDone(log[k], pod)
  }

  lemma WasEvictedStays(start: seq<Event>, log: seq<Event>, later: seq<Event>, pod: PodRef)
    requires log <= later && WasEvicted(start, log, pod)
    ensures WasEvicted(start, later, pod)
  {
    var k :| |start| <= k < |log| && EvictionDone(log[k], pod);
    assert EvictionDone(later[k], pod);
  }

  lemma {:induction false} NothingListed(events: seq<Event>)
    requires forall k :: 0 <= k < |events| ==> !events[k].request.ListPods?
    ensures PodsListed(events) == []
    decreases |events|
  {
    if events != [] {
      NothingListed(events[..|events| - 1]);
    }
  }

  lemma AppendAssociates(a: seq<Event>, b: seq<Event>, e: Event)
    ensures a + (b + [e]) == (a + b) + [e]
  {
  }

  lemma PodsAssociate(a: seq<Pod>, b: seq<Pod>, c: seq<Pod>)
    ensures a + (b + c) == (a + b) + c
  {
  }

  lemma {:induction false} PodsListedAppend(a: seq<Event>, b: seq<Event>)
    ensures PodsListed(a + b) == PodsListed(a) + PodsListed(b)
    decreases |b|
  {
    if b == [] {
      assert a + b == a;
    } else {
      var front, last := b[..|b| - 1], b[|b| - 1];
      assert b == front + [last];
      PodsListedAppend(a, front);
      AppendAssociates(a, front, last);
      PodsListedSnoc(a + front, last);
      PodsListedSnoc(front, last);
      PodsAssociate(PodsListed(a), PodsListed(front), PodsIn(last));
    }
  }

  /** What the whole log lists is what the listing listed. */
  lemma ListingIsSettled(cordoned: seq<Event>, listed: seq<Event>, log: seq<Event>)
    requires IsCordon(cordoned) && cordoned <= listed && NoListing(listed, log)
    ensures PodsListed(log) == PodsListed(Since(cordoned, listed))
  {
    OnlyFirstPartLists(listed, log);
    NothingListed(cordoned);
    var events := Since(cordoned, listed);
    assert listed == cordoned + events;
    PodsListedAppend(cordoned, events);
  }

  lemma OnlyFirstPartLists(listed: seq<Event>, log: seq<Event>)
    requires NoListing(listed, log)
    ensures PodsListed(log) == PodsListed(listed)
  {
    var tail := log[|listed|..];
    assert log == listed + tail;
    NothingListed(tail);
    PodsListedAppend(listed, tail);
  }

  lemma CordonCameFirst(cordoned: seq<Event>, log: seq<Event>)
    requires IsCordon(cordoned) && cordoned <= log
    ensures CordonedFirst(log)
  {
    var c := |cordoned| - 1;
    assert forall k :: 0 <= k < |cordoned| ==> log[k] == cordoned[k];
  }

  lemma EvictionsAreJustified(cordoned: seq<Event>, listed: seq<Event>, accepted: seq<Event>, log: seq<Event>,
                              selected: seq<PodRef>, options: Options)
    requires ReadyToEvict(cordoned, listed, selected, options)
    requires OnlyEvictionsOf(listed, accepted, selected) && OnlyLooksAt(accepted, log, selected)
    ensures PodsListed(log) == PodsListed(Since(cordoned, listed))
    ensures EvictionsJustified(log, options) && ListingComplete(log) && CordonedFirst(log)
  {
    EvictionsComeLater(cordoned, listed, accepted, log, selected);
    ListingIsSettled(cordoned, listed, log);
    CordonCameFirst(cordoned, log);
    ListingWasComplete(cordoned, listed, log);
    forall k | 0 <= k < |log| && log[k].request.Evict? ensures Justified(log, k, options) {
      assert ListedBefore(log, k);
    }
  }

  lemma EvictionsComeLater(cordoned: seq<Event>, listed: seq<Event>, accepted: seq<Event>, log: seq<Event>,
                           selected: seq<PodRef>)
    requires IsCordon(cordoned) && ListsAll(cordoned, listed)
    requires OnlyEvictionsOf(listed, accepted, selected) && OnlyLooksAt(accepted, log, selected)
    ensures NoListing(listed, log)
    ensures forall k :: 0 <= k < |log| && log[k].request.Evict? ==> |listed| <= k && log[k].request.pod in selected
  {
    PagesAreRequests(cordoned, listed);
    assert forall k :: 0 <= k < |listed| ==> log[k] == listed[k];
    assert forall k :: 0 <= k < |accepted| ==> log[k] == accepted[k];
  }

  lemma ListingWasComplete(cordoned: seq<Event>, listed: seq<Event>, log: seq<Event>)
    requires IsCordon(cordoned) && ListsAll(cordoned, listed) && NoListing(listed, log)
    ensures ListingComplete(log)
  {
    var from, to := |cordoned|, |listed|;
    assert log[from..to] == Since(cordoned, listed);
    assert forall k :: 0 <= k < from ==> log[k] == cordoned[k];
    assert ListedWithin(log, from, to);
  }

  lemma GoneAfterwards(listed: seq<Event>, accepted: seq<Event>, log: seq<Event>, ref: PodRef)
    requires accepted <= log && WasEvicted(listed, accepted, ref) && WasSeenAbsent(accepted, log, ref)
    ensures EvictedAndGone(log, ref)
  {
    var e :| |listed| <= e < |accepted| && EvictionDone(accepted[e], ref);
    var g :| |accepted| <= g < |log| && SeenAbsent(log[g], ref);
    assert EvictionDone(log[e], ref);
  }

  lemma NodeIsDrained(cordoned: seq<Event>, listed: seq<Event>, accepted: seq<Event>, log: seq<Event>,
                      selected: seq<PodRef>, options: Options)
    requires ReadyToEvict(cordoned, listed, selected, options) && listed <= accepted <= log && ListingComplete(log)
    requires PodsListed(log) == PodsListed(Since(cordoned, listed))
    requires forall ref :: ref in selected ==> WasEvicted(listed, accepted, ref) && WasSeenAbsent(accepted, log, ref)
    ensures Drained(log, options)
  {
    CordonCameFirst(cordoned, log);
    var pods := PodsListed(log);
    forall pod | pod in pods && FateOf(pod, options).Evicted?
      ensures EvictedAndGone(log, RefOf(pod))
    {
      WithIsExact(pods, options, Evicted, RefOf(pod));
      GoneAfterwards(listed, accepted, log, RefOf(pod));
    }
    forall pod | pod in pods ensures !FateOf(pod, options).Refused? {
      var k :| 0 <= k < |pods| && pods[k] == pod;
    }
  }
}
