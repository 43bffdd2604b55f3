/**
 Draining a node against an API server that may answer anything, any time.

 `script` holds the server's answers to come, one per request; when it runs out, the
 drain's deadline has passed. `log` is what was asked and answered so far, so a statement
 about every script and its log is a statement about every run.
 */
module DrainSteps {
  import opened DrainPods
  import Pagination

  const MAX_ITEMS := Pagination.MAX_ITEMS

  /** A response: its status, and the parts of its body that some request reads. */
  datatype Answer = Answer(status: int, unschedulable: bool, pods: seq<Pod>, next: string) | NoAnswer

  datatype Request =
    | GetNode
    | PatchNode(unschedulable: bool)
    | ListPods(query: Pagination.Query)
    | Evict(pod: PodRef)
    | GetPod(pod: PodRef)

  datatype Event = Event(request: Request, answer: Answer)

  predicate Success(a: Answer) {
    a.Answer? && 200 <= a.status < 300
  }

  /** The status is neither a success nor one that the request allows. */
  predicate TurnedDown(a: Answer, allowed: set<int>) {
    !Success(a) && !(a.Answer? && a.status in allowed)
  }

  predicate HasStatus(a: Answer, status: int) {
    a.Answer? && a.status == status
  }

  class ClusterApi {
    const script: seq<Answer>
    var log: seq<Event>

    ghost predicate Valid()
      reads this
    {
      |log| <= |script| && forall k :: 0 <= k < |log| ==> log[k].answer == script[k]
    }

    constructor (script: seq<Answer>)
      ensures Valid() && log == [] && this.script == script
    {
      this.script := script;
      log := [];
    }

    /** kubernetesClient.request: an answer is accepted if it is a success or its status is
        allowed; everything else is an error. */
    method Send(request: Request, allowed: set<int>) returns (accepted: bool, answer: Answer)
      requires Valid()
      modifies this
      ensures Valid()
      ensures |old(log)| == |script| ==> !accepted && log == old(log)
      ensures |old(log)| < |script| ==> log == old(log) + [Event(request, answer)] && answer == script[|old(log)|]
      ensures accepted <==> |old(log)| < |script| && !TurnedDown(answer, allowed)
    {
      if |log| == |script| {
        return false, NoAnswer;
      }
      answer := script[|log|];
      log := log + [Event(request, answer)];
      accepted := answer.Answer? && (200 <= answer.status < 300 || answer.status in allowed);
    }

    /** waitForDrainRetry, and the pause between conflicting patches. */
    method Pause() returns (expired: bool)
      requires Valid()
      ensures expired <==> |log| == |script|
    {
      expired := |log| == |script|;
    }
  }

  /** The events since `before`. */
  function Since(before: seq<Event>, log: seq<Event>): seq<Event>
    requires |before| <= |log|
  {
    log[|before|..]
  }

  // ---- Cordon -------------------------------------------------------------------

  /** Reading the node, or asking for it to be unschedulable. */
  predicate IsCordonRequest(r: Request) {
    r == GetNode || r == PatchNode(true)
  }

  /** An answer in which the node is unschedulable. */
  predicate ShowsCordoned(e: Event) {
    IsCordonRequest(e.request) && Success(e.answer) && e.answer.unschedulable
  }

  ghost predicate OnlyCordonRequests(before: seq<Event>, log: seq<Event>) {
    before <= log && forall k :: |before| <= k < |log| ==> IsCordonRequest(log[k].request)
  }

  predicate Conflicted(e: Event) {
    e.request == PatchNode(true) && HasStatus(e.answer, 409)
  }

  /** The last answer is one that ends a cordon in vain: a request was refused, or the
      patched node is still schedulable. */
  predicate CordonRefused(e: Event) {
    || (e.request == GetNode && !Success(e.answer))
    || (e.request == PatchNode(true) && !Success(e.answer) && !HasStatus(e.answer, 409))
    || (e.request == PatchNode(true) && Success(e.answer) && !e.answer.unschedulable)
  }

  /** One read, then up to three rounds of a read and a patch. */
  const CORDON_REQUESTS := 7

  /** setNodeUnschedulable with the patch loop it calls, for cordoning. It fails only for a
      reason: time is up, the last answer is a refusal, or three patches conflicted. */
  method CordonNode(api: ClusterApi) returns (ok: bool, changed: bool)
    requires api.Valid()
    modifies api
    ensures api.Valid()
    ensures OnlyCordonRequests(old(api.log), api.log) && |api.log| <= |old(api.log)| + CORDON_REQUESTS
    ensures ok ==> |old(api.log)| < |api.log| && ShowsCordoned(api.log[|api.log| - 1])
    ensures ok ==> (changed <==> api.log[|api.log| - 1].request.PatchNode?)
    ensures ok ==> changed || |api.log| == |old(api.log)| + 1
    ensures !ok ==> CordonFails(old(api.log), api.log, api.script)
  {
    var accepted, node := api.Send(GetNode, {});
    if !accepted {
      return false, false;
    }
    if node.unschedulable {
      return true, false;
    }
    for attempt := 0 to 3
      invariant api.Valid()
      invariant OnlyCordonRequests(old(api.log), api.log)
      invariant |api.log| == |old(api.log)| + 1 + 2 * attempt
      invariant attempt > 0 ==> Conflicted(api.log[|api.log| - 1])
    {
      accepted, node := api.Send(GetNode, {404});
      if !accepted || node.status == 404 {
        return false, false;
      }
      accepted, node := api.Send(PatchNode(true), {409});
      if !accepted {
        return false, false;
      }
      if node.status != 409 {
        return node.unschedulable, true;
      }
      if attempt < 2 {
        var expired := api.Pause();
        if expired {
          return false, false;
        }
      }
    }
    return false, false;
  }

  ghost predicate CordonFails(before: seq<Event>, log: seq<Event>, script: seq<Answer>) {
    || |log| == |script|
    || (|before| < |log| && CordonRefused(log[|log| - 1]))
    || (|log| == |before| + CORDON_REQUESTS && Conflicted(log[|log| - 1]))
  }

  // ---- Listing ------------------------------------------------------------------

  /** The pods that one event brings. */
  function PodsIn(e: Event): seq<Pod> {
    if e.request.ListPods? && Success(e.answer) then e.answer.pods else []
  }

  /** The pods in the pages of a stretch of the log, in order. */
  function PodsListed(events: seq<Event>): seq<Pod> {
    if events == [] then []
    else
      var last := events[|events| - 1];
      PodsListed(events[..|events| - 1]) + PodsIn(last)
  }

  predicate HasMore(a: Answer) {
    Success(a) && a.next != ""
  }

  /** The request for the page after these: what still fits, and where the last page ended. */
  function NextPage(events: seq<Event>): Request {
    var token := if events != [] && events[|events| - 1].answer.Answer? then events[|events| - 1].answer.next else "";
    ListPods(Pagination.NextQuery(|PodsListed(events)|, token))
  }

  /** A stretch of the log that follows the continue tokens, from the first page on. */
  ghost predicate Pages(events: seq<Event>) {
    forall k :: 0 <= k < |events| ==> Continues(events, k)
  }

  predicate Continues(events: seq<Event>, k: nat)
    requires k < |events|
  {
    events[k].request == NextPage(events[..k]) && (k > 0 ==> HasMore(events[k - 1].answer))
  }

  /** The listing went through to a page without a continue token. */
  predicate ListedToTheEnd(events: seq<Event>) {
    events != [] && Success(events[|events| - 1].answer) && events[|events| - 1].answer.next == ""
  }

  lemma PagesSnoc(events: seq<Event>, e: Event)
    requires Pages(events) && e.request == NextPage(events)
    requires events != [] ==> HasMore(events[|events| - 1].answer)
    ensures Pages(events + [e])
  {
    var all := events + [e];
    assert all[..|events|] == events;
    forall k | 0 <= k < |events| ensures Continues(all, k) {
      assert Continues(events, k) && all[..k] == events[..k];
    }
  }

  lemma SinceSnoc(before: seq<Event>, log: seq<Event>, e: Event)
    requires before <= log
    ensures Since(before, log + [e]) == Since(before, log) + [e]
    ensures before <= log + [e]
  {
  }

  lemma PodsListedSnoc(events: seq<Event>, e: Event)
    ensures PodsListed(events + [e]) ==
            PodsListed(events) + PodsIn(e)
  {
    assert (events + [e])[..|events + [e]| - 1] == events;
  }

  /** The tokens that the pages of a stretch of the log announce. */
  function TokensAnnounced(events: seq<Event>): set<string> {
    set k | 0 <= k < |events| && events[k].answer.Answer? && events[k].answer.next != "" :: events[k].answer.next
  }

  datatype Listing = Complete(pods: seq<Pod>) | ListFailed | RepeatedToken | TooMany

  /** What a listing promises of the events it adds to the log. */
  ghost predicate Lists(r: Listing, events: seq<Event>, expired: bool) {
    && Pages(events)
    && |events| <= |TokensAnnounced(events)| + 1
    && match r
       case Complete(pods) => pods == PodsListed(events) && ListedToTheEnd(events)
       case TooMany => |PodsListed(events)| >= MAX_ITEMS && events != [] && HasMore(events[|events| - 1].answer)
       case RepeatedToken =>
         events != [] && HasMore(events[|events| - 1].answer) &&
         events[|events| - 1].answer.next in TokensAnnounced(events[..|events| - 1])
       case ListFailed =>
         || (events != [] && !Success(events[|events| - 1].answer))
         || (expired && (events != [] ==> HasMore(events[|events| - 1].answer)))
  }

  /** listPodsOnNode */
  method ListPodsOnNode(api: ClusterApi) returns (r: Listing)
    requires api.Valid()
    modifies api
    ensures api.Valid() && old(api.log) <= api.log
    ensures Lists(r, Since(old(api.log), api.log), |api.log| == |api.script|)
  {
    var items: seq<Pod> := [];
    var continuation := "";
    var seen: set<string> := {};
    ghost var events: seq<Event> := [];
    while |items| < MAX_ITEMS
      invariant api.Valid() && old(api.log) <= api.log && events == Since(old(api.log), api.log)
      invariant UnderWay(events, items, continuation, seen)
      decreases |api.script| - |api.log|
    {
      var limit := Pagination.PAGE_SIZE;
      if MAX_ITEMS - |items| < limit {
        limit := MAX_ITEMS - |items|;
      }
      ghost var log, before := api.log, events;
      var query := Pagination.Query(limit, continuation);
      var accepted, page := api.Send(ListPods(query), {});
      if |log| < |api.script| {
        SinceSnoc(old(api.log), log, Event(ListPods(query), page));
        events := events + [Event(ListPods(query), page)];
        Turned(before, items, continuation, seen, Event(ListPods(query), page));
      }
      if !accepted {
        return ListFailed;
      }
      items := items + page.pods;
      continuation := page.next;
      if continuation == "" {
        return Complete(items);
      }
      if continuation in seen {
        return RepeatedToken;
      }
      seen := seen + {continuation};
    }
    r := TooMany;
  }

  /** Where the loop stands after some pages, each of which announced a new token. */
  ghost predicate UnderWay(events: seq<Event>, items: seq<Pod>, continuation: string, seen: set<string>) {
    && Pages(events) && items == PodsListed(events)
    && seen == TokensAnnounced(events) && |seen| == |events|
    && (if events == [] then continuation == ""
        else HasMore(events[|events| - 1].answer) && continuation == events[|events| - 1].answer.next)
  }

  /** What one more answer makes of that. */
  lemma Turned(events: seq<Event>, items: seq<Pod>, continuation: string, seen: set<string>, e: Event)
    requires UnderWay(events, items, continuation, seen)
    requires e.request == ListPods(Pagination.NextQuery(|items|, continuation))
    ensures Pages(events + [e]) && |events + [e]| <= |TokensAnnounced(events + [e])| + 1
    ensures Success(e.answer) ==> PodsListed(events + [e]) == items + e.answer.pods
    ensures TokensAnnounced((events + [e])[..|events + [e]| - 1]) == seen
    ensures HasMore(e.answer) && e.answer.next !in seen ==>
              UnderWay(events + [e], items + e.answer.pods, e.answer.next, seen + {e.answer.next})
  {
    assert (events + [e])[..|events + [e]| - 1] == events;
    PagesSnoc(events, e);
    PodsListedSnoc(events, e);
    TokensSnoc(events, e);
  }

  lemma TokensSnoc(events: seq<Event>, e: Event)
    ensures TokensAnnounced(events + [e]) ==
            TokensAnnounced(events) + (if e.answer.Answer? && e.answer.next != "" then {e.answer.next} else {})
    ensures |TokensAnnounced(events)| <= |TokensAnnounced(events + [e])|
  {
    var all := events + [e];
    assert all[|events|] == e && forall k :: 0 <= k < |events| ==> all[k] == events[k];
    var more := if e.answer.Answer? && e.answer.next != "" then {e.answer.next} else {};
    var rest := more - TokensAnnounced(events);
    assert TokensAnnounced(all) == TokensAnnounced(events) + rest;
  }

  // ---- Evicting -----------------------------------------------------------------

  /** The eviction was accepted, or the pod was already gone. */
  predicate EvictionDone(e: Event, pod: PodRef) {
    e.request == Evict(pod) && (Success(e.answer) || HasStatus(e.answer, 404))
  }

  ghost predicate OnlyEvictionsOf(before: seq<Event>, log: seq<Event>, pods: seq<PodRef>) {
    before <= log && forall k :: |before| <= k < |log| ==> log[k].request.Evict? && log[k].request.pod in pods
  }

  /** Time is up, or the last answer is neither an acceptance, nor 404, nor 429. */
  ghost predicate EvictionStopped(before: seq<Event>, log: seq<Event>, script: seq<Answer>) {
    || (|log| == |script| && (|before| < |log| ==> HasStatus(log[|log| - 1].answer, 429)))
    || (|before| < |log| && TurnedDown(log[|log| - 1].answer, {404, 429}))
  }

  /** evictPodUntilAccepted: again and again while the server answers 429. */
  method EvictPodUntilAccepted(api: ClusterApi, pod: PodRef) returns (ok: bool)
    requires api.Valid()
    modifies api
    ensures api.Valid()
    ensures OnlyEvictionsOf(old(api.log), api.log, [pod])
    ensures ok ==> |old(api.log)| < |api.log| && EvictionDone(api.log[|api.log| - 1], pod)
    ensures forall k :: |old(api.log)| <= k < |api.log| - 1 ==> HasStatus(api.log[k].answer, 429)
    ensures !ok ==> EvictionStopped(old(api.log), api.log, api.script)
  {
    while true
      invariant api.Valid()
      invariant OnlyEvictionsOf(old(api.log), api.log, [pod])
      invariant forall k :: |old(api.log)| <= k < |api.log| ==> HasStatus(api.log[k].answer, 429)
      decreases |api.script| - |api.log|
    {
      var accepted, answer := api.Send(Evict(pod), {404, 429});
      if !accepted {
        return false;
      }
      if answer.status == 404 {
        return true;
      }
      if answer.status != 429 {
        return true;
      }
      var expired := api.Pause();
      if expired {
        return false;
      }
    }
  }

  // ---- Waiting ------------------------------------------------------------------

  predicate SeenAbsent(e: Event, pod: PodRef) {
    e.request == GetPod(pod) && HasStatus(e.answer, 404)
  }

  /** Some event since `before` shows that the pod is gone. */
  ghost predicate WasSeenAbsent(before: seq<Event>, log: seq<Event>, pod: PodRef) {
    exists k :: |before| <= k < |log| && SeenAbsent(log[k], pod)
  }

  ghost predicate OnlyLooksAt(before: seq<Event>, log: seq<Event>, pods: seq<PodRef>) {
    before <= log && forall k :: |before| <= k < |log| ==> log[k].request.GetPod? && log[k].request.pod in pods
  }

  /** Of the first `n` pods, those that the answers from `from` on do not report absent. */
  function StillThere(pods: seq<PodRef>, answers: seq<Answer>, from: nat, n: nat): seq<PodRef>
    requires n <= |pods| && from + n <= |answers|
  {
    if n == 0 then []
    else StillThere(pods, answers, from, n - 1) + (if HasStatus(answers[from + n - 1], 404) then [] else [pods[n - 1]])
  }

  lemma {:induction false} StillThereOrAbsent(pods: seq<PodRef>, answers: seq<Answer>, from: nat, n: nat, k: nat)
    requires k < n <= |pods| && from + n <= |answers|
    ensures pods[k] in StillThere(pods, answers, from, n) || HasStatus(answers[from + k], 404)
  {
    if k < n - 1 {
      StillThereOrAbsent(pods, answers, from, n - 1, k);
    }
  }

  lemma {:induction false} StillThereNext(pods: seq<PodRef>, answers: seq<Answer>, from: nat, n: nat)
    requires n < |pods| && from + n < |answers|
    ensures StillThere(pods, answers, from, n + 1) ==
            StillThere(pods, answers, from, n) + (if HasStatus(answers[from + n], 404) then [] else [pods[n]])
  {
  }

  lemma {:induction false} StillThereIsPart(pods: seq<PodRef>, answers: seq<Answer>, from: nat, n: nat)
    requires n <= |pods| && from + n <= |answers|
    ensures |StillThere(pods, answers, from, n)| <= n
    ensures forall pod :: pod in StillThere(pods, answers, from, n) ==> pod in pods
  {
    if n > 0 {
      StillThereIsPart(pods, answers, from, n - 1);
    }
  }

  /** The requests since `before` are for the first of `pods`, in order. */
  ghost predicate LooksInOrder(before: seq<Event>, log: seq<Event>, pods: seq<PodRef>) {
    before <= log && |log| <= |before| + |pods| &&
    forall k :: |before| <= k < |log| ==> log[k].request == GetPod(pods[k - |before|])
  }

  /** Time is up, or the last answer is neither the pod nor 404. */
  ghost predicate WaitStopped(before: seq<Event>, log: seq<Event>, script: seq<Answer>) {
    |log| == |script| || (|before| < |log| && TurnedDown(log[|log| - 1].answer, {404}))
  }

  /** One pass of waitForPodsDeleted over the first `n` elements. The pods still there are
      moved to the front of the same array, behind the reading position. */
  method PassOver(api: ClusterApi, remaining: array<PodRef>, n: nat) returns (ok: bool, kept: nat)
    requires api.Valid() && n <= remaining.Length
    modifies api, remaining
    ensures api.Valid()
    ensures LooksInOrder(old(api.log), api.log, old(remaining[..n]))
    ensures ok ==> |api.log| == |old(api.log)| + n && kept <= n
    ensures ok ==> remaining[..kept] == StillThere(old(remaining[..n]), api.script, |old(api.log)|, n)
    ensures !ok ==> WaitStopped(old(api.log), api.log, api.script)
  {
    kept := 0;
    ghost var pods, from := remaining[..n], |api.log|;
    ghost var still: seq<PodRef> := [];
    for k := 0 to n
      invariant api.Valid() && |api.log| == from + k
      invariant LooksInOrder(old(api.log), api.log, pods)
      invariant still == StillThere(pods, api.script, from, k) && |still| == kept <= k
      invariant forall j :: 0 <= j < kept ==> remaining[j] == still[j]
      invariant forall j :: k <= j < n ==> remaining[j] == pods[j]
    {
      var pod := remaining[k];
      var accepted, answer := api.Send(GetPod(pod), {404});
      if !accepted {
        return false, 0;
      }
      StillThereNext(pods, api.script, from, k);
      if answer.status != 404 {
        remaining[kept] := pod;
        kept := kept + 1;
        still := still + [pod];
      }
    }
    ok := true;
  }

  /** waitForPodsDeleted. Success means that each pod was seen absent; the caller's array
      stays as it is, for the filtering happens in a copy. */
  method WaitForPodsDeleted(api: ClusterApi, pods: array<PodRef>) returns (ok: bool)
    requires api.Valid()
    modifies api
    ensures api.Valid() && old(api.log) <= api.log && pods[..] == old(pods[..])
    ensures OnlyLooksAt(old(api.log), api.log, pods[..])
    ensures ok ==> forall pod :: pod in pods[..] ==> WasSeenAbsent(old(api.log), api.log, pod)
    ensures !ok ==> pods.Length > 0 && WaitStopped(old(api.log), api.log, api.script)
  {
    var remaining := new PodRef[pods.Length](k requires 0 <= k < pods.Length reads pods => pods[k]);
    var n: nat := remaining.Length;
    assert remaining[..n] == pods[..];
    while n > 0
      invariant api.Valid() && old(api.log) <= api.log && fresh(remaining) && n <= remaining.Length == pods.Length
      invariant pods[..] == old(pods[..])
      invariant OnlyLooksAt(old(api.log), api.log, pods[..])
      invariant forall pod :: pod in remaining[..n] ==> pod in pods[..]
      invariant forall pod :: pod in pods[..] ==> pod in remaining[..n] || WasSeenAbsent(old(api.log), api.log, pod)
      decreases |api.script| - |api.log|
    {
      ghost var log, before := api.log, remaining[..n];
      var passed, kept := PassOver(api, remaining, n);
      if !passed {
        return false;
      }
      PassAccounts(old(api.log), log, api.log, api.script, before);
      n := kept;
      if n == 0 {
        return true;
      }
      var expired := api.Pause();
      if expired {
        return false;
      }
    }
    ok := true;
  }

  /** After a full pass, each pod looked at is still there or has been seen absent. */
  lemma PassAccounts(start: seq<Event>, middle: seq<Event>, end: seq<Event>, script: seq<Answer>, pods: seq<PodRef>)
    requires start <= middle && LooksInOrder(middle, end, pods) && |end| == |middle| + |pods| <= |script|
    requires forall k :: 0 <= k < |end| ==> end[k].answer == script[k]
    ensures var left := StillThere(pods, script, |middle|, |pods|);
            && |left| <= |pods|
            && (forall pod :: pod in left ==> pod in pods)
            && (forall pod :: pod in pods ==> pod in left || WasSeenAbsent(start, end, pod))
  {
    StillThereIsPart(pods, script, |middle|, |pods|);
    var left := StillThere(pods, script, |middle|, |pods|);
    forall pod | pod in pods && pod !in left ensures WasSeenAbsent(start, end, pod) {
      var k :| 0 <= k < |pods| && pods[k] == pod;
      StillThereOrAbsent(pods, script, |middle|, |pods|, k);
      assert SeenAbsent(end[|middle| + k], pod);
    }
  }
}
