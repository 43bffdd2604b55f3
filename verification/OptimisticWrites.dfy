/**
 The replace and patch loops, against an API server that other clients write to.

 The server keeps every version an object ever had. Before it serves a request, other
 clients may write any number of versions (or delete the object), and the request itself
 may get lost on the way there or on the way back.
 */
module OptimisticWrites {
  import opened Basics
  import opened JsonValues
  import opened ServiceAllocations

  /** One version; a deleted object has no body. */
  datatype Version = Version(body: Option<Json>, byAgent: bool)

  datatype Fault = NoFault | RequestLost | ReplyLost

  /** What happens around one request. */
  datatype Turn = Turn(others: seq<Option<Json>>, fault: Fault)

  datatype Reply = Failed | NotFound | Conflict | Found(object_: Json)

  /** An opaque resource version: each one is new. */
  function Token(k: nat): Json {
    Str(seq(k + 1, _ => 'v'))
  }

  lemma TokensDiffer(j: nat, k: nat)
    ensures Token(j) == Token(k) <==> j == k
  {
    assert |Token(j).s| == j + 1 && |Token(k).s| == k + 1;
  }

  function ResourceVersion(j: Json): Json {
    Field(Field(j, "metadata"), "resourceVersion")
  }

  /** The body as the server stores it under version number `k`. */
  function Stamp(body: Json, k: nat): Json {
    Obj(ObjectValue(body)["metadata" := Obj(ObjectValue(Field(body, "metadata"))["resourceVersion" := Token(k)])])
  }

  function Append(history: seq<Version>, body: Option<Json>, byAgent: bool): seq<Version> {
    history + [Version(if body == None then None else Some(Stamp(body.value, |history|)), byAgent)]
  }

  /** Every version is an object that carries its number. */
  ghost predicate Stamped(history: seq<Version>) {
    forall k :: 0 <= k < |history| && history[k].body.Some? ==>
      history[k].body.value.Obj? && ResourceVersion(history[k].body.value) == Token(k)
  }

  /** The object exists. */
  predicate Present(history: seq<Version>) {
    history != [] && history[|history| - 1].body.Some?
  }

  predicate PresentAfter(present: bool, others: seq<Option<Json>>) {
    if others == [] then present else others[|others| - 1].Some?
  }

  /** A write that names a version other than the current one, number `k`. */
  predicate Stale(version: Json, k: nat) {
    version != Null && version != Token(k)
  }

  /** The history after the first `n` of some clients' writes. */
  function WithOthers(history: seq<Version>, others: seq<Option<Json>>, n: nat): seq<Version>
    requires n <= |others|
  {
    if n == 0 then history else Append(WithOthers(history, others, n - 1), others[n - 1], false)
  }

  function AfterOthers(history: seq<Version>, turn: Turn): seq<Version> {
    WithOthers(history, turn.others, |turn.others|)
  }

  /** Nothing came after, or one more version. */
  predicate AtMostOneMore(before: seq<Version>, after: seq<Version>) {
    before <= after && |after| <= |before| + 1
  }

  class ApiServer {
    var history: seq<Version>
    var requests: nat

    ghost predicate Valid()
      reads this
    {
      history != [] && Stamped(history)
    }

    constructor (first: Json)
      ensures Valid() && history == Append([], Some(first), false) && requests == 0
    {
      history := [Version(Some(Stamp(first, 0)), false)];
      requests := 0;
    }

    /** The other clients' writes before a request is served. */
    method Interfere(others: seq<Option<Json>>)
      requires Valid()
      modifies this
      ensures Valid() && requests == old(requests)
      ensures OnlyOthersWrote(old(history), history)
      ensures |history| == |old(history)| + |others|
      ensures Present(history) <==> PresentAfter(Present(old(history)), others)
      ensures history == WithOthers(old(history), others, |others|)
    {
      for k := 0 to |others|
        invariant Valid() && requests == old(requests)
        invariant OnlyOthersWrote(old(history), history)
        invariant |history| == |old(history)| + k
        invariant history == WithOthers(old(history), others, k)
        invariant Present(history) <==> PresentAfter(Present(old(history)), others[..k])
      {
        history := Append(history, others[k], false);
        assert others[..k + 1][k] == others[k];
      }
      assert others[..|others|] == others;
    }

    method Get(turn: Turn) returns (reply: Reply)
      requires Valid()
      modifies this
      ensures Valid() && requests == old(requests) + 1
      ensures OnlyOthersWrote(old(history), history)
      ensures reply.Found? ==> history[|history| - 1].body == Some(reply.object_)
      ensures Present(history) <==> PresentAfter(Present(old(history)), turn.others)
      ensures history == AfterOthers(old(history), turn)
      ensures reply != Conflict && (reply.Failed? <==> turn.fault != NoFault)
      ensures reply.NotFound? <==> turn.fault == NoFault && !Present(history)
    {
      requests := requests + 1;
      Interfere(turn.others);
      if turn.fault != NoFault {
        return Failed;
      }
      var current := history[|history| - 1].body;
      reply := if current == None then NotFound else Found(current.value);
    }

    /** A write that is refused when it carries a version other than the current one. A
        write that carries no version overwrites whatever is there. */
    method Write(turn: Turn, version: Json, body: Json, merge: bool) returns (reply: Reply)
      requires Valid()
      modifies this
      ensures Valid() && requests == old(requests) + 1
      ensures OnlyOthersWrote(old(history), history) || AgentWroteLast(old(history), history, version, body, merge)
      ensures reply.Found? ==> LastIsAgents(old(history), history, reply.object_)
      ensures AtMostOneMore(AfterOthers(old(history), turn), history)
      ensures reply == Conflict ==> OnlyOthersWrote(old(history), history) && Present(history)
      ensures reply != NotFound
      ensures reply.Failed? <==> turn.fault != NoFault || !PresentAfter(Present(old(history)), turn.others)
      ensures !reply.Failed? ==> (reply.Conflict? <==> Stale(version, |old(history)| + |turn.others| - 1))
    {
      requests := requests + 1;
      Interfere(turn.others);
      ghost var before := history;
      reply := Serve(turn.fault, version, body, merge);
      if history != before {
        OthersThenAgent(old(history), before, history, version, body, merge);
      }
    }

    /** Serving a write, without further interference. */
    method Serve(fault: Fault, version: Json, body: Json, merge: bool) returns (reply: Reply)
      requires Valid()
      modifies this`history
      ensures Valid() && AtMostOneMore(old(history), history)
      ensures history == old(history) || AgentWroteLast(old(history), history, version, body, merge)
      ensures reply.Found? ==> LastIsAgents(old(history), history, reply.object_)
      ensures reply.Conflict? ==> history == old(history) && Present(history)
      ensures !reply.NotFound? && (reply.Failed? <==> fault != NoFault || !Present(old(history)))
      ensures !reply.Failed? ==> (reply.Conflict? <==> Stale(version, |old(history)| - 1))
    {
      var current := history[|history| - 1].body;
      if fault == RequestLost || current == None {
        return Failed;
      }
      if version != Null && version != ResourceVersion(current.value) {
        return if fault == ReplyLost then Failed else Conflict;
      }
      Store(version, body, merge);
      reply := if fault == ReplyLost then Failed else Found(history[|history| - 1].body.value);
    }

    /** Accepting a write. */
    method Store(version: Json, body: Json, merge: bool)
      requires Valid() && history[|history| - 1].body.Some?
      requires version != Null ==> version == ResourceVersion(history[|history| - 1].body.value)
      modifies this`history
      ensures Valid() && AgentWroteLast(old(history), history, version, body, merge)
      ensures |history| == |old(history)| + 1
    {
      var current := history[|history| - 1].body.value;
      ghost var before := history;
      history := Append(history, Some(if merge then MergePatch(current, body) else body), true);
      assert history[..|history| - 1] == before;
    }
  }

  lemma OthersThenAgent(before: seq<Version>, middle: seq<Version>, after: seq<Version>, version: Json, body: Json,
                        merge: bool)
    requires before != [] && OnlyOthersWrote(before, middle) && AgentWroteLast(middle, after, version, body, merge)
    ensures AgentWroteLast(before, after, version, body, merge)
  {
  }

  /** Everything written since `before` came from other clients. */
  ghost predicate OnlyOthersWrote(before: seq<Version>, after: seq<Version>) {
    before <= after && forall k :: |before| <= k < |after| ==> !after[k].byAgent
  }

  /** The agent wrote the last version, and nothing before it since `before`. */
  ghost predicate Swapped(before: seq<Version>, after: seq<Version>) {
    && 0 < |before| < |after|
    && OnlyOthersWrote(before, after[..|after| - 1])
    && after[|after| - 1].byAgent && after[|after| - 2].body.Some?
  }

  function Overwritten(after: seq<Version>): Json
    requires |after| >= 2 && after[|after| - 2].body.Some?
  {
    after[|after| - 2].body.value
  }

  /** ... and that version is `body` on top of the version it names, if it names any. */
  ghost predicate AgentWroteLast(before: seq<Version>, after: seq<Version>, version: Json, body: Json, merge: bool) {
    && Swapped(before, after)
    && (version != Null ==> version == ResourceVersion(Overwritten(after)))
    && after[|after| - 1].body == Some(Stamp(if merge then MergePatch(Overwritten(after), body) else body, |after| - 1))
  }

  ghost predicate LastIsAgents(before: seq<Version>, after: seq<Version>, object_: Json) {
    |before| < |after| && after[|after| - 1] == Version(Some(object_), true)
  }

  // ---- The two loops --------------------------------------------------------------

  /** What the replace loop sends when it has read `existing`. The version lands nowhere
      when the manifest has no metadata object. */
  function ReplaceBody(desired: Json, existing: Json, sprint: Json -> string): Json
    requires desired.Obj?
  {
    var body :=
      if Field(desired, "metadata").Obj?
      then WithField(desired, "metadata",
        WithField(Field(desired, "metadata"), "resourceVersion", ResourceVersion(existing)))
      else desired;
    if StringValue(Field(body, "kind"), sprint) == "Service" then Preserve(body, existing, sprint) else body
  }

  function PatchBody(patch: Json, existing: Json): Json
    requires patch.Obj?
  {
    WithField(patch, "metadata",
      Obj(ObjectValue(Field(patch, "metadata"))["resourceVersion" := ResourceVersion(existing)]))
  }

  datatype WriteResult = Written(object_: Json) | Gone | ConflictedRepeatedly | LeaseLost | RequestFailed

  /** The agent's version of a replacement is computed from the very version it overwrites. */
  ghost predicate Replaced(before: seq<Version>, after: seq<Version>, desired: Json, sprint: Json -> string)
    requires desired.Obj?
  {
    Swapped(before, after) &&
    after[|after| - 1].body == Some(Stamp(ReplaceBody(desired, Overwritten(after), sprint), |after| - 1))
  }

  ghost predicate Patched(before: seq<Version>, after: seq<Version>, patch: Json)
    requires patch.Obj?
  {
    Swapped(before, after) &&
    after[|after| - 1].body ==
      Some(Stamp(MergePatch(Overwritten(after), PatchBody(patch, Overwritten(after))), |after| - 1))
  }

  /** A write that names the version read goes right on top of it or nowhere. */
  lemma GuardedWriteFollowsRead(before: seq<Version>, read: seq<Version>, after: seq<Version>, version: Json,
                                body: Json, merge: bool)
    requires before != [] && read != [] && OnlyOthersWrote(before, read) &&
             AgentWroteLast(read, after, version, body, merge)
    requires read[|read| - 1].body.Some? && version == ResourceVersion(read[|read| - 1].body.value)
    requires ResourceVersion(Overwritten(after)) == Token(|after| - 2) && version == Token(|read| - 1)
    ensures Swapped(before, after) && Overwritten(after) == read[|read| - 1].body.value
  {
    TokensDiffer(|read| - 1, |after| - 2);
    assert after[..|after| - 1] == read;
  }

  lemma GuardedReplacement(before: seq<Version>, read: seq<Version>, after: seq<Version>, desired: Json, body: Json,
                           sprint: Json -> string)
    requires before != [] && read != [] && OnlyOthersWrote(before, read) && desired.Obj?
    requires AgentWroteLast(read, after, ResourceVersion(body), body, false)
    requires read[|read| - 1].body.Some? && body == ReplaceBody(desired, read[|read| - 1].body.value, sprint)
    requires ResourceVersion(body) == ResourceVersion(read[|read| - 1].body.value) == Token(|read| - 1)
    requires ResourceVersion(Overwritten(after)) == Token(|after| - 2)
    ensures Replaced(before, after, desired, sprint)
  {
    GuardedWriteFollowsRead(before, read, after, ResourceVersion(body), body, false);
  }

  method BuildReplacement(desired: Json, existing: Json, sprint: Json -> string) returns (body: Json)
    requires desired.Obj?
    ensures body == ReplaceBody(desired, existing, sprint)
    ensures ResourceVersion(body) == if Field(desired, "metadata").Obj? then ResourceVersion(existing) else Null
  {
    body := desired;
    if Field(body, "metadata").Obj? {
      body := WithField(body, "metadata",
        WithField(Field(body, "metadata"), "resourceVersion", ResourceVersion(existing)));
    }
    if StringValue(Field(body, "kind"), sprint) == "Service" {
      body := PreserveServiceAllocations(body, existing, sprint);
    }
  }

  // ---- How the loops end, exactly --------------------------------------------------

  /** How a round ends, or a whole loop; only a round ends in `Again`. */
  datatype Ending = Done | Again | NoObject | Broken | Abandoned | Exhausted

  /** What the turns of a read and a write make of a round. A guarded write names the
      version read. */
  function RoundOf(present: bool, get: Turn, put: Turn, guarded: bool): Ending {
    if get.fault != NoFault then Broken
    else if !PresentAfter(present, get.others) then NoObject
    else SendingOf(put, guarded)
  }

  function SendingOf(put: Turn, guarded: bool): Ending {
    if put.fault != NoFault || !PresentAfter(true, put.others) then Broken
    else if guarded && put.others != [] then Again
    else Done
  }

  function LoopOf(present: bool, gets: seq<Turn>, puts: seq<Turn>, leaseLost: seq<bool>, guarded: bool,
                  attempt: nat): Ending
    requires |gets| == |puts| == |leaseLost| == 3 && attempt <= 3
    decreases 3 - attempt
  {
    if attempt == 3 then Exhausted
    else
      var round := RoundOf(present, gets[attempt], puts[attempt], guarded);
      if round != Again then round
      else if attempt < 2 && leaseLost[attempt] then Abandoned
      else LoopOf(true, gets, puts, leaseLost, guarded, attempt + 1)
  }

  /** What the other clients leave behind in the course of a round. */
  function AfterRound(history: seq<Version>, get: Turn, put: Turn): seq<Version> {
    AfterOthers(AfterOthers(history, get), put)
  }

  function EndingOf(r: WriteResult): Ending {
    match r
    case Written(_) => Done
    case Gone => NoObject
    case ConflictedRepeatedly => Exhausted
    case LeaseLost => Abandoned
    case RequestFailed => Broken
  }

  function RoundEnding(r: Option<WriteResult>): Ending {
    if r == None then Again else EndingOf(r.value)
  }

  /** What one round of a loop leaves behind; None asks for another round. */
  ghost predicate RoundOK(before: seq<Version>, after: seq<Version>, r: Option<WriteResult>) {
    match r
    case None => OnlyOthersWrote(before, after)
    case Some(Gone) => OnlyOthersWrote(before, after)
    case Some(Written(object_)) => LastIsAgents(before, after, object_)
    case Some(outcome) => outcome.RequestFailed?
  }

  method ReplaceOnce(server: ApiServer, desired: Json, get: Turn, put: Turn, sprint: Json -> string)
        returns (r: Option<WriteResult>)
    requires server.Valid() && desired.Obj?
    modifies server
    ensures server.Valid() && server.requests <= old(server.requests) + 2
    ensures Field(desired, "metadata").Obj? ==>
              OnlyOthersWrote(old(server.history), server.history) ||
                Replaced(old(server.history), server.history, desired, sprint)
    ensures RoundOK(old(server.history), server.history, r)
    ensures RoundEnding(r) == RoundOf(Present(old(server.history)), get, put, Field(desired, "metadata").Obj?)
    ensures r == None ==> Present(server.history) && server.requests == old(server.requests) + 2
    ensures RoundEnding(r) == Done ==> AtMostOneMore(AfterRound(old(server.history), get, put), server.history)
  {
    var existing := server.Get(get);
    if !existing.Found? {
      return Some(if existing.NotFound? then Gone else RequestFailed);
    }
    var body := BuildReplacement(desired, existing.object_, sprint);
    r := SendReplacement(server, desired, existing.object_, body, put, sprint, old(server.history));
  }

  /** The write that follows a successful read. */
  method SendReplacement(server: ApiServer, ghost desired: Json, ghost existing: Json, body: Json, put: Turn,
                         ghost sprint: Json -> string, ghost before: seq<Version>)
      returns (r: Option<WriteResult>)
    requires server.Valid() && desired.Obj? && before != [] && body == ReplaceBody(desired, existing, sprint)
    requires OnlyOthersWrote(before, server.history) && server.history[|server.history| - 1].body == Some(existing)
    modifies server
    ensures server.Valid() && server.requests == old(server.requests) + 1
    ensures Field(desired, "metadata").Obj? ==>
              OnlyOthersWrote(before, server.history) || Replaced(before, server.history, desired, sprint)
    ensures RoundOK(before, server.history, r)
    ensures RoundEnding(r) == SendingOf(put, Field(desired, "metadata").Obj?)
    ensures AtMostOneMore(AfterOthers(old(server.history), put), server.history)
    ensures r == None ==> Present(server.history)
  {
    ghost var read := server.history;
    ReplacementIsConditional(desired, existing, sprint);
    WhenStale(ResourceVersion(body), |read| - 1, put.others, Field(desired, "metadata").Obj?);
    var updated := server.Write(put, ResourceVersion(body), body, false);
    ReplacementLands(before, read, server.history, desired, body, sprint);
    r := if updated.Found? then Some(Written(updated.object_))
      else if updated.Conflict? then None
      else Some(RequestFailed);
  }

  /** A write that names the version read is stale exactly when others have written since. */
  lemma WhenStale(version: Json, read: nat, others: seq<Option<Json>>, guarded: bool)
    requires version == if guarded then Token(read) else Null
    ensures Stale(version, read + |others|) <==> guarded && others != []
  {
    TokensDiffer(read, read + |others|);
  }

  lemma ReplacementLands(before: seq<Version>, read: seq<Version>, after: seq<Version>, desired: Json, body: Json,
                         sprint: Json -> string)
    requires before != [] && read != [] && OnlyOthersWrote(before, read) && desired.Obj?
    requires OnlyOthersWrote(read, after) || AgentWroteLast(read, after, ResourceVersion(body), body, false)
    requires Stamped(read) && Stamped(after) && Present(read)
    requires body == ReplaceBody(desired, read[|read| - 1].body.value, sprint)
    ensures Field(desired, "metadata").Obj? ==>
              OnlyOthersWrote(before, after) || Replaced(before, after, desired, sprint)
  {
    if Field(desired, "metadata").Obj? && !OnlyOthersWrote(read, after) {
      ReplacementIsConditional(desired, read[|read| - 1].body.value, sprint);
      GuardedReplacement(before, read, after, desired, body, sprint);
    }
  }

  /** What a whole loop leaves behind: on success the agent's version is the latest, and when
      it gives up, the agent wrote nothing. */
  ghost predicate LoopOK(before: seq<Version>, after: seq<Version>, r: WriteResult) {
    && (r.Written? ==> LastIsAgents(before, after, r.object_))
    && (r.Gone? || r.ConflictedRepeatedly? || r.LeaseLost? ==> OnlyOthersWrote(before, after))
  }

  lemma RoundEndsLoop(before: seq<Version>, middle: seq<Version>, after: seq<Version>, r: WriteResult)
    requires OnlyOthersWrote(before, middle) && RoundOK(middle, after, Some(r))
    ensures LoopOK(before, after, r)
  {
  }

  lemma ReplacedLater(before: seq<Version>, middle: seq<Version>, after: seq<Version>, desired: Json,
                      sprint: Json -> string)
    requires desired.Obj? && before != [] && OnlyOthersWrote(before, middle)
    requires OnlyOthersWrote(middle, after) || Replaced(middle, after, desired, sprint)
    ensures OnlyOthersWrote(before, after) || Replaced(before, after, desired, sprint)
  {
    if !OnlyOthersWrote(middle, after) {
      LaterSwap(before, middle, after);
    }
  }

  method ReplaceWithResourceVersion(server: ApiServer, desired: Json, gets: seq<Turn>, puts: seq<Turn>,
                                    leaseLost: seq<bool>, sprint: Json -> string)
      returns (r: WriteResult)
    requires server.Valid() && desired.Obj? && |gets| == |puts| == |leaseLost| == 3
    modifies server
    ensures server.Valid() && server.requests <= old(server.requests) + 6
    ensures Field(desired, "metadata").Obj? ==>
              OnlyOthersWrote(old(server.history), server.history) ||
                Replaced(old(server.history), server.history, desired, sprint)
    ensures LoopOK(old(server.history), server.history, r)
    ensures EndingOf(r) ==
            LoopOf(Present(old(server.history)), gets, puts, leaseLost, Field(desired, "metadata").Obj?, 0)
    ensures RoundOf(Present(old(server.history)), gets[0], puts[0], Field(desired, "metadata").Obj?) == Done ==>
              AtMostOneMore(AfterRound(old(server.history), gets[0], puts[0]), server.history)
    ensures r.ConflictedRepeatedly? ==> server.requests == old(server.requests) + 6
  {
    ghost var guarded := Field(desired, "metadata").Obj?;
    ghost var ending := LoopOf(Present(server.history), gets, puts, leaseLost, guarded, 0);
    for attempt := 0 to 3
      invariant server.Valid() && server.requests == old(server.requests) + 2 * attempt
      invariant OnlyOthersWrote(old(server.history), server.history)
      invariant ending == LoopOf(Present(server.history), gets, puts, leaseLost, guarded, attempt)
      invariant if attempt == 0 then server.history == old(server.history)
                else RoundOf(Present(old(server.history)), gets[0], puts[0], guarded) != Done
    {
      ghost var middle := server.history;
      var round := ReplaceOnce(server, desired, gets[attempt], puts[attempt], sprint);
      if guarded {
        ReplacedLater(old(server.history), middle, server.history, desired, sprint);
      }
      if round != None {
        RoundEndsLoop(old(server.history), middle, server.history, round.value);
        return round.value;
      }
      if attempt < 2 && leaseLost[attempt] {
        return LeaseLost;
      }
    }
    r := ConflictedRepeatedly;
  }

  lemma LaterSwap(before: seq<Version>, middle: seq<Version>, after: seq<Version>)
    requires before != [] && OnlyOthersWrote(before, middle) && Swapped(middle, after)
    ensures Swapped(before, after)
  {
  }

  method PatchOnce(server: ApiServer, patch: Json, get: Turn, send: Turn) returns (r: Option<WriteResult>)
    requires server.Valid() && patch.Obj?
    modifies server
    ensures server.Valid() && server.requests <= old(server.requests) + 2
    ensures OnlyOthersWrote(old(server.history), server.history) || Patched(old(server.history), server.history, patch)
    ensures RoundOK(old(server.history), server.history, r)
    ensures RoundEnding(r) == RoundOf(Present(old(server.history)), get, send, true)
    ensures r == None ==> Present(server.history) && server.requests == old(server.requests) + 2
    ensures RoundEnding(r) == Done ==> AtMostOneMore(AfterRound(old(server.history), get, send), server.history)
  {
    var existing := server.Get(get);
    if !existing.Found? {
      return Some(if existing.NotFound? then Gone else RequestFailed);
    }
    var body := BuildPatch(patch, existing.object_);
    r := SendPatch(server, patch, existing.object_, body, send, old(server.history));
  }

  /** The patch that follows a successful read. */
  method SendPatch(server: ApiServer, ghost patch: Json, ghost existing: Json, body: Json, send: Turn,
                   ghost before: seq<Version>)
      returns (r: Option<WriteResult>)
    requires server.Valid() && patch.Obj? && before != [] && body == PatchBody(patch, existing)
    requires ResourceVersion(body) == ResourceVersion(existing)
    requires OnlyOthersWrote(before, server.history) && server.history[|server.history| - 1].body == Some(existing)
    modifies server
    ensures server.Valid() && server.requests == old(server.requests) + 1
    ensures OnlyOthersWrote(before, server.history) || Patched(before, server.history, patch)
    ensures RoundOK(before, server.history, r)
    ensures RoundEnding(r) == SendingOf(send, true)
    ensures AtMostOneMore(AfterOthers(old(server.history), send), server.history)
    ensures r == None ==> Present(server.history)
  {
    ghost var read := server.history;
    WhenStale(ResourceVersion(body), |read| - 1, send.others, true);
    var updated := server.Write(send, ResourceVersion(body), body, true);
    PatchLands(before, read, server.history, patch, body);
    r := if updated.Found? then Some(Written(updated.object_)) else if updated.Conflict? then None
      else Some(RequestFailed);
  }

  lemma PatchLands(before: seq<Version>, read: seq<Version>, after: seq<Version>, patch: Json, body: Json)
    requires before != [] && read != [] && OnlyOthersWrote(before, read) && patch.Obj?
    requires OnlyOthersWrote(read, after) || AgentWroteLast(read, after, ResourceVersion(body), body, true)
    requires Stamped(read) && Stamped(after) && Present(read)
    requires body == PatchBody(patch, read[|read| - 1].body.value)
    requires ResourceVersion(body) == ResourceVersion(read[|read| - 1].body.value)
    ensures OnlyOthersWrote(before, after) || Patched(before, after, patch)
  {
    if !OnlyOthersWrote(read, after) {
      GuardedWriteFollowsRead(before, read, after, ResourceVersion(body), body, true);
    }
  }

  method BuildPatch(patch: Json, existing: Json) returns (body: Json)
    requires patch.Obj?
    ensures body == PatchBody(patch, existing) && ResourceVersion(body) == ResourceVersion(existing)
  {
    var metadata := ObjectValue(Field(patch, "metadata"));
    metadata := metadata["resourceVersion" := ResourceVersion(existing)];
    body := WithField(patch, "metadata", Obj(metadata));
  }

  method PatchWithResourceVersion(server: ApiServer, patch: Json, gets: seq<Turn>, patches: seq<Turn>,
                                  leaseLost: seq<bool>)
      returns (r: WriteResult)
    requires server.Valid() && patch.Obj? && |gets| == |patches| == |leaseLost| == 3
    modifies server
    ensures server.Valid() && server.requests <= old(server.requests) + 6
    ensures OnlyOthersWrote(old(server.history), server.history) || Patched(old(server.history), server.history, patch)
    ensures LoopOK(old(server.history), server.history, r)
    ensures EndingOf(r) == LoopOf(Present(old(server.history)), gets, patches, leaseLost, true, 0)
    ensures RoundOf(Present(old(server.history)), gets[0], patches[0], true) == Done ==>
              AtMostOneMore(AfterRound(old(server.history), gets[0], patches[0]), server.history)
    ensures r.ConflictedRepeatedly? ==> server.requests == old(server.requests) + 6
  {
    ghost var ending := LoopOf(Present(server.history), gets, patches, leaseLost, true, 0);
    for attempt := 0 to 3
      invariant server.Valid() && server.requests == old(server.requests) + 2 * attempt
      invariant OnlyOthersWrote(old(server.history), server.history)
      invariant ending == LoopOf(Present(server.history), gets, patches, leaseLost, true, attempt)
      invariant if attempt == 0 then server.history == old(server.history)
                else RoundOf(Present(old(server.history)), gets[0], patches[0], true) != Done
    {
      ghost var middle := server.history;
      var round := PatchOnce(server, patch, gets[attempt], patches[attempt]);
      if !OnlyOthersWrote(middle, server.history) {
        LaterSwap(old(server.history), middle, server.history);
      }
      if round != None {
        RoundEndsLoop(old(server.history), middle, server.history, round.value);
        return round.value;
      }
      if attempt < 2 && leaseLost[attempt] {
        return LeaseLost;
      }
    }
    r := ConflictedRepeatedly;
  }

  // ---- Consequences ---------------------------------------------------------------

  /** A replacement names the version it read exactly when the manifest has a metadata object
      to carry that version. */
  lemma ReplacementIsConditional(desired: Json, existing: Json, sprint: Json -> string)
    requires desired.Obj?
    ensures ResourceVersion(ReplaceBody(desired, existing, sprint)) ==
            if Field(desired, "metadata").Obj? then ResourceVersion(existing) else Null
  {
  }

  /** A patch loses nothing: every path that it does not mention reads as it did in the
      version overwritten, apart from the resource version itself. */
  lemma PatchKeepsConcurrentUpdates(before: seq<Version>, after: seq<Version>, patch: Json, path: seq<string>)
    requires patch.Obj? && Patched(before, after, patch)
    requires Misses(patch, path) && Apart(path, ["metadata", "resourceVersion"])
    ensures At(after[|after| - 1].body.value, path) == At(Overwritten(after), path)
  {
    var overwritten := Overwritten(after);
    var body := PatchBody(patch, overwritten);
    var merged := MergePatch(overwritten, body);
    assert Misses(body, path);
    MergeKeepsTheRest(overwritten, body, path);
    StampKeepsTheRest(merged, |after| - 1, path);
  }

  /** What is not the resource version, seen from the top: some path that does not lead there. */
  predicate ApartFromVersion(path: seq<string>) {
    path != [] && Apart(path, ["metadata", "resourceVersion"])
  }

  lemma VersionedKeepsTheRest(desired: Json, version: Json, path: seq<string>)
    requires desired.Obj? && Field(desired, "metadata").Obj? && ApartFromVersion(path)
    ensures var metadata := WithField(Field(desired, "metadata"), "resourceVersion", version);
            At(WithField(desired, "metadata", metadata), path) == At(desired, path)
  {
  }

  lemma StoredAsSent(version: Version, sent: Json, k: nat, path: seq<string>)
    requires version.body == Some(Stamp(sent, k)) && ApartFromVersion(path)
    ensures At(version.body.value, path) == At(sent, path)
  {
    StampKeepsTheRest(sent, k, path);
  }

  lemma PlainBodyKeepsTheRest(desired: Json, existing: Json, sprint: Json -> string, path: seq<string>)
    requires desired.Obj? && Field(desired, "metadata").Obj?
    requires StringValue(Field(desired, "kind"), sprint) != "Service" && ApartFromVersion(path)
    ensures At(ReplaceBody(desired, existing, sprint), path) == At(desired, path)
  {
    VersionedKeepsTheRest(desired, ResourceVersion(existing), path);
  }

  /** A replacement of anything but a Service stores the manifest itself: every path reads in the
      new version as in the manifest, except for the resource version. */
  lemma ReplacementIsTheManifest(before: seq<Version>, after: seq<Version>, desired: Json, sprint: Json -> string,
                                 path: seq<string>)
    requires desired.Obj? && Replaced(before, after, desired, sprint) && Field(desired, "metadata").Obj?
    requires StringValue(Field(desired, "kind"), sprint) != "Service" && ApartFromVersion(path)
    ensures At(after[|after| - 1].body.value, path) == At(desired, path)
  {
    StoredAsSent(after[|after| - 1], ReplaceBody(desired, Overwritten(after), sprint), |after| - 1, path);
    PlainBodyKeepsTheRest(desired, Overwritten(after), sprint, path);
  }

  /** The parts of a Service's spec that the cluster allocates. */
  predicate Allocatable(path: seq<string>) {
    |path| >= 2 && path[0] == "spec" &&
    path[1] in {"clusterIP", "clusterIPs", "ipFamilies", "ipFamilyPolicy", "healthCheckNodePort", "ports"}
  }

  lemma PreserveKeepsTheRest(desired: Json, existing: Json, sprint: Json -> string, path: seq<string>)
    requires path != [] && path != ["spec"] && !Allocatable(path)
    ensures At(Preserve(desired, existing, sprint), path) == At(desired, path)
  {
    if path[0] == "spec" && Field(desired, "spec").Obj? {
      var spec, filled := SpecOf(desired), FillSpec(SpecOf(desired), ALLOCATED, SpecOf(existing), sprint);
      assert path[1] !in ALLOCATED;
      assert Lookup(FillKeys(spec, ALLOCATED, SpecOf(existing)), path[1]) == Lookup(spec, path[1]);
      assert Lookup(filled, path[1]) == Lookup(spec, path[1]);
    }
  }

  lemma BodyKeepsTheRest(desired: Json, existing: Json, sprint: Json -> string, path: seq<string>)
    requires desired.Obj? && Field(desired, "metadata").Obj?
    requires ApartFromVersion(path) && path != ["spec"] && !Allocatable(path)
    ensures At(ReplaceBody(desired, existing, sprint), path) == At(desired, path)
  {
    var metadata := WithField(Field(desired, "metadata"), "resourceVersion", ResourceVersion(existing));
    VersionedKeepsTheRest(desired, ResourceVersion(existing), path);
    PreserveKeepsTheRest(WithField(desired, "metadata", metadata), existing, sprint, path);
  }

  /** A replacement of a Service does the same for every path but the allocated ones. */
  lemma ServiceReplacementIsTheManifest(before: seq<Version>, after: seq<Version>, desired: Json,
                                        sprint: Json -> string, path: seq<string>)
    requires desired.Obj? && Replaced(before, after, desired, sprint) && Field(desired, "metadata").Obj?
    requires ApartFromVersion(path) && path != ["spec"] && !Allocatable(path)
    ensures At(after[|after| - 1].body.value, path) == At(desired, path)
  {
    StoredAsSent(after[|after| - 1], ReplaceBody(desired, Overwritten(after), sprint), |after| - 1, path);
    BodyKeepsTheRest(desired, Overwritten(after), sprint, path);
  }

  /** The spec of a Service's replacement is the filled one. */
  lemma ServiceSpecIsFilled(before: seq<Version>, after: seq<Version>, desired: Json, sprint: Json -> string)
    requires desired.Obj? && Replaced(before, after, desired, sprint) && Field(desired, "metadata").Obj?
    requires StringValue(Field(desired, "kind"), sprint) == "Service"
    ensures Field(after[|after| - 1].body.value, "spec") == Field(Preserve(desired, Overwritten(after), sprint), "spec")
  {
    var existing := Overwritten(after);
    var versioned :=
      WithField(desired, "metadata",
        WithField(Field(desired, "metadata"), "resourceVersion", ResourceVersion(existing)));
    assert Field(versioned, "spec") == Field(desired, "spec") && Field(versioned, "kind") == Field(desired, "kind");
    assert Field(Preserve(versioned, existing, sprint), "spec") == Field(Preserve(desired, existing, sprint), "spec");
  }

  lemma StampKeepsTheRest(j: Json, k: nat, path: seq<string>)
    requires path != [] && Apart(path, ["metadata", "resourceVersion"])
    ensures At(Stamp(j, k), path) == At(j, path)
  {
  }
}
