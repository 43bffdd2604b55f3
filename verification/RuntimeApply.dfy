/** Applying a runtime's manifests: their validation, and the update of one object. */
module RuntimeApply {
  import opened Basics
  import opened Strings
  import opened JsonValues
  import opened ServiceAllocations
  import opened OptimisticWrites
  import opened RuntimePatches

  const RUNTIME_LABEL := "monkeys/runtime-id"
  const MAX_MANIFESTS := 100

  // ---- Validation -------------------------------------------------------------------

  datatype Complaint = NoManifests | TooMany | UnsupportedKind | Unnamed | NoNamespace | OtherNamespace | NotOwned

  predicate Supported(kind: string) {
    kind == "Namespace" || Namespaced(kind)
  }

  predicate Namespaced(kind: string) {
    kind == "Secret" || kind == "Service" || kind == "PersistentVolumeClaim" || kind == "Deployment"
  }

  function Kind(manifest: Json, sprint: Json -> string): string {
    StringValue(Field(manifest, "kind"), sprint)
  }

  function Meta(manifest: Json, key: string, sprint: Json -> string): string {
    StringValue(Field(Field(manifest, "metadata"), key), sprint)
  }

  function OwnerOf(manifest: Json, sprint: Json -> string): string {
    StringValue(Field(Field(Field(manifest, "metadata"), "labels"), RUNTIME_LABEL), sprint)
  }

  /** What is wrong with one manifest. */
  function Check(manifest: Json, runtimeID: string, namespace: string,
                 sprint: Json -> string): (fault: Option<Complaint>)
    ensures fault != Some(NoManifests) && fault != Some(TooMany)
  {
    var kind := Kind(manifest, sprint);
    if !Supported(kind) then Some(UnsupportedKind)
    else if Meta(manifest, "name", sprint) == "" then Some(Unnamed)
    else if Namespaced(kind) && Meta(manifest, "namespace", sprint) == "" then Some(NoNamespace)
    else if Namespaced(kind) && namespace != "" && Meta(manifest, "namespace", sprint) != namespace then
      Some(OtherNamespace)
    else if kind != "Namespace" && OwnerOf(manifest, sprint) != runtimeID then Some(NotOwned)
    else None
  }

  ghost predicate AllPass(manifests: seq<Json>, runtimeID: string, namespace: string, sprint: Json -> string) {
    forall k :: 0 <= k < |manifests| ==> Check(manifests[k], runtimeID, namespace, sprint) == None
  }

  /** `fault` is the first there is. */
  ghost predicate FirstFault(fault: Option<Complaint>, manifests: seq<Json>, runtimeID: string, namespace: string,
                             sprint: Json -> string) {
    if fault == None then AllPass(manifests, runtimeID, namespace, sprint)
    else exists k | 0 <= k < |manifests| :: FaultAt(fault, k, manifests, runtimeID, namespace, sprint)
  }

  ghost predicate FaultAt(fault: Option<Complaint>, k: nat, manifests: seq<Json>, runtimeID: string, namespace: string,
                          sprint: Json -> string)
    requires k < |manifests|
  {
    Check(manifests[k], runtimeID, namespace, sprint) == fault && AllPass(manifests[..k], runtimeID, namespace, sprint)
  }

  /** validateRuntimeManifests: accepts exactly the lists of 1 to 100 faultless manifests, and
      otherwise names the first fault. */
  method ValidateRuntimeManifests(runtimeID: string, namespace: string, manifests: seq<Json>, sprint: Json -> string)
      returns (complaint: Option<Complaint>)
    ensures if manifests == [] then complaint == Some(NoManifests)
            else if |manifests| > MAX_MANIFESTS then complaint == Some(TooMany)
            else FirstFault(complaint, manifests, runtimeID, namespace, sprint)
  {
    if |manifests| == 0 {
      return Some(NoManifests);
    }
    if |manifests| > MAX_MANIFESTS {
      return Some(TooMany);
    }
    for k := 0 to |manifests|
      invariant AllPass(manifests[..k], runtimeID, namespace, sprint)
    {
      complaint := ValidateManifest(runtimeID, namespace, manifests[k], sprint);
      if complaint.Some? {
        assert FaultAt(complaint, k, manifests, runtimeID, namespace, sprint);
        return;
      }
      OneMorePasses(k, manifests, runtimeID, namespace, sprint);
    }
    assert manifests[..|manifests|] == manifests;
    complaint := None;
  }

  lemma OneMorePasses(k: nat, manifests: seq<Json>, runtimeID: string, namespace: string, sprint: Json -> string)
    requires k < |manifests| && FaultAt(None, k, manifests, runtimeID, namespace, sprint)
    ensures AllPass(manifests[..k + 1], runtimeID, namespace, sprint)
  {
    var front, more := manifests[..k], manifests[..k + 1];
    assert more == front + [manifests[k]];
    forall j | 0 <= j < |more| ensures Check(more[j], runtimeID, namespace, sprint) == None {
      assert j < k ==> more[j] == front[j];
    }
  }

  method ValidateManifest(runtimeID: string, namespace: string, manifest: Json, sprint: Json -> string)
      returns (complaint: Option<Complaint>)
    ensures complaint == Check(manifest, runtimeID, namespace, sprint)
  {
    var kind := Kind(manifest, sprint);
    var manifestNamespace := Meta(manifest, "namespace", sprint);
    if !Supported(kind) {
      return Some(UnsupportedKind);
    }
    if Meta(manifest, "name", sprint) == "" {
      return Some(Unnamed);
    }
    if Namespaced(kind) {
      if manifestNamespace == "" {
        return Some(NoNamespace);
      }
      if namespace != "" && manifestNamespace != namespace {
        return Some(OtherNamespace);
      }
    }
    if kind != "Namespace" && OwnerOf(manifest, sprint) != runtimeID {
      return Some(NotOwned);
    }
    complaint := None;
  }

  /** `text` is what Go prints for the value at a path, without the space at both ends; nothing
      and null read as no text. */
  ghost predicate Reads(manifest: Json, path: seq<string>, sprint: Json -> string, text: string) {
    match At(manifest, path)
    case None => text == ""
    case Some(Null) => text == ""
    case Some(value) => Trims(sprint(value), text)
  }

  lemma KindReads(manifest: Json, sprint: Json -> string, text: string)
    requires Reads(manifest, ["kind"], sprint, text)
    ensures text == Kind(manifest, sprint)
  {
    ReadsOnce(At(manifest, ["kind"]), Field(manifest, "kind"), sprint, text);
  }

  lemma ReadsOnce(found: Option<Json>, value: Json, sprint: Json -> string, text: string)
    requires if found == None then value == Null else value == found.value
    requires if value == Null then text == "" else Trims(sprint(value), text)
    ensures text == StringValue(value, sprint)
  {
    if value != Null {
      TrimsOnce(sprint(value), text);
    }
  }

  lemma MetaReads(manifest: Json, key: string, sprint: Json -> string, text: string)
    requires Reads(manifest, ["metadata", key], sprint, text)
    ensures text == Meta(manifest, key, sprint)
  {
    var path := ["metadata", key];
    assert path[1..] == [key] && path[1..][1..] == [];
    var metadata := Field(manifest, "metadata");
    assert At(metadata, [key]) == if key in ObjectValue(metadata) then Some(ObjectValue(metadata)[key]) else None;
    assert "metadata" in ObjectValue(manifest) ==> At(manifest, path) == At(metadata, [key]);
    ReadsOnce(At(manifest, path), Field(Field(manifest, "metadata"), key), sprint, text);
  }

  lemma OwnerReads(manifest: Json, sprint: Json -> string, text: string)
    requires Reads(manifest, ["metadata", "labels", "monkeys/runtime-id"], sprint, text)
    ensures text == OwnerOf(manifest, sprint)
  {
    var path := ["metadata", "labels", "monkeys/runtime-id"];
    assert path[1..] == ["labels", "monkeys/runtime-id"] && path[1..][1..] == ["monkeys/runtime-id"];
    var value := Field(Field(Field(manifest, "metadata"), "labels"), "monkeys/runtime-id");
    ReadsOnce(At(manifest, path), value, sprint, text);
  }

  /** What each fault says about the manifest's own fields. */
  lemma FaultsAreExact(manifest: Json, runtimeID: string, namespace: string, sprint: Json -> string,
                       kind: string, name: string, space: string, owner: string)
    requires Reads(manifest, ["kind"], sprint, kind)
    requires Reads(manifest, ["metadata", "name"], sprint, name)
    requires Reads(manifest, ["metadata", "namespace"], sprint, space)
    requires Reads(manifest, ["metadata", "labels", "monkeys/runtime-id"], sprint, owner)
    ensures var fault := Check(manifest, runtimeID, namespace, sprint);
            var known := kind == "Namespace" || kind == "Secret" || kind == "Service" ||
              kind == "PersistentVolumeClaim" || kind == "Deployment";
            && (fault == Some(UnsupportedKind) <==> !known)
            && (fault == Some(Unnamed) <==> known && name == "")
            && (fault == Some(NoNamespace) <==> known && name != "" && kind != "Namespace" && space == "")
            && (fault == Some(OtherNamespace) <==>
                known && name != "" && kind != "Namespace" && space != "" && namespace != "" && space != namespace)
            && (fault == Some(NotOwned) <==>
                known && name != "" && kind != "Namespace" && space != "" && (namespace == "" || space == namespace) &&
                owner != runtimeID)
            && (fault == None <==>
                known && name != "" &&
                (kind == "Namespace" ||
                 (space != "" && (namespace == "" || space == namespace) && owner == runtimeID)))
  {
    KindReads(manifest, sprint, kind);
    MetaReads(manifest, "name", sprint, name);
    MetaReads(manifest, "namespace", sprint, space);
    OwnerReads(manifest, sprint, owner);
  }

  lemma ValidatedHasMetadata(manifest: Json, runtimeID: string, namespace: string, sprint: Json -> string)
    requires Check(manifest, runtimeID, namespace, sprint) == None
    ensures manifest.Obj? && Field(manifest, "metadata").Obj?
  {
    assert Kind(manifest, sprint) != "" && Meta(manifest, "name", sprint) != "";
  }

  lemma PreserveKeepsMetadata(manifest: Json, first: Json, sprint: Json -> string)
    requires manifest.Obj?
    ensures Preserve(manifest, first, sprint).Obj?
    ensures Field(Preserve(manifest, first, sprint), "metadata") == Field(manifest, "metadata")
  {
  }

  /** A validated manifest has a metadata object, so its replacement is never unconditional:
      it names the version read, also after the Service's allocations were filled in. */
  lemma ValidatedReplacementIsConditional(manifest: Json, runtimeID: string, namespace: string, first: Json,
                                          existing: Json, sprint: Json -> string)
    requires Check(manifest, runtimeID, namespace, sprint) == None
    ensures manifest.Obj? && Prepared(manifest, first, sprint).Obj?
    ensures ResourceVersion(ReplaceBody(Prepared(manifest, first, sprint), existing, sprint)) ==
            ResourceVersion(existing)
  {
    ValidatedHasMetadata(manifest, runtimeID, namespace, sprint);
    PreserveKeepsMetadata(manifest, first, sprint);
    ReplacementIsConditional(Prepared(manifest, first, sprint), existing, sprint);
  }

  // ---- Updating one object ------------------------------------------------------------

  datatype Applied = NotThere | ReadFailed | Saved(result: WriteResult)

  /** What the replace loop is handed. */
  function Prepared(manifest: Json, first: Json, sprint: Json -> string): Json {
    if Kind(manifest, sprint) == "Service" then Preserve(manifest, first, sprint) else manifest
  }

  /** The agent's version, if it wrote one, is computed from the version it overwrites and
      from the manifest, or, for a Service, from what the first read made of it. */
  ghost predicate AppliedTo(before: seq<Version>, after: seq<Version>, manifest: Json, first: Json,
                            sprint: Json -> string)
    requires manifest.Obj?
  {
    if Kind(manifest, sprint) == "PersistentVolumeClaim" then Patched(before, after, PvcUpdatePatch(manifest))
    else Replaced(before, after, Prepared(manifest, first, sprint), sprint)
  }

  /** Some version of the object since `before`. */
  ghost predicate WasRead(before: seq<Version>, after: seq<Version>, first: Json) {
    exists k :: |before| - 1 <= k < |after| && k >= 0 && after[k].body == Some(first)
  }

  /** The agent wrote nothing, or what `AppliedTo` says; on success, that is the latest version. */
  ghost predicate SavedAs(result: WriteResult, before: seq<Version>, after: seq<Version>, manifest: Json, first: Json,
                          sprint: Json -> string)
    requires manifest.Obj?
  {
    && (OnlyOthersWrote(before, after) || AppliedTo(before, after, manifest, first, sprint))
    && (result.Written? ==>
          LastIsAgents(before, after, result.object_) && AppliedTo(before, after, manifest, first, sprint))
  }

  predicate IsLatest(history: seq<Version>, object_: Json) {
    history != [] && history[|history| - 1].body == Some(object_)
  }

  /** The stored version says what the manifest says, on every path but the resource version and,
      for a Service, what the cluster allocates. */
  ghost predicate StoresManifest(stored: Json, manifest: Json, sprint: Json -> string) {
    forall path | ApartFromVersion(path) && !MayBeFilled(path, manifest, sprint) ::
      At(stored, path) == At(manifest, path)
  }

  predicate MayBeFilled(path: seq<string>, manifest: Json, sprint: Json -> string) {
    Kind(manifest, sprint) == "Service" && (path == ["spec"] || Allocatable(path))
  }

  lemma AppliedStoresManifest(before: seq<Version>, after: seq<Version>, manifest: Json, first: Json,
                              sprint: Json -> string)
    requires manifest.Obj? && Field(manifest, "metadata").Obj? && Kind(manifest, sprint) != "PersistentVolumeClaim"
    requires AppliedTo(before, after, manifest, first, sprint)
    ensures StoresManifest(after[|after| - 1].body.value, manifest, sprint)
  {
    var stored := after[|after| - 1].body.value;
    forall path | ApartFromVersion(path) && !MayBeFilled(path, manifest, sprint)
      ensures At(stored, path) == At(manifest, path)
    {
      if Kind(manifest, sprint) == "Service" {
        PreserveKeepsMetadata(manifest, first, sprint);
        ServiceReplacementIsTheManifest(before, after, Prepared(manifest, first, sprint), sprint, path);
        PreserveKeepsTheRest(manifest, first, sprint, path);
      } else {
        ReplacementIsTheManifest(before, after, manifest, sprint, path);
      }
    }
  }

  /** What a saved update stored. */
  ghost predicate SavesManifest(r: Applied, after: seq<Version>, manifest: Json, sprint: Json -> string) {
    r.Saved? && r.result.Written? && Kind(manifest, sprint) != "PersistentVolumeClaim" ==>
      after != [] && after[|after| - 1].body.Some? && StoresManifest(after[|after| - 1].body.value, manifest, sprint)
  }

  lemma SavedStoresManifest(result: WriteResult, before: seq<Version>, after: seq<Version>, manifest: Json, first: Json,
                            sprint: Json -> string)
    requires manifest.Obj? && Field(manifest, "metadata").Obj?
    requires SavedAs(result, before, after, manifest, first, sprint)
    ensures SavesManifest(Saved(result), after, manifest, sprint)
  {
    if result.Written? && Kind(manifest, sprint) != "PersistentVolumeClaim" {
      AppliedStoresManifest(before, after, manifest, first, sprint);
    }
  }

  /** applyRuntime's branch for one manifest whose object exists; a validated manifest has a
      metadata object. */
  method UpdateManifest(server: ApiServer, manifest: Json, get: Turn, gets: seq<Turn>, writes: seq<Turn>,
                        leaseLost: seq<bool>, sprint: Json -> string)
      returns (r: Applied, ghost first: Json)
    requires server.Valid() && |gets| == |writes| == |leaseLost| == 3
    requires manifest.Obj? && Field(manifest, "metadata").Obj?
    modifies server
    ensures server.Valid() && (r.ReadFailed? <==> get.fault != NoFault)
    ensures r.NotThere? <==> get.fault == NoFault && !PresentAfter(Present(old(server.history)), get.others)
    ensures !r.Saved? ==> OnlyOthersWrote(old(server.history), server.history)
    ensures r.Saved? ==>
              && EndingOf(r.result) == LoopOf(true, gets, writes, leaseLost, true, 0)
              && WasRead(old(server.history), server.history, first)
              && SavedAs(r.result, old(server.history), server.history, manifest, first, sprint)
    ensures r.Saved? ==> IsLatest(AfterOthers(old(server.history), get), first)
    ensures r.Saved? && RoundOf(true, gets[0], writes[0], true) == Done ==>
              AtMostOneMore(AfterRound(AfterOthers(old(server.history), get), gets[0], writes[0]), server.history)
    ensures SavesManifest(r, server.history, manifest, sprint)
  {
    first := Null;
    var existing := server.Get(get);
    if !existing.Found? {
      r := if existing.Failed? then ReadFailed else NotThere;
      return;
    }
    first := existing.object_;
    ghost var middle := server.history;
    var result := SaveManifest(server, manifest, existing.object_, gets, writes, leaseLost, sprint);
    ReadStays(old(server.history), middle, server.history, first);
    SavedLater(result, old(server.history), middle, server.history, manifest, first, sprint);
    r := Saved(result);
    SavedStoresManifest(result, old(server.history), server.history, manifest, first, sprint);
  }

  method SaveManifest(server: ApiServer, manifest: Json, existing: Json, gets: seq<Turn>, writes: seq<Turn>,
                      leaseLost: seq<bool>, sprint: Json -> string)
      returns (result: WriteResult)
    requires server.Valid() && Present(server.history) && |gets| == |writes| == |leaseLost| == 3
    requires manifest.Obj? && Field(manifest, "metadata").Obj?
    modifies server
    ensures server.Valid() && old(server.history) <= server.history
    ensures EndingOf(result) == LoopOf(true, gets, writes, leaseLost, true, 0)
    ensures SavedAs(result, old(server.history), server.history, manifest, existing, sprint)
    ensures RoundOf(true, gets[0], writes[0], true) == Done ==>
              AtMostOneMore(AfterRound(old(server.history), gets[0], writes[0]), server.history)
  {
    var kind := Kind(manifest, sprint);
    if kind == "PersistentVolumeClaim" {
      result := PatchWithResourceVersion(server, PvcUpdatePatch(manifest), gets, writes, leaseLost);
    } else {
      var body := Prepare(manifest, existing, sprint);
      result := ReplaceWithResourceVersion(server, body, gets, writes, leaseLost, sprint);
    }
  }

  method Prepare(manifest: Json, existing: Json, sprint: Json -> string) returns (body: Json)
    requires manifest.Obj? && Field(manifest, "metadata").Obj?
    ensures body == Prepared(manifest, existing, sprint) && body.Obj? && Field(body, "metadata").Obj?
  {
    PreserveKeepsMetadata(manifest, existing, sprint);
    body := manifest;
    if Kind(manifest, sprint) == "Service" {
      body := PreserveServiceAllocations(body, existing, sprint);
    }
  }

  lemma ReadStays(before: seq<Version>, middle: seq<Version>, after: seq<Version>, first: Json)
    requires before != [] && before <= middle <= after && middle[|middle| - 1].body == Some(first)
    ensures WasRead(before, after, first)
  {
    assert after[|middle| - 1].body == Some(first);
  }

  lemma SavedLater(result: WriteResult, before: seq<Version>, middle: seq<Version>, after: seq<Version>, manifest: Json,
                   first: Json, sprint: Json -> string)
    requires before != [] && OnlyOthersWrote(before, middle) && manifest.Obj?
    requires SavedAs(result, middle, after, manifest, first, sprint)
    ensures SavedAs(result, before, after, manifest, first, sprint)
  {
    if !OnlyOthersWrote(middle, after) {
      LaterSwap(before, middle, after);
    }
  }

  /** Each allocated field of a Service's stored version is the manifest's where that is set, else
      the first read's where that is set, else that of the version overwritten. */
  lemma StoredAllocationIs(before: seq<Version>, after: seq<Version>, manifest: Json, first: Json,
                           sprint: Json -> string, key: string)
    requires manifest.Obj? && Field(manifest, "metadata").Obj? && Kind(manifest, sprint) == "Service"
    requires AppliedTo(before, after, manifest, first, sprint)
    requires key in {"clusterIP", "clusterIPs", "ipFamilies", "ipFamilyPolicy", "healthCheckNodePort"}
    requires Field(manifest, "spec").Obj? && Field(first, "spec").Obj? && Field(Overwritten(after), "spec").Obj?
    ensures var path := ["spec", key];
            At(after[|after| - 1].body.value, path) ==
            if !UnsetAt(At(manifest, path)) then At(manifest, path)
            else if !UnsetAt(At(first, path)) then At(first, path)
            else if !UnsetAt(At(Overwritten(after), path)) then At(Overwritten(after), path)
            else At(manifest, path)
  {
    var prepared := Prepared(manifest, first, sprint);
    PreserveKeepsMetadata(manifest, first, sprint);
    AllocationIs(manifest, first, sprint, key);
    assert Field(prepared, "spec").Obj? && Kind(prepared, sprint) == "Service";
    ServiceSpecIsFilled(before, after, prepared, sprint);
    AllocationIs(prepared, Overwritten(after), sprint, key);
    SameSpecAt(after[|after| - 1].body.value, Preserve(prepared, Overwritten(after), sprint), key);
  }

  lemma SameSpecAt(a: Json, b: Json, key: string)
    requires Field(a, "spec") == Field(b, "spec") && Field(a, "spec").Obj?
    ensures At(a, ["spec", key]) == At(b, ["spec", key])
  {
    AtSpec(a, key);
    AtSpec(b, key);
  }

  // ---- The first read ------------------------------------------------------------------

  /** A Service's replacement is what the manifest and the version overwritten alone would
      make it if and only if nothing that the first read contributed differs in that
      version. */
  lemma FirstReadLeaksExactly(manifest: Json, first: Json, overwritten: Json, sprint: Json -> string)
    requires manifest.Obj? && Field(manifest, "metadata").Obj? && Kind(manifest, sprint) == "Service"
    ensures ReplaceBody(Prepared(manifest, first, sprint), overwritten, sprint) ==
            ReplaceBody(manifest, overwritten, sprint) <==>
            FirstIsMoot(manifest, first, overwritten, sprint)
  {
    var versioned := Versioned(manifest, overwritten);
    assert Versioned(Preserve(manifest, first, sprint), overwritten) == Preserve(versioned, first, sprint) by {
      VersionedCommutes(manifest, first, overwritten, sprint);
    }
    assert Field(versioned, "spec") == Field(manifest, "spec") && Field(versioned, "kind") == Field(manifest, "kind");
    assert Field(Preserve(versioned, first, sprint), "kind") == Field(manifest, "kind");
    FilledTwice(versioned, first, overwritten, sprint);
  }

  /** And so the version that the server ends up with shows the first read or does not. */
  lemma FirstReadReachesTheServer(before: seq<Version>, after: seq<Version>, manifest: Json, first: Json,
                                  sprint: Json -> string)
    requires manifest.Obj? && Field(manifest, "metadata").Obj? && Kind(manifest, sprint) == "Service"
    requires AppliedTo(before, after, manifest, first, sprint)
    ensures after[|after| - 1].body == Some(Stamp(ReplaceBody(manifest, Overwritten(after), sprint), |after| - 1)) <==>
            FirstIsMoot(manifest, first, Overwritten(after), sprint)
  {
    var overwritten := Overwritten(after);
    PreserveKeepsMetadata(manifest, first, sprint);
    var sent, wanted := ReplaceBody(Prepared(manifest, first, sprint), overwritten, sprint),
      ReplaceBody(manifest, overwritten, sprint);
    ReplaceBodyMetadata(Prepared(manifest, first, sprint), overwritten, sprint);
    ReplaceBodyMetadata(manifest, overwritten, sprint);
    StampIsInjective(sent, wanted, |after| - 1);
    FirstReadLeaksExactly(manifest, first, overwritten, sprint);
  }

  lemma ReplaceBodyMetadata(manifest: Json, existing: Json, sprint: Json -> string)
    requires manifest.Obj? && Field(manifest, "metadata").Obj?
    ensures ReplaceBody(manifest, existing, sprint).Obj? && "metadata" in ReplaceBody(manifest, existing, sprint).fields
    ensures Field(ReplaceBody(manifest, existing, sprint), "metadata") ==
            Field(Versioned(manifest, existing), "metadata")
  {
  }

  lemma StampIsInjective(a: Json, b: Json, k: nat)
    requires a.Obj? && b.Obj? && "metadata" in a.fields && "metadata" in b.fields
    requires a.fields["metadata"] == b.fields["metadata"]
    ensures Stamp(a, k) == Stamp(b, k) <==> a == b
  {
    var metadata := Field(Stamp(a, k), "metadata");
    assert Stamp(a, k) == Obj(a.fields["metadata" := metadata]) && Stamp(b, k) == Obj(b.fields["metadata" := metadata]);
    assert a.fields == a.fields["metadata" := metadata]["metadata" := a.fields["metadata"]];
    assert b.fields == b.fields["metadata" := metadata]["metadata" := b.fields["metadata"]];
  }

  /** The manifest with the version that was read. */
  function Versioned(manifest: Json, existing: Json): Json
    requires manifest.Obj? && Field(manifest, "metadata").Obj?
  {
    WithField(manifest, "metadata",
      WithField(Field(manifest, "metadata"), "resourceVersion", ResourceVersion(existing)))
  }

  lemma VersionedCommutes(manifest: Json, first: Json, existing: Json, sprint: Json -> string)
    requires manifest.Obj? && Field(manifest, "metadata").Obj?
    ensures Preserve(manifest, first, sprint).Obj? &&
            Field(Preserve(manifest, first, sprint), "metadata") == Field(manifest, "metadata")
    ensures Versioned(Preserve(manifest, first, sprint), existing) ==
            Preserve(Versioned(manifest, existing), first, sprint)
  {
    var version := WithField(Field(manifest, "metadata"), "resourceVersion", ResourceVersion(existing));
    assert Field(Versioned(manifest, existing), "spec") == Field(manifest, "spec");
    if Field(manifest, "spec").Obj? {
      var spec := Obj(FillSpec(SpecOf(manifest), ALLOCATED, SpecOf(first), sprint));
      assert manifest.fields["spec" := spec]["metadata" := version] ==
             manifest.fields["metadata" := version]["spec" := spec];
    }
  }

  function ExampleManifest(): Json {
    Obj(map["kind" := Str("Service"),
            "metadata" := Obj(map["name" := Str("web"), "namespace" := Str("default"),
                                  "labels" := Obj(map[RUNTIME_LABEL := Str("r1")])]),
            "spec" := Obj(map[])])
  }

  const ADDRESS := Str("10.0.0.1")

  function ServiceWith(spec: Fields): Json {
    Obj(map["kind" := Str("Service"), "metadata" := Obj(map["name" := Str("web")]), "spec" := Obj(spec)])
  }

  /** The Service as it is first read, with an address ... */
  function Given(): Json {
    Stamp(ServiceWith(map["clusterIP" := ADDRESS]), 0)
  }

  /** ... and as it is overwritten, without one. */
  function Bare(): Json {
    Stamp(ServiceWith(map[]), 1)
  }

  lemma ExampleSpecs()
    ensures SpecOf(Given()) == map["clusterIP" := ADDRESS] && SpecOf(Bare()) == map[] &&
            SpecOf(ExampleManifest()) == map[]
    ensures Field(ExampleManifest(), "spec").Obj?
  {
  }

  /** An allocation that the manifest leaves open and the first read has is sent, whatever the
      version overwritten says. */
  lemma FirstAllocationIsSent(manifest: Json, first: Json, overwritten: Json, key: string, sprint: Json -> string)
    requires manifest.Obj? && Field(manifest, "metadata").Obj? && Kind(manifest, sprint) == "Service"
    requires Field(manifest, "spec").Obj? && key in ALLOCATED && Unset(Lookup(SpecOf(manifest), key))
    requires !Unset(Lookup(SpecOf(first), key))
    ensures Lookup(SpecOf(ReplaceBody(Prepared(manifest, first, sprint), overwritten, sprint)), key) ==
            Lookup(SpecOf(first), key)
  {
    var prepared := Prepared(manifest, first, sprint);
    PreserveKeepsMetadata(manifest, first, sprint);
    FilledKey(manifest, first, key, sprint);
    var versioned := Versioned(prepared, overwritten);
    assert Field(versioned, "spec") == Field(prepared, "spec") && Field(versioned, "kind") == Field(manifest, "kind");
    FilledKey(versioned, overwritten, key, sprint);
  }

  lemma FilledKey(desired: Json, existing: Json, key: string, sprint: Json -> string)
    requires Field(desired, "spec").Obj? && key in ALLOCATED
    ensures Field(Preserve(desired, existing, sprint), "spec").Obj?
    ensures Lookup(SpecOf(Preserve(desired, existing, sprint)), key) ==
            Fill(Lookup(SpecOf(desired), key), Lookup(SpecOf(existing), key))
  {
    assert "ports" !in ALLOCATED;
  }

  /** It differs, for instance, when a valid Service manifest without an address meets a
      Service that had one on the first read and has none on the second. */
  lemma FirstReadCanLeak(sprint: Json -> string)
    requires forall s :: sprint(Str(s)) == s
    ensures Check(ExampleManifest(), "r1", "default", sprint) == None
    ensures ReplaceBody(Prepared(ExampleManifest(), Given(), sprint), Bare(), sprint) !=
            ReplaceBody(ExampleManifest(), Bare(), sprint)
  {
    ExampleIsValid(sprint);
    ExampleIsStale(sprint);
    FirstReadLeaksExactly(ExampleManifest(), Given(), Bare(), sprint);
  }

  lemma ExampleIsStale(sprint: Json -> string)
    ensures !FirstIsMoot(ExampleManifest(), Given(), Bare(), sprint)
  {
    ExampleSpecs();
    OneKeyIsStale(ExampleManifest(), Given(), Bare(), "clusterIP", sprint);
  }

  lemma OneKeyIsStale(manifest: Json, first: Json, second: Json, key: string, sprint: Json -> string)
    requires Field(manifest, "spec").Obj? && key == "clusterIP" && Unset(Lookup(SpecOf(manifest), key))
    requires !Unset(Lookup(SpecOf(first), key)) && Lookup(SpecOf(second), key) != Lookup(SpecOf(first), key)
    ensures !FirstIsMoot(manifest, first, second, sprint)
  {
    assert ALLOCATED[0] == "clusterIP";
    assert !KeyNotStale(Lookup(SpecOf(manifest), key), Lookup(SpecOf(first), key), Lookup(SpecOf(second), key));
  }

  /** What one version says at an allocated key. */
  function AllocatedIn(version: Version, key: string): Option<Json> {
    if version.body == None then None else Lookup(SpecOf(version.body.value), key)
  }

  /** A run for every such case: the Service has an allocation when it is first read, another
      client writes a Service without it, and the update then stores it again, though neither
      the manifest nor the version overwritten has it. */
  method LeakingRun(manifest: Json, given: Json, bare: Json, get: Turn, gets: seq<Turn>, writes: seq<Turn>,
                    leaseLost: seq<bool>, key: string, sprint: Json -> string)
      returns (server: ApiServer, r: Applied)
    requires |gets| == |writes| == |leaseLost| == 3
    requires get == writes[0] == Turn([], NoFault) && gets[0] == Turn([Some(bare)], NoFault)
    requires manifest.Obj? && Field(manifest, "metadata").Obj? && Kind(manifest, sprint) == "Service"
    requires Field(manifest, "spec").Obj? && key in ALLOCATED && Unset(Lookup(SpecOf(manifest), key))
    requires !Unset(Lookup(SpecOf(given), key)) && Unset(Lookup(SpecOf(bare), key))
    ensures fresh(server) && server.Valid() && r.Saved? && r.result.Written? && |server.history| == 3
    ensures Unset(AllocatedIn(server.history[1], key)) && !server.history[1].byAgent
    ensures AllocatedIn(server.history[2], key) == Lookup(SpecOf(given), key) && server.history[2].byAgent
  {
    server := new ApiServer(given);
    ghost var start := server.history;
    QuietHistory(start, given, bare, gets[0], get);
    FirstRoundSucceeds(gets, writes, leaseLost);
    ghost var first: Json;
    r, first := UpdateManifest(server, manifest, get, gets, writes, leaseLost, sprint);
    LeakIsStored(start, server.history, manifest, given, bare, first, r.result, key, sprint);
  }

  lemma ExampleIsValid(sprint: Json -> string)
    requires forall s :: sprint(Str(s)) == s
    ensures Kind(ExampleManifest(), sprint) == "Service"
    ensures Check(ExampleManifest(), "r1", "default", sprint) == None
  {
    var metadata := Field(ExampleManifest(), "metadata");
    assert Field(metadata, "name") == Str("web") && Field(metadata, "namespace") == Str("default");
    assert Field(Field(metadata, "labels"), RUNTIME_LABEL) == Str("r1");
    TrimSpaceKeeps("Service");
    TrimSpaceKeeps("web");
    TrimSpaceKeeps("default");
    TrimSpaceKeeps("r1");
  }

  lemma FirstRoundSucceeds(gets: seq<Turn>, writes: seq<Turn>, leaseLost: seq<bool>)
    requires |gets| == |writes| == |leaseLost| == 3
    requires gets[0].fault == NoFault && gets[0].others != [] && gets[0].others[|gets[0].others| - 1].Some?
    requires writes[0] == Turn([], NoFault)
    ensures RoundOf(true, gets[0], writes[0], true) == Done
    ensures LoopOf(true, gets, writes, leaseLost, true, 0) == Done
  {
  }

  function TwoVersions(given: Json, bare: Json): seq<Version> {
    [Version(Some(Stamp(given, 0)), false), Version(Some(Stamp(bare, 1)), false)]
  }

  lemma QuietHistory(start: seq<Version>, given: Json, bare: Json, takenAway: Turn, quiet: Turn)
    requires start == Append([], Some(given), false) && takenAway.others == [Some(bare)] && quiet.others == []
    ensures start == [Version(Some(Stamp(given, 0)), false)] && Present(start)
    ensures AfterOthers(start, quiet) == start
    ensures AfterRound(start, takenAway, quiet) == TwoVersions(given, bare)
  {
    var others := takenAway.others;
    assert WithOthers(start, others, 1) == Append(WithOthers(start, others, 0), others[0], false);
  }

  lemma LeakIsStored(start: seq<Version>, after: seq<Version>, manifest: Json, given: Json, bare: Json, first: Json,
                     result: WriteResult, key: string, sprint: Json -> string)
    requires manifest.Obj? && Field(manifest, "metadata").Obj? && Kind(manifest, sprint) == "Service"
    requires Field(manifest, "spec").Obj? && key in ALLOCATED && Unset(Lookup(SpecOf(manifest), key))
    requires !Unset(Lookup(SpecOf(given), key)) && Unset(Lookup(SpecOf(bare), key))
    requires IsLatest(start, first) && start == [Version(Some(Stamp(given, 0)), false)]
    requires AtMostOneMore(TwoVersions(given, bare), after) && result.Written?
    requires SavedAs(result, start, after, manifest, first, sprint)
    ensures |after| == 3 && after[2].byAgent && !after[1].byAgent
    ensures Unset(AllocatedIn(after[1], key)) && AllocatedIn(after[2], key) == Lookup(SpecOf(given), key)
  {
    assert after[..2] == TwoVersions(given, bare);
    assert after[1] == TwoVersions(given, bare)[1];
    StampKeepsSpec(given, 0);
    StampKeepsSpec(bare, 1);
    FirstAllocationIsSent(manifest, first, Stamp(bare, 1), key, sprint);
    StampKeepsSpec(ReplaceBody(Prepared(manifest, first, sprint), Stamp(bare, 1), sprint), 2);
  }

  lemma StampKeepsSpec(j: Json, k: nat)
    ensures SpecOf(Stamp(j, k)) == SpecOf(j)
  {
  }
}
