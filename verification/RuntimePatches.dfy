/** The patches that the runtime and node tasks send, and all that they change. */
module RuntimePatches {
  import opened Basics
  import opened JsonValues
  import opened OptimisticWrites

  /** A patch with one leaf. */
  function Leaf(path: seq<string>, value: Json): Json
    decreases |path|
  {
    if path == [] then value else Obj(map[path[0] := Leaf(path[1..], value)])
  }

  const REPLICAS := ["spec", "replicas"]
  const RESTARTED_AT := ["spec", "template", "metadata", "annotations", "monkeys/runtime-restarted-at"]
  const STORAGE := ["spec", "resources", "requests", "storage"]
  const RESOURCE_VERSION := ["metadata", "resourceVersion"]

  /** pvcUpdatePatch. Labels or annotations that the manifest lacks become null. */
  function PvcUpdatePatch(manifest: Json): Json {
    var metadata := Field(manifest, "metadata");
    Obj(map[
      "metadata" := Obj(map["labels" := Field(metadata, "labels"), "annotations" := Field(metadata, "annotations")]),
      "spec" := Leaf(STORAGE[1..], RequestedStorage(manifest))])
  }

  function RequestedStorage(manifest: Json): Json {
    Field(Field(Field(Field(manifest, "spec"), "resources"), "requests"), "storage")
  }

  lemma {:induction false} LeafMissesTheRest(target: seq<string>, value: Json, path: seq<string>)
    requires Apart(path, target)
    ensures Misses(Leaf(target, value), path)
    decreases |target|
  {
    if path[0] == target[0] {
      assert path == [path[0]] + path[1..] && target == [target[0]] + target[1..];
      assert Apart(path[1..], target[1..]);
      LeafMissesTheRest(target[1..], value, path[1..]);
    }
  }

  lemma {:induction false} LeafIsAtItsPath(target: seq<string>, value: Json)
    ensures At(Leaf(target, value), target) == Some(value)
    decreases |target|
  {
    if target != [] {
      LeafIsAtItsPath(target[1..], value);
    }
  }

  /** A successful one-leaf patch (scale, restart, cordon) leaves the object as the last
      other writer left it, except for that leaf and the resource version. */
  lemma LeafPatchChangesOneLeaf(before: seq<Version>, after: seq<Version>, target: seq<string>, value: Json,
                                path: seq<string>)
    requires |target| >= 2 && target[0] != "metadata" && !value.Obj? && value != Null
    requires Patched(before, after, Leaf(target, value))
    ensures At(after[|after| - 1].body.value, target) == Some(value)
    ensures Apart(path, target) && Apart(path, RESOURCE_VERSION) ==>
              At(after[|after| - 1].body.value, path) == At(Overwritten(after), path)
  {
    var overwritten := Overwritten(after);
    var body := PatchBody(Leaf(target, value), overwritten);
    LeafIsAtItsPath(target, value);
    assert At(body, target) == At(Leaf(target, value), target);
    MergeSetsLeaves(overwritten, body, target);
    StampKeepsTheRest(MergePatch(overwritten, body), |after| - 1, target);
    if Apart(path, target) && Apart(path, RESOURCE_VERSION) {
      LeafMissesTheRest(target, value, path);
      PatchKeepsConcurrentUpdates(before, after, Leaf(target, value), path);
    }
  }

  lemma ScaleChangesOnlyReplicas(before: seq<Version>, after: seq<Version>, replicas: int, path: seq<string>)
    requires Patched(before, after, Leaf(REPLICAS, Num(replicas)))
    ensures At(after[|after| - 1].body.value, REPLICAS) == Some(Num(replicas))
    ensures Apart(path, REPLICAS) && Apart(path, RESOURCE_VERSION) ==>
              At(after[|after| - 1].body.value, path) == At(Overwritten(after), path)
  {
    LeafPatchChangesOneLeaf(before, after, REPLICAS, Num(replicas), path);
  }

  lemma RestartChangesOnlyTheAnnotation(before: seq<Version>, after: seq<Version>, at: string, path: seq<string>)
    requires Patched(before, after, Leaf(RESTARTED_AT, Str(at)))
    ensures At(after[|after| - 1].body.value, RESTARTED_AT) == Some(Str(at))
    ensures Apart(path, RESTARTED_AT) && Apart(path, RESOURCE_VERSION) ==>
              At(after[|after| - 1].body.value, path) == At(Overwritten(after), path)
  {
    LeafPatchChangesOneLeaf(before, after, RESTARTED_AT, Str(at), path);
  }

  /** Updating a claim changes nothing in its spec but the requested storage, and nothing
      in its metadata but labels, annotations and the resource version. */
  lemma PvcUpdateChangesOnlyStorage(before: seq<Version>, after: seq<Version>, manifest: Json, path: seq<string>)
    requires Patched(before, after, PvcUpdatePatch(manifest))
    requires path != [] && path[0] == "spec" ==> Apart(path, STORAGE)
    requires path != [] && path[0] == "metadata" ==>
               Apart(path, ["metadata", "labels"]) && Apart(path, ["metadata", "annotations"]) &&
                 Apart(path, RESOURCE_VERSION)
    requires path != []
    ensures At(after[|after| - 1].body.value, path) == At(Overwritten(after), path)
  {
    var patch := PvcUpdatePatch(manifest);
    if path[0] == "spec" {
      assert path == ["spec"] + path[1..] && STORAGE == ["spec"] + STORAGE[1..];
      assert Apart(path[1..], STORAGE[1..]);
      StorageMisses(manifest, path[1..]);
    }
    assert Misses(patch, path);
    PatchKeepsConcurrentUpdates(before, after, patch, path);
  }

  lemma StorageMisses(manifest: Json, path: seq<string>)
    requires Apart(path, STORAGE[1..])
    ensures Misses(PvcUpdatePatch(manifest).fields["spec"], path)
  {
    LeafMissesTheRest(STORAGE[1..], RequestedStorage(manifest), path);
  }

  /** The requested storage becomes the manifest's, or is removed when the manifest has none. */
  lemma PvcUpdateSetsStorage(before: seq<Version>, after: seq<Version>, manifest: Json)
    requires Patched(before, after, PvcUpdatePatch(manifest))
    requires var wanted := At(manifest, ["spec", "resources", "requests", "storage"]);
             wanted == None || !wanted.value.Obj?
    ensures var wanted := At(manifest, ["spec", "resources", "requests", "storage"]);
            At(after[|after| - 1].body.value, ["spec", "resources", "requests", "storage"]) ==
            if wanted == Some(Null) then None else wanted
  {
    var overwritten := Overwritten(after);
    var body := PatchBody(PvcUpdatePatch(manifest), overwritten);
    StorageIsRequested(manifest);
    LeafIsAtItsPath(STORAGE[1..], RequestedStorage(manifest));
    assert Field(body, "spec") == Leaf(STORAGE[1..], RequestedStorage(manifest));
    assert At(body, STORAGE) == Some(RequestedStorage(manifest));
    MergeSetsLeaves(overwritten, body, STORAGE);
    StampKeepsTheRest(MergePatch(overwritten, body), |after| - 1, STORAGE);
  }

  lemma StorageIsRequested(manifest: Json)
    ensures var wanted := At(manifest, STORAGE);
            RequestedStorage(manifest) == if wanted == None then Null else wanted.value
  {
    assert STORAGE[1..] == ["resources", "requests", "storage"];
    assert STORAGE[1..][1..] == ["requests", "storage"] && ["requests", "storage"][1..] == ["storage"];
  }

  /** A label or annotation that the manifest sets is set on the claim. */
  lemma PvcUpdateSetsMentioned(before: seq<Version>, after: seq<Version>, manifest: Json, field: string, key: string)
    requires Patched(before, after, PvcUpdatePatch(manifest)) && (field == "labels" || field == "annotations")
    requires At(manifest, ["metadata", field, key]).Some? && !At(manifest, ["metadata", field, key]).value.Obj?
    ensures var wanted := At(manifest, ["metadata", field, key]);
            At(after[|after| - 1].body.value, ["metadata", field, key]) == if wanted == Some(Null) then None else wanted
  {
    var overwritten := Overwritten(after);
    var body := PatchBody(PvcUpdatePatch(manifest), overwritten);
    var path := ["metadata", field, key];
    assert path[1..] == [field, key] && path[1..][1..] == [key];
    assert Field(Field(body, "metadata"), field) == Field(Field(manifest, "metadata"), field);
    assert At(body, path) == At(manifest, path);
    MergeSetsLeaves(overwritten, body, path);
    StampKeepsTheRest(MergePatch(overwritten, body), |after| - 1, path);
  }

  /** Below a value that is no object there is nothing. */
  lemma {:induction false} NothingInside(j: Json, path: seq<string>, key: string)
    requires At(j, path) == None || !At(j, path).value.Obj?
    ensures At(j, path + [key]) == None
    decreases |path|
  {
    if path == [] {
      assert path + [key] == [key];
    } else if path[0] in ObjectValue(j) {
      assert (path + [key])[1..] == path[1..] + [key];
      NothingInside(ObjectValue(j)[path[0]], path[1..], key);
    }
  }

  /** A label or annotation that the claim has and the manifest does not mention survives the
      update exactly when the manifest has a labels or annotations object at all; otherwise
      all of them are removed. */
  lemma WhenUnmentionedSurvives(before: seq<Version>, after: seq<Version>, manifest: Json, field: string, key: string)
    requires Patched(before, after, PvcUpdatePatch(manifest)) && (field == "labels" || field == "annotations")
    requires key !in ObjectValue(Field(Field(manifest, "metadata"), field))
    requires At(Overwritten(after), ["metadata", field, key]).Some?
    ensures var path := ["metadata", field, key];
            At(after[|after| - 1].body.value, path) == At(Overwritten(after), path) <==>
            Field(Field(manifest, "metadata"), field).Obj?
  {
    var patch, path := PvcUpdatePatch(manifest), ["metadata", field, key];
    var mentioned := Field(Field(manifest, "metadata"), field);
    assert Field(Field(patch, "metadata"), field) == mentioned;
    if mentioned.Obj? {
      assert path[1..] == [field, key] && path[1..][1..] == [key];
      assert Misses(mentioned, [key]);
      assert Misses(Field(patch, "metadata"), [field, key]);
      assert Misses(patch, path);
      PatchKeepsConcurrentUpdates(before, after, patch, path);
    } else {
      FieldIsReplaced(before, after, manifest, field);
      NothingInside(after[|after| - 1].body.value, ["metadata", field], key);
      assert ["metadata", field] + [key] == path;
    }
  }

  /** Labels or annotations that are no object take the place of the claim's; missing ones
      remove them. */
  lemma FieldIsReplaced(before: seq<Version>, after: seq<Version>, manifest: Json, field: string)
    requires Patched(before, after, PvcUpdatePatch(manifest)) && (field == "labels" || field == "annotations")
    requires !Field(Field(manifest, "metadata"), field).Obj?
    ensures var mentioned := Field(Field(manifest, "metadata"), field);
            At(after[|after| - 1].body.value, ["metadata", field]) == if mentioned == Null then None
              else Some(mentioned)
  {
    var overwritten := Overwritten(after);
    var body := PatchBody(PvcUpdatePatch(manifest), overwritten);
    var path := ["metadata", field];
    assert At(body, path) == Some(Field(Field(manifest, "metadata"), field)) by {
      assert Field(body, "metadata").fields[field] == Field(Field(manifest, "metadata"), field);
      assert At(Field(body, "metadata"), path[1..]) == Some(Field(Field(manifest, "metadata"), field));
    }
    MergeSetsLeaves(overwritten, body, path);
    StampKeepsTheRest(MergePatch(overwritten, body), |after| - 1, path);
  }
}
