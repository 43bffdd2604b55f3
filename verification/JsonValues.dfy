/** JSON values as the agent handles them, and the merge patch the API server applies. */
module JsonValues {
  import opened Basics
  import opened Strings

  datatype Json =
    | Null
    | Bool(b: bool)
    | Num(n: int)
    | Str(s: string)
    | Arr(items: seq<Json>)
    | Obj(fields: map<string, Json>)

  /** objectValue: the fields of an object, and no fields for anything else. */
  function ObjectValue(j: Json): map<string, Json> {
    if j.Obj? then j.fields else map[]
  }

  /** `objectValue(j)[key]`; Go reads null and an absent field alike. */
  function Field(j: Json, key: string): Json {
    if key in ObjectValue(j) then ObjectValue(j)[key] else Null
  }

  /** stringValue; how Go prints a value is left open as `sprint`. */
  function StringValue(j: Json, sprint: Json -> string): string {
    if j == Null then "" else TrimSpace(sprint(j))
  }

  function WithField(j: Json, key: string, value: Json): Json
    requires j.Obj?
  {
    Obj(j.fields[key := value])
  }

  /** The value at the end of a path of field names. */
  function At(j: Json, path: seq<string>): Option<Json>
    decreases |path|
  {
    if path == [] then Some(j)
    else if path[0] in ObjectValue(j) then At(ObjectValue(j)[path[0]], path[1..])
    else None
  }

  /** JSON merge patch, section 2 of RFC 7396. */
  function MergePatch(target: Json, patch: Json): Json
    decreases patch
  {
    if !patch.Obj? then patch
    else
      var fields := ObjectValue(target);
      Obj(map key | key in fields.Keys + patch.fields.Keys && !(key in patch.fields && patch.fields[key] == Null) ::
            if key in patch.fields then MergePatch(Field(target, key), patch.fields[key]) else fields[key])
  }

  /** The patch says nothing about what lies at `path`. */
  predicate Misses(patch: Json, path: seq<string>)
    decreases |path|
  {
    path != [] && patch.Obj? && (path[0] in patch.fields ==> Misses(patch.fields[path[0]], path[1..]))
  }

  lemma {:induction false} MergeKeepsTheRest(target: Json, patch: Json, path: seq<string>)
    requires Misses(patch, path)
    ensures At(MergePatch(target, patch), path) == At(target, path)
    decreases |path|
  {
    if path[0] in patch.fields {
      MergeKeepsTheRest(Field(target, path[0]), patch.fields[path[0]], path[1..]);
    }
  }

  /** A leaf of the patch lands in the result, and a null leaf removes what was there. */
  lemma {:induction false} MergeSetsLeaves(target: Json, patch: Json, path: seq<string>)
    requires path != [] && At(patch, path).Some? && !At(patch, path).value.Obj?
    ensures At(MergePatch(target, patch), path) == (if At(patch, path).value == Null then None else At(patch, path))
    decreases |path|
  {
    if |path| > 1 {
      MergeSetsLeaves(Field(target, path[0]), patch.fields[path[0]], path[1..]);
    }
  }

  /** Neither path is a prefix of the other. */
  predicate Apart(a: seq<string>, b: seq<string>) {
    !(a <= b) && !(b <= a)
  }
}
