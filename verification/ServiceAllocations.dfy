/** Carrying the addresses and ports that the cluster allocated over into a new Service. */
module ServiceAllocations {
  import opened Basics
  import opened Strings
  import opened JsonValues

  const ALLOCATED := ["clusterIP", "clusterIPs", "ipFamilies", "ipFamilyPolicy", "healthCheckNodePort"]

  type Fields = map<string, Json>

  function Lookup(fields: Fields, key: string): Option<Json> {
    if key in fields then Some(fields[key]) else None
  }

  /** What Go reads as nil: no entry, or null. */
  predicate Unset(v: Option<Json>) {
    v == None || v == Some(Null)
  }

  /** A value, or the other side's where it is not set and the other side's is. */
  function Fill(v: Option<Json>, source: Option<Json>): Option<Json> {
    if Unset(v) && !Unset(source) then source else v
  }

  /** The fields with each of `keys` filled from `source`. */
  function FillKeys(fields: Fields, keys: seq<string>, source: Fields): (filled: Fields)
    ensures forall key :: Lookup(filled, key) ==
              if key in keys then Fill(Lookup(fields, key), Lookup(source, key)) else Lookup(fields, key)
  {
    map key | key in fields.Keys + source.Keys && (key in fields || (key in keys && source[key] != Null)) ::
      if key in keys then Fill(Lookup(fields, key), Lookup(source, key)).value else fields[key]
  }

  function PortKey(port: Json, sprint: Json -> string): string {
    FirstNonEmpty([StringValue(Field(port, "name"), sprint), StringValue(Field(port, "port"), sprint)])
  }

  /** The ports of the existing Service by key; a later port replaces an earlier one. */
  function PortTable(ports: seq<Json>, sprint: Json -> string): Fields {
    if ports == [] then map[]
    else
      var rest := PortTable(ports[..|ports| - 1], sprint);
      var last := ports[|ports| - 1];
      if last.Obj? then rest[PortKey(last, sprint) := last] else rest
  }

  /** What the table offers as node port for `port`. */
  function Offer(port: Json, table: Fields, sprint: Json -> string): Json {
    if port.Obj? && PortKey(port, sprint) in table then Field(table[PortKey(port, sprint)], "nodePort") else Null
  }

  function FillPort(port: Json, table: Fields, sprint: Json -> string): Json {
    if Field(port, "nodePort") == Null && Offer(port, table, sprint) != Null
    then WithField(port, "nodePort", Offer(port, table, sprint))
    else port
  }

  function FillPorts(ports: seq<Json>, table: Fields, sprint: Json -> string): seq<Json> {
    seq(|ports|, k requires 0 <= k < |ports| => FillPort(ports[k], table, sprint))
  }

  function ItemsOf(j: Json): seq<Json> {
    if j.Arr? then j.items else []
  }

  function SpecOf(j: Json): Fields {
    ObjectValue(Field(j, "spec"))
  }

  function TableOf(existing: Fields, sprint: Json -> string): Fields {
    PortTable(ItemsOf(if "ports" in existing then existing["ports"] else Null), sprint)
  }

  function FillSpec(spec: Fields, keys: seq<string>, existing: Fields, sprint: Json -> string): Fields {
    var filled := FillKeys(spec, keys, existing);
    if "ports" in spec && spec["ports"].Arr?
    then filled["ports" := Arr(FillPorts(spec["ports"].items, TableOf(existing, sprint), sprint))]
    else filled
  }

  /** preserveServiceAllocations as a function. A Service without a spec object stays as
      it is: Go then writes into a map that nobody keeps. */
  function Preserve(desired: Json, existing: Json, sprint: Json -> string): Json {
    if Field(desired, "spec").Obj?
    then WithField(desired, "spec", Obj(FillSpec(SpecOf(desired), ALLOCATED, SpecOf(existing), sprint)))
    else desired
  }

  // ---- As the agent computes it ---------------------------------------------------

  method PreserveServiceAllocations(desired: Json, existing: Json, sprint: Json -> string) returns (updated: Json)
    ensures updated == Preserve(desired, existing, sprint)
  {
    var desiredSpec, existingSpec := SpecOf(desired), SpecOf(existing);
    var filled := CopyUnsetKeys(desiredSpec, ALLOCATED, existingSpec);
    var existingPorts := IndexPorts(ItemsOf(if "ports" in existingSpec then existingSpec["ports"] else Null), sprint);
    assert "ports" !in ALLOCATED;
    assert Lookup(filled, "ports") == Lookup(desiredSpec, "ports");
    if "ports" in filled && filled["ports"].Arr? {
      var ports := CopyNodePorts(filled["ports"].items, existingPorts, sprint);
      filled := filled["ports" := Arr(ports)];
    }
    if Field(desired, "spec").Obj? {
      updated := WithField(desired, "spec", Obj(filled));
    } else {
      updated := desired;
    }
  }

  method CopyUnsetKeys(fields: Fields, keys: seq<string>, source: Fields) returns (filled: Fields)
    ensures filled == FillKeys(fields, keys, source)
  {
    filled := fields;
    SameLookups(filled, FillKeys(fields, [], source));
    for k := 0 to |keys|
      invariant filled == FillKeys(fields, keys[..k], source)
    {
      var key := keys[k];
      ghost var before := filled;
      if (key !in filled || filled[key] == Null) && key in source && source[key] != Null {
        filled := filled[key := source[key]];
      }
      assert keys[..k + 1] == keys[..k] + [key];
      assert Lookup(before, key) == Lookup(fields, key) ||
             Lookup(before, key) == Fill(Lookup(fields, key), Lookup(source, key));
      SameLookups(filled, FillKeys(fields, keys[..k + 1], source));
    }
    assert keys[..|keys|] == keys;
  }

  method IndexPorts(listed: seq<Json>, sprint: Json -> string) returns (existingPorts: Fields)
    ensures existingPorts == PortTable(listed, sprint)
  {
    existingPorts := map[];
    for k := 0 to |listed|
      invariant existingPorts == PortTable(listed[..k], sprint)
    {
      assert listed[..k + 1][..k] == listed[..k];
      if listed[k].Obj? {
        existingPorts := existingPorts[PortKey(listed[k], sprint) := listed[k]];
      }
    }
    assert listed[..|listed|] == listed;
  }

  method CopyNodePorts(wanted: seq<Json>, existingPorts: Fields, sprint: Json -> string) returns (ports: seq<Json>)
    ensures ports == FillPorts(wanted, existingPorts, sprint)
  {
    ports := wanted;
    for k := 0 to |wanted|
      invariant |ports| == |wanted|
      invariant forall j :: 0 <= j < k ==> ports[j] == FillPort(wanted[j], existingPorts, sprint)
      invariant forall j :: k <= j < |wanted| ==> ports[j] == wanted[j]
    {
      var port := ports[k];
      if port.Obj? && PortKey(port, sprint) in existingPorts {
        var current := existingPorts[PortKey(port, sprint)];
        if Field(port, "nodePort") == Null && Field(current, "nodePort") != Null {
          ports := ports[k := WithField(port, "nodePort", Field(current, "nodePort"))];
        }
      }
    }
  }

  lemma SameLookups(a: Fields, b: Fields)
    ensures a == b <==> forall key :: Lookup(a, key) == Lookup(b, key)
  {
    if forall key :: Lookup(a, key) == Lookup(b, key) {
      forall key ensures key in a <==> key in b {
        assert Lookup(a, key) == Lookup(b, key);
      }
      forall key | key in a ensures a[key] == b[key] {
        assert Lookup(a, key) == Lookup(b, key);
      }
      assert a == b;
    }
  }

  // ---- What it guarantees ---------------------------------------------------------

  predicate HasKey(port: Json, sprint: Json -> string, key: string) {
    port.Obj? && PortKey(port, sprint) == key
  }

  ghost predicate IsLastWithKey(ports: seq<Json>, k: nat, sprint: Json -> string, key: string)
    requires k < |ports|
  {
    HasKey(ports[k], sprint, key) && forall j :: k < j < |ports| ==> !HasKey(ports[j], sprint, key)
  }

  /** The table has the keys of the port objects ... */
  lemma {:induction false} TableHasAllKeys(ports: seq<Json>, sprint: Json -> string, key: string)
    ensures key in PortTable(ports, sprint) <==> exists k :: 0 <= k < |ports| && HasKey(ports[k], sprint, key)
    decreases |ports|
  {
    if ports != [] {
      var before, last := ports[..|ports| - 1], ports[|ports| - 1];
      TableHasAllKeys(before, sprint, key);
      assert forall k :: 0 <= k < |before| ==> before[k] == ports[k];
      assert HasKey(ports[|ports| - 1], sprint, key) <==> HasKey(last, sprint, key);
    }
  }

  /** ... and holds, for each key, the last port object that has it. */
  lemma {:induction false} TableHoldsLastPort(ports: seq<Json>, sprint: Json -> string, key: string) returns (k: nat)
    requires key in PortTable(ports, sprint)
    ensures k < |ports| && ports[k] == PortTable(ports, sprint)[key] && IsLastWithKey(ports, k, sprint, key)
    decreases |ports|
  {
    var before, last := ports[..|ports| - 1], ports[|ports| - 1];
    if HasKey(last, sprint, key) {
      k := |ports| - 1;
    } else {
      k := TableHoldsLastPort(before, sprint, key);
      assert forall j :: 0 <= j < |before| ==> before[j] == ports[j];
    }
  }

  /** `filled` agrees with `j` wherever `j` says anything; it may add what `j` leaves out. */
  ghost predicate OnlyFills(j: Json, filled: Json)
    decreases j
  {
    || j == filled
    || j == Null
    || (j.Obj? && filled.Obj? && forall key :: key in j.fields ==>
        key in filled.fields && OnlyFills(j.fields[key], filled.fields[key]))
    || (j.Arr? && filled.Arr? && |j.items| == |filled.items| &&
        forall k :: 0 <= k < |j.items| ==> OnlyFills(j.items[k], filled.items[k]))
  }

  /** No value that the desired Service sets is ever changed, at any depth. */
  lemma PreserveOnlyFills(desired: Json, existing: Json, sprint: Json -> string)
    ensures OnlyFills(desired, Preserve(desired, existing, sprint))
  {
    if Field(desired, "spec").Obj? {
      assert "ports" !in ALLOCATED;
      SpecOnlyFills(SpecOf(desired), ALLOCATED, SpecOf(existing), sprint);
    }
  }

  lemma SpecOnlyFills(spec: Fields, keys: seq<string>, existing: Fields, sprint: Json -> string)
    requires "ports" !in keys
    ensures OnlyFills(Obj(spec), Obj(FillSpec(spec, keys, existing, sprint)))
  {
    var filled := FillSpec(spec, keys, existing, sprint);
    forall key | key in spec ensures key in filled && OnlyFills(spec[key], filled[key]) {
      if key == "ports" && spec[key].Arr? {
        var ports, table := spec[key].items, TableOf(existing, sprint);
        forall k | 0 <= k < |ports| ensures OnlyFills(ports[k], FillPort(ports[k], table, sprint)) {
          PortOnlyFills(ports[k], table, sprint);
        }
      } else {
        assert Lookup(FillKeys(spec, keys, existing), key) == Lookup(filled, key);
      }
    }
  }

  lemma PortOnlyFills(port: Json, table: Fields, sprint: Json -> string)
    ensures OnlyFills(port, FillPort(port, table, sprint))
  {
  }

  // ---- The filled Service, by its paths -----------------------------------------------

  predicate UnsetAt(v: Option<Json>) {
    v == None || v == Some(Null)
  }

  lemma AtSpec(j: Json, key: string)
    requires Field(j, "spec").Obj?
    ensures At(j, ["spec", key]) == Lookup(SpecOf(j), key)
  {
    assert At(Field(j, "spec"), [key]) == Lookup(SpecOf(j), key);
  }

  /** Each of the five allocated fields is the desired one where that is set, else the existing
      one where that is set. */
  lemma AllocationIs(desired: Json, existing: Json, sprint: Json -> string, key: string)
    requires Field(desired, "spec").Obj? && Field(existing, "spec").Obj?
    requires key in {"clusterIP", "clusterIPs", "ipFamilies", "ipFamilyPolicy", "healthCheckNodePort"}
    ensures var path := ["spec", key];
            At(Preserve(desired, existing, sprint), path) ==
            if UnsetAt(At(desired, path)) && !UnsetAt(At(existing, path)) then At(existing, path) else At(desired, path)
  {
    var i := if key == "clusterIP" then 0 else if key == "clusterIPs" then 1 else if key == "ipFamilies" then 2
             else if key == "ipFamilyPolicy" then 3 else 4;
    assert ALLOCATED[i] == key && "ports" !in ALLOCATED;
    AtSpec(desired, key);
    AtSpec(existing, key);
    AtSpec(Preserve(desired, existing, sprint), key);
  }

  /** The text by which a port is known: its name, or else its number. */
  predicate KnownBy(port: Json, sprint: Json -> string, text: string) {
    port.Obj? &&
    if StringValue(Field(port, "name"), sprint) != "" then text == StringValue(Field(port, "name"), sprint)
    else text == StringValue(Field(port, "port"), sprint)
  }

  lemma KeyIsKnown(port: Json, sprint: Json -> string, text: string)
    requires port.Obj?
    ensures KnownBy(port, sprint, text) <==> text == PortKey(port, sprint)
  {
    StringValueIsTrimmed(Field(port, "name"), sprint);
    StringValueIsTrimmed(Field(port, "port"), sprint);
    assert FirstNonEmpty([StringValue(Field(port, "port"), sprint)]) == StringValue(Field(port, "port"), sprint);
  }

  lemma StringValueIsTrimmed(j: Json, sprint: Json -> string)
    ensures TrimSpace(StringValue(j, sprint)) == StringValue(j, sprint)
  {
    if j != Null {
      TrimmingTwice(sprint(j));
    }
    TrimSpaceKeeps("");
  }

  /** Existing port `k` is the last one known by `text`. */
  ghost predicate LastKnown(ports: seq<Json>, k: nat, sprint: Json -> string, text: string)
    requires k < |ports|
  {
    KnownBy(ports[k], sprint, text) && forall j :: k < j < |ports| ==> !KnownBy(ports[j], sprint, text)
  }

  /** A port keeps everything it says. If it says nothing of a node port, it gets that of the last
      existing port known by the same name or number, if there is one and that has one. */
  ghost predicate PortIsFilled(port: Json, filled: Json, existing: seq<Json>, sprint: Json -> string) {
    && (forall key :: key != "nodePort" ==> At(filled, [key]) == At(port, [key]))
    && (!UnsetAt(At(port, ["nodePort"])) || !port.Obj? ==> filled == port)
    && (port.Obj? && UnsetAt(At(port, ["nodePort"])) ==>
          forall k, text |
            0 <= k < |existing| && KnownBy(port, sprint, text) && LastKnown(existing, k, sprint, text) ::
            if UnsetAt(At(existing[k], ["nodePort"])) then filled == port
            else At(filled, ["nodePort"]) == At(existing[k], ["nodePort"]))
    && ((forall k, text | 0 <= k < |existing| && KnownBy(port, sprint, text) :: !KnownBy(existing[k], sprint, text))
        ==> filled == port)
  }

  lemma AtField(j: Json, key: string)
    ensures At(j, [key]) == if key in ObjectValue(j) then Some(ObjectValue(j)[key]) else None
    ensures UnsetAt(At(j, [key])) <==> Field(j, key) == Null
  {
    assert key in ObjectValue(j) ==> At(ObjectValue(j)[key], []) == Some(ObjectValue(j)[key]);
  }

  lemma PortIs(port: Json, existing: seq<Json>, sprint: Json -> string)
    ensures PortIsFilled(port, FillPort(port, PortTable(existing, sprint), sprint), existing, sprint)
  {
    var table := PortTable(existing, sprint);
    var filled := FillPort(port, table, sprint);
    AtField(port, "nodePort");
    AtField(filled, "nodePort");
    forall key | key != "nodePort" ensures At(filled, [key]) == At(port, [key]) {
      AtField(port, key);
      AtField(filled, key);
    }
    if port.Obj? {
      var known := PortKey(port, sprint);
      forall text ensures KnownBy(port, sprint, text) <==> text == known {
        KeyIsKnown(port, sprint, text);
      }
      if known in table {
        var last := TableHoldsLastPort(existing, sprint, known);
        AtField(existing[last], "nodePort");
        LastIsUnique(existing, sprint, known, last);
        assert KnownBy(port, sprint, known) && KnownBy(existing[last], sprint, known);
      } else {
        TableHasAllKeys(existing, sprint, known);
        NoneKnown(existing, sprint, known);
      }
    }
  }

  lemma LastIsUnique(ports: seq<Json>, sprint: Json -> string, text: string, last: nat)
    requires last < |ports| && IsLastWithKey(ports, last, sprint, text)
    ensures LastKnown(ports, last, sprint, text)
    ensures forall k :: 0 <= k < |ports| && LastKnown(ports, k, sprint, text) ==> k == last
  {
    forall k | 0 <= k < |ports| && ports[k].Obj?
      ensures KnownBy(ports[k], sprint, text) <==> HasKey(ports[k], sprint, text)
    {
      KeyIsKnown(ports[k], sprint, text);
    }
  }

  lemma NoneKnown(ports: seq<Json>, sprint: Json -> string, text: string)
    requires forall k :: 0 <= k < |ports| ==> !HasKey(ports[k], sprint, text)
    ensures forall k :: 0 <= k < |ports| ==> !KnownBy(ports[k], sprint, text)
  {
    forall k | 0 <= k < |ports| ensures !KnownBy(ports[k], sprint, text) {
      if ports[k].Obj? {
        KeyIsKnown(ports[k], sprint, text);
      }
    }
  }

  /** The filled Service's ports, one by one. */
  lemma PortsAre(desired: Json, existing: Json, sprint: Json -> string)
    requires At(desired, ["spec", "ports"]).Some? && At(desired, ["spec", "ports"]).value.Arr?
    ensures var ports := At(Preserve(desired, existing, sprint), ["spec", "ports"]);
            var given := At(desired, ["spec", "ports"]).value.items;
            var had := match At(existing, ["spec", "ports"]) case Some(Arr(items)) => items case _ => [];
            && ports.Some? && ports.value.Arr? && |ports.value.items| == |given|
            && forall k :: 0 <= k < |given| ==> PortIsFilled(given[k], ports.value.items[k], had, sprint)
  {
    AtSpec(desired, "ports");
    var given := At(desired, ["spec", "ports"]).value.items;
    var had := ItemsOf(if "ports" in SpecOf(existing) then SpecOf(existing)["ports"] else Null);
    PortsOf(existing);
    AtSpec(Preserve(desired, existing, sprint), "ports");
    forall k | 0 <= k < |given|
      ensures PortIsFilled(given[k], FillPort(given[k], PortTable(had, sprint), sprint), had, sprint)
    {
      PortIs(given[k], had, sprint);
    }
  }

  lemma PortsOf(existing: Json)
    ensures (match At(existing, ["spec", "ports"]) case Some(Arr(items)) => items case _ => []) ==
            ItemsOf(if "ports" in SpecOf(existing) then SpecOf(existing)["ports"] else Null)
  {
    AtField(existing, "spec");
    if "spec" in ObjectValue(existing) {
      AtField(ObjectValue(existing)["spec"], "ports");
      assert At(existing, ["spec", "ports"]) == At(ObjectValue(existing)["spec"], ["spec", "ports"][1..]);
      assert ["spec", "ports"][1..] == ["ports"];
    }
  }

  /** Whatever the desired Service leaves open and the first read allocates, the second
      read allocates too, and equally. */
  ghost predicate NothingStale(spec: Fields, keys: seq<string>, first: Fields, second: Fields, sprint: Json -> string) {
    && (forall key :: key in keys ==> KeyNotStale(Lookup(spec, key), Lookup(first, key), Lookup(second, key)))
    && ("ports" in spec && spec["ports"].Arr? ==> forall k :: 0 <= k < |spec["ports"].items| ==>
          PortNotStale(spec["ports"].items[k], TableOf(first, sprint), TableOf(second, sprint), sprint))
  }

  ghost predicate KeyNotStale(v: Option<Json>, first: Option<Json>, second: Option<Json>) {
    Unset(v) && !Unset(first) ==> second == first
  }

  ghost predicate PortNotStale(port: Json, t0: Fields, t1: Fields, sprint: Json -> string) {
    Field(port, "nodePort") == Null && Offer(port, t0, sprint) != Null ==>
      Offer(port, t1, sprint) == Offer(port, t0, sprint)
  }

  lemma PortFilledTwice(port: Json, t0: Fields, t1: Fields, sprint: Json -> string)
    ensures FillPort(FillPort(port, t0, sprint), t1, sprint) == FillPort(port, t1, sprint) <==>
            PortNotStale(port, t0, t1, sprint)
  {
    if Field(port, "nodePort") == Null && Offer(port, t0, sprint) != Null {
      assert Field(FillPort(port, t0, sprint), "nodePort") == Offer(port, t0, sprint);
      assert Offer(port, t1, sprint) != Null ==>
               Field(FillPort(port, t1, sprint), "nodePort") == Offer(port, t1, sprint);
    }
  }

  lemma PortsFilledTwice(ports: seq<Json>, t0: Fields, t1: Fields, sprint: Json -> string)
    ensures FillPorts(FillPorts(ports, t0, sprint), t1, sprint) == FillPorts(ports, t1, sprint) <==>
            forall k :: 0 <= k < |ports| ==> PortNotStale(ports[k], t0, t1, sprint)
  {
    var twice, direct := FillPorts(FillPorts(ports, t0, sprint), t1, sprint), FillPorts(ports, t1, sprint);
    forall k | 0 <= k < |ports| ensures twice[k] == direct[k] <==> PortNotStale(ports[k], t0, t1, sprint) {
      PortFilledTwice(ports[k], t0, t1, sprint);
    }
    if forall k :: 0 <= k < |ports| ==> PortNotStale(ports[k], t0, t1, sprint) {
      assert forall k :: 0 <= k < |ports| ==> twice[k] == direct[k];
      assert twice == direct;
    } else {
      var k :| 0 <= k < |ports| && !PortNotStale(ports[k], t0, t1, sprint);
      assert twice[k] != direct[k];
    }
  }

  lemma KeysFilledTwice(v: Option<Json>, first: Option<Json>, second: Option<Json>)
    ensures Fill(Fill(v, first), second) == Fill(v, second) <==> KeyNotStale(v, first, second)
  {
  }

  lemma SpecFilledTwice(spec: Fields, keys: seq<string>, first: Fields, second: Fields, sprint: Json -> string)
    requires "ports" !in keys
    ensures FillSpec(FillSpec(spec, keys, first, sprint), keys, second, sprint) ==
            FillSpec(spec, keys, second, sprint) <==>
            NothingStale(spec, keys, first, second, sprint)
  {
    var once := FillSpec(spec, keys, first, sprint);
    var twice, direct := FillSpec(once, keys, second, sprint), FillSpec(spec, keys, second, sprint);
    forall key | key in keys
      ensures Lookup(twice, key) == Lookup(direct, key) <==>
              KeyNotStale(Lookup(spec, key), Lookup(first, key), Lookup(second, key))
    {
      KeysFilledTwice(Lookup(spec, key), Lookup(first, key), Lookup(second, key));
    }
    forall key | key !in keys && key != "ports"
      ensures Lookup(twice, key) == Lookup(direct, key)
    {
    }
    PortsOfSpecFilledTwice(spec, keys, first, second, sprint);
    SameLookups(twice, direct);
  }

  lemma PortsOfSpecFilledTwice(spec: Fields, keys: seq<string>, first: Fields, second: Fields, sprint: Json -> string)
    requires "ports" !in keys
    ensures var twice := FillSpec(FillSpec(spec, keys, first, sprint), keys, second, sprint);
            var direct := FillSpec(spec, keys, second, sprint);
            Lookup(twice, "ports") == Lookup(direct, "ports") <==>
            ("ports" in spec && spec["ports"].Arr? ==> forall k :: 0 <= k < |spec["ports"].items| ==>
               PortNotStale(spec["ports"].items[k], TableOf(first, sprint), TableOf(second, sprint), sprint))
  {
    assert Lookup(FillKeys(spec, keys, first), "ports") == Lookup(spec, "ports");
    assert Lookup(FillKeys(spec, keys, second), "ports") == Lookup(spec, "ports");
    if "ports" in spec && spec["ports"].Arr? {
      var ports := spec["ports"].items;
      PortsFilledTwice(ports, TableOf(first, sprint), TableOf(second, sprint), sprint);
    } else {
      var once := FillKeys(spec, keys, first);
      assert Lookup(FillKeys(once, keys, second), "ports") == Lookup(once, "ports");
    }
  }

  /** Filling from one Service and then from another is the same as filling from the second
      alone exactly when nothing that the first contributed differs in the second. */
  lemma FilledTwice(desired: Json, first: Json, second: Json, sprint: Json -> string)
    ensures Preserve(Preserve(desired, first, sprint), second, sprint) == Preserve(desired, second, sprint) <==>
            FirstIsMoot(desired, first, second, sprint)
  {
    if Field(desired, "spec").Obj? {
      assert "ports" !in ALLOCATED;
      SpecFilledTwice(SpecOf(desired), ALLOCATED, SpecOf(first), SpecOf(second), sprint);
      NestedFieldsAgree(desired, SpecOf(Preserve(Preserve(desired, first, sprint), second, sprint)),
                        SpecOf(Preserve(desired, second, sprint)), SpecOf(Preserve(desired, first, sprint)));
    }
  }

  ghost predicate FirstIsMoot(desired: Json, first: Json, second: Json, sprint: Json -> string) {
    Field(desired, "spec").Obj? ==> NothingStale(SpecOf(desired), ALLOCATED, SpecOf(first), SpecOf(second), sprint)
  }

  lemma NestedFieldsAgree(j: Json, a: Fields, b: Fields, over: Fields)
    requires j.Obj?
    ensures WithField(WithField(j, "spec", Obj(over)), "spec", Obj(a)) == WithField(j, "spec", Obj(b)) <==> a == b
  {
    assert WithField(j, "spec", Obj(b)).fields["spec"] == Obj(b);
    assert WithField(WithField(j, "spec", Obj(over)), "spec", Obj(a)).fields["spec"] == Obj(a);
    assert j.fields["spec" := Obj(over)]["spec" := Obj(a)] == j.fields["spec" := Obj(a)];
  }

  lemma PreserveIsIdempotent(desired: Json, existing: Json, sprint: Json -> string)
    ensures Preserve(Preserve(desired, existing, sprint), existing, sprint) == Preserve(desired, existing, sprint)
  {
    FilledTwice(desired, existing, existing, sprint);
  }
}
