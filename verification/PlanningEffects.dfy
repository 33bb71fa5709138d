/**
 * What the planner accepts of a record, which keys it finds in it and in which order it puts a plan, told from the
 * record's own relationships and attributes and from the relationship tables.
 */
module PlanningEffects {
  import opened Prelude
  import opened KeyOrder
  import opened ApplicationPlanning
  import opened WriteEffects

  // ---- The shape of a record --------------------------------------------------------------------

  /** How many relationships have names that begin so. */
  ghost function HowMany(rels: seq<Relationship>, prefix: string): nat {
    |Indices(rels, prefix)|
  }

  lemma {:induction false} CountNamedLast(init: seq<Relationship>, last: Relationship, prefix: string)
    ensures CountNamed(init + [last], prefix) == CountNamed(init, prefix) + (if prefix <= last.name then 1 else 0)
  {
    if init == [] {
      assert [last][1..] == [];
    } else {
      assert (init + [last])[1..] == init[1..] + [last];
      CountNamedLast(init[1..], last, prefix);
    }
  }

  ghost function Indices(rels: seq<Relationship>, prefix: string): set<int> {
    set i | 0 <= i < |rels| && prefix <= rels[i].name
  }

  lemma {:induction false} CountNamedExactly(rels: seq<Relationship>, prefix: string)
    ensures CountNamed(rels, prefix) == |Indices(rels, prefix)|
    decreases |rels|
  {
    if rels == [] {
      assert Indices(rels, prefix) == {};
    } else {
      var n := |rels| - 1;
      assert rels == rels[..n] + [rels[n]];
      CountNamedExactly(rels[..n], prefix);
      CountNamedLast(rels[..n], rels[n], prefix);
      assert Indices(rels, prefix) == Indices(rels[..n], prefix) + (if prefix <= rels[n].name then {n} else {});
    }
  }

  predicate Empty(value: Json) {
    value == Null || value == Bool(false) || value == Number(0) || value == Text("") || value == List([]) || value == Object(map[])
  }

  /** The record has a relationship of this name with something in it. */
  predicate Filled(r: Record, name: string) {
    exists rel :: rel in r.relationships && rel.name == name && !Empty(rel.value)
  }

  /** An attribute that is set. */
  predicate Given(r: Record, path: string) {
    path in r.attributes && r.attributes[path] != Null && r.attributes[path] != Text("")
  }

  /** Kinds that must name their one target, by the beginning of its name. */
  predicate MustName(kind: string, prefix: string) {
    || (prefix == "member_" && kind == "circuit_group_assignment")
    || (prefix == "action_" && kind == "event_rule")
    || (prefix == "object_" && kind == "contact_assignment")
    || (prefix == "interface_" && kind == "fhrp_group_assignment")
    || (prefix == "parent_" && kind == "service")
    || (prefix == "termination_" && kind == "tunnel_termination")
    || (prefix == "assigned_" && kind == "l2vpn_termination")
  }

  predicate MayScope(kind: string) {
    kind == "cluster" || kind == "wireless_lan"
  }

  ghost predicate Shaped(r: Record) {
    && (forall prefix :: MustName(r.kind, prefix) ==> HowMany(r.relationships, prefix) == 1)
    && (r.kind == "circuit_termination" ==> HowMany(r.relationships, "termination_") <= 1)
    && (r.kind == "virtual_machine" ==> Filled(r, "site") || Filled(r, "cluster") || Filled(r, "device"))
    && (MayScope(r.kind) ==> HowMany(r.relationships, "scope_") <= 1 && (Given(r, "/scope_type") ==> HowMany(r.relationships, "scope_") == 1))
  }

  lemma FilledExactly(r: Record, name: string)
    requires NamesDistinct(r.relationships)
    ensures Truthy(r.Related(name)) <==> Filled(r, name)
  {
    if rel :| rel in r.relationships && rel.name == name && !Empty(rel.value) {
      LookupFinds(r.relationships, rel);
    }
    if Truthy(r.Related(name)) {
      assert Relationship(name, r.Related(name)) in r.relationships;
    }
  }

  lemma OnePrefix(kind: string, prefix: string)
    ensures MustName(kind, prefix) <==> GenericPrefix(kind) == Some(prefix)
  {
  }

  lemma OtherShape(r: Record)
    requires r.kind != "circuit_termination" && r.kind != "virtual_machine" && !MayScope(r.kind)
    ensures ShapeOk(r) <==> forall prefix :: MustName(r.kind, prefix) ==> HowMany(r.relationships, prefix) == 1
  {
    forall prefix
      ensures MustName(r.kind, prefix) <==> GenericPrefix(r.kind) == Some(prefix)
      ensures CountNamed(r.relationships, prefix) == HowMany(r.relationships, prefix)
    {
      OnePrefix(r.kind, prefix);
      CountNamedExactly(r.relationships, prefix);
    }
  }

  lemma SpecialShape(r: Record)
    requires NamesDistinct(r.relationships) && (r.kind == "circuit_termination" || r.kind == "virtual_machine" || MayScope(r.kind))
    ensures ShapeOk(r) <==> Shaped(r)
  {
    CountNamedExactly(r.relationships, "termination_");
    CountNamedExactly(r.relationships, "scope_");
    FilledExactly(r, "site");
    FilledExactly(r, "cluster");
    FilledExactly(r, "device");
    forall prefix
      ensures !MustName(r.kind, prefix)
    {
      OnePrefix(r.kind, prefix);
    }
  }

  lemma ShapedExactly(r: Record)
    requires NamesDistinct(r.relationships)
    ensures ShapeOk(r) <==> Shaped(r)
  {
    if r.kind == "circuit_termination" || r.kind == "virtual_machine" || MayScope(r.kind) {
      SpecialShape(r);
    } else {
      OtherShape(r);
    }
  }

  // ---- Which records are accepted ---------------------------------------------------------------

  predicate Unset(value: Json) {
    value == Null || value == Text("") || value == List([])
  }

  predicate NamesOne(value: Json) {
    value.Text? && value.text != ""
  }

  /** A relationship the tables know, which is unset, names one identity or, where they say so, lists identities. */
  predicate WellFormed(schema: Schema, kind: string, rel: Relationship) {
    && schema.target(kind, rel.name).Some?
    && (Unset(rel.value) ||
        (if schema.multi(kind, rel.name) then rel.value.List? && forall i :: 0 <= i < |rel.value.items| ==> NamesOne(rel.value.items[i])
         else NamesOne(rel.value)))
  }

  /** Why a relationship is malformed. */
  predicate Malformed(schema: Schema, kind: string, rel: Relationship, problem: PlanError) {
    if schema.target(kind, rel.name).None? then problem == UnsupportedRelationship
    else if Unset(rel.value) then false
    else if schema.multi(kind, rel.name) != rel.value.List? then problem == WrongCardinality
    else problem == BadIdentity && if rel.value.List? then exists i :: 0 <= i < |rel.value.items| && !NamesOne(rel.value.items[i]) else !NamesOne(rel.value)
  }

  lemma ValuesSay(value: Json)
    ensures value.List? ==> Values(value) == value.items
    ensures !value.List? ==> Values(value) == [value]
    ensures forall v: Json :: IdentityText(v) <==> NamesOne(v)
    ensures !value.List? && !NamesOne(value) ==> exists i :: 0 <= i < |Values(value)| && !IdentityText(Values(value)[i])
  {
    if !value.List? {
      assert !NamesOne(value) ==> !IdentityText(Values(value)[0]);
    }
  }

  lemma TargetKeysSay(schema: Schema, kind: string, rel: Relationship)
    ensures TargetKeys(schema, kind, rel).Ok? <==> WellFormed(schema, kind, rel)
    ensures forall problem :: TargetKeys(schema, kind, rel) == Err(problem) <==> Malformed(schema, kind, rel, problem)
    ensures TargetKeys(schema, kind, rel).Ok? ==>
              forall key :: key in TargetKeys(schema, kind, rel).value <==>
                              schema.target(kind, rel.name) == Some(key.kind) && ValueNames(rel.value, key.identity)
  {
    ValuesSay(rel.value);
    if TargetKeys(schema, kind, rel).Ok? && !Unset(rel.value) {
      KeysOfValues(schema, kind, rel);
      if !rel.value.List? {
        assert IdentityText(Values(rel.value)[0]);
      }
    }
  }

  lemma KeysOfValues(schema: Schema, kind: string, rel: Relationship)
    requires TargetKeys(schema, kind, rel).Ok? && !Unset(rel.value)
    ensures forall key :: key in TargetKeys(schema, kind, rel).value <==>
                            schema.target(kind, rel.name) == Some(key.kind) && ValueNames(rel.value, key.identity)
  {
    var keys, values := TargetKeys(schema, kind, rel).value, Values(rel.value);
    forall key
      ensures key in keys <==> schema.target(kind, rel.name) == Some(key.kind) && ValueNames(rel.value, key.identity)
    {
      if key in keys {
        var i :| 0 <= i < |keys| && keys[i] == key;
        assert values[i] == Text(key.identity) && IdentityText(values[i]);
      }
      if schema.target(kind, rel.name) == Some(key.kind) && ValueNames(rel.value, key.identity) {
        var i :| 0 <= i < |values| && values[i] == Text(key.identity);
        assert keys[i] == key;
      }
    }
  }

  /** The problem is that of the first malformed relationship. */
  ghost predicate FirstMalformed(schema: Schema, kind: string, rels: seq<Relationship>, problem: PlanError) {
    exists i :: MalformedAt(schema, kind, rels, i, problem)
  }

  ghost predicate MalformedAt(schema: Schema, kind: string, rels: seq<Relationship>, i: int, problem: PlanError) {
    0 <= i < |rels| && Malformed(schema, kind, rels[i], problem) && forall j :: 0 <= j < i ==> WellFormed(schema, kind, rels[j])
  }

  lemma MalformedNext(schema: Schema, kind: string, rels: seq<Relationship>, problem: PlanError)
    requires rels != []
    ensures FirstMalformed(schema, kind, rels, problem) <==>
              Malformed(schema, kind, rels[0], problem) || (WellFormed(schema, kind, rels[0]) && FirstMalformed(schema, kind, rels[1..], problem))
  {
    TargetKeysSay(schema, kind, rels[0]);
    if Malformed(schema, kind, rels[0], problem) {
      assert MalformedAt(schema, kind, rels, 0, problem);
    }
    if i :| MalformedAt(schema, kind, rels[1..], i, problem) {
      if WellFormed(schema, kind, rels[0]) {
        assert forall j :: 0 < j < i + 1 ==> rels[j] == rels[1..][j - 1];
        assert MalformedAt(schema, kind, rels, i + 1, problem);
      }
    }
    if i :| MalformedAt(schema, kind, rels, i, problem) {
      if i > 0 {
        assert forall j :: 0 <= j < i - 1 ==> rels[1..][j] == rels[j + 1];
        assert MalformedAt(schema, kind, rels[1..], i - 1, problem);
      }
    }
  }

  /** A relationship of the list that is not put off names the key. */
  ghost predicate ListNames(schema: Schema, kind: string, rels: seq<Relationship>, includeDeferred: bool, key: Key) {
    exists rel :: rel in rels && PointsTo(schema, kind, rel, includeDeferred, key)
  }

  predicate PointsTo(schema: Schema, kind: string, rel: Relationship, includeDeferred: bool, key: Key) {
    && (includeDeferred || (!Late(kind, rel.name) && !("mapping_" <= rel.name)))
    && schema.target(kind, rel.name) == Some(key.kind) && ValueNames(rel.value, key.identity)
  }

  lemma {:induction false} RelationshipKeysSay(schema: Schema, kind: string, rels: seq<Relationship>, includeDeferred: bool)
    ensures var found := RelationshipKeys(schema, kind, rels, includeDeferred);
            && (found.Ok? <==> forall rel :: rel in rels ==> WellFormed(schema, kind, rel))
            && (forall problem :: found == Err(problem) <==> FirstMalformed(schema, kind, rels, problem))
            && (found.Ok? ==> forall key :: key in found.value <==> ListNames(schema, kind, rels, includeDeferred, key))
  {
    if rels != [] {
      var tail := rels[1..];
      assert rels == [rels[0]] + tail;
      TargetKeysSay(schema, kind, rels[0]);
      RelationshipKeysSay(schema, kind, tail, includeDeferred);
      forall problem
        ensures RelationshipKeys(schema, kind, rels, includeDeferred) == Err(problem) <==> FirstMalformed(schema, kind, rels, problem)
      {
        MalformedNext(schema, kind, rels, problem);
      }
      if RelationshipKeys(schema, kind, rels, includeDeferred).Ok? {
        KeysNext(schema, kind, rels, includeDeferred);
      }
    }
  }

  lemma KeysNext(schema: Schema, kind: string, rels: seq<Relationship>, includeDeferred: bool)
    requires rels != [] && RelationshipKeys(schema, kind, rels, includeDeferred).Ok?
    requires forall key :: key in RelationshipKeys(schema, kind, rels[1..], includeDeferred).value <==>
                             ListNames(schema, kind, rels[1..], includeDeferred, key)
    ensures forall key :: key in RelationshipKeys(schema, kind, rels, includeDeferred).value <==>
                            ListNames(schema, kind, rels, includeDeferred, key)
  {
    TargetKeysSay(schema, kind, rels[0]);
    assert Deferred(kind, rels[0].name) <==> Late(kind, rels[0].name) || "mapping_" <= rels[0].name;
    forall key
      ensures ListNames(schema, kind, rels, includeDeferred, key) <==>
                PointsTo(schema, kind, rels[0], includeDeferred, key) || ListNames(schema, kind, rels[1..], includeDeferred, key)
    {
      if rel :| rel in rels[1..] && PointsTo(schema, kind, rel, includeDeferred, key) {
        assert rel in rels;
      }
      if rel :| rel in rels && PointsTo(schema, kind, rel, includeDeferred, key) {
        assert rel == rels[0] || rel in rels[1..];
      }
    }
  }

  // ---- Custom fields ----------------------------------------------------------------------------

  /** Custom fields are absent, null or an object of defined fields. */
  predicate FieldsKnown(schema: Schema, r: Record) {
    "/custom_fields" in r.attributes && r.attributes["/custom_fields"] != Null ==>
      && r.attributes["/custom_fields"].Object?
      && forall field :: field in r.attributes["/custom_fields"].members ==> schema.customFieldIdentity(field).Some?
  }

  /** The record fills the custom field whose definition has this key. */
  predicate FillsField(schema: Schema, r: Record, key: Key) {
    && key.kind == "custom_field" && "/custom_fields" in r.attributes && r.attributes["/custom_fields"].Object?
    && exists field :: field in r.attributes["/custom_fields"].members && schema.customFieldIdentity(field) == Some(key.identity)
  }

  lemma {:induction false} FieldKeysSay(schema: Schema, members: seq<(string, Json)>)
    ensures FieldKeys(schema, members).Ok? <==> forall member :: member in members ==> schema.customFieldIdentity(member.0).Some?
    ensures FieldKeys(schema, members).Err? ==> FieldKeys(schema, members).error == BadCustomFields
    ensures FieldKeys(schema, members).Ok? ==>
              forall key :: key in FieldKeys(schema, members).value <==>
                              key.kind == "custom_field" && exists member :: member in members && schema.customFieldIdentity(member.0) == Some(key.identity)
  {
    if members != [] {
      assert members == [members[0]] + members[1..];
      FieldKeysSay(schema, members[1..]);
    }
  }

  lemma CustomFieldKeysSay(schema: Schema, r: Record)
    ensures CustomFieldKeys(schema, r).Ok? <==> FieldsKnown(schema, r)
    ensures CustomFieldKeys(schema, r).Err? ==> CustomFieldKeys(schema, r).error == BadCustomFields
    ensures CustomFieldKeys(schema, r).Ok? ==> forall key :: key in CustomFieldKeys(schema, r).value <==> FillsField(schema, r, key)
  {
    if "/custom_fields" in r.attributes && r.attributes["/custom_fields"].Object? {
      var fields := r.attributes["/custom_fields"].members;
      FieldKeysSay(schema, MembersOf(fields));
      forall field | field in fields
        ensures (field, fields[field]) in MembersOf(fields)
      {
        MemberListed(fields, field);
      }
      forall member | member in MembersOf(fields)
        ensures member.0 in fields
      {
      }
    }
  }

  // ---- A record's keys ----------------------------------------------------------------------------

  predicate HasRequired(schema: Schema, r: Record) {
    forall name :: name in schema.required(r.kind) ==> exists rel :: rel in r.relationships && rel.name == name && !Unset(rel.value)
  }

  ghost predicate AllWellFormed(schema: Schema, r: Record) {
    forall rel :: rel in r.relationships ==> WellFormed(schema, r.kind, rel)
  }

  lemma RequiredExactly(schema: Schema, r: Record)
    requires NamesDistinct(r.relationships)
    ensures HasRequired(schema, r) <==> !exists name :: name in schema.required(r.kind) && Blank(r.Related(name))
  {
    forall name
      ensures Blank(r.Related(name)) <==> !exists rel :: rel in r.relationships && rel.name == name && !Unset(rel.value)
    {
      if rel :| rel in r.relationships && rel.name == name && !Unset(rel.value) {
        LookupFinds(r.relationships, rel);
      }
      if !Blank(r.Related(name)) {
        assert Relationship(name, r.Related(name)) in r.relationships;
      }
    }
  }

  /** The planner accepts exactly the records of a known kind and shape whose relationships and custom fields are in order. */
  lemma AcceptsExactly(schema: Schema, r: Record, includeDeferred: bool)
    requires NamesDistinct(r.relationships)
    ensures Dependencies(schema, r, includeDeferred).Ok? <==>
              r.kind in schema.applicable && Shaped(r) && HasRequired(schema, r) && AllWellFormed(schema, r) && FieldsKnown(schema, r)
  {
    ShapedExactly(r);
    RequiredExactly(schema, r);
    RelationshipKeysSay(schema, r.kind, r.relationships, includeDeferred);
    CustomFieldKeysSay(schema, r);
  }

  /** Any other is refused for the first thing wrong with it. */
  lemma RefusesInOrder(schema: Schema, r: Record, includeDeferred: bool, problem: PlanError)
    requires NamesDistinct(r.relationships) && Dependencies(schema, r, includeDeferred) == Err(problem)
    ensures if r.kind !in schema.applicable then problem == UnsupportedKind
            else if !Shaped(r) then problem == BadShape
            else if !HasRequired(schema, r) then problem == MissingRelationship
            else if !AllWellFormed(schema, r) then FirstMalformed(schema, r.kind, r.relationships, problem)
            else problem == BadCustomFields && !FieldsKnown(schema, r)
  {
    ShapedExactly(r);
    RequiredExactly(schema, r);
    RelationshipKeysSay(schema, r.kind, r.relationships, includeDeferred);
    CustomFieldKeysSay(schema, r);
  }

  /** The keys of an accepted record are those its relationships name, put off or not, and its custom fields. */
  lemma KeysExactly(schema: Schema, r: Record, includeDeferred: bool, key: Key)
    requires Dependencies(schema, r, includeDeferred).Ok?
    ensures key in Dependencies(schema, r, includeDeferred).value <==>
              ListNames(schema, r.kind, r.relationships, includeDeferred, key) || FillsField(schema, r, key)
  {
    RelationshipKeysSay(schema, r.kind, r.relationships, includeDeferred);
    CustomFieldKeysSay(schema, r);
  }

  // ---- The order of a plan ------------------------------------------------------------------------

  /** A record depends at once on another of the plan. */
  ghost predicate DependsOn(schema: Schema, r: Record, key: Key) {
    ListNames(schema, r.kind, r.relationships, false, key) || FillsField(schema, r, key)
  }

  /** Levels: a record that depends on none of the plan is on the lowest, any other just above the highest it depends on. */
  ghost predicate Levels(g: Graph, level: map<Key, nat>) {
    && level.Keys == g.Keys
    && (forall k, d :: k in g && d in g[k] && d in g ==> level[d] < level[k])
    && (forall k :: JustAbove(g, level, k))
  }

  ghost predicate JustAbove(g: Graph, level: map<Key, nat>, k: Key) {
    k in g && k in level && level[k] > 0 ==> exists d :: d in g[k] && d in level && level[d] + 1 == level[k]
  }

  /** Lower levels come first, and each level stands in ascending order of its keys. */
  ghost predicate Layered(order: seq<Key>, level: map<Key, nat>) {
    forall i, j :: 0 <= i < j < |order| && order[i] in level && order[j] in level ==>
                     level[order[i]] < level[order[j]] || (level[order[i]] == level[order[j]] && Less(order[i], order[j]))
  }

  /** The levels of a stripped graph, one higher, with the stripped keys on the lowest level. */
  function Raised(ready: set<Key>, level: map<Key, nat>): map<Key, nat> {
    (map k | k in ready :: 0) + (map k | k in level && k !in ready :: level[k] + 1)
  }

  /** What is left on the lowest level once the ready keys are gone depended on one of them. */
  lemma StandsOnReady(g: Graph, level: map<Key, nat>, k: Key)
    requires Closed(g) && Levels(Strip(g, Ready(g)), level) && k in Strip(g, Ready(g)) && level[k] == 0
    ensures exists d :: d in g[k] && d in g && d in Ready(g)
  {
    var rest := Strip(g, Ready(g));
    LowestLevel(rest, level, k);
    assert g[k] - Ready(g) <= rest.Keys && rest[k] == g[k] - Ready(g);
    assert g[k] - Ready(g) == rest[k] * rest.Keys == {};
    assert g[k] != {};
    var d :| d in g[k];
    assert d in (g[k] - Ready(g)) + Ready(g);
  }

  lemma LowestLevel(g: Graph, level: map<Key, nat>, k: Key)
    requires Levels(g, level) && k in g && level[k] == 0
    ensures g[k] * g.Keys == {}
  {
  }

  lemma RaisedRises(g: Graph, level: map<Key, nat>, k: Key, d: Key)
    requires Levels(Strip(g, Ready(g)), level) && k in g && d in g[k] && d in g
    ensures Raised(Ready(g), level)[d] < Raised(Ready(g), level)[k]
  {
    assert k !in Ready(g) && k in Strip(g, Ready(g));
    if d !in Ready(g) {
      assert d in Strip(g, Ready(g))[k] && d in Strip(g, Ready(g));
    }
  }

  lemma RaisedKeys(g: Graph, level: map<Key, nat>)
    requires level.Keys == Strip(g, Ready(g)).Keys
    ensures Raised(Ready(g), level).Keys == g.Keys
  {
  }

  lemma RaisedStands(g: Graph, level: map<Key, nat>, k: Key)
    requires Closed(g) && Levels(Strip(g, Ready(g)), level) && k in g && Raised(Ready(g), level).Keys == g.Keys
    ensures JustAbove(g, Raised(Ready(g), level), k)
  {
    var rest, all := Strip(g, Ready(g)), Raised(Ready(g), level);
    if all[k] > 0 {
      assert k in rest;
      if level[k] > 0 {
        assert JustAbove(rest, level, k);
        var d :| d in rest[k] && d in level && level[d] + 1 == level[k];
        assert d in g[k] && d in all && all[d] + 1 == all[k];
      } else {
        StandsOnReady(g, level, k);
        var d :| d in g[k] && d in g && d in Ready(g);
        assert d in all && all[d] == 0;
      }
    }
  }

  lemma RaisedLevels(g: Graph, level: map<Key, nat>)
    requires Closed(g) && Levels(Strip(g, Ready(g)), level)
    ensures Levels(g, Raised(Ready(g), level))
  {
    var all := Raised(Ready(g), level);
    RaisedKeys(g, level);
    forall k, d | k in g && d in g[k] && d in g
      ensures all[d] < all[k]
    {
      RaisedRises(g, level, k, d);
    }
    forall k
      ensures JustAbove(g, all, k)
    {
      if k in g {
        RaisedStands(g, level, k);
      }
    }
  }

  lemma StripClosed(g: Graph)
    requires Closed(g)
    ensures Closed(Strip(g, Ready(g)))
  {
  }

  lemma {:induction false} LayersAreLevels(g: Graph, order: seq<Key>) returns (level: map<Key, nat>)
    requires Closed(g) && Layers(g) == Some(order)
    ensures Levels(g, level) && Layered(order, level) && forall k :: k in order ==> k in g
    decreases |g|
  {
    if g == map[] {
      level := map[];
    } else {
      var ready := Ready(g);
      var rest := Strip(g, ready);
      StripShrinks(g, ready);
      StripClosed(g);
      var head, tail := SortedKeys(ready), Layers(rest).value;
      var above := LayersAreLevels(rest, tail);
      RaisedLevels(g, above);
      level := Raised(ready, above);
      LayeredInFront(head, tail, ready, above, level);
    }
  }

  lemma LayeredInFront(head: seq<Key>, tail: seq<Key>, ready: set<Key>, above: map<Key, nat>, level: map<Key, nat>)
    requires StrictlySorted(head) && (forall k :: k in head <==> k in ready)
    requires Layered(tail, above) && (forall k :: k in tail ==> k in above && k !in ready) && level == Raised(ready, above)
    ensures Layered(head + tail, level)
  {
    forall i, j | 0 <= i < j < |head + tail| && (head + tail)[i] in level && (head + tail)[j] in level
      ensures level[(head + tail)[i]] < level[(head + tail)[j]] ||
              (level[(head + tail)[i]] == level[(head + tail)[j]] && Less((head + tail)[i], (head + tail)[j]))
    {
      if j < |head| {
        assert head[i] in ready && head[j] in ready;
      } else if i < |head| {
        assert head[i] in ready && tail[j - |head|] in tail;
      } else {
        assert tail[i - |head|] in tail && tail[j - |head|] in tail;
      }
    }
  }

  lemma GraphIsClosed(g: Graph)
    requires forall k :: k in g ==> g[k] <= g.Keys
    ensures Closed(g)
  {
  }

  lemma {:induction false} PickedKeys(byKey: map<Key, Record>, keys: seq<Key>)
    requires (forall k :: k in keys ==> k in byKey) && (forall k :: k in byKey ==> byKey[k].RecordKey() == k)
    ensures KeySeq(Pick(byKey, keys)) == keys
  {
    if keys != [] {
      assert keys[0] in keys;
      PickedKeys(byKey, keys[1..]);
    }
  }

  /** The dependency of one record of the plan on another, by their keys. */
  ghost predicate Leads(schema: Schema, records: seq<Record>, k: Key, d: Key) {
    exists r :: r in records && r.kind == k.kind && r.identity == k.identity && DependsOn(schema, r, d)
  }

  lemma GraphSays(schema: Schema, records: seq<Record>, k: Key, d: Key)
    requires DistinctKeys(records) && (forall r :: r in records ==> Dependencies(schema, r, false).Ok?)
    requires k in KeysOf(records) && d in KeysOf(records)
    ensures k in PlanGraph(schema, records) && (d in PlanGraph(schema, records)[k] <==> Leads(schema, records, k, d))
  {
    GraphEntries(schema, records, KeysOf(records));
    var r :| r in records && r.RecordKey() == k;
    KeysExactly(schema, r, false, d);
    if other :| other in records && other.kind == k.kind && other.identity == k.identity && DependsOn(schema, other, d) {
      SameKeySameRecord(records, r, other);
    }
  }

  /** A record just below is one it depends on. */
  ghost predicate StandsOn(schema: Schema, records: seq<Record>, level: map<Key, nat>, k: Key) {
    k in level && exists d :: d in level && Leads(schema, records, k, d) && level[d] + 1 == level[k]
  }

  /** The graph of the plan is what its records lead to. */
  ghost predicate IsGraphOf(schema: Schema, records: seq<Record>, g: Graph) {
    forall k, d :: k in g && d in g ==> (d in g[k] <==> Leads(schema, records, k, d))
  }

  lemma PlanGraphLeads(schema: Schema, records: seq<Record>)
    requires DistinctKeys(records) && (forall r :: r in records ==> Dependencies(schema, r, false).Ok?)
    ensures PlanGraph(schema, records).Keys == KeysOf(records) && Closed(PlanGraph(schema, records))
    ensures IsGraphOf(schema, records, PlanGraph(schema, records))
  {
    var g := PlanGraph(schema, records);
    GraphEntries(schema, records, KeysOf(records));
    GraphIsClosed(g);
    forall k, d | k in g && d in g
      ensures d in g[k] <==> Leads(schema, records, k, d)
    {
      GraphSays(schema, records, k, d);
    }
  }

  lemma LevelStands(schema: Schema, records: seq<Record>, g: Graph, level: map<Key, nat>, k: Key)
    requires IsGraphOf(schema, records, g) && Levels(g, level) && k in level && level[k] > 0
    ensures StandsOn(schema, records, level, k)
  {
    assert JustAbove(g, level, k);
    var d :| d in g[k] && d in level && level[d] + 1 == level[k];
    assert Leads(schema, records, k, d);
  }

  /**
   * An accepted order goes level by level: a record stands just above the highest record of the plan that it names
   * or whose field it fills, and each level is in ascending order of kind and identity.
   */
  lemma OrderGoesByLevels(schema: Schema, records: seq<Record>, ordered: seq<Record>) returns (level: map<Key, nat>)
    requires OrderedRecords(schema, records) == Ok(ordered)
    ensures level.Keys == KeysOf(records) && Layered(KeySeq(ordered), level)
    ensures forall k, d :: k in level && d in level && Leads(schema, records, k, d) ==> level[d] < level[k]
    ensures forall k :: k in level && level[k] > 0 ==> StandsOn(schema, records, level, k)
  {
    OrderSound(schema, records, ordered);
    var g := PlanGraph(schema, records);
    PlanGraphLeads(schema, records);
    var keys := Layers(g).value;
    level := LayersAreLevels(g, keys);
    PickedKeys(ByKey(records), keys);
    forall k | k in level && level[k] > 0
      ensures StandsOn(schema, records, level, k)
    {
      LevelStands(schema, records, g, level, k);
    }
  }
}
