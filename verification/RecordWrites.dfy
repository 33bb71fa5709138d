/** What applying one record touches: the relationship targets its write loads and its deferred selectors. */
module RecordWrites {
  import opened Prelude
  import opened KeyOrder
  import opened ApplicationPlanning

  datatype Reference = Reference(objectType: string, objectId: string)

  /** A database object: one this transaction creates, or one loaded from NetBox. */
  datatype Handle = Created(key: Key) | Loaded(reference: Reference)

  datatype Target = Target(reference: Reference, content: Record)

  datatype Action = Create | Update | NoChange | Conflict | Skipped

  datatype Item = Item(pk: nat, action: Action, record: Record, reviewed: Reference)

  /** An object saved under the name of a relationship. */
  datatype Link = Link(name: string, handle: Handle)

  /** What a write saves: the desired content and the objects it links to. */
  datatype Row = Row(handle: Handle, content: Record, links: seq<Link>)

  datatype ApplyError =
    | PlanRejected(reason: PlanError)
    | AmbiguousItem(key: Key)
    | DeltaMismatch
    | TargetAppeared(key: Key)
    | TargetDisappeared(key: Key)
    | TargetChanged(key: Key)
    | CycleAt(key: Key)
    | Unavailable(key: Key)
    | MalformedRelationship
    | InvalidMapping
    | NotReady
    | FieldCollision
    | RepeatedObject

  // ---- What a write loads ---------------------------------------------------------------------

  /** A key that a write looks up for the relationship of this name. */
  datatype Load = Load(name: string, key: Key)

  function KeysOfLoads(loads: seq<Load>): set<Key> {
    set load | load in loads :: load.key
  }

  /** The key a scalar relationship value loads, if any. */
  function ScalarLoad(name: string, targetKind: string, value: Json): Result<seq<Load>, ApplyError> {
    match value
    case Null => Ok([])
    case Text(t) => Ok(if t == "" then [] else [Load(name, Key(targetKind, t))])
    case _ => Err(MalformedRelationship)
  }

  /** A scalar relationship that must have a value. */
  function RequiredLoad(name: string, targetKind: string, value: Json): Result<seq<Load>, ApplyError> {
    if value == Null || value == Text("") then Err(MalformedRelationship) else ScalarLoad(name, targetKind, value)
  }

  function ListLoads(name: string, targetKind: string, values: seq<Json>): Result<seq<Load>, ApplyError> {
    if values == [] then Ok([])
    else if !IdentityText(values[0]) then Err(MalformedRelationship)
    else
      match ListLoads(name, targetKind, values[1..])
      case Err(e) => Err(e)
      case Ok(rest) => Ok([Load(name, Key(targetKind, values[0].text))] + rest)
  }

  function ManyLoad(name: string, targetKind: string, value: Json): Result<seq<Load>, ApplyError> {
    if Blank(value) then Ok([])
    else if value.List? then ListLoads(name, targetKind, value.items)
    else Err(MalformedRelationship)
  }

  function Join(a: Result<seq<Load>, ApplyError>, b: Result<seq<Load>, ApplyError>): Result<seq<Load>, ApplyError> {
    match a
    case Err(e) => Err(e)
    case Ok(first) =>
      match b
      case Err(e) => Err(e)
      case Ok(second) => Ok(first + second)
  }

  /**
   * One thing a write does with a record's relationships: link one object, link the one object named with a
   * prefix, link every list named with a prefix, fill the custom fields, or link a list.
   */
  datatype Read = One(name: string, target: string) | Generic(prefix: string) | Each(prefix: string) | CustomFields
                | Many(name: string, target: string)

  /** The kinds whose generic target the writer finds by a prefix. */
  function GenericReads(kind: string): seq<Read> {
    match kind
    case "event_rule" => [Generic("action_")]
    case "inventory_item" => [Generic("component_")]
    case "inventory_item_template" => [Generic("component_")]
    case "mac_address" => [Generic("assigned_")]
    case "vlan_group" => [Generic("scope_")]
    case "prefix" => [Generic("scope_")]
    case "cluster" => [Generic("scope_")]
    case "wireless_lan" => [Generic("scope_")]
    case "ip_address" => [Generic("assigned_")]
    case "fhrp_group_assignment" => [Generic("interface_")]
    case "service" => [Generic("parent_")]
    case "contact_assignment" => [Generic("object_")]
    case "tunnel_termination" => [Generic("termination_")]
    case "l2vpn_termination" => [Generic("assigned_")]
    case "circuit_termination" => [Generic("termination_")]
    case "circuit_group_assignment" => [Generic("member_")]
    case "cable" => [Each("termination_a_"), Each("termination_b_")]
    case _ => []
  }

  /** The many-valued relationships of a kind, other than tags. */
  function ListReads(w: Writer, kind: string): seq<Read> {
    match kind
    case "owner" => [Many("user_group", "user_group"), Many("user", "user")]
    case "user_group" => [Many("permission", "object_permission")]
    case "user" => [Many("group", "user_group"), Many("permission", "object_permission")]
    case "site" => [Many("asn", "asn")]
    case "provider" => [Many("asn", "asn")]
    case "vrf" => [Many("import_target", "route_target"), Many("export_target", "route_target")]
    case "service" => [Many("ip_address", "ip_address")]
    case "contact" => [Many("group", "contact_group")]
    case "vm_interface" => [Many("tagged_vlan", "vlan")]
    case "ike_policy" => [Many("proposal", "ike_proposal")]
    case "ipsec_policy" => [Many("proposal", "ipsec_proposal")]
    case "l2vpn" => [Many("import_target", "route_target"), Many("export_target", "route_target")]
    case "config_context" => Mapped((list: (string, string)) => Many(list.0, list.1), w.contextLists)
    case "notification_group" => [Many("group", "user_group"), Many("user", "user")]
    case _ => []
  }

  function FieldReads(kind: string, fields: seq<(string, string)>): seq<Read> {
    if fields == [] then []
    else (if DeferredWrite(kind, fields[0].0) then [] else [One(fields[0].0, fields[0].1)]) + FieldReads(kind, fields[1..])
  }

  /** The scalar relationships that the first pass of the writer skips. */
  predicate DeferredWrite(kind: string, name: string) {
    || (kind == "virtual_chassis" && name == "master")
    || (kind == "interface" && name == "primary_mac_address")
    || (kind in {"device", "virtual_device_context", "virtual_machine"} && name in {"primary_ip4", "primary_ip6", "oob_ip"})
    || (kind == "vm_interface" && name == "primary_mac_address")
  }

  /** Everything a write reads, in order; an interface's wireless LANs only where they are managed. */
  function WriteReads(w: Writer, kind: string, wireless: bool): seq<Read> {
    FieldReads(kind, w.fields(kind)) + GenericReads(kind) +
    (if kind in w.customized then [CustomFields] else []) +
    ListReads(w, kind) +
    (if kind in w.tagged then [Many("tag", "tag")] else []) +
    (if kind == "interface" then [Many("vdc", "virtual_device_context"), Many("tagged_vlan", "vlan")] else []) +
    (if kind == "interface" && wireless then [Many("wireless_lan", "wireless_lan")] else [])
  }

  predicate ManagesWireless(r: Record) {
    r.Attribute("/manage_wireless_lans") == Bool(true)
  }

  function NamedWith(rels: seq<Relationship>, prefix: string): seq<Relationship> {
    if rels == [] then []
    else (if prefix <= rels[0].name then [rels[0]] else []) + NamedWith(rels[1..], prefix)
  }

  function InsertByName(rel: Relationship, sorted: seq<Relationship>): seq<Relationship> {
    if sorted == [] then [rel]
    else if LexLess(sorted[0].name, rel.name) then [sorted[0]] + InsertByName(rel, sorted[1..])
    else [rel] + sorted
  }

  function SortByName(rels: seq<Relationship>): seq<Relationship> {
    if rels == [] then [] else InsertByName(rels[0], SortByName(rels[1..]))
  }

  function GenericLoad(schema: Schema, kind: string, named: seq<Relationship>): Result<seq<Load>, ApplyError> {
    if named == [] then Ok([])
    else if |named| != 1 then Err(MalformedRelationship)
    else
      match schema.target(kind, named[0].name)
      case None => Err(MalformedRelationship)
      case Some(target) => RequiredLoad(named[0].name, target, named[0].value)
  }

  function EachLoad(schema: Schema, kind: string, named: seq<Relationship>): Result<seq<Load>, ApplyError> {
    if named == [] then Ok([])
    else
      match schema.target(kind, named[0].name)
      case None => Err(MalformedRelationship)
      case Some(target) => Join(ManyLoad(named[0].name, target, named[0].value), EachLoad(schema, kind, named[1..]))
  }

  /** Whether a relationship name belongs to the custom field, as the parser reads names. */
  predicate OfField(w: Writer, name: string, field: string) {
    w.parse(name).Some? && w.parse(name).value.field == field
  }

  predicate Unrelated(w: Writer, rels: seq<Relationship>, field: string) {
    forall i :: 0 <= i < |rels| ==> !OfField(w, rels[i].name, field)
  }

  predicate OnlyNamed(w: Writer, rels: seq<Relationship>, field: string, name: string) {
    forall i :: 0 <= i < |rels| && OfField(w, rels[i].name, field) ==> rels[i].name == name
  }

  /** What filling one custom field loads. */
  function FieldLoad(schema: Schema, r: Record, field: string, value: Json): Result<seq<Load>, ApplyError> {
    var w := schema.writer;
    match w.customField(r.kind, field)
    case Undefined => Err(MalformedRelationship)
    case Plain => if Unrelated(w, r.relationships, field) then Ok([]) else Err(MalformedRelationship)
    case Untargeted => if Blank(value) && Unrelated(w, r.relationships, field) then Ok([]) else Err(MalformedRelationship)
    case ToOne(kind) =>
      var name := CustomFieldNames.RelationshipName(field, kind, false);
      if OnlyNamed(w, r.relationships, field, name) then ScalarLoad(name, kind, r.Related(name)) else Err(MalformedRelationship)
    case ToMany(kind) =>
      var name := CustomFieldNames.RelationshipName(field, kind, true);
      if OnlyNamed(w, r.relationships, field, name) then ManyLoad(name, kind, r.Related(name)) else Err(MalformedRelationship)
  }

  function FieldLoads(schema: Schema, r: Record, members: seq<(string, Json)>): Result<seq<Load>, ApplyError> {
    if members == [] then Ok([])
    else Join(FieldLoad(schema, r, members[0].0, members[0].1), FieldLoads(schema, r, members[1..]))
  }

  /** Custom fields are filled only when the record says something about them. */
  function CustomLoads(schema: Schema, r: Record): Result<seq<Load>, ApplyError> {
    if "/custom_fields" !in r.attributes then Ok([])
    else
      match r.attributes["/custom_fields"]
      case Object(members) => FieldLoads(schema, r, MembersOf(members))
      case _ => Err(MalformedRelationship)
  }

  function ReadLoads(schema: Schema, r: Record, read: Read): Result<seq<Load>, ApplyError> {
    match read
    case One(name, target) =>
      if name in schema.required(r.kind) then RequiredLoad(name, target, r.Related(name)) else ScalarLoad(name, target, r.Related(name))
    case Generic(prefix) => GenericLoad(schema, r.kind, NamedWith(r.relationships, prefix))
    case Each(prefix) => EachLoad(schema, r.kind, NamedWith(SortByName(r.relationships), prefix))
    case CustomFields => CustomLoads(schema, r)
    case Many(name, target) => ManyLoad(name, target, r.Related(name))
  }

  function LoadAll(schema: Schema, r: Record, steps: seq<Read>): Result<seq<Load>, ApplyError> {
    if steps == [] then Ok([]) else Join(ReadLoads(schema, r, steps[0]), LoadAll(schema, r, steps[1..]))
  }

  /** Everything a write loads, in the order in which it does. */
  function Loads(schema: Schema, r: Record): Result<seq<Load>, ApplyError> {
    LoadAll(schema, r, WriteReads(schema.writer, r.kind, ManagesWireless(r)))
  }

  // ---- When a write accepts a record's values -------------------------------------------------

  predicate OneFits(schema: Schema, r: Record, name: string, target: string) {
    var value := r.Related(name);
    value == Null || value == Text("") || (IdentityText(value) && schema.target(r.kind, name) == Some(target))
  }

  predicate ManyFits(schema: Schema, r: Record, name: string, target: string) {
    var value := r.Related(name);
    Blank(value) || (value.List? && schema.target(r.kind, name) == Some(target))
  }

  predicate FieldFits(schema: Schema, r: Record, field: string, value: Json) {
    var w := schema.writer;
    match w.customField(r.kind, field)
    case Undefined => false
    case Plain => Unrelated(w, r.relationships, field)
    case Untargeted => Blank(value) && Unrelated(w, r.relationships, field)
    case ToOne(kind) =>
      var name := CustomFieldNames.RelationshipName(field, kind, false);
      OnlyNamed(w, r.relationships, field, name) && OneFits(schema, r, name, kind)
    case ToMany(kind) =>
      var name := CustomFieldNames.RelationshipName(field, kind, true);
      OnlyNamed(w, r.relationships, field, name) && ManyFits(schema, r, name, kind)
  }

  predicate MembersFit(schema: Schema, r: Record, members: seq<(string, Json)>) {
    forall i :: 0 <= i < |members| ==> FieldFits(schema, r, members[i].0, members[i].1)
  }

  predicate FieldsFit(schema: Schema, r: Record) {
    "/custom_fields" in r.attributes ==>
      && r.attributes["/custom_fields"].Object?
      && MembersFit(schema, r, MembersOf(r.attributes["/custom_fields"].members))
  }

  /** At most one name has the prefix, and it has a value. */
  predicate GenericFits(rels: seq<Relationship>, prefix: string) {
    CountNamed(rels, prefix) <= 1 && forall i :: 0 <= i < |rels| && prefix <= rels[i].name ==> !Blank(rels[i].value)
  }

  /** What planning does not check of the values one read finds. */
  predicate ReadFits(schema: Schema, r: Record, read: Read) {
    match read
    case One(name, _) => r.Related(name) != List([])
    case Generic(prefix) => GenericFits(r.relationships, prefix)
    case Each(_) => true
    case CustomFields => FieldsFit(schema, r)
    case Many(_, _) => true
  }

  /** The relationship tables and the writer say the same of what is read. */
  ghost predicate Agrees(schema: Schema, kind: string, read: Read) {
    match read
    case One(name, target) => ScalarTarget(schema, kind, name, target) && !Deferred(kind, name)
    case Generic(prefix) => forall name: string :: prefix <= name ==> !schema.multi(kind, name) && !Deferred(kind, name)
    case Each(prefix) => forall name: string :: prefix <= name ==> schema.multi(kind, name) && !Deferred(kind, name)
    case CustomFields => true
    case Many(name, target) => schema.target(kind, name) == Some(target) && schema.multi(kind, name) && !Deferred(kind, name)
  }

  /** An identity belongs to one kind, since it begins with the name of its kind. */
  ghost predicate OneKind(keys: set<Key>) {
    forall a, b :: a in keys && b in keys && a.identity == b.identity ==> a == b
  }

  /** What the loads of one read come to, once planning has accepted the record and found all its keys. */
  ghost predicate Settled(schema: Schema, r: Record, available: set<Key>, loads: Result<seq<Load>, ApplyError>, fits: bool) {
    && (loads.Ok? && KeysOfLoads(loads.value) <= available <==> fits)
    && (loads.Ok? ==> forall load :: load in loads.value && load.key in available ==> load.key in ImmediateKeys(schema, r))
  }

  ghost predicate Planned(schema: Schema, r: Record, available: set<Key>) {
    Dependencies(schema, r, true).Ok? && AllKeys(schema, r) <= available && OneKind(available)
  }

  lemma {:induction false} ListLoadsAgree(name: string, targetKind: string, values: seq<Json>)
    requires forall i :: 0 <= i < |values| ==> IdentityText(values[i])
    ensures ListLoads(name, targetKind, values).Ok?
    ensures |ListLoads(name, targetKind, values).value| == |values|
    ensures forall i :: 0 <= i < |values| ==>
                          IdentityText(values[i]) && ListLoads(name, targetKind, values).value[i] == Load(name, Key(targetKind, values[i].text))
  {
    if values != [] {
      ListLoadsAgree(name, targetKind, values[1..]);
    }
  }

  lemma {:induction false} ListLoadsText(name: string, targetKind: string, values: seq<Json>)
    requires ListLoads(name, targetKind, values).Ok?
    ensures forall i :: 0 <= i < |values| ==> IdentityText(values[i])
  {
    if values != [] {
      ListLoadsText(name, targetKind, values[1..]);
    }
  }

  /** What planning says of a relationship that the record has: its keys are among the planned ones. */
  lemma PlannedKeys(schema: Schema, r: Record, available: set<Key>, rel: Relationship)
    requires Planned(schema, r, available) && rel in r.relationships
    ensures TargetKeys(schema, r.kind, rel).Ok?
    ensures forall k :: k in TargetKeys(schema, r.kind, rel).value ==> k in available
    ensures !Deferred(r.kind, rel.name) ==> forall k :: k in TargetKeys(schema, r.kind, rel).value ==> k in ImmediateKeys(schema, r)
  {
    DeferralOnlyHidesKeys(schema, r);
    RelationshipKeysContain(schema, r.kind, r.relationships, rel, true);
    RelationshipKeysContain(schema, r.kind, r.relationships, rel, false);
    var keys := TargetKeys(schema, r.kind, rel).value;
    forall k | k in keys
      ensures k in available
    {
      assert k in AllKeys(schema, r);
    }
  }

  lemma ScalarSettled(schema: Schema, r: Record, available: set<Key>, name: string, target: string)
    requires Planned(schema, r, available) && !Deferred(r.kind, name)
    ensures Settled(schema, r, available, ScalarLoad(name, target, r.Related(name)), OneFits(schema, r, name, target))
  {
    var value := r.Related(name);
    if value != Null {
      var rel := Relationship(name, value);
      PlannedKeys(schema, r, available, rel);
      if IdentityText(value) {
        assert TargetKeys(schema, r.kind, rel).value[0] == Key(schema.target(r.kind, name).value, value.text);
        assert ScalarLoad(name, target, value).value[0] == Load(name, Key(target, value.text));
        assert Key(schema.target(r.kind, name).value, value.text) in available;
      }
    }
  }

  lemma ManySettled(schema: Schema, r: Record, available: set<Key>, name: string, target: string)
    requires Planned(schema, r, available) && !Deferred(r.kind, name)
    ensures Settled(schema, r, available, ManyLoad(name, target, r.Related(name)), ManyFits(schema, r, name, target))
  {
    var value := r.Related(name);
    if !Blank(value) {
      ListSettled(schema, r, available, Relationship(name, value), target);
    }
  }

  /** A list that planning accepted loads its keys, of the kind asked for, where the planner looked for that kind. */
  lemma ListSettled(schema: Schema, r: Record, available: set<Key>, rel: Relationship, target: string)
    requires Planned(schema, r, available) && rel in r.relationships && !Deferred(r.kind, rel.name) && !Blank(rel.value)
    ensures Settled(schema, r, available, ManyLoad(rel.name, target, rel.value), rel.value.List? && schema.target(r.kind, rel.name) == Some(target))
  {
    PlannedKeys(schema, r, available, rel);
    if rel.value.List? {
      var values, keys := rel.value.items, TargetKeys(schema, r.kind, rel).value;
      assert Values(rel.value) == values;
      ListLoadsAgree(rel.name, target, values);
      var loads := ListLoads(rel.name, target, values).value;
      forall i | 0 <= i < |values|
        ensures keys[i] in available && keys[i] in ImmediateKeys(schema, r) && keys[i].identity == loads[i].key.identity
        ensures loads[i].key in available <==> loads[i].key == keys[i]
      {
        assert keys[i] in keys;
      }
      assert loads[0] in loads;
    }
  }

  lemma JoinSettled(schema: Schema, r: Record, available: set<Key>, a: Result<seq<Load>, ApplyError>, aFits: bool,
                    b: Result<seq<Load>, ApplyError>, bFits: bool)
    requires Settled(schema, r, available, a, aFits) && Settled(schema, r, available, b, bFits)
    ensures Settled(schema, r, available, Join(a, b), aFits && bFits)
  {
    if a.Ok? && b.Ok? {
      assert KeysOfLoads(a.value + b.value) == KeysOfLoads(a.value) + KeysOfLoads(b.value);
    }
  }

  lemma OneSettled(schema: Schema, r: Record, available: set<Key>, name: string, target: string)
    requires Planned(schema, r, available) && Agrees(schema, r.kind, One(name, target))
    ensures Settled(schema, r, available, ReadLoads(schema, r, One(name, target)), ReadFits(schema, r, One(name, target)))
  {
    ScalarSettled(schema, r, available, name, target);
    var value := r.Related(name);
    if value != Null {
      PlannedKeys(schema, r, available, Relationship(name, value));
      if !Blank(value) {
        assert IdentityText(Values(value)[0]);
      }
    }
  }

  lemma {:induction false} NamedWithFacts(rels: seq<Relationship>, prefix: string)
    ensures |NamedWith(rels, prefix)| == CountNamed(rels, prefix)
    ensures forall rel :: rel in NamedWith(rels, prefix) <==> rel in rels && prefix <= rel.name
  {
    if rels != [] {
      NamedWithFacts(rels[1..], prefix);
      assert rels == [rels[0]] + rels[1..];
    }
  }

  lemma {:induction false} InsertByNameFacts(rel: Relationship, sorted: seq<Relationship>)
    ensures forall x :: x in InsertByName(rel, sorted) <==> x == rel || x in sorted
  {
    if sorted != [] && LexLess(sorted[0].name, rel.name) {
      InsertByNameFacts(rel, sorted[1..]);
      assert sorted == [sorted[0]] + sorted[1..];
    }
  }

  lemma {:induction false} SortByNameFacts(rels: seq<Relationship>)
    ensures forall x :: x in SortByName(rels) <==> x in rels
  {
    if rels != [] {
      SortByNameFacts(rels[1..]);
      InsertByNameFacts(rels[0], SortByName(rels[1..]));
      assert rels == [rels[0]] + rels[1..];
    }
  }

  lemma GenericSettled(schema: Schema, r: Record, available: set<Key>, prefix: string)
    requires Planned(schema, r, available) && Agrees(schema, r.kind, Generic(prefix))
    ensures Settled(schema, r, available, ReadLoads(schema, r, Generic(prefix)), ReadFits(schema, r, Generic(prefix)))
  {
    NamedWithFacts(r.relationships, prefix);
    var named := NamedWith(r.relationships, prefix);
    if |named| == 1 {
      GenericOneSettled(schema, r, available, prefix, named[0]);
      assert named == [named[0]];
    } else if named == [] {
      assert forall i :: 0 <= i < |r.relationships| && prefix <= r.relationships[i].name ==> r.relationships[i] in named;
    }
  }

  lemma GenericOneSettled(schema: Schema, r: Record, available: set<Key>, prefix: string, rel: Relationship)
    requires Planned(schema, r, available) && Agrees(schema, r.kind, Generic(prefix))
    requires rel in r.relationships && prefix <= rel.name
    ensures Settled(schema, r, available, GenericLoad(schema, r.kind, [rel]), !Blank(rel.value))
  {
    PlannedKeys(schema, r, available, rel);
    if !Blank(rel.value) {
      assert IdentityText(Values(rel.value)[0]);
      assert TargetKeys(schema, r.kind, rel).value[0] == Key(schema.target(r.kind, rel.name).value, rel.value.text);
      assert GenericLoad(schema, r.kind, [rel]).value == [Load(rel.name, TargetKeys(schema, r.kind, rel).value[0])];
    }
  }

  lemma {:induction false} EachSettled(schema: Schema, r: Record, available: set<Key>, prefix: string, named: seq<Relationship>)
    requires Planned(schema, r, available) && Agrees(schema, r.kind, Each(prefix))
    requires forall rel :: rel in named ==> rel in r.relationships && prefix <= rel.name
    ensures Settled(schema, r, available, EachLoad(schema, r.kind, named), true)
  {
    if named != [] {
      var rel := named[0];
      assert rel in r.relationships && named == [rel] + named[1..];
      PlannedKeys(schema, r, available, rel);
      var target := schema.target(r.kind, rel.name).value;
      if !Blank(rel.value) {
        ListSettled(schema, r, available, rel, target);
      }
      EachSettled(schema, r, available, prefix, named[1..]);
      JoinSettled(schema, r, available, ManyLoad(rel.name, target, rel.value), true, EachLoad(schema, r.kind, named[1..]), true);
    }
  }

  lemma CustomNamesAreNotDeferred(kind: string, field: string, target: string, multi: bool)
    ensures !Deferred(kind, CustomFieldNames.RelationshipName(field, target, multi))
  {
    var name := CustomFieldNames.RelationshipName(field, target, multi);
    assert name[0] == 'c';
  }

  lemma FieldSettled(schema: Schema, r: Record, available: set<Key>, field: string, value: Json)
    requires Planned(schema, r, available)
    ensures Settled(schema, r, available, FieldLoad(schema, r, field, value), FieldFits(schema, r, field, value))
  {
    match schema.writer.customField(r.kind, field) {
      case ToOne(kind) =>
        CustomNamesAreNotDeferred(r.kind, field, kind, false);
        ScalarSettled(schema, r, available, CustomFieldNames.RelationshipName(field, kind, false), kind);
      case ToMany(kind) =>
        CustomNamesAreNotDeferred(r.kind, field, kind, true);
        ManySettled(schema, r, available, CustomFieldNames.RelationshipName(field, kind, true), kind);
      case _ =>
    }
  }

  lemma {:induction false} MembersSettled(schema: Schema, r: Record, available: set<Key>, members: seq<(string, Json)>)
    requires Planned(schema, r, available)
    ensures Settled(schema, r, available, FieldLoads(schema, r, members), MembersFit(schema, r, members))
  {
    if members != [] {
      var head, tail := members[0], members[1..];
      FieldSettled(schema, r, available, head.0, head.1);
      MembersSettled(schema, r, available, tail);
      JoinSettled(schema, r, available, FieldLoad(schema, r, head.0, head.1), FieldFits(schema, r, head.0, head.1),
                  FieldLoads(schema, r, tail), MembersFit(schema, r, tail));
      assert forall i :: 0 < i < |members| ==> members[i] == tail[i - 1];
      assert MembersFit(schema, r, members) <==> FieldFits(schema, r, head.0, head.1) && MembersFit(schema, r, tail);
    }
  }

  lemma ReadSettled(schema: Schema, r: Record, available: set<Key>, read: Read)
    requires Planned(schema, r, available) && Agrees(schema, r.kind, read)
    ensures Settled(schema, r, available, ReadLoads(schema, r, read), ReadFits(schema, r, read))
  {
    match read {
      case One(name, target) => OneSettled(schema, r, available, name, target);
      case Generic(prefix) => GenericSettled(schema, r, available, prefix);
      case Each(prefix) =>
        SortByNameFacts(r.relationships);
        NamedWithFacts(SortByName(r.relationships), prefix);
        EachSettled(schema, r, available, prefix, NamedWith(SortByName(r.relationships), prefix));
      case CustomFields =>
        if "/custom_fields" in r.attributes && r.attributes["/custom_fields"].Object? {
          MembersSettled(schema, r, available, MembersOf(r.attributes["/custom_fields"].members));
        }
      case Many(name, target) =>
        ManySettled(schema, r, available, name, target);
        if r.Related(name) != Null {
          PlannedKeys(schema, r, available, Relationship(name, r.Related(name)));
        }
    }
  }

  predicate AllFit(schema: Schema, r: Record, steps: seq<Read>) {
    forall i :: 0 <= i < |steps| ==> ReadFits(schema, r, steps[i])
  }

  lemma {:induction false} StepsSettled(schema: Schema, r: Record, available: set<Key>, steps: seq<Read>)
    requires Planned(schema, r, available)
    requires forall i :: 0 <= i < |steps| ==> Agrees(schema, r.kind, steps[i])
    ensures Settled(schema, r, available, LoadAll(schema, r, steps), AllFit(schema, r, steps))
  {
    if steps != [] {
      var head, tail := steps[0], steps[1..];
      ReadSettled(schema, r, available, head);
      StepsSettled(schema, r, available, tail);
      JoinSettled(schema, r, available, ReadLoads(schema, r, head), ReadFits(schema, r, head),
                  LoadAll(schema, r, tail), AllFit(schema, r, tail));
      assert forall i :: 0 < i < |steps| ==> steps[i] == tail[i - 1];
      assert AllFit(schema, r, steps) <==> ReadFits(schema, r, head) && AllFit(schema, r, tail);
    }
  }

  /** What a record's first write reads, fits. */
  predicate LoadsFit(schema: Schema, r: Record) {
    AllFit(schema, r, WriteReads(schema.writer, r.kind, ManagesWireless(r)))
  }

  /**
   * Past the plan checks, everything the write loads is there exactly when what it reads fits, and
   * whatever it finds there was planned as an immediate dependency.
   */
  lemma LoadsSettled(schema: Schema, r: Record, available: set<Key>)
    requires TablesAgree(schema) && Planned(schema, r, available)
    ensures Settled(schema, r, available, Loads(schema, r), LoadsFit(schema, r))
  {
    var steps := WriteReads(schema.writer, r.kind, ManagesWireless(r));
    forall i | 0 <= i < |steps|
      ensures Agrees(schema, r.kind, steps[i])
    {
      assert steps[i] in steps;
    }
    StepsSettled(schema, r, available, steps);
  }

  // ---- Deferred selectors ---------------------------------------------------------------------

  datatype Selector = Selector(name: string, target: Option<Key>)

  function ScalarSelector(r: Record, name: string, targetKind: string): Result<seq<Selector>, ApplyError> {
    match ScalarLoad(name, targetKind, r.Related(name))
    case Err(e) => Err(e)
    case Ok(keys) => Ok([Selector(name, if keys == [] then None else Some(keys[0].key))])
  }

  function Both(a: Result<seq<Selector>, ApplyError>, b: Result<seq<Selector>, ApplyError>): Result<seq<Selector>, ApplyError> {
    match a
    case Err(e) => Err(e)
    case Ok(first) =>
      match b
      case Err(e) => Err(e)
      case Ok(second) => Ok(first + second)
  }

  function Mappings(schema: Schema, rels: seq<Relationship>, targetKind: string): Result<seq<Selector>, ApplyError> {
    if rels == [] then Ok([])
    else if !("mapping_" <= rels[0].name) then Mappings(schema, rels[1..], targetKind)
    else if schema.portMapping(rels[0].name).None? then Err(InvalidMapping)
    else
      match ScalarLoad(rels[0].name, targetKind, rels[0].value)
      case Err(e) => Err(e)
      case Ok(keys) =>
        if keys == [] then Err(MalformedRelationship)
        else Both(Ok([Selector(rels[0].name, Some(keys[0].key))]), Mappings(schema, rels[1..], targetKind))
  }

  /** The selectors written once every record exists. */
  function Selectors(schema: Schema, r: Record): Result<seq<Selector>, ApplyError> {
    match r.kind
    case "virtual_chassis" => ScalarSelector(r, "master", "device")
    case "interface" => ScalarSelector(r, "primary_mac_address", "mac_address")
    case "vm_interface" =>
      if r.Attribute("/manage_primary_mac_selector") == Bool(true)
      then ScalarSelector(r, "primary_mac_address", "mac_address") else Ok([])
    case "device" =>
      Both(AddressSelectors(r),
           if ManagesAddresses(r) then ScalarSelector(r, "oob_ip", "ip_address") else Ok([]))
    case "virtual_device_context" => AddressSelectors(r)
    case "virtual_machine" => AddressSelectors(r)
    case "front_port" => Mappings(schema, r.relationships, "rear_port")
    case "front_port_template" => Mappings(schema, r.relationships, "rear_port_template")
    case _ => Ok([])
  }

  predicate ManagesAddresses(r: Record) {
    r.Attribute("/manage_primary_ip_selectors") == Bool(true)
  }

  function AddressSelectors(r: Record): Result<seq<Selector>, ApplyError> {
    if ManagesAddresses(r)
    then Both(ScalarSelector(r, "primary_ip4", "ip_address"), ScalarSelector(r, "primary_ip6", "ip_address"))
    else Ok([])
  }

  /** The relationship tables say the same as the writer of everything it reads, at once or deferred. */
  ghost predicate TablesAgree(schema: Schema) {
    && (forall kind: string, wireless: bool, read :: read in WriteReads(schema.writer, kind, wireless) ==> Agrees(schema, kind, read))
    && ScalarTarget(schema, "virtual_chassis", "master", "device")
    && ScalarTarget(schema, "interface", "primary_mac_address", "mac_address")
    && ScalarTarget(schema, "vm_interface", "primary_mac_address", "mac_address")
    && (forall kind | kind in {"device", "virtual_device_context", "virtual_machine"} ::
          ScalarTarget(schema, kind, "primary_ip4", "ip_address") && ScalarTarget(schema, kind, "primary_ip6", "ip_address"))
    && ScalarTarget(schema, "device", "oob_ip", "ip_address")
    && (forall name: string :: "mapping_" <= name ==>
          ScalarTarget(schema, "front_port", name, "rear_port") && ScalarTarget(schema, "front_port_template", name, "rear_port_template"))
  }

  ghost predicate ScalarTarget(schema: Schema, kind: string, name: string, targetKind: string) {
    schema.target(kind, name) == Some(targetKind) && !schema.multi(kind, name)
  }

  ghost predicate TargetsWithin(selectors: seq<Selector>, keys: set<Key>) {
    forall i :: 0 <= i < |selectors| && selectors[i].target.Some? ==> selectors[i].target.value in keys
  }

  lemma ScalarSelectorWithin(schema: Schema, r: Record, name: string, targetKind: string)
    requires Dependencies(schema, r, true).Ok?
    requires ScalarTarget(schema, r.kind, name, targetKind)
    ensures ScalarSelector(r, name, targetKind).Ok? ==>
              TargetsWithin(ScalarSelector(r, name, targetKind).value, AllKeys(schema, r))
  {
    var value := r.Related(name);
    if value.Text? && value.text != "" {
      var rel := Relationship(name, value);
      RelationshipKeysContain(schema, r.kind, r.relationships, rel, true);
      assert TargetKeys(schema, r.kind, rel).value[0] == Key(targetKind, value.text);
    }
  }

  lemma {:induction false} MappingsWithin(schema: Schema, r: Record, rels: seq<Relationship>, targetKind: string)
    requires Dependencies(schema, r, true).Ok?
    requires forall i :: 0 <= i < |rels| ==> rels[i] in r.relationships
    requires forall name: string :: "mapping_" <= name ==> ScalarTarget(schema, r.kind, name, targetKind)
    ensures Mappings(schema, rels, targetKind).Ok? ==>
              TargetsWithin(Mappings(schema, rels, targetKind).value, AllKeys(schema, r))
  {
    if rels != [] {
      assert rels[0] in r.relationships;
      assert "mapping_" <= rels[0].name ==> ScalarTarget(schema, r.kind, rels[0].name, targetKind);
      MappingsWithin(schema, r, rels[1..], targetKind);
      if "mapping_" <= rels[0].name && Mappings(schema, rels, targetKind).Ok? {
        RelationshipKeysContain(schema, r.kind, r.relationships, rels[0], true);
        assert TargetKeys(schema, r.kind, rels[0]).value[0] == Key(targetKind, rels[0].value.text);
      }
    }
  }

  /** Every selector the deferred writer resolves was among the keys the plan was checked for. */
  lemma SelectorsWithin(schema: Schema, r: Record)
    requires TablesAgree(schema)
    requires Dependencies(schema, r, true).Ok?
    ensures Selectors(schema, r).Ok? ==> TargetsWithin(Selectors(schema, r).value, AllKeys(schema, r))
  {
    match r.kind {
      case "virtual_chassis" => ScalarSelectorWithin(schema, r, "master", "device");
      case "interface" => ScalarSelectorWithin(schema, r, "primary_mac_address", "mac_address");
      case "vm_interface" => ScalarSelectorWithin(schema, r, "primary_mac_address", "mac_address");
      case "device" =>
        AddressesWithin(schema, r);
        ScalarSelectorWithin(schema, r, "oob_ip", "ip_address");
      case "virtual_device_context" => AddressesWithin(schema, r);
      case "virtual_machine" => AddressesWithin(schema, r);
      case "front_port" => MappingsWithin(schema, r, r.relationships, "rear_port");
      case "front_port_template" => MappingsWithin(schema, r, r.relationships, "rear_port_template");
      case _ =>
    }
  }

  lemma AddressesWithin(schema: Schema, r: Record)
    requires TablesAgree(schema)
    requires r.kind in {"device", "virtual_device_context", "virtual_machine"}
    requires Dependencies(schema, r, true).Ok?
    ensures AddressSelectors(r).Ok? ==> TargetsWithin(AddressSelectors(r).value, AllKeys(schema, r))
  {
    ScalarSelectorWithin(schema, r, "primary_ip4", "ip_address");
    ScalarSelectorWithin(schema, r, "primary_ip6", "ip_address");
  }

  // ---- When both passes accept a record's values ----------------------------------------------

  predicate ScalarFits(r: Record, name: string) {
    r.Related(name) != List([])
  }

  predicate AddressesFit(r: Record) {
    ManagesAddresses(r) ==> ScalarFits(r, "primary_ip4") && ScalarFits(r, "primary_ip6")
  }

  predicate MappingsFit(schema: Schema, rels: seq<Relationship>) {
    forall i :: 0 <= i < |rels| && "mapping_" <= rels[i].name ==> schema.portMapping(rels[i].name).Some? && !Blank(rels[i].value)
  }

  /** No managed selector holds an empty list, and every port mapping has two positions and a target. */
  predicate DeferredFits(schema: Schema, r: Record) {
    match r.kind
    case "virtual_chassis" => ScalarFits(r, "master")
    case "interface" => ScalarFits(r, "primary_mac_address")
    case "vm_interface" => r.Attribute("/manage_primary_mac_selector") == Bool(true) ==> ScalarFits(r, "primary_mac_address")
    case "device" => AddressesFit(r) && (ManagesAddresses(r) ==> ScalarFits(r, "oob_ip"))
    case "virtual_device_context" => AddressesFit(r)
    case "virtual_machine" => AddressesFit(r)
    case "front_port" => MappingsFit(schema, r.relationships)
    case "front_port_template" => MappingsFit(schema, r.relationships)
    case _ => true
  }

  /** The values the two passes of the writer accept. */
  predicate Fits(schema: Schema, r: Record) {
    LoadsFit(schema, r) && DeferredFits(schema, r)
  }

  lemma ScalarSelectorFits(schema: Schema, r: Record, name: string, targetKind: string)
    requires Dependencies(schema, r, true).Ok? && ScalarTarget(schema, r.kind, name, targetKind)
    ensures ScalarSelector(r, name, targetKind).Ok? <==> ScalarFits(r, name)
  {
    var value := r.Related(name);
    if value != Null {
      var rel := Relationship(name, value);
      RelationshipKeysContain(schema, r.kind, r.relationships, rel, true);
      if !Blank(value) {
        assert IdentityText(Values(value)[0]);
      }
    }
  }

  lemma {:induction false} MappingsFitExactly(schema: Schema, r: Record, rels: seq<Relationship>, targetKind: string)
    requires Dependencies(schema, r, true).Ok?
    requires forall i :: 0 <= i < |rels| ==> rels[i] in r.relationships
    requires forall name: string :: "mapping_" <= name ==> ScalarTarget(schema, r.kind, name, targetKind)
    ensures Mappings(schema, rels, targetKind).Ok? <==> MappingsFit(schema, rels)
  {
    if rels != [] {
      assert rels[0] in r.relationships;
      MappingsFitExactly(schema, r, rels[1..], targetKind);
      RelationshipKeysContain(schema, r.kind, r.relationships, rels[0], true);
      assert "mapping_" <= rels[0].name ==> ScalarTarget(schema, r.kind, rels[0].name, targetKind);
      if !Blank(rels[0].value) && "mapping_" <= rels[0].name {
        assert IdentityText(Values(rels[0].value)[0]);
      }
      assert MappingsFit(schema, rels) <==>
             ("mapping_" <= rels[0].name ==> schema.portMapping(rels[0].name).Some? && !Blank(rels[0].value)) && MappingsFit(schema, rels[1..]);
    }
  }

  lemma AddressesFitExactly(schema: Schema, r: Record)
    requires TablesAgree(schema) && r.kind in {"device", "virtual_device_context", "virtual_machine"}
    requires Dependencies(schema, r, true).Ok?
    ensures AddressSelectors(r).Ok? <==> AddressesFit(r)
  {
    ScalarSelectorFits(schema, r, "primary_ip4", "ip_address");
    ScalarSelectorFits(schema, r, "primary_ip6", "ip_address");
  }

  /** Past the plan checks, the deferred writer accepts a record exactly when its deferred values fit. */
  lemma DeferredFitsExactly(schema: Schema, r: Record)
    requires TablesAgree(schema) && Dependencies(schema, r, true).Ok?
    ensures Selectors(schema, r).Ok? <==> DeferredFits(schema, r)
  {
    match r.kind {
      case "virtual_chassis" => ScalarSelectorFits(schema, r, "master", "device");
      case "interface" => ScalarSelectorFits(schema, r, "primary_mac_address", "mac_address");
      case "vm_interface" => ScalarSelectorFits(schema, r, "primary_mac_address", "mac_address");
      case "device" =>
        AddressesFitExactly(schema, r);
        ScalarSelectorFits(schema, r, "oob_ip", "ip_address");
      case "virtual_device_context" => AddressesFitExactly(schema, r);
      case "virtual_machine" => AddressesFitExactly(schema, r);
      case "front_port" => MappingsFitExactly(schema, r, r.relationships, "rear_port");
      case "front_port_template" => MappingsFitExactly(schema, r, r.relationships, "rear_port_template");
      case _ =>
    }
  }

  /** Every key the record loads, at once or deferred, is among the given ones and well formed. */
  ghost predicate Accepted(schema: Schema, r: Record, available: set<Key>) {
    && Loads(schema, r).Ok? && KeysOfLoads(Loads(schema, r).value) <= available
    && Selectors(schema, r).Ok? && TargetsWithin(Selectors(schema, r).value, available)
  }

  /** Past the plan checks, both passes accept a record exactly when its values fit. */
  lemma FitsExactly(schema: Schema, r: Record, available: set<Key>)
    requires TablesAgree(schema) && Planned(schema, r, available)
    ensures Accepted(schema, r, available) <==> Fits(schema, r)
  {
    LoadsSettled(schema, r, available);
    DeferredFitsExactly(schema, r);
    SelectorsWithin(schema, r);
  }
}
