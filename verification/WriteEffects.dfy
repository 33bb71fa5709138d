/**
 * What the two passes over a record save, told from the relationships a reviewer reads in it: which objects are
 * linked under which names at once, and which are selected once every record exists.
 */
module WriteEffects {
  import opened Prelude
  import opened KeyOrder
  import opened ApplicationPlanning
  import opened RecordWrites
  import CustomFieldNames

  /** Relationship names are the keys of a mapping. */
  ghost predicate NamesDistinct(rels: seq<Relationship>) {
    forall i, j :: 0 <= i < j < |rels| ==> rels[i].name != rels[j].name
  }

  predicate Switched(r: Record, path: string) {
    path in r.attributes && r.attributes[path] == Bool(true)
  }

  /** A relationship value names this identity, alone or in a list. */
  predicate ValueNames(value: Json, identity: string) {
    identity != "" && (value == Text(identity) || (value.List? && Text(identity) in value.items))
  }

  /** The record names this identity under this relationship. */
  predicate Names(r: Record, name: string, identity: string) {
    exists rel :: rel in r.relationships && rel.name == name && ValueNames(rel.value, identity)
  }

  lemma {:induction false} LookupFinds(rels: seq<Relationship>, rel: Relationship)
    requires NamesDistinct(rels) && rel in rels
    ensures Lookup(rels, rel.name) == rel.value
  {
    var i :| 0 <= i < |rels| && rels[i] == rel;
    if i > 0 {
      assert rels[1..][i - 1] == rel;
      LookupFinds(rels[1..], rel);
    }
  }

  /** Looking a name up finds the value of its one relationship. */
  lemma RelatedNames(r: Record, name: string, identity: string)
    requires NamesDistinct(r.relationships)
    ensures Names(r, name, identity) <==> ValueNames(r.Related(name), identity)
  {
    if Names(r, name, identity) {
      var rel :| rel in r.relationships && rel.name == name && ValueNames(rel.value, identity);
      LookupFinds(r.relationships, rel);
    }
    if ValueNames(r.Related(name), identity) {
      assert Relationship(name, r.Related(name)) in r.relationships;
    }
  }

  // ---- What is linked at once -----------------------------------------------------------------

  /** The names a kind may close a cycle through. */
  predicate Late(kind: string, name: string) {
    || (name == "master" && kind == "virtual_chassis")
    || (name == "primary_mac_address" && (kind == "interface" || kind == "vm_interface"))
    || ((name == "primary_ip4" || name == "primary_ip6" || name == "oob_ip") &&
        (kind == "device" || kind == "virtual_device_context" || kind == "virtual_machine"))
  }

  predicate FieldName(w: Writer, kind: string, name: string) {
    !Late(kind, name) && exists field :: field in w.fields(kind) && field.0 == name
  }

  /** The names of a kind's one generic target, by their beginning. */
  predicate GenericName(kind: string, name: string) {
    || ("scope_" <= name && kind in {"vlan_group", "prefix", "cluster", "wireless_lan"})
    || ("assigned_" <= name && kind in {"mac_address", "ip_address", "l2vpn_termination"})
    || ("termination_" <= name && kind in {"tunnel_termination", "circuit_termination"})
    || ("component_" <= name && kind in {"inventory_item", "inventory_item_template"})
    || ("action_" <= name && kind == "event_rule")
    || ("interface_" <= name && kind == "fhrp_group_assignment")
    || ("parent_" <= name && kind == "service")
    || ("object_" <= name && kind == "contact_assignment")
    || ("member_" <= name && kind == "circuit_group_assignment")
  }

  /** Either end of a cable. */
  predicate CableName(kind: string, name: string) {
    kind == "cable" && ("termination_a_" <= name || "termination_b_" <= name)
  }

  predicate CustomName(w: Writer, r: Record, name: string) {
    && r.kind in w.customized
    && "/custom_fields" in r.attributes && r.attributes["/custom_fields"].Object?
    && exists field :: field in r.attributes["/custom_fields"].members && NamesField(w, r.kind, name, field)
  }

  /** The one name under which a custom field of this definition links objects. */
  predicate NamesField(w: Writer, kind: string, name: string, field: string) {
    match w.customField(kind, field)
    case ToOne(target) => name == "custom_field_object_" + target + "_" + field
    case ToMany(target) => name == "custom_field_multi_" + target + "_" + field
    case _ => false
  }

  predicate ListName(w: Writer, kind: string, name: string) {
    || (name in {"user_group", "user"} && kind == "owner")
    || (name == "permission" && kind in {"user_group", "user"})
    || (name == "group" && kind in {"user", "contact", "notification_group"})
    || (name == "user" && kind == "notification_group")
    || (name == "asn" && kind in {"site", "provider"})
    || (name in {"import_target", "export_target"} && kind in {"vrf", "l2vpn"})
    || (name == "ip_address" && kind == "service")
    || (name == "tagged_vlan" && kind == "vm_interface")
    || (name == "proposal" && kind in {"ike_policy", "ipsec_policy"})
    || (kind == "config_context" && exists list :: list in w.contextLists && list.0 == name)
  }

  /** The first pass writes the relationship of this name. */
  predicate WrittenAtOnce(w: Writer, r: Record, name: string) {
    || FieldName(w, r.kind, name)
    || GenericName(r.kind, name)
    || CableName(r.kind, name)
    || CustomName(w, r, name)
    || ListName(w, r.kind, name)
    || (name == "tag" && r.kind in w.tagged)
    || ((name == "vdc" || name == "tagged_vlan") && r.kind == "interface")
    || (name == "wireless_lan" && r.kind == "interface" && Switched(r, "/manage_wireless_lans"))
  }

  /** The relationship names one read of the writer goes through. */
  predicate Covers(w: Writer, r: Record, read: Read, name: string) {
    match read
    case One(field, _) => name == field
    case Generic(prefix) => prefix <= name
    case Each(prefix) => prefix <= name
    case CustomFields =>
      && "/custom_fields" in r.attributes && r.attributes["/custom_fields"].Object?
      && exists field :: field in r.attributes["/custom_fields"].members && NamesField(w, r.kind, name, field)
    case Many(list, _) => name == list
  }

  predicate CoversAny(w: Writer, r: Record, steps: seq<Read>, name: string) {
    exists read :: read in steps && Covers(w, r, read, name)
  }

  lemma CoversSplit(w: Writer, r: Record, a: seq<Read>, b: seq<Read>, name: string)
    ensures CoversAny(w, r, a + b, name) <==> CoversAny(w, r, a, name) || CoversAny(w, r, b, name)
  {
    forall read
      ensures read in a + b <==> read in a || read in b
    {
    }
    if CoversAny(w, r, a, name) {
      var read :| read in a && Covers(w, r, read, name);
      assert read in a + b;
    }
    if CoversAny(w, r, b, name) {
      var read :| read in b && Covers(w, r, read, name);
      assert read in a + b;
    }
  }

  lemma {:induction false} FieldReadsCover(w: Writer, r: Record, kind: string, fields: seq<(string, string)>, name: string)
    ensures CoversAny(w, r, FieldReads(kind, fields), name) <==> !Late(kind, name) && exists field :: field in fields && field.0 == name
  {
    if fields != [] {
      var head := if DeferredWrite(kind, fields[0].0) then [] else [One(fields[0].0, fields[0].1)];
      FieldReadsCover(w, r, kind, fields[1..], name);
      CoversSplit(w, r, head, FieldReads(kind, fields[1..]), name);
      assert fields == [fields[0]] + fields[1..];
      assert DeferredWrite(kind, fields[0].0) == Late(kind, fields[0].0);
      if head != [] {
        assert Covers(w, r, head[0], name) <==> fields[0].0 == name;
      }
    }
  }

  lemma OneCovers(w: Writer, r: Record, read: Read, name: string)
    ensures CoversAny(w, r, [read], name) <==> Covers(w, r, read, name)
  {
    assert read in [read];
  }

  lemma CableReadsCover(w: Writer, r: Record, name: string)
    requires r.kind == "cable"
    ensures CoversAny(w, r, GenericReads(r.kind), name) <==> CableName(r.kind, name)
    ensures !GenericName(r.kind, name)
  {
    CoversSplit(w, r, [Each("termination_a_")], [Each("termination_b_")], name);
    OneCovers(w, r, Each("termination_a_"), name);
    OneCovers(w, r, Each("termination_b_"), name);
    assert GenericReads(r.kind) == [Each("termination_a_")] + [Each("termination_b_")];
  }

  /** A kind other than cable has at most one generic read, and the read's prefix is that of the kind's generic names. */
  ghost predicate OneGeneric(kind: string, name: string) {
    var steps := GenericReads(kind);
    if steps == [] then !GenericName(kind, name)
    else |steps| == 1 && steps[0].Generic? && (GenericName(kind, name) <==> steps[0].prefix <= name)
  }

  lemma ShortKindGeneric(kind: string, name: string)
    requires kind != "cable" && |kind| <= 14
    ensures OneGeneric(kind, name)
  {
  }

  lemma MiddleKindGeneric(kind: string, name: string)
    requires 14 < |kind| <= 19
    ensures OneGeneric(kind, name)
  {
  }

  lemma LongKindGeneric(kind: string, name: string)
    requires |kind| > 19
    ensures OneGeneric(kind, name)
  {
  }

  lemma KindGeneric(kind: string, name: string)
    requires kind != "cable"
    ensures OneGeneric(kind, name)
  {
    if |kind| <= 14 {
      ShortKindGeneric(kind, name);
    } else if |kind| <= 19 {
      MiddleKindGeneric(kind, name);
    } else {
      LongKindGeneric(kind, name);
    }
  }

  lemma GenericReadsCover(w: Writer, r: Record, name: string)
    ensures CoversAny(w, r, GenericReads(r.kind), name) <==> GenericName(r.kind, name) || CableName(r.kind, name)
  {
    if r.kind == "cable" {
      CableReadsCover(w, r, name);
    } else {
      KindGeneric(r.kind, name);
      var steps := GenericReads(r.kind);
      if steps != [] {
        OneCovers(w, r, steps[0], name);
        assert steps == [steps[0]];
      }
    }
  }

  lemma PairCovers(w: Writer, r: Record, first: Read, second: Read, name: string)
    ensures CoversAny(w, r, [first, second], name) <==> Covers(w, r, first, name) || Covers(w, r, second, name)
  {
    assert first in [first, second] && second in [first, second];
  }

  lemma ContextListsCover(w: Writer, r: Record, name: string)
    requires r.kind == "config_context"
    ensures CoversAny(w, r, ListReads(w, r.kind), name) <==> exists list :: list in w.contextLists && list.0 == name
  {
    var steps := ListReads(w, r.kind);
    if list :| list in w.contextLists && list.0 == name {
      var i :| 0 <= i < |w.contextLists| && w.contextLists[i] == list;
      assert steps[i] in steps && Covers(w, r, steps[i], name);
    }
  }

  lemma KindListsCover(w: Writer, r: Record, name: string)
    ensures CoversAny(w, r, ListReads(w, r.kind), name) <==> ListName(w, r.kind, name)
  {
    var steps := ListReads(w, r.kind);
    if r.kind == "config_context" {
      ContextListsCover(w, r, name);
    } else if |steps| == 1 {
      OneCovers(w, r, steps[0], name);
      assert steps == [steps[0]];
    } else if |steps| == 2 {
      PairCovers(w, r, steps[0], steps[1], name);
      assert steps == [steps[0], steps[1]];
    } else {
      assert steps == [];
    }
  }

  lemma PartsCover(w: Writer, r: Record, a: seq<Read>, b: seq<Read>, c: seq<Read>, d: seq<Read>, name: string)
    ensures CoversAny(w, r, a + b + c + d, name) <==>
              CoversAny(w, r, a, name) || CoversAny(w, r, b, name) || CoversAny(w, r, c, name) || CoversAny(w, r, d, name)
  {
    CoversSplit(w, r, a, b, name);
    CoversSplit(w, r, a + b, c, name);
    CoversSplit(w, r, a + b + c, d, name);
  }

  function TagReads(w: Writer, kind: string): seq<Read> {
    if kind in w.tagged then [Many("tag", "tag")] else []
  }

  function PortReads(kind: string): seq<Read> {
    if kind == "interface" then [Many("vdc", "virtual_device_context"), Many("tagged_vlan", "vlan")] else []
  }

  function WirelessReads(kind: string, wireless: bool): seq<Read> {
    if kind == "interface" && wireless then [Many("wireless_lan", "wireless_lan")] else []
  }

  function LastReads(w: Writer, kind: string, wireless: bool): seq<Read> {
    TagReads(w, kind) + PortReads(kind) + WirelessReads(kind, wireless) + []
  }

  lemma LastReadsCover(w: Writer, r: Record, name: string)
    ensures CoversAny(w, r, LastReads(w, r.kind, ManagesWireless(r)), name) <==>
              || (name == "tag" && r.kind in w.tagged)
              || ((name == "vdc" || name == "tagged_vlan") && r.kind == "interface")
              || (name == "wireless_lan" && r.kind == "interface" && Switched(r, "/manage_wireless_lans"))
  {
    PartsCover(w, r, TagReads(w, r.kind), PortReads(r.kind), WirelessReads(r.kind, ManagesWireless(r)), [], name);
    OneCovers(w, r, Many("tag", "tag"), name);
    PairCovers(w, r, Many("vdc", "virtual_device_context"), Many("tagged_vlan", "vlan"), name);
    OneCovers(w, r, Many("wireless_lan", "wireless_lan"), name);
  }

  function CustomReads(w: Writer, kind: string): seq<Read> {
    if kind in w.customized then [CustomFields] else []
  }

  lemma StepsSplit(w: Writer, kind: string, wireless: bool)
    ensures WriteReads(w, kind, wireless) ==
            FieldReads(kind, w.fields(kind)) + GenericReads(kind) + CustomReads(w, kind) + (ListReads(w, kind) + LastReads(w, kind, wireless))
  {
    var fields, generic, custom, lists := FieldReads(kind, w.fields(kind)), GenericReads(kind), CustomReads(w, kind), ListReads(w, kind);
    Regrouped(fields + generic + custom, lists, TagReads(w, kind), PortReads(kind), WirelessReads(kind, wireless));
  }

  lemma Regrouped(a: seq<Read>, b: seq<Read>, c: seq<Read>, d: seq<Read>, e: seq<Read>)
    ensures a + b + c + d + e == a + (b + (c + d + e + []))
  {
  }

  /** The writer's steps go through exactly the names the first pass is to write. */
  lemma StepsCover(w: Writer, r: Record, name: string)
    ensures CoversAny(w, r, WriteReads(w, r.kind, ManagesWireless(r)), name) <==> WrittenAtOnce(w, r, name)
  {
    var fields, generic := FieldReads(r.kind, w.fields(r.kind)), GenericReads(r.kind);
    var lists, last := ListReads(w, r.kind), LastReads(w, r.kind, ManagesWireless(r));
    StepsSplit(w, r.kind, ManagesWireless(r));
    PartsCover(w, r, fields, generic, CustomReads(w, r.kind), lists + last, name);
    CoversSplit(w, r, lists, last, name);
    FieldReadsCover(w, r, r.kind, w.fields(r.kind), name);
    GenericReadsCover(w, r, name);
    OneCovers(w, r, CustomFields, name);
    KindListsCover(w, r, name);
    LastReadsCover(w, r, name);
  }

  // ---- The objects linked at once -------------------------------------------------------------

  /** The record names this key under this relationship, as the relationship tables read it. */
  predicate Refers(schema: Schema, r: Record, name: string, key: Key) {
    schema.target(r.kind, name) == Some(key.kind) && Names(r, name, key.identity)
  }

  /** What one read of an accepted record loads: the keys the record names under the names the read goes through. */
  ghost predicate LoadsAs(schema: Schema, r: Record, read: Read, name: string, key: Key) {
    && ReadLoads(schema, r, read).Ok?
    && (Load(name, key) in ReadLoads(schema, r, read).value <==> Covers(schema.writer, r, read, name) && Refers(schema, r, name, key))
  }

  lemma ScalarLoads(r: Record, load: string, target: string, name: string, key: Key)
    requires NamesDistinct(r.relationships) && ScalarLoad(load, target, r.Related(load)).Ok?
    ensures Load(name, key) in ScalarLoad(load, target, r.Related(load)).value <==>
              name == load && key.kind == target && Names(r, load, key.identity)
  {
    RelatedNames(r, load, key.identity);
  }

  lemma ManyLoads(load: string, target: string, value: Json, name: string, key: Key)
    requires ManyLoad(load, target, value).Ok? && (Blank(value) || value.List?)
    ensures Load(name, key) in ManyLoad(load, target, value).value <==>
              name == load && key.kind == target && ValueNames(value, key.identity)
  {
    if !Blank(value) {
      var values, loads := value.items, ManyLoad(load, target, value).value;
      ListLoadsText(load, target, values);
      ListLoadsAgree(load, target, values);
      if Load(name, key) in loads {
        var i :| 0 <= i < |loads| && loads[i] == Load(name, key);
        assert values[i] == Text(key.identity);
      }
      if name == load && key.kind == target && ValueNames(value, key.identity) {
        var i :| 0 <= i < |values| && values[i] == Text(key.identity);
        assert loads[i] == Load(name, key);
      }
    }
  }

  lemma OneLoadsAs(schema: Schema, r: Record, read: Read, name: string, key: Key)
    requires read.One? && Agrees(schema, r.kind, read) && NamesDistinct(r.relationships)
    requires ReadLoads(schema, r, read).Ok?
    ensures LoadsAs(schema, r, read, name, key)
  {
    ScalarLoads(r, read.name, read.target, name, key);
  }

  lemma ManyLoadsAs(schema: Schema, r: Record, read: Read, name: string, key: Key)
    requires read.Many? && Agrees(schema, r.kind, read) && NamesDistinct(r.relationships)
    requires ReadLoads(schema, r, read).Ok?
    ensures LoadsAs(schema, r, read, name, key)
  {
    ManyLoads(read.name, read.target, r.Related(read.name), name, key);
    RelatedNames(r, read.name, key.identity);
  }

  lemma GenericLoadsAs(schema: Schema, r: Record, read: Read, name: string, key: Key)
    requires read.Generic? && ReadLoads(schema, r, read).Ok?
    ensures LoadsAs(schema, r, read, name, key)
  {
    var named := NamedWith(r.relationships, read.prefix);
    NamedWithFacts(r.relationships, read.prefix);
    if named != [] {
      assert named == [named[0]];
    }
    if Covers(schema.writer, r, read, name) && Refers(schema, r, name, key) {
      var rel :| rel in r.relationships && rel.name == name && ValueNames(rel.value, key.identity);
      assert rel in named;
    }
  }

  /** Some relationship of the list, of this name, names the key. */
  ghost predicate ListRefers(schema: Schema, kind: string, rels: seq<Relationship>, name: string, key: Key) {
    exists rel :: rel in rels && rel.name == name && schema.target(kind, name) == Some(key.kind) && ValueNames(rel.value, key.identity)
  }

  lemma {:induction false} EachLoads(schema: Schema, kind: string, named: seq<Relationship>, name: string, key: Key)
    requires EachLoad(schema, kind, named).Ok?
    ensures Load(name, key) in EachLoad(schema, kind, named).value <==> ListRefers(schema, kind, named, name, key)
  {
    if named != [] {
      var rel, tail := named[0], named[1..];
      assert named == [rel] + tail;
      EachLoads(schema, kind, tail, name, key);
      ManyLoads(rel.name, schema.target(kind, rel.name).value, rel.value, name, key);
      if ListRefers(schema, kind, tail, name, key) {
        var other :| other in tail && other.name == name && schema.target(kind, name) == Some(key.kind) && ValueNames(other.value, key.identity);
        assert other in named;
      }
    }
  }

  lemma EachLoadsAs(schema: Schema, r: Record, read: Read, name: string, key: Key)
    requires read.Each? && ReadLoads(schema, r, read).Ok?
    ensures LoadsAs(schema, r, read, name, key)
  {
    var named := NamedWith(SortByName(r.relationships), read.prefix);
    SortByNameFacts(r.relationships);
    NamedWithFacts(SortByName(r.relationships), read.prefix);
    EachLoads(schema, r.kind, named, name, key);
    if Covers(schema.writer, r, read, name) && Refers(schema, r, name, key) {
      var rel :| rel in r.relationships && rel.name == name && ValueNames(rel.value, key.identity);
      assert rel in named;
    }
  }

  lemma FieldLoadsAs(schema: Schema, r: Record, field: string, value: Json, name: string, key: Key)
    requires NamesDistinct(r.relationships)
    requires FieldLoad(schema, r, field, value).Ok? && FieldFits(schema, r, field, value)
    ensures Load(name, key) in FieldLoad(schema, r, field, value).value <==>
              NamesField(schema.writer, r.kind, name, field) && Refers(schema, r, name, key)
  {
    match schema.writer.customField(r.kind, field) {
      case ToOne(kind) =>
        var load := CustomFieldNames.RelationshipName(field, kind, false);
        ScalarLoads(r, load, kind, name, key);
        RelatedNames(r, load, key.identity);
      case ToMany(kind) =>
        var load := CustomFieldNames.RelationshipName(field, kind, true);
        ManyLoads(load, kind, r.Related(load), name, key);
        RelatedNames(r, load, key.identity);
      case _ =>
    }
  }

  lemma {:induction false} MembersLoadAs(schema: Schema, r: Record, members: seq<(string, Json)>, name: string, key: Key)
    requires NamesDistinct(r.relationships)
    requires FieldLoads(schema, r, members).Ok? && MembersFit(schema, r, members)
    ensures Load(name, key) in FieldLoads(schema, r, members).value <==>
              Refers(schema, r, name, key) && exists member :: member in members && NamesField(schema.writer, r.kind, name, member.0)
  {
    if members != [] {
      var head, tail := members[0], members[1..];
      assert members == [head] + tail;
      assert forall i :: 0 <= i < |tail| ==> tail[i] == members[i + 1];
      FieldLoadsAs(schema, r, head.0, head.1, name, key);
      MembersLoadAs(schema, r, tail, name, key);
      if exists member :: member in tail && NamesField(schema.writer, r.kind, name, member.0) {
        var member :| member in tail && NamesField(schema.writer, r.kind, name, member.0);
        assert member in members;
      }
    }
  }

  lemma CustomLoadsAs(schema: Schema, r: Record, read: Read, name: string, key: Key)
    requires read.CustomFields? && NamesDistinct(r.relationships)
    requires ReadLoads(schema, r, read).Ok? && ReadFits(schema, r, read)
    ensures LoadsAs(schema, r, read, name, key)
  {
    if "/custom_fields" in r.attributes {
      var fields := r.attributes["/custom_fields"].members;
      MembersLoadAs(schema, r, MembersOf(fields), name, key);
      if exists member :: member in MembersOf(fields) && NamesField(schema.writer, r.kind, name, member.0) {
        var member :| member in MembersOf(fields) && NamesField(schema.writer, r.kind, name, member.0);
        assert member.0 in fields;
      }
      if exists field :: field in fields && NamesField(schema.writer, r.kind, name, field) {
        var field :| field in fields && NamesField(schema.writer, r.kind, name, field);
        MemberListed(fields, field);
        assert (field, fields[field]) in MembersOf(fields);
      }
    }
  }

  lemma ReadLoadsAs(schema: Schema, r: Record, available: set<Key>, read: Read, name: string, key: Key)
    requires Planned(schema, r, available) && NamesDistinct(r.relationships)
    requires Agrees(schema, r.kind, read) && ReadFits(schema, r, read)
    ensures LoadsAs(schema, r, read, name, key)
  {
    ReadSettled(schema, r, available, read);
    match read {
      case One(_, _) => OneLoadsAs(schema, r, read, name, key);
      case Generic(_) => GenericLoadsAs(schema, r, read, name, key);
      case Each(_) => EachLoadsAs(schema, r, read, name, key);
      case CustomFields => CustomLoadsAs(schema, r, read, name, key);
      case Many(_, _) => ManyLoadsAs(schema, r, read, name, key);
    }
  }

  lemma {:induction false} StepsLoadAs(schema: Schema, r: Record, steps: seq<Read>, name: string, key: Key)
    requires forall i :: 0 <= i < |steps| ==> LoadsAs(schema, r, steps[i], name, key)
    ensures LoadAll(schema, r, steps).Ok?
    ensures Load(name, key) in LoadAll(schema, r, steps).value <==>
              CoversAny(schema.writer, r, steps, name) && Refers(schema, r, name, key)
  {
    if steps != [] {
      var tail := steps[1..];
      assert forall i :: 0 <= i < |tail| ==> tail[i] == steps[i + 1];
      StepsLoadAs(schema, r, tail, name, key);
      CoversSplit(schema.writer, r, [steps[0]], tail, name);
      OneCovers(schema.writer, r, steps[0], name);
      assert steps == [steps[0]] + tail && LoadsAs(schema, r, steps[0], name, key);
    }
  }

  /**
   * The first pass of an accepted record whose values fit loads a key under a name exactly when it is to write
   * that name at once and the record names the key there.
   */
  lemma LoadsExactly(schema: Schema, r: Record, available: set<Key>, name: string, key: Key)
    requires TablesAgree(schema) && Planned(schema, r, available) && NamesDistinct(r.relationships)
    requires LoadsFit(schema, r)
    ensures Loads(schema, r).Ok?
    ensures Load(name, key) in Loads(schema, r).value <==>
              WrittenAtOnce(schema.writer, r, name) && Refers(schema, r, name, key)
  {
    var steps := WriteReads(schema.writer, r.kind, ManagesWireless(r));
    forall i | 0 <= i < |steps|
      ensures LoadsAs(schema, r, steps[i], name, key)
    {
      assert steps[i] in steps && ReadFits(schema, r, steps[i]);
      ReadLoadsAs(schema, r, available, steps[i], name, key);
    }
    StepsLoadAs(schema, r, steps, name, key);
    StepsCover(schema.writer, r, name);
  }

  // ---- What is selected once every record exists ----------------------------------------------

  predicate ManagesAddress(r: Record, name: string) {
    && Switched(r, "/manage_primary_ip_selectors")
    && (name == "primary_ip4" || name == "primary_ip6" || (name == "oob_ip" && r.kind == "device"))
    && (r.kind == "device" || r.kind == "virtual_device_context" || r.kind == "virtual_machine")
  }

  /** A port mapping that the record has. */
  predicate Maps(r: Record, name: string) {
    && "mapping_" <= name
    && (r.kind == "front_port" || r.kind == "front_port_template")
    && exists rel :: rel in r.relationships && rel.name == name
  }

  /** The second pass writes the relationship of this name. */
  predicate WrittenLate(r: Record, name: string) {
    || (name == "master" && r.kind == "virtual_chassis")
    || (name == "primary_mac_address" && (r.kind == "interface" || (r.kind == "vm_interface" && Switched(r, "/manage_primary_mac_selector"))))
    || ManagesAddress(r, name)
    || Maps(r, name)
  }

  predicate Selects(chosen: seq<Selector>, name: string) {
    exists s :: s in chosen && s.name == name
  }

  ghost predicate SelectorsDistinct(chosen: seq<Selector>) {
    forall i, j :: 0 <= i < j < |chosen| ==> chosen[i].name != chosen[j].name
  }

  /** A selector holds the key the record names under it, and nothing only when the record names none. */
  ghost predicate HoldsNamed(schema: Schema, r: Record, s: Selector) {
    forall key :: s.target == Some(key) <==> Refers(schema, r, s.name, key)
  }

  ghost predicate Chosen(schema: Schema, r: Record, chosen: seq<Selector>) {
    SelectorsDistinct(chosen) && forall s :: s in chosen ==> HoldsNamed(schema, r, s)
  }

  lemma ScalarChosen(schema: Schema, r: Record, name: string, target: string)
    requires ScalarTarget(schema, r.kind, name, target) && NamesDistinct(r.relationships)
    requires ScalarSelector(r, name, target).Ok?
    ensures Chosen(schema, r, ScalarSelector(r, name, target).value)
    ensures forall other :: Selects(ScalarSelector(r, name, target).value, other) <==> other == name
  {
    var chosen := ScalarSelector(r, name, target).value;
    forall key
      ensures chosen[0].target == Some(key) <==> Refers(schema, r, name, key)
    {
      RelatedNames(r, name, key.identity);
    }
    assert chosen[0] in chosen;
  }

  lemma BothChosen(schema: Schema, r: Record, a: seq<Selector>, b: seq<Selector>)
    requires Chosen(schema, r, a) && Chosen(schema, r, b)
    requires forall name :: !(Selects(a, name) && Selects(b, name))
    ensures Chosen(schema, r, a + b)
    ensures forall name :: Selects(a + b, name) <==> Selects(a, name) || Selects(b, name)
  {
    forall i, j | 0 <= i < j < |a + b|
      ensures (a + b)[i].name != (a + b)[j].name
    {
      if i < |a| <= j {
        assert Selects(a, a[i].name) && Selects(b, b[j - |a|].name);
      }
    }
    forall name
      ensures Selects(a + b, name) <==> Selects(a, name) || Selects(b, name)
    {
      if Selects(a, name) {
        var s :| s in a && s.name == name;
        assert s in a + b;
      }
      if Selects(b, name) {
        var s :| s in b && s.name == name;
        assert s in a + b;
      }
    }
  }

  lemma AddressesChosen(schema: Schema, r: Record)
    requires ScalarTarget(schema, r.kind, "primary_ip4", "ip_address") && ScalarTarget(schema, r.kind, "primary_ip6", "ip_address")
    requires NamesDistinct(r.relationships) && AddressSelectors(r).Ok?
    ensures Chosen(schema, r, AddressSelectors(r).value)
    ensures forall name :: Selects(AddressSelectors(r).value, name) <==>
              Switched(r, "/manage_primary_ip_selectors") && (name == "primary_ip4" || name == "primary_ip6")
  {
    if ManagesAddresses(r) {
      ScalarChosen(schema, r, "primary_ip4", "ip_address");
      ScalarChosen(schema, r, "primary_ip6", "ip_address");
      assert "primary_ip4"[10] != "primary_ip6"[10];
      BothChosen(schema, r, ScalarSelector(r, "primary_ip4", "ip_address").value, ScalarSelector(r, "primary_ip6", "ip_address").value);
    }
  }

  lemma DeviceChosen(schema: Schema, r: Record)
    requires TablesAgree(schema) && r.kind == "device"
    requires NamesDistinct(r.relationships) && Selectors(schema, r).Ok?
    ensures Chosen(schema, r, Selectors(schema, r).value)
    ensures forall name :: Selects(Selectors(schema, r).value, name) <==> ManagesAddress(r, name)
  {
    AddressesChosen(schema, r);
    if ManagesAddresses(r) {
      ScalarChosen(schema, r, "oob_ip", "ip_address");
      BothChosen(schema, r, AddressSelectors(r).value, ScalarSelector(r, "oob_ip", "ip_address").value);
    } else {
      BothChosen(schema, r, AddressSelectors(r).value, []);
    }
  }

  lemma {:induction false} MappingsChosen(schema: Schema, r: Record, rels: seq<Relationship>, target: string)
    requires forall name: string :: "mapping_" <= name ==> ScalarTarget(schema, r.kind, name, target)
    requires NamesDistinct(r.relationships) && NamesDistinct(rels)
    requires forall rel :: rel in rels ==> rel in r.relationships
    requires Mappings(schema, rels, target).Ok?
    ensures Chosen(schema, r, Mappings(schema, rels, target).value)
    ensures forall name :: Selects(Mappings(schema, rels, target).value, name) <==>
              "mapping_" <= name && exists rel :: rel in rels && rel.name == name
  {
    if rels != [] {
      var head, tail := rels[0], rels[1..];
      assert rels == [head] + tail;
      MappingsChosen(schema, r, tail, target);
      if "mapping_" <= head.name {
        assert ScalarTarget(schema, r.kind, head.name, target);
        LookupFinds(r.relationships, head);
        ScalarChosen(schema, r, head.name, target);
        BothChosen(schema, r, ScalarSelector(r, head.name, target).value, Mappings(schema, tail, target).value);
      }
    }
  }

  /**
   * The second pass selects, each once, exactly the names it is to write, and each holds the key the record
   * names under it, or nothing when the record names none.
   */
  lemma SelectorsExactly(schema: Schema, r: Record)
    requires TablesAgree(schema) && NamesDistinct(r.relationships)
    requires Selectors(schema, r).Ok?
    ensures Chosen(schema, r, Selectors(schema, r).value)
    ensures forall name :: Selects(Selectors(schema, r).value, name) <==> WrittenLate(r, name)
  {
    match r.kind {
      case "virtual_chassis" => ScalarChosen(schema, r, "master", "device");
      case "interface" => ScalarChosen(schema, r, "primary_mac_address", "mac_address");
      case "vm_interface" =>
        if Switched(r, "/manage_primary_mac_selector") {
          ScalarChosen(schema, r, "primary_mac_address", "mac_address");
        }
      case "device" => DeviceChosen(schema, r);
      case "virtual_device_context" => AddressesChosen(schema, r);
      case "virtual_machine" => AddressesChosen(schema, r);
      case "front_port" => MappingsChosen(schema, r, r.relationships, "rear_port");
      case "front_port_template" => MappingsChosen(schema, r, r.relationships, "rear_port_template");
      case _ =>
    }
  }
}
