/**
 * When an apply goes through, told from the items, the two loads of NetBox and the relationships of the records:
 * what readiness asks for, and which values the two passes of the writer take.
 */
module ApplyConditions {
  import opened Prelude
  import opened KeyOrder
  import opened ApplicationPlanning
  import opened RecordWrites
  import opened MutationBackend
  import opened NetBoxSnapshot
  import opened ApplicationService
  import opened WriteEffects
  import opened PlanningEffects
  import opened ApplyEffects
  import CustomFieldNames

  // ---- Readiness --------------------------------------------------------------------------------

  /** An item that is settled, or an object of NetBox, has this key. */
  predicate Present(items: seq<Item>, found: seq<Target>, key: Key) {
    || (exists item :: item in items && Settles(item) && item.record.kind == key.kind && item.record.identity == key.identity)
    || (exists t :: t in found && Has(t, key))
  }

  /** The record refers to this key, now or later, or fills the custom field that has it. */
  ghost predicate Mentions(schema: Schema, r: Record, key: Key) {
    ListNames(schema, r.kind, r.relationships, true, key) || FillsField(schema, r, key)
  }

  ghost predicate NothingMissing(schema: Schema, items: seq<Item>, found: seq<Target>) {
    forall item, key :: item in items && Mentions(schema, item.record, key) ==> Present(items, found, key)
  }

  lemma {:induction false} SettledRecords(items: seq<Item>, r: Record)
    ensures r in ApplyRecords(items) <==> exists item :: item in items && Settles(item) && item.record == r
  {
    if items != [] {
      var head := if Applies(items[0]) then [items[0].record] else [];
      SettledRecords(items[1..], r);
      assert items == [items[0]] + items[1..];
      assert ApplyRecords(items) == head + ApplyRecords(items[1..]);
      if item :| item in items && Settles(item) && item.record == r {
        assert item == items[0] || item in items[1..];
      }
    }
  }

  lemma PresentExactly(items: seq<Item>, found: seq<Target>, key: Key)
    ensures Present(items, found, key) <==> key in KeysOf(ApplyRecords(items)) || key in ByIdentity(found)
  {
    KeyedFinds(found, key);
    if item :| item in items && Settles(item) && item.record.kind == key.kind && item.record.identity == key.identity {
      SettledRecords(items, item.record);
      assert item.record.RecordKey() == key;
    }
    if key in KeysOf(ApplyRecords(items)) {
      var r :| r in ApplyRecords(items) && r.RecordKey() == key;
      SettledRecords(items, r);
    }
  }

  lemma MentionsExactly(schema: Schema, r: Record, key: Key)
    requires Dependencies(schema, r, false).Ok?
    ensures key in AllKeys(schema, r) <==> Mentions(schema, r, key)
  {
    DeferralOnlyHidesKeys(schema, r);
    KeysExactly(schema, r, true, key);
  }

  lemma MissingExactly(schema: Schema, items: seq<Item>, found: seq<Target>)
    requires forall r :: r in ApplyRecords(items) ==> Dependencies(schema, r, false).Ok?
    requires Settling(items)
    ensures MissingKeys(schema, ApplyRecords(items), ByIdentity(found)) == {} <==> NothingMissing(schema, items, found)
  {
    var records, missing := ApplyRecords(items), MissingKeys(schema, ApplyRecords(items), ByIdentity(found));
    forall item, key | item in items
      ensures item.record in records
      ensures Mentions(schema, item.record, key) && !Present(items, found, key) ==> key in missing
    {
      SettledRecords(items, item.record);
      MentionsExactly(schema, item.record, key);
      PresentExactly(items, found, key);
    }
    if NothingMissing(schema, items, found) && missing != {} {
      var key :| key in missing;
      var r :| r in records && key in AllKeys(schema, r) && key !in KeysOf(records) && key !in ByIdentity(found);
      SettledRecords(items, r);
      MentionsExactly(schema, r, key);
      PresentExactly(items, found, key);
      assert false;
    }
  }

  /**
   * A comparison is ready exactly if NetBox holds under every identity what it held when the comparison was made, no
   * item conflicts or was skipped, the records of the plan have an order, and nothing they refer to is missing.
   */
  lemma ReadyExactly(schema: Schema, items: seq<Item>, snapshot: seq<Target>, found: seq<Target>)
    ensures ApplicationService.Ready(schema, items, snapshot, found) <==>
              && (forall key :: SameUnder(snapshot, found, key))
              && (forall item :: item in items ==> item.action in {Action.Create, Action.Update, NoChange})
              && OrderedRecords(schema, ApplyRecords(items)).Ok?
              && NothingMissing(schema, items, found)
  {
    DigestExactly(snapshot, found);
    assert Settling(items) <==> forall item :: item in items ==> item.action in {Action.Create, Action.Update, NoChange};
    if Settling(items) && OrderedRecords(schema, ApplyRecords(items)).Ok? {
      OrderSound(schema, ApplyRecords(items), OrderedRecords(schema, ApplyRecords(items)).value);
      MissingExactly(schema, items, found);
    }
  }

  // ---- Values the first pass takes --------------------------------------------------------------

  /** The relationship name reads as one of this custom field. */
  predicate Belongs(w: Writer, rel: Relationship, field: string) {
    w.parse(rel.name).Some? && w.parse(rel.name).value.field == field
  }

  ghost predicate NoneBelongs(w: Writer, r: Record, field: string) {
    forall rel :: rel in r.relationships ==> !Belongs(w, rel, field)
  }

  ghost predicate OnlyBelongs(w: Writer, r: Record, field: string, name: string) {
    forall rel :: rel in r.relationships && Belongs(w, rel, field) ==> rel.name == name
  }

  /** Whatever the record has under this name is nothing, or one identity of the kind. */
  ghost predicate HoldsOne(schema: Schema, r: Record, name: string, kind: string) {
    forall rel :: rel in r.relationships && rel.name == name ==>
                    rel.value == Null || rel.value == Text("") || (NamesOne(rel.value) && schema.target(r.kind, name) == Some(kind))
  }

  /** Whatever the record has under this name is nothing, or a list of the kind. */
  ghost predicate HoldsMany(schema: Schema, r: Record, name: string, kind: string) {
    forall rel :: rel in r.relationships && rel.name == name ==>
                    Unset(rel.value) || (rel.value.List? && schema.target(r.kind, name) == Some(kind))
  }

  /** A custom field is taken if it is defined and the relationships that belong to it are those of its type. */
  ghost predicate FieldTaken(schema: Schema, r: Record, field: string, value: Json) {
    var w := schema.writer;
    match w.customField(r.kind, field)
    case Undefined => false
    case Plain => NoneBelongs(w, r, field)
    case Untargeted => Unset(value) && NoneBelongs(w, r, field)
    case ToOne(kind) =>
      var name := "custom_field_object_" + kind + "_" + field;
      OnlyBelongs(w, r, field, name) && HoldsOne(schema, r, name, kind)
    case ToMany(kind) =>
      var name := "custom_field_multi_" + kind + "_" + field;
      OnlyBelongs(w, r, field, name) && HoldsMany(schema, r, name, kind)
  }

  ghost predicate FieldsTaken(schema: Schema, r: Record) {
    r.kind in schema.writer.customized && "/custom_fields" in r.attributes ==>
      && r.attributes["/custom_fields"].Object?
      && var fields := r.attributes["/custom_fields"].members;
         forall field :: field in fields ==> FieldTaken(schema, r, field, fields[field])
  }

  /** No scalar field holds an empty list. */
  ghost predicate ScalarsTaken(w: Writer, r: Record) {
    forall rel :: rel in r.relationships && FieldName(w, r.kind, rel.name) ==> rel.value != List([])
  }

  /** The generic target is named at most once, and not left empty. */
  ghost predicate GenericTaken(r: Record) {
    && (forall i, j :: 0 <= i < j < |r.relationships| ==>
          !(GenericName(r.kind, r.relationships[i].name) && GenericName(r.kind, r.relationships[j].name)))
    && (forall rel :: rel in r.relationships && GenericName(r.kind, rel.name) ==> !Unset(rel.value))
  }

  lemma AllFitMembers(schema: Schema, r: Record, steps: seq<Read>)
    ensures AllFit(schema, r, steps) <==> forall read :: read in steps ==> ReadFits(schema, r, read)
  {
    if forall read :: read in steps ==> ReadFits(schema, r, read) {
      forall i | 0 <= i < |steps|
        ensures ReadFits(schema, r, steps[i])
      {
        assert steps[i] in steps;
      }
    }
  }

  lemma AllFitSplit(schema: Schema, r: Record, a: seq<Read>, b: seq<Read>)
    ensures AllFit(schema, r, a + b) <==> AllFit(schema, r, a) && AllFit(schema, r, b)
  {
    AllFitMembers(schema, r, a);
    AllFitMembers(schema, r, b);
    AllFitMembers(schema, r, a + b);
  }

  lemma AllFitOne(schema: Schema, r: Record, read: Read)
    ensures AllFit(schema, r, [read]) <==> ReadFits(schema, r, read)
  {
    assert [read][0] == read;
  }

  lemma RelatedIs(r: Record, name: string, value: Json)
    requires NamesDistinct(r.relationships) && value != Null
    ensures r.Related(name) == value <==> exists rel :: rel in r.relationships && rel.name == name && rel.value == value
  {
    if rel :| rel in r.relationships && rel.name == name && rel.value == value {
      LookupFinds(r.relationships, rel);
    }
    if r.Related(name) == value {
      assert Relationship(name, value) in r.relationships;
    }
  }

  lemma {:induction false} FieldsFitOnes(schema: Schema, r: Record, fields: seq<(string, string)>)
    ensures AllFit(schema, r, FieldReads(r.kind, fields)) <==>
              forall field :: field in fields && !Late(r.kind, field.0) ==> r.Related(field.0) != List([])
  {
    if fields != [] {
      var head := if DeferredWrite(r.kind, fields[0].0) then [] else [One(fields[0].0, fields[0].1)];
      assert DeferredWrite(r.kind, fields[0].0) <==> Late(r.kind, fields[0].0);
      FieldsFitOnes(schema, r, fields[1..]);
      AllFitSplit(schema, r, head, FieldReads(r.kind, fields[1..]));
      AllFitOne(schema, r, One(fields[0].0, fields[0].1));
      assert fields == [fields[0]] + fields[1..];
    }
  }

  lemma ScalarsExactly(schema: Schema, r: Record)
    requires NamesDistinct(r.relationships)
    ensures AllFit(schema, r, FieldReads(r.kind, schema.writer.fields(r.kind))) <==> ScalarsTaken(schema.writer, r)
  {
    var w := schema.writer;
    FieldsFitOnes(schema, r, w.fields(r.kind));
    forall name
      ensures r.Related(name) == List([]) <==> exists rel :: rel in r.relationships && rel.name == name && rel.value == List([])
    {
      RelatedIs(r, name, List([]));
    }
  }

  lemma GenericFitsExactly(rels: seq<Relationship>, prefix: string)
    ensures GenericFits(rels, prefix) <==>
              && (forall i, j :: 0 <= i < j < |rels| ==> !(prefix <= rels[i].name && prefix <= rels[j].name))
              && (forall rel :: rel in rels && prefix <= rel.name ==> !Unset(rel.value))
  {
    var indices := Indices(rels, prefix);
    CountNamedExactly(rels, prefix);
    if |indices| <= 1 {
      forall i, j | 0 <= i < j < |rels|
        ensures !(prefix <= rels[i].name && prefix <= rels[j].name)
      {
        if prefix <= rels[i].name && prefix <= rels[j].name {
          SubsetCardinality({i, j}, indices);
        }
      }
    }
    if forall i, j :: 0 <= i < j < |rels| ==> !(prefix <= rels[i].name && prefix <= rels[j].name) {
      if i :| i in indices {
        SubsetCardinality(indices, {i});
      }
    }
  }

  lemma GenericExactly(schema: Schema, r: Record)
    ensures AllFit(schema, r, GenericReads(r.kind)) <==> GenericTaken(r)
  {
    var steps := GenericReads(r.kind);
    forall name
      ensures r.kind != "cable" ==> OneGeneric(r.kind, name)
      ensures r.kind == "cable" ==> !GenericName(r.kind, name)
    {
      if r.kind == "cable" {
        CableReadsCover(schema.writer, r, name);
      } else {
        KindGeneric(r.kind, name);
      }
    }
    if r.kind == "cable" {
      assert steps == [Each("termination_a_"), Each("termination_b_")];
      AllFitMembers(schema, r, steps);
    } else if steps == [] {
      assert OneGeneric(r.kind, "");
    } else {
      assert OneGeneric(r.kind, "");
      var prefix := steps[0].prefix;
      assert steps == [Generic(prefix)];
      AllFitOne(schema, r, Generic(prefix));
      GenericFitsExactly(r.relationships, prefix);
      forall rel | rel in r.relationships
        ensures GenericName(r.kind, rel.name) <==> prefix <= rel.name
      {
        assert OneGeneric(r.kind, rel.name);
      }
    }
  }

  lemma ListsFit(schema: Schema, r: Record, wireless: bool)
    ensures AllFit(schema, r, ListReads(schema.writer, r.kind) + LastReads(schema.writer, r.kind, wireless))
  {
    var steps := ListReads(schema.writer, r.kind) + LastReads(schema.writer, r.kind, wireless);
    forall i | 0 <= i < |steps|
      ensures steps[i].Many?
    {
    }
  }

  lemma FieldExactly(schema: Schema, r: Record, field: string, value: Json)
    requires NamesDistinct(r.relationships)
    ensures FieldFits(schema, r, field, value) <==> FieldTaken(schema, r, field, value)
  {
    var w := schema.writer;
    UnrelatedExactly(w, r, field);
    match w.customField(r.kind, field) {
      case ToOne(kind) =>
        var name := CustomFieldNames.RelationshipName(field, kind, false);
        HoldsOneExactly(schema, r, name, kind);
        OnlyNamedExactly(w, r, field, name);
      case ToMany(kind) =>
        var name := CustomFieldNames.RelationshipName(field, kind, true);
        HoldsManyExactly(schema, r, name, kind);
        OnlyNamedExactly(w, r, field, name);
      case _ =>
    }
  }

  lemma OnlyNamedExactly(w: Writer, r: Record, field: string, name: string)
    ensures OnlyNamed(w, r.relationships, field, name) <==> OnlyBelongs(w, r, field, name)
  {
    forall i | 0 <= i < |r.relationships|
      ensures r.relationships[i] in r.relationships
      ensures OfField(w, r.relationships[i].name, field) <==> Belongs(w, r.relationships[i], field)
    {
    }
  }

  lemma UnrelatedExactly(w: Writer, r: Record, field: string)
    ensures Unrelated(w, r.relationships, field) <==> NoneBelongs(w, r, field)
  {
    forall i | 0 <= i < |r.relationships|
      ensures r.relationships[i] in r.relationships
      ensures OfField(w, r.relationships[i].name, field) <==> Belongs(w, r.relationships[i], field)
    {
    }
  }

  lemma HoldsOneExactly(schema: Schema, r: Record, name: string, kind: string)
    requires NamesDistinct(r.relationships)
    ensures OneFits(schema, r, name, kind) <==> HoldsOne(schema, r, name, kind)
  {
    forall rel | rel in r.relationships && rel.name == name
      ensures r.Related(name) == rel.value
    {
      LookupFinds(r.relationships, rel);
    }
    if r.Related(name) != Null {
      RelatedIs(r, name, r.Related(name));
    }
  }

  lemma HoldsManyExactly(schema: Schema, r: Record, name: string, kind: string)
    requires NamesDistinct(r.relationships)
    ensures ManyFits(schema, r, name, kind) <==> HoldsMany(schema, r, name, kind)
  {
    forall rel | rel in r.relationships && rel.name == name
      ensures r.Related(name) == rel.value
    {
      LookupFinds(r.relationships, rel);
    }
    if r.Related(name) != Null {
      RelatedIs(r, name, r.Related(name));
    }
  }

  lemma FieldsExactly(schema: Schema, r: Record)
    requires NamesDistinct(r.relationships)
    ensures AllFit(schema, r, CustomReads(schema.writer, r.kind)) <==> FieldsTaken(schema, r)
  {
    if r.kind in schema.writer.customized {
      AllFitOne(schema, r, CustomFields);
      if "/custom_fields" in r.attributes && r.attributes["/custom_fields"].Object? {
        MembersExactly(schema, r, r.attributes["/custom_fields"].members);
      }
    }
  }

  lemma MembersExactly(schema: Schema, r: Record, fields: map<string, Json>)
    requires NamesDistinct(r.relationships)
    ensures MembersFit(schema, r, MembersOf(fields)) <==> forall field :: field in fields ==> FieldTaken(schema, r, field, fields[field])
  {
    var members := MembersOf(fields);
    forall field | field in fields
      ensures (field, fields[field]) in members && (FieldFits(schema, r, field, fields[field]) <==> FieldTaken(schema, r, field, fields[field]))
    {
      MemberListed(fields, field);
      FieldExactly(schema, r, field, fields[field]);
    }
    if MembersFit(schema, r, members) {
      forall field | field in fields
        ensures FieldTaken(schema, r, field, fields[field])
      {
        var i :| 0 <= i < |members| && members[i] == (field, fields[field]);
      }
    }
    forall i | 0 <= i < |members|
      ensures members[i].0 in fields && fields[members[i].0] == members[i].1
    {
      assert members[i] in members;
    }
  }

  lemma FirstPassExactly(schema: Schema, r: Record)
    requires NamesDistinct(r.relationships)
    ensures LoadsFit(schema, r) <==> ScalarsTaken(schema.writer, r) && GenericTaken(r) && FieldsTaken(schema, r)
  {
    var w := schema.writer;
    var fields, generic, custom := FieldReads(r.kind, w.fields(r.kind)), GenericReads(r.kind), CustomReads(w, r.kind);
    var lists := ListReads(w, r.kind) + LastReads(w, r.kind, ManagesWireless(r));
    StepsSplit(w, r.kind, ManagesWireless(r));
    AllFitSplit(schema, r, fields + generic + custom, lists);
    AllFitSplit(schema, r, fields + generic, custom);
    AllFitSplit(schema, r, fields, generic);
    ScalarsExactly(schema, r);
    GenericExactly(schema, r);
    FieldsExactly(schema, r);
    ListsFit(schema, r, ManagesWireless(r));
  }

  // ---- Values the second pass takes -------------------------------------------------------------

  /** A selector that is managed holds no empty list, and a port mapping has its positions and a target. */
  ghost predicate LateTaken(schema: Schema, r: Record) {
    && (forall rel :: rel in r.relationships && Maps(r, rel.name) ==> schema.portMapping(rel.name).Some? && !Unset(rel.value))
    && (forall rel :: rel in r.relationships && WrittenLate(r, rel.name) && !Maps(r, rel.name) ==> rel.value != List([]))
  }

  /** One managed selector holds no empty list exactly if no relationship of its name does. */
  ghost predicate NotEmpty(r: Record, name: string) {
    forall rel :: rel in r.relationships && rel.name == name ==> rel.value != List([])
  }

  lemma SelectorTaken(r: Record, name: string)
    requires NamesDistinct(r.relationships)
    ensures ScalarFits(r, name) <==> NotEmpty(r, name)
  {
    RelatedIs(r, name, List([]));
  }

  predicate Addressed(kind: string) {
    kind == "device" || kind == "virtual_device_context" || kind == "virtual_machine"
  }

  /** Of a kind with addresses exactly these names are written late. */
  lemma AddressNames(r: Record, name: string)
    requires Addressed(r.kind)
    ensures WrittenLate(r, name) <==> ManagesAddress(r, name)
    ensures !Maps(r, name)
  {
  }

  lemma AddressesTaken(schema: Schema, r: Record)
    requires NamesDistinct(r.relationships) && Addressed(r.kind)
    ensures DeferredFits(schema, r) <==> LateTaken(schema, r)
  {
    SelectorTaken(r, "primary_ip4");
    SelectorTaken(r, "primary_ip6");
    SelectorTaken(r, "oob_ip");
    forall rel | rel in r.relationships
      ensures (WrittenLate(r, rel.name) <==> ManagesAddress(r, rel.name)) && !Maps(r, rel.name)
    {
      AddressNames(r, rel.name);
    }
    assert LateTaken(schema, r) <==> forall rel :: rel in r.relationships && ManagesAddress(r, rel.name) ==> rel.value != List([]);
    assert ManagesAddresses(r) <==> Switched(r, "/manage_primary_ip_selectors");
    AddressesAsNamed(schema, r);
  }

  lemma AddressesAsNamed(schema: Schema, r: Record)
    requires Addressed(r.kind)
    ensures DeferredFits(schema, r) <==>
              (Switched(r, "/manage_primary_ip_selectors") ==>
                 && ScalarFits(r, "primary_ip4") && ScalarFits(r, "primary_ip6")
                 && (r.kind == "device" ==> ScalarFits(r, "oob_ip")))
  {
  }

  lemma MappingsTaken(schema: Schema, r: Record)
    requires r.kind == "front_port" || r.kind == "front_port_template"
    ensures DeferredFits(schema, r) <==> LateTaken(schema, r)
  {
    assert DeferredFits(schema, r) <==> MappingsFit(schema, r.relationships);
    forall i | 0 <= i < |r.relationships|
      ensures Maps(r, r.relationships[i].name) <==> "mapping_" <= r.relationships[i].name
    {
      assert r.relationships[i] in r.relationships;
    }
  }

  lemma SecondPassExactly(schema: Schema, r: Record)
    requires NamesDistinct(r.relationships)
    ensures DeferredFits(schema, r) <==> LateTaken(schema, r)
  {
    if Addressed(r.kind) {
      AddressesTaken(schema, r);
    } else if r.kind == "front_port" || r.kind == "front_port_template" {
      MappingsTaken(schema, r);
    } else {
      SelectorTaken(r, "master");
      SelectorTaken(r, "primary_mac_address");
    }
  }

  /** Each part of the record is as the writer takes it. */
  ghost predicate Taken(schema: Schema, r: Record) {
    ScalarsTaken(schema.writer, r) && GenericTaken(r) && FieldsTaken(schema, r) && LateTaken(schema, r)
  }

  /** Both passes take a record exactly if each part of it is as it should be. */
  lemma FitsSays(schema: Schema, r: Record)
    requires NamesDistinct(r.relationships)
    ensures Fits(schema, r) <==> Taken(schema, r)
  {
    FirstPassExactly(schema, r);
    SecondPassExactly(schema, r);
  }

  /** The values of a comparison fit exactly if the writer takes every record it creates or updates. */
  lemma ValuesExactly(schema: Schema, items: seq<Item>)
    requires Proper(items)
    ensures ValuesFit(schema, items) <==>
              forall item :: item in items && (item.action == Action.Create || item.action == Action.Update) ==> Taken(schema, item.record)
  {
    forall item | item in items
      ensures Fits(schema, item.record) <==> Taken(schema, item.record)
    {
      FitsSays(schema, item.record);
    }
  }
}
