/**
 * What a successful apply has saved, told from the reviewed items and from NetBox as it was found: the object, the
 * content, the links and the late selectors of every create and update, and the object of every item.
 */
module ApplyEffects {
  import opened Prelude
  import opened KeyOrder
  import opened ApplicationPlanning
  import opened RecordWrites
  import opened MutationBackend
  import opened NetBoxSnapshot
  import opened ApplicationService
  import opened WriteEffects
  import CanonicalDiff
  import ComparisonDrafts
  import PlanningEffects

  predicate Has(t: Target, key: Key) {
    t.content.kind == key.kind && t.content.identity == key.identity
  }

  /** The object a key denotes: the one NetBox has, or else the one created under the key. */
  ghost predicate Denotes(found: seq<Target>, key: Key, handle: Handle) {
    || (exists t :: t in found && Has(t, key) && handle == Loaded(t.reference))
    || (handle == Created(key) && forall t :: t in found ==> !Has(t, key))
  }

  /** The record names some key of this object under this relationship. */
  ghost predicate Points(schema: Schema, found: seq<Target>, r: Record, name: string, handle: Handle) {
    exists key :: Refers(schema, r, name, key) && Denotes(found, key, handle)
  }

  /** A create makes an object of its own and an update keeps the reviewed one; what is linked is what the record names. */
  ghost predicate RowSaved(schema: Schema, found: seq<Target>, item: Item, row: Row) {
    && row.content == item.record
    && row.handle == (if item.action == Create then Created(Key(item.record.kind, item.record.identity)) else Loaded(item.reviewed))
    && forall name, handle ::
         Link(name, handle) in row.links <==> WrittenAtOnce(schema.writer, item.record, name) && Points(schema, found, item.record, name, handle)
  }

  /** The late selectors are those the record manages, each of them the object the record names or cleared. */
  ghost predicate SelectorsSaved(schema: Schema, found: seq<Target>, item: Item, row: map<string, Option<Handle>>) {
    && (forall name :: name in row <==> WrittenLate(item.record, name))
    && (forall name, handle :: name in row ==> (row[name] == Some(handle) <==> Points(schema, found, item.record, name, handle)))
  }

  ghost predicate ItemSaved(schema: Schema, found: seq<Target>, item: Item, applied: Applied) {
    var k := Key(item.record.kind, item.record.identity);
    && k in applied.rows && RowSaved(schema, found, item, applied.rows[k])
    && k in applied.selected && SelectorsSaved(schema, found, item, applied.selected[k])
  }

  predicate Mutates(item: Item, key: Key) {
    item.action in {Action.Create, Action.Update} && item.record.kind == key.kind && item.record.identity == key.identity
  }

  predicate Settles(item: Item) {
    item.action in {Action.Create, Action.Update, NoChange}
  }

  /** Nothing else is saved, and every settled item has the object of its key. */
  ghost predicate NothingElse(items: seq<Item>, found: seq<Target>, applied: Applied) {
    && (forall k :: k in applied.rows || k in applied.selected ==> exists item :: item in items && Mutates(item, k))
    && (forall item :: item in items && Settles(item) ==>
          item.pk in applied.objects && Denotes(found, Key(item.record.kind, item.record.identity), applied.objects[item.pk]))
    && (forall pk :: pk in applied.objects ==> exists item :: item in items && Settles(item) && item.pk == pk)
  }

  /** The i-th write names a reviewed key, other than where the name may close a cycle. */
  ghost predicate Precedes(schema: Schema, items: seq<Item>, writes: seq<Record>, i: nat, name: string, key: Key) {
    && i < |writes| && Refers(schema, writes[i], name, key) && !Late(writes[i].kind, name) && !("mapping_" <= name)
    && exists item :: item in items && Mutates(item, key)
  }

  ghost predicate WrittenBefore(writes: seq<Record>, i: nat, key: Key) {
    exists j :: 0 <= j < i && j < |writes| && writes[j].kind == key.kind && writes[j].identity == key.identity
  }

  /** What a record names is written before the record. */
  ghost predicate InOrder(schema: Schema, items: seq<Item>, writes: seq<Record>) {
    forall i: nat, name, key :: Precedes(schema, items, writes, i, name, key) ==> WrittenBefore(writes, i, key)
  }

  ghost predicate Saved(schema: Schema, items: seq<Item>, found: seq<Target>, applied: Applied) {
    && (forall item :: item in items && item.action in {Action.Create, Action.Update} ==> ItemSaved(schema, found, item, applied))
    && NothingElse(items, found, applied)
    && InOrder(schema, items, applied.writes)
  }

  /** Items have primary keys, and relationships are mappings. */
  ghost predicate Proper(items: seq<Item>) {
    && (forall i, j :: 0 <= i < j < |items| ==> items[i].pk != items[j].pk)
    && (forall item :: item in items ==> NamesDistinct(item.record.relationships))
  }

  // ---- The object behind a key ----------------------------------------------------------------

  lemma {:induction false} KeyedFinds(targets: seq<Target>, key: Key)
    ensures key in Keyed(targets) <==> exists t :: t in targets && Has(t, key)
    ensures key in Keyed(targets) ==> Keyed(targets)[key] in targets && Has(Keyed(targets)[key], key)
  {
    if targets != [] {
      assert targets == [targets[0]] + targets[1..];
      KeyedFinds(targets[1..], key);
      assert KeyOf(targets[0]) == key <==> Has(targets[0], key);
      if t :| t in targets && Has(t, key) {
        assert t == targets[0] || t in targets[1..];
      }
    }
  }

  lemma OneTarget(targets: seq<Target>, a: Target, b: Target, key: Key)
    requires OneEach(targets) && a in targets && b in targets && Has(a, key) && Has(b, key)
    ensures a == b
  {
    var i :| 0 <= i < |targets| && targets[i] == a;
    var j :| 0 <= j < |targets| && targets[j] == b;
    assert KeysIn(targets)[i] == KeysIn(targets)[j] == key;
  }

  /** The object a plan takes for a key is the one the key denotes. */
  lemma HandleDenotes(plan: Plan, found: seq<Target>, key: Key, handle: Handle)
    requires plan.target == ByIdentity(found) && OneEach(found)
    ensures Denotes(found, key, handle) <==> handle == plan.HandleOf(key)
  {
    KeyedFinds(found, key);
    if key in plan.target {
      forall t | t in found && Has(t, key)
        ensures t == plan.target[key]
      {
        OneTarget(found, t, plan.target[key], key);
      }
    }
  }

  lemma {:induction false} LinksOfLoads(plan: Plan, loads: seq<Load>, name: string, handle: Handle)
    ensures Link(name, handle) in plan.LinksOf(loads) <==> exists key :: Load(name, key) in loads && handle == plan.HandleOf(key)
  {
    if loads != [] {
      var n := |loads| - 1;
      assert loads == loads[..n] + [loads[n]];
      LinksOfLoads(plan, loads[..n], name, handle);
    }
  }

  predicate SelectorHeld(plan: Plan, s: Selector, row: map<string, Option<Handle>>) {
    s.name in row && row[s.name] == (if s.target.None? then None else Some(plan.HandleOf(s.target.value)))
  }

  lemma {:induction false} SelectorRowHolds(plan: Plan, chosen: seq<Selector>)
    requires SelectorsDistinct(chosen)
    ensures forall name :: name in plan.SelectorRow(chosen) <==> Selects(chosen, name)
    ensures forall s :: s in chosen ==> SelectorHeld(plan, s, plan.SelectorRow(chosen))
  {
    if chosen != [] {
      var n := |chosen| - 1;
      var init, last := chosen[..n], chosen[n];
      assert chosen == init + [last];
      SelectorRowHolds(plan, init);
      forall s | s in init
        ensures s.name != last.name
      {
        var i :| 0 <= i < n && init[i] == s;
        assert chosen[i].name != chosen[n].name;
      }
    }
  }

  lemma ObjectsForLast(plan: Plan, init: seq<Item>, last: Item)
    ensures plan.ObjectsFor(init + [last]) ==
            if Settles(last) then plan.ObjectsFor(init)[last.pk := plan.HandleOf(Key(last.record.kind, last.record.identity))]
            else plan.ObjectsFor(init)
  {
    assert (init + [last])[..|init|] == init;
  }

  lemma {:induction false} ObjectsForHold(plan: Plan, items: seq<Item>)
    requires forall i, j :: 0 <= i < j < |items| ==> items[i].pk != items[j].pk
    ensures forall pk :: pk in plan.ObjectsFor(items) <==> exists item :: item in items && Settles(item) && item.pk == pk
    ensures forall item :: item in items && Settles(item) ==>
              item.pk in plan.ObjectsFor(items) && plan.ObjectsFor(items)[item.pk] == plan.HandleOf(Key(item.record.kind, item.record.identity))
  {
    if items != [] {
      var n := |items| - 1;
      var init, last := items[..n], items[n];
      EndsWithLast(items);
      ObjectsForHold(plan, init);
      ObjectsForLast(plan, init, last);
      forall item | item in init
        ensures item.pk != last.pk
      {
        var i :| 0 <= i < n && init[i] == item;
        assert items[i].pk != items[n].pk;
      }
    }
  }

  // ---- What an apply that conforms to its plan has saved ---------------------------------------

  /** A successful transaction, over items and relationships that are what their types say. */
  ghost predicate Succeeded(schema: Schema, items: seq<Item>, found: seq<Target>, applied: Applied) {
    && Sane(schema, items, ByIdentity(found)) && Settling(items) && Orderly(schema, items, ByIdentity(found))
    && Goes(schema, items, ByIdentity(found)) && OneEach(found) && Proper(items)
    && Conforms(PlanFor(schema, items, ByIdentity(found)), items, applied)
  }

  lemma {:induction false} CountedOnce(items: seq<Item>, a: Item, b: Item, key: Key)
    requires a in items && b in items && a.record.RecordKey() == key == b.record.RecordKey()
    requires CountKey(items, key) == 1
    ensures a == b
  {
    assert items == [items[0]] + items[1..];
    if a in items[1..] && b in items[1..] && items[0].record.RecordKey() != key {
      CountedOnce(items[1..], a, b, key);
    } else {
      if a in items[1..] {
        CountsSome(items[1..], a);
      }
      if b in items[1..] {
        CountsSome(items[1..], b);
      }
    }
  }

  lemma {:induction false} CountsSome(items: seq<Item>, item: Item)
    requires item in items
    ensures CountKey(items, item.record.RecordKey()) >= 1
  {
    assert items == [items[0]] + items[1..];
    if item != items[0] {
      CountsSome(items[1..], item);
    }
  }

  /** A change is the reviewed item of its key, and the plan's record is its own. */
  lemma ChangeIsPlanned(schema: Schema, items: seq<Item>, found: seq<Target>, item: Item)
    requires Settling(items) && Orderly(schema, items, ByIdentity(found))
    requires item in items && item.action in {Action.Create, Action.Update}
    ensures var plan, k := PlanFor(schema, items, ByIdentity(found)), Key(item.record.kind, item.record.identity);
            k in plan.items && plan.items[k] == item && k in plan.desired && plan.desired[k] == item.record
  {
    OrderSound(schema, ApplyRecords(items), OrderedRecords(schema, ApplyRecords(items)).value);
    ReviewedCovers(items, item);
    DesiredIsOwn(items, item);
    EachItemOnce(schema, items);
    CountedOnce(items, Reviewed(items)[item.record.RecordKey()], item, item.record.RecordKey());
  }

  /** A change is past every check of the planner and of the writer. */
  lemma ChangeAccepted(schema: Schema, items: seq<Item>, found: seq<Target>, item: Item)
    requires Sane(schema, items, ByIdentity(found)) && Settling(items) && Orderly(schema, items, ByIdentity(found))
    requires ValuesFit(schema, items)
    requires item in items && item.action in {Action.Create, Action.Update}
    ensures Planned(schema, item.record, Available(ApplyRecords(items), ByIdentity(found)))
    ensures LoadsFit(schema, item.record) && Selectors(schema, item.record).Ok?
  {
    ChangeIsPlanned(schema, items, found, item);
    ReadyPlanned(schema, items, ByIdentity(found), item.record.RecordKey());
    DeferredFitsExactly(schema, item.record);
  }

  /** The row saved under the key of a change. */
  lemma RowOfChange(schema: Schema, items: seq<Item>, found: seq<Target>, item: Item)
    requires Settling(items) && Orderly(schema, items, ByIdentity(found)) && Guarded(items, ByIdentity(found))
    requires item in items && item.action in {Action.Create, Action.Update} && Loads(schema, item.record).Ok?
    ensures var plan, k := PlanFor(schema, items, ByIdentity(found)), Key(item.record.kind, item.record.identity);
            && k in FinalRows(plan)
            && FinalRows(plan)[k] == Row(if item.action == Create then Created(k) else Loaded(item.reviewed),
                                         item.record, plan.LinksOf(Loads(schema, item.record).value))
  {
    ChangeIsPlanned(schema, items, found, item);
    ReadyDelta(schema, items, ByIdentity(found));
  }

  lemma LinksAreNamed(schema: Schema, items: seq<Item>, found: seq<Target>, item: Item, row: Row)
    requires TablesAgree(schema) && Planned(schema, item.record, Available(ApplyRecords(items), ByIdentity(found)))
    requires NamesDistinct(item.record.relationships) && LoadsFit(schema, item.record) && OneEach(found) && Loads(schema, item.record).Ok?
    requires row == Row(if item.action == Create then Created(Key(item.record.kind, item.record.identity)) else Loaded(item.reviewed),
                        item.record, PlanFor(schema, items, ByIdentity(found)).LinksOf(Loads(schema, item.record).value))
    ensures RowSaved(schema, found, item, row)
  {
    forall name, handle
      ensures Link(name, handle) in row.links <==>
              WrittenAtOnce(schema.writer, item.record, name) && Points(schema, found, item.record, name, handle)
    {
      LinkIsNamed(schema, items, found, item.record, name, handle);
    }
  }

  lemma RowIsSaved(schema: Schema, items: seq<Item>, found: seq<Target>, applied: Applied, item: Item)
    requires Succeeded(schema, items, found, applied)
    requires item in items && item.action in {Action.Create, Action.Update}
    ensures var k := Key(item.record.kind, item.record.identity); k in applied.rows && RowSaved(schema, found, item, applied.rows[k])
  {
    var k, available := Key(item.record.kind, item.record.identity), Available(ApplyRecords(items), ByIdentity(found));
    ChangeAccepted(schema, items, found, item);
    LoadsSettled(schema, item.record, available);
    RowOfChange(schema, items, found, item);
    LinksAreNamed(schema, items, found, item, applied.rows[k]);
  }

  lemma LinkIsNamed(schema: Schema, items: seq<Item>, found: seq<Target>, r: Record, name: string, handle: Handle)
    requires TablesAgree(schema) && Planned(schema, r, Available(ApplyRecords(items), ByIdentity(found)))
    requires NamesDistinct(r.relationships) && LoadsFit(schema, r) && OneEach(found) && Loads(schema, r).Ok?
    ensures Link(name, handle) in PlanFor(schema, items, ByIdentity(found)).LinksOf(Loads(schema, r).value) <==>
              WrittenAtOnce(schema.writer, r, name) && Points(schema, found, r, name, handle)
  {
    var plan, loads := PlanFor(schema, items, ByIdentity(found)), Loads(schema, r).value;
    LinksOfLoads(plan, loads, name, handle);
    forall key
      ensures Load(name, key) in loads <==> WrittenAtOnce(schema.writer, r, name) && Refers(schema, r, name, key)
      ensures Denotes(found, key, handle) <==> handle == plan.HandleOf(key)
    {
      LoadsExactly(schema, r, Available(ApplyRecords(items), ByIdentity(found)), name, key);
      HandleDenotes(plan, found, key, handle);
    }
  }

  lemma SelectorsOfChange(schema: Schema, items: seq<Item>, found: seq<Target>, item: Item)
    requires Settling(items) && Orderly(schema, items, ByIdentity(found))
    requires item in items && item.action in {Action.Create, Action.Update} && Selectors(schema, item.record).Ok?
    ensures var plan, k := PlanFor(schema, items, ByIdentity(found)), Key(item.record.kind, item.record.identity);
            k in FinalSelectors(plan) && FinalSelectors(plan)[k] == plan.SelectorRow(Selectors(schema, item.record).value)
  {
    ChangeIsPlanned(schema, items, found, item);
  }

  lemma SelectorsAreNamed(schema: Schema, plan: Plan, found: seq<Target>, item: Item, chosen: seq<Selector>)
    requires plan.target == ByIdentity(found) && OneEach(found)
    requires Chosen(schema, item.record, chosen) && forall name :: Selects(chosen, name) <==> WrittenLate(item.record, name)
    ensures SelectorsSaved(schema, found, item, plan.SelectorRow(chosen))
  {
    var row := plan.SelectorRow(chosen);
    SelectorRowHolds(plan, chosen);
    forall name, handle | name in row
      ensures row[name] == Some(handle) <==> Points(schema, found, item.record, name, handle)
    {
      var s :| s in chosen && s.name == name;
      SelectorIsNamed(schema, plan, found, item.record, s, row, handle);
    }
  }

  lemma SelectorsAreSaved(schema: Schema, items: seq<Item>, found: seq<Target>, applied: Applied, item: Item)
    requires Succeeded(schema, items, found, applied)
    requires item in items && item.action in {Action.Create, Action.Update}
    ensures var k := Key(item.record.kind, item.record.identity); k in applied.selected && SelectorsSaved(schema, found, item, applied.selected[k])
  {
    ChangeAccepted(schema, items, found, item);
    SelectorsExactly(schema, item.record);
    SelectorsOfChange(schema, items, found, item);
    SelectorsAreNamed(schema, PlanFor(schema, items, ByIdentity(found)), found, item, Selectors(schema, item.record).value);
  }

  lemma SelectorIsNamed(schema: Schema, plan: Plan, found: seq<Target>, r: Record, s: Selector, row: map<string, Option<Handle>>, handle: Handle)
    requires plan.target == ByIdentity(found) && OneEach(found)
    requires HoldsNamed(schema, r, s) && SelectorHeld(plan, s, row)
    ensures row[s.name] == Some(handle) <==> Points(schema, found, r, s.name, handle)
  {
    forall key
      ensures Denotes(found, key, handle) <==> handle == plan.HandleOf(key)
    {
      HandleDenotes(plan, found, key, handle);
    }
    if s.target.Some? {
      assert Refers(schema, r, s.name, s.target.value);
    }
  }

  lemma OnlyChangesSaved(schema: Schema, items: seq<Item>, found: seq<Target>, k: Key)
    requires k in PlanFor(schema, items, ByIdentity(found)).items
    ensures exists item :: item in items && Mutates(item, k)
  {
    var item := Reviewed(items)[k];
    assert item in items && Mutates(item, k);
  }

  lemma ObjectsAreDenoted(plan: Plan, items: seq<Item>, found: seq<Target>, item: Item)
    requires plan.target == ByIdentity(found) && OneEach(found) && Proper(items) && item in items && Settles(item)
    ensures item.pk in plan.ObjectsFor(items) && Denotes(found, Key(item.record.kind, item.record.identity), plan.ObjectsFor(items)[item.pk])
  {
    ObjectsForHold(plan, items);
    HandleDenotes(plan, found, Key(item.record.kind, item.record.identity), plan.ObjectsFor(items)[item.pk]);
  }

  lemma NothingElseSaved(schema: Schema, items: seq<Item>, found: seq<Target>, applied: Applied)
    requires Succeeded(schema, items, found, applied)
    ensures NothingElse(items, found, applied)
  {
    var plan := PlanFor(schema, items, ByIdentity(found));
    forall k | k in applied.rows || k in applied.selected
      ensures exists item :: item in items && Mutates(item, k)
    {
      OnlyChangesSaved(schema, items, found, k);
    }
    ObjectsForHold(plan, items);
    forall item | item in items && Settles(item)
      ensures item.pk in applied.objects && Denotes(found, Key(item.record.kind, item.record.identity), applied.objects[item.pk])
    {
      ObjectsAreDenoted(plan, items, found, item);
    }
  }

  /** What a record names is among what it depends on, at once unless the name may close a cycle. */
  lemma ReferredIsNeeded(schema: Schema, r: Record, name: string, key: Key)
    requires Dependencies(schema, r, false).Ok? && Refers(schema, r, name, key)
    requires !(Late(r.kind, name) || "mapping_" <= name)
    ensures key in ImmediateKeys(schema, r)
  {
    var rel :| rel in r.relationships && rel.name == name && ValueNames(rel.value, key.identity);
    PlanningEffects.KeysExactly(schema, r, false, key);
    assert PlanningEffects.PointsTo(schema, r.kind, rel, false, key);
  }

  lemma WriteAccepted(schema: Schema, items: seq<Item>, found: seq<Target>, r: Record)
    requires Sane(schema, items, ByIdentity(found)) && Orderly(schema, items, ByIdentity(found))
    requires r.RecordKey() in ByKey(ApplyRecords(items)) && ByKey(ApplyRecords(items))[r.RecordKey()] == r
    ensures Dependencies(schema, r, false).Ok?
  {
    ReadyPlanned(schema, items, ByIdentity(found), r.RecordKey());
    DeferralOnlyHidesKeys(schema, r);
  }

  lemma NeededIsEarlier(plan: Plan, writes: seq<Record>, i: nat, key: Key)
    requires WrittenInOrder(plan, writes) && i < |writes| && key in plan.Needs(writes[i]) && key in plan.items
    ensures WrittenBefore(writes, i, key)
  {
    var j :| 0 <= j < i && KeySeq(writes)[..i][j] == key;
    assert writes[j].RecordKey() == key;
  }

  lemma NamedIsNeeded(schema: Schema, items: seq<Item>, found: seq<Target>, r: Record, name: string, key: Key)
    requires Sane(schema, items, ByIdentity(found)) && Orderly(schema, items, ByIdentity(found))
    requires r.RecordKey() in ByKey(ApplyRecords(items)) && ByKey(ApplyRecords(items))[r.RecordKey()] == r
    requires Refers(schema, r, name, key) && !Late(r.kind, name) && !("mapping_" <= name)
    ensures key in PlanFor(schema, items, ByIdentity(found)).Needs(r)
  {
    WriteAccepted(schema, items, found, r);
    ReferredIsNeeded(schema, r, name, key);
  }

  lemma PrecedingIsWritten(schema: Schema, items: seq<Item>, found: seq<Target>, writes: seq<Record>, i: nat, name: string, key: Key)
    requires Sane(schema, items, ByIdentity(found)) && Settling(items) && Orderly(schema, items, ByIdentity(found))
    requires WrittenInOrder(PlanFor(schema, items, ByIdentity(found)), writes) && Precedes(schema, items, writes, i, name, key)
    requires writes[i].RecordKey() in ByKey(ApplyRecords(items)) && ByKey(ApplyRecords(items))[writes[i].RecordKey()] == writes[i]
    ensures WrittenBefore(writes, i, key)
  {
    var item :| item in items && Mutates(item, key);
    ChangeIsPlanned(schema, items, found, item);
    NamedIsNeeded(schema, items, found, writes[i], name, key);
    NeededIsEarlier(PlanFor(schema, items, ByIdentity(found)), writes, i, key);
  }

  lemma WritesInOrder(schema: Schema, items: seq<Item>, found: seq<Target>, applied: Applied)
    requires Succeeded(schema, items, found, applied)
    ensures InOrder(schema, items, applied.writes)
  {
    forall i: nat, name, key | Precedes(schema, items, applied.writes, i, name, key)
      ensures WrittenBefore(applied.writes, i, key)
    {
      assert applied.writes[i] in applied.writes;
      PrecedingIsWritten(schema, items, found, applied.writes, i, name, key);
    }
  }

  /** A transaction that conforms to its plan has saved what the review says, and nothing else. */
  lemma SavedAsReviewed(schema: Schema, items: seq<Item>, found: seq<Target>, applied: Applied)
    requires Succeeded(schema, items, found, applied)
    ensures Saved(schema, items, found, applied)
  {
    forall item | item in items && item.action in {Action.Create, Action.Update}
      ensures ItemSaved(schema, found, item, applied)
    {
      RowIsSaved(schema, items, found, applied, item);
      SelectorsAreSaved(schema, items, found, applied, item);
    }
    NothingElseSaved(schema, items, found, applied);
    WritesInOrder(schema, items, found, applied);
  }

  // ---- What DiffSync can compare ------------------------------------------------------------------

  /** The record has the attribute or the relationship. */
  predicate CarriedBy(r: Record, f: CanonicalDiff.Field) {
    match f.category
    case Attributes => f.name in r.attributes
    case Relationships => exists rel :: rel in r.relationships && rel.name == f.name
  }

  /** A record of the plan or an object of NetBox. */
  predicate InPlay(items: seq<Item>, found: seq<Target>, r: Record) {
    (exists item :: item in items && Settles(item) && item.record == r) || exists t :: t in found && t.content == r
  }

  /** The models of a kind have the field: it is declared, or some record of the kind in play carries it. */
  ghost predicate ModelsField(declared: string -> set<CanonicalDiff.Field>, items: seq<Item>, found: seq<Target>, kind: string,
                              f: CanonicalDiff.Field)
  {
    f in declared(kind) || exists r :: InPlay(items, found, r) && r.kind == kind && CarriedBy(r, f)
  }

  /** Two fields of one kind in play share a model attribute. */
  ghost predicate Collides(declared: string -> set<CanonicalDiff.Field>, items: seq<Item>, found: seq<Target>, kind: string) {
    exists f, g :: f != g && ModelsField(declared, items, found, kind, f) && ModelsField(declared, items, found, kind, g) &&
                   CanonicalDiff.FieldName(f) == CanonicalDiff.FieldName(g)
  }

  lemma {:induction false} FieldsKeyed(rels: seq<Relationship>, name: string)
    ensures name in Fields(rels) <==> exists rel :: rel in rels && rel.name == name
  {
    if rels != [] {
      var n := |rels| - 1;
      assert rels == rels[..n] + [rels[n]];
      FieldsKeyed(rels[..n], name);
    }
  }

  lemma PathsCarry(attributes: map<string, Json>, related: map<string, Json>, f: CanonicalDiff.Field)
    ensures f in Paths(attributes, related) <==> if f.category.Attributes? then f.name in attributes else f.name in related
  {
    assert f == CanonicalDiff.Field(f.category, f.name);
  }

  lemma PayloadCarries(r: Record, f: CanonicalDiff.Field)
    ensures f in PayloadOf(r) <==> CarriedBy(r, f)
  {
    PathsCarry(r.attributes, Fields(r.relationships), f);
    FieldsKeyed(r.relationships, f.name);
  }

  lemma ModeledIsInPlay(items: seq<Item>, found: seq<Target>, c: CanonicalDiff.Canonical)
    requires c in Modeled(ApplyRecords(items), found)
    ensures exists r :: InPlay(items, found, r) && AsCanonical(r) == c
  {
    if r :| r in ApplyRecords(items) && AsCanonical(r) == c {
      AppliedRecordsHaveItems(items, r);
      assert InPlay(items, found, r);
    } else {
      var t :| t in found && AsCanonical(t.content) == c;
      assert InPlay(items, found, t.content);
    }
  }

  lemma InPlayIsModeled(items: seq<Item>, found: seq<Target>, r: Record)
    requires InPlay(items, found, r)
    ensures AsCanonical(r) in Modeled(ApplyRecords(items), found)
  {
    if item :| item in items && Settles(item) && item.record == r {
      ReviewedApplies(items, item);
    }
  }

  lemma InPlayExactly(items: seq<Item>, found: seq<Target>, c: CanonicalDiff.Canonical)
    ensures c in Modeled(ApplyRecords(items), found) <==> exists r :: InPlay(items, found, r) && AsCanonical(r) == c
  {
    if c in Modeled(ApplyRecords(items), found) {
      ModeledIsInPlay(items, found, c);
    }
    if r :| InPlay(items, found, r) && AsCanonical(r) == c {
      InPlayIsModeled(items, found, r);
    }
  }

  lemma FieldsExactly(declared: string -> set<CanonicalDiff.Field>, items: seq<Item>, found: seq<Target>, kind: string, f: CanonicalDiff.Field)
    ensures f in ComparisonDrafts.FieldsOf(declared, Modeled(ApplyRecords(items), found), kind) <==> ModelsField(declared, items, found, kind, f)
  {
    var all := Modeled(ApplyRecords(items), found);
    if c :| c in all && c.kind == kind && f in c.fields {
      InPlayExactly(items, found, c);
      var r :| InPlay(items, found, r) && AsCanonical(r) == c;
      PayloadCarries(r, f);
    }
    if r :| InPlay(items, found, r) && r.kind == kind && CarriedBy(r, f) {
      InPlayExactly(items, found, AsCanonical(r));
      PayloadCarries(r, f);
    }
  }

  lemma CollidesExactly(declared: string -> set<CanonicalDiff.Field>, items: seq<Item>, found: seq<Target>, kind: string)
    ensures CanonicalDiff.NoCollision(ComparisonDrafts.FieldsOf(declared, Modeled(ApplyRecords(items), found), kind)) <==>
              !Collides(declared, items, found, kind)
  {
    forall f
      ensures f in ComparisonDrafts.FieldsOf(declared, Modeled(ApplyRecords(items), found), kind) <==>
                ModelsField(declared, items, found, kind, f)
    {
      FieldsExactly(declared, items, found, kind, f);
    }
  }

  /** No two objects of NetBox have one natural identity. */
  predicate OneObjectEach(found: seq<Target>) {
    forall i, j :: 0 <= i < j < |found| ==>
                     (found[i].content.kind, found[i].content.identity) != (found[j].content.kind, found[j].content.identity)
  }

  lemma OneEachExactly(found: seq<Target>)
    ensures OneEach(found) <==> OneObjectEach(found)
  {
    if OneEach(found) {
      forall i, j | 0 <= i < j < |found|
        ensures (found[i].content.kind, found[i].content.identity) != (found[j].content.kind, found[j].content.identity)
      {
        assert KeysIn(found)[i] != KeysIn(found)[j];
      }
    }
  }

  /** DiffSync compares a plan exactly if no two fields of a kind in play collide and NetBox has one object of each identity. */
  lemma ComparableExactly(declared: string -> set<CanonicalDiff.Field>, items: seq<Item>, found: seq<Target>)
    ensures Comparable(declared, items, found) <==>
              OneObjectEach(found) && forall r :: InPlay(items, found, r) ==> !Collides(declared, items, found, r.kind)
  {
    var all := Modeled(ApplyRecords(items), found);
    OneEachExactly(found);
    forall kind
      ensures CanonicalDiff.NoCollision(ComparisonDrafts.FieldsOf(declared, all, kind)) <==> !Collides(declared, items, found, kind)
    {
      CollidesExactly(declared, items, found, kind);
    }
    forall r | InPlay(items, found, r)
      ensures AsCanonical(r) in all && AsCanonical(r).kind == r.kind
    {
      InPlayExactly(items, found, AsCanonical(r));
    }
    forall c | c in all
      ensures exists r :: InPlay(items, found, r) && r.kind == c.kind
    {
      InPlayExactly(items, found, c);
      var r :| InPlay(items, found, r) && AsCanonical(r) == c;
    }
  }
}
