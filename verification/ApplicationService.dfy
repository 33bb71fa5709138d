/**
 * Applying a reviewed comparison: check readiness, order the plan, revalidate the delta, run the hooks in
 * whatever order DiffSync chooses, then write the deferred selectors.
 */
module ApplicationService {
  import opened Prelude
  import opened KeyOrder
  import opened ApplicationPlanning
  import opened RecordWrites
  import opened MutationBackend
  import opened NetBoxSnapshot
  import CanonicalDiff
  import ComparisonDrafts

  /** The outcome of one transaction: what was saved, in which order, and the object behind each item. */
  datatype Applied = Applied(
    rows: map<Key, Row>,
    selected: map<Key, map<string, Option<Handle>>>,
    writes: seq<Record>,
    objects: map<nat, Handle>)

  function ApplyRecords(items: seq<Item>): seq<Record> {
    if items == [] then []
    else (if Applies(items[0]) then [items[0].record] else []) + ApplyRecords(items[1..])
  }

  predicate Changes(item: Item) {
    item.action in {Action.Create, Action.Update}
  }

  /** The reviewed creates and updates by key. */
  function Reviewed(items: seq<Item>): (reviewed: map<Key, Item>)
    ensures forall k :: k in reviewed ==> Changes(reviewed[k]) && reviewed[k] in items && reviewed[k].record.RecordKey() == k
  {
    if items == [] then map[]
    else
      var last := items[|items| - 1];
      var before := Reviewed(items[..|items| - 1]);
      if Changes(last) then before[last.record.RecordKey() := last] else before
  }

  /** Attributes and relationships under the paths DiffSync's models carry. */
  function Paths(attributes: map<string, Json>, related: map<string, Json>): CanonicalDiff.Payload {
    (map name | name in attributes :: CanonicalDiff.Field(CanonicalDiff.Attributes, name) := attributes[name]) +
    (map name | name in related :: CanonicalDiff.Field(CanonicalDiff.Relationships, name) := related[name])
  }

  function PayloadOf(r: Record): CanonicalDiff.Payload {
    Paths(r.attributes, Fields(r.relationships))
  }

  function AsCanonical(r: Record): CanonicalDiff.Canonical {
    CanonicalDiff.Canonical(r.kind, r.identity, r.displayName, "", PayloadOf(r), "", "")
  }

  /** Everything DiffSync builds models for: the plan and all of NetBox. */
  function Modeled(records: seq<Record>, found: seq<Target>): set<CanonicalDiff.Canonical> {
    (set r | r in records :: AsCanonical(r)) + (set t | t in found :: AsCanonical(t.content))
  }

  /** DiffSync can compare the plan with NetBox: no field names collide, and its store takes every object. */
  ghost predicate Comparable(declared: string -> set<CanonicalDiff.Field>, items: seq<Item>, found: seq<Target>) {
    ComparisonDrafts.Modelable(declared, Modeled(ApplyRecords(items), found)) && OneEach(found)
  }

  /** What DiffSync finds between the plan and NetBox, deletions being switched off. */
  function FreshDelta(desired: map<Key, Record>, target: map<Key, Target>): map<Key, Action> {
    map k | k in desired && (k !in target || !SamePayload(desired[k], target[k].content)) ::
      if k in target then Action.Update else Action.Create
  }

  function ReviewedDelta(items: seq<Item>): map<Key, Action> {
    var reviewed := Reviewed(items);
    map k | k in reviewed :: reviewed[k].action
  }

  function CountKey(items: seq<Item>, key: Key): nat {
    if items == [] then 0
    else (if items[0].record.RecordKey() == key then 1 else 0) + CountKey(items[1..], key)
  }

  function PlanFor(schema: Schema, items: seq<Item>, target: map<Key, Target>): Plan {
    Plan((r: Record) => Dependencies(schema, r, false),
         (r: Record) => Loads(schema, r),
         (r: Record) => Selectors(schema, r),
         Reviewed(items), target, ByKey(ApplyRecords(items)))
  }

  /** Keys referred to by the plan, now or later, that neither the plan nor NetBox has. */
  function MissingKeys(schema: Schema, records: seq<Record>, target: map<Key, Target>): set<Key> {
    set r, k | r in records && k in AllKeys(schema, r) && k !in KeysOf(records) && k !in target :: k
  }

  method RelationshipProblems(schema: Schema, records: seq<Record>, target: map<Key, Target>)
    returns (result: Result<set<Key>, PlanError>)
    ensures result.Ok? ==> result.value == MissingKeys(schema, records, target)
    ensures result.Ok? <==> forall r :: r in records ==> Dependencies(schema, r, true).Ok?
  {
    var available := KeysOf(records) + target.Keys;
    var missing: set<Key> := {};
    for i := 0 to |records|
      invariant missing == set r, k | r in records[..i] && k in AllKeys(schema, r) && k !in KeysOf(records) && k !in target :: k
      invariant forall r :: r in records[..i] ==> Dependencies(schema, r, true).Ok?
    {
      assert records[..i + 1] == records[..i] + [records[i]];
      var keys := RelationshipDependencies(schema, records[i], true);
      if keys.Err? {
        return Err(keys.error);
      }
      assert Elements(keys.value) == AllKeys(schema, records[i]);
      missing := missing + (Elements(keys.value) - available);
    }
    assert records[..|records|] == records;
    return Ok(missing);
  }

  ghost predicate Unambiguous(items: seq<Item>, records: seq<Record>) {
    forall r :: r in records ==> CountKey(items, r.RecordKey()) == 1
  }

  predicate Settling(items: seq<Item>) {
    forall item :: item in items ==> Applies(item)
  }

  /** The keys that are there for a plan: its own and those NetBox has. */
  function Available(records: seq<Record>, target: map<Key, Target>): set<Key> {
    KeysOf(records) + target.Keys
  }

  /** The plan has a dependency order and refers to nothing missing. */
  ghost predicate Orderly(schema: Schema, items: seq<Item>, target: map<Key, Target>) {
    OrderedRecords(schema, ApplyRecords(items)).Ok? && MissingKeys(schema, ApplyRecords(items), target) == {}
  }

  /**
   * Readiness: NetBox is as it was when the comparison was made, no item is a conflict or skipped, and the
   * plan has a dependency order and refers to nothing missing.
   */
  ghost predicate Ready(schema: Schema, items: seq<Item>, snapshot: seq<Target>, found: seq<Target>) {
    SameDigest(snapshot, found) && Settling(items) && Orderly(schema, items, ByIdentity(found))
  }

  /** What the registry and the identities give every plan: agreeing tables, and one kind for an identity. */
  ghost predicate Sane(schema: Schema, items: seq<Item>, target: map<Key, Target>) {
    TablesAgree(schema) && OneKind(Available(ApplyRecords(items), target))
  }

  /** The delta is the reviewed one, and so are the objects it updates. */
  ghost predicate Guarded(items: seq<Item>, target: map<Key, Target>) {
    && FreshDelta(ByKey(ApplyRecords(items)), target) == ReviewedDelta(items)
    && (forall k :: k in Reviewed(items) && k in target ==> Reviewed(items)[k].reviewed == target[k].reference)
  }

  ghost function FinalRows(plan: Plan): map<Key, Row> {
    map k | k in plan.items && k in plan.desired && plan.loads(plan.desired[k]).Ok? :: plan.WrittenRow(k)
  }

  ghost function FinalSelectors(plan: Plan): map<Key, map<string, Option<Handle>>> {
    map k | k in plan.items && k in plan.desired && plan.selectors(plan.desired[k]).Ok? ::
      plan.SelectorRow(plan.selectors(plan.desired[k]).value)
  }

  lemma {:induction false} ReviewedApplies(items: seq<Item>, item: Item)
    requires item in items && Applies(item)
    ensures item.record in ApplyRecords(items)
  {
    if items[0] != item {
      assert items == [items[0]] + items[1..];
      ReviewedApplies(items[1..], item);
    }
  }

  lemma {:induction false} AppliedRecordsHaveItems(items: seq<Item>, r: Record)
    requires r in ApplyRecords(items)
    ensures exists item :: item in items && Applies(item) && item.record == r
  {
    assert items == [items[0]] + items[1..];
    if !(Applies(items[0]) && items[0].record == r) {
      AppliedRecordsHaveItems(items[1..], r);
      var item :| item in items[1..] && Applies(item) && item.record == r;
      assert item in items;
    }
  }

  /** Every record of a ready plan is past the plan checks. */
  lemma ReadyPlanned(schema: Schema, items: seq<Item>, target: map<Key, Target>, k: Key)
    requires Sane(schema, items, target) && Orderly(schema, items, target)
    requires k in ByKey(ApplyRecords(items))
    ensures Planned(schema, ByKey(ApplyRecords(items))[k], Available(ApplyRecords(items), target))
  {
    var records := ApplyRecords(items);
    var r := ByKey(records)[k];
    ReadyReferences(schema, items, target);
    DeferralOnlyHidesKeys(schema, r);
    assert PlanFor(schema, items, target).desired[k] == r;
    forall d | d in AllKeys(schema, r)
      ensures d in Available(records, target)
    {
      assert d !in MissingKeys(schema, records, target);
    }
  }

  lemma PlanForWellFormed(schema: Schema, items: seq<Item>, target: map<Key, Target>)
    requires Sane(schema, items, target) && Orderly(schema, items, target)
    ensures PlanFor(schema, items, target).WellFormed()
  {
    var plan := PlanFor(schema, items, target);
    forall k | k in plan.items
      ensures k in plan.desired
    {
      ReviewedApplies(items, plan.items[k]);
    }
    forall k, d | k in plan.desired && d in plan.items && plan.LoadsKey(plan.desired[k], d)
      ensures d in plan.Needs(plan.desired[k])
    {
      ReviewedApplies(items, plan.items[d]);
      LoadIsNeeded(schema, items, target, k, d);
    }
  }

  lemma LoadIsNeeded(schema: Schema, items: seq<Item>, target: map<Key, Target>, k: Key, d: Key)
    requires Sane(schema, items, target) && Orderly(schema, items, target)
    requires k in ByKey(ApplyRecords(items)) && d in KeysOf(ApplyRecords(items))
    requires var loads := Loads(schema, ByKey(ApplyRecords(items))[k]); loads.Ok? && d in KeysOfLoads(loads.value)
    ensures d in ImmediateKeys(schema, ByKey(ApplyRecords(items))[k])
  {
    ReadyPlanned(schema, items, target, k);
    LoadsSettled(schema, ByKey(ApplyRecords(items))[k], Available(ApplyRecords(items), target));
  }

  ghost function Position(keys: seq<Key>, k: Key): (i: nat)
    requires k in keys
    ensures i < |keys| && keys[i] == k
  {
    var i :| 0 <= i < |keys| && keys[i] == k;
    i
  }

  lemma OrderedHasKey(records: seq<Record>, ordered: seq<Record>, k: Key)
    requires forall r :: r in ordered <==> r in records
    requires k in ByKey(records)
    ensures k in KeySeq(ordered)
  {
  }

  lemma OrderedAt(records: seq<Record>, ordered: seq<Record>, k: Key)
    requires DistinctKeys(ordered) && forall r :: r in ordered <==> r in records
    requires k in ByKey(records) && k in KeySeq(ordered)
    ensures ordered[Position(KeySeq(ordered), k)] == ByKey(records)[k]
  {
    SameKeySameRecord(ordered, ordered[Position(KeySeq(ordered), k)], ByKey(records)[k]);
  }

  lemma RankOfPlan(schema: Schema, items: seq<Item>, target: map<Key, Target>) returns (rank: map<Key, nat>)
    requires OrderedRecords(schema, ApplyRecords(items)).Ok?
    ensures PlanFor(schema, items, target).RankedBy(rank)
  {
    rank := RankOfOrder(schema, ApplyRecords(items), OrderedRecords(schema, ApplyRecords(items)).value);
  }

  /** The accepted order ranks every record above what it needs. */
  lemma RankOfOrder(schema: Schema, records: seq<Record>, ordered: seq<Record>) returns (rank: map<Key, nat>)
    requires OrderedRecords(schema, records) == Ok(ordered)
    ensures rank.Keys == KeysOf(records)
    ensures forall k, d :: k in ByKey(records) && d in ImmediateKeys(schema, ByKey(records)[k]) && d in ByKey(records) ==> rank[d] < rank[k]
  {
    var keys := KeySeq(ordered);
    AllPlaced(schema, records, ordered);
    rank := map k | k in ByKey(records) :: Position(keys, k);
    forall k, d | k in ByKey(records) && d in ImmediateKeys(schema, ByKey(records)[k]) && d in ByKey(records)
      ensures rank[d] < rank[k]
    {
      RankStep(schema, records, ordered, k, d);
    }
  }

  lemma AllPlaced(schema: Schema, records: seq<Record>, ordered: seq<Record>)
    requires OrderedRecords(schema, records) == Ok(ordered)
    ensures forall k :: k in ByKey(records) ==> k in KeySeq(ordered)
  {
    OrderSound(schema, records, ordered);
    SameMultisetSameElements(ordered, records);
    forall k | k in ByKey(records)
      ensures k in KeySeq(ordered)
    {
      OrderedHasKey(records, ordered, k);
    }
  }

  lemma RankStep(schema: Schema, records: seq<Record>, ordered: seq<Record>, k: Key, d: Key)
    requires OrderedRecords(schema, records) == Ok(ordered)
    requires k in ByKey(records) && d in ImmediateKeys(schema, ByKey(records)[k]) && d in ByKey(records)
    requires k in KeySeq(ordered) && d in KeySeq(ordered)
    ensures Position(KeySeq(ordered), d) < Position(KeySeq(ordered), k)
  {
    OrderSound(schema, records, ordered);
    SameMultisetSameElements(ordered, records);
    OrderedAt(records, ordered, k);
    RanksDescend(KeySeq(ordered), Position(KeySeq(ordered), k), d);
  }

  lemma RanksDescend(keys: seq<Key>, i: nat, d: Key)
    requires Distinct(keys) && i < |keys| && d in keys[..i]
    ensures Position(keys, d) < i
  {
  }

  lemma ReadyReferences(schema: Schema, items: seq<Item>, target: map<Key, Target>)
    requires TablesAgree(schema)
    requires Orderly(schema, items, target)
    ensures PlanFor(schema, items, target).ReferencesHold()
  {
    var records := ApplyRecords(items);
    var desired := ByKey(records);
    forall k | k in desired
      ensures Dependencies(schema, desired[k], false).Ok?
      ensures ImmediateKeys(schema, desired[k]) <= desired.Keys + target.Keys
      ensures Selectors(schema, desired[k]).Ok? ==> TargetsWithin(Selectors(schema, desired[k]).value, desired.Keys + target.Keys)
    {
      var r := desired[k];
      DeferralOnlyHidesKeys(schema, r);
      forall d | d in AllKeys(schema, r)
        ensures d in desired.Keys + target.Keys
      {
        assert d !in MissingKeys(schema, records, target);
      }
      SelectorsWithin(schema, r);
    }
  }

  lemma ReadyDelta(schema: Schema, items: seq<Item>, target: map<Key, Target>)
    requires Guarded(items, target)
    ensures PlanFor(schema, items, target).DeltaHolds()
  {
    DeltaCovers(schema, items, target);
    var plan := PlanFor(schema, items, target);
    forall k | k in plan.items
      ensures plan.items[k].action == FreshDelta(plan.desired, target)[k] && k in FreshDelta(plan.desired, target)
    {
      assert k in ReviewedDelta(items);
    }
  }

  /** What the reviewed delta does not write is in NetBox. */
  lemma DeltaCovers(schema: Schema, items: seq<Item>, target: map<Key, Target>)
    requires FreshDelta(ByKey(ApplyRecords(items)), target) == ReviewedDelta(items)
    ensures var plan := PlanFor(schema, items, target);
            forall k :: k in plan.desired && k !in plan.items ==> k in target
  {
    var plan := PlanFor(schema, items, target);
    forall k | k in plan.desired && k !in plan.items
      ensures k in target
    {
      assert k !in ReviewedDelta(items);
    }
  }

  /** A ready and guarded comparison meets every condition the backend needs, save that its values be writable. */
  lemma ReadyPlan(schema: Schema, items: seq<Item>, target: map<Key, Target>) returns (rank: map<Key, nat>)
    requires TablesAgree(schema) && Guarded(items, target)
    requires Orderly(schema, items, target)
    ensures PlanFor(schema, items, target).Writable() ==> PlanFor(schema, items, target).Applicable(rank)
  {
    var plan := PlanFor(schema, items, target);
    ReadyReferences(schema, items, target);
    ReadyDelta(schema, items, target);
    rank := RankOfPlan(schema, items, target);
    if plan.Writable() {
      forall condition
        ensures plan.Meets(rank, condition)
      {
        match condition {
          case Delta =>
          case References =>
          case Order =>
          case Values =>
        }
      }
    }
  }

  /** Past readiness, an apply succeeds exactly under the guards of the transaction. */
  ghost predicate Goes(schema: Schema, items: seq<Item>, target: map<Key, Target>) {
    Guarded(items, target) && ValuesFit(schema, items)
  }

  /** Every write was accepted, and every object found was the reviewed one. */
  ghost predicate RanClean(plan: Plan) {
    plan.Writable() && forall k :: k in plan.items ==> plan.AsReviewed(k)
  }

  /** A rank that carries every run of a ready plan through, and what a run that came through has shown. */
  ghost predicate RunsExactly(schema: Schema, items: seq<Item>, target: map<Key, Target>, plan: Plan, rank: map<Key, nat>) {
    && plan.WellFormed()
    && (Goes(schema, items, target) ==> plan.Applicable(rank) && ItemsPresent(plan, items))
    && (RanClean(plan) ==> Goes(schema, items, target))
  }

  lemma ReadyToRun(schema: Schema, items: seq<Item>, target: map<Key, Target>) returns (rank: map<Key, nat>)
    requires Sane(schema, items, target) && Orderly(schema, items, target)
    requires FreshDelta(ByKey(ApplyRecords(items)), target) == ReviewedDelta(items)
    ensures RunsExactly(schema, items, target, PlanFor(schema, items, target), rank)
  {
    rank := map[];
    PlanForWellFormed(schema, items, target);
    ReadyItems(schema, items, target);
    WritableExactlyWhenFit(schema, items, target);
    if Goes(schema, items, target) {
      rank := ReadyPlan(schema, items, target);
    }
    GoesWhenRun(schema, items, target);
  }

  lemma GoesWhenRun(schema: Schema, items: seq<Item>, target: map<Key, Target>)
    requires FreshDelta(ByKey(ApplyRecords(items)), target) == ReviewedDelta(items)
    ensures ValuesFit(schema, items) && (forall k :: k in Reviewed(items) ==> PlanFor(schema, items, target).AsReviewed(k)) ==>
              Goes(schema, items, target)
  {
  }

  lemma {:induction false} SelectedEntries(plan: Plan, records: seq<Record>)
    requires Distinct(KeySeq(records))
    ensures plan.SelectedFor(records).Keys == Elements(KeySeq(records))
    ensures forall r :: r in records && plan.selectors(r).Ok? ==>
              r.RecordKey() in plan.SelectedFor(records) &&
              plan.SelectedFor(records)[r.RecordKey()] == plan.SelectorRow(plan.selectors(r).value)
  {
    if records != [] {
      var n := |records| - 1;
      var init, last := records[..n], records[n];
      assert records == init + [last];
      assert KeySeq(records) == KeySeq(init) + [last.RecordKey()];
      SelectedEntries(plan, init);
      forall r | r in init
        ensures r.RecordKey() != last.RecordKey()
      {
        var i :| 0 <= i < n && init[i] == r;
        assert KeySeq(records)[i] != KeySeq(records)[n];
      }
    }
  }

  /** A sound run that has written every reviewed key has saved exactly the rows the plan fixes. */
  lemma RowsAreFinal(plan: Plan, p: Progress)
    requires Sound(plan, p) && plan.items.Keys <= p.cache.Keys
    ensures p.rows == FinalRows(plan)
    ensures Elements(KeySeq(p.records)) == plan.items.Keys && Distinct(KeySeq(p.records))
    ensures forall r :: r in p.records ==> r.RecordKey() in plan.desired && plan.desired[r.RecordKey()] == r
    ensures WrittenInOrder(plan, p.records)
  {
    LogFacts(plan, p);
  }

  lemma SelectorsAreFinal(plan: Plan, p: Progress, selected: map<Key, map<string, Option<Handle>>>)
    requires Sound(plan, p) && plan.items.Keys <= p.cache.Keys
    requires selected == plan.SelectedFor(p.records)
    requires forall r :: r in p.records ==> plan.selectors(r).Ok?
    ensures selected == FinalSelectors(plan)
    ensures RanClean(plan)
  {
    RowsAreFinal(plan, p);
    SelectedEntries(plan, p.records);
    forall k | k in plan.items
      ensures k in plan.desired && plan.selectors(plan.desired[k]).Ok? && plan.LoadsPresent(plan.desired[k]) && plan.AsReviewed(k)
      ensures k in selected && selected[k] == plan.SelectorRow(plan.selectors(plan.desired[k]).value)
    {
      WrittenEntry(plan, p, k);
    }
  }

  lemma WrittenEntry(plan: Plan, p: Progress, k: Key)
    requires Sound(plan, p) && plan.items.Keys <= p.cache.Keys && k in plan.items
    ensures k in plan.desired && plan.desired[k] in p.records && plan.desired[k].RecordKey() == k
    ensures plan.LoadsPresent(plan.desired[k]) && plan.AsReviewed(k)
  {
    LogFacts(plan, p);
    assert k in Elements(KeySeq(p.records));
    var i :| 0 <= i < |p.records| && KeySeq(p.records)[i] == k;
    assert p.records[i] in p.records;
  }

  /** DiffSync's assumption: one hook per key of the fresh delta, in any order. */
  ghost predicate HookOrder(hooks: seq<Key>, items: seq<Item>, target: map<Key, Target>) {
    Distinct(hooks) && Elements(hooks) == FreshDelta(ByKey(ApplyRecords(items)), target).Keys
  }

  method CheckItems(items: seq<Item>, records: seq<Record>) returns (ambiguous: Option<Key>)
    ensures ambiguous.None? <==> Unambiguous(items, records)
  {
    for i := 0 to |records|
      invariant forall j :: 0 <= j < i ==> CountKey(items, records[j].RecordKey()) == 1
    {
      if CountKey(items, records[i].RecordKey()) != 1 {
        assert records[i] in records;
        return Some(records[i].RecordKey());
      }
    }
    return None;
  }

  method RunHook(backend: Backend, key: Key, action: Action, ghost rank: map<Key, nat>) returns (outcome: Outcome)
    requires backend.Valid() && backend.materializing == {}
    requires key in backend.plan.items && action == backend.plan.items[key].action
    modifies backend
    ensures backend.Valid() && backend.materializing == {} && backend.selected == old(backend.selected)
    ensures old(backend.objectCache).Keys <= backend.objectCache.Keys
    ensures outcome.Done? ==> key in backend.objectCache
    ensures backend.plan.Applicable(rank) ==> outcome.Done?
  {
    CacheFacts(backend.plan, backend.Now());
    var record := backend.plan.desired[key];
    assert record.RecordKey() == key;
    if backend.plan.Applicable(rank) {
      assert backend.plan.Meets(rank, Order);
    }
    if action == Action.Create {
      outcome := backend.Create(record, rank);
    } else {
      outcome := backend.Update(record, rank);
    }
  }

  method RunHooks(backend: Backend, hooks: seq<Key>, delta: map<Key, Action>, ghost rank: map<Key, nat>) returns (outcome: Outcome)
    requires backend.Valid() && backend.materializing == {} && backend.selected == map[]
    requires Elements(hooks) == delta.Keys == backend.plan.items.Keys
    requires forall k :: k in delta ==> delta[k] == backend.plan.items[k].action
    modifies backend
    ensures backend.Valid() && backend.selected == map[]
    ensures outcome.Done? ==> backend.plan.items.Keys <= backend.objectCache.Keys
    ensures backend.plan.Applicable(rank) ==> outcome.Done?
  {
    for i := 0 to |hooks|
      invariant backend.Valid() && backend.materializing == {} && backend.selected == map[]
      invariant forall j :: 0 <= j < i ==> hooks[j] in backend.objectCache
    {
      assert hooks[i] in Elements(hooks);
      outcome := RunHook(backend, hooks[i], delta[hooks[i]], rank);
      if outcome.Failed? {
        return;
      }
    }
    forall k | k in backend.plan.items
      ensures k in backend.objectCache
    {
      assert k in Elements(hooks);
    }
    return Done;
  }

  /** What a successful apply has done: everything but the order of the writes is a function of the plan. */
  ghost predicate Conforms(plan: Plan, items: seq<Item>, applied: Applied) {
    && applied.rows == FinalRows(plan)
    && applied.selected == FinalSelectors(plan)
    && applied.objects == plan.ObjectsFor(items)
    && Distinct(KeySeq(applied.writes))
    && Elements(KeySeq(applied.writes)) == plan.items.Keys
    && (forall r :: r in applied.writes ==> r.RecordKey() in plan.desired && plan.desired[r.RecordKey()] == r)
    && WrittenInOrder(plan, applied.writes)
  }

  /** The values of every reviewed create and update are such that a write accepts them. */
  ghost predicate ValuesFit(schema: Schema, items: seq<Item>) {
    forall item :: item in items && Changes(item) ==> Fits(schema, item.record)
  }

  lemma {:induction false} ReviewedCovers(items: seq<Item>, item: Item)
    requires item in items && Changes(item)
    ensures item.record.RecordKey() in Reviewed(items)
  {
    var n := |items| - 1;
    assert items == items[..n] + [items[n]];
    if item in items[..n] {
      ReviewedCovers(items[..n], item);
    }
  }

  /** In a plan of distinct keys, the desired record of a change is the item's own. */
  lemma DesiredIsOwn(items: seq<Item>, item: Item)
    requires item in items && Changes(item) && DistinctKeys(ApplyRecords(items))
    ensures item.record.RecordKey() in ByKey(ApplyRecords(items))
    ensures ByKey(ApplyRecords(items))[item.record.RecordKey()] == item.record
  {
    ReviewedApplies(items, item);
    SameKeySameRecord(ApplyRecords(items), ByKey(ApplyRecords(items))[item.record.RecordKey()], item.record);
  }

  /** Past readiness and the reviewed delta, every write is accepted exactly when the values fit. */
  lemma WritableExactlyWhenFit(schema: Schema, items: seq<Item>, target: map<Key, Target>)
    requires Sane(schema, items, target) && Orderly(schema, items, target)
    requires FreshDelta(ByKey(ApplyRecords(items)), target) == ReviewedDelta(items)
    ensures PlanFor(schema, items, target).Writable() <==> ValuesFit(schema, items)
  {
    forall item | item in items && Changes(item)
      ensures WritesAs(schema, PlanFor(schema, items, target), item)
    {
      ItemAccepted(schema, items, target, item);
    }
    WritableIsFit(schema, items, PlanFor(schema, items, target));
    FitIsWritable(schema, items, PlanFor(schema, items, target));
  }

  /** The plan writes the item's own record, and accepts it exactly when it fits. */
  ghost predicate WritesAs(schema: Schema, plan: Plan, item: Item) {
    var k := item.record.RecordKey();
    && k in plan.items && k in plan.desired && plan.desired[k] == item.record
    && (plan.LoadsPresent(item.record) && plan.selectors(item.record).Ok? <==> Fits(schema, item.record))
  }

  lemma WritableIsFit(schema: Schema, items: seq<Item>, plan: Plan)
    requires forall item :: item in items && Changes(item) ==> WritesAs(schema, plan, item)
    ensures plan.Writable() ==> ValuesFit(schema, items)
  {
  }

  lemma FitIsWritable(schema: Schema, items: seq<Item>, plan: Plan)
    requires plan.items == Reviewed(items)
    requires forall item :: item in items && Changes(item) ==> WritesAs(schema, plan, item)
    ensures ValuesFit(schema, items) ==> plan.Writable()
  {
    forall k | k in plan.items
      ensures WritesAs(schema, plan, plan.items[k])
    {
    }
  }

  lemma ItemAccepted(schema: Schema, items: seq<Item>, target: map<Key, Target>, item: Item)
    requires Sane(schema, items, target) && Orderly(schema, items, target)
    requires FreshDelta(ByKey(ApplyRecords(items)), target) == ReviewedDelta(items)
    requires item in items && Changes(item)
    ensures WritesAs(schema, PlanFor(schema, items, target), item)
  {
    var records := ApplyRecords(items);
    OrderSound(schema, records, OrderedRecords(schema, records).value);
    DeltaCovers(schema, items, target);
    ReviewedCovers(items, item);
    DesiredIsOwn(items, item);
    ReadyPlanned(schema, items, target, item.record.RecordKey());
    PresentWhenFit(schema, items, target, item.record);
  }

  lemma PresentWhenFit(schema: Schema, items: seq<Item>, target: map<Key, Target>, r: Record)
    requires TablesAgree(schema) && Planned(schema, r, Available(ApplyRecords(items), target))
    requires var plan := PlanFor(schema, items, target); forall k :: k in plan.desired && k !in plan.items ==> k in target
    ensures var plan := PlanFor(schema, items, target); plan.LoadsPresent(r) && plan.selectors(r).Ok? <==> Fits(schema, r)
  {
    AcceptedWhenPresent(schema, items, target, r);
    FitsExactly(schema, r, Available(ApplyRecords(items), target));
  }

  /** When all of the plan is written or in NetBox, present loads are loads among the available keys. */
  lemma AcceptedWhenPresent(schema: Schema, items: seq<Item>, target: map<Key, Target>, r: Record)
    requires TablesAgree(schema) && Planned(schema, r, Available(ApplyRecords(items), target))
    requires var plan := PlanFor(schema, items, target); forall k :: k in plan.desired && k !in plan.items ==> k in target
    ensures var plan := PlanFor(schema, items, target);
            plan.LoadsPresent(r) && plan.selectors(r).Ok? <==> Accepted(schema, r, Available(ApplyRecords(items), target))
  {
    SelectorsWithin(schema, r);
    var plan, available := PlanFor(schema, items, target), Available(ApplyRecords(items), target);
    forall k
      ensures k in available <==> k in plan.items || k in target
    {
      if k in plan.items {
        ReviewedApplies(items, plan.items[k]);
      }
      assert k in KeysOf(ApplyRecords(items)) <==> k in plan.desired;
    }
  }

  /**
   * Applies a comparison. Whatever order the hooks come in: success saves exactly the rows and selectors
   * the plan fixes, each reviewed record once and after its dependencies; and success is exact: NetBox and
   * the plan are ready, DiffSync can compare them, the delta is the reviewed one, and the values of the
   * creates and updates fit.
   */
  method ApplyItems(schema: Schema, declared: string -> set<CanonicalDiff.Field>, items: seq<Item>,
                    snapshot: seq<Target>, found: seq<Target>, hooks: seq<Key>)
    returns (result: Result<Applied, ApplyError>)
    requires Sane(schema, items, ByIdentity(found)) && HookOrder(hooks, items, ByIdentity(found))
    ensures result.Ok? ==> Conforms(PlanFor(schema, items, ByIdentity(found)), items, result.value)
    ensures result.Ok? <==>
            Ready(schema, items, snapshot, found) && Comparable(declared, items, found) && Goes(schema, items, ByIdentity(found))
  {
    if !SameDigest(snapshot, found) || !Settling(items) {
      return Err(NotReady);
    }
    var ordered := DependencyOrder(schema, ApplyRecords(items));
    if ordered.Err? {
      return Err(PlanRejected(ordered.error));
    }
    PlanAccepted(schema, ApplyRecords(items));
    var missing := RelationshipProblems(schema, ApplyRecords(items), ByIdentity(found));
    if missing.Err? || missing.value != {} {
      return Err(NotReady);
    }
    result := SyncItems(schema, declared, items, found, hooks);
  }

  /** A plan that can be ordered has no malformed record. */
  lemma PlanAccepted(schema: Schema, records: seq<Record>)
    requires OrderedRecords(schema, records).Ok?
    ensures forall r :: r in records ==> Dependencies(schema, r, true).Ok?
  {
    OrderSound(schema, records, OrderedRecords(schema, records).value);
    forall r | r in records
      ensures Dependencies(schema, r, true).Ok?
    {
      DeferralOnlyHidesKeys(schema, r);
    }
  }

  /** The transaction of a ready comparison. */
  method SyncItems(schema: Schema, declared: string -> set<CanonicalDiff.Field>, items: seq<Item>, found: seq<Target>, hooks: seq<Key>)
    returns (result: Result<Applied, ApplyError>)
    requires Sane(schema, items, ByIdentity(found)) && HookOrder(hooks, items, ByIdentity(found))
    requires Settling(items) && Orderly(schema, items, ByIdentity(found))
    ensures result.Ok? ==> Conforms(PlanFor(schema, items, ByIdentity(found)), items, result.value)
    ensures result.Ok? <==> Comparable(declared, items, found) && Goes(schema, items, ByIdentity(found))
  {
    EachItemOnce(schema, items);
    var prepared := PreparePlan(schema, declared, items, found);
    if prepared.Err? {
      return Err(prepared.error);
    }
    ghost var rank := ReadyToRun(schema, items, ByIdentity(found));
    result := RunPlan(schema, prepared.value, items, ByIdentity(found), hooks, rank);
  }

  /** Orders the plan, builds DiffSync's models and stores and checks that the fresh delta is still the reviewed one. */
  method PreparePlan(schema: Schema, declared: string -> set<CanonicalDiff.Field>, items: seq<Item>, found: seq<Target>)
    returns (result: Result<Plan, ApplyError>)
    ensures result.Ok? ==> result.value == PlanFor(schema, items, ByIdentity(found))
    ensures result.Ok? <==>
            && OrderedRecords(schema, ApplyRecords(items)).Ok?
            && Unambiguous(items, ApplyRecords(items))
            && Comparable(declared, items, found)
            && FreshDelta(ByKey(ApplyRecords(items)), ByIdentity(found)) == ReviewedDelta(items)
  {
    var records := ApplyRecords(items);
    var ordered := DependencyOrder(schema, records);
    if ordered.Err? {
      return Err(PlanRejected(ordered.error));
    }
    SameRecords(schema, records, ordered.value);
    var ambiguous := CheckItems(items, ordered.value);
    if ambiguous.Some? {
      return Err(AmbiguousItem(ambiguous.value));
    }
    assert Modeled(ordered.value, found) == Modeled(records, found);
    var classes := ComparisonDrafts.ModelClasses(declared, Modeled(ordered.value, found));
    if classes.None? {
      return Err(FieldCollision);
    }
    var filled := FillStore(found);
    if !filled {
      return Err(RepeatedObject);
    }
    if FreshDelta(ByKey(ordered.value), ByIdentity(found)) != ReviewedDelta(items) {
      return Err(DeltaMismatch);
    }
    return Ok(PlanFor(schema, items, ByIdentity(found)));
  }

  lemma {:induction false} CountApplied(items: seq<Item>, key: Key)
    requires Settling(items)
    ensures CountKey(items, key) == multiset(KeySeq(ApplyRecords(items)))[key]
  {
    if items != [] {
      var head, tail := ApplyRecords(items[..1]), ApplyRecords(items[1..]);
      assert Settling(items[1..]) && Applies(items[0]);
      CountApplied(items[1..], key);
      assert KeySeq(ApplyRecords(items)) == [items[0].record.RecordKey()] + KeySeq(ApplyRecords(items[1..]));
    }
  }

  /** With no conflict or skip in the list, distinct keys make every item findable by its key. */
  lemma EachItemOnce(schema: Schema, items: seq<Item>)
    requires Settling(items) && OrderedRecords(schema, ApplyRecords(items)).Ok?
    ensures Unambiguous(items, ApplyRecords(items))
  {
    var records := ApplyRecords(items);
    OrderSound(schema, records, OrderedRecords(schema, records).value);
    forall r | r in records
      ensures CountKey(items, r.RecordKey()) == 1
    {
      CountApplied(items, r.RecordKey());
      DistinctCount(KeySeq(records), r.RecordKey());
      RecordKeyListed(records, r);
    }
  }

  lemma {:induction false} DistinctCount(keys: seq<Key>, key: Key)
    requires Distinct(keys) && key in keys
    ensures multiset(keys)[key] == 1
  {
    assert keys == [keys[0]] + keys[1..];
    if key in keys[1..] {
      DistinctCount(keys[1..], key);
    }
  }

  lemma SameRecords(schema: Schema, records: seq<Record>, ordered: seq<Record>)
    requires OrderedRecords(schema, records) == Ok(ordered)
    ensures ByKey(ordered) == ByKey(records)
    ensures forall r :: r in ordered <==> r in records
  {
    OrderSound(schema, records, ordered);
    SameMultisetSameElements(ordered, records);
    SamePlanGraph(schema, ordered, records);
  }

  /** Every item that applies is either written or already in NetBox. */
  ghost predicate ItemsPresent(plan: Plan, items: seq<Item>) {
    forall i :: 0 <= i < |items| && Applies(items[i]) ==>
                  items[i].record.RecordKey() in plan.items || items[i].record.RecordKey() in plan.target
  }

  lemma ReadyItems(schema: Schema, items: seq<Item>, target: map<Key, Target>)
    requires FreshDelta(ByKey(ApplyRecords(items)), target) == ReviewedDelta(items)
    ensures ItemsPresent(PlanFor(schema, items, target), items)
  {
    forall i | 0 <= i < |items| && Applies(items[i])
      ensures items[i].record.RecordKey() in Reviewed(items) || items[i].record.RecordKey() in target
    {
      ReviewedApplies(items, items[i]);
      var k := items[i].record.RecordKey();
      assert k in ByKey(ApplyRecords(items));
      if k !in target {
        assert k in FreshDelta(ByKey(ApplyRecords(items)), target);
        assert k in ReviewedDelta(items);
      }
    }
  }

  /** DiffSync's hooks, then the deferred selectors, then the object of each item. */
  method RunPlan(ghost schema: Schema, plan: Plan, items: seq<Item>, ghost target: map<Key, Target>, hooks: seq<Key>, ghost rank: map<Key, nat>)
    returns (result: Result<Applied, ApplyError>)
    requires RunsExactly(schema, items, target, plan, rank)
    requires plan.items == Reviewed(items) && Elements(hooks) == ReviewedDelta(items).Keys
    ensures result.Ok? ==> Conforms(plan, items, result.value)
    ensures result.Ok? <==> Goes(schema, items, target)
  {
    var backend := new Backend(plan);
    var outcome := RunHooks(backend, hooks, ReviewedDelta(items), rank);
    if outcome.Done? {
      outcome := backend.WriteDeferredRelationships(rank);
    }
    if outcome.Failed? {
      return Err(outcome.error);
    }
    SelectorsAreFinal(plan, backend.Now(), backend.selected);
    RowsAreFinal(plan, backend.Now());
    var applied := Applied(backend.rows, backend.selected, backend.mutableRecords, map[]);
    // After a clean run every item has an object, so this look-up no longer fails.
    var objects := backend.ObjectsByItem(items);
    return Ok(applied.(objects := objects.value));
  }
}
