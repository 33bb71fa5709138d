/**
 * The mutation backend. DiffSync calls one create or update hook per reviewed record, in an order of
 * its own; the backend materialises a record's dependencies on demand and uses one object cache both
 * to look objects up and to remember what has already been written.
 */
module MutationBackend {
  import opened Prelude
  import opened KeyOrder
  import opened ApplicationPlanning
  import opened RecordWrites

  datatype Outcome = Done | Failed(error: ApplyError)

  /**
   * `items` are the reviewed creates and updates, `target` is NetBox as it is now and `desired` holds
   * every record of the plan. `dependencies`, `loads` and `selectors` are what relationship analysis
   * says a record needs before its write, what the write looks up, and what is written after all others.
   */
  datatype Plan = Plan(
    dependencies: Record -> Result<seq<Key>, PlanError>,
    loads: Record -> Result<seq<Load>, ApplyError>,
    selectors: Record -> Result<seq<Selector>, ApplyError>,
    items: map<Key, Item>,
    target: map<Key, Target>,
    desired: map<Key, Record>)
  {
    ghost predicate WellFormed() {
      && items.Keys <= desired.Keys
      && (forall k :: k in desired ==> desired[k].RecordKey() == k)
      && (forall k :: k in items ==> items[k].action in {Create, Update})
      && (forall k, d :: k in desired && d in items && LoadsKey(desired[k], d) ==> d in Needs(desired[k]))
    }

    /** The write of a record looks this key up. */
    predicate LoadsKey(r: Record, key: Key) {
      loads(r).Ok? && exists load :: load in loads(r).value && load.key == key
    }

    /** What the write of a record looks up is well formed and under review or in NetBox. */
    ghost predicate LoadsPresent(r: Record) {
      loads(r).Ok? && forall load :: load in loads(r).value ==> load.key in items || load.key in target
    }

    /** The keys a record needs before it can be written. */
    function Needs(r: Record): set<Key> {
      match dependencies(r)
      case Ok(keys) => Elements(keys)
      case Err(_) => {}
    }

    /** The one object a key denotes in this transaction, whoever asks for it and whenever. */
    function HandleOf(k: Key): Handle {
      if k in target then Loaded(target[k].reference) else Created(k)
    }

    function LinksOf(loads: seq<Load>): seq<Link> {
      if loads == [] then []
      else
        var last := loads[|loads| - 1];
        LinksOf(loads[..|loads| - 1]) + [Link(last.name, HandleOf(last.key))]
    }

    /** The row the hook for k saves. */
    function WrittenRow(k: Key): Row
      requires k in desired && loads(desired[k]).Ok?
    {
      Row(HandleOf(k), desired[k], LinksOf(loads(desired[k]).value))
    }

    function SelectorRow(chosen: seq<Selector>): map<string, Option<Handle>> {
      if chosen == [] then map[]
      else
        var last := chosen[|chosen| - 1];
        SelectorRow(chosen[..|chosen| - 1])[last.name := if last.target.None? then None else Some(HandleOf(last.target.value))]
    }

    /** The selectors of the given records, under their keys. */
    function SelectedFor(records: seq<Record>): map<Key, map<string, Option<Handle>>> {
      if records == [] then map[]
      else
        var last := records[|records| - 1];
        SelectedFor(records[..|records| - 1])[last.RecordKey() :=
          if selectors(last).Ok? then SelectorRow(selectors(last).value) else map[]]
    }

    function ObjectsFor(all: seq<Item>): map<nat, Handle> {
      if all == [] then map[]
      else
        var last := all[|all| - 1];
        var before := ObjectsFor(all[..|all| - 1]);
        if Applies(last) then before[last.pk := HandleOf(last.record.RecordKey())] else before
    }

    /** The reviewed delta, revalidated: creates are absent from NetBox, updates still match the reviewed object. */
    ghost predicate DeltaHolds() {
      && (forall k :: k in items && items[k].action == Create ==> k !in target)
      && (forall k :: k in items && items[k].action == Update ==> k in target && items[k].reviewed == target[k].reference)
      && (forall k :: k in desired && k !in items ==> k in target)
    }

    /** Every record is well formed and refers, at once or later, to nothing outside the plan and NetBox. */
    ghost predicate ReferencesHold() {
      forall k :: k in desired ==>
                    && dependencies(desired[k]).Ok?
                    && Needs(desired[k]) <= desired.Keys + target.Keys
                    && (selectors(desired[k]).Ok? ==> TargetsWithin(selectors(desired[k]).value, desired.Keys + target.Keys))
    }

    /** `rank` witnesses an accepted dependency order. */
    ghost predicate RankedBy(rank: map<Key, nat>) {
      && rank.Keys == desired.Keys
      && (forall k, d :: k in desired && d in Needs(desired[k]) && d in desired ==> rank[d] < rank[k])
    }

    /** No reviewed write meets a malformed relationship value or an object that is not there. */
    ghost predicate Writable() {
      forall k :: k in items && k in desired ==> LoadsPresent(desired[k]) && selectors(desired[k]).Ok?
    }

    /** An object NetBox has under this key is the one the item was reviewed against. */
    ghost predicate AsReviewed(k: Key) {
      k in items && k in target ==> items[k].reviewed == target[k].reference
    }

    ghost predicate Meets(rank: map<Key, nat>, condition: Condition) {
      match condition
      case Delta => DeltaHolds()
      case References => ReferencesHold()
      case Order => RankedBy(rank)
      case Values => Writable()
    }

    /** Everything readiness checks: the delta, the references, the dependency order and the values. */
    ghost predicate Applicable(rank: map<Key, nat>) {
      forall condition :: Meets(rank, condition)
    }
  }

  datatype Condition = Delta | References | Order | Values

  // ---- The invariant, on values ---------------------------------------------------------------

  /** Every cache entry is the one object its key denotes. */
  ghost predicate CacheTruthful(plan: Plan, cache: map<Key, Handle>) {
    forall k :: k in cache ==> cache[k] == plan.HandleOf(k) && (k in plan.items || k in plan.target)
  }

  /** Whoever filled the cache, an entry is the one object its key denotes, and a reviewed key is there only once written. */
  ghost predicate CacheSound(plan: Plan, cache: map<Key, Handle>, rows: map<Key, Row>) {
    && CacheTruthful(plan, cache)
    && (forall k :: k in cache && k in plan.items ==> k in rows)
    && rows.Keys <= cache.Keys
  }

  /** Every reviewed immediate dependency of the i-th write stands among the writes before it. */
  ghost predicate WrittenInOrder(plan: Plan, records: seq<Record>) {
    forall i, d :: 0 <= i < |records| && d in plan.Needs(records[i]) && d in plan.items ==>
                     d in KeySeq(records)[..i]
  }

  /** Each write is logged once, under its own key, after every reviewed record it depends on. */
  ghost predicate LogSound(plan: Plan, records: seq<Record>, rows: map<Key, Row>) {
    && Distinct(KeySeq(records))
    && Elements(KeySeq(records)) == rows.Keys
    && rows.Keys <= plan.items.Keys
    && (forall r :: r in records ==> r.RecordKey() in plan.desired && plan.desired[r.RecordKey()] == r)
    && WrittenInOrder(plan, records)
  }

  ghost predicate RowsSound(plan: Plan, rows: map<Key, Row>) {
    && rows.Keys <= plan.desired.Keys
    && (forall k :: k in rows ==> plan.LoadsPresent(plan.desired[k]) && rows[k] == plan.WrittenRow(k) && plan.AsReviewed(k))
  }

  /** How far a run of the backend has come. */
  datatype Progress = Progress(cache: map<Key, Handle>, rows: map<Key, Row>, records: seq<Record>, open: set<Key>)

  datatype Clause = PlanClause | OpenClause | CacheClause | LogClause | RowsClause

  ghost predicate Holds(plan: Plan, p: Progress, clause: Clause) {
    match clause
    case PlanClause => plan.WellFormed()
    case OpenClause => p.open <= plan.items.Keys && p.open !! p.cache.Keys
    case CacheClause => CacheSound(plan, p.cache, p.rows)
    case LogClause => LogSound(plan, p.records, p.rows)
    case RowsClause => RowsSound(plan, p.rows)
  }

  /** The backend's invariant. */
  ghost predicate Sound(plan: Plan, p: Progress) {
    forall clause :: Holds(plan, p, clause)
  }

  /** The next record ranks below every record being materialised. */
  ghost predicate OpenAbove(rank: map<Key, nat>, open: set<Key>, key: Key) {
    key in rank && forall k :: k in open ==> k in rank && rank[key] < rank[k]
  }

  /** The innermost record being materialised has the least rank. */
  ghost predicate OpenFrom(rank: map<Key, nat>, open: set<Key>, key: Key) {
    key in rank && forall k :: k in open ==> k in rank && rank[key] <= rank[k]
  }

  /** An applicable plan reaches this hook, with its reviewed action, below everything being materialised. */
  ghost predicate Unobstructed(plan: Plan, rank: map<Key, nat>, open: set<Key>, key: Key, action: Action) {
    plan.Applicable(rank) && key in plan.items && plan.items[key].action == action && OpenAbove(rank, open, key)
  }

  lemma OpenDescends(plan: Plan, rank: map<Key, nat>, open: set<Key>, record: Record, key: Key)
    requires plan.WellFormed()
    requires record.RecordKey() in plan.desired && plan.desired[record.RecordKey()] == record
    requires key in plan.Needs(record) && key in plan.desired
    requires plan.Applicable(rank) && OpenFrom(rank, open, record.RecordKey())
    ensures OpenAbove(rank, open, key)
  {
    assert plan.Meets(rank, Order);
  }

  lemma HookAccepted(plan: Plan, rank: map<Key, nat>, key: Key)
    requires plan.Applicable(rank) && key in plan.items
    ensures plan.items[key].action == Create ==> key !in plan.target
    ensures plan.items[key].action == Update ==> key in plan.target && plan.items[key].reviewed == plan.target[key].reference
  {
    assert plan.Meets(rank, Delta);
  }

  /** What the plan checks promise the relationship loads of a reviewed write. */
  lemma LoadsAvailable(plan: Plan, rank: map<Key, nat>, record: Record)
    requires plan.WellFormed() && plan.Applicable(rank)
    requires record.RecordKey() in plan.items && plan.desired[record.RecordKey()] == record
    ensures plan.dependencies(record).Ok? && plan.LoadsPresent(record)
  {
    assert plan.Meets(rank, References) && plan.Meets(rank, Values);
  }

  lemma DependenciesAccepted(plan: Plan, p: Progress, rank: map<Key, nat>, record: Record)
    requires Sound(plan, p)
    requires record.RecordKey() in plan.items && record.RecordKey() in plan.desired && plan.desired[record.RecordKey()] == record
    ensures plan.Applicable(rank) ==> plan.dependencies(record).Ok?
  {
    CacheFacts(plan, p);
    if plan.Applicable(rank) {
      LoadsAvailable(plan, rank, record);
    }
  }

  lemma LogExtends(plan: Plan, records: seq<Record>, record: Record)
    requires Distinct(KeySeq(records)) && WrittenInOrder(plan, records)
    requires record.RecordKey() !in KeySeq(records)
    requires forall d :: d in plan.Needs(record) && d in plan.items ==> d in KeySeq(records)
    ensures KeySeq(records + [record]) == KeySeq(records) + [record.RecordKey()]
    ensures Distinct(KeySeq(records + [record])) && WrittenInOrder(plan, records + [record])
  {
    var more := records + [record];
    assert KeySeq(more) == KeySeq(records) + [record.RecordKey()];
    forall i, d | 0 <= i < |more| && d in plan.Needs(more[i]) && d in plan.items
      ensures d in KeySeq(more)[..i]
    {
      if i < |records| {
        assert KeySeq(more)[..i] == KeySeq(records)[..i];
      } else {
        assert KeySeq(more)[..i] == KeySeq(records);
      }
    }
  }

  /** Saving a record whose dependencies are in the cache keeps the invariant and closes the record. */
  lemma SoundAfterWrite(plan: Plan, p: Progress, record: Record)
    requires Sound(plan, p)
    requires record.RecordKey() in p.open && record.RecordKey() in plan.desired && plan.desired[record.RecordKey()] == record
    requires forall d :: d in plan.Needs(record) && d in plan.items ==> d in p.cache
    requires plan.LoadsPresent(record) && plan.AsReviewed(record.RecordKey())
    ensures var k := record.RecordKey();
            Sound(plan, Progress(p.cache[k := plan.HandleOf(k)], p.rows[k := plan.WrittenRow(k)], p.records + [record], p.open - {k}))
  {
    var k := record.RecordKey();
    var q := Progress(p.cache[k := plan.HandleOf(k)], p.rows[k := plan.WrittenRow(k)], p.records + [record], p.open - {k});
    forall clause
      ensures Holds(plan, q, clause)
    {
      assert Holds(plan, p, clause) && Holds(plan, p, OpenClause) && Holds(plan, p, CacheClause);
      match clause {
        case PlanClause =>
        case OpenClause =>
        case CacheClause => assert q.rows.Keys == p.rows.Keys + {k};
        case LogClause => LogAfterWrite(plan, p, record);
        case RowsClause => assert q.rows.Keys == p.rows.Keys + {k};
      }
    }
  }

  lemma LogAfterWrite(plan: Plan, p: Progress, record: Record)
    requires Holds(plan, p, LogClause) && Holds(plan, p, CacheClause) && Holds(plan, p, OpenClause)
    requires record.RecordKey() in p.open && record.RecordKey() in plan.desired && plan.desired[record.RecordKey()] == record
    requires forall d :: d in plan.Needs(record) && d in plan.items ==> d in p.cache
    requires plan.loads(record).Ok?
    ensures LogSound(plan, p.records + [record], p.rows[record.RecordKey() := plan.WrittenRow(record.RecordKey())])
  {
    var k := record.RecordKey();
    var keys := KeySeq(p.records);
    forall d
      ensures d in keys <==> d in p.rows
    {
      assert d in keys <==> d in Elements(keys);
    }
    LogExtends(plan, p.records, record);
    assert p.rows[k := plan.WrittenRow(k)].Keys == p.rows.Keys + {k};
    assert Elements(keys + [k]) == Elements(keys) + {k};
  }

  lemma SoundAfterLoad(plan: Plan, p: Progress, k: Key)
    requires Sound(plan, p)
    requires k in plan.target && k !in plan.items
    ensures Sound(plan, p.(cache := p.cache[k := plan.HandleOf(k)]))
  {
    var q := p.(cache := p.cache[k := plan.HandleOf(k)]);
    forall clause
      ensures Holds(plan, q, clause)
    {
      assert Holds(plan, p, clause);
    }
  }

  lemma SoundOpen(plan: Plan, p: Progress, k: Key)
    requires Sound(plan, p)
    requires k in plan.items && k !in p.cache
    ensures Sound(plan, p.(open := p.open + {k}))
  {
    var q := p.(open := p.open + {k});
    forall clause
      ensures Holds(plan, q, clause)
    {
      assert Holds(plan, p, clause);
    }
  }

  lemma SoundClose(plan: Plan, p: Progress, k: Key)
    requires Sound(plan, p)
    ensures Sound(plan, p.(open := p.open - {k}))
  {
    var q := p.(open := p.open - {k});
    forall clause
      ensures Holds(plan, q, clause)
    {
      assert Holds(plan, p, clause);
    }
  }

  /** What the cache of a sound run may be used for. */
  lemma CacheFacts(plan: Plan, p: Progress)
    requires Sound(plan, p)
    ensures plan.WellFormed()
    ensures CacheTruthful(plan, p.cache)
    ensures forall k :: k in p.open ==> k in plan.items && k !in p.cache
  {
    assert Holds(plan, p, PlanClause) && Holds(plan, p, CacheClause) && Holds(plan, p, OpenClause);
  }

  lemma FreshIsSound(plan: Plan)
    requires plan.WellFormed()
    ensures Sound(plan, Progress(map[], map[], [], {}))
  {
    assert KeySeq([]) == [];
  }

  // ---- The backend ----------------------------------------------------------------------------

  class Backend {
    const plan: Plan
    var objectCache: map<Key, Handle>
    var mutableRecords: seq<Record>
    var materializing: set<Key>
    /** The rows this transaction has saved, on top of the NetBox database, and the selectors saved later. */
    var rows: map<Key, Row>
    var selected: map<Key, map<string, Option<Handle>>>

    constructor (plan: Plan)
      requires plan.WellFormed()
      ensures this.plan == plan && Valid()
      ensures objectCache == map[] && mutableRecords == [] && materializing == {} && rows == map[] && selected == map[]
    {
      this.plan := plan;
      objectCache, mutableRecords, materializing, rows, selected := map[], [], {}, map[], map[];
      FreshIsSound(plan);
    }

    function Now(): Progress
      reads this
    {
      Progress(objectCache, rows, mutableRecords, materializing)
    }

    ghost predicate Valid()
      reads this
    {
      Sound(plan, Now())
    }

    /** Every entry of the cache is the object its key denotes. */
    ghost predicate Truthful()
      reads this
    {
      CacheTruthful(plan, objectCache)
    }

    /** Looks one relationship target up, loading and caching it when NetBox already has it. */
    method RelationshipObject(key: Key) returns (result: Result<Handle, ApplyError>)
      requires Truthful()
      modifies this`objectCache
      ensures result == if key in old(objectCache) || key in plan.target then Ok(plan.HandleOf(key)) else Err(Unavailable(key))
      ensures objectCache == if result.Ok? then old(objectCache)[key := plan.HandleOf(key)] else old(objectCache)
      ensures Truthful()
      ensures old(Valid()) && (key in plan.items ==> key in old(objectCache)) ==> Valid()
    {
      if key in objectCache {
        return Ok(objectCache[key]);
      }
      if key !in plan.target {
        return Err(Unavailable(key));
      }
      if Valid() && key !in plan.items {
        SoundAfterLoad(plan, Now(), key);
      }
      var handle := Loaded(plan.target[key].reference);
      objectCache := objectCache[key := handle];
      return Ok(handle);
    }

    method RelationshipObjects(loads: seq<Load>) returns (result: Result<seq<Link>, ApplyError>)
      requires Truthful()
      modifies this`objectCache
      ensures Truthful()
      ensures old(objectCache).Keys <= objectCache.Keys <= old(objectCache).Keys + KeysOfLoads(loads)
      ensures result.Ok? ==> result.value == plan.LinksOf(loads)
      ensures result.Ok? <==> forall load :: load in loads ==> load.key in old(objectCache) || load.key in plan.target
      ensures old(Valid()) && (forall load :: load in loads && load.key in plan.items ==> load.key in old(objectCache)) ==> Valid()
    {
      var links: seq<Link> := [];
      for i := 0 to |loads|
        invariant Truthful()
        invariant old(objectCache).Keys <= objectCache.Keys <= old(objectCache).Keys + KeysOfLoads(loads[..i])
        invariant links == plan.LinksOf(loads[..i])
        invariant forall load :: load in loads[..i] ==> load.key in old(objectCache) || load.key in plan.target
        invariant old(Valid()) && (forall load :: load in loads && load.key in plan.items ==> load.key in old(objectCache)) ==> Valid()
      {
        assert loads[..i + 1] == loads[..i] + [loads[i]];
        assert loads[..i + 1][..i] == loads[..i];
        assert loads[i] in loads;
        var handle := RelationshipObject(loads[i].key);
        if handle.Err? {
          return Err(handle.error);
        }
        links := links + [Link(loads[i].name, handle.value)];
      }
      assert loads[..|loads|] == loads;
      return Ok(links);
    }

    /** Writes one record whose dependencies are materialised, then enters it in the cache and the log. */
    method WriteObject(record: Record, handle: Handle, ghost rank: map<Key, nat>) returns (outcome: Outcome)
      requires Valid()
      requires record.RecordKey() in materializing && handle == plan.HandleOf(record.RecordKey())
      requires plan.AsReviewed(record.RecordKey())
      requires record.RecordKey() in plan.desired && plan.desired[record.RecordKey()] == record
      requires plan.dependencies(record).Ok?
      requires forall d :: d in plan.Needs(record) && d in plan.items ==> d in objectCache
      modifies this`objectCache, this`rows, this`mutableRecords
      ensures Sound(plan, Now().(open := materializing - {record.RecordKey()}))
      ensures old(objectCache).Keys <= objectCache.Keys
      ensures outcome.Done? ==> record.RecordKey() in objectCache && mutableRecords == old(mutableRecords) + [record]
      ensures outcome.Failed? ==> mutableRecords == old(mutableRecords)
      ensures plan.Applicable(rank) ==> outcome.Done?
    {
      var key := record.RecordKey();
      CacheFacts(plan, Now());
      SoundClose(plan, Now(), key);
      if plan.Applicable(rank) {
        LoadsAvailable(plan, rank, record);
      }
      var loads := plan.loads(record);
      if loads.Err? {
        return Failed(loads.error);
      }
      assert forall load :: load in loads.value && load.key in plan.items ==> plan.LoadsKey(record, load.key);
      var links := RelationshipObjects(loads.value);
      if links.Err? {
        SoundClose(plan, Now(), key);
        return Failed(links.error);
      }
      SoundAfterWrite(plan, Now(), record);
      rows := rows[key := Row(handle, record, links.value)];
      objectCache := objectCache[key := handle];
      mutableRecords := mutableRecords + [record];
      return Done;
    }

    method Create(record: Record, ghost rank: map<Key, nat>) returns (outcome: Outcome)
      requires Valid()
      requires record.RecordKey() in plan.items && record.RecordKey() in plan.desired
      requires plan.desired[record.RecordKey()] == record
      modifies this`objectCache, this`rows, this`mutableRecords, this`materializing
      ensures Valid() && materializing == old(materializing)
      ensures old(objectCache).Keys <= objectCache.Keys && old(mutableRecords) <= mutableRecords
      ensures outcome.Done? ==> record.RecordKey() in objectCache
      ensures record.RecordKey() !in old(objectCache) && record.RecordKey() in plan.target ==>
                outcome == Failed(TargetAppeared(record.RecordKey()))
      ensures Unobstructed(plan, rank, materializing, record.RecordKey(), Action.Create) ==> outcome.Done?
      decreases |plan.desired.Keys - materializing|, 1
    {
      var key := record.RecordKey();
      if key in objectCache {
        return Done;
      }
      if plan.Applicable(rank) {
        HookAccepted(plan, rank, key);
      }
      if key in plan.target {
        return Failed(TargetAppeared(key));
      }
      outcome := Materialize(record, Created(key), rank);
    }

    method Update(record: Record, ghost rank: map<Key, nat>) returns (outcome: Outcome)
      requires Valid()
      requires record.RecordKey() in plan.desired && plan.desired[record.RecordKey()] == record
      modifies this`objectCache, this`rows, this`mutableRecords, this`materializing
      ensures Valid() && materializing == old(materializing)
      ensures old(objectCache).Keys <= objectCache.Keys && old(mutableRecords) <= mutableRecords
      ensures outcome.Done? ==> record.RecordKey() in objectCache
      ensures record.RecordKey() !in old(objectCache) ==>
                var key := record.RecordKey();
                if key !in plan.items || key !in plan.target then outcome == Failed(TargetDisappeared(key))
                else plan.items[key].reviewed != plan.target[key].reference ==> outcome == Failed(TargetChanged(key))
      ensures Unobstructed(plan, rank, materializing, record.RecordKey(), Action.Update) ==> outcome.Done?
      decreases |plan.desired.Keys - materializing|, 1
    {
      var key := record.RecordKey();
      if key in objectCache {
        return Done;
      }
      if plan.Applicable(rank) && key in plan.items {
        HookAccepted(plan, rank, key);
      }
      if key !in plan.items || key !in plan.target {
        return Failed(TargetDisappeared(key));
      }
      if plan.items[key].reviewed != plan.target[key].reference {
        return Failed(TargetChanged(key));
      }
      outcome := Materialize(record, Loaded(plan.target[key].reference), rank);
    }

    /** The part the two hooks share: mark the record, materialise what it needs, write it, unmark it. */
    method Materialize(record: Record, handle: Handle, ghost rank: map<Key, nat>) returns (outcome: Outcome)
      requires Valid()
      requires record.RecordKey() in plan.items && record.RecordKey() !in objectCache
      requires record.RecordKey() in plan.desired && plan.desired[record.RecordKey()] == record
      requires handle == plan.HandleOf(record.RecordKey()) && plan.AsReviewed(record.RecordKey())
      modifies this`objectCache, this`rows, this`mutableRecords, this`materializing
      ensures Valid() && materializing == old(materializing)
      ensures old(objectCache).Keys <= objectCache.Keys && old(mutableRecords) <= mutableRecords
      ensures outcome.Done? ==> record.RecordKey() in objectCache
      ensures record.RecordKey() in old(materializing) ==> outcome == Failed(CycleAt(record.RecordKey()))
      ensures plan.Applicable(rank) && OpenAbove(rank, materializing, record.RecordKey()) ==> outcome.Done?
      decreases |plan.desired.Keys - materializing|, 0
    {
      var key := record.RecordKey();
      if key in materializing {
        return Failed(CycleAt(key));
      }
      OpenShrinks(plan.desired.Keys, materializing, key);
      SoundOpen(plan, Now(), key);
      ghost var open := materializing;
      materializing := materializing + {key};
      outcome := MaterializeDependencies(record, rank);
      SoundClose(plan, Now(), key);
      if outcome.Done? {
        outcome := WriteObject(record, handle, rank);
      }
      assert materializing - {key} == open;
      materializing := materializing - {key};
    }

    method MaterializeDependencies(record: Record, ghost rank: map<Key, nat>) returns (outcome: Outcome)
      requires Valid()
      requires record.RecordKey() in plan.items
      requires record.RecordKey() in plan.desired && plan.desired[record.RecordKey()] == record
      modifies this`objectCache, this`rows, this`mutableRecords, this`materializing
      ensures Valid() && materializing == old(materializing)
      ensures old(objectCache).Keys <= objectCache.Keys && old(mutableRecords) <= mutableRecords
      ensures outcome.Done? ==> plan.dependencies(record).Ok?
      ensures outcome.Done? ==> forall d :: d in plan.Needs(record) && d in plan.items ==> d in objectCache
      ensures plan.Applicable(rank) && OpenFrom(rank, materializing, record.RecordKey()) ==> outcome.Done?
      decreases |plan.desired.Keys - materializing|, 3
    {
      DependenciesAccepted(plan, Now(), rank, record);
      var keys := plan.dependencies(record);
      if keys.Err? {
        return Failed(PlanRejected(keys.error));
      }
      for i := 0 to |keys.value|
        invariant Valid() && materializing == old(materializing)
        invariant old(objectCache).Keys <= objectCache.Keys && old(mutableRecords) <= mutableRecords
        invariant forall j :: 0 <= j < i && keys.value[j] in plan.items ==> keys.value[j] in objectCache
      {
        assert keys.value[i] in plan.Needs(record);
        outcome := MaterializeKey(keys.value[i], record, rank);
        if outcome.Failed? {
          return;
        }
      }
      return Done;
    }

    /** Writes one dependency unless it is not under review or already written. */
    method MaterializeKey(key: Key, ghost record: Record, ghost rank: map<Key, nat>) returns (outcome: Outcome)
      requires Valid()
      requires record.RecordKey() in plan.desired && plan.desired[record.RecordKey()] == record
      requires key in plan.Needs(record)
      modifies this`objectCache, this`rows, this`mutableRecords, this`materializing
      ensures Valid() && materializing == old(materializing)
      ensures old(objectCache).Keys <= objectCache.Keys && old(mutableRecords) <= mutableRecords
      ensures outcome.Done? && key in plan.items ==> key in objectCache
      ensures plan.Applicable(rank) && OpenFrom(rank, materializing, record.RecordKey()) ==> outcome.Done?
      decreases |plan.desired.Keys - materializing|, 2
    {
      CacheFacts(plan, Now());
      if key !in plan.items || key !in plan.desired || key in objectCache {
        return Done;
      }
      if plan.Applicable(rank) && OpenFrom(rank, materializing, record.RecordKey()) {
        OpenDescends(plan, rank, materializing, record, key);
      }
      if plan.items[key].action == Action.Create {
        outcome := Create(plan.desired[key], rank);
      } else {
        outcome := Update(plan.desired[key], rank);
      }
    }

    /** Resolves one record's selectors once every reviewed record is written. */
    method ResolveSelectors(chosen: seq<Selector>) returns (result: Result<map<string, Option<Handle>>, ApplyError>)
      requires Valid() && plan.items.Keys <= objectCache.Keys
      modifies this`objectCache
      ensures Valid() && old(objectCache).Keys <= objectCache.Keys
      ensures result.Ok? ==> result.value == plan.SelectorRow(chosen)
      ensures TargetsWithin(chosen, plan.items.Keys + plan.target.Keys) ==> result.Ok?
    {
      var row: map<string, Option<Handle>> := map[];
      for i := 0 to |chosen|
        invariant Valid() && old(objectCache).Keys <= objectCache.Keys
        invariant row == plan.SelectorRow(chosen[..i])
      {
        assert chosen[..i + 1][..i] == chosen[..i];
        if chosen[i].target.None? {
          row := row[chosen[i].name := None];
        } else {
          CacheFacts(plan, Now());
          var handle := RelationshipObject(chosen[i].target.value);
          if handle.Err? {
            return Err(handle.error);
          }
          row := row[chosen[i].name := Some(handle.value)];
        }
      }
      assert chosen[..|chosen|] == chosen;
      return Ok(row);
    }

    /** Reads and resolves the selectors of one written record. */
    method RecordSelectors(record: Record, ghost rank: map<Key, nat>) returns (result: Result<map<string, Option<Handle>>, ApplyError>)
      requires Valid() && plan.items.Keys <= objectCache.Keys && record in mutableRecords
      modifies this`objectCache
      ensures Valid() && old(objectCache).Keys <= objectCache.Keys
      ensures result.Ok? ==> plan.selectors(record).Ok? && result.value == plan.SelectorRow(plan.selectors(record).value)
      ensures plan.Applicable(rank) ==> result.Ok?
    {
      LogEntry(plan, Now(), record);
      if plan.Applicable(rank) {
        SelectorsAvailable(plan, rank, record);
      }
      var chosen := plan.selectors(record);
      if chosen.Err? {
        return Err(chosen.error);
      }
      result := ResolveSelectors(chosen.value);
    }

    /** The second pass: every written record gets its deferred selectors. */
    method WriteDeferredRelationships(ghost rank: map<Key, nat>) returns (outcome: Outcome)
      requires Valid() && plan.items.Keys <= objectCache.Keys && selected == map[]
      modifies this`objectCache, this`selected
      ensures Valid() && old(objectCache).Keys <= objectCache.Keys
      ensures outcome.Done? ==> selected == plan.SelectedFor(mutableRecords)
      ensures outcome.Done? ==> forall r :: r in mutableRecords ==> plan.selectors(r).Ok?
      ensures plan.Applicable(rank) ==> outcome.Done?
    {
      for i := 0 to |mutableRecords|
        invariant Valid() && old(objectCache).Keys <= objectCache.Keys
        invariant selected == plan.SelectedFor(mutableRecords[..i])
        invariant forall j :: 0 <= j < i ==> plan.selectors(mutableRecords[j]).Ok?
      {
        assert mutableRecords[..i + 1][..i] == mutableRecords[..i];
        var row := RecordSelectors(mutableRecords[i], rank);
        if row.Err? {
          return Failed(row.error);
        }
        selected := selected[mutableRecords[i].RecordKey() := row.value];
      }
      assert mutableRecords[..|mutableRecords|] == mutableRecords;
      return Done;
    }

    /** The object behind each item of the comparison, written or merely looked up. */
    method ObjectsByItem(items: seq<Item>) returns (result: Result<map<nat, Handle>, ApplyError>)
      requires Valid() && plan.items.Keys <= objectCache.Keys
      modifies this`objectCache
      ensures Valid()
      ensures result.Ok? ==> result.value == plan.ObjectsFor(items)
      ensures result.Ok? <==> forall i :: 0 <= i < |items| && Applies(items[i]) ==>
                items[i].record.RecordKey() in plan.items || items[i].record.RecordKey() in plan.target
    {
      var objects: map<nat, Handle> := map[];
      for i := 0 to |items|
        invariant Valid() && plan.items.Keys <= objectCache.Keys
        invariant objects == plan.ObjectsFor(items[..i])
        invariant forall j :: 0 <= j < i && Applies(items[j]) ==>
                    items[j].record.RecordKey() in plan.items || items[j].record.RecordKey() in plan.target
      {
        assert items[..i + 1][..i] == items[..i];
        if Applies(items[i]) {
          CacheFacts(plan, Now());
          var handle := RelationshipObject(items[i].record.RecordKey());
          if handle.Err? {
            return Err(TargetDisappeared(items[i].record.RecordKey()));
          }
          objects := objects[items[i].pk := handle.value];
        }
      }
      assert items[..|items|] == items;
      return Ok(objects);
    }
  }

  predicate Applies(item: Item) {
    item.action in {Action.Create, Action.Update, NoChange}
  }

  lemma LogEntry(plan: Plan, p: Progress, r: Record)
    requires Sound(plan, p) && r in p.records
    ensures r.RecordKey() in plan.items && r.RecordKey() in plan.desired && plan.desired[r.RecordKey()] == r
  {
    LogFacts(plan, p);
  }

  lemma RecordKeyListed(records: seq<Record>, r: Record)
    requires r in records
    ensures r.RecordKey() in Elements(KeySeq(records))
  {
    var i :| 0 <= i < |records| && records[i] == r;
    assert KeySeq(records)[i] in Elements(KeySeq(records));
  }

  /** What the log of a sound run says. */
  lemma LogFacts(plan: Plan, p: Progress)
    requires Sound(plan, p)
    ensures Distinct(KeySeq(p.records)) && Elements(KeySeq(p.records)) == p.rows.Keys <= plan.items.Keys
    ensures plan.items.Keys <= p.cache.Keys ==> p.rows.Keys == plan.items.Keys
    ensures forall r :: r in p.records ==>
              r.RecordKey() in plan.items && r.RecordKey() in plan.desired && plan.desired[r.RecordKey()] == r
    ensures WrittenInOrder(plan, p.records)
    ensures forall k :: k in p.rows ==>
              k in plan.desired && plan.LoadsPresent(plan.desired[k]) && p.rows[k] == plan.WrittenRow(k) && plan.AsReviewed(k)
  {
    assert Holds(plan, p, LogClause) && Holds(plan, p, RowsClause) && Holds(plan, p, CacheClause);
    forall r | r in p.records
      ensures r.RecordKey() in plan.items
    {
      RecordKeyListed(p.records, r);
    }
  }

  lemma SelectorsAvailable(plan: Plan, rank: map<Key, nat>, record: Record)
    requires plan.Applicable(rank)
    requires record.RecordKey() in plan.items && record.RecordKey() in plan.desired && plan.desired[record.RecordKey()] == record
    ensures plan.selectors(record).Ok?
    ensures TargetsWithin(plan.selectors(record).value, plan.items.Keys + plan.target.Keys)
  {
    assert plan.Meets(rank, Delta) && plan.Meets(rank, References) && plan.Meets(rank, Values);
  }
}
