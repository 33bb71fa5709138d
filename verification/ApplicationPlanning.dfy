/**
 * The apply planner: which records a record depends on, and the layered order in which a plan's
 * records can be written. The per-kind tables of the registry are the parameter `Schema`.
 */
module ApplicationPlanning {
  import opened Prelude
  import opened KeyOrder
  import CustomFieldNames

  datatype Relationship = Relationship(name: string, value: Json)

  datatype Record = Record(
    kind: string,
    identity: string,
    attributes: map<string, Json>,
    relationships: seq<Relationship>,
    displayName: string)
  {
    function RecordKey(): Key {
      Key(kind, identity)
    }

    function Attribute(path: string): Json {
      if path in attributes then attributes[path] else Null
    }

    function Related(name: string): Json {
      Lookup(relationships, name)
    }
  }

  /** A custom field as NetBox defines it for a kind, if it does. */
  datatype CustomField = Undefined | Plain | Untargeted | ToOne(kind: string) | ToMany(kind: string)

  /**
   * The writer's own tables: the scalar relationships of a kind and the kinds they link to, the lists of a
   * configuration context, the kinds with tags or custom fields, the definitions of custom fields and the
   * parser of their relationship names.
   */
  datatype Writer = Writer(
    fields: string -> seq<(string, string)>,
    contextLists: seq<(string, string)>,
    tagged: set<string>,
    customized: set<string>,
    customField: (string, string) -> CustomField,
    parse: string -> Option<CustomFieldNames.Parsed>)

  /**
   * `applicable` are the kinds with a relationship table; `target`, `multi` and `required` read the tables;
   * `portMapping` reads the two positions out of a port-mapping relationship name.
   */
  datatype Schema = Schema(
    applicable: set<string>,
    target: (string, string) -> Option<string>,
    multi: (string, string) -> bool,
    required: string -> set<string>,
    customFieldIdentity: string -> Option<string>,
    portMapping: string -> Option<(int, int)>,
    writer: Writer)

  datatype PlanError =
    | DuplicateIdentity
    | UnsupportedKind
    | BadShape
    | MissingRelationship
    | UnsupportedRelationship
    | WrongCardinality
    | BadIdentity
    | BadCustomFields
    | Cycle

  // ---- Reading one record ---------------------------------------------------------------------

  function Lookup(relationships: seq<Relationship>, name: string): (value: Json)
    ensures value == Null || Relationship(name, value) in relationships
  {
    if relationships == [] then Null
    else if relationships[0].name == name then relationships[0].value
    else Lookup(relationships[1..], name)
  }

  predicate Blank(value: Json) {
    value == Null || value == Text("") || value == List([])
  }

  predicate Truthy(value: Json) {
    match value
    case Null => false
    case Bool(b) => b
    case Number(n) => n != 0
    case Text(t) => t != ""
    case List(items) => items != []
    case Object(members) => members != map[]
  }

  function CountNamed(relationships: seq<Relationship>, prefix: string): nat {
    if relationships == [] then 0
    else (if prefix <= relationships[0].name then 1 else 0) + CountNamed(relationships[1..], prefix)
  }

  /** Kinds whose generic target must be named exactly once, with the prefix that names it. */
  function GenericPrefix(kind: string): Option<string> {
    match kind
    case "circuit_group_assignment" => Some("member_")
    case "event_rule" => Some("action_")
    case "contact_assignment" => Some("object_")
    case "fhrp_group_assignment" => Some("interface_")
    case "service" => Some("parent_")
    case "tunnel_termination" => Some("termination_")
    case "l2vpn_termination" => Some("assigned_")
    case _ => None
  }

  predicate ShapeOk(r: Record) {
    match r.kind
    case "circuit_termination" => CountNamed(r.relationships, "termination_") <= 1
    case "virtual_machine" => Truthy(r.Related("site")) || Truthy(r.Related("cluster")) || Truthy(r.Related("device"))
    case "cluster" => ScopeOk(r)
    case "wireless_lan" => ScopeOk(r)
    case _ =>
      match GenericPrefix(r.kind)
      case None => true
      case Some(prefix) => CountNamed(r.relationships, prefix) == 1
  }

  predicate ScopeOk(r: Record) {
    var scopes := CountNamed(r.relationships, "scope_");
    var expected := r.Attribute("/scope_type") != Null && r.Attribute("/scope_type") != Text("");
    scopes <= 1 && (expected ==> scopes == 1)
  }

  /** Relationships written only after every record exists, because they may close a cycle. */
  predicate Deferred(kind: string, name: string) {
    || (kind == "virtual_chassis" && name == "master")
    || (kind == "interface" && name == "primary_mac_address")
    || (kind in {"device", "virtual_device_context", "virtual_machine"} && name in {"primary_ip4", "primary_ip6", "oob_ip"})
    || (kind == "vm_interface" && name == "primary_mac_address")
    || "mapping_" <= name
  }

  function Values(value: Json): seq<Json> {
    if value.List? then value.items else [value]
  }

  predicate IdentityText(value: Json) {
    value.Text? && value.text != ""
  }

  /** The keys one relationship refers to, or why it is malformed. */
  function TargetKeys(schema: Schema, kind: string, rel: Relationship): Result<seq<Key>, PlanError> {
    match schema.target(kind, rel.name)
    case None => Err(UnsupportedRelationship)
    case Some(targetKind) =>
      if Blank(rel.value) then Ok([])
      else if schema.multi(kind, rel.name) != rel.value.List? then Err(WrongCardinality)
      else
        var values := Values(rel.value);
        if exists i :: 0 <= i < |values| && !IdentityText(values[i]) then Err(BadIdentity)
        else Ok(seq(|values|, i requires 0 <= i < |values| && IdentityText(values[i]) => Key(targetKind, values[i].text)))
  }

  function RelationshipKeys(schema: Schema, kind: string, rels: seq<Relationship>, includeDeferred: bool)
    : Result<seq<Key>, PlanError>
  {
    if rels == [] then Ok([])
    else
      match TargetKeys(schema, kind, rels[0])
      case Err(e) => Err(e)
      case Ok(keys) =>
        match RelationshipKeys(schema, kind, rels[1..], includeDeferred)
        case Err(e) => Err(e)
        case Ok(rest) => Ok((if includeDeferred || !Deferred(kind, rels[0].name) then keys else []) + rest)
  }

  function MemberKeys(members: map<string, Json>): set<Key> {
    set name | name in members :: Key("", name)
  }

  /** The members of an object in ascending order of their names. */
  function MembersOf(members: map<string, Json>): (listed: seq<(string, Json)>)
    ensures forall i :: 0 <= i < |listed| ==> listed[i].0 in members && listed[i].1 == members[listed[i].0]
  {
    var keys := SortedKeys(MemberKeys(members));
    assert forall i :: 0 <= i < |keys| ==> keys[i] in keys;
    seq(|keys|, i requires 0 <= i < |keys| && keys[i].identity in members => (keys[i].identity, members[keys[i].identity]))
  }

  /** Every member is listed. */
  lemma MemberListed(members: map<string, Json>, name: string)
    requires name in members
    ensures (name, members[name]) in MembersOf(members)
  {
    var keys := SortedKeys(MemberKeys(members));
    assert Key("", name) in keys;
    var i :| 0 <= i < |keys| && keys[i] == Key("", name);
    assert MembersOf(members)[i] == (name, members[name]);
  }

  function FieldKeys(schema: Schema, members: seq<(string, Json)>): Result<seq<Key>, PlanError> {
    if members == [] then Ok([])
    else
      match schema.customFieldIdentity(members[0].0)
      case None => Err(BadCustomFields)
      case Some(identity) =>
        match FieldKeys(schema, members[1..])
        case Err(e) => Err(e)
        case Ok(rest) => Ok([Key("custom_field", identity)] + rest)
  }

  function CustomFieldKeys(schema: Schema, r: Record): Result<seq<Key>, PlanError> {
    match r.Attribute("/custom_fields")
    case Null => Ok([])
    case Object(members) => FieldKeys(schema, MembersOf(members))
    case _ => Err(BadCustomFields)
  }

  function RecordProblem(schema: Schema, r: Record): Option<PlanError> {
    if r.kind !in schema.applicable then Some(UnsupportedKind)
    else if !ShapeOk(r) then Some(BadShape)
    else if exists name :: name in schema.required(r.kind) && Blank(r.Related(name)) then Some(MissingRelationship)
    else None
  }

  /** Every key the record refers to, in reference order, or the first problem found. */
  function Dependencies(schema: Schema, r: Record, includeDeferred: bool): Result<seq<Key>, PlanError> {
    match RecordProblem(schema, r)
    case Some(e) => Err(e)
    case None =>
      match RelationshipKeys(schema, r.kind, r.relationships, includeDeferred)
      case Err(e) => Err(e)
      case Ok(keys) =>
        match CustomFieldKeys(schema, r)
        case Err(e) => Err(e)
        case Ok(fields) => Ok(keys + fields)
  }

  method RelationshipDependencies(schema: Schema, r: Record, includeDeferred: bool)
    returns (result: Result<seq<Key>, PlanError>)
    ensures result == Dependencies(schema, r, includeDeferred)
  {
    var problem := RecordProblem(schema, r);
    if problem.Some? {
      return Err(problem.value);
    }
    var dependencies: seq<Key> := [];
    var i := 0;
    assert r.relationships[0..] == r.relationships;
    while i < |r.relationships|
      invariant 0 <= i <= |r.relationships|
      invariant RelationshipKeys(schema, r.kind, r.relationships, includeDeferred) ==
                Prepend(dependencies, RelationshipKeys(schema, r.kind, r.relationships[i..], includeDeferred))
    {
      var rel := r.relationships[i];
      assert r.relationships[i..][1..] == r.relationships[i + 1..];
      var keys := TargetKeys(schema, r.kind, rel);
      if keys.Err? {
        return Err(keys.error);
      }
      ghost var kept := if includeDeferred || !Deferred(r.kind, rel.name) then keys.value else [];
      ghost var rest := RelationshipKeys(schema, r.kind, r.relationships[i + 1..], includeDeferred);
      assert RelationshipKeys(schema, r.kind, r.relationships[i..], includeDeferred) == Prepend(kept, rest);
      PrependTwice(dependencies, kept, rest);
      if includeDeferred || !Deferred(r.kind, rel.name) {
        dependencies := dependencies + keys.value;
      }
      i := i + 1;
    }
    assert r.relationships[i..] == [] && dependencies + [] == dependencies;
    var fields := CustomFieldKeys(schema, r);
    if fields.Err? {
      return Err(fields.error);
    }
    return Ok(dependencies + fields.value);
  }

  function Prepend(keys: seq<Key>, rest: Result<seq<Key>, PlanError>): (all: Result<seq<Key>, PlanError>)
    ensures keys == [] ==> all == rest
  {
    match rest
    case Err(e) => Err(e)
    case Ok(tail) =>
      assert [] + tail == tail;
      Ok(keys + tail)
  }

  lemma PrependTwice(a: seq<Key>, b: seq<Key>, rest: Result<seq<Key>, PlanError>)
    ensures Prepend(a, Prepend(b, rest)) == Prepend(a + b, rest)
  {
    if rest.Ok? {
      assert a + (b + rest.value) == (a + b) + rest.value;
    }
  }

  /** Keys a record needs before it can be written. */
  function ImmediateKeys(schema: Schema, r: Record): set<Key> {
    match Dependencies(schema, r, false)
    case Ok(keys) => Elements(keys)
    case Err(_) => {}
  }

  function AllKeys(schema: Schema, r: Record): set<Key> {
    match Dependencies(schema, r, true)
    case Ok(keys) => Elements(keys)
    case Err(_) => {}
  }

  lemma {:induction false} RelationshipKeysSplit(schema: Schema, kind: string, rels: seq<Relationship>)
    ensures var all, now := RelationshipKeys(schema, kind, rels, true), RelationshipKeys(schema, kind, rels, false);
            && (all.Err? <==> now.Err?)
            && (all.Err? ==> all.error == now.error)
            && (all.Ok? ==> forall k :: k in now.value ==> k in all.value)
  {
    if rels != [] {
      RelationshipKeysSplit(schema, kind, rels[1..]);
    }
  }

  /** Deferral only hides keys: it never changes whether, or why, a record is rejected. */
  lemma DeferralOnlyHidesKeys(schema: Schema, r: Record)
    ensures Dependencies(schema, r, true).Err? <==> Dependencies(schema, r, false).Err?
    ensures Dependencies(schema, r, true).Err? ==> Dependencies(schema, r, true) == Dependencies(schema, r, false)
    ensures ImmediateKeys(schema, r) <= AllKeys(schema, r)
  {
    RelationshipKeysSplit(schema, r.kind, r.relationships);
  }

  lemma {:induction false} RelationshipKeysContain(schema: Schema, kind: string, rels: seq<Relationship>, rel: Relationship,
                                                   includeDeferred: bool)
    requires rel in rels
    requires RelationshipKeys(schema, kind, rels, includeDeferred).Ok?
    ensures TargetKeys(schema, kind, rel).Ok?
    ensures includeDeferred || !Deferred(kind, rel.name) ==>
              forall k :: k in TargetKeys(schema, kind, rel).value ==>
                            k in RelationshipKeys(schema, kind, rels, includeDeferred).value
  {
    if rel != rels[0] {
      assert rels == [rels[0]] + rels[1..];
      RelationshipKeysContain(schema, kind, rels[1..], rel, includeDeferred);
    }
  }

  // ---- The dependency graph of a plan ---------------------------------------------------------

  type Graph = map<Key, set<Key>>

  function KeysOf(records: seq<Record>): set<Key> {
    set r | r in records :: r.RecordKey()
  }

  function KeySeq(records: seq<Record>): (keys: seq<Key>)
    ensures |keys| == |records|
    ensures forall i :: 0 <= i < |records| ==> keys[i] == records[i].RecordKey()
  {
    seq(|records|, i requires 0 <= i < |records| => records[i].RecordKey())
  }

  ghost predicate DistinctKeys(records: seq<Record>) {
    Distinct(KeySeq(records))
  }

  lemma KeySeqElements(records: seq<Record>)
    ensures Elements(KeySeq(records)) == KeysOf(records)
  {
    var keys := KeySeq(records);
    forall k | k in KeysOf(records)
      ensures k in keys
    {
      var r :| r in records && r.RecordKey() == k;
      var i :| 0 <= i < |records| && records[i] == r;
      assert keys[i] == k;
    }
  }

  lemma SameKeySameRecord(records: seq<Record>, a: Record, b: Record)
    requires DistinctKeys(records) && a in records && b in records && a.RecordKey() == b.RecordKey()
    ensures a == b
  {
  }

  function ByKey(records: seq<Record>): (m: map<Key, Record>)
    ensures m.Keys == KeysOf(records)
    ensures forall k :: k in m ==> m[k] in records && m[k].RecordKey() == k
  {
    if records == [] then map[]
    else
      var n := |records| - 1;
      assert records == records[..n] + [records[n]];
      ByKey(records[..n])[records[n].RecordKey() := records[n]]
  }

  lemma DistinctByKey(records: seq<Record>)
    ensures |ByKey(records)| == |records| <==> DistinctKeys(records)
    ensures DistinctKeys(records) ==> forall r :: r in records ==> ByKey(records)[r.RecordKey()] == r
  {
    DistinctCardinality(KeySeq(records));
    KeySeqElements(records);
    assert |ByKey(records)| == |ByKey(records).Keys|;
    if DistinctKeys(records) {
      forall r | r in records
        ensures ByKey(records)[r.RecordKey()] == r
      {
        SameKeySameRecord(records, r, ByKey(records)[r.RecordKey()]);
      }
    }
  }

  function FirstProblem(schema: Schema, records: seq<Record>): (problem: Option<PlanError>)
    ensures problem.None? <==> forall r :: r in records ==> Dependencies(schema, r, false).Ok?
    ensures problem.Some? ==> exists r :: r in records && Dependencies(schema, r, false) == Err(problem.value)
  {
    if records == [] then None
    else
      assert records == [records[0]] + records[1..];
      match Dependencies(schema, records[0], false)
      case Err(e) => Some(e)
      case Ok(_) => FirstProblem(schema, records[1..])
  }

  /** Each record's immediate dependencies among the keys of the plan. */
  function GraphOf(schema: Schema, records: seq<Record>, plan: set<Key>): Graph {
    if records == [] then map[]
    else
      var last := records[|records| - 1];
      GraphOf(schema, records[..|records| - 1], plan)[last.RecordKey() := ImmediateKeys(schema, last) * plan]
  }

  function PlanGraph(schema: Schema, records: seq<Record>): Graph {
    GraphOf(schema, records, KeysOf(records))
  }

  lemma {:induction false} GraphKeys(schema: Schema, records: seq<Record>, plan: set<Key>)
    ensures GraphOf(schema, records, plan).Keys == KeysOf(records)
    ensures forall k :: k in GraphOf(schema, records, plan) ==> GraphOf(schema, records, plan)[k] <= plan
  {
    if records != [] {
      var n := |records| - 1;
      assert records == records[..n] + [records[n]];
      GraphKeys(schema, records[..n], plan);
    }
  }

  lemma {:induction false} GraphEntry(schema: Schema, records: seq<Record>, plan: set<Key>, r: Record)
    requires DistinctKeys(records) && r in records
    ensures r.RecordKey() in GraphOf(schema, records, plan)
    ensures GraphOf(schema, records, plan)[r.RecordKey()] == ImmediateKeys(schema, r) * plan
  {
    var n := |records| - 1;
    if r != records[n] {
      DistinctInit(records);
      var i :| 0 <= i < n && records[i] == r;
      assert records[..n][i] == r;
      GraphEntry(schema, records[..n], plan, r);
    }
  }

  lemma GraphEntries(schema: Schema, records: seq<Record>, plan: set<Key>)
    ensures GraphOf(schema, records, plan).Keys == KeysOf(records)
    ensures forall k :: k in GraphOf(schema, records, plan) ==> GraphOf(schema, records, plan)[k] <= plan
    ensures DistinctKeys(records) ==>
              forall r :: r in records ==> GraphOf(schema, records, plan)[r.RecordKey()] == ImmediateKeys(schema, r) * plan
  {
    GraphKeys(schema, records, plan);
    if DistinctKeys(records) {
      forall r | r in records
        ensures GraphOf(schema, records, plan)[r.RecordKey()] == ImmediateKeys(schema, r) * plan
      {
        GraphEntry(schema, records, plan, r);
      }
    }
  }

  lemma DistinctInit(records: seq<Record>)
    requires DistinctKeys(records) && records != []
    ensures DistinctKeys(records[..|records| - 1])
    ensures forall r :: r in records[..|records| - 1] ==> r.RecordKey() != records[|records| - 1].RecordKey()
  {
    var n := |records| - 1;
    forall r | r in records[..n]
      ensures r.RecordKey() != records[n].RecordKey()
    {
      var i :| 0 <= i < n && records[..n][i] == r;
      assert KeySeq(records)[i] != KeySeq(records)[n];
    }
    assert KeySeq(records[..n]) == KeySeq(records)[..n];
  }

  ghost predicate Closed(g: Graph) {
    forall k :: k in g ==> g[k] <= g.Keys
  }

  function Ready(g: Graph): set<Key> {
    set k | k in g && g[k] == {}
  }

  function Strip(g: Graph, ready: set<Key>): Graph {
    map k | k in g && k !in ready :: g[k] - ready
  }

  lemma StripShrinks(g: Graph, ready: set<Key>)
    requires ready <= g.Keys && ready != {}
    ensures |Strip(g, ready)| < |g|
  {
    assert Strip(g, ready).Keys == g.Keys - ready;
    assert |g| == |g.Keys| && |Strip(g, ready)| == |Strip(g, ready).Keys|;
    SubsetCardinality(g.Keys - ready, g.Keys);
  }

  /** Layer by layer, each layer sorted; None when some records are left but none is ready. */
  ghost function Layers(g: Graph): Option<seq<Key>>
    decreases |g|
  {
    if g == map[] then Some([])
    else
      var ready := Ready(g);
      if ready == {} then None
      else
        StripShrinks(g, ready);
        After(SortedKeys(ready), Layers(Strip(g, ready)))
  }

  ghost function OrderedRecords(schema: Schema, records: seq<Record>): Result<seq<Record>, PlanError> {
    if !DistinctKeys(records) then Err(DuplicateIdentity)
    else
      match FirstProblem(schema, records)
      case Some(e) => Err(e)
      case None =>
        match Layers(PlanGraph(schema, records))
        case None => Err(Cycle)
        case Some(keys) => Ok(Pick(ByKey(records), keys))
  }

  function Pick(byKey: map<Key, Record>, keys: seq<Key>): (picked: seq<Record>)
    ensures forall r :: r in picked ==> exists k :: k in byKey && byKey[k] == r
  {
    if keys == [] then []
    else (if keys[0] in byKey then [byKey[keys[0]]] else []) + Pick(byKey, keys[1..])
  }

  lemma {:induction false} PickAppend(byKey: map<Key, Record>, a: seq<Key>, b: seq<Key>)
    ensures Pick(byKey, a + b) == Pick(byKey, a) + Pick(byKey, b)
  {
    if a == [] {
      assert a + b == b;
    } else {
      PickAppend(byKey, a[1..], b);
      assert (a + b)[1..] == a[1..] + b;
    }
  }

  /** Collects each record's in-plan dependencies, stopping at the first malformed record. */
  method CollectDependencies(schema: Schema, records: seq<Record>, plan: set<Key>)
    returns (result: Result<Graph, PlanError>)
    ensures result == match FirstProblem(schema, records)
                      case Some(e) => Err(e)
                      case None => Ok(GraphOf(schema, records, plan))
  {
    var dependencies: Graph := map[];
    assert records[0..] == records;
    for i := 0 to |records|
      invariant dependencies == GraphOf(schema, records[..i], plan)
      invariant FirstProblem(schema, records) == FirstProblem(schema, records[i..])
    {
      assert records[i..][0] == records[i] && records[i..][1..] == records[i + 1..];
      assert records[..i + 1][..i] == records[..i];
      var keys := RelationshipDependencies(schema, records[i], false);
      if keys.Err? {
        return Err(keys.error);
      }
      dependencies := dependencies[records[i].RecordKey() := Elements(keys.value) * plan];
    }
    assert records[..|records|] == records;
    return Ok(dependencies);
  }

  lemma PickNext(byKey: map<Key, Record>, before: seq<Key>, ready: seq<Key>, i: nat)
    requires i < |ready| && ready[i] in byKey
    ensures Pick(byKey, before + ready[..i + 1]) == Pick(byKey, before + ready[..i]) + [byKey[ready[i]]]
  {
    var next := [ready[i]];
    PickAppend(byKey, before + ready[..i], next);
    assert before + ready[..i + 1] == (before + ready[..i]) + next;
    assert next[0] in byKey && next[1..] == [];
  }

  /** Appends one sorted layer of ready records. */
  method AppendReady(recordsByKey: map<Key, Record>, ready: seq<Key>, ordered: seq<Record>, ghost orderedKeys: seq<Key>)
    returns (extended: seq<Record>)
    requires forall k :: k in ready ==> k in recordsByKey
    requires ordered == Pick(recordsByKey, orderedKeys)
    ensures extended == Pick(recordsByKey, orderedKeys + ready)
  {
    extended := ordered;
    assert orderedKeys + ready[..0] == orderedKeys;
    for i := 0 to |ready|
      invariant extended == Pick(recordsByKey, orderedKeys + ready[..i])
    {
      PickNext(recordsByKey, orderedKeys, ready, i);
      extended := extended + [recordsByKey[ready[i]]];
    }
    assert ready[..|ready|] == ready;
  }

  method DependencyOrder(schema: Schema, records: seq<Record>) returns (result: Result<seq<Record>, PlanError>)
    ensures result == OrderedRecords(schema, records)
  {
    var recordsByKey := ByKey(records);
    DistinctByKey(records);
    if |recordsByKey| != |records| {
      return Err(DuplicateIdentity);
    }
    var collected := CollectDependencies(schema, records, recordsByKey.Keys);
    if collected.Err? {
      return Err(collected.error);
    }
    GraphEntries(schema, records, recordsByKey.Keys);
    var ordered := ReleaseLayers(recordsByKey, collected.value);
    result := if ordered.None? then Err(Cycle) else Ok(ordered.value);
  }

  /** Releases ready records layer by layer until none is left, or none is ready. */
  method ReleaseLayers(recordsByKey: map<Key, Record>, graph: Graph) returns (result: Option<seq<Record>>)
    requires graph.Keys <= recordsByKey.Keys
    ensures result == match Layers(graph)
                      case None => None
                      case Some(keys) => Some(Pick(recordsByKey, keys))
  {
    var dependencies := graph;
    var ordered: seq<Record> := [];
    ghost var orderedKeys: seq<Key> := [];
    while dependencies != map[]
      invariant ordered == Pick(recordsByKey, orderedKeys)
      invariant dependencies.Keys <= recordsByKey.Keys
      invariant Layers(graph) == After(orderedKeys, Layers(dependencies))
      decreases |dependencies|
    {
      var readyKeys := Ready(dependencies);
      var ready := SortKeys(readyKeys);
      if |ready| == 0 {
        return None;
      }
      StripShrinks(dependencies, readyKeys);
      ordered := AppendReady(recordsByKey, ready, ordered, orderedKeys);
      dependencies := Strip(dependencies, readyKeys);
      AfterTwice(orderedKeys, ready, Layers(dependencies));
      orderedKeys := orderedKeys + ready;
    }
    assert orderedKeys + [] == orderedKeys;
    return Some(ordered);
  }

  ghost function After(keys: seq<Key>, rest: Option<seq<Key>>): (all: Option<seq<Key>>)
    ensures keys == [] ==> all == rest
  {
    match rest
    case None => None
    case Some(tail) =>
      assert [] + tail == tail;
      Some(keys + tail)
  }

  lemma AfterTwice(a: seq<Key>, b: seq<Key>, rest: Option<seq<Key>>)
    ensures After(a, After(b, rest)) == After(a + b, rest)
  {
    if rest.Some? {
      assert a + (b + rest.value) == (a + b) + rest.value;
    }
  }

  // ---- What the order guarantees --------------------------------------------------------------

  /** Every dependency of the i-th key stands before it. */
  ghost predicate Topological(g: Graph, order: seq<Key>) {
    forall i :: 0 <= i < |order| ==> order[i] in g && g[order[i]] <= Elements(order[..i])
  }

  lemma DistinctAppend<T>(a: seq<T>, b: seq<T>)
    requires Distinct(a) && Distinct(b) && Elements(a) !! Elements(b)
    ensures Distinct(a + b)
  {
    forall i, j | 0 <= i < j < |a + b|
      ensures (a + b)[i] != (a + b)[j]
    {
      if i < |a| <= j {
        assert a[i] in Elements(a) && b[j - |a|] in Elements(b);
      }
    }
  }

  /** A sorted layer of ready keys in front of an order of the stripped rest is an order of the whole. */
  lemma LayerInFront(g: Graph, head: seq<Key>, tail: seq<Key>)
    requires Elements(head) == Ready(g)
    requires Topological(Strip(g, Ready(g)), tail)
    ensures Topological(g, head + tail)
  {
    var order, rest := head + tail, Strip(g, Ready(g));
    forall i | 0 <= i < |order|
      ensures order[i] in g && g[order[i]] <= Elements(order[..i])
    {
      if i < |head| {
        assert head[i] in Elements(head);
      } else {
        var t := i - |head|;
        assert rest[tail[t]] <= Elements(tail[..t]);
        assert order[..i] == head + tail[..t];
        forall d | d in g[order[i]]
          ensures d in Elements(order[..i])
        {
          if d in Ready(g) {
            assert d in Elements(head);
          } else {
            assert d in rest[tail[t]];
          }
        }
      }
    }
  }

  lemma {:induction false} LayersSound(g: Graph, order: seq<Key>)
    requires Closed(g)
    requires Layers(g) == Some(order)
    ensures Distinct(order) && Elements(order) == g.Keys
    ensures Topological(g, order)
    decreases |g|
  {
    if g != map[] {
      var ready := Ready(g);
      var rest := Strip(g, ready);
      StripShrinks(g, ready);
      var head, tail := SortedKeys(ready), Layers(rest).value;
      LayersSound(rest, tail);
      assert Elements(head) == ready;
      SortedDistinct(head);
      DistinctAppend(head, tail);
      LayerInFront(g, head, tail);
      assert Elements(head + tail) == Elements(head) + Elements(tail);
    }
  }

  lemma SortedDistinct(keys: seq<Key>)
    requires StrictlySorted(keys)
    ensures Distinct(keys)
  {
    forall i, j | 0 <= i < j < |keys|
      ensures keys[i] != keys[j]
    {
      KeyTotal(keys[i], keys[j]);
    }
  }

  /** A closed walk along dependencies. */
  ghost predicate IsCycle(g: Graph, walk: seq<Key>) {
    && |walk| > 0
    && (forall i :: 0 <= i < |walk| ==> walk[i] in g)
    && (forall i :: 0 <= i < |walk| - 1 ==> walk[i + 1] in g[walk[i]])
    && walk[0] in g[walk[|walk| - 1]]
  }

  ghost predicate IsWalk(g: Graph, walk: seq<Key>) {
    && (forall i :: 0 <= i < |walk| ==> walk[i] in g)
    && (forall i :: 0 <= i < |walk| - 1 ==> walk[i + 1] in g[walk[i]])
  }

  lemma {:induction false} LongWalkExists(g: Graph, n: nat) returns (walk: seq<Key>)
    requires Closed(g) && g != map[] && Ready(g) == {}
    ensures IsWalk(g, walk) && |walk| == n + 1
  {
    if n == 0 {
      var k :| k in g;
      walk := [k];
    } else {
      walk := LongWalkExists(g, n - 1);
      var last := walk[n - 1];
      assert last !in Ready(g);
      var next :| next in g[last];
      walk := walk + [next];
    }
  }

  lemma StuckGraphHasCycle(g: Graph) returns (walk: seq<Key>)
    requires Closed(g) && g != map[] && Ready(g) == {}
    ensures IsCycle(g, walk)
  {
    var long := LongWalkExists(g, |g|);
    DistinctCardinality(long);
    SubsetCardinality(Elements(long), g.Keys);
    assert |g| == |g.Keys|;
    assert !Distinct(long);
    var i, j :| 0 <= i < j < |long| && long[i] == long[j];
    walk := long[i..j];
    assert forall n :: 0 <= n < |walk| ==> walk[n] == long[i + n];
    assert long[j] in g[long[j - 1]];
  }

  lemma {:induction false} FailureHasCycle(g: Graph) returns (walk: seq<Key>)
    requires Closed(g) && Layers(g).None?
    ensures IsCycle(g, walk)
    decreases |g|
  {
    var ready := Ready(g);
    if ready == {} {
      walk := StuckGraphHasCycle(g);
    } else {
      StripShrinks(g, ready);
      walk := FailureHasCycle(Strip(g, ready));
    }
  }

  lemma CycleBlocksOrder(g: Graph, order: seq<Key>, walk: seq<Key>)
    requires Topological(g, order) && Elements(order) == g.Keys
    ensures !IsCycle(g, walk)
  {
    if IsCycle(g, walk) {
      var last := |walk| - 1;
      assert walk[0] in Elements(order);
      var p :| 0 <= p < |order| && order[p] == walk[0];
      var q := WalkDescends(g, order, walk, p);
      assert g[order[q]] <= Elements(order[..q]);
      var s :| 0 <= s < q && order[..q][s] == walk[0];
      DescentRepeats(g, order, walk, s);
    }
  }

  /** Following dependencies only moves towards the front of the order. */
  lemma {:induction false} WalkDescends(g: Graph, order: seq<Key>, walk: seq<Key>, p: nat) returns (q: nat)
    requires Topological(g, order) && IsWalk(g, walk) && |walk| > 0
    requires p < |order| && order[p] == walk[0]
    ensures q <= p && q < |order| && order[q] == walk[|walk| - 1]
    ensures |walk| > 1 ==> q < p
  {
    if |walk| == 1 {
      q := p;
    } else {
      assert g[order[p]] <= Elements(order[..p]);
      assert walk[1] in g[walk[0]];
      var s :| 0 <= s < p && order[..p][s] == walk[1];
      q := WalkDescends(g, order, walk[1..], s);
    }
  }

  /** A closed walk from position p would restart strictly before p, for ever. */
  lemma {:induction false} DescentRepeats(g: Graph, order: seq<Key>, walk: seq<Key>, p: nat)
    requires Topological(g, order) && IsCycle(g, walk)
    requires p < |order| && order[p] == walk[0]
    ensures false
    decreases p
  {
    var q := WalkDescends(g, order, walk, p);
    assert g[order[q]] <= Elements(order[..q]);
    var s :| 0 <= s < q && order[..q][s] == walk[0];
    DescentRepeats(g, order, walk, s);
  }

  lemma PlanGraphClosed(schema: Schema, records: seq<Record>)
    ensures Closed(PlanGraph(schema, records))
    ensures PlanGraph(schema, records).Keys == KeysOf(records)
  {
    GraphEntries(schema, records, KeysOf(records));
  }

  lemma {:induction false} PickAll(byKey: map<Key, Record>, keys: seq<Key>)
    requires Elements(keys) <= byKey.Keys
    ensures |Pick(byKey, keys)| == |keys|
    ensures forall i :: 0 <= i < |keys| ==> Pick(byKey, keys)[i] == byKey[keys[i]]
  {
    if keys != [] {
      assert keys[0] in Elements(keys);
      PickAll(byKey, keys[1..]);
    }
  }

  lemma {:induction false} DistinctMultiset<T>(s: seq<T>)
    requires Distinct(s)
    ensures forall x :: multiset(s)[x] == if x in s then 1 else 0
  {
    if s != [] {
      var n := |s| - 1;
      assert s == s[..n] + [s[n]];
      DistinctMultiset(s[..n]);
      assert s[n] !in s[..n];
    }
  }

  lemma SamePermutation<T>(a: seq<T>, b: seq<T>)
    requires Distinct(a) && Distinct(b)
    requires forall x :: x in a <==> x in b
    ensures multiset(a) == multiset(b)
  {
    DistinctMultiset(a);
    DistinctMultiset(b);
  }

  lemma PickedMembers(byKey: map<Key, Record>, keys: seq<Key>, r: Record)
    requires Elements(keys) == byKey.Keys
    requires r.RecordKey() in byKey && byKey[r.RecordKey()] == r
    ensures r in Pick(byKey, keys)
  {
    PickAll(byKey, keys);
    assert r.RecordKey() in Elements(keys);
    var i :| 0 <= i < |keys| && keys[i] == r.RecordKey();
    assert Pick(byKey, keys)[i] == r;
  }

  lemma PickedKeys(byKey: map<Key, Record>, keys: seq<Key>)
    requires Elements(keys) <= byKey.Keys
    requires forall k :: k in byKey ==> byKey[k].RecordKey() == k
    ensures KeySeq(Pick(byKey, keys)) == keys
  {
    PickAll(byKey, keys);
    forall i | 0 <= i < |keys|
      ensures KeySeq(Pick(byKey, keys))[i] == keys[i]
    {
      assert keys[i] in Elements(keys);
    }
  }

  lemma PickedRecords(records: seq<Record>, keys: seq<Key>, r: Record)
    requires DistinctKeys(records)
    requires Elements(keys) == KeysOf(records)
    ensures r in Pick(ByKey(records), keys) <==> r in records
  {
    var byKey := ByKey(records);
    if r in records {
      DistinctByKey(records);
      PickedMembers(byKey, keys, r);
    }
  }

  lemma PickedPlan(records: seq<Record>, keys: seq<Key>)
    requires DistinctKeys(records)
    requires Distinct(keys) && Elements(keys) == KeysOf(records)
    ensures KeySeq(Pick(ByKey(records), keys)) == keys
    ensures multiset(Pick(ByKey(records), keys)) == multiset(records)
  {
    var ordered := Pick(ByKey(records), keys);
    PickedKeys(ByKey(records), keys);
    DistinctRecords(ordered);
    DistinctRecords(records);
    forall r
      ensures r in ordered <==> r in records
    {
      PickedRecords(records, keys, r);
    }
    SamePermutation(ordered, records);
  }

  lemma DistinctRecords(records: seq<Record>)
    requires DistinctKeys(records)
    ensures Distinct(records)
  {
  }

  /**
   * Soundness: an accepted order is a permutation of the plan and every in-plan immediate
   * dependency of a record stands before it.
   */
  lemma OrderSound(schema: Schema, records: seq<Record>, ordered: seq<Record>)
    requires OrderedRecords(schema, records) == Ok(ordered)
    ensures multiset(ordered) == multiset(records)
    ensures DistinctKeys(ordered)
    ensures forall i, d :: 0 <= i < |ordered| && d in ImmediateKeys(schema, ordered[i]) && d in KeysOf(records) ==>
                             d in KeySeq(ordered)[..i]
  {
    var g := PlanGraph(schema, records);
    PlanGraphClosed(schema, records);
    var keys := Layers(g).value;
    LayersSound(g, keys);
    PickedPlan(records, keys);
    PickAll(ByKey(records), keys);
    GraphEntries(schema, records, KeysOf(records));
    forall i, d | 0 <= i < |ordered| && d in ImmediateKeys(schema, ordered[i]) && d in KeysOf(records)
      ensures d in KeySeq(ordered)[..i]
    {
      assert keys[i] in g && g[keys[i]] <= Elements(keys[..i]);
      assert d in g[keys[i]];
      assert d in Elements(keys[..i]);
    }
  }

  /** Completeness: a well-formed plan is refused exactly when its dependencies form a cycle. */
  lemma OrderFailsExactlyOnCycles(schema: Schema, records: seq<Record>)
    requires DistinctKeys(records)
    requires forall r :: r in records ==> Dependencies(schema, r, false).Ok?
    ensures OrderedRecords(schema, records).Ok? || OrderedRecords(schema, records) == Err(Cycle)
    ensures OrderedRecords(schema, records) == Err(Cycle) <==>
            exists walk :: IsCycle(PlanGraph(schema, records), walk)
  {
    var g := PlanGraph(schema, records);
    PlanGraphClosed(schema, records);
    match Layers(g) {
      case None =>
        var walk := FailureHasCycle(g);
      case Some(keys) =>
        LayersSound(g, keys);
        forall walk
          ensures !IsCycle(g, walk)
        {
          CycleBlocksOrder(g, keys, walk);
        }
    }
  }

  /** Canonicity: the order does not depend on how the plan's records were listed. */
  lemma OrderIgnoresListing(schema: Schema, a: seq<Record>, b: seq<Record>)
    requires multiset(a) == multiset(b)
    ensures OrderedRecords(schema, a).Ok? <==> OrderedRecords(schema, b).Ok?
    ensures OrderedRecords(schema, a).Ok? ==> OrderedRecords(schema, a) == OrderedRecords(schema, b)
    ensures OrderedRecords(schema, a) == Err(DuplicateIdentity) <==> OrderedRecords(schema, b) == Err(DuplicateIdentity)
    ensures OrderedRecords(schema, a) == Err(Cycle) <==> OrderedRecords(schema, b) == Err(Cycle)
  {
    SameMultisetSameElements(a, b);
    SameKeysListed(a, b);
    if DistinctKeys(a) {
      SamePlanGraph(schema, a, b);
      NoRecordIsCyclic(schema, a);
      NoRecordIsCyclic(schema, b);
    }
  }

  lemma SameKeysListed(a: seq<Record>, b: seq<Record>)
    requires |a| == |b| && forall r :: r in a <==> r in b
    ensures KeysOf(a) == KeysOf(b)
    ensures DistinctKeys(a) <==> DistinctKeys(b)
  {
    assert |ByKey(a)| == |ByKey(a).Keys| && |ByKey(b)| == |ByKey(b).Keys|;
    DistinctByKey(a);
    DistinctByKey(b);
  }

  lemma SamePlanGraph(schema: Schema, a: seq<Record>, b: seq<Record>)
    requires forall r :: r in a <==> r in b
    requires DistinctKeys(a) && DistinctKeys(b)
    ensures PlanGraph(schema, a) == PlanGraph(schema, b)
    ensures ByKey(a) == ByKey(b)
  {
    SameByKey(a, b);
    SameGraph(schema, a, b, KeysOf(a));
  }

  lemma SameByKey(a: seq<Record>, b: seq<Record>)
    requires forall r :: r in a <==> r in b
    requires DistinctKeys(a)
    ensures ByKey(a) == ByKey(b) && KeysOf(a) == KeysOf(b)
  {
    assert KeysOf(a) == KeysOf(b);
    forall k | k in ByKey(a)
      ensures ByKey(a)[k] == ByKey(b)[k]
    {
      SameKeySameRecord(a, ByKey(a)[k], ByKey(b)[k]);
    }
  }

  lemma SameGraph(schema: Schema, a: seq<Record>, b: seq<Record>, plan: set<Key>)
    requires forall r :: r in a <==> r in b
    requires DistinctKeys(a) && DistinctKeys(b)
    ensures GraphOf(schema, a, plan) == GraphOf(schema, b, plan)
  {
    var ga, gb := GraphOf(schema, a, plan), GraphOf(schema, b, plan);
    GraphEntries(schema, a, plan);
    GraphEntries(schema, b, plan);
    assert ga.Keys == gb.Keys;
    forall k | k in ga
      ensures ga[k] == gb[k]
    {
      var r :| r in a && r.RecordKey() == k;
      assert r in b;
    }
  }

  /** The cycle and duplicate errors belong to the plan, never to a single record. */
  lemma {:induction false} NoRecordIsCyclic(schema: Schema, records: seq<Record>)
    ensures FirstProblem(schema, records) != Some(Cycle)
    ensures FirstProblem(schema, records) != Some(DuplicateIdentity)
  {
    if records != [] {
      RecordErrors(schema, records[0].kind, records[0].relationships);
      match records[0].Attribute("/custom_fields") {
        case Object(members) => FieldErrors(schema, MembersOf(members));
        case _ =>
      }
      NoRecordIsCyclic(schema, records[1..]);
    }
  }

  lemma {:induction false} RecordErrors(schema: Schema, kind: string, rels: seq<Relationship>)
    ensures RelationshipKeys(schema, kind, rels, false) != Err(Cycle)
    ensures RelationshipKeys(schema, kind, rels, false) != Err(DuplicateIdentity)
  {
    if rels != [] {
      RecordErrors(schema, kind, rels[1..]);
    }
  }

  lemma {:induction false} FieldErrors(schema: Schema, members: seq<(string, Json)>)
    ensures FieldKeys(schema, members) != Err(Cycle)
    ensures FieldKeys(schema, members) != Err(DuplicateIdentity)
  {
    if members != [] {
      FieldErrors(schema, members[1..]);
    }
  }
}
