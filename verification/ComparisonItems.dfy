/**
 * From a preview to the items that are reviewed and applied: what a comparison stored with its snapshot of
 * NetBox gives the transaction that later applies it.
 */
module ComparisonItems {
  import opened Prelude
  import opened KeyOrder
  import opened ApplicationPlanning
  import opened RecordWrites
  import opened MutationBackend
  import opened NetBoxSnapshot
  import opened ApplicationService
  import CanonicalDiff
  import ComparisonDrafts
  import SourceRecords

  /** A stored record has the identity and the payload of a canonical one. */
  predicate Carries(record: Record, c: CanonicalDiff.Canonical) {
    record.kind == c.kind && record.identity == c.identity && PayloadOf(record) == c.fields
  }

  function ReferenceOf(c: CanonicalDiff.Canonical): Reference {
    Reference(c.objectType, c.objectId)
  }

  function ActionOf(action: ComparisonDrafts.Action): Action {
    match action
    case Create => Action.Create
    case Update => Action.Update
    case NoChange => Action.NoChange
  }

  /** The item stored for a line of the preview. */
  predicate ItemOf(item: Item, d: ComparisonDrafts.Draft) {
    match d
    case Refused(_) => item.action == Skipped
    case Clash(_, _) => item.action == Conflict
    case Judged(action, record, target, _) =>
      && item.action == ActionOf(action) && Carries(item.record, record)
      && item.reviewed == if target.Some? then ReferenceOf(target.value) else Reference("", "")
  }

  ghost predicate Made(items: seq<Item>, drafts: seq<ComparisonDrafts.Draft>) {
    |items| == |drafts| && forall i :: 0 <= i < |items| ==> ItemOf(items[i], drafts[i])
  }

  /** The same object of NetBox, as the comparison and as the writer sees it. */
  predicate Mirrors(t: Target, c: CanonicalDiff.Canonical) {
    t.reference == ReferenceOf(c) && Carries(t.content, c)
  }

  /** NetBox as it was loaded for the comparison. */
  ghost predicate SnapshotOf(targets: seq<CanonicalDiff.Canonical>, snapshot: seq<Target>) {
    |targets| == |snapshot| && forall i :: 0 <= i < |targets| ==> Mirrors(snapshot[i], targets[i])
  }

  predicate Holds(netBox: map<Key, Target>, u: Key, c: CanonicalDiff.Canonical) {
    u in netBox && netBox[u].reference == ReferenceOf(c) && PayloadOf(netBox[u].content) == c.fields
  }

  /** Looked up by identity, a snapshot gives the last object of each. */
  ghost predicate LastOfEach(targets: seq<CanonicalDiff.Canonical>, netBox: map<Key, Target>) {
    forall u :: LastOne(targets, netBox, u)
  }

  ghost predicate LastOne(targets: seq<CanonicalDiff.Canonical>, netBox: map<Key, Target>, u: Key) {
    var theirs := ComparisonDrafts.Occurrences(targets, u);
    && (u in netBox <==> theirs != [])
    && (theirs != [] ==> Holds(netBox, u, theirs[|theirs| - 1]))
  }

  lemma SnapshotInit(targets: seq<CanonicalDiff.Canonical>, snapshot: seq<Target>, n: nat)
    requires SnapshotOf(targets, snapshot) && n <= |targets|
    ensures SnapshotOf(targets[..n], snapshot[..n])
  {
    forall i | 0 <= i < n
      ensures Mirrors(snapshot[..n][i], targets[..n][i])
    {
      assert Mirrors(snapshot[i], targets[i]);
    }
  }

  lemma LastAppends(targets: seq<CanonicalDiff.Canonical>, snapshot: seq<Target>, c: CanonicalDiff.Canonical, t: Target, u: Key)
    requires LastOne(targets, ByIdentity(snapshot), u) && Mirrors(t, c)
    ensures LastOne(targets + [c], ByIdentity(snapshot + [t]), u)
  {
    KeyedAppend(snapshot, t);
    ComparisonDrafts.OccurrencesStep(targets, c);
    LastOneGrows(ComparisonDrafts.Occurrences(targets, u), ByIdentity(snapshot), t, c, u);
  }

  lemma {:induction false} SnapshotKeyed(targets: seq<CanonicalDiff.Canonical>, snapshot: seq<Target>, u: Key)
    requires SnapshotOf(targets, snapshot)
    ensures LastOne(targets, ByIdentity(snapshot), u)
  {
    if targets == [] {
      assert ByIdentity(snapshot) == map[];
    } else {
      var n := |targets| - 1;
      EndsWithLast(targets);
      EndsWithLast(snapshot);
      var before, held, c, t := targets[..n], snapshot[..n], targets[n], snapshot[n];
      SnapshotInit(targets, snapshot, n);
      assert Mirrors(t, c);
      SnapshotKeyed(before, held, u);
      LastAppends(before, held, c, t, u);
    }
  }

  lemma LastOneGrows(theirs: seq<CanonicalDiff.Canonical>, netBox: map<Key, Target>, t: Target, c: CanonicalDiff.Canonical, u: Key)
    requires u in netBox <==> theirs != []
    requires theirs != [] ==> Holds(netBox, u, theirs[|theirs| - 1])
    requires Mirrors(t, c)
    ensures u in netBox[KeyOf(t) := t] <==> theirs != [] || u == c.Uid()
    ensures if u == c.Uid() then Holds(netBox[KeyOf(t) := t], u, c)
            else theirs != [] ==> Holds(netBox[KeyOf(t) := t], u, theirs[|theirs| - 1])
  {
    assert KeyOf(t) == c.Uid();
  }

  /** The items were stored from a preview against this snapshot of NetBox. */
  ghost predicate Stored(c: ComparisonDrafts.Context, rejected: seq<SourceRecords.Rejection>, drafts: seq<ComparisonDrafts.Draft>,
                         items: seq<Item>, snapshot: seq<Target>)
  {
    ComparisonDrafts.IsPreview(c, rejected, drafts) && Made(items, drafts) && SnapshotOf(c.targets, snapshot)
  }

  lemma PayloadExactly(a: Record, b: Record)
    ensures PayloadOf(a) == PayloadOf(b) <==> SamePayload(a, b)
  {
    if PayloadOf(a) == PayloadOf(b) {
      forall name
        ensures name in a.attributes <==> name in b.attributes
        ensures name in a.attributes ==> a.attributes[name] == b.attributes[name]
        ensures name in Fields(a.relationships) <==> name in Fields(b.relationships)
        ensures name in Fields(a.relationships) ==> Fields(a.relationships)[name] == Fields(b.relationships)[name]
      {
        PayloadAt(a, name);
        PayloadAt(b, name);
      }
      SameMaps(a.attributes, b.attributes);
      SameMaps(Fields(a.relationships), Fields(b.relationships));
    }
  }

  lemma PayloadAt(r: Record, name: string)
    ensures var f := CanonicalDiff.Field(CanonicalDiff.Attributes, name);
            && (f in PayloadOf(r) <==> name in r.attributes) && (f in PayloadOf(r) ==> PayloadOf(r)[f] == r.attributes[name])
    ensures var f := CanonicalDiff.Field(CanonicalDiff.Relationships, name);
            && (f in PayloadOf(r) <==> name in Fields(r.relationships))
            && (f in PayloadOf(r) ==> PayloadOf(r)[f] == Fields(r.relationships)[name])
  {
  }

  /** A judged line is the decision about one source record. */
  lemma JudgedSource(c: ComparisonDrafts.Context, rejected: seq<SourceRecords.Rejection>, drafts: seq<ComparisonDrafts.Draft>, i: nat)
    returns (r: CanonicalDiff.Canonical)
    requires ComparisonDrafts.IsPreview(c, rejected, drafts) && i < |drafts| && drafts[i].Judged?
    ensures ComparisonDrafts.Decide(c, r) == drafts[i].Class()
  {
    var classes, decided := ComparisonDrafts.Classes(drafts), ComparisonDrafts.DecideAll(c, c.sources);
    var d := classes[i];
    assert d == drafts[i].Class() && d in multiset(classes);
    assert d !in ComparisonDrafts.RefuseAll(rejected);
    assert d in multiset(decided);
    var j :| 0 <= j < |decided| && decided[j] == d;
    r := c.sources[j];
  }

  /** What an item was stored as, in terms of NetBox as it is found again. */
  ghost predicate Judges(item: Item, target: map<Key, Target>) {
    var k := item.record.RecordKey();
    && item.action == (if k !in target then Action.Create
                       else if SamePayload(item.record, target[k].content) then Action.NoChange else Action.Update)
    && (k in target ==> item.reviewed == target[k].reference)
  }

  lemma ItemJudged(c: ComparisonDrafts.Context, rejected: seq<SourceRecords.Rejection>, drafts: seq<ComparisonDrafts.Draft>,
                   items: seq<Item>, snapshot: seq<Target>, target: map<Key, Target>, item: Item)
    requires Stored(c, rejected, drafts, items, snapshot) && SameNetBox(ByIdentity(snapshot), target)
    requires item in items && Applies(item)
    ensures Judges(item, target)
  {
    var i :| 0 <= i < |items| && items[i] == item;
    var d := drafts[i];
    assert ItemOf(item, d) && d.Judged?;
    var r := JudgedSource(c, rejected, drafts, i);
    forall u
      ensures LastOne(c.targets, ByIdentity(snapshot), u)
    {
      SnapshotKeyed(c.targets, snapshot, u);
    }
    DecidedItem(c, r, d, item, ByIdentity(snapshot), target);
  }

  lemma DecidedItem(c: ComparisonDrafts.Context, r: CanonicalDiff.Canonical, d: ComparisonDrafts.Draft, item: Item,
                    snapshot: map<Key, Target>, target: map<Key, Target>)
    requires d.Judged? && ComparisonDrafts.Decide(c, r) == d.Class() && ItemOf(item, d)
    requires LastOfEach(c.targets, snapshot) && SameNetBox(snapshot, target)
    ensures Judges(item, target)
  {
    DecidedAgainst(c, r, d);
    var k := item.record.RecordKey();
    var theirs := ComparisonDrafts.Occurrences(c.targets, k);
    assert LastOne(c.targets, snapshot, k);
    if theirs == [] {
      assert k !in target;
    } else {
      assert Holds(snapshot, k, theirs[0]);
      JudgedAgainst(item, d, theirs[0], snapshot, target);
    }
  }

  lemma JudgedAgainst(item: Item, d: ComparisonDrafts.Draft, t: CanonicalDiff.Canonical, snapshot: map<Key, Target>, target: map<Key, Target>)
    requires d.Judged? && ItemOf(item, d) && d.target == Some(t)
    requires d.action == if d.record.fields == t.fields then ComparisonDrafts.NoChange else ComparisonDrafts.Update
    requires Holds(snapshot, item.record.RecordKey(), t) && SameNetBox(snapshot, target)
    ensures Judges(item, target)
  {
    var k := item.record.RecordKey();
    PayloadExactly(item.record, target[k].content);
    PayloadExactly(snapshot[k].content, target[k].content);
  }

  /** A judged line in terms of the one object of its identity, if there is one. */
  lemma DecidedAgainst(c: ComparisonDrafts.Context, r: CanonicalDiff.Canonical, d: ComparisonDrafts.Draft)
    requires d.Judged? && ComparisonDrafts.Decide(c, r) == d.Class()
    ensures var theirs := ComparisonDrafts.Occurrences(c.targets, d.record.Uid());
            && |theirs| <= 1 && d.target == (if theirs == [] then None else Some(theirs[0]))
            && d.action == if theirs == [] then ComparisonDrafts.Create
                           else if d.record.fields == theirs[0].fields then ComparisonDrafts.NoChange else ComparisonDrafts.Update
  {
  }

  /**
   * A ready comparison meets the guards of its own transaction: the snapshot it was made against is NetBox as
   * found again, so the fresh delta and the objects to update are the reviewed ones.
   */
  lemma StoredIsGuarded(c: ComparisonDrafts.Context, rejected: seq<SourceRecords.Rejection>, drafts: seq<ComparisonDrafts.Draft>,
                        schema: Schema, items: seq<Item>, snapshot: seq<Target>, found: seq<Target>)
    requires Stored(c, rejected, drafts, items, snapshot) && ApplicationService.Ready(schema, items, snapshot, found)
    ensures Guarded(items, ByIdentity(found))
  {
    DigestDecides(snapshot, found);
    OrderSound(schema, ApplyRecords(items), OrderedRecords(schema, ApplyRecords(items)).value);
    forall item | item in items
      ensures Judges(item, ByIdentity(found))
    {
      ItemJudged(c, rejected, drafts, items, snapshot, ByIdentity(found), item);
    }
    JudgedIsGuarded(items, ByIdentity(found));
  }

  lemma JudgedIsGuarded(items: seq<Item>, target: map<Key, Target>)
    requires Settling(items) && DistinctKeys(ApplyRecords(items))
    requires forall item :: item in items ==> Judges(item, target)
    ensures Guarded(items, target)
  {
    var found, delta := FreshDelta(ByKey(ApplyRecords(items)), target), ReviewedDelta(items);
    forall k
      ensures k in found <==> k in delta
      ensures k in delta ==> k in found && found[k] == delta[k] && (k in target ==> Reviewed(items)[k].reviewed == target[k].reference)
    {
      if k in delta {
        ReviewedIsFresh(items, target, k);
      }
      if k in found {
        FreshIsReviewed(items, target, k);
      }
    }
    SameMaps(found, delta);
  }

  lemma SameMaps<K, V>(a: map<K, V>, b: map<K, V>)
    requires forall k :: k in a <==> k in b
    requires forall k :: k in b ==> k in a && a[k] == b[k]
    ensures a == b
  {
  }

  lemma ReviewedIsFresh(items: seq<Item>, target: map<Key, Target>, k: Key)
    requires Settling(items) && DistinctKeys(ApplyRecords(items))
    requires forall item :: item in items ==> Judges(item, target)
    requires k in Reviewed(items)
    ensures k in FreshDelta(ByKey(ApplyRecords(items)), target)
    ensures FreshDelta(ByKey(ApplyRecords(items)), target)[k] == Reviewed(items)[k].action
    ensures k in target ==> Reviewed(items)[k].reviewed == target[k].reference
  {
    var item := Reviewed(items)[k];
    assert Judges(item, target);
    DesiredIsOwn(items, item);
  }

  lemma FreshIsReviewed(items: seq<Item>, target: map<Key, Target>, k: Key)
    requires Settling(items) && DistinctKeys(ApplyRecords(items))
    requires forall item :: item in items ==> Judges(item, target)
    requires k in FreshDelta(ByKey(ApplyRecords(items)), target)
    ensures k in Reviewed(items)
  {
    var r := ByKey(ApplyRecords(items))[k];
    AppliedRecordsHaveItems(items, r);
    var item :| item in items && Applies(item) && item.record == r;
    assert Judges(item, target);
    ReviewedCovers(items, item);
  }

  // ---- Observed fields and generic relationships ----------------------------------------------

  function SiteOrLocation(kind: string, name: string): Option<string> {
    if kind == "prefix" && name == "scope_location" then Some("location")
    else if kind == "prefix" && name == "scope_site" then Some("site")
    else None
  }

  /** The tables of a prefix that may be scoped to a site or to a location. */
  const SCOPES: Schema := Schema({"prefix"}, SiteOrLocation, (kind, name) => false, kind => {}, name => None, name => None,
                                 Writer(kind => [], [], {}, {}, (kind, field) => Undefined, name => None))

  /** NetBox has the prefix in a location; the provider sees it at the site. */
  const AT_SITE: CanonicalDiff.Canonical :=
    CanonicalDiff.Canonical("prefix", "p", "P", "17", map[CanonicalDiff.Field(CanonicalDiff.Relationships, "scope_site") := Text("s")], "", "")

  const IN_LOCATION: CanonicalDiff.Canonical :=
    CanonicalDiff.Canonical("prefix", "p", "P", "", map[CanonicalDiff.Field(CanonicalDiff.Relationships, "scope_location") := Text("l")],
                            "ipam.prefix", "1")

  const TWO_SCOPES: Record :=
    Record("prefix", "p", map[], [Relationship("scope_location", Text("l")), Relationship("scope_site", Text("s"))], "P")

  /**
   * Merging observed fields gives the prefix both scopes. Planning accepts that record, which refers to a
   * location and a site; but its write fails, whatever NetBox has.
   */
  lemma TwoScopesSlipThrough()
    ensures var merged := ComparisonDrafts.Desired(true, AT_SITE, IN_LOCATION);
            && ComparisonDrafts.Decide(ComparisonDrafts.Context([AT_SITE], [IN_LOCATION], true), AT_SITE) ==
               ComparisonDrafts.Judged(ComparisonDrafts.Update, merged, Some(IN_LOCATION), [])
            && Carries(TWO_SCOPES, merged)
    ensures Dependencies(SCOPES, TWO_SCOPES, true) == Ok([Key("location", "l"), Key("site", "s")])
    ensures Loads(SCOPES, TWO_SCOPES) == Err(MalformedRelationship)
    ensures !Fits(SCOPES, TWO_SCOPES)
  {
    TwoScopesMerged();
    TwoScopesPlanned();
    TwoScopesRefused();
  }

  lemma TwoScopesMerged()
    ensures var merged := ComparisonDrafts.Desired(true, AT_SITE, IN_LOCATION);
            && ComparisonDrafts.Decide(ComparisonDrafts.Context([AT_SITE], [IN_LOCATION], true), AT_SITE) ==
               ComparisonDrafts.Judged(ComparisonDrafts.Update, merged, Some(IN_LOCATION), [])
            && Carries(TWO_SCOPES, merged)
  {
    MergedFields();
    ScopesDiffer();
    MatchedUpdates(AT_SITE, IN_LOCATION, true);
  }

  lemma ScopesDiffer()
    ensures ComparisonDrafts.Desired(true, AT_SITE, IN_LOCATION).fields != IN_LOCATION.fields
  {
    assert |"scope_location"| != |"scope_site"|;
    assert CanonicalDiff.Field(CanonicalDiff.Relationships, "scope_site") !in IN_LOCATION.fields;
  }

  /** One record and one object of its identity make an update when they come to differ. */
  lemma MatchedUpdates(record: CanonicalDiff.Canonical, target: CanonicalDiff.Canonical, observed: bool)
    requires record.Uid() == target.Uid()
    requires ComparisonDrafts.Desired(observed, record, target).fields != target.fields
    ensures ComparisonDrafts.Decide(ComparisonDrafts.Context([record], [target], observed), record) ==
            ComparisonDrafts.Judged(ComparisonDrafts.Update, ComparisonDrafts.Desired(observed, record, target), Some(target), [])
  {
    OneOccurrence(record, record.Uid());
    OneOccurrence(target, record.Uid());
  }

  lemma OneOccurrence(c: CanonicalDiff.Canonical, u: Key)
    requires c.Uid() == u
    ensures ComparisonDrafts.Occurrences([c], u) == [c]
  {
    assert [c][..0] == [];
  }

  lemma MergedFields()
    ensures PayloadOf(TWO_SCOPES) == ComparisonDrafts.Desired(true, AT_SITE, IN_LOCATION).fields
    ensures CanonicalDiff.Field(CanonicalDiff.Relationships, "scope_site") in PayloadOf(TWO_SCOPES)
  {
    assert |"scope_location"| != |"scope_site"|;
    TwoRelationships(TWO_SCOPES, "scope_location", Text("l"), "scope_site", Text("s"));
  }

  lemma TwoRelationships(r: Record, a: string, x: Json, b: string, y: Json)
    requires r.attributes == map[] && r.relationships == [Relationship(a, x), Relationship(b, y)] && a != b
    ensures PayloadOf(r) == map[CanonicalDiff.Field(CanonicalDiff.Relationships, a) := x] +
                            map[CanonicalDiff.Field(CanonicalDiff.Relationships, b) := y]
  {
    var rels := r.relationships;
    assert rels[..1] == [rels[0]] && rels[..1][..0] == [];
    assert Fields(rels[..1]) == map[a := x];
    assert Fields(rels) == map[a := x, b := y];
    var first, second := CanonicalDiff.Field(CanonicalDiff.Relationships, a), CanonicalDiff.Field(CanonicalDiff.Relationships, b);
    var payload := PayloadOf(r);
    assert first in payload && payload[first] == x && second in payload && payload[second] == y by {
      PayloadAt(r, a);
      PayloadAt(r, b);
    }
    forall f | f in payload
      ensures f == first || f == second
    {
      PayloadAt(r, f.name);
    }
    TwoEntries(payload, first, x, second, y);
  }

  lemma TwoEntries<K, V>(m: map<K, V>, a: K, x: V, b: K, y: V)
    requires a in m && m[a] == x && b in m && m[b] == y && a != b
    requires forall k :: k in m ==> k == a || k == b
    ensures m == map[a := x] + map[b := y]
  {
  }

  lemma TwoScopesPlanned()
    ensures Dependencies(SCOPES, TWO_SCOPES, true) == Ok([Key("location", "l"), Key("site", "s")])
  {
    var rels := TWO_SCOPES.relationships;
    assert rels[1..] == [rels[1]] && rels[1..][1..] == [];
    assert SCOPES.target("prefix", "scope_location") == Some("location") && SCOPES.target("prefix", "scope_site") == Some("site");
    assert ApplicationPlanning.Values(Text("l")) == [Text("l")] && ApplicationPlanning.Values(Text("s")) == [Text("s")];
    assert TargetKeys(SCOPES, "prefix", rels[0]).value == [Key("location", "l")];
    assert TargetKeys(SCOPES, "prefix", rels[1]).value == [Key("site", "s")];
    var none: seq<Key> := [];
    assert RelationshipKeys(SCOPES, "prefix", [], true) == Ok(none);
    assert [Key("site", "s")] + none == [Key("site", "s")];
    assert RelationshipKeys(SCOPES, "prefix", rels[1..], true) == Ok([Key("site", "s")]);
    assert [Key("location", "l")] + [Key("site", "s")] == [Key("location", "l"), Key("site", "s")];
    assert RelationshipKeys(SCOPES, "prefix", rels, true) == Ok([Key("location", "l"), Key("site", "s")]);
    assert CustomFieldKeys(SCOPES, TWO_SCOPES) == Ok(none);
    assert RecordProblem(SCOPES, TWO_SCOPES) == None;
    assert [Key("location", "l"), Key("site", "s")] + none == [Key("location", "l"), Key("site", "s")];
  }

  lemma TwoScopesRefused()
    ensures Loads(SCOPES, TWO_SCOPES) == Err(MalformedRelationship)
    ensures !Fits(SCOPES, TWO_SCOPES)
  {
    var rels := TWO_SCOPES.relationships;
    assert rels[1..] == [rels[1]] && rels[1..][1..] == [];
    assert "scope_" <= "scope_location" && "scope_" <= "scope_site";
    assert CountNamed(rels, "scope_") == 2;
    NamedWithFacts(rels, "scope_");
    var steps := WriteReads(SCOPES.writer, "prefix", ManagesWireless(TWO_SCOPES));
    assert steps == [Generic("scope_")];
    assert !ReadFits(SCOPES, TWO_SCOPES, steps[0]);
  }
}
