/**
 * Classifying a run against NetBox: group both sides by natural identity, set conflicts aside, merge
 * observed fields, compare the rest and list one draft per observation.
 */
module ComparisonDrafts {
  import opened Prelude
  import opened KeyOrder
  import opened CanonicalDiff
  import SourceRecords
  import IdentityResolution
  import ObservedRecords

  datatype Action = Create | Update | NoChange

  datatype Basis = DuplicateSource | AmbiguousTarget

  /** One line of the preview: a rejected observation, a conflict, or a compared record. */
  datatype Draft =
    | Refused(rejection: SourceRecords.Rejection)
    | Clash(record: Canonical, basis: Basis)
    | Judged(action: Action, record: Canonical, target: Option<Canonical>, changes: seq<Change>)
  {
    function SortUid(): Key {
      match this
      case Refused(r) => Key(r.kind, r.externalId)
      case Clash(r, _) => r.Uid()
      case Judged(_, r, _, _) => r.Uid()
    }

    function ExternalId(): string {
      match this
      case Refused(r) => r.externalId
      case Clash(r, _) => r.externalId
      case Judged(_, r, _, _) => r.externalId
    }

    /** The draft without its field changes. */
    function Class(): Draft {
      if Judged? then this.(changes := []) else this
    }
  }

  // ---- What each record should become ---------------------------------------------------------

  datatype Context = Context(sources: seq<Canonical>, targets: seq<Canonical>, observed: bool)

  function Occurrences(records: seq<Canonical>, uid: Key): seq<Canonical> {
    if records == [] then []
    else
      var n := |records| - 1;
      Occurrences(records[..n], uid) + (if records[n].Uid() == uid then [records[n]] else [])
  }

  function Desired(observed: bool, record: Canonical, target: Canonical): Canonical {
    if observed then record.(fields := MergeObserved(record.fields, target.fields)) else record
  }

  /** The class of a source record: by how often its identity occurs on both sides, then by its payload. */
  function Decide(c: Context, record: Canonical): Draft {
    var own, theirs := Occurrences(c.sources, record.Uid()), Occurrences(c.targets, record.Uid());
    if |own| > 1 then Clash(record, DuplicateSource)
    else if |theirs| > 1 then Clash(record, AmbiguousTarget)
    else if |theirs| == 0 then Judged(Create, record, None, [])
    else
      var desired := Desired(c.observed, record, theirs[0]);
      Judged(if desired.fields == theirs[0].fields then NoChange else Update, desired, Some(theirs[0]), [])
  }

  function Decider(c: Context): Canonical -> Draft {
    (r: Canonical) => Decide(c, r)
  }

  function DecideAll(c: Context, records: seq<Canonical>): seq<Draft> {
    Mapped(Decider(c), records)
  }

  // ---- Groups ---------------------------------------------------------------------------------

  /** Records grouped by natural identity; `order` lists the groups as they were first met. */
  datatype Groups = Groups(order: seq<Key>, byUid: map<Key, seq<Canonical>>)

  ghost predicate Grouping(records: seq<Canonical>, g: Groups) {
    && Distinct(g.order)
    && (forall u :: u in g.order <==> u in g.byUid)
    && (forall u :: u in g.byUid ==> g.byUid[u] == Occurrences(records, u) && g.byUid[u] != [])
    && (forall u :: u !in g.byUid ==> Occurrences(records, u) == [])
  }

  method GroupByUid(records: seq<Canonical>) returns (g: Groups)
    ensures Grouping(records, g)
  {
    g := Groups([], map[]);
    for i := 0 to |records|
      invariant Grouping(records[..i], g)
    {
      var r := records[i];
      assert records[..i + 1][..i] == records[..i];
      OccurrencesStep(records[..i], r);
      assert records[..i] + [r] == records[..i + 1];
      if r.Uid() in g.byUid {
        g := Groups(g.order, g.byUid[r.Uid() := g.byUid[r.Uid()] + [r]]);
      } else {
        g := Groups(g.order + [r.Uid()], g.byUid[r.Uid() := [r]]);
      }
    }
    assert records[..|records|] == records;
  }

  lemma OccurrencesStep(records: seq<Canonical>, r: Canonical)
    ensures forall u :: Occurrences(records + [r], u) == if u == r.Uid() then Occurrences(records, u) + [r] else Occurrences(records, u)
  {
  }

  lemma {:induction false} OccurrencesCount(records: seq<Canonical>, u: Key, r: Canonical)
    ensures multiset(Occurrences(records, u))[r] == if r.Uid() == u then multiset(records)[r] else 0
  {
    if records != [] {
      var n := |records| - 1;
      assert records == records[..n] + [records[n]];
      OccurrencesCount(records[..n], u, r);
    }
  }

  function Flatten(records: seq<Canonical>, order: seq<Key>): seq<Canonical> {
    if order == [] then []
    else Flatten(records, order[..|order| - 1]) + Occurrences(records, order[|order| - 1])
  }

  lemma {:induction false} FlattenCount(records: seq<Canonical>, order: seq<Key>, r: Canonical)
    requires Distinct(order)
    ensures multiset(Flatten(records, order))[r] == if r.Uid() in order then multiset(records)[r] else 0
  {
    if order != [] {
      var n := |order| - 1;
      assert order == order[..n] + [order[n]];
      FlattenCount(records, order[..n], r);
      OccurrencesCount(records, order[n], r);
    }
  }

  /** Going through the groups visits every record exactly once. */
  lemma GroupsPartition(records: seq<Canonical>, g: Groups)
    requires Grouping(records, g)
    ensures multiset(Flatten(records, g.order)) == multiset(records)
  {
    forall r
      ensures multiset(Flatten(records, g.order))[r] == multiset(records)[r]
    {
      FlattenCount(records, g.order, r);
      if r in records {
        OccurrencesCount(records, r.Uid(), r);
        assert r in multiset(records);
        assert Occurrences(records, r.Uid()) != [];
      }
    }
  }

  // ---- Comparing ------------------------------------------------------------------------------

  function FieldsOf(declared: string -> set<Field>, records: set<Canonical>, kind: string): set<Field> {
    declared(kind) + set r, f | r in records && r.kind == kind && f in r.fields :: f
  }

  /** No two fields of one kind share a model attribute. */
  ghost predicate Modelable(declared: string -> set<Field>, records: set<Canonical>) {
    forall r :: r in records ==> NoCollision(FieldsOf(declared, records, r.kind))
  }

  method ModelClasses(declared: string -> set<Field>, records: set<Canonical>) returns (classes: Option<map<string, map<string, Field>>>)
    ensures classes.Some? <==> Modelable(declared, records)
    ensures classes.Some? ==> forall r :: r in records ==>
              r.kind in classes.value && Names(classes.value[r.kind], FieldsOf(declared, records, r.kind))
  {
    var models: map<string, map<string, Field>> := map[];
    var rest := records;
    while rest != {}
      invariant rest <= records
      invariant forall r :: r in records - rest ==>
                  && r.kind in models && Names(models[r.kind], FieldsOf(declared, records, r.kind))
                  && NoCollision(FieldsOf(declared, records, r.kind))
      decreases |rest|
    {
      var r :| r in rest;
      var fieldMap := FieldMapOf(FieldsOf(declared, records, r.kind));
      if fieldMap.None? {
        return None;
      }
      models := models[r.kind := fieldMap.value];
      rest := rest - {r};
    }
    return Some(models);
  }

  function TargetFields(target: Option<Canonical>): Payload {
    if target.Some? then target.value.fields else map[]
  }

  /** The class of a record against the one target of its identity, if there is one. */
  function JudgeRecord(record: Canonical, targets: map<Key, Canonical>): Draft {
    if record.Uid() !in targets then Judged(Create, record, None, [])
    else
      var target := targets[record.Uid()];
      Judged(if record.fields == target.fields then NoChange else Update, record, Some(target), [])
  }

  /** A compared draft lists the fields that differ; nothing for a record that matches. */
  ghost predicate ChangesRight(d: Draft) {
    d.Judged? ==> if d.action == NoChange then d.changes == [] else IsDelta(d.changes, d.record.fields, TargetFields(d.target))
  }

  method CompareRecord(fieldMap: map<string, Field>, ghost fields: set<Field>, record: Canonical, targets: map<Key, Canonical>)
    returns (d: Draft)
    requires Names(fieldMap, fields) && record.fields.Keys <= fields
    requires record.Uid() in targets ==> targets[record.Uid()].fields.Keys <= fields
    ensures d.Class() == JudgeRecord(record, targets) && ChangesRight(d)
  {
    if record.Uid() !in targets {
      var changes := RecordChanges(fieldMap, fields, record.fields, None);
      return Judged(Create, record, None, changes);
    }
    var target := targets[record.Uid()];
    ModelsDifferWithPayloads(fieldMap, fields, record.fields, target.fields);
    if ModelValues(fieldMap, record.fields) != ModelValues(fieldMap, target.fields) {
      var changes := RecordChanges(fieldMap, fields, record.fields, Some(target.fields));
      return Judged(Update, record, Some(target), changes);
    }
    return Judged(NoChange, record, Some(target), []);
  }

  ghost predicate IsResult(d: Draft, record: Canonical, targets: map<Key, Canonical>) {
    d.Class() == JudgeRecord(record, targets) && ChangesRight(d)
  }

  /** A record whose model names its own fields and those of its target. */
  ghost predicate Covered(models: map<string, map<string, Field>>, fieldsOf: string -> set<Field>, r: Canonical, targets: map<Key, Canonical>) {
    && r.kind in models && Names(models[r.kind], fieldsOf(r.kind))
    && r.fields.Keys <= fieldsOf(r.kind)
    && (r.Uid() in targets ==> targets[r.Uid()].fields.Keys <= fieldsOf(r.kind))
  }

  method CompareModeled(models: map<string, map<string, Field>>, ghost fieldsOf: string -> set<Field>, records: seq<Canonical>,
                        targets: map<Key, Canonical>)
    returns (results: seq<Draft>)
    requires forall r :: r in records ==> Covered(models, fieldsOf, r, targets)
    ensures |results| == |records|
    ensures forall i :: 0 <= i < |records| ==> IsResult(results[i], records[i], targets)
  {
    results := [];
    for i := 0 to |records|
      invariant |results| == i
      invariant forall j :: 0 <= j < i ==> IsResult(results[j], records[j], targets)
    {
      var r := records[i];
      assert Covered(models, fieldsOf, r, targets);
      var d := CompareRecord(models[r.kind], fieldsOf(r.kind), r, targets);
      results := results + [d];
    }
  }

  /** Compares every record with the target of its identity; a field-name collision stops the comparison. */
  method CompareCanonicalRecords(declared: string -> set<Field>, records: seq<Canonical>, targets: map<Key, Canonical>)
    returns (drafts: Option<seq<Draft>>)
    requires forall u :: u in targets ==> targets[u].Uid() == u
    ensures drafts.Some? <==> Modelable(declared, Elements(records) + targets.Values)
    ensures drafts.Some? ==> |drafts.value| == |records|
    ensures drafts.Some? ==> forall i :: 0 <= i < |records| ==> IsResult(drafts.value[i], records[i], targets)
  {
    var all := Elements(records) + targets.Values;
    var classes := ModelClasses(declared, all);
    if classes.None? {
      return None;
    }
    ghost var fieldsOf := (kind: string) => FieldsOf(declared, all, kind);
    forall r | r in records
      ensures Covered(classes.value, fieldsOf, r, targets)
    {
      assert r in all;
      FieldsCovered(declared, all, r, targets);
    }
    var results := CompareModeled(classes.value, fieldsOf, records, targets);
    return Some(results);
  }

  lemma FieldsCovered(declared: string -> set<Field>, all: set<Canonical>, r: Canonical, targets: map<Key, Canonical>)
    requires r in all && targets.Values <= all
    requires forall u :: u in targets ==> targets[u].Uid() == u
    ensures r.fields.Keys <= FieldsOf(declared, all, r.kind)
    ensures r.Uid() in targets ==> targets[r.Uid()].fields.Keys <= FieldsOf(declared, all, r.kind)
  {
    if r.Uid() in targets {
      var t := targets[r.Uid()];
      assert t in targets.Values && t.kind == r.kind;
    }
  }

  // ---- Drafts ---------------------------------------------------------------------------------

  /** Progress through the groups: conflicts so far, records to compare, and the targets to compare them with. */
  datatype Sorting = Sorting(clashes: seq<Draft>, records: seq<Canonical>, targets: map<Key, Canonical>)

  datatype Part = UidPart | UsedPart | ClassPart | ClashPart

  function Judger(targets: map<Key, Canonical>): Canonical -> Draft {
    (r: Canonical) => JudgeRecord(r, targets)
  }

  function JudgeAll(records: seq<Canonical>, targets: map<Key, Canonical>): seq<Draft> {
    Mapped(Judger(targets), records)
  }

  ghost predicate SortingHolds(c: Context, order: seq<Key>, i: nat, s: Sorting, part: Part) {
    && i <= |order|
    && match part
       case UidPart =>
         && (forall r :: r in s.records ==> r.Uid() in order[..i])
         && (forall u :: u in s.targets ==> u in order[..i] && s.targets[u].Uid() == u)
       case UsedPart => forall u :: u in s.targets ==> exists r :: r in s.records && r.Uid() == u
       case ClassPart =>
         multiset(s.clashes) + multiset(JudgeAll(s.records, s.targets)) == multiset(DecideAll(c, Flatten(c.sources, order[..i])))
       case ClashPart => forall d :: d in s.clashes ==> d.Clash?
  }

  ghost predicate SortedInto(c: Context, order: seq<Key>, i: nat, s: Sorting) {
    forall part :: SortingHolds(c, order, i, s, part)
  }

  function ClashAll(group: seq<Canonical>, basis: Basis): seq<Draft> {
    Mapped((r: Canonical) => Clash(r, basis), group)
  }

  lemma {:induction false} OccurrencesUid(records: seq<Canonical>, u: Key, r: Canonical)
    requires r in Occurrences(records, u)
    ensures r.Uid() == u
  {
    var n := |records| - 1;
    if r in Occurrences(records[..n], u) {
      OccurrencesUid(records[..n], u, r);
    }
  }

  lemma FlattenStep(c: Context, order: seq<Key>, i: nat)
    requires i < |order|
    ensures Flatten(c.sources, order[..i + 1]) == Flatten(c.sources, order[..i]) + Occurrences(c.sources, order[i])
    ensures DecideAll(c, Flatten(c.sources, order[..i + 1])) ==
            DecideAll(c, Flatten(c.sources, order[..i])) + DecideAll(c, Occurrences(c.sources, order[i]))
  {
    assert order[..i + 1][..i] == order[..i];
  }

  lemma GroupClashes(c: Context, u: Key, basis: Basis)
    requires if basis == DuplicateSource then |Occurrences(c.sources, u)| > 1
             else |Occurrences(c.sources, u)| == 1 && |Occurrences(c.targets, u)| > 1
    ensures DecideAll(c, Occurrences(c.sources, u)) == ClashAll(Occurrences(c.sources, u), basis)
  {
    var group := Occurrences(c.sources, u);
    forall i | 0 <= i < |group|
      ensures Decide(c, group[i]) == Clash(group[i], basis)
    {
      OccurrencesUid(c.sources, u, group[i]);
    }
  }

  lemma SortClashes(c: Context, order: seq<Key>, i: nat, s: Sorting, basis: Basis)
    requires SortedInto(c, order, i, s) && i < |order|
    requires if basis == DuplicateSource then |Occurrences(c.sources, order[i])| > 1
             else |Occurrences(c.sources, order[i])| == 1 && |Occurrences(c.targets, order[i])| > 1
    ensures SortedInto(c, order, i + 1, s.(clashes := s.clashes + ClashAll(Occurrences(c.sources, order[i]), basis)))
  {
    var group := Occurrences(c.sources, order[i]);
    var t, next := s.(clashes := s.clashes + ClashAll(group, basis)), i + 1;
    assert order[..next] == order[..i] + [order[i]];
    forall part
      ensures SortingHolds(c, order, next, t, part)
    {
      assert SortingHolds(c, order, i, s, part);
      match part {
        case UidPart =>
        case UsedPart =>
        case ClassPart =>
          FlattenStep(c, order, i);
          GroupClashes(c, order[i], basis);
        case ClashPart =>
      }
    }
  }

  /** The state after a group that is compared. */
  function AddCompared(s: Sorting, u: Key, desired: Canonical, theirs: seq<Canonical>): Sorting {
    Sorting(s.clashes, s.records + [desired], if theirs == [] then s.targets else s.targets[u := theirs[0]])
  }

  function DesiredFor(c: Context, record: Canonical, theirs: seq<Canonical>): Canonical {
    if theirs == [] then record else Desired(c.observed, record, theirs[0])
  }

  lemma ComparedUses(s: Sorting, u: Key, desired: Canonical, theirs: seq<Canonical>)
    requires forall v :: v in s.targets ==> exists r :: r in s.records && r.Uid() == v
    requires desired.Uid() == u
    ensures forall v :: v in AddCompared(s, u, desired, theirs).targets ==>
              exists r :: r in AddCompared(s, u, desired, theirs).records && r.Uid() == v
  {
    var t := AddCompared(s, u, desired, theirs);
    assert desired in t.records;
    forall v | v in t.targets
      ensures exists r :: r in t.records && r.Uid() == v
    {
      if v != u {
        var r :| r in s.records && r.Uid() == v;
        assert r in t.records;
      }
    }
  }

  lemma ComparedJudged(c: Context, s: Sorting, record: Canonical, theirs: seq<Canonical>)
    requires Occurrences(c.sources, record.Uid()) == [record]
    requires Occurrences(c.targets, record.Uid()) == theirs && |theirs| <= 1
    requires record.Uid() !in s.targets && forall r :: r in s.records ==> r.Uid() != record.Uid()
    ensures var t := AddCompared(s, record.Uid(), DesiredFor(c, record, theirs), theirs);
            JudgeAll(t.records, t.targets) == JudgeAll(s.records, s.targets) + [Decide(c, record)]
  {
  }

  lemma SortCompares(c: Context, order: seq<Key>, i: nat, s: Sorting, record: Canonical)
    requires SortedInto(c, order, i, s) && i < |order| && Distinct(order)
    requires Occurrences(c.sources, order[i]) == [record] && |Occurrences(c.targets, order[i])| <= 1
    ensures var theirs := Occurrences(c.targets, order[i]);
            SortedInto(c, order, i + 1, AddCompared(s, order[i], DesiredFor(c, record, theirs), theirs))
  {
    var u, theirs := order[i], Occurrences(c.targets, order[i]);
    assert record in Occurrences(c.sources, u);
    OccurrencesUid(c.sources, u, record);
    assert theirs != [] ==> theirs[0].Uid() == u by {
      if theirs != [] {
        OccurrencesUid(c.targets, u, theirs[0]);
      }
    }
    var desired := DesiredFor(c, record, theirs);
    var t, next := AddCompared(s, u, desired, theirs), i + 1;
    assert order[..next] == order[..i] + [u];
    assert SortingHolds(c, order, i, s, UidPart);
    NotBefore(order, i);
    forall part
      ensures SortingHolds(c, order, next, t, part)
    {
      assert SortingHolds(c, order, i, s, part);
      match part {
        case UidPart =>
        case UsedPart => ComparedUses(s, u, desired, theirs);
        case ClassPart => ComparedClass(c, order, i, s, record);
        case ClashPart =>
      }
    }
  }

  lemma ComparedClass(c: Context, order: seq<Key>, i: nat, s: Sorting, record: Canonical)
    requires i < |order| && order[i] == record.Uid()
    requires SortingHolds(c, order, i, s, ClassPart)
    requires Occurrences(c.sources, order[i]) == [record] && |Occurrences(c.targets, order[i])| <= 1
    requires order[i] !in s.targets && forall r :: r in s.records ==> r.Uid() != order[i]
    ensures var next, theirs := i + 1, Occurrences(c.targets, order[i]);
            SortingHolds(c, order, next, AddCompared(s, order[i], DesiredFor(c, record, theirs), theirs), ClassPart)
  {
    ComparedJudged(c, s, record, Occurrences(c.targets, order[i]));
    FlattenStep(c, order, i);
    assert Mapped(Decider(c), [record]) == [Decide(c, record)];
  }

  lemma NotBefore(order: seq<Key>, i: nat)
    requires Distinct(order) && i < |order|
    ensures order[i] !in order[..i]
  {
  }

  /** Sets conflicts aside and collects what remains to be compared. */
  method SortGroups(c: Context, sources: Groups, targets: Groups) returns (s: Sorting)
    requires Grouping(c.sources, sources) && Grouping(c.targets, targets)
    ensures SortedInto(c, sources.order, |sources.order|, s)
  {
    s := Sorting([], [], map[]);
    SortStarts(c, sources.order);
    for i := 0 to |sources.order|
      invariant SortedInto(c, sources.order, i, s)
    {
      var uid := sources.order[i];
      var group := sources.byUid[uid];
      var theirs := if uid in targets.byUid then targets.byUid[uid] else [];
      if |group| > 1 {
        SortClashes(c, sources.order, i, s, DuplicateSource);
        s := s.(clashes := s.clashes + ClashAll(group, DuplicateSource));
      } else if |theirs| > 1 {
        SortClashes(c, sources.order, i, s, AmbiguousTarget);
        s := s.(clashes := s.clashes + ClashAll(group, AmbiguousTarget));
      } else {
        var record := group[0];
        SortCompares(c, sources.order, i, s, record);
        s := AddCompared(s, uid, DesiredFor(c, record, theirs), theirs);
      }
    }
  }

  lemma SortStarts(c: Context, order: seq<Key>)
    ensures SortedInto(c, order, 0, Sorting([], [], map[]))
  {
  }

  function RefuseAll(rejected: seq<SourceRecords.Rejection>): seq<Draft> {
    Mapped((r: SourceRecords.Rejection) => Refused(r), rejected)
  }

  function ClassOf(): Draft -> Draft {
    (d: Draft) => d.Class()
  }

  function Classes(drafts: seq<Draft>): seq<Draft> {
    Mapped(ClassOf(), drafts)
  }

  /**
   * The preview of a run: one draft for each rejection and one for each source record, of the class its
   * identity and payload decide, sorted for display; and no draft for anything NetBox alone has.
   */
  ghost predicate IsPreview(c: Context, rejected: seq<SourceRecords.Rejection>, drafts: seq<Draft>) {
    && multiset(Classes(drafts)) == multiset(RefuseAll(rejected)) + multiset(DecideAll(c, c.sources))
    && (forall d :: d in drafts ==> ChangesRight(d))
    && InOrder(drafts)
  }

  predicate Before(a: Draft, b: Draft) {
    Less(a.SortUid(), b.SortUid()) || (a.SortUid() == b.SortUid() && LexLess(a.ExternalId(), b.ExternalId()))
  }

  ghost predicate InOrder(drafts: seq<Draft>) {
    forall i, j :: 0 <= i < j < |drafts| ==> !Before(drafts[j], drafts[i])
  }

  lemma BeforeTransitive(a: Draft, b: Draft, c: Draft)
    requires !Before(b, a) && !Before(c, b)
    ensures !Before(c, a)
  {
    KeyTotal(a.SortUid(), b.SortUid());
    KeyTotal(b.SortUid(), c.SortUid());
    KeyTotal(a.SortUid(), c.SortUid());
    LexTotal(a.ExternalId(), b.ExternalId());
    LexTotal(b.ExternalId(), c.ExternalId());
    LexTotal(a.ExternalId(), c.ExternalId());
    if Less(a.SortUid(), b.SortUid()) && Less(b.SortUid(), c.SortUid()) {
      KeyTransitive(a.SortUid(), b.SortUid(), c.SortUid());
    }
    if LexLess(a.ExternalId(), b.ExternalId()) && LexLess(b.ExternalId(), c.ExternalId()) {
      LexTransitive(a.ExternalId(), b.ExternalId(), c.ExternalId());
    }
  }

  lemma BeforeAsymmetric(a: Draft, b: Draft)
    requires Before(a, b)
    ensures !Before(b, a)
  {
    KeyTotal(a.SortUid(), b.SortUid());
    LexTotal(a.ExternalId(), b.ExternalId());
  }

  /** Insertion sort by kind, identity and external ID. */
  method SortDrafts(drafts: seq<Draft>) returns (sorted: seq<Draft>)
    ensures multiset(sorted) == multiset(drafts)
    ensures InOrder(sorted)
  {
    sorted := [];
    for n := 0 to |drafts|
      invariant multiset(sorted) == multiset(drafts[..n])
      invariant InOrder(sorted)
    {
      var d := drafts[n];
      var i := |sorted|;
      while i > 0 && Before(d, sorted[i - 1])
        invariant 0 <= i <= |sorted|
        invariant forall j :: i <= j < |sorted| ==> Before(d, sorted[j])
      {
        i := i - 1;
      }
      InsertInOrder(sorted, d, i);
      assert drafts[..n + 1] == drafts[..n] + [d];
      assert sorted == sorted[..i] + sorted[i..];
      sorted := sorted[..i] + [d] + sorted[i..];
    }
    assert drafts[..|drafts|] == drafts;
  }

  lemma InsertInOrder(sorted: seq<Draft>, d: Draft, i: nat)
    requires InOrder(sorted) && i <= |sorted|
    requires i > 0 ==> !Before(d, sorted[i - 1])
    requires forall j :: i <= j < |sorted| ==> Before(d, sorted[j])
    ensures InOrder(sorted[..i] + [d] + sorted[i..])
  {
    forall j | 0 <= j < i
      ensures !Before(d, sorted[j])
    {
      if j < i - 1 {
        BeforeTransitive(sorted[j], sorted[i - 1], d);
      }
    }
    forall j | i <= j < |sorted|
      ensures !Before(sorted[j], d)
    {
      BeforeAsymmetric(d, sorted[j]);
    }
  }

  function PartsOf(drafts: seq<Draft>): set<Canonical> {
    (set d: Draft | d in drafts && d.Judged? :: d.record) +
    (set d: Draft | d in drafts && d.Judged? && d.target.Some? :: d.target.value)
  }

  /** The records that are no conflict and the targets of their identities: what the comparison models. */
  function Compared(c: Context): set<Canonical> {
    PartsOf(DecideAll(c, c.sources))
  }

  lemma JudgedExactly(c: Context, g: Groups, s: Sorting, d: Draft)
    requires Grouping(c.sources, g) && SortedInto(c, g.order, |g.order|, s)
    requires d.Judged?
    ensures d in DecideAll(c, c.sources) <==> d in JudgeAll(s.records, s.targets)
  {
    SortedClasses(c, g, s);
    var all := multiset(DecideAll(c, c.sources));
    assert all == multiset(s.clashes) + multiset(JudgeAll(s.records, s.targets));
    assert d in DecideAll(c, c.sources) <==> d in all;
    assert d !in s.clashes;
  }

  lemma InCompared(s: Sorting, i: nat)
    requires i < |s.records|
    ensures JudgeAll(s.records, s.targets)[i].record == s.records[i]
    ensures s.records[i].Uid() in s.targets ==> JudgeAll(s.records, s.targets)[i].target == Some(s.targets[s.records[i].Uid()])
    ensures s.records[i].Uid() !in s.targets ==> JudgeAll(s.records, s.targets)[i].target == None
  {
  }

  /** What the comparison judges is what it is given. */
  lemma JudgedParts(s: Sorting)
    requires forall u :: u in s.targets ==> exists r :: r in s.records && r.Uid() == u
    ensures PartsOf(JudgeAll(s.records, s.targets)) == Elements(s.records) + s.targets.Values
  {
    var judged := JudgeAll(s.records, s.targets);
    forall r | r in Elements(s.records) + s.targets.Values
      ensures r in PartsOf(judged)
    {
      if r in s.records {
        var i :| 0 <= i < |s.records| && s.records[i] == r;
        InCompared(s, i);
        assert judged[i] in judged;
      } else {
        var u :| u in s.targets && s.targets[u] == r;
        var own :| own in s.records && own.Uid() == u;
        var i :| 0 <= i < |s.records| && s.records[i] == own;
        InCompared(s, i);
        assert judged[i] in judged;
      }
    }
    forall r | r in PartsOf(judged)
      ensures r in Elements(s.records) + s.targets.Values
    {
      var d :| d in judged && d.Judged? && (d.record == r || d.target == Some(r));
      var i :| 0 <= i < |judged| && judged[i] == d;
      InCompared(s, i);
    }
  }

  lemma ComparedOnly(c: Context, g: Groups, s: Sorting)
    requires Grouping(c.sources, g) && SortedInto(c, g.order, |g.order|, s)
    ensures Elements(s.records) + s.targets.Values == Compared(c)
  {
    forall d: Draft | d.Judged?
      ensures d in DecideAll(c, c.sources) <==> d in JudgeAll(s.records, s.targets)
    {
      JudgedExactly(c, g, s, d);
    }
    PartsAgree(DecideAll(c, c.sources), JudgeAll(s.records, s.targets));
    assert SortingHolds(c, g.order, |g.order|, s, UsedPart);
    JudgedParts(s);
  }

  lemma PartsAgree(a: seq<Draft>, b: seq<Draft>)
    requires forall d: Draft :: d.Judged? ==> (d in a <==> d in b)
    ensures PartsOf(a) == PartsOf(b)
  {
  }

  lemma SortedClasses(c: Context, g: Groups, s: Sorting)
    requires Grouping(c.sources, g) && SortedInto(c, g.order, |g.order|, s)
    ensures multiset(s.clashes) + multiset(JudgeAll(s.records, s.targets)) == multiset(DecideAll(c, c.sources))
    ensures Classes(s.clashes) == s.clashes && forall d :: d in s.clashes ==> d.Clash?
  {
    assert SortingHolds(c, g.order, |g.order|, s, ClassPart) && SortingHolds(c, g.order, |g.order|, s, ClashPart);
    assert g.order[..|g.order|] == g.order;
    GroupsDecided(c, g);
    PlainClasses(s.clashes);
  }

  /** Deciding group by group decides every source record. */
  lemma GroupsDecided(c: Context, g: Groups)
    requires Grouping(c.sources, g)
    ensures multiset(DecideAll(c, Flatten(c.sources, g.order))) == multiset(DecideAll(c, c.sources))
  {
    GroupsPartition(c.sources, g);
    MappedPermuted(Decider(c), Flatten(c.sources, g.order), c.sources);
  }

  lemma PreviewAssembled(c: Context, g: Groups, s: Sorting, rejected: seq<SourceRecords.Rejection>, results: seq<Draft>, sorted: seq<Draft>)
    requires Grouping(c.sources, g) && SortedInto(c, g.order, |g.order|, s)
    requires |results| == |s.records|
    requires forall i :: 0 <= i < |results| ==> IsResult(results[i], s.records[i], s.targets)
    requires multiset(sorted) == multiset(RefuseAll(rejected) + s.clashes + results) && InOrder(sorted)
    ensures IsPreview(c, rejected, sorted)
  {
    SortedClasses(c, g, s);
    var refused, judged := RefuseAll(rejected), JudgeAll(s.records, s.targets);
    var all := refused + s.clashes + results;
    MappedPermuted(ClassOf(), sorted, all);
    assert Classes(all) == refused + s.clashes + judged by {
      ClassesAssembled(rejected, s, results);
    }
    SameMultisetSameElements(sorted, all);
    AllChangesRight(rejected, s.clashes, results);
  }

  lemma ClassesAssembled(rejected: seq<SourceRecords.Rejection>, s: Sorting, results: seq<Draft>)
    requires |results| == |s.records| && Classes(s.clashes) == s.clashes
    requires forall i :: 0 <= i < |results| ==> results[i].Class() == JudgeRecord(s.records[i], s.targets)
    ensures Classes(RefuseAll(rejected) + s.clashes + results) == RefuseAll(rejected) + s.clashes + JudgeAll(s.records, s.targets)
  {
  }

  lemma AllChangesRight(rejected: seq<SourceRecords.Rejection>, clashes: seq<Draft>, results: seq<Draft>)
    requires forall d :: d in clashes ==> d.Clash?
    requires forall i :: 0 <= i < |results| ==> ChangesRight(results[i])
    ensures forall d :: d in RefuseAll(rejected) + clashes + results ==> ChangesRight(d)
  {
  }

  lemma PlainClasses(drafts: seq<Draft>)
    requires forall d :: d in drafts ==> d.Clash?
    ensures Classes(drafts) == drafts
  {
    forall i | 0 <= i < |drafts|
      ensures Classes(drafts)[i] == drafts[i]
    {
      assert drafts[i] in drafts;
    }
  }

  /** Builds the preview; only a field-name collision among the compared records stops it. */
  method BuildDrafts(declared: string -> set<Field>, c: Context, rejected: seq<SourceRecords.Rejection>)
    returns (drafts: Option<seq<Draft>>)
    ensures drafts.Some? <==> Modelable(declared, Compared(c))
    ensures drafts.Some? ==> IsPreview(c, rejected, drafts.value)
  {
    var sources := GroupByUid(c.sources);
    var targets := GroupByUid(c.targets);
    var s := SortGroups(c, sources, targets);
    assert SortingHolds(c, sources.order, |sources.order|, s, UidPart);
    ComparedOnly(c, sources, s);
    var results := CompareCanonicalRecords(declared, s.records, s.targets);
    if results.None? {
      return None;
    }
    var sorted := SortDrafts(RefuseAll(rejected) + s.clashes + results.value);
    PreviewAssembled(c, sources, s, rejected, results.value, sorted);
    return Some(sorted);
  }

  // ---- Conservation ---------------------------------------------------------------------------

  function CountClass(drafts: seq<Draft>, counted: Draft -> bool): nat {
    if drafts == [] then 0
    else CountClass(drafts[..|drafts| - 1], counted) + (if counted(drafts[|drafts| - 1]) then 1 else 0)
  }

  function CountAction(drafts: seq<Draft>, action: Action): nat {
    CountClass(drafts, (d: Draft) => d.Judged? && d.action == action)
  }

  function CountClashes(drafts: seq<Draft>): nat {
    CountClass(drafts, (d: Draft) => d.Clash?)
  }

  function CountRefused(drafts: seq<Draft>): nat {
    CountClass(drafts, (d: Draft) => d.Refused?)
  }

  lemma {:induction false} EveryDraftCounted(drafts: seq<Draft>)
    ensures CountAction(drafts, Create) + CountAction(drafts, Update) + CountAction(drafts, NoChange) +
            CountClashes(drafts) + CountRefused(drafts) == |drafts|
  {
    if drafts != [] {
      EveryDraftCounted(drafts[..|drafts| - 1]);
    }
  }

  function DraftIds(drafts: seq<Draft>): seq<string> {
    Mapped((d: Draft) => d.ExternalId(), drafts)
  }

  /** A draft's class and its record's external ID decide the ID it is listed under. */
  lemma ClassKeepsIds(drafts: seq<Draft>)
    ensures DraftIds(Classes(drafts)) == DraftIds(drafts)
  {
  }

  lemma DecideKeepsIds(c: Context, records: seq<Canonical>)
    ensures DraftIds(DecideAll(c, records)) == SourceRecords.ExternalIds(records)
  {
    forall i | 0 <= i < |records|
      ensures Decide(c, records[i]).ExternalId() == records[i].externalId
    {
    }
  }

  lemma DraftIdsJoin(a: seq<Draft>, b: seq<Draft>)
    ensures multiset(DraftIds(a + b)) == multiset(DraftIds(a)) + multiset(DraftIds(b))
  {
    assert DraftIds(a + b) == DraftIds(a) + DraftIds(b);
  }

  /** A preview lists the external IDs of the rejections and of the source records, and no others. */
  lemma PreviewIds(c: Context, rejected: seq<SourceRecords.Rejection>, drafts: seq<Draft>)
    requires IsPreview(c, rejected, drafts)
    ensures multiset(DraftIds(drafts)) == multiset(SourceRecords.RejectedIds(rejected)) + multiset(SourceRecords.ExternalIds(c.sources))
  {
    var refused, decided := RefuseAll(rejected), DecideAll(c, c.sources);
    assert multiset(refused + decided) == multiset(Classes(drafts));
    MappedPermuted((d: Draft) => d.ExternalId(), Classes(drafts), refused + decided);
    ClassKeepsIds(drafts);
    DraftIdsJoin(refused, decided);
    DecideKeepsIds(c, c.sources);
    assert DraftIds(refused) == SourceRecords.RejectedIds(rejected);
  }

  /** A site and a region under one external ID give a preview of one line, whatever NetBox holds. */
  lemma TwinsShareADraft(c: Context, rejected: seq<SourceRecords.Rejection>, drafts: seq<Draft>)
    requires var judge := SourceRecords.JudgeOf(SourceRecords.KINDS,
                                                IdentityResolution.World(SourceRecords.SLUGS, SourceRecords.ByExternalId(SourceRecords.TWINS)));
             SourceRecords.Loaded(judge, SourceRecords.TWINS, c.sources, rejected)
    requires IsPreview(c, rejected, drafts)
    ensures |SourceRecords.TWINS| == 2 && |drafts| == 1
  {
    var w := IdentityResolution.World(SourceRecords.SLUGS, SourceRecords.ByExternalId(SourceRecords.TWINS));
    var first, second := SourceRecords.TWINS[0], SourceRecords.TWINS[1];
    SourceRecords.TwinsRecorded();
    assert first in SourceRecords.TWINS && second in SourceRecords.TWINS && SourceRecords.TWINS == [first, second];
    SourceRecords.SharedIdLosesOne(SourceRecords.JudgeOf(SourceRecords.KINDS, w), first, second, c.sources, rejected);
    assert |drafts| == |multiset(Classes(drafts))| == |RefuseAll(rejected)| + |DecideAll(c, c.sources)|;
  }

  /**
   * Conservation: in a run that loads, with distinct external IDs, every observation becomes exactly one draft and NetBox adds
   * none of its own, so the five counts of a preview sum to the number of observations.
   */
  lemma PreviewConserves(judge: SourceRecords.Judge, observations: seq<IdentityResolution.Observation>, c: Context,
                         rejected: seq<SourceRecords.Rejection>, drafts: seq<Draft>)
    requires SourceRecords.Loaded(judge, observations, c.sources, rejected)
    requires SourceRecords.DistinctIds(observations)
    requires IsPreview(c, rejected, drafts)
    ensures multiset(DraftIds(drafts)) == multiset(SourceRecords.ObservedIds(observations))
    ensures CountAction(drafts, Create) + CountAction(drafts, Update) + CountAction(drafts, NoChange) +
            CountClashes(drafts) + CountRefused(drafts) == |observations|
  {
    SourceRecords.DistinctIdsUnshared(judge, observations);
    SourceRecords.LoadConserves(judge, observations, c.sources, rejected);
    PreviewIds(c, rejected, drafts);
    EveryDraftCounted(drafts);
    assert |multiset(DraftIds(drafts))| == |drafts|;
  }

  /**
   * A comparison from the observations to the preview. There is none if an observation that is turned away
   * cannot be shown, or if field names collide; otherwise the preview is that of the loaded run and, with
   * distinct external IDs, has exactly one line for every observation.
   */
  method PreviewRun(scope: SourceRecords.Scope, rules: IdentityResolution.Rules, observations: seq<IdentityResolution.Observation>,
                    declared: string -> set<Field>, targets: seq<Canonical>, observed: bool)
    returns (drafts: Option<seq<Draft>>, ghost c: Context, ghost rejected: seq<SourceRecords.Rejection>)
    ensures c.targets == targets && c.observed == observed
    ensures var judge := RunJudge(scope, rules, observations);
            && (drafts.Some? <==> SourceRecords.Showable(judge, observations) && Modelable(declared, Compared(c)))
            && (SourceRecords.Showable(judge, observations) ==> SourceRecords.Loaded(judge, observations, c.sources, rejected))
    ensures drafts.Some? ==> IsPreview(c, rejected, drafts.value) && SaysRun(scope, rules, observations, c.sources, rejected)
    ensures drafts.Some? && SourceRecords.DistinctIds(observations) ==>
              && multiset(DraftIds(drafts.value)) == multiset(SourceRecords.ObservedIds(observations))
              && |drafts.value| == |observations|
  {
    c, rejected := Context([], targets, observed), [];
    var loading := SourceRecords.LoadSourceRecords(scope, rules, observations);
    if loading.None? {
      return None, c, rejected;
    }
    var context := Context(loading.value.records, targets, observed);
    c, rejected := context, loading.value.rejected;
    ObservedRecords.LoadedMeaning(scope, rules, observations, c.sources, rejected);
    drafts := BuildDrafts(declared, context, loading.value.rejected);
    if drafts.Some? && SourceRecords.DistinctIds(observations) {
      PreviewConserves(RunJudge(scope, rules, observations), observations, c, rejected, drafts.value);
      EveryDraftCounted(drafts.value);
    }
  }

  /** The records and rejections of a run say what its observations do. */
  ghost predicate SaysRun(scope: SourceRecords.Scope, rules: IdentityResolution.Rules, observations: seq<IdentityResolution.Observation>,
                          records: seq<Canonical>, rejected: seq<SourceRecords.Rejection>)
  {
    ObservedRecords.RunMeans(scope, IdentityResolution.World(rules, SourceRecords.ByExternalId(observations)), observations, records, rejected)
  }

  ghost function RunJudge(scope: SourceRecords.Scope, rules: IdentityResolution.Rules, observations: seq<IdentityResolution.Observation>)
    : SourceRecords.Judge
  {
    SourceRecords.JudgeOf(scope, IdentityResolution.World(rules, SourceRecords.ByExternalId(observations)))
  }
}
