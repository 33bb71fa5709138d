/**
 * What the lines of a preview say, told from the records of both sides: which line a source record gets, what an
 * update compares and lists, and in which order the lines stand.
 */
module PreviewMeaning {
  import opened Prelude
  import opened KeyOrder
  import opened CanonicalDiff
  import opened ComparisonDrafts
  import SourceRecords

  predicate SameIdentity(a: Canonical, b: Canonical) {
    a.kind == b.kind && a.identity == b.identity
  }

  /** Two of the records have this one's natural identity. */
  ghost predicate Repeated(records: seq<Canonical>, r: Canonical) {
    exists i, j :: 0 <= i < j < |records| && SameIdentity(records[i], r) && SameIdentity(records[j], r)
  }

  ghost predicate Missing(records: seq<Canonical>, r: Canonical) {
    forall t :: t in records ==> !SameIdentity(t, r)
  }

  /** The record a source record is to become: itself, or what it observed on top of what NetBox has. */
  ghost predicate Becomes(observed: bool, r: Canonical, t: Canonical, desired: Canonical) {
    && desired.kind == r.kind && desired.identity == r.identity && desired.displayName == r.displayName
    && desired.externalId == r.externalId && desired.objectType == r.objectType && desired.objectId == r.objectId
    && (forall f :: f in desired.fields <==> f in r.fields || (observed && f in t.fields))
    && (forall f :: f in desired.fields ==> desired.fields[f] == if f in r.fields then r.fields[f] else t.fields[f])
  }

  /** One side of a change: the payload's value of the field, if it has one. */
  predicate SideIs(cell: Cell, payload: Payload, f: Field) {
    cell.present == (f in payload) && (f in payload ==> cell.value == payload[f])
  }

  predicate Disagree(source: Payload, target: Payload, f: Field) {
    (f in source) != (f in target) || (f in source && f in target && source[f] != target[f])
  }

  predicate StandsBefore(f: Field, g: Field) {
    (f.category.Attributes? && g.category.Relationships?) || (f.category == g.category && LexLess(FieldName(f), FieldName(g)))
  }

  /** The changes are those of exactly the fields the two sides disagree on, attributes first, by model attribute. */
  ghost predicate ChangesSay(changes: seq<Change>, source: Payload, target: Payload) {
    && (forall c :: c in changes ==>
          Disagree(source, target, c.field) && SideIs(c.source, source, c.field) && SideIs(c.target, target, c.field))
    && (forall f :: Disagree(source, target, f) ==> exists c :: c in changes && c.field == f)
    && (forall i, j :: 0 <= i < j < |changes| ==> StandsBefore(changes[i].field, changes[j].field))
  }

  ghost predicate Compares(observed: bool, r: Canonical, t: Canonical, d: Draft) {
    && d.Judged? && d.target == Some(t) && Becomes(observed, r, t, d.record)
    && (d.action == if d.record.fields == t.fields then NoChange else Update)
    && (if d.action == NoChange then d.changes == [] else ChangesSay(d.changes, d.record.fields, t.fields))
  }

  /** The line a source record gets. */
  ghost predicate LineOf(c: Context, r: Canonical, d: Draft) {
    if Repeated(c.sources, r) then d == Clash(r, DuplicateSource)
    else if Repeated(c.targets, r) then d == Clash(r, AmbiguousTarget)
    else if Missing(c.targets, r) then
      d.Judged? && d.action == Create && d.record == r && d.target == None && ChangesSay(d.changes, r.fields, map[])
    else exists t :: t in c.targets && SameIdentity(t, r) && Compares(c.observed, r, t, d)
  }

  function LineKind(d: Draft): string {
    match d
    case Refused(rejection) => rejection.kind
    case Clash(r, _) => r.kind
    case Judged(_, r, _, _) => r.kind
  }

  /** A line that is turned away stands under its external ID, any other under its natural identity. */
  function LineIdentity(d: Draft): string {
    match d
    case Refused(rejection) => rejection.externalId
    case Clash(r, _) => r.identity
    case Judged(_, r, _, _) => r.identity
  }

  function LineId(d: Draft): string {
    match d
    case Refused(rejection) => rejection.externalId
    case Clash(r, _) => r.externalId
    case Judged(_, r, _, _) => r.externalId
  }

  /** By kind, then by identity, then by external ID. */
  predicate Follows(a: Draft, b: Draft) {
    || LexLess(LineKind(a), LineKind(b))
    || (LineKind(a) == LineKind(b) && LexLess(LineIdentity(a), LineIdentity(b)))
    || (LineKind(a) == LineKind(b) && LineIdentity(a) == LineIdentity(b) && !LexLess(LineId(b), LineId(a)))
  }

  /** One line for each rejection and each source record, and no other, in order. */
  ghost predicate PreviewSays(c: Context, rejected: seq<SourceRecords.Rejection>, drafts: seq<Draft>) {
    && |drafts| == |rejected| + |c.sources|
    && (forall rejection :: rejection in rejected ==> Refused(rejection) in drafts)
    && (forall r :: r in c.sources ==> exists d :: d in drafts && LineOf(c, r, d))
    && (forall d :: d in drafts ==> (d.Refused? && d.rejection in rejected) || exists r :: r in c.sources && LineOf(c, r, d))
    && (forall i, j :: 0 <= i < j < |drafts| ==> Follows(drafts[i], drafts[j]))
  }

  // ---- From counting occurrences --------------------------------------------------------------

  lemma {:induction false} OccurrencesSay(records: seq<Canonical>, r: Canonical)
    ensures Occurrences(records, r.Uid()) == [] <==> Missing(records, r)
    ensures |Occurrences(records, r.Uid())| > 1 <==> Repeated(records, r)
    ensures forall t :: t in Occurrences(records, r.Uid()) <==> t in records && SameIdentity(t, r)
  {
    if records != [] {
      var n := |records| - 1;
      var init, last := records[..n], records[n];
      assert records == init + [last];
      OccurrencesSay(init, r);
      RepeatedStep(init, last, r);
      assert last.Uid() == r.Uid() <==> SameIdentity(last, r);
    }
  }

  lemma RepeatedStep(init: seq<Canonical>, last: Canonical, r: Canonical)
    ensures Repeated(init + [last], r) <==> Repeated(init, r) || (SameIdentity(last, r) && !Missing(init, r))
  {
    var all := init + [last];
    if Repeated(init, r) {
      var i, j :| 0 <= i < j < |init| && SameIdentity(init[i], r) && SameIdentity(init[j], r);
      assert all[i] == init[i] && all[j] == init[j];
    }
    if SameIdentity(last, r) && !Missing(init, r) {
      var t :| t in init && SameIdentity(t, r);
      var i :| 0 <= i < |init| && init[i] == t;
      assert all[i] == t && all[|init|] == last;
    }
    if Repeated(all, r) {
      var i, j :| 0 <= i < j < |all| && SameIdentity(all[i], r) && SameIdentity(all[j], r);
      assert all[i] == init[i] && init[i] in init;
      assert j < |init| ==> init[j] == all[j];
    }
  }

  lemma DeltaSays(changes: seq<Change>, source: Payload, target: Payload)
    requires IsDelta(changes, source, target)
    ensures ChangesSay(changes, source, target)
  {
    forall f | Disagree(source, target, f)
      ensures exists c :: c in changes && c.field == f
    {
      assert Differs(f, source, target);
      assert ChangeOf(f, source, target) in changes && ChangeOf(f, source, target).field == f;
    }
    forall i, j | 0 <= i < j < |changes|
      ensures StandsBefore(changes[i].field, changes[j].field)
    {
      assert Less(SortKeysOf(changes)[i], SortKeysOf(changes)[j]);
      SortKeySays(changes[i].field, changes[j].field);
    }
  }

  lemma SortKeySays(f: Field, g: Field)
    requires Less(SortKey(f), SortKey(g))
    ensures StandsBefore(f, g)
  {
    LexTotal(SortKey(f).kind, SortKey(g).kind);
    assert LexLess("0", "1") && !LexLess("1", "0");
  }

  lemma DecidedSays(c: Context, r: Canonical, d: Draft)
    requires r in c.sources && d.Class() == Decide(c, r) && ChangesRight(d)
    ensures LineOf(c, r, d)
  {
    OccurrencesSay(c.sources, r);
    OccurrencesSay(c.targets, r);
    var theirs := Occurrences(c.targets, r.Uid());
    if d.Judged? {
      if d.action != NoChange {
        DeltaSays(d.changes, d.record.fields, TargetFields(d.target));
      }
      if theirs != [] {
        assert theirs[0] in theirs;
        assert Compares(c.observed, r, theirs[0], d);
      }
    }
  }

  lemma ClassIn(drafts: seq<Draft>, d: Draft)
    ensures d in Classes(drafts) <==> exists own :: own in drafts && own.Class() == d
  {
    if d in Classes(drafts) {
      var i :| 0 <= i < |drafts| && Classes(drafts)[i] == d;
      assert drafts[i] in drafts;
    }
    if own :| own in drafts && own.Class() == d {
      var i :| 0 <= i < |drafts| && drafts[i] == own;
      assert Classes(drafts)[i] == d;
    }
  }

  lemma InEither<T>(all: seq<T>, a: seq<T>, b: seq<T>, x: T)
    requires multiset(all) == multiset(a) + multiset(b)
    ensures x in all <==> x in a || x in b
  {
    assert x in all <==> x in multiset(all);
    assert x in a <==> x in multiset(a);
    assert x in b <==> x in multiset(b);
  }

  lemma RefusalIn(rejected: seq<SourceRecords.Rejection>, d: Draft)
    ensures d in RefuseAll(rejected) <==> d.Refused? && d.rejection in rejected
  {
    var refused := RefuseAll(rejected);
    if d in refused {
      var i :| 0 <= i < |refused| && refused[i] == d;
      assert refused[i] == Refused(rejected[i]);
    }
    if d.Refused? && d.rejection in rejected {
      var i :| 0 <= i < |rejected| && rejected[i] == d.rejection;
      assert refused[i] == d;
    }
  }

  lemma DecisionIn(c: Context, records: seq<Canonical>, d: Draft)
    ensures d in DecideAll(c, records) <==> exists r :: r in records && Decide(c, r) == d
  {
    var decided := DecideAll(c, records);
    if d in decided {
      var i :| 0 <= i < |decided| && decided[i] == d;
      assert records[i] in records && Decide(c, records[i]) == d;
    }
    if r :| r in records && Decide(c, r) == d {
      var i :| 0 <= i < |records| && records[i] == r;
      assert decided[i] == d;
    }
  }

  /** The classes of a preview's lines are the refusals and the decisions. */
  lemma ClassesOfPreview(c: Context, rejected: seq<SourceRecords.Rejection>, drafts: seq<Draft>, d: Draft)
    requires IsPreview(c, rejected, drafts)
    ensures d in Classes(drafts) <==>
              (d.Refused? && d.rejection in rejected) || exists r :: r in c.sources && Decide(c, r) == d
  {
    InEither(Classes(drafts), RefuseAll(rejected), DecideAll(c, c.sources), d);
    RefusalIn(rejected, d);
    DecisionIn(c, c.sources, d);
  }

  lemma LinesCounted(c: Context, rejected: seq<SourceRecords.Rejection>, drafts: seq<Draft>)
    requires IsPreview(c, rejected, drafts)
    ensures |drafts| == |rejected| + |c.sources|
  {
    assert |drafts| == |Classes(drafts)| == |multiset(Classes(drafts))|;
    assert |multiset(RefuseAll(rejected))| == |rejected| && |multiset(DecideAll(c, c.sources))| == |c.sources|;
  }

  lemma RefusalListed(c: Context, rejected: seq<SourceRecords.Rejection>, drafts: seq<Draft>, rejection: SourceRecords.Rejection)
    requires IsPreview(c, rejected, drafts) && rejection in rejected
    ensures Refused(rejection) in drafts
  {
    ClassesOfPreview(c, rejected, drafts, Refused(rejection));
    ClassIn(drafts, Refused(rejection));
  }

  lemma RecordListed(c: Context, rejected: seq<SourceRecords.Rejection>, drafts: seq<Draft>, r: Canonical)
    requires IsPreview(c, rejected, drafts) && r in c.sources
    ensures exists d :: d in drafts && LineOf(c, r, d)
  {
    ClassesOfPreview(c, rejected, drafts, Decide(c, r));
    ClassIn(drafts, Decide(c, r));
    var d :| d in drafts && d.Class() == Decide(c, r);
    DecidedSays(c, r, d);
  }

  lemma LineListed(c: Context, rejected: seq<SourceRecords.Rejection>, drafts: seq<Draft>, d: Draft)
    requires IsPreview(c, rejected, drafts) && d in drafts
    ensures (d.Refused? && d.rejection in rejected) || exists r :: r in c.sources && LineOf(c, r, d)
  {
    ClassIn(drafts, d.Class());
    ClassesOfPreview(c, rejected, drafts, d.Class());
    if !(d.Refused? && d.rejection in rejected) {
      var r :| r in c.sources && Decide(c, r) == d.Class();
      DecidedSays(c, r, d);
    }
  }

  lemma OrderFollows(a: Draft, b: Draft)
    requires !Before(b, a)
    ensures Follows(a, b)
  {
    KeyTotal(a.SortUid(), b.SortUid());
  }

  /** A preview says of every source record what its identity and payload call for, once and in order. */
  lemma PreviewMeans(c: Context, rejected: seq<SourceRecords.Rejection>, drafts: seq<Draft>)
    requires IsPreview(c, rejected, drafts)
    ensures PreviewSays(c, rejected, drafts)
  {
    LinesCounted(c, rejected, drafts);
    forall rejection | rejection in rejected
      ensures Refused(rejection) in drafts
    {
      RefusalListed(c, rejected, drafts, rejection);
    }
    forall r | r in c.sources
      ensures exists d :: d in drafts && LineOf(c, r, d)
    {
      RecordListed(c, rejected, drafts, r);
    }
    forall d | d in drafts
      ensures (d.Refused? && d.rejection in rejected) || exists r :: r in c.sources && LineOf(c, r, d)
    {
      LineListed(c, rejected, drafts, d);
    }
    forall i, j | 0 <= i < j < |drafts|
      ensures Follows(drafts[i], drafts[j])
    {
      OrderFollows(drafts[i], drafts[j]);
    }
  }
}
