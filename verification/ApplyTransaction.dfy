/** One apply from the review to the saved rows: the lifecycle of a comparison and the transaction that writes its plan. */
module ApplyTransaction {
  import opened Prelude
  import opened KeyOrder
  import opened ApplicationPlanning
  import opened RecordWrites
  import opened NetBoxSnapshot
  import opened ApplicationService
  import opened ApplyEffects
  import opened ComparisonItems
  import CanonicalDiff
  import ComparisonDrafts
  import SourceRecords
  import ReviewLog
  import ReviewLifecycle

  function ReviewedAction(action: Action): ReviewLog.Action {
    match action
    case Create => ReviewLog.Create
    case Update => ReviewLog.Update
    case NoChange => ReviewLog.NoChange
    case Conflict => ReviewLog.Conflict
    case Skipped => ReviewLog.Skipped
  }

  /** An item as its review sees it. */
  function Listing(): Item -> ReviewLog.Item {
    (item: Item) => ReviewLog.Item(item.pk, ReviewedAction(item.action))
  }

  /** The comparison that is reviewed is the one whose items are applied. */
  predicate Lists(e: ReviewLifecycle.Evidence, items: seq<Item>) {
    e.items == Mapped(Listing(), items)
  }

  /** Past readiness, a comparison stored from its preview fails on its values only. */
  lemma StoredGoes(c: ComparisonDrafts.Context, rejected: seq<SourceRecords.Rejection>, drafts: seq<ComparisonDrafts.Draft>,
                   schema: Schema, items: seq<Item>, snapshot: seq<Target>, found: seq<Target>)
    requires Stored(c, rejected, drafts, items, snapshot)
    ensures ApplicationService.Ready(schema, items, snapshot, found) ==> (Goes(schema, items, ByIdentity(found)) <==> ValuesFit(schema, items))
  {
    if ApplicationService.Ready(schema, items, snapshot, found) {
      StoredIsGuarded(c, rejected, drafts, schema, items, snapshot, found);
    }
  }

  /**
   * Applies a comparison made from a preview. An apply run exists exactly when one was recorded before, or
   * the review allows it, the plan is ready, DiffSync can compare it and every value fits; and a run is only
   * recorded together with exactly what the review says of every item, in an order in which what a record
   * names comes first.
   */
  method ApplyComparison(comparison: ReviewLifecycle.Comparison, author: string, separate: bool, others: bool,
                         schema: Schema, declared: string -> set<CanonicalDiff.Field>, items: seq<Item>,
                         snapshot: seq<Target>, found: seq<Target>, hooks: seq<Key>,
                         ghost c: ComparisonDrafts.Context, ghost rejected: seq<SourceRecords.Rejection>,
                         ghost drafts: seq<ComparisonDrafts.Draft>)
    returns (result: Result<ReviewLifecycle.ApplyRun, ReviewLifecycle.Refusal>, saved: Option<Applied>)
    requires Lists(comparison.evidence, items) && Stored(c, rejected, drafts, items, snapshot)
    requires Sane(schema, items, ByIdentity(found)) && HookOrder(hooks, items, ByIdentity(found))
    modifies comparison`applied
    ensures comparison.Now() == ReviewLifecycle.After(comparison.evidence, old(comparison.Now()),
                                                      ReviewLifecycle.Applies(author, separate, others, saved.Some?))
    ensures result.Ok? <==> comparison.applied.Some?
    ensures result.Ok? <==> old(comparison.applied).Some? || saved.Some?
    ensures saved.Some? ==> Conforms(PlanFor(schema, items, ByIdentity(found)), items, saved.value)
    ensures saved.Some? && Proper(items) ==> Saved(schema, items, found, saved.value)
    ensures saved.Some? <==>
            && ReviewLifecycle.Applicable(comparison.evidence, old(comparison.Now()), author, separate, others)
            && ApplicationService.Ready(schema, items, snapshot, found)
            && Comparable(declared, items, found)
            && ValuesFit(schema, items)
  {
    StoredGoes(c, rejected, drafts, schema, items, snapshot, found);
    saved := None;
    if ReviewLifecycle.Applicable(comparison.evidence, comparison.Now(), author, separate, others) {
      var applied := ApplyItems(schema, declared, items, snapshot, found, hooks);
      if applied.Ok? {
        saved := Some(applied.value);
        if Proper(items) {
          SavedAsReviewed(schema, items, found, applied.value);
        }
      }
    }
    ghost var created: bool;
    result, created := comparison.ApplyComparison(author, separate, others, saved.Some?);
  }

  lemma RowWasReviewed(schema: Schema, items: seq<Item>, target: map<Key, Target>, applied: Applied, k: Key)
    requires Conforms(PlanFor(schema, items, target), items, applied) && k in applied.rows
    ensures k in Reviewed(items)
  {
  }

  /** Whatever was written had been approved: no key is in the rows of an applied comparison without it. */
  lemma WrittenWasApproved(e: ReviewLifecycle.Evidence, steps: seq<ReviewLifecycle.Step>, more: seq<ReviewLifecycle.Step>,
                           schema: Schema, items: seq<Item>, target: map<Key, Target>, applied: Applied, k: Key)
    requires ReviewLog.DistinctItems(e.items) && Lists(e, items)
    requires ReviewLifecycle.History(e, steps).applied.Some?
    requires Conforms(PlanFor(schema, items, target), items, applied) && k in applied.rows
    ensures k in Reviewed(items)
    ensures var latest := ReviewLog.Latest(ReviewLifecycle.History(e, steps + more).log, Reviewed(items)[k].pk);
            latest.Some? && latest.value.decision.Approve?
  {
    RowWasReviewed(schema, items, target, applied, k);
    var item := Reviewed(items)[k];
    var i :| 0 <= i < |items| && items[i] == item;
    assert e.items[i] == ReviewLog.Item(item.pk, ReviewedAction(item.action)) && e.items[i] in e.items;
    ReviewLifecycle.AppliedWasApproved(e, steps, more, e.items[i]);
  }
}
