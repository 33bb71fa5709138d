/** From decisions to a final review to one application: what each operation allows, and what stays true for ever. */
module ReviewLifecycle {
  import opened Prelude
  import opened ReviewLog

  datatype Summary = Summary(creates: nat, updates: nat, noChanges: nat, conflicts: nat, skips: nat)

  /** What a comparison is made with and never changes. */
  datatype Evidence = Evidence(items: seq<Item>, summary: Summary)

  datatype Verdict = Approved | Rejected

  /** The digest of a review: distinct contents have distinct digests. */
  datatype Digest = Digest(latest: map<nat, Entry>, verdict: Verdict, reviewedBy: string, reason: string)

  datatype Review = Review(verdict: Verdict, reviewedBy: string, reason: string, digest: Digest, approved: nat, rejected: nat)

  datatype ApplyRun = ApplyRun(author: string)

  datatype State = State(log: seq<Entry>, review: Option<Review>, applied: Option<ApplyRun>)

  datatype Refusal = UnknownDecision | ReasonMissing | UnknownItem | AlreadyReviewed | AlreadyApplied | NotActionable
                   | NotApprovable(p: Progress) | NotReady

  function LatestByItem(log: seq<Entry>): map<nat, Entry> {
    map id | id in (set e | e in log :: e.item) && Latest(log, id).Some? :: Latest(log, id).value
  }

  // ---- Operations -----------------------------------------------------------------------------

  function Closed(s: State): Option<Refusal> {
    if s.review.Some? then Some(AlreadyReviewed) else if s.applied.Some? then Some(AlreadyApplied) else None
  }

  function ActionOf(items: seq<Item>, id: nat): Option<Action> {
    if items == [] then None
    else if items[|items| - 1].id == id then Some(items[|items| - 1].action)
    else ActionOf(items[..|items| - 1], id)
  }

  function RecordRefusal(e: Evidence, s: State, item: nat, decision: Option<Decision>, reason: string): Option<Refusal> {
    if decision.None? then Some(UnknownDecision)
    else if decision.value.Reject? && Strip(reason) == "" then Some(ReasonMissing)
    else if ActionOf(e.items, item).None? then Some(UnknownItem)
    else if Closed(s).Some? then Closed(s)
    else if !ActionOf(e.items, item).value.Actionable() then Some(NotActionable)
    else None
  }

  function FinalRefusal(e: Evidence, s: State, verdict: Option<Verdict>, reason: string): Option<Refusal> {
    if verdict.None? then Some(UnknownDecision)
    else if verdict.value.Rejected? && Strip(reason) == "" then Some(ReasonMissing)
    else if Closed(s).Some? then Closed(s)
    else
      var p := ProgressOf(e.items, s.log);
      if verdict.value.Approved? && (e.summary.conflicts > 0 || e.summary.skips > 0 || p.rejected > 0 || p.undecided != 0)
      then Some(NotApprovable(p)) else None
  }

  function ReviewOf(e: Evidence, log: seq<Entry>, verdict: Verdict, reviewedBy: string, reason: string): Review {
    var p := ProgressOf(e.items, log);
    Review(verdict, reviewedBy, reason, Digest(LatestByItem(log), verdict, reviewedBy, reason), p.approved, p.rejected)
  }

  /** Whether a final review still agrees with the log it was made from; the counts come from the grouped query. */
  predicate Intact(e: Evidence, log: seq<Entry>, r: Review) {
    && !(r.verdict.Rejected? && Strip(r.reason) == "")
    && r.digest == Digest(LatestByItem(log), r.verdict, r.reviewedBy, r.reason)
    && var p := QueriedProgress(e.items, log);
       && p.approved == r.approved && p.rejected == r.rejected
       && (r.verdict.Approved? ==> p.rejected == 0 && p.undecided == 0)
  }

  function CountAction(items: seq<Item>, action: Action): nat {
    if items == [] then 0
    else CountAction(items[..|items| - 1], action) + (if items[|items| - 1].action == action then 1 else 0)
  }

  predicate SummaryFits(e: Evidence) {
    && CountAction(e.items, Create) == e.summary.creates && CountAction(e.items, Update) == e.summary.updates
    && CountAction(e.items, NoChange) == e.summary.noChanges && CountAction(e.items, Conflict) == e.summary.conflicts
    && CountAction(e.items, Skipped) == e.summary.skips
  }

  /** Readiness to apply; `others` are the checks on versions, evidence and digests. */
  predicate Applicable(e: Evidence, s: State, author: string, separate: bool, others: bool) {
    && s.applied.None? && others && e.summary.conflicts == 0 && e.summary.skips == 0 && SummaryFits(e)
    && (e.summary.creates > 0 || e.summary.updates > 0 ==>
          && s.review.Some? && s.review.value.verdict.Approved? && Intact(e, s.log, s.review.value)
          && !(separate && s.review.value.reviewedBy == author))
  }

  datatype Step =
    | Records(item: nat, decision: Option<Decision>, author: string, at: Time, reason: string)
    | ApprovesAll(author: string, clock: nat -> Time)
    | Finalizes(verdict: Option<Verdict>, reviewedBy: string, reason: string)
    | Applies(author: string, separate: bool, others: bool, written: bool)

  function After(e: Evidence, s: State, step: Step): State {
    match step
    case Records(item, decision, author, at, reason) =>
      if RecordRefusal(e, s, item, decision, reason).Some? then s
      else s.(log := s.log + [Entry(|s.log|, item, decision.value, author, at, Strip(reason))])
    case ApprovesAll(author, clock) =>
      if Closed(s).Some? then s else s.(log := s.log + Approvals(e.items, s.log, author, clock))
    case Finalizes(verdict, reviewedBy, reason) =>
      if FinalRefusal(e, s, verdict, reason).Some? then s
      else s.(review := Some(ReviewOf(e, s.log, verdict.value, reviewedBy, Strip(reason))))
    case Applies(author, separate, others, written) =>
      if Applicable(e, s, author, separate, others) && written then s.(applied := Some(ApplyRun(author))) else s
  }

  // ---- Invariants -----------------------------------------------------------------------------

  datatype Clause = InOrder | OnItems | Explained | Reviewed | AppliedRightly

  ghost predicate Holds(e: Evidence, s: State, clause: Clause) {
    match clause
    case InOrder => Numbered(s.log)
    case OnItems => forall x :: x in s.log ==> x.item in ActionableIds(e.items)
    case Explained => forall x :: x in s.log && x.decision.Reject? ==> Strip(x.reason) != ""
    case Reviewed => s.review.Some? ==> Rightful(e, s.log, s.review.value)
    case AppliedRightly => s.applied.Some? ==> RightlyApplied(e, s)
  }

  /** A review made from exactly this log, by the rules of its verdict. */
  ghost predicate Rightful(e: Evidence, log: seq<Entry>, r: Review) {
    && r == ReviewOf(e, log, r.verdict, r.reviewedBy, r.reason)
    && (r.verdict.Rejected? ==> Strip(r.reason) != "")
    && (r.verdict.Approved? ==>
          && e.summary.conflicts == 0 && e.summary.skips == 0
          && ProgressOf(e.items, log).rejected == 0 && ProgressOf(e.items, log).undecided == 0)
  }

  ghost predicate RightlyApplied(e: Evidence, s: State) {
    && SummaryFits(e) && e.summary.conflicts == 0 && e.summary.skips == 0
    && (e.summary.creates > 0 || e.summary.updates > 0 ==> s.review.Some? && s.review.value.verdict.Approved?)
  }

  ghost predicate Sound(e: Evidence, s: State) {
    forall clause :: Holds(e, s, clause)
  }

  const OPEN: State := State([], None, None)

  lemma OpenSound(e: Evidence)
    ensures Sound(e, OPEN)
  {
    forall clause
      ensures Holds(e, OPEN, clause)
    {
      match clause {
        case InOrder =>
        case OnItems =>
        case Explained =>
        case Reviewed =>
        case AppliedRightly =>
      }
    }
  }

  lemma {:induction false} ActionKnown(items: seq<Item>, id: nat)
    requires DistinctItems(items)
    ensures ActionOf(items, id).None? <==> forall i :: i in items ==> i.id != id
    ensures ActionOf(items, id).Some? ==> Item(id, ActionOf(items, id).value) in items
    ensures (ActionOf(items, id).Some? && ActionOf(items, id).value.Actionable()) <==> id in ActionableIds(items)
  {
    if items != [] {
      var n := |items| - 1;
      assert items == items[..n] + [items[n]];
      ActionKnown(items[..n], id);
      assert items[n] !in items[..n];
    }
  }

  lemma RecordSound(e: Evidence, s: State, step: Step)
    requires DistinctItems(e.items) && Sound(e, s) && step.Records?
    ensures Sound(e, After(e, s, step))
  {
    ActionKnown(e.items, step.item);
    var t := After(e, s, step);
    forall clause
      ensures Holds(e, t, clause)
    {
      assert Holds(e, s, clause);
      match clause {
        case InOrder =>
        case OnItems =>
        case Explained => StripTwice(step.reason);
        case Reviewed =>
        case AppliedRightly =>
      }
    }
  }

  lemma ApproveAllSound(e: Evidence, s: State, step: Step)
    requires DistinctItems(e.items) && Sound(e, s) && step.ApprovesAll?
    ensures Sound(e, After(e, s, step))
  {
    ApprovalsShape(e.items, s.log, step.author, step.clock);
    var t := After(e, s, step);
    forall clause
      ensures Holds(e, t, clause)
    {
      assert Holds(e, s, clause);
      match clause {
        case InOrder =>
        case OnItems =>
        case Explained =>
        case Reviewed =>
        case AppliedRightly =>
      }
    }
  }

  lemma FinalizeSound(e: Evidence, s: State, step: Step)
    requires Sound(e, s) && step.Finalizes?
    ensures Sound(e, After(e, s, step))
  {
    StripTwice(step.reason);
    var t := After(e, s, step);
    forall clause
      ensures Holds(e, t, clause)
    {
      assert Holds(e, s, clause);
      match clause {
        case InOrder =>
        case OnItems =>
        case Explained =>
        case Reviewed =>
        case AppliedRightly =>
      }
    }
  }

  lemma ApplySound(e: Evidence, s: State, step: Step)
    requires Sound(e, s) && step.Applies?
    ensures Sound(e, After(e, s, step))
  {
    var t := After(e, s, step);
    forall clause
      ensures Holds(e, t, clause)
    {
      assert Holds(e, s, clause);
      match clause {
        case InOrder =>
        case OnItems =>
        case Explained =>
        case Reviewed =>
        case AppliedRightly =>
      }
    }
  }

  lemma StepSound(e: Evidence, s: State, step: Step)
    requires DistinctItems(e.items) && Sound(e, s)
    ensures Sound(e, After(e, s, step))
  {
    match step {
      case Records(_, _, _, _, _) => RecordSound(e, s, step);
      case ApprovesAll(_, _) => ApproveAllSound(e, s, step);
      case Finalizes(_, _, _) => FinalizeSound(e, s, step);
      case Applies(_, _, _, _) => ApplySound(e, s, step);
    }
  }

  // ---- Whole histories ------------------------------------------------------------------------

  /** The state after any operations at all, accepted or refused. */
  function History(e: Evidence, steps: seq<Step>): State {
    if steps == [] then OPEN else After(e, History(e, steps[..|steps| - 1]), steps[|steps| - 1])
  }

  lemma {:induction false} HistorySound(e: Evidence, steps: seq<Step>)
    requires DistinctItems(e.items)
    ensures Sound(e, History(e, steps))
  {
    if steps == [] {
      OpenSound(e);
    } else {
      HistorySound(e, steps[..|steps| - 1]);
      StepSound(e, History(e, steps[..|steps| - 1]), steps[|steps| - 1]);
    }
  }

  /** Once reviewed or applied, the log is frozen; a review and an application, once made, stay as they are. */
  predicate Settled(s: State, t: State) {
    && (s.review.Some? ==> t.review == s.review)
    && (s.applied.Some? ==> t.applied == s.applied && t.review == s.review)
    && (s.review.Some? || s.applied.Some? ==> t.log == s.log)
  }

  lemma {:induction false} FrozenForever(e: Evidence, steps: seq<Step>, more: seq<Step>)
    ensures Settled(History(e, steps), History(e, steps + more))
  {
    if more == [] {
      assert steps + more == steps;
    } else {
      var n := |more| - 1;
      assert (steps + more)[..|steps| + n] == steps + more[..n];
      FrozenForever(e, steps, more[..n]);
      var s := History(e, steps + more[..n]);
      assert History(e, steps + more) == After(e, s, more[n]);
    }
  }

  /** A final review is intact from the moment it is made, for ever after. */
  lemma ReviewAlwaysIntact(e: Evidence, steps: seq<Step>, more: seq<Step>)
    requires DistinctItems(e.items) && History(e, steps).review.Some?
    ensures History(e, steps + more).review == History(e, steps).review
    ensures Intact(e, History(e, steps + more).log, History(e, steps).review.value)
  {
    FrozenForever(e, steps, more);
    HistorySound(e, steps);
    var s := History(e, steps);
    assert Holds(e, s, Reviewed) && Holds(e, s, InOrder);
    ProgressPathsAgree(e.items, s.log);
  }

  /** An approved review approves every create and update by its latest decision, with nothing conflicting or skipped. */
  lemma ApprovedMeansAll(e: Evidence, steps: seq<Step>, item: Item)
    requires DistinctItems(e.items)
    requires History(e, steps).review.Some? && History(e, steps).review.value.verdict.Approved?
    requires item in e.items && item.action.Actionable()
    ensures var latest := Latest(History(e, steps).log, item.id); latest.Some? && latest.value.decision.Approve?
    ensures e.summary.conflicts == 0 && e.summary.skips == 0
  {
    HistorySound(e, steps);
    var s := History(e, steps);
    assert Holds(e, s, Reviewed);
    AllApproved(e.items, s.log);
    assert item.id in ActionableIds(e.items);
  }

  lemma {:induction false} NoneCounted(items: seq<Item>, action: Action, item: Item)
    requires item in items && item.action == action
    ensures CountAction(items, action) > 0
  {
    var n := |items| - 1;
    if item in items[..n] {
      NoneCounted(items[..n], action, item);
    }
  }

  /**
   * Nothing is applied unreviewed: once applied, no item conflicts or is skipped, every create and update has
   * approval as its latest decision, and that stays so.
   */
  lemma AppliedWasApproved(e: Evidence, steps: seq<Step>, more: seq<Step>, item: Item)
    requires DistinctItems(e.items) && History(e, steps).applied.Some? && item in e.items
    ensures !item.action.Conflict? && !item.action.Skipped?
    ensures item.action.Actionable() ==>
              var latest := Latest(History(e, steps + more).log, item.id); latest.Some? && latest.value.decision.Approve?
  {
    HistorySound(e, steps);
    FrozenForever(e, steps, more);
    var s := History(e, steps);
    assert Holds(e, s, AppliedRightly);
    NoneCounted(e.items, item.action, item);
    if item.action.Actionable() {
      ApprovedMeansAll(e, steps, item);
    }
  }

  /** A rejection binds creates and updates only: a comparison without any is applied in spite of it. */
  lemma RejectionBindsChangesOnly(e: Evidence, log: seq<Entry>, r: Review, author: string, separate: bool)
    requires SummaryFits(e) && e.summary.conflicts == 0 && e.summary.skips == 0 && r.verdict.Rejected?
    ensures Applicable(e, State(log, Some(r), None), author, separate, true) <==> e.summary.creates == 0 && e.summary.updates == 0
  {
  }

  // ---- The comparison as it is stored ---------------------------------------------------------

  class Comparison {
    const evidence: Evidence
    var log: seq<Entry>
    var review: Option<Review>
    var applied: Option<ApplyRun>

    function Now(): State
      reads this
    {
      State(log, review, applied)
    }

    constructor (made: Evidence)
      ensures evidence == made && Now() == OPEN
    {
      evidence, log, review, applied := made, [], None, None;
    }

    method EnsureOpen() returns (refusal: Option<Refusal>)
      ensures refusal == Closed(Now())
    {
      if review.Some? {
        return Some(AlreadyReviewed);
      }
      if applied.Some? {
        return Some(AlreadyApplied);
      }
      return None;
    }

    method RecordReviewDecision(item: nat, decision: Option<Decision>, author: string, at: Time, reason: string)
      returns (result: Result<Entry, Refusal>)
      modifies this`log
      ensures Now() == After(evidence, old(Now()), Records(item, decision, author, at, reason))
      ensures result.Err? <==> RecordRefusal(evidence, old(Now()), item, decision, reason).Some?
      ensures result.Err? ==> Some(result.error) == RecordRefusal(evidence, old(Now()), item, decision, reason)
      ensures result.Ok? ==> log == old(log) + [result.value]
      ensures result.Ok? ==> decision.Some? && result.value == Entry(|old(log)|, item, decision.value, author, at, Strip(reason))
    {
      var normalized := Strip(reason);
      if decision.None? {
        return Err(UnknownDecision);
      }
      if decision.value == Reject && normalized == "" {
        return Err(ReasonMissing);
      }
      var action := ActionOf(evidence.items, item);
      if action.None? {
        return Err(UnknownItem);
      }
      var closed := EnsureOpen();
      if closed.Some? {
        return Err(closed.value);
      }
      if !action.value.Actionable() {
        return Err(NotActionable);
      }
      var entry := Entry(|log|, item, decision.value, author, at, normalized);
      log := log + [entry];
      return Ok(entry);
    }

    method ApproveAllReviewItems(author: string, clock: nat -> Time) returns (result: Result<Progress, Refusal>)
      modifies this`log
      ensures Now() == After(evidence, old(Now()), ApprovesAll(author, clock))
      ensures result.Err? <==> Closed(old(Now())).Some?
      ensures result.Ok? ==> result.value == QueriedProgress(evidence.items, log)
    {
      var closed := EnsureOpen();
      if closed.Some? {
        return Err(closed.value);
      }
      var created: seq<Entry> := [];
      for i := 0 to |evidence.items|
        invariant created == Approvals(evidence.items[..i], log, author, clock)
      {
        var item := evidence.items[i];
        assert evidence.items[..i + 1][..i] == evidence.items[..i];
        var latest := Latest(log, item.id);
        if item.action.Actionable() && (latest.None? || latest.value.decision != Approve) {
          created := created + [Entry(|log| + |created|, item.id, Approve, author, clock(|created|), "")];
        }
      }
      assert evidence.items[..|evidence.items|] == evidence.items;
      log := log + created;
      return Ok(QueriedProgress(evidence.items, log));
    }

    method FinalizeReview(verdict: Option<Verdict>, reviewedBy: string, reason: string) returns (result: Result<Review, Refusal>)
      modifies this`review
      ensures Now() == After(evidence, old(Now()), Finalizes(verdict, reviewedBy, reason))
      ensures result.Err? <==> FinalRefusal(evidence, old(Now()), verdict, reason).Some?
      ensures result.Err? ==> Some(result.error) == FinalRefusal(evidence, old(Now()), verdict, reason)
      ensures result.Ok? ==> review == Some(result.value)
    {
      var normalized := Strip(reason);
      if verdict.None? {
        return Err(UnknownDecision);
      }
      if verdict.value == Rejected && normalized == "" {
        return Err(ReasonMissing);
      }
      var closed := EnsureOpen();
      if closed.Some? {
        return Err(closed.value);
      }
      var progress := ProgressOf(evidence.items, log);
      if verdict.value == Approved {
        var blocked := false;
        if evidence.summary.conflicts > 0 {
          blocked := true;
        }
        if evidence.summary.skips > 0 {
          blocked := true;
        }
        if progress.rejected > 0 {
          blocked := true;
        }
        if progress.undecided != 0 {
          blocked := true;
        }
        if blocked {
          return Err(NotApprovable(progress));
        }
      }
      var digest := Digest(LatestByItem(log), verdict.value, reviewedBy, normalized);
      var made := Review(verdict.value, reviewedBy, normalized, digest, progress.approved, progress.rejected);
      review := Some(made);
      return Ok(made);
    }

    /** Applies the comparison once; `written` says whether the plan went through, and if not nothing is recorded. */
    method ApplyComparison(author: string, separate: bool, others: bool, written: bool)
      returns (result: Result<ApplyRun, Refusal>, created: bool)
      modifies this`applied
      ensures Now() == After(evidence, old(Now()), Applies(author, separate, others, written))
      ensures old(applied).Some? ==> result == Ok(old(applied).value) && !created
      ensures created <==> Applicable(evidence, old(Now()), author, separate, others) && written
      ensures if result.Ok? then applied == Some(result.value) else applied.None?
      ensures result.Ok? <==> old(applied).Some? || created
    {
      if applied.Some? {
        return Ok(applied.value), false;
      }
      if !Applicable(evidence, Now(), author, separate, others) || !written {
        return Err(NotReady), false;
      }
      var run := ApplyRun(author);
      applied := Some(run);
      return Ok(run), true;
    }
  }
}
