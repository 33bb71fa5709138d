/**
 * What reviewing and applying a comparison come to, told from its items and from what reviewers said, in whatever
 * order: what a decision records, what a rejection stops, and what an approval and an application need.
 */
module ReviewOutcomes {
  import opened Prelude
  import opened ReviewLog
  import opened ReviewLifecycle

  // ---- Reasons ----------------------------------------------------------------------------------

  predicate Blank(c: char) {
    c == ' ' || (9 as char) <= c <= (13 as char) || (28 as char) <= c <= (31 as char)
  }

  /** The text without the blanks around it. */
  ghost predicate Trims(text: string, bare: string) {
    exists i, j :: TrimsTo(text, i, j, bare)
  }

  ghost predicate TrimsTo(text: string, i: int, j: int, bare: string) {
    && 0 <= i <= j <= |text| && bare == text[i..j]
    && (forall k :: 0 <= k < i || j <= k < |text| ==> Blank(text[k]))
    && (bare != "" ==> !Blank(bare[0]) && !Blank(bare[|bare| - 1]))
  }

  /** Some character of the text is no blank. */
  predicate Says(text: string) {
    exists k :: 0 <= k < |text| && !Blank(text[k])
  }

  lemma {:induction false} StripStartTrims(s: string) returns (i: nat)
    ensures i <= |s| && StripStart(s) == s[i..]
    ensures forall k :: 0 <= k < i ==> Blank(s[k])
    ensures StripStart(s) == "" || !Blank(StripStart(s)[0])
  {
    if s != "" && Space(s[0]) {
      var rest := StripStartTrims(s[1..]);
      i := rest + 1;
      assert forall k :: 0 < k < i ==> s[k] == s[1..][k - 1];
    } else {
      i := 0;
    }
  }

  lemma {:induction false} StripEndTrims(s: string) returns (j: nat)
    ensures j <= |s| && StripEnd(s) == s[..j]
    ensures forall k :: j <= k < |s| ==> Blank(s[k])
    ensures StripEnd(s) == "" || !Blank(StripEnd(s)[|StripEnd(s)| - 1])
  {
    if s != "" && Space(s[|s| - 1]) {
      var n := |s| - 1;
      j := StripEndTrims(s[..n]);
      assert s[..n][..j] == s[..j];
      assert forall k :: j <= k < n ==> s[k] == s[..n][k];
    } else {
      j := |s|;
      assert s[..j] == s;
    }
  }

  /** Stripping takes exactly the blanks at both ends, so it leaves nothing exactly if there is nothing else. */
  lemma StripTrims(s: string)
    ensures Trims(s, Strip(s))
    ensures Strip(s) != "" <==> Says(s)
  {
    var i := StripStartTrims(s);
    var mid := s[i..];
    var j := StripEndTrims(mid);
    assert forall k :: j <= k < |mid| ==> mid[k] == s[i + k];
    assert Strip(s) == s[i..i + j];
    forall k | i + j <= k < |s|
      ensures Blank(s[k])
    {
      assert s[k] == mid[k - i];
    }
    assert TrimsTo(s, i, i + j, Strip(s));
    if Strip(s) != "" {
      assert !Blank(s[i]);
    }
  }

  // ---- Decisions --------------------------------------------------------------------------------

  /** The item is a proposed create or update of the comparison. */
  predicate Proposed(e: Evidence, id: nat) {
    exists i :: i in e.items && i.id == id && (i.action.Create? || i.action.Update?)
  }

  predicate Open(s: State) {
    s.review.None? && s.applied.None?
  }

  /** A decision is taken: a known one, a rejection with its reason, on a proposed change of an open comparison. */
  predicate Takes(e: Evidence, s: State, item: nat, decision: Option<Decision>, reason: string) {
    decision.Some? && (decision.value.Reject? ==> Says(reason)) && Open(s) && Proposed(e, item)
  }

  /** The entry says what the reviewer said. */
  ghost predicate Quotes(x: Entry, item: nat, decision: Decision, author: string, at: Time, reason: string) {
    x.item == item && x.decision == decision && x.author == author && x.at == at && Trims(reason, x.reason)
  }

  /** A decision is recorded exactly if it is taken, as one more entry that quotes it. */
  lemma DecisionRecorded(e: Evidence, s: State, item: nat, decision: Option<Decision>, author: string, at: Time, reason: string)
    requires DistinctItems(e.items)
    ensures var t := After(e, s, Records(item, decision, author, at, reason));
            && t.review == s.review && t.applied == s.applied
            && if Takes(e, s, item, decision, reason) then
                 && |t.log| == |s.log| + 1 && t.log[..|s.log|] == s.log && t.log[|s.log|].id == |s.log|
                 && Quotes(t.log[|s.log|], item, decision.value, author, at, reason)
               else t == s
  {
    ActionKnown(e.items, item);
    StripTrims(reason);
    if ActionOf(e.items, item).Some? {
      var own := Item(item, ActionOf(e.items, item).value);
      assert own in e.items && own.id == item;
      OneAction(e.items, own);
    }
  }

  lemma OneAction(items: seq<Item>, own: Item)
    requires DistinctItems(items) && own in items
    ensures forall i :: i in items && i.id == own.id ==> i == own
  {
  }

  // ---- The latest decision ----------------------------------------------------------------------

  /** No entry of the item was made after this one, nor at the same time with a greater ID. */
  predicate Stands(log: seq<Entry>, x: Entry) {
    x in log && forall y :: y in log && y.item == x.item ==> y.at < x.at || (y.at == x.at && y.id <= x.id)
  }

  lemma StandingIsLatest(log: seq<Entry>, x: Entry)
    requires Numbered(log)
    ensures Stands(log, x) <==> Latest(log, x.item) == Some(x)
  {
    LatestIsGreatest(log, x.item);
    if Stands(log, x) {
      var latest := Latest(log, x.item).value;
      assert latest.at == x.at && latest.id == x.id;
      var i :| 0 <= i < |log| && log[i] == x;
      var j :| 0 <= j < |log| && log[j] == latest;
    }
  }

  /** The latest decision on an item is the one that stands. */
  lemma LatestStands(log: seq<Entry>, item: nat)
    requires Numbered(log)
    ensures Latest(log, item).Some? ==> Latest(log, item).value.item == item && Stands(log, Latest(log, item).value)
    ensures Latest(log, item).None? ==> forall x :: x in log ==> x.item != item
  {
    LatestIsGreatest(log, item);
    if Latest(log, item).Some? {
      StandingIsLatest(log, Latest(log, item).value);
    }
  }

  /** A decision that is taken at a time not before any other on its item stands. */
  lemma DecisionStands(e: Evidence, steps: seq<Step>, item: nat, decision: Option<Decision>, author: string, at: Time, reason: string)
    requires DistinctItems(e.items) && Takes(e, History(e, steps), item, decision, reason)
    requires forall x :: x in History(e, steps).log && x.item == item ==> x.at <= at
    ensures var log := History(e, steps + [Records(item, decision, author, at, reason)]).log;
            exists x :: Stands(log, x) && Quotes(x, item, decision.value, author, at, reason)
  {
    var s, step := History(e, steps), Records(item, decision, author, at, reason);
    assert (steps + [step])[..|steps|] == steps;
    HistorySound(e, steps);
    assert Holds(e, s, Clause.InOrder);
    DecisionRecorded(e, s, item, decision, author, at, reason);
    var t := After(e, s, step);
    var x := t.log[|s.log|];
    assert t.log == s.log + [x];
    forall y | y in t.log && y.item == x.item
      ensures y.at < x.at || (y.at == x.at && y.id <= x.id)
    {
      if y in s.log {
        var i :| 0 <= i < |s.log| && s.log[i] == y;
      }
    }
    assert Stands(t.log, x);
  }

  // ---- Approving --------------------------------------------------------------------------------

  /** The decision that stands on the item approves it. */
  predicate ApprovedItem(log: seq<Entry>, id: nat) {
    exists x :: x in log && x.item == id && x.decision.Approve? && Stands(log, x)
  }

  predicate RejectedItem(log: seq<Entry>, id: nat) {
    exists x :: x in log && x.item == id && x.decision.Reject? && Stands(log, x)
  }

  lemma ItemDecided(log: seq<Entry>, id: nat)
    requires Numbered(log)
    ensures ApprovedItem(log, id) <==> Latest(log, id).Some? && Latest(log, id).value.decision.Approve?
    ensures RejectedItem(log, id) <==> Latest(log, id).Some? && Latest(log, id).value.decision.Reject?
  {
    LatestStands(log, id);
    if x :| x in log && x.item == id && Stands(log, x) {
      StandingIsLatest(log, x);
    }
    if Latest(log, id).Some? {
      var x := Latest(log, id).value;
      assert x in log && x.item == id && Stands(log, x);
    }
  }

  /** Nothing conflicts or was skipped, and the decision that stands on every proposed change approves it. */
  ghost predicate AllSettled(e: Evidence, log: seq<Entry>) {
    e.summary.conflicts == 0 && e.summary.skips == 0 && forall id :: Proposed(e, id) ==> ApprovedItem(log, id)
  }

  lemma ProposedExactly(e: Evidence, id: nat)
    ensures Proposed(e, id) <==> id in ActionableIds(e.items)
  {
  }

  lemma SettledExactly(e: Evidence, log: seq<Entry>)
    requires Numbered(log)
    ensures var p := ProgressOf(e.items, log);
            AllSettled(e, log) <==> e.summary.conflicts == 0 && e.summary.skips == 0 && p.rejected == 0 && p.undecided == 0
  {
    AllApproved(e.items, log);
    forall id
      ensures Proposed(e, id) <==> id in ActionableIds(e.items)
      ensures ApprovedItem(log, id) <==> Latest(log, id).Some? && Latest(log, id).value.decision.Approve?
    {
      ProposedExactly(e, id);
      ItemDecided(log, id);
    }
  }

  /** The proposed changes whose standing decision approves them, or rejects them. */
  ghost function ApprovedIds(e: Evidence, log: seq<Entry>): set<nat> {
    set i | i in e.items && (i.action.Create? || i.action.Update?) && ApprovedItem(log, i.id) :: i.id
  }

  ghost function RejectedIds(e: Evidence, log: seq<Entry>): set<nat> {
    set i | i in e.items && (i.action.Create? || i.action.Update?) && RejectedItem(log, i.id) :: i.id
  }

  ghost function ProposedIds(e: Evidence): set<nat> {
    set i | i in e.items && (i.action.Create? || i.action.Update?) :: i.id
  }

  /** The progress counts the proposed changes, and those approved, rejected and neither. */
  lemma ProgressCounts(e: Evidence, log: seq<Entry>)
    requires Numbered(log)
    ensures ProgressOf(e.items, log).approved == |ApprovedIds(e, log)| && ProgressOf(e.items, log).rejected == |RejectedIds(e, log)|
    ensures ProgressOf(e.items, log).actionable == |ProposedIds(e)|
    ensures ProgressOf(e.items, log).undecided == |ProposedIds(e)| - |ApprovedIds(e, log)| - |RejectedIds(e, log)|
  {
    assert ProposedIds(e) == ActionableIds(e.items);
    forall id
      ensures id in Decided(log, ActionableIds(e.items), Approve) <==> id in ApprovedIds(e, log)
      ensures id in Decided(log, ActionableIds(e.items), Reject) <==> id in RejectedIds(e, log)
    {
      ItemDecided(log, id);
    }
    assert Decided(log, ActionableIds(e.items), Approve) == ApprovedIds(e, log);
    assert Decided(log, ActionableIds(e.items), Reject) == RejectedIds(e, log);
  }

  /** A final verdict is taken: a known one, a rejection with its reason, an approval of what is settled, while open. */
  ghost predicate Concludes(e: Evidence, s: State, verdict: Option<Verdict>, reason: string) {
    && verdict.Some? && Open(s)
    && (verdict.value.Rejected? ==> Says(reason)) && (verdict.value.Approved? ==> AllSettled(e, s.log))
  }

  /** A final review is made exactly if its verdict is taken, and says who gave it, why, and what the decisions came to. */
  lemma ReviewMade(e: Evidence, steps: seq<Step>, verdict: Option<Verdict>, reviewedBy: string, reason: string)
    requires DistinctItems(e.items)
    ensures var s := History(e, steps);
            var t := History(e, steps + [Finalizes(verdict, reviewedBy, reason)]);
            && t.log == s.log && t.applied == s.applied
            && if Concludes(e, s, verdict, reason) then
                 && t.review.Some?
                 && var r := t.review.value;
                    && r.verdict == verdict.value && r.reviewedBy == reviewedBy && Trims(reason, r.reason)
                    && r.approved == |ApprovedIds(e, s.log)| && r.rejected == |RejectedIds(e, s.log)|
               else t.review == s.review
  {
    var s, step := History(e, steps), Finalizes(verdict, reviewedBy, reason);
    assert (steps + [step])[..|steps|] == steps;
    HistorySound(e, steps);
    assert Holds(e, s, Clause.InOrder);
    StripTrims(reason);
    SettledExactly(e, s.log);
    ProgressCounts(e, s.log);
  }

  /** The rejection of a proposed change stands in this history. */
  ghost predicate StandsRejected(e: Evidence, steps: seq<Step>, item: nat) {
    Proposed(e, item) && RejectedItem(History(e, steps).log, item)
  }

  /**
   * While a rejection stands, the comparison cannot be approved and has not been: no approval is taken, no
   * approving review was made, and nothing of the comparison was ever applied.
   */
  lemma RejectionBinds(e: Evidence, steps: seq<Step>, item: nat, reviewedBy: string, reason: string)
    requires DistinctItems(e.items) && StandsRejected(e, steps, item)
    ensures !Concludes(e, History(e, steps), Some(Approved), reason)
    ensures History(e, steps + [Finalizes(Some(Approved), reviewedBy, reason)]) == History(e, steps)
    ensures History(e, steps).review.Some? ==> History(e, steps).review.value.verdict.Rejected?
    ensures History(e, steps).applied.None?
  {
    var s := History(e, steps);
    HistorySound(e, steps);
    assert Holds(e, s, Clause.InOrder) && Holds(e, s, AppliedRightly);
    ItemDecided(s.log, item);
    assert !ApprovedItem(s.log, item);
    ReviewMade(e, steps, Some(Approved), reviewedBy, reason);
    var change :| change in e.items && change.id == item && (change.action.Create? || change.action.Update?);
    if s.review.Some? && s.review.value.verdict.Approved? {
      ApprovedMeansAll(e, steps, change);
    }
    if s.applied.Some? {
      assert steps + [] == steps;
      AppliedWasApproved(e, steps, [], change);
    }
  }

  /**
   * A rejection taken at a time not before any other decision on its item stands; and as long as it does,
   * whatever else happens, no create or update of the comparison is applied.
   */
  lemma RejectionStopsApply(e: Evidence, steps: seq<Step>, item: nat, author: string, at: Time, reason: string, more: seq<Step>)
    requires DistinctItems(e.items) && Takes(e, History(e, steps), item, Some(Reject), reason)
    requires forall x :: x in History(e, steps).log && x.item == item ==> x.at <= at
    ensures var rejected := steps + [Records(item, Some(Reject), author, at, reason)];
            && StandsRejected(e, rejected, item) && History(e, rejected).applied.None?
            && (StandsRejected(e, rejected + more, item) ==> History(e, rejected + more).applied.None?)
  {
    var rejected := steps + [Records(item, Some(Reject), author, at, reason)];
    DecisionStands(e, steps, item, Some(Reject), author, at, reason);
    var x :| Stands(History(e, rejected).log, x) && Quotes(x, item, Reject, author, at, reason);
    assert x in History(e, rejected).log && x.item == item && x.decision.Reject?;
    RejectionBinds(e, rejected, item, author, reason);
    if StandsRejected(e, rejected + more, item) {
      RejectionBinds(e, rejected + more, item, author, reason);
    }
  }

  // ---- Integrity --------------------------------------------------------------------------------

  /** The same decision stands on every item. */
  ghost predicate SameDecisions(a: seq<Entry>, b: seq<Entry>) {
    forall id :: Latest(a, id) == Latest(b, id)
  }

  lemma SameDigests(a: seq<Entry>, b: seq<Entry>)
    ensures LatestByItem(a) == LatestByItem(b) <==> SameDecisions(a, b)
  {
    forall id
      ensures Latest(a, id).Some? ==> id in LatestByItem(a) && LatestByItem(a)[id] == Latest(a, id).value
      ensures Latest(a, id).None? ==> id !in LatestByItem(a)
      ensures Latest(b, id).Some? ==> id in LatestByItem(b) && LatestByItem(b)[id] == Latest(b, id).value
      ensures Latest(b, id).None? ==> id !in LatestByItem(b)
    {
      LatestIsGreatest(a, id);
      LatestIsGreatest(b, id);
    }
    if SameDecisions(a, b) {
      forall id
        ensures id in LatestByItem(a) <==> id in LatestByItem(b)
      {
        assert Latest(a, id) == Latest(b, id);
      }
    }
  }

  lemma SameProgress(items: seq<Item>, a: seq<Entry>, b: seq<Entry>)
    requires SameDecisions(a, b)
    ensures ProgressOf(items, a) == ProgressOf(items, b)
  {
    var ids := ActionableIds(items);
    assert Decided(a, ids, Approve) == Decided(b, ids, Approve);
    assert Decided(a, ids, Reject) == Decided(b, ids, Reject);
  }

  /** A review that was rightly made agrees with another log exactly if the same decision stands on every item there. */
  lemma TamperingShows(e: Evidence, log: seq<Entry>, r: Review, other: seq<Entry>)
    requires DistinctItems(e.items) && Numbered(other) && Rightful(e, log, r)
    ensures Intact(e, other, r) <==> SameDecisions(log, other)
  {
    SameDigests(log, other);
    ProgressPathsAgree(e.items, other);
    if SameDecisions(log, other) {
      SameProgress(e.items, log, other);
    }
  }

  // ---- Applying ---------------------------------------------------------------------------------

  ghost function IndicesOf(items: seq<Item>, action: Action): set<int> {
    set i | 0 <= i < |items| && items[i].action == action
  }

  lemma {:induction false} CountsIndices(items: seq<Item>, action: Action)
    ensures CountAction(items, action) == |IndicesOf(items, action)|
  {
    if items != [] {
      var n := |items| - 1;
      CountsIndices(items[..n], action);
      if items[n].action == action {
        assert IndicesOf(items, action) == IndicesOf(items[..n], action) + {n};
      } else {
        assert IndicesOf(items, action) == IndicesOf(items[..n], action);
      }
    }
  }

  /** The stored counts are those of the items, none of which conflicts or was skipped. */
  ghost predicate Counted(e: Evidence) {
    && |IndicesOf(e.items, Create)| == e.summary.creates && |IndicesOf(e.items, Update)| == e.summary.updates
    && |IndicesOf(e.items, NoChange)| == e.summary.noChanges && |IndicesOf(e.items, Conflict)| == e.summary.conflicts == 0
    && |IndicesOf(e.items, Skipped)| == e.summary.skips == 0
  }

  ghost predicate AnyProposed(e: Evidence) {
    exists id :: Proposed(e, id)
  }

  lemma ProposedCounted(e: Evidence)
    requires Counted(e)
    ensures AnyProposed(e) <==> e.summary.creates > 0 || e.summary.updates > 0
  {
    if e.summary.creates > 0 {
      var i :| i in IndicesOf(e.items, Create);
      assert Proposed(e, e.items[i].id);
    }
    if e.summary.updates > 0 {
      var i :| i in IndicesOf(e.items, Update);
      assert Proposed(e, e.items[i].id);
    }
    if AnyProposed(e) {
      var id :| Proposed(e, id);
      var change :| change in e.items && change.id == id && (change.action.Create? || change.action.Update?);
      var i :| 0 <= i < |e.items| && e.items[i] == change;
      assert i in IndicesOf(e.items, change.action);
    }
  }

  /** An apply is allowed: not applied yet, the counts right, and any proposed change approved, by someone else if that is asked. */
  ghost predicate Allows(e: Evidence, s: State, author: string, separate: bool, others: bool) {
    && s.applied.None? && others && Counted(e)
    && (AnyProposed(e) ==>
          && s.review.Some? && s.review.value.verdict.Approved? && (separate ==> s.review.value.reviewedBy != author))
  }

  /** In any history, an apply goes ahead exactly if it is allowed and its plan went through; then it names its author. */
  lemma AppliesExactly(e: Evidence, steps: seq<Step>, author: string, separate: bool, others: bool, written: bool)
    requires DistinctItems(e.items)
    ensures var s := History(e, steps);
            History(e, steps + [Applies(author, separate, others, written)]) ==
            if Allows(e, s, author, separate, others) && written then s.(applied := Some(ApplyRun(author))) else s
  {
    var s, step := History(e, steps), Applies(author, separate, others, written);
    assert (steps + [step])[..|steps|] == steps;
    forall action
      ensures CountAction(e.items, action) == |IndicesOf(e.items, action)|
    {
      CountsIndices(e.items, action);
    }
    assert SummaryFits(e) && e.summary.conflicts == 0 && e.summary.skips == 0 <==> Counted(e);
    if Counted(e) {
      ProposedCounted(e);
    }
    if s.review.Some? {
      assert steps + [] == steps;
      ReviewAlwaysIntact(e, steps, []);
    }
  }

  /** Where reviewing and applying must be separate, whoever applies proposed changes is not who approved them. */
  lemma ReviewerIsNotApplier(e: Evidence, steps: seq<Step>, author: string, others: bool, written: bool)
    requires DistinctItems(e.items) && AnyProposed(e) && History(e, steps).applied.None?
    requires History(e, steps + [Applies(author, true, others, written)]).applied.Some?
    ensures History(e, steps).review.Some? && History(e, steps).review.value.reviewedBy != author
  {
    AppliesExactly(e, steps, author, true, others, written);
  }

  // ---- Approving everything ---------------------------------------------------------------------

  /** One approval for every proposed change that does not stand approved, by the author, each in its own time. */
  ghost predicate AddsApprovals(e: Evidence, log: seq<Entry>, more: seq<Entry>, author: string, clock: nat -> Time) {
    && (forall k :: 0 <= k < |more| ==> more[k] == Entry(|log| + k, more[k].item, Approve, author, clock(k), ""))
    && (forall x :: x in more ==> Proposed(e, x.item) && !ApprovedItem(log, x.item))
    && (forall id :: Proposed(e, id) && !ApprovedItem(log, id) ==> exists x :: x in more && x.item == id)
    && (forall j, k :: 0 <= j < k < |more| ==> more[j].item != more[k].item)
  }

  lemma ApprovalsAdd(e: Evidence, log: seq<Entry>, author: string, clock: nat -> Time)
    requires Numbered(log) && DistinctItems(e.items)
    ensures AddsApprovals(e, log, Approvals(e.items, log, author, clock), author, clock)
  {
    ApprovalsShape(e.items, log, author, clock);
    forall id
      ensures Proposed(e, id) <==> id in ActionableIds(e.items)
      ensures ApprovedItem(log, id) <==> !NeedsApproval(log, id)
    {
      ProposedExactly(e, id);
      ItemDecided(log, id);
    }
  }

  /** Approving everything adds the missing approvals to an open comparison, and nothing to any other. */
  lemma ApproveAllSays(e: Evidence, steps: seq<Step>, author: string, clock: nat -> Time) returns (more: seq<Entry>)
    requires DistinctItems(e.items)
    ensures var s := History(e, steps);
            && History(e, steps + [ApprovesAll(author, clock)]) == s.(log := s.log + more)
            && if Open(s) then AddsApprovals(e, s.log, more, author, clock) else more == []
  {
    var s, step := History(e, steps), ApprovesAll(author, clock);
    assert (steps + [step])[..|steps|] == steps;
    HistorySound(e, steps);
    assert Holds(e, s, Clause.InOrder);
    more := [];
    assert s.log + [] == s.log;
    if Open(s) {
      more := Approvals(e.items, s.log, author, clock);
      ApprovalsAdd(e, s.log, author, clock);
    }
  }

  // ---- Refusals ---------------------------------------------------------------------------------

  /** A decision that is not taken is refused for the first thing wrong with it. */
  lemma DecisionRefused(e: Evidence, s: State, item: nat, decision: Option<Decision>, reason: string)
    requires DistinctItems(e.items)
    ensures var refusal := RecordRefusal(e, s, item, decision, reason);
            var mute, known := decision == Some(Reject) && !Says(reason), exists i :: i in e.items && i.id == item;
            && (refusal == Some(UnknownDecision) <==> decision.None?)
            && (refusal == Some(ReasonMissing) <==> mute)
            && (refusal == Some(UnknownItem) <==> decision.Some? && !mute && !known)
            && (refusal == Some(AlreadyReviewed) <==> decision.Some? && !mute && known && s.review.Some?)
            && (refusal == Some(AlreadyApplied) <==> decision.Some? && !mute && known && s.review.None? && s.applied.Some?)
            && (refusal == Some(NotActionable) <==> decision.Some? && !mute && known && Open(s) && !Proposed(e, item))
            && (refusal.None? <==> Takes(e, s, item, decision, reason))
  {
    ActionKnown(e.items, item);
    StripTrims(reason);
    if i :| i in e.items && i.id == item {
      OneAction(e.items, i);
    }
  }

  /** So is a verdict. */
  lemma VerdictRefused(e: Evidence, s: State, verdict: Option<Verdict>, reason: string)
    requires Numbered(s.log)
    ensures var refusal := FinalRefusal(e, s, verdict, reason);
            var mute := verdict == Some(Rejected) && !Says(reason);
            && (refusal == Some(UnknownDecision) <==> verdict.None?)
            && (refusal == Some(ReasonMissing) <==> mute)
            && (refusal == Some(AlreadyReviewed) <==> verdict.Some? && !mute && s.review.Some?)
            && (refusal == Some(AlreadyApplied) <==> verdict.Some? && !mute && s.review.None? && s.applied.Some?)
            && (refusal.Some? && refusal.value.NotApprovable? <==> verdict == Some(Approved) && Open(s) && !AllSettled(e, s.log))
            && (refusal.None? <==> Concludes(e, s, verdict, reason))
  {
    StripTrims(reason);
    SettledExactly(e, s.log);
  }
}
