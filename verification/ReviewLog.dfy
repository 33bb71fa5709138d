/** Item decisions: an append-only log, the latest decision of each item, and the counts derived from it. */
module ReviewLog {
  import opened Prelude

  type Time = int

  datatype Action = Create | Update | NoChange | Conflict | Skipped {
    predicate Actionable() {
      Create? || Update?
    }
  }

  datatype Item = Item(id: nat, action: Action)

  datatype Decision = Approve | Reject

  datatype Entry = Entry(id: nat, item: nat, decision: Decision, author: string, at: Time, reason: string)

  // ---- Reasons --------------------------------------------------------------------------------

  predicate Space(c: char) {
    c == ' ' || 9 <= c as int <= 13 || 28 <= c as int <= 31
  }

  function StripStart(s: string): string {
    if s != "" && Space(s[0]) then StripStart(s[1..]) else s
  }

  function StripEnd(s: string): string {
    if s != "" && Space(s[|s| - 1]) then StripEnd(s[..|s| - 1]) else s
  }

  function Strip(s: string): string {
    StripEnd(StripStart(s))
  }

  lemma {:induction false} StripStartBare(s: string)
    ensures StripStart(s) == "" || !Space(StripStart(s)[0])
  {
    if s != "" && Space(s[0]) {
      StripStartBare(s[1..]);
    }
  }

  lemma {:induction false} StripEndBare(s: string)
    ensures StripEnd(s) == "" || (!Space(StripEnd(s)[|StripEnd(s)| - 1]) && StripEnd(s)[0] == s[0])
  {
    if s != "" && Space(s[|s| - 1]) {
      StripEndBare(s[..|s| - 1]);
    }
  }

  /** Stripping a stripped reason changes nothing, so a reason accepted once stays acceptable. */
  lemma StripTwice(s: string)
    ensures Strip(Strip(s)) == Strip(s)
  {
    StripStartBare(s);
    StripEndBare(StripStart(s));
  }

  // ---- Latest decisions -----------------------------------------------------------------------

  predicate Later(a: Entry, b: Entry) {
    a.at < b.at || (a.at == b.at && a.id < b.id)
  }

  function Latest(log: seq<Entry>, item: nat): Option<Entry> {
    if log == [] then None
    else
      var before, e := Latest(log[..|log| - 1], item), log[|log| - 1];
      if e.item == item && (before.None? || Later(before.value, e)) then Some(e) else before
  }

  /** The log as it is kept: IDs grow with the position. */
  ghost predicate Numbered(log: seq<Entry>) {
    forall i :: 0 <= i < |log| ==> log[i].id == i
  }

  /** The latest decision is the one with the greatest time; of those, the one with the greatest ID. */
  lemma {:induction false} LatestIsGreatest(log: seq<Entry>, item: nat)
    ensures Latest(log, item).None? <==> forall e :: e in log ==> e.item != item
    ensures Latest(log, item).Some? ==>
              && Latest(log, item).value in log && Latest(log, item).value.item == item
              && forall e :: e in log && e.item == item ==> !Later(Latest(log, item).value, e)
  {
    if log != [] {
      var n := |log| - 1;
      LatestIsGreatest(log[..n], item);
      assert log == log[..n] + [log[n]];
    }
  }

  lemma LatestAppend(log: seq<Entry>, e: Entry, item: nat)
    ensures Latest(log + [e], item) ==
            if e.item == item && (Latest(log, item).None? || Later(Latest(log, item).value, e)) then Some(e) else Latest(log, item)
  {
  }

  // ---- Progress -------------------------------------------------------------------------------

  datatype Progress = Progress(actionable: nat, approved: nat, rejected: nat, undecided: int)

  function ActionableIds(items: seq<Item>): set<nat> {
    set i | i in items && i.action.Actionable() :: i.id
  }

  function ActionableItems(items: seq<Item>): seq<Item> {
    if items == [] then []
    else
      var n := |items| - 1;
      ActionableItems(items[..n]) + (if items[n].action.Actionable() then [items[n]] else [])
  }

  ghost predicate DistinctItems(items: seq<Item>) {
    forall i, j :: 0 <= i < j < |items| ==> items[i].id != items[j].id
  }

  function Decided(log: seq<Entry>, ids: set<nat>, d: Decision): set<nat> {
    set id | id in ids && Latest(log, id).Some? && Latest(log, id).value.decision == d
  }

  /** The counts from a lookup of the latest decisions by item. */
  function ProgressOf(items: seq<Item>, log: seq<Entry>): Progress {
    var ids := ActionableIds(items);
    var approved, rejected := |Decided(log, ids, Approve)|, |Decided(log, ids, Reject)|;
    Progress(|ids|, approved, rejected, |ids| - approved - rejected)
  }

  /** How many log entries are the latest of an actionable item and say d: what the grouped query counts. */
  function CountLatest(items: seq<Item>, log: seq<Entry>, n: nat, d: Decision): nat
    requires n <= |log|
  {
    if n == 0 then 0
    else
      var e := log[n - 1];
      CountLatest(items, log, n - 1, d) +
      (if Latest(log, e.item) == Some(e) && e.item in ActionableIds(items) && e.decision == d then 1 else 0)
  }

  /** The counts from the grouped database query. */
  function QueriedProgress(items: seq<Item>, log: seq<Entry>): Progress {
    var approved, rejected := CountLatest(items, log, |log|, Approve), CountLatest(items, log, |log|, Reject);
    Progress(|ActionableItems(items)|, approved, rejected, |ActionableItems(items)| - approved - rejected)
  }

  lemma {:induction false} ActionableCount(items: seq<Item>)
    requires DistinctItems(items)
    ensures |ActionableItems(items)| == |ActionableIds(items)|
  {
    if items != [] {
      var n := |items| - 1;
      assert items == items[..n] + [items[n]];
      ActionableCount(items[..n]);
      if items[n].action.Actionable() {
        assert ActionableIds(items) == ActionableIds(items[..n]) + {items[n].id};
        assert items[n].id !in ActionableIds(items[..n]);
      } else {
        assert ActionableIds(items) == ActionableIds(items[..n]);
      }
    }
  }

  /** The items whose latest decision d is among the first n entries. */
  function DecidedBy(items: seq<Item>, log: seq<Entry>, n: nat, d: Decision): set<nat>
    requires n <= |log|
  {
    set id | id in Decided(log, ActionableIds(items), d) && Latest(log, id).value in log[..n]
  }

  /** One more entry adds its own item, if it is the latest of an actionable item and says d. */
  lemma DecidedByGrows(items: seq<Item>, log: seq<Entry>, n: nat, d: Decision)
    requires Numbered(log) && n < |log|
    ensures var e := log[n];
            var counted := Latest(log, e.item) == Some(e) && e.item in ActionableIds(items) && e.decision == d;
            && DecidedBy(items, log, n + 1, d) == (if counted then DecidedBy(items, log, n, d) + {e.item} else DecidedBy(items, log, n, d))
            && (counted ==> e.item !in DecidedBy(items, log, n, d))
  {
    var e := log[n];
    assert log[..n + 1] == log[..n] + [e];
    assert e !in log[..n];
    forall id | Latest(log, id) == Some(e)
      ensures id == e.item
    {
      LatestIsGreatest(log, id);
    }
  }

  lemma {:induction false} CountedByItem(items: seq<Item>, log: seq<Entry>, n: nat, d: Decision)
    requires Numbered(log) && n <= |log|
    ensures CountLatest(items, log, n, d) == |DecidedBy(items, log, n, d)|
  {
    if n == 0 {
      assert DecidedBy(items, log, 0, d) == {};
    } else {
      CountedByItem(items, log, n - 1, d);
      DecidedByGrows(items, log, n - 1, d);
    }
  }

  /** The grouped query and the lookup by item give the same progress. */
  lemma ProgressPathsAgree(items: seq<Item>, log: seq<Entry>)
    requires DistinctItems(items) && Numbered(log)
    ensures QueriedProgress(items, log) == ProgressOf(items, log)
  {
    ActionableCount(items);
    forall d
      ensures DecidedBy(items, log, |log|, d) == Decided(log, ActionableIds(items), d)
    {
      forall id | id in Decided(log, ActionableIds(items), d)
        ensures Latest(log, id).value in log[..|log|]
      {
        LatestIsGreatest(log, id);
      }
    }
    CountedByItem(items, log, |log|, Approve);
    CountedByItem(items, log, |log|, Reject);
  }

  /** Nothing rejected and nothing undecided means that every actionable item's latest decision is to approve. */
  lemma AllApproved(items: seq<Item>, log: seq<Entry>)
    ensures var p := ProgressOf(items, log);
            (p.rejected == 0 && p.undecided == 0) <==>
            forall id :: id in ActionableIds(items) ==> Latest(log, id).Some? && Latest(log, id).value.decision.Approve?
  {
    var ids := ActionableIds(items);
    var approved, rejected := Decided(log, ids, Approve), Decided(log, ids, Reject);
    assert approved <= ids && rejected <= ids && approved !! rejected;
    assert |approved + rejected| == |approved| + |rejected|;
    if |rejected| == 0 && |approved| == |ids| {
      SubsetCardinality(approved, ids);
      assert approved == ids;
    }
    if forall id :: id in ids ==> Latest(log, id).Some? && Latest(log, id).value.decision.Approve? {
      assert approved == ids && rejected == {};
    }
  }

  // ---- Approving everything -------------------------------------------------------------------

  predicate NeedsApproval(log: seq<Entry>, id: nat) {
    Latest(log, id).None? || Latest(log, id).value.decision.Reject?
  }

  /** The entries approve-all adds: an approval for each actionable item whose latest decision is none or a rejection. */
  function Approvals(items: seq<Item>, log: seq<Entry>, author: string, clock: nat -> Time): seq<Entry> {
    if items == [] then []
    else
      var n := |items| - 1;
      var before := Approvals(items[..n], log, author, clock);
      if items[n].action.Actionable() && NeedsApproval(log, items[n].id)
      then before + [Entry(|log| + |before|, items[n].id, Approve, author, clock(|before|), "")]
      else before
  }

  lemma {:induction false} ApprovalsShape(items: seq<Item>, log: seq<Entry>, author: string, clock: nat -> Time)
    requires DistinctItems(items)
    ensures var more := Approvals(items, log, author, clock);
            && (forall k :: 0 <= k < |more| ==> more[k] == Entry(|log| + k, more[k].item, Approve, author, clock(k), ""))
            && (forall e :: e in more ==> e.item in ActionableIds(items) && NeedsApproval(log, e.item))
            && (forall id :: id in ActionableIds(items) && NeedsApproval(log, id) ==> exists e :: e in more && e.item == id)
            && (forall j, k :: 0 <= j < k < |more| ==> more[j].item != more[k].item)
  {
    if items != [] {
      var n := |items| - 1;
      assert items == items[..n] + [items[n]];
      ApprovalsShape(items[..n], log, author, clock);
      assert items[n].id !in ActionableIds(items[..n]);
    }
  }

  lemma {:induction false} LatestUntouched(log: seq<Entry>, more: seq<Entry>, item: nat)
    requires forall e :: e in more ==> e.item != item
    ensures Latest(log + more, item) == Latest(log, item)
  {
    if more == [] {
      assert log + more == log;
    } else {
      var n := |more| - 1;
      LatestUntouched(log, more[..n], item);
      LatestAppend(log + more[..n], more[n], item);
      assert log + more == (log + more[..n]) + [more[n]];
    }
  }

  lemma LatestBetween(log: seq<Entry>, before: seq<Entry>, e: Entry, after: seq<Entry>)
    requires forall o :: o in before || o in after ==> o.item != e.item
    ensures Latest(log + before + [e] + after, e.item) ==
            if Latest(log, e.item).None? || Later(Latest(log, e.item).value, e) then Some(e) else Latest(log, e.item)
  {
    LatestUntouched(log, before, e.item);
    LatestAppend(log + before, e, e.item);
    LatestUntouched(log + before + [e], after, e.item);
  }

  /** The only new entry of an item becomes its latest exactly when its time is not before the old latest's. */
  lemma LatestAfter(log: seq<Entry>, more: seq<Entry>, k: nat)
    requires Numbered(log) && k < |more| && more[k].id == |log| + k
    requires forall j :: 0 <= j < |more| && j != k ==> more[j].item != more[k].item
    ensures var item, e := more[k].item, more[k];
            Latest(log + more, item) ==
            if Latest(log, item).None? || Latest(log, item).value.at <= e.at then Some(e) else Latest(log, item)
  {
    var before, e, after := more[..k], more[k], more[k + 1..];
    OthersDiffer(more, k);
    LatestBetween(log, before, e, after);
    SplitAt(log, more, k);
    LatestIsGreatest(log, e.item);
  }

  lemma OthersDiffer(more: seq<Entry>, k: nat)
    requires k < |more|
    requires forall j :: 0 <= j < |more| && j != k ==> more[j].item != more[k].item
    ensures forall o :: o in more[..k] || o in more[k + 1..] ==> o.item != more[k].item
  {
  }

  lemma SplitAt(log: seq<Entry>, more: seq<Entry>, k: nat)
    requires k < |more|
    ensures log + more == log + more[..k] + [more[k]] + more[k + 1..]
  {
  }

  /** When approve-all's approvals are no earlier than the rejections they override. */
  ghost predicate InTime(items: seq<Item>, log: seq<Entry>, author: string, clock: nat -> Time) {
    forall e :: e in Approvals(items, log, author, clock) ==> Latest(log, e.item).None? || Latest(log, e.item).value.at <= e.at
  }

  /** Approve-all leaves every actionable item approved exactly when no clock ran backwards. */
  lemma ApproveAllWorksExactlyInTime(items: seq<Item>, log: seq<Entry>, author: string, clock: nat -> Time)
    requires DistinctItems(items) && Numbered(log)
    ensures var p := ProgressOf(items, log + Approvals(items, log, author, clock));
            (p.rejected == 0 && p.undecided == 0) <==> InTime(items, log, author, clock)
  {
    var more := Approvals(items, log, author, clock);
    ApprovalsShape(items, log, author, clock);
    AllApproved(items, log + more);
    forall k | 0 <= k < |more|
      ensures var item := more[k].item;
              && item in ActionableIds(items) && Latest(log + more, item).Some?
              && (Latest(log + more, item).value.decision.Approve? <==> Latest(log, item).None? || Latest(log, item).value.at <= more[k].at)
    {
      assert more[k] in more;
      LatestAfter(log, more, k);
    }
    forall id | id in ActionableIds(items) && !NeedsApproval(log, id)
      ensures Latest(log + more, id) == Latest(log, id)
    {
      LatestUntouched(log, more, id);
    }
  }

  /** A rejection at time ten. */
  const REJECTED: seq<Entry> := [Entry(0, 0, Reject, "reviewer", 10, "wrong site")]

  /** Approving everything on a clock that is behind adds an approval, but leaves the rejection latest. */
  lemma LateRejectionStands(author: string)
    ensures var items, clock := [Item(0, Create)], (n: nat) => 5;
            var log := REJECTED + Approvals(items, REJECTED, author, clock);
            |log| == 2 && Latest(log, 0) == Some(REJECTED[0]) && !InTime(items, REJECTED, author, clock)
  {
    var items, clock := [Item(0, Create)], (n: nat) => 5;
    var approval := Entry(1, 0, Approve, author, 5, "");
    assert REJECTED[..0] == [] && Latest(REJECTED, 0) == Some(REJECTED[0]);
    assert items[..0] == [] && Approvals(items, REJECTED, author, clock) == [approval];
    LatestAppend(REJECTED, approval, 0);
    assert approval in Approvals(items, REJECTED, author, clock);
  }
}
