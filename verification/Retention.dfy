/** Retention of collection runs: what a pruning removes, what always survives, and that prunings compose. */
module Retention {
  import opened Prelude

  /** Seconds. */
  type Time = int

  const DAY: Time := 86_400

  datatype Run = Run(id: string, receivedAt: Time, complete: bool)

  datatype Policy = Policy(successfulRuns: nat, days: nat, failureDays: nat)

  ghost predicate DistinctTimes(runs: set<Run>) {
    forall a, b :: a in runs && b in runs && a.receivedAt == b.receivedAt ==> a == b
  }

  function CompleteRuns(runs: set<Run>): set<Run> {
    set r | r in runs && r.complete
  }

  predicate Newest(r: Run, runs: set<Run>) {
    r in runs && forall o :: o in runs ==> o.receivedAt <= r.receivedAt
  }

  ghost predicate NewestFirst(order: seq<Run>, runs: set<Run>) {
    && Elements(order) == runs && Distinct(order)
    && forall i, j :: 0 <= i < j < |order| ==> order[i].receivedAt >= order[j].receivedAt
  }

  /** The first n of the runs in order: what the policy retains by number. */
  function FirstOf(order: seq<Run>, n: nat): seq<Run> {
    if n <= |order| then order[..n] else order
  }

  /** The runs received after r. */
  function Newer(r: Run, runs: set<Run>): set<Run> {
    set o | o in runs && o.receivedAt > r.receivedAt
  }

  /** A run is among the first n of the order exactly when fewer than n runs are newer. */
  lemma RetainedByRank(order: seq<Run>, runs: set<Run>, n: nat, r: Run)
    requires NewestFirst(order, runs) && DistinctTimes(runs) && r in runs
    ensures r in FirstOf(order, n) <==> |Newer(r, runs)| < n
  {
    assert r in Elements(order);
    var k :| 0 <= k < |order| && order[k] == r;
    NewerComeBefore(order, runs, k);
    DistinctCardinality(order[..k]);
    if k < n {
      assert FirstOf(order, n)[k] == r;
    }
  }

  lemma NewerComeBefore(order: seq<Run>, runs: set<Run>, k: nat)
    requires NewestFirst(order, runs) && DistinctTimes(runs) && k < |order|
    ensures Newer(order[k], runs) == Elements(order[..k])
  {
    var r := order[k];
    assert r in Elements(order);
    forall o
      ensures o in Newer(r, runs) <==> o in Elements(order[..k])
    {
      if o in runs {
        assert o in Elements(order);
        var i :| 0 <= i < |order| && order[i] == o;
        assert i < k ==> order[..k][i] == o;
      }
    }
  }

  // ---- The plan -------------------------------------------------------------------------------

  /** Never pruned: runs a comparison refers to, the newest run and the newest complete run. */
  predicate Protected(r: Run, runs: set<Run>, compared: set<string>) {
    r.id in compared || Newest(r, runs) || (r.complete && Newest(r, CompleteRuns(runs)))
  }

  /** Pruned: an unprotected complete run that is too old or beyond the number to retain, or an old unfinished one. */
  predicate Eligible(r: Run, runs: set<Run>, compared: set<string>, p: Policy, now: Time) {
    && r in runs && !Protected(r, runs, compared)
    && if r.complete then r.receivedAt < now - p.days * DAY || |Newer(r, CompleteRuns(runs))| >= p.successfulRuns
       else r.receivedAt < now - p.failureDays * DAY
  }

  /** The same by the first run, the first complete run and the retained complete runs that the queries list. */
  predicate Unlisted(r: Run, newest: seq<Run>, best: seq<Run>, retained: seq<Run>, compared: set<string>, p: Policy, now: Time) {
    && r.id !in compared && r !in newest && r !in best
    && if r.complete then r.receivedAt < now - p.days * DAY || r !in retained else r.receivedAt < now - p.failureDays * DAY
  }

  /** How the three queries list all runs and, twice, the complete ones. */
  datatype Listing = Listing(all: seq<Run>, complete: seq<Run>, completeAgain: seq<Run>)

  /** Runs received at the same instant may come in any order, and differently in each query. */
  ghost predicate Lists(l: Listing, runs: set<Run>) {
    NewestFirst(l.all, runs) && NewestFirst(l.complete, CompleteRuns(runs)) && NewestFirst(l.completeAgain, CompleteRuns(runs))
  }

  /** What a plan made from these listings prunes. */
  function PlannedBy(l: Listing, runs: set<Run>, compared: set<string>, p: Policy, now: Time): set<Run> {
    set r | r in runs && Unlisted(r, FirstOf(l.all, 1), FirstOf(l.complete, 1), FirstOf(l.completeAgain, p.successfulRuns), compared, p, now)
  }

  function Survivors(runs: set<Run>, compared: set<string>, p: Policy, now: Time): set<Run> {
    set r | r in runs && !Eligible(r, runs, compared, p, now)
  }

  // ---- What survives --------------------------------------------------------------------------

  /** The newest run, the newest complete run and every compared run survive any pruning. */
  lemma ProtectedSurvive(runs: set<Run>, compared: set<string>, p: Policy, now: Time, r: Run)
    requires r in runs && (r.id in compared || Newest(r, runs) || Newest(r, CompleteRuns(runs)))
    ensures r in Survivors(runs, compared, p, now)
    ensures Newest(r, runs) ==> Newest(r, Survivors(runs, compared, p, now))
    ensures Newest(r, CompleteRuns(runs)) ==> Newest(r, CompleteRuns(Survivors(runs, compared, p, now)))
  {
  }

  /** Pruning does not move the newest run nor the newest complete run. */
  lemma SameNewest(runs: set<Run>, compared: set<string>, p: Policy, now: Time, r: Run)
    requires DistinctTimes(runs) && r in Survivors(runs, compared, p, now)
    ensures Newest(r, runs) <==> Newest(r, Survivors(runs, compared, p, now))
    ensures r.complete ==> (Newest(r, CompleteRuns(runs)) <==> Newest(r, CompleteRuns(Survivors(runs, compared, p, now))))
  {
    var left := Survivors(runs, compared, p, now);
    NewestExists(runs, r);
    var top :| Newest(top, runs);
    ProtectedSurvive(runs, compared, p, now, top);
    if r.complete {
      NewestExists(CompleteRuns(runs), r);
      var best :| Newest(best, CompleteRuns(runs));
      ProtectedSurvive(runs, compared, p, now, best);
    }
  }

  lemma {:induction false} NewestExists(runs: set<Run>, r: Run)
    requires r in runs
    ensures exists top :: Newest(top, runs)
    decreases |runs|
  {
    var rest := runs - {r};
    assert runs == rest + {r};
    if rest == {} {
      assert Newest(r, runs);
    } else {
      var o :| o in rest;
      NewestExists(rest, o);
      var top :| Newest(top, rest);
      assert Newest(top, runs) || Newest(r, runs);
    }
  }

  /** A complete run that survives on its own account keeps its rank: nothing newer than it was pruned. */
  lemma RankKept(runs: set<Run>, compared: set<string>, p: Policy, now: Time, r: Run)
    requires DistinctTimes(runs)
    requires r in Survivors(runs, compared, p, now) && r.complete && !Protected(r, runs, compared)
    ensures Newer(r, CompleteRuns(Survivors(runs, compared, p, now))) == Newer(r, CompleteRuns(runs))
  {
    forall o | o in Newer(r, CompleteRuns(runs))
      ensures o in Survivors(runs, compared, p, now)
    {
      assert Newer(o, CompleteRuns(runs)) <= Newer(r, CompleteRuns(runs));
      SubsetCardinality(Newer(o, CompleteRuns(runs)), Newer(r, CompleteRuns(runs)));
    }
  }

  /** For a run that survived, a later pruning decides as if the first had not happened. */
  lemma DecidedAlike(runs: set<Run>, compared: set<string>, p: Policy, first: Time, second: Time, r: Run)
    requires DistinctTimes(runs) && first <= second && r in Survivors(runs, compared, p, first)
    ensures Eligible(r, Survivors(runs, compared, p, first), compared, p, second) <==> Eligible(r, runs, compared, p, second)
  {
    SameNewest(runs, compared, p, first, r);
    if r.complete && !Protected(r, runs, compared) {
      RankKept(runs, compared, p, first, r);
    }
  }

  /** A run once eligible stays eligible. */
  lemma EligibleLater(runs: set<Run>, compared: set<string>, p: Policy, first: Time, second: Time, r: Run)
    requires first <= second && Eligible(r, runs, compared, p, first)
    ensures Eligible(r, runs, compared, p, second)
  {
  }

  /** Pruning and pruning again later leaves what the later pruning alone would leave. */
  lemma PruningComposes(runs: set<Run>, compared: set<string>, p: Policy, first: Time, second: Time)
    requires DistinctTimes(runs) && first <= second
    ensures Survivors(Survivors(runs, compared, p, first), compared, p, second) == Survivors(runs, compared, p, second)
  {
    var left := Survivors(runs, compared, p, first);
    forall r
      ensures r in Survivors(left, compared, p, second) <==> r in Survivors(runs, compared, p, second)
    {
      if r in left {
        DecidedAlike(runs, compared, p, first, second, r);
      } else if r in runs {
        EligibleLater(runs, compared, p, first, second, r);
      }
    }
  }

  /** Any number of prunings at times that do not decrease, the last of them at `now`, equal one pruning then. */
  function PruneEach(runs: set<Run>, compared: set<string>, p: Policy, times: seq<Time>): set<Run> {
    if times == [] then runs else Survivors(PruneEach(runs, compared, p, times[..|times| - 1]), compared, p, times[|times| - 1])
  }

  lemma {:induction false} PruningSchedule(runs: set<Run>, compared: set<string>, p: Policy, times: seq<Time>)
    requires DistinctTimes(runs) && times != []
    requires forall i, j :: 0 <= i < j < |times| ==> times[i] <= times[j]
    ensures PruneEach(runs, compared, p, times) == Survivors(runs, compared, p, times[|times| - 1])
  {
    var n := |times| - 1;
    if n > 0 {
      PruningSchedule(runs, compared, p, times[..n]);
      PruningComposes(runs, compared, p, times[n - 1], times[n]);
    } else {
      assert PruneEach(runs, compared, p, times[..0]) == runs;
    }
  }

  /** The complete runs that survive without protection. */
  function KeptByPolicy(runs: set<Run>, compared: set<string>, p: Policy, now: Time): set<Run> {
    set r | r in CompleteRuns(runs) && !Protected(r, runs, compared) && !Eligible(r, runs, compared, p, now)
  }

  predicate Oldest(r: Run, runs: set<Run>) {
    r in runs && forall o :: o in runs ==> r.receivedAt <= o.receivedAt
  }

  /** They are no more than the policy's number, and all of them recent. */
  lemma RetentionBound(runs: set<Run>, compared: set<string>, p: Policy, now: Time)
    requires DistinctTimes(runs)
    ensures |KeptByPolicy(runs, compared, p, now)| <= p.successfulRuns
    ensures forall r :: r in KeptByPolicy(runs, compared, p, now) ==> r.receivedAt >= now - p.days * DAY
  {
    var kept := KeptByPolicy(runs, compared, p, now);
    if kept != {} {
      var any :| any in kept;
      OldestExists(kept, any);
      var oldest :| Oldest(oldest, kept);
      var others := Newer(oldest, CompleteRuns(runs));
      assert |others| < p.successfulRuns;
      forall r | r in kept
        ensures r in others + {oldest}
      {
        assert r.receivedAt == oldest.receivedAt ==> r == oldest;
      }
      SubsetCardinality(kept, others + {oldest});
    }
  }

  lemma {:induction false} OldestExists(runs: set<Run>, r: Run)
    requires r in runs
    ensures exists oldest :: Oldest(oldest, runs)
    decreases |runs|
  {
    var rest := runs - {r};
    assert runs == rest + {r};
    if rest == {} {
      assert Oldest(r, runs);
    } else {
      var o :| o in rest;
      OldestExists(rest, o);
      var oldest :| Oldest(oldest, rest);
      assert Oldest(oldest, runs) || Oldest(r, runs);
    }
  }

  /**
   * What a pruning leaves, in days and numbers: what a comparison refers to, what has no newer run, or no newer
   * complete run, and otherwise recent unfinished runs and the recent ones of the newest complete runs.
   */
  lemma SurvivesExactly(runs: set<Run>, compared: set<string>, p: Policy, now: Time, r: Run)
    requires r in runs
    ensures r in Survivors(runs, compared, p, now) <==>
              || r.id in compared
              || (forall o :: o in runs ==> o.receivedAt <= r.receivedAt)
              || (r.complete && forall o :: o in runs && o.complete ==> o.receivedAt <= r.receivedAt)
              || (r.complete && now - r.receivedAt <= p.days * 86_400 &&
                  |set o | o in runs && o.complete && o.receivedAt > r.receivedAt| < p.successfulRuns)
              || (!r.complete && now - r.receivedAt <= p.failureDays * 86_400)
  {
    assert Newer(r, CompleteRuns(runs)) == set o | o in runs && o.complete && o.receivedAt > r.receivedAt;
  }

  /** Whatever the ties, a plan prunes an unprotected run when it is old, or is listed too late among the complete ones. */
  lemma PlannedSays(l: Listing, runs: set<Run>, compared: set<string>, p: Policy, now: Time, r: Run)
    requires Lists(l, runs) && r in runs
    ensures r in PlannedBy(l, runs, compared, p, now) <==>
              && r.id !in compared && !(l.all != [] && r == l.all[0])
              && (if r.complete then
                    && !(l.complete != [] && r == l.complete[0])
                    && (now - r.receivedAt > p.days * 86_400 || forall i :: 0 <= i < p.successfulRuns && i < |l.completeAgain| ==> l.completeAgain[i] != r)
                  else now - r.receivedAt > p.failureDays * 86_400)
  {
    assert r in Elements(l.all) && FirstOf(l.all, 1) == [l.all[0]];
    if r.complete {
      assert r in Elements(l.complete) && FirstOf(l.complete, 1) == [l.complete[0]];
    } else {
      NotAmong(l.complete, CompleteRuns(runs), r);
    }
  }

  function Ids(runs: set<Run>): set<string> {
    set r | r in runs :: r.id
  }

  function OfRuns(observations: set<Observation>, ids: set<string>): set<Observation> {
    set o | o in observations && o.runId in ids
  }

  /** A run to delete has this ID. */
  predicate Doomed(eligible: set<Run>, id: string) {
    exists r :: r in eligible && r.id == id
  }

  // ---- Pruning the tables ---------------------------------------------------------------------

  datatype Observation = Observation(runId: string, sequence: nat)

  datatype Outcome = Outcome(applied: bool, eligible: set<Run>, deletedRuns: nat, deletedObservations: nat)

  /** The newest runs are listed, and the rest are no newer. */
  ghost predicate ListedSoFar(order: seq<Run>, some: set<Run>, rest: set<Run>) {
    NewestFirst(order, some - rest) && forall i, o :: 0 <= i < |order| && o in rest ==> order[i].receivedAt >= o.receivedAt
  }

  lemma ListsNext(order: seq<Run>, some: set<Run>, rest: set<Run>, top: Run)
    requires rest <= some && ListedSoFar(order, some, rest) && Newest(top, rest)
    ensures ListedSoFar(order + [top], some, rest - {top})
  {
    assert top !in Elements(order);
    assert Elements(order + [top]) == Elements(order) + {top} == some - (rest - {top});
  }

  class Archive {
    var runs: set<Run>
    var observations: set<Observation>
    var preparations: set<string>
    const compared: set<string>

    constructor (runs: set<Run>, observations: set<Observation>, preparations: set<string>, compared: set<string>)
      ensures this.runs == runs && this.observations == observations && this.preparations == preparations && this.compared == compared
    {
      this.runs, this.observations, this.preparations, this.compared := runs, observations, preparations, compared;
    }

    /** Lists runs newest first. */
    method Listed(some: set<Run>) returns (order: seq<Run>)
      ensures NewestFirst(order, some)
    {
      order := [];
      var rest := some;
      while rest != {}
        invariant rest <= some && ListedSoFar(order, some, rest)
        decreases |rest|
      {
        var top := Latest(rest);
        ListsNext(order, some, rest, top);
        order := order + [top];
        rest := rest - {top};
      }
      assert some - rest == some;
    }

    method Latest(some: set<Run>) returns (top: Run)
      requires some != {}
      ensures Newest(top, some)
    {
      top :| top in some;
      var rest := some - {top};
      while rest != {}
        invariant rest <= some && top in some && forall o :: o in some - rest ==> o.receivedAt <= top.receivedAt
        decreases |rest|
      {
        var r :| r in rest;
        rest := rest - {r};
        if r.receivedAt > top.receivedAt {
          top := r;
        }
      }
    }

    /** The runs to prune, found from the newest-first lists the way the queries do. */
    method RetentionPlan(p: Policy, now: Time) returns (eligible: set<Run>, ghost listing: Listing)
      ensures Lists(listing, runs) && eligible == PlannedBy(listing, runs, compared, p, now)
      ensures forall r :: r in eligible ==> r in runs && r.id !in compared
      ensures DistinctTimes(runs) ==> runs - eligible == Survivors(runs, compared, p, now)
    {
      var byTime := Listed(runs);
      var successful := Listed(CompleteRuns(runs));
      var successfulAgain := Listed(CompleteRuns(runs));
      var retained := FirstOf(successfulAgain, p.successfulRuns);
      var protected := Elements(FirstOf(byTime, 1)) + Elements(FirstOf(successful, 1));
      var unreviewed := set r | r in runs && r.id !in compared && r !in protected;
      var successfulCutoff, failureCutoff := now - p.days * DAY, now - p.failureDays * DAY;
      eligible := set r | r in unreviewed &&
                          if r.complete then r.receivedAt < successfulCutoff || r !in retained else r.receivedAt < failureCutoff;
      listing := Listing(byTime, successful, successfulAgain);
      if DistinctTimes(runs) {
        PlannedExactly(listing, runs, compared, p, now);
      }
    }

    /** Deletes runs that no comparison refers to, with their observations and preparations. */
    method DeleteRuns(eligible: set<Run>) returns (deletedRuns: nat, deletedObservations: nat)
      requires eligible <= runs && forall r :: r in eligible ==> r.id !in compared
      modifies this`runs, this`observations, this`preparations
      ensures runs == old(runs) - eligible && deletedRuns == |old(runs)| - |runs|
      ensures observations == old(observations) - OfRuns(old(observations), Ids(eligible))
      ensures deletedObservations == |old(observations)| - |observations|
      ensures preparations == old(preparations) - Ids(eligible)
    {
      var locked := set r | r in eligible && r.id !in compared :: r.id;
      assert locked == Ids(eligible);
      var doomed := OfRuns(observations, locked);
      observations := observations - doomed;
      preparations := preparations - locked;
      var deleted := set r | r in runs && r in eligible && r.id !in compared;
      assert deleted == eligible;
      runs := runs - deleted;
      return |deleted|, |doomed|;
    }

    /** Deletes what the policy no longer retains, or only says what that would be. */
    method PruneCollections(p: Policy, apply: bool, now: Time) returns (outcome: Outcome, ghost listing: Listing)
      modifies this`runs, this`observations, this`preparations
      ensures Lists(listing, old(runs)) && outcome.eligible == PlannedBy(listing, old(runs), compared, p, now)
      ensures outcome.applied == apply
      ensures !apply ==> runs == old(runs) && observations == old(observations) && preparations == old(preparations)
      ensures apply ==> runs == old(runs) - outcome.eligible
      ensures apply && DistinctTimes(old(runs)) ==> runs == Survivors(old(runs), compared, p, now)
      ensures apply ==> observations == old(observations) - OfRuns(old(observations), Ids(outcome.eligible))
      ensures apply ==> preparations == old(preparations) - Ids(outcome.eligible)
      ensures apply ==> forall o :: o in observations <==> o in old(observations) && !Doomed(outcome.eligible, o.runId)
      ensures apply ==> forall id :: id in preparations <==> id in old(preparations) && !Doomed(outcome.eligible, id)
      ensures outcome.deletedRuns == |old(runs)| - |runs|
      ensures outcome.deletedObservations == |old(observations)| - |observations|
    {
      var eligible;
      eligible, listing := RetentionPlan(p, now);
      outcome := Outcome(apply, eligible, 0, 0);
      if apply {
        var deletedRuns, deletedObservations := DeleteListed(eligible);
        outcome := outcome.(deletedRuns := deletedRuns, deletedObservations := deletedObservations);
      }
    }

    /** Deletes the listed runs, if there are any. */
    method DeleteListed(eligible: set<Run>) returns (deletedRuns: nat, deletedObservations: nat)
      requires eligible <= runs && forall r :: r in eligible ==> r.id !in compared
      modifies this`runs, this`observations, this`preparations
      ensures runs == old(runs) - eligible && deletedRuns == |old(runs)| - |runs|
      ensures observations == old(observations) - OfRuns(old(observations), Ids(eligible))
      ensures deletedObservations == |old(observations)| - |observations|
      ensures preparations == old(preparations) - Ids(eligible)
    {
      if eligible == {} {
        assert Ids(eligible) == {} && OfRuns(observations, Ids(eligible)) == {};
        return 0, 0;
      }
      deletedRuns, deletedObservations := DeleteRuns(eligible);
    }
  }

  /** When no two runs came at the same instant, a plan lists exactly the eligible runs. */
  lemma PlannedExactly(l: Listing, runs: set<Run>, compared: set<string>, p: Policy, now: Time)
    requires DistinctTimes(runs) && Lists(l, runs)
    ensures runs - PlannedBy(l, runs, compared, p, now) == Survivors(runs, compared, p, now)
  {
    forall r | r in runs
      ensures r in PlannedBy(l, runs, compared, p, now) <==> Eligible(r, runs, compared, p, now)
    {
      FirstIsNewest(l.all, runs, r);
      if r.complete {
        FirstIsNewest(l.complete, CompleteRuns(runs), r);
        RetainedByRank(l.completeAgain, CompleteRuns(runs), p.successfulRuns, r);
      } else {
        NotAmong(l.complete, CompleteRuns(runs), r);
      }
    }
  }

  lemma FirstListed(order: seq<Run>, runs: set<Run>)
    requires NewestFirst(order, runs) && runs != {}
    ensures |FirstOf(order, 1)| == 1 && Newest(FirstOf(order, 1)[0], runs)
  {
    var r :| r in runs;
    assert r in Elements(order);
    forall o | o in runs
      ensures o.receivedAt <= order[0].receivedAt
    {
      assert o in Elements(order);
      var i :| 0 <= i < |order| && order[i] == o;
    }
    assert order[0] in Elements(order);
  }

  /** Whatever the ties, no plan prunes a compared run, and a newest run and a newest complete run survive it. */
  lemma NewestSurvive(l: Listing, runs: set<Run>, compared: set<string>, p: Policy, now: Time)
    requires Lists(l, runs)
    ensures forall r :: r in PlannedBy(l, runs, compared, p, now) ==> r in runs && r.id !in compared
    ensures runs != {} ==> exists r :: Newest(r, runs) && r !in PlannedBy(l, runs, compared, p, now)
    ensures CompleteRuns(runs) != {} ==> exists r :: Newest(r, CompleteRuns(runs)) && r !in PlannedBy(l, runs, compared, p, now)
  {
    if runs != {} {
      FirstListed(l.all, runs);
      assert FirstOf(l.all, 1)[0] !in PlannedBy(l, runs, compared, p, now);
    }
    if CompleteRuns(runs) != {} {
      FirstListed(l.complete, CompleteRuns(runs));
      assert FirstOf(l.complete, 1)[0] !in PlannedBy(l, runs, compared, p, now);
    }
  }

  lemma FirstIsNewest(order: seq<Run>, runs: set<Run>, r: Run)
    requires NewestFirst(order, runs) && DistinctTimes(runs) && r in runs
    ensures r in Elements(FirstOf(order, 1)) <==> Newest(r, runs)
  {
    RetainedByRank(order, runs, 1, r);
    if |Newer(r, runs)| < 1 {
      assert Newer(r, runs) == {};
      forall o | o in runs
        ensures o.receivedAt <= r.receivedAt
      {
        assert o !in Newer(r, runs);
      }
    } else {
      assert Newer(r, runs) != {};
    }
  }

  lemma NotAmong(order: seq<Run>, runs: set<Run>, r: Run)
    requires NewestFirst(order, runs) && r !in runs
    ensures r !in Elements(FirstOf(order, 1))
  {
  }
}
