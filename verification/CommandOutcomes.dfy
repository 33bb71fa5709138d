/**
 * How commands come, are kept and end, told over whole runs of the protocol from the steps taken and the messages
 * in them.
 */
module CommandOutcomes {
  import opened Prelude
  import opened CommandProtocol

  // ---- How a command ends -----------------------------------------------------------------------

  /** The run the command's agent stored for it, on its source. */
  predicate OwnRun(db: Database, id: string) {
    && id in db.commands && id in db.runs
    && db.runs[id].agent == db.commands[id].agent && db.runs[id].batch.source == db.commands[id].source
  }

  /** A claim finds the command's own run and takes its completeness for the outcome. */
  predicate Recovers(w: World, step: Step, id: string, succeeded: bool, at: Time) {
    && step.Claims? && id in step.picked && at == step.now && OwnRun(w.db, id)
    && w.db.commands[id].kind.RunNow? && !w.db.commands[id].state.Pending?
    && w.db.runs[id].batch.complete == succeeded
  }

  /** The agent's own result for the command arrives, and says so. */
  predicate IsReported(w: World, step: Step, id: string, succeeded: bool, at: Time) {
    && step.TakesResult? && step.result.commandId == id && id in w.db.commands
    && step.agent == w.db.commands[id].agent && step.result.source == w.db.commands[id].source && step.result.kind == w.db.commands[id].kind
    && step.result.succeeded == succeeded && at == step.result.completedAt
  }

  /** The command's agent or source is taken away. */
  predicate IsCancelled(w: World, step: Step, id: string, at: Time) {
    && id in w.db.commands
    && ((step.Cancels? && step.agent == w.db.commands[id].agent && at == step.now) ||
        (step.CancelsSource? && step.source == w.db.commands[id].source && at == step.now))
  }

  /** What ends a command, with what outcome and at what time. */
  predicate Ends(w: World, step: Step, id: string, succeeded: bool, at: Time) {
    Recovers(w, step, id, succeeded, at) || IsReported(w, step, id, succeeded, at) || (!succeeded && IsCancelled(w, step, id, at))
  }

  ghost predicate EndsAt(trace: seq<World>, steps: seq<Step>, f: nat, id: string, succeeded: bool, at: Time)
    requires |trace| == |steps| + 1
  {
    && f < |steps| && id in trace[f].db.commands && !trace[f].db.commands[id].state.Terminal()
    && Ends(trace[f], steps[f], id, succeeded, at)
  }

  lemma RecoversExactly(w: World, step: Step, id: string)
    requires Enabled(w, step) && step.Claims? && id in w.db.commands && id in step.picked
    ensures AcceptedRun(w.db, id).Some? <==> OwnRun(w.db, id) && w.db.commands[id].kind.RunNow? && !w.db.commands[id].state.Pending?
  {
  }

  ghost predicate EndsAsSaid(w: World, step: Step, id: string, row: Row) {
    && (row.state.Terminal() ==> row.completedAt.Some? && Ends(w, step, id, row.state.Succeeded?, row.completedAt.value))
    && (forall succeeded, at :: Ends(w, step, id, succeeded, at) ==>
          row.state == (if succeeded then Succeeded else Failed) && row.completedAt == Some(at))
  }

  lemma ClaimEnds(w: World, step: Step, id: string)
    requires Enabled(w, step) && step.Claims? && id in w.db.commands && !w.db.commands[id].state.Terminal()
    ensures id in After(w, step).db.commands && EndsAsSaid(w, step, id, After(w, step).db.commands[id])
  {
    if id in step.picked {
      RecoversExactly(w, step, id);
    }
  }

  lemma OtherEnds(w: World, step: Step, id: string)
    requires Enabled(w, step) && !step.Claims? && id in w.db.commands && !w.db.commands[id].state.Terminal()
    ensures id in After(w, step).db.commands && EndsAsSaid(w, step, id, After(w, step).db.commands[id])
  {
  }

  /** One step ends an open command exactly when it recovers it, brings its result or cancels it, and as that says. */
  lemma StepEnds(w: World, step: Step, id: string)
    requires Enabled(w, step) && id in w.db.commands && !w.db.commands[id].state.Terminal()
    ensures id in After(w, step).db.commands && EndsAsSaid(w, step, id, After(w, step).db.commands[id])
  {
    if step.Claims? {
      ClaimEnds(w, step, id);
    } else {
      OtherEnds(w, step, id);
    }
  }

  lemma {:induction false} EndedBySomeStep(trace: seq<World>, steps: seq<Step>, m: nat, id: string) returns (f: nat)
    requires Behavior(trace, steps) && m < |trace|
    requires id in trace[m].db.commands && trace[m].db.commands[id].state.Terminal()
    ensures f < m && id in trace[f].db.commands && !trace[f].db.commands[id].state.Terminal()
    ensures id in trace[f + 1].db.commands && trace[f + 1].db.commands[id] == trace[m].db.commands[id]
  {
    f := m - 1;
    assert Taken(trace, steps, f);
    StepMovesRows(trace[f], steps[f]);
    NewIsPending(trace[f], steps[f], id);
    if trace[f].db.commands[id].state.Terminal() {
      f := EndedBySomeStep(trace, steps, f, id);
    }
  }

  /**
   * However a command ended, one step ended it: a recovery from its stored run, its agent's own result or a
   * cancellation; and its outcome and its time are those of that step for ever.
   */
  lemma HowItEnds(trace: seq<World>, steps: seq<Step>, m: nat, id: string) returns (f: nat)
    requires Behavior(trace, steps) && m < |trace|
    requires id in trace[m].db.commands && trace[m].db.commands[id].state.Terminal()
    ensures f < m && trace[m].db.commands[id].completedAt.Some?
    ensures EndsAt(trace, steps, f, id, trace[m].db.commands[id].state.Succeeded?, trace[m].db.commands[id].completedAt.value)
  {
    f := EndedBySomeStep(trace, steps, m, id);
    assert Taken(trace, steps, f);
    StepEnds(trace[f], steps[f], id);
  }

  /** A command that ends SUCCEEDED was recovered from its own complete run or reported successful by its own agent. */
  lemma HowItSucceeds(trace: seq<World>, steps: seq<Step>, m: nat, id: string) returns (f: nat)
    requires Behavior(trace, steps) && m < |trace|
    requires id in trace[m].db.commands && trace[m].db.commands[id].state.Succeeded?
    ensures f < m && id in trace[f].db.commands && !trace[f].db.commands[id].state.Terminal()
    ensures exists at :: Recovers(trace[f], steps[f], id, true, at) || IsReported(trace[f], steps[f], id, true, at)
  {
    f := HowItEnds(trace, steps, m, id);
    var at := trace[m].db.commands[id].completedAt.value;
    assert Recovers(trace[f], steps[f], id, true, at) || IsReported(trace[f], steps[f], id, true, at);
  }

  /** The first result of its own agent that reaches an open command ends it, and as the result says. */
  lemma ResultDecides(trace: seq<World>, steps: seq<Step>, n: nat, m: nat, id: string, succeeded: bool, at: Time)
    requires Behavior(trace, steps) && n < m < |trace| && n < |steps|
    requires id in trace[n].db.commands && !trace[n].db.commands[id].state.Terminal()
    requires IsReported(trace[n], steps[n], id, succeeded, at)
    ensures id in trace[m].db.commands && trace[m].db.commands[id].completedAt == Some(at)
    ensures trace[m].db.commands[id].state == if succeeded then Succeeded else Failed
  {
    assert Taken(trace, steps, n);
    StepEnds(trace[n], steps[n], id);
    var next := n + 1;
    FinalForever(trace, steps, next, m, id);
  }

  // ---- Where a command comes from ---------------------------------------------------------------

  /** A user asks for the command of an enabled source that has an agent. */
  predicate RequestedAs(w: World, step: Step, id: string, row: Row) {
    && step == Requests(id, row.source, row.kind, row.requestedAt)
    && row.source in w.db.sources && w.db.sources[row.source].enabled && w.db.sources[row.source].owner == Some(row.agent)
  }

  lemma StepOrigin(w: World, step: Step, id: string)
    requires Enabled(w, step) && id in After(w, step).db.commands && id !in w.db.commands
    ensures var row := After(w, step).db.commands[id];
            && RequestedAs(w, step, id, row)
            && row == Row(row.agent, row.source, row.kind, Pending, row.requestedAt, None, None, None, None, None)
            && forall other :: other in w.db.commands && !w.db.commands[other].state.Terminal() ==>
                 (w.db.commands[other].source, w.db.commands[other].kind) != (row.source, row.kind)
  {
    if !step.Requests? {
      OnlyRequestsAdd(w, step);
    }
    assert Requestable(w.db, step.source, step.kind);
    forall other | other in w.db.commands && !w.db.commands[other].state.Terminal()
      ensures (w.db.commands[other].source, w.db.commands[other].kind) != (step.source, step.kind)
    {
      assert !ActiveFor(w.db, other, step.source, step.kind);
    }
  }

  /** Every command was requested, for the agent that owned its enabled source, and keeps what it was requested for. */
  lemma {:induction false} WhereItCameFrom(trace: seq<World>, steps: seq<Step>, m: nat, id: string) returns (f: nat)
    requires Behavior(trace, steps) && m < |trace| && id in trace[m].db.commands
    ensures f < m && f < |steps| && id !in trace[f].db.commands && RequestedAs(trace[f], steps[f], id, trace[m].db.commands[id])
  {
    assert m > 0;
    f := m - 1;
    assert Taken(trace, steps, f);
    if id in trace[f].db.commands {
      StepMovesRows(trace[f], steps[f]);
      f := WhereItCameFrom(trace, steps, f, id);
    } else {
      StepOrigin(trace[f], steps[f], id);
    }
  }

  /** A request for a source that has an agent and no such command open makes one. */
  lemma RequestMakes(w: World, id: string, source: string, kind: Kind, now: Time)
    requires FreshId(w, id) && source in w.db.sources && w.db.sources[source].enabled && w.db.sources[source].owner.Some?
    requires forall other :: other in w.db.commands && !w.db.commands[other].state.Terminal() ==>
               (w.db.commands[other].source, w.db.commands[other].kind) != (source, kind)
    ensures id in After(w, Requests(id, source, kind, now)).db.commands
  {
    assert Requestable(w.db, source, kind);
  }

  // ---- Leases -----------------------------------------------------------------------------------

  /** A status message that moves the command of its own agent on. */
  predicate Advances(w: World, step: Step, id: string) {
    && step.TakesStatus? && step.status.commandId == id && id in w.db.commands
    && var row := w.db.commands[id];
       && step.agent == row.agent && step.status.source == row.source && step.status.kind == row.kind
       && (row.state.Pending? || row.state.Dispatched? || row.state.Running? || (row.state.Reporting? && step.status.reporting))
  }

  /** What gives an agent five more minutes for a command: being handed it, a heartbeat that names it, or progress. */
  predicate Renews(w: World, step: Step, id: string, at: Time) {
    || (step.Claims? && id in step.picked && id in w.db.commands && !(OwnRun(w.db, id) && w.db.commands[id].kind.RunNow? && !w.db.commands[id].state.Pending?) && at == step.now)
    || (step.Beats? && id in step.active && id in w.db.commands && step.agent == w.db.commands[id].agent &&
        w.db.commands[id].state.InProgress() && at == step.now)
    || (Advances(w, step, id) && at == step.now)
  }

  lemma StepRenews(w: World, step: Step, id: string, at: Time)
    requires Enabled(w, step) && Renews(w, step, id, at)
    ensures id in After(w, step).db.commands && LeasedSince(After(w, step).db.commands[id], at)
    ensures After(w, step).db.commands[id].state.InProgress() && After(w, step).db.commands[id].progressAt == Some(at)
  {
    if step.Claims? {
      RecoversExactly(w, step, id);
    }
  }

  /** While time does not run backwards, nobody is handed a command within five minutes of its last renewal. */
  lemma RenewalHolds(trace: seq<World>, steps: seq<Step>, n: nat, m: nat, id: string, at: Time)
    requires Behavior(trace, steps) && n < m < |steps| && steps[m].Claims?
    requires Renews(trace[n], steps[n], id, at) && NotBefore(steps, n + 1, at)
    requires id in HandedOut(trace[m].db, Elements(steps[m].picked))
    ensures steps[m].now > at + 300
  {
    assert Taken(trace, steps, n) && Taken(trace, steps, m);
    StepRenews(trace[n], steps[n], id, at);
    LeaseLasts(trace, steps, n + 1, m, id, at);
    LeasedIsNotPicked(trace[m], steps[m], id, at);
  }

  /** A command in progress shows when it was last renewed. */
  ghost predicate RenewedAt(trace: seq<World>, steps: seq<Step>, f: nat, id: string, at: Time)
    requires |trace| == |steps| + 1
  {
    f < |steps| && Renews(trace[f], steps[f], id, at)
  }

  /** In progress after a step, the command was renewed by it, or was in progress before and shows the same time. */
  ghost predicate ShowsRenewal(w: World, step: Step, id: string, row: Row) {
    || (row.progressAt.Some? && Renews(w, step, id, row.progressAt.value))
    || (id in w.db.commands && w.db.commands[id].state.InProgress() && row.progressAt == w.db.commands[id].progressAt &&
        forall at :: !Renews(w, step, id, at))
  }

  lemma ClaimProgress(w: World, step: Step, id: string)
    requires Enabled(w, step) && step.Claims? && id in w.db.commands && After(w, step).db.commands[id].state.InProgress()
    ensures ShowsRenewal(w, step, id, After(w, step).db.commands[id])
  {
    if id in step.picked {
      RecoversExactly(w, step, id);
    }
  }

  lemma OtherProgress(w: World, step: Step, id: string)
    requires Enabled(w, step) && !step.Claims? && id in w.db.commands && id in After(w, step).db.commands
    requires After(w, step).db.commands[id].state.InProgress()
    ensures ShowsRenewal(w, step, id, After(w, step).db.commands[id])
  {
  }

  lemma StepProgress(w: World, step: Step, id: string)
    requires Enabled(w, step) && id in After(w, step).db.commands && After(w, step).db.commands[id].state.InProgress()
    ensures id in w.db.commands && ShowsRenewal(w, step, id, After(w, step).db.commands[id])
  {
    NewIsPending(w, step, id);
    if step.Claims? {
      ClaimProgress(w, step, id);
    } else {
      OtherProgress(w, step, id);
    }
  }

  /** A command in progress shows the time of its last renewal, after which none has come. */
  lemma {:induction false} LastRenewal(trace: seq<World>, steps: seq<Step>, m: nat, id: string) returns (f: nat)
    requires Behavior(trace, steps) && m < |trace|
    requires id in trace[m].db.commands && trace[m].db.commands[id].state.InProgress()
    ensures f < m && trace[m].db.commands[id].progressAt.Some?
    ensures RenewedAt(trace, steps, f, id, trace[m].db.commands[id].progressAt.value)
    ensures forall k: nat, at :: f < k < m ==> !RenewedAt(trace, steps, k, id, at)
  {
    assert m > 0;
    f := m - 1;
    assert Taken(trace, steps, f);
    StepProgress(trace[f], steps[f], id);
    var row := trace[m].db.commands[id];
    if !(row.progressAt.Some? && Renews(trace[f], steps[f], id, row.progressAt.value)) {
      f := LastRenewal(trace, steps, m - 1, id);
    }
  }

  /** An open command can be claimed by its agent exactly if its approved, enabled source is still the agent's and its lease is over. */
  lemma ClaimableExactly(w: World, agent: string, approved: set<string>, now: Time, id: string)
    requires id in w.db.commands
    ensures var row := w.db.commands[id];
            id in ClaimableIds(w.db, agent, approved, now) <==>
              && row.agent == agent && row.source in approved
              && row.source in w.db.sources && w.db.sources[row.source].enabled && w.db.sources[row.source].owner == Some(agent)
              && (row.state.Pending? || (row.state.InProgress() &&
                  (if row.progressAt.Some? then row.progressAt.value + 300 < now
                   else row.dispatchedAt.Some? && row.dispatchedAt.value + 300 < now)))
  {
  }

  /** A claim hands the command to its agent rather than settling it. */
  predicate IsHanded(w: World, step: Step, id: string) {
    && step.Claims? && id in step.picked && id in w.db.commands
    && !(OwnRun(w.db, id) && w.db.commands[id].kind.RunNow? && !w.db.commands[id].state.Pending?)
  }

  /** The time kept for a stage is that of the first message to reach it. */
  function FirstTime(kept: Option<Time>, reached: bool, at: Time): Option<Time> {
    if reached && kept.None? then Some(at) else kept
  }

  predicate MovesOnAs(w: World, step: Step, id: string, before: Row, after: Row) {
    if IsHanded(w, step, id) then
      && after.state.Dispatched? && after.dispatchedAt == Some(step.now)
      && (after.startedAt, after.reportingAt, after.completedAt) == (before.startedAt, before.reportingAt, before.completedAt)
    else if Advances(w, step, id) then
      && after.state == (if step.status.reporting then Reporting else Running)
      && after.startedAt == FirstTime(before.startedAt, !step.status.reporting, step.status.occurredAt)
      && after.reportingAt == FirstTime(before.reportingAt, step.status.reporting, step.status.occurredAt)
      && (after.dispatchedAt, after.completedAt) == (before.dispatchedAt, before.completedAt)
    else after == before.(progressAt := after.progressAt)
  }

  lemma ClaimMovesOn(w: World, step: Step, id: string)
    requires Enabled(w, step) && step.Claims? && id in w.db.commands && !w.db.commands[id].state.Terminal()
    ensures var after := After(w, step).db.commands[id]; !after.state.Terminal() ==> MovesOnAs(w, step, id, w.db.commands[id], after)
  {
    if id in step.picked {
      RecoversExactly(w, step, id);
    }
  }

  lemma StatusMovesOn(w: World, step: Step, id: string)
    requires step.TakesStatus? && id in w.db.commands && !w.db.commands[id].state.Terminal()
    ensures var after := After(w, step).db.commands[id]; MovesOnAs(w, step, id, w.db.commands[id], after)
  {
  }

  lemma OtherMovesOn(w: World, step: Step, id: string)
    requires Enabled(w, step) && !step.Claims? && !step.TakesStatus? && id in w.db.commands && !w.db.commands[id].state.Terminal()
    ensures id in After(w, step).db.commands
    ensures var after := After(w, step).db.commands[id]; !after.state.Terminal() ==> MovesOnAs(w, step, id, w.db.commands[id], after)
  {
  }

  /** What one step makes of a command that stays open: handed out anew, moved on by its agent, or as it was. */
  lemma StepMovesOn(w: World, step: Step, id: string)
    requires Enabled(w, step) && id in w.db.commands && !w.db.commands[id].state.Terminal()
    requires id in After(w, step).db.commands && !After(w, step).db.commands[id].state.Terminal()
    ensures MovesOnAs(w, step, id, w.db.commands[id], After(w, step).db.commands[id])
  {
    match step {
      case Claims(_, _, _, _) => ClaimMovesOn(w, step, id);
      case TakesStatus(_, _, _) => StatusMovesOn(w, step, id);
      case _ => OtherMovesOn(w, step, id);
    }
  }

  /** What the server answers a result: whose command it is, whether it is that command, whether it is still open. */
  lemma ResultAnswered(db: Database, agent: string, m: ResultMessage)
    ensures var reply, known := ResultReply(db, agent, m), m.commandId in db.commands && db.commands[m.commandId].agent == agent;
            && (reply.NotFound? <==> !known)
            && (reply.Mismatch? <==> known && (db.commands[m.commandId].source != m.source || db.commands[m.commandId].kind != m.kind))
            && (reply.AcceptedReply? <==> known && db.commands[m.commandId].source == m.source && db.commands[m.commandId].kind == m.kind &&
                                          !db.commands[m.commandId].state.Succeeded? && !db.commands[m.commandId].state.Failed?)
  {
  }

  /** And what it answers a status message: one that lags behind is a duplicate. */
  lemma StatusAnswered(w: World, agent: string, m: StatusMessage, now: Time)
    ensures var reply, known := StatusReply(w.db, agent, m), m.commandId in w.db.commands && w.db.commands[m.commandId].agent == agent;
            && (reply.NotFound? <==> !known)
            && (reply.Mismatch? <==> known && (w.db.commands[m.commandId].source != m.source || w.db.commands[m.commandId].kind != m.kind))
            && (reply.AcceptedReply? <==> Advances(w, TakesStatus(agent, m, now), m.commandId))
  {
  }

  // ---- Stored runs ------------------------------------------------------------------------------

  /** The batch is sound and its source enabled and the agent's own. */
  predicate Welcome(db: Database, agent: string, batch: Batch, valid: bool) {
    valid && batch.source in db.sources && db.sources[batch.source].enabled && db.sources[batch.source].owner == Some(agent)
  }

  /** A stored run stays until it is pruned, a welcome batch adds its own, and only an administrator changes the sources. */
  lemma WhatIsKept(w: World, step: Step, id: string)
    requires Enabled(w, step)
    ensures var t := After(w, step);
            && (id in t.db.runs <==>
                  (id in w.db.runs && !(step.Prunes? && id in step.ids)) ||
                  (step.Ingests? && step.batch.runId == id && Welcome(w.db, step.agent, step.batch, step.valid)))
            && (id in t.db.runs && id in w.db.runs ==> t.db.runs[id] == w.db.runs[id])
            && t.db.sources == if step.Administers? then step.sources else w.db.sources
  {
  }

  /** A batch is stored exactly if it is welcome and its run ID is unused; the sender hears so of a stored batch or its exact repeat. */
  lemma IngestDecides(w: World, agent: string, batch: Batch, valid: bool)
    ensures var t, reply := After(w, Ingests(agent, batch, valid)), IngestReplyTo(w.db, agent, batch, valid);
            && t.db.runs == (if Welcome(w.db, agent, batch, valid) && batch.runId !in w.db.runs
                             then w.db.runs[batch.runId := StoredRun(agent, batch)] else w.db.runs)
            && ((agent, batch) in t.confirmed <==>
                  (agent, batch) in w.confirmed ||
                  (Welcome(w.db, agent, batch, valid) && (batch.runId in w.db.runs ==> w.db.runs[batch.runId] == StoredRun(agent, batch))))
            && (reply.Rejected? <==> !Welcome(w.db, agent, batch, valid))
            && (reply.Conflict? <==> Welcome(w.db, agent, batch, valid) && batch.runId in w.db.runs &&
                                     w.db.runs[batch.runId] != StoredRun(agent, batch))
  {
  }

  // ---- Results and what caused them ---------------------------------------------------------------

  /** Every result on the network was reported. */
  lemma {:induction false} ResultWasReported(trace: seq<World>, steps: seq<Step>, m: nat, agent: string, result: ResultMessage) returns (k: nat)
    requires Behavior(trace, steps) && m < |trace| && (agent, result) in trace[m].results
    ensures k < m && steps[k] == Reports(agent, result)
  {
    assert m > 0;
    k := m - 1;
    assert Taken(trace, steps, k);
    if (agent, result) in trace[k].results {
      k := ResultWasReported(trace, steps, k, agent, result);
    }
  }

  /** A connection test that ends SUCCEEDED was reported so: there is nothing to recover it from. */
  lemma TestSuccessReported(trace: seq<World>, steps: seq<Step>, m: nat, id: string) returns (k: nat)
    requires Behavior(trace, steps) && m < |trace|
    requires id in trace[m].db.commands && trace[m].db.commands[id].state.Succeeded? && trace[m].db.commands[id].kind.TestConnection?
    ensures k < m && steps[k].Reports? && steps[k].agent == trace[m].db.commands[id].agent
    ensures steps[k].result.commandId == id && steps[k].result.kind.TestConnection? && steps[k].result.succeeded
  {
    var f := HowItSucceeds(trace, steps, m, id);
    FinalForever(trace, steps, f, m, id);
    assert Taken(trace, steps, f);
    var at :| Recovers(trace[f], steps[f], id, true, at) || IsReported(trace[f], steps[f], id, true, at);
    k := ResultWasReported(trace, steps, f, steps[f].agent, steps[f].result);
  }
}
