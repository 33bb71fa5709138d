/** The server's tables and the requests agents make of it, and the agent's execution of one command. */
module CommandServer {
  import opened Prelude
  import opened CommandProtocol

  class Server {
    var commands: map<string, Row>
    var runs: map<string, StoredRun>
    var sources: map<string, SourceRow>

    function Db(): Database
      reads this
    {
      Database(commands, runs, sources)
    }

    constructor (registered: map<string, SourceRow>)
      ensures Db() == Start(registered).db
    {
      commands, runs, sources := map[], map[], registered;
    }

    /** The earliest requested of the candidates. */
    method Oldest(candidates: set<string>) returns (oldest: string)
      requires candidates != {} && candidates <= commands.Keys
      ensures oldest in candidates
      ensures forall id :: id in candidates ==> commands[oldest].requestedAt <= commands[id].requestedAt
    {
      oldest :| oldest in candidates;
      var rest := candidates - {oldest};
      while rest != {}
        invariant rest <= candidates && oldest in candidates
        invariant forall id :: id in candidates - rest ==> commands[oldest].requestedAt <= commands[id].requestedAt
        decreases |rest|
      {
        var id :| id in rest;
        rest := rest - {id};
        if commands[id].requestedAt < commands[oldest].requestedAt {
          oldest := id;
        }
      }
    }

    method PickOldest(candidates: set<string>) returns (picked: seq<string>)
      requires candidates <= commands.Keys
      ensures OldestTen(Db(), candidates, picked)
    {
      picked := [];
      var rest := candidates;
      while rest != {} && |picked| < CLAIM_LIMIT
        invariant rest <= candidates <= commands.Keys && |picked| <= CLAIM_LIMIT && |picked| + |rest| == |candidates|
        invariant Distinct(picked) && forall id :: id in picked <==> id in candidates - rest
        invariant forall i :: 0 <= i < |picked| ==> picked[i] in commands
        invariant forall i, j :: 0 <= i < j < |picked| ==> commands[picked[i]].requestedAt <= commands[picked[j]].requestedAt
        invariant forall id, other :: id in picked && other in rest ==> commands[id].requestedAt <= commands[other].requestedAt
        decreases |rest|
      {
        var id := Oldest(rest);
        assert id !in picked;
        picked := picked + [id];
        rest := rest - {id};
      }
    }

    /** Settles one picked command from its stored run, or leases it to the agent. */
    method ClaimOne(id: string, now: Time, ghost before: Database) returns (handed: bool)
      requires id in commands && id in before.commands && commands[id] == before.commands[id] && runs == before.runs
      modifies this`commands
      ensures handed <==> AcceptedRun(before, id).None?
      ensures commands == old(commands)[id := ClaimedRow(before, id, now)]
    {
      var command := commands[id];
      if command.kind.RunNow? && !command.state.Pending? && id in runs {
        var run := runs[id];
        if run.batch.source == command.source && run.agent == command.agent {
          command := command.(state := if run.batch.complete then Succeeded else Failed);
          commands := commands[id := command.(completedAt := Some(now), progressAt := Some(now))];
          return false;
        }
      }
      command := command.(state := Dispatched);
      commands := commands[id := command.(dispatchedAt := Some(now), progressAt := Some(now))];
      return true;
    }

    /** Claims the oldest claimable commands of an agent; the ones handed out are listed in order of request. */
    method ClaimCommands(agent: string, approved: set<string>, now: Time) returns (handed: seq<string>, ghost picked: seq<string>)
      modifies this`commands
      ensures OldestTen(old(Db()), ClaimableIds(old(Db()), agent, approved, now), picked)
      ensures Db() == Claimed(old(Db()), Elements(picked), now)
      ensures Distinct(handed) && Elements(handed) == HandedOut(old(Db()), Elements(picked))
    {
      var candidates := PickOldest(ClaimableIds(Db(), agent, approved, now));
      picked := candidates;
      handed := ClaimEach(candidates, now);
    }

    method ClaimEach(candidates: seq<string>, now: Time) returns (handed: seq<string>)
      requires Distinct(candidates) && forall i :: 0 <= i < |candidates| ==> candidates[i] in commands
      modifies this`commands
      ensures commands == Claimed(old(Db()), Elements(candidates), now).commands
      ensures Distinct(handed) && Elements(handed) == HandedOut(old(Db()), Elements(candidates))
    {
      ghost var before := Db();
      handed := [];
      for i := 0 to |candidates|
        invariant commands == Claimed(before, Elements(candidates[..i]), now).commands
        invariant Distinct(handed) && forall id :: id in handed <==> id in candidates[..i] && AcceptedRun(before, id).None?
      {
        var id := candidates[i];
        ClaimedStep(before, candidates, i, now);
        assert candidates[..i + 1] == candidates[..i] + [id];
        assert id !in candidates[..i];
        var given := ClaimOne(id, now, before);
        if given {
          handed := handed + [id];
        }
      }
      assert candidates[..|candidates|] == candidates;
    }

    method PostResult(agent: string, result: ResultMessage, now: Time) returns (reply: Reply)
      modifies this`commands
      ensures reply == ResultReply(old(Db()), agent, result)
      ensures Db() == AfterResult(old(Db()), agent, result, now)
    {
      if result.commandId !in commands || commands[result.commandId].agent != agent {
        return NotFound;
      }
      var command := commands[result.commandId];
      if command.source != result.source || command.kind != result.kind {
        return Mismatch;
      }
      if command.state.Succeeded? || command.state.Failed? {
        return DuplicateReply;
      }
      command := command.(state := if result.succeeded then Succeeded else Failed);
      command := command.(completedAt := Some(result.completedAt), progressAt := Some(now));
      commands := commands[result.commandId := command];
      return AcceptedReply;
    }

    method PostStatus(agent: string, update: StatusMessage, now: Time) returns (reply: Reply)
      modifies this`commands
      ensures reply == StatusReply(old(Db()), agent, update)
      ensures Db() == AfterStatus(old(Db()), agent, update, now)
    {
      if update.commandId !in commands || commands[update.commandId].agent != agent {
        return NotFound;
      }
      var command := commands[update.commandId];
      if command.source != update.source || command.kind != update.kind {
        return Mismatch;
      }
      if command.state.Succeeded? || command.state.Failed? {
        return DuplicateReply;
      }
      if update.State().Rank() < command.state.Rank() {
        return DuplicateReply;
      }
      command := command.(state := update.State(), progressAt := Some(now));
      if !update.reporting && command.startedAt.None? {
        command := command.(startedAt := Some(update.occurredAt));
      }
      if update.reporting && command.reportingAt.None? {
        command := command.(reportingAt := Some(update.occurredAt));
      }
      commands := commands[update.commandId := command];
      return AcceptedReply;
    }

    /** Ingests a batch: a run ID already used is a duplicate for the same batch and a conflict for any other. */
    method IngestBatch(agent: string, batch: Batch, valid: bool) returns (reply: IngestReply)
      modifies this`runs
      ensures reply == IngestReplyTo(old(Db()), agent, batch, valid)
      ensures Db() == AfterIngest(old(Db()), agent, batch, valid)
    {
      if !valid {
        return Rejected;
      }
      if batch.source !in sources || !sources[batch.source].enabled {
        return Rejected;
      }
      if sources[batch.source].owner != Some(agent) {
        return Rejected;
      }
      if batch.runId in runs {
        var existing := runs[batch.runId];
        if existing.batch != batch || existing.agent != agent {
          return Conflict;
        }
        return DuplicateBatch;
      }
      runs := runs[batch.runId := StoredRun(agent, batch)];
      return Stored;
    }

    method Heartbeat(agent: string, active: set<string>, now: Time)
      modifies this`commands
      ensures Db() == AfterHeartbeat(old(Db()), agent, active, now)
    {
      var rest := active * commands.Keys;
      while rest != {}
        invariant rest <= active * commands.Keys && commands.Keys == old(commands).Keys
        invariant forall id :: id in commands ==>
                    commands[id] == if id in active - rest then Beat(old(commands)[id], agent, now) else old(commands)[id]
        decreases |rest|
      {
        var id :| id in rest;
        rest := rest - {id};
        if commands[id].agent == agent && commands[id].state.InProgress() {
          commands := commands[id := commands[id].(progressAt := Some(now))];
        }
      }
      assert commands == AfterHeartbeat(old(Db()), agent, active, now).commands;
    }

    /** Cancels what an agent has open, when its identity is revoked or replaced. */
    method CancelAgent(agent: string, now: Time)
      modifies this`commands
      ensures Db() == AfterCancel(old(Db()), agent, now)
    {
      var rest := commands.Keys;
      while rest != {}
        invariant rest <= commands.Keys == old(commands).Keys
        invariant forall id :: id in commands ==>
                    commands[id] == if id in rest then old(commands)[id] else AfterCancel(old(Db()), agent, now).commands[id]
        decreases |rest|
      {
        var id :| id in rest;
        rest := rest - {id};
        if commands[id].agent == agent && !commands[id].state.Terminal() {
          commands := commands[id := commands[id].(state := Failed, completedAt := Some(now))];
        }
      }
      assert commands == AfterCancel(old(Db()), agent, now).commands;
    }

    /** Cancels what is open for a source, when it is taken away from its agent. */
    method CancelSource(source: string, now: Time)
      modifies this`commands
      ensures Db() == AfterSourceCancel(old(Db()), source, now)
    {
      var rest := commands.Keys;
      while rest != {}
        invariant rest <= commands.Keys == old(commands).Keys
        invariant forall id :: id in commands ==>
                    commands[id] == if id in rest then old(commands)[id] else AfterSourceCancel(old(Db()), source, now).commands[id]
        decreases |rest|
      {
        var id :| id in rest;
        rest := rest - {id};
        if commands[id].source == source && !commands[id].state.Terminal() {
          commands := commands[id := commands[id].(state := Failed, completedAt := Some(now))];
        }
      }
      assert commands == AfterSourceCancel(old(Db()), source, now).commands;
    }

    method Administer(registered: map<string, SourceRow>)
      modifies this`sources
      ensures Db() == old(Db()).(sources := registered)
    {
      sources := registered;
    }

    method Prune(ids: set<string>)
      modifies this`runs
      ensures Db() == AfterPrune(old(Db()), ids)
    {
      runs := runs - ids;
    }

    /**
     * Queues a command for the source's agent unless one of its kind is already queued or running; `allowed`
     * covers the agent's own state: enabled, of the current protocol, able and permitted to collect.
     */
    method RequestCommand(id: string, source: string, kind: Kind, allowed: bool, now: Time) returns (created: bool)
      modifies this`commands
      ensures created <==> allowed && Requestable(old(Db()), source, kind)
      ensures created ==> Db() == AfterRequest(old(Db()), id, source, kind, now)
      ensures !created ==> Db() == old(Db())
    {
      if source !in sources || !sources[source].enabled || sources[source].owner.None? || !allowed {
        return false;
      }
      if exists other :: other in commands && ActiveFor(Db(), other, source, kind) {
        return false;
      }
      commands := commands[id := Row(sources[source].owner.value, source, kind, Pending, now, None, None, None, None, None)];
      return true;
    }
  }

  // ---- The agent's side -----------------------------------------------------------------------

  /** What the agent meets while it executes: its collector, a run ID of its own, the batch and the server's answer. */
  datatype Circumstances = Circumstances(found: bool, ownRunId: Option<string>, complete: bool, content: Json, encodable: bool,
                                         accepted: bool, tested: bool)

  datatype SyncResult = SyncResult(runId: string, submitted: Option<Batch>, confirmed: bool, succeeded: bool)

  /** Collects a source, under the requested run ID if there is one; nothing is submitted if that fails. */
  method Collect(c: Circumstances, source: string, requestedRunId: string) returns (runId: string, batch: Option<Batch>)
    ensures batch.Some? <==> c.found && (requestedRunId != "" || c.ownRunId.Some?) && c.encodable
    ensures batch.Some? ==> batch.value == Batch(runId, source, c.complete, c.content)
    ensures batch.Some? ==> if requestedRunId != "" then runId == requestedRunId else c.ownRunId == Some(runId)
  {
    if !c.found {
      return "", None;
    }
    runId := requestedRunId;
    if runId == "" {
      if c.ownRunId.None? {
        return "", None;
      }
      runId := c.ownRunId.value;
    }
    batch := Some(Batch(runId, source, c.complete, c.content));
    if !c.encodable {
      return runId, None;
    }
  }

  /** What a submission comes to: only a complete batch that was accepted succeeds. */
  predicate Concludes(batch: Batch, accepted: bool) {
    accepted && batch.complete
  }

  /** Collects a source and submits the batch. */
  method Execute(c: Circumstances, source: string, requestedRunId: string) returns (result: SyncResult)
    ensures result.succeeded ==> result.submitted.Some? && result.confirmed && result.submitted.value.complete
    ensures result.submitted.Some? ==>
              result.submitted.value == Batch(result.runId, source, c.complete, c.content) && result.confirmed == c.accepted
    ensures result.submitted.Some? && requestedRunId != "" ==> result.runId == requestedRunId
    ensures result.succeeded <==> c.found && (requestedRunId != "" || c.ownRunId.Some?) && c.encodable && c.accepted && c.complete
  {
    var runId, batch := Collect(c, source, requestedRunId);
    result := SyncResult(runId, batch, false, false);
    if batch.Some? {
      result := result.(confirmed := c.accepted, succeeded := Concludes(batch.value, c.accepted));
    }
  }

  datatype CommandKind = Tests | Runs | Unsupported

  /** The start of a command: it ends at once, or a batch goes out and the answer decides. */
  method StartCommand(c: Circumstances, id: string, source: string, kind: CommandKind)
    returns (ended: Option<bool>, submitted: Option<Batch>)
    requires id != ""
    ensures ended.Some? <==> submitted.None?
    ensures submitted.Some? <==> kind.Runs? && c.found && c.encodable
    ensures submitted.Some? ==> submitted.value == Batch(id, source, c.complete, c.content)
    ensures ended.Some? ==> (ended.value <==> kind.Tests? && c.found && c.tested)
  {
    if kind == Tests {
      if !c.found {
        return Some(false), None;
      }
      return Some(c.tested), None;
    }
    if kind != Runs {
      return Some(false), None;
    }
    var runId, batch := Collect(c, source, id);
    return if batch.None? then Some(false) else None, batch;
  }

  /** Executes a command from start to end. */
  method ExecuteCommand(c: Circumstances, id: string, source: string, kind: CommandKind)
    returns (succeeded: bool, submitted: Option<Batch>)
    requires id != ""
    ensures submitted.Some? ==> kind.Runs? && submitted.value.runId == id && submitted.value.source == source
    ensures kind.Runs? && succeeded ==> submitted.Some? && c.accepted && submitted.value.complete
    ensures kind.Runs? ==> (succeeded <==> c.found && c.encodable && c.accepted && c.complete)
    ensures kind.Tests? ==> (succeeded <==> c.found && c.tested)
    ensures kind.Unsupported? ==> !succeeded
  {
    var ended: Option<bool>;
    ended, submitted := StartCommand(c, id, source, kind);
    succeeded := if submitted.Some? then Concludes(submitted.value, c.accepted) else ended.value;
  }
}
