/**
 * The server, its agents and the network between them, driven by whatever happens next: the handlers and the
 * execution of commands compose to runs of the protocol.
 */
module CommandSystem {
  import opened Prelude
  import opened CommandProtocol
  import opened CommandServer
  import opened CommandOutcomes

  /** A command an agent is executing: its batch went out, and the answer decides. */
  datatype Execution = Execution(agent: string, id: string, batch: Batch)

  /** Every message ever sent, and what the agents have in hand. */
  datatype Network = Network(handouts: set<Handout>, batches: set<(string, Batch)>, confirmed: set<(string, Batch)>,
                             results: set<(string, ResultMessage)>, executing: set<Execution>)

  /** What may happen next; an offer that makes no sense at the moment changes nothing. */
  datatype Offer =
    | Asks(id: string, source: string, kind: Kind, allowed: bool, now: Time)
    | Polls(agent: string, approved: set<string>, now: Time)
    | Beating(agent: string, active: set<string>, now: Time)
    | Begins(agent: string, id: string, c: Circumstances, at: Time)
    | Hears(execution: Execution, answered: bool, at: Time)
    | Collects(agent: string, source: string, c: Circumstances)
    | Restarts(agent: string)
    | BatchArrives(agent: string, batch: Batch, valid: bool)
    | ResultArrives(agent: string, result: ResultMessage, now: Time)
    | StatusArrives(agent: string, status: StatusMessage, now: Time)
    | AgentGoes(agent: string, now: Time)
    | SourceGoes(source: string, now: Time)
    | Reassigns(sources: map<string, SourceRow>)
    | Expires(ids: set<string>)

  lemma BehaviorExtends(trace: seq<World>, steps: seq<Step>, step: Step)
    requires Behavior(trace, steps) && Enabled(trace[|steps|], step)
    ensures Behavior(trace + [After(trace[|steps|], step)], steps + [step])
  {
    var longer, more := trace + [After(trace[|steps|], step)], steps + [step];
    forall n: nat | n < |more|
      ensures Taken(longer, more, n)
    {
      if n < |steps| {
        assert Taken(trace, steps, n);
      }
    }
  }

  /** An execution is of a command its agent was given, under that command's ID. */
  predicate Grounded(net: Network) {
    forall e :: e in net.executing ==> Handout(e.agent, e.id) in net.handouts && (e.agent, e.batch) in net.batches && e.batch.runId == e.id
  }

  function CommandKindOf(kind: Kind): CommandKind {
    if kind.RunNow? then Runs else Tests
  }

  /** Whether the offer means anything at the moment: a message must have been sent, a command given, an ID be new. */
  predicate Sensible(w: World, net: Network, offer: Offer) {
    match offer
    case Asks(id, _, _, allowed, _) => FreshId(w, id) && allowed
    case Begins(agent, id, _, _) => Handout(agent, id) in w.handouts && id != ""
    case Hears(execution, _, _) => execution in net.executing
    case Collects(_, _, c) => c.found && c.encodable && c.ownRunId.Some? && c.ownRunId.value !in w.db.commands
    case Restarts(_) => false
    case BatchArrives(agent, batch, _) => (agent, batch) in w.batches
    case ResultArrives(agent, result, _) => (agent, result) in w.results
    case _ => true
  }

  /** The step that a sensible offer leads to. */
  predicate LeadsTo(w: World, offer: Offer, step: Step) {
    match offer
    case Asks(id, source, kind, _, now) => step == Requests(id, source, kind, now)
    case Polls(agent, approved, now) => step.Claims? && step == Claims(agent, approved, step.picked, now)
    case Beating(agent, active, now) => step == Beats(agent, active, now)
    case Begins(agent, id, c, at) =>
      && id in w.db.commands
      && var row := w.db.commands[id];
         step == if row.kind.RunNow? && c.found && c.encodable then Submits(agent, Batch(id, row.source, c.complete, c.content))
                 else Reports(agent, ResultMessage(id, row.source, row.kind, row.kind.TestConnection? && c.found && c.tested, at))
    case Hears(execution, answered, at) =>
      var agent, id, batch := execution.agent, execution.id, execution.batch;
      && id in w.db.commands
      && var row := w.db.commands[id];
         step == Reports(agent, ResultMessage(id, row.source, row.kind, answered && (agent, batch) in w.confirmed && batch.complete, at))
    case Collects(agent, source, c) =>
      c.ownRunId.Some? && step == Submits(agent, Batch(c.ownRunId.value, source, c.complete, c.content))
    case Restarts(_) => false
    case BatchArrives(agent, batch, valid) => step == Ingests(agent, batch, valid)
    case ResultArrives(agent, result, now) => step == TakesResult(agent, result, now)
    case StatusArrives(agent, status, now) => step == TakesStatus(agent, status, now)
    case AgentGoes(agent, now) => step == Cancels(agent, now)
    case SourceGoes(source, now) => step == CancelsSource(source, now)
    case Reassigns(sources) => step == Administers(sources)
    case Expires(ids) => step == Prunes(ids)
  }

  /** The executions under way after an offer. */
  function InHand(w: World, net: Network, offer: Offer): set<Execution> {
    match offer
    case Begins(agent, id, c, _) =>
      if Sensible(w, net, offer) && id in w.db.commands && w.db.commands[id].kind.RunNow? && c.found && c.encodable
      then net.executing + {Execution(agent, id, Batch(id, w.db.commands[id].source, c.complete, c.content))} else net.executing
    case Hears(execution, _, _) => net.executing - {execution}
    case Restarts(agent) => set e | e in net.executing && e.agent != agent
    case _ => net.executing
  }

  /** An offer is answered by its step, or not at all if it makes no sense. */
  ghost predicate Answered(w: World, net: Network, offer: Offer, before: seq<Step>, after: seq<Step>) {
    if Sensible(w, net, offer) then exists step :: after == before + [step] && LeadsTo(w, offer, step) else after == before
  }

  class System {
    const server: Server
    var net: Network
    ghost var pruned: set<string>
    ghost var trace: seq<World>
    ghost var steps: seq<Step>

    ghost function Now(): World
      reads this, server
    {
      World(server.Db(), net.handouts, net.batches, net.confirmed, net.results, pruned)
    }

    /** Everything so far was a run of the protocol, and this is where it led. */
    ghost predicate Valid()
      reads this, server
    {
      Behavior(trace, steps) && trace[|steps|] == Now() && Grounded(net)
    }

    constructor (registered: map<string, SourceRow>)
      ensures Valid() && fresh(server) && trace == [Start(registered)]
    {
      server := new Server(registered);
      net := Network({}, {}, {}, {}, {});
      pruned := {};
      steps := [];
      new;
      trace := [Now()];
    }

    /** The step that the handlers have just taken. */
    ghost method Take(step: Step)
      requires Behavior(trace, steps) && Enabled(trace[|steps|], step)
      requires After(trace[|steps|], step) == Now() && Grounded(net)
      modifies this`trace, this`steps
      ensures Valid() && old(trace) <= trace && steps == old(steps) + [step]
    {
      BehaviorExtends(trace, steps, step);
      trace, steps := trace + [After(trace[|steps|], step)], steps + [step];
    }

    method Ask(id: string, source: string, kind: Kind, allowed: bool, now: Time)
      requires Valid()
      modifies this, server
      ensures Valid() && old(trace) <= trace
      ensures Answered(old(Now()), old(net), Asks(id, source, kind, allowed, now), old(steps), steps)
      ensures net.executing == InHand(old(Now()), old(net), Asks(id, source, kind, allowed, now))
    {
      // IDs are made at random, so one that is in use does not come up.
      if id in server.commands || exists m :: m in net.batches && m.1.runId == id {
        return;
      }
      var created := server.RequestCommand(id, source, kind, allowed, now);
      if allowed {
        Take(Requests(id, source, kind, now));
      }
    }

    method Poll(agent: string, approved: set<string>, now: Time)
      requires Valid()
      modifies this, server
      ensures Valid() && old(trace) <= trace
      ensures Answered(old(Now()), old(net), Polls(agent, approved, now), old(steps), steps)
      ensures net.executing == InHand(old(Now()), old(net), Polls(agent, approved, now))
    {
      ghost var before := Now();
      ghost var picked;
      var handed;
      handed, picked := server.ClaimCommands(agent, approved, now);
      net := net.(handouts := net.handouts + set id | id in handed :: Handout(agent, id));
      Take(Claims(agent, approved, picked, now));
    }

    /** An agent starts a command it was given, perhaps again. */
    method Begin(agent: string, id: string, c: Circumstances, at: Time)
      requires Valid()
      modifies this, server
      ensures Valid() && old(trace) <= trace
      ensures Answered(old(Now()), old(net), Begins(agent, id, c, at), old(steps), steps)
      ensures net.executing == InHand(old(Now()), old(net), Begins(agent, id, c, at))
    {
      if Handout(agent, id) !in net.handouts || id == "" {
        return;
      }
      GivenCommands(trace, steps);
      var row := server.commands[id];
      var ended, submitted := StartCommand(c, id, row.source, CommandKindOf(row.kind));
      if submitted.Some? {
        net := net.(batches := net.batches + {(agent, submitted.value)}, executing := net.executing + {Execution(agent, id, submitted.value)});
        Take(Submits(agent, submitted.value));
      } else {
        Report(agent, ResultMessage(id, row.source, row.kind, ended.value, at));
      }
    }

    method Report(agent: string, result: ResultMessage)
      requires Valid() && MayReport(Now(), agent, result)
      modifies this
      ensures Valid() && old(trace) <= trace && steps == old(steps) + [Reports(agent, result)]
      ensures net == old(net).(results := old(net).results + {(agent, result)})
    {
      net := net.(results := net.results + {(agent, result)});
      Take(Reports(agent, result));
    }

    /** The submission of an execution ends: confirmed by the server, refused, or never answered. */
    method Hear(execution: Execution, answered: bool, at: Time)
      requires Valid()
      modifies this, server
      ensures Valid() && old(trace) <= trace
      ensures Answered(old(Now()), old(net), Hears(execution, answered, at), old(steps), steps)
      ensures net.executing == InHand(old(Now()), old(net), Hears(execution, answered, at))
    {
      if execution !in net.executing {
        return;
      }
      GivenCommands(trace, steps);
      var agent, id, batch := execution.agent, execution.id, execution.batch;
      var accepted := answered && (agent, batch) in net.confirmed;
      var row := server.commands[id];
      net := net.(executing := net.executing - {execution});
      Report(agent, ResultMessage(id, row.source, row.kind, Concludes(batch, accepted), at));
    }

    /** An agent collects on its schedule, under a run ID of its own. */
    method CollectOwn(agent: string, source: string, c: Circumstances)
      requires Valid()
      modifies this, server
      ensures Valid() && old(trace) <= trace
      ensures Answered(old(Now()), old(net), Collects(agent, source, c), old(steps), steps)
      ensures net.executing == InHand(old(Now()), old(net), Collects(agent, source, c))
    {
      var runId, batch := Collect(c, source, "");
      if batch.None? || runId in server.commands {
        return;
      }
      net := net.(batches := net.batches + {(agent, batch.value)});
      Take(Submits(agent, batch.value));
    }

    method ReceiveBatch(agent: string, batch: Batch, valid: bool)
      requires Valid()
      modifies this, server
      ensures Valid() && old(trace) <= trace
      ensures Answered(old(Now()), old(net), BatchArrives(agent, batch, valid), old(steps), steps)
      ensures net.executing == InHand(old(Now()), old(net), BatchArrives(agent, batch, valid))
    {
      if (agent, batch) !in net.batches {
        return;
      }
      var reply := server.IngestBatch(agent, batch, valid);
      if reply == Stored || reply == DuplicateBatch {
        net := net.(confirmed := net.confirmed + {(agent, batch)});
      }
      Take(Ingests(agent, batch, valid));
    }

    method ReceiveResult(agent: string, result: ResultMessage, now: Time)
      requires Valid()
      modifies this, server
      ensures Valid() && old(trace) <= trace
      ensures Answered(old(Now()), old(net), ResultArrives(agent, result, now), old(steps), steps)
      ensures net.executing == InHand(old(Now()), old(net), ResultArrives(agent, result, now))
    {
      if (agent, result) !in net.results {
        return;
      }
      var reply := server.PostResult(agent, result, now);
      Take(TakesResult(agent, result, now));
    }

    method Manage(offer: Offer)
      requires Valid()
      requires offer.Beating? || offer.StatusArrives? || offer.Reassigns? || offer.Expires?
      modifies this, server
      ensures Valid() && old(trace) <= trace
      ensures Answered(old(Now()), old(net), offer, old(steps), steps)
      ensures net.executing == InHand(old(Now()), old(net), offer)
    {
      match offer {
        case Beating(agent, active, now) =>
          server.Heartbeat(agent, active, now);
          Take(Beats(agent, active, now));
        case StatusArrives(agent, status, now) =>
          var reply := server.PostStatus(agent, status, now);
          Take(TakesStatus(agent, status, now));
        case Reassigns(sources) =>
          server.Administer(sources);
          Take(Administers(sources));
        case Expires(ids) =>
          server.Prune(ids);
          pruned := pruned + ids;
          Take(Prunes(ids));
        case _ =>
      }
    }

    method Cancel(offer: Offer)
      requires Valid() && (offer.AgentGoes? || offer.SourceGoes?)
      modifies this, server
      ensures Valid() && old(trace) <= trace
      ensures Answered(old(Now()), old(net), offer, old(steps), steps)
      ensures net.executing == InHand(old(Now()), old(net), offer)
    {
      match offer {
        case AgentGoes(agent, now) =>
          server.CancelAgent(agent, now);
          Take(Cancels(agent, now));
        case SourceGoes(source, now) =>
          server.CancelSource(source, now);
          Take(CancelsSource(source, now));
        case _ =>
      }
    }

    method Handle(offer: Offer)
      requires Valid()
      modifies this, server
      ensures Valid() && old(trace) <= trace
      ensures Answered(old(Now()), old(net), offer, old(steps), steps)
      ensures net.executing == InHand(old(Now()), old(net), offer)
    {
      match offer {
        case Asks(id, source, kind, allowed, now) => Ask(id, source, kind, allowed, now);
        case Polls(agent, approved, now) => Poll(agent, approved, now);
        case Begins(agent, id, c, at) => Begin(agent, id, c, at);
        case Hears(execution, answered, at) => Hear(execution, answered, at);
        case Collects(agent, source, c) => CollectOwn(agent, source, c);
        case Restarts(agent) => net := net.(executing := set e | e in net.executing && e.agent != agent);
        case BatchArrives(agent, batch, valid) => ReceiveBatch(agent, batch, valid);
        case ResultArrives(agent, result, now) => ReceiveResult(agent, result, now);
        case AgentGoes(_, _) => Cancel(offer);
        case SourceGoes(_, _) => Cancel(offer);
        case _ => Manage(offer);
      }
    }
  }

  /** Every command an agent was given is in the table. */
  lemma GivenCommands(trace: seq<World>, steps: seq<Step>)
    requires Behavior(trace, steps)
    ensures forall h :: h in trace[|steps|].handouts ==> h.id in trace[|steps|].db.commands
  {
    BehaviorSound(trace, steps, |steps|);
    assert CommandProtocol.Holds(trace[|steps|], HandoutsReal);
  }

  lemma {:induction false} NothingPruned(trace: seq<World>, steps: seq<Step>, n: nat)
    requires Behavior(trace, steps) && n < |trace|
    requires forall m :: 0 <= m < |steps| ==> !steps[m].Prunes?
    ensures trace[n].pruned == {}
  {
    if n > 0 {
      NothingPruned(trace, steps, n - 1);
      assert Taken(trace, steps, n - 1);
    }
  }

  predicate AnyExpires(offers: seq<Offer>) {
    exists i :: 0 <= i < |offers| && offers[i].Expires?
  }

  /** The agent began the command with its collector found and the connection tested. */
  predicate TestPassed(offers: seq<Offer>, agent: string, id: string) {
    exists i :: 0 <= i < |offers| && offers[i].Begins? && offers[i].agent == agent && offers[i].id == id && offers[i].c.found && offers[i].c.tested
  }

  /** Why an agent reports this: the run could not begin, the test came out so, or so did the submission it waited for. */
  predicate Explains(w: World, offer: Offer, agent: string, r: ResultMessage) {
    || (offer.Begins? && offer.agent == agent && offer.id == r.commandId && offer.at == r.completedAt &&
        if r.kind.RunNow? then !r.succeeded && !(offer.c.found && offer.c.encodable) else r.succeeded == (offer.c.found && offer.c.tested))
    || (offer.Hears? && offer.execution.agent == agent && offer.execution.id == r.commandId && offer.at == r.completedAt && r.kind.RunNow? &&
        r.succeeded == (offer.answered && offer.execution.batch.complete && (agent, offer.execution.batch) in w.confirmed))
  }

  /** Where a batch comes from: a run_now command its agent began, for that command's source, or its own schedule. */
  predicate Provides(w: World, offer: Offer, agent: string, batch: Batch) {
    || (offer.Begins? && offer.agent == agent && offer.id == batch.runId && offer.c.found && offer.c.encodable &&
        offer.id in w.db.commands && w.db.commands[offer.id].kind.RunNow? && w.db.commands[offer.id].source == batch.source &&
        offer.c.complete == batch.complete && offer.c.content == batch.content)
    || (offer.Collects? && offer.agent == agent && offer.source == batch.source && offer.c.ownRunId == Some(batch.runId) &&
        offer.c.found && offer.c.encodable && offer.c.complete == batch.complete && offer.c.content == batch.content)
  }

  /** The step needs no explanation, or the offer explains it. */
  predicate Accounts(w: World, offer: Offer, step: Step) {
    && (step.Reports? ==> Explains(w, offer, step.agent, step.result))
    && (step.Submits? ==> Provides(w, offer, step.agent, step.batch))
  }

  ghost predicate AccountedAt(offers: seq<Offer>, w: World, step: Step) {
    exists i :: 0 <= i < |offers| && Accounts(w, offers[i], step)
  }

  /** Everything an agent ever sent is accounted for by what was offered. */
  ghost predicate Accounted(offers: seq<Offer>, trace: seq<World>, steps: seq<Step>) {
    |trace| == |steps| + 1 && forall m :: 0 <= m < |steps| ==> AccountedAt(offers, trace[m], steps[m])
  }

  /** What an agent waits to hear about is a run_now command. */
  lemma ExecutingRuns(trace: seq<World>, steps: seq<Step>, net: Network, e: Execution)
    requires Behavior(trace, steps) && Grounded(net) && e in net.executing
    requires trace[|steps|].handouts == net.handouts && trace[|steps|].batches == net.batches
    ensures e.id in trace[|steps|].db.commands && trace[|steps|].db.commands[e.id].kind.RunNow?
  {
    var w := trace[|steps|];
    BehaviorSound(trace, steps, |steps|);
    GivenCommands(trace, steps);
    assert CommandProtocol.Holds(w, BatchesCaused);
    assert Handout(e.agent, e.id).id in w.db.commands;
    assert MaySubmit(w, (e.agent, e.batch).0, (e.agent, e.batch).1);
  }

  lemma LeadsAccountably(trace: seq<World>, steps: seq<Step>, net: Network, offer: Offer, step: Step)
    requires Behavior(trace, steps) && Grounded(net)
    requires trace[|steps|].handouts == net.handouts && trace[|steps|].batches == net.batches
    requires Sensible(trace[|steps|], net, offer) && LeadsTo(trace[|steps|], offer, step)
    ensures Accounts(trace[|steps|], offer, step)
  {
    if offer.Hears? {
      ExecutingRuns(trace, steps, net, offer.execution);
    }
  }

  lemma AccountedStays(offers: seq<Offer>, offer: Offer, w: World, step: Step)
    requires AccountedAt(offers, w, step)
    ensures AccountedAt(offers + [offer], w, step)
  {
    var i :| 0 <= i < |offers| && Accounts(w, offers[i], step);
    assert (offers + [offer])[i] == offers[i];
  }

  lemma StaysAccounted(trace: seq<World>, steps: seq<Step>, net: Network, offers: seq<Offer>, offer: Offer, later: seq<World>, more: seq<Step>)
    requires Behavior(trace, steps) && Grounded(net) && Accounted(offers, trace, steps)
    requires trace[|steps|].handouts == net.handouts && trace[|steps|].batches == net.batches
    requires Answered(trace[|steps|], net, offer, steps, more) && trace <= later && |later| == |more| + 1
    ensures Accounted(offers + [offer], later, more)
  {
    forall m | 0 <= m < |more|
      ensures AccountedAt(offers + [offer], later[m], more[m])
    {
      assert later[m] == trace[m];
      if m < |steps| {
        assert more[m] == steps[m];
        AccountedStays(offers, offer, trace[m], steps[m]);
      } else {
        LeadsAccountably(trace, steps, net, offer, more[m]);
        assert (offers + [offer])[|offers|] == offer;
      }
    }
  }

  /** A connection test that ended SUCCEEDED. */
  predicate TestSucceeded(db: Database, id: string) {
    id in db.commands && db.commands[id].kind.TestConnection? && db.commands[id].state.Succeeded?
  }

  lemma SuccessfulTestPassed(trace: seq<World>, steps: seq<Step>, offers: seq<Offer>, id: string)
    requires Behavior(trace, steps) && Accounted(offers, trace, steps) && TestSucceeded(trace[|steps|].db, id)
    ensures TestPassed(offers, trace[|steps|].db.commands[id].agent, id)
  {
    var k := TestSuccessReported(trace, steps, |steps|, id);
    assert AccountedAt(offers, trace[k], steps[k]);
  }

  /**
   * Whatever is offered, the server and its agents together make a run of the protocol that ends in the
   * server's tables; so while nothing is pruned, a run_now command that ended SUCCEEDED has its complete run in them,
   * and a connection test that ended SUCCEEDED was begun by its agent with the collector found and the test passed;
   * and everything the agents sent is accounted for by what they were offered.
   */
  method RunSystem(registered: map<string, SourceRow>, offers: seq<Offer>)
    returns (server: Server, ghost trace: seq<World>, ghost steps: seq<Step>)
    ensures Behavior(trace, steps) && trace[0] == Start(registered) && trace[|steps|].db == server.Db()
    ensures !AnyExpires(offers) ==> forall id :: id in server.commands ==> Backed(server.Db(), id)
    ensures forall id :: TestSucceeded(server.Db(), id) ==> TestPassed(offers, server.commands[id].agent, id)
    ensures Accounted(offers, trace, steps)
  {
    var system := new System(registered);
    for i := 0 to |offers|
      invariant system.Valid() && fresh(system) && fresh(system.server)
      invariant system.trace[0] == Start(registered)
      invariant !AnyExpires(offers) ==> forall m :: 0 <= m < |system.steps| ==> !system.steps[m].Prunes?
      invariant Accounted(offers[..i], system.trace, system.steps)
    {
      ghost var before, steps', net' := system.trace, system.steps, system.net;
      system.Handle(offers[i]);
      StaysAccounted(before, steps', net', offers[..i], offers[i], system.trace, system.steps);
      assert offers[..i] + [offers[i]] == offers[..i + 1];
    }
    assert offers[..|offers|] == offers;
    server, trace, steps := system.server, system.trace, system.steps;
    BehaviorSound(trace, steps, |steps|);
    assert CommandProtocol.Holds(trace[|steps|], SuccessBacked);
    if !AnyExpires(offers) {
      NothingPruned(trace, steps, |steps|);
    }
    forall id | TestSucceeded(server.Db(), id)
      ensures TestPassed(offers, server.commands[id].agent, id)
    {
      SuccessfulTestPassed(trace, steps, offers, id);
    }
  }
}
