/**
 * The command protocol between NetBox and its agents: requesting, claiming under a lease, progress, results and
 * ingest, over a network that may lose, repeat and delay every message, and agents that may restart.
 */
module CommandProtocol {
  import opened Prelude

  /** Seconds. */
  type Time = int

  const LEASE: Time := 300
  const CLAIM_LIMIT := 10

  datatype Kind = TestConnection | RunNow

  datatype CommandState = Pending | Dispatched | Running | Reporting | Succeeded | Failed {
    predicate Terminal() {
      Succeeded? || Failed?
    }

    predicate InProgress() {
      Dispatched? || Running? || Reporting?
    }

    function Rank(): nat
      requires !Terminal()
    {
      match this
      case Pending => 0
      case Dispatched => 1
      case Running => 2
      case Reporting => 3
    }
  }

  datatype Row = Row(agent: string, source: string, kind: Kind, state: CommandState, requestedAt: Time,
                     dispatchedAt: Option<Time>, progressAt: Option<Time>, startedAt: Option<Time>,
                     reportingAt: Option<Time>, completedAt: Option<Time>)

  /** A batch of observations; `content` stands for everything its digest covers beyond the other fields. */
  datatype Batch = Batch(runId: string, source: string, complete: bool, content: Json)

  datatype StoredRun = StoredRun(agent: string, batch: Batch)

  datatype SourceRow = SourceRow(enabled: bool, owner: Option<string>)

  datatype Database = Database(commands: map<string, Row>, runs: map<string, StoredRun>, sources: map<string, SourceRow>)

  datatype ResultMessage = ResultMessage(commandId: string, source: string, kind: Kind, succeeded: bool, completedAt: Time)

  datatype StatusMessage = StatusMessage(commandId: string, source: string, kind: Kind, reporting: bool, occurredAt: Time) {
    function State(): CommandState {
      if reporting then Reporting else Running
    }
  }

  datatype Reply = NotFound | Mismatch | DuplicateReply | AcceptedReply

  datatype IngestReply = Rejected | Conflict | DuplicateBatch | Stored

  // ---- What the server does -------------------------------------------------------------------

  predicate Leased(row: Row, now: Time) {
    row.state.InProgress() &&
    match row.progressAt
    case Some(at) => at >= now - LEASE
    case None => row.dispatchedAt.None? || row.dispatchedAt.value >= now - LEASE
  }

  /** A command an agent may be given: its own, of an approved source still assigned to it, and not under a lease. */
  predicate Claimable(db: Database, agent: string, approved: set<string>, now: Time, id: string) {
    && id in db.commands
    && var row := db.commands[id];
       && row.agent == agent && row.source in approved && !row.state.Terminal() && !Leased(row, now)
       && row.source in db.sources && db.sources[row.source] == SourceRow(true, Some(agent))
  }

  function ClaimableIds(db: Database, agent: string, approved: set<string>, now: Time): set<string> {
    set id | id in db.commands && Claimable(db, agent, approved, now, id)
  }

  /** The stored run of a dispatched run_now command, if its batch arrived. */
  function AcceptedRun(db: Database, id: string): Option<StoredRun>
    requires id in db.commands
  {
    var row := db.commands[id];
    if row.kind.RunNow? && !row.state.Pending? && id in db.runs && db.runs[id].batch.source == row.source && db.runs[id].agent == row.agent
    then Some(db.runs[id]) else None
  }

  /** A claimed command: recovered from its stored run, or handed out. */
  function ClaimedRow(db: Database, id: string, now: Time): Row
    requires id in db.commands
  {
    var row := db.commands[id];
    match AcceptedRun(db, id)
    case Some(run) => row.(state := if run.batch.complete then Succeeded else Failed, completedAt := Some(now), progressAt := Some(now))
    case None => row.(state := Dispatched, dispatchedAt := Some(now), progressAt := Some(now))
  }

  /** The database after a claim of the picked commands. */
  function Claimed(db: Database, picked: set<string>, now: Time): Database {
    db.(commands := map id | id in db.commands :: if id in picked then ClaimedRow(db, id, now) else db.commands[id])
  }

  function HandedOut(db: Database, picked: set<string>): set<string> {
    set id | id in picked && id in db.commands && AcceptedRun(db, id).None?
  }

  /** The oldest claimable commands, at most ten of them. */
  ghost predicate OldestTen(db: Database, candidates: set<string>, picked: seq<string>) {
    && Distinct(picked)
    && (forall id :: id in picked ==> id in candidates)
    && (forall id :: id in candidates ==> id in db.commands)
    && |picked| == (if |candidates| <= 10 then |candidates| else 10)
    && (forall i, j :: 0 <= i < j < |picked| ==> db.commands[picked[i]].requestedAt <= db.commands[picked[j]].requestedAt)
    && (forall id, other :: id in picked && other in candidates && other !in picked ==>
          db.commands[id].requestedAt <= db.commands[other].requestedAt)
  }

  function ResultReply(db: Database, agent: string, m: ResultMessage): Reply {
    if m.commandId !in db.commands || db.commands[m.commandId].agent != agent then NotFound
    else
      var row := db.commands[m.commandId];
      if row.source != m.source || row.kind != m.kind then Mismatch
      else if row.state.Terminal() then DuplicateReply
      else AcceptedReply
  }

  function AfterResult(db: Database, agent: string, m: ResultMessage, now: Time): Database {
    if ResultReply(db, agent, m) != AcceptedReply then db
    else
      var row := db.commands[m.commandId];
      db.(commands := db.commands[m.commandId := row.(state := if m.succeeded then Succeeded else Failed,
                                                      completedAt := Some(m.completedAt), progressAt := Some(now))])
  }

  function StatusReply(db: Database, agent: string, m: StatusMessage): Reply {
    if m.commandId !in db.commands || db.commands[m.commandId].agent != agent then NotFound
    else
      var row := db.commands[m.commandId];
      if row.source != m.source || row.kind != m.kind then Mismatch
      else if row.state.Terminal() || m.State().Rank() < row.state.Rank() then DuplicateReply
      else AcceptedReply
  }

  function Progressed(row: Row, m: StatusMessage, now: Time): Row {
    row.(state := m.State(), progressAt := Some(now),
         startedAt := if !m.reporting && row.startedAt.None? then Some(m.occurredAt) else row.startedAt,
         reportingAt := if m.reporting && row.reportingAt.None? then Some(m.occurredAt) else row.reportingAt)
  }

  function AfterStatus(db: Database, agent: string, m: StatusMessage, now: Time): Database {
    if StatusReply(db, agent, m) != AcceptedReply then db
    else db.(commands := db.commands[m.commandId := Progressed(db.commands[m.commandId], m, now)])
  }

  function Beat(row: Row, agent: string, now: Time): Row {
    if row.agent == agent && row.state.InProgress() then row.(progressAt := Some(now)) else row
  }

  /** A heartbeat renews the lease of the commands the agent says it is busy with. */
  function AfterHeartbeat(db: Database, agent: string, active: set<string>, now: Time): Database {
    db.(commands := map id | id in db.commands :: if id in active then Beat(db.commands[id], agent, now) else db.commands[id])
  }

  /** Revoking or replacing an agent's identity cancels everything it has open. */
  function AfterCancel(db: Database, agent: string, now: Time): Database {
    db.(commands := map id | id in db.commands ::
      if db.commands[id].agent == agent && !db.commands[id].state.Terminal()
      then db.commands[id].(state := Failed, completedAt := Some(now)) else db.commands[id])
  }

  /** Taking a source away from its agent cancels what is open for it. */
  function AfterSourceCancel(db: Database, source: string, now: Time): Database {
    db.(commands := map id | id in db.commands ::
      if db.commands[id].source == source && !db.commands[id].state.Terminal()
      then db.commands[id].(state := Failed, completedAt := Some(now)) else db.commands[id])
  }

  /** Retention deletes stored runs. */
  function AfterPrune(db: Database, ids: set<string>): Database {
    db.(runs := db.runs - ids)
  }

  /** Whether the batch passes every check before its run ID is looked up; `valid` covers the provider and size checks. */
  predicate Admissible(db: Database, agent: string, batch: Batch, valid: bool) {
    valid && batch.source in db.sources && db.sources[batch.source] == SourceRow(true, Some(agent))
  }

  function IngestReplyTo(db: Database, agent: string, batch: Batch, valid: bool): IngestReply {
    if !Admissible(db, agent, batch, valid) then Rejected
    else if batch.runId !in db.runs then Stored
    else if db.runs[batch.runId] == StoredRun(agent, batch) then DuplicateBatch
    else Conflict
  }

  function AfterIngest(db: Database, agent: string, batch: Batch, valid: bool): Database {
    if IngestReplyTo(db, agent, batch, valid).Stored? then db.(runs := db.runs[batch.runId := StoredRun(agent, batch)]) else db
  }

  predicate ActiveFor(db: Database, id: string, source: string, kind: Kind) {
    id in db.commands && db.commands[id].source == source && db.commands[id].kind == kind && !db.commands[id].state.Terminal()
  }

  /** Whether a user may request the command: an enabled source with an agent, and no such command under way. */
  predicate Requestable(db: Database, source: string, kind: Kind) {
    && source in db.sources && db.sources[source].enabled && db.sources[source].owner.Some?
    && forall id :: id in db.commands ==> !ActiveFor(db, id, source, kind)
  }

  function AfterRequest(db: Database, id: string, source: string, kind: Kind, now: Time): Database
    requires Requestable(db, source, kind)
  {
    db.(commands := db.commands[id := Row(db.sources[source].owner.value, source, kind, Pending, now, None, None, None, None, None)])
  }

  // ---- The world ------------------------------------------------------------------------------

  datatype Handout = Handout(agent: string, id: string)

  /**
   * The database and every message ever sent: commands handed to agents, batches submitted, batches whose
   * acceptance the server confirmed, and results reported. Messages stay, so they may arrive late and twice.
   * `pruned` are the run IDs that retention ever deleted.
   */
  datatype World = World(db: Database, handouts: set<Handout>, batches: set<(string, Batch)>, confirmed: set<(string, Batch)>,
                         results: set<(string, ResultMessage)>, pruned: set<string>)

  datatype Step =
    | Requests(id: string, source: string, kind: Kind, now: Time)
    | Claims(agent: string, approved: set<string>, picked: seq<string>, now: Time)
    | Beats(agent: string, active: set<string>, now: Time)
    | Submits(agent: string, batch: Batch)
    | Ingests(agent: string, batch: Batch, valid: bool)
    | Reports(agent: string, result: ResultMessage)
    | TakesResult(agent: string, result: ResultMessage, now: Time)
    | TakesStatus(agent: string, status: StatusMessage, now: Time)
    | Cancels(agent: string, now: Time)
    | CancelsSource(source: string, now: Time)
    | Prunes(ids: set<string>)
    | Administers(sources: map<string, SourceRow>)

  /** Command IDs are fresh when they are made: neither a command nor a submitted run has them. */
  predicate FreshId(w: World, id: string) {
    id !in w.db.commands && forall m :: m in w.batches ==> m.1.runId != id
  }

  /** An agent uses a command's ID as run ID only for a run_now command it was given, on that command's source. */
  predicate MaySubmit(w: World, agent: string, batch: Batch) {
    batch.runId in w.db.commands ==>
      && Handout(agent, batch.runId) in w.handouts && w.db.commands[batch.runId].kind.RunNow?
      && batch.source == w.db.commands[batch.runId].source
  }

  /** A run_now command is reported successful only after its complete batch was confirmed; failure may be reported any time. */
  ghost predicate MayReport(w: World, agent: string, r: ResultMessage) {
    && Handout(agent, r.commandId) in w.handouts
    && (r.succeeded && r.kind.RunNow? ==> exists b :: (agent, b) in w.confirmed && b.runId == r.commandId && b.complete)
  }

  function After(w: World, step: Step): World {
    match step
    case Requests(id, source, kind, now) =>
      if Requestable(w.db, source, kind) then w.(db := AfterRequest(w.db, id, source, kind, now)) else w
    case Claims(agent, _, picked, now) =>
      w.(db := Claimed(w.db, Elements(picked), now),
         handouts := w.handouts + (set id | id in HandedOut(w.db, Elements(picked)) :: Handout(agent, id)))
    case Beats(agent, active, now) => w.(db := AfterHeartbeat(w.db, agent, active, now))
    case Submits(agent, batch) => w.(batches := w.batches + {(agent, batch)})
    case Ingests(agent, batch, valid) =>
      var reply := IngestReplyTo(w.db, agent, batch, valid);
      w.(db := AfterIngest(w.db, agent, batch, valid),
         confirmed := if reply.Stored? || reply.DuplicateBatch? then w.confirmed + {(agent, batch)} else w.confirmed)
    case Reports(agent, result) => w.(results := w.results + {(agent, result)})
    case TakesResult(agent, result, now) => w.(db := AfterResult(w.db, agent, result, now))
    case TakesStatus(agent, status, now) => w.(db := AfterStatus(w.db, agent, status, now))
    case Cancels(agent, now) => w.(db := AfterCancel(w.db, agent, now))
    case CancelsSource(source, now) => w.(db := AfterSourceCancel(w.db, source, now))
    case Prunes(ids) => w.(db := AfterPrune(w.db, ids), pruned := w.pruned + ids)
    case Administers(sources) => w.(db := w.db.(sources := sources))
  }

  ghost predicate Enabled(w: World, step: Step) {
    match step
    case Requests(id, _, _, _) => FreshId(w, id)
    case Claims(agent, approved, picked, now) => OldestTen(w.db, ClaimableIds(w.db, agent, approved, now), picked)
    case Submits(agent, batch) => MaySubmit(w, agent, batch)
    case Ingests(agent, batch, _) => (agent, batch) in w.batches
    case Reports(agent, result) => MayReport(w, agent, result)
    case TakesResult(agent, result, _) => (agent, result) in w.results
    case _ => true
  }

  function Start(sources: map<string, SourceRow>): World {
    World(Database(map[], map[], sources), {}, {}, {}, {}, {})
  }

  // ---- Invariants -----------------------------------------------------------------------------

  datatype Clause = HandoutsReal | BatchesCaused | RunsCaused | ConfirmedStored | ResultsCaused | SuccessBacked | OneActive

  ghost predicate Holds(w: World, clause: Clause) {
    var db := w.db;
    match clause
    case HandoutsReal =>
      forall h :: h in w.handouts ==> h.id in db.commands && db.commands[h.id].agent == h.agent && !db.commands[h.id].state.Pending?
    case BatchesCaused => forall m :: m in w.batches ==> MaySubmit(w, m.0, m.1)
    case RunsCaused => forall id :: id in db.runs ==> (db.runs[id].agent, db.runs[id].batch) in w.batches && db.runs[id].batch.runId == id
    case ConfirmedStored =>
      forall m :: m in w.confirmed && m.1.runId !in w.pruned ==> m.1.runId in db.runs && db.runs[m.1.runId] == StoredRun(m.0, m.1)
    case ResultsCaused => forall m :: m in w.results ==> MayReport(w, m.0, m.1)
    case SuccessBacked => forall id :: id in db.commands && id !in w.pruned ==> Backed(db, id)
    case OneActive => forall a, b, source, kind :: ActiveFor(db, a, source, kind) && ActiveFor(db, b, source, kind) ==> a == b
  }

  /** A successful run_now command has its own complete run stored. */
  predicate Backed(db: Database, id: string)
    requires id in db.commands
  {
    db.commands[id].state.Succeeded? && db.commands[id].kind.RunNow? ==>
      id in db.runs && db.runs[id].batch.complete && db.runs[id].agent == db.commands[id].agent
  }

  ghost predicate Sound(w: World) {
    forall clause :: Holds(w, clause)
  }

  lemma StartSound(sources: map<string, SourceRow>)
    ensures Sound(Start(sources))
  {
    forall clause
      ensures Holds(Start(sources), clause)
    {
      match clause {
        case HandoutsReal =>
        case BatchesCaused =>
        case RunsCaused =>
        case ConfirmedStored =>
        case ResultsCaused =>
        case SuccessBacked =>
        case OneActive =>
      }
    }
  }

  /** What a step of the server may do to the rows it keeps: terminal rows are final and nothing becomes pending again. */
  predicate RowMoves(before: Row, after: Row) {
    && (before.agent, before.source, before.kind) == (after.agent, after.source, after.kind)
    && before.requestedAt == after.requestedAt
    && (before.state.Terminal() ==> after == before)
    && (after.state.Pending? ==> before.state.Pending?)
  }

  ghost predicate RowsMove(before: Database, after: Database) {
    forall id :: id in before.commands ==> id in after.commands && RowMoves(before.commands[id], after.commands[id])
  }

  /** Only pruning removes a run, and nothing changes one. */
  ghost predicate RunsStay(before: World, after: World) {
    && before.pruned <= after.pruned
    && forall id :: id in before.db.runs && id !in after.pruned ==> id in after.db.runs && after.db.runs[id] == before.db.runs[id]
  }

  lemma StepMovesRows(w: World, step: Step)
    requires Enabled(w, step)
    ensures RowsMove(w.db, After(w, step).db) && RunsStay(w, After(w, step))
  {
    match step {
      case Requests(id, source, kind, now) =>
      case Claims(agent, approved, picked, now) => ClaimMovesRows(w.db, agent, approved, picked, now);
      case Beats(agent, active, now) =>
      case Submits(agent, batch) =>
      case Ingests(agent, batch, valid) =>
      case Reports(agent, result) =>
      case TakesResult(agent, result, now) =>
      case TakesStatus(agent, status, now) =>
      case Cancels(agent, now) =>
      case CancelsSource(source, now) =>
      case Prunes(ids) =>
      case Administers(sources) =>
    }
  }

  lemma ClaimMovesRows(db: Database, agent: string, approved: set<string>, picked: seq<string>, now: Time)
    requires OldestTen(db, ClaimableIds(db, agent, approved, now), picked)
    ensures RowsMove(db, Claimed(db, Elements(picked), now))
  {
    forall id | id in db.commands && id in picked
      ensures Claimable(db, agent, approved, now, id)
    {
    }
  }

  /** Claiming one more command. */
  lemma ClaimedStep(db: Database, picked: seq<string>, i: nat, now: Time)
    requires i < |picked| && picked[i] in db.commands
    ensures Claimed(db, Elements(picked[..i + 1]), now).commands ==
            Claimed(db, Elements(picked[..i]), now).commands[picked[i] := ClaimedRow(db, picked[i], now)]
  {
  }

  /** No step makes new commands but a request. */
  lemma OnlyRequestsAdd(w: World, step: Step)
    requires !step.Requests?
    ensures After(w, step).db.commands.Keys == w.db.commands.Keys
  {
  }

  lemma KeepsHandouts(w: World, step: Step)
    requires Sound(w) && Enabled(w, step)
    ensures Holds(After(w, step), HandoutsReal)
  {
    assert Holds(w, HandoutsReal);
    StepMovesRows(w, step);
    if step.Claims? {
      ClaimedAreOwn(w.db, step.agent, step.approved, step.picked, step.now);
    }
  }

  lemma ClaimedAreOwn(db: Database, agent: string, approved: set<string>, picked: seq<string>, now: Time)
    requires OldestTen(db, ClaimableIds(db, agent, approved, now), picked)
    ensures forall id :: id in HandedOut(db, Elements(picked)) ==>
              && id in db.commands && db.commands[id].agent == agent
              && Claimed(db, Elements(picked), now).commands[id].state.Dispatched?
  {
    forall id | id in HandedOut(db, Elements(picked))
      ensures Claimable(db, agent, approved, now, id)
    {
    }
  }

  lemma KeepsBatches(w: World, step: Step)
    requires Sound(w) && Enabled(w, step)
    ensures Holds(After(w, step), BatchesCaused)
  {
    assert Holds(w, BatchesCaused);
    StepMovesRows(w, step);
    var t := After(w, step);
    forall m | m in t.batches
      ensures MaySubmit(t, m.0, m.1)
    {
      assert MaySubmit(w, m.0, m.1);
      if m.1.runId in t.db.commands && m.1.runId !in w.db.commands {
        assert step.Requests? by {
          if !step.Requests? {
            OnlyRequestsAdd(w, step);
          }
        }
      }
    }
  }

  lemma KeepsResults(w: World, step: Step)
    requires Sound(w) && Enabled(w, step)
    ensures Holds(After(w, step), ResultsCaused)
  {
    assert Holds(w, ResultsCaused);
    var t := After(w, step);
    forall m | m in t.results
      ensures MayReport(t, m.0, m.1)
    {
      assert MayReport(w, m.0, m.1);
      assert w.handouts <= t.handouts;
      assert w.confirmed <= t.confirmed;
    }
  }

  lemma ReportedIsBacked(w: World, step: Step)
    requires Sound(w) && Enabled(w, step) && step.TakesResult?
    requires ResultReply(w.db, step.agent, step.result).AcceptedReply? && step.result.succeeded && step.result.kind.RunNow?
    ensures var id := step.result.commandId;
            id !in w.pruned ==> id in w.db.runs && w.db.runs[id].batch.complete && w.db.runs[id].agent == step.agent
  {
    assert Holds(w, ResultsCaused) && Holds(w, ConfirmedStored);
    assert MayReport(w, step.agent, step.result);
    var b :| (step.agent, b) in w.confirmed && b.runId == step.result.commandId && b.complete;
    assert b.runId !in w.pruned ==> w.db.runs[(step.agent, b).1.runId] == StoredRun((step.agent, b).0, (step.agent, b).1);
  }

  lemma KeepsBacking(w: World, step: Step)
    requires Sound(w) && Enabled(w, step)
    ensures Holds(After(w, step), SuccessBacked)
  {
    assert Holds(w, SuccessBacked);
    StepMovesRows(w, step);
    var t := After(w, step);
    if step.TakesResult? && ResultReply(w.db, step.agent, step.result).AcceptedReply? && step.result.succeeded && step.result.kind.RunNow? {
      ReportedIsBacked(w, step);
    }
    forall id | id in t.db.commands && id !in t.pruned
      ensures Backed(t.db, id)
    {
      if id in w.db.commands {
        assert Backed(w.db, id);
      }
    }
  }

  lemma KeepsOneActive(w: World, step: Step)
    requires Sound(w) && Enabled(w, step)
    ensures Holds(After(w, step), OneActive)
  {
    assert Holds(w, OneActive);
    StepMovesRows(w, step);
    var t := After(w, step);
    forall id, source, kind | ActiveFor(t.db, id, source, kind) && id in w.db.commands
      ensures ActiveFor(w.db, id, source, kind)
    {
      assert RowMoves(w.db.commands[id], t.db.commands[id]);
    }
    if !step.Requests? {
      OnlyRequestsAdd(w, step);
    }
  }

  /** Every step keeps every invariant. */
  lemma StepSound(w: World, step: Step)
    requires Sound(w) && Enabled(w, step)
    ensures Sound(After(w, step))
  {
    StepMovesRows(w, step);
    forall clause
      ensures Holds(After(w, step), clause)
    {
      assert Holds(w, clause);
      match clause {
        case HandoutsReal => KeepsHandouts(w, step);
        case BatchesCaused => KeepsBatches(w, step);
        case RunsCaused =>
        case ConfirmedStored =>
        case ResultsCaused => KeepsResults(w, step);
        case SuccessBacked => KeepsBacking(w, step);
        case OneActive => KeepsOneActive(w, step);
      }
    }
  }

  // ---- Whole runs -----------------------------------------------------------------------------

  /** A run of the protocol: any enabled steps, in any order. */
  ghost predicate Behavior(trace: seq<World>, steps: seq<Step>) {
    && |trace| == |steps| + 1 && trace[0] == Start(trace[0].db.sources)
    && forall n :: 0 <= n < |steps| ==> Taken(trace, steps, n)
  }

  ghost predicate Taken(trace: seq<World>, steps: seq<Step>, n: nat)
    requires |trace| == |steps| + 1 && n < |steps|
  {
    Enabled(trace[n], steps[n]) && trace[n + 1] == After(trace[n], steps[n])
  }

  lemma {:induction false} BehaviorSound(trace: seq<World>, steps: seq<Step>, n: nat)
    requires Behavior(trace, steps) && n < |trace|
    ensures Sound(trace[n])
  {
    if n == 0 {
      StartSound(trace[0].db.sources);
    } else {
      BehaviorSound(trace, steps, n - 1);
      assert Taken(trace, steps, n - 1);
      StepSound(trace[n - 1], steps[n - 1]);
    }
  }

  /** Between the two worlds the command did not leave a final state nor become pending, and its run stayed unless pruned. */
  predicate Final(before: World, after: World, id: string) {
    && (id in before.db.commands ==> id in after.db.commands && RowMoves(before.db.commands[id], after.db.commands[id]))
    && (id in before.pruned ==> id in after.pruned)
    && (id in before.db.runs && id !in after.pruned ==> id in after.db.runs && after.db.runs[id] == before.db.runs[id])
  }

  lemma FinalChain(a: World, b: World, c: World, id: string)
    requires Final(a, b, id) && Final(b, c, id)
    ensures Final(a, c, id)
  {
  }

  lemma StepFinal(trace: seq<World>, steps: seq<Step>, n: nat, id: string)
    requires Behavior(trace, steps) && n < |steps|
    ensures Final(trace[n], trace[n + 1], id)
  {
    assert Taken(trace, steps, n);
    StepMovesRows(trace[n], steps[n]);
  }

  /** A finished command never changes, no command becomes pending again, and a stored run never changes until it is pruned. */
  lemma {:induction false} FinalForever(trace: seq<World>, steps: seq<Step>, n: nat, m: nat, id: string)
    requires Behavior(trace, steps) && n <= m < |trace|
    ensures Final(trace[n], trace[m], id)
    decreases m
  {
    if n < m {
      FinalForever(trace, steps, n, m - 1, id);
      StepFinal(trace, steps, m - 1, id);
      FinalChain(trace[n], trace[m - 1], trace[m], id);
    }
  }

  /** Until pruning, at most one run is ever stored for a command: any two ever stored under its ID are the same run. */
  lemma OneRunEver(trace: seq<World>, steps: seq<Step>, n: nat, m: nat, id: string)
    requires Behavior(trace, steps) && n <= m < |trace|
    requires id in trace[n].db.runs && id in trace[m].db.runs && id !in trace[m].pruned
    ensures trace[n].db.runs[id] == trace[m].db.runs[id]
  {
    FinalForever(trace, steps, n, m, id);
  }

  lemma StoredIsAccepted(w: World, id: string)
    requires Sound(w) && id in w.db.runs && id in w.db.commands
    ensures AcceptedRun(w.db, id) == Some(w.db.runs[id])
  {
    var run := w.db.runs[id];
    assert Holds(w, RunsCaused) && Holds(w, BatchesCaused) && Holds(w, HandoutsReal);
    assert MaySubmit(w, (run.agent, run.batch).0, (run.agent, run.batch).1);
    assert Handout(run.agent, id) in w.handouts;
  }

  /** While a command's run stays stored, no claim hands the command out, whatever leases expire and agents restart. */
  lemma NeverHandedOutAgain(trace: seq<World>, steps: seq<Step>, n: nat, m: nat, id: string)
    requires Behavior(trace, steps) && n <= m < |steps| && steps[m].Claims?
    requires id in trace[n].db.runs && id in trace[n].db.commands && id !in trace[m].pruned
    ensures id !in HandedOut(trace[m].db, Elements(steps[m].picked))
  {
    BehaviorSound(trace, steps, m);
    FinalForever(trace, steps, n, m, id);
    StoredIsAccepted(trace[m], id);
  }

  /** Every run stored under a command's ID came from that command's agent and source, after it was handed out. */
  lemma RunsAnswerCommands(trace: seq<World>, steps: seq<Step>, n: nat, id: string)
    requires Behavior(trace, steps) && n < |trace|
    requires id in trace[n].db.runs && id in trace[n].db.commands
    ensures var row, run := trace[n].db.commands[id], trace[n].db.runs[id];
            && row.kind.RunNow? && !row.state.Pending? && Handout(row.agent, id) in trace[n].handouts
            && run.agent == row.agent && run.batch.source == row.source && run.batch.runId == id
  {
    BehaviorSound(trace, steps, n);
    var w := trace[n];
    var run := w.db.runs[id];
    assert Holds(w, RunsCaused) && Holds(w, BatchesCaused) && Holds(w, HandoutsReal);
    assert MaySubmit(w, (run.agent, run.batch).0, (run.agent, run.batch).1);
    assert Handout(run.agent, id) in w.handouts;
  }

  /** A command that ends SUCCEEDED, by report or by recovery, has its complete run stored, and it stays stored until pruned. */
  lemma SuccessIsStored(trace: seq<World>, steps: seq<Step>, n: nat, m: nat, id: string)
    requires Behavior(trace, steps) && n <= m < |trace|
    requires id in trace[n].db.commands && trace[n].db.commands[id].state.Succeeded? && trace[n].db.commands[id].kind.RunNow?
    ensures id !in trace[m].pruned ==>
              id in trace[m].db.runs && trace[m].db.runs[id].batch.complete && trace[m].db.runs[id].agent == trace[n].db.commands[id].agent
    ensures id in trace[m].db.commands && trace[m].db.commands[id] == trace[n].db.commands[id]
  {
    BehaviorSound(trace, steps, n);
    assert Holds(trace[n], SuccessBacked);
    FinalForever(trace, steps, n, m, id);
    assert id !in trace[n].pruned ==> Backed(trace[n].db, id);
  }

  /** At most one command of a kind is under way for a source. */
  lemma OneUnderWay(trace: seq<World>, steps: seq<Step>, n: nat, a: string, b: string, source: string, kind: Kind)
    requires Behavior(trace, steps) && n < |trace|
    requires ActiveFor(trace[n].db, a, source, kind) && ActiveFor(trace[n].db, b, source, kind)
    ensures a == b
  {
    BehaviorSound(trace, steps, n);
    assert Holds(trace[n], OneActive);
  }

  // ---- Leases ---------------------------------------------------------------------------------

  function TimeOf(step: Step): Option<Time> {
    match step
    case Requests(_, _, _, now) => Some(now)
    case Claims(_, _, _, now) => Some(now)
    case Beats(_, _, now) => Some(now)
    case TakesResult(_, _, now) => Some(now)
    case TakesStatus(_, _, now) => Some(now)
    case Cancels(_, now) => Some(now)
    case CancelsSource(_, now) => Some(now)
    case _ => None
  }

  /** No step after step n happens earlier than it. */
  ghost predicate NotBefore(steps: seq<Step>, n: nat, now: Time) {
    forall m :: n <= m < |steps| && TimeOf(steps[m]).Some? ==> TimeOf(steps[m]).value >= now
  }

  /** A row whose lease runs at least from the given time, or that is done. */
  predicate LeasedSince(row: Row, now: Time) {
    row.state.Terminal() || (row.state.InProgress() && row.progressAt.Some? && row.progressAt.value >= now)
  }

  lemma StepKeepsLease(w: World, step: Step, id: string, now: Time)
    requires Enabled(w, step) && id in w.db.commands && LeasedSince(w.db.commands[id], now)
    requires TimeOf(step).Some? ==> TimeOf(step).value >= now
    ensures id in After(w, step).db.commands && LeasedSince(After(w, step).db.commands[id], now)
  {
  }

  lemma {:induction false} LeaseLasts(trace: seq<World>, steps: seq<Step>, n: nat, m: nat, id: string, now: Time)
    requires Behavior(trace, steps) && n <= m < |trace| && NotBefore(steps, n, now)
    requires id in trace[n].db.commands && LeasedSince(trace[n].db.commands[id], now)
    ensures id in trace[m].db.commands && LeasedSince(trace[m].db.commands[id], now)
    decreases m
  {
    if n < m {
      LeaseLasts(trace, steps, n, m - 1, id, now);
      assert Taken(trace, steps, m - 1);
      StepKeepsLease(trace[m - 1], steps[m - 1], id, now);
    }
  }

  lemma HandedIsLeased(db: Database, picked: set<string>, now: Time, id: string)
    requires id in HandedOut(db, picked)
    ensures id in Claimed(db, picked, now).commands && LeasedSince(Claimed(db, picked, now).commands[id], now)
  {
  }

  lemma LeasedIsNotPicked(w: World, step: Step, id: string, now: Time)
    requires Enabled(w, step) && step.Claims? && id in w.db.commands && LeasedSince(w.db.commands[id], now)
    requires id in HandedOut(w.db, Elements(step.picked))
    ensures step.now > now + 300
  {
  }

  /** While time does not run backwards, a command is handed out again only after its lease of five minutes ran out. */
  lemma HandoutsApart(trace: seq<World>, steps: seq<Step>, n: nat, m: nat, id: string)
    requires Behavior(trace, steps) && n < m < |steps| && steps[n].Claims? && steps[m].Claims?
    requires id in HandedOut(trace[n].db, Elements(steps[n].picked)) && id in HandedOut(trace[m].db, Elements(steps[m].picked))
    requires NotBefore(steps, n + 1, steps[n].now)
    ensures steps[m].now > steps[n].now + 300
  {
    assert Taken(trace, steps, n) && Taken(trace, steps, m);
    HandedIsLeased(trace[n].db, Elements(steps[n].picked), steps[n].now, id);
    LeaseLasts(trace, steps, n + 1, m, id, steps[n].now);
    LeasedIsNotPicked(trace[m], steps[m], id, steps[n].now);
  }

  // ---- Failure says less ----------------------------------------------------------------------

  predicate HasComplete(db: Database, id: string) {
    id in db.runs && db.runs[id].batch.complete
  }

  /** A claim settles the command from a run that is not complete. */
  predicate RecoversFailure(w: World, step: Step, id: string) {
    step.Claims? && id in step.picked && id in w.db.commands && AcceptedRun(w.db, id).Some? && !AcceptedRun(w.db, id).value.batch.complete
  }

  predicate ReportsFailure(w: World, step: Step, id: string) {
    && step.TakesResult? && step.result.commandId == id && !step.result.succeeded
    && ResultReply(w.db, step.agent, step.result).AcceptedReply?
  }

  /** The command's agent or source is taken away. */
  predicate CancelsCommand(w: World, step: Step, id: string) {
    && id in w.db.commands
    && ((step.Cancels? && w.db.commands[id].agent == step.agent) || (step.CancelsSource? && w.db.commands[id].source == step.source))
  }

  /** The step that ended the command in failure. */
  ghost predicate FailsAt(trace: seq<World>, steps: seq<Step>, f: nat, id: string)
    requires |trace| == |steps| + 1
  {
    && f < |steps| && id in trace[f].db.commands && !trace[f].db.commands[id].state.Terminal()
    && id in trace[f + 1].db.commands && trace[f + 1].db.commands[id].state.Failed?
  }

  /** Step k stores a complete batch under the command's ID. */
  ghost predicate AdmitsAt(trace: seq<World>, steps: seq<Step>, k: nat, id: string)
    requires |trace| == |steps| + 1
  {
    && k < |steps| && steps[k].Ingests? && steps[k].batch.runId == id && steps[k].batch.complete
    && IngestReplyTo(trace[k].db, steps[k].agent, steps[k].batch, steps[k].valid).Stored?
  }

  /** Only a recovery, a report or a cancellation ends a command in failure. */
  lemma HowItFails(w: World, step: Step, id: string)
    requires Enabled(w, step) && id in w.db.commands && !w.db.commands[id].state.Terminal()
    requires After(w, step).db.commands[id].state.Failed?
    ensures RecoversFailure(w, step, id) || ReportsFailure(w, step, id) || CancelsCommand(w, step, id)
  {
  }

  lemma NewIsPending(w: World, step: Step, id: string)
    requires id in After(w, step).db.commands && !After(w, step).db.commands[id].state.Pending?
    ensures id in w.db.commands
  {
    if !step.Requests? {
      OnlyRequestsAdd(w, step);
    }
  }

  lemma {:induction false} FailedBySomeStep(trace: seq<World>, steps: seq<Step>, m: nat, id: string) returns (f: nat)
    requires Behavior(trace, steps) && m < |trace|
    requires id in trace[m].db.commands && trace[m].db.commands[id].state.Failed?
    ensures f < m && FailsAt(trace, steps, f, id)
  {
    f := m - 1;
    assert Taken(trace, steps, f);
    StepMovesRows(trace[f], steps[f]);
    NewIsPending(trace[f], steps[f], id);
    if trace[f].db.commands[id].state.Terminal() {
      f := FailedBySomeStep(trace, steps, f, id);
    }
  }

  lemma {:induction false} StoredBySomeStep(trace: seq<World>, steps: seq<Step>, m: nat, id: string) returns (k: nat)
    requires Behavior(trace, steps) && m < |trace| && HasComplete(trace[m].db, id)
    ensures k < m && AdmitsAt(trace, steps, k, id)
  {
    assert m > 0;
    k := m - 1;
    assert Taken(trace, steps, k);
    if HasComplete(trace[k].db, id) {
      k := StoredBySomeStep(trace, steps, k, id);
    } else {
      RunsGrow(trace[k], steps[k], id);
    }
  }

  /** A run that a step brings, the step ingested. */
  lemma RunsGrow(w: World, step: Step, id: string)
    requires HasComplete(After(w, step).db, id) && !HasComplete(w.db, id)
    ensures step.Ingests? && step.batch.runId == id && step.batch.complete
    ensures IngestReplyTo(w.db, step.agent, step.batch, step.valid).Stored?
  {
  }

  lemma AdmittedIsStored(trace: seq<World>, steps: seq<Step>, k: nat, m: nat, id: string)
    requires Behavior(trace, steps) && k < m < |trace| && AdmitsAt(trace, steps, k, id) && id !in trace[m].pruned
    ensures HasComplete(trace[m].db, id)
  {
    assert Taken(trace, steps, k);
    var next := k + 1;
    assert HasComplete(trace[next].db, id);
    FinalForever(trace, steps, next, m, id);
  }

  /** What a recovery settles a failure from is never followed by a complete run. */
  lemma RecoveredStaysIncomplete(trace: seq<World>, steps: seq<Step>, f: nat, m: nat, id: string)
    requires Behavior(trace, steps) && f <= m < |trace| && f < |steps| && RecoversFailure(trace[f], steps[f], id) && id !in trace[m].pruned
    ensures !HasComplete(trace[m].db, id)
  {
    FinalForever(trace, steps, f, m, id);
  }

  /**
   * A failed run_now command has a complete run stored exactly when a report or a cancellation ended it, not
   * a recovery, and a complete batch under its ID was admitted, be it before or after; pruning apart.
   */
  lemma FailedThoughStored(trace: seq<World>, steps: seq<Step>, m: nat, id: string) returns (f: nat)
    requires Behavior(trace, steps) && m < |trace| && id !in trace[m].pruned
    requires id in trace[m].db.commands && trace[m].db.commands[id].state.Failed?
    ensures f < m && FailsAt(trace, steps, f, id)
    ensures HasComplete(trace[m].db, id) <==>
            && (ReportsFailure(trace[f], steps[f], id) || CancelsCommand(trace[f], steps[f], id))
            && exists k: nat :: k < m && AdmitsAt(trace, steps, k, id)
  {
    f := FailedBySomeStep(trace, steps, m, id);
    assert Taken(trace, steps, f);
    HowItFails(trace[f], steps[f], id);
    if HasComplete(trace[m].db, id) {
      var k := StoredBySomeStep(trace, steps, m, id);
      if RecoversFailure(trace[f], steps[f], id) {
        RecoveredStaysIncomplete(trace, steps, f, m, id);
      }
    }
    if k: nat :| k < m && AdmitsAt(trace, steps, k, id) {
      AdmittedIsStored(trace, steps, k, m, id);
    }
  }

  const SOURCES: map<string, SourceRow> := map["s" := SourceRow(true, Some("a"))]
  const BATCH: Batch := Batch("c", "s", true, Null)
  const REPORT: ResultMessage := ResultMessage("c", "s", RunNow, false, 2)

  /** A run_now command whose accepted batch goes unconfirmed, so that its agent reports a failure. */
  function LostConfirmation(): seq<Step> {
    [Requests("c", "s", RunNow, 0), Claims("a", {"s"}, ["c"], 1), Submits("a", BATCH), Ingests("a", BATCH, true),
     Reports("a", REPORT), TakesResult("a", REPORT, 2)]
  }

  function RowAt(state: CommandState, dispatched: Option<Time>, progress: Option<Time>, completed: Option<Time>): Row {
    Row("a", "s", RunNow, state, 0, dispatched, progress, None, None, completed)
  }

  function LostTrace(): seq<World> {
    var pending := map["c" := RowAt(Pending, None, None, None)];
    var dispatched := map["c" := RowAt(Dispatched, Some(1), Some(1), None)];
    var failed := map["c" := RowAt(Failed, Some(1), Some(2), Some(2))];
    var stored := map["c" := StoredRun("a", BATCH)];
    var given := {Handout("a", "c")};
    [Start(SOURCES),
     World(Database(pending, map[], SOURCES), {}, {}, {}, {}, {}),
     World(Database(dispatched, map[], SOURCES), given, {}, {}, {}, {}),
     World(Database(dispatched, map[], SOURCES), given, {("a", BATCH)}, {}, {}, {}),
     World(Database(dispatched, stored, SOURCES), given, {("a", BATCH)}, {("a", BATCH)}, {}, {}),
     World(Database(dispatched, stored, SOURCES), given, {("a", BATCH)}, {("a", BATCH)}, {("a", REPORT)}, {}),
     World(Database(failed, stored, SOURCES), given, {("a", BATCH)}, {("a", BATCH)}, {("a", REPORT)}, {})]
  }

  ghost predicate Follows(n: nat)
    requires n < 6
  {
    Enabled(LostTrace()[n], LostConfirmation()[n]) && LostTrace()[n + 1] == After(LostTrace()[n], LostConfirmation()[n])
  }

  lemma LostRequest()
    ensures Follows(0)
  {
  }

  lemma OnlyClaimable(db: Database)
    requires db == LostTrace()[1].db
    ensures ClaimableIds(db, "a", {"s"}, 1) == {"c"}
    ensures HandedOut(db, {"c"}) == {"c"}
    ensures Claimed(db, {"c"}, 1) == LostTrace()[2].db
  {
  }

  lemma OneIsOldest(db: Database, id: string)
    requires id in db.commands
    ensures OldestTen(db, {id}, [id])
  {
  }

  lemma LostClaim()
    ensures Follows(1)
  {
    OnlyClaimable(LostTrace()[1].db);
    OneIsOldest(LostTrace()[1].db, "c");
    assert Elements(["c"]) == {"c"};
  }

  lemma LostSubmission()
    ensures Follows(2) && Follows(3)
  {
  }

  lemma LostReport()
    ensures Follows(4) && Follows(5)
  {
  }

  /** One such run: the batch is stored, its confirmation is lost, and the agent reports a failure. */
  lemma LostConfirmationFails()
    ensures Behavior(LostTrace(), LostConfirmation())
    ensures var db := LostTrace()[6].db;
            db.commands["c"].state.Failed? && "c" in db.runs && db.runs["c"].batch.complete
  {
    LostRequest();
    LostClaim();
    LostSubmission();
    LostReport();
    forall n: nat | n < 6
      ensures Taken(LostTrace(), LostConfirmation(), n)
    {
      assert n == 0 || n == 1 || n == 2 || n == 3 || n == 4 || n == 5;
      assert Follows(n);
    }
    assert LostTrace()[0] == Start(SOURCES);
  }
}
