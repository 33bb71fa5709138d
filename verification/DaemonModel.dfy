/**
 * The agent daemon as a state machine: the control loop's variables, the goroutines it starts and the
 * channels between them. Each arm of the loop's select is one step; so is each thing a goroutine or the
 * clock does on its own.
 */
module DaemonModel {
  import opened Prelude
  import opened CommandLedger
  import opened WorkerPool

  const MAX_BACKOFF: Time := 5 * MINUTE
  const DEFAULT_INTERVAL: Time := 5 * SECOND

  datatype Timer = Idle | Armed(delay: Time) | Fired

  /** What a fetch tells NetBox the daemon is busy with. */
  datatype Activity = Activity(commands: set<string>, sources: set<string>)

  datatype Endpoints = Endpoints(ingest: string, result: string, status: string)

  datatype Configuration = Configuration(intervalSeconds: int, endpoints: Endpoints, assignments: seq<Assignment>, commands: seq<Command>)

  datatype Fetch = FetchFailed | Fetched(configuration: Configuration)

  /** `fetches` are requests under way; `fetchResults` is the channel they answer on. */
  datatype Control = Control(fetching: bool, retryDelay: Time, failures: nat, pollInterval: Time, pollTimer: Timer,
                             fetches: seq<Activity>, fetchResults: seq<Fetch>)

  datatype Schedule = Schedule(revision: string, nextRun: Time)

  /**
   * What happens to the daemon's work, in order: configurations taken over while some sources are busy, work that
   * begins and work that ends, results that the loop reads, and reports that are sent.
   */
  datatype Moment =
    | Adopted(configuration: Configuration, running: set<string>)
    | Began(work: Work, time: Time)
    | Answered(work: Work, outcome: Outcome, report: Report)
    | Gathered(assignment: Assignment, outcome: Outcome, time: Time)
    | Ran(command: Command, report: Report, time: Time)
    | Sent(id: string, report: Report, delivered: bool)

  /** `log` is not a variable of the program: it records what happened, and nothing reads it. */
  datatype State = State(pool: Pool, ledger: Ledger, control: Control, schedules: map<string, Schedule>,
                         assignments: seq<Assignment>, endpoints: Endpoints, now: Time, log: seq<Moment>)

  // ---- Retry delays ---------------------------------------------------------------------------

  function NextAgentRetryDelay(baseInterval: Time, previousDelay: Time): Time {
    var base := if baseInterval <= 0 then DEFAULT_INTERVAL else baseInterval;
    if base >= MAX_BACKOFF then MAX_BACKOFF
    else if previousDelay < base then base
    else if previousDelay >= MAX_BACKOFF / 2 then MAX_BACKOFF
    else previousDelay * 2
  }

  function Power2(n: nat): nat {
    if n == 0 then 1 else 2 * Power2(n - 1)
  }

  /** The delay after n failures in a row: doubled each time, up to five minutes. */
  function Backoff(baseInterval: Time, n: nat): Time {
    if n == 0 then 0
    else
      var base := if baseInterval <= 0 then 5_000_000_000 else baseInterval;
      if base * Power2(n - 1) < 300_000_000_000 then base * Power2(n - 1) else 300_000_000_000
  }

  lemma {:induction false} Power2AtLeast(n: nat, base: Time)
    requires base > 0
    ensures base * Power2(n) >= base
    ensures base * Power2(n + 1) == 2 * (base * Power2(n))
  {
    if n > 0 {
      Power2AtLeast(n - 1, base);
    }
  }

  /** One more failure takes the delay from one term of the doubling sequence to the next. */
  lemma BackoffDoubles(baseInterval: Time, n: nat)
    ensures NextAgentRetryDelay(baseInterval, Backoff(baseInterval, n)) == Backoff(baseInterval, n + 1)
  {
    var base := if baseInterval <= 0 then DEFAULT_INTERVAL else baseInterval;
    Power2AtLeast(n, base);
    if n > 0 {
      Power2AtLeast(n - 1, base);
    } else {
      assert Power2(0) == 1;
    }
  }

  // ---- Dispatching ----------------------------------------------------------------------------

  predicate FirstIdle(queued: seq<Command>, running: set<string>, i: nat) {
    && i < |queued| && queued[i].Source() !in running
    && forall j :: 0 <= j < i ==> queued[j].Source() in running
  }

  predicate NoIdleCommand(queued: seq<Command>, running: set<string>) {
    forall c :: c in queued ==> c.Source() in running
  }

  predicate Due(a: Assignment, schedules: map<string, Schedule>, running: set<string>, now: Time) {
    && a.enabled && a.sourceId !in running
    && !(a.sourceId in schedules && schedules[a.sourceId].revision == a.revision && now < schedules[a.sourceId].nextRun)
  }

  predicate FirstDue(s: State, k: nat, now: Time) {
    && k < |s.assignments| && Due(s.assignments[k], s.schedules, s.pool.running, now)
    && forall j :: 0 <= j < k ==> !Due(s.assignments[j], s.schedules, s.pool.running, now)
  }

  function StartCommand(s: State, i: nat, now: Time): State
    requires i < |s.ledger.queued|
  {
    s.(pool := Launch(s.pool, Execute(s.ledger.queued[i])), ledger := Start(s.ledger, i, now), now := now,
       log := s.log + [Began(Execute(s.ledger.queued[i]), now)])
  }

  function StartSource(s: State, k: nat, now: Time): State
    requires k < |s.assignments|
  {
    s.(pool := Launch(s.pool, Collect(s.assignments[k])), now := now, log := s.log + [Began(Collect(s.assignments[k]), now)])
  }

  predicate LaunchesCommand(s: State, t: State, i: nat) {
    s.pool.active < MAX_WORKERS && s.now <= t.now && FirstIdle(s.ledger.queued, s.pool.running, i) && t == StartCommand(s, i, t.now)
  }

  predicate LaunchesSource(s: State, t: State, k: nat) {
    && s.pool.active < MAX_WORKERS && s.now <= t.now && NoIdleCommand(s.ledger.queued, s.pool.running)
    && FirstDue(s, k, t.now) && t == StartSource(s, k, t.now)
  }

  ghost predicate StartsScheduled(s: State, t: State) {
    exists k: nat :: LaunchesSource(s, t, k)
  }

  ghost predicate Launches(s: State, t: State) {
    (exists i: nat :: LaunchesCommand(s, t, i)) || StartsScheduled(s, t)
  }

  /** Nothing more can start: all workers are busy, or no idle source has a command or due scheduled work. */
  predicate AtRest(s: State) {
    || s.pool.active >= MAX_WORKERS
    || (NoIdleCommand(s.ledger.queued, s.pool.running) && forall a :: a in s.assignments ==> !Due(a, s.schedules, s.pool.running, s.now))
  }

  /** Every state of the path but the first starts one piece of work more than the one before. */
  ghost predicate Launching(path: seq<State>) {
    forall n: nat :: 0 < n < |path| ==> LaunchesAt(path, n)
  }

  ghost predicate LaunchesAt(path: seq<State>, n: nat)
    requires 0 < n < |path|
  {
    Launches(path[n - 1], path[n])
  }

  lemma LaunchingGrows(path: seq<State>, t: State)
    requires Launching(path) && path != [] && Launches(path[|path| - 1], t)
    ensures Launching(path + [t])
  {
    var more := path + [t];
    forall n: nat | 0 < n < |more|
      ensures LaunchesAt(more, n)
    {
      if n < |path| {
        assert LaunchesAt(path, n);
      }
    }
  }

  /** The launches of one call of dispatchWork, one state after each, up to the clock of its last scan. */
  ghost predicate Dispatch(path: seq<State>, s: State, t: State) {
    && path != [] && path[0] == s
    && Launching(path)
    && path[|path| - 1].now <= t.now && t == path[|path| - 1].(now := t.now)
    && AtRest(t)
  }

  ghost predicate Dispatched(s: State, t: State) {
    exists path :: Dispatch(path, s, t)
  }

  // ---- The arms of the control loop -----------------------------------------------------------

  function BeginAll(l: Ledger, ids: seq<string>): Ledger {
    if ids == [] then l
    else
      var before, id := BeginAll(l, ids[..|ids| - 1]), ids[|ids| - 1];
      if id in before.pending then BeginReport(before, id) else before
  }

  /** Starts a report of every pending command that is not being reported, in some order. */
  ghost predicate BeginsReports(s: State, t: State, ids: seq<string>) {
    && Distinct(ids)
    && (forall id :: id in ids <==> s.endpoints.result != "" && id in s.ledger.pending && id !in s.ledger.reporting)
    && t == s.(ledger := BeginAll(s.ledger, ids))
  }

  function CompletionDelay(a: Assignment, outcome: Outcome): Time {
    var delay := a.intervalSeconds * SECOND;
    if !outcome.succeeded && outcome.retryable && delay > MINUTE then MINUTE else delay
  }

  function SourceDone(s: State, now: Time): State
    requires s.pool.sourceResults != []
  {
    var r := s.pool.sourceResults[0];
    s.(pool := ReceiveSource(s.pool),
       schedules := s.schedules[r.assignment.sourceId := Schedule(r.assignment.revision, now + CompletionDelay(r.assignment, r.outcome))],
       now := now, log := s.log + [Gathered(r.assignment, r.outcome, now)])
  }

  function CommandDone(s: State, now: Time): State
    requires s.pool.commandResults != []
  {
    var r := s.pool.commandResults[0];
    var a := r.command.assignment;
    s.(pool := ReceiveCommand(s.pool), ledger := Finish(s.ledger, r.command.id, r.report),
       schedules := if r.command.kind.RunNow? then s.schedules[a.sourceId := Schedule(a.revision, now + a.intervalSeconds * SECOND)]
                    else s.schedules,
       now := now, log := s.log + [Ran(r.command, r.report, now)])
  }

  function PollDue(s: State): State {
    var c := s.control;
    if c.fetching then s.(control := c.(pollTimer := Armed(c.pollInterval)))
    else s.(control := c.(fetching := true, pollTimer := Idle, fetches := c.fetches + [Activity(s.ledger.known, s.pool.collecting)]))
  }

  function FetchFails(s: State): State
    requires s.control.fetchResults != []
  {
    var c := s.control;
    var delay := NextAgentRetryDelay(c.pollInterval, c.retryDelay);
    s.(control := c.(fetching := false, retryDelay := delay, failures := c.failures + 1, pollTimer := Armed(delay),
                     fetchResults := c.fetchResults[1..]))
  }

  function NewInterval(c: Configuration, pollInterval: Time): Time {
    if c.intervalSeconds != 0 then c.intervalSeconds * SECOND else pollInterval
  }

  function KeptSchedules(schedules: map<string, Schedule>, assignments: seq<Assignment>, running: set<string>): map<string, Schedule> {
    map id | id in schedules && (id in running || exists a :: a in assignments && a.sourceId == id) :: schedules[id]
  }

  /** The new configuration in force, before any report or work starts. */
  function Configured(s: State, now: Time): State
    requires s.control.fetchResults != [] && s.control.fetchResults[0].Fetched?
  {
    var c := s.control.fetchResults[0].configuration;
    State(s.pool, EnqueueAll(Purge(s.ledger, now), c.commands),
          s.control.(fetching := false, retryDelay := 0, failures := 0, pollInterval := NewInterval(c, s.control.pollInterval),
                     fetchResults := s.control.fetchResults[1..]),
          KeptSchedules(s.schedules, c.assignments, s.pool.running), c.assignments, c.endpoints, now,
          s.log + [Adopted(c, s.pool.running)])
  }

  function Rearmed(s: State): State {
    s.(control := s.control.(pollTimer := Armed(s.control.pollInterval)))
  }

  function ReportRead(s: State, now: Time): State
    requires s.ledger.receipts != []
  {
    s.(ledger := Settle(s.ledger, now), now := now)
  }

  function WorkAnswers(s: State, i: nat, outcome: Outcome, report: Report): State
    requires i < |s.pool.working|
  {
    s.(pool := Send(s.pool, i, outcome, report), log := s.log + [Answered(s.pool.working[i], outcome, report)])
  }

  function ReportAnswers(s: State, i: nat, delivered: bool): State
    requires i < |s.ledger.reportsOut|
  {
    var d := s.ledger.reportsOut[i];
    s.(ledger := SendReport(s.ledger, i, delivered), log := s.log + [Sent(d.id, d.report, delivered)])
  }

  // ---- Steps ----------------------------------------------------------------------------------

  /** An arm of the select statement, or something that happens around the loop. */
  datatype Step =
    | Tick
    | TimerFires
    | WorkSends(i: nat, outcome: Outcome, report: Report)
    | ReportSends(i: nat, delivered: bool)
    | FetchSends(fetch: Fetch)
    | PollArm
    | FetchFailedArm
    | FetchedArm(ids: seq<string>)
    | SourceArm
    | CommandArm(ids: seq<string>)
    | ReportArm

  ghost predicate Steps(s: State, step: Step, t: State) {
    && s.now <= t.now
    && match step
       case Tick => t == s.(now := t.now)
       case TimerFires => s.control.pollTimer.Armed? && t == s.(control := s.control.(pollTimer := Fired))
       case WorkSends(i, outcome, report) => i < |s.pool.working| && t == WorkAnswers(s, i, outcome, report)
       case ReportSends(i, delivered) => i < |s.ledger.reportsOut| && t == ReportAnswers(s, i, delivered)
       case FetchSends(fetch) =>
         && s.control.fetches != []
         && t == s.(control := s.control.(fetches := s.control.fetches[1..], fetchResults := s.control.fetchResults + [fetch]))
       case PollArm => s.control.pollTimer.Fired? && t == PollDue(s)
       case FetchFailedArm => s.control.fetchResults != [] && s.control.fetchResults[0].FetchFailed? && t == FetchFails(s)
       case FetchedArm(ids) =>
         && s.control.fetchResults != [] && s.control.fetchResults[0].Fetched?
         && exists now, mid, end :: FetchedBy(s, now, ids, mid, end, t)
       case SourceArm => s.pool.sourceResults != [] && exists now :: SourceBy(s, now, t)
       case CommandArm(ids) => s.pool.commandResults != [] && exists now, mid :: CommandBy(s, now, ids, mid, t)
       case ReportArm => s.ledger.receipts != [] && t == ReportRead(s, t.now)
  }

  /** What the outside world offers next: something around the loop, or an arm of the select. */
  datatype Offer =
    | Wait
    | TimerElapses
    | WorkEnds(i: nat, outcome: Outcome, report: Report)
    | ReportEnds(j: nat, delivered: bool)
    | FetchEnds(fetch: Fetch)
    | PollReady
    | FetchReady
    | SourceReady
    | CommandReady
    | ReportReady

  /** The step that answers an offer; an offer that finds nothing ready only lets time pass. */
  predicate Answers(s: State, offer: Offer, step: Step) {
    match offer
    case Wait => step.Tick?
    case TimerElapses => if s.control.pollTimer.Armed? then step.TimerFires? else step.Tick?
    case WorkEnds(i, outcome, report) => if i < |s.pool.working| then step == WorkSends(i, outcome, report) else step.Tick?
    case ReportEnds(i, delivered) => if i < |s.ledger.reportsOut| then step == ReportSends(i, delivered) else step.Tick?
    case FetchEnds(fetch) => if s.control.fetches != [] then step == FetchSends(fetch) else step.Tick?
    case PollReady => if s.control.pollTimer.Fired? then step.PollArm? else step.Tick?
    case FetchReady =>
      if s.control.fetchResults == [] then step.Tick?
      else if s.control.fetchResults[0].FetchFailed? then step.FetchFailedArm? else step.FetchedArm?
    case SourceReady => if s.pool.sourceResults != [] then step.SourceArm? else step.Tick?
    case CommandReady => if s.pool.commandResults != [] then step.CommandArm? else step.Tick?
    case ReportReady => if s.ledger.receipts != [] then step.ReportArm? else step.Tick?
  }

  ghost predicate Reacts(s: State, offer: Offer, t: State) {
    exists step :: Answers(s, offer, step) && Steps(s, step, t)
  }

  ghost predicate FetchedBy(s: State, now: Time, ids: seq<string>, mid: State, end: State, t: State)
    requires s.control.fetchResults != [] && s.control.fetchResults[0].Fetched?
  {
    s.now <= now && BeginsReports(Configured(s, now), mid, ids) && Dispatched(mid, end) && t == Rearmed(end)
  }

  ghost predicate SourceBy(s: State, now: Time, t: State)
    requires s.pool.sourceResults != []
  {
    s.now <= now && Dispatched(SourceDone(s, now), t)
  }

  ghost predicate CommandBy(s: State, now: Time, ids: seq<string>, mid: State, t: State)
    requires s.pool.commandResults != []
  {
    s.now <= now && BeginsReports(CommandDone(s, now), mid, ids) && Dispatched(mid, t)
  }

  // Each arm is a step.

  lemma SourceMoves(s: State, now: Time, done: State, t: State)
    requires s.pool.sourceResults != [] && s.now <= now && s.now <= t.now
    requires done == SourceDone(s, now) && Dispatched(done, t)
    ensures Reacts(s, SourceReady, t)
  {
    assert SourceBy(s, now, t);
    assert Steps(s, SourceArm, t);
  }

  lemma CommandMoves(s: State, now: Time, done: State, ids: seq<string>, mid: State, t: State)
    requires s.pool.commandResults != [] && s.now <= now && s.now <= t.now
    requires done == CommandDone(s, now) && BeginsReports(done, mid, ids) && Dispatched(mid, t)
    ensures Reacts(s, CommandReady, t)
  {
    assert CommandBy(s, now, ids, mid, t);
    assert Steps(s, CommandArm(ids), t);
  }

  lemma FetchedMoves(s: State, now: Time, done: State, ids: seq<string>, mid: State, end: State, t: State)
    requires s.control.fetchResults != [] && s.control.fetchResults[0].Fetched? && s.now <= now && s.now <= t.now
    requires done == Configured(s, now) && BeginsReports(done, mid, ids) && Dispatched(mid, end) && t == Rearmed(end)
    ensures Reacts(s, FetchReady, t)
  {
    assert FetchedBy(s, now, ids, mid, end, t);
    assert Steps(s, FetchedArm(ids), t);
  }

  lemma ReportMoves(s: State, t: State)
    requires s.ledger.receipts != [] && s.now <= t.now && t == ReportRead(s, t.now)
    ensures Reacts(s, ReportReady, t)
  {
    assert Steps(s, ReportArm, t);
  }

  lemma FailedMoves(s: State, t: State)
    requires s.control.fetchResults != [] && s.control.fetchResults[0].FetchFailed? && t == FetchFails(s)
    ensures Reacts(s, FetchReady, t)
  {
    assert Steps(s, FetchFailedArm, t);
  }

  lemma PollMoves(s: State, t: State)
    requires s.control.pollTimer.Fired? && t == PollDue(s)
    ensures Reacts(s, PollReady, t)
  {
    assert Steps(s, PollArm, t);
  }

  lemma WorkMoves(s: State, i: nat, outcome: Outcome, report: Report, t: State)
    requires i < |s.pool.working| && t == WorkAnswers(s, i, outcome, report)
    ensures Reacts(s, WorkEnds(i, outcome, report), t)
  {
    assert Steps(s, WorkSends(i, outcome, report), t);
  }

  lemma SendMoves(s: State, i: nat, delivered: bool, t: State)
    requires i < |s.ledger.reportsOut| && t == ReportAnswers(s, i, delivered)
    ensures Reacts(s, ReportEnds(i, delivered), t)
  {
    assert Steps(s, ReportSends(i, delivered), t);
  }

  lemma TickMoves(s: State, offer: Offer, t: State)
    requires s.now <= t.now && t == s.(now := t.now) && Answers(s, offer, Tick)
    ensures Reacts(s, offer, t)
  {
  }

  lemma TimerMoves(s: State, t: State)
    requires s.control.pollTimer.Armed? && t == s.(control := s.control.(pollTimer := Fired))
    ensures Reacts(s, TimerElapses, t)
  {
    assert Steps(s, TimerFires, t);
  }

  lemma FetchMoves(s: State, fetch: Fetch, t: State)
    requires s.control.fetches != []
    requires t == s.(control := s.control.(fetches := s.control.fetches[1..], fetchResults := s.control.fetchResults + [fetch]))
    ensures Reacts(s, FetchEnds(fetch), t)
  {
    assert Steps(s, FetchSends(fetch), t);
  }

  function Initial(pollInterval: Time, now: Time): State {
    State(IDLE, EMPTY, Control(false, 0, 0, pollInterval, Armed(0), [], []), map[], [], Endpoints("", "", ""), now, [])
  }

  // ---- Invariants -----------------------------------------------------------------------------

  datatype ControlClause = OneOutstanding | TimerOrFetch | Delays | RetryArmed

  ghost predicate ControlHolds(c: Control, clause: ControlClause) {
    match clause
    // A fetch is under way, or answered and not read, exactly while the loop says it is fetching; and it is one.
    case OneOutstanding => |c.fetches| + |c.fetchResults| == if c.fetching then 1 else 0
    // The poll timer is armed or has fired exactly when no fetch is in flight.
    case TimerOrFetch => c.pollTimer.Idle? <==> c.fetching
    case Delays => c.retryDelay == Backoff(c.pollInterval, c.failures)
    // After n failures in a row the timer is armed with the n-th delay.
    case RetryArmed => c.failures > 0 && c.pollTimer.Armed? ==> c.pollTimer.delay == Backoff(c.pollInterval, c.failures)
  }

  ghost predicate ControlSound(c: Control) {
    forall clause :: ControlHolds(c, clause)
  }

  /** Workers and commands are in order; the control variables may be between two states. */
  ghost predicate WorkSound(s: State) {
    PoolSound(s.pool) && Sound(Executing(s.pool), s.ledger, s.now)
  }

  ghost predicate Invariant(s: State) {
    WorkSound(s) && ControlSound(s.control)
  }

  lemma InitialSound(pollInterval: Time, now: Time)
    ensures Invariant(Initial(pollInterval, now))
  {
    IdleSound();
    EmptySound(now);
    forall clause
      ensures ControlHolds(Initial(pollInterval, now).control, clause)
    {
      match clause {
        case OneOutstanding =>
        case TimerOrFetch =>
        case Delays =>
        case RetryArmed =>
      }
    }
  }

  lemma IdleIsFirst(queued: seq<Command>, running: set<string>, i: nat)
    requires FirstIdle(queued, running, i)
    ensures FirstOfSource(queued, i)
  {
  }

  lemma CommandLaunchSound(s: State, i: nat, now: Time)
    requires WorkSound(s) && s.now <= now && s.pool.active < MAX_WORKERS && FirstIdle(s.ledger.queued, s.pool.running, i)
    ensures WorkSound(StartCommand(s, i, now))
  {
    TickKeeps(Executing(s.pool), s.ledger, s.now, now);
    IdleIsFirst(s.ledger.queued, s.pool.running, i);
    LaunchKeeps(s.pool, Execute(s.ledger.queued[i]));
    StartKeeps(Executing(s.pool), s.ledger, now, i);
  }

  lemma SourceLaunchSound(s: State, k: nat, now: Time)
    requires WorkSound(s) && s.now <= now && s.pool.active < MAX_WORKERS && FirstDue(s, k, now)
    ensures WorkSound(StartSource(s, k, now))
  {
    TickKeeps(Executing(s.pool), s.ledger, s.now, now);
    LaunchKeeps(s.pool, Collect(s.assignments[k]));
    assert Executing(Launch(s.pool, Collect(s.assignments[k]))) == Executing(s.pool);
  }

  lemma LaunchSound(s: State, t: State)
    requires WorkSound(s) && Launches(s, t)
    ensures WorkSound(t) && s.now <= t.now
  {
    if i: nat :| LaunchesCommand(s, t, i) {
      CommandLaunchSound(s, i, t.now);
    } else {
      var k: nat :| LaunchesSource(s, t, k);
      SourceLaunchSound(s, k, t.now);
    }
  }

  /** What every launch keeps, every state of a path keeps. */
  lemma {:induction false} PathKeeps(path: seq<State>, n: nat, keeps: State -> bool)
    requires Launching(path) && n < |path| && keeps(path[0])
    requires forall s, t :: Launches(s, t) && keeps(s) ==> keeps(t)
    ensures keeps(path[n])
  {
    if n > 0 {
      PathKeeps(path, n - 1, keeps);
      assert LaunchesAt(path, n);
    }
  }

  lemma PathSound(path: seq<State>, n: nat)
    requires Launching(path) && n < |path| && WorkSound(path[0])
    ensures WorkSound(path[n])
  {
    forall s, t | Launches(s, t) && WorkSound(s)
      ensures WorkSound(t)
    {
      LaunchSound(s, t);
    }
    PathKeeps(path, n, (s: State) => WorkSound(s));
  }

  lemma {:induction false} PathControl(path: seq<State>, n: nat)
    requires Launching(path) && n < |path|
    ensures path[n].control == path[0].control
  {
    if n > 0 {
      PathControl(path, n - 1);
      assert LaunchesAt(path, n);
      LaunchControl(path[n - 1], path[n]);
    }
  }

  lemma LaunchControl(s: State, t: State)
    requires Launches(s, t)
    ensures t.control == s.control
  {
  }

  lemma DispatchSound(s: State, t: State)
    requires WorkSound(s) && Dispatched(s, t)
    ensures WorkSound(t) && t.control == s.control
  {
    var path: seq<State> :| Dispatch(path, s, t);
    var last: State := path[|path| - 1];
    PathSound(path, |path| - 1);
    PathControl(path, |path| - 1);
    TickKeeps(Executing(last.pool), last.ledger, last.now, t.now);
  }

  lemma {:induction false} BeginAllSound(executing: multiset<string>, l: Ledger, now: Time, ids: seq<string>)
    requires Sound(executing, l, now) && Distinct(ids)
    requires forall id :: id in ids ==> id in l.pending && id !in l.reporting
    ensures Sound(executing, BeginAll(l, ids), now)
    ensures BeginAll(l, ids).pending == l.pending && BeginAll(l, ids).reporting == l.reporting + Elements(ids)
  {
    if ids != [] {
      var n := |ids| - 1;
      assert ids == ids[..n] + [ids[n]];
      BeginAllSound(executing, l, now, ids[..n]);
      assert ids[n] in ids && ids[n] !in ids[..n];
      BeginReportKeeps(executing, BeginAll(l, ids[..n]), now, ids[n]);
    }
  }

  lemma ReportsSound(s: State, t: State, ids: seq<string>)
    requires WorkSound(s) && BeginsReports(s, t, ids)
    ensures WorkSound(t) && t.control == s.control
    ensures s.endpoints.result != "" ==> t.ledger.reporting == t.ledger.pending.Keys
  {
    BeginAllSound(Executing(s.pool), s.ledger, s.now, ids);
    assert Holds(Executing(s.pool), s.ledger, s.now, Reporting);
    forall id | s.endpoints.result != "" && id in s.ledger.pending
      ensures id in t.ledger.reporting
    {
      assert id in s.ledger.reporting || id in ids;
    }
  }

  lemma ConfiguredSound(s: State, now: Time)
    requires WorkSound(s) && s.now <= now
    requires s.control.fetchResults != [] && s.control.fetchResults[0].Fetched?
    ensures WorkSound(Configured(s, now))
  {
    var executing := Executing(s.pool);
    TickKeeps(executing, s.ledger, s.now, now);
    PurgeKeeps(executing, s.ledger, now);
    EnqueueAllKeeps(executing, Purge(s.ledger, now), now, s.control.fetchResults[0].configuration.commands);
  }

  lemma SourceDoneSound(s: State, now: Time)
    requires WorkSound(s) && s.now <= now && s.pool.sourceResults != []
    ensures WorkSound(SourceDone(s, now))
  {
    TickKeeps(Executing(s.pool), s.ledger, s.now, now);
    ReceiveSourceKeeps(s.pool);
  }

  lemma CommandDoneSound(s: State, now: Time)
    requires WorkSound(s) && s.now <= now && s.pool.commandResults != []
    ensures WorkSound(CommandDone(s, now))
  {
    var r := s.pool.commandResults[0];
    TickKeeps(Executing(s.pool), s.ledger, s.now, now);
    ReceiveCommandKeeps(s.pool);
    FinishKeeps(Executing(s.pool), s.ledger, now, r.command.id, r.report);
  }

  lemma WorkStepSound(s: State, step: Step, t: State)
    requires WorkSound(s) && Steps(s, step, t)
    ensures WorkSound(t)
  {
    match step {
      case Tick => TickKeeps(Executing(s.pool), s.ledger, s.now, t.now);
      case TimerFires =>
      case WorkSends(i, outcome, report) => SendKeeps(s.pool, i, outcome, report);
      case ReportSends(i, delivered) => SendReportKeeps(Executing(s.pool), s.ledger, s.now, i, delivered);
      case FetchSends(fetch) =>
      case PollArm =>
      case FetchFailedArm =>
      case FetchedArm(ids) =>
        var now, mid, end :| FetchedBy(s, now, ids, mid, end, t);
        ConfiguredSound(s, now);
        ReportsSound(Configured(s, now), mid, ids);
        DispatchSound(mid, end);
      case SourceArm =>
        var now :| SourceBy(s, now, t);
        SourceDoneSound(s, now);
        DispatchSound(SourceDone(s, now), t);
      case CommandArm(ids) =>
        var now, mid :| CommandBy(s, now, ids, mid, t);
        CommandDoneSound(s, now);
        ReportsSound(CommandDone(s, now), mid, ids);
        DispatchSound(mid, t);
      case ReportArm =>
        TickKeeps(Executing(s.pool), s.ledger, s.now, t.now);
        SettleKeeps(Executing(s.pool), s.ledger, t.now);
    }
  }

  /** The control variables after an arm that may start work are those the arm itself left. */
  lemma ArmControl(s: State, step: Step, t: State)
    requires WorkSound(s) && Steps(s, step, t)
    ensures step.FetchedArm? ==> exists now ::
              s.now <= now && t.control == Rearmed(Configured(s, now)).control
    ensures step.SourceArm? || step.CommandArm? ==> t.control == s.control
  {
    match step {
      case FetchedArm(ids) =>
        var now, mid, end :| FetchedBy(s, now, ids, mid, end, t);
        ConfiguredSound(s, now);
        ReportsSound(Configured(s, now), mid, ids);
        DispatchSound(mid, end);
        assert s.now <= now && t.control == Rearmed(Configured(s, now)).control;
      case SourceArm =>
        var now :| SourceBy(s, now, t);
        SourceDoneSound(s, now);
        DispatchSound(SourceDone(s, now), t);
      case CommandArm(ids) =>
        var now, mid :| CommandBy(s, now, ids, mid, t);
        CommandDoneSound(s, now);
        ReportsSound(CommandDone(s, now), mid, ids);
        DispatchSound(mid, t);
      case _ =>
    }
  }

  lemma FetchedControlSound(s: State, now: Time)
    requires ControlSound(s.control)
    requires s.control.fetchResults != [] && s.control.fetchResults[0].Fetched?
    ensures ControlSound(Rearmed(Configured(s, now)).control)
  {
    var c := Rearmed(Configured(s, now)).control;
    assert ControlHolds(s.control, OneOutstanding);
    forall clause
      ensures ControlHolds(c, clause)
    {
      match clause {
        case OneOutstanding =>
        case TimerOrFetch =>
        case Delays =>
        case RetryArmed =>
      }
    }
  }

  lemma FailedControlSound(s: State)
    requires ControlSound(s.control)
    requires s.control.fetchResults != [] && s.control.fetchResults[0].FetchFailed?
    ensures ControlSound(FetchFails(s).control)
  {
    var c := FetchFails(s).control;
    assert ControlHolds(s.control, OneOutstanding) && ControlHolds(s.control, Delays);
    BackoffDoubles(s.control.pollInterval, s.control.failures);
    forall clause
      ensures ControlHolds(c, clause)
    {
      match clause {
        case OneOutstanding =>
        case TimerOrFetch =>
        case Delays =>
        case RetryArmed =>
      }
    }
  }

  lemma SmallControlSound(s: State, step: Step, t: State)
    requires ControlSound(s.control) && Steps(s, step, t)
    requires step.TimerFires? || step.FetchSends? || step.PollArm?
    ensures ControlSound(t.control)
  {
    assert ControlHolds(s.control, TimerOrFetch);
    forall clause
      ensures ControlHolds(t.control, clause)
    {
      assert ControlHolds(s.control, clause);
      match clause {
        case OneOutstanding =>
        case TimerOrFetch =>
        case Delays =>
        case RetryArmed =>
      }
    }
  }

  /** Every step keeps every invariant. */
  lemma StepSound(s: State, step: Step, t: State)
    requires Invariant(s) && Steps(s, step, t)
    ensures Invariant(t)
  {
    WorkStepSound(s, step, t);
    ArmControl(s, step, t);
    match step {
      case TimerFires => SmallControlSound(s, step, t);
      case FetchSends(_) => SmallControlSound(s, step, t);
      case PollArm => SmallControlSound(s, step, t);
      case FetchFailedArm => FailedControlSound(s);
      case FetchedArm(_) =>
        var now :| s.now <= now && t.control == Rearmed(Configured(s, now)).control;
        FetchedControlSound(s, now);
      case _ =>
    }
  }

  // ---- Whole runs -----------------------------------------------------------------------------

  /** A run of the daemon: whatever is offered, in any order. */
  ghost predicate Run(trace: seq<State>, offers: seq<Offer>, pollInterval: Time) {
    && |trace| == |offers| + 1 && trace[0] == Initial(pollInterval, trace[0].now)
    && forall n: nat :: n < |offers| ==> ReactsAt(trace, offers, n)
  }

  ghost predicate ReactsAt(trace: seq<State>, offers: seq<Offer>, n: nat)
    requires |trace| == |offers| + 1 && n < |offers|
  {
    Reacts(trace[n], offers[n], trace[n + 1])
  }

  lemma RunGrows(trace: seq<State>, offers: seq<Offer>, offer: Offer, t: State, pollInterval: Time)
    requires Run(trace, offers, pollInterval) && Reacts(trace[|offers|], offer, t)
    ensures Run(trace + [t], offers + [offer], pollInterval)
  {
    var trace', offers' := trace + [t], offers + [offer];
    forall n: nat | n < |offers'|
      ensures ReactsAt(trace', offers', n)
    {
      if n < |offers| {
        assert ReactsAt(trace, offers, n);
      }
    }
  }

  /** What every reaction keeps, every state of a run keeps. */
  lemma {:induction false} RunKeeps(trace: seq<State>, offers: seq<Offer>, pollInterval: Time, n: nat, keeps: State -> bool)
    requires Run(trace, offers, pollInterval) && n < |trace| && keeps(trace[0])
    requires forall s, offer, t :: Reacts(s, offer, t) && keeps(s) ==> keeps(t)
    ensures keeps(trace[n])
  {
    if n > 0 {
      RunKeeps(trace, offers, pollInterval, n - 1, keeps);
      assert ReactsAt(trace, offers, n - 1);
    }
  }

  lemma ReactionSound(s: State, offer: Offer, t: State)
    requires Invariant(s) && Reacts(s, offer, t)
    ensures Invariant(t)
  {
    var step :| Answers(s, offer, step) && Steps(s, step, t);
    StepSound(s, step, t);
  }

  lemma RunSound(trace: seq<State>, offers: seq<Offer>, pollInterval: Time, n: nat)
    requires Run(trace, offers, pollInterval) && n < |trace|
    ensures Invariant(trace[n])
  {
    InitialSound(pollInterval, trace[0].now);
    forall s, offer, t | Reacts(s, offer, t) && Invariant(s)
      ensures Invariant(t)
    {
      ReactionSound(s, offer, t);
    }
    RunKeeps(trace, offers, pollInterval, n, (s: State) => Invariant(s));
  }

  /** In every reachable state, whatever a command's ID is known for, it is known for one reason only. */
  lemma CommandsConserved(trace: seq<State>, offers: seq<Offer>, pollInterval: Time, n: nat, id: string)
    requires Run(trace, offers, pollInterval) && n < |trace|
    ensures var s := trace[n];
            var places := CommandIds(s.ledger.queued)[id] + Executing(s.pool)[id] + (if id in s.ledger.pending then 1 else 0);
            && places == (if id in s.ledger.known then 1 else 0)
            && (id in s.ledger.completed ==> places == 0)
            && (DeliveryIds(s.ledger.reportsOut) + ReceiptIds(s.ledger.receipts))[id] == (if id in s.ledger.reporting then 1 else 0)
            && (id in s.ledger.reporting ==> id in s.ledger.pending)
  {
    RunSound(trace, offers, pollInterval, n);
    var s := trace[n];
    assert Holds(Executing(s.pool), s.ledger, s.now, Conserved);
    assert Holds(Executing(s.pool), s.ledger, s.now, Reporting);
    assert Holds(Executing(s.pool), s.ledger, s.now, Forgotten);
    assert multiset(s.ledger.known)[id] == if id in s.ledger.known then 1 else 0;
    assert multiset(s.ledger.reporting)[id] == if id in s.ledger.reporting then 1 else 0;
    assert multiset(s.ledger.pending.Keys)[id] == if id in s.ledger.pending then 1 else 0;
  }

  /** No command executes twice without its report delivered in between, over ten minutes before the second time. */
  lemma ExecutionsApart(trace: seq<State>, offers: seq<Offer>, pollInterval: Time, n: nat, i: int, j: int, id: string)
    requires Run(trace, offers, pollInterval) && n < |trace|
    requires i < j && IsStart(trace[n].ledger.history, i, id) && IsStart(trace[n].ledger.history, j, id)
    ensures Apart(trace[n].ledger.history, i, j, id)
  {
    RunSound(trace, offers, pollInterval, n);
    assert Holds(Executing(trace[n].pool), trace[n].ledger, trace[n].now, Spacing);
  }

  /** The commands of one source start in the order of their arrival; those still to start are queued in that order. */
  lemma CommandsInOrder(trace: seq<State>, offers: seq<Offer>, pollInterval: Time, n: nat, source: string)
    requires Run(trace, offers, pollInterval) && n < |trace|
    ensures var l := trace[n].ledger;
            ArrivedFor(l.history, source) == StartedFor(l.history, source) + QueuedFor(l.queued, source)
  {
    RunSound(trace, offers, pollInterval, n);
    assert Holds(Executing(trace[n].pool), trace[n].ledger, trace[n].now, Fifo);
  }

  /** At most four pieces of work are in flight, no two for one source; and no send on a result channel blocks. */
  lemma WorkExclusive(trace: seq<State>, offers: seq<Offer>, pollInterval: Time, n: nat, source: string)
    requires Run(trace, offers, pollInterval) && n < |trace|
    ensures var p := trace[n].pool;
            && Total(InFlight(p), AllSources)[source] == (if source in p.running then 1 else 0)
            && Total(InFlight(p), CollectingSources)[source] == (if source in p.collecting then 1 else 0)
            && p.active == |InFlight(p)| <= 4
            && (p.working != [] ==> |p.sourceResults| < 4 && |p.commandResults| < 4)
  {
    RunSound(trace, offers, pollInterval, n);
    var p := trace[n].pool;
    assert PoolHolds(p, Busy) && PoolHolds(p, Collecting) && PoolHolds(p, Bounded);
    assert multiset(p.running)[source] == if source in p.running then 1 else 0;
    assert multiset(p.collecting)[source] == if source in p.collecting then 1 else 0;
    if p.working != [] {
      SendNeverBlocks(p, 0);
    }
  }

  /**
   * Between events either the poll timer is armed or has fired, or exactly one fetch is in flight: the
   * daemon never stops polling, and the timer never fires while it is fetching. After n failures the timer
   * is armed with the n-th delay.
   */
  lemma AlwaysPolling(trace: seq<State>, offers: seq<Offer>, pollInterval: Time, n: nat)
    requires Run(trace, offers, pollInterval) && n < |trace|
    ensures var c := trace[n].control;
            && (c.pollTimer.Idle? <==> c.fetching)
            && |c.fetches| + |c.fetchResults| == (if c.fetching then 1 else 0)
            && (c.pollTimer.Fired? ==> !c.fetching)
            && (c.failures > 0 && c.pollTimer.Armed? ==> c.pollTimer.delay == Backoff(c.pollInterval, c.failures))
  {
    RunSound(trace, offers, pollInterval, n);
    var c := trace[n].control;
    assert ControlHolds(c, OneOutstanding) && ControlHolds(c, TimerOrFetch) && ControlHolds(c, RetryArmed);
  }

  // ---- What one dispatch does -----------------------------------------------------------------

  lemma LaunchKeepsBusy(s: State, t: State)
    requires Launches(s, t)
    ensures NoIdleCommand(s.ledger.queued, s.pool.running) ==> NoIdleCommand(t.ledger.queued, t.pool.running)
    ensures t.assignments == s.assignments && t.schedules == s.schedules && t.endpoints == s.endpoints
    ensures t.pool.active == s.pool.active + 1
  {
    if i: nat :| LaunchesCommand(s, t, i) {
      assert s.ledger.queued[i] in s.ledger.queued;
    } else {
      var k: nat :| LaunchesSource(s, t, k);
    }
  }

  lemma OnlyScheduledLeft(s: State, t: State)
    requires Launches(s, t) && NoIdleCommand(s.ledger.queued, s.pool.running)
    ensures StartsScheduled(s, t)
  {
    forall i: nat
      ensures !LaunchesCommand(s, t, i)
    {
      IdleNotFirst(s.ledger.queued, s.pool.running, i);
    }
  }

  lemma IdleNotFirst(queued: seq<Command>, running: set<string>, i: nat)
    requires NoIdleCommand(queued, running)
    ensures !FirstIdle(queued, running, i)
  {
    if i < |queued| {
      assert queued[i] in queued;
    }
  }

  /** Once scheduled work starts, no idle source has a command left, so the rest of the dispatch is scheduled work. */
  lemma {:induction false} CommandsFirst(path: seq<State>, s: State, t: State, n: nat, m: nat)
    requires Dispatch(path, s, t) && n < m < |path| && StartsScheduled(path[n], path[n + 1])
    ensures NoIdleCommand(path[m - 1].ledger.queued, path[m - 1].pool.running)
    ensures StartsScheduled(path[m - 1], path[m])
    decreases m
  {
    if m > n + 1 {
      CommandsFirst(path, s, t, n, m - 1);
      assert LaunchesAt(path, m - 1);
      LaunchKeepsBusy(path[m - 2], path[m - 1]);
    }
    assert LaunchesAt(path, m);
    OnlyScheduledLeft(path[m - 1], path[m]);
  }

  /** A dispatch is work-conserving, starts at most four pieces of work and touches no schedule. */
  lemma {:induction false} DispatchBounded(path: seq<State>, s: State, t: State)
    requires Dispatch(path, s, t) && s.pool.active >= 0
    ensures |path| - 1 <= 4 && t.pool.active == s.pool.active + |path| - 1
    ensures AtRest(t) && t.schedules == s.schedules && t.assignments == s.assignments
  {
    PathCounts(path, |path| - 1);
    if |path| > 1 {
      assert LaunchesAt(path, |path| - 1);
      PathCounts(path, |path| - 2);
    }
  }

  lemma {:induction false} PathCounts(path: seq<State>, n: nat)
    requires n < |path|
    requires Launching(path)
    ensures path[n].pool.active == path[0].pool.active + n
    ensures path[n].schedules == path[0].schedules && path[n].assignments == path[0].assignments
  {
    if n > 0 {
      PathCounts(path, n - 1);
      assert LaunchesAt(path, n);
      LaunchKeepsBusy(path[n - 1], path[n]);
    }
  }
}
