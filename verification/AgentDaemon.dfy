/**
 * The control loop of the agent daemon, with the variables it updates in place: one method for each arm of
 * the select, and one for each thing goroutines and timers do around it. Each is a step of `DaemonModel`.
 */
module AgentDaemon {
  import opened Prelude
  import opened CommandLedger
  import opened WorkerPool
  import opened DaemonModel

  /** All pending results but those left over are being reported; `ids` are the reports just begun. */
  ghost predicate Progress(begun: Ledger, ids: seq<string>, rest: set<string>, l: Ledger) {
    && l == BeginAll(begun, ids) && l.pending == begun.pending && l.reporting == begun.reporting + Elements(ids)
    && rest <= l.pending.Keys && Distinct(ids)
    && forall id :: id in ids <==> id in begun.pending.Keys - rest && id !in begun.reporting
  }

  lemma ProgressSkips(begun: Ledger, ids: seq<string>, rest: set<string>, l: Ledger, id: string)
    requires Progress(begun, ids, rest, l) && id in rest && id in l.reporting
    ensures Progress(begun, ids, rest - {id}, l)
  {
  }

  lemma ProgressBegins(begun: Ledger, ids: seq<string>, rest: set<string>, l: Ledger, id: string)
    requires Progress(begun, ids, rest, l) && id in rest && id !in l.reporting
    ensures Progress(begun, ids + [id], rest - {id}, BeginReport(l, id))
  {
  }

  class Daemon {
    // Workers and their result channels; commands and their reports; polling and its timer.
    var pool: Pool
    var ledger: Ledger
    var control: Control
    var schedules: map<string, Schedule>
    var assignments: seq<Assignment>
    var endpoints: Endpoints
    var now: Time
    var log: seq<Moment>

    function Now(): State
      reads this
    {
      State(pool, ledger, control, schedules, assignments, endpoints, now, log)
    }

    constructor (interval: Time, start: Time)
      ensures Now() == Initial(interval, start)
    {
      pool, ledger := IDLE, EMPTY;
      control := Control(false, 0, 0, interval, Armed(0), [], []);
      schedules, assignments, endpoints, now, log := map[], [], Endpoints("", "", ""), start, [];
    }

    /** Starts a report of each pending result that is not on its way. */
    method StartPendingReports() returns (ghost ids: seq<string>)
      modifies this`ledger
      ensures BeginsReports(old(Now()), Now(), ids)
    {
      ids := [];
      if endpoints.result == "" {
        return;
      }
      var rest := ledger.pending.Keys;
      ghost var begun := ledger;
      while rest != {}
        invariant begun == old(ledger) && Progress(begun, ids, rest, ledger)
        decreases |rest|
      {
        var id :| id in rest;
        if id in ledger.reporting {
          ProgressSkips(begun, ids, rest, ledger, id);
        } else {
          ProgressBegins(begun, ids, rest, ledger, id);
          ledger := ledger.(reporting := ledger.reporting + {id}, reportsOut := ledger.reportsOut + [Delivery(id, ledger.pending[id])]);
          ids := ids + [id];
        }
        rest := rest - {id};
      }
    }

    /** The first queued command whose source is idle. */
    method FindIdleCommand() returns (found: Option<nat>)
      ensures found.Some? ==> FirstIdle(ledger.queued, pool.running, found.value)
      ensures found.None? ==> NoIdleCommand(ledger.queued, pool.running)
    {
      for i := 0 to |ledger.queued|
        invariant forall j :: 0 <= j < i ==> ledger.queued[j].Source() in pool.running
      {
        if ledger.queued[i].Source() !in pool.running {
          return Some(i);
        }
      }
      return None;
    }

    /** The first enabled assignment that is due and whose source is idle. */
    method FindDueAssignment(clock: Time) returns (found: Option<nat>)
      ensures found.Some? ==> FirstDue(Now(), found.value, clock)
      ensures found.None? ==> forall a :: a in assignments ==> !Due(a, schedules, pool.running, clock)
    {
      for i := 0 to |assignments|
        invariant forall j :: 0 <= j < i ==> !Due(assignments[j], schedules, pool.running, clock)
      {
        var a := assignments[i];
        if !a.enabled {
          continue;
        }
        if a.sourceId in pool.running {
          continue;
        }
        if a.sourceId in schedules && schedules[a.sourceId].revision == a.revision && clock < schedules[a.sourceId].nextRun {
          continue;
        }
        return Some(i);
      }
      return None;
    }

    /** Reads the clock, which never goes back. */
    method Clock() returns (time: Time)
      modifies this`now
      ensures time == now >= old(now)
    {
      time :| time >= now;
      now := time;
    }

    /** Starts work while workers are free: commands first, then scheduled collections. */
    method DispatchWork()
      modifies this`pool, this`ledger, this`now, this`log
      ensures Dispatched(old(Now()), Now())
      ensures now >= old(now)
    {
      ghost var path := [Now()];
      while pool.active < MAX_WORKERS
        invariant path != [] && path[0] == old(Now()) && path[|path| - 1] == Now() && now >= old(now)
        invariant Launching(path)
        decreases MAX_WORKERS - pool.active
      {
        var idle := FindIdleCommand();
        if idle.Some? {
          LaunchCommand(idle.value);
          LaunchingGrows(path, Now());
          path := path + [Now()];
          continue;
        }
        var time := Clock();
        var due := FindDueAssignment(time);
        if due.None? {
          break;
        }
        LaunchSource(path[|path| - 1], due.value);
        LaunchingGrows(path, Now());
        path := path + [Now()];
      }
      assert Dispatch(path, old(Now()), Now());
    }

    method OccupyWorker(work: Work)
      modifies this`pool
      ensures pool == Launch(old(pool), work)
    {
      pool := pool.(running := pool.running + {work.Source()});
      if work.Collects() {
        pool := pool.(collecting := pool.collecting + {work.Source()});
      }
      pool := pool.(active := pool.active + 1, working := pool.working + [work]);
    }

    method LaunchCommand(i: nat)
      requires pool.active < MAX_WORKERS && FirstIdle(ledger.queued, pool.running, i)
      modifies this`pool, this`ledger, this`now, this`log
      ensures Launches(old(Now()), Now())
      ensures now >= old(now) && pool.active == old(pool.active) + 1
    {
      ghost var s := Now();
      var command := ledger.queued[i];
      ledger := ledger.(queued := ledger.queued[..i] + ledger.queued[i + 1..]);
      OccupyWorker(Execute(command));
      var time := Clock();
      ledger := ledger.(history := ledger.history + [Started(command, time)]);
      log := log + [Began(Execute(command), time)];
      assert LaunchesCommand(s, Now(), i);
    }

    method LaunchSource(ghost s: State, k: nat)
      requires pool.active < MAX_WORKERS && s.now <= now && Now() == s.(now := now)
      requires NoIdleCommand(ledger.queued, pool.running) && FirstDue(s, k, now)
      modifies this`pool, this`log
      ensures Launches(s, Now()) && pool.active == old(pool.active) + 1
    {
      OccupyWorker(Collect(assignments[k]));
      log := log + [Began(Collect(assignments[k]), now)];
      assert LaunchesSource(s, Now(), k);
    }

    // ---- Arms of the select -------------------------------------------------------------------

    method OnPollTimer()
      requires control.pollTimer.Fired?
      modifies this`control
      ensures Reacts(old(Now()), PollReady, Now())
    {
      ghost var s := Now();
      control := control.(pollTimer := Idle);
      if control.fetching {
        control := control.(pollTimer := Armed(control.pollInterval));
      } else {
        var activity := Activity(ledger.known, pool.collecting);
        control := control.(fetching := true, fetches := control.fetches + [activity]);
      }
      PollMoves(s, Now());
    }

    method OnFetchFailed()
      requires control.fetchResults != [] && control.fetchResults[0].FetchFailed?
      modifies this`control
      ensures Reacts(old(Now()), FetchReady, Now())
    {
      ghost var s := Now();
      control := control.(fetchResults := control.fetchResults[1..], fetching := false);
      control := control.(retryDelay := NextAgentRetryDelay(control.pollInterval, control.retryDelay));
      control := control.(failures := control.failures + 1);
      control := control.(pollTimer := Armed(control.retryDelay));
      FailedMoves(s, Now());
    }

    /** Forgets completed commands after ten minutes. */
    method PurgeCompleted(time: Time)
      modifies this`ledger
      ensures ledger == Purge(old(ledger), time)
    {
      var completed := ledger.completed;
      var rest := completed.Keys;
      while rest != {}
        invariant rest <= completed.Keys <= ledger.completed.Keys
        invariant forall id :: id in completed ==> completed[id] == ledger.completed[id]
        invariant forall id :: id in ledger.completed && id !in rest ==> (id in completed <==> time - ledger.completed[id] <= RETENTION)
        decreases |rest|
      {
        var id :| id in rest;
        rest := rest - {id};
        if time - completed[id] > RETENTION {
          completed := completed - {id};
        }
      }
      assert completed == Purge(ledger, time).completed;
      ledger := ledger.(completed := completed);
    }

    /** Queues the commands that are neither known nor lately completed. */
    method QueueCommands(commands: seq<Command>)
      modifies this`ledger
      ensures ledger == EnqueueAll(old(ledger), commands)
    {
      for i := 0 to |commands|
        invariant ledger == EnqueueAll(old(ledger), commands[..i])
      {
        assert commands[..i + 1][..i] == commands[..i];
        var command := commands[i];
        if command.id in ledger.known {
          continue;
        }
        if command.id in ledger.completed {
          continue;
        }
        ledger := ledger.(known := ledger.known + {command.id});
        ledger := ledger.(queued := ledger.queued + [command], history := ledger.history + [Arrived(command)]);
      }
      assert commands[..|commands|] == commands;
    }

    /** Drops the schedules of sources that are neither assigned nor running. */
    method PruneSchedules()
      modifies this`schedules
      ensures schedules == KeptSchedules(old(schedules), assignments, pool.running)
    {
      var active := set a | a in assignments :: a.sourceId;
      var rest := schedules.Keys;
      while rest != {}
        invariant rest <= schedules.Keys <= old(schedules).Keys
        invariant forall id :: id in schedules ==> schedules[id] == old(schedules)[id]
        invariant forall id :: id in old(schedules) && id !in rest ==> (id in schedules <==> id in active || id in pool.running)
        decreases |rest|
      {
        var id :| id in rest;
        rest := rest - {id};
        if id !in active && id !in pool.running {
          schedules := schedules - {id};
        }
      }
    }

    /** The control connection works: its delays are reset and its interval may change. */
    method Recover() returns (configuration: Configuration)
      requires control.fetchResults != [] && control.fetchResults[0].Fetched?
      modifies this`control
      ensures configuration == old(control).fetchResults[0].configuration
      ensures control == Configured(old(Now()), now).control
    {
      configuration := control.fetchResults[0].configuration;
      control := control.(fetchResults := control.fetchResults[1..], fetching := false, retryDelay := 0, failures := 0);
      if configuration.intervalSeconds != 0 {
        control := control.(pollInterval := configuration.intervalSeconds * SECOND);
      }
    }

    /** Takes over a new configuration, up to starting anything. */
    method Configure()
      requires control.fetchResults != [] && control.fetchResults[0].Fetched?
      modifies this
      ensures Now() == Configured(old(Now()), now) && now == old(now)
    {
      var configuration := Recover();
      endpoints := configuration.endpoints;
      assignments := configuration.assignments;
      PurgeCompleted(now);
      QueueCommands(configuration.commands);
      PruneSchedules();
      log := log + [Adopted(configuration, pool.running)];
    }

    method OnFetched()
      requires control.fetchResults != [] && control.fetchResults[0].Fetched?
      modifies this
      ensures Reacts(old(Now()), FetchReady, Now())
    {
      ghost var s := Now();
      var time := Clock();
      Configure();
      ghost var done := Now();
      ghost var ids := StartPendingReports();
      ghost var mid := Now();
      DispatchWork();
      ghost var end := Now();
      control := control.(pollTimer := Armed(control.pollInterval));
      FetchedMoves(s, time, done, ids, mid, end, Now());
    }

    /** Frees the worker of scheduled work that has answered. */
    method FreeSource() returns (completed: SourceResult)
      requires pool.sourceResults != []
      modifies this`pool
      ensures completed == old(pool).sourceResults[0]
      ensures pool == ReceiveSource(old(pool))
    {
      completed := pool.sourceResults[0];
      var source := completed.assignment.sourceId;
      pool := pool.(sourceResults := pool.sourceResults[1..], active := pool.active - 1);
      pool := pool.(running := pool.running - {source}, collecting := pool.collecting - {source});
    }

    method OnSourceResult()
      requires pool.sourceResults != []
      modifies this
      ensures Reacts(old(Now()), SourceReady, Now())
    {
      ghost var s := Now();
      var completed := FreeSource();
      var delay := completed.assignment.intervalSeconds * SECOND;
      if !completed.outcome.succeeded && completed.outcome.retryable && delay > MINUTE {
        delay := MINUTE;
      }
      var time := Clock();
      schedules := schedules[completed.assignment.sourceId := Schedule(completed.assignment.revision, time + delay)];
      log := log + [Gathered(completed.assignment, completed.outcome, time)];
      ghost var done := Now();
      DispatchWork();
      SourceMoves(s, time, done, Now());
    }

    /** Frees the worker of a command that has answered. */
    method FreeCommand() returns (completed: CommandResult)
      requires pool.commandResults != []
      modifies this`pool
      ensures completed == old(pool).commandResults[0]
      ensures pool == ReceiveCommand(old(pool))
    {
      completed := pool.commandResults[0];
      var source := completed.command.Source();
      pool := pool.(commandResults := pool.commandResults[1..], active := pool.active - 1);
      pool := pool.(running := pool.running - {source});
      if completed.command.kind.RunNow? {
        pool := pool.(collecting := pool.collecting - {source});
      }
    }

    method OnCommandResult()
      requires pool.commandResults != []
      modifies this
      ensures Reacts(old(Now()), CommandReady, Now())
    {
      ghost var s := Now();
      var completed := FreeCommand();
      var assignment := completed.command.assignment;
      ledger := ledger.(pending := ledger.pending[completed.command.id := completed.report]);
      var time := Clock();
      if completed.command.kind.RunNow? {
        schedules := schedules[assignment.sourceId := Schedule(assignment.revision, time + assignment.intervalSeconds * SECOND)];
      }
      log := log + [Ran(completed.command, completed.report, time)];
      ghost var done := Now();
      ghost var ids := StartPendingReports();
      ghost var mid := Now();
      DispatchWork();
      CommandMoves(s, time, done, ids, mid, Now());
    }

    /** Reads one receipt; a report that failed stays pending and is sent again after the next check-in. */
    method OnReportResult()
      requires ledger.receipts != []
      modifies this`ledger, this`now
      ensures Reacts(old(Now()), ReportReady, Now())
    {
      ghost var s := Now();
      var reported := ledger.receipts[0];
      var id := reported.delivery.id;
      var time := Clock();
      ledger := ledger.(receipts := ledger.receipts[1..], reporting := ledger.reporting - {id});
      if reported.delivered {
        ledger := ledger.(pending := ledger.pending - {id}, known := ledger.known - {id});
        ledger := ledger.(completed := ledger.completed[id := time], history := ledger.history + [Reported(id, time)]);
      }
      ReportMoves(s, Now());
    }

    // ---- Around the loop ----------------------------------------------------------------------

    method WorkFinishes(i: nat, outcome: Outcome, report: Report)
      requires i < |pool.working|
      modifies this`pool, this`log
      ensures Reacts(old(Now()), WorkEnds(i, outcome, report), Now())
    {
      ghost var s := Now();
      var work := pool.working[i];
      pool := pool.(working := pool.working[..i] + pool.working[i + 1..]);
      match work {
        case Collect(assignment) => pool := pool.(sourceResults := pool.sourceResults + [SourceResult(assignment, outcome)]);
        case Execute(command) => pool := pool.(commandResults := pool.commandResults + [CommandResult(command, report)]);
      }
      log := log + [Answered(work, outcome, report)];
      WorkMoves(s, i, outcome, report, Now());
    }

    method ReportFinishes(i: nat, delivered: bool)
      requires i < |ledger.reportsOut|
      modifies this`ledger, this`log
      ensures Reacts(old(Now()), ReportEnds(i, delivered), Now())
    {
      ghost var s := Now();
      log := log + [Sent(ledger.reportsOut[i].id, ledger.reportsOut[i].report, delivered)];
      ledger := ledger.(receipts := ledger.receipts + [Receipt(ledger.reportsOut[i], delivered)],
                        reportsOut := ledger.reportsOut[..i] + ledger.reportsOut[i + 1..]);
      SendMoves(s, i, delivered, Now());
    }

    method FetchFinishes(fetch: Fetch)
      requires control.fetches != []
      modifies this`control
      ensures Reacts(old(Now()), FetchEnds(fetch), Now())
    {
      ghost var s := Now();
      control := control.(fetches := control.fetches[1..], fetchResults := control.fetchResults + [fetch]);
      FetchMoves(s, fetch, Now());
    }

    method TimerFires()
      requires control.pollTimer.Armed?
      modifies this`control
      ensures Reacts(old(Now()), TimerElapses, Now())
    {
      ghost var s := Now();
      control := control.(pollTimer := Fired);
      TimerMoves(s, Now());
    }

    method TimePasses(offer: Offer)
      requires Answers(Now(), offer, Tick)
      modifies this`now
      ensures Reacts(old(Now()), offer, Now())
    {
      ghost var s := Now();
      var time := Clock();
      TickMoves(s, offer, Now());
    }

    /** Lets what is offered happen, if it is ready. */
    method React(offer: Offer)
      modifies this
      ensures Reacts(old(Now()), offer, Now())
    {
      match offer {
        case TimerElapses => if control.pollTimer.Armed? { TimerFires(); return; }
        case WorkEnds(i, outcome, report) => if i < |pool.working| { WorkFinishes(i, outcome, report); return; }
        case ReportEnds(i, delivered) => if i < |ledger.reportsOut| { ReportFinishes(i, delivered); return; }
        case FetchEnds(fetch) => if control.fetches != [] { FetchFinishes(fetch); return; }
        case PollReady => if control.pollTimer.Fired? { OnPollTimer(); return; }
        case FetchReady =>
          if control.fetchResults != [] {
            if control.fetchResults[0].FetchFailed? { OnFetchFailed(); } else { OnFetched(); }
            return;
          }
        case SourceReady => if pool.sourceResults != [] { OnSourceResult(); return; }
        case CommandReady => if pool.commandResults != [] { OnCommandResult(); return; }
        case ReportReady => if ledger.receipts != [] { OnReportResult(); return; }
        case Wait =>
      }
      TimePasses(offer);
    }
  }

  /** The daemon until it is stopped: whatever is offered, and in whatever order, this is a run of the model. */
  method RunDaemon(pollInterval: Time, start: Time, offers: seq<Offer>) returns (daemon: Daemon, ghost trace: seq<State>)
    ensures fresh(daemon)
    ensures Run(trace, offers, pollInterval) && trace[|offers|] == daemon.Now()
    ensures Invariant(daemon.Now())
  {
    daemon := new Daemon(pollInterval, start);
    trace := [daemon.Now()];
    for n := 0 to |offers|
      invariant fresh(daemon)
      invariant Run(trace, offers[..n], pollInterval) && trace[n] == daemon.Now()
    {
      daemon.React(offers[n]);
      RunGrows(trace, offers[..n], offers[n], daemon.Now(), pollInterval);
      assert offers[..n + 1] == offers[..n] + [offers[n]];
      trace := trace + [daemon.Now()];
    }
    assert offers[..|offers|] == offers;
    RunSound(trace, offers, pollInterval, |offers|);
  }
}
