/**
 * The daemon's variables, told from what has happened to its work: when each source may next be collected, what each
 * pending result is, which commands arrived and which reports got through.
 */
module DaemonHistory {
  import opened Prelude
  import opened CommandLedger
  import opened WorkerPool
  import opened DaemonModel

  // ---- Reading the log ------------------------------------------------------------------------

  /** How long a source rests after scheduled work: its interval, or at most a minute after a failure worth retrying. */
  function Rest(a: Assignment, outcome: Outcome): Time {
    if !outcome.succeeded && outcome.retryable && a.intervalSeconds > 60 then 60_000_000_000
    else a.intervalSeconds * 1_000_000_000
  }

  /** The configuration still knows the source, or the source is busy. */
  predicate Remembers(c: Configuration, running: set<string>, source: string) {
    source in running || exists a :: a in c.assignments && a.sourceId == source
  }

  /** What a moment says of the next run of a source, if anything: when, that it is unknown, or nothing. */
  datatype Verdict = Silent | Unknown | Next(revision: string, time: Time)

  function VerdictOn(m: Moment, source: string): Verdict {
    match m
    case Gathered(a, outcome, time) => if a.sourceId == source then Next(a.revision, time + Rest(a, outcome)) else Silent
    case Ran(c, _, time) =>
      if c.kind.RunNow? && c.assignment.sourceId == source
      then Next(c.assignment.revision, time + c.assignment.intervalSeconds * 1_000_000_000) else Silent
    case Adopted(c, running) => if Remembers(c, running, source) then Silent else Unknown
    case _ => Silent
  }

  /** The last verdict on a source. */
  function LastVerdict(log: seq<Moment>, source: string): Verdict {
    if log == [] then Unknown
    else
      var n := |log| - 1;
      if VerdictOn(log[n], source).Silent? then LastVerdict(log[..n], source) else VerdictOn(log[n], source)
  }

  /** The assignments in force. */
  function LastAssigned(log: seq<Moment>): seq<Assignment> {
    if log == [] then []
    else if log[|log| - 1].Adopted? then log[|log| - 1].configuration.assignments
    else LastAssigned(log[..|log| - 1])
  }

  /** The interval the last configuration that had one asked for. */
  function LastInterval(log: seq<Moment>, initial: Time): Time {
    if log == [] then initial
    else
      var last := log[|log| - 1];
      if last.Adopted? && last.configuration.intervalSeconds != 0 then last.configuration.intervalSeconds * 1_000_000_000
      else LastInterval(log[..|log| - 1], initial)
  }

  /** The result of the last execution of the command that the loop has read. */
  function LastReport(log: seq<Moment>, id: string): Option<Report> {
    if log == [] then None
    else
      var last := log[|log| - 1];
      if last.Ran? && last.command.id == id then Some(last.report) else LastReport(log[..|log| - 1], id)
  }

  /** How many reports of the command got through. */
  function Delivered(log: seq<Moment>, id: string): nat {
    if log == [] then 0
    else
      var last := log[|log| - 1];
      Delivered(log[..|log| - 1], id) + (if last.Sent? && last.id == id && last.delivered then 1 else 0)
  }

  /** How many delivered reports of the command the loop has read. */
  function Concluded(h: seq<Event>, id: string): nat {
    if h == [] then 0
    else
      var last := h[|h| - 1];
      Concluded(h[..|h| - 1], id) + (if last.Reported? && last.id == id then 1 else 0)
  }

  /** How many delivered reports of the command are still to be read. */
  function Unread(receipts: seq<Receipt>, id: string): nat {
    if receipts == [] then 0
    else (if receipts[0].delivery.id == id && receipts[0].delivered then 1 else 0) + Unread(receipts[1..], id)
  }

  predicate EndsWorkOf(m: Moment, source: string) {
    match m
    case Gathered(a, _, _) => a.sourceId == source
    case Ran(c, _, _) => c.assignment.sourceId == source
    case _ => false
  }

  predicate BeginsWorkOf(m: Moment, source: string) {
    match m
    case Began(Collect(a), _) => a.sourceId == source
    case Began(Execute(c), _) => c.assignment.sourceId == source
    case _ => false
  }

  /** Work of the source has begun and not ended. */
  predicate BusyIn(log: seq<Moment>, source: string) {
    if log == [] then false
    else
      var last := log[|log| - 1];
      BeginsWorkOf(last, source) || (!EndsWorkOf(last, source) && BusyIn(log[..|log| - 1], source))
  }

  ghost predicate Gave(m: Moment, work: Work, outcome: Option<Outcome>, report: Option<Report>) {
    m.Answered? && m.work == work && (outcome.Some? ==> m.outcome == outcome.value) && (report.Some? ==> m.report == report.value)
  }

  /** Some goroutine at this work has ended with this. */
  ghost predicate Ended(log: seq<Moment>, work: Work, outcome: Option<Outcome>, report: Option<Report>) {
    exists m :: m in log && Gave(m, work, outcome, report)
  }

  /** The source may be collected: nothing holds it back, or what does is over or of another revision. */
  predicate MayRun(verdict: Verdict, a: Assignment, time: Time) {
    verdict.Next? && verdict.revision == a.revision ==> verdict.time <= time
  }

  /** Scheduled work that begins is assigned, enabled and due. */
  ghost predicate BeganDue(before: seq<Moment>, a: Assignment, time: Time) {
    a in LastAssigned(before) && a.enabled && MayRun(LastVerdict(before, a.sourceId), a, time)
  }

  /** What the log says of the moment at j, from those before it. */
  ghost predicate Explained(log: seq<Moment>, j: nat)
    requires j < |log|
  {
    match log[j]
    case Began(work, time) => !BusyIn(log[..j], work.Source()) && (work.Collect? ==> BeganDue(log[..j], work.assignment, time))
    case Gathered(a, outcome, _) => Ended(log[..j], Collect(a), Some(outcome), None)
    case Ran(c, report, _) => Ended(log[..j], Execute(c), None, Some(report))
    case Sent(id, report, _) => LastReport(log[..j], id) == Some(report)
    case _ => true
  }

  ghost predicate Schedules(schedules: map<string, Schedule>, log: seq<Moment>) {
    forall source :: match LastVerdict(log, source)
                     case Next(revision, time) => source in schedules && schedules[source] == Schedule(revision, time)
                     case _ => source !in schedules
  }

  /** Some configuration had the command. */
  ghost predicate Offered(log: seq<Moment>, c: Command) {
    exists m :: m in log && m.Adopted? && c in m.configuration.commands
  }

  datatype Tale = Planned | Turns | Assigned | Explains | Results | Pending | Delivering | Arrivals | Polls

  ghost predicate Tells(s: State, initial: Time, tale: Tale) {
    match tale
    case Planned => Schedules(s.schedules, s.log)
    case Turns => forall source :: source in s.pool.running <==> BusyIn(s.log, source)
    case Assigned => s.assignments == LastAssigned(s.log)
    case Explains => forall j: nat :: j < |s.log| ==> Explained(s.log, j)
    case Results =>
      && (forall r :: r in s.pool.sourceResults ==> Ended(s.log, Collect(r.assignment), Some(r.outcome), None))
      && (forall r :: r in s.pool.commandResults ==> Ended(s.log, Execute(r.command), None, Some(r.report)))
    case Pending => forall id :: id in s.ledger.pending ==> LastReport(s.log, id) == Some(s.ledger.pending[id])
    case Delivering => forall id :: Delivered(s.log, id) == Concluded(s.ledger.history, id) + Unread(s.ledger.receipts, id)
    case Arrivals => forall e :: e in s.ledger.history && e.Arrived? ==> Offered(s.log, e.command)
    case Polls => s.control.pollInterval == LastInterval(s.log, initial)
  }

  ghost predicate Told(s: State, initial: Time) {
    forall tale :: Tells(s, initial, tale)
  }

  lemma InitialTold(initial: Time, now: Time)
    ensures Told(Initial(initial, now), initial)
  {
    var s := Initial(initial, now);
    forall tale
      ensures Tells(s, initial, tale)
    {
    }
  }

  // ---- One more moment ------------------------------------------------------------------------

  lemma EndedGrows(log: seq<Moment>, m: Moment, work: Work, outcome: Option<Outcome>, report: Option<Report>)
    ensures Ended(log, work, outcome, report) ==> Ended(log + [m], work, outcome, report)
    ensures Gave(m, work, outcome, report) ==> Ended(log + [m], work, outcome, report)
  {
    if Ended(log, work, outcome, report) {
      var earlier :| earlier in log && Gave(earlier, work, outcome, report);
      assert earlier in log + [m];
    }
    assert m in log + [m];
  }

  lemma OfferedGrows(log: seq<Moment>, m: Moment, c: Command)
    ensures Offered(log, c) ==> Offered(log + [m], c)
    ensures m.Adopted? && c in m.configuration.commands ==> Offered(log + [m], c)
  {
    if Offered(log, c) {
      var before :| before in log && before.Adopted? && c in before.configuration.commands;
      assert before in log + [m];
    }
    assert m in log + [m];
  }

  lemma ExplainedGrows(log: seq<Moment>, m: Moment)
    requires forall j: nat :: j < |log| ==> Explained(log, j)
    requires Explained(log + [m], |log|)
    ensures forall j: nat :: j < |log + [m]| ==> Explained(log + [m], j)
  {
    var more := log + [m];
    forall j: nat | j < |more|
      ensures Explained(more, j)
    {
      if j < |log| {
        assert Explained(log, j) && more[..j] == log[..j] && more[j] == log[j];
      }
    }
  }

  /** How the readings change with one more moment. */
  lemma ReadingsGrow(log: seq<Moment>, m: Moment)
    ensures forall source :: LastVerdict(log + [m], source) ==
              if VerdictOn(m, source).Silent? then LastVerdict(log, source) else VerdictOn(m, source)
    ensures LastAssigned(log + [m]) == if m.Adopted? then m.configuration.assignments else LastAssigned(log)
    ensures forall source :: BusyIn(log + [m], source) <==>
              BeginsWorkOf(m, source) || (!EndsWorkOf(m, source) && BusyIn(log, source))
    ensures forall id :: LastReport(log + [m], id) == if m.Ran? && m.command.id == id then Some(m.report) else LastReport(log, id)
    ensures forall id :: Delivered(log + [m], id) == Delivered(log, id) + (if m.Sent? && m.id == id && m.delivered then 1 else 0)
    ensures forall initial :: LastInterval(log + [m], initial) ==
              if m.Adopted? && m.configuration.intervalSeconds != 0 then m.configuration.intervalSeconds * 1_000_000_000
              else LastInterval(log, initial)
  {
    assert (log + [m])[..|log|] == log;
  }

  /** What the tales look at. */
  ghost predicate Alike(s: State, t: State) {
    && t.log == s.log && t.schedules == s.schedules && t.assignments == s.assignments
    && t.pool.running == s.pool.running && t.pool.sourceResults == s.pool.sourceResults && t.pool.commandResults == s.pool.commandResults
    && t.ledger.pending == s.ledger.pending && t.ledger.history == s.ledger.history && t.ledger.receipts == s.ledger.receipts
    && t.control.pollInterval == s.control.pollInterval
  }

  lemma AlikeTold(s: State, t: State, initial: Time)
    requires Told(s, initial) && Alike(s, t)
    ensures Told(t, initial)
  {
    forall tale
      ensures Tells(t, initial, tale)
    {
      assert Tells(s, initial, tale);
    }
  }

  lemma ResultsGrow(s: State, m: Moment)
    requires forall r :: r in s.pool.sourceResults ==> Ended(s.log, Collect(r.assignment), Some(r.outcome), None)
    requires forall r :: r in s.pool.commandResults ==> Ended(s.log, Execute(r.command), None, Some(r.report))
    ensures forall r :: r in s.pool.sourceResults ==> Ended(s.log + [m], Collect(r.assignment), Some(r.outcome), None)
    ensures forall r :: r in s.pool.commandResults ==> Ended(s.log + [m], Execute(r.command), None, Some(r.report))
  {
    forall r | r in s.pool.sourceResults
      ensures Ended(s.log + [m], Collect(r.assignment), Some(r.outcome), None)
    {
      EndedGrows(s.log, m, Collect(r.assignment), Some(r.outcome), None);
    }
    forall r | r in s.pool.commandResults
      ensures Ended(s.log + [m], Execute(r.command), None, Some(r.report))
    {
      EndedGrows(s.log, m, Execute(r.command), None, Some(r.report));
    }
  }

  lemma ArrivalsGrow(s: State, m: Moment)
    requires forall e :: e in s.ledger.history && e.Arrived? ==> Offered(s.log, e.command)
    ensures forall e :: e in s.ledger.history && e.Arrived? ==> Offered(s.log + [m], e.command)
  {
    forall e | e in s.ledger.history && e.Arrived?
      ensures Offered(s.log + [m], e.command)
    {
      OfferedGrows(s.log, m, e.command);
    }
  }

  /** The state when work begins or has ended, before anything else changes. */
  function Noted(s: State, m: Moment): State {
    s.(log := s.log + [m], pool := s.pool.(running := if m.Began? then s.pool.running + {m.work.Source()} else s.pool.running))
  }

  /** Work that begins or ends leaves the tales true. */
  lemma QuietMomentTold(s: State, m: Moment, initial: Time)
    requires Told(s, initial) && (m.Began? || m.Answered?)
    requires Explained(s.log + [m], |s.log|)
    ensures Told(Noted(s, m), initial)
  {
    var t := Noted(s, m);
    ReadingsGrow(s.log, m);
    forall tale
      ensures Tells(t, initial, tale)
    {
      assert Tells(s, initial, tale);
      match tale {
        case Explains => ExplainedGrows(s.log, m);
        case Results => ResultsGrow(s, m);
        case Arrivals => ArrivalsGrow(s, m);
        case _ =>
      }
    }
  }

  // ---- Launches -------------------------------------------------------------------------------

  lemma ScheduleAllows(s: State, a: Assignment, time: Time, initial: Time)
    requires Told(s, initial) && Due(a, s.schedules, s.pool.running, time) && a in s.assignments
    ensures BeganDue(s.log, a, time)
  {
    assert Tells(s, initial, Planned) && Tells(s, initial, Assigned);
  }

  lemma CommandLaunchTold(s: State, t: State, i: nat, initial: Time)
    requires Told(s, initial) && LaunchesCommand(s, t, i)
    ensures Told(t, initial)
  {
    var m := Began(Execute(s.ledger.queued[i]), t.now);
    assert (s.log + [m])[..|s.log|] == s.log;
    assert Tells(s, initial, Turns);
    QuietMomentTold(s, m, initial);
    HistoryStarts(Noted(s, m), t, s.ledger.queued[i], t.now, initial);
  }

  /** A start in the history of commands changes none of the tales. */
  lemma HistoryStarts(s: State, t: State, c: Command, time: Time, initial: Time)
    requires Told(s, initial)
    requires t.ledger.history == s.ledger.history + [Started(c, time)]
    requires Alike(s, t.(ledger := t.ledger.(history := s.ledger.history)))
    ensures Told(t, initial)
  {
    var h := s.ledger.history;
    assert (h + [Started(c, time)])[..|h|] == h;
    forall tale
      ensures Tells(t, initial, tale)
    {
      assert Tells(s, initial, tale);
    }
  }

  lemma SourceLaunchTold(s: State, t: State, k: nat, initial: Time)
    requires Told(s, initial) && LaunchesSource(s, t, k)
    ensures Told(t, initial)
  {
    var a := s.assignments[k];
    ScheduleAllows(s, a, t.now, initial);
    var m := Began(Collect(a), t.now);
    assert (s.log + [m])[..|s.log|] == s.log;
    assert Tells(s, initial, Turns);
    QuietMomentTold(s, m, initial);
    AlikeTold(Noted(s, m), t, initial);
  }

  lemma LaunchTold(s: State, t: State, initial: Time)
    requires Told(s, initial) && Launches(s, t)
    ensures Told(t, initial)
  {
    if i: nat :| LaunchesCommand(s, t, i) {
      CommandLaunchTold(s, t, i, initial);
    } else {
      var k: nat :| LaunchesSource(s, t, k);
      SourceLaunchTold(s, t, k, initial);
    }
  }

  lemma DispatchTold(s: State, t: State, initial: Time)
    requires Told(s, initial) && Dispatched(s, t)
    ensures Told(t, initial)
  {
    var path: seq<State> :| Dispatch(path, s, t);
    forall a, b | Launches(a, b) && Told(a, initial)
      ensures Told(b, initial)
    {
      LaunchTold(a, b, initial);
    }
    PathKeeps(path, |path| - 1, (a: State) => Told(a, initial));
    AlikeTold(path[|path| - 1], t, initial);
  }

  // ---- The arms -------------------------------------------------------------------------------

  lemma {:induction false} BeginAllKeeps(l: Ledger, ids: seq<string>)
    ensures BeginAll(l, ids).pending == l.pending && BeginAll(l, ids).history == l.history && BeginAll(l, ids).receipts == l.receipts
  {
    if ids != [] {
      BeginAllKeeps(l, ids[..|ids| - 1]);
    }
  }

  lemma ReportsTold(s: State, t: State, ids: seq<string>, initial: Time)
    requires Told(s, initial) && BeginsReports(s, t, ids)
    ensures Told(t, initial)
  {
    BeginAllKeeps(s.ledger, ids);
    AlikeTold(s, t, initial);
  }

  lemma SourceDoneTold(s: State, now: Time, initial: Time)
    requires Told(s, initial) && s.pool.sourceResults != []
    ensures Told(SourceDone(s, now), initial)
  {
    var t, r := SourceDone(s, now), s.pool.sourceResults[0];
    var m := Gathered(r.assignment, r.outcome, now);
    ReadingsGrow(s.log, m);
    assert r in s.pool.sourceResults && (s.log + [m])[..|s.log|] == s.log;
    forall tale
      ensures Tells(t, initial, tale)
    {
      assert Tells(s, initial, tale) && Tells(s, initial, Results);
      match tale {
        case Explains => ExplainedGrows(s.log, m);
        case Results => ResultsGrow(s, m);
        case Arrivals => ArrivalsGrow(s, m);
        case _ =>
      }
    }
  }

  lemma CommandDoneTold(s: State, now: Time, initial: Time)
    requires Told(s, initial) && s.pool.commandResults != []
    ensures Told(CommandDone(s, now), initial)
  {
    var t, r := CommandDone(s, now), s.pool.commandResults[0];
    var m := Ran(r.command, r.report, now);
    ReadingsGrow(s.log, m);
    assert r in s.pool.commandResults && (s.log + [m])[..|s.log|] == s.log;
    forall tale
      ensures Tells(t, initial, tale)
    {
      assert Tells(s, initial, tale) && Tells(s, initial, Results);
      match tale {
        case Explains => ExplainedGrows(s.log, m);
        case Results => ResultsGrow(s, m);
        case Arrivals => ArrivalsGrow(s, m);
        case _ =>
      }
    }
  }

  lemma WorkAnswersTold(s: State, i: nat, outcome: Outcome, report: Report, initial: Time)
    requires Told(s, initial) && i < |s.pool.working|
    ensures Told(WorkAnswers(s, i, outcome, report), initial)
  {
    var m := Answered(s.pool.working[i], outcome, report);
    var mid, t := Noted(s, m), WorkAnswers(s, i, outcome, report);
    QuietMomentTold(s, m, initial);
    EndedGrows(s.log, m, s.pool.working[i], Some(outcome), None);
    EndedGrows(s.log, m, s.pool.working[i], None, Some(report));
    forall tale
      ensures Tells(t, initial, tale)
    {
      assert Tells(mid, initial, tale);
    }
  }

  lemma {:induction false} UnreadGrows(receipts: seq<Receipt>, r: Receipt, id: string)
    ensures Unread(receipts + [r], id) == Unread(receipts, id) + (if r.delivery.id == id && r.delivered then 1 else 0)
  {
    if receipts == [] {
      assert [r][1..] == [];
    } else {
      assert (receipts + [r])[1..] == receipts[1..] + [r];
      UnreadGrows(receipts[1..], r, id);
    }
  }

  lemma ReportAnswersTold(s: State, i: nat, delivered: bool, initial: Time)
    requires Told(s, initial) && WorkSound(s) && i < |s.ledger.reportsOut|
    ensures Told(ReportAnswers(s, i, delivered), initial)
  {
    var t, d := ReportAnswers(s, i, delivered), s.ledger.reportsOut[i];
    var m := Sent(d.id, d.report, delivered);
    ReadingsGrow(s.log, m);
    assert Holds(Executing(s.pool), s.ledger, s.now, Faithful);
    assert d in s.ledger.reportsOut && (s.log + [m])[..|s.log|] == s.log;
    forall tale
      ensures Tells(t, initial, tale)
    {
      assert Tells(s, initial, tale) && Tells(s, initial, Pending);
      match tale {
        case Explains => ExplainedGrows(s.log, m);
        case Results => ResultsGrow(s, m);
        case Delivering =>
          forall id
            ensures Delivered(t.log, id) == Concluded(t.ledger.history, id) + Unread(t.ledger.receipts, id)
          {
            UnreadGrows(s.ledger.receipts, Receipt(d, delivered), id);
          }
        case Arrivals => ArrivalsGrow(s, m);
        case _ =>
      }
    }
  }

  lemma ReportReadTold(s: State, now: Time, initial: Time)
    requires Told(s, initial) && s.ledger.receipts != []
    ensures Told(ReportRead(s, now), initial)
  {
    var t, h := ReportRead(s, now), s.ledger.history;
    assert t.ledger.history != h ==> t.ledger.history[..|h|] == h;
    forall tale
      ensures Tells(t, initial, tale)
    {
      assert Tells(s, initial, tale);
    }
  }

  /** Queueing touches neither what is pending nor what is being reported, and logs only arrivals of what it is given. */
  lemma {:induction false} EnqueueAllKeeps(l: Ledger, commands: seq<Command>)
    ensures var q := EnqueueAll(l, commands);
            && q.pending == l.pending && q.receipts == l.receipts
            && (forall id :: Concluded(q.history, id) == Concluded(l.history, id))
            && (forall e :: e in q.history && e !in l.history ==> e.Arrived? && e.command in commands)
  {
    if commands != [] {
      var n := |commands| - 1;
      var before, c := EnqueueAll(l, commands[..n]), commands[n];
      EnqueueAllKeeps(l, commands[..n]);
      assert (before.history + [Arrived(c)])[..|before.history|] == before.history;
      assert commands == commands[..n] + [c];
    }
  }

  lemma ConfiguredTold(s: State, now: Time, initial: Time)
    requires Told(s, initial) && s.control.fetchResults != [] && s.control.fetchResults[0].Fetched?
    ensures Told(Configured(s, now), initial)
  {
    var t, c := Configured(s, now), s.control.fetchResults[0].configuration;
    var m := Adopted(c, s.pool.running);
    ReadingsGrow(s.log, m);
    CommandLedgerKeeps(s, now);
    forall tale
      ensures Tells(t, initial, tale)
    {
      assert Tells(s, initial, tale);
      match tale {
        case Explains => ExplainedGrows(s.log, m);
        case Results => ResultsGrow(s, m);
        case Arrivals =>
          ArrivalsGrow(s, m);
          forall e | e in t.ledger.history && e.Arrived?
            ensures Offered(t.log, e.command)
          {
            OfferedGrows(s.log, m, e.command);
          }
        case _ =>
      }
    }
  }

  lemma CommandLedgerKeeps(s: State, now: Time)
    requires s.control.fetchResults != [] && s.control.fetchResults[0].Fetched?
    ensures var l, c := Configured(s, now).ledger, s.control.fetchResults[0].configuration;
            && l.pending == s.ledger.pending && l.receipts == s.ledger.receipts
            && (forall id :: Concluded(l.history, id) == Concluded(s.ledger.history, id))
            && (forall e :: e in l.history && e !in s.ledger.history ==> e.Arrived? && e.command in c.commands)
  {
    EnqueueAllKeeps(Purge(s.ledger, now), s.control.fetchResults[0].configuration.commands);
  }

  lemma ArmTold(s: State, step: Step, t: State, initial: Time)
    requires Told(s, initial) && Steps(s, step, t) && (step.FetchedArm? || step.SourceArm? || step.CommandArm?)
    ensures Told(t, initial)
  {
    match step {
      case FetchedArm(ids) =>
        var now, mid, end :| FetchedBy(s, now, ids, mid, end, t);
        ConfiguredTold(s, now, initial);
        ReportsTold(Configured(s, now), mid, ids, initial);
        DispatchTold(mid, end, initial);
        AlikeTold(end, t, initial);
      case SourceArm =>
        var now :| SourceBy(s, now, t);
        SourceDoneTold(s, now, initial);
        DispatchTold(SourceDone(s, now), t, initial);
      case CommandArm(ids) =>
        var now, mid :| CommandBy(s, now, ids, mid, t);
        CommandDoneTold(s, now, initial);
        ReportsTold(CommandDone(s, now), mid, ids, initial);
        DispatchTold(mid, t, initial);
    }
  }

  /** Every step leaves the daemon's variables as the log tells them. */
  lemma StepTold(s: State, step: Step, t: State, initial: Time)
    requires Told(s, initial) && WorkSound(s) && Steps(s, step, t)
    ensures Told(t, initial)
  {
    match step {
      case WorkSends(i, outcome, report) => WorkAnswersTold(s, i, outcome, report, initial);
      case ReportSends(i, delivered) => ReportAnswersTold(s, i, delivered, initial);
      case ReportArm => ReportReadTold(s, t.now, initial);
      case FetchedArm(_) => ArmTold(s, step, t, initial);
      case SourceArm => ArmTold(s, step, t, initial);
      case CommandArm(_) => ArmTold(s, step, t, initial);
      case _ => AlikeTold(s, t, initial);
    }
  }

  ghost predicate InvariantTold(s: State, initial: Time) {
    Invariant(s) && Told(s, initial)
  }

  lemma ReactionTold(s: State, offer: Offer, t: State, initial: Time)
    requires InvariantTold(s, initial) && Reacts(s, offer, t)
    ensures InvariantTold(t, initial)
  {
    var step :| Answers(s, offer, step) && Steps(s, step, t);
    StepSound(s, step, t);
    StepTold(s, step, t, initial);
  }

  /** In every state of every run, the daemon's variables are what the log tells. */
  lemma RunTold(trace: seq<State>, offers: seq<Offer>, pollInterval: Time, n: nat)
    requires Run(trace, offers, pollInterval) && n < |trace|
    ensures Invariant(trace[n]) && Told(trace[n], pollInterval)
  {
    InitialSound(pollInterval, trace[0].now);
    InitialTold(pollInterval, trace[0].now);
    forall s, offer, t | Reacts(s, offer, t) && InvariantTold(s, pollInterval)
      ensures InvariantTold(t, pollInterval)
    {
      ReactionTold(s, offer, t, pollInterval);
    }
    RunKeeps(trace, offers, pollInterval, n, (s: State) => InvariantTold(s, pollInterval));
  }

  // ---- When a source is collected again ---------------------------------------------------------

  /** Between the two moments no work of the source ended and no configuration forgot it. */
  ghost predicate Undisturbed(log: seq<Moment>, i: nat, j: nat, source: string) {
    forall k :: i < k < j && k < |log| ==>
                  match log[k]
                  case Gathered(a, _, _) => a.sourceId != source
                  case Ran(c, _, _) => c.kind.RunNow? ==> c.assignment.sourceId != source
                  case Adopted(c, running) => source in running || exists a :: a in c.assignments && a.sourceId == source
                  case _ => true
  }

  lemma {:induction false} UndisturbedVerdict(log: seq<Moment>, i: nat, j: nat, source: string)
    requires i < j <= |log| && Undisturbed(log, i, j, source) && !VerdictOn(log[i], source).Silent?
    ensures LastVerdict(log[..j], source) == VerdictOn(log[i], source)
  {
    assert log[..j][..j - 1] == log[..j - 1];
    if i < j - 1 {
      UndisturbedVerdict(log, i, j - 1, source);
    }
  }

  /**
   * Scheduled work of a source never begins before the source has rested since its last collection: the whole
   * interval after a success or a failure that is not worth retrying, and at most a minute after one that is.
   */
  lemma CollectionsApart(trace: seq<State>, offers: seq<Offer>, pollInterval: Time, n: nat, i: nat, j: nat)
    requires Run(trace, offers, pollInterval) && n < |trace|
    requires i < j < |trace[n].log| && trace[n].log[j].Began? && trace[n].log[j].work.Collect? && trace[n].log[i].Gathered?
    requires var log := trace[n].log;
             var a, b := log[i].assignment, log[j].work.assignment;
             a.sourceId == b.sourceId && a.revision == b.revision && Undisturbed(log, i, j, a.sourceId)
    ensures var log := trace[n].log;
            var a, outcome, rested := log[i].assignment, log[i].outcome, log[j].time - log[i].time;
            if !outcome.succeeded && outcome.retryable && a.intervalSeconds > 60 then rested >= 60_000_000_000
            else rested >= a.intervalSeconds * 1_000_000_000
  {
    RunTold(trace, offers, pollInterval, n);
    assert Tells(trace[n], pollInterval, Explains);
    assert Explained(trace[n].log, j);
    UndisturbedVerdict(trace[n].log, i, j, trace[n].log[i].assignment.sourceId);
  }

  /** A finished run_now puts the next scheduled collection of its source off by the whole interval. */
  lemma RunNowDefers(trace: seq<State>, offers: seq<Offer>, pollInterval: Time, n: nat, i: nat, j: nat)
    requires Run(trace, offers, pollInterval) && n < |trace|
    requires i < j < |trace[n].log| && trace[n].log[j].Began? && trace[n].log[j].work.Collect?
    requires trace[n].log[i].Ran? && trace[n].log[i].command.kind.RunNow?
    requires var log := trace[n].log;
             var a, b := log[i].command.assignment, log[j].work.assignment;
             a.sourceId == b.sourceId && a.revision == b.revision && Undisturbed(log, i, j, a.sourceId)
    ensures var log := trace[n].log;
            log[j].time - log[i].time >= log[i].command.assignment.intervalSeconds * 1_000_000_000
  {
    RunTold(trace, offers, pollInterval, n);
    assert Tells(trace[n], pollInterval, Explains);
    assert Explained(trace[n].log, j);
    UndisturbedVerdict(trace[n].log, i, j, trace[n].log[i].command.assignment.sourceId);
  }

  /** Scheduled work only ever begins for an enabled assignment of the configuration in force. */
  lemma CollectsAssigned(trace: seq<State>, offers: seq<Offer>, pollInterval: Time, n: nat, j: nat)
    requires Run(trace, offers, pollInterval) && n < |trace|
    requires j < |trace[n].log| && trace[n].log[j].Began? && trace[n].log[j].work.Collect?
    ensures var a := trace[n].log[j].work.assignment; a.enabled && a in LastAssigned(trace[n].log[..j])
  {
    RunTold(trace, offers, pollInterval, n);
    assert Tells(trace[n], pollInterval, Explains);
    assert Explained(trace[n].log, j);
  }

  /** The loop reads a result or a configuration, after which it looks for work. */
  predicate LooksForWork(s: State, offer: Offer) {
    || (offer.SourceReady? && s.pool.sourceResults != [])
    || (offer.CommandReady? && s.pool.commandResults != [])
    || (offer.FetchReady? && s.control.fetchResults != [] && s.control.fetchResults[0].Fetched?)
  }

  /** Nothing could start that has not: four pieces of work are in flight, or every idle source rests and has no command. */
  ghost predicate NothingWaits(s: State) {
    || s.pool.active >= 4
    || ((forall c :: c in s.ledger.queued ==> c.assignment.sourceId in s.pool.running) &&
        (forall a :: a in s.assignments && a.enabled && a.sourceId !in s.pool.running ==>
           var verdict := LastVerdict(s.log, a.sourceId); verdict.Next? && verdict.revision == a.revision && s.now < verdict.time))
  }

  lemma AtRestNothingWaits(s: State, initial: Time)
    requires Told(s, initial) && AtRest(s)
    ensures NothingWaits(s)
  {
    assert Tells(s, initial, Planned);
    forall a | a in s.assignments && a.enabled && a.sourceId !in s.pool.running && s.pool.active < 4
      ensures var verdict := LastVerdict(s.log, a.sourceId); verdict.Next? && verdict.revision == a.revision && s.now < verdict.time
    {
      assert !Due(a, s.schedules, s.pool.running, s.now);
    }
  }

  lemma ArmRests(s: State, step: Step, t: State)
    requires Steps(s, step, t) && (step.FetchedArm? || step.SourceArm? || step.CommandArm?)
    ensures AtRest(t)
  {
    match step {
      case FetchedArm(ids) => var now, mid, end :| FetchedBy(s, now, ids, mid, end, t);
      case SourceArm => var now :| SourceBy(s, now, t);
      case CommandArm(ids) => var now, mid :| CommandBy(s, now, ids, mid, t);
    }
  }

  /** Whenever the loop has looked for work, none that could start is left. */
  lemma WorkConserving(trace: seq<State>, offers: seq<Offer>, pollInterval: Time, n: nat)
    requires Run(trace, offers, pollInterval) && n < |offers| && LooksForWork(trace[n], offers[n])
    ensures NothingWaits(trace[n + 1])
  {
    RunTold(trace, offers, pollInterval, n + 1);
    assert ReactsAt(trace, offers, n);
    var step :| Answers(trace[n], offers[n], step) && Steps(trace[n], step, trace[n + 1]);
    ArmRests(trace[n], step, trace[n + 1]);
    AtRestNothingWaits(trace[n + 1], pollInterval);
  }

  /** What starts is the first queued command of an idle source, or else the first assignment that is due. */
  lemma LaunchOrder(s: State, t: State, initial: Time)
    requires Told(s, initial) && Launches(s, t)
    ensures t.log == s.log + [t.log[|s.log|]] && t.log[|s.log|].Began?
    ensures match t.log[|s.log|].work
            case Execute(c) =>
              exists i :: 0 <= i < |s.ledger.queued| && s.ledger.queued[i] == c && c.assignment.sourceId !in s.pool.running &&
                          forall j :: 0 <= j < i ==> s.ledger.queued[j].assignment.sourceId in s.pool.running
            case Collect(a) =>
              && (forall c :: c in s.ledger.queued ==> c.assignment.sourceId in s.pool.running)
              && exists k :: 0 <= k < |s.assignments| && s.assignments[k] == a && Ripe(s, a, t.now) &&
                             forall j :: 0 <= j < k ==> !Ripe(s, s.assignments[j], t.now)
  {
    assert Tells(s, initial, Planned);
    if i: nat :| LaunchesCommand(s, t, i) {
    } else {
      var k: nat :| LaunchesSource(s, t, k);
      forall j | 0 <= j < |s.assignments|
        ensures Due(s.assignments[j], s.schedules, s.pool.running, t.now) <==> Ripe(s, s.assignments[j], t.now)
      {
      }
    }
  }

  /** An idle source is assigned, enabled and rested. */
  predicate Ripe(s: State, a: Assignment, time: Time) {
    a.enabled && a.sourceId !in s.pool.running && MayRun(LastVerdict(s.log, a.sourceId), a, time)
  }

  lemma {:induction false} TurnBetween(log: seq<Moment>, p: nat, j: nat, source: string)
    requires p < j <= |log| && BeginsWorkOf(log[p], source) && !BusyIn(log[..j], source)
    ensures exists i :: LastEndBetween(log, p, i, j, source)
    decreases j
  {
    assert log[..j][..j - 1] == log[..j - 1];
    if EndsWorkOf(log[j - 1], source) {
      assert p < j - 1;
      assert LastEndBetween(log, p, j - 1, j, source);
    } else {
      TurnBetween(log, p, j - 1, source);
      var i :| LastEndBetween(log, p, i, j - 1, source);
      assert LastEndBetween(log, p, i, j, source);
    }
  }

  /** Work of the source ended at i, and none of its work ended between i and j. */
  ghost predicate LastEndBetween(log: seq<Moment>, p: int, i: int, j: int, source: string) {
    0 <= p < i < j <= |log| && EndsWorkOf(log[i], source) && forall k :: i < k < j ==> !EndsWorkOf(log[k], source)
  }

  /** Between two pieces of work for one source the loop has read how the first ended. */
  lemma ResultBetween(trace: seq<State>, offers: seq<Offer>, pollInterval: Time, n: nat, p: nat, j: nat, source: string)
    requires Run(trace, offers, pollInterval) && n < |trace|
    requires p < j < |trace[n].log| && BeginsWorkOf(trace[n].log[p], source) && BeginsWorkOf(trace[n].log[j], source)
    ensures exists i :: LastEndBetween(trace[n].log, p, i, j, source)
  {
    RunTold(trace, offers, pollInterval, n);
    assert Tells(trace[n], pollInterval, Explains);
    assert Explained(trace[n].log, j);
    TurnBetween(trace[n].log, p, j, source);
  }

  // ---- Results and reports ----------------------------------------------------------------------

  lemma {:induction false} LastReportRan(log: seq<Moment>, id: string)
    requires LastReport(log, id).Some?
    ensures exists i :: 0 <= i < |log| && log[i].Ran? && log[i].command.id == id && log[i].report == LastReport(log, id).value &&
                        forall k :: i < k < |log| && log[k].Ran? ==> log[k].command.id != id
  {
    var n := |log| - 1;
    if !(log[n].Ran? && log[n].command.id == id) {
      LastReportRan(log[..n], id);
      var i :| 0 <= i < n && log[..n][i].Ran? && log[..n][i].command.id == id && log[..n][i].report == LastReport(log, id).value &&
               forall k :: i < k < n && log[..n][k].Ran? ==> log[..n][k].command.id != id;
      forall k | i < k < |log| && log[k].Ran?
        ensures log[k].command.id != id
      {
        assert k < n ==> log[..n][k] == log[k];
      }
      assert log[i] == log[..n][i];
    }
  }

  /** The execution of the command whose result the loop read at i ended with this report. */
  ghost predicate ResultOf(log: seq<Moment>, i: int, id: string, report: Report) {
    && 0 <= i < |log| && log[i].Ran? && log[i].command.id == id && log[i].report == report
    && exists m :: m in log[..i] && m.Answered? && m.work == Execute(log[i].command) && m.report == report
  }

  /** Every report sent is what the last execution of its command, as the loop read it, ended with. */
  lemma ReportsAreResults(trace: seq<State>, offers: seq<Offer>, pollInterval: Time, n: nat, j: nat)
    requires Run(trace, offers, pollInterval) && n < |trace|
    requires j < |trace[n].log| && trace[n].log[j].Sent?
    ensures var log := trace[n].log;
            exists i :: ResultOf(log, i, log[j].id, log[j].report) && i < j &&
                        forall k :: i < k < j && log[k].Ran? ==> log[k].command.id != log[j].id
  {
    RunTold(trace, offers, pollInterval, n);
    var log := trace[n].log;
    assert Tells(trace[n], pollInterval, Explains);
    assert Explained(log, j);
    LastReportRan(log[..j], log[j].id);
    var i :| 0 <= i < j && log[..j][i].Ran? && log[..j][i].command.id == log[j].id && log[..j][i].report == log[j].report &&
             forall k :: i < k < j && log[..j][k].Ran? ==> log[..j][k].command.id != log[j].id;
    forall k | i < k < j && log[k].Ran?
      ensures log[k].command.id != log[j].id
    {
      assert log[..j][k] == log[k];
    }
    assert log[i] == log[..j][i] && Explained(log, i);
    var m :| m in log[..i] && Gave(m, Execute(log[i].command), None, Some(log[i].report));
    assert ResultOf(log, i, log[j].id, log[j].report);
  }

  /** Every result of scheduled work that the loop reads is what a goroutine at that work ended with. */
  lemma OutcomesAreResults(trace: seq<State>, offers: seq<Offer>, pollInterval: Time, n: nat, j: nat)
    requires Run(trace, offers, pollInterval) && n < |trace|
    requires j < |trace[n].log| && trace[n].log[j].Gathered?
    ensures var log := trace[n].log;
            exists m :: m in log[..j] && m.Answered? && m.work == Collect(log[j].assignment) && m.outcome == log[j].outcome
  {
    RunTold(trace, offers, pollInterval, n);
    var log := trace[n].log;
    assert Tells(trace[n], pollInterval, Explains);
    assert Explained(log, j);
    var m :| m in log[..j] && Gave(m, Collect(log[j].assignment), Some(log[j].outcome), None);
    assert m in log[..j] && m.Answered? && m.work == Collect(log[j].assignment) && m.outcome == log[j].outcome;
  }

  /** The loop concludes a command once for every report of it that got through, and for no other reason. */
  lemma ConcludedOnceDelivered(trace: seq<State>, offers: seq<Offer>, pollInterval: Time, n: nat, id: string)
    requires Run(trace, offers, pollInterval) && n < |trace|
    ensures Delivered(trace[n].log, id) == Concluded(trace[n].ledger.history, id) + Unread(trace[n].ledger.receipts, id)
  {
    RunTold(trace, offers, pollInterval, n);
    assert Tells(trace[n], pollInterval, Delivering);
  }

  /** Only commands that some configuration had are ever queued. */
  lemma ArrivalsOffered(trace: seq<State>, offers: seq<Offer>, pollInterval: Time, n: nat, c: Command)
    requires Run(trace, offers, pollInterval) && n < |trace| && Arrived(c) in trace[n].ledger.history
    ensures exists m :: m in trace[n].log && m.Adopted? && c in m.configuration.commands
  {
    RunTold(trace, offers, pollInterval, n);
    assert Tells(trace[n], pollInterval, Arrivals);
  }

  // ---- Polling ----------------------------------------------------------------------------------

  lemma {:induction false} EnqueueAllKnows(l: Ledger, commands: seq<Command>)
    ensures var q := EnqueueAll(l, commands);
            && q.completed == l.completed && l.known <= q.known
            && (forall c :: c in commands ==> c.id in q.known || c.id in q.completed)
            && (forall id :: id in q.known ==> id in l.known || exists c :: c in commands && c.id == id)
  {
    if commands != [] {
      var n := |commands| - 1;
      EnqueueAllKnows(l, commands[..n]);
      assert commands == commands[..n] + [commands[n]];
    }
  }

  /** What a dispatch and the reports begun before it leave alone. */
  ghost predicate Kept(s: State, t: State) {
    && t.assignments == s.assignments && t.endpoints == s.endpoints && t.control == s.control
    && t.ledger.known == s.ledger.known && t.ledger.completed == s.ledger.completed
  }

  lemma DispatchKeeps(s: State, t: State)
    requires Dispatched(s, t)
    ensures Kept(s, t)
  {
    var path: seq<State> :| Dispatch(path, s, t);
    forall a, b | Launches(a, b) && Kept(s, a)
      ensures Kept(s, b)
    {
    }
    PathKeeps(path, |path| - 1, (a: State) => Kept(s, a));
  }

  lemma {:induction false} BeginAllLeaves(l: Ledger, ids: seq<string>)
    ensures BeginAll(l, ids).known == l.known && BeginAll(l, ids).completed == l.completed
  {
    if ids != [] {
      BeginAllLeaves(l, ids[..|ids| - 1]);
    }
  }

  /** Completed commands are forgotten after ten minutes, and not before. */
  ghost predicate ForgetsAfterTen(before: map<string, Time>, after: map<string, Time>, now: Time) {
    && (forall id :: id in after <==> id in before && now - before[id] <= 600_000_000_000)
    && (forall id :: id in after ==> after[id] == before[id])
  }

  /** The daemon knows a command exactly if it did before or the configuration has it and it was not completed lately. */
  ghost predicate TakesOver(s: State, c: Configuration, t: State) {
    && t.assignments == c.assignments && t.endpoints == c.endpoints
    && t.control.pollInterval == (if c.intervalSeconds != 0 then c.intervalSeconds * 1_000_000_000 else s.control.pollInterval)
    && t.control.pollTimer == Armed(t.control.pollInterval) && t.control.failures == 0 && t.control.retryDelay == 0
    && (exists now :: s.now <= now <= t.now && ForgetsAfterTen(s.ledger.completed, t.ledger.completed, now))
    && s.ledger.known <= t.ledger.known
    && (forall command :: command in c.commands ==> command.id in t.ledger.known || command.id in t.ledger.completed)
    && (forall id :: id in t.ledger.known ==> id in s.ledger.known || exists command :: command in c.commands && command.id == id)
  }

  lemma ConfiguredTakesOver(s: State, now: Time, t: State)
    requires s.control.fetchResults != [] && s.control.fetchResults[0].Fetched? && s.now <= now <= t.now
    requires Kept(Configured(s, now), t.(control := Configured(s, now).control)) && t.control == Rearmed(Configured(s, now)).control
    ensures TakesOver(s, s.control.fetchResults[0].configuration, t)
  {
    EnqueueAllKnows(Purge(s.ledger, now), s.control.fetchResults[0].configuration.commands);
    assert ForgetsAfterTen(s.ledger.completed, t.ledger.completed, now);
  }

  lemma DispatchClock(s: State, t: State)
    requires Dispatched(s, t)
    ensures s.now <= t.now
  {
    var path: seq<State> :| Dispatch(path, s, t);
    forall a, b | Launches(a, b) && s.now <= a.now
      ensures s.now <= b.now
    {
    }
    PathKeeps(path, |path| - 1, (a: State) => s.now <= a.now);
  }

  /** After a fetch that succeeded the new configuration is in force and the timer is armed with its interval. */
  lemma AfterFetch(s: State, t: State)
    requires Reacts(s, FetchReady, t) && s.control.fetchResults != [] && s.control.fetchResults[0].Fetched?
    ensures TakesOver(s, s.control.fetchResults[0].configuration, t)
  {
    var step :| Answers(s, FetchReady, step) && Steps(s, step, t);
    var now, mid, end :| FetchedBy(s, now, step.ids, mid, end, t);
    BeginAllLeaves(Configured(s, now).ledger, step.ids);
    DispatchKeeps(mid, end);
    DispatchClock(mid, end);
    ConfiguredTakesOver(s, now, t);
  }

  lemma KnownCommands(s: State, id: string)
    requires WorkSound(s)
    ensures id in s.ledger.known <==> id in CommandIds(s.ledger.queued) || id in Executing(s.pool) || id in s.ledger.pending
  {
    assert Holds(Executing(s.pool), s.ledger, s.now, Conserved);
    var places := CommandIds(s.ledger.queued) + Executing(s.pool) + multiset(s.ledger.pending.Keys);
    assert id in s.ledger.known <==> id in multiset(s.ledger.known);
    assert id in places <==> id in CommandIds(s.ledger.queued) || id in Executing(s.pool) || id in multiset(s.ledger.pending.Keys);
  }

  lemma CollectingSourcesOf(p: Pool, source: string)
    requires PoolSound(p)
    ensures source in p.collecting <==> exists w :: w in InFlight(p) && w.Collects() && w.Source() == source
  {
    assert PoolHolds(p, Collecting);
    CollectingInFlight(InFlight(p), source);
    assert source in p.collecting <==> source in multiset(p.collecting);
  }

  /** The request the timer starts names exactly the commands in hand and the sources whose collection is in flight. */
  lemma PollTells(s: State, t: State)
    requires Invariant(s) && Reacts(s, PollReady, t) && s.control.pollTimer.Fired?
    ensures t == s.(control := t.control) && t.control.fetching && t.control.pollTimer.Idle? && |t.control.fetches| == 1
    ensures forall id :: id in t.control.fetches[0].commands <==>
              id in CommandIds(s.ledger.queued) || id in Executing(s.pool) || id in s.ledger.pending
    ensures forall source :: source in t.control.fetches[0].sources <==>
              exists w :: w in InFlight(s.pool) && w.Collects() && w.Source() == source
  {
    var step :| Answers(s, PollReady, step) && Steps(s, step, t);
    assert ControlHolds(s.control, OneOutstanding) && ControlHolds(s.control, TimerOrFetch);
    forall id
      ensures id in s.ledger.known <==> id in CommandIds(s.ledger.queued) || id in Executing(s.pool) || id in s.ledger.pending
    {
      KnownCommands(s, id);
    }
    forall source
      ensures source in s.pool.collecting <==> exists w :: w in InFlight(s.pool) && w.Collects() && w.Source() == source
    {
      CollectingSourcesOf(s.pool, source);
    }
  }

  lemma {:induction false} CollectingInFlight(work: seq<Work>, source: string)
    ensures source in Total(work, CollectingSources) <==> exists w :: w in work && w.Collects() && w.Source() == source
  {
    if work != [] {
      var n := |work| - 1;
      assert work == work[..n] + [work[n]];
      CollectingInFlight(work[..n], source);
    }
  }

  /** The polling interval is the last one a configuration asked for, or else the one the daemon was started with. */
  lemma IntervalFollows(trace: seq<State>, offers: seq<Offer>, pollInterval: Time, n: nat)
    requires Run(trace, offers, pollInterval) && n < |trace|
    ensures trace[n].control.pollInterval == LastInterval(trace[n].log, pollInterval)
  {
    RunTold(trace, offers, pollInterval, n);
    assert Tells(trace[n], pollInterval, Polls);
  }

  lemma DispatchReports(s: State, t: State)
    requires Dispatched(s, t)
    ensures t.ledger.reporting == s.ledger.reporting && t.ledger.pending == s.ledger.pending && t.endpoints == s.endpoints
  {
    var path: seq<State> :| Dispatch(path, s, t);
    forall a, b | Launches(a, b) && SameReports(s, a)
      ensures SameReports(s, b)
    {
    }
    PathKeeps(path, |path| - 1, (a: State) => SameReports(s, a));
  }

  predicate SameReports(s: State, t: State) {
    t.ledger.reporting == s.ledger.reporting && t.ledger.pending == s.ledger.pending && t.endpoints == s.endpoints
  }

  lemma BegunReports(s: State, t: State, ids: seq<string>)
    requires WorkSound(s) && BeginsReports(s, t, ids)
    ensures SameReports(s.(ledger := s.ledger.(reporting := t.ledger.reporting)), t)
    ensures t.ledger.reporting == if s.endpoints.result == "" then s.ledger.reporting else s.ledger.pending.Keys
  {
    BeginAllKeeps(s.ledger, ids);
    BeginAllSound(Executing(s.pool), s.ledger, s.now, ids);
    ReportsSound(s, t, ids);
    if s.endpoints.result == "" {
      assert Elements(ids) == {};
    }
  }

  /**
   * Whenever a configuration or the result of a command is read, every pending result is being reported if there
   * is an endpoint to report to, and no report starts if there is none.
   */
  lemma ReportsFollow(s: State, offer: Offer, t: State)
    requires Invariant(s) && Reacts(s, offer, t) && LooksForWork(s, offer) && !offer.SourceReady?
    ensures t.ledger.reporting == if t.endpoints.result == "" then s.ledger.reporting else t.ledger.pending.Keys
  {
    var step :| Answers(s, offer, step) && Steps(s, step, t);
    match step {
      case FetchedArm(ids) =>
        var now, mid, end :| FetchedBy(s, now, ids, mid, end, t);
        ConfiguredSound(s, now);
        ConfiguredReports(s, now);
        BegunReports(Configured(s, now), mid, ids);
        DispatchReports(mid, end);
      case CommandArm(ids) =>
        var now, mid :| CommandBy(s, now, ids, mid, t);
        CommandDoneSound(s, now);
        BegunReports(CommandDone(s, now), mid, ids);
        DispatchReports(mid, t);
    }
  }

  lemma ConfiguredReports(s: State, now: Time)
    requires s.control.fetchResults != [] && s.control.fetchResults[0].Fetched?
    ensures Configured(s, now).ledger.reporting == s.ledger.reporting
  {
    EnqueueAllReports(Purge(s.ledger, now), s.control.fetchResults[0].configuration.commands);
  }

  lemma {:induction false} EnqueueAllReports(l: Ledger, commands: seq<Command>)
    ensures EnqueueAll(l, commands).reporting == l.reporting
  {
    if commands != [] {
      EnqueueAllReports(l, commands[..|commands| - 1]);
    }
  }
}
