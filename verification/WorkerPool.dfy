/**
 * The daemon's bounded worker pool as a value: which sources are busy, the goroutines at work and the two
 * result channels they send on.
 */
module WorkerPool {
  import opened Prelude
  import opened CommandLedger

  const MAX_WORKERS := 4

  datatype Outcome = Outcome(succeeded: bool, retryable: bool)

  datatype Work = Collect(assignment: Assignment) | Execute(command: Command) {
    function Source(): string {
      match this
      case Collect(a) => a.sourceId
      case Execute(c) => c.Source()
    }

    /** Scheduled work and run_now commands collect; other commands do not. */
    predicate Collects() {
      Collect? || command.kind.RunNow?
    }
  }

  datatype SourceResult = SourceResult(assignment: Assignment, outcome: Outcome)

  datatype CommandResult = CommandResult(command: Command, report: Report)

  /** `working` are the goroutines that have not sent yet; the two sequences are the buffered channels. */
  datatype Pool = Pool(running: set<string>, collecting: set<string>, active: int, working: seq<Work>,
                       sourceResults: seq<SourceResult>, commandResults: seq<CommandResult>)

  // ---- What happens to the pool ---------------------------------------------------------------

  function Launch(p: Pool, w: Work): Pool {
    p.(running := p.running + {w.Source()}, collecting := if w.Collects() then p.collecting + {w.Source()} else p.collecting,
       active := p.active + 1, working := p.working + [w])
  }

  /** A goroutine sends its result, on the channel of its kind of work. */
  function Send(p: Pool, i: nat, outcome: Outcome, report: Report): Pool
    requires i < |p.working|
  {
    match p.working[i]
    case Collect(a) =>
      p.(working := Remove(p.working, i), sourceResults := p.sourceResults + [SourceResult(a, outcome)])
    case Execute(c) =>
      p.(working := Remove(p.working, i), commandResults := p.commandResults + [CommandResult(c, report)])
  }

  function ReceiveSource(p: Pool): Pool
    requires p.sourceResults != []
  {
    var source := p.sourceResults[0].assignment.sourceId;
    p.(running := p.running - {source}, collecting := p.collecting - {source}, active := p.active - 1,
       sourceResults := p.sourceResults[1..])
  }

  function ReceiveCommand(p: Pool): Pool
    requires p.commandResults != []
  {
    var c := p.commandResults[0].command;
    p.(running := p.running - {c.Source()},
       collecting := if c.kind.RunNow? then p.collecting - {c.Source()} else p.collecting,
       active := p.active - 1, commandResults := p.commandResults[1..])
  }

  // ---- Invariants -----------------------------------------------------------------------------

  function WorkOfSource(): SourceResult -> Work {
    (r: SourceResult) => Collect(r.assignment)
  }

  function WorkOfCommand(): CommandResult -> Work {
    (r: CommandResult) => Execute(r.command)
  }

  /** All work in flight: launched and not yet read back by the control loop. */
  function InFlight(p: Pool): seq<Work> {
    p.working + Mapped(WorkOfSource(), p.sourceResults) + Mapped(WorkOfCommand(), p.commandResults)
  }

  datatype View = AllSources | CollectingSources | CommandsOnly

  /** What one piece of work contributes to a view of the work in flight. */
  function Share(w: Work, view: View): multiset<string> {
    match view
    case AllSources => multiset{w.Source()}
    case CollectingSources => if w.Collects() then multiset{w.Source()} else multiset{}
    case CommandsOnly => if w.Execute? then multiset{w.command.id} else multiset{}
  }

  function Gather(work: seq<Work>, share: Work -> multiset<string>): multiset<string> {
    if work == [] then multiset{} else Gather(work[..|work| - 1], share) + share(work[|work| - 1])
  }

  function ShareOf(view: View): Work -> multiset<string> {
    (w: Work) => Share(w, view)
  }

  function Total(work: seq<Work>, view: View): multiset<string> {
    Gather(work, ShareOf(view))
  }

  function Executing(p: Pool): multiset<string> {
    Total(InFlight(p), CommandsOnly)
  }

  datatype PoolClause = Busy | Collecting | Bounded

  ghost predicate PoolHolds(p: Pool, clause: PoolClause) {
    match clause
    // The running sources are exactly those with work in flight, each with one piece of work.
    case Busy => multiset(p.running) == Total(InFlight(p), AllSources)
    // The collecting sources are exactly those of scheduled or run_now work.
    case Collecting => multiset(p.collecting) == Total(InFlight(p), CollectingSources)
    case Bounded => p.active == |InFlight(p)| <= MAX_WORKERS
  }

  ghost predicate PoolSound(p: Pool) {
    forall clause :: PoolHolds(p, clause)
  }

  const IDLE: Pool := Pool({}, {}, 0, [], [], [])

  lemma IdleSound()
    ensures PoolSound(IDLE) && Executing(IDLE) == multiset{}
  {
    assert InFlight(IDLE) == [];
    forall clause
      ensures PoolHolds(IDLE, clause)
    {
      match clause {
        case Busy =>
        case Collecting =>
        case Bounded =>
      }
    }
  }

  // ---- Totals do not depend on the order of the work --------------------------------------------

  lemma {:induction false} GatherJoins(a: seq<Work>, b: seq<Work>, share: Work -> multiset<string>)
    ensures Gather(a + b, share) == Gather(a, share) + Gather(b, share)
  {
    if b == [] {
      assert a + b == a;
    } else {
      var n := |b| - 1;
      assert (a + b)[..|a| + n] == a + b[..n];
      GatherJoins(a, b[..n], share);
    }
  }

  lemma GatherInserted(before: seq<Work>, w: Work, after: seq<Work>, share: Work -> multiset<string>)
    ensures Gather(before + [w] + after, share) == Gather(before + after, share) + share(w)
  {
    GatherJoins(before + [w], after, share);
    GatherJoins(before, [w], share);
    GatherJoins(before, after, share);
    assert [w][..0] == [];
  }

  lemma TotalInserted(before: seq<Work>, w: Work, after: seq<Work>, view: View)
    ensures Total(before + [w] + after, view) == Total(before + after, view) + Share(w, view)
  {
    GatherInserted(before, w, after, ShareOf(view));
  }

  lemma Launched(p: Pool, w: Work, view: View)
    ensures Total(InFlight(Launch(p, w)), view) == Total(InFlight(p), view) + Share(w, view)
    ensures |InFlight(Launch(p, w))| == |InFlight(p)| + 1
  {
    var rest := Mapped(WorkOfSource(), p.sourceResults) + Mapped(WorkOfCommand(), p.commandResults);
    assert InFlight(p) == p.working + rest;
    assert InFlight(Launch(p, w)) == p.working + [w] + rest;
    TotalInserted(p.working, w, rest, view);
  }

  /** Moving one piece of work to another place changes no total. */
  lemma Moved(before: seq<Work>, w: Work, after: seq<Work>, middle: seq<Work>, last: seq<Work>, view: View)
    requires before + after == middle + last
    ensures Total(before + [w] + after, view) == Total(middle + [w] + last, view)
    ensures |before + [w] + after| == |middle + [w] + last|
  {
    TotalInserted(before, w, after, view);
    TotalInserted(middle, w, last, view);
  }

  lemma Sent(p: Pool, i: nat, outcome: Outcome, report: Report, view: View)
    requires i < |p.working|
    ensures Total(InFlight(Send(p, i, outcome, report)), view) == Total(InFlight(p), view)
    ensures |InFlight(Send(p, i, outcome, report))| == |InFlight(p)|
  {
    var w, t := p.working[i], Send(p, i, outcome, report);
    var before, after, left := p.working[..i], p.working[i + 1..], Remove(p.working, i);
    var sources, commands := Mapped(WorkOfSource(), p.sourceResults), Mapped(WorkOfCommand(), p.commandResults);
    assert InFlight(p) == before + [w] + (after + sources + commands);
    assert before + (after + sources + commands) == left + sources + commands;
    if w.Collect? {
      assert InFlight(t) == (left + sources) + [w] + commands;
      Moved(before, w, after + sources + commands, left + sources, commands, view);
    } else {
      assert InFlight(t) == (left + sources + commands) + [w] + [];
      assert left + sources + commands + [] == left + sources + commands;
      Moved(before, w, after + sources + commands, left + sources + commands, [], view);
    }
  }

  lemma ReceivedSource(p: Pool, view: View)
    requires p.sourceResults != []
    ensures Total(InFlight(p), view) == Total(InFlight(ReceiveSource(p)), view) + Share(Collect(p.sourceResults[0].assignment), view)
    ensures |InFlight(p)| == |InFlight(ReceiveSource(p))| + 1
  {
    var w := Collect(p.sourceResults[0].assignment);
    var rest := Mapped(WorkOfSource(), p.sourceResults[1..]) + Mapped(WorkOfCommand(), p.commandResults);
    assert InFlight(p) == p.working + [w] + rest;
    assert InFlight(ReceiveSource(p)) == p.working + rest;
    TotalInserted(p.working, w, rest, view);
  }

  lemma ReceivedCommand(p: Pool, view: View)
    requires p.commandResults != []
    ensures Total(InFlight(p), view) == Total(InFlight(ReceiveCommand(p)), view) + Share(Execute(p.commandResults[0].command), view)
    ensures |InFlight(p)| == |InFlight(ReceiveCommand(p))| + 1
  {
    var w := Execute(p.commandResults[0].command);
    var before := p.working + Mapped(WorkOfSource(), p.sourceResults);
    var rest := Mapped(WorkOfCommand(), p.commandResults[1..]);
    assert InFlight(p) == before + [w] + rest;
    assert InFlight(ReceiveCommand(p)) == before + rest;
    TotalInserted(before, w, rest, view);
  }

  // ---- Each change keeps the invariants -------------------------------------------------------

  lemma LaunchKeeps(p: Pool, w: Work)
    requires PoolSound(p) && p.active < MAX_WORKERS && w.Source() !in p.running
    ensures PoolSound(Launch(p, w))
    ensures Executing(Launch(p, w)) == Executing(p) + Share(w, CommandsOnly)
  {
    var t := Launch(p, w);
    Launched(p, w, CommandsOnly);
    CollectingRuns(p, w.Source());
    forall clause
      ensures PoolHolds(t, clause)
    {
      assert PoolHolds(p, clause);
      match clause {
        case Busy =>
          Launched(p, w, AllSources);
          SetGrows(p.running, w.Source());
        case Collecting =>
          Launched(p, w, CollectingSources);
          if w.Collects() {
            SetGrows(p.collecting, w.Source());
          }
        case Bounded => Launched(p, w, AllSources);
      }
    }
  }

  lemma {:induction false} CollectingWithin(work: seq<Work>)
    ensures Total(work, CollectingSources) <= Total(work, AllSources)
  {
    if work != [] {
      CollectingWithin(work[..|work| - 1]);
    }
  }

  lemma CollectingRuns(p: Pool, source: string)
    requires PoolSound(p)
    ensures source in p.collecting ==> source in p.running
  {
    assert PoolHolds(p, Busy) && PoolHolds(p, Collecting);
    CollectingWithin(InFlight(p));
    assert source in p.collecting <==> source in multiset(p.collecting);
    assert source in p.running <==> source in multiset(p.running);
  }

  lemma SendKeeps(p: Pool, i: nat, outcome: Outcome, report: Report)
    requires PoolSound(p) && i < |p.working|
    ensures PoolSound(Send(p, i, outcome, report))
    ensures Executing(Send(p, i, outcome, report)) == Executing(p)
  {
    var t := Send(p, i, outcome, report);
    Sent(p, i, outcome, report, CommandsOnly);
    forall clause
      ensures PoolHolds(t, clause)
    {
      assert PoolHolds(p, clause);
      match clause {
        case Busy => Sent(p, i, outcome, report, AllSources);
        case Collecting => Sent(p, i, outcome, report, CollectingSources);
        case Bounded => Sent(p, i, outcome, report, AllSources);
      }
    }
  }

  /** A goroutine about to send finds room on both channels, so it never blocks. */
  lemma SendNeverBlocks(p: Pool, i: nat)
    requires PoolSound(p) && i < |p.working|
    ensures |p.sourceResults| < MAX_WORKERS && |p.commandResults| < MAX_WORKERS
  {
    assert PoolHolds(p, Bounded);
  }

  lemma ReceiveSourceKeeps(p: Pool)
    requires PoolSound(p) && p.sourceResults != []
    ensures PoolSound(ReceiveSource(p)) && Executing(ReceiveSource(p)) == Executing(p)
  {
    var source, t := p.sourceResults[0].assignment.sourceId, ReceiveSource(p);
    ReceivedSource(p, CommandsOnly);
    forall clause
      ensures PoolHolds(t, clause)
    {
      assert PoolHolds(p, clause);
      match clause {
        case Busy =>
          ReceivedSource(p, AllSources);
          SetLosesOne(p.running, source, Total(InFlight(t), AllSources));
        case Collecting =>
          ReceivedSource(p, CollectingSources);
          SetLosesOne(p.collecting, source, Total(InFlight(t), CollectingSources));
        case Bounded => ReceivedSource(p, AllSources);
      }
    }
  }

  lemma ReceiveCommandKeeps(p: Pool)
    requires PoolSound(p) && p.commandResults != []
    ensures PoolSound(ReceiveCommand(p))
    ensures p.commandResults[0].command.id in Executing(p)
    ensures Executing(ReceiveCommand(p)) == Executing(p) - multiset{p.commandResults[0].command.id}
  {
    var c, t := p.commandResults[0].command, ReceiveCommand(p);
    ReceivedCommand(p, CommandsOnly);
    forall clause
      ensures PoolHolds(t, clause)
    {
      assert PoolHolds(p, clause);
      match clause {
        case Busy =>
          ReceivedCommand(p, AllSources);
          SetLosesOne(p.running, c.Source(), Total(InFlight(t), AllSources));
        case Collecting =>
          ReceivedCommand(p, CollectingSources);
          if c.kind.RunNow? {
            SetLosesOne(p.collecting, c.Source(), Total(InFlight(t), CollectingSources));
          }
        case Bounded => ReceivedCommand(p, AllSources);
      }
    }
  }

  lemma SetLosesOne(s: set<string>, x: string, rest: multiset<string>)
    requires multiset(s) == rest + multiset{x}
    ensures multiset(s - {x}) == rest
  {
    assert multiset(s)[x] == rest[x] + 1;
    assert multiset(s)[x] <= 1;
    SetShrinks(s, x);
  }
}
