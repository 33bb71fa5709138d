/**
 * The daemon's bookkeeping of commands as a value: which commands it knows, where each of them is, and a
 * log of what happened to them. Every change the control loop makes to it is one of the functions below.
 */
module CommandLedger {
  import opened Prelude

  /** Times and durations in nanoseconds. */
  type Time = int

  const SECOND: Time := 1_000_000_000
  const MINUTE: Time := 60 * SECOND
  const RETENTION: Time := 10 * MINUTE

  datatype Assignment = Assignment(sourceId: string, revision: string, intervalSeconds: int, enabled: bool)

  datatype Kind = RunNow | OtherKind(name: string)

  datatype Command = Command(id: string, kind: Kind, assignment: Assignment) {
    function Source(): string {
      assignment.sourceId
    }
  }

  datatype Report = Report(succeeded: bool, summary: string)

  datatype Delivery = Delivery(id: string, report: Report)

  datatype Receipt = Receipt(delivery: Delivery, delivered: bool)

  datatype Event =
    | Arrived(command: Command)
    | Started(command: Command, time: Time)
    | Reported(id: string, time: Time)

  /**
   * `reportsOut` are reports being sent, `receipts` the outcomes of reports not read yet, and `history` the log.
   */
  datatype Ledger = Ledger(known: set<string>, queued: seq<Command>, pending: map<string, Report>, reporting: set<string>,
                           completed: map<string, Time>, reportsOut: seq<Delivery>, receipts: seq<Receipt>, history: seq<Event>)

  function Remove<T>(s: seq<T>, i: nat): (r: seq<T>)
    requires i < |s|
    ensures multiset(s) == multiset(r) + multiset{s[i]}
  {
    assert s == s[..i] + [s[i]] + s[i + 1..];
    s[..i] + s[i + 1..]
  }

  // ---- What the loop does to the ledger -------------------------------------------------------

  /** A command the daemon neither knows nor completed lately joins the queue. */
  function Enqueue(l: Ledger, c: Command): Ledger {
    if c.id in l.known || c.id in l.completed then l
    else l.(known := l.known + {c.id}, queued := l.queued + [c], history := l.history + [Arrived(c)])
  }

  function EnqueueAll(l: Ledger, commands: seq<Command>): Ledger {
    if commands == [] then l else Enqueue(EnqueueAll(l, commands[..|commands| - 1]), commands[|commands| - 1])
  }

  function Purge(l: Ledger, now: Time): Ledger {
    l.(completed := map id | id in l.completed && now - l.completed[id] <= RETENTION :: l.completed[id])
  }

  function Start(l: Ledger, i: nat, now: Time): Ledger
    requires i < |l.queued|
  {
    l.(queued := Remove(l.queued, i), history := l.history + [Started(l.queued[i], now)])
  }

  function Finish(l: Ledger, id: string, report: Report): Ledger {
    l.(pending := l.pending[id := report])
  }

  function BeginReport(l: Ledger, id: string): Ledger
    requires id in l.pending
  {
    l.(reporting := l.reporting + {id}, reportsOut := l.reportsOut + [Delivery(id, l.pending[id])])
  }

  function SendReport(l: Ledger, i: nat, delivered: bool): Ledger
    requires i < |l.reportsOut|
  {
    l.(reportsOut := Remove(l.reportsOut, i), receipts := l.receipts + [Receipt(l.reportsOut[i], delivered)])
  }

  /** Reads the first receipt: a delivered report ends the command, a failed one leaves it pending. */
  function Settle(l: Ledger, now: Time): Ledger
    requires l.receipts != []
  {
    var id := l.receipts[0].delivery.id;
    var read := l.(reporting := l.reporting - {id}, receipts := l.receipts[1..]);
    if !l.receipts[0].delivered then read
    else read.(pending := l.pending - {id}, known := l.known - {id}, completed := l.completed[id := now],
               history := l.history + [Reported(id, now)])
  }

  // ---- Invariants -----------------------------------------------------------------------------

  function CommandIds(commands: seq<Command>): multiset<string> {
    multiset(Mapped((c: Command) => c.id, commands))
  }

  function DeliveryIds(deliveries: seq<Delivery>): multiset<string> {
    multiset(Mapped((d: Delivery) => d.id, deliveries))
  }

  function ReceiptIds(receipts: seq<Receipt>): multiset<string> {
    multiset(Mapped((r: Receipt) => r.delivery.id, receipts))
  }

  predicate IsStart(h: seq<Event>, i: int, id: string) {
    0 <= i < |h| && h[i].Started? && h[i].command.id == id
  }

  predicate IsReport(h: seq<Event>, k: int, id: string) {
    0 <= k < |h| && h[k].Reported? && h[k].id == id
  }

  /** Event i was followed by a delivered report of the command, before the limit. */
  ghost predicate RestedAfter(h: seq<Event>, i: int, id: string, limit: Time) {
    exists k :: i < k && IsReport(h, k, id) && h[k].time < limit
  }

  /** Every execution of the command so far was followed by a delivered report, before the limit. */
  ghost predicate Rested(h: seq<Event>, id: string, limit: Time) {
    forall i :: IsStart(h, i, id) ==> RestedAfter(h, i, id, limit)
  }

  /** Between the two starts the command's report was delivered, more than ten minutes before the second. */
  ghost predicate Apart(h: seq<Event>, i: int, j: int, id: string) {
    && 0 <= j < |h| && h[j].Started?
    && exists k :: i < k < j && IsReport(h, k, id) && h[j].time - h[k].time > 600_000_000_000
  }

  ghost predicate Spaced(h: seq<Event>) {
    forall i, j, id :: i < j && IsStart(h, i, id) && IsStart(h, j, id) ==> Apart(h, i, j, id)
  }

  function QueuedFor(commands: seq<Command>, source: string): seq<Command> {
    if commands == [] then []
    else
      var n := |commands| - 1;
      QueuedFor(commands[..n], source) + (if commands[n].Source() == source then [commands[n]] else [])
  }

  function ArrivedFor(h: seq<Event>, source: string): seq<Command> {
    if h == [] then []
    else
      var n := |h| - 1;
      ArrivedFor(h[..n], source) + (if h[n].Arrived? && h[n].command.Source() == source then [h[n].command] else [])
  }

  function StartedFor(h: seq<Event>, source: string): seq<Command> {
    if h == [] then []
    else
      var n := |h| - 1;
      StartedFor(h[..n], source) + (if h[n].Started? && h[n].command.Source() == source then [h[n].command] else [])
  }

  datatype Clause = Conserved | Reporting | Faithful | Forgotten | Fifo | Rests | Spacing

  /** The invariants of the ledger, given the IDs of the commands being executed. */
  ghost predicate Holds(executing: multiset<string>, l: Ledger, now: Time, clause: Clause) {
    match clause
    // Every known command is queued, executing or awaiting its report: exactly one of them, and once.
    case Conserved => multiset(l.known) == CommandIds(l.queued) + executing + multiset(l.pending.Keys)
    // Every command being reported is pending and has exactly one report in flight.
    case Reporting =>
      && multiset(l.reporting) == DeliveryIds(l.reportsOut) + ReceiptIds(l.receipts)
      && l.reporting <= l.pending.Keys
    // A report in flight carries the pending result.
    case Faithful =>
      && (forall d :: d in l.reportsOut ==> d.id in l.pending && d.report == l.pending[d.id])
      && (forall r :: r in l.receipts ==> r.delivery.id in l.pending && r.delivery.report == l.pending[r.delivery.id])
    case Forgotten => l.completed.Keys !! l.known
    // Commands for one source start in the order in which they arrived.
    case Fifo => forall source :: ArrivedFor(l.history, source) == StartedFor(l.history, source) + QueuedFor(l.queued, source)
    case Rests =>
      && (forall id :: id in CommandIds(l.queued) ==> Rested(l.history, id, now - RETENTION))
      && (forall id :: id !in l.known && id !in l.completed ==> Rested(l.history, id, now - RETENTION))
      && (forall id :: id in l.completed ==> Rested(l.history, id, l.completed[id] + 1))
    // No command executes again before ten minutes after its delivered report.
    case Spacing => Spaced(l.history)
  }

  ghost predicate Sound(executing: multiset<string>, l: Ledger, now: Time) {
    forall clause :: Holds(executing, l, now, clause)
  }

  const EMPTY: Ledger := Ledger({}, [], map[], {}, map[], [], [], [])

  lemma EmptySound(now: Time)
    ensures Sound(multiset{}, EMPTY, now)
  {
    forall clause
      ensures Holds(multiset{}, EMPTY, now, clause)
    {
      match clause {
        case Conserved =>
        case Reporting =>
        case Faithful =>
        case Forgotten =>
        case Fifo =>
        case Rests =>
        case Spacing =>
      }
    }
  }

  // ---- Facts about the log --------------------------------------------------------------------

  lemma RestedLater(h: seq<Event>, id: string, limit: Time, later: Time)
    requires Rested(h, id, limit) && limit <= later
    ensures Rested(h, id, later)
  {
    forall i | IsStart(h, i, id)
      ensures RestedAfter(h, i, id, later)
    {
      assert RestedAfter(h, i, id, limit);
    }
  }

  /** Logging anything but a start of the command itself keeps it rested. */
  lemma RestedGrows(h: seq<Event>, e: Event, id: string, limit: Time)
    requires Rested(h, id, limit)
    requires !(e.Started? && e.command.id == id)
    ensures Rested(h + [e], id, limit)
  {
    forall i | IsStart(h + [e], i, id)
      ensures RestedAfter(h + [e], i, id, limit)
    {
      assert IsStart(h, i, id);
      assert RestedAfter(h, i, id, limit);
      var k :| i < k && IsReport(h, k, id) && h[k].time < limit;
      assert IsReport(h + [e], k, id);
    }
  }

  lemma ReportRests(h: seq<Event>, id: string, time: Time)
    ensures Rested(h + [Reported(id, time)], id, time + 1)
  {
    var t := h + [Reported(id, time)];
    forall i | IsStart(t, i, id)
      ensures RestedAfter(t, i, id, time + 1)
    {
      assert IsReport(t, |h|, id);
    }
  }

  lemma SpacedGrows(h: seq<Event>, e: Event)
    requires Spaced(h)
    requires e.Started? ==> Rested(h, e.command.id, e.time - RETENTION)
    ensures Spaced(h + [e])
  {
    var t := h + [e];
    forall i, j, id | i < j && IsStart(t, i, id) && IsStart(t, j, id)
      ensures Apart(t, i, j, id)
    {
      assert IsStart(h, i, id);
      if j < |h| {
        assert IsStart(h, j, id);
        assert Apart(h, i, j, id);
        var k :| i < k < j && IsReport(h, k, id) && h[j].time - h[k].time > 600_000_000_000;
        assert IsReport(t, k, id);
      } else {
        assert RestedAfter(h, i, id, e.time - RETENTION);
        var k :| i < k && IsReport(h, k, id) && h[k].time < e.time - RETENTION;
        assert IsReport(t, k, id);
      }
    }
  }

  lemma LogGrows(h: seq<Event>, e: Event, source: string)
    ensures ArrivedFor(h + [e], source) == ArrivedFor(h, source) + (if e.Arrived? && e.command.Source() == source then [e.command] else [])
    ensures StartedFor(h + [e], source) == StartedFor(h, source) + (if e.Started? && e.command.Source() == source then [e.command] else [])
  {
  }

  lemma QueueGrows(queued: seq<Command>, c: Command, source: string)
    ensures QueuedFor(queued + [c], source) == QueuedFor(queued, source) + (if c.Source() == source then [c] else [])
  {
  }

  lemma {:induction false} QueueJoins(a: seq<Command>, b: seq<Command>, source: string)
    ensures QueuedFor(a + b, source) == QueuedFor(a, source) + QueuedFor(b, source)
  {
    if b == [] {
      assert a + b == a;
    } else {
      var n := |b| - 1;
      assert (a + b)[..|a| + n] == a + b[..n];
      QueueJoins(a, b[..n], source);
    }
  }

  lemma {:induction false} NoneQueued(commands: seq<Command>, source: string)
    requires forall c :: c in commands ==> c.Source() != source
    ensures QueuedFor(commands, source) == []
  {
    if commands != [] {
      NoneQueued(commands[..|commands| - 1], source);
    }
  }

  /** No earlier command in the queue is for the same source. */
  predicate FirstOfSource(queued: seq<Command>, i: nat) {
    && i < |queued|
    && forall j :: 0 <= j < i ==> queued[j].Source() != queued[i].Source()
  }

  /** Taking the first command of its source from the queue keeps the order of every source. */
  lemma QueueTakes(queued: seq<Command>, i: nat, source: string)
    requires FirstOfSource(queued, i)
    ensures QueuedFor(queued, source) ==
            (if queued[i].Source() == source then [queued[i]] else []) + QueuedFor(Remove(queued, i), source)
  {
    var before, after := queued[..i], queued[i + 1..];
    assert queued == (before + [queued[i]]) + after;
    QueueJoins(before + [queued[i]], after, source);
    QueueGrows(before, queued[i], source);
    QueueJoins(before, after, source);
    if queued[i].Source() == source {
      NoneQueued(before, source);
    }
  }

  lemma IdsGrow(commands: seq<Command>, c: Command)
    ensures CommandIds(commands + [c]) == CommandIds(commands) + multiset{c.id}
  {
    assert Mapped((c: Command) => c.id, commands + [c]) == Mapped((c: Command) => c.id, commands) + [c.id];
  }

  lemma IdsShrink(commands: seq<Command>, i: nat)
    requires i < |commands|
    ensures CommandIds(commands) == CommandIds(Remove(commands, i)) + multiset{commands[i].id}
  {
    var ids := (c: Command) => c.id;
    assert commands == commands[..i] + [commands[i]] + commands[i + 1..];
    MappedInserted(ids, commands[..i], commands[i + 1..], commands[i]);
  }

  lemma DeliveriesShrink(deliveries: seq<Delivery>, i: nat)
    requires i < |deliveries|
    ensures DeliveryIds(deliveries) == DeliveryIds(Remove(deliveries, i)) + multiset{deliveries[i].id}
    ensures forall d :: d in Remove(deliveries, i) ==> d in deliveries
  {
    var ids := (d: Delivery) => d.id;
    assert deliveries == deliveries[..i] + [deliveries[i]] + deliveries[i + 1..];
    MappedInserted(ids, deliveries[..i], deliveries[i + 1..], deliveries[i]);
  }

  lemma DeliveriesGrow(deliveries: seq<Delivery>, d: Delivery)
    ensures DeliveryIds(deliveries + [d]) == DeliveryIds(deliveries) + multiset{d.id}
  {
    MappedInserted((d: Delivery) => d.id, deliveries, [], d);
    assert deliveries + [d] + [] == deliveries + [d] && deliveries + [] == deliveries;
  }

  lemma ReceiptsGrow(receipts: seq<Receipt>, r: Receipt)
    ensures ReceiptIds(receipts + [r]) == ReceiptIds(receipts) + multiset{r.delivery.id}
  {
    MappedInserted((r: Receipt) => r.delivery.id, receipts, [], r);
    assert receipts + [r] + [] == receipts + [r] && receipts + [] == receipts;
  }

  lemma ReceiptsShrink(receipts: seq<Receipt>)
    requires receipts != []
    ensures ReceiptIds(receipts) == ReceiptIds(receipts[1..]) + multiset{receipts[0].delivery.id}
  {
    MappedInserted((r: Receipt) => r.delivery.id, [], receipts[1..], receipts[0]);
    assert receipts == [] + [receipts[0]] + receipts[1..] && [] + receipts[1..] == receipts[1..];
  }

  lemma SetGrows(s: set<string>, x: string)
    requires x !in s
    ensures multiset(s + {x}) == multiset(s) + multiset{x}
  {
  }

  lemma SetShrinks(s: set<string>, x: string)
    requires x in s
    ensures multiset(s - {x}) == multiset(s) - multiset{x}
  {
  }

  // ---- Each change keeps the invariants -------------------------------------------------------

  lemma TickKeeps(executing: multiset<string>, l: Ledger, now: Time, later: Time)
    requires Sound(executing, l, now) && now <= later
    ensures Sound(executing, l, later)
  {
    forall clause
      ensures Holds(executing, l, later, clause)
    {
      assert Holds(executing, l, now, clause);
      match clause {
        case Conserved =>
        case Reporting =>
        case Faithful =>
        case Forgotten =>
        case Fifo =>
        case Rests =>
          var before, after := now - RETENTION, later - RETENTION;
          forall id | Rested(l.history, id, before)
            ensures Rested(l.history, id, after)
          {
            RestedLater(l.history, id, before, after);
          }
        case Spacing =>
      }
    }
  }

  lemma ArrivalKeepsOrder(l: Ledger, c: Command, source: string)
    requires ArrivedFor(l.history, source) == StartedFor(l.history, source) + QueuedFor(l.queued, source)
    ensures ArrivedFor(l.history + [Arrived(c)], source) ==
            StartedFor(l.history + [Arrived(c)], source) + QueuedFor(l.queued + [c], source)
  {
  }

  lemma EnqueueKeeps(executing: multiset<string>, l: Ledger, now: Time, c: Command)
    requires Sound(executing, l, now)
    ensures Sound(executing, Enqueue(l, c), now)
  {
    if c.id !in l.known && c.id !in l.completed {
      var t := Enqueue(l, c);
      assert Holds(executing, l, now, Conserved);
      IdsGrow(l.queued, c);
      forall clause
        ensures Holds(executing, t, now, clause)
      {
        assert Holds(executing, l, now, clause);
        match clause {
          case Conserved => SetGrows(l.known, c.id);
          case Reporting =>
          case Faithful =>
          case Forgotten =>
          case Fifo =>
            forall source
              ensures ArrivedFor(t.history, source) == StartedFor(t.history, source) + QueuedFor(t.queued, source)
            {
              ArrivalKeepsOrder(l, c, source);
            }
          case Rests => RestsGrow(l.history, Arrived(c), t.history);
          case Spacing => SpacedGrows(l.history, Arrived(c));
        }
      }
    }
  }

  /** Every command rested before an event that starts nothing is rested after it. */
  lemma RestsGrow(h: seq<Event>, e: Event, t: seq<Event>)
    requires !e.Started? && t == h + [e]
    ensures forall id, limit :: Rested(h, id, limit) ==> Rested(t, id, limit)
  {
    forall id, limit | Rested(h, id, limit)
      ensures Rested(t, id, limit)
    {
      RestedGrows(h, e, id, limit);
    }
  }

  lemma {:induction false} EnqueueAllKeeps(executing: multiset<string>, l: Ledger, now: Time, commands: seq<Command>)
    requires Sound(executing, l, now)
    ensures Sound(executing, EnqueueAll(l, commands), now)
  {
    if commands != [] {
      var n := |commands| - 1;
      EnqueueAllKeeps(executing, l, now, commands[..n]);
      EnqueueKeeps(executing, EnqueueAll(l, commands[..n]), now, commands[n]);
    }
  }

  lemma PurgeKeeps(executing: multiset<string>, l: Ledger, now: Time)
    requires Sound(executing, l, now)
    ensures Sound(executing, Purge(l, now), now)
  {
    var t := Purge(l, now);
    forall clause
      ensures Holds(executing, t, now, clause)
    {
      assert Holds(executing, l, now, clause);
      match clause {
        case Conserved =>
        case Reporting =>
        case Faithful =>
        case Forgotten =>
        case Fifo =>
        case Rests =>
          forall id | id in l.completed && id !in t.completed
            ensures Rested(l.history, id, now - RETENTION)
          {
            RestedLater(l.history, id, l.completed[id] + 1, now - RETENTION);
          }
        case Spacing =>
      }
    }
  }

  lemma StartKeeps(executing: multiset<string>, l: Ledger, now: Time, i: nat)
    requires Sound(executing, l, now) && FirstOfSource(l.queued, i)
    ensures Sound(executing + multiset{l.queued[i].id}, Start(l, i, now), now)
  {
    var c, t := l.queued[i], Start(l, i, now);
    var after := executing + multiset{c.id};
    OnlyOnce(executing, l, now, i);
    forall clause
      ensures Holds(after, t, now, clause)
    {
      assert Holds(executing, l, now, clause);
      match clause {
        case Conserved => IdsShrink(l.queued, i);
        case Reporting =>
        case Faithful =>
        case Forgotten =>
        case Fifo => StartFifo(executing, l, now, i);
        case Rests => StartRests(executing, l, now, i);
        case Spacing =>
          assert Holds(executing, l, now, Rests);
          assert c.id in CommandIds(l.queued) by { IdsShrink(l.queued, i); }
          SpacedGrows(l.history, Started(c, now));
      }
    }
  }

  lemma StartKeepsOrder(l: Ledger, now: Time, i: nat, source: string)
    requires FirstOfSource(l.queued, i)
    requires ArrivedFor(l.history, source) == StartedFor(l.history, source) + QueuedFor(l.queued, source)
    ensures var t := Start(l, i, now);
            ArrivedFor(t.history, source) == StartedFor(t.history, source) + QueuedFor(t.queued, source)
  {
    LogGrows(l.history, Started(l.queued[i], now), source);
    QueueTakes(l.queued, i, source);
    var taken := if l.queued[i].Source() == source then [l.queued[i]] else [];
    var left := QueuedFor(Remove(l.queued, i), source);
    Regrouped(StartedFor(l.history, source), taken, left);
    assert ArrivedFor(l.history, source) + [] == ArrivedFor(l.history, source);
  }

  lemma Regrouped<T>(a: seq<T>, b: seq<T>, c: seq<T>)
    ensures a + (b + c) == (a + b) + c
  {
  }

  lemma StartFifo(executing: multiset<string>, l: Ledger, now: Time, i: nat)
    requires Sound(executing, l, now) && FirstOfSource(l.queued, i)
    ensures Holds(executing + multiset{l.queued[i].id}, Start(l, i, now), now, Fifo)
  {
    var t := Start(l, i, now);
    assert Holds(executing, l, now, Fifo);
    forall source
      ensures ArrivedFor(t.history, source) == StartedFor(t.history, source) + QueuedFor(t.queued, source)
    {
      StartKeepsOrder(l, now, i, source);
    }
  }

  lemma StartRests(executing: multiset<string>, l: Ledger, now: Time, i: nat)
    requires Sound(executing, l, now) && i < |l.queued|
    ensures Holds(executing + multiset{l.queued[i].id}, Start(l, i, now), now, Rests)
  {
    var c, t := l.queued[i], Start(l, i, now);
    OnlyOnce(executing, l, now, i);
    IdsShrink(l.queued, i);
    assert Holds(executing, l, now, Rests);
    forall id, limit | id != c.id && Rested(l.history, id, limit)
      ensures Rested(t.history, id, limit)
    {
      RestedGrows(l.history, Started(c, now), id, limit);
    }
    assert forall id :: id in CommandIds(t.queued) ==> id in CommandIds(l.queued) && id != c.id;
  }

  /** A queued command is queued once, and nowhere else. */
  lemma OnlyOnce(executing: multiset<string>, l: Ledger, now: Time, i: nat)
    requires Sound(executing, l, now) && i < |l.queued|
    ensures l.queued[i].id in l.known && l.queued[i].id !in l.completed
    ensures l.queued[i].id !in executing && l.queued[i].id !in l.pending
    ensures l.queued[i].id !in CommandIds(Remove(l.queued, i))
  {
    var id := l.queued[i].id;
    assert Holds(executing, l, now, Conserved) && Holds(executing, l, now, Forgotten);
    IdsShrink(l.queued, i);
    assert multiset(l.known)[id] == CommandIds(Remove(l.queued, i))[id] + 1 + executing[id] + multiset(l.pending.Keys)[id];
    assert multiset(l.known)[id] <= 1;
  }

  lemma FinishKeeps(executing: multiset<string>, l: Ledger, now: Time, id: string, report: Report)
    requires Sound(executing, l, now) && id in executing
    ensures Sound(executing - multiset{id}, Finish(l, id, report), now)
  {
    var t, after := Finish(l, id, report), executing - multiset{id};
    assert Holds(executing, l, now, Conserved) && Holds(executing, l, now, Reporting);
    assert multiset(l.known)[id] <= 1;
    assert id !in multiset(l.pending.Keys);
    assert t.pending.Keys == l.pending.Keys + {id};
    forall clause
      ensures Holds(after, t, now, clause)
    {
      assert Holds(executing, l, now, clause);
      match clause {
        case Conserved =>
          SetGrows(l.pending.Keys, id);
          assert executing == after + multiset{id};
        case Reporting =>
        case Faithful =>
        case Forgotten =>
        case Fifo =>
        case Rests =>
        case Spacing =>
      }
    }
  }

  lemma BeginReportKeeps(executing: multiset<string>, l: Ledger, now: Time, id: string)
    requires Sound(executing, l, now) && id in l.pending && id !in l.reporting
    ensures Sound(executing, BeginReport(l, id), now)
  {
    var t := BeginReport(l, id);
    forall clause
      ensures Holds(executing, t, now, clause)
    {
      assert Holds(executing, l, now, clause);
      match clause {
        case Conserved =>
        case Reporting =>
          SetGrows(l.reporting, id);
          DeliveriesGrow(l.reportsOut, Delivery(id, l.pending[id]));
        case Faithful =>
        case Forgotten =>
        case Fifo =>
        case Rests =>
        case Spacing =>
      }
    }
  }

  lemma SendReportKeeps(executing: multiset<string>, l: Ledger, now: Time, i: nat, delivered: bool)
    requires Sound(executing, l, now) && i < |l.reportsOut|
    ensures Sound(executing, SendReport(l, i, delivered), now)
  {
    var d, t := l.reportsOut[i], SendReport(l, i, delivered);
    DeliveriesShrink(l.reportsOut, i);
    forall clause
      ensures Holds(executing, t, now, clause)
    {
      assert Holds(executing, l, now, clause);
      match clause {
        case Conserved =>
        case Reporting => ReceiptsGrow(l.receipts, Receipt(d, delivered));
        case Faithful =>
        case Forgotten =>
        case Fifo =>
        case Rests =>
        case Spacing =>
      }
    }
  }

  /** The command of a receipt is being reported, by that receipt alone. */
  lemma OneReceipt(executing: multiset<string>, l: Ledger, now: Time)
    requires Sound(executing, l, now) && l.receipts != []
    ensures var id := l.receipts[0].delivery.id;
            && id in l.reporting && id in l.pending && id in l.known && id !in executing && id !in CommandIds(l.queued)
            && id !in DeliveryIds(l.reportsOut) && id !in ReceiptIds(l.receipts[1..])
  {
    var id := l.receipts[0].delivery.id;
    assert Holds(executing, l, now, Conserved) && Holds(executing, l, now, Reporting);
    ReceiptsShrink(l.receipts);
    assert multiset(l.reporting)[id] == DeliveryIds(l.reportsOut)[id] + ReceiptIds(l.receipts[1..])[id] + 1;
    assert multiset(l.reporting)[id] <= 1;
    assert multiset(l.known)[id] == CommandIds(l.queued)[id] + executing[id] + multiset(l.pending.Keys)[id];
    assert multiset(l.known)[id] <= 1;
  }

  lemma InReceipts(receipts: seq<Receipt>, r: Receipt)
    requires r in receipts
    ensures r.delivery.id in ReceiptIds(receipts)
  {
  }

  lemma InDeliveries(deliveries: seq<Delivery>, d: Delivery)
    requires d in deliveries
    ensures d.id in DeliveryIds(deliveries)
  {
  }

  lemma SettleKeeps(executing: multiset<string>, l: Ledger, now: Time)
    requires Sound(executing, l, now) && l.receipts != []
    ensures Sound(executing, Settle(l, now), now)
  {
    var id, t := l.receipts[0].delivery.id, Settle(l, now);
    OneReceipt(executing, l, now);
    forall clause
      ensures Holds(executing, t, now, clause)
    {
      assert Holds(executing, l, now, clause);
      match clause {
        case Conserved =>
          if l.receipts[0].delivered {
            assert t.pending.Keys == l.pending.Keys - {id};
            SetShrinks(l.known, id);
            SetShrinks(l.pending.Keys, id);
          }
        case Reporting =>
          SetShrinks(l.reporting, id);
          ReceiptsShrink(l.receipts);
          assert t.pending.Keys >= l.pending.Keys - {id};
        case Faithful => SettleFaithful(executing, l, now);
        case Forgotten =>
        case Fifo => SettleFifo(executing, l, now);
        case Rests => SettleRests(executing, l, now);
        case Spacing => SpacedGrows(l.history, Reported(id, now));
      }
    }
  }

  lemma SettleFifo(executing: multiset<string>, l: Ledger, now: Time)
    requires Sound(executing, l, now) && l.receipts != []
    ensures Holds(executing, Settle(l, now), now, Fifo)
  {
    var id, t := l.receipts[0].delivery.id, Settle(l, now);
    assert Holds(executing, l, now, Fifo);
    forall source
      ensures ArrivedFor(t.history, source) == StartedFor(t.history, source) + QueuedFor(t.queued, source)
    {
      if l.receipts[0].delivered {
        LogGrows(l.history, Reported(id, now), source);
      }
    }
  }

  lemma SettleFaithful(executing: multiset<string>, l: Ledger, now: Time)
    requires Sound(executing, l, now) && l.receipts != []
    ensures Holds(executing, Settle(l, now), now, Faithful)
  {
    var id, t := l.receipts[0].delivery.id, Settle(l, now);
    OneReceipt(executing, l, now);
    assert Holds(executing, l, now, Faithful);
    forall d | d in t.reportsOut
      ensures d.id in t.pending && d.report == t.pending[d.id]
    {
      InDeliveries(l.reportsOut, d);
    }
    forall r | r in t.receipts
      ensures r.delivery.id in t.pending && r.delivery.report == t.pending[r.delivery.id]
    {
      InReceipts(l.receipts[1..], r);
      assert r in l.receipts;
    }
  }

  lemma SettleRests(executing: multiset<string>, l: Ledger, now: Time)
    requires Sound(executing, l, now) && l.receipts != []
    ensures Holds(executing, Settle(l, now), now, Rests)
  {
    var id, t := l.receipts[0].delivery.id, Settle(l, now);
    OneReceipt(executing, l, now);
    assert Holds(executing, l, now, Rests);
    if l.receipts[0].delivered {
      RestsGrow(l.history, Reported(id, now), t.history);
      ReportRests(l.history, id, now);
    }
  }
}
