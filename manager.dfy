/**
 * The allocation loop (`knapsackManager`): a started/stopped state with its
 * periodic timer, a skip-if-busy flag around each run, and the run itself,
 * which reads the terminals, their latest power and the capacity budget,
 * runs the engine in AUTO mode and dispatches one on/off command per
 * terminal.
 *
 * A run awaits several foreign calls, so another tick can start while it is
 * in flight. It is modelled as two steps: `BeginRun`, the synchronous part
 * up to taking the lock, and `FinishRun`, everything after it, whose
 * foreign-call replies are the fields of `RunInputs`.
 */
module KnapsackManager {
  import opened Types
  import Knapsack
  import Mqtt
  import Supabase

  /** `startLoop(intervalMs = 30000)` */
  const DefaultIntervalMs := 30000
  const AlreadyRunningMessage := "already running"
  const NotRunningMessage := "not running"
  /** What `new Array(n)` throws for a negative length. */
  const RangeErrorMessage := "Invalid array length"

  datatype StartReply = StartReply(started: bool, message: Option<string>)
  datatype StopReply = StopReply(stopped: bool, message: Option<string>)

  /**
   * The replies of the foreign calls a run makes, in the order it makes
   * them: the terminals (ascending priority), the latest-power map, the
   * device threshold (`None`: no device row or no threshold), the configured
   * default capacity, one outcome per publish, and the log insert (its error,
   * or a thrown message).
   */
  datatype RunInputs = RunInputs(
    terminals: Result<seq<Supabase.TerminalRow>, string>,
    latestPower: Result<map<string, int>, string>,
    threshold: Result<Option<int>, string>,
    configuredCapacity: Option<int>,
    publishOutcomes: seq<Mqtt.PublishOutcome>,
    logInsert: Result<Option<string>, string>)

  /** What a run decides before it publishes anything. */
  datatype Plan =
    | NoTerminals
    | Abort(error: string)
    | Dispatch(capacity: int, knap: Knapsack.KnapsackResult, commands: seq<Mqtt.Command>)

  /** How a run ends: skipped, returned early, rejected with an error, or `{ knap, publishResults }`. */
  datatype RunOutcome =
    | Skipped
    | Empty
    | Threw(error: string)
    | Completed(knap: Knapsack.KnapsackResult, publishResults: seq<Mqtt.PublishResult>)

  // ---------------------------------------------------------------------------
  // Items and commands
  // ---------------------------------------------------------------------------

  /** `{ terminalId, power: latestPowerMap[id] ?? 0, priority: terminalPriority ?? 0 }` */
  function ItemOf(t: Supabase.TerminalRow, latest: map<string, int>): (it: Knapsack.Item)
    ensures it.terminalId == t.terminalId
    ensures t.terminalId in latest ==> it.power == latest[t.terminalId]
    ensures t.terminalId !in latest ==> it.power == 0
    ensures t.priority.Some? ==> it.priority == t.priority.value
    ensures t.priority.None? ==> it.priority == 0
  {
    Knapsack.Item(t.terminalId, if t.terminalId in latest then latest[t.terminalId] else 0, t.priority.GetOr(0))
  }

  /** The engine's items: one per terminal, in query order. */
  function BuildItems(terminals: seq<Supabase.TerminalRow>, latest: map<string, int>): (items: seq<Knapsack.Item>)
    ensures |items| == |terminals|
    ensures forall k :: 0 <= k < |terminals| ==> items[k] == ItemOf(terminals[k], latest)
  {
    seq(|terminals|, k requires 0 <= k < |terminals| => ItemOf(terminals[k], latest))
  }

  /** One command per item, in item order: `on` exactly for the selected ids. */
  function BuildCommands(items: seq<Knapsack.Item>, selected: seq<string>): (cmds: seq<Mqtt.Command>)
    ensures |cmds| == |items|
    ensures forall k :: 0 <= k < |items| ==>
      cmds[k].terminalId == items[k].terminalId && (cmds[k].status == Mqtt.On <==> items[k].terminalId in selected)
  {
    seq(|items|, k requires 0 <= k < |items| =>
      Mqtt.Command(items[k].terminalId, if items[k].terminalId in selected then Mqtt.On else Mqtt.Off))
  }

  /** The decision of a run that holds the lock, up to the publish. */
  function PlanRun(inp: RunInputs): Plan
  {
    match inp.terminals
    case Failure(e) => Abort(e)
    case Success(ts) =>
      if |ts| == 0 then NoTerminals
      else match inp.latestPower
        case Failure(e) => Abort(e)
        case Success(latest) =>
          var items := BuildItems(ts, latest);
          match inp.threshold
          case Failure(e) => Abort(e)
          case Success(th) =>
            var capacity := Supabase.CapacityBudget(th, inp.configuredCapacity);
            match Knapsack.Knapsack(items, capacity, Knapsack.Auto)
            case Failure(_) => Abort(RangeErrorMessage)
            case Success(knap) => Dispatch(capacity, knap, BuildCommands(items, knap.selectedIds))
  }

  /** Terminal ids are primary keys. */
  ghost predicate DistinctTerminals(ts: seq<Supabase.TerminalRow>)
  {
    forall i, j :: 0 <= i < j < |ts| ==> ts[i].terminalId != ts[j].terminalId
  }

  /**
   * A dispatching run commands every terminal once, in query order, and the
   * ids it switches on are exactly the engine's selection, computed in AUTO
   * mode against the capacity budget.
   */
  lemma PlanCommandsMatchSelection(inp: RunInputs)
    requires PlanRun(inp).Dispatch?
    ensures inp.terminals.Success? && inp.latestPower.Success? && inp.threshold.Success?
    ensures var ts, plan := inp.terminals.value, PlanRun(inp);
      && plan.capacity == Supabase.CapacityBudget(inp.threshold.value, inp.configuredCapacity)
      && Knapsack.Knapsack(BuildItems(ts, inp.latestPower.value), plan.capacity, Knapsack.Auto) == Success(plan.knap)
      && |plan.commands| == |ts|
      && (forall k :: 0 <= k < |ts| ==> plan.commands[k].terminalId == ts[k].terminalId)
      && (forall id :: id in plan.knap.selectedIds <==>
            exists k :: 0 <= k < |plan.commands| && plan.commands[k] == Mqtt.Command(id, Mqtt.On))
  {
    var ts, latest, plan := inp.terminals.value, inp.latestPower.value, PlanRun(inp);
    var items := BuildItems(ts, latest);
    var knap := plan.knap;
    assert Knapsack.Knapsack(items, plan.capacity, Knapsack.Auto) == Success(knap);
    if plan.capacity >= 0 {
      Knapsack.KnapsackRespectsCapacity(items, plan.capacity, Knapsack.Auto);
    } else {
      Knapsack.KnapsackNegativeCapacity(items, plan.capacity, Knapsack.Auto);
    }
    forall id | id in knap.selectedIds
      ensures exists k :: 0 <= k < |plan.commands| && plan.commands[k] == Mqtt.Command(id, Mqtt.On)
    {
      var j :| 0 <= j < |knap.selectedIds| && knap.selectedIds[j] == id;
      var k :| 0 <= k < |items| && items[k].terminalId == knap.selectedIds[j];
      assert plan.commands[k] == Mqtt.Command(id, Mqtt.On);
    }
  }

  /**
   * With distinct terminal ids the power of the terminals a run switches on
   * stays within a non-negative budget; a negative budget switches every
   * terminal off.
   */
  lemma PlanWithinBudget(inp: RunInputs)
    requires PlanRun(inp).Dispatch?
    requires inp.terminals.Success? && DistinctTerminals(inp.terminals.value)
    ensures PlanRun(inp).capacity >= 0 ==> PlanRun(inp).knap.totalPower <= PlanRun(inp).capacity
    ensures PlanRun(inp).capacity < 0 ==>
      forall k :: 0 <= k < |PlanRun(inp).commands| ==> PlanRun(inp).commands[k].status == Mqtt.Off
  {
    var ts, latest, plan := inp.terminals.value, inp.latestPower.value, PlanRun(inp);
    var items := BuildItems(ts, latest);
    if plan.capacity >= 0 {
      assert Knapsack.DistinctIds(items) by {
        forall i, j | 0 <= i < j < |items| ensures items[i].terminalId != items[j].terminalId {
          assert items[i].terminalId == ts[i].terminalId && items[j].terminalId == ts[j].terminalId;
        }
      }
      Knapsack.KnapsackPowerWithinCapacity(items, plan.capacity, Knapsack.Auto);
    } else {
      Knapsack.KnapsackNegativeCapacity(items, plan.capacity, Knapsack.Auto);
    }
  }

  // ---------------------------------------------------------------------------
  // The loop state
  // ---------------------------------------------------------------------------

  class KnapsackLoop {
    /** `_running` */
    var running: bool
    /** `_runningLock`: a run is between taking the lock and its `finally`. */
    var runningLock: bool
    /** `_interval`: the period (ms) of the armed periodic timer, `None` for `null`. */
    var interval: Option<nat>

    /** The loop is running exactly when its periodic timer is armed. */
    ghost predicate Valid()
      reads this
    {
      running <==> interval.Some?
    }

    /** The module's initial state. */
    constructor ()
      ensures Valid() && !running && !runningLock && interval == None
    {
      running := false;
      runningLock := false;
      interval := None;
    }

    /** `isRunning()` */
    function IsRunning(): (r: bool)
      reads this
      ensures r == running
      ensures Valid() ==> (r <==> interval.Some?)
    {
      running
    }

    /**
     * `startLoop(intervalMs)`: a no-op while running; otherwise marks the loop
     * running, starts the immediate run (its synchronous part, `BeginRun`:
     * `immediate` says whether it took the lock) and arms the timer.
     */
    method StartLoop(intervalMs: nat := DefaultIntervalMs) returns (reply: StartReply, immediate: bool)
      requires Valid()
      modifies this
      ensures Valid()
      ensures old(running) ==>
        && reply == StartReply(false, Some(AlreadyRunningMessage)) && !immediate
        && running && runningLock == old(runningLock) && interval == old(interval)
      ensures !old(running) ==>
        && reply == StartReply(true, None)
        && running && interval == Some(intervalMs) && runningLock
        && (immediate <==> !old(runningLock))
    {
      if running {
        return StartReply(false, Some(AlreadyRunningMessage)), false;
      }
      running := true;
      immediate := BeginRun();
      interval := Some(intervalMs);
      reply := StartReply(true, None);
    }

    /** `stopLoop()`: a no-op while stopped; otherwise marks the loop stopped and clears the timer. */
    method StopLoop() returns (reply: StopReply)
      requires Valid()
      modifies this
      ensures Valid() && !running && runningLock == old(runningLock)
      ensures !old(running) ==> reply == StopReply(false, Some(NotRunningMessage)) && interval == old(interval)
      ensures old(running) ==> reply == StopReply(true, None) && interval == None
    {
      if !running {
        return StopReply(false, Some(NotRunningMessage));
      }
      running := false;
      if interval.Some? {
        interval := None;
      }
      reply := StopReply(true, None);
    }

    /**
     * The synchronous start of `executeOnce`: a run that finds the lock held
     * goes no further; otherwise it takes the lock. `running` is never read.
     */
    method BeginRun() returns (proceed: bool)
      modifies this
      ensures proceed <==> !old(runningLock)
      ensures runningLock && running == old(running) && interval == old(interval)
    {
      if runningLock {
        return false;
      }
      runningLock := true;
      proceed := true;
    }

    /**
     * The rest of `executeOnce`, for a run that holds the lock: fetch,
     * allocate, publish, log, and release the lock on every path. `payloads`
     * are the messages published; `logAttempted` says whether the audit log
     * insert was made. A log failure is swallowed.
     */
    method FinishRun(inp: RunInputs) returns (outcome: RunOutcome, payloads: seq<Mqtt.Payload>, logAttempted: bool)
      requires runningLock
      requires inp.terminals.Success? ==> |inp.publishOutcomes| == |inp.terminals.value|
      modifies this
      ensures !runningLock && running == old(running) && interval == old(interval)
      ensures PlanRun(inp).NoTerminals? <==> inp.terminals == Success([])
      ensures PlanRun(inp).NoTerminals? ==> outcome == Empty
      ensures PlanRun(inp).Abort? ==> outcome == Threw(PlanRun(inp).error)
      ensures PlanRun(inp).Dispatch? ==>
        var cmds := PlanRun(inp).commands;
        && outcome.Completed? && outcome.knap == PlanRun(inp).knap
        && |outcome.publishResults| == |cmds| && |payloads| == |cmds|
        && forall k :: 0 <= k < |cmds| ==>
             && payloads[k] == Mqtt.Encode(cmds[k])
             && outcome.publishResults[k].terminalId == cmds[k].terminalId
             && (outcome.publishResults[k].ok <==> inp.publishOutcomes[k] == Mqtt.Acked)
      ensures !PlanRun(inp).Dispatch? ==> payloads == []
      ensures logAttempted <==> PlanRun(inp).Dispatch?
    {
      payloads, logAttempted := [], false;
      if inp.terminals.Failure? {
        outcome := Threw(inp.terminals.error);
      } else if |inp.terminals.value| == 0 {
        outcome := Empty;
      } else if inp.latestPower.Failure? {
        outcome := Threw(inp.latestPower.error);
      } else {
        var items := BuildItems(inp.terminals.value, inp.latestPower.value);
        if inp.threshold.Failure? {
          outcome := Threw(inp.threshold.error);
        } else {
          var capacity := Supabase.CapacityBudget(inp.threshold.value, inp.configuredCapacity);
          var knap := Knapsack.RunKnapsack(items, capacity, Knapsack.Auto);
          if knap.Failure? {
            outcome := Threw(RangeErrorMessage);
          } else {
            var commands := BuildCommands(items, knap.value.selectedIds);
            var results, sent, _ := Mqtt.PublishBatchControl(commands, inp.publishOutcomes, Mqtt.DefaultDelayMs);
            payloads := sent;
            logAttempted := true;
            if inp.logInsert.Success? {
              var _ := Supabase.InsertKnapsackLog(inp.logInsert.value);
            }
            outcome := Completed(knap.value, results);
          }
        }
      }
      runningLock := false;
    }

    /**
     * `executeOnce()` when nothing else runs between its start and its end:
     * skipped while another run holds the lock, otherwise `FinishRun`.
     */
    method ExecuteOnce(inp: RunInputs) returns (outcome: RunOutcome, payloads: seq<Mqtt.Payload>, logAttempted: bool)
      requires inp.terminals.Success? ==> |inp.publishOutcomes| == |inp.terminals.value|
      modifies this
      ensures running == old(running) && interval == old(interval)
      ensures old(runningLock) ==> outcome == Skipped && payloads == [] && !logAttempted && runningLock
      ensures !old(runningLock) ==> !runningLock && (logAttempted <==> PlanRun(inp).Dispatch?)
      ensures !old(runningLock) && PlanRun(inp).NoTerminals? ==> outcome == Empty
      ensures !old(runningLock) && PlanRun(inp).Abort? ==> outcome == Threw(PlanRun(inp).error)
      ensures !old(runningLock) && PlanRun(inp).Dispatch? ==>
        var cmds := PlanRun(inp).commands;
        && outcome.Completed? && outcome.knap == PlanRun(inp).knap
        && |outcome.publishResults| == |cmds| && |payloads| == |cmds|
        && forall k :: 0 <= k < |cmds| ==>
             && payloads[k] == Mqtt.Encode(cmds[k])
             && outcome.publishResults[k].terminalId == cmds[k].terminalId
             && (outcome.publishResults[k].ok <==> inp.publishOutcomes[k] == Mqtt.Acked)
      ensures !old(runningLock) && !PlanRun(inp).Dispatch? ==> payloads == []
    {
      var proceed := BeginRun();
      if !proceed {
        return Skipped, [], false;
      }
      outcome, payloads, logAttempted := FinishRun(inp);
    }
  }
}
