/**
 * The schedule watcher (`scheduleManager`): a periodic timer that, on every
 * tick, switches on the terminals whose schedule window has begun and that
 * report `off`, and switches off the terminals whose window has ended and
 * that report `on`.
 *
 * Timestamps are integers (milliseconds); the clock reading of a tick and
 * the terminal query's reply are inputs.
 */
module ScheduleManager {
  import opened Types
  import Mqtt
  import Supabase

  /** `startScheduleWatcher(intervalMs = 30_000)` */
  const DefaultIntervalMs := 30000

  /** What one tick does with one terminal. */
  datatype Verdict = TurnOn | TurnOff | Leave

  /**
   * A terminal without a start or finish time is skipped; within
   * `[start, finish)` a terminal reporting exactly `off` is switched on;
   * otherwise, from `finish` on, one reporting exactly `on` is switched off.
   */
  function VerdictOf(t: Supabase.TerminalRow, now: int): (v: Verdict)
    ensures v == TurnOn <==>
      t.startOn.Some? && t.finishOn.Some? && t.startOn.value <= now < t.finishOn.value && t.status == Some("off")
    ensures v == TurnOff <==>
      t.startOn.Some? && t.finishOn.Some? && now >= t.finishOn.value && t.status == Some("on")
    ensures t.startOn.Some? && t.finishOn.Some? && now < t.startOn.value <= t.finishOn.value ==> v == Leave
    ensures t.status != Some("on") && t.status != Some("off") ==> v == Leave
  {
    match (t.startOn, t.finishOn)
    case (Some(start), Some(finish)) =>
      if start <= now < finish && t.status == Some("off") then TurnOn
      else if now >= finish && t.status == Some("on") then TurnOff
      else Leave
    case _ => Leave
  }

  /** The ids with verdict `v`, in query order. */
  function Picked(ts: seq<Supabase.TerminalRow>, now: int, v: Verdict): seq<string>
  {
    if ts == [] then []
    else
      Picked(ts[..|ts| - 1], now, v)
      + (if VerdictOf(ts[|ts| - 1], now) == v then [ts[|ts| - 1].terminalId] else [])
  }

  /** An id is picked exactly when some row with that id gets the verdict. */
  lemma {:induction false} PickedMembers(ts: seq<Supabase.TerminalRow>, now: int, v: Verdict, id: string)
    ensures id in Picked(ts, now, v) <==> exists k :: 0 <= k < |ts| && ts[k].terminalId == id && VerdictOf(ts[k], now) == v
  {
    if ts != [] {
      var init := ts[..|ts| - 1];
      PickedMembers(init, now, v, id);
      assert forall k :: 0 <= k < |init| ==> init[k] == ts[k];
      if k :| 0 <= k < |ts| && ts[k].terminalId == id && VerdictOf(ts[k], now) == v {
        if k < |init| {
          assert init[k].terminalId == id && VerdictOf(init[k], now) == v;
        }
      }
    }
  }

  /** Query order is kept: the picks of a concatenation are the concatenation of the picks. */
  lemma {:induction false} PickedAppend(a: seq<Supabase.TerminalRow>, b: seq<Supabase.TerminalRow>, now: int, v: Verdict)
    ensures Picked(a + b, now, v) == Picked(a, now, v) + Picked(b, now, v)
  {
    if b == [] {
      assert a + b == a;
    } else {
      var b' := b[..|b| - 1];
      assert (a + b)[..|a + b| - 1] == a + b';
      PickedAppend(a, b', now, v);
    }
  }

  /** Terminal ids are primary keys. */
  ghost predicate DistinctIds(ts: seq<Supabase.TerminalRow>)
  {
    forall i, j :: 0 <= i < j < |ts| ==> ts[i].terminalId != ts[j].terminalId
  }

  /** With distinct ids, no terminal is in both lists. */
  lemma ListsDisjoint(ts: seq<Supabase.TerminalRow>, now: int, id: string)
    requires DistinctIds(ts)
    ensures !(id in Picked(ts, now, TurnOn) && id in Picked(ts, now, TurnOff))
  {
    PickedMembers(ts, now, TurnOn, id);
    PickedMembers(ts, now, TurnOff, id);
  }

  /** The classification loop: builds `toTurnOn` and `toTurnOff`. */
  method Classify(ts: seq<Supabase.TerminalRow>, now: int) returns (toTurnOn: seq<string>, toTurnOff: seq<string>)
    ensures toTurnOn == Picked(ts, now, TurnOn)
    ensures toTurnOff == Picked(ts, now, TurnOff)
  {
    toTurnOn, toTurnOff := [], [];
    for i := 0 to |ts|
      invariant toTurnOn == Picked(ts[..i], now, TurnOn)
      invariant toTurnOff == Picked(ts[..i], now, TurnOff)
    {
      assert ts[..i + 1][..i] == ts[..i];
      var t := ts[i];
      if t.startOn.None? || t.finishOn.None? {
        continue;
      }
      var start, finish := t.startOn.value, t.finishOn.value;
      if now >= start && now < finish && t.status == Some("off") {
        toTurnOn := toTurnOn + [t.terminalId];
      } else if now >= finish && t.status == Some("on") {
        toTurnOff := toTurnOff + [t.terminalId];
      }
    }
    assert ts[..|ts|] == ts;
  }

  function Commands(ids: seq<string>, status: Mqtt.Status): (cmds: seq<Mqtt.Command>)
    ensures |cmds| == |ids|
    ensures forall k :: 0 <= k < |ids| ==> cmds[k] == Mqtt.Command(ids[k], status)
  {
    seq(|ids|, k requires 0 <= k < |ids| => Mqtt.Command(ids[k], status))
  }

  /**
   * One tick: the batches it publishes, in order. A failing query publishes
   * nothing; an empty list is not published; the on batch goes first.
   */
  method Tick(terminals: Result<seq<Supabase.TerminalRow>, string>, now: int) returns (batches: seq<seq<Mqtt.Command>>)
    ensures terminals.Failure? ==> batches == []
    ensures terminals.Success? ==>
      var on, off := Picked(terminals.value, now, TurnOn), Picked(terminals.value, now, TurnOff);
      batches == (if on != [] then [Commands(on, Mqtt.On)] else []) + (if off != [] then [Commands(off, Mqtt.Off)] else [])
  {
    batches := [];
    if terminals.Failure? {
      return;
    }
    var toTurnOn, toTurnOff := Classify(terminals.value, now);
    if |toTurnOn| > 0 {
      batches := batches + [Commands(toTurnOn, Mqtt.On)];
    }
    if |toTurnOff| > 0 {
      batches := batches + [Commands(toTurnOff, Mqtt.Off)];
    }
  }

  /**
   * A tick's batches switch each terminal the way its verdict says: every
   * command of a batch is for a terminal with that verdict, and every such
   * terminal is commanded.
   */
  lemma TickCommands(ts: seq<Supabase.TerminalRow>, now: int, id: string)
    ensures var on, off := Picked(ts, now, TurnOn), Picked(ts, now, TurnOff);
      && ((Mqtt.Command(id, Mqtt.On) in Commands(on, Mqtt.On)) <==>
            exists k :: 0 <= k < |ts| && ts[k].terminalId == id && VerdictOf(ts[k], now) == TurnOn)
      && ((Mqtt.Command(id, Mqtt.Off) in Commands(off, Mqtt.Off)) <==>
            exists k :: 0 <= k < |ts| && ts[k].terminalId == id && VerdictOf(ts[k], now) == TurnOff)
  {
    var on, off := Picked(ts, now, TurnOn), Picked(ts, now, TurnOff);
    PickedMembers(ts, now, TurnOn, id);
    PickedMembers(ts, now, TurnOff, id);
    if Mqtt.Command(id, Mqtt.On) in Commands(on, Mqtt.On) {
      var k :| 0 <= k < |on| && Commands(on, Mqtt.On)[k] == Mqtt.Command(id, Mqtt.On);
      assert on[k] == id;
    }
    if id in on {
      var k :| 0 <= k < |on| && on[k] == id;
      assert Commands(on, Mqtt.On)[k] == Mqtt.Command(id, Mqtt.On);
    }
    if Mqtt.Command(id, Mqtt.Off) in Commands(off, Mqtt.Off) {
      var k :| 0 <= k < |off| && Commands(off, Mqtt.Off)[k] == Mqtt.Command(id, Mqtt.Off);
      assert off[k] == id;
    }
    if id in off {
      var k :| 0 <= k < |off| && off[k] == id;
      assert Commands(off, Mqtt.Off)[k] == Mqtt.Command(id, Mqtt.Off);
    }
  }

  /** The watcher's timer. */
  class ScheduleWatcher {
    /** `_interval`: the period (ms) of the armed timer, `None` for `null`. */
    var interval: Option<nat>

    constructor ()
      ensures interval == None
    {
      interval := None;
    }

    /** `startScheduleWatcher(intervalMs)`: does nothing when a timer is already armed. */
    method Start(intervalMs: nat := DefaultIntervalMs)
      modifies this
      ensures old(interval).Some? ==> interval == old(interval)
      ensures old(interval).None? ==> interval == Some(intervalMs)
    {
      if interval.Some? {
        return;
      }
      interval := Some(intervalMs);
    }

    /** `stopScheduleWatcher()`: always leaves no timer armed, so a second call changes nothing. */
    method Stop()
      modifies this
      ensures interval == None
    {
      interval := None;
    }
  }
}
