/**
 * The admission decision (`POST /api/terminals/:id/set`): an `off` request
 * is published at once; an `on` request is accepted when the terminal is
 * already on, or when the power of the other terminals that are on plus the
 * terminal's own latest power fits the capacity budget, and is rejected with
 * the remaining headroom otherwise.
 *
 * The handler reads no state of the allocation loop. The replies of its
 * foreign calls (latest power, terminal rows, device threshold, the one
 * publish) are the fields of `Snapshot`.
 */
module TerminalRoute {
  import opened Types
  import Mqtt
  import Supabase

  const RequiredMessage := "terminalId & status required"
  const PublishedMessage := "Command published"
  const AlreadyOnMessage := "Already ON"
  const ThresholdExceeded := "threshold_exceeded"
  const CapacityExceededMessage := "Capacity exceeded"
  const FailedMessage := "Failed to publish command"

  /** The replies the handler's foreign calls return, in the order it makes them. */
  datatype Snapshot = Snapshot(
    latestPower: Result<map<string, int>, string>,
    terminals: Result<seq<Supabase.TerminalRow>, string>,
    threshold: Result<Option<int>, string>,
    configuredCapacity: Option<int>,
    publishOutcome: Mqtt.PublishOutcome)

  /** The handler's decision: 400, publish one command, refuse with headroom, or 500. */
  datatype Decision =
    | Bad
    | Send(cmd: Mqtt.Command, message: string)
    | Refuse(available: int)
    | Fail

  /**
   * The HTTP response. The status code and the body's `accepted` flag follow
   * from the constructor: `BadRequest` is a 400 without the flag, `Published`
   * a 200 with `accepted: true`, `Rejected` a 200 with `accepted: false`, and
   * `ServerError` a 500 with `accepted: false`.
   */
  datatype Response =
    | BadRequest(message: string)
    | Published(message: string, publishRes: seq<Mqtt.PublishResult>)
    | Rejected(message: string, reason: string, available: int)
    | ServerError(message: string)

  // ---------------------------------------------------------------------------
  // Status normalisation and power sums
  // ---------------------------------------------------------------------------

  /** `toLowerCase()` on one character, for ASCII letters. */
  function LowerChar(c: char): char
  {
    if 'A' <= c <= 'Z' then (c as int + 32) as char else c
  }

  function Lower(s: string): string
  {
    seq(|s|, k requires 0 <= k < |s| => LowerChar(s[k]))
  }

  /** `t.terminalStatus?.toString().toLowerCase() ?? 'off'` */
  function StatusDb(t: Supabase.TerminalRow): string
  {
    if t.status.Some? then Lower(t.status.value) else "off"
  }

  predicate IsOn(t: Supabase.TerminalRow)
  {
    StatusDb(t) == "on"
  }

  /** `Number(latestPowerMap[id] ?? 0)` */
  function PowerOf(latest: map<string, int>, id: string): int
  {
    if id in latest then latest[id] else 0
  }

  /** The power drawn by the terminals that are on, other than `id`. */
  function OnPowerExcluding(ts: seq<Supabase.TerminalRow>, latest: map<string, int>, id: string): int
  {
    if ts == [] then 0
    else
      var t := ts[|ts| - 1];
      OnPowerExcluding(ts[..|ts| - 1], latest, id)
      + (if IsOn(t) && t.terminalId != id then PowerOf(latest, t.terminalId) else 0)
  }

  /** The power drawn by the terminals that are on once `id` is on too. */
  function OnPowerWith(ts: seq<Supabase.TerminalRow>, latest: map<string, int>, id: string): int
  {
    if ts == [] then 0
    else
      var t := ts[|ts| - 1];
      OnPowerWith(ts[..|ts| - 1], latest, id)
      + (if IsOn(t) || t.terminalId == id then PowerOf(latest, t.terminalId) else 0)
  }

  /** `allTerminals.find(t => t.terminalId === id)` */
  function FindTerminal(ts: seq<Supabase.TerminalRow>, id: string): (r: Option<Supabase.TerminalRow>)
    ensures r.Some? <==> exists k :: 0 <= k < |ts| && ts[k].terminalId == id
    ensures r.Some? ==> r.value.terminalId == id && r.value in ts
    ensures r.Some? ==>
      exists k :: 0 <= k < |ts| && ts[k] == r.value && forall j :: 0 <= j < k ==> ts[j].terminalId != id
  {
    if ts == [] then None
    else if ts[0].terminalId == id then Some(ts[0])
    else
      var r := FindTerminal(ts[1..], id);
      assert forall k :: 0 <= k < |ts| - 1 ==> ts[1..][k] == ts[k + 1];
      r
  }

  /** Terminal ids are primary keys. */
  ghost predicate DistinctIds(ts: seq<Supabase.TerminalRow>)
  {
    forall i, j :: 0 <= i < j < |ts| ==> ts[i].terminalId != ts[j].terminalId
  }

  /** With distinct ids, switching on a listed terminal that is off adds exactly its own power. */
  lemma {:induction false} OnPowerSplit(ts: seq<Supabase.TerminalRow>, latest: map<string, int>, id: string)
    requires DistinctIds(ts)
    requires forall k :: 0 <= k < |ts| && ts[k].terminalId == id ==> !IsOn(ts[k])
    ensures OnPowerWith(ts, latest, id) ==
      OnPowerExcluding(ts, latest, id) + (if exists k :: 0 <= k < |ts| && ts[k].terminalId == id then PowerOf(latest, id) else 0)
  {
    if ts != [] {
      var init, t := ts[..|ts| - 1], ts[|ts| - 1];
      assert forall k :: 0 <= k < |init| ==> init[k] == ts[k];
      OnPowerSplit(init, latest, id);
      if t.terminalId == id {
        assert !exists k :: 0 <= k < |init| && init[k].terminalId == id by {
          forall k | 0 <= k < |init| ensures init[k].terminalId != id {
            assert ts[k].terminalId != ts[|ts| - 1].terminalId;
          }
        }
      } else {
        assert (exists k :: 0 <= k < |ts| && ts[k].terminalId == id)
           <==> (exists k :: 0 <= k < |init| && init[k].terminalId == id) by {
          if k :| 0 <= k < |ts| && ts[k].terminalId == id {
            assert k < |init| && init[k].terminalId == id;
          }
        }
      }
    }
  }

  // ---------------------------------------------------------------------------
  // The decision
  // ---------------------------------------------------------------------------

  /**
   * The handler's decision. A missing id or status is a bad request; any
   * status other than exactly `on` means off and is published with no
   * capacity check; a failing read is a server error; a terminal already on
   * is accepted as is; otherwise the request is accepted exactly when the
   * other terminals' on power plus its own fits the budget, and refused with
   * `capacity - totalOnPower` (unclamped) as headroom.
   */
  function Decide(id: string, status: Option<string>, snap: Snapshot): (d: Decision)
    ensures d == Bad <==> id == "" || status.None? || status.value == ""
    ensures d.Send? ==> d.cmd.terminalId == id
    ensures d.Send? && d.cmd.status == Mqtt.Off <==> d != Bad && status.value != "on"
    ensures d == Fail <==>
      d != Bad && status.value == "on"
      && (snap.latestPower.Failure? || snap.terminals.Failure? || snap.threshold.Failure?)
    ensures d.Refuse? ==>
      var ts, latest := snap.terminals.value, snap.latestPower.value;
      var capacity := Supabase.CapacityBudget(snap.threshold.value, snap.configuredCapacity);
      && d.available == capacity - OnPowerExcluding(ts, latest, id)
      && d.available < PowerOf(latest, id)
      && (FindTerminal(ts, id).None? || !IsOn(FindTerminal(ts, id).value))
  {
    if id == "" || status.None? || status.value == "" then Bad
    else if status.value != "on" then Send(Mqtt.Command(id, Mqtt.Off), PublishedMessage)
    else match (snap.latestPower, snap.terminals, snap.threshold)
      case (Success(latest), Success(ts), Success(th)) =>
        var total := OnPowerExcluding(ts, latest, id);
        var requested := PowerOf(latest, id);
        var capacity := Supabase.CapacityBudget(th, snap.configuredCapacity);
        var target := FindTerminal(ts, id);
        if target.Some? && IsOn(target.value) then Send(Mqtt.Command(id, Mqtt.On), AlreadyOnMessage)
        else if total + requested <= capacity then Send(Mqtt.Command(id, Mqtt.On), PublishedMessage)
        else Refuse(capacity - total)
      case _ => Fail
  }

  /**
   * The accept rule, for any id that is not already on (listed and off,
   * unlisted, or in a table with duplicate ids): the request is accepted
   * exactly when the other terminals' on power plus the requested power fits
   * the budget (inclusive), and otherwise refused with the headroom
   * `capacity - totalOnPower`.
   */
  lemma AcceptIffFits(id: string, snap: Snapshot)
    requires id != ""
    requires snap.latestPower.Success? && snap.terminals.Success? && snap.threshold.Success?
    requires FindTerminal(snap.terminals.value, id).None? || !IsOn(FindTerminal(snap.terminals.value, id).value)
    ensures var ts, latest := snap.terminals.value, snap.latestPower.value;
      var capacity := Supabase.CapacityBudget(snap.threshold.value, snap.configuredCapacity);
      var total := OnPowerExcluding(ts, latest, id);
      Decide(id, Some("on"), snap)
      == if total + PowerOf(latest, id) <= capacity then Send(Mqtt.Command(id, Mqtt.On), PublishedMessage)
         else Refuse(capacity - total)
  {
  }

  /**
   * Budget, as a corollary for a listed terminal that is off in a table with
   * distinct ids: the request is accepted exactly when the power of the
   * terminals that are on, once it is on too, fits the budget.
   */
  lemma AcceptedWithinBudget(id: string, snap: Snapshot)
    requires id != ""
    requires snap.latestPower.Success? && snap.terminals.Success? && snap.threshold.Success?
    requires DistinctIds(snap.terminals.value)
    requires exists k :: 0 <= k < |snap.terminals.value| && snap.terminals.value[k].terminalId == id
    requires forall k :: 0 <= k < |snap.terminals.value| && snap.terminals.value[k].terminalId == id ==>
      !IsOn(snap.terminals.value[k])
    ensures var capacity := Supabase.CapacityBudget(snap.threshold.value, snap.configuredCapacity);
      Decide(id, Some("on"), snap) == Send(Mqtt.Command(id, Mqtt.On), PublishedMessage)
      <==> OnPowerWith(snap.terminals.value, snap.latestPower.value, id) <= capacity
  {
    var ts := snap.terminals.value;
    OnPowerSplit(ts, snap.latestPower.value, id);
    var target := FindTerminal(ts, id);
    var k :| 0 <= k < |ts| && ts[k] == target.value;
    assert !IsOn(target.value);
    AcceptIffFits(id, snap);
  }

  /** A terminal already on is accepted whatever the budget. */
  lemma AlreadyOnAccepted(id: string, snap: Snapshot)
    requires id != ""
    requires snap.latestPower.Success? && snap.terminals.Success? && snap.threshold.Success?
    requires FindTerminal(snap.terminals.value, id).Some? && IsOn(FindTerminal(snap.terminals.value, id).value)
    ensures Decide(id, Some("on"), snap) == Send(Mqtt.Command(id, Mqtt.On), AlreadyOnMessage)
  {
  }

  // ---------------------------------------------------------------------------
  // The handler
  // ---------------------------------------------------------------------------

  /** The accumulation loop over `allTerminals`. */
  method TotalOnPower(ts: seq<Supabase.TerminalRow>, latest: map<string, int>, id: string) returns (total: int)
    ensures total == OnPowerExcluding(ts, latest, id)
  {
    total := 0;
    for i := 0 to |ts|
      invariant total == OnPowerExcluding(ts[..i], latest, id)
    {
      assert ts[..i + 1][..i] == ts[..i];
      var t := ts[i];
      var statusDb := if t.status.Some? then Lower(t.status.value) else "off";
      if statusDb == "on" && t.terminalId != id {
        total := total + PowerOf(latest, t.terminalId);
      }
    }
    assert ts[..|ts|] == ts;
  }

  /**
   * The handler: the response and the commands it publishes (none on a bad
   * request, a refusal or a server error; otherwise exactly the decided one,
   * whose publish result is returned).
   */
  method SetTerminal(id: string, status: Option<string>, snap: Snapshot)
    returns (resp: Response, sent: seq<Mqtt.Command>)
    ensures var d := Decide(id, status, snap);
      && (d == Bad ==> resp == BadRequest(RequiredMessage) && sent == [])
      && (d == Fail ==> resp == ServerError(FailedMessage) && sent == [])
      && (d.Refuse? ==> resp == Rejected(CapacityExceededMessage, ThresholdExceeded, d.available) && sent == [])
      && (d.Send? ==>
            && sent == [d.cmd]
            && resp.Published? && resp.message == d.message && |resp.publishRes| == 1
            && resp.publishRes[0].terminalId == id
            && (resp.publishRes[0].ok <==> snap.publishOutcome == Mqtt.Acked))
  {
    if id == "" || status.None? || status.value == "" {
      return BadRequest(RequiredMessage), [];
    }
    var desired := if status.value == "on" then Mqtt.On else Mqtt.Off;
    if desired == Mqtt.Off {
      sent := [Mqtt.Command(id, Mqtt.Off)];
      var res, _, _ := Mqtt.PublishBatchControl(sent, [snap.publishOutcome], Mqtt.DefaultDelayMs);
      return Published(PublishedMessage, res), sent;
    }
    if snap.latestPower.Failure? || snap.terminals.Failure? {
      return ServerError(FailedMessage), [];
    }
    var latest, ts := snap.latestPower.value, snap.terminals.value;
    var totalOnPower := TotalOnPower(ts, latest, id);
    var requestedPower := PowerOf(latest, id);
    if snap.threshold.Failure? {
      return ServerError(FailedMessage), [];
    }
    var capacity := Supabase.CapacityBudget(snap.threshold.value, snap.configuredCapacity);
    var target := FindTerminal(ts, id);
    if target.Some? && StatusDb(target.value) == "on" {
      sent := [Mqtt.Command(id, Mqtt.On)];
      var res, _, _ := Mqtt.PublishBatchControl(sent, [snap.publishOutcome], Mqtt.DefaultDelayMs);
      return Published(AlreadyOnMessage, res), sent;
    }
    if totalOnPower + requestedPower <= capacity {
      sent := [Mqtt.Command(id, Mqtt.On)];
      var res, _, _ := Mqtt.PublishBatchControl(sent, [snap.publishOutcome], Mqtt.DefaultDelayMs);
      return Published(PublishedMessage, res), sent;
    }
    return Rejected(CapacityExceededMessage, ThresholdExceeded, capacity - totalOnPower), [];
  }

  // ---------------------------------------------------------------------------
  // A worked example
  // ---------------------------------------------------------------------------

  function ExampleSnapshot(): Snapshot
  {
    Snapshot(
      Success(map["A" := 800, "B" := 500, "C" := 400]),
      Success([
        Supabase.TerminalRow("A", Some(1), Some("off"), None, None),
        Supabase.TerminalRow("B", Some(2), Some("ON"), None, None),
        Supabase.TerminalRow("C", Some(3), Some("off"), None, None)]),
      Success(Some(1000)),
      None,
      Mqtt.Acked)
  }

  /** The example's rows: only B is on; C and A are found at their positions. */
  lemma ExampleRows()
    ensures var ts, latest := ExampleSnapshot().terminals.value, ExampleSnapshot().latestPower.value;
      && OnPowerExcluding(ts, latest, "C") == 500
      && OnPowerExcluding(ts, latest, "A") == 500
      && FindTerminal(ts, "C") == Some(ts[2]) && !IsOn(ts[2])
      && FindTerminal(ts, "A") == Some(ts[0]) && !IsOn(ts[0])
  {
    var ts := ExampleSnapshot().terminals.value;
    assert Lower("off") == "off";
    assert Lower("ON") == "on";
    assert ts[..2][..1] == ts[..1] && ts[..1][..0] == [];
    assert ts[1..][1..] == [ts[2]];
    assert !IsOn(ts[0]) && IsOn(ts[1]) && !IsOn(ts[2]);
    var latest := ExampleSnapshot().latestPower.value;
    assert OnPowerExcluding(ts[..1], latest, "C") == 0 && OnPowerExcluding(ts[..2], latest, "C") == 500;
    assert OnPowerExcluding(ts[..1], latest, "A") == 0 && OnPowerExcluding(ts[..2], latest, "A") == 500;
  }

  /**
   * Budget 1000 W with only B (500 W) on: switching C (400 W) on is accepted
   * (900 W in all).
   */
  lemma ExampleAdmitC()
    ensures Decide("C", Some("on"), ExampleSnapshot()) == Send(Mqtt.Command("C", Mqtt.On), PublishedMessage)
  {
    ExampleRows();
  }

  /**
   * Switching A (800 W) on against the same rows is refused with 500 W of
   * headroom. An accepted request does not change the stored status, so
   * this second request sees the rows the first one saw.
   */
  lemma ExampleRefuseA()
    ensures Decide("A", Some("on"), ExampleSnapshot()) == Refuse(500)
  {
    ExampleRows();
  }
}
