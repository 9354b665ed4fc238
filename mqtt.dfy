/**
 * The command transport (`mqttService`): the downstream encoding of on/off
 * commands, the per-command batch dispatch with its ordered result list, the
 * settle-once publish helper, and the mapping of upstream telemetry messages
 * to terminal ids and statuses.
 *
 * The broker, its clients and JSON text are not modelled: each publish
 * attempt's outcome is an input, and a parsed upstream message is a value.
 */
module Mqtt {
  import opened Types

  /** Desired relay state of a terminal. */
  datatype Status = On | Off

  /** One downstream command. */
  datatype Command = Command(terminalId: string, status: Status)

  /** The downstream JSON payload, without its random message id. */
  datatype Payload = Payload(terminalId: nat, relay: int)

  /** How one publish attempt settles: acknowledged, or rejected with an error message. */
  datatype PublishOutcome = Acked | Failed(message: string)

  /** One entry of the batch's result list. */
  datatype PublishResult = PublishResult(terminalId: string, ok: bool, error: Option<string>)

  const TerminalPrefix := "terminal_"
  const NotConnectedMessage := "MQTT client not connected"
  const TimeoutMessage := "publish timeout"
  /** Default upstream topic (STM32 to backend). */
  const DefaultUpstreamTopic := "stm32/data/upstream"
  /** Default pause after each successful publish, in milliseconds. */
  const DefaultDelayMs := 7000

  // ---------------------------------------------------------------------------
  // Terminal ids: `terminal_<digits>` <-> number
  // ---------------------------------------------------------------------------

  /** `\d` without the `u` flag: an ASCII digit. */
  predicate IsDigit(c: char)
  {
    '0' <= c <= '9'
  }

  predicate AllDigits(s: string)
  {
    forall k :: 0 <= k < |s| ==> IsDigit(s[k])
  }

  /** `Number(s)` for a string of decimal digits. */
  function DigitsValue(s: string): nat
    requires AllDigits(s)
  {
    if s == [] then 0
    else 10 * DigitsValue(s[..|s| - 1]) + (s[|s| - 1] as int - '0' as int)
  }

  function DigitChar(d: nat): char
    requires d < 10
  {
    ('0' as int + d) as char
  }

  /** `${n}` for a natural number: its decimal digits, no leading zeros. */
  function NatToString(n: nat): (s: string)
    ensures |s| >= 1 && AllDigits(s)
  {
    if n < 10 then [DigitChar(n)] else NatToString(n / 10) + [DigitChar(n % 10)]
  }

  /** The id matches `/^terminal_(\d+)$/`. */
  predicate IsTerminalId(id: string)
  {
    |id| > |TerminalPrefix| && id[..|TerminalPrefix|] == TerminalPrefix && AllDigits(id[|TerminalPrefix|..])
  }

  /** `idMatch ? Number(idMatch[1]) : 0` */
  function ParseTerminalId(id: string): nat
  {
    if IsTerminalId(id) then DigitsValue(id[|TerminalPrefix|..]) else 0
  }

  /** The id an upstream message builds: `terminal_${d.terminal_id}`. */
  function UpstreamId(n: nat): string
  {
    TerminalPrefix + NatToString(n)
  }

  lemma {:induction false} DigitsRoundTrip(n: nat)
    ensures DigitsValue(NatToString(n)) == n
  {
    if n >= 10 {
      var s := NatToString(n);
      assert s[..|s| - 1] == NatToString(n / 10);
      DigitsRoundTrip(n / 10);
    }
  }

  /** Round trip: parsing the id an upstream message builds gives back its number. */
  lemma ParseUpstreamId(n: nat)
    ensures IsTerminalId(UpstreamId(n))
    ensures ParseTerminalId(UpstreamId(n)) == n
  {
    var id := UpstreamId(n);
    assert id[..|TerminalPrefix|] == TerminalPrefix;
    assert id[|TerminalPrefix|..] == NatToString(n);
    DigitsRoundTrip(n);
  }

  /**
   * Parsing: an id of the form `terminal_<digits>` gives the number its
   * digits spell, and every other id gives 0 (so two ids that both fail to
   * match address the same device number).
   */
  lemma ParseTerminalIdCases(id: string)
    ensures IsTerminalId(id) ==> ParseTerminalId(id) == DigitsValue(id[|TerminalPrefix|..])
    ensures !IsTerminalId(id) ==> ParseTerminalId(id) == 0
    ensures ParseTerminalId(TerminalPrefix) == 0
  {
    assert !IsTerminalId(TerminalPrefix);
  }

  // ---------------------------------------------------------------------------
  // Downstream encoding and batch dispatch
  // ---------------------------------------------------------------------------

  /** `relay: cmd.status === 'on' ? 1 : 0` */
  function Relay(status: Status): int
  {
    if status == On then 1 else 0
  }

  function Encode(cmd: Command): Payload
  {
    Payload(ParseTerminalId(cmd.terminalId), Relay(cmd.status))
  }

  /** The payload says "relay on" exactly for an `on` command, and addresses the parsed id. */
  lemma EncodeRelay(cmd: Command)
    ensures Encode(cmd).relay == 1 <==> cmd.status == On
    ensures Encode(cmd).relay == 0 <==> cmd.status == Off
    ensures IsTerminalId(cmd.terminalId) ==> Encode(cmd).terminalId == DigitsValue(cmd.terminalId[|TerminalPrefix|..])
  {
  }

  function CountAcked(outcomes: seq<PublishOutcome>): nat
  {
    if outcomes == [] then 0
    else CountAcked(outcomes[..|outcomes| - 1]) + (if outcomes[|outcomes| - 1] == Acked then 1 else 0)
  }

  /**
   * `publishBatchControl(commands, delayMs)`: one publish attempt per command,
   * in order; a failed attempt is recorded and the loop goes on. The
   * attempts' outcomes are the input `outcomes`. Besides the result list the
   * method returns the payloads it built and the total time it paused.
   */
  method PublishBatchControl(commands: seq<Command>, outcomes: seq<PublishOutcome>, delayMs: nat)
    returns (results: seq<PublishResult>, payloads: seq<Payload>, waitedMs: nat)
    requires |outcomes| == |commands|
    ensures |results| == |commands| && |payloads| == |commands|
    ensures forall k :: 0 <= k < |commands| ==>
      && results[k].terminalId == commands[k].terminalId
      && (results[k].ok <==> outcomes[k] == Acked)
      && results[k].error == (if outcomes[k].Failed? then Some(outcomes[k].message) else None)
      && payloads[k] == Encode(commands[k])
    ensures waitedMs == delayMs * CountAcked(outcomes)
  {
    results, payloads, waitedMs := [], [], 0;
    for k := 0 to |commands|
      invariant |results| == k && |payloads| == k
      invariant forall j :: 0 <= j < k ==>
        && results[j].terminalId == commands[j].terminalId
        && (results[j].ok <==> outcomes[j] == Acked)
        && results[j].error == (if outcomes[j].Failed? then Some(outcomes[j].message) else None)
        && payloads[j] == Encode(commands[j])
      invariant waitedMs == delayMs * CountAcked(outcomes[..k])
    {
      var cmd := commands[k];
      var payload := Payload(ParseTerminalId(cmd.terminalId), if cmd.status == On then 1 else 0);
      payloads := payloads + [payload];
      assert outcomes[..k + 1][..k] == outcomes[..k];
      match outcomes[k]
      case Acked =>
        results := results + [PublishResult(cmd.terminalId, true, None)];
        waitedMs := waitedMs + delayMs;
      case Failed(msg) =>
        results := results + [PublishResult(cmd.terminalId, false, Some(msg))];
    }
    assert outcomes[..|commands|] == outcomes;
  }

  // ---------------------------------------------------------------------------
  // publishPromise: settle exactly once
  // ---------------------------------------------------------------------------

  /**
   * One pending `publishPromise`: `called` guards the promise so that the
   * first of the broker's callback and the timeout settles it and the other
   * is ignored.
   */
  class PendingPublish {
    /** The client was connected, so the timer and the publish callback were set up. */
    const connected: bool
    var called: bool
    var timerArmed: bool
    var settled: Option<PublishOutcome>

    ghost predicate Valid()
      reads this
    {
      && (!connected ==> !called && !timerArmed && settled == Some(Failed(NotConnectedMessage)))
      && (connected ==> (called <==> settled.Some?))
      && (called ==> !timerArmed)
    }

    /** Rejects at once when the client is not connected; otherwise arms the timeout and publishes. */
    constructor (isConnected: bool)
      ensures Valid()
      ensures connected == isConnected && !called
      ensures timerArmed == isConnected
      ensures settled == (if isConnected then None else Some(Failed(NotConnectedMessage)))
    {
      connected := isConnected;
      called := false;
      timerArmed := isConnected;
      settled := if isConnected then None else Some(Failed(NotConnectedMessage));
    }

    /** The timeout fires: it rejects only if nothing has settled the promise yet. */
    method OnTimeout()
      requires Valid() && connected && timerArmed
      modifies this
      ensures Valid() && !timerArmed && called
      ensures settled == if old(called) then old(settled) else Some(Failed(TimeoutMessage))
    {
      timerArmed := false;
      if !called {
        called := true;
        settled := Some(Failed(TimeoutMessage));
      }
    }

    /** The broker's publish callback: ignored once settled, otherwise clears the timer and settles. */
    method OnPublished(err: Option<string>)
      requires Valid() && connected
      modifies this
      ensures Valid() && called
      ensures old(called) ==> settled == old(settled) && timerArmed == old(timerArmed)
      ensures !old(called) ==>
        !timerArmed && settled == Some(if err.Some? then Failed(err.value) else Acked)
    {
      if called {
        return;
      }
      called := true;
      timerArmed := false;
      settled := Some(if err.Some? then Failed(err.value) else Acked);
    }
  }

  // ---------------------------------------------------------------------------
  // Upstream telemetry
  // ---------------------------------------------------------------------------

  /** One parsed upstream entry: `terminal_id`, `relay_status` and `power`. */
  datatype UpstreamDatum = UpstreamDatum(terminalId: nat, relayStatus: int, power: int)

  /** A parsed upstream payload: a single object or an array of them. */
  datatype UpstreamPayload = Single(datum: UpstreamDatum) | Batch(data: seq<UpstreamDatum>)

  /** What the handler writes for one entry: a power reading and the terminal's status. */
  datatype TelemetryWrite = TelemetryWrite(terminalId: string, status: Status, power: int)

  /** `Array.isArray(payload) ? payload : [payload]` */
  function Entries(payload: UpstreamPayload): seq<UpstreamDatum>
  {
    match payload
    case Single(d) => [d]
    case Batch(ds) => ds
  }

  function TelemetryOf(d: UpstreamDatum): TelemetryWrite
  {
    TelemetryWrite(UpstreamId(d.terminalId), if d.relayStatus == 1 then On else Off, d.power)
  }

  /** `process.env.MQTT_TOPIC_UPSTREAM || 'stm32/data/upstream'`: an unset or empty setting gives the default. */
  function UpstreamTopic(configured: Option<string>): (t: string)
    ensures configured.Some? && configured.value != "" ==> t == configured.value
    ensures configured.None? || configured.value == "" ==> t == DefaultUpstreamTopic
    ensures t != ""
  {
    if configured.Some? && configured.value != "" then configured.value else DefaultUpstreamTopic
  }

  /** The writes the upstream message handler makes, in entry order; other topics are ignored. */
  function UpstreamWrites(topic: string, configuredTopic: Option<string>, payload: UpstreamPayload): (w: seq<TelemetryWrite>)
    ensures topic != UpstreamTopic(configuredTopic) ==> w == []
  {
    if topic != UpstreamTopic(configuredTopic) then []
    else
      var ds := Entries(payload);
      seq(|ds|, k requires 0 <= k < |ds| => TelemetryOf(ds[k]))
  }

  /**
   * Upstream mapping: one write per entry (one for a non-array payload),
   * addressed to `terminal_<terminal_id>` and `on` exactly when
   * `relay_status` is 1; the id parses back to the entry's number.
   */
  lemma UpstreamMapping(topic: string, configuredTopic: Option<string>, payload: UpstreamPayload, k: nat)
    requires topic == UpstreamTopic(configuredTopic) && k < |Entries(payload)|
    ensures payload.Single? ==> |UpstreamWrites(topic, configuredTopic, payload)| == 1
    ensures |UpstreamWrites(topic, configuredTopic, payload)| == |Entries(payload)|
    ensures var w, d := UpstreamWrites(topic, configuredTopic, payload)[k], Entries(payload)[k];
      && ParseTerminalId(w.terminalId) == d.terminalId
      && (w.status == On <==> d.relayStatus == 1)
      && w.power == d.power
  {
    ParseUpstreamId(Entries(payload)[k].terminalId);
  }
}
