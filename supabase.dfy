/**
 * The store (`supabaseService`): the terminal record the core reads, the
 * reductions of power-usage rows to a map "terminal id -> latest power", and
 * the audit-log insert that never throws. The queries themselves are not
 * modelled: their replies are inputs.
 */
module Supabase {
  import opened Types

  /** A terminal record: id, priority, reported status and schedule window (ms timestamps). */
  datatype TerminalRow = TerminalRow(
    terminalId: string,
    priority: Option<int>,
    status: Option<string>,
    startOn: Option<int>,
    finishOn: Option<int>)

  /** A power-usage row of the fallback query. */
  datatype PowerRow = PowerRow(terminalId: string, power: int)

  /** A row of the SQL RPC reply: the id may come back lower-cased (`terminalid`) or not. */
  datatype RpcRow = RpcRow(terminalid: Option<string>, terminalId: Option<string>, power: int)

  /** The RPC reply: an error (with its message, possibly empty) and the data, each possibly absent. */
  datatype RpcReply = RpcReply(error: Option<string>, data: Option<seq<RpcRow>>)

  /** The fallback query reads this many of the most recent rows. */
  const FallbackLimit := 500
  /** Capacity budget (W) when neither a device threshold nor a configured default exists. */
  const BuiltInCapacity := 1500

  /** `oneStm32?.stm32Threshold ?? Number(process.env.DEFAULT_MAX_CAPACITY ?? 1500)` */
  function CapacityBudget(threshold: Option<int>, configured: Option<int>): (c: int)
    ensures threshold.Some? ==> c == threshold.value
    ensures threshold.None? && configured.Some? ==> c == configured.value
    ensures threshold.None? && configured.None? ==> c == BuiltInCapacity
  {
    threshold.GetOr(configured.GetOr(BuiltInCapacity))
  }

  // ---------------------------------------------------------------------------
  // Fallback path: newest-first rows, set while the current entry is falsy
  // ---------------------------------------------------------------------------

  /** The power the fallback keeps for `id`: the newest nonzero reading, or 0 when every reading is 0. */
  function NewestNonZero(rows: seq<PowerRow>, id: string): int
  {
    if rows == [] then 0
    else if rows[0].terminalId == id && rows[0].power != 0 then rows[0].power
    else NewestNonZero(rows[1..], id)
  }

  lemma {:induction false} NewestNonZeroSnoc(rows: seq<PowerRow>, r: PowerRow, id: string)
    ensures NewestNonZero(rows + [r], id) ==
      if NewestNonZero(rows, id) != 0 then NewestNonZero(rows, id)
      else if r.terminalId == id then r.power
      else 0
  {
    if rows == [] {
      assert [r][1..] == [];
    } else {
      assert (rows + [r])[1..] == rows[1..] + [r];
      NewestNonZeroSnoc(rows[1..], r, id);
    }
  }

  /** A reading of 0 newer than a nonzero one does not win: the older, nonzero reading is kept. */
  lemma NewestZeroOverwritten(id: string, older: int)
    requires older != 0
    ensures NewestNonZero([PowerRow(id, 0), PowerRow(id, older)], id) == older
  {
    assert [PowerRow(id, 0), PowerRow(id, older)][1..] == [PowerRow(id, older)];
  }

  /** The `forEach` of the fallback path: `if (!map[id]) map[id] = power`. */
  method LatestFromRecent(rows: seq<PowerRow>) returns (m: map<string, int>)
    ensures forall id :: id in m <==> exists k :: 0 <= k < |rows| && rows[k].terminalId == id
    ensures forall id :: id in m ==> m[id] == NewestNonZero(rows, id)
  {
    m := map[];
    for i := 0 to |rows|
      invariant forall id :: id in m <==> exists k :: 0 <= k < i && rows[k].terminalId == id
      invariant forall id :: id in m ==> m[id] == NewestNonZero(rows[..i], id)
      invariant forall id :: id !in m ==> NewestNonZero(rows[..i], id) == 0
    {
      var r := rows[i];
      assert rows[..i + 1] == rows[..i] + [r];
      forall id ensures NewestNonZero(rows[..i + 1], id) ==
        if NewestNonZero(rows[..i], id) != 0 then NewestNonZero(rows[..i], id)
        else if r.terminalId == id then r.power else 0
      {
        NewestNonZeroSnoc(rows[..i], r, id);
      }
      if !(r.terminalId in m && m[r.terminalId] != 0) {
        m := m[r.terminalId := r.power];
      }
    }
    assert rows[..|rows|] == rows;
  }

  // ---------------------------------------------------------------------------
  // RPC path: every row assigns
  // ---------------------------------------------------------------------------

  /** `r.terminalid ?? r.terminalId`, as a property key (`undefined` becomes "undefined"). */
  function RpcKey(r: RpcRow): string
  {
    r.terminalid.GetOr(r.terminalId.GetOr("undefined"))
  }

  /** The power of the last row with key `id`. */
  function LastPower(rows: seq<RpcRow>, id: string): int
  {
    if rows == [] then 0
    else if RpcKey(rows[|rows| - 1]) == id then rows[|rows| - 1].power
    else LastPower(rows[..|rows| - 1], id)
  }

  /** The `forEach` of the RPC path: later rows overwrite earlier ones. */
  method LatestFromRpc(rows: seq<RpcRow>) returns (m: map<string, int>)
    ensures forall id :: id in m <==> exists k :: 0 <= k < |rows| && RpcKey(rows[k]) == id
    ensures forall id :: id in m ==> m[id] == LastPower(rows, id)
  {
    m := map[];
    for i := 0 to |rows|
      invariant forall id :: id in m <==> exists k :: 0 <= k < i && RpcKey(rows[k]) == id
      invariant forall id :: id in m ==> m[id] == LastPower(rows[..i], id)
    {
      assert rows[..i + 1][..i] == rows[..i];
      m := m[RpcKey(rows[i]) := rows[i].power];
    }
    assert rows[..|rows|] == rows;
  }

  // ---------------------------------------------------------------------------
  // getLatestPowerForAll
  // ---------------------------------------------------------------------------

  /** `(error && error.message) || !data` */
  predicate UseFallback(reply: RpcReply)
  {
    (reply.error.Some? && reply.error.value != "") || reply.data.None?
  }

  function Take(rows: seq<PowerRow>, n: nat): seq<PowerRow>
  {
    if |rows| <= n then rows else rows[..n]
  }

  /**
   * `getLatestPowerForAll`: the RPC reply's rows when it has any data and no
   * error message; otherwise the fallback over the 500 most recent rows
   * (`recent` is the whole table, newest first), whose query error is thrown.
   */
  method GetLatestPowerForAll(reply: RpcReply, recent: Result<seq<PowerRow>, string>)
    returns (r: Result<map<string, int>, string>)
    ensures r.Failure? <==> UseFallback(reply) && recent.Failure?
    ensures r.Success? && !UseFallback(reply) ==>
      var rows := reply.data.value;
      && (forall id :: id in r.value <==> exists k :: 0 <= k < |rows| && RpcKey(rows[k]) == id)
      && (forall id :: id in r.value ==> r.value[id] == LastPower(rows, id))
    ensures r.Success? && UseFallback(reply) ==>
      var rows := Take(recent.value, FallbackLimit);
      && |rows| <= FallbackLimit
      && (forall id :: id in r.value <==> exists k :: 0 <= k < |rows| && rows[k].terminalId == id)
      && (forall id :: id in r.value ==> r.value[id] == NewestNonZero(rows, id))
  {
    if (reply.error.Some? && reply.error.value != "") || reply.data.None? {
      if recent.Failure? {
        return Failure(recent.error);
      }
      var rows := recent.value;
      if |rows| > FallbackLimit {
        rows := rows[..FallbackLimit];
      }
      var m := LatestFromRecent(rows);
      return Success(m);
    }
    var m := LatestFromRpc(reply.data.value);
    r := Success(m);
  }

  // ---------------------------------------------------------------------------
  // insertKnapsackLog
  // ---------------------------------------------------------------------------

  /** What the audit-log insert reports; there is no failure case, an insert error is only warned about. */
  datatype LogResult = Logged | NotLogged(warning: string)

  /** `insertKnapsackLog`: an insert error becomes a warning and a `null` result, never an exception. */
  function InsertKnapsackLog(insertError: Option<string>): (r: LogResult)
    ensures r.NotLogged? <==> insertError.Some?
    ensures r.NotLogged? ==> r.warning == insertError.value
  {
    match insertError
    case Some(msg) => NotLogged(msg)
    case None => Logged
  }
}
