# Smart-outlet capacity control, modelled in Dafny

The backend decides which smart outlets ("terminals") may draw power at the
same time without exceeding one capacity budget (in watts). This project models
its core and proves properties about that model:

- **Allocation engine** (`knapsack.dfy`, module `Knapsack`). `runKnapsack`
  turns priorities into values and power into weights. It then runs either an
  exact 0/1 knapsack, filling `dp`/`keep` tables (the `array2` methods
  `FillRow`, `Backtrack`, `DpSelect`), or a greedy fill in order of value
  density. The DP methods are proved against the recursive reference
  functions `MaxValue` and `BacktrackPicks`, and the greedy fill loop against
  `GreedyPicks`. The density sort is the function `SortByDensity` itself,
  whose sorted-permutation contract is proved.
- **Allocation loop** (`manager.dfy`, module `KnapsackManager`). The class
  `KnapsackLoop` holds the running flag, the periodic timer and the
  skip-if-busy lock. A run is split at its first `await`: `BeginRun` takes the
  lock, and `FinishRun` does the rest, with the replies of its foreign calls
  given as inputs.
- **Admission decision** (`admission.dfy`, module `TerminalRoute`). This is
  the first `POST /:id/set` handler. A loop accumulates the power of the
  terminals that are on, and the result is proved against the reference
  decision `Decide`.
- **Schedule watcher** (`schedule.dfy`, module `ScheduleManager`). It sorts
  each terminal into a switch-on list, a switch-off list or neither, from its
  schedule window. It publishes the on batch first. The timer handle is a
  class field.
- **Command transport** (`mqtt.dfy`, module `Mqtt`). It covers id parsing,
  the relay encoding, and the batch publish with its ordered result list. The
  class `PendingPublish` models the settle-once logic of `publishPromise`. The
  upstream telemetry mapping is also here.
- **Store reductions** (`supabase.dfy`, module `Supabase`). These are the two
  map reductions of `getLatestPowerForAll`, the rule that picks one of them,
  and the non-throwing `insertKnapsackLog`.

Power, capacity and timestamps are integers: watts and milliseconds. The
quantisation factor is 1 W, so an item's weight is `max(1, power)`. Queries,
publishes and clocks are not executed. Their replies are method parameters:
`RunInputs`, `Snapshot`, publish outcomes, and clock readings.

Behaviour of the code that a reader might not expect, as the model captures
it:

- The admission handler never checks whether the allocation loop is running.
  Its module does not import the loop manager, so there is no "scheduler
  active" rejection.
- The batch publish pauses only after a successful publish. The failure path
  skips the pause (`Mqtt.PublishBatchControl`: `waitedMs == delayMs *
  CountAcked(outcomes)`).
- Negative capacity is not treated as zero. On the DP path, any capacity of
  −2 or less makes `new Array(W + 1)` throw a `RangeError`. Every other
  negative case selects nothing (`Knapsack.KnapsackNegativeCapacity`). In the
  loop, the thrown error rejects the run after its lock is released.
- The DP path also throws that `RangeError` for a capacity of `2^32 − 1` or
  more, where `W + 1` exceeds the longest array. AUTO mode reaches this only
  with an empty batch: any non-empty batch with such a capacity goes greedy
  (`Knapsack.AutoBatchSucceeds`).
- The schedule watcher's rule "before `start` puts a terminal in neither list"
  holds only for windows where `start <= finish`. Take an inverted window
  whose `finish` lies before `start`. If the terminal reports `on` at a time
  between the two, it is switched off.
- An accepted admission does not change the stored status. Only telemetry
  does. So two requests in a row see the same rows (`TerminalRoute.ExampleAdmitC`
  and `TerminalRoute.ExampleRefuseA`: C is accepted, then A is refused with
  500 W of headroom).

## Model

| member | source | states |
|---|---|---|
| Knapsack.MaxPriority | src/services/knapsackService.ts:29 | The batch's maximum priority is at least 0 and at least every item's priority. It is 0 or some item's priority. |
| Knapsack.Prepare | src/services/knapsackService.ts:32-36 | There is one prepared item per input item, in order, with the same id, power and priority. Its value is exactly `maxPriority − priority + 1` (at least 1, so the clamp at 0 never applies), and its weight is exactly `max(1, power)`. |
| Knapsack.PriorityValues | src/services/knapsackService.ts:16-21 | Every value is at least 1. A lower priority number gets a strictly higher value. A priority-0 item gets `maxPriority + 1`; with non-negative priorities that is the highest value of its batch. |
| Knapsack.Insert | src/services/knapsackService.ts:45-50 | Inserting adds exactly one element (as a multiset) and keeps a density-sorted sequence sorted. |
| Knapsack.SortByDensity | src/services/knapsackService.ts:45-50 | The greedy order is a permutation of the items, sorted by density (highest first), with ties broken by lighter weight. |
| Knapsack.GreedyPicks | src/services/knapsackService.ts:54-60 | The greedy selection's weight is within `capUnits`, and it is drawn from the scanned items. |
| Knapsack.GreedyIsMaximal | src/services/knapsackService.ts:54-60 | An item is skipped only if it no longer fits: adding any item left out would exceed `capUnits`. |
| Knapsack.GreedySelect | src/services/knapsackService.ts:51-60 | The fill loop returns the ids and the value sum of the greedy selection. |
| Knapsack.FillRow | src/services/knapsackService.ts:73-91 | After filling row `i`, `dp[i][w]` is the best value of the first `i` items within `w`. `keep[i][w]` holds exactly when taking item `i` is strictly better. Other rows are unchanged. |
| Knapsack.MaxValueOptimal | src/services/knapsackService.ts:73-91 | No selection drawn from the items that fits in `w` has more value than `dp[n][w]`. |
| Knapsack.MaxValueMonotone | src/services/knapsackService.ts:73-91 | Each DP row is nondecreasing in `w`. |
| Knapsack.BacktrackAchievesMax | src/services/knapsackService.ts:93-103 | The backtracked selection fits in `W`, is drawn from the items, and its value equals `dp[n][W]`. |
| Knapsack.Backtrack | src/services/knapsackService.ts:93-103 | The backtrack loop over `keep` returns the backtracked ids, and a priority total equal to the optimum. |
| Knapsack.DpSelect | src/services/knapsackService.ts:66-103 | The table fill plus the backtrack return the backtracked ids and the optimum `MaxValue`. |
| Knapsack.Knapsack | src/services/knapsackService.ts:23-107 | The reference result: it fails (with a `RangeError`) exactly when the DP path runs with a table row length `W + 1` outside `0 .. 2^32 − 1`, and otherwise reports the greedy path exactly when the mode heuristic picks it. Its other properties are the lemmas below. |
| Knapsack.RunKnapsack | src/services/knapsackService.ts:23-107 | The imperative engine's result equals the reference result `Knapsack`, for every input including negative capacities. |
| Knapsack.KnapsackRespectsCapacity | src/services/knapsackService.ts:38-63 | For capacity >= 0 the engine succeeds exactly when greedy runs or the capacity is below `2^32 − 1`. On success it selects weight within capacity, and only input ids. `totalPriority` is the selected value and `totalPower` is the selected items' power. Greedy runs exactly when the mode heuristic says so. |
| Knapsack.KnapsackPowerWithinCapacity | src/services/knapsackService.ts:105 | With distinct ids, the reported (unquantised) `totalPower` of a successful run never exceeds the capacity. |
| Knapsack.AutoBatchSucceeds | src/services/knapsackService.ts:39-41 | In AUTO mode a non-empty batch with a non-negative capacity never fails: a capacity too large for a table row sends it down the greedy path. |
| Knapsack.KnapsackDpOptimal | src/services/knapsackService.ts:66-106 | When the DP path runs, it succeeds exactly for a capacity below `2^32 − 1`. Then `totalPriority` is the optimum, and no fitting selection from the items is worth more. |
| Knapsack.KnapsackGreedyBelowDp | src/services/knapsackService.ts:43-64 | Whenever the DP run succeeds, the greedy total is never above the DP total on the same input. |
| Knapsack.KnapsackEmptyInput | src/services/knapsackService.ts:28-29 | No items succeeds exactly in GREEDY mode or below a capacity of `2^32 − 1`, and then gives an empty selection with zero totals. Greedy is reported only for the GREEDY mode. |
| Knapsack.KnapsackZeroCapacity | src/services/knapsackService.ts:34 | Every weight is at least 1, so capacity 0 selects nothing, on both paths, with zero totals. |
| Knapsack.KnapsackNegativeCapacity | src/services/knapsackService.ts:67-71 | With negative capacity, the engine fails exactly when DP runs with capacity <= −2. Otherwise it selects nothing and reports zero power. |
| Knapsack.ExampleAllocation | src/services/knapsackService.ts:73-103 | The worked example: with 1000 W and items A 800 W, B 500 W, C 400 W (priorities 1, 2, 3), the DP selects {A} at 800 W and value 3. {B, C} ties at value 3, but an item is kept only when strictly better. |
| Mqtt.NatToString | src/services/mqttService.ts:68 | A number prints as one or more decimal digits. |
| Mqtt.DigitsRoundTrip | src/services/mqttService.ts:140 | Reading back the printed digits of `n` gives `n`. |
| Mqtt.ParseTerminalIdCases | src/services/mqttService.ts:139-140 | An id of the form `terminal_<digits>` parses to its number. Any other id, including `terminal_` alone, parses to 0. |
| Mqtt.ParseUpstreamId | src/services/mqttService.ts:139-140 | Round trip: the id `terminal_<n>` built from upstream data matches the pattern and parses back to `n`. |
| Mqtt.EncodeRelay | src/services/mqttService.ts:143-147 | The payload's `relay` is 1 exactly for an `on` command and 0 exactly for `off`. It addresses the parsed id. |
| Mqtt.PublishBatchControl | src/services/mqttService.ts:130-174 | There is one result per command, in order. `ok` holds exactly when that publish was acknowledged; otherwise the result carries the error message, and the loop goes on. Each payload encodes its command. The pause total is the delay times the number of successes. |
| Mqtt.PendingPublish.constructor | src/services/mqttService.ts:100-108 | When not connected, the promise is rejected at once with "MQTT client not connected". Otherwise the timer is armed, and the promise is not yet settled. |
| Mqtt.PendingPublish.OnTimeout | src/services/mqttService.ts:103-108 | The timeout settles the promise with "publish timeout" only if nothing settled it before. |
| Mqtt.PendingPublish.OnPublished | src/services/mqttService.ts:110-116 | The broker callback is ignored once the promise has settled. Otherwise it clears the timer and settles with the broker's error or success. |
| Mqtt.UpstreamTopic | src/services/mqttService.ts:14 | The upstream topic is the configured one when it is set and non-empty, and `stm32/data/upstream` otherwise. |
| Mqtt.UpstreamWrites | src/services/mqttService.ts:58 | A message on any topic other than the upstream topic writes nothing. |
| Mqtt.UpstreamMapping | src/services/mqttService.ts:57-83 | A single-object payload counts as a one-entry batch. Each entry yields one write, in order, for `terminal_<terminal_id>`; the id parses back to the entry's number. The status is `on` exactly when `relay_status` is 1; the power is carried over. |
| Supabase.CapacityBudget | src/routes/terminalRoute.ts:70-71 | The budget is the device threshold when there is one, else the configured default, else 1500 W. |
| Supabase.NewestNonZeroSnoc | src/services/supabaseService.ts:97-100 | One more, older row changes the kept power only while the kept power is still 0. |
| Supabase.NewestZeroOverwritten | src/services/supabaseService.ts:99 | A newest reading of 0 is overwritten by an older, nonzero reading. |
| Supabase.LatestFromRecent | src/services/supabaseService.ts:97-101 | The fallback map has exactly the ids of the rows it reads. Each id maps to its newest nonzero reading, or to 0 when all its readings are 0. |
| Supabase.LatestFromRpc | src/services/supabaseService.ts:105-109 | The RPC map has exactly the keys `terminalid ?? terminalId` of its rows. Each key maps to the power of its last row. |
| Supabase.GetLatestPowerForAll | src/services/supabaseService.ts:69-110 | The fallback runs exactly when the RPC error has a message or there is no data. It reads only the 500 most recent rows, and its query error is thrown. Otherwise the RPC rows decide. |
| Supabase.InsertKnapsackLog | src/services/supabaseService.ts:154-174 | An insert error becomes a warning and a `null` result. The function never fails. |
| KnapsackManager.ItemOf | src/services/knapsackManager.ts:62-66 | An item keeps its terminal's id. Its power is the terminal's latest reading, or 0 when there is none. Its priority is the stored priority, or 0 when there is none. |
| KnapsackManager.BuildItems | src/services/knapsackManager.ts:62-66 | There is one engine item per terminal, in query order. |
| KnapsackManager.BuildCommands | src/services/knapsackManager.ts:76-79 | There is one command per item, in item order. It is `on` exactly when the item's id is selected. |
| KnapsackManager.PlanCommandsMatchSelection | src/services/knapsackManager.ts:61-79 | A dispatching run uses the AUTO-mode engine on the capacity budget (threshold, else configured default, else 1500). It commands every terminal once, in query order. The ids it switches on are exactly the selected ids. |
| KnapsackManager.PlanWithinBudget | src/services/knapsackManager.ts:69-79 | With distinct ids and a non-negative budget, the power a run switches on stays within the budget. A negative budget switches every terminal off. |
| KnapsackManager.KnapsackLoop.constructor | src/services/knapsackManager.ts:7-9 | Initially the loop is stopped, with no timer and no lock. |
| KnapsackManager.KnapsackLoop.IsRunning | src/services/knapsackManager.ts:11-13 | Reports the running flag. While the class invariant holds, the loop is running exactly when its timer is armed. |
| KnapsackManager.KnapsackLoop.StartLoop | src/services/knapsackManager.ts:19-32 | While running: "already running", and nothing changes. Otherwise the loop is running with the timer armed at `intervalMs` (30000 ms by default), and `{started: true}`. The immediate run has taken the lock unless another run held it. |
| KnapsackManager.KnapsackLoop.StopLoop | src/services/knapsackManager.ts:34-43 | While stopped: "not running", and nothing changes. Otherwise the loop is stopped and the timer cleared. `{stopped: true}` is returned. The lock is never touched. |
| KnapsackManager.KnapsackLoop.BeginRun | src/services/knapsackManager.ts:45-50 | A run proceeds exactly when the lock was free, and then holds it. The running flag and the timer are untouched. |
| KnapsackManager.KnapsackLoop.FinishRun | src/services/knapsackManager.ts:51-99 | Every path releases the lock and leaves the running flag and timer alone. Zero terminals means nothing is published and no log is written. A read or engine error rejects the run. Otherwise the run publishes one encoded command per terminal and returns `{knap, publishResults}` whatever the log insert does. |
| KnapsackManager.KnapsackLoop.ExecuteOnce | src/services/knapsackManager.ts:45-100 | A run that finds the lock held does nothing: no fetch, no publish, no log. Otherwise it finishes with the lock released and does what `FinishRun` does: no publish for zero terminals, the error for a failed read, or one encoded command per terminal with one result each. |
| TerminalRoute.FindTerminal | src/routes/terminalRoute.ts:74 | The lookup finds a terminal exactly when one has the id. It returns the first such row. |
| TerminalRoute.TotalOnPower | src/routes/terminalRoute.ts:58-65 | The loop sums the latest power (0 when absent) of the terminals whose lower-cased status is `on`, other than the requested one. |
| TerminalRoute.OnPowerSplit | src/routes/terminalRoute.ts:58-67 | With distinct ids, the on power once the requested terminal is on equals `totalOnPower` plus its own power. |
| TerminalRoute.Decide | src/routes/terminalRoute.ts:37-98 | A missing id or status gives 400. Any status other than exactly `on` is published as `off` with no reads. A failing read gives 500. A refusal reports `capacity − totalOnPower`, unclamped and below the requested power, and applies only to a terminal not already on. |
| TerminalRoute.AcceptIffFits | src/routes/terminalRoute.ts:82-92 | For any id not already on (listed and off, unlisted, or in a table with duplicate ids), once the reads succeed, the request is accepted exactly when `totalOnPower + requestedPower <= capacity`, and otherwise refused with `available = capacity − totalOnPower`. |
| TerminalRoute.AcceptedWithinBudget | src/routes/terminalRoute.ts:82-92 | For a listed terminal that is off, in a table with distinct ids, the request is accepted exactly when the on power, once it is on too, fits the budget (inclusive). |
| TerminalRoute.AlreadyOnAccepted | src/routes/terminalRoute.ts:74-79 | When the first row with the id (the one `find` returns) is on, the request is accepted with "Already ON" whatever the budget. With `AcceptIffFits` this covers the whole `on` branch. |
| TerminalRoute.SetTerminal | src/routes/terminalRoute.ts:37-98 | The handler answers as `Decide` says. It publishes exactly the decided command, and nothing on 400, 500 or refusal. The publish result is returned. A refusal carries "Capacity exceeded", `threshold_exceeded` and the headroom. |
| TerminalRoute.ExampleRows | src/routes/terminalRoute.ts:58-75 | In the example rows only B (500 W) is on. C and A are found and are off. |
| TerminalRoute.ExampleAdmitC | src/routes/terminalRoute.ts:82-87 | Budget 1000 W with B on: a request to switch on C (400 W) is accepted. |
| TerminalRoute.ExampleRefuseA | src/routes/terminalRoute.ts:88-92 | On the same rows, switching on A (800 W) is refused with 500 W available. |
| ScheduleManager.VerdictOf | src/services/scheduleManager.ts:21-35 | A terminal goes on the switch-on list exactly when it has a window with `start <= now < finish` and status exactly `off`. It goes on the switch-off list exactly when `now >= finish` and status exactly `on`. Before a well-formed window, or with any other status, it is in neither. |
| ScheduleManager.PickedMembers | src/services/scheduleManager.ts:21-35 | An id is in a list exactly when some row with that id gets that list's verdict. |
| ScheduleManager.PickedAppend | src/services/scheduleManager.ts:21-35 | The lists keep query order: classifying a concatenation gives the concatenated lists. |
| ScheduleManager.ListsDisjoint | src/services/scheduleManager.ts:28-34 | With distinct ids, no terminal is on both lists. |
| ScheduleManager.Classify | src/services/scheduleManager.ts:18-35 | The classification loop builds exactly the two reference lists. |
| ScheduleManager.Commands | src/services/scheduleManager.ts:39 | A batch has one command per listed id, in list order, with the batch's status. |
| ScheduleManager.Tick | src/services/scheduleManager.ts:10-46 | A failing query publishes nothing. An empty list is not published, and the on batch goes before the off batch. |
| ScheduleManager.TickCommands | src/services/scheduleManager.ts:38-45 | A terminal is commanded on (off) by a tick exactly when its verdict is switch-on (switch-off). |
| ScheduleManager.ScheduleWatcher.constructor | src/services/scheduleManager.ts:5 | Initially no timer is armed. |
| ScheduleManager.ScheduleWatcher.Start | src/services/scheduleManager.ts:7-10 | Starting while a timer is armed changes nothing. Otherwise the timer is armed at `intervalMs` (30000 ms by default). |
| ScheduleManager.ScheduleWatcher.Stop | src/services/scheduleManager.ts:51-55 | Stopping always leaves no timer armed, so it is idempotent. |

## Left out

- Knapsack.SortByDensity: states a sorted permutation but not stability (equal items keep their input order), which the insertion it is built from does give.
- Knapsack: power is integer watts and `quantizeFactor` is 1, so the `Math.round` of fractional power is not modelled. Densities are compared exactly, by cross-multiplication, rather than as floating-point quotients.
- Knapsack.Knapsack: a batch of `2^32 − 1` items, whose `n + 1` table rows would also throw, is not modelled. Nor is a large but valid table exhausting the heap; such a run succeeds in the model.
- Knapsack: the in-place `prepared.sort` is modelled as a function on sequences, not as an in-place array sort.
- Knapsack: `runtimeMs` and the clock reads are left out (real time).
- KnapsackManager.KnapsackLoop.FinishRun: requires one publish outcome per terminal. This is a constraint on the model's stand-in for the broker, not on the source's callers.
- KnapsackManager.KnapsackLoop.StartLoop: the timer's firing and the `.catch` logging are not modelled. A tick is a `BeginRun`/`FinishRun` call sequence, and other ticks can be interleaved between the two.
- Concurrency between the admission handler and the loop is not modelled. They share no lock. Each reads its own snapshot.
- TerminalRoute: a status in the request body is taken to be a string or absent. Lower-casing covers ASCII letters only.
- TerminalRoute.SetTerminal: the response's HTTP status code and its `accepted` flag are not stored; they follow from the constructor (400 without the flag, `Published` 200 and true, `Rejected` 200 and false, `ServerError` 500 and false).
- TerminalRoute: the second `/:id/set` handler (shadowed by the first) and `GET /` are not part of this model.
- Mqtt: the message id `Math.random()` puts in each payload is left out (randomness). So are the broker connection, subscription and JSON parsing.
- Mqtt.PublishBatchControl: the pauses are summed into `waitedMs` rather than slept.
- Mqtt.PendingPublish: the timeout length is not modelled, only the order of the timeout and the broker callback.
- Mqtt.UpstreamMapping: the handler's store writes are given for the whole message. A write that throws part-way stops the rest of the entries in the source. Non-numeric `terminal_id` and `relay_status` values are not modelled. Nor are negative or fractional `terminal_id` values: the id is a natural number here. The source would build `terminal_-5` or `terminal_1.5` from them, which parse to 0.
- Mqtt: `Number()` of very long digit strings (beyond 2^53) is not modelled; parsed numbers are unbounded.
- Supabase: the SQL RPC and the fallback query are inputs. RPC data that is present but not an array (which would throw) is not modelled. `Number()` of non-numeric power is not modelled.
- Supabase.InsertKnapsackLog: the inserted row's contents (`JSON.stringify` of the result, timestamps) are not modelled.
- Supabase: `Number(process.env.DEFAULT_MAX_CAPACITY)` is taken to be an integer or absent, never `NaN`.
- ScheduleManager.Tick: a tick is modelled as one step. The source's callback is async and takes no lock, so a slow tick (say one waiting on publish time-outs) can overlap the next and publish the same batches again; that interleaving is not modelled.
- ScheduleManager: timestamps are integers. The query's `not: null` filter and the loop's skip are modelled together as "skip rows without both times". Invalid dates are not modelled.
- Statistics (floating-point energy and cost), schedule editing routes, the knapsack HTTP routes, the power-ingest service, server bootstrap and the Prisma client are not part of this model.
