/**
 * The allocation engine (`runKnapsack`): given candidate terminals with their
 * power draw and priority, choose the set that may be switched on within a
 * capacity budget, either by an exact 0/1 knapsack (dynamic programming) or by
 * a greedy fill in order of value density.
 *
 * Power and capacity are integer watts and the quantisation factor is 1 watt,
 * so an item's weight is `max(1, power)` and the capacity in units is the
 * capacity itself.
 */
module Knapsack {
  import opened Types

  /** Above this many items AUTO mode switches to the greedy fill. */
  const MaxDpItems := 200
  /** Above this many DP cells (capacity units times items) AUTO mode switches to the greedy fill. */
  const MaxDpCells := 2_000_000

  /** A candidate terminal: its id, its latest power draw (W) and its priority (lower = more important). */
  datatype Item = Item(terminalId: string, power: int, priority: int)

  /** The mode the caller asks for. */
  datatype Mode = Auto | ForceDP | ForceGreedy

  /** The algorithm that actually ran (`modeUsed`). */
  datatype Algorithm = DP | Greedy

  /** An item with its knapsack value (from the priority) and weight (from the power). */
  datatype Prepared = Prepared(terminalId: string, power: int, priority: int, value: int, weight: int)

  /** What the engine returns; the measured run time is not modelled. */
  datatype KnapsackResult = KnapsackResult(
    selectedIds: seq<string>,
    totalPower: int,
    totalPriority: int,
    modeUsed: Algorithm)

  /**
   * The only failure: a DP table row whose length `W + 1` is not a valid
   * array length (`new Array(W + 1)` with `W + 1 < 0` or `W + 1 > 2^32 - 1`).
   */
  datatype KnapsackError = RangeError

  /** The longest array JavaScript allows: `2^32 - 1` elements. */
  const MaxArrayLength := 0xFFFF_FFFF

  /** `new Array(capUnits + 1)` throws a `RangeError`. */
  predicate RowLengthInvalid(capUnits: int)
  {
    capUnits + 1 < 0 || capUnits + 1 > MaxArrayLength
  }

  function Max(a: int, b: int): int
  {
    if a >= b then a else b
  }

  // ---------------------------------------------------------------------------
  // Value and weight preparation
  // ---------------------------------------------------------------------------

  /** The largest priority of the batch, never below 0 (the reduction starts at 0). */
  function MaxPriority(items: seq<Item>): (m: int)
    ensures m >= 0
    ensures forall k :: 0 <= k < |items| ==> items[k].priority <= m
    ensures m == 0 || exists k :: 0 <= k < |items| && items[k].priority == m
  {
    if items == [] then 0
    else
      var init := items[..|items| - 1];
      var m' := MaxPriority(init);
      assert forall k :: 0 <= k < |init| ==> init[k] == items[k];
      Max(m', items[|items| - 1].priority)
  }

  /** Smaller priority numbers give larger values. */
  function MapPriorityToValue(priority: int, maxPriority: int): int
  {
    Max(0, maxPriority - priority + 1)
  }

  function PrepareItem(it: Item, maxPriority: int): Prepared
  {
    Prepared(it.terminalId, it.power, it.priority,
             MapPriorityToValue(it.priority, maxPriority), Max(1, it.power))
  }

  /** Every item, in input order, with its value and its weight. */
  function Prepare(items: seq<Item>): (p: seq<Prepared>)
    ensures |p| == |items|
    ensures forall k :: 0 <= k < |items| ==>
      && p[k].terminalId == items[k].terminalId
      && p[k].power == items[k].power
      && p[k].priority == items[k].priority
    ensures forall k :: 0 <= k < |items| ==>
      p[k].value == MaxPriority(items) - items[k].priority + 1 && p[k].weight == Max(1, items[k].power)
    ensures forall k :: 0 <= k < |items| ==>
      p[k].value >= 1 && p[k].weight >= 1 && p[k].weight >= p[k].power
  {
    var m := MaxPriority(items);
    seq(|items|, k requires 0 <= k < |items| => PrepareItem(items[k], m))
  }

  /** Every weight is at least one unit. */
  ghost predicate Weighted(p: seq<Prepared>)
  {
    forall k :: 0 <= k < |p| ==> p[k].weight >= 1
  }

  /** The mode heuristic: which runs, the greedy fill or the exact DP. */
  predicate UseGreedy(mode: Mode, n: nat, capUnits: int)
  {
    mode == ForceGreedy || (mode == Auto && (n > MaxDpItems || capUnits * n > MaxDpCells))
  }

  // ---------------------------------------------------------------------------
  // Sums over selections
  // ---------------------------------------------------------------------------

  function SumWeight(s: seq<Prepared>): int
  {
    if s == [] then 0 else s[0].weight + SumWeight(s[1..])
  }

  function SumValue(s: seq<Prepared>): int
  {
    if s == [] then 0 else s[0].value + SumValue(s[1..])
  }

  function Ids(s: seq<Prepared>): seq<string>
  {
    seq(|s|, k requires 0 <= k < |s| => s[k].terminalId)
  }

  lemma {:induction false} SumsAppend(a: seq<Prepared>, b: seq<Prepared>)
    ensures SumWeight(a + b) == SumWeight(a) + SumWeight(b)
    ensures SumValue(a + b) == SumValue(a) + SumValue(b)
  {
    if a == [] {
      assert a + b == b;
    } else {
      assert (a + b)[1..] == a[1..] + b;
      SumsAppend(a[1..], b);
    }
  }

  lemma {:induction false} IdsAppend(a: seq<Prepared>, b: seq<Prepared>)
    ensures Ids(a + b) == Ids(a) + Ids(b)
  {
  }

  /** Taking one occurrence of `q[j]` out of `q` lowers the sums by its weight and value. */
  lemma SumsRemove(q: seq<Prepared>, j: nat) returns (q': seq<Prepared>)
    requires j < |q|
    ensures q' == q[..j] + q[j + 1..]
    ensures multiset(q') == multiset(q) - multiset{q[j]}
    ensures SumWeight(q) == SumWeight(q') + q[j].weight
    ensures SumValue(q) == SumValue(q') + q[j].value
  {
    q' := q[..j] + q[j + 1..];
    var a, b := q[..j], q[j + 1..];
    assert q == a + ([q[j]] + b);
    SumsAppend(a, [q[j]] + b);
    assert ([q[j]] + b)[1..] == b;
    SumsAppend(a, b);
  }

  /** A selection drawn from `p` that does not contain `p`'s last item is drawn from the rest of `p`. */
  lemma DrawnWithoutLast(q: seq<Prepared>, p: seq<Prepared>)
    requires p != [] && multiset(q) <= multiset(p)
    requires p[|p| - 1] !in multiset(q)
    ensures multiset(q) <= multiset(p[..|p| - 1])
  {
    assert p == p[..|p| - 1] + [p[|p| - 1]];
    assert multiset(p) == multiset(p[..|p| - 1]) + multiset{p[|p| - 1]};
  }

  /** Removing one occurrence of `p`'s last item from a selection drawn from `p` leaves one drawn from the rest. */
  lemma DrawnMinusLast(q: seq<Prepared>, q': seq<Prepared>, p: seq<Prepared>)
    requires p != [] && multiset(q) <= multiset(p)
    requires multiset(q') == multiset(q) - multiset{p[|p| - 1]}
    ensures multiset(q') <= multiset(p[..|p| - 1])
  {
    assert p == p[..|p| - 1] + [p[|p| - 1]];
    assert multiset(p) == multiset(p[..|p| - 1]) + multiset{p[|p| - 1]};
  }

  /** Every item of a selection drawn from `p` is an item of `p`. */
  lemma DrawnMember(q: seq<Prepared>, p: seq<Prepared>, k: nat)
    requires multiset(q) <= multiset(p) && k < |q|
    ensures q[k] in p
  {
    assert q[k] in multiset(q);
  }

  /** A selection drawn from items whose weights are at least one weighs nothing only if it is empty. */
  lemma {:induction false} SumWeightPositive(q: seq<Prepared>)
    requires Weighted(q)
    ensures SumWeight(q) >= |q|
  {
    if q != [] {
      SumWeightPositive(q[1..]);
    }
  }

  lemma DrawnIsWeighted(p: seq<Prepared>, q: seq<Prepared>)
    requires Weighted(p) && multiset(q) <= multiset(p)
    ensures Weighted(q)
  {
    forall k | 0 <= k < |q| ensures q[k].weight >= 1 {
      assert q[k] in multiset(q);
      assert q[k] in multiset(p);
    }
  }

  // ---------------------------------------------------------------------------
  // Greedy ordering: by density (value / weight) descending, ties by weight ascending
  // ---------------------------------------------------------------------------

  /** `a` sorts strictly before `b`: denser, or as dense and lighter (densities compared cross-multiplied). */
  predicate Before(a: Prepared, b: Prepared)
  {
    var da, db := a.value * b.weight, b.value * a.weight;
    da > db || (da == db && a.weight < b.weight)
  }

  /** No item sorts strictly before its predecessor. */
  predicate SortedByDensity(s: seq<Prepared>)
  {
    forall k :: 0 < k < |s| ==> !Before(s[k], s[k - 1])
  }

  /** Insert `x` before the first element it sorts strictly before (so equal elements keep their order). */
  function Insert(x: Prepared, t: seq<Prepared>): (r: seq<Prepared>)
    ensures |r| == |t| + 1
    ensures multiset(r) == multiset(t) + multiset{x}
    ensures r[0] == x || (t != [] && r[0] == t[0])
    ensures SortedByDensity(t) ==> SortedByDensity(r)
  {
    if t == [] then [x]
    else if Before(x, t[0]) then [x] + t
    else
      var rest := Insert(x, t[1..]);
      assert t == [t[0]] + t[1..];
      InsertBehind(x, t, rest);
      [t[0]] + rest
  }

  /** Sortedness of `Insert` when `x` goes behind the head of `t`. */
  lemma InsertBehind(x: Prepared, t: seq<Prepared>, rest: seq<Prepared>)
    requires t != [] && !Before(x, t[0]) && |rest| == |t|
    requires rest[0] == x || (|t| > 1 && rest[0] == t[1])
    requires SortedByDensity(t[1..]) ==> SortedByDensity(rest)
    ensures SortedByDensity(t) ==> SortedByDensity([t[0]] + rest)
  {
    if SortedByDensity(t) {
      assert SortedByDensity(t[1..]) by {
        forall k | 0 < k < |t[1..]| ensures !Before(t[1..][k], t[1..][k - 1]) {
          assert t[1..][k] == t[k + 1] && t[1..][k - 1] == t[k];
        }
      }
      var r := [t[0]] + rest;
      forall k | 0 < k < |r| ensures !Before(r[k], r[k - 1]) {
        if k > 1 {
          assert r[k] == rest[k - 1] && r[k - 1] == rest[k - 2];
        }
      }
    }
  }

  /** The stable sort the greedy path performs on the prepared items. */
  function SortByDensity(s: seq<Prepared>): (r: seq<Prepared>)
    ensures |r| == |s|
    ensures multiset(r) == multiset(s)
    ensures SortedByDensity(r)
  {
    if s == [] then []
    else
      assert s == s[..|s| - 1] + [s[|s| - 1]];
      Insert(s[|s| - 1], SortByDensity(s[..|s| - 1]))
  }

  // ---------------------------------------------------------------------------
  // Greedy fill
  // ---------------------------------------------------------------------------

  /**
   * The items the greedy fill takes, in scan order: each item is taken when
   * it still fits, and skipped (the scan goes on) when it does not.
   */
  function GreedyPicks(s: seq<Prepared>, capUnits: nat): (g: seq<Prepared>)
    ensures SumWeight(g) <= capUnits
    ensures multiset(g) <= multiset(s)
  {
    if s == [] then []
    else
      var init, x := s[..|s| - 1], s[|s| - 1];
      assert s == init + [x];
      var g' := GreedyPicks(init, capUnits);
      SumsAppend(g', [x]);
      if SumWeight(g') + x.weight <= capUnits then g' + [x] else g'
  }

  /** `GreedyPicks` on a non-empty scan, one step unfolded. */
  lemma GreedyUnfold(s: seq<Prepared>, capUnits: nat)
    requires s != []
    ensures var g', x := GreedyPicks(s[..|s| - 1], capUnits), s[|s| - 1];
      GreedyPicks(s, capUnits) == if SumWeight(g') + x.weight <= capUnits then g' + [x] else g'
  {
  }

  /** An item left out of the whole scan was left out of the scan without the last item, or is that item. */
  lemma LeftOutBefore(s: seq<Prepared>, g: seq<Prepared>, taken: bool, y: Prepared)
    requires s != []
    requires y in multiset(s) - multiset(if taken then g + [s[|s| - 1]] else g)
    requires taken || y != s[|s| - 1]
    ensures y in multiset(s[..|s| - 1]) - multiset(g)
  {
    var init, x := s[..|s| - 1], s[|s| - 1];
    assert s == init + [x];
    assert multiset(s) == multiset(init) + multiset{x};
    assert multiset(g + [x]) == multiset(g) + multiset{x};
  }

  /** The greedy selection is maximal: every item it leaves out would overflow the capacity. */
  lemma {:induction false} GreedyIsMaximal(s: seq<Prepared>, capUnits: nat, y: Prepared)
    requires Weighted(s)
    requires y in multiset(s) - multiset(GreedyPicks(s, capUnits))
    ensures SumWeight(GreedyPicks(s, capUnits)) + y.weight > capUnits
  {
    var init, x := s[..|s| - 1], s[|s| - 1];
    WeightedPrefix(s, |s| - 1);
    var g' := GreedyPicks(init, capUnits);
    GreedyUnfold(s, capUnits);
    var taken := SumWeight(g') + x.weight <= capUnits;
    if taken || y != x {
      LeftOutBefore(s, g', taken, y);
      GreedyIsMaximal(init, capUnits, y);
      SumsAppend(g', [x]);
    }
  }

  /** One step of the greedy scan: the `k`-th item is appended when it still fits. */
  lemma GreedyStep(s: seq<Prepared>, k: nat, capUnits: nat)
    requires k < |s|
    ensures var g, g1 := GreedyPicks(s[..k], capUnits), GreedyPicks(s[..k + 1], capUnits);
      if SumWeight(g) + s[k].weight <= capUnits then
        && Ids(g1) == Ids(g) + [s[k].terminalId]
        && SumWeight(g1) == SumWeight(g) + s[k].weight
        && SumValue(g1) == SumValue(g) + s[k].value
      else g1 == g
  {
    var t := s[..k + 1];
    assert t[..|t| - 1] == s[..k] && t[|t| - 1] == s[k];
    GreedyUnfold(t, capUnits);
    var g := GreedyPicks(s[..k], capUnits);
    if SumWeight(g) + s[k].weight <= capUnits {
      SumsAppend(g, [s[k]]);
      IdsAppend(g, [s[k]]);
    }
  }

  /** The greedy loop of `runKnapsack` over the sorted items. */
  method GreedySelect(s: seq<Prepared>, capUnits: nat) returns (selected: seq<string>, totalPriority: int)
    ensures selected == Ids(GreedyPicks(s, capUnits))
    ensures totalPriority == SumValue(GreedyPicks(s, capUnits))
  {
    selected := [];
    var used := 0;
    totalPriority := 0;
    for k := 0 to |s|
      invariant selected == Ids(GreedyPicks(s[..k], capUnits))
      invariant used == SumWeight(GreedyPicks(s[..k], capUnits))
      invariant totalPriority == SumValue(GreedyPicks(s[..k], capUnits))
    {
      var p := s[k];
      GreedyStep(s, k, capUnits);
      if used + p.weight <= capUnits {
        selected := selected + [p.terminalId];
        used := used + p.weight;
        totalPriority := totalPriority + p.value;
      }
    }
    assert s[..|s|] == s;
  }

  // ---------------------------------------------------------------------------
  // Exact DP
  // ---------------------------------------------------------------------------

  /** The DP takes the last item exactly when it fits and taking it is strictly better. */
  predicate Takes(p: seq<Prepared>, w: nat)
    requires p != []
  {
    var init, x := p[..|p| - 1], p[|p| - 1];
    x.weight <= w && MaxValue(init, w - x.weight) + x.value > MaxValue(init, w)
  }

  /** `dp[i][w]`: the recurrence of the DP table for the first `|p|` items and capacity `w`. */
  function MaxValue(p: seq<Prepared>, w: nat): int
  {
    if p == [] then 0
    else
      var init, x := p[..|p| - 1], p[|p| - 1];
      if x.weight <= w && MaxValue(init, w - x.weight) + x.value > MaxValue(init, w)
      then MaxValue(init, w - x.weight) + x.value
      else MaxValue(init, w)
  }

  /** The backtrack from `(|p|, w)`: the kept items, last item first (the order `selected` is pushed in). */
  function BacktrackPicks(p: seq<Prepared>, w: nat): seq<Prepared>
  {
    if p == [] then []
    else
      var init, x := p[..|p| - 1], p[|p| - 1];
      if Takes(p, w) then [x] + BacktrackPicks(init, w - x.weight) else BacktrackPicks(init, w)
  }

  /** The backtracked selection fits in `w`, is drawn from the items, and reaches `dp[n][w]`. */
  lemma {:induction false} BacktrackAchievesMax(p: seq<Prepared>, w: nat)
    ensures SumWeight(BacktrackPicks(p, w)) <= w
    ensures SumValue(BacktrackPicks(p, w)) == MaxValue(p, w)
    ensures multiset(BacktrackPicks(p, w)) <= multiset(p)
  {
    if p != [] {
      var init, x := p[..|p| - 1], p[|p| - 1];
      assert p == init + [x];
      if Takes(p, w) {
        BacktrackAchievesMax(init, w - x.weight);
        assert ([x] + BacktrackPicks(init, w - x.weight))[1..] == BacktrackPicks(init, w - x.weight);
      } else {
        BacktrackAchievesMax(init, w);
      }
    }
  }

  /** `dp[i][w]` is at least `dp[i - 1][w]`, and at least `dp[i - 1][w - wt] + val` when item `i` fits. */
  lemma MaxValueStep(p: seq<Prepared>, w: nat)
    requires p != []
    ensures MaxValue(p, w) >= MaxValue(p[..|p| - 1], w)
    ensures p[|p| - 1].weight <= w ==>
      MaxValue(p, w) >= MaxValue(p[..|p| - 1], w - p[|p| - 1].weight) + p[|p| - 1].value
  {
  }

  lemma WeightedPrefix(p: seq<Prepared>, i: nat)
    requires Weighted(p) && i <= |p|
    ensures Weighted(p[..i])
  {
    forall k | 0 <= k < i ensures p[..i][k].weight >= 1 { assert p[..i][k] == p[k]; }
  }

  /** Optimality: no selection drawn from the items that fits in `w` is worth more than `dp[n][w]`. */
  lemma {:induction false} MaxValueOptimal(p: seq<Prepared>, w: nat, q: seq<Prepared>)
    requires Weighted(p)
    requires multiset(q) <= multiset(p)
    requires SumWeight(q) <= w
    ensures SumValue(q) <= MaxValue(p, w)
    decreases |p|, 1
  {
    if p == [] {
      assert |multiset(q)| == 0;
    } else if p[|p| - 1] in multiset(q) {
      OptimalWithLast(p, w, q);
    } else {
      var init := p[..|p| - 1];
      WeightedPrefix(p, |p| - 1);
      MaxValueStep(p, w);
      DrawnWithoutLast(q, p);
      MaxValueOptimal(init, w, q);
    }
  }

  /** The case of `MaxValueOptimal` where the selection contains the last item. */
  lemma {:induction false} OptimalWithLast(p: seq<Prepared>, w: nat, q: seq<Prepared>)
    requires Weighted(p) && p != []
    requires multiset(q) <= multiset(p) && p[|p| - 1] in multiset(q)
    requires SumWeight(q) <= w
    ensures SumValue(q) <= MaxValue(p, w)
    decreases |p|, 0
  {
    var init, x := p[..|p| - 1], p[|p| - 1];
    WeightedPrefix(p, |p| - 1);
    var q' := DrawnLastRemoved(p, q);
    MaxValueOptimal(init, w - x.weight, q');
    MaxValueStep(p, w);
  }

  /** Taking the last item out of a selection that holds it leaves a selection from the other items. */
  lemma DrawnLastRemoved(p: seq<Prepared>, q: seq<Prepared>) returns (q': seq<Prepared>)
    requires Weighted(p) && p != []
    requires multiset(q) <= multiset(p) && p[|p| - 1] in multiset(q)
    ensures multiset(q') <= multiset(p[..|p| - 1])
    ensures SumWeight(q) == SumWeight(q') + p[|p| - 1].weight && SumWeight(q') >= 0
    ensures SumValue(q) == SumValue(q') + p[|p| - 1].value
  {
    var init, x := p[..|p| - 1], p[|p| - 1];
    WeightedPrefix(p, |p| - 1);
    var j :| 0 <= j < |q| && q[j] == x;
    q' := SumsRemove(q, j);
    DrawnMinusLast(q, q', p);
    DrawnIsWeighted(init, q');
    SumWeightPositive(q');
  }

  /** Each row of the DP table is nondecreasing in the capacity. */
  lemma MaxValueMonotone(p: seq<Prepared>, w: nat, w': nat)
    requires Weighted(p)
    requires w <= w'
    ensures MaxValue(p, w) <= MaxValue(p, w')
  {
    BacktrackAchievesMax(p, w);
    MaxValueOptimal(p, w', BacktrackPicks(p, w));
  }

  /** The inner loop of the DP fill: row `i` from row `i - 1`. */
  method FillRow(p: seq<Prepared>, W: nat, dp: array2<int>, keep: array2<bool>, i: nat)
    requires Weighted(p) && 1 <= i <= |p|
    requires dp.Length0 == keep.Length0 == |p| + 1 && dp.Length1 == keep.Length1 == W + 1
    requires forall r, c :: 0 <= r < i && 0 <= c <= W ==> dp[r, c] == MaxValue(p[..r], c)
    requires forall c :: 0 <= c <= W ==> !keep[i, c]
    modifies dp, keep
    ensures forall c :: 0 <= c <= W ==> dp[i, c] == MaxValue(p[..i], c) && keep[i, c] == Takes(p[..i], c)
    ensures forall r, c :: 0 <= r <= |p| && r != i && 0 <= c <= W ==> dp[r, c] == old(dp[r, c]) && keep[r, c] == old(keep[r, c])
  {
    var wt := p[i - 1].weight;
    var val := p[i - 1].value;
    assert p[..i][..i - 1] == p[..i - 1];
    assert p[..i][i - 1] == p[i - 1];
    for w := 0 to W + 1
      invariant forall c :: 0 <= c < w ==> dp[i, c] == MaxValue(p[..i], c) && keep[i, c] == Takes(p[..i], c)
      invariant forall c :: w <= c <= W ==> !keep[i, c]
      invariant forall r, c :: 0 <= r <= |p| && r != i && 0 <= c <= W ==> dp[r, c] == old(dp[r, c]) && keep[r, c] == old(keep[r, c])
    {
      if wt <= w {
        var take := dp[i - 1, w - wt] + val;
        var notake := dp[i - 1, w];
        if take > notake {
          dp[i, w] := take;
          keep[i, w] := true;
        } else {
          dp[i, w] := notake;
          keep[i, w] := false;
        }
      } else {
        dp[i, w] := dp[i - 1, w];
      }
    }
  }

  /** The backtrack loop: from `(n, W)` down to row 0, following `keep`. */
  method Backtrack(p: seq<Prepared>, W: nat, keep: array2<bool>) returns (selected: seq<string>, totalPriority: int)
    requires Weighted(p)
    requires keep.Length0 == |p| + 1 && keep.Length1 == W + 1
    requires forall i, c :: 1 <= i <= |p| && 0 <= c <= W ==> keep[i, c] == Takes(p[..i], c)
    ensures selected == Ids(BacktrackPicks(p, W))
    ensures totalPriority == MaxValue(p, W)
  {
    var n := |p|;
    var w := W;
    selected := [];
    totalPriority := 0;
    var i := n;
    assert p[..n] == p;
    while i >= 1
      invariant 0 <= i <= n && 0 <= w <= W
      invariant Ids(BacktrackPicks(p, W)) == selected + Ids(BacktrackPicks(p[..i], w))
      invariant totalPriority + MaxValue(p[..i], w) == MaxValue(p, W)
    {
      assert p[..i][..i - 1] == p[..i - 1];
      assert p[..i][i - 1] == p[i - 1];
      if keep[i, w] {
        IdsAppend([p[i - 1]], BacktrackPicks(p[..i - 1], w - p[i - 1].weight));
        selected := selected + [p[i - 1].terminalId];
        totalPriority := totalPriority + p[i - 1].value;
        w := w - p[i - 1].weight;
      }
      i := i - 1;
    }
  }

  /**
   * The DP path: allocates the `dp` / `keep` tables, fills them row by row
   * and backtracks from `(n, W)`.
   */
  method DpSelect(p: seq<Prepared>, W: nat) returns (selected: seq<string>, totalPriority: int)
    requires Weighted(p)
    ensures selected == Ids(BacktrackPicks(p, W))
    ensures totalPriority == MaxValue(p, W)
  {
    var n := |p|;
    var dp := new int[n + 1, W + 1]((i, w) => 0);
    var keep := new bool[n + 1, W + 1]((i, w) => false);
    for i := 1 to n + 1
      invariant forall r, c :: 0 <= r < i && 0 <= c <= W ==> dp[r, c] == MaxValue(p[..r], c)
      invariant forall r, c :: 1 <= r < i && 0 <= c <= W ==> keep[r, c] == Takes(p[..r], c)
      invariant forall r, c :: i <= r <= n && 0 <= c <= W ==> !keep[r, c]
    {
      FillRow(p, W, dp, keep, i);
    }
    selected, totalPriority := Backtrack(p, W, keep);
  }

  // ---------------------------------------------------------------------------
  // The whole engine
  // ---------------------------------------------------------------------------

  /** `items.filter(i => selected.includes(i.terminalId)).reduce((s, it) => s + it.power, 0)` */
  function SelectedPower(items: seq<Item>, selected: seq<string>): int
  {
    if items == [] then 0
    else
      SelectedPower(items[..|items| - 1], selected)
      + (if items[|items| - 1].terminalId in selected then items[|items| - 1].power else 0)
  }

  /** The items the chosen path selects, for a non-negative capacity. */
  function Selection(items: seq<Item>, capacity: nat, mode: Mode): seq<Prepared>
  {
    var p := Prepare(items);
    if UseGreedy(mode, |items|, capacity)
    then GreedyPicks(SortByDensity(p), capacity)
    else BacktrackPicks(p, capacity)
  }

  /** The result `runKnapsack` produces. */
  function Knapsack(items: seq<Item>, capacity: int, mode: Mode): (r: Result<KnapsackResult, KnapsackError>)
    ensures r.Failure? <==> !UseGreedy(mode, |items|, capacity) && (capacity <= -2 || capacity >= MaxArrayLength)
    ensures r.Failure? ==> r.error == RangeError
    ensures r.Success? ==> (r.value.modeUsed == Greedy <==> UseGreedy(mode, |items|, capacity))
  {
    var used := if UseGreedy(mode, |items|, capacity) then Greedy else DP;
    if used == DP && RowLengthInvalid(capacity) then Failure(RangeError)
    else if capacity < 0 then
      // greedy: nothing fits; DP with W = -1: empty rows, and keep[i][-1] is undefined
      Success(KnapsackResult([], 0, 0, used))
    else
      var picks := Selection(items, capacity, mode);
      Success(KnapsackResult(Ids(picks), SelectedPower(items, Ids(picks)), SumValue(picks), used))
  }

  /** `runKnapsack(items, capacity, { mode })` with `quantizeFactor = 1`. */
  method RunKnapsack(items: seq<Item>, capacity: int, mode: Mode) returns (r: Result<KnapsackResult, KnapsackError>)
    ensures r == Knapsack(items, capacity, mode)
  {
    var n := |items|;
    var prepared := Prepare(items);
    var capUnits := capacity;
    var useGreedy := mode == ForceGreedy || (mode == Auto && (n > MaxDpItems || capUnits * n > MaxDpCells));
    if !useGreedy && (capUnits + 1 < 0 || capUnits + 1 > MaxArrayLength) {
      return Failure(RangeError);
    }
    if capUnits < 0 {
      return Success(KnapsackResult([], 0, 0, if useGreedy then Greedy else DP));
    }
    var selected, totalPriority;
    if useGreedy {
      var sorted := SortByDensity(prepared);
      selected, totalPriority := GreedySelect(sorted, capUnits);
    } else {
      selected, totalPriority := DpSelect(prepared, capUnits);
      BacktrackAchievesMax(prepared, capUnits);
    }
    var totalPower := SelectedPower(items, selected);
    r := Success(KnapsackResult(selected, totalPower, totalPriority, if useGreedy then Greedy else DP));
  }

  // ---------------------------------------------------------------------------
  // Properties of the engine
  // ---------------------------------------------------------------------------

  /** No two candidates share a terminal id (terminal ids are primary keys). */
  ghost predicate DistinctIds(items: seq<Item>)
  {
    forall i, j :: 0 <= i < j < |items| ==> items[i].terminalId != items[j].terminalId
  }

  /** `pp[k]` stands for `items[k]`: the same id, and a weight no smaller than its power and at least 1. */
  ghost predicate Covers(pp: seq<Prepared>, items: seq<Item>)
  {
    && |pp| == |items|
    && forall k :: 0 <= k < |items| ==>
         pp[k].terminalId == items[k].terminalId && pp[k].weight >= items[k].power && pp[k].weight >= 1
  }

  lemma CoversPrefix(pp: seq<Prepared>, items: seq<Item>, i: nat)
    requires Covers(pp, items) && i <= |items|
    ensures Covers(pp[..i], items[..i])
  {
  }

  /** The filter of `SelectedPower` only depends on which of the items' ids are selected. */
  lemma {:induction false} SelectedPowerCongruent(items: seq<Item>, s1: seq<string>, s2: seq<string>)
    requires forall k :: 0 <= k < |items| ==> (items[k].terminalId in s1 <==> items[k].terminalId in s2)
    ensures SelectedPower(items, s1) == SelectedPower(items, s2)
  {
    if items != [] {
      var init := items[..|items| - 1];
      assert forall k :: 0 <= k < |init| ==> init[k] == items[k];
      SelectedPowerCongruent(init, s1, s2);
    }
  }

  lemma {:induction false} SelectedPowerNone(items: seq<Item>, s: seq<string>)
    requires forall k :: 0 <= k < |items| ==> items[k].terminalId !in s
    ensures SelectedPower(items, s) == 0
  {
    if items != [] {
      var init := items[..|items| - 1];
      assert forall k :: 0 <= k < |init| ==> init[k] == items[k];
      SelectedPowerNone(init, s);
    }
  }

  /** Removing `q[j]` keeps every other id's membership. */
  lemma IdsRemove(q: seq<Prepared>, j: nat)
    requires j < |q|
    ensures q[j].terminalId in Ids(q)
    ensures forall id :: id != q[j].terminalId ==> (id in Ids(q) <==> id in Ids(q[..j] + q[j + 1..]))
  {
    assert q == q[..j] + [q[j]] + q[j + 1..];
    IdsAppend(q[..j] + [q[j]], q[j + 1..]);
    IdsAppend(q[..j], [q[j]]);
    IdsAppend(q[..j], q[j + 1..]);
    assert Ids(q)[j] == q[j].terminalId;
  }

  /** Taking out the selected copy of the last item removes exactly the last item's power. */
  lemma SelectedPowerTakeLast(items: seq<Item>, q: seq<Prepared>, j: nat)
    requires DistinctIds(items) && items != [] && j < |q|
    requires q[j].terminalId == items[|items| - 1].terminalId
    ensures SelectedPower(items, Ids(q))
         == SelectedPower(items[..|items| - 1], Ids(q[..j] + q[j + 1..])) + items[|items| - 1].power
  {
    var init := items[..|items| - 1];
    assert forall k :: 0 <= k < |init| ==> init[k] == items[k];
    IdsRemove(q, j);
    SelectedPowerCongruent(init, Ids(q), Ids(q[..j] + q[j + 1..]));
  }

  lemma DrawnNotLast(items: seq<Item>, pp: seq<Prepared>, q: seq<Prepared>, k: nat)
    requires DistinctIds(items) && Covers(pp, items) && items != [] && k < |q|
    requires multiset(q) <= multiset(pp[..|pp| - 1])
    ensures q[k].terminalId != items[|items| - 1].terminalId
  {
    DrawnMember(q, pp[..|pp| - 1], k);
  }

  /** A selection drawn from the other items does not select the last item. */
  lemma SelectedPowerSkipLast(items: seq<Item>, pp: seq<Prepared>, q: seq<Prepared>)
    requires DistinctIds(items) && Covers(pp, items) && items != []
    requires multiset(q) <= multiset(pp[..|pp| - 1])
    ensures SelectedPower(items, Ids(q)) == SelectedPower(items[..|items| - 1], Ids(q))
  {
    var n := |items|;
    forall k | 0 <= k < |q| ensures q[k].terminalId != items[n - 1].terminalId {
      DrawnNotLast(items, pp, q, k);
    }
    assert items[n - 1].terminalId !in Ids(q);
  }

  lemma DistinctPrefix(items: seq<Item>)
    requires DistinctIds(items) && items != []
    ensures DistinctIds(items[..|items| - 1])
  {
    var init := items[..|items| - 1];
    forall i, j | 0 <= i < j < |init| ensures init[i].terminalId != init[j].terminalId {
      assert init[i] == items[i] && init[j] == items[j];
    }
  }

  /**
   * The watt bound: with distinct ids, the reported power of a selection
   * drawn from the prepared items is at most the selection's weight.
   */
  lemma {:induction false} SelectedPowerBound(items: seq<Item>, pp: seq<Prepared>, q: seq<Prepared>)
    requires DistinctIds(items) && Covers(pp, items)
    requires multiset(q) <= multiset(pp)
    ensures SelectedPower(items, Ids(q)) <= SumWeight(q)
    decreases |items|, 1
  {
    if items == [] {
      assert |multiset(q)| == 0;
    } else if pp[|items| - 1] in multiset(q) {
      BoundWithLast(items, pp, q);
    } else {
      BoundWithoutLast(items, pp, q);
    }
  }

  /** The case of `SelectedPowerBound` where the selection contains the last item. */
  lemma {:induction false} BoundWithLast(items: seq<Item>, pp: seq<Prepared>, q: seq<Prepared>)
    requires DistinctIds(items) && Covers(pp, items) && items != []
    requires multiset(q) <= multiset(pp) && pp[|items| - 1] in multiset(q)
    ensures SelectedPower(items, Ids(q)) <= SumWeight(q)
    decreases |items|, 0
  {
    var n := |items|;
    var y := pp[n - 1];
    CoversPrefix(pp, items, n - 1);
    DistinctPrefix(items);
    var j :| 0 <= j < |q| && q[j] == y;
    var q' := SumsRemove(q, j);
    DrawnMinusLast(q, q', pp);
    SelectedPowerBound(items[..n - 1], pp[..n - 1], q');
    SelectedPowerTakeLast(items, q, j);
  }

  /** The case of `SelectedPowerBound` where the selection leaves out the last item. */
  lemma {:induction false} BoundWithoutLast(items: seq<Item>, pp: seq<Prepared>, q: seq<Prepared>)
    requires DistinctIds(items) && Covers(pp, items) && items != []
    requires multiset(q) <= multiset(pp) && pp[|items| - 1] !in multiset(q)
    ensures SelectedPower(items, Ids(q)) <= SumWeight(q)
    decreases |items|, 0
  {
    var n := |items|;
    CoversPrefix(pp, items, n - 1);
    DistinctPrefix(items);
    DrawnWithoutLast(q, pp);
    SelectedPowerBound(items[..n - 1], pp[..n - 1], q);
    SelectedPowerSkipLast(items, pp, q);
  }

  /** The chosen path's selection fits in the capacity and is drawn from the prepared items. */
  lemma SelectionFits(items: seq<Item>, capacity: nat, mode: Mode)
    ensures SumWeight(Selection(items, capacity, mode)) <= capacity
    ensures multiset(Selection(items, capacity, mode)) <= multiset(Prepare(items))
  {
    if !UseGreedy(mode, |items|, capacity) {
      BacktrackAchievesMax(Prepare(items), capacity);
    }
  }

  /**
   * Capacity and provenance: for a non-negative capacity the engine succeeds
   * unless the DP table row would be too long for an array; then the selected weight is within the capacity, every selected id is an input
   * id, `totalPriority` is the selected items' value, and the greedy path runs
   * exactly when the mode heuristic says so.
   */
  lemma KnapsackRespectsCapacity(items: seq<Item>, capacity: nat, mode: Mode)
    ensures Knapsack(items, capacity, mode).Success? <==> UseGreedy(mode, |items|, capacity) || capacity < MaxArrayLength
    ensures Knapsack(items, capacity, mode).Success? ==>
      var r, s := Knapsack(items, capacity, mode).value, Selection(items, capacity, mode);
      && SumWeight(s) <= capacity
      && r.selectedIds == Ids(s)
      && r.totalPriority == SumValue(s)
      && r.totalPower == SelectedPower(items, r.selectedIds)
      && (r.modeUsed == Greedy <==> UseGreedy(mode, |items|, capacity))
      && forall k :: 0 <= k < |r.selectedIds| ==>
           exists k' :: 0 <= k' < |items| && items[k'].terminalId == r.selectedIds[k]
  {
    var s := Selection(items, capacity, mode);
    SelectionFits(items, capacity, mode);
    if Knapsack(items, capacity, mode).Success? {
      var used := if UseGreedy(mode, |items|, capacity) then Greedy else DP;
      assert Knapsack(items, capacity, mode) == Success(KnapsackResult(Ids(s), SelectedPower(items, Ids(s)), SumValue(s), used));
      SelectionFromItems(items, capacity, mode);
    }
  }

  /** Every id the chosen path selects is an input id. */
  lemma SelectionFromItems(items: seq<Item>, capacity: nat, mode: Mode)
    ensures var s := Selection(items, capacity, mode);
      forall k :: 0 <= k < |Ids(s)| ==> exists k' :: 0 <= k' < |items| && items[k'].terminalId == Ids(s)[k]
  {
    var s, p := Selection(items, capacity, mode), Prepare(items);
    SelectionFits(items, capacity, mode);
    forall k | 0 <= k < |s|
      ensures exists k' :: 0 <= k' < |items| && items[k'].terminalId == s[k].terminalId
    {
      DrawnMember(s, p, k);
      var k' :| 0 <= k' < |p| && p[k'] == s[k];
      assert items[k'].terminalId == s[k].terminalId;
    }
  }

  /** With distinct terminal ids, the reported (unquantised) power never exceeds the capacity. */
  lemma KnapsackPowerWithinCapacity(items: seq<Item>, capacity: nat, mode: Mode)
    requires DistinctIds(items)
    ensures Knapsack(items, capacity, mode).Success? ==> Knapsack(items, capacity, mode).value.totalPower <= capacity
  {
    var s := Selection(items, capacity, mode);
    SelectionFits(items, capacity, mode);
    SelectedPowerBound(items, Prepare(items), s);
  }

  /** When the DP path runs and its table fits in an array, no selection drawn from the items that fits is worth more. */
  lemma KnapsackDpOptimal(items: seq<Item>, capacity: nat, mode: Mode, q: seq<Prepared>)
    requires !UseGreedy(mode, |items|, capacity)
    requires multiset(q) <= multiset(Prepare(items))
    requires SumWeight(q) <= capacity
    ensures Knapsack(items, capacity, mode).Success? <==> capacity < MaxArrayLength
    ensures Knapsack(items, capacity, mode).Success? ==>
      && Knapsack(items, capacity, mode).value.totalPriority == MaxValue(Prepare(items), capacity)
      && SumValue(q) <= Knapsack(items, capacity, mode).value.totalPriority
  {
    BacktrackAchievesMax(Prepare(items), capacity);
    MaxValueOptimal(Prepare(items), capacity, q);
  }

  /** The greedy fill is never worth more than the exact DP, whenever the DP succeeds on the same input. */
  lemma KnapsackGreedyBelowDp(items: seq<Item>, capacity: nat)
    ensures Knapsack(items, capacity, ForceGreedy).Success?
    ensures Knapsack(items, capacity, ForceDP).Success? ==>
      Knapsack(items, capacity, ForceGreedy).value.totalPriority
      <= Knapsack(items, capacity, ForceDP).value.totalPriority
  {
    var p := Prepare(items);
    SelectionFits(items, capacity, ForceGreedy);
    BacktrackAchievesMax(p, capacity);
    MaxValueOptimal(p, capacity, Selection(items, capacity, ForceGreedy));
  }

  /** Empty input: an empty selection with zero totals, unless the DP table row is too long for an array. */
  lemma KnapsackEmptyInput(capacity: nat, mode: Mode)
    ensures Knapsack([], capacity, mode).Success? <==> mode == ForceGreedy || capacity < MaxArrayLength
    ensures Knapsack([], capacity, mode).Success? ==>
      var r := Knapsack([], capacity, mode).value;
      r.selectedIds == [] && r.totalPower == 0 && r.totalPriority == 0
      && (r.modeUsed == Greedy <==> mode == ForceGreedy)
  {
  }

  /** Zero capacity: every weight is at least one, so nothing is selected on either path. */
  lemma KnapsackZeroCapacity(items: seq<Item>, mode: Mode)
    ensures Knapsack(items, 0, mode).Success?
    ensures var r := Knapsack(items, 0, mode).value;
      r.selectedIds == [] && r.totalPower == 0 && r.totalPriority == 0
  {
    var s := Selection(items, 0, mode);
    SelectionFits(items, 0, mode);
    DrawnIsWeighted(Prepare(items), s);
    SumWeightPositive(s);
    SelectedPowerNone(items, []);
  }

  /**
   * Negative capacity: the DP path fails to allocate its table when the row
   * length `capacity + 1` is negative; every other case selects nothing.
   */
  lemma KnapsackNegativeCapacity(items: seq<Item>, capacity: int, mode: Mode)
    requires capacity < 0
    ensures Knapsack(items, capacity, mode).Failure?
        <==> !UseGreedy(mode, |items|, capacity) && capacity <= -2
    ensures Knapsack(items, capacity, mode).Success? ==>
      Knapsack(items, capacity, mode).value.selectedIds == []
      && Knapsack(items, capacity, mode).value.totalPower == 0
  {
  }

  /**
   * In AUTO mode a non-empty batch never fails for a non-negative capacity:
   * a capacity too large for a table row pushes `capUnits * n` over the cell
   * bound, so the greedy path runs instead.
   */
  lemma AutoBatchSucceeds(items: seq<Item>, capacity: int)
    requires items != [] && capacity >= 0
    ensures Knapsack(items, capacity, Auto).Success?
  {
    if capacity >= MaxArrayLength {
      assert capacity * |items| >= capacity;
    }
  }

  /**
   * Values: every value is at least 1, lower priority numbers get strictly
   * higher values, and with non-negative priorities an item of priority 0
   * gets `maxPriority + 1`, the highest value of its batch.
   */
  lemma PriorityValues(items: seq<Item>, i: nat, j: nat)
    requires i < |items| && j < |items|
    ensures Prepare(items)[i].value >= 1
    ensures items[i].priority < items[j].priority ==> Prepare(items)[i].value > Prepare(items)[j].value
    ensures items[i].priority == 0 ==> Prepare(items)[i].value == MaxPriority(items) + 1
    ensures (forall k :: 0 <= k < |items| ==> items[k].priority >= 0) && items[i].priority == 0 ==>
      Prepare(items)[j].value <= Prepare(items)[i].value
  {
  }

  /**
   * A worked example: capacity 1000 W, A (800 W, priority 1), B (500 W,
   * priority 2), C (400 W, priority 3). The values are 3, 2 and 1, so {A}
   * and {B, C} both reach the optimum 3; an item is kept only when taking it
   * is strictly better, so the DP keeps {A}.
   */
  lemma ExampleAllocation()
    ensures Knapsack([Item("A", 800, 1), Item("B", 500, 2), Item("C", 400, 3)], 1000, Auto)
         == Success(KnapsackResult(["A"], 800, 3, DP))
  {
    var items := [Item("A", 800, 1), Item("B", 500, 2), Item("C", 400, 3)];
    assert items[..2][..1] == items[..1] && items[..1][..0] == [];
    assert MaxPriority(items) == 3;
    var a, b, c := Prepared("A", 800, 1, 3, 800), Prepared("B", 500, 2, 2, 500), Prepared("C", 400, 3, 1, 400);
    var p := Prepare(items);
    assert p == [a, b, c];
    assert p[..2] == [a, b] && [a, b][..1] == [a] && [a][..0] == [];
    assert MaxValue([a], 100) == 0 && MaxValue([a], 500) == 0 && MaxValue([a], 600) == 0;
    assert MaxValue([a], 1000) == 3;
    assert MaxValue([a, b], 600) == 2 && MaxValue([a, b], 1000) == 3;
    assert !Takes(p, 1000) && !Takes([a, b], 1000) && Takes([a], 1000);
    assert BacktrackPicks([a], 1000) == [a];
    assert BacktrackPicks(p, 1000) == [a];
    assert Ids([a]) == ["A"];
    assert SelectedPower(items[..1], ["A"]) == 800;
    assert SelectedPower(items[..2], ["A"]) == 800;
    assert SumValue([a]) == 3;
  }
}
