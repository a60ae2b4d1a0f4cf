/** Exactly how many runs pushes under a constant threshold can make. */
module RunCounts {
  import opened Rows
  import opened Packing
  import opened Cascade

  /** The runs that a sort of `rows` spills, the last buffer included. */
  function RunsOf(rows: seq<Row>, limit: nat): seq<seq<Row>> {
    PushAll(rows, limit).Spilled().runs
  }

  /** Every row weighs something, as it holds at least its inline size, and none
      more than `heaviest`. */
  ghost predicate Within(rows: seq<Row>, heaviest: nat) {
    forall row | row in rows :: 1 <= row.retained <= heaviest
  }

  /** The heaviest row that matters, and the lightest run that it can end. */
  function Top(limit: nat, heaviest: nat): nat {
    Min(heaviest, limit)
  }

  function Low(limit: nat, heaviest: nat): nat {
    limit - Top(limit, heaviest) + 1
  }

  /** The least total weight that can make `n` runs under the threshold `limit`
      when no row weighs more than `heaviest`. */
  function LeastTotal(n: nat, limit: nat, heaviest: nat): nat {
    var top, low := Top(limit, heaviest), Low(limit, heaviest);
    if n < 2 then n
    else if low >= top then (n - 1) * low + top
    else (n / 2) * (limit + 1) + (if n % 2 == 0 then 0 else low)
  }

  // ----- arithmetic of the least total -----

  lemma LeastOfFew(n: nat, limit: nat, heaviest: nat)
    requires n < 2
    ensures LeastTotal(n, limit, heaviest) == n
  {
  }

  lemma LeastOfTwo(limit: nat, heaviest: nat)
    ensures LeastTotal(2, limit, heaviest) == limit + 1
  {
  }

  lemma LeastAlternating(n: nat, limit: nat, heaviest: nat)
    requires n >= 2 && Low(limit, heaviest) < Top(limit, heaviest)
    ensures var top, low := Top(limit, heaviest), Low(limit, heaviest);
      LeastTotal(n, limit, heaviest) == (n / 2) * (low + top) + (if n % 2 == 0 then 0 else low)
  {
    assert Low(limit, heaviest) + Top(limit, heaviest) == limit + 1;
  }

  lemma LeastPlusRun(n: nat, limit: nat, heaviest: nat)
    requires n >= 3 && Low(limit, heaviest) >= Top(limit, heaviest)
    ensures LeastTotal(n, limit, heaviest) == Low(limit, heaviest) + LeastTotal(n - 1, limit, heaviest)
  {
    var low := Low(limit, heaviest);
    assert (n - 1) * low == (n - 2) * low + low;
  }

  lemma LeastPlusPair(n: nat, limit: nat, heaviest: nat)
    requires n >= 4 && Low(limit, heaviest) < Top(limit, heaviest)
    ensures LeastTotal(n, limit, heaviest) == limit + 1 + LeastTotal(n - 2, limit, heaviest)
  {
    assert n / 2 == (n - 2) / 2 + 1 && n % 2 == (n - 2) % 2;
    assert (n / 2) * (limit + 1) == ((n - 2) / 2) * (limit + 1) + (limit + 1);
  }

  lemma LeastOfThree(limit: nat, heaviest: nat)
    ensures LeastTotal(3, limit, heaviest) == limit + 1 + Low(limit, heaviest)
  {
    assert 3 / 2 == 1 && 3 % 2 == 1;
  }

  lemma {:induction false} LeastGrows(n: nat, k: nat, limit: nat, heaviest: nat)
    requires limit >= 1 && heaviest >= 1 && k <= n
    ensures LeastTotal(k, limit, heaviest) <= LeastTotal(n, limit, heaviest)
    decreases n
  {
    if k < n {
      LeastGrows(n - 1, k, limit, heaviest);
      LeastGrowsByOne(n - 1, limit, heaviest);
    }
  }

  lemma LeastGrowsByOne(n: nat, limit: nat, heaviest: nat)
    requires limit >= 1 && heaviest >= 1
    ensures LeastTotal(n, limit, heaviest) <= LeastTotal(n + 1, limit, heaviest)
  {
    var low := Low(limit, heaviest);
    if n >= 2 {
      if low >= Top(limit, heaviest) {
        LeastPlusRun(n + 1, limit, heaviest);
      } else if n % 2 == 1 {
        assert (n + 1) / 2 == n / 2 + 1 && (n + 1) % 2 == 0;
        assert ((n + 1) / 2) * (limit + 1) == (n / 2) * (limit + 1) + (limit + 1);
      } else {
        assert (n + 1) / 2 == n / 2 && (n + 1) % 2 == 1 && n % 2 == 0;
      }
    } else {
      LeastOfTwo(limit, heaviest);
    }
  }

  // ----- no rows make more runs -----

  /** Every run but the last weighs at least `low`, and any two neighbours more
      than the threshold. */
  ghost predicate Spaced(runs: seq<seq<Row>>, limit: nat, low: nat) {
    && (forall i | 0 <= i < |runs| :: Weight(runs[i]) >= 1)
    && (forall i | 0 <= i < |runs| - 1 :: Weight(runs[i]) >= low && Weight(runs[i]) + Weight(runs[i + 1]) > limit)
  }

  lemma SpacedSnoc(runs: seq<seq<Row>>, batch: seq<Row>, limit: nat, low: nat)
    requires Spaced(runs, limit, low) && Weight(batch) >= 1
    requires runs != [] ==> Weight(runs[|runs| - 1]) >= low && Weight(runs[|runs| - 1]) + Weight(batch) > limit
    ensures Spaced(runs + [batch], limit, low)
  {
    hide Weight;
  }

  /** The runs with the buffer as the last one are spaced, and an empty buffer
      follows a run that filled the threshold. */
  ghost predicate Tight(ledger: Ledger, limit: nat, low: nat) {
    && Weight(ledger.buffered) < limit
    && Spaced(ledger.Spilled().runs, limit, low)
    && (ledger.buffered == [] && ledger.runs != [] ==> Weight(ledger.runs[|ledger.runs| - 1]) >= limit)
  }

  /** Taking a row that fits beside the buffer. */
  lemma TakingIsTight(ledger: Ledger, row: Row, limit: nat, low: nat)
    requires limit >= 1 && low <= limit && row.retained >= 1
    requires Spaced(ledger.runs, limit, low)
    requires ledger.runs != [] ==>
      var last := Weight(ledger.runs[|ledger.runs| - 1]);
      last >= low && last + Weight(ledger.buffered) + row.retained > limit
    ensures var grown := Ledger(ledger.runs, ledger.buffered + [row]);
      Tight(if Weight(grown.buffered) >= limit then grown.Spilled() else grown, limit, low)
  {
    WeightSnoc(ledger.buffered, row);
    SpacedSnoc(ledger.runs, ledger.buffered + [row], limit, low);
  }

  lemma SpacedInit(runs: seq<seq<Row>>, batch: seq<Row>, limit: nat, low: nat)
    requires Spaced(runs + [batch], limit, low)
    ensures Spaced(runs, limit, low)
    ensures runs != [] ==> Weight(runs[|runs| - 1]) >= low && Weight(runs[|runs| - 1]) + Weight(batch) > limit
  {
    var all := runs + [batch];
    forall i | 0 <= i < |runs| ensures all[i] == runs[i] {}
    assert all[|runs|] == batch;
  }

  lemma PushIsTight(ledger: Ledger, row: Row, limit: nat, heaviest: nat)
    requires limit >= 1 && 1 <= row.retained <= heaviest
    requires Tight(ledger, limit, Low(limit, heaviest))
    ensures Tight(ledger.Push(row, limit, limit), limit, Low(limit, heaviest))
  {
    var low := Low(limit, heaviest);
    if ledger.buffered != [] {
      SpacedInit(ledger.runs, ledger.buffered, limit, low);
    }
    TakingIsTight(ledger.MakeRoom(row, limit), row, limit, low);
  }

  lemma {:induction false} PushesAreTight(rows: seq<Row>, limit: nat, heaviest: nat)
    requires limit >= 1 && Within(rows, heaviest)
    ensures Tight(PushAll(rows, limit), limit, Low(limit, heaviest))
  {
    if rows != [] {
      var last := |rows| - 1;
      PushesAreTight(rows[..last], limit, heaviest);
      assert rows[last] in rows;
      PushIsTight(PushAll(rows[..last], limit), rows[last], limit, heaviest);
    }
  }

  lemma RunWeightCons(runs: seq<seq<Row>>)
    requires runs != []
    ensures RunWeight(runs) == Weight(runs[0]) + RunWeight(runs[1..])
  {
    WeightConcat(runs[0], Flatten(runs[1..]));
  }

  lemma SpacedTail(runs: seq<seq<Row>>, limit: nat, low: nat)
    requires Spaced(runs, limit, low) && runs != []
    ensures Spaced(runs[1..], limit, low)
  {
  }

  /** Spaced runs weigh at least the least total. */
  lemma {:induction false} SpacedRunsWeigh(runs: seq<seq<Row>>, limit: nat, heaviest: nat)
    requires Spaced(runs, limit, Low(limit, heaviest))
    ensures LeastTotal(|runs|, limit, heaviest) <= RunWeight(runs)
    decreases |runs|
  {
    var n, low := |runs|, Low(limit, heaviest);
    if n >= 1 {
      RunWeightCons(runs);
      SpacedTail(runs, limit, low);
    }
    if n >= 2 {
      RunWeightCons(runs[1..]);
      SpacedTail(runs[1..], limit, low);
      assert runs[1..][1..] == runs[2..];
    }
    if n == 2 {
      LeastOfTwo(limit, heaviest);
    } else if n == 3 {
      LeastOfThree(limit, heaviest);
      RunWeightCons(runs[2..]);
      assert runs[2..][0] == runs[2] && Weight(runs[1]) + Weight(runs[1 + 1]) > limit;
    } else if n > 3 && low >= Top(limit, heaviest) {
      LeastPlusRun(n, limit, heaviest);
      SpacedRunsWeigh(runs[1..], limit, heaviest);
    } else if n > 3 {
      LeastPlusPair(n, limit, heaviest);
      SpacedRunsWeigh(runs[2..], limit, heaviest);
      assert Weight(runs[0]) + Weight(runs[0 + 1]) > limit;
    }
  }

  /** No rows make `n` runs with less than the least total. */
  lemma RunsCostLeast(rows: seq<Row>, limit: nat, heaviest: nat)
    requires limit >= 1 && Within(rows, heaviest)
    ensures LeastTotal(|RunsOf(rows, limit)|, limit, heaviest) <= Weight(rows)
  {
    PushesAreTight(rows, limit, heaviest);
    SpacedRunsWeigh(RunsOf(rows, limit), limit, heaviest);
    AllAccepted(rows, limit);
  }

  lemma {:induction false} AllAccepted(rows: seq<Row>, limit: nat)
    ensures PushAll(rows, limit).Accepted() == rows && Flatten(RunsOf(rows, limit)) == rows
  {
    if rows != [] {
      var last := |rows| - 1;
      AllAccepted(rows[..last], limit);
      PushAccepts(PushAll(rows[..last], limit), rows[last], limit, limit);
      assert rows == rows[..last] + [rows[last]];
    }
    SpilledAccepts(PushAll(rows, limit));
    assert PushAll(rows, limit).Spilled().Accepted() == Flatten(RunsOf(rows, limit));
  }

  // ----- some rows make that many -----

  function Weighing(value: Value, ordinal: nat, weight: nat): Row {
    Row(0, value, ordinal, weight)
  }

  lemma PushedLast(rows: seq<Row>, row: Row, limit: nat)
    ensures PushAll(rows + [row], limit) == PushAll(rows, limit).Push(row, limit, limit)
  {
    assert (rows + [row])[..|rows|] == rows;
  }

  /** Rows that overflow the threshold in pairs make a run each. */
  lemma {:induction false} OwnRuns(rows: seq<Row>, limit: nat)
    requires forall i | 0 <= i < |rows| - 1 :: rows[i].retained + rows[i + 1].retained > limit
    ensures |RunsOf(rows, limit)| == |rows|
    ensures rows != [] ==> PushAll(rows, limit).buffered in [[], [rows[|rows| - 1]]]
  {
    if rows != [] {
      var init, row := rows[..|rows| - 1], rows[|rows| - 1];
      OwnRuns(init, limit);
      assert rows == init + [row];
      if init != [] {
        var prior := init[|init| - 1];
        assert rows[|init| - 1] == prior && rows[|init| - 1 + 1] == row;
        WeightSingle(prior);
      }
      WeightSingle(row);
      assert [] + [row] == [row];
    }
  }

  /** Light and heavy rows in turn, each pair just past the threshold. */
  function Alternating(n: nat, low: nat, top: nat, value: Value): (rows: seq<Row>)
    ensures |rows| == n
    ensures forall i | 0 <= i < n :: rows[i].retained == if i % 2 == 0 then low else top
  {
    if n == 0 then []
    else Alternating(n - 1, low, top, value) + [Weighing(value, n - 1, if n % 2 == 1 then low else top)]
  }

  lemma {:induction false} AlternatingWeight(n: nat, low: nat, top: nat, value: Value)
    ensures Weight(Alternating(n, low, top, value)) == (n / 2) * (low + top) + (if n % 2 == 0 then 0 else low)
  {
    if n > 0 {
      AlternatingWeight(n - 1, low, top, value);
      WeightSnoc(Alternating(n - 1, low, top, value), Weighing(value, n - 1, if n % 2 == 1 then low else top));
      OneRowMore(n, low, top);
    }
  }

  lemma OneRowMore(n: nat, low: nat, top: nat)
    requires n > 0
    ensures (n / 2) * (low + top) + (if n % 2 == 0 then 0 else low) ==
      ((n - 1) / 2) * (low + top) + (if n % 2 == 1 then low else low + top)
  {
    if n % 2 == 1 {
      assert n / 2 == (n - 1) / 2 && (n - 1) % 2 == 0;
    } else {
      assert n / 2 == (n - 1) / 2 + 1 && (n - 1) % 2 == 1;
      assert (n / 2) * (low + top) == ((n - 1) / 2) * (low + top) + (low + top);
    }
  }

  /** `u` rows of weight 1. */
  function Units(u: nat, value: Value): (rows: seq<Row>)
    ensures |rows| == u && forall row | row in rows :: row.retained == 1
  {
    if u == 0 then [] else Units(u - 1, value) + [Weighing(value, 0, 1)]
  }

  /** `rows` more rows filled a buffer of `ledger` to `weight` bytes without
      another run. */
  ghost predicate Filled(ledger: Ledger, before: Ledger, weight: nat, limit: nat) {
    && |ledger.Spilled().runs| == |before.Spilled().runs|
    && (if ledger.buffered == [] then weight == limit else Weight(ledger.buffered) == weight)
  }

  lemma UnitFits(ledger: Ledger, before: Ledger, unit: Row, weight: nat, limit: nat)
    requires Filled(ledger, before, weight, limit) && weight < limit && unit.retained == 1
    ensures Filled(ledger.Push(unit, limit, limit), before, weight + 1, limit)
  {
    WeightSnoc(ledger.buffered, unit);
  }

  /** Unit rows fill a buffer up to the threshold without another run. */
  lemma {:induction false} UnitsFill(rows: seq<Row>, u: nat, limit: nat, value: Value)
    requires PushAll(rows, limit).buffered != [] && Weight(PushAll(rows, limit).buffered) + u <= limit
    ensures var before := PushAll(rows, limit);
      Filled(PushAll(rows + Units(u, value), limit), before, Weight(before.buffered) + u, limit)
    ensures Weight(rows + Units(u, value)) == Weight(rows) + u
  {
    hide PushAll, Weight;
    if u == 0 {
      assert rows + Units(0, value) == rows;
    } else {
      var fewer, unit, before := rows + Units(u - 1, value), Weighing(value, 0, 1), PushAll(rows, limit);
      UnitsFill(rows, u - 1, limit, value);
      UnitFits(PushAll(fewer, limit), before, unit, Weight(before.buffered) + (u - 1), limit);
      OneUnitMore(rows, u, value);
      PushedLast(fewer, unit, limit);
      WeightSnoc(fewer, unit);
    }
  }

  lemma OneUnitMore(rows: seq<Row>, u: nat, value: Value)
    requires u > 0
    ensures rows + Units(u, value) == rows + Units(u - 1, value) + [Weighing(value, 0, 1)]
  {
  }

  /** Runs of weight `low`, each begun by a row of weight `top`. */
  function Blocks(k: nat, low: nat, top: nat, value: Value): seq<Row>
    requires top <= low
  {
    if k == 0 then [] else Blocks(k - 1, low, top, value) + [Weighing(value, 0, top)] + Units(low - top, value)
  }

  /** The heaviest row ends the run of the rows before it. */
  ghost predicate Ready(ledger: Ledger, limit: nat, top: nat) {
    ledger.buffered == [] || Weight(ledger.buffered) + top > limit
  }

  lemma TopStartsRun(rows: seq<Row>, limit: nat, top: nat, value: Value)
    requires 1 <= top <= limit && Ready(PushAll(rows, limit), limit, top)
    ensures var started := rows + [Weighing(value, 0, top)];
      && |RunsOf(started, limit)| == |RunsOf(rows, limit)| + 1
      && PushAll(started, limit).buffered == (if top == limit then [] else [Weighing(value, 0, top)])
      && Weight(started) == Weight(rows) + top
  {
    var row := Weighing(value, 0, top);
    PushedLast(rows, row, limit);
    WeightSnoc(rows, row);
    WeightSingle(row);
    assert [] + [row] == [row];
  }

  /** After the rows of `k` blocks. */
  ghost predicate Blocked(rows: seq<Row>, k: nat, limit: nat, low: nat, top: nat) {
    Ready(PushAll(rows, limit), limit, top) && |RunsOf(rows, limit)| == k && Weight(rows) == k * low
  }

  lemma BlockRun(rows: seq<Row>, k: nat, limit: nat, low: nat, top: nat, value: Value)
    requires 1 <= top <= low && low + top == limit + 1 && Blocked(rows, k, limit, low, top)
    ensures Blocked(rows + [Weighing(value, 0, top)] + Units(low - top, value), k + 1, limit, low, top)
  {
    hide PushAll, Weight, Units;
    var started := rows + [Weighing(value, 0, top)];
    TopStartsRun(rows, limit, top, value);
    WeightSingle(Weighing(value, 0, top));
    OneMoreTime(k, low);
    if low > top {
      UnitsFill(started, low - top, limit, value);
    } else {
      assert started + Units(low - top, value) == started;
    }
  }

  lemma OneMoreTime(k: nat, low: nat)
    ensures (k + 1) * low == k * low + low
  {
  }

  lemma {:induction false} BlocksRun(k: nat, limit: nat, low: nat, top: nat, value: Value)
    requires 1 <= top <= low && low + top == limit + 1
    ensures Blocked(Blocks(k, low, top, value), k, limit, low, top)
  {
    if k > 0 {
      BlocksRun(k - 1, limit, low, top, value);
      BlockRun(Blocks(k - 1, low, top, value), k - 1, limit, low, top, value);
    }
  }

  lemma {:induction false} BlocksWithin(k: nat, low: nat, top: nat, value: Value)
    requires 1 <= top <= low
    ensures Within(Blocks(k, low, top, value), top)
  {
    if k > 0 {
      BlocksWithin(k - 1, low, top, value);
    }
  }

  /** Rows that make `n` runs at the least total. */
  ghost predicate Reaches(rows: seq<Row>, n: nat, limit: nat, heaviest: nat) {
    Within(rows, heaviest) && Weight(rows) == LeastTotal(n, limit, heaviest) && |RunsOf(rows, limit)| == n
  }

  lemma BlocksReach(n: nat, limit: nat, heaviest: nat, value: Value) returns (rows: seq<Row>)
    requires limit >= 1 && heaviest >= 1 && n >= 2 && Low(limit, heaviest) >= Top(limit, heaviest)
    ensures Reaches(rows, n, limit, heaviest)
  {
    var top, low := Top(limit, heaviest), Low(limit, heaviest);
    hide PushAll, Weight, RunsOf, Blocks;
    var blocks := Blocks(n - 1, low, top, value);
    BlocksRun(n - 1, limit, low, top, value);
    BlocksWithin(n - 1, low, top, value);
    TopStartsRun(blocks, limit, top, value);
    rows := blocks + [Weighing(value, 0, top)];
  }

  lemma AlternatingReach(n: nat, limit: nat, heaviest: nat, value: Value) returns (rows: seq<Row>)
    requires limit >= 1 && heaviest >= 1 && n >= 2 && Low(limit, heaviest) < Top(limit, heaviest)
    ensures Reaches(rows, n, limit, heaviest)
  {
    var top, low := Top(limit, heaviest), Low(limit, heaviest);
    hide PushAll, Weight, RunsOf, Alternating, LeastTotal;
    LeastAlternating(n, limit, heaviest);
    rows := Alternating(n, low, top, value);
    OwnRuns(rows, limit);
    AlternatingWeight(n, low, top, value);
  }

  lemma FewReach(n: nat, limit: nat, heaviest: nat, value: Value) returns (rows: seq<Row>)
    requires limit >= 1 && heaviest >= 1 && n < 2
    ensures Reaches(rows, n, limit, heaviest)
  {
    hide PushAll, LeastTotal, RunsOf;
    LeastOfFew(n, limit, heaviest);
    rows := Units(n, value);
    OwnRuns(rows, limit);
    if n == 1 {
      assert rows == [rows[0]];
      WeightSingle(rows[0]);
    }
  }

  /** Some rows of exactly the least total make `n` runs. */
  lemma LeastIsReached(n: nat, limit: nat, heaviest: nat, value: Value) returns (rows: seq<Row>)
    requires limit >= 1 && heaviest >= 1
    ensures Reaches(rows, n, limit, heaviest)
  {
    hide Reaches, LeastTotal;
    if n < 2 {
      rows := FewReach(n, limit, heaviest, value);
    } else if Low(limit, heaviest) >= Top(limit, heaviest) {
      rows := BlocksReach(n, limit, heaviest, value);
    } else {
      rows := AlternatingReach(n, limit, heaviest, value);
    }
  }

  // ----- exactly when the runs stay few -----

  /** Every sort of rows up to `heaviest` and `total` bytes in all makes at most
      `k` runs iff `total` is below the least that makes one more. */
  lemma RunBoundIsExact(k: nat, limit: nat, heaviest: nat, total: nat)
    requires limit >= 1 && heaviest >= 1
    ensures (forall rows | Within(rows, heaviest) && Weight(rows) <= total :: |RunsOf(rows, limit)| <= k) <==>
      total < LeastTotal(k + 1, limit, heaviest)
  {
    if total < LeastTotal(k + 1, limit, heaviest) {
      forall rows | Within(rows, heaviest) && Weight(rows) <= total ensures |RunsOf(rows, limit)| <= k {
        RunsCostLeast(rows, limit, heaviest);
        if |RunsOf(rows, limit)| > k {
          LeastGrows(|RunsOf(rows, limit)|, k + 1, limit, heaviest);
        }
      }
    } else {
      var value: Value := *;
      var rows := LeastIsReached(k + 1, limit, heaviest, value);
      assert Within(rows, heaviest) && Weight(rows) <= total;
    }
  }

  /** Rows of one weight: as many to a run as the threshold holds, at least one. */
  lemma {:induction false} UniformBuffer(rows: seq<Row>, weight: nat, limit: nat)
    requires weight >= 1 && limit >= 1 && forall row | row in rows :: row.retained == weight
    ensures var ledger, each := PushAll(rows, limit), Max(limit / weight, 1);
      && |rows| == |ledger.runs| * each + |ledger.buffered| && |ledger.buffered| <= each
      && Weight(ledger.buffered) == |ledger.buffered| * weight < limit
  {
    if rows != [] {
      var init, row := rows[..|rows| - 1], rows[|rows| - 1];
      UniformBuffer(init, weight, limit);
      assert rows == init + [row] && row in rows;
      UniformPush(PushAll(init, limit), row, limit);
    }
  }

  /** How many runs and buffered rows a push leaves. */
  lemma PushCounts(ledger: Ledger, row: Row, limit: nat)
    requires limit >= 1
    ensures var next, total := ledger.Push(row, limit, limit), Weight(ledger.buffered) + row.retained;
      (|next.runs|, |next.buffered|, Weight(next.buffered)) ==
        if ledger.buffered != [] && total > limit then
          if row.retained >= limit then (|ledger.runs| + 2, 0, 0) else (|ledger.runs| + 1, 1, row.retained)
        else if total >= limit then (|ledger.runs| + 1, 0, 0)
        else (|ledger.runs|, |ledger.buffered| + 1, total)
  {
    WeightSnoc(ledger.buffered, row);
    WeightSingle(row);
    assert [] + [row] == [row];
  }

  lemma UniformPush(ledger: Ledger, row: Row, limit: nat)
    requires row.retained >= 1 && limit >= 1
    requires var each := Max(limit / row.retained, 1);
      |ledger.buffered| <= each && Weight(ledger.buffered) == |ledger.buffered| * row.retained < limit
    ensures var next, each := ledger.Push(row, limit, limit), Max(limit / row.retained, 1);
      && |next.runs| * each + |next.buffered| == |ledger.runs| * each + |ledger.buffered| + 1
      && |next.buffered| <= each && Weight(next.buffered) == |next.buffered| * row.retained < limit
  {
    hide Max, Ledger.Push, Weight;
    var n, w := |ledger.buffered|, row.retained;
    PushCounts(ledger, row, limit);
    OneMoreTime(n, w);
    OneMoreTime(|ledger.runs|, Max(limit / w, 1));
    RunIsFull(n, w, limit);
  }

  /** When a buffer of `n` rows of weight `w` has as many rows as a run takes. */
  lemma RunIsFull(n: nat, w: nat, limit: nat)
    requires w >= 1 && n * w < limit
    ensures n > 0 && n * w + w > limit ==> n == Max(limit / w, 1)
    ensures (n == 0 || n * w + w <= limit) && n * w + w >= limit ==> n + 1 == Max(limit / w, 1)
    ensures n * w + w < limit ==> n + 1 <= Max(limit / w, 1)
    ensures n > 0 && n * w + w > limit ==> w < limit
  {
    OneMoreTime(n, w);
    OneMoreTime(n + 1, w);
    HoldsEach(n, w, limit);
    HoldsEach(n + 1, w, limit);
    HoldsEach(n + 2, w, limit);
    if n > 0 {
      MulMonotone(1, w, n, w);
    }
  }

  /** `n` rows of weight `w` stay within the threshold iff it holds so many. */
  lemma HoldsEach(n: nat, w: nat, limit: nat)
    requires w >= 1
    ensures n * w <= limit <==> n <= limit / w
  {
    var q, r := limit / w, limit % w;
    assert limit == q * w + r;
    if n <= q {
      MulMonotone(n, w, q, w);
    } else {
      MulMonotone(q + 1, w, n, w);
      OneMoreTime(q, w);
    }
  }

  /** Rows of one weight make at most `k` runs iff there are at most `k` times as
      many of them as one run holds. */
  lemma UniformRuns(rows: seq<Row>, weight: nat, limit: nat, k: nat)
    requires weight >= 1 && limit >= 1 && forall row | row in rows :: row.retained == weight
    ensures |RunsOf(rows, limit)| <= k <==> |rows| <= k * Max(limit / weight, 1)
  {
    UniformBuffer(rows, weight, limit);
    var ledger := PushAll(rows, limit);
    CountUp(|ledger.runs|, |ledger.buffered|, Max(limit / weight, 1), k);
  }

  /** Full runs of `each` rows and one of the `rest` cover what `k` runs hold iff
      they are at most `k`. */
  lemma CountUp(n: nat, rest: nat, each: nat, k: nat)
    requires each >= 1 && rest <= each
    ensures n + (if rest == 0 then 0 else 1) <= k <==> n * each + rest <= k * each
  {
    OneMoreTime(n, each);
    if n < k {
      MulMonotone(n + 1, each, k, each);
    } else if n > k {
      MulMonotone(k + 1, each, n, each);
      OneMoreTime(k, each);
    }
  }
}
