/** When rows are packed into runs, and how few runs that makes. */
module Packing {
  import opened Rows
  import opened StableOrder

  datatype Plan = InMemory | External(runBufferBytes: nat, maxFanIn: nat)

  /** The largest run a plan allows, whatever the shared budget says. */
  function PlanCap(plan: Plan): nat {
    match plan
    case InMemory => 8 * 1024 * 1024
    case External(bytes, _) => Max(bytes, 1)
  }

  /** The live run threshold for one reading of the shared budget's limit: the
      greatest that takes at most an eighth of it and stays within the plan, but
      at least one byte. */
  function BufferLimit(plan: Plan, reading: nat): (limit: nat)
    ensures 1 <= limit && (limit > 1 ==> 8 * limit <= reading)
    ensures plan.InMemory? ==> limit <= 0x80_0000 && (limit < 0x80_0000 ==> reading < 8 * (limit + 1))
    ensures plan.External? ==> limit == 1 || limit <= plan.runBufferBytes
    ensures plan.External? && limit < plan.runBufferBytes ==> reading < 8 * (limit + 1)
  {
    Min(Max(reading / 8, 1), PlanCap(plan))
  }

  /** Rows accepted so far: those of the spilled runs, then the buffered ones,
      all in push order. */
  datatype Ledger = Ledger(runs: seq<seq<Row>>, buffered: seq<Row>) {
    function Accepted(): seq<Row> {
      Flatten(runs) + buffered
    }

    /** The buffer becomes the next run. */
    function Spilled(): Ledger {
      if buffered == [] then this else Ledger(runs + [buffered], [])
    }

    /** Spill first if `row` would exceed the threshold read then. */
    function MakeRoom(row: Row, before: nat): Ledger {
      if buffered != [] && Weight(buffered) + row.retained > before then Spilled() else this
    }

    /** One accepted push: make room, take the row, and spill again if the buffer
        reaches the threshold read afterwards. */
    function Push(row: Row, before: nat, after: nat): Ledger {
      var ready := MakeRoom(row, before);
      var grown := Ledger(ready.runs, ready.buffered + [row]);
      if Weight(grown.buffered) >= after then grown.Spilled() else grown
    }

    /** One push that leaves the session usable. */
    function Try(attempt: Attempt): Ledger {
      match attempt.ending
      case Taken => Push(attempt.row, attempt.before, attempt.after)
      case Refused => this
      case RefusedAfterSpill => MakeRoom(attempt.row, attempt.before)
    }
  }

  /** How a push ends that leaves the session usable: its row is taken, or the
      budget refuses it, perhaps after the buffer was spilled to make room. */
  datatype Ending = Taken | Refused | RefusedAfterSpill

  /** A push with the two thresholds it reads. */
  datatype Attempt = Attempt(row: Row, before: nat, after: nat, ending: Ending)

  lemma SpilledAccepts(ledger: Ledger)
    ensures ledger.Spilled().Accepted() == ledger.Accepted()
  {
    FlattenSnoc(ledger.runs, ledger.buffered);
  }

  /** Whatever the thresholds read, a push appends exactly its row. */
  lemma PushAccepts(ledger: Ledger, row: Row, before: nat, after: nat)
    ensures ledger.Push(row, before, after).Accepted() == ledger.Accepted() + [row]
  {
    SpilledAccepts(ledger);
    var ready := ledger.MakeRoom(row, before);
    var grown := Ledger(ready.runs, ready.buffered + [row]);
    SpilledAccepts(grown);
    assert grown.Accepted() == ready.Accepted() + [row];
  }

  ghost predicate NoEmptyRun(runs: seq<seq<Row>>) {
    forall i | 0 <= i < |runs| :: runs[i] != []
  }

  lemma PushFillsRuns(ledger: Ledger, row: Row, before: nat, after: nat)
    requires NoEmptyRun(ledger.runs)
    ensures NoEmptyRun(ledger.Push(row, before, after).runs)
  {
  }

  /** The run count never passes the row count. */
  lemma {:induction false} FewerRunsThanRows(runs: seq<seq<Row>>)
    requires NoEmptyRun(runs)
    ensures |runs| <= |Flatten(runs)|
  {
    if runs != [] {
      FewerRunsThanRows(runs[1..]);
    }
  }

  // ----- sequences of pushes -----

  function TryAll(attempts: seq<Attempt>): Ledger {
    if attempts == [] then Ledger([], []) else TryAll(attempts[..|attempts| - 1]).Try(attempts[|attempts| - 1])
  }

  function TakenRows(attempts: seq<Attempt>): seq<Row> {
    if attempts == [] then []
    else
      var last := attempts[|attempts| - 1];
      TakenRows(attempts[..|attempts| - 1]) + (if last.ending.Taken? then [last.row] else [])
  }

  /** Pushes that were refused after they had spilled the buffer. */
  function Cuts(attempts: seq<Attempt>): nat {
    if attempts == [] then 0
    else Cuts(attempts[..|attempts| - 1]) + (if attempts[|attempts| - 1].ending.RefusedAfterSpill? then 1 else 0)
  }

  ghost predicate Constant(attempts: seq<Attempt>, limit: nat) {
    forall i | 0 <= i < |attempts| :: attempts[i].before == limit && attempts[i].after == limit
  }

  lemma {:induction false} AttemptsAccept(attempts: seq<Attempt>)
    ensures TryAll(attempts).Accepted() == TakenRows(attempts)
  {
    if attempts != [] {
      var last := |attempts| - 1;
      AttemptsAccept(attempts[..last]);
      SpilledAccepts(TryAll(attempts[..last]));
      PushAccepts(TryAll(attempts[..last]), attempts[last].row, attempts[last].before, attempts[last].after);
    }
  }

  /** Pushes that are all taken under one threshold. */
  function PushAll(rows: seq<Row>, limit: nat): Ledger {
    if rows == [] then Ledger([], [])
    else PushAll(rows[..|rows| - 1], limit).Push(rows[|rows| - 1], limit, limit)
  }

  /** Under a constant threshold refusals leave no trace unless they cut a run. */
  lemma {:induction false} WithoutCuts(attempts: seq<Attempt>, limit: nat)
    requires Constant(attempts, limit) && Cuts(attempts) == 0
    ensures TryAll(attempts) == PushAll(TakenRows(attempts), limit)
  {
    if attempts != [] {
      var last := attempts[|attempts| - 1];
      var earlier := attempts[..|attempts| - 1];
      WithoutCuts(earlier, limit);
      if last.ending.Taken? {
        assert (TakenRows(earlier) + [last.row])[..|TakenRows(earlier)|] == TakenRows(earlier);
      } else {
        assert TakenRows(earlier) + [] == TakenRows(earlier);
      }
    }
  }

  // ----- packing under a constant threshold -----

  function RunWeight(runs: seq<seq<Row>>): nat {
    Weight(Flatten(runs))
  }

  /** Neighbours among the runs and the `tail` bytes after them that stay below
      the threshold together. */
  function LightPairs(runs: seq<seq<Row>>, tail: nat, limit: nat): nat {
    if runs == [] then 0
    else
      var last := |runs| - 1;
      LightPairs(runs[..last], Weight(runs[last]), limit) + (if Weight(runs[last]) + tail < limit then 1 else 0)
  }

  /** Packing under a constant threshold: the buffer stays below it, a run of
      several rows stays within it, and two neighbours together reach it, but for
      at most `cuts` pairs. */
  ghost predicate Packed(ledger: Ledger, limit: nat, cuts: nat) {
    && Weight(ledger.buffered) < limit && RunsFit(ledger.runs, limit)
    && LightPairs(ledger.runs, Weight(ledger.buffered), limit) <= cuts
  }

  ghost predicate RunsFit(runs: seq<seq<Row>>, limit: nat) {
    forall i | 0 <= i < |runs| :: runs[i] != [] && (|runs[i]| > 1 ==> Weight(runs[i]) <= limit)
  }

  lemma LightPairsSnoc(runs: seq<seq<Row>>, batch: seq<Row>, tail: nat, limit: nat)
    ensures LightPairs(runs + [batch], tail, limit) ==
      LightPairs(runs, Weight(batch), limit) + (if Weight(batch) + tail < limit then 1 else 0)
  {
    assert (runs + [batch])[..|runs|] == runs;
  }

  lemma LightPairsShrink(runs: seq<seq<Row>>, tail: nat, more: nat, limit: nat)
    requires tail <= more
    ensures LightPairs(runs, more, limit) <= LightPairs(runs, tail, limit)
  {
  }

  lemma WeightSnoc(rows: seq<Row>, row: Row)
    ensures Weight(rows + [row]) == Weight(rows) + row.retained
  {
    WeightConcat(rows, [row]);
  }

  lemma WeightSingle(row: Row)
    ensures Weight([row]) == row.retained
  {
    WeightSnoc([], row);
    assert [] + [row] == [row];
  }

  /** Making room packs the spilled run with the row it makes room for. */
  lemma RoomPacks(ledger: Ledger, row: Row, limit: nat, cuts: nat)
    requires limit >= 1 && Packed(ledger, limit, cuts)
    ensures Packed(ledger.MakeRoom(row, limit), limit, cuts + 1)
    ensures ledger.MakeRoom(row, limit).buffered == [] ==>
      LightPairs(ledger.MakeRoom(row, limit).runs, row.retained, limit) <= cuts
  {
    LightPairsSnoc(ledger.runs, ledger.buffered, 0, limit);
    LightPairsSnoc(ledger.runs, ledger.buffered, row.retained, limit);
    LightPairsShrink(ledger.runs, 0, row.retained, limit);
  }

  /** Taking a row that fits beside the buffer, and spilling if that fills it. */
  lemma TakingPacks(ledger: Ledger, row: Row, limit: nat, cuts: nat)
    requires limit >= 1 && RunsFit(ledger.runs, limit)
    requires ledger.buffered != [] ==> Weight(ledger.buffered) + row.retained <= limit
    requires LightPairs(ledger.runs, Weight(ledger.buffered) + row.retained, limit) <= cuts
    ensures var grown := Ledger(ledger.runs, ledger.buffered + [row]);
      Packed(if Weight(grown.buffered) >= limit then grown.Spilled() else grown, limit, cuts)
  {
    WeightSnoc(ledger.buffered, row);
    LightPairsSnoc(ledger.runs, ledger.buffered + [row], 0, limit);
  }

  lemma PushPacks(ledger: Ledger, row: Row, limit: nat, cuts: nat)
    requires limit >= 1 && Packed(ledger, limit, cuts)
    ensures Packed(ledger.Push(row, limit, limit), limit, cuts)
  {
    RoomPacks(ledger, row, limit, cuts);
    LightPairsShrink(ledger.runs, Weight(ledger.buffered), Weight(ledger.buffered) + row.retained, limit);
    TakingPacks(ledger.MakeRoom(row, limit), row, limit, cuts);
  }

  /** Every push that leaves the session usable keeps the packing; only one that
      was refused after its spill can leave another light pair behind. */
  lemma {:induction false} AttemptsPack(attempts: seq<Attempt>, limit: nat)
    requires limit >= 1 && Constant(attempts, limit)
    ensures Packed(TryAll(attempts), limit, Cuts(attempts))
  {
    if attempts != [] {
      var last := attempts[|attempts| - 1];
      var earlier := attempts[..|attempts| - 1];
      AttemptsPack(earlier, limit);
      match last.ending
      case Taken => PushPacks(TryAll(earlier), last.row, limit, Cuts(earlier));
      case Refused =>
      case RefusedAfterSpill => RoomPacks(TryAll(earlier), last.row, limit, Cuts(earlier));
    }
  }

  lemma OnePairMore(n: nat, limit: nat)
    requires n >= 2
    ensures (n / 2) * limit == ((n - 2) / 2) * limit + limit
  {
    assert n / 2 == (n - 2) / 2 + 1;
  }

  lemma RunWeightSnoc(runs: seq<seq<Row>>, batch: seq<Row>)
    ensures RunWeight(runs + [batch]) == RunWeight(runs) + Weight(batch)
  {
    FlattenSnoc(runs, batch);
    WeightConcat(Flatten(runs), batch);
  }

  /** Runs with at most `cuts` light pairs are heavy in all. */
  lemma {:induction false} RunsAreHeavy(runs: seq<seq<Row>>, last: seq<Row>, limit: nat, cuts: nat)
    requires LightPairs(runs, Weight(last), limit) <= cuts <= |runs| + 1
    ensures ((|runs| + 1 - cuts) / 2) * limit <= RunWeight(runs) + Weight(last)
    decreases |runs|
  {
    hide *;
    if runs != [] && |runs| + 1 - cuts >= 2 {
      var init, prior := runs[..|runs| - 1], runs[|runs| - 1];
      assert runs == init + [prior];
      RunWeightSnoc(init, prior);
      LightPairsSnoc(init, prior, Weight(last), limit);
      if Weight(prior) + Weight(last) < limit {
        RunsAreHeavy(init, prior, limit, cuts - 1);
      } else {
        OnePairMore(|runs| + 1 - cuts, limit);
        if init != [] {
          var front, second := init[..|init| - 1], init[|init| - 1];
          assert init == front + [second];
          RunWeightSnoc(front, second);
          LightPairsShrink(init, 0, Weight(prior), limit);
          LightPairsSnoc(front, second, Weight(prior), limit);
          RunsAreHeavy(front, second, limit, cuts);
        }
      }
    } else {
      NoPair(|runs| + 1 - cuts, limit);
    }
  }

  lemma NoPair(n: nat, limit: nat)
    requires n < 2
    ensures (n / 2) * limit == 0
  {
  }

  /** The run count that a packed ledger admits once its buffer is spilled. */
  ghost predicate FewRuns(ledger: Ledger, limit: nat, cuts: nat) {
    var runs := ledger.Spilled().runs;
    |runs| >= cuts ==> ((|runs| - cuts) / 2) * limit <= Weight(ledger.Accepted())
  }

  lemma PackedIsFew(ledger: Ledger, limit: nat, cuts: nat)
    requires Packed(ledger, limit, cuts)
    ensures FewRuns(ledger, limit, cuts)
  {
    if ledger.buffered != [] {
      FewWhenLast(ledger.runs, ledger.buffered, limit, cuts);
    } else if ledger.runs != [] {
      var init, last := ledger.runs[..|ledger.runs| - 1], ledger.runs[|ledger.runs| - 1];
      assert ledger.runs == init + [last];
      LightPairsSnoc(init, last, 0, limit);
      FewWhenLast(init, last, limit, cuts);
      assert ledger.Accepted() == Flatten(init + [last]);
    }
  }

  lemma FewWhenLast(runs: seq<seq<Row>>, last: seq<Row>, limit: nat, cuts: nat)
    requires LightPairs(runs, Weight(last), limit) <= cuts
    ensures |runs| + 1 >= cuts ==> ((|runs| + 1 - cuts) / 2) * limit <= Weight(Flatten(runs) + last)
    ensures Flatten(runs + [last]) == Flatten(runs) + last
  {
    FlattenSnoc(runs, last);
    WeightConcat(Flatten(runs), last);
    if |runs| + 1 >= cuts {
      RunsAreHeavy(runs, last, limit, cuts);
    }
  }

  /** Under a constant threshold L, with T the weight of the accepted rows and c
      pushes refused after their spill, the n runs satisfy ((n - c) / 2) * L <= T. */
  lemma RunCountBound(attempts: seq<Attempt>, limit: nat)
    requires limit >= 1 && Constant(attempts, limit)
    ensures var ledger := TryAll(attempts);
      ledger.Accepted() == TakenRows(attempts) && FewRuns(ledger, limit, Cuts(attempts))
  {
    AttemptsAccept(attempts);
    AttemptsPack(attempts, limit);
    PackedIsFew(TryAll(attempts), limit, Cuts(attempts));
  }

  // ----- exactly when a refusal after a spill breaks that bound -----

  /** Pushes of rows of at least one byte under a constant threshold, at most
      `cuts` of them refused after their spill. */
  ghost predicate CutAtMost(attempts: seq<Attempt>, limit: nat, cuts: nat) {
    && Constant(attempts, limit) && Cuts(attempts) <= cuts
    && forall i | 0 <= i < |attempts| :: attempts[i].row.retained >= 1
  }

  /** A row of weight 1, a push of weight `limit` that is refused after its spill,
      and another row of weight 1. */
  function OneCut(limit: nat, value: Value): seq<Attempt> {
    var light, heavy := Row(0, value, 0, 1), Row(0, value, 1, limit);
    [Attempt(light, limit, limit, Taken)] + [Attempt(heavy, limit, limit, RefusedAfterSpill)] +
    [Attempt(light, limit, limit, Taken)]
  }

  /** A row of weight 1 onto an empty buffer. */
  lemma PushLight(runs: seq<seq<Row>>, row: Row, limit: nat)
    requires row.retained == 1 < limit
    ensures Ledger(runs, []).Push(row, limit, limit) == Ledger(runs, [row])
  {
    WeightSingle(row);
    assert [] + [row] == [row];
  }

  /** One such refusal makes two runs of 2 bytes in all, which is too many under
      every threshold above 2. */
  lemma RefusalAfterSpillCuts(limit: nat, value: Value)
    requires limit >= 3
    ensures var light := Row(0, value, 0, 1);
      && CutAtMost(OneCut(limit, value), limit, 1)
      && TryAll(OneCut(limit, value)).Spilled().runs == [[light], [light]]
      && Weight(TryAll(OneCut(limit, value)).Accepted()) == 2
      && !FewRuns(TryAll(OneCut(limit, value)), limit, 0)
  {
    var light, heavy := Row(0, value, 0, 1), Row(0, value, 1, limit);
    var first := [Attempt(light, limit, limit, Taken)];
    var second := first + [Attempt(heavy, limit, limit, RefusedAfterSpill)];
    var third := second + [Attempt(light, limit, limit, Taken)];
    assert first[..0] == [] && second[..1] == first && third[..2] == second;
    assert Cuts([]) == 0 && Cuts(first) == 0 && Cuts(second) == 1 && Cuts(third) == 1;
    PushLight([], light, limit);
    WeightSingle(light);
    assert TryAll(first) == Ledger([], [light]);
    assert [] + [[light]] == [[light]];
    assert TryAll(second) == Ledger([[light]], []);
    PushLight([[light]], light, limit);
    assert TryAll(third) == Ledger([[light]], [light]);
    WeightSnoc([light], light);
    FlattenSnoc([], [light]);
    assert [] + [light] == [light];
    assert TryAll(third).Accepted() == [light] + [light];
    assert [[light]] + [[light]] == [[light], [light]];
  }

  lemma {:induction false} WeightAtLeastCount(rows: seq<Row>)
    requires forall i | 0 <= i < |rows| :: rows[i].retained >= 1
    ensures |rows| <= Weight(rows)
  {
    if rows != [] {
      WeightAtLeastCount(rows[1..]);
    }
  }

  lemma {:induction false} TakenAreSubstantial(attempts: seq<Attempt>)
    requires forall i | 0 <= i < |attempts| :: attempts[i].row.retained >= 1
    ensures forall i | 0 <= i < |TakenRows(attempts)| :: TakenRows(attempts)[i].retained >= 1
  {
    if attempts != [] {
      TakenAreSubstantial(attempts[..|attempts| - 1]);
    }
  }

  /** There are at most as many runs as bytes. */
  lemma RunsWithinBytes(attempts: seq<Attempt>, limit: nat, cuts: nat)
    requires limit >= 1 && CutAtMost(attempts, limit, cuts)
    ensures |TryAll(attempts).Spilled().runs| <= Weight(TryAll(attempts).Accepted())
  {
    AttemptsPack(attempts, limit);
    AttemptsAccept(attempts);
    TakenAreSubstantial(attempts);
    WeightAtLeastCount(TakenRows(attempts));
    FewerRunsThanRows(TryAll(attempts).Spilled().runs);
    SpilledAccepts(TryAll(attempts));
  }

  lemma HalvesWithin(n: nat, limit: nat)
    requires limit <= 2
    ensures (n / 2) * limit <= n
  {
  }

  /** With at most `cuts` pushes refused after their spill, every sequence of pushes
      meets (n / 2) * L <= T iff there is no such refusal or L is at most 2. */
  lemma CutsBreakTheBound(limit: nat, cuts: nat)
    requires limit >= 1
    ensures (forall attempts | CutAtMost(attempts, limit, cuts) :: FewRuns(TryAll(attempts), limit, 0)) <==>
      cuts == 0 || limit <= 2
  {
    hide CutAtMost, TryAll, Constant, Packed, Cuts, OneCut;
    if cuts == 0 || limit <= 2 {
      forall attempts | CutAtMost(attempts, limit, cuts) ensures FewRuns(TryAll(attempts), limit, 0) {
        FewWithoutCuts(attempts, limit, cuts);
      }
    } else {
      var value: Value := *;
      RefusalAfterSpillCuts(limit, value);
      MoreCutsAllowed(OneCut(limit, value), limit, cuts);
    }
  }

  lemma MoreCutsAllowed(attempts: seq<Attempt>, limit: nat, cuts: nat)
    requires CutAtMost(attempts, limit, 1) && cuts >= 1
    ensures CutAtMost(attempts, limit, cuts)
  {
  }

  lemma FewWithoutCuts(attempts: seq<Attempt>, limit: nat, cuts: nat)
    requires limit >= 1 && CutAtMost(attempts, limit, cuts) && (cuts == 0 || limit <= 2)
    ensures FewRuns(TryAll(attempts), limit, 0)
  {
    if cuts == 0 {
      RunCountBound(attempts, limit);
    } else {
      RunsWithinBytes(attempts, limit, cuts);
      HalvesWithin(|TryAll(attempts).Spilled().runs|, limit);
    }
  }
}
