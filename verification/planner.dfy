/** The in-memory-or-external decision, and the run buffer and fan-in it plans. */
module Planner {
  import opened Rows
  import opened Packing
  import opened RunCounts
  import opened Frontier
  import opened Cascade
  import Session
  import Streams

  const MIB: nat := 1024 * 1024
  const FD_SAFETY_MARGIN: nat := 96
  const SORT_FAIR_SHARE: nat := 8
  const MAX_FAN_IN: nat := 64

  type U32 = n: nat | n < 0x1_0000_0000
  type U64 = n: nat | n < 0x1_0000_0000_0000_0000

  datatype Config = Config(inMemoryCeiling: U64, maxFanIn: U32, minRunBuffer: U64, maxRunBuffer: U64)

  datatype Snapshot = Snapshot(effectiveTarget: U64, resident: U64, fdHeadroom: U32, activeSorts: U32)

  function SaturatingSub(a: nat, b: nat): nat {
    if b <= a then a - b else 0
  }

  function Clamp(n: nat, low: nat, high: nat): nat
    requires low <= high
  {
    if n < low then low else if high < n then high else n
  }

  function DefaultConfig(): Config {
    Config(8 * MIB, MAX_FAN_IN, MIB, 256 * MIB)
  }

  function FromFdLimit(softLimit: U32): Config {
    DefaultConfig().(maxFanIn := Clamp(SaturatingSub(softLimit, FD_SAFETY_MARGIN) / SORT_FAIR_SHARE, 2, MAX_FAN_IN))
  }

  /** The configurations that the code can construct. */
  predicate Constructible(config: Config) {
    config == DefaultConfig() || exists limit: U32 :: config == FromFdLimit(limit)
  }

  function Available(snapshot: Snapshot): U64 {
    SaturatingSub(snapshot.effectiveTarget, snapshot.resident)
  }

  function RationFanIn(snapshot: Snapshot, config: Config): U32
    requires 2 <= config.maxFanIn
  {
    Clamp(snapshot.fdHeadroom / Min(snapshot.activeSorts + 1, 0xFFFF_FFFF), 2, config.maxFanIn)
  }

  /** n divided by d, rounded up. */
  function DivCeil(n: nat, d: nat): nat
    requires d > 0
  {
    n / d + (if n % d == 0 then 0 else 1)
  }

  function TwoPassTarget(estimate: U64, fan: nat): nat {
    DivCeil(estimate, Max(Min(fan * fan, U64_LIMIT - 1), 1))
  }

  function MemoryCap(snapshot: Snapshot, config: Config): nat {
    Max(Available(snapshot), config.minRunBuffer)
  }

  function SizeRunBuffer(estimate: U64, snapshot: Snapshot, config: Config, fan: U32): nat
    requires config.minRunBuffer <= config.maxRunBuffer
  {
    Min(Clamp(TwoPassTarget(estimate, fan), config.minRunBuffer, config.maxRunBuffer), MemoryCap(snapshot, config))
  }

  /** The two-pass target fits under the largest buffer and the memory cap. */
  predicate TargetFits(estimate: U64, snapshot: Snapshot, config: Config, fan: nat) {
    TwoPassTarget(estimate, fan) <= config.maxRunBuffer && TwoPassTarget(estimate, fan) <= MemoryCap(snapshot, config)
  }

  function PlanSort(estimate: U64, snapshot: Snapshot, config: Config): Plan
    requires 2 <= config.maxFanIn && config.minRunBuffer <= config.maxRunBuffer
  {
    if estimate != 0 && estimate <= config.inMemoryCeiling && Available(snapshot) >= estimate then InMemory
    else
      var fan := RationFanIn(snapshot, config);
      External(SizeRunBuffer(estimate, snapshot, config, fan), fan)
  }

  /** What the planner's clamps and its callers demand of a configuration. */
  predicate Safe(config: Config) {
    2 <= config.maxFanIn <= 64 && 1 <= config.minRunBuffer <= config.maxRunBuffer
  }

  /** Every constructible configuration meets that. */
  lemma ConstructibleIsSafe(config: Config)
    requires Constructible(config)
    ensures Safe(config)
  {
  }

  /** q is the least number of chunks of size d that hold n. */
  lemma DivCeilIsLeast(n: nat, d: nat, q: nat)
    requires d > 0
    ensures DivCeil(n, d) <= q <==> n <= q * d
  {
    var k, r := n / d, n % d;
    assert n == k * d + r;
    if k < q {
      MulMonotone(k + 1, d, q, d);
      assert (k + 1) * d == k * d + d;
    } else if k > q {
      MulMonotone(q + 1, d, k, d);
      assert (q + 1) * d == q * d + d;
    }
  }

  /** The plan's buffer and fan-in stay in their bounds, and the buffer lets the
      estimate fit into fan-in squared runs iff the two-pass target fits under
      the largest buffer and under the memory that is available. */
  lemma PlanBounds(estimate: U64, snapshot: Snapshot, config: Config)
    requires Safe(config)
    ensures PlanSort(estimate, snapshot, config).External? ==>
      var plan := PlanSort(estimate, snapshot, config);
      var fan, buffer := plan.maxFanIn, plan.runBufferBytes;
      && 2 <= fan <= config.maxFanIn <= 64
      && config.minRunBuffer <= buffer <= config.maxRunBuffer && buffer <= MemoryCap(snapshot, config)
      && (estimate <= buffer * (fan * fan) <==> TargetFits(estimate, snapshot, config, fan))
    ensures PlanSort(estimate, snapshot, config).InMemory? <==>
      0 < estimate <= config.inMemoryCeiling && estimate <= Available(snapshot)
  {
    var plan := PlanSort(estimate, snapshot, config);
    if plan.External? {
      var fan := plan.maxFanIn;
      SquareBounds(fan);
      DivCeilIsLeast(estimate, fan * fan, plan.runBufferBytes);
    }
  }

  /** Run buffers that the configuration and the headroom allow: the floor always,
      and whatever fits beside the resident bytes up to the ceiling. */
  predicate Allowed(buffer: nat, snapshot: Snapshot, config: Config) {
    && config.minRunBuffer <= buffer <= config.maxRunBuffer
    && (buffer == config.minRunBuffer || buffer + snapshot.resident <= snapshot.effectiveTarget)
  }

  /** The planned buffer is the least allowed one with which the estimate fits into
      fan-in squared buffers, or the greatest allowed one if there is none. */
  lemma BufferIsLeast(estimate: U64, snapshot: Snapshot, config: Config, other: nat)
    requires Safe(config)
    ensures PlanSort(estimate, snapshot, config).InMemory? <==>
      0 < estimate <= config.inMemoryCeiling && estimate + snapshot.resident <= snapshot.effectiveTarget
    ensures PlanSort(estimate, snapshot, config).External? ==>
      var plan := PlanSort(estimate, snapshot, config);
      var square, buffer := plan.maxFanIn * plan.maxFanIn, plan.runBufferBytes;
      && Allowed(buffer, snapshot, config)
      && (Allowed(other, snapshot, config) && estimate <= other * square ==>
           estimate <= buffer * square && buffer <= other)
      && (Allowed(other, snapshot, config) && estimate > buffer * square ==> other <= buffer)
  {
    PlanBounds(estimate, snapshot, config);
    var plan := PlanSort(estimate, snapshot, config);
    if plan.External? {
      SquareBounds(plan.maxFanIn);
      DivCeilIsLeast(estimate, plan.maxFanIn * plan.maxFanIn, other);
      DivCeilIsLeast(estimate, plan.maxFanIn * plan.maxFanIn, plan.runBufferBytes);
    }
  }

  lemma SquareBounds(fan: nat)
    requires 2 <= fan <= 64
    ensures 4 <= fan * fan <= 4096
  {
    MulMonotone(2, 2, fan, fan);
    MulMonotone(fan, fan, 64, 64);
  }

  /** The default limits in numbers: up to 8 MiB in memory, run buffers from 1 MiB to
      256 MiB, at most 64 runs at once; a cap derived from the descriptor limit
      changes none of them but the last. */
  lemma ConstructiblePlans(estimate: U64, snapshot: Snapshot, config: Config)
    requires Constructible(config)
    ensures PlanSort(estimate, snapshot, config).InMemory? <==>
      0 < estimate <= 0x80_0000 && estimate + snapshot.resident <= snapshot.effectiveTarget
    ensures PlanSort(estimate, snapshot, config).External? ==>
      var plan := PlanSort(estimate, snapshot, config);
      && 0x10_0000 <= plan.runBufferBytes <= 0x1000_0000 && 2 <= plan.maxFanIn <= 64
      && (plan.runBufferBytes == 0x10_0000 || plan.runBufferBytes + snapshot.resident <= snapshot.effectiveTarget)
      && (plan.runBufferBytes < 0x1000_0000 && plan.runBufferBytes + snapshot.resident < snapshot.effectiveTarget ==>
           estimate <= plan.runBufferBytes * (plan.maxFanIn * plan.maxFanIn))
  {
    ConstructibleIsSafe(config);
    PlanBounds(estimate, snapshot, config);
    var plan := PlanSort(estimate, snapshot, config);
    if plan.External? && plan.runBufferBytes < 0x1000_0000 &&
       plan.runBufferBytes + snapshot.resident < snapshot.effectiveTarget
    {
      BufferIsLeast(estimate, snapshot, config, plan.runBufferBytes + 1);
    }
  }

  /** n slots hold `fan` each, and `fan` is as large as that and its bounds allow. */
  ghost predicate FairShare(fan: nat, n: nat, slots: nat, most: nat) {
    && 2 <= fan <= most
    && (fan == 2 || n * fan <= slots)
    && (fan == most || n * (fan + 1) > slots)
  }

  lemma ShareIsFair(n: nat, slots: nat, most: nat)
    requires n > 0 && most >= 2
    ensures FairShare(Clamp(slots / n, 2, most), n, slots, most)
  {
    var share := slots / n;
    var fan := Clamp(share, 2, most);
    assert slots == n * share + slots % n;
    if fan != 2 {
      MulMonotone(fan, n, share, n);
    }
    if fan != most {
      MulMonotone(share + 1, n, fan + 1, n);
      assert (share + 1) * n == share * n + n;
    }
  }

  /** The planned fan-in shares the free descriptors: one more sort and all the
      active ones, at this fan-in each, stay within the headroom unless it is the
      floor of 2, and a larger fan-in within the configured cap would not. */
  lemma FanInIsShared(estimate: U64, snapshot: Snapshot, config: Config)
    requires Safe(config)
    ensures PlanSort(estimate, snapshot, config).External? ==>
      FairShare(PlanSort(estimate, snapshot, config).maxFanIn,
                snapshot.activeSorts + 1, snapshot.fdHeadroom, config.maxFanIn)
  {
    var n := Min(snapshot.activeSorts + 1, 0xFFFF_FFFF);
    ShareIsFair(n, snapshot.fdHeadroom, config.maxFanIn);
    if n != snapshot.activeSorts + 1 {
      assert snapshot.fdHeadroom / n <= 1;
    }
  }

  /** The cap derived from the descriptor limit shares what the safety margin leaves
      among eight sorts in the same sense, up to 64 each. */
  lemma FdLimitIsShared(softLimit: U32)
    ensures var free := if softLimit < 96 then 0 else softLimit - 96;
      FairShare(FromFdLimit(softLimit).maxFanIn, 8, free, 64)
  {
    ShareIsFair(8, SaturatingSub(softLimit, FD_SAFETY_MARGIN), 64);
  }

  /** With the planned buffer as constant threshold and no more bytes taken than
      estimated, at most 2 * fan^2 + 1 runs are spilled whenever the two-pass
      target fits, and one more for each push refused after its spill. */
  lemma PlannedRunCount(estimate: U64, snapshot: Snapshot, config: Config, attempts: seq<Attempt>)
    requires Safe(config)
    ensures PlanSort(estimate, snapshot, config).External? ==>
      var plan := PlanSort(estimate, snapshot, config);
      Weight(TakenRows(attempts)) <= estimate && Constant(attempts, plan.runBufferBytes) &&
      TargetFits(estimate, snapshot, config, plan.maxFanIn) ==>
        |TryAll(attempts).Spilled().runs| <= 2 * (plan.maxFanIn * plan.maxFanIn) + 1 + Cuts(attempts)
  {
    PlanBounds(estimate, snapshot, config);
    var plan := PlanSort(estimate, snapshot, config);
    if plan.External? && Weight(TakenRows(attempts)) <= estimate && Constant(attempts, plan.runBufferBytes) &&
       TargetFits(estimate, snapshot, config, plan.maxFanIn)
    {
      RunsWithin(attempts, plan.runBufferBytes, plan.maxFanIn * plan.maxFanIn, estimate);
    }
  }

  lemma RunsWithin(attempts: seq<Attempt>, buffer: nat, square: nat, total: nat)
    requires buffer >= 1 && Weight(TakenRows(attempts)) <= total <= buffer * square && Constant(attempts, buffer)
    ensures |TryAll(attempts).Spilled().runs| <= 2 * square + 1 + Cuts(attempts)
  {
    RunCountBound(attempts, buffer);
    var n := |TryAll(attempts).Spilled().runs|;
    if n >= Cuts(attempts) {
      FewHalves((n - Cuts(attempts)) / 2, square, buffer, total);
    }
  }

  lemma FewHalves(half: nat, square: nat, buffer: nat, total: nat)
    requires buffer >= 1 && half * buffer <= total <= buffer * square
    ensures half <= square
  {
    if half > square {
      MulMonotone(square + 1, buffer, half, buffer);
    }
  }

  /** Exactly when the planned buffer keeps the run count within fan^2: every sort
      of at most `estimate` bytes in rows of at most `heaviest` bytes does so iff
      the estimate is below the least total that makes fan^2 + 1 runs. */
  lemma FanSquaredExactly(estimate: U64, snapshot: Snapshot, config: Config, heaviest: nat)
    requires Safe(config) && heaviest >= 1
    ensures PlanSort(estimate, snapshot, config).External? ==>
      var plan := PlanSort(estimate, snapshot, config);
      var square := plan.maxFanIn * plan.maxFanIn;
      (forall rows | Within(rows, heaviest) && Weight(rows) <= estimate ::
        |RunsOf(rows, plan.runBufferBytes)| <= square) <==>
      estimate < LeastTotal(square + 1, plan.runBufferBytes, heaviest)
  {
    PlanBounds(estimate, snapshot, config);
    var plan := PlanSort(estimate, snapshot, config);
    if plan.External? {
      RunBoundIsExact(plan.maxFanIn * plan.maxFanIn, plan.runBufferBytes, heaviest, estimate);
    }
  }

  /** Whatever pushes are refused, as long as none is refused after its spill. */
  lemma FanSquaredWithoutCuts(estimate: U64, snapshot: Snapshot, config: Config, attempts: seq<Attempt>, heaviest: nat)
    requires Safe(config) && heaviest >= 1 && Cuts(attempts) == 0 && Within(TakenRows(attempts), heaviest)
    ensures PlanSort(estimate, snapshot, config).External? ==>
      var plan := PlanSort(estimate, snapshot, config);
      var square := plan.maxFanIn * plan.maxFanIn;
      Constant(attempts, plan.runBufferBytes) && Weight(TakenRows(attempts)) <= estimate ==>
        estimate < LeastTotal(square + 1, plan.runBufferBytes, heaviest) ==> |TryAll(attempts).Spilled().runs| <= square
  {
    hide PlanSort, PushAll, LeastTotal, Within, Weight, TakenRows, TryAll;
    FanSquaredExactly(estimate, snapshot, config, heaviest);
    var plan := PlanSort(estimate, snapshot, config);
    if plan.External? && Constant(attempts, plan.runBufferBytes) {
      WithoutCuts(attempts, plan.runBufferBytes);
    }
  }

  // ----- a planned session -----

  /** Every reading of the limit leaves the planned buffer as the threshold. */
  ghost predicate AmpleReadings(requests: seq<Session.Request>, buffer: nat) {
    forall i | 0 <= i < |requests| :: 8 * buffer <= requests[i].before && 8 * buffer <= requests[i].after
  }

  lemma AmpleIsSteady(plan: Plan, requests: seq<Session.Request>)
    requires plan.External? && plan.runBufferBytes >= 1 && AmpleReadings(requests, plan.runBufferBytes)
    ensures Session.SteadyReadings(plan, requests, plan.runBufferBytes)
  {
  }

  /** The sort was alone with its budget, or nothing squeezed it since `squeezed`. */
  ghost predicate Unsqueezed(session: Session.SortSession, squeezed: nat)
    reads session.budget`refusals
  {
    session.budget.alone || session.budget.refusals.squeezed == squeezed
  }

  /** The promise of the packing comment and the planner's, corrected, for a ledger
      that holds at most `estimate` bytes. */
  ghost predicate FewPlannedRuns(ledger: Ledger, estimate: U64, snapshot: Snapshot, config: Config)
    requires Safe(config) && PlanSort(estimate, snapshot, config).External?
  {
    var plan := PlanSort(estimate, snapshot, config);
    var square, n := plan.maxFanIn * plan.maxFanIn, |ledger.Spilled().runs|;
    && (n / 2) * plan.runBufferBytes <= Weight(ledger.Accepted())
    && (TargetFits(estimate, snapshot, config, plan.maxFanIn) ==> n <= 2 * square + 1)
    && forall heaviest: nat | heaviest >= 1 && Within(ledger.Accepted(), heaviest) ::
         estimate < LeastTotal(square + 1, plan.runBufferBytes, heaviest) ==> n <= square
  }

  lemma PlannedLedger(estimate: U64, snapshot: Snapshot, config: Config, attempts: seq<Attempt>)
    requires Safe(config) && PlanSort(estimate, snapshot, config).External? && Cuts(attempts) == 0
    requires Constant(attempts, PlanSort(estimate, snapshot, config).runBufferBytes)
    requires Weight(TryAll(attempts).Accepted()) <= estimate
    ensures FewPlannedRuns(TryAll(attempts), estimate, snapshot, config)
  {
    hide PlanSort, TargetFits, TryAll, Cuts, Constant, TakenRows, Within, LeastTotal, Weight, Ledger.Accepted,
      Ledger.Spilled;
    PlanBounds(estimate, snapshot, config);
    RunCountBound(attempts, PlanSort(estimate, snapshot, config).runBufferBytes);
    PlannedRunCount(estimate, snapshot, config, attempts);
    forall heaviest: nat | heaviest >= 1 && Within(TakenRows(attempts), heaviest)
      ensures var plan := PlanSort(estimate, snapshot, config);
        estimate < LeastTotal(plan.maxFanIn * plan.maxFanIn + 1, plan.runBufferBytes, heaviest) ==>
          |TryAll(attempts).Spilled().runs| <= plan.maxFanIn * plan.maxFanIn
    {
      FanSquaredWithoutCuts(estimate, snapshot, config, attempts, heaviest);
    }
  }

  /** Push a whole sort through a session with its plan. If nothing squeezed the
      sort, the limit readings were ample and the estimate held, its runs are few. */
  method IngestPlanned(session: Session.SortSession, requests: seq<Session.Request>,
                       estimate: U64, snapshot: Snapshot, config: Config)
    returns (oks: seq<bool>)
    requires session.Valid() && !session.failed && session.ledger == Ledger([], [])
    requires Safe(config) && session.plan == PlanSort(estimate, snapshot, config)
    modifies session, session.disk, session.budget, session.spills
    ensures session.Valid() && |oks| == |requests|
    ensures !session.failed ==> session.ledger.Accepted() == Session.AcceptedRows(session.layout, requests, oks)
    ensures
      && !session.failed && session.plan.External? && |requests| < U64_LIMIT
      && Unsqueezed(session, old(session.budget.refusals.squeezed))
      && AmpleReadings(requests, session.plan.runBufferBytes)
      && Weight(session.ledger.Accepted()) <= estimate
      ==> FewPlannedRuns(session.ledger, estimate, snapshot, config)
  {
    hide PlanSort, FewPlannedRuns, TryAll, Cuts, Constant, Weight, Ledger.Accepted, Session.AcceptedRows, AmpleReadings,
      Session.SteadyReadings, Session.SortSession.Valid;
    ghost var attempts;
    oks, attempts := Session.PushEach(session, requests);
    PlanBounds(estimate, snapshot, config);
    if !session.failed && session.plan.External? && |requests| < U64_LIMIT &&
       Unsqueezed(session, old(session.budget.refusals.squeezed)) &&
       AmpleReadings(requests, session.plan.runBufferBytes) && Weight(session.ledger.Accepted()) <= estimate
    {
      AmpleIsSteady(session.plan, requests);
      Session.FollowsConstant(session, requests, oks, attempts, session.plan.runBufferBytes);
      PlannedLedger(estimate, snapshot, config, attempts);
    }
  }

  lemma {:induction false} FewBits(n: nat, k: nat)
    requires n < Pow(2, k)
    ensures PopCount(n) <= k
    decreases k
  {
    if n > 0 {
      assert k > 0 && n / 2 < Pow(2, k - 1);
      FewBits(n / 2, k - 1);
    }
  }

  lemma {:induction false} DoubleBelowPower(k: nat)
    requires k >= 4
    ensures 2 * k + 1 < Pow(2, k)
  {
    if k == 4 {
      assert Pow(2, 2) == 4;
    } else {
      DoubleBelowPower(k - 1);
    }
  }

  /** Live runs after `n` spills, at most 2 * fan^2 + 1, fold to the fan-in in one
      pass. */
  lemma OnePass(n: nat, fan: nat, passes: nat)
    requires fan >= 2 && n <= 2 * (fan * fan) + 1 && LeastPasses(PopCount(n), fan, passes)
    ensures passes <= 1
  {
    MulMonotone(2, 2, fan, fan);
    DoubleBelowPower(fan * fan);
    FewBits(n, fan * fan);
    assert Pow(fan, 2) == fan * fan by {
      assert Pow(fan, 1) == fan * Pow(fan, 0) == fan;
    }
    if passes > 1 {
      PowGrows(fan, 2, passes);
    }
  }

  lemma {:induction false} PowGrows(b: nat, d: nat, e: nat)
    requires b >= 1 && d <= e
    ensures Pow(b, d) <= Pow(b, e)
  {
    if d < e {
      PowGrows(b, d, e - 1);
      MulMonotone(1, Pow(b, e - 1), b, Pow(b, e - 1));
    }
  }

  /** Finish a session with its plan: it never reads more runs at once than the
      configuration allows, and if its runs are as few as planned, one pass is
      enough before the final merge. */
  method FinishPlanned(session: Session.SortSession, estimate: U64, snapshot: Snapshot, config: Config)
    returns (result: Outcome<Streams.ValueStream>, passes: nat)
    requires session.Valid() && Safe(config) && session.plan == PlanSort(estimate, snapshot, config)
    modifies session, session.spills, session.disk, session.budget
    ensures result.Ok? && result.value.Merging? ==>
      |result.value.merge.state.sources| <= config.maxFanIn
    ensures
      && result.Ok? && result.value.Merging? && session.plan.External?
      && TargetFits(estimate, snapshot, config, session.plan.maxFanIn)
      && FewPlannedRuns(old(session.ledger), estimate, snapshot, config)
      ==> passes <= 1
  {
    hide PlanSort, TargetFits, Session.SortSession.Valid, LeastPasses, PopCount, LeastTotal, Weight, Within;
    PlanBounds(estimate, snapshot, config);
    ghost var spilled := |session.ledger.Spilled().runs|;
    result, passes := session.Finish();
    if result.Ok? && result.value.Merging? && session.plan.External? &&
       spilled <= 2 * (session.plan.maxFanIn * session.plan.maxFanIn) + 1
    {
      OnePass(spilled, session.plan.maxFanIn, passes);
    }
  }

  function SixRows(value: Value): seq<Row> {
    seq(6, (i: nat) => Row(0, value, i, 5 * MIB))
  }

  /** The planner's comment promises at most fan^2 runs. That is not so: a total
      of 30 MiB under an estimate of 32 MiB, planned with fan-in 2 and a buffer
      of 8 MiB, makes six runs of one 5 MiB row each. */
  lemma FanSquaredIsExceeded(value: Value)
    ensures var snapshot := Snapshot(64 * MIB, 0, 2, 0);
      var rows := SixRows(value);
      && PlanSort(32 * MIB, snapshot, DefaultConfig()) == External(8 * MIB, 2)
      && Weight(rows) == 30 * MIB
      && |RunsOf(rows, 8 * MIB)| == 6
  {
    var rows := SixRows(value);
    UniformRuns(rows, 5 * MIB, 8 * MIB, 5);
    UniformRuns(rows, 5 * MIB, 8 * MIB, 6);
    EqualWeights(rows, 5 * MIB);
  }

  lemma {:induction false} EqualWeights(rows: seq<Row>, weight: nat)
    requires forall row | row in rows :: row.retained == weight
    ensures Weight(rows) == |rows| * weight
  {
    if rows != [] {
      EqualWeights(rows[1..], weight);
      assert (|rows| - 1) * weight + weight == |rows| * weight;
    }
  }
}
