/** The 64-slot frontier of spilled runs, which counts spills in binary. */
module Frontier {
  import opened Rows
  import opened StableOrder
  import opened Scratch
  import opened Merge
  import opened Cascade

  const LEVELS: nat := 64

  type Slots = s: seq<Option<Path>> | |s| == 64 witness seq(64, _ => None)

  /** The finished run `path` holds the stable sort of `segment`, whole runs in push order. */
  ghost predicate RunHolds(path: Path, segment: seq<seq<Row>>, files: map<Path, RunFile>) {
    var rows := StableSort(Flatten(segment));
    path in files && files[path] == RunFile(|rows|, rows)
  }

  /** Slots `level` and above hold runs 0..end, where `n` counts them in units
      of 2^level: a slot is full iff its bit of `n` is set, the slot of level L
      holds 2^L consecutive runs, and higher levels hold older runs. */
  ghost predicate Covers(level: nat, n: nat, end: nat, slots: Slots, runs: seq<seq<Row>>, files: map<Path, RunFile>)
    requires level <= LEVELS && end <= |runs|
    decreases LEVELS - level, |runs|
  {
    if level == LEVELS then n == 0 && end == 0
    else if n % 2 == 0 then slots[level].None? && Covers(level + 1, n / 2, end, slots, runs, files)
    else
      && Pow(2, level) <= end && slots[level].Some?
      && RunHolds(slots[level].value, runs[end - Pow(2, level)..end], files)
      && Covers(level + 1, n / 2, end - Pow(2, level), slots, runs, files)
  }

  /** How often row `r` occurs in some runs. */
  ghost function Times(r: Row, runs: seq<seq<Row>>): nat {
    multiset(Flatten(runs))[r]
  }

  lemma TimesConcat(r: Row, a: seq<seq<Row>>, b: seq<seq<Row>>)
    ensures Times(r, a + b) == Times(r, a) + Times(r, b)
  {
    FlattenConcat(a, b);
  }

  lemma TimesSplit(r: Row, start: nat, end: nat, runs: seq<seq<Row>>)
    requires start <= end <= |runs|
    ensures Times(r, runs[..end]) == Times(r, runs[..start]) + Times(r, runs[start..end])
  {
    TimesConcat(r, runs[..start], runs[start..end]);
    assert runs[..end] == runs[..start] + runs[start..end];
  }

  /** `t` added up `k` times. */
  function Copies(k: nat, t: nat): nat {
    if k == 0 then 0 else t + Copies(k - 1, t)
  }

  lemma {:induction false} CopiesIsProduct(k: nat, t: nat)
    ensures Copies(k, t) == k * t
  {
    if k > 0 {
      CopiesIsProduct(k - 1, t);
      assert (k - 1) * t + t == k * t;
    }
  }

  lemma {:induction false} CopiesAdd(k: nat, a: nat, b: nat)
    ensures Copies(k, a + b) == Copies(k, a) + Copies(k, b)
  {
    if k > 0 {
      CopiesAdd(k - 1, a, b);
    }
  }

  lemma {:induction false} CopiesMore(k: nat, m: nat, t: nat)
    requires k <= m
    ensures Copies(k, t) <= Copies(m, t)
  {
    if k < m {
      CopiesMore(k, m - 1, t);
    }
  }

  lemma {:induction false} CopiesOfOne(k: nat)
    ensures Copies(k, 1) == k && Copies(k, 0) == 0
  {
    if k > 0 {
      CopiesOfOne(k - 1);
    }
  }

  /** Writes of row `r` that built slots `level` and above, if each row of slot L
      was written L + 1 times: once as a run and once per carry merge. */
  ghost function Writes(level: nat, n: nat, end: nat, runs: seq<seq<Row>>, r: Row): nat
    requires level <= LEVELS && end <= |runs|
    decreases LEVELS - level, |runs|
  {
    if level == LEVELS then 0
    else
      var start := Below(level, n, end);
      Copies(level + 1, Times(r, runs[start..end])) + Writes(level + 1, n / 2, start, runs, r)
  }

  function PopCount(n: nat): nat {
    if n == 0 then 0 else n % 2 + PopCount(n / 2)
  }

  predicate Bit(n: nat, i: nat) {
    if i == 0 then n % 2 == 1 else Bit(n / 2, i - 1)
  }

  /** Slot i is full iff bit i of the spill count is set. */
  lemma {:induction false} SlotIffBit(level: nat, n: nat, end: nat, slots: Slots, runs: seq<seq<Row>>,
                                      files: map<Path, RunFile>, i: nat)
    requires level <= i < LEVELS && end <= |runs| && Covers(level, n, end, slots, runs, files)
    ensures slots[i].Some? <==> Bit(n, i - level)
    decreases LEVELS - level
  {
    if level < i {
      SlotIffBit(level + 1, n / 2, if n % 2 == 0 then end else end - Pow(2, level), slots, runs, files, i);
    }
  }

  /** `path` holds the `width` consecutive runs from run `start` on. */
  ghost predicate HoldsRuns(path: Path, start: nat, width: nat, runs: seq<seq<Row>>, files: map<Path, RunFile>) {
    start + width <= |runs| && RunHolds(path, runs[start..start + width], files)
  }

  /** Where the runs that slots above `level` cover end. */
  function Below(level: nat, n: nat, end: nat): (start: nat)
    ensures start <= end
  {
    if n % 2 == 0 || end < Pow(2, level) then end else end - Pow(2, level)
  }

  /** The first of the runs that slot `i` holds if it is full. */
  function SlotStart(level: nat, n: nat, end: nat, i: nat): nat
    requires level <= i
    decreases i - level, n
  {
    var start := Below(level, n, end);
    if level == i then start else SlotStart(level + 1, n / 2, start, i)
  }

  /** A full slot i holds 2^i consecutive runs. */
  lemma {:induction false} SlotRun(level: nat, n: nat, end: nat, slots: Slots, runs: seq<seq<Row>>, files: map<Path,
                                   RunFile>, i: nat)
    requires level <= i < LEVELS && end <= |runs| && Covers(level, n, end, slots, runs, files) && slots[i].Some?
    ensures HoldsRuns(slots[i].value, SlotStart(level, n, end, i), Pow(2, i), runs, files)
    ensures SlotStart(level, n, end, i) + Pow(2, i) <= end
    decreases LEVELS - level
  {
    if level < i {
      SlotRun(level + 1, n / 2, Below(level, n, end), slots, runs, files, i);
    }
  }

  /** Higher levels hold older runs: the runs of a full slot end where those of a
      lower full slot begin, or before. */
  lemma {:induction false} SlotsInOrder(level: nat, n: nat, end: nat, slots: Slots, runs: seq<seq<Row>>,
                                        files: map<Path, RunFile>,
                                        i: nat, j: nat)
    requires level <= i < j < LEVELS && end <= |runs| && Covers(level, n, end, slots, runs, files)
    requires slots[i].Some? && slots[j].Some?
    ensures SlotStart(level, n, end, j) + Pow(2, j) <= SlotStart(level, n, end, i)
    decreases LEVELS - level
  {
    if level < i {
      SlotsInOrder(level + 1, n / 2, Below(level, n, end), slots, runs, files, i, j);
    } else {
      SlotRun(level + 1, n / 2, Below(level, n, end), slots, runs, files, j);
    }
  }

  lemma HalfTimes(n: nat, p: nat)
    ensures n % 2 == 0 ==> (n / 2) * (2 * p) == n * p
    ensures n % 2 == 1 ==> (n / 2) * (2 * p) + p == n * p
  {
    var h := n / 2;
    assert h * (2 * p) == (2 * h) * p;
    assert (2 * h + 1) * p == (2 * h) * p + p;
    assert n == 2 * h || n == 2 * h + 1;
  }

  /** The runs that slots `level` and above cover number n * 2^level. */
  lemma {:induction false} CoversCount(level: nat, n: nat, end: nat, slots: Slots, runs: seq<seq<Row>>,
                                       files: map<Path, RunFile>)
    requires level <= LEVELS && end <= |runs| && Covers(level, n, end, slots, runs, files)
    ensures end == n * Pow(2, level)
    decreases LEVELS - level
  {
    if level < LEVELS {
      CoversCount(level + 1, n / 2, if n % 2 == 0 then end else end - Pow(2, level), slots, runs, files);
      HalfTimes(n, Pow(2, level));
    }
  }

  lemma PrefixParts(a: seq<seq<Row>>, b: seq<seq<Row>>, start: nat, end: nat)
    requires start <= end <= |a| && end <= |b| && b[..end] == a[..end]
    ensures b[..start] == a[..start] && b[start..end] == a[start..end]
  {
    assert b[..start] == b[..end][..start] && a[..start] == a[..end][..start];
    assert b[start..end] == b[..end][start..] && a[start..end] == a[..end][start..];
  }

  /** Covering only depends on the covered slots, runs and files. */
  lemma {:induction false} CoversSame(
    level: nat, n: nat, end: nat, slots: Slots, runs: seq<seq<Row>>, files: map<Path, RunFile>,
    slots': Slots, runs': seq<seq<Row>>, files': map<Path, RunFile>)
    requires level <= LEVELS && end <= |runs| && end <= |runs'|
    requires Covers(level, n, end, slots, runs, files)
    requires forall i | level <= i < LEVELS :: slots'[i] == slots[i]
    requires forall i | level <= i < LEVELS && slots[i].Some? && slots[i].value in files ::
      slots[i].value in files' && files'[slots[i].value] == files[slots[i].value]
    requires runs'[..end] == runs[..end]
    ensures Covers(level, n, end, slots', runs', files')
    decreases LEVELS - level
  {
    if level < LEVELS {
      if n % 2 == 0 {
        CoversSame(level + 1, n / 2, end, slots, runs, files, slots', runs', files');
      } else {
        var start := end - Pow(2, level);
        PrefixParts(runs, runs', start, end);
        CoversSame(level + 1, n / 2, start, slots, runs, files, slots', runs', files');
      }
    }
  }

  /** m doubled `level` times. */
  function Shift(m: nat, level: nat): nat
    decreases level
  {
    if level == 0 then m else Shift(2 * m, level - 1)
  }

  lemma {:induction false} ShiftIsMultiple(m: nat, level: nat)
    ensures Shift(m, level) == m * Pow(2, level)
    decreases level
  {
    if level > 0 {
      ShiftIsMultiple(2 * m, level - 1);
      assert (2 * m) * Pow(2, level - 1) == m * (2 * Pow(2, level - 1));
    }
  }

  lemma {:induction false} PopCountShift(m: nat, level: nat)
    ensures PopCount(Shift(m, level)) == PopCount(m)
    decreases level
  {
    if level > 0 {
      PopCountShift(2 * m, level - 1);
    }
  }

  /** Empty low slots extend a covering down to level 0. */
  lemma {:induction false} CoversDown(level: nat, m: nat, end: nat, slots: Slots, runs: seq<seq<Row>>,
                                      files: map<Path, RunFile>)
    requires level <= LEVELS && end <= |runs| && Covers(level, m, end, slots, runs, files)
    requires forall i | 0 <= i < level :: slots[i].None?
    ensures Covers(0, Shift(m, level), end, slots, runs, files)
  {
    if level > 0 {
      CoversDown(level - 1, 2 * m, end, slots, runs, files);
    }
  }

  lemma PowOf64()
    ensures Pow(2, 64) == U64_LIMIT
  {
    assert Pow(2, 4) == 16;
    PowAdd(2, 4, 4);
    PowAdd(2, 8, 8);
    PowAdd(2, 16, 16);
    PowAdd(2, 32, 32);
  }

  /** A carry that found 64 full slots would need 2^64 spills. */
  lemma CarryStops(ordinal: nat, n: nat)
    requires ordinal + 1 == Shift(n + 1, LEVELS)
    ensures ordinal + 1 >= U64_LIMIT
  {
    ShiftIsMultiple(n + 1, LEVELS);
    PowOf64();
    MulMonotone(1, Pow(2, LEVELS), n + 1, Pow(2, LEVELS));
  }

  // ----- reading the frontier -----

  /** Full slots from the highest level down: oldest runs first. */
  function Collect(slots: Slots, level: nat): seq<Path>
    requires level <= LEVELS
    decreases LEVELS - level, slots
  {
    if level == LEVELS then []
    else Collect(slots, level + 1) + (if slots[level].Some? then [slots[level].value] else [])
  }

  lemma AppendRun(paths: seq<Path>, path: Path, oldRuns: seq<seq<Row>>, segment: seq<seq<Row>>, files: map<Path,
                  RunFile>)
    requires AllFinished(paths, files) && StableSort(AllRows(paths, files)) == StableSort(Flatten(oldRuns))
    requires RunHolds(path, segment, files)
    ensures AllFinished(paths + [path], files)
    ensures StableSort(AllRows(paths + [path], files)) == StableSort(Flatten(oldRuns + segment))
  {
    StableSortIsStable(Flatten(segment));
    SingleRun(path, files);
    AllRowsConcat(paths, [path], files);
    FlattenConcat(oldRuns, segment);
    SortsExtend(AllRows(paths, files), Flatten(oldRuns), Flatten(segment));
  }

  /** The collected files, one per set bit of the count. */
  lemma {:induction false} CollectCount(level: nat, n: nat, end: nat, slots: Slots, runs: seq<seq<Row>>,
                                        files: map<Path, RunFile>)
    requires level <= LEVELS && end <= |runs| && Covers(level, n, end, slots, runs, files)
    ensures |Collect(slots, level)| == PopCount(n)
    decreases LEVELS - level
  {
    if level < LEVELS {
      CollectCount(level + 1, n / 2, if n % 2 == 0 then end else end - Pow(2, level), slots, runs, files);
    }
  }

  /** Some runs were collected that sort like the first `end` original runs. */
  ghost predicate Collected(paths: seq<Path>, end: nat, runs: seq<seq<Row>>, files: map<Path, RunFile>)
    requires end <= |runs|
  {
    AllFinished(paths, files) && StableSort(AllRows(paths, files)) == StableSort(Flatten(runs[..end]))
  }

  lemma CollectNone(runs: seq<seq<Row>>, files: map<Path, RunFile>)
    ensures Collected([], 0, runs, files)
  {
    assert Contents([], files) == [];
    assert runs[..0] == [];
  }

  lemma CollectOne(paths: seq<Path>, path: Path, start: nat, end: nat, runs: seq<seq<Row>>, files: map<Path, RunFile>)
    requires start <= end <= |runs| && Collected(paths, start, runs, files) && RunHolds(path, runs[start..end], files)
    ensures Collected(paths + [path], end, runs, files)
  {
    AppendRun(paths, path, runs[..start], runs[start..end], files);
    Rejoin(runs, start, end);
  }

  lemma CollectEven(level: nat, n: nat, end: nat, slots: Slots, runs: seq<seq<Row>>, files: map<Path, RunFile>)
    requires level < LEVELS && end <= |runs| && n % 2 == 0 && Covers(level, n, end, slots, runs, files)
    ensures Covers(level + 1, n / 2, end, slots, runs, files)
    ensures Collect(slots, level) == Collect(slots, level + 1)
  {
    assert Collect(slots, level + 1) + [] == Collect(slots, level + 1);
  }

  lemma CollectOdd(level: nat, n: nat, end: nat, slots: Slots, runs: seq<seq<Row>>, files: map<Path, RunFile>)
    requires level < LEVELS && end <= |runs| && n % 2 == 1 && Covers(level, n, end, slots, runs, files)
    ensures Pow(2, level) <= end && slots[level].Some?
    ensures RunHolds(slots[level].value, runs[end - Pow(2, level)..end], files)
    ensures Covers(level + 1, n / 2, end - Pow(2, level), slots, runs, files)
    ensures Collect(slots, level) == Collect(slots, level + 1) + [slots[level].value]
  {
  }

  /** Reading the slots from high to low gives all covered runs in push order. */
  lemma {:induction false} CollectCovers(level: nat, n: nat, end: nat, slots: Slots, runs: seq<seq<Row>>,
                                         files: map<Path, RunFile>)
    requires level <= LEVELS && end <= |runs| && Covers(level, n, end, slots, runs, files)
    ensures Collected(Collect(slots, level), end, runs, files)
    decreases LEVELS - level
  {
    if level == LEVELS {
      CollectNone(runs, files);
    } else {
      CollectLevel(level, n, end, slots, runs, files);
    }
  }

  lemma {:induction false} CollectLevel(level: nat, n: nat, end: nat, slots: Slots, runs: seq<seq<Row>>,
                                        files: map<Path, RunFile>)
    requires level < LEVELS && end <= |runs| && Covers(level, n, end, slots, runs, files)
    ensures Collected(Collect(slots, level), end, runs, files)
    decreases LEVELS - level, 0
  {
    hide Covers, Collect, Collected, RunHolds, Pow;
    if n % 2 == 0 {
      CollectEven(level, n, end, slots, runs, files);
      CollectCovers(level + 1, n / 2, end, slots, runs, files);
    } else {
      CollectOdd(level, n, end, slots, runs, files);
      CollectCovers(level + 1, n / 2, end - Pow(2, level), slots, runs, files);
      CollectOne(Collect(slots, level + 1), slots[level].value, end - Pow(2, level), end, runs, files);
    }
  }

  lemma Rejoin(runs: seq<seq<Row>>, start: nat, end: nat)
    requires start <= end <= |runs|
    ensures runs[..start] + runs[start..end] == runs[..end]
  {
  }

  // ----- the scratch files behind the frontier -----

  ghost function SlotPaths(slots: Slots): set<Path> {
    set i | 0 <= i < LEVELS && slots[i].Some? :: slots[i].value
  }

  /** No two slots name the same file. */
  ghost predicate DistinctSlots(slots: Slots) {
    forall i, j | 0 <= i < j < LEVELS && slots[i].Some? && slots[j].Some? :: slots[i] != slots[j]
  }

  /** Files named before stage `stage` of spill `ordinal`: its run is written at
      stage 0, the carry of level L at stage L + 1. */
  predicate NamedBefore(path: Path, ordinal: nat, stage: nat) {
    match path
    case Run(o) => o < ordinal || (o == ordinal && 0 < stage)
    case Carry(o, l) => o < ordinal || (o == ordinal && l + 1 < stage)
    case Merged(_, _) => false
  }

  /** The files on disk are those of the slots and of `extra`, each once. */
  ghost predicate Compact(slots: Slots, files: map<Path, RunFile>, ordinal: nat, stage: nat, extra: set<Path>) {
    && DistinctSlots(slots) && SlotPaths(slots) !! extra
    && files.Keys == SlotPaths(slots) + extra
    && forall p | p in files :: NamedBefore(p, ordinal, stage)
  }

  lemma {:induction false} CollectMember(slots: Slots, level: nat, i: nat)
    requires level <= LEVELS && i < |Collect(slots, level)|
    ensures exists l :: level <= l < LEVELS && slots[l] == Some(Collect(slots, level)[i])
    decreases LEVELS - level
  {
    if i < |Collect(slots, level + 1)| {
      CollectMember(slots, level + 1, i);
    } else {
      assert slots[level] == Some(Collect(slots, level)[i]);
    }
  }

  lemma {:induction false} CollectDistinct(slots: Slots, level: nat)
    requires level <= LEVELS && DistinctSlots(slots)
    ensures Distinct(Collect(slots, level))
    decreases LEVELS - level
  {
    if level < LEVELS {
      CollectDistinct(slots, level + 1);
      var older := Collect(slots, level + 1);
      forall i | 0 <= i < |older| && slots[level].Some? ensures older[i] != slots[level].value {
        CollectMember(slots, level + 1, i);
      }
    }
  }

  lemma {:induction false} CollectAll(slots: Slots, level: nat, l: nat)
    requires level <= l < LEVELS && slots[l].Some?
    ensures slots[l].value in PathSet(Collect(slots, level))
    decreases LEVELS - level
  {
    var older := Collect(slots, level + 1);
    if l == level {
      assert Collect(slots, level)[|older|] == slots[l].value;
    } else {
      CollectAll(slots, level + 1, l);
      var i :| 0 <= i < |older| && older[i] == slots[l].value;
      assert Collect(slots, level)[i] == slots[l].value;
    }
  }

  lemma {:induction false} CollectLength(slots: Slots, level: nat)
    requires level <= LEVELS
    ensures |Collect(slots, level)| <= LEVELS - level
    decreases LEVELS - level
  {
    if level < LEVELS {
      CollectLength(slots, level + 1);
    }
  }

  lemma CollectPaths(slots: Slots)
    ensures PathSet(Collect(slots, 0)) == SlotPaths(slots)
  {
    var paths := Collect(slots, 0);
    forall p ensures p in PathSet(paths) <==> p in SlotPaths(slots) {
      if p in PathSet(paths) {
        var i :| 0 <= i < |paths| && paths[i] == p;
        CollectMember(slots, 0, i);
      }
      if p in SlotPaths(slots) {
        var l :| 0 <= l < LEVELS && slots[l].Some? && slots[l].value == p;
        CollectAll(slots, 0, l);
      }
    }
  }

  lemma CollectSorts(slots: Slots, runs: seq<seq<Row>>, files: map<Path, RunFile>)
    requires Covers(0, |runs|, |runs|, slots, runs, files)
    ensures AllFinished(Collect(slots, 0), files)
    ensures StableSort(AllRows(Collect(slots, 0), files)) == StableSort(Flatten(runs))
    ensures |Collect(slots, 0)| == PopCount(|runs|)
  {
    CollectCovers(0, |runs|, |runs|, slots, runs, files);
    CollectCount(0, |runs|, |runs|, slots, runs, files);
    assert runs[..|runs|] == runs;
  }

  /** The collected frontier lists exactly the files on disk, each once. */
  lemma CollectIsLive(slots: Slots, runs: seq<seq<Row>>, files: map<Path, RunFile>)
    requires Covers(0, |runs|, |runs|, slots, runs, files)
    requires DistinctSlots(slots) && files.Keys == SlotPaths(slots)
    ensures Holding(Collect(slots, 0), files, StableSort(Flatten(runs)))
    ensures |Collect(slots, 0)| == PopCount(|runs|)
  {
    CollectSorts(slots, runs, files);
    CollectDistinct(slots, 0);
    CollectPaths(slots);
  }

  // ----- amortised rewrite cost -----

  /** floor(log2 n), 0 for n = 0. */
  function Log2(n: nat): nat {
    if n < 2 then 0 else 1 + Log2(n / 2)
  }

  lemma {:induction false} Log2Bounds(n: nat)
    requires n > 0
    ensures Pow(2, Log2(n)) <= n < Pow(2, Log2(n) + 1)
  {
    if n >= 2 {
      Log2Bounds(n / 2);
    }
  }

  lemma SplitCopies(low: nat, factor: nat, start: nat, end: nat, runs: seq<seq<Row>>, r: Row)
    requires low <= factor && start <= end <= |runs|
    ensures Copies(factor, Times(r, runs[..start])) + Copies(low, Times(r, runs[start..end])) <=
      Copies(factor, Times(r, runs[..end]))
  {
    hide Copies, Times;
    TimesSplit(r, start, end, runs);
    CopiesAdd(factor, Times(r, runs[..start]), Times(r, runs[start..end]));
    CopiesMore(low, factor, Times(r, runs[start..end]));
  }

  lemma {:induction false} WritesBound(level: nat, n: nat, end: nat, runs: seq<seq<Row>>, r: Row, factor: nat)
    requires level <= LEVELS && end <= |runs| && (n > 0 ==> level + 1 + Log2(n) <= factor)
    ensures Writes(level, n, end, runs, r) <= Copies(factor, Times(r, runs[..end]))
    decreases LEVELS - level
  {
    hide Writes, Copies, Times, Below;
    if level == LEVELS || n == 0 {
      WritesNothing(level, n, end, runs, r);
    } else {
      WritesBound(level + 1, n / 2, Below(level, n, end), runs, r, factor);
      WritesStep(level, n, end, runs, r, factor);
    }
  }

  lemma WritesStep(level: nat, n: nat, end: nat, runs: seq<seq<Row>>, r: Row, factor: nat)
    requires level < LEVELS && level + 1 <= factor && end <= |runs|
    requires var start := Below(level, n, end);
      Writes(level + 1, n / 2, start, runs, r) <= Copies(factor, Times(r, runs[..start]))
    ensures Writes(level, n, end, runs, r) <= Copies(factor, Times(r, runs[..end]))
  {
    hide Copies, Times, Below;
    SplitCopies(level + 1, factor, Below(level, n, end), end, runs, r);
  }

  lemma {:induction false} WritesNothing(level: nat, n: nat, end: nat, runs: seq<seq<Row>>, r: Row)
    requires level <= LEVELS && end <= |runs| && (n == 0 || level == LEVELS)
    ensures Writes(level, n, end, runs, r) == 0
    decreases LEVELS - level
  {
    if level < LEVELS {
      NoRuns(r, end, runs);
      CopiesOfOne(level + 1);
      WritesNothing(level + 1, 0, end, runs, r);
    }
  }

  lemma NoRuns(r: Row, end: nat, runs: seq<seq<Row>>)
    requires end <= |runs|
    ensures Times(r, runs[end..end]) == 0
  {
    assert runs[end..end] == [];
  }

  /** Ingesting n runs writes every row at most 1 + floor(log2 n) times. */
  lemma RewriteCost(n: nat, runs: seq<seq<Row>>, r: Row)
    requires n == |runs|
    ensures Writes(0, n, n, runs, r) <= (1 + Log2(n)) * Times(r, runs)
  {
    hide Writes, Copies, Times, Log2;
    WritesBound(0, n, n, runs, r, 1 + Log2(n));
    CopiesIsProduct(1 + Log2(n), Times(r, runs));
    assert runs[..n] == runs;
  }

  /** If every element of `a` occurs at most `k` times as often as in `b`, then
      `a` is at most `k` times as large. */
  lemma {:induction false} TotalBound(a: multiset<Row>, b: multiset<Row>, k: nat)
    requires forall r :: a[r] <= k * b[r]
    ensures |a| <= k * |b|
    decreases |b|
  {
    if b == multiset{} {
      assert forall r :: a[r] == 0;
      assert a == multiset{};
    } else {
      var q :| q in b;
      var a', b' := a[q := 0], b[q := 0];
      forall r ensures a'[r] <= k * b'[r] {
        assert r == q || (a'[r] == a[r] && b'[r] == b[r]);
      }
      TotalBound(a', b', k);
      Distribute(k, |b'|, b[q]);
    }
  }

  lemma Distribute(k: nat, x: nat, y: nat)
    ensures k * (x + y) == k * x + k * y
  {
  }

  // ----- exactly how often the rows of one slot were written -----

  /** A row that occurs in none of the covered runs was not written for them. */
  lemma {:induction false} WritesElsewhere(level: nat, n: nat, end: nat, runs: seq<seq<Row>>, r: Row)
    requires level <= LEVELS && end <= |runs| && Times(r, runs[..end]) == 0
    ensures Writes(level, n, end, runs, r) == 0
    decreases LEVELS - level
  {
    if level < LEVELS {
      TimesSplit(r, Below(level, n, end), end, runs);
      CopiesOfOne(level + 1);
      WritesElsewhere(level + 1, n / 2, Below(level, n, end), runs, r);
    }
  }

  /** The rows of a run occur among the rows it was merged from. */
  lemma HeldRow(path: Path, segment: seq<seq<Row>>, files: map<Path, RunFile>, r: Row)
    requires RunHolds(path, segment, files) && r in files[path].rows
    ensures Times(r, segment) >= 1
  {
    StableSortMultiset(Flatten(segment));
    assert r in multiset(StableSort(Flatten(segment)));
  }

  lemma TimesWithin(r: Row, start: nat, width: nat, end: nat, runs: seq<seq<Row>>)
    requires start + width <= end <= |runs|
    ensures Times(r, runs[start..start + width]) <= Times(r, runs[..end])
  {
    TimesSplit(r, start, start + width, runs);
    TimesSplit(r, start + width, end, runs);
  }

  lemma SlotRowOccurs(level: nat, n: nat, end: nat, slots: Slots, runs: seq<seq<Row>>, files: map<Path, RunFile>,
                      i: nat, r: Row)
    requires level <= i < LEVELS && end <= |runs| && Covers(level, n, end, slots, runs, files)
    requires slots[i].Some? && slots[i].value in files && r in files[slots[i].value].rows
    ensures Times(r, runs[..end]) >= 1
  {
    SlotRun(level, n, end, slots, runs, files, i);
    var first := SlotStart(level, n, end, i);
    HeldRow(slots[i].value, runs[first..first + Pow(2, i)], files, r);
    TimesWithin(r, first, Pow(2, i), end, runs);
  }

  /** A row that was pushed once and lies in slot i was written i + 1 times. */
  lemma {:induction false} SlotRowWrites(level: nat, n: nat, end: nat, slots: Slots, runs: seq<seq<Row>>,
                                         files: map<Path, RunFile>,
                                         i: nat, r: Row)
    requires level <= i < LEVELS && end <= |runs| && Covers(level, n, end, slots, runs, files)
    requires slots[i].Some? && slots[i].value in files && r in files[slots[i].value].rows
    requires Times(r, runs[..end]) == 1
    ensures Writes(level, n, end, runs, r) == i + 1
    decreases LEVELS - level
  {
    var start := Below(level, n, end);
    TimesSplit(r, start, end, runs);
    CopiesOfOne(level + 1);
    if level == i {
      HeldRow(slots[i].value, runs[start..end], files, r);
      WritesElsewhere(level + 1, n / 2, start, runs, r);
    } else {
      SlotRowOccurs(level + 1, n / 2, start, slots, runs, files, i, r);
      SlotRowWrites(level + 1, n / 2, start, slots, runs, files, i, r);
    }
  }
}
