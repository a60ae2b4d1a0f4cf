/** Carrying a new run up the frontier, as an increment of the spill count. */
module CarryChain {
  import opened Rows
  import opened StableOrder
  import opened Scratch
  import opened Merge
  import opened Cascade
  import opened Frontier

  /** Carry loop at `level`: slots below are empty, slots from `level` up hold
      runs 0..end, and `run` holds the 2^level runs after them. */
  ghost predicate Carrying(slots: Slots, runs: seq<seq<Row>>, files: map<Path, RunFile>,
                           ordinal: nat, level: nat, n: nat, end: nat, run: Path) {
    && level <= LEVELS && end <= |runs| && |runs| == ordinal + 1
    && Covers(level, n, end, slots, runs, files)
    && (forall i | 0 <= i < level :: slots[i].None?)
    && |runs| - end == Pow(2, level)
    && ordinal + 1 == Shift(n + 1, level)
    && RunHolds(run, runs[end..], files)
    && Compact(slots, files, ordinal, level + 1, {run})
  }

  /** How often each row was written so far, and the carry merges so far, with
      runs 0..end in slots and the rest carried at `level`. */
  ghost predicate CarryCost(runs: seq<seq<Row>>, ordinal: nat, level: nat, n: nat, end: nat, appended: multiset<Row>,
                            merges: nat) {
    && level <= LEVELS && end <= |runs|
    && (forall r :: appended[r] == Writes(level, n, end, runs, r) + Copies(level + 1, Times(r, runs[end..])))
    && merges + PopCount(n) == ordinal
  }

  /** The frontier between spills. */
  ghost predicate Settled(slots: Slots, runs: seq<seq<Row>>, files: map<Path, RunFile>) {
    && Covers(0, |runs|, |runs|, slots, runs, files)
    && Compact(slots, files, |runs|, 0, {})
  }

  ghost predicate SettledCost(runs: seq<seq<Row>>, appended: multiset<Row>, merges: nat) {
    && (forall r :: appended[r] == Writes(0, |runs|, |runs|, runs, r))
    && merges + PopCount(|runs|) == |runs|
  }

  lemma EmptyFrontier(slots: Slots)
    requires forall i | 0 <= i < LEVELS :: slots[i].None?
    ensures Settled(slots, [], map[]) && SettledCost([], multiset{}, 0)
  {
    EmptyCovers(LEVELS, 0, slots);
    forall r ensures Writes(0, 0, 0, [], r) == 0 {
      WritesNothing(0, 0, 0, [], r);
    }
  }

  lemma {:induction false} EmptyCovers(left: nat, level: nat, slots: Slots)
    requires left + level == LEVELS
    requires forall i | 0 <= i < LEVELS :: slots[i].None?
    ensures Covers(level, 0, 0, slots, [], map[])
    decreases left
  {
    if left > 0 {
      EmptyCovers(left - 1, level + 1, slots);
    }
  }

  lemma LastRun(runs: seq<seq<Row>>, batch: seq<Row>)
    ensures (runs + [batch])[..|runs|] == runs[..|runs|]
    ensures (runs + [batch])[|runs|..] == [batch]
    ensures Flatten([batch]) == batch
  {
    FlattenSnoc([], batch);
    assert [] + [batch] == [batch] && [] + batch == batch;
  }

  lemma EnterCompact(slots: Slots, files: map<Path, RunFile>, ordinal: nat, file: RunFile)
    requires Compact(slots, files, ordinal, 0, {})
    ensures Run(ordinal) !in files
    ensures Compact(slots, files[Run(ordinal) := file], ordinal, 1, {Run(ordinal)})
  {
    assert !NamedBefore(Run(ordinal), ordinal, 0);
  }

  /** The next run's name is free. */
  lemma NextRunIsNew(slots: Slots, runs: seq<seq<Row>>, files: map<Path, RunFile>)
    requires Settled(slots, runs, files)
    ensures Run(|runs|) !in files
  {
    EnterCompact(slots, files, |runs|, RunFile(0, []));
  }

  /** A freshly written run enters the carry loop at level 0. */
  lemma EnterCarry(slots: Slots, runs: seq<seq<Row>>, files: map<Path, RunFile>, batch: seq<Row>, files': map<Path,
                   RunFile>)
    requires Settled(slots, runs, files)
    requires files' == files[Run(|runs|) := RunFile(|batch|, StableSort(batch))]
    ensures Carrying(slots, runs + [batch], files', |runs|, 0, |runs|, |runs|, Run(|runs|))
  {
    LastRun(runs, batch);
    EnterCompact(slots, files, |runs|, RunFile(|batch|, StableSort(batch)));
    SlotFiles(0, |runs|, |runs|, slots, runs, files);
    CoversSame(0, |runs|, |runs|, slots, runs, files, slots, runs + [batch], files');
    StableSortMultiset(batch);
  }

  lemma EnterCarryCost(runs: seq<seq<Row>>, batch: seq<Row>, appended: multiset<Row>, merges: nat)
    requires SettledCost(runs, appended, merges)
    ensures CarryCost(runs + [batch], |runs|, 0, |runs|, |runs|, appended + multiset(batch), merges)
  {
    LastRun(runs, batch);
    forall r ensures Writes(0, |runs|, |runs|, runs + [batch], r) == Writes(0, |runs|, |runs|, runs, r) {
      WritesSame(0, |runs|, |runs|, runs, runs + [batch], r);
    }
  }

  lemma {:induction false} WritesSame(level: nat, n: nat, end: nat, runs: seq<seq<Row>>, runs': seq<seq<Row>>, r: Row)
    requires level <= LEVELS && end <= |runs| && end <= |runs'| && runs'[..end] == runs[..end]
    ensures Writes(level, n, end, runs', r) == Writes(level, n, end, runs, r)
    decreases LEVELS - level
  {
    hide Copies, Times, Below;
    if level < LEVELS {
      var start := Below(level, n, end);
      PrefixParts(runs, runs', start, end);
      WritesSame(level + 1, n / 2, start, runs, runs', r);
    }
  }

  lemma {:induction false} SlotFiles(level: nat, n: nat, end: nat, slots: Slots, runs: seq<seq<Row>>, files: map<Path,
                                     RunFile>)
    requires level <= LEVELS && end <= |runs| && Covers(level, n, end, slots, runs, files)
    ensures forall i | level <= i < LEVELS && slots[i].Some? :: slots[i].value in files
    decreases LEVELS - level
  {
    if level < LEVELS {
      SlotFiles(level + 1, n / 2, if n % 2 == 0 then end else end - Pow(2, level), slots, runs, files);
    }
  }

  /** An empty slot ends the carry. */
  lemma PlaceRun(slots: Slots, runs: seq<seq<Row>>, files: map<Path, RunFile>, ordinal: nat, level: nat, n: nat,
                 end: nat, run: Path)
    requires Carrying(slots, runs, files, ordinal, level, n, end, run) && level < LEVELS && slots[level].None?
    ensures Settled(slots[level := Some(run)], runs, files)
  {
    PlacedCovers(slots, runs, files, level, n, end, run);
    CoversDown(level, n + 1, |runs|, slots[level := Some(run)], runs, files);
    PlacedCompact(slots, files, ordinal, level, run);
  }

  lemma PlacedCovers(slots: Slots, runs: seq<seq<Row>>, files: map<Path, RunFile>, level: nat, n: nat, end: nat,
                     run: Path)
    requires level < LEVELS && end <= |runs| && slots[level].None? && Covers(level, n, end, slots, runs, files)
    requires |runs| - end == Pow(2, level) && RunHolds(run, runs[end..], files)
    ensures Covers(level, n + 1, |runs|, slots[level := Some(run)], runs, files)
  {
    var slots': Slots := slots[level := Some(run)];
    CoversSame(level + 1, n / 2, end, slots, runs, files, slots', runs, files);
    assert runs[end..|runs|] == runs[end..];
  }

  lemma PlacedCompact(slots: Slots, files: map<Path, RunFile>, ordinal: nat, level: nat, run: Path)
    requires Compact(slots, files, ordinal, level + 1, {run}) && level < LEVELS && slots[level].None?
    ensures Compact(slots[level := Some(run)], files, ordinal + 1, 0, {})
  {
    PlacedSlots(slots, level, run);
  }

  lemma PlacedSlots(slots: Slots, level: nat, run: Path)
    requires level < LEVELS && slots[level].None? && DistinctSlots(slots) && run !in SlotPaths(slots)
    ensures DistinctSlots(slots[level := Some(run)])
    ensures SlotPaths(slots[level := Some(run)]) == SlotPaths(slots) + {run}
  {
    var slots': Slots := slots[level := Some(run)];
    assert slots'[level] == Some(run);
    forall i | 0 <= i < LEVELS && slots[i].Some? ensures slots[i].value in SlotPaths(slots) && slots'[i] == slots[i] {}
  }

  lemma PlaceRunCost(runs: seq<seq<Row>>, ordinal: nat, level: nat, n: nat, end: nat, appended: multiset<Row>,
                     merges: nat)
    requires CarryCost(runs, ordinal, level, n, end, appended, merges) && level < LEVELS && n % 2 == 0
    requires |runs| == ordinal + 1 == Shift(n + 1, level) && |runs| - end == Pow(2, level)
    ensures SettledCost(runs, appended, merges)
  {
    forall r ensures appended[r] == Writes(0, |runs|, |runs|, runs, r) {
      PlacedRow(runs, level, n, end, r);
    }
    PopCountShift(n + 1, level);
  }

  lemma PlacedRow(runs: seq<seq<Row>>, level: nat, n: nat, end: nat, r: Row)
    requires level < LEVELS && n % 2 == 0 && end <= |runs| && |runs| - end == Pow(2, level)
    ensures Writes(0, Shift(n + 1, level), |runs|, runs, r) ==
      Writes(level, n, end, runs, r) + Copies(level + 1, Times(r, runs[end..]))
  {
    hide Copies, Times, Shift;
    assert runs[end..|runs|] == runs[end..];
    assert Below(level, n + 1, |runs|) == end && (n + 1) / 2 == n / 2;
    WritesDown(level, n + 1, |runs|, runs, r);
    WritesEmpty(level, n, end, runs, r);
  }

  /** An empty slot adds no writes. */
  lemma WritesEmpty(level: nat, n: nat, end: nat, runs: seq<seq<Row>>, r: Row)
    requires level < LEVELS && end <= |runs| && n % 2 == 0
    ensures Writes(level, n, end, runs, r) == Writes(level + 1, n / 2, end, runs, r)
  {
    NoRuns(r, end, runs);
    CopiesOfOne(level + 1);
  }

  lemma WritesOfDouble(level: nat, m: nat, end: nat, runs: seq<seq<Row>>, r: Row)
    requires level < LEVELS && end <= |runs|
    ensures Writes(level, 2 * m, end, runs, r) == Writes(level + 1, m, end, runs, r)
  {
    hide Writes, Copies, Times, Below;
    assert (2 * m) % 2 == 0 && (2 * m) / 2 == m;
    WritesEmpty(level, 2 * m, end, runs, r);
  }

  lemma {:induction false} WritesDown(level: nat, m: nat, end: nat, runs: seq<seq<Row>>, r: Row)
    requires level <= LEVELS && end <= |runs|
    ensures Writes(0, Shift(m, level), end, runs, r) == Writes(level, m, end, runs, r)
    decreases level
  {
    hide Writes;
    if level > 0 {
      WritesOfDouble(level - 1, m, end, runs, r);
      WritesDown(level - 1, 2 * m, end, runs, r);
    }
  }

  lemma MergedPair(older: Path, run: Path, a: seq<seq<Row>>, b: seq<seq<Row>>, files: map<Path, RunFile>)
    requires RunHolds(older, a, files) && RunHolds(run, b, files)
    ensures AllFinished([older, run], files)
    ensures Reference(false, AllRows([older, run], files)) == StableSort(Flatten(a + b))
  {
    StableSortIsStable(Flatten(a));
    StableSortIsStable(Flatten(b));
    SingleRun(older, files);
    SingleRun(run, files);
    AllRowsConcat([older], [run], files);
    assert [older] + [run] == [older, run];
    SortedIsFixed(StableSort(Flatten(a)));
    SortsExtend(StableSort(Flatten(a)), Flatten(a), Flatten(b));
    FlattenConcat(a, b);
  }

  /** The files after the runs of a full slot and of the carry were merged. */
  ghost function Carried(files: map<Path, RunFile>, older: Path, run: Path, out: Path, rows: seq<Row>): map<Path,
                         RunFile> {
    (files - {older, run})[out := RunFile(|rows|, rows)]
  }

  lemma CarryCompact(slots: Slots, files: map<Path, RunFile>, ordinal: nat, level: nat, run: Path, older: Path,
                     rows: seq<Row>)
    requires Compact(slots, files, ordinal, level + 1, {run}) && level < LEVELS && slots[level] == Some(older)
    ensures Carry(ordinal, level) !in files && older != run
    ensures Compact(slots[level := None], Carried(files, older, run, Carry(ordinal, level), rows),
                    ordinal, level + 2, {Carry(ordinal, level)})
  {
    ClearedSlots(slots, level, older);
    assert !NamedBefore(Carry(ordinal, level), ordinal, level + 1);
  }

  lemma CarryCovers(slots: Slots, runs: seq<seq<Row>>, files: map<Path, RunFile>, level: nat, n: nat, end: nat,
                    older: Path, run: Path, out: Path, rows: seq<Row>)
    requires level < LEVELS && end <= |runs| && Covers(level, n, end, slots, runs, files) && slots[level] == Some(older)
    requires DistinctSlots(slots) && run !in SlotPaths(slots) && out !in files
    ensures n % 2 == 1 && Pow(2, level) <= end
    ensures RunHolds(older, runs[end - Pow(2, level)..end], files)
    ensures Covers(level + 1, n / 2, end - Pow(2, level), slots[level := None], runs,
                   Carried(files, older, run, out, rows))
  {
    var start := end - Pow(2, level);
    ClearedSlots(slots, level, older);
    SlotFiles(level + 1, n / 2, start, slots, runs, files);
    CoversSame(level + 1, n / 2, start, slots, runs, files,
               slots[level := None], runs, Carried(files, older, run, out, rows));
  }

  lemma CarriedRows(runs: seq<seq<Row>>, start: nat, end: nat, older: Path, run: Path, files: map<Path, RunFile>)
    requires start <= end <= |runs|
    requires RunHolds(older, runs[start..end], files) && RunHolds(run, runs[end..], files)
    ensures AllFinished([older, run], files)
    ensures Reference(false, AllRows([older, run], files)) == StableSort(Flatten(runs[start..]))
  {
    assert runs[start..end] + runs[end..] == runs[start..];
    MergedPair(older, run, runs[start..end], runs[end..], files);
  }

  lemma CarryArithmetic(total: nat, level: nat, n: nat)
    requires n % 2 == 1 && total == Shift(n + 1, level)
    ensures total == Shift(n / 2 + 1, level + 1) && Pow(2, level + 1) == 2 * Pow(2, level)
  {
    assert 2 * (n / 2 + 1) == n + 1;
  }

  /** No carry gets past the last level. */
  lemma CarryEnds(slots: Slots, runs: seq<seq<Row>>, files: map<Path, RunFile>, ordinal: nat, n: nat, end: nat,
                  run: Path)
    requires Carrying(slots, runs, files, ordinal, LEVELS, n, end, run)
    ensures ordinal + 1 >= U64_LIMIT
  {
    CarryStops(ordinal, n);
  }

  /** Merging the older run of a full slot with the carried run, older first,
      carries a run of twice as many original runs to the next level. */
  lemma CarryOn(slots: Slots, runs: seq<seq<Row>>, files: map<Path, RunFile>, ordinal: nat, level: nat, n: nat,
                end: nat,
                run: Path, older: Path)
    requires Carrying(slots, runs, files, ordinal, level, n, end, run) && level < LEVELS && slots[level] == Some(older)
    ensures n % 2 == 1 && Pow(2, level) <= end && AllFinished([older, run], files)
    ensures Carry(ordinal, level) !in files && older != run
    ensures var merged := Reference(false, AllRows([older, run], files));
      && merged == StableSort(Flatten(runs[end - Pow(2, level)..]))
      && Carrying(slots[level := None], runs, Carried(files, older, run, Carry(ordinal, level), merged),
                  ordinal, level + 1, n / 2, end - Pow(2, level), Carry(ordinal, level))
  {
    CarryFromSlot(slots, runs, files, ordinal, level, n, end, run, older);
    CarriedRows(runs, end - Pow(2, level), end, older, run, files);
  }

  /** The two runs of a carry hold no more rows than all runs together. */
  lemma CarryFits(slots: Slots, runs: seq<seq<Row>>, files: map<Path, RunFile>, ordinal: nat, level: nat, n: nat,
                  end: nat,
                  run: Path, older: Path)
    requires Carrying(slots, runs, files, ordinal, level, n, end, run) && level < LEVELS && slots[level] == Some(older)
    ensures AllFinished([older, run], files) && |AllRows([older, run], files)| <= |Flatten(runs)|
  {
    hide StableSort, Flatten, AllRows, Covers, Compact;
    CarryOn(slots, runs, files, ordinal, level, n, end, run, older);
    RowsFrom(runs, end - Pow(2, level), AllRows([older, run], files));
  }

  lemma RowsFrom(runs: seq<seq<Row>>, start: nat, rows: seq<Row>)
    requires start <= |runs| && StableSort(rows) == StableSort(Flatten(runs[start..]))
    ensures |rows| <= |Flatten(runs)|
  {
    StableSortMultiset(rows);
    StableSortMultiset(Flatten(runs[start..]));
    FlattenConcat(runs[..start], runs[start..]);
    assert runs == runs[..start] + runs[start..];
  }

  /** What the carry finds in a full slot. */
  lemma FullSlot(slots: Slots, runs: seq<seq<Row>>, files: map<Path, RunFile>, ordinal: nat, level: nat, n: nat,
                 end: nat,
                 run: Path, older: Path)
    requires Carrying(slots, runs, files, ordinal, level, n, end, run) && level < LEVELS && slots[level] == Some(older)
    ensures n % 2 == 1 && Pow(2, level) <= end && DistinctSlots(slots) && run !in SlotPaths(slots)
  {
  }

  lemma CarryFromSlot(slots: Slots, runs: seq<seq<Row>>, files: map<Path, RunFile>, ordinal: nat, level: nat, n: nat,
                      end: nat,
                      run: Path, older: Path)
    requires Carrying(slots, runs, files, ordinal, level, n, end, run) && level < LEVELS && slots[level] == Some(older)
    ensures n % 2 == 1 && Pow(2, level) <= end && RunHolds(older, runs[end - Pow(2, level)..end], files)
    ensures Carry(ordinal, level) !in files && older != run
    ensures Carrying(slots[level := None], runs,
                     Carried(files, older, run, Carry(ordinal, level),
                             StableSort(Flatten(runs[end - Pow(2, level)..]))),
                     ordinal, level + 1, n / 2, end - Pow(2, level), Carry(ordinal, level))
  {
    hide StableSort, Flatten, Shift, Covers, Compact, Pow;
    FullSlot(slots, runs, files, ordinal, level, n, end, run, older);
    var rows := StableSort(Flatten(runs[end - Pow(2, level)..]));
    CarryCompact(slots, files, ordinal, level, run, older, rows);
    CarryCovers(slots, runs, files, level, n, end, older, run, Carry(ordinal, level), rows);
    CarryArithmetic(ordinal + 1, level, n);
  }

  lemma ClearedSlots(slots: Slots, level: nat, older: Path)
    requires level < LEVELS && slots[level] == Some(older) && DistinctSlots(slots)
    ensures DistinctSlots(slots[level := None])
    ensures SlotPaths(slots[level := None]) == SlotPaths(slots) - {older}
    ensures forall i | 0 <= i < LEVELS && i != level && slots[i].Some? ::
      slots[i].value != older && slots[i].value in SlotPaths(slots)
  {
    var slots': Slots := slots[level := None];
    assert older in SlotPaths(slots);
    forall i | 0 <= i < LEVELS && i != level && slots[i].Some?
      ensures slots[i].value != older && slots[i].value in SlotPaths(slots) && slots'[i] == slots[i]
    {
      assert slots[i] != slots[level];
    }
  }

  /** A carry merge writes every row of its two runs once more. */
  lemma CarryOnCost(runs: seq<seq<Row>>, ordinal: nat, level: nat, n: nat, end: nat, appended: multiset<Row>,
                    merges: nat)
    requires CarryCost(runs, ordinal, level, n, end, appended, merges)
    requires level < LEVELS && n % 2 == 1 && Pow(2, level) <= end
    ensures var start := end - Pow(2, level);
      CarryCost(runs, ordinal, level + 1, n / 2, start,
                appended + multiset(StableSort(Flatten(runs[start..]))), merges + 1)
  {
    var start := end - Pow(2, level);
    StableSortMultiset(Flatten(runs[start..]));
    forall r ensures appended[r] + Times(r, runs[start..]) ==
      Writes(level + 1, n / 2, start, runs, r) + Copies(level + 2, Times(r, runs[start..]))
    {
      CarriedRow(runs, level, n, start, end, r);
    }
  }

  lemma CarriedRow(runs: seq<seq<Row>>, level: nat, n: nat, start: nat, end: nat, r: Row)
    requires level < LEVELS && n % 2 == 1 && end <= |runs| && start + Pow(2, level) == end
    ensures Writes(level, n, end, runs, r) + Copies(level + 1, Times(r, runs[end..])) + Times(r, runs[start..]) ==
      Writes(level + 1, n / 2, start, runs, r) + Copies(level + 2, Times(r, runs[start..]))
  {
    assert runs[start..] == runs[start..end] + runs[end..];
    TimesConcat(r, runs[start..end], runs[end..]);
    CopiesAdd(level + 1, Times(r, runs[start..end]), Times(r, runs[end..]));
  }
}
