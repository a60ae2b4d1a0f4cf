/** A single sort in flight: rows pushed in, sorted values streamed out. */
module Session {
  import opened Rows
  import opened StableOrder
  import opened Scratch
  import opened Merge
  import opened Cascade
  import opened Frontier
  import opened CarryChain
  import opened Packing
  import opened Streams

  // ----- the in-place sort of a buffer -----

  function InsertByOrdinal(row: Row, rows: seq<Row>): seq<Row> {
    if rows == [] || Before(row, rows[0]) then [row] + rows else [rows[0]] + InsertByOrdinal(row, rows[1..])
  }

  lemma {:induction false} InsertByOrdinalPermutes(row: Row, rows: seq<Row>)
    ensures multiset(InsertByOrdinal(row, rows)) == multiset{row} + multiset(rows)
  {
    if rows == [] || Before(row, rows[0]) {
    } else {
      InsertByOrdinalPermutes(row, rows[1..]);
      assert rows == [rows[0]] + rows[1..];
    }
  }

  lemma {:induction false} InsertByOrdinalSorts(row: Row, rows: seq<Row>)
    requires InOrder(rows)
    ensures InOrder(InsertByOrdinal(row, rows))
  {
    if rows == [] || Before(row, rows[0]) {
    } else {
      var rest := InsertByOrdinal(row, rows[1..]);
      InsertByOrdinalSorts(row, rows[1..]);
      InsertByOrdinalPermutes(row, rows[1..]);
      forall r | r in rest ensures Before(rows[0], r) {
        assert r in multiset(rest);
      }
    }
  }

  /** Sort by key, then ordinal. Ordinals are distinct, so this order is strict
      and every comparison sort returns the same rows. */
  method UnstableSort(rows: seq<Row>) returns (sorted: seq<Row>)
    ensures multiset(sorted) == multiset(rows) && InOrder(sorted)
  {
    sorted := [];
    var n := 0;
    while n < |rows|
      invariant n <= |rows| && InOrder(sorted) && multiset(sorted) == multiset(rows[..n])
    {
      InsertByOrdinalSorts(rows[n], sorted);
      InsertByOrdinalPermutes(rows[n], sorted);
      sorted := InsertByOrdinal(rows[n], sorted);
      assert rows[..n + 1] == rows[..n] + [rows[n]];
      n := n + 1;
    }
    assert rows[..n] == rows;
  }

  lemma SplitAt(rows: seq<Row>, row: Row) returns (left: seq<Row>, right: seq<Row>)
    requires row in rows
    ensures rows == left + [row] + right
  {
    var i :| 0 <= i < |rows| && rows[i] == row;
    left, right := rows[..i], rows[i + 1..];
  }

  lemma LeaveOut(left: seq<Row>, row: Row, right: seq<Row>)
    ensures multiset(left + right) + multiset{row} == multiset(left + [row] + right)
    ensures Weight(left + right) + row.retained == Weight(left + [row] + right)
  {
    WeightConcat(left, right);
    WeightConcat(left + [row], right);
    WeightSnoc(left, row);
  }

  lemma {:induction false} WeightOfPermutation(a: seq<Row>, b: seq<Row>)
    requires multiset(a) == multiset(b)
    ensures Weight(a) == Weight(b) && |a| == |b|
    decreases |a|
  {
    assert |multiset(a)| == |multiset(b)|;
    if a != [] {
      var row := a[0];
      assert row in multiset(a) && row in multiset(b);
      var left, right := SplitAt(a, row);
      var left', right' := SplitAt(b, row);
      LeaveOut(left, row, right);
      LeaveOut(left', row, right');
      assert multiset(left + right) == multiset(a) - multiset{row};
      assert multiset(left' + right') == multiset(b) - multiset{row};
      WeightOfPermutation(left + right, left' + right');
    }
  }

  lemma PrefixSnoc(rows: seq<Row>, n: nat)
    requires n < |rows|
    ensures rows[..n + 1] == rows[..n] + [rows[n]]
    ensures multiset(rows[..n + 1]) == multiset(rows[..n]) + multiset{rows[n]}
  {
    assert rows[..n + 1] == rows[..n] + [rows[n]];
  }

  lemma NoWeight()
    ensures Weight([]) == 0
  {
  }

  /** How many runs a merge of this plan reads at once. */
  function FanIn(plan: Plan): (fan: nat)
    ensures fan >= 2
  {
    match plan
    case InMemory => 2
    case External(_, maxFanIn) => Max(maxFanIn, 2)
  }

  lemma SameSortSameRows(a: seq<Row>, b: seq<Row>)
    requires StableSort(a) == StableSort(b)
    ensures multiset(a) == multiset(b)
  {
    StableSortMultiset(a);
    StableSortMultiset(b);
  }

  /** Rows carry their push number. */
  ghost predicate Numbered(rows: seq<Row>) {
    forall i | 0 <= i < |rows| :: rows[i].ordinal == i
  }

  /** A row of a numbered sequence occurs in it once. */
  lemma PushedOnce(runs: seq<seq<Row>>, buffered: seq<Row>, r: Row)
    requires Numbered(Flatten(runs) + buffered) && Times(r, runs) >= 1
    ensures Times(r, runs) == 1
  {
    var all := Flatten(runs);
    assert forall i | 0 <= i < |all| :: all[i] == (all + buffered)[i];
    OccursOnce(all, r);
  }

  lemma {:induction false} OccursOnce(rows: seq<Row>, r: Row)
    requires Numbered(rows)
    ensures multiset(rows)[r] <= 1
  {
    if rows != [] {
      var last := |rows| - 1;
      OccursOnce(rows[..last], r);
      assert rows == rows[..last] + [rows[last]];
      if r == rows[last] {
        assert r !in rows[..last];
        assert r !in multiset(rows[..last]);
      }
    }
  }

  lemma EarlierRow(early: seq<Row>, late: seq<Row>, older: Row, newer: Row)
    requires Numbered(early + late) && older in early && newer in late
    ensures older.ordinal < newer.ordinal
  {
    var i :| 0 <= i < |early| && early[i] == older;
    var j :| 0 <= j < |late| && late[j] == newer;
    assert (early + late)[i] == older && (early + late)[|early| + j] == newer;
  }

  lemma TimesInTail(r: Row, b: nat, c: nat, d: nat, runs: seq<seq<Row>>)
    requires b <= c <= d <= |runs|
    ensures Times(r, runs[c..d]) <= Times(r, runs[b..])
  {
    TimesConcat(r, runs[b..c], runs[c..d]);
    TimesConcat(r, runs[b..c] + runs[c..d], runs[d..]);
    assert runs[b..] == runs[b..c] + runs[c..d] + runs[d..];
  }

  /** Rows of an earlier stretch of runs were pushed before those of a later one. */
  lemma RowsInOrder(runs: seq<seq<Row>>, buffered: seq<Row>, a: nat, b: nat, c: nat, d: nat, older: Row, newer: Row)
    requires Numbered(Flatten(runs) + buffered) && a <= b <= c <= d <= |runs|
    requires Times(older, runs[a..b]) >= 1 && Times(newer, runs[c..d]) >= 1
    ensures older.ordinal < newer.ordinal
  {
    hide *;
    TimesWithin(older, a, b - a, b, runs);
    TimesInTail(newer, b, c, d, runs);
    OccursIn(older, runs[..b]);
    OccursIn(newer, runs[b..]);
    SplitAccepted(runs, buffered, b);
    EarlierRow(Flatten(runs[..b]), Flatten(runs[b..]) + buffered, older, newer);
  }

  lemma OccursIn(r: Row, runs: seq<seq<Row>>)
    requires Times(r, runs) >= 1
    ensures r in Flatten(runs)
  {
  }

  lemma SplitAccepted(runs: seq<seq<Row>>, buffered: seq<Row>, b: nat)
    requires b <= |runs|
    ensures Flatten(runs) + buffered == Flatten(runs[..b]) + (Flatten(runs[b..]) + buffered)
  {
    hide *;
    FlattenConcat(runs[..b], runs[b..]);
    assert runs[..b] + runs[b..] == runs;
    ConcatAssociates(Flatten(runs[..b]), Flatten(runs[b..]), buffered);
  }

  lemma ConcatAssociates(a: seq<Row>, b: seq<Row>, c: seq<Row>)
    ensures (a + b) + c == a + (b + c)
  {
  }

  lemma HeldInOrder(path: Path, a: nat, v: nat, path': Path, c: nat, w: nat, ledger: Ledger, files: map<Path, RunFile>,
                    older: Row, newer: Row)
    requires Numbered(ledger.Accepted()) && a + v <= c
    requires HoldsRuns(path, a, v, ledger.runs, files) && older in files[path].rows
    requires HoldsRuns(path', c, w, ledger.runs, files) && newer in files[path'].rows
    ensures older.ordinal < newer.ordinal
  {
    HeldRow(path, ledger.runs[a..a + v], files, older);
    HeldRow(path', ledger.runs[c..c + w], files, newer);
    RowsInOrder(ledger.runs, ledger.buffered, a, a + v, c, c + w, older, newer);
  }

  class SortSession {
    const plan: Plan
    const dedup: bool
    const layout: Layout
    const disk: Disk
    const budget: Budget
    const spills: array<Option<Path>>
    var buffer: seq<Row>
    var capacity: nat
    var bufferCharge: nat
    var bufferBytes: nat
    var nextRow: nat
    var nextRun: nat
    var failed: bool
    var metadataReserved: bool
    ghost var ledger: Ledger  // accepted rows, by run and in push order
    ghost var merges: nat     // carry merges so far

    /** The buffer holds the buffered rows of the ledger and is fully charged,
        beside `extra` bytes that a call in progress holds. */
    ghost predicate Accounted(extra: nat)
      reads this, budget`held
    {
      && multiset(buffer) == multiset(ledger.buffered) && bufferBytes == Weight(buffer)
      && |buffer| <= capacity && capacity != 1 && bufferCharge == capacity * layout.rowInline
      && budget.held == Held() + extra && budget.held <= budget.limit < U64_LIMIT
    }

    /** Metadata, buffer capacity and the retained bytes of the buffered rows. */
    function Held(): nat
      reads this
    {
      (if metadataReserved then layout.metadata else 0) + bufferCharge + bufferBytes
    }

    /** Failed or cancelled operations and refused reservations so far. */
    ghost function Troubles(): nat
      reads disk`faults, budget`refusals
    {
      disk.faults + budget.refusals.all
    }

    /** Other holders or a shrunk limit have refused this sort something that its
        fixed limit had room for. */
    ghost predicate Squeezed(before: Refusals)
      reads budget`refusals
    {
      !budget.alone && budget.refusals.squeezed > before.squeezed
    }

    /** The fixed limit has room for the first capacity of an empty buffer. */
    predicate RoomToGrow()
      reads budget`held
    {
      budget.held + 2 * layout.rowInline <= budget.limit
    }

    ghost predicate Healthy()
      reads `ledger, `merges, `nextRow, `nextRun, disk`files, disk`appended, spills
    {
      && spills.Length == LEVELS
      && |ledger.runs| == nextRun
      && Settled(spills[..], ledger.runs, disk.files)
      && SettledCost(ledger.runs, disk.appended, merges)
      && Numbered(ledger.Accepted()) && |ledger.Accepted()| == nextRow
    }

    ghost predicate ValidWith(extra: nat)
      reads this, disk`files, disk`appended, budget`held, spills
    {
      && spills.Length == LEVELS && nextRun < U64_LIMIT && nextRow < U64_LIMIT
      && Accounted(extra) && (nextRow > 0 ==> metadataReserved)
      && (!failed ==> Healthy())
    }

    ghost predicate Valid()
      reads this, disk`files, disk`appended, budget`held, spills
    {
      ValidWith(0)
    }

    constructor (plan: Plan, dedup: bool, layout: Layout, limit: nat, alone: bool)
      requires limit < U64_LIMIT
      ensures Valid() && !failed && ledger == Ledger([], [])
      ensures budget.held == 0 && budget.limit == limit && budget.alone == alone
      ensures !metadataReserved && disk.files == map[]
      ensures this.plan == plan && this.dedup == dedup && this.layout == layout
      ensures fresh(disk) && fresh(budget) && fresh(spills)
    {
      this.plan, this.dedup, this.layout := plan, dedup, layout;
      disk := new Disk();
      budget := new Budget(limit, alone);
      spills := new Option<Path>[64](_ => None);
      buffer, capacity, bufferCharge, bufferBytes := [], 0, 0, 0;
      nextRow, nextRun, failed, metadataReserved := 0, 0, false, false;
      ledger, merges := Ledger([], []), 0;
      new;
      EmptyFrontier(spills[..]);
    }

    /** Write the buffer, already sorted, to the new run `path`. */
    method WriteRun(path: Path) returns (done: Outcome<()>)
      requires path !in disk.files
      modifies disk
      ensures Explained(done, disk.faults - old(disk.faults), 0, |buffer| >= U64_LIMIT)
      ensures done.Ok? ==> disk.files == old(disk.files)[path := RunFile(|buffer|, buffer)]
      ensures done.Ok? ==> disk.appended == old(disk.appended) + multiset(buffer)
    {
      hide RunWriter.Valid, RunWriter.Written;
      done := disk.Await();  // the scratch directory
      if !done.Ok? {
        return;
      }
      done := disk.Create(path);
      if !done.Ok? {
        return;
      }
      var writer := new RunWriter(disk, path);
      var n := 0;
      while n < |buffer|
        invariant n <= |buffer| && writer.Valid() && writer.disk == disk && writer.path == path
        invariant writer.Written() == buffer[..n]
        invariant SameExcept(disk.files, old(disk.files), path)
        invariant disk.appended == old(disk.appended) + multiset(buffer[..n]) && disk.faults == old(disk.faults)
      {
        done := writer.WriteRow(buffer[n]);
        if !done.Ok? {
          return;
        }
        PrefixSnoc(buffer, n);
        n := n + 1;
      }
      assert buffer[..n] == buffer;
      done := writer.Finish();
      if done.Ok? {
        OverwriteSame(disk.files, old(disk.files), path);
      }
    }

    /** Sort the buffer, write it as run `ordinal` and release it. */
    method SpillBuffer(ordinal: nat, ghost extra: nat) returns (done: Outcome<()>)
      requires Accounted(extra) && OrdinalsIncrease(ledger.buffered) && buffer != []
      requires Run(ordinal) !in disk.files
      modifies `buffer, `capacity, `bufferCharge, `bufferBytes, `ledger, disk, budget`held
      ensures Explained(done, disk.faults - old(disk.faults), 0, |old(ledger.buffered)| >= U64_LIMIT)
      ensures Accounted(extra)
      ensures done.Ok? ==>
        var batch := old(ledger.buffered);
        && ledger == old(ledger).Spilled() && buffer == [] && bufferCharge == 0
        && disk.files == old(disk.files)[Run(ordinal) := RunFile(|batch|, StableSort(batch))]
        && disk.appended == old(disk.appended) + multiset(batch)
      ensures !done.Ok? ==> ledger == old(ledger)
      ensures done.Ok? ==> RoomToGrow() && capacity == 0
    {
      hide StableSort, OrdinalsIncrease, InOrder, Weight, Flatten;
      NoWeight();
      assert bufferCharge >= 2 * layout.rowInline by {
        MulMonotone(2, layout.rowInline, capacity, layout.rowInline);
      }
      var sorted := UnstableSort(buffer);
      WeightOfPermutation(buffer, sorted);
      WeightOfPermutation(sorted, ledger.buffered);
      OrdinalSortIsStable(sorted, ledger.buffered);
      buffer := sorted;
      done := WriteRun(Run(ordinal));
      if !done.Ok? {
        return;
      }
      budget.Release(bufferBytes + bufferCharge);
      buffer, capacity, bufferCharge, bufferBytes := [], 0, 0, 0;
      ledger := ledger.Spilled();
    }

    /** Merge the run of a full slot with the carried run into the next level's run. */
    method CarryPast(ordinal: nat, level: nat, ghost n: nat, ghost end: nat, run: Path) returns (done: Outcome<()>)
      requires spills.Length == LEVELS && level < LEVELS && spills[level].Some?
      requires Carrying(spills[..], ledger.runs, disk.files, ordinal, level, n, end, run)
      requires CarryCost(ledger.runs, ordinal, level, n, end, disk.appended, merges)
      modifies spills, disk, budget, `merges
      ensures Explained(done, disk.faults - old(disk.faults),
                        Since(old(budget.refusals), budget.refusals), |Flatten(ledger.runs)| >= U64_LIMIT)
      ensures budget.held == old(budget.held)
      ensures done.Ok? ==> Pow(2, level) <= end
      ensures done.Ok? ==>
        && Carrying(spills[..], ledger.runs, disk.files, ordinal, level + 1, n / 2, end - Pow(2, level),
                    Carry(ordinal, level))
        && CarryCost(ledger.runs, ordinal, level + 1, n / 2, end - Pow(2, level), disk.appended, merges)
    {
      hide Carrying, CarryCost, Reference, Carried, StableSort;
      var older := spills[level].value;
      CarryOn(spills[..], ledger.runs, disk.files, ordinal, level, n, end, run, older);
      CarryOnCost(ledger.runs, ordinal, level, n, end, disk.appended, merges);
      CarryFits(spills[..], ledger.runs, disk.files, ordinal, level, n, end, run, older);
      ghost var slots := spills[..];
      spills[level] := None;
      assert spills[..] == slots[level := None];
      done := MergePair(older, run, Carry(ordinal, level));
      merges := merges + 1;
    }

    /** Put the carried run into an empty slot, which ends the spill. */
    method FillSlot(ordinal: nat, level: nat, ghost n: nat, ghost end: nat, run: Path)
      requires spills.Length == LEVELS && level < LEVELS && spills[level].None?
      requires Carrying(spills[..], ledger.runs, disk.files, ordinal, level, n, end, run)
      requires CarryCost(ledger.runs, ordinal, level, n, end, disk.appended, merges)
      modifies spills, `failed
      ensures !failed && spills[..] == old(spills[..])[level := Some(run)]
      ensures Settled(spills[..], ledger.runs, disk.files) && SettledCost(ledger.runs, disk.appended, merges)
    {
      PlaceRun(spills[..], ledger.runs, disk.files, ordinal, level, n, end, run);
      PlaceRunCost(ledger.runs, ordinal, level, n, end, disk.appended, merges);
      ghost var slots := spills[..];
      spills[level] := Some(run);
      assert spills[..] == slots[level := Some(run)];
      failed := false;
    }

    /** Carry the run just written up the frontier to the first empty slot. */
    method CarryUp(ordinal: nat) returns (done: Outcome<()>)
      requires spills.Length == LEVELS && ordinal + 1 < U64_LIMIT
      requires Carrying(spills[..], ledger.runs, disk.files, ordinal, 0, ordinal, ordinal, Run(ordinal))
      requires CarryCost(ledger.runs, ordinal, 0, ordinal, ordinal, disk.appended, merges)
      modifies spills, disk, budget, `merges, `failed
      ensures Explained(done, disk.faults - old(disk.faults),
                        Since(old(budget.refusals), budget.refusals), |Flatten(ledger.runs)| >= U64_LIMIT)
      ensures budget.held == old(budget.held)
      ensures done.Ok? ==> !failed && Settled(spills[..], ledger.runs, disk.files)
      ensures done.Ok? ==> SettledCost(ledger.runs, disk.appended, merges)
      ensures !done.Ok? ==> failed == old(failed)
    {
      hide Carrying, CarryCost, Settled, SettledCost;
      var run, level := Run(ordinal), 0;
      ghost var n: nat, end: nat := ordinal, ordinal;
      while level < LEVELS
        invariant level <= LEVELS
        invariant Carrying(spills[..], ledger.runs, disk.files, ordinal, level, n, end, run)
        invariant CarryCost(ledger.runs, ordinal, level, n, end, disk.appended, merges)
        invariant budget.held == old(budget.held) && failed == old(failed)
        invariant disk.faults == old(disk.faults) && budget.refusals == old(budget.refusals)
      {
        if spills[level].None? {
          FillSlot(ordinal, level, n, end, run);
          return Ok(());
        }
        done := CarryPast(ordinal, level, n, end, run);
        if !done.Ok? {
          return;
        }
        n, end := n / 2, end - Pow(2, level);
        run, level := Carry(ordinal, level), level + 1;
      }
      CarryEnds(spills[..], ledger.runs, disk.files, ordinal, n, end, run);
      assert false;
    }

    method MergePair(older: Path, run: Path, out: Path) returns (done: Outcome<()>)
      requires AllFinished([older, run], disk.files) && out !in disk.files
      modifies disk, budget
      ensures Explained(done, disk.faults - old(disk.faults),
                        Since(old(budget.refusals), budget.refusals),
                        |AllRows([older, run], old(disk.files))| >= U64_LIMIT)
      ensures budget.held == old(budget.held)
      ensures done.Ok? ==>
        var merged := Reference(false, AllRows([older, run], old(disk.files)));
        disk.files == Carried(old(disk.files), older, run, out, merged) &&
        disk.appended == old(disk.appended) + multiset(merged)
    {
      StableSortMultiset(AllRows([older, run], disk.files));
      done := MergeGroupToFile(disk, budget, layout, [older, run], out, false);
      assert PathSet([older, run]) == {older, run} by {
        assert [older, run][0] == older && [older, run][1] == run;
      }
    }

    lemma BufferedOrdinals()
      requires Numbered(ledger.Accepted())
      ensures OrdinalsIncrease(ledger.buffered)
    {
      var all, spilled := ledger.Accepted(), |Flatten(ledger.runs)|;
      forall i | 0 <= i < |ledger.buffered| ensures ledger.buffered[i] == all[spilled + i] {}
    }

    /** Spill the buffer as run `ordinal`; the session stays failed on the way. */
    method SpillRun(ordinal: nat, ghost extra: nat) returns (done: Outcome<()>)
      requires spills.Length == LEVELS && ordinal == |ledger.runs| && ordinal + 1 < U64_LIMIT
      requires Accounted(extra) && buffer != []
      requires Settled(spills[..], ledger.runs, disk.files)
      requires SettledCost(ledger.runs, disk.appended, merges) && Numbered(ledger.Accepted())
      modifies `buffer, `capacity, `bufferCharge, `bufferBytes, `ledger, `merges, `failed, spills, disk, budget
      ensures Explained(done, disk.faults - old(disk.faults),
                        Since(old(budget.refusals), budget.refusals), |old(ledger.Accepted())| >= U64_LIMIT)
      ensures Accounted(extra)
      ensures done.Ok? ==> !failed && ledger == old(ledger).Spilled() && buffer == [] && bufferCharge == 0
      ensures done.Ok? ==> Settled(spills[..], ledger.runs, disk.files)
      ensures done.Ok? ==> SettledCost(ledger.runs, disk.appended, merges)
      ensures done.Ok? ==> RoomToGrow() && capacity == 0
      ensures !done.Ok? ==> failed == old(failed)
    {
      hide Carrying, CarryCost, Settled, SettledCost, Numbered, StableSort, OrdinalsIncrease, Weight, Flatten;
      ghost var runs, batch := ledger.runs, ledger.buffered;
      WeightOfPermutation(buffer, batch);
      BufferedOrdinals();
      NextRunIsNew(spills[..], runs, disk.files);
      EnterCarry(spills[..], runs, disk.files, batch, disk.files[Run(ordinal) := RunFile(|batch|, StableSort(batch))]);
      EnterCarryCost(runs, batch, disk.appended, merges);
      FlattenSnoc(runs, batch);
      done := SpillBuffer(ordinal, extra);
      if !done.Ok? {
        return;
      }
      done := CarryUp(ordinal);
    }

    /** Sort and write the current buffer to a new run file. A failure or a
        cancellation at any await leaves the session failed. */
    method Spill(ghost extra: nat) returns (done: Outcome<()>)
      requires ValidWith(extra) && !failed
      modifies `buffer, `capacity, `bufferCharge, `bufferBytes, `ledger, `merges, `failed, `nextRun, spills, disk,
        budget
      ensures Explained(done, disk.faults - old(disk.faults),
                        Since(old(budget.refusals), budget.refusals), old(nextRun) + 1 == U64_LIMIT)
      ensures ValidWith(extra)
      ensures done.Ok? <==> !failed
      ensures old(nextRun) <= nextRun <= old(nextRun) + 1
      ensures !done.Ok? ==> nextRun == old(nextRun) + 1 || (done == Err(RunLimit) && old(nextRun) + 1 == U64_LIMIT)
      ensures done.Ok? ==> ledger == old(ledger).Spilled() && buffer == []
      ensures done.Ok? && old(buffer) != [] ==> bufferCharge == 0 && RoomToGrow() && capacity == 0
    {
      hide Settled, SettledCost, Numbered, Flatten, Weight, Ledger.Accepted;
      WeightOfPermutation(buffer, ledger.buffered);
      if buffer == [] {
        return Ok(());
      }
      failed := true;
      var ordinal := nextRun;
      if ordinal + 1 == U64_LIMIT {
        return Err(RunLimit);
      }
      nextRun := ordinal + 1;
      SpilledAccepts(ledger);
      done := SpillRun(ordinal, extra);
    }

    method ReserveMetadata() returns (ok: bool)
      requires ValidWith(0)
      modifies `metadataReserved, budget
      ensures ValidWith(0) && (ok <==> metadataReserved)
      ensures Since(old(budget.refusals), budget.refusals) == if ok then 0 else 1
    {
      hide Healthy, Weight;
      ok := true;
      if !metadataReserved {
        ok := budget.Reserve(layout.metadata);
        metadataReserved := ok;
      }
    }

    /** Make room for one more row; a new capacity is charged before the old
        one is released. */
    method GrowBuffer(ghost extra: nat) returns (done: Outcome<()>)
      requires ValidWith(extra)
      modifies `capacity, `bufferCharge, budget
      ensures ValidWith(extra) && Explained(done, 0, Since(old(budget.refusals), budget.refusals), false)
      ensures done.Ok? ==> |buffer| < capacity
      ensures capacity == if done.Ok? && |buffer| == old(capacity) then Max(old(capacity), 1) * 2 else old(capacity)
      ensures !done.Ok? ==>
        var bytes := Max(old(capacity), 1) * 2 * layout.rowInline;
        old(budget.held) + bytes > budget.limit || Squeezed(old(budget.refusals))
      ensures capacity != old(capacity) ==> budget.peak == Max(old(budget.peak), old(budget.held) + bufferCharge)
    {
      hide Healthy, Weight;
      if |buffer| < capacity {
        return Ok(());
      }
      var grown := Max(capacity, 1) * 2;
      var reserved := budget.Reserve(grown * layout.rowInline);
      if !reserved {
        return Err(MemoryBudget);
      }
      budget.Release(bufferCharge);
      capacity, bufferCharge := grown, grown * layout.rowInline;
      done := Ok(());
    }

    /** Put an accepted row into the buffer. */
    method Admit(row: Row)
      requires ValidWith(row.retained) && !failed && |buffer| < capacity
      requires row.ordinal == nextRow && nextRow + 1 < U64_LIMIT && metadataReserved
      modifies `buffer, `bufferBytes, `nextRow, `ledger
      ensures Valid() && ledger == Ledger(old(ledger).runs, old(ledger).buffered + [row])
      ensures buffer != [] && bufferBytes == Weight(ledger.buffered)
    {
      hide Settled, SettledCost, Weight, Flatten;
      WeightOfPermutation(buffer, ledger.buffered);
      WeightSnoc(buffer, row);
      nextRow := nextRow + 1;
      buffer := buffer + [row];
      assert bufferBytes + row.retained < U64_LIMIT;  // the checked addition cannot fail
      bufferBytes := bufferBytes + row.retained;
      ghost var before := ledger.Accepted();
      ledger := Ledger(ledger.runs, ledger.buffered + [row]);
      assert ledger.Accepted() == before + [row];
      WeightOfPermutation(buffer, ledger.buffered);
    }

    /** Push one row with its retained bytes. `before` and `after` are the
        readings of the live limit that the two threshold tests observe. */
    method PushWithSize(key: Key, value: Value, estimated: nat, before: nat, after: nat) returns (done: Outcome<()>)
      requires Valid()
      modifies this, spills, disk, budget
      ensures Valid()
      ensures old(failed) ==> done == Err(SessionFailed) && failed
      ensures old(failed) ==> disk.faults == old(disk.faults) && budget.refusals == old(budget.refusals)
      ensures !old(failed) ==>
        Explained(done, disk.faults - old(disk.faults), Since(old(budget.refusals), budget.refusals),
                  old(nextRow) + 1 == U64_LIMIT || old(nextRun) + 2 >= U64_LIMIT)
      ensures done.Ok? ==>
        var row := Row(key, value, |old(ledger).Accepted()|, Max(estimated, layout.rowInline));
        && !failed && ledger == old(ledger).Push(row, BufferLimit(plan, before), BufferLimit(plan, after))
        && ledger.Accepted() == old(ledger).Accepted() + [row] && metadataReserved
      ensures !done.Ok? && !failed ==>
        var row := Row(key, value, |old(ledger).Accepted()|, Max(estimated, layout.rowInline));
        ledger == old(ledger) || ledger == old(ledger).MakeRoom(row, BufferLimit(plan, before))
      ensures !done.Ok? && !failed ==> ledger.Accepted() == old(ledger).Accepted()
      ensures done == Cancelled ==> failed
      ensures !old(failed) && failed ==>
        nextRun > old(nextRun) || (done == Err(RunLimit) && old(nextRun) + 2 >= U64_LIMIT)
      ensures !done.Ok? && !failed && ledger != old(ledger) ==>
        Squeezed(old(budget.refusals)) || (done == Err(RunLimit) && old(nextRow) + 1 == U64_LIMIT)
    {
      hide Healthy, BufferLimit, Accounted, Weight, Ledger.Accepted;
      if failed {
        return Err(SessionFailed);
      }
      var metadata := ReserveMetadata();
      if !metadata {
        return Err(MemoryBudget);
      }
      var bytes := Max(estimated, layout.rowInline);
      ghost var row := Row(key, value, |ledger.Accepted()|, bytes);
      var charged := ChargeRow(bytes);
      if !charged {
        return Err(MemoryBudget);
      }
      SpilledAccepts(ledger);
      done := SpillFor(bytes, before, row);
      if done.Ok? {
        done := AdmitRow(key, value, bytes, after);
        PushAccepts(old(ledger), row, BufferLimit(plan, before), BufferLimit(plan, after));
      }
    }

    method ChargeRow(bytes: nat) returns (ok: bool)
      requires Valid()
      modifies budget
      ensures if ok then ValidWith(bytes) else Valid()
      ensures Since(old(budget.refusals), budget.refusals) == if ok then 0 else 1
    {
      ok := budget.Reserve(bytes);
    }

    /** Let go of the charge of a row that is not taken. */
    method DropCharge(bytes: nat)
      requires ValidWith(bytes)
      modifies budget`held
      ensures Valid()
    {
      budget.Release(bytes);
    }

    /** Spill first if a row of `bytes`, already charged, would overflow the threshold. */
    method SpillFor(bytes: nat, before: nat, ghost row: Row) returns (done: Outcome<()>)
      requires ValidWith(bytes) && !failed && row.retained == bytes
      modifies `buffer, `capacity, `bufferCharge, `bufferBytes, `ledger, `merges, `failed, `nextRun, spills, disk,
        budget
      ensures if done.Ok? then ValidWith(bytes) else Valid()
      ensures done.Ok? <==> !failed
      ensures Explained(done, disk.faults - old(disk.faults), Since(old(budget.refusals), budget.refusals),
                        old(nextRun) + 1 == U64_LIMIT)
      ensures old(nextRun) <= nextRun <= old(nextRun) + 1
      ensures !done.Ok? ==> nextRun == old(nextRun) + 1 || (done == Err(RunLimit) && old(nextRun) + 1 == U64_LIMIT)
      ensures done.Ok? ==> ledger == old(ledger).MakeRoom(row, BufferLimit(plan, before))
      ensures done.Ok? ==> ledger == old(ledger) || (RoomToGrow() && capacity == 0)
    {
      hide Settled, SettledCost, Numbered, Flatten, Ledger.Accepted, BufferLimit;
      WeightOfPermutation(buffer, ledger.buffered);
      if buffer != [] && bufferBytes + bytes > BufferLimit(plan, before) {
        done := Spill(bytes);
        if !done.Ok? {
          DropCharge(bytes);
        }
      } else {
        done := Ok(());
      }
    }

    /** The second half of a push, with the row's charge already held. */
    method AdmitRow(key: Key, value: Value, bytes: nat, after: nat) returns (done: Outcome<()>)
      requires ValidWith(bytes) && !failed && metadataReserved
      modifies `buffer, `capacity, `bufferCharge, `bufferBytes, `ledger, `merges, `failed, `nextRun, `nextRow, spills,
        disk, budget
      ensures Explained(done, disk.faults - old(disk.faults),
                        Since(old(budget.refusals), budget.refusals),
                        old(nextRow) + 1 == U64_LIMIT || old(nextRun) + 1 == U64_LIMIT)
      ensures Valid()
      ensures done.Ok? ==>
        var row := Row(key, value, |old(ledger).Accepted()|, bytes);
        var grown := Ledger(old(ledger).runs, old(ledger).buffered + [row]);
        !failed && ledger == if Weight(grown.buffered) >= BufferLimit(plan, after) then grown.Spilled() else grown
      ensures !done.Ok? && !failed ==> ledger == old(ledger)
      ensures done == Cancelled ==> failed
      ensures nextRun >= old(nextRun)
      ensures failed ==> nextRun > old(nextRun) || (done == Err(RunLimit) && old(nextRun) + 1 == U64_LIMIT)
      ensures !done.Ok? && !failed && old(RoomToGrow()) && old(capacity) == 0 ==>
        Squeezed(old(budget.refusals)) || (done == Err(RunLimit) && old(nextRow) + 1 == U64_LIMIT)
    {
      hide Settled, SettledCost, Numbered, Accounted, Weight, BufferLimit, Ledger.Accepted;
      done := GrowBuffer(bytes);
      if !done.Ok? {
        DropCharge(bytes);
        return;
      }
      var row := Row(key, value, nextRow, bytes);
      if nextRow + 1 == U64_LIMIT {
        DropCharge(bytes);
        return Err(RunLimit);
      }
      Admit(row);
      if bufferBytes >= BufferLimit(plan, after) {
        done := Spill(0);
      }
    }

    /** Slot i of a usable session is full iff bit i of its spill count is set. */
    lemma SlotFullIffBitSet(i: nat)
      requires Valid() && !failed && i < LEVELS
      ensures spills[i].Some? <==> Bit(nextRun, i)
    {
      var slots: Slots := spills[..];
      SlotIffBit(0, nextRun, nextRun, slots, ledger.runs, disk.files, i);
      assert slots[i] == spills[i];
    }

    /** A full slot i holds the stable sort of 2^i consecutive spilled runs. */
    lemma SlotHoldsPowerOfTwo(i: nat)
      requires Valid() && !failed && i < LEVELS && spills[i].Some?
      ensures HoldsRuns(spills[i].value, SlotStart(0, nextRun, nextRun, i), Pow(2, i), ledger.runs, disk.files)
    {
      SlotRun(0, nextRun, nextRun, spills[..], ledger.runs, disk.files, i);
    }

    /** Between calls the scratch files of a usable session are exactly its live
        runs, one per set bit of the spill count, and hold all spilled rows. */
    lemma ScratchIsLive()
      requires Valid() && !failed
      ensures disk.files.Keys == SlotPaths(spills[..]) && |disk.files| == PopCount(nextRun) <= 64
      ensures Live(Collect(spills[..], 0), disk.files)
      ensures multiset(AllRows(Collect(spills[..], 0), disk.files)) == multiset(Flatten(ledger.runs))
    {
      CollectIsLive(spills[..], ledger.runs, disk.files);
      CollectLength(spills[..], 0);
      PathSetSize(Collect(spills[..], 0));
      assert |disk.files| == |disk.files.Keys|;
      SameSortSameRows(AllRows(Collect(spills[..], 0), disk.files), Flatten(ledger.runs));
    }

    /** Every row in the file of slot i was written exactly i + 1 times. */
    lemma SlotRowsWritten(i: nat, r: Row)
      requires Valid() && !failed && i < LEVELS && spills[i].Some?
      requires spills[i].value in disk.files && r in disk.files[spills[i].value].rows
      ensures disk.appended[r] == i + 1
    {
      var n := nextRun;
      SlotRowOccurs(0, n, n, spills[..], ledger.runs, disk.files, i, r);
      assert ledger.runs[..n] == ledger.runs;
      PushedOnce(ledger.runs, ledger.buffered, r);
      SlotRowWrites(0, n, n, spills[..], ledger.runs, disk.files, i, r);
    }

    /** Amortised cost: after n spills, n - popcount(n) carry merges were made, and
        every spilled row was written at most 1 + floor(log2 n) times. */
    lemma IngestionCost()
      requires Valid() && !failed
      ensures merges + PopCount(nextRun) == nextRun
      ensures forall r :: disk.appended[r] <= (1 + Log2(nextRun)) * Times(r, ledger.runs)
      ensures |disk.appended| <= (1 + Log2(nextRun)) * |Flatten(ledger.runs)|
    {
      forall r ensures disk.appended[r] <= (1 + Log2(nextRun)) * multiset(Flatten(ledger.runs))[r] {
        RewriteCost(nextRun, ledger.runs, r);
      }
      TotalBound(disk.appended, multiset(Flatten(ledger.runs)), 1 + Log2(nextRun));
    }

    /** Slots hold consecutive stretches of the accepted rows, higher slots older
        ones: every row of slot j was pushed before every row of slot i < j. */
    lemma SlotOrdinalsIncrease(i: nat, j: nat, older: Row, newer: Row)
      requires Valid() && !failed && i < j < LEVELS && spills[i].Some? && spills[j].Some?
      requires spills[i].value in disk.files && newer in disk.files[spills[i].value].rows
      requires spills[j].value in disk.files && older in disk.files[spills[j].value].rows
      ensures older.ordinal < newer.ordinal
    {
      var n, slots := nextRun, spills[..];
      SlotsInOrder(0, n, n, slots, ledger.runs, disk.files, i, j);
      SlotHoldsPowerOfTwo(i);
      SlotHoldsPowerOfTwo(j);
      HeldInOrder(slots[j].value, SlotStart(0, n, n, j), Pow(2, j), slots[i].value, SlotStart(0, n, n, i), Pow(2, i),
                  ledger, disk.files, older, newer);
    }

    /** Sort the buffer in place. */
    method SortBuffer()
      requires Valid()
      modifies `buffer
      ensures Valid() && InOrder(buffer)
    {
      hide Healthy, InOrder, Weight;
      var sorted := UnstableSort(buffer);
      WeightOfPermutation(buffer, sorted);
      buffer := sorted;
    }

    lemma BufferMatches()
      requires Valid()
      ensures buffer == [] <==> ledger.buffered == []
      ensures !failed ==> |ledger.runs| == nextRun
    {
      hide Settled, SettledCost, Numbered, Weight;
      WeightOfPermutation(buffer, ledger.buffered);
    }

    /** Stream the sorted buffer of a session that has spilled nothing. */
    method FinishBuffered() returns (stream: MemoryStream)
      requires Valid() && !failed && ledger.runs == [] && InOrder(buffer)
      ensures fresh(stream) && stream.Valid() && !stream.ended && stream.budget == budget
      ensures stream.Pending() == Values(Reference(dedup, ledger.Accepted()))
    {
      hide Settled;
      BufferedOrdinals();
      OrdinalSortIsStable(buffer, ledger.buffered);
      assert ledger.Accepted() == ledger.buffered;
      stream := new MemoryStream(dedup, budget, buffer, bufferCharge, if metadataReserved then layout.metadata else 0);
    }

    lemma NothingSpilled()
      requires Valid() && !failed && ledger.runs == []
      ensures disk.files == map[]
    {
      hide SettledCost, Numbered;
      var paths := Collect(spills[..], 0);
      CollectIsLive(spills[..], ledger.runs, disk.files);
      assert paths == [];
      assert disk.files.Keys == PathSet(paths) == {};
    }

    /** Finish the sort. The stream it returns will yield the reference output
        of the accepted rows, whether or not anything was spilled. */
    method Finish() returns (result: Outcome<ValueStream>, passes: nat)
      requires Valid()
      modifies this, spills, disk, budget
      ensures old(failed) ==> result == Err(SessionFailed)
      ensures !old(failed) ==>
        Explained(result, disk.faults - old(disk.faults), Since(old(budget.refusals), budget.refusals),
                  old(nextRun) + 1 == U64_LIMIT)
      ensures passes <= 5
      ensures result.Ok? ==> (result.value.Buffered? <==> old(ledger).runs == [])
      ensures result.Ok? && result.value.Merging? ==>
        var fan := if plan.External? then Max(plan.maxFanIn, 2) else 2;
        && |result.value.merge.state.sources| <= fan
        && LeastPasses(PopCount(|old(ledger).Spilled().runs|), fan, passes)
      ensures result.Ok? && result.value.Buffered? ==>
        var stream := result.value.memory;
        && fresh(stream) && stream.Valid() && !stream.ended && stream.budget == budget && disk.files == map[]
        && stream.Pending() == Values(Reference(dedup, old(ledger).Accepted()))
      ensures result.Ok? && result.value.Merging? ==>
        var stream := result.value.merge;
        && fresh(stream) && stream.Valid() && stream.open && !stream.ended && stream.yielded == []
        && fresh(stream.state) && stream.state.disk == disk && stream.state.budget == budget
        && stream.expected == Values(Reference(dedup, old(ledger).Accepted()))
    {
      hide Healthy, Accounted, InOrder, Reference, Values, Depth, PopCount, Flatten, Weight,
        MemoryStream.Valid, MemoryStream.Pending, MergeStream.Valid, LeastPasses;
      passes := 0;
      if failed {
        return Err(SessionFailed), passes;
      }
      SortBuffer();
      BufferMatches();
      if nextRun == 0 {
        NothingSpilled();
        var memory := FinishBuffered();
        return Ok(Buffered(memory)), passes;
      }
      SpilledAccepts(ledger);
      if buffer != [] {
        var spilled := Spill(0);
        if !spilled.Ok? {
          return spilled.Failure(), passes;
        }
      }
      BufferMatches();
      assert ledger.Accepted() == Flatten(ledger.runs);
      result, passes := FinishMerge(FanIn(plan));
      if result.Ok? {
        DepthIsLeastPasses(PopCount(|ledger.runs|), FanIn(plan));
      }
    }

    /** The collected frontier is what the cascade starts from. */
    lemma FrontierReady()
      requires Valid() && !failed
      ensures Holding(Collect(spills[..], 0), disk.files, StableSort(Flatten(ledger.runs)))
      ensures NamesFree(disk.files, 0, 0) && |Collect(spills[..], 0)| == PopCount(|ledger.runs|) <= 64
      ensures |StableSort(Flatten(ledger.runs))| < U64_LIMIT
    {
      hide SettledCost, Numbered, PopCount, Collect, Covers, StableSort, Flatten, Holding;
      CollectIsLive(spills[..], ledger.runs, disk.files);
      CollectLength(spills[..], 0);
      StableSortMultiset(Flatten(ledger.runs));
    }

    /** Open the final merge of the runs that the cascade has left. */
    method OpenMerge(paths: seq<Path>, ghost rows: seq<Row>) returns (result: Outcome<MergeStream>)
      requires Holding(paths, disk.files, StableSort(rows)) && budget.held == Held()
      modifies budget, disk`faults
      ensures Explained(result, disk.faults - old(disk.faults), Since(old(budget.refusals), budget.refusals), false)
      ensures result.Ok? ==>
        var stream := result.value;
        && fresh(stream) && stream.Valid() && stream.open && !stream.ended && stream.yielded == []
        && fresh(stream.state) && stream.state.disk == disk && stream.state.budget == budget
        && stream.expected == Values(Reference(dedup, rows)) && |stream.state.sources| <= |paths|
    {
      hide StableSort, AllFinished, Emitted, Values, Flatten, MergeState.Valid, MergeState.Pending, MergeState.Charge;
      var state := Open(disk, budget, layout, dedup, paths);
      if !state.Ok? {
        return state.Failure();
      }
      var stream := new MergeStream(state.value, Held());
      result := Ok(stream);
    }

    /** Cascade the frontier and open the final merge. */
    method FinishMerge(fan: nat) returns (result: Outcome<ValueStream>, passes: nat)
      requires Valid() && !failed && buffer == [] && fan >= 2
      modifies disk, budget
      ensures Explained(result, disk.faults - old(disk.faults), Since(old(budget.refusals), budget.refusals), false)
      ensures passes <= 5
      ensures result.Ok? ==> result.value.Merging?
      ensures result.Ok? ==>
        && passes == Depth(PopCount(|ledger.runs|), fan) && |result.value.merge.state.sources| <= fan
      ensures result.Ok? ==>
        var stream := result.value.merge;
        && fresh(stream) && stream.Valid() && stream.open && !stream.ended && stream.yielded == []
        && fresh(stream.state) && stream.state.disk == disk && stream.state.budget == budget
        && stream.expected == Values(Reference(dedup, Flatten(ledger.runs)))
    {
      hide Healthy, Holding, NamesFree, PopCount, Depth, StableSort, Reference, Values, Flatten, Collect,
        MergeStream.Valid;
      FrontierReady();
      var frontier := Collect(spills[..], 0);
      FivePassesSuffice(|frontier|, fan);
      var runs, count := Fold(disk, budget, layout, frontier, fan, StableSort(Flatten(ledger.runs)));
      passes := count;
      if !runs.Ok? {
        return runs.Failure(), passes;
      }
      var stream := OpenMerge(runs.value, Flatten(ledger.runs));
      result := if stream.Ok? then Ok(Merging(stream.value)) else stream.Failure();
    }
  }

  // ----- a whole sort -----

  /** One call of PushWithSize with the limit readings it will observe. */
  datatype Request = Request(key: Key, value: Value, estimated: nat, before: nat, after: nat)

  /** Accepted rows after one more push, numbered by acceptance. */
  function Extended(layout: Layout, rows: seq<Row>, request: Request, ok: bool): seq<Row> {
    if ok then rows + [Requested(layout, request, |rows|)] else rows
  }

  /** The rows of the pushes that returned Ok. */
  function AcceptedRows(layout: Layout, requests: seq<Request>, oks: seq<bool>): seq<Row>
    requires |oks| == |requests|
  {
    if requests == [] then []
    else
      var n := |requests| - 1;
      Extended(layout, AcceptedRows(layout, requests[..n], oks[..n]), requests[n], oks[n])
  }

  /** The requests whose pushes returned Ok, in order. */
  function Chosen(requests: seq<Request>, oks: seq<bool>): seq<Request>
    requires |oks| == |requests|
  {
    if requests == [] then []
    else (if oks[0] then [requests[0]] else []) + Chosen(requests[1..], oks[1..])
  }

  /** `rows` carry the keys and values of `chosen`, in order, numbered, and each
      weighs its estimate but at least an inline row. */
  ghost predicate Carries(layout: Layout, rows: seq<Row>, chosen: seq<Request>) {
    && |rows| == |chosen|
    && forall i | 0 <= i < |rows| ::
         && rows[i].key == chosen[i].key && rows[i].value == chosen[i].value && rows[i].ordinal == i
         && rows[i].retained >= chosen[i].estimated && rows[i].retained >= layout.rowInline
         && (rows[i].retained == chosen[i].estimated || rows[i].retained == layout.rowInline)
  }

  lemma {:induction false} ChosenSnoc(requests: seq<Request>, oks: seq<bool>)
    requires |oks| == |requests| > 0
    ensures var n := |requests| - 1;
      Chosen(requests, oks) == Chosen(requests[..n], oks[..n]) + (if oks[n] then [requests[n]] else [])
  {
    var n := |requests| - 1;
    if n > 0 {
      ChosenSnoc(requests[1..], oks[1..]);
      assert requests[1..][..n - 1] == requests[..n][1..] && oks[1..][..n - 1] == oks[..n][1..];
    }
  }

  /** The accepted rows are, in order, the requests whose pushes were Ok. */
  lemma {:induction false} AcceptedAre(layout: Layout, requests: seq<Request>, oks: seq<bool>)
    requires |oks| == |requests|
    ensures Carries(layout, AcceptedRows(layout, requests, oks), Chosen(requests, oks))
  {
    if requests != [] {
      var n := |requests| - 1;
      AcceptedAre(layout, requests[..n], oks[..n]);
      ChosenSnoc(requests, oks);
    }
  }

  /** Nothing failed, was cancelled or was refused so far, and every push was Ok. */
  ghost predicate Steady(session: SortSession, oks: seq<bool>)
    reads session, session.disk`files, session.disk`appended, session.budget`held, session.spills
  {
    && session.Valid() && !session.failed && session.nextRow == |oks| && NoEmptyRun(session.ledger.runs)
    && forall i | 0 <= i < |oks| :: oks[i]
  }

  lemma SteadyRuns(session: SortSession, oks: seq<bool>)
    requires Steady(session, oks)
    ensures session.nextRun <= |oks|
  {
    FewerRunsThanRows(session.ledger.runs);
  }

  /** The row that a request pushes after `rows` were accepted. */
  function Requested(layout: Layout, request: Request, rows: nat): Row {
    Row(request.key, request.value, rows, Max(request.estimated, layout.rowInline))
  }

  /** What became of a push that left the session usable. */
  ghost function AttemptOf(session: SortSession, request: Request, before: Ledger, after: Ledger, ok: bool): Attempt {
    Attempt(Requested(session.layout, request, |before.Accepted()|),
            BufferLimit(session.plan, request.before), BufferLimit(session.plan, request.after),
            if ok then Taken else if after == before then Refused else RefusedAfterSpill)
  }

  /** Push one request onto a session. If nothing goes wrong, it is accepted. */
  method PushOne(session: SortSession, request: Request, ghost oks: seq<bool>) returns (ok: bool)
    requires session.Valid()
    modifies session, session.disk, session.budget, session.spills
    ensures session.Valid() && (old(session.failed) ==> session.failed)
    ensures !session.failed ==>
      session.ledger == old(session.ledger).Try(AttemptOf(session, request, old(session.ledger), session.ledger, ok))
    ensures !session.failed ==>
      session.ledger.Accepted() == Extended(session.layout, old(session.ledger).Accepted(), request, ok)
    ensures session.budget.refusals.squeezed >= old(session.budget.refusals.squeezed)
    ensures !session.failed && |old(session.ledger).Accepted()| + 1 < U64_LIMIT ==>
      var attempt := AttemptOf(session, request, old(session.ledger), session.ledger, ok);
      attempt.ending == RefusedAfterSpill ==> session.Squeezed(old(session.budget.refusals))
    ensures session.Troubles() >= old(session.Troubles())
    ensures old(Steady(session, oks)) && |oks| + 2 < U64_LIMIT && session.Troubles() == old(session.Troubles()) ==>
      ok && Steady(session, oks + [true])
  {
    hide BufferLimit, Weight, Settled, SettledCost, Numbered, Ledger.Push, Ledger.MakeRoom, Ledger.Accepted, NoEmptyRun;
    ghost var ledger, steady := session.ledger, Steady(session, oks);
    if steady {
      SteadyRuns(session, oks);
    }
    var done := session.PushWithSize(request.key, request.value, request.estimated, request.before, request.after);
    ok := done.Ok?;
    if steady && ok {
      PushFillsRuns(ledger, Requested(session.layout, request, |ledger.Accepted()|),
                    BufferLimit(session.plan, request.before), BufferLimit(session.plan, request.after));
    }
  }

  /** The threshold that every push reads, twice, is `limit`. */
  ghost predicate SteadyReadings(plan: Plan, requests: seq<Request>, limit: nat) {
    forall i | 0 <= i < |requests| ::
      BufferLimit(plan, requests[i].before) == limit && BufferLimit(plan, requests[i].after) == limit
  }

  /** `attempts` are the pushes of `requests`, taken as `oks` says. */
  ghost predicate Follows(session: SortSession, requests: seq<Request>, oks: seq<bool>, attempts: seq<Attempt>) {
    && |attempts| == |oks| <= |requests|
    && forall i | 0 <= i < |oks| ::
         && (attempts[i].ending == Taken <==> oks[i])
         && attempts[i].before == BufferLimit(session.plan, requests[i].before)
         && attempts[i].after == BufferLimit(session.plan, requests[i].after)
  }

  lemma FollowsConstant(session: SortSession, requests: seq<Request>, oks: seq<bool>, attempts: seq<Attempt>,
                        limit: nat)
    requires Follows(session, requests, oks, attempts) && SteadyReadings(session.plan, requests, limit)
    ensures Constant(attempts, limit)
  {
  }

  lemma TrySnoc(attempts: seq<Attempt>, attempt: Attempt)
    ensures TryAll(attempts + [attempt]) == TryAll(attempts).Try(attempt)
    ensures Cuts(attempts + [attempt]) == Cuts(attempts) + (if attempt.ending == RefusedAfterSpill then 1 else 0)
  {
    assert (attempts + [attempt])[..|attempts|] == attempts;
  }

  /** Before the first push. */
  lemma NothingPushed(session: SortSession, requests: seq<Request>)
    requires session.Valid() && !session.failed && session.ledger == Ledger([], [])
    ensures Follows(session, requests, [], []) && session.ledger == TryAll([]) && Steady(session, [])
    ensures Cuts([]) == 0
    ensures session.ledger.Accepted() == AcceptedRows(session.layout, [], [])
  {
  }

  lemma FollowsSnoc(session: SortSession, requests: seq<Request>, oks: seq<bool>, attempts: seq<Attempt>,
                    before: Ledger, after: Ledger, ok: bool)
    requires Follows(session, requests, oks, attempts) && |oks| < |requests|
    ensures Follows(session, requests, oks + [ok], attempts + [AttemptOf(session, requests[|oks|], before, after, ok)])
  {
  }

  /** What steady readings and the pushes' endings say of the runs. */
  lemma PackedUnderSteadyReadings(session: SortSession, requests: seq<Request>, oks: seq<bool>,
                                  attempts: seq<Attempt>, limit: nat)
    requires Follows(session, requests, oks, attempts) && |oks| == |requests|
    requires limit >= 1 && SteadyReadings(session.plan, requests, limit)
    ensures Packed(TryAll(attempts), limit, Cuts(attempts)) && FewRuns(TryAll(attempts), limit, Cuts(attempts))
  {
    FollowsConstant(session, requests, oks, attempts, limit);
    AttemptsPack(attempts, limit);
    PackedIsFew(TryAll(attempts), limit, Cuts(attempts));
  }

  lemma {:induction false} AcceptedCount(layout: Layout, requests: seq<Request>, oks: seq<bool>)
    requires |oks| == |requests|
    ensures |AcceptedRows(layout, requests, oks)| <= |requests|
  {
    if requests != [] {
      AcceptedCount(layout, requests[..|requests| - 1], oks[..|requests| - 1]);
    }
  }

  /** Pushes were refused after their spill at most as often as other holders or a
      shrunk limit have squeezed the sort; a sort that is alone sees no such push. */
  ghost predicate CutsExplained(session: SortSession, attempts: seq<Attempt>, squeezed: nat)
    reads session.budget`refusals
  {
    && squeezed + Cuts(attempts) <= session.budget.refusals.squeezed
    && (session.budget.alone ==> Cuts(attempts) == 0)
  }

  /** Push every request. `attempts` records what became of each push. Under steady
      readings the session is packed but for one light pair per push that was
      refused after its spill, and only a squeeze by other holders or by a shrunk
      limit causes such a push. */
  method PushEach(session: SortSession, requests: seq<Request>) returns (oks: seq<bool>, ghost attempts: seq<Attempt>)
    requires session.Valid() && !session.failed && session.ledger == Ledger([], [])
    modifies session, session.disk, session.budget, session.spills
    ensures session.Valid() && |oks| == |requests|
    ensures !session.failed ==> session.ledger.Accepted() == AcceptedRows(session.layout, requests, oks)
    ensures !session.failed ==> Follows(session, requests, oks, attempts) && session.ledger == TryAll(attempts)
    ensures !session.failed ==> forall limit: nat | limit >= 1 && SteadyReadings(session.plan, requests, limit) ::
      Packed(session.ledger, limit, Cuts(attempts)) && FewRuns(session.ledger, limit, Cuts(attempts))
    ensures !session.failed && |requests| < U64_LIMIT ==>
      CutsExplained(session, attempts, old(session.budget.refusals.squeezed))
    ensures session.Troubles() >= old(session.Troubles())
    ensures session.Troubles() == old(session.Troubles()) && |requests| + 1 < U64_LIMIT ==> Steady(session, oks)
  {
    hide Packed, FewRuns, Follows, Steady, SteadyReadings, AcceptedRows, Extended, TryAll, AttemptOf, Cuts,
      Ledger.Accepted,
      SortSession.Valid;
    oks, attempts := [], [];
    NothingPushed(session, requests);
    while |oks| < |requests|
      invariant |oks| <= |requests| && session.Valid()
      invariant !session.failed ==> session.ledger.Accepted() == AcceptedRows(session.layout, requests[..|oks|], oks)
      invariant !session.failed ==> Follows(session, requests, oks, attempts) && session.ledger == TryAll(attempts)
      invariant !session.failed && |requests| < U64_LIMIT ==>
        CutsExplained(session, attempts, old(session.budget.refusals.squeezed))
      invariant session.Troubles() >= old(session.Troubles())
      invariant session.Troubles() == old(session.Troubles()) && |requests| + 1 < U64_LIMIT ==> Steady(session, oks)
    {
      ghost var ledger := session.ledger;
      AcceptedCount(session.layout, requests[..|oks|], oks);
      var ok := PushOne(session, requests[|oks|], oks);
      AcceptedSnoc(session.layout, requests[..|oks|], requests[|oks|], oks, ok);
      assert requests[..|oks| + 1] == requests[..|oks|] + [requests[|oks|]];
      ghost var attempt := AttemptOf(session, requests[|oks|], ledger, session.ledger, ok);
      TrySnoc(attempts, attempt);
      if !session.failed {
        FollowsSnoc(session, requests, oks, attempts, ledger, session.ledger, ok);
      }
      attempts := attempts + [attempt];
      oks := oks + [ok];
    }
    assert requests[..|oks|] == requests;
    if !session.failed {
      forall limit: nat | limit >= 1 && SteadyReadings(session.plan, requests, limit)
        ensures Packed(session.ledger, limit, Cuts(attempts)) && FewRuns(session.ledger, limit, Cuts(attempts))
      {
        PackedUnderSteadyReadings(session, requests, oks, attempts, limit);
      }
    }
  }

  lemma AcceptedSnoc(layout: Layout, requests: seq<Request>, request: Request, oks: seq<bool>, ok: bool)
    requires |oks| == |requests|
    ensures var earlier := AcceptedRows(layout, requests, oks);
      AcceptedRows(layout, requests + [request], oks + [ok]) == Extended(layout, earlier, request, ok)
  {
    assert (requests + [request])[..|requests|] == requests && (oks + [ok])[..|oks|] == oks;
  }

  /** Finish a session and drain its stream. */
  method Deliver(session: SortSession) returns (values: seq<Value>, clean: bool)
    requires session.Valid() && !session.failed
    modifies session, session.disk, session.budget, session.spills
    ensures values <= Values(Reference(session.dedup, old(session.ledger).Accepted()))
    ensures clean ==> values == Values(Reference(session.dedup, old(session.ledger).Accepted()))
    ensures clean ==> session.disk.files == map[] && session.budget.held == 0
    ensures session.Troubles() >= old(session.Troubles())
    ensures session.Troubles() == old(session.Troubles()) && old(session.nextRun) + 1 < U64_LIMIT ==> clean
  {
    values, clean := [], false;
    var result, _ := session.Finish();
    match result {
      case Ok(Buffered(stream)) =>
        values := CollectMemory(stream);
        clean := true;
      case Ok(Merging(stream)) =>
        var dropped;
        values, clean, dropped := CollectMerge(stream);
      case _ =>
    }
  }

  /** Push everything, finish and drain. For every plan, every sequence of limit
      readings and every schedule of failures: what comes out is a prefix of the
      reference output of the accepted rows, and all of it on a clean end. If no
      file operation failed or was cancelled and no reservation was refused,
      every row is accepted and the end is clean. */
  method SortAll(session: SortSession, requests: seq<Request>)
    returns (oks: seq<bool>, values: seq<Value>, clean: bool)
    requires session.Valid() && !session.failed && session.ledger == Ledger([], [])
    modifies session, session.disk, session.budget, session.spills
    ensures |oks| == |requests|
    ensures Carries(session.layout, AcceptedRows(session.layout, requests, oks), Chosen(requests, oks))
    ensures values <= Values(Reference(session.dedup, AcceptedRows(session.layout, requests, oks)))
    ensures clean ==> values == Values(Reference(session.dedup, AcceptedRows(session.layout, requests, oks)))
    ensures clean ==> session.disk.files == map[] && session.budget.held == 0
    ensures session.Troubles() == old(session.Troubles()) && |requests| + 1 < U64_LIMIT ==>
      clean && forall i | 0 <= i < |oks| :: oks[i]
  {
    ghost var attempts;
    oks, attempts := PushEach(session, requests);
    AcceptedAre(session.layout, requests, oks);
    if session.failed {
      return oks, [], false;
    }
    ghost var steady := Steady(session, oks);
    if steady {
      SteadyRuns(session, oks);
    }
    values, clean := Deliver(session);
  }
}
