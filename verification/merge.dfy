/** The heap-driven k-way merge over run files and its compaction into one run. */
module Merge {
  import opened Rows
  import opened StableOrder
  import opened Scratch

  /** One merge input: the buffered head, and a reader that remembers its place. */
  datatype MergeSource = MergeSource(head: Option<Row>, path: Path, position: nat, remaining: nat, keyCharge: nat)

  datatype HeapEntry = HeapEntry(key: Key, idx: nat)

  datatype LastKey = LastKey(key: Key, charge: nat)

  predicate EntryLess(a: HeapEntry, b: HeapEntry) {
    a.key < b.key || (a.key == b.key && a.idx <= b.idx)
  }

  lemma {:induction false} LeastEntryExists(heap: set<HeapEntry>)
    requires heap != {}
    ensures exists e :: e in heap && forall x | x in heap :: EntryLess(e, x)
    decreases heap
  {
    var e :| e in heap;
    if heap - {e} == {} {
      assert forall x | x in heap :: x == e || x in heap - {e};
    } else {
      LeastEntryExists(heap - {e});
      var m :| m in heap - {e} && forall x | x in heap - {e} :: EntryLess(m, x);
      var least := if EntryLess(e, m) then e else m;
      forall x | x in heap ensures EntryLess(least, x) {
        assert x == e || x in heap - {e};
      }
    }
  }

  function SourceCharge(layout: Layout, source: MergeSource): nat {
    (if source.head.Some? then RowCharge(layout, source.head.value) else 0) + source.keyCharge
  }

  function SourceCharges(layout: Layout, sources: seq<MergeSource>): nat {
    if sources == [] then 0
    else SourceCharge(layout, sources[0]) + SourceCharges(layout, sources[1..])
  }

  lemma {:induction false} SourceChargesUpdate(layout: Layout, sources: seq<MergeSource>, i: nat, source: MergeSource)
    requires i < |sources|
    ensures SourceCharges(layout, sources[i := source]) + SourceCharge(layout, sources[i]) ==
            SourceCharges(layout, sources) + SourceCharge(layout, source)
  {
    if i == 0 {
      assert sources[i := source][1..] == sources[1..];
    } else {
      assert sources[i := source][1..] == sources[1..][i - 1 := source];
      SourceChargesUpdate(layout, sources[1..], i - 1, source);
    }
  }

  lemma {:induction false} SourceChargesSnoc(layout: Layout, sources: seq<MergeSource>, source: MergeSource)
    ensures SourceCharges(layout, sources + [source]) ==
            SourceCharges(layout, sources) + SourceCharge(layout, source)
  {
    if sources == [] {
      assert sources + [source] == [source];
    } else {
      assert (sources + [source])[1..] == sources[1..] + [source];
      SourceChargesSnoc(layout, sources[1..], source);
    }
  }

  /** The rows a source still has to give, read against the files on disk. */
  ghost predicate SourceHolds(source: MergeSource, rest: seq<Row>, files: map<Path, RunFile>) {
    && source.path in files && Finished(files[source.path])
    && source.position + source.remaining == files[source.path].count
    && (source.head.None? ==> source.remaining == 0)
    && rest == (if source.head.Some? then [source.head.value] else []) + files[source.path].rows[source.position..]
    && Sorted(rest)
  }

  /** Exactly one heap entry per source with a head, carrying that head's key. */
  ghost predicate HeapMatches(heap: set<HeapEntry>, sources: seq<MergeSource>) {
    && (forall e | e in heap ::
         e.idx < |sources| && sources[e.idx].head.Some? && sources[e.idx].head.value.key == e.key)
    && (forall i | 0 <= i < |sources| && sources[i].head.Some? :: HeapEntry(sources[i].head.value.key, i) in heap)
  }

  /** Emptying the head of the source whose entry was popped keeps the match. */
  lemma PopKeepsMatch(heap: set<HeapEntry>, sources: seq<MergeSource>, entry: HeapEntry)
    requires HeapMatches(heap, sources) && entry in heap
    ensures HeapMatches(heap - {entry}, sources[entry.idx := sources[entry.idx].(head := None, keyCharge := 0)])
  {
  }

  /** Refilling an empty head and pushing its entry keeps the match. */
  lemma PushKeepsMatch(heap: set<HeapEntry>, sources: seq<MergeSource>, i: nat, source: MergeSource)
    requires HeapMatches(heap, sources) && i < |sources| && sources[i].head.None? && source.head.Some?
    ensures HeapMatches(heap + {HeapEntry(source.head.value.key, i)}, sources[i := source])
  {
  }

  /** An exhausted source needs no entry. */
  lemma EndKeepsMatch(heap: set<HeapEntry>, sources: seq<MergeSource>, i: nat, source: MergeSource)
    requires HeapMatches(heap, sources) && i < |sources| && sources[i].head.None? && source.head.None?
    ensures HeapMatches(heap, sources[i := source])
  {
  }

  /** What a source holds does not depend on the charge of its key. */
  lemma ChargeIsIrrelevant(source: MergeSource, charge: nat, rest: seq<Row>, files: map<Path, RunFile>)
    ensures SourceHolds(source, rest, files) <==> SourceHolds(source.(keyCharge := charge), rest, files)
  {
  }

  /** A source whose head was taken can read on. */
  lemma RefillReadable(source: MergeSource, taken: Row, rest: seq<Row>, files: map<Path, RunFile>)
    requires SourceHolds(source.(head := Some(taken)), rest, files)
    ensures Readable(source, files) && rest != []
  {
  }

  /** A source moved past its head holds the rest of its rows. */
  lemma MovedHolds(source: MergeSource, rest: seq<Row>, moved: MergeSource, files: map<Path, RunFile>)
    requires SourceHolds(source, rest, files) && source.head.Some? && moved.path == source.path
    requires source.remaining == 0 ==> moved.head == None && moved.position == source.position && moved.remaining == 0
    requires source.remaining > 0 ==>
      && moved.head == Some(files[source.path].rows[source.position])
      && moved.position == source.position + 1 && moved.remaining == source.remaining - 1
    ensures SourceHolds(moved, rest[1..], files)
  {
    var rows := files[source.path].rows;
    if source.remaining > 0 {
      assert rows[source.position..] == [rows[source.position]] + rows[source.position + 1..];
    }
    assert rest[1..] == rows[source.position..];
  }

  /** The reader's next frame, if it has one, is in its file. */
  predicate Readable(source: MergeSource, files: map<Path, RunFile>) {
    source.remaining > 0 ==> source.path in files && source.position < |files[source.path].rows|
  }

  /** Read the next row of `source`, charging it; `source` must have no head. */
  method ReadNext(disk: Disk, budget: Budget, layout: Layout, source: MergeSource)
    returns (next: Outcome<Option<Row>>, moved: MergeSource)
    requires source.head.None?
    modifies budget, disk`faults
    ensures Readable(source, disk.files) ==>
      Explained(next, disk.faults - old(disk.faults), Since(old(budget.refusals), budget.refusals), false)
    ensures next.Ok? ==> moved == source.(
      head := next.value,
      position := source.position + (if source.remaining == 0 then 0 else 1),
      remaining := if source.remaining == 0 then 0 else source.remaining - 1)
    ensures next.Ok? ==> (next.value.None? <==> source.remaining == 0)
    ensures next.Ok? && next.value.Some? ==>
      && source.path in disk.files && source.position < |disk.files[source.path].rows|
      && next.value.value == disk.files[source.path].rows[source.position]
    ensures budget.held == old(budget.held) +
      (if next.Ok? && next.value.Some? then RowCharge(layout, next.value.value) else 0)
  {
    moved := source;
    if source.remaining == 0 {
      return Ok(None), moved;
    }
    var row := disk.ReadFrame(source.path, source.position);
    if !row.Ok? {
      return row.Failure(), moved;
    }
    var reserved := budget.ReserveInside(RowCharge(layout, row.value));
    if !reserved {
      return Err(MemoryBudget), moved;
    }
    moved := source.(head := Some(row.value), position := source.position + 1, remaining := source.remaining - 1);
    next := Ok(Some(row.value));
  }

  lemma {:induction false} FlattenEmpty(parts: seq<seq<Row>>)
    requires forall i | 0 <= i < |parts| :: parts[i] == []
    ensures Flatten(parts) == []
  {
    if parts != [] {
      FlattenEmpty(parts[1..]);
    }
  }

  /** The cloned heap key of a head is charged at the weight of the whole row. */
  predicate KeyCharged(source: MergeSource) {
    source.keyCharge == if source.head.Some? then source.head.value.retained else 0
  }

  lemma {:induction false} SourceChargesBound(layout: Layout, sources: seq<MergeSource>, largest: nat)
    requires forall i | 0 <= i < |sources| :: KeyCharged(sources[i])
    requires forall i | 0 <= i < |sources| && sources[i].head.Some? ::
      RowCharge(layout, sources[i].head.value) <= largest
    ensures SourceCharges(layout, sources) <= |sources| * (2 * largest)
  {
    if sources != [] {
      SourceChargesBound(layout, sources[1..], largest);
      assert |sources| * (2 * largest) == |sources[1..]| * (2 * largest) + 2 * largest;
    }
  }

  lemma TwicePlusOne(n: nat, largest: nat)
    ensures (2 * n + 1) * largest == n * (2 * largest) + largest
  {
  }

  class MergeState {
    const disk: Disk
    const budget: Budget
    const layout: Layout
    const dedup: bool
    const arrays: nat
    var sources: seq<MergeSource>
    var heap: set<HeapEntry>
    var lastKey: Option<LastKey>
    ghost const inputs: set<Path>
    ghost var rest: seq<seq<Row>>  // per source, the rows it still has to give

    ghost predicate Valid()
      reads this, disk`files
    {
      && |rest| == |sources|
      && (forall i | 0 <= i < |sources| :: sources[i].path in inputs && KeyCharged(sources[i]))
      && (forall i | 0 <= i < |sources| :: SourceHolds(sources[i], rest[i], disk.files))
      && HeapMatches(heap, sources)
    }

    /** Bytes this merge holds against the budget. */
    function Charge(): nat
      reads this
    {
      arrays + SourceCharges(layout, sources) + (if lastKey.Some? then lastKey.value.charge else 0)
    }

    ghost function Unread(): seq<Row>
      reads this
    {
      StableSort(Flatten(rest))
    }

    /** Every row this merge will still emit if nothing fails. */
    ghost function Pending(): seq<Row>
      reads this
    {
      Emitted(dedup, if lastKey.Some? then Some(lastKey.value.key) else None, Unread())
    }

    constructor (disk: Disk, budget: Budget, layout: Layout, dedup: bool, arrays: nat, ghost inputs: set<Path>)
      ensures this.inputs == inputs
      ensures this.disk == disk && this.budget == budget && this.layout == layout && this.dedup == dedup
      ensures Valid() && rest == [] && sources == [] && lastKey == None && Charge() == arrays
    {
      this.disk, this.budget, this.layout, this.dedup, this.arrays := disk, budget, layout, dedup, arrays;
      this.inputs := inputs;
      sources, heap, lastKey, rest := [], {}, None, [];
    }

    /** However long the input, an open merge holds its arrays and at most twice
        the largest buffered row per source, beside the dedup key. */
    lemma ChargeBound(largest: nat)
      requires Valid()
      requires forall i | 0 <= i < |sources| && sources[i].head.Some? ::
        RowCharge(layout, sources[i].head.value) <= largest
      requires lastKey.Some? ==> lastKey.value.charge <= largest
      ensures Charge() <= arrays + (2 * |sources| + 1) * largest
    {
      SourceChargesBound(layout, sources, largest);
      TwicePlusOne(|sources|, largest);
    }

    /** Remove and return the least entry by (key, source index). */
    method PopLeast() returns (entry: HeapEntry)
      requires heap != {}
      modifies `heap
      ensures entry in old(heap) && heap == old(heap) - {entry}
      ensures forall e | e in old(heap) :: EntryLess(entry, e)
    {
      LeastEntryExists(heap);
      entry :| entry in heap && forall e | e in heap :: EntryLess(entry, e);
      heap := heap - {entry};
    }

    lemma LeastEntryIsLeastSource(full: set<HeapEntry>, entry: HeapEntry)
      requires |rest| == |sources| && HeapMatches(full, sources)
      requires forall i | 0 <= i < |sources| :: SourceHolds(sources[i], rest[i], disk.files)
      requires entry in full && forall e | e in full :: EntryLess(entry, e)
      ensures IsLeastSource(rest, entry.idx)
      ensures sources[entry.idx].head == Some(rest[entry.idx][0])
    {
      forall j | 0 <= j < |rest| && rest[j] != []
        ensures rest[entry.idx][0].key < rest[j][0].key || (rest[entry.idx][0].key == rest[j][0].key && entry.idx <= j)
      {
        assert SourceHolds(sources[j], rest[j], disk.files);
        assert sources[j].head.Some?;
        assert HeapEntry(sources[j].head.value.key, j) in full;
      }
    }

    /** Buffer the source of one filled run. */
    method AddSource(source: MergeSource, ghost rows: seq<Row>) returns (done: Outcome<()>)
      requires Valid() && source.path in inputs
      requires SourceHolds(source, rows, disk.files) && source.head.Some? && source.keyCharge == 0
      requires Charge() + RowCharge(layout, source.head.value) <= budget.held
      modifies `sources, `heap, `rest, budget
      ensures Explained(done, 0, Since(old(budget.refusals), budget.refusals), false)
      ensures done.Ok? ==> Valid() && rest == old(rest) + [rows] && |sources| == |old(sources)| + 1
      ensures budget.held + old(Charge()) + RowCharge(layout, source.head.value) == old(budget.held) + Charge()
    {
      hide SourceHolds, SourceCharges;
      ChargeIsIrrelevant(source, source.head.value.retained, rows, disk.files);
      var head := source.head.value;
      var reserved := budget.Reserve(head.retained);
      if !reserved {
        budget.Release(RowCharge(layout, head));
        return Err(MemoryBudget);
      }
      var filled := source.(keyCharge := head.retained);
      heap := heap + {HeapEntry(head.key, |sources|)};
      SourceChargesSnoc(layout, sources, filled);
      sources := sources + [filled];
      rest := rest + [rows];
      done := Ok(());
    }

    /** Read the next head of source `i`, whose row `taken` was just removed. */
    method Refill(i: nat, ghost taken: Row) returns (done: Outcome<()>)
      requires i < |sources| && sources[i].head == None && sources[i].keyCharge == 0
      requires forall j | 0 <= j < |sources| :: sources[j].path in inputs && KeyCharged(sources[j])
      requires |rest| == |sources| && SourceHolds(sources[i].(head := Some(taken)), rest[i], disk.files)
      requires forall j | 0 <= j < |sources| && j != i :: SourceHolds(sources[j], rest[j], disk.files)
      requires HeapMatches(heap, sources) && Charge() <= budget.held
      modifies `sources, `heap, `rest, budget, disk`faults
      ensures Explained(done, disk.faults - old(disk.faults), Since(old(budget.refusals), budget.refusals), false)
      ensures done.Ok? ==> Valid() && rest == old(rest)[i := old(rest)[i][1..]]
      ensures budget.held + old(Charge()) == old(budget.held) + Charge()
    {
      hide SourceHolds, HeapMatches, SourceCharges;
      RefillReadable(sources[i], taken, rest[i], disk.files);
      var next, moved := ReadNext(disk, budget, layout, sources[i]);
      if !next.Ok? {
        return next.Failure();
      }
      MovedHolds(sources[i].(head := Some(taken)), rest[i], moved, disk.files);
      var reserved := true;
      SourceChargesUpdate(layout, sources, i, moved);
      if moved.head.Some? {
        var head := moved.head.value;
        reserved := budget.Reserve(head.retained);
        if reserved {
          moved := moved.(keyCharge := head.retained);
          PushKeepsMatch(heap, sources, i, moved);
          SourceChargesUpdate(layout, sources, i, moved);
          heap := heap + {HeapEntry(head.key, i)};
        }
      }
      if moved.head.None? {
        EndKeepsMatch(heap, sources, i, moved);
      }
      ChargeIsIrrelevant(moved, 0, rest[i][1..], disk.files);
      sources := sources[i := moved];
      if !reserved {
        return Err(MemoryBudget);
      }
      rest := rest[i := rest[i][1..]];
      done := Ok(());
    }

    /** Pop the least entry and take its head out of its source. */
    method PopHead() returns (i: nat, row: Row)
      requires Valid() && heap != {} && Charge() <= budget.held
      modifies `sources, `heap, budget`held
      ensures IsLeastSource(rest, i) && row == rest[i][0]
      ensures i < |old(sources)| && old(sources)[i].head == Some(row)
      ensures sources == old(sources)[i := old(sources)[i].(head := None, keyCharge := 0)]
      ensures HeapMatches(heap, sources)
      ensures budget.held + old(Charge()) == old(budget.held) + Charge() + RowCharge(layout, row)
    {
      var entry := PopLeast();
      i := entry.idx;
      LeastEntryIsLeastSource(old(heap), entry);
      PopKeepsMatch(old(heap), sources, entry);
      row := sources[i].head.value;
      SourceChargesUpdate(layout, sources, i, sources[i].(head := None, keyCharge := 0));
      budget.Release(sources[i].keyCharge);
      sources := sources[i := sources[i].(head := None, keyCharge := 0)];
    }

    /** Pop the least head, refill its source and push the new head. */
    method TakeLeast() returns (taken: Outcome<Row>)
      requires Valid() && heap != {} && Charge() <= budget.held
      modifies `sources, `heap, `rest, budget, disk`faults
      ensures Explained(taken, disk.faults - old(disk.faults), Since(old(budget.refusals), budget.refusals), false)
      ensures taken.Ok? ==> Valid() && old(Unread()) == [taken.value] + Unread()
      ensures budget.held + old(Charge()) == old(budget.held) + Charge() +
        (if taken.Ok? then RowCharge(layout, taken.value) else 0)
    {
      hide HeapMatches, SourceCharges, StableSort, Flatten;
      var i, row := PopHead();
      MergeStep(rest, i);
      var refilled := Refill(i, row);
      if !refilled.Ok? {
        budget.Release(RowCharge(layout, row));
        return refilled.Failure();
      }
      taken := Ok(row);
    }

    lemma EmptyHeapMeansDone()
      requires Valid() && heap == {}
      ensures Pending() == []
    {
      forall i | 0 <= i < |rest| ensures rest[i] == [] {
        assert SourceHolds(sources[i], rest[i], disk.files);
        assert sources[i].head.None?;
      }
      FlattenEmpty(rest);
    }

    /** Emit the next row in key order, collapsing equal keys under dedup. */
    method NextRow() returns (next: Outcome<Option<Row>>)
      requires Valid() && Charge() <= budget.held
      modifies `sources, `heap, `rest, `lastKey, budget, disk`faults
      ensures Explained(next, disk.faults - old(disk.faults), Since(old(budget.refusals), budget.refusals), false)
      ensures next.Ok? ==> Valid()
      ensures next.Ok? && next.value.Some? ==> old(Pending()) == [next.value.value] + Pending()
      ensures next.Ok? && next.value.None? ==> old(Pending()) == [] && Pending() == []
      ensures next.Ok? && next.value.Some? ==>
        lastKey == if dedup then Some(LastKey(next.value.value.key, next.value.value.retained)) else old(lastKey)
      ensures budget.held + old(Charge()) == old(budget.held) + Charge() +
        (if next.Ok? && next.value.Some? then RowCharge(layout, next.value.value) else 0)
    {
      hide StableSort, SourceCharges, HeapMatches, SourceHolds, KeyCharged, Flatten;
      while true
        invariant Valid() && Pending() == old(Pending()) && lastKey == old(lastKey)
        invariant disk.faults == old(disk.faults) && budget.refusals == old(budget.refusals)
        invariant budget.held + old(Charge()) == old(budget.held) + Charge()
        decreases |Unread()|
      {
        if heap == {} {
          EmptyHeapMeansDone();
          return Ok(None);
        }
        var taken := TakeLeast();
        if !taken.Ok? {
          return taken.Failure();
        }
        var row := taken.value;
        if dedup {
          if lastKey.Some? && lastKey.value.key == row.key {
            budget.Release(RowCharge(layout, row));
            continue;
          }
          var reserved := budget.Reserve(row.retained);
          if !reserved {
            budget.Release(RowCharge(layout, row));
            return Err(MemoryBudget);
          }
          if lastKey.Some? {
            budget.Release(lastKey.value.charge);
          }
          lastKey := Some(LastKey(row.key, row.retained));
        }
        return Ok(Some(row));
      }
    }
  }

  // ----- whole groups of runs -----

  ghost predicate AllFinished(paths: seq<Path>, files: map<Path, RunFile>) {
    forall i | 0 <= i < |paths| :: paths[i] in files && Finished(files[paths[i]])
  }

  ghost function Contents(paths: seq<Path>, files: map<Path, RunFile>): (parts: seq<seq<Row>>)
    requires AllFinished(paths, files)
    ensures |parts| == |paths|
  {
    seq(|paths|, i requires 0 <= i < |paths| => files[paths[i]].rows)
  }

  ghost function PathSet(paths: seq<Path>): set<Path> {
    set i | 0 <= i < |paths| :: paths[i]
  }

  /** Open one run and buffer its first row; an empty run adds no source. */
  method OpenSource(state: MergeState, path: Path) returns (done: Outcome<()>)
    requires state.Valid() && path in state.inputs
    requires path in state.disk.files && Finished(state.disk.files[path])
    requires state.Charge() <= state.budget.held
    modifies state`sources, state`heap, state`rest, state.budget, state.disk`faults
    ensures Explained(done, state.disk.faults - old(state.disk.faults),
                      Since(old(state.budget.refusals), state.budget.refusals), false)
    ensures done.Ok? ==> state.Valid() && |state.sources| <= old(|state.sources|) + 1
    ensures done.Ok? ==> Flatten(state.rest) == old(Flatten(state.rest)) + state.disk.files[path].rows
    ensures state.budget.held + old(state.Charge()) == old(state.budget.held) + state.Charge()
  {
    var count := state.disk.ReadCount(path);
    if !count.Ok? {
      return count.Failure();
    }
    var next, source := ReadNext(state.disk, state.budget, state.layout, MergeSource(None, path, 0, count.value, 0));
    if !next.Ok? {
      return next.Failure();
    }
    ghost var rows := state.disk.files[path].rows;
    if next.value.Some? {
      assert rows == [rows[0]] + rows[1..];
      FlattenSnoc(state.rest, rows);
      done := state.AddSource(source, rows);
    } else {
      done := Ok(());
    }
  }

  /** Open every run of a group in order, skipping empty ones. */
  method Open(disk: Disk, budget: Budget, layout: Layout, dedup: bool, paths: seq<Path>)
    returns (result: Outcome<MergeState>)
    requires AllFinished(paths, disk.files)
    modifies budget, disk`faults
    ensures Explained(result, disk.faults - old(disk.faults), Since(old(budget.refusals), budget.refusals), false)
    ensures result.Ok? ==>
      var state := result.value;
      && fresh(state) && state.Valid() && state.inputs == PathSet(paths)
      && state.disk == disk && state.budget == budget && state.layout == layout && state.dedup == dedup
      && state.arrays == |paths| * layout.mergeSlot && |state.sources| <= |paths|
      && state.Pending() == Reference(dedup, Flatten(Contents(paths, disk.files)))
      && budget.held == old(budget.held) + state.Charge()
    ensures !result.Ok? ==> budget.held == old(budget.held)
  {
    hide Finished, Sorted, MergeState.Valid, Emitted;
    var reserved := budget.Reserve(|paths| * layout.mergeSlot);
    if !reserved {
      return Err(MemoryBudget);
    }
    var state := new MergeState(disk, budget, layout, dedup, |paths| * layout.mergeSlot, PathSet(paths));
    ghost var contents := Contents(paths, disk.files);
    var n := 0;
    while n < |paths|
      invariant n <= |paths| && state.Valid() && state.lastKey == None && |state.sources| <= n
      invariant disk.faults == old(disk.faults) && budget.refusals == old(budget.refusals)
      invariant Flatten(state.rest) == Flatten(contents[..n])
      invariant budget.held == old(budget.held) + state.Charge()
    {
      var added := OpenSource(state, paths[n]);
      if !added.Ok? {
        budget.Release(state.Charge());
        return added.Failure();
      }
      assert contents[..n + 1] == contents[..n] + [contents[n]];
      FlattenSnoc(contents[..n], contents[n]);
      n := n + 1;
    }
    assert contents[..n] == contents;
    result := Ok(state);
  }

  /** A write to another file does not disturb a source. */
  lemma HoldsElsewhere(source: MergeSource, rest: seq<Row>, before: map<Path, RunFile>, after: map<Path, RunFile>,
                       out: Path)
    requires SourceHolds(source, rest, before) && SameExcept(after, before, out) && source.path != out
    ensures SourceHolds(source, rest, after)
  {
  }

  /** Write one row of the output run beside an open merge. */
  method CopyRow(state: MergeState, writer: RunWriter, row: Row) returns (done: Outcome<()>)
    requires state.Valid() && writer.Valid() && state.disk == writer.disk && writer.path !in state.inputs
    modifies writer, writer.disk
    ensures Explained(done, writer.disk.faults - old(writer.disk.faults), 0, |old(writer.Written())| + 1 >= U64_LIMIT)
    ensures SameExcept(writer.disk.files, old(writer.disk.files), writer.path)
    ensures done.Ok? ==> state.Valid() && writer.Valid() && writer.Written() == old(writer.Written()) + [row]
    ensures done.Ok? ==> writer.disk.appended == old(writer.disk.appended) + multiset{row}
  {
    ghost var files := writer.disk.files;
    done := writer.WriteRow(row);
    forall i | 0 <= i < |state.sources|
      ensures SourceHolds(state.sources[i], state.rest[i], state.disk.files)
    {
      HoldsElsewhere(state.sources[i], state.rest[i], files, state.disk.files, writer.path);
    }
  }

  /** Move the next row, if there is one, from the merge to the writer's run. */
  method CopyNext(state: MergeState, writer: RunWriter) returns (more: Outcome<bool>)
    requires state.Valid() && writer.Valid() && state.disk == writer.disk && writer.path !in state.inputs
    requires state.Charge() <= state.budget.held
    modifies state`sources, state`heap, state`rest, state`lastKey, state.budget, writer, writer.disk
    ensures Explained(more, writer.disk.faults - old(writer.disk.faults),
                      Since(old(state.budget.refusals), state.budget.refusals),
                      |old(writer.Written())| + |old(state.Pending())| >= U64_LIMIT)
    ensures SameExcept(writer.disk.files, old(writer.disk.files), writer.path)
    ensures more.Ok? ==> state.Valid() && writer.Valid()
    ensures more.Ok? ==> writer.Written() + state.Pending() == old(writer.Written()) + old(state.Pending())
    ensures more.Ok? ==>
      writer.disk.appended + multiset(state.Pending()) == old(writer.disk.appended) + multiset(old(state.Pending()))
    ensures more.Ok? ==> if more.value then |state.Pending()| < |old(state.Pending())| else state.Pending() == []
    ensures state.budget.held + old(state.Charge()) == old(state.budget.held) + state.Charge()
  {
    hide MergeState.Valid, MergeState.Pending, MergeState.Charge, RunWriter.Valid, RunWriter.Written;
    var next := state.NextRow();
    if !next.Ok? {
      return next.Failure();
    }
    if next.value.None? {
      return Ok(false);
    }
    ghost var pending := state.Pending();
    var copied := CopyRow(state, writer, next.value.value);
    state.budget.Release(RowCharge(state.layout, next.value.value));
    if !copied.Ok? {
      return copied.Failure();
    }
    assert state.Pending() == pending;
    more := Ok(true);
  }

  /** Copy everything the merge still emits to the writer's run. */
  method Drain(state: MergeState, writer: RunWriter) returns (done: Outcome<()>)
    requires state.Valid() && writer.Valid() && state.disk == writer.disk && writer.path !in state.inputs
    requires state.Charge() <= state.budget.held
    modifies state`sources, state`heap, state`rest, state`lastKey, state.budget, writer, writer.disk
    ensures Explained(done, writer.disk.faults - old(writer.disk.faults),
                      Since(old(state.budget.refusals), state.budget.refusals),
                      |old(writer.Written())| + |old(state.Pending())| >= U64_LIMIT)
    ensures SameExcept(writer.disk.files, old(writer.disk.files), writer.path)
    ensures done.Ok? ==> writer.Valid() && writer.Written() == old(writer.Written()) + old(state.Pending())
    ensures done.Ok? ==> writer.disk.appended == old(writer.disk.appended) + multiset(old(state.Pending()))
    ensures state.budget.held + old(state.Charge()) == old(state.budget.held) + state.Charge()
  {
    hide MergeState.Valid, MergeState.Pending, MergeState.Charge, RunWriter.Valid, RunWriter.Written;
    var more := true;
    while more
      invariant state.Valid() && writer.Valid()
      invariant SameExcept(writer.disk.files, old(writer.disk.files), writer.path)
      invariant writer.Written() + state.Pending() == old(writer.Written()) + old(state.Pending())
      invariant writer.disk.appended + multiset(state.Pending()) ==
        old(writer.disk.appended) + multiset(old(state.Pending()))
      invariant more || state.Pending() == []
      invariant writer.disk.faults == old(writer.disk.faults) && state.budget.refusals == old(state.budget.refusals)
      invariant state.budget.held + old(state.Charge()) == old(state.budget.held) + state.Charge()
      decreases more, |state.Pending()|
    {
      var copied := CopyNext(state, writer);
      if !copied.Ok? {
        return copied.Failure();
      }
      more := copied.value;
    }
    done := Ok(());
  }

  ghost predicate Untouched(path: Path, after: map<Path, RunFile>, before: map<Path, RunFile>) {
    (path in after <==> path in before) && (path in after ==> after[path] == before[path])
  }

  /** Remove the inputs of a finished merge. */
  method RemoveInputs(disk: Disk, paths: seq<Path>) returns (done: Outcome<()>)
    modifies disk`files, disk`faults
    ensures Explained(done, disk.faults - old(disk.faults), 0, false)
    ensures done.Ok? ==> disk.files == old(disk.files) - PathSet(paths)
    ensures forall p | p !in PathSet(paths) :: Untouched(p, disk.files, old(disk.files))
  {
    var n := 0;
    while n < |paths|
      invariant n <= |paths|
      invariant disk.files == old(disk.files) - PathSet(paths[..n]) && disk.faults == old(disk.faults)
    {
      done := disk.RemoveIfExists(paths[n]);
      if !done.Ok? {
        return;
      }
      assert PathSet(paths[..n + 1]) == PathSet(paths[..n]) + {paths[n]} by {
        forall p ensures p in PathSet(paths[..n + 1]) <==> p in PathSet(paths[..n]) || p == paths[n] {
          if p == paths[n] {
            assert paths[..n + 1][n] == p;
          }
          if p in PathSet(paths[..n]) {
            var i :| 0 <= i < n && paths[..n][i] == p;
            assert paths[..n + 1][i] == p;
          }
        }
      }
      n := n + 1;
    }
    assert paths[..n] == paths;
    done := Ok(());
  }

  /** Start the writer of `out` beside an open merge that does not read it. */
  method CreateBeside(state: MergeState, out: Path) returns (result: Outcome<RunWriter>)
    requires state.Valid() && out !in state.inputs
    modifies state.disk`files, state.disk`faults
    ensures Explained(result, state.disk.faults - old(state.disk.faults), 0, false)
    ensures SameExcept(state.disk.files, old(state.disk.files), out)
    ensures result.Ok? ==>
      && fresh(result.value) && result.value.disk == state.disk && result.value.path == out
      && result.value.Valid() && result.value.Written() == [] && state.Valid()
      && state.disk.files == old(state.disk.files)[out := RunFile(0, [])]
  {
    ghost var files := state.disk.files;
    var created := state.disk.Create(out);
    if !created.Ok? {
      return created.Failure();
    }
    forall i | 0 <= i < |state.sources|
      ensures SourceHolds(state.sources[i], state.rest[i], state.disk.files)
    {
      HoldsElsewhere(state.sources[i], state.rest[i], files, state.disk.files, out);
    }
    var writer := new RunWriter(state.disk, out);
    result := Ok(writer);
  }

  lemma OverwriteSame(a: map<Path, RunFile>, b: map<Path, RunFile>, path: Path)
    requires SameExcept(a, b, path) && path in a
    ensures a == b[path := a[path]]
  {
    assert a.Keys == b.Keys + {path};
  }

  /** Stream an open merge into the finished run `out`. */
  method WriteMerged(state: MergeState, out: Path) returns (done: Outcome<()>)
    requires state.Valid() && out !in state.inputs && state.Charge() <= state.budget.held
    modifies state`sources, state`heap, state`rest, state`lastKey, state.budget, state.disk
    ensures Explained(done, state.disk.faults - old(state.disk.faults),
                      Since(old(state.budget.refusals), state.budget.refusals),
                      |old(state.Pending())| >= U64_LIMIT)
    ensures done.Ok? ==>
      var merged := old(state.Pending());
      && state.disk.files == old(state.disk.files)[out := RunFile(|merged|, merged)]
      && state.disk.appended == old(state.disk.appended) + multiset(merged)
    ensures SameExcept(state.disk.files, old(state.disk.files), out)
    ensures state.budget.held + old(state.Charge()) == old(state.budget.held) + state.Charge()
  {
    var writer := CreateBeside(state, out);
    if !writer.Ok? {
      return writer.Failure();
    }
    done := Drain(state, writer.value);
    if done.Ok? {
      assert writer.value.Written() == old(state.Pending());
      done := writer.value.Finish();
      if done.Ok? {
        OverwriteSame(state.disk.files, old(state.disk.files), out);
      }
    }
  }

  /** Merge a group of finished runs into one new run and delete the inputs. */
  method MergeGroupToFile(disk: Disk, budget: Budget, layout: Layout, paths: seq<Path>, out: Path, dedup: bool)
    returns (done: Outcome<()>)
    requires AllFinished(paths, disk.files) && out !in disk.files
    modifies disk, budget
    ensures Explained(done, disk.faults - old(disk.faults), Since(old(budget.refusals), budget.refusals),
                      |Reference(dedup, Flatten(Contents(paths, old(disk.files))))| >= U64_LIMIT)
    ensures budget.held == old(budget.held)
    ensures forall p | p !in PathSet(paths) && p != out :: Untouched(p, disk.files, old(disk.files))
    ensures done.Ok? ==>
      var merged := Reference(dedup, Flatten(Contents(paths, old(disk.files))));
      && disk.files == (old(disk.files) - PathSet(paths))[out := RunFile(|merged|, merged)]
      && disk.appended == old(disk.appended) + multiset(merged)
  {
    hide Reference, StableSort, Flatten, Contents, SourceCharges, MergeState.Valid, MergeState.Pending,
      MergeState.Charge, Finished;
    var result := Open(disk, budget, layout, dedup, paths);
    if !result.Ok? {
      return result.Failure();
    }
    var state := result.value;
    done := WriteMerged(state, out);
    budget.Release(state.Charge());
    if done.Ok? {
      done := RemoveInputs(disk, paths);
    }
  }
}
