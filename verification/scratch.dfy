/** The scratch directory, the byte ledger and the run writer, at the level of
    whole rows; the byte layout of a run is the subject of module RunFormat. */
module Scratch {
  import opened Rows
  import opened StableOrder

  datatype Path =
    | Run(ordinal: nat)
    | Carry(ordinal: nat, level: nat)
    | Merged(pass: nat, group: nat)

  /** The header count of a run file and its complete frames. */
  datatype RunFile = RunFile(count: nat, rows: seq<Row>)

  /** A run that a merge may read: its header covers every frame, rows by key. */
  ghost predicate Finished(file: RunFile) {
    file.count == |file.rows| && Sorted(file.rows)
  }

  ghost predicate SameExcept(a: map<Path, RunFile>, b: map<Path, RunFile>, path: Path) {
    forall p | p != path :: (p in a <==> p in b) && (p in a ==> a[p] == b[p])
  }

  /** Sizes that the layout of the Rust types fixes. */
  datatype Layout = Layout(rowInline: nat, mergeSlot: nat, metadata: nat)

  /** What a row read from a run is charged: what it retains, but at least its
      inline size. */
  function RowCharge(layout: Layout, row: Row): (charge: nat)
    ensures charge >= row.retained && charge >= layout.rowInline
    ensures charge == row.retained || charge == layout.rowInline
  {
    Max(row.retained, layout.rowInline)
  }

  /** Refused reservations, and those among them that the fixed limit had room for
      beside what this sort held: other holders or a shrunk limit squeezed it. */
  datatype Refusals = Refusals(all: nat, squeezed: nat)

  /** Refusals since `before`; the squeezed ones are some of them. */
  ghost function Since(before: Refusals, after: Refusals): int {
    if 0 <= after.squeezed - before.squeezed <= after.all - before.all then after.all - before.all else -1
  }

  /** A call ended the way it did for a cause that occurred during it: `faults`
      file operations that failed or were cancelled, `refusals` of reservations,
      or a count that passed 64 bits. A call that saw no cause succeeds. */
  ghost predicate Explained<T>(end: Outcome<T>, faults: int, refusals: int, overflow: bool) {
    if end.Ok? then faults == 0 && refusals == 0
    else if end == Err(MemoryBudget) then faults == 0 && refusals == 1
    else if end == Err(RunLimit) then faults == 0 && refusals == 0 && overflow
    else (end == Err(Io) || end == Cancelled) && faults == 1 && refusals == 0
  }

  /** Private scratch directory. Every operation may complete, fail, or outlive
      a caller that is cancelled; a failed write leaves its own file unknown. */
  class Disk {
    var files: map<Path, RunFile>
    ghost var appended: multiset<Row>  // every row frame written so far
    ghost var faults: nat   // operations that failed or were cancelled so far
    ghost var failedRemovals: nat  // removals of the whole directory among them

    constructor ()
      ensures files == map[] && appended == multiset{} && faults == 0 && failedRemovals == 0
    {
      files, appended, faults, failedRemovals := map[], multiset{}, 0, 0;
    }

    /** An operation on the file system, seen by the caller that awaits it. */
    method Await() returns (done: Outcome<()>)
      modifies `faults
      ensures Explained(done, faults - old(faults), 0, false)
    {
      var completed: bool, cancelled: bool := *, *;
      done := if completed then Ok(()) else if cancelled then Cancelled else Err(Io);
      if !completed {
        faults := faults + 1;
      }
    }

    method Create(path: Path) returns (done: Outcome<()>)
      modifies `files, `faults
      ensures Explained(done, faults - old(faults), 0, false)
      ensures done.Ok? ==> files == old(files)[path := RunFile(0, [])]
      ensures SameExcept(files, old(files), path)
    {
      done := Await();
      var effect: bool := *;
      if done.Ok? || effect {
        files := files[path := RunFile(0, [])];
      }
    }

    method Append(path: Path, row: Row) returns (done: Outcome<()>)
      requires path in files
      modifies this
      ensures Explained(done, faults - old(faults), 0, false)
      ensures done.Ok? ==> appended == old(appended) + multiset{row}
      ensures done.Ok? ==>
        files == old(files)[path := RunFile(old(files)[path].count, old(files)[path].rows + [row])]
      ensures SameExcept(files, old(files), path)
    {
      done := Await();
      var effect: bool := *;
      if done.Ok? || effect {
        files := files[path := RunFile(files[path].count, files[path].rows + [row])];
        appended := appended + multiset{row};
      }
    }

    method PatchCount(path: Path, count: nat) returns (done: Outcome<()>)
      requires path in files
      modifies `files, `faults
      ensures Explained(done, faults - old(faults), 0, false)
      ensures done.Ok? ==> files == old(files)[path := RunFile(count, old(files)[path].rows)]
      ensures SameExcept(files, old(files), path)
    {
      done := Await();
      var effect: bool := *;
      if done.Ok? || effect {
        files := files[path := RunFile(count, files[path].rows)];
      }
    }

    method ReadCount(path: Path) returns (count: Outcome<nat>)
      modifies `faults
      ensures path in files ==> Explained(count, faults - old(faults), 0, false)
      ensures count.Ok? ==> path in files && count.value == files[path].count
    {
      var done := Await();
      if !done.Ok? {
        return done.Failure();
      }
      if path !in files {
        return Err(Io);
      }
      count := Ok(files[path].count);
    }

    method ReadFrame(path: Path, position: nat) returns (row: Outcome<Row>)
      modifies `faults
      ensures path in files && position < |files[path].rows| ==> Explained(row, faults - old(faults), 0, false)
      ensures row.Ok? ==> path in files && position < |files[path].rows| && row.value == files[path].rows[position]
    {
      var done := Await();
      if !done.Ok? {
        return done.Failure();
      }
      if path !in files || position >= |files[path].rows| {
        return Err(Io);
      }
      row := Ok(files[path].rows[position]);
    }

    method RemoveIfExists(path: Path) returns (done: Outcome<()>)
      modifies `files, `faults
      ensures Explained(done, faults - old(faults), 0, false)
      ensures done.Ok? ==> files == old(files) - {path}
      ensures SameExcept(files, old(files), path)
    {
      done := Await();
      var effect: bool := *;
      if done.Ok? || effect {
        files := files - {path};
      }
    }

    method RemoveAll() returns (done: Outcome<()>)
      modifies `files, `faults, `failedRemovals
      ensures Explained(done, faults - old(faults), 0, false)
      ensures done.Ok? ==> files == map[]
      ensures failedRemovals == old(failedRemovals) + (if done.Ok? then 0 else 1)
    {
      done := Await();
      var effect: bool := *;
      if done.Ok? || effect {
        files := map[];
      }
      if !done.Ok? {
        failedRemovals := failedRemovals + 1;
      }
    }
  }

  /** The charges one sort holds against its budget. Other holders and the live
      limit are unknown at every reservation, unless the sort is `alone`: with a
      budget of its own that no pressure source limits further. */
  class Budget {
    const limit: nat
    const alone: bool
    var held: nat
    ghost var refusals: Refusals
    ghost var peak: nat  // the most that was held at once

    constructor (limit: nat, alone: bool)
      ensures this.limit == limit && this.alone == alone && held == 0 && refusals == Refusals(0, 0) && peak == 0
    {
      this.limit, this.alone, held, refusals, peak := limit, alone, 0, Refusals(0, 0), 0;
    }

    /** A reservation between file operations. */
    method Reserve(bytes: nat) returns (ok: bool)
      modifies this
      ensures held == old(held) + (if ok then bytes else 0)
      ensures ok ==> held <= limit
      ensures alone ==> (ok <==> old(held) + bytes <= limit)
      ensures Since(old(refusals), refusals) == if ok then 0 else 1
      ensures !ok && old(held) + bytes <= limit ==> refusals.squeezed == old(refusals).squeezed + 1
      ensures peak == if ok then Max(old(peak), held) else old(peak)
    {
      var others: nat, reading: nat := *, *;
      if alone {
        others, reading := 0, limit;
      }
      ok := ReserveBeside(bytes, others, reading);
    }

    /** A reservation from within a file operation, which has charges of its own. */
    method ReserveInside(bytes: nat) returns (ok: bool)
      modifies this
      ensures held == old(held) + (if ok then bytes else 0)
      ensures ok ==> held <= limit
      ensures Since(old(refusals), refusals) == if ok then 0 else 1
    {
      var others: nat, reading: nat := *, *;
      ok := ReserveBeside(bytes, others, reading);
    }

    /** Grant `bytes` iff they fit beside all others and the limit as read now. */
    method ReserveBeside(bytes: nat, others: nat, reading: nat) returns (ok: bool)
      modifies this
      ensures ok <==> old(held) + others + bytes <= Min(limit, reading)
      ensures held == old(held) + (if ok then bytes else 0)
      ensures Since(old(refusals), refusals) == if ok then 0 else 1
      ensures !ok && old(held) + bytes <= limit ==> refusals.squeezed == old(refusals).squeezed + 1
      ensures peak == if ok then Max(old(peak), held) else old(peak)
    {
      ok := held + others + bytes <= Min(limit, reading);
      if ok {
        held := held + bytes;
        peak := Max(peak, held);
      } else {
        refusals := Refusals(refusals.all + 1, refusals.squeezed + (if held + bytes <= limit then 1 else 0));
      }
    }

    method Release(bytes: nat)
      requires bytes <= held
      modifies `held
      ensures held == old(held) - bytes
    {
      held := held - bytes;
    }
  }

  /** Appends rows to one new run; the header is written last. */
  class RunWriter {
    const disk: Disk
    const path: Path
    var count: nat

    ghost predicate Valid()
      reads this, disk`files
    {
      path in disk.files && disk.files[path].count == 0 && |disk.files[path].rows| == count
    }

    ghost function Written(): seq<Row>
      requires Valid()
      reads this, disk`files
    {
      disk.files[path].rows
    }

    constructor (disk: Disk, path: Path)
      requires path in disk.files && disk.files[path] == RunFile(0, [])
      ensures this.disk == disk && this.path == path && Valid() && Written() == []
    {
      this.disk, this.path, count := disk, path, 0;
    }

    method WriteRow(row: Row) returns (done: Outcome<()>)
      requires Valid()
      modifies this, disk
      ensures Explained(done, disk.faults - old(disk.faults), 0, |old(Written())| + 1 >= U64_LIMIT)
      ensures SameExcept(disk.files, old(disk.files), path)
      ensures done.Ok? ==> Valid() && Written() == old(Written()) + [row]
      ensures done.Ok? ==> disk.appended == old(disk.appended) + multiset{row}
    {
      done := disk.Append(path, row);
      if done.Ok? {
        if count + 1 == U64_LIMIT {
          return Err(RunLimit);
        }
        count := count + 1;
      }
    }

    method Finish() returns (done: Outcome<()>)
      requires Valid()
      modifies disk`files, disk`faults
      ensures Explained(done, disk.faults - old(disk.faults), 0, false)
      ensures SameExcept(disk.files, old(disk.files), path)
      ensures done.Ok? ==> disk.files == old(disk.files)[path := RunFile(|old(Written())|, old(Written()))]
    {
      done := disk.PatchCount(path, count);
    }
  }
}
