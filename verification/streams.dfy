/** The two value streams a finished sort hands out. */
module Streams {
  import opened Rows
  import opened StableOrder
  import opened Scratch
  import opened Merge

  /** What one poll of a stream gives. `Dropped` means that the consumer dropped
      the stream while the poll was suspended. */
  datatype Poll = Yield(value: Value) | Failed(error: SorterError) | End | Dropped

  /** A poll failed or was dropped for a cause that occurred during it. */
  ghost predicate PollExplained(poll: Poll, faults: int, refusals: int) {
    match poll
    case Yield(_) => faults == 0 && refusals == 0
    case End => faults == 0 && refusals == 0
    case Failed(e) => Explained<()>(Err(e), faults, refusals, false)
    case Dropped => faults == 1 && refusals == 0
  }

  lemma ValuesCons(row: Row, rows: seq<Row>)
    ensures Values([row] + rows) == [row.value] + Values(rows)
  {
  }

  /** What the first of some sorted rows contributes to the output. */
  lemma EmitOne(dedup: bool, last: Option<Key>, rows: seq<Row>)
    requires rows != []
    ensures var row := rows[0];
      Values(Emitted(dedup, last, rows)) ==
        if dedup && last == Some(row.key) then Values(Emitted(dedup, last, rows[1..]))
        else [row.value] + Values(Emitted(dedup, if dedup then Some(row.key) else last, rows[1..]))
  {
    assert rows == [rows[0]] + rows[1..];
  }

  /** Streams a sorted buffer that never spilled. */
  class MemoryStream {
    const dedup: bool
    const budget: Budget
    var rows: seq<Row>
    var last: Option<LastKey>
    var allocation: nat
    var metadata: nat
    var ended: bool

    ghost predicate Valid()
      reads this, budget
    {
      if ended then budget.held == 0
      else budget.held == Weight(rows) + LastCharge() + allocation + metadata
    }

    function LastCharge(): nat
      reads this
    {
      if last.Some? then last.value.charge else 0
    }

    ghost function Pending(): seq<Value>
      reads this
    {
      Values(Emitted(dedup, if last.Some? then Some(last.value.key) else None, rows))
    }

    constructor (dedup: bool, budget: Budget, rows: seq<Row>, allocation: nat, metadata: nat)
      requires budget.held == Weight(rows) + allocation + metadata
      ensures Valid() && !ended && this.budget == budget
      ensures Pending() == Values(Emitted(dedup, None, rows))
    {
      this.dedup, this.budget, this.rows, this.allocation, this.metadata := dedup, budget, rows, allocation, metadata;
      last, ended := None, false;
    }

    /** Let go of a row about to be yielded, keeping its key and charge under dedup. */
    method Remember(row: Row)
      requires budget.held == Weight(rows) + row.retained + LastCharge() + allocation + metadata && !ended
      modifies `last, budget`held
      ensures Valid() && last == if dedup then Some(LastKey(row.key, row.retained)) else old(last)
    {
      if dedup {
        budget.Release(LastCharge());
        last := Some(LastKey(row.key, row.retained));
      } else {
        budget.Release(row.retained);
      }
    }

    method Next() returns (poll: Poll)
      requires Valid() && !ended
      modifies this, budget`held
      ensures Valid()
      ensures poll.Yield? ==> !ended && old(Pending()) == [poll.value] + Pending()
      ensures !poll.Yield? ==> poll == End && ended && old(Pending()) == []
      ensures ended ==> budget.held == 0
    {
      while rows != []
        invariant Valid() && !ended && Pending() == old(Pending())
        decreases |rows|
      {
        var row := rows[0];
        EmitOne(dedup, if last.Some? then Some(last.value.key) else None, rows);
        rows := rows[1..];
        if dedup && last.Some? && last.value.key == row.key {
          budget.Release(row.retained);
          continue;
        }
        Remember(row);
        return Yield(row.value);
      }
      budget.Release(LastCharge() + allocation + metadata);
      ended := true;
      poll := End;
    }
  }

  /** Streams the final merge and removes the scratch directory at its end. */
  class MergeStream {
    const state: MergeState
    var open: bool
    var reported: bool
    var ended: bool
    var metadata: nat
    ghost const expected: seq<Value>
    ghost var yielded: seq<Value>
    ghost var erred: bool
    ghost const removalsBefore: nat  // failed removals before this stream

    ghost predicate Valid()
      reads this, state, state.disk`files, state.disk`failedRemovals, state.budget`held
    {
      && (if reported then RemovalFailed() else state.disk.failedRemovals >= removalsBefore)
      && state.budget.held == (if open then state.Charge() else 0) + metadata
      && (if open && !ended then state.Valid() && yielded + Values(state.Pending()) == expected
          else yielded <= expected)
      && (!open && !ended ==> erred)
      && (open ==> !erred && !reported)
    }

    /** Failed or cancelled operations and refused reservations so far. */
    ghost function Troubles(): nat
      reads state.disk`faults, state.budget`refusals
    {
      state.disk.faults + state.budget.refusals.all
    }

    /** A removal of the directory has failed since the stream began. */
    ghost predicate RemovalFailed()
      reads state.disk`failedRemovals
    {
      state.disk.failedRemovals > removalsBefore
    }

    /** Nothing is left on disk, and no byte is held. */
    ghost predicate Clean()
      reads state.disk`files, state.budget`held
    {
      state.disk.files == map[] && state.budget.held == 0
    }

    /** Polls left once the merge is over. */
    ghost function Fuel(): nat
      reads this
    {
      if ended then 0 else if !open && reported then 1 else if !open then 2 else 3
    }

    constructor (state: MergeState, metadata: nat)
      requires state.Valid() && state.budget.held == state.Charge() + metadata
      ensures Valid() && open && !ended && !erred && yielded == [] && this.state == state
      ensures expected == Values(state.Pending()) && removalsBefore == state.disk.failedRemovals
    {
      this.state, this.metadata := state, metadata;
      open, reported, ended, erred := true, false, false, false;
      expected, yielded, removalsBefore := Values(state.Pending()), [], state.disk.failedRemovals;
    }

    /** The merge is over and its charges are released. */
    ghost predicate Closed()
      reads this, state, state.budget, state.disk`failedRemovals
    {
      && !open && !ended && !reported && state.budget.held == metadata && yielded <= expected
      && state.disk.failedRemovals >= removalsBefore
    }

    /** Remove the scratch directory and give up its metadata reservation. */
    method Cleanup() returns (poll: Poll)
      requires Closed()
      modifies `reported, `ended, `metadata, `erred
      modifies state.disk`files, state.disk`faults, state.disk`failedRemovals, state.budget`held
      ensures PollExplained(poll, state.disk.faults - old(state.disk.faults), 0)
      ensures Valid() && !poll.Yield?
      ensures poll.End? ==> ended && Clean()
      ensures poll.Failed? ==> !ended && reported && erred
      ensures poll.Dropped? ==> ended
      ensures !poll.Failed? ==> erred == old(erred)
    {
      var removed := state.disk.RemoveAll();
      match removed
      case Ok(_) =>
        state.budget.Release(metadata);
        metadata, ended := 0, true;
        poll := End;
      case Err(e) =>
        reported, erred := true, true;
        poll := Failed(e);
      case Cancelled =>
        ended := true;
        poll := Dropped;
    }

    /** The merge gave its last row or failed: let go of it. */
    method Conclude(next: Outcome<Option<Row>>) returns (poll: Poll)
      requires open && !ended && !erred && state.budget.held == state.Charge() + metadata
      requires yielded <= expected && (next.Ok? ==> next.value.None? && yielded == expected)
      requires !reported && state.disk.failedRemovals >= removalsBefore
      modifies `open, `reported, `ended, `metadata, `erred
      modifies state.disk`files, state.disk`faults, state.disk`failedRemovals, state.budget`held
      ensures Valid() && !open && !poll.Yield?
      ensures poll.Failed? <==> !ended && erred
      ensures !poll.Failed? ==> ended && !erred
      ensures poll.End? ==> yielded == expected && Clean()
      ensures !next.Ok? ==> poll == (if next.Err? then Failed(next.error) else Dropped)
      ensures !next.Ok? ==> state.disk.faults == old(state.disk.faults)
      ensures next.Ok? ==> PollExplained(poll, state.disk.faults - old(state.disk.faults), 0)
    {
      state.budget.Release(state.Charge());
      open := false;
      match next
      case Ok(_) =>
        poll := Cleanup();
      case Err(e) =>
        erred := true;
        poll := Failed(e);
      case Cancelled =>
        ended := true;
        poll := Dropped;
    }

    method Next() returns (poll: Poll)
      requires Valid() && !ended
      modifies this, state`sources, state`heap, state`rest, state`lastKey, state.budget
      modifies state.disk`files, state.disk`faults, state.disk`failedRemovals
      ensures PollExplained(poll, state.disk.faults - old(state.disk.faults),
                            Since(old(state.budget.refusals), state.budget.refusals))
      ensures Valid()
      ensures yielded == old(yielded) + (if poll.Yield? then [poll.value] else [])
      ensures poll.Yield? ==> old(open) && open && !ended
      ensures poll.Failed? ==> !open && !ended && erred
      ensures !poll.Failed? ==> erred == old(erred)
      ensures poll.End? || poll.Dropped? ==> ended && !open
      ensures poll.End? && !erred ==> yielded == expected && Clean()
      ensures poll.End? ==> Clean() || RemovalFailed()
      ensures old(reported) ==> poll == End && state.disk.files == old(state.disk.files)
      ensures old(reported) ==> state.disk.faults == old(state.disk.faults)
      ensures !old(open) ==> Fuel() < old(Fuel())
    {
      hide MergeState.Valid, MergeState.Charge, MergeState.Pending, RowCharge;
      if !open {
        if reported {
          ended := true;
          return End;
        }
        poll := Cleanup();
        return;
      }
      var next := state.NextRow();
      if next.Ok? && next.value.Some? {
        var row := next.value.value;
        ValuesCons(row, state.Pending());
        state.budget.Release(RowCharge(state.layout, row));
        yielded := yielded + [row.value];
        return Yield(row.value);
      }
      poll := Conclude(next);
    }
  }

  datatype ValueStream = Buffered(memory: MemoryStream) | Merging(merge: MergeStream)

  /** Poll a merge stream until it ends, or its consumer drops it. Whatever it gives
      is a prefix of the expected values; the end is clean iff nothing failed, was
      cancelled or was refused, and then all of them were given. Reaching the end
      leaves nothing on disk, with or without an earlier error, unless the removal
      of the directory itself failed. */
  method CollectMerge(stream: MergeStream) returns (values: seq<Value>, clean: bool, dropped: bool)
    requires stream.Valid() && stream.open && !stream.ended && stream.yielded == []
    modifies stream, stream.state, stream.state.disk, stream.state.budget
    ensures values <= stream.expected
    ensures stream.Troubles() >= old(stream.Troubles())
    ensures clean <==> stream.Troubles() == old(stream.Troubles())
    ensures clean ==> values == stream.expected && stream.Clean()
    ensures dropped || stream.Clean() || stream.RemovalFailed()
    ensures dropped ==> stream.state.disk.faults > old(stream.state.disk.faults)
  {
    values, clean, dropped := [], true, false;
    while true
      invariant stream.Valid() && !stream.ended && values == stream.yielded
      invariant clean == !stream.erred
      invariant stream.Troubles() >= old(stream.Troubles())
      invariant clean <==> stream.Troubles() == old(stream.Troubles())
      invariant !dropped && stream.state.disk.faults >= old(stream.state.disk.faults)
      decreases stream.Fuel(), |stream.expected| - |stream.yielded|
    {
      var poll := stream.Next();
      match poll
      case Yield(value) =>
        values := values + [value];
      case Failed(_) =>
        clean := false;
      case End =>
        return;
      case Dropped =>
        return values, false, true;
    }
  }

  method CollectMemory(stream: MemoryStream) returns (values: seq<Value>)
    requires stream.Valid() && !stream.ended
    modifies stream, stream.budget`held
    ensures values == old(stream.Pending()) && stream.budget.held == 0
  {
    values := [];
    while true
      invariant stream.Valid() && !stream.ended
      invariant values + stream.Pending() == old(stream.Pending())
      decreases |stream.Pending()|
    {
      var poll := stream.Next();
      if !poll.Yield? {
        return;
      }
      values := values + [poll.value];
    }
  }
}
