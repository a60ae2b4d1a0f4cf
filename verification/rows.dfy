/** Rows, failures and results shared by the whole engine model. */
module Rows {

  /** The payload carried by a row; the engine never looks inside it. */
  type Value(==, 0, !new)

  /** Sort keys. The engine only compares keys, and any finite set of totally
      ordered keys embeds into the integers with its order. */
  type Key = int

  /** One row of a run. `retained` is the byte weight its reservation holds. */
  datatype Row = Row(key: Key, value: Value, ordinal: nat, retained: nat)

  datatype Option<+T> = None | Some(value: T)

  datatype SorterError =
    | Io
    | Encode
    | Decode
    | RunLimit
    | SessionFailed
    | MemoryBudget
    | ReplaySourceFailed
    | ReplayInUse

  /** How an asynchronous call ends. `Cancelled` means that its caller dropped
      the future at an await point, so no code after that point runs. */
  datatype Outcome<+T> = Ok(value: T) | Err(error: SorterError) | Cancelled {
    /** The same unsuccessful ending at another result type. */
    function Failure<U>(): Outcome<U>
      requires !Ok?
    {
      match this
      case Err(e) => Err(e)
      case Cancelled => Cancelled
    }
  }

  const U64_LIMIT: nat := 0x1_0000_0000_0000_0000

  function Max(a: nat, b: nat): nat {
    if a < b then b else a
  }

  function Min(a: nat, b: nat): nat {
    if a < b then a else b
  }

  function Values(rows: seq<Row>): seq<Value> {
    seq(|rows|, i requires 0 <= i < |rows| => rows[i].value)
  }

  function Flatten<T>(parts: seq<seq<T>>): seq<T> {
    if parts == [] then [] else parts[0] + Flatten(parts[1..])
  }

  lemma {:induction false} FlattenConcat<T>(a: seq<seq<T>>, b: seq<seq<T>>)
    ensures Flatten(a + b) == Flatten(a) + Flatten(b)
  {
    if a == [] {
      assert a + b == b;
    } else {
      assert (a + b)[1..] == a[1..] + b;
      FlattenConcat(a[1..], b);
    }
  }

  lemma FlattenSnoc<T>(a: seq<seq<T>>, last: seq<T>)
    ensures Flatten(a + [last]) == Flatten(a) + last
  {
    FlattenConcat(a, [last]);
    assert Flatten([last]) == last;
  }

  lemma FlattenAround<T>(parts: seq<seq<T>>, i: nat)
    requires i < |parts|
    ensures Flatten(parts) == Flatten(parts[..i]) + parts[i] + Flatten(parts[i + 1..])
  {
    FlattenSnoc(parts[..i], parts[i]);
    FlattenConcat(parts[..i] + [parts[i]], parts[i + 1..]);
    assert parts == parts[..i] + [parts[i]] + parts[i + 1..];
  }

  /** Total retained bytes of some rows. */
  function Weight(rows: seq<Row>): nat {
    if rows == [] then 0 else rows[0].retained + Weight(rows[1..])
  }

  lemma {:induction false} WeightConcat(a: seq<Row>, b: seq<Row>)
    ensures Weight(a + b) == Weight(a) + Weight(b)
  {
    if a == [] {
      assert a + b == b;
    } else {
      assert (a + b)[1..] == a[1..] + b;
      WeightConcat(a[1..], b);
    }
  }
}
