/** The byte format of a run: a 64-bit row count, then frames of a 32-bit body
    length, a 64-bit retained weight and the encoded body, all little-endian. */
module RunFormat {
  import opened Rows
  import opened FrameCodec

  /** The part of a row that is serialized into the frame body. */
  datatype Body = Body(key: Key, value: Value, ordinal: nat)

  /** The serializer, known only by its round trip. */
  datatype Codec = Codec(encode: Body -> seq<Byte>, decode: seq<Byte> -> Option<Body>) {
    ghost predicate Lawful() {
      forall body :: decode(encode(body)) == Some(body)
    }
  }

  function BodyOf(row: Row): Body {
    Body(row.key, row.value, row.ordinal)
  }

  function RowOf(body: Body, retained: nat): Row {
    Row(body.key, body.value, body.ordinal, retained)
  }

  // ----- little-endian numbers -----

  function Range(width: nat): nat {
    if width == 0 then 1 else 256 * Range(width - 1)
  }

  function LittleEndian(n: nat, width: nat): (bytes: seq<Byte>)
    ensures |bytes| == width
    decreases width
  {
    if width == 0 then [] else [n % 256] + LittleEndian(n / 256, width - 1)
  }

  function FromLittleEndian(bytes: seq<Byte>): nat {
    if bytes == [] then 0 else bytes[0] + 256 * FromLittleEndian(bytes[1..])
  }

  lemma {:induction false} LittleEndianRoundTrip(n: nat, width: nat)
    requires n < Range(width)
    ensures FromLittleEndian(LittleEndian(n, width)) == n
    decreases width
  {
    if width > 0 {
      LittleEndianRoundTrip(n / 256, width - 1);
    }
  }

  lemma {:induction false} LittleEndianInjective(bytes: seq<Byte>)
    ensures FromLittleEndian(bytes) < Range(|bytes|)
    ensures LittleEndian(FromLittleEndian(bytes), |bytes|) == bytes
  {
    if bytes != [] {
      LittleEndianInjective(bytes[1..]);
      LowDigit(bytes[0], FromLittleEndian(bytes[1..]));
    }
  }

  lemma LowDigit(low: Byte, rest: nat)
    ensures (low + 256 * rest) % 256 == low && (low + 256 * rest) / 256 == rest
  {
  }

  lemma Ranges()
    ensures Range(4) == 0x1_0000_0000 && Range(8) == U64_LIMIT
  {
    assert Range(2) == 65536;
    assert Range(4) == 65536 * 65536;
    assert Range(6) == 65536 * Range(4);
  }

  // ----- frames -----

  /** A row whose body length and weight fit their header fields. */
  predicate Writable(codec: Codec, row: Row) {
    |codec.encode(BodyOf(row))| < 0x1_0000_0000 && row.retained < U64_LIMIT
  }

  function Frame(codec: Codec, row: Row): seq<Byte> {
    var body := codec.encode(BodyOf(row));
    LittleEndian(|body|, 4) + LittleEndian(row.retained, 8) + body
  }

  function Frames(codec: Codec, rows: seq<Row>): seq<Byte> {
    if rows == [] then [] else Frame(codec, rows[0]) + Frames(codec, rows[1..])
  }

  lemma {:induction false} FramesConcat(codec: Codec, a: seq<Row>, b: seq<Row>)
    ensures Frames(codec, a + b) == Frames(codec, a) + Frames(codec, b)
  {
    if a == [] {
      assert a + b == b;
    } else {
      assert (a + b)[1..] == a[1..] + b;
      FramesConcat(codec, a[1..], b);
    }
  }

  lemma FramesSnoc(codec: Codec, rows: seq<Row>, row: Row)
    ensures Frames(codec, rows + [row]) == Frames(codec, rows) + Frame(codec, row)
  {
    FramesConcat(codec, rows, [row]);
    assert Frames(codec, [row]) == Frame(codec, row) + Frames(codec, []);
  }

  /** Read the frame at the start of `bytes`: its row and its length. */
  function ParseFrame(codec: Codec, bytes: seq<Byte>): Outcome<(Row, nat)> {
    if |bytes| < 12 then Err(Io)
    else
      var len, weight := FromLittleEndian(bytes[..4]), FromLittleEndian(bytes[4..12]);
      if |bytes| < 12 + len then Err(Io)
      else
        match codec.decode(bytes[12..12 + len])
        case Some(body) => Ok((RowOf(body, weight), 12 + len))
        case None => Err(Decode)
  }

  lemma HeaderRoundTrip(len: nat, weight: nat)
    requires len < 0x1_0000_0000 && weight < U64_LIMIT
    ensures FromLittleEndian(LittleEndian(len, 4)) == len
    ensures FromLittleEndian(LittleEndian(weight, 8)) == weight
  {
    Ranges();
    LittleEndianRoundTrip(len, 4);
    LittleEndianRoundTrip(weight, 8);
  }

  lemma SliceHeader(a: seq<Byte>, b: seq<Byte>, body: seq<Byte>, after: seq<Byte>)
    requires |a| == 4 && |b| == 8
    ensures var bytes := a + b + body + after;
      bytes[..4] == a && bytes[4..12] == b && bytes[12..12 + |body|] == body
  {
  }

  /** A complete frame reads back as its row, whatever bytes follow it. */
  lemma FrameRoundTrip(codec: Codec, row: Row, after: seq<Byte>)
    requires codec.Lawful() && Writable(codec, row)
    ensures ParseFrame(codec, Frame(codec, row) + after) == Ok((row, |Frame(codec, row)|))
  {
    var body := codec.encode(BodyOf(row));
    HeaderRoundTrip(|body|, row.retained);
    SliceHeader(LittleEndian(|body|, 4), LittleEndian(row.retained, 8), body, after);
  }

  /** Read `count` frames one after the other. */
  function ParseFrames(codec: Codec, bytes: seq<Byte>, count: nat): Outcome<seq<Row>> {
    if count == 0 then Ok([])
    else
      match ParseFrame(codec, bytes)
      case Ok((row, len)) =>
        (match ParseFrames(codec, if len <= |bytes| then bytes[len..] else [], count - 1)
         case Ok(rows) => Ok([row] + rows)
         case Err(e) => Err(e)
         case Cancelled => Cancelled)
      case Err(e) => Err(e)
      case Cancelled => Cancelled
  }

  function FileBytes(codec: Codec, count: nat, rows: seq<Row>): seq<Byte> {
    LittleEndian(count, 8) + Frames(codec, rows)
  }

  lemma ParseOneMore(codec: Codec, row: Row, rest: seq<Byte>, rows: seq<Row>)
    requires codec.Lawful() && Writable(codec, row) && ParseFrames(codec, rest, |rows|) == Ok(rows)
    ensures ParseFrames(codec, Frame(codec, row) + rest, |rows| + 1) == Ok([row] + rows)
  {
    FrameRoundTrip(codec, row, rest);
    assert (Frame(codec, row) + rest)[|Frame(codec, row)|..] == rest;
  }

  /** Any rows, written as frames, read back as the same rows. */
  lemma {:induction false} FramesRoundTrip(codec: Codec, rows: seq<Row>, after: seq<Byte>)
    requires codec.Lawful() && forall row | row in rows :: Writable(codec, row)
    ensures ParseFrames(codec, Frames(codec, rows) + after, |rows|) == Ok(rows)
  {
    if rows != [] {
      FramesRoundTrip(codec, rows[1..], after);
      ParseOneMore(codec, rows[0], Frames(codec, rows[1..]) + after, rows[1..]);
      SplitFirst(codec, rows, after);
      assert rows == [rows[0]] + rows[1..];
    }
  }

  lemma SplitFirst(codec: Codec, rows: seq<Row>, after: seq<Byte>)
    requires rows != []
    ensures Frames(codec, rows) + after == Frame(codec, rows[0]) + (Frames(codec, rows[1..]) + after)
  {
  }

  /** Equal frames hold equal rows, however many: the format loses nothing. */
  lemma {:induction false} FramesInjective(codec: Codec, a: seq<Row>, b: seq<Row>)
    requires codec.Lawful()
    requires forall row | row in a :: Writable(codec, row)
    requires forall row | row in b :: Writable(codec, row)
    requires Frames(codec, a) == Frames(codec, b)
    ensures a == b
  {
    if a != [] && b != [] {
      FirstFrame(codec, a);
      FirstFrame(codec, b);
      FramesInjective(codec, a[1..], b[1..]);
      assert a == [a[0]] + a[1..] && b == [b[0]] + b[1..];
    }
  }

  /** The first frame tells the first row and where the other frames start. */
  lemma FirstFrame(codec: Codec, rows: seq<Row>)
    requires codec.Lawful() && rows != [] && forall row | row in rows :: Writable(codec, row)
    ensures ParseFrame(codec, Frames(codec, rows)) == Ok((rows[0], |Frame(codec, rows[0])|))
    ensures |Frame(codec, rows[0])| <= |Frames(codec, rows)|
    ensures Frames(codec, rows)[|Frame(codec, rows[0])|..] == Frames(codec, rows[1..])
  {
    FrameRoundTrip(codec, rows[0], Frames(codec, rows[1..]));
  }

  /** Equal finished files hold equal rows. */
  lemma FilesInjective(codec: Codec, a: seq<Row>, b: seq<Row>)
    requires codec.Lawful()
    requires forall row | row in a :: Writable(codec, row)
    requires forall row | row in b :: Writable(codec, row)
    requires FileBytes(codec, |a|, a) == FileBytes(codec, |b|, b)
    ensures a == b
  {
    assert FileBytes(codec, |a|, a)[8..] == Frames(codec, a) && FileBytes(codec, |b|, b)[8..] == Frames(codec, b);
    FramesInjective(codec, a, b);
  }

  /** The frame of row `position` starts where the earlier frames end, and reads
      back as that row whatever follows the committed frames. */
  lemma CommittedFrame(codec: Codec, bytes: seq<Byte>, rows: seq<Row>, position: nat)
    requires codec.Lawful() && (forall row | row in rows :: Writable(codec, row))
    requires Frames(codec, rows) <= bytes && position < |rows|
    ensures var start := |Frames(codec, rows[..position])|; var len := |Frame(codec, rows[position])|;
      && start <= |bytes| && ParseFrame(codec, bytes[start..]) == Ok((rows[position], len))
      && start + len == |Frames(codec, rows[..position + 1])|
  {
    var done, row, tail := rows[..position], rows[position], rows[position..][1..];
    var after := bytes[|Frames(codec, rows)|..];
    assert rows == done + rows[position..] && rows[..position + 1] == done + [row];
    FramesConcat(codec, done, rows[position..]);
    FramesSnoc(codec, done, row);
    SplitFirst(codec, rows[position..], after);
    DropFirst(Frames(codec, done), Frames(codec, rows[position..]), bytes);
    FrameRoundTrip(codec, row, Frames(codec, tail) + after);
  }

  lemma DropFirst(a: seq<Byte>, b: seq<Byte>, bytes: seq<Byte>)
    requires a + b <= bytes
    ensures bytes[|a|..] == b + bytes[|a + b|..]
  {
    assert bytes == a + b + bytes[|a + b|..];
  }

  lemma FileSnoc(codec: Codec, count: nat, rows: seq<Row>, row: Row)
    ensures FileBytes(codec, count, rows) + Frame(codec, row) == FileBytes(codec, count, rows + [row])
  {
    FramesSnoc(codec, rows, row);
  }

  lemma TornTail(codec: Codec, count: nat, rows: seq<Row>, tail: seq<Byte>)
    ensures |FileBytes(codec, count, rows) + tail| >= 8
    ensures Frames(codec, rows) <= (FileBytes(codec, count, rows) + tail)[8..]
  {
    assert (FileBytes(codec, count, rows) + tail)[8..] == Frames(codec, rows) + tail;
  }

  lemma Patched(header: seq<Byte>, before: seq<Byte>, frames: seq<Byte>, stored: nat)
    requires |header| == 8 && |before| == 8 && stored <= 8
    ensures var bytes := header[..stored] + (before + frames)[stored..];
      |bytes| >= 8 && bytes[8..] == frames && (stored == 8 ==> bytes == header + frames)
  {
    assert (before + frames)[stored..] == before[stored..] + frames;
  }

  // ----- the writer and the readers of one file -----

  /** How an awaited file operation ends for its caller. */
  datatype Fate = Completes | Fails | Cancels {
    function Failure<T>(): Outcome<T>
      requires !Completes?
    {
      if Cancels? then Cancelled else Err(Io)
    }
  }

  class File {
    var bytes: seq<Byte>

    /** The header and the first frames: `rows` are committed in this file. */
    ghost predicate Commits(codec: Codec, rows: seq<Row>)
      reads this
    {
      |bytes| >= 8 && Frames(codec, rows) <= bytes[8..]
    }
  }

  class RunWriter {
    const codec: Codec
    const file: File
    var count: nat
    ghost var rows: seq<Row>

    ghost predicate Valid()
      reads this, file
    {
      && count == |rows| < U64_LIMIT
      && file.bytes == FileBytes(codec, 0, rows)
      && forall row | row in rows :: Writable(codec, row)
    }

    constructor (codec: Codec)
      ensures Valid() && rows == [] && this.codec == codec && fresh(file)
    {
      this.codec, count, rows := codec, 0, [];
      file := new File;
      new;
      file.bytes := LittleEndian(0, 8);
    }

    /** Append one frame under the live `limit`; `reserved` says whether its
        reservation is granted, `fate` how the write ends, and `torn` how much of
        the frame an interrupted write leaves. The row is written iff it fits,
        is reserved, its header fields hold it and the write completes; otherwise
        every complete row stays readable. */
    method WriteRow(row: Row, limit: nat, reserved: bool, fate: Fate, torn: nat) returns (done: Outcome<()>)
      requires Valid()
      modifies this, file
      ensures done.Ok? <==>
        var body := codec.encode(BodyOf(row));
        |body| <= limit && reserved && Writable(codec, row) && fate == Completes && old(count) + 1 < U64_LIMIT
      ensures done.Ok? ==> Valid() && rows == old(rows) + [row]
      ensures !done.Ok? ==> rows == old(rows) && file.Commits(codec, rows)
    {
      var body := codec.encode(BodyOf(row));
      var encoded, _ := EncodeFrame([body], [body], limit, reserved);
      assert Flatten([body]) == body;
      assert file.bytes + [] == file.bytes;
      TornTail(codec, 0, rows, []);
      if !encoded.Ok? {
        return encoded.Failure();
      }
      if |body| >= 0x1_0000_0000 {
        return Err(Encode);
      }
      if row.retained >= U64_LIMIT {
        return Err(RunLimit);
      }
      done := AppendFrame(row, fate, torn);
    }

    /** The append of a frame: whole, or torn anywhere. */
    method AppendFrame(row: Row, fate: Fate, torn: nat) returns (done: Outcome<()>)
      requires Valid() && Writable(codec, row)
      modifies this, file
      ensures done.Ok? <==> fate == Completes && old(count) + 1 < U64_LIMIT
      ensures done.Ok? ==> Valid() && rows == old(rows) + [row]
      ensures !done.Ok? ==> rows == old(rows) && file.Commits(codec, rows)
    {
      var frame := Frame(codec, row);
      var stored := if fate == Completes then frame else frame[..Min(torn, |frame|)];
      TornTail(codec, 0, rows, stored);
      FileSnoc(codec, 0, rows, row);
      file.bytes := file.bytes + stored;
      if fate != Completes {
        return fate.Failure();
      }
      if count + 1 == U64_LIMIT {
        return Err(RunLimit);
      }
      count := count + 1;
      rows := rows + [row];
      done := Ok(());
    }

    /** Patch the header with the row count; an interrupted patch may leave any
        part of it, and the rows stay readable all the same. */
    method Finish(fate: Fate, torn: nat) returns (done: Outcome<()>)
      requires Valid()
      modifies file
      ensures done.Ok? <==> fate == Completes
      ensures done.Ok? ==> file.bytes == FileBytes(codec, |rows|, rows)
      ensures file.Commits(codec, rows)
    {
      var stored := if fate == Completes then 8 else Min(torn, 8);
      Patched(LittleEndian(count, 8), LittleEndian(0, 8), Frames(codec, rows), stored);
      file.bytes := LittleEndian(count, 8)[..stored] + file.bytes[stored..];
      done := if fate == Completes then Ok(()) else fate.Failure();
    }
  }

  /** `rows` are committed in `bytes`, in frames that their codec can read. */
  ghost predicate Intact(codec: Codec, bytes: seq<Byte>, rows: seq<Row>) {
    && codec.Lawful() && (forall row | row in rows :: Writable(codec, row))
    && |bytes| >= 8 && Frames(codec, rows) <= bytes[8..]
  }

  /** Where the frame of row `position` starts in its file. */
  function FrameStart(codec: Codec, rows: seq<Row>, position: nat): nat
    requires position <= |rows|
  {
    8 + |Frames(codec, rows[..position])|
  }

  /** A reader keeps only its place: no open file and no buffered row. */
  class RunReader {
    const codec: Codec
    const file: File
    var offset: nat
    var remaining: nat

    /** The reader stands before frame `position` of the committed `rows`. */
    ghost predicate At(rows: seq<Row>, position: nat)
      reads this, file
    {
      Intact(codec, file.bytes, rows) && position <= |rows| && offset == FrameStart(codec, rows, position)
    }

    constructor (codec: Codec, file: File, offset: nat, remaining: nat)
      ensures this.codec == codec && this.file == file && this.offset == offset && this.remaining == remaining
    {
      this.codec, this.file, this.offset, this.remaining := codec, file, offset, remaining;
    }

    /** Read the next frame. A committed row is returned iff the read completes
        and its charges are granted: the bytes behind the committed frames and the
        header count are irrelevant. A read that fails does not move the reader. */
    method NextRow(fate: Fate, reserved: bool, ghost rows: seq<Row>, ghost position: nat)
      returns (next: Outcome<Option<Row>>)
      requires At(rows, position)
      modifies this
      ensures next == Ok(None) <==> old(remaining) == 0
      ensures old(remaining) > 0 && position < |rows| && |file.bytes| < U64_LIMIT ==>
        (next.Ok? <==> fate == Completes && reserved)
      ensures next.Ok? && next.value.Some? && position < |rows| ==>
        next.value.value == rows[position] && At(rows, position + 1) && remaining == old(remaining) - 1
      ensures !next.Ok? || next.value.None? ==> offset == old(offset) && remaining == old(remaining)
    {
      if remaining == 0 {
        return Ok(None);
      }
      if position < |rows| {
        NextFrame(rows, position);
      }
      if fate != Completes {
        return fate.Failure();
      }
      if offset > |file.bytes| {
        return Err(Io);
      }
      if !reserved {
        return Err(MemoryBudget);
      }
      var parsed := ParseFrame(codec, file.bytes[offset..]);
      if !parsed.Ok? {
        return parsed.Failure();
      }
      if offset + parsed.value.1 >= U64_LIMIT {
        return Err(RunLimit);
      }
      offset, remaining := offset + parsed.value.1, remaining - 1;
      next := Ok(Some(parsed.value.0));
    }

    lemma NextFrame(rows: seq<Row>, position: nat)
      requires At(rows, position) && position < |rows|
      ensures offset <= |file.bytes|
      ensures ParseFrame(codec, file.bytes[offset..]) == Ok((rows[position], |Frame(codec, rows[position])|))
      ensures offset + |Frame(codec, rows[position])| == 8 + |Frames(codec, rows[..position + 1])|
      ensures offset + |Frame(codec, rows[position])| <= |file.bytes|
    {
      CommittedFrame(codec, file.bytes[8..], rows, position);
      assert file.bytes[offset..] == file.bytes[8..][offset - 8..];
    }
  }

  /** How the opening of a run and the read of each of its frames end, and which
      frame reservations are granted. */
  datatype Reads = Reads(opening: Fate, fate: nat -> Fate, reserved: nat -> bool) {
    ghost predicate Clean(frames: nat) {
      opening == Completes && forall i | 0 <= i < frames :: fate(i) == Completes && reserved(i)
    }
  }

  /** Read a finished file from its header to its end: exactly the written rows
      come out, iff every read completes and every reservation is granted. */
  method ReadRun(codec: Codec, file: File, schedule: Reads, ghost rows: seq<Row>) returns (read: Outcome<seq<Row>>)
    requires codec.Lawful() && |rows| < U64_LIMIT && forall row | row in rows :: Writable(codec, row)
    requires file.bytes == FileBytes(codec, |rows|, rows) && |file.bytes| < U64_LIMIT
    ensures read.Ok? <==> schedule.Clean(|rows|)
    ensures read.Ok? ==> read.value == rows
  {
    if schedule.opening != Completes {
      return schedule.opening.Failure();
    }
    HeaderRoundTrip(0, |rows|);
    assert file.bytes[..8] == LittleEndian(|rows|, 8) && file.bytes[8..] == Frames(codec, rows);
    assert rows[..0] == [];
    var reader := new RunReader(codec, file, 8, FromLittleEndian(file.bytes[..8]));
    read := ReadRest(reader, schedule, rows);
  }

  /** Read row `n` after the rows before it. */
  method ReadNth(reader: RunReader, schedule: Reads, n: nat, ghost rows: seq<Row>) returns (next: Outcome<Option<Row>>)
    requires reader.At(rows, n) && reader.remaining == |rows| - n && |reader.file.bytes| < U64_LIMIT
    requires schedule.Clean(n)
    modifies reader
    ensures next == Ok(None) <==> n == |rows|
    ensures n < |rows| ==> (next.Ok? <==> schedule.Clean(n + 1))
    ensures n < |rows| && next.Ok? ==>
      next == Ok(Some(rows[n])) && reader.At(rows, n + 1) && reader.remaining == |rows| - (n + 1)
  {
    next := reader.NextRow(schedule.fate(n), schedule.reserved(n), rows, n);
  }

  lemma CleanPrefix(schedule: Reads, n: nat, m: nat)
    requires n <= m && schedule.Clean(m)
    ensures schedule.Clean(n)
  {
  }

  method ReadRest(reader: RunReader, schedule: Reads, ghost rows: seq<Row>) returns (read: Outcome<seq<Row>>)
    requires reader.At(rows, 0) && reader.remaining == |rows| && |reader.file.bytes| < U64_LIMIT
    requires schedule.opening == Completes
    modifies reader
    ensures read.Ok? <==> schedule.Clean(|rows|)
    ensures read.Ok? ==> read.value == rows
  {
    var result: seq<Row> := [];
    while true
      invariant |result| + reader.remaining == |rows| && result <= rows
      invariant reader.At(rows, |result|) && schedule.Clean(|result|)
      decreases reader.remaining
    {
      var next := ReadNth(reader, schedule, |result|, rows);
      if !next.Ok? {
        if schedule.Clean(|rows|) {
          CleanPrefix(schedule, |result| + 1, |rows|);
        }
        return next.Failure();
      }
      if next.value.None? {
        return Ok(result);
      }
      result := result + [next.value.value];
    }
  }
}
