/** The row-level scratch directory as bytes: every change of its files is the
    byte operation of the run format, over whole runs of changes. */
module RunBytes {
  import opened Rows
  import opened FrameCodec
  import opened RunFormat
  import Scratch

  type Path = Scratch.Path
  type RunFile = Scratch.RunFile

  /** The bytes that a file of the row-level directory stands for. */
  function Image(codec: Codec, file: RunFile): seq<Byte> {
    FileBytes(codec, file.count, file.rows)
  }

  function Images(codec: Codec, files: map<Path, RunFile>): map<Path, seq<Byte>> {
    map path | path in files :: Image(codec, files[path])
  }

  // ----- changes of the directory -----

  /** A file operation that had its whole effect. */
  datatype Change =
    | Create(path: Path)
    | Append(path: Path, row: Row)
    | PatchCount(path: Path, count: nat)
    | Remove(path: Path)

  function OnRows(files: map<Path, RunFile>, change: Change): map<Path, RunFile> {
    var path := change.path;
    match change
    case Create(_) => files[path := Scratch.RunFile(0, [])]
    case Append(_, row) =>
      if path in files then files[path := Scratch.RunFile(files[path].count, files[path].rows + [row])] else files
    case PatchCount(_, count) =>
      if path in files then files[path := Scratch.RunFile(count, files[path].rows)] else files
    case Remove(_) => files - {path}
  }

  /** The same operation on bytes: a new file holds a zero header, an append adds
      one frame, and the patch overwrites the first eight bytes. */
  function OnBytes(codec: Codec, bytes: map<Path, seq<Byte>>, change: Change): map<Path, seq<Byte>> {
    var path := change.path;
    match change
    case Create(_) => bytes[path := LittleEndian(0, 8)]
    case Append(_, row) => if path in bytes then bytes[path := bytes[path] + Frame(codec, row)] else bytes
    case PatchCount(_, count) =>
      if path in bytes && |bytes[path]| >= 8 then bytes[path := LittleEndian(count, 8) + bytes[path][8..]] else bytes
    case Remove(_) => bytes - {path}
  }

  lemma PatchedImage(codec: Codec, file: RunFile, count: nat)
    ensures |Image(codec, file)| >= 8
    ensures LittleEndian(count, 8) + Image(codec, file)[8..] == Image(codec, Scratch.RunFile(count, file.rows))
  {
    assert Image(codec, file)[8..] == Frames(codec, file.rows);
  }

  lemma EmptyImage(codec: Codec)
    ensures Image(codec, Scratch.RunFile(0, [])) == LittleEndian(0, 8)
  {
    assert Frames(codec, []) == [];
  }

  /** Every change of the rows is its change of the bytes. */
  lemma ChangeRefines(codec: Codec, files: map<Path, RunFile>, change: Change)
    ensures Images(codec, OnRows(files, change)) == OnBytes(codec, Images(codec, files), change)
  {
    hide Image, LittleEndian, Frame;
    var path := change.path;
    match change
    case Create(_) => EmptyImage(codec);
    case Append(_, row) =>
      if path in files {
        AppendedImage(codec, files[path], row);
      }
    case PatchCount(_, count) =>
      if path in files {
        PatchedImage(codec, files[path], count);
      }
    case Remove(_) =>
  }

  lemma AppendedImage(codec: Codec, file: RunFile, row: Row)
    ensures Image(codec, file) + Frame(codec, row) == Image(codec, Scratch.RunFile(file.count, file.rows + [row]))
  {
    FileSnoc(codec, file.count, file.rows, row);
  }

  function RowRun(files: map<Path, RunFile>, changes: seq<Change>): map<Path, RunFile> {
    if changes == [] then files
    else OnRows(RowRun(files, changes[..|changes| - 1]), changes[|changes| - 1])
  }

  function ByteRun(codec: Codec, bytes: map<Path, seq<Byte>>, changes: seq<Change>): map<Path, seq<Byte>> {
    if changes == [] then bytes
    else OnBytes(codec, ByteRun(codec, bytes, changes[..|changes| - 1]), changes[|changes| - 1])
  }

  /** After any sequence of changes the directory of rows and the directory of
      bytes agree. */
  lemma {:induction false} RunRefines(codec: Codec, files: map<Path, RunFile>, changes: seq<Change>)
    ensures Images(codec, RowRun(files, changes)) == ByteRun(codec, Images(codec, files), changes)
  {
    if changes != [] {
      RunRefines(codec, files, changes[..|changes| - 1]);
      ChangeRefines(codec, RowRun(files, changes[..|changes| - 1]), changes[|changes| - 1]);
    }
  }

  /** An operation of the scratch directory that completes is its change of the
      bytes; one that does not leaves every other file's bytes alone. */
  method Perform(disk: Scratch.Disk, codec: Codec, change: Change) returns (done: Outcome<()>)
    requires change.Append? || change.PatchCount? ==> change.path in disk.files
    modifies disk
    ensures done.Ok? ==> Images(codec, disk.files) == OnBytes(codec, Images(codec, old(disk.files)), change)
    ensures forall path | path != change.path && path in old(disk.files) ::
      path in disk.files && Image(codec, disk.files[path]) == Image(codec, old(disk.files)[path])
  {
    hide Images, Image, OnBytes;
    match change {
      case Create(path) => done := disk.Create(path);
      case Append(path, row) => done := disk.Append(path, row);
      case PatchCount(path, count) => done := disk.PatchCount(path, count);
      case Remove(path) => done := disk.RemoveIfExists(path);
    }
    ChangeRefines(codec, old(disk.files), change);
  }

  // ----- what is read back -----

  /** A file whose header and rows fit their fields. */
  predicate Encodable(codec: Codec, file: RunFile) {
    file.count < U64_LIMIT && forall row | row in file.rows :: Writable(codec, row)
  }

  /** The header and every frame of the bytes read back as the count and the row
      that the row-level directory returns for them. */
  lemma ReadsAgree(codec: Codec, file: RunFile, position: nat)
    requires codec.Lawful() && Encodable(codec, file)
    ensures FromLittleEndian(Image(codec, file)[..8]) == file.count
    ensures position < |file.rows| ==>
      var start := FrameStart(codec, file.rows, position);
      && start <= |Image(codec, file)|
      && ParseFrame(codec, Image(codec, file)[start..]) ==
           Ok((file.rows[position], FrameStart(codec, file.rows, position + 1) - start))
  {
    HeaderRoundTrip(0, file.count);
    var bytes := Image(codec, file);
    assert bytes[..8] == LittleEndian(file.count, 8) && bytes[8..] == Frames(codec, file.rows);
    if position < |file.rows| {
      CommittedFrame(codec, bytes[8..], file.rows, position);
      assert bytes[FrameStart(codec, file.rows, position)..] == bytes[8..][|Frames(codec, file.rows[..position])|..];
    }
  }

  lemma ImageInjective(codec: Codec, a: RunFile, b: RunFile)
    requires codec.Lawful() && Encodable(codec, a) && Encodable(codec, b) && Image(codec, a) == Image(codec, b)
    ensures a == b
  {
    ReadsAgree(codec, a, |a.rows|);
    ReadsAgree(codec, b, |b.rows|);
    assert Image(codec, a)[8..] == Frames(codec, a.rows) && Image(codec, b)[8..] == Frames(codec, b.rows);
    FramesInjective(codec, a.rows, b.rows);
  }

  /** Directories of equal bytes are equal: the rows are all that the bytes say. */
  lemma ImagesInjective(codec: Codec, a: map<Path, RunFile>, b: map<Path, RunFile>)
    requires codec.Lawful() && Images(codec, a) == Images(codec, b)
    requires forall path | path in a :: Encodable(codec, a[path])
    requires forall path | path in b :: Encodable(codec, b[path])
    ensures a == b
  {
    assert a.Keys == Images(codec, a).Keys && b.Keys == Images(codec, b).Keys;
    forall path | path in a ensures path in b && a[path] == b[path] {
      assert path in Images(codec, b) && Images(codec, a)[path] == Images(codec, b)[path];
      ImageInjective(codec, a[path], b[path]);
    }
    assert a.Keys == b.Keys;
  }

  // ----- a whole run -----

  /** How the writes of a run end: per frame, and last the patch of the header. */
  datatype Writing = Writing(limit: nat, fate: nat -> Fate, reserved: nat -> bool, torn: nat) {
    /** The first `n` rows can be written under the limit, and their writes succeed. */
    ghost predicate Clean(codec: Codec, rows: seq<Row>, n: nat)
      requires n <= |rows|
    {
      forall i | 0 <= i < n ::
        && |codec.encode(BodyOf(rows[i]))| <= limit && Writable(codec, rows[i])
        && fate(i) == Completes && reserved(i) && i + 1 < U64_LIMIT
    }
  }

  /** Write a run as bytes, frame by frame and header last. Iff everything fits and
      completes, the file holds the bytes of the finished run of these rows. */
  method WriteRun(codec: Codec, rows: seq<Row>, writing: Writing) returns (done: Outcome<()>, file: File)
    ensures done.Ok? <==> writing.Clean(codec, rows, |rows|) && writing.fate(|rows|) == Completes
    ensures done.Ok? ==> file.bytes == Image(codec, Scratch.RunFile(|rows|, rows))
    ensures done.Ok? ==> Encodable(codec, Scratch.RunFile(|rows|, rows))
    ensures fresh(file)
  {
    hide Writable, FileBytes;
    var writer := new RunFormat.RunWriter(codec);
    file := writer.file;
    var n := 0;
    while n < |rows|
      invariant n <= |rows| && writer.Valid() && fresh(writer) && fresh(file) && writer.file == file
      invariant writer.codec == codec && writer.rows == rows[..n] && writing.Clean(codec, rows, n)
    {
      done := writer.WriteRow(rows[n], writing.limit, writing.reserved(n), writing.fate(n), writing.torn);
      if !done.Ok? {
        return;
      }
      assert rows[..n + 1] == rows[..n] + [rows[n]];
      n := n + 1;
    }
    assert rows[..n] == rows;
    done := writer.Finish(writing.fate(n), writing.torn);
  }
}
