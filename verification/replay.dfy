/** The replay log: one writer, any number of cursors, a row watermark and a
    terminal state. One step per atomic access, notification, await and return. */
module Replay {
  import opened Rows

  datatype Status = Writing | Sealed | Failed

  /** The published log: watermark, terminal state, complete frames in the file,
      and, as history, the values published so far. */
  datatype Log = Log(rows: nat, status: Status, frames: seq<Value>, appended: seq<Value>)

  // ----- one cursor -----

  datatype Phase =
    | Resting
    | LoadingState
    | LoadingRows(isSealed: bool)
    | Deciding(published: nat, isSealed: bool)
    | Reading
    | Rechecking(value: Value)
    | Returning(value: Value)
    | Parked

  /** `waiter` is present inside `next`: a registered waiter and whether it was
      notified since. `seen` is what the cursor returned since its start or last
      rewind, and `exhausted` that it then returned the final end. */
  datatype Cursor = Cursor(phase: Phase, position: nat, waiter: Option<bool>, seen: seq<Value>, exhausted: bool)

  datatype CursorStep =
    | CallNextCommitted
    | CallNext
    | LoadState
    | LoadRows
    | Decide
    | ReadDone
    | ReadFails
    | RecheckState
    | ReturnItem
    | Wake
    | Cancel
    | Rewind

  function Return(c: Cursor): Cursor {
    c.(phase := Resting, waiter := None)
  }

  /** One step of a cursor against the log as it is now. */
  function CursorNext(c: Cursor, step: CursorStep, log: Log): Option<Cursor> {
    match (step, c.phase)
    case (CallNextCommitted, Resting) => Some(c.(phase := LoadingState))
    case (CallNext, Resting) => Some(c.(phase := LoadingState, waiter := Some(false)))
    case (LoadState, LoadingState) =>
      if log.status == Failed then Some(Return(c)) else Some(c.(phase := LoadingRows(log.status == Sealed)))
    case (LoadRows, LoadingRows(isSealed)) => Some(c.(phase := Deciding(log.rows, isSealed)))
    case (Decide, Deciding(published, isSealed)) =>
      if c.position < published then Some(c.(phase := Reading))
      else if isSealed then Some(Return(c).(exhausted := true))
      else if c.waiter.Some? then Some(c.(phase := Parked))
      else Some(Return(c))
    case (ReadDone, Reading) =>
      if c.position < |log.frames| then Some(c.(phase := Rechecking(log.frames[c.position]))) else Some(Return(c))
    case (ReadFails, Reading) => Some(Return(c))
    case (RecheckState, Rechecking(value)) =>
      if log.status == Failed then Some(Return(c)) else Some(c.(phase := Returning(value)))
    case (ReturnItem, Returning(value)) =>
      Some(Return(c).(position := c.position + 1, seen := c.seen + [value]))
    case (Wake, Parked) =>
      if c.waiter == Some(true) then Some(c.(phase := LoadingState, waiter := Some(false))) else None
    case (Cancel, Reading) => Some(Return(c))
    case (Cancel, Parked) => Some(Return(c))
    case (Rewind, Resting) => Some(c.(position := 0, seen := [], exhausted := false))
    case _ => None
  }

  /** A notification reaches every registered waiter. */
  function Notified(c: Cursor): Cursor {
    if c.waiter.Some? then c.(waiter := Some(true)) else c
  }

  /** What a cursor has returned is the published prefix before its position, a
      final end was returned only after the whole sealed log, and a value read
      but not yet returned is the next published one. */
  ghost predicate CursorSafe(c: Cursor, log: Log) {
    && c.position <= log.rows == |log.appended|
    && c.seen == log.appended[..c.position]
    && (c.exhausted ==> log.status == Sealed && c.seen == log.appended)
    && match c.phase
       case LoadingRows(isSealed) => isSealed ==> log.status == Sealed
       case Deciding(published, isSealed) =>
         published <= log.rows && (isSealed ==> log.status == Sealed && published == log.rows)
       case Reading => c.position < log.rows
       case Rechecking(value) => c.position < log.rows && value == log.appended[c.position]
       case Returning(value) => c.position < log.rows && value == log.appended[c.position]
       case _ => true
  }

  /** A waiter not notified since it registered has missed nothing: what it
      loaded is current, or the writer stands between a change and its notify. */
  ghost predicate NothingMissed(c: Cursor, log: Log, notifyPending: bool) {
    c.waiter == Some(false) && !notifyPending ==>
      match c.phase
      case LoadingRows(isSealed) => !isSealed ==> log.status == Writing
      case Deciding(published, isSealed) => !isSealed ==> log.status == Writing && published == log.rows
      case Parked => log.status == Writing && c.position >= log.rows
      case _ => true
  }

  ghost predicate CursorInv(c: Cursor, log: Log, notifyPending: bool) {
    && CursorSafe(c, log) && NothingMissed(c, log, notifyPending)
    && (c.phase == Parked ==> c.waiter.Some?) && (c.phase == Resting ==> c.waiter.None?)
  }

  lemma CursorStepKeeps(c: Cursor, step: CursorStep, log: Log, notifyPending: bool)
    requires CursorInv(c, log, notifyPending) && log.appended <= log.frames
    ensures CursorNext(c, step, log).Some? ==> CursorInv(CursorNext(c, step, log).value, log, notifyPending)
  {
    if step.ReturnItem? && c.phase.Returning? {
      assert log.appended[..c.position + 1] == log.appended[..c.position] + [log.appended[c.position]];
    }
  }

  /** A cursor's steps with nothing in between. */
  function CursorRun(c: Cursor, steps: seq<CursorStep>, log: Log): Option<Cursor>
    decreases |steps|
  {
    if steps == [] then Some(c)
    else
      var moved := CursorNext(c, steps[0], log);
      if moved.None? then None else CursorRun(moved.value, steps[1..], log)
  }

  lemma CursorRunCons(c: Cursor, step: CursorStep, steps: seq<CursorStep>, log: Log)
    requires CursorNext(c, step, log).Some?
    ensures CursorRun(c, [step] + steps, log) == CursorRun(CursorNext(c, step, log).value, steps, log)
  {
    assert ([step] + steps)[1..] == steps;
  }

  /** A call that nothing disturbs: it returns the next published value if there
      is one; at the watermark it returns the final end iff the log is sealed, and
      otherwise reports the provisional end or, inside `next`, parks; on a failed
      log it returns an error and moves nothing. */
  lemma UndisturbedCall(c: Cursor, log: Log)
    requires CursorInv(c, log, false) && c.phase == LoadingState && log.appended <= log.frames
    ensures log.status == Failed ==> CursorRun(c, [LoadState], log) == Some(Return(c))
    ensures log.status != Failed && c.position < log.rows ==>
      CursorRun(c, [LoadState, LoadRows, Decide, ReadDone, RecheckState, ReturnItem], log) ==
        Some(Return(c).(position := c.position + 1, seen := c.seen + [log.appended[c.position]]))
    ensures log.status != Failed && c.position == log.rows ==>
      CursorRun(c, [LoadState, LoadRows, Decide], log) ==
        Some(if log.status == Sealed then Return(c).(exhausted := true)
             else if c.waiter.Some? then c.(phase := Parked)
             else Return(c))
  {
    hide CursorNext, CursorRun, NothingMissed;
    if log.status == Failed {
      CallFails(c, log);
    } else if c.position < log.rows {
      CallReads(c, log);
    } else {
      CallEnds(c, log);
    }
  }

  lemma CallFails(c: Cursor, log: Log)
    requires c.phase == LoadingState && log.status == Failed
    ensures CursorRun(c, [LoadState], log) == Some(Return(c))
  {
    CursorRunCons(c, LoadState, [], log);
    assert [LoadState] + [] == [LoadState];
  }

  lemma CallReads(c: Cursor, log: Log)
    requires c.phase == LoadingState && log.status != Failed && log.appended <= log.frames
    requires c.position < log.rows == |log.appended|
    ensures CursorRun(c, [LoadState, LoadRows, Decide, ReadDone, RecheckState, ReturnItem], log) ==
      Some(Return(c).(position := c.position + 1, seen := c.seen + [log.appended[c.position]]))
  {
    ReadingRun(c.(phase := Reading), log);
    CursorRunCons(c.(phase := Deciding(log.rows, log.status == Sealed)), Decide,
                  [ReadDone, RecheckState, ReturnItem], log);
    CursorRunCons(c.(phase := LoadingRows(log.status == Sealed)), LoadRows,
                  [Decide, ReadDone, RecheckState, ReturnItem], log);
    CursorRunCons(c, LoadState, [LoadRows, Decide, ReadDone, RecheckState, ReturnItem], log);
  }

  lemma CallEnds(c: Cursor, log: Log)
    requires c.phase == LoadingState && log.status != Failed && c.position == log.rows
    ensures CursorRun(c, [LoadState, LoadRows, Decide], log) ==
      Some(if log.status == Sealed then Return(c).(exhausted := true)
           else if c.waiter.Some? then c.(phase := Parked)
           else Return(c))
  {
    CursorRunCons(c.(phase := Deciding(log.rows, log.status == Sealed)), Decide, [], log);
    CursorRunCons(c.(phase := LoadingRows(log.status == Sealed)), LoadRows, [Decide], log);
    CursorRunCons(c, LoadState, [LoadRows, Decide], log);
  }

  lemma ReadingRun(c: Cursor, log: Log)
    requires c.phase == Reading && c.position < |log.appended| && log.appended <= log.frames && log.status != Failed
    ensures CursorRun(c, [ReadDone, RecheckState, ReturnItem], log) ==
      Some(Return(c).(position := c.position + 1, seen := c.seen + [log.appended[c.position]]))
  {
    var value := log.frames[c.position];
    CursorRunCons(c.(phase := Returning(value)), ReturnItem, [], log);
    CursorRunCons(c.(phase := Rechecking(value)), RecheckState, [ReturnItem], log);
    CursorRunCons(c, ReadDone, [RecheckState, ReturnItem], log);
  }

  // ----- the writer -----

  datatype After = BackToIdle | ThenClaim | ThenDrop

  datatype Writer =
    | Idle
    | Dropped
    | AppendBegun(value: Value)
    | AppendPreparing(value: Value)
    | AppendWriting(value: Value, landed: bool)
    | AppendChecking(value: Value)
    | AppendStoring(value: Value)
    | AppendNotifying(value: Value)
    | AppendCompleting(value: Value)
    | SealBegun
    | SealPreparing
    | SealFinishing
    | SealSwapping
    | SealNotifying
    | SealCompleting
    | Failing(after: After)
    | FailNotifying(after: After)
    | Claiming
    | Cleaning

  datatype Storage = Present | Removing | Removed

  /** A file job that outlives its cancelled caller: the write of a frame, or the
      creation of the directory and the file, or the patch of the header. */
  datatype Job = FrameWrite(value: Value) | OtherWork

  /** `owner`: the writer holds the storage; `fileOpen`: its run writer exists;
      `reserved`: the scratch reservation is assigned; `orphan`: a file job
      that outlived its cancelled append or seal; `returned`: values of the appends that
      returned Ok; `panicked`: an assertion or expect of the code failed. */
  datatype State = State(
    log: Log, writer: Writer, count: nat, owner: bool, fileOpen: bool, reserved: bool,
    orphan: Option<Job>, returned: seq<Value>, replay: bool, storage: Storage, panicked: bool,
    cursors: map<nat, Cursor>)

  datatype Step =
    | AppendBegin(value: Value)
    | SealBegin
    | AbortBegin
    | DropWriter
    | Prepare
    | PrepareReturns
    | Land
    | WriteReturns
    | CheckState
    | Store
    | Notify
    | Complete
    | FinishReturns
    | SwapSealed
    | AwaitFails
    | SwapFailed
    | OrphanEnds(landed: bool)
    | Claim
    | CleanupReturns(ok: bool)
    | PrefixCursor(id: nat)
    | NewCursor(id: nat)
    | CloneCursor(id: nat, copy: nat)
    | DropCursor(id: nat)
    | CursorMoves(id: nat, move: CursorStep)
    | CloseReplay
    | DropReplay
    | LastOwnerGone
    | RemovalDone

  function Init(): State {
    State(Log(0, Writing, [], []), Idle, 0, true, false, false, None, [], false, Present, false, map[])
  }

  function FreshCursor(): Cursor {
    Cursor(Resting, 0, None, [], false)
  }

  predicate NotifyPending(w: Writer) {
    w.AppendNotifying? || w.SealNotifying? || w.FailNotifying?
  }

  function WakeAll(cursors: map<nat, Cursor>): map<nat, Cursor> {
    map id | id in cursors :: Notified(cursors[id])
  }

  /** Calls of the writer up to the point where the frame or header is on disk. */
  function WriterCalls(s: State, step: Step): Option<State> {
    match step
    case AppendBegin(value) =>
      if !s.writer.Idle? then None
      else if s.owner && s.log.status == Writing then Some(s.(writer := AppendBegun(value)))
      else Some(s)
    case SealBegin =>
      if !s.writer.Idle? then None
      else if s.owner && s.log.status == Writing then Some(s.(writer := SealBegun))
      else Some(s)
    case AbortBegin =>
      if !s.writer.Idle? then None else if s.owner then Some(s.(writer := Failing(ThenClaim))) else Some(s)
    case DropWriter =>
      if s.writer.Idle? then Some(s.(writer := if s.owner then Failing(ThenDrop) else Dropped)) else None
    case Prepare =>
      if s.writer.AppendBegun? then
        if s.fileOpen then Some(s.(writer := AppendWriting(s.writer.value, false)))
        else Some(s.(writer := AppendPreparing(s.writer.value), reserved := true, panicked := s.panicked || s.reserved))
      else if s.writer.SealBegun? then
        if s.fileOpen then Some(s.(writer := SealFinishing, fileOpen := false))
        else Some(s.(writer := SealPreparing, reserved := true, panicked := s.panicked || s.reserved))
      else None
    case PrepareReturns =>
      if s.writer.AppendPreparing? then Some(s.(writer := AppendWriting(s.writer.value, false), fileOpen := true))
      else if s.writer.SealPreparing? then Some(s.(writer := SealFinishing, fileOpen := false))
      else None
    case Land =>
      if s.writer.AppendWriting? && !s.writer.landed then
        Some(s.(writer := AppendWriting(s.writer.value, true), log := s.log.(frames := s.log.frames + [s.writer.value]),
                panicked := s.panicked || !s.fileOpen))
      else None
    case WriteReturns =>
      if s.writer.AppendWriting? && s.writer.landed
      then Some(s.(writer := AppendChecking(s.writer.value), count := s.count + 1)) else None
    case FinishReturns =>
      if s.writer.SealFinishing? then Some(s.(writer := SealSwapping)) else None
    case _ => None
  }

  /** The atomic accesses and the notification of `publish`. */
  function AppendPublishes(s: State, step: Step): Option<State> {
    match step
    case CheckState =>
      if s.writer.AppendChecking?
      then Some(s.(writer := if s.log.status == Writing then AppendStoring(s.writer.value) else Failing(BackToIdle)))
      else None
    case Store =>
      if s.writer.AppendStoring?
      then Some(s.(writer := AppendNotifying(s.writer.value),
                   log := s.log.(rows := s.count, appended := s.log.appended + [s.writer.value])))
      else None
    case Notify =>
      if s.writer.AppendNotifying?
      then Some(s.(writer := AppendCompleting(s.writer.value), cursors := WakeAll(s.cursors))) else None
    case Complete =>
      if s.writer.AppendCompleting?
      then Some(s.(writer := Idle, returned := s.returned + [s.writer.value])) else None
    case _ => None
  }

  /** The atomic accesses and notifications of `seal` and `fail`. */
  function Terminates(s: State, step: Step): Option<State> {
    match step
    case SwapSealed =>
      if !s.writer.SealSwapping? then None
      else if s.log.status == Writing then Some(s.(writer := SealNotifying, log := s.log.(status := Sealed)))
      else Some(s.(writer := Failing(BackToIdle)))
    case SwapFailed =>
      if !s.writer.Failing? then None
      else if s.log.status == Writing
      then Some(s.(writer := FailNotifying(s.writer.after), log := s.log.(status := Failed)))
      else Some(AfterFail(s, s.writer.after))
    case Notify =>
      if s.writer.SealNotifying? then Some(s.(writer := SealCompleting, cursors := WakeAll(s.cursors)))
      else if s.writer.FailNotifying? then Some(AfterFail(s.(cursors := WakeAll(s.cursors)), s.writer.after))
      else None
    case Complete =>
      if s.writer.SealCompleting?
      then Some(s.(writer := Idle, owner := false, replay := true, panicked := s.panicked || !s.owner)) else None
    case _ => None
  }

  /** Control after `fail` returned. */
  function AfterFail(s: State, after: After): State {
    s.(writer := if after.BackToIdle? then Idle else if after.ThenClaim? then Claiming else Dropped,
       owner := s.owner && !after.ThenDrop?,
       fileOpen := s.fileOpen && after.BackToIdle?)
  }

  /** The writer awaits a file operation of an append or a seal. */
  predicate Awaits(w: Writer) {
    w.AppendBegun? || w.AppendPreparing? || w.AppendWriting? || w.SealBegun? || w.SealPreparing? || w.SealFinishing?
  }

  /** The job that the writer awaits, unless it has landed. */
  function Outliving(w: Writer): Option<Job> {
    match w
    case AppendWriting(value, landed) => if landed then None else Some(FrameWrite(value))
    case AppendPreparing(_) => Some(OtherWork)
    case SealPreparing => Some(OtherWork)
    case SealFinishing => Some(OtherWork)
    case _ => None
  }

  function LateFrames(job: Job, landed: bool): seq<Value> {
    if landed && job.FrameWrite? then [job.value] else []
  }

  /** Failed or cancelled awaits, and the jobs that outlive them. A removal waits
      until its scope is idle, so it ends after an orphaned job. */
  function WriterFails(s: State, step: Step): Option<State> {
    match step
    case AwaitFails =>
      if Awaits(s.writer) then Some(s.(writer := Failing(BackToIdle), orphan := Outliving(s.writer)))
      else if s.writer.Cleaning? then Some(s.(writer := Idle))
      else None
    case OrphanEnds(landed) =>
      if s.orphan.None? then None
      else Some(s.(orphan := None, log := s.log.(frames := s.log.frames + LateFrames(s.orphan.value, landed))))
    case Claim =>
      if !s.writer.Claiming? then None
      else if s.cursors != map[] then Some(s.(writer := Idle))
      else Some(s.(writer := Cleaning, storage := if s.storage == Present then Removing else s.storage))
    case CleanupReturns(ok) =>
      if !s.writer.Cleaning? then None
      else if !ok then Some(s.(writer := Idle))
      else if s.orphan.Some? then None
      else Some(s.(writer := Idle, storage := Removed, reserved := false))
    case _ => None
  }

  /** Cursors and handles. */
  function HandleMoves(s: State, step: Step): Option<State> {
    match step
    case PrefixCursor(id) =>
      if s.writer == Idle && s.owner && s.log.status != Failed && id !in s.cursors
      then Some(s.(cursors := s.cursors[id := FreshCursor()])) else None
    case NewCursor(id) =>
      if s.replay && id !in s.cursors then Some(s.(cursors := s.cursors[id := FreshCursor()])) else None
    case CloneCursor(id, copy) =>
      if id in s.cursors && s.cursors[id].phase == Resting && copy !in s.cursors
      then Some(s.(cursors := s.cursors[copy := s.cursors[id]])) else None
    case DropCursor(id) =>
      if id in s.cursors then Some(s.(cursors := s.cursors - {id})) else None
    case CursorMoves(id, move) =>
      if id !in s.cursors then None
      else
        var moved := CursorNext(s.cursors[id], move, s.log);
        if moved.None? then None else Some(s.(cursors := s.cursors[id := moved.value]))
    case CloseReplay =>
      if !s.replay then None
      else if s.cursors != map[] then Some(s.(replay := false))
      else Some(s.(replay := false, storage := Removing))
    case DropReplay => if s.replay then Some(s.(replay := false)) else None
    case LastOwnerGone =>
      if !s.owner && !s.replay && s.cursors == map[] && s.storage == Present &&
         (s.writer == Idle || s.writer == Dropped)
      then Some(s.(storage := Removing)) else None
    case RemovalDone =>
      if s.storage == Removing && s.writer != Cleaning && s.orphan.None? then Some(s.(storage := Removed)) else None
    case _ => None
  }

  function Next(s: State, step: Step): Option<State> {
    var calls := WriterCalls(s, step);
    if calls.Some? then calls else
    var publishes := AppendPublishes(s, step);
    if publishes.Some? then publishes else
    var terminates := Terminates(s, step);
    if terminates.Some? then terminates else
    var fails := WriterFails(s, step);
    if fails.Some? then fails else HandleMoves(s, step)
  }

  // ----- the invariant -----

  /** The guard of an append or seal is armed and has not reached its change. */
  predicate Armed(w: Writer) {
    w.AppendBegun? || w.AppendPreparing? || w.AppendWriting? || w.AppendChecking? || w.AppendStoring? ||
    w.SealBegun? || w.SealPreparing? || w.SealFinishing? || w.SealSwapping?
  }

  ghost predicate LogInv(s: State) {
    && s.log.rows == |s.log.appended| && s.log.appended <= s.log.frames
    && (match s.writer
        case AppendWriting(value, landed) =>
          s.count == s.log.rows && s.log.frames == s.log.appended + (if landed then [value] else [])
        case AppendChecking(value) => s.count == s.log.rows + 1 && s.log.frames == s.log.appended + [value]
        case AppendStoring(value) => s.count == s.log.rows + 1 && s.log.frames == s.log.appended + [value]
        case Failing(_) => true
        case _ => s.log.status == Writing ==> s.count == s.log.rows && s.log.frames == s.log.appended)
    && (s.orphan.Some? ==> s.log.status == Failed || s.writer.Failing?)
  }

  ghost predicate ReturnedInv(s: State) {
    if s.writer.AppendNotifying? || s.writer.AppendCompleting?
    then s.log.appended == s.returned + [s.writer.value]
    else s.log.appended == s.returned
  }

  ghost predicate OwnerInv(s: State) {
    && (Armed(s.writer) || s.writer.AppendNotifying? || s.writer.AppendCompleting? ==>
         s.log.status == Writing && s.owner)
    && (s.writer.SealNotifying? || s.writer.SealCompleting? ==> s.log.status == Sealed && s.owner)
    && (s.writer.FailNotifying? ==> s.log.status == Failed && s.owner)
    && (s.writer.Claiming? || s.writer.Cleaning? ==> s.log.status == Failed && s.owner)
    && (s.writer.Failing? ==> s.owner && s.log.status != Sealed)
    && (s.writer.Dropped? ==> !s.owner)
    && (s.owner && s.log.status == Sealed ==> s.writer.SealNotifying? || s.writer.SealCompleting?)
    && (!s.owner ==> s.log.status != Writing)
    && (s.replay ==> s.log.status == Sealed && !s.owner)
  }

  /** The scratch reservation is assigned once, and prepared writers are there. */
  ghost predicate PreparedInv(s: State) {
    && !s.panicked
    && (s.log.status == Writing && (s.writer.Idle? || s.writer.AppendBegun? || s.writer.SealBegun?) ==>
         s.reserved == s.fileOpen)
    && (s.writer.AppendPreparing? || s.writer.SealPreparing? ==> s.reserved)
    && (Prepared(s.writer) ==> s.reserved && s.fileOpen)
  }

  predicate Prepared(w: Writer) {
    w.AppendWriting? || w.AppendChecking? || w.AppendStoring? || w.AppendNotifying? || w.AppendCompleting?
  }

  /** Storage is never being removed while a cursor or a replay owns it, and no
      further cursor can appear; no file job outlives its removal. */
  ghost predicate StorageInv(s: State) {
    && (s.storage != Present ==> s.cursors == map[] && !s.replay && (s.owner ==> s.log.status == Failed))
    && (s.writer.Cleaning? ==> s.storage != Present)
    && (s.storage == Removed ==> s.orphan.None?)
  }

  ghost predicate CursorsInv(s: State) {
    forall id | id in s.cursors :: CursorInv(s.cursors[id], s.log, NotifyPending(s.writer))
  }

  ghost predicate ControlInv(s: State) {
    LogInv(s) && ReturnedInv(s) && OwnerInv(s) && PreparedInv(s) && StorageInv(s)
  }

  ghost predicate Inv(s: State) {
    ControlInv(s) && CursorsInv(s)
  }

  // ----- what the writer's steps mean for one cursor -----

  lemma StoreKeeps(c: Cursor, log: Log, value: Value)
    requires CursorInv(c, log, false) && log.status == Writing
    ensures CursorInv(c, log.(rows := log.rows + 1, appended := log.appended + [value]), true)
  {
  }

  lemma SwapKeeps(c: Cursor, log: Log, status: Status)
    requires CursorInv(c, log, false) && log.status == Writing
    ensures CursorInv(c, log.(status := status), true)
  {
  }

  lemma NotifyKeeps(c: Cursor, log: Log)
    requires CursorInv(c, log, true)
    ensures CursorInv(Notified(c), log, false)
  {
  }

  lemma FramesKeep(c: Cursor, log: Log, frames: seq<Value>, notifyPending: bool)
    requires CursorInv(c, log, notifyPending)
    ensures CursorInv(c, log.(frames := frames), notifyPending)
  {
  }

  // ----- every step keeps the invariant -----

  /** The cursors see nothing of the change from `s` to `t`. */
  ghost predicate Quiet(s: State, t: State) {
    && t.cursors == s.cursors && NotifyPending(t.writer) == NotifyPending(s.writer)
    && t.log == s.log.(frames := t.log.frames)
  }

  /** The log changed under the cursors, and the writer must still notify. */
  ghost predicate Changed(s: State, t: State, log: Log) {
    && t.cursors == s.cursors && !NotifyPending(s.writer) && NotifyPending(t.writer) && s.log.status == Writing
    && t.log == log
  }

  /** The writer notified every waiter of the change it made. */
  ghost predicate Announced(s: State, t: State) {
    t.cursors == WakeAll(s.cursors) && NotifyPending(s.writer) && !NotifyPending(t.writer) && t.log == s.log
  }

  lemma QuietKeepsCursors(s: State, t: State)
    requires CursorsInv(s) && Quiet(s, t)
    ensures CursorsInv(t)
  {
    forall id | id in t.cursors ensures CursorInv(t.cursors[id], t.log, NotifyPending(t.writer)) {
      FramesKeep(s.cursors[id], s.log, t.log.frames, NotifyPending(s.writer));
    }
  }

  lemma SealOrFailKeepsCursors(s: State, t: State)
    requires CursorsInv(s) && Changed(s, t, s.log.(status := t.log.status))
    ensures CursorsInv(t)
  {
    forall id | id in t.cursors ensures CursorInv(t.cursors[id], t.log, true) {
      SwapKeeps(s.cursors[id], s.log, t.log.status);
    }
  }

  lemma PublishKeepsCursors(s: State, t: State, value: Value)
    requires CursorsInv(s)
    requires Changed(s, t, s.log.(rows := s.log.rows + 1, appended := s.log.appended + [value]))
    ensures CursorsInv(t)
  {
    forall id | id in t.cursors ensures CursorInv(t.cursors[id], t.log, true) {
      StoreKeeps(s.cursors[id], s.log, value);
    }
  }

  lemma AnnounceKeepsCursors(s: State, t: State)
    requires CursorsInv(s) && Announced(s, t)
    ensures CursorsInv(t)
  {
    forall id | id in t.cursors ensures CursorInv(t.cursors[id], t.log, false) {
      NotifyKeeps(s.cursors[id], s.log);
    }
  }

  lemma CallsAreQuiet(s: State, step: Step)
    requires WriterCalls(s, step).Some?
    ensures Quiet(s, WriterCalls(s, step).value)
  {
  }

  lemma CallsKeepLog(s: State, step: Step)
    requires LogInv(s) && OwnerInv(s) && WriterCalls(s, step).Some?
    ensures LogInv(WriterCalls(s, step).value)
  {
  }

  lemma CallsKeepReturned(s: State, step: Step)
    requires ReturnedInv(s) && WriterCalls(s, step).Some?
    ensures ReturnedInv(WriterCalls(s, step).value)
  {
  }

  lemma CallsKeepOwner(s: State, step: Step)
    requires OwnerInv(s) && WriterCalls(s, step).Some?
    ensures OwnerInv(WriterCalls(s, step).value)
  {
  }

  lemma CallsKeepPrepared(s: State, step: Step)
    requires OwnerInv(s) && PreparedInv(s) && WriterCalls(s, step).Some?
    ensures PreparedInv(WriterCalls(s, step).value)
  {
  }

  lemma CallsKeepStorage(s: State, step: Step)
    requires StorageInv(s) && WriterCalls(s, step).Some?
    ensures StorageInv(WriterCalls(s, step).value)
  {
  }

  lemma CallsKeepControl(s: State, step: Step)
    requires ControlInv(s) && WriterCalls(s, step).Some?
    ensures ControlInv(WriterCalls(s, step).value)
  {
    hide WriterCalls, LogInv, ReturnedInv, OwnerInv, PreparedInv, StorageInv;
    CallsKeepLog(s, step);
    CallsKeepReturned(s, step);
    CallsKeepOwner(s, step);
    CallsKeepPrepared(s, step);
    CallsKeepStorage(s, step);
  }

  lemma AppendKeepsCursors(s: State, step: Step)
    requires ControlInv(s) && CursorsInv(s) && AppendPublishes(s, step).Some?
    ensures CursorsInv(AppendPublishes(s, step).value)
  {
    var t := AppendPublishes(s, step).value;
    match step
    case Store => PublishKeepsCursors(s, t, s.writer.value);
    case Notify => AnnounceKeepsCursors(s, t);
    case _ => QuietKeepsCursors(s, t);
  }

  lemma AppendKeepsControl(s: State, step: Step)
    requires ControlInv(s) && AppendPublishes(s, step).Some?
    ensures ControlInv(AppendPublishes(s, step).value)
  {
  }

  lemma NotifyIsAnnounced(s: State)
    requires Terminates(s, Notify).Some?
    ensures Announced(s, Terminates(s, Notify).value)
  {
  }

  lemma SwapIsSeen(s: State, step: Step)
    requires step != Notify && Terminates(s, step).Some?
    ensures var t := Terminates(s, step).value;
      Quiet(s, t) || Changed(s, t, s.log.(status := t.log.status))
  {
    hide WakeAll;
    var t := Terminates(s, step).value;
    if step == SwapSealed {
    } else if step == SwapFailed {
    } else {
      assert Quiet(s, t);
    }
  }

  lemma TerminatesKeepsCursors(s: State, step: Step)
    requires CursorsInv(s) && Terminates(s, step).Some?
    ensures CursorsInv(Terminates(s, step).value)
  {
    var t := Terminates(s, step).value;
    if step == Notify {
      NotifyIsAnnounced(s);
      AnnounceKeepsCursors(s, t);
    } else {
      SwapIsSeen(s, step);
      if Quiet(s, t) {
        QuietKeepsCursors(s, t);
      } else {
        SealOrFailKeepsCursors(s, t);
      }
    }
  }

  lemma TerminatesKeepsLog(s: State, step: Step)
    requires LogInv(s) && OwnerInv(s) && Terminates(s, step).Some?
    ensures LogInv(Terminates(s, step).value)
  {
  }

  /** The writer stands between its store and the return of its append. */
  predicate Publishing(w: Writer) {
    w.AppendNotifying? || w.AppendCompleting?
  }

  lemma SameReturned(s: State, t: State)
    requires ReturnedInv(s) && t.log.appended == s.log.appended && t.returned == s.returned
    requires t.writer == s.writer || (!Publishing(s.writer) && !Publishing(t.writer))
    ensures ReturnedInv(t)
  {
  }

  lemma TerminatesOutsidePublishing(s: State, step: Step)
    requires Terminates(s, step).Some?
    ensures var t := Terminates(s, step).value;
      && !Publishing(s.writer) && !Publishing(t.writer) && t.log.appended == s.log.appended && t.returned == s.returned
  {
    if step == Complete {
      assert s.writer.SealCompleting?;
    } else if step == SwapSealed {
      assert s.writer.SealSwapping?;
    }
  }

  lemma TerminatesKeepsReturned(s: State, step: Step)
    requires ReturnedInv(s) && Terminates(s, step).Some?
    ensures ReturnedInv(Terminates(s, step).value)
  {
    hide Terminates, ReturnedInv;
    TerminatesOutsidePublishing(s, step);
    SameReturned(s, Terminates(s, step).value);
  }

  lemma TerminatesKeepsOwner(s: State, step: Step)
    requires OwnerInv(s) && PreparedInv(s) && StorageInv(s) && Terminates(s, step).Some?
    ensures var t := Terminates(s, step).value; OwnerInv(t) && PreparedInv(t) && StorageInv(t)
  {
  }

  lemma FailsAreQuiet(s: State, step: Step)
    requires WriterFails(s, step).Some?
    ensures Quiet(s, WriterFails(s, step).value)
  {
    FailsKeepHandles(s, step);
    FailsNeverNotify(s, step);
    FailsKeepFrames(s, step);
  }

  lemma FailsKeepHandles(s: State, step: Step)
    requires WriterFails(s, step).Some?
    ensures WriterFails(s, step).value.cursors == s.cursors
  {
    hide Awaits, Outliving, LateFrames;
  }

  lemma FailsNeverNotify(s: State, step: Step)
    requires WriterFails(s, step).Some?
    ensures NotifyPending(WriterFails(s, step).value.writer) == NotifyPending(s.writer)
  {
    var t := WriterFails(s, step).value;
    if step.OrphanEnds? {
      assert t.writer == s.writer;
    } else {
      assert t.writer.Failing? || t.writer.Idle? || t.writer.Cleaning?;
    }
  }

  lemma FailsKeepFrames(s: State, step: Step)
    requires WriterFails(s, step).Some?
    ensures var t := WriterFails(s, step).value; t.log == s.log.(frames := t.log.frames)
  {
    var t := WriterFails(s, step).value;
    if !step.OrphanEnds? {
      assert t.log == s.log;
    }
  }

  lemma FailsKeepLog(s: State, step: Step)
    requires LogInv(s) && OwnerInv(s) && WriterFails(s, step).Some?
    ensures LogInv(WriterFails(s, step).value)
  {
  }

  lemma FailsKeepReturned(s: State, step: Step)
    requires ReturnedInv(s) && WriterFails(s, step).Some?
    ensures ReturnedInv(WriterFails(s, step).value)
  {
    FailsAreQuiet(s, step);
    var t := WriterFails(s, step).value;
    if step.OrphanEnds? {
      assert t.writer == s.writer;
    }
    SameReturned(s, t);
  }

  lemma FailsKeepOwner(s: State, step: Step)
    requires OwnerInv(s) && WriterFails(s, step).Some?
    ensures OwnerInv(WriterFails(s, step).value)
  {
  }

  lemma FailsKeepPrepared(s: State, step: Step)
    requires OwnerInv(s) && PreparedInv(s) && WriterFails(s, step).Some?
    ensures PreparedInv(WriterFails(s, step).value)
  {
  }

  lemma FailsKeepStorage(s: State, step: Step)
    requires OwnerInv(s) && StorageInv(s) && WriterFails(s, step).Some?
    ensures StorageInv(WriterFails(s, step).value)
  {
  }

  lemma FailsKeepControl(s: State, step: Step)
    requires ControlInv(s) && WriterFails(s, step).Some?
    ensures ControlInv(WriterFails(s, step).value)
  {
    hide WriterFails, LogInv, ReturnedInv, OwnerInv, PreparedInv, StorageInv;
    FailsKeepLog(s, step);
    FailsKeepReturned(s, step);
    FailsKeepOwner(s, step);
    FailsKeepPrepared(s, step);
    FailsKeepStorage(s, step);
  }

  lemma HandlesLeaveWriter(s: State, step: Step)
    requires HandleMoves(s, step).Some?
    ensures var t := HandleMoves(s, step).value;
      t == s.(cursors := t.cursors, replay := t.replay, storage := t.storage) && (t.replay ==> s.replay)
  {
    var t := HandleMoves(s, step).value;
    if step.CursorMoves? {
      assert t == s.(cursors := t.cursors);
    } else if step.PrefixCursor? || step.NewCursor? || step.CloneCursor? || step.DropCursor? {
      assert t == s.(cursors := t.cursors);
    } else {
      assert t == s.(replay := t.replay, storage := t.storage);
    }
  }

  lemma HandlesKeepStorage(s: State, step: Step)
    requires OwnerInv(s) && StorageInv(s) && HandleMoves(s, step).Some?
    ensures StorageInv(HandleMoves(s, step).value)
  {
  }

  lemma HandlesKeepControl(s: State, step: Step)
    requires ControlInv(s) && HandleMoves(s, step).Some?
    ensures ControlInv(HandleMoves(s, step).value)
  {
    HandlesLeaveWriter(s, step);
    HandlesKeepStorage(s, step);
  }

  lemma HandlesKeepCursors(s: State, step: Step)
    requires Inv(s) && HandleMoves(s, step).Some?
    ensures CursorsInv(HandleMoves(s, step).value)
  {
    if step.CursorMoves? {
      CursorStepKeeps(s.cursors[step.id], step.move, s.log, NotifyPending(s.writer));
    }
  }

  lemma StepKeepsInv(s: State, step: Step)
    requires Inv(s) && Next(s, step).Some?
    ensures Inv(Next(s, step).value)
  {
    if WriterCalls(s, step).Some? {
      CallsKeepControl(s, step);
      CallsAreQuiet(s, step);
      QuietKeepsCursors(s, WriterCalls(s, step).value);
    } else if AppendPublishes(s, step).Some? {
      AppendKeepsControl(s, step);
      AppendKeepsCursors(s, step);
    } else if Terminates(s, step).Some? {
      TerminatesKeepsLog(s, step);
      TerminatesKeepsReturned(s, step);
      TerminatesKeepsOwner(s, step);
      TerminatesKeepsCursors(s, step);
    } else if WriterFails(s, step).Some? {
      FailsKeepControl(s, step);
      FailsAreQuiet(s, step);
      QuietKeepsCursors(s, WriterFails(s, step).value);
    } else {
      HandlesKeepControl(s, step);
      HandlesKeepCursors(s, step);
    }
  }

  // ----- every run -----

  /** The state after `steps`, if each of them could be taken. */
  function Run(s: State, steps: seq<Step>): Option<State> {
    if steps == [] then Some(s)
    else
      var earlier := Run(s, steps[..|steps| - 1]);
      if earlier.None? then None else Next(earlier.value, steps[|steps| - 1])
  }

  lemma {:induction false} RunKeepsInv(s: State, steps: seq<Step>)
    requires Inv(s) && Run(s, steps).Some?
    ensures Inv(Run(s, steps).value)
  {
    if steps != [] {
      RunKeepsInv(s, steps[..|steps| - 1]);
      StepKeepsInv(Run(s, steps[..|steps| - 1]).value, steps[|steps| - 1]);
    }
  }

  // ----- what undisturbed calls of the writer do -----

  lemma ReachableInv(steps: seq<Step>)
    requires Run(Init(), steps).Some?
    ensures Inv(Run(Init(), steps).value)
  {
    RunKeepsInv(Init(), steps);
  }

  lemma RunNothing(s: State)
    ensures Run(s, []) == Some(s)
  {
  }

  lemma RunSnoc(s: State, steps: seq<Step>, step: Step)
    requires Run(s, steps).Some?
    ensures Run(s, steps + [step]) == Next(Run(s, steps).value, step)
  {
    assert (steps + [step])[..|steps|] == steps;
  }

  /** Extend a run from `s` that reached `t` by one step of the writer. */
  lemma ThenCalls(s: State, before: seq<Step>, t: State, step: Step) returns (steps: seq<Step>, u: State)
    requires Run(s, before) == Some(t) && WriterCalls(t, step).Some?
    ensures Some(u) == WriterCalls(t, step) && Run(s, steps) == Some(u)
  {
    RunSnoc(s, before, step);
    steps, u := before + [step], WriterCalls(t, step).value;
  }

  lemma ThenPublishes(s: State, before: seq<Step>, t: State, step: Step) returns (steps: seq<Step>, u: State)
    requires Run(s, before) == Some(t) && WriterCalls(t, step).None? && AppendPublishes(t, step).Some?
    ensures Some(u) == AppendPublishes(t, step) && Run(s, steps) == Some(u)
  {
    RunSnoc(s, before, step);
    steps, u := before + [step], AppendPublishes(t, step).value;
  }

  lemma ThenTerminates(s: State, before: seq<Step>, t: State, step: Step) returns (steps: seq<Step>, u: State)
    requires Run(s, before) == Some(t) && WriterCalls(t, step).None? && AppendPublishes(t, step).None?
    requires Terminates(t, step).Some?
    ensures Some(u) == Terminates(t, step) && Run(s, steps) == Some(u)
  {
    RunSnoc(s, before, step);
    steps, u := before + [step], Terminates(t, step).value;
  }

  /** Run an append or a seal that has begun up to its prepared file. */
  lemma Prepares(s: State, before: seq<Step>, begun: State) returns (steps: seq<Step>, t: State)
    requires Run(s, before) == Some(begun) && (begun.writer.AppendBegun? || begun.writer.SealBegun?)
    requires !begun.panicked && begun.reserved == begun.fileOpen
    ensures Run(s, steps) == Some(t)
    ensures t == begun.(
      writer := if begun.writer.SealBegun? then SealFinishing else AppendWriting(begun.writer.value, false),
      fileOpen := !begun.writer.SealBegun?, reserved := true)
  {
    steps, t := ThenCalls(s, before, begun, Prepare);
    if !begun.fileOpen {
      steps, t := ThenCalls(s, steps, t, PrepareReturns);
    }
  }

  /** An append that nothing disturbs publishes exactly its value, raises the
      watermark by one and notifies every waiter. */
  lemma UndisturbedAppend(s: State, value: Value) returns (steps: seq<Step>)
    requires Inv(s) && s.writer == Idle && s.owner && s.log.status == Writing
    ensures Run(s, steps).Some?
    ensures var t := Run(s, steps).value;
      && t.log == Log(s.log.rows + 1, Writing, s.log.frames + [value], s.log.appended + [value])
      && t.returned == s.returned + [value] && t.writer == Idle && t.cursors == WakeAll(s.cursors)
  {
    hide Run;
    RunNothing(s);
    var t := s;
    steps, t := ThenCalls(s, [], s, AppendBegin(value));
    steps, t := Prepares(s, steps, t);
    steps, t := ThenCalls(s, steps, t, Land);
    steps, t := ThenCalls(s, steps, t, WriteReturns);
    steps := Publishes(s, steps, t);
  }

  lemma Publishes(s: State, before: seq<Step>, written: State) returns (steps: seq<Step>)
    requires Run(s, before) == Some(written) && written.writer.AppendChecking? && written.log.status == Writing
    ensures Run(s, steps) == Some(written.(
      writer := Idle, returned := written.returned + [written.writer.value], cursors := WakeAll(written.cursors),
      log := written.log.(rows := written.count, appended := written.log.appended + [written.writer.value])))
  {
    var t := written;
    steps, t := ThenPublishes(s, before, t, CheckState);
    steps, t := ThenPublishes(s, steps, t, Store);
    steps, t := Announces(s, steps, t);
  }

  /** The change is made: notify and return. */
  lemma Announces(s: State, before: seq<Step>, stored: State) returns (steps: seq<Step>, t: State)
    requires Run(s, before) == Some(stored) && stored.writer.AppendNotifying?
    ensures Run(s, steps) == Some(t)
    ensures t == stored.(
      writer := Idle, returned := stored.returned + [stored.writer.value], cursors := WakeAll(stored.cursors))
  {
    steps, t := ThenPublishes(s, before, stored, Notify);
    steps, t := ThenPublishes(s, steps, t, Complete);
  }

  /** A seal that nothing disturbs makes the log final with exactly the published
      values, hands the storage to the replay and notifies every waiter. */
  lemma UndisturbedSeal(s: State) returns (steps: seq<Step>)
    requires Inv(s) && s.writer == Idle && s.owner && s.log.status == Writing
    ensures Run(s, steps).Some?
    ensures var t := Run(s, steps).value;
      && t.log == s.log.(status := Sealed) && t.replay && !t.owner && !t.panicked
      && t.writer == Idle && t.cursors == WakeAll(s.cursors)
  {
    hide Run;
    RunNothing(s);
    var t := s;
    steps, t := ThenCalls(s, [], s, SealBegin);
    steps, t := Prepares(s, steps, t);
    steps, t := ThenCalls(s, steps, t, FinishReturns);
    steps, t := ThenTerminates(s, steps, t, SwapSealed);
    steps, t := AnnouncesSeal(s, steps, t);
  }

  lemma AnnouncesSeal(s: State, before: seq<Step>, swapped: State) returns (steps: seq<Step>, t: State)
    requires Run(s, before) == Some(swapped) && swapped.writer.SealNotifying? && swapped.owner
    ensures Run(s, steps) == Some(t)
    ensures t == swapped.(writer := Idle, owner := false, replay := true, cursors := WakeAll(swapped.cursors))
  {
    steps, t := ThenTerminates(s, before, swapped, Notify);
    steps, t := ThenTerminates(s, steps, t, Complete);
  }

  /** An append or seal whose await fails or is cancelled ends with a failed log,
      the published values as they were and every waiter notified. */
  lemma InterruptedCallFails(s: State) returns (steps: seq<Step>)
    requires Inv(s) && Awaits(s.writer)
    ensures Run(s, steps).Some?
    ensures var t := Run(s, steps).value;
      && t.log == s.log.(status := Failed) && t.writer == Idle
      && t.returned == s.returned && t.cursors == WakeAll(s.cursors)
  {
    var t := AwaitFailure(s);
    RunSnoc(s, [], AwaitFails);
    steps := Fails(s, [] + [AwaitFails], t);
  }

  /** An interrupted call: the writer is about to fail the log, or it did. */
  ghost predicate Doomed(s: State, published: seq<Value>) {
    s.log.appended == published && (s.log.status == Failed || (s.log.status == Writing && s.writer.Failing?))
  }

  lemma DoomedStays(s: State, step: Step, published: seq<Value>)
    requires Inv(s) && Doomed(s, published) && Next(s, step).Some?
    ensures Doomed(Next(s, step).value, published)
  {
    if WriterCalls(s, step).Some? {
      CallsAreQuiet(s, step);
      CallsStayDoomed(s, step, published);
    } else if AppendPublishes(s, step).Some? {
      assert false;
    } else if Terminates(s, step).Some? {
      TerminatesStayDoomed(s, step, published);
    } else if WriterFails(s, step).Some? {
      FailsAreQuiet(s, step);
    }
  }

  lemma CallsStayDoomed(s: State, step: Step, published: seq<Value>)
    requires Doomed(s, published) && WriterCalls(s, step).Some?
    ensures s.log.status == Failed
  {
  }

  lemma TerminatesStayDoomed(s: State, step: Step, published: seq<Value>)
    requires OwnerInv(s) && Doomed(s, published) && Terminates(s, step).Some?
    ensures Doomed(Terminates(s, step).value, published)
  {
  }

  lemma {:induction false} RunStaysDoomed(s: State, steps: seq<Step>, published: seq<Value>)
    requires Inv(s) && Doomed(s, published) && Run(s, steps).Some?
    ensures Doomed(Run(s, steps).value, published)
  {
    if steps != [] {
      RunKeepsInv(s, steps[..|steps| - 1]);
      RunStaysDoomed(s, steps[..|steps| - 1], published);
      DoomedStays(Run(s, steps[..|steps| - 1]).value, steps[|steps| - 1], published);
    }
  }

  /** Once an append or a seal failed or was cancelled at an await, then whatever
      follows, nothing is ever published again, the log is never sealed, and the
      writer makes no other step before the log is failed. */
  lemma InterruptedNeverPublishes(steps: seq<Step>, more: seq<Step>)
    requires Run(Init(), steps).Some?
    ensures var s := Run(Init(), steps).value;
      Awaits(s.writer) ==> Next(s, AwaitFails).Some? && NeverPublishes(s, Next(s, AwaitFails).value, more)
  {
    var s := Run(Init(), steps).value;
    ReachableInv(steps);
    if Awaits(s.writer) {
      var failing := AwaitFailure(s);
      StepKeepsInv(s, AwaitFails);
      DoomedNeverPublishes(s, failing, more);
    }
  }

  /** After `more` from `failing` the log is failed, or about to be, with the
      published values of `s`. */
  ghost predicate NeverPublishes(s: State, failing: State, more: seq<Step>) {
    Run(failing, more).Some? ==>
      var t := Run(failing, more).value;
      && t.log.appended == s.log.appended && t.log.rows == s.log.rows && t.log.status != Sealed
      && (t.log.status == Failed || t.writer.Failing?)
  }

  lemma DoomedNeverPublishes(s: State, failing: State, more: seq<Step>)
    requires Inv(s) && Inv(failing) && Doomed(failing, s.log.appended)
    ensures NeverPublishes(s, failing, more)
  {
    if Run(failing, more).Some? {
      RunStaysDoomed(failing, more, s.log.appended);
      RunKeepsInv(failing, more);
    }
  }

  lemma AwaitFailure(s: State) returns (t: State)
    requires Inv(s) && Awaits(s.writer)
    ensures Next(s, AwaitFails) == Some(t) && t == s.(writer := Failing(BackToIdle), orphan := t.orphan)
  {
    t := WriterFails(s, AwaitFails).value;
  }

  lemma Fails(s: State, before: seq<Step>, failing: State) returns (steps: seq<Step>)
    requires Run(s, before) == Some(failing) && failing.writer == Failing(BackToIdle) && failing.log.status == Writing
    ensures Run(s, steps) == Some(failing.(
      writer := Idle, log := failing.log.(status := Failed), cursors := WakeAll(failing.cursors)))
  {
    var t;
    steps, t := ThenTerminates(s, before, failing, SwapFailed);
    steps, t := ThenTerminates(s, steps, t, Notify);
  }

  /** The published values only grow, and a terminal state is final. */
  ghost predicate Later(s: Log, t: Log) {
    && s.appended <= t.appended
    && (s.status != Writing ==> t.status == s.status && t.appended == s.appended)
  }

  lemma TerminatesLater(s: State, step: Step)
    requires OwnerInv(s) && Terminates(s, step).Some?
    ensures Later(s.log, Terminates(s, step).value.log)
  {
  }

  lemma AppendLater(s: State, step: Step)
    requires OwnerInv(s) && AppendPublishes(s, step).Some?
    ensures Later(s.log, AppendPublishes(s, step).value.log)
  {
  }

  lemma StepIsLater(s: State, step: Step)
    requires OwnerInv(s) && Next(s, step).Some?
    ensures Later(s.log, Next(s, step).value.log)
  {
    if WriterCalls(s, step).Some? {
      CallsAreQuiet(s, step);
    } else if AppendPublishes(s, step).Some? {
      AppendLater(s, step);
    } else if Terminates(s, step).Some? {
      TerminatesLater(s, step);
    } else if WriterFails(s, step).Some? {
      FailsAreQuiet(s, step);
    }
  }

  lemma {:induction false} RunIsLater(s: State, steps: seq<Step>)
    requires Inv(s) && Run(s, steps).Some?
    ensures Later(s.log, Run(s, steps).value.log)
  {
    if steps != [] {
      var earlier := steps[..|steps| - 1];
      RunIsLater(s, earlier);
      RunKeepsInv(s, earlier);
      StepIsLater(Run(s, earlier).value, steps[|steps| - 1]);
    }
  }

  // ----- what the calls of a cursor returned -----

  /** The value that a call about to return hands out. */
  function HandedOut(s: Option<State>, id: nat): seq<Value> {
    if s.Some? && id in s.value.cursors && s.value.cursors[id].phase.Returning?
    then [s.value.cursors[id].phase.value] else []
  }

  /** What the calls of cursor `id` returned over `steps`, since it was made or last
      rewound; a clone goes on from what its original had returned. */
  function History(steps: seq<Step>, id: nat): seq<Value>
    decreases |steps|
  {
    if steps == [] then []
    else
      var earlier, last := steps[..|steps| - 1], steps[|steps| - 1];
      match last
      case PrefixCursor(k) => if k == id then [] else History(earlier, id)
      case NewCursor(k) => if k == id then [] else History(earlier, id)
      case CloneCursor(k, copy) => if copy == id then History(earlier, k) else History(earlier, id)
      case CursorMoves(k, move) =>
        if k != id then History(earlier, id)
        else if move == Rewind then []
        else if move == ReturnItem then History(earlier, id) + HandedOut(Run(Init(), earlier), id)
        else History(earlier, id)
      case _ => History(earlier, id)
  }

  ghost predicate SameOrWoken(cursors: map<nat, Cursor>, before: map<nat, Cursor>) {
    cursors == before || cursors == WakeAll(before)
  }

  lemma PublishesWakes(s: State, step: Step)
    requires AppendPublishes(s, step).Some?
    ensures SameOrWoken(AppendPublishes(s, step).value.cursors, s.cursors)
  {
    hide WakeAll;
  }

  lemma TerminatesWakes(s: State, step: Step)
    requires Terminates(s, step).Some?
    ensures SameOrWoken(Terminates(s, step).value.cursors, s.cursors)
  {
    hide WakeAll;
    if step == Notify {
      NotifyIsAnnounced(s);
    } else {
      SwapIsSeen(s, step);
    }
  }

  lemma CallsKeepCursors(s: State, step: Step)
    requires WriterCalls(s, step).Some?
    ensures WriterCalls(s, step).value.cursors == s.cursors
  {
    CallsAreQuiet(s, step);
  }

  /** Steps of the writer leave what cursors have seen. */
  lemma WriterKeepsSeen(s: State, step: Step, id: nat)
    requires Next(s, step).Some? && HandleMoves(s, step).None?
    ensures var t := Next(s, step).value;
      t.cursors.Keys == s.cursors.Keys && (id in s.cursors ==> t.cursors[id].seen == s.cursors[id].seen)
  {
    hide WriterCalls, AppendPublishes, Terminates, WriterFails, HandleMoves;
    if WriterCalls(s, step).Some? {
      CallsKeepCursors(s, step);
    } else if AppendPublishes(s, step).Some? {
      PublishesWakes(s, step);
    } else if Terminates(s, step).Some? {
      TerminatesWakes(s, step);
    } else {
      FailsKeepHandles(s, step);
    }
  }

  /** A step of cursors and handles is taken by no one else. */
  lemma HandlesAlone(s: State, step: Step)
    requires HandleMoves(s, step).Some?
    ensures Next(s, step) == HandleMoves(s, step)
  {
  }

  lemma {:induction false} SeenIsHistory(steps: seq<Step>, id: nat)
    requires Run(Init(), steps).Some? && id in Run(Init(), steps).value.cursors
    ensures Run(Init(), steps).value.cursors[id].seen == History(steps, id)
    decreases |steps|
  {
    hide Next, HandleMoves, History;
    if steps == [] {
    } else {
      var earlier, last := steps[..|steps| - 1], steps[|steps| - 1];
      var s := Run(Init(), earlier).value;
      assert steps == earlier + [last];
      if HandleMoves(s, last).Some? {
        HandlesAlone(s, last);
        SeenAfterHandle(earlier, last, id);
      } else {
        WriterKeepsSeen(s, last, id);
        WriterKeepsHistory(earlier, s, last, id);
        SeenIsHistory(earlier, id);
      }
    }
  }

  /** A step of the writer returns nothing. */
  lemma WriterKeepsHistory(earlier: seq<Step>, s: State, last: Step, id: nat)
    requires Next(s, last).Some? && HandleMoves(s, last).None?
    ensures History(earlier + [last], id) == History(earlier, id)
  {
    assert (earlier + [last])[..|earlier|] == earlier;
    assert WriterStep(last) by { WritersStep(s, last); }
  }

  predicate WriterStep(step: Step) {
    !step.PrefixCursor? && !step.NewCursor? && !step.CloneCursor? && !step.CursorMoves?
  }

  lemma WritersStep(s: State, step: Step)
    requires Next(s, step).Some? && HandleMoves(s, step).None?
    ensures WriterStep(step)
  {
  }

  lemma {:induction false} SeenAfterHandle(earlier: seq<Step>, last: Step, id: nat)
    requires Run(Init(), earlier).Some? && HandleMoves(Run(Init(), earlier).value, last).Some?
    requires id in HandleMoves(Run(Init(), earlier).value, last).value.cursors
    ensures HandleMoves(Run(Init(), earlier).value, last).value.cursors[id].seen == History(earlier + [last], id)
    decreases |earlier| + 1, 0
  {
    hide Run;
    var s := Run(Init(), earlier).value;
    assert (earlier + [last])[..|earlier|] == earlier;
    if last.CloneCursor? && last.copy == id {
      SeenIsHistory(earlier, last.id);
    } else if id in s.cursors {
      SeenIsHistory(earlier, id);
    }
  }

  /** Safety of replay on every run: the values that the calls of a cursor returned
      since it was made or last rewound, a clone's original included, are exactly
      the first published values, and the cursor stands behind them; a final end is
      returned only after the whole of a sealed log; published values are those of
      the appends that returned Ok. */
  lemma ReplaySafety(steps: seq<Step>, id: nat)
    requires Run(Init(), steps).Some? && id in Run(Init(), steps).value.cursors
    ensures var s := Run(Init(), steps).value; var c, returned := s.cursors[id], History(steps, id);
      && |returned| == c.position <= s.log.rows == |s.log.appended|
      && returned == s.log.appended[..|returned|]
      && (c.exhausted ==> s.log.status == Sealed && returned == s.log.appended)
      && s.returned <= s.log.appended
      && (s.writer.Idle? || s.writer.Dropped? || s.log.status != Writing ==> s.log.appended == s.returned)
  {
    RunKeepsInv(Init(), steps);
    SeenIsHistory(steps, id);
  }

  /** After any run, any continuation keeps what was published; once sealed or
      failed, the log never changes again. */
  lemma TerminalIsFinal(steps: seq<Step>, more: seq<Step>)
    requires Run(Init(), steps).Some? && Run(Run(Init(), steps).value, more).Some?
    ensures Later(Run(Init(), steps).value.log, Run(Run(Init(), steps).value, more).value.log)
  {
    RunKeepsInv(Init(), steps);
    RunIsLater(Run(Init(), steps).value, more);
  }

  /** No lost wakeup: a parked waiter that was not notified has reached the
      watermark of a live log, or the writer is about to notify it. */
  lemma NoLostWakeup(steps: seq<Step>, id: nat)
    requires Run(Init(), steps).Some? && id in Run(Init(), steps).value.cursors
    requires Run(Init(), steps).value.cursors[id].phase == Parked
    ensures var s := Run(Init(), steps).value; var c := s.cursors[id];
      c.waiter == Some(false) && !NotifyPending(s.writer) ==> s.log.status == Writing && c.position == s.log.rows
    ensures Run(Init(), steps).value.cursors[id].waiter.Some?
  {
    RunKeepsInv(Init(), steps);
    var s := Run(Init(), steps).value;
    assert CursorInv(s.cursors[id], s.log, NotifyPending(s.writer));
  }

  lemma CursorMovesOnly(s: State, id: nat, move: CursorStep)
    requires id in s.cursors && CursorNext(s.cursors[id], move, s.log).Some?
    ensures Next(s, CursorMoves(id, move)) ==
      Some(s.(cursors := s.cursors[id := CursorNext(s.cursors[id], move, s.log).value]))
  {
  }

  function Moves(id: nat, moves: seq<CursorStep>): (steps: seq<Step>)
    ensures |steps| == |moves| && forall i | 0 <= i < |steps| :: steps[i] == CursorMoves(id, moves[i])
  {
    if moves == [] then [] else [CursorMoves(id, moves[0])] + Moves(id, moves[1..])
  }

  /** The state with another state of one cursor. */
  function WithCursor(s: State, id: nat, c: Cursor): State {
    s.(cursors := s.cursors[id := c])
  }

  lemma WithCursorTwice(s: State, id: nat, c: Cursor, d: Cursor)
    ensures WithCursor(WithCursor(s, id, c), id, d) == WithCursor(s, id, d)
  {
    assert s.cursors[id := c][id := d] == s.cursors[id := d];
  }

  lemma LiftStep(s: State, before: seq<Step>, t: State, id: nat, move: CursorStep)
    requires Run(s, before) == Some(t) && id in t.cursors && CursorNext(t.cursors[id], move, t.log).Some?
    ensures Run(s, before + [CursorMoves(id, move)]) ==
      Some(WithCursor(t, id, CursorNext(t.cursors[id], move, t.log).value))
  {
    CursorMovesOnly(t, id, move);
    RunSnoc(s, before, CursorMoves(id, move));
  }

  lemma MovesCons(before: seq<Step>, id: nat, moves: seq<CursorStep>)
    requires moves != []
    ensures before + [CursorMoves(id, moves[0])] + Moves(id, moves[1..]) == before + Moves(id, moves)
  {
  }

  lemma CursorRunSplit(c: Cursor, moves: seq<CursorStep>, log: Log)
    requires moves != [] && CursorRun(c, moves, log).Some?
    ensures CursorNext(c, moves[0], log).Some?
    ensures CursorRun(c, moves, log) == CursorRun(CursorNext(c, moves[0], log).value, moves[1..], log)
  {
  }

  /** A cursor's own run is a run of the whole log that changes nothing else. */
  lemma {:induction false} LiftRun(s: State, before: seq<Step>, t: State, id: nat, moves: seq<CursorStep>)
    requires Run(s, before) == Some(t) && id in t.cursors && CursorRun(t.cursors[id], moves, t.log).Some?
    ensures Run(s, before + Moves(id, moves)) == Some(WithCursor(t, id, CursorRun(t.cursors[id], moves, t.log).value))
    decreases |moves|
  {
    if moves == [] {
      assert before + Moves(id, moves) == before;
      assert t.cursors[id := t.cursors[id]] == t.cursors;
    } else {
      LiftRunStep(s, before, t, id, moves);
    }
  }

  lemma {:induction false} LiftRunStep(s: State, before: seq<Step>, t: State, id: nat, moves: seq<CursorStep>)
    requires Run(s, before) == Some(t) && id in t.cursors && CursorRun(t.cursors[id], moves, t.log).Some? && moves != []
    ensures Run(s, before + Moves(id, moves)) == Some(WithCursor(t, id, CursorRun(t.cursors[id], moves, t.log).value))
    decreases |moves|, 0
  {
    hide Run, Next, CursorNext, CursorRun, Moves;
    CursorRunSplit(t.cursors[id], moves, t.log);
    var moved := CursorNext(t.cursors[id], moves[0], t.log).value;
    LiftStep(s, before, t, id, moves[0]);
    LiftRun(s, before + [CursorMoves(id, moves[0])], WithCursor(t, id, moved), id, moves[1..]);
    MovesCons(before, id, moves);
    WithCursorTwice(t, id, moved, CursorRun(moved, moves[1..], t.log).value);
  }

  /** How a call of `next` ends on the log as it is. */
  function Answer(c: Cursor, log: Log): Cursor {
    if log.status == Failed then Return(c)
    else if c.position < |log.appended|
    then Return(c).(position := c.position + 1, seen := c.seen + [log.appended[c.position]])
    else if log.status == Sealed then Return(c).(exhausted := true)
    else c.(phase := Parked)
  }

  /** The steps of a call that starts by loading the state. */
  function AnswerSteps(c: Cursor, log: Log): seq<CursorStep> {
    if log.status == Failed then [LoadState]
    else if c.position < |log.appended| then [LoadState, LoadRows, Decide, ReadDone, RecheckState, ReturnItem]
    else [LoadState, LoadRows, Decide]
  }

  /** A notified waiter wakes and answers. */
  lemma WokenAnswers(c: Cursor, log: Log, notifyPending: bool)
    requires CursorInv(c, log, notifyPending) && log.appended <= log.frames
    requires c.phase == Parked && c.waiter == Some(true)
    ensures CursorRun(c, [Wake] + AnswerSteps(c, log), log) ==
      Some(Answer(c.(phase := LoadingState, waiter := Some(false)), log))
  {
    var woken := c.(phase := LoadingState, waiter := Some(false));
    UndisturbedCall(woken, log);
    CursorRunCons(c, Wake, AnswerSteps(c, log), log);
  }

  /** Progress: on every run, a parked reader for which there is a row or a terminal
      state has a continuation by the writer's pending notification, if there is
      one, and its own steps alone after which its call has returned: the next
      published value, the final end, or the failure. */
  lemma ParkedReaderReturns(steps: seq<Step>, id: nat) returns (more: seq<Step>)
    requires Run(Init(), steps).Some? && id in Run(Init(), steps).value.cursors
    requires var s := Run(Init(), steps).value; var c := s.cursors[id];
      c.phase == Parked && (c.position < s.log.rows || s.log.status != Writing)
    ensures forall step | step in more :: step == Notify || (step.CursorMoves? && step.id == id)
    ensures var s := Run(Init(), steps).value;
      && Run(s, more).Some? && id in Run(s, more).value.cursors
      && Run(s, more).value.cursors[id] == Answer(s.cursors[id], s.log) && Answer(s.cursors[id], s.log).phase == Resting
  {
    hide *;
    var s := Run(Init(), steps).value;
    ReachableInv(steps);
    var before, t := NotifiedFirst(s, id);
    var c := t.cursors[id];
    var moves := [Wake] + AnswerSteps(c, t.log);
    WokenAnswers(c, t.log, NotifyPending(t.writer));
    LiftRun(s, before, t, id, moves);
    CursorOfWith(t, id, Answer(c.(phase := LoadingState, waiter := Some(false)), t.log));
    SameAnswer(s.cursors[id], c, t.log);
    more := before + Moves(id, moves);
  }

  lemma CursorOfWith(s: State, id: nat, c: Cursor)
    ensures id in WithCursor(s, id, c).cursors && WithCursor(s, id, c).cursors[id] == c
  {
  }

  /** The answer depends on the place of the cursor and the log alone. */
  lemma SameAnswer(c: Cursor, d: Cursor, log: Log)
    requires d == c.(waiter := Some(true)) && (c.position < |log.appended| || log.status != Writing)
    ensures Answer(d.(phase := LoadingState, waiter := Some(false)), log) == Answer(c, log)
    ensures Answer(c, log).phase == Resting
  {
  }

  /** A parked reader with something to see is notified or about to be. */
  lemma NotifiedFirst(s: State, id: nat) returns (before: seq<Step>, t: State)
    requires Inv(s) && id in s.cursors && s.cursors[id].phase == Parked
    requires s.cursors[id].position < s.log.rows || s.log.status != Writing
    ensures forall step | step in before :: step == Notify
    ensures Run(s, before) == Some(t) && Inv(t) && t.log == s.log && id in t.cursors
    ensures t.cursors[id] == s.cursors[id].(waiter := Some(true))
    ensures t.cursors[id].phase == Parked && t.log.appended <= t.log.frames && s.log.rows == |s.log.appended|
    ensures CursorInv(t.cursors[id], t.log, NotifyPending(t.writer))
  {
    before, t := [], s;
    assert CursorInv(s.cursors[id], s.log, NotifyPending(s.writer));
    if s.cursors[id].waiter == Some(false) {
      t := NotifyStep(s);
      RunSnoc(s, [], Notify);
      before := [Notify];
      assert [] + [Notify] == before;
      StepKeepsInv(s, Notify);
      assert t.cursors[id] == Notified(s.cursors[id]);
    } else {
      var c := s.cursors[id];
      assert c.waiter == Some(c.waiter.value) && c.waiter.value;
      assert c == Cursor(c.phase, c.position, c.waiter, c.seen, c.exhausted);
    }
  }

  lemma NotifyStep(s: State) returns (t: State)
    requires NotifyPending(s.writer)
    ensures Next(s, Notify) == Some(t) && t.log == s.log && t.cursors == WakeAll(s.cursors)
  {
    assert WriterCalls(s, Notify).None?;
    t := Next(s, Notify).value;
  }

  // ----- storage ownership -----

  /** Nobody uses the storage, and the writer has no file work that would. */
  ghost predicate Abandoned(s: State) {
    s.cursors == map[] && !s.replay && !Awaits(s.writer)
  }

  lemma RemovalFindsAbandoned(s: State)
    requires ControlInv(s) && s.storage != Present
    ensures Abandoned(s)
  {
  }

  /** How far the storage is on its way out. */
  function Gone(storage: Storage): nat {
    match storage
    case Present => 0
    case Removing => 1
    case Removed => 2
  }

  lemma CallsKeepGone(s: State, step: Step)
    requires WriterCalls(s, step).Some? || AppendPublishes(s, step).Some? || Terminates(s, step).Some?
    ensures Next(s, step).Some? && Next(s, step).value.storage == s.storage
  {
  }

  lemma OthersKeepGone(s: State, step: Step)
    requires StorageInv(s)
    ensures WriterFails(s, step).Some? ==> Gone(WriterFails(s, step).value.storage) >= Gone(s.storage)
    ensures HandleMoves(s, step).Some? ==> Gone(HandleMoves(s, step).value.storage) >= Gone(s.storage)
  {
  }

  lemma StepKeepsGone(s: State, step: Step)
    requires Inv(s) && Next(s, step).Some?
    ensures Gone(Next(s, step).value.storage) >= Gone(s.storage)
  {
    hide WriterCalls, AppendPublishes, Terminates, WriterFails, HandleMoves, Gone, LogInv, ReturnedInv, OwnerInv,
      PreparedInv,
      StorageInv, CursorsInv;
    if WriterCalls(s, step).Some? || AppendPublishes(s, step).Some? || Terminates(s, step).Some? {
      CallsKeepGone(s, step);
    } else {
      OthersKeepGone(s, step);
    }
  }

  lemma {:induction false} RunKeepsGone(s: State, steps: seq<Step>)
    requires Inv(s) && Run(s, steps).Some?
    ensures Gone(Run(s, steps).value.storage) >= Gone(s.storage)
    decreases |steps|
  {
    if steps != [] {
      var earlier := Run(s, steps[..|steps| - 1]).value;
      RunKeepsInv(s, steps[..|steps| - 1]);
      RunKeepsGone(s, steps[..|steps| - 1]);
      StepKeepsGone(earlier, steps[|steps| - 1]);
    }
  }

  /** Storage ownership: from the start of a removal on, over every continuation,
      there is no cursor, no replay and no file work of the writer, and once it is
      over no job is left that could bring the directory back; no assertion or
      expect ever fires. */
  lemma StorageOwned(steps: seq<Step>, more: seq<Step>)
    requires Run(Init(), steps).Some? && Run(Run(Init(), steps).value, more).Some?
    ensures var s := Run(Init(), steps).value; var t := Run(s, more).value;
      && !t.panicked
      && (s.storage != Present ==> t.storage != Present && Abandoned(t))
      && (s.storage == Removed ==> t.storage == Removed && t.orphan.None?)
  {
    hide Run, Next, OwnerInv, LogInv, ReturnedInv, Abandoned;
    var s := Run(Init(), steps).value;
    var t := Run(s, more).value;
    RunKeepsInv(Init(), steps);
    RunKeepsInv(s, more);
    RunKeepsGone(s, more);
    if t.storage != Present {
      RemovalFindsAbandoned(t);
    }
  }
}
