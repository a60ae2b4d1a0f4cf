/** How each call on a replay log ends when nothing disturbs it: reads after a
    rewind, a cancellation or a failure, and the calls that give the log up. */
module ReplayCalls {
  import opened Rows
  import opened Replay

  // ----- reads -----

  predicate IsCall(step: CursorStep) {
    step == CallNext || step == CallNextCommitted
  }

  /** A call of a resting cursor that nothing disturbs. On a failed log it changes
      nothing; otherwise it returns the next published value if there is one; at the
      watermark of a sealed log it returns the final end; and at that of a live log
      `next` parks with a registered waiter while `next_committed` returns. */
  lemma UndisturbedRead(c: Cursor, log: Log, call: CursorStep)
    requires CursorInv(c, log, false) && log.appended <= log.frames && c.phase == Resting && IsCall(call)
    ensures CursorRun(c, [call] + AnswerSteps(c, log), log) == Some(
      if log.status == Failed then c
      else if c.position < |log.appended|
      then c.(position := c.position + 1, seen := c.seen + [log.appended[c.position]])
      else if log.status == Sealed then c.(exhausted := true)
      else if call == CallNext then c.(phase := Parked, waiter := Some(false))
      else c)
  {
    var called := CursorNext(c, call, log).value;
    UndisturbedCall(called, log);
    CursorRunCons(c, call, AnswerSteps(c, log), log);
    assert AnswerSteps(called, log) == AnswerSteps(c, log);
    assert c == Cursor(Resting, c.position, None, c.seen, c.exhausted);
  }

  /** Where a rewind puts a cursor. */
  function Rewound(c: Cursor): Cursor {
    c.(position := 0, seen := [], exhausted := false)
  }

  lemma RewindThenCall(c: Cursor, log: Log, call: CursorStep)
    requires CursorInv(c, log, false) && log.appended <= log.frames && c.phase == Resting && IsCall(call)
    ensures CursorRun(c, [Rewind] + ([call] + AnswerSteps(Rewound(c), log)), log) == Some(
      if log.status == Failed then Rewound(c)
      else if log.appended != [] then Rewound(c).(position := 1, seen := [log.appended[0]])
      else if log.status == Sealed then Rewound(c).(exhausted := true)
      else if call == CallNext then Rewound(c).(phase := Parked, waiter := Some(false))
      else Rewound(c))
  {
    UndisturbedRead(Rewound(c), log, call);
    CursorRunCons(c, Rewind, [call] + AnswerSteps(Rewound(c), log), log);
    if log.appended != [] {
      assert [] + [log.appended[0]] == [log.appended[0]];
    }
  }

  /** After any run, a call that follows a rewind, with nothing in between, returns
      the first published value, or the final end iff the log is sealed and empty. */
  lemma RewoundCall(steps: seq<Step>, id: nat, call: CursorStep) returns (more: seq<Step>)
    requires Run(Init(), steps).Some? && id in Run(Init(), steps).value.cursors && IsCall(call)
    requires Run(Init(), steps).value.cursors[id].phase == Resting
    ensures more != [] && more[0] == CursorMoves(id, Rewind)
    ensures forall step | step in more :: step.CursorMoves? && step.id == id
    ensures var s := Run(Init(), steps).value;
      && Run(Init(), steps + more).Some? && id in Run(Init(), steps + more).value.cursors
      && var d := Run(Init(), steps + more).value.cursors[id];
         && History(steps + more, id) ==
              (if s.log.status != Failed && s.log.appended != [] then [s.log.appended[0]] else [])
         && (d.exhausted <==> s.log.status == Sealed && s.log.appended == [])
         && (d.phase == if s.log.status == Writing && s.log.appended == [] && call == CallNext then Parked else Resting)
  {
    hide Run, History, CursorRun, AnswerSteps, Moves;
    var s := Run(Init(), steps).value;
    ReachableInv(steps);
    QuietCursor(s, id);
    var c := s.cursors[id];
    var moves := [Rewind] + ([call] + AnswerSteps(Rewound(c), s.log));
    RewindThenCall(c, s.log, call);
    LiftRun(Init(), steps, s, id, moves);
    more := Moves(id, moves);
    SeenIsHistory(steps + more, id);
  }

  /** A resting cursor has no waiter, so nothing it could have missed. */
  lemma QuietCursor(s: State, id: nat)
    requires Inv(s) && id in s.cursors && s.cursors[id].phase == Resting
    ensures CursorInv(s.cursors[id], s.log, false) && s.log.appended <= s.log.frames
  {
    assert CursorInv(s.cursors[id], s.log, NotifyPending(s.writer));
  }

  /** Reads that end early: cancelled while reading or parked, or failed. */
  predicate Interrupts(c: Cursor, step: CursorStep) {
    (step == Cancel && (c.phase == Reading || c.phase == Parked)) || (step == ReadFails && c.phase == Reading)
  }

  /** A read that fails or is cancelled moves nothing: the call after it returns what
      it would have returned. */
  lemma InterruptedRead(c: Cursor, log: Log, notifyPending: bool, interrupt: CursorStep, call: CursorStep)
    requires CursorInv(c, log, notifyPending) && log.appended <= log.frames && Interrupts(c, interrupt) && IsCall(call)
    ensures CursorRun(c, [interrupt] + ([call] + AnswerSteps(c, log)), log) == Some(
      if log.status == Failed then Return(c)
      else if c.position < |log.appended|
      then Return(c).(position := c.position + 1, seen := c.seen + [log.appended[c.position]])
      else if log.status == Sealed then Return(c).(exhausted := true)
      else if call == CallNext then c.(phase := Parked, waiter := Some(false))
      else Return(c))
  {
    UndisturbedRead(Return(c), log, call);
    CursorRunCons(c, interrupt, [call] + AnswerSteps(c, log), log);
  }

  // ----- new cursors -----

  /** How a cursor is made: by an idle owner of a log that has not failed, by a replay,
      or as the clone of a resting cursor. */
  predicate Makes(s: State, step: Step, id: nat) {
    && id !in s.cursors
    && match step
       case PrefixCursor(k) => k == id && s.writer == Idle && s.owner && s.log.status != Failed
       case NewCursor(k) => k == id && s.replay
       case CloneCursor(k, copy) => copy == id && k in s.cursors && s.cursors[k].phase == Resting
       case _ => false
  }

  /** The place at which a cursor made by `step` starts. */
  function StartOf(s: State, step: Step): nat {
    if step.CloneCursor? && step.id in s.cursors then s.cursors[step.id].position else 0
  }

  lemma MadeCursor(s: State, step: Step, id: nat)
    requires Inv(s) && Makes(s, step, id)
    ensures Next(s, step).Some? && Inv(Next(s, step).value)
    ensures var t := Next(s, step).value;
      id in t.cursors && t.cursors[id].phase == Resting && t.cursors[id].position == StartOf(s, step) && t.log == s.log
  {
    HandlesAlone(s, step);
    StepKeepsInv(s, step);
  }

  /** A new cursor can be made whenever that is so, and its first call, with nothing in
      between, returns the first published value from its start on, which is the
      beginning or the place of the original it was cloned from. */
  lemma NewCursorReads(steps: seq<Step>, make: Step, id: nat, call: CursorStep) returns (more: seq<Step>)
    requires Run(Init(), steps).Some? && Makes(Run(Init(), steps).value, make, id) && IsCall(call)
    ensures forall step | step in more :: step.CursorMoves? && step.id == id
    ensures Run(Init(), steps + [make] + more).Some?
    ensures var s := Run(Init(), steps).value; var start := StartOf(s, make);
      var t := Run(Init(), steps + [make] + more).value;
      && id in t.cursors && start <= |s.log.appended|
      && (s.log.status != Failed && start < |s.log.appended| ==>
           History(steps + [make] + more, id) == s.log.appended[..start + 1] && t.cursors[id].phase == Resting)
      && (s.log.status == Sealed && start == |s.log.appended| ==>
           t.cursors[id].exhausted && History(steps + [make] + more, id) == s.log.appended)
  {
    hide Run, History, CursorRun, AnswerSteps, Moves, Inv;
    var s := Run(Init(), steps).value;
    ReachableInv(steps);
    MadeCursor(s, make, id);
    RunSnoc(Init(), steps, make);
    var t := Next(s, make).value;
    QuietCursor(t, id);
    var c := t.cursors[id];
    UndisturbedRead(c, t.log, call);
    LiftRun(Init(), steps + [make], t, id, [call] + AnswerSteps(c, t.log));
    more := Moves(id, [call] + AnswerSteps(c, t.log));
    SeenIsHistory(steps + [make] + more, id);
    SeenBefore(c, t.log);
  }

  lemma SeenBefore(c: Cursor, log: Log)
    requires CursorInv(c, log, false)
    ensures c.position <= |log.appended| && c.seen == log.appended[..c.position]
    ensures c.position < |log.appended| ==> c.seen + [log.appended[c.position]] == log.appended[..c.position + 1]
    ensures c.position == |log.appended| ==> c.seen == log.appended
  {
  }

  /** A failed log makes no prefix cursor. */
  lemma FailedLogRefuses(s: State, id: nat)
    requires s.log.status == Failed
    ensures Next(s, PrefixCursor(id)).None?
  {
  }

  /** The frame of a cancelled append may still land: it lies in the file behind the
      published ones, and no continuation ever publishes it. */
  lemma LateFrameIsHidden(earlier: seq<Step>, value: Value, more: seq<Step>)
    requires Run(Init(), earlier).Some? && Run(Init(), earlier).value.orphan == Some(FrameWrite(value))
    requires Next(Run(Init(), earlier).value, OrphanEnds(true)).Some?
    requires Run(Next(Run(Init(), earlier).value, OrphanEnds(true)).value, more).Some?
    ensures var s := Run(Init(), earlier).value; var t := Next(s, OrphanEnds(true)).value;
      && t.log.frames == s.log.frames + [value]
      && Run(t, more).value.log.appended == s.log.appended && Run(t, more).value.log.status != Sealed
  {
    hide Run;
    var s := Run(Init(), earlier).value;
    ReachableInv(earlier);
    StepKeepsInv(s, OrphanEnds(true));
    OrphanLands(s, value);
    RunStaysDoomed(Next(s, OrphanEnds(true)).value, more, s.log.appended);
  }

  lemma OrphanLands(s: State, value: Value)
    requires Inv(s) && s.orphan == Some(FrameWrite(value))
    ensures Next(s, OrphanEnds(true)).Some?
    ensures var t := Next(s, OrphanEnds(true)).value;
      t.log.frames == s.log.frames + [value] && Doomed(t, s.log.appended)
  {
  }

  // ----- a failed log returns nothing more -----

  /** Cursor `id` is not about to return a value it checked before the failure. */
  ghost predicate Barren(s: State, id: nat) {
    s.log.status == Failed && (id in s.cursors ==> !s.cursors[id].phase.Returning?)
  }

  lemma WriterKeepsBarren(s: State, step: Step, id: nat)
    requires Next(s, step).Some? && HandleMoves(s, step).None? && Barren(s, id)
    ensures var t := Next(s, step).value;
      t.cursors.Keys == s.cursors.Keys && (id in t.cursors ==> !t.cursors[id].phase.Returning?)
  {
    hide WriterCalls, AppendPublishes, Terminates, WriterFails, HandleMoves;
    if WriterCalls(s, step).Some? {
      CallsKeepCursors(s, step);
    } else if AppendPublishes(s, step).Some? {
      PublishesWakes(s, step);
    } else if Terminates(s, step).Some? {
      TerminatesWakes(s, step);
    } else {
      FailsKeepHandles(s, step);
    }
  }

  lemma HandleKeepsBarren(s: State, step: Step, id: nat)
    requires HandleMoves(s, step).Some? && Barren(s, id)
    ensures step != CursorMoves(id, ReturnItem)
    ensures var t := HandleMoves(s, step).value; id in t.cursors ==> !t.cursors[id].phase.Returning?
  {
  }

  lemma MovesAreHandles(s: State, step: Step)
    requires Next(s, step).Some? && step.CursorMoves?
    ensures HandleMoves(s, step).Some?
  {
  }

  lemma StepKeepsBarren(s: State, step: Step, id: nat)
    requires Inv(s) && Next(s, step).Some? && Barren(s, id)
    ensures Barren(Next(s, step).value, id) && step != CursorMoves(id, ReturnItem)
  {
    hide LogInv, ReturnedInv, OwnerInv, PreparedInv, StorageInv, CursorsInv;
    hide WriterCalls, AppendPublishes, Terminates, WriterFails, HandleMoves;
    StepIsLater(s, step);
    if HandleMoves(s, step).Some? {
      HandlesAlone(s, step);
      HandleKeepsBarren(s, step, id);
    } else {
      WriterKeepsBarren(s, step, id);
      if step.CursorMoves? {
        MovesAreHandles(s, step);
      }
    }
  }

  lemma {:induction false} RunKeepsBarren(s: State, more: seq<Step>, id: nat)
    requires Inv(s) && Run(s, more).Some? && Barren(s, id)
    ensures Barren(Run(s, more).value, id) && CursorMoves(id, ReturnItem) !in more
  {
    hide Inv, Next, Barren;
    if more != [] {
      var earlier, last := more[..|more| - 1], more[|more| - 1];
      RunKeepsInv(s, earlier);
      RunKeepsBarren(s, earlier, id);
      StepKeepsBarren(Run(s, earlier).value, last, id);
      assert more == earlier + [last];
    }
  }

  /** Once the log has failed, no call returns a value any more, over every
      continuation, beside one that had checked the log for the second time before
      the failure. */
  lemma FailedLogReturnsNothing(steps: seq<Step>, more: seq<Step>, id: nat)
    requires Run(Init(), steps).Some? && Run(Run(Init(), steps).value, more).Some?
    requires Barren(Run(Init(), steps).value, id)
    ensures CursorMoves(id, ReturnItem) !in more
    ensures var t := Run(Run(Init(), steps).value, more).value; id in t.cursors ==> !t.cursors[id].exhausted
  {
    hide Run, Inv, ControlInv;
    var s := Run(Init(), steps).value;
    ReachableInv(steps);
    RunKeepsBarren(s, more, id);
    RunKeepsInv(s, more);
    NotExhausted(Run(s, more).value, id);
  }

  lemma NotExhausted(s: State, id: nat)
    requires Inv(s) && s.log.status == Failed
    ensures id in s.cursors ==> !s.cursors[id].exhausted
  {
    assert id in s.cursors ==> CursorInv(s.cursors[id], s.log, NotifyPending(s.writer));
  }

  // ----- giving the log up -----

  /** Extend a run from `s` that reached `t` by a step of failure or cleanup. */
  lemma ThenFails(s: State, before: seq<Step>, t: State, step: Step) returns (steps: seq<Step>, u: State)
    requires Run(s, before) == Some(t) && WriterFails(t, step).Some?
    requires WriterCalls(t, step).None? && AppendPublishes(t, step).None? && Terminates(t, step).None?
    ensures Some(u) == WriterFails(t, step) && Run(s, steps) == Some(u) && steps == before + [step]
  {
    RunSnoc(s, before, step);
    steps, u := before + [step], WriterFails(t, step).value;
  }

  lemma ThenHandles(s: State, before: seq<Step>, t: State, step: Step) returns (steps: seq<Step>, u: State)
    requires Run(s, before) == Some(t) && HandleMoves(t, step).Some?
    ensures Some(u) == HandleMoves(t, step) && Run(s, steps) == Some(u) && steps == before + [step]
  {
    HandlesAlone(t, step);
    RunSnoc(s, before, step);
    steps, u := before + [step], HandleMoves(t, step).value;
  }

  /** The log after its owner gave it up: failed, with every waiter notified if it
      was live until then. */
  function GivenUp(s: State): State {
    if s.log.status == Writing then s.(log := s.log.(status := Failed), cursors := WakeAll(s.cursors)) else s
  }

  /** The failure of an owner that gives the log up. */
  lemma FailsFirst(s: State, before: seq<Step>, failing: State) returns (steps: seq<Step>, t: State)
    requires Run(s, before) == Some(failing) && failing.writer.Failing?
    ensures Run(s, steps) == Some(t) && t == AfterFail(GivenUp(failing), failing.writer.after)
  {
    steps, t := ThenTerminates(s, before, failing, SwapFailed);
    if failing.log.status == Writing {
      steps, t := ThenTerminates(s, steps, t, Notify);
    }
  }

  /** An abort of an idle owner that nothing disturbs ends with a failed log and
      every waiter notified. With no cursor left the storage is removed, once every
      orphaned job has ended; a cursor keeps it. */
  lemma UndisturbedAbort(s: State) returns (steps: seq<Step>)
    requires Inv(s) && s.writer == Idle && s.owner
    ensures Run(s, steps).Some?
    ensures var t := Run(s, steps).value;
      && t.log.status == Failed && t.log.appended == s.log.appended && t.returned == s.returned
      && t.writer == Idle && t.owner && !t.fileOpen && !t.panicked
      && t.cursors == (if s.log.status == Writing then WakeAll(s.cursors) else s.cursors)
      && (if s.cursors == map[] then t.storage == Removed && !t.reserved && t.orphan.None?
          else t.storage == s.storage && t.reserved == s.reserved)
  {
    hide Run;
    RunNothing(s);
    var t;
    steps, t := ThenCalls(s, [], s, AbortBegin);
    steps, t := FailsFirst(s, steps, t);
    assert t == GivenUp(s).(writer := Claiming, fileOpen := false);
    steps := Claims(s, steps, t);
    WakesNobody(s);
  }

  lemma WakesNobody(s: State)
    ensures s.cursors == map[] <==> WakeAll(s.cursors) == map[]
  {
    if WakeAll(s.cursors) == map[] {
      assert forall id | id in s.cursors :: id in WakeAll(s.cursors);
    }
  }

  /** With the log failed, an abort claims the storage unless a cursor holds it. */
  lemma Claims(s: State, before: seq<Step>, claiming: State) returns (steps: seq<Step>)
    requires Run(s, before) == Some(claiming) && claiming.writer == Claiming
    ensures Run(s, steps) == Some(
      if claiming.cursors == map[]
      then claiming.(writer := Idle, storage := Removed, reserved := false, orphan := None)
      else claiming.(writer := Idle))
  {
    hide Run;
    var t;
    steps, t := ThenFails(s, before, claiming, Claim);
    if claiming.cursors == map[] {
      steps := CleansUp(s, steps, t);
    }
  }

  /** The cleanup of an abort waits for an orphaned job and then removes the storage. */
  lemma CleansUp(s: State, before: seq<Step>, cleaning: State) returns (steps: seq<Step>)
    requires Run(s, before) == Some(cleaning) && cleaning.writer == Cleaning
    ensures Run(s, steps) == Some(cleaning.(writer := Idle, storage := Removed, reserved := false, orphan := None))
  {
    hide Run;
    var t;
    steps, t := OrphanGoes(s, before, cleaning);
    steps, t := ThenFails(s, steps, t, CleanupReturns(true));
  }

  /** An orphaned job, if there is one, ends without an effect. */
  lemma OrphanGoes(s: State, before: seq<Step>, now: State) returns (steps: seq<Step>, t: State)
    requires Run(s, before) == Some(now)
    ensures Run(s, steps) == Some(t) && t == now.(orphan := None)
    ensures steps == before || steps == before + [OrphanEnds(false)]
  {
    hide Run;
    steps, t := before, now;
    if now.orphan.Some? {
      steps, t := ThenFails(s, before, now, OrphanEnds(false));
      assert now.log.frames + [] == now.log.frames;
    }
  }

  /** Dropping an idle owner fails a log that is not sealed and notifies every
      waiter; with no cursor left the storage is removed, and a cursor keeps it. */
  lemma UndisturbedDrop(s: State) returns (steps: seq<Step>)
    requires Inv(s) && s.writer == Idle && s.owner
    ensures Run(s, steps).Some?
    ensures var t := Run(s, steps).value;
      && t.log.status == Failed && t.log.appended == s.log.appended && t.writer == Dropped && !t.owner
      && t.cursors == (if s.log.status == Writing then WakeAll(s.cursors) else s.cursors)
      && (if s.cursors == map[] then t.storage == Removed else t.storage == s.storage)
  {
    hide Run;
    RunNothing(s);
    WakesNobody(s);
    var t;
    steps, t := ThenCalls(s, [], s, DropWriter);
    steps, t := FailsFirst(s, steps, t);
    if s.cursors == map[] {
      steps, t := ScratchGoes(s, steps, t);
    }
  }

  /** Nobody owns the storage any more. */
  ghost predicate Ownerless(s: State) {
    !s.owner && !s.replay && s.cursors == map[] && (s.writer == Idle || s.writer == Dropped)
  }

  /** Storage that nobody owns is removed, once an orphaned job has ended. */
  lemma ScratchGoes(s: State, before: seq<Step>, left: State) returns (steps: seq<Step>, t: State)
    requires Run(s, before) == Some(left) && Ownerless(left)
    ensures Run(s, steps) == Some(t) && t == left.(storage := Removed, orphan := t.orphan)
  {
    hide Run;
    steps, t := before, left;
    if left.storage != Removed {
      if left.storage == Present {
        steps, t := ThenHandles(s, steps, t, LastOwnerGone);
      }
      steps, t := OrphanGoes(s, steps, t);
      steps, t := ThenHandles(s, steps, t, RemovalDone);
    }
  }

  /** From every reachable state in which the last owner of the storage has gone,
      the storage can be removed by its own steps alone. */
  lemma OwnerlessIsRemoved(earlier: seq<Step>) returns (steps: seq<Step>)
    requires Run(Init(), earlier).Some? && Ownerless(Run(Init(), earlier).value)
    ensures var s := Run(Init(), earlier).value; Run(s, steps).Some? && Run(s, steps).value.storage == Removed
  {
    var s := Run(Init(), earlier).value;
    RunNothing(s);
    var t;
    steps, t := ScratchGoes(s, [], s);
  }

  /** Closing a replay removes the storage itself if no cursor is left; otherwise the
      cursors keep it, and it goes with the last of them. */
  lemma UndisturbedClose(s: State) returns (steps: seq<Step>)
    requires Inv(s) && s.replay && s.writer == Idle
    ensures Run(s, steps).Some? && forall step | step in steps :: step in [CloseReplay, OrphanEnds(false), RemovalDone]
    ensures var t := Run(s, steps).value;
      && !t.replay && t.log == s.log && t.cursors == s.cursors
      && (if s.cursors == map[] then t.storage == Removed else t.storage == s.storage)
  {
    hide Run;
    RunNothing(s);
    var t;
    steps, t := ThenHandles(s, [], s, CloseReplay);
    if s.cursors == map[] {
      steps, t := OrphanGoes(s, steps, t);
      steps, t := ThenHandles(s, steps, t, RemovalDone);
    }
  }

  /** An abort whose cleanup failed or was cancelled keeps the storage in its hands:
      aborting again removes it. */
  lemma AbortAgain(earlier: seq<Step>, fails: Step) returns (steps: seq<Step>)
    requires Run(Init(), earlier).Some? && Run(Init(), earlier).value.writer == Cleaning
    requires fails == AwaitFails || fails == CleanupReturns(false)
    ensures var s := Run(Init(), earlier).value;
      && Next(s, fails).Some? && Next(s, fails).value.writer == Idle && Next(s, fails).value.owner
      && Run(Next(s, fails).value, steps).Some? && Run(Next(s, fails).value, steps).value.storage == Removed
  {
    hide Run;
    var s := Run(Init(), earlier).value;
    ReachableInv(earlier);
    CleaningFails(s, fails);
    StepKeepsInv(s, fails);
    steps := UndisturbedAbort(Next(s, fails).value);
  }

  lemma CleaningFails(s: State, fails: Step)
    requires Inv(s) && s.writer == Cleaning && (fails == AwaitFails || fails == CleanupReturns(false))
    ensures Next(s, fails) == Some(s.(writer := Idle)) && s.owner && s.cursors == map[]
  {
  }

  /** Every cursor can be dropped, in any phase. */
  lemma CursorsGo(s: State, before: seq<Step>, now: State) returns (steps: seq<Step>, t: State)
    requires Run(s, before) == Some(now)
    ensures Run(s, steps) == Some(t) && t == now.(cursors := map[])
    decreases |now.cursors|
  {
    hide Run;
    steps, t := before, now;
    if now.cursors != map[] {
      var id :| id in now.cursors;
      var fewer;
      steps, fewer := ThenHandles(s, before, now, DropCursor(id));
      assert fewer.cursors == now.cursors - {id};
      assert |(now.cursors - {id}).Keys| < |now.cursors.Keys| by {
        assert (now.cursors - {id}).Keys == now.cursors.Keys - {id};
      }
      steps, t := CursorsGo(s, steps, fewer);
    }
  }

  /** The storage goes with its last owner: from every reachable state without a
      writer that owns it, dropping the replay and every cursor lets it be removed. */
  lemma LastOwnerRemoves(earlier: seq<Step>) returns (steps: seq<Step>)
    requires Run(Init(), earlier).Some?
    requires var s := Run(Init(), earlier).value; !s.owner && (s.writer == Idle || s.writer == Dropped)
    ensures var s := Run(Init(), earlier).value;
      Run(s, steps).Some? && Run(s, steps).value.storage == Removed && Run(s, steps).value.log == s.log
  {
    hide Run;
    var s := Run(Init(), earlier).value;
    RunNothing(s);
    var t := s;
    steps := [];
    if s.replay {
      steps, t := ThenHandles(s, [], s, DropReplay);
    }
    steps, t := CursorsGo(s, steps, t);
    steps, t := ScratchGoes(s, steps, t);
  }
}
