/** Filesystem operations that outlive their callers, the descriptor permits and
    bytes they hold, and the ordered removal of a scratch directory. */
module Operations {
  import opened Rows

  // ----- operations -----

  datatype Kind = FileWork | RemoveDir

  /** Waiting for a permit; running as an owned job; between dropping the permit
      and dropping the scope guard; between the guard's decrement to zero and
      its notification; done. The guard is held in the first three, the memory charge
      of the job in the first two. */
  datatype Phase = Waiting | Running | Unpermitted | Notifying | Done

  datatype Op = Op(scope: nat, kind: Kind, phase: Phase, charge: nat, succeeded: bool)

  predicate Guarded(op: Op) {
    op.phase == Waiting || op.phase == Running || op.phase == Unpermitted
  }

  function Permits(op: Op): nat {
    if op.phase == Running then 1 else 0
  }

  function Charges(op: Op): nat {
    if op.phase == Waiting || op.phase == Running then op.charge else 0
  }

  function GuardsOf(scope: nat): Op -> nat {
    (op: Op) => if op.scope == scope && Guarded(op) then 1 else 0
  }

  function FileGuardsOf(scope: nat): Op -> nat {
    (op: Op) => if op.scope == scope && Guarded(op) && op.kind == FileWork then 1 else 0
  }

  /** Steps an operation still has before it. */
  function Rank(op: Op): nat {
    match op.phase
    case Waiting => 4
    case Running => 3
    case Unpermitted => 2
    case Notifying => 1
    case Done => 0
  }

  function Tally(ops: seq<Op>, f: Op -> nat): nat {
    if ops == [] then 0 else f(ops[0]) + Tally(ops[1..], f)
  }

  lemma {:induction false} TallyUpdate(ops: seq<Op>, f: Op -> nat, i: nat, op: Op)
    requires i < |ops|
    ensures Tally(ops[i := op], f) + f(ops[i]) == Tally(ops, f) + f(op)
  {
    if i == 0 {
      assert ops[i := op][1..] == ops[1..];
    } else {
      assert ops[i := op][1..] == ops[1..][i - 1 := op];
      TallyUpdate(ops[1..], f, i - 1, op);
    }
  }

  lemma {:induction false} TallySnoc(ops: seq<Op>, f: Op -> nat, op: Op)
    ensures Tally(ops + [op], f) == Tally(ops, f) + f(op)
  {
    if ops == [] {
      assert ops + [op] == [op];
    } else {
      assert (ops + [op])[1..] == ops[1..] + [op];
      TallySnoc(ops[1..], f, op);
    }
  }

  lemma {:induction false} TallyAtLeast(ops: seq<Op>, f: Op -> nat, i: nat)
    requires i < |ops|
    ensures f(ops[i]) <= Tally(ops, f)
  {
    if i > 0 {
      TallyAtLeast(ops[1..], f, i - 1);
    }
  }

  lemma {:induction false} TallyZero(ops: seq<Op>, f: Op -> nat)
    requires forall i | 0 <= i < |ops| :: f(ops[i]) == 0
    ensures Tally(ops, f) == 0
  {
    if ops != [] {
      TallyZero(ops[1..], f);
    }
  }

  // ----- scopes and their cleanup -----

  /** Owner still starting operations; owner finished, no cleanup call in
      progress; inside `idle`, registered or parked; idle seen; awaiting the
      removal operation; directory given up. */
  datatype Cleaner = Open | Closed | Registered | Parked | Ready | Awaiting(op: nat) | Finished

  /** `pending` is the scope's counter, `woken` whether the idle waiter was
      notified since it registered, `exists` the directory, and `removed` that
      some removal of it has succeeded. */
  datatype Scope = Scope(pending: nat, cleaner: Cleaner, woken: bool, detached: bool, present: bool, removed: bool)

  /** Permits in all and left, and the bytes that operations hold. */
  datatype State = State(total: nat, available: nat, used: int, ops: seq<Op>, scopes: seq<Scope>)

  datatype Step =
    | NewScope
    | StartFileWork(k: nat, bytes: nat)
    | Acquire(i: nat)
    | Touch(i: nat)
    | Finish(i: nat, ok: bool)
    | DropGuard(i: nat)
    | NotifyIdle(i: nat)
    | CancelWaiting(i: nat)
    | CancelCaller(i: nat)
    | CloseOwner(k: nat)
    | StartCleanup(k: nat, detached: bool)
    | LoadPending(k: nat)
    | WakeIdle(k: nat)
    | StartRemoval(k: nat)
    | RemovalReturns(k: nat)
    | CancelCleanup(k: nat)

  function Init(total: nat): State {
    State(total, total, 0, [], [])
  }

  function SetOp(s: State, i: nat, op: Op): State
    requires i < |s.ops|
  {
    s.(ops := s.ops[i := op])
  }

  function SetScope(s: State, k: nat, scope: Scope): State
    requires k < |s.scopes|
  {
    s.(scopes := s.scopes[k := scope])
  }

  /** `start`: with its bytes reserved, count the operation as pending before it
      waits for its permit. */
  function Start(s: State, k: nat, kind: Kind, bytes: nat): State
    requires k < |s.scopes|
  {
    SetScope(s, k, s.scopes[k].(pending := s.scopes[k].pending + 1))
      .(used := s.used + bytes, ops := s.ops + [Op(k, kind, Waiting, bytes, false)])
  }

  /** Steps of one operation. */
  function OpMoves(s: State, step: Step, i: nat): Option<State>
    requires i < |s.ops| && s.ops[i].scope < |s.scopes|
  {
    var op := s.ops[i];
    var scope := s.scopes[op.scope];
    match step
    case Acquire(_) =>
      if op.phase == Waiting && s.available > 0
      then Some(SetOp(s, i, op.(phase := Running)).(available := s.available - 1)) else None
    case Touch(_) =>
      if op.phase == Running && op.kind == FileWork
      then Some(SetScope(s, op.scope, scope.(present := true))) else None
    case Finish(_, ok) =>
      if op.phase != Running then None
      else
        var t := SetOp(s, i, op.(phase := Unpermitted, succeeded := ok))
                   .(available := s.available + 1, used := s.used - op.charge);
        if op.kind == RemoveDir && ok then Some(SetScope(t, op.scope, scope.(present := false, removed := true)))
        else Some(t)
    case DropGuard(_) =>
      if op.phase != Unpermitted || scope.pending == 0 then None
      else
        Some(SetScope(SetOp(s, i, op.(phase := if scope.pending == 1 then Notifying else Done)),
                      op.scope, scope.(pending := scope.pending - 1)))
    case NotifyIdle(_) =>
      if op.phase != Notifying then None
      else
        Some(SetScope(SetOp(s, i, op.(phase := Done)), op.scope,
                      scope.(woken := scope.woken || scope.cleaner == Registered || scope.cleaner == Parked)))
    case CancelWaiting(_) =>
      if op.phase == Waiting && op.kind == FileWork
      then Some(SetOp(s, i, op.(phase := Unpermitted)).(used := s.used - op.charge)) else None
    case CancelCaller(_) =>
      if op.phase == Running || op.phase == Unpermitted || op.phase == Notifying then Some(s) else None
    case _ => None
  }

  /** Steps of a scope's owner and its cleanup guard. */
  function ScopeMoves(s: State, step: Step, k: nat): Option<State>
    requires k < |s.scopes|
  {
    var scope := s.scopes[k];
    match step
    case StartFileWork(_, bytes) => if scope.cleaner == Open then Some(Start(s, k, FileWork, bytes)) else None
    case CloseOwner(_) => if scope.cleaner == Open then Some(SetScope(s, k, scope.(cleaner := Closed))) else None
    case StartCleanup(_, detached) =>
      if scope.cleaner == Closed && !scope.detached
      then Some(SetScope(s, k, scope.(cleaner := Registered, woken := false, detached := detached))) else None
    case LoadPending(_) =>
      if scope.cleaner == Registered
      then Some(SetScope(s, k, scope.(cleaner := if scope.pending == 0 then Ready else Parked))) else None
    case WakeIdle(_) =>
      if scope.cleaner == Parked && scope.woken
      then Some(SetScope(s, k, scope.(cleaner := Registered, woken := false))) else None
    case StartRemoval(_) =>
      if scope.cleaner == Ready then
        var t := Start(s, k, RemoveDir, 0);
        Some(SetScope(t, k, t.scopes[k].(cleaner := Awaiting(|s.ops|))))
      else None
    case RemovalReturns(_) =>
      if scope.cleaner.Awaiting? && scope.cleaner.op < |s.ops| && s.ops[scope.cleaner.op].phase == Done
      then Some(SetScope(s, k, scope.(cleaner := if s.ops[scope.cleaner.op].succeeded then Finished else Closed)))
      else None
    case CancelCleanup(_) =>
      if scope.detached then None
      else if scope.cleaner == Registered || scope.cleaner == Parked || scope.cleaner == Ready then
        Some(SetScope(s, k, scope.(cleaner := Closed)))
      else if scope.cleaner.Awaiting? && scope.cleaner.op < |s.ops| then
        var op := s.ops[scope.cleaner.op];
        var t := if op.phase == Waiting
                 then SetOp(s, scope.cleaner.op, op.(phase := Unpermitted)).(used := s.used - op.charge) else s;
        Some(SetScope(t, k, scope.(cleaner := Closed)))
      else None
    case _ => None
  }

  function Target(step: Step): nat {
    match step
    case NewScope => 0
    case StartFileWork(k, _) => k
    case Acquire(i) => i
    case Touch(i) => i
    case Finish(i, _) => i
    case DropGuard(i) => i
    case NotifyIdle(i) => i
    case CancelWaiting(i) => i
    case CancelCaller(i) => i
    case CloseOwner(k) => k
    case StartCleanup(k, _) => k
    case LoadPending(k) => k
    case WakeIdle(k) => k
    case StartRemoval(k) => k
    case RemovalReturns(k) => k
    case CancelCleanup(k) => k
  }

  predicate OnOp(step: Step) {
    step.Acquire? || step.Touch? || step.Finish? || step.DropGuard? || step.NotifyIdle? ||
    step.CancelWaiting? || step.CancelCaller?
  }

  function Next(s: State, step: Step): Option<State> {
    var n := Target(step);
    if step == NewScope then Some(s.(scopes := s.scopes + [Scope(0, Open, false, false, false, false)]))
    else if OnOp(step) then
      if n < |s.ops| && s.ops[n].scope < |s.scopes| then OpMoves(s, step, n) else None
    else if n < |s.scopes| then ScopeMoves(s, step, n) else None
  }

  // ----- the invariant -----

  /** Permits and charged bytes are conserved, and `pending` counts the guards of
      each scope. */
  ghost predicate Counted(s: State) {
    && (forall i | 0 <= i < |s.ops| :: s.ops[i].scope < |s.scopes|)
    && s.available + Tally(s.ops, Permits) == s.total && s.used == Tally(s.ops, Charges)
    && forall k | 0 <= k < |s.scopes| :: s.scopes[k].pending == Tally(s.ops, GuardsOf(k))
  }

  /** Once a removal may start, no file work of the scope is left or can start. */
  ghost predicate Ordered(ops: seq<Op>, k: nat, scope: Scope) {
    && (scope.cleaner.Ready? ==> scope.pending == 0)
    && (scope.cleaner.Ready? || scope.cleaner.Awaiting? || scope.cleaner.Finished? || scope.removed ==>
         Tally(ops, FileGuardsOf(k)) == 0)
    && (scope.removed ==> !scope.present && scope.cleaner != Open)
    && (scope.cleaner.Awaiting? ==>
         scope.cleaner.op < |ops| && ops[scope.cleaner.op].scope == k && ops[scope.cleaner.op].kind == RemoveDir)
    && (scope.cleaner.Open? ==> !scope.detached)
  }

  /** The same, seen from a removal that holds its guard. */
  ghost predicate RemovalOrdered(s: State, op: Op)
    requires op.scope < |s.scopes|
  {
    op.kind == RemoveDir && Guarded(op) ==>
      Tally(s.ops, FileGuardsOf(op.scope)) == 0 && s.scopes[op.scope].cleaner != Open
  }

  /** A parked idle waiter that was not notified waits for a pending operation,
      or for one that stands between its decrement and its notification. */
  ghost predicate IdleSafe(ops: seq<Op>, k: nat, scope: Scope) {
    scope.cleaner == Parked && !scope.woken ==>
      scope.pending > 0 || exists i :: 0 <= i < |ops| && ops[i].scope == k && ops[i].phase == Notifying
  }

  ghost predicate Inv(s: State) {
    && Counted(s)
    && (forall i | 0 <= i < |s.ops| :: RemovalOrdered(s, s.ops[i]))
    && (forall k | 0 <= k < |s.scopes| :: Ordered(s.ops, k, s.scopes[k]))
    && (forall k | 0 <= k < |s.scopes| :: IdleSafe(s.ops, k, s.scopes[k]))
  }

  // ----- how tallies move -----

  lemma RetallyCounts(ops: seq<Op>, i: nat, op: Op)
    requires i < |ops|
    ensures Tally(ops[i := op], Permits) + Permits(ops[i]) == Tally(ops, Permits) + Permits(op)
    ensures Tally(ops[i := op], Charges) + Charges(ops[i]) == Tally(ops, Charges) + Charges(op)
    ensures forall k ::
      Tally(ops[i := op], GuardsOf(k)) + GuardsOf(k)(ops[i]) == Tally(ops, GuardsOf(k)) + GuardsOf(k)(op)
  {
    TallyUpdate(ops, Permits, i, op);
    TallyUpdate(ops, Charges, i, op);
    forall k
      ensures Tally(ops[i := op], GuardsOf(k)) + GuardsOf(k)(ops[i]) == Tally(ops, GuardsOf(k)) + GuardsOf(k)(op)
    {
      TallyUpdate(ops, GuardsOf(k), i, op);
    }
  }

  lemma Retally(ops: seq<Op>, i: nat, op: Op)
    requires i < |ops|
    ensures Tally(ops[i := op], Permits) + Permits(ops[i]) == Tally(ops, Permits) + Permits(op)
    ensures Tally(ops[i := op], Charges) + Charges(ops[i]) == Tally(ops, Charges) + Charges(op)
    ensures forall k ::
      Tally(ops[i := op], GuardsOf(k)) + GuardsOf(k)(ops[i]) == Tally(ops, GuardsOf(k)) + GuardsOf(k)(op)
    ensures forall k :: Tally(ops[i := op], FileGuardsOf(k)) + FileGuardsOf(k)(ops[i]) ==
                        Tally(ops, FileGuardsOf(k)) + FileGuardsOf(k)(op)
  {
    RetallyCounts(ops, i, op);
    forall k ensures Tally(ops[i := op], FileGuardsOf(k)) + FileGuardsOf(k)(ops[i]) ==
                     Tally(ops, FileGuardsOf(k)) + FileGuardsOf(k)(op) {
      TallyUpdate(ops, FileGuardsOf(k), i, op);
    }
  }

  lemma Extally(ops: seq<Op>, op: Op)
    ensures Tally(ops + [op], Permits) == Tally(ops, Permits) + Permits(op)
    ensures Tally(ops + [op], Charges) == Tally(ops, Charges) + Charges(op)
    ensures forall k :: Tally(ops + [op], GuardsOf(k)) == Tally(ops, GuardsOf(k)) + GuardsOf(k)(op)
    ensures forall k :: Tally(ops + [op], FileGuardsOf(k)) == Tally(ops, FileGuardsOf(k)) + FileGuardsOf(k)(op)
  {
    TallySnoc(ops, Permits, op);
    TallySnoc(ops, Charges, op);
    forall k ensures Tally(ops + [op], GuardsOf(k)) == Tally(ops, GuardsOf(k)) + GuardsOf(k)(op) {
      TallySnoc(ops, GuardsOf(k), op);
    }
    forall k ensures Tally(ops + [op], FileGuardsOf(k)) == Tally(ops, FileGuardsOf(k)) + FileGuardsOf(k)(op) {
      TallySnoc(ops, FileGuardsOf(k), op);
    }
  }

  lemma {:induction false} FileGuardsAreGuards(ops: seq<Op>, k: nat)
    ensures Tally(ops, FileGuardsOf(k)) <= Tally(ops, GuardsOf(k))
  {
    if ops != [] {
      FileGuardsAreGuards(ops[1..], k);
    }
  }

  // ----- every step keeps the invariant -----

  lemma OpKeepsCounted(s: State, step: Step, i: nat)
    requires Counted(s) && i < |s.ops| && OpMoves(s, step, i).Some?
    ensures Counted(OpMoves(s, step, i).value)
  {
    hide Tally;
    var t := OpMoves(s, step, i).value;
    RetallyCounts(s.ops, i, t.ops[i]);
  }

  /** File guards of a scope only go down in an operation's steps. */
  lemma OpFileGuards(s: State, step: Step, i: nat)
    requires i < |s.ops| && s.ops[i].scope < |s.scopes| && OpMoves(s, step, i).Some?
    ensures var t := OpMoves(s, step, i).value;
      && |t.ops| == |s.ops| && |t.scopes| == |s.scopes|
      && (forall j | 0 <= j < |t.ops| ::
           t.ops[j] == s.ops[j].(phase := t.ops[j].phase, succeeded := t.ops[j].succeeded))
      && (forall j | 0 <= j < |t.ops| && Guarded(t.ops[j]) :: Guarded(s.ops[j]))
      && (forall k | 0 <= k < |t.scopes| ::
           t.scopes[k].cleaner == s.scopes[k].cleaner && t.scopes[k].detached == s.scopes[k].detached)
      && (forall k :: Tally(t.ops, FileGuardsOf(k)) <= Tally(s.ops, FileGuardsOf(k)))
  {
    hide Tally;
    Retally(s.ops, i, OpMoves(s, step, i).value.ops[i]);
  }

  lemma OpKeepsRemovals(s: State, step: Step, i: nat)
    requires Inv(s) && i < |s.ops| && OpMoves(s, step, i).Some?
    ensures var t := OpMoves(s, step, i).value;
      forall j | 0 <= j < |t.ops| :: t.ops[j].scope < |t.scopes| && RemovalOrdered(t, t.ops[j])
  {
    OpFileGuards(s, step, i);
    var t := OpMoves(s, step, i).value;
    forall j | 0 <= j < |t.ops| ensures t.ops[j].scope < |t.scopes| && RemovalOrdered(t, t.ops[j]) {
      assert RemovalOrdered(s, s.ops[j]);
    }
  }

  /** Where an operation's step changes the directory, order allows it. */
  lemma OpScopeChange(s: State, step: Step, i: nat)
    requires Inv(s) && i < |s.ops| && OpMoves(s, step, i).Some?
    ensures var t := OpMoves(s, step, i).value;
      forall k | 0 <= k < |t.scopes| ::
        && t.scopes[k].pending <= s.scopes[k].pending
        && (t.scopes[k].removed ==>
             !t.scopes[k].present && t.scopes[k].cleaner != Open && Tally(s.ops, FileGuardsOf(k)) == 0)
  {
    var k := s.ops[i].scope;
    assert RemovalOrdered(s, s.ops[i]) && Ordered(s.ops, k, s.scopes[k]);
    TallyAtLeast(s.ops, FileGuardsOf(k), i);
    forall j | 0 <= j < |s.scopes| ensures Ordered(s.ops, j, s.scopes[j]) {}
  }

  lemma OpKeepsOrder(s: State, step: Step, i: nat)
    requires Inv(s) && i < |s.ops| && OpMoves(s, step, i).Some?
    ensures var t := OpMoves(s, step, i).value;
      forall k | 0 <= k < |t.scopes| :: Ordered(t.ops, k, t.scopes[k])
  {
    OpFileGuards(s, step, i);
    OpScopeChange(s, step, i);
    var t := OpMoves(s, step, i).value;
    forall k | 0 <= k < |t.scopes| ensures Ordered(t.ops, k, t.scopes[k]) {
      assert Ordered(s.ops, k, s.scopes[k]);
    }
  }

  lemma OpKeepsIdle(s: State, step: Step, i: nat)
    requires Inv(s) && i < |s.ops| && OpMoves(s, step, i).Some?
    ensures var t := OpMoves(s, step, i).value;
      forall k | 0 <= k < |t.scopes| :: IdleSafe(t.ops, k, t.scopes[k])
  {
    var t := OpMoves(s, step, i).value;
    forall k | 0 <= k < |t.scopes| ensures IdleSafe(t.ops, k, t.scopes[k]) {
      assert IdleSafe(s.ops, k, s.scopes[k]);
      assert t.ops[i].scope == s.ops[i].scope;
      if t.scopes[k].cleaner == Parked && !t.scopes[k].woken && t.scopes[k].pending == 0 {
        if s.scopes[k].pending > 0 {
          assert t.ops[i].phase == Notifying && t.ops[i].scope == k;
        } else {
          var j :| 0 <= j < |s.ops| && s.ops[j].scope == k && s.ops[j].phase == Notifying;
          assert t.ops[j].scope == k && t.ops[j].phase == Notifying;
        }
      }
    }
  }

  lemma StartKeepsCounted(s: State, k: nat, kind: Kind, bytes: nat)
    requires Counted(s) && k < |s.scopes|
    ensures Counted(Start(s, k, kind, bytes))
  {
    Extally(s.ops, Op(k, kind, Waiting, bytes, false));
  }

  lemma StartFileKeepsInv(s: State, k: nat, bytes: nat)
    requires Inv(s) && k < |s.scopes| && s.scopes[k].cleaner == Open
    ensures Inv(Start(s, k, FileWork, bytes))
  {
    var t := Start(s, k, FileWork, bytes);
    StartKeepsCounted(s, k, FileWork, bytes);
    Extally(s.ops, Op(k, FileWork, Waiting, bytes, false));
    forall i | 0 <= i < |t.ops| ensures RemovalOrdered(t, t.ops[i]) {
      assert i < |s.ops| ==> RemovalOrdered(s, s.ops[i]);
    }
    forall j | 0 <= j < |t.scopes| ensures Ordered(t.ops, j, t.scopes[j]) && IdleSafe(t.ops, j, t.scopes[j]) {
      assert Ordered(s.ops, j, s.scopes[j]);
      IdleExtends(s.ops, t.ops, j, s.scopes[j], t.scopes[j]);
    }
  }

  lemma IdleExtends(ops: seq<Op>, more: seq<Op>, k: nat, scope: Scope, scope': Scope)
    requires ops <= more && IdleSafe(ops, k, scope)
    requires scope'.pending >= scope.pending && scope'.woken == scope.woken
    requires scope'.cleaner == scope.cleaner || scope'.cleaner != Parked
    ensures IdleSafe(more, k, scope')
  {
    if scope'.cleaner == Parked && !scope'.woken && scope.pending == 0 {
      var i :| 0 <= i < |ops| && ops[i].scope == k && ops[i].phase == Notifying;
      assert more[i] == ops[i];
    }
  }

  lemma StartRemovalKeepsInv(s: State, k: nat)
    requires Inv(s) && k < |s.scopes| && s.scopes[k].cleaner == Ready
    ensures Inv(ScopeMoves(s, StartRemoval(k), k).value)
  {
    hide Tally;
    var t := ScopeMoves(s, StartRemoval(k), k).value;
    StartKeepsCounted(s, k, RemoveDir, 0);
    Extally(s.ops, Op(k, RemoveDir, Waiting, 0, false));
    assert Ordered(s.ops, k, s.scopes[k]);
    forall i | 0 <= i < |t.ops| ensures RemovalOrdered(t, t.ops[i]) {
      assert i < |s.ops| ==> RemovalOrdered(s, s.ops[i]);
    }
    forall j | 0 <= j < |t.scopes| ensures Ordered(t.ops, j, t.scopes[j]) && IdleSafe(t.ops, j, t.scopes[j]) {
      assert Ordered(s.ops, j, s.scopes[j]);
      IdleExtends(s.ops, t.ops, j, s.scopes[j], t.scopes[j]);
    }
  }

  /** Steps of the cleanup guard that start no operation. */
  predicate Guarding(step: Step) {
    step.CloseOwner? || step.StartCleanup? || step.LoadPending? || step.WakeIdle? || step.RemovalReturns?
  }

  lemma GuardKeepsInv(s: State, step: Step, k: nat)
    requires Inv(s) && k < |s.scopes| && Guarding(step) && ScopeMoves(s, step, k).Some?
    ensures Inv(ScopeMoves(s, step, k).value)
  {
    hide Tally;
    var t := ScopeMoves(s, step, k).value;
    assert t.ops == s.ops;
    FileGuardsAreGuards(s.ops, k);
    forall i | 0 <= i < |t.ops| ensures RemovalOrdered(t, t.ops[i]) {
      assert RemovalOrdered(s, s.ops[i]);
    }
    forall j | 0 <= j < |t.scopes| ensures Ordered(t.ops, j, t.scopes[j]) && IdleSafe(t.ops, j, t.scopes[j]) {
      assert Ordered(s.ops, j, s.scopes[j]) && IdleSafe(s.ops, j, s.scopes[j]);
    }
  }

  lemma CancelKeepsIdle(s: State, step: Step, k: nat, j: nat)
    requires Inv(s) && k < |s.scopes| && step.CancelCleanup? && ScopeMoves(s, step, k).Some? && j < |s.scopes|
    ensures var t := ScopeMoves(s, step, k).value; IdleSafe(t.ops, j, t.scopes[j])
  {
    var t := ScopeMoves(s, step, k).value;
    assert IdleSafe(s.ops, j, s.scopes[j]);
    if t.scopes[j].cleaner == Parked && !t.scopes[j].woken && t.scopes[j].pending == 0 {
      var i :| 0 <= i < |s.ops| && s.ops[i].scope == j && s.ops[i].phase == Notifying;
      assert t.ops[i].scope == j && t.ops[i].phase == Notifying;
    }
  }

  lemma CancelRetallies(s: State, step: Step, k: nat)
    requires Inv(s) && k < |s.scopes| && step.CancelCleanup? && ScopeMoves(s, step, k).Some?
    ensures var t := ScopeMoves(s, step, k).value;
      && Counted(t)
      && (forall j :: Tally(t.ops, FileGuardsOf(j)) == Tally(s.ops, FileGuardsOf(j)))
      && |t.ops| == |s.ops|
      && (forall i | 0 <= i < |t.ops| ::
           t.ops[i].scope == s.ops[i].scope && t.ops[i].kind == s.ops[i].kind && Guarded(t.ops[i]) == Guarded(s.ops[i]))
  {
    hide Tally;
    var t := ScopeMoves(s, step, k).value;
    assert Ordered(s.ops, k, s.scopes[k]);
    if s.scopes[k].cleaner.Awaiting? {
      assert s.ops[s.scopes[k].cleaner.op := s.ops[s.scopes[k].cleaner.op]] == s.ops;
      Retally(s.ops, s.scopes[k].cleaner.op, t.ops[s.scopes[k].cleaner.op]);
    }
  }

  lemma CancelKeepsInv(s: State, step: Step, k: nat)
    requires Inv(s) && k < |s.scopes| && step.CancelCleanup? && ScopeMoves(s, step, k).Some?
    ensures Inv(ScopeMoves(s, step, k).value)
  {
    hide Tally;
    var t := ScopeMoves(s, step, k).value;
    CancelRetallies(s, step, k);
    forall i | 0 <= i < |t.ops| ensures RemovalOrdered(t, t.ops[i]) {
      assert RemovalOrdered(s, s.ops[i]);
    }
    forall j | 0 <= j < |t.scopes| ensures Ordered(t.ops, j, t.scopes[j]) && IdleSafe(t.ops, j, t.scopes[j]) {
      assert Ordered(s.ops, j, s.scopes[j]);
      CancelKeepsIdle(s, step, k, j);
    }
  }

  lemma NewScopeKeepsInv(s: State)
    requires Inv(s)
    ensures Inv(Next(s, NewScope).value)
  {
    var t, k := Next(s, NewScope).value, |s.scopes|;
    forall i | 0 <= i < |s.ops| ensures GuardsOf(k)(s.ops[i]) == 0 {}
    TallyZero(s.ops, GuardsOf(k));
    forall i | 0 <= i < |t.ops| ensures RemovalOrdered(t, t.ops[i]) {
      assert RemovalOrdered(s, s.ops[i]);
    }
    forall j | 0 <= j < |t.scopes| ensures Ordered(t.ops, j, t.scopes[j]) && IdleSafe(t.ops, j, t.scopes[j]) {
      assert j < k ==> Ordered(s.ops, j, s.scopes[j]) && IdleSafe(s.ops, j, s.scopes[j]);
    }
  }

  lemma StepKeepsInv(s: State, step: Step)
    requires Inv(s) && Next(s, step).Some?
    ensures Inv(Next(s, step).value)
  {
    var n := Target(step);
    if OnOp(step) {
      OpKeepsCounted(s, step, n);
      OpKeepsRemovals(s, step, n);
      OpKeepsOrder(s, step, n);
      OpKeepsIdle(s, step, n);
    } else {
      match step
      case NewScope => NewScopeKeepsInv(s);
      case StartFileWork(_, bytes) => StartFileKeepsInv(s, n, bytes);
      case StartRemoval(_) => StartRemovalKeepsInv(s, n);
      case CancelCleanup(_) => CancelKeepsInv(s, step, n);
      case _ => GuardKeepsInv(s, step, n);
    }
  }

  // ----- every run -----

  function Run(s: State, steps: seq<Step>): Option<State> {
    if steps == [] then Some(s)
    else
      var earlier := Run(s, steps[..|steps| - 1]);
      if earlier.None? then None else Next(earlier.value, steps[|steps| - 1])
  }

  lemma {:induction false} RunKeepsInv(s: State, steps: seq<Step>)
    requires Inv(s) && Run(s, steps).Some?
    ensures Inv(Run(s, steps).value)
  {
    if steps != [] {
      RunKeepsInv(s, steps[..|steps| - 1]);
      StepKeepsInv(Run(s, steps[..|steps| - 1]).value, steps[|steps| - 1]);
    }
  }

  lemma ReachableInv(total: nat, steps: seq<Step>)
    requires Run(Init(total), steps).Some?
    ensures Inv(Run(Init(total), steps).value)
  {
    RunKeepsInv(Init(total), steps);
  }

  lemma {:induction false} NoFileGuards(ops: seq<Op>, k: nat, i: nat)
    requires Tally(ops, FileGuardsOf(k)) == 0 && i < |ops| && ops[i].scope == k && ops[i].kind == FileWork
    ensures !Guarded(ops[i])
  {
    TallyAtLeast(ops, FileGuardsOf(k), i);
  }

  /** A removal of the scope waits or runs. */
  ghost predicate RemovalGuarded(ops: seq<Op>, k: nat) {
    exists j :: 0 <= j < |ops| && ops[j].scope == k && ops[j].kind == RemoveDir && Guarded(ops[j])
  }

  /** Removal order: on every run, while a removal of a scope waits or runs, and
      ever after one succeeded, no file work of that scope waits or runs; after a
      success the directory is gone and no step can bring it back. */
  lemma RemovalComesLast(total: nat, steps: seq<Step>, i: nat)
    requires Run(Init(total), steps).Some? && i < |Run(Init(total), steps).value.ops|
    ensures var s := Run(Init(total), steps).value; var op := s.ops[i];
      && op.scope < |s.scopes|
      && (op.kind == FileWork && (s.scopes[op.scope].removed || RemovalGuarded(s.ops, op.scope)) ==> !Guarded(op))
  {
    RunKeepsInv(Init(total), steps);
    var s := Run(Init(total), steps).value;
    var op := s.ops[i];
    assert Ordered(s.ops, op.scope, s.scopes[op.scope]);
    forall j | 0 <= j < |s.ops| && s.ops[j].scope == op.scope && s.ops[j].kind == RemoveDir && Guarded(s.ops[j])
      ensures Tally(s.ops, FileGuardsOf(op.scope)) == 0
    {
      assert RemovalOrdered(s, s.ops[j]);
    }
    if op.kind == FileWork && Tally(s.ops, FileGuardsOf(op.scope)) == 0 {
      NoFileGuards(s.ops, op.scope, i);
    }
  }

  lemma RemovedStaysRemoved(s: State, step: Step, k: nat)
    requires Inv(s) && k < |s.scopes| && s.scopes[k].removed && Next(s, step).Some?
    ensures k < |Next(s, step).value.scopes| && Next(s, step).value.scopes[k].removed
  {
    hide Inv;
  }

  lemma {:induction false} RunKeepsRemoved(s: State, steps: seq<Step>, k: nat)
    requires Inv(s) && k < |s.scopes| && s.scopes[k].removed && Run(s, steps).Some?
    ensures var t := Run(s, steps).value; k < |t.scopes| && t.scopes[k].removed && !t.scopes[k].present
  {
    if steps == [] {
      assert Ordered(s.ops, k, s.scopes[k]);
    } else {
      var earlier := steps[..|steps| - 1];
      RunKeepsRemoved(s, earlier, k);
      RunKeepsInv(s, earlier);
      RunKeepsInv(s, steps);
      RemovedStaysRemoved(Run(s, earlier).value, steps[|steps| - 1], k);
      assert Ordered(Run(s, steps).value.ops, k, Run(s, steps).value.scopes[k]);
    }
  }

  /** Scratch is never resurrected: once a removal succeeded, the directory is
      absent in every later state of every run. */
  lemma NeverResurrected(total: nat, steps: seq<Step>, more: seq<Step>, k: nat)
    requires Run(Init(total), steps).Some? && Run(Run(Init(total), steps).value, more).Some?
    requires k < |Run(Init(total), steps).value.scopes| && Run(Init(total), steps).value.scopes[k].removed
    ensures var t := Run(Run(Init(total), steps).value, more).value; k < |t.scopes| && !t.scopes[k].present
  {
    RunKeepsInv(Init(total), steps);
    RunKeepsRemoved(Run(Init(total), steps).value, more, k);
  }

  /** Permits and charged bytes are conserved on every run: what is out is held by
      the jobs that run, the bytes also by those that wait; `pending` never loses
      count. */
  lemma PermitsConserved(total: nat, steps: seq<Step>)
    requires Run(Init(total), steps).Some?
    ensures var s := Run(Init(total), steps).value;
      && s.available + Tally(s.ops, Permits) == total && s.used == Tally(s.ops, Charges)
      && forall k | 0 <= k < |s.scopes| :: s.scopes[k].pending == Tally(s.ops, GuardsOf(k))
  {
    RunKeepsInv(Init(total), steps);
    RunKeepsTotal(Init(total), steps);
  }

  lemma StepKeepsTotal(s: State, step: Step)
    requires Next(s, step).Some?
    ensures Next(s, step).value.total == s.total
  {
  }

  lemma {:induction false} RunKeepsTotal(s: State, steps: seq<Step>)
    requires Run(s, steps).Some?
    ensures Run(s, steps).value.total == s.total
  {
    hide Next;
    if steps != [] {
      RunKeepsTotal(s, steps[..|steps| - 1]);
      StepKeepsTotal(Run(s, steps[..|steps| - 1]).value, steps[|steps| - 1]);
    }
  }

  /** No lost wakeup for `idle`: a parked cleanup that was not notified waits
      for a pending operation or for one that is about to notify it. */
  lemma NoLostIdleWakeup(total: nat, steps: seq<Step>, k: nat)
    requires Run(Init(total), steps).Some? && k < |Run(Init(total), steps).value.scopes|
    ensures var s := Run(Init(total), steps).value;
      s.scopes[k].cleaner == Parked && !s.scopes[k].woken && s.scopes[k].pending == 0 ==>
        exists i :: 0 <= i < |s.ops| && s.ops[i].scope == k && Next(s, NotifyIdle(i)).Some? &&
                    Next(s, NotifyIdle(i)).value.scopes[k].woken
  {
    hide Run, Init, Tally, Counted, Ordered, RemovalOrdered;
    ReachableInv(total, steps);
    var s := Run(Init(total), steps).value;
    assert IdleSafe(s.ops, k, s.scopes[k]);
    if s.scopes[k].cleaner == Parked && !s.scopes[k].woken && s.scopes[k].pending == 0 {
      var i :| 0 <= i < |s.ops| && s.ops[i].scope == k && s.ops[i].phase == Notifying;
      assert Next(s, NotifyIdle(i)).value.scopes[k].woken;
    }
  }

  /** Operation `i` is in the phase of `op`, as the same work of the same scope
      with the same charge. */
  ghost predicate Stays(s: State, i: nat, op: Op) {
    && i < |s.ops| && s.ops[i].scope == op.scope && s.ops[i].kind == op.kind
    && s.ops[i].phase == op.phase && s.ops[i].charge == op.charge
  }

  /** A running job moves on only by finishing, whatever else is cancelled. */
  lemma RunningStays(s: State, step: Step, i: nat, op: Op)
    requires Stays(s, i, op) && op.phase == Running && Next(s, step).Some?
    requires !(step.Finish? && step.i == i)
    ensures Stays(Next(s, step).value, i, op)
  {
  }

  /** A job that gave its permit back moves on only by dropping its guard. */
  lemma UnpermittedStays(s: State, step: Step, i: nat, op: Op)
    requires Stays(s, i, op) && op.phase == Unpermitted && Next(s, step).Some?
    requires step != DropGuard(i)
    ensures Stays(Next(s, step).value, i, op)
  {
  }

  lemma {:induction false} RunKeepsRunning(s: State, steps: seq<Step>, i: nat)
    requires i < |s.ops| && s.ops[i].phase == Running && Run(s, steps).Some?
    requires forall step | step in steps :: !(step.Finish? && step.i == i)
    ensures Stays(Run(s, steps).value, i, s.ops[i])
  {
    if steps != [] {
      RunKeepsRunning(s, steps[..|steps| - 1], i);
      RunningStays(Run(s, steps[..|steps| - 1]).value, steps[|steps| - 1], i, s.ops[i]);
    }
  }

  lemma {:induction false} RunKeepsUnpermitted(s: State, steps: seq<Step>, i: nat)
    requires i < |s.ops| && s.ops[i].phase == Unpermitted && Run(s, steps).Some?
    requires DropGuard(i) !in steps
    ensures Stays(Run(s, steps).value, i, s.ops[i])
  {
    if steps != [] {
      RunKeepsUnpermitted(s, steps[..|steps| - 1], i);
      UnpermittedStays(Run(s, steps[..|steps| - 1]).value, steps[|steps| - 1], i, s.ops[i]);
    }
  }

  /** A guard that is held counts as pending and keeps every removal of its scope
      from starting; a permit that is held is not available, a charge is used. */
  lemma HeldCounts(s: State, i: nat)
    requires Inv(s) && i < |s.ops| && Guarded(s.ops[i])
    ensures s.ops[i].scope < |s.scopes| && s.scopes[s.ops[i].scope].pending >= 1
    ensures Next(s, StartRemoval(s.ops[i].scope)).None?
    ensures s.ops[i].phase == Running ==> s.available < s.total && s.ops[i].charge <= s.used
  {
    var k := s.ops[i].scope;
    TallyAtLeast(s.ops, Charges, i);
    TallyAtLeast(s.ops, GuardsOf(k), i);
    TallyAtLeast(s.ops, Permits, i);
    assert Ordered(s.ops, k, s.scopes[k]);
  }

  /** Cancelled callers release nothing: on every run, a running job keeps its
      permit, its bytes and its guard until its own finish, and then its guard
      until its own drop, whoever is cancelled in between; as long as that lasts
      the scope's removal cannot start. */
  lemma CancelledCallerReleasesNothing(total: nat, steps: seq<Step>, more: seq<Step>, i: nat)
    requires Run(Init(total), steps).Some? && Run(Run(Init(total), steps).value, more).Some?
    requires i < |Run(Init(total), steps).value.ops|
    ensures var s := Run(Init(total), steps).value; var t := Run(s, more).value;
      (s.ops[i].phase == Running && (forall step | step in more :: !(step.Finish? && step.i == i))) ||
      (s.ops[i].phase == Unpermitted && DropGuard(i) !in more) ==>
        && Stays(t, i, s.ops[i]) && t.ops[i].scope < |t.scopes| && t.scopes[t.ops[i].scope].pending >= 1
        && Next(t, StartRemoval(t.ops[i].scope)).None?
        && (t.ops[i].phase == Running ==> t.available < t.total && t.ops[i].charge <= t.used)
  {
    var s := Run(Init(total), steps).value;
    var t := Run(s, more).value;
    RunKeepsInv(Init(total), steps);
    RunKeepsInv(s, more);
    if s.ops[i].phase == Running && forall step | step in more :: !(step.Finish? && step.i == i) {
      RunKeepsRunning(s, more, i);
      HeldCounts(t, i);
    }
    if s.ops[i].phase == Unpermitted && DropGuard(i) !in more {
      RunKeepsUnpermitted(s, more, i);
      HeldCounts(t, i);
    }
  }

  // ----- removals are alone -----

  /** A removal that holds its guard is the only pending operation of its scope. */
  ghost predicate RemovalsAlone(s: State) {
    forall i | 0 <= i < |s.ops| && s.ops[i].kind == RemoveDir && Guarded(s.ops[i]) ::
      s.ops[i].scope < |s.scopes| && s.scopes[s.ops[i].scope].pending == 1
  }

  lemma {:induction false} TallyTwo(ops: seq<Op>, f: Op -> nat, i: nat, j: nat)
    requires i < j < |ops|
    ensures f(ops[i]) + f(ops[j]) <= Tally(ops, f)
  {
    if i == 0 {
      TallyAtLeast(ops[1..], f, j - 1);
    } else {
      TallyTwo(ops[1..], f, i - 1, j - 1);
    }
  }

  /** Where one guard is pending, no second operation holds one. */
  lemma OnlyGuard(s: State, i: nat, j: nat)
    requires Counted(s) && i < |s.ops| && j < |s.ops| && Guarded(s.ops[i]) && Guarded(s.ops[j])
    requires s.ops[i].scope == s.ops[j].scope && s.scopes[s.ops[i].scope].pending == 1
    ensures i == j
  {
    var k := s.ops[i].scope;
    if i < j {
      TallyTwo(s.ops, GuardsOf(k), i, j);
    } else if j < i {
      TallyTwo(s.ops, GuardsOf(k), j, i);
    }
  }

  lemma StepKeepsAlone(s: State, step: Step)
    requires Inv(s) && RemovalsAlone(s) && Next(s, step).Some?
    ensures RemovalsAlone(Next(s, step).value)
  {
    var t := Next(s, step).value;
    forall i | 0 <= i < |t.ops| && t.ops[i].kind == RemoveDir && Guarded(t.ops[i])
      ensures t.ops[i].scope < |t.scopes| && t.scopes[t.ops[i].scope].pending == 1
    {
      AloneAfter(s, step, i);
    }
  }

  lemma AloneAfter(s: State, step: Step, i: nat)
    requires Inv(s) && RemovalsAlone(s) && Next(s, step).Some?
    requires i < |Next(s, step).value.ops|
    requires var op := Next(s, step).value.ops[i]; op.kind == RemoveDir && Guarded(op)
    ensures var t := Next(s, step).value; t.ops[i].scope < |t.scopes| && t.scopes[t.ops[i].scope].pending == 1
  {
    if OnOp(step) {
      AloneAfterOp(s, step, Target(step), i);
    } else if step == NewScope {
      assert Next(s, step).value.ops == s.ops;
    } else {
      AloneAfterScope(s, step, Target(step), i);
    }
  }

  /** An operation's step changes a pending count only by dropping its own guard. */
  lemma AloneAfterOp(s: State, step: Step, j: nat, i: nat)
    requires Inv(s) && RemovalsAlone(s) && j < |s.ops| && OpMoves(s, step, j).Some?
    requires i < |OpMoves(s, step, j).value.ops|
    requires var op := OpMoves(s, step, j).value.ops[i]; op.kind == RemoveDir && Guarded(op)
    ensures var t := OpMoves(s, step, j).value; t.ops[i].scope < |t.scopes| && t.scopes[t.ops[i].scope].pending == 1
  {
    OpFileGuards(s, step, j);
    if step.DropGuard? && s.ops[j].scope == s.ops[i].scope && j != i {
      OnlyGuard(s, i, j);
    }
  }

  lemma AloneAfterScope(s: State, step: Step, k: nat, i: nat)
    requires Inv(s) && RemovalsAlone(s) && k < |s.scopes| && ScopeMoves(s, step, k).Some?
    requires i < |ScopeMoves(s, step, k).value.ops|
    requires var op := ScopeMoves(s, step, k).value.ops[i]; op.kind == RemoveDir && Guarded(op)
    ensures var t := ScopeMoves(s, step, k).value; t.ops[i].scope < |t.scopes| && t.scopes[t.ops[i].scope].pending == 1
  {
    hide Tally, Counted;
    assert Ordered(s.ops, k, s.scopes[k]);
    if i < |s.ops| {
      assert RemovalOrdered(s, s.ops[i]);
      if Guarded(s.ops[i]) {
        HeldCounts(s, i);
      }
    }
  }

  lemma {:induction false} RunKeepsAlone(s: State, steps: seq<Step>)
    requires Inv(s) && RemovalsAlone(s) && Run(s, steps).Some?
    ensures RemovalsAlone(Run(s, steps).value)
  {
    if steps != [] {
      RunKeepsInv(s, steps[..|steps| - 1]);
      RunKeepsAlone(s, steps[..|steps| - 1]);
      StepKeepsAlone(Run(s, steps[..|steps| - 1]).value, steps[|steps| - 1]);
    }
  }

  /** On every run a removal starts only when no operation of its scope, of any
      kind, still waits, runs or holds its guard, and while it does so itself no
      other one of that scope does, an earlier removal included. */
  lemma RemovalsNeverOverlap(total: nat, steps: seq<Step>, i: nat)
    requires Run(Init(total), steps).Some? && i < |Run(Init(total), steps).value.ops|
    ensures var s := Run(Init(total), steps).value;
      && (Next(s, StartRemoval(s.ops[i].scope)).Some? ==> !Guarded(s.ops[i]))
      && forall j | 0 <= j < |s.ops| && j != i && s.ops[j].scope == s.ops[i].scope ::
           s.ops[j].kind == RemoveDir && Guarded(s.ops[j]) ==> !Guarded(s.ops[i])
  {
    RunKeepsInv(Init(total), steps);
    RunKeepsAlone(Init(total), steps);
    var s := Run(Init(total), steps).value;
    if Guarded(s.ops[i]) {
      HeldCounts(s, i);
      forall j | 0 <= j < |s.ops| && j != i && s.ops[j].scope == s.ops[i].scope
        ensures !(s.ops[j].kind == RemoveDir && Guarded(s.ops[j]))
      {
        if s.ops[j].kind == RemoveDir && Guarded(s.ops[j]) {
          OnlyGuard(s, i, j);
        }
      }
    }
  }

  // ----- progress -----

  /** A step that carries an operation on towards its end. */
  predicate Advances(step: Step) {
    step.Acquire? || step.Finish? || step.DropGuard? || step.NotifyIdle? || step.CancelWaiting?
  }

  /** A step by which an operation goes on undisturbed. */
  predicate Works(step: Step) {
    step.Acquire? || step.Finish? || step.DropGuard? || step.NotifyIdle?
  }

  ghost predicate SameCleaners(s: State, t: State) {
    |t.scopes| == |s.scopes| && forall k | 0 <= k < |t.scopes| :: t.scopes[k].cleaner == s.scopes[k].cleaner
  }

  lemma WorkKeepsCleaners(s: State, step: Step)
    requires Works(step) && Next(s, step).Some?
    ensures SameCleaners(s, Next(s, step).value) && Next(s, step).value.total == s.total
  {
  }

  lemma AdvanceDecreases(s: State, step: Step)
    requires Advances(step) && Next(s, step).Some?
    ensures Tally(Next(s, step).value.ops, Rank) < Tally(s.ops, Rank)
  {
    var i := Target(step);
    TallyUpdate(s.ops, Rank, i, Next(s, step).value.ops[i]);
  }

  /** With at least one permit in all, whatever operations are unfinished, one
      of them can advance: no operation holds a permit while it waits for one. */
  lemma SomeOperationAdvances(s: State) returns (step: Step)
    requires Inv(s) && s.total >= 1 && exists i :: 0 <= i < |s.ops| && s.ops[i].phase != Done
    ensures Advances(step) && Works(step) && Next(s, step).Some?
  {
    var i :| 0 <= i < |s.ops| && s.ops[i].phase != Done;
    if j :| 0 <= j < |s.ops| && s.ops[j].phase != Done && s.ops[j].phase != Waiting {
      match s.ops[j].phase
      case Running => step := Finish(j, true);
      case Unpermitted =>
        TallyAtLeast(s.ops, GuardsOf(s.ops[j].scope), j);
        step := DropGuard(j);
      case Notifying => step := NotifyIdle(j);
    } else {
      TallyZero(s.ops, Permits);
      step := Acquire(i);
    }
  }

  /** Any finite set of operations completes: from every reachable state some
      schedule finishes them all, in no more steps than their remaining ranks. */
  lemma {:induction false} OperationsComplete(s: State) returns (steps: seq<Step>)
    requires Inv(s) && s.total >= 1
    ensures Run(s, steps).Some? && |steps| <= Tally(s.ops, Rank)
    ensures forall i | 0 <= i < |Run(s, steps).value.ops| :: Run(s, steps).value.ops[i].phase == Done
    ensures (forall step | step in steps :: Works(step)) && SameCleaners(s, Run(s, steps).value)
    ensures Inv(Run(s, steps).value) && Run(s, steps).value.total == s.total
    decreases Tally(s.ops, Rank)
  {
    hide Next, Inv, Advances, Works;
    if forall i | 0 <= i < |s.ops| :: s.ops[i].phase == Done {
      steps := [];
    } else {
      var step := SomeOperationAdvances(s);
      AdvanceDecreases(s, step);
      WorkKeepsCleaners(s, step);
      StepKeepsInv(s, step);
      var rest := OperationsComplete(Next(s, step).value);
      steps := [step] + rest;
      RunCons(s, step, rest);
    }
  }

  lemma RunSnoc(s: State, steps: seq<Step>, step: Step)
    ensures Run(s, steps + [step]) == if Run(s, steps).None? then None else Next(Run(s, steps).value, step)
  {
    assert (steps + [step])[..|steps|] == steps;
  }

  lemma {:induction false} RunCons(s: State, step: Step, rest: seq<Step>)
    requires Next(s, step).Some?
    ensures Run(s, [step] + rest) == Run(Next(s, step).value, rest)
  {
    if rest == [] {
      RunSnoc(s, [], step);
      assert [step] + rest == [] + [step];
    } else {
      var init, last := rest[..|rest| - 1], rest[|rest| - 1];
      RunCons(s, step, init);
      RunSnoc(s, [step] + init, last);
      assert [step] + rest == [step] + init + [last];
      RunSnoc(Next(s, step).value, init, last);
      assert rest == init + [last];
    }
  }

  /** Extend a run from `s` that reached `t` by one step of operation `i`. */
  lemma ThenOp(s: State, before: seq<Step>, t: State, step: Step, i: nat) returns (steps: seq<Step>, u: State)
    requires Run(s, before) == Some(t) && OnOp(step) && Target(step) == i
    requires i < |t.ops| && t.ops[i].scope < |t.scopes| && OpMoves(t, step, i).Some?
    ensures Some(u) == OpMoves(t, step, i) && Run(s, steps) == Some(u) && steps == before + [step]
  {
    RunSnoc(s, before, step);
    steps, u := before + [step], OpMoves(t, step, i).value;
  }

  lemma ThenScope(s: State, before: seq<Step>, t: State, step: Step, k: nat) returns (steps: seq<Step>, u: State)
    requires Run(s, before) == Some(t) && !OnOp(step) && step != NewScope && Target(step) == k
    requires k < |t.scopes| && ScopeMoves(t, step, k).Some?
    ensures Some(u) == ScopeMoves(t, step, k) && Run(s, steps) == Some(u) && steps == before + [step]
  {
    RunSnoc(s, before, step);
    steps, u := before + [step], ScopeMoves(t, step, k).value;
  }

  /** Operation `i` of scope `k` and its scope, replaced together. */
  function Both(t: State, i: nat, op: Op, k: nat, scope: Scope): State
    requires i < |t.ops| && k < |t.scopes|
  {
    t.(ops := t.ops[i := op], scopes := t.scopes[k := scope])
  }

  /** A waiting removal with a free permit runs, succeeds and drops its permit. */
  lemma JobRuns(s: State, before: seq<Step>, t: State, i: nat, k: nat) returns (steps: seq<Step>, u: State)
    requires Run(s, before) == Some(t) && t.available >= 1 && i < |t.ops| && k < |t.scopes|
    requires t.ops[i] == Op(k, RemoveDir, Waiting, 0, false)
    ensures Run(s, steps) == Some(u) && steps == before + [Acquire(i), Finish(i, true)]
    ensures u == Both(t, i, Op(k, RemoveDir, Unpermitted, 0, true), k, t.scopes[k].(present := false, removed := true))
  {
    hide Run;
    steps, u := ThenOp(s, before, t, Acquire(i), i);
    assert u == SetOp(t, i, Op(k, RemoveDir, Running, 0, false)).(available := t.available - 1);
    steps, u := ThenOp(s, steps, u, Finish(i, true), i);
  }

  /** The last guard of a scope goes and its notification is given. */
  lemma GuardGoes(s: State, before: seq<Step>, t: State, i: nat, k: nat) returns (steps: seq<Step>, u: State)
    requires Run(s, before) == Some(t) && i < |t.ops| && k < |t.scopes|
    requires t.ops[i] == Op(k, RemoveDir, Unpermitted, 0, true)
    requires t.scopes[k].pending == 1 && t.scopes[k].cleaner.Awaiting?
    ensures Run(s, steps) == Some(u) && steps == before + [DropGuard(i), NotifyIdle(i)]
    ensures u == Both(t, i, Op(k, RemoveDir, Done, 0, true), k, t.scopes[k].(pending := 0))
  {
    hide Run;
    steps, u := ThenOp(s, before, t, DropGuard(i), i);
    assert u == Both(t, i, Op(k, RemoveDir, Notifying, 0, true), k, t.scopes[k].(pending := 0));
    steps, u := ThenOp(s, steps, u, NotifyIdle(i), i);
  }

  /** Cleanup finds its scope idle and starts the removal. */
  lemma CleanupStarts(s: State, k: nat) returns (steps: seq<Step>, u: State)
    requires k < |s.scopes|
    requires s.scopes[k].cleaner == Closed && !s.scopes[k].detached && s.scopes[k].pending == 0
    ensures Run(s, steps) == Some(u)
    ensures u == s.(
      ops := s.ops + [Op(k, RemoveDir, Waiting, 0, false)],
      scopes := s.scopes[k := s.scopes[k].(pending := 1, cleaner := Awaiting(|s.ops|), woken := false)])
  {
    steps, u := ThenScope(s, [], s, StartCleanup(k, false), k);
    assert u == SetScope(s, k, s.scopes[k].(cleaner := Registered, woken := false));
    steps, u := ThenScope(s, steps, u, LoadPending(k), k);
    assert u == SetScope(s, k, s.scopes[k].(cleaner := Ready, woken := false));
    steps, u := ThenScope(s, steps, u, StartRemoval(k), k);
  }

  /** When every operation is done nothing is pending, every permit is back, and a
      parked cleanup was notified. */
  lemma AllDone(s: State, k: nat)
    requires Inv(s) && k < |s.scopes| && forall i | 0 <= i < |s.ops| :: s.ops[i].phase == Done
    ensures s.scopes[k].pending == 0 && s.available == s.total
    ensures s.scopes[k].cleaner == Parked ==> s.scopes[k].woken
  {
    TallyZero(s.ops, GuardsOf(k));
    TallyZero(s.ops, Permits);
    assert IdleSafe(s.ops, k, s.scopes[k]);
  }

  /** The cleanup of scope k waits for idle or has just seen it. */
  predicate Waits(scope: Scope) {
    scope.cleaner == Registered || scope.cleaner == Parked || scope.cleaner == Ready
  }

  /** Steps of unfinished operations and of the cleanup of scope k. */
  predicate TowardsRemoval(step: Step, k: nat) {
    Works(step) || step == WakeIdle(k) || step == LoadPending(k) || step == StartRemoval(k) || step == RemovalReturns(k)
  }

  ghost predicate AllTowards(steps: seq<Step>, k: nat) {
    forall step | step in steps :: TowardsRemoval(step, k)
  }

  lemma TowardsSnoc(s: State, before: seq<Step>, t: State, step: Step, k: nat) returns (steps: seq<Step>, u: State)
    requires Run(s, before) == Some(t) && AllTowards(before, k) && !OnOp(step) && step != NewScope && Target(step) == k
    requires TowardsRemoval(step, k) && k < |t.scopes| && ScopeMoves(t, step, k).Some?
    ensures Some(u) == ScopeMoves(t, step, k) && Run(s, steps) == Some(u) && AllTowards(steps, k)
  {
    RunSnoc(s, before, step);
    steps, u := before + [step], ScopeMoves(t, step, k).value;
  }

  /** A cleanup whose scope is idle goes on until it may remove. */
  lemma ReachesReady(s: State, before: seq<Step>, t: State, k: nat) returns (steps: seq<Step>, u: State)
    requires Run(s, before) == Some(t) && AllTowards(before, k) && k < |t.scopes| && Waits(t.scopes[k])
    requires t.scopes[k].pending == 0 && (t.scopes[k].cleaner == Parked ==> t.scopes[k].woken)
    ensures Run(s, steps) == Some(u) && AllTowards(steps, k)
    ensures k < |u.scopes| && u == SetScope(t, k, t.scopes[k].(cleaner := Ready, woken := u.scopes[k].woken))
  {
    hide Run;
    steps, u := before, t;
    if u.scopes[k].cleaner == Parked {
      steps, u := TowardsSnoc(s, steps, u, WakeIdle(k), k);
    }
    if u.scopes[k].cleaner == Registered {
      steps, u := TowardsSnoc(s, steps, u, LoadPending(k), k);
    }
    assert t.scopes[k := u.scopes[k]] == u.scopes;
  }

  /** A cleanup that had to wait removes: from every reachable state whose cleanup of
      scope k waits for idle, detached or not, the steps of unfinished operations and
      of that cleanup alone can end with the directory removed. */
  lemma CleanupCompletes(total: nat, earlier: seq<Step>, k: nat) returns (steps: seq<Step>)
    requires total >= 1 && Run(Init(total), earlier).Some?
    requires var s := Run(Init(total), earlier).value; k < |s.scopes| && Waits(s.scopes[k])
    ensures AllTowards(steps, k)
    ensures var s := Run(Init(total), earlier).value;
      && Run(s, steps).Some? && k < |Run(s, steps).value.scopes|
      && var scope := Run(s, steps).value.scopes[k];
         scope.removed && !scope.present && scope.cleaner == Finished && scope.pending == 0
  {
    hide Inv, Next, ScopeMoves;
    var s := Run(Init(total), earlier).value;
    ReachableInv(total, earlier);
    RunKeepsTotal(Init(total), earlier);
    steps := OperationsComplete(s);
    var t := Run(s, steps).value;
    AllDone(t, k);
    steps, t := ReachesReady(s, steps, t, k);
    steps := RemovesNow(s, steps, t, k);
  }

  /** From an idle scope whose cleanup is ready, the removal runs to its end. */
  lemma RemovesNow(s: State, before: seq<Step>, t: State, k: nat) returns (steps: seq<Step>)
    requires Run(s, before) == Some(t) && AllTowards(before, k) && k < |t.scopes| && t.available >= 1
    requires t.scopes[k].cleaner == Ready && t.scopes[k].pending == 0
    ensures AllTowards(steps, k)
    ensures Run(s, steps).Some? && k < |Run(s, steps).value.scopes|
    ensures Run(s, steps).value.scopes[k] == Scope(0, Finished, t.scopes[k].woken, t.scopes[k].detached, false, true)
  {
    hide Run;
    var u;
    steps, u := TowardsSnoc(s, before, t, StartRemoval(k), k);
    var i := |t.ops|;
    var v;
    steps, v := RemovalSucceeds(s, steps, u, i, k);
  }

  /** The owner of a scope can always leave: from every reachable state in which it is
      still open, or closed with no cleanup in progress, an in-band or a detached
      cleanup, started then, can remove the directory whatever is still running. */
  lemma OwnerCanLeave(total: nat, earlier: seq<Step>, k: nat, detached: bool) returns (steps: seq<Step>)
    requires total >= 1 && Run(Init(total), earlier).Some?
    requires var s := Run(Init(total), earlier).value;
      k < |s.scopes| && (s.scopes[k].cleaner == Open || (s.scopes[k].cleaner == Closed && !s.scopes[k].detached))
    ensures forall step | step in steps ::
      TowardsRemoval(step, k) || step == CloseOwner(k) || step == StartCleanup(k, detached)
    ensures Run(Init(total), earlier + steps).Some? && k < |Run(Init(total), earlier + steps).value.scopes|
    ensures var scope := Run(Init(total), earlier + steps).value.scopes[k];
      scope.removed && !scope.present && scope.cleaner == Finished && scope.detached == detached
  {
    hide Run, Inv;
    var s := Run(Init(total), earlier).value;
    ReachableInv(total, earlier);
    OpenIsAttached(s, k);
    var first, t := LeavesOpen(total, earlier, s, k);
    var began: seq<Step>, u: State;
    began, u := ThenScope(Init(total), earlier + first, t, StartCleanup(k, detached), k);
    var rest := CleanupCompletes(total, began, k);
    RunJoins(Init(total), began, u, rest);
    steps := first + [StartCleanup(k, detached)] + rest;
    assert earlier + steps == began + rest;
    ReachableInv(total, began);
    RunKeepsDetached(u, rest, k);
  }

  lemma OpenIsAttached(s: State, k: nat)
    requires Inv(s) && k < |s.scopes|
    ensures s.scopes[k].cleaner == Open ==> !s.scopes[k].detached
  {
    assert Ordered(s.ops, k, s.scopes[k]);
  }

  lemma LeavesOpen(total: nat, earlier: seq<Step>, s: State, k: nat) returns (first: seq<Step>, t: State)
    requires Run(Init(total), earlier) == Some(s) && k < |s.scopes| && !s.scopes[k].detached
    requires s.scopes[k].cleaner == Open || s.scopes[k].cleaner == Closed
    ensures first == [] || first == [CloseOwner(k)]
    ensures Run(Init(total), earlier + first) == Some(t) && t == SetScope(s, k, s.scopes[k].(cleaner := Closed))
  {
    hide Run;
    if s.scopes[k].cleaner == Open {
      var began;
      began, t := ThenScope(Init(total), earlier, s, CloseOwner(k), k);
      first := [CloseOwner(k)];
    } else {
      first, t := [], s;
      assert earlier + [] == earlier;
      assert s.scopes[k := s.scopes[k].(cleaner := Closed)] == s.scopes;
    }
  }

  lemma {:induction false} RunJoins(s: State, before: seq<Step>, t: State, rest: seq<Step>)
    requires Run(s, before) == Some(t)
    ensures Run(s, before + rest) == Run(t, rest)
    decreases |rest|
  {
    if rest == [] {
      assert before + rest == before;
    } else {
      var init, last := rest[..|rest| - 1], rest[|rest| - 1];
      RunJoins(s, before, t, init);
      RunSnoc(s, before + init, last);
      RunSnoc(t, init, last);
      assert before + rest == before + init + [last] && rest == init + [last];
    }
  }

  lemma StepKeepsDetached(s: State, step: Step, k: nat)
    requires k < |s.scopes| && TowardsRemoval(step, k) && Next(s, step).Some?
    ensures k < |Next(s, step).value.scopes| && Next(s, step).value.scopes[k].detached == s.scopes[k].detached
  {
  }

  lemma {:induction false} RunKeepsDetached(s: State, steps: seq<Step>, k: nat)
    requires k < |s.scopes| && AllTowards(steps, k) && Run(s, steps).Some?
    ensures k < |Run(s, steps).value.scopes| && Run(s, steps).value.scopes[k].detached == s.scopes[k].detached
    decreases |steps|
  {
    hide Next, TowardsRemoval;
    if steps != [] {
      var earlier, last := steps[..|steps| - 1], steps[|steps| - 1];
      assert steps == earlier + [last];
      RunKeepsDetached(s, earlier, k);
      StepKeepsDetached(Run(s, earlier).value, last, k);
    }
  }

  // ----- what becomes of the directory and of cancelled waiters -----

  /** On every step the directory of scope k is there afterwards iff file work of that
      scope just touched it, or it was there and no removal of that scope just
      succeeded; and it counts as removed iff it did or such a removal succeeded. A
      new scope has no directory. */
  lemma DirectoryFollows(s: State, step: Step, k: nat)
    requires k < |s.scopes| && Next(s, step).Some?
    ensures var t := Next(s, step).value;
      var touched := step.Touch? && s.ops[step.i].scope == k && s.ops[step.i].kind == FileWork;
      var cleared := step.Finish? && step.ok && s.ops[step.i].scope == k && s.ops[step.i].kind == RemoveDir;
      && k < |t.scopes|
      && (t.scopes[k].present <==> touched || (s.scopes[k].present && !cleared))
      && (t.scopes[k].removed <==> s.scopes[k].removed || cleared)
      && (|t.scopes| > |s.scopes| ==> !t.scopes[|s.scopes|].present && !t.scopes[|s.scopes|].removed)
  {
  }

  /** A removal that succeeded has removed, and a cleanup that ended has seen one. */
  ghost predicate Fulfilled(s: State) {
    && (forall i | 0 <= i < |s.ops| && s.ops[i].kind == RemoveDir && s.ops[i].succeeded ::
         s.ops[i].scope < |s.scopes| && s.scopes[s.ops[i].scope].removed)
    && (forall k | 0 <= k < |s.scopes| && s.scopes[k].cleaner == Finished :: s.scopes[k].removed)
  }

  lemma StepKeepsFulfilled(s: State, step: Step)
    requires Inv(s) && Fulfilled(s) && Next(s, step).Some?
    ensures Fulfilled(Next(s, step).value)
  {
    hide Inv, Next;
    var t := Next(s, step).value;
    forall i | 0 <= i < |t.ops| && t.ops[i].kind == RemoveDir && t.ops[i].succeeded
      ensures t.ops[i].scope < |t.scopes| && t.scopes[t.ops[i].scope].removed
    {
      SucceededBefore(s, step, i);
      DirectoryFollows(s, step, t.ops[i].scope);
    }
    forall k | 0 <= k < |t.scopes| && t.scopes[k].cleaner == Finished ensures t.scopes[k].removed {
      FinishedBefore(s, step, k);
      DirectoryFollows(s, step, k);
    }
  }

  /** Who has succeeded did so before, or just now. */
  lemma SucceededBefore(s: State, step: Step, i: nat)
    requires Inv(s) && Next(s, step).Some? && i < |Next(s, step).value.ops|
    requires Next(s, step).value.ops[i].kind == RemoveDir && Next(s, step).value.ops[i].succeeded
    ensures var op := Next(s, step).value.ops[i];
      && i < |s.ops| && s.ops[i].kind == RemoveDir && s.ops[i].scope == op.scope < |s.scopes|
      && (s.ops[i].succeeded || step == Finish(i, true))
  {
    hide Tally, RemovalOrdered, IdleSafe, Ordered;
  }

  /** A cleanup that has ended did so before, or a removal of its scope succeeded. */
  lemma FinishedBefore(s: State, step: Step, k: nat)
    requires Inv(s) && Next(s, step).Some? && k < |Next(s, step).value.scopes|
    requires Next(s, step).value.scopes[k].cleaner == Finished
    ensures k < |s.scopes|
    ensures s.scopes[k].cleaner == Finished ||
      exists i :: 0 <= i < |s.ops| && s.ops[i].kind == RemoveDir && s.ops[i].succeeded && s.ops[i].scope == k
  {
    hide Tally, RemovalOrdered, IdleSafe, Counted;
    if step.RemovalReturns? && step.k == k {
      assert Ordered(s.ops, k, s.scopes[k]);
      assert s.ops[s.scopes[k].cleaner.op].succeeded;
    }
  }

  lemma {:induction false} RunKeepsFulfilled(s: State, steps: seq<Step>)
    requires Inv(s) && Fulfilled(s) && Run(s, steps).Some?
    ensures Fulfilled(Run(s, steps).value)
  {
    hide Inv, Next, Fulfilled;
    if steps != [] {
      RunKeepsInv(s, steps[..|steps| - 1]);
      RunKeepsFulfilled(s, steps[..|steps| - 1]);
      StepKeepsFulfilled(Run(s, steps[..|steps| - 1]).value, steps[|steps| - 1]);
    }
  }

  /** A cleanup ends only when the directory is removed: on every run, after a removal
      that failed the cleanup is closed again, and only a removal of its scope that
      succeeded ends it. */
  lemma OnlySuccessEnds(total: nat, steps: seq<Step>, k: nat)
    requires Run(Init(total), steps).Some? && k < |Run(Init(total), steps).value.scopes|
    ensures var s := Run(Init(total), steps).value;
      && (s.scopes[k].cleaner == Finished ==> s.scopes[k].removed && !s.scopes[k].present)
      && (Next(s, RemovalReturns(k)).Some? && !s.scopes[k].removed ==>
           Next(s, RemovalReturns(k)).value.scopes[k].cleaner == Closed)
  {
    var s := Run(Init(total), steps).value;
    RunKeepsInv(Init(total), steps);
    RunKeepsFulfilled(Init(total), steps);
    assert Ordered(s.ops, k, s.scopes[k]);
    if Next(s, RemovalReturns(k)).Some? {
      StepKeepsFulfilled(s, RemovalReturns(k));
    }
  }

  /** A waiting piece of file work with a free permit runs, touches and succeeds. */
  lemma WorkRuns(s: State, before: seq<Step>, t: State, i: nat, k: nat, bytes: nat) returns (steps: seq<Step>, u: State)
    requires Run(s, before) == Some(t) && t.available >= 1 && i < |t.ops| && k < |t.scopes|
    requires t.ops[i] == Op(k, FileWork, Waiting, bytes, false)
    ensures Run(s, steps) == Some(u)
    ensures u == Both(t, i, Op(k, FileWork, Unpermitted, bytes, true), k, t.scopes[k].(present := true))
                   .(used := t.used - bytes)
  {
    hide Run;
    steps, u := ThenOp(s, before, t, Acquire(i), i);
    assert u == SetOp(t, i, Op(k, FileWork, Running, bytes, false)).(available := t.available - 1);
    steps, u := ThenOp(s, steps, u, Touch(i), i);
    assert u == Both(t, i, Op(k, FileWork, Running, bytes, false), k, t.scopes[k].(present := true))
                  .(available := t.available - 1);
    steps, u := ThenOp(s, steps, u, Finish(i, true), i);
  }

  /** A guard goes, with a notification if it was the last of its scope. */
  lemma WorkLeaves(s: State, before: seq<Step>, t: State, i: nat, k: nat, bytes: nat)
    returns (steps: seq<Step>, u: State)
    requires Run(s, before) == Some(t) && i < |t.ops| && k < |t.scopes|
    requires t.ops[i] == Op(k, FileWork, Unpermitted, bytes, true)
    requires t.scopes[k].pending >= 1 && t.scopes[k].cleaner == Open
    ensures Run(s, steps) == Some(u)
    ensures u == Both(t, i, Op(k, FileWork, Done, bytes, true), k, t.scopes[k].(pending := t.scopes[k].pending - 1))
  {
    hide Run;
    steps, u := ThenOp(s, before, t, DropGuard(i), i);
    if t.scopes[k].pending == 1 {
      assert u == Both(t, i, Op(k, FileWork, Notifying, bytes, true), k, t.scopes[k].(pending := 0));
      steps, u := ThenOp(s, steps, u, NotifyIdle(i), i);
    }
  }

  /** File work of an open scope that nothing disturbs creates the directory and gives
      its permit, its bytes and its guard back. */
  lemma UndisturbedWork(s: State, k: nat, bytes: nat) returns (steps: seq<Step>)
    requires s.available >= 1 && k < |s.scopes| && s.scopes[k].cleaner == Open
    ensures Run(s, steps) == Some(s.(
      ops := s.ops + [Op(k, FileWork, Done, bytes, true)], scopes := s.scopes[k := s.scopes[k].(present := true)]))
  {
    hide Run, OpMoves;
    RunNothing(s);
    var i, t := |s.ops|, s;
    steps, t := ThenScope(s, [], s, StartFileWork(k, bytes), k);
    steps, t := WorkRuns(s, steps, t, i, k, bytes);
    steps, t := WorkLeaves(s, steps, t, i, k, bytes);
    assert t.ops == s.ops + [Op(k, FileWork, Done, bytes, true)];
    assert t.scopes == s.scopes[k := s.scopes[k].(present := true)];
  }

  lemma RunNothing(s: State)
    ensures Run(s, []) == Some(s)
  {
  }


  /** The operation was given up before it ran, or has ended. */
  ghost predicate Over(s: State, i: nat) {
    i < |s.ops| && s.ops[i].phase != Waiting && s.ops[i].phase != Running
  }

  lemma StepKeepsOver(s: State, step: Step, i: nat)
    requires Over(s, i) && Next(s, step).Some?
    ensures Over(Next(s, step).value, i) && step != Touch(i) && !(step.Finish? && step.i == i)
  {
  }

  lemma {:induction false} RunKeepsOver(s: State, steps: seq<Step>, i: nat)
    requires Over(s, i) && Run(s, steps).Some?
    ensures Over(Run(s, steps).value, i)
    ensures forall step | step in steps :: step != Touch(i) && !(step.Finish? && step.i == i)
    decreases |steps|
  {
    hide Next;
    if steps != [] {
      var earlier, last := steps[..|steps| - 1], steps[|steps| - 1];
      assert steps == earlier + [last];
      RunKeepsOver(s, earlier, i);
      StepKeepsOver(Run(s, earlier).value, last, i);
    }
  }

  /** An operation whose caller is cancelled while it waits for its permit, a removal
      with its cleanup or file work, never runs: over every continuation it touches
      nothing and removes nothing, and only its guard is left to go. The cleanup
      itself can be started anew. */
  lemma CancelledWaiterNeverRuns(total: nat, earlier: seq<Step>, cancel: Step, i: nat, more: seq<Step>)
    requires Run(Init(total), earlier).Some?
    requires var s := Run(Init(total), earlier).value;
      && i < |s.ops| && s.ops[i].phase == Waiting && Next(s, cancel).Some?
      && (cancel == CancelWaiting(i) ||
          (cancel.CancelCleanup? && Target(cancel) < |s.scopes| && s.scopes[Target(cancel)].cleaner == Awaiting(i)))
    requires Run(Next(Run(Init(total), earlier).value, cancel).value, more).Some?
    ensures var s := Run(Init(total), earlier).value; var t := Next(s, cancel).value;
      && i < |t.ops| && t.ops[i].phase == Unpermitted && t.used + s.ops[i].charge == s.used
      && (cancel.CancelCleanup? ==> t.scopes[Target(cancel)].cleaner == Closed)
      && forall step | step in more :: step != Touch(i) && !(step.Finish? && step.i == i)
  {
    hide Run;
    RunKeepsOver(Next(Run(Init(total), earlier).value, cancel).value, more, i);
  }

  /** Once the owner is finished and nothing is pending, a cleanup that nothing
      disturbs removes the directory and gives its permit and guard back. */
  lemma UndisturbedCleanup(s: State, k: nat) returns (steps: seq<Step>)
    requires s.available >= 1 && k < |s.scopes|
    requires s.scopes[k].cleaner == Closed && !s.scopes[k].detached && s.scopes[k].pending == 0
    ensures Run(s, steps) == Some(s.(
      ops := s.ops + [Op(k, RemoveDir, Done, 0, true)],
      scopes := s.scopes[k := Scope(0, Finished, false, false, false, true)]))
  {
    var i, t := |s.ops|, s;
    steps, t := CleanupStarts(s, k);
    steps, t := RemovalSucceeds(s, steps, t, i, k);
    assert t.ops == s.ops + [Op(k, RemoveDir, Done, 0, true)];
    assert t.scopes == s.scopes[k := Scope(0, Finished, false, false, false, true)];
  }

  lemma RemovalSucceeds(s: State, before: seq<Step>, started: State, i: nat, k: nat)
    returns (steps: seq<Step>, t: State)
    requires Run(s, before) == Some(started) && started.available >= 1 && i < |started.ops| && k < |started.scopes|
    requires started.ops[i] == Op(k, RemoveDir, Waiting, 0, false)
    requires started.scopes[k].cleaner == Awaiting(i) && started.scopes[k].pending == 1
    ensures Run(s, steps) == Some(t)
    ensures steps == before + [Acquire(i), Finish(i, true), DropGuard(i), NotifyIdle(i), RemovalReturns(k)]
    ensures t == Both(started, i, Op(k, RemoveDir, Done, 0, true),
                      k, Scope(0, Finished, started.scopes[k].woken, started.scopes[k].detached, false, true))
  {
    hide Run, Next, OpMoves;
    steps, t := JobRuns(s, before, started, i, k);
    steps, t := GuardGoes(s, steps, t, i, k);
    assert t == Both(started, i, Op(k, RemoveDir, Done, 0, true),
                     k, started.scopes[k].(pending := 0, present := false, removed := true));
    steps, t := ThenScope(s, steps, t, RemovalReturns(k), k);
  }
}
