/** The shared byte budget: a compare-and-swap loop over one counter whose live
    limit changes between iterations, and release on drop. */
module SharedBudget {
  import opened Rows

  /** A thread inside `reserve`: it loaded `previous`; it also read a live limit;
      it swapped and must still raise the peak. */
  datatype Thread =
    | Outside
    | Loaded(bytes: nat, previous: nat)
    | Checked(bytes: nat, previous: nat, reading: nat)
    | Swapped(bytes: nat, next: nat)

  /** `charges`: bytes of every charge, 0 once dropped; `high`: the greatest
      value `used` ever had, as history. */
  datatype State = State(limit: nat, used: nat, peak: nat, threads: seq<Thread>, charges: seq<nat>, high: nat)

  /** Each step is one atomic access or one reading of the pressure source. */
  datatype Step =
    | Spawn
    | Reserve(t: nat, bytes: nat)
    | ReadLimit(t: nat, reading: nat)
    | Swap(t: nat, spurious: bool)
    | RaisePeak(t: nat)
    | DropCharge(c: nat)

  function Init(limit: nat): State {
    State(limit, 0, 0, [], [], 0)
  }

  function Sum(charges: seq<nat>): nat {
    if charges == [] then 0 else charges[0] + Sum(charges[1..])
  }

  /** Bytes of a charge that exists in the counter but not yet as a value. */
  function Swapping(threads: seq<Thread>): nat {
    if threads == [] then 0
    else (if threads[0].Swapped? then threads[0].bytes else 0) + Swapping(threads[1..])
  }

  function SetThread(s: State, t: nat, thread: Thread): State
    requires t < |s.threads|
  {
    s.(threads := s.threads[t := thread])
  }

  function Next(s: State, step: Step): Option<State> {
    match step
    case Spawn => Some(s.(threads := s.threads + [Outside]))
    case Reserve(t, bytes) =>
      if t < |s.threads| && s.threads[t] == Outside then Some(SetThread(s, t, Loaded(bytes, s.used))) else None
    case ReadLimit(t, reading) =>
      if t < |s.threads| && s.threads[t].Loaded? && reading <= s.limit then
        var th := s.threads[t];
        if th.previous + th.bytes <= reading then Some(SetThread(s, t, Checked(th.bytes, th.previous, reading)))
        else Some(SetThread(s, t, Outside))
      else None
    case Swap(t, spurious) =>
      if t < |s.threads| && s.threads[t].Checked? then
        var th := s.threads[t];
        if s.used == th.previous && !spurious
        then
          var used := th.previous + th.bytes;
          Some(SetThread(s, t, Swapped(th.bytes, used)).(used := used, high := Max(s.high, used)))
        else Some(SetThread(s, t, Loaded(th.bytes, s.used)))
      else None
    case RaisePeak(t) =>
      if t < |s.threads| && s.threads[t].Swapped? then
        var th := s.threads[t];
        Some(SetThread(s, t, Outside).(peak := Max(s.peak, th.next), charges := s.charges + [th.bytes]))
      else None
    case DropCharge(c) =>
      if c < |s.charges| && s.charges[c] > 0
      then
        Some(s.(used := (s.used + U64_LIMIT - s.charges[c] % U64_LIMIT) % U64_LIMIT, charges := s.charges[c := 0]))
      else None
  }

  /** Some reserver has swapped and has yet to raise the peak to `value`. */
  ghost predicate PeakPending(threads: seq<Thread>, value: nat) {
    exists t :: 0 <= t < |threads| && threads[t].Swapped? && value <= threads[t].next
  }

  /** `used` is the sum of outstanding charges, within the fixed limit; every
      thread about to swap stays within the limit it read last; `peak` is the
      greatest value of `used`, up to the reservers still to raise it. */
  ghost predicate Inv(s: State) {
    && s.used == Sum(s.charges) + Swapping(s.threads)
    && s.used <= s.high && s.peak <= s.high <= s.limit < U64_LIMIT
    && ThreadsSafe(s) && (s.high <= s.peak || PeakPending(s.threads, s.high))
  }

  lemma {:induction false} SumUpdate(charges: seq<nat>, i: nat, bytes: nat)
    requires i < |charges|
    ensures Sum(charges[i := bytes]) + charges[i] == Sum(charges) + bytes
  {
    if i == 0 {
      assert charges[i := bytes][1..] == charges[1..];
    } else {
      assert charges[i := bytes][1..] == charges[1..][i - 1 := bytes];
      SumUpdate(charges[1..], i - 1, bytes);
    }
  }

  lemma {:induction false} SumSnoc(charges: seq<nat>, bytes: nat)
    ensures Sum(charges + [bytes]) == Sum(charges) + bytes
  {
    if charges == [] {
      assert charges + [bytes] == [bytes];
    } else {
      assert (charges + [bytes])[1..] == charges[1..] + [bytes];
      SumSnoc(charges[1..], bytes);
    }
  }

  function InFlight(thread: Thread): nat {
    if thread.Swapped? then thread.bytes else 0
  }

  lemma {:induction false} SwappingUpdate(threads: seq<Thread>, i: nat, thread: Thread)
    requires i < |threads|
    ensures Swapping(threads[i := thread]) + InFlight(threads[i]) == Swapping(threads) + InFlight(thread)
  {
    if i == 0 {
      assert threads[i := thread][1..] == threads[1..];
    } else {
      assert threads[i := thread][1..] == threads[1..][i - 1 := thread];
      SwappingUpdate(threads[1..], i - 1, thread);
    }
  }

  lemma {:induction false} SwappingSnoc(threads: seq<Thread>, thread: Thread)
    ensures Swapping(threads + [thread]) == Swapping(threads) + InFlight(thread)
  {
    if threads == [] {
      assert threads + [thread] == [thread];
    } else {
      assert (threads + [thread])[1..] == threads[1..] + [thread];
      SwappingSnoc(threads[1..], thread);
    }
  }

  lemma {:induction false} ChargeWithinSum(charges: seq<nat>, i: nat)
    requires i < |charges|
    ensures charges[i] <= Sum(charges)
  {
    if i > 0 {
      ChargeWithinSum(charges[1..], i - 1);
    }
  }

  /** Dropping a charge never underflows the counter. */
  lemma DropSubtracts(s: State, c: nat)
    requires Inv(s) && Next(s, DropCharge(c)).Some?
    ensures s.charges[c] <= s.used && Next(s, DropCharge(c)).value.used == s.used - s.charges[c]
  {
    ChargeWithinSum(s.charges, c);
    Wraps(s.used, s.charges[c]);
  }

  lemma Wraps(used: nat, bytes: nat)
    requires bytes <= used < U64_LIMIT
    ensures (used + U64_LIMIT - bytes % U64_LIMIT) % U64_LIMIT == used - bytes
  {
    assert bytes % U64_LIMIT == bytes;
    assert used + U64_LIMIT - bytes == (used - bytes) + U64_LIMIT;
  }

  lemma PeakPendingUpdate(threads: seq<Thread>, i: nat, thread: Thread, value: nat)
    requires i < |threads| && (PeakPending(threads, value) || (thread.Swapped? && value <= thread.next))
    requires threads[i].Swapped? ==> threads[i].next < value
    ensures PeakPending(threads[i := thread], value)
  {
    if thread.Swapped? && value <= thread.next {
      assert threads[i := thread][i] == thread;
    } else {
      var t :| 0 <= t < |threads| && threads[t].Swapped? && value <= threads[t].next;
      assert threads[i := thread][t] == threads[t];
    }
  }

  lemma StepKeepsPeak(s: State, step: Step)
    requires Inv(s) && Next(s, step).Some?
    ensures var n := Next(s, step).value; n.high <= n.peak || PeakPending(n.threads, n.high)
  {
    var n := Next(s, step).value;
    match step
    case Spawn =>
      if PeakPending(s.threads, s.high) {
        var t :| 0 <= t < |s.threads| && s.threads[t].Swapped? && s.high <= s.threads[t].next;
        assert n.threads[t] == s.threads[t];
      }
    case DropCharge(_) =>
    case RaisePeak(t) =>
      if n.high > n.peak {
        PeakPendingUpdate(s.threads, t, Outside, s.high);
      }
    case Swap(t, _) =>
      if n.high > n.peak {
        if n.high == s.high {
          PeakPendingUpdate(s.threads, t, n.threads[t], n.high);
        } else {
          assert n.threads[t].Swapped? && n.high <= n.threads[t].next;
        }
      }
    case Reserve(t, _) => if n.high > n.peak { PeakPendingUpdate(s.threads, t, n.threads[t], n.high); }
    case ReadLimit(t, _) => if n.high > n.peak { PeakPendingUpdate(s.threads, t, n.threads[t], n.high); }
  }

  lemma StepKeepsSum(s: State, step: Step)
    requires Inv(s) && Next(s, step).Some?
    ensures var n := Next(s, step).value; n.used == Sum(n.charges) + Swapping(n.threads)
  {
    var n := Next(s, step).value;
    match step
    case Spawn => SwappingSnoc(s.threads, Outside);
    case Reserve(t, _) => SwappingUpdate(s.threads, t, n.threads[t]);
    case ReadLimit(t, _) => SwappingUpdate(s.threads, t, n.threads[t]);
    case Swap(t, _) => SwappingUpdate(s.threads, t, n.threads[t]);
    case RaisePeak(t) =>
      SwappingUpdate(s.threads, t, Outside);
      SumSnoc(s.charges, s.threads[t].bytes);
    case DropCharge(c) =>
      SumUpdate(s.charges, c, 0);
      DropSubtracts(s, c);
  }

  /** Every thread about to swap stays within the limit it read, and every
      thread that swapped within the greatest value so far. */
  ghost predicate ThreadsSafe(s: State) {
    && (forall t | 0 <= t < |s.threads| && s.threads[t].Checked? ::
         s.threads[t].previous + s.threads[t].bytes <= s.threads[t].reading <= s.limit)
    && (forall t | 0 <= t < |s.threads| && s.threads[t].Swapped? :: s.threads[t].next <= s.high)
  }

  lemma StepKeepsThreads(s: State, step: Step)
    requires ThreadsSafe(s) && Next(s, step).Some?
    ensures ThreadsSafe(Next(s, step).value)
  {
  }

  lemma StepKeepsInv(s: State, step: Step)
    requires Inv(s) && Next(s, step).Some?
    ensures Inv(Next(s, step).value)
  {
    StepKeepsSum(s, step);
    StepKeepsPeak(s, step);
    StepKeepsThreads(s, step);
    if step.DropCharge? {
      DropSubtracts(s, step.c);
    }
  }

  // ----- every run -----

  function Run(s: State, steps: seq<Step>): Option<State> {
    if steps == [] then Some(s)
    else
      var earlier := Run(s, steps[..|steps| - 1]);
      if earlier.None? then None else Next(earlier.value, steps[|steps| - 1])
  }

  lemma {:induction false} RunKeepsInv(s: State, steps: seq<Step>)
    requires Inv(s) && Run(s, steps).Some?
    ensures Inv(Run(s, steps).value) && Run(s, steps).value.limit == s.limit
  {
    if steps != [] {
      RunKeepsInv(s, steps[..|steps| - 1]);
      StepKeepsInv(Run(s, steps[..|steps| - 1]).value, steps[|steps| - 1]);
    }
  }

  /** Conservation under every interleaving: `used` is exactly the outstanding
      bytes and never passes the fixed limit; a swap that succeeds stays within
      the limit its thread read last, and a drop never underflows; once no
      reserver is mid-way, `peak` is exactly the greatest value `used` had. */
  lemma BudgetConserved(limit: nat, steps: seq<Step>, next: Step)
    requires limit < U64_LIMIT && Run(Init(limit), steps).Some?
    requires Next(Run(Init(limit), steps).value, next).Some?
    ensures var s := Run(Init(limit), steps).value; var n := Next(s, next).value;
      && s.used == Sum(s.charges) + Swapping(s.threads) && s.used <= limit && s.peak <= limit
      && ((forall t | 0 <= t < |s.threads| :: !s.threads[t].Swapped?) ==>
           s.used == Sum(s.charges) && s.peak == s.high)
      && (next.Swap? && n.threads[next.t].Swapped? ==>
           n.used == s.used + s.threads[next.t].bytes && n.used <= s.threads[next.t].reading)
      && (next.DropCharge? ==> n.used + s.charges[next.c] == s.used)
  {
    RunKeepsInv(Init(limit), steps);
    var s := Run(Init(limit), steps).value;
    if forall t | 0 <= t < |s.threads| :: !s.threads[t].Swapped? {
      NothingSwapping(s.threads);
    }
    if next.DropCharge? {
      DropSubtracts(s, next.c);
    }
  }

  // ----- the peak -----

  lemma {:induction false} PeakGrows(s: State, steps: seq<Step>)
    requires Run(s, steps).Some?
    ensures Run(s, steps).value.peak >= s.peak
  {
    if steps != [] {
      PeakGrows(s, steps[..|steps| - 1]);
    }
  }

  /** A thread that swapped stays where it is until it raises the peak. */
  lemma {:induction false} SwappedStays(s: State, steps: seq<Step>, t: nat)
    requires t < |s.threads| && s.threads[t].Swapped? && Run(s, steps).Some? && RaisePeak(t) !in steps
    ensures t < |Run(s, steps).value.threads| && Run(s, steps).value.threads[t] == s.threads[t]
  {
    if steps != [] {
      SwappedStays(s, steps[..|steps| - 1], t);
    }
  }

  /** The peak bounds every `used` whose own update is complete, whatever other
      reservers are mid-way: once the thread whose swap set `used` has raised the
      peak, `peak` is never below that value again. */
  lemma PeakBoundsUsed(s: State, t: nat, between: seq<Step>, after: seq<Step>)
    requires Next(s, Swap(t, false)).Some? && Next(s, Swap(t, false)).value.threads[t].Swapped?
    requires Run(Next(s, Swap(t, false)).value, between).Some? && RaisePeak(t) !in between
    requires var u := Run(Next(s, Swap(t, false)).value, between).value;
      Next(u, RaisePeak(t)).Some? && Run(Next(u, RaisePeak(t)).value, after).Some?
    ensures var swapped := Next(s, Swap(t, false)).value;
      var u := Run(swapped, between).value;
      Run(Next(u, RaisePeak(t)).value, after).value.peak >= swapped.used
  {
    var swapped := Next(s, Swap(t, false)).value;
    SwappedStays(swapped, between, t);
    PeakGrows(Next(Run(swapped, between).value, RaisePeak(t)).value, after);
  }

  lemma RunSnoc(s: State, steps: seq<Step>, step: Step)
    requires Run(s, steps).Some?
    ensures Run(s, steps + [step]) == Next(Run(s, steps).value, step)
  {
    assert (steps + [step])[..|steps|] == steps;
  }

  /** A reservation that nothing disturbs is granted iff it fits the limit read:
      then `used` grows by exactly its bytes and its charge exists, and otherwise
      nothing changes. */
  lemma UndisturbedReserve(s: State, t: nat, bytes: nat, reading: nat) returns (steps: seq<Step>)
    requires t < |s.threads| && s.threads[t] == Outside && reading <= s.limit
    ensures Run(s, steps).Some?
    ensures Run(s, steps).value ==
      if s.used + bytes <= reading
      then
        s.(used := s.used + bytes, charges := s.charges + [bytes],
           high := Max(s.high, s.used + bytes), peak := Max(s.peak, s.used + bytes))
      else s
  {
    var loaded := SetThread(s, t, Loaded(bytes, s.used));
    RunSnoc(s, [], Reserve(t, bytes));
    RunSnoc(s, [] + [Reserve(t, bytes)], ReadLimit(t, reading));
    steps := [] + [Reserve(t, bytes)] + [ReadLimit(t, reading)];
    if s.used + bytes <= reading {
      RunSnoc(s, steps, Swap(t, false));
      RunSnoc(s, steps + [Swap(t, false)], RaisePeak(t));
      steps := steps + [Swap(t, false)] + [RaisePeak(t)];
    }
    assert s.threads[t := Outside] == s.threads;
  }

  // ----- how a reservation goes on -----

  /** Bytes that a thread inside `reserve` asks for. */
  function Asked(thread: Thread): nat {
    if thread.Outside? then 0 else thread.bytes
  }

  /** The value of the counter that a thread goes by. */
  function HeldValue(thread: Thread): nat {
    match thread
    case Loaded(_, previous) => previous
    case Checked(_, previous, _) => previous
    case _ => 0
  }

  /** The value that a thread was told by its last load or lost swap is one that
      the counter had at that moment, the thread being in the same reservation. */
  ghost predicate LoadedAt(s: State, t: nat, thread: Thread) {
    t < |s.threads| && s.threads[t] == Loaded(Asked(thread), s.used) && HeldValue(thread) == s.used
  }

  lemma StepKeepsLoad(s: State, step: Step, t: nat)
    requires t < |s.threads| && Next(s, step).Some?
    ensures var n := Next(s, step).value;
      && t < |n.threads|
      && (n.threads[t].Loaded? || n.threads[t].Checked? ==>
           LoadedAt(n, t, n.threads[t]) ||
           ((s.threads[t].Loaded? || s.threads[t].Checked?) &&
            s.threads[t].bytes == n.threads[t].bytes && s.threads[t].previous == n.threads[t].previous))
  {
  }

  lemma {:induction false} LoadedBefore(limit: nat, steps: seq<Step>, t: nat) returns (k: nat)
    requires Run(Init(limit), steps).Some? && t < |Run(Init(limit), steps).value.threads|
    requires var thread := Run(Init(limit), steps).value.threads[t]; thread.Loaded? || thread.Checked?
    ensures k <= |steps| && Run(Init(limit), steps[..k]).Some?
    ensures LoadedAt(Run(Init(limit), steps[..k]).value, t, Run(Init(limit), steps).value.threads[t])
    decreases |steps|
  {
    assert steps != [];
    var last := |steps| - 1;
    var s, n := Run(Init(limit), steps[..last]).value, Run(Init(limit), steps).value;
    if LoadedAt(n, t, n.threads[t]) {
      k := |steps|;
      assert steps[..k] == steps;
    } else {
      ThreadsOnlyGrow(s, steps[last]);
      StepKeepsLoad(s, steps[last], t);
      k := LoadedBefore(limit, steps[..last], t);
      assert steps[..last][..k] == steps[..k];
    }
  }

  /** Only a new thread can be new, and it is outside. */
  lemma ThreadsOnlyGrow(s: State, step: Step)
    requires Next(s, step).Some?
    ensures var n := Next(s, step).value;
      |n.threads| == |s.threads| || (|n.threads| == |s.threads| + 1 && n.threads[|s.threads|] == Outside)
  {
  }

  /** How a reservation can end, on every run: a thread inside `reserve` stays
      there, asking for the same bytes, until it ends with a new charge of exactly
      these bytes, or is refused because it read a limit below a value that the
      counter had, while it was in this reservation, plus its bytes. No lost or
      spurious swap refuses it. A charge is changed by nothing but its own drop. */
  lemma ReservationEnds(limit: nat, steps: seq<Step>, next: Step, t: nat) returns (k: nat)
    requires Run(Init(limit), steps).Some? && Next(Run(Init(limit), steps).value, next).Some?
    requires t < |Run(Init(limit), steps).value.threads|
    ensures var s := Run(Init(limit), steps).value; var n := Next(s, next).value;
      && t < |n.threads|
      && (!s.threads[t].Outside? && !n.threads[t].Outside? ==> Asked(n.threads[t]) == Asked(s.threads[t]))
      && (!s.threads[t].Outside? && n.threads[t].Outside? ==>
           || n.charges == s.charges + [Asked(s.threads[t])]
           || (next.ReadLimit? && n == SetThread(s, t, Outside) && k <= |steps| && Run(Init(limit), steps[..k]).Some?
               && var earlier := Run(Init(limit), steps[..k]).value;
                  && t < |earlier.threads| && earlier.threads[t] == Loaded(Asked(s.threads[t]), earlier.used)
                  && next.reading < earlier.used + Asked(s.threads[t])))
      && |n.charges| >= |s.charges|
      && forall c | 0 <= c < |s.charges| :: n.charges[c] == if next == DropCharge(c) then 0 else s.charges[c]
  {
    var s := Run(Init(limit), steps).value;
    var n := Next(s, next).value;
    ThreadsOnlyGrow(s, next);
    ChargesStay(s, next);
    k := 0;
    if s.threads[t].Loaded? && n.threads[t].Outside? {
      k := LoadedBefore(limit, steps, t);
    }
  }

  lemma ChargesStay(s: State, step: Step)
    requires Next(s, step).Some?
    ensures var n := Next(s, step).value;
      && |n.charges| >= |s.charges|
      && forall c | 0 <= c < |s.charges| :: n.charges[c] == if step == DropCharge(c) then 0 else s.charges[c]
  {
  }

  /** What a granted reservation leaves. */
  function Granted(s: State, t: nat, bytes: nat): State
    requires t < |s.threads|
  {
    SetThread(s, t, Outside).(used := s.used + bytes, charges := s.charges + [bytes],
                              high := Max(s.high, s.used + bytes), peak := Max(s.peak, s.used + bytes))
  }

  lemma SetTwice(s: State, t: nat, first: Thread, second: Thread)
    requires t < |s.threads|
    ensures SetThread(SetThread(s, t, first), t, second) == SetThread(s, t, second)
  {
    assert s.threads[t := first][t := second] == s.threads[t := second];
  }

  /** The steps of one reservation, without spurious failures. */
  predicate OfThread(step: Step, t: nat, reading: nat) {
    step == ReadLimit(t, reading) || step == Swap(t, false) || step == RaisePeak(t)
  }

  ghost predicate Alone(steps: seq<Step>, t: nat, reading: nat) {
    forall step | step in steps :: OfThread(step, t, reading)
  }

  /** Extend a run from `s` that reached `now` by one step of thread `t`. */
  lemma Then(s: State, before: seq<Step>, now: State, step: Step, t: nat, reading: nat)
    returns (steps: seq<Step>, u: State)
    requires Run(s, before) == Some(now) && Alone(before, t, reading) && OfThread(step, t, reading)
    requires Next(now, step).Some?
    ensures Run(s, steps) == Some(u) && Alone(steps, t, reading) && Some(u) == Next(now, step)
  {
    RunSnoc(s, before, step);
    steps, u := before + [step], Next(now, step).value;
  }

  /** A swap that finds the counter as loaded is a grant. */
  lemma SwapGrants(s: State, before: seq<Step>, now: State, t: nat, reading: nat) returns (steps: seq<Step>)
    requires Run(s, before) == Some(now) && Alone(before, t, reading) && t < |now.threads|
    requires now.threads[t].Checked? && now.threads[t].previous == now.used
    ensures Run(s, steps) == Some(Granted(now, t, now.threads[t].bytes)) && Alone(steps, t, reading)
  {
    hide Run;
    var bytes := now.threads[t].bytes;
    var u;
    steps, u := Then(s, before, now, Swap(t, false), t, reading);
    SetTwice(now, t, Swapped(bytes, now.used + bytes), Outside);
    steps, u := Then(s, steps, u, RaisePeak(t), t, reading);
  }

  /** A thread that has just loaded the counter, for the first time or after a
      swap that it lost, is granted iff its bytes fit the limit it reads. */
  lemma LoadGrants(s: State, before: seq<Step>, now: State, t: nat, reading: nat) returns (steps: seq<Step>)
    requires Run(s, before) == Some(now) && Alone(before, t, reading) && t < |now.threads| && reading <= now.limit
    requires now.threads[t].Loaded? && now.threads[t].previous == now.used
    ensures Alone(steps, t, reading)
    ensures var bytes := now.threads[t].bytes;
      Run(s, steps) == Some(if now.used + bytes <= reading then Granted(now, t, bytes) else SetThread(now, t, Outside))
  {
    hide Run;
    var bytes := now.threads[t].bytes;
    var u;
    steps, u := Then(s, before, now, ReadLimit(t, reading), t, reading);
    if now.used + bytes <= reading {
      SetTwice(now, t, Checked(bytes, now.used, reading), Outside);
      steps := SwapGrants(s, steps, u, t, reading);
    }
  }

  /** A swap that finds another value loses and goes on with that value. */
  lemma LostSwap(s: State, before: seq<Step>, now: State, t: nat, reading: nat) returns (steps: seq<Step>)
    requires Run(s, before) == Some(now) && Alone(before, t, reading) && t < |now.threads| && reading <= now.limit
    requires now.threads[t].Checked? && now.threads[t].previous != now.used
    ensures Alone(steps, t, reading)
    ensures var bytes := now.threads[t].bytes;
      Run(s, steps) == Some(if now.used + bytes <= reading then Granted(now, t, bytes) else SetThread(now, t, Outside))
  {
    hide Run;
    var bytes := now.threads[t].bytes;
    var u;
    steps, u := Then(s, before, now, Swap(t, false), t, reading);
    SetTwice(now, t, Loaded(bytes, now.used), Outside);
    steps := LoadGrants(s, steps, u, t, reading);
  }

  /** What the rest of a reservation comes to if nobody else moves and the limit
      reads `reading`: a value it holds that is stale costs it one more round, or
      refuses it if that value leaves no room. */
  predicate Fits(used: nat, thread: Thread, reading: nat) {
    match thread
    case Outside => false
    case Loaded(bytes, previous) => previous + bytes <= reading && used + bytes <= reading
    case Checked(bytes, previous, _) => previous == used || used + bytes <= reading
    case Swapped(_, _) => true
  }

  lemma RunNothing(s: State)
    ensures Run(s, []) == Some(s)
  {
  }

  lemma PeakRises(s: State, t: nat, reading: nat) returns (steps: seq<Step>)
    requires t < |s.threads| && s.threads[t].Swapped?
    ensures Alone(steps, t, reading)
    ensures Run(s, steps) ==
      Some(SetThread(s, t, Outside).(
             charges := s.charges + [s.threads[t].bytes], peak := Max(s.peak, s.threads[t].next)))
  {
    var u;
    steps, u := Then(s, [], s, RaisePeak(t), t, reading);
  }

  /** A value that is out of date is found out by the swap, if it leaves room. */
  lemma StaleLoad(s: State, t: nat, reading: nat) returns (steps: seq<Step>)
    requires reading <= s.limit && t < |s.threads| && s.threads[t].Loaded? && s.threads[t].previous != s.used
    ensures Alone(steps, t, reading)
    ensures var thread := s.threads[t];
      Run(s, steps) ==
        Some(if Fits(s.used, thread, reading) then Granted(s, t, thread.bytes) else SetThread(s, t, Outside))
  {
    hide Granted;
    RunNothing(s);
    var bytes, previous := s.threads[t].bytes, s.threads[t].previous;
    var u;
    steps, u := Then(s, [], s, ReadLimit(t, reading), t, reading);
    if previous + bytes <= reading {
      GrantedAnew(s, t, Checked(bytes, previous, reading), bytes);
      steps := LostSwap(s, steps, u, t, reading);
    }
  }

  lemma GrantedAnew(s: State, t: nat, thread: Thread, bytes: nat)
    requires t < |s.threads|
    ensures Granted(SetThread(s, t, thread), t, bytes) == Granted(s, t, bytes)
    ensures SetThread(SetThread(s, t, thread), t, Outside) == SetThread(s, t, Outside)
  {
    SetTwice(s, t, thread, Outside);
  }

  /** From every state with a thread inside a reservation, however often it lost,
      its undisturbed continuation ends the reservation: it is granted, for exactly
      its bytes, iff they fit, and otherwise nothing has changed. */
  lemma ReservationContinues(s: State, t: nat, reading: nat) returns (steps: seq<Step>)
    requires reading <= s.limit && t < |s.threads| && !s.threads[t].Outside?
    ensures Alone(steps, t, reading)
    ensures var thread := s.threads[t];
      Run(s, steps) == Some(
        if thread.Swapped? then
          SetThread(s, t, Outside).(charges := s.charges + [thread.bytes], peak := Max(s.peak, thread.next))
        else if Fits(s.used, thread, reading) then Granted(s, t, thread.bytes)
        else SetThread(s, t, Outside))
  {
    hide Run, Granted, SetThread;
    RunNothing(s);
    var u: State;
    match s.threads[t]
    case Swapped(_, _) => steps := PeakRises(s, t, reading);
    case Checked(_, previous, _) =>
      if previous == s.used {
        steps := SwapGrants(s, [], s, t, reading);
      } else {
        steps := LostSwap(s, [], s, t, reading);
      }
    case Loaded(bytes, previous) =>
      if previous == s.used {
        steps := LoadGrants(s, [], s, t, reading);
      } else {
        steps := StaleLoad(s, t, reading);
      }
  }

  lemma {:induction false} NothingSwapping(threads: seq<Thread>)
    requires forall t | 0 <= t < |threads| :: !threads[t].Swapped?
    ensures Swapping(threads) == 0
  {
    if threads != [] {
      NothingSwapping(threads[1..]);
    }
  }
}
