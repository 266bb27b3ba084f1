/** The asynchronous pool validator of the parser: a mutex-protected height, a one-slot
    channel and a persisted cursor shared by the sync loop and one worker
    (parser/dex/dex.go, lines 379-490).

    The threads are a state machine.  A step is what one thread does between two points
    where others may run: one critical section, one channel operation or one database
    call.  A database call may fail without effect, and the process may die at any point,
    which keeps the database and loses everything else. */
module Validation {

  const TWO_64: nat := 0x1_0000_0000_0000_0000

  /** A configured interval boundary. */
  predicate IsValidationHeight(interval: nat, height: nat) {
    interval != 0 && height != 0 && height % interval == 0
  }

  /** uint64 addition. */
  function Add64(a: nat, b: nat): nat {
    (a + b) % TWO_64
  }

  /** The sync loop.  `more` says that the trigger of the same height still follows. */
  datatype Main =
    | Idle
    | Signal(h: nat, more: bool)
    | Lock(h: nat, more: bool)
    | Send(h: nat, more: bool)
    | ReadCursor(h: nat)
    | WriteCursor(h: nat)

  datatype Worker =
    | NotStarted
    | Blocked
    | TakePending
    | LoadCursor(upTo: nat)
    | Validate(upTo: nat, h: nat)
    | Advance(upTo: nat, h: nat)
    | Recheck

  /** History: the height the cursor was last set to by the sync loop, the heights that passed
      validation, the highest height put into the mailbox since the process started, and
      whether the worker failed at something since it last took that height out; then the
      synced height when the process started, whether the sync loop began a run at it, and
      whether it failed at a read or write of the cursor since. */
  datatype Past = Past(origin: nat, passed: set<nat>, highest: nat, failed: bool, started: nat, begun: bool,
                       mainFailed: bool)

  datatype State = State(
    interval: nat,
    synced: nat, cursor: nat,
    pending: nat, token: bool, senders: nat, main: Main, worker: Worker, past: Past)

  function Max(a: nat, b: nat): nat { if a > b then a else b }

  ghost predicate Init(s: State) {
    && 0 < s.interval < TWO_64 && s.synced < TWO_64 && s.cursor == 0
    && s.pending == 0 && !s.token && s.senders == 0 && s.main == Idle && s.worker == NotStarted
    && s.past.passed == {} && s.past.highest == 0 && !s.past.failed && s.past.origin == 0
    && s.past.started == s.synced && !s.past.begun && !s.past.mainFailed
  }

  // ---- steps of the sync loop ----

  /** A run starts: signal the synced height, and trigger it too if it is a boundary. */
  ghost predicate StartRun(s: State, t: State) {
    s.main == Idle &&
    t == s.(main := Signal(s.synced, IsValidationHeight(s.interval, s.synced)),
            past := s.past.(begun := s.past.begun || s.synced == s.past.started))
  }

  /** The next height is committed. */
  ghost predicate Insert(s: State, t: State) {
    && s.main == Idle && s.synced + 1 < TWO_64
    && t == s.(synced := s.synced + 1,
               main := if IsValidationHeight(s.interval, s.synced + 1) then ReadCursor(s.synced + 1) else Idle)
  }

  /** Reads the cursor; a set cursor needs no write, a failed read gives up. */
  ghost predicate MainRead(s: State, t: State) {
    s.main.ReadCursor? &&
    (t == s.(main := if s.cursor == 0 then WriteCursor(s.main.h) else Signal(s.main.h, false)) ||
     t == s.(main := Idle, past := s.past.(mainFailed := true)))
  }

  ghost predicate MainWrite(s: State, t: State) {
    s.main.WriteCursor? &&
    (t == s.(cursor := s.main.h, past := s.past.(origin := s.main.h), main := Signal(s.main.h, false)) ||
     t == s.(main := Idle, past := s.past.(mainFailed := true)))
  }

  /** `validationWorkerOnce` starts the worker. */
  ghost predicate MainStartWorker(s: State, t: State) {
    s.main.Signal? &&
    t == s.(main := Lock(s.main.h, s.main.more), worker := if s.worker == NotStarted then Blocked else s.worker)
  }

  ghost predicate MainLock(s: State, t: State) {
    s.main.Lock? &&
    t == s.(main := Send(s.main.h, s.main.more), pending := Max(s.pending, s.main.h),
            past := s.past.(highest := Max(s.past.highest, s.main.h)))
  }

  /** A full channel drops the send. */
  ghost predicate MainSend(s: State, t: State) {
    s.main.Send? && t == s.(main := if s.main.more then ReadCursor(s.main.h) else Idle, token := true)
  }

  // ---- any further callers of signalValidation ----

  ghost predicate OtherLock(s: State, t: State) {
    s.worker != NotStarted &&
    exists h: nat :: h <= s.synced &&
      t == s.(pending := Max(s.pending, h), past := s.past.(highest := Max(s.past.highest, h)),
              senders := s.senders + 1)
  }

  ghost predicate OtherSend(s: State, t: State) {
    s.senders > 0 && t == s.(senders := s.senders - 1, token := true)
  }

  // ---- steps of the worker ----

  ghost predicate Wake(s: State, t: State) {
    s.worker == Blocked && s.token && t == s.(token := false, worker := TakePending)
  }

  ghost predicate Take(s: State, t: State) {
    s.worker == TakePending &&
    t == s.(pending := 0, worker := if s.pending == 0 then Blocked else LoadCursor(s.pending),
            past := s.past.(failed := s.past.failed && s.pending < s.past.highest))
  }

  ghost predicate WorkerLoad(s: State, t: State) {
    s.worker.LoadCursor? &&
    (t == s.(worker := if s.cursor == 0 || s.cursor > s.worker.upTo then Recheck
                       else Validate(s.worker.upTo, s.cursor)) ||
     t == s.(worker := Recheck, past := s.past.(failed := true)))
  }

  ghost predicate WorkerValidate(s: State, t: State) {
    s.worker.Validate? &&
    (t == s.(worker := Advance(s.worker.upTo, s.worker.h), past := s.past.(passed := s.past.passed + {s.worker.h})) ||
     t == s.(worker := Recheck, past := s.past.(failed := true)))
  }

  ghost predicate WorkerAdvance(s: State, t: State) {
    s.worker.Advance? &&
    var next := Add64(s.worker.h, s.interval);
    ((if next <= s.worker.h then t == s.(cursor := 0, worker := Recheck)
      else t == s.(cursor := next, worker := LoadCursor(s.worker.upTo))) ||
     t == s.(worker := Recheck, past := s.past.(failed := true)))
  }

  ghost predicate WorkerRecheck(s: State, t: State) {
    s.worker == Recheck && t == s.(worker := if s.pending > 0 then TakePending else Blocked)
  }

  /** The process dies and is started again. */
  ghost predicate Crash(s: State, t: State) {
    t == s.(pending := 0, token := false, senders := 0, main := Idle, worker := NotStarted,
            past := s.past.(highest := 0, failed := false, started := s.synced, begun := false, mainFailed := false))
  }

  ghost predicate MainStep(s: State, t: State) {
    StartRun(s, t) || Insert(s, t) || MainRead(s, t) || MainWrite(s, t) ||
    MainStartWorker(s, t) || MainLock(s, t) || MainSend(s, t)
  }

  ghost predicate WorkerStep(s: State, t: State) {
    Wake(s, t) || Take(s, t) || WorkerLoad(s, t) || WorkerValidate(s, t) || WorkerAdvance(s, t) || WorkerRecheck(s, t)
  }

  ghost predicate Next(s: State, t: State) {
    MainStep(s, t) || WorkerStep(s, t) || OtherLock(s, t) || OtherSend(s, t) || Crash(s, t)
  }

  ghost predicate IsRun(run: seq<State>) {
    run != [] && Init(run[0]) && forall i :: 0 <= i < |run| - 1 ==> Next(run[i], run[i + 1])
  }

  // ---- invariants ----

  predicate Awake(w: Worker) { !w.NotStarted? && !w.Blocked? }

  /** A height in the mailbox has a wakeup on its way. */
  ghost predicate NoLostWakeup(s: State) {
    s.pending > 0 ==> s.token || s.senders > 0 || s.main.Send? || Awake(s.worker)
  }

  /** Every boundary from the origin up to the cursor has passed. */
  ghost predicate CursorEarned(s: State) {
    && s.cursor < TWO_64
    && (s.cursor != 0 ==>
          && s.interval != 0
          && 0 < s.past.origin <= s.cursor && s.past.origin <= s.synced
          && s.past.origin % s.interval == 0 && s.cursor % s.interval == 0
          && forall h :: s.past.origin <= h < s.cursor && h % s.interval == 0 ==> h in s.past.passed)
    && (forall h :: h in s.past.passed ==> 0 < h <= s.synced)
  }

  /** What the sync loop knows: it works on the synced height, and once it has seen no
      cursor nobody else sets one. */
  ghost predicate MainKnows(s: State) {
    match s.main
    case Idle => true
    case Signal(h, more) => h == s.synced && (more ==> IsValidationHeight(s.interval, h))
    case Lock(h, more) => h == s.synced && (more ==> IsValidationHeight(s.interval, h)) && s.worker != NotStarted
    case Send(h, more) => h == s.synced && (more ==> IsValidationHeight(s.interval, h)) && s.worker != NotStarted
    case ReadCursor(h) => h == s.synced && IsValidationHeight(s.interval, h)
    case WriteCursor(h) => h == s.synced && IsValidationHeight(s.interval, h) && s.cursor == 0
  }

  /** What the worker knows: the height it validates is the cursor, and it is inserted. */
  ghost predicate WorkerKnows(s: State) {
    match s.worker
    case LoadCursor(upTo) => upTo <= s.past.highest
    case Validate(upTo, h) => upTo <= s.past.highest && 0 < h == s.cursor <= upTo
    case Advance(upTo, h) => upTo <= s.past.highest && 0 < h == s.cursor <= upTo && h in s.past.passed
    case _ => true
  }

  function UpTo(w: Worker): nat {
    match w
    case LoadCursor(upTo) => upTo
    case Validate(upTo, _) => upTo
    case Advance(upTo, _) => upTo
    case _ => 0
  }

  /** Unless the worker failed since it took the highest height, a cursor that is due is in somebody's hands. */
  ghost predicate DueIsCovered(s: State) {
    !s.past.failed ==>
      || s.cursor == 0 || s.cursor > s.past.highest
      || s.pending == s.past.highest
      || UpTo(s.worker) == s.past.highest
      || s.main.Signal? || s.main.Lock?
  }

  ghost predicate Inv(s: State) {
    && 0 < s.interval < TWO_64 && s.synced < TWO_64 && s.pending <= s.past.highest <= s.synced
    && NoLostWakeup(s) && CursorEarned(s) && MainKnows(s) && WorkerKnows(s) && DueIsCovered(s)
    && (s.worker == NotStarted ==> s.pending == 0 && s.senders == 0)
  }

  lemma InitInv(s: State)
    requires Init(s)
    ensures Inv(s)
  {
  }

  lemma SmallMultiple(v: nat, k: int)
    requires v > 0 && 0 <= v * k < v
    ensures v * k == 0
  {
    MulBounds(v, k);
  }

  lemma MulBounds(v: int, k: int)
    requires v > 0
    ensures k >= 1 ==> v * k >= v
    ensures k <= -1 ==> v * k <= -v
  {
  }

  /** No boundary lies strictly between a boundary and the next one. */
  lemma NextBoundary(a: nat, v: nat, h: nat)
    requires v > 0 && a % v == 0 && a <= h < a + v && h % v == 0
    ensures h == a
  {
    var q, r := a / v, h / v;
    assert h - a == v * (r - q);
    SmallMultiple(v, r - q);
  }

  lemma SumOfBoundaries(a: nat, v: nat)
    requires v > 0 && a % v == 0
    ensures (a + v) % v == 0
  {
    var q, r := a / v, (a + v) / v;
    assert (a + v) % v == v * (q + 1 - r);
    SmallMultiple(v, q + 1 - r);
  }

  lemma EarnedBelow(s: State, h: nat, b: nat)
    requires CursorEarned(s) && s.cursor == h > 0 && h in s.past.passed
    requires s.past.origin <= b < h + s.interval && b % s.interval == 0
    ensures b in s.past.passed
  {
    if b >= h { NextBoundary(h, s.interval, b); }
  }

  lemma AdvanceKeepsEarned(s: State, t: State)
    requires Inv(s) && WorkerAdvance(s, t)
    ensures CursorEarned(t)
  {
    Add64Wraps(s.worker.h, s.interval);
    if t.cursor == s.worker.h + s.interval { CursorClimbs(s, t); }
  }

  /** The sum exceeds its first summand exactly when it does not wrap around. */
  lemma Add64Wraps(a: nat, b: nat)
    requires 0 < a < TWO_64 && 0 < b < TWO_64
    ensures Add64(a, b) == if a + b < TWO_64 then a + b else a + b - TWO_64
    ensures Add64(a, b) > a <==> a + b < TWO_64
  {
  }

  lemma CursorClimbs(s: State, t: State)
    requires CursorEarned(s) && 0 < s.cursor && s.cursor in s.past.passed && s.interval > 0
    requires s.cursor + s.interval < TWO_64 && t.cursor == s.cursor + s.interval
    requires t.interval == s.interval && t.synced == s.synced
    requires t.past.origin == s.past.origin && t.past.passed == s.past.passed
    ensures CursorEarned(t)
  {
    SumOfBoundaries(s.cursor, s.interval);
    forall b | t.past.origin <= b < t.cursor && b % t.interval == 0 ensures b in t.past.passed {
      EarnedBelow(s, s.cursor, b);
    }
  }

  lemma SignalStepKeepsInv(s: State, t: State)
    requires Inv(s) && (StartRun(s, t) || MainStartWorker(s, t) || MainLock(s, t) || MainSend(s, t))
    ensures Inv(t)
  {
  }

  lemma TriggerStepKeepsInv(s: State, t: State)
    requires Inv(s) && (Insert(s, t) || MainRead(s, t) || MainWrite(s, t))
    ensures Inv(t)
  {
  }

  lemma MainStepKeepsInv(s: State, t: State)
    requires Inv(s) && MainStep(s, t)
    ensures Inv(t)
  {
    if Insert(s, t) || MainRead(s, t) || MainWrite(s, t) {
      TriggerStepKeepsInv(s, t);
    } else {
      SignalStepKeepsInv(s, t);
    }
  }

  lemma DrainStepKeepsInv(s: State, t: State)
    requires Inv(s) && (WorkerLoad(s, t) || WorkerValidate(s, t) || WorkerAdvance(s, t))
    ensures Inv(t)
  {
    if WorkerAdvance(s, t) { AdvanceKeepsEarned(s, t); }
  }

  lemma WorkerStepKeepsInv(s: State, t: State)
    requires Inv(s) && WorkerStep(s, t)
    ensures Inv(t)
  {
    if WorkerLoad(s, t) || WorkerValidate(s, t) || WorkerAdvance(s, t) { DrainStepKeepsInv(s, t); }
  }

  lemma OtherStepKeepsInv(s: State, t: State)
    requires Inv(s) && (OtherLock(s, t) || OtherSend(s, t) || Crash(s, t))
    ensures Inv(t)
  {
  }

  lemma StepKeepsInv(s: State, t: State)
    requires Inv(s) && Next(s, t)
    ensures Inv(t)
  {
    if MainStep(s, t) { MainStepKeepsInv(s, t); }
    else if WorkerStep(s, t) { WorkerStepKeepsInv(s, t); }
    else { OtherStepKeepsInv(s, t); }
  }

  /** Every state of every run, whatever the interleaving and however often it crashed. */
  lemma {:induction false} RunsKeepInv(run: seq<State>, n: nat)
    requires IsRun(run) && n < |run|
    ensures Inv(run[n]) && run[n].interval == run[0].interval
  {
    if n == 0 {
      InitInv(run[0]);
    } else {
      RunsKeepInv(run, n - 1);
      assert Next(run[n - 1], run[(n - 1) + 1]);
      StepKeepsInv(run[n - 1], run[n]);
    }
  }

  // ---- what this means ----

  /** How the cursor moves over any run: set to the synced height when there was none, or
      past a height that has just passed, or cleared when the next height would not fit in
      64 bits, and only then.  Neither thread overwrites the other's value. */
  lemma CursorMoves(run: seq<State>, n: nat)
    requires IsRun(run) && n + 1 < |run| && run[n + 1].cursor != run[n].cursor
    ensures var s, t := run[n], run[n + 1];
            if s.cursor == 0 then MainWrite(s, t) && t.cursor == s.synced && IsValidationHeight(s.interval, t.cursor)
            else WorkerAdvance(s, t) && s.cursor in s.past.passed && s.cursor <= s.synced &&
                 (if s.cursor + s.interval < TWO_64 then t.cursor == s.cursor + s.interval else t.cursor == 0)
  {
    RunsKeepInv(run, n);
    assert Next(run[n], run[n + 1]);
    CursorStep(run[n], run[n + 1]);
  }

  lemma CursorStep(s: State, t: State)
    requires Inv(s) && Next(s, t) && t.cursor != s.cursor
    ensures if s.cursor == 0 then MainWrite(s, t) && t.cursor == s.synced && IsValidationHeight(s.interval, t.cursor)
            else WorkerAdvance(s, t) && s.cursor in s.past.passed && s.cursor <= s.synced &&
                 (if s.cursor + s.interval < TWO_64 then t.cursor == s.cursor + s.interval else t.cursor == 0)
  {
    if MainStep(s, t) {
      assert MainWrite(s, t);
    } else {
      assert WorkerAdvance(s, t);
      Add64Wraps(s.worker.h, s.interval);
    }
  }

  /** Nothing is validated before it is inserted, or without being the persisted cursor. */
  lemma ValidatesOnlyInserted(run: seq<State>, n: nat)
    requires IsRun(run) && n < |run| && run[n].worker.Validate?
    ensures var s := run[n];
            s.worker.h == s.cursor && IsValidationHeight(s.interval, s.worker.h) && s.worker.h <= s.synced
  {
    RunsKeepInv(run, n);
  }

  /** Every boundary from the origin up to `top` has passed. */
  ghost predicate PassedUpTo(s: State, top: nat) {
    forall h :: s.past.origin <= h <= top && IsValidationHeight(s.interval, h) ==> h in s.past.passed
  }

  ghost predicate AtRest(s: State) {
    s.main == Idle && s.senders == 0 && !s.token && !Awake(s.worker)
  }

  /** When all threads rest the mailbox is empty, and unless the worker failed since it took
      the highest signalled height, every boundary from the origin up to that height passed,
      whatever failed before. */
  lemma NothingForgotten(run: seq<State>, n: nat)
    requires IsRun(run) && n < |run| && AtRest(run[n])
    ensures run[n].pending == 0
    ensures !run[n].past.failed && run[n].cursor != 0 ==> PassedUpTo(run[n], run[n].past.highest)
  {
    RunsKeepInv(run, n);
  }

  /** The worker gave up a drain: a call to the database or a validation failed. */
  ghost predicate GaveUp(s: State, t: State) {
    t.worker == Recheck && t.cursor == s.cursor && (s.worker.LoadCursor? || s.worker.Validate? || s.worker.Advance?)
  }

  /** A failure is remembered until the highest signalled height is taken again: the retry at
      the next signal starts with a clean slate, and so does a restart. */
  lemma FailureMoves(run: seq<State>, n: nat)
    requires IsRun(run) && n + 1 < |run| && run[n + 1].past.failed != run[n].past.failed
    ensures var s, t := run[n], run[n + 1];
            if t.past.failed then GaveUp(s, t)
            else Crash(s, t) || (s.worker == TakePending && s.pending == s.past.highest && t.pending == 0)
  {
    RunsKeepInv(run, n);
    assert Next(run[n], run[n + 1]);
    FailureStep(run[n], run[n + 1]);
  }

  lemma FailureStep(s: State, t: State)
    requires Inv(s) && Next(s, t) && t.past.failed != s.past.failed
    ensures if t.past.failed then GaveUp(s, t)
            else Crash(s, t) || (s.worker == TakePending && s.pending == s.past.highest && t.pending == 0)
  {
    if !Crash(s, t) {
      assert WorkerStep(s, t);
    }
  }

  // ---- what the sync loop inserts is validated ----

  /** The sync loop has the trigger of its height still before it. */
  predicate Triggers(m: Main) {
    m.ReadCursor? || m.WriteCursor? || ((m.Signal? || m.Lock? || m.Send?) && m.more)
  }

  /** A boundary that this process inserted, or at which it began a run. */
  predicate Due(s: State, b: nat) {
    && s.interval > 0 && 0 < b <= s.synced && b % s.interval == 0
    && (s.past.started < b || (s.past.started == b && s.past.begun))
  }

  /** Unless the sync loop failed, every boundary it is due for has been signalled and lies at or
      above the origin of a cursor, or it has passed, or is the one the loop works on. */
  ghost predicate Attended(s: State) {
    && s.past.started <= s.synced
    && (!s.past.mainFailed ==> forall b: nat :: Due(s, b) ==> SignalledOrNow(s, b) && CursorOrNow(s, b))
  }

  ghost predicate SignalledOrNow(s: State, b: nat) {
    b <= s.past.highest || (b == s.synced && (Triggers(s.main) || s.main.Signal? || s.main.Lock?))
  }

  ghost predicate CursorOrNow(s: State, b: nat) {
    (s.cursor != 0 && s.past.origin <= b) || b in s.past.passed || (b == s.synced && Triggers(s.main))
  }

  lemma SignalKeepsAttended(s: State, t: State)
    requires Inv(s) && Attended(s) && (StartRun(s, t) || MainStartWorker(s, t) || MainLock(s, t) || MainSend(s, t))
    ensures Attended(t)
  {
    forall b: nat | Due(t, b) && !t.past.mainFailed ensures SignalledOrNow(t, b) && CursorOrNow(t, b) {
      if !StartRun(s, t) || b != s.synced { assert Due(s, b); }
    }
  }

  lemma TriggerKeepsAttended(s: State, t: State)
    requires Inv(s) && Attended(s) && (Insert(s, t) || MainRead(s, t) || MainWrite(s, t))
    ensures Attended(t)
  {
    forall b: nat | Due(t, b) && !t.past.mainFailed ensures SignalledOrNow(t, b) && CursorOrNow(t, b) {
      if b <= s.synced { assert Due(s, b); }
    }
  }

  lemma WorkerKeepsAttended(s: State, t: State)
    requires Inv(s) && Attended(s) && WorkerStep(s, t)
    ensures Attended(t)
  {
    forall b: nat | Due(t, b) && !t.past.mainFailed ensures SignalledOrNow(t, b) && CursorOrNow(t, b) {
      assert Due(s, b);
      if t.cursor == 0 && s.cursor != 0 && s.past.origin <= b { ClearedPasses(s, t, b); }
    }
  }

  /** The cursor is cleared only past the last boundary that fits. */
  lemma ClearedPasses(s: State, t: State, b: nat)
    requires Inv(s) && WorkerStep(s, t) && t.cursor == 0 && s.cursor != 0 && s.past.origin <= b <= s.synced
    requires b % s.interval == 0
    ensures b in t.past.passed
  {
    assert WorkerAdvance(s, t);
    Add64Wraps(s.worker.h, s.interval);
    EarnedBelow(s, s.cursor, b);
  }

  lemma StepKeepsAttended(s: State, t: State)
    requires Inv(s) && Attended(s) && Next(s, t)
    ensures Attended(t)
  {
    if Insert(s, t) || MainRead(s, t) || MainWrite(s, t) {
      TriggerKeepsAttended(s, t);
    } else if MainStep(s, t) {
      SignalKeepsAttended(s, t);
    } else if WorkerStep(s, t) {
      WorkerKeepsAttended(s, t);
    } else if OtherLock(s, t) || OtherSend(s, t) {
      assert forall b: nat :: Due(t, b) ==> Due(s, b);
    }
  }

  lemma {:induction false} RunsAttended(run: seq<State>, n: nat)
    requires IsRun(run) && n < |run|
    ensures Attended(run[n])
  {
    if n > 0 {
      RunsAttended(run, n - 1);
      RunsKeepInv(run, n - 1);
      assert Next(run[n - 1], run[(n - 1) + 1]);
      StepKeepsAttended(run[n - 1], run[n]);
    }
  }

  ghost predicate Starts(run: seq<State>, k: nat) {
    k < |run| && (k == 0 || Crash(run[k - 1], run[k]))
  }

  /** The process does not die between `k` and `n`. */
  ghost predicate Lives(run: seq<State>, k: nat, n: nat) {
    && k <= n < |run|
    && forall i :: k <= i < n ==> !Crash(run[i], run[i + 1])
  }

  lemma StartStays(s: State, t: State)
    requires Next(s, t) && !Crash(s, t)
    ensures t.past.started == s.past.started && t.interval == s.interval && s.synced <= t.synced
    ensures s.past.begun ==> t.past.begun
    ensures s.main == Idle && t.main.Signal? && s.synced == s.past.started ==> t.past.begun
  {
  }

  lemma {:induction false} StartedAt(run: seq<State>, k: nat, n: nat)
    requires IsRun(run) && Lives(run, k, n)
    ensures run[n].past.started == run[k].past.started && run[n].interval == run[k].interval
    ensures run[k].synced <= run[n].synced
    ensures run[k].past.begun ==> run[n].past.begun
    decreases n
  {
    if k < n {
      StartedAt(run, k, n - 1);
      assert Next(run[n - 1], run[(n - 1) + 1]) && !Crash(run[n - 1], run[(n - 1) + 1]);
      StartStays(run[n - 1], run[n]);
    }
  }

  lemma StartIsSynced(run: seq<State>, k: nat)
    requires IsRun(run) && Starts(run, k)
    ensures run[k].past.started == run[k].synced
  {
  }

  /** A run that begins at the height the process started at is remembered. */
  lemma {:induction false} BegunStays(run: seq<State>, k: nat, j: nat, n: nat)
    requires IsRun(run) && Lives(run, k, n) && k <= j < n && run[j].synced == run[k].past.started
    requires run[j].main == Idle && run[j + 1].main.Signal?
    ensures run[n].past.begun
  {
    StartedAt(run, k, j);
    assert Next(run[j], run[j + 1]) && !Crash(run[j], run[j + 1]);
    StartStays(run[j], run[j + 1]);
    StartedAt(run, j + 1, n);
  }

  lemma {:induction false} RunBeganAt(run: seq<State>, k: nat, j: nat, n: nat)
    requires IsRun(run) && Starts(run, k) && Lives(run, k, n) && k <= j < n
    requires run[j].main == Idle && run[j + 1].main.Signal?
    ensures run[n].past.started <= run[j].synced <= run[n].synced
    ensures run[n].past.started == run[j].synced ==> run[n].past.begun
  {
    StartIsSynced(run, k);
    StartedAt(run, k, n);
    StartedAt(run, k, j);
    StartedAt(run, j, n);
    if run[k].past.started == run[j].synced { BegunStays(run, k, j, n); }
  }

  /** What is due is signalled, and not forgotten by the cursor. */
  lemma {:induction false} DueIsSignalled(run: seq<State>, n: nat, b: nat)
    requires IsRun(run) && n < |run| && Due(run[n], b) && run[n].main == Idle && !run[n].past.mainFailed
    ensures b <= run[n].past.highest
    ensures b in run[n].past.passed || (run[n].cursor != 0 && run[n].past.origin <= b)
  {
    RunsAttended(run, n);
  }

  lemma {:induction false} DuePasses(run: seq<State>, n: nat, b: nat)
    requires IsRun(run) && n < |run| && Due(run[n], b)
    requires AtRest(run[n]) && !run[n].past.mainFailed && !run[n].past.failed
    ensures b in run[n].past.passed
  {
    DueIsSignalled(run, n, b);
    NothingForgotten(run, n);
  }

  lemma {:induction false} ProcessFacts(run: seq<State>, k: nat, n: nat)
    requires IsRun(run) && Starts(run, k) && Lives(run, k, n)
    ensures run[n].interval == run[0].interval && run[n].past.started == run[k].synced
  {
    RunsKeepInv(run, n);
    StartIsSynced(run, k);
    StartedAt(run, k, n);
  }

  /** In the process that starts at `k`: when the sync loop is idle and none of its reads and
      writes of the cursor failed, every boundary that came to be synced has been signalled, and
      has passed or is not below the origin of the cursor. */
  lemma {:induction false} BoundariesSignalled(run: seq<State>, k: nat, n: nat, b: nat)
    requires IsRun(run) && Starts(run, k) && Lives(run, k, n) && run[n].main == Idle && !run[n].past.mainFailed
    requires 0 < run[0].interval && run[k].synced < b <= run[n].synced && b % run[0].interval == 0
    ensures b <= run[n].past.highest
    ensures b in run[n].past.passed || (run[n].cursor != 0 && run[n].past.origin <= b)
  {
    ProcessFacts(run, k, n);
    assert Due(run[n], b);
    DueIsSignalled(run, n, b);
  }

  /** When all threads rest and nothing failed, every such boundary has passed. */
  lemma {:induction false} BoundariesPass(run: seq<State>, k: nat, n: nat, b: nat)
    requires IsRun(run) && Starts(run, k) && Lives(run, k, n)
    requires AtRest(run[n]) && !run[n].past.mainFailed && !run[n].past.failed
    requires 0 < run[0].interval && run[k].synced < b <= run[n].synced && b % run[0].interval == 0
    ensures b in run[n].past.passed
  {
    ProcessFacts(run, k, n);
    assert Due(run[n], b);
    DuePasses(run, n, b);
  }

  /** So has a boundary that was synced when the sync loop began a run. */
  lemma {:induction false} RunHeightPasses(run: seq<State>, k: nat, j: nat, n: nat)
    requires IsRun(run) && Starts(run, k) && Lives(run, k, n) && k <= j < n
    requires run[j].main == Idle && run[j + 1].main.Signal?
    requires AtRest(run[n]) && !run[n].past.mainFailed && !run[n].past.failed
    requires 0 < run[0].interval && 0 < run[j].synced && run[j].synced % run[0].interval == 0
    ensures run[j].synced in run[n].past.passed
  {
    RunHeightIsDue(run, k, j, n);
    DuePasses(run, n, run[j].synced);
  }

  lemma {:induction false} RunHeightIsDue(run: seq<State>, k: nat, j: nat, n: nat)
    requires IsRun(run) && Starts(run, k) && Lives(run, k, n) && k <= j < n
    requires run[j].main == Idle && run[j + 1].main.Signal?
    requires 0 < run[0].interval && 0 < run[j].synced && run[j].synced % run[0].interval == 0
    ensures Due(run[n], run[j].synced)
  {
    ProcessFacts(run, k, n);
    RunBeganAt(run, k, j, n);
  }

  /** A height passes only by being validated. */
  lemma PassedMoves(run: seq<State>, n: nat, h: nat)
    requires IsRun(run) && n + 1 < |run| && h in run[n + 1].past.passed && h !in run[n].past.passed
    ensures run[n].worker.Validate? && run[n].worker.h == h && run[n + 1].worker == Advance(run[n].worker.upTo, h)
  {
    assert Next(run[n], run[n + 1]);
  }

  /** The sync loop counts as failed only from a read or write of the cursor on. */
  lemma MainFailureMoves(run: seq<State>, n: nat)
    requires IsRun(run) && n + 1 < |run| && run[n + 1].past.mainFailed != run[n].past.mainFailed
    ensures var s, t := run[n], run[n + 1];
            if t.past.mainFailed
            then (s.main.ReadCursor? || s.main.WriteCursor?) && t.main == Idle && t.cursor == s.cursor
            else Crash(s, t)
  {
    assert Next(run[n], run[n + 1]);
  }

  // ---- one uninterrupted call of the worker's body ----

  /** From one boundary to a later one, passing every boundary on the way. */
  ghost predicate Climbs(from: nat, to: nat, interval: nat, upTo: nat, passes: nat -> bool)
    decreases if from <= to then to - from else 0
  {
    from == to ||
    (0 < interval && 0 < from <= upTo && from + interval < TWO_64 && from < to && passes(from) &&
     Climbs(from + interval, to, interval, upTo, passes))
  }

  lemma {:induction false} ClimbsFurther(from: nat, to: nat, interval: nat, upTo: nat, passes: nat -> bool)
    requires Climbs(from, to, interval, upTo, passes)
    requires 0 < interval && 0 < to <= upTo && to + interval < TWO_64 && passes(to)
    ensures Climbs(from, to + interval, interval, upTo, passes)
    decreases if from <= to then to - from else 0
  {
    if from != to { ClimbsFurther(from + interval, to, interval, upTo, passes); }
  }

  class ValidationApp {
    const interval: nat
    /** The persisted cursor; no value reads as 0. */
    var validationHeight: nat

    /** `loads` and `writes` say whether the call's n-th read or write of the cursor succeeds. */
    method ProcessPendingValidations(syncedHeight: nat, passes: nat -> bool, loads: nat -> bool, writes: nat -> bool)
      returns (ghost reached: nat)
      requires interval < TWO_64 && syncedHeight < TWO_64 && validationHeight < TWO_64
      modifies this`validationHeight
      ensures Climbs(old(validationHeight), reached, interval, syncedHeight, passes)
      ensures validationHeight != reached ==>
                validationHeight == 0 && 0 < reached <= syncedHeight && passes(reached) && reached + interval >= TWO_64
      ensures interval != 0 && validationHeight == reached && (forall n :: loads(n) && writes(n)) ==>
                reached == 0 || reached > syncedHeight || !passes(reached)
    {
      reached := validationHeight;
      if interval == 0 {
        return;
      }
      var n := 0;
      while true
        invariant validationHeight == reached < TWO_64
        invariant Climbs(old(validationHeight), reached, interval, syncedHeight, passes)
        decreases syncedHeight - validationHeight
      {
        if !loads(n) {
          return;
        }
        var height := validationHeight;
        if height == 0 || height > syncedHeight {
          return;
        }
        if !passes(height) {
          return;
        }
        var next := Add64(height, interval);
        if next <= height {
          if writes(n) { validationHeight := 0; }
          return;
        }
        if !writes(n) {
          return;
        }
        ClimbsFurther(old(validationHeight), height, interval, syncedHeight, passes);
        validationHeight := next;
        reached := next;
        n := n + 1;
      }
    }
  }
}
