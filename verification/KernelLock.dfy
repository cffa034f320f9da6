/**
 The nested kernel lock: a shared counter is tested before the kernel is locked, so a thread can be
 pre-empted between the test and the lock. Any number of threads, one running at a time; another thread
 gets the processor only while the kernel is unlocked.

 One step is one access to shared state: the test of the counter, the call that locks the kernel, the
 store of the state it returned, and the load and the store of each increment and decrement.
 */
module KernelLocking {
  import opened StepSystems

  datatype Pc =
    | Idle
    | Test | LockKernel | StorePrev(returned: int) | LoadInc | StoreInc(loaded: int)
    | LoadDec | StoreDec(loaded: int) | TestZero | Restore

  /**
   `depth` counts the `lock()` calls of the thread that have no matching `unlock()` yet. `returned` is what
   the latest `osKernelLock` of the thread itself returned.
   */
  datatype Thread = Thread(pc: Pc, depth: nat, returned: int)

  /**
   `kernel` is whether the RTOS kernel is locked. `direct` is whether the running thread has locked it
   itself, with a direct call of the RTOS outside every use of this lock.
   */
  datatype State = State(
    threads: map<nat, Thread>,
    running: nat,
    counter: int,
    prevLock: int,
    kernel: bool,
    direct: bool)

  datatype Event = Switch(t: nat) | CallLock | CallUnlock | Run | DirectLock | DirectUnlock

  function ThreadOf(s: State, t: nat): Thread {
    if t in s.threads then s.threads[t] else Thread(Idle, 0, 0)
  }

  function Running(s: State): Thread {
    ThreadOf(s, s.running)
  }

  function Init(first: nat): State {
    State(map[], first, 0, -1, false, false)
  }

  /** The RTOS reports a lock state as 0 or 1. */
  function LockState(locked: bool): int {
    if locked then 1 else 0
  }

  predicate Enabled(s: State, e: Event) {
    match e
    case Switch(t) => !s.kernel
    case CallLock => Running(s).pc.Idle?
    case CallUnlock => Running(s).pc.Idle? && Running(s).depth > 0
    case Run => !Running(s).pc.Idle?
    case DirectLock | DirectUnlock => Running(s).pc.Idle? && Running(s).depth == 0
  }

  function Goto(s: State, pc: Pc): State {
    s.(threads := s.threads[s.running := Running(s).(pc := pc)])
  }

  /** The running thread after its step. */
  function StepThread(s: State): Thread {
    var th := Running(s);
    match th.pc
    case Idle => th
    case Test => th.(pc := if s.counter == 0 then LockKernel else LoadInc)
    case LockKernel => th.(pc := StorePrev(LockState(s.kernel)), returned := LockState(s.kernel))
    case StorePrev(_) => th.(pc := LoadInc)
    case LoadInc => th.(pc := StoreInc(s.counter))
    case StoreInc(_) => th.(pc := Idle, depth := th.depth + 1)
    case LoadDec => th.(pc := StoreDec(s.counter))
    case StoreDec(_) => th.(pc := TestZero, depth := if th.depth > 0 then th.depth - 1 else 0)
    case TestZero => th.(pc := if s.counter == 0 then Restore else Idle)
    case Restore => th.(pc := Idle)
  }

  /** What the step of the running thread does to the members of the lock and to the kernel. */
  function StepShared(s: State): State {
    match Running(s).pc
    case LockKernel => s.(kernel := true)
    case StorePrev(r) => s.(prevLock := r)
    case StoreInc(v) => s.(counter := v + 1)
    case StoreDec(v) => s.(counter := v - 1)
    case Restore => s.(kernel := s.prevLock != 0)
    case _ => s
  }

  /** The state after an event; an event that is not enabled does nothing. */
  function Next(s: State, e: Event): State {
    if !Enabled(s, e) then s
    else match e
    case Switch(t) => s.(running := t)
    case CallLock => Goto(s, Test)
    case CallUnlock => Goto(s, LoadDec)
    case DirectLock => s.(kernel := true, direct := true)
    case DirectUnlock => s.(kernel := false, direct := false)
    case Run => StepShared(s).(threads := s.threads[s.running := StepThread(s)])
  }

  // ---- Invariant ----

  /** A thread that is not running is outside the lock, possibly just before locking the kernel. */
  predicate OutsideOk(th: Thread) {
    th.depth == 0 && (th.pc.Idle? || th.pc.Test? || th.pc.LockKernel?)
  }

  /** What the outermost `lock()` has saved is what its `osKernelLock` returned, and what direct calls left. */
  predicate SavedOk(s: State) {
    s.prevLock == Running(s).returned == LockState(s.direct)
  }

  predicate RunningOk(s: State) {
    var th := Running(s);
    match th.pc
    case Idle | Test => s.kernel == (s.counter > 0 || s.direct)
    case LockKernel => s.counter == 0 && s.kernel == s.direct
    case StorePrev(r) => s.counter == 0 && s.kernel && r == th.returned == LockState(s.direct)
    case LoadInc => s.kernel && SavedOk(s)
    case StoreInc(v) => s.kernel && SavedOk(s) && v == s.counter
    case LoadDec => s.kernel && s.counter > 0
    case StoreDec(v) => s.kernel && v == s.counter > 0
    case TestZero => s.kernel && SavedOk(s)
    case Restore => s.kernel && SavedOk(s) && s.counter == 0
  }

  ghost predicate OthersOk(s: State) {
    forall t :: t in s.threads && t != s.running ==> OutsideOk(s.threads[t])
  }

  /** What the invariant says of the running thread and the shared members. */
  predicate CurrentOk(s: State) {
    && s.counter == Running(s).depth
    && (s.counter > 0 ==> s.kernel && SavedOk(s))
    && (s.direct ==> s.kernel)
    && RunningOk(s)
  }

  ghost predicate Inv(s: State) {
    OthersOk(s) && CurrentOk(s)
  }

  lemma NextKeepsInv(s: State, e: Event)
    requires Inv(s) && Enabled(s, e)
    ensures Inv(Next(s, e))
  {
    match e
    case Switch(t) => SwitchKeepsInv(s, t);
    case Run => RunKeepsCurrent(s);
    case _ =>
  }

  /** The processor goes from one thread outside the lock to another one outside the lock. */
  lemma SwitchKeepsInv(s: State, t: nat)
    requires Inv(s) && !s.kernel
    ensures Inv(Next(s, Switch(t)))
  {
    assert OutsideOk(Running(s));
    assert OutsideOk(ThreadOf(s, t));
  }

  lemma RunKeepsCurrent(s: State)
    requires CurrentOk(s) && Enabled(s, Run)
    ensures CurrentOk(Next(s, Run))
  {
    assert Running(Next(s, Run)) == StepThread(s);
  }

  // ---- Whole runs ----

  predicate Legal(s: State, es: seq<Event>) {
    LegalRun(Enabled, Next, s, es)
  }

  function Exec(s: State, es: seq<Event>): State {
    EndOf(Next, s, es)
  }

  lemma ExecKeepsInv(s: State, es: seq<Event>)
    requires Inv(s) && Legal(s, es)
    ensures Inv(Exec(s, es))
  {
    forall r, e | Inv(r) && Enabled(r, e)
      ensures Inv(Next(r, e))
    {
      NextKeepsInv(r, e);
    }
    RunKeeps(Enabled, Next, Inv, s, es);
  }

  /**
   In every run, the counter is the depth of the running thread, every other thread has depth zero, and a
   positive counter means that the kernel is locked, so that no other thread can get the processor.
   */
  lemma CounterIsRunningDepth(first: nat, es: seq<Event>)
    requires Legal(Init(first), es)
    ensures var s := Exec(Init(first), es);
      && s.counter == Running(s).depth
      && (forall t :: t != s.running ==> ThreadOf(s, t).depth == 0)
      && (s.counter > 0 ==> s.kernel && forall t :: !Enabled(s, Switch(t)))
  {
    ExecKeepsInv(Init(first), es);
  }

  /**
   The lock is transparent: whenever the running thread is outside it, the kernel is exactly as locked as
   direct calls have left it, however often the lock was taken, nested or pre-empted before.
   */
  lemma OutermostUnlockRestores(first: nat, es: seq<Event>)
    requires Legal(Init(first), es)
    ensures var s := Exec(Init(first), es);
      Running(s).pc.Idle? && Running(s).depth == 0 ==> s.kernel == s.direct
  {
    ExecKeepsInv(Init(first), es);
  }

  /**
   The last step of an outermost `unlock()` gives the kernel back the state that the thread's own
   `osKernelLock` returned, which is the one that direct calls had left.
   */
  lemma RestoreStep(first: nat, es: seq<Event>)
    requires Legal(Init(first), es) && Running(Exec(Init(first), es)).pc.Restore?
    ensures var s := Exec(Init(first), es);
      && Running(s).depth == 0
      && Next(s, Run).kernel == (Running(s).returned != 0)
      && Next(s, Run).kernel == s.direct
  {
    ExecKeepsInv(Init(first), es);
  }

  ghost predicate Holds(s: State, t: nat) {
    ThreadOf(s, t).depth > 0
  }

  /** At most one thread is inside, and it stays the running one until it leaves. */
  lemma Exclusive(first: nat, es: seq<Event>, t: nat, u: nat)
    requires Legal(Init(first), es)
    requires Holds(Exec(Init(first), es), t) && Holds(Exec(Init(first), es), u)
    ensures t == u == Exec(Init(first), es).running
  {
    ExecKeepsInv(Init(first), es);
  }

  // ---- The two operations, run without pre-emption ----

  /** The static members of the lock and the kernel state, in their imperative form. */
  class KernelLock {
    var counter: int
    var prevLock: int
    var kernelLocked: bool

    constructor ()
      ensures counter == 0 && prevLock == -1 && !kernelLocked
    {
      counter, prevLock, kernelLocked := 0, -1, false;
    }

    /** The object shows the shared part of a state of the step system. */
    ghost predicate Shows(s: State)
      reads this
    {
      s.counter == counter && s.prevLock == prevLock && s.kernel == kernelLocked
    }

    method OsKernelLock() returns (previous: int)
      modifies this`kernelLocked
      ensures previous == (if old(kernelLocked) then 1 else 0) && kernelLocked
    {
      previous := if kernelLocked then 1 else 0;
      kernelLocked := true;
    }

    method OsKernelRestoreLock(state: int)
      modifies this`kernelLocked
      ensures kernelLocked == (state != 0)
    {
      kernelLocked := state != 0;
    }

    /** An uninterrupted `lock()` is the run of its steps. */
    method Lock(ghost s: State)
      requires Shows(s) && Enabled(s, CallLock)
      modifies this
      ensures Legal(s, LockRun(s)) && Shows(Exec(s, LockRun(s)))
      ensures Locked(s, Exec(s, LockRun(s)))
      ensures counter == old(counter) + 1
      ensures kernelLocked <==> old(counter) == 0 || old(kernelLocked)
      ensures prevLock == if old(counter) != 0 then old(prevLock) else if old(kernelLocked) then 1 else 0
    {
      LockRunEffect(s);
      if counter == 0 {
        prevLock := OsKernelLock();
      }
      counter := counter + 1;
    }

    /** An uninterrupted `unlock()` is the run of its steps. */
    method Unlock(ghost s: State)
      requires Shows(s) && Enabled(s, CallUnlock)
      modifies this
      ensures Legal(s, UnlockRun(s)) && Shows(Exec(s, UnlockRun(s)))
      ensures Unlocked(s, Exec(s, UnlockRun(s)))
      ensures counter == old(counter) - 1 && prevLock == old(prevLock)
      ensures kernelLocked <==> if old(counter) == 1 then prevLock != 0 else old(kernelLocked)
    {
      UnlockRunEffect(s);
      counter := counter - 1;
      if counter == 0 {
        OsKernelRestoreLock(prevLock);
      }
    }
  }

  function Runs(n: nat): seq<Event> {
    if n == 0 then [] else [Run] + Runs(n - 1)
  }

  /** The events of an uninterrupted `lock()`: the outermost one takes two more steps. */
  function LockRun(s: State): seq<Event> {
    [CallLock] + Runs(if s.counter == 0 then 5 else 3)
  }

  function UnlockRun(s: State): seq<Event> {
    [CallUnlock] + Runs(if s.counter == 1 then 4 else 3)
  }

  /** `r` is a later state of the same running thread, now outside every call, at depth `depth`. */
  ghost predicate Back(s: State, r: State, depth: int) {
    && Running(r).pc.Idle? && Running(r).depth == depth
    && r.running == s.running
    && r.direct == s.direct
    && forall t :: t != s.running ==> ThreadOf(r, t) == ThreadOf(s, t)
  }

  /** What an uninterrupted `lock()` of the running thread leaves. */
  ghost predicate Locked(s: State, r: State) {
    && Back(s, r, Running(s).depth + 1)
    && r.counter == s.counter + 1
    && r.prevLock == (if s.counter == 0 then LockState(s.kernel) else s.prevLock)
    && r.kernel == (s.counter == 0 || s.kernel)
  }

  /** What an uninterrupted `unlock()` of the running thread leaves. */
  ghost predicate Unlocked(s: State, r: State) {
    && Back(s, r, Running(s).depth - 1)
    && r.counter == s.counter - 1
    && r.prevLock == s.prevLock
    && r.kernel == (if s.counter == 1 then s.prevLock != 0 else s.kernel)
  }

  /** One step of the running thread leaves everything else to the other threads as it was. */
  lemma StepIsBack(s: State, r: State, depth: int)
    requires Enabled(s, Run) && Back(Next(s, Run), r, depth)
    ensures Back(s, r, depth)
  {
  }

  lemma LockRunEffect(s: State)
    requires Enabled(s, CallLock)
    ensures Legal(s, LockRun(s)) && Locked(s, Exec(s, LockRun(s)))
  {
    var s1 := Next(s, CallLock);
    Unfold(Enabled, Next, s, CallLock, Runs(if s.counter == 0 then 5 else 3));
    if s.counter == 0 {
      FirstLockEffect(s1);
    } else {
      IncrementEffect(Next(s1, Run));
      Unfold(Enabled, Next, s1, Run, Runs(2));
    }
  }

  /** From the test of an outermost `lock()` on. */
  lemma FirstLockEffect(s: State)
    requires Running(s).pc.Test? && s.counter == 0
    ensures Legal(s, Runs(5))
    ensures var r := Exec(s, Runs(5));
      && Back(s, r, Running(s).depth + 1)
      && r.counter == 1 && r.prevLock == LockState(s.kernel) && r.kernel
  {
    var s1 := Next(s, Run);
    var s2 := Next(s1, Run);
    var s3 := Next(s2, Run);
    IncrementEffect(s3);
    Unfold(Enabled, Next, s2, Run, Runs(2));
    Unfold(Enabled, Next, s1, Run, Runs(3));
    Unfold(Enabled, Next, s, Run, Runs(4));
    StepIsBack(s2, Exec(s3, Runs(2)), Running(s).depth + 1);
    StepIsBack(s1, Exec(s3, Runs(2)), Running(s).depth + 1);
    StepIsBack(s, Exec(s3, Runs(2)), Running(s).depth + 1);
  }

  /** The load and the store of the increment. */
  lemma IncrementEffect(s: State)
    requires Running(s).pc.LoadInc?
    ensures Legal(s, Runs(2))
    ensures var r := Exec(s, Runs(2));
      && Back(s, r, Running(s).depth + 1)
      && r.counter == s.counter + 1 && r.prevLock == s.prevLock && r.kernel == s.kernel
  {
    Unfold(Enabled, Next, s, Run, Runs(1));
    Unfold(Enabled, Next, Next(s, Run), Run, Runs(0));
  }

  lemma UnlockRunEffect(s: State)
    requires Enabled(s, CallUnlock)
    ensures Legal(s, UnlockRun(s)) && Unlocked(s, Exec(s, UnlockRun(s)))
  {
    var s1 := Next(s, CallUnlock);
    var n := if s.counter == 1 then 2 else 1;
    Unfold(Enabled, Next, s, CallUnlock, Runs(n + 2));
    DecrementEffect(s1, n);
    TestEffect(Next(Next(s1, Run), Run));
  }

  /** The load and the store of the decrement. */
  lemma DecrementEffect(s: State, n: nat)
    requires Running(s).pc.LoadDec? && Running(s).depth > 0
    ensures var r := Next(Next(s, Run), Run);
      && (Legal(s, Runs(n + 2)) <==> Legal(r, Runs(n)))
      && Exec(s, Runs(n + 2)) == Exec(r, Runs(n))
      && r == s.(threads := s.threads[s.running := Running(s).(pc := TestZero, depth := Running(s).depth - 1)],
                 counter := s.counter - 1)
  {
    var s1 := Next(s, Run);
    Unfold(Enabled, Next, s, Run, Runs(n + 1));
    Unfold(Enabled, Next, s1, Run, Runs(n));
    assert s1.threads[s.running := StepThread(s1)] == s.threads[s.running := StepThread(s1)];
  }

  /** The test after the decrement, and the restore when the counter is back at zero. */
  lemma TestEffect(s: State)
    requires Running(s).pc.TestZero?
    ensures var n := if s.counter == 0 then 2 else 1;
      && Legal(s, Runs(n))
      && var r := Exec(s, Runs(n));
      && Back(s, r, Running(s).depth)
      && r.counter == s.counter
      && r.prevLock == s.prevLock
      && r.kernel == if s.counter == 0 then s.prevLock != 0 else s.kernel
  {
    if s.counter == 0 {
      Unfold(Enabled, Next, s, Run, Runs(1));
      Unfold(Enabled, Next, Next(s, Run), Run, Runs(0));
    } else {
      Unfold(Enabled, Next, s, Run, Runs(0));
    }
  }
}
