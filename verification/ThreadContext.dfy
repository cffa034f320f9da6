/**
 The life of the heap context that a worker thread shares with the owner of its `Thread` object, in the
 build that supplies its own join. Either side may have to delete it; both may still want to read it.

 A step is one access to the context. While one side holds the kernel lock the other cannot run, as
 `KernelLocking.Exclusive` allows. The notification used for joining lives inside the context.
 */
module ThreadContexts {
  import opened StepSystems

  datatype Party = Worker | Owner

  /** Who has the kernel locked. */
  datatype Lock = Free | By(who: Party)

  /** The thread entry point, from the call of the thread function to the exit of the thread. */
  datatype WorkerPc =
    | WInvoke | WRunning | WLock | WTest | WDelete | WComplete | WNotify | WSignal | WUnlock | WExited

  datatype Outcome = Joined | LeftBehind | Reaped | CreatedDetached

  /** The constructor's last test, then one `join()` or `detach()`. */
  datatype OwnerPc =
    | OConstruct | OIdle
    | OJoinCheck | OAcquireCheck | OAcquireLock | OAcquireTest
    | OTake | OTakeUnlock | OSubscribe | OSubscribeUnlock
    | OWait | OClearBlocked | OClearNotified | OClearFlag
    | OJoinLock | OJoinDelete | OJoinUnlock
    | ODetachCheck | ODetachLock | ODetachTest | ODetachDelete | ODetachSet | ODetachUnlock(end: Outcome)
    | ODone(end: Outcome)

  /**
   `alive` is whether the context exists and `deletes` counts its deletions. `touchedDead` records an
   access after deletion. `flag` is the wait flag of the owner's thread.
   */
  datatype State = State(
    lock: Lock,
    worker: WorkerPc,
    owner: OwnerPc,
    alive: bool,
    deletes: nat,
    touchedDead: bool,
    completed: bool,
    detached: bool,
    notified: bool,
    blocked: bool,
    flag: bool)

  datatype Event = Step(who: Party) | CallJoin | CallDetach

  /** The state when the constructor of the context is over and the worker may start. */
  function Init(createdDetached: bool): State {
    State(Free, WInvoke, OConstruct, true, 0, false, false, createdDetached, false, false, false)
  }

  /** No side runs while the other one has the kernel locked. */
  predicate MayRun(s: State, who: Party) {
    s.lock == Free || s.lock == By(who)
  }

  predicate Enabled(s: State, e: Event) {
    match e
    case Step(Worker) => MayRun(s, Worker) && !s.worker.WExited?
    case Step(Owner) => MayRun(s, Owner) && !s.owner.OIdle? && !s.owner.ODone? && (s.owner.OWait? ==> s.flag)
    case CallJoin | CallDetach => MayRun(s, Owner) && s.owner.OIdle?
  }

  /** Any read or write of the context. */
  function Touch(s: State): State {
    s.(touchedDead := s.touchedDead || !s.alive)
  }

  function Delete(s: State): State {
    Touch(s).(alive := false, deletes := s.deletes + 1)
  }

  function WorkerStep(s: State): State {
    match s.worker
    case WInvoke => Touch(s).(worker := WRunning)
    case WRunning => s.(worker := WLock)
    case WLock => s.(worker := WTest, lock := By(Worker))
    case WTest => Touch(s).(worker := if s.detached then WDelete else WComplete)
    case WDelete => Delete(s).(worker := WUnlock)
    case WComplete => Touch(s).(worker := WNotify, completed := true)
    case WNotify => Touch(s).(worker := WSignal, notified := true)
    case WSignal => Touch(s).(worker := WUnlock, flag := s.flag || s.blocked)
    case WUnlock => s.(worker := WExited, lock := Free)
    case WExited => s
  }

  /** The points of a `detach()`. */
  predicate Detaching(o: OwnerPc) {
    o.ODetachCheck? || o.ODetachLock? || o.ODetachTest? || o.ODetachDelete? || o.ODetachSet? || o.ODetachUnlock?
  }

  function DetachStep(s: State): State
    requires Detaching(s.owner)
  {
    match s.owner
    case ODetachCheck => Touch(s).(owner := ODetachLock)
    case ODetachLock => s.(owner := ODetachTest, lock := By(Owner))
    case ODetachTest => Touch(s).(owner := if s.completed then ODetachDelete else ODetachSet)
    case ODetachDelete => Delete(s).(owner := ODetachUnlock(Reaped))
    case ODetachSet => Touch(s).(owner := ODetachUnlock(LeftBehind), detached := true)
    case ODetachUnlock(end) => s.(owner := ODone(end), lock := Free)
  }

  /** The points of the constructor's end and of a `join()`. */
  function JoinStep(s: State): State
    requires !Detaching(s.owner)
  {
    match s.owner
    case OConstruct => Touch(s).(owner := if s.detached then ODone(CreatedDetached) else OIdle)
    case OIdle => s
    case OJoinCheck => Touch(s).(owner := OAcquireCheck)
    case OAcquireCheck => Touch(s).(owner := OAcquireLock)
    case OAcquireLock => s.(owner := OAcquireTest, lock := By(Owner))
    case OAcquireTest => Touch(s).(owner := if s.notified then OTake else OSubscribe)
    case OTake => Touch(s).(owner := OTakeUnlock, blocked := false, notified := false)
    case OTakeUnlock => s.(owner := OJoinLock, lock := Free)
    case OSubscribe => Touch(s).(owner := OSubscribeUnlock, blocked := true, flag := false)
    case OSubscribeUnlock => s.(owner := OWait, lock := Free)
    case OWait => s.(owner := OClearBlocked)
    case OClearBlocked => Touch(s).(owner := OClearNotified, blocked := false)
    case OClearNotified => Touch(s).(owner := OClearFlag, notified := false)
    case OClearFlag => s.(owner := OJoinLock, flag := false)
    case OJoinLock => s.(owner := OJoinDelete, lock := By(Owner))
    case OJoinDelete => Delete(s).(owner := OJoinUnlock)
    case OJoinUnlock => s.(owner := ODone(Joined), lock := Free)
    case ODone(_) => s
  }

  function OwnerStep(s: State): State {
    if Detaching(s.owner) then DetachStep(s) else JoinStep(s)
  }

  /** The state after an event; an event that is not enabled does nothing. */
  function Next(s: State, e: Event): State {
    if !Enabled(s, e) then s
    else match e
    case Step(Worker) => WorkerStep(s)
    case Step(Owner) => OwnerStep(s)
    case CallJoin => s.(owner := OJoinCheck)
    case CallDetach => s.(owner := ODetachCheck)
  }

  // ---- Invariant of a thread created joinable ----

  predicate WorkerLocked(w: WorkerPc) {
    w.WTest? || w.WDelete? || w.WComplete? || w.WNotify? || w.WSignal? || w.WUnlock?
  }

  predicate OwnerLocked(o: OwnerPc) {
    || o.OAcquireTest? || o.OTake? || o.OTakeUnlock? || o.OSubscribe? || o.OSubscribeUnlock?
    || o.OJoinDelete? || o.OJoinUnlock?
    || o.ODetachTest? || o.ODetachDelete? || o.ODetachSet? || o.ODetachUnlock?
  }

  /** The worker still has its whole cleanup before it. */
  predicate WorkerBusy(w: WorkerPc) {
    w.WInvoke? || w.WRunning? || w.WLock?
  }

  /** The owner has set the detached bit. */
  predicate OwnerLeft(o: OwnerPc) {
    (o.ODetachUnlock? || o.ODone?) && o.end.LeftBehind?
  }

  /** The owner has deleted the context. */
  predicate OwnerDeleted(o: OwnerPc) {
    o.OJoinUnlock? || ((o.ODetachUnlock? || o.ODone?) && (o.end.Joined? || o.end.Reaped?))
  }

  /** The worker has marked the context completed. */
  predicate WorkerMarked(s: State) {
    s.completed && (s.worker.WNotify? || s.worker.WSignal? || s.worker.WUnlock? || s.worker.WExited?)
  }

  predicate LocksOk(s: State) {
    && (s.lock == By(Worker) <==> WorkerLocked(s.worker))
    && (s.lock == By(Owner) <==> OwnerLocked(s.owner))
  }

  predicate BitsOk(s: State) {
    && (s.detached <==> OwnerLeft(s.owner))
    && (s.completed ==> WorkerMarked(s))
    && (s.worker.WDelete? ==> s.detached)
    && (s.worker.WComplete? ==> !s.detached)
    && (s.worker.WNotify? || s.worker.WSignal? ==> s.completed)
    && !(s.completed && s.detached)
    && (s.worker.WUnlock? || s.worker.WExited? ==> s.completed || s.detached)
  }

  /** Exactly one side deletes, and only after the other side has made its last access. */
  predicate LifeOk(s: State) {
    && !s.touchedDead
    && s.deletes == (if s.alive then 0 else 1)
    && (!s.alive <==>
      OwnerDeleted(s.owner) || ((s.worker.WUnlock? || s.worker.WExited?) && s.detached))
    && (OwnerDeleted(s.owner) ==> s.worker.WExited? && s.completed)
    && (s.owner.ODetachDelete? ==> s.completed && s.worker.WExited?)
    && (s.owner.ODetachSet? ==> !s.completed && WorkerBusy(s.worker))
    && !(s.owner.ODone? && s.owner.end.CreatedDetached?)
    && (s.owner.ODetachUnlock? ==> s.owner.end.LeftBehind? || s.owner.end.Reaped?)
  }

  predicate JoinOk(s: State) {
    var released := s.completed && (s.worker.WUnlock? || s.worker.WExited?);
    && (s.notified ==> s.completed && !s.worker.WNotify?)
    && (s.owner.OAcquireCheck? || s.owner.OAcquireLock? || s.owner.OAcquireTest? ==>
      (s.notified <==> released || (s.completed && s.worker.WSignal?)))
    && (s.owner.OTake? || s.worker.WSignal? ==> s.notified)
    && (s.owner.OSubscribe? || s.owner.OSubscribeUnlock? ==> WorkerBusy(s.worker))
    && (s.owner.OSubscribeUnlock? || s.owner.OWait? ==> s.blocked)
    && (s.owner.OSubscribeUnlock? ==> !s.flag)
    && (s.owner.OWait? ==> (s.flag <==> released))
    && (s.owner.OIdle? || s.owner.OConstruct? || s.owner.OJoinCheck? ==>
      (s.notified <==> released || (s.completed && s.worker.WSignal?)))
    && (s.owner.OTake? || s.owner.OTakeUnlock? || s.owner.OClearBlocked? || s.owner.OClearNotified?
        || s.owner.OClearFlag? || s.owner.OJoinLock? || s.owner.OJoinDelete? ==>
      s.completed && s.worker.WExited?)
  }

  predicate Inv(s: State) {
    LocksOk(s) && BitsOk(s) && LifeOk(s) && JoinOk(s)
  }

  /** The most steps that the worker still has before it. */
  function WorkerLeft(w: WorkerPc): nat {
    match w
    case WInvoke => 8
    case WRunning => 7
    case WLock => 6
    case WTest => 5
    case WComplete => 4
    case WNotify => 3
    case WDelete | WSignal => 2
    case WUnlock => 1
    case WExited => 0
  }

  /** The most steps that the owner still has before it, in the longer of its two calls. */
  function OwnerStepsLeft(o: OwnerPc): nat {
    match o
    case OConstruct => 15
    case OIdle => 14
    case OJoinCheck => 13
    case OAcquireCheck => 12
    case OAcquireLock => 11
    case OAcquireTest => 10
    case OSubscribe => 9
    case OSubscribeUnlock => 8
    case OWait => 7
    case OClearBlocked => 6
    case OClearNotified | OTake | ODetachCheck => 5
    case OClearFlag | OTakeUnlock | ODetachLock => 4
    case OJoinLock | ODetachTest => 3
    case OJoinDelete | ODetachDelete | ODetachSet => 2
    case OJoinUnlock | ODetachUnlock(_) => 1
    case ODone(_) => 0
  }

  function StepsLeft(s: State): nat {
    WorkerLeft(s.worker) + OwnerStepsLeft(s.owner)
  }

  /** The next step of the side takes the lock. */
  predicate AtLock(s: State, who: Party) {
    match who
    case Worker => s.worker.WLock?
    case Owner => s.owner.OAcquireLock? || s.owner.OJoinLock? || s.owner.ODetachLock?
  }

  /** The next step of the side gives the lock back. */
  predicate AtUnlock(s: State, who: Party) {
    match who
    case Worker => s.worker.WUnlock?
    case Owner => s.owner.OTakeUnlock? || s.owner.OSubscribeUnlock? || s.owner.OJoinUnlock? || s.owner.ODetachUnlock?
  }

  /** A step of one side takes the lock, gives it back or leaves it alone, and leaves the other side where it is. */
  predicate LockMoves(s: State, who: Party, r: State) {
    && r.lock == (if AtLock(s, who) then By(who) else if AtUnlock(s, who) then Free else s.lock)
    && (who.Worker? ==> r.owner == s.owner)
    && (who.Owner? ==> r.worker == s.worker)
  }

  /** Every step keeps the invariant, leaves fewer steps to go and respects the lock. */
  predicate StepOk(s: State, who: Party, r: State) {
    Inv(r) && StepsLeft(r) < StepsLeft(s) && LockMoves(s, who, r)
  }

  /** The thread function, and the call that locks the kernel for the cleanup. */
  lemma StartStepKeepsInv(s: State)
    requires Inv(s) && Enabled(s, Step(Worker))
    requires var w := s.worker; w.WInvoke? || w.WRunning? || w.WLock?
    ensures StepOk(s, Worker, WorkerStep(s))
  {
  }

  /** The locked test of the cleanup, and the deletion. */
  lemma CleanupTestKeepsInv(s: State)
    requires Inv(s) && Enabled(s, Step(Worker))
    requires var w := s.worker; w.WTest? || w.WDelete?
    ensures StepOk(s, Worker, WorkerStep(s))
  {
  }

  /** Marking the context completed, and the release of the join notification. */
  lemma CompleteStepKeepsInv(s: State)
    requires Inv(s) && Enabled(s, Step(Worker))
    requires var w := s.worker; w.WComplete? || w.WNotify? || w.WSignal?
    ensures StepOk(s, Worker, WorkerStep(s))
  {
  }

  /** The end of the cleanup. */
  lemma ExitStepKeepsInv(s: State)
    requires Inv(s) && Enabled(s, Step(Worker))
    requires s.worker.WUnlock?
    ensures StepOk(s, Worker, WorkerStep(s))
  {
  }

  /** The test at the end of the constructor. */
  lemma ConstructKeepsInv(s: State)
    requires Inv(s) && Enabled(s, Step(Owner))
    requires s.owner.OConstruct?
    ensures StepOk(s, Owner, OwnerStep(s))
  {
  }

  /** The test at the start of a join. */
  lemma JoinCheckKeepsInv(s: State)
    requires Inv(s) && Enabled(s, Step(Owner)) && s.owner.OJoinCheck?
    ensures StepOk(s, Owner, OwnerStep(s))
  {
  }

  /** The test at the start of its acquire. */
  lemma AcquireCheckKeepsInv(s: State)
    requires Inv(s) && Enabled(s, Step(Owner)) && s.owner.OAcquireCheck?
    ensures StepOk(s, Owner, OwnerStep(s))
  {
  }

  /** The lock of the acquire. */
  lemma AcquireLockKeepsInv(s: State)
    requires Inv(s) && Enabled(s, Step(Owner)) && s.owner.OAcquireLock?
    ensures StepOk(s, Owner, OwnerStep(s))
  {
  }

  /** The locked test of the acquire. */
  lemma AcquireTestKeepsInv(s: State)
    requires Inv(s) && Enabled(s, Step(Owner)) && s.owner.OAcquireTest?
    ensures StepOk(s, Owner, OwnerStep(s))
  {
  }

  /** Consuming a notification that is there already. */
  lemma TakeStepKeepsInv(s: State)
    requires Inv(s) && Enabled(s, Step(Owner))
    requires var o := s.owner; o.OTake? || o.OTakeUnlock?
    ensures StepOk(s, Owner, OwnerStep(s))
  {
  }

  /** Subscribing. */
  lemma SubscribeStepKeepsInv(s: State)
    requires Inv(s) && Enabled(s, Step(Owner))
    requires var o := s.owner; o.OSubscribe? || o.OSubscribeUnlock?
    ensures StepOk(s, Owner, OwnerStep(s))
  {
  }

  /** The end of the wait. */
  lemma WaitKeepsInv(s: State)
    requires Inv(s) && Enabled(s, Step(Owner)) && s.owner.OWait?
    ensures StepOk(s, Owner, OwnerStep(s))
  {
  }

  /** The first statement after the wait. */
  lemma ClearBlockedKeepsInv(s: State)
    requires Inv(s) && Enabled(s, Step(Owner)) && s.owner.OClearBlocked?
    ensures StepOk(s, Owner, OwnerStep(s))
  {
  }

  /** What the acquire clears after the wait. */
  lemma ClearStepKeepsInv(s: State)
    requires Inv(s) && Enabled(s, Step(Owner))
    requires var o := s.owner; o.OClearNotified? || o.OClearFlag?
    ensures StepOk(s, Owner, OwnerStep(s))
  {
  }

  /** The call that locks the kernel for the deletion. */
  lemma JoinLockKeepsInv(s: State)
    requires Inv(s) && Enabled(s, Step(Owner))
    requires s.owner.OJoinLock?
    ensures StepOk(s, Owner, OwnerStep(s))
  {
  }

  /** The deletion at the end of a join. */
  lemma JoinDeleteKeepsInv(s: State)
    requires Inv(s) && Enabled(s, Step(Owner))
    requires s.owner.OJoinDelete?
    ensures StepOk(s, Owner, OwnerStep(s))
  {
  }

  /** The end of a join. */
  lemma JoinUnlockKeepsInv(s: State)
    requires Inv(s) && Enabled(s, Step(Owner))
    requires s.owner.OJoinUnlock?
    ensures StepOk(s, Owner, OwnerStep(s))
  {
  }

  /** The test at the start of a detach. */
  lemma DetachCheckKeepsInv(s: State)
    requires Inv(s) && Enabled(s, Step(Owner)) && s.owner.ODetachCheck?
    ensures StepOk(s, Owner, OwnerStep(s))
  {
  }

  /** The lock of a detach. */
  lemma DetachLockKeepsInv(s: State)
    requires Inv(s) && Enabled(s, Step(Owner)) && s.owner.ODetachLock?
    ensures StepOk(s, Owner, OwnerStep(s))
  {
  }

  /** The decision of a detach. */
  lemma DetachTestKeepsInv(s: State)
    requires Inv(s) && Enabled(s, Step(Owner))
    requires s.owner.ODetachTest?
    ensures StepOk(s, Owner, OwnerStep(s))
  {
  }

  /** A detach that finds the context completed. */
  lemma DetachDeleteKeepsInv(s: State)
    requires Inv(s) && Enabled(s, Step(Owner))
    requires s.owner.ODetachDelete?
    ensures StepOk(s, Owner, OwnerStep(s))
  {
  }

  /** A detach that leaves the context to the worker. */
  lemma DetachSetKeepsInv(s: State)
    requires Inv(s) && Enabled(s, Step(Owner))
    requires s.owner.ODetachSet?
    ensures StepOk(s, Owner, OwnerStep(s))
  {
  }

  /** The end of a detach. */
  lemma DetachUnlockKeepsInv(s: State)
    requires Inv(s) && Enabled(s, Step(Owner))
    requires s.owner.ODetachUnlock?
    ensures StepOk(s, Owner, OwnerStep(s))
  {
  }

  lemma WorkerStepKeepsInv(s: State)
    requires Inv(s) && Enabled(s, Step(Worker))
    ensures StepOk(s, Worker, WorkerStep(s))
  {
    match s.worker
    case WInvoke | WRunning | WLock => StartStepKeepsInv(s);
    case WTest | WDelete => CleanupTestKeepsInv(s);
    case WComplete | WNotify | WSignal => CompleteStepKeepsInv(s);
    case WUnlock => ExitStepKeepsInv(s);
  }

  lemma OwnerStepKeepsInv(s: State)
    requires Inv(s) && Enabled(s, Step(Owner))
    ensures StepOk(s, Owner, OwnerStep(s))
  {
    match s.owner
    case OConstruct => ConstructKeepsInv(s);
    case OJoinCheck => JoinCheckKeepsInv(s);
    case OAcquireCheck => AcquireCheckKeepsInv(s);
    case OAcquireLock => AcquireLockKeepsInv(s);
    case OAcquireTest => AcquireTestKeepsInv(s);
    case OTake | OTakeUnlock => TakeStepKeepsInv(s);
    case OSubscribe | OSubscribeUnlock => SubscribeStepKeepsInv(s);
    case OWait => WaitKeepsInv(s);
    case OClearBlocked => ClearBlockedKeepsInv(s);
    case OClearNotified | OClearFlag => ClearStepKeepsInv(s);
    case OJoinLock => JoinLockKeepsInv(s);
    case OJoinDelete => JoinDeleteKeepsInv(s);
    case OJoinUnlock => JoinUnlockKeepsInv(s);
    case ODetachCheck => DetachCheckKeepsInv(s);
    case ODetachLock => DetachLockKeepsInv(s);
    case ODetachTest => DetachTestKeepsInv(s);
    case ODetachDelete => DetachDeleteKeepsInv(s);
    case ODetachSet => DetachSetKeepsInv(s);
    case ODetachUnlock(_) => DetachUnlockKeepsInv(s);
  }

  lemma CallKeepsInv(s: State, e: Event)
    requires Inv(s) && Enabled(s, e) && !e.Step?
    ensures Inv(Next(s, e)) && StepsLeft(Next(s, e)) < StepsLeft(s)
  {
  }

  lemma NextKeepsInv(s: State, e: Event)
    requires Inv(s) && Enabled(s, e)
    ensures Inv(Next(s, e)) && StepsLeft(Next(s, e)) < StepsLeft(s)
    ensures e.Step? ==> LockMoves(s, e.who, Next(s, e))
  {
    match e
    case Step(Worker) => WorkerStepKeepsInv(s);
    case Step(Owner) => OwnerStepKeepsInv(s);
    case _ => CallKeepsInv(s, e);
  }

  // ---- Whole runs ----

  predicate Legal(s: State, es: seq<Event>) {
    LegalRun(Enabled, Next, s, es)
  }

  function Exec(s: State, es: seq<Event>): State {
    EndOf(Next, s, es)
  }

  lemma ExecKeepsInv(s: State, es: seq<Event>)
    requires Inv(s) && Legal(s, es)
    ensures Inv(Exec(s, es))
  {
    forall r, e | Inv(r) && Enabled(r, e)
      ensures Inv(Next(r, e))
    {
      NextKeepsInv(r, e);
    }
    RunKeeps(Enabled, Next, Inv, s, es);
  }

  /** Both sides have run to their end. */
  predicate Finished(s: State) {
    s.worker.WExited? && s.owner.ODone?
  }

  /**
   In every interleaving of a thread created joinable, the context is deleted at most once, exactly once
   when both sides have finished, and a finished join means that the worker has left the context.
   */
  lemma DeletedExactlyOnce(es: seq<Event>)
    requires Legal(Init(false), es)
    ensures var s := Exec(Init(false), es);
      && s.deletes == (if s.alive then 0 else 1)
      && (Finished(s) ==> s.deletes == 1)
      && (s.owner == ODone(Joined) ==> s.worker.WExited?)
  {
    ExecKeepsInv(Init(false), es);
  }

  lemma StepEnabled(s: State)
    requires Inv(s) && !Finished(s)
    ensures Enabled(s, Step(Worker)) || Enabled(s, Step(Owner)) || Enabled(s, CallJoin)
  {
    if s.lock.By? {
      match s.lock.who
      case Worker => assert Enabled(s, Step(Worker));
      case Owner => assert Enabled(s, Step(Owner));
    }
  }

  /** Some step is possible until both sides have finished. */
  lemma NeverStuck(es: seq<Event>)
    requires Legal(Init(false), es)
    ensures var s := Exec(Init(false), es);
      Finished(s) || Enabled(s, Step(Worker)) || Enabled(s, Step(Owner)) || Enabled(s, CallJoin)
  {
    ExecKeepsInv(Init(false), es);
    if !Finished(Exec(Init(false), es)) {
      StepEnabled(Exec(Init(false), es));
    }
  }

  lemma {:induction false} RunsAreBounded(s: State, es: seq<Event>)
    requires Inv(s) && Legal(s, es)
    ensures |es| + StepsLeft(Exec(s, es)) <= StepsLeft(s)
    decreases |es|
  {
    if es != [] {
      NextKeepsInv(s, es[0]);
      RunsAreBounded(Next(s, es[0]), es[1..]);
    }
  }

  /**
   Every interleaving of a thread created joinable ends: it has at most 23 events, and it can go no further
   exactly when both sides have finished. So a join that waits is always woken and always deletes.
   */
  lemma EveryRunFinishes(es: seq<Event>)
    requires Legal(Init(false), es)
    ensures |es| <= 23
    ensures (forall e :: !Enabled(Exec(Init(false), es), e)) <==> Finished(Exec(Init(false), es))
  {
    RunsAreBounded(Init(false), es);
    NeverStuck(es);
  }

  /** `n` steps of the worker and then one of the owner. */
  function WorkerFirst(n: nat): seq<Event> {
    if n == 0 then [Step(Owner)] else [Step(Worker)] + WorkerFirst(n - 1)
  }

  /** Once the context is deleted, the constructor's last read touches it. */
  lemma LateReadTouchesDead(s: State)
    requires s.worker.WUnlock? && s.lock == By(Worker) && s.owner.OConstruct? && !s.alive
    ensures Legal(s, WorkerFirst(1)) && Exec(s, WorkerFirst(1)).touchedDead
  {
    var r := s.(worker := WExited, lock := Free);
    Unfold(Enabled, Next, s, Step(Worker), WorkerFirst(0));
    assert WorkerFirst(0) == [Step(Owner)] + [];
    Unfold(Enabled, Next, r, Step(Owner), []);
  }

  /** The worker of a thread created detached, from the start of its cleanup. */
  lemma DetachedCleanupTouchesDead(s: State)
    requires s.worker.WLock? && s.lock == Free && s.owner.OConstruct? && s.detached
    ensures Legal(s, WorkerFirst(4)) && Exec(s, WorkerFirst(4)).touchedDead
  {
    var s1 := s.(worker := WTest, lock := By(Worker));
    var s2 := Touch(s1).(worker := WDelete);
    var s3 := Delete(s2).(worker := WUnlock);
    LateReadTouchesDead(s3);
    Unfold(Enabled, Next, s2, Step(Worker), WorkerFirst(1));
    Unfold(Enabled, Next, s1, Step(Worker), WorkerFirst(2));
    Unfold(Enabled, Next, s, Step(Worker), WorkerFirst(3));
  }

  /** The worker of a thread created detached can delete the context before the constructor's last read. */
  lemma CreatedDetachedTouchesDead()
    ensures Legal(Init(true), WorkerFirst(6)) && Exec(Init(true), WorkerFirst(6)).touchedDead
  {
    var s1 := Init(true).(worker := WRunning);
    var s2 := Init(true).(worker := WLock);
    DetachedCleanupTouchesDead(s2);
    Unfold(Enabled, Next, s1, Step(Worker), WorkerFirst(4));
    Unfold(Enabled, Next, Init(true), Step(Worker), WorkerFirst(5));
  }

  /** No run reads or writes a deleted context if and only if the thread is created joinable. */
  lemma SafeIffCreatedJoinable(createdDetached: bool)
    ensures (forall es :: Legal(Init(createdDetached), es) ==> !Exec(Init(createdDetached), es).touchedDead)
       <==> !createdDetached
  {
    if createdDetached {
      CreatedDetachedTouchesDead();
    } else {
      forall es | Legal(Init(false), es)
        ensures !Exec(Init(false), es).touchedDead
      {
        ExecKeepsInv(Init(false), es);
      }
    }
  }

  // ---- The operations in their imperative form ----

  const COMPLETED: bv8 := 2
  const DETACHED: bv8 := 4

  /** `n` steps of the worker in a row. */
  function WorkerSteps(s: State, n: nat): State
    decreases n
  {
    if n == 0 then s else WorkerSteps(WorkerStep(s), n - 1)
  }

  /** The worker's locked cleanup of a detached context takes four steps. */
  lemma CleanupDeletes(s: State)
    requires s.worker.WLock? && s.detached
    ensures WorkerSteps(s, 4) == Delete(Touch(s)).(worker := WExited, lock := Free)
  {
    var d := Touch(s).(lock := By(Worker), worker := WDelete);
    FourSteps(s);
    assert WorkerStep(WorkerStep(s)) == d;
    assert WorkerStep(WorkerStep(d)) == Delete(Touch(s)).(worker := WExited, lock := Free);
  }

  lemma FourSteps(s: State)
    ensures WorkerSteps(s, 4) == WorkerStep(WorkerStep(WorkerStep(WorkerStep(s))))
  {
    assert WorkerSteps(s, 4) == WorkerSteps(WorkerStep(WorkerStep(s)), 2);
  }

  /** The worker's locked cleanup of any other context takes six. */
  lemma CleanupMarks(s: State)
    requires s.worker.WLock? && !s.detached
    ensures WorkerSteps(s, 6) == Touch(s).(worker := WExited, lock := Free,
                                           completed := true, notified := true, flag := s.flag || s.blocked)
  {
    var c := Touch(s).(lock := By(Worker), worker := WComplete);
    assert WorkerStep(WorkerStep(s)) == c;
    assert WorkerSteps(s, 6) == WorkerSteps(WorkerStep(WorkerStep(s)), 4);
    FourSteps(c);
    var n := c.(worker := WSignal, completed := true, notified := true);
    assert WorkerStep(WorkerStep(c)) == n;
    assert WorkerStep(WorkerStep(n)) == n.(worker := WExited, lock := Free, flag := s.flag || s.blocked);
  }

  /** The worker's locked cleanup deletes a detached context, and marks and notifies any other one. */
  lemma CleanupEffect(s: State)
    requires s.worker.WLock?
    ensures s.detached ==>
      WorkerSteps(s, 4) == Delete(Touch(s)).(worker := WExited, lock := Free)
    ensures !s.detached ==>
      WorkerSteps(s, 6) == Touch(s).(worker := WExited, lock := Free,
                                     completed := true, notified := true, flag := s.flag || s.blocked)
  {
    if s.detached {
      CleanupDeletes(s);
    } else {
      CleanupMarks(s);
    }
  }

  /** Once it has locked the kernel, a detach deletes a completed context and marks any other one. */
  lemma DetachEffect(s: State)
    requires s.owner.ODetachTest?
    ensures var d := OwnerStep(OwnerStep(s));
      && d == (if s.completed then Delete(Touch(s)).(owner := ODetachUnlock(Reaped))
               else Touch(s).(owner := ODetachUnlock(LeftBehind), detached := true))
      && OwnerStep(d) == d.(owner := ODone(d.owner.end), lock := Free)
  {
  }

  /** The heap context: two bits in one byte, and the join notification with the owner's wait flag. */
  class Context {
    var bits: bv8
    var notified: bool
    var blocked: bool
    var flag: bool
    var deletes: nat

    predicate Completed()
      reads this
    {
      bits & COMPLETED == COMPLETED
    }

    predicate Detached()
      reads this
    {
      bits & DETACHED == DETACHED
    }

    /** The object shows the context of a state of the step system. */
    ghost predicate Shows(s: State)
      reads this
    {
      && s.completed == Completed()
      && s.detached == Detached()
      && s.notified == notified
      && s.blocked == blocked
      && s.flag == flag
      && s.deletes == deletes
    }

    constructor (createdDetached: bool)
      ensures Shows(Init(createdDetached))
    {
      bits := if createdDetached then DETACHED else 0;
      notified, blocked, flag, deletes := false, false, false, 0;
    }

    method SetCompleted()
      modifies this
      ensures Completed() && Detached() == old(Detached())
      ensures bits == old(bits) | 2
      ensures notified && flag == (old(flag) || blocked)
      ensures blocked == old(blocked) && deletes == old(deletes)
    {
      bits := bits | COMPLETED;
      notified := true;
      if blocked {
        flag := true;
      }
    }

    method SetDetached()
      modifies this`bits
      ensures Detached() && Completed() == old(Completed())
      ensures bits == old(bits) | 4
    {
      bits := bits | DETACHED;
    }

    method DeleteOrComplete()
      modifies this
      ensures blocked == old(blocked) && Detached() == old(Detached()) == (old(bits) & 4 == 4)
      ensures Detached() ==> deletes == old(deletes) + 1
      ensures Detached() ==> bits == old(bits) && notified == old(notified) && flag == old(flag)
      ensures !Detached() ==> deletes == old(deletes) && Completed()
      ensures !Detached() ==> bits == old(bits) | 2 && notified && flag == (old(flag) || old(blocked))
    {
      if Detached() {
        deletes := deletes + 1;
      } else {
        SetCompleted();
      }
    }

    /** The cleanup of the thread entry point makes the worker's locked steps in a row. */
    method FinishWorker(ghost s: State)
      requires Shows(s) && s.worker.WLock?
      modifies this
      ensures Shows(WorkerSteps(s, if s.detached then 4 else 6))
      ensures old(bits) & 4 == 4 ==> deletes == old(deletes) + 1
      ensures old(bits) & 4 == 4 ==> bits == old(bits) && notified == old(notified) && flag == old(flag)
      ensures old(bits) & 4 != 4 ==> deletes == old(deletes)
      ensures old(bits) & 4 != 4 ==> bits == old(bits) | 2 && notified && flag == (old(flag) || old(blocked))
    {
      CleanupEffect(s);
      DeleteOrComplete();
    }

    method DeleteOrDetach() returns (freed: bool)
      modifies this`bits, this`deletes
      ensures freed == old(Completed()) == (old(bits) & 2 == 2)
      ensures deletes == old(deletes) + if freed then 1 else 0
      ensures bits == if freed then old(bits) else old(bits) | 4
      ensures Completed() == old(Completed()) && Detached() == (old(Detached()) || !freed)
    {
      if Completed() {
        deletes := deletes + 1;
        return true;
      }
      SetDetached();
      return false;
    }

    /** The locked section of `detach()` makes the owner's steps up to the unlock. */
    method Detach(ghost s: State) returns (freed: bool)
      requires Shows(s) && s.owner.ODetachTest?
      modifies this
      ensures OwnerStep(OwnerStep(s)).owner == ODetachUnlock(if freed then Reaped else LeftBehind)
      ensures Shows(OwnerStep(OwnerStep(s)))
      ensures freed <==> old(bits) & 2 == 2
      ensures deletes == old(deletes) + if freed then 1 else 0
      ensures bits == if freed then old(bits) else old(bits) | 4
      ensures notified == old(notified) && blocked == old(blocked) && flag == old(flag)
    {
      DetachEffect(s);
      freed := DeleteOrDetach();
    }
  }
}
