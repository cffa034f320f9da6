/**
 The thread context model next to the nested kernel lock. In `ThreadContexts` taking the lock is one step and
 the other side stands still while it is held. Here both sides run on a processor that switches between any two
 statements, and take the lock with the pre-emptible `lock()` and `unlock()` of `KernelLocking`.
 */
module PreemptiveThreads {
  import opened StepSystems
  import opened ThreadContexts
  import K = KernelLocking

  /** The two threads of the kernel lock model. */
  function Id(who: Party): nat {
    if who.Worker? then 0 else 1
  }

  // ---- Both sides under pre-emption ----

  /** The context and the positions of both sides, with the kernel lock. The first one's lock field is not asked. */
  datatype Machine = Machine(context: State, kernel: K.State)

  /** A context switch, the next statement of the running side, or the owner's choice of a call. */
  datatype Action = Preempt(who: Party) | Move | Call(join: bool)

  function Start(first: Party): Machine {
    Machine(Init(false), K.Init(Id(first)))
  }

  function RunningSide(k: K.State): Party {
    if k.running == Id(Worker) then Worker else Owner
  }

  /** Where the running side is in the kernel lock, and how deep. */
  function Own(m: Machine): K.Thread {
    K.Running(m.kernel)
  }

  /** The side has a step to take, whatever the other one does. */
  predicate CanMove(s: State, who: Party) {
    match who
    case Worker => !s.worker.WExited?
    case Owner => !s.owner.OIdle? && !s.owner.ODone? && (s.owner.OWait? ==> s.flag)
  }

  function SideStep(s: State, who: Party): State {
    if who.Worker? then WorkerStep(s) else OwnerStep(s)
  }

  /** The release of the join notification takes the kernel lock again, inside the locked cleanup. */
  predicate AtNested(s: State, who: Party, depth: nat) {
    who.Worker? && s.worker.WNotify? && depth == 1
  }

  predicate MachineEnabled(m: Machine, a: Action) {
    match a
    case Preempt(who) => K.Enabled(m.kernel, K.Switch(Id(who)))
    case Move => !Own(m).pc.Idle? || CanMove(m.context, RunningSide(m.kernel))
    case Call(_) => RunningSide(m.kernel).Owner? && Own(m).pc.Idle? && m.context.owner.OIdle?
  }

  /** What an action is for the kernel lock: a statement of a call in progress, a new call, or nothing. */
  function KernelEvents(m: Machine, a: Action): seq<K.Event> {
    match a
    case Preempt(who) => [K.Switch(Id(who))]
    case Call(_) => []
    case Move =>
      var s, who := m.context, RunningSide(m.kernel);
      if !Own(m).pc.Idle? then [K.Run]
      else if AtLock(s, who) || AtNested(s, who, Own(m).depth) then [K.CallLock]
      else if AtUnlock(s, who) then [K.CallUnlock]
      else []
  }

  /**
   The move ends a step of the thread context: an access of its own, or the return of the outermost `lock()`
   or `unlock()`.
   */
  predicate Completes(m: Machine) {
    var th, next := Own(m), K.Running(K.Next(m.kernel, K.Run));
    if th.pc.Idle? then KernelEvents(m, Move) == []
    else next.pc.Idle? && if th.pc.StoreInc? then next.depth == 1 else next.depth == 0
  }

  /** What an action is for the thread context. */
  function ContextEvents(m: Machine, a: Action): seq<Event> {
    match a
    case Preempt(_) => []
    case Call(join) => [if join then CallJoin else CallDetach]
    case Move => if Completes(m) then [Step(RunningSide(m.kernel))] else []
  }

  /** The state after an action; an action that is not enabled does nothing. */
  function MachineNext(m: Machine, a: Action): Machine {
    if !MachineEnabled(m, a) then m
    else
      var kernel := K.Exec(m.kernel, KernelEvents(m, a));
      match a
      case Preempt(_) => m.(kernel := kernel)
      case Call(join) => m.(context := m.context.(owner := if join then OJoinCheck else ODetachCheck))
      case Move =>
        Machine(if Completes(m) then SideStep(m.context, RunningSide(m.kernel)) else m.context, kernel)
  }

  predicate MachineLegal(m: Machine, xs: seq<Action>) {
    LegalRun(MachineEnabled, MachineNext, m, xs)
  }

  function MachineExec(m: Machine, xs: seq<Action>): Machine {
    EndOf(MachineNext, m, xs)
  }

  // ---- Invariant ----

  /** How often a side outside every call of the lock holds it. */
  predicate DepthOk(s: State, who: Party, depth: nat) {
    if s.lock != By(who) then depth == 0
    else if who.Worker? && s.worker.WSignal? then depth == 2
    else if who.Worker? && (s.worker.WNotify? || s.worker.WUnlock?) then depth == 1 || depth == 2
    else depth == 1
  }

  /** Where a side is in the kernel lock fits where it is in the thread context. */
  predicate Fits(s: State, who: Party, th: K.Thread) {
    match th.pc
    case Idle => DepthOk(s, who, th.depth)
    case Test | LockKernel | StorePrev(_) | LoadInc | StoreInc(_) =>
      (AtLock(s, who) && th.depth == 0 && s.lock != By(who)) || (AtNested(s, who, th.depth) && s.lock == By(who))
    case LoadDec | StoreDec(_) => AtUnlock(s, who) && s.lock == By(who) && DepthOk(s, who, th.depth)
    case TestZero => AtUnlock(s, who) && s.lock == By(who) && DepthOk(s, who, th.depth + 1)
    case Restore => AtUnlock(s, who) && s.lock == By(who) && th.depth == 0
  }

  ghost predicate MachineOk(m: Machine) {
    && K.Inv(m.kernel)
    && !m.kernel.direct
    && (m.kernel.running == Id(Worker) || m.kernel.running == Id(Owner))
    && Inv(m.context)
    && Fits(m.context, Worker, K.ThreadOf(m.kernel, Id(Worker)))
    && Fits(m.context, Owner, K.ThreadOf(m.kernel, Id(Owner)))
  }

  function Other(who: Party): Party {
    if who.Worker? then Owner else Worker
  }

  /** The side that has the lock in the thread context is the one that is running: nobody runs beside it. */
  lemma HolderRuns(m: Machine)
    requires MachineOk(m)
    ensures MayRun(m.context, RunningSide(m.kernel))
    ensures K.OutsideOk(K.ThreadOf(m.kernel, Id(Other(RunningSide(m.kernel)))))
  {
    var other := Other(RunningSide(m.kernel));
    assert K.OutsideOk(K.ThreadOf(m.kernel, Id(other)));
    assert m.context.lock != By(other);
  }

  lemma OneKernelEvent(k: K.State, e: K.Event)
    requires K.Enabled(k, e)
    ensures K.Legal(k, [e]) && K.Exec(k, [e]) == K.Next(k, e)
  {
    assert [e] + [] == [e];
    Unfold(K.Enabled, K.Next, k, e, []);
  }

  lemma OneContextEvent(s: State, e: Event)
    requires Enabled(s, e)
    ensures Legal(s, [e]) && Exec(s, [e]) == Next(s, e)
  {
    assert [e] + [] == [e];
    Unfold(Enabled, Next, s, e, []);
  }

  /** The running thread after a statement or the start of a call. */
  function ThreadAfter(k: K.State, e: K.Event): K.Thread {
    match e
    case CallLock => K.Running(k).(pc := K.Test)
    case CallUnlock => K.Running(k).(pc := K.LoadDec)
    case _ => K.StepThread(k)
  }

  lemma KernelFrame(k: K.State, e: K.Event)
    requires K.Enabled(k, e) && (e.Run? || e.CallLock? || e.CallUnlock?)
    ensures var r := K.Next(k, e);
      && r.running == k.running
      && r.direct == k.direct
      && K.Running(r) == ThreadAfter(k, e)
      && forall t :: t != k.running ==> K.ThreadOf(r, t) == K.ThreadOf(k, t)
  {
  }

  /** `r` is what the action makes of both parts, as the events of both models say. */
  ghost predicate Projects(m: Machine, a: Action, r: Machine) {
    && Legal(m.context, ContextEvents(m, a))
    && Exec(m.context, ContextEvents(m, a)) == r.context
    && K.Legal(m.kernel, KernelEvents(m, a))
    && K.Exec(m.kernel, KernelEvents(m, a)) == r.kernel
  }

  ghost predicate ActionOk(m: Machine, a: Action) {
    MachineOk(MachineNext(m, a)) && Projects(m, a, MachineNext(m, a))
  }

  lemma PreemptOk(m: Machine, who: Party)
    requires MachineOk(m) && MachineEnabled(m, Preempt(who))
    ensures ActionOk(m, Preempt(who))
  {
    OneKernelEvent(m.kernel, K.Switch(Id(who)));
    K.NextKeepsInv(m.kernel, K.Switch(Id(who)));
  }

  lemma CallOk(m: Machine, join: bool)
    requires MachineOk(m) && MachineEnabled(m, Call(join))
    ensures ActionOk(m, Call(join))
  {
    HolderRuns(m);
    var e := if join then CallJoin else CallDetach;
    OneContextEvent(m.context, e);
    NextKeepsInv(m.context, e);
  }

  /** A side that stands outside the lock is not moved by a step of the side that runs. */
  lemma OtherFits(s: State, who: Party, r: State, th: K.Thread)
    requires LockMoves(s, who, r) && Fits(s, Other(who), th) && K.OutsideOk(th)
    ensures Fits(r, Other(who), th)
  {
  }

  /** An access that leaves the lock alone leaves the depth that goes with it. */
  lemma AccessKeepsDepth(s: State, who: Party, depth: nat)
    requires Inv(s) && Enabled(s, Step(who)) && DepthOk(s, who, depth)
    requires !AtLock(s, who) && !AtUnlock(s, who) && !AtNested(s, who, depth)
    ensures DepthOk(SideStep(s, who), who, depth)
  {
    NextKeepsInv(s, Step(who));
    if who.Worker? {
      match s.worker
      case WInvoke => assert WorkerStep(s).worker == WRunning;
      case WRunning => assert WorkerStep(s).worker == WLock;
      case WTest => assert WorkerStep(s).worker == WDelete || WorkerStep(s).worker == WComplete;
      case WDelete => assert WorkerStep(s).worker == WUnlock;
      case WComplete => assert WorkerStep(s).worker == WNotify;
      case WNotify => assert WorkerStep(s).worker == WSignal;
      case WSignal => assert WorkerStep(s).worker == WUnlock;
    }
  }

  /** An access of the running side, outside every call of the lock. */
  lemma AccessOk(m: Machine)
    requires MachineOk(m) && MachineEnabled(m, Move) && Own(m).pc.Idle? && KernelEvents(m, Move) == []
    ensures ActionOk(m, Move)
  {
    var s, who := m.context, RunningSide(m.kernel);
    HolderRuns(m);
    assert Enabled(s, Step(who));
    OneContextEvent(s, Step(who));
    NextKeepsInv(s, Step(who));
    AccessKeepsDepth(s, who, Own(m).depth);
    OtherFits(s, who, SideStep(s, who), K.ThreadOf(m.kernel, Id(Other(who))));
  }

  /** The start of a call of the lock. */
  lemma StartOk(m: Machine)
    requires MachineOk(m) && MachineEnabled(m, Move) && Own(m).pc.Idle? && KernelEvents(m, Move) != []
    ensures ActionOk(m, Move)
  {
    var e := KernelEvents(m, Move)[0];
    assert KernelEvents(m, Move) == [e] && K.Enabled(m.kernel, e);
    OneKernelEvent(m.kernel, e);
    K.NextKeepsInv(m.kernel, e);
    KernelFrame(m.kernel, e);
  }

  /** A statement inside a call of the lock. */
  lemma StatementOk(m: Machine)
    requires MachineOk(m) && !Own(m).pc.Idle? && !Completes(m)
    ensures ActionOk(m, Move)
  {
    OneKernelEvent(m.kernel, K.Run);
    K.NextKeepsInv(m.kernel, K.Run);
    KernelFrame(m.kernel, K.Run);
  }

  /** Where an outermost call of the lock returns, the thread context takes or gives back the lock. */
  lemma ReturnStep(m: Machine)
    requires MachineOk(m) && !Own(m).pc.Idle? && Completes(m)
    ensures var who := RunningSide(m.kernel);
      && Enabled(m.context, Step(who))
      && (AtLock(m.context, who) || AtUnlock(m.context, who))
      && DepthOk(SideStep(m.context, who), who, StepDepth(m))
  {
    var s, who := m.context, RunningSide(m.kernel);
    HolderRuns(m);
    KernelFrame(m.kernel, K.Run);
    assert AtLock(s, who) || AtUnlock(s, who);
    NextKeepsInv(s, Step(who));
  }

  /** How deep the running side is after its next statement of the lock. */
  function StepDepth(m: Machine): nat {
    K.StepThread(m.kernel).depth
  }

  /** The return of an outermost call of the lock. */
  lemma ReturnOk(m: Machine)
    requires MachineOk(m) && !Own(m).pc.Idle? && Completes(m)
    ensures ActionOk(m, Move)
  {
    var s, who := m.context, RunningSide(m.kernel);
    HolderRuns(m);
    ReturnStep(m);
    OneKernelEvent(m.kernel, K.Run);
    K.NextKeepsInv(m.kernel, K.Run);
    KernelFrame(m.kernel, K.Run);
    OneContextEvent(s, Step(who));
    NextKeepsInv(s, Step(who));
    OtherFits(s, who, SideStep(s, who), K.ThreadOf(m.kernel, Id(Other(who))));
  }

  lemma ActionKeepsOk(m: Machine, a: Action)
    requires MachineOk(m) && MachineEnabled(m, a)
    ensures ActionOk(m, a)
  {
    match a
    case Preempt(who) => PreemptOk(m, who);
    case Call(join) => CallOk(m, join);
    case Move =>
      if !Own(m).pc.Idle? {
        if Completes(m) {
          ReturnOk(m);
        } else {
          StatementOk(m);
        }
      } else if KernelEvents(m, Move) == [] {
        AccessOk(m);
      } else {
        StartOk(m);
      }
  }

  // ---- Whole runs ----

  function ContextRun(m: Machine, xs: seq<Action>): seq<Event>
    decreases |xs|
  {
    if xs == [] then [] else ContextEvents(m, xs[0]) + ContextRun(MachineNext(m, xs[0]), xs[1..])
  }

  function KernelRun(m: Machine, xs: seq<Action>): seq<K.Event>
    decreases |xs|
  {
    if xs == [] then [] else KernelEvents(m, xs[0]) + KernelRun(MachineNext(m, xs[0]), xs[1..])
  }

  lemma {:induction false} RunProjects(m: Machine, xs: seq<Action>)
    requires MachineOk(m) && MachineLegal(m, xs)
    ensures MachineOk(MachineExec(m, xs))
    ensures Legal(m.context, ContextRun(m, xs)) && Exec(m.context, ContextRun(m, xs)) == MachineExec(m, xs).context
    ensures K.Legal(m.kernel, KernelRun(m, xs)) && K.Exec(m.kernel, KernelRun(m, xs)) == MachineExec(m, xs).kernel
    decreases |xs|
  {
    if xs != [] {
      var r := MachineNext(m, xs[0]);
      ActionKeepsOk(m, xs[0]);
      RunProjects(r, xs[1..]);
      RunAppend(Enabled, Next, m.context, ContextEvents(m, xs[0]), ContextRun(r, xs[1..]));
      RunAppend(K.Enabled, K.Next, m.kernel, KernelEvents(m, xs[0]), KernelRun(r, xs[1..]));
    }
  }

  /**
   Every pre-emptible run, with the processor going to the other side between any two statements while the
   kernel is unlocked, is a legal run of the kernel lock and, for the thread context, a legal run in which the
   lock is one step. So what holds in every run of the thread context holds under pre-emption.
   */
  lemma PreemptibleRunsAreContextRuns(first: Party, xs: seq<Action>)
    requires MachineLegal(Start(first), xs)
    ensures var m := Start(first);
      && Legal(Init(false), ContextRun(m, xs))
      && Exec(Init(false), ContextRun(m, xs)) == MachineExec(m, xs).context
      && K.Legal(K.Init(Id(first)), KernelRun(m, xs))
      && K.Exec(K.Init(Id(first)), KernelRun(m, xs)) == MachineExec(m, xs).kernel
  {
    RunProjects(Start(first), xs);
  }

  /** Under pre-emption too, nothing is touched once it is deleted and the context is deleted exactly once. */
  lemma PreemptibleRunsAreSafe(first: Party, xs: seq<Action>)
    requires MachineLegal(Start(first), xs)
    ensures var s := MachineExec(Start(first), xs).context;
      && !s.touchedDead
      && s.deletes == (if s.alive then 0 else 1)
      && (Finished(s) ==> s.deletes == 1)
      && (s.owner == ODone(Joined) ==> s.worker.WExited?)
  {
    PreemptibleRunsAreContextRuns(first, xs);
    var es := ContextRun(Start(first), xs);
    ExecKeepsInv(Init(false), es);
    DeletedExactlyOnce(es);
  }

  // ---- Every run of the thread context happens under pre-emption ----

  /** No side is inside a call of the lock. */
  predicate Quiet(m: Machine) {
    K.ThreadOf(m.kernel, Id(Worker)).pc.Idle? && K.ThreadOf(m.kernel, Id(Owner)).pc.Idle?
  }

  /** The most moves of the running side until a step of the thread context is complete. */
  function MovesLeft(m: Machine): nat {
    var s, who, th := m.context, RunningSide(m.kernel), Own(m);
    match th.pc
    case Idle =>
      if AtLock(s, who) || AtNested(s, who, th.depth) then 7
      else if AtUnlock(s, who) then (if th.depth < 2 then 5 else 9)
      else 1
    case Test => 6
    case LockKernel => 5
    case StorePrev(_) => 4
    case LoadInc => 3
    case StoreInc(_) => 2
    case LoadDec => if th.depth < 2 then 4 else 8
    case StoreDec(_) => if th.depth < 2 then 3 else 7
    case TestZero => if th.depth < 1 then 2 else 6
    case Restore => 1
  }

  /** The running side moves until a step is complete, `n` times at most. */
  function Drive(m: Machine, n: nat): seq<Action>
    decreases n
  {
    if n == 0 || Completes(m) then [Move] else [Move] + Drive(MachineNext(m, Move), n - 1)
  }

  /** A move that completes nothing: the same side goes on, with fewer moves to go. */
  ghost predicate Onward(m: Machine, r: Machine) {
    && MachineEnabled(r, Move)
    && r.context == m.context
    && r.kernel.running == m.kernel.running
    && 0 < MovesLeft(r) < MovesLeft(m)
    && forall t :: t != m.kernel.running ==> K.ThreadOf(r.kernel, t) == K.ThreadOf(m.kernel, t)
  }

  lemma StartGoesOn(m: Machine)
    requires MachineOk(m) && MachineEnabled(m, Move) && Own(m).pc.Idle? && KernelEvents(m, Move) != []
    ensures Onward(m, MachineNext(m, Move))
  {
    var e := KernelEvents(m, Move)[0];
    assert KernelEvents(m, Move) == [e] && K.Enabled(m.kernel, e);
    OneKernelEvent(m.kernel, e);
    KernelFrame(m.kernel, e);
  }

  /** A statement of a `lock()`. */
  lemma LockGoesOn(m: Machine)
    requires MachineOk(m) && !Completes(m)
    requires var pc := Own(m).pc; pc.Test? || pc.LockKernel? || pc.StorePrev? || pc.LoadInc? || pc.StoreInc?
    ensures Onward(m, MachineNext(m, Move))
  {
    OneKernelEvent(m.kernel, K.Run);
    KernelFrame(m.kernel, K.Run);
  }

  /** A statement of an `unlock()`. */
  lemma UnlockGoesOn(m: Machine)
    requires MachineOk(m) && !Completes(m)
    requires var pc := Own(m).pc; pc.LoadDec? || pc.StoreDec? || pc.TestZero? || pc.Restore?
    ensures Onward(m, MachineNext(m, Move))
  {
    OneKernelEvent(m.kernel, K.Run);
    KernelFrame(m.kernel, K.Run);
  }

  lemma MoveGoesOn(m: Machine)
    requires MachineOk(m) && MachineEnabled(m, Move) && !Completes(m)
    ensures Onward(m, MachineNext(m, Move))
  {
    match Own(m).pc
    case Idle => StartGoesOn(m);
    case LoadDec | StoreDec(_) | TestZero | Restore => UnlockGoesOn(m);
    case _ => LockGoesOn(m);
  }

  /** A move that completes a step leaves its side outside every call of the lock, and the others as they are. */
  lemma CompletionIsQuiet(m: Machine)
    requires MachineOk(m) && MachineEnabled(m, Move) && Completes(m)
    ensures var r := MachineNext(m, Move);
      && Own(r).pc.Idle?
      && r.kernel.running == m.kernel.running
      && forall t :: t != m.kernel.running ==> K.ThreadOf(r.kernel, t) == K.ThreadOf(m.kernel, t)
  {
    if !Own(m).pc.Idle? {
      OneKernelEvent(m.kernel, K.Run);
      KernelFrame(m.kernel, K.Run);
    }
  }

  /** The first action of a run, and what it is for the thread context. */
  lemma OneAction(m: Machine, a: Action, rest: seq<Action>)
    ensures MachineLegal(m, [a] + rest) <==> MachineEnabled(m, a) && MachineLegal(MachineNext(m, a), rest)
    ensures MachineExec(m, [a] + rest) == MachineExec(MachineNext(m, a), rest)
    ensures ContextRun(m, [a] + rest) == ContextEvents(m, a) + ContextRun(MachineNext(m, a), rest)
  {
    assert ([a] + rest)[1..] == rest;
    Unfold(MachineEnabled, MachineNext, m, a, rest);
  }

  lemma {:induction false} ContextRunAppend(m: Machine, a: seq<Action>, b: seq<Action>)
    ensures ContextRun(m, a + b) == ContextRun(m, a) + ContextRun(MachineExec(m, a), b)
    decreases |a|
  {
    if a == [] {
      assert a + b == b;
    } else {
      ContextRunAppend(MachineNext(m, a[0]), a[1..], b);
      assert a + b == [a[0]] + (a[1..] + b);
      OneAction(m, a[0], a[1..] + b);
    }
  }

  /** A pre-emptible run that is `es` for the thread context and ends with no side inside a call of the lock. */
  ghost predicate Leads(m: Machine, xs: seq<Action>, es: seq<Event>) {
    && MachineLegal(m, xs)
    && ContextRun(m, xs) == es
    && MachineOk(MachineExec(m, xs))
    && Quiet(MachineExec(m, xs))
  }

  lemma LeadsOn(m: Machine, a: seq<Action>, ea: seq<Event>, b: seq<Action>, eb: seq<Event>)
    requires Leads(m, a, ea) && Leads(MachineExec(m, a), b, eb)
    ensures Leads(m, a + b, ea + eb) && MachineExec(m, a + b) == MachineExec(MachineExec(m, a), b)
  {
    RunAppend(MachineEnabled, MachineNext, m, a, b);
    ContextRunAppend(m, a, b);
  }

  /** Driving the running side from a state in which the other one is outside the lock completes one step of it. */
  lemma {:induction false} DriveCompletes(m: Machine, n: nat)
    requires MachineOk(m) && MachineEnabled(m, Move) && n >= MovesLeft(m)
    requires K.ThreadOf(m.kernel, Id(Other(RunningSide(m.kernel)))).pc.Idle?
    ensures Leads(m, Drive(m, n), [Step(RunningSide(m.kernel))])
    decreases n
  {
    var r := MachineNext(m, Move);
    ActionKeepsOk(m, Move);
    if Completes(m) {
      CompletionIsQuiet(m);
      assert [Move] + [] == [Move];
      OneAction(m, Move, []);
    } else {
      MoveGoesOn(m);
      DriveCompletes(r, n - 1);
      OneAction(m, Move, Drive(r, n - 1));
    }
  }

  /** A side gets the processor, or has it, exactly when the thread context lets it run. */
  predicate CanRun(k: K.State, who: Party) {
    k.running == Id(who) || K.Enabled(k, K.Switch(Id(who)))
  }

  lemma CanRunIff(m: Machine, who: Party)
    requires MachineOk(m) && Quiet(m)
    ensures MayRun(m.context, who) <==> CanRun(m.kernel, who)
  {
    HolderRuns(m);
    var side := RunningSide(m.kernel);
    assert K.ThreadOf(m.kernel, Id(side)) == K.Running(m.kernel);
  }

  /** The side of an event. */
  function SideOf(e: Event): Party {
    if e.Step? then e.who else Owner
  }

  /** The processor goes to a side if it is not there yet. */
  function SwitchTo(m: Machine, who: Party): seq<Action> {
    if m.kernel.running == Id(who) then [] else [Preempt(who)]
  }

  lemma SwitchArrives(m: Machine, who: Party)
    requires MachineOk(m) && Quiet(m) && MayRun(m.context, who)
    ensures Leads(m, SwitchTo(m, who), [])
    ensures var r := MachineExec(m, SwitchTo(m, who));
      r.context == m.context && r.kernel.running == Id(who)
  {
    if m.kernel.running != Id(who) {
      CanRunIff(m, who);
      ActionKeepsOk(m, Preempt(who));
      OneKernelEvent(m.kernel, K.Switch(Id(who)));
      assert [Preempt(who)] + [] == [Preempt(who)];
      OneAction(m, Preempt(who), []);
    }
  }

  /** The actions behind one event of the thread context. */
  function ActionsFor(m: Machine, e: Event): seq<Action> {
    var r := MachineExec(m, SwitchTo(m, SideOf(e)));
    SwitchTo(m, SideOf(e)) + if e.Step? then Drive(r, MovesLeft(r)) else [Call(e.CallJoin?)]
  }

  lemma CallHappens(m: Machine, join: bool)
    requires MachineOk(m) && Quiet(m) && MachineEnabled(m, Call(join))
    ensures Leads(m, [Call(join)], [if join then CallJoin else CallDetach])
  {
    ActionKeepsOk(m, Call(join));
    assert [Call(join)] + [] == [Call(join)];
    OneAction(m, Call(join), []);
  }

  lemma EventHappens(m: Machine, e: Event)
    requires MachineOk(m) && Quiet(m) && Enabled(m.context, e)
    ensures Leads(m, ActionsFor(m, e), [e])
  {
    var switch := SwitchTo(m, SideOf(e));
    var r := MachineExec(m, switch);
    SwitchArrives(m, SideOf(e));
    assert [] + [e] == [e];
    if e.Step? {
      DriveCompletes(r, MovesLeft(r));
      LeadsOn(m, switch, [], Drive(r, MovesLeft(r)), [e]);
    } else {
      CallHappens(r, e.CallJoin?);
      LeadsOn(m, switch, [], [Call(e.CallJoin?)], [e]);
    }
  }

  /** The actions behind a run of the thread context. */
  function ActionRun(m: Machine, es: seq<Event>): seq<Action>
    decreases |es|
  {
    if es == [] then [] else
      ActionsFor(m, es[0]) + ActionRun(MachineExec(m, ActionsFor(m, es[0])), es[1..])
  }

  lemma {:induction false} RunHappens(m: Machine, es: seq<Event>)
    requires MachineOk(m) && Quiet(m) && Legal(m.context, es)
    ensures Leads(m, ActionRun(m, es), es)
    decreases |es|
  {
    if es != [] {
      var now := ActionsFor(m, es[0]);
      var r := MachineExec(m, now);
      EventHappens(m, es[0]);
      RunProjects(m, now);
      OneContextEvent(m.context, es[0]);
      RunHappens(r, es[1..]);
      LeadsOn(m, now, [es[0]], ActionRun(r, es[1..]), es[1..]);
      assert [es[0]] + es[1..] == es;
    }
  }

  /**
   The lock of the thread context is the nested kernel lock: every run of it happens, event by event, in a
   pre-emptible run, and where that ends a side may run exactly when the kernel lock lets it. With
   `PreemptibleRunsAreContextRuns`, the runs of the thread context are exactly those that pre-emption allows.
   */
  lemma LockIsKernelLock(es: seq<Event>)
    requires Legal(Init(false), es)
    ensures var m := Start(Worker);
      var xs := ActionRun(m, es);
      && MachineLegal(m, xs)
      && ContextRun(m, xs) == es
      && MachineExec(m, xs).context == Exec(Init(false), es)
      && forall who :: MayRun(Exec(Init(false), es), who) <==> CanRun(MachineExec(m, xs).kernel, who)
  {
    var m := Start(Worker);
    RunHappens(m, es);
    RunProjects(m, ActionRun(m, es));
    forall who: Party
      ensures MayRun(Exec(Init(false), es), who) <==> CanRun(MachineExec(m, ActionRun(m, es)).kernel, who)
    {
      CanRunIff(MachineExec(m, ActionRun(m, es)), who);
    }
  }
}
