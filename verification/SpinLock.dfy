/**
 Interrupt spin locks in thread context. Taking one saves BASEPRI in that lock and raises it; a counter
 shared by all locks decides which unlock writes a saved value back.
 */
module InterruptSpinLocks {
  import opened StepSystems
  import opened Basics

  /** The value of BASEPRI that masks interrupts. Results state it as the number. */
  const USER_NMI_PRIORITY: nat := 16

  /**
   `saved` is the field of each lock and `held` the locks whose `locked_` field is set. `base` is the
   value of BASEPRI before the first of them was taken, and `opener` that first lock while it is held.
   */
  datatype State = State(
    basepri: nat,
    nested: int,
    saved: map<nat, nat>,
    held: set<nat>,
    base: nat,
    opener: Option<nat>)

  /** `Write` is any other code changing BASEPRI while no lock is held. */
  datatype Event = Lock(l: nat) | Unlock(l: nat) | Write(value: nat)

  function Init(basepri: nat): State {
    State(basepri, 0, map[], {}, basepri, None)
  }

  function SavedIn(s: State, l: nat): nat {
    if l in s.saved then s.saved[l] else 0
  }

  /** A lock is not taken twice, and only a held lock is released. */
  predicate Enabled(s: State, e: Event) {
    match e
    case Lock(l) => l !in s.held
    case Unlock(l) => l in s.held
    case Write(_) => s.held == {}
  }

  /** The state after an event; an event that is not enabled does nothing. */
  function Next(s: State, e: Event): State {
    if !Enabled(s, e) then s
    else match e
    case Lock(l) =>
      s.(basepri := USER_NMI_PRIORITY,
         nested := s.nested + 1,
         saved := s.saved[l := s.basepri],
         held := s.held + {l},
         base := if s.held == {} then s.basepri else s.base,
         opener := if s.held == {} then Some(l) else s.opener)
    case Unlock(l) =>
      s.(basepri := if s.nested - 1 == 0 then SavedIn(s, l) else s.basepri,
         nested := s.nested - 1,
         held := s.held - {l},
         opener := if s.opener == Some(l) then None else s.opener)
    case Write(value) => s.(basepri := value)
  }

  ghost predicate Inv(s: State) {
    && s.nested == |s.held|
    && (s.held != {} ==> s.basepri == USER_NMI_PRIORITY)
    && (forall l :: l in s.held ==>
      SavedIn(s, l) == if s.opener == Some(l) then s.base else USER_NMI_PRIORITY)
    && (s.opener.Some? ==> s.opener.value in s.held)
  }

  lemma NextKeepsInv(s: State, e: Event)
    requires Inv(s) && Enabled(s, e)
    ensures Inv(Next(s, e))
  {
    if e.Unlock? && s.nested == 1 {
      OnlyOne(s.held, e.l);
    }
  }

  lemma OnlyOne(held: set<nat>, l: nat)
    requires l in held && |held| == 1
    ensures held == {l}
  {
    assert |held - {l}| == 0;
    assert held - {l} == {};
  }

  predicate Legal(s: State, es: seq<Event>) {
    LegalRun(Enabled, Next, s, es)
  }

  function Exec(s: State, es: seq<Event>): State {
    EndOf(Next, s, es)
  }

  lemma ExecKeepsInv(s: State, es: seq<Event>)
    requires Inv(s) && Legal(s, es)
    ensures Inv(Exec(s, es))
  {
    forall r, e | Inv(r) && Enabled(r, e)
      ensures Inv(Next(r, e))
    {
      NextKeepsInv(r, e);
    }
    RunKeeps(Enabled, Next, Inv, s, es);
  }

  /** While any lock is held, in whatever order locks are taken and released, interrupts stay masked. */
  lemma MaskedWhileHeld(basepri: nat, es: seq<Event>)
    requires Legal(Init(basepri), es)
    ensures var s := Exec(Init(basepri), es);
      s.held != {} ==> s.basepri == 16
  {
    ExecKeepsInv(Init(basepri), es);
  }

  /**
   The unlock that leaves no lock held restores BASEPRI exactly when it releases the lock that was taken
   first and held ever since, or when the value before was the mask itself.
   */
  lemma LastUnlockRestoresIff(basepri: nat, es: seq<Event>, l: nat)
    requires Legal(Init(basepri), es) && Exec(Init(basepri), es).held == {l}
    ensures var s := Exec(Init(basepri), es);
      Next(s, Unlock(l)).basepri == s.base <==> s.opener == Some(l) || s.base == 16
  {
    ExecKeepsInv(Init(basepri), es);
  }

  /** Releasing in the order of taking leaves the mask in place. */
  lemma FirstInFirstOutStaysMasked()
    ensures Legal(Init(0), [Lock(1), Lock(2), Unlock(1), Unlock(2)])
    ensures Exec(Init(0), [Lock(1), Lock(2), Unlock(1), Unlock(2)]).held == {}
    ensures Exec(Init(0), [Lock(1), Lock(2), Unlock(1), Unlock(2)]).basepri == 16
  {
    var es := [Lock(1), Lock(2), Unlock(1), Unlock(2)];
    var s1 := Next(Init(0), es[0]);
    var s2 := Next(s1, es[1]);
    var s3 := Next(s2, es[2]);
    var s4 := Next(s3, es[3]);
    assert es[1..] == [Lock(2), Unlock(1), Unlock(2)];
    assert es[1..][1..] == [Unlock(1), Unlock(2)];
    assert es[1..][1..][1..] == [Unlock(2)];
    assert es[1..][1..][1..][1..] == [];
    assert Exec(s3, [Unlock(2)]) == s4;
    assert Exec(s2, [Unlock(1), Unlock(2)]) == s4;
    assert Exec(s1, [Lock(2), Unlock(1), Unlock(2)]) == s4;
  }

  /** A call that is properly nested when the locks of `stack` are held: an unlock releases the last of them. */
  predicate NestedCall(stack: seq<nat>, e: Event) {
    match e
    case Lock(_) => true
    case Unlock(l) => stack != [] && stack[|stack| - 1] == l
    case Write(_) => false
  }

  function StackAfter(stack: seq<nat>, e: Event): seq<nat>
    requires NestedCall(stack, e)
  {
    if e.Lock? then stack + [e.l] else stack[..|stack| - 1]
  }

  /** A sequence of properly nested calls, starting from `stack`. */
  predicate Nested(stack: seq<nat>, es: seq<Event>)
    decreases |es|
  {
    es == [] || (NestedCall(stack, es[0]) && Nested(StackAfter(stack, es[0]), es[1..]))
  }

  /** The state of a properly nested sequence that started with BASEPRI at `base`. */
  ghost predicate NestedState(s: State, stack: seq<nat>, base: nat) {
    && Inv(s)
    && s.nested == |stack|
    && (stack == [] ==> s.basepri == base)
    && (stack != [] ==> s.opener == Some(stack[0]) && s.base == base && s.held != {})
    && (forall i, j :: 0 <= i < j < |stack| ==> stack[i] != stack[j])
    && (forall l :: l in s.held <==> l in stack)
  }

  lemma NestedLock(s: State, stack: seq<nat>, l: nat, base: nat)
    requires NestedState(s, stack, base) && Enabled(s, Lock(l))
    ensures NestedState(Next(s, Lock(l)), stack + [l], base)
  {
    NextKeepsInv(s, Lock(l));
  }

  lemma NestedUnlock(s: State, stack: seq<nat>, rest: seq<nat>, l: nat, base: nat)
    requires NestedState(s, stack, base) && Enabled(s, Unlock(l)) && stack == rest + [l]
    ensures NestedState(Next(s, Unlock(l)), rest, base)
  {
    NextKeepsInv(s, Unlock(l));
    assert forall k :: k in stack <==> k in rest || k == l;
    assert stack[|rest|] == l;
    assert forall i :: 0 <= i < |rest| ==> rest[i] == stack[i] && stack[i] != l;
    if rest != [] {
      assert rest[0] in Next(s, Unlock(l)).held;
    }
  }

  lemma NestedStep(s: State, stack: seq<nat>, e: Event, base: nat)
    requires NestedState(s, stack, base) && Enabled(s, e) && NestedCall(stack, e)
    ensures NestedState(Next(s, e), StackAfter(stack, e), base)
  {
    if e.Lock? {
      NestedLock(s, stack, e.l, base);
    } else {
      assert stack == stack[..|stack| - 1] + [e.l];
      NestedUnlock(s, stack, stack[..|stack| - 1], e.l, base);
    }
  }

  lemma {:induction false} NestedExec(s: State, stack: seq<nat>, es: seq<Event>, base: nat)
      returns (end: seq<nat>)
    requires NestedState(s, stack, base) && Legal(s, es) && Nested(stack, es)
    ensures NestedState(Exec(s, es), end, base)
    decreases |es|
  {
    if es == [] {
      end := stack;
    } else {
      NestedStep(s, stack, es[0], base);
      end := NestedExec(Next(s, es[0]), StackAfter(stack, es[0]), es[1..], base);
    }
  }

  /**
   For every properly nested sequence of calls over any number of locks, BASEPRI is the mask while a lock
   is held and, once none is held, what it was before the sequence.
   */
  lemma NestedLocksRestore(basepri: nat, es: seq<Event>)
    requires Legal(Init(basepri), es) && Nested([], es)
    ensures var s := Exec(Init(basepri), es);
      s.basepri == if s.held == {} then basepri else 16
  {
    var end := NestedExec(Init(basepri), [], es, basepri);
    if end != [] {
      assert end[0] in Exec(Init(basepri), es).held;
    }
  }

  // ---- The lock in its imperative form ----

  /** The special register and the counter that all locks share. */
  class Cpu {
    var basepri: nat
    var nestedCriticalSections: int

    constructor (initial: nat)
      ensures basepri == initial && nestedCriticalSections == 0
    {
      basepri, nestedCriticalSections := initial, 0;
    }
  }

  class NativeInterruptSpinLock {
    const cpu: Cpu
    const id: nat
    var locked: bool
    var savedIrqState: nat

    constructor (c: Cpu, name: nat)
      ensures cpu == c && id == name && !locked && savedIrqState == 0
    {
      cpu, id, locked, savedIrqState := c, name, false, 0;
    }

    /** The processor and this lock show a state of the step system. */
    ghost predicate Shows(s: State)
      reads this, cpu
    {
      && s.basepri == cpu.basepri
      && s.nested == cpu.nestedCriticalSections
      && (locked <==> id in s.held)
      && (locked ==> SavedIn(s, id) == savedIrqState)
    }

    /** In an interrupt the counter is left alone; otherwise this is the lock transition. */
    method TryLock(inInterrupt: bool, ghost s: State) returns (taken: bool)
      requires Shows(s) && Enabled(s, Lock(id))
      modifies this, cpu
      ensures taken && locked && savedIrqState == old(cpu.basepri) && cpu.basepri == 16
      ensures !inInterrupt ==> Shows(Next(s, Lock(id)))
      ensures !inInterrupt ==> cpu.nestedCriticalSections == old(cpu.nestedCriticalSections) + 1
      ensures inInterrupt ==> cpu.nestedCriticalSections == old(cpu.nestedCriticalSections)
    {
      SetTargetIrqState();
      if !inInterrupt {
        cpu.nestedCriticalSections := cpu.nestedCriticalSections + 1;
      }
      locked := true;
      return true;
    }

    /** In an interrupt BASEPRI is cleared, whatever was saved; otherwise this is the unlock transition. */
    method Unlock(inInterrupt: bool, ghost s: State)
      requires Shows(s) && Enabled(s, Event.Unlock(id))
      modifies this, cpu
      ensures !locked && savedIrqState == old(savedIrqState)
      ensures !inInterrupt ==> Shows(Next(s, Event.Unlock(id)))
      ensures !inInterrupt ==> cpu.nestedCriticalSections == old(cpu.nestedCriticalSections) - 1
      ensures !inInterrupt ==>
        cpu.basepri == if old(cpu.nestedCriticalSections) == 1 then savedIrqState else old(cpu.basepri)
      ensures inInterrupt ==> cpu.basepri == 0 && cpu.nestedCriticalSections == old(cpu.nestedCriticalSections)
    {
      locked := false;
      if inInterrupt {
        cpu.basepri := 0;
      } else {
        cpu.nestedCriticalSections := cpu.nestedCriticalSections - 1;
        if cpu.nestedCriticalSections == 0 {
          cpu.basepri := savedIrqState;
        }
      }
    }

    /**
     A lock taken and released in one interrupt, which no step system above covers: BASEPRI is afterwards
     what it was before exactly when it was clear.
     */
    method InterruptSection(ghost s: State)
      requires Shows(s) && Enabled(s, Lock(id))
      modifies this, cpu
      ensures !locked && cpu.nestedCriticalSections == old(cpu.nestedCriticalSections)
      ensures cpu.basepri == old(cpu.basepri) <==> old(cpu.basepri) == 0
    {
      var taken := TryLock(true, s);
      ghost var inside := s.(basepri := cpu.basepri, saved := s.saved[id := savedIrqState], held := s.held + {id});
      Unlock(true, inside);
    }

    method SetTargetIrqState()
      modifies this`savedIrqState, cpu`basepri
      ensures savedIrqState == old(cpu.basepri) && cpu.basepri == USER_NMI_PRIORITY
    {
      savedIrqState := cpu.basepri;
      cpu.basepri := USER_NMI_PRIORITY;
    }
  }
}
