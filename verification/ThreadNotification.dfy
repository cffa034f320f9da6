/**
 The binary thread notification: one thread at a time subscribes and waits for a thread flag, and any
 number of threads and interrupts release it. Acquires wait forever.

 The kernel lock keeps other threads out of a section, as `KernelLocking.Exclusive` says, but not interrupts.
 So the section that subscribes takes one step for each statement: a release by a thread does not come in
 between, and a release by an interrupt does. A release by an interrupt in the middle of another section changes
 nothing that it does not change just before the section or just after it, so these are one step. The rest of an
 acquire runs unlocked, statement by statement.
 */
module ThreadNotifications {
  import opened StepSystems
  import opened Basics

  // ---- The result of a wait for thread flags ----

  const WAIT_FLAG: nat := 13
  const OS_FLAGS_ERROR: bv32 := 0x8000_0000
  const OS_FLAGS_ERROR_TIMEOUT: bv32 := 0xFFFF_FFFE

  function BitMask(pos: nat): bv32
    requires pos < 32
  {
    (1 as bv32) << pos
  }

  predicate IsBitSet(x: bv32, pos: nat)
    requires pos < 32
  {
    x & BitMask(pos) == BitMask(pos)
  }

  predicate IsOsFlagsError(x: bv32) {
    x >= OS_FLAGS_ERROR
  }

  datatype Verdict = Again | Woken | Failed

  /** What the wait-forever loop makes of the status of one wait. */
  function Judge(status: bv32): Verdict {
    if status == OS_FLAGS_ERROR_TIMEOUT then Again
    else if IsBitSet(status, WAIT_FLAG) || IsOsFlagsError(status) then
      if IsOsFlagsError(status) then Failed else Woken
    else Again
  }

  /**
   The loop ends in success exactly on a flags word that has the wait flag. The code of a timeout has that
   bit too, which is why the timeout is recognised before the bit is tested.
   */
  lemma WokenMeansFlag(status: bv32)
    ensures Judge(status) == Woken <==> IsBitSet(status, WAIT_FLAG) && !IsOsFlagsError(status)
    ensures IsBitSet(OS_FLAGS_ERROR_TIMEOUT, WAIT_FLAG) && Judge(OS_FLAGS_ERROR_TIMEOUT) == Again
    ensures Judge(BitMask(WAIT_FLAG)) == Woken
  {
    assert OS_FLAGS_ERROR_TIMEOUT & 0x2000 == 0x2000;
    assert BitMask(WAIT_FLAG) == 0x2000;
  }

  /** The loop goes on after a timeout, and after a status that has not bit 13 and is no error code. */
  lemma AgainMeansIgnored(status: bv32)
    ensures Judge(status) == Again <==>
      status == 0xFFFF_FFFE || (status & 0x2000 != 0x2000 && status < 0x8000_0000)
  {
    assert BitMask(WAIT_FLAG) == 0x2000;
  }

  // ---- Step system ----

  /** Where the subscriber is inside an acquire. */
  datatype Waiter =
    | NoWaiter
    | Check(t: nat) | Test(t: nat) | SetBlocked(t: nat) | ClearOld(t: nat) | Parked(t: nat)
    | ClearBlocked(t: nat) | ClearNotified(t: nat) | ClearFlag(t: nat)

  /**
   `flags` are the threads whose wait flag is set. `releases` and `acquires` count completed operations
   and `pending` the releases since the last time a notification was consumed. `missed` counts those of them
   that came from interrupts while the last subscriber was in its locked section.
   */
  datatype State = State(
    blocked: Option<nat>,
    notified: bool,
    flags: set<nat>,
    waiter: Waiter,
    releases: nat,
    acquires: nat,
    pending: nat,
    missed: nat)

  datatype Event = Release | InterruptRelease | TryAcquire | StartAcquire(t: nat) | Advance(status: bv32)

  const Init := State(None, false, {}, NoWaiter, 0, 0, 0, 0)

  /** The subscriber has the kernel locked and has found nothing to consume. */
  predicate Locked(w: Waiter) {
    w.SetBlocked? || w.ClearOld?
  }

  /** A wait returns a spurious timeout, or the flags word once the wait flag is set. */
  predicate WaitReturns(s: State, t: nat, status: bv32) {
    Judge(status) == Again || (Judge(status) == Woken && t in s.flags)
  }

  /**
   One subscriber at a time: nothing acquires while an acquire is in progress. No thread releases while the
   subscriber has the kernel locked.
   */
  predicate Enabled(s: State, e: Event) {
    match e
    case Release => !Locked(s.waiter)
    case InterruptRelease => true
    case TryAcquire | StartAcquire(_) => s.waiter.NoWaiter?
    case Advance(status) => !s.waiter.NoWaiter? && (s.waiter.Parked? ==> WaitReturns(s, s.waiter.t, status))
  }

  function Consumed(s: State): State {
    s.(notified := false, acquires := s.acquires + 1, pending := 0)
  }

  function AfterRelease(s: State): State {
    s.(notified := true,
       flags := if s.blocked.Some? then s.flags + {s.blocked.value} else s.flags,
       releases := s.releases + 1,
       pending := s.pending + 1)
  }

  /** The state after an event; an event that is not enabled does nothing. */
  function Next(s: State, e: Event): State {
    if !Enabled(s, e) then s
    else match e
    case Release => AfterRelease(s)
    case InterruptRelease => AfterRelease(s).(missed := if Locked(s.waiter) then s.missed + 1 else s.missed)
    case TryAcquire => if s.notified then Consumed(s) else s
    case StartAcquire(t) => s.(waiter := Check(t))
    case Advance(status) =>
      match s.waiter
      case Check(t) => s.(waiter := Test(t))
      case Test(t) =>
        if s.notified then Consumed(s).(blocked := None, waiter := NoWaiter)
        else s.(waiter := SetBlocked(t), missed := 0)
      case SetBlocked(t) => s.(blocked := Some(t), waiter := ClearOld(t))
      case ClearOld(t) => s.(flags := s.flags - {t}, waiter := Parked(t))
      case Parked(t) => if Judge(status) == Woken then s.(waiter := ClearBlocked(t)) else s
      case ClearBlocked(t) => s.(blocked := None, waiter := ClearNotified(t))
      case ClearNotified(t) => Consumed(s).(waiter := ClearFlag(t))
      case ClearFlag(t) => s.(flags := s.flags - {t}, waiter := NoWaiter)
  }

  predicate Subscribed(w: Waiter) {
    w.ClearOld? || w.Parked? || w.ClearBlocked?
  }

  ghost predicate Inv(s: State) {
    && s.blocked == (if Subscribed(s.waiter) then Some(s.waiter.t) else None)
    && (forall t :: t in s.flags ==>
      (Subscribed(s.waiter) || s.waiter.ClearNotified? || s.waiter.ClearFlag?) && t == s.waiter.t)
    && (Locked(s.waiter) ==> s.pending == s.missed)
    && (s.waiter.Parked? ==> s.pending >= s.missed && (s.waiter.t in s.flags <==> s.pending > s.missed))
    && (s.waiter.ClearBlocked? || s.waiter.ClearNotified? ==> s.notified)
    && (s.notified <==> s.pending > 0)
    && s.acquires + (if s.notified then 1 else 0) <= s.releases
  }

  lemma NextKeepsInv(s: State, e: Event)
    requires Inv(s) && Enabled(s, e)
    ensures Inv(Next(s, e))
  {
  }

  // ---- Whole runs ----

  predicate Legal(s: State, es: seq<Event>) {
    LegalRun(Enabled, Next, s, es)
  }

  function Exec(s: State, es: seq<Event>): State {
    EndOf(Next, s, es)
  }

  lemma ExecKeepsInv(s: State, es: seq<Event>)
    requires Inv(s) && Legal(s, es)
    ensures Inv(Exec(s, es))
  {
    forall r, e | Inv(r) && Enabled(r, e)
      ensures Inv(Next(r, e))
    {
      NextKeepsInv(r, e);
    }
    RunKeeps(Enabled, Next, Inv, s, es);
  }

  /**
   When a parked subscriber wakes up: in every run, it can go on exactly when some release that is still
   pending did not come from an interrupt in the middle of the section that subscribed.
   */
  lemma WakesIff(es: seq<Event>)
    requires Legal(Init, es) && Exec(Init, es).waiter.Parked?
    ensures var s := Exec(Init, es);
      && (s.notified <==> s.pending > 0)
      && (Enabled(s, Advance(BitMask(WAIT_FLAG))) <==> s.pending > s.missed)
  {
    ExecKeepsInv(Init, es);
    WokenMeansFlag(BitMask(WAIT_FLAG));
  }

  lemma {:induction false} ThreadsMissNothing(s: State, es: seq<Event>)
    requires Legal(s, es) && s.missed == 0 && InterruptRelease !in es
    ensures Exec(s, es).missed == 0
    decreases |es|
  {
    if es != [] {
      assert es[0] in es;
      ThreadsMissNothing(Next(s, es[0]), es[1..]);
    }
  }

  /**
   No lost wake-up when releases come from threads: a parked subscriber can go on exactly when there is a
   notification to consume.
   */
  lemma NoLostWakeUp(es: seq<Event>)
    requires Legal(Init, es) && Exec(Init, es).waiter.Parked? && InterruptRelease !in es
    ensures var s := Exec(Init, es);
      && (s.notified <==> s.waiter.t in s.flags)
      && (s.notified <==> Enabled(s, Advance(BitMask(WAIT_FLAG))))
  {
    ExecKeepsInv(Init, es);
    ThreadsMissNothing(Init, es);
    WakesIff(es);
  }

  /** A release from an interrupt between the test and the subscription is lost: nothing wakes the subscriber. */
  lemma InterruptReleaseCanBeLost()
    ensures var step := Advance(0);
      var es := [StartAcquire(1), step, step, InterruptRelease, step, step];
      && Legal(Init, es)
      && var s := Exec(Init, es);
      && s.waiter == Parked(1)
      && s.notified
      && forall status :: Enabled(s, Advance(status)) ==> Next(s, Advance(status)) == s
  {
    var step := Advance(0);
    var s := Next(Next(Next(Init, StartAcquire(1)), step), step);
    assert [StartAcquire(1), step, step] + [InterruptRelease, step, step]
        == [StartAcquire(1), step, step, InterruptRelease, step, step];
    UnfoldThree(Enabled, Next, Init, StartAcquire(1), step, step, [InterruptRelease, step, step]);
    assert [InterruptRelease, step, step] + [] == [InterruptRelease, step, step];
    UnfoldThree(Enabled, Next, s, InterruptRelease, step, step, []);
  }

  /** No invented wake-up: in every run the acquires, and a pending notification, are paid for by releases. */
  lemma NoInventedWakeUp(es: seq<Event>)
    requires Legal(Init, es)
    ensures var s := Exec(Init, es);
      s.acquires + (if s.notified then 1 else 0) <= s.releases
  {
    ExecKeepsInv(Init, es);
  }

  /** Until it is consumed a notification stays, whatever else happens. */
  lemma {:induction false} NotifiedUntilConsumed(s: State, es: seq<Event>)
    requires Legal(s, es)
    ensures Exec(s, es).acquires >= s.acquires
    ensures s.notified && Exec(s, es).acquires == s.acquires ==> Exec(s, es).notified
    decreases |es|
  {
    if es != [] {
      NotifiedUntilConsumed(Next(s, es[0]), es[1..]);
    }
  }

  /**
   A release stays pending: after any run, a release followed by any steps that complete no acquire leaves
   the notification set, and it is set only if some release came after the last acquire.
   */
  lemma ReleaseStaysPending(before: seq<Event>, after: seq<Event>)
    requires Legal(Init, before) && Legal(AfterRelease(Exec(Init, before)), after)
    ensures var s := Exec(Init, before);
      var r := Exec(AfterRelease(s), after);
      && (r.acquires == s.acquires ==> r.notified)
      && (s.notified <==> s.pending > 0)
  {
    ExecKeepsInv(Init, before);
    NotifiedUntilConsumed(AfterRelease(Exec(Init, before)), after);
  }

  predicate HasRelease(es: seq<Event>) {
    Event.Release in es || InterruptRelease in es
  }

  lemma {:induction false} PendingFromHere(s: State, es: seq<Event>)
    requires Inv(s) && !s.notified && Legal(s, es)
    ensures !HasRelease(es) ==> Exec(s, es).acquires == s.acquires && !Exec(s, es).notified
    ensures HasRelease(es) && Exec(s, es).acquires == s.acquires ==> Exec(s, es).notified
    decreases |es|
  {
    if es != [] {
      var e, r := es[0], Next(s, es[0]);
      assert es == [e] + es[1..];
      NextKeepsInv(s, e);
      NotifiedUntilConsumed(r, es[1..]);
      if !r.notified {
        PendingFromHere(r, es[1..]);
      }
    }
  }

  /**
   What a notification is made of: from any state reached with none pending, one is pending after a run that
   completes no acquire exactly when that run has a release, and a run without a release completes none.
   */
  lemma PendingIffReleased(before: seq<Event>, es: seq<Event>)
    requires Legal(Init, before) && !Exec(Init, before).notified && Legal(Exec(Init, before), es)
    ensures var s, r := Exec(Init, before), Exec(Exec(Init, before), es);
      && (!HasRelease(es) ==> r.acquires == s.acquires)
      && (r.acquires == s.acquires ==> (r.notified <==> HasRelease(es)))
  {
    ExecKeepsInv(Init, before);
    PendingFromHere(Exec(Init, before), es);
  }

  /**
   A try succeeds exactly when a release is pending, whatever ran before, and uses up all the pending ones: no
   later try succeeds before the next release.
   */
  lemma TryTakesPending(before: seq<Event>, between: seq<Event>)
    requires Legal(Init, before) && Exec(Init, before).waiter == NoWaiter
    requires Legal(Next(Exec(Init, before), TryAcquire), between)
    requires !HasRelease(between)
    ensures var s := Exec(Init, before);
      var r := Next(s, TryAcquire);
      && Enabled(s, TryAcquire)
      && r.acquires == s.acquires + (if s.pending > 0 then 1 else 0)
      && r.releases == s.releases && r.waiter == NoWaiter && r.blocked == None && r.flags == {}
      && !r.notified
      && var later := Exec(r, between);
      && !later.notified
      && later.acquires == r.acquires
      && Next(later, TryAcquire).acquires == r.acquires
  {
    ExecKeepsInv(Init, before);
    NextKeepsInv(Exec(Init, before), TryAcquire);
    PendingFromHere(Next(Exec(Init, before), TryAcquire), between);
  }

  /** With a release pending, an acquire that starts now completes by its next two statements. */
  lemma AcquireTakesPending(es: seq<Event>, t: nat)
    requires Legal(Init, es) && Exec(Init, es).waiter == NoWaiter && Exec(Init, es).pending > 0
    ensures var s := Exec(Init, es);
      var acquire := [StartAcquire(t), Advance(0), Advance(0)];
      && Legal(s, acquire)
      && var r := Exec(s, acquire);
      r.waiter == NoWaiter && r.acquires == s.acquires + 1 && !r.notified && r.blocked == None && r.flags == {}
  {
    ExecKeepsInv(Init, es);
    var acquire := [StartAcquire(t), Advance(0), Advance(0)];
    assert acquire + [] == acquire;
    UnfoldThree(Enabled, Next, Exec(Init, es), StartAcquire(t), Advance(0), Advance(0), []);
  }

  /** With none pending, an acquire that starts now parks: it is subscribed, with its flag clear. */
  lemma AcquireParks(es: seq<Event>, t: nat)
    requires Legal(Init, es) && Exec(Init, es).waiter == NoWaiter && Exec(Init, es).pending == 0
    ensures var s := Exec(Init, es);
      var park := [StartAcquire(t), Advance(0), Advance(0), Advance(0), Advance(0)];
      && Legal(s, park)
      && Exec(s, park) == s.(waiter := Parked(t), blocked := Some(t), flags := {}, missed := 0)
  {
    ExecKeepsInv(Init, es);
    var s, step := Exec(Init, es), Advance(0);
    assert [StartAcquire(t), step, step] + [step, step] == [StartAcquire(t), step, step, step, step];
    UnfoldThree(Enabled, Next, s, StartAcquire(t), step, step, [step, step]);
    var r := Next(Next(Next(s, StartAcquire(t)), step), step);
    assert [step] + [step] == [step, step] && [step] + [] == [step];
    Unfold(Enabled, Next, r, step, [step]);
    Unfold(Enabled, Next, Next(r, step), step, []);
  }

  /** The checks for a second subscriber never fail while there is one subscriber at a time. */
  lemma SubscriberChecksHold(es: seq<Event>)
    requires Legal(Init, es)
    ensures var s := Exec(Init, es);
      s.waiter.NoWaiter? || s.waiter.Check? || s.waiter.Test? ==> s.blocked == None
  {
    ExecKeepsInv(Init, es);
  }

  /** One release that was not missed frees a parked subscriber: left alone, it finishes and has acquired. */
  lemma ParkedSubscriberFinishes(es: seq<Event>)
    requires Legal(Init, es) && Exec(Init, es).waiter.Parked? && Exec(Init, es).pending > Exec(Init, es).missed
    ensures var s := Exec(Init, es);
      var wake := Advance(BitMask(WAIT_FLAG));
      && Legal(s, [wake, wake, wake, wake])
      && var r := Exec(s, [wake, wake, wake, wake]);
      r.waiter == NoWaiter && r.acquires == s.acquires + 1 && !r.notified && r.flags == {}
  {
    ExecKeepsInv(Init, es);
    var s, wake := Exec(Init, es), Advance(BitMask(WAIT_FLAG));
    WokenMeansFlag(BitMask(WAIT_FLAG));
    assert [wake, wake, wake] + [wake] == [wake, wake, wake, wake] && [wake] + [] == [wake];
    UnfoldThree(Enabled, Next, s, wake, wake, wake, [wake]);
    Unfold(Enabled, Next, Next(Next(Next(s, wake), wake), wake), wake, []);
  }

  // ---- The operations in their imperative form ----

  /** The notification object, with the thread flags that the RTOS keeps. */
  class NativeThreadNotification {
    var blockedThreadId: Option<nat>
    var notified: bool
    var threadFlags: set<nat>

    constructor ()
      ensures Shows(Init)
    {
      blockedThreadId, notified, threadFlags := None, false, {};
    }

    ghost predicate Shows(s: State)
      reads this
    {
      s.blocked == blockedThreadId && s.notified == notified && s.flags == threadFlags
    }

    method TryAcquire(ghost s: State) returns (acquired: bool)
      requires Shows(s) && Enabled(s, Event.TryAcquire)
      modifies this
      ensures Shows(Next(s, Event.TryAcquire))
      ensures Next(s, Event.TryAcquire).acquires == s.acquires + if acquired then 1 else 0
      ensures acquired <==> old(notified)
      ensures !notified && blockedThreadId == old(blockedThreadId) && threadFlags == old(threadFlags)
    {
      if notified {
        notified := false;
        return true;
      }
      return false;
    }

    /** The kernel lock that only a thread takes here decides when this may run, not what it does. */
    method Release(inInterrupt: bool, ghost s: State)
      requires Shows(s) && Enabled(s, if inInterrupt then InterruptRelease else Event.Release)
      modifies this
      ensures Shows(Next(s, if inInterrupt then InterruptRelease else Event.Release))
      ensures notified && blockedThreadId == old(blockedThreadId)
      ensures forall t :: t in threadFlags <==> t in old(threadFlags) || old(blockedThreadId) == Some(t)
    {
      notified := true;
      if blockedThreadId.Some? {
        threadFlags := threadFlags + {blockedThreadId.value};
      }
    }

    /** The locked section of an acquire, run without an interrupt: consume a notification or subscribe. */
    method SubscribeOrConsume(threadId: nat, ghost s: State) returns (consumed: bool)
      requires Shows(s) && s.waiter == Test(threadId)
      modifies this
      ensures consumed <==> old(notified)
      ensures !notified
      ensures blockedThreadId == if consumed then None else Some(threadId)
      ensures threadFlags == if consumed then old(threadFlags) else old(threadFlags) - {threadId}
      ensures var e := Advance(0);
        Shows(if consumed then Next(s, e) else Next(Next(Next(s, e), e), e))
    {
      if notified {
        blockedThreadId := None;
        notified := false;
        return true;
      }
      blockedThreadId := Some(threadId);
      threadFlags := threadFlags - {threadId};
      return false;
    }

    /** The wait-forever loop, given what its waits return: it ends at the first that is not ignored. */
    method WaitForever(statuses: seq<bv32>) returns (status: bv32, waits: nat)
      requires exists i :: 0 <= i < |statuses| && Judge(statuses[i]) != Again
      ensures 0 < waits <= |statuses| && status == statuses[waits - 1]
      ensures Judge(status) != Again
      ensures forall i :: 0 <= i < waits - 1 ==> Judge(statuses[i]) == Again
      ensures status != 0xFFFF_FFFE && (status & 0x2000 == 0x2000 || status >= 0x8000_0000)
      ensures forall i :: 0 <= i < waits - 1 ==>
        statuses[i] == 0xFFFF_FFFE || (statuses[i] & 0x2000 != 0x2000 && statuses[i] < 0x8000_0000)
    {
      waits := 0;
      while true
        invariant waits < |statuses|
        invariant forall i :: 0 <= i < waits ==> Judge(statuses[i]) == Again
        decreases |statuses| - waits
      {
        status := statuses[waits];
        waits := waits + 1;
        if status != OS_FLAGS_ERROR_TIMEOUT {
          if IsBitSet(status, WAIT_FLAG) || IsOsFlagsError(status) {
            break;
          }
        }
        assert Judge(statuses[waits - 1]) == Again;
      }
      forall i | 0 <= i < waits
        ensures Judge(statuses[i]) == Again <==>
          statuses[i] == 0xFFFF_FFFE || (statuses[i] & 0x2000 != 0x2000 && statuses[i] < 0x8000_0000)
      {
        AgainMeansIgnored(statuses[i]);
      }
    }

    /** The end of an acquire, run without a step of another thread in between. */
    method Awaken(threadId: nat, ghost s: State)
      requires Shows(s) && s.waiter == ClearBlocked(threadId)
      modifies this
      ensures blockedThreadId == None && !notified && threadFlags == old(threadFlags) - {threadId}
      ensures var e := Advance(0);
        Shows(Next(Next(Next(s, e), e), e))
    {
      blockedThreadId := None;
      notified := false;
      threadFlags := threadFlags - {threadId};
    }
  }
}
