/**
 The software timer that stretches 64-bit deadlines over a 32-bit RTOS timer, in the build with a periodic
 RTOS timer that is stopped when it has done its work. Each operation runs under the kernel lock and is one
 step; the callback itself runs after the lock, with the deadline the step decided on.
 */
module SystemTimers {
  import opened Basics
  import opened StepSystems
  import opened SystemClocks

  const TICKS_LO: int := 1
  const TICKS_HI: int := 0xFFFF_FFFE

  function Clamp(x: int): (r: int)
    ensures TICKS_LO <= r <= TICKS_HI
  {
    if x < TICKS_LO then TICKS_LO else if x > TICKS_HI then TICKS_HI else x
  }

  /**
   `running` and `ticks` are what the RTOS timer was started with, and `armedAt` the clock reading the
   number of ticks was computed from.
   */
  datatype Timer = Timer(deadline: int, active: bool, running: bool, ticks: int, armedAt: int)

  const Init := Timer(0, false, false, 0, 0)

  function AfterUnset(t: Timer): Timer {
    if !t.active then t else t.(running := false, active := false)
  }

  function AfterSet(t: Timer, deadline: int, now: int): Timer {
    AfterUnset(t.(deadline := deadline)).(active := true, running := true,
                                         ticks := Clamp(deadline - now), armedAt := now)
  }

  /** An expiry reads the clock at `now`, and once more at `later` when it has to start the timer again. */
  function AfterInvoke(t: Timer, now: int, later: int): Timer {
    if !t.active then t
    else if now < t.deadline then AfterSet(t, t.deadline, later)
    else AfterUnset(t)
  }

  /** The deadline that an expiry decides to call back for. */
  function Decision(t: Timer, now: int): Option<int> {
    if t.active && now >= t.deadline then Some(t.deadline) else None
  }

  /** `Expiry` may also be stale or spurious: it can come at any time, whether or not the timer runs. */
  datatype Event = Set(deadline: int, now: int) | Unset | Expiry(now: int, later: int)

  function Next(t: Timer, e: Event): Timer {
    match e
    case Set(d, now) => AfterSet(t, d, now)
    case Unset => AfterUnset(t)
    case Expiry(now, later) => AfterInvoke(t, now, later)
  }

  function Output(t: Timer, e: Event): Option<int> {
    if e.Expiry? then Decision(t, e.now) else None
  }

  /** The callback decided at each event of a run, if any. */
  function Callbacks(t: Timer, es: seq<Event>): (cs: seq<Option<int>>)
    ensures |cs| == |es|
    decreases |es|
  {
    if es == [] then [] else [Output(t, es[0])] + Callbacks(Next(t, es[0]), es[1..])
  }

  // ---- The alarm that the timer is meant to be ----

  /** An alarm has at most one pending deadline. It rings at the first expiry that is not early. */
  function Rings(pending: Option<int>, es: seq<Event>): seq<Option<int>>
    decreases |es|
  {
    if es == [] then []
    else
      match es[0]
      case Set(d, _) => [None] + Rings(Some(d), es[1..])
      case Unset => [None] + Rings(None, es[1..])
      case Expiry(now, _) =>
        if pending.Some? && pending.value <= now then [pending] + Rings(None, es[1..])
        else [None] + Rings(pending, es[1..])
  }

  function Pending(t: Timer): Option<int> {
    if t.active then Some(t.deadline) else None
  }

  /** The timer that re-arms itself calls back exactly when the alarm rings, in every run. */
  lemma {:induction false} TimerIsAlarm(t: Timer, es: seq<Event>)
    ensures Callbacks(t, es) == Rings(Pending(t), es)
    decreases |es|
  {
    if es != [] {
      TimerIsAlarm(Next(t, es[0]), es[1..]);
    }
  }

  /** A ring at `i` belongs to the `Set` at `j`: it is due, and nothing cancelled or used up the deadline. */
  ghost predicate RingsFor(es: seq<Event>, cs: seq<Option<int>>, j: nat, i: nat)
    requires |cs| == |es| && i < |es|
  {
    && j < i
    && cs[i].Some?
    && es[i].Expiry? && es[i].now >= cs[i].value
    && es[j].Set? && es[j].deadline == cs[i].value
    && forall k :: j < k < i ==> es[k].Expiry? && cs[k] == None
  }

  /** With no user call in front, a callback is for the deadline that was pending, and nothing came between. */
  lemma {:induction false} CallbackOrigin(t: Timer, es: seq<Event>, i: nat) returns (j: int)
    requires i < |es| && Callbacks(t, es)[i].Some?
    ensures var cs := Callbacks(t, es);
      && -1 <= j < i
      && es[i].Expiry? && es[i].now >= cs[i].value
      && (forall k :: j < k < i ==> es[k].Expiry? && cs[k] == None)
      && if j == -1 then t.active && t.deadline == cs[i].value
         else es[j].Set? && es[j].deadline == cs[i].value
    decreases |es|
  {
    var cs := Callbacks(t, es);
    assert cs[0] == Output(t, es[0]) && cs[1..] == Callbacks(Next(t, es[0]), es[1..]);
    if i == 0 {
      j := -1;
    } else {
      var j' := CallbackOrigin(Next(t, es[0]), es[1..], i - 1);
      j := if j' != -1 then j' + 1 else if es[0].Set? then 0 else -1;
      forall k | j < k < i
        ensures es[k].Expiry? && cs[k] == None
      {
        if k > 0 {
          assert es[k] == es[1..][k - 1] && cs[k] == cs[1..][k - 1];
        }
      }
    }
  }

  /**
   Safety in every run, with stale and spurious expiries anywhere: a callback is decided only by an expiry
   at or past the deadline of the latest `Set`, with no `Unset` and no other callback since that `Set`.
   */
  lemma CallbackIsDue(es: seq<Event>, i: nat) returns (j: nat)
    requires i < |es| && Callbacks(Init, es)[i].Some?
    ensures RingsFor(es, Callbacks(Init, es), j, i)
  {
    var origin := CallbackOrigin(Init, es, i);
    j := origin;
  }

  /** At most one callback is decided for one `Set`. */
  lemma OneCallbackPerSet(es: seq<Event>, j: nat, i: nat, i': nat)
    requires i < |es| && i' < |es|
    requires RingsFor(es, Callbacks(Init, es), j, i) && RingsFor(es, Callbacks(Init, es), j, i')
    ensures i == i'
  {
  }

  function CountSets(es: seq<Event>): nat {
    if es == [] then 0 else (if es[0].Set? then 1 else 0) + CountSets(es[1..])
  }

  function CountCallbacks(cs: seq<Option<int>>): nat {
    if cs == [] then 0 else (if cs[0].Some? then 1 else 0) + CountCallbacks(cs[1..])
  }

  /** In every run, no more callbacks are decided than there were calls of `Set`. */
  lemma CallbacksNeverExceedSets(es: seq<Event>)
    ensures CountCallbacks(Callbacks(Init, es)) <= CountSets(es)
  {
    CallbacksArePaid(Init, es);
  }

  lemma {:induction false} CallbacksArePaid(t: Timer, es: seq<Event>)
    ensures CountCallbacks(Callbacks(t, es)) <= CountSets(es) + if t.active then 1 else 0
    decreases |es|
  {
    if es != [] {
      CallbacksArePaid(Next(t, es[0]), es[1..]);
      assert Callbacks(t, es)[1..] == Callbacks(Next(t, es[0]), es[1..]);
    }
  }

  // ---- The RTOS timer ----

  ghost predicate RunsIffPending(t: Timer) {
    && (t.running <==> t.active)
    && (t.active ==> t.ticks == Clamp(t.deadline - t.armedAt))
  }

  /** Whether a deadline is pending after a run that started with `pending`. */
  function PendingAfter(pending: Option<int>, es: seq<Event>): Option<int>
    decreases |es|
  {
    if es == [] then pending
    else
      match es[0]
      case Set(d, _) => PendingAfter(Some(d), es[1..])
      case Unset => PendingAfter(None, es[1..])
      case Expiry(now, _) =>
        PendingAfter(if pending.Some? && pending.value <= now then None else pending, es[1..])
  }

  lemma {:induction false} RtosTimerFollows(t: Timer, es: seq<Event>)
    requires RunsIffPending(t)
    ensures RunsIffPending(EndOf(Next, t, es))
    ensures Pending(EndOf(Next, t, es)) == PendingAfter(Pending(t), es)
    decreases |es|
  {
    if es != [] {
      RtosTimerFollows(Next(t, es[0]), es[1..]);
    }
  }

  /** In every run the RTOS timer runs exactly while the alarm has a deadline to ring for. */
  lemma RtosTimerRunsIffPending(es: seq<Event>)
    ensures var t := EndOf(Next, Init, es);
      && (t.running <==> PendingAfter(None, es).Some?)
      && (t.running ==> PendingAfter(None, es) == Some(t.deadline) && t.ticks == Clamp(t.deadline - t.armedAt))
  {
    RtosTimerFollows(Init, es);
  }

  // ---- Progress ----

  /** The RTOS timer was started for the distance that was left when the clock was read. */
  predicate Armed(t: Timer) {
    t.active && t.running && t.ticks == Clamp(t.deadline - t.armedAt)
  }

  lemma SetArms(t: Timer, deadline: int, now: int)
    ensures Armed(AfterSet(t, deadline, now))
    ensures AfterSet(t, deadline, now).deadline == deadline && AfterSet(t, deadline, now).armedAt == now
  {
  }

  /** How many expiries of the RTOS timer a distance needs. */
  function Needed(distance: int): (n: nat)
    ensures n >= 1
    decreases if distance > 0 then distance else 0
  {
    if distance <= TICKS_HI then 1 else 1 + Needed(distance - TICKS_HI)
  }

  lemma {:induction false} NeededIsCeiling(distance: int)
    ensures Needed(distance) == if distance <= 0 then 1 else (distance + TICKS_HI - 1) / TICKS_HI
    decreases if distance > 0 then distance else 0
  {
    if distance > TICKS_HI {
      NeededIsCeiling(distance - TICKS_HI);
    }
  }

  lemma {:induction false} NeededMonotonic(a: int, b: int)
    requires a <= b
    ensures Needed(a) <= Needed(b)
    decreases if b > 0 then b else 0
  {
    if a > TICKS_HI {
      NeededMonotonic(a - TICKS_HI, b - TICKS_HI);
    }
  }

  /** An expiry of the running RTOS timer comes no earlier than the ticks it was started with. */
  predicate OnTime(t: Timer, now: int, later: int) {
    t.armedAt + t.ticks <= now <= later
  }

  /** An early expiry arms the timer again, strictly closer to the deadline and with one expiry less to go. */
  lemma EarlyExpiryProgresses(t: Timer, now: int, later: int)
    requires Armed(t) && OnTime(t, now, later) && Decision(t, now) == None
    ensures var t' := AfterInvoke(t, now, later);
      && Armed(t') && t'.deadline == t.deadline
      && t'.deadline - t'.armedAt < t.deadline - t.armedAt
      && Needed(t'.deadline - t'.armedAt) < Needed(t.deadline - t.armedAt)
  {
    NeededMonotonic(t.deadline - later, t.deadline - t.armedAt - TICKS_HI);
  }

  /** Expiries of the RTOS timer as it is armed again and again, until the callback is decided. */
  ghost predicate AllOnTime(t: Timer, xs: seq<Event>)
    decreases |xs|
  {
    xs != [] && t.active ==>
      && xs[0].Expiry?
      && OnTime(t, xs[0].now, xs[0].later)
      && AllOnTime(Next(t, xs[0]), xs[1..])
  }

  /** Without further user calls, the callback is decided within the number of expiries the distance needs. */
  lemma {:induction false} CallbackComes(t: Timer, xs: seq<Event>) returns (i: nat)
    requires Armed(t) && AllOnTime(t, xs) && |xs| >= Needed(t.deadline - t.armedAt)
    ensures i < Needed(t.deadline - t.armedAt)
    ensures Callbacks(t, xs)[i] == Some(t.deadline)
    decreases |xs|
  {
    if Decision(t, xs[0].now).Some? {
      i := 0;
    } else {
      EarlyExpiryProgresses(t, xs[0].now, xs[0].later);
      var k := CallbackComes(Next(t, xs[0]), xs[1..]);
      i := k + 1;
    }
  }

  /**
   After any `Set`, from any state of the timer, the callback for its deadline is decided within the number of
   expiries that the distance at the time of the `Set` needs, unless the user calls the timer before.
   */
  lemma SetCallsBack(t: Timer, deadline: int, now: int, xs: seq<Event>) returns (i: nat)
    requires AllOnTime(AfterSet(t, deadline, now), xs) && |xs| >= Needed(deadline - now)
    ensures i < Needed(deadline - now)
    ensures Callbacks(AfterSet(t, deadline, now), xs)[i] == Some(deadline)
  {
    SetArms(t, deadline, now);
    i := CallbackComes(AfterSet(t, deadline, now), xs);
  }

  // ---- The timer keeps the clock exact, and is in time ----

  /** The true tick counts at which the expiries read the clock. */
  function ReadTimes(t: Timer, xs: seq<Event>): seq<nat>
    requires forall x :: x in xs ==> x.Expiry? && 0 <= x.now <= x.later
    decreases |xs|
  {
    if xs == [] || !t.active then []
    else if xs[0].now < t.deadline then [xs[0].now, xs[0].later] + ReadTimes(Next(t, xs[0]), xs[1..])
    else [xs[0].now]
  }

  /** Every expiry is served within one tick, and no user call is needed to keep the clock going. */
  ghost predicate Served(t: Timer, xs: seq<Event>)
    decreases |xs|
  {
    xs != [] && t.active ==>
      && xs[0].Expiry?
      && 0 <= t.armedAt
      && OnTime(t, xs[0].now, xs[0].later)
      && xs[0].now <= t.armedAt + t.ticks + 1
      && xs[0].later - xs[0].now < WORD
      && xs[0].later <= INT64_MAX
      && Served(Next(t, xs[0]), xs[1..])
  }

  /** No early expiry takes longer than `gap` from its first to its second look at the clock. */
  predicate ReArmsWithin(xs: seq<Event>, gap: nat) {
    forall x :: x in xs && x.Expiry? ==> x.later - x.now <= gap
  }

  /** The expiry that decides the callback of an armed timer comes soon after the deadline. */
  lemma {:induction false} ArmedIsInTime(t: Timer, xs: seq<Event>, gap: nat) returns (i: nat)
    requires Armed(t) && Served(t, xs) && ReArmsWithin(xs, gap) && |xs| >= Needed(t.deadline - t.armedAt)
    ensures i < Needed(t.deadline - t.armedAt)
    ensures Callbacks(t, xs)[i] == Some(t.deadline)
    ensures xs[i].Expiry? && t.deadline <= xs[i].now
    ensures xs[i].now <= t.deadline + gap + 1 || xs[i].now <= t.armedAt + t.ticks + 1
    decreases |xs|
  {
    assert xs[0] in xs;
    if Decision(t, xs[0].now).Some? {
      i := 0;
    } else {
      EarlyExpiryProgresses(t, xs[0].now, xs[0].later);
      var k := ArmedIsInTime(Next(t, xs[0]), xs[1..], gap);
      i := k + 1;
    }
  }

  /**
   When the callback comes: after any `Set`, from any state of the timer, and without a further user call, it is
   decided at the deadline or up to one tick later. A deadline that is not at least a tick away counts as one
   that is. Only the time that an early expiry takes between its two looks at the clock can add to that.
   */
  lemma CallbackInTime(t: Timer, deadline: int, now: nat, xs: seq<Event>, gap: nat) returns (i: nat)
    requires Served(AfterSet(t, deadline, now), xs) && ReArmsWithin(xs, gap) && |xs| >= Needed(deadline - now)
    ensures i < Needed(deadline - now)
    ensures Callbacks(AfterSet(t, deadline, now), xs)[i] == Some(deadline)
    ensures xs[i].Expiry? && deadline <= xs[i].now
    ensures xs[i].now <= (if deadline + gap > now + 1 then deadline + gap else now + 1) + 1
  {
    SetArms(t, deadline, now);
    i := ArmedIsInTime(AfterSet(t, deadline, now), xs, gap);
  }

  /** However far the deadline is, re-arming reads the clock often enough not to miss a wrap. */
  lemma {:induction false} ReArmingReadsOften(t: Timer, xs: seq<Event>)
    requires Armed(t) && 0 <= t.armedAt && Served(t, xs)
    requires forall x :: x in xs ==> x.Expiry? && 0 <= x.now <= x.later
    ensures CalledOften(t.armedAt, ReadTimes(t, xs)) && Passing(t.armedAt, ReadTimes(t, xs))
    decreases |xs|
  {
    if xs != [] {
      assert xs[0] in xs;
      if xs[0].now < t.deadline {
        var t' := Next(t, xs[0]);
        var rest := ReadTimes(t', xs[1..]);
        ReArmingReadsOften(t', xs[1..]);
        var times: seq<nat> := [xs[0].now, xs[0].later] + rest;
        assert times[1..] == [xs[0].later] + rest && times[1..][1..] == rest;
        assert ReadTimes(t, xs) == times;
      }
    }
  }

  /** So a clock that is exact when the timer is set stays exact at every expiry. */
  lemma TimerKeepsClockExact(c: Clock, t: Timer, xs: seq<Event>)
    requires Armed(t) && 0 <= t.armedAt && Served(t, xs)
    requires forall x :: x in xs ==> x.Expiry? && 0 <= x.now <= x.later
    requires Follows(c, t.armedAt) && Extended(c) == t.armedAt
    ensures Readings(c, ReadTimes(t, xs)) == ReadTimes(t, xs)
  {
    ReArmingReadsOften(t, xs);
    ReadingsExactIff(c, t.armedAt, ReadTimes(t, xs));
  }

  // ---- The timer in its imperative form ----

  class NativeSystemTimer {
    var deadline: int
    var isSet: bool
    var osRunning: bool
    var osTicks: int
    ghost var armedAt: int

    constructor ()
      ensures State() == Init
    {
      deadline, isSet, osRunning, osTicks, armedAt := 0, false, false, 0, 0;
    }

    ghost function State(): Timer
      reads this
    {
      Timer(deadline, isSet, osRunning, osTicks, armedAt)
    }

    method Set(newDeadline: int, now: int)
      modifies this
      ensures State() == AfterSet(old(State()), newDeadline, now)
      ensures deadline == newDeadline && isSet && osRunning && armedAt == now
      ensures var left := newDeadline - now;
        osTicks == if left < 1 then 1 else if left > 0xFFFF_FFFE then 0xFFFF_FFFE else left
    {
      deadline := newDeadline;
      Unset();
      var ticksDelta := newDeadline - now;
      isSet := true;
      osRunning, osTicks := true, Clamp(ticksDelta);
      armedAt := now;
    }

    method Unset()
      modifies this
      ensures State() == AfterUnset(old(State()))
      ensures !isSet && deadline == old(deadline) && osTicks == old(osTicks)
      ensures osRunning <==> old(osRunning) && !old(isSet)
    {
      if !isSet {
        return;
      }
      osRunning := false;
      isSet := false;
    }

    /** The locked part of an expiry. The result is the deadline to call back with. */
    method Invoke(now: int, later: int) returns (callback: Option<int>)
      modifies this
      ensures State() == AfterInvoke(old(State()), now, later)
      ensures callback == Decision(old(State()), now)
      ensures !old(isSet) ==> callback == None && State() == old(State())
      ensures old(isSet) && now >= old(deadline) ==> callback == Some(old(deadline)) && !isSet && !osRunning
      ensures old(isSet) && now < old(deadline) ==> callback == None && isSet && osRunning
      ensures deadline == old(deadline)
      ensures var left := deadline - later;
        old(isSet) && now < old(deadline) ==>
          osTicks == if left < 1 then 1 else if left > 0xFFFF_FFFE then 0xFFFF_FFFE else left
    {
      var d := deadline;
      if !isSet {
        return None;
      }
      if now < d {
        Set(d, later);
        return None;
      }
      Unset();
      return Some(d);
    }
  }
}
