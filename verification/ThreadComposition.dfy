/** The thread context model next to the notification: the points of a join are the statements of an acquire. */
module ThreadComposition {
  import opened StepSystems
  import opened Basics
  import opened ThreadContexts
  import N = ThreadNotifications

  /** The owner is thread 0 of the notification. */
  const SUBSCRIBER: nat := 0

  /** Where a `join()` is inside the acquire of the notification. */
  function WaiterOf(o: OwnerPc): N.Waiter {
    match o
    case OAcquireCheck => N.Check(SUBSCRIBER)
    case OAcquireLock | OAcquireTest | OTake => N.Test(SUBSCRIBER)
    case OSubscribe => N.SetBlocked(SUBSCRIBER)
    case OSubscribeUnlock | OWait => N.Parked(SUBSCRIBER)
    case OClearBlocked => N.ClearBlocked(SUBSCRIBER)
    case OClearNotified => N.ClearNotified(SUBSCRIBER)
    case OClearFlag => N.ClearFlag(SUBSCRIBER)
    case _ => N.NoWaiter
  }

  /** The worker has released the notification. */
  predicate Released(s: State) {
    s.completed && (s.worker.WUnlock? || s.worker.WExited?)
  }

  /** The owner has consumed the notification. */
  predicate Acquired(o: OwnerPc) {
    || o.OTakeUnlock? || o.OClearFlag? || o.OJoinLock? || o.OJoinDelete? || o.OJoinUnlock?
    || (o.ODone? && o.end.Joined?)
  }

  /** The notification that a state of the thread context shows. A release counts once it is complete. */
  function View(s: State): N.State {
    var releases: nat := if Released(s) then 1 else 0;
    var acquires: nat := if Acquired(s.owner) then 1 else 0;
    N.State(
      if s.blocked then Some(SUBSCRIBER) else None,
      s.notified && !s.worker.WSignal?,
      if s.flag then {SUBSCRIBER} else {},
      WaiterOf(s.owner),
      releases,
      acquires,
      if releases > acquires then 1 else 0,
      0)
  }

  /** What an event of the thread context is for the notification. */
  function NotificationEvents(s: State, e: Event): seq<N.Event> {
    match e
    case Step(Worker) => if s.worker.WSignal? then [N.Release] else []
    case Step(Owner) =>
      (match s.owner
       case OJoinCheck => [N.StartAcquire(SUBSCRIBER)]
       case OAcquireCheck | OTake | OClearBlocked | OClearNotified | OClearFlag => [N.Advance(0)]
       case OAcquireTest => if s.notified then [] else [N.Advance(0)]
       case OSubscribe => [N.Advance(0), N.Advance(0)]
       case OWait => [N.Advance(N.BitMask(N.WAIT_FLAG))]
       case _ => [])
    case _ => []
  }

  /** `r` shows the notification that the events `ns` lead to from the one that `s` shows. */
  ghost predicate Shown(s: State, ns: seq<N.Event>, r: State) {
    N.Legal(View(s), ns) && N.Exec(View(s), ns) == View(r) && N.InterruptRelease !in ns
  }

  lemma OneEvent(s: State, n: N.Event, r: State)
    requires N.Enabled(View(s), n) && N.Next(View(s), n) == View(r) && !n.InterruptRelease?
    ensures Shown(s, [n], r)
  {
    assert [n] + [] == [n];
    Unfold(N.Enabled, N.Next, View(s), n, []);
  }

  /** The worker outside its release. */
  lemma SilentWorkerShown(s: State)
    requires Inv(s) && Enabled(s, Step(Worker))
    requires s.worker.WInvoke? || s.worker.WRunning? || s.worker.WLock?
    ensures Shown(s, [], Next(s, Step(Worker)))
  {
    assert View(Next(s, Step(Worker))) == View(s);
  }

  lemma SilentCleanupShown(s: State)
    requires Inv(s) && Enabled(s, Step(Worker))
    requires s.worker.WTest? || s.worker.WDelete? || s.worker.WUnlock?
    ensures Shown(s, [], Next(s, Step(Worker)))
  {
    assert View(Next(s, Step(Worker))) == View(s);
  }

  /** The statements before the one that completes the release. */
  lemma SilentReleaseShown(s: State)
    requires Inv(s) && Enabled(s, Step(Worker)) && (s.worker.WComplete? || s.worker.WNotify?)
    ensures Shown(s, [], Next(s, Step(Worker)))
  {
    assert View(Next(s, Step(Worker))) == View(s);
  }

  /** The last statement of the worker's release completes it. */
  lemma SignalStepShown(s: State)
    requires Inv(s) && Enabled(s, Step(Worker)) && s.worker.WSignal?
    ensures Shown(s, [N.Release], Next(s, Step(Worker)))
  {
    assert !OwnerLocked(s.owner) && !Acquired(s.owner);
    var r := Next(s, Step(Worker));
    assert r == Touch(s).(worker := WUnlock, flag := s.flag || s.blocked);
    OneEvent(s, N.Release, r);
  }

  lemma WorkerStepShown(s: State)
    requires Inv(s) && Enabled(s, Step(Worker))
    ensures Shown(s, NotificationEvents(s, Step(Worker)), Next(s, Step(Worker)))
  {
    match s.worker
    case WInvoke | WRunning | WLock => SilentWorkerShown(s);
    case WTest | WDelete | WUnlock => SilentCleanupShown(s);
    case WComplete | WNotify => SilentReleaseShown(s);
    case WSignal => SignalStepShown(s);
  }

  /** Steps inside the acquire that change nothing of the notification. */
  lemma SilentAcquireShown(s: State)
    requires Inv(s) && Enabled(s, Step(Owner))
    requires var o := s.owner;
      o.OAcquireLock? || (o.OAcquireTest? && s.notified) || o.OTakeUnlock? || o.OSubscribeUnlock?
    ensures Shown(s, [], Next(s, Step(Owner)))
  {
    assert View(Next(s, Step(Owner))) == View(s);
  }

  /** The end of the constructor, and the lock for the deletion. */
  lemma SilentLockShown(s: State)
    requires Inv(s) && Enabled(s, Step(Owner)) && (s.owner.OConstruct? || s.owner.OJoinLock?)
    ensures Shown(s, [], Next(s, Step(Owner)))
  {
    assert View(Next(s, Step(Owner))) == View(s);
  }

  /** The end of a join. */
  lemma SilentEndShown(s: State)
    requires Inv(s) && Enabled(s, Step(Owner)) && (s.owner.OJoinDelete? || s.owner.OJoinUnlock?)
    ensures Shown(s, [], Next(s, Step(Owner)))
  {
    assert View(Next(s, Step(Owner))) == View(s);
  }

  lemma DetachLockShown(s: State)
    requires Inv(s) && Enabled(s, Step(Owner)) && (s.owner.ODetachCheck? || s.owner.ODetachLock?)
    ensures Shown(s, [], Next(s, Step(Owner)))
  {
    assert View(Next(s, Step(Owner))) == View(s);
  }

  lemma DetachTestShown(s: State)
    requires Inv(s) && Enabled(s, Step(Owner)) && (s.owner.ODetachTest? || s.owner.ODetachDelete?)
    ensures Shown(s, [], Next(s, Step(Owner)))
  {
    assert View(Next(s, Step(Owner))) == View(s);
  }

  lemma DetachEndShown(s: State)
    requires Inv(s) && Enabled(s, Step(Owner)) && (s.owner.ODetachSet? || s.owner.ODetachUnlock?)
    ensures Shown(s, [], Next(s, Step(Owner)))
  {
    assert View(Next(s, Step(Owner))) == View(s);
  }

  lemma StartStepShown(s: State)
    requires Inv(s) && Enabled(s, Step(Owner)) && s.owner.OJoinCheck?
    ensures Shown(s, [N.StartAcquire(SUBSCRIBER)], Next(s, Step(Owner)))
  {
    OneEvent(s, N.StartAcquire(SUBSCRIBER), Next(s, Step(Owner)));
  }

  lemma CheckStepShown(s: State)
    requires Inv(s) && Enabled(s, Step(Owner)) && s.owner.OAcquireCheck?
    ensures Shown(s, [N.Advance(0)], Next(s, Step(Owner)))
  {
    OneEvent(s, N.Advance(0), Next(s, Step(Owner)));
  }

  lemma TestStepShown(s: State)
    requires Inv(s) && Enabled(s, Step(Owner))
    requires (s.owner.OAcquireTest? && !s.notified) || s.owner.OTake?
    ensures Shown(s, [N.Advance(0)], Next(s, Step(Owner)))
  {
    OneEvent(s, N.Advance(0), Next(s, Step(Owner)));
  }

  lemma SubscribeStepShown(s: State)
    requires Inv(s) && Enabled(s, Step(Owner)) && s.owner.OSubscribe?
    ensures Shown(s, [N.Advance(0), N.Advance(0)], Next(s, Step(Owner)))
  {
    var v, n := View(s), N.Advance(0);
    assert [n] + [n] == [n, n] && [n] + [] == [n];
    Unfold(N.Enabled, N.Next, v, n, [n]);
    Unfold(N.Enabled, N.Next, N.Next(v, n), n, []);
    assert N.Next(N.Next(v, n), n) == View(Next(s, Step(Owner)));
  }

  lemma WakeStepShown(s: State)
    requires Inv(s) && Enabled(s, Step(Owner)) && s.owner.OWait?
    ensures Shown(s, NotificationEvents(s, Step(Owner)), Next(s, Step(Owner)))
  {
    N.WokenMeansFlag(N.BitMask(N.WAIT_FLAG));
    OneEvent(s, N.Advance(N.BitMask(N.WAIT_FLAG)), Next(s, Step(Owner)));
  }

  lemma ClearBlockedShown(s: State)
    requires Inv(s) && Enabled(s, Step(Owner)) && s.owner.OClearBlocked?
    ensures Shown(s, [N.Advance(0)], Next(s, Step(Owner)))
  {
    OneEvent(s, N.Advance(0), Next(s, Step(Owner)));
  }

  lemma ClearStepShown(s: State)
    requires Inv(s) && Enabled(s, Step(Owner)) && (s.owner.OClearNotified? || s.owner.OClearFlag?)
    ensures Shown(s, [N.Advance(0)], Next(s, Step(Owner)))
  {
    OneEvent(s, N.Advance(0), Next(s, Step(Owner)));
  }

  lemma OwnerStepShown(s: State)
    requires Inv(s) && Enabled(s, Step(Owner))
    ensures Shown(s, NotificationEvents(s, Step(Owner)), Next(s, Step(Owner)))
  {
    match s.owner
    case OJoinCheck => StartStepShown(s);
    case OAcquireCheck => CheckStepShown(s);
    case OAcquireTest =>
      if s.notified {
        SilentAcquireShown(s);
      } else {
        TestStepShown(s);
      }
    case OTake => TestStepShown(s);
    case OSubscribe => SubscribeStepShown(s);
    case OWait => WakeStepShown(s);
    case OClearBlocked => ClearBlockedShown(s);
    case OClearNotified | OClearFlag => ClearStepShown(s);
    case OAcquireLock | OTakeUnlock | OSubscribeUnlock => SilentAcquireShown(s);
    case OConstruct | OJoinLock => SilentLockShown(s);
    case OJoinDelete | OJoinUnlock => SilentEndShown(s);
    case ODetachCheck | ODetachLock => DetachLockShown(s);
    case ODetachTest | ODetachDelete => DetachTestShown(s);
    case ODetachSet | ODetachUnlock(_) => DetachEndShown(s);
  }

  lemma EventShown(s: State, e: Event)
    requires Inv(s) && Enabled(s, e)
    ensures Shown(s, NotificationEvents(s, e), Next(s, e))
  {
    match e
    case Step(Worker) => WorkerStepShown(s);
    case Step(Owner) => OwnerStepShown(s);
    case _ =>
  }

  /** What a run of the thread context is for the notification. */
  function NotificationRun(s: State, es: seq<Event>): seq<N.Event>
    decreases |es|
  {
    if es == [] then [] else NotificationEvents(s, es[0]) + NotificationRun(Next(s, es[0]), es[1..])
  }

  lemma {:induction false} RunShown(s: State, es: seq<Event>)
    requires Inv(s) && Legal(s, es)
    ensures Shown(s, NotificationRun(s, es), Exec(s, es))
    decreases |es|
  {
    if es != [] {
      var r := Next(s, es[0]);
      NextKeepsInv(s, es[0]);
      EventShown(s, es[0]);
      RunShown(r, es[1..]);
      RunAppend(N.Enabled, N.Next, View(s), NotificationEvents(s, es[0]), NotificationRun(r, es[1..]));
    }
  }

  /**
   Every run of a thread created joinable is, for its join notification, a legal run of the notification
   model with one subscriber and releases from threads only, and ends in the state that run ends in.
   */
  lemma JoinUsesNotification(es: seq<Event>)
    requires Legal(Init(false), es)
    ensures var ns := NotificationRun(Init(false), es);
      && N.Legal(N.Init, ns)
      && N.Exec(N.Init, ns) == View(Exec(Init(false), es))
      && N.InterruptRelease !in ns
  {
    RunShown(Init(false), es);
  }
}
