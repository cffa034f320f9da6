/**
 The receive side of the serial backend: receive interrupts and single reads take turns on the receive queue.
 A receive interrupt runs to its end before a reader goes on, and `get` masks interrupts, so each is one step.
 */
module ReadProtocol {
  import opened StepSystems
  import opened Basics
  import opened BoundedQueue

  /**
   `arrived` is every byte the port has delivered and `taken` every byte that reads have returned. `takenAt`
   is where in the arrivals each of them was.
   */
  datatype State = State(size: nat, queue: seq<byte>, arrived: seq<byte>, taken: seq<byte>, takenAt: seq<nat>)

  /** `Read` is a `TryReadByte`; `ReadByte` is a row of them. */
  datatype Event = Receive(data: seq<byte>) | Read

  function Init(size: nat): State {
    State(size, [], [], [], [])
  }

  /** What a receive interrupt leaves in the queue; the chunks it puts do not show. */
  function AfterReceive(queue: seq<byte>, data: seq<byte>, size: nat): seq<byte> {
    Newest(queue + data, size)
  }

  function AfterRead(queue: seq<byte>): seq<byte> {
    if queue == [] then [] else queue[1..]
  }

  /** The position in the arrivals of the oldest byte that is still queued. */
  function Oldest(s: State): int {
    |s.arrived| - |s.queue|
  }

  function Next(s: State, e: Event): State {
    match e
    case Receive(data) => s.(queue := AfterReceive(s.queue, data, s.size), arrived := s.arrived + data)
    case Read =>
      if s.queue == [] then s
      else s.(queue := AfterRead(s.queue),
              taken := s.taken + [s.queue[0]],
              takenAt := s.takenAt + [if Oldest(s) >= 0 then Oldest(s) else 0])
  }

  function Exec(s: State, es: seq<Event>): State {
    EndOf(Next, s, es)
  }

  /** The queue is the end of what has arrived, and the reads are earlier arrivals in order. */
  ghost predicate InOrder(s: State) {
    && |s.queue| <= s.size
    && 0 <= Oldest(s)
    && s.queue == s.arrived[Oldest(s)..]
    && |s.takenAt| == |s.taken|
    && (forall i :: 0 <= i < |s.taken| ==> s.takenAt[i] < Oldest(s) && s.taken[i] == s.arrived[s.takenAt[i]])
    && (forall i, j :: 0 <= i < j < |s.taken| ==> s.takenAt[i] < s.takenAt[j])
  }

  /** A queue that is the end of the arrivals is so after a receive interrupt. */
  lemma NewestIsEnd(arrived: seq<byte>, from: nat, data: seq<byte>, size: nat)
    requires from <= |arrived|
    ensures var all, queue := arrived + data, Newest(arrived[from..] + data, size);
      |queue| <= |all| - from && queue == all[|all| - |queue|..]
  {
    assert arrived[from..] + data == (arrived + data)[from..];
  }

  lemma ReceiveKeepsOrder(s: State, data: seq<byte>)
    requires InOrder(s)
    ensures InOrder(Next(s, Receive(data)))
  {
    NewestIsEnd(s.arrived, Oldest(s), data, s.size);
    var r := Next(s, Receive(data));
    assert Oldest(s) <= Oldest(r);
    assert forall i :: 0 <= i < |s.taken| ==> r.arrived[s.takenAt[i]] == s.arrived[s.takenAt[i]];
  }

  lemma ReadKeepsOrder(s: State)
    requires InOrder(s)
    ensures InOrder(Next(s, Read))
  {
    var r := Next(s, Read);
    if s.queue != [] {
      assert s.queue[0] == s.arrived[Oldest(s)];
      assert r.queue == r.arrived[Oldest(r)..];
    }
  }

  lemma {:induction false} ExecKeepsOrder(s: State, es: seq<Event>)
    requires InOrder(s)
    ensures InOrder(Exec(s, es))
    decreases |es|
  {
    if es != [] {
      match es[0] {
        case Receive(data) => ReceiveKeepsOrder(s, data);
        case Read => ReadKeepsOrder(s);
      }
      ExecKeepsOrder(Next(s, es[0]), es[1..]);
    }
  }

  /** How many of the oldest bytes a receive interrupt pushes out. */
  function Overflow(s: State, e: Event): nat {
    if e.Receive? && |s.queue| + |e.data| > s.size then |s.queue| + |e.data| - s.size else 0
  }

  /** How many bytes a run drops. */
  function Dropped(s: State, es: seq<Event>): nat
    decreases |es|
  {
    if es == [] then 0 else Overflow(s, es[0]) + Dropped(Next(s, es[0]), es[1..])
  }

  lemma {:induction false} DroppedAccounts(s: State, es: seq<Event>)
    requires |s.queue| <= s.size
    ensures var r := Exec(s, es);
      |r.arrived| - |r.queue| - |r.taken| == |s.arrived| - |s.queue| - |s.taken| + Dropped(s, es)
    decreases |es|
  {
    if es != [] {
      DroppedAccounts(Next(s, es[0]), es[1..]);
    }
  }

  /**
   In every run of receive interrupts and reads, what has been read and then what is queued are bytes that
   arrived, in their order and none of them twice; the queue is the very end of the arrivals, and the only
   bytes missing are those that overflow dropped.
   */
  lemma ReadsAreArrivalsInOrder(size: nat, es: seq<Event>)
    ensures var s := Exec(Init(size), es);
      && InOrder(s)
      && |s.arrived| == |s.taken| + Dropped(Init(size), es) + |s.queue|
  {
    ExecKeepsOrder(Init(size), es);
    DroppedAccounts(Init(size), es);
  }

  /** What the receive interrupts of a run have delivered. */
  function Received(es: seq<Event>): seq<byte> {
    if es == [] then []
    else (match es[0] case Receive(data) => data case Read => []) + Received(es[1..])
  }

  /** Nothing counts as arrived but what the receive interrupts have delivered, in their order. */
  lemma {:induction false} ArrivedIsReceived(s: State, es: seq<Event>)
    ensures Exec(s, es).arrived == s.arrived + Received(es)
    decreases |es|
  {
    if es != [] {
      ArrivedIsReceived(Next(s, es[0]), es[1..]);
    }
  }

  function Reads(n: nat): seq<Event> {
    if n == 0 then [] else [Read] + Reads(n - 1)
  }

  /** Reads in a row take the oldest queued bytes in their order, as many as there are. */
  lemma {:induction false} ReadsTakeOldest(s: State, n: nat)
    ensures var r, k := Exec(s, Reads(n)), Min(n, |s.queue|);
      && r.taken == s.taken + s.queue[..k]
      && r.queue == s.queue[k..]
      && r.arrived == s.arrived
    decreases n
  {
    if n > 0 {
      assert Reads(n)[1..] == Reads(n - 1);
      ReadsTakeOldest(Next(s, Read), n - 1);
    }
  }

  lemma ReadsTakeAll(s: State, n: nat)
    requires |s.queue| <= n
    ensures var r := Exec(s, Reads(n));
      r.queue == [] && r.taken == s.taken + s.queue && r.arrived == s.arrived
  {
    ReadsTakeOldest(s, n);
    assert s.queue[..|s.queue|] == s.queue && s.queue[|s.queue|..] == [];
  }

  /**
   What a receive interrupt delivers can be read: after any run, as many reads as the queue can hold return
   everything that is left of the arrivals, ending with the newest of them.
   */
  lemma {:induction false} QueuedIsRead(size: nat, es: seq<Event>, data: seq<byte>)
    ensures var s := Exec(Init(size), es);
      var r := Exec(Next(s, Receive(data)), Reads(size));
      && r.queue == []
      && r.arrived == Received(es) + data
      && r.taken == s.taken + Newest(s.queue + data, size)
  {
    var s := Exec(Init(size), es);
    ArrivedIsReceived(Init(size), es);
    ExecKeepsSize(Init(size), es);
    ReadsTakeAll(Next(s, Receive(data)), size);
  }

  lemma {:induction false} ExecKeepsSize(s: State, es: seq<Event>)
    ensures Exec(s, es).size == s.size
    decreases |es|
  {
    if es != [] {
      ExecKeepsSize(Next(s, es[0]), es[1..]);
    }
  }

  /** Increasing positions below `n`, as many as `n`, are all of them. */
  lemma {:induction false} AllPositions(at: seq<nat>, n: nat)
    requires |at| == n && forall i :: 0 <= i < n ==> at[i] < n
    requires forall i, j :: 0 <= i < j < n ==> at[i] < at[j]
    ensures forall i :: 0 <= i < n ==> at[i] == i
    decreases n
  {
    if n > 0 {
      forall i | 0 <= i < n - 1
        ensures at[i] < n - 1
      {
        assert at[i] < at[n - 1];
      }
      AllPositions(at[..n - 1], n - 1);
      assert forall i :: 0 <= i < n - 1 ==> at[i] == at[..n - 1][i];
      if n > 1 {
        assert at[n - 2] < at[n - 1];
      }
    }
  }

  /** Every byte that arrived has been read or is queued if and only if no receive interrupt overflowed. */
  lemma NothingLostIff(size: nat, es: seq<Event>)
    ensures var s := Exec(Init(size), es);
      s.taken + s.queue == s.arrived <==> Dropped(Init(size), es) == 0
  {
    ReadsAreArrivalsInOrder(size, es);
    var s := Exec(Init(size), es);
    if Dropped(Init(size), es) == 0 {
      AllPositions(s.takenAt, |s.taken|);
      assert s.taken == s.arrived[..Oldest(s)];
    } else {
      assert |s.taken + s.queue| < |s.arrived|;
    }
  }
}
