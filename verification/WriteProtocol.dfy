/**
 The transmit side of the serial backend as a step system: any number of threads run `WriteByte`,
 `WriteBytes` and `WriteLine` under one recursive mutex while transmit interrupts arrive at any point.

 One step is one critical section or one statement that touches shared state. The transmit ring buffer
 is its abstract queue, which every operation of the ring buffer class is proved to maintain.
 */
module WriteProtocol {
  import opened StepSystems
  import opened Basics
  import opened BoundedQueue

  const NEWLINE: byte := 10

  /** The transmit queue, the `tx_sending_` flag and every byte handed to the serial port so far. */
  datatype Tx = Tx(queue: seq<byte>, sending: bool, sent: seq<byte>)

  /** One send loop moves some bytes: at least one when there is any, at most all of them. */
  predicate BurstOk(tx: Tx, k: nat) {
    k <= |tx.queue| && (tx.queue != [] ==> k > 0)
  }

  function Moved(tx: Tx, k: nat): Tx
    requires k <= |tx.queue|
  {
    Tx(tx.queue[k..], tx.sending || k > 0, tx.sent + tx.queue[..k])
  }

  function AfterInterrupt(tx: Tx, k: nat): Tx
    requires BurstOk(tx, k)
  {
    if tx.queue == [] then tx.(sending := false) else Moved(tx, k)
  }

  function AfterTrigger(tx: Tx, k: nat): Tx
    requires tx.sending || BurstOk(tx, k)
  {
    if tx.sending then tx else Moved(tx, k)
  }

  datatype Call = Byte(b: byte) | Bytes(data: seq<byte>) | Line(text: seq<byte>)

  /** The bytes that a call must put on the wire. */
  function Payload(c: Call): seq<byte> {
    match c
    case Byte(b) => [b]
    case Bytes(data) => data
    case Line(text) => text + [NEWLINE]
  }

  function Payloads(calls: seq<Call>): seq<seq<byte>> {
    seq(|calls|, i requires 0 <= i < |calls| => Payload(calls[i]))
  }

  /** Where a thread is inside a call. `WriteLine` goes through the points of the two other calls. */
  datatype Pc =
    | EnterLine | EnterBytes | BytesLoop | BytesPut(n: nat) | BytesSend | ExitBytes
    | EnterByte | ByteTest | BytePut | ByteSend | ExitByte | ExitLine

  /** `done` counts the bytes of the payload already accepted by the transmit queue. */
  datatype Thread = Idle | Active(call: Call, pc: Pc, done: nat)

  datatype State = State(
    size: nat,
    tx: Tx,
    threads: map<nat, Thread>,
    owner: Option<nat>,
    depth: nat,
    accepted: seq<byte>,
    finished: seq<Call>)

  datatype Event = Begin(t: nat, call: Call) | Advance(t: nat, burst: nat) | Interrupt(burst: nat)

  function ThreadOf(s: State, t: nat): Thread {
    if t in s.threads then s.threads[t] else Idle
  }

  /** Mutex acquisitions of an enclosing `WriteLine` around the inner calls. */
  function Base(c: Call): nat {
    if c.Line? then 1 else 0
  }

  /** How many times a thread holds the write mutex. */
  function Held(th: Thread): nat {
    match th
    case Idle => 0
    case Active(c, pc, _) =>
      match pc
      case EnterLine => 0
      case EnterBytes | EnterByte => Base(c)
      case ExitLine => 1
      case _ => Base(c) + 1
  }

  function Init(size: nat): State {
    State(size, Tx([], false, []), map[], None, 0, [], [])
  }

  predicate CanEnter(s: State, t: nat) {
    s.owner == None || s.owner == Some(t)
  }

  predicate Enabled(s: State, e: Event) {
    match e
    case Begin(t, _) => ThreadOf(s, t) == Idle
    case Interrupt(k) => BurstOk(s.tx, k)
    case Advance(t, k) =>
      match ThreadOf(s, t)
      case Idle => false
      case Active(c, pc, done) =>
        match pc
        case EnterLine | EnterBytes | EnterByte => CanEnter(s, t)
        case BytesSend | ByteSend => s.tx.sending || BurstOk(s.tx, k)
        case _ => true
  }

  function Goto(s: State, t: nat, th: Thread): State {
    s.(threads := s.threads[t := th])
  }

  function Acquire(s: State, t: nat): State {
    s.(owner := Some(t), depth := s.depth + 1)
  }

  function Release(s: State): State {
    if s.depth <= 1 then s.(owner := None, depth := 0) else s.(depth := s.depth - 1)
  }

  /** The ring buffer `put`: it would drop the oldest bytes if there were no room. */
  function Put(s: State, data: seq<byte>): State {
    s.(tx := s.tx.(queue := Newest(s.tx.queue + data, s.size)), accepted := s.accepted + data)
  }

  /** The bytes that the inner `WriteBytes` still has to write. */
  function Rest(c: Call, done: nat): seq<byte> {
    match c
    case Byte(_) => []
    case Bytes(data) => if done <= |data| then data[done..] else []
    case Line(text) => if done <= |text| then text[done..] else []
  }

  function ByteOf(c: Call): byte {
    if c.Byte? then c.b else NEWLINE
  }

  function StartPc(c: Call): Pc {
    match c
    case Byte(_) => EnterByte
    case Bytes(_) => EnterBytes
    case Line(_) => EnterLine
  }

  /** A call is over once it gives the mutex back for the last time. */
  function Return(s: State, t: nat, c: Call): State {
    Goto(Release(s), t, Idle).(finished := s.finished + [c])
  }

  function Step(s: State, t: nat, c: Call, pc: Pc, done: nat, k: nat): State
    requires pc.BytesSend? || pc.ByteSend? ==> s.tx.sending || BurstOk(s.tx, k)
  {
    match pc
    case EnterLine => Goto(Acquire(s, t), t, Active(c, EnterBytes, done))
    case EnterBytes => Goto(Acquire(s, t), t, Active(c, BytesLoop, done))
    case BytesLoop =>
      var rest := Rest(c, done);
      if rest == [] then Goto(s, t, Active(c, ExitBytes, done))
      else
        var room := if |s.tx.queue| < s.size then s.size - |s.tx.queue| else 0;
        Goto(s, t, Active(c, BytesPut(Min(room, |rest|)), done))
    case BytesPut(n) =>
      var data := if n <= |Rest(c, done)| then Rest(c, done)[..n] else [];
      Goto(Put(s, data), t, Active(c, BytesSend, done + |data|))
    case BytesSend => Goto(s.(tx := AfterTrigger(s.tx, k)), t, Active(c, BytesLoop, done))
    case ExitBytes =>
      if c.Line? then Goto(Release(s), t, Active(c, EnterByte, done)) else Return(s, t, c)
    case EnterByte => Goto(Acquire(s, t), t, Active(c, ByteTest, done))
    case ByteTest => if |s.tx.queue| >= s.size then s else Goto(s, t, Active(c, BytePut, done))
    case BytePut => Goto(Put(s, [ByteOf(c)]), t, Active(c, ByteSend, done + 1))
    case ByteSend => Goto(s.(tx := AfterTrigger(s.tx, k)), t, Active(c, ExitByte, done))
    case ExitByte =>
      if c.Line? then Goto(Release(s), t, Active(c, ExitLine, done)) else Return(s, t, c)
    case ExitLine => Return(s, t, c)
  }

  /** The state after an event; an event that is not enabled does nothing. */
  function Next(s: State, e: Event): State {
    if !Enabled(s, e) then s
    else match e
    case Begin(t, c) => Goto(s, t, Active(c, StartPc(c), 0))
    case Interrupt(k) => s.(tx := AfterInterrupt(s.tx, k))
    case Advance(t, k) =>
      var th := ThreadOf(s, t);
      Step(s, t, th.call, th.pc, th.done, k)
  }

  // ---- Invariant ----

  /** The shape of a thread: which points its call can be at and how much it has written there. */
  predicate ThreadOk(th: Thread) {
    th.Active? ==>
      var c := th.call;
      var total := |Payload(c)|;
      match th.pc
      case EnterLine => c.Line? && th.done == 0
      case EnterBytes => !c.Byte? && th.done == 0
      case BytesLoop | BytesSend => !c.Byte? && th.done + Base(c) <= total
      case BytesPut(n) => !c.Byte? && th.done + Base(c) <= total && n <= |Rest(c, th.done)|
      case ExitBytes => !c.Byte? && th.done + Base(c) == total
      case EnterByte | ByteTest | BytePut => !c.Bytes? && th.done + 1 == total
      case ByteSend | ExitByte => !c.Bytes? && th.done == total
      case ExitLine => c.Line? && th.done == total
  }

  /** What the mutex holder has seen of the queue stays true: only the holder adds to it. */
  predicate RoomOk(s: State, th: Thread) {
    th.Active? ==>
      && (th.pc.BytesPut? ==> |s.tx.queue| + th.pc.n <= s.size)
      && (th.pc.BytePut? ==> |s.tx.queue| < s.size)
  }

  function HolderThread(s: State): Thread {
    if s.owner.Some? then ThreadOf(s, s.owner.value) else Idle
  }

  /** The part of its payload that a call has had accepted so far. */
  function Progress(th: Thread): seq<byte> {
    if th.Active? && th.done <= |Payload(th.call)| then Payload(th.call)[..th.done] else []
  }

  /** A `put` has been done and its `trigger_send` has not. */
  predicate Putting(th: Thread) {
    th.Active? && (th.pc.BytesSend? || th.pc.ByteSend?)
  }

  /** The mutex and the threads: who is inside, and where each call is. */
  ghost predicate ControlOk(s: State) {
    && s.depth == Held(HolderThread(s))
    && (s.owner.Some? <==> s.depth > 0)
    && (forall t :: t in s.threads && s.owner != Some(t) ==> Held(s.threads[t]) == 0)
    && (forall t :: t in s.threads ==> ThreadOk(s.threads[t]))
  }

  /** The bytes, seen from the thread that holds the mutex. */
  predicate StreamOk(s: State, holder: Thread) {
    && RoomOk(s, holder)
    && |s.tx.queue| <= s.size
    && s.tx.sent + s.tx.queue == s.accepted
    && s.accepted == Flatten(Payloads(s.finished)) + Progress(holder)
    && (s.tx.queue != [] ==> s.tx.sending || Putting(holder))
  }

  ghost predicate Inv(s: State) {
    ControlOk(s) && StreamOk(s, HolderThread(s))
  }

  lemma InitHolds(size: nat)
    ensures Inv(Init(size))
  {
  }

  /** Sending never changes what has been accepted: the bytes sent followed by the bytes queued. */
  lemma SendingConserves(tx: Tx, k: nat)
    requires k <= |tx.queue|
    ensures Moved(tx, k).sent + Moved(tx, k).queue == tx.sent + tx.queue
  {
    assert tx.sent + tx.queue[..k] + tx.queue[k..] == tx.sent + tx.queue;
  }

  lemma InterruptKeepsInv(s: State, k: nat)
    requires Inv(s) && BurstOk(s.tx, k)
    ensures Inv(Next(s, Interrupt(k)))
  {
    SendingConserves(s.tx, k);
    assert HolderThread(Next(s, Interrupt(k))) == HolderThread(s);
  }

  /** A thread that is in no call may start one: it is not inside yet. */
  lemma BeginKeepsInv(s: State, t: nat, c: Call)
    requires Inv(s) && ThreadOf(s, t) == Idle
    ensures Inv(Next(s, Begin(t, c)))
  {
    var th := Active(c, StartPc(c), 0);
    assert s.owner != Some(t) && ThreadOk(th) && Held(th) == 0;
    assert HolderThread(Next(s, Begin(t, c))) == HolderThread(s);
  }

  /** Only the mutex holder is past the point where a call takes the mutex. */
  lemma InsideMeansHolder(s: State, t: nat)
    requires ControlOk(s) && Held(ThreadOf(s, t)) > 0
    ensures s.owner == Some(t) && s.depth == Held(ThreadOf(s, t)) && HolderThread(s) == ThreadOf(s, t)
  {
  }

  /** Which thread is inside once a thread that may be inside is at `th`. */
  function Inside(th: Thread): Thread {
    if Held(th) > 0 then th else Idle
  }

  /** `r` is `s` after a step of thread `t` to `th`, as far as the mutex and the threads go. */
  predicate Moves(s: State, r: State, t: nat, th: Thread) {
    && r.threads == s.threads[t := th]
    && r.depth == Held(th)
    && r.owner == if Held(th) > 0 then Some(t) else None
  }

  lemma MoveKeepsControl(s: State, r: State, t: nat, th: Thread)
    requires ControlOk(s) && CanEnter(s, t) && Moves(s, r, t, th) && ThreadOk(th)
    ensures ControlOk(r) && HolderThread(r) == Inside(th)
  {
  }

  /** A step that leaves the bytes alone and the progress of the thread inside where it is. */
  lemma SameStream(s: State, r: State, before: Thread, after: Thread)
    requires StreamOk(s, before) && Progress(after) == Progress(before) && !Putting(before)
    requires r.size == s.size && r.tx == s.tx && r.accepted == s.accepted && r.finished == s.finished
    requires RoomOk(r, after)
    ensures StreamOk(r, after)
  {
  }

  ghost predicate At(s: State, t: nat, c: Call, pc: Pc, done: nat) {
    Inv(s) && ThreadOf(s, t) == Active(c, pc, done)
  }

  lemma EnterKeepsInv(s: State, t: nat, c: Call, pc: Pc, done: nat)
    requires At(s, t, c, pc, done) && (pc.EnterLine? || pc.EnterBytes? || pc.EnterByte?) && CanEnter(s, t)
    ensures Inv(Step(s, t, c, pc, done, 0))
  {
    var next := if pc.EnterLine? then EnterBytes else if pc.EnterBytes? then BytesLoop else ByteTest;
    var th, r := Active(c, next, done), Step(s, t, c, pc, done, 0);
    if Held(ThreadOf(s, t)) > 0 {
      InsideMeansHolder(s, t);
    }
    assert HolderThread(s) == Inside(ThreadOf(s, t));
    MoveKeepsControl(s, r, t, th);
    SameStream(s, r, HolderThread(s), Inside(th));
  }

  lemma BytesLoopKeepsInv(s: State, t: nat, c: Call, done: nat)
    requires At(s, t, c, BytesLoop, done)
    ensures Inv(Step(s, t, c, BytesLoop, done, 0))
  {
    InsideMeansHolder(s, t);
    var rest := Rest(c, done);
    var room := if |s.tx.queue| < s.size then s.size - |s.tx.queue| else 0;
    var th := Active(c, if rest == [] then ExitBytes else BytesPut(Min(room, |rest|)), done);
    var r := Step(s, t, c, BytesLoop, done, 0);
    assert Moves(s, r, t, th) && ThreadOk(th);
    MoveKeepsControl(s, r, t, th);
    SameStream(s, r, HolderThread(s), th);
  }

  lemma ByteTestKeepsInv(s: State, t: nat, c: Call, done: nat)
    requires At(s, t, c, ByteTest, done)
    ensures Inv(Step(s, t, c, ByteTest, done, 0))
  {
    InsideMeansHolder(s, t);
    if |s.tx.queue| < s.size {
      var r := Step(s, t, c, ByteTest, done, 0);
      MoveKeepsControl(s, r, t, Active(c, BytePut, done));
      SameStream(s, r, HolderThread(s), Active(c, BytePut, done));
    }
  }

  /** Bytes accepted at the right place of the payload extend the accepted stream by as much progress. */
  lemma AcceptedGrows(past: seq<byte>, payload: seq<byte>, done: nat, data: seq<byte>)
    requires done + |data| <= |payload| && data == payload[done..done + |data|]
    ensures past + payload[..done] + data == past + payload[..done + |data|]
  {
    assert payload[..done] + data == payload[..done + |data|];
  }

  /** The next bytes of the inner `WriteBytes` are the next bytes of the payload. */
  lemma RestIsPayload(c: Call, done: nat, n: nat)
    requires n <= |Rest(c, done)| && done + Base(c) <= |Payload(c)|
    ensures done + n <= |Payload(c)| && Rest(c, done)[..n] == Payload(c)[done..done + n]
  {
    match c
    case Byte(_) =>
    case Bytes(data) =>
    case Line(text) =>
      assert text[done..][..n] == (text + [NEWLINE])[done..done + n];
  }

  /** A `put` of the next bytes of the payload, for which the holder has seen room, loses nothing. */
  lemma PutKeepsStream(s: State, before: Thread, data: seq<byte>, after: Thread)
    requires StreamOk(s, before) && before.Active? && after.Active? && Putting(after)
    requires before.call == after.call && after.done == before.done + |data| <= |Payload(after.call)|
    requires data == Payload(before.call)[before.done..after.done] && |s.tx.queue| + |data| <= s.size
    ensures StreamOk(Put(s, data), after)
  {
    var past, payload := Flatten(Payloads(s.finished)), Payload(before.call);
    AcceptedGrows(past, payload, before.done, data);
    assert Progress(before) == payload[..before.done] && Progress(after) == payload[..after.done];
    assert Put(s, data).accepted == past + Progress(after);
    assert Newest(s.tx.queue + data, s.size) == s.tx.queue + data;
    assert s.tx.sent + (s.tx.queue + data) == s.tx.sent + s.tx.queue + data;
  }

  lemma BytesPutKeepsInv(s: State, t: nat, c: Call, n: nat, done: nat)
    requires At(s, t, c, BytesPut(n), done)
    ensures Inv(Step(s, t, c, BytesPut(n), done, 0))
  {
    InsideMeansHolder(s, t);
    RestIsPayload(c, done, n);
    var r, data, th := Step(s, t, c, BytesPut(n), done, 0), Rest(c, done)[..n], Active(c, BytesSend, done + n);
    PutKeepsStream(s, HolderThread(s), data, th);
    MoveKeepsControl(s, r, t, th);
  }

  lemma BytePutKeepsInv(s: State, t: nat, c: Call, done: nat)
    requires At(s, t, c, BytePut, done)
    ensures Inv(Step(s, t, c, BytePut, done, 0))
  {
    InsideMeansHolder(s, t);
    var r, data, th := Step(s, t, c, BytePut, done, 0), [ByteOf(c)], Active(c, ByteSend, done + 1);
    assert data == Payload(c)[done..done + 1];
    PutKeepsStream(s, HolderThread(s), data, th);
    MoveKeepsControl(s, r, t, th);
  }

  lemma SendKeepsInv(s: State, t: nat, c: Call, pc: Pc, done: nat, k: nat)
    requires At(s, t, c, pc, done) && (pc.BytesSend? || pc.ByteSend?) && (s.tx.sending || BurstOk(s.tx, k))
    ensures Inv(Step(s, t, c, pc, done, k))
  {
    InsideMeansHolder(s, t);
    var th := Active(c, if pc.BytesSend? then BytesLoop else ExitByte, done);
    var r := Step(s, t, c, pc, done, k);
    MoveKeepsControl(s, r, t, th);
    assert Progress(th) == Progress(HolderThread(s));
    if !s.tx.sending {
      SendingConserves(s.tx, k);
    }
  }

  lemma PayloadsAppend(calls: seq<Call>, c: Call)
    ensures Flatten(Payloads(calls + [c])) == Flatten(Payloads(calls)) + Payload(c)
  {
    assert Payloads(calls + [c]) == Payloads(calls) + [Payload(c)];
    FlattenAppend(Payloads(calls), Payload(c));
  }

  /** The end of the inner call of a `WriteLine`, which keeps the mutex. */
  lemma InnerExitKeepsInv(s: State, t: nat, c: Call, pc: Pc, done: nat)
    requires At(s, t, c, pc, done) && (pc.ExitBytes? || pc.ExitByte?) && c.Line?
    ensures Inv(Step(s, t, c, pc, done, 0))
  {
    InsideMeansHolder(s, t);
    var th, r := Active(c, if pc.ExitBytes? then EnterByte else ExitLine, done), Step(s, t, c, pc, done, 0);
    MoveKeepsControl(s, r, t, th);
    SameStream(s, r, HolderThread(s), th);
  }

  /** A call whose whole payload has been accepted joins the finished ones. */
  lemma FinishedGrows(s: State, r: State, before: Thread, c: Call)
    requires StreamOk(s, before) && Progress(before) == Payload(c) && !Putting(before)
    requires r.size == s.size && r.tx == s.tx && r.accepted == s.accepted && r.finished == s.finished + [c]
    ensures StreamOk(r, Idle)
  {
    PayloadsAppend(s.finished, c);
  }

  /** The end of a call, which gives the mutex back with its whole payload accepted. */
  lemma ReturnKeepsInv(s: State, t: nat, c: Call, pc: Pc, done: nat)
    requires At(s, t, c, pc, done) && (pc.ExitLine? || ((pc.ExitBytes? || pc.ExitByte?) && !c.Line?))
    ensures Inv(Step(s, t, c, pc, done, 0))
  {
    InsideMeansHolder(s, t);
    var r := Step(s, t, c, pc, done, 0);
    MoveKeepsControl(s, r, t, Idle);
    assert Progress(HolderThread(s)) == Payload(c);
    FinishedGrows(s, r, HolderThread(s), c);
  }

  lemma StepKeepsInv(s: State, t: nat, c: Call, pc: Pc, done: nat, k: nat)
    requires At(s, t, c, pc, done) && Enabled(s, Advance(t, k))
    ensures Inv(Step(s, t, c, pc, done, k))
  {
    match pc
    case EnterLine | EnterBytes | EnterByte => EnterKeepsInv(s, t, c, pc, done);
    case BytesLoop => BytesLoopKeepsInv(s, t, c, done);
    case ByteTest => ByteTestKeepsInv(s, t, c, done);
    case BytesPut(n) => BytesPutKeepsInv(s, t, c, n, done);
    case BytePut => BytePutKeepsInv(s, t, c, done);
    case BytesSend | ByteSend => SendKeepsInv(s, t, c, pc, done, k);
    case ExitBytes | ExitByte | ExitLine =>
      if c.Line? && !pc.ExitLine? {
        InnerExitKeepsInv(s, t, c, pc, done);
      } else {
        ReturnKeepsInv(s, t, c, pc, done);
      }
  }

  // ---- Whole runs ----

  predicate Legal(s: State, es: seq<Event>) {
    LegalRun(Enabled, Next, s, es)
  }

  function Exec(s: State, es: seq<Event>): State {
    EndOf(Next, s, es)
  }

  lemma NextKeepsInv(s: State, e: Event)
    requires Inv(s) && Enabled(s, e)
    ensures Inv(Next(s, e))
  {
    match e
    case Begin(t, c) => BeginKeepsInv(s, t, c);
    case Interrupt(k) => InterruptKeepsInv(s, k);
    case Advance(t, k) =>
      var th := ThreadOf(s, t);
      StepKeepsInv(s, t, th.call, th.pc, th.done, k);
  }

  lemma ExecKeepsInv(s: State, es: seq<Event>)
    requires Inv(s) && Legal(s, es)
    ensures Inv(Exec(s, es))
  {
    forall r, e | Inv(r) && Enabled(r, e)
      ensures Inv(Next(r, e))
    {
      NextKeepsInv(r, e);
    }
    RunKeeps(Enabled, Next, Inv, s, es);
  }

  /**
   Conservation: in every run, the bytes given to the serial port followed by the bytes still queued are
   the accepted bytes in order. Nothing is dropped by the overwriting ring buffer, duplicated or swapped.
   */
  lemma TransmitConserves(size: nat, es: seq<Event>)
    requires Legal(Init(size), es)
    ensures var s := Exec(Init(size), es);
      s.tx.sent + s.tx.queue == s.accepted && |s.tx.queue| <= size
  {
    InitHolds(size);
    ExecKeepsInv(Init(size), es);
    SizeIsFixed(Init(size), es);
  }

  lemma {:induction false} SizeIsFixed(s: State, es: seq<Event>)
    requires Legal(s, es)
    ensures Exec(s, es).size == s.size
    decreases |es|
  {
    if es != [] {
      SizeIsFixed(Next(s, es[0]), es[1..]);
    }
  }

  /**
   Calls stay whole: in every run, the accepted stream is the payloads of the finished calls, in the order
   they finished, followed by a prefix of the payload of the one call that holds the mutex.
   */
  lemma CallsStayWhole(size: nat, es: seq<Event>)
    requires Legal(Init(size), es)
    ensures var s := Exec(Init(size), es);
      && s.accepted == Flatten(Payloads(s.finished)) + Progress(HolderThread(s))
      && (HolderThread(s).Active? ==> Progress(HolderThread(s)) <= Payload(HolderThread(s).call))
  {
    InitHolds(size);
    ExecKeepsInv(Init(size), es);
  }

  ghost predicate OnlyLines(s: State) {
    && (forall c :: c in s.finished ==> c.Line?)
    && (forall t :: t in s.threads && s.threads[t].Active? ==> s.threads[t].call.Line?)
  }

  lemma {:induction false} OnlyLinesIsKept(s: State, es: seq<Event>)
    requires Legal(s, es) && OnlyLines(s)
    requires forall e :: e in es && e.Begin? ==> e.call.Line?
    ensures OnlyLines(Exec(s, es))
    decreases |es|
  {
    if es != [] {
      assert es[0] in es;
      assert OnlyLines(Next(s, es[0]));
      OnlyLinesIsKept(Next(s, es[0]), es[1..]);
    }
  }

  /** Each line with its newline. */
  function Terminated(lines: seq<seq<byte>>): seq<seq<byte>> {
    seq(|lines|, i requires 0 <= i < |lines| => lines[i] + [NEWLINE])
  }

  ghost predicate HolderWrites(s: State, start: seq<byte>) {
    && s.owner.Some?
    && HolderThread(s).Active?
    && HolderThread(s).call.Line?
    && start <= HolderThread(s).call.text + [NEWLINE]
  }

  /**
   When every writer uses `WriteLine`, the stream is the lines of the finished calls, whole and in the order
   they finished, and then the start of the holder's line.
   */
  lemma LinesStayWhole(size: nat, es: seq<Event>) returns (lines: seq<seq<byte>>, last: seq<byte>)
    requires Legal(Init(size), es)
    requires forall e :: e in es && e.Begin? ==> e.call.Line?
    ensures var s := Exec(Init(size), es);
      && |lines| == |s.finished|
      && (forall i :: 0 <= i < |lines| ==> s.finished[i] == Line(lines[i]))
      && s.accepted == Flatten(Terminated(lines)) + last
      && (forall i :: 0 <= i < |lines| ==> Terminated(lines)[i] == lines[i] + [10])
      && (last == [] || HolderWrites(s, last))
  {
    CallsStayWhole(size, es);
    OnlyLinesIsKept(Init(size), es);
    var s := Exec(Init(size), es);
    lines := seq(|s.finished|, i requires 0 <= i < |s.finished| =>
      if s.finished[i].Line? then s.finished[i].text else []);
    last := Progress(HolderThread(s));
    forall i | 0 <= i < |s.finished|
      ensures s.finished[i] == Line(lines[i]) && Payloads(s.finished)[i] == Terminated(lines)[i]
    {
      assert s.finished[i] in s.finished;
    }
    assert Payloads(s.finished) == Terminated(lines);
  }

  /** In every run, at most one thread is past the point where a call takes the mutex, and it is the owner. */
  lemma MutualExclusion(size: nat, es: seq<Event>, t: nat, u: nat)
    requires Legal(Init(size), es)
    requires Held(ThreadOf(Exec(Init(size), es), t)) > 0 && Held(ThreadOf(Exec(Init(size), es), u)) > 0
    ensures t == u && Exec(Init(size), es).owner == Some(t)
    ensures Exec(Init(size), es).depth == Held(ThreadOf(Exec(Init(size), es), t))
  {
    InitHolds(size);
    ExecKeepsInv(Init(size), es);
    InsideMeansHolder(Exec(Init(size), es), t);
    InsideMeansHolder(Exec(Init(size), es), u);
  }

  // ---- Progress of the mutex holder ----

  /** The most steps and interrupts that a thread inside needs to finish its call, if no time is wasted. */
  function Distance(s: State, th: Thread): nat {
    match th
    case Idle => 0
    case Active(c, pc, done) =>
      var rest := |Rest(c, done)|;
      var full := |s.tx.queue| >= s.size;
      match pc
      case EnterLine => 11 + 4 * rest
      case EnterBytes | BytesSend => 10 + 4 * rest
      case BytesLoop => if rest > 0 && !full then 8 + 4 * rest else 9 + 4 * rest
      case BytesPut(n) => 11 + 4 * |Rest(c, done + n)|
      case ExitBytes => 8
      case EnterByte => 7
      case ByteTest => if full then 6 else 5
      case BytePut => 4
      case ByteSend => 3
      case ExitByte => 2
      case ExitLine => 1
  }

  /** The thread can do nothing but look at the full queue again. */
  predicate Spins(s: State, th: Thread) {
    && |s.tx.queue| >= s.size
    && th.Active?
    && (th.pc.ByteTest? || (th.pc.BytesLoop? && Rest(th.call, th.done) != []))
  }

  /** A thread runs unless it would spin; then a transmit interrupt comes. The port moves `k` bytes if it can. */
  function Turn(s: State, t: nat, k: nat): Event {
    var burst := if BurstOk(s.tx, k) then k else Min(1, |s.tx.queue|);
    if Spins(s, ThreadOf(s, t)) then Interrupt(burst) else Advance(t, burst)
  }

  /** The turns of a thread until its call is over, for any answers of the port. */
  function Turns(s: State, t: nat, ks: seq<nat>): seq<Event>
    decreases |ks|
  {
    if ks == [] || ThreadOf(s, t) == Idle then []
    else [Turn(s, t, ks[0])] + Turns(Next(s, Turn(s, t, ks[0])), t, ks[1..])
  }

  /** A thread that is inside, or finds the mutex free, has a call to finish and a queue that can hold a byte. */
  ghost predicate CanFinish(s: State, t: nat) {
    Inv(s) && s.size > 0 && CanEnter(s, t) && ThreadOf(s, t).Active?
  }

  /** `r` is one turn of `t` after `s`: the call is over, or closer to its end. */
  predicate Closer(s: State, r: State, t: nat) {
    var th, next := ThreadOf(s, t), ThreadOf(r, t);
    && r.size == s.size
    && th.Active?
    && Distance(s, th) > 0
    && if next == Idle then r.finished == s.finished + [th.call]
       else
         && next.call == th.call
         && r.finished == s.finished
         && CanEnter(r, t)
         && Distance(r, next) < Distance(s, th)
  }

  /** What one turn needs of a state in which the thread can finish its call. */
  predicate Ready(s: State, t: nat, k: nat) {
    var th := ThreadOf(s, t);
    && 0 < s.size
    && |s.tx.queue| <= s.size
    && BurstOk(s.tx, k)
    && th.Active?
    && ThreadOk(th)
    && RoomOk(s, Inside(th))
    && CanEnter(s, t)
    && s.depth == Held(th)
    && (Held(th) > 0 ==> s.owner == Some(t))
  }

  lemma CanFinishIsReady(s: State, t: nat, k: nat)
    requires CanFinish(s, t) && BurstOk(s.tx, k)
    ensures Ready(s, t, k)
  {
    if Held(ThreadOf(s, t)) > 0 {
      InsideMeansHolder(s, t);
    }
  }

  lemma InterruptBringsCloser(s: State, t: nat, k: nat)
    requires Ready(s, t, k) && Spins(s, ThreadOf(s, t))
    ensures Closer(s, Next(s, Interrupt(k)), t)
  {
  }

  lemma RestShrinks(c: Call, done: nat, n: nat)
    requires n <= |Rest(c, done)|
    ensures |Rest(c, done + n)| == |Rest(c, done)| - n
  {
  }

  lemma LoopBringsCloser(s: State, t: nat, k: nat)
    requires Ready(s, t, k) && !Spins(s, ThreadOf(s, t)) && ThreadOf(s, t).pc.BytesLoop?
    ensures Enabled(s, Advance(t, k)) && Closer(s, Next(s, Advance(t, k)), t)
  {
    var c, done := ThreadOf(s, t).call, ThreadOf(s, t).done;
    var room := if |s.tx.queue| < s.size then s.size - |s.tx.queue| else 0;
    RestShrinks(c, done, Min(room, |Rest(c, done)|));
  }

  lemma PutBringsCloser(s: State, t: nat, k: nat)
    requires Ready(s, t, k) && ThreadOf(s, t).pc.BytesPut?
    ensures Enabled(s, Advance(t, k)) && Closer(s, Next(s, Advance(t, k)), t)
  {
  }

  lemma SendBringsCloser(s: State, t: nat, k: nat)
    requires Ready(s, t, k) && (ThreadOf(s, t).pc.BytesSend? || ThreadOf(s, t).pc.ByteSend?)
    ensures Enabled(s, Advance(t, k)) && Closer(s, Next(s, Advance(t, k)), t)
  {
  }

  lemma ByteBringsCloser(s: State, t: nat, k: nat)
    requires Ready(s, t, k) && !Spins(s, ThreadOf(s, t))
    requires ThreadOf(s, t).pc.ByteTest? || ThreadOf(s, t).pc.BytePut?
    ensures Enabled(s, Advance(t, k)) && Closer(s, Next(s, Advance(t, k)), t)
  {
  }

  /** Taking the mutex, for the first time or again. */
  lemma EntryBringsCloser(s: State, t: nat, k: nat)
    requires Ready(s, t, k)
    requires var pc := ThreadOf(s, t).pc; pc.EnterLine? || pc.EnterBytes? || pc.EnterByte?
    ensures Enabled(s, Advance(t, k)) && Closer(s, Next(s, Advance(t, k)), t)
  {
  }

  /** Giving the mutex back, for the last time or not. */
  lemma ExitBringsCloser(s: State, t: nat, k: nat)
    requires Ready(s, t, k)
    requires var pc := ThreadOf(s, t).pc; pc.ExitBytes? || pc.ExitByte? || pc.ExitLine?
    ensures Enabled(s, Advance(t, k)) && Closer(s, Next(s, Advance(t, k)), t)
  {
  }

  lemma TurnBringsCloser(s: State, t: nat, k: nat)
    requires CanFinish(s, t)
    ensures Enabled(s, Turn(s, t, k)) && Closer(s, Next(s, Turn(s, t, k)), t)
  {
    var burst := if BurstOk(s.tx, k) then k else Min(1, |s.tx.queue|);
    CanFinishIsReady(s, t, burst);
    if Spins(s, ThreadOf(s, t)) {
      InterruptBringsCloser(s, t, burst);
    } else {
      match ThreadOf(s, t).pc
      case EnterLine | EnterBytes | EnterByte => EntryBringsCloser(s, t, burst);
      case BytesLoop => LoopBringsCloser(s, t, burst);
      case BytesPut(_) => PutBringsCloser(s, t, burst);
      case ByteTest | BytePut => ByteBringsCloser(s, t, burst);
      case BytesSend | ByteSend => SendBringsCloser(s, t, burst);
      case ExitBytes | ExitByte | ExitLine => ExitBringsCloser(s, t, burst);
    }
  }

  lemma TurnKeepsFinishing(s: State, t: nat, k: nat)
    requires CanFinish(s, t)
    ensures var e := Turn(s, t, k);
      && Enabled(s, e)
      && Closer(s, Next(s, e), t)
      && (ThreadOf(Next(s, e), t) != Idle ==> CanFinish(Next(s, e), t))
  {
    TurnBringsCloser(s, t, k);
    NextKeepsInv(s, Turn(s, t, k));
  }

  /** No call is further from its end than its payload is long. */
  lemma DistanceBound(s: State, th: Thread)
    requires th.Active?
    ensures Distance(s, th) <= 11 + 4 * |Payload(th.call)|
  {
    var c := th.call;
    assert |Rest(c, th.done)| <= |Payload(c)|;
    assert th.pc.BytesPut? ==> |Rest(c, th.done + th.pc.n)| <= |Payload(c)|;
  }

  lemma {:induction false} TurnsFinish(s: State, t: nat, ks: seq<nat>)
    requires CanFinish(s, t) && |ks| >= Distance(s, ThreadOf(s, t))
    ensures Legal(s, Turns(s, t, ks)) && |Turns(s, t, ks)| <= Distance(s, ThreadOf(s, t))
    ensures var r := Exec(s, Turns(s, t, ks));
      ThreadOf(r, t) == Idle && r.finished == s.finished + [ThreadOf(s, t).call]
    decreases |ks|
  {
    TurnKeepsFinishing(s, t, ks[0]);
    var e := Turn(s, t, ks[0]);
    var r := Next(s, e);
    var rest := Turns(r, t, ks[1..]);
    assert Turns(s, t, ks) == [e] + rest;
    Unfold(Enabled, Next, s, e, rest);
    if ThreadOf(r, t) != Idle {
      TurnsFinish(r, t, ks[1..]);
    } else {
      assert rest == [];
    }
  }

  /**
   From every reachable state, the thread that holds the mutex, and any caller while the mutex is free,
   finishes its call within `Distance` turns of its own and interrupts, whatever the port answers: the
   re-entered mutex never blocks it and no wait for room lasts longer than one interrupt.
   */
  lemma HolderFinishes(size: nat, es: seq<Event>, t: nat, ks: seq<nat>)
    requires size > 0 && Legal(Init(size), es)
    requires ThreadOf(Exec(Init(size), es), t).Active? && CanEnter(Exec(Init(size), es), t)
    requires |ks| >= Distance(Exec(Init(size), es), ThreadOf(Exec(Init(size), es), t))
    ensures var s := Exec(Init(size), es);
      var turns := Turns(s, t, ks);
      && Legal(s, turns)
      && |turns| <= Distance(s, ThreadOf(s, t)) <= 11 + 4 * |Payload(ThreadOf(s, t).call)|
      && ThreadOf(Exec(s, turns), t) == Idle
      && Exec(s, turns).finished == s.finished + [ThreadOf(s, t).call]
  {
    InitHolds(size);
    ExecKeepsInv(Init(size), es);
    SizeIsFixed(Init(size), es);
    TurnsFinish(Exec(Init(size), es), t, ks);
    DistanceBound(Exec(Init(size), es), ThreadOf(Exec(Init(size), es), t));
  }

  /** The recursive mutex never blocks its holder: the inner calls of `WriteLine` always get it again. */
  lemma HolderIsNeverBlocked(size: nat, es: seq<Event>)
    requires Legal(Init(size), es)
    ensures var s := Exec(Init(size), es);
      s.owner.Some? ==> Enabled(s, Advance(s.owner.value, Min(1, |s.tx.queue|)))
  {
    InitHolds(size);
    ExecKeepsInv(Init(size), es);
  }

  /** Only a call whose whole payload has been accepted goes back to idle. */
  lemma ReturnAccepts(s: State, t: nat)
    requires Inv(s) && ThreadOf(s, t).Active? && Enabled(s, Advance(t, 0))
    requires ThreadOf(Next(s, Advance(t, 0)), t) == Idle
    ensures var c := ThreadOf(s, t).call;
      && Next(s, Advance(t, 0)).finished == s.finished + [c]
      && Next(s, Advance(t, 0)).accepted == s.accepted == Flatten(Payloads(s.finished)) + Payload(c)
  {
    var th := ThreadOf(s, t);
    assert th.pc.ExitBytes? || th.pc.ExitByte? || th.pc.ExitLine?;
    InsideMeansHolder(s, t);
    assert ThreadOk(th) && Progress(th) == Payload(th.call);
  }

  /** A call returns only when exactly its payload has been accepted after the calls before it. */
  lemma ReturningCallIsAccepted(size: nat, es: seq<Event>, t: nat)
    requires Legal(Init(size), es) && ThreadOf(Exec(Init(size), es), t).Active?
    requires Enabled(Exec(Init(size), es), Advance(t, 0))
    requires ThreadOf(Next(Exec(Init(size), es), Advance(t, 0)), t) == Idle
    ensures var s := Exec(Init(size), es);
      var s' := Next(s, Advance(t, 0));
      && s'.finished == s.finished + [ThreadOf(s, t).call]
      && s'.accepted == Flatten(Payloads(s.finished)) + Payload(ThreadOf(s, t).call)
  {
    InitHolds(size);
    ExecKeepsInv(Init(size), es);
    ReturnAccepts(Exec(Init(size), es), t);
  }

  /**
   No stranded output: outside the window between a `put` and its `trigger_send`, queued bytes imply that
   a transmission is under way, so a writer that spins on a full buffer is waiting for an interrupt to come.
   */
  lemma NoStrandedOutput(size: nat, es: seq<Event>)
    requires Legal(Init(size), es)
    ensures var s := Exec(Init(size), es);
      s.tx.queue != [] && (forall t :: t in s.threads ==> !Putting(s.threads[t])) ==> s.tx.sending
  {
    InitHolds(size);
    ExecKeepsInv(Init(size), es);
  }

  /** In any run, the flag is cleared by nothing but an interrupt that finds the queue empty. */
  lemma {:induction false} SendingClearedOnlyWhenEmpty(s: State, es: seq<Event>) returns (i: nat)
    requires Legal(s, es) && s.tx.sending && !Exec(s, es).tx.sending
    ensures i < |es| && es[i].Interrupt?
    ensures Exec(s, es[..i]).tx.sending && Exec(s, es[..i]).tx.queue == []
    decreases |es|
  {
    var r := Next(s, es[0]);
    if r.tx.sending {
      var k := SendingClearedOnlyWhenEmpty(r, es[1..]);
      i := k + 1;
      assert es[..i] == [es[0]] + es[1..][..k];
      Unfold(Enabled, Next, s, es[0], es[1..][..k]);
    } else {
      i := 0;
    }
  }

  lemma {:induction false} InterruptsDrain(s: State, es: seq<Event>)
    requires Inv(s) && Legal(s, es)
    requires |es| >= |s.tx.queue| && forall i :: 0 <= i < |es| ==> es[i].Interrupt?
    ensures Exec(s, es).tx.queue == [] && Exec(s, es).tx.sent == s.accepted
    decreases |es|
  {
    if es == [] {
      assert s.tx.sent + s.tx.queue == s.tx.sent;
    } else {
      NextKeepsInv(s, es[0]);
      InterruptsDrain(Next(s, es[0]), es[1..]);
    }
  }

  /** From every reachable state, as many interrupts as there are queued bytes put everything accepted on the wire. */
  lemma InterruptsDeliverAll(size: nat, before: seq<Event>, es: seq<Event>)
    requires Legal(Init(size), before) && Legal(Exec(Init(size), before), es)
    requires forall i :: 0 <= i < |es| ==> es[i].Interrupt?
    requires |es| >= |Exec(Init(size), before).tx.queue|
    ensures var s := Exec(Init(size), before);
      Exec(s, es).tx.queue == [] && Exec(s, es).tx.sent == s.accepted
  {
    InitHolds(size);
    ExecKeepsInv(Init(size), before);
    InterruptsDrain(Exec(Init(size), before), es);
  }

  /** From every reachable state, one interrupt more than there are queued bytes also clears the sending flag. */
  lemma InterruptsClearSending(size: nat, before: seq<Event>, es: seq<Event>)
    requires Legal(Init(size), before) && Legal(Exec(Init(size), before), es)
    requires forall i :: 0 <= i < |es| ==> es[i].Interrupt?
    requires |es| > |Exec(Init(size), before).tx.queue|
    ensures var s := Exec(Init(size), before);
      Exec(s, es).tx == Tx([], false, s.accepted)
  {
    InitHolds(size);
    ExecKeepsInv(Init(size), before);
    InterruptsClear(Exec(Init(size), before), es);
  }

  lemma {:induction false} InterruptsClear(s: State, es: seq<Event>)
    requires Inv(s) && Legal(s, es)
    requires |es| > |s.tx.queue| && forall i :: 0 <= i < |es| ==> es[i].Interrupt?
    ensures Exec(s, es).tx == Tx([], false, s.accepted)
    decreases |es|
  {
    var r := Next(s, es[0]);
    NextKeepsInv(s, es[0]);
    assert r.tx.queue == [] || |r.tx.queue| < |s.tx.queue|;
    if |es| > 1 {
      InterruptsClear(r, es[1..]);
    } else {
      assert s.tx.queue == [] && s.tx.sent + s.tx.queue == s.tx.sent;
      assert es[1..] == [] && Exec(r, es[1..]) == r;
    }
  }

  /**
   In every reachable state in which the queue is empty and the flag is clear, the next `put` that has a byte to
   put reaches the port in its own send, in the order of the call.
   */
  lemma IdlePutIsSent(size: nat, es: seq<Event>, t: nat, k: nat)
    requires Legal(Init(size), es)
    requires var s := Exec(Init(size), es);
      && s.tx.queue == [] && !s.tx.sending
      && ThreadOf(s, t).Active?
      && (ThreadOf(s, t).pc.BytePut? || (ThreadOf(s, t).pc.BytesPut? && ThreadOf(s, t).pc.n > 0))
      && Enabled(Next(s, Advance(t, 0)), Advance(t, k))
    ensures var s := Exec(Init(size), es);
      var th := ThreadOf(s, t);
      var r := Next(Next(s, Advance(t, 0)), Advance(t, k));
      && 0 < k
      && th.done + k <= |Payload(th.call)|
      && r.tx.sent == s.tx.sent + Payload(th.call)[th.done..th.done + k]
      && r.tx.sending
  {
    InitHolds(size);
    ExecKeepsInv(Init(size), es);
    IdlePutSends(Exec(Init(size), es), t, k);
  }

  lemma IdlePutSends(s: State, t: nat, k: nat)
    requires Inv(s) && s.tx.queue == [] && !s.tx.sending && ThreadOf(s, t).Active?
    requires ThreadOf(s, t).pc.BytePut? || (ThreadOf(s, t).pc.BytesPut? && ThreadOf(s, t).pc.n > 0)
    requires Enabled(Next(s, Advance(t, 0)), Advance(t, k))
    ensures var th := ThreadOf(s, t);
      var r := Next(Next(s, Advance(t, 0)), Advance(t, k));
      && 0 < k
      && th.done + k <= |Payload(th.call)|
      && r.tx.sent == s.tx.sent + Payload(th.call)[th.done..th.done + k]
      && r.tx.sending
  {
    InsideMeansHolder(s, t);
    var th := ThreadOf(s, t);
    var n := if th.pc.BytePut? then 1 else th.pc.n;
    var r := Next(s, Advance(t, 0));
    if th.pc.BytesPut? {
      BytesPutFills(s, t);
    } else {
      BytePutFills(s, t);
    }
    assert r.tx.queue == Payload(th.call)[th.done..th.done + n];
    assert r.tx.queue[..k] == Payload(th.call)[th.done..th.done + k];
  }

  lemma BytePutFills(s: State, t: nat)
    requires Inv(s) && ThreadOf(s, t).Active? && ThreadOf(s, t).pc.BytePut? && s.tx.queue == []
    ensures var th := ThreadOf(s, t);
      var r := Next(s, Advance(t, 0));
      && th.done + 1 <= |Payload(th.call)|
      && r.tx == Tx(Payload(th.call)[th.done..th.done + 1], s.tx.sending, s.tx.sent)
      && ThreadOf(r, t).Active? && ThreadOf(r, t).pc.ByteSend?
  {
    InsideMeansHolder(s, t);
    assert ThreadOk(ThreadOf(s, t)) && RoomOk(s, ThreadOf(s, t));
    assert [] + [ByteOf(ThreadOf(s, t).call)] == [ByteOf(ThreadOf(s, t).call)];
  }

  lemma BytesPutFills(s: State, t: nat)
    requires Inv(s) && ThreadOf(s, t).Active? && ThreadOf(s, t).pc.BytesPut? && s.tx.queue == []
    ensures var th := ThreadOf(s, t);
      var r := Next(s, Advance(t, 0));
      && th.done + th.pc.n <= |Payload(th.call)|
      && r.tx == Tx(Payload(th.call)[th.done..th.done + th.pc.n], s.tx.sending, s.tx.sent)
      && ThreadOf(r, t).Active? && ThreadOf(r, t).pc.BytesSend?
  {
    InsideMeansHolder(s, t);
    var th := ThreadOf(s, t);
    assert ThreadOk(th) && RoomOk(s, th);
    RestIsPayload(th.call, th.done, th.pc.n);
    assert [] + Rest(th.call, th.done)[..th.pc.n] == Rest(th.call, th.done)[..th.pc.n];
  }

  /**
   A call made while the mutex is free is served: whatever the port answers, a bounded number of its steps and
   of interrupts finishes it, and the accepted stream has grown by exactly what was to be written, a line with
   its newline.
   */
  lemma CallIsServed(size: nat, es: seq<Event>, t: nat, c: Call, ks: seq<nat>)
    requires size > 0 && Legal(Init(size), es)
    requires Exec(Init(size), es).owner == None && ThreadOf(Exec(Init(size), es), t) == Idle
    requires |ks| >= 11 + 4 * |Payload(c)|
    ensures var s := Exec(Init(size), es);
      var begun := Next(s, Begin(t, c));
      var turns := [Begin(t, c)] + Turns(begun, t, ks);
      && Legal(s, turns)
      && |turns| <= 12 + 4 * |Payload(c)|
      && Exec(s, turns).finished == s.finished + [c]
      && ThreadOf(Exec(s, turns), t) == Idle
      && Exec(s, turns).accepted == s.accepted +
        match c case Byte(b) => [b] case Bytes(data) => data case Line(text) => text + [10]
  {
    InitHolds(size);
    ExecKeepsInv(Init(size), es);
    SizeIsFixed(Init(size), es);
    var s := Exec(Init(size), es);
    var begun := Next(s, Begin(t, c));
    NextKeepsInv(s, Begin(t, c));
    DistanceBound(begun, ThreadOf(begun, t));
    TurnsFinish(begun, t, ks);
    Unfold(Enabled, Next, s, Begin(t, c), Turns(begun, t, ks));
    ServedStream(s, Exec(begun, Turns(begun, t, ks)), begun, t, ks, c);
  }

  /** Once the call is over nobody holds the mutex, so the accepted stream is the finished payloads alone. */
  lemma ServedStream(s: State, r: State, begun: State, t: nat, ks: seq<nat>, c: Call)
    requires Inv(s) && s.owner == None && Inv(begun) && Legal(begun, Turns(begun, t, ks))
    requires r == Exec(begun, Turns(begun, t, ks)) && r.finished == s.finished + [c]
    requires begun.owner == None && ThreadOf(r, t) == Idle
    ensures r.accepted == s.accepted + Payload(c)
  {
    ExecKeepsInv(begun, Turns(begun, t, ks));
    TurnsKeepOthersOut(begun, t, ks);
    PayloadsAppend(s.finished, c);
  }

  /** The turns of one thread give the mutex to nobody else. */
  lemma {:induction false} TurnsKeepOthersOut(s: State, t: nat, ks: seq<nat>)
    requires Inv(s) && CanEnter(s, t) && Legal(s, Turns(s, t, ks))
    ensures CanEnter(Exec(s, Turns(s, t, ks)), t)
    ensures Inv(Exec(s, Turns(s, t, ks)))
    decreases |ks|
  {
    if ks != [] && ThreadOf(s, t) != Idle {
      var e := Turn(s, t, ks[0]);
      var rest := Turns(Next(s, e), t, ks[1..]);
      Unfold(Enabled, Next, s, e, rest);
      NextKeepsInv(s, e);
      TurnsKeepOthersOut(Next(s, e), t, ks[1..]);
    }
  }

  // ---- The send loop ----

  /**
   `k` of `queued` bytes go out to a port that answers `writable`: the loop goes on after a positive answer only,
   and stops early only after a negative answer or none.
   */
  predicate PortLets(k: nat, queued: nat, writable: seq<bool>) {
    && k <= queued
    && (queued > 0 ==> k > 0)
    && k <= |writable| + 1
    && (forall i :: 0 <= i < k - 1 ==> writable[i])
    && (0 < k < queued ==> |writable| < k || !writable[k - 1])
  }

  /** The port has answered yes to its first `k` readiness checks. */
  predicate AllReady(k: nat, writable: seq<bool>) {
    k <= |writable| && forall i :: 0 <= i < k ==> writable[i]
  }

  /** One more byte has gone out, and then the port answered `ready`. */
  lemma PortAnswers(k: nat, queued: nat, writable: seq<bool>, ready: bool)
    requires k < queued && AllReady(k, writable)
    requires ready <==> k < |writable| && writable[k]
    ensures ready ==> AllReady(k + 1, writable)
    ensures !ready ==> PortLets(k + 1, queued, writable)
  {
  }

  /** Everything has gone out. */
  lemma PortTakesAll(queued: nat, writable: seq<bool>)
    requires AllReady(queued, writable)
    ensures PortLets(queued, queued, writable)
  {
  }
}
