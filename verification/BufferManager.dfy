/**
 The buffer manager that links a transmit and a receive ring buffer with a serial port, in its imperative
 form. Its transmit operations are proved to make the transitions of the write protocol.
 */
module SerialBufferManager {
  import opened Basics
  import opened BoundedQueue
  import opened SerialRingBuffer
  import opened StepSystems
  import opened WriteProtocol
  import ReadProtocol

  /**
   The serial port. `arriving` is what the receiver will deliver during the current interrupt and
   `writable` is what the transmitter will answer to the following readiness checks.
   */
  class SerialPort {
    var sent: seq<byte>
    var writable: seq<bool>
    var arriving: seq<byte>

    constructor ()
      ensures sent == []
    {
      sent, writable, arriving := [], [], [];
    }

    method PutData(c: byte)
      modifies this`sent
      ensures sent == old(sent) + [c]
    {
      sent := sent + [c];
    }

    method IsWritable() returns (ready: bool)
      modifies this`writable
      ensures ready <==> old(writable) != [] && old(writable)[0]
      ensures writable == if old(writable) == [] then [] else old(writable)[1..]
    {
      ready := writable != [] && writable[0];
      writable := if writable == [] then [] else writable[1..];
    }

    method GetData() returns (c: byte)
      requires arriving != []
      modifies this`arriving
      ensures c == old(arriving)[0] && arriving == old(arriving)[1..]
    {
      c := arriving[0];
      arriving := arriving[1..];
    }
  }

  /** The transmit state with `data` appended to its queue. */
  function Queued(tx: Tx, data: seq<byte>): Tx {
    tx.(queue := tx.queue + data)
  }

  lemma NewestWithRoom(q: seq<byte>, data: seq<byte>, size: nat)
    requires |q| + |data| <= size
    ensures Newest(q + data, size) == q + data
  {
  }

  lemma MovedOneMore(tx: Tx, k: nat)
    requires k < |tx.queue|
    ensures Moved(tx, k + 1) == Moved(Moved(tx, k), 1)
  {
    assert tx.queue[..k + 1] == tx.queue[..k] + [tx.queue[k]];
  }

  /**
   `put` of one byte, as the steps of the write protocol that the inner loop of `WriteByte` takes: its test,
   and when there is room the put and the send. Nothing else of the protocol runs in between.
   */
  lemma PutByteIsRun(s: State, t: nat, c: Call, done: nat, k: nat)
    requires ThreadOf(s, t) == Active(c, ByteTest, done)
    ensures |s.tx.queue| >= s.size ==> Legal(s, [Advance(t, 0)]) && Exec(s, [Advance(t, 0)]) == s
    ensures |s.tx.queue| < s.size && BurstOk(Queued(s.tx, [ByteOf(c)]), k) ==>
      var es := [Advance(t, 0), Advance(t, 0), Advance(t, k)];
      && Legal(s, es)
      && Exec(s, es).tx == AfterTrigger(Queued(s.tx, [ByteOf(c)]), k)
      && ThreadOf(Exec(s, es), t) == Active(c, ExitByte, done + 1)
  {
    if |s.tx.queue| >= s.size {
      assert [Advance(t, 0)] == [Advance(t, 0)] + [];
      Unfold(Enabled, Next, s, Advance(t, 0), []);
    } else {
      var s1 := Next(s, Advance(t, 0));
      var s2 := Next(s1, Advance(t, 0));
      NewestWithRoom(s.tx.queue, [ByteOf(c)], s.size);
      assert ThreadOf(s1, t) == Active(c, BytePut, done) && s1.tx == s.tx;
      assert ThreadOf(s2, t) == Active(c, ByteSend, done + 1) && s2.tx == Queued(s.tx, [ByteOf(c)]);
      if BurstOk(s2.tx, k) {
        assert [Advance(t, 0), Advance(t, 0), Advance(t, k)] + [] == [Advance(t, 0), Advance(t, 0), Advance(t, k)];
        UnfoldThree(Enabled, Next, s, Advance(t, 0), Advance(t, 0), Advance(t, k), []);
      }
    }
  }

  /**
   `put` of a span, as one round of the loop of `WriteBytes`: it looks for room, puts what fits of the bytes
   that are left, and sends.
   */
  lemma PutBytesIsRun(s: State, t: nat, c: Call, done: nat, k: nat)
    requires ThreadOf(s, t) == Active(c, BytesLoop, done) && Rest(c, done) != [] && |s.tx.queue| <= s.size
    ensures var count := Min(s.size - |s.tx.queue|, |Rest(c, done)|);
      var tx := Queued(s.tx, Rest(c, done)[..count]);
      var es := [Advance(t, 0), Advance(t, 0), Advance(t, k)];
      BurstOk(tx, k) ==>
        && Legal(s, es)
        && Exec(s, es).tx == AfterTrigger(tx, k)
        && ThreadOf(Exec(s, es), t) == Active(c, BytesLoop, done + count)
  {
    var count := Min(s.size - |s.tx.queue|, |Rest(c, done)|);
    var data := Rest(c, done)[..count];
    var s1 := Next(s, Advance(t, 0));
    assert ThreadOf(s1, t) == Active(c, BytesPut(count), done) && s1.tx == s.tx && s1.size == s.size;
    var s2 := Next(s1, Advance(t, 0));
    NewestWithRoom(s.tx.queue, data, s.size);
    assert ThreadOf(s2, t) == Active(c, BytesSend, done + count) && s2.tx == Queued(s.tx, data);
    if BurstOk(s2.tx, k) {
      assert [Advance(t, 0), Advance(t, 0), Advance(t, k)] + [] == [Advance(t, 0), Advance(t, 0), Advance(t, k)];
      UnfoldThree(Enabled, Next, s, Advance(t, 0), Advance(t, 0), Advance(t, k), []);
    }
  }

  class BufferManager {
    const serial: SerialPort
    const txBuffer: RingBuffer<byte>
    const rxBuffer: RingBuffer<byte>
    const chunk: nat
    var txSending: bool

    ghost predicate Valid()
      reads this, txBuffer, rxBuffer
    {
      && txBuffer.Valid()
      && rxBuffer.Valid()
      && txBuffer != rxBuffer
      && txBuffer.buffer != rxBuffer.buffer
      && chunk > 0
    }

    ghost function TxState(): Tx
      requires Valid()
      reads this, serial, txBuffer, rxBuffer, txBuffer.buffer
    {
      Tx(txBuffer.View(), txSending, serial.sent)
    }

    constructor (port: SerialPort, txSize: nat, rxSize: nat, peripheralSize: nat)
      requires txSize > 0 && rxSize > 0 && peripheralSize > 0 && port.sent == []
      ensures Valid() && TxState() == Init(txSize).tx && rxBuffer.View() == []
    {
      serial := port;
      txBuffer := new RingBuffer(txSize);
      rxBuffer := new RingBuffer(rxSize);
      chunk := peripheralSize;
      txSending := false;
    }

    /** The body of the send loop: the oldest queued byte, if there is one, goes to the port. */
    method SendNext() returns (available: bool)
      requires Valid()
      modifies this, txBuffer, serial`sent
      ensures Valid()
      ensures available <==> old(txBuffer.View()) != []
      ensures available ==> serial.sent == old(serial.sent) + [old(txBuffer.View())[0]] && txSending
      ensures TxState() == if available then Moved(old(TxState()), 1) else old(TxState())
    {
      var c;
      c, available := txBuffer.Get();
      if available {
        txSending := true;
        serial.PutData(c);
      }
    }

    /** `k` queued bytes have gone to the port in order since the queue was `queue` and `before` had been sent. */
    ghost predicate HasSent(before: seq<byte>, queue: seq<byte>, k: nat)
      requires Valid()
      reads this, serial, txBuffer, rxBuffer, txBuffer.buffer
    {
      && k <= |queue|
      && serial.sent == before + queue[..k]
      && txBuffer.View() == queue[k..]
    }

    /**
     The send loop shared by the transmit interrupt and `trigger_send`: byte after byte goes to the port, oldest
     first, as long as the port says that it is writable, and at least one if there is one.
     */
    method SendLoop() returns (ghost burst: nat)
      requires Valid()
      modifies this, txBuffer, serial`sent, serial`writable
      ensures Valid()
      ensures BurstOk(old(TxState()), burst) && TxState() == Moved(old(TxState()), burst)
      ensures HasSent(old(serial.sent), old(txBuffer.View()), burst)
      ensures PortLets(burst, |old(txBuffer.View())|, old(serial.writable))
      ensures serial.sent == old(serial.sent) + old(txBuffer.View())[..burst]
      ensures burst <= |old(serial.writable)| + 1
      ensures forall i :: 0 <= i < burst - 1 ==> old(serial.writable)[i]
      ensures 0 < burst < |old(txBuffer.View())| ==>
        |old(serial.writable)| < burst || !old(serial.writable)[burst - 1]
      ensures old(txBuffer.View()) != [] ==> burst > 0 && txSending
      ensures old(txBuffer.View()) == [] ==> txSending == old(txSending)
    {
      ghost var before := TxState();
      burst := SendWhileReady();
      assert Moved(before, burst).sent == before.sent + before.queue[..burst];
    }

    /** The loop itself. */
    method SendWhileReady() returns (ghost burst: nat)
      requires Valid()
      modifies this, txBuffer, serial`sent, serial`writable
      ensures Valid() && burst <= |old(TxState()).queue|
      ensures TxState() == Moved(old(TxState()), burst)
      ensures PortLets(burst, |old(TxState()).queue|, old(serial.writable))
    {
      ghost var before, answers := TxState(), serial.writable;
      ghost var queued := |before.queue|;
      burst := 0;
      var go := true;
      while go
        invariant Valid() && burst <= queued && TxState() == Moved(before, burst)
        invariant serial.writable == if burst <= |answers| then answers[burst..] else []
        invariant if go then AllReady(burst, answers) else PortLets(burst, queued, answers)
        decreases |txBuffer.View()|, go
      {
        var available := SendNext();
        if available {
          MovedOneMore(before, burst);
          go := serial.IsWritable();
          PortAnswers(burst, queued, answers, go);
          burst := burst + 1;
        } else {
          PortTakesAll(queued, answers);
          go := false;
        }
      }
    }

    /** The transmit interrupt: it clears the sending flag when there is nothing to send, and sends otherwise. */
    method SerialIrqTx() returns (ghost burst: nat)
      requires Valid()
      modifies this, txBuffer, serial`sent, serial`writable
      ensures Valid() && BurstOk(old(TxState()), burst)
      ensures TxState() == AfterInterrupt(old(TxState()), burst)
      ensures HasSent(old(serial.sent), old(txBuffer.View()), burst)
      ensures PortLets(burst, |old(txBuffer.View())|, old(serial.writable))
      ensures txSending <==> old(txBuffer.View()) != []
    {
      burst := 0;
      var empty := txBuffer.IsEmpty();
      if empty {
        txSending := false;
        assert txBuffer.View() == [] && serial.sent + [] == serial.sent;
      } else {
        burst := SendLoop();
      }
    }

    /** Nothing while a transmission is under way; otherwise the send loop starts one if there is anything to send. */
    method TriggerSend() returns (ghost burst: nat)
      requires Valid()
      modifies this, txBuffer, serial`sent, serial`writable
      ensures Valid() && BurstOk(old(TxState()), burst)
      ensures TxState() == AfterTrigger(old(TxState()), burst)
      ensures old(txSending) ==>
        txSending && serial.sent == old(serial.sent) && txBuffer.View() == old(txBuffer.View())
      ensures !old(txSending) ==>
        && HasSent(old(serial.sent), old(txBuffer.View()), burst)
        && PortLets(burst, |old(txBuffer.View())|, old(serial.writable))
        && (txSending <==> old(txBuffer.View()) != [])
    {
      if txSending {
        burst := |txBuffer.View()|;
        return;
      }
      burst := SendLoop();
    }

    /** `put` of one byte, run without an interrupt in between. */
    method PutByte(data: byte) returns (accepted: bool, ghost burst: nat)
      requires Valid()
      modifies this, txBuffer, txBuffer.buffer, serial`sent, serial`writable
      ensures Valid()
      ensures accepted <==> |old(TxState()).queue| < txBuffer.Size
      ensures !accepted ==> TxState() == old(TxState())
      ensures accepted ==> BurstOk(Queued(old(TxState()), [data]), burst)
      ensures accepted ==> TxState() == AfterTrigger(Queued(old(TxState()), [data]), burst)
      ensures accepted && old(txSending) ==>
        txSending && serial.sent == old(serial.sent) && txBuffer.View() == old(txBuffer.View()) + [data]
      ensures accepted && !old(txSending) ==>
        && txSending
        && HasSent(old(serial.sent), old(txBuffer.View()) + [data], burst)
        && PortLets(burst, |old(txBuffer.View())| + 1, old(serial.writable))
    {
      burst := 0;
      var isFull := txBuffer.IsFull();
      if isFull {
        return false, 0;
      }
      NewestWithRoom(txBuffer.View(), [data], txBuffer.Size);
      txBuffer.Put(data);
      burst := TriggerSend();
      accepted := true;
    }

    /** `put` of a span, run without an interrupt in between: the part that fits is accepted, in order. */
    method PutBytes(span: seq<byte>) returns (count: nat, ghost burst: nat)
      requires Valid()
      modifies this, txBuffer, txBuffer.buffer, serial`sent, serial`writable
      ensures Valid()
      ensures count == Min(txBuffer.Size - |old(TxState()).queue|, |span|)
      ensures BurstOk(Queued(old(TxState()), span[..count]), burst)
      ensures TxState() == AfterTrigger(Queued(old(TxState()), span[..count]), burst)
      ensures old(txSending) ==>
        txSending && serial.sent == old(serial.sent) && txBuffer.View() == old(txBuffer.View()) + span[..count]
      ensures !old(txSending) ==>
        && HasSent(old(serial.sent), old(txBuffer.View()) + span[..count], burst)
        && PortLets(burst, |old(txBuffer.View())| + count, old(serial.writable))
        && (txSending <==> old(txBuffer.View()) + span[..count] != [])
    {
      var capacity := txBuffer.Capacity();
      count := Min(capacity, |span|);
      NewestWithRoom(txBuffer.View(), span[..count], txBuffer.Size);
      txBuffer.PutSpan(span[..count]);
      burst := TriggerSend();
    }

    /**
     The receive interrupt: everything that arrives is gathered in pieces of the peripheral's size and
     flushed to the receive buffer. The chunks do not show: the newest bytes of the whole stream remain.
     */
    method SerialIrqRx()
      requires Valid()
      modifies rxBuffer, rxBuffer.buffer, serial`arriving
      ensures Valid() && serial.arriving == []
      ensures rxBuffer.View() == ReadProtocol.AfterReceive(old(rxBuffer.View()), old(serial.arriving), rxBuffer.Size)
      ensures var all := old(rxBuffer.View()) + old(serial.arriving);
        rxBuffer.View() == all[|all| - Min(rxBuffer.Size, |all|)..]
    {
      ghost var input, before := serial.arriving, rxBuffer.View();
      ghost var flushed: seq<byte>, piece: seq<byte> := [], [];
      var buf := new byte[chunk];
      var i := 0;
      assert before + flushed == before;
      assert flushed + piece + input == input;
      while serial.arriving != []
        invariant Valid() && i < chunk
        invariant piece == buf[..i]
        invariant input == flushed + piece + serial.arriving
        invariant rxBuffer.View() == Newest(before + flushed, rxBuffer.Size)
        decreases |serial.arriving|
      {
        Gather(flushed, piece, serial.arriving);
        buf[i] := serial.GetData();
        piece := piece + [buf[i]];
        i := i + 1;
        if i == chunk {
          FlushPiece(buf, i, before, flushed, piece);
          flushed := flushed + piece;
          assert flushed + [] == flushed;
          piece, i := [], 0;
        }
      }
      assert flushed + piece + [] == flushed + piece;
      FlushPiece(buf, i, before, flushed, piece);
    }

    /** `get` of one byte, which `TryReadByte` calls and `ReadByte` repeats until there is one. */
    method Get() returns (data: byte, available: bool)
      requires Valid()
      modifies rxBuffer
      ensures Valid()
      ensures rxBuffer.View() == ReadProtocol.AfterRead(old(rxBuffer.View()))
      ensures available <==> old(rxBuffer.View()) != []
      ensures available ==> data == old(rxBuffer.View())[0] && rxBuffer.View() == old(rxBuffer.View())[1..]
      ensures !available ==> rxBuffer.View() == []
    {
      data, available := rxBuffer.Get();
    }

    /** Puts the first `i` gathered bytes into the receive buffer. */
    method FlushPiece(buf: array<byte>, i: nat, ghost before: seq<byte>, ghost flushed: seq<byte>,
      ghost piece: seq<byte>)
      requires Valid() && i <= buf.Length && buf != rxBuffer.buffer && piece == buf[..i]
      requires rxBuffer.View() == Newest(before + flushed, rxBuffer.Size)
      modifies rxBuffer, rxBuffer.buffer
      ensures Valid()
      ensures rxBuffer.View() == Newest(before + (flushed + piece), rxBuffer.Size)
    {
      Flush(before, flushed, piece, rxBuffer.Size);
      rxBuffer.PutSpan(buf[..i]);
    }
  }

  /** Taking the first arriving byte into the piece that is being gathered. */
  lemma Gather(flushed: seq<byte>, piece: seq<byte>, arriving: seq<byte>)
    requires arriving != []
    ensures flushed + piece + arriving == flushed + (piece + [arriving[0]]) + arriving[1..]
  {
  }

  /** Flushing the next piece of a stream whose beginning has been flushed. */
  lemma Flush(before: seq<byte>, flushed: seq<byte>, piece: seq<byte>, size: nat)
    ensures Newest(Newest(before + flushed, size) + piece, size) == Newest(before + (flushed + piece), size)
  {
    NewestAbsorbs(before + flushed, piece, size);
    assert before + flushed + piece == before + (flushed + piece);
  }
}
