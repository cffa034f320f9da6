/** The 64-bit system clock, built from the 32-bit tick counter of the RTOS by counting its wrap-arounds. */
module SystemClocks {

  const WORD: nat := 0x1_0000_0000
  const INT64_MAX: int := 0x7FFF_FFFF_FFFF_FFFF

  /** The two static words: how often the counter has wrapped, and its last value. */
  datatype Clock = Clock(high: nat, low: nat)

  const Boot := Clock(0, 0)

  predicate Valid(c: Clock) {
    c.high < WORD && c.low < WORD
  }

  /** A 64-bit pattern read as a signed integer. */
  function ToInt64(bits: int): int {
    if bits <= INT64_MAX then bits else bits - WORD * WORD
  }

  function Extended(c: Clock): int {
    c.high * WORD + c.low
  }

  /** One call: a counter value below the last one means that the counter has wrapped. */
  function Sampled(c: Clock, native: nat): (c': Clock)
    requires Valid(c) && native < WORD
    ensures Valid(c')
  {
    Clock(if native < c.low then (c.high + 1) % WORD else c.high, native)
  }

  /** The results of calls made at the true tick counts `ticks`. */
  function Readings(c: Clock, ticks: seq<nat>): (rs: seq<int>)
    requires Valid(c)
    ensures |rs| == |ticks|
    decreases |ticks|
  {
    if ticks == [] then []
    else
      var c' := Sampled(c, ticks[0] % WORD);
      [ToInt64(Extended(c'))] + Readings(c', ticks[1..])
  }

  /** Time does not run backwards, starts at `from` or later and stays below 2 to the power of 63. */
  predicate Passing(from: nat, ticks: seq<nat>) {
    && (forall i :: 0 <= i < |ticks| ==> from <= ticks[i] <= INT64_MAX)
    && (forall i, j :: 0 <= i < j < |ticks| ==> ticks[i] <= ticks[j])
  }

  /** The clock was last sampled at the true tick count `t`, and has missed only whole wraps. */
  predicate Follows(c: Clock, t: nat) {
    Valid(c) && c.low == t % WORD && Extended(c) <= t
  }

  /** One call adds the part of the elapsed time that the counter shows. */
  lemma SampleAdvances(c: Clock, t: nat, t': nat)
    requires Follows(c, t) && t <= t' <= INT64_MAX
    ensures var c' := Sampled(c, t' % WORD);
      Follows(c', t') && Extended(c') == Extended(c) + (t' - t) % WORD
  {
    var q, q' := t / WORD, t' / WORD;
    assert t == q * WORD + c.low && t' == q' * WORD + t' % WORD;
    assert q <= q' && c.high <= q && q' < WORD / 2;
    if t' % WORD < c.low {
      assert t' - t == (q' - q - 1) * WORD + (t' % WORD - c.low + WORD);
      ModOfSum(q' - q - 1, t' % WORD - c.low + WORD);
    } else {
      assert t' - t == (q' - q) * WORD + (t' % WORD - c.low);
      ModOfSum(q' - q, t' % WORD - c.low);
    }
  }

  lemma ModOfSum(k: int, r: int)
    requires 0 <= r < WORD
    ensures (k * WORD + r) % WORD == r
  {
  }

  /** What holds of the readings of a clock that follows time up to `t`. */
  lemma {:induction false} ReadingsAreSound(c: Clock, t: nat, ticks: seq<nat>)
    requires Follows(c, t) && Passing(t, ticks)
    ensures var rs := Readings(c, ticks);
      && (forall i :: 0 <= i < |ticks| ==> Extended(c) <= rs[i] <= ticks[i])
      && (forall i :: 0 <= i < |ticks| ==> rs[i] % WORD == ticks[i] % WORD)
      && (forall i, j :: 0 <= i < j < |ticks| ==> rs[i] <= rs[j])
    decreases |ticks|
  {
    if ticks != [] {
      SampleAdvances(c, t, ticks[0]);
      var c' := Sampled(c, ticks[0] % WORD);
      ReadingsAreSound(c', ticks[0], ticks[1..]);
      assert Readings(c, ticks) == [Extended(c')] + Readings(c', ticks[1..]);
      ModOfSum(c'.high, c'.low);
    }
  }

  /**
   Over any calls before the signed 64-bit range ends, the clock never goes backwards, never runs ahead of
   the true tick count and differs from it by whole wraps of the counter only.
   */
  lemma ClockIsSound(ticks: seq<nat>)
    requires Passing(0, ticks)
    ensures var rs := Readings(Boot, ticks);
      && (forall i :: 0 <= i < |ticks| ==> 0 <= rs[i] <= ticks[i])
      && (forall i :: 0 <= i < |ticks| ==> rs[i] % WORD == ticks[i] % WORD)
      && (forall i, j :: 0 <= i < j < |ticks| ==> rs[i] <= rs[j])
  {
    ReadingsAreSound(Boot, 0, ticks);
  }

  /** No two consecutive calls, nor boot and the first call, are a whole wrap or more apart. */
  predicate CalledOften(from: nat, ticks: seq<nat>)
    decreases |ticks|
  {
    ticks == [] || (ticks[0] - from < WORD && CalledOften(ticks[0], ticks[1..]))
  }

  lemma {:induction false} ReadingsExactIff(c: Clock, t: nat, ticks: seq<nat>)
    requires Follows(c, t) && Extended(c) == t && Passing(t, ticks)
    ensures Readings(c, ticks) == ticks <==> CalledOften(t, ticks)
    decreases |ticks|
  {
    if ticks != [] {
      SampleAdvances(c, t, ticks[0]);
      var c' := Sampled(c, ticks[0] % WORD);
      var rs := Readings(c, ticks);
      assert rs[0] == Extended(c') && rs[1..] == Readings(c', ticks[1..]);
      if ticks[0] - t < WORD {
        assert Extended(c') == ticks[0];
        ReadingsExactIff(c', ticks[0], ticks[1..]);
        assert rs == ticks <==> rs[1..] == ticks[1..];
      } else {
        assert rs[0] != ticks[0];
      }
    }
  }

  /** Every reading is the true tick count if and only if the clock is called at least once in every wrap. */
  lemma ClockExactIffCalledOften(ticks: seq<nat>)
    requires Passing(0, ticks)
    ensures Readings(Boot, ticks) == ticks <==> CalledOften(0, ticks)
  {
    ReadingsExactIff(Boot, 0, ticks);
  }

  /** A first call exactly one wrap after boot: the clock answers zero. */
  lemma ClockCanMissAWrap()
    ensures Passing(0, [0x1_0000_0000]) && Readings(Boot, [0x1_0000_0000]) == [0]
  {
    assert Sampled(Boot, WORD % WORD) == Boot;
    assert [WORD][1..] == [];
  }

  /** The clock in its imperative form; the spin lock makes a call one step. */
  class SystemClock {
    var tickCountHigh: nat
    var tickCountLow: nat

    constructor ()
      ensures State() == Boot
    {
      tickCountHigh, tickCountLow := 0, 0;
    }

    ghost function State(): Clock
      reads this
    {
      Clock(tickCountHigh, tickCountLow)
    }

    method GetSystemClockTickCount(kernelTicks: nat) returns (ret: int)
      requires kernelTicks < WORD && Valid(State())
      modifies this
      ensures State() == Sampled(old(State()), kernelTicks)
      ensures [ret] == Readings(old(State()), [kernelTicks])
      ensures tickCountLow == kernelTicks
      ensures tickCountHigh == if kernelTicks >= old(tickCountLow) then old(tickCountHigh)
                               else if old(tickCountHigh) == 0xFFFF_FFFF then 0 else old(tickCountHigh) + 1
      ensures ret == tickCountHigh * 0x1_0000_0000 + kernelTicks
                   - if tickCountHigh >= 0x8000_0000 then 0x1_0000_0000_0000_0000 else 0
    {
      var newTickCount := kernelTicks;
      if newTickCount < tickCountLow {
        tickCountHigh := (tickCountHigh + 1) % WORD;
      }
      tickCountLow := newTickCount;
      ret := ToInt64(tickCountHigh * WORD + tickCountLow);
    }
  }
}
