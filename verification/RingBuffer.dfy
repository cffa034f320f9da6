/**
 The ring buffer of the serial port backend: a fixed array written at `head` and read at `tail`,
 with a flag that tells a full buffer from an empty one. Old data is overwritten when it is full.
 Every public operation of the original runs inside a critical section, so each is one atomic step.
 */
module SerialRingBuffer {
  import opened Basics
  import opened BoundedQueue

  /** The slot `i` places after slot `tail` in the circular order. */
  function Slot(tail: nat, i: nat, size: nat): (k: nat)
    requires tail < size && i <= size
    ensures k < size
  {
    if tail + i < size then tail + i else tail + i - size
  }

  /** The `n` elements of the circular array `s` that start at slot `tail`. */
  function Unroll<T>(s: seq<T>, tail: nat, n: nat): (r: seq<T>)
    requires tail < |s| && n <= |s|
    ensures |r| == n
  {
    seq(n, i requires 0 <= i < n => s[Slot(tail, i, |s|)])
  }

  /** How far slot `k` lies after slot `head` in the circular order. */
  function Ahead(k: nat, head: nat, size: nat): nat
    requires k < size && head < size
  {
    if k >= head then k - head else k + size - head
  }

  /** `after` is `s` with `src` written over the slots from `head` on, wrapping around. */
  ghost predicate Overwritten<T>(s: seq<T>, after: seq<T>, head: nat, src: seq<T>)
    requires head < |s|
  {
    && |after| == |s|
    && forall k :: 0 <= k < |s| ==>
      after[k] == if Ahead(k, head, |s|) < |src| then src[Ahead(k, head, |s|)] else s[k]
  }

  /** The tail after appending `n` elements to `count` ones: it moves when the buffer fills up. */
  function NewTail(tail: nat, count: nat, n: nat, size: nat): nat
    requires tail < size && count <= size && n <= size
  {
    if count + n < size then tail else Slot(Slot(tail, count, size), n, size)
  }

  /** Element `i` after overwriting at the head, in terms of what was there. */
  lemma OverwrittenSlot<T>(s: seq<T>, after: seq<T>, tail: nat, count: nat, src: seq<T>, i: nat)
    requires tail < |s| && count <= |s| && |src| <= |s|
    requires Overwritten(s, after, Slot(tail, count, |s|), src)
    requires i < Min(|s|, count + |src|)
    ensures var at := count + |src| - Min(|s|, count + |src|) + i;
      after[Slot(NewTail(tail, count, |src|, |s|), i, |s|)]
      == if at < count then s[Slot(tail, at, |s|)] else src[at - count]
  {
  }

  /** Overwriting at the head and moving the tail when the buffer is full keeps the newest elements. */
  lemma OverwriteKeepsNewest<T>(s: seq<T>, after: seq<T>, tail: nat, count: nat, src: seq<T>)
    requires tail < |s| && count <= |s| && |src| <= |s|
    requires Overwritten(s, after, Slot(tail, count, |s|), src)
    ensures Unroll(after, NewTail(tail, count, |src|, |s|), Min(|s|, count + |src|))
         == Newest(Unroll(s, tail, count) + src, |s|)
  {
    var n := Min(|s|, count + |src|);
    var drop := count + |src| - n;
    var l := Unroll(after, NewTail(tail, count, |src|, |s|), n);
    forall i | 0 <= i < n
      ensures l[i] == if drop + i < count then s[Slot(tail, drop + i, |s|)] else src[drop + i - count]
    {
      OverwrittenSlot(s, after, tail, count, src, i);
    }
    TailOfAppend(s, tail, count, src, l, drop);
  }

  lemma TailOfAppend<T>(s: seq<T>, tail: nat, count: nat, src: seq<T>, l: seq<T>, drop: nat)
    requires tail < |s| && count <= |s| && |src| <= |s|
    requires |l| == Min(|s|, count + |src|) && drop == count + |src| - |l|
    requires forall i :: 0 <= i < |l| ==>
      l[i] == if drop + i < count then s[Slot(tail, drop + i, |s|)] else src[drop + i - count]
    ensures l == Newest(Unroll(s, tail, count) + src, |s|)
  {
    var before := Unroll(s, tail, count);
    var r := Newest(before + src, |s|);
    forall i | 0 <= i < |l|
      ensures l[i] == r[i]
    {
      assert r[i] == (before + src)[drop + i];
      if drop + i < count {
        assert (before + src)[drop + i] == before[drop + i];
      }
    }
  }

  /** A source longer than the array replaces the whole content by its last elements. */
  lemma OverlongReplaces<T>(q: seq<T>, src: seq<T>, s: seq<T>)
    requires 0 < |s| < |src| && s == src[|src| - |s|..]
    ensures Unroll(s, 0, |s|) == Newest(q + src, |s|)
  {
    assert (q + src)[|q + src| - |s|..] == src[|src| - |s|..];
  }

  /** Dropping elements from the front of an unrolled buffer moves its start. */
  lemma UnrollDrop<T>(s: seq<T>, tail: nat, n: nat, k: nat)
    requires tail < |s| && k <= n <= |s|
    ensures Unroll(s, Slot(tail, k, |s|), n - k) == Unroll(s, tail, n)[k..]
  {
  }

  /** `s` with `piece` written over the slots from `at` on. */
  function Spliced<T>(s: seq<T>, at: nat, piece: seq<T>): (r: seq<T>)
    requires at + |piece| <= |s|
    ensures |r| == |s|
  {
    s[..at] + piece + s[at + |piece|..]
  }

  /** What a range copy leaves in its destination. A reversed or overlong range has no defined effect. */
  datatype Copied<T> = Copied(dest: seq<T>) | Undefined

  /** `std::copy` from slots `first` up to `last` of `s` to the front of `dest`. */
  function CopyRange<T>(s: seq<T>, first: nat, last: nat, dest: seq<T>): Copied<T>
    requires last <= |s|
  {
    if last < first || |dest| < last - first then Undefined
    else Copied(Spliced(dest, 0, s[first..last]))
  }

  /** The destination after a bulk `get` of a buffer holding `count` elements, as the code is written. */
  function Fetched<T>(s: seq<T>, tail: nat, count: nat, dest: seq<T>): Copied<T>
    requires tail < |s| && count <= |s|
  {
    var n := Min(count, |dest|);
    if n == 0 then Copied(dest)
    else if |dest| == 1 then Copied([s[tail]])
    else if tail + n > |s| then
      var upper := |s| - tail;
      Copied(Spliced(Spliced(dest, 0, s[tail..]), upper, s[..n - upper]))
    else CopyRange(s, tail, n, dest)
  }

  /** Where the copies of a bulk `get` are defined, and what each element of the destination is then. */
  lemma FetchedMeaning<T>(s: seq<T>, tail: nat, count: nat, dest: seq<T>)
    requires tail < |s| && count <= |s|
    ensures var n := Min(count, |dest|);
      var r := Fetched(s, tail, count, dest);
      && (r == Undefined <==> |dest| > 1 && 0 < n < tail && tail + n <= |s|)
      && (r.Copied? ==> |r.dest| == |dest|)
      && (r.Copied? && |dest| > 1 && tail + n <= |s| ==>
           forall i :: 0 <= i < |dest| ==> r.dest[i] == if i < n - tail then s[tail + i] else dest[i])
      && (r.Copied? && (|dest| == 1 || tail + n > |s|) ==>
           forall i :: 0 <= i < |dest| ==> r.dest[i] == if i < n then Unroll(s, tail, count)[i] else dest[i])
  {
    var n := Min(count, |dest|);
    if n > 0 && |dest| > 1 && tail + n > |s| {
      WrapMeaning(s, tail, count, dest);
    }
  }

  /** The two copies of the wrapping branch deliver the oldest elements. */
  lemma WrapMeaning<T>(s: seq<T>, tail: nat, count: nat, dest: seq<T>)
    requires tail < |s| && count <= |s| && |dest| > 1 && tail + Min(count, |dest|) > |s|
    ensures var r := Fetched(s, tail, count, dest);
      && r.Copied? && |r.dest| == |dest|
      && forall i :: 0 <= i < |dest| ==>
           r.dest[i] == if i < Min(count, |dest|) then Unroll(s, tail, count)[i] else dest[i]
  {
    var n, upper := Min(count, |dest|), |s| - tail;
    var first := Spliced(dest, 0, s[tail..]);
    var r := Spliced(first, upper, s[..n - upper]);
    forall i | 0 <= i < |dest|
      ensures r[i] == if i < n then Unroll(s, tail, count)[i] else dest[i]
    {
      if i < upper {
        assert r[i] == first[i] == s[tail..][i];
      } else if i < n {
        assert r[i] == s[..n - upper][i - upper];
      } else {
        assert r[i] == first[i] == dest[i];
      }
    }
  }

  /** The wrapping branch in terms of its two copies, and where the tail is after it. */
  lemma WrapSteps<T>(s: seq<T>, tail: nat, count: nat, dest: seq<T>)
    requires tail < |s| && count <= |s| && |dest| > 1 && tail + Min(count, |dest|) > |s|
    ensures var n, upper := Min(count, |dest|), |s| - tail;
      && 0 < n - upper < |s|
      && Fetched(s, tail, count, dest) == Copied(Spliced(Spliced(dest, 0, s[tail..]), upper, s[..n - upper]))
      && Unroll(s, n - upper, count - n) == Unroll(s, tail, count)[n..]
  {
    UnrollDrop(s, tail, count, Min(count, |dest|));
  }

  /** The destination that a bulk `get` is meant to leave: the oldest elements, then what was there. */
  function Delivered<T>(s: seq<T>, tail: nat, count: nat, dest: seq<T>): Copied<T>
    requires tail < |s| && count <= |s|
  {
    var n := Min(count, |dest|);
    Copied(Spliced(dest, 0, Unroll(s, tail, n)))
  }

  lemma UnrollTake<T>(s: seq<T>, tail: nat, n: nat, k: nat)
    requires tail < |s| && k <= n <= |s|
    ensures Unroll(s, tail, n)[..k] == Unroll(s, tail, k)
  {
  }

  /** What a bulk `get` is meant to do is what single gets in a row do, to the destination and to the buffer. */
  lemma DeliveredIsGetEach<T>(s: seq<T>, tail: nat, count: nat, dest: seq<T>)
    requires tail < |s| && count <= |s|
    ensures var got := GetEach(Unroll(s, tail, count), |dest|);
      var n := Min(count, |dest|);
      && |got.0| == n
      && Delivered(s, tail, count, dest) == Copied(Spliced(dest, 0, got.0))
      && Unroll(s, Slot(tail, n, |s|), count - n) == got.1
  {
    var n, q := Min(count, |dest|), Unroll(s, tail, count);
    GetEachTakesOldest(q, |dest|);
    assert GetEach(q, |dest|) == (q[..n], q[n..]);
    UnrollTake(s, tail, count, n);
    UnrollDrop(s, tail, count, n);
  }

  /** A contiguous copy that ends too early leaves an element of some destination as it was. */
  lemma ShortCopyLoses<T>(s: seq<T>, tail: nat, n: nat, end: nat, len: nat, a: T, b: T) returns (dest: seq<T>)
    requires tail < |s| && 0 < n <= len && tail + n <= |s| && end < tail + n && a != b
    ensures |dest| == len && CopyRange(s, tail, end, dest) != Copied(Spliced(dest, 0, Unroll(s, tail, n)))
  {
    var wrong := if s[tail + n - 1] == a then b else a;
    dest := seq(len, i => wrong);
    var r := CopyRange(s, tail, end, dest);
    if r.Copied? {
      assert r.dest[n - 1] == wrong;
      assert Spliced(dest, 0, Unroll(s, tail, n))[n - 1] == s[tail + n - 1];
    }
  }

  /**
   A contiguous copy that ends at slot `end` delivers the `n` oldest elements, whatever the destination
   held, exactly when `end` is `tail + n`.
   */
  lemma ContiguousEndIffExact<T>(s: seq<T>, tail: nat, n: nat, end: nat, a: T, b: T)
    requires tail < |s| && 0 < n && tail + n <= |s| && end <= |s| && a != b
    ensures (forall dest: seq<T> | |dest| == n ::
        CopyRange(s, tail, end, dest) == Copied(Spliced(dest, 0, Unroll(s, tail, n))))
      <==> end == tail + n
  {
    if end == tail + n {
      assert s[tail..end] == Unroll(s, tail, n);
    } else if end < tail + n {
      var dest := ShortCopyLoses(s, tail, n, end, n, a, b);
    } else {
      var dest := seq(n, i => a);
      assert CopyRange(s, tail, end, dest) != Copied(Spliced(dest, 0, Unroll(s, tail, n)));
    }
  }

  /**
   As written, a bulk `get` of `len` elements delivers the oldest elements for every previous content
   of the destination exactly when it moves nothing, or asks for one element, or wraps around the end of
   the array, or starts at slot zero.
   */
  lemma BulkGetDeliversIff<T>(s: seq<T>, tail: nat, count: nat, len: nat, a: T, b: T)
    requires tail < |s| && count <= |s| && a != b
    ensures (forall dest: seq<T> | |dest| == len :: Fetched(s, tail, count, dest) == Delivered(s, tail, count, dest))
       <==> (count == 0 || len < 2 || tail + Min(count, len) > |s| || tail == 0)
  {
    var n := Min(count, len);
    if count == 0 || len < 2 || tail + n > |s| || tail == 0 {
      forall dest: seq<T> | |dest| == len
        ensures Fetched(s, tail, count, dest) == Delivered(s, tail, count, dest)
      {
        DeliversWhole(s, tail, count, dest);
      }
    } else {
      var dest := LosesData(s, tail, count, len, a, b);
    }
  }

  /** On the contiguous branch away from slot zero, some destination does not get the oldest elements. */
  lemma LosesData<T>(s: seq<T>, tail: nat, count: nat, len: nat, a: T, b: T) returns (dest: seq<T>)
    requires 0 < tail < |s| && 0 < count <= |s| && len > 1 && a != b
    requires tail + Min(count, len) <= |s|
    ensures |dest| == len && Fetched(s, tail, count, dest) != Delivered(s, tail, count, dest)
  {
    dest := ShortCopyLoses(s, tail, Min(count, len), Min(count, len), len, a, b);
  }

  lemma DeliversWhole<T>(s: seq<T>, tail: nat, count: nat, dest: seq<T>)
    requires tail < |s| && count <= |s|
    requires count == 0 || |dest| < 2 || tail + Min(count, |dest|) > |s| || tail == 0
    ensures Fetched(s, tail, count, dest) == Delivered(s, tail, count, dest)
  {
    assert Fetched(s, tail, count, dest).dest == Delivered(s, tail, count, dest).dest;
  }

  /** A concrete failure: two elements waiting at slots 1 and 2 of four; the second is never copied out. */
  lemma BulkGetCanLoseData()
    ensures Fetched([10, 11, 12, 13], 1, 2, [0, 0]) == Copied([11, 0])
    ensures Delivered([10, 11, 12, 13], 1, 2, [0, 0]) == Copied([11, 12])
  {
    var s := [10, 11, 12, 13];
    assert s[1..2] == [11] && s[1..3] == [11, 12];
    assert [0, 0][..2] == [0, 0];
  }

  /** `std::copy` of the elements `src` into `dest` from slot `at` on. */
  method CopyInto<T>(src: seq<T>, dest: array<T>, at: nat)
    requires at + |src| <= dest.Length
    modifies dest
    ensures dest[..] == Spliced(old(dest[..]), at, src)
  {
    forall i | 0 <= i < |src| {
      dest[at + i] := src[i];
    }
  }

  /** The array after writing `src` from slot `head` on, wrapping around at the end. */
  function Written<T>(s: seq<T>, head: nat, src: seq<T>): (after: seq<T>)
    requires head < |s| && |src| <= |s|
    ensures |after| == |s|
  {
    if head + |src| > |s| then Spliced(Spliced(s, head, src[..|s| - head]), 0, src[|s| - head..])
    else Spliced(s, head, src)
  }

  lemma WrittenOverwrites<T>(s: seq<T>, head: nat, src: seq<T>)
    requires head < |s| && |src| <= |s|
    ensures Overwritten(s, Written(s, head, src), head, src)
  {
    var after := Written(s, head, src);
    if head + |src| > |s| {
      var upper := |s| - head;
      var first := Spliced(s, head, src[..upper]);
      forall k | 0 <= k < |s|
        ensures after[k] == if Ahead(k, head, |s|) < |src| then src[Ahead(k, head, |s|)] else s[k]
      {
        if k < |src| - upper {
          assert after[k] == src[upper..][k];
        } else {
          assert after[k] == first[k];
        }
      }
    }
  }

  lemma WrittenKeepsNewest<T>(s: seq<T>, tail: nat, count: nat, src: seq<T>)
    requires tail < |s| && count <= |s| && |src| <= |s|
    ensures Unroll(Written(s, Slot(tail, count, |s|), src), NewTail(tail, count, |src|, |s|), Min(|s|, count + |src|))
         == Newest(Unroll(s, tail, count) + src, |s|)
  {
    WrittenOverwrites(s, Slot(tail, count, |s|), src);
    OverwriteKeepsNewest(s, Written(s, Slot(tail, count, |s|), src), tail, count, src);
  }

  /** What writing one element at the head and moving the tail does to the stored elements. */
  lemma PutKeepsNewest<T>(s: seq<T>, tail: nat, count: nat, data: T)
    requires tail < |s| && count <= |s|
    ensures var q := Unroll(s, tail, count);
      var r := Unroll(s[Slot(tail, count, |s|) := data], NewTail(tail, count, 1, |s|), Min(|s|, count + 1));
      && r == Newest(q + [data], |s|)
      && r == if count < |s| then q + [data] else q[1..] + [data]
  {
    var q, h := Unroll(s, tail, count), Slot(tail, count, |s|);
    OverwriteKeepsNewest(s, s[h := data], tail, count, [data]);
    if count == |s| {
      assert (q + [data])[1..] == q[1..] + [data];
    }
  }

  class RingBuffer<T(0)> {
    const Size: nat
    const buffer: array<T>
    var head: nat
    var tail: nat
    var full: bool

    ghost predicate Valid()
      reads this
    {
      && buffer.Length == Size > 0
      && head < Size
      && tail < Size
      && (full ==> head == tail)
    }

    /** The number of stored elements, computed from the two positions and the flag. */
    function Count(): (n: nat)
      requires Valid()
      reads this
      ensures n <= Size
    {
      if full then Size
      else if head < tail then Size - (tail - head)
      else head - tail
    }

    /** The write position follows the stored elements. */
    lemma HeadFollows()
      requires Valid()
      ensures head == Slot(tail, Count(), Size)
    {
    }

    /** The stored elements, oldest first. */
    ghost function View(): (v: seq<T>)
      requires Valid()
      reads this, buffer
      ensures |v| == Count()
    {
      Unroll(buffer[..], tail, Count())
    }

    constructor (size: nat)
      requires size > 0
      ensures Valid() && fresh(buffer) && Size == size && View() == []
    {
      Size := size;
      buffer := new T[size];
      head, tail, full := 0, 0, false;
    }

    function Increment(val: nat): nat
      requires val < Size
    {
      if val + 1 == Size then 0 else val + 1
    }

    function IncrementBy(val: nat, incr: nat): nat
      requires val < Size && incr <= Size
    {
      if val + incr >= Size then val + incr - Size else val + incr
    }

    method Put(data: T)
      requires Valid()
      modifies this, buffer
      ensures Valid()
      ensures View() == Newest(old(View()) + [data], Size)
      ensures View() == if |old(View())| < Size then old(View()) + [data] else old(View())[1..] + [data]
    {
      ghost var s, h, t, n := buffer[..], head, tail, Count();
      HeadFollows();
      buffer[head] := data;
      head := Increment(head);
      if full {
        tail := head;
      } else if head == tail {
        full := true;
      }
      assert buffer[..] == s[h := data];
      assert tail == NewTail(t, n, 1, Size) && Count() == Min(Size, n + 1);
      PutKeepsNewest(s, t, n, data);
    }

    method PutSpan(src: seq<T>)
      requires Valid()
      modifies this, buffer
      ensures Valid()
      ensures View() == Newest(old(View()) + src, Size)
      ensures var all := old(View()) + src;
        View() == all[|all| - Min(Size, |all|)..]
    {
      if |src| == 0 {
        assert View() + src == View();
      } else if |src| == 1 {
        Put(src[0]);
        assert [src[0]] == src;
      } else if |src| > Size {
        PutOverlong(src);
      } else {
        PutWithin(src);
      }
    }

    /** The branch of the bulk `put` for a source longer than the buffer: keep its last elements. */
    method PutOverlong(src: seq<T>)
      requires Valid() && |src| > Size
      modifies this, buffer
      ensures Valid()
      ensures View() == Newest(old(View()) + src, Size)
    {
      ghost var q := View();
      tail, head, full := 0, 0, true;
      CopyInto(src[|src| - Size..], buffer, 0);
      OverlongReplaces(q, src, buffer[..]);
    }

    /** Writes `src` from the head on in one or two copies, and moves the head. */
    method CopyAround(src: seq<T>)
      requires Valid() && 0 < |src| <= Size
      modifies this`head, buffer
      ensures buffer[..] == Written(old(buffer[..]), old(head), src)
      ensures head == Slot(old(head), |src|, Size)
    {
      ghost var s, h := buffer[..], head;
      var first := if head + |src| > Size then Size - head else |src|;
      CopyInto(src[..first], buffer, head);
      assert buffer[..] == Spliced(s, h, src[..first]);
      if first != |src| {
        CopyInto(src[first..], buffer, 0);
        assert buffer[..] == Spliced(Spliced(s, h, src[..first]), 0, src[first..]) == Written(s, h, src);
        head := |src| - first;
      } else {
        assert src[..first] == src;
        assert buffer[..] == Written(s, h, src);
        head := IncrementBy(head, first);
      }
    }

    /** The branch of the bulk `put` for a source that fits the array. */
    method PutWithin(src: seq<T>)
      requires Valid() && 0 < |src| <= Size
      modifies this, buffer
      ensures Valid()
      ensures View() == Newest(old(View()) + src, Size)
    {
      ghost var s, t, n := buffer[..], tail, Count();
      HeadFollows();
      var adjustTail := Size - Count() <= |src|;
      CopyAround(src);
      if adjustTail {
        tail, full := head, true;
      }
      assert tail == NewTail(t, n, |src|, Size) && Count() == Min(Size, n + |src|);
      WrittenKeepsNewest(s, t, n, src);
    }

    method Get() returns (data: T, available: bool)
      requires Valid()
      modifies this
      ensures Valid()
      ensures available <==> old(View()) != []
      ensures available ==> data == old(View())[0] && View() == old(View())[1..]
      ensures !available ==> View() == old(View())
    {
      if head == tail && !full {
        data := *;
        return data, false;
      }
      data, available := buffer[tail], true;
      tail := Increment(tail);
      full := false;
    }

    /**
     The bulk `get` as written. `ok` is false where the original copies a reversed range, which has no
     defined effect; otherwise the elements asked for leave the buffer, and the destination is `Fetched`.
     */
    method GetSpan(dest: array<T>) returns (count: nat, ok: bool)
      requires Valid() && dest != buffer
      modifies this, dest
      ensures Valid()
      ensures ok <==> old(Fetched(buffer[..], tail, Count(), dest[..])).Copied?
      ensures ok ==> count == Min(old(Count()), dest.Length)
      ensures ok ==> View() == old(View())[count..]
      ensures ok ==> Copied(dest[..]) == old(Fetched(buffer[..], tail, Count(), dest[..]))
      ensures var n := Min(old(Count()), dest.Length);
        !ok <==> dest.Length > 1 && 0 < n < old(tail) && old(tail) + n <= Size
      ensures ok && dest.Length > 1 && old(tail) + count <= Size ==> forall i :: 0 <= i < dest.Length ==>
        dest[i] == if i < count - old(tail) then old(buffer[..])[old(tail) + i] else old(dest[..])[i]
      ensures ok && (dest.Length == 1 || old(tail) + count > Size) ==> forall i :: 0 <= i < dest.Length ==>
        dest[i] == if i < count then old(View())[i] else old(dest[..])[i]
    {
      FetchedMeaning(buffer[..], tail, Count(), dest[..]);
      if dest.Length == 0 {
        NothingFetched();
        return 0, true;
      }
      if dest.Length == 1 {
        count := GetSingle(dest);
        return count, true;
      }
      if head == tail && !full {
        NothingFetched();
        return 0, true;
      }
      count, ok := GetMany(dest);
    }

    /** Taking no element leaves the content as it is. */
    lemma NothingFetched()
      requires Valid()
      ensures View() == View()[0..]
    {
    }

    /** The rest of a bulk `get`, once there is something to copy. */
    method GetMany(dest: array<T>) returns (count: nat, ok: bool)
      requires Valid() && dest != buffer && dest.Length > 1 && Count() > 0
      modifies this, dest
      ensures Valid()
      ensures ok <==> old(Fetched(buffer[..], tail, Count(), dest[..])).Copied?
      ensures ok ==> count == Min(old(Count()), dest.Length)
      ensures ok ==> View() == old(View())[count..]
      ensures ok ==> Copied(dest[..]) == old(Fetched(buffer[..], tail, Count(), dest[..]))
    {
      count := Min(Count(), dest.Length);
      if tail + count > Size {
        GetWrapped(dest, count);
        ok := true;
      } else if count < tail {
        ok := false;
      } else {
        GetContiguous(dest, count);
        ok := true;
      }
    }

    /** A bulk `get` of one element falls back on the single `get`. */
    method GetSingle(dest: array<T>) returns (count: nat)
      requires Valid() && dest != buffer && dest.Length == 1
      modifies this, dest
      ensures Valid() && count == Min(old(Count()), 1) && View() == old(View())[count..]
      ensures Copied(dest[..]) == old(Fetched(buffer[..], tail, Count(), dest[..]))
    {
      count := 0;
      var data, available := Get();
      if available {
        dest[0] := data;
        count := 1;
      }
    }

    /** The branch of the bulk `get` that runs past the end of the array: two copies. */
    method GetWrapped(dest: array<T>, count: nat)
      requires Valid() && dest != buffer && dest.Length > 1
      requires count == Min(Count(), dest.Length) && Size - tail < count
      modifies this, dest
      ensures Valid() && View() == old(View())[count..]
      ensures Copied(dest[..]) == old(Fetched(buffer[..], tail, Count(), dest[..]))
    {
      ghost var s, left := buffer[..], Count() - count;
      WrapSteps(s, tail, Count(), dest[..]);
      var upper := Size - tail;
      CopyUpper(dest);
      tail := count - upper;
      CopyLower(dest, upper);
      full := false;
      assert buffer[..] == s && Count() == left;
    }

    /** Copies the slots from the tail to the end of the array to the front of `dest`. */
    method CopyUpper(dest: array<T>)
      requires Valid() && dest != buffer && Size - tail <= dest.Length
      modifies dest
      ensures buffer[..] == old(buffer[..])
      ensures dest[..] == Spliced(old(dest[..]), 0, buffer[..][tail..])
    {
      CopyInto(buffer[..][tail..], dest, 0);
    }

    /** Copies the slots before the tail to `dest` from slot `at` on. */
    method CopyLower(dest: array<T>, at: nat)
      requires tail < buffer.Length && dest != buffer && at + tail <= dest.Length
      modifies dest
      ensures buffer[..] == old(buffer[..])
      ensures dest[..] == Spliced(old(dest[..]), at, buffer[..][..tail])
    {
      CopyInto(buffer[..][..tail], dest, at);
    }

    /** The other branch as written: it copies from slot `tail` up to slot `count`. */
    method GetContiguous(dest: array<T>, count: nat)
      requires Valid() && dest != buffer && dest.Length > 1
      requires count == Min(Count(), dest.Length) && 0 < count && tail <= count && tail + count <= Size
      modifies this, dest
      ensures Valid() && View() == old(View())[count..]
      ensures Copied(dest[..]) == old(Fetched(buffer[..], tail, Count(), dest[..]))
    {
      ghost var t, n := tail, Count();
      CopyInto(buffer[..][tail..count], dest, 0);
      tail := IncrementBy(tail, count);
      full := false;
      UnrollDrop(buffer[..], t, n, count);
    }

    method IsEmpty() returns (empty: bool)
      requires Valid()
      ensures empty <==> View() == []
    {
      empty := head == tail && !full;
    }

    method IsFull() returns (isFull: bool)
      requires Valid()
      ensures isFull <==> |View()| == Size
    {
      isFull := full;
    }

    method Capacity() returns (room: nat)
      requires Valid()
      ensures room == Size - |View()|
    {
      room := Size - Count();
    }
  }
}
