/**
 The abstract queue that the serial ring buffer implements: it keeps the newest elements and drops
 the oldest ones when there is no room.
 */
module BoundedQueue {

  /** The last `n` elements of `s`, or all of them when there are fewer. */
  function Newest<T>(s: seq<T>, n: nat): (r: seq<T>)
    ensures |r| == if |s| < n then |s| else n
  {
    if |s| <= n then s else s[|s| - n..]
  }

  /** Appending the elements of `src` one at a time, dropping the oldest on overflow. */
  function PutEach<T>(q: seq<T>, src: seq<T>, n: nat): seq<T>
    decreases |src|
  {
    if src == [] then q else PutEach(Newest(q + [src[0]], n), src[1..], n)
  }

  /** Taking the oldest element of `q` up to `n` times: what was taken, and what is left. */
  function GetEach<T>(q: seq<T>, n: nat): (seq<T>, seq<T>)
    decreases n
  {
    if n == 0 || q == [] then ([], q)
    else
      var (taken, rest) := GetEach(q[1..], n - 1);
      ([q[0]] + taken, rest)
  }

  /** Single gets in a row take the oldest elements in order and leave the others. */
  lemma {:induction false} GetEachTakesOldest<T>(q: seq<T>, n: nat)
    ensures var k := if n < |q| then n else |q|;
      GetEach(q, n) == (q[..k], q[k..])
    decreases n
  {
    if n > 0 && q != [] {
      var k := if n < |q| then n else |q|;
      GetEachTakesOldest(q[1..], n - 1);
      assert [q[0]] + q[1..][..k - 1] == q[..k] && q[1..][k - 1..] == q[k..];
    }
  }

  function Flatten<T>(chunks: seq<seq<T>>): seq<T> {
    if chunks == [] then [] else chunks[0] + Flatten(chunks[1..])
  }

  /** Appending whole chunks, dropping the oldest elements after each chunk. */
  function PutChunks<T>(q: seq<T>, chunks: seq<seq<T>>, n: nat): seq<T>
    decreases |chunks|
  {
    if chunks == [] then q else PutChunks(Newest(q + chunks[0], n), chunks[1..], n)
  }

  /** Trimming early is invisible once the queue is trimmed again. */
  lemma NewestAbsorbs<T>(a: seq<T>, b: seq<T>, n: nat)
    ensures Newest(Newest(a, n) + b, n) == Newest(a + b, n)
  {
    var l, r := Newest(Newest(a, n) + b, n), Newest(a + b, n);
    assert |l| == |r|;
    assert forall i :: 0 <= i < |r| ==> l[i] == r[i];
  }

  /** One bulk append that keeps the newest `n` agrees with any number of single appends. */
  lemma {:induction false} PutEachKeepsNewest<T>(q: seq<T>, src: seq<T>, n: nat)
    requires |q| <= n
    ensures PutEach(q, src, n) == Newest(q + src, n)
    decreases |src|
  {
    if src == [] {
      assert q + src == q;
    } else {
      PutEachKeepsNewest(Newest(q + [src[0]], n), src[1..], n);
      NewestAbsorbs(q + [src[0]], src[1..], n);
      assert q + [src[0]] + src[1..] == q + src;
    }
  }

  /** However a stream is cut into chunks, the queue ends with the newest `n` elements of the stream. */
  lemma {:induction false} ChunkingIsInvisible<T>(q: seq<T>, chunks: seq<seq<T>>, n: nat)
    requires |q| <= n
    ensures PutChunks(q, chunks, n) == Newest(q + Flatten(chunks), n)
    decreases |chunks|
  {
    if chunks == [] {
      assert q + Flatten(chunks) == q;
    } else {
      ChunkingIsInvisible(Newest(q + chunks[0], n), chunks[1..], n);
      NewestAbsorbs(q + chunks[0], Flatten(chunks[1..]), n);
      assert q + chunks[0] + Flatten(chunks[1..]) == q + Flatten(chunks);
    }
  }

  lemma {:induction false} FlattenAppend<T>(a: seq<seq<T>>, x: seq<T>)
    ensures Flatten(a + [x]) == Flatten(a) + x
  {
    if a == [] {
      assert a + [x] == [x];
    } else {
      FlattenAppend(a[1..], x);
      assert (a + [x])[1..] == a[1..] + [x];
    }
  }
}
