/**
 The lwIP buffer manager: it allocates a chain of pool buffers with room to spare, moves the start of each
 link to an aligned address, trims every link by the alignment and recomputes the totals of the chain.
 */
module LwipMemory {

  /** Lengths are stored in 16 bits, and the surplus is computed in 32. */
  const U16: nat := 0x1_0000
  const U32: nat := 0x1_0000_0000

  /** The sum of the lengths from index `i` to the end. */
  function Total(lens: seq<nat>, i: nat): nat
    decreases |lens| - i
  {
    if i >= |lens| then 0 else lens[i] + Total(lens, i + 1)
  }

  // ---- The arithmetic of over-allocation ----

  function Ceil(n: nat, d: nat): nat
    requires d > 0
  {
    if n % d != 0 then n / d + 1 else n / d
  }

  /** `count_total_align` for pool buffers of `unit` bytes. */
  function CountTotalAlign(size: nat, align: nat, unit: nat): nat
    requires align < unit
  {
    Ceil(size, unit - align) * align
  }

  /**
   The same in 32-bit arithmetic, as the code computes it for an alignment of any size. For an alignment of
   exactly one pool buffer the code divides by zero.
   */
  function CountTotalAlign32(size: nat, align: nat, unit: nat): nat
    requires (unit - align) % U32 != 0
  {
    Ceil(size, (unit - align) % U32) * align % U32
  }

  /** The length that `pbuf_alloc` is called with, which is a 16-bit parameter. */
  function Request(size: nat, align: nat, unit: nat): nat
    requires (unit - align) % U32 != 0
  {
    (size + CountTotalAlign32(size, align, unit)) % U16
  }

  /** A positive request, with its surplus, that 16 bits can hold. */
  predicate Fits(size: nat, align: nat, unit: nat) {
    size > 0 && align < unit && size + CountTotalAlign(size, align, unit) < U16
  }

  /** A request that fits is not changed by the arithmetic of the machine. */
  lemma FittingRequest(size: nat, align: nat, unit: nat)
    requires Fits(size, align, unit) && unit <= U16
    ensures (unit - align) % U32 != 0 && Request(size, align, unit) == size + CountTotalAlign(size, align, unit)
  {
    assert (unit - align) % U32 == unit - align;
  }

  /** What `pbuf_alloc` makes of a request: full pool buffers and a last one that holds the rest. */
  predicate PoolLens(lens: seq<nat>, unit: nat, request: nat) {
    && lens != []
    && (forall i :: 0 <= i < |lens| - 1 ==> lens[i] == unit)
    && lens[|lens| - 1] <= unit
    && (|lens| > 1 ==> lens[|lens| - 1] > 0)
    && Total(lens, 0) == request
  }

  lemma {:induction false} TotalOfPool(lens: seq<nat>, unit: nat, i: nat)
    requires i < |lens| && forall k :: 0 <= k < |lens| - 1 ==> lens[k] == unit
    ensures Total(lens, i) == (|lens| - 1 - i) * unit + lens[|lens| - 1]
    decreases |lens| - i
  {
    if i == |lens| - 1 {
      assert Total(lens, i + 1) == 0;
    } else {
      TotalOfPool(lens, unit, i + 1);
      assert (|lens| - 2 - i) * unit + unit == (|lens| - 1 - i) * unit;
    }
  }

  /** Multiplying by the same positive number keeps the order, in both directions. */
  lemma MulOrder(a: int, b: int, d: nat)
    requires d > 0
    ensures a < b <==> a * d < b * d
  {
    if a < b {
      assert (b - a) * d > 0;
    } else {
      assert (a - b) * d >= 0;
    }
  }

  lemma CeilIs(n: nat, d: nat, k: nat)
    requires d > 0 && k > 0 && (k - 1) * d < n <= k * d
    ensures Ceil(n, d) == k
  {
    var q := n / d;
    assert n == q * d + n % d && (q + 1) * d == q * d + d;
    MulOrder(k - 1, q + 1, d);
    MulOrder(k, q, d);
    MulOrder(k - 1, q, d);
    MulOrder(q, k, d);
  }

  lemma CeilBounds(n: nat, d: nat)
    requires d > 0 && n > 0
    ensures Ceil(n, d) > 0 && (Ceil(n, d) - 1) * d < n <= Ceil(n, d) * d
  {
    var q := n / d;
    assert n == q * d + n % d && (q + 1) * d == q * d + d && (q - 1) * d == q * d - d;
  }

  /** A chain whose lengths follow a pool request has one link for every started unit. */
  lemma PoolLinkCount(lens: seq<nat>, unit: nat, request: nat)
    requires unit > 0 && request > 0 && PoolLens(lens, unit, request)
    ensures |lens| == Ceil(request, unit)
    ensures request == (|lens| - 1) * unit + lens[|lens| - 1]
  {
    TotalOfPool(lens, unit, 0);
    assert (|lens| - 1) * unit + unit == |lens| * unit;
    CeilIs(request, unit, |lens|);
  }

  /** The request with its surplus needs exactly as many links as the payload needs trimmed units. */
  lemma SurplusKeepsLinkCount(size: nat, align: nat, unit: nat)
    requires size > 0 && align < unit
    ensures Ceil(size + CountTotalAlign(size, align, unit), unit) == Ceil(size, unit - align)
    ensures size + CountTotalAlign(size, align, unit) > (Ceil(size, unit - align) - 1) * unit + align
  {
    var k := Ceil(size, unit - align);
    CeilBounds(size, unit - align);
    assert k * (unit - align) + k * align == k * unit;
    assert (k - 1) * (unit - align) + k * align == (k - 1) * unit + align;
    CeilIs(size + k * align, unit, k);
  }

  /** Trimming as the 16-bit length field does it. */
  function Trimmed(len: nat, align: nat): nat {
    (len - align) % U16
  }

  function TrimAll(lens: seq<nat>, align: nat): (r: seq<nat>)
    ensures |r| == |lens|
  {
    seq(|lens|, i requires 0 <= i < |lens| => Trimmed(lens[i], align))
  }

  lemma {:induction false} TrimAllTotal(lens: seq<nat>, align: nat, i: nat)
    requires i <= |lens| && forall k :: 0 <= k < |lens| ==> align <= lens[k] < U16
    ensures Total(TrimAll(lens, align), i) + (|lens| - i) * align == Total(lens, i)
    decreases |lens| - i
  {
    if i < |lens| {
      TrimAllTotal(lens, align, i + 1);
      assert (|lens| - i - 1) * align + align == (|lens| - i) * align;
    }
  }

  /** The trimmed total in 16 bits, whether or not every link is long enough to be trimmed. */
  lemma {:induction false} TrimAllTotalMod(lens: seq<nat>, align: nat, i: nat)
    requires i <= |lens|
    ensures Total(TrimAll(lens, align), i) % U16 == (Total(lens, i) - (|lens| - i) * align) % U16
    decreases |lens| - i
  {
    if i < |lens| {
      TrimAllTotalMod(lens, align, i + 1);
      var rest := Total(lens, i + 1) - (|lens| - i - 1) * align;
      assert (|lens| - i - 1) * align + align == (|lens| - i) * align;
      AddMod(lens[i] - align, Total(TrimAll(lens, align), i + 1), rest);
    }
  }

  /** Summands that are equal in 16 bits have sums that are. */
  lemma AddMod(a: int, b: int, c: int)
    requires b % U16 == c % U16
    ensures (a % U16 + b) % U16 == (a + c) % U16
  {
    var p, q, r := a / U16, b / U16, c / U16;
    assert a == p * U16 + a % U16 && b == q * U16 + b % U16 && c == r * U16 + c % U16;
    assert a + c == a % U16 + b % U16 + (p + r) * U16;
  }

  /** The trimmed chain is what the caller asked for: `size` bytes, and no link trimmed below its length. */
  predicate Usable(lens: seq<nat>, size: nat, align: nat) {
    && Total(TrimAll(lens, align), 0) == size
    && forall i :: 0 <= i < |lens| ==> align <= lens[i]
  }

  /**
   The over-allocated chain has exactly the links that `size` bytes need in trimmed units, every link keeps
   at least one byte, and exactly `size` bytes remain.
   */
  lemma PoolRequestFits(lens: seq<nat>, size: nat, align: nat, unit: nat)
    requires size > 0 && align < unit && size + CountTotalAlign(size, align, unit) < U16
    requires PoolLens(lens, unit, size + CountTotalAlign(size, align, unit))
    ensures |lens| == Ceil(size, unit - align)
    ensures forall i :: 0 <= i < |lens| ==> align < lens[i] < U16
    ensures Usable(lens, size, align)
  {
    var request := size + CountTotalAlign(size, align, unit);
    SurplusKeepsLinkCount(size, align, unit);
    PoolLinkCount(lens, unit, request);
    assert lens[|lens| - 1] > align;
    if |lens| > 1 {
      MulOrder(0, |lens| - 1, unit);
    }
    TrimAllTotal(lens, align, 0);
  }

  /** For a request of any size, the trimmed chain is usable unless an empty request is aligned. */
  lemma PoolUsableIff(lens: seq<nat>, size: nat, align: nat, unit: nat)
    requires align < unit && size + CountTotalAlign(size, align, unit) < U16
    requires PoolLens(lens, unit, size + CountTotalAlign(size, align, unit))
    ensures Usable(lens, size, align) <==> size > 0 || align == 0
  {
    if size > 0 {
      PoolRequestFits(lens, size, align, unit);
    } else {
      assert Ceil(0, unit - align) == 0;
      assert CountTotalAlign(0, align, unit) == 0;
      TotalOfPool(lens, unit, 0);
      MulOrder(0, |lens| - 1, unit);
      assert |lens| == 1 && lens[0] == 0;
      assert Total(lens, 1) == 0 && Total(TrimAll(lens, align), 1) == 0;
    }
  }

  /** An empty aligned request: the length of its single link wraps around to almost the whole range. */
  lemma EmptyRequestWraps()
    ensures CountTotalAlign(0, 4, 1664) == 0 && PoolLens([0], 1664, 0)
    ensures TrimAll([0], 4) == [65532]
  {
    assert Trimmed(0, 4) == 65532;
  }

  /** The next multiple of `align` at or after `payload`, as the code computes it. */
  function AlignedUp(payload: nat, align: nat): nat
    requires align > 0
  {
    if payload % align == 0 then payload else payload + (align - payload % align)
  }

  lemma AlignedUpIsNextMultiple(payload: nat, align: nat)
    requires align > 0
    ensures payload <= AlignedUp(payload, align) < payload + align
    ensures AlignedUp(payload, align) % align == 0
  {
    if payload % align != 0 {
      var q := payload / align;
      assert payload == q * align + payload % align && (q + 1) * align == q * align + align;
      MultipleModulo(q + 1, align);
    }
  }

  lemma MultipleModulo(k: nat, d: nat)
    requires d > 0
    ensures k * d % d == 0
  {
    var q := k * d / d;
    assert k * d == q * d + k * d % d && (q + 1) * d == q * d + d;
    MulOrder(k, q + 1, d);
    MulOrder(k, q, d);
  }

  /** Reducing one summand first does not change a sum in 16 bits. */
  lemma ReduceFirst(a: nat, b: nat)
    ensures (a + b % U16) % U16 == (a + b) % U16
  {
    var k := b / U16;
    assert a + b == a + b % U16 + k * U16;
  }

  lemma SameAfterAdding(a: nat, b: nat)
    requires a < U16
    ensures (a + b) % U16 == a <==> b % U16 == 0
  {
    ReduceFirst(a, b);
  }

  // ---- The chain in memory ----

  class Pbuf {
    var next: Pbuf?
    var payload: nat
    var len: nat
    var totLen: nat

    constructor (start: nat, length: nat)
      ensures next == null && payload == start && len == totLen == length
    {
      next, payload, len, totLen := null, start, length, length;
    }
  }

  /** Link `i` of a chain, or the null pointer after the last one. */
  function NodeAt(nodes: seq<Pbuf>, i: nat): (n: Pbuf?)
    ensures n == null <==> i >= |nodes|
  {
    if i < |nodes| then nodes[i] else null
  }

  ghost predicate LeadsOn(nodes: seq<Pbuf>, i: nat)
    requires i < |nodes|
    reads nodes`next
  {
    nodes[i].next == NodeAt(nodes, i + 1)
  }

  predicate Apart(nodes: seq<Pbuf>, i: nat, j: nat)
    requires i < |nodes| && j < |nodes|
  {
    nodes[i] != nodes[j]
  }

  /** `nodes` are the links reached from `head`, in order and without a cycle. */
  ghost predicate IsChain(head: Pbuf?, nodes: seq<Pbuf>)
    reads nodes`next
  {
    && (head == null <==> nodes == [])
    && (nodes != [] ==> head == nodes[0])
    && (forall i :: 0 <= i < |nodes| ==> LeadsOn(nodes, i))
    && (forall i, j :: 0 <= i < j < |nodes| ==> Apart(nodes, i, j))
  }

  /** No other link of a chain is link `i`. */
  lemma AllApart(head: Pbuf?, nodes: seq<Pbuf>, i: nat)
    requires IsChain(head, nodes) && i < |nodes|
    ensures forall k :: 0 <= k < |nodes| && k != i ==> nodes[k] != nodes[i]
  {
    forall k | 0 <= k < |nodes| && k != i
      ensures nodes[k] != nodes[i]
    {
      assert if k < i then Apart(nodes, k, i) else Apart(nodes, i, k);
    }
  }

  ghost function Lens(nodes: seq<Pbuf>): (lens: seq<nat>)
    reads nodes
    ensures |lens| == |nodes|
    ensures forall i :: 0 <= i < |nodes| ==> lens[i] == nodes[i].len
  {
    seq(|nodes|, (i: nat) requires i < |nodes| reads nodes => nodes[i].len)
  }

  /** The total of link `i`, `n`, is the sum of the lengths from there to the end, in 16 bits. */
  ghost predicate TotalIs(n: Pbuf, lens: seq<nat>, i: nat)
    reads n`totLen
  {
    n.totLen == Total(lens, i) % U16
  }

  ghost predicate TotalsOk(nodes: seq<Pbuf>)
    reads nodes
  {
    forall i {:trigger TotalIs(nodes[i], Lens(nodes), i)} :: 0 <= i < |nodes| ==> TotalIs(nodes[i], Lens(nodes), i)
  }

  /** The law of the chain: a total is the link's own length and the total of the next link. */
  lemma TotalsAddUp(nodes: seq<Pbuf>, i: nat)
    requires i < |nodes| && TotalsOk(nodes)
    ensures nodes[i].totLen == (nodes[i].len + if i + 1 < |nodes| then nodes[i + 1].totLen else 0) % U16
  {
    assert TotalIs(nodes[i], Lens(nodes), i);
    if i + 1 < |nodes| {
      assert TotalIs(nodes[i + 1], Lens(nodes), i + 1);
    }
    ReduceFirst(nodes[i].len, Total(Lens(nodes), i + 1));
  }

  /** The body of the outer loop: one total. */
  method SetOneTotal(pbuf: Pbuf, ghost nodes: seq<Pbuf>, ghost i: nat)
    requires nodes != [] && IsChain(nodes[0], nodes) && i < |nodes| && pbuf == nodes[i]
    modifies pbuf`totLen
    ensures TotalIs(nodes[i], Lens(nodes), i)
  {
    ghost var lens := Lens(nodes);
    var total := TotalFrom(pbuf, nodes, i);
    pbuf.totLen := total % U16;
    assert Lens(nodes) == lens;
  }

  method SetTotalLen(head: Pbuf, ghost nodes: seq<Pbuf>)
    requires IsChain(head, nodes)
    modifies nodes`totLen
    ensures TotalsOk(nodes)
  {
    assert LeadsOn(nodes, 0);
    if head.next == null {
      head.totLen := head.len % U16;
      OneTotal(Lens(nodes));
      return;
    }
    SetTotals(head, nodes);
  }

  lemma OneTotal(lens: seq<nat>)
    requires |lens| == 1
    ensures Total(lens, 0) == lens[0]
  {
    assert Total(lens, 1) == 0;
  }

  /** The outer loop, over every link of the chain. */
  method SetTotals(head: Pbuf, ghost nodes: seq<Pbuf>)
    requires IsChain(head, nodes)
    modifies nodes`totLen
    ensures TotalsOk(nodes)
  {
    ghost var lens := Lens(nodes);
    var pbuf: Pbuf? := head;
    ghost var i := 0;
    while pbuf != null
      invariant i <= |nodes| && IsChain(head, nodes) && Lens(nodes) == lens
      invariant pbuf == NodeAt(nodes, i)
      invariant forall k {:trigger TotalIs(nodes[k], lens, k)} :: 0 <= k < i ==> TotalIs(nodes[k], lens, k)
      decreases |nodes| - i
    {
      AllApart(head, nodes, i);
      SetOneTotal(pbuf, nodes, i);
      assert LeadsOn(nodes, i);
      pbuf := pbuf.next;
      i := i + 1;
    }
  }

  /** The inner loop: the length of a link and of every link after it. */
  method TotalFrom(pbuf: Pbuf, ghost nodes: seq<Pbuf>, ghost i: nat) returns (total: nat)
    requires nodes != [] && IsChain(nodes[0], nodes) && i < |nodes| && pbuf == nodes[i]
    ensures total == Total(Lens(nodes), i)
  {
    total := pbuf.len;
    assert LeadsOn(nodes, i);
    var trailing := pbuf.next;
    ghost var lens := Lens(nodes);
    ghost var j := i + 1;
    while trailing != null
      invariant i < j <= |nodes|
      invariant trailing == NodeAt(nodes, j)
      invariant total + Total(lens, j) == Total(lens, i)
      decreases |nodes| - j
    {
      assert lens[j] == trailing.len;
      total := total + trailing.len;
      assert LeadsOn(nodes, j);
      trailing := trailing.next;
      j := j + 1;
    }
  }

  /** Link `n` has been aligned: its start moved up to an aligned address, its length trimmed. */
  twostate predicate LinkAligned(n: Pbuf, align: nat)
    requires align > 0
    reads n`payload, n`len
  {
    n.payload == AlignedUp(old(n.payload), align) && n.len == Trimmed(old(n.len), align)
  }

  /** A link lies, aligned and not empty, inside the storage that it had before. */
  twostate predicate InsideOld(n: Pbuf, align: nat)
    reads n`payload, n`len
  {
    && (align > 0 ==> n.payload % align == 0)
    && n.len > 0
    && old(n.payload) <= n.payload
    && n.payload + n.len <= old(n.payload) + old(n.len)
  }

  /** The first `n` links have been aligned. */
  twostate predicate AllAligned(nodes: seq<Pbuf>, n: nat, align: nat)
    requires n <= |nodes| && align > 0
    reads nodes`payload, nodes`len
  {
    forall i {:trigger LinkAligned(nodes[i], align)} :: 0 <= i < n ==> LinkAligned(nodes[i], align)
  }

  /** Those of the first `n` links that were longer than the alignment keep inside their storage. */
  twostate predicate RoomyInside(nodes: seq<Pbuf>, n: nat, align: nat)
    requires n <= |nodes|
    reads nodes`payload, nodes`len
  {
    forall i {:trigger InsideOld(nodes[i], align)} :: 0 <= i < n ==>
      align < old(nodes[i].len) < U16 ==> InsideOld(nodes[i], align)
  }

  twostate predicate AllInside(nodes: seq<Pbuf>, align: nat)
    reads nodes`payload, nodes`len
  {
    forall i {:trigger InsideOld(nodes[i], align)} :: 0 <= i < |nodes| ==> InsideOld(nodes[i], align)
  }

  /** Moving the start by less than the alignment and trimming by the alignment stays inside the storage. */
  lemma TrimStaysInside(payload: nat, len: nat, align: nat)
    requires 0 < align < len < U16
    ensures AlignedUp(payload, align) % align == 0 && payload <= AlignedUp(payload, align)
    ensures 0 < Trimmed(len, align) && AlignedUp(payload, align) + Trimmed(len, align) <= payload + len
  {
    AlignedUpIsNextMultiple(payload, align);
  }

  /** The body of the loop: one link. */
  method AlignLink(pbuf: Pbuf, align: nat)
    requires align > 0
    modifies pbuf`payload, pbuf`len
    ensures LinkAligned(pbuf, align)
    ensures align < old(pbuf.len) < U16 ==> InsideOld(pbuf, align)
  {
    if align < pbuf.len < U16 {
      TrimStaysInside(pbuf.payload, pbuf.len, align);
    }
    var remainder := pbuf.payload % align;
    if remainder != 0 {
      var offset := align - remainder;
      if offset >= align {
        offset := align;
      }
      pbuf.payload := pbuf.payload + offset;
    }
    pbuf.len := (pbuf.len - align) % U16;
  }

  /** The loop over the links. A link with more than `align` bytes stays inside its own storage. */
  method AlignLinks(head: Pbuf, align: nat, ghost nodes: seq<Pbuf>)
    requires IsChain(head, nodes) && align > 0
    modifies nodes`payload, nodes`len
    ensures AllAligned(nodes, |nodes|, align)
    ensures RoomyInside(nodes, |nodes|, align)
  {
    var pbuf: Pbuf? := head;
    ghost var i := 0;
    while pbuf != null
      invariant i <= |nodes| && IsChain(head, nodes)
      invariant pbuf == NodeAt(nodes, i)
      invariant AllAligned(nodes, i, align)
      invariant RoomyInside(nodes, i, align)
      invariant forall k :: i <= k < |nodes| ==> unchanged(nodes[k])
      decreases |nodes| - i
    {
      AllApart(head, nodes, i);
      AlignLink(pbuf, align);
      assert LeadsOn(nodes, i);
      pbuf := pbuf.next;
      i := i + 1;
    }
  }

  method AlignMemory(head: Pbuf, align: nat, ghost nodes: seq<Pbuf>)
    requires IsChain(head, nodes)
    modifies nodes`payload, nodes`len, nodes`totLen
    ensures align == 0 ==> forall i :: 0 <= i < |nodes| ==> unchanged(nodes[i])
    ensures align > 0 ==> AllAligned(nodes, |nodes|, align)
    ensures align > 0 ==> TotalsOk(nodes) && Lens(nodes) == TrimAll(old(Lens(nodes)), align)
    ensures RoomyInside(nodes, |nodes|, align)
  {
    if align == 0 {
      return;
    }
    AlignLinks(head, align, nodes);
    forall i | 0 <= i < |nodes|
      ensures Lens(nodes)[i] == TrimAll(old(Lens(nodes)), align)[i]
    {
      assert LinkAligned(nodes[i], align);
    }
    ghost var lens := Lens(nodes);
    SetTotalLen(head, nodes);
    assert Lens(nodes) == lens;
  }

  lemma TrimNothing(lens: seq<nat>)
    requires forall i :: 0 <= i < |lens| ==> lens[i] < U16
    ensures TrimAll(lens, 0) == lens
  {
  }

  /** No link of a pool chain is longer than the request. */
  lemma PoolLensBound(lens: seq<nat>, unit: nat, request: nat)
    requires PoolLens(lens, unit, request)
    ensures forall i :: 0 <= i < |lens| ==> lens[i] <= request
  {
    TotalOfPool(lens, unit, 0);
    if |lens| > 1 {
      assert (|lens| - 1) * unit == (|lens| - 2) * unit + unit;
    }
  }

  lemma CeilOfNothing(d: nat)
    requires d > 0
    ensures Ceil(0, d) == 0
  {
  }

  /** Nothing is added to an empty request. */
  lemma EmptyRequest(align: nat, unit: nat)
    requires (unit - align) % U32 != 0
    ensures Request(0, align, unit) == 0
  {
    CeilOfNothing((unit - align) % U32);
  }

  /** An empty request gives one empty link. */
  lemma EmptyPoolChain(lens: seq<nat>, align: nat, unit: nat)
    requires unit > 0 && PoolLens(lens, unit, 0)
    ensures |lens| == 1 && lens[0] == 0 && Total(TrimAll(lens, align), 0) == (U16 - align) % U16
  {
    TotalOfPool(lens, unit, 0);
    MulOrder(0, |lens| - 1, unit);
    assert Total(TrimAll(lens, align), 1) == 0;
    assert (0 - align) % U16 == (U16 - align) % U16;
  }

  /** What a pool request of any size and alignment leaves once it is trimmed. */
  lemma PoolOutcome(lens: seq<nat>, size: nat, align: nat, unit: nat)
    requires 0 < unit <= U16 && (unit - align) % U32 != 0
    requires PoolLens(lens, unit, Request(size, align, unit))
    ensures forall i :: 0 <= i < |lens| ==> lens[i] < U16
    ensures size == 0 ==> |lens| == 1 && Total(TrimAll(lens, align), 0) == (U16 - align) % U16
    ensures Fits(size, align, unit) ==>
      && Total(TrimAll(lens, align), 0) == size
      && |lens| == Ceil(size, unit - align)
      && forall i :: 0 <= i < |lens| ==> align < lens[i]
  {
    PoolLensBound(lens, unit, Request(size, align, unit));
    if size == 0 {
      EmptyRequest(align, unit);
      EmptyPoolChain(lens, align, unit);
    }
    if Fits(size, align, unit) {
      FittingRequest(size, align, unit);
      PoolRequestFits(lens, size, align, unit);
    }
  }

  /** The requests that the allocation from the pool serves: those that fit, and unaligned ones of any 16-bit size. */
  predicate Serves(size: nat, align: nat, unit: nat) {
    Fits(size, align, unit) || (align == 0 && size < U16)
  }

  /** What the 16 bits of the request cut off, when the surplus itself is not cut off in 32. */
  lemma RequestCutOff(size: nat, align: nat, unit: nat) returns (m: nat)
    requires align < unit <= U16
    ensures (unit - align) % U32 != 0
    ensures Request(size, align, unit) == size + CountTotalAlign(size, align, unit) - m * U16
  {
    var surplus := CountTotalAlign(size, align, unit);
    assert (unit - align) % U32 == unit - align;
    var q, p := surplus / U32, (size + surplus % U32) / U16;
    assert surplus == q * U32 + surplus % U32;
    m := q * U16 + p;
  }

  lemma CeilAtMost(n: nat, d: nat, k: nat)
    requires d > 0 && n <= k * d
    ensures Ceil(n, d) <= k
  {
    if n > 0 {
      CeilBounds(n, d);
      MulOrder(Ceil(n, d) - 1, k, d);
    } else {
      CeilOfNothing(d);
    }
  }

  /** A chain of pool buffers holds no more than its links can. */
  lemma PoolHolds(lens: seq<nat>, unit: nat, request: nat)
    requires PoolLens(lens, unit, request)
    ensures request <= |lens| * unit
  {
    TotalOfPool(lens, unit, 0);
    assert (|lens| - 1) * unit + unit == |lens| * unit;
  }

  /** A usable chain has at least as many links as its bytes need trimmed units. */
  lemma UsableNeedsLinks(lens: seq<nat>, size: nat, align: nat, unit: nat, request: nat)
    requires align < unit && PoolLens(lens, unit, request) && request < U16
    requires Usable(lens, size, align)
    ensures size + |lens| * align == request
    ensures Ceil(size, unit - align) <= |lens|
  {
    PoolLensBound(lens, unit, request);
    TrimAllTotal(lens, align, 0);
    PoolHolds(lens, unit, request);
    assert |lens| * unit == |lens| * (unit - align) + |lens| * align;
    CeilAtMost(size, unit - align, |lens|);
  }

  /** A request of which something was cut off leaves an aligned chain with too few links to be usable. */
  lemma CutOffIsUnusable(lens: seq<nat>, size: nat, align: nat, unit: nat, request: nat, m: nat)
    requires 0 < align < unit && PoolLens(lens, unit, request) && request < U16
    requires request == size + CountTotalAlign(size, align, unit) - m * U16
    requires Usable(lens, size, align)
    ensures m == 0
  {
    UsableNeedsLinks(lens, size, align, unit, request);
    MulMonotonic(Ceil(size, unit - align), |lens|, align);
  }

  lemma MulMonotonic(a: nat, b: nat, d: nat)
    requires a <= b
    ensures a * d <= b * d
  {
    assert (b - a) * d >= 0;
  }

  /** A link longer than a pool buffer is not to be had, so a larger alignment leaves no chain usable. */
  lemma OverAlignedIsUnusable(lens: seq<nat>, size: nat, align: nat, unit: nat, request: nat)
    requires unit < align && PoolLens(lens, unit, request)
    ensures !Usable(lens, size, align)
  {
    assert lens[|lens| - 1] < align;
  }

  /**
   Exactly which requests the pool serves, for every size and alignment and with all that the 32-bit and 16-bit
   arithmetic cuts off: the trimmed chain holds `size` bytes, and no link is trimmed below its length, if and
   only if the request with its surplus fits 16 bits, or nothing is aligned and the size alone does.
   */
  lemma PoolServesIff(lens: seq<nat>, size: nat, align: nat, unit: nat)
    requires 0 < unit <= U16 && (unit - align) % U32 != 0
    requires PoolLens(lens, unit, Request(size, align, unit))
    ensures Usable(lens, size, align) <==> Serves(size, align, unit)
  {
    var request := Request(size, align, unit);
    PoolLensBound(lens, unit, request);
    if Fits(size, align, unit) {
      FittingRequest(size, align, unit);
      PoolRequestFits(lens, size, align, unit);
    } else if align == 0 {
      UnalignedRequest(size, unit);
      TrimNothing(lens);
    } else if align < unit {
      if Usable(lens, size, align) {
        var m := RequestCutOff(size, align, unit);
        CutOffIsUnusable(lens, size, align, unit, request, m);
        EmptyIsUnusable(lens, size, align, unit);
      }
    } else {
      assert unit != align;
      OverAlignedIsUnusable(lens, size, align, unit, request);
    }
  }

  lemma UnalignedRequest(size: nat, unit: nat)
    requires unit % U32 != 0
    ensures Request(size, 0, unit) == size % U16
  {
    assert CountTotalAlign32(size, 0, unit) == 0;
  }

  /** An aligned chain for an empty request is a single empty link. */
  lemma EmptyIsUnusable(lens: seq<nat>, size: nat, align: nat, unit: nat)
    requires unit > 0 && align > 0 && (unit - align) % U32 != 0 && PoolLens(lens, unit, Request(size, align, unit))
    ensures size == 0 ==> !Usable(lens, size, align)
  {
    if size == 0 {
      EmptyRequest(align, unit);
      EmptyPoolChain(lens, align, unit);
    }
  }

  /** Changing a sum by whole multiples of 2 to the power of 16 leaves it as it was in 16 bits. */
  lemma UnchangedIff(size: int, x: int, q: int)
    ensures (size + x - q * U16) % U16 == size % U16 <==> x % U16 == 0
  {
    var k := x / U16;
    assert x == k * U16 + x % U16;
    assert size + x - q * U16 == size + x % U16 + (k - q) * U16;
  }

  /** How many links `pbuf_alloc` gives a request. */
  function LinkCount(request: nat, unit: nat): nat
    requires unit > 0
  {
    if request == 0 then 1 else Ceil(request, unit)
  }

  lemma PoolLinks(lens: seq<nat>, unit: nat, request: nat)
    requires unit > 0 && PoolLens(lens, unit, request)
    ensures |lens| == LinkCount(request, unit)
  {
    if request == 0 {
      EmptyPoolChain(lens, 0, unit);
    } else {
      PoolLinkCount(lens, unit, request);
    }
  }

  /**
   For a request of any size and alignment: the total of the trimmed chain is the size, in 16 bits, exactly when
   the request gets as many links as the surplus was computed for, up to multiples of 2 to the power of 16 in
   the bytes trimmed.
   */
  lemma PoolTotalIff(lens: seq<nat>, size: nat, align: nat, unit: nat)
    requires 0 < unit <= U16 && (unit - align) % U32 != 0
    requires PoolLens(lens, unit, Request(size, align, unit))
    ensures var links := LinkCount(Request(size, align, unit), unit);
      Total(TrimAll(lens, align), 0) % U16 == size % U16
      <==> (Ceil(size, (unit - align) % U32) - links) * align % U16 == 0
  {
    PoolLinks(lens, unit, Request(size, align, unit));
    TrimAllTotalMod(lens, align, 0);
    var surplus := Ceil(size, (unit - align) % U32) * align;
    var q, p := surplus / U32, (size + surplus % U32) / U16;
    assert surplus == q * U32 + surplus % U32;
    assert Request(size, align, unit) == size + surplus - q * U32 - p * U16;
    assert surplus - |lens| * align == (Ceil(size, (unit - align) % U32) - |lens|) * align;
    UnchangedIff(size, surplus - |lens| * align, q * U16 + p);
  }

  /** No link is longer than it was: a length that wrapped around would be. */
  predicate NoneGrown(before: seq<nat>, after: seq<nat>) {
    |after| == |before| && forall i :: 0 <= i < |before| ==> after[i] <= before[i]
  }

  lemma TrimmedShrinksIff(len: nat, align: nat)
    requires len < U16 && align < U16
    ensures Trimmed(len, align) <= len <==> align <= len
  {
  }

  lemma NoneGrownIff(lens: seq<nat>, align: nat)
    requires align < U16 && forall i :: 0 <= i < |lens| ==> lens[i] < U16
    ensures NoneGrown(lens, TrimAll(lens, align)) <==> forall i :: 0 <= i < |lens| ==> align <= lens[i]
  {
    forall i | 0 <= i < |lens|
      ensures TrimAll(lens, align)[i] <= lens[i] <==> align <= lens[i]
    {
      TrimmedShrinksIff(lens[i], align);
    }
  }

  /** Trimming long enough links leaves a total that 16 bits can hold if the total before was one. */
  lemma TrimmedTotalFits(lens: seq<nat>, align: nat)
    requires Total(lens, 0) < U16 && forall i :: 0 <= i < |lens| ==> align <= lens[i] < U16
    ensures Total(TrimAll(lens, align), 0) < U16
  {
    TrimAllTotal(lens, align, 0);
    MulMonotonic(0, |lens|, align);
  }

  /** What a caller can see of a usable chain: its 16-bit total, and that no link has grown. */
  lemma UsableShows(lens: seq<nat>, size: nat, align: nat)
    requires align < U16 && Total(lens, 0) < U16 && forall i :: 0 <= i < |lens| ==> lens[i] < U16
    ensures Total(TrimAll(lens, align), 0) % U16 == size && NoneGrown(lens, TrimAll(lens, align))
      <==> size < U16 && Usable(lens, size, align)
  {
    NoneGrownIff(lens, align);
    if forall i :: 0 <= i < |lens| ==> align <= lens[i] {
      TrimmedTotalFits(lens, align);
    }
  }

  /** The pool serves a request exactly when the caller sees the right total and no link that has grown. */
  lemma ServedIff(lens: seq<nat>, size: nat, align: nat, unit: nat)
    requires 0 < unit <= U16 && (unit - align) % U32 != 0 && align < U16
    requires PoolLens(lens, unit, Request(size, align, unit))
    ensures Total(TrimAll(lens, align), 0) % U16 == size && NoneGrown(lens, TrimAll(lens, align))
      <==> Serves(size, align, unit)
  {
    PoolServesIff(lens, size, align, unit);
    PoolLensBound(lens, unit, Request(size, align, unit));
    UsableShows(lens, size, align);
  }

  /** A request that is cut off to a single short link: 154 bytes are left of the 65534 asked for. */
  lemma TruncatedPoolRequest()
    ensures Request(65534, 4, 1664) == 158 && PoolLens([158], 1664, 158)
    ensures TrimAll([158], 4) == [154]
  {
    assert Ceil(65534, 1660) == 40;
    assert (1664 - 4) % U32 == 1660;
    assert Total([158], 1) == 0;
    assert Trimmed(158, 4) == 154;
  }

  /** The same request to the heap: a link of two bytes claims to hold 65534. */
  lemma TruncatedHeapRequest()
    ensures (65534 + 4) % U16 == 2 && AlignedUp(1, 4) == 4 && Trimmed(2, 4) == 65534
  {
  }

  /**
   Allocation from the pool; `pbuf` is what `pbuf_alloc` returned for the enlarged request. When the request
   fits, every link is aligned, not empty and inside its own storage, and the chain holds exactly `size`
   bytes. For every request the lengths are the trimmed ones; `PoolServesIff` says when they are what was asked for.
   */
  method AllocFromStaticPool(size: nat, align: nat, unit: nat, pbuf: Pbuf?, ghost nodes: seq<Pbuf>)
      returns (buffer: Pbuf?)
    requires 0 < unit <= U16 && (unit - align) % U32 != 0
    requires IsChain(pbuf, nodes)
    requires pbuf != null ==> TotalsOk(nodes) && PoolLens(Lens(nodes), unit, Request(size, align, unit))
    modifies nodes`payload, nodes`len, nodes`totLen
    ensures buffer == pbuf && IsChain(buffer, nodes)
    ensures buffer != null ==> TotalsOk(nodes)
    ensures buffer != null && align > 0 ==> AllAligned(nodes, |nodes|, align)
    ensures buffer != null && align == 0 ==> forall i :: 0 <= i < |nodes| ==> unchanged(nodes[i])
    ensures buffer != null ==> buffer.totLen == Total(TrimAll(old(Lens(nodes)), align), 0) % U16
    ensures buffer != null && size == 0 ==> |nodes| == 1 && buffer.totLen == (U16 - align) % U16
    ensures buffer != null && Fits(size, align, unit) ==>
      && buffer.totLen == size
      && |nodes| == Ceil(size, unit - align)
      && AllInside(nodes, align)
    ensures buffer != null ==> (Usable(old(Lens(nodes)), size, align) <==> Serves(size, align, unit))
  {
    if pbuf == null {
      return null;
    }
    PoolServesIff(Lens(nodes), size, align, unit);
    PoolOutcome(Lens(nodes), size, align, unit);
    AlignPool(pbuf, align, nodes, size, Fits(size, align, unit));
    buffer := pbuf;
  }

  /** `align_memory` of a pool chain; `fits` says that every link has room and that they hold `size` once trimmed. */
  method AlignPool(head: Pbuf, align: nat, ghost nodes: seq<Pbuf>, ghost size: nat, ghost fits: bool)
    requires IsChain(head, nodes) && TotalsOk(nodes)
    requires forall i :: 0 <= i < |nodes| ==> nodes[i].len < U16
    requires fits ==> Total(TrimAll(Lens(nodes), align), 0) == size < U16
    requires fits ==> forall i :: 0 <= i < |nodes| ==> align < nodes[i].len
    modifies nodes`payload, nodes`len, nodes`totLen
    ensures TotalsOk(nodes)
    ensures align > 0 ==> AllAligned(nodes, |nodes|, align)
    ensures align == 0 ==> forall i :: 0 <= i < |nodes| ==> unchanged(nodes[i])
    ensures head.totLen == Total(TrimAll(old(Lens(nodes)), align), 0) % U16
    ensures fits ==> head.totLen == size && AllInside(nodes, align)
  {
    AlignChain(head, align, nodes, fits);
  }

  /**
   `align_memory` with its totals spelled out, also when there is nothing to align; `roomy` says that every link
   is longer than what is trimmed.
   */
  method AlignChain(head: Pbuf, align: nat, ghost nodes: seq<Pbuf>, ghost roomy: bool)
    requires IsChain(head, nodes) && TotalsOk(nodes)
    requires forall i :: 0 <= i < |nodes| ==> nodes[i].len < U16
    requires roomy ==> forall i :: 0 <= i < |nodes| ==> align < nodes[i].len
    modifies nodes`payload, nodes`len, nodes`totLen
    ensures TotalsOk(nodes)
    ensures align > 0 ==> AllAligned(nodes, |nodes|, align)
    ensures align == 0 ==> forall i :: 0 <= i < |nodes| ==> unchanged(nodes[i])
    ensures head.totLen == Total(TrimAll(old(Lens(nodes)), align), 0) % U16
    ensures roomy ==> AllInside(nodes, align)
  {
    if align == 0 {
      TrimNothing(Lens(nodes));
    }
    AlignMemory(head, align, nodes);
    assert TotalIs(nodes[0], Lens(nodes), 0);
  }

  /**
   A single link of the request's length, in 16 bits, keeps inside its storage exactly when the request fits:
   otherwise what is left after trimming is longer than what was allocated.
   */
  lemma HeapFitsIff(size: nat, align: nat, payload: nat)
    requires size < U16 && 0 < align < U16
    ensures var len := (size + align) % U16;
      && Trimmed(len, align) == size
      && (AlignedUp(payload, align) + Trimmed(len, align) <= payload + len <==> size + align < U16)
  {
    AlignedUpIsNextMultiple(payload, align);
  }

  /**
   Allocation from the heap: one link of `size + align` bytes, a length that `pbuf_alloc` takes in 16 bits.
   The link is aligned and holds `size` bytes; they are all inside its storage exactly when the sum fits.
   */
  method AllocFromHeap(size: nat, align: nat, pbuf: Pbuf?) returns (buffer: Pbuf?)
    requires pbuf != null ==> pbuf.next == null && pbuf.len == pbuf.totLen == (size + align) % U16
    modifies if pbuf == null then {} else {pbuf}
    ensures buffer == pbuf
    ensures buffer != null ==> buffer.len == buffer.totLen == size % U16
    ensures buffer != null && align > 0 ==> buffer.payload % align == 0
    ensures buffer != null ==> old(pbuf.payload) <= buffer.payload
    ensures buffer != null && size < U16 && align < U16 ==>
      (buffer.payload + buffer.len <= old(pbuf.payload) + old(pbuf.len) <==> size + align < U16)
  {
    if pbuf == null {
      return null;
    }
    ghost var nodes := [pbuf];
    assert nodes[0] == pbuf && LeadsOn(nodes, 0);
    AlignMemory(pbuf, align, nodes);
    buffer := pbuf;
    if align > 0 {
      assert LinkAligned(nodes[0], align);
      AlignedUpIsNextMultiple(old(pbuf.payload), align);
      SubtractAgain(size, align);
      OneLink(nodes);
      if size < U16 && align < U16 {
        HeapFitsIff(size, align, old(pbuf.payload));
      }
    } else {
      assert unchanged(nodes[0]);
    }
  }

  lemma SubtractAgain(size: nat, align: nat)
    ensures Trimmed((size + align) % U16, align) == size % U16
  {
    var p := (size + align) / U16;
    assert size + align == p * U16 + (size + align) % U16;
    assert (size + align) % U16 - align == size - p * U16;
  }

  /** The total of a chain of one link is its length. */
  lemma OneLink(nodes: seq<Pbuf>)
    requires |nodes| == 1 && TotalsOk(nodes) && nodes[0].len < U16
    ensures nodes[0].totLen == nodes[0].len
  {
    assert TotalIs(nodes[0], Lens(nodes), 0);
    OneTotal(Lens(nodes));
  }

  method SetPayloadLen(buf: Pbuf, size: nat, ghost nodes: seq<Pbuf>)
    requires IsChain(buf, nodes)
    modifies buf`len, nodes`totLen
    ensures buf.len == size % U16 && TotalsOk(nodes)
    ensures Lens(nodes) == [size % U16] + old(Lens(nodes))[1..]
  {
    ghost var lens := Lens(nodes);
    AllApart(buf, nodes, 0);
    buf.len := size % U16;
    assert Lens(nodes) == [size % U16] + lens[1..];
    SetTotalLen(buf, nodes);
    assert Lens(nodes) == [size % U16] + lens[1..];
  }

  /**
   After `set_payload_len(size)`, `get_payload_len` answers `size` exactly when the links after the first
   add up to nothing in 16 bits, as they do when there are none.
   */
  lemma PayloadLenRoundTripIff(nodes: seq<Pbuf>, size: nat)
    requires nodes != [] && size < U16 && TotalsOk(nodes) && nodes[0].len == size
    ensures nodes[0].totLen == size <==> Total(Lens(nodes), 1) % U16 == 0
  {
    assert TotalIs(nodes[0], Lens(nodes), 0);
    SameAfterAdding(size, Total(Lens(nodes), 1));
  }

  lemma TwoLinks(nodes: seq<Pbuf>)
    requires |nodes| == 2 && TotalsOk(nodes)
    ensures nodes[0].totLen == (nodes[0].len + nodes[1].len) % U16
  {
    var lens := Lens(nodes);
    assert TotalIs(nodes[0], Lens(nodes), 0);
    assert Total(lens, 2) == 0 && Total(lens, 1) == lens[1];
  }

  method TwoLinkChain() returns (first: Pbuf, second: Pbuf)
    ensures fresh(first) && fresh(second) && IsChain(first, [first, second]) && second.len == 2
  {
    second := new Pbuf(100, 2);
    first := new Pbuf(0, 5);
    first.next := second;
    ghost var nodes := [first, second];
    assert nodes[0] == first && nodes[1] == second;
    assert LeadsOn(nodes, 0) && LeadsOn(nodes, 1);
  }

  /** On a chain of two links, the answer counts the second one too. */
  method LongerChainAnswersMore() returns (first: Pbuf)
    ensures first.len == 1 && first.totLen == 3
  {
    var second;
    first, second := TwoLinkChain();
    ghost var nodes := [first, second];
    SetPayloadLen(first, 1, nodes);
    TwoLinks(nodes);
  }
}
