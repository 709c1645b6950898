/** One message queue: a circular buffer of fixed slots, reused in place without being cleared. */
module RingBuffer {
  import opened Common

  /** A slot holds `IPC_MSG_ELEMENT_SIZE` bytes of which the first `size` are the message. */
  datatype IpcMsg = IpcMsg(size: UInt32, data: seq<Byte>) {
    ghost predicate Holds(m: Msg) {
      size == |m| && |data| == IPC_MSG_ELEMENT_SIZE && size <= |data| && data[..size] == m
    }
  }

  /** `memcpy` of the first `n` bytes of `src` over `dst`; what lies beyond them is left as it was. */
  function Overwrite(dst: seq<Byte>, src: seq<Byte>, n: nat): (r: seq<Byte>)
    requires n <= |src| && n <= |dst|
  {
    src[..n] + dst[n..]
  }

  /**
   * The ring after `|posted|` enqueues and `taken` dequeues: both indices are the counts modulo the
   * number of slots, and each message still queued sits in the slot its own number selects.
   */
  ghost predicate RingRep(element: seq<IpcMsg>, indx: nat, outdx: nat, count: nat, posted: seq<Msg>, taken: nat)
  {
    && 0 < |element| < TWO_32
    && taken <= |posted|
    && count == |posted| - taken <= |element|
    && indx == (|posted| - 1) % |element|
    && outdx == taken % |element|
    && (forall e :: e in element ==> |e.data| == IPC_MSG_ELEMENT_SIZE)
    && forall k {:trigger posted[k]} :: taken <= k < |posted| ==> element[k % |element|].Holds(posted[k])
  }

  lemma ModSuccessor(x: int, n: nat)
    requires n > 0
    ensures (x + 1) % n == (x % n + 1) % n
  {
    var q, r := x / n, x % n;
    assert x == n * q + r;
    NextMultiple(n, q);
    if r + 1 < n {
      ModUnique(x + 1, n, q, r + 1);
      ModUnique(r + 1, n, 0, r + 1);
    } else {
      ModUnique(x + 1, n, q + 1, 0);
      ModUnique(r + 1, n, 1, 0);
    }
  }

  lemma NextMultiple(n: nat, q: int)
    ensures n * (q + 1) == n * q + n
  {
  }

  lemma {:induction false} MultipleAtLeast(n: nat, k: nat)
    requires k > 0
    ensures n * k >= n
  {
    if k > 1 {
      MultipleAtLeast(n, k - 1);
      assert n * k == n * (k - 1) + n;
    }
  }

  /** Multiples of `n` that are less than `n` apart are equal. */
  lemma QuotientUnique(n: nat, q: int, r: int, q': int, r': int)
    requires n * q + r == n * q' + r'
    requires 0 <= r < n && 0 <= r' < n
    ensures q == q' && r == r'
  {
    if q < q' {
      assert n * (q' - q) == n * q' - n * q;
      MultipleAtLeast(n, q' - q);
    } else if q' < q {
      assert n * (q - q') == n * q - n * q';
      MultipleAtLeast(n, q - q');
    }
  }

  lemma ModUnique(x: int, n: nat, q: int, r: int)
    requires 0 <= r < n && x == n * q + r
    ensures x % n == r && x / n == q
  {
    assert x == n * (x / n) + x % n;
    QuotientUnique(n, q, r, x / n, x % n);
  }

  /** Numbers closer than `n` share a remainder only when they are equal. */
  lemma ModWindow(x: int, y: int, n: nat)
    requires x <= y < x + n && x % n == y % n
    ensures x == y
  {
    assert x == n * (x / n) + x % n;
    assert y == n * (y / n) + y % n;
    QuotientUnique(n, x / n, y - x, y / n, 0);
  }

  /** The slot an enqueue overwrites is none of those still holding a queued message. */
  lemma PutKeeps(element: seq<IpcMsg>, indx: nat, outdx: nat, count: nat, posted: seq<Msg>, taken: nat, m: Msg)
    requires RingRep(element, indx, outdx, count, posted, taken)
    requires count < |element| && |m| <= IPC_MSG_ELEMENT_SIZE
    ensures var i := (indx + 1) % |element|;
            var slot := IpcMsg(|m|, Overwrite(element[i].data, m, |m|));
            RingRep(element[i := slot], i, outdx, count + 1, posted + [m], taken)
  {
    var n := |element|;
    ModSuccessor(|posted| - 1, n);
    var i := (indx + 1) % n;
    assert i == |posted| % n;
    var slot := IpcMsg(|m|, Overwrite(element[i].data, m, |m|));
    assert slot.Holds(m);
    forall k | taken <= k < |posted| + 1
      ensures element[i := slot][k % n].Holds((posted + [m])[k])
    {
      if k < |posted| && k % n == i {
        ModWindow(k, |posted|, n);
      }
    }
  }

  /** A dequeue reads the oldest queued message, whole and unmixed with stale bytes. */
  lemma TakeKeeps(element: seq<IpcMsg>, indx: nat, outdx: nat, count: nat, posted: seq<Msg>, taken: nat)
    requires RingRep(element, indx, outdx, count, posted, taken)
    requires count > 0
    ensures element[outdx].Holds(posted[taken])
    ensures RingRep(element, indx, (outdx + 1) % |element|, count - 1, posted, taken + 1)
  {
    ModSuccessor(taken, |element|);
  }

  /**
   * What the index comparisons of the driver mean. The coded emptiness test `indx == outdx` holds
   * exactly for a queue of one message, so it cannot stand in for `count == 0`; one position further
   * on, equality means empty or full.
   */
  lemma IndexTest(element: seq<IpcMsg>, indx: nat, outdx: nat, count: nat, posted: seq<Msg>, taken: nat)
    requires RingRep(element, indx, outdx, count, posted, taken)
    requires |element| >= 2
    ensures indx == outdx <==> count == 1
    ensures (indx + 1) % |element| == outdx <==> count == 0 || count == |element|
  {
    var n, last := |element|, |posted| - 1;
    ModSuccessor(last, n);
    if indx == outdx {
      if count == 0 {
        ModWindow(last, taken, n);
        assert false;
      } else {
        ModWindow(taken, last, n);
      }
    }
    if count == n {
      ModUnique(last + 1, n, taken / n + 1, taken % n);
    }
    if (indx + 1) % n == outdx && count < n {
      ModWindow(taken, last + 1, n);
    }
  }

  /** The fields a queue is given when it is handed out. */
  lemma FreshRing(element: seq<IpcMsg>)
    requires 0 < |element| < TWO_32
    requires forall e :: e in element ==> |e.data| == IPC_MSG_ELEMENT_SIZE
    ensures RingRep(element, |element| - 1, 0, 0, [], 0)
  {
    ModUnique(-1, |element|, -1, |element| - 1);
  }

  // ---------- Unbounded runs ----------

  /** The fields of a queue that its operations read and write. */
  datatype Ring = Ring(element: seq<IpcMsg>, indx: nat, outdx: nat, count: nat)

  /** The fields represent the messages `posted` of which the first `taken` are gone. */
  ghost predicate Holding(r: Ring, posted: seq<Msg>, taken: nat) {
    RingRep(r.element, r.indx, r.outdx, r.count, posted, taken)
  }

  datatype RingOp = Put(m: Msg) | Take

  /** One enqueue or dequeue: the new fields, and the message taken, if any. */
  function RingStep(r: Ring, op: RingOp): (Ring, seq<Msg>)
    requires r.element != [] && r.outdx < |r.element|
  {
    match op
    case Put(m) =>
      var i := (r.indx + 1) % |r.element|;
      if r.count >= |r.element| || |m| > |r.element[i].data| then (r, [])
      else (Ring(r.element[i := IpcMsg(ToUInt32(|m|), Overwrite(r.element[i].data, m, |m|))], i, r.outdx, r.count + 1), [])
    case Take =>
      var slot := r.element[r.outdx];
      if r.count == 0 || slot.size > |slot.data| then (r, [])
      else (Ring(r.element, r.indx, (r.outdx + 1) % |r.element|, r.count - 1), [slot.data[..slot.size]])
  }

  /** A dequeue guarded by the coded emptiness test; the 32-bit count wraps. */
  function CodedTake(r: Ring): (Ring, seq<Msg>)
    requires r.element != [] && r.outdx < |r.element|
  {
    var slot := r.element[r.outdx];
    if r.indx == r.outdx then (r, [])
    else
      var size := if slot.size <= |slot.data| then slot.size else |slot.data|;
      (Ring(r.element, r.indx, (r.outdx + 1) % |r.element|, ToUInt32(r.count - 1)), [slot.data[..size]])
  }

  /**
   * The coded test makes a dequeue go right exactly when at least two messages wait: it refuses the
   * last message, and from an empty queue it takes a stale one and wraps the count.
   */
  lemma CodedTakeIsRight(r: Ring, posted: seq<Msg>, taken: nat)
    requires Holding(r, posted, taken) && |r.element| >= 2
    ensures CodedTake(r) == RingStep(r, Take) <==> r.count >= 2
    ensures r.count == 0 ==> CodedTake(r).0.count >= |r.element|
  {
    IndexTest(r.element, r.indx, r.outdx, r.count, posted, taken);
    if r.count == 0 {
      assert CodedTake(r).0.count == TWO_32 - 1;
    } else {
      TakeKeeps(r.element, r.indx, r.outdx, r.count, posted, taken);
      CountDown(r.count);
      assert RingStep(r, Take).1 != [];
      assert r.count == 1 ==> CodedTake(r).1 == [];
    }
  }

  lemma CountDown(count: UInt32)
    requires count > 0
    ensures ToUInt32(count - 1) == count - 1
  {
  }

  /** What an operation adds to the queue: its message, if there is room for it. */
  function Added(r: Ring, op: RingOp): seq<Msg> {
    if op.Put? && r.count < |r.element| then [op.m] else []
  }

  /** The messages of a run that found room. */
  function Accepted(r: Ring, ops: seq<RingOp>): seq<Msg>
    requires r.element != [] && r.outdx < |r.element|
    decreases |ops|
  {
    if ops == [] then [] else Added(r, ops[0]) + Accepted(RingStep(r, ops[0]).0, ops[1..])
  }

  /** The messages a run takes out, and the fields it ends with. */
  function RingRun(r: Ring, ops: seq<RingOp>): (Ring, seq<Msg>)
    requires r.element != [] && r.outdx < |r.element|
    decreases |ops|
  {
    if ops == [] then (r, [])
    else
      var (z, rest) := RingRun(RingStep(r, ops[0]).0, ops[1..]);
      (z, RingStep(r, ops[0]).1 + rest)
  }

  lemma PutHolds(r: Ring, m: Msg, posted: seq<Msg>, taken: nat)
    requires Holding(r, posted, taken) && |m| <= IPC_MSG_ELEMENT_SIZE
    ensures var r' := RingStep(r, Put(m)).0;
            if r.count < |r.element| then Holding(r', posted + [m], taken) && r'.count == r.count + 1 else r' == r
    ensures RingStep(r, Put(m)).1 == []
  {
    var i := (r.indx + 1) % |r.element|;
    assert r.element[i] in r.element;
    if r.count < |r.element| {
      var slot := IpcMsg(|m|, Overwrite(r.element[i].data, m, |m|));
      assert RingStep(r, Put(m)).0 == Ring(r.element[i := slot], i, r.outdx, r.count + 1);
      PutKeeps(r.element, r.indx, r.outdx, r.count, posted, taken, m);
    }
  }

  lemma TakeHolds(r: Ring, posted: seq<Msg>, taken: nat)
    requires Holding(r, posted, taken)
    ensures var (r', out) := RingStep(r, Take);
            if r.count > 0
            then Holding(r', posted, taken + 1) && out == [posted[taken]] && r' == r.(outdx := r'.outdx, count := r.count - 1)
            else r' == r && out == []
  {
    if r.count > 0 {
      TakeKeeps(r.element, r.indx, r.outdx, r.count, posted, taken);
    }
  }

  lemma StepHolds(r: Ring, op: RingOp, posted: seq<Msg>, taken: nat)
    requires Holding(r, posted, taken) && (op.Put? ==> |op.m| <= IPC_MSG_ELEMENT_SIZE)
    ensures var (r', out) := RingStep(r, op);
            var all := posted + Added(r, op);
            && taken + |out| <= |all| && out == all[taken..taken + |out|]
            && Holding(r', all, taken + |out|)
  {
    assert posted + [] == posted;
    match op
    case Put(m) => PutHolds(r, m, posted, taken);
    case Take => TakeHolds(r, posted, taken);
  }

  /**
   * Over a run of any length, with any wraparound: with E messages accepted and D taken in all, the
   * count is E - D, the indices are (E - 1) and D modulo the slots, and the messages taken are those
   * accepted, byte for byte and in order.
   */
  lemma {:induction false} RingIsFifo(r: Ring, ops: seq<RingOp>, posted: seq<Msg>, taken: nat)
    requires Holding(r, posted, taken)
    requires forall op :: op in ops && op.Put? ==> |op.m| <= IPC_MSG_ELEMENT_SIZE
    ensures FifoOutcome(posted + Accepted(r, ops), taken, RingRun(r, ops).1, RingRun(r, ops).0)
    decreases |ops|
  {
    if ops == [] {
      assert posted + [] == posted;
    } else {
      var r' := RingStep(r, ops[0]).0;
      var out := RingStep(r, ops[0]).1;
      var added, rest := Added(r, ops[0]), ops[1..];
      assert ops[0] in ops;
      StepHolds(r, ops[0], posted, taken);
      RingIsFifo(r', rest, posted + added, taken + |out|);
      Joined(posted, added, Accepted(r', rest), taken, out, RingRun(r', rest).1, RingRun(r', rest).0);
      assert Accepted(r, ops) == added + Accepted(r', rest);
      assert RingRun(r, ops) == (RingRun(r', rest).0, out + RingRun(r', rest).1);
    }
  }

  /** `out` is the stretch of `all` after the first `taken`, and `z` holds the rest. */
  ghost predicate FifoOutcome(all: seq<Msg>, taken: nat, out: seq<Msg>, z: Ring) {
    && taken + |out| <= |all| && out == all[taken..taken + |out|]
    && Holding(z, all, taken + |out|)
  }

  /** Two consecutive stretches of the accepted messages make one. */
  lemma Joined(posted: seq<Msg>, added: seq<Msg>, more: seq<Msg>, taken: nat, out: seq<Msg>, later: seq<Msg>, z: Ring)
    requires taken + |out| <= |posted + added| && out == (posted + added)[taken..taken + |out|]
    requires FifoOutcome(posted + added + more, taken + |out|, later, z)
    ensures FifoOutcome(posted + (added + more), taken, out + later, z)
  {
    var all := posted + added + more;
    assert posted + (added + more) == all;
    assert all[taken..taken + |out|] == (posted + added)[taken..taken + |out|];
    assert all[taken..taken + |out + later|] == all[taken..taken + |out|] + all[taken + |out|..taken + |out| + |later|];
  }
}
