/** Delivery over all runs of the transfer. */
module Delivery {
  import opened Common
  import opened Registry
  import opened Mailbox
  import opened SendBuffer
  import opened Transfer
  import opened Conservation
  import opened TransferInvariant
  import opened Progress

  // ---------- Safety ----------

  /**
   * In every reachable state, for every pair of cores: what was commanded is what the sender put into
   * the receiver's queues, in order and byte for byte, then at most one command not yet acknowledged.
   * And for every core and key: what was put in is what left the queues of that key, in order, then
   * what still waits in the live one.
   */
  lemma EveryRunConserves(g: Layout, s: State, run: seq<Action>, l: Link, key: UInt32)
    requires GoodLayout(g) && Init(s) && ValidRun(g, s, run)
    ensures var z := After(g, s, run);
            && z.commanded(l) == FromSrc(z.posted(l.dst), l.src) + InFlight(z, l)
            && |InFlight(z, l)| == (if l in z.unacked then 1 else 0)
            && UnderKey(z.posted(l.dst), key) == GoneUnder(z.departed(l.dst), key) + Queued(z.tables(l.dst), key)
  {
    InitHolds(g, s);
    RunKeeps(g, s, run);
    var z := After(g, s, run);
    assert LinkLog(z, l) && KeyLog(z, l.dst, key);
    assert l in z.unacked ==> FlightOk(g, z, l);
  }

  /** The payloads commanded under one key. */
  function CommandedUnder(log: seq<Entry>, key: UInt32): seq<Msg>
    decreases |log|
  {
    if log == [] then []
    else
      var n := |log| - 1;
      CommandedUnder(log[..n], key) + (if log[n].key == key then [log[n].data] else [])
  }

  lemma {:induction false} CommandedAppend(log: seq<Entry>, more: seq<Entry>, key: UInt32)
    ensures CommandedUnder(log + more, key) == CommandedUnder(log, key) + CommandedUnder(more, key)
    decreases |more|
  {
    if more == [] {
      assert log + more == log;
    } else {
      var n := |more| - 1;
      assert (log + more)[..|log| + n] == log + more[..n];
      CommandedAppend(log, more[..n], key);
    }
  }

  /** Nobody but `src` has put anything under `key`. */
  ghost predicate OnlyFrom(log: seq<Arrival>, src: Core, key: UInt32) {
    forall x :: x in log && x.entry.key == key ==> x.src == src
  }

  lemma {:induction false} OnlySender(log: seq<Arrival>, src: Core, key: UInt32)
    requires OnlyFrom(log, src, key)
    ensures UnderKey(log, key) == CommandedUnder(FromSrc(log, src), key)
    decreases |log|
  {
    if log != [] {
      var n := |log| - 1;
      OnlySender(log[..n], src, key);
      assert log[n] in log;
      var last := if log[n].src == src then [log[n].entry] else [];
      assert CommandedUnder(last, key) == if log[n].entry.key == key then [log[n].entry.data] else [] by {
        assert [log[n].entry][..0] == [];
      }
      CommandedAppend(FromSrc(log[..n], src), last, key);
    }
  }

  lemma {:induction false} SentByOthers(log: seq<Arrival>, src: Core, key: UInt32)
    requires CommandedUnder(FromSrc(log, src), key) == []
    ensures forall x :: x in log && x.src == src ==> x.entry.key != key
    decreases |log|
  {
    if log != [] {
      var n := |log| - 1;
      var last := if log[n].src == src then [log[n].entry] else [];
      CommandedAppend(FromSrc(log[..n], src), last, key);
      SentByOthers(log[..n], src, key);
      assert log[n].src == src && log[n].entry.key == key ==> CommandedUnder(last, key) != [];
      forall x | x in log && x.src == src ensures x.entry.key != key {
        if x != log[n] { assert x in log[..n]; }
      }
    }
  }

  // ---------- Delivered or lost ----------

  /** The step releases a queue of `key` on core `c` in which messages wait. */
  ghost predicate DropsWaiting(s: State, a: Action, c: Core, key: UInt32) {
    && a.Local? && a.core == c && a.op.RelOp? && Releasable(s.tables(c), a.op.id)
    && var q := s.tables(c).queues[a.op.id];
    && q.key == key && q.msgs != []
  }

  /** The step is a receive under `key` on core `c` with a buffer shorter than the message it finds. */
  ghost predicate FindsTooLong(s: State, a: Action, c: Core, key: UInt32)
    requires Enabled(s, a)
  {
    && a.Receive? && a.core == c
    && var q := s.tables(c).queues[a.id];
    && q.key == key && |q.msgs[0]| > a.msgSize
  }

  /** No step of the run releases a queue of `key` on core `c` with messages waiting in it. */
  ghost predicate NoneDropped(g: Layout, s: State, run: seq<Action>, c: Core, key: UInt32)
    requires ValidRun(g, s, run)
    decreases |run|
  {
    run != [] ==> !DropsWaiting(s, run[0], c, key) && NoneDropped(g, Do(g, s, run[0]), run[1..], c, key)
  }

  /** Every receive of the run under `key` on core `c` finds a message that fits its buffer. */
  ghost predicate EveryHeadFits(g: Layout, s: State, run: seq<Action>, c: Core, key: UInt32)
    requires ValidRun(g, s, run)
    decreases |run|
  {
    run != [] ==> !FindsTooLong(s, run[0], c, key) && EveryHeadFits(g, Do(g, s, run[0]), run[1..], c, key)
  }

  /** Whatever left the queues of the key was handed to a receiver. */
  ghost predicate AllDelivered(log: seq<Departure>, key: UInt32) {
    forall d :: d in log && d.entry.key == key ==> d.delivered
  }

  lemma StepDelivers(g: Layout, s: State, a: Action, c: Core, key: UInt32)
    requires Enabled(s, a)
    ensures AllDelivered(Do(g, s, a).departed(c), key)
       <==> AllDelivered(s.departed(c), key) && !FindsTooLong(s, a, c, key) && !DropsWaiting(s, a, c, key)
  {
    var before, after := s.departed(c), Do(g, s, a).departed(c);
    if a.Receive? && a.core == c {
      var q := s.tables(c).queues[a.id];
      var d := Departure(Entry(q.key, q.msgs[0]), |q.msgs[0]| <= a.msgSize);
      assert after == before + [d] && d in after;
    } else if a.Local? && a.core == c {
      if a.op.RelOp? { RelSucceeds(s.tables(c), a.op.id); }
      var gone := DroppedByCall(s.tables(c), a.op);
      assert after == before + gone;
      if DropsWaiting(s, a, c, key) {
        assert gone[0] in after && gone[0].entry.key == key;
      } else {
        assert forall d :: d in gone ==> d.entry.key != key;
      }
    }
  }

  /** Over any run a message is lost exactly when some receive finds it too long, or its queue is released before it is taken. */
  lemma {:induction false} DeliveredIffFits(g: Layout, s: State, run: seq<Action>, c: Core, key: UInt32)
    requires ValidRun(g, s, run)
    ensures AllDelivered(After(g, s, run).departed(c), key)
       <==> AllDelivered(s.departed(c), key) && EveryHeadFits(g, s, run, c, key) && NoneDropped(g, s, run, c, key)
    decreases |run|
  {
    if run != [] {
      StepDelivers(g, s, run[0], c, key);
      DeliveredIffFits(g, Do(g, s, run[0]), run[1..], c, key);
    }
  }

  /**
   * End-to-end FIFO. When one core is the only one to send under a key, then in every reachable state
   * the payloads it commanded are those that left the receiver's queue, then those waiting in it, then
   * the one in flight if it is for this key. All that left it has been handed over exactly when no receive
   * found a message longer than its buffer and no release found messages waiting.
   */
  lemma EndToEnd(g: Layout, s: State, run: seq<Action>, l: Link, key: UInt32)
    requires GoodLayout(g) && Init(s) && ValidRun(g, s, run)
    requires forall m: Link :: m.dst == l.dst && m.src != l.src ==>
               CommandedUnder(After(g, s, run).commanded(m), key) == []
    ensures var z := After(g, s, run);
            && CommandedUnder(z.commanded(l), key)
               == GoneUnder(z.departed(l.dst), key) + Queued(z.tables(l.dst), key) + CommandedUnder(InFlight(z, l), key)
            && (AllDelivered(z.departed(l.dst), key) <==>
                  EveryHeadFits(g, s, run, l.dst, key) && NoneDropped(g, s, run, l.dst, key))
  {
    var z := After(g, s, run);
    EveryRunConserves(g, s, run, l, key);
    var log := z.posted(l.dst);
    forall x | x in log && x.entry.key == key ensures x.src == l.src {
      if x.src != l.src {
        var m := Link(x.src, l.dst);
        EveryRunConserves(g, s, run, m, key);
        CommandedAppend(FromSrc(log, x.src), InFlight(z, m), key);
        SentByOthers(log, x.src, key);
        assert false;
      }
    }
    OnlySender(log, l.src, key);
    CommandedAppend(FromSrc(log, l.src), InFlight(z, l), key);
    DeliveredIffFits(g, s, run, l.dst, key);
  }

  /** No receive of the run on core `c` comes with a buffer below the largest message. */
  predicate RoomyBuffers(run: seq<Action>, c: Core) {
    forall a :: a in run && a.Receive? && a.core == c ==> a.msgSize >= IPC_MSG_ELEMENT_SIZE
  }

  /** Whoever receives with buffers of the largest message size loses nothing. */
  lemma {:induction false} RoomyBuffersDeliver(g: Layout, s: State, run: seq<Action>, c: Core, key: UInt32)
    requires GoodLayout(g) && Inv(g, s) && ValidRun(g, s, run) && RoomyBuffers(run, c)
    ensures EveryHeadFits(g, s, run, c, key)
    decreases |run|
  {
    if run != [] {
      assert run[0] in run && forall a :: a in run[1..] ==> a in run;
      assert SmallKeys(s.tables(c));
      if run[0].Receive? && run[0].core == c {
        assert ValidId(s.tables(c), run[0].id);
      }
      StepKeeps(g, s, run[0]);
      RoomyBuffersDeliver(g, Do(g, s, run[0]), run[1..], c, key);
    }
  }

  /**
   * A smaller buffer can lose any longer message: sent, posted and acknowledged, it is taken off the
   * queue by a receive that hands nothing over.
   */
  lemma ShortBufferLoses(g: Layout, s: State, t: int, l: Link, id: nat, data: Msg, serial: UInt16, msgSize: nat)
    requires GoodLayout(g) && Inv(g, s) && l.src != l.dst
    requires Enabled(s, Begin(t, l.src, id, l.dst, data)) && s.sem(l) == 1 && l !in s.unacked
    requires s.handlers(l.dst).Quiet? && HasRoom(s.tables(l.dst), s.tables(l.src).queues[id].key)
    requires Queued(s.tables(l.dst), s.tables(l.src).queues[id].key) == [] && msgSize < |data|
    ensures var key := s.tables(l.src).queues[id].key;
            var there := FirstLive(s.tables(l.dst).queues, key);
            var run := MessageRun(t, l, id, data, serial) + [Receive(l.dst, there, msgSize)];
            && ValidRun(g, s, run)
            && var z := After(g, s, run);
            && z.departed(l.dst) == s.departed(l.dst) + [Departure(Entry(key, data), false)]
            && Queued(z.tables(l.dst), key) == [] && l !in z.unacked
            && z.commanded(l) == s.commanded(l) + [Entry(key, data)]
  {
    var key := s.tables(l.src).queues[id].key;
    var send := MessageRun(t, l, id, data, serial);
    var there := FirstLive(s.tables(l.dst).queues, key);
    MessageArrives(g, s, t, l, id, data, serial);
    var z := After(g, s, send);
    assert SmallKeys(s.tables(l.dst)) && SmallKeys(z.tables(l.dst));
    HeadAfterPost(s.tables(l.dst), key, data, msgSize);
    RunThen(g, s, send, Receive(l.dst, there, msgSize));
  }

  /** What a receive finds after a post to an empty queue. */
  lemma HeadAfterPost(r: Tables, key: UInt32, data: Msg, msgSize: nat)
    requires WellFormed(r) && Queued(r, key) == [] && Post(r, IdOf(r, key), data).1 == 0
    ensures var there := FirstLive(r.queues, key);
            var r' := Post(r, IdOf(r, key), data).0;
            && there < |r'.queues| && r'.queues[there].live && r'.queues[there].msgs == [data]
            && TakenBy(r', there, msgSize) == [Departure(Entry(key, data), |data| <= msgSize)]
            && Queued(Dequeue(r', there).0, key) == []
  {
    var there := FirstLive(r.queues, key);
    var r' := Post(r, IdOf(r, key), data).0;
    PostLands(r, key, data);
    QueuedAt(r', there);
    ReceiveConserves(r', there, msgSize, key);
    OneGone(TakenBy(r', there, msgSize)[0], key);
  }

  lemma PostLands(r: Tables, key: UInt32, data: Msg)
    requires WellFormed(r) && Queued(r, key) == [] && Post(r, IdOf(r, key), data).1 == 0
    ensures var there := FirstLive(r.queues, key);
            var r' := Post(r, IdOf(r, key), data).0;
            && WellFormed(r') && ValidId(r', there) && r'.queues[there].key == key && r'.queues[there].msgs == [data]
  {
    assert ToUInt32(key) == key;
    PostRefines(r, IdOf(r, key), data);
    assert ValidId(r, FirstLive(r.queues, key));
  }

  /**
   * Two halves suffice. In every reachable state a pair has at most one sender at work; the half it
   * fills is never the one named by an unacknowledged command, and the next one handed out differs
   * from the last one used.
   */
  lemma TwoHalvesSuffice(g: Layout, s: State, run: seq<Action>, t: int)
    requires GoodLayout(g) && Init(s) && ValidRun(g, s, run)
    requires After(g, s, run).tasks(t).Copying?
    ensures var z := After(g, s, run);
            var task := z.tasks(t);
            var l := Link(task.core, task.dst);
            && task.half == 1 - z.lastHalf(l) && z.next(l) == z.lastHalf(l)
            && (l in z.unacked ==>
                  && l.src != l.dst
                  && TakeCmd(z.words, l).addr == DataAddr(g, l, z.lastHalf(l)) != DataAddr(g, l, task.half))
            && forall u: int :: u != t ==> HeldBy(z.tasks(u)) != Some(l)
  {
    InitHolds(g, s);
    RunKeeps(g, s, run);
    FillingIsSafe(g, After(g, s, run), t);
  }

  lemma FillingIsSafe(g: Layout, z: State, t: int)
    requires GoodLayout(g) && TasksOk(z) && FlightsOk(g, z) && z.tasks(t).Copying?
    ensures var task := z.tasks(t);
            var l := Link(task.core, task.dst);
            && task.half == 1 - z.lastHalf(l) && z.next(l) == z.lastHalf(l)
            && (l in z.unacked ==>
                  && l.src != l.dst
                  && TakeCmd(z.words, l).addr == DataAddr(g, l, z.lastHalf(l)) != DataAddr(g, l, task.half))
            && forall u: int :: u != t ==> HeldBy(z.tasks(u)) != Some(l)
  {
    assert TaskOk(z, t);
    OwnersExclude(z);
    HalfInFlight(g, z, Link(z.tasks(t).core, z.tasks(t).dst));
  }

  /** The command in flight names the half used last, and the address tells the two halves apart. */
  lemma HalfInFlight(g: Layout, s: State, l: Link)
    requires GoodLayout(g) && FlightsOk(g, s)
    ensures DataAddr(g, l, 0) != DataAddr(g, l, 1)
    ensures l in s.unacked ==> l.src != l.dst && TakeCmd(s.words, l).addr == DataAddr(g, l, s.lastHalf(l))
  {
    assert l in s.unacked ==> FlightOk(g, s, l);
    HalfAddress(g, l, 0);
    HalfAddress(g, l, 1);
    HalvesApart(l.dst, 0, l.dst, 1);
  }

  lemma HalfAddress(g: Layout, l: Link, h: nat)
    requires GoodLayout(g) && h < 2
    ensures DataAddr(g, l, h) == g.dma(l.src) + DataOffset(l.dst, h)
  {
    HalvesApart(l.dst, h, l.dst, h);
    PhysicalOf(g.vir(l.src), g.dma(l.src), DataOffset(l.dst, h));
    Unwrapped(g.dma(l.src) + DataOffset(l.dst, h));
  }
}
