/** Runs from the state after init: both sides store a name and create its queue, and what goes wrong elsewhere starts there. */
module Startup {
  import opened Common
  import opened NameHash
  import opened Registry
  import opened Mailbox
  import opened Transfer
  import opened Conservation
  import opened TransferInvariant
  import opened Progress
  import opened Delivery
  import opened Guards

  /** A core stores a name and creates the queue of its key. */
  function CoreStart(c: Core, path: CString): seq<Action> {
    [Local(c, FtokOp(path))] + [Local(c, GetOp(Hash(path)))]
  }

  function StartRun(l: Link, path: CString): seq<Action> {
    CoreStart(l.src, path) + CoreStart(l.dst, path)
  }

  /** Both tables have entries, and the receiver's queues have slots. */
  predicate HasQueues(s: State, l: Link) {
    |s.tables(l.src).queues| > 0 && |s.tables(l.dst).queues| > 0 && s.tables(l.dst).cap > 0
  }

  /** A name stored and its queue created on tables without a live queue. */
  lemma FirstQueue(r: Tables, path: CString)
    requires |r.queues| > 0 && forall i :: 0 <= i < |r.queues| ==> !r.queues[i].live
    ensures var r' := Registry.Get(Ftok(r, path), Hash(path)).0;
            && r'.cap == r.cap && |r'.queues| == |r.queues| && r'.queues[0] == Queue(true, Hash(path), [])
            && forall i :: 0 < i < |r.queues| ==> !r'.queues[i].live
  {
    var r1 := Ftok(r, path);
    assert DistinctKeys(r1) && FirstFree(r1.queues) == 0;
    GetPlaces(r1, Hash(path));
  }

  /** The pair can send under the key of the name: the queue is there on both sides, empty and alone. */
  ghost predicate CanSend(s: State, l: Link, key: UInt32) {
    && |s.tables(l.src).queues| > 0 && s.tables(l.src).queues[0].live && s.tables(l.src).queues[0].key == key
    && HasRoom(s.tables(l.dst), key) && Queued(s.tables(l.dst), key) == []
    && s.sem(l) == 1 && l !in s.unacked && s.handlers(l.dst).Quiet? && s.departed(l.dst) == []
    && forall t: int :: s.tasks(t).Idle?
  }

  lemma CoreStarts(g: Layout, s: State, c: Core, path: CString)
    requires s.handlers(c).Quiet?
    ensures ValidRun(g, s, CoreStart(c, path))
    ensures var z := After(g, s, CoreStart(c, path));
            && z == s.(tables := z.tables, departed := z.departed)
            && z.tables(c) == Registry.Get(Ftok(s.tables(c), path), Hash(path)).0
            && (forall d: Core :: d != c ==> z.tables(d) == s.tables(d))
            && forall d: Core :: z.departed(d) == s.departed(d)
  {
    RunOne(g, s, Local(c, FtokOp(path)));
    RunThen(g, s, [Local(c, FtokOp(path))], Local(c, GetOp(Hash(path))));
  }

  lemma StartTables(g: Layout, s: State, l: Link, path: CString)
    requires Init(s) && l.src != l.dst
    ensures ValidRun(g, s, StartRun(l, path))
    ensures var z := After(g, s, StartRun(l, path));
            && z == s.(tables := z.tables, departed := z.departed)
            && z.tables(l.src) == Registry.Get(Ftok(s.tables(l.src), path), Hash(path)).0
            && z.tables(l.dst) == Registry.Get(Ftok(s.tables(l.dst), path), Hash(path)).0
            && forall c: Core :: z.departed(c) == s.departed(c)
  {
    CoreStarts(g, s, l.src, path);
    CoreStarts(g, After(g, s, CoreStart(l.src, path)), l.dst, path);
    RunConcat(g, s, CoreStart(l.src, path), CoreStart(l.dst, path));
  }

  lemma Started(g: Layout, s: State, l: Link, path: CString)
    requires GoodLayout(g) && Init(s) && l.src != l.dst && HasQueues(s, l)
    ensures ValidRun(g, s, StartRun(l, path))
    ensures Inv(g, After(g, s, StartRun(l, path))) && CanSend(After(g, s, StartRun(l, path)), l, Hash(path))
  {
    StartTables(g, s, l, path);
    InitHolds(g, s);
    RunKeeps(g, s, StartRun(l, path));
    var z := After(g, s, StartRun(l, path));
    FirstQueue(s.tables(l.src), path);
    FirstQueue(s.tables(l.dst), path);
    assert SmallKeys(z.tables(l.dst)) && ValidId(z.tables(l.dst), 0);
    QueuedAt(z.tables(l.dst), 0);
  }

  /** From init a message can be lost: named queues, one send, one turn of the handler, one receive with a short buffer. */
  lemma LossFromStart(g: Layout, s: State, t: int, l: Link, path: CString, data: Msg, serial: UInt16, msgSize: nat)
    returns (run: seq<Action>)
    requires GoodLayout(g) && Init(s) && l.src != l.dst && HasQueues(s, l)
    requires msgSize < |data| <= IPC_MSG_ELEMENT_SIZE
    ensures ValidRun(g, s, run)
    ensures var z := After(g, s, run);
            && z.commanded(l) == [Entry(Hash(path), data)] && l !in z.unacked
            && z.departed(l.dst) == [Departure(Entry(Hash(path), data), false)]
            && Queued(z.tables(l.dst), Hash(path)) == []
  {
    var start := StartRun(l, path);
    Started(g, s, l, path);
    StartTables(g, s, l, path);
    var s1 := After(g, s, start);
    ShortBufferLoses(g, s1, t, l, 0, data, serial, msgSize);
    var there := FirstLive(s1.tables(l.dst).queues, Hash(path));
    var rest := MessageRun(t, l, 0, data, serial) + [Receive(l.dst, there, msgSize)];
    run := start + rest;
    RunConcat(g, s, start, rest);
  }

  /** From init the state is reached in which a command without the wait for the ack does harm. */
  lemma CrowdFromStart(g: Layout, s: State, t: int, u: int, l: Link, path: CString, data: seq<Msg>, serial: UInt16)
    returns (run: seq<Action>)
    requires GoodLayout(g) && Init(s) && l.src != l.dst && HasQueues(s, l) && t != u && |data| == 3
    requires forall k :: 0 <= k < 3 ==> |data[k]| <= IPC_MSG_ELEMENT_SIZE
    ensures ValidRun(g, s, run)
    ensures var z := After(g, s, run);
            && Inv(g, z) && z.tasks(t).Ready? && z.tasks(u).Waiting?
            && PairOf(z.tasks(t)) == l == PairOf(z.tasks(u)) && l in z.unacked
            && z.handlers(l.dst).Reading? && z.handlers(l.dst).src == l.src
  {
    var start := StartRun(l, path);
    Started(g, s, l, path);
    var s1 := After(g, s, start);
    CrowdedStateReachable(g, s1, t, u, l, 0, data, serial);
    run := start + CrowdRun(t, u, l, 0, data, serial);
    RunConcat(g, s, start, CrowdRun(t, u, l, 0, data, serial));
    assert HandlerOk(After(g, s, run), l.dst);
  }
}
