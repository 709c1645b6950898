/** From every reachable state a message can still get through: runs that clear the way and deliver it. */
module Completion {
  import opened Common
  import opened Registry
  import opened Mailbox
  import opened Transfer
  import opened Conservation
  import opened TransferInvariant
  import opened Progress
  import opened Guards

  ghost predicate LiveKey(r: Tables, key: UInt32) {
    exists id :: ValidId(r, id) && r.queues[id].key == key
  }

  /** The same queues are live under the same keys. */
  ghost predicate SameQueues(r: Tables, r': Tables) {
    && r'.cap == r.cap && |r'.queues| == |r.queues|
    && forall i :: 0 <= i < |r.queues| ==> r'.queues[i].live == r.queues[i].live && r'.queues[i].key == r.queues[i].key
  }

  lemma SameLiveKey(r: Tables, r': Tables, key: UInt32)
    requires SameQueues(r, r') && LiveKey(r, key)
    ensures LiveKey(r', key)
  {
    var id :| ValidId(r, id) && r.queues[id].key == key;
    assert ValidId(r', id);
  }

  /** Only the receiver on core `c` has moved: it read, posted, acknowledged, and messages were taken from it. */
  ghost predicate ReceiverMoved(s: State, z: State, c: Core) {
    && z == s.(handlers := z.handlers, tables := z.tables, unacked := z.unacked, posted := z.posted, departed := z.departed)
    && (forall d: Core :: d != c ==> z.tables(d) == s.tables(d))
    && SameQueues(s.tables(c), z.tables(c))
    && z.unacked <= s.unacked && s.posted(c) <= z.posted(c)
  }

  /** Since `s` the message has been posted, and it is at the end of the queue of its key. */
  ghost predicate Reached(s: State, z: State, l: Link, e: Entry) {
    && (exists before :: s.posted(l.dst) <= before && z.posted(l.dst) == before + [Arrival(l.src, e)])
    && (exists waiting :: Queued(z.tables(l.dst), e.key) == waiting + [e.data])
  }

  // ---------- The receiver's side ----------

  /** The handler finishes what it is reading, posted or not. */
  lemma Settle(g: Layout, s: State, c: Core) returns (run: seq<Action>)
    requires GoodLayout(g) && Inv(g, s)
    ensures ValidRun(g, s, run)
    ensures var z := After(g, s, run);
            Inv(g, z) && ReceiverMoved(s, z, c) && z.handlers(c).Quiet?
  {
    if s.handlers(c).Quiet? {
      run := [];
    } else {
      var n := RestToRead(g, s, c);
      ReadAll(g, s, c, n);
      var s1 := After(g, s, Bytes(c, n));
      run := Bytes(c, n) + [HandleEnd(c)];
      RunThen(g, s, Bytes(c, n), HandleEnd(c));
      RunKeeps(g, s, run);
      EndMoves(s, s1, c);
    }
  }

  lemma RestToRead(g: Layout, s: State, c: Core) returns (n: nat)
    requires HandlersOk(s) && FlightsOk(g, s) && s.handlers(c).Reading?
    ensures |s.handlers(c).got| + n == s.handlers(c).cmd.size
  {
    assert HandlerOk(s, c) && FlightOk(g, s, Link(s.handlers(c).src, c));
    n := s.handlers(c).cmd.size - |s.handlers(c).got|;
  }

  lemma EndMoves(s: State, s1: State, c: Core)
    requires s1 == s.(handlers := s1.handlers) && s1.handlers(c).Reading?
    ensures ReceiverMoved(s, DoHandleEnd(s1, c), c) && DoHandleEnd(s1, c).handlers(c).Quiet?
  {
  }

  /** A live queue that is full gets a free slot when somebody receives from it. */
  lemma MakeRoom(g: Layout, s: State, c: Core, key: UInt32) returns (run: seq<Action>)
    requires GoodLayout(g) && Inv(g, s) && s.handlers(c).Quiet? && LiveKey(s.tables(c), key) && s.tables(c).cap > 0
    ensures ValidRun(g, s, run)
    ensures var z := After(g, s, run);
            && Inv(g, z) && ReceiverMoved(s, z, c) && z.handlers == s.handlers && z.unacked == s.unacked
            && HasRoom(z.tables(c), key)
  {
    var id: int :| ValidId(s.tables(c), id) && s.tables(c).queues[id].key == key;
    if |s.tables(c).queues[id].msgs| < s.tables(c).cap {
      run := [];
    } else {
      run := [Receive(c, id, IPC_MSG_ELEMENT_SIZE)];
      RunOne(g, s, Receive(c, id, IPC_MSG_ELEMENT_SIZE));
      RunKeeps(g, s, run);
      assert SmallKeys(s.tables(c));
      RoomByReceive(s.tables(c), id);
    }
  }

  lemma RoomByReceive(r: Tables, id: nat)
    requires WellFormed(r) && ValidId(r, id) && r.queues[id].msgs != []
    ensures var r' := Dequeue(r, id).0;
            SameQueues(r, r') && HasRoom(r', r.queues[id].key)
  {
    var r' := Dequeue(r, id).0;
    assert ValidQueue(r.queues[id], r.cap);
    assert ValidId(r', id) && |r'.queues[id].msgs| < r'.cap;
  }

  /** The command in flight is posted and acknowledged. */
  lemma DeliverInFlight(g: Layout, s: State, l: Link) returns (run: seq<Action>)
    requires GoodLayout(g) && Inv(g, s) && l in s.unacked && s.handlers(l.dst).Quiet?
    requires InFlight(s, l) != [] && LiveKey(s.tables(l.dst), InFlight(s, l)[0].key) && s.tables(l.dst).cap > 0
    ensures ValidRun(g, s, run)
    ensures var z := After(g, s, run);
            && Inv(g, z) && ReceiverMoved(s, z, l.dst) && z.handlers(l.dst).Quiet?
            && l !in z.unacked && Reached(s, z, l, InFlight(s, l)[0])
  {
    var room := MakeRoom(g, s, l.dst, InFlight(s, l)[0].key);
    var s1 := After(g, s, room);
    assert InFlight(s1, l) == InFlight(s, l);
    var turn := DeliverWithRoom(g, s, s1, l, InFlight(s, l)[0]);
    run := room + turn;
    RunConcat(g, s, room, turn);
  }

  lemma DeliverWithRoom(g: Layout, s: State, s1: State, l: Link, e: Entry) returns (run: seq<Action>)
    requires GoodLayout(g) && Inv(g, s1) && ReceiverMoved(s, s1, l.dst)
    requires l in s1.unacked && s1.handlers(l.dst).Quiet? && InFlight(s1, l) == [e] && HasRoom(s1.tables(l.dst), e.key)
    ensures ValidRun(g, s1, run)
    ensures var z := After(g, s1, run);
            && Inv(g, z) && ReceiverMoved(s, z, l.dst) && z.handlers(l.dst).Quiet?
            && l !in z.unacked && Reached(s, z, l, e)
  {
    run := ReceiveRun(l, |e.data|);
    StalledCommandRecovers(g, s1, l);
    assert SmallKeys(s1.tables(l.dst));
    ReceivedReaches(s, s1, After(g, s1, run), l, e);
  }

  lemma ReceivedReaches(s: State, s1: State, z: State, l: Link, e: Entry)
    requires ReceiverMoved(s, s1, l.dst) && ReceiveEffect(s1, z, l, e) && WellFormed(s1.tables(l.dst))
    ensures ReceiverMoved(s, z, l.dst) && Reached(s, z, l, e)
  {
    assert z.posted(l.dst) == s1.posted(l.dst) + [Arrival(l.src, e)];
    ArrivedUnderKey(s1.tables(l.dst), e.key, e.data);
    PostSameQueues(s1.tables(l.dst), IdOf(s1.tables(l.dst), e.key), e.data);
  }

  lemma PostSameQueues(r: Tables, id: int, m: Msg)
    ensures SameQueues(r, Post(r, id, m).0)
  {
  }

  lemma MovedTwice(s: State, s1: State, z: State, c: Core)
    requires ReceiverMoved(s, s1, c) && ReceiverMoved(s1, z, c)
    ensures ReceiverMoved(s, z, c)
  {
  }

  /** The pair's command in flight, if any, is for a live queue. */
  ghost predicate FlightServed(s: State, l: Link) {
    l in s.unacked && InFlight(s, l) != [] ==> LiveKey(s.tables(l.dst), InFlight(s, l)[0].key)
  }

  /** The receiver is idle and the pair acknowledged. */
  lemma ClearWay(g: Layout, s: State, l: Link) returns (run: seq<Action>)
    requires GoodLayout(g) && Inv(g, s) && FlightServed(s, l) && s.tables(l.dst).cap > 0
    ensures ValidRun(g, s, run)
    ensures var z := After(g, s, run);
            Inv(g, z) && ReceiverMoved(s, z, l.dst) && z.handlers(l.dst).Quiet? && l !in z.unacked
  {
    var settle := Settle(g, s, l.dst);
    var s1 := After(g, s, settle);
    if l in s1.unacked {
      assert FlightOk(g, s1, l) && InFlight(s1, l) == InFlight(s, l);
      SameLiveKey(s.tables(l.dst), s1.tables(l.dst), InFlight(s, l)[0].key);
      var turn := DeliverInFlight(g, s1, l);
      run := settle + turn;
      RunConcat(g, s, settle, turn);
      MovedTwice(s, s1, After(g, s1, turn), l.dst);
    } else {
      run := settle;
    }
  }

  // ---------- The sender's side ----------

  /** Only task `t`, its pair, and the pair's receiver have moved. */
  ghost predicate PairMoved(s: State, z: State, t: int, l: Link) {
    && (forall u: int :: u != t ==> z.tasks(u) == s.tasks(u))
    && (forall c: Core :: c != l.dst ==> z.tables(c) == s.tables(c))
    && SameQueues(s.tables(l.dst), z.tables(l.dst)) && s.posted(l.dst) <= z.posted(l.dst)
  }

  lemma PairMovedTwice(s: State, s1: State, z: State, t: int, l: Link)
    requires PairMoved(s, s1, t, l) && PairMoved(s1, z, t, l)
    ensures PairMoved(s, z, t, l)
  {
  }

  lemma ReachedSince(s: State, s1: State, z: State, l: Link, e: Entry)
    requires s.posted(l.dst) <= s1.posted(l.dst) && Reached(s1, z, l, e)
    ensures Reached(s, z, l, e)
  {
    var before :| s1.posted(l.dst) <= before && z.posted(l.dst) == before + [Arrival(l.src, e)];
    assert s.posted(l.dst) <= before;
  }

  /** A copy under way is finished and its command set up. */
  lemma ToReady(g: Layout, s: State, t: int) returns (run: seq<Action>)
    requires GoodLayout(g) && Inv(g, s) && s.tasks(t).Copying? && s.tasks(t).core != s.tasks(t).dst
    ensures ValidRun(g, s, run)
    ensures var z := After(g, s, run);
            var task := s.tasks(t);
            && Inv(g, z) && z == s.(tasks := z.tasks, mem := z.mem) && PairMoved(s, z, t, PairOf(task))
            && z.tasks(t) == Ready(task.core, task.dst, task.data, task.half, KeyAt(s.tables(task.core), task.id))
  {
    var task := s.tasks(t);
    assert TaskOk(s, t) && |s.mem(task.core)| == REGION_SIZE;
    HalvesApart(task.dst, task.half, task.dst, task.half);
    var n := |Image(task.dst, task.data)| - task.done;
    CopyBytes(g, s, t, n);
    run := Copies(t, n) + [Prepare(t)];
    RunThen(g, s, Copies(t, n), Prepare(t));
    RunKeeps(g, s, run);
  }

  /** With the way clear a message that is ready is commanded, delivered, and its semaphore freed. */
  lemma CommandToReached(g: Layout, s: State, t: int, l: Link) returns (run: seq<Action>)
    requires GoodLayout(g) && Inv(g, s) && s.tasks(t).Ready? && PairOf(s.tasks(t)) == l
    requires l !in s.unacked && s.handlers(l.dst).Quiet?
    requires LiveKey(s.tables(l.dst), s.tasks(t).key) && s.tables(l.dst).cap > 0
    ensures ValidRun(g, s, run)
    ensures Delivered(g, s, After(g, s, run), t, l, Entry(s.tasks(t).key, s.tasks(t).data))
  {
    var e := Entry(s.tasks(t).key, s.tasks(t).data);
    assert TaskOk(s, t);
    CommandStep(g, s, t, 0);
    var s2 := Do(g, s, Command(t, 0));
    RunOne(g, s, Command(t, 0));
    assert InFlight(s2, l) == [e];
    var turn := DeliverInFlight(g, s2, l);
    RunConcat(g, s, [Command(t, 0)], turn);
    var s3 := After(g, s2, turn);
    assert s3.tasks(t) == Sent(l.src, l.dst);
    run := [Command(t, 0)] + turn + [Release(t)];
    RunThen(g, s, [Command(t, 0)] + turn, Release(t));
    ReleaseStep(g, s3, t);
  }

  /** Task `t` is done, its message is at the end of its queue, and the pair is free. */
  ghost predicate Delivered(g: Layout, s: State, z: State, t: int, l: Link, e: Entry) {
    && Inv(g, z) && PairMoved(s, z, t, l) && z.tasks(t).Idle? && z.sem(l) == 1
    && l !in z.unacked && z.handlers(l.dst).Quiet?
    && Reached(s, z, l, e)
  }

  lemma ReadyToReached(g: Layout, s: State, t: int, l: Link) returns (run: seq<Action>)
    requires GoodLayout(g) && Inv(g, s) && s.tasks(t).Ready? && PairOf(s.tasks(t)) == l && FlightServed(s, l)
    requires LiveKey(s.tables(l.dst), s.tasks(t).key) && s.tables(l.dst).cap > 0
    ensures ValidRun(g, s, run)
    ensures Delivered(g, s, After(g, s, run), t, l, Entry(s.tasks(t).key, s.tasks(t).data))
  {
    var clear := ClearWay(g, s, l);
    var s1 := After(g, s, clear);
    SameLiveKey(s.tables(l.dst), s1.tables(l.dst), s.tasks(t).key);
    var rest := CommandToReached(g, s1, t, l);
    run := clear + rest;
    RunConcat(g, s, clear, rest);
    PairMovedTwice(s, s1, After(g, s1, rest), t, l);
    ReachedSince(s, s1, After(g, s1, rest), l, Entry(s.tasks(t).key, s.tasks(t).data));
  }

  /** The key a task's message goes under. */
  function KeyOf(s: State, task: Task): UInt32 {
    match task
    case Waiting(core, id, _, _) => KeyAt(s.tables(core), id)
    case Copying(core, id, _, _, _, _) => KeyAt(s.tables(core), id)
    case Ready(_, _, _, _, key) => key
    case _ => 0
  }

  /** A task at work on another core's message finishes. */
  lemma WorkToReached(g: Layout, s: State, t: int, l: Link) returns (run: seq<Action>)
    requires GoodLayout(g) && Inv(g, s) && (s.tasks(t).Copying? || s.tasks(t).Ready?)
    requires PairOf(s.tasks(t)) == l && l.src != l.dst && FlightServed(s, l)
    requires LiveKey(s.tables(l.dst), KeyOf(s, s.tasks(t))) && s.tables(l.dst).cap > 0
    ensures ValidRun(g, s, run)
    ensures Delivered(g, s, After(g, s, run), t, l, Entry(KeyOf(s, s.tasks(t)), s.tasks(t).data))
  {
    if s.tasks(t).Ready? {
      run := ReadyToReached(g, s, t, l);
    } else {
      var fill := ToReady(g, s, t);
      var s1 := After(g, s, fill);
      assert InFlight(s1, l) == InFlight(s, l);
      var rest := ReadyToReached(g, s1, t, l);
      run := fill + rest;
      RunConcat(g, s, fill, rest);
      PairMovedTwice(s, s1, After(g, s1, rest), t, l);
      ReachedSince(s, s1, After(g, s1, rest), l, Entry(KeyOf(s, s.tasks(t)), s.tasks(t).data));
    }
  }

  /** Whatever is under way on the pair, in flight or in a sender's hands, is for a live queue. */
  ghost predicate PairServed(s: State, l: Link) {
    && FlightServed(s, l)
    && (s.sem(l) == 0 && !s.tasks(s.owner(l)).Sent? ==> LiveKey(s.tables(l.dst), KeyOf(s, s.tasks(s.owner(l)))))
  }

  /** The sender at work on a pair, if any, gets out of the way. */
  lemma FreePair(g: Layout, s: State, l: Link) returns (run: seq<Action>)
    requires GoodLayout(g) && Inv(g, s) && l.src != l.dst && PairServed(s, l) && s.tables(l.dst).cap > 0
    ensures ValidRun(g, s, run)
    ensures var z := After(g, s, run);
            && Inv(g, z) && PairMoved(s, z, s.owner(l), l) && z.sem(l) == 1 && FlightServed(z, l)
            && (forall t: int :: s.tasks(t).Waiting? ==> z.tasks(t) == s.tasks(t))
  {
    assert LinkOk(s, l);
    var u := s.owner(l);
    if s.sem(l) == 1 {
      run := [];
    } else if s.tasks(u).Sent? {
      assert TaskOk(s, u);
      run := [Release(u)];
      RunOne(g, s, Release(u));
      ReleaseStep(g, s, u);
      assert InFlight(After(g, s, run), l) == InFlight(s, l);
    } else {
      run := WorkToReached(g, s, u, l);
    }
  }

  /** A waiting task takes the free semaphore. */
  lemma WaitToWork(g: Layout, s: State, t: int)
    requires Inv(g, s) && s.tasks(t).Waiting? && s.sem(PairOf(s.tasks(t))) == 1
    ensures ValidRun(g, s, [Acquire(t)])
    ensures var z := After(g, s, [Acquire(t)]);
            && Inv(g, z) && z.tasks(t).Copying? && PairOf(z.tasks(t)) == PairOf(s.tasks(t))
            && KeyOf(z, z.tasks(t)) == KeyOf(s, s.tasks(t)) && z.tasks(t).data == s.tasks(t).data
            && z.tables == s.tables && z.unacked == s.unacked && z.commanded == s.commanded && z.posted == s.posted
  {
    RunOne(g, s, Acquire(t));
    AcquireStep(g, s, t);
  }

  /**
   * From every state that keeps the invariant: as long as what is under way on its pair and the message
   * itself are for live queues, some run of the machine ends the call of a given task with its message
   * at the end of its queue, whatever the others and the receiver are in the middle of.
   */
  lemma MessageGetsThrough(g: Layout, s: State, t: int) returns (run: seq<Action>)
    requires GoodLayout(g) && Inv(g, s) && (s.tasks(t).Waiting? || s.tasks(t).Copying? || s.tasks(t).Ready?)
    requires var l := PairOf(s.tasks(t));
             && l.src != l.dst && PairServed(s, l)
             && LiveKey(s.tables(l.dst), KeyOf(s, s.tasks(t))) && s.tables(l.dst).cap > 0
    ensures ValidRun(g, s, run)
    ensures var z := After(g, s, run);
            && Inv(g, z) && z.tasks(t).Idle?
            && Reached(s, z, PairOf(s.tasks(t)), Entry(KeyOf(s, s.tasks(t)), s.tasks(t).data))
  {
    var l := PairOf(s.tasks(t));
    if s.tasks(t).Waiting? {
      var free := FreePair(g, s, l);
      var s1 := After(g, s, free);
      SameLiveKey(s.tables(l.dst), s1.tables(l.dst), KeyOf(s, s.tasks(t)));
      WaitToWork(g, s1, t);
      var s2 := After(g, s1, [Acquire(t)]);
      assert InFlight(s2, l) == InFlight(s1, l);
      var rest := WorkToReached(g, s2, t, l);
      RunConcat(g, s, free, [Acquire(t)]);
      run := free + [Acquire(t)] + rest;
      RunConcat(g, s, free + [Acquire(t)], rest);
      ReachedSince(s, s2, After(g, s2, rest), l, Entry(KeyOf(s, s.tasks(t)), s.tasks(t).data));
    } else {
      run := WorkToReached(g, s, t, l);
    }
  }

  /** In particular from every reachable state. */
  lemma ReachableGetsThrough(g: Layout, s: State, soFar: seq<Action>, t: int) returns (run: seq<Action>)
    requires GoodLayout(g) && Init(s) && ValidRun(g, s, soFar)
    requires var y := After(g, s, soFar);
             && (y.tasks(t).Waiting? || y.tasks(t).Copying? || y.tasks(t).Ready?)
             && var l := PairOf(y.tasks(t));
                && l.src != l.dst && PairServed(y, l)
                && LiveKey(y.tables(l.dst), KeyOf(y, y.tasks(t))) && y.tables(l.dst).cap > 0
    ensures ValidRun(g, s, soFar + run)
    ensures var y, z := After(g, s, soFar), After(g, s, soFar + run);
            z.tasks(t).Idle? && Reached(y, z, PairOf(y.tasks(t)), Entry(KeyOf(y, y.tasks(t)), y.tasks(t).data))
  {
    InitHolds(g, s);
    RunKeeps(g, s, soFar);
    run := MessageGetsThrough(g, After(g, s, soFar), t);
    RunConcat(g, s, soFar, run);
  }
}
