/** Runs that get somewhere: a send completes, a stalled command is taken up again, a message arrives. */
module Progress {
  import opened Common
  import opened Registry
  import opened Mailbox
  import opened Runs
  import opened Transfer
  import opened Conservation
  import opened TransferInvariant

  lemma RunConcat(g: Layout, s: State, a: seq<Action>, b: seq<Action>)
    requires ValidRun(g, s, a) && ValidRun(g, After(g, s, a), b)
    ensures ValidRun(g, s, a + b) && After(g, s, a + b) == After(g, After(g, s, a), b)
  {
    StepsConcat(Next(g), s, a, b);
  }

  lemma RunOne(g: Layout, s: State, a: Action)
    requires Enabled(s, a)
    ensures ValidRun(g, s, [a]) && After(g, s, [a]) == Do(g, s, a)
  {
    StepsOne(Next(g), s, a);
  }

  /** A run followed by one more step. */
  lemma RunThen(g: Layout, s: State, run: seq<Action>, a: Action)
    requires ValidRun(g, s, run) && Enabled(After(g, s, run), a)
    ensures ValidRun(g, s, run + [a]) && After(g, s, run + [a]) == Do(g, After(g, s, run), a)
  {
    RunOne(g, After(g, s, run), a);
    RunConcat(g, s, run, [a]);
  }

  // ---------- Receiving ----------

  function Bytes(core: Core, n: nat): seq<Action> {
    seq(n, _ => HandleByte(core))
  }

  lemma {:induction false} ReadAll(g: Layout, s: State, core: Core, n: nat)
    requires s.handlers(core).Reading? && |s.handlers(core).got| + n == s.handlers(core).cmd.size
    ensures ValidRun(g, s, Bytes(core, n))
    ensures var z := After(g, s, Bytes(core, n));
            && z == s.(handlers := z.handlers)
            && z.handlers(core).Reading? && |z.handlers(core).got| == z.handlers(core).cmd.size
            && z.handlers(core) == s.handlers(core).(got := z.handlers(core).got)
    decreases n
  {
    if n > 0 {
      ReadAll(g, Do(g, s, HandleByte(core)), core, n - 1);
      assert Bytes(core, n)[0] == HandleByte(core) && Bytes(core, n)[1..] == Bytes(core, n - 1);
    }
  }

  function ReceiveRun(l: Link, n: nat): seq<Action> {
    [HandleBegin(l.src, l.dst)] + Bytes(l.dst, n) + [HandleEnd(l.dst)]
  }

  /** There is a live queue for the key with a slot to spare. */
  ghost predicate HasRoom(r: Tables, key: UInt32) {
    exists id :: ValidId(r, id) && r.queues[id].key == key && |r.queues[id].msgs| < r.cap
  }

  lemma RoomAt(r: Tables, id: int)
    requires DistinctKeys(r) && ValidId(r, id)
    ensures HasRoom(r, r.queues[id].key) <==> |r.queues[id].msgs| < r.cap
    ensures IdOf(r, r.queues[id].key) == id
  {
    LookupFinds(r, id);
    if HasRoom(r, r.queues[id].key) {
      var i :| ValidId(r, i) && r.queues[i].key == r.queues[id].key && |r.queues[i].msgs| < r.cap;
      assert i == id;
    }
  }

  lemma RoomFound(r: Tables, key: UInt32)
    requires DistinctKeys(r) && HasRoom(r, key)
    ensures IdOf(r, key) >= 0
  {
    var id :| ValidId(r, id) && r.queues[id].key == key && |r.queues[id].msgs| < r.cap;
    RoomAt(r, id);
  }

  /**
   * The handler's last step posts exactly the commanded payload and acknowledges it, or it changes
   * nothing but its own state and the command stays in flight; it posts exactly when there is room.
   */
  lemma PostOrStall(g: Layout, s: State, core: Core)
    requires Inv(g, s) && Enabled(s, HandleEnd(core))
    ensures var s' := Do(g, s, HandleEnd(core));
            var h := s.handlers(core);
            var l := Link(h.src, core);
            var room := HasRoom(s.tables(core), h.cmd.opcode);
            && InFlight(s, l) == [Entry(h.cmd.opcode, h.got)]
            && (l !in s'.unacked <==> room)
            && (!room ==> s' == s.(handlers := s'.handlers))
            && (room ==>
                  && s'.unacked == s.unacked - {l}
                  && s'.posted(core) == s.posted(core) + [Arrival(l.src, Entry(h.cmd.opcode, h.got))]
                  && Post(s.tables(core), h.id, h.got) == (s'.tables(core), 0))
  {
    assert HandlerOk(s, core) && SmallKeys(s.tables(core));
    CompleteReading(g, s, core);
    RoomAt(s.tables(core), s.handlers(core).id);
  }

  /** The handler's first step finds the queue. */
  lemma FindsQueue(g: Layout, s: State, l: Link)
    requires FlightOk(g, s, l) && l in s.unacked && IdOf(s.tables(l.dst), InFlight(s, l)[0].key) >= 0
    ensures var e := InFlight(s, l)[0];
            var s' := DoHandleBegin(s, l.src, l.dst);
            && s' == s.(handlers := s'.handlers)
            && s'.handlers(l.dst) == Reading(l.src, IdOf(s.tables(l.dst), e.key), TakeCmd(s.words, l), [])
            && TakeCmd(s.words, l).opcode == e.key && TakeCmd(s.words, l).size == |e.data|
  {
  }

  /** The handler has the complete payload in hand. */
  lemma TakesInAll(g: Layout, s: State, l: Link)
    requires GoodLayout(g) && Inv(g, s) && l in s.unacked && s.handlers(l.dst).Quiet?
    requires InFlight(s, l) != [] && IdOf(s.tables(l.dst), InFlight(s, l)[0].key) >= 0
    ensures var e := InFlight(s, l)[0];
            var run := [HandleBegin(l.src, l.dst)] + Bytes(l.dst, |e.data|);
            && ValidRun(g, s, run)
            && var z := After(g, s, run);
            && Inv(g, z) && z == s.(handlers := z.handlers)
            && z.handlers(l.dst).Reading? && z.handlers(l.dst).src == l.src
            && z.handlers(l.dst).id == IdOf(s.tables(l.dst), e.key)
            && Enabled(z, HandleEnd(l.dst))
  {
    var e := InFlight(s, l)[0];
    var begin, bytes := HandleBegin(l.src, l.dst), Bytes(l.dst, |e.data|);
    assert FlightOk(g, s, l);
    FindsQueue(g, s, l);
    RunOne(g, s, begin);
    ReadAll(g, Do(g, s, begin), l.dst, |e.data|);
    RunConcat(g, s, [begin], bytes);
    RunKeeps(g, s, [begin] + bytes);
  }

  /**
   * A stalled command is not lost: as soon as its queue is live and has room, one more turn of the
   * handler posts exactly the commanded payload and acknowledges it.
   */
  lemma StalledCommandRecovers(g: Layout, s: State, l: Link)
    requires GoodLayout(g) && Inv(g, s) && l in s.unacked && s.handlers(l.dst).Quiet?
    requires HasRoom(s.tables(l.dst), InFlight(s, l)[0].key)
    ensures var e := InFlight(s, l)[0];
            && ValidRun(g, s, ReceiveRun(l, |e.data|))
            && ReceiveEffect(s, After(g, s, ReceiveRun(l, |e.data|)), l, e)
            && Inv(g, After(g, s, ReceiveRun(l, |e.data|)))
  {
    var e := InFlight(s, l)[0];
    var take := [HandleBegin(l.src, l.dst)] + Bytes(l.dst, |e.data|);
    assert SmallKeys(s.tables(l.dst));
    RoomFound(s.tables(l.dst), e.key);
    TakesInAll(g, s, l);
    EndReceives(g, s, After(g, s, take), l, e);
    RunThen(g, s, take, HandleEnd(l.dst));
    RunKeeps(g, s, ReceiveRun(l, |e.data|));
  }

  /** Message `e` of pair `l` has been posted and acknowledged, and nothing else has changed. */
  ghost predicate ReceiveEffect(s: State, z: State, l: Link, e: Entry) {
    && z == s.(handlers := z.handlers, tables := z.tables, unacked := z.unacked, posted := z.posted)
    && z.handlers(l.dst).Quiet?
    && z.unacked == s.unacked - {l}
    && (forall c: Core :: c != l.dst ==> z.tables(c) == s.tables(c) && z.posted(c) == s.posted(c))
    && z.posted(l.dst) == s.posted(l.dst) + [Arrival(l.src, e)]
    && (z.tables(l.dst), 0) == Post(s.tables(l.dst), IdOf(s.tables(l.dst), e.key), e.data)
  }

  /** The handler's last step on a complete payload. */
  lemma EndReceives(g: Layout, s: State, s1: State, l: Link, e: Entry)
    requires Inv(g, s1) && s1 == s.(handlers := s1.handlers) && Enabled(s1, HandleEnd(l.dst))
    requires s1.handlers(l.dst).src == l.src && s1.handlers(l.dst).id == IdOf(s.tables(l.dst), e.key)
    requires InFlight(s, l) == [e] && HasRoom(s.tables(l.dst), e.key)
    ensures ReceiveEffect(s, Do(g, s1, HandleEnd(l.dst)), l, e)
  {
    PostOrStall(g, s1, l.dst);
    var h := s1.handlers(l.dst);
    assert Entry(h.cmd.opcode, h.got) == e;
  }

  // ---------- Sending ----------

  function Copies(t: int, n: nat): seq<Action> {
    seq(n, _ => CopyByte(t))
  }

  /** Only the half starting at `off` differs, over the first `n` bytes. */
  ghost predicate OnlyHalfWritten(before: seq<Byte>, after: seq<Byte>, off: nat, n: nat) {
    && |after| == |before|
    && forall k :: 0 <= k < |before| && !(off <= k < off + n) ==> after[k] == before[k]
  }

  /** A task copying into its half, with room for the image, has stored its first bytes. */
  ghost predicate CopyUnderWay(s: State, t: int) {
    && s.tasks(t).Copying?
    && var task := s.tasks(t);
       && task.done <= |Image(task.dst, task.data)|
       && HalfStart(task.dst, task.half) + |Image(task.dst, task.data)| <= |s.mem(task.core)|
       && HoldsAt(s.mem(task.core), HalfStart(task.dst, task.half), Image(task.dst, task.data)[..task.done])
  }

  /** It has stored `n` more, in its half, and nothing else has changed. */
  ghost predicate CopyEffect(s: State, z: State, t: int, n: nat)
    requires s.tasks(t).Copying?
  {
    var task := s.tasks(t);
    && CopyUnderWay(z, t)
    && z == s.(tasks := z.tasks, mem := z.mem)
    && z.tasks(t) == task.(done := task.done + n)
    && (forall u: int :: u != t ==> z.tasks(u) == s.tasks(u))
    && (forall c: Core :: c != task.core ==> z.mem(c) == s.mem(c))
    && OnlyHalfWritten(s.mem(task.core), z.mem(task.core), HalfStart(task.dst, task.half), |Image(task.dst, task.data)|)
  }

  lemma CopyOne(g: Layout, s: State, t: int)
    requires CopyGoesOn(s.tasks(t)) && CopyUnderWay(s, t)
    ensures CopyEffect(s, Do(g, s, CopyByte(t)), t, 1)
  {
    var task := s.tasks(t);
    StoreNext(s.mem(task.core), HalfStart(task.dst, task.half), Image(task.dst, task.data), task.done);
  }

  lemma CopyChain(s: State, s1: State, z: State, t: int, n: nat)
    requires CopyUnderWay(s, t) && CopyEffect(s, s1, t, 1) && CopyEffect(s1, z, t, n)
    ensures CopyEffect(s, z, t, n + 1)
  {
  }

  /** Storing `n` more bytes of the image, whatever state the rest of the system is in. */
  lemma {:induction false} CopyBytes(g: Layout, s: State, t: int, n: nat)
    requires CopyUnderWay(s, t) && s.tasks(t).done + n <= |Image(s.tasks(t).dst, s.tasks(t).data)|
    ensures ValidRun(g, s, Copies(t, n))
    ensures CopyEffect(s, After(g, s, Copies(t, n)), t, n)
    decreases n
  {
    if n > 0 {
      var s1 := Do(g, s, CopyByte(t));
      CopyOne(g, s, t);
      CopyBytes(g, s1, t, n - 1);
      assert Copies(t, n)[0] == CopyByte(t) && Copies(t, n)[1..] == Copies(t, n - 1);
      CopyChain(s, s1, After(g, s1, Copies(t, n - 1)), t, n - 1);
    }
  }

  lemma FilledWhole(before: seq<Byte>, after: seq<Byte>, dst: Core, half: nat, data: Msg)
    requires HalfStart(dst, half) + |Image(dst, data)| <= |before|
    requires HoldsAt(after, HalfStart(dst, half), Image(dst, data))
    requires OnlyHalfWritten(before, after, HalfStart(dst, half), |Image(dst, data)|)
    ensures after == Filled(before, dst, half, data)
  {
    var off, n := HalfStart(dst, half), |Image(dst, data)|;
    assert after[..off] == before[..off];
    assert after[off + n..] == before[off + n..];
    assert after == after[..off] + after[off..off + n] + after[off + n..];
  }

  /** The whole image stored by a task that has just been handed its half. */
  lemma FillHalf(g: Layout, s: State, t: int)
    requires s.tasks(t).Copying? && s.tasks(t).done == 0
    requires var task := s.tasks(t);
             HalfStart(task.dst, task.half) + |Image(task.dst, task.data)| <= |s.mem(task.core)|
    ensures var task := s.tasks(t);
            var run := Copies(t, |Image(task.dst, task.data)|);
            && ValidRun(g, s, run)
            && var z := After(g, s, run);
            && z == s.(tasks := z.tasks, mem := z.mem)
            && z.tasks(t) == task.(done := |Image(task.dst, task.data)|)
            && (forall u: int :: u != t ==> z.tasks(u) == s.tasks(u))
            && (forall c: Core :: c != task.core ==> z.mem(c) == s.mem(c))
            && z.mem(task.core) == Filled(s.mem(task.core), task.dst, task.half, task.data)
  {
    var task := s.tasks(t);
    var image := Image(task.dst, task.data);
    assert image[..0] == [] && image[..|image|] == image;
    CopyBytes(g, s, t, |image|);
    FilledWhole(s.mem(task.core), After(g, s, Copies(t, |image|)).mem(task.core), task.dst, task.half, task.data);
  }

  function TakeRun(t: int, l: Link, id: nat, data: Msg): seq<Action> {
    [Begin(t, l.src, id, l.dst, data)] + [Acquire(t)]
  }

  function FillRun(t: int, l: Link, id: nat, data: Msg): seq<Action> {
    TakeRun(t, l, id, data) + Copies(t, |Image(l.dst, data)|) + [Prepare(t)]
  }

  function SendRun(t: int, l: Link, id: nat, data: Msg, serial: UInt16): seq<Action> {
    FillRun(t, l, id, data) + [Command(t, serial)] + [Release(t)]
  }

  /** A task that starts while the semaphore is free gets its half. */
  lemma TakesHalf(g: Layout, s: State, t: int, l: Link, id: nat, data: Msg)
    requires LinkOk(s, l) && Enabled(s, Begin(t, l.src, id, l.dst, data)) && s.sem(l) == 1
    ensures ValidRun(g, s, TakeRun(t, l, id, data))
    ensures var z := After(g, s, TakeRun(t, l, id, data));
            && z == s.(tasks := z.tasks, sem := z.sem, next := z.next, owner := z.owner)
            && z.tasks(t) == Copying(l.src, id, l.dst, data, s.next(l), 0)
            && (forall u: int :: u != t ==> z.tasks(u) == s.tasks(u))
            && (forall m: Link :: m != l ==> z.sem(m) == s.sem(m) && z.next(m) == s.next(m))
            && z.sem(l) == 0 && z.next(l) == 1 - s.next(l)
  {
    var begin := Begin(t, l.src, id, l.dst, data);
    RunOne(g, s, begin);
    RunThen(g, s, [begin], Acquire(t));
  }

  /** What is left when a task is ready to trigger: its half is filled, its semaphore taken. */
  ghost predicate FillEffect(s: State, z: State, t: int, l: Link, id: nat, data: Msg)
    requires HalfStart(l.dst, s.next(l)) + |Image(l.dst, data)| <= |s.mem(l.src)|
  {
    && z == s.(tasks := z.tasks, sem := z.sem, next := z.next, owner := z.owner, mem := z.mem)
    && z.tasks(t) == Ready(l.src, l.dst, data, s.next(l), KeyAt(s.tables(l.src), id))
    && (forall u: int :: u != t ==> z.tasks(u) == s.tasks(u))
    && (forall c: Core :: c != l.src ==> z.mem(c) == s.mem(c))
    && z.mem(l.src) == Filled(s.mem(l.src), l.dst, s.next(l), data)
    && (forall m: Link :: m != l ==> z.sem(m) == s.sem(m) && z.next(m) == s.next(m))
    && z.sem(l) == 0 && z.next(l) == 1 - s.next(l)
  }

  lemma HalfInside(s: State, l: Link, data: Msg)
    requires LinkOk(s, l) && MemOk(s) && |data| <= IPC_MSG_ELEMENT_SIZE
    ensures HalfStart(l.dst, s.next(l)) + |Image(l.dst, data)| <= |s.mem(l.src)|
  {
    HalvesApart(l.dst, s.next(l), l.dst, s.next(l));
    assert |s.mem(l.src)| == REGION_SIZE;
  }

  /** A task that finds the semaphore free takes it and fills its half. */
  lemma HalfCompletes(g: Layout, s: State, t: int, l: Link, id: nat, data: Msg)
    requires LinkOk(s, l) && MemOk(s) && Enabled(s, Begin(t, l.src, id, l.dst, data)) && s.sem(l) == 1
    ensures HalfStart(l.dst, s.next(l)) + |Image(l.dst, data)| <= |s.mem(l.src)|
    ensures var run := TakeRun(t, l, id, data) + Copies(t, |Image(l.dst, data)|);
            && ValidRun(g, s, run)
            && var z := After(g, s, run);
            && z == s.(tasks := z.tasks, sem := z.sem, next := z.next, owner := z.owner, mem := z.mem)
            && z.tasks(t) == Copying(l.src, id, l.dst, data, s.next(l), |Image(l.dst, data)|)
            && (forall u: int :: u != t ==> z.tasks(u) == s.tasks(u))
            && (forall c: Core :: c != l.src ==> z.mem(c) == s.mem(c))
            && z.mem(l.src) == Filled(s.mem(l.src), l.dst, s.next(l), data)
            && (forall m: Link :: m != l ==> z.sem(m) == s.sem(m) && z.next(m) == s.next(m))
            && z.sem(l) == 0 && z.next(l) == 1 - s.next(l)
  {
    HalfInside(s, l, data);
    TakesHalf(g, s, t, l, id, data);
    FillHalf(g, After(g, s, TakeRun(t, l, id, data)), t);
    RunConcat(g, s, TakeRun(t, l, id, data), Copies(t, |Image(l.dst, data)|));
  }

  lemma FillCompletes(g: Layout, s: State, t: int, l: Link, id: nat, data: Msg)
    requires LinkOk(s, l) && MemOk(s) && l.src != l.dst
    requires Enabled(s, Begin(t, l.src, id, l.dst, data)) && s.sem(l) == 1
    ensures HalfStart(l.dst, s.next(l)) + |Image(l.dst, data)| <= |s.mem(l.src)|
    ensures ValidRun(g, s, FillRun(t, l, id, data))
    ensures FillEffect(s, After(g, s, FillRun(t, l, id, data)), t, l, id, data)
  {
    HalfCompletes(g, s, t, l, id, data);
    RunThen(g, s, TakeRun(t, l, id, data) + Copies(t, |Image(l.dst, data)|), Prepare(t));
  }

  /** A send has run to its end: the half is filled, the command written, the semaphore free again. */
  ghost predicate SendEffect(g: Layout, s: State, z: State, t: int, l: Link, id: nat, data: Msg, serial: UInt16)
    requires HalfStart(l.dst, s.next(l)) + |Image(l.dst, data)| <= |s.mem(l.src)|
    requires l.src != l.dst && |data| < TWO_32
  {
    var key := KeyAt(s.tables(l.src), id);
    && z == s.(tasks := z.tasks, sem := z.sem, next := z.next, owner := z.owner, mem := z.mem, words := z.words,
               unacked := z.unacked, lastHalf := z.lastHalf, commanded := z.commanded)
    && z.tasks(t).Idle? && (forall u: int :: u != t ==> z.tasks(u) == s.tasks(u))
    && (forall c: Core :: c != l.src ==> z.mem(c) == s.mem(c))
    && z.mem(l.src) == Filled(s.mem(l.src), l.dst, s.next(l), data)
    && (forall m: Link :: z.sem(m) == s.sem(m))
    && (forall m: Link :: m != l ==> z.next(m) == s.next(m)) && z.next(l) == 1 - s.next(l)
    && z.words == PutCmd(s.words, l, Cmd(key, DataAddr(g, l, s.next(l)), |data|), serial)
    && z.unacked == s.unacked + {l}
    && z.commanded(l) == s.commanded(l) + [Entry(key, data)]
    && InFlight(z, l) == [Entry(key, data)]
  }

  lemma TriggerAndRelease(g: Layout, s: State, s1: State, t: int, l: Link, id: nat, data: Msg, serial: UInt16)
    requires HalfStart(l.dst, s.next(l)) + |Image(l.dst, data)| <= |s.mem(l.src)|
    requires FillEffect(s, s1, t, l, id, data) && s.sem(l) == 1 && l !in s.unacked
    requires l.src != l.dst && |data| <= IPC_MSG_ELEMENT_SIZE
    ensures Enabled(s1, Command(t, serial)) && Enabled(Do(g, s1, Command(t, serial)), Release(t))
    ensures SendEffect(g, s, Do(g, Do(g, s1, Command(t, serial)), Release(t)), t, l, id, data, serial)
  {
    assert ToUInt32(|data|) == |data|;
  }

  /** Once the previous command is acknowledged the send runs to its end and frees the semaphore. */
  lemma SendCompletes(g: Layout, s: State, t: int, l: Link, id: nat, data: Msg, serial: UInt16)
    requires LinkOk(s, l) && MemOk(s) && l.src != l.dst
    requires Enabled(s, Begin(t, l.src, id, l.dst, data)) && s.sem(l) == 1 && l !in s.unacked
    ensures HalfStart(l.dst, s.next(l)) + |Image(l.dst, data)| <= |s.mem(l.src)|
    ensures ValidRun(g, s, SendRun(t, l, id, data, serial))
    ensures SendEffect(g, s, After(g, s, SendRun(t, l, id, data, serial)), t, l, id, data, serial)
  {
    var fill := FillRun(t, l, id, data);
    FillCompletes(g, s, t, l, id, data);
    TriggerAndRelease(g, s, After(g, s, fill), t, l, id, data, serial);
    RunThen(g, s, fill, Command(t, serial));
    RunThen(g, s, fill + [Command(t, serial)], Release(t));
  }

  // ---------- Both ----------

  function MessageRun(t: int, l: Link, id: nat, data: Msg, serial: UInt16): seq<Action> {
    SendRun(t, l, id, data, serial) + ReceiveRun(l, |data|)
  }

  /** A message sent over an idle pair to a core with room under its key arrives as it was sent. */
  lemma MessageArrives(g: Layout, s: State, t: int, l: Link, id: nat, data: Msg, serial: UInt16)
    requires GoodLayout(g) && Inv(g, s) && l.src != l.dst
    requires Enabled(s, Begin(t, l.src, id, l.dst, data)) && s.sem(l) == 1 && l !in s.unacked
    requires s.handlers(l.dst).Quiet? && HasRoom(s.tables(l.dst), s.tables(l.src).queues[id].key)
    ensures var key := s.tables(l.src).queues[id].key;
            var run := MessageRun(t, l, id, data, serial);
            && ValidRun(g, s, run)
            && var z := After(g, s, run);
            && Inv(g, z) && z.departed == s.departed
            && (z.tables(l.dst), 0) == Post(s.tables(l.dst), IdOf(s.tables(l.dst), key), data)
            && Queued(z.tables(l.dst), key) == Queued(s.tables(l.dst), key) + [data]
            && z.commanded(l) == s.commanded(l) + [Entry(key, data)]
            && l !in z.unacked && z.sem(l) == 1 && z.tasks(t).Idle? && z.handlers(l.dst).Quiet?
  {
    var send, receive := SendRun(t, l, id, data, serial), ReceiveRun(l, |data|);
    assert LinkOk(s, l) && SmallKeys(s.tables(l.dst));
    SendCompletes(g, s, t, l, id, data, serial);
    RunKeeps(g, s, send);
    var s1 := After(g, s, send);
    assert InFlight(s1, l)[0] == Entry(s.tables(l.src).queues[id].key, data);
    StalledCommandRecovers(g, s1, l);
    RunConcat(g, s, send, receive);
    ArrivedUnderKey(s.tables(l.dst), s.tables(l.src).queues[id].key, data);
  }

  lemma ArrivedUnderKey(r: Tables, key: UInt32, data: Msg)
    requires WellFormed(r) && Post(r, IdOf(r, key), data).1 == 0
    ensures Queued(Post(r, IdOf(r, key), data).0, key) == Queued(r, key) + [data]
  {
    assert ToUInt32(key) == key;
    PostQueued(r, IdOf(r, key), data, key);
  }

  // ---------- A pair that is stuck ----------

  /** In no state of the run does core `c` have a live queue with room under `key`. */
  ghost predicate NeverRoom(g: Layout, s: State, run: seq<Action>, c: Core, key: UInt32)
    requires ValidRun(g, s, run)
    decreases |run|
  {
    && !HasRoom(s.tables(c), key)
    && (run != [] ==> NeverRoom(g, Do(g, s, run[0]), run[1..], c, key))
  }

  lemma StuckStep(g: Layout, s: State, a: Action, l: Link)
    requires Inv(g, s) && Enabled(s, a) && l in s.unacked
    requires !HasRoom(s.tables(l.dst), InFlight(s, l)[0].key)
    ensures l in Do(g, s, a).unacked && Do(g, s, a).commanded(l) == s.commanded(l)
  {
    assert FlightOk(g, s, l);
    if a.HandleEnd? && a.core == l.dst && s.handlers(l.dst).src == l.src {
      PostOrStall(g, s, l.dst);
    }
  }

  lemma StuckNext(g: Layout, s: State, a: Action, l: Link)
    requires GoodLayout(g) && Inv(g, s) && Enabled(s, a) && l in s.unacked
    requires InFlight(s, l) != [] && !HasRoom(s.tables(l.dst), InFlight(s, l)[0].key)
    ensures var z := Do(g, s, a);
            Inv(g, z) && l in z.unacked && z.commanded(l) == s.commanded(l) && InFlight(z, l) == InFlight(s, l)
  {
    StuckStep(g, s, a, l);
    StepKeeps(g, s, a);
  }

  /**
   * While the queue of the command in flight has no room, the whole pair is blocked: over any run no
   * further command is triggered on it, under whatever key.
   */
  lemma {:induction false} StuckPairBlocksAllKeys(g: Layout, s: State, run: seq<Action>, l: Link)
    requires GoodLayout(g) && Inv(g, s) && l in s.unacked && ValidRun(g, s, run)
    requires InFlight(s, l) != [] && NeverRoom(g, s, run, l.dst, InFlight(s, l)[0].key)
    ensures l in After(g, s, run).unacked && After(g, s, run).commanded(l) == s.commanded(l)
    decreases |run|
  {
    if run != [] {
      StuckNext(g, s, run[0], l);
      StuckPairBlocksAllKeys(g, Do(g, s, run[0]), run[1..], l);
    }
  }
}
