/** What the wait for the previous acknowledgement is for. */
module Guards {
  import opened Common
  import opened Registry
  import opened Mailbox
  import opened Transfer
  import opened Conservation
  import opened TransferInvariant
  import opened Progress

  /** The pair a task sends on. */
  function PairOf(task: Task): Link
    requires !task.Idle?
  {
    Link(task.core, task.dst)
  }

  // ---------- Triggering without the ack ----------

  /** Triggering a command keeps the conservation law of its pair exactly when the previous one is acknowledged. */
  lemma CommandNeedsAck(g: Layout, s: State, t: int, serial: UInt16)
    requires Inv(g, s) && s.tasks(t).Ready?
    ensures LinkLog(DoCommand(g, s, t, serial), PairOf(s.tasks(t))) <==> PairOf(s.tasks(t)) !in s.unacked
  {
    var l := PairOf(s.tasks(t));
    var s' := DoCommand(g, s, t, serial);
    assert LinkLog(s, l);
    if l in s.unacked {
      assert FlightOk(g, s, l);
      var logged := FromSrc(s.posted(l.dst), l.src);
      assert |s'.commanded(l)| == |logged| + 2;
      assert |logged + InFlight(s', l)| == |logged| + 1;
    }
  }

  /** On pair `l`, all but `k` commands have been posted or are in flight. */
  ghost predicate MissingOnly(z: State, l: Link, k: int) {
    && |z.commanded(l)| == |FromSrc(z.posted(l.dst), l.src)| + |InFlight(z, l)| + k
    && (l in z.unacked ==> z.commanded(l) != [])
    && (z.handlers(l.dst).Reading? && z.handlers(l.dst).src == l.src ==> l in z.unacked)
  }

  lemma MissingStep(g: Layout, z: State, a: Action, l: Link, k: int)
    requires MissingOnly(z, l, k) && Enabled(z, a)
    ensures MissingOnly(Do(g, z, a), l, k)
  {
    if a.HandleEnd? && a.core == l.dst {
      var h := z.handlers(l.dst);
      AppendArrival(z.posted(l.dst), Arrival(h.src, Entry(h.cmd.opcode, h.got)), l.src, 0);
    }
  }

  lemma {:induction false} MissingRun(g: Layout, z: State, run: seq<Action>, l: Link, k: int)
    requires MissingOnly(z, l, k) && ValidRun(g, z, run)
    ensures MissingOnly(After(g, z, run), l, k)
    decreases |run|
  {
    if run != [] {
      MissingStep(g, z, run[0], l, k);
      MissingRun(g, Do(g, z, run[0]), run[1..], l, k);
    }
  }

  /**
   * A command triggered over an unacknowledged one costs exactly one message, whatever the receiver was
   * doing: over every continuation one command of the pair is missing for good, and none otherwise.
   */
  lemma UnackedCommandCostsOne(g: Layout, s: State, t: int, serial: UInt16, run: seq<Action>)
    requires Inv(g, s) && s.tasks(t).Ready? && ValidRun(g, DoCommand(g, s, t, serial), run)
    ensures var l := PairOf(s.tasks(t));
            var z := After(g, DoCommand(g, s, t, serial), run);
            |z.commanded(l)| == |FromSrc(z.posted(l.dst), l.src)| + |InFlight(z, l)| + (if l in s.unacked then 1 else 0)
  {
    var l := PairOf(s.tasks(t));
    assert LinkLog(s, l) && HandlerOk(s, l.dst);
    assert l in s.unacked ==> FlightOk(g, s, l);
    MissingRun(g, DoCommand(g, s, t, serial), run, l, if l in s.unacked then 1 else 0);
  }

  /** A log without its entry `n`. */
  function Without(log: seq<Entry>, n: nat): seq<Entry>
    requires n < |log|
  {
    log[..n] + log[n + 1..]
  }

  /** The same state, but on pair `l` the history of `z` knows one more command, at position `n`, and it is not in flight. */
  ghost predicate Forgets(z: State, y: State, l: Link, n: nat) {
    && z == y.(commanded := z.commanded)
    && (forall m: Link :: m != l ==> z.commanded(m) == y.commanded(m))
    && n <= |y.commanded(l)| && |z.commanded(l)| == |y.commanded(l)| + 1
    && y.commanded(l) == Without(z.commanded(l), n)
    && (n == |y.commanded(l)| ==> l !in z.unacked)
  }

  lemma ForgetsStep(g: Layout, z: State, y: State, a: Action, l: Link, n: nat)
    requires Forgets(z, y, l, n) && Enabled(z, a)
    ensures Enabled(y, a) && Forgets(Do(g, z, a), Do(g, y, a), l, n)
    ensures Do(g, z, a).commanded(l)[n] == z.commanded(l)[n]
  {
    if a.Command? && PairOf(z.tasks(a.t)) == l {
      var e := Entry(z.tasks(a.t).key, z.tasks(a.t).data);
      assert Without(z.commanded(l) + [e], n) == Without(z.commanded(l), n) + [e];
    }
  }

  lemma {:induction false} ForgetsRun(g: Layout, z: State, y: State, run: seq<Action>, l: Link, n: nat)
    requires Forgets(z, y, l, n) && ValidRun(g, z, run)
    ensures ValidRun(g, y, run) && Forgets(After(g, z, run), After(g, y, run), l, n)
    ensures After(g, z, run).commanded(l)[n] == z.commanded(l)[n]
    decreases |run|
  {
    if run != [] {
      ForgetsStep(g, z, y, run[0], l, n);
      ForgetsRun(g, Do(g, z, run[0]), Do(g, y, run[0]), run[1..], l, n);
    }
  }

  /** The state in which the command in flight on a pair was never given. */
  function NeverGiven(s: State, l: Link): State
    requires s.commanded(l) != []
  {
    s.(unacked := s.unacked - {l},
       commanded := Upd<Link, seq<Entry>>(s.commanded, l, s.commanded(l)[..|s.commanded(l)| - 1]))
  }

  lemma NeverGivenTasks(s: State, l: Link)
    requires TasksOk(s) && LinksOk(s) && s.commanded(l) != []
    ensures TasksOk(NeverGiven(s, l)) && LinksOk(NeverGiven(s, l))
  {
    var y := NeverGiven(s, l);
    forall u: int ensures TaskOk(y, u) { assert TaskOk(s, u); }
    forall m: Link ensures LinkOk(y, m) { assert LinkOk(s, m); }
  }

  lemma NeverGivenFlights(g: Layout, s: State, l: Link)
    requires FlightsOk(g, s) && s.commanded(l) != []
    ensures FlightsOk(g, NeverGiven(s, l))
  {
    var y := NeverGiven(s, l);
    forall m | m in y.unacked ensures FlightOk(g, y, m) { assert FlightOk(g, s, m); }
  }

  lemma NeverGivenHandlers(s: State, l: Link)
    requires HandlersOk(s) && s.handlers(l.dst).Quiet? && s.commanded(l) != []
    ensures HandlersOk(NeverGiven(s, l))
  {
    var y := NeverGiven(s, l);
    forall c: Core ensures HandlerOk(y, c) { assert HandlerOk(s, c); }
  }

  lemma NeverGivenLogs(s: State, l: Link)
    requires LinkLogs(s) && KeyLogs(s) && l in s.unacked && s.commanded(l) != []
    ensures LinkLogs(NeverGiven(s, l)) && KeyLogs(NeverGiven(s, l))
  {
    var y := NeverGiven(s, l);
    forall m: Link ensures LinkLog(y, m) { assert LinkLog(s, m); }
    forall c: Core, key: UInt32 ensures KeyLog(y, c, key) { assert KeyLog(s, c, key); }
  }

  lemma NeverGivenInv(g: Layout, s: State, l: Link)
    requires Inv(g, s) && l in s.unacked && s.handlers(l.dst).Quiet? && s.commanded(l) != []
    ensures Inv(g, NeverGiven(s, l))
  {
    NeverGivenTasks(s, l);
    NeverGivenFlights(g, s, l);
    NeverGivenHandlers(s, l);
    NeverGivenLogs(s, l);
    assert MemOk(NeverGiven(s, l)) && TablesOk(NeverGiven(s, l));
  }

  lemma CommandForgets(g: Layout, s: State, t: int, serial: UInt16)
    requires s.tasks(t).Ready? && PairOf(s.tasks(t)) in s.unacked && s.commanded(PairOf(s.tasks(t))) != []
    ensures var l := PairOf(s.tasks(t));
            Forgets(DoCommand(g, s, t, serial), DoCommand(g, NeverGiven(s, l), t, serial), l, |s.commanded(l)| - 1)
  {
    var l := PairOf(s.tasks(t));
    var s1, y1 := DoCommand(g, s, t, serial), DoCommand(g, NeverGiven(s, l), t, serial);
    assert s1.unacked == y1.unacked;
    var n := |s.commanded(l)| - 1;
    assert Without(s1.commanded(l), n) == s.commanded(l)[..n] + [Entry(s.tasks(t).key, s.tasks(t).data)];
  }

  /** The history without the forgotten entry is the one the law is kept for. */
  lemma ForgottenForGood(g: Layout, s1: State, y1: State, run: seq<Action>, l: Link, n: nat)
    requires GoodLayout(g) && Inv(g, y1) && Forgets(s1, y1, l, n) && ValidRun(g, s1, run)
    ensures var z := After(g, s1, run);
            && n < |z.commanded(l)| && z.commanded(l)[n] == s1.commanded(l)[n]
            && FromSrc(z.posted(l.dst), l.src) + InFlight(z, l) == Without(z.commanded(l), n)
  {
    ForgetsRun(g, s1, y1, run, l, n);
    RunKeeps(g, y1, run);
    assert LinkLog(After(g, y1, run), l);
    var z, y := After(g, s1, run), After(g, y1, run);
    assert InFlight(z, l) == InFlight(y, l);
  }

  /**
   * Which one it is depends on the receiver. A command nobody has begun to read is wiped out for good:
   * over every continuation what is posted and in flight is what was commanded without that entry.
   */
  lemma OverwrittenIsLost(g: Layout, s: State, t: int, serial: UInt16, run: seq<Action>)
    requires GoodLayout(g) && Inv(g, s) && s.tasks(t).Ready? && PairOf(s.tasks(t)) in s.unacked
    requires s.handlers(s.tasks(t).dst).Quiet?
    requires ValidRun(g, DoCommand(g, s, t, serial), run)
    ensures var l := PairOf(s.tasks(t));
            var z := After(g, DoCommand(g, s, t, serial), run);
            var n := |s.commanded(l)| - 1;
            && 0 <= n < |z.commanded(l)| && [z.commanded(l)[n]] == InFlight(s, l)
            && FromSrc(z.posted(l.dst), l.src) + InFlight(z, l) == Without(z.commanded(l), n)
  {
    var l := PairOf(s.tasks(t));
    assert FlightOk(g, s, l);
    NeverGivenInv(g, s, l);
    CommandStep(g, NeverGiven(s, l), t, serial);
    CommandForgets(g, s, t, serial);
    ForgottenForGood(g, DoCommand(g, s, t, serial), DoCommand(g, NeverGiven(s, l), t, serial), run, l, |s.commanded(l)| - 1);
  }

  /**
   * If the receiver has read the earlier command, its acknowledgement counts for the new one too: the
   * earlier one is posted, and the new one is missing over every continuation.
   */
  lemma NewCommandIsLost(g: Layout, s: State, t: int, serial: UInt16, run: seq<Action>)
    requires GoodLayout(g) && Inv(g, s) && s.tasks(t).Ready?
    requires Enabled(s, HandleEnd(s.tasks(t).dst)) && s.handlers(s.tasks(t).dst).src == s.tasks(t).core
    requires HasRoom(s.tables(s.tasks(t).dst), s.handlers(s.tasks(t).dst).cmd.opcode)
    requires ValidRun(g, DoHandleEnd(DoCommand(g, s, t, serial), s.tasks(t).dst), run)
    ensures var l := PairOf(s.tasks(t));
            var s2 := DoHandleEnd(DoCommand(g, s, t, serial), l.dst);
            var z := After(g, s2, run);
            var n := |s.commanded(l)|;
            && l !in s2.unacked && FromSrc(s2.posted(l.dst), l.src) == s.commanded(l)
            && n < |z.commanded(l)| && z.commanded(l)[n] == Entry(s.tasks(t).key, s.tasks(t).data)
            && FromSrc(z.posted(l.dst), l.src) + InFlight(z, l) == Without(z.commanded(l), n)
  {
    var l := PairOf(s.tasks(t));
    PostOrStall(g, s, l.dst);
    HandleEndStep(g, s, l.dst);
    var y0 := DoHandleEnd(s, l.dst);
    assert LinkLog(y0, l);
    CommandStep(g, y0, t, serial);
    var y1 := DoCommand(g, y0, t, serial);
    NeverGivenInv(g, y1, l);
    AckedEarly(g, s, t, serial);
    ForgottenForGood(g, DoHandleEnd(DoCommand(g, s, t, serial), l.dst), NeverGiven(y1, l), run, l, |s.commanded(l)|);
  }

  /** Acknowledging after the new command leaves what acknowledging before it would, but for the new command in flight. */
  lemma AckedEarly(g: Layout, s: State, t: int, serial: UInt16)
    requires s.tasks(t).Ready? && s.handlers(s.tasks(t).dst).Reading? && s.handlers(s.tasks(t).dst).src == s.tasks(t).core
    requires var h := s.handlers(s.tasks(t).dst);
             Post(s.tables(s.tasks(t).dst), h.id, h.got).1 == 0
    ensures var l := PairOf(s.tasks(t));
            var s2 := DoHandleEnd(DoCommand(g, s, t, serial), l.dst);
            var y1 := DoCommand(g, DoHandleEnd(s, l.dst), t, serial);
            && s2.posted == DoHandleEnd(s, l.dst).posted && l !in s2.unacked
            && s2.commanded(l) == s.commanded(l) + [Entry(s.tasks(t).key, s.tasks(t).data)]
            && y1.commanded(l) != [] && Forgets(s2, NeverGiven(y1, l), l, |s.commanded(l)|)
  {
    var l := PairOf(s.tasks(t));
    var s2 := DoHandleEnd(DoCommand(g, s, t, serial), l.dst);
    var y := NeverGiven(DoCommand(g, DoHandleEnd(s, l.dst), t, serial), l);
    assert s2.unacked == y.unacked;
    assert y.commanded(l) == s.commanded(l);
    assert Without(s2.commanded(l), |s.commanded(l)|) == s.commanded(l);
  }

  /** A task that fills a half replaces the whole payload a command naming that half points to. */
  lemma FillingReplaces(g: Layout, s: State, t: int, l: Link)
    requires GoodLayout(g) && MemOk(s) && s.tasks(t).Copying? && s.tasks(t).done == 0 && PairOf(s.tasks(t)) == l
    requires s.tasks(t).half < 2 && |s.tasks(t).data| <= IPC_MSG_ELEMENT_SIZE
    ensures var task := s.tasks(t);
            var run := Copies(t, |Image(l.dst, task.data)|);
            && ValidRun(g, s, run)
            && var z := After(g, s, run);
            && z.handlers == s.handlers && z.words == s.words
            && forall i: nat :: i < |task.data| ==>
                 ReadPayload(g, z.mem, l.dst, DataAddr(g, l, task.half), i) == task.data[i]
  {
    var task := s.tasks(t);
    HalvesApart(l.dst, task.half, l.dst, task.half);
    assert |s.mem(l.src)| == REGION_SIZE;
    FillHalf(g, s, t);
    var z := After(g, s, Copies(t, |Image(l.dst, task.data)|));
    forall c: Core ensures |z.mem(c)| == REGION_SIZE { assert |s.mem(c)| == REGION_SIZE; }
    FilledHolds(s.mem(l.src), l.dst, task.half, task.data);
    HeldPayload(g, z.mem, l, task.half, task.data);
  }

  /**
   * Without the wait for the ack the half a handler is still reading is handed to the next sender, and
   * once that sender has filled it the handler reads its message in place of the one announced.
   */
  lemma WithoutWaitTheHalfIsReused(g: Layout, s: State, t: int, u: int, serial: UInt16)
    requires GoodLayout(g) && Inv(g, s)
    requires s.tasks(t).Ready? && s.tasks(u).Waiting? && PairOf(s.tasks(u)) == PairOf(s.tasks(t))
    requires var h := s.handlers(s.tasks(t).dst);
             h.Reading? && h.src == s.tasks(t).core
    ensures var l := PairOf(s.tasks(t));
            var third := s.tasks(u).data;
            var s1 := DoRelease(DoCommand(g, s, t, serial), t);
            var run := [Acquire(u)] + Copies(u, |Image(l.dst, third)|);
            && ValidRun(g, s1, run)
            && var z := After(g, s1, run);
            && z.handlers(l.dst) == s.handlers(l.dst)
            && forall i: nat :: i < |third| ==> ReadPayload(g, z.mem, l.dst, s.handlers(l.dst).cmd.addr, i) == third[i]
  {
    var l := PairOf(s.tasks(t));
    assert HandlerOk(s, l.dst) && FlightOk(g, s, l) && TaskOk(s, u);
    NextGetsOldHalf(g, s, t, u, serial);
    var s1 := DoRelease(DoCommand(g, s, t, serial), t);
    RunOne(g, s1, Acquire(u));
    FillingReplaces(g, DoAcquire(s1, u), u, l);
    RunConcat(g, s1, [Acquire(u)], Copies(u, |Image(l.dst, s.tasks(u).data)|));
  }

  /** After the release the next sender of the pair gets the half used before the last. */
  lemma NextGetsOldHalf(g: Layout, s: State, t: int, u: int, serial: UInt16)
    requires TasksOk(s) && MemOk(s) && s.tasks(t).Ready? && s.tasks(u).Waiting? && PairOf(s.tasks(u)) == PairOf(s.tasks(t))
    ensures var l := PairOf(s.tasks(t));
            var s1 := DoRelease(DoCommand(g, s, t, serial), t);
            && Enabled(s1, Acquire(u)) && s.lastHalf(l) < 2
            && var s2 := DoAcquire(s1, u);
            && s2.tasks(u) == Copying(l.src, s.tasks(u).id, l.dst, s.tasks(u).data, s.lastHalf(l), 0)
            && s2.mem == s.mem && s2.handlers == s.handlers && MemOk(s2)
  {
    assert TaskOk(s, t) && TaskOk(s, u);
    var s2 := DoAcquire(DoRelease(DoCommand(g, s, t, serial), t), u);
    forall c: Core ensures |s2.mem(c)| == REGION_SIZE { assert |s.mem(c)| == REGION_SIZE; }
  }

  /** The handler begins to read a command whose key has a queue. */
  lemma BeginsReading(g: Layout, s: State, l: Link)
    requires Inv(g, s) && l in s.unacked && s.handlers(l.dst).Quiet?
    requires InFlight(s, l) != [] && HasRoom(s.tables(l.dst), InFlight(s, l)[0].key)
    ensures Enabled(s, HandleBegin(l.src, l.dst))
    ensures var z := Do(g, s, HandleBegin(l.src, l.dst));
            && Inv(g, z) && z == s.(handlers := z.handlers)
            && z.handlers(l.dst).Reading? && z.handlers(l.dst).src == l.src
  {
    assert FlightOk(g, s, l) && SmallKeys(s.tables(l.dst));
    RoomFound(s.tables(l.dst), InFlight(s, l)[0].key);
    FindsQueue(g, s, l);
    HandleBeginStep(g, s, l.src, l.dst);
  }

  /** A first message has been sent, and its receiver has begun to read it. */
  lemma FirstBeingRead(g: Layout, s: State, t: int, l: Link, id: nat, data: Msg, serial: UInt16)
    requires GoodLayout(g) && Inv(g, s) && l.src != l.dst
    requires Enabled(s, Begin(t, l.src, id, l.dst, data)) && s.sem(l) == 1 && l !in s.unacked
    requires s.handlers(l.dst).Quiet? && HasRoom(s.tables(l.dst), s.tables(l.src).queues[id].key)
    ensures var run := SendRun(t, l, id, data, serial) + [HandleBegin(l.src, l.dst)];
            && ValidRun(g, s, run)
            && var z := After(g, s, run);
            && Inv(g, z) && z.tables == s.tables && z.sem(l) == 1 && l in z.unacked
            && z.tasks(t).Idle? && (forall u: int :: u != t ==> z.tasks(u) == s.tasks(u))
            && z.handlers(l.dst).Reading? && z.handlers(l.dst).src == l.src
  {
    var send := SendRun(t, l, id, data, serial);
    assert LinkOk(s, l);
    SendCompletes(g, s, t, l, id, data, serial);
    RunKeeps(g, s, send);
    BeginsReading(g, After(g, s, send), l);
    RunThen(g, s, send, HandleBegin(l.src, l.dst));
  }

  /** Such a crowded state is reached by sending three messages. */
  lemma CrowdedStateReachable(g: Layout, s: State, t: int, u: int, l: Link, id: nat, data: seq<Msg>, serial: UInt16)
    requires GoodLayout(g) && Inv(g, s) && l.src != l.dst && t != u && |data| == 3
    requires forall k :: 0 <= k < 3 ==> |data[k]| <= IPC_MSG_ELEMENT_SIZE
    requires s.tasks(t).Idle? && s.tasks(u).Idle? && s.sem(l) == 1 && l !in s.unacked
    requires id < |s.tables(l.src).queues| && s.tables(l.src).queues[id].live
    requires s.handlers(l.dst).Quiet? && HasRoom(s.tables(l.dst), s.tables(l.src).queues[id].key)
    ensures var run := CrowdRun(t, u, l, id, data, serial);
            && ValidRun(g, s, run)
            && var z := After(g, s, run);
            && Inv(g, z) && z.tasks(t).Ready? && z.tasks(u).Waiting?
            && PairOf(z.tasks(t)) == l == PairOf(z.tasks(u))
            && z.handlers(l.dst).Reading? && z.handlers(l.dst).src == l.src
  {
    var first, fill := SendRun(t, l, id, data[0], serial) + [HandleBegin(l.src, l.dst)], FillRun(t, l, id, data[1]);
    FirstBeingRead(g, s, t, l, id, data[0], serial);
    var s2 := After(g, s, first);
    assert LinkOk(s2, l);
    FillCompletes(g, s2, t, l, id, data[1]);
    RunConcat(g, s, first, fill);
    RunThen(g, s, first + fill, Begin(u, l.src, id, l.dst, data[2]));
    RunKeeps(g, s, CrowdRun(t, u, l, id, data, serial));
  }

  function CrowdRun(t: int, u: int, l: Link, id: nat, data: seq<Msg>, serial: UInt16): seq<Action>
    requires |data| == 3
  {
    SendRun(t, l, id, data[0], serial) + [HandleBegin(l.src, l.dst)] + FillRun(t, l, id, data[1])
    + [Begin(u, l.src, id, l.dst, data[2])]
  }
}
