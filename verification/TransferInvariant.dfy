/** What every step of the transfer keeps. */
module TransferInvariant {
  import opened Common
  import opened Registry
  import opened Mailbox
  import opened SendBuffer
  import opened Transfer
  import opened Conservation

  // ---------- The two conservation laws ----------

  /** The command of a pair that has no ack yet, if any. */
  function InFlight(s: State, l: Link): seq<Entry> {
    var log := s.commanded(l);
    if l in s.unacked && log != [] then [log[|log| - 1]] else []
  }

  /** Everything commanded on a pair has been posted at the receiver, in order, or is in flight. */
  ghost predicate LinkLog(s: State, l: Link) {
    s.commanded(l) == FromSrc(s.posted(l.dst), l.src) + InFlight(s, l)
  }

  /** Everything posted under a key has left its queue, in order, or still waits in it. */
  ghost predicate KeyLog(s: State, c: Core, key: UInt32) {
    UnderKey(s.posted(c), key) == GoneUnder(s.departed(c), key) + Queued(s.tables(c), key)
  }

  // ---------- What holds between steps ----------

  ghost predicate HoldsAt(bytes: seq<Byte>, off: nat, data: seq<Byte>) {
    off + |data| <= |bytes| && bytes[off..off + |data|] == data
  }

  /** The pair on which a task is at work between taking and releasing the semaphore. */
  function HeldBy(task: Task): Option<Link> {
    match task
    case Copying(core, _, dst, _, _, _) => Some(Link(core, dst))
    case Ready(core, dst, _, _, _) => Some(Link(core, dst))
    case Sent(core, dst) => Some(Link(core, dst))
    case _ => None
  }

  ghost predicate SmallKeyAt(r: Tables, id: nat) {
    id < |r.queues| && r.queues[id].key < TWO_16
  }

  /** Well formed, and every live key fits the opcode field of a command. */
  ghost predicate SmallKeys(r: Tables) {
    WellFormed(r) && forall id :: ValidId(r, id) ==> SmallKeyAt(r, id)
  }

  /** A task filling half `half` of a pair: the other half is the one used last. */
  ghost predicate Owns(s: State, l: Link, half: nat) {
    half < 2 && s.next(l) == 1 - half && s.lastHalf(l) == 1 - half
  }

  /** What a task relies on. */
  ghost predicate TaskData(s: State, task: Task) {
    match task
    case Idle => true
    case Waiting(core, id, dst, data) => |data| <= IPC_MSG_ELEMENT_SIZE && SmallKeyAt(s.tables(core), id)
    case Copying(core, id, dst, data, half, done) =>
      && |data| <= IPC_MSG_ELEMENT_SIZE && SmallKeyAt(s.tables(core), id)
      && Owns(s, Link(core, dst), half)
      && done <= |Image(dst, data)| && HoldsAt(s.mem(core), HalfStart(dst, half), Image(dst, data)[..done])
    case Ready(core, dst, data, half, key) =>
      && |data| <= IPC_MSG_ELEMENT_SIZE && key < TWO_16 && core != dst
      && Owns(s, Link(core, dst), half)
      && HoldsAt(s.mem(core), HalfStart(dst, half), Image(dst, data))
    case Sent(core, dst) => s.lastHalf(Link(core, dst)) == 1 - s.next(Link(core, dst))
  }

  /** A task at work on a pair is the one that took its semaphore, and the semaphore is still taken. */
  ghost predicate TaskOk(s: State, t: int) {
    && TaskData(s, s.tasks(t))
    && (HeldBy(s.tasks(t)).Some? ==>
          s.owner(HeldBy(s.tasks(t)).value) == t && s.sem(HeldBy(s.tasks(t)).value) == 0)
  }

  ghost predicate TasksOk(s: State) {
    forall t: int :: TaskOk(s, t)
  }

  /** The semaphore of a pair is free, or it is taken and its owner is at work on the pair. */
  ghost predicate LinkOk(s: State, l: Link) {
    && s.next(l) < 2 && s.lastHalf(l) < 2
    && (s.sem(l) == 0 || s.sem(l) == 1)
    && (s.sem(l) == 1 ==> s.lastHalf(l) == 1 - s.next(l))
    && (s.sem(l) == 0 ==> HeldBy(s.tasks(s.owner(l))) == Some(l))
  }

  ghost predicate LinksOk(s: State) {
    forall l: Link :: LinkOk(s, l)
  }

  /** The registers and the half used last still hold the unacknowledged command, byte for byte. */
  ghost predicate FlightOk(g: Layout, s: State, l: Link) {
    && l.src != l.dst && s.commanded(l) != []
    && var e := s.commanded(l)[|s.commanded(l)| - 1];
    && e.key < TWO_16 && |e.data| <= IPC_MSG_ELEMENT_SIZE && s.lastHalf(l) < 2
    && TakeCmd(s.words, l) == Cmd(e.key, DataAddr(g, l, s.lastHalf(l)), |e.data|)
    && HoldsAt(s.mem(l.src), HalfStart(l.dst, s.lastHalf(l)), Image(l.dst, e.data))
  }

  ghost predicate FlightsOk(g: Layout, s: State) {
    forall l :: l in s.unacked ==> FlightOk(g, s, l)
  }

  /** A handler at work reads an unacknowledged command, and what it has read is right so far. */
  ghost predicate HandlerOk(s: State, c: Core) {
    match s.handlers(c)
    case Quiet => true
    case Reading(src, id, cmd, got) =>
      var l := Link(src, c);
      && l in s.unacked && l.src != l.dst && s.commanded(l) != []
      && var e := s.commanded(l)[|s.commanded(l)| - 1];
      && cmd == TakeCmd(s.words, l)
      && |got| <= |e.data| && got == e.data[..|got|]
      && ValidId(s.tables(c), id) && s.tables(c).queues[id].key == cmd.opcode
  }

  ghost predicate HandlersOk(s: State) {
    forall c: Core :: HandlerOk(s, c)
  }

  ghost predicate TablesOk(s: State) {
    forall c: Core :: SmallKeys(s.tables(c))
  }

  ghost predicate MemOk(s: State) {
    forall c: Core :: |s.mem(c)| == REGION_SIZE
  }

  ghost predicate LinkLogs(s: State) {
    forall l: Link :: LinkLog(s, l)
  }

  ghost predicate KeyLogs(s: State) {
    forall c: Core, key: UInt32 :: KeyLog(s, c, key)
  }

  ghost predicate Inv(g: Layout, s: State) {
    && TasksOk(s) && LinksOk(s) && MemOk(s)
    && FlightsOk(g, s) && HandlersOk(s) && TablesOk(s)
    && LinkLogs(s) && KeyLogs(s)
  }

  /** At most one task is at work on a pair. */
  ghost predicate Exclusive(s: State) {
    forall t: int, u: int :: HeldBy(s.tasks(t)) != None && HeldBy(s.tasks(t)) == HeldBy(s.tasks(u)) ==> t == u
  }

  lemma OwnersExclude(s: State)
    requires TasksOk(s)
    ensures Exclusive(s)
  {
    forall t: int, u: int | HeldBy(s.tasks(t)) != None && HeldBy(s.tasks(t)) == HeldBy(s.tasks(u)) ensures t == u {
      assert TaskOk(s, t) && TaskOk(s, u);
    }
  }

  lemma InitHolds(g: Layout, s: State)
    requires Init(s)
    ensures Inv(g, s)
  {
    forall c: Core ensures SmallKeys(s.tables(c)) { }
    forall c: Core, key: UInt32 ensures KeyLog(s, c, key) { }
  }

  // ---------- Frames ----------

  lemma FlightsFrame(g: Layout, s: State, s': State)
    requires FlightsOk(g, s) && s'.unacked <= s.unacked
    requires s'.words == s.words && s'.commanded == s.commanded && s'.mem == s.mem
    requires forall l :: l in s'.unacked ==> s'.lastHalf(l) == s.lastHalf(l)
    ensures FlightsOk(g, s')
  {
    forall l | l in s'.unacked ensures FlightOk(g, s', l) { FlightFrame(g, s, s', l); }
  }

  lemma FlightFrame(g: Layout, s: State, s': State, l: Link)
    requires FlightOk(g, s, l)
    requires s'.words == s.words && s'.commanded == s.commanded && s'.mem == s.mem && s'.lastHalf(l) == s.lastHalf(l)
    ensures FlightOk(g, s', l)
  {
  }

  lemma HandlersFrame(s: State, s': State)
    requires HandlersOk(s)
    requires s'.handlers == s.handlers && s'.unacked == s.unacked && s'.words == s.words
    requires s'.commanded == s.commanded && s'.tables == s.tables
    ensures HandlersOk(s')
  {
    forall c: Core ensures HandlerOk(s', c) { assert HandlerOk(s, c); }
  }

  lemma LogsFrame(s: State, s': State)
    requires LinkLogs(s) && KeyLogs(s)
    requires s'.commanded == s.commanded && s'.posted == s.posted && s'.unacked == s.unacked
    requires s'.departed == s.departed && s'.tables == s.tables
    ensures LinkLogs(s') && KeyLogs(s')
  {
    forall l: Link ensures LinkLog(s', l) { assert LinkLog(s, l); }
    forall c: Core, key: UInt32 ensures KeyLog(s', c, key) { assert KeyLog(s, c, key); }
  }

  /** A step of a sender that leaves memory, registers and the record of halves alone. */
  lemma SenderFrame(g: Layout, s: State, s': State)
    requires Inv(g, s)
    requires s' == s.(tasks := s'.tasks, sem := s'.sem, next := s'.next, owner := s'.owner)
    ensures FlightsOk(g, s') && HandlersOk(s') && TablesOk(s') && MemOk(s') && LinkLogs(s') && KeyLogs(s')
  {
    FlightsFrame(g, s, s');
    HandlersFrame(s, s');
    LogsFrame(s, s');
  }

  /** A step of a receiver leaves the senders' side in order, as long as small keys stay small. */
  lemma ReceiverFrame(g: Layout, s: State, s': State)
    requires TasksOk(s) && LinksOk(s) && MemOk(s) && FlightsOk(g, s)
    requires s' == s.(handlers := s'.handlers, tables := s'.tables, unacked := s'.unacked,
                      posted := s'.posted, departed := s'.departed)
    requires s'.unacked <= s.unacked
    requires forall c: Core, id: nat :: SmallKeyAt(s.tables(c), id) ==> SmallKeyAt(s'.tables(c), id)
    ensures TasksOk(s') && LinksOk(s') && MemOk(s') && FlightsOk(g, s')
  {
    forall t: int ensures TaskOk(s', t) { assert TaskOk(s, t); }
    forall l: Link ensures LinkOk(s', l) { assert LinkOk(s, l); }
    FlightsFrame(g, s, s');
  }

  // ---------- Steps of a sender ----------

  /** Different halves do not meet, and all lie inside the region. */
  lemma HalvesApart(dst: Core, h: nat, dst': Core, h': nat)
    requires h < 2 && h' < 2
    ensures HalfStart(dst, h) + SEND_MSG_SIZE <= REGION_SIZE
    ensures (dst, h) != (dst', h') ==>
              || HalfStart(dst, h) + SEND_MSG_SIZE <= HalfStart(dst', h')
              || HalfStart(dst', h') + SEND_MSG_SIZE <= HalfStart(dst, h)
  {
  }

  /** A step that changes one task and leaves the pair it is at work on, if any. */
  lemma TaskStep(g: Layout, s: State, s': State, t: int, task: Task)
    requires Inv(g, s)
    requires s' == s.(tasks := Upd(s.tasks, t, task))
    requires TaskData(s, task) && HeldBy(task) == HeldBy(s.tasks(t))
    ensures Inv(g, s')
  {
    forall u: int ensures TaskOk(s', u) { assert TaskOk(s, u) && TaskOk(s, t); }
    forall l: Link ensures LinkOk(s', l) { assert LinkOk(s, l); }
    SenderFrame(g, s, s');
  }

  lemma BeginStep(g: Layout, s: State, t: int, core: Core, id: nat, dst: Core, data: Msg)
    requires Inv(g, s) && Enabled(s, Begin(t, core, id, dst, data))
    ensures Inv(g, Do(g, s, Begin(t, core, id, dst, data)))
  {
    assert SmallKeys(s.tables(core)) && ValidId(s.tables(core), id);
    TaskStep(g, s, Do(g, s, Begin(t, core, id, dst, data)), t, Waiting(core, id, dst, data));
  }

  lemma AcquireTasks(s: State, t: int)
    requires TasksOk(s) && LinksOk(s) && MemOk(s) && Enabled(s, Acquire(t))
    ensures TasksOk(DoAcquire(s, t))
  {
    var task := s.tasks(t);
    var l := Link(task.core, task.dst);
    assert LinkOk(s, l) && TaskOk(s, t) && |s.mem(task.core)| == REGION_SIZE;
    HalvesApart(task.dst, s.next(l), task.dst, s.next(l));
    forall u: int ensures TaskOk(DoAcquire(s, t), u) { assert TaskOk(s, u); }
  }

  lemma AcquireLinks(s: State, t: int)
    requires LinksOk(s) && Enabled(s, Acquire(t))
    ensures LinksOk(DoAcquire(s, t))
  {
    var l := Link(s.tasks(t).core, s.tasks(t).dst);
    assert LinkOk(s, l);
    forall m: Link ensures LinkOk(DoAcquire(s, t), m) { assert LinkOk(s, m); }
  }

  lemma AcquireStep(g: Layout, s: State, t: int)
    requires Inv(g, s) && Enabled(s, Acquire(t))
    ensures Inv(g, Do(g, s, Acquire(t)))
  {
    AcquireTasks(s, t);
    AcquireLinks(s, t);
    SenderFrame(g, s, DoAcquire(s, t));
  }

  lemma StoreApart(bytes: seq<Byte>, at: nat, b: Byte, off: nat, data: seq<Byte>)
    requires HoldsAt(bytes, off, data) && !(off <= at < off + |data|)
    ensures HoldsAt(Store(bytes, at, b), off, data)
  {
    assert Store(bytes, at, b)[off..off + |data|] == bytes[off..off + |data|];
  }

  lemma StoreNext(bytes: seq<Byte>, off: nat, data: seq<Byte>, n: nat)
    requires n < |data| && off + |data| <= |bytes| && HoldsAt(bytes, off, data[..n])
    ensures HoldsAt(Store(bytes, off + n, data[n]), off, data[..n + 1])
  {
    var after := Store(bytes, off + n, data[n]);
    assert after[off..off + n] == bytes[off..off + n];
    assert after[off..off + n + 1] == after[off..off + n] + [data[n]];
    assert data[..n + 1] == data[..n] + [data[n]];
  }

  /** A byte a task stores lands in its own half, so what any other half holds stays. */
  lemma CopySpares(g: Layout, s: State, t: int, l: Link, half: nat, data: seq<Byte>)
    requires CopyGoesOn(s.tasks(t)) && TaskOk(s, t) && half < 2 && |data| <= SEND_MSG_SIZE
    requires (l, half) != (Link(s.tasks(t).core, s.tasks(t).dst), s.tasks(t).half)
    requires HoldsAt(s.mem(l.src), HalfStart(l.dst, half), data)
    ensures HoldsAt(Do(g, s, CopyByte(t)).mem(l.src), HalfStart(l.dst, half), data)
  {
    var task := s.tasks(t);
    if l.src == task.core {
      HalvesApart(task.dst, task.half, l.dst, half);
      StoreApart(s.mem(l.src), HalfStart(task.dst, task.half) + task.done, Image(task.dst, task.data)[task.done],
                 HalfStart(l.dst, half), data);
    }
  }

  lemma CopyByteOwn(g: Layout, s: State, t: int)
    requires CopyGoesOn(s.tasks(t)) && TaskOk(s, t) && MemOk(s)
    ensures TaskOk(Do(g, s, CopyByte(t)), t)
  {
    var task := s.tasks(t);
    HalvesApart(task.dst, task.half, task.dst, task.half);
    assert |s.mem(task.core)| == REGION_SIZE;
    StoreNext(s.mem(task.core), HalfStart(task.dst, task.half), Image(task.dst, task.data), task.done);
  }

  lemma CopyByteOther(g: Layout, s: State, t: int, u: int)
    requires CopyGoesOn(s.tasks(t)) && TaskOk(s, t) && TaskOk(s, u) && u != t
    ensures TaskOk(Do(g, s, CopyByte(t)), u)
  {
    match s.tasks(u)
    case Copying(core, id, dst, data, half, done) =>
      CopySpares(g, s, t, Link(core, dst), half, Image(dst, data)[..done]);
    case Ready(core, dst, data, half, key) =>
      CopySpares(g, s, t, Link(core, dst), half, Image(dst, data));
    case _ =>
  }

  lemma CopyByteFlight(g: Layout, s: State, t: int, l: Link)
    requires CopyGoesOn(s.tasks(t)) && TaskOk(s, t) && FlightOk(g, s, l)
    ensures FlightOk(g, Do(g, s, CopyByte(t)), l)
  {
    CopySpares(g, s, t, l, s.lastHalf(l), Image(l.dst, s.commanded(l)[|s.commanded(l)| - 1].data));
  }

  lemma CopyByteStep(g: Layout, s: State, t: int)
    requires Inv(g, s) && Enabled(s, CopyByte(t))
    ensures Inv(g, Do(g, s, CopyByte(t)))
  {
    var s' := Do(g, s, CopyByte(t));
    assert TaskOk(s, t);
    forall u: int ensures TaskOk(s', u) {
      assert TaskOk(s, u);
      if u == t { CopyByteOwn(g, s, t); } else { CopyByteOther(g, s, t, u); }
    }
    forall l: Link ensures LinkOk(s', l) { assert LinkOk(s, l); }
    forall l | l in s'.unacked ensures FlightOk(g, s', l) {
      assert FlightOk(g, s, l);
      CopyByteFlight(g, s, t, l);
    }
    HandlersFrame(s, s');
    LogsFrame(s, s');
  }

  lemma PrepareStep(g: Layout, s: State, t: int)
    requires Inv(g, s) && Enabled(s, Prepare(t))
    ensures Inv(g, Do(g, s, Prepare(t)))
  {
    var task := s.tasks(t);
    assert TaskOk(s, t);
    assert Image(task.dst, task.data)[..task.done] == Image(task.dst, task.data);
    TaskStep(g, s, Do(g, s, Prepare(t)), t,
             Ready(task.core, task.dst, task.data, task.half, KeyAt(s.tables(task.core), task.id)));
  }

  /** A step that frees the semaphore a task holds, once the half it used is recorded as the last one. */
  lemma FreeStep(g: Layout, s: State, s': State, t: int, l: Link)
    requires Inv(g, s) && HeldBy(s.tasks(t)) == Some(l)
    requires s' == s.(tasks := Upd(s.tasks, t, Idle), sem := Upd(s.sem, l, s.sem(l) + 1), lastHalf := s'.lastHalf)
    requires forall m: Link :: m != l ==> s'.lastHalf(m) == s.lastHalf(m)
    requires s'.lastHalf(l) == 1 - s.next(l)
    requires l in s.unacked ==> s'.lastHalf(l) == s.lastHalf(l)
    ensures Inv(g, s')
  {
    assert TaskOk(s, t);
    forall u: int ensures TaskOk(s', u) { assert TaskOk(s, u); }
    forall m: Link ensures LinkOk(s', m) { assert LinkOk(s, m); }
    FlightsFrame(g, s, s');
    HandlersFrame(s, s');
    LogsFrame(s, s');
  }

  lemma GiveUpStep(g: Layout, s: State, t: int)
    requires Inv(g, s) && Enabled(s, GiveUp(t))
    ensures Inv(g, Do(g, s, GiveUp(t)))
  {
    var l := Link(s.tasks(t).core, s.tasks(t).dst);
    assert TaskOk(s, t);
    assert l in s.unacked ==> FlightOk(g, s, l);
    FreeStep(g, s, Do(g, s, GiveUp(t)), t, l);
  }

  lemma ReleaseStep(g: Layout, s: State, t: int)
    requires Inv(g, s) && Enabled(s, Release(t))
    ensures Inv(g, Do(g, s, Release(t)))
  {
    assert TaskOk(s, t);
    FreeStep(g, s, Do(g, s, Release(t)), t, Link(s.tasks(t).core, s.tasks(t).dst));
  }

  lemma CommandTasks(g: Layout, s: State, t: int, serial: UInt16)
    requires TasksOk(s) && LinksOk(s) && Enabled(s, Command(t, serial))
    ensures TasksOk(Do(g, s, Command(t, serial))) && LinksOk(Do(g, s, Command(t, serial)))
  {
    var s' := Do(g, s, Command(t, serial));
    assert TaskOk(s, t);
    forall u: int ensures TaskOk(s', u) { assert TaskOk(s, u); }
    forall m: Link ensures LinkOk(s', m) { assert LinkOk(s, m); }
  }

  /** What a command does to the registers, seen by any pair. */
  lemma CommandWords(g: Layout, s: State, t: int, serial: UInt16, m: Link)
    requires s.tasks(t).Ready? && TaskOk(s, t) && m.src != m.dst
    ensures var task := s.tasks(t);
            var l := Link(task.core, task.dst);
            var words := DoCommand(g, s, t, serial).words;
            && TakeCmd(words, l) == Cmd(task.key, DataAddr(g, l, task.half), |task.data|)
            && (m != l ==> TakeCmd(words, m) == TakeCmd(s.words, m))
  {
    var task := s.tasks(t);
    var l := Link(task.core, task.dst);
    var cmd := Cmd(task.key, DataAddr(g, l, task.half), |task.data|);
    Unwrapped(|task.data|);
    ArrivesWhole(s.words, l, cmd, serial);
    PutThenTake(s.words, l, cmd, serial, m);
  }

  /** A command with a small key is read as it was written. */
  lemma ArrivesWhole(words: Words, l: Link, cmd: Cmd, serial: UInt16)
    requires l.src != l.dst && cmd.opcode < TWO_16
    ensures TakeCmd(PutCmd(words, l, cmd, serial), l) == cmd
  {
    PutThenTake(words, l, cmd, serial, l);
    assert cmd.opcode % TWO_16 == cmd.opcode;
  }

  lemma CommandFlightOwn(g: Layout, s: State, t: int, serial: UInt16)
    requires Enabled(s, Command(t, serial)) && TaskOk(s, t)
    ensures FlightOk(g, DoCommand(g, s, t, serial), Link(s.tasks(t).core, s.tasks(t).dst))
  {
    CommandWords(g, s, t, serial, Link(s.tasks(t).core, s.tasks(t).dst));
  }

  lemma CommandFlightOther(g: Layout, s: State, t: int, serial: UInt16, m: Link)
    requires Enabled(s, Command(t, serial)) && TaskOk(s, t)
    requires FlightOk(g, s, m) && m != Link(s.tasks(t).core, s.tasks(t).dst)
    ensures FlightOk(g, DoCommand(g, s, t, serial), m)
  {
    CommandWords(g, s, t, serial, m);
  }

  lemma CommandFlights(g: Layout, s: State, t: int, serial: UInt16)
    requires FlightsOk(g, s) && Enabled(s, Command(t, serial)) && TaskOk(s, t)
    ensures FlightsOk(g, DoCommand(g, s, t, serial))
  {
    CommandFlightOwn(g, s, t, serial);
    forall m | m in s.unacked && m != Link(s.tasks(t).core, s.tasks(t).dst) ensures FlightOk(g, DoCommand(g, s, t, serial), m) {
      CommandFlightOther(g, s, t, serial, m);
    }
  }

  lemma CommandHandlers(g: Layout, s: State, t: int, serial: UInt16)
    requires HandlersOk(s) && Enabled(s, Command(t, serial)) && TaskOk(s, t)
    ensures HandlersOk(Do(g, s, Command(t, serial)))
  {
    var s' := Do(g, s, Command(t, serial));
    forall c: Core ensures HandlerOk(s', c) {
      assert HandlerOk(s, c);
      if s.handlers(c).Reading? {
        CommandWords(g, s, t, serial, Link(s.handlers(c).src, c));
      }
    }
  }

  lemma CommandStep(g: Layout, s: State, t: int, serial: UInt16)
    requires Inv(g, s) && Enabled(s, Command(t, serial))
    ensures Inv(g, Do(g, s, Command(t, serial)))
  {
    var s' := Do(g, s, Command(t, serial));
    assert TaskOk(s, t);
    CommandTasks(g, s, t, serial);
    CommandFlights(g, s, t, serial);
    CommandHandlers(g, s, t, serial);
    forall m: Link ensures LinkLog(s', m) { assert LinkLog(s, m); }
    forall c: Core, key: UInt32 ensures KeyLog(s', c, key) { assert KeyLog(s, c, key); }
  }

  // ---------- Steps of a receiver ----------

  /** A step that changes only what one handler has in hand. */
  lemma HandlerStep(g: Layout, s: State, s': State, core: Core)
    requires Inv(g, s)
    requires s' == s.(handlers := s'.handlers)
    requires forall c: Core :: c != core ==> s'.handlers(c) == s.handlers(c)
    requires HandlerOk(s', core)
    ensures Inv(g, s')
  {
    ReceiverFrame(g, s, s');
    forall c: Core ensures HandlerOk(s', c) { assert HandlerOk(s, c); }
    LogsFrame(s, s');
  }

  lemma HandleBeginStep(g: Layout, s: State, src: Core, core: Core)
    requires Inv(g, s) && Enabled(s, HandleBegin(src, core))
    ensures Inv(g, Do(g, s, HandleBegin(src, core)))
  {
    assert HandlerOk(s, core);
    BeginsRight(g, s, src, core);
    HandlerStep(g, s, Do(g, s, HandleBegin(src, core)), core);
  }

  lemma BeginsRight(g: Layout, s: State, src: Core, core: Core)
    requires HandlerOk(s, core) && FlightsOk(g, s) && Enabled(s, HandleBegin(src, core))
    ensures HandlerOk(DoHandleBegin(s, src, core), core)
    ensures forall c: Core :: c != core ==> DoHandleBegin(s, src, core).handlers(c) == s.handlers(c)
  {
    var l := Link(src, core);
    assert FlightOk(g, s, l);
    FoundById(s.tables(core), TakeCmd(s.words, l).opcode);
    assert s.commanded(l)[|s.commanded(l)| - 1].data[..0] == [];
  }

  lemma FoundById(r: Tables, key: UInt32)
    ensures IdOf(r, key) >= 0 ==> ValidId(r, IdOf(r, key)) && r.queues[IdOf(r, key)].key == key
  {
    Unwrapped(key);
  }

  /** A physical address inside a region belongs to no other region. */
  lemma LoadOwn(g: Layout, mem: Memory, a: Core, off: nat)
    requires GoodLayout(g) && off < REGION_SIZE
    requires forall c: Core :: |mem(c)| == REGION_SIZE
    ensures g.dma(a) + off < TWO_32 && Load(g, mem, g.dma(a) + off) == mem(a)[off]
  {
    var p: UInt32 := g.dma(a) + off;
    forall c: Core | c != a ensures !InRegion(g, mem, c, p) { }
    assert InRegion(g, mem, a, p);
  }

  /** The address a handler loads from, for a payload at offset `off` of the sender's region. */
  lemma PayloadTarget(g: Layout, l: Link, off: nat, i: nat)
    requires g.dma(l.src) + off + i < TWO_32
    ensures var addr := GetPhyAddr(g.vir(l.src), g.dma(l.src), ToUInt32(g.vir(l.src) + off));
            var noncache := GetNoncacheAddr(g.phy(l.dst), g.nonCache(l.dst), addr);
            WindowTarget(g.phy(l.dst), g.nonCache(l.dst), ToUInt32(noncache + i)) == g.dma(l.src) + off + i
  {
    WindowLeadsBack(g.vir(l.src), g.dma(l.src), g.phy(l.dst), g.nonCache(l.dst), off, i);
    Unwrapped(g.dma(l.src) + off + i);
  }

  lemma PayloadLoad(g: Layout, mem: Memory, l: Link, h: nat, i: nat)
    requires g.dma(l.src) + DataOffset(l.dst, h) + i < TWO_32
    ensures ReadPayload(g, mem, l.dst, DataAddr(g, l, h), i) == Load(g, mem, g.dma(l.src) + DataOffset(l.dst, h) + i)
  {
    PayloadTarget(g, l, DataOffset(l.dst, h), i);
  }

  /** Through both translations and the window, the handler reads the byte the sender stored. */
  lemma PayloadByte(g: Layout, mem: Memory, l: Link, h: nat, i: nat)
    requires GoodLayout(g) && h < 2 && i < IPC_MSG_ELEMENT_SIZE
    requires forall c: Core :: |mem(c)| == REGION_SIZE
    ensures DataOffset(l.dst, h) + i < REGION_SIZE
    ensures ReadPayload(g, mem, l.dst, DataAddr(g, l, h), i) == mem(l.src)[DataOffset(l.dst, h) + i]
  {
    HalvesApart(l.dst, h, l.dst, h);
    LoadOwn(g, mem, l.src, DataOffset(l.dst, h) + i);
    PayloadLoad(g, mem, l, h, i);
  }

  /** The image of a message in a half shows its payload behind the destination word. */
  lemma ImagePayload(bytes: seq<Byte>, dst: Core, h: nat, data: Msg, i: nat)
    requires HoldsAt(bytes, HalfStart(dst, h), Image(dst, data)) && i < |data|
    ensures DataOffset(dst, h) + i < |bytes| && bytes[DataOffset(dst, h) + i] == data[i]
  {
    var off := HalfStart(dst, h);
    assert Image(dst, data)[4 + i] == data[i];
    assert bytes[off..off + |Image(dst, data)|][4 + i] == bytes[off + 4 + i];
  }

  /** The image of a message in a half starts with the number of its destination, as a little-endian word. */
  lemma ImageWord(bytes: seq<Byte>, dst: Core, h: nat, data: Msg)
    requires HoldsAt(bytes, HalfStart(dst, h), Image(dst, data))
    ensures var at := HalfStart(dst, h);
            && at + 4 <= |bytes|
            && var b0: int, b1: int, b2: int, b3: int := bytes[at], bytes[at + 1], bytes[at + 2], bytes[at + 3];
               b0 + 0x100 * b1 + 0x1_0000 * b2 + 0x100_0000 * b3 == DestIndex(dst) + 1
  {
    var at, w := HalfStart(dst, h), SendToWord(DestIndex(dst) + 1);
    forall k | 0 <= k < 4 ensures bytes[at + k] == w[k] {
      assert bytes[at..at + |Image(dst, data)|][k] == bytes[at + k];
      assert Image(dst, data)[k] == w[k];
    }
  }

  lemma FilledHolds(before: seq<Byte>, dst: Core, half: nat, data: Msg)
    requires HalfStart(dst, half) + |Image(dst, data)| <= |before|
    ensures HoldsAt(Filled(before, dst, half, data), HalfStart(dst, half), Image(dst, data))
  {
  }

  /** A payload held in a half is what the receiver reads at the address of that half. */
  lemma HeldPayload(g: Layout, mem: Memory, l: Link, half: nat, data: Msg)
    requires GoodLayout(g) && half < 2 && |data| <= IPC_MSG_ELEMENT_SIZE
    requires forall c: Core :: |mem(c)| == REGION_SIZE
    requires HoldsAt(mem(l.src), HalfStart(l.dst, half), Image(l.dst, data))
    ensures forall i: nat :: i < |data| ==> ReadPayload(g, mem, l.dst, DataAddr(g, l, half), i) == data[i]
  {
    forall i: nat | i < |data| ensures ReadPayload(g, mem, l.dst, DataAddr(g, l, half), i) == data[i] {
      PayloadByte(g, mem, l, half, i);
      ImagePayload(mem(l.src), l.dst, half, data, i);
    }
  }

  /** The next byte a handler reads is the next byte of the commanded payload. */
  lemma FlightByte(g: Layout, s: State, l: Link, i: nat)
    requires GoodLayout(g) && MemOk(s) && FlightOk(g, s, l)
    requires i < |s.commanded(l)[|s.commanded(l)| - 1].data|
    ensures ReadPayload(g, s.mem, l.dst, TakeCmd(s.words, l).addr, i) == s.commanded(l)[|s.commanded(l)| - 1].data[i]
  {
    forall c: Core ensures |s.mem(c)| == REGION_SIZE { }
    HeldPayload(g, s.mem, l, s.lastHalf(l), s.commanded(l)[|s.commanded(l)| - 1].data);
  }

  lemma HandleByteStep(g: Layout, s: State, core: Core)
    requires GoodLayout(g) && Inv(g, s) && Enabled(s, HandleByte(core))
    ensures Inv(g, Do(g, s, HandleByte(core)))
  {
    ReadsNext(g, s, core);
    HandlerStep(g, s, Do(g, s, HandleByte(core)), core);
  }

  lemma ReadsNext(g: Layout, s: State, core: Core)
    requires GoodLayout(g) && MemOk(s) && HandlersOk(s) && FlightsOk(g, s) && Enabled(s, HandleByte(core))
    ensures HandlerOk(DoHandleByte(g, s, core), core)
  {
    var h := s.handlers(core);
    var l := Link(h.src, core);
    assert HandlerOk(s, core) && FlightOk(g, s, l);
    var data := s.commanded(l)[|s.commanded(l)| - 1].data;
    FlightByte(g, s, l, |h.got|);
    OneMore(data, |h.got|);
  }

  lemma OneMore(data: Msg, n: nat)
    requires n < |data|
    ensures data[..n] + [data[n]] == data[..n + 1]
  {
  }

  lemma PostTables(r: Tables, id: int, m: Msg)
    requires SmallKeys(r)
    ensures var r' := Post(r, id, m).0;
            && SmallKeys(r') && |r'.queues| == |r.queues|
            && (forall i :: ValidId(r', i) <==> ValidId(r, i))
            && forall i :: 0 <= i < |r.queues| ==> r'.queues[i].key == r.queues[i].key
  {
    PostRefines(r, id, m);
    var r' := Post(r, id, m).0;
    forall i | ValidId(r', i) ensures SmallKeyAt(r', i) { assert ValidId(r, i); }
  }

  lemma HandleEndTables(g: Layout, s: State, core: Core)
    requires TablesOk(s) && HandlersOk(s) && Enabled(s, HandleEnd(core))
    requires Post(s.tables(core), s.handlers(core).id, s.handlers(core).got).1 == 0
    ensures var s' := Do(g, s, HandleEnd(core));
            && TablesOk(s') && HandlersOk(s')
            && forall c: Core, id: nat :: SmallKeyAt(s.tables(c), id) ==> SmallKeyAt(s'.tables(c), id)
  {
    var s' := Do(g, s, HandleEnd(core));
    assert SmallKeys(s.tables(core));
    PostTables(s.tables(core), s.handlers(core).id, s.handlers(core).got);
    forall c: Core ensures HandlerOk(s', c) { assert HandlerOk(s, c); }
  }

  lemma HandleEndKeys(g: Layout, s: State, core: Core)
    requires KeyLogs(s) && WellFormed(s.tables(core)) && HandlerOk(s, core) && Enabled(s, HandleEnd(core))
    requires Post(s.tables(core), s.handlers(core).id, s.handlers(core).got).1 == 0
    ensures KeyLogs(Do(g, s, HandleEnd(core)))
  {
    var s' := Do(g, s, HandleEnd(core));
    var h := s.handlers(core);
    forall c: Core, key: UInt32 ensures KeyLog(s', c, key) {
      assert KeyLog(s, c, key);
      if c == core {
        PostKey(s.tables(core), s.posted(core), h.src, h.cmd.opcode, h.id, h.got, GoneUnder(s.departed(core), key), key);
      }
    }
  }

  /** One more message posted, seen under any key. */
  lemma PostKey(r: Tables, log: seq<Arrival>, src: Core, opcode: UInt32, id: nat, m: Msg, gone: seq<Msg>, key: UInt32)
    requires WellFormed(r) && Post(r, id, m).1 == 0 && r.queues[id].key == opcode
    requires UnderKey(log, key) == gone + Queued(r, key)
    ensures UnderKey(log + [Arrival(src, Entry(opcode, m))], key) == gone + Queued(Post(r, id, m).0, key)
  {
    AppendArrival(log, Arrival(src, Entry(opcode, m)), src, key);
    PostQueued(r, id, m, key);
    Associate(gone, Queued(r, key), if opcode == key then [m] else []);
  }

  lemma HandleEndLinks(g: Layout, s: State, core: Core)
    requires LinkLogs(s) && Enabled(s, HandleEnd(core)) && HandlerOk(s, core) && FlightsOk(g, s)
    requires Post(s.tables(core), s.handlers(core).id, s.handlers(core).got).1 == 0
    ensures LinkLogs(Do(g, s, HandleEnd(core)))
  {
    var s' := DoHandleEnd(s, core);
    var h := s.handlers(core);
    var l := Link(h.src, core);
    var e := Entry(h.cmd.opcode, h.got);
    assert InFlight(s, l) == [e] by { CompleteReading(g, s, core); }
    assert forall m: Link :: LinkLog(s, m);
    HandleEndOwn(s, core, l, e);
    forall m: Link | m != l ensures LinkLog(s', m) {
      HandleEndOther(s, core, l, e, m);
    }
  }

  lemma HandleEndOwn(s: State, core: Core, l: Link, e: Entry)
    requires LinkLog(s, l) && s.handlers(core).Reading? && InFlight(s, l) == [e]
    requires l == Link(s.handlers(core).src, core) && e == Entry(s.handlers(core).cmd.opcode, s.handlers(core).got)
    requires Post(s.tables(core), s.handlers(core).id, s.handlers(core).got).1 == 0
    ensures LinkLog(DoHandleEnd(s, core), l)
  {
    AppendArrival(s.posted(core), Arrival(l.src, e), l.src, 0);
    assert InFlight(DoHandleEnd(s, core), l) == [];
  }

  lemma HandleEndOther(s: State, core: Core, l: Link, e: Entry, m: Link)
    requires LinkLog(s, m) && m != l && s.handlers(core).Reading?
    requires l == Link(s.handlers(core).src, core) && e == Entry(s.handlers(core).cmd.opcode, s.handlers(core).got)
    requires Post(s.tables(core), s.handlers(core).id, s.handlers(core).got).1 == 0
    ensures LinkLog(DoHandleEnd(s, core), m)
  {
    var s' := DoHandleEnd(s, core);
    AppendArrival(s.posted(core), Arrival(l.src, e), m.src, 0);
    assert InFlight(s', m) == InFlight(s, m);
    assert FromSrc(s'.posted(m.dst), m.src) == FromSrc(s.posted(m.dst), m.src);
  }

  /** What a complete reading is: the commanded payload, with its queue. */
  lemma CompleteReading(g: Layout, s: State, core: Core)
    requires HandlerOk(s, core) && FlightsOk(g, s) && Enabled(s, HandleEnd(core))
    ensures var h := s.handlers(core);
            && InFlight(s, Link(h.src, core)) == [Entry(h.cmd.opcode, h.got)]
            && |h.got| <= IPC_MSG_ELEMENT_SIZE
            && ValidId(s.tables(core), h.id) && s.tables(core).queues[h.id].key == h.cmd.opcode
  {
    var l := Link(s.handlers(core).src, core);
    assert FlightOk(g, s, l);
    assert s.handlers(core).got == s.commanded(l)[|s.commanded(l)| - 1].data;
  }

  lemma HandleEndStep(g: Layout, s: State, core: Core)
    requires Inv(g, s) && Enabled(s, HandleEnd(core))
    ensures Inv(g, Do(g, s, HandleEnd(core)))
  {
    var s' := Do(g, s, HandleEnd(core));
    assert HandlerOk(s, core) && SmallKeys(s.tables(core));
    if Post(s.tables(core), s.handlers(core).id, s.handlers(core).got).1 != 0 {
      HandlerStep(g, s, s', core);
    } else {
      HandleEndTables(g, s, core);
      HandleEndKeys(g, s, core);
      HandleEndLinks(g, s, core);
      ReceiverFrame(g, s, s');
    }
  }

  // ---------- Local calls and receives ----------

  /** A step on the tables of one core that takes `gone` out of its queues and keeps its keys small. */
  lemma TablesStep(g: Layout, s: State, s': State, core: Core, r': Tables, gone: seq<Departure>)
    requires Inv(g, s) && s.handlers(core).Quiet?
    requires s' == s.(tables := Upd(s.tables, core, r'), departed := Upd(s.departed, core, s.departed(core) + gone))
    requires SmallKeys(r') && forall id: nat :: SmallKeyAt(s.tables(core), id) ==> SmallKeyAt(r', id)
    requires forall key: UInt32 :: Queued(s.tables(core), key) == GoneUnder(gone, key) + Queued(r', key)
    ensures Inv(g, s')
  {
    ReceiverFrame(g, s, s');
    forall c: Core ensures SmallKeys(s'.tables(c)) { assert SmallKeys(s.tables(c)); }
    forall c: Core ensures HandlerOk(s', c) { assert HandlerOk(s, c); }
    forall m: Link ensures LinkLog(s', m) { assert LinkLog(s, m); }
    forall c: Core, key: UInt32 ensures KeyLog(s', c, key) {
      assert KeyLog(s, c, key);
      if c == core {
        GoneThenQueued(s.departed(core), gone, Queued(r', key), key);
      }
    }
  }

  lemma LocalTables(r: Tables, op: Op)
    requires SmallKeys(r) && (op.GetOp? ==> 0 <= op.key < TWO_16)
    ensures var r' := Registry.Apply(r, op);
            SmallKeys(r') && forall id: nat :: SmallKeyAt(r, id) ==> SmallKeyAt(r', id)
  {
    var r' := Registry.Apply(r, op);
    assert WellFormed(r') by { ApplyKeepsWellFormed(r, op); }
    ApplyKeys(r, op);
    forall id | ValidId(r', id) ensures SmallKeyAt(r', id) {
      assert r.queues[id].live ==> ValidId(r, id) && SmallKeyAt(r, id);
    }
  }

  lemma LocalStep(g: Layout, s: State, core: Core, op: Op)
    requires Inv(g, s) && Enabled(s, Local(core, op))
    ensures Inv(g, Do(g, s, Local(core, op)))
  {
    var r := s.tables(core);
    assert SmallKeys(r);
    LocalTables(r, op);
    forall key: UInt32 ensures Queued(r, key) == GoneUnder(DroppedByCall(r, op), key) + Queued(Registry.Apply(r, op), key) {
      LocalConserves(r, op, key);
    }
    TablesStep(g, s, Do(g, s, Local(core, op)), core, Registry.Apply(r, op), DroppedByCall(r, op));
  }

  lemma ReceiveStep(g: Layout, s: State, core: Core, id: nat, msgSize: nat)
    requires Inv(g, s) && Enabled(s, Receive(core, id, msgSize))
    ensures Inv(g, Do(g, s, Receive(core, id, msgSize)))
  {
    var r := s.tables(core);
    assert SmallKeys(r) && ValidId(r, id);
    LocalTables(r, DequeueOp(id));
    forall key: UInt32 ensures Queued(r, key) == GoneUnder(TakenBy(r, id, msgSize), key) + Queued(Dequeue(r, id).0, key) {
      ReceiveConserves(r, id, msgSize, key);
    }
    TablesStep(g, s, Do(g, s, Receive(core, id, msgSize)), core, Dequeue(r, id).0, TakenBy(r, id, msgSize));
  }

  // ---------- Every run ----------

  lemma StepKeeps(g: Layout, s: State, a: Action)
    requires GoodLayout(g) && Inv(g, s) && Enabled(s, a)
    ensures Inv(g, Do(g, s, a))
  {
    match a
    case Begin(t, core, id, dst, data) => BeginStep(g, s, t, core, id, dst, data);
    case Acquire(t) => AcquireStep(g, s, t);
    case CopyByte(t) => CopyByteStep(g, s, t);
    case Prepare(t) => PrepareStep(g, s, t);
    case GiveUp(t) => GiveUpStep(g, s, t);
    case Command(t, serial) => CommandStep(g, s, t, serial);
    case Release(t) => ReleaseStep(g, s, t);
    case HandleBegin(src, core) => HandleBeginStep(g, s, src, core);
    case HandleByte(core) => HandleByteStep(g, s, core);
    case HandleEnd(core) => HandleEndStep(g, s, core);
    case Receive(core, id, msgSize) => ReceiveStep(g, s, core, id, msgSize);
    case Local(core, op) => LocalStep(g, s, core, op);
  }

  lemma {:induction false} RunKeeps(g: Layout, s: State, run: seq<Action>)
    requires GoodLayout(g) && Inv(g, s) && ValidRun(g, s, run)
    ensures Inv(g, After(g, s, run))
    decreases |run|
  {
    if run != [] {
      StepKeeps(g, s, run[0]);
      RunKeeps(g, Do(g, s, run[0]), run[1..]);
    }
  }
}
