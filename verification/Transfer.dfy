/**
 * The transfer of messages between the cores as one state machine. Each core runs the driver: any
 * number of tasks send, an interrupt handler receives, and local calls change the queue table. All
 * steps of all cores interleave; payload bytes are copied one at a time on both sides.
 */
module Transfer {
  import opened Common
  import opened Registry
  import opened Mailbox
  import opened SendBuffer
  import opened Runs

  const REGION_SIZE: nat := 2 * IPC_SENDTO_MAX * SEND_MSG_SIZE

  type Memory = Core -> seq<Byte>

  /** Per core: the two bases of its send region, and the two bases of its non-cached window. */
  datatype Layout = Layout(vir: Core -> UInt32, dma: Core -> UInt32, phy: Core -> UInt32, nonCache: Core -> UInt32)

  /** The send regions do not wrap and do not overlap in physical memory. */
  ghost predicate GoodLayout(g: Layout) {
    && (forall a: Core :: g.dma(a) + REGION_SIZE <= TWO_32)
    && forall a: Core, b: Core :: a != b ==> g.dma(a) + REGION_SIZE <= g.dma(b) || g.dma(b) + REGION_SIZE <= g.dma(a)
  }

  /** One call of `ipc_msg_snd`. */
  datatype Task =
    | Idle
    | Waiting(core: Core, id: nat, dst: Core, data: Msg)                       // blocked on the semaphore
    | Copying(core: Core, id: nat, dst: Core, data: Msg, half: nat, done: nat) // filling its half
    | Ready(core: Core, dst: Core, data: Msg, half: nat, key: UInt32)          // waiting for the previous ack
    | Sent(core: Core, dst: Core)                                              // about to release the semaphore

  /** The receive handler of a core. */
  datatype Handler = Quiet | Reading(src: Core, id: nat, cmd: Cmd, got: Msg)

  datatype Entry = Entry(key: UInt32, data: Msg)
  datatype Arrival = Arrival(src: Core, entry: Entry)
  datatype Departure = Departure(entry: Entry, delivered: bool)

  datatype State = State(
    tasks: int -> Task,
    sem: Link -> int,           // the counts of the semaphores
    next: Link -> nat,          // pingponidx
    mem: Memory,
    words: Words,
    unacked: set<Link>,
    handlers: Core -> Handler,
    tables: Core -> Tables,
    // what happened so far
    owner: Link -> int,               // the task that took the semaphore last
    lastHalf: Link -> nat,            // the half of the last finished send
    commanded: Link -> seq<Entry>,    // every command triggered
    posted: Core -> seq<Arrival>,     // every message put into a queue of this core
    departed: Core -> seq<Departure>) // every message taken from a queue, or dropped with it

  datatype Action =
    | Begin(t: int, core: Core, id: nat, dst: Core, data: Msg)
    | Acquire(t: int)
    | CopyByte(t: int)
    | Prepare(t: int)
    | GiveUp(t: int)
    | Command(t: int, serial: UInt16)
    | Release(t: int)
    | HandleBegin(src: Core, core: Core)
    | HandleByte(core: Core)
    | HandleEnd(core: Core)
    | Receive(core: Core, id: nat, msgSize: nat)
    | Local(core: Core, op: Op)

  function Upd<K(==), V>(f: K -> V, k: K, v: V): K -> V {
    x => if x == k then v else f(x)
  }

  /** The destination number used for the send buffers: `sendTo - 1`. */
  function DestIndex(c: Core): nat {
    match c case CPU1 => 0 case CPU2 => 1 case DSP => 2
  }

  /** Where half `h` for destination `dst` starts in the sender's region. */
  function HalfStart(dst: Core, h: nat): nat {
    HalfOffset(DestIndex(dst), h, SEND_MSG_SIZE)
  }

  /** Where its payload starts, behind the destination word. */
  function DataOffset(dst: Core, h: nat): nat {
    HalfStart(dst, h) + 4
  }

  /** The little-endian bytes of a small destination number. */
  function SendToWord(sendTo: int): (w: seq<Byte>)
    requires 1 <= sendTo <= IPC_SENDTO_MAX
    ensures |w| == 4
    ensures var b0: int, b1: int, b2: int, b3: int := w[0], w[1], w[2], w[3];
            b0 + 0x100 * b1 + 0x1_0000 * b2 + 0x100_0000 * b3 == sendTo
  {
    [sendTo, 0, 0, 0]
  }

  /** What a sender stores into a half: the destination word and the payload. */
  function Image(dst: Core, data: Msg): seq<Byte> {
    SendToWord(DestIndex(dst) + 1) + data
  }

  /** The address word of a command: the physical address of the payload in a half. */
  function DataAddr(g: Layout, l: Link, h: nat): UInt32 {
    GetPhyAddr(g.vir(l.src), g.dma(l.src), ToUInt32(g.vir(l.src) + DataOffset(l.dst, h)))
  }

  /** A region with a message stored in one half and everything else as it was. */
  function Filled(before: seq<Byte>, dst: Core, half: nat, data: Msg): seq<Byte>
    requires HalfStart(dst, half) + |Image(dst, data)| <= |before|
  {
    before[..HalfStart(dst, half)] + Image(dst, data) + before[HalfStart(dst, half) + |Image(dst, data)|..]
  }

  predicate InRegion(g: Layout, mem: Memory, a: Core, p: UInt32) {
    g.dma(a) <= p < g.dma(a) + |mem(a)|
  }

  function Store(bytes: seq<Byte>, at: nat, b: Byte): seq<Byte> {
    if at < |bytes| then bytes[at := b] else bytes
  }

  function KeyAt(r: Tables, id: nat): UInt32 {
    if id < |r.queues| then r.queues[id].key else 0
  }

  /** The byte at a physical address. */
  function Load(g: Layout, mem: Memory, p: UInt32): Byte {
    if InRegion(g, mem, CPU1, p) then mem(CPU1)[p - g.dma(CPU1)]
    else if InRegion(g, mem, CPU2, p) then mem(CPU2)[p - g.dma(CPU2)]
    else if InRegion(g, mem, DSP, p) then mem(DSP)[p - g.dma(DSP)]
    else 0
  }

  /** The byte the handler on `c` reads at position `i` of the payload at physical address `addr`. */
  function ReadPayload(g: Layout, mem: Memory, c: Core, addr: UInt32, i: nat): Byte {
    var noncache := GetNoncacheAddr(g.phy(c), g.nonCache(c), addr);
    Load(g, mem, WindowTarget(g.phy(c), g.nonCache(c), ToUInt32(noncache + i)))
  }

  function DroppedBy(q: Queue): seq<Departure> {
    seq(|q.msgs|, i requires 0 <= i < |q.msgs| => Departure(Entry(q.key, q.msgs[i]), false))
  }

  // ---------- Steps ----------

  predicate CopyGoesOn(task: Task) {
    task.Copying? && task.done < |Image(task.dst, task.data)|
  }

  predicate CopyDone(task: Task) {
    task.Copying? && task.done == |Image(task.dst, task.data)|
  }

  predicate Enabled(s: State, a: Action) {
    match a
    case Begin(t, core, id, dst, data) =>
      s.tasks(t).Idle? && id < |s.tables(core).queues| && s.tables(core).queues[id].live && |data| <= IPC_MSG_ELEMENT_SIZE
    case Acquire(t) => s.tasks(t).Waiting? && s.sem(Link(s.tasks(t).core, s.tasks(t).dst)) > 0
    case CopyByte(t) => CopyGoesOn(s.tasks(t))
    case Prepare(t) =>
      CopyDone(s.tasks(t)) && s.tasks(t).core != s.tasks(t).dst
    case GiveUp(t) =>
      CopyDone(s.tasks(t)) && s.tasks(t).core == s.tasks(t).dst
    case Command(t, serial) => s.tasks(t).Ready? && Link(s.tasks(t).core, s.tasks(t).dst) !in s.unacked
    case Release(t) => s.tasks(t).Sent?
    case HandleBegin(src, core) => s.handlers(core).Quiet? && Link(src, core) in s.unacked
    case HandleByte(core) => s.handlers(core).Reading? && |s.handlers(core).got| < s.handlers(core).cmd.size
    case HandleEnd(core) => s.handlers(core).Reading? && |s.handlers(core).got| == s.handlers(core).cmd.size
    case Receive(core, id, msgSize) =>
      s.handlers(core).Quiet? && id < |s.tables(core).queues| && s.tables(core).queues[id].live
      && s.tables(core).queues[id].msgs != []
    case Local(core, op) =>
      s.handlers(core).Quiet? && (op.FtokOp? || op.RelOp? || (op.GetOp? && 0 <= op.key < TWO_16))
  }

  function Do(g: Layout, s: State, a: Action): State
    requires Enabled(s, a)
  {
    match a
    case Begin(t, core, id, dst, data) => s.(tasks := Upd(s.tasks, t, Waiting(core, id, dst, data)))
    case Acquire(t) => DoAcquire(s, t)
    case CopyByte(t) => DoCopyByte(s, t)
    case Prepare(t) => DoPrepare(s, t)
    case GiveUp(t) => DoGiveUp(s, t)
    case Command(t, serial) => DoCommand(g, s, t, serial)
    case Release(t) => DoRelease(s, t)
    case HandleBegin(src, core) => DoHandleBegin(s, src, core)
    case HandleByte(core) => DoHandleByte(g, s, core)
    case HandleEnd(core) => DoHandleEnd(s, core)
    case Receive(core, id, msgSize) => DoReceive(s, core, id, msgSize)
    case Local(core, op) => DoLocal(s, core, op)
  }

  /** The end of `ipc_msgque_lockSndMsgBuff`: toggle the index and hand out the half. */
  function DoHandOut(s: State, t: int): State
    requires s.tasks(t).Waiting?
  {
    var task := s.tasks(t);
    var l := Link(task.core, task.dst);
    var half := if s.next(l) == 0 then 0 else 1;
    s.(tasks := Upd(s.tasks, t, Copying(task.core, task.id, task.dst, task.data, half, 0)),
       next := Upd<Link, nat>(s.next, l, 1 - half))
  }

  /** `ipc_msgque_lockSndMsgBuff`: take the semaphore, then hand out the half. */
  function DoAcquire(s: State, t: int): State
    requires s.tasks(t).Waiting?
  {
    var l := Link(s.tasks(t).core, s.tasks(t).dst);
    DoHandOut(s, t).(sem := Upd(s.sem, l, s.sem(l) - 1), owner := Upd(s.owner, l, t))
  }

  /** One byte of the copy into the half. */
  function DoCopyByte(s: State, t: int): State
    requires CopyGoesOn(s.tasks(t))
  {
    var task := s.tasks(t);
    var at := HalfStart(task.dst, task.half) + task.done;
    var byte := Image(task.dst, task.data)[task.done];
    s.(tasks := Upd(s.tasks, t, task.(done := task.done + 1)),
       mem := Upd<Core, seq<Byte>>(s.mem, task.core, Store(s.mem(task.core), at, byte)))
  }

  /** Set up the command; the key is the one the queue entry shows at this moment. */
  function DoPrepare(s: State, t: int): State
    requires s.tasks(t).Copying?
  {
    var task := s.tasks(t);
    var key := KeyAt(s.tables(task.core), task.id);
    s.(tasks := Upd(s.tasks, t, Ready(task.core, task.dst, task.data, task.half, key)))
  }

  /** A message to the own core is refused once the half is filled, and the semaphore released. */
  function DoGiveUp(s: State, t: int): State
    requires s.tasks(t).Copying?
  {
    var task := s.tasks(t);
    var l := Link(task.core, task.dst);
    s.(tasks := Upd(s.tasks, t, Idle),
       sem := Upd(s.sem, l, s.sem(l) + 1),
       lastHalf := Upd<Link, nat>(s.lastHalf, l, task.half))
  }

  /** `ipc_cc_send_cmd` after the wait: write the three registers and trigger. */
  function DoCommand(g: Layout, s: State, t: int, serial: UInt16): State
    requires s.tasks(t).Ready?
  {
    var task := s.tasks(t);
    var l := Link(task.core, task.dst);
    var cmd := Cmd(task.key, DataAddr(g, l, task.half), ToUInt32(|task.data|));
    s.(tasks := Upd(s.tasks, t, Sent(task.core, task.dst)),
       words := if l.src == l.dst then s.words else PutCmd(s.words, l, cmd, serial),
       unacked := s.unacked + {l},
       lastHalf := Upd<Link, nat>(s.lastHalf, l, task.half),
       commanded := Upd(s.commanded, l, s.commanded(l) + [Entry(task.key, task.data)]))
  }

  function DoRelease(s: State, t: int): State
    requires s.tasks(t).Sent?
  {
    var l := Link(s.tasks(t).core, s.tasks(t).dst);
    s.(tasks := Upd(s.tasks, t, Idle), sem := Upd(s.sem, l, s.sem(l) + 1))
  }

  /** The handler reads the command and looks up the queue; without one it returns and sends no ack. */
  function DoHandleBegin(s: State, src: Core, core: Core): State {
    if src == core then s
    else
      var cmd := TakeCmd(s.words, Link(src, core));
      var id := IdOf(s.tables(core), cmd.opcode);
      if id < 0 then s
      else s.(handlers := Upd(s.handlers, core, Reading(src, id, cmd, [])))
  }

  /** One byte of the copy out of the sender's region. */
  function DoHandleByte(g: Layout, s: State, core: Core): State
    requires s.handlers(core).Reading?
  {
    var h := s.handlers(core);
    var byte := ReadPayload(g, s.mem, core, h.cmd.addr, |h.got|);
    s.(handlers := Upd(s.handlers, core, h.(got := h.got + [byte])))
  }

  /** Post the message and acknowledge it; when the post fails there is no ack. */
  function DoHandleEnd(s: State, core: Core): State
    requires s.handlers(core).Reading?
  {
    var h := s.handlers(core);
    var quiet := Upd(s.handlers, core, Quiet);
    if Post(s.tables(core), h.id, h.got).1 != 0 then s.(handlers := quiet)
    else
      s.(handlers := quiet,
         tables := Upd(s.tables, core, Post(s.tables(core), h.id, h.got).0),
         unacked := s.unacked - {Link(h.src, core)},
         posted := Upd(s.posted, core, s.posted(core) + [Arrival(h.src, Entry(h.cmd.opcode, h.got))]))
  }

  /** What a receive with a buffer of `msgSize` bytes takes out; a message that does not fit is not handed over. */
  function TakenBy(r: Tables, id: nat, msgSize: nat): seq<Departure> {
    if id < |r.queues| && r.queues[id].msgs != []
    then [Departure(Entry(r.queues[id].key, r.queues[id].msgs[0]), |r.queues[id].msgs[0]| <= msgSize)]
    else []
  }

  /** The end of `ipc_msg_rcv`: dequeue, then compare the size with the caller's buffer. */
  function DoReceive(s: State, core: Core, id: nat, msgSize: nat): State
    requires id < |s.tables(core).queues|
  {
    s.(tables := Upd(s.tables, core, Dequeue(s.tables(core), id).0),
       departed := Upd(s.departed, core, s.departed(core) + TakenBy(s.tables(core), id, msgSize)))
  }

  /** What a local call drops: the messages of a released queue. */
  function DroppedByCall(r: Tables, op: Op): seq<Departure> {
    if op.RelOp? && Rel(r, op.id).1 == 0 then DroppedBy(r.queues[op.id]) else []
  }

  function DoLocal(s: State, core: Core, op: Op): State {
    s.(tables := Upd(s.tables, core, Registry.Apply(s.tables(core), op)),
       departed := Upd(s.departed, core, s.departed(core) + DroppedByCall(s.tables(core), op)))
  }

  // ---------- Runs ----------

  ghost predicate Init(s: State) {
    && (forall t: int :: s.tasks(t).Idle?)
    && s.unacked == {}
    && (forall l: Link :: s.sem(l) == 1 && s.next(l) == 0 && s.lastHalf(l) == 1 && s.commanded(l) == [])
    && forall c: Core ::
         && |s.mem(c)| == REGION_SIZE
         && s.handlers(c).Quiet?
         && s.posted(c) == [] && s.departed(c) == []
         && forall i :: 0 <= i < |s.tables(c).queues| ==> !s.tables(c).queues[i].live && s.tables(c).queues[i].msgs == []
  }

  /** One step of the machine; none when the action is not enabled. */
  function Next(g: Layout): (State, Action) -> Option<State> {
    (s, a) => if Enabled(s, a) then Some(Do(g, s, a)) else None
  }

  ghost predicate ValidRun(g: Layout, s: State, run: seq<Action>) {
    Steps(Next(g), s, run).Some?
  }

  function After(g: Layout, s: State, run: seq<Action>): State
    requires ValidRun(g, s, run)
  {
    Steps(Next(g), s, run).value
  }
}
