/**
 * One core's driver at work, updated in place: filling a half and commanding it, and receiving what a
 * peer commanded. Each call is tied to the run it stands for in the machine of module Transfer.
 */
module MsgTransfer {
  import opened Common
  import opened Registry
  import opened MsgQueue
  import opened Mailbox
  import opened SendBuffer
  import opened Transfer
  import opened TransferInvariant
  import opened Progress
  import Rcv = Receive

  /** `memcpy` into a region. */
  method CopyInto(region: array<Byte>, at: nat, src: seq<Byte>)
    requires at + |src| <= region.Length
    modifies region
    ensures region[..] == old(region[..at]) + src + old(region[at + |src|..])
  {
    var i := 0;
    while i < |src|
      invariant 0 <= i <= |src|
      invariant forall k :: 0 <= k < region.Length ==>
                  region[k] == if at <= k < at + i then src[k - at] else old(region[k])
    {
      region[at + i] := src[i];
      i := i + 1;
    }
  }

  /** The core a destination number names. */
  function CoreOf(sendTo: int): Core {
    if sendTo == 1 then CPU1 else if sendTo == 2 then CPU2 else DSP
  }

  /** The payload a command points to, read through a window; `memory` is what its addresses show. */
  function Payload(phyBase: UInt32, nonCacheBase: UInt32, cmd: Cmd, memory: UInt32 -> Byte): Msg {
    var noncache := GetNoncacheAddr(phyBase, nonCacheBase, cmd.addr);
    seq<Byte>(cmd.size, i requires 0 <= i < cmd.size => memory(ToUInt32(noncache + i)))
  }

  /** What core `c` sees at an address of its window. */
  function Shown(g: Layout, mem: Memory, c: Core): UInt32 -> Byte {
    addr => Load(g, mem, WindowTarget(g.phy(c), g.nonCache(c), addr))
  }

  /**
   * The send call on one core and the handler on another fit together: from a region filled and a
   * command written as `MsgSnd` leaves them, the handler reads the key and the very payload.
   */
  lemma SendThenReceive(g: Layout, l: Link, mem: Memory, before: seq<Byte>, half: nat, data: Msg,
                        words: Words, key: UInt32, serial: UInt16)
    requires GoodLayout(g) && l.src != l.dst
    requires half < 2 && |data| <= IPC_MSG_ELEMENT_SIZE && key < TWO_16 && |before| == REGION_SIZE
    requires forall c: Core :: |mem(c)| == REGION_SIZE
    requires HalfStart(l.dst, half) + |Image(l.dst, data)| <= |before| && mem(l.src) == Filled(before, l.dst, half, data)
    ensures var cmd := TakeCmd(PutCmd(words, l, Cmd(key, DataAddr(g, l, half), |data|), serial), l);
            cmd.opcode == key && Payload(g.phy(l.dst), g.nonCache(l.dst), cmd, Shown(g, mem, l.dst)) == data
  {
    var cmd := Cmd(key, DataAddr(g, l, half), |data|);
    ArrivesWhole(words, l, cmd, serial);
    FilledHolds(before, l.dst, half, data);
    HeldPayload(g, mem, l, half, data);
    PayloadRead(g, mem, l.dst, cmd, data);
  }

  lemma PayloadAt(g: Layout, mem: Memory, c: Core, cmd: Cmd, i: nat)
    requires i < cmd.size
    ensures Payload(g.phy(c), g.nonCache(c), cmd, Shown(g, mem, c))[i] == ReadPayload(g, mem, c, cmd.addr, i)
  {
  }

  lemma PayloadRead(g: Layout, mem: Memory, c: Core, cmd: Cmd, data: Msg)
    requires cmd.size == |data| && forall i: nat :: i < |data| ==> ReadPayload(g, mem, c, cmd.addr, i) == data[i]
    ensures Payload(g.phy(c), g.nonCache(c), cmd, Shown(g, mem, c)) == data
  {
    var got := Payload(g.phy(c), g.nonCache(c), cmd, Shown(g, mem, c));
    forall i | 0 <= i < |data| ensures got[i] == data[i] {
      PayloadAt(g, mem, c, cmd, i);
    }
  }

  // ---------- One core's share of the state ----------

  /** What one core's driver works on: its tables, the registers, its region, and its indices. */
  datatype CoreView = CoreView(tables: Tables, words: Words, unacked: set<Link>, region: seq<Byte>, halves: seq<nat>)

  /** The share of core `c` in a state of the machine. */
  function ShareOf(s: State, c: Core): CoreView {
    CoreView(s.tables(c), s.words, s.unacked, s.mem(c),
             [s.next(Link(c, CPU1)), s.next(Link(c, CPU2)), s.next(Link(c, DSP))])
  }

  ghost predicate FitsRegion(v: CoreView, dst: Core, data: Msg) {
    && |v.halves| == IPC_SENDTO_MAX && v.halves[DestIndex(dst)] < 2
    && HalfStart(dst, v.halves[DestIndex(dst)]) + |Image(dst, data)| <= |v.region|
  }

  /** The current half for `dst` filled and the index toggled. */
  function AfterFill(v: CoreView, dst: Core, data: Msg): CoreView
    requires FitsRegion(v, dst, data)
  {
    var i := DestIndex(dst);
    v.(region := Filled(v.region, dst, v.halves[i], data), halves := v.halves[i := 1 - v.halves[i]])
  }

  /** The command for a filled half written and triggered. */
  function Announced(v: CoreView, l: Link, vir: UInt32, dma: UInt32, key: UInt32, half: nat, size: UInt32, serial: UInt16): CoreView
    requires l.src != l.dst
  {
    var addr := GetPhyAddr(vir, dma, ToUInt32(vir + DataOffset(l.dst, half)));
    v.(words := PutCmd(v.words, l, Cmd(key, addr, size), serial), unacked := v.unacked + {l})
  }

  lemma AnnouncedIs(v: CoreView, w: CoreView, l: Link, vir: UInt32, dma: UInt32, key: UInt32, half: nat, size: UInt32, serial: UInt16)
    requires l.src != l.dst && w == v.(words := w.words, unacked := v.unacked + {l})
    requires var addr := GetPhyAddr(vir, dma, ToUInt32(vir + DataOffset(l.dst, half)));
             w.words == PutCmd(v.words, l, Cmd(key, addr, size), serial)
    ensures w == Announced(v, l, vir, dma, key, half, size, serial)
  {
  }

  /** A send to another core. */
  function AfterSnd(v: CoreView, l: Link, vir: UInt32, dma: UInt32, key: UInt32, data: Msg, serial: UInt16): CoreView
    requires FitsRegion(v, l.dst, data) && l.src != l.dst && |data| < TWO_32
  {
    Announced(AfterFill(v, l.dst, data), l, vir, dma, key, v.halves[DestIndex(l.dst)], |data|, serial)
  }

  /** The handler finds a queue for the command and room in it. */
  predicate Posts(v: CoreView, l: Link, payload: Msg)
    requires l.src != l.dst
  {
    var id := IdOf(v.tables, TakeCmd(v.words, l).opcode);
    id >= 0 && Post(v.tables, id, payload).1 == 0
  }

  /** One turn of the handler: the payload is posted and acknowledged, or nothing happens. */
  function AfterHandler(v: CoreView, l: Link, payload: Msg): CoreView
    requires l.src != l.dst
  {
    if !Posts(v, l, payload) then v
    else
      var id := IdOf(v.tables, TakeCmd(v.words, l).opcode);
      v.(tables := Post(v.tables, id, payload).0, unacked := v.unacked - {l})
  }

  lemma ToggledHalves(s: State, z: State, l: Link)
    requires (forall m: Link :: m != l ==> z.next(m) == s.next(m)) && s.next(l) < 2 && z.next(l) == 1 - s.next(l)
    ensures var v := ShareOf(s, l.src);
            var i := DestIndex(l.dst);
            && v.halves[i] == s.next(l)
            && ShareOf(z, l.src).halves == v.halves[i := 1 - v.halves[i]]
  {
  }

  lemma SendShares(g: Layout, s: State, z: State, t: int, l: Link, id: nat, data: Msg, serial: UInt16)
    requires HalfStart(l.dst, s.next(l)) + |Image(l.dst, data)| <= |s.mem(l.src)|
    requires l.src != l.dst && |data| < TWO_32 && s.next(l) < 2
    requires SendEffect(g, s, z, t, l, id, data, serial)
    ensures FitsRegion(ShareOf(s, l.src), l.dst, data)
    ensures ShareOf(z, l.src) == AfterSnd(ShareOf(s, l.src), l, g.vir(l.src), g.dma(l.src), KeyAt(s.tables(l.src), id), data, serial)
  {
    ToggledHalves(s, z, l);
    SndFields(ShareOf(s, l.src), ShareOf(z, l.src), l, g.vir(l.src), g.dma(l.src), KeyAt(s.tables(l.src), id), data, serial);
  }

  lemma SndFields(v: CoreView, w: CoreView, l: Link, vir: UInt32, dma: UInt32, key: UInt32, data: Msg, serial: UInt16)
    requires FitsRegion(v, l.dst, data) && l.src != l.dst && |data| < TWO_32
    requires w.tables == v.tables && w.unacked == v.unacked + {l}
    requires var i := DestIndex(l.dst);
             && w.halves == v.halves[i := 1 - v.halves[i]]
             && w.region == Filled(v.region, l.dst, v.halves[i], data)
             && w.words == PutCmd(v.words, l, Cmd(key, GetPhyAddr(vir, dma, ToUInt32(vir + DataOffset(l.dst, v.halves[i]))), |data|), serial)
    ensures w == AfterSnd(v, l, vir, dma, key, data, serial)
  {
  }

  /** The send call on one core is the run `SendRun` of the machine. */
  lemma SendProjects(g: Layout, s: State, t: int, l: Link, id: nat, data: Msg, serial: UInt16)
    requires LinkOk(s, l) && MemOk(s) && l.src != l.dst
    requires Enabled(s, Begin(t, l.src, id, l.dst, data)) && s.sem(l) == 1 && l !in s.unacked
    ensures ValidRun(g, s, SendRun(t, l, id, data, serial)) && FitsRegion(ShareOf(s, l.src), l.dst, data)
    ensures ShareOf(After(g, s, SendRun(t, l, id, data, serial)), l.src)
         == AfterSnd(ShareOf(s, l.src), l, g.vir(l.src), g.dma(l.src), KeyAt(s.tables(l.src), id), data, serial)
    ensures forall m: Link :: After(g, s, SendRun(t, l, id, data, serial)).sem(m) == s.sem(m)
  {
    SendCompletes(g, s, t, l, id, data, serial);
    SendShares(g, s, After(g, s, SendRun(t, l, id, data, serial)), t, l, id, data, serial);
  }

  function RefusedRun(t: int, l: Link, id: nat, data: Msg): seq<Action> {
    TakeRun(t, l, id, data) + Copies(t, |Image(l.dst, data)|) + [GiveUp(t)]
  }

  /** A send to the own core is the run that fills its half and gives up. */
  lemma RefusalProjects(g: Layout, s: State, t: int, l: Link, id: nat, data: Msg)
    requires LinkOk(s, l) && MemOk(s) && l.src == l.dst
    requires Enabled(s, Begin(t, l.src, id, l.dst, data)) && s.sem(l) == 1
    ensures ValidRun(g, s, RefusedRun(t, l, id, data)) && FitsRegion(ShareOf(s, l.src), l.dst, data)
    ensures ShareOf(After(g, s, RefusedRun(t, l, id, data)), l.src) == AfterFill(ShareOf(s, l.src), l.dst, data)
    ensures forall m: Link :: After(g, s, RefusedRun(t, l, id, data)).sem(m) == s.sem(m)
  {
    HalfCompletes(g, s, t, l, id, data);
    RunThen(g, s, TakeRun(t, l, id, data) + Copies(t, |Image(l.dst, data)|), GiveUp(t));
    ToggledHalves(s, After(g, s, RefusedRun(t, l, id, data)), l);
  }

  /** The run of one turn of the handler: without a queue for the key it ends after looking. */
  function TurnRun(s: State, l: Link): seq<Action>
    requires l.src != l.dst
  {
    var cmd := TakeCmd(s.words, l);
    if IdOf(s.tables(l.dst), cmd.opcode) < 0 then [HandleBegin(l.src, l.dst)] else ReceiveRun(l, cmd.size)
  }

  /** The handler called on a command in flight is that run, whether or not it can post. */
  lemma ReceiveProjects(g: Layout, s: State, l: Link)
    requires GoodLayout(g) && Inv(g, s) && l in s.unacked && s.handlers(l.dst).Quiet?
    ensures l.src != l.dst && ValidRun(g, s, TurnRun(s, l))
    ensures var payload := Payload(g.phy(l.dst), g.nonCache(l.dst), TakeCmd(s.words, l), Shown(g, s.mem, l.dst));
            ShareOf(After(g, s, TurnRun(s, l)), l.dst) == AfterHandler(ShareOf(s, l.dst), l, payload)
  {
    assert FlightOk(g, s, l);
    var e := s.commanded(l)[|s.commanded(l)| - 1];
    var cmd := TakeCmd(s.words, l);
    forall i: nat | i < |e.data| ensures ReadPayload(g, s.mem, l.dst, cmd.addr, i) == e.data[i] {
      FlightByte(g, s, l, i);
    }
    PayloadRead(g, s.mem, l.dst, cmd, e.data);
    if IdOf(s.tables(l.dst), cmd.opcode) < 0 {
      RunOne(g, s, HandleBegin(l.src, l.dst));
    } else {
      TurnPosts(g, s, l, e);
    }
  }

  lemma TurnPosts(g: Layout, s: State, l: Link, e: Entry)
    requires GoodLayout(g) && Inv(g, s) && l in s.unacked && s.handlers(l.dst).Quiet? && l.src != l.dst
    requires InFlight(s, l) == [e] && TakeCmd(s.words, l).opcode == e.key && IdOf(s.tables(l.dst), e.key) >= 0
    ensures ValidRun(g, s, ReceiveRun(l, |e.data|))
    ensures ShareOf(After(g, s, ReceiveRun(l, |e.data|)), l.dst) == AfterHandler(ShareOf(s, l.dst), l, e.data)
  {
    var take := [HandleBegin(l.src, l.dst)] + Bytes(l.dst, |e.data|);
    TakesInAll(g, s, l);
    var s1 := After(g, s, take);
    RunThen(g, s, take, HandleEnd(l.dst));
    assert HandlerOk(s1, l.dst);
    CompleteReading(g, s1, l.dst);
    assert Entry(s1.handlers(l.dst).cmd.opcode, s1.handlers(l.dst).got) == e;
  }

  /**
   * What a receive returns is what the machine's step records: a message returned is one taken and handed
   * over, -5 is one taken and not handed over, and with any other result nothing is taken.
   */
  lemma RcvProjects(g: Layout, s: State, c: Core, r: Tables, after: Tables, id: nat, msgSize: nat, timedOut: bool, ret: int, data: Msg)
    requires s.handlers(c).Quiet? && Rcv.ResultMeans(r, s.tables(c), after, id, msgSize, timedOut, ret, data)
    ensures ret < 0 && ret != -5 ==> after == s.tables(c)
    ensures ret >= 0 || ret == -5 ==>
              && Enabled(s, Receive(c, id, msgSize))
              && var z := Do(g, s, Receive(c, id, msgSize));
                 var head := s.tables(c).queues[id].msgs[0];
                 && z.tables(c) == after && z == s.(tables := z.tables, departed := z.departed)
                 && z.departed(c) == s.departed(c) + [Departure(Entry(r.queues[id].key, head), ret >= 0)]
                 && (ret >= 0 ==> data == head)
  {
  }

  /** The physical address of the payload, from the address of the half. */
  method PayloadAddr(vir: UInt32, dma: UInt32, sendTo: int, half: nat) returns (addr: UInt32)
    requires 1 <= sendTo <= IPC_SENDTO_MAX
    ensures addr == GetPhyAddr(vir, dma, ToUInt32(vir + DataOffset(CoreOf(sendTo), half)))
  {
    var sndmsg: int := HalfAddr(vir, sendTo - 1, half, SEND_MSG_SIZE);
    AddThenWrap(vir + HalfOffset(sendTo - 1, half, SEND_MSG_SIZE), 4);
    addr := GetPhyAddr(vir, dma, ToUInt32(sndmsg + 4));
  }

  /** Two stores one behind the other are one store of both. */
  lemma TwoStores(before: seq<Byte>, between: seq<Byte>, after: seq<Byte>, off: nat, w: seq<Byte>, data: Msg)
    requires off + |w| + |data| <= |before|
    requires between == before[..off] + w + before[off + |w|..]
    requires after == between[..off + |w|] + data + between[off + |w| + |data|..]
    ensures after == before[..off] + (w + data) + before[off + |w + data|..]
  {
    assert between[..off + |w|] == before[..off] + w;
    assert between[off + |w| + |data|..] == before[off + |w| + |data|..];
  }

  /** A little-endian word at an offset of a region. */
  ghost predicate IsWord(bytes: seq<Byte>, at: nat, value: int) {
    && at + 4 <= |bytes|
    && var b0: int, b1: int, b2: int, b3: int := bytes[at], bytes[at + 1], bytes[at + 2], bytes[at + 3];
       b0 + 0x100 * b1 + 0x1_0000 * b2 + 0x100_0000 * b3 == value
  }

  /** A filled half starts with the number of its destination. */
  lemma FilledWord(before: seq<Byte>, sendTo: int, half: nat, data: Msg)
    requires 1 <= sendTo <= IPC_SENDTO_MAX
    requires HalfStart(CoreOf(sendTo), half) + |Image(CoreOf(sendTo), data)| <= |before|
    ensures IsWord(Filled(before, CoreOf(sendTo), half, data), HalfStart(CoreOf(sendTo), half), sendTo)
  {
    FilledHolds(before, CoreOf(sendTo), half, data);
    ImageWord(Filled(before, CoreOf(sendTo), half, data), CoreOf(sendTo), half, data);
  }

  lemma PermitBack(p: seq<nat>, i: nat)
    requires i < |p| && p[i] > 0
    ensures p[i := p[i] - 1][i := p[i] - 1 + 1] == p
  {
  }

  class IpcCore {
    const dev: CcDev
    const info: MsqInfo
    const region: array<Byte>        // the send region
    const vir: UInt32                // its virtual and physical bases
    const dma: UInt32
    const phyBase: UInt32            // the window on shared memory
    const nonCacheBase: UInt32
    const pingponidx: array<nat>
    const semid: array<nat>          // the counts of the semaphores

    ghost predicate Valid()
      reads info.Repr, pingponidx
    {
      && info.Valid()
      && region.Length == REGION_SIZE
      && pingponidx.Length == IPC_SENDTO_MAX && semid.Length == IPC_SENDTO_MAX
      && (forall i :: 0 <= i < pingponidx.Length ==> pingponidx[i] < 2)
      && dev.block !in info.Repr && region !in info.Repr && pingponidx !in info.Repr && semid !in info.Repr
      && (region as object) != pingponidx && (region as object) != semid && pingponidx != semid
    }

    ghost function View(): CoreView
      requires info.Shape()
      reads dev.block, info.Repr, pingponidx, region
    {
      CoreView(info.View(), dev.block.words, dev.block.unacked, Contents(), Halves())
    }

    /** The bytes of the region, and the indices; each as a function of its own array only. */
    ghost function Contents(): seq<Byte>
      reads region
    {
      region[..]
    }

    ghost function Halves(): seq<nat>
      reads pingponidx
    {
      pingponidx[..]
    }

    /** The second loop of `ipc_msgque_init`: every semaphore free, every index at the first half. */
    constructor (dev: CcDev, info: MsqInfo, region: array<Byte>, vir: UInt32, dma: UInt32, phyBase: UInt32, nonCacheBase: UInt32)
      requires info.Valid() && region.Length == REGION_SIZE
      requires dev.block !in info.Repr && region !in info.Repr
      ensures Valid() && this.dev == dev && this.info == info && this.region == region
      ensures pingponidx[..] == [0, 0, 0] && semid[..] == [1, 1, 1]
    {
      this.dev, this.info, this.region := dev, info, region;
      this.vir, this.dma, this.phyBase, this.nonCacheBase := vir, dma, phyBase, nonCacheBase;
      pingponidx := new nat[IPC_SENDTO_MAX](_ => 0);
      semid := new nat[IPC_SENDTO_MAX](_ => 1);
    }

    /** `ipc_msgque_lockSndMsgBuff` once the semaphore is free: the half to fill, as a number. */
    method LockSndMsgBuff(sendTo: int) returns (half: nat)
      requires Valid() && 1 <= sendTo <= IPC_SENDTO_MAX && semid[sendTo - 1] > 0
      modifies pingponidx, semid
      ensures Valid() && half == old(pingponidx[sendTo - 1]) < 2
      ensures pingponidx[..] == old(pingponidx[..])[sendTo - 1 := 1 - half]
      ensures semid[..] == old(semid[..])[sendTo - 1 := old(semid[sendTo - 1]) - 1]
    {
      semid[sendTo - 1] := semid[sendTo - 1] - 1;
      if pingponidx[sendTo - 1] == 0 {
        pingponidx[sendTo - 1] := 1;
        half := 0;
      } else {
        pingponidx[sendTo - 1] := 0;
        half := 1;
      }
    }

    /** The pair a destination number stands for on this core. */
    function LinkTo(sendTo: int): Link {
      Link(dev.runningCore, CoreOf(sendTo))
    }

    /** What a filled half and a finished send leave behind. */
    ghost function FilledView(sendTo: int, data: Msg): CoreView
      requires Valid() && 1 <= sendTo <= IPC_SENDTO_MAX && |data| <= IPC_MSG_ELEMENT_SIZE
      reads dev.block, info.Repr, pingponidx, region
    {
      HalvesApart(CoreOf(sendTo), pingponidx[sendTo - 1], CoreOf(sendTo), pingponidx[sendTo - 1]);
      AfterFill(View(), CoreOf(sendTo), data)
    }

    ghost function SentView(key: UInt32, sendTo: int, data: Msg, serial: UInt16): CoreView
      requires Valid() && 1 <= sendTo <= IPC_SENDTO_MAX && |data| <= IPC_MSG_ELEMENT_SIZE
      requires CoreOf(sendTo) != dev.runningCore
      reads dev.block, info.Repr, pingponidx, region
    {
      Announced(FilledView(sendTo, data), LinkTo(sendTo), vir, dma, key, pingponidx[sendTo - 1], |data|, serial)
    }

    /** They are those of the runs in `SendProjects` and `RefusalProjects`. */
    lemma ViewsMean(key: UInt32, sendTo: int, data: Msg, serial: UInt16)
      requires Valid() && 1 <= sendTo <= IPC_SENDTO_MAX && |data| <= IPC_MSG_ELEMENT_SIZE
      ensures FitsRegion(View(), CoreOf(sendTo), data)
      ensures FilledView(sendTo, data) == AfterFill(View(), CoreOf(sendTo), data)
      ensures CoreOf(sendTo) != dev.runningCore ==>
                SentView(key, sendTo, data, serial) == AfterSnd(View(), LinkTo(sendTo), vir, dma, key, data, serial)
    {
      HalvesApart(CoreOf(sendTo), pingponidx[sendTo - 1], CoreOf(sendTo), pingponidx[sendTo - 1]);
    }

    /**
     * `ipc_msg_snd`, from the moment its waits are over: the semaphore of the destination is free and
     * the previous command acknowledged. `None` stands for NULL.
     */
    method MsgSnd(msqid: UInt32, sendTo: int, msgData: Option<seq<Byte>>, msgSize: UInt32, serial: UInt16) returns (ret: int)
      requires Valid() && 1 <= sendTo
      requires msgData.Some? ==> msgSize <= |msgData.value|
      requires sendTo <= IPC_SENDTO_MAX ==> semid[sendTo - 1] > 0 && LinkTo(sendTo) !in dev.block.unacked
      modifies dev.block, region, pingponidx, semid
      ensures Valid() && semid[..] == old(semid[..])
      ensures var live := old(ValidId(info.View(), msqid));
              && (ret == -1 <==> !live)
              && (ret == -2 <==> live && msgData == None)
              && (ret == -3 <==> live && msgData.Some? && sendTo > IPC_SENDTO_MAX)
              && (ret == -4 <==> live && msgData.Some? && sendTo <= IPC_SENDTO_MAX && msgSize > IPC_MSG_ELEMENT_SIZE)
              && (ret == -6 <==> live && msgData.Some? && sendTo <= IPC_SENDTO_MAX && msgSize <= IPC_MSG_ELEMENT_SIZE
                                 && CoreOf(sendTo) == dev.runningCore)
              && (ret == 0 || ret == -1 || ret == -2 || ret == -3 || ret == -4 || ret == -6)
      ensures -4 <= ret < 0 ==> View() == old(View())
      ensures ret == -6 ==> View() == old(FilledView(sendTo, msgData.value[..msgSize]))
      ensures ret == 0 ==> View() == old(SentView(KeyAt(View().tables, msqid), sendTo, msgData.value[..msgSize], serial))
      ensures ret == 0 || ret == -6 ==>
                Word(HalfStart(CoreOf(sendTo), old(pingponidx[sendTo - 1])), sendTo)
      ensures ret == 0 ==>
                Link(dev.runningCore, if sendTo == 1 then CPU1 else if sendTo == 2 then CPU2 else DSP) in dev.block.unacked
    {
      var q := info.GetQuebyID(msqid);
      if q == null {
        return -1;
      }
      if msgData == None {
        return -2;
      }
      if sendTo > IPC_SENDTO_MAX {
        return -3;
      }
      if msgSize > IPC_MSG_ELEMENT_SIZE {
        return -4;
      }
      ret := SendWithLock(q.sharekey, sendTo, msgData.value[..msgSize], serial);
    }

    /** The part of `ipc_msg_snd` between taking and releasing the semaphore. */
    method SendWithLock(key: UInt32, sendTo: int, data: Msg, serial: UInt16) returns (ret: int)
      requires Valid() && 1 <= sendTo <= IPC_SENDTO_MAX && |data| <= IPC_MSG_ELEMENT_SIZE
      requires semid[sendTo - 1] > 0 && LinkTo(sendTo) !in dev.block.unacked
      modifies dev.block, region, pingponidx, semid
      ensures Valid() && semid[..] == old(semid[..])
      ensures ret == if CoreOf(sendTo) == dev.runningCore then -6 else 0
      ensures ret != 0 ==> View() == old(FilledView(sendTo, data))
      ensures ret == 0 ==> View() == old(SentView(key, sendTo, data, serial))
      ensures Word(HalfStart(CoreOf(sendTo), old(pingponidx[sendTo - 1])), sendTo)
    {
      ghost var p := semid[..];
      ret := FillAndDispatch(key, sendTo, data, serial);
      Unlock(sendTo);
      PermitBack(p, sendTo - 1);
    }

    /** Its body up to the release. */
    method FillAndDispatch(key: UInt32, sendTo: int, data: Msg, serial: UInt16) returns (ret: int)
      requires Valid() && 1 <= sendTo <= IPC_SENDTO_MAX && |data| <= IPC_MSG_ELEMENT_SIZE
      requires semid[sendTo - 1] > 0 && LinkTo(sendTo) !in dev.block.unacked
      modifies dev.block, region, pingponidx, semid
      ensures Valid() && semid[..] == old(semid[..])[sendTo - 1 := old(semid[sendTo - 1]) - 1]
      ensures ret == if CoreOf(sendTo) == dev.runningCore then -6 else 0
      ensures ret != 0 ==> View() == old(FilledView(sendTo, data))
      ensures ret == 0 ==> View() == old(SentView(key, sendTo, data, serial))
      ensures Word(HalfStart(CoreOf(sendTo), old(pingponidx[sendTo - 1])), sendTo)
    {
      var half := LockAndFill(sendTo, data);
      var to := ReadBack(HalfStart(CoreOf(sendTo), half), sendTo);
      ret := Announce(key, to, half, |data|, serial);
    }

    /** The dispatch by the destination word read back from the half, on the view. */
    method Announce(key: UInt32, sendTo: int, half: nat, size: UInt32, serial: UInt16) returns (ret: int)
      requires Valid() && 1 <= sendTo <= IPC_SENDTO_MAX && LinkTo(sendTo) !in dev.block.unacked
      modifies dev.block
      ensures Valid() && ret == if CoreOf(sendTo) == dev.runningCore then -6 else 0
      ensures ret != 0 ==> View() == old(View())
      ensures ret == 0 ==> View() == Announced(old(View()), LinkTo(sendTo), vir, dma, key, half, size, serial)
    {
      ghost var v := View();
      ret := Dispatch(key, sendTo, half, size, serial);
      if ret == 0 {
        AnnouncedIs(v, View(), LinkTo(sendTo), vir, dma, key, half, size, serial);
      }
    }

    /** `ipc_msgque_unlockSndMsgBuff`. */
    method Unlock(sendTo: int)
      requires semid.Length == IPC_SENDTO_MAX && 1 <= sendTo <= IPC_SENDTO_MAX
      modifies semid
      ensures semid[..] == old(semid[..])[sendTo - 1 := old(semid[sendTo - 1]) + 1]
    {
      semid[sendTo - 1] := semid[sendTo - 1] + 1;
    }

    /** Take the semaphore and store the message. */
    method LockAndFill(sendTo: int, data: Msg) returns (half: nat)
      requires Valid() && 1 <= sendTo <= IPC_SENDTO_MAX && |data| <= IPC_MSG_ELEMENT_SIZE
      requires semid[sendTo - 1] > 0
      modifies region, pingponidx, semid
      ensures Valid() && half == old(pingponidx[sendTo - 1])
      ensures semid[..] == old(semid[..])[sendTo - 1 := old(semid[sendTo - 1]) - 1]
      ensures View() == old(FilledView(sendTo, data))
      ensures Word(HalfStart(CoreOf(sendTo), half), sendTo)
    {
      HalvesApart(CoreOf(sendTo), pingponidx[sendTo - 1], CoreOf(sendTo), pingponidx[sendTo - 1]);
      FilledWord(region[..], sendTo, pingponidx[sendTo - 1], data);
      half := LockSndMsgBuff(sendTo);
      FillHalf(sendTo, half, data);
    }

    /** The word at an offset of the region. */
    ghost predicate Word(at: nat, value: int)
      reads region
    {
      IsWord(Contents(), at, value)
    }

    /** `ipc_msg_snd` reads the destination back from the half to choose the core. */
    method ReadBack(at: nat, ghost value: int) returns (sendTo: int)
      requires Word(at, value)
      ensures sendTo == value
    {
      var b0: int, b1: int, b2: int, b3: int := region[at], region[at + 1], region[at + 2], region[at + 3];
      sendTo := b0 + 0x100 * b1 + 0x1_0000 * b2 + 0x100_0000 * b3;
    }

    /** A filled half is announced, or the message refused because it is for the own core. */
    method Dispatch(key: UInt32, sendTo: int, half: nat, size: UInt32, serial: UInt16) returns (ret: int)
      requires 1 <= sendTo <= IPC_SENDTO_MAX && LinkTo(sendTo) !in dev.block.unacked
      modifies dev.block
      ensures ret == if CoreOf(sendTo) == dev.runningCore then -6 else 0
      ensures ret != 0 ==> unchanged(dev.block)
      ensures ret == 0 ==>
                var addr := GetPhyAddr(vir, dma, ToUInt32(vir + DataOffset(CoreOf(sendTo), half)));
                && dev.block.words == PutCmd(old(dev.block.words), LinkTo(sendTo), Cmd(key, addr, size), serial)
                && dev.block.unacked == old(dev.block.unacked) + {LinkTo(sendTo)}
    {
      if CoreOf(sendTo) == dev.runningCore {
        ret := -6;
      } else {
        var addr := PayloadAddr(vir, dma, sendTo, half);
        ret := dev.SendCmd(CoreOf(sendTo), Cmd(key, addr, size), serial);
      }
    }

    /** The two stores of `ipc_msg_snd` into the half it was given. */
    method FillHalf(sendTo: int, half: nat, data: Msg)
      requires region.Length == REGION_SIZE
      requires 1 <= sendTo <= IPC_SENDTO_MAX && half < 2 && |data| <= IPC_MSG_ELEMENT_SIZE
      modifies region
      ensures HalfStart(CoreOf(sendTo), half) + |Image(CoreOf(sendTo), data)| <= REGION_SIZE
      ensures region[..] == Filled(old(region[..]), CoreOf(sendTo), half, data)
    {
      var off := DataOffset(CoreOf(sendTo), half);
      HalvesApart(CoreOf(sendTo), half, CoreOf(sendTo), half);
      ghost var before := region[..];
      CopyInto(region, off - 4, SendToWord(sendTo));
      ghost var between := region[..];
      CopyInto(region, off, data);
      TwoStores(before, between, region[..], off - 4, SendToWord(sendTo), data);
    }

    /** `ipc_core_handle_func`: find the queue, post the payload, and acknowledge only a posted one. */
    method CoreHandleFunc(getFrom: Core, memory: UInt32 -> Byte) returns (acked: bool)
      requires Valid() && getFrom != dev.runningCore
      modifies info.Repr, dev.block
      ensures Valid()
      ensures var l := Link(getFrom, dev.runningCore);
              var payload := Payload(phyBase, nonCacheBase, TakeCmd(old(dev.block.words), l), memory);
              && View() == AfterHandler(old(View()), l, payload)
              && (acked <==> Posts(old(View()), l, payload))
    {
      acked := false;
      var _, cmd := dev.GetCmd(getFrom);
      var msqid := info.GetIDbyKey(cmd.opcode);
      if msqid < 0 {
        return;
      }
      var payload := Payload(phyBase, nonCacheBase, cmd, memory);
      assert payload[..cmd.size] == payload;
      var ret := info.MsgPost(msqid, payload, cmd.size);
      if ret != 0 {
        return;
      }
      var _ := dev.SendAck(getFrom);
      acked := true;
    }
  }
}
