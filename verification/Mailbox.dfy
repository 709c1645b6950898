/** The core communicator: three command registers per ordered pair of cores, and the ack handshake. */
module Mailbox {
  import opened Common

  datatype Core = CPU1 | CPU2 | DSP

  datatype Link = Link(src: Core, dst: Core)

  datatype Cmd = Cmd(opcode: UInt32, addr: UInt32, size: UInt32)

  datatype Offsets = Offsets(buf1: int, buf2: int, buf3: int)

  type Words = map<int, UInt32>

  function ReadWord(w: Words, offset: int): UInt32 {
    if offset in w then w[offset] else 0
  }

  /** The registers `ipc_cc_send_cmd` writes on `running` to reach `to`. */
  function SendOffsets(running: Core, to: Core): Option<Offsets> {
    match running
    case CPU1 =>
      if to == CPU2 then Some(Offsets(0x100, 0x104, 0x108))
      else if to == DSP then Some(Offsets(0x10C, 0x110, 0x114))
      else None
    case CPU2 =>
      if to == CPU1 then Some(Offsets(0x118, 0x11C, 0x120))
      else if to == DSP then Some(Offsets(0x124, 0x128, 0x12C))
      else None
    case DSP =>
      if to == CPU1 then Some(Offsets(0x130, 0x134, 0x138))
      else if to == CPU2 then Some(Offsets(0x13C, 0x140, 0x144))
      else None
  }

  /** The registers `ipc_cc_get_cmd` reads on `running` for a command from `from`. */
  function GetOffsets(running: Core, from: Core): Option<Offsets> {
    match running
    case CPU1 =>
      if from == CPU2 then Some(Offsets(0x118, 0x11C, 0x120))
      else if from == DSP then Some(Offsets(0x130, 0x134, 0x138))
      else None
    case CPU2 =>
      if from == CPU1 then Some(Offsets(0x100, 0x104, 0x108))
      else if from == DSP then Some(Offsets(0x13C, 0x140, 0x144))
      else None
    case DSP =>
      if from == CPU1 then Some(Offsets(0x10C, 0x110, 0x114))
      else if from == CPU2 then Some(Offsets(0x124, 0x128, 0x12C))
      else None
  }

  /** The first command word: a 16-bit opcode above a serial number that nobody sets. */
  function PackOpcode(opcode: UInt32, serial: UInt16): UInt32 {
    (opcode % TWO_16) * TWO_16 + serial
  }

  function UnpackOpcode(word: UInt32): UInt16 {
    word / TWO_16
  }

  /** The register file after a command has been written for a pair of distinct cores. */
  function PutCmd(w: Words, l: Link, cmd: Cmd, serial: UInt16): Words
    requires l.src != l.dst
  {
    var o := SendOffsets(l.src, l.dst).value;
    w[o.buf1 := PackOpcode(cmd.opcode, serial)][o.buf2 := cmd.addr][o.buf3 := cmd.size]
  }

  /** The command the receiving core reads for a pair of distinct cores. */
  function TakeCmd(w: Words, l: Link): Cmd
    requires l.src != l.dst
  {
    var o := GetOffsets(l.dst, l.src).value;
    Cmd(UnpackOpcode(ReadWord(w, o.buf1)), ReadWord(w, o.buf2), ReadWord(w, o.buf3))
  }

  /** A command as it arrives: its opcode is cut to 16 bits. */
  function Arriving(cmd: Cmd): Cmd {
    cmd.(opcode := cmd.opcode % TWO_16)
  }

  lemma PackRoundTrip(opcode: UInt32, serial: UInt16)
    ensures UnpackOpcode(PackOpcode(opcode, serial)) == opcode % TWO_16
  {
  }

  /** Both sides use the same registers for a pair, and no register belongs to two pairs. */
  lemma PairsOwnRegisters(l: Link, m: Link)
    requires l.src != l.dst && m.src != m.dst
    ensures SendOffsets(l.src, l.dst) == GetOffsets(l.dst, l.src) != None
    ensures var a, b := SendOffsets(l.src, l.dst).value, SendOffsets(m.src, m.dst).value;
            && a.buf1 < a.buf2 < a.buf3
            && (l != m ==> {a.buf1, a.buf2, a.buf3} !! {b.buf1, b.buf2, b.buf3})
  {
  }

  /** A written command is what its own receiver reads, and nobody else notices it. */
  lemma PutThenTake(w: Words, l: Link, cmd: Cmd, serial: UInt16, m: Link)
    requires l.src != l.dst && m.src != m.dst
    ensures TakeCmd(PutCmd(w, l, cmd, serial), m) == if m == l then Arriving(cmd) else TakeCmd(w, m)
  {
    PairsOwnRegisters(l, m);
    PairsOwnRegisters(m, l);
    PackRoundTrip(cmd.opcode, serial);
  }

  /** The pairs in the order of their registers. */
  function PairNumber(l: Link): nat
    requires l.src != l.dst
  {
    match l.src
    case CPU1 => if l.dst == CPU2 then 0 else 1
    case CPU2 => if l.dst == CPU1 then 2 else 3
    case DSP => if l.dst == CPU1 then 4 else 5
  }

  /** The command registers lie one behind the other from offset 0x100 on, three words a pair, and both sides use them. */
  lemma RegisterMap(l: Link)
    requires l.src != l.dst
    ensures var base := 0x100 + 12 * PairNumber(l);
            SendOffsets(l.src, l.dst) == GetOffsets(l.dst, l.src) == Some(Offsets(base, base + 4, base + 8))
  {
  }

  /**
   * The register file after a send, word by word: the first word of the pair carries the opcode in its
   * upper half, cut to 16 bits, and the serial number in its lower; the next two are address and size;
   * no other word changes.
   */
  lemma RegistersAfterSend(w: Words, l: Link, cmd: Cmd, serial: UInt16, offset: int)
    requires l.src != l.dst
    ensures var base := 0x100 + 12 * PairNumber(l);
            var w' := PutCmd(w, l, cmd, serial);
            && ReadWord(w', base) / TWO_16 == cmd.opcode % TWO_16 && ReadWord(w', base) % TWO_16 == serial
            && ReadWord(w', base + 4) == cmd.addr && ReadWord(w', base + 8) == cmd.size
            && (offset != base && offset != base + 4 && offset != base + 8 ==> ReadWord(w', offset) == ReadWord(w, offset))
  {
    RegisterMap(l);
    HalvesOfWord(cmd.opcode, serial);
  }

  lemma HalvesOfWord(opcode: UInt32, serial: UInt16)
    ensures PackOpcode(opcode, serial) / TWO_16 == opcode % TWO_16 && PackOpcode(opcode, serial) % TWO_16 == serial
  {
  }

  /** What a receiver makes of the registers of its pair, whatever they hold. */
  lemma CommandRead(w: Words, l: Link)
    requires l.src != l.dst
    ensures var base := 0x100 + 12 * PairNumber(l);
            TakeCmd(w, l) == Cmd(ReadWord(w, base) / TWO_16, ReadWord(w, base + 4), ReadWord(w, base + 8))
  {
    RegisterMap(l);
  }

  // ---------- Any sequence of sends ----------

  datatype Send = Send(link: Link, cmd: Cmd, serial: UInt16)

  ghost predicate BetweenDistinctCores(log: seq<Send>) {
    forall s :: s in log ==> s.link.src != s.link.dst
  }

  function AfterSends(w: Words, log: seq<Send>): Words
    requires BetweenDistinctCores(log)
    decreases |log|
  {
    if log == [] then w
    else
      var n := |log| - 1;
      PutCmd(AfterSends(w, log[..n]), log[n].link, log[n].cmd, log[n].serial)
  }

  /** What the register file stands for: the last command sent on each pair, if any. */
  function LastSent(log: seq<Send>, l: Link): Option<Cmd>
    decreases |log|
  {
    if log == [] then None
    else
      var n := |log| - 1;
      if log[n].link == l then Some(log[n].cmd) else LastSent(log[..n], l)
  }

  /**
   * After any sequence of sends the receiver of a pair reads the last command of that pair, whatever
   * the serial half-words and the other pairs carried; it reads it exactly when its opcode fits.
   */
  lemma {:induction false} MailboxRefines(w: Words, log: seq<Send>, l: Link)
    requires BetweenDistinctCores(log) && l.src != l.dst
    ensures match LastSent(log, l)
            case None => TakeCmd(AfterSends(w, log), l) == TakeCmd(w, l)
            case Some(cmd) =>
              && TakeCmd(AfterSends(w, log), l) == Arriving(cmd)
              && (TakeCmd(AfterSends(w, log), l) == cmd <==> cmd.opcode < TWO_16)
    decreases |log|
  {
    if log != [] {
      var n := |log| - 1;
      MailboxRefines(w, log[..n], l);
      PutThenTake(AfterSends(w, log[..n]), log[n].link, log[n].cmd, log[n].serial, l);
    }
  }

  // ---------- The driver ----------

  /** The register block shared by the cores, and the pairs whose last command has no ack yet. */
  class RegisterBlock {
    var words: Words
    var unacked: set<Link>

    constructor ()
      ensures unacked == {}
    {
      words := map[];
      unacked := {};
    }
  }

  /** The communicator as one core sees it. */
  class CcDev {
    const runningCore: Core
    const block: RegisterBlock

    constructor (runningCore: Core, block: RegisterBlock)
      ensures this.runningCore == runningCore && this.block == block
    {
      this.runningCore := runningCore;
      this.block := block;
    }

    /**
     * `ipc_cc_send_cmd` once the wait for the previous ack is over. The serial half-word is whatever
     * the uninitialised command word held.
     */
    method SendCmd(sendTo: Core, cmd: Cmd, serial: UInt16) returns (ret: int)
      requires Link(runningCore, sendTo) !in block.unacked
      modifies block
      ensures ret == if sendTo == runningCore then -1 else 0
      ensures ret != 0 ==> unchanged(block)
      ensures ret == 0 ==>
                && block.words == PutCmd(old(block.words), Link(runningCore, sendTo), cmd, serial)
                && block.unacked == old(block.unacked) + {Link(runningCore, sendTo)}
    {
      var offsets := SendOffsets(runningCore, sendTo);
      if offsets == None {
        return -1;
      }
      var cmdbuf1 := PackOpcode(cmd.opcode, serial);
      block.words := block.words[offsets.value.buf1 := cmdbuf1];
      block.words := block.words[offsets.value.buf2 := cmd.addr];
      block.words := block.words[offsets.value.buf3 := cmd.size];
      block.unacked := block.unacked + {Link(runningCore, sendTo)};
      ret := 0;
    }

    /** `ipc_cc_get_cmd`. */
    method GetCmd(getFrom: Core) returns (ret: int, cmd: Cmd)
      ensures ret == if getFrom == runningCore then -1 else 0
      ensures ret == 0 ==> cmd == TakeCmd(block.words, Link(getFrom, runningCore))
    {
      var offsets := GetOffsets(runningCore, getFrom);
      if offsets == None {
        return -1, Cmd(0, 0, 0);
      }
      var cmdbuf1 := ReadWord(block.words, offsets.value.buf1);
      cmd := Cmd(UnpackOpcode(cmdbuf1),
                 ReadWord(block.words, offsets.value.buf2),
                 ReadWord(block.words, offsets.value.buf3));
      ret := 0;
    }

    /** `ipc_cc_send_ack`: the command last received from `sendTo` is acknowledged. */
    method SendAck(sendTo: Core) returns (ret: int)
      modifies block`unacked
      ensures ret == if sendTo == runningCore then -3 else 0
      ensures block.unacked == if ret == 0 then old(block.unacked) - {Link(sendTo, runningCore)} else old(block.unacked)
    {
      if sendTo == runningCore {
        return -3;
      }
      block.unacked := block.unacked - {Link(sendTo, runningCore)};
      ret := 0;
    }
  }
}
