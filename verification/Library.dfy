/** The user library: lazy open of the device and a count of queues held, kept beside the driver's own record. */
module Library {
  import opened Common
  import opened Registry
  import opened Ownership

  /** The two static variables of a process: its descriptor, negative when closed, and its count. */
  datatype Lib = Lib(ipcfd: int, msqcnt: int)

  /** The count is the number of one bits in the driver's word for the open file. */
  ghost predicate Agrees(l: Lib, d: Driver) {
    if l.ipcfd >= 0 then l.ipcfd in d.files && |d.files[l.ipcfd]| == l.msqcnt else l.msqcnt == 0
  }

  /** `open` returned a descriptor not in use, or failed. */
  ghost predicate Fresh(d: Driver, fd: int) {
    fd >= 0 ==> fd !in d.files
  }

  // ---------- Operations ----------

  /** `ipc_open`; `fd` is what `open` returns if it is called. */
  function LibOpen(l: Lib, d: Driver, fd: int): (Lib, Driver) {
    if l.ipcfd >= 0 then (l, d)
    else (l.(ipcfd := fd), if fd >= 0 then OpenFile(d, fd) else d)
  }

  /** `ipc_msg_get`: the key is passed on as `UINT16`. */
  function LibGet(l: Lib, d: Driver, key: int, fd: int): (Lib, Driver, int)
    requires l.ipcfd >= 0 ==> l.ipcfd in d.files
  {
    var (l1, d1) := LibOpen(l, d, fd);
    if l1.ipcfd < 0 then (l1, d1, -1)
    else
      var (d2, rtn) := IoctlGet(d1, l1.ipcfd, key % TWO_16);
      (if rtn >= 0 then l1.(msqcnt := l1.msqcnt + 1) else l1, d2, rtn)
  }

  /** `ipc_msg_rel`: the device is closed when the count comes down to zero. */
  function LibRel(l: Lib, d: Driver, id: UInt32): (Lib, Driver, int)
    requires l.ipcfd >= 0 ==> l.ipcfd in d.files
  {
    if l.ipcfd < 0 then (l, d, -1)
    else
      var (d1, rtn) := IoctlRel(d, l.ipcfd, id);
      if rtn != 0 then (l, d1, rtn)
      else if l.msqcnt == 1 then (Lib(-1, 0), CloseFile(d1, l.ipcfd), rtn)
      else (l.(msqcnt := l.msqcnt - 1), d1, rtn)
  }

  // ---------- One call ----------

  lemma OpenAgrees(l: Lib, d: Driver, fd: int)
    requires Sound(d) && Agrees(l, d) && Fresh(d, fd)
    ensures var (l', d') := LibOpen(l, d, fd);
            Sound(d') && Agrees(l', d') && d'.tables == d.tables
  {
    if l.ipcfd < 0 && fd >= 0 {
      PerformKeepsSound(d, Open(fd));
    }
  }

  lemma GetAgrees(l: Lib, d: Driver, key: int, fd: int)
    requires Sound(d) && Agrees(l, d) && Fresh(d, fd)
    requires key % TWO_16 != 0 && HasToken(d.tables, key % TWO_16)
    ensures var (l', d', rtn) := LibGet(l, d, key, fd);
            && Sound(d') && Agrees(l', d')
            && (rtn >= 0 ==> l'.ipcfd >= 0 && rtn in d'.files[l'.ipcfd])
  {
    OpenAgrees(l, d, fd);
    var (l1, d1) := LibOpen(l, d, fd);
    if l1.ipcfd >= 0 {
      GetKeepsSound(d1, l1.ipcfd, key % TWO_16);
      GetKeepsOwned(d1, l1.ipcfd, key % TWO_16);
    }
  }

  /**
   * A release keeps count and word in step exactly when the process holds the queue and it can be
   * released, or neither. The one exception is the release of another process's queue as the last of
   * the count, where the close wipes out the difference.
   */
  lemma RelAgrees(l: Lib, d: Driver, id: UInt32)
    requires Agrees(l, d) && l.ipcfd >= 0
    ensures var (l', d', rtn) := LibRel(l, d, id);
            var ok := Releasable(d.tables, id);
            Agrees(l', d') <==> (ok <==> id in d.files[l.ipcfd]) || (ok && l.msqcnt == 1)
  {
    RelSucceeds(d.tables, id);
    var held := d.files[l.ipcfd];
    if id in held {
      assert held == (held - {id}) + {id};
    } else {
      assert held - {id} == held;
    }
  }

  lemma {:induction false} ReleaseNothing(r: Tables, i: nat)
    ensures ReleaseFrom(r, {}, i) == r
    decreases |r.queues| - i
  {
    if i < |r.queues| {
      ReleaseNothing(r, i + 1);
    }
  }

  /** Releasing held queues keeps everything in step, and the close at zero frees no queue of anybody. */
  lemma RelHeldAgrees(l: Lib, d: Driver, id: UInt32)
    requires Sound(d) && Agrees(l, d) && l.ipcfd >= 0 && id in d.files[l.ipcfd]
    ensures var (l', d', rtn) := LibRel(l, d, id);
            && rtn == 0 && Sound(d') && Agrees(l', d')
            && d'.tables == Rel(d.tables, id).0
            && (l'.ipcfd < 0 <==> d.files[l.ipcfd] == {id})
            && (l'.ipcfd < 0 ==> l.ipcfd !in d'.files)
  {
    RelKeepsSound(d, l.ipcfd, id);
    RelAgrees(l, d, id);
    var d1 := IoctlRel(d, l.ipcfd, id).0;
    var held := d.files[l.ipcfd];
    assert held == (held - {id}) + {id};
    assert held == {id} ==> |held| == 1;
    if l.msqcnt == 1 {
      assert |held - {id}| == 0;
      assert d1.files[l.ipcfd] == {};
      ReleaseNothing(d1.tables, 0);
      CloseKeepsSound(d1, l.ipcfd);
    }
  }

  /**
   * The results of a release, on an open device or a closed one: it is 0 exactly when it frees the queue,
   * and then the count goes down by one; any other result is negative and frees nothing.
   */
  lemma RelMeans(l: Lib, d: Driver, id: UInt32)
    requires l.ipcfd >= 0 ==> l.ipcfd in d.files
    ensures var (l', d', rtn) := LibRel(l, d, id);
            && (rtn == 0 <==> ValidId(d.tables, id) && !ValidId(d'.tables, id))
            && (rtn == 0 <==> l.ipcfd >= 0 && Releasable(d.tables, id))
            && (rtn == -2 <==> l.ipcfd >= 0 && ValidId(d.tables, id) && !HasToken(d.tables, d.tables.queues[id].key))
            && (rtn == -1 <==> l.ipcfd < 0 || !ValidId(d.tables, id))
            && -2 <= rtn <= 0
            && (rtn == 0 ==> l'.msqcnt == l.msqcnt - 1 && l'.ipcfd == if l.msqcnt == 1 then -1 else l.ipcfd)
            && (rtn == 0 && l.msqcnt == 1 ==> d'.files.Keys == d.files.Keys - {l.ipcfd})
            && (rtn < 0 ==> l' == l && d'.tables == d.tables)
            && (l.ipcfd < 0 ==> d' == d)
  {
    if l.ipcfd >= 0 {
      IoctlRelMeans(d, l.ipcfd, id);
      var d1 := IoctlRel(d, l.ipcfd, id).0;
      if !ValidId(d1.tables, id) {
        ReleaseNeverRevives(d1.tables, d1.files[l.ipcfd], 0, id);
      }
    }
  }

  /**
   * The results of a get: an id is that of a new queue under the key as a `UINT16`, and then the count goes
   * up by one; any other result is negative and changes neither the tables nor the count.
   */
  lemma GetMeans(l: Lib, d: Driver, key: int, fd: int)
    requires WellFormed(d.tables) && Fresh(d, fd) && (l.ipcfd >= 0 ==> l.ipcfd in d.files)
    ensures var (l', d', rtn) := LibGet(l, d, key, fd);
            var k := key % TWO_16;
            var isOpen := l.ipcfd >= 0 || fd >= 0;
            && (rtn >= 0 <==> isOpen && k !in AsMap(d.tables) && exists i :: 0 <= i < |d.tables.queues| && !d.tables.queues[i].live)
            && (rtn == -2 <==> isOpen && k !in AsMap(d.tables) && forall i :: 0 <= i < |d.tables.queues| ==> d.tables.queues[i].live)
            && (rtn == -1 <==> !isOpen || k in AsMap(d.tables))
            && rtn >= -2
            && l'.ipcfd == (if l.ipcfd >= 0 then l.ipcfd else fd)
            && l'.msqcnt == (if rtn >= 0 then l.msqcnt + 1 else l.msqcnt)
            && (rtn < 0 ==> d'.tables == d.tables)
            && (rtn >= 0 ==>
                  && !ValidId(d.tables, rtn) && ValidId(d'.tables, rtn) && d'.tables.queues[rtn].key == k
                  && WellFormed(d'.tables) && AsMap(d'.tables) == AsMap(d.tables)[k := []]
                  && l'.ipcfd in d'.files && rtn in d'.files[l'.ipcfd])
  {
    var (l1, d1) := LibOpen(l, d, fd);
    if l1.ipcfd >= 0 {
      IoctlGetMeans(d1, l1.ipcfd, key % TWO_16);
    }
  }

  // ---------- Every run of one process among others ----------

  datatype Event =
    | EvOpen(fd: int)             // ftok, snd and rcv open the device too
    | EvGet(key: int, fd: int)
    | EvRel(id: UInt32)
    | EvOthers(c: Call)           // calls on other files, names stored, messages posted and taken

  ghost predicate Permitted(l: Lib, d: Driver, e: Event) {
    match e
    case EvOpen(fd) => Fresh(d, fd)
    case EvGet(key, fd) => Fresh(d, fd) && key % TWO_16 != 0 && HasToken(d.tables, key % TWO_16)
    case EvRel(id) => l.ipcfd >= 0 ==> l.ipcfd in d.files && id in d.files[l.ipcfd]
    case EvOthers(c) => Allowed(d, c) && (c.Other? || c.f != l.ipcfd) && (c.Open? ==> c.f >= 0)
  }

  function Happen(l: Lib, d: Driver, e: Event): (Lib, Driver)
    requires l.ipcfd >= 0 ==> l.ipcfd in d.files
    requires e.EvOthers? && !e.c.Open? && !e.c.Other? ==> e.c.f in d.files
  {
    match e
    case EvOpen(fd) => LibOpen(l, d, fd)
    case EvGet(key, fd) => var (l', d', _) := LibGet(l, d, key, fd); (l', d')
    case EvRel(id) => var (l', d', _) := LibRel(l, d, id); (l', d')
    case EvOthers(c) => (l, Perform(d, c))
  }

  ghost predicate InStep(l: Lib, d: Driver) {
    Sound(d) && Agrees(l, d)
  }

  lemma EventKeepsStep(l: Lib, d: Driver, e: Event)
    requires InStep(l, d) && Permitted(l, d, e)
    ensures InStep(Happen(l, d, e).0, Happen(l, d, e).1)
  {
    match e
    case EvOpen(fd) => OpenAgrees(l, d, fd);
    case EvGet(key, fd) => GetAgrees(l, d, key, fd);
    case EvRel(id) => if l.ipcfd >= 0 { RelHeldAgrees(l, d, id); }
    case EvOthers(c) => PerformKeepsSound(d, c);
  }

  ghost predicate PermittedRun(l: Lib, d: Driver, events: seq<Event>)
    decreases |events|
  {
    events != [] ==>
      && (l.ipcfd >= 0 ==> l.ipcfd in d.files)
      && Permitted(l, d, events[0])
      && var (l', d') := Happen(l, d, events[0]);
         PermittedRun(l', d', events[1..])
  }

  function HappenAll(l: Lib, d: Driver, events: seq<Event>): (Lib, Driver)
    requires PermittedRun(l, d, events)
    decreases |events|
  {
    if events == [] then (l, d)
    else
      var (l', d') := Happen(l, d, events[0]);
      HappenAll(l', d', events[1..])
  }

  /**
   * Over every run in which callers release only queues they hold, whatever other processes do: the
   * count equals the number of queues the driver records for the process, a positive count means an
   * open device, and every live queue has exactly one owner.
   */
  lemma {:induction false} RunKeepsStep(l: Lib, d: Driver, events: seq<Event>)
    requires InStep(l, d) && PermittedRun(l, d, events)
    ensures var (l', d') := HappenAll(l, d, events);
            && Sound(d') && Agrees(l', d')
            && l'.msqcnt >= 0 && (l'.msqcnt > 0 ==> l'.ipcfd >= 0)
            && (l'.ipcfd >= 0 ==> l'.msqcnt == |d'.files[l'.ipcfd]|)
    decreases |events|
  {
    if events != [] {
      EventKeepsStep(l, d, events[0]);
      var (l', d') := Happen(l, d, events[0]);
      RunKeepsStep(l', d', events[1..]);
    }
  }

  // ---------- The open file ----------

  /** The open files are those of the others, and the one of the process while it has a descriptor. */
  ghost predicate OneFile(l: Lib, d: Driver, others: set<int>) {
    && (l.ipcfd >= 0 ==> l.ipcfd !in others)
    && d.files.Keys == if l.ipcfd >= 0 then others + {l.ipcfd} else others
  }

  /** The files the others have open, by their own calls. */
  function OthersStep(others: set<int>, e: Event): set<int> {
    match e
    case EvOthers(Open(f)) => others + {f}
    case EvOthers(Close(f)) => others - {f}
    case _ => others
  }

  function OthersAfter(others: set<int>, events: seq<Event>): set<int>
    decreases |events|
  {
    if events == [] then others else OthersAfter(OthersStep(others, events[0]), events[1..])
  }

  /**
   * One event: the process still has one file, and its descriptor, once it has one, changes only with the
   * release that brings the count to zero, which takes it away.
   */
  lemma EventKeepsFile(l: Lib, d: Driver, e: Event, others: set<int>)
    requires InStep(l, d) && Permitted(l, d, e) && OneFile(l, d, others)
    ensures var (l', d') := Happen(l, d, e);
            && OneFile(l', d', OthersStep(others, e))
            && (l.ipcfd >= 0 ==>
                  if e.EvRel? && l.msqcnt == 1 then l' == Lib(-1, 0) else l'.ipcfd == l.ipcfd)
            && (l.ipcfd < 0 && l'.ipcfd >= 0 ==> e.EvOpen? || e.EvGet?)
  {
    match e
    case EvOpen(fd) => OpenKeepsFile(l, d, fd, others);
    case EvGet(key, fd) => GetKeepsFile(l, d, key, fd, others);
    case EvRel(id) => if l.ipcfd >= 0 { RelKeepsFile(l, d, id, others); }
    case EvOthers(c) => OthersKeepFile(l, d, c, others);
  }

  lemma OpenKeepsFile(l: Lib, d: Driver, fd: int, others: set<int>)
    requires Fresh(d, fd) && OneFile(l, d, others)
    ensures var (l', d') := LibOpen(l, d, fd);
            OneFile(l', d', others) && (l.ipcfd >= 0 ==> l' == l)
  {
    if l.ipcfd < 0 && fd >= 0 {
      assert OpenFile(d, fd).files.Keys == d.files.Keys + {fd};
    }
  }

  lemma GetKeepsFile(l: Lib, d: Driver, key: int, fd: int, others: set<int>)
    requires Fresh(d, fd) && OneFile(l, d, others)
    ensures var (l', d', _) := LibGet(l, d, key, fd);
            OneFile(l', d', others) && (l.ipcfd >= 0 ==> l'.ipcfd == l.ipcfd)
  {
    OpenKeepsFile(l, d, fd, others);
    var (l1, d1) := LibOpen(l, d, fd);
    if l1.ipcfd >= 0 {
      assert IoctlGet(d1, l1.ipcfd, key % TWO_16).0.files.Keys == d1.files.Keys;
    }
  }

  lemma RelKeepsFile(l: Lib, d: Driver, id: UInt32, others: set<int>)
    requires Sound(d) && l.ipcfd in d.files && id in d.files[l.ipcfd]
    requires l.ipcfd >= 0 && OneFile(l, d, others)
    ensures var (l', d', _) := LibRel(l, d, id);
            OneFile(l', d', others) && if l.msqcnt == 1 then l' == Lib(-1, 0) else l'.ipcfd == l.ipcfd
  {
    RelKeepsSound(d, l.ipcfd, id);
    var d1 := IoctlRel(d, l.ipcfd, id).0;
    assert d1.files.Keys == d.files.Keys;
    assert CloseFile(d1, l.ipcfd).files.Keys == others;
  }

  lemma OthersKeepFile(l: Lib, d: Driver, c: Call, others: set<int>)
    requires InStep(l, d) && Permitted(l, d, EvOthers(c)) && OneFile(l, d, others)
    ensures OneFile(l, Perform(d, c), OthersStep(others, EvOthers(c)))
  {
    match c
    case Open(f) => assert Perform(d, c).files.Keys == d.files.Keys + {f};
    case Close(f) => assert Perform(d, c).files.Keys == d.files.Keys - {f};
    case GetCall(f, key) => assert Perform(d, c).files.Keys == d.files.Keys;
    case RelCall(f, id) => assert Perform(d, c).files.Keys == d.files.Keys;
    case Other(op) =>
  }

  /** No release on the way takes the count from one to zero. */
  ghost predicate NeverLast(l: Lib, d: Driver, events: seq<Event>)
    requires PermittedRun(l, d, events)
    decreases |events|
  {
    events != [] ==>
      && !(events[0].EvRel? && l.msqcnt == 1)
      && var (l', d') := Happen(l, d, events[0]);
         NeverLast(l', d', events[1..])
  }

  /**
   * Over every permitted run the process has at most one file open, the one of its descriptor, whatever
   * the others open and close; and it keeps its descriptor until the release that brings the count to zero.
   */
  lemma {:induction false} RunKeepsFile(l: Lib, d: Driver, events: seq<Event>, others: set<int>)
    requires InStep(l, d) && PermittedRun(l, d, events) && OneFile(l, d, others)
    ensures var (l', d') := HappenAll(l, d, events);
            && OneFile(l', d', OthersAfter(others, events))
            && (l.ipcfd >= 0 && NeverLast(l, d, events) ==> l'.ipcfd == l.ipcfd)
    decreases |events|
  {
    if events != [] {
      EventKeepsStep(l, d, events[0]);
      EventKeepsFile(l, d, events[0], others);
      var (l', d') := Happen(l, d, events[0]);
      RunKeepsFile(l', d', events[1..], OthersStep(others, events[0]));
    }
  }

  lemma {:induction false} OthersNone(events: seq<Event>)
    requires forall i :: 0 <= i < |events| ==> !events[i].EvOthers?
    ensures OthersAfter({}, events) == {}
    decreases |events|
  {
    if events != [] {
      OthersNone(events[1..]);
    }
  }

  /** A process alone, from the start: the open files are exactly its descriptor, or none. */
  lemma OwnRunOpensOne(d: Driver, events: seq<Event>)
    requires Sound(d) && d.files == map[] && PermittedRun(Lib(-1, 0), d, events)
    requires forall i :: 0 <= i < |events| ==> !events[i].EvOthers?
    ensures var (l', d') := HappenAll(Lib(-1, 0), d, events);
            d'.files.Keys == if l'.ipcfd >= 0 then {l'.ipcfd} else {}
  {
    RunKeepsFile(Lib(-1, 0), d, events, {});
    OthersNone(events);
  }
}
