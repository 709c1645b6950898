/**
 * The queue table and the token table as the driver updates them: each locked section is one
 * method, proved against the operation of the same name in module Registry.
 */
module MsgQueue {
  import opened Common
  import opened NameHash
  import opened RingBuffer
  import opened Registry

  class MsgQue {
    var initkey: UInt32
    var sharekey: UInt32
    var msqid: UInt32
    var indx: UInt32
    var outdx: UInt32
    var count: UInt32
    const element: array<IpcMsg>

    // Every message accepted since the queue was handed out, and how many of them were taken.
    ghost var posted: seq<Msg>
    ghost var taken: nat

    ghost predicate Valid()
      reads this, element
    {
      && 0 < element.Length < TWO_32
      && (forall e :: e in element[..] ==> |e.data| == IPC_MSG_ELEMENT_SIZE)
      && (initkey == CFG_IPC_INIT_KEY ==> RingRep(element[..], indx, outdx, count, posted, taken))
    }

    ghost function View(): Queue
      reads this
    {
      var live := initkey == CFG_IPC_INIT_KEY;
      Queue(live, sharekey, if live && taken <= |posted| then posted[taken..] else [])
    }

    /** The fields of the circular buffer. */
    ghost function Fields(): Ring
      reads this, element
    {
      Ring(element[..], indx, outdx, count)
    }

    constructor (elementNum: nat)
      requires 0 < elementNum < TWO_32
      ensures Valid() && fresh(element) && element.Length == elementNum
      ensures !View().live
    {
      initkey := 0;
      element := new IpcMsg[elementNum](_ => IpcMsg(0, seq(IPC_MSG_ELEMENT_SIZE, _ => 0)));
      posted, taken := [], 0;
    }

    predicate IsEmpty()
      reads this
    {
      count == 0
    }

    predicate IsFull()
      reads this
    {
      count >= element.Length
    }

    predicate IsValid(key: UInt32)
      reads this
    {
      initkey == CFG_IPC_INIT_KEY && key == sharekey
    }

    /** What a live queue shows: the messages posted and not yet taken, never more than its slots. */
    lemma LiveView()
      requires Valid() && initkey == CFG_IPC_INIT_KEY
      ensures View().msgs == posted[taken..] && count == |View().msgs|
      ensures ValidQueue(View(), element.Length)
      ensures IsEmpty() <==> View().msgs == []
      ensures IsFull() <==> |View().msgs| == element.Length
    {
      var msgs := posted[taken..];
      forall m | m in msgs ensures |m| <= IPC_MSG_ELEMENT_SIZE {
        var k :| 0 <= k < |msgs| && msgs[k] == m;
        assert element[..][(taken + k) % element.Length].Holds(posted[taken + k]);
      }
    }

    method Enqueue(msg: IpcMsg) returns (ret: int)
      requires Valid() && initkey == CFG_IPC_INIT_KEY
      requires msg.size <= |msg.data| && msg.size <= IPC_MSG_ELEMENT_SIZE
      modifies this`indx, this`count, this`posted, element
      ensures Valid()
      ensures ret == if |old(View()).msgs| < element.Length then 0 else -1
      ensures posted == if ret == 0 then old(posted) + [msg.data[..msg.size]] else old(posted)
      ensures Fields() == RingStep(old(Fields()), Put(msg.data[..msg.size])).0
      ensures ret == 0 ==> View() == old(View()).(msgs := old(View()).msgs + [msg.data[..msg.size]])
      ensures ret != 0 ==> unchanged(this) && unchanged(element)
    {
      ghost var m := msg.data[..msg.size];
      LiveView();
      PutHolds(Fields(), m, posted, taken);
      if IsFull() {
        return -1;
      }
      Store(msg);
      assert (posted + [m])[taken..] == posted[taken..] + [m];
      posted := posted + [m];
      ret := 0;
    }

    /** The slot, the index and the count of an enqueue that has room. */
    method Store(msg: IpcMsg)
      requires 0 < element.Length < TWO_32 && count < element.Length
      requires forall e :: e in element[..] ==> |e.data| == IPC_MSG_ELEMENT_SIZE
      requires msg.size <= |msg.data| && msg.size <= IPC_MSG_ELEMENT_SIZE
      requires Fields().outdx < element.Length
      modifies this`indx, this`count, element
      ensures Fields() == RingStep(old(Fields()), Put(msg.data[..msg.size])).0
    {
      ghost var before := Fields();
      var i: UInt32 := (indx + 1) % element.Length;
      assert element[i] in element[..];
      indx := i;
      element[i] := IpcMsg(msg.size, Overwrite(element[i].data, msg.data[..msg.size], msg.size));
      count := count + 1;
      assert element[..] == before.element[i := element[i]];
      assert ToUInt32(msg.size) == msg.size;
    }

    method Dequeue() returns (ret: int, m: Msg)
      requires Valid() && initkey == CFG_IPC_INIT_KEY
      modifies this`outdx, this`count, this`taken
      ensures Valid()
      ensures ret == if old(View()).msgs == [] then -1 else 0
      ensures ret == 0 ==> m == old(View()).msgs[0] == old(posted[taken]) && taken == old(taken) + 1
      ensures ret == 0 ==> View() == old(View()).(msgs := old(View()).msgs[1..])
      ensures ret != 0 ==> unchanged(this) && m == []
      ensures (Fields(), if ret == 0 then [m] else []) == RingStep(old(Fields()), Take)
    {
      LiveView();
      ghost var before := Fields();
      TakeHolds(before, posted, taken);
      if IsEmpty() {
        return -1, [];
      }
      var slot := element[outdx];
      assert slot == before.element[outdx];
      outdx := (outdx + 1) % element.Length;
      m := slot.data[..slot.size];
      count := count - 1;
      taken := taken + 1;
      assert Fields() == RingStep(before, Take).0;
      ret := 0;
    }
  }

  class MsqInfo {
    const elementNum: nat
    const msgQueTbl: seq<MsgQue>
    const msgQueTokenStr: array<Row>
    ghost const Repr: set<object>

    ghost predicate Shape() {
      && |msgQueTbl| < TWO_32
      && this !in Repr && msgQueTokenStr in Repr
      && (forall q :: q in msgQueTbl ==> q in Repr && q.element in Repr && q.element.Length == elementNum)
      && (forall i, j :: 0 <= i < j < |msgQueTbl| ==>
            msgQueTbl[i] != msgQueTbl[j] && msgQueTbl[i].element != msgQueTbl[j].element)
    }

    /** Every entry is valid by itself and, while live, knows its own index. */
    ghost predicate Entries()
      reads Repr
    {
      && Shape()
      && forall i :: 0 <= i < |msgQueTbl| ==>
           && msgQueTbl[i].Valid()
           && (msgQueTbl[i].initkey == CFG_IPC_INIT_KEY ==> msgQueTbl[i].msqid == i)
    }

    ghost predicate Valid()
      reads Repr
    {
      Entries() && WellFormed(View())
    }

    ghost function View(): Tables
      requires Shape()
      reads Repr
    {
      Tables(elementNum,
               seq(|msgQueTbl|, i requires 0 <= i < |msgQueTbl| reads msgQueTbl => msgQueTbl[i].View()),
               msgQueTokenStr[..])
    }

    /** `ipc_msgque_init`: no live queue and no stored name, whatever the fresh memory holds. */
    constructor (queueNum: nat, elementNum: nat, memory: seq<Row>)
      requires queueNum < TWO_32 && 0 < elementNum < TWO_32 && |memory| == queueNum
      ensures Valid() && fresh(Repr)
      ensures View().cap == elementNum && |View().queues| == queueNum == |View().tokens|
      ensures forall i :: 0 <= i < queueNum ==> !View().queues[i].live
      ensures forall i :: 0 <= i < queueNum ==> View().tokens[i] == memory[i][0 := 0]
    {
      this.elementNum := elementNum;
      var tbl: seq<MsgQue> := [];
      ghost var repr: set<object> := {};
      while |tbl| < queueNum
        invariant |tbl| <= queueNum
        invariant fresh(repr)
        invariant forall q :: q in tbl ==> q in repr && q.element in repr
        invariant forall q :: q in tbl ==> q.Valid() && !q.View().live && q.element.Length == elementNum
        invariant forall i, j :: 0 <= i < j < |tbl| ==> tbl[i] != tbl[j] && tbl[i].element != tbl[j].element
      {
        var q := new MsgQue(elementNum);
        tbl := tbl + [q];
        repr := repr + {q, q.element};
      }
      var tokens := new Row[queueNum](i requires 0 <= i < queueNum => memory[i][0 := 0]);
      msgQueTbl := tbl;
      msgQueTokenStr := tokens;
      Repr := repr + {tokens};
    }

    /** Entries that are valid one by one and show a well-formed table make valid tables. */
    lemma EntriesShow(after: Tables)
      requires Shape() && WellFormed(after)
      requires after.cap == elementNum && after.tokens == msgQueTokenStr[..]
      requires |after.queues| == |msgQueTbl|
      requires forall j :: 0 <= j < |msgQueTbl| ==>
                 && msgQueTbl[j].Valid() && msgQueTbl[j].View() == after.queues[j]
                 && (msgQueTbl[j].initkey == CFG_IPC_INIT_KEY ==> msgQueTbl[j].msqid == j)
      ensures Valid() && View() == after
    {
      assert View().queues == after.queues;
    }

    /** What an entry shows through its own fields. */
    lemma EntryView(i: nat)
      requires Valid() && i < |msgQueTbl|
      ensures msgQueTbl[i].Valid() && msgQueTbl[i].View() == View().queues[i]
      ensures View().queues[i].live ==> (msgQueTbl[i].IsEmpty() <==> View().queues[i].msgs == [])
      ensures forall key: UInt32 :: msgQueTbl[i].IsValid(key) <==> View().queues[i].live && View().queues[i].key == key
    {
      if msgQueTbl[i].initkey == CFG_IPC_INIT_KEY {
        msgQueTbl[i].LiveView();
      }
    }

    /** `ipc_msgque_ftok`: store the name in the first empty row and return its key. */
    method Ftok(path: CString) returns (key: UInt16)
      requires Valid()
      modifies msgQueTokenStr
      ensures Valid()
      ensures View() == Registry.Ftok(old(View()), path) && key == Hash(path)
    {
      var i := 0;
      while i < msgQueTokenStr.Length
        invariant 0 <= i <= msgQueTokenStr.Length
        invariant msgQueTokenStr[..] == old(msgQueTokenStr[..])
        invariant forall j :: 0 <= j < i ==> msgQueTokenStr[j][0] != 0
      {
        if msgQueTokenStr[i][0] == 0 {
          break;
        }
        i := i + 1;
      }
      assert i == FirstEmptyRow(msgQueTokenStr[..]);
      if i < msgQueTokenStr.Length {
        msgQueTokenStr[i] := StrNCpy(msgQueTokenStr[i], path);
      }
      ApplyKeepsWellFormed(old(View()), FtokOp(path));
      assert View().queues == old(View()).queues;
      key := ComputeNameHash(path);
    }

    /** `ipc_msgque_getIDbyKey`: the id stored in the first live entry with the key. */
    method GetIDbyKey(key: int) returns (ret: int)
      requires Valid()
      ensures ret == IdOf(View(), key)
    {
      var i := 0;
      while i < |msgQueTbl|
        invariant 0 <= i <= |msgQueTbl|
        invariant forall j :: 0 <= j < i ==> !(View().queues[j].live && View().queues[j].key == ToUInt32(key))
      {
        if msgQueTbl[i].initkey == CFG_IPC_INIT_KEY && ToUInt32(key) == msgQueTbl[i].sharekey {
          assert View().queues[i] == msgQueTbl[i].View();
          return msgQueTbl[i].msqid;
        }
        assert View().queues[i] == msgQueTbl[i].View();
        i := i + 1;
      }
      ret := -3;
    }

    /** `ipc_msgque_getQuebyID`: the entry itself, or null when the id is out of range or not live. */
    method GetQuebyID(msqid: UInt32) returns (q: MsgQue?)
      requires Valid()
      ensures q != null <==> ValidId(View(), msqid)
      ensures q != null ==> q == msgQueTbl[msqid] && q.View() == View().queues[msqid]
    {
      if msqid >= |msgQueTbl| {
        return null;
      }
      assert View().queues[msqid] == msgQueTbl[msqid].View();
      if msgQueTbl[msqid].initkey != CFG_IPC_INIT_KEY {
        return null;
      }
      q := msgQueTbl[msqid];
    }

    /**
     * `ipc_msgque_getTokenByKey`: the first row whose string hashes to the key, re-hashing each; a string
     * that does not end in its row is read on into the next.
     */
    method GetTokenByKey(key: UInt32) returns (row: nat)
      requires Shape()
      ensures row == FirstRowOf(msgQueTokenStr[..], key)
    {
      row := 0;
      while row < msgQueTokenStr.Length
        invariant 0 <= row <= msgQueTokenStr.Length
        invariant forall j :: 0 <= j < row ==> TokenKey(msgQueTokenStr[..], j) != key
      {
        var hash := ComputeNameHash(StringFrom(msgQueTokenStr[..], row));
        if hash == key {
          break;
        }
        row := row + 1;
      }
      FirstRowIs(msgQueTokenStr[..], key, row);
    }

    /** The first scan of `ipc_msgque_get`: is the key taken by a live queue? */
    method KeyInUse(key: UInt32) returns (found: bool)
      requires Valid()
      ensures found <==> FirstLive(View().queues, key) < |msgQueTbl|
    {
      var i := 0;
      while i < |msgQueTbl|
        invariant 0 <= i <= |msgQueTbl|
        invariant forall j :: 0 <= j < i ==> !(View().queues[j].live && View().queues[j].key == key)
      {
        assert View().queues[i] == msgQueTbl[i].View();
        if msgQueTbl[i].initkey == CFG_IPC_INIT_KEY && key == msgQueTbl[i].sharekey {
          return true;
        }
        i := i + 1;
      }
      found := false;
    }

    /** The second scan: the first entry that is not live. */
    method FreeEntry() returns (i: nat)
      requires Valid()
      ensures i == FirstFree(View().queues)
    {
      i := 0;
      while i < |msgQueTbl|
        invariant 0 <= i <= |msgQueTbl|
        invariant forall j :: 0 <= j < i ==> View().queues[j].live
      {
        assert View().queues[i] == msgQueTbl[i].View();
        if msgQueTbl[i].initkey != CFG_IPC_INIT_KEY {
          break;
        }
        i := i + 1;
      }
    }

    /** `ipc_msgque_get`. */
    method Get(key: int) returns (ret: int)
      requires Valid()
      modifies Repr
      ensures Valid()
      ensures (View(), ret) == Registry.Get(old(View()), key)
    {
      var k := ToUInt32(key);
      var used := KeyInUse(k);
      if used {
        return -1;
      }
      var i := FreeEntry();
      if i >= |msgQueTbl| {
        return -2;
      }
      GetRefines(View(), key);
      HandOut(i, k);
      ret := msgQueTbl[i].msqid;
    }

    /** Fill in a free entry. */
    method HandOut(i: UInt32, key: UInt32)
      requires Valid() && i < |msgQueTbl|
      requires WellFormed(View().(queues := View().queues[i := Queue(true, key, [])]))
      modifies Repr
      ensures Valid() && msgQueTbl[i].msqid == i
      ensures View() == old(View()).(queues := old(View()).queues[i := Queue(true, key, [])])
    {
      ghost var after := View().(queues := View().queues[i := Queue(true, key, [])]);
      var q := msgQueTbl[i];
      q.initkey := CFG_IPC_INIT_KEY;
      q.msqid := i;
      q.sharekey := key;
      q.indx := q.element.Length - 1;
      q.outdx := 0;
      q.count := 0;
      q.posted, q.taken := [], 0;
      FreshRing(q.element[..]);
      EntriesShow(after);
    }

    /** `ipc_msgque_rel`. */
    method Rel(id: UInt32) returns (ret: int)
      requires Valid()
      modifies Repr
      ensures Valid()
      ensures (View(), ret) == Registry.Rel(old(View()), id)
    {
      var q := GetQuebyID(id);
      if q == null {
        return -1;
      }
      var row := GetTokenByKey(q.sharekey);
      if row == msgQueTokenStr.Length {
        return -2;
      }
      assert WellFormed(Registry.Rel(View(), id).0) by { RelKeeps(View(), id); }
      EntryView(id);
      ClearEntry(id, row);
      ret := 0;
    }

    /** The two stores of a release: the first byte of the token row, and the mark of a live queue. */
    method ClearEntry(id: UInt32, row: nat)
      requires Entries() && id < |msgQueTbl| && row < msgQueTokenStr.Length
      modifies msgQueTbl[id], msgQueTokenStr
      ensures Entries()
      ensures var v := old(View());
              View() == v.(queues := v.queues[id := Queue(false, v.queues[id].key, [])],
                           tokens := v.tokens[row := v.tokens[row][0 := 0]])
    {
      ghost var before := View();
      assert before.queues[id] == msgQueTbl[id].View();
      msgQueTokenStr[row] := msgQueTokenStr[row][0 := 0];
      msgQueTbl[id].initkey := 0;
      assert View().queues == before.queues[id := msgQueTbl[id].View()];
    }

    /** `ipc_msgque_msgpost`: copy `msgsize` bytes from `msgaddr` and append them to the queue. */
    method MsgPost(id: UInt32, msgaddr: seq<Byte>, msgsize: UInt32) returns (ret: int)
      requires Valid() && msgsize <= |msgaddr|
      modifies Repr
      ensures Valid()
      ensures (View(), ret) == Post(old(View()), id, msgaddr[..msgsize])
    {
      if msgsize > IPC_MSG_ELEMENT_SIZE {
        return -2;
      }
      var q := GetQuebyID(id);
      if q == null {
        return -3;
      }
      assert msgaddr[..msgsize][..msgsize] == msgaddr[..msgsize];
      ret := PostTo(id, IpcMsg(msgsize, msgaddr[..msgsize]));
    }

    /** The end of `ipc_msgque_msgpost`: enqueue on a live queue. */
    method PostTo(id: UInt32, rcvmsg: IpcMsg) returns (ret: int)
      requires Valid() && ValidId(View(), id)
      requires rcvmsg.size == |rcvmsg.data| <= IPC_MSG_ELEMENT_SIZE
      modifies Repr
      ensures Valid()
      ensures (View(), ret) == Post(old(View()), id, rcvmsg.data)
    {
      assert WellFormed(Post(View(), id, rcvmsg.data).0) by { PostKeeps(View(), id, rcvmsg.data); }
      assert rcvmsg.data[..rcvmsg.size] == rcvmsg.data;
      EntryView(id);
      ret := EnqueueAt(id, rcvmsg);
      if ret != 0 {
        ret := -4;
      }
    }

    /** An enqueue, seen on the whole table. */
    method EnqueueAt(id: UInt32, msg: IpcMsg) returns (ret: int)
      requires Entries() && id < |msgQueTbl| && msgQueTbl[id].initkey == CFG_IPC_INIT_KEY
      requires msg.size <= |msg.data| && msg.size <= IPC_MSG_ELEMENT_SIZE
      modifies msgQueTbl[id], msgQueTbl[id].element
      ensures Entries()
      ensures ret == if |old(View()).queues[id].msgs| < elementNum then 0 else -1
      ensures var q := old(View()).queues[id];
              View() == if ret != 0 then old(View())
                        else old(View()).(queues := old(View()).queues[id := q.(msgs := q.msgs + [msg.data[..msg.size]])])
    {
      ghost var before := View();
      assert before.queues[id] == msgQueTbl[id].View();
      ret := msgQueTbl[id].Enqueue(msg);
      forall i | 0 <= i < |msgQueTbl|
        ensures msgQueTbl[i].Valid() && (msgQueTbl[i].initkey == CFG_IPC_INIT_KEY ==> msgQueTbl[i].msqid == i)
        ensures i != id ==> msgQueTbl[i].View() == before.queues[i]
      {
        assert i != id ==> msgQueTbl[i] != msgQueTbl[id] && msgQueTbl[i].element != msgQueTbl[id].element;
      }
      assert View().queues == before.queues[id := msgQueTbl[id].View()];
    }

    /** `ipc_msgque_dequeue` on the entry of a live id. */
    method DequeueFrom(id: UInt32) returns (ret: int, m: Msg)
      requires Valid() && ValidId(View(), id)
      modifies Repr
      ensures Valid()
      ensures View() == Dequeue(old(View()), id).0
      ensures if ret == 0 then Dequeue(old(View()), id).1 == Some(m) else ret == -1 && Dequeue(old(View()), id).1 == None
    {
      assert WellFormed(Dequeue(View(), id).0) by { DequeueKeeps(View(), id); }
      EntryView(id);
      ret, m := DequeueAt(id);
    }

    /** A dequeue, seen on the whole table. */
    method DequeueAt(id: UInt32) returns (ret: int, m: Msg)
      requires Entries() && id < |msgQueTbl| && msgQueTbl[id].initkey == CFG_IPC_INIT_KEY
      modifies msgQueTbl[id]
      ensures Entries()
      ensures ret == if old(View()).queues[id].msgs == [] then -1 else 0
      ensures ret == 0 ==> m == old(View()).queues[id].msgs[0]
      ensures var q := old(View()).queues[id];
              View() == if ret != 0 then old(View())
                        else old(View()).(queues := old(View()).queues[id := q.(msgs := q.msgs[1..])])
    {
      ghost var before := View();
      assert before.queues[id] == msgQueTbl[id].View();
      ret, m := msgQueTbl[id].Dequeue();
      assert View().queues == before.queues[id := msgQueTbl[id].View()];
    }
  }
}
