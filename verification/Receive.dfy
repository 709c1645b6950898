/** The blocking receive: it sleeps at most once, and anything may happen to the tables meanwhile. */
module Receive {
  import opened Common
  import opened Registry
  import opened MsgQueue

  /** The table on which a receive acts: others only get a turn when it finds the queue empty. */
  function ActsOn(r: Tables, id: int, others: seq<Op>): Tables {
    if 0 <= id < |r.queues| && r.queues[id].live && r.queues[id].msgs == [] then Run(r, others) else r
  }

  /** Queue `id` is still live under the key it had on entry. */
  ghost predicate StillValid(r: Tables, r': Tables, id: int) {
    ValidId(r, id) && ValidId(r', id) && r'.queues[id].key == r.queues[id].key
  }

  /**
   * What each result of a receive means. `r` is the table on entry, `mid` the one it acts on, `after`
   * the one it leaves; `timedOut` says that the wait ended by its timeout.
   */
  ghost predicate ResultMeans(r: Tables, mid: Tables, after: Tables, id: int, msgSize: nat, timedOut: bool, ret: int, data: Msg)
  {
    var slept := ValidId(r, id) && r.queues[id].msgs == [];
    && (ret == -EFAULT <==> !ValidId(r, id))
    && (ret == -1 <==> slept && !StillValid(r, mid, id))
    && (ret == -2 <==> slept && StillValid(r, mid, id) && timedOut)
    && (ret == -3 <==> slept && StillValid(r, mid, id) && !timedOut && mid.queues[id].msgs == [])
    && (ret >= 0 || ret == -5 || ret == -EFAULT || ret == -1 || ret == -2 || ret == -3)
    && (ret < 0 && ret != -5 ==> after == mid)
    && (ret >= 0 || ret == -5 ==>
          && StillValid(r, mid, id) && mid.queues[id].msgs != []
          && after == Dequeue(mid, id).0
          && var head := mid.queues[id].msgs[0];
             if ret >= 0 then data == head && ret == |head| <= msgSize else msgSize < |head|)
  }

  /** The steps other tasks and the interrupt handler take while the receiver sleeps. */
  method OthersRun(info: MsqInfo, others: seq<Op>)
    requires info.Valid()
    modifies info.Repr
    ensures info.Valid() && info.View() == Run(old(info.View()), others)
  {
    var i := 0;
    while i < |others|
      invariant 0 <= i <= |others|
      invariant info.Valid()
      invariant Run(info.View(), others[i..]) == Run(old(info.View()), others)
    {
      assert others[i..][0] == others[i] && others[i..][1..] == others[i + 1..];
      OtherStep(info, others[i]);
      i := i + 1;
    }
  }

  method OtherStep(info: MsqInfo, op: Op)
    requires info.Valid()
    modifies info.Repr
    ensures info.Valid() && info.View() == Apply(old(info.View()), op)
  {
    match op
    case FtokOp(path) => var _ := info.Ftok(path);
    case GetOp(key) => var _ := info.Get(key);
    case RelOp(id) => if 0 <= id < TWO_32 { var _ := info.Rel(id); }
    case PostOp(id, m) => if 0 <= id < TWO_32 && |m| < TWO_32 { var _ := info.MsgPost(id, m, |m|); assert m[..|m|] == m; }
    case DequeueOp(id) =>
      if 0 <= id < |info.msgQueTbl| {
        var q := info.GetQuebyID(id);
        if q != null { var _, _ := info.DequeueFrom(id); }
      }
  }

  /** The wait loop of `ipc_msg_rcv`: 0 when a message is there, otherwise the result to return. */
  method WaitForMessage(info: MsqInfo, msqid: UInt32, sharekey: UInt32, timeoutMs: UInt32, others: seq<Op>, waitRet: int)
    returns (code: int)
    requires info.Valid() && ValidId(info.View(), msqid) && info.View().queues[msqid].key == sharekey
    modifies info.Repr
    ensures info.Valid() && info.View() == ActsOn(old(info.View()), msqid, others)
    ensures var r, mid := old(info.View()), info.View();
            var slept := r.queues[msqid].msgs == [];
            var timedOut := waitRet == 0 && timeoutMs != 0;
            && (code == -1 <==> slept && !StillValid(r, mid, msqid))
            && (code == -2 <==> slept && StillValid(r, mid, msqid) && timedOut)
            && (code == -3 <==> slept && StillValid(r, mid, msqid) && !timedOut && mid.queues[msqid].msgs == [])
            && (code == 0 || code == -1 || code == -2 || code == -3)
            && (code == 0 ==> StillValid(r, mid, msqid) && mid.queues[msqid].msgs != [])
  {
    ghost var entry := info.View();
    ghost var slept := false;
    var q := info.msgQueTbl[msqid];
    info.EntryView(msqid);
    while q.IsEmpty()
      invariant info.Valid() && StillValid(entry, info.View(), msqid)
      invariant info.View() == if slept then Run(entry, others) else entry
      invariant slept ==> entry.queues[msqid].msgs == [] && !q.IsEmpty()
      invariant slept ==> !(waitRet == 0 && timeoutMs != 0)
      invariant q.IsEmpty() <==> info.View().queues[msqid].msgs == []
      decreases if q.IsEmpty() then 1 else 0
    {
      slept := true;
      RunKeepsLength(entry, others);
      OthersRun(info, others);
      info.EntryView(msqid);
      if !q.IsValid(sharekey) {
        return -1;
      }
      if waitRet == 0 && timeoutMs != 0 {
        return -2;
      }
      if q.IsEmpty() {
        return -3;
      }
    }
    code := 0;
  }

  /**
   * `ipc_msg_rcv`. The check after the wait and the dequeue are one atomic step; `others` is what
   * happens during the wait and `waitRet` what the wait returns, 0 when the timeout has run out.
   */
  method MsgRcv(info: MsqInfo, msqid: UInt32, msgSize: UInt32, timeoutMs: UInt32, others: seq<Op>, waitRet: int)
    returns (ret: int, data: Msg)
    requires info.Valid()
    modifies info.Repr
    ensures info.Valid()
    ensures ResultMeans(old(info.View()), ActsOn(old(info.View()), msqid, others), info.View(), msqid, msgSize,
                        waitRet == 0 && timeoutMs != 0, ret, data)
  {
    var q := info.GetQuebyID(msqid);
    if q == null {
      return -EFAULT, [];
    }
    var code := WaitForMessage(info, msqid, q.sharekey, timeoutMs, others, waitRet);
    if code != 0 {
      return code, [];
    }
    ghost var mid := info.View();
    var taken, msg := info.DequeueFrom(msqid);
    if taken != 0 {
      return -4, [];
    }
    if msgSize < |msg| {
      return -5, [];
    }
    return |msg|, msg;
  }

  lemma {:induction false} RunKeepsLength(r: Tables, ops: seq<Op>)
    ensures |Run(r, ops).queues| == |r.queues|
    decreases |ops|
  {
    if ops != [] {
      RunKeepsLength(Apply(r, ops[0]), ops[1..]);
    }
  }

  /**
   * On the map of keys: a message is returned only from the head of the queue live under the key seen
   * on entry, whatever happened during the sleep; -5 removes that head too, every other result
   * removes nothing, and no other key is touched.
   */
  lemma ReceiveRefines(r: Tables, others: seq<Op>, after: Tables, id: int, msgSize: nat, timedOut: bool, ret: int, data: Msg)
    requires WellFormed(r)
    requires ResultMeans(r, ActsOn(r, id, others), after, id, msgSize, timedOut, ret, data)
    ensures var mid := ActsOn(r, id, others);
            && WellFormed(mid) && WellFormed(after)
            && (ret < 0 && ret != -5 ==> AsMap(after) == AsMap(mid))
            && (ret >= 0 || ret == -5 ==>
                  var key := r.queues[id].key;
                  && key in AsMap(mid) && AsMap(mid)[key] != []
                  && AsMap(after) == AsMap(mid)[key := AsMap(mid)[key][1..]]
                  && (ret >= 0 ==> data == AsMap(mid)[key][0]))
  {
    var mid := ActsOn(r, id, others);
    RunKeepsWellFormed(r, others);
    if ret >= 0 || ret == -5 {
      DequeueRefines(mid, id);
      EntryInMap(mid, id);
    }
  }

  lemma {:induction false} RunKeepsWellFormed(r: Tables, ops: seq<Op>)
    requires WellFormed(r)
    ensures WellFormed(Run(r, ops))
    decreases |ops|
  {
    if ops != [] {
      ApplyKeepsWellFormed(r, ops[0]);
      RunKeepsWellFormed(Apply(r, ops[0]), ops[1..]);
    }
  }

  /**
   * Why the check after the sleep matters: a queue released meanwhile can be handed out again under
   * another key, and then shows another key's message at the same id.
   */
  lemma ReusedEntry(r: Tables, id: int, key: int, m: Msg)
    requires WellFormed(r) && ValidId(r, id) && HasToken(r, r.queues[id].key)
    requires forall i :: 0 <= i < id ==> r.queues[i].live
    requires ToUInt32(key) !in AsMap(r) && |m| <= IPC_MSG_ELEMENT_SIZE && r.cap > 0
    ensures var r' := Run(r, [RelOp(id), GetOp(key), PostOp(id, m)]);
            ValidId(r', id) && r'.queues[id] == Queue(true, ToUInt32(key), [m]) && !StillValid(r, r', id)
  {
    var r1 := Rel(r, id).0;
    Released(r, id, key);
    Reopened(r1, id, key, m);
    assert r.queues[id].key in AsMap(r) by { EntryInMap(r, id); }
    RunThree(r, RelOp(id), GetOp(key), PostOp(id, m));
  }

  lemma Released(r: Tables, id: int, key: int)
    requires WellFormed(r) && ValidId(r, id) && HasToken(r, r.queues[id].key) && ToUInt32(key) !in AsMap(r)
    ensures var r1 := Rel(r, id).0;
            && WellFormed(r1) && r1.cap == r.cap && ToUInt32(key) !in AsMap(r1)
            && r1.queues == r.queues[id := Queue(false, r.queues[id].key, [])]
  {
    RelRefines(r, id);
  }

  lemma Reopened(r: Tables, id: int, key: int, m: Msg)
    requires WellFormed(r) && 0 <= id < |r.queues| && !r.queues[id].live
    requires forall i :: 0 <= i < id ==> r.queues[i].live
    requires ToUInt32(key) !in AsMap(r) && |m| <= IPC_MSG_ELEMENT_SIZE && r.cap > 0
    ensures Apply(Apply(r, GetOp(key)), PostOp(id, m)).queues == r.queues[id := Queue(true, ToUInt32(key), [m])]
  {
    assert FirstFree(r.queues) == id;
    assert Registry.Get(r, key).1 == id by { GetRefines(r, key); }
    assert [] + [m] == [m];
  }
}
