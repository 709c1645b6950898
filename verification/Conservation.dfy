/** The history of the transfer, projected to one pair of cores or to one key, and how single calls change it. */
module Conservation {
  import opened Common
  import opened Registry
  import opened Mailbox
  import opened Transfer

  // ---------- Projections of the history ----------

  /** What one sender put into the queues of a core, in order. */
  function FromSrc(log: seq<Arrival>, src: Core): seq<Entry>
    decreases |log|
  {
    if log == [] then []
    else
      var n := |log| - 1;
      FromSrc(log[..n], src) + (if log[n].src == src then [log[n].entry] else [])
  }

  /** The payloads put into queues under one key, in order. */
  function UnderKey(log: seq<Arrival>, key: UInt32): seq<Msg>
    decreases |log|
  {
    if log == [] then []
    else
      var n := |log| - 1;
      UnderKey(log[..n], key) + (if log[n].entry.key == key then [log[n].entry.data] else [])
  }

  /** The payloads that left the queues of one key, in order. */
  function GoneUnder(log: seq<Departure>, key: UInt32): seq<Msg>
    decreases |log|
  {
    if log == [] then []
    else
      var n := |log| - 1;
      GoneUnder(log[..n], key) + (if log[n].entry.key == key then [log[n].entry.data] else [])
  }

  /** What waits in the live queue of a key; nothing when there is no such queue. */
  function Queued(r: Tables, key: UInt32): seq<Msg> {
    var id := FirstLive(r.queues, key);
    if id < |r.queues| then r.queues[id].msgs else []
  }

  lemma AppendArrival(log: seq<Arrival>, x: Arrival, src: Core, key: UInt32)
    ensures FromSrc(log + [x], src) == FromSrc(log, src) + (if x.src == src then [x.entry] else [])
    ensures UnderKey(log + [x], key) == UnderKey(log, key) + (if x.entry.key == key then [x.entry.data] else [])
  {
    assert (log + [x])[..|log|] == log;
  }

  lemma {:induction false} AppendDepartures(log: seq<Departure>, more: seq<Departure>, key: UInt32)
    ensures GoneUnder(log + more, key) == GoneUnder(log, key) + GoneUnder(more, key)
    decreases |more|
  {
    if more == [] {
      assert log + more == log;
    } else {
      var n := |more| - 1;
      assert (log + more)[..|log| + n] == log + more[..n];
      AppendDepartures(log, more[..n], key);
    }
  }

  // ---------- What leaves a queue ----------

  lemma {:induction false} DroppedUnder(q: Queue, n: nat, key: UInt32)
    requires n <= |q.msgs|
    ensures GoneUnder(DroppedBy(q)[..n], key) == if q.key == key then q.msgs[..n] else []
  {
    if n > 0 {
      var dropped := DroppedBy(q)[..n];
      DroppedUnder(q, n - 1, key);
      assert dropped[..n - 1] == DroppedBy(q)[..n - 1];
      assert dropped[n - 1] == Departure(Entry(q.key, q.msgs[n - 1]), false);
      OneMoreMsg(q.msgs, n - 1);
    }
  }

  lemma DroppedWhole(q: Queue, key: UInt32)
    ensures GoneUnder(DroppedBy(q), key) == if q.key == key then q.msgs else []
  {
    DroppedUnder(q, |q.msgs|, key);
    assert DroppedBy(q)[..|q.msgs|] == DroppedBy(q) && q.msgs[..|q.msgs|] == q.msgs;
  }

  lemma OneMoreMsg(msgs: seq<Msg>, n: nat)
    requires n < |msgs|
    ensures msgs[..n] + [msgs[n]] == msgs[..n + 1]
  {
  }

  lemma QueuedAt(r: Tables, id: int)
    requires DistinctKeys(r) && ValidId(r, id)
    ensures Queued(r, r.queues[id].key) == r.queues[id].msgs
  {
    LookupFinds(r, id);
  }

  /** Rewriting an entry does not show under a key the entry neither had nor gets. */
  lemma QueuedElsewhere(r: Tables, r': Tables, id: int, key: UInt32)
    requires 0 <= id < |r.queues| && |r'.queues| == |r.queues| && r'.queues == r.queues[id := r'.queues[id]]
    requires r.queues[id].key != key && r'.queues[id].key != key
    ensures Queued(r', key) == Queued(r, key)
  {
    var i, j := FirstLive(r.queues, key), FirstLive(r'.queues, key);
    assert i < |r.queues| ==> r'.queues[i] == r.queues[i];
    assert j < |r.queues| ==> r'.queues[j] == r.queues[j];
  }

  lemma RelConserves(r: Tables, id: int, key: UInt32)
    requires WellFormed(r) && Rel(r, id).1 == 0
    ensures Queued(r, key) == GoneUnder(DroppedByCall(r, RelOp(id)), key) + Queued(Rel(r, id).0, key)
  {
    var q := r.queues[id];
    var r' := Rel(r, id).0;
    assert r'.queues == r.queues[id := Queue(false, q.key, [])];
    DroppedWhole(q, key);
    assert ValidId(r, id);
    if key == q.key {
      QueuedAt(r, id);
      NothingQueued(r, r', id);
    } else {
      QueuedElsewhere(r, r', id, key);
    }
  }

  lemma NothingQueued(r: Tables, r': Tables, id: int)
    requires DistinctKeys(r) && ValidId(r, id)
    requires r'.queues == r.queues[id := Queue(false, r.queues[id].key, [])]
    ensures Queued(r', r.queues[id].key) == []
  {
    var j := FirstLive(r'.queues, r.queues[id].key);
    if j < |r.queues| {
      assert ValidId(r, j);
      assert false;
    }
  }

  /** A receive takes exactly the recorded message, from the front. */
  lemma ReceiveConserves(r: Tables, id: nat, msgSize: nat, key: UInt32)
    requires WellFormed(r) && ValidId(r, id) && r.queues[id].msgs != []
    ensures Queued(r, key) == GoneUnder(TakenBy(r, id, msgSize), key) + Queued(Dequeue(r, id).0, key)
  {
    var q := r.queues[id];
    var r' := Dequeue(r, id).0;
    OneGone(TakenBy(r, id, msgSize)[0], key);
    if key == q.key {
      QueuedAt(r, id);
      assert DistinctKeys(r') by { DequeueRefines(r, id); }
      QueuedAt(r', id);
    } else {
      QueuedElsewhere(r, r', id, key);
    }
  }

  lemma OneGone(d: Departure, key: UInt32)
    ensures GoneUnder([d], key) == if d.entry.key == key then [d.entry.data] else []
  {
    assert [d][..0] == [];
  }

  lemma GetConserves(r: Tables, k: int, key: UInt32)
    requires WellFormed(r)
    ensures Queued(r, key) == Queued(Registry.Get(r, k).0, key)
  {
    GetRefines(r, k);
    QueuedInMap(r, key);
    QueuedInMap(Registry.Get(r, k).0, key);
  }

  /** A local call removes from the queue of a key exactly what is recorded as dropped. */
  lemma LocalConserves(r: Tables, op: Op, key: UInt32)
    requires WellFormed(r) && (op.FtokOp? || op.GetOp? || op.RelOp?)
    ensures Queued(r, key) == GoneUnder(DroppedByCall(r, op), key) + Queued(Registry.Apply(r, op), key)
  {
    match op
    case FtokOp(path) => NothingDropped(r, op, key);
    case GetOp(k) =>
      GetConserves(r, k, key);
      NothingDropped(r, op, key);
    case RelOp(id) =>
      if Rel(r, id).1 == 0 {
        RelConserves(r, id, key);
      } else {
        NothingDropped(r, op, key);
      }
  }

  lemma NothingDropped(r: Tables, op: Op, key: UInt32)
    requires op.RelOp? ==> Rel(r, op.id).1 != 0
    ensures forall rest: seq<Msg> :: GoneUnder(DroppedByCall(r, op), key) + rest == rest
  {
    assert DroppedByCall(r, op) == [];
  }

  lemma GoneThenQueued(gone: seq<Departure>, more: seq<Departure>, rest: seq<Msg>, key: UInt32)
    ensures GoneUnder(gone, key) + (GoneUnder(more, key) + rest) == GoneUnder(gone + more, key) + rest
  {
    AppendDepartures(gone, more, key);
    Associate(GoneUnder(gone, key), GoneUnder(more, key), rest);
  }

  lemma Associate(a: seq<Msg>, b: seq<Msg>, c: seq<Msg>)
    ensures a + (b + c) == (a + b) + c
  {
  }

  // ---------- What enters a queue ----------

  lemma PostQueued(r: Tables, id: int, m: Msg, key: UInt32)
    requires WellFormed(r) && Post(r, id, m).1 == 0
    ensures ValidId(r, id)
    ensures Queued(Post(r, id, m).0, key) == Queued(r, key) + (if r.queues[id].key == key then [m] else [])
  {
    PostRefines(r, id, m);
    QueuedInMap(r, key);
    QueuedInMap(Post(r, id, m).0, key);
    assert ValidId(r, id);
    EntryInMap(r, id);
  }

  lemma QueuedInMap(r: Tables, key: UInt32)
    requires DistinctKeys(r)
    ensures Queued(r, key) == if key in AsMap(r) then AsMap(r)[key] else []
  {
    LookupAgrees(r, key);
    var i := FirstLive(r.queues, key);
    if i < |r.queues| {
      assert ValidId(r, i);
      EntryInMap(r, i);
    }
  }
}
