/**
 * Which open file owns which queue. The driver keeps, per open file, a word with one bit per queue
 * id; the word is modelled by the set of the positions of its one bits.
 */
module Ownership {
  import opened Common
  import opened Registry

  /** The tables, and for every open file the ids its `storequebit` names. */
  datatype Driver = Driver(tables: Tables, files: map<int, set<int>>)

  ghost function LiveIds(r: Tables): set<int> {
    set i | 0 <= i < |r.queues| && r.queues[i].live
  }

  ghost predicate Disjoint(d: Driver) {
    forall f, g :: f in d.files && g in d.files && f != g ==> d.files[f] !! d.files[g]
  }

  /** Every live queue is held by exactly one open file, and nothing else is held. */
  ghost predicate Owned(d: Driver) {
    && Disjoint(d)
    && (forall f :: f in d.files ==> d.files[f] <= LiveIds(d.tables))
    && forall i :: ValidId(d.tables, i) ==> exists f :: f in d.files && i in d.files[f]
  }

  // ---------- Operations ----------

  function OpenFile(d: Driver, f: int): Driver {
    d.(files := d.files[f := {}])
  }

  /** The GET arm of `ipc_ioctl`: create the queue and set its bit. */
  function IoctlGet(d: Driver, f: int, key: UInt16): (Driver, int)
    requires f in d.files
  {
    var (tables, ret) := Registry.Get(d.tables, key);
    (Driver(tables, if ret >= 0 then d.files[f := d.files[f] + {ret}] else d.files), ret)
  }

  /** The REL arm: release, then clear the bit whatever the result was. */
  function IoctlRel(d: Driver, f: int, id: UInt32): (Driver, int)
    requires f in d.files
  {
    var (tables, ret) := Rel(d.tables, id);
    (Driver(tables, d.files[f := d.files[f] - {id}]), ret)
  }

  /** The loop of `ipc_release`, from queue `i` on. */
  function ReleaseFrom(r: Tables, bits: set<int>, i: nat): Tables
    decreases |r.queues| - i
  {
    if i >= |r.queues| then r
    else ReleaseFrom(if i in bits then Rel(r, i).0 else r, bits, i + 1)
  }

  /** Closing a file. */
  function CloseFile(d: Driver, f: int): Driver
    requires f in d.files
  {
    Driver(ReleaseFrom(d.tables, d.files[f], 0), d.files - {f})
  }

  // ---------- One operation ----------

  /** GET answers -1 iff the key has a queue, -2 iff every entry is live, and otherwise the id of a new queue under the key. */
  lemma IoctlGetMeans(d: Driver, f: int, key: UInt16)
    requires WellFormed(d.tables) && f in d.files
    ensures var (d', ret) := IoctlGet(d, f, key);
            && (ret == -1 <==> key in AsMap(d.tables))
            && (ret == -2 <==> key !in AsMap(d.tables) && forall i :: 0 <= i < |d.tables.queues| ==> d.tables.queues[i].live)
            && ret >= -2
            && (ret < 0 ==> d' == d)
            && (ret >= 0 ==>
                  && !ValidId(d.tables, ret) && ValidId(d'.tables, ret) && d'.tables.queues[ret].key == key
                  && WellFormed(d'.tables) && AsMap(d'.tables) == AsMap(d.tables)[key := []]
                  && d'.files == d.files[f := d.files[f] + {ret}])
  {
    assert ToUInt32(key) == key;
    GetRefines(d.tables, key);
  }

  /** REL answers 0 iff it frees the queue, -1 iff the id is not live; the caller's bit goes in any case, no other file's does. */
  lemma IoctlRelMeans(d: Driver, f: int, id: UInt32)
    requires f in d.files
    ensures var (d', ret) := IoctlRel(d, f, id);
            && (ret == 0 <==> Releasable(d.tables, id))
            && (ret == 0 <==> ValidId(d.tables, id) && !ValidId(d'.tables, id))
            && (ret == -1 <==> !ValidId(d.tables, id))
            && (ret == -2 <==> ValidId(d.tables, id) && !HasToken(d.tables, d.tables.queues[id].key))
            && -2 <= ret <= 0
            && (ret < 0 ==> d'.tables == d.tables)
            && |d'.tables.queues| == |d.tables.queues|
            && d'.files.Keys == d.files.Keys && d'.files[f] == d.files[f] - {id}
            && forall g :: g in d.files && g != f ==> d'.files[g] == d.files[g]
  {
    RelSucceeds(d.tables, id);
  }

  /** The loop never brings a queue back. */
  lemma {:induction false} ReleaseNeverRevives(r: Tables, bits: set<int>, i: nat, id: int)
    requires !ValidId(r, id)
    ensures !ValidId(ReleaseFrom(r, bits, i), id)
    decreases |r.queues| - i
  {
    if i < |r.queues| {
      ReleaseNeverRevives(if i in bits then Rel(r, i).0 else r, bits, i + 1, id);
    }
  }

  lemma GetKeepsOwned(d: Driver, f: int, key: UInt16)
    requires Owned(d) && f in d.files
    requires WellFormed(d.tables)
    ensures Owned(IoctlGet(d, f, key).0)
    ensures var (d', ret) := IoctlGet(d, f, key);
            ret >= 0 ==> ret !in d.files[f] && d'.files[f] == d.files[f] + {ret}
  {
    var (d', ret) := IoctlGet(d, f, key);
    GetRefines(d.tables, key);
    if ret >= 0 {
      assert ret !in LiveIds(d.tables);
      GetHeld(d, d', f, ret);
    }
  }

  /** Taking hold of an entry that becomes live. */
  lemma GetHeld(d: Driver, d': Driver, f: int, id: int)
    requires Owned(d) && f in d.files
    requires d'.files == d.files[f := d.files[f] + {id}]
    requires |d'.tables.queues| == |d.tables.queues| && ValidId(d'.tables, id) && !ValidId(d.tables, id)
    requires forall i :: 0 <= i < |d.tables.queues| && i != id ==> d'.tables.queues[i] == d.tables.queues[i]
    ensures Owned(d')
  {
    assert id !in LiveIds(d.tables);
    forall i | ValidId(d'.tables, i) ensures exists g :: g in d'.files && i in d'.files[g] {
      if i == id {
        assert i in d'.files[f];
      } else {
        assert ValidId(d.tables, i);
        var g :| g in d.files && i in d.files[g];
        assert i in d'.files[g];
      }
    }
    forall g | g in d'.files ensures d'.files[g] <= LiveIds(d'.tables) {
      forall i | i in d'.files[g] ensures i in LiveIds(d'.tables) {
        assert i != id ==> i in d.files[g] && i in LiveIds(d.tables);
      }
    }
  }

  /**
   * The REL arm clears the caller's bit even when the release fails, and releases queues of other
   * files too. It keeps ownership intact exactly when the id can be released and is the caller's own,
   * or neither.
   */
  lemma RelKeepsOwned(d: Driver, f: int, id: UInt32)
    requires Owned(d) && f in d.files
    ensures Owned(IoctlRel(d, f, id).0) <==> (Releasable(d.tables, id) <==> id in d.files[f])
  {
    var d' := IoctlRel(d, f, id).0;
    RelSucceeds(d.tables, id);
    if Releasable(d.tables, id) {
      var g :| g in d.files && id in d.files[g];
      if id in d.files[f] {
        assert g == f;
        RelHeld(d, d', f, id);
      } else {
        assert id in d'.files[g] && id !in LiveIds(d'.tables);
      }
    } else if id in d.files[f] {
      assert id in LiveIds(d.tables) && ValidId(d'.tables, id);
      forall g | g in d'.files ensures id !in d'.files[g] { }
    } else {
      assert d.files[f] - {id} == d.files[f];
      assert d'.files == d.files;
    }
  }

  /**
   * So a queue created under a key nobody stored a name for is lost by the first REL: the release
   * fails, the bit goes, and the queue stays live with no owner.
   */
  lemma UntokenedQueueIsLost(d: Driver, f: int, key: UInt16)
    requires Owned(d) && WellFormed(d.tables) && f in d.files
    requires key !in AsMap(d.tables) && FirstFree(d.tables.queues) < |d.tables.queues| <= TWO_32
    requires !HasToken(d.tables, key)
    ensures var (d1, id) := IoctlGet(d, f, key);
            && 0 <= id < TWO_32 && Owned(d1)
            && var (d2, ret) := IoctlRel(d1, f, id);
               && ret == -2 && ValidId(d2.tables, id) && !Owned(d2)
               && forall g :: g in d2.files ==> id !in d2.files[g]
  {
    var (d1, id) := IoctlGet(d, f, key);
    GetPlaces(d.tables, key);
    GetKeepsOwned(d, f, key);
    assert ValidId(d1.tables, id) && d1.tables.queues[id].key == key;
    assert HasToken(d1.tables, key) <==> HasToken(d.tables, key);
    RelSucceeds(d1.tables, id);
    RelKeepsOwned(d1, f, id);
    forall g | g in d1.files && g != f ensures id !in d1.files[g] { assert id in d1.files[f]; }
  }

  /** For instance with one open file on freshly initialised tables, and any key but 0. */
  lemma LostQueueExample(f: int, key: UInt16, last: CChar)
    requires key != 0
    ensures var d := Driver(FreshTables(IPC_MSG_ELEMENT_NUM, IPC_MSG_QUEUE_NUM, last), map[f := {}]);
            var (d1, id) := IoctlGet(d, f, key);
            var (d2, ret) := IoctlRel(d1, f, 0);
            && Owned(d) && id == 0 && ret == -2
            && ValidId(d2.tables, 0) && d2.files == map[f := {}]
  {
    var r := FreshTables(IPC_MSG_ELEMENT_NUM, IPC_MSG_QUEUE_NUM, last);
    FreshIsEmpty(IPC_MSG_ELEMENT_NUM, IPC_MSG_QUEUE_NUM, last, key);
    assert FirstFree(r.queues) == 0;
    GetPlaces(r, key);
    UntokenedQueueIsLost(Driver(r, map[f := {}]), f, key);
  }

  /** Giving back a queue the file holds. */
  lemma RelHeld(d: Driver, d': Driver, f: int, id: int)
    requires Owned(d) && f in d.files && id in d.files[f]
    requires d'.files == d.files[f := d.files[f] - {id}]
    requires |d'.tables.queues| == |d.tables.queues| && !ValidId(d'.tables, id)
    requires forall i :: 0 <= i < |d.tables.queues| && i != id ==> d'.tables.queues[i] == d.tables.queues[i]
    ensures Owned(d')
  {
    forall i | ValidId(d'.tables, i) ensures exists g :: g in d'.files && i in d'.files[g] {
      assert ValidId(d.tables, i);
      var g :| g in d.files && i in d.files[g];
      assert i in d'.files[g];
    }
    forall g | g in d'.files ensures d'.files[g] <= LiveIds(d'.tables) {
      forall i | i in d'.files[g] ensures i in LiveIds(d'.tables) {
        assert i in d.files[g] && i in LiveIds(d.tables);
      }
    }
  }

  /** One turn of the loop: only queue `i` and the token of its key are affected. */
  lemma ReleaseOne(r: Tables, i: int)
    requires WellFormed(r) && Terminated(r.tokens) && ValidId(r, i) && r.queues[i].key != 0
    ensures var r' := Rel(r, i).0;
            && WellFormed(r') && Terminated(r'.tokens) && |r'.queues| == |r.queues| && r'.cap == r.cap
            && (forall j :: 0 <= j < |r.queues| && j != i ==> r'.queues[j] == r.queues[j])
            && (!ValidId(r', i) <==> HasToken(r, r.queues[i].key))
            && (forall k: UInt32 :: k != 0 && k != r.queues[i].key ==> (HasToken(r', k) <==> HasToken(r, k)))
  {
    RelRefines(r, i);
  }

  /** The queues in `bits` from `i` on are live, and none has key 0. */
  ghost predicate ToRelease(r: Tables, bits: set<int>, i: nat) {
    forall j :: j in bits && j >= i ==> ValidId(r, j) && r.queues[j].key != 0
  }

  lemma ToReleaseNext(r: Tables, bits: set<int>, i: nat)
    requires WellFormed(r) && Terminated(r.tokens) && ToRelease(r, bits, i) && i < |r.queues|
    ensures var r' := if i in bits then Rel(r, i).0 else r;
            && WellFormed(r') && Terminated(r'.tokens) && |r'.queues| == |r.queues| && ToRelease(r', bits, i + 1)
            && (forall j :: 0 <= j < |r.queues| && j != i ==> r'.queues[j] == r.queues[j])
            && forall j :: j in bits && j > i ==> (HasToken(r', r.queues[j].key) <==> HasToken(r, r.queues[j].key))
  {
    if i in bits {
      ReleaseOne(r, i);
      forall j | j in bits && j > i ensures r.queues[j].key != r.queues[i].key && ValidId(Rel(r, i).0, j) {
        assert ValidId(r, j) && ValidId(r, i);
      }
    }
  }

  /**
   * What the release loop from queue `i` on does to queue `j`: nothing when `j` is not in `bits`;
   * otherwise it frees the queue exactly when its key has a stored token (queues with key 0 aside).
   */
  lemma {:induction false} ReleaseLoop(r: Tables, bits: set<int>, i: nat, j: nat)
    requires WellFormed(r) && Terminated(r.tokens) && ToRelease(r, bits, i) && j < |r.queues|
    ensures var z := ReleaseFrom(r, bits, i);
            && WellFormed(z) && Terminated(z.tokens) && |z.queues| == |r.queues|
            && if j in bits && j >= i then !ValidId(z, j) <==> HasToken(r, r.queues[j].key) else z.queues[j] == r.queues[j]
    decreases |r.queues| - i
  {
    if i < |r.queues| {
      ToReleaseNext(r, bits, i);
      if i in bits {
        ReleaseOne(r, i);
      }
      ReleaseLoop(if i in bits then Rel(r, i).0 else r, bits, i + 1, j);
    }
  }

  /** The loop leaves the token of every key it does not release. */
  lemma {:induction false} ReleaseLoopTokens(r: Tables, bits: set<int>, i: nat, k: UInt32)
    requires WellFormed(r) && Terminated(r.tokens) && ToRelease(r, bits, i)
    requires k != 0 && HasToken(r, k) && forall j :: j in bits && j >= i ==> r.queues[j].key != k
    ensures HasToken(ReleaseFrom(r, bits, i), k)
    decreases |r.queues| - i
  {
    if i < |r.queues| {
      var r1 := if i in bits then Rel(r, i).0 else r;
      ToReleaseNext(r, bits, i);
      TokenStays(r, bits, i, k);
      ReleaseLoopTokens(r1, bits, i + 1, k);
    }
  }

  lemma TokenStays(r: Tables, bits: set<int>, i: nat, k: UInt32)
    requires WellFormed(r) && Terminated(r.tokens) && ToRelease(r, bits, i) && i < |r.queues|
    requires k != 0 && HasToken(r, k) && forall j :: j in bits && j >= i ==> r.queues[j].key != k
    ensures var r1 := if i in bits then Rel(r, i).0 else r;
            && HasToken(r1, k)
            && forall j :: j in bits && j > i ==> ValidId(r1, j) && r1.queues[j].key != k
  {
    ToReleaseNext(r, bits, i);
    if i in bits {
      ReleaseOne(r, i);
    }
  }

  lemma ReleaseAll(r: Tables, bits: set<int>)
    requires WellFormed(r) && Terminated(r.tokens) && ToRelease(r, bits, 0) && (forall j :: j in bits ==> j >= 0)
    ensures var z := ReleaseFrom(r, bits, 0);
            && WellFormed(z) && Terminated(z.tokens) && |z.queues| == |r.queues|
            && (forall j :: 0 <= j < |r.queues| && j !in bits ==> z.queues[j] == r.queues[j])
            && forall j :: j in bits ==> (!ValidId(z, j) <==> HasToken(r, r.queues[j].key))
  {
    var z := ReleaseFrom(r, bits, 0);
    if |r.queues| > 0 {
      ReleaseLoop(r, bits, 0, 0);
    }
    forall j | 0 <= j < |r.queues|
      ensures if j in bits then !ValidId(z, j) <==> HasToken(r, r.queues[j].key) else z.queues[j] == r.queues[j]
    {
      ReleaseLoop(r, bits, 0, j);
    }
    forall j | j in bits ensures j < |r.queues| { assert ValidId(r, j); }
  }

  /** Closing a file frees exactly its queues when each has a token; all other queues stay as they are. */
  lemma CloseFrees(d: Driver, f: int)
    requires Owned(d) && WellFormed(d.tables) && Terminated(d.tables.tokens) && f in d.files
    requires forall i :: i in d.files[f] ==> d.tables.queues[i].key != 0
    ensures var d' := CloseFile(d, f);
            && WellFormed(d'.tables) && Terminated(d'.tables.tokens) && |d'.tables.queues| == |d.tables.queues|
            && (forall i :: 0 <= i < |d.tables.queues| && i !in d.files[f] ==> d'.tables.queues[i] == d.tables.queues[i])
            && (Owned(d') <==> forall i :: i in d.files[f] ==> HasToken(d.tables, d.tables.queues[i].key))
  {
    var d' := CloseFile(d, f);
    var bits := d.files[f];
    forall i | i in bits ensures ValidId(d.tables, i) { assert i in LiveIds(d.tables); }
    ReleaseAll(d.tables, bits);
    if forall i :: i in bits ==> HasToken(d.tables, d.tables.queues[i].key) {
      CloseOwned(d, d', f);
    } else {
      var i :| i in bits && !HasToken(d.tables, d.tables.queues[i].key);
      assert ValidId(d'.tables, i);
      forall g | g in d'.files ensures i !in d'.files[g] { }
    }
  }

  lemma CloseOwned(d: Driver, d': Driver, f: int)
    requires Owned(d) && f in d.files && d'.files == d.files - {f}
    requires |d'.tables.queues| == |d.tables.queues|
    requires forall i :: 0 <= i < |d.tables.queues| && i !in d.files[f] ==> d'.tables.queues[i] == d.tables.queues[i]
    requires forall i :: i in d.files[f] ==> !ValidId(d'.tables, i)
    ensures Owned(d')
  {
    forall i | ValidId(d'.tables, i) ensures exists g :: g in d'.files && i in d'.files[g] {
      assert ValidId(d.tables, i);
      var g :| g in d.files && i in d.files[g];
      assert g in d'.files && i in d'.files[g];
    }
    forall g | g in d'.files ensures d'.files[g] <= LiveIds(d'.tables) {
      forall i | i in d'.files[g] ensures i in LiveIds(d'.tables) {
        assert i in d.files[g] && i in LiveIds(d.tables);
      }
    }
  }

  /** Releases one after the other. */
  function RelOps(ids: seq<int>): seq<Op> {
    seq(|ids|, k requires 0 <= k < |ids| => RelOp(ids[k]))
  }

  lemma TailElements(ids: seq<int>, bits: set<int>, i: nat, n: nat)
    requires ids != [] && ids[0] == i && forall a, b :: 0 <= a < b < |ids| ==> ids[a] < ids[b]
    requires forall x :: x in ids <==> x in bits && i <= x < n
    ensures forall x :: x in ids[1..] <==> x in bits && i + 1 <= x < n
  {
    forall x ensures x in ids[1..] <==> x in ids && x != i {
      if x in ids && x != i {
        var k :| 0 <= k < |ids| && ids[k] == x;
        assert ids[1..][k - 1] == x;
      }
    }
  }

  /** For any tables the loop is the run of the releases of the queues in the word, in the order of their ids. */
  lemma {:induction false} LoopIsReleases(r: Tables, bits: set<int>, i: nat, ids: seq<int>)
    requires forall a, b :: 0 <= a < b < |ids| ==> ids[a] < ids[b]
    requires forall x :: x in ids <==> x in bits && i <= x < |r.queues|
    ensures ReleaseFrom(r, bits, i) == Run(r, RelOps(ids))
    decreases |r.queues| - i
  {
    if ids != [] {
      assert ids[0] in ids;
    }
    if i >= |r.queues| {
      assert RelOps(ids) == [];
    } else if i in bits {
      var k :| 0 <= k < |ids| && ids[k] == i;
      assert k == 0;
      assert RelOps(ids)[1..] == RelOps(ids[1..]);
      TailElements(ids, bits, i, |r.queues|);
      LoopIsReleases(Rel(r, i).0, bits, i + 1, ids[1..]);
    } else {
      LoopIsReleases(r, bits, i + 1, ids);
    }
  }

  // ---------- Every run ----------

  datatype Call =
    | Open(f: int)
    | GetCall(f: int, key: UInt16)
    | RelCall(f: int, id: UInt32)
    | Close(f: int)
    | Other(op: Op)   // ftok, a message posted, a message taken

  /** What callers must keep to: names stored where they end and before their key is used, and only held queues released. */
  ghost predicate Allowed(d: Driver, c: Call) {
    match c
    case Open(f) => f !in d.files
    case GetCall(f, key) => f in d.files && key != 0 && HasToken(d.tables, key)
    case RelCall(f, id) => f in d.files && id in d.files[f]
    case Close(f) => f in d.files
    case Other(op) => (op.FtokOp? || op.PostOp? || op.DequeueOp?) && Tidy(d.tables, op)
  }

  function Perform(d: Driver, c: Call): Driver
    requires !c.Open? && !c.Other? ==> c.f in d.files
  {
    match c
    case Open(f) => OpenFile(d, f)
    case GetCall(f, key) => IoctlGet(d, f, key).0
    case RelCall(f, id) => IoctlRel(d, f, id).0
    case Close(f) => CloseFile(d, f)
    case Other(op) => d.(tables := Apply(d.tables, op))
  }

  ghost predicate NonzeroKeys(r: Tables) {
    forall i :: ValidId(r, i) ==> r.queues[i].key != 0
  }

  ghost predicate Sound(d: Driver) {
    WellFormed(d.tables) && Terminated(d.tables.tokens) && TokensCover(d.tables) && NonzeroKeys(d.tables) && Owned(d)
  }

  lemma SameLiveOwned(d: Driver, d': Driver)
    requires Owned(d) && d'.files == d.files && |d'.tables.queues| == |d.tables.queues|
    requires forall i :: ValidId(d'.tables, i) <==> ValidId(d.tables, i)
    ensures Owned(d')
  {
    assert LiveIds(d'.tables) == LiveIds(d.tables) by {
      forall i ensures i in LiveIds(d'.tables) <==> i in LiveIds(d.tables) {
        assert ValidId(d'.tables, i) <==> ValidId(d.tables, i);
      }
    }
  }

  lemma CloseKeepsSound(d: Driver, f: int)
    requires Sound(d) && f in d.files
    ensures Sound(CloseFile(d, f))
    ensures forall i :: i in d.files[f] ==> !ValidId(CloseFile(d, f).tables, i)
  {
    var r, z := d.tables, CloseFile(d, f).tables;
    forall i | i in d.files[f] ensures ValidId(r, i) && HasToken(r, r.queues[i].key) && r.queues[i].key != 0 {
      assert i in LiveIds(r);
    }
    ReleaseAll(r, d.files[f]);
    CloseFrees(d, f);
    forall i | ValidId(z, i) ensures z.queues[i].key != 0 && HasToken(z, z.queues[i].key) {
      assert i !in d.files[f];
      assert ValidId(r, i) && z.queues[i] == r.queues[i];
      forall j | j in d.files[f] ensures r.queues[j].key != r.queues[i].key { assert ValidId(r, j); }
      ReleaseLoopTokens(r, d.files[f], 0, r.queues[i].key);
    }
  }

  lemma PerformKeepsSound(d: Driver, c: Call)
    requires Sound(d) && Allowed(d, c)
    ensures Sound(Perform(d, c))
  {
    match c
    case Open(f) =>
      forall i | ValidId(d.tables, i) ensures exists g :: g in OpenFile(d, f).files && i in OpenFile(d, f).files[g] {
        var g :| g in d.files && i in d.files[g];
        assert i in OpenFile(d, f).files[g];
      }
    case GetCall(f, key) => GetKeepsSound(d, f, key);
    case RelCall(f, id) => RelKeepsSound(d, f, id);
    case Close(f) => CloseKeepsSound(d, f);
    case Other(op) => OtherKeepsSound(d, op);
  }

  lemma GetKeepsSound(d: Driver, f: int, key: UInt16)
    requires Sound(d) && Allowed(d, GetCall(f, key))
    ensures Sound(IoctlGet(d, f, key).0)
  {
    assert Owned(IoctlGet(d, f, key).0) by { GetKeepsOwned(d, f, key); }
    GetKeepsTables(d.tables, key);
    assert IoctlGet(d, f, key).0.tables == Apply(d.tables, GetOp(key));
  }

  lemma GetKeepsTables(r: Tables, key: UInt16)
    requires WellFormed(r) && Terminated(r.tokens) && TokensCover(r) && NonzeroKeys(r) && key != 0 && HasToken(r, key)
    ensures var r' := Apply(r, GetOp(key));
            WellFormed(r') && Terminated(r'.tokens) && TokensCover(r') && NonzeroKeys(r')
  {
    assert ToUInt32(key) == key;
    assert WellFormed(Apply(r, GetOp(key))) by { ApplyKeepsWellFormed(r, GetOp(key)); }
    assert Terminated(Apply(r, GetOp(key)).tokens) && TokensCover(Apply(r, GetOp(key))) by { ApplyKeepsTokens(r, GetOp(key)); }
    NewKeyNonzero(r, key);
  }

  lemma NewKeyNonzero(r: Tables, key: UInt16)
    requires NonzeroKeys(r) && key != 0
    ensures NonzeroKeys(Apply(r, GetOp(key)))
  {
    var r' := Apply(r, GetOp(key));
    assert ToUInt32(key) == key;
    forall i | ValidId(r', i) ensures r'.queues[i].key != 0 {
      assert r'.queues[i] == r.queues[i] || r'.queues[i].key == key;
      assert r'.queues[i] == r.queues[i] ==> ValidId(r, i);
    }
  }

  lemma RelKeepsSound(d: Driver, f: int, id: UInt32)
    requires Sound(d) && Allowed(d, RelCall(f, id))
    ensures Sound(IoctlRel(d, f, id).0) && IoctlRel(d, f, id).1 == 0
  {
    var r := d.tables;
    assert id in LiveIds(r) && ValidId(r, id);
    assert Rel(r, id).1 == 0 by { RelRefines(r, id); }
    RelKeepsOwned(d, f, id);
    var r' := Rel(r, id).0;
    assert WellFormed(r') && Terminated(r'.tokens) && TokensCover(r') by {
      ApplyKeepsWellFormed(r, RelOp(id));
      ApplyKeepsTokens(r, RelOp(id));
    }
    forall i | ValidId(r', i) ensures r'.queues[i].key != 0 {
      assert ValidId(r, i);
    }
  }

  lemma OtherKeepsSound(d: Driver, op: Op)
    requires Sound(d) && Allowed(d, Other(op))
    ensures Sound(d.(tables := Apply(d.tables, op)))
  {
    var r, r' := d.tables, Apply(d.tables, op);
    ApplyKeepsWellFormed(r, op);
    ApplyKeepsTokens(r, op);
    forall i ensures (ValidId(r', i) <==> ValidId(r, i)) && (ValidId(r, i) ==> r'.queues[i].key == r.queues[i].key) {
      match op {
        case FtokOp(path) => FtokTokens(r, path);
        case PostOp(id, m) => PostRefines(r, id, m);
        case DequeueOp(id) => if ValidId(r, id) { DequeueRefines(r, id); }
        case _ =>
      }
    }
    SameLiveOwned(d, d.(tables := r'));
  }

  ghost predicate AllowedRun(d: Driver, calls: seq<Call>)
    decreases |calls|
  {
    calls != [] ==> Allowed(d, calls[0]) && AllowedRun(Perform(d, calls[0]), calls[1..])
  }

  function PerformAll(d: Driver, calls: seq<Call>): Driver
    requires AllowedRun(d, calls)
    decreases |calls|
  {
    if calls == [] then d else PerformAll(Perform(d, calls[0]), calls[1..])
  }

  /**
   * Over every allowed run the open files partition the live queues, every release of a held queue
   * succeeds, and closing any file frees its queues and leaves all others with their contents.
   */
  lemma {:induction false} RunKeepsSound(d: Driver, calls: seq<Call>)
    requires Sound(d) && AllowedRun(d, calls)
    ensures var z := PerformAll(d, calls);
            && Sound(z)
            && (forall f, id :: f in z.files && id in z.files[f] && id < TWO_32 ==> ValidId(z.tables, id) && Rel(z.tables, id).1 == 0)
            && (forall f :: f in z.files ==>
                  var after := CloseFile(z, f).tables;
                  && |after.queues| == |z.tables.queues|
                  && forall i :: 0 <= i < |z.tables.queues| ==>
                       if i in z.files[f] then !after.queues[i].live else after.queues[i] == z.tables.queues[i])
    decreases |calls|
  {
    if calls == [] {
      forall f, id | f in d.files && id in d.files[f] ensures ValidId(d.tables, id) && Rel(d.tables, id).1 == 0 {
        assert id in LiveIds(d.tables) && ValidId(d.tables, id);
        RelRefines(d.tables, id);
      }
      forall f | f in d.files
        ensures var after := CloseFile(d, f).tables;
                && |after.queues| == |d.tables.queues|
                && forall i :: 0 <= i < |d.tables.queues| ==>
                     if i in d.files[f] then !after.queues[i].live else after.queues[i] == d.tables.queues[i]
      {
        forall i | i in d.files[f] ensures d.tables.queues[i].key != 0 { assert i in LiveIds(d.tables) && ValidId(d.tables, i); }
        CloseFrees(d, f);
        CloseKeepsSound(d, f);
        assert forall i :: i in d.files[f] ==> !ValidId(CloseFile(d, f).tables, i);
      }
    } else {
      PerformKeepsSound(d, calls[0]);
      RunKeepsSound(Perform(d, calls[0]), calls[1..]);
    }
  }
}
