/** The life of the token rows, byte by byte: what storing and releasing leave, and what is never written. */
module TokenLife {
  import opened Common
  import opened NameHash
  import opened Registry

  // ---------- Single calls ----------

  /** `ftok` writes the first empty row, 32 bytes of it, and nothing else; without an empty row it writes nothing. */
  lemma FtokRows(r: Tables, path: CString, j: nat)
    requires j <= |r.tokens| && (j < |r.tokens| ==> r.tokens[j][0] == 0)
    requires forall i :: 0 <= i < j ==> r.tokens[i][0] != 0
    ensures var r' := Ftok(r, path);
            && r'.queues == r.queues && |r'.tokens| == |r.tokens|
            && (forall i :: 0 <= i < |r.tokens| && i != j ==> r'.tokens[i] == r.tokens[i])
            && (j < |r.tokens| ==>
                  forall k :: 0 <= k <= IPC_MSG_QUEUE_TOKEN_STR_MAXLEN ==>
                    r'.tokens[j][k] == if k == IPC_MSG_QUEUE_TOKEN_STR_MAXLEN then r.tokens[j][k]
                                       else if k < |path| then path[k] else 0)
  {
    var f := FirstEmptyRow(r.tokens);
    assert f == j;
    if j < |r.tokens| {
      forall k | 0 <= k <= IPC_MSG_QUEUE_TOKEN_STR_MAXLEN
        ensures Ftok(r, path).tokens[j][k] == if k == IPC_MSG_QUEUE_TOKEN_STR_MAXLEN then r.tokens[j][k]
                                              else if k < |path| then path[k] else 0
      {
        StrNCpyBytes(r.tokens[j], path, k);
      }
    }
  }

  /**
   * A successful release writes one byte: the first of the first row read as the key. The entry keeps
   * its key, and everything else stays as it was.
   */
  lemma RelRows(r: Tables, id: int, j: nat)
    requires Rel(r, id).1 == 0
    requires j < |r.tokens| && TokenKey(r.tokens, j) == r.queues[id].key
    requires forall i :: 0 <= i < j ==> TokenKey(r.tokens, i) != r.queues[id].key
    ensures var r' := Rel(r, id).0;
            && r'.cap == r.cap && r'.queues == r.queues[id := Queue(false, r.queues[id].key, [])]
            && |r'.tokens| == |r.tokens|
            && (forall i :: 0 <= i < |r.tokens| && i != j ==> r'.tokens[i] == r.tokens[i])
            && r'.tokens[j][0] == 0 && r'.tokens[j][1..] == r.tokens[j][1..]
  {
    FirstRowIs(r.tokens, r.queues[id].key, j);
  }

  // ---------- Counting rows ----------

  /** The rows read as a key. */
  ghost function RowsOf(tokens: seq<Row>, key: UInt32): set<int> {
    set j: int | 0 <= j < |tokens| && TokenKey(tokens, j) == key
  }

  ghost function EmptyRows(tokens: seq<Row>): set<int> {
    set j: int | 0 <= j < |tokens| && tokens[j][0] == 0
  }

  lemma NoRows(r: Tables, key: UInt32)
    ensures HasToken(r, key) <==> RowsOf(r.tokens, key) != {}
  {
    if HasToken(r, key) {
      var j :| 0 <= j < |r.tokens| && TokenKey(r.tokens, j) == key;
      assert j in RowsOf(r.tokens, key);
    }
    if j: int :| j in RowsOf(r.tokens, key) {
      assert TokenKey(r.tokens, j) == key;
    } else {
      assert RowsOf(r.tokens, key) == {};
    }
  }

  /** Emptying a row read as a nonzero key. */
  lemma RowEmptied(a: seq<Row>, b: seq<Row>, j: nat, other: UInt32)
    requires Terminated(a) && j < |a| == |b| && b == a[j := b[j]] && b[j][0] == 0
    requires TokenKey(a, j) != 0 && other != 0 && other != TokenKey(a, j)
    ensures j in RowsOf(a, TokenKey(a, j)) && RowsOf(b, TokenKey(a, j)) == RowsOf(a, TokenKey(a, j)) - {j}
    ensures RowsOf(b, other) == RowsOf(a, other)
  {
    EmptyRowKey(b, j);
    forall i | 0 <= i < |a| && i != j ensures TokenKey(b, i) == TokenKey(a, i) {
      OtherRowKey(a, b, j, i);
    }
  }

  lemma OneMoreEmpty(a: seq<Row>, b: seq<Row>, j: nat)
    requires j < |a| == |b| && b == a[j := b[j]] && b[j][0] == 0 && TokenKey(a, j) != 0
    ensures j !in EmptyRows(a) && EmptyRows(b) == EmptyRows(a) + {j}
  {
    if a[j][0] == 0 {
      EmptyRowKey(a, j);
    }
  }

  /**
   * While every row ends its own string, a successful release of a queue with a nonzero key turns exactly
   * one row read as that key into an empty one, and leaves the rows of every other nonzero key alone.
   */
  lemma RelTakesOneToken(r: Tables, id: int, other: UInt32)
    requires Terminated(r.tokens) && Rel(r, id).1 == 0 && r.queues[id].key != 0
    requires other != 0 && other != r.queues[id].key
    ensures var r', key := Rel(r, id).0, r.queues[id].key;
            && |RowsOf(r'.tokens, key)| == |RowsOf(r.tokens, key)| - 1
            && |EmptyRows(r'.tokens)| == |EmptyRows(r.tokens)| + 1
            && RowsOf(r'.tokens, key) < RowsOf(r.tokens, key) && EmptyRows(r.tokens) < EmptyRows(r'.tokens)
            && RowsOf(r'.tokens, other) == RowsOf(r.tokens, other)
  {
    var j := FirstRowOf(r.tokens, r.queues[id].key);
    RelRows(r, id, j);
    RowEmptied(r.tokens, Rel(r, id).0.tokens, j, other);
    OneMoreEmpty(r.tokens, Rel(r, id).0.tokens, j);
  }

  /** So the last token of a key goes with the release. */
  lemma LastTokenGoes(r: Tables, id: int)
    requires Terminated(r.tokens) && Rel(r, id).1 == 0 && r.queues[id].key != 0
    ensures HasToken(Rel(r, id).0, r.queues[id].key) <==> |RowsOf(r.tokens, r.queues[id].key)| > 1
  {
    var r', key := Rel(r, id).0, r.queues[id].key;
    RelTakesOneToken(r, id, if key == 1 then 2 else 1);
    NoRows(r', key);
  }

  /**
   * The second life of a queue: after `ftok`, `get`, `rel` the name has to be stored again. A second
   * `get` under the key succeeds, and its `rel` fails.
   */
  lemma SecondLifeLeaks(r: Tables, path: CString)
    requires WellFormed(r) && Terminated(r.tokens) && |path| < IPC_MSG_QUEUE_TOKEN_STR_MAXLEN
    requires Hash(path) != 0 && Hash(path) !in AsMap(r) && !HasToken(r, Hash(path))
    requires FirstEmptyRow(r.tokens) < |r.tokens| && FirstFree(r.queues) < |r.queues|
    ensures var (r2, id) := Get(Ftok(r, path), Hash(path));
            var (r3, ret) := Rel(r2, id);
            var (r4, id4) := Get(r3, Hash(path));
            ret == 0 && id4 == id == FirstFree(r.queues) && Rel(r4, id4) == (r4, -2)
  {
    FirstLife(r, path);
    OneRow(r, path);
    LastTokenGoes(Get(Ftok(r, path), Hash(path)).0, FirstFree(r.queues));
    ReopensUntokened(Get(Ftok(r, path), Hash(path)).0, FirstFree(r.queues), Hash(path));
  }

  lemma FirstLife(r: Tables, path: CString)
    requires WellFormed(r) && |path| < IPC_MSG_QUEUE_TOKEN_STR_MAXLEN
    requires Hash(path) != 0 && Hash(path) !in AsMap(r)
    requires FirstEmptyRow(r.tokens) < |r.tokens| && FirstFree(r.queues) < |r.queues|
    ensures var (r2, id) := Get(Ftok(r, path), Hash(path));
            && id == FirstFree(r.queues) && WellFormed(r2) && r2.queues[id].key == Hash(path) && Rel(r2, id).1 == 0
            && r2.tokens == Ftok(r, path).tokens && forall i :: 0 <= i < id ==> r2.queues[i].live
  {
    NamedQueueComesAndGoes(r, path);
    FtokKeeps(r, path);
    SameQueuesSameMap(r, Ftok(r, path));
    GetPlaces(Ftok(r, path), Hash(path));
    GetKeeps(Ftok(r, path), Hash(path));
  }

  /** Storing a new short name gives its key one row. */
  lemma OneRow(r: Tables, path: CString)
    requires Terminated(r.tokens) && |path| < IPC_MSG_QUEUE_TOKEN_STR_MAXLEN && !HasToken(r, Hash(path))
    requires FirstEmptyRow(r.tokens) < |r.tokens|
    ensures Terminated(Ftok(r, path).tokens) && |RowsOf(Ftok(r, path).tokens, Hash(path))| == 1
  {
    var j := FirstEmptyRow(r.tokens);
    var r1 := Ftok(r, path);
    TidyKeepsTerminated(r, FtokOp(path));
    StoredKey(r.tokens, j, path);
    forall i | 0 <= i < |r.tokens| && i != j ensures TokenKey(r1.tokens, i) != Hash(path) {
      OtherRowKey(r.tokens, r1.tokens, j, i);
      assert TokenKey(r.tokens, i) != Hash(path);
    }
    assert RowsOf(r1.tokens, Hash(path)) == {j};
  }

  /** After the release of a queue whose token is gone, the entry is handed out again and stays. */
  lemma ReopensUntokened(r: Tables, id: nat, key: UInt16)
    requires WellFormed(r) && Rel(r, id).1 == 0 && r.queues[id].key == key
    requires !HasToken(Rel(r, id).0, key) && forall i :: 0 <= i < id ==> r.queues[i].live
    ensures var (r', id') := Get(Rel(r, id).0, key);
            id' == id && Rel(r', id') == (r', -2)
  {
    var r3 := Rel(r, id).0;
    RelRefines(r, id);
    assert FirstFree(r3.queues) == id;
    GetPlaces(r3, key);
    var r4 := Get(r3, key).0;
    assert HasToken(r4, key) <==> HasToken(r3, key);
    RelSucceeds(r4, id);
  }

  /** For instance on fresh tables, with the name "b". */
  lemma SecondLifeExample(last: CChar)
    ensures var (r2, id) := Get(Ftok(FreshTables(IPC_MSG_ELEMENT_NUM, IPC_MSG_QUEUE_NUM, last), [98]), 98);
            var (r3, ret) := Rel(r2, id);
            var (r4, id4) := Get(r3, 98);
            ret == 0 && id4 == 0 && Rel(r4, id4).1 == -2
  {
    FreshIsEmpty(IPC_MSG_ELEMENT_NUM, IPC_MSG_QUEUE_NUM, last, 98);
    ShortNameKey();
    SecondLifeLeaks(FreshTables(IPC_MSG_ELEMENT_NUM, IPC_MSG_QUEUE_NUM, last), [98]);
  }

  // ---------- The byte nobody writes ----------

  lemma LastByteStays(r: Tables, op: Op, j: nat)
    requires j < |r.tokens|
    ensures |Apply(r, op).tokens| == |r.tokens|
    ensures Apply(r, op).tokens[j][IPC_MSG_QUEUE_TOKEN_STR_MAXLEN] == r.tokens[j][IPC_MSG_QUEUE_TOKEN_STR_MAXLEN]
  {
    match op
    case FtokOp(path) => FtokRows(r, path, FirstEmptyRow(r.tokens));
    case RelOp(id) =>
      if Rel(r, id).1 == 0 {
        RelSucceeds(r, id);
        var f := FirstRowOf(r.tokens, r.queues[id].key);
        RelRows(r, id, f);
        assert r.tokens[f][1..][IPC_MSG_QUEUE_TOKEN_STR_MAXLEN - 1] == r.tokens[f][IPC_MSG_QUEUE_TOKEN_STR_MAXLEN];
      }
    case _ =>
  }

  /** Over every run, from any tables, the last byte of every row stays what the memory held. */
  lemma {:induction false} LastBytesStay(r: Tables, ops: seq<Op>, j: nat)
    requires j < |r.tokens|
    ensures |Run(r, ops).tokens| == |r.tokens|
    ensures Run(r, ops).tokens[j][IPC_MSG_QUEUE_TOKEN_STR_MAXLEN] == r.tokens[j][IPC_MSG_QUEUE_TOKEN_STR_MAXLEN]
    decreases |ops|
  {
    if ops != [] {
      LastByteStays(r, ops[0], j);
      LastBytesStay(Apply(r, ops[0]), ops[1..], j);
    }
  }

  /** No queue is live and no name is stored. */
  ghost predicate Cleared(r: Tables) {
    && WellFormed(r) && |r.queues| > 0 && |r.tokens| > 1
    && (forall i :: 0 <= i < |r.queues| ==> !r.queues[i].live)
    && forall j :: 0 <= j < |r.tokens| ==> r.tokens[j][0] == 0
  }

  lemma ClearedTokens(r: Tables, key: UInt32)
    requires Cleared(r)
    ensures Terminated(r.tokens) && FirstEmptyRow(r.tokens) == 0 == FirstFree(r.queues) && AsMap(r) == map[]
    ensures key != 0 ==> !HasToken(r, key)
  {
    forall j | 0 <= j < |r.tokens| ensures 0 in r.tokens[j] && TokenKey(r.tokens, j) == 0 {
      assert r.tokens[j][0] == 0;
      EmptyRowKey(r.tokens, j);
    }
  }

  /** Releasing the only queue and with it the only name. */
  lemma ReleaseClears(r: Tables)
    requires WellFormed(r) && |r.queues| > 0 && |r.tokens| > 1 && Rel(r, 0).1 == 0
    requires forall i :: 1 <= i < |r.queues| ==> !r.queues[i].live
    requires forall j :: 1 <= j < |r.tokens| ==> r.tokens[j][0] == 0
    requires TokenKey(r.tokens, 0) == r.queues[0].key
    ensures Cleared(Rel(r, 0).0) && |Rel(r, 0).0.tokens| == |r.tokens|
  {
    RelRows(r, 0, 0);
    RelKeeps(r, 0);
  }

  /** The tables in between: one live entry and one name. */
  lemma OneLive(r: Tables, path: CString)
    requires Cleared(r) && |path| < IPC_MSG_QUEUE_TOKEN_STR_MAXLEN && Hash(path) != 0
    ensures var r2 := Get(Ftok(r, path), Hash(path)).0;
            && |r2.queues| == |r.queues| && |r2.tokens| == |r.tokens|
            && (forall i :: 1 <= i < |r2.queues| ==> !r2.queues[i].live)
            && (forall j :: 1 <= j < |r2.tokens| ==> r2.tokens[j][0] == 0)
            && TokenKey(r2.tokens, 0) == Hash(path)
  {
    ClearedTokens(r, Hash(path));
    FtokRows(r, path, 0);
    StoredKey(r.tokens, 0, path);
  }

  /** A short name stored, its queue created and released: the tables are cleared again. */
  lemma CycleClears(r: Tables, path: CString)
    requires Cleared(r) && |path| < IPC_MSG_QUEUE_TOKEN_STR_MAXLEN && Hash(path) != 0
    ensures var (r2, id) := Get(Ftok(r, path), Hash(path));
            var (r3, ret) := Rel(r2, id);
            && id == 0 && ret == 0 && Cleared(r3) && |r3.tokens| == |r.tokens|
            && r3 == Run(r, [FtokOp(path), GetOp(Hash(path)), RelOp(0)])
  {
    ClearedTokens(r, Hash(path));
    FirstLife(r, path);
    OneLive(r, path);
    ReleaseClears(Get(Ftok(r, path), Hash(path)).0);
    RunThree(r, FtokOp(path), GetOp(Hash(path)), RelOp(0));
  }

  /** On cleared tables a long name whose copy hashes to another key leads to a queue that cannot be released. */
  lemma MisstoredOnCleared(r: Tables, path: CString)
    requires Cleared(r) && |path| >= IPC_MSG_QUEUE_TOKEN_STR_MAXLEN && Hash(path) != 0
    requires r.tokens[0][IPC_MSG_QUEUE_TOKEN_STR_MAXLEN] != 0
    requires Step(Hash(path[..IPC_MSG_QUEUE_TOKEN_STR_MAXLEN]), r.tokens[0][IPC_MSG_QUEUE_TOKEN_STR_MAXLEN]) != Hash(path)
    ensures var (r2, id) := Get(Ftok(r, path), Hash(path));
            id == 0 && Rel(r2, 0) == (r2, -2)
  {
    var key := Hash(path);
    var r1 := Ftok(r, path);
    ClearedTokens(r, key);
    TokenAppears(r, FtokOp(path), key);
    StoredBeforeEmpty(r.tokens, 0, r.tokens[0][IPC_MSG_QUEUE_TOKEN_STR_MAXLEN], path);
    FtokKeeps(r, path);
    SameQueuesSameMap(r, r1);
    GetPlaces(r1, key);
    var r2 := Get(r1, key).0;
    assert HasToken(r2, key) <==> HasToken(r1, key);
    RelSucceeds(r2, 0);
  }

  /** A short name used before does not help: the byte behind the row is still there for the long one. */
  lemma ShortThenLong(r: Tables, short: CString, path: CString)
    requires Cleared(r) && |short| < IPC_MSG_QUEUE_TOKEN_STR_MAXLEN <= |path| && Hash(short) != 0 && Hash(path) != 0
    requires r.tokens[0][IPC_MSG_QUEUE_TOKEN_STR_MAXLEN] != 0
    requires Step(Hash(path[..IPC_MSG_QUEUE_TOKEN_STR_MAXLEN]), r.tokens[0][IPC_MSG_QUEUE_TOKEN_STR_MAXLEN]) != Hash(path)
    ensures var (r2, id) := Get(Ftok(r, short), Hash(short));
            var r3 := Rel(r2, id).0;
            var (r5, id5) := Get(Ftok(r3, path), Hash(path));
            id5 == 0 && Rel(r5, 0) == (r5, -2)
  {
    CycleClears(r, short);
    LastBytesStay(r, [FtokOp(short), GetOp(Hash(short)), RelOp(0)], 0);
    MisstoredOnCleared(Run(r, [FtokOp(short), GetOp(Hash(short)), RelOp(0)]), path);
  }

  /** For instance "b" first, and then the 32-character name that starts with it. */
  lemma ShortThenLongExample()
    ensures var r := FreshTables(IPC_MSG_ELEMENT_NUM, IPC_MSG_QUEUE_NUM, 1);
            var (r2, id) := Get(Ftok(r, [98]), Hash([98]));
            var r3 := Rel(r2, id).0;
            var (r5, id5) := Get(Ftok(r3, LongName()), Hash(LongName()));
            id5 == 0 && Rel(r5, 0).1 == -2
  {
    FreshIsCleared(IPC_MSG_ELEMENT_NUM, IPC_MSG_QUEUE_NUM, 1);
    ShortNameKey();
    LongNameMisstored();
    ShortThenLong(FreshTables(IPC_MSG_ELEMENT_NUM, IPC_MSG_QUEUE_NUM, 1), [98], LongName());
  }

  lemma FreshIsCleared(cap: nat, n: nat, last: CChar)
    requires n > 1
    ensures Cleared(FreshTables(cap, n, last))
    ensures FreshTables(cap, n, last).tokens[0][IPC_MSG_QUEUE_TOKEN_STR_MAXLEN] == last
  {
    FreshIsEmpty(cap, n, last, 1);
  }

  lemma ShortNameKey()
    ensures Hash([98]) == 98
  {
    RepeatCollision(49, 0);
    assert [98] + seq(0, _ => 49) == [98];
  }
}
