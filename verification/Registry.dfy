/**
 * What the queue table and the token table mean, and what each locked operation does to them.
 * A queue is known by its table index (the `msqid`) and, while live, by its key.
 */
module Registry {
  import opened Common
  import opened NameHash

  /** The contents of a NUL-terminated string. */
  type CString = s: seq<CChar> | 0 !in s

  /** One row of the token table: room for 32 characters and a final byte. */
  type Row = r: seq<CChar> | |r| == IPC_MSG_QUEUE_TOKEN_STR_MAXLEN + 1
    witness seq(IPC_MSG_QUEUE_TOKEN_STR_MAXLEN + 1, _ => 0)

  /** A table entry. Releasing an entry leaves its key in place but drops what was queued. */
  datatype Queue = Queue(live: bool, key: UInt32, msgs: seq<Msg>)

  datatype Tables = Tables(cap: nat, queues: seq<Queue>, tokens: seq<Row>)

  ghost predicate ValidId(r: Tables, id: int) {
    0 <= id < |r.queues| && r.queues[id].live
  }

  ghost predicate DistinctKeys(r: Tables) {
    forall i, j :: ValidId(r, i) && ValidId(r, j) && r.queues[i].key == r.queues[j].key ==> i == j
  }

  ghost predicate ValidQueue(q: Queue, cap: nat) {
    && (!q.live ==> q.msgs == [])
    && |q.msgs| <= cap
    && forall m :: m in q.msgs ==> |m| <= IPC_MSG_ELEMENT_SIZE
  }

  ghost predicate WellFormed(r: Tables) {
    && DistinctKeys(r)
    && forall i :: 0 <= i < |r.queues| ==> ValidQueue(r.queues[i], r.cap)
  }

  // ---------- Operations ----------

  /** The characters up to the first NUL. */
  function CStr(chars: seq<CChar>): seq<CChar> {
    chars[..FirstIndex(chars, (c: CChar) => c == 0)]
  }

  /** The memory of the token table from row `j` on. */
  function Flat(tokens: seq<Row>, j: nat): seq<CChar>
    requires j <= |tokens|
    decreases |tokens| - j
  {
    if j == |tokens| then [] else tokens[j] + Flat(tokens, j + 1)
  }

  /** The string that starts in row `j`: a row without a NUL runs on into the next. */
  function StringFrom(tokens: seq<Row>, j: nat): seq<CChar>
    requires j <= |tokens|
  {
    CStr(Flat(tokens, j))
  }

  function TokenKey(tokens: seq<Row>, j: nat): UInt16
    requires j < |tokens|
  {
    Hash(StringFrom(tokens, j))
  }

  /** Every row ends its own string. */
  ghost predicate Terminated(tokens: seq<Row>) {
    forall j :: 0 <= j < |tokens| ==> 0 in tokens[j]
  }

  /** `strncpy` of at most 32 characters, padded with NULs; the last byte of the row is not written. */
  function StrNCpy(row: Row, path: CString): Row {
    var n := IPC_MSG_QUEUE_TOKEN_STR_MAXLEN;
    (if |path| < n then path + seq(n - |path|, _ => 0) else path[..n]) + row[n..]
  }

  function FirstEmptyRow(tokens: seq<Row>): (j: nat)
    ensures j <= |tokens| && (j < |tokens| ==> tokens[j][0] == 0)
    ensures forall i :: 0 <= i < j ==> tokens[i][0] != 0
  {
    FirstIndex(tokens, (row: Row) => row[0] == 0)
  }

  /** The first row from `i` on whose string hashes to `key`. */
  function FirstRowFrom(tokens: seq<Row>, key: UInt32, i: nat): (j: nat)
    requires i <= |tokens|
    ensures i <= j <= |tokens| && (j < |tokens| ==> TokenKey(tokens, j) == key)
    ensures forall k :: i <= k < j ==> TokenKey(tokens, k) != key
    decreases |tokens| - i
  {
    if i == |tokens| || TokenKey(tokens, i) == key then i else FirstRowFrom(tokens, key, i + 1)
  }

  function FirstRowOf(tokens: seq<Row>, key: UInt32): (j: nat)
    ensures j <= |tokens| && (j < |tokens| ==> TokenKey(tokens, j) == key)
    ensures forall k :: 0 <= k < j ==> TokenKey(tokens, k) != key
  {
    FirstRowFrom(tokens, key, 0)
  }

  lemma FirstRowIs(tokens: seq<Row>, key: UInt32, row: nat)
    requires row <= |tokens| && forall k :: 0 <= k < row ==> TokenKey(tokens, k) != key
    requires row < |tokens| ==> TokenKey(tokens, row) == key
    ensures FirstRowOf(tokens, key) == row
  {
    var j := FirstRowOf(tokens, key);
    assert j >= row;
  }

  function FirstLive(queues: seq<Queue>, key: UInt32): (i: nat)
    ensures i <= |queues| && (i < |queues| ==> queues[i].live && queues[i].key == key)
    ensures forall j :: 0 <= j < i ==> !(queues[j].live && queues[j].key == key)
  {
    FirstIndex(queues, (q: Queue) => q.live && q.key == key)
  }

  function FirstFree(queues: seq<Queue>): (i: nat)
    ensures i <= |queues| && (i < |queues| ==> !queues[i].live)
    ensures forall j :: 0 <= j < i ==> queues[j].live
  {
    FirstIndex(queues, (q: Queue) => !q.live)
  }

  /** `ipc_msgque_ftok`: remember the name in the first empty row, if any, and return its hash. */
  function Ftok(r: Tables, path: CString): Tables {
    var j := FirstEmptyRow(r.tokens);
    if j < |r.tokens| then r.(tokens := r.tokens[j := StrNCpy(r.tokens[j], path)]) else r
  }

  /** `ipc_msgque_getIDbyKey`. */
  function IdOf(r: Tables, key: int): int {
    var i := FirstLive(r.queues, ToUInt32(key));
    if i < |r.queues| then i else -3
  }

  /** `ipc_msgque_get`: the new state and the queue id, -1 for a duplicate key, -2 for a full table. */
  function Get(r: Tables, key: int): (Tables, int) {
    var i: int := FirstFree(r.queues);
    if FirstLive(r.queues, ToUInt32(key)) < |r.queues| then (r, -1)
    else if i == |r.queues| then (r, -2)
    else (r.(queues := r.queues[i := Queue(true, ToUInt32(key), [])]), i)
  }

  /** `ipc_msgque_rel`: -1 for an id that is not live, -2 when no token hashes to the queue's key. */
  function Rel(r: Tables, id: int): (Tables, int) {
    if !(0 <= id < |r.queues| && r.queues[id].live) then (r, -1)
    else
      var j := FirstRowOf(r.tokens, r.queues[id].key);
      if j == |r.tokens| then (r, -2)
      else (r.(queues := r.queues[id := Queue(false, r.queues[id].key, [])],
               tokens := r.tokens[j := r.tokens[j][0 := 0]]), 0)
  }

  /** `ipc_msgque_msgpost`: -2 for an oversized message, -3 for a dead id, -4 for a full queue. */
  function Post(r: Tables, id: int, m: Msg): (Tables, int) {
    if |m| > IPC_MSG_ELEMENT_SIZE then (r, -2)
    else if !(0 <= id < |r.queues| && r.queues[id].live) then (r, -3)
    else
      var q := r.queues[id];
      if |q.msgs| >= r.cap then (r, -4)
      else (r.(queues := r.queues[id := q.(msgs := q.msgs + [m])]), 0)
  }

  /** `ipc_msgque_dequeue` on a live queue: the head, or nothing when the queue is empty. */
  function Dequeue(r: Tables, id: nat): (Tables, Option<Msg>)
    requires id < |r.queues|
  {
    var q := r.queues[id];
    if q.msgs == [] then (r, None)
    else (r.(queues := r.queues[id := q.(msgs := q.msgs[1..])]), Some(q.msgs[0]))
  }

  // ---------- The map the table stands for ----------

  /** The live queues as a map from key to the messages waiting under it. */
  ghost function AsMap(r: Tables): map<UInt32, seq<Msg>>
    requires DistinctKeys(r)
  {
    map i | 0 <= i < |r.queues| && r.queues[i].live :: r.queues[i].key := r.queues[i].msgs
  }

  /** A lookup answers with the one live queue of that key, so the order of the scan does not matter. */
  lemma LookupAgrees(r: Tables, key: int)
    requires DistinctKeys(r)
    ensures forall i :: IdOf(r, key) == i && i >= 0 <==> ValidId(r, i) && r.queues[i].key == ToUInt32(key)
    ensures IdOf(r, key) == -3 <==> ToUInt32(key) !in AsMap(r)
    ensures IdOf(r, key) >= -3 && IdOf(r, key) != -1 && IdOf(r, key) != -2
  {
    var k := ToUInt32(key);
    var i := FirstLive(r.queues, k);
    if i < |r.queues| {
      assert ValidId(r, i);
    }
    forall j | ValidId(r, j) && r.queues[j].key == k ensures i == j {
      if j < i { assert false; }
      assert ValidId(r, i);
    }
  }

  lemma EntryInMap(r: Tables, id: int)
    requires DistinctKeys(r) && ValidId(r, id)
    ensures r.queues[id].key in AsMap(r) && AsMap(r)[r.queues[id].key] == r.queues[id].msgs
  {
    assert r.queues[id].key in AsMap(r);
    forall i | ValidId(r, i) && r.queues[i].key == r.queues[id].key ensures i == id { }
  }

  lemma MapEntry(r: Tables, k: UInt32) returns (id: int)
    requires DistinctKeys(r) && k in AsMap(r)
    ensures ValidId(r, id) && r.queues[id].key == k && AsMap(r)[k] == r.queues[id].msgs
  {
    id :| 0 <= id < |r.queues| && r.queues[id].live && r.queues[id].key == k;
    assert ValidId(r, id);
    EntryInMap(r, id);
  }

  /** The effect on the map of rewriting one entry. */
  ghost function Rewritten(m: map<UInt32, seq<Msg>>, q: Queue, q': Queue): map<UInt32, seq<Msg>> {
    var rest := if q.live then m - {q.key} else m;
    if q'.live then rest[q'.key := q'.msgs] else rest
  }

  ghost predicate RewrittenAt(r: Tables, r': Tables, id: int) {
    && DistinctKeys(r) && DistinctKeys(r')
    && 0 <= id < |r.queues| && |r'.queues| == |r.queues|
    && r'.queues == r.queues[id := r'.queues[id]]
  }

  lemma RewriteForward(r: Tables, r': Tables, id: int, k: UInt32)
    requires RewrittenAt(r, r', id) && k in AsMap(r')
    ensures var m := Rewritten(AsMap(r), r.queues[id], r'.queues[id]);
            k in m && m[k] == AsMap(r')[k]
  {
    var i := MapEntry(r', k);
    if i != id {
      assert ValidId(r, i);
      EntryInMap(r, i);
      if r.queues[id].live { assert ValidId(r, id); }
      if r'.queues[id].live { assert ValidId(r', id); }
    }
  }

  lemma RewriteBackward(r: Tables, r': Tables, id: int, k: UInt32)
    requires RewrittenAt(r, r', id) && k in Rewritten(AsMap(r), r.queues[id], r'.queues[id])
    ensures k in AsMap(r')
  {
    if r'.queues[id].live && k == r'.queues[id].key {
      EntryInMap(r', id);
    } else {
      var i := MapEntry(r, k);
      assert ValidId(r', i);
      EntryInMap(r', i);
    }
  }

  lemma UpdateEntry(r: Tables, r': Tables, id: int)
    requires RewrittenAt(r, r', id)
    ensures AsMap(r') == Rewritten(AsMap(r), r.queues[id], r'.queues[id])
  {
    var got, want := AsMap(r'), Rewritten(AsMap(r), r.queues[id], r'.queues[id]);
    forall k | k in got ensures k in want && want[k] == got[k] {
      RewriteForward(r, r', id, k);
    }
    forall k | k in want ensures k in got {
      RewriteBackward(r, r', id, k);
    }
  }

  lemma KeepsWellFormed(r: Tables, r': Tables, id: int)
    requires WellFormed(r)
    requires 0 <= id < |r.queues| && |r'.queues| == |r.queues| && r'.cap == r.cap
    requires r'.queues == r.queues[id := r'.queues[id]] && ValidQueue(r'.queues[id], r.cap)
    requires r'.queues[id].live ==> forall i :: ValidId(r, i) && i != id ==> r.queues[i].key != r'.queues[id].key
    ensures WellFormed(r')
  {
    forall i, j | ValidId(r', i) && ValidId(r', j) && r'.queues[i].key == r'.queues[j].key ensures i == j {
      if i != id { assert ValidId(r, i); }
      if j != id { assert ValidId(r, j); }
    }
  }

  /** The id of a live queue is what its key looks up. */
  lemma LookupFinds(r: Tables, id: int)
    requires DistinctKeys(r) && ValidId(r, id)
    ensures FirstLive(r.queues, r.queues[id].key) == id && IdOf(r, r.queues[id].key) == id
  {
    var i := FirstLive(r.queues, r.queues[id].key);
    assert i <= id;
    assert ValidId(r, i);
  }

  /** `get` adds an empty queue; it fails exactly when the key is taken or every entry is live. */
  lemma GetRefines(r: Tables, key: int)
    requires WellFormed(r)
    ensures var (r', ret) := Get(r, key);
            var k := ToUInt32(key);
            && WellFormed(r')
            && -2 <= ret < |r.queues|
            && (ret == -1 <==> k in AsMap(r))
            && (ret == -2 <==> k !in AsMap(r) && forall i :: 0 <= i < |r.queues| ==> r.queues[i].live)
            && (ret < 0 ==> r' == r)
            && (ret >= 0 ==>
                  && !r.queues[ret].live
                  && r' == r.(queues := r.queues[ret := Queue(true, k, [])])
                  && AsMap(r') == AsMap(r)[k := []])
  {
    var (r', ret) := Get(r, key);
    LookupAgrees(r, key);
    if ret >= 0 {
      forall i | ValidId(r, i) ensures r.queues[i].key != ToUInt32(key) { EntryInMap(r, i); }
      KeepsWellFormed(r, r', ret);
      UpdateEntry(r, r', ret);
    }
  }

  /** `rel` deletes one key and empties one token; it succeeds exactly on a live id with a token. */
  lemma RelRefines(r: Tables, id: int)
    requires WellFormed(r)
    ensures var (r', ret) := Rel(r, id);
            && WellFormed(r')
            && (ret == 0 <==> ValidId(r, id) && HasToken(r, r.queues[id].key))
            && (ret == -1 <==> !ValidId(r, id))
            && (ret == 0 || ret == -1 || ret == -2)
            && (ret != 0 ==> r' == r)
            && (ret == 0 ==>
                  && !ValidId(r', id)
                  && (forall i :: 0 <= i < |r.queues| && i != id ==> r'.queues[i] == r.queues[i])
                  && AsMap(r') == AsMap(r) - {r.queues[id].key}
                  && (Terminated(r.tokens) ==>
                        && Terminated(r'.tokens)
                        && forall k :: k != r.queues[id].key && k != 0 ==> (HasToken(r', k) <==> HasToken(r, k))))
  {
    var (r', ret) := Rel(r, id);
    RelSucceeds(r, id);
    if ret == 0 {
      KeepsWellFormed(r, r', id);
      UpdateEntry(r, r', id);
      if Terminated(r.tokens) {
        RelTokens(r, id);
      }
    }
  }

  /** With rows that end their own strings, a release takes away one token and no other. */
  lemma RelTokens(r: Tables, id: int)
    requires Terminated(r.tokens) && Rel(r, id).1 == 0
    ensures var r' := Rel(r, id).0;
            && Terminated(r'.tokens)
            && forall k: UInt32 :: k != r.queues[id].key && k != 0 ==> (HasToken(r', k) <==> HasToken(r, k))
  {
    var j := FirstRowOf(r.tokens, r.queues[id].key);
    var r' := Rel(r, id).0;
    assert r'.tokens[j][0] == 0;
    EmptyRowKey(r'.tokens, j);
    ReplaceRow(r, r', j);
  }

  lemma Reinsert(m: map<UInt32, seq<Msg>>, k: UInt32, msgs: seq<Msg>)
    ensures (m - {k})[k := msgs] == m[k := msgs]
  {
  }

  /** Changing only what waits in one live queue changes the map at that queue's key only. */
  lemma RewriteMsgs(r: Tables, r': Tables, id: int, msgs: seq<Msg>)
    requires WellFormed(r) && ValidId(r, id)
    requires r' == r.(queues := r.queues[id := Queue(true, r.queues[id].key, msgs)])
    requires ValidQueue(r'.queues[id], r.cap)
    ensures WellFormed(r')
    ensures forall i :: ValidId(r', i) <==> ValidId(r, i)
    ensures forall i :: 0 <= i < |r.queues| ==> r'.queues[i].key == r.queues[i].key
    ensures r.queues[id].key in AsMap(r) && AsMap(r)[r.queues[id].key] == r.queues[id].msgs
    ensures AsMap(r') == AsMap(r)[r.queues[id].key := msgs]
  {
    assert WellFormed(r') by { KeepsWellFormed(r, r', id); }
    EntryInMap(r, id);
    assert AsMap(r') == Rewritten(AsMap(r), r.queues[id], r'.queues[id]) by { UpdateEntry(r, r', id); }
    Reinsert(AsMap(r), r.queues[id].key, msgs);
  }

  /** `msgpost` appends to the queue of one key, or changes nothing. */
  lemma PostRefines(r: Tables, id: int, m: Msg)
    requires WellFormed(r)
    ensures var (r', ret) := Post(r, id, m);
            && WellFormed(r')
            && (ret == 0 <==> |m| <= IPC_MSG_ELEMENT_SIZE && ValidId(r, id) && |r.queues[id].msgs| < r.cap)
            && (ret == -2 <==> |m| > IPC_MSG_ELEMENT_SIZE)
            && (ret == -3 <==> |m| <= IPC_MSG_ELEMENT_SIZE && !ValidId(r, id))
            && (ret == -4 <==> |m| <= IPC_MSG_ELEMENT_SIZE && ValidId(r, id) && |r.queues[id].msgs| >= r.cap)
            && (ret != 0 ==> r' == r)
            && r'.tokens == r.tokens
            && (forall i :: ValidId(r', i) <==> ValidId(r, i))
            && (forall i :: 0 <= i < |r.queues| ==> r'.queues[i].key == r.queues[i].key)
            && (ret == 0 ==>
                  var k := r.queues[id].key;
                  k in AsMap(r) && AsMap(r') == AsMap(r)[k := AsMap(r)[k] + [m]])
  {
    var (r', ret) := Post(r, id, m);
    if ret == 0 {
      var q := r.queues[id];
      assert ValidQueue(q, r.cap);
      RewriteMsgs(r, r', id, q.msgs + [m]);
    }
  }

  /** `dequeue` takes the head of the queue of one key, or finds it empty. */
  lemma DequeueRefines(r: Tables, id: int)
    requires WellFormed(r) && ValidId(r, id)
    ensures var (r', out) := Dequeue(r, id);
            var k := r.queues[id].key;
            && WellFormed(r')
            && r'.tokens == r.tokens
            && k in AsMap(r)
            && (forall i :: ValidId(r', i) <==> ValidId(r, i))
            && (forall i :: 0 <= i < |r.queues| ==> r'.queues[i].key == r.queues[i].key)
            && (out == None <==> AsMap(r)[k] == [])
            && (out == None ==> r' == r)
            && (out != None ==> AsMap(r)[k][0] == out.value && AsMap(r') == AsMap(r)[k := AsMap(r)[k][1..]])
  {
    var (r', out) := Dequeue(r, id);
    var q := r.queues[id];
    EntryInMap(r, id);
    if out != None {
      assert ValidQueue(q, r.cap);
      assert forall m :: m in q.msgs[1..] ==> m in q.msgs;
      RewriteMsgs(r, r', id, q.msgs[1..]);
    }
  }

  // ---------- Tokens ----------

  ghost predicate HasToken(r: Tables, key: UInt32) {
    exists j :: 0 <= j < |r.tokens| && TokenKey(r.tokens, j) == key
  }

  /** A row that ends its own string is read no further; any other runs on into the next. */
  lemma StringStep(tokens: seq<Row>, j: nat)
    requires j < |tokens|
    ensures StringFrom(tokens, j) == if 0 in tokens[j] then CStr(tokens[j]) else tokens[j] + StringFrom(tokens, j + 1)
  {
    var rest := Flat(tokens, j + 1);
    CStrAppend(tokens[j], rest);
  }

  lemma CStrAppend(a: seq<CChar>, b: seq<CChar>)
    ensures CStr(a + b) == if 0 in a then CStr(a) else a + CStr(b)
  {
    if 0 in a {
      CStrWithin(a, b);
    } else {
      CStrBeyond(a, b);
    }
  }

  lemma CStrWithin(a: seq<CChar>, b: seq<CChar>)
    requires 0 in a
    ensures CStr(a + b) == CStr(a)
  {
    var i := FirstIndex(a, (c: CChar) => c == 0);
    assert i < |a|;
    CStrEnds(a + b, i);
    assert (a + b)[..i] == a[..i];
  }

  lemma CStrBeyond(a: seq<CChar>, b: seq<CChar>)
    requires 0 !in a
    ensures CStr(a + b) == a + CStr(b)
  {
    var f := FirstIndex(b, (c: CChar) => c == 0);
    assert forall k :: 0 <= k < |a| ==> a[k] in a;
    CStrEnds(a + b, |a| + f);
    assert (a + b)[..|a| + f] == a + b[..f];
  }

  /** Where a string ends. */
  lemma CStrEnds(s: seq<CChar>, e: nat)
    requires e <= |s| && (forall k :: 0 <= k < e ==> s[k] != 0) && (e < |s| ==> s[e] == 0)
    ensures CStr(s) == s[..e]
  {
    var i := FirstIndex(s, (c: CChar) => c == 0);
    assert i >= e;
    assert i <= e;
  }

  /** Strings depend only on the rows from their own on. */
  lemma {:induction false} FlatTail(a: seq<Row>, b: seq<Row>, j: nat)
    requires j <= |a| == |b| && forall i :: j <= i < |a| ==> a[i] == b[i]
    ensures Flat(a, j) == Flat(b, j)
    decreases |a| - j
  {
    if j < |a| {
      FlatTail(a, b, j + 1);
    }
  }

  lemma EmptyRowKey(tokens: seq<Row>, j: nat)
    requires j < |tokens| && tokens[j][0] == 0
    ensures TokenKey(tokens, j) == 0
  {
    StringStep(tokens, j);
    CStrEnds(tokens[j], 0);
  }

  /** Replacing row `j` leaves the key of every other row that ends its own string. */
  lemma OtherRowKey(a: seq<Row>, b: seq<Row>, j: nat, i: nat)
    requires j < |a| == |b| && b == a[j := b[j]] && i < |a| && i != j && 0 in a[i]
    ensures TokenKey(b, i) == TokenKey(a, i)
  {
    StringStep(a, i);
    StringStep(b, i);
  }

  /** With all other rows ending their own strings, replacing row `j` matters only to the key it had and the key it gets. */
  lemma ReplaceRow(r: Tables, r': Tables, j: nat)
    requires j < |r.tokens| && |r'.tokens| == |r.tokens| && r'.tokens == r.tokens[j := r'.tokens[j]]
    requires forall i :: 0 <= i < |r.tokens| && i != j ==> 0 in r.tokens[i]
    ensures forall k: UInt32 :: k != TokenKey(r.tokens, j) && k != TokenKey(r'.tokens, j) ==>
              (HasToken(r', k) <==> HasToken(r, k))
  {
    forall k: UInt32 | k != TokenKey(r.tokens, j) && k != TokenKey(r'.tokens, j)
      ensures HasToken(r', k) <==> HasToken(r, k)
    {
      if HasToken(r, k) {
        var i :| 0 <= i < |r.tokens| && TokenKey(r.tokens, i) == k;
        OtherRowKey(r.tokens, r'.tokens, j, i);
      }
      if HasToken(r', k) {
        var i :| 0 <= i < |r'.tokens| && TokenKey(r'.tokens, i) == k;
        OtherRowKey(r.tokens, r'.tokens, j, i);
      }
    }
  }

  /** The table with a name copied into row `j`. */
  function Stored(tokens: seq<Row>, j: nat, path: CString): seq<Row>
    requires j < |tokens|
  {
    tokens[j := StrNCpy(tokens[j], path)]
  }

  /** Byte by byte: the first 32 are the name padded with NULs, and the last is what it was. */
  lemma StrNCpyBytes(row: Row, path: CString, i: nat)
    requires i < |row|
    ensures StrNCpy(row, path)[i]
         == if i == IPC_MSG_QUEUE_TOKEN_STR_MAXLEN then row[i] else if i < |path| then path[i] else 0
  {
  }

  /** The copy ends in its own row exactly for a name below 32 characters, or before a NUL in the last byte. */
  lemma CopyEnds(row: Row, path: CString)
    ensures 0 in StrNCpy(row, path) <==> |path| < IPC_MSG_QUEUE_TOKEN_STR_MAXLEN || row[IPC_MSG_QUEUE_TOKEN_STR_MAXLEN] == 0
  {
    var n := IPC_MSG_QUEUE_TOKEN_STR_MAXLEN;
    var copy := StrNCpy(row, path);
    if |path| < n {
      assert copy[|path|] == 0;
    } else {
      assert copy[n] == row[n];
      assert forall i :: 0 <= i < n ==> copy[i] == path[i] && path[i] in path;
    }
  }

  /** What a copied name is read as in its row. */
  lemma StoredRow(row: Row, path: CString)
    ensures |path| < IPC_MSG_QUEUE_TOKEN_STR_MAXLEN ==> CStr(StrNCpy(row, path)) == path
    ensures var n := IPC_MSG_QUEUE_TOKEN_STR_MAXLEN;
            |path| >= n ==> CStr(StrNCpy(row, path)) == path[..n] + (if row[n] == 0 then [] else [row[n]])
  {
    var n := IPC_MSG_QUEUE_TOKEN_STR_MAXLEN;
    var copy := StrNCpy(row, path);
    assert forall i :: 0 <= i < |path| && i < n ==> copy[i] == path[i] && path[i] in path;
    if |path| < n {
      CStrEnds(copy, |path|);
      assert copy[..|path|] == path;
    } else if row[n] == 0 {
      CStrEnds(copy, n);
      assert copy[..n] == path[..n];
    } else {
      CStrEnds(copy, n + 1);
      assert copy[..n + 1] == path[..n] + [row[n]];
    }
  }

  /**
   * A name below 32 characters is stored whole. Of a longer one the row holds 32 characters; unless the
   * byte behind them, which is never written, is NUL, the string goes on with that byte and the rows
   * that follow, and hashes to the key of the name exactly when the rest of the name moves the hash to
   * where they do.
   */
  lemma StoredKey(tokens: seq<Row>, j: nat, path: CString)
    requires j < |tokens|
    ensures |path| < IPC_MSG_QUEUE_TOKEN_STR_MAXLEN ==> StringFrom(Stored(tokens, j, path), j) == path
    ensures var n := IPC_MSG_QUEUE_TOKEN_STR_MAXLEN;
            |path| >= n ==>
              var last := tokens[j][n];
              var behind := if last == 0 then [] else [last] + StringFrom(tokens, j + 1);
              && StringFrom(Stored(tokens, j, path), j) == path[..n] + behind
              && (TokenKey(Stored(tokens, j, path), j) == Hash(path)
                  <==> HashFrom(Hash(path[..n]), path[n..]) == HashFrom(Hash(path[..n]), behind))
  {
    var n := IPC_MSG_QUEUE_TOKEN_STR_MAXLEN;
    var stored := Stored(tokens, j, path);
    CopyEnds(tokens[j], path);
    StoredRow(tokens[j], path);
    StringStep(stored, j);
    FlatTail(stored, tokens, j + 1);
    if |path| >= n {
      var last := tokens[j][n];
      var behind := if last == 0 then [] else [last] + StringFrom(tokens, j + 1);
      if last != 0 {
        assert StrNCpy(tokens[j], path) == path[..n] + [last];
        assert path[..n] + [last] + StringFrom(tokens, j + 1) == path[..n] + behind;
      }
      assert path == path[..n] + path[n..];
      HashFromAppend(0, path[..n], path[n..]);
      HashFromAppend(0, path[..n], behind);
    }
  }

  /** A row as it comes from fresh memory: cleared by init, but for the last byte. */
  function FreshRow(last: CChar): Row {
    seq(IPC_MSG_QUEUE_TOKEN_STR_MAXLEN, _ => 0) + [last]
  }

  /** A long name copied into a row that does not end in NUL, before an empty one. */
  lemma StoredBeforeEmpty(tokens: seq<Row>, j: nat, last: CChar, path: CString)
    requires j < |tokens| && tokens[j][IPC_MSG_QUEUE_TOKEN_STR_MAXLEN] == last && last != 0
    requires |path| >= IPC_MSG_QUEUE_TOKEN_STR_MAXLEN
    requires j + 1 < |tokens| ==> tokens[j + 1][0] == 0
    ensures StringFrom(Stored(tokens, j, path), j) == path[..IPC_MSG_QUEUE_TOKEN_STR_MAXLEN] + [last]
    ensures TokenKey(Stored(tokens, j, path), j) == Step(Hash(path[..IPC_MSG_QUEUE_TOKEN_STR_MAXLEN]), last)
  {
    StoredKey(tokens, j, path);
    if j + 1 < |tokens| {
      StringStep(tokens, j + 1);
      CStrEnds(tokens[j + 1], 0);
    }
    assert StringFrom(tokens, j + 1) == [];
    assert [last] + [] == [last];
    HashOneMore(path[..IPC_MSG_QUEUE_TOKEN_STR_MAXLEN], last);
  }

  lemma HashOneMore(p: seq<CChar>, c: CChar)
    ensures Hash(p + [c]) == Step(Hash(p), c)
  {
    HashTwoMore(p, c, c);
  }

  /** Two values of the never written byte tell a long name's copies apart. */
  lemma LastByteMatters(path: CString)
    requires |path| >= IPC_MSG_QUEUE_TOKEN_STR_MAXLEN
    ensures Step(Hash(path[..IPC_MSG_QUEUE_TOKEN_STR_MAXLEN]), 1) != Hash(path)
         || Step(Hash(path[..IPC_MSG_QUEUE_TOKEN_STR_MAXLEN]), 2) != Hash(path)
  {
    StepSeparates(Hash(path[..IPC_MSG_QUEUE_TOKEN_STR_MAXLEN]), 1, 2);
  }

  /** A name is stored under its own key, whatever the memory holds, exactly when it has fewer than 32 characters. */
  lemma ShortNamesAreSafe(path: CString)
    ensures (forall tokens: seq<Row>, j: nat :: j < |tokens| ==> TokenKey(Stored(tokens, j, path), j) == Hash(path))
       <==> |path| < IPC_MSG_QUEUE_TOKEN_STR_MAXLEN
  {
    if |path| < IPC_MSG_QUEUE_TOKEN_STR_MAXLEN {
      forall tokens: seq<Row>, j: nat | j < |tokens| ensures TokenKey(Stored(tokens, j, path), j) == Hash(path) {
        StoredKey(tokens, j, path);
      }
    } else {
      LastByteMatters(path);
      StoredBeforeEmpty([FreshRow(1)], 0, 1, path);
      StoredBeforeEmpty([FreshRow(2)], 0, 2, path);
      assert TokenKey(Stored([FreshRow(1)], 0, path), 0) != Hash(path)
          || TokenKey(Stored([FreshRow(2)], 0, path), 0) != Hash(path);
    }
  }

  /** Whoever stores a short name finds its token. */
  lemma ShortNameHasToken(r: Tables, path: CString)
    requires |path| < IPC_MSG_QUEUE_TOKEN_STR_MAXLEN && FirstEmptyRow(r.tokens) < |r.tokens|
    ensures HasToken(Ftok(r, path), Hash(path))
  {
    var j := FirstEmptyRow(r.tokens);
    StoredKey(r.tokens, j, path);
    assert TokenKey(Ftok(r, path).tokens, j) == Hash(path);
  }

  /**
   * While every row ends its own string, `ftok` disturbs no stored token, and leaves one for the key it
   * returns exactly when one was there already, or when a row was empty and what is read from there
   * hashes to that key.
   */
  lemma FtokTokens(r: Tables, path: CString)
    requires Terminated(r.tokens)
    ensures var r' := Ftok(r, path);
            var j := FirstEmptyRow(r.tokens);
            && r'.queues == r.queues && r'.cap == r.cap
            && (forall k: UInt32 :: k != 0 && HasToken(r, k) ==> HasToken(r', k))
            && (Hash(path) != 0 ==>
                  (HasToken(r', Hash(path)) <==>
                     || HasToken(r, Hash(path))
                     || (j < |r.tokens| && TokenKey(r'.tokens, j) == Hash(path))))
  {
    var r' := Ftok(r, path);
    var j := FirstEmptyRow(r.tokens);
    if j < |r.tokens| {
      EmptyRowKey(r.tokens, j);
      ReplaceRow(r, r', j);
    }
  }

  // ---------- Every run keeps a token for every queue ----------

  /** Every live queue with a nonzero key has a stored token that hashes to its key. */
  ghost predicate TokensCover(r: Tables) {
    forall i :: ValidId(r, i) && r.queues[i].key != 0 ==> HasToken(r, r.queues[i].key)
  }

  datatype Op =
    | FtokOp(path: CString)
    | GetOp(key: int)
    | RelOp(id: int)
    | PostOp(id: int, m: Msg)
    | DequeueOp(id: int)

  function Apply(r: Tables, op: Op): Tables {
    match op
    case FtokOp(path) => Ftok(r, path)
    case GetOp(key) => Get(r, key).0
    case RelOp(id) => Rel(r, id).0
    case PostOp(id, m) => Post(r, id, m).0
    case DequeueOp(id) => if 0 <= id < |r.queues| && r.queues[id].live then Dequeue(r, id).0 else r
  }

  function Run(r: Tables, ops: seq<Op>): Tables
    decreases |ops|
  {
    if ops == [] then r else Run(Apply(r, ops[0]), ops[1..])
  }

  lemma RunThree(r: Tables, a: Op, b: Op, c: Op)
    ensures Run(r, [a, b, c]) == Apply(Apply(Apply(r, a), b), c)
  {
    var r1 := Apply(r, a);
    var r2 := Apply(r1, b);
    assert [a, b, c][1..] == [b, c] && [b, c][1..] == [c] && [c][1..] == [];
    assert Run(r2, [c]) == Run(Apply(r2, c), []);
    assert Run(r1, [b, c]) == Run(r2, [c]);
    assert Run(r, [a, b, c]) == Run(r1, [b, c]);
  }

  /** A name is only stored where its copy ends: it is short, or the last byte of the row happens to be NUL. */
  ghost predicate Tidy(r: Tables, op: Op) {
    op.FtokOp? ==>
      var j := FirstEmptyRow(r.tokens);
      j < |r.tokens| ==> |op.path| < IPC_MSG_QUEUE_TOKEN_STR_MAXLEN || r.tokens[j][IPC_MSG_QUEUE_TOKEN_STR_MAXLEN] == 0
  }

  /** Init clears the first byte of every row, so every row ends its own string. */
  lemma ClearedRowsEnd(memory: seq<Row>, tokens: seq<Row>)
    requires |tokens| == |memory| && forall i :: 0 <= i < |memory| ==> tokens[i] == memory[i][0 := 0]
    ensures Terminated(tokens)
  {
    forall i | 0 <= i < |tokens| ensures 0 in tokens[i] { assert tokens[i][0] == 0; }
  }

  /** That rule is exactly what keeps every row ending its own string. */
  lemma TidyKeepsTerminated(r: Tables, op: Op)
    requires Terminated(r.tokens)
    ensures Terminated(Apply(r, op).tokens) <==> Tidy(r, op)
  {
    var r' := Apply(r, op);
    match op
    case FtokOp(path) =>
      var j := FirstEmptyRow(r.tokens);
      if j < |r.tokens| {
        CopyEnds(r.tokens[j], path);
        assert r'.tokens[j] == StrNCpy(r.tokens[j], path);
      }
    case RelOp(id) =>
      if Rel(r, id).1 == 0 {
        assert r'.tokens[FirstRowOf(r.tokens, r.queues[id].key)][0] == 0;
      }
    case _ =>
  }

  /** The rules for callers: names are stored where they end, and a key passed to `get` is that of a stored name. */
  ghost predicate Disciplined(r: Tables, op: Op) {
    Tidy(r, op) && (op.GetOp? ==> HasToken(r, ToUInt32(op.key)))
  }

  ghost predicate DisciplinedRun(r: Tables, ops: seq<Op>)
    decreases |ops|
  {
    ops != [] ==> Disciplined(r, ops[0]) && DisciplinedRun(Apply(r, ops[0]), ops[1..])
  }

  lemma FtokKeeps(r: Tables, path: CString)
    requires WellFormed(r)
    ensures WellFormed(Ftok(r, path))
  {
    assert forall i :: ValidId(Ftok(r, path), i) <==> ValidId(r, i);
  }

  lemma GetKeeps(r: Tables, key: int)
    requires WellFormed(r)
    ensures WellFormed(Get(r, key).0)
  {
    GetRefines(r, key);
  }

  lemma RelKeeps(r: Tables, id: int)
    requires WellFormed(r)
    ensures WellFormed(Rel(r, id).0)
  {
    RelRefines(r, id);
  }

  lemma PostKeeps(r: Tables, id: int, m: Msg)
    requires WellFormed(r)
    ensures WellFormed(Post(r, id, m).0)
  {
    PostRefines(r, id, m);
  }

  lemma DequeueKeeps(r: Tables, id: int)
    requires WellFormed(r) && ValidId(r, id)
    ensures WellFormed(Dequeue(r, id).0)
  {
    DequeueRefines(r, id);
  }

  lemma ApplyKeepsWellFormed(r: Tables, op: Op)
    requires WellFormed(r)
    ensures WellFormed(Apply(r, op))
    ensures |Apply(r, op).queues| == |r.queues| && Apply(r, op).cap == r.cap
  {
    match op
    case FtokOp(path) => FtokKeeps(r, path);
    case GetOp(key) => GetKeeps(r, key);
    case RelOp(id) => RelKeeps(r, id);
    case PostOp(id, m) => PostKeeps(r, id, m);
    case DequeueOp(id) => if ValidId(r, id) { DequeueKeeps(r, id); }
  }

  /** No new live queue, and no token lost that one of them needs. */
  lemma CoverStays(r: Tables, r': Tables)
    requires TokensCover(r)
    requires forall i :: ValidId(r', i) ==> ValidId(r, i) && r'.queues[i].key == r.queues[i].key
    requires forall i :: ValidId(r', i) && r.queues[i].key != 0 && HasToken(r, r.queues[i].key) ==> HasToken(r', r.queues[i].key)
    ensures TokensCover(r')
  {
  }

  lemma GetKeepsCover(r: Tables, key: int)
    requires TokensCover(r) && HasToken(r, ToUInt32(key))
    ensures TokensCover(Get(r, key).0)
  {
    var r' := Get(r, key).0;
    assert forall k: UInt32 :: HasToken(r', k) <==> HasToken(r, k);
    forall i | ValidId(r', i) && r'.queues[i].key != 0 ensures HasToken(r', r'.queues[i].key) {
      if i != Get(r, key).1 { assert ValidId(r, i) && r'.queues[i] == r.queues[i]; }
    }
  }

  lemma RelKeepsCover(r: Tables, id: int)
    requires WellFormed(r) && Terminated(r.tokens) && TokensCover(r)
    ensures TokensCover(Rel(r, id).0)
  {
    RelRefines(r, id);
    var r' := Rel(r, id).0;
    if Rel(r, id).1 == 0 {
      forall i | ValidId(r', i) ensures ValidId(r, i) && r'.queues[i] == r.queues[i] && r.queues[i].key != r.queues[id].key {
        assert i != id && ValidId(r, i);
      }
      CoverStays(r, r');
    }
  }

  /** Keys and live entries change only where `get` hands out an entry. */
  lemma ApplyKeys(r: Tables, op: Op)
    ensures |Apply(r, op).queues| == |r.queues|
    ensures forall i :: 0 <= i < |r.queues| ==>
              || (Apply(r, op).queues[i].key == r.queues[i].key && (Apply(r, op).queues[i].live ==> r.queues[i].live))
              || (op.GetOp? && Apply(r, op).queues[i].key == ToUInt32(op.key))
  {
  }

  lemma ApplyKeepsTokens(r: Tables, op: Op)
    requires WellFormed(r) && Terminated(r.tokens) && TokensCover(r) && Disciplined(r, op)
    ensures Terminated(Apply(r, op).tokens) && TokensCover(Apply(r, op))
  {
    TidyKeepsTerminated(r, op);
    match op
    case FtokOp(path) => FtokTokens(r, path); CoverStays(r, Ftok(r, path));
    case GetOp(key) => GetKeepsCover(r, key);
    case RelOp(id) => RelKeepsCover(r, id);
    case PostOp(id, m) => PostRefines(r, id, m); CoverStays(r, Post(r, id, m).0);
    case DequeueOp(id) => if ValidId(r, id) { DequeueRefines(r, id); CoverStays(r, Dequeue(r, id).0); }
  }

  /**
   * Over every disciplined run: the tables stay well formed, every live queue with a nonzero key can
   * be released, and no two such queues rely on the same row.
   */
  lemma {:induction false} RunKeepsTokens(r: Tables, ops: seq<Op>)
    requires WellFormed(r) && Terminated(r.tokens) && TokensCover(r) && DisciplinedRun(r, ops)
    ensures var s := Run(r, ops);
            && WellFormed(s) && Terminated(s.tokens) && TokensCover(s)
            && (forall id :: ValidId(s, id) && s.queues[id].key != 0 ==> Rel(s, id).1 == 0)
            && (forall i, j :: ValidId(s, i) && ValidId(s, j) && i != j && s.queues[i].key != 0 ==>
                  FirstRowOf(s.tokens, s.queues[i].key) != FirstRowOf(s.tokens, s.queues[j].key))
    decreases |ops|
  {
    if ops == [] {
      forall id | ValidId(r, id) && r.queues[id].key != 0 ensures Rel(r, id).1 == 0 {
        RelRefines(r, id);
      }
    } else {
      ApplyKeepsWellFormed(r, ops[0]);
      ApplyKeepsTokens(r, ops[0]);
      RunKeepsTokens(Apply(r, ops[0]), ops[1..]);
    }
  }

  // ---------- Queues without a token ----------

  /** The id can be released: it is live and a token hashes to its key. */
  ghost predicate Releasable(r: Tables, id: int) {
    ValidId(r, id) && HasToken(r, r.queues[id].key)
  }

  lemma RelSucceeds(r: Tables, id: int)
    ensures Rel(r, id).1 == 0 <==> Releasable(r, id)
    ensures Rel(r, id).1 == -2 <==> ValidId(r, id) && !Releasable(r, id)
    ensures Rel(r, id).1 != 0 ==> Rel(r, id).0 == r
  {
    if ValidId(r, id) {
      var j := FirstRowOf(r.tokens, r.queues[id].key);
      assert j < |r.tokens| ==> TokenKey(r.tokens, j) == r.queues[id].key;
    }
  }

  /** The step stores a token for `key`: what is read from the filled row hashes to it, or, for key 0, a release empties a row. */
  ghost predicate GivesToken(r: Tables, op: Op, key: UInt32) {
    match op
    case FtokOp(path) =>
      var j := FirstEmptyRow(r.tokens);
      j < |r.tokens| && TokenKey(Stored(r.tokens, j, path), j) == key
    case RelOp(id) => key == 0 && Releasable(r, id)
    case _ => false
  }

  lemma TokenAppears(r: Tables, op: Op, key: UInt32)
    requires Terminated(r.tokens) && !HasToken(r, key)
    ensures HasToken(Apply(r, op), key) <==> GivesToken(r, op, key)
  {
    var r' := Apply(r, op);
    match op
    case FtokOp(path) =>
      var j := FirstEmptyRow(r.tokens);
      if j < |r.tokens| {
        EmptyRowKey(r.tokens, j);
        ReplaceRow(r, r', j);
      }
    case RelOp(id) =>
      RelSucceeds(r, id);
      if Releasable(r, id) {
        var j := FirstRowOf(r.tokens, r.queues[id].key);
        assert TokenKey(r.tokens, j) == r.queues[id].key;
        EmptyRowKey(r'.tokens, j);
        ReplaceRow(r, r', j);
      }
    case _ =>
  }

  /** A live queue without a token stays live under its key through any step. */
  lemma UntokenedStep(r: Tables, op: Op, id: int)
    requires ValidId(r, id) && !HasToken(r, r.queues[id].key)
    ensures ValidId(Apply(r, op), id) && Apply(r, op).queues[id].key == r.queues[id].key
  {
    match op
    case RelOp(other) => RelSucceeds(r, other);
    case _ =>
  }

  /** Every step stores names where they end, and none stores a token for `key`. */
  ghost predicate NoTokenGiven(r: Tables, ops: seq<Op>, key: UInt32)
    decreases |ops|
  {
    ops != [] ==> Tidy(r, ops[0]) && !GivesToken(r, ops[0], key) && NoTokenGiven(Apply(r, ops[0]), ops[1..], key)
  }

  /**
   * A queue created without a stored name outlives every run that stores no token for its key, and
   * every release of it fails meanwhile; after one more step it can be released exactly when that
   * step stores one.
   */
  lemma {:induction false} UntokenedQueueStays(r: Tables, ops: seq<Op>, id: int, op: Op)
    requires ValidId(r, id) && Terminated(r.tokens) && !HasToken(r, r.queues[id].key)
    requires NoTokenGiven(r, ops, r.queues[id].key)
    ensures var s := Run(r, ops);
            && ValidId(s, id) && s.queues[id].key == r.queues[id].key
            && Rel(s, id) == (s, -2)
            && (Rel(Apply(s, op), id).1 == 0 <==> GivesToken(s, op, r.queues[id].key))
    decreases |ops|
  {
    if ops == [] {
      RelSucceeds(r, id);
      UntokenedStep(r, op, id);
      TokenAppears(r, op, r.queues[id].key);
      RelSucceeds(Apply(r, op), id);
    } else {
      UntokenedStep(r, ops[0], id);
      TokenAppears(r, ops[0], r.queues[id].key);
      TidyKeepsTerminated(r, ops[0]);
      UntokenedQueueStays(Apply(r, ops[0]), ops[1..], id, op);
    }
  }

  /** The tables after init, with the last byte of every token row as the memory had it. */
  function FreshTables(cap: nat, n: nat, last: CChar): Tables {
    Tables(cap, seq(n, _ => Queue(false, 0, [])), seq(n, _ => FreshRow(last)))
  }

  lemma FreshIsEmpty(cap: nat, n: nat, last: CChar, key: UInt32)
    ensures var r := FreshTables(cap, n, last);
            && WellFormed(r) && AsMap(r) == map[] && Terminated(r.tokens)
            && FirstEmptyRow(r.tokens) == 0 == FirstFree(r.queues)
            && (key != 0 ==> !HasToken(r, key))
  {
    var r := FreshTables(cap, n, last);
    forall j | 0 <= j < n ensures 0 in r.tokens[j] && TokenKey(r.tokens, j) == 0 {
      assert r.tokens[j][0] == 0;
      EmptyRowKey(r.tokens, j);
    }
  }

  /** Creating a queue on fresh tables after storing a name. */
  lemma GetAfterFtok(cap: nat, n: nat, last: CChar, path: CString, key: UInt16)
    requires n > 0
    ensures var r1 := Ftok(FreshTables(cap, n, last), path);
            var (r2, id) := Get(r1, key);
            && r1.tokens == Stored(FreshTables(cap, n, last).tokens, 0, path)
            && id == 0 && ValidId(r2, 0) && r2.queues[0].key == key && r2.tokens == r1.tokens && WellFormed(r2)
  {
    var r := FreshTables(cap, n, last);
    FreshIsEmpty(cap, n, last, key);
    var r1 := Ftok(r, path);
    FtokKeeps(r, path);
    SameQueuesSameMap(r, r1);
    GetPlaces(r1, key);
    GetKeeps(r1, key);
  }

  /** If the copy of a name hashes to another key, the queue of that name can be created but not released. */
  lemma MisstoredNameLeaks(cap: nat, n: nat, last: CChar, path: CString)
    requires n > 1 && last != 0 && |path| >= IPC_MSG_QUEUE_TOKEN_STR_MAXLEN && Hash(path) != 0
    requires Step(Hash(path[..IPC_MSG_QUEUE_TOKEN_STR_MAXLEN]), last) != Hash(path)
    ensures var r1 := Ftok(FreshTables(cap, n, last), path);
            var (r2, id) := Get(r1, Hash(path));
            id == 0 && ValidId(r2, 0) && r2.queues[0].key == Hash(path) && Rel(r2, 0) == (r2, -2)
  {
    var r, key := FreshTables(cap, n, last), Hash(path);
    var r1 := Ftok(r, path);
    FreshIsEmpty(cap, n, last, key);
    TokenAppears(r, FtokOp(path), key);
    StoredBeforeEmpty(r.tokens, 0, last, path);
    GetAfterFtok(cap, n, last, path, key);
    var r2 := Get(r1, key).0;
    assert HasToken(r2, key) <==> HasToken(r1, key);
    RelSucceeds(r2, 0);
  }

  /** So every longer name with a nonzero key can end in a queue that cannot be released. */
  lemma LongNameLeaks(cap: nat, n: nat, path: CString) returns (last: CChar)
    requires n > 1 && |path| >= IPC_MSG_QUEUE_TOKEN_STR_MAXLEN && Hash(path) != 0
    ensures var r1 := Ftok(FreshTables(cap, n, last), path);
            var (r2, id) := Get(r1, Hash(path));
            id == 0 && ValidId(r2, 0) && Rel(r2, 0) == (r2, -2)
  {
    LastByteMatters(path);
    last := if Step(Hash(path[..IPC_MSG_QUEUE_TOKEN_STR_MAXLEN]), 1) != Hash(path) then 1 else 2;
    MisstoredNameLeaks(cap, n, last, path);
  }

  /** A "b" and thirty-one times "1", the longest name the library passes on; its key is 98. */
  function LongName(): (path: CString)
    ensures |path| == IPC_MSG_QUEUE_TOKEN_STR_MAXLEN
  {
    [98] + seq(IPC_MSG_QUEUE_TOKEN_STR_MAXLEN - 1, _ => 49)
  }

  lemma LongNameKey()
    ensures Hash(LongName()) == 98 && LongName()[..IPC_MSG_QUEUE_TOKEN_STR_MAXLEN] == LongName()
  {
    RepeatCollision(49, IPC_MSG_QUEUE_TOKEN_STR_MAXLEN - 1);
  }

  lemma ExampleKeys()
    ensures Step(98, 1) == 50 && Step(50, 122) == 147 && Hash([122]) == 122
  {
    HashOneMore([], 122);
    assert [] + [122] == [122];
  }

  lemma MisstoredKey(path: CString)
    requires |path| == IPC_MSG_QUEUE_TOKEN_STR_MAXLEN && Hash(path) == 98 && Step(98, 1) == 50
    ensures Step(Hash(path[..IPC_MSG_QUEUE_TOKEN_STR_MAXLEN]), 1) != Hash(path)
  {
    assert path[..IPC_MSG_QUEUE_TOKEN_STR_MAXLEN] == path;
  }

  /** Its copy hashes to another key when a 1 follows it. */
  lemma LongNameMisstored()
    ensures Hash(LongName()) == 98 && Step(Hash(LongName()[..IPC_MSG_QUEUE_TOKEN_STR_MAXLEN]), 1) != Hash(LongName())
  {
    LongNameKey();
    ExampleKeys();
    MisstoredKey(LongName());
  }

  /** One such name. */
  lemma LongNameExample()
    ensures var r1 := Ftok(FreshTables(IPC_MSG_ELEMENT_NUM, IPC_MSG_QUEUE_NUM, 1), LongName());
            var (r2, id) := Get(r1, Hash(LongName()));
            id == 0 && Rel(r2, 0) == (r2, -2)
  {
    LongNameMisstored();
    MisstoredNameLeaks(IPC_MSG_ELEMENT_NUM, IPC_MSG_QUEUE_NUM, 1, LongName());
  }

  /**
   * Why names must be stored where they end. A queue is created under the key read from a row that runs
   * on, and could be released at once; but the next name stored, in the row behind, changes what is read
   * there, and then the release fails unless the longer string, or the new name, happens to have that key.
   */
  lemma NextNameTakesToken(cap: nat, n: nat, last: CChar, path: CString, c: CChar)
    requires n > 1 && last != 0 && c != 0 && |path| >= IPC_MSG_QUEUE_TOKEN_STR_MAXLEN
    requires Step(Hash(path[..IPC_MSG_QUEUE_TOKEN_STR_MAXLEN]), last) != 0
    ensures var key := Step(Hash(path[..IPC_MSG_QUEUE_TOKEN_STR_MAXLEN]), last);
            var r1 := Ftok(FreshTables(cap, n, last), path);
            var r2 := Get(r1, key).0;
            var r3 := Ftok(r2, [c]);
            && Disciplined(r1, GetOp(key)) && Releasable(r2, 0)
            && (Rel(r3, 0).1 == 0 <==> Step(key, c) == key || Hash([c]) == key)
            && (Rel(r3, 0).1 == 0 || Rel(r3, 0).1 == -2)
  {
    var key := Step(Hash(path[..IPC_MSG_QUEUE_TOKEN_STR_MAXLEN]), last);
    var r := FreshTables(cap, n, last);
    var r1 := Ftok(r, path);
    var r2 := Get(r1, key).0;
    var r3 := Ftok(r2, [c]);
    GetAfterFtok(cap, n, last, path, key);
    StoredBeforeEmpty(r.tokens, 0, last, path);
    assert TokenKey(r1.tokens, 0) == key && ToUInt32(key) == key;
    RowsAfterTwoNames(r, last, path, c);
    assert FirstEmptyRow(r2.tokens) == 1;
    RelSucceeds(r3, 0);
    if HasToken(r3, key) {
      var i :| 0 <= i < |r3.tokens| && TokenKey(r3.tokens, i) == key;
      assert i <= 1;
    }
  }

  /** What the rows show after a long name and a one-letter name behind it. */
  lemma RowsAfterTwoNames(r: Tables, last: CChar, path: CString, c: CChar)
    requires last != 0 && c != 0 && |path| >= IPC_MSG_QUEUE_TOKEN_STR_MAXLEN && |r.tokens| > 1
    requires forall i :: 0 <= i < |r.tokens| ==> r.tokens[i] == FreshRow(last)
    ensures var one := Stored(r.tokens, 0, path);
            var two := Stored(one, 1, [c]);
            && FirstEmptyRow(one) == 1
            && TokenKey(two, 0) == Step(Step(Hash(path[..IPC_MSG_QUEUE_TOKEN_STR_MAXLEN]), last), c)
            && TokenKey(two, 1) == Hash([c])
            && forall i :: 1 < i < |two| ==> TokenKey(two, i) == 0
  {
    var n := IPC_MSG_QUEUE_TOKEN_STR_MAXLEN;
    var one := Stored(r.tokens, 0, path);
    var two := Stored(one, 1, [c]);
    assert one[0][0] == path[0] && path[0] in path;
    assert one[1][0] == 0;
    StoredKey(one, 1, [c]);
    CopyEnds(r.tokens[0], path);
    assert two[0] == path[..n] + [last] && 0 !in two[0];
    StringStep(two, 0);
    assert path[..n] + [last] + [c] == path[..n] + [last, c];
    HashTwoMore(path[..n], last, c);
    forall i | 1 < i < |two| ensures TokenKey(two, i) == 0 { EmptyRowKey(two, i); }
  }

  /** For instance with that 32-character name, the byte 1 behind it, and then the name "z". */
  lemma NextNameExample()
    ensures var r1 := Ftok(FreshTables(IPC_MSG_ELEMENT_NUM, IPC_MSG_QUEUE_NUM, 1), LongName());
            var r2 := Get(r1, 50).0;
            Rel(r2, 0).1 == 0 && Rel(Ftok(r2, [122]), 0).1 == -2
  {
    LongNameKey();
    ExampleKeys();
    NextNameTakesToken(IPC_MSG_ELEMENT_NUM, IPC_MSG_QUEUE_NUM, 1, LongName(), 122);
    RelSucceeds(Get(Ftok(FreshTables(IPC_MSG_ELEMENT_NUM, IPC_MSG_QUEUE_NUM, 1), LongName()), 50).0, 0);
  }

  /**
   * The life of a named queue: store a short name, create the queue, release it. The release succeeds
   * and the map is what it was, provided the key is new and nonzero and both tables have a place.
   */
  lemma NamedQueueComesAndGoes(r: Tables, path: CString)
    requires WellFormed(r) && |path| < IPC_MSG_QUEUE_TOKEN_STR_MAXLEN
    requires Hash(path) != 0 && Hash(path) !in AsMap(r)
    requires FirstEmptyRow(r.tokens) < |r.tokens| && FirstFree(r.queues) < |r.queues|
    ensures var r1 := Ftok(r, path);
            var (r2, id) := Get(r1, Hash(path));
            var (r3, ret) := Rel(r2, id);
            id == FirstFree(r.queues) && ret == 0 && WellFormed(r3) && AsMap(r3) == AsMap(r)
  {
    var r1 := Ftok(r, path);
    assert WellFormed(r1) by { ApplyKeepsWellFormed(r, FtokOp(path)); }
    ShortNameHasToken(r, path);
    SameQueuesSameMap(r, r1);
    GetThenRel(r1, Hash(path));
  }

  /** Where `get` puts a new queue. */
  lemma GetPlaces(r: Tables, key: UInt16)
    requires DistinctKeys(r) && key !in AsMap(r) && FirstFree(r.queues) < |r.queues|
    ensures var id := FirstFree(r.queues);
            Get(r, key) == (r.(queues := r.queues[id := Queue(true, key, [])]), id)
  {
    assert ToUInt32(key) == key;
    var i := FirstLive(r.queues, key);
    if i < |r.queues| {
      assert ValidId(r, i);
      EntryInMap(r, i);
    }
  }

  lemma GetThenRel(r: Tables, key: UInt16)
    requires WellFormed(r) && key !in AsMap(r) && HasToken(r, key) && FirstFree(r.queues) < |r.queues|
    ensures Get(r, key).1 == FirstFree(r.queues)
    ensures Rel(Get(r, key).0, FirstFree(r.queues)).1 == 0
    ensures WellFormed(Rel(Get(r, key).0, FirstFree(r.queues)).0)
    ensures AsMap(Rel(Get(r, key).0, FirstFree(r.queues)).0) == AsMap(r)
  {
    var id := FirstFree(r.queues);
    var r' := r.(queues := r.queues[id := Queue(true, key, [])]);
    assert Get(r, key) == (r', id) by { GetPlaces(r, key); }
    assert WellFormed(r') && AsMap(r') == AsMap(r)[key := []] by { AddsKey(r, key); }
    assert HasToken(r', key);
    RelDeletes(r', id, AsMap(r));
  }

  lemma AddsKey(r: Tables, key: UInt16)
    requires WellFormed(r) && key !in AsMap(r) && FirstFree(r.queues) < |r.queues|
    ensures WellFormed(Get(r, key).0) && AsMap(Get(r, key).0) == AsMap(r)[key := []]
  {
    assert ToUInt32(key) == key;
    GetPlaces(r, key);
    GetRefines(r, key);
  }

  /** Releasing an empty queue takes its key back out of the map. */
  lemma RelDeletes(r: Tables, id: int, m: map<UInt32, seq<Msg>>)
    requires WellFormed(r) && ValidId(r, id) && HasToken(r, r.queues[id].key)
    requires r.queues[id].key !in m && AsMap(r) == m[r.queues[id].key := []]
    ensures Rel(r, id).1 == 0 && WellFormed(Rel(r, id).0) && AsMap(Rel(r, id).0) == m
  {
    var k := r.queues[id].key;
    var (r', ret) := Rel(r, id);
    RelRefines(r, id);
    AddThenDrop(m, k);
    assert AsMap(r') == AsMap(r) - {k};
  }

  lemma AddThenDrop(m: map<UInt32, seq<Msg>>, k: UInt32)
    requires k !in m
    ensures m[k := []] - {k} == m
  {
  }

  lemma SameQueuesSameMap(r: Tables, r': Tables)
    requires DistinctKeys(r) && DistinctKeys(r') && r'.queues == r.queues
    ensures AsMap(r') == AsMap(r)
  {
  }

  // ---------- The table is full exactly when the map is ----------

  ghost function LiveKeys(queues: seq<Queue>): set<UInt32> {
    set i | 0 <= i < |queues| && queues[i].live :: queues[i].key
  }

  lemma {:induction false} KeyCount(queues: seq<Queue>)
    requires forall i, j :: 0 <= i < j < |queues| && queues[i].live && queues[j].live ==> queues[i].key != queues[j].key
    ensures |LiveKeys(queues)| <= |queues|
    ensures |LiveKeys(queues)| == |queues| <==> forall i :: 0 <= i < |queues| ==> queues[i].live
    decreases |queues|
  {
    if queues != [] {
      var n := |queues| - 1;
      var front, last := queues[..n], queues[n];
      KeyCount(front);
      if last.live {
        assert LiveKeys(queues) == LiveKeys(front) + {last.key};
        assert last.key !in LiveKeys(front);
      } else {
        assert LiveKeys(queues) == LiveKeys(front);
      }
    }
  }

  /** `get` on a new key fails exactly when the map already has as many keys as the table has entries. */
  lemma GetFailsWhenMapFull(r: Tables, key: int)
    requires WellFormed(r) && ToUInt32(key) !in AsMap(r)
    ensures |AsMap(r)| <= |r.queues|
    ensures Get(r, key).1 == -2 <==> |AsMap(r)| == |r.queues|
  {
    forall i, j | 0 <= i < j < |r.queues| && r.queues[i].live && r.queues[j].live
      ensures r.queues[i].key != r.queues[j].key
    {
      assert ValidId(r, i) && ValidId(r, j);
    }
    KeyCount(r.queues);
    assert AsMap(r).Keys == LiveKeys(r.queues);
    GetRefines(r, key);
  }
}
