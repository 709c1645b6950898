/** Fixed-width integers, C strings and constants shared by every layer of the service. */
module Common {

  const TWO_8: int := 0x100
  const TWO_16: int := 0x1_0000
  const TWO_32: int := 0x1_0000_0000

  type Byte = x: int | 0 <= x < TWO_8
  type UInt16 = x: int | 0 <= x < TWO_16
  type UInt32 = x: int | 0 <= x < TWO_32

  /** A plain `char`: the range covers both a signed and an unsigned compiler choice. */
  type CChar = x: int | -128 <= x < TWO_8

  /** The payload of one message. */
  type Msg = seq<Byte>

  const IPC_MSG_QUEUE_NUM: nat := 12
  const IPC_MSG_ELEMENT_NUM: nat := 16
  const IPC_MSG_ELEMENT_SIZE: nat := 24
  const IPC_MSG_QUEUE_TOKEN_STR_MAXLEN: nat := 32
  const IPC_SENDTO_MAX: nat := 3
  const CFG_IPC_INIT_KEY: UInt32 := 0x1234_5678

  const EFAULT: int := 14

  datatype Option<+T> = None | Some(value: T)

  /** Conversion of a C integer to `UINT32`. */
  function ToUInt32(x: int): UInt32 {
    x % TWO_32
  }

  /** The position of the first element satisfying `p`, or the length when there is none. */
  function FirstIndex<T>(s: seq<T>, p: T -> bool): (r: nat)
    ensures r <= |s|
    ensures r < |s| ==> p(s[r])
    ensures forall j :: 0 <= j < r ==> !p(s[j])
  {
    if s == [] || p(s[0]) then 0
    else
      var r := FirstIndex(s[1..], p);
      assert forall j :: 0 < j < |s| ==> s[1..][j - 1] == s[j];
      r + 1
  }

  lemma SomeElement(a: set<int>)
    ensures |a| > 0 ==> exists x: int :: x in a
  {
    if forall x: int :: x !in a {
      assert a == {};
    }
  }
}
