/** The send region of a core: two halves per destination, their carving, and their addresses. */
module SendBuffer {
  import opened Common
  import opened RingBuffer

  /** Bytes of one half: the destination word and the payload. */
  const SEND_MSG_SIZE: nat := 4 + IPC_MSG_ELEMENT_SIZE

  /** Where half `h` of destination number `i` starts in the region. */
  function HalfOffset(i: nat, h: nat, size: nat): nat {
    (2 * i + h) * size
  }

  /** The address of a half when the region starts at `region`; `UINT32` arithmetic wraps. */
  function HalfAddr(region: UInt32, i: nat, h: nat, size: nat): UInt32 {
    ToUInt32(region + HalfOffset(i, h, size))
  }

  /** The cursor of the init loop after `n` steps over halves of `size` bytes. */
  function Cursor(region: UInt32, n: nat, size: nat): UInt32 {
    if n == 0 then region else ToUInt32(Cursor(region, n - 1, size) + size)
  }

  lemma {:induction false} CursorAddress(region: UInt32, n: nat, size: nat)
    ensures Cursor(region, n, size) == ToUInt32(region + n * size)
  {
    if n > 0 {
      CursorAddress(region, n - 1, size);
      OneMoreTimes(n, size);
      NextCursor(region, n, size, (n - 1) * size, n * size);
    }
  }

  lemma OneMoreTimes(n: nat, size: nat)
    requires n > 0
    ensures n * size == (n - 1) * size + size
  {
  }

  lemma NextCursor(region: UInt32, n: nat, size: nat, before: int, after: int)
    requires n > 0 && after == before + size && Cursor(region, n - 1, size) == ToUInt32(region + before)
    ensures Cursor(region, n, size) == ToUInt32(region + after)
  {
    AddThenWrap(region + before, size);
    assert region + before + size == region + after;
  }

  /** The loop of `ipc_msgque_init`: a cursor runs over the region and hands out both halves. */
  method CarveLoop(region: UInt32, destinations: nat, size: nat) returns (halves: seq<seq<UInt32>>, end: UInt32)
    ensures |halves| == destinations
    ensures forall j :: 0 <= j < destinations ==> halves[j] == [Cursor(region, 2 * j, size), Cursor(region, 2 * j + 1, size)]
    ensures end == Cursor(region, 2 * destinations, size)
  {
    halves := [];
    var tmpbuff := region;
    var i := 0;
    while i < destinations
      invariant i == |halves| <= destinations
      invariant tmpbuff == Cursor(region, 2 * i, size)
      invariant forall j :: 0 <= j < i ==> halves[j] == [Cursor(region, 2 * j, size), Cursor(region, 2 * j + 1, size)]
    {
      var first := tmpbuff;
      tmpbuff := ToUInt32(tmpbuff + size);
      var second := tmpbuff;
      tmpbuff := ToUInt32(tmpbuff + size);
      halves := halves + [[first, second]];
      i := i + 1;
    }
    end := tmpbuff;
  }

  /** What the loop hands out: for each destination its two halves, and at the end the end of the region. */
  method Carve(region: UInt32, destinations: nat, size: nat) returns (halves: seq<seq<UInt32>>, end: UInt32)
    ensures |halves| == destinations
    ensures forall i :: 0 <= i < destinations ==>
              halves[i] == [HalfAddr(region, i, 0, size), HalfAddr(region, i, 1, size)]
    ensures end == ToUInt32(region + 2 * destinations * size)
  {
    halves, end := CarveLoop(region, destinations, size);
    CursorAddress(region, 2 * destinations, size);
    HalvesAtCursor(region, size, halves);
  }

  lemma HalvesAtCursor(region: UInt32, size: nat, halves: seq<seq<UInt32>>)
    requires forall j :: 0 <= j < |halves| ==> halves[j] == [Cursor(region, 2 * j, size), Cursor(region, 2 * j + 1, size)]
    ensures forall j :: 0 <= j < |halves| ==> halves[j] == [HalfAddr(region, j, 0, size), HalfAddr(region, j, 1, size)]
  {
    forall j | 0 <= j < |halves|
      ensures halves[j] == [HalfAddr(region, j, 0, size), HalfAddr(region, j, 1, size)]
    {
      CursorAddress(region, 2 * j, size);
      CursorAddress(region, 2 * j + 1, size);
    }
  }

  /** Wrapping before an addition changes nothing. */
  lemma AddThenWrap(x: int, y: int)
    ensures ToUInt32(ToUInt32(x) + y) == ToUInt32(x + y)
  {
    var q, r := x / TWO_32, x % TWO_32;
    WrapMultiple(r + y, q);
    assert TWO_32 * q + (r + y) == x + y;
  }

  lemma WrapMultiple(x: int, q: int)
    ensures ToUInt32(TWO_32 * q + x) == ToUInt32(x)
  {
    var k, r := x / TWO_32, x % TWO_32;
    ModUnique(TWO_32 * q + x, TWO_32, q + k, r);
  }

  lemma Unwrapped(x: int)
    requires 0 <= x < TWO_32
    ensures ToUInt32(x) == x
  {
  }

  /** Byte `x` of the region lies in half `h` of destination `i`. */
  ghost predicate InHalf(x: int, i: nat, h: nat, size: nat) {
    h < 2 && HalfOffset(i, h, size) <= x < HalfOffset(i, h, size) + size
  }

  /** The halves tile the region: each byte is in exactly one of them, for any number and size. */
  lemma HalvesTile(x: nat, destinations: nat, size: nat)
    requires size > 0
    ensures forall i: nat, h: nat :: InHalf(x, i, h, size) <==> i == x / size / 2 && h == x / size % 2
    ensures x < 2 * destinations * size <==> x / size / 2 < destinations
  {
    var n := x / size;
    assert x == size * n + x % size;
    assert 2 * (n / 2) + n % 2 == n;
    forall i: nat, h: nat | InHalf(x, i, h, size) ensures i == n / 2 && h == n % 2 {
      ModUnique(x, size, 2 * i + h, x - HalfOffset(i, h, size));
    }
    HalfCount(x, destinations, size);
  }

  lemma HalfCount(x: nat, destinations: nat, size: nat)
    requires size > 0
    ensures x < 2 * destinations * size <==> x / size < 2 * destinations
  {
    QuotientBelow(x, size, 2 * destinations);
  }

  lemma QuotientBelow(x: nat, size: nat, d: nat)
    requires size > 0
    ensures x < d * size <==> x / size < d
  {
    var n := x / size;
    assert x == size * n + x % size;
    if n < d {
      Spread(size, n, d - n);
      MultipleAtLeast(size, d - n);
    } else {
      Spread(size, d, n - d);
    }
  }

  lemma Spread(size: nat, a: nat, b: nat)
    ensures size * (a + b) == size * a + size * b
    ensures size * b >= 0
  {
  }

  // ---------- Addresses on both sides ----------

  /** `ipc_msgque_getPhyAddr`. */
  function GetPhyAddr(vir: UInt32, dma: UInt32, addr: UInt32): UInt32 {
    ToUInt32(addr - (vir - dma))
  }

  /** `ipc_get_noncache_addr`. */
  function GetNoncacheAddr(phyBase: UInt32, nonCacheBase: UInt32, physical: UInt32): UInt32 {
    ToUInt32(physical - (phyBase - nonCacheBase))
  }

  /** The physical byte behind an address of the non-cached window. */
  function WindowTarget(phyBase: UInt32, nonCacheBase: UInt32, addr: UInt32): UInt32 {
    ToUInt32(addr + (phyBase - nonCacheBase))
  }

  lemma PhysicalOf(vir: UInt32, dma: UInt32, off: int)
    ensures GetPhyAddr(vir, dma, ToUInt32(vir + off)) == ToUInt32(dma + off)
  {
    AddThenWrap(vir + off, dma - vir);
  }

  lemma NoncacheOf(phyBase: UInt32, nonCacheBase: UInt32, x: int)
    ensures GetNoncacheAddr(phyBase, nonCacheBase, ToUInt32(x)) == ToUInt32(x - (phyBase - nonCacheBase))
  {
    AddThenWrap(x, nonCacheBase - phyBase);
  }

  lemma TargetOf(phyBase: UInt32, nonCacheBase: UInt32, x: int)
    ensures WindowTarget(phyBase, nonCacheBase, ToUInt32(x)) == ToUInt32(x + (phyBase - nonCacheBase))
  {
    AddThenWrap(x, phyBase - nonCacheBase);
  }

  /** What the receiver sees of a sender's region: the image of its first byte. */
  function RegionImage(phyBase: UInt32, nonCacheBase: UInt32, dma: UInt32): UInt32 {
    GetNoncacheAddr(phyBase, nonCacheBase, dma)
  }

  lemma ImageOffset(phyBase: UInt32, nonCacheBase: UInt32, dma: UInt32, off: int)
    ensures GetNoncacheAddr(phyBase, nonCacheBase, ToUInt32(dma + off))
         == ToUInt32(RegionImage(phyBase, nonCacheBase, dma) + off)
  {
    var shift := phyBase - nonCacheBase;
    NoncacheOf(phyBase, nonCacheBase, dma + off);
    AddThenWrap(dma - shift, off);
    assert dma + off - shift == dma - shift + off;
  }

  /**
   * A byte at offset `off` of the sender's region keeps that offset through both translations, under
   * wrapping 32-bit arithmetic and for any bases.
   */
  lemma TranslationKeepsOffset(vir: UInt32, dma: UInt32, phyBase: UInt32, nonCacheBase: UInt32, off: int)
    ensures GetPhyAddr(vir, dma, ToUInt32(vir + off)) == ToUInt32(dma + off)
    ensures GetNoncacheAddr(phyBase, nonCacheBase, GetPhyAddr(vir, dma, ToUInt32(vir + off)))
         == ToUInt32(RegionImage(phyBase, nonCacheBase, dma) + off)
  {
    PhysicalOf(vir, dma, off);
    ImageOffset(phyBase, nonCacheBase, dma, off);
  }

  /** Read at position `i` from there, the window leads back to the sender's byte. */
  lemma WindowLeadsBack(vir: UInt32, dma: UInt32, phyBase: UInt32, nonCacheBase: UInt32, off: int, i: int)
    ensures var noncache := GetNoncacheAddr(phyBase, nonCacheBase, GetPhyAddr(vir, dma, ToUInt32(vir + off)));
            WindowTarget(phyBase, nonCacheBase, ToUInt32(noncache + i)) == ToUInt32(dma + off + i)
  {
    var shift := phyBase - nonCacheBase;
    PhysicalOf(vir, dma, off);
    NoncacheOf(phyBase, nonCacheBase, dma + off);
    AddThenWrap(dma + off - shift, i);
    TargetOf(phyBase, nonCacheBase, dma + off - shift + i);
    assert dma + off - shift + i + shift == dma + off + i;
  }

  /** Distinct bytes of a region stay distinct after translation. */
  lemma TranslationInjective(vir: UInt32, dma: UInt32, phyBase: UInt32, nonCacheBase: UInt32, x: nat, y: nat)
    requires x < TWO_32 && y < TWO_32
    ensures GetNoncacheAddr(phyBase, nonCacheBase, GetPhyAddr(vir, dma, ToUInt32(vir + x)))
         == GetNoncacheAddr(phyBase, nonCacheBase, GetPhyAddr(vir, dma, ToUInt32(vir + y)))
         <==> x == y
  {
    TranslationKeepsOffset(vir, dma, phyBase, nonCacheBase, x);
    TranslationKeepsOffset(vir, dma, phyBase, nonCacheBase, y);
    OffsetsApart(RegionImage(phyBase, nonCacheBase, dma), x, y);
  }

  lemma OffsetsApart(base: int, x: nat, y: nat)
    requires x < TWO_32 && y < TWO_32
    ensures ToUInt32(base + x) == ToUInt32(base + y) <==> x == y
  {
    if ToUInt32(base + x) == ToUInt32(base + y) {
      if x <= y {
        ModWindow(base + x, base + y, TWO_32);
      } else {
        ModWindow(base + y, base + x, TWO_32);
      }
    }
  }
}
