/** The bit operations on a 32-bit word, and the set of positions a word stands for. */
module Bits {
  import opened Common

  /** Bit `i` of a word. */
  predicate Bit(w: nat, i: nat)
    decreases i
  {
    if i == 0 then w % 2 == 1 else Bit(w / 2, i - 1)
  }

  /** `v | w`. */
  function Or(v: nat, w: nat): nat
    decreases v + w
  {
    if v == 0 && w == 0 then 0 else 2 * Or(v / 2, w / 2) + (if v % 2 == 1 || w % 2 == 1 then 1 else 0)
  }

  /** `v & w`. */
  function And(v: nat, w: nat): nat
    decreases v
  {
    if v == 0 then 0 else 2 * And(v / 2, w / 2) + (if v % 2 == 1 && w % 2 == 1 then 1 else 0)
  }

  /** `1 << i`, as long as it fits the word. */
  function Pow2(i: nat): (r: nat)
    ensures r > 0
    decreases i
  {
    if i == 0 then 1 else 2 * Pow2(i - 1)
  }

  /** `~w`. */
  function Not(w: UInt32): UInt32 {
    TWO_32 - 1 - w
  }

  lemma HalfOf(h: nat, b: nat)
    requires b < 2
    ensures (2 * h + b) / 2 == h && (2 * h + b) % 2 == b
  {
  }

  lemma {:induction false} OrBit(v: nat, w: nat, i: nat)
    ensures Bit(Or(v, w), i) <==> Bit(v, i) || Bit(w, i)
    decreases i
  {
    HalfOf(Or(v / 2, w / 2), if v % 2 == 1 || w % 2 == 1 then 1 else 0);
    if i > 0 {
      OrBit(v / 2, w / 2, i - 1);
    }
  }

  lemma {:induction false} AndBit(v: nat, w: nat, i: nat)
    ensures Bit(And(v, w), i) <==> Bit(v, i) && Bit(w, i)
    decreases i
  {
    HalfOf(And(v / 2, w / 2), if v % 2 == 1 && w % 2 == 1 then 1 else 0);
    if i > 0 {
      AndBit(v / 2, w / 2, i - 1);
    }
  }

  lemma {:induction false} Pow2Bit(i: nat, j: nat)
    ensures Bit(Pow2(i), j) <==> i == j
    decreases i
  {
    if i > 0 {
      HalfOf(Pow2(i - 1), 0);
      if j > 0 { Pow2Bit(i - 1, j - 1); }
    } else if j > 0 {
      ZeroBit(j - 1);
    }
  }

  lemma {:induction false} ZeroBit(i: nat)
    ensures !Bit(0, i)
    decreases i
  {
    if i > 0 { ZeroBit(i - 1); }
  }

  /** Complementing within `n` bits flips each of them. */
  lemma {:induction false} ComplementBit(w: nat, n: nat, i: nat)
    requires i < n && w < Pow2(n)
    ensures Bit(Pow2(n) - 1 - w, i) <==> !Bit(w, i)
    decreases n
  {
    var h, b := w / 2, w % 2;
    HalfOf(Pow2(n - 1) - 1 - h, 1 - b);
    assert Pow2(n) - 1 - w == 2 * (Pow2(n - 1) - 1 - h) + (1 - b);
    if i > 0 { ComplementBit(h, n - 1, i - 1); }
  }

  lemma {:induction false} OrBound(v: nat, w: nat, n: nat)
    requires v < Pow2(n) && w < Pow2(n)
    ensures Or(v, w) < Pow2(n)
    decreases n
  {
    if n > 0 { OrBound(v / 2, w / 2, n - 1); }
  }

  lemma {:induction false} AndBound(v: nat, w: nat)
    ensures And(v, w) <= v
    decreases v
  {
    if v > 0 { AndBound(v / 2, w / 2); }
  }

  lemma {:induction false} Pow2Grows(i: nat, n: nat)
    requires i < n
    ensures Pow2(i) < Pow2(n)
    decreases n
  {
    if i < n - 1 { Pow2Grows(i, n - 1); }
  }

  lemma WordSize()
    ensures Pow2(32) == TWO_32
  {
    assert Pow2(8) == 0x100;
    assert Pow2(16) == 0x100 * Pow2(8);
    assert Pow2(24) == 0x100 * Pow2(16);
    assert Pow2(32) == 0x100 * Pow2(24);
  }

  // ---------- A word as a set ----------

  /** The positions of the one bits of a word. */
  function BitSet(w: UInt32): set<int> {
    set i: int | 0 <= i < 32 && Bit(w, i)
  }

  /** `w |= 1 << i`. */
  function SetBit(w: UInt32, i: nat): (r: UInt32)
    requires i < 32
    ensures BitSet(r) == BitSet(w) + {i}
  {
    WordSize();
    Pow2Grows(i, 32);
    OrBound(w, Pow2(i), 32);
    assert forall j: nat {:trigger Bit(w, j)} :: Bit(Or(w, Pow2(i)), j) <==> Bit(w, j) || i == j by {
      forall j: nat ensures Bit(Or(w, Pow2(i)), j) <==> Bit(w, j) || i == j { OrBit(w, Pow2(i), j); Pow2Bit(i, j); }
    }
    Or(w, Pow2(i))
  }

  /** `w &= ~(1 << i)`; a shift beyond the word is left without effect. */
  function ClearBit(w: UInt32, i: nat): (r: UInt32)
    ensures BitSet(r) == BitSet(w) - {i}
  {
    if i >= 32 then w
    else
      WordSize();
      Pow2Grows(i, 32);
      AndBound(w, Not(Pow2(i)));
      assert forall j: nat {:trigger Bit(w, j)} :: j < 32 ==> (Bit(And(w, Not(Pow2(i))), j) <==> Bit(w, j) && i != j) by {
        forall j: nat | j < 32 ensures Bit(And(w, Not(Pow2(i))), j) <==> Bit(w, j) && i != j {
          AndBit(w, Not(Pow2(i)), j);
          ComplementBit(Pow2(i), 32, j);
          Pow2Bit(i, j);
        }
      }
      And(w, Not(Pow2(i)))
  }

  /** `w & (1 << i)` is nonzero exactly when the bit is set. */
  predicate TestBit(w: UInt32, i: nat)
    requires i < 32
    ensures TestBit(w, i) <==> i in BitSet(w)
  {
    assert And(w, Pow2(i)) != 0 <==> Bit(w, i) by { TestMeans(w, i); }
    And(w, Pow2(i)) != 0
  }

  lemma TestMeans(w: nat, i: nat)
    ensures And(w, Pow2(i)) != 0 <==> Bit(w, i)
  {
    AndBit(w, Pow2(i), i);
    Pow2Bit(i, i);
    if And(w, Pow2(i)) == 0 {
      ZeroBit(i);
    } else {
      var j := SomeBit(And(w, Pow2(i)));
      AndBit(w, Pow2(i), j);
      Pow2Bit(i, j);
    }
  }

  lemma {:induction false} SomeBit(w: nat) returns (j: nat)
    requires w != 0
    ensures Bit(w, j)
    decreases w
  {
    if w % 2 == 1 {
      j := 0;
    } else {
      j := SomeBit(w / 2);
      j := j + 1;
    }
  }

  lemma EmptyWord()
    ensures BitSet(0) == {}
  {
    forall i: nat ensures !Bit(0, i) { ZeroBit(i); }
  }

  // ---------- Counting ----------

  function PopCount(w: nat): nat
    decreases w
  {
    if w == 0 then 0 else w % 2 + PopCount(w / 2)
  }

  function BitsBelow(w: nat, n: nat): set<int> {
    set i: int | 0 <= i < n && Bit(w, i)
  }

  function Raised(s: set<int>): set<int> {
    set i: int | i in s :: i + 1
  }

  lemma RaisedHas(s: set<int>, y: int)
    ensures y in Raised(s) <==> y - 1 in s
  {
    assert y - 1 in s ==> (y - 1) + 1 in Raised(s);
  }

  lemma {:induction false} RaisedSize(s: set<int>)
    ensures |Raised(s)| == |s|
    decreases |s|
  {
    SomeElement(s);
    if |s| > 0 {
      var x: int :| x in s;
      var rest := s - {x};
      RaisedSize(rest);
      forall y: int ensures y in Raised(s) <==> y in Raised(rest) + {x + 1} {
        RaisedHas(s, y);
        RaisedHas(rest, y);
      }
      RaisedHas(rest, x + 1);
      assert Raised(s) == Raised(rest) + {x + 1};
    } else {
      assert Raised(s) == {};
    }
  }

  lemma {:induction false} CountBelow(w: nat, n: nat)
    requires w < Pow2(n)
    ensures PopCount(w) == |BitsBelow(w, n)|
    decreases n
  {
    if n == 0 {
      assert BitsBelow(w, n) == {};
    } else {
      var rest := BitsBelow(w / 2, n - 1);
      CountBelow(w / 2, n - 1);
      RaisedSize(rest);
      var low: set<int> := if w % 2 == 1 then {0} else {};
      assert BitsBelow(w, n) == low + Raised(rest) by {
        forall i: int ensures i in BitsBelow(w, n) <==> i in low + Raised(rest) {
          RaisedHas(rest, i);
        }
      }
      assert low !! Raised(rest);
    }
  }

  /** The number of one bits is the size of the set. */
  lemma PopCountIsSize(w: UInt32)
    ensures PopCount(w) == |BitSet(w)|
  {
    WordSize();
    CountBelow(w, 32);
    assert BitSet(w) == BitsBelow(w, 32);
  }
}
