/** The 16-bit rotate-and-add hash that turns a queue name into a key. */
module NameHash {
  import opened Common

  /** Rotate a 16-bit word right by one. */
  function Ror16(h: UInt16): UInt16 {
    (if h % 2 == 1 then 0x8000 else 0) + h / 2
  }

  /** Rotate a 16-bit word left by one. */
  function Rol16(h: UInt16): UInt16 {
    if h < 0x8000 then 2 * h else 2 * h - TWO_16 + 1
  }

  /** The state after one more character; the sum is truncated to 16 bits. */
  function Step(h: UInt16, c: CChar): UInt16 {
    (Ror16(h) + c) % TWO_16
  }

  /** The state after reading `s` from state `h`. */
  function HashFrom(h: UInt16, s: seq<CChar>): UInt16
    decreases |s|
  {
    if s == [] then h else HashFrom(Step(h, s[0]), s[1..])
  }

  function Hash(s: seq<CChar>): UInt16 {
    HashFrom(0, s)
  }

  /** The loop of the driver: one pass over the characters with a mutable accumulator. */
  method ComputeNameHash(name: seq<CChar>) returns (hash: UInt16)
    ensures hash == Hash(name)
  {
    hash := 0;
    var pchar := 0;
    while pchar < |name|
      invariant 0 <= pchar <= |name|
      invariant HashFrom(hash, name[pchar..]) == Hash(name)
    {
      assert name[pchar..][1..] == name[pchar + 1..];
      hash := ((if hash % 2 == 1 then 0x8000 else 0) + hash / 2 + name[pchar]) % TWO_16;
      pchar := pchar + 1;
    }
  }

  lemma RotateInverse(h: UInt16)
    ensures Rol16(Ror16(h)) == h && Ror16(Rol16(h)) == h
  {
  }

  /** Two integers that agree modulo 2^16 and are less than 2^16 apart are equal. */
  lemma ModEqual(a: int, b: int)
    requires a % TWO_16 == b % TWO_16
    requires -TWO_16 < a - b < TWO_16
    ensures a == b
  {
  }

  /** Each step is a bijection on states: distinct states stay distinct and every state is reached. */
  lemma StepBijective(h: UInt16, g: UInt16, c: CChar)
    ensures Step(h, c) == Step(g, c) <==> h == g
    ensures exists before: UInt16 :: Step(before, c) == g
  {
    if Step(h, c) == Step(g, c) {
      ModEqual(Ror16(h) + c, Ror16(g) + c);
      RotateInverse(h);
      RotateInverse(g);
    }
    StepOnto(g, c);
  }

  lemma StepOnto(g: UInt16, c: CChar)
    ensures Step(Rol16((g - c) % TWO_16), c) == g
  {
    RotateInverse((g - c) % TWO_16);
  }

  /** From one state, different characters lead to different states. */
  lemma StepSeparates(h: UInt16, c: CChar, d: CChar)
    ensures Step(h, c) == Step(h, d) <==> c == d
  {
    if Step(h, c) == Step(h, d) {
      ModEqual(Ror16(h) + c, Ror16(h) + d);
    }
  }

  lemma {:induction false} HashFromAppend(h: UInt16, p: seq<CChar>, s: seq<CChar>)
    ensures HashFrom(h, p + s) == HashFrom(HashFrom(h, p), s)
    decreases |p|
  {
    if p == [] {
      assert p + s == s;
    } else {
      assert (p + s)[1..] == p[1..] + s;
      HashFromAppend(Step(h, p[0]), p[1..], s);
    }
  }

  lemma {:induction false} HashFromInjective(h: UInt16, g: UInt16, s: seq<CChar>)
    ensures HashFrom(h, s) == HashFrom(g, s) <==> h == g
    decreases |s|
  {
    if s != [] {
      StepBijective(h, g, s[0]);
      HashFromInjective(Step(h, s[0]), Step(g, s[0]), s[1..]);
    }
  }

  /** A common suffix never creates or hides a collision. */
  lemma SuffixCancels(p: seq<CChar>, q: seq<CChar>, s: seq<CChar>)
    ensures Hash(p + s) == Hash(q + s) <==> Hash(p) == Hash(q)
  {
    HashFromAppend(0, p, s);
    HashFromAppend(0, q, s);
    HashFromInjective(Hash(p), Hash(q), s);
  }

  /** The state after `p` followed by the characters `c` and `d`. */
  lemma HashTwoMore(p: seq<CChar>, c: CChar, d: CChar)
    ensures Hash(p + [c]) == Step(Hash(p), c)
    ensures Hash(p + [c, d]) == Step(Step(Hash(p), c), d)
  {
    HashFromAppend(0, p, [c]);
    HashFromAppend(0, p, [c, d]);
    assert [c, d][1..] == [d];
    assert HashFrom(Step(Hash(p), c), [d]) == Step(Step(Hash(p), c), d);
  }

  /** Names of any length that differ in exactly one character never share a key. */
  lemma OneCharacterDecides(p: seq<CChar>, c: CChar, d: CChar, s: seq<CChar>)
    ensures Hash(p + [c] + s) == Hash(p + [d] + s) <==> c == d
  {
    SuffixCancels(p + [c], p + [d], s);
    HashTwoMore(p, c, c);
    HashTwoMore(p, d, d);
    StepSeparates(Hash(p), c, d);
  }

  /**
   * Words `y`, `z` that rotate right to `u`, `v`, where both differences are `gap` modulo 2^16:
   * undoing the rotation doubles a difference, and only the top bits can make up for the doubling.
   */
  lemma RotatedGap(y: UInt16, z: UInt16, gap: int, m: int, n: int)
    requires 0 < gap < 0x8000
    requires z - y == gap + TWO_16 * n
    requires Ror16(z) - Ror16(y) == gap + TWO_16 * m
    ensures gap == 1 && y == 0xFFFF
  {
    var u: int, v: int := Ror16(y), Ror16(z);
    var tu, tv := if u < 0x8000 then 0 else 1, if v < 0x8000 then 0 else 1;
    assert y == 2 * u - 0xFFFF * tu by { RotateInverse(y); }
    assert z == 2 * v - 0xFFFF * tv by { RotateInverse(z); }
    assert gap + (tv - tu) == TWO_16 * (n - 2 * m + tv - tu);
    assert gap + (tv - tu) == 0;
  }

  lemma SwapDifference(h: UInt16, c: CChar, d: CChar)
    requires c < d
    requires Step(Step(h, c), d) == Step(Step(h, d), c)
    ensures d == c + 1 && (Ror16(h) + c) % TWO_16 == 0xFFFF
  {
    var r, y, z := Ror16(h), Step(h, c), Step(h, d);
    var n := (r + c) / TWO_16 - (r + d) / TWO_16;
    var m := (Ror16(z) + c) / TWO_16 - (Ror16(y) + d) / TWO_16;
    RotatedGap(y, z, d - c, m, n);
  }

  lemma SwapAtWrap(h: UInt16, c: CChar)
    requires c + 1 < TWO_8 && (Ror16(h) + c) % TWO_16 == 0xFFFF
    ensures Step(Step(h, c), c + 1) == Step(Step(h, c + 1), c)
  {
    assert Step(h, c + 1) == 0;
  }

  /**
   * Exchanging two distinct adjacent characters leaves the key unchanged exactly when they are
   * consecutive codes and the smaller one carries the accumulator to all ones, whatever follows.
   */
  lemma AdjacentSwap(p: seq<CChar>, c: CChar, d: CChar, s: seq<CChar>)
    requires c != d
    ensures Hash(p + [c, d] + s) == Hash(p + [d, c] + s)
       <==> (c - d == 1 || d - c == 1)
            && (Ror16(Hash(p)) + (if c < d then c else d)) % TWO_16 == 0xFFFF
  {
    SuffixCancels(p + [c, d], p + [d, c], s);
    HashTwoMore(p, c, d);
    HashTwoMore(p, d, c);
    var lo, hi := if c < d then c else d, if c < d then d else c;
    if Step(Step(Hash(p), lo), hi) == Step(Step(Hash(p), hi), lo) {
      SwapDifference(Hash(p), lo, hi);
    }
    if hi == lo + 1 && (Ror16(Hash(p)) + lo) % TWO_16 == 0xFFFF {
      SwapAtWrap(Hash(p), lo);
    }
  }

  /** The hash is not injective: the names "ab" and "ca" share a key. */
  lemma ShortCollision()
    ensures Hash([97, 98]) == Hash([99, 97]) && [97, 98] != [99, 97]
  {
    assert [97, 98] == [] + [97, 98];
    assert [99, 97] == [] + [99, 97];
    HashTwoMore([], 97, 98);
    HashTwoMore([], 99, 97);
  }

  /** Repeating a character from the state that is twice its code leaves the state alone. */
  lemma {:induction false} RepeatFixed(c: CChar, k: nat)
    requires 0 <= 2 * c < TWO_16
    ensures HashFrom(2 * c, seq(k, _ => c)) == 2 * c
    decreases k
  {
    if k > 0 {
      var tail := seq(k, _ => c);
      assert tail[1..] == seq(k - 1, _ => c);
      assert Step(2 * c, c) == 2 * c;
      RepeatFixed(c, k - 1);
    }
  }

  /** Whole families share one key: "b", "b1", "b11" and so on, at every length. */
  lemma RepeatCollision(c: CChar, k: nat)
    requires 0 <= 2 * c < TWO_8
    ensures Hash([2 * c] + seq(k, _ => c)) == 2 * c
  {
    HashFromAppend(0, [2 * c], seq(k, _ => c));
    assert [2 * c][1..] == [];
    assert HashFrom(0, [2 * c]) == HashFrom(Step(0, 2 * c), []) == 2 * c;
    RepeatFixed(c, k);
  }
}
