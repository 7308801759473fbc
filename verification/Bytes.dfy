/** Eight-bit bytes as integers, the bitwise operators on them, and ASCII literals. */
module Bytes {

  type byte = x: int | 0 <= x < 256

  type Bytes = seq<byte>

  /** The bytes of a literal; every character of the literals used here is below 256. */
  function Ascii(s: string): (b: Bytes)
    ensures |b| == |s|
    ensures forall i :: 0 <= i < |s| ==> b[i] == s[i] as int % 256
  {
    seq(|s|, i requires 0 <= i < |s| => s[i] as int % 256)
  }

  /** Addition of two unsigned bytes, with wrap-around. */
  function Add(x: byte, y: byte): byte {
    (x + y) % 256
  }

  /** Multiplication of two unsigned bytes, with wrap-around. */
  function Mul(x: byte, y: byte): byte {
    (x * y) % 256
  }

  function Pow2(n: nat): (p: nat)
    ensures p >= 1
  {
    if n == 0 then 1 else 2 * Pow2(n - 1)
  }

  /** Exclusive or of the low `n` bits. */
  function XorBits(x: nat, y: nat, n: nat): (z: nat)
    ensures z < Pow2(n)
  {
    if n == 0 then 0
    else (if x % 2 != y % 2 then 1 else 0) + 2 * XorBits(x / 2, y / 2, n - 1)
  }

  /** Conjunction of the low `n` bits. */
  function AndBits(x: nat, y: nat, n: nat): (z: nat)
    ensures z < Pow2(n)
  {
    if n == 0 then 0
    else (if x % 2 == 1 && y % 2 == 1 then 1 else 0) + 2 * AndBits(x / 2, y / 2, n - 1)
  }

  /** Bit `k` of a number: its parity after `k` halvings. */
  function BitOf(x: nat, k: nat): nat {
    if k == 0 then x % 2 else BitOf(x / 2, k - 1)
  }

  /** Bit by bit: an exclusive or is set where the two differ, a conjunction where both are set. */
  lemma {:induction false} BitwiseAt(x: nat, y: nat, n: nat, k: nat)
    requires k < n
    ensures BitOf(XorBits(x, y, n), k) == if BitOf(x, k) != BitOf(y, k) then 1 else 0
    ensures BitOf(AndBits(x, y, n), k) == if BitOf(x, k) == 1 && BitOf(y, k) == 1 then 1 else 0
  {
    if k > 0 {
      BitwiseAt(x / 2, y / 2, n - 1, k - 1);
    }
  }

  /** Conjunction with all ones changes nothing. */
  lemma {:induction false} AndBitsOfOnes(x: nat, n: nat)
    requires x < Pow2(n)
    ensures AndBits(x, Pow2(n) - 1, n) == x
  {
    if n > 0 {
      AndBitsOfOnes(x / 2, n - 1);
    }
  }

  function Xor(x: byte, y: byte): byte {
    Pow2Of8();
    XorBits(x, y, 8)
  }

  function And(x: byte, y: byte): byte {
    Pow2Of8();
    AndBits(x, y, 8)
  }

  lemma Pow2Of8()
    ensures Pow2(8) == 256
  {
    assert Pow2(4) == 16;
    assert Pow2(6) == 64;
  }

  /** The lowest bit and the rest. */
  lemma XorBitsStep(x: nat, y: nat, n: nat)
    requires n > 0
    ensures XorBits(x, y, n) == (if x % 2 != y % 2 then 1 else 0) + 2 * XorBits(x / 2, y / 2, n - 1)
    ensures XorBits(x, y, n) % 2 == if x % 2 != y % 2 then 1 else 0
    ensures XorBits(x, y, n) / 2 == XorBits(x / 2, y / 2, n - 1)
  {
  }

  lemma XorBitsNone(x: nat, y: nat)
    ensures XorBits(x, y, 0) == 0
  {
  }

  lemma {:induction false} XorBitsTwice(x: nat, y: nat, n: nat)
    requires x < Pow2(n)
    ensures XorBits(XorBits(x, y, n), y, n) == x
  {
    if n > 0 {
      XorBitsTwice(x / 2, y / 2, n - 1);
    }
  }

  /** The order of two masks does not matter. */
  lemma {:induction false} XorBitsSwap(x: nat, c: nat, d: nat, n: nat)
    ensures XorBits(XorBits(x, c, n), d, n) == XorBits(XorBits(x, d, n), c, n)
  {
    hide XorBits;
    if n == 0 {
      XorBitsNone(XorBits(x, c, n), d);
      XorBitsNone(XorBits(x, d, n), c);
    } else {
      XorBitsStep(x, c, n);
      XorBitsStep(x, d, n);
      XorBitsStep(XorBits(x, c, n), d, n);
      XorBitsStep(XorBits(x, d, n), c, n);
      XorBitsSwap(x / 2, c / 2, d / 2, n - 1);
    }
  }

  lemma {:induction false} XorBitsAssociate(x: nat, c: nat, d: nat, n: nat)
    ensures XorBits(x, XorBits(c, d, n), n) == XorBits(XorBits(x, c, n), d, n)
  {
    hide XorBits;
    if n == 0 {
      XorBitsNone(x, XorBits(c, d, n));
      XorBitsNone(XorBits(x, c, n), d);
    } else {
      XorBitsStep(x, c, n);
      XorBitsStep(c, d, n);
      XorBitsStep(x, XorBits(c, d, n), n);
      XorBitsStep(XorBits(x, c, n), d, n);
      XorBitsAssociate(x / 2, c / 2, d / 2, n - 1);
    }
  }

  /** Masking a stream byte with `c` then `d` is undone by masking with `c` then `d` again. */
  lemma XorBitsPair(x: nat, c: nat, d: nat, n: nat)
    requires x < Pow2(n)
    ensures XorBits(XorBits(XorBits(XorBits(x, c, n), d, n), c, n), d, n) == x
  {
    hide XorBits, Pow2;
    XorBitsSwap(XorBits(x, c, n), d, c, n);
    XorBitsTwice(x, c, n);
    XorBitsTwice(x, d, n);
  }

  lemma XorTwice(x: byte, y: byte)
    ensures Xor(Xor(x, y), y) == x
  {
    Pow2Of8();
    XorBitsTwice(x, y, 8);
  }

  lemma XorPair(x: byte, c: byte, d: byte)
    ensures Xor(Xor(Xor(Xor(x, c), d), c), d) == x
  {
    Pow2Of8();
    XorBitsPair(x, c, d, 8);
  }

  lemma XorAssociates(x: byte, c: byte, d: byte)
    ensures Xor(x, Xor(c, d)) == Xor(Xor(x, c), d)
  {
    XorBitsAssociate(x, c, d, 8);
  }

  lemma AndAllOnes(x: byte)
    ensures And(x, 0xFF) == x
  {
    Pow2Of8();
    AndBitsOfOnes(x, 8);
  }

  lemma Regroup(a: Bytes, b: Bytes, c: Bytes)
    ensures a + b + c == a + (b + c)
  {
  }
}
