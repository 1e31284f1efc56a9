/** Bytes, their exclusive or, and runs of one byte. */
module Bytes {
  type byte = x: int | 0 <= x < 256

  /** Exclusive or of the low `bits` bits. */
  function XorBits(bits: nat, a: nat, b: nat): nat {
    if bits == 0 then 0 else (if a % 2 == b % 2 then 0 else 1) + 2 * XorBits(bits - 1, a / 2, b / 2)
  }

  function Pow2(bits: nat): nat {
    if bits == 0 then 1 else 2 * Pow2(bits - 1)
  }

  lemma {:induction false} XorRange(bits: nat, a: nat, b: nat)
    ensures XorBits(bits, a, b) < Pow2(bits)
  {
    if bits > 0 {
      XorRange(bits - 1, a / 2, b / 2);
    }
  }

  lemma {:induction false} XorTwice(bits: nat, a: nat, b: nat)
    requires a < Pow2(bits)
    ensures XorBits(bits, XorBits(bits, a, b), b) == a
  {
    if bits > 0 {
      var x := XorBits(bits, a, b);
      assert x / 2 == XorBits(bits - 1, a / 2, b / 2);
      XorTwice(bits - 1, a / 2, b / 2);
    }
  }

  function Xor(a: byte, b: byte): byte {
    XorRange(8, a, b);
    assert Pow2(8) == 256;
    XorBits(8, a, b)
  }

  lemma XorCancels(a: byte, b: byte)
    ensures Xor(Xor(a, b), b) == a
  {
    assert Pow2(8) == 256;
    XorTwice(8, a, b);
  }

  function Bit(n: nat, i: nat): nat {
    if i == 0 then n % 2 else Bit(n / 2, i - 1)
  }

  lemma {:induction false} XorBit(bits: nat, a: nat, b: nat, i: nat)
    requires i < bits
    ensures Bit(XorBits(bits, a, b), i) == 1 <==> Bit(a, i) != Bit(b, i)
    ensures Bit(a, i) <= 1 && Bit(b, i) <= 1
  {
    if i > 0 {
      assert XorBits(bits, a, b) / 2 == XorBits(bits - 1, a / 2, b / 2);
      XorBit(bits - 1, a / 2, b / 2, i - 1);
    }
  }

  /** A bit of the result is set exactly when the bits of the operands differ. */
  lemma XorIsBitwise(a: byte, b: byte, i: nat)
    requires i < 8
    ensures Bit(Xor(a, b), i) == 1 <==> Bit(a, i) != Bit(b, i)
  {
    XorBit(8, a, b, i);
    hide XorBits;
  }

  function XorAll(a: seq<byte>, b: seq<byte>): (r: seq<byte>)
    requires |a| == |b|
    ensures |r| == |a| && forall i :: 0 <= i < |a| ==> r[i] == Xor(a[i], b[i])
  {
    seq(|a|, i requires 0 <= i < |a| => Xor(a[i], b[i]))
  }

  lemma XorAllCancels(a: seq<byte>, b: seq<byte>)
    requires |a| == |b|
    ensures XorAll(XorAll(a, b), b) == a
  {
    forall i | 0 <= i < |a| ensures XorAll(XorAll(a, b), b)[i] == a[i] {
      XorCancels(a[i], b[i]);
    }
  }

  function Repeat(b: byte, n: nat): (r: seq<byte>)
    ensures |r| == n && forall i :: 0 <= i < n ==> r[i] == b
  {
    seq(n, _ => b)
  }
}
