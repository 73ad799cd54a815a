/** Bytes, machine integers and the bitwise operation the protocol needs. */
module Bytes {

  type byte = x: int | 0 <= x < 0x100
  type u16 = x: int | 0 <= x < 0x1_0000
  type u32 = x: int | 0 <= x < 0x1_0000_0000

  const U32_MAX: u32 := 0xFFFF_FFFF

  type Bytes = seq<byte>

  /** Exclusive or of two non-negative integers, bit by bit. */
  function Xor(a: nat, b: nat): nat {
    if a == 0 && b == 0 then 0 else (a + b) % 2 + 2 * Xor(a / 2, b / 2)
  }

  lemma {:induction false} XorBelow(a: nat, b: nat, bits: nat, bound: nat)
    requires a < bound && b < bound && bound == Power2(bits)
    ensures Xor(a, b) < bound
    decreases bits
  {
    if bits > 0 && (a != 0 || b != 0) {
      XorBelow(a / 2, b / 2, bits - 1, Power2(bits - 1));
    }
  }

  function Power2(k: nat): nat {
    if k == 0 then 1 else 2 * Power2(k - 1)
  }

  /** Exclusive or splits into the lowest bit and the rest. */
  lemma XorStep(a: nat, p: nat, b: nat, q: nat)
    requires p < 2 && q < 2
    ensures Xor(2 * a + p, 2 * b + q) == (p + q) % 2 + 2 * Xor(a, b)
  {
    assert (2 * a + p) / 2 == a && (2 * b + q) / 2 == b;
    assert (2 * a + p + (2 * b + q)) % 2 == (p + q) % 2;
  }

  lemma {:induction false} XorCancels(a: nat, b: nat)
    ensures Xor(Xor(a, b), b) == a
  {
    if a == 0 && b == 0 {
    } else {
      XorCancels(a / 2, b / 2);
      XorCancelsStep(a / 2, a % 2, b / 2, b % 2);
    }
  }

  lemma XorCancelsStep(a: nat, p: nat, b: nat, q: nat)
    requires p < 2 && q < 2 && Xor(Xor(a, b), b) == a
    ensures Xor(Xor(2 * a + p, 2 * b + q), 2 * b + q) == 2 * a + p
  {
    hide Xor;
    XorStep(a, p, b, q);
    XorStep(Xor(a, b), (p + q) % 2, b, q);
  }

  /** The bit of weight 2^k. */
  function BitAt(n: nat, k: nat): nat {
    if k == 0 then n % 2 else BitAt(n / 2, k - 1)
  }

  /** Each bit of an exclusive or is set exactly when it is set in one of the two alone. */
  lemma {:induction false} XorIsBitwise(a: nat, b: nat, k: nat)
    ensures BitAt(Xor(a, b), k) == (BitAt(a, k) + BitAt(b, k)) % 2
  {
    if a == 0 && b == 0 {
      NoBits(k);
    } else {
      XorStep(a / 2, a % 2, b / 2, b % 2);
      assert Xor(a, b) / 2 == Xor(a / 2, b / 2);
      if k > 0 {
        XorIsBitwise(a / 2, b / 2, k - 1);
      }
    }
  }

  lemma {:induction false} NoBits(k: nat)
    ensures BitAt(0, k) == 0
  {
    if k > 0 {
      NoBits(k - 1);
    }
  }

  function XorByte(a: byte, b: byte): byte {
    assert Power2(8) == 256;
    XorBelow(a, b, 8, 256);
    Xor(a, b)
  }

  /** Byte-wise exclusive or over the length of `a`; the source always has equal lengths. */
  function XorBytes(a: Bytes, b: Bytes): (r: Bytes)
    requires |a| == |b|
    ensures |r| == |a|
  {
    seq(|a|, i requires 0 <= i < |a| => XorByte(a[i], b[i]))
  }

  lemma XorBytesCancels(a: Bytes, b: Bytes)
    requires |a| == |b|
    ensures XorBytes(XorBytes(a, b), b) == a
  {
    forall i | 0 <= i < |a|
      ensures XorBytes(XorBytes(a, b), b)[i] == a[i]
    {
      XorCancels(a[i], b[i]);
    }
  }

  lemma {:induction false} XorIsSymmetric(a: nat, b: nat)
    ensures Xor(a, b) == Xor(b, a)
  {
    if a != 0 || b != 0 {
      XorIsSymmetric(a / 2, b / 2);
    }
  }

  lemma XorCommutes(a: Bytes, b: Bytes)
    requires |a| == |b|
    ensures XorBytes(a, b) == XorBytes(b, a)
  {
    forall i | 0 <= i < |a|
      ensures XorByte(a[i], b[i]) == XorByte(b[i], a[i])
    {
      XorIsSymmetric(a[i], b[i]);
    }
  }

  /** `u16::to_be_bytes` and `u16::from_be_bytes`. */
  function BigEndian16(v: u16): (r: Bytes)
    ensures |r| == 2
  {
    [v / 0x100, v % 0x100]
  }

  function FromBigEndian16(hi: byte, lo: byte): (v: u16)
  {
    hi * 0x100 + lo
  }

  function Power256(k: nat): (r: nat)
    ensures r > 0
  {
    if k == 0 then 1 else 0x100 * Power256(k - 1)
  }

  /** Pieces put together. */
  function Joined(pieces: seq<Bytes>): Bytes {
    if pieces == [] then [] else Joined(pieces[..|pieces| - 1]) + pieces[|pieces| - 1]
  }
}
