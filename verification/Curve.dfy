/** The byte test for canonical field elements (libsignal/rust/core/src/curve.rs:174-184) against
    the number the bytes stand for in section 5 of RFC 7748. */
module Curve {
  import opened Bytes

  /** Little-endian decoding. */
  function LittleEndian(b: Bytes): nat {
    if b == [] then 0 else b[0] + 0x100 * LittleEndian(b[1..])
  }

  /** 2^255 - 19. */
  function FieldPrime(): int {
    0x80 * Power256(31) - 19
  }

  /** `scalar_is_in_range`: not (the high bit is set, or all bits above the lowest byte are set and
      that byte is too large). `0u8.wrapping_sub(19)` is 237. */
  predicate ScalarIsInRange(k: Bytes)
    requires |k| == 32
  {
    !(k[31] >= 0x80 || (k[0] >= 237 && k[1..31] == seq(30, _ => 0xFF) && k[31] == 0x7F))
  }

  /** A number is below its power of 256, and as large as it can be exactly when all bytes are 255. */
  lemma {:induction false} LittleEndianBelow(b: Bytes)
    ensures LittleEndian(b) < Power256(|b|)
    ensures LittleEndian(b) == Power256(|b|) - 1 <==> b == seq(|b|, _ => 0xFF)
  {
    if b != [] {
      LittleEndianBelow(b[1..]);
      if b[1..] == seq(|b| - 1, _ => 0xFF) && b[0] == 0xFF {
        assert b == [b[0]] + b[1..];
      }
    }
  }

  lemma {:induction false} LittleEndianLast(b: Bytes, last: byte)
    ensures LittleEndian(b + [last]) == LittleEndian(b) + Power256(|b|) * last
  {
    if b == [] {
      assert b + [last] == [last];
      assert LittleEndian([last]) == last;
    } else {
      assert (b + [last])[1..] == b[1..] + [last];
      LittleEndianLast(b[1..], last);
    }
  }

  /** The test holds exactly when the number is below the prime. */
  lemma InRangeIff(k: Bytes)
    requires |k| == 32
    ensures ScalarIsInRange(k) <==> LittleEndian(k) < FieldPrime()
  {
    hide LittleEndian, Power256;
    var mid := k[1..31];
    Split(k);
    LittleEndianBelow(mid);
    LittleEndianLast(mid, k[31]);
    Decides(k[0], LittleEndian(mid), k[31], Power256(30));
    NextPower();
  }

  lemma Split(k: Bytes)
    requires |k| == 32
    ensures LittleEndian(k) == k[0] + 0x100 * LittleEndian(k[1..31] + [k[31]])
  {
    assert k[1..] == k[1..31] + [k[31]];
  }

  lemma NextPower()
    ensures Power256(31) == 0x100 * Power256(30)
  {
  }

  /** The arithmetic of it: a low byte, thirty bytes of value `mid` below `p`, and a high byte. */
  lemma Decides(low: byte, mid: nat, high: byte, p: nat)
    requires mid < p
    ensures low + 0x100 * (mid + p * high) < 0x80 * (0x100 * p) - 19
      <==> !(high >= 0x80 || (low >= 237 && mid == p - 1 && high == 0x7F))
  {
    if high >= 0x80 {
      assert p * high >= p * 0x80;
    } else if high < 0x7F {
      assert p * high <= p * 0x7E;
    }
  }
}
