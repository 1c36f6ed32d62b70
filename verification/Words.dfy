/**
 16-bit words, bytes and the 64 KiB memory of the Irid machine.
 Every register and address is a value modulo 2^16; memory is little-endian.
 */
module Words {

  datatype Option<+T> = None | Some(value: T)

  type u8 = x: int | 0 <= x < 0x100
  type u16 = x: int | 0 <= x < 0x1_0000

  /** The value a C `u16` holds after an assignment from a wider integer. */
  function Wrap(x: int): u16 {
    x % 0x1_0000
  }

  lemma WrapAdd(x: int, y: int)
    ensures Wrap(x + Wrap(y)) == Wrap(x + y) && Wrap(Wrap(x) + y) == Wrap(x + y)
  {
  }

  lemma WrapSub(x: int, y: int)
    ensures Wrap(x - Wrap(y)) == Wrap(x - y) && Wrap(Wrap(x) - y) == Wrap(x - y)
  {
  }

  lemma WrapMul(x: int, y: int)
    ensures Wrap(x * y) == Wrap(Wrap(x) * Wrap(y))
  {
    var q, p := x / 0x1_0000, y / 0x1_0000;
    var x', y' := Wrap(x), Wrap(y);
    assert x == q * 0x1_0000 + x' && y == p * 0x1_0000 + y';
    assert x * y == x' * y' + (q * y + x' * p) * 0x1_0000 by {
      assert x * y == q * 0x1_0000 * y + x' * y;
      assert x' * y == x' * (p * 0x1_0000) + x' * y';
    }
    WrapPlusMultiple(x' * y', q * y + x' * p);
  }

  lemma WrapPlusMultiple(x: int, k: int)
    ensures Wrap(x + k * 0x1_0000) == Wrap(x)
  {
  }

  function Lo(x: u16): u8 {
    x % 0x100
  }

  function Hi(x: u16): u8 {
    x / 0x100
  }

  function Word(lo: u8, hi: u8): u16 {
    lo + 0x100 * hi
  }

  type Memory = m: seq<u8> | |m| == 0x1_0000 witness seq(0x1_0000, _ => 0)

  /** A 16-bit access needs both bytes to exist: address 0xffff has no second byte. */
  function Read16(m: Memory, a: u16): u16
    requires a < 0xffff
  {
    Word(m[a], m[a + 1])
  }

  function Write16(m: Memory, a: u16, v: u16): Memory
    requires a < 0xffff
  {
    m[a := Lo(v)][a + 1 := Hi(v)]
  }

  /** The two memories agree everywhere outside [lo, hi). */
  ghost predicate SameOutside(m: Memory, n: Memory, lo: int, hi: int) {
    forall a :: 0 <= a < 0x1_0000 && !(lo <= a < hi) ==> m[a] == n[a]
  }

  /** The two memories agree at and above `lo`. */
  ghost predicate SameAbove(m: Memory, n: Memory, lo: int) {
    forall a :: 0 <= a < 0x1_0000 && lo <= a ==> m[a] == n[a]
  }

  /** Bitwise AND of two words, one bit at a time. */
  function And16(x: nat, y: nat): (r: nat)
    ensures r <= x && r <= y
  {
    if x == 0 || y == 0 then 0
    else 2 * And16(x / 2, y / 2) + (if x % 2 == 1 && y % 2 == 1 then 1 else 0)
  }

  /** Bitwise OR of two words, one bit at a time. */
  function Or16(x: nat, y: nat): (r: nat)
    ensures x <= r && y <= r && r <= x + y
  {
    if x == 0 then y
    else if y == 0 then x
    else 2 * Or16(x / 2, y / 2) + (if x % 2 == 1 || y % 2 == 1 then 1 else 0)
  }

  function Pow2(k: nat): (r: nat)
    ensures r >= 1
  {
    if k == 0 then 1 else 2 * Pow2(k - 1)
  }

  lemma {:induction false} Or16Fits(x: nat, y: nat, k: nat)
    requires x < Pow2(k) && y < Pow2(k)
    ensures Or16(x, y) < Pow2(k)
  {
    if x != 0 && y != 0 {
      Or16Fits(x / 2, y / 2, k - 1);
    }
  }

  lemma Pow2Of16()
    ensures Pow2(8) == 0x100 && Pow2(16) == 0x1_0000
  {
    assert Pow2(4) == 16;
    assert Pow2(8) == 0x100;
    assert Pow2(12) == 0x1000;
  }

  /** One bit of an AND whose second operand is odd. */
  lemma And16Odd(x: nat, y: nat)
    requires y % 2 == 1
    ensures And16(x, y) == 2 * And16(x / 2, y / 2) + x % 2 && And16(x, 0) == 0
  {
  }

  /** Two bits of an AND whose second operand has both low bits set. */
  lemma And16Two(x: nat, y: nat)
    requires y % 4 == 3
    ensures And16(x, y) == 4 * And16(x / 4, y / 4) + x % 4
  {
    hide And16;
    And16Odd(x, y);
    And16Odd(x / 2, y / 2);
    assert x / 2 / 2 == x / 4 && y / 2 / 2 == y / 4;
  }

  /** Four bits of an AND whose second operand has its four low bits set. */
  lemma And16Four(x: nat, y: nat)
    requires y % 16 == 15
    ensures And16(x, y) == 16 * And16(x / 16, y / 16) + x % 16
  {
    hide And16;
    And16Two(x, y);
    And16Two(x / 4, y / 4);
    assert x / 4 / 4 == x / 16 && y / 4 / 4 == y / 16 && x % 16 == 4 * (x / 4 % 4) + x % 4;
  }

  /** Masking with 0xff keeps exactly the low byte. */
  lemma And16Byte(x: u16)
    ensures And16(x, 0xff) == x % 0x100
  {
    hide And16;
    And16Four(x, 0xff);
    And16Four(x / 16, 0xf);
    And16Odd(x / 256, 1);
    assert x / 16 / 16 == x / 256 && x % 256 == 16 * (x / 16 % 16) + x % 16;
  }

  lemma Write16Read16(m: Memory, a: u16, v: u16)
    requires a < 0xffff
    ensures Read16(Write16(m, a, v), a) == v
  {
  }
}
