/**
  Unsigned 32-bit arithmetic (`uint32_t`) on natural numbers below 2^32:
  addition wraps modulo 2^32, shifts drop the bits pushed out, and the
  bitwise operators are defined one bit at a time from the least
  significant bit up.
 */
module Words {

  const Modulus: nat := 0x1_0000_0000

  type Word = x: nat | x < 0x1_0000_0000

  /** 2^n for the shift amounts a 32-bit word admits. */
  function Pow2(n: nat): (p: nat)
    requires n <= 32
    ensures p >= 1
  {
    match n
      case 0 => 0x1
      case 1 => 0x2
      case 2 => 0x4
      case 3 => 0x8
      case 4 => 0x10
      case 5 => 0x20
      case 6 => 0x40
      case 7 => 0x80
      case 8 => 0x100
      case 9 => 0x200
      case 10 => 0x400
      case 11 => 0x800
      case 12 => 0x1000
      case 13 => 0x2000
      case 14 => 0x4000
      case 15 => 0x8000
      case 16 => 0x10000
      case 17 => 0x20000
      case 18 => 0x40000
      case 19 => 0x80000
      case 20 => 0x100000
      case 21 => 0x200000
      case 22 => 0x400000
      case 23 => 0x800000
      case 24 => 0x1000000
      case 25 => 0x2000000
      case 26 => 0x4000000
      case 27 => 0x8000000
      case 28 => 0x10000000
      case 29 => 0x20000000
      case 30 => 0x40000000
      case 31 => 0x80000000
      case _ => 0x1_0000_0000
  }

  lemma Pow2Of32()
    ensures Pow2(32) == Modulus
  {
  }

  /** Bitwise exclusive or of the low `n` bits of `x` and `y`. */
  function XorBits(x: nat, y: nat, n: nat): (r: nat)
    requires n <= 32
    ensures r < Pow2(n)
  {
    if n == 0 then 0 else 2 * XorBits(x / 2, y / 2, n - 1) + (x % 2 + y % 2) % 2
  }

  /** Bitwise and of the low `n` bits of `x` and `y`. */
  function AndBits(x: nat, y: nat, n: nat): (r: nat)
    requires n <= 32
    ensures r < Pow2(n)
  {
    if n == 0 then 0 else 2 * AndBits(x / 2, y / 2, n - 1) + (x % 2 + y % 2) / 2
  }

  /** Bitwise or of the low `n` bits of `x` and `y`. */
  function OrBits(x: nat, y: nat, n: nat): (r: nat)
    requires n <= 32
    ensures r < Pow2(n)
  {
    if n == 0 then 0 else 2 * OrBits(x / 2, y / 2, n - 1) + (x % 2 + y % 2 + 1) / 2
  }

  /** `x ^ y` */
  function Xor(x: Word, y: Word): Word { Pow2Of32(); XorBits(x, y, 32) }

  /** `x & y` */
  function And(x: Word, y: Word): Word { Pow2Of32(); AndBits(x, y, 32) }

  /** `x | y` */
  function Or(x: Word, y: Word): Word { Pow2Of32(); OrBits(x, y, 32) }

  /** `~x` */
  function Not(x: Word): Word { Modulus - 1 - x }

  /** `x + y`, wrapping modulo 2^32. */
  function Add(x: Word, y: Word): Word { (x + y) % Modulus }

  /** `x >> n` */
  function Shr(x: Word, n: nat): Word
    requires n <= 32
  {
    x / Pow2(n)
  }

  /** `x << n`, dropping the bits shifted past bit 31. */
  function Shl(x: Word, n: nat): Word
    requires n <= 32
  {
    (x * Pow2(n)) % Modulus
  }

  /** `ror(x, n)`: rotate right by `n` bits, as `(x >> n) | (x << (32 - n))`. */
  function Ror(x: Word, n: nat): Word
    requires 0 < n < 32
  {
    Or(Shr(x, n), Shl(x, 32 - n))
  }
}
