/** Machine-level value types shared by both CHIP-8 cores. */
module Bits {

  /** An 8-bit register or memory cell (Rust `u8`): arithmetic on it wraps modulo 256. */
  type byte = bv8

  /** A 16-bit address, stack entry or pointer (Rust `u16`), kept as a bounded integer. */
  type u16 = x: int | 0 <= x < 0x1_0000

  datatype Option<T> = None | Some(value: T)

  /** Bit `i` of `b`, counted from the most significant bit: `(b >> (7 - i)) & 1`. */
  function BitAt(b: byte, i: nat): bool
    requires i < 8
  {
    (b >> (7 - i)) & 1 == 1
  }

  /** The byte a flag or pixel is stored as: 1 for true, 0 for false. */
  function FlagByte(on: bool): (r: byte)
    ensures r == 0 || r == 1
    ensures r == 1 <==> on
  {
    if on then 1 else 0
  }

  /** The value of a flag byte as a number; it is the quotient of a 9-bit sum by 256 when set for a carry. */
  lemma FlagValue(on: bool)
    ensures FlagByte(on) as int == if on then 1 else 0
  {
  }

  lemma CarryQuotient(sum: int)
    requires 0 <= sum < 512
    ensures sum / 256 == if sum > 0xFF then 1 else 0
  {
  }

  /** `n` zero bytes. */
  function Zeros(n: nat): seq<byte>
  {
    seq(n, _ => 0)
  }

  /** `n` zero addresses. */
  function ZeroWords(n: nat): seq<u16>
  {
    seq(n, _ => 0)
  }

  /** A switched-off display buffer of `n` cells. */
  function AllOff(n: nat): seq<bool>
  {
    seq(n, _ => false)
  }

  // ---------------------------------------------------------------------------------------
  // u8 arithmetic in integer terms: the source's wrapping operations are the integer ones
  // reduced modulo 256. The bit-vector steps go through a 16-bit zero extension, where no
  // operation overflows.

  lemma Widen(a: byte)
    ensures a as bv16 as int == a as int
  {
  }

  lemma WideSum(a: byte, b: byte)
    ensures (a as bv16 + b as bv16) as int == a as int + b as int
  {
  }

  lemma PlusPage(t: bv16)
    requires t < 0x100
    ensures (t + 0x100) as int == t as int + 256
  {
  }

  lemma Carry(a: byte, b: byte)
    ensures a as bv16 + b as bv16 == (a + b) as bv16 || a as bv16 + b as bv16 == (a + b) as bv16 + 0x100
  {
  }

  lemma NoBorrow(a: byte, b: byte)
    requires b <= a
    ensures (a - b) as bv16 + b as bv16 == a as bv16
  {
  }

  lemma Borrow(a: byte, b: byte)
    requires a < b
    ensures (a - b) as bv16 + b as bv16 == a as bv16 + 0x100
  {
  }

  lemma NoBorrowInt(a: byte, b: byte)
    requires b <= a
    ensures (a - b) as int + b as int == a as int
  {
    WideSum(a - b, b);
    Widen(a);
    NoBorrow(a, b);
  }

  lemma BorrowInt(a: byte, b: byte)
    requires a < b
    ensures (a - b) as int + b as int == a as int + 256
  {
    WideSum(a - b, b);
    Widen(a);
    Borrow(a, b);
    PlusPage(a as bv16);
  }

  lemma ModUp(n: int, t: int)
    requires 0 <= t < 256 && (n == t || n == t + 256)
    ensures n % 256 == t
  {
  }

  lemma ModDown(n: int, t: int)
    requires 0 <= t < 256 && (n == t || n == t - 256)
    ensures n % 256 == t
  {
  }

  /** The u16 sum of two bytes, cut back to u8 (its low byte), is their u8 sum; it exceeds 0xFF exactly when the integer sum does. */
  lemma WideSumBits(a: byte, b: byte)
    ensures ((a as bv16 + b as bv16) & 0xFF) as byte == a + b
    ensures (a as bv16 + b as bv16 > 0xFF) <==> a as int + b as int > 0xFF
  {
    WideSum(a, b);
  }

  /** A byte known to be the u8 sum of a and b holds (a + b) mod 256. */
  lemma SumIs(a: byte, b: byte, c: byte)
    requires c == a + b
    ensures c as int == (a as int + b as int) % 256
  {
    AddWraps(a, b);
  }

  /** u8 addition (`wrapping_add`, or a u16 sum cast back to u8) is the sum modulo 256. */
  lemma AddWraps(a: byte, b: byte)
    ensures (a + b) as int == (a as int + b as int) % 256
  {
    WideSum(a, b);
    Widen(a + b);
    Carry(a, b);
    if a as bv16 + b as bv16 != (a + b) as bv16 {
      PlusPage((a + b) as bv16);
    }
    ModUp(a as int + b as int, (a + b) as int);
  }

  /** c is a + b, computed on the integers. */
  predicate IsSum(c: byte, a: byte, b: byte)
  {
    c as int == a as int + b as int
  }

  /** c is a - b, computed on the integers. */
  predicate IsDifference(c: byte, a: byte, b: byte)
  {
    c as int == a as int - b as int
  }

  /** A u8 sum that does not overflow is the integer sum. */
  lemma NoCarry(a: byte, b: byte)
    requires a as int + b as int <= 0xFF
    ensures IsSum(a + b, a, b)
  {
    AddWraps(a, b);
    ModUp(a as int + b as int, a as int + b as int);
  }

  /** A u8 difference that does not borrow is the integer difference. */
  lemma NoBorrowDifference(a: byte, b: byte)
    requires a as int >= b as int
    ensures IsDifference(a - b, a, b)
  {
    Compare(b, a);
    NoBorrowInt(a, b);
  }

  /** `wrapping_sub` on u8 is the difference modulo 256. */
  lemma SubWraps(a: byte, b: byte)
    ensures (a - b) as int == (a as int - b as int) % 256
  {
    if b <= a {
      NoBorrowInt(a, b);
    } else {
      BorrowInt(a, b);
    }
    ModDown(a as int - b as int, (a - b) as int);
  }

  /** `>> 1` halves and `& 1` is the lowest bit; `<< 1` doubles modulo 256 and bit 7 is the top bit. */
  lemma Shifts(a: byte)
    ensures (a >> 1) as int == a as int / 2 && (a & 1) as int == a as int % 2
    ensures (a << 1) as int == (a as int * 2) % 256 && ((a & 0x80) >> 7) as int == a as int / 128
  {
  }

  /** u8 `%` by 64 and by 32 is the integer remainder. */
  lemma LowBits(p: byte)
    ensures (p % 64) as int == p as int % 64 && (p % 32) as int == p as int % 32
  {
  }

  /** A counter below 0xFF moves on by one without wrapping. */
  lemma Next(p: byte)
    requires p as int < 0xFF
    ensures (p + 1) as int == p as int + 1
  {
  }

  /** The big-endian word of two bytes, `(hi << 8) | lo`, is hi * 256 + lo. */
  lemma Word(hi: byte, lo: byte)
    ensures (((hi as bv16) << 8) | (lo as bv16)) as int == hi as int * 256 + lo as int
  {
  }

  /** A word is its high byte times 256 plus its low byte. */
  lemma Split(w: bv16)
    ensures w as int == ((w >> 8) as byte) as int * 256 + ((w & 0xFF) as byte) as int
  {
    var hi, lo := (w >> 8) as byte, (w & 0xFF) as byte;
    assert w == ((hi as bv16) << 8) | (lo as bv16);
    Word(hi, lo);
  }

  /** Comparison of bytes is comparison of their values. */
  lemma Compare(a: byte, b: byte)
    ensures a > b <==> a as int > b as int
  {
  }
}
