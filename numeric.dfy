/** C# fixed-width integers and the wrap-around of unchecked arithmetic on them. */
module Numeric {

  /** C# `short`. */
  type Int16 = x: int | -0x8000 <= x < 0x8000
  /** C# `int`. */
  type Int32 = x: int | -0x8000_0000 <= x < 0x8000_0000

  /** How far `x` lies outside the `short` range. */
  function Excess16(x: int): nat {
    if x >= 0x8000 then x else if x < -0x8000 then -x else 0
  }

  /**
   * Two's-complement 16-bit wrap-around: a `(short)` cast or `short` increment.
   * A value outside the range is moved by 2^16 towards it until it fits.
   */
  function Wrap16(x: int): (r: Int16)
    ensures -0x8000 <= x < 0x8000 ==> r == x
    decreases Excess16(x)
  {
    if x >= 0x8000 then Wrap16(x - 0x1_0000)
    else if x < -0x8000 then Wrap16(x + 0x1_0000)
    else x
  }

  /** Two's-complement 32-bit wrap-around of unchecked `int` arithmetic. */
  function Wrap32(x: int): (r: Int32)
    ensures -0x8000_0000 <= x < 0x8000_0000 ==> r == x
  {
    (x + 0x8000_0000) % 0x1_0000_0000 - 0x8000_0000
  }

  /** A wrapped `short` is congruent to the exact value modulo 2^16. */
  lemma {:induction false} Wrap16Congruent(x: int)
    ensures (Wrap16(x) - x) % 0x1_0000 == 0
    decreases Excess16(x)
  {
    if x >= 0x8000 {
      Wrap16Congruent(x - 0x1_0000);
      ModShift(Wrap16(x) - x, 1);
    } else if x < -0x8000 {
      Wrap16Congruent(x + 0x1_0000);
      ModShift(Wrap16(x) - x, -1);
    }
  }

  /** Wrapping ignores multiples of 2^16. */
  lemma Wrap16Shift(x: int)
    ensures Wrap16(x + 0x1_0000) == Wrap16(x)
  {
  }

  /** A wrapped `int` is congruent to the exact value modulo 2^32. */
  lemma Wrap32Congruent(x: int)
    ensures (Wrap32(x) - x) % 0x1_0000_0000 == 0
  {
    var q := (x + 0x8000_0000) / 0x1_0000_0000;
    assert x + 0x8000_0000 == q * 0x1_0000_0000 + (x + 0x8000_0000) % 0x1_0000_0000;
    assert Wrap32(x) - x == -q * 0x1_0000_0000;
  }

  /** Incrementing a wrapped counter is wrapping the incremented count. */
  lemma {:induction false} WrapStep(i: int)
    ensures Wrap16(Wrap16(i) + 1) == Wrap16(i + 1)
    decreases Excess16(i)
  {
    if i >= 0x8000 {
      WrapStep(i - 0x1_0000);
      Wrap16Shift(i + 1 - 0x1_0000);
    } else if i < -0x8000 {
      WrapStep(i + 0x1_0000);
      Wrap16Shift(i + 1);
    }
  }

  lemma ModShift(x: int, q: int)
    ensures (x + q * 0x1_0000) % 0x1_0000 == x % 0x1_0000
  {
    var m := x % 0x1_0000;
    var d := x / 0x1_0000;
    assert x == d * 0x1_0000 + m;
    assert x + q * 0x1_0000 == (d + q) * 0x1_0000 + m;
  }
}
