/** Go's fixed-width integers as ranges of int, with the wrap-around written out. */
module Integers {

  const U32: nat := 0x1_0000_0000
  const U64: nat := 0x1_0000_0000_0000_0000

  type u8 = x: int | 0 <= x < 0x100
  type u16 = x: int | 0 <= x < 0x1_0000
  type u32 = x: int | 0 <= x < 0x1_0000_0000
  type u64 = x: int | 0 <= x < 0x1_0000_0000_0000_0000
  type i64 = x: int | -0x8000_0000_0000_0000 <= x < 0x8000_0000_0000_0000

  const MaxI64: i64 := 0x7fff_ffff_ffff_ffff

  /** A conversion or an arithmetic result in uint64. */
  function Wrap(n: int): u64 { n % U64 }

  /** Addition in uint64. */
  function Plus(a: int, b: int): u64 { Wrap(a + b) }

  /** A conversion or an arithmetic result in uint32. */
  function Wrap32(n: int): u32 { n % U32 }

  /** A conversion or an arithmetic result in int64. */
  function SignedWrap(n: int): i64 { (n + 0x8000_0000_0000_0000) % U64 - 0x8000_0000_0000_0000 }

  lemma {:induction false} SignedWrapIff(n: int)
    requires -0x8000_0000_0000_0000 <= n < 0x1_8000_0000_0000_0000
    ensures SignedWrap(n) == if n <= MaxI64 then n else n - U64
  {
  }

  lemma {:induction false} WrapSmall(n: u64)
    ensures Wrap(n) == n
  {
  }

  lemma {:induction false} WrapZero()
    ensures Wrap(0) == 0
  {
  }

  lemma {:induction false} WrapAdd(a: int, b: int)
    ensures Wrap(Wrap(a) + b) == Wrap(a + b) == Wrap(a + Wrap(b))
  {
  }

  // Division ------------------------------------------------------------------------------------

  lemma {:induction false} DivUnique(n: int, b: int, q: int, r: int)
    requires n == q * b + r && 0 <= r < b
    ensures n / b == q
  {
    var d := n / b - q;
    assert n == (n / b) * b + n % b;
    assert d * b == r - n % b by {
      assert (n / b) * b - q * b == d * b;
    }
    Multiple(d, b);
  }

  lemma {:induction false} Multiple(d: int, b: int)
    requires b > 0
    ensures d >= 1 ==> d * b >= b
    ensures d <= -1 ==> d * b <= -b
  {
    if d >= 1 {
      assert (d - 1) * b >= 0;
    } else if d <= -1 {
      assert (-d - 1) * b >= 0;
    }
  }

  lemma {:induction false} DivSmaller(n: nat, d: int)
    requires d > 0
    ensures 0 <= n / d <= n
  {
    var q := n / d;
    assert n == d * q + n % d;
    Multiple(q, d);
    Grows(q, d);
  }

  lemma {:induction false} Grows(a: int, b: int)
    requires b > 0
    ensures a >= 0 ==> a <= b * a
    ensures b * a == a * b
  {
    if a >= 0 {
      assert a * (b - 1) >= 0;
    }
  }
}
