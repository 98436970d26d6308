/**
 Fixed-width big-endian integers, as Go's encoding/binary writes and reads them.
 `Put` keeps the low `w` bytes of its argument, which is what a Go conversion to
 an unsigned type of that width followed by a big-endian write does.
 */
module BigEndian {

  type byte = b: int | 0 <= b < 256
  type Bytes = seq<byte>

  function Pow256(w: nat): (p: nat)
    ensures p >= 1
  {
    if w == 0 then 1 else 256 * Pow256(w - 1)
  }

  function Put(n: nat, w: nat): (s: Bytes)
    ensures |s| == w
  {
    if w == 0 then [] else Put(n / 256, w - 1) + [n % 256]
  }

  function Get(s: Bytes): (n: nat)
  {
    if s == [] then 0 else Get(s[..|s| - 1]) * 256 + s[|s| - 1]
  }

  function Zeros(n: nat): (s: Bytes)
    ensures |s| == n && forall i :: 0 <= i < n ==> s[i] == 0
  {
    seq(n, i => 0)
  }

  /** The quotient and the remainder are determined by the division equation. */
  lemma {:induction false} DivModUnique(n: nat, d: nat, q: nat, r: nat)
    requires d > 0 && n == q * d + r && r < d
    ensures n / d == q && n % d == r
  {
    var q' := n / d;
    assert n == q' * d + n % d;
    if q' > q {
      MulMonotonic(d, q + 1, q');
      assert false;
    }
    if q > q' {
      MulMonotonic(d, q' + 1, q);
      assert false;
    }
  }

  lemma {:induction false} MulMonotonic(d: nat, x: nat, y: nat)
    requires x <= y
    ensures x * d <= y * d
  {
  }

  /** Taking a remainder digit by digit: (256q + r) mod 256p = 256(q mod p) + r. */
  lemma {:induction false} ModByDigit(q: nat, r: nat, p: nat)
    requires r < 256 && p > 0
    ensures (256 * q + r) % (256 * p) == 256 * (q % p) + r
  {
    var k, m := q / p, q % p;
    assert q == k * p + m;
    calc {
      256 * q + r;
      256 * (k * p) + 256 * m + r;
      { MulShuffle(k, p); }
      k * (256 * p) + (256 * m + r);
    }
    DivModUnique(256 * q + r, 256 * p, k, 256 * m + r);
  }

  lemma {:induction false} MulShuffle(k: nat, p: nat)
    ensures 256 * (k * p) == k * (256 * p)
  {
  }

  /** Reading back `w` bytes recovers the value modulo 256^w. */
  lemma {:induction false} GetPut(n: nat, w: nat)
    ensures Get(Put(n, w)) == n % Pow256(w)
  {
    if w > 0 {
      GetPut(n / 256, w - 1);
      assert Put(n, w)[..w - 1] == Put(n / 256, w - 1);
      ModByDigit(n / 256, n % 256, Pow256(w - 1));
    }
  }

  /** A number denoted by `w` bytes fits in `w` bytes. */
  lemma {:induction false} GetBound(s: Bytes)
    ensures Get(s) < Pow256(|s|)
  {
    if s != [] {
      GetBound(s[..|s| - 1]);
    }
  }

  lemma {:induction false} PowTable()
    ensures Pow256(1) == 0x100 && Pow256(2) == 0x1_0000
    ensures Pow256(4) == 0x1_0000_0000 && Pow256(8) == 0x1_0000_0000_0000_0000
  {
    assert Pow256(3) == 256 * Pow256(2);
    assert Pow256(4) == 256 * Pow256(3);
    assert Pow256(5) == 256 * Pow256(4);
    assert Pow256(6) == 256 * Pow256(5);
    assert Pow256(7) == 256 * Pow256(6);
    assert Pow256(8) == 256 * Pow256(7);
  }
}
