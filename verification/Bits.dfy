/** Unsigned fields of fixed width as bounded integers, and the floor-division facts
    the arithmetic units rest on. */
module Bits {

  const TWO16 := 0x1_0000
  const TWO31 := 0x8000_0000
  const TWO32 := 0x1_0000_0000
  const TWO33 := 0x2_0000_0000
  const TWO34 := 0x4_0000_0000

  type U32 = x: int | 0 <= x < TWO32

  function Pow2(n: nat): (p: nat)
    ensures p >= 1
  {
    if n == 0 then 1 else 2 * Pow2(n - 1)
  }

  lemma {:induction false} Pow2Add(m: nat, n: nat)
    ensures Pow2(m + n) == Pow2(m) * Pow2(n)
  {
    if m == 0 {
    } else {
      Pow2Add(m - 1, n);
      assert Pow2(m + n) == 2 * Pow2(m - 1 + n);
    }
  }

  lemma Pow2Of32()
    ensures Pow2(16) == TWO16 && Pow2(31) == TWO31 && Pow2(32) == TWO32
  {
    assert Pow2(4) == 16;
    Pow2Add(4, 4);
    Pow2Add(8, 8);
    Pow2Add(16, 16);
    assert Pow2(32) == 2 * Pow2(31);
  }

  /** Number of significant bits. */
  function BitLen(x: nat): (n: nat)
    ensures n == 0 <==> x == 0
  {
    if x == 0 then 0 else 1 + BitLen(x / 2)
  }

  /** Two's complement reading of a 34-bit field. */
  function Signed34(x: int): int {
    if x < TWO33 then x else x - TWO34
  }

  /** The 34-bit field holding `x`, any bits above discarded. */
  function Field34(x: int): (r: int)
    ensures 0 <= r < TWO34
    ensures -TWO33 <= x < TWO33 ==> Signed34(r) == x
  {
    x % TWO34
  }

  lemma Fits(x: int)
    requires 0 <= x < TWO32
    ensures x % TWO32 == x && x % TWO33 == x && x % TWO34 == x
  {
  }

  lemma MulMono(a: int, b: int, c: int)
    requires a <= b && 0 <= c
    ensures a * c <= b * c
  {
  }

  /** Division is characterised by its remainder bounds. */
  lemma DivUnique(x: int, m: int, q: int)
    requires m > 0 && m * q <= x < m * q + m
    ensures x / m == q
  {
    var d := x / m - q;
    assert x == m * (x / m) + x % m;
    assert m * (x / m) == m * q + m * d;
    if d >= 1 {
      MulMono(1, d, m);
      assert false;
    } else if d <= -1 {
      MulMono(d, -1, m);
      assert false;
    }
  }

  lemma ModUnique(x: int, m: int, q: int, r: int)
    requires m > 0 && x == m * q + r && 0 <= r < m
    ensures x / m == q && x % m == r
  {
    DivUnique(x, m, q);
    assert x == m * (x / m) + x % m;
  }

  lemma DivAddMultiple(x: int, k: int, m: int)
    requires m > 0
    ensures (x + k * m) / m == x / m + k
  {
    var q := x / m;
    assert x == m * q + x % m;
    assert m * (q + k) == m * q + k * m;
    DivUnique(x + k * m, m, q + k);
  }

  /** Dropping bits in two steps is dropping them at once. */
  lemma DivDiv(x: int, m: int, n: int)
    requires m > 0 && n > 0
    ensures m * n > 0
    ensures (x / m) / n == x / (m * n)
  {
    MulMono(1, m, n);
    var q := x / m;
    var p := q / n;
    assert x == m * q + x % m;
    assert q == n * p + q % n;
    var t := q % n;
    assert m * q == m * (n * p) + m * t;
    assert m * (n * p) == (m * n) * p;
    MulMono(0, t, m);
    MulMono(t, n - 1, m);
    assert m * t <= m * (n - 1);
    assert m * (n - 1) == m * n - m;
    DivUnique(x, m * n, p);
  }

  lemma ModMulAdd(x: int, k: int, m: int)
    requires m > 0
    ensures (x + k * m) % m == x % m
  {
    var q := x / m;
    assert x == m * q + x % m;
    assert m * (q + k) == m * q + k * m;
    ModUnique(x + k * m, m, q + k, x % m);
  }

  /** Congruence survives multiplication. */
  lemma ModMul(x: int, y: int, z: int, m: int)
    requires m > 0 && x % m == y % m
    ensures (x * z) % m == (y * z) % m
  {
    var k := x / m - y / m;
    assert x == m * (x / m) + x % m;
    assert y == m * (y / m) + y % m;
    assert m * (x / m) == m * (y / m) + m * k;
    assert x == y + k * m;
    assert x * z == y * z + (k * z) * m;
    ModMulAdd(y * z, k * z, m);
  }
}
