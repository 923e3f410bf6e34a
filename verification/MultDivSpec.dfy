/** What the M extension asks of the multiply/divide unit: sections 7.1 and 7.2 of the
    RISC-V Unprivileged ISA 20190608, over mathematical integers. */
module MultDivSpec {
  import opened Bits

  datatype Operator = MULL | MULH | DIV | REM

  /** One operation as the ID stage presents it. `signA` and `signB` are the two bits of
      `signed_mode_i`. */
  datatype Request = Request(op: Operator, signA: bool, signB: bool, a: U32, b: U32) {
    /** The operands as integers, read in the mode their sign bits select. */
    function A(): int { Reading(a, signA) }
    function B(): int { Reading(b, signB) }
    predicate NegativeA() { signA && a >= TWO31 }
    predicate NegativeB() { signB && b >= TWO31 }
    predicate IsMul() { op.MULL? || op.MULH? }
  }

  function Reading(x: U32, signed: bool): int {
    if signed && x >= TWO31 then x - TWO32 else x
  }

  function Abs(x: int): nat {
    if x < 0 then -x else x
  }

  /** Quotient rounded towards zero. */
  function TruncDiv(a: int, b: int): int
    requires b != 0
  {
    var q := Abs(a) / Abs(b);
    if (a < 0) != (b < 0) then -q else q
  }

  /** Remainder with the sign of the dividend. */
  function TruncRem(a: int, b: int): int
    requires b != 0
  {
    var r := Abs(a) % Abs(b);
    if a < 0 then -r else r
  }

  function Result(req: Request): (r: U32) {
    match req.op
    case MULL => (req.A() * req.B()) % TWO32
    case MULH => (req.A() * req.B()) / TWO32 % TWO32
    case DIV => if req.B() == 0 then TWO32 - 1 else TruncDiv(req.A(), req.B()) % TWO32
    case REM => if req.B() == 0 then req.A() % TWO32 else TruncRem(req.A(), req.B()) % TWO32
  }

  /** The two functions are division with truncation: they recompose the dividend, the
      remainder is smaller than the divisor and never has the opposite sign. */
  lemma TruncDivRem(a: int, b: int)
    requires b != 0
    ensures a == b * TruncDiv(a, b) + TruncRem(a, b)
    ensures Abs(TruncRem(a, b)) < Abs(b)
    ensures a >= 0 ==> TruncRem(a, b) >= 0
    ensures a <= 0 ==> TruncRem(a, b) <= 0
  {
    var n: int, q: int := Abs(b), Abs(a) / Abs(b);
    assert Abs(a) == n * q + Abs(a) % n;
    ProductSigns(n, q);
  }

  lemma ProductSigns(x: int, y: int)
    ensures x * -y == -(x * y) && -x * y == -(x * y) && -x * -y == x * y
  {
  }

  /** The sign of the operands does not reach the low word of a product. */
  lemma LowWordIgnoresSigns(req: Request)
    ensures (req.A() * req.B()) % TWO32 == (req.a * req.b) % TWO32
  {
    assert req.A() % TWO32 == req.a % TWO32;
    assert req.B() % TWO32 == req.b % TWO32;
    ModMul(req.A(), req.a, req.B(), TWO32);
    ModMul(req.B(), req.b, req.a, TWO32);
  }

  // ------------------------------------------------------------------ division by magnitudes

  /** The dividers work on magnitudes: the numerator's and the divisor's. */
  function N(req: Request): nat { Abs(req.A()) }
  function D(req: Request): nat { Abs(req.B()) }

  lemma MagnitudeA(req: Request)
    ensures N(req) == if req.NegativeA() then (0 - req.a) % TWO32 else req.a
    ensures N(req) < TWO32
  {
  }

  lemma MagnitudeB(req: Request)
    ensures D(req) == if req.NegativeB() then (0 - req.b) % TWO32 else req.b
    ensures D(req) < TWO32 && (D(req) == 0 <==> req.b == 0)
  {
  }

  /** The magnitude the loop leaves: quotient or remainder of the magnitudes. */
  function Magnitude(req: Request): int
    requires D(req) > 0
  {
    if req.op.DIV? then N(req) / D(req) else N(req) % D(req)
  }

  /** Whether the units negate it. */
  predicate Negate(req: Request) {
    if req.op.DIV? then req.NegativeA() != req.NegativeB() else req.NegativeA()
  }

  lemma QuotientBounds(n: nat, d: nat)
    requires n < TWO32 && d > 0
    ensures 0 <= n / d < TWO32
    ensures d < TWO32 ==> 0 <= n % d < TWO32
  {
    MulMono(1, d, n / d);
    assert n == d * (n / d) + n % d;
  }

  lemma SignedResult(req: Request)
    requires !req.IsMul() && D(req) > 0
    ensures 0 <= Magnitude(req) < TWO32
    ensures Result(req) == if Negate(req) then (0 - Magnitude(req)) % TWO32 else Magnitude(req)
  {
    MagnitudeA(req);
    MagnitudeB(req);
    QuotientBounds(N(req), D(req));
    var x := Magnitude(req);
    if req.op.DIV? {
      assert Result(req) == TruncDiv(req.A(), req.B()) % TWO32;
      assert TruncDiv(req.A(), req.B()) == if Negate(req) then -x else x;
    } else {
      assert TruncRem(req.A(), req.B()) == if Negate(req) then -x else x;
    }
    Fits(x);
  }
}

/** Time measured in cycles with an enable. */
module EnabledTime {

  function EnabledCycles<T>(ins: seq<T>, enabled: T -> bool): nat {
    if ins == [] then 0
    else EnabledCycles(ins[..|ins| - 1], enabled) + if enabled(ins[|ins| - 1]) then 1 else 0
  }

  lemma EnabledCyclesNext<T>(ins: seq<T>, enabled: T -> bool, k: nat)
    requires 0 < k <= |ins|
    ensures EnabledCycles(ins[..k], enabled)
         == EnabledCycles(ins[..k - 1], enabled) + if enabled(ins[k - 1]) then 1 else 0
  {
    assert ins[..k][..k - 1] == ins[..k - 1];
  }

  function Countdown(total: nat, gone: nat): nat {
    if gone <= total then total - gone else 0
  }
}

/** The restoring division both divider units run, one quotient bit a cycle. */
module RestoringDivision {
  import opened Bits

  function BitAt(x: nat, i: nat): nat {
    x / Pow2(i) % 2
  }

  /** `x | (1 << i)` */
  function SetBit(x: nat, i: nat): nat {
    if BitAt(x, i) == 1 then x else x + Pow2(i)
  }

  /** Before quotient bit `c` of `n / d` is decided: `q` holds the bits above `c`, and `r`
      what is left of the numerator's top bits once `q` times the divisor is taken off. */
  ghost predicate Partial(n: nat, d: nat, c: nat, q: nat, r: int) {
    && q % Pow2(c + 1) == 0
    && n / Pow2(c) == q / Pow2(c + 1) * 2 * d + r
    && 0 <= r < 2 * d
  }

  /** The comparison the units make on 32 bits only: equal top bits, then the top bit of the
      difference; otherwise the top bit of the remainder decides. */
  predicate GreaterEqual(r: int, d: int, difference: int) {
    if r / TWO31 % 2 == d / TWO31 % 2 then difference / TWO31 % 2 == 0 else r / TWO31 % 2 == 1
  }

  /** `{x, 1'b1}` and `{~x, 1'b1}`: together in the ALU's adder they give a difference. */
  function Plus(x: int): int { 2 * x + 1 }
  function Minus(x: int): int { 2 * (TWO32 - 1 - x) + 1 }

  lemma Negation(x: U32)
    ensures (Plus(0) + Minus(x)) / 2 % TWO32 == (0 - x) % TWO32
  {
  }

  /** The bit counter of five bits. */
  function Dec5(x: int): int { (x - 1) % 32 }

  lemma ComparisonIsExact(r: int, d: int)
    requires 0 <= r < TWO32 && 0 <= d < TWO32
    ensures GreaterEqual(r, d, r + TWO32 - d) <==> r >= d
  {
  }

  lemma PartialStart(n: nat, d: nat)
    requires n < TWO32 && d > 0
    ensures Partial(n, d, 31, 0, BitAt(n, 31)) && BitAt(n, 31) < 2
  {
    Pow2Of32();
  }

  /** The partial remainder never exceeds the numerator's prefix, so it fits 32 bits. */
  lemma PartialBound(n: nat, d: nat, c: nat, q: nat, r: int)
    requires Partial(n, d, c, q, r) && n < TWO32
    ensures r <= n / Pow2(c) <= n < TWO32
  {
    hide Pow2;
    PrefixBound(n, Pow2(c));
    MulMono(0, q / Pow2(c + 1) * 2, d);
  }

  lemma PrefixBound(n: nat, p: nat)
    requires p > 0
    ensures 0 <= n / p <= n
  {
    MulMono(1, p, n / p);
  }

  /** Deciding bit `c`. */
  lemma PartialDecide(n: nat, d: nat, c: nat, q: nat, r: int)
    requires Partial(n, d, c, q, r)
    ensures var (q', r') := if r >= d then (SetBit(q, c), r - d) else (q, r);
            && q' % Pow2(c) == 0
            && n / Pow2(c) == q' / Pow2(c) * d + r'
            && 0 <= r' < d
            && q' <= n
  {
    DecideAt(n, d, Pow2(c), q, r);
    var k := q / Pow2(c + 1);
    EvenMultiple(q, Pow2(c), k);
  }

  lemma DecideAt(n: nat, d: nat, p: nat, q: nat, r: int)
    requires p > 0 && q % (2 * p) == 0
    requires n / p == q / (2 * p) * 2 * d + r && 0 <= r < 2 * d
    ensures var (q', r') := if r >= d then (q + p, r - d) else (q, r);
            && q' % p == 0
            && n / p == q' / p * d + r'
            && q' <= n
  {
    var k := q / (2 * p);
    EvenMultiple(q, p, k);
    if r >= d {
      assert (2 * k + 1) * d == k * 2 * d + d;
      MultipleBound(n, d, p, 2 * k + 1, r - d);
    } else {
      assert (2 * k) * d == k * 2 * d;
      MultipleBound(n, d, p, 2 * k, r);
    }
  }

  lemma EvenMultiple(q: nat, p: nat, k: nat)
    requires p > 0 && q % (2 * p) == 0 && k == q / (2 * p)
    ensures q == (2 * k) * p && q % p == 0 && q / p == 2 * k
    ensures q + p == (2 * k + 1) * p && (q + p) % p == 0 && (q + p) / p == 2 * k + 1
  {
    assert q == (2 * p) * k == (2 * k) * p;
    ModUnique(q, p, 2 * k, 0);
    ModUnique(q + p, p, 2 * k + 1, 0);
  }

  lemma MultipleBound(n: nat, d: nat, p: nat, k: nat, r: nat)
    requires p > 0 && d > 0 && n / p == k * d + r
    ensures k * p <= n
  {
    MulMono(1, d, k);
    MulMono(k, n / p, p);
  }

  /** Bringing down the next numerator bit. */
  lemma PartialNext(n: nat, d: nat, c: nat, q: nat, r: int)
    requires c > 0 && q % Pow2(c) == 0 && n / Pow2(c) == q / Pow2(c) * d + r && 0 <= r < d
    ensures Partial(n, d, c - 1, q, 2 * r + BitAt(n, c - 1))
  {
    var p := Pow2(c - 1);
    assert Pow2(c) == 2 * p;
    hide Pow2;
    PrefixNext(n, p);
    assert q / Pow2(c) * 2 * d == 2 * (q / Pow2(c) * d);
  }

  lemma PrefixNext(n: nat, p: nat)
    requires p > 0
    ensures n / p == 2 * (n / (2 * p)) + n / p % 2
  {
    DivDiv(n, p, 2);
  }

  lemma PartialFinish(n: nat, d: nat, q: nat, r: int)
    requires n / Pow2(0) == q / Pow2(0) * d + r && 0 <= r < d
    ensures q == n / d && r == n % d
  {
    ModUnique(n, d, q, r);
  }
}
