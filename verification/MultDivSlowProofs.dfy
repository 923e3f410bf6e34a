/** The slow multiplier/divider meets the M extension, in a known number of cycles. */
module MultDivSlowProofs {
  import opened Bits
  import opened MultDivSpec
  import opened RestoringDivision
  import opened EnabledTime
  import opened MultDivSlow

  predicate Enabled(i: Inputs) { i.multEn || i.divEn }

  /** The ID stage holds the request steady and selects the half of the unit it needs. */
  predicate Driving(i: Inputs, req: Request) {
    && i.req == req
    && i.multSel == req.IsMul() && i.divSel == !req.IsMul()
    && (i.multEn ==> i.multSel) && (i.divEn ==> i.divSel)
  }

  /** The intermediate value register is written without looking at the enables, so an
      operation that has left MD_IDLE must stay enabled. */
  predicate Legal(s: Regs, i: Inputs, req: Request) {
    Driving(i, req) && (!s.md.MD_IDLE? ==> Enabled(i))
  }

  // ------------------------------------------------------------------ what every state holds

  /** MULL: what is accumulated plus what is still to be added is the product. */
  ghost predicate MullHolds(s: Regs, req: Request) {
    (s.Accum() + s.opAShift * s.opBShift) % TWO32 == (req.a * req.b) % TWO32
  }

  /** The biased, shifted sum of the partial products of `a` with the `d` lowest bits of `b`. */
  function Biased(a: int, b: nat, d: nat): int { TWO32 + (TWO32 + a * (b % Pow2(d))) / Pow2(d) }

  /** MULH after `d` multiplier bits: the accumulator is that sum. */
  ghost predicate MulhHolds(s: Regs, req: Request, d: nat) {
    && s.opAShift == OpAExt(req)
    && s.opBShift == OpBExt(req) / Pow2(d)
    && s.imd == Biased(req.A(), OpBExt(req), d)
  }

  ghost predicate DivHolds(s: Regs, req: Request) {
    && D(req) > 0 && 0 <= s.count && 0 <= s.opAShift
    && s.numerator == N(req) && s.opBShift == D(req)
    && Partial(N(req), D(req), s.count, s.opAShift, s.imd)
  }

  ghost predicate Inv(s: Regs, req: Request) {
    && WidthsOk(s)
    && match s.md
       case MD_IDLE => true
       case MD_ABS_A => !req.IsMul() && req.b != 0 && s.count == 31
       case MD_ABS_B =>
         !req.IsMul() && req.b != 0 && s.count == 31 && s.numerator == N(req) && s.opAShift == 0
       case MD_COMP => (
         match req.op
         case MULL => MullHolds(s, req) && s.opBShift != 0
         case MULH => 1 <= s.count <= 31 && MulhHolds(s, req, 32 - s.count)
         case _ => 1 <= s.count <= 31 && DivHolds(s, req)
       )
       case MD_LAST => (
         match req.op
         case MULL => MullHolds(s, req) && s.opBShift == 0
         case MULH => MulhHolds(s, req, 32)
         case _ => s.count == 0 && DivHolds(s, req)
       )
       case MD_CHANGE_SIGN =>
         && !req.IsMul() && D(req) > 0
         && s.imd == Magnitude(req)
       case MD_FINISH => !req.IsMul() && s.Accum() % TWO32 == Result(req)
  }

  /** Enabled cycles still to go before the result is valid. */
  function Remaining(s: Regs, req: Request): nat
    requires WidthsOk(s)
  {
    match s.md
    case MD_IDLE => Latency(req)
    case MD_ABS_A => 35
    case MD_ABS_B => 34
    case MD_COMP =>
      (match req.op
       case MULL => BitLen(s.opBShift)
       case MULH => s.count
       case _ => s.count + 2)
    case MD_LAST => if req.IsMul() then 0 else 2
    case MD_CHANGE_SIGN => 1
    case MD_FINISH => 0
  }

  /** Cycles before the cycle in which the result is valid. */
  function Latency(req: Request): nat {
    match req.op
    case MULL => if OpBExt(req) == 0 then 1 else BitLen(OpBExt(req))
    case MULH => 32
    case _ => if req.b == 0 then 1 else 36
  }

  // ------------------------------------------------------------------ MULL

  lemma PartialProductLow(x: int, b: bool)
    requires 0 <= x < TWO33
    ensures PartialProduct(x, b) % TWO32 == (if b then x else 0) % TWO32
    ensures 0 <= PartialProduct(x, b) < TWO33
  {
  }

  /** Adding the current bit's partial product and moving to the next one. */
  lemma MullAdvance(acc: int, x: int, y: int, acc': int, x': int, h: int)
    requires 0 <= x < TWO33 && 0 <= y
    requires acc' % TWO32 == (acc + if y % 2 == 1 then x else 0) % TWO32
    requires x' == x * 2 % TWO33 && h == y / 2
    ensures (acc' + x' * h) % TWO32 == (acc + x * y) % TWO32
  {
    var b := y % 2;
    var k := x * 2 / TWO33;
    assert x' == x * 2 - k * TWO33;
    assert x' * h == x * 2 * h - (k * 2 * h) * TWO32;
    assert x * y == x * 2 * h + x * b;
    var j := acc' / TWO32 - (acc + x * b) / TWO32;
    assert acc' == acc + x * b + j * TWO32;
    ModMulAdd(acc + x * y, j - k * 2 * h, TWO32);
    assert acc' + x' * h == acc + x * y + (j - k * 2 * h) * TWO32;
  }

  lemma ExtendedProductLow(req: Request)
    ensures (OpAExt(req) * OpBExt(req)) % TWO32 == (req.a * req.b) % TWO32
  {
    ModMul(OpAExt(req), req.a, OpBExt(req), TWO32);
    ModMul(OpBExt(req), req.b, req.a, TWO32);
  }

  lemma MullIdleStep(s: Regs, i: Inputs, req: Request)
    requires req.op.MULL? && s.md.MD_IDLE? && WidthsOk(s) && Legal(s, i, req) && Enabled(i)
    ensures Step(s, i) == Regs(if OpBExt(req) / 2 == 0 then MD_LAST else MD_COMP, 31,
                               OpAExt(req) * 2 % TWO33, OpBExt(req) / 2, s.numerator,
                               PartialProduct(OpAExt(req), req.b % 2 == 1))
    ensures Step(s, i).Accum() % TWO32 == (if OpBExt(req) % 2 == 1 then OpAExt(req) else 0) % TWO32
    ensures WidthsOk(Step(s, i))
  {
    PartialProductLow(OpAExt(req), req.b % 2 == 1);
  }

  lemma LowOfSum(acc: int, pp: int, v: int)
    requires pp % TWO32 == v % TWO32
    ensures (acc + pp) % TWO33 % TWO33 % TWO32 == (acc + v) % TWO32
  {
    var k := (pp - v) / TWO32;
    assert pp == v + k * TWO32;
    ModMulAdd(acc + v, k, TWO32);
  }

  lemma MullCompStep(s: Regs, i: Inputs, req: Request)
    requires req.op.MULL? && s.md.MD_COMP? && WidthsOk(s) && Legal(s, i, req) && Enabled(i)
    ensures Step(s, i) == Regs(if s.opBShift / 2 == 0 then MD_LAST else MD_COMP, (s.count - 1) % 32,
                               s.opAShift * 2 % TWO33, s.opBShift / 2, s.numerator,
                               (s.Accum() + PartialProduct(s.opAShift, s.opBShift % 2 == 1)) % TWO33)
    ensures Step(s, i).Accum() % TWO32
         == (s.Accum() + if s.opBShift % 2 == 1 then s.opAShift else 0) % TWO32
    ensures WidthsOk(Step(s, i))
  {
    var b0 := s.opBShift % 2 == 1;
    PartialProductLow(s.opAShift, b0);
    LowOfSum(s.Accum(), PartialProduct(s.opAShift, b0), if b0 then s.opAShift else 0);
  }

  lemma MullLastStep(s: Regs, i: Inputs, req: Request)
    requires req.op.MULL? && s.md.MD_LAST? && WidthsOk(s) && s.opBShift == 0
    requires Legal(s, i, req) && Enabled(i)
    ensures Step(s, i) == s || (Step(s, i).md.MD_IDLE? && WidthsOk(Step(s, i)))
    ensures Output(s, i) == s.Accum() % TWO32
  {
    PartialProductLow(s.opAShift, false);
  }

  lemma MullStart(s: Regs, i: Inputs, req: Request)
    requires req.op.MULL? && s.md.MD_IDLE? && Inv(s, req) && Legal(s, i, req) && Enabled(i)
    ensures Inv(Step(s, i), req)
    ensures Remaining(Step(s, i), req) == Remaining(s, req) - 1
  {
    var s' := Step(s, i);
    MullIdleStep(s, i, req);
    MullAdvance(0, OpAExt(req), OpBExt(req), s'.Accum(), s'.opAShift, s'.opBShift);
    ExtendedProductLow(req);
  }

  lemma MullComp(s: Regs, i: Inputs, req: Request)
    requires req.op.MULL? && s.md.MD_COMP? && Inv(s, req) && Legal(s, i, req) && Enabled(i)
    ensures Inv(Step(s, i), req)
    ensures Remaining(Step(s, i), req) == Remaining(s, req) - 1
  {
    var s' := Step(s, i);
    MullCompStep(s, i, req);
    MullAdvance(s.Accum(), s.opAShift, s.opBShift, s'.Accum(), s'.opAShift, s'.opBShift);
  }

  lemma MullFinish(s: Regs, i: Inputs, req: Request)
    requires req.op.MULL? && s.md.MD_LAST? && Inv(s, req) && Legal(s, i, req) && Enabled(i)
    ensures Inv(Step(s, i), req)
    ensures Output(s, i) == Result(req)
  {
    MullLastStep(s, i, req);
    assert s.opAShift * s.opBShift == 0;
    LowWordIgnoresSigns(req);
  }

  // ------------------------------------------------------------------ MULH

  lemma PartialProductValue(req: Request, b: bool)
    ensures PartialProduct(OpAExt(req), b) == TWO32 + if b then req.A() else 0
    ensures LastPartialProduct(OpAExt(req), b) == TWO32 - 1 - if b then req.A() else 0
  {
  }

  lemma BitPrefix(x: nat, d: nat)
    ensures x / Pow2(d + 1) == x / Pow2(d) / 2
    ensures x % Pow2(d + 1) == x % Pow2(d) + (x / Pow2(d) % 2) * Pow2(d)
  {
    var p := Pow2(d);
    DivDiv(x, p, 2);
    var q := x / p;
    assert x == p * q + x % p;
    assert p * q == 2 * p * (q / 2) + p * (q % 2);
  }

  /** One shift-and-add step on the biased accumulator. */
  lemma BiasedShift(a: int, low: nat, p: nat, b: nat)
    requires p > 0 && b < 2
    ensures (TWO32 + (TWO32 + a * low) / p + TWO32 + b * a) / 2
         == TWO32 + (TWO32 + a * (low + b * p)) / (2 * p)
  {
    var x := TWO32 + a * low;
    assert TWO32 + a * (low + b * p) == x + (b * a) * p;
    DivAddMultiple(x, b * a, p);
    DivDiv(x + (b * a) * p, p, 2);
    assert p * 2 == 2 * p;
  }

  /** No carry is lost: the biased accumulator stays in its 33 bits. */
  lemma BiasedInRange(a: int, low: nat, p: nat)
    requires -TWO32 <= a < TWO32 && low < p && p >= 2
    ensures -TWO32 <= (TWO32 + a * low) / p < TWO32
  {
    var x := TWO32 + a * low;
    MulMono(-TWO32, a, low);
    MulMono(a, TWO32 - 1, low);
    assert x == p * (x / p) + x % p;
    if x / p >= TWO32 {
      MulMono(TWO32, x / p, p);
      assert false;
    } else if x / p <= -TWO32 - 1 {
      MulMono(x / p, -TWO32 - 1, p);
      assert false;
    }
  }

  lemma BiasedFits(a: int, b: nat, d: nat)
    requires -TWO32 <= a < TWO32 && 1 <= d
    ensures 0 <= Biased(a, b, d) < TWO33
  {
    assert Pow2(d) == 2 * Pow2(d - 1);
    BiasedInRange(a, b % Pow2(d), Pow2(d));
  }

  /** The next bit of the multiplier. */
  lemma BiasedNext(a: int, b: nat, d: nat)
    ensures (Biased(a, b, d) + TWO32 + (if b / Pow2(d) % 2 == 1 then a else 0)) / 2 == Biased(a, b, d + 1)
  {
    var p := Pow2(d);
    BitPrefix(b, d);
    var bit := b / p % 2;
    BiasedShift(a, b % p, p, bit);
    assert bit * a == if bit == 1 then a else 0;
  }

  lemma OperandRange(req: Request)
    ensures -TWO32 <= req.A() < TWO32 && 0 <= OpBExt(req)
  {
  }

  lemma MulhAdvance(s: Regs, req: Request, d: nat)
    requires 1 <= d < 32 && MulhHolds(s, req, d)
    ensures 0 <= s.imd < TWO33 && 0 <= Biased(req.A(), OpBExt(req), d + 1) < TWO33
    ensures (s.imd + PartialProduct(s.opAShift, s.opBShift % 2 == 1)) / 2 == Biased(req.A(), OpBExt(req), d + 1)
    ensures s.opBShift / 2 == OpBExt(req) / Pow2(d + 1)
  {
    hide Biased, PartialProduct, OpAExt, OpBExt, Pow2;
    OperandRange(req);
    var b := OpBExt(req);
    PartialProductValue(req, s.opBShift % 2 == 1);
    BitPrefix(b, d);
    BiasedNext(req.A(), b, d);
    BiasedFits(req.A(), b, d);
    BiasedFits(req.A(), b, d + 1);
  }

  lemma MulhStart(req: Request)
    ensures MulhHolds(Regs(MD_COMP, 31, OpAExt(req), OpBExt(req) / 2, 0,
                           TWO32 + PartialProduct(OpAExt(req), req.b % 2 == 1) / 2), req, 1)
    ensures 0 <= PartialProduct(OpAExt(req), req.b % 2 == 1) / 2 < TWO32
  {
    PartialProductValue(req, req.b % 2 == 1);
    assert Pow2(1) == 2;
    assert OpBExt(req) % 2 == req.b % 2;
    assert req.A() * (req.b % 2) == if req.b % 2 == 1 then req.A() else 0;
  }

  /** The sign bit of the multiplier has negative weight. */
  lemma TopBitWeight(a: int, b: U32, top: int)
    requires top == 0 || top == 1
    ensures (a * (b - top * TWO32)) / TWO32 == (a * b) / TWO32 - if top == 1 then a else 0
  {
    var k := if top == 1 then 0 - a else 0;
    assert a * (b - top * TWO32) == a * b + k * TWO32;
    DivAddMultiple(a * b, k, TWO32);
  }

  lemma MulhSum(req: Request, imd: int, top: int)
    requires imd == TWO32 + (TWO32 + req.A() * req.b) / TWO32
    requires top == if req.NegativeB() then 1 else 0
    ensures 0 <= imd < TWO33
    ensures imd + LastPartialProduct(OpAExt(req), top == 1) == TWO33 + (req.A() * req.B()) / TWO32
  {
    var a := req.A();
    PartialProductValue(req, top == 1);
    BiasedInRange(a, req.b, TWO32);
    DivAddMultiple(a * req.b, 1, TWO32);
    TopBitWeight(a, req.b, top);
    assert req.B() == req.b - top * TWO32;
  }

  lemma MulhCompStep(s: Regs, i: Inputs, req: Request)
    requires req.op.MULH? && s.md.MD_COMP? && WidthsOk(s) && s.imd < TWO33
    requires Legal(s, i, req) && Enabled(i) && 1 <= s.count
    ensures Step(s, i) == Regs(if s.count == 1 then MD_LAST else MD_COMP, s.count - 1, s.opAShift,
                               s.opBShift / 2, s.numerator,
                               (s.imd + PartialProduct(s.opAShift, s.opBShift % 2 == 1)) / 2)
  {
  }

  lemma MulhLastStep(s: Regs, i: Inputs, req: Request, high: int)
    requires req.op.MULH? && s.md.MD_LAST? && WidthsOk(s) && s.imd < TWO33
    requires Legal(s, i, req) && Enabled(i)
    requires s.imd + LastPartialProduct(s.opAShift, s.opBShift % 2 == 1) == TWO33 + high
    ensures Step(s, i) == s || (Step(s, i).md.MD_IDLE? && WidthsOk(Step(s, i)))
    ensures Output(s, i) == high % TWO32
  {
  }

  /** With all bits taken in but the sign's. */
  lemma BiasedAtTop(req: Request)
    ensures Biased(req.A(), OpBExt(req), 32) == TWO32 + (TWO32 + req.A() * req.b) / TWO32
    ensures OpBExt(req) / Pow2(32) == if req.NegativeB() then 1 else 0
  {
    Pow2Of32();
    assert OpBExt(req) % TWO32 == req.b;
  }

  lemma MulhAtEnd(s: Regs, req: Request)
    requires req.op.MULH? && s.md.MD_LAST? && Inv(s, req)
    ensures WidthsOk(s) && s.opAShift == OpAExt(req)
    ensures s.imd == TWO32 + (TWO32 + req.A() * req.b) / TWO32 && s.opBShift == if req.NegativeB() then 1 else 0
  {
    hide Biased, OpAExt, OpBExt, Pow2;
    BiasedAtTop(req);
  }

  lemma IdleHolds(s: Regs, req: Request)
    requires WidthsOk(s) && s.md.MD_IDLE?
    ensures Inv(s, req)
  {
  }

  lemma HighWord(req: Request)
    requires req.op.MULH?
    ensures Result(req) == (req.A() * req.B()) / TWO32 % TWO32
  {
  }

  lemma MulhFinish(s: Regs, i: Inputs, req: Request)
    requires req.op.MULH? && s.md.MD_LAST? && Inv(s, req) && Legal(s, i, req) && Enabled(i)
    ensures Inv(Step(s, i), req)
    ensures Output(s, i) == Result(req)
  {
    hide Inv, OpAExt, LastPartialProduct, Step, Output, Result, WidthsOk, Legal;
    MulhAtEnd(s, req);
    MulhSum(req, s.imd, s.opBShift);
    HighWord(req);
    assert s.opBShift % 2 == s.opBShift;
    MulhLastStep(s, i, req, (req.A() * req.B()) / TWO32);
    if Step(s, i) != s {
      IdleHolds(Step(s, i), req);
    }
  }

  lemma MulhComp(s: Regs, i: Inputs, req: Request)
    requires req.op.MULH? && s.md.MD_COMP? && Inv(s, req) && Legal(s, i, req) && Enabled(i)
    ensures Inv(Step(s, i), req)
    ensures Remaining(Step(s, i), req) == Remaining(s, req) - 1
  {
    MulhAdvance(s, req, 32 - s.count);
    MulhCompStep(s, i, req);
  }

  lemma MulhIdle(s: Regs, i: Inputs, req: Request)
    requires req.op.MULH? && s.md.MD_IDLE? && Inv(s, req) && Legal(s, i, req) && Enabled(i)
    ensures Inv(Step(s, i), req)
    ensures Remaining(Step(s, i), req) == Remaining(s, req) - 1
  {
    MulhStart(req);
  }

  // ------------------------------------------------------------------ DIV and REM

  lemma CompareExact(s: Regs, req: Request)
    requires !req.IsMul() && (s.md.MD_COMP? || s.md.MD_LAST?)
    requires 0 <= s.imd < TWO32 && 0 <= s.opBShift < TWO32
    ensures ResAdderH(s, req) == s.imd + TWO32 - s.opBShift
    ensures IsGreaterEqual(s, req) <==> s.imd >= s.opBShift
  {
    Fits(s.imd);
    ComparisonIsExact(s.imd, s.opBShift);
  }

  /** One cycle of the divider compares, and subtracts when it may. */
  lemma Compare(s: Regs, req: Request)
    requires !req.IsMul() && WidthsOk(s) && (s.md.MD_COMP? || s.md.MD_LAST?)
    requires s.imd < TWO32 && s.opBShift < TWO32
    ensures NextRemainder(s, req) % TWO32
         == if s.imd >= s.opBShift then s.imd - s.opBShift else s.imd
    ensures NextQuotient(s, req)
         == if s.imd >= s.opBShift then SetBit(s.opAShift, s.count) % TWO33 else s.opAShift
  {
    CompareExact(s, req);
    assert NextRemainder(s, req) == if s.imd >= s.opBShift then s.imd + TWO32 - s.opBShift else s.imd;
  }

  lemma Decide(s: Regs, req: Request) returns (q: nat, r: int)
    requires !req.IsMul() && WidthsOk(s) && DivHolds(s, req) && (s.md.MD_COMP? || s.md.MD_LAST?)
    ensures s.imd < TWO32
    ensures NextQuotient(s, req) == q && NextRemainder(s, req) % TWO32 == r
    ensures q % Pow2(s.count) == 0 && N(req) / Pow2(s.count) == q / Pow2(s.count) * D(req) + r
    ensures 0 <= r < D(req) && q <= N(req) < TWO32
  {
    MagnitudeA(req);
    MagnitudeB(req);
    PartialBound(N(req), D(req), s.count, s.opAShift, s.imd);
    PartialDecide(N(req), D(req), s.count, s.opAShift, s.imd);
    Compare(s, req);
    q := if s.imd >= D(req) then SetBit(s.opAShift, s.count) else s.opAShift;
    r := if s.imd >= D(req) then s.imd - D(req) else s.imd;
    Fits(q);
  }

  lemma BringDown(s: Regs, req: Request, q: nat, r: int)
    requires WidthsOk(s) && DivHolds(s, req) && 1 <= s.count <= 31
    requires q % Pow2(s.count) == 0 && N(req) / Pow2(s.count) == q / Pow2(s.count) * D(req) + r
    requires 0 <= r < D(req)
    ensures Partial(N(req), D(req), s.count - 1, q, r * 2 + BitAt(N(req), s.count - 1))
    ensures 0 <= r * 2 + BitAt(N(req), s.count - 1) < TWO32
  {
    PartialNext(N(req), D(req), s.count, q, r);
    MagnitudeA(req);
    PartialBound(N(req), D(req), s.count - 1, q, r * 2 + BitAt(N(req), s.count - 1));
  }

  lemma DivIdleStep(s: Regs, i: Inputs, req: Request)
    requires !req.IsMul() && s.md.MD_IDLE? && WidthsOk(s) && Legal(s, i, req) && Enabled(i)
    ensures Step(s, i) == s.(count := 31, md := if req.b == 0 then MD_FINISH else MD_ABS_A,
                             imd := if req.op.DIV? then TWO33 - 1 else OpAExt(req))
  {
    Negation(req.b);
  }

  lemma DivIdle(s: Regs, i: Inputs, req: Request)
    requires !req.IsMul() && s.md.MD_IDLE? && Inv(s, req) && Legal(s, i, req) && Enabled(i)
    ensures Inv(Step(s, i), req)
    ensures Remaining(Step(s, i), req) == Remaining(s, req) - 1
  {
    DivIdleStep(s, i, req);
    assert req.b == 0 ==> Step(s, i).Accum() % TWO32 == Result(req);
  }

  lemma DivAbsA(s: Regs, i: Inputs, req: Request)
    requires !req.IsMul() && s.md.MD_ABS_A? && Inv(s, req) && Legal(s, i, req) && Enabled(i)
    ensures Inv(Step(s, i), req)
    ensures Remaining(Step(s, i), req) == Remaining(s, req) - 1
  {
    MagnitudeA(req);
    Negation(req.a);
    assert Step(s, i) == s.(opAShift := 0, imd := s.Accum(), numerator := N(req), md := MD_ABS_B);
  }

  lemma DivAbsBStep(s: Regs, i: Inputs, req: Request)
    requires !req.IsMul() && s.md.MD_ABS_B? && WidthsOk(s) && Legal(s, i, req) && Enabled(i)
    ensures Step(s, i) == s.(imd := BitAt(s.numerator, 31), opBShift := D(req), md := MD_COMP)
  {
    MagnitudeB(req);
    Negation(req.b);
  }

  lemma DivAbsB(s: Regs, i: Inputs, req: Request)
    requires !req.IsMul() && s.md.MD_ABS_B? && Inv(s, req) && Legal(s, i, req) && Enabled(i)
    ensures Inv(Step(s, i), req)
    ensures Remaining(Step(s, i), req) == Remaining(s, req) - 1
  {
    MagnitudeA(req);
    MagnitudeB(req);
    DivAbsBStep(s, i, req);
    PartialStart(N(req), D(req));
  }

  lemma DivCompStep(s: Regs, i: Inputs, req: Request)
    requires !req.IsMul() && s.md.MD_COMP? && WidthsOk(s) && 1 <= s.count
    requires Legal(s, i, req) && Enabled(i)
    ensures Step(s, i) == Regs(if s.count == 1 then MD_LAST else MD_COMP, s.count - 1,
                               NextQuotient(s, req), s.opBShift, s.numerator,
                               NextRemainder(s, req) % TWO32 * 2 + BitAt(s.numerator, s.count - 1))
  {
  }

  lemma DivComp(s: Regs, i: Inputs, req: Request)
    requires !req.IsMul() && s.md.MD_COMP? && Inv(s, req) && Legal(s, i, req) && Enabled(i)
    ensures Inv(Step(s, i), req)
    ensures Remaining(Step(s, i), req) == Remaining(s, req) - 1
  {
    var q, r := Decide(s, req);
    BringDown(s, req, q, r);
    DivCompStep(s, i, req);
  }

  lemma DivLastStep(s: Regs, i: Inputs, req: Request)
    requires !req.IsMul() && s.md.MD_LAST? && WidthsOk(s) && Legal(s, i, req) && Enabled(i)
    ensures Step(s, i) == s.(md := MD_CHANGE_SIGN,
                             imd := if req.op.DIV? then NextQuotient(s, req)
                                    else NextRemainder(s, req) % TWO32)
  {
  }

  lemma DivLast(s: Regs, i: Inputs, req: Request)
    requires !req.IsMul() && s.md.MD_LAST? && Inv(s, req) && Legal(s, i, req) && Enabled(i)
    ensures Inv(Step(s, i), req)
    ensures Remaining(Step(s, i), req) == Remaining(s, req) - 1
  {
    var q, r := Decide(s, req);
    PartialFinish(N(req), D(req), q, r);
    DivLastStep(s, i, req);
  }

  lemma DivSignStep(s: Regs, i: Inputs, req: Request)
    requires !req.IsMul() && s.md.MD_CHANGE_SIGN? && WidthsOk(s) && s.imd < TWO32
    requires Legal(s, i, req) && Enabled(i)
    ensures Step(s, i) == s.(md := MD_FINISH, imd := if Negate(req) then (0 - s.imd) % TWO32 else s.imd)
  {
    AluNegates(s, req);
    hide AluAdder;
  }

  lemma AluNegates(s: Regs, req: Request)
    requires !req.IsMul() && s.md.MD_CHANGE_SIGN? && 0 <= s.imd < TWO32
    ensures s.Accum() == s.imd && AluAdder(s, req) == (0 - s.imd) % TWO32
  {
    Negation(s.imd);
    Fits(s.imd);
  }

  lemma FinishHolds(s: Regs, req: Request)
    requires !req.IsMul() && s.md.MD_FINISH? && WidthsOk(s) && s.imd == Result(req)
    ensures Inv(s, req)
  {
    Fits(s.imd);
  }

  lemma DivSign(s: Regs, i: Inputs, req: Request)
    requires !req.IsMul() && s.md.MD_CHANGE_SIGN? && Inv(s, req) && Legal(s, i, req) && Enabled(i)
    ensures Inv(Step(s, i), req)
    ensures Remaining(Step(s, i), req) == Remaining(s, req) - 1
  {
    SignedResult(req);
    hide Result, Magnitude;
    DivSignStep(s, i, req);
    FinishHolds(Step(s, i), req);
  }

  lemma DivFinish(s: Regs, i: Inputs, req: Request)
    requires !req.IsMul() && s.md.MD_FINISH? && Inv(s, req) && Legal(s, i, req) && Enabled(i)
    ensures Inv(Step(s, i), req)
    ensures Output(s, i) == Result(req)
  {
    assert Step(s, i) == s || (Step(s, i).md.MD_IDLE? && WidthsOk(Step(s, i)));
  }

  // ------------------------------------------------------------------ one cycle, any operation

  lemma EnabledStep(s: Regs, i: Inputs, req: Request)
    requires Inv(s, req) && Legal(s, i, req) && Enabled(i)
    ensures Inv(Step(s, i), req)
    ensures !Valid(s, i) ==> Remaining(Step(s, i), req) == Remaining(s, req) - 1
    ensures Valid(s, i) ==> Remaining(s, req) == 0 && Output(s, i) == Result(req)
  {
    match s.md {
      case MD_IDLE =>
        match req.op {
          case MULL => MullStart(s, i, req);
          case MULH => MulhIdle(s, i, req);
          case _ => DivIdle(s, i, req);
        }
      case MD_ABS_A => DivAbsA(s, i, req);
      case MD_ABS_B => DivAbsB(s, i, req);
      case MD_COMP =>
        match req.op {
          case MULL => MullComp(s, i, req);
          case MULH => MulhComp(s, i, req);
          case _ => DivComp(s, i, req);
        }
      case MD_LAST =>
        match req.op {
          case MULL => MullFinish(s, i, req);
          case MULH => MulhFinish(s, i, req);
          case _ => DivLast(s, i, req);
        }
      case MD_CHANGE_SIGN => DivSign(s, i, req);
      case MD_FINISH => DivFinish(s, i, req);
    }
  }

  /** Idle cycles before an operation is enabled change nothing that matters. */
  lemma IdleStep(s: Regs, i: Inputs, req: Request)
    requires Inv(s, req) && Legal(s, i, req) && !Enabled(i)
    ensures s.md.MD_IDLE? && Step(s, i).md.MD_IDLE? && Inv(Step(s, i), req)
    ensures Remaining(Step(s, i), req) == Remaining(s, req)
  {
  }

  lemma ValidIffNothingRemains(s: Regs, i: Inputs, req: Request)
    requires Inv(s, req) && i.req == req
    ensures Valid(s, i) <==> Remaining(s, req) == 0
  {
  }

  /** A finished result is held until the ID stage is ready. */
  lemma HeldUntilReady(s: Regs, i: Inputs, req: Request)
    requires Inv(s, req) && Legal(s, i, req) && Valid(s, i)
    ensures if i.ready then Step(s, i).md.MD_IDLE? else Step(s, i) == s
  {
  }

  /** One cycle of an operation whose result is not being taken. */
  lemma AnyStep(s: Regs, i: Inputs, req: Request)
    requires Inv(s, req) && Legal(s, i, req) && !(Valid(s, i) && i.ready)
    ensures Inv(Step(s, i), req)
    ensures Remaining(Step(s, i), req)
         == if Enabled(i) && Remaining(s, req) > 0 then Remaining(s, req) - 1 else Remaining(s, req)
  {
    ValidIffNothingRemains(s, i, req);
    if Enabled(i) {
      EnabledStep(s, i, req);
      if Valid(s, i) {
        HeldUntilReady(s, i, req);
      }
    } else {
      IdleStep(s, i, req);
    }
    hide Step, Remaining;
  }

  // ------------------------------------------------------------------ whole operations

  function StateAfter(s: Regs, ins: seq<Inputs>, k: nat): Regs
    requires WidthsOk(s) && k <= |ins|
    ensures WidthsOk(StateAfter(s, ins, k))
  {
    if k == 0 then s else
      WidthsStep(StateAfter(s, ins, k - 1), ins[k - 1]);
      Step(StateAfter(s, ins, k - 1), ins[k - 1])
  }

  /** The request is driven in every cycle, and its result is not taken before the last. */
  ghost predicate OneOperation(s: Regs, ins: seq<Inputs>, req: Request)
    requires WidthsOk(s)
  {
    && (forall k :: 0 <= k < |ins| ==> Legal(StateAfter(s, ins, k), ins[k], req))
    && (forall k :: 0 <= k < |ins| - 1 ==> !(Valid(StateAfter(s, ins, k), ins[k]) && ins[k].ready))
  }

  lemma {:induction false} AfterCycles(s: Regs, ins: seq<Inputs>, req: Request, k: nat)
    requires WidthsOk(s) && s.md.MD_IDLE? && OneOperation(s, ins, req) && k < |ins|
    ensures Inv(StateAfter(s, ins, k), req)
    ensures Remaining(StateAfter(s, ins, k), req)
         == Countdown(Latency(req), EnabledCycles(ins[..k], Enabled))
  {
    hide Inv, Remaining, Latency, Step, Valid;
    if k == 0 {
      AtStart(s, req);
      assert ins[..0] == [];
    } else {
      AfterCycles(s, ins, req, k - 1);
      OneMore(s, ins, req, k);
    }
  }

  lemma OneMore(s: Regs, ins: seq<Inputs>, req: Request, k: nat)
    requires WidthsOk(s) && OneOperation(s, ins, req) && 0 < k < |ins|
    requires Inv(StateAfter(s, ins, k - 1), req)
    requires Remaining(StateAfter(s, ins, k - 1), req) == Countdown(Latency(req), EnabledCycles(ins[..k - 1], Enabled))
    ensures Inv(StateAfter(s, ins, k), req)
    ensures Remaining(StateAfter(s, ins, k), req) == Countdown(Latency(req), EnabledCycles(ins[..k], Enabled))
  {
    var t, i := StateAfter(s, ins, k - 1), ins[k - 1];
    assert StateAfter(s, ins, k) == Step(t, i);
    EnabledCyclesNext(ins, Enabled, k);
    hide Step, Inv, Remaining, Latency, EnabledCycles, Valid, Legal;
    AnyStep(t, i, req);
  }

  lemma AtStart(s: Regs, req: Request)
    requires WidthsOk(s) && s.md.MD_IDLE?
    ensures Inv(s, req) && Remaining(s, req) == Latency(req)
  {
  }

  /** Started from MD_IDLE, with any stretch of idle cycles first and any readiness of the ID
      stage, the unit raises valid after exactly `Latency(req)` enabled cycles, never earlier,
      and from then on shows the result the M extension specifies. */
  lemma MeetsSpecification(s: Regs, ins: seq<Inputs>, req: Request, k: nat)
    requires WidthsOk(s) && s.md.MD_IDLE? && OneOperation(s, ins, req) && k < |ins|
    ensures var t := StateAfter(s, ins, k);
            && (Valid(t, ins[k]) <==> EnabledCycles(ins[..k], Enabled) >= Latency(req))
            && (Valid(t, ins[k]) ==> Output(t, ins[k]) == Result(req))
  {
    AfterCycles(s, ins, req, k);
    var t := StateAfter(s, ins, k);
    ValidIffNothingRemains(t, ins[k], req);
    if Valid(t, ins[k]) {
      EnabledStep(t, ins[k], req);
    }
  }

  /** The cycle counts, the final cycle included. */
  lemma CycleCounts(req: Request)
    ensures req.op.MULH? ==> Latency(req) + 1 == 33
    ensures !req.IsMul() ==> Latency(req) + 1 == if req.b == 0 then 2 else 37
    ensures req.op.MULL? && !req.signB ==> Latency(req) + 1 == (if req.b == 0 then 1 else BitLen(req.b)) + 1 <= 33
  {
    if req.op.MULL? && !req.signB {
      Pow2Of32();
      BitLenBound(req.b, 32);
    }
  }

  lemma {:induction false} BitLenBound(x: nat, n: nat)
    requires x < Pow2(n)
    ensures BitLen(x) <= n
  {
    if x > 0 {
      BitLenBound(x / 2, n - 1);
    }
  }
}
