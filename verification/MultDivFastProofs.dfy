/** Both fast multipliers and the divider beside them meet the M extension, whatever the
    pattern of enables and of readiness. */
module MultDivFastProofs {
  import opened Bits
  import opened MultDivSpec
  import opened RestoringDivision
  import opened EnabledTime
  import opened MultDivFast

  predicate Enabled(i: Inputs) { i.multEn || i.divEn }

  predicate Driving(i: Inputs, req: Request) {
    && i.req == req
    && i.divSel == !req.IsMul()
    && (i.multEn ==> req.IsMul()) && (i.divEn ==> !req.IsMul())
  }

  // ------------------------------------------------------------------ the product by halves

  /** The running sums of the multiply-high: each drops the 16 bits no longer needed. */
  function Sum0(req: Request): int { AL(req) * BL(req) }
  function Sum1(req: Request): int { AL(req) * BH(req) + Sum0(req) / TWO16 }
  function Sum2(req: Request): int { AH(req) * BL(req) + Sum1(req) }
  function Sum3(req: Request): int { AH(req) * BH(req) + Sum2(req) / TWO16 }

  lemma Halves(req: Request)
    ensures req.A() == AH(req) * TWO16 + AL(req) && req.B() == BH(req) * TWO16 + BL(req)
    ensures 0 <= AL(req) < TWO16 && 0 <= BL(req) < TWO16
    ensures -TWO16 / 2 <= AH(req) < TWO16 && -TWO16 / 2 <= BH(req) < TWO16
    ensures AH(req) < 0 ==> req.signA
    ensures BH(req) < 0 ==> req.signB
  {
  }

  lemma HalfProduct(x: int, y: int)
    requires 0 <= x < TWO16 && -TWO16 / 2 <= y < TWO16
    ensures -(TWO16 / 2) * (TWO16 - 1) <= x * y <= (TWO16 - 1) * (TWO16 - 1)
    ensures y >= 0 ==> 0 <= x * y
  {
    if y >= 0 {
      MulMono(x, TWO16 - 1, y);
      MulMono(y, TWO16 - 1, TWO16 - 1);
      MulMono(0, x, y);
    } else {
      MulMono(-TWO16 / 2, y, x);
      MulMono(x, TWO16 - 1, TWO16 / 2);
      MulMono(y, 0, x);
    }
  }

  lemma HighProduct(x: int, y: int)
    requires -TWO16 / 2 <= x < TWO16 && -TWO16 / 2 <= y < TWO16
    ensures -(TWO16 / 2) * (TWO16 - 1) <= x * y <= (TWO16 - 1) * (TWO16 - 1)
  {
    if x >= 0 {
      HalfProduct(x, y);
    } else if y >= 0 {
      HalfProduct(y, x);
    } else {
      MulMono(-TWO16 / 2, x, -y);
      MulMono(-y, TWO16 / 2, TWO16 / 2);
      MulMono(0, -x, -y);
      assert x * y == -x * -y == -(x * -y);
    }
  }

  /** No sum leaves the signed range of 34 bits, so dropping bit 34 of the MAC loses nothing;
      without a signed operand none is negative. */
  lemma SumsFit(req: Request)
    ensures 0 <= Sum0(req) < TWO32
    ensures -TWO33 <= Sum1(req) < TWO33 && -TWO33 <= Sum2(req) < TWO33 && -TWO33 <= Sum3(req) < TWO33
    ensures !req.signA && !req.signB ==> 0 <= Sum1(req) && 0 <= Sum2(req)
  {
    Halves(req);
    HalfProduct(AL(req), BL(req));
    HalfProduct(AL(req), BH(req));
    HalfProduct(BL(req), AH(req));
    HighProduct(AH(req), BH(req));
  }

  /** The high word is the last sum; the low word is what was dropped on the way. */
  lemma ProductBySums(req: Request)
    ensures (req.A() * req.B()) / TWO32 == Sum3(req)
    ensures req.A() * req.B()
         == Sum3(req) * TWO32 + Sum2(req) % TWO16 * TWO16 + Sum0(req) % TWO16
  {
    Halves(req);
    var ah, al, bh, bl := AH(req), AL(req), BH(req), BL(req);
    Expand(ah, al, bh, bl);
    var s0, s2 := Sum0(req), Sum2(req);
    var low := s2 % TWO16 * TWO16 + s0 % TWO16;
    assert 0 <= low < TWO32;
    assert req.A() * req.B() == Sum3(req) * TWO32 + low;
    DivUnique(req.A() * req.B(), TWO32, Sum3(req));
  }

  lemma Expand(ah: int, al: int, bh: int, bl: int)
    ensures (ah * TWO16 + al) * (bh * TWO16 + bl)
         == ah * bh * TWO32 + (ah * bl + al * bh) * TWO16 + al * bl
  {
    assert (ah * TWO16 + al) * (bh * TWO16 + bl)
        == (ah * TWO16) * (bh * TWO16) + (ah * TWO16) * bl + al * (bh * TWO16) + al * bl;
  }

  /** The low word of the product, whatever the sign modes. */
  lemma LowWord(req: Request)
    requires req.op.MULL?
    ensures Result(req) == Sum2(req) % TWO16 * TWO16 + Sum0(req) % TWO16
  {
    ProductBySums(req);
    var low := Sum2(req) % TWO16 * TWO16 + Sum0(req) % TWO16;
    ModMulAdd(low, Sum3(req), TWO32);
    Fits(low);
  }

  // ------------------------------------------------------------------ what every state holds

  function Signed(req: Request): bool { req.signA || req.signB }

  ghost predicate MultHolds(s: Regs, req: Request) {
    match s.mult
    case ALBL => true
    case ALBH => s.imd == Sum0(req)
    case AHBL =>
      if req.op.MULL? then s.imd == Sum1(req) % TWO16 * TWO16 + Sum0(req) % TWO16
      else Signed34(s.imd) == Sum1(req)
    case AHBH => req.op.MULH? && Signed34(s.imd) == Sum2(req)
    case FIRST => true
    case SECOND => req.op.MULH? && Signed34(s.imd) == Sum2(req)
  }

  ghost predicate DivHolds(s: Regs, req: Request) {
    && D(req) > 0 && 0 <= s.count && 0 <= s.quotient
    && s.numerator == N(req) && s.denominator == D(req)
    && Partial(N(req), D(req), s.count, s.quotient, s.imd)
  }

  ghost predicate DivStateHolds(s: Regs, req: Request) {
    match s.md
    case MD_IDLE => true
    case MD_ABS_A => req.b != 0
    case MD_ABS_B => req.b != 0 && s.numerator == N(req) && s.quotient == 0
    case MD_COMP => 1 <= s.count <= 31 && DivHolds(s, req)
    case MD_LAST => s.count == 0 && DivHolds(s, req)
    case MD_CHANGE_SIGN => D(req) > 0 && s.imd == Magnitude(req)
    case MD_FINISH => s.imd % TWO32 == Result(req)
  }

  /** Neither state machine is part-way through anything. */
  predicate AtRest(s: Regs) { s.md.MD_IDLE? && (s.mult.ALBL? || s.mult.FIRST?) }

  ghost predicate Inv(s: Regs, req: Request) {
    && WidthsOk(s)
    && if req.IsMul() then s.md.MD_IDLE? && MultHolds(s, req)
       else (s.mult.ALBL? || s.mult.FIRST?) && DivStateHolds(s, req)
  }

  function Latency(single: bool, req: Request): nat {
    match req.op
    case MULL => if single then 0 else 2
    case MULH => if single then 1 else 3
    case _ => if req.b == 0 then 1 else 36
  }

  function Remaining(s: Regs, req: Request): int {
    if req.IsMul() then
      Latency(IsSingle(s), req) -
      match s.mult { case ALBL => 0 case ALBH => 1 case AHBL => 2 case AHBH => 3 case FIRST => 0 case SECOND => 1 }
    else
      match s.md
      case MD_IDLE => Latency(false, req)
      case MD_ABS_A => 35
      case MD_ABS_B => 34
      case MD_COMP => s.count + 2
      case MD_LAST => 2
      case MD_CHANGE_SIGN => 1
      case MD_FINISH => 0
  }

  // ------------------------------------------------------------------ multiply

  /** `{16{signed & imd[33]}}, imd[33:16]` is the arithmetic shift. */
  lemma AccumHighShifts(imd: int, req: Request)
    requires 0 <= imd < TWO34 && (!Signed(req) ==> imd < TWO33)
    ensures Signed34(AccumHigh(imd, req)) == Signed34(imd) / TWO16
  {
  }

  lemma FieldLow(x: int)
    ensures Field34(x) % TWO16 == x % TWO16 && Field34(x) % TWO32 == x % TWO32
  {
    var k := x / TWO34;
    assert Field34(x) == x - k * TWO34;
    ModMulAdd(x, -k * (TWO34 / TWO16), TWO16);
    ModMulAdd(x, -k * 4, TWO32);
  }

  lemma LowHalfOfSum(x: int, y: int)
    ensures (x + y % TWO16) % TWO16 == (x + y) % TWO16
  {
  }

  lemma PackedHalves(h: int, l: int)
    ensures var x := h % TWO16 * TWO16 + l % TWO16;
            x / TWO16 % TWO16 == h % TWO16 && x % TWO16 == l % TWO16
  {
  }

  /** MUL only keeps the low halves of its sums. */
  lemma MullMacForms(s: Regs, req: Request)
    requires req.op.MULL? && s.mult.AHBL? && MultHolds(s, req)
    ensures MacExact(s, req) % TWO16 == Sum2(req) % TWO16
    ensures s.imd % TWO16 == Sum0(req) % TWO16
  {
    PackedHalves(Sum1(req), Sum0(req));
    LowHalfOfSum(AH(req) * BL(req), Sum1(req));
    hide Sum0, Sum1, AH, BL;
  }

  /** Each state's MAC forms the sum its position calls for, exactly. */
  lemma MacForms(s: Regs, req: Request)
    requires req.IsMul() && WidthsOk(s) && MultHolds(s, req)
    ensures s.mult.ALBL? ==> MacExact(s, req) == Sum0(req)
    ensures s.mult.ALBH? ==> MacExact(s, req) == Sum1(req)
    ensures s.mult.AHBL? && req.op.MULH? ==> MacExact(s, req) == Sum2(req)
    ensures s.mult.AHBH? || s.mult.SECOND? ==> MacExact(s, req) == Sum3(req)
    ensures s.mult.FIRST? ==> MacExact(s, req) == Sum2(req)
  {
    match s.mult {
      case ALBH => MiddleMacForms(s, req);
      case FIRST => MiddleMacForms(s, req);
      case AHBH => HighMacForms(s, req);
      case SECOND => HighMacForms(s, req);
      case _ =>
    }
  }

  lemma MiddleMacForms(s: Regs, req: Request)
    requires s.mult.ALBH? || s.mult.FIRST?
    requires s.mult.ALBH? ==> s.imd == Sum0(req)
    ensures MacExact(s, req) == if s.mult.ALBH? then Sum1(req) else Sum2(req)
  {
    SumsFit(req);
    HighHalf(Sum0(req));
    hide AL, AH, BL, BH;
  }

  lemma HighHalf(x: int)
    requires 0 <= x < TWO32
    ensures x / TWO16 % TWO16 == x / TWO16
  {
  }

  lemma HighMacForms(s: Regs, req: Request)
    requires req.op.MULH? && WidthsOk(s) && Signed34(s.imd) == Sum2(req)
    requires s.mult.AHBH? || s.mult.SECOND?
    ensures MacExact(s, req) == Sum3(req)
  {
    SumsFit(req);
    hide Sum2;
    AccumHighShifts(s.imd, req);
  }

  lemma MullNext(s: Regs, req: Request)
    requires req.op.MULL? && WidthsOk(s) && MultHolds(s, req)
    ensures s.mult.ALBL? ==> MacNext(s, req) == Sum0(req)
    ensures s.mult.ALBH? ==> MacNext(s, req) == Sum1(req) % TWO16 * TWO16 + Sum0(req) % TWO16
    ensures s.mult.AHBL? || s.mult.FIRST? ==> MacNext(s, req) == Result(req)
  {
    SumsFit(req);
    MacForms(s, req);
    FieldLow(MacExact(s, req));
    LowWord(req);
    assert Lo(AL(req) * BL(req)) == Sum0(req) % TWO16;
    if s.mult.AHBL? {
      MullMacForms(s, req);
    }
    hide MacExact, Sum0, Sum1, Sum2, Result, Lo;
  }

  lemma MulhNext(s: Regs, req: Request)
    requires req.op.MULH? && WidthsOk(s) && MultHolds(s, req)
    ensures s.mult.ALBL? ==> MacNext(s, req) == Sum0(req)
    ensures s.mult.ALBH? ==> Signed34(MacNext(s, req)) == Sum1(req)
    ensures s.mult.AHBL? || s.mult.FIRST? ==> Signed34(MacNext(s, req)) == Sum2(req)
    ensures s.mult.AHBH? || s.mult.SECOND? ==> MacNext(s, req) % TWO32 == Result(req)
  {
    SumsFit(req);
    MacForms(s, req);
    FieldLow(MacExact(s, req));
    ProductBySums(req);
    assert Result(req) == Sum3(req) % TWO32;
    hide MacExact, Sum0, Sum1, Sum2, Sum3, Result;
  }

  lemma MullStep(s: Regs, i: Inputs, req: Request)
    requires req.op.MULL? && Inv(s, req) && Driving(i, req) && Enabled(i)
    ensures Inv(Step(s, i), req) && IsSingle(Step(s, i)) == IsSingle(s)
    ensures !Valid(s, i) ==> Remaining(Step(s, i), req) == Remaining(s, req) - 1
    ensures Valid(s, i) ==> Output(s, i) == Result(req)
    ensures Valid(s, i) <==> Remaining(s, req) == 0
    ensures Valid(s, i) ==> if i.ready then AtRest(Step(s, i)) else Step(s, i) == s
  {
    StepWidths(s, i);
    MullNext(s, req);
    Fits(Result(req));
    hide MacNext, Result, Sum0, Sum1;
  }

  lemma MulhStep(s: Regs, i: Inputs, req: Request)
    requires req.op.MULH? && Inv(s, req) && Driving(i, req) && Enabled(i)
    ensures Inv(Step(s, i), req) && IsSingle(Step(s, i)) == IsSingle(s)
    ensures !Valid(s, i) ==> Remaining(Step(s, i), req) == Remaining(s, req) - 1
    ensures Valid(s, i) ==> Output(s, i) == Result(req)
    ensures Valid(s, i) <==> Remaining(s, req) == 0
    ensures Valid(s, i) ==> if i.ready then AtRest(Step(s, i)) else Step(s, i) == s
  {
    StepWidths(s, i);
    MulhNext(s, req);
    hide MacNext, Result, Sum0, Sum1, Sum2;
  }

  // ------------------------------------------------------------------ divide

  lemma CompareExact(s: Regs, req: Request)
    requires s.md.MD_COMP? || s.md.MD_LAST?
    requires 0 <= s.imd < TWO32 && 0 <= s.denominator < TWO32
    ensures ResAdderH(s, req) == s.imd + TWO32 - s.denominator
    ensures IsGreaterEqual(s, req) <==> s.imd >= s.denominator
  {
    Fits(s.imd);
    ComparisonIsExact(s.imd, s.denominator);
  }

  /** One cycle of the divider compares, and subtracts when it may. */
  lemma Compare(s: Regs, req: Request)
    requires WidthsOk(s) && (s.md.MD_COMP? || s.md.MD_LAST?) && s.imd < TWO32
    ensures NextRemainder(s, req) == if s.imd >= s.denominator then s.imd - s.denominator else s.imd
    ensures NextQuotient(s, req)
         == if s.imd >= s.denominator then SetBit(s.quotient, s.count) % TWO32 else s.quotient
  {
    CompareExact(s, req);
  }

  lemma Decide(s: Regs, req: Request) returns (q: nat, r: int)
    requires WidthsOk(s) && DivHolds(s, req) && (s.md.MD_COMP? || s.md.MD_LAST?)
    ensures NextQuotient(s, req) == q && NextRemainder(s, req) == r
    ensures q % Pow2(s.count) == 0 && N(req) / Pow2(s.count) == q / Pow2(s.count) * D(req) + r
    ensures 0 <= r < D(req) && q <= N(req) < TWO32
  {
    MagnitudeA(req);
    MagnitudeB(req);
    PartialBound(N(req), D(req), s.count, s.quotient, s.imd);
    PartialDecide(N(req), D(req), s.count, s.quotient, s.imd);
    Compare(s, req);
    q := if s.imd >= D(req) then SetBit(s.quotient, s.count) else s.quotient;
    r := if s.imd >= D(req) then s.imd - D(req) else s.imd;
    Fits(q);
  }

  lemma BringDown(s: Regs, req: Request, q: nat, r: int)
    requires WidthsOk(s) && DivHolds(s, req) && 1 <= s.count <= 31
    requires q % Pow2(s.count) == 0 && N(req) / Pow2(s.count) == q / Pow2(s.count) * D(req) + r
    requires 0 <= r < D(req)
    ensures Partial(N(req), D(req), s.count - 1, q, r * 2 + BitAt(N(req), s.count - 1))
    ensures 0 <= r * 2 + BitAt(N(req), s.count - 1) < TWO32
  {
    PartialNext(N(req), D(req), s.count, q, r);
    MagnitudeA(req);
    PartialBound(N(req), D(req), s.count - 1, q, r * 2 + BitAt(N(req), s.count - 1));
  }

  lemma DivIdle(s: Regs, req: Request)
    requires !req.IsMul() && s.md.MD_IDLE? && Inv(s, req)
    ensures Inv(DivNext(s, req), req)
    ensures Remaining(DivNext(s, req), req) == Remaining(s, req) - 1
  {
    Negation(req.b);
    assert req.b == 0 ==> (if req.op.DIV? then TWO34 - 1 else req.a) % TWO32 == Result(req);
  }

  lemma DivAbsA(s: Regs, req: Request)
    requires !req.IsMul() && s.md.MD_ABS_A? && Inv(s, req)
    ensures Inv(DivNext(s, req), req)
    ensures Remaining(DivNext(s, req), req) == Remaining(s, req) - 1
  {
    MagnitudeA(req);
    Negation(req.a);
  }

  lemma DivAbsB(s: Regs, req: Request)
    requires !req.IsMul() && s.md.MD_ABS_B? && Inv(s, req)
    ensures Inv(DivNext(s, req), req)
    ensures Remaining(DivNext(s, req), req) == Remaining(s, req) - 1
  {
    MagnitudeA(req);
    MagnitudeB(req);
    Negation(req.b);
    PartialStart(N(req), D(req));
    hide Partial, Result;
  }

  lemma DivCompNext(s: Regs, req: Request)
    requires s.md.MD_COMP? && WidthsOk(s) && 1 <= s.count
    ensures DivNext(s, req) == s.(count := s.count - 1, md := if s.count == 1 then MD_LAST else MD_COMP,
                                  imd := NextRemainder(s, req) * 2 + BitAt(s.numerator, s.count - 1),
                                  quotient := NextQuotient(s, req))
  {
    hide NextQuotient, NextRemainder;
  }

  lemma DivComp(s: Regs, req: Request)
    requires !req.IsMul() && s.md.MD_COMP? && Inv(s, req)
    ensures Inv(DivNext(s, req), req)
    ensures Remaining(DivNext(s, req), req) == Remaining(s, req) - 1
  {
    hide NextQuotient, NextRemainder, Result, DivNext, Partial, BitAt, SetBit, Pow2, N, D, Latency;
    var q, r := Decide(s, req);
    BringDown(s, req, q, r);
    DivCompNext(s, req);
  }

  lemma DivLast(s: Regs, req: Request)
    requires !req.IsMul() && s.md.MD_LAST? && Inv(s, req)
    ensures Inv(DivNext(s, req), req)
    ensures Remaining(DivNext(s, req), req) == Remaining(s, req) - 1
  {
    var q, r := Decide(s, req);
    PartialFinish(N(req), D(req), q, r);
    hide NextQuotient, NextRemainder, Result, Partial;
  }

  lemma DivSign(s: Regs, req: Request)
    requires !req.IsMul() && s.md.MD_CHANGE_SIGN? && Inv(s, req)
    ensures Inv(DivNext(s, req), req)
    ensures Remaining(DivNext(s, req), req) == Remaining(s, req) - 1
  {
    SignedResult(req);
    Negation(s.imd);
    Fits(s.imd);
    assert AluAdder(s, req) == (0 - s.imd) % TWO32;
    hide AluAdder, Result, Magnitude;
    Fits(DivNext(s, req).imd);
  }

  lemma DivStep(s: Regs, i: Inputs, req: Request)
    requires !req.IsMul() && Inv(s, req) && Driving(i, req) && Enabled(i)
    ensures Inv(Step(s, i), req) && IsSingle(Step(s, i)) == IsSingle(s)
    ensures !Valid(s, i) ==> Remaining(Step(s, i), req) == Remaining(s, req) - 1
    ensures Valid(s, i) ==> Output(s, i) == Result(req)
    ensures Valid(s, i) <==> Remaining(s, req) == 0
    ensures Valid(s, i) ==> if i.ready then AtRest(Step(s, i)) else Step(s, i) == s
  {
    if !s.md.MD_FINISH? {
      match s.md {
        case MD_IDLE => DivIdle(s, req);
        case MD_ABS_A => DivAbsA(s, req);
        case MD_ABS_B => DivAbsB(s, req);
        case MD_COMP => DivComp(s, req);
        case MD_LAST => DivLast(s, req);
        case MD_CHANGE_SIGN => DivSign(s, req);
      }
      assert Step(s, i) == DivNext(s, req);
    }
    hide DivHolds, Result, DivNext;
  }

  // ------------------------------------------------------------------ whole operations

  lemma EnabledStep(s: Regs, i: Inputs, req: Request)
    requires Inv(s, req) && Driving(i, req) && Enabled(i)
    ensures Inv(Step(s, i), req) && IsSingle(Step(s, i)) == IsSingle(s)
    ensures !Valid(s, i) ==> Remaining(Step(s, i), req) == Remaining(s, req) - 1
    ensures Valid(s, i) ==> Output(s, i) == Result(req)
    ensures Valid(s, i) <==> Remaining(s, req) == 0
    ensures Valid(s, i) ==> if i.ready then AtRest(Step(s, i)) else Step(s, i) == s
  {
    if req.IsMul() {
      if req.op.MULL? { MullStep(s, i, req); } else { MulhStep(s, i, req); }
    } else {
      DivStep(s, i, req);
    }
  }

  /** A cycle without an enable changes nothing at all, wherever it falls. */
  lemma DisabledStep(s: Regs, i: Inputs)
    requires WidthsOk(s) && !Enabled(i)
    ensures Step(s, i) == s
  {
  }

  function StateAfter(s: Regs, ins: seq<Inputs>, k: nat): Regs
    requires WidthsOk(s) && k <= |ins|
    ensures WidthsOk(StateAfter(s, ins, k))
  {
    if k == 0 then s else
      StepWidths(StateAfter(s, ins, k - 1), ins[k - 1]);
      Step(StateAfter(s, ins, k - 1), ins[k - 1])
  }

  /** The request is driven in every cycle, and its result is not taken before the last. */
  ghost predicate OneOperation(s: Regs, ins: seq<Inputs>, req: Request)
    requires WidthsOk(s)
  {
    && (forall k :: 0 <= k < |ins| ==> Driving(ins[k], req))
    && (forall k :: 0 <= k < |ins| - 1 ==>
          !(Enabled(ins[k]) && Valid(StateAfter(s, ins, k), ins[k]) && ins[k].ready))
  }

  lemma {:induction false} AfterCycles(s: Regs, ins: seq<Inputs>, req: Request, k: nat)
    requires WidthsOk(s) && AtRest(s) && OneOperation(s, ins, req) && k < |ins|
    ensures Inv(StateAfter(s, ins, k), req) && IsSingle(StateAfter(s, ins, k)) == IsSingle(s)
    ensures Remaining(StateAfter(s, ins, k), req)
         == Countdown(Latency(IsSingle(s), req), EnabledCycles(ins[..k], Enabled))
  {
    hide Inv, Remaining, Latency, Step, Valid;
    if k == 0 {
      AtStart(s, req);
      assert ins[..0] == [];
    } else {
      AfterCycles(s, ins, req, k - 1);
      OneMore(s, ins, req, k);
    }
  }

  lemma AtStart(s: Regs, req: Request)
    requires WidthsOk(s) && AtRest(s)
    ensures Inv(s, req) && Remaining(s, req) == Latency(IsSingle(s), req)
  {
  }

  lemma OneMore(s: Regs, ins: seq<Inputs>, req: Request, k: nat)
    requires WidthsOk(s) && OneOperation(s, ins, req) && 0 < k < |ins|
    requires Inv(StateAfter(s, ins, k - 1), req) && IsSingle(StateAfter(s, ins, k - 1)) == IsSingle(s)
    requires Remaining(StateAfter(s, ins, k - 1), req)
          == Countdown(Latency(IsSingle(s), req), EnabledCycles(ins[..k - 1], Enabled))
    ensures Inv(StateAfter(s, ins, k), req) && IsSingle(StateAfter(s, ins, k)) == IsSingle(s)
    ensures Remaining(StateAfter(s, ins, k), req)
         == Countdown(Latency(IsSingle(s), req), EnabledCycles(ins[..k], Enabled))
  {
    var t, i := StateAfter(s, ins, k - 1), ins[k - 1];
    assert StateAfter(s, ins, k) == Step(t, i);
    EnabledCyclesNext(ins, Enabled, k);
    hide Step, Inv, Remaining, Latency, EnabledCycles, Valid, Driving;
    if Enabled(i) {
      EnabledStep(t, i, req);
    } else {
      assert WidthsOk(t);
      DisabledStep(t, i);
    }
  }

  /** From rest, with enables withheld in any cycles and any readiness of the ID stage, the unit
      raises valid in an enabled cycle exactly when `Latency` enabled cycles have gone before,
      and then shows the result the M extension specifies. */
  lemma MeetsSpecification(s: Regs, ins: seq<Inputs>, req: Request, k: nat)
    requires WidthsOk(s) && AtRest(s) && OneOperation(s, ins, req) && k < |ins| && Enabled(ins[k])
    ensures var t := StateAfter(s, ins, k);
            && (Valid(t, ins[k]) <==> EnabledCycles(ins[..k], Enabled) >= Latency(IsSingle(s), req))
            && (Valid(t, ins[k]) ==> Output(t, ins[k]) == Result(req))
  {
    AfterCycles(s, ins, req, k);
    EnabledStep(StateAfter(s, ins, k), ins[k], req);
  }
}
