/** rtl/ibex_multdiv_slow.sv: Baugh-Wooley shift-and-add multiplier and restoring divider
    around the ALU's 33-bit adder. */
module MultDivSlow {
  import opened Bits
  import opened MultDivSpec
  import opened RestoringDivision

  datatype MdState = MD_IDLE | MD_ABS_A | MD_ABS_B | MD_COMP | MD_LAST | MD_CHANGE_SIGN | MD_FINISH

  /** The flops, with `imd` the 34-bit intermediate value register the ID stage lends. */
  datatype Regs = Regs(md: MdState, count: int, opAShift: int, opBShift: int, numerator: int, imd: int) {
    function Accum(): int { imd % TWO33 }
  }

  datatype Inputs = Inputs(multEn: bool, divEn: bool, multSel: bool, divSel: bool, req: Request, ready: bool)

  const RESET := Regs(MD_IDLE, 0, 0, 0, 0, 0)

  ghost predicate WidthsOk(s: Regs) {
    && 0 <= s.count < 32
    && 0 <= s.opAShift < TWO33
    && 0 <= s.opBShift < TWO33
    && 0 <= s.numerator < TWO32
    && 0 <= s.imd < TWO34
  }

  // ------------------------------------------------------------------ operand preparation

  /** Operands sign extended to 33 bits. */
  function OpAExt(req: Request): int { req.a + if req.NegativeA() then TWO32 else 0 }
  function OpBExt(req: Request): int { req.b + if req.NegativeB() then TWO32 else 0 }

  /** `{~(x[32] & b), x[31:0] & {32{b}}}` */
  function PartialProduct(x: int, b: bool): int {
    (if x / TWO32 % 2 == 1 && b then 0 else TWO32) + (if b then x % TWO32 else 0)
  }

  /** `{x[32] & b, ~(x[31:0] & {32{b}})}` */
  function LastPartialProduct(x: int, b: bool): int {
    (if x / TWO32 % 2 == 1 && b then TWO32 else 0) + (TWO32 - 1 - (if b then x % TWO32 else 0))
  }

  // ------------------------------------------------------------------ the shared ALU adder

  function AluOperandA(s: Regs, req: Request): int {
    if req.IsMul() then s.Accum()
    else if s.md in {MD_IDLE, MD_ABS_A, MD_ABS_B, MD_CHANGE_SIGN} then Plus(0)
    else Plus(s.Accum() % TWO32)
  }

  function AluOperandB(s: Regs, req: Request): int {
    match req.op
    case MULL => PartialProduct(s.opAShift, s.opBShift % 2 == 1)
    case MULH =>
      if s.md.MD_LAST? then LastPartialProduct(s.opAShift, s.opBShift % 2 == 1)
      else PartialProduct(s.opAShift, s.opBShift % 2 == 1)
    case _ =>
      match s.md
      case MD_IDLE => Minus(req.b)
      case MD_ABS_A => Minus(req.a)
      case MD_ABS_B => Minus(req.b)
      case MD_CHANGE_SIGN => Minus(s.Accum() % TWO32)
      case _ => Minus(s.opBShift % TWO32)
  }

  function AdderExt(s: Regs, req: Request): int { AluOperandA(s, req) + AluOperandB(s, req) }
  function AluAdder(s: Regs, req: Request): int { AdderExt(s, req) / 2 % TWO32 }
  predicate EqualToZero(s: Regs, req: Request) { AluAdder(s, req) == 0 }
  function ResAdderL(s: Regs, req: Request): int { AdderExt(s, req) % TWO33 }
  function ResAdderH(s: Regs, req: Request): int { AdderExt(s, req) / 2 }

  // ------------------------------------------------------------------ one quotient bit

  predicate IsGreaterEqual(s: Regs, req: Request) {
    GreaterEqual(s.Accum(), s.opBShift, ResAdderH(s, req))
  }

  function NextRemainder(s: Regs, req: Request): int {
    if IsGreaterEqual(s, req) then ResAdderH(s, req) else s.Accum()
  }

  function NextQuotient(s: Regs, req: Request): int
    requires WidthsOk(s)
  {
    if IsGreaterEqual(s, req) then SetBit(s.opAShift, s.count) % TWO33 else s.opAShift
  }

  // ------------------------------------------------------------------ next state and outputs

  /** `multdiv_hold`: a finished result waits for the ID stage. */
  predicate Hold(s: Regs, i: Inputs) {
    && (i.multSel || i.divSel)
    && (s.md.MD_FINISH? || (s.md.MD_LAST? && i.req.IsMul()))
    && !i.ready
  }

  predicate Valid(s: Regs, i: Inputs) {
    s.md.MD_FINISH? || (s.md.MD_LAST? && i.req.IsMul())
  }

  function Output(s: Regs, i: Inputs): int {
    if i.divSel then s.Accum() % TWO32 else ResAdderL(s, i.req) % TWO32
  }

  /** The `_d` values of the combinational block. */
  function Next(s: Regs, i: Inputs): Regs
    requires WidthsOk(s)
  {
    var req := i.req;
    var b0 := req.b % 2 == 1;
    match s.md
    case MD_IDLE => (
      var s := s.(count := 31);
      match req.op
      case MULL =>
        s.(opAShift := OpAExt(req) * 2 % TWO33,
           imd := PartialProduct(OpAExt(req), b0),
           opBShift := OpBExt(req) / 2,
           md := if OpBExt(req) / 2 == 0 then MD_LAST else MD_COMP)
      case MULH =>
        s.(opAShift := OpAExt(req),
           imd := TWO32 + PartialProduct(OpAExt(req), b0) / 2,
           opBShift := OpBExt(req) / 2,
           md := MD_COMP)
      case DIV => s.(imd := TWO33 - 1, md := if EqualToZero(s, req) then MD_FINISH else MD_ABS_A)
      case REM => s.(imd := OpAExt(req), md := if EqualToZero(s, req) then MD_FINISH else MD_ABS_A)
    )
    case MD_ABS_A =>
      s.(opAShift := 0, imd := s.Accum(),
         numerator := if req.NegativeA() then AluAdder(s, req) else req.a, md := MD_ABS_B)
    case MD_ABS_B =>
      s.(imd := BitAt(s.numerator, 31),
         opBShift := if req.NegativeB() then AluAdder(s, req) else req.b, md := MD_COMP)
    case MD_COMP => (
      var md := if s.count == 1 then MD_LAST else MD_COMP;
      match req.op
      case MULL =>
        Regs(if s.opBShift / 2 == 0 then MD_LAST else MD_COMP, Dec5(s.count), s.opAShift * 2 % TWO33,
             s.opBShift / 2, s.numerator, ResAdderL(s, req))
      case MULH =>
        Regs(md, Dec5(s.count), s.opAShift, s.opBShift / 2, s.numerator, ResAdderH(s, req))
      case _ =>
        Regs(md, Dec5(s.count), NextQuotient(s, req), s.opBShift, s.numerator,
             NextRemainder(s, req) % TWO32 * 2 + BitAt(s.numerator, Dec5(s.count)))
    )
    case MD_LAST => (
      match req.op
      case DIV => s.(imd := NextQuotient(s, req), md := MD_CHANGE_SIGN)
      case REM => s.(imd := NextRemainder(s, req) % TWO32, md := MD_CHANGE_SIGN)
      case _ => s.(imd := ResAdderL(s, req), md := MD_IDLE)
    )
    case MD_CHANGE_SIGN => s.(imd := if Negate(req) then AluAdder(s, req) else s.Accum(), md := MD_FINISH)
    case MD_FINISH => s.(imd := s.Accum(), md := MD_IDLE)
  }

  /** One clock edge. The intermediate value is written whenever the unit is selected and not
      holding; the unit's own flops also need an enable. */
  function Step(s: Regs, i: Inputs): Regs
    requires WidthsOk(s)
  {
    if Hold(s, i) || !(i.multSel || i.divSel) then s
    else
      var d := Next(s, i);
      if i.multEn || i.divEn then d else s.(imd := d.imd)
  }

  lemma AdderFits(s: Regs, req: Request)
    requires WidthsOk(s)
    ensures 0 <= AluAdder(s, req) < TWO32 && 0 <= ResAdderL(s, req) < TWO33 && 0 <= ResAdderH(s, req) < TWO33
  {
  }

  lemma QuotientFits(s: Regs, req: Request)
    requires WidthsOk(s)
    ensures 0 <= NextRemainder(s, req) < TWO33 && 0 <= NextQuotient(s, req) < TWO33
  {
    hide ResAdderH, IsGreaterEqual, SetBit;
    AdderFits(s, req);
  }

  lemma NextFits(s: Regs, i: Inputs)
    requires WidthsOk(s)
    ensures WidthsOk(Next(s, i))
  {
    hide ResAdderL, ResAdderH, AluAdder, NextRemainder, NextQuotient, EqualToZero, Negate;
    AdderFits(s, i.req);
    QuotientFits(s, i.req);
  }

  lemma WidthsStep(s: Regs, i: Inputs)
    requires WidthsOk(s)
    ensures WidthsOk(Step(s, i))
  {
    hide Next, Hold;
    NextFits(s, i);
  }

  class MultDivUnit {
    var md: MdState
    var count: int
    var opAShift: int
    var opBShift: int
    var numerator: int
    var imd: int

    function State(): Regs
      reads this
    {
      Regs(md, count, opAShift, opBShift, numerator, imd)
    }

    constructor ()
      ensures State() == RESET
    {
      md, count, opAShift, opBShift, numerator, imd := MD_IDLE, 0, 0, 0, 0, 0;
    }

    method Clock(i: Inputs)
      requires WidthsOk(State())
      modifies this
      ensures State() == Step(old(State()), i)
      ensures WidthsOk(State())
    {
      WidthsStep(State(), i);
      hide Next, Hold;
      if (i.multSel || i.divSel) && !Hold(State(), i) {
        var d := Next(State(), i);
        if i.multEn || i.divEn {
          count := d.count;
          opBShift := d.opBShift;
          opAShift := d.opAShift;
          numerator := d.numerator;
          md := d.md;
        }
        imd := d.imd;
      }
    }
  }
}
