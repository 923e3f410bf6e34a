/** rtl/ibex_multdiv_fast.sv: a multiplier built from 17x17 signed multiply-accumulate steps,
    in its multi-cycle form (one multiplier) and its single-cycle form (three), and a
    restoring divider. */
module MultDivFast {
  import opened Bits
  import opened MultDivSpec
  import opened RestoringDivision

  datatype MdState = MD_IDLE | MD_ABS_A | MD_ABS_B | MD_COMP | MD_LAST | MD_CHANGE_SIGN | MD_FINISH

  /** The first four states belong to the multi-cycle form, the last two to the single-cycle one. */
  datatype MultState = ALBL | ALBH | AHBL | AHBH | FIRST | SECOND

  datatype Regs = Regs(mult: MultState, md: MdState, count: int, denominator: int, numerator: int,
                       quotient: int, imd: int)

  datatype Inputs = Inputs(multEn: bool, divEn: bool, divSel: bool, req: Request, ready: bool)

  function Reset(single: bool): Regs {
    Regs(if single then FIRST else ALBL, MD_IDLE, 0, 0, 0, 0, 0)
  }

  ghost predicate WidthsOk(s: Regs) {
    && 0 <= s.count < 32
    && 0 <= s.denominator < TWO32
    && 0 <= s.numerator < TWO32
    && 0 <= s.quotient < TWO32
    && 0 <= s.imd < TWO34
  }

  predicate IsSingle(s: Regs) { s.mult.FIRST? || s.mult.SECOND? }

  // ------------------------------------------------------------------ multiplier

  function Lo(x: int): int { x % TWO16 }
  function Hi(x: int): int { x / TWO16 % TWO16 }

  /** `$signed({sign, half})` */
  function Signed17(sign: bool, half: int): int { half - if sign then TWO16 else 0 }

  function AL(req: Request): int { Lo(req.a) }
  function BL(req: Request): int { Lo(req.b) }
  function AH(req: Request): int { Signed17(req.NegativeA(), Hi(req.a)) }
  function BH(req: Request): int { Signed17(req.NegativeB(), Hi(req.b)) }

  /** The accumulator fed to the last step: bits 33:16 of the intermediate value, sign extended
      when either operand is signed. */
  function AccumHigh(imd: int, req: Request): int {
    imd / TWO16 + if (req.signA || req.signB) && imd >= TWO33 then TWO34 - TWO34 / TWO16 else 0
  }

  /** The exact sum the MAC forms before it is cut to 34 bits. */
  function MacExact(s: Regs, req: Request): int {
    match s.mult
    case ALBL => AL(req) * BL(req)
    case ALBH => AL(req) * BH(req) + s.imd / TWO16 % TWO16
    case AHBL =>
      AH(req) * BL(req) + if req.op.MULL? then s.imd / TWO16 % TWO16 else Signed34(s.imd)
    case AHBH => AH(req) * BH(req) + Signed34(AccumHigh(s.imd, req))
    case FIRST => Hi(AL(req) * BL(req)) + AL(req) * BH(req) + AH(req) * BL(req)
    case SECOND => AH(req) * BH(req) + Signed34(AccumHigh(s.imd, req))
  }

  function Mac(s: Regs, req: Request): int { Field34(MacExact(s, req)) }

  /** `mac_res_d` */
  function MacNext(s: Regs, req: Request): int {
    match s.mult
    case ALBH => if req.op.MULL? then Mac(s, req) % TWO16 * TWO16 + s.imd % TWO16 else Mac(s, req)
    case AHBL => if req.op.MULL? then Mac(s, req) % TWO16 * TWO16 + s.imd % TWO16 else Mac(s, req)
    case FIRST =>
      if req.op.MULL? then Mac(s, req) % TWO16 * TWO16 + Lo(AL(req) * BL(req)) else Mac(s, req)
    case _ => Mac(s, req)
  }

  predicate MultValid(s: Regs, i: Inputs) {
    match s.mult
    case AHBL => i.req.op.MULL?
    case AHBH => true
    case FIRST => i.req.op.MULL? && i.multEn
    case SECOND => true
    case _ => false
  }

  predicate MultHold(s: Regs, i: Inputs) {
    && !i.ready
    && match s.mult
       case AHBL => i.req.op.MULL?
       case AHBH => true
       case FIRST => i.req.op.MULL?
       case SECOND => true
       case _ => false
  }

  function MultNext(s: Regs, req: Request): MultState {
    match s.mult
    case ALBL => ALBH
    case ALBH => AHBL
    case AHBL => if req.op.MULL? then ALBL else AHBH
    case AHBH => ALBL
    case FIRST => if req.op.MULL? then FIRST else SECOND
    case SECOND => FIRST
  }

  // ------------------------------------------------------------------ divider

  function AluOperandA(s: Regs): int {
    if s.md.MD_COMP? || s.md.MD_LAST? then Plus(s.imd % TWO32) else Plus(0)
  }

  function AluOperandB(s: Regs, req: Request): int {
    match s.md
    case MD_ABS_A => Minus(req.a)
    case MD_COMP => Minus(s.denominator)
    case MD_LAST => Minus(s.denominator)
    case MD_CHANGE_SIGN => Minus(s.imd % TWO32)
    case _ => Minus(req.b)
  }

  function AdderExt(s: Regs, req: Request): int { AluOperandA(s) + AluOperandB(s, req) }
  function AluAdder(s: Regs, req: Request): int { AdderExt(s, req) / 2 % TWO32 }
  predicate EqualToZero(s: Regs, req: Request) { AluAdder(s, req) == 0 }
  function ResAdderH(s: Regs, req: Request): int { AdderExt(s, req) / 2 }

  predicate IsGreaterEqual(s: Regs, req: Request) {
    GreaterEqual(s.imd, s.denominator, ResAdderH(s, req))
  }

  function NextRemainder(s: Regs, req: Request): int {
    (if IsGreaterEqual(s, req) then ResAdderH(s, req) else s.imd) % TWO32
  }

  function NextQuotient(s: Regs, req: Request): int
    requires WidthsOk(s)
  {
    if IsGreaterEqual(s, req) then SetBit(s.quotient, s.count) % TWO32 else s.quotient
  }

  function DivNext(s: Regs, req: Request): Regs
    requires WidthsOk(s)
  {
    var t := s.(count := Dec5(s.count));
    match s.md
    case MD_IDLE =>
      t.(count := 31, imd := if req.op.DIV? then TWO34 - 1 else req.a,
         md := if EqualToZero(s, req) then MD_FINISH else MD_ABS_A)
    case MD_ABS_A =>
      t.(count := 31, quotient := 0,
         numerator := if req.NegativeA() then AluAdder(s, req) else req.a, md := MD_ABS_B)
    case MD_ABS_B =>
      t.(count := 31, imd := BitAt(s.numerator, 31),
         denominator := if req.NegativeB() then AluAdder(s, req) else req.b, md := MD_COMP)
    case MD_COMP =>
      t.(imd := NextRemainder(s, req) * 2 + BitAt(s.numerator, t.count),
         quotient := NextQuotient(s, req), md := if s.count == 1 then MD_LAST else MD_COMP)
    case MD_LAST =>
      t.(imd := if req.op.DIV? then NextQuotient(s, req) else NextRemainder(s, req), md := MD_CHANGE_SIGN)
    case MD_CHANGE_SIGN =>
      t.(imd := if Negate(req) then AluAdder(s, req) else s.imd, md := MD_FINISH)
    case MD_FINISH => t.(md := MD_IDLE)
  }

  predicate DivValid(s: Regs) { s.md.MD_FINISH? }
  predicate DivHold(s: Regs, i: Inputs) { s.md.MD_FINISH? && !i.ready }

  // ------------------------------------------------------------------ the unit

  predicate Valid(s: Regs, i: Inputs) { MultValid(s, i) || DivValid(s) }

  function Output(s: Regs, i: Inputs): int {
    (if i.divSel then s.imd else MacNext(s, i.req)) % TWO32
  }

  predicate MultAdvances(s: Regs, i: Inputs) { i.multEn && !MultHold(s, i) }
  predicate DivAdvances(s: Regs, i: Inputs) { i.divEn && !DivHold(s, i) }

  /** One clock edge. Unlike the slow unit, nothing is written without an enable. */
  function Step(s: Regs, i: Inputs): Regs
    requires WidthsOk(s)
  {
    var d := DivNext(s, i.req);
    (if DivAdvances(s, i) then d else s).(
      mult := if MultAdvances(s, i) then MultNext(s, i.req) else s.mult,
      imd := if !MultAdvances(s, i) && !DivAdvances(s, i) then s.imd
             else if i.divSel then d.imd else MacNext(s, i.req))
  }

  lemma MacWidth(s: Regs, req: Request)
    ensures 0 <= Mac(s, req) < TWO34 && 0 <= MacNext(s, req) < TWO34
  {
    hide MacExact;
  }

  lemma StepWidths(s: Regs, i: Inputs)
    requires WidthsOk(s)
    ensures WidthsOk(Step(s, i))
  {
    MacWidth(s, i.req);
    hide MacNext;
  }

  class MultDivUnit {
    var mult: MultState
    var md: MdState
    var count: int
    var denominator: int
    var numerator: int
    var quotient: int
    var imd: int

    function State(): Regs
      reads this
    {
      Regs(mult, md, count, denominator, numerator, quotient, imd)
    }

    constructor (single: bool)
      ensures State() == Reset(single)
    {
      mult, md := if single then FIRST else ALBL, MD_IDLE;
      count, denominator, numerator, quotient, imd := 0, 0, 0, 0, 0;
    }

    method Clock(i: Inputs)
      requires WidthsOk(State())
      modifies this
      ensures State() == Step(old(State()), i)
      ensures WidthsOk(State())
    {
      var s := State();
      StepWidths(s, i);
      hide MacNext;
      var d := DivNext(s, i.req);
      var remainder := d.imd;
      if DivAdvances(s, i) {
        count := d.count;
        denominator := d.denominator;
        numerator := d.numerator;
        quotient := d.quotient;
        md := d.md;
      }
      if MultAdvances(s, i) {
        mult := MultNext(s, i.req);
      }
      if MultAdvances(s, i) || DivAdvances(s, i) {
        imd := if i.divSel then remainder else MacNext(s, i.req);
      }
    }
  }
}
