/** rtl/ibex_alu.sv, lines 46-48, 196-322, 436-513 and 515-564, with RV32B set: the one right
    shifter that, with a bit reverser around it, does all shifts in one cycle and rotates and funnel
    shifts in two; and the shuffle network. A word is the sequence of its bits, lowest first. */
module AluShifter {

  type Word = w: seq<bool> | |w| == 32 witness seq(32, i => false)

  datatype Op = SLL | SRL | SRA | SLO | SRO | ROL | ROR | FSL | FSR | GREV | GORC

  function Or(x: Word, y: Word): Word { seq(32, i requires 0 <= i < 32 => x[i] || y[i]) }

  // ------------------------------------------------------------------ the reversing stages

  /** Stage masks select the bits whose index has one given bit clear, to go up, or set, to go down. */
  function Swap1(x: Word): Word { seq(32, i requires 0 <= i < 32 => x[if i % 2 == 0 then i + 1 else i - 1]) }
  function Swap2(x: Word): Word { seq(32, i requires 0 <= i < 32 => x[if i % 4 < 2 then i + 2 else i - 2]) }
  function Swap4(x: Word): Word { seq(32, i requires 0 <= i < 32 => x[if i % 8 < 4 then i + 4 else i - 4]) }
  function Swap8(x: Word): Word { seq(32, i requires 0 <= i < 32 => x[if i % 16 < 8 then i + 8 else i - 8]) }
  function Swap16(x: Word): Word { seq(32, i requires 0 <= i < 32 => x[if i < 16 then i + 16 else i - 16]) }

  /** A stage that is not selected passes its input on; or-combine keeps it as well. */
  function Stage(x: Word, swapped: Word, on: bool, orCombine: bool): Word {
    if !on then x else if orCombine then Or(x, swapped) else swapped
  }

  predicate BitOf(n: nat, weight: nat)
    requires weight > 0
  {
    n / weight % 2 == 1
  }

  function Stages(x: Word, on: nat, c: bool): Word {
    var x1 := Stage(x, Swap1(x), BitOf(on, 1), c);
    var x2 := Stage(x1, Swap2(x1), BitOf(on, 2), c);
    var x4 := Stage(x2, Swap4(x2), BitOf(on, 4), c);
    var x8 := Stage(x4, Swap8(x4), BitOf(on, 8), c);
    Stage(x8, Swap16(x8), BitOf(on, 16), c)
  }

  /** `operand_a_rev`, by wiring. */
  function Reversed(x: Word): Word { seq(32, i requires 0 <= i < 32 => x[31 - i]) }

  // ------------------------------------------------------------------ shift control

  predicate Funnel(op: Op) { op.FSL? || op.FSR? }

  /** `operand_b_i[4:0]` of an amount. */
  function Low(b: nat): nat { b % 32 }

  /** Bit 5 of the amount swaps the two cycles of a funnel shift. */
  predicate WordSwap(op: Op, b: nat) { Funnel(op) && BitOf(b, 32) }

  /** `32 - operand_b_i[4:0]`, its lowest five bits. */
  function Complement(b: nat): nat { (32 - Low(b)) % 32 }

  function ShiftAmt(op: Op, b: nat, first: bool): (n: nat)
    ensures n < 32
  {
    if first then if WordSwap(op, b) then Complement(b) else Low(b)
    else if WordSwap(op, b) then Low(b) else Complement(b)
  }

  predicate ShiftLeft(op: Op, b: nat, first: bool) {
    match op
    case SLL => true
    case SLO => true
    case ROL => first
    case ROR => !first
    case FSL => if WordSwap(op, b) then !first else first
    case FSR => if WordSwap(op, b) then first else !first
    case _ => false
  }

  /** Right shift of the 33-bit operand, whose top bit is shifted in. */
  function RightShift(x: Word, top: bool, n: nat): Word {
    seq(32, i requires 0 <= i < 32 => if i + n < 32 then x[i + n] else top)
  }

  function ShiftResult(op: Op, a: Word, b: nat, first: bool): Word {
    var amt, left := ShiftAmt(op, b, first), ShiftLeft(op, b, first);
    var x := if left then Reversed(a) else a;
    var y := RightShift(x, op.SLO? || op.SRO? || (op.SRA? && x[31]), amt);
    if op.GREV? || op.GORC? then Stages(a, amt, op.GORC?)
    else if left then Stages(y, 31, false)
    else y
  }

  // ------------------------------------------------------------------ two-cycle operations

  /** The value kept in the intermediate register after the first cycle. */
  function FirstCycle(op: Op, a: Word, b: nat): Word { ShiftResult(op, a, b, true) }

  function SecondCycle(op: Op, a: Word, b: nat, imd: Word): Word {
    if ShiftAmt(op, b, false) == 0 then if WordSwap(op, b) then a else imd
    else Or(imd, ShiftResult(op, a, b, false))
  }

  /** Ternary instructions have rs3 on operand a in the second cycle. */
  function TwoCycles(op: Op, rs1: Word, rs2: nat, rs3: Word): Word {
    SecondCycle(op, if Funnel(op) then rs3 else rs1, rs2, FirstCycle(op, rs1, rs2))
  }

  // ------------------------------------------------------------------ shuffle

  /** Which bit each shuffle stage moves to position `i`. */
  function Zip8Index(i: nat): nat { if 16 <= i < 24 then i - 8 else if 8 <= i < 16 then i + 8 else i }
  function Zip4Index(i: nat): nat { if 8 <= i % 16 < 12 then i - 4 else if 4 <= i % 16 < 8 then i + 4 else i }
  function Zip2Index(i: nat): nat { if 4 <= i % 8 < 6 then i - 2 else if 2 <= i % 8 < 4 then i + 2 else i }
  function Zip1Index(i: nat): nat { if i % 4 == 2 then i - 1 else if i % 4 == 1 then i + 1 else i }

  function Zip8(x: Word): Word { seq(32, i requires 0 <= i < 32 => x[Zip8Index(i)]) }
  function Zip4(x: Word): Word { seq(32, i requires 0 <= i < 32 => x[Zip4Index(i)]) }
  function Zip2(x: Word): Word { seq(32, i requires 0 <= i < 32 => x[Zip2Index(i)]) }
  function Zip1(x: Word): Word { seq(32, i requires 0 <= i < 32 => x[Zip1Index(i)]) }

  /** FLIP_MASK_L and FLIP_MASK_R: which bit goes where. */
  function FlipIndex(i: nat): (j: nat)
    requires i < 32
    ensures j < 32
  {
    if i == 8 || i == 12 || i == 25 || i == 29 then i - 6
    else if i == 2 || i == 6 || i == 19 || i == 23 then i + 6
    else if i == 18 || i == 22 then i - 9
    else if i == 9 || i == 13 then i + 9
    else if i == 16 || i == 20 || i == 26 || i == 30 then i - 15
    else if i == 1 || i == 5 || i == 11 || i == 15 then i + 15
    else if i == 24 || i == 28 then i - 21
    else if i == 3 || i == 7 then i + 21
    else i
  }

  function Flip(x: Word): Word { seq(32, i requires 0 <= i < 32 => x[FlipIndex(i)]) }

  /** `shuffle_mode`: which of the four stages are on. */
  datatype Mode = Mode(m3: bool, m2: bool, m1: bool, m0: bool)

  function ModeOf(b: nat): Mode { Mode(BitOf(b, 8), BitOf(b, 4), BitOf(b, 2), BitOf(b, 1)) }

  function Mirrored(m: Mode): Mode { Mode(m.m0, m.m1, m.m2, m.m3) }

  function Zips(x: Word, m: Mode): Word {
    var x3 := if m.m3 then Zip8(x) else x;
    var x2 := if m.m2 then Zip4(x3) else x3;
    var x1 := if m.m1 then Zip2(x2) else x2;
    if m.m0 then Zip1(x1) else x1
  }

  function Shfl(x: Word, b: nat): Word { Zips(x, ModeOf(b)) }

  /** The same stages in the same order, between two flips and with the mode bits mirrored. */
  function Unshfl(x: Word, b: nat): Word { Flip(Zips(Flip(x), Mirrored(ModeOf(b)))) }
}

/** Positions in a word by their five index bits, highest first. */
module BitPositions {

  function At(b4: bool, b3: bool, b2: bool, b1: bool, b0: bool): (i: nat)
    ensures i < 32
  {
    (if b4 then 16 else 0) + (if b3 then 8 else 0) + (if b2 then 4 else 0) + (if b1 then 2 else 0) + if b0 then 1 else 0
  }

  lemma BitsOf(i: nat) returns (b4: bool, b3: bool, b2: bool, b1: bool, b0: bool)
    requires i < 32
    ensures i == At(b4, b3, b2, b1, b0)
  {
    b4 := i >= 16;
    var i3 := if b4 then i - 16 else i;
    b3 := i3 >= 8;
    var i2 := if b3 then i3 - 8 else i3;
    b2 := i2 >= 4;
    var i1 := if b2 then i2 - 4 else i2;
    b1 := i1 >= 2;
    b0 := (if b1 then i1 - 2 else i1) >= 1;
  }
}

module AluShifterProofs {
  import opened AluShifter
  import opened BitPositions

  // ------------------------------------------------------------------ shifts

  /** Each block of so many bits is mirrored. */
  ghost predicate MirroredIn2(x: Word, y: Word) { forall i :: 0 <= i < 32 ==> y[i] == x[i - i % 2 + 1 - i % 2] }
  ghost predicate MirroredIn4(x: Word, y: Word) { forall i :: 0 <= i < 32 ==> y[i] == x[i - i % 4 + 3 - i % 4] }
  ghost predicate MirroredIn8(x: Word, y: Word) { forall i :: 0 <= i < 32 ==> y[i] == x[i - i % 8 + 7 - i % 8] }
  ghost predicate MirroredIn16(x: Word, y: Word) { forall i :: 0 <= i < 32 ==> y[i] == x[i - i % 16 + 15 - i % 16] }

  lemma MirrorIn2(x: Word)
    ensures MirroredIn2(x, Swap1(x))
  {
  }

  lemma MirrorIn4(x: Word, y: Word)
    requires MirroredIn2(x, y)
    ensures MirroredIn4(x, Swap2(y))
  {
    forall i | 0 <= i < 32 ensures Swap2(y)[i] == x[i - i % 4 + 3 - i % 4] {
      var j := if i % 4 < 2 then i + 2 else i - 2;
      assert j - j % 2 + 1 - j % 2 == i - i % 4 + 3 - i % 4;
      assert y[j] == x[j - j % 2 + 1 - j % 2];
    }
  }

  lemma MirrorIn8(x: Word, y: Word)
    requires MirroredIn4(x, y)
    ensures MirroredIn8(x, Swap4(y))
  {
    forall i | 0 <= i < 32 ensures Swap4(y)[i] == x[i - i % 8 + 7 - i % 8] {
      var j := if i % 8 < 4 then i + 4 else i - 4;
      assert j - j % 4 + 3 - j % 4 == i - i % 8 + 7 - i % 8;
      assert y[j] == x[j - j % 4 + 3 - j % 4];
    }
  }

  lemma MirrorIn16(x: Word, y: Word)
    requires MirroredIn8(x, y)
    ensures MirroredIn16(x, Swap8(y))
  {
    forall i | 0 <= i < 32 ensures Swap8(y)[i] == x[i - i % 16 + 15 - i % 16] {
      var j := if i % 16 < 8 then i + 8 else i - 8;
      assert j - j % 8 + 7 - j % 8 == i - i % 16 + 15 - i % 16;
      assert y[j] == x[j - j % 8 + 7 - j % 8];
    }
  }

  lemma MirrorIn32(x: Word, y: Word)
    requires MirroredIn16(x, y)
    ensures Swap16(y) == Reversed(x)
  {
    forall i | 0 <= i < 32 ensures Swap16(y)[i] == x[31 - i] {
      var j := if i < 16 then i + 16 else i - 16;
      assert y[j] == x[j - j % 16 + 15 - j % 16];
    }
  }

  lemma AllStages(x: Word)
    ensures Stages(x, 31, false) == Swap16(Swap8(Swap4(Swap2(Swap1(x)))))
  {
    hide Swap1, Swap2, Swap4, Swap8, Swap16;
    assert BitOf(31, 1) && BitOf(31, 2) && BitOf(31, 4) && BitOf(31, 8) && BitOf(31, 16);
  }

  /** All five stages together reverse the word: each mirrors blocks twice as long. */
  lemma StagesReverse(x: Word)
    ensures Stages(x, 31, false) == Reversed(x)
  {
    hide *;
    AllStages(x);
    MirrorIn2(x);
    MirrorIn4(x, Swap1(x));
    MirrorIn8(x, Swap2(Swap1(x)));
    MirrorIn16(x, Swap4(Swap2(Swap1(x))));
    MirrorIn32(x, Swap8(Swap4(Swap2(Swap1(x)))));
  }

  /** One bit of a shift result, without the reversals. */
  function ShiftedBit(op: Op, a: Word, b: nat, first: bool, i: nat): bool
    requires i < 32
  {
    var n := ShiftAmt(op, b, first);
    if ShiftLeft(op, b, first) then if i >= n then a[i - n] else op.SLO?
    else if i + n < 32 then a[i + n] else op.SRO? || (op.SRA? && a[31])
  }

  lemma ShiftBit(op: Op, a: Word, b: nat, first: bool, i: nat)
    requires !op.GREV? && !op.GORC? && i < 32
    ensures ShiftResult(op, a, b, first)[i] == ShiftedBit(op, a, b, first, i)
  {
    hide Stages, ShiftAmt;
    if ShiftLeft(op, b, first) {
      StagesReverse(RightShift(Reversed(a), op.SLO?, ShiftAmt(op, b, first)));
    }
  }

  /** The single-cycle shifts, bit by bit. */
  function Shifted(op: Op, a: Word, n: nat): Word {
    match op
    case SLL => seq(32, i requires 0 <= i < 32 => i >= n && a[i - n])
    case SLO => seq(32, i requires 0 <= i < 32 => i < n || a[i - n])
    case SRL => seq(32, i requires 0 <= i < 32 => i + n < 32 && a[i + n])
    case SRO => seq(32, i requires 0 <= i < 32 => i + n >= 32 || a[i + n])
    case SRA => seq(32, i requires 0 <= i < 32 => if i + n < 32 then a[i + n] else a[31])
    case _ => a
  }

  lemma ShiftIsShiftAt(op: Op, a: Word, b: nat, i: nat)
    requires (op.SLL? || op.SRL? || op.SRA? || op.SLO? || op.SRO?) && i < 32
    ensures ShiftResult(op, a, b, true)[i] == Shifted(op, a, b % 32)[i]
  {
    hide ShiftResult;
    assert ShiftAmt(op, b, true) == b % 32;
    hide ShiftAmt;
    ShiftBit(op, a, b, true, i);
  }

  /** The reversing right shifter does every shift. */
  lemma ShiftsAreShifts(op: Op, a: Word, b: nat)
    requires op.SLL? || op.SRL? || op.SRA? || op.SLO? || op.SRO?
    ensures ShiftResult(op, a, b, true) == Shifted(op, a, b % 32)
  {
    hide *;
    forall i | 0 <= i < 32 ensures ShiftResult(op, a, b, true)[i] == Shifted(op, a, b % 32)[i] {
      ShiftIsShiftAt(op, a, b, i);
    }
  }

  // ------------------------------------------------------------------ rotates and funnel shifts

  /** One bit of a two-cycle result. */
  lemma TwoCycleBit(op: Op, rs1: Word, b: nat, rs3: Word, i: nat)
    requires !op.GREV? && !op.GORC? && i < 32
    ensures var a := if Funnel(op) then rs3 else rs1;
            TwoCycles(op, rs1, b, rs3)[i] ==
              if ShiftAmt(op, b, false) == 0
              then if WordSwap(op, b) then a[i] else ShiftedBit(op, rs1, b, true, i)
              else ShiftedBit(op, rs1, b, true, i) || ShiftedBit(op, a, b, false, i)
  {
    ShiftBit(op, rs1, b, true, i);
    ShiftBit(op, if Funnel(op) then rs3 else rs1, b, false, i);
    hide ShiftResult, ShiftedBit, ShiftAmt, WordSwap;
  }

  /** The amounts of the two cycles. */
  lemma Amounts(op: Op, b: nat)
    requires b < 64
    ensures var n := if b < 32 then b else b - 32;
            var c, swap := if n == 0 then 0 else 32 - n, Funnel(op) && b >= 32;
            && ShiftAmt(op, b, true) == (if swap then c else n) && ShiftAmt(op, b, false) == (if swap then n else c)
            && WordSwap(op, b) == swap
  {
    if b < 32 {
      assert Low(b) == b && !BitOf(b, 32);
    } else {
      assert Low(b) == b - 32 && BitOf(b, 32);
    }
    hide Low, BitOf;
  }

  /** The word that starts at bit `s` of the double word {hi, lo}, wrapping round. */
  function WordFrom(hi: Word, lo: Word, s: nat): Word
    requires s < 64
  {
    seq(32, i requires 0 <= i < 32 =>
      var k := if i + s < 64 then i + s else i + s - 64;
      if k < 32 then lo[k] else hi[k - 32])
  }

  /** A left funnel shift delivers the word `amount` bits below the high word of {rs1, rs3}. */
  lemma FunnelLeft(rs1: Word, amount: nat, rs3: Word)
    requires amount < 64
    ensures TwoCycles(FSL, rs1, amount, rs3) == WordFrom(rs1, rs3, if amount <= 32 then 32 - amount else 96 - amount)
  {
    hide TwoCycles, ShiftAmt, WordSwap;
    Amounts(FSL, amount);
    var s := if amount <= 32 then 32 - amount else 96 - amount;
    forall i | 0 <= i < 32 ensures TwoCycles(FSL, rs1, amount, rs3)[i] == WordFrom(rs1, rs3, s)[i] {
      TwoCycleBit(FSL, rs1, amount, rs3, i);
    }
  }

  /** A right funnel shift delivers the word `amount` bits above the low word of {rs3, rs1}. */
  lemma FunnelRight(rs1: Word, amount: nat, rs3: Word)
    requires amount < 64
    ensures TwoCycles(FSR, rs1, amount, rs3) == WordFrom(rs3, rs1, amount)
  {
    hide TwoCycles, ShiftAmt, WordSwap;
    Amounts(FSR, amount);
    forall i | 0 <= i < 32 ensures TwoCycles(FSR, rs1, amount, rs3)[i] == WordFrom(rs3, rs1, amount)[i] {
      TwoCycleBit(FSR, rs1, amount, rs3, i);
    }
  }

  /** Rotates are funnel shifts of a word with itself, by the amount modulo 32. */
  lemma RotateLeft(rs1: Word, amount: nat, rs3: Word)
    requires amount < 64
    ensures TwoCycles(ROL, rs1, amount, rs3) == WordFrom(rs1, rs1, 32 - if amount < 32 then amount else amount - 32)
  {
    hide TwoCycles, ShiftAmt, WordSwap;
    Amounts(ROL, amount);
    var n := if amount < 32 then amount else amount - 32;
    forall i | 0 <= i < 32 ensures TwoCycles(ROL, rs1, amount, rs3)[i] == WordFrom(rs1, rs1, 32 - n)[i] {
      TwoCycleBit(ROL, rs1, amount, rs3, i);
    }
  }

  lemma RotateRight(rs1: Word, amount: nat, rs3: Word)
    requires amount < 64
    ensures TwoCycles(ROR, rs1, amount, rs3) == WordFrom(rs1, rs1, if amount < 32 then amount else amount - 32)
  {
    hide TwoCycles, ShiftAmt, WordSwap;
    Amounts(ROR, amount);
    var n := if amount < 32 then amount else amount - 32;
    forall i | 0 <= i < 32 ensures TwoCycles(ROR, rs1, amount, rs3)[i] == WordFrom(rs1, rs1, n)[i] {
      TwoCycleBit(ROR, rs1, amount, rs3, i);
    }
  }

  // ------------------------------------------------------------------ shuffle and unshuffle

  lemma FlipTwice(x: Word)
    ensures Flip(Flip(x)) == x
  {
    hide FlipIndex;
    forall i | 0 <= i < 32 ensures FlipIndex(FlipIndex(i)) == i {
      var b4, b3, b2, b1, b0 := BitsOf(i);
      hide At;
      FlipReversesBits(b4, b3, b2, b1, b0);
      FlipReversesBits(b0, b1, b2, b3, b4);
    }
  }

  lemma ZipsTwiceAt(i: nat)
    requires i < 32
    ensures Zip8Index(i) < 32 && Zip4Index(i) < 32 && Zip2Index(i) < 32 && Zip1Index(i) < 32
    ensures Zip8Index(Zip8Index(i)) == i && Zip4Index(Zip4Index(i)) == i
    ensures Zip2Index(Zip2Index(i)) == i && Zip1Index(Zip1Index(i)) == i
  {
    var b4, b3, b2, b1, b0 := BitsOf(i);
    hide At, Zip8Index, Zip4Index, Zip2Index, Zip1Index;
    ZipsSwapBits(b4, b3, b2, b1, b0);
    ZipsSwapBits(b3, b4, b2, b1, b0);
    ZipsSwapBits(b4, b2, b3, b1, b0);
    ZipsSwapBits(b4, b3, b1, b2, b0);
    ZipsSwapBits(b4, b3, b2, b0, b1);
  }

  lemma ZipTwice(x: Word)
    ensures Zip8(Zip8(x)) == x && Zip4(Zip4(x)) == x && Zip2(Zip2(x)) == x && Zip1(Zip1(x)) == x
  {
    hide Zip8Index, Zip4Index, Zip2Index, Zip1Index;
    forall i | 0 <= i < 32
      ensures Zip8(Zip8(x))[i] == x[i] && Zip4(Zip4(x))[i] == x[i]
      ensures Zip2(Zip2(x))[i] == x[i] && Zip1(Zip1(x))[i] == x[i]
    {
      ZipsTwiceAt(i);
    }
  }

  /** The flip reverses the five bits of a position, and each stage swaps two neighbouring ones. */
  lemma FlipReversesBits(b4: bool, b3: bool, b2: bool, b1: bool, b0: bool)
    ensures FlipIndex(At(b4, b3, b2, b1, b0)) == At(b0, b1, b2, b3, b4)
  {
  }

  lemma ZipsSwapBits(b4: bool, b3: bool, b2: bool, b1: bool, b0: bool)
    ensures Zip8Index(At(b4, b3, b2, b1, b0)) == At(b3, b4, b2, b1, b0)
    ensures Zip4Index(At(b4, b3, b2, b1, b0)) == At(b4, b2, b3, b1, b0)
    ensures Zip2Index(At(b4, b3, b2, b1, b0)) == At(b4, b3, b1, b2, b0)
    ensures Zip1Index(At(b4, b3, b2, b1, b0)) == At(b4, b3, b2, b0, b1)
  {
  }

  /** So the flip turns each stage into its mirror image. */
  lemma FlipMirrorsAt(x: Word, i: nat)
    requires i < 32
    ensures Flip(Zip8(Flip(x)))[i] == Zip1(x)[i] && Flip(Zip4(Flip(x)))[i] == Zip2(x)[i]
    ensures Flip(Zip2(Flip(x)))[i] == Zip4(x)[i] && Flip(Zip1(Flip(x)))[i] == Zip8(x)[i]
  {
    var b4, b3, b2, b1, b0 := BitsOf(i);
    hide At, FlipIndex, Zip8Index, Zip4Index, Zip2Index, Zip1Index;
    FlipReversesBits(b4, b3, b2, b1, b0);
    ZipsSwapBits(b4, b3, b2, b1, b0);
    ZipsSwapBits(b0, b1, b2, b3, b4);
    FlipReversesBits(b1, b0, b2, b3, b4);
    FlipReversesBits(b0, b2, b1, b3, b4);
    FlipReversesBits(b0, b1, b3, b2, b4);
    FlipReversesBits(b0, b1, b2, b4, b3);
  }

  lemma FlipMirrors(x: Word)
    ensures Flip(Zip8(Flip(x))) == Zip1(x) && Flip(Zip4(Flip(x))) == Zip2(x)
    ensures Flip(Zip2(Flip(x))) == Zip4(x) && Flip(Zip1(Flip(x))) == Zip8(x)
  {
    hide *;
    forall i | 0 <= i < 32
      ensures Flip(Zip8(Flip(x)))[i] == Zip1(x)[i] && Flip(Zip4(Flip(x)))[i] == Zip2(x)[i]
      ensures Flip(Zip2(Flip(x)))[i] == Zip4(x)[i] && Flip(Zip1(Flip(x)))[i] == Zip8(x)[i]
    {
      FlipMirrorsAt(x, i);
    }
  }

  /** So the unshuffle is the stages of the shuffle in reverse order. */
  function Unzips(x: Word, m: Mode): Word {
    var x0 := if m.m0 then Zip1(x) else x;
    var x1 := if m.m1 then Zip2(x0) else x0;
    var x2 := if m.m2 then Zip4(x1) else x1;
    if m.m3 then Zip8(x2) else x2
  }

  lemma UnshuffleForm(x: Word, b: nat)
    ensures Unshfl(x, b) == Unzips(x, ModeOf(b))
  {
    hide Flip, Zip8, Zip4, Zip2, Zip1, ModeOf;
    var m := ModeOf(b);
    var x0 := if m.m0 then Zip1(x) else x;
    var x1 := if m.m1 then Zip2(x0) else x0;
    var x2 := if m.m2 then Zip4(x1) else x1;
    FlipTwice(x);
    FlipMirrors(x);
    FlipMirrors(x0);
    FlipMirrors(x1);
    FlipMirrors(x2);
    var y3 := if m.m0 then Zip8(Flip(x)) else Flip(x);
    FlipTwice(y3);
    var y2 := if m.m1 then Zip4(y3) else y3;
    FlipTwice(y2);
    var y1 := if m.m2 then Zip2(y2) else y2;
    FlipTwice(y1);
  }

  /** UNSHFL undoes SHFL, and SHFL undoes UNSHFL, for every control value. */
  lemma ShuffleInverse(x: Word, b: nat)
    ensures Unshfl(Shfl(x, b), b) == x && Shfl(Unshfl(x, b), b) == x
  {
    hide Zip8, Zip4, Zip2, Zip1, ModeOf, Unshfl;
    UnshuffleForm(Shfl(x, b), b);
    UnshuffleForm(x, b);
    ForthAndBack(x, ModeOf(b));
  }

  lemma ForthAndBack(x: Word, m: Mode)
    ensures Unzips(Zips(x, m), m) == x && Zips(Unzips(x, m), m) == x
  {
    hide Zip8, Zip4, Zip2, Zip1;
    var x3 := if m.m3 then Zip8(x) else x;
    var x2 := if m.m2 then Zip4(x3) else x3;
    var x1 := if m.m1 then Zip2(x2) else x2;
    ZipTwice(x);
    ZipTwice(x3);
    ZipTwice(x2);
    ZipTwice(x1);
    var y0 := if m.m0 then Zip1(x) else x;
    var y1 := if m.m1 then Zip2(y0) else y0;
    var y2 := if m.m2 then Zip4(y1) else y1;
    ZipTwice(y0);
    ZipTwice(y1);
    ZipTwice(y2);
  }
}

/** Generalised reverse and or-combine: the stages one by one selected. */
module AluReverseProofs {
  import opened AluShifter
  import opened BitPositions

  /** Exclusive or of two five-bit numbers. */
  function Xor(i: nat, k: nat): (j: nat)
    ensures j < 32
  {
    At(BitOf(i, 16) != BitOf(k, 16), BitOf(i, 8) != BitOf(k, 8), BitOf(i, 4) != BitOf(k, 4),
       BitOf(i, 2) != BitOf(k, 2), BitOf(i, 1) != BitOf(k, 1))
  }

  /** Every bit of `m` is one of `k`. */
  predicate Submask(m: nat, k: nat) {
    && (BitOf(m, 16) ==> BitOf(k, 16)) && (BitOf(m, 8) ==> BitOf(k, 8)) && (BitOf(m, 4) ==> BitOf(k, 4))
    && (BitOf(m, 2) ==> BitOf(k, 2)) && (BitOf(m, 1) ==> BitOf(k, 1))
  }

  // ------------------------------------------------------------------ positions by their bits

  /** A number's five bits, lowest first. */
  type Bits = p: seq<bool> | |p| == 5 witness [false, false, false, false, false]

  function BitsOfNumber(i: nat): Bits { [BitOf(i, 1), BitOf(i, 2), BitOf(i, 4), BitOf(i, 8), BitOf(i, 16)] }

  function Number(p: Bits): (i: nat)
    ensures i < 32
  {
    At(p[4], p[3], p[2], p[1], p[0])
  }

  lemma BitsOfPosition(p: Bits)
    ensures BitsOfNumber(Number(p)) == p
  {
  }

  /** A position is given by its five bits. */
  lemma PositionOfBits(i: nat)
    requires i < 32
    ensures Number(BitsOfNumber(i)) == i
  {
    var b4, b3, b2, b1, b0 := BitsOf(i);
    BitsOfPosition([b0, b1, b2, b3, b4]);
    hide At, BitOf;
  }

  function Toggle(p: Bits, n: nat): Bits
    requires n < 5
  {
    p[n := !p[n]]
  }

  /** The lowest `n` bits toggled where `m` says so. */
  function XorUpto(p: Bits, m: Bits, n: nat): Bits {
    seq(5, j requires 0 <= j < 5 => if j < n then p[j] != m[j] else p[j])
  }

  lemma XorOneMore(p: Bits, m: Bits, n: nat, toggle: bool)
    requires 0 < n <= 5
    ensures XorUpto(p, m[n - 1 := toggle], n) == XorUpto(if toggle then Toggle(p, n - 1) else p, m, n - 1)
  {
  }

  lemma XorOfBits(i: nat, k: nat)
    ensures Xor(i, k) == Number(XorUpto(BitsOfNumber(i), BitsOfNumber(k), 5))
  {
    hide At, BitOf;
  }

  // ------------------------------------------------------------------ the stages

  function Weight(n: nat): nat
    requires n < 5
  {
    if n == 0 then 1 else if n == 1 then 2 else if n == 2 then 4 else if n == 3 then 8 else 16
  }

  function Swap(x: Word, n: nat): Word
    requires n < 5
  {
    if n == 0 then Swap1(x) else if n == 1 then Swap2(x) else if n == 2 then Swap4(x) else if n == 3 then Swap8(x)
    else Swap16(x)
  }

  /** Toggling a bit moves by its weight. */
  lemma ToggleMoves(p: Bits, n: nat)
    requires n < 5
    ensures var i, w := Number(p), Weight(n); Number(Toggle(p, n)) == if i % (2 * w) < w then i + w else i - w
  {
    BitsOfPosition(p);
    BitIsHalf(Number(p), n);
    hide BitOf;
  }

  lemma BitIsHalf(i: nat, n: nat)
    requires i < 32 && n < 5
    ensures BitsOfNumber(i)[n] <==> i % (2 * Weight(n)) >= Weight(n)
  {
  }

  /** Each stage toggles its bit of the position. */
  lemma SwapToggles(x: Word, n: nat, p: Bits)
    requires n < 5
    ensures Swap(x, n)[Number(p)] == x[Number(Toggle(p, n))]
  {
    hide Number, Toggle;
    ToggleMoves(p, n);
  }

  /** The first `n` stages. */
  function Upto(x: Word, k: Bits, c: bool, n: nat): Word
    requires n <= 5
  {
    if n == 0 then x
    else var y := Upto(x, k, c, n - 1); Stage(y, Swap(y, n - 1), k[n - 1], c)
  }

  lemma StagesAreUpto(x: Word, k: nat, c: bool)
    ensures Stages(x, k, c) == Upto(x, BitsOfNumber(k), c, 5)
  {
    var b := BitsOfNumber(k);
    hide Stage, Swap1, Swap2, Swap4, Swap8, Swap16, BitOf;
    assert Upto(x, b, c, 1) == Stage(x, Swap1(x), BitOf(k, 1), c);
    assert Upto(x, b, c, 3) == var y := Upto(x, b, c, 2); Stage(y, Swap4(y), BitOf(k, 4), c);
  }

  lemma UptoNothing(x: Word, k: Bits, c: bool)
    ensures Upto(x, k, c, 0) == x
  {
  }

  /** A stage at a position. */
  lemma UptoAt(x: Word, k: Bits, c: bool, n: nat, p: Bits)
    requires 0 < n <= 5
    ensures Upto(x, k, c, n)[Number(p)] ==
              var y, i, j := Upto(x, k, c, n - 1), Number(p), Number(Toggle(p, n - 1));
              if !k[n - 1] then y[i] else if c then y[i] || y[j] else y[j]
  {
    hide Number, Toggle, Swap;
    SwapToggles(Upto(x, k, c, n - 1), n - 1, p);
  }

  /** Without the or, the stages toggle the bits the amount selects. */
  lemma {:induction false} UptoIsXor(x: Word, k: Bits, n: nat, p: Bits)
    requires n <= 5
    ensures Upto(x, k, false, n)[Number(p)] == x[Number(XorUpto(p, k, n))]
  {
    if n == 0 {
      assert XorUpto(p, k, 0) == p;
    } else {
      assert k[n - 1 := k[n - 1]] == k;
      hide *;
      UptoIsXor(x, k, n - 1, if k[n - 1] then Toggle(p, n - 1) else p);
      XorOneMore(p, k, n, k[n - 1]);
      UptoAt(x, k, false, n, p);
    }
  }

  predicate SubmaskBits(m: Bits, k: Bits) { forall j :: 0 <= j < 5 && m[j] ==> k[j] }

  /** With the or, down the stages: where a set bit comes from. */
  lemma {:induction false} SourceOfBit(x: Word, k: Bits, n: nat, p: Bits) returns (m: Bits)
    requires n <= 5 && Upto(x, k, true, n)[Number(p)]
    ensures SubmaskBits(m, k) && x[Number(XorUpto(p, m, n))]
  {
    hide Number, Upto, Toggle, Stage, Swap;
    if n == 0 {
      m := [false, false, false, false, false];
      assert XorUpto(p, m, 0) == p;
      UptoNothing(x, k, true);
    } else {
      UptoAt(x, k, true, n, p);
      var stay := Upto(x, k, true, n - 1)[Number(p)];
      var q := if stay then p else Toggle(p, n - 1);
      var rest := SourceOfBit(x, k, n - 1, q);
      m := rest[n - 1 := !stay];
      XorOneMore(p, rest, n, !stay);
    }
  }

  /** And up the stages: a set bit reaches every position a submask away. */
  lemma {:induction false} BitReaches(x: Word, k: Bits, n: nat, p: Bits, m: Bits)
    requires n <= 5 && SubmaskBits(m, k) && x[Number(XorUpto(p, m, n))]
    ensures Upto(x, k, true, n)[Number(p)]
  {
    if n == 0 {
      assert XorUpto(p, m, 0) == p;
    } else {
      var q := if m[n - 1] then Toggle(p, n - 1) else p;
      assert XorUpto(q, m, n - 1) == XorUpto(p, m, n);
      BitReaches(x, k, n - 1, q, m);
      hide Number, Upto;
      UptoAt(x, k, true, n, p);
    }
  }

  // ------------------------------------------------------------------ GREV and GORC

  lemma GrevIsStages(x: Word, k: nat, c: bool)
    requires k < 32
    ensures ShiftResult(if c then GORC else GREV, x, k, true) == Stages(x, k, c)
  {
    hide Stages, Reversed, RightShift, BitOf, ShiftLeft;
    assert ShiftAmt(GREV, k, true) == k && ShiftAmt(GORC, k, true) == k;
  }

  /** A generalised reverse takes each bit from its position exclusive-or the amount. */
  lemma GrevIsXor(x: Word, k: nat, i: nat)
    requires k < 32 && i < 32
    ensures ShiftResult(GREV, x, k, true)[i] == x[Xor(i, k)]
  {
    hide *;
    GrevIsStages(x, k, false);
    StagesAreUpto(x, k, false);
    PositionOfBits(i);
    XorOfBits(i, k);
    UptoIsXor(x, BitsOfNumber(k), 5, BitsOfNumber(i));
  }

  lemma XorTwice(i: nat, k: nat)
    requires i < 32
    ensures Xor(Xor(i, k), k) == i
  {
    var p, m := BitsOfNumber(i), BitsOfNumber(k);
    assert XorUpto(XorUpto(p, m, 5), m, 5) == p;
    hide *;
    XorOfBits(i, k);
    XorOfBits(Xor(i, k), k);
    BitsOfPosition(XorUpto(p, m, 5));
    PositionOfBits(i);
  }

  /** It undoes itself. */
  lemma GrevTwice(x: Word, k: nat)
    requires k < 32
    ensures ShiftResult(GREV, ShiftResult(GREV, x, k, true), k, true) == x
  {
    hide *;
    var y := ShiftResult(GREV, x, k, true);
    forall i | 0 <= i < 32 ensures ShiftResult(GREV, y, k, true)[i] == x[i] {
      GrevIsXor(y, k, i);
      GrevIsXor(x, k, Xor(i, k));
      XorTwice(i, k);
    }
  }

  lemma SubmaskOfBits(m: nat, k: nat)
    ensures Submask(m, k) <==> SubmaskBits(BitsOfNumber(m), BitsOfNumber(k))
  {
    hide BitOf;
    var b, c := BitsOfNumber(m), BitsOfNumber(k);
    assert SubmaskBits(b, c)
        ==> (b[0] ==> c[0]) && (b[1] ==> c[1]) && (b[2] ==> c[2]) && (b[3] ==> c[3]) && (b[4] ==> c[4]);
  }

  /** An or-combine ors together the bits of all positions a submask of the amount away. */
  lemma GorcIsOr(x: Word, k: nat, i: nat)
    requires k < 32 && i < 32
    ensures ShiftResult(GORC, x, k, true)[i] <==> exists m :: 0 <= m < 32 && Submask(m, k) && x[Xor(i, m)]
  {
    hide *;
    var p, b := BitsOfNumber(i), BitsOfNumber(k);
    GrevIsStages(x, k, true);
    StagesAreUpto(x, k, true);
    PositionOfBits(i);
    if ShiftResult(GORC, x, k, true)[i] {
      var source := SourceOfBit(x, b, 5, p);
      var m := Number(source);
      BitsOfPosition(source);
      SubmaskOfBits(m, k);
      XorOfBits(i, m);
      assert Submask(m, k) && x[Xor(i, m)];
    }
    forall m | 0 <= m < 32 && Submask(m, k) && x[Xor(i, m)] ensures ShiftResult(GORC, x, k, true)[i] {
      SubmaskOfBits(m, k);
      XorOfBits(i, m);
      BitReaches(x, b, 5, p, BitsOfNumber(m));
    }
  }
}

/** rtl/ibex_alu.sv, lines 589-609: counting bits with a chain of enables. */
module AluBitCount {
  import opened AluShifter

  datatype CountOp = CLZ | CTZ | PCNT

  function Ones(x: seq<bool>): nat {
    if x == [] then 0 else Ones(x[..|x| - 1]) + if x[|x| - 1] then 1 else 0
  }

  /** The chain counts while it is enabled: for the zero counts up to the first bit that is not set in
      the complemented operand, for the population count to the end. */
  method BitCount(op: CountOp, a: Word) returns (count: nat)
    ensures count <= 32
    ensures op.PCNT? ==> count == Ones(a)
    ensures op.CTZ? ==> (forall j :: 0 <= j < count ==> !a[j]) && (count < 32 ==> a[count])
    ensures op.CLZ? ==> (forall j :: 32 - count <= j < 32 ==> !a[j]) && (count < 32 ==> a[31 - count])
  {
    count := 0;
    var enable, i := true, 0;
    while i < 32
      invariant 0 <= i <= 32 && count <= i
      invariant op.PCNT? ==> enable && count == Ones(a[..i])
      invariant !op.PCNT? ==> (enable <==> count == i)
      invariant op.CTZ? ==> (forall j :: 0 <= j < count ==> !a[j]) && (count < i ==> a[count])
      invariant op.CLZ? ==> (forall j :: 32 - count <= j < 32 ==> !a[j]) && (count < i ==> a[31 - count])
    {
      var bit := if op.PCNT? then a[i] else if op.CTZ? then !a[i] else !a[31 - i];
      if enable && bit {
        count := count + 1;
      }
      enable := op.PCNT? || (enable && bit);
      assert a[..i + 1][..i] == a[..i];
      i := i + 1;
    }
    assert a[..32] == a;
  }
}
