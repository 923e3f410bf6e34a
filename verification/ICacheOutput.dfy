/** rtl/ibex_icache.sv, lines 595-619, 654-679 and 799-950: selecting the data to output,
    realigning it into instructions, and the output address. The bus is 32 bits wide. */
module ICacheOutput {
  import opened ICache

  type Half = bv16

  function Lo(b: Beat): Half { (b & 0xFFFF) as Half }
  function Hi(b: Beat): Half { (b >> 16) as Half }

  predicate Compressed(h: Half) { h & 3 != 3 }

  /** `upper` is bit 1 of the output address. */
  datatype OutRegs = OutRegs(skidValid: bool, skidData: Half, skidErr: bool, addr: Addr, upper: bool)

  /** The cache's inputs, with the core's readiness in place of the output stage's, and bit 1 of the
      branch target. */
  datatype CoreInputs = CoreInputs(i: Inputs, ready: bool, targetUpper: bool)

  predicate OutReady(s: Regs, o: OutRegs, x: CoreInputs) { Ready(s, x.i) && AddrOk(s.c, o.addr) }

  // ------------------------------------------------------------------ output data

  predicate DataReg(s: Regs, k: nat)
    requires Shape(s) && k < |s.fb|
  {
    var f := s.fb[k];
    Outputs(s, k) && DataSel(s, k) && (RvdBeat(s.c, f) > f.outCnt || f.hit || AnyErr(f))
  }

  predicate DataHit(s: Regs, k: nat)
    requires Shape(s) && k < |s.fb|
  {
    s.fb[k].busy && HitIc1(s, k) && DataSel(s, k)
  }

  predicate DataRvd(s: Regs, i: Inputs, k: nat)
    requires Shape(s) && k < |s.fb|
  {
    var f := s.fb[k];
    RvdArb(s, i, k) && !f.hit && Outputs(s, k) && RvdBeat(s.c, f) == f.outCnt && DataSel(s, k)
  }

  predicate AnyDataHit(s: Regs)
    requires Shape(s)
  {
    exists k :: 0 <= k < |s.fb| && DataHit(s, k)
  }

  predicate AnyDataRvd(s: Regs, i: Inputs)
    requires Shape(s)
  {
    exists k :: 0 <= k < |s.fb| && DataRvd(s, i, k)
  }

  /** The buffer whose data register is output, searched from `k` up. */
  function RegPick(s: Regs, k: nat): (r: nat)
    requires Shape(s) && k <= |s.fb|
    ensures k <= r <= |s.fb| && (r < |s.fb| ==> DataReg(s, r))
    ensures forall j :: k <= j < r ==> !DataReg(s, j)
    decreases |s.fb| - k
  {
    if k == |s.fb| || DataReg(s, k) then k else RegPick(s, k + 1)
  }

  /** With data in the skid buffer the output address is behind by one beat. */
  function MuxBeat(s: Regs, o: OutRegs): nat { Low(s.c, o.addr.beat + if o.skidValid then 1 else 0) }

  function LineBeat(s: Regs, b: nat): Beat
    requires Shape(s) && b < s.c.beats
  {
    var k := RegPick(s, 0);
    if AnyDataHit(s) then HitData(s, s.c.ways)[b] else if k < |s.fb| then s.fb[k].data[b] else 0
  }

  predicate LineErr(s: Regs, b: nat)
    requires Shape(s) && b < s.c.beats
  {
    var k := RegPick(s, 0);
    !AnyDataHit(s) && k < |s.fb| && s.fb[k].err[b]
  }

  function OutputData(s: Regs, o: OutRegs, x: CoreInputs): Beat
    requires OutReady(s, o, x)
  {
    if AnyDataRvd(s, x.i) then x.i.rdata else LineBeat(s, MuxBeat(s, o))
  }

  predicate OutputErr(s: Regs, o: OutRegs, x: CoreInputs)
    requires OutReady(s, o, x)
  {
    if AnyDataRvd(s, x.i) then x.i.err else LineErr(s, MuxBeat(s, o))
  }

  predicate DataValid(s: Regs, i: Inputs)
    requires Shape(s)
  {
    exists k :: 0 <= k < |s.fb| && OutArb(s, i, k)
  }

  // ------------------------------------------------------------------ realignment

  predicate SkidComplete(o: OutRegs) { o.skidValid && Compressed(o.skidData) }

  predicate OutputReady(o: OutRegs, ready: bool) { ready && !SkidComplete(o) }

  function RDataLo(s: Regs, o: OutRegs, x: CoreInputs): Half
    requires OutReady(s, o, x)
  {
    if o.skidValid then o.skidData else if o.upper then Hi(OutputData(s, o, x)) else Lo(OutputData(s, o, x))
  }

  function RDataHi(s: Regs, o: OutRegs, x: CoreInputs): Half
    requires OutReady(s, o, x)
  {
    if o.upper then Lo(OutputData(s, o, x)) else Hi(OutputData(s, o, x))
  }

  predicate ValidO(s: Regs, o: OutRegs, x: CoreInputs)
    requires OutReady(s, o, x)
  {
    || SkidComplete(o)
    || (DataValid(s, x.i)
        && (!o.upper || o.skidValid || OutputErr(s, o, x) || Compressed(Hi(OutputData(s, o, x)))))
  }

  predicate ErrO(s: Regs, o: OutRegs, x: CoreInputs)
    requires OutReady(s, o, x)
  {
    (o.skidValid && o.skidErr) || (!SkidComplete(o) && OutputErr(s, o, x))
  }

  /** The error comes from the second half of an instruction; of use only with `ErrO`. */
  predicate ErrPlus2(o: OutRegs) { o.skidValid && !o.skidErr }

  // ------------------------------------------------------------------ next state

  function NextBeat(c: Config, a: Addr): Addr {
    if a.beat + 1 < c.beats then Addr(a.line, a.beat + 1) else Addr(NextLine(c, a.line), 0)
  }

  /** The output address in halfwords, as a pair. */
  function NextHalf(c: Config, a: Addr, upper: bool): (Addr, bool) {
    if upper then (NextBeat(c, a), false) else (a, true)
  }

  function Skip(c: Config, a: Addr, upper: bool, compressed: bool): (Addr, bool) {
    if compressed then NextHalf(c, a, upper) else (NextBeat(c, a), upper)
  }

  predicate Accepts(s: Regs, o: OutRegs, x: CoreInputs)
    requires OutReady(s, o, x)
  {
    x.ready && ValidO(s, o, x)
  }

  predicate SkidValidNext(s: Regs, o: OutRegs, x: CoreInputs)
    requires OutReady(s, o, x)
  {
    if x.i.branch then false
    else if o.skidValid then !(x.ready && Compressed(o.skidData))
    else o.upper != Compressed(RDataLo(s, o, x)) && DataValid(s, x.i) && x.ready
  }

  function OutNext(s: Regs, o: OutRegs, x: CoreInputs): OutRegs
    requires OutReady(s, o, x)
  {
    var load := DataValid(s, x.i) && x.ready;
    var to := if x.i.branch then (x.i.addr, x.targetUpper)
              else if Accepts(s, o, x) then Skip(s.c, o.addr, o.upper, Compressed(RDataLo(s, o, x)))
              else (o.addr, o.upper);
    OutRegs(SkidValidNext(s, o, x),
            if load then Hi(OutputData(s, o, x)) else o.skidData,
            if load then OutputErr(s, o, x) else o.skidErr,
            to.0, to.1)
  }

  /** The inputs of the fill buffers. */
  function FillInputs(o: OutRegs, x: CoreInputs): Inputs { x.i.(outputReady := OutputReady(o, x.ready)) }

  function CacheStep(s: Regs, o: OutRegs, x: CoreInputs): Regs
    requires OutReady(s, o, x)
  {
    Step(s, FillInputs(o, x))
  }

  /** The output stage's flops. */
  class OutputStage {
    var skidValid: bool
    var skidData: Half
    var skidErr: bool
    var addr: Addr
    var upper: bool

    function State(): OutRegs
      reads this
    {
      OutRegs(skidValid, skidData, skidErr, addr, upper)
    }

    constructor ()
      ensures !skidValid
    {
      skidValid, skidData, skidErr := false, 0, false;
      addr, upper := Addr(LineAddr(0, 0), 0), false;
    }

    method Clock(s: Regs, x: CoreInputs)
      requires OutReady(s, State(), x)
      modifies this
      ensures State() == OutNext(s, old(State()), x)
    {
      hide SkidValidNext, OutputData, OutputErr, DataValid, Accepts, RDataLo;
      var o := State();
      skidValid := SkidValidNext(s, o, x);
      if DataValid(s, x.i) && x.ready {
        skidData, skidErr := Hi(OutputData(s, o, x)), OutputErr(s, o, x);
      }
      if x.i.branch {
        addr, upper := x.i.addr, x.targetUpper;
      } else if Accepts(s, o, x) {
        var to := Skip(s.c, o.addr, o.upper, Compressed(RDataLo(s, o, x)));
        addr, upper := to.0, to.1;
      }
    }

    /** The whole cache moves: both halves on the state before the edge. */
    method ClockCache(cache: InstructionCache, x: CoreInputs)
      requires OutReady(cache.State(), State(), x)
      modifies this, cache
      ensures cache.State() == CacheStep(old(cache.State()), old(State()), x)
      ensures State() == OutNext(old(cache.State()), old(State()), x)
    {
      hide Step, OutNext, Shape;
      var s, o := cache.State(), State();
      Clock(s, x);
      cache.Clock(FillInputs(o, x));
    }
  }
}
