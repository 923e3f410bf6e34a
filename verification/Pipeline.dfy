/** rtl/ibex_id_stage.sv (lines 686-972) and rtl/ibex_wb_stage.sv with WritebackStage set: the
    ID/EX stage, the writeback stage, and the hazards between them. */
module Pipeline {

  const REGISTERS := 32

  datatype Kind = Other | AluMulticycle | MultDiv | Branch | Jump | LoadOp | StoreOp

  /** A decoded instruction; of the multi-cycle enables at most one is set. `result` is the
      operation EX performs on the operands. A load is accompanied by the value memory holds for it. */
  datatype Instr = Instr(kind: Kind, ra: nat, rb: nat, renA: bool, renB: bool, rd: nat, we: bool,
                         operation: int, memValue: int)

  predicate InstrOk(x: Instr) {
    && x.ra < REGISTERS && x.rb < REGISTERS && x.rd < REGISTERS
    && (x.kind.LoadOp? || x.kind.StoreOp? ==> !x.we)
  }

  datatype WbType = WbOther | WbLoad | WbStore

  datatype Fsm = FIRST_CYCLE | MULTI_CYCLE

  datatype Config = Config(branchTargetAlu: bool)

  datatype Regs = Regs(fsm: Fsm, reqComplete: bool, rf: seq<int>,
                       wbValid: bool, wbType: WbType, wbWe: bool, wbRd: nat, wbData: int)

  datatype Inputs = Inputs(valid: bool, instr: Instr, run: bool, result: int, exValid: bool,
                           taken: bool, dataIndTiming: bool,
                           reqDone: bool, lsuValid: bool, lsuLoad: bool, lsuWe: bool, lsuData: int)

  predicate Shape(s: Regs) { |s.rf| == REGISTERS && s.wbRd < REGISTERS }

  // ------------------------------------------------------------------ writeback stage

  predicate WbDone(s: Regs, i: Inputs) { s.wbType == WbOther || i.lsuValid }
  predicate ReadyWb(s: Regs, i: Inputs) { !s.wbValid || WbDone(s, i) }
  predicate RfWriteWb(s: Regs) { s.wbValid && (s.wbWe || s.wbType == WbLoad) }
  predicate OutstandingLoad(s: Regs) { s.wbValid && s.wbType == WbLoad }
  predicate OutstandingStore(s: Regs) { s.wbValid && s.wbType == WbStore }

  // ------------------------------------------------------------------ hazards and stalls

  predicate LsuReqDec(i: Inputs) { i.instr.kind.LoadOp? || i.instr.kind.StoreOp? }

  predicate MatchA(s: Regs, i: Inputs) { s.wbRd == i.instr.ra && i.instr.ra != 0 }
  predicate MatchB(s: Regs, i: Inputs) { s.wbRd == i.instr.rb && i.instr.rb != 0 }

  predicate StallLdHz(s: Regs, i: Inputs) {
    && OutstandingLoad(s) && i.lsuLoad
    && ((MatchA(s, i) && i.instr.renA) || (MatchB(s, i) && i.instr.renB)) && RfWriteWb(s)
  }

  predicate OutstandingAccess(s: Regs, i: Inputs) {
    (OutstandingLoad(s) || OutstandingStore(s)) && !i.lsuValid
  }

  predicate Executing(s: Regs, i: Inputs) {
    i.valid && i.run && !StallLdHz(s, i) && !OutstandingAccess(s, i)
  }

  predicate ReqAllowed(s: Regs, i: Inputs) { !OutstandingAccess(s, i) && !s.reqComplete }

  predicate LsuReq(s: Regs, i: Inputs) { Executing(s, i) && ReqAllowed(s, i) && LsuReqDec(i) }

  predicate StallMem(s: Regs, i: Inputs) {
    && i.valid
    && ((LsuReqDec(i) && (!ReqAllowed(s, i) || (!s.reqComplete && !i.reqDone))) || OutstandingAccess(s, i))
  }

  predicate MulticycleDone(s: Regs, i: Inputs) {
    if LsuReqDec(i) then !StallMem(s, i) else i.exValid
  }

  /** The instruction stays in ID/EX for a cycle of its own: stall_multdiv, stall_branch,
      stall_jump and stall_alu. */
  predicate StallMulti(c: Config, s: Regs, i: Inputs) {
    Executing(s, i) &&
    match s.fsm
    case FIRST_CYCLE =>
      (match i.instr.kind
       case MultDiv => !i.exValid
       case Branch => (!c.branchTargetAlu && i.taken) || i.dataIndTiming
       case Jump => !c.branchTargetAlu
       case AluMulticycle => true
       case _ => false)
    case MULTI_CYCLE =>
      && !(MulticycleDone(s, i) && ReadyWb(s, i))
      && (i.instr.kind.MultDiv? || i.instr.kind.Branch? || i.instr.kind.Jump?)
  }

  function FsmNext(c: Config, s: Regs, i: Inputs): Fsm {
    if !Executing(s, i) then s.fsm
    else
      match s.fsm
      case FIRST_CYCLE =>
        (match i.instr.kind
         case LoadOp => if i.reqDone then FIRST_CYCLE else MULTI_CYCLE
         case StoreOp => if i.reqDone then FIRST_CYCLE else MULTI_CYCLE
         case MultDiv => if i.exValid then FIRST_CYCLE else MULTI_CYCLE
         case Branch => if i.dataIndTiming || (!c.branchTargetAlu && i.taken) then MULTI_CYCLE else FIRST_CYCLE
         case Jump => if c.branchTargetAlu then FIRST_CYCLE else MULTI_CYCLE
         case AluMulticycle => MULTI_CYCLE
         case Other => FIRST_CYCLE)
      case MULTI_CYCLE => if MulticycleDone(s, i) && ReadyWb(s, i) then FIRST_CYCLE else MULTI_CYCLE
  }

  predicate StallId(c: Config, s: Regs, i: Inputs) {
    StallLdHz(s, i) || StallMem(s, i) || StallMulti(c, s, i)
  }

  /** `en_wb_o`: the instruction is done, with no flush. */
  predicate EnWb(c: Config, s: Regs, i: Inputs) { !StallId(c, s, i) && Executing(s, i) }

  predicate IdDone(c: Config, s: Regs, i: Inputs) { EnWb(c, s, i) && ReadyWb(s, i) }

  predicate RfWeId(s: Regs, i: Inputs) {
    && Executing(s, i) && i.instr.we
    && match s.fsm
       case FIRST_CYCLE => !(i.instr.kind.MultDiv? && !i.exValid) && !i.instr.kind.AluMulticycle?
       case MULTI_CYCLE => i.instr.kind.MultDiv? ==> i.exValid
  }

  // ------------------------------------------------------------------ register file

  /** Register zero reads as zero. */
  function Read(rf: seq<int>, r: nat): int
    requires r < |rf|
  {
    if r == 0 then 0 else rf[r]
  }

  function ForwardA(s: Regs, i: Inputs): int
    requires Shape(s) && InstrOk(i.instr)
  {
    if MatchA(s, i) && RfWriteWb(s) then s.wbData else Read(s.rf, i.instr.ra)
  }

  function ForwardB(s: Regs, i: Inputs): int
    requires Shape(s) && InstrOk(i.instr)
  {
    if MatchB(s, i) && RfWriteWb(s) then s.wbData else Read(s.rf, i.instr.rb)
  }

  predicate WriteFromId(s: Regs) { s.wbWe && s.wbValid }

  /** `rf_we_wb_o` and `rf_wdata_wb_o`: two sources share the write port. */
  predicate RfWe(s: Regs, i: Inputs) { WriteFromId(s) || i.lsuWe }
  function RfWData(s: Regs, i: Inputs): int { if WriteFromId(s) then s.wbData else i.lsuData }

  function RfNext(s: Regs, i: Inputs): seq<int>
    requires Shape(s)
  {
    if RfWe(s, i) then s.rf[s.wbRd := RfWData(s, i)] else s.rf
  }

  function TypeOf(k: Kind): WbType {
    match k case LoadOp => WbLoad case StoreOp => WbStore case _ => WbOther
  }

  function Step(c: Config, s: Regs, i: Inputs): (t: Regs)
    requires Shape(s) && InstrOk(i.instr)
    ensures Shape(t)
  {
    var en := EnWb(c, s, i);
    Regs(FsmNext(c, s, i),
         (s.reqComplete || (LsuReq(s, i) && i.reqDone)) && !IdDone(c, s, i),
         RfNext(s, i),
         (en && ReadyWb(s, i)) || (s.wbValid && !WbDone(s, i)),
         if en then TypeOf(i.instr.kind) else s.wbType,
         if en then RfWeId(s, i) else s.wbWe,
         if en then i.instr.rd else s.wbRd,
         if en then i.result else s.wbData)
  }

  /** The registers of both stages and the register file. */
  class Stages {
    const c: Config
    var fsm: Fsm
    var reqComplete: bool
    var rf: seq<int>
    var wbValid: bool
    var wbType: WbType
    var wbWe: bool
    var wbRd: nat
    var wbData: int

    function State(): Regs
      reads this
    {
      Regs(fsm, reqComplete, rf, wbValid, wbType, wbWe, wbRd, wbData)
    }

    constructor (c: Config)
      ensures this.c == c && Shape(State()) && fsm == FIRST_CYCLE && !reqComplete && !wbValid
      ensures forall r :: 0 <= r < REGISTERS ==> rf[r] == 0
    {
      this.c := c;
      fsm, reqComplete, rf := FIRST_CYCLE, false, seq(REGISTERS, r => 0);
      wbValid, wbType, wbWe, wbRd, wbData := false, WbOther, false, 0, 0;
    }

    /** The writeback stage's flops: data is loaded on `en` alone, validity needs `ready`. */
    method ClockWriteback(s: Regs, i: Inputs, en: bool)
      modifies this`wbValid, this`wbType, this`wbWe, this`wbRd, this`wbData
      ensures wbValid == ((en && ReadyWb(s, i)) || (s.wbValid && !WbDone(s, i)))
      ensures wbType == if en then TypeOf(i.instr.kind) else old(wbType)
      ensures wbWe == if en then RfWeId(s, i) else old(wbWe)
      ensures wbRd == if en then i.instr.rd else old(wbRd)
      ensures wbData == if en then i.result else old(wbData)
    {
      wbValid := (en && ReadyWb(s, i)) || (s.wbValid && !WbDone(s, i));
      if en {
        wbType, wbWe, wbRd, wbData := TypeOf(i.instr.kind), RfWeId(s, i), i.instr.rd, i.result;
      }
    }

    method Clock(i: Inputs)
      requires Shape(State()) && InstrOk(i.instr)
      modifies this
      ensures State() == Step(c, old(State()), i)
    {
      hide FsmNext, EnWb, LsuReq, ReadyWb, WbDone, RfWeId, IdDone, RfNext, TypeOf;
      var s := State();
      rf := RfNext(s, i);
      reqComplete := (s.reqComplete || (LsuReq(s, i) && i.reqDone)) && !IdDone(c, s, i);
      fsm := FsmNext(c, s, i);
      ClockWriteback(s, i, EnWb(c, s, i));
    }
  }
}

/** The two stages refine a machine that runs one instruction after the other. */
module PipelineProofs {
  import opened Pipeline

  /** What EX computes from an operation and its two operands. */
  type Alu = (int, int, int) -> int

  // ------------------------------------------------------------------ sequential machine

  /** The operands an instruction uses; one it does not read is of no consequence. */
  function Used(x: Instr, a: int, b: int): (int, int) {
    (if x.renA then a else 0, if x.renB then b else 0)
  }

  function Operands(rf: seq<int>, x: Instr): (int, int)
    requires |rf| == REGISTERS && InstrOk(x)
  {
    Used(x, Read(rf, x.ra), Read(rf, x.rb))
  }

  function Execute(f: Alu, rf: seq<int>, x: Instr): (r: seq<int>)
    requires |rf| == REGISTERS && InstrOk(x)
    ensures |r| == REGISTERS
  {
    var (a, b) := Operands(rf, x);
    if x.kind.LoadOp? then rf[x.rd := x.memValue]
    else if x.we then rf[x.rd := f(x.operation, a, b)]
    else rf
  }

  // ------------------------------------------------------------------ environment

  /** `ref` is the register file of the sequential machine after every instruction that has left
      ID; `pending` the value the load in writeback will get; `held` the instruction that was in
      ID in the last cycle and did not leave; `seen` the operands it was executed with so far. */
  datatype World = World(ref: seq<int>, pending: int, held: seq<Instr>, seen: seq<(int, int)>)

  function Fed(s: Regs, i: Inputs): (int, int)
    requires Shape(s) && InstrOk(i.instr)
  {
    Used(i.instr, ForwardA(s, i), ForwardB(s, i))
  }

  /** No errors and no traps. ID keeps an instruction until it leaves; the controller does not stop
      in the middle of one. In the cycle in which an instruction that writes a register leaves, EX
      delivers the result of the operation, if its operands were the same in every executing cycle;
      in all other cycles EX may show anything. The LSU answers accesses in writeback, later than
      they were accepted, with memory's value for loads. */
  predicate Legal(c: Config, f: Alu, s: Regs, w: World, i: Inputs) {
    && Shape(s) && InstrOk(i.instr)
    && (w.held != [] ==> i.valid && i.instr == w.held[0])
    && (s.fsm == MULTI_CYCLE ==> i.run)
    && (EnWb(c, s, i) && i.instr.we && (forall x :: x in w.seen ==> x == Fed(s, i)) ==>
          i.result == f(i.instr.operation, Fed(s, i).0, Fed(s, i).1))
    && (s.fsm == MULTI_CYCLE && !i.instr.kind.MultDiv? ==> i.exValid)
    && (i.reqDone ==> LsuReq(s, i))
    && (i.lsuValid ==> OutstandingLoad(s) || OutstandingStore(s))
    && (OutstandingLoad(s) ==> i.lsuLoad)
    && (i.lsuWe <==> i.lsuValid && OutstandingLoad(s))
    && (i.lsuWe ==> i.lsuData == w.pending)
  }

  function WorldStep(c: Config, f: Alu, s: Regs, w: World, i: Inputs): World
    requires Shape(s) && InstrOk(i.instr) && |w.ref| == REGISTERS
  {
    var done := IdDone(c, s, i);
    World(if done then Execute(f, w.ref, i.instr) else w.ref,
          if done then i.instr.memValue else w.pending,
          if i.valid && !done then [i.instr] else [],
          if done || !i.valid then [] else if Executing(s, i) then w.seen + [Fed(s, i)] else w.seen)
  }

  // ------------------------------------------------------------------ invariant

  /** The register file once writeback is through. */
  function Drained(s: Regs, pending: int): seq<int>
    requires Shape(s)
  {
    if !RfWriteWb(s) then s.rf
    else s.rf[s.wbRd := if s.wbType == WbLoad then pending else s.wbData]
  }

  /** Equal up to register zero, which is never read. */
  predicate SameFile(x: seq<int>, y: seq<int>) {
    |x| == |y| == REGISTERS && forall r :: 0 < r < REGISTERS ==> x[r] == y[r]
  }

  ghost predicate Inv(s: Regs, w: World) {
    && Shape(s) && |w.ref| == REGISTERS && !s.reqComplete
    && SameFile(Drained(s, w.pending), w.ref)
    && (s.wbValid && s.wbType != WbOther ==> !s.wbWe)
    && (s.fsm == MULTI_CYCLE ==> !s.wbValid && w.held != [])
    && |w.held| <= 1 && (w.held == [] ==> w.seen == [])
    && (w.held != [] ==> InstrOk(w.held[0]) && forall x :: x in w.seen ==> x == Operands(w.ref, w.held[0]))
  }

  // ------------------------------------------------------------------ theorems about one cycle

  /** The writeback registers are loaded on `en_wb` alone, and that is safe: an instruction is never
      done while writeback is not ready. */
  lemma EnWbImpliesReady(c: Config, s: Regs, i: Inputs)
    requires EnWb(c, s, i)
    ensures ReadyWb(s, i) && IdDone(c, s, i)
  {
  }

  /** In every executing cycle the operands are those of the sequential machine. */
  lemma OperandsAreSequential(c: Config, f: Alu, s: Regs, w: World, i: Inputs)
    requires Inv(s, w) && Legal(c, f, s, w, i) && Executing(s, i)
    ensures Fed(s, i) == Operands(w.ref, i.instr)
  {
    hide StallMem;
  }

  /** The two sources of the register file's write port never collide. */
  lemma OneWriteSource(c: Config, f: Alu, s: Regs, w: World, i: Inputs)
    requires Inv(s, w) && Legal(c, f, s, w, i)
    ensures !(WriteFromId(s) && i.lsuWe)
  {
  }

  /** Once begun, an instruction executes without interruption until it leaves. */
  lemma RunsOn(c: Config, f: Alu, s: Regs, w: World, i: Inputs)
    requires Inv(s, w) && Legal(c, f, s, w, i) && s.fsm == MULTI_CYCLE
    ensures Executing(s, i)
  {
  }

  /** A completed request takes its instruction out of ID at once, so `data_req_complete_q`, which
      would remember it, is never set. */
  lemma RequestCompletesInstruction(c: Config, f: Alu, s: Regs, w: World, i: Inputs)
    requires Inv(s, w) && Legal(c, f, s, w, i) && LsuReq(s, i) && i.reqDone
    ensures IdDone(c, s, i)
  {
    hide Inv;
  }

  // ------------------------------------------------------------------ runs

  /** Writing back does not change the drained register file; leaving ID adds the result. */
  lemma DrainedStep(c: Config, f: Alu, s: Regs, w: World, i: Inputs)
    requires Inv(s, w) && Legal(c, f, s, w, i)
    ensures SameFile(Drained(Step(c, s, i), WorldStep(c, f, s, w, i).pending), WorldStep(c, f, s, w, i).ref)
  {
    var t, v := Step(c, s, i), WorldStep(c, f, s, w, i);
    var en := EnWb(c, s, i);
    if en {
      EnWbImpliesReady(c, s, i);
      OperandsAreSequential(c, f, s, w, i);
      WritesWhatIsDecoded(c, s, i);
      assert ReadyWb(s, i) ==> SameFile(RfNext(s, i), w.ref) by { WritebackDrains(c, f, s, w, i); }
      assert i.instr.we ==> i.result == f(i.instr.operation, Fed(s, i).0, Fed(s, i).1);
    }
    hide EnWb, Executing, Fed, FsmNext, StallLdHz, OutstandingAccess, Operands, RfWeId, LsuReq;
    if !en {
      WritebackDrains(c, f, s, w, i);
    }
  }

  /** A finished writeback has put the pending value in the register file. */
  lemma WritebackDrains(c: Config, f: Alu, s: Regs, w: World, i: Inputs)
    requires Inv(s, w) && Legal(c, f, s, w, i)
    ensures ReadyWb(s, i) ==> SameFile(RfNext(s, i), w.ref)
    ensures !ReadyWb(s, i) ==> RfNext(s, i) == s.rf
  {
  }

  /** An instruction that leaves ID carries its write enable with it. */
  lemma WritesWhatIsDecoded(c: Config, s: Regs, i: Inputs)
    requires EnWb(c, s, i)
    ensures RfWeId(s, i) == i.instr.we
  {
  }

  lemma InvStep(c: Config, f: Alu, s: Regs, w: World, i: Inputs)
    requires Inv(s, w) && Legal(c, f, s, w, i)
    ensures Inv(Step(c, s, i), WorldStep(c, f, s, w, i))
  {
    var t, v := Step(c, s, i), WorldStep(c, f, s, w, i);
    DrainedStep(c, f, s, w, i);
    if Executing(s, i) {
      OperandsAreSequential(c, f, s, w, i);
    }
    if LsuReq(s, i) && i.reqDone {
      RequestCompletesInstruction(c, f, s, w, i);
    }
    if EnWb(c, s, i) {
      EnWbImpliesReady(c, s, i);
    }
    LeavesWhenDone(c, f, s, w, i);
    assert t.reqComplete == (LsuReq(s, i) && i.reqDone && !IdDone(c, s, i));
    assert t.wbValid && t.wbType != WbOther ==> !t.wbWe;
    hide SameFile, Drained, Operands, Fed, EnWb, FsmNext, LsuReq, Executing, RfWeId;
  }

  /** The FSM's second state is entered and kept exactly by an instruction that does not leave. */
  lemma LeavesWhenDone(c: Config, f: Alu, s: Regs, w: World, i: Inputs)
    requires Inv(s, w) && Legal(c, f, s, w, i)
    ensures FsmNext(c, s, i) == MULTI_CYCLE ==> i.valid && !EnWb(c, s, i) && ReadyWb(s, i)
    ensures Executing(s, i) && s.fsm == MULTI_CYCLE && FsmNext(c, s, i) == FIRST_CYCLE ==> IdDone(c, s, i)
  {
  }

  ghost predicate LegalRun(c: Config, f: Alu, s: Regs, w: World, run: seq<Inputs>)
    decreases |run|
  {
    run == [] ||
    (Legal(c, f, s, w, run[0]) && |w.ref| == REGISTERS
     && LegalRun(c, f, Step(c, s, run[0]), WorldStep(c, f, s, w, run[0]), run[1..]))
  }

  /** What a run shows to the outside: the operands EX was given in each executing cycle and the
      instructions that left. */
  datatype Event = Operate(x: Instr, operands: (int, int)) | Leave(x: Instr)

  function Events(c: Config, s: Regs, i: Inputs): seq<Event>
    requires Shape(s) && InstrOk(i.instr)
  {
    (if Executing(s, i) then [Operate(i.instr, Fed(s, i))] else [])
    + if IdDone(c, s, i) then [Leave(i.instr)] else []
  }

  ghost function Trace(c: Config, s: Regs, run: seq<Inputs>): seq<Event>
    decreases |run|
  {
    if run == [] || !Shape(s) || !InstrOk(run[0].instr) then []
    else Events(c, s, run[0]) + Trace(c, Step(c, s, run[0]), run[1..])
  }

  ghost function RunState(c: Config, s: Regs, run: seq<Inputs>): Regs
    decreases |run|
  {
    if run == [] || !Shape(s) || !InstrOk(run[0].instr) then s else RunState(c, Step(c, s, run[0]), run[1..])
  }

  /** The sequential machine: operands are read from its register file, and an instruction that
      leaves is executed on it. `rf` is its register file before the trace, `end` after it. */
  ghost predicate Sequential(f: Alu, rf: seq<int>, trace: seq<Event>, end: seq<int>)
    requires |rf| == REGISTERS
    decreases |trace|
  {
    if trace == [] then end == rf
    else
      InstrOk(trace[0].x) &&
      match trace[0]
      case Operate(x, operands) => operands == Operands(rf, x) && Sequential(f, rf, trace[1..], end)
      case Leave(x) => Sequential(f, Execute(f, rf, x), trace[1..], end)
  }

  lemma {:induction false} RunIsSequential(c: Config, f: Alu, s: Regs, w: World, run: seq<Inputs>) returns (end: World)
    requires Inv(s, w) && LegalRun(c, f, s, w, run)
    ensures Inv(RunState(c, s, run), end) && Sequential(f, w.ref, Trace(c, s, run), end.ref)
    decreases |run|
  {
    if run == [] {
      end := w;
    } else {
      var i := run[0];
      var t, v := Step(c, s, i), WorldStep(c, f, s, w, i);
      InvStep(c, f, s, w, i);
      end := RunIsSequential(c, f, t, v, run[1..]);
      if Executing(s, i) {
        OperandsAreSequential(c, f, s, w, i);
      }
      assert v.ref == if IdDone(c, s, i) then Execute(f, w.ref, i.instr) else w.ref;
      assert Trace(c, s, run) == Events(c, s, i) + Trace(c, t, run[1..]);
      assert Inv(RunState(c, s, run), end);
      hide Inv, Legal, LegalRun, Step, WorldStep, Execute, Operands, Fed, Executing, IdDone, RunState, Trace, InstrOk;
      EventsThen(c, f, s, w.ref, i, Trace(c, t, run[1..]), end.ref);
    }
  }

  lemma EventsThen(c: Config, f: Alu, s: Regs, rf: seq<int>, i: Inputs, rest: seq<Event>, end: seq<int>)
    requires Shape(s) && InstrOk(i.instr) && |rf| == REGISTERS
    requires Sequential(f, if IdDone(c, s, i) then Execute(f, rf, i.instr) else rf, rest, end)
    requires Executing(s, i) ==> Fed(s, i) == Operands(rf, i.instr)
    ensures Sequential(f, rf, Events(c, s, i) + rest, end)
  {
    var e := Events(c, s, i);
    hide Execute, Operands, Fed, Executing, IdDone, InstrOk;
    if |e| == 2 {
      assert (e + rest)[1..] == [e[1]] + rest;
      assert ([e[1]] + rest)[1..] == rest;
    } else if |e| == 1 {
      assert (e + rest)[1..] == rest;
    } else {
      assert e + rest == rest;
    }
  }

  /** From reset, for every program, every latency of EX and of the LSU and every stall: EX only
      ever sees the operands of the sequential machine, and once writeback is empty the register
      file is the sequential one. */
  lemma PipelineIsSequential(c: Config, f: Alu, s: Regs, run: seq<Inputs>)
    requires Shape(s) && s.fsm == FIRST_CYCLE && !s.reqComplete && !s.wbValid
    requires LegalRun(c, f, s, World(s.rf, 0, [], []), run)
    ensures exists end :: && Sequential(f, s.rf, Trace(c, s, run), end)
                          && (!RunState(c, s, run).wbValid ==> SameFile(RunState(c, s, run).rf, end))
  {
    var end := RunIsSequential(c, f, s, World(s.rf, 0, [], []), run);
  }
}
