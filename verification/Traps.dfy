/** rtl/ibex_controller.sv: the controller FSM with its NMI and debug mode bits and the strobes it
    sends to the CSRs. WritebackStage is set. */
module Controller {

  const PRIV_M := 3
  const PRIV_U := 0

  datatype Fsm = RESET | BOOT_SET | WAIT_SLEEP | SLEEP | FIRST_FETCH | DECODE | FLUSH
               | IRQ_TAKEN | DBG_TAKEN_IF | DBG_TAKEN_ID

  datatype Regs = Regs(fsm: Fsm, nmiMode: bool, debugMode: bool, loadErr: bool, storeErr: bool,
                       excReq: bool, illegalInsn: bool)

  /** Pending and enabled interrupts: `fast` has bit `k` for interrupt line `k`. */
  datatype Irqs = Irqs(software: bool, timer: bool, external: bool, fast: seq<bool>)

  datatype Inputs = Inputs(fetchEnable: bool, valid: bool, fetchErr: bool, fetchErrPlus2: bool, illegal: bool,
                           ecall: bool, mret: bool, dret: bool, wfi: bool, ebreak: bool, csrFlush: bool,
                           pcId: int, instrBits: int, loadErr: bool, storeErr: bool, lsuAddr: int,
                           irqNm: bool, irqPending: bool, irqs: Irqs,
                           debugReq: bool, trigger: bool, stall: bool)

  /** What the controller sees of the CSRs. */
  datatype CsrView = CsrView(mie: bool, tw: bool, priv: int, ebreakm: bool, ebreaku: bool, step: bool)

  const FAST_IRQS := 15

  predicate IrqsOk(i: Inputs) { |i.irqs.fast| == FAST_IRQS }

  /** `mcause`; the reset and default value is that of a misaligned instruction address, `Other` is
      any value only software writes. */
  datatype Cause =
    | InsnAddrMisaligned | InsnAccessFault | IllegalInsn | Breakpoint | LoadFault | StoreFault | EcallM | EcallU
                 | IrqSoftware | IrqTimer | IrqExternal | IrqFast(line: nat) | IrqNm | Other(code: int)

  datatype DebugCause = DbgNone | DbgEbreak | DbgTrigger | DbgHaltReq | DbgStep

  /** The strobes to the CSR block. */
  datatype Strobes = Strobes(saveIf: bool, saveId: bool, saveWb: bool, restoreMret: bool, restoreDret: bool,
                             saveCause: bool, debugSave: bool, cause: Cause, mtval: int, debugCause: DebugCause)

  const QUIET := Strobes(false, false, false, false, false, false, false, InsnAddrMisaligned, 0, DbgEbreak)

  // ------------------------------------------------------------------ requests

  predicate IllegalDret(s: Regs, i: Inputs) { i.dret && i.valid && !s.debugMode }

  predicate IllegalUmode(v: CsrView, i: Inputs) {
    v.priv != PRIV_M && i.valid && (i.mret || (v.tw && i.wfi))
  }

  predicate IllegalNext(s: Regs, v: CsrView, i: Inputs) {
    (i.illegal || IllegalDret(s, i) || IllegalUmode(v, i)) && s.fsm != FLUSH
  }

  predicate ExcReqNext(s: Regs, v: CsrView, i: Inputs) {
    ((i.valid && (i.ecall || i.ebreak || i.fetchErr)) || IllegalNext(s, v, i)) && s.fsm != FLUSH
  }

  predicate SpecialReq(s: Regs, v: CsrView, i: Inputs) {
    (i.valid && (i.mret || i.dret || i.wfi || i.csrFlush)) || ExcReqNext(s, v, i) || i.storeErr || i.loadErr
  }

  predicate EnterDebug(s: Regs, v: CsrView, i: Inputs) {
    (i.debugReq || (v.step && i.valid) || i.trigger) && !s.debugMode
  }

  predicate EbreakIntoDebug(v: CsrView) {
    if v.priv == PRIV_M then v.ebreakm else v.priv == PRIV_U && v.ebreaku
  }

  /** Interrupts, the NMI included, are ignored in debug mode and in NMI mode. */
  predicate HandleIrq(s: Regs, v: CsrView, i: Inputs) {
    !s.debugMode && !s.nmiMode && (i.irqNm || (i.irqPending && v.mie))
  }

  /** The highest fast interrupt line at or below `k` that is set; line 0 if none is. */
  function FastId(fast: seq<bool>, k: nat): (r: nat)
    requires k < |fast|
    ensures r <= k
  {
    if k == 0 || fast[k] then k else FastId(fast, k - 1)
  }

  predicate AnyFast(fast: seq<bool>) { true in fast }

  function IrqCause(i: Inputs): Cause
    requires IrqsOk(i)
  {
    if i.irqNm then IrqNm
    else if AnyFast(i.irqs.fast) then IrqFast(FastId(i.irqs.fast, FAST_IRQS - 1))
    else if i.irqs.external then IrqExternal
    else if i.irqs.software then IrqSoftware
    else IrqTimer
  }

  // ------------------------------------------------------------------ strobes

  /** In DBG_TAKEN_IF debug mode is only entered if there still is a reason. */
  predicate DebugReason(v: CsrView, i: Inputs) { v.step || i.debugReq || i.trigger }

  predicate Exception(s: Regs) { s.excReq || s.storeErr || s.loadErr }

  /** An EBREAK in FLUSH that ends in debug mode. */
  predicate DebugEbreak(s: Regs, v: CsrView, i: Inputs) {
    && Exception(s) && !(i.valid && i.fetchErr) && !s.illegalInsn && !(i.valid && i.ecall)
    && i.valid && i.ebreak && (s.debugMode || EbreakIntoDebug(v))
  }

  function ExceptionStrobes(s: Regs, v: CsrView, i: Inputs): Strobes {
    var wb := s.storeErr || s.loadErr;
    var taken := QUIET.(saveId := !wb, saveWb := wb, saveCause := true);
    if i.valid && i.fetchErr then
      taken.(cause := InsnAccessFault, mtval := if i.fetchErrPlus2 then i.pcId + 2 else i.pcId)
    else if s.illegalInsn then taken.(cause := IllegalInsn, mtval := i.instrBits)
    else if i.valid && i.ecall then taken.(cause := if v.priv == PRIV_M then EcallM else EcallU)
    else if i.valid && i.ebreak then
      if s.debugMode || EbreakIntoDebug(v) then taken.(saveId := false, saveCause := false)
      else taken.(cause := Breakpoint)
    else if s.storeErr then taken.(cause := StoreFault, mtval := i.lsuAddr)
    else taken.(cause := LoadFault, mtval := i.lsuAddr)
  }

  function Output(s: Regs, v: CsrView, i: Inputs): Strobes
    requires IrqsOk(i)
  {
    match s.fsm
    case IRQ_TAKEN =>
      if HandleIrq(s, v, i) then QUIET.(saveIf := true, saveCause := true, cause := IrqCause(i)) else QUIET
    case DBG_TAKEN_IF =>
      if DebugReason(v, i)
      then QUIET.(saveIf := true, debugSave := true, saveCause := true,
                  debugCause := if i.trigger then DbgTrigger else if v.step then DbgStep else DbgHaltReq)
      else QUIET
    case DBG_TAKEN_ID =>
      if EbreakIntoDebug(v) && !s.debugMode
      then QUIET.(saveCause := true, saveId := true, debugSave := true, debugCause := DbgEbreak)
      else QUIET
    case FLUSH =>
      if Exception(s) then ExceptionStrobes(s, v, i)
      else if i.valid && i.mret then QUIET.(restoreMret := true)
      else if i.valid && i.dret then QUIET.(restoreDret := true)
      else QUIET
    case _ => QUIET
  }

  // ------------------------------------------------------------------ next state

  function FsmNext(s: Regs, v: CsrView, i: Inputs): Fsm {
    match s.fsm
    case RESET => if i.fetchEnable then BOOT_SET else RESET
    case BOOT_SET => FIRST_FETCH
    case WAIT_SLEEP => SLEEP
    case SLEEP => if i.irqNm || i.irqPending || i.debugReq || s.debugMode || v.step then FIRST_FETCH else SLEEP
    case FIRST_FETCH =>
      if EnterDebug(s, v, i) then DBG_TAKEN_IF
      else if HandleIrq(s, v, i) then IRQ_TAKEN
      else if !i.stall then DECODE
      else FIRST_FETCH
    case DECODE =>
      if !i.stall && !SpecialReq(s, v, i) && EnterDebug(s, v, i) then DBG_TAKEN_IF
      else if !i.stall && !SpecialReq(s, v, i) && HandleIrq(s, v, i) then IRQ_TAKEN
      else if i.valid && SpecialReq(s, v, i) then FLUSH
      else DECODE
    case IRQ_TAKEN => DECODE
    case DBG_TAKEN_IF => DECODE
    case DBG_TAKEN_ID => DECODE
    case FLUSH =>
      if EnterDebug(s, v, i) then DBG_TAKEN_IF
      else if Exception(s) then if DebugEbreak(s, v, i) then DBG_TAKEN_ID else DECODE
      else if i.valid && i.mret then DECODE
      else if i.valid && i.dret then DECODE
      else if i.valid && i.wfi then WAIT_SLEEP
      else if i.valid && i.csrFlush && HandleIrq(s, v, i) then IRQ_TAKEN
      else DECODE
  }

  predicate NmiModeNext(s: Regs, v: CsrView, i: Inputs) {
    match s.fsm
    case IRQ_TAKEN => s.nmiMode || (HandleIrq(s, v, i) && i.irqNm)
    case FLUSH => s.nmiMode && !(!Exception(s) && i.valid && i.mret)
    case _ => s.nmiMode
  }

  predicate DebugModeNext(s: Regs, v: CsrView, i: Inputs) {
    match s.fsm
    case DBG_TAKEN_IF => s.debugMode || DebugReason(v, i)
    case DBG_TAKEN_ID => true
    case FLUSH => s.debugMode && !(!Exception(s) && i.valid && !i.mret && i.dret)
    case _ => s.debugMode
  }

  function Next(s: Regs, v: CsrView, i: Inputs): Regs {
    Regs(FsmNext(s, v, i), NmiModeNext(s, v, i), DebugModeNext(s, v, i), i.loadErr, i.storeErr,
         ExcReqNext(s, v, i), IllegalNext(s, v, i))
  }

  const RESET_STATE := Regs(RESET, false, false, false, false, false, false)
}

/** rtl/ibex_cs_registers.sv: privilege level and trap state, lines 429-622 and 661-715. */
module TrapCsrs {
  import opened Controller

  datatype Dcsr = Dcsr(ebreakm: bool, ebreaks: bool, ebreaku: bool, stepie: bool, cause: DebugCause, step: bool,
                       prv: int)

  datatype Regs = Csrs(priv: int, mie: bool, mpie: bool, mpp: int, mprv: bool, tw: bool,
                       mepc: int, mcause: Cause, mtval: int, dcsr: Dcsr, dpc: int,
                       stackMpie: bool, stackMpp: int, stackEpc: int, stackCause: Cause)

  /** A CSR write that reaches the registers modelled here. */
  datatype CsrWrite =
    | NoWrite
    | Mstatus(mie: bool, mpie: bool, mpp: int, mprv: bool, tw: bool)
    | Mepc(v: int)
    | Mcause(c: Cause)
    | Mtval(v: int)
    | WriteDcsr(d: Dcsr)
    | Dpc(v: int)

  datatype Pcs = Pcs(pcIf: int, pcId: int, pcWb: int)

  function LegalPriv(p: int): int { if p != PRIV_M && p != PRIV_U then PRIV_M else p }

  function View(s: Regs): CsrView {
    CsrView(s.mie, s.tw, s.priv, s.dcsr.ebreakm, s.dcsr.ebreaku, s.dcsr.step)
  }

  /** Machine-mode registers need machine mode, debug registers debug mode; an illegal access does
      not write. */
  predicate Writes(s: Regs, debugMode: bool, w: CsrWrite) {
    !w.NoWrite? && s.priv == PRIV_M && (w.WriteDcsr? || w.Dpc? ==> debugMode)
  }

  function Written(s: Regs, debugMode: bool, w: CsrWrite): Regs {
    if !Writes(s, debugMode, w) then s
    else
      match w
      case Mstatus(mie, mpie, mpp, mprv, tw) => s.(mie := mie, mpie := mpie, mpp := LegalPriv(mpp), mprv := mprv,
                                                   tw := tw)
      case Mepc(v) => s.(mepc := v - v % 2)
      case Mcause(c) => s.(mcause := c)
      case Mtval(v) => s.(mtval := v)
      case WriteDcsr(d) => s.(dcsr := d.(prv := LegalPriv(d.prv)))
      case Dpc(v) => s.(dpc := v - v % 2)
      case NoWrite => s
  }

  function ExceptionPc(o: Strobes, pc: Pcs): int {
    if o.saveIf then pc.pcIf else if o.saveId then pc.pcId else if o.saveWb then pc.pcWb else pc.pcId
  }

  /** The exception controller has priority over writes; what it does not set is as written. */
  function Step(s: Regs, debugMode: bool, nmiMode: bool, o: Strobes, pc: Pcs, w: CsrWrite): Regs {
    var d := Written(s, debugMode, w);
    if o.saveCause then
      if o.debugSave then
        d.(priv := PRIV_M, dcsr := d.dcsr.(prv := s.priv, cause := o.debugCause), dpc := ExceptionPc(o, pc))
      else if !debugMode then
        d.(priv := PRIV_M, mtval := o.mtval, mie := false, mpie := s.mie, mpp := s.priv,
           mepc := ExceptionPc(o, pc), mcause := o.cause,
           stackMpie := s.mpie, stackMpp := s.mpp, stackEpc := s.mepc, stackCause := s.mcause)
      else d.(priv := PRIV_M)
    else if o.restoreDret then d.(priv := s.dcsr.prv)
    else if o.restoreMret then
      if nmiMode then
        d.(priv := s.mpp, mie := s.mpie, mpie := s.stackMpie, mpp := s.stackMpp, mepc := s.stackEpc,
           mcause := s.stackCause)
      else d.(priv := s.mpp, mie := s.mpie, mpie := true, mpp := PRIV_U)
    else d
  }

  const RESET_STATE := Csrs(PRIV_M, false, true, PRIV_U, false, false, 0, InsnAddrMisaligned, 0,
                            Dcsr(false, false, false, false, DbgNone, false, PRIV_M), 0, true, PRIV_U, 0,
                            InsnAddrMisaligned)
}

/** Controller and CSRs together. */
module TrapUnit {
  import C = Controller
  import T = TrapCsrs

  datatype State = State(ctrl: C.Regs, csr: T.Regs)

  datatype Inputs = Inputs(i: C.Inputs, pc: T.Pcs, w: T.CsrWrite)

  function Strobes(s: State, x: Inputs): C.Strobes
    requires C.IrqsOk(x.i)
  {
    C.Output(s.ctrl, T.View(s.csr), x.i)
  }

  function Step(s: State, x: Inputs): State
    requires C.IrqsOk(x.i)
  {
    State(C.Next(s.ctrl, T.View(s.csr), x.i),
          T.Step(s.csr, s.ctrl.debugMode, s.ctrl.nmiMode, Strobes(s, x), x.pc, x.w))
  }

  /** The flops of the controller and of the trap CSRs. */
  class TrapState {
    var ctrl: C.Regs
    var csr: T.Regs

    function Current(): State
      reads this
    {
      State(ctrl, csr)
    }

    constructor ()
      ensures Current() == State(C.RESET_STATE, T.RESET_STATE)
    {
      ctrl, csr := C.RESET_STATE, T.RESET_STATE;
    }

    /** A trap or debug entry. */
    method Save(o: C.Strobes, pc: T.Pcs, w: T.CsrWrite)
      requires o.saveCause
      modifies this`csr
      ensures csr == T.Step(old(csr), ctrl.debugMode, ctrl.nmiMode, o, pc, w)
    {
      var s := csr;
      csr := T.Written(csr, ctrl.debugMode, w);
      csr := csr.(priv := C.PRIV_M);
      if o.debugSave {
        csr := csr.(dcsr := csr.dcsr.(prv := s.priv, cause := o.debugCause), dpc := T.ExceptionPc(o, pc));
      } else if !ctrl.debugMode {
        csr := csr.(mtval := o.mtval, mie := false, mpie := s.mie, mpp := s.priv);
        csr := csr.(mepc := T.ExceptionPc(o, pc), mcause := o.cause);
        csr := csr.(stackMpie := s.mpie, stackMpp := s.mpp, stackEpc := s.mepc, stackCause := s.mcause);
      }
    }

    /** A return, or nothing but a CSR write. */
    method Restore(o: C.Strobes, pc: T.Pcs, w: T.CsrWrite)
      requires !o.saveCause
      modifies this`csr
      ensures csr == T.Step(old(csr), ctrl.debugMode, ctrl.nmiMode, o, pc, w)
    {
      var s := csr;
      csr := T.Written(csr, ctrl.debugMode, w);
      if o.restoreDret {
        csr := csr.(priv := s.dcsr.prv);
      } else if o.restoreMret {
        csr := csr.(priv := s.mpp, mie := s.mpie);
        if ctrl.nmiMode {
          csr := csr.(mpie := s.stackMpie, mpp := s.stackMpp, mepc := s.stackEpc, mcause := s.stackCause);
        } else {
          csr := csr.(mpie := true, mpp := C.PRIV_U);
        }
      }
    }

    method Clock(x: Inputs)
      requires C.IrqsOk(x.i)
      modifies this
      ensures Current() == Step(old(Current()), x)
    {
      hide C.Output, C.Next, T.Step;
      var v := T.View(csr);
      var o := C.Output(ctrl, v, x.i);
      var next := C.Next(ctrl, v, x.i);
      if o.saveCause {
        Save(o, x.pc, x.w);
      } else {
        Restore(o, x.pc, x.w);
      }
      ctrl := next;
    }
  }
}
