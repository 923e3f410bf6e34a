/** Trap, NMI and debug state over whole runs. */
module TrapProofs {
  import C = Controller
  import T = TrapCsrs
  import opened TrapUnit

  predicate InputsOk(run: seq<Inputs>) { forall k :: 0 <= k < |run| ==> C.IrqsOk(run[k].i) }

  function Run(s: State, run: seq<Inputs>): State
    requires InputsOk(run)
    decreases |run|
  {
    if run == [] then s else Run(Step(s, run[0]), run[1..])
  }

  // ------------------------------------------------------------------ debug mode

  /** The hidden invariant: the state that enters debug mode from IF is never reached in debug mode. */
  predicate DebugOk(s: State) { s.ctrl.fsm == C.DBG_TAKEN_IF ==> !s.ctrl.debugMode }

  lemma {:induction false} DebugOkRun(s: State, run: seq<Inputs>)
    requires InputsOk(run) && DebugOk(s)
    ensures DebugOk(Run(s, run))
    decreases |run|
  {
    if run == [] {
    } else {
      DebugOkRun(Step(s, run[0]), run[1..]);
    }
  }

  /** From reset the debug registers are never saved while in debug mode. */
  lemma DebugSaveOnlyOutsideDebug(run: seq<Inputs>, x: Inputs)
    requires InputsOk(run) && C.IrqsOk(x.i)
    ensures var s := Run(State(C.RESET_STATE, T.RESET_STATE), run);
            Strobes(s, x).debugSave ==> !s.ctrl.debugMode
  {
    DebugOkRun(State(C.RESET_STATE, T.RESET_STATE), run);
  }

  /** Trap and debug state apart from the privilege level. */
  predicate SameTrapState(a: T.Regs, b: T.Regs) {
    && a.mie == b.mie && a.mpie == b.mpie && a.mpp == b.mpp && a.mprv == b.mprv && a.tw == b.tw
    && a.mepc == b.mepc && a.mcause == b.mcause && a.mtval == b.mtval
    && a.dcsr == b.dcsr && a.dpc == b.dpc
    && a.stackMpie == b.stackMpie && a.stackMpp == b.stackMpp && a.stackEpc == b.stackEpc
    && a.stackCause == b.stackCause
  }

  /** In debug mode, reached from reset in any way, exceptions and interrupts change none of it: only
      CSR writes and MRET do. */
  lemma DebugModeKeepsTrapState(run: seq<Inputs>, x: Inputs)
    requires InputsOk(run) && C.IrqsOk(x.i)
    ensures var s := Run(State(C.RESET_STATE, T.RESET_STATE), run);
            (s.ctrl.debugMode && x.w.NoWrite? && !Strobes(s, x).restoreMret ==> SameTrapState(Step(s, x).csr, s.csr))
  {
    DebugSaveOnlyOutsideDebug(run, x);
    hide C.Output, C.Next, Run;
  }

  // ------------------------------------------------------------------ traps and MRET

  /** What a trap interrupts and a return restores. */
  datatype Context = Context(priv: int, mie: bool, mpie: bool, mpp: int, mepc: int, mcause: C.Cause)

  function ContextOf(s: T.Regs): Context { Context(s.priv, s.mie, s.mpie, s.mpp, s.mepc, s.mcause) }

  /** A trap outside debug mode. */
  predicate Traps(s: State, x: Inputs)
    requires C.IrqsOk(x.i)
  {
    Strobes(s, x).saveCause && !Strobes(s, x).debugSave && !s.ctrl.debugMode
  }

  predicate TakesNmi(s: State, x: Inputs) {
    s.ctrl.fsm == C.IRQ_TAKEN && C.HandleIrq(s.ctrl, T.View(s.csr), x.i) && x.i.irqNm
  }

  predicate Returns(s: State, x: Inputs)
    requires C.IrqsOk(x.i)
  {
    Strobes(s, x).restoreMret
  }

  /** A cycle without trap, MRET and write of mstatus; with `strict` none of mepc and mcause either.
      Debug mode may be entered and left. */
  predicate QuietCycle(s: State, x: Inputs, strict: bool)
    requires C.IrqsOk(x.i)
  {
    && !Traps(s, x) && !Returns(s, x)
    && !(T.Writes(s.csr, s.ctrl.debugMode, x.w) && (x.w.Mstatus? || (strict && (x.w.Mepc? || x.w.Mcause?))))
  }

  predicate Quiet(s: State, run: seq<Inputs>, strict: bool)
    requires InputsOk(run)
    decreases |run|
  {
    run == [] || (QuietCycle(s, run[0], strict) && Quiet(Step(s, run[0]), run[1..], strict))
  }

  /** What a quiet run leaves alone. */
  predicate Kept(s: State, t: State, strict: bool) {
    && t.ctrl.nmiMode == s.ctrl.nmiMode
    && t.csr.mie == s.csr.mie && t.csr.mpie == s.csr.mpie && t.csr.mpp == s.csr.mpp
    && t.csr.stackMpie == s.csr.stackMpie && t.csr.stackMpp == s.csr.stackMpp
    && t.csr.stackEpc == s.csr.stackEpc && t.csr.stackCause == s.csr.stackCause
    && (strict ==> t.csr.mepc == s.csr.mepc && t.csr.mcause == s.csr.mcause)
  }

  /** NMI mode is entered by taking an NMI and left by MRET, and in no other way. */
  lemma NmiModeMoves(s: State, x: Inputs)
    requires C.IrqsOk(x.i)
    ensures Step(s, x).ctrl.nmiMode <==> (s.ctrl.nmiMode && !Returns(s, x)) || TakesNmi(s, x)
    ensures TakesNmi(s, x) ==> Traps(s, x) && Strobes(s, x).cause == C.IrqNm
  {
  }

  lemma QuietKeeps(s: State, x: Inputs, strict: bool)
    requires C.IrqsOk(x.i) && QuietCycle(s, x, strict)
    ensures Kept(s, Step(s, x), strict)
  {
    NmiModeMoves(s, x);
    var d := T.Written(s.csr, s.ctrl.debugMode, x.w);
    WriteKeeps(s.csr, s.ctrl.debugMode, x.w, strict);
    var o, t := Strobes(s, x), Step(s, x).csr;
    hide C.Output, C.Next, T.Written, Strobes;
    if o.saveCause {
      assert o.debugSave || s.ctrl.debugMode;
    }
    assert t.mie == d.mie && t.mpie == d.mpie && t.mpp == d.mpp && t.mepc == d.mepc && t.mcause == d.mcause;
    assert t.stackMpie == d.stackMpie && t.stackMpp == d.stackMpp && t.stackEpc == d.stackEpc
        && t.stackCause == d.stackCause;
    hide T.Step, Step;
  }

  lemma WriteKeeps(s: T.Regs, debugMode: bool, w: T.CsrWrite, strict: bool)
    requires !(T.Writes(s, debugMode, w) && (w.Mstatus? || (strict && (w.Mepc? || w.Mcause?))))
    ensures var t := T.Written(s, debugMode, w);
            && t.mie == s.mie && t.mpie == s.mpie && t.mpp == s.mpp
            && t.stackMpie == s.stackMpie && t.stackMpp == s.stackMpp
            && t.stackEpc == s.stackEpc && t.stackCause == s.stackCause
            && (strict ==> t.mepc == s.mepc && t.mcause == s.mcause)
  {
  }

  lemma {:induction false} QuietRunKeeps(s: State, run: seq<Inputs>, strict: bool)
    requires InputsOk(run) && Quiet(s, run, strict)
    ensures Kept(s, Run(s, run), strict)
    decreases |run|
  {
    if run == [] {
    } else {
      QuietKeeps(s, run[0], strict);
      QuietRunKeeps(Step(s, run[0]), run[1..], strict);
      hide Step, QuietCycle;
    }
  }

  /** What a trap leaves behind, in terms of the context it interrupts. */
  lemma TrapSaves(s: State, x: Inputs)
    requires C.IrqsOk(x.i) && Traps(s, x)
    ensures var t := Step(s, x).csr;
            && t.mpp == s.csr.priv && t.mpie == s.csr.mie && t.priv == C.PRIV_M && !t.mie
            && t.stackMpie == s.csr.mpie && t.stackMpp == s.csr.mpp
            && t.stackEpc == s.csr.mepc && t.stackCause == s.csr.mcause
            && t.mepc == T.ExceptionPc(Strobes(s, x), x.pc) && t.mcause == Strobes(s, x).cause
  {
    hide C.Output, C.Next;
  }

  /** What MRET does without a CSR write of its own. */
  lemma MretRestores(s: State, x: Inputs)
    requires C.IrqsOk(x.i) && Returns(s, x) && x.w.NoWrite?
    ensures ContextOf(Step(s, x).csr) ==
              if s.ctrl.nmiMode
              then Context(s.csr.mpp, s.csr.mpie, s.csr.stackMpie, s.csr.stackMpp, s.csr.stackEpc, s.csr.stackCause)
              else Context(s.csr.mpp, s.csr.mpie, true, C.PRIV_U, s.csr.mepc, s.csr.mcause)
    ensures !Step(s, x).ctrl.nmiMode
  {
    NmiModeMoves(s, x);
    ReturnIsNoSave(s, x);
    hide C.Output, C.Next;
  }

  lemma ReturnIsNoSave(s: State, x: Inputs)
    requires C.IrqsOk(x.i) && Returns(s, x)
    ensures !Strobes(s, x).saveCause && !Strobes(s, x).restoreDret && !TakesNmi(s, x)
  {
  }

  /** An NMI handler that does not trap and does not write mstatus returns to exactly the context it
      interrupted, and, if it writes neither mepc nor mcause, to the interrupted instruction. */
  lemma NmiReturnsToContext(s: State, nmi: Inputs, handler: seq<Inputs>, ret: Inputs, strict: bool)
    requires C.IrqsOk(nmi.i) && TakesNmi(s, nmi)
    requires InputsOk(handler) && Quiet(Step(s, nmi), handler, strict)
    requires C.IrqsOk(ret.i) && ret.w.NoWrite? && Returns(Run(Step(s, nmi), handler), ret)
    ensures var before := Run(Step(s, nmi), handler);
            && before.ctrl.nmiMode && !Step(before, ret).ctrl.nmiMode
            && ContextOf(Step(before, ret).csr) == ContextOf(s.csr)
            && (strict ==> before.csr.mepc == nmi.pc.pcIf)
  {
    var t := Step(s, nmi);
    NmiModeMoves(s, nmi);
    TrapSaves(s, nmi);
    QuietRunKeeps(t, handler, strict);
    MretRestores(Run(t, handler), ret);
    assert Strobes(s, nmi).saveIf;
    hide C.Output, C.Next, Step, Run, Quiet;
  }

  /** What happens in and after an NMI handler that traps once: the NMI, a quiet stretch, the trap,
      the quiet handler of the trap and its return, another quiet stretch and the last return. */
  datatype Nested = Nested(nmi: Inputs, a: seq<Inputs>, trap: Inputs, b: seq<Inputs>, ret: Inputs, c: seq<Inputs>,
                           ret2: Inputs)

  predicate NestedOk(n: Nested) {
    && C.IrqsOk(n.nmi.i) && InputsOk(n.a) && C.IrqsOk(n.trap.i) && InputsOk(n.b) && C.IrqsOk(n.ret.i)
    && InputsOk(n.c) && C.IrqsOk(n.ret2.i)
  }

  /** The states before the trap, before its handler's return and before the last return. */
  function BeforeTrap(s: State, n: Nested): State
    requires NestedOk(n)
  {
    Run(Step(s, n.nmi), n.a)
  }

  function BeforeReturn(s: State, n: Nested): State
    requires NestedOk(n)
  {
    Run(Step(BeforeTrap(s, n), n.trap), n.b)
  }

  function BeforeLast(s: State, n: Nested): State
    requires NestedOk(n)
  {
    Run(Step(BeforeReturn(s, n), n.ret), n.c)
  }

  predicate TrapsOnceInNmi(s: State, n: Nested)
    requires NestedOk(n)
  {
    && TakesNmi(s, n.nmi) && Quiet(Step(s, n.nmi), n.a, true)
    && Traps(BeforeTrap(s, n), n.trap) && Quiet(Step(BeforeTrap(s, n), n.trap), n.b, true)
    && n.ret.w.NoWrite? && Returns(BeforeReturn(s, n), n.ret) && Quiet(Step(BeforeReturn(s, n), n.ret), n.c, true)
    && n.ret2.w.NoWrite? && Returns(BeforeLast(s, n), n.ret2)
  }

  /** An exception inside the handler takes the only place there is for the interrupted context: the
      handler's two returns then restore it exactly if it already was what they leave behind. */
  lemma TrapInNmiHandlerReturnsIff(s: State, n: Nested)
    requires NestedOk(n) && TrapsOnceInNmi(s, n)
    ensures ContextOf(Step(BeforeLast(s, n), n.ret2).csr) == ContextOf(s.csr)
            <==> s.csr.mpie && s.csr.mpp == C.PRIV_U && s.csr.mepc == n.nmi.pc.pcIf && s.csr.mcause == C.IrqNm
  {
    hide Step, Run, Quiet, Returns, Traps, TakesNmi, Strobes;
    var t1, t3 := BeforeTrap(s, n), BeforeReturn(s, n);
    NmiSavesPc(s, n.nmi);
    NmiModeMoves(s, n.nmi);
    TrapSaves(s, n.nmi);
    QuietRunKeeps(Step(s, n.nmi), n.a, true);
    TrapSaves(t1, n.trap);
    NmiModeMoves(t1, n.trap);
    TrapIsNoReturn(t1, n.trap);
    QuietRunKeeps(Step(t1, n.trap), n.b, true);
    MretRestores(t3, n.ret);
    QuietRunKeeps(Step(t3, n.ret), n.c, true);
    MretRestores(BeforeLast(s, n), n.ret2);
  }

  lemma NmiSavesPc(s: State, x: Inputs)
    requires C.IrqsOk(x.i) && TakesNmi(s, x)
    ensures Strobes(s, x).saveIf
  {
  }

  lemma TrapIsNoReturn(s: State, x: Inputs)
    requires C.IrqsOk(x.i) && Traps(s, x)
    ensures !Returns(s, x)
  {
    if Returns(s, x) {
      ReturnIsNoSave(s, x);
    }
  }

  /** A cycle without interrupt, in which at most an ECALL or an MRET is in ID. */
  function Cycle(ecall: bool, mret: bool, nm: bool): Inputs {
    Inputs(C.Inputs(true, ecall || mret, false, false, false, ecall, mret, false, false, false, false, 0, 0,
                    false, false, 0, nm, false, C.Irqs(false, false, false, seq(C.FAST_IRQS, k => false)),
                    false, false, false),
           T.Pcs(0, 0, 0), T.NoWrite)
  }

  /** The controller in a given FSM state with nothing else going on. */
  function Ctrl(fsm: C.Fsm, nmiMode: bool, excReq: bool): C.Regs {
    C.Regs(fsm, nmiMode, false, false, false, excReq, false)
  }

  predicate Plain(csr: T.Regs) { csr.priv == C.PRIV_M && !csr.dcsr.step }

  /** An ECALL or MRET in ID flushes the pipeline, ... */
  lemma Decoded(csr: T.Regs, nmiMode: bool, ecall: bool)
    requires Plain(csr)
    ensures var s, x := State(Ctrl(C.DECODE, nmiMode, false), csr), Cycle(ecall, !ecall, false);
            QuietCycle(s, x, true) && Step(s, x) == State(Ctrl(C.FLUSH, nmiMode, ecall), csr)
  {
  }

  /** ... and then traps ... */
  lemma EcallTraps(csr: T.Regs, nmiMode: bool)
    requires Plain(csr)
    ensures var s, x := State(Ctrl(C.FLUSH, nmiMode, true), csr), Cycle(true, false, false);
            && Traps(s, x) && Step(s, x).ctrl == Ctrl(C.DECODE, nmiMode, false)
            && Step(s, x).csr.priv == C.PRIV_M && Step(s, x).csr.mpp == C.PRIV_M && Step(s, x).csr.dcsr == csr.dcsr
  {
  }

  /** ... or returns. */
  lemma MretReturns(csr: T.Regs, nmiMode: bool)
    requires Plain(csr)
    ensures var s, x := State(Ctrl(C.FLUSH, nmiMode, false), csr), Cycle(false, true, false);
            && Returns(s, x) && Step(s, x).ctrl == Ctrl(C.DECODE, false, false)
            && Step(s, x).csr.priv == csr.mpp && Step(s, x).csr.dcsr == csr.dcsr
  {
  }

  /** Three cycles after reset an NMI is about to be taken. */
  lemma NmiAfterReset()
    ensures var past, s := [Cycle(false, false, false), Cycle(false, false, false), Cycle(false, false, true)],
                           State(Ctrl(C.IRQ_TAKEN, false, false), T.RESET_STATE);
            && InputsOk(past) && Run(State(C.RESET_STATE, T.RESET_STATE), past) == s
            && TakesNmi(s, Cycle(false, false, true))
            && Step(s, Cycle(false, false, true)).ctrl == Ctrl(C.DECODE, true, false)
            && Plain(Step(s, Cycle(false, false, true)).csr)
  {
    var idle, nm := Cycle(false, false, false), Cycle(false, false, true);
    var past := [idle, idle, nm];
    var s0 := State(C.RESET_STATE, T.RESET_STATE);
    assert past[1..] == [idle, nm] && [idle, nm][1..] == [nm] && [nm][1..] == [];
    assert Step(s0, idle) == State(Ctrl(C.BOOT_SET, false, false), T.RESET_STATE);
    assert Step(Step(s0, idle), idle) == State(Ctrl(C.FIRST_FETCH, false, false), T.RESET_STATE);
  }

  /** Such runs exist, and the context can be lost: from reset an NMI whose handler executes ECALL,
      MRET and MRET leaves another cause behind. */
  lemma TrapInNmiHandlerMayLoseContext()
    ensures exists past: seq<Inputs>, n: Nested ::
              InputsOk(past) && NestedOk(n) &&
              var s := Run(State(C.RESET_STATE, T.RESET_STATE), past);
              TrapsOnceInNmi(s, n) && ContextOf(Step(BeforeLast(s, n), n.ret2).csr) != ContextOf(s.csr)
  {
    hide Step, Run, Quiet, QuietCycle, Returns, Traps, TakesNmi;
    var idle, nm := Cycle(false, false, false), Cycle(false, false, true);
    var ecall, mret := Cycle(true, false, false), Cycle(false, true, false);
    var past, n := [idle, idle, nm], Nested(nm, [ecall], ecall, [mret], mret, [mret], mret);
    NmiAfterReset();
    var s := State(Ctrl(C.IRQ_TAKEN, false, false), T.RESET_STATE);
    var t0 := Step(s, nm);
    Decoded(t0.csr, true, true);
    OneCycle(t0, ecall);
    EcallTraps(t0.csr, true);
    var t2 := Step(BeforeTrap(s, n), ecall);
    Decoded(t2.csr, true, false);
    OneCycle(t2, mret);
    MretReturns(t2.csr, true);
    var t4 := Step(BeforeReturn(s, n), mret);
    Decoded(t4.csr, false, false);
    OneCycle(t4, mret);
    MretReturns(t4.csr, false);
    assert TrapsOnceInNmi(s, n);
    TrapInNmiHandlerReturnsIff(s, n);
    assert InputsOk(past);
  }

  lemma OneCycle(s: State, x: Inputs)
    requires C.IrqsOk(x.i)
    ensures InputsOk([x]) && Run(s, [x]) == Step(s, x)
    ensures QuietCycle(s, x, true) ==> Quiet(s, [x], true)
  {
    assert [x][1..] == [];
    assert Run(Step(s, x), []) == Step(s, x);
  }

  // ------------------------------------------------------------------ interrupt priority

  /** Among fast interrupts the highest line wins. */
  lemma {:induction false} FastIdIsHighest(fast: seq<bool>, k: nat)
    requires k < |fast|
    ensures forall j :: C.FastId(fast, k) < j <= k ==> !fast[j]
    ensures (exists j :: 0 <= j <= k && fast[j]) ==> fast[C.FastId(fast, k)]
  {
    if k == 0 || fast[k] {
    } else {
      FastIdIsHighest(fast, k - 1);
    }
  }

  lemma InterruptPriority(x: Inputs)
    requires C.IrqsOk(x.i)
    ensures var c := C.IrqCause(x.i);
            && (x.i.irqNm <==> c == C.IrqNm)
            && (c.IrqFast? ==>
                  && c.line < C.FAST_IRQS && x.i.irqs.fast[c.line]
                  && forall j :: c.line < j < C.FAST_IRQS ==> !x.i.irqs.fast[j])
            && (!x.i.irqNm && (c.IrqExternal? || c.IrqSoftware? || c.IrqTimer?) ==>
                  forall j :: 0 <= j < C.FAST_IRQS ==> !x.i.irqs.fast[j])
            && (c.IrqSoftware? || c.IrqTimer? ==> !x.i.irqs.external)
            && (c.IrqTimer? ==> !x.i.irqs.software)
  {
    FastIdIsHighest(x.i.irqs.fast, C.FAST_IRQS - 1);
  }
}
