/** The PMP configuration and address registers and mcountinhibit of rtl/ibex_cs_registers.sv,
    in M-mode: lines 310-364, 624-643, 728-858, 889-902 and 956-976. */
module PmpCsrs {
  import opened CsrAccess

  datatype Mode = OFF | TOR | NA4 | NAPOT

  datatype Cfg = Cfg(lock: bool, mode: Mode, exec: bool, write: bool, read: bool)

  const RESET_CFG := Cfg(false, OFF, false, false, false)

  /** `inhibit` is `mcountinhibit_q`, of which only `counters + 3` bits exist. */
  datatype Regs = Regs(cfg: seq<Cfg>, addr: seq<Word>, inhibit: Word)

  predicate Shape(p: Params, s: Regs) { ParamsOk(p) && |s.cfg| == |s.addr| == p.regions }

  // ------------------------------------------------------------------ read data

  function ModeBits(m: Mode): Byte {
    match m case OFF => 0 case TOR => 0x08 case NA4 => 0x10 case NAPOT => 0x18
  }

  /** A configuration as it reads: zeros in the reserved bits. */
  function Pack(c: Cfg): Byte {
    (if c.lock then 0x80 else 0) | ModeBits(c.mode) | (if c.exec then 4 else 0)
    | (if c.write then 2 else 0) | (if c.read then 1 else 0)
  }

  function CfgRData(p: Params, s: Regs, i: nat): Byte
    requires Shape(p, s)
  {
    if p.pmpEnable && i < p.regions then Pack(s.cfg[i]) else 0
  }

  /** Read data depends on mode and granularity. */
  function AddrRData(p: Params, s: Regs, i: nat): Word
    requires Shape(p, s)
  {
    if !p.pmpEnable || i >= p.regions then ZERO
    else if p.granularity == 0 then s.addr[i]
    else
      match s.cfg[i].mode
      case OFF => And(s.addr[i], From(p.granularity))
      case TOR => And(s.addr[i], From(p.granularity))
      case NAPOT => if p.granularity >= 2 then Or(s.addr[i], Not(From(p.granularity - 1))) else s.addr[i]
      case NA4 => s.addr[i]
  }

  /** The ones in front of `mcountinhibit_q`. */
  function Ones(p: Params): Word { From(p.counters + 3) }

  function MhpmEvent(p: Params, i: nat): Word
  {
    if i == 1 || i >= 3 + p.counters then ZERO else One(i)
  }

  predicate Covered(a: nat) {
    || PMPCFG0 <= a < PMPCFG0 + 4 || PMPADDR0 <= a < PMPADDR0 + 16
    || a == MCOUNTINHIBIT || MCOUNTINHIBIT + 3 <= a < MCOUNTINHIBIT + 32
  }

  /** `csr_rdata_o` at a covered address. */
  function RData(p: Params, s: Regs, a: nat): Word
    requires Shape(p, s) && Covered(a)
  {
    if PMPCFG0 <= a < PMPCFG0 + 4 then
      var i := 4 * (a - PMPCFG0);
      Word(CfgRData(p, s, i), CfgRData(p, s, i + 1), CfgRData(p, s, i + 2), CfgRData(p, s, i + 3))
    else if PMPADDR0 <= a < PMPADDR0 + 16 then AddrRData(p, s, a - PMPADDR0)
    else if a == MCOUNTINHIBIT then Or(Ones(p), s.inhibit)
    else MhpmEvent(p, a - MCOUNTINHIBIT)
  }

  // ------------------------------------------------------------------ write data

  /** The CSR operation logic, on each byte and on the word. */
  function OpByte(v: Byte, op: Op, w: Byte): Byte {
    match op case Set => BitOr(w, v) case Clear => BitAnd(BitNot(w), v) case _ => w
  }

  function OpWord(v: Word, op: Op, w: Word): Word {
    Word(OpByte(v.b0, op, w.b0), OpByte(v.b1, op, w.b1), OpByte(v.b2, op, w.b2), OpByte(v.b3, op, w.b3))
  }

  function WDataInt(p: Params, s: Regs, t: Access): Word
    requires Shape(p, s) && Covered(t.addr)
  {
    OpWord(RData(p, s, t.addr), t.op, t.wdata)
  }

  predicate We(t: Access) { !t.op.Read? }

  function CfgWData(p: Params, b: Byte): Cfg {
    var m := b & 0x18;
    Cfg(b & 0x80 != 0,
        if m == 0 then OFF else if m == 0x08 then TOR
        else if m == 0x10 then if p.granularity == 0 then NA4 else OFF
        else NAPOT,
        b & 4 != 0, b & 3 == 3, b & 1 != 0)
  }

  predicate CfgWe(p: Params, s: Regs, t: Access, i: nat)
    requires Shape(p, s) && i < p.regions
  {
    p.pmpEnable && We(t) && !s.cfg[i].lock && t.addr == PMPCFG0 + i / 4
  }

  predicate AddrWe(p: Params, s: Regs, t: Access, i: nat)
    requires Shape(p, s) && i < p.regions
  {
    && p.pmpEnable && We(t) && !s.cfg[i].lock
    && (i < p.regions - 1 ==> s.cfg[i + 1].mode != TOR)
    && t.addr == PMPADDR0 + i
  }

  function CfgNext(p: Params, s: Regs, t: Access, i: nat): Cfg
    requires Shape(p, s) && Covered(t.addr) && i < p.regions
  {
    if CfgWe(p, s, t, i) then CfgWData(p, WDataInt(p, s, t).At(i % 4)) else s.cfg[i]
  }

  function AddrNext(p: Params, s: Regs, t: Access, i: nat): Word
    requires Shape(p, s) && Covered(t.addr) && i < p.regions
  {
    if AddrWe(p, s, t, i) then WDataInt(p, s, t) else s.addr[i]
  }

  /** Bit 1 is always 0, and bits from `counters + 3` on do not exist. */
  function InhibitNext(p: Params, s: Regs, t: Access): Word
    requires Shape(p, s) && Covered(t.addr)
  {
    if We(t) && t.addr == MCOUNTINHIBIT then And(WDataInt(p, s, t), Not(Or(Ones(p), TIME))) else s.inhibit
  }

  function Step(p: Params, s: Regs, t: Access): Regs
    requires Shape(p, s) && Covered(t.addr)
  {
    Regs(seq(p.regions, i requires 0 <= i < p.regions && Shape(p, s) && Covered(t.addr) => CfgNext(p, s, t, i)),
         seq(p.regions, i requires 0 <= i < p.regions && Shape(p, s) && Covered(t.addr) => AddrNext(p, s, t, i)),
         InhibitNext(p, s, t))
  }

  function ResetState(p: Params): (s: Regs)
    requires ParamsOk(p)
    ensures Shape(p, s)
  {
    Regs(seq(p.regions, i => RESET_CFG), seq(p.regions, i => ZERO), ZERO)
  }

  /** The registers, one region after the other at each clock edge. */
  class CsrBlock {
    const p: Params
    var cfg: seq<Cfg>
    var addr: seq<Word>
    var inhibit: Word

    function State(): Regs
      reads this
    {
      Regs(cfg, addr, inhibit)
    }

    constructor (p: Params)
      requires ParamsOk(p)
      ensures this.p == p && State() == ResetState(p)
    {
      this.p := p;
      cfg, addr, inhibit := seq(p.regions, i => RESET_CFG), seq(p.regions, i => ZERO), ZERO;
    }

    method Clock(t: Access) returns (rdata: Word)
      requires Shape(p, State()) && Covered(t.addr)
      modifies this
      ensures rdata == RData(p, old(State()), t.addr)
      ensures State() == Step(p, old(State()), t)
    {
      hide RData, CfgNext, AddrNext, InhibitNext, WDataInt, CfgWData, CfgWe, AddrWe;
      var s := State();
      rdata := RData(p, s, t.addr);
      var i := 0;
      while i < p.regions
        invariant 0 <= i <= p.regions == |cfg| == |addr|
        invariant forall j :: 0 <= j < i ==> cfg[j] == CfgNext(p, s, t, j) && addr[j] == AddrNext(p, s, t, j)
        invariant forall j :: i <= j < p.regions ==> cfg[j] == s.cfg[j] && addr[j] == s.addr[j]
      {
        cfg := cfg[i := CfgNext(p, s, t, i)];
        addr := addr[i := AddrNext(p, s, t, i)];
        i := i + 1;
      }
      inhibit := InhibitNext(p, s, t);
      assert cfg == Step(p, s, t).cfg && addr == Step(p, s, t).addr;
    }
  }
}

/** What holds of the registers in every configuration. */
module PmpCsrProofs {
  import opened CsrAccess
  import opened PmpCsrs

  lemma StepAt(p: Params, s: Regs, t: Access, i: nat)
    requires Shape(p, s) && Covered(t.addr) && i < p.regions
    ensures Shape(p, Step(p, s, t))
    ensures Step(p, s, t).cfg[i] == CfgNext(p, s, t, i) && Step(p, s, t).addr[i] == AddrNext(p, s, t, i)
  {
  }

  /** After a sequence of accesses. One to any other CSR leaves these registers alone. */
  function Run(p: Params, s: Regs, run: seq<Access>): Regs
    decreases |run|
  {
    if run == [] || !Shape(p, s) then s
    else Run(p, if Covered(run[0].addr) then Step(p, s, run[0]) else s, run[1..])
  }

  /** Region `i + 1` is locked in TOR mode. */
  predicate LockedTor(p: Params, s: Regs, i: nat)
    requires Shape(p, s)
  {
    i + 1 < p.regions && s.cfg[i + 1].lock && s.cfg[i + 1].mode == TOR
  }

  /** No access sequence moves a locked region, nor the base of a locked TOR region. */
  lemma {:induction false} LockIsPermanent(p: Params, s: Regs, run: seq<Access>, i: nat)
    requires Shape(p, s) && i < p.regions
    ensures var t := Run(p, s, run);
            && Shape(p, t)
            && (s.cfg[i].lock ==> t.cfg[i] == s.cfg[i] && t.addr[i] == s.addr[i])
            && (LockedTor(p, s, i)
                ==> t.cfg[i + 1] == s.cfg[i + 1] && t.addr[i] == s.addr[i] && t.addr[i + 1] == s.addr[i + 1])
    decreases |run|
  {
    if run == [] {
    } else if !Covered(run[0].addr) {
      LockIsPermanent(p, s, run[1..], i);
    } else {
      StepAt(p, s, run[0], i);
      if i + 1 < p.regions {
        StepAt(p, s, run[0], i + 1);
      }
      LockIsPermanent(p, Step(p, s, run[0]), run[1..], i);
      hide Step, WDataInt, RData, CfgWData;
    }
  }

  /** No region is ever writable and not readable. */
  predicate NoReserved(s: Regs) { forall i :: 0 <= i < |s.cfg| ==> (s.cfg[i].write ==> s.cfg[i].read) }

  lemma {:induction false} NeverReserved(p: Params, run: seq<Access>, s: Regs)
    requires Shape(p, s) && NoReserved(s)
    ensures NoReserved(Run(p, s, run))
    decreases |run|
  {
    if run == [] {
    } else if !Covered(run[0].addr) {
      NeverReserved(p, run[1..], s);
    } else {
      forall i | 0 <= i < p.regions ensures CfgNext(p, s, run[0], i).write ==> CfgNext(p, s, run[0], i).read {
      }
      NeverReserved(p, run[1..], Step(p, s, run[0]));
    }
  }
}
