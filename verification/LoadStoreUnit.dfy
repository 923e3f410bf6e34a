/** rtl/ibex_load_store_unit.sv: alignment of loads and stores and the FSM that splits a
    misaligned access into two bus transactions. */
module LoadStoreUnit {

  const WORDS := 0x4000_0000

  type Byte = bv8

  /** A 32-bit word, lowest byte first. */
  datatype Word = Word(b0: Byte, b1: Byte, b2: Byte, b3: Byte) {
    function At(k: nat): Byte
      requires k < 4
    {
      if k == 0 then b0 else if k == 1 then b1 else if k == 2 then b2 else b3
    }
  }

  const ZERO := Word(0, 0, 0, 0)

  /** Byte enables, lowest lane first. */
  datatype Lanes = Lanes(l0: bool, l1: bool, l2: bool, l3: bool) {
    predicate At(k: nat)
      requires k < 4
    {
      if k == 0 then l0 else if k == 1 then l1 else if k == 2 then l2 else l3
    }
  }

  /** A byte address: `addr[31:2]` and `addr[1:0]`. */
  datatype Address = Address(word: int, offset: nat)

  predicate AddressOk(a: Address) { 0 <= a.word < WORDS && a.offset < 4 }

  datatype Size = WordSize | HalfSize | ByteSize

  datatype State = IDLE | WAIT_GNT_MIS | WAIT_RVALID_MIS | WAIT_GNT | WAIT_RVALID_MIS_GNTS_DONE

  /** `rdataQ` is `rdata_q[31:8]`; its lowest byte is not a register and stays zero. */
  datatype Regs = Regs(fsm: State, handle: bool, pmpErr: bool, lsuErr: bool, rdataQ: Word,
                       offset: nat, size: Size, signExt: bool, we: bool, addrLast: Address)

  datatype Inputs = Inputs(gnt: bool, rvalid: bool, err: bool, pmpErr: bool, rdata: Word,
                           we: bool, size: Size, wdata: Word, signExt: bool, req: bool, addr: Address)

  predicate Shape(s: Regs) { s.offset < 4 && AddressOk(s.addrLast) && s.rdataQ.b0 == 0 }

  // ------------------------------------------------------------------ alignment

  function ByteEnable(size: Size, offset: nat, handle: bool): Lanes {
    match size
    case WordSize =>
      if !handle then
        if offset == 0 then Lanes(true, true, true, true)
        else if offset == 1 then Lanes(false, true, true, true)
        else if offset == 2 then Lanes(false, false, true, true)
        else Lanes(false, false, false, true)
      else
        if offset == 0 then Lanes(false, false, false, false)
        else if offset == 1 then Lanes(true, false, false, false)
        else if offset == 2 then Lanes(true, true, false, false)
        else Lanes(true, true, true, false)
    case HalfSize =>
      if !handle then
        if offset == 0 then Lanes(true, true, false, false)
        else if offset == 1 then Lanes(false, true, true, false)
        else if offset == 2 then Lanes(false, false, true, true)
        else Lanes(false, false, false, true)
      else Lanes(true, false, false, false)
    case ByteSize =>
      if offset == 0 then Lanes(true, false, false, false)
      else if offset == 1 then Lanes(false, true, false, false)
      else if offset == 2 then Lanes(false, false, true, false)
      else Lanes(false, false, false, true)
  }

  function WData(d: Word, offset: nat): Word {
    if offset == 0 then d
    else if offset == 1 then Word(d.b3, d.b0, d.b1, d.b2)
    else if offset == 2 then Word(d.b2, d.b3, d.b0, d.b1)
    else Word(d.b1, d.b2, d.b3, d.b0)
  }

  function RDataWord(q: Word, r: Word, offset: nat): Word {
    if offset == 0 then r
    else if offset == 1 then Word(q.b1, q.b2, q.b3, r.b0)
    else if offset == 2 then Word(q.b2, q.b3, r.b0, r.b1)
    else Word(q.b3, r.b0, r.b1, r.b2)
  }

  function SignByte(b: Byte, signExt: bool): Byte { if signExt && b >= 0x80 then 0xFF else 0 }

  function RDataHalf(q: Word, r: Word, offset: nat, signExt: bool): Word {
    var lo := if offset == 0 then r.b0 else if offset == 1 then r.b1 else if offset == 2 then r.b2 else q.b3;
    var hi := if offset == 0 then r.b1 else if offset == 1 then r.b2 else if offset == 2 then r.b3 else r.b0;
    Word(lo, hi, SignByte(hi, signExt), SignByte(hi, signExt))
  }

  function RDataByte(r: Word, offset: nat, signExt: bool): Word {
    var b := if offset == 0 then r.b0 else if offset == 1 then r.b1 else if offset == 2 then r.b2 else r.b3;
    Word(b, SignByte(b, signExt), SignByte(b, signExt), SignByte(b, signExt))
  }

  /** `lsu_rdata_o`. */
  function RData(s: Regs, i: Inputs): Word {
    match s.size
    case WordSize => RDataWord(s.rdataQ, i.rdata, s.offset)
    case HalfSize => RDataHalf(s.rdataQ, i.rdata, s.offset, s.signExt)
    case ByteSize => RDataByte(i.rdata, s.offset, s.signExt)
  }

  predicate Split(size: Size, offset: nat) {
    (size == WordSize && offset != 0) || (size == HalfSize && offset == 3)
  }

  // ------------------------------------------------------------------ FSM

  predicate DataReq(s: Regs, i: Inputs) {
    (s.fsm == IDLE && i.req) || s.fsm == WAIT_GNT_MIS || s.fsm == WAIT_RVALID_MIS || s.fsm == WAIT_GNT
  }

  /** Asks the ID stage to put the last address plus four on the adder. */
  predicate AddrIncr(s: Regs) {
    s.fsm == WAIT_RVALID_MIS || s.fsm == WAIT_RVALID_MIS_GNTS_DONE || (s.fsm == WAIT_GNT && s.handle)
  }

  function FsmNext(s: Regs, i: Inputs): State {
    var split := Split(i.size, i.addr.offset);
    match s.fsm
    case IDLE =>
      if !i.req then IDLE
      else if i.gnt then if split then WAIT_RVALID_MIS else IDLE
      else if split then WAIT_GNT_MIS else WAIT_GNT
    case WAIT_GNT_MIS => if i.gnt || s.pmpErr then WAIT_RVALID_MIS else WAIT_GNT_MIS
    case WAIT_RVALID_MIS =>
      if i.rvalid || s.pmpErr then if i.gnt then IDLE else WAIT_GNT
      else if i.gnt then WAIT_RVALID_MIS_GNTS_DONE else WAIT_RVALID_MIS
    case WAIT_GNT => if i.gnt || s.pmpErr then IDLE else WAIT_GNT
    case WAIT_RVALID_MIS_GNTS_DONE => if i.rvalid then IDLE else WAIT_RVALID_MIS_GNTS_DONE
  }

  predicate HandleNext(s: Regs, i: Inputs) {
    match s.fsm
    case IDLE => if i.req && i.gnt then Split(i.size, i.addr.offset) else s.handle
    case WAIT_GNT_MIS => s.handle || i.gnt || s.pmpErr
    case WAIT_RVALID_MIS =>
      if i.rvalid || s.pmpErr then !i.gnt
      else if i.gnt then false else s.handle
    case WAIT_GNT => !(i.gnt || s.pmpErr) && s.handle
    case WAIT_RVALID_MIS_GNTS_DONE => s.handle
  }

  predicate PmpErrNext(s: Regs, i: Inputs) {
    match s.fsm
    case IDLE => i.req && i.pmpErr
    case WAIT_RVALID_MIS => if i.rvalid || s.pmpErr then i.pmpErr else s.pmpErr
    case WAIT_RVALID_MIS_GNTS_DONE => if i.rvalid then i.pmpErr else s.pmpErr
    case _ => s.pmpErr
  }

  predicate LsuErrNext(s: Regs, i: Inputs) {
    match s.fsm
    case IDLE => !i.req && s.lsuErr
    case WAIT_RVALID_MIS => if i.rvalid || s.pmpErr then i.err || s.pmpErr else s.lsuErr
    case WAIT_RVALID_MIS_GNTS_DONE => if i.rvalid then i.err else s.lsuErr
    case _ => s.lsuErr
  }

  predicate AddrUpdate(s: Regs, i: Inputs) {
    match s.fsm
    case IDLE => i.req && i.gnt
    case WAIT_GNT_MIS => i.gnt || s.pmpErr
    case WAIT_RVALID_MIS => (i.rvalid || s.pmpErr) && i.gnt && !(i.err || s.pmpErr)
    case WAIT_GNT => (i.gnt || s.pmpErr) && !s.lsuErr
    case WAIT_RVALID_MIS_GNTS_DONE => i.rvalid && !i.err
  }

  predicate CtrlUpdate(s: Regs, i: Inputs) {
    match s.fsm
    case IDLE => i.req && i.gnt
    case WAIT_GNT_MIS => i.gnt || s.pmpErr
    case WAIT_GNT => i.gnt || s.pmpErr
    case _ => false
  }

  predicate RDataUpdate(s: Regs, i: Inputs) {
    match s.fsm
    case WAIT_RVALID_MIS => (i.rvalid || s.pmpErr) && !s.we
    case WAIT_RVALID_MIS_GNTS_DONE => i.rvalid && !s.we
    case _ => false
  }

  function Step(s: Regs, i: Inputs): Regs {
    var ctrl := CtrlUpdate(s, i);
    Regs(FsmNext(s, i), HandleNext(s, i), PmpErrNext(s, i), LsuErrNext(s, i),
         if RDataUpdate(s, i) then i.rdata.(b0 := 0) else ZERO,
         if ctrl then i.addr.offset else s.offset,
         if ctrl then i.size else s.size,
         if ctrl then i.signExt else s.signExt,
         if ctrl then i.we else s.we,
         if AddrUpdate(s, i) then i.addr else s.addrLast)
  }

  /** `lsu_resp_valid_o`, `lsu_rdata_valid_o`, `load_err_o` and `store_err_o`. */
  predicate RespValid(s: Regs, i: Inputs) { (i.rvalid || s.pmpErr) && s.fsm == IDLE }

  predicate RDataValid(s: Regs, i: Inputs) {
    s.fsm == IDLE && i.rvalid && !(s.lsuErr || i.err || s.pmpErr) && !s.we
  }

  predicate LoadErr(s: Regs, i: Inputs) { (s.lsuErr || i.err || s.pmpErr) && !s.we && RespValid(s, i) }

  predicate StoreErr(s: Regs, i: Inputs) { (s.lsuErr || i.err || s.pmpErr) && s.we && RespValid(s, i) }

  /** The unit's registers. */
  class LoadStore {
    var fsm: State
    var handle: bool
    var pmpErr: bool
    var lsuErr: bool
    var rdataQ: Word
    var offset: nat
    var size: Size
    var signExt: bool
    var we: bool
    var addrLast: Address

    function State(): Regs
      reads this
    {
      Regs(fsm, handle, pmpErr, lsuErr, rdataQ, offset, size, signExt, we, addrLast)
    }

    constructor ()
      ensures State() == Regs(IDLE, false, false, false, ZERO, 0, WordSize, false, false, Address(0, 0))
    {
      fsm, handle, pmpErr, lsuErr := IDLE, false, false, false;
      rdataQ, offset, size, signExt, we := ZERO, 0, WordSize, false, false;
      addrLast := Address(0, 0);
    }

    /** The FSM, case by case, with the updates it asks of the other registers. */
    method ClockFsm(i: Inputs) returns (addrUpdate: bool, ctrlUpdate: bool, rdataUpdate: bool)
      modifies this`fsm, this`handle, this`pmpErr, this`lsuErr
      ensures var s := old(State());
              && fsm == FsmNext(s, i) && handle == HandleNext(s, i)
              && pmpErr == PmpErrNext(s, i) && lsuErr == LsuErrNext(s, i)
              && addrUpdate == AddrUpdate(s, i) && ctrlUpdate == CtrlUpdate(s, i) && rdataUpdate == RDataUpdate(s, i)
    {
      addrUpdate, ctrlUpdate, rdataUpdate := false, false, false;
      var split := Split(i.size, i.addr.offset);
      match fsm {
        case IDLE =>
          pmpErr := false;
          if i.req {
            pmpErr, lsuErr := i.pmpErr, false;
            if i.gnt {
              ctrlUpdate, addrUpdate := true, true;
              handle := split;
              fsm := if split then WAIT_RVALID_MIS else IDLE;
            } else {
              fsm := if split then WAIT_GNT_MIS else WAIT_GNT;
            }
          }
        case WAIT_GNT_MIS =>
          if i.gnt || pmpErr {
            addrUpdate, ctrlUpdate := true, true;
            handle := true;
            fsm := WAIT_RVALID_MIS;
          }
        case WAIT_RVALID_MIS =>
          if i.rvalid || pmpErr {
            rdataUpdate := !we;
            addrUpdate := i.gnt && !(i.err || pmpErr);
            handle := !i.gnt;
            lsuErr := i.err || pmpErr;
            pmpErr := i.pmpErr;
            fsm := if i.gnt then IDLE else WAIT_GNT;
          } else if i.gnt {
            fsm := WAIT_RVALID_MIS_GNTS_DONE;
            handle := false;
          }
        case WAIT_GNT =>
          if i.gnt || pmpErr {
            ctrlUpdate := true;
            addrUpdate := !lsuErr;
            fsm := IDLE;
            handle := false;
          }
        case WAIT_RVALID_MIS_GNTS_DONE =>
          if i.rvalid {
            pmpErr, lsuErr := i.pmpErr, i.err;
            addrUpdate := !i.err;
            rdataUpdate := !we;
            fsm := IDLE;
          }
      }
    }

    method ClockData(i: Inputs, addrUpdate: bool, ctrlUpdate: bool, rdataUpdate: bool)
      modifies this`rdataQ, this`offset, this`size, this`signExt, this`we, this`addrLast
      ensures rdataQ == if rdataUpdate then i.rdata.(b0 := 0) else ZERO
      ensures offset == if ctrlUpdate then i.addr.offset else old(offset)
      ensures size == if ctrlUpdate then i.size else old(size)
      ensures signExt == if ctrlUpdate then i.signExt else old(signExt)
      ensures we == if ctrlUpdate then i.we else old(we)
      ensures addrLast == if addrUpdate then i.addr else old(addrLast)
    {
      rdataQ := if rdataUpdate then i.rdata.(b0 := 0) else ZERO;
      if ctrlUpdate {
        offset, size, signExt, we := i.addr.offset, i.size, i.signExt, i.we;
      }
      if addrUpdate {
        addrLast := i.addr;
      }
    }

    method Clock(i: Inputs)
      modifies this
      ensures State() == Step(old(State()), i)
    {
      hide FsmNext, HandleNext, PmpErrNext, LsuErrNext, AddrUpdate, CtrlUpdate, RDataUpdate;
      var addrUpdate, ctrlUpdate, rdataUpdate := ClockFsm(i);
      ClockData(i, addrUpdate, ctrlUpdate, rdataUpdate);
    }
  }
}
