/** rtl/ibex_prefetch_buffer.sv: a pipelined bus client that fetches ahead of the core. */
module PrefetchBuffer {
  import opened FetchFifo

  const NUM_REQS := 2
  const ADDRESSES := 0x1_0000_0000

  datatype PbRegs = PbRegs(validReq: bool, discardReq: bool, outstanding: seq<bool>, discard: seq<bool>,
                           pmpErr: seq<bool>, storedAddr: int, fetchAddr: int, fifo: Regs)

  datatype PbInputs = PbInputs(req: bool, branch: bool, addr: int, ready: bool, gnt: bool, rdata: Word,
                               err: bool, pmpErr: bool, rvalid: bool)

  predicate PbShape(s: PbRegs) {
    && |s.outstanding| == NUM_REQS && |s.discard| == NUM_REQS && |s.pmpErr| == NUM_REQS
    && Shape(s.fifo)
  }

  function Align(a: int): int { a - a % 4 }

  // ------------------------------------------------------------------ requests

  predicate ValidNewReq(s: PbRegs, i: PbInputs)
    requires PbShape(s)
  {
    i.req && (InReady(s.fifo) || i.branch) && !s.outstanding[1]
  }

  predicate ValidReq(s: PbRegs, i: PbInputs)
    requires PbShape(s)
  {
    s.validReq || ValidNewReq(s, i)
  }

  /** A request blocked by the PMP never sees a grant, so one is faked. */
  predicate GntOrPmpErr(i: PbInputs) { i.gnt || i.pmpErr }

  predicate RvalidOrPmpErr(s: PbRegs, i: PbInputs)
    requires PbShape(s)
  {
    s.outstanding[0] && (i.rvalid || s.pmpErr[0])
  }

  predicate DiscardReqNext(s: PbRegs, i: PbInputs) { s.validReq && (i.branch || s.discardReq) }

  // ------------------------------------------------------------------ addresses

  predicate IssuesNew(s: PbRegs, i: PbInputs)
    requires PbShape(s)
  {
    ValidNewReq(s, i) && !s.validReq
  }

  function InstrAddr(s: PbRegs, i: PbInputs): int {
    if s.validReq then s.storedAddr else if i.branch then i.addr else s.fetchAddr
  }

  function BusAddr(s: PbRegs, i: PbInputs): int { Align(InstrAddr(s, i)) }

  function StoredAddrNext(s: PbRegs, i: PbInputs): int
    requires PbShape(s)
  {
    if IssuesNew(s, i) && !GntOrPmpErr(i) then InstrAddr(s, i) else s.storedAddr
  }

  function FetchAddrNext(s: PbRegs, i: PbInputs): int
    requires PbShape(s)
  {
    if i.branch || IssuesNew(s, i)
    then ((if i.branch then i.addr else Align(s.fetchAddr)) + (if IssuesNew(s, i) then 4 else 0)) % ADDRESSES
    else s.fetchAddr
  }

  // ------------------------------------------------------------------ outstanding queue

  /** Slot `k` is where a request granted now would go. */
  predicate Reaches(s: PbRegs, k: nat)
    requires PbShape(s) && k < NUM_REQS
  {
    k > 0 ==> s.outstanding[k - 1]
  }

  predicate OutstandingN(s: PbRegs, i: PbInputs, k: nat)
    requires PbShape(s) && k < NUM_REQS
  {
    (ValidReq(s, i) && GntOrPmpErr(i) && Reaches(s, k)) || s.outstanding[k]
  }

  predicate DiscardN(s: PbRegs, i: PbInputs, k: nat)
    requires PbShape(s) && k < NUM_REQS
  {
    || (ValidReq(s, i) && GntOrPmpErr(i) && DiscardReqNext(s, i) && Reaches(s, k))
    || (i.branch && s.outstanding[k])
    || s.discard[k]
  }

  predicate PmpErrN(s: PbRegs, i: PbInputs, k: nat)
    requires PbShape(s) && k < NUM_REQS
  {
    (ValidReq(s, i) && !s.outstanding[k] && i.pmpErr && Reaches(s, k)) || s.pmpErr[k]
  }

  /** Entries shift down when a response arrives. */
  function Shifted(shift: bool, low: bool, high: bool): (q: seq<bool>)
    ensures |q| == NUM_REQS
  {
    if shift then [high, false] else [low, high]
  }

  // ------------------------------------------------------------------ FIFO port and clock edge

  predicate FifoValid(s: PbRegs, i: PbInputs)
    requires PbShape(s)
  {
    RvalidOrPmpErr(s, i) && !s.discard[0]
  }

  function FifoInputs(s: PbRegs, i: PbInputs): Inputs
    requires PbShape(s)
  {
    Inputs(i.branch, FifoValid(s, i), i.addr, Entry(i.rdata, i.err || s.pmpErr[0]), i.ready)
  }

  predicate OutValidO(s: PbRegs, i: PbInputs)
    requires PbShape(s)
  {
    OutValid(s.fifo, FifoInputs(s, i))
  }

  function PbStep(s: PbRegs, i: PbInputs): (t: PbRegs)
    requires PbShape(s)
    ensures PbShape(t)
  {
    var shift := RvalidOrPmpErr(s, i);
    PbRegs(ValidReq(s, i) && !GntOrPmpErr(i),
           DiscardReqNext(s, i),
           Shifted(shift, OutstandingN(s, i, 0), OutstandingN(s, i, 1)),
           Shifted(shift, DiscardN(s, i, 0), DiscardN(s, i, 1)),
           Shifted(shift, PmpErrN(s, i, 0), PmpErrN(s, i, 1)),
           StoredAddrNext(s, i), FetchAddrNext(s, i),
           Step(s.fifo, FifoInputs(s, i)))
  }

  class Prefetcher {
    var validReq: bool
    var discardReq: bool
    var outstanding: seq<bool>
    var discard: seq<bool>
    var pmpErr: seq<bool>
    var storedAddr: int
    var fetchAddr: int
    const fifo: Fifo

    function State(): PbRegs
      reads this, fifo
    {
      PbRegs(validReq, discardReq, outstanding, discard, pmpErr, storedAddr, fetchAddr, fifo.State())
    }

    predicate Valid()
      reads this, fifo
    {
      PbShape(State())
    }

    constructor ()
      ensures Valid() && fresh(fifo)
      ensures !validReq && !discardReq
      ensures outstanding == [false, false] && discard == [false, false] && pmpErr == [false, false]
      ensures fifo.State().valid == [false, false, false]
    {
      validReq, discardReq := false, false;
      outstanding, discard, pmpErr := [false, false], [false, false], [false, false];
      storedAddr, fetchAddr := 0, 0;
      fifo := new Fifo();
    }

    /** The queue of outstanding requests, given the state `s` before the edge. */
    method ClockOutstanding(s: PbRegs, i: PbInputs)
      requires PbShape(s)
      modifies this`outstanding, this`discard, this`pmpErr
      ensures outstanding == Shifted(RvalidOrPmpErr(s, i), OutstandingN(s, i, 0), OutstandingN(s, i, 1))
      ensures discard == Shifted(RvalidOrPmpErr(s, i), DiscardN(s, i, 0), DiscardN(s, i, 1))
      ensures pmpErr == Shifted(RvalidOrPmpErr(s, i), PmpErrN(s, i, 0), PmpErrN(s, i, 1))
    {
      hide RvalidOrPmpErr, OutstandingN, DiscardN, PmpErrN, Shifted;
      var shift := RvalidOrPmpErr(s, i);
      outstanding := Shifted(shift, OutstandingN(s, i, 0), OutstandingN(s, i, 1));
      discard := Shifted(shift, DiscardN(s, i, 0), DiscardN(s, i, 1));
      pmpErr := Shifted(shift, PmpErrN(s, i, 0), PmpErrN(s, i, 1));
    }

    /** The held request and the addresses. */
    method ClockRequest(s: PbRegs, i: PbInputs)
      requires PbShape(s)
      modifies this`validReq, this`discardReq, this`storedAddr, this`fetchAddr
      ensures validReq == (ValidReq(s, i) && !GntOrPmpErr(i)) && discardReq == DiscardReqNext(s, i)
      ensures storedAddr == StoredAddrNext(s, i) && fetchAddr == FetchAddrNext(s, i)
    {
      hide ValidReq, StoredAddrNext, FetchAddrNext;
      storedAddr := StoredAddrNext(s, i);
      fetchAddr := FetchAddrNext(s, i);
      validReq := ValidReq(s, i) && !GntOrPmpErr(i);
      discardReq := DiscardReqNext(s, i);
    }

    method Clock(i: PbInputs)
      requires Valid()
      modifies this, fifo
      ensures Valid()
      ensures State() == PbStep(old(State()), i)
    {
      hide PbStep, Step, FifoInputs, ValidReq, StoredAddrNext, FetchAddrNext, RvalidOrPmpErr, OutstandingN, DiscardN,
           PmpErrN, Shifted;
      var s := State();
      StepFields(s, i);
      ClockOutstanding(s, i);
      ClockRequest(s, i);
      fifo.Clock(FifoInputs(s, i));
    }
  }

  lemma StepFields(s: PbRegs, i: PbInputs)
    requires PbShape(s)
    ensures var t, shift := PbStep(s, i), RvalidOrPmpErr(s, i);
            && t.fifo == Step(s.fifo, FifoInputs(s, i))
            && t.storedAddr == StoredAddrNext(s, i) && t.fetchAddr == FetchAddrNext(s, i)
            && t.outstanding == Shifted(shift, OutstandingN(s, i, 0), OutstandingN(s, i, 1))
            && t.discard == Shifted(shift, DiscardN(s, i, 0), DiscardN(s, i, 1))
            && t.pmpErr == Shifted(shift, PmpErrN(s, i, 0), PmpErrN(s, i, 1))
            && t.validReq == (ValidReq(s, i) && !GntOrPmpErr(i))
            && t.discardReq == DiscardReqNext(s, i)
  {
  }
}
