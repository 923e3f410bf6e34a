/** With errors that depend on the address alone, the instruction cache reports an error for exactly
    the instructions that have one, and its handshake is the documented one. */
module ICacheFaults {
  import opened ICache
  import opened ICacheProofs
  import opened ICacheData
  import opened ICacheOutput
  import opened ICacheDelivery
  import opened ICacheHandshake

  /** The beats the bus answers with an error, and those the PMP denies. */
  datatype Faults = Faults(bus: (LineAddr, nat) -> bool, pmp: (LineAddr, nat) -> bool)

  predicate FaultAt(e: Faults, a: LineAddr, b: nat) { e.bus(a, b) || e.pmp(a, b) }

  /** The PMP answers in the cycle of the request, the bus with the response. */
  predicate LegalFaults(e: Faults, s: Regs, bus: seq<Fetch>, i: Inputs)
    requires Shape(s)
  {
    && (i.rvalid && bus != [] ==> i.err == e.bus(bus[0].addr.line, bus[0].addr.beat))
    && (InstrReq(s, i) ==> i.pmpErr == e.pmp(InstrAddr(s, i).line, InstrAddr(s, i).beat))
  }

  // ------------------------------------------------------------------ invariant

  ghost predicate LineFaultless(e: Faults, c: Config, a: LineAddr) {
    forall b :: 0 <= b < c.beats ==> !FaultAt(e, a, b)
  }

  /** A flagged beat has a fault, and a beat with a fault that has been received is flagged. */
  predicate BeatFlagged(e: Faults, c: Config, f: Buffer, b: nat)
    requires BufferOk(c, f) && b < c.beats
  {
    && (f.err[b] ==> FaultAt(e, f.addr.line, b))
    && (FaultAt(e, f.addr.line, b) && Received(c, f, b) ==> !f.hit && f.err[b])
  }

  ghost predicate BufferFlagged(e: Faults, c: Config, f: Buffer)
    requires BufferOk(c, f)
  {
    f.busy ==> forall b :: 0 <= b < c.beats ==> BeatFlagged(e, c, f, b)
  }

  ghost predicate EntryFaultless(e: Faults, c: Config, tag: Tag, index: nat) {
    tag.valid ==> LineFaultless(e, c, LineAddr(tag.tag, index))
  }

  /** Only lines without a fault are in the cache. */
  ghost predicate RamsFaultless(e: Faults, s: Regs, clean: nat)
    requires Shape(s)
  {
    forall v, x :: 0 <= v < s.c.ways && 0 <= x < s.c.lines && x < clean ==> EntryFaultless(e, s.c, s.tags[v][x], x)
  }

  ghost predicate LookupFaultless(e: Faults, s: Regs)
    requires Shape(s)
  {
    s.lookupValid ==>
      forall v :: 0 <= v < s.c.ways ==> EntryFaultless(e, s.c, s.tagRead[v], s.fb[s.fillIn].addr.line.index)
  }

  /** What the PMP denies never reaches the bus. */
  ghost predicate BusAllowed(e: Faults, bus: seq<Fetch>) {
    forall p :: 0 <= p < |bus| ==> !e.pmp(bus[p].addr.line, bus[p].addr.beat)
  }

  ghost predicate FaultInv(e: Faults, s: Regs, w: World) {
    && Shape(s) && RamsFaultless(e, s, w.clean) && LookupFaultless(e, s) && BusAllowed(e, w.bus)
    && forall k :: 0 <= k < |s.fb| ==> BufferFlagged(e, s.c, s.fb[k])
  }

  // ------------------------------------------------------------------ where flags come from

  lemma BusAllowedStep(e: Faults, s: Regs, bus: seq<Fetch>, i: Inputs)
    requires Shape(s) && BusAllowed(e, bus) && LegalFaults(e, s, bus, i)
    ensures BusAllowed(e, BusNext(s, bus, i))
  {
    hide Shape, InstrReq, InstrAddr;
    var next, rest := BusNext(s, bus, i), if i.rvalid && bus != [] then bus[1..] else bus;
    assert next == rest + Issued(s, i);
    forall p | 0 <= p < |next| ensures !e.pmp(next[p].addr.line, next[p].addr.beat) {
      if p < |rest| {
        assert next[p] == rest[p];
      } else {
        assert Grants(s, i) && next[p] == Issued(s, i)[0];
      }
    }
  }

  /** A hit is on a line without faults. */
  lemma HitIsFaultless(e: Faults, m: Memory, s: Regs, k: nat)
    requires Shape(s) && LookupOk(m, s) && LookupFaultless(e, s) && k < |s.fb| && HitIc1(s, k)
    ensures LineFaultless(e, s.c, s.fb[k].addr.line)
  {
    var v :| 0 <= v < |s.tagRead| && TagMatch(s, v);
    assert EntryFaultless(e, s.c, s.tagRead[v], s.fb[k].addr.line.index);
    hide LineFaultless;
  }

  /** A PMP error is flagged for the beat it denies. */
  lemma DeniedIsFault(e: Faults, s: Regs, w: World, i: Inputs, k: nat)
    requires Shape(s) && Age(s, w.order) && LegalFaults(e, s, w.bus, i) && k < |s.fb| && ExtArb(s, i, k) && i.pmpErr
    ensures FaultAt(e, s.fb[k].addr.line, ExtOff(s.c, s.fb[k]))
  {
    assert ExtReq(s, i, k) && AnyExtReq(s, i);
    hide Shape, Age, ExtArb, ExtReq, ExtOff;
    SomeExtArb(s, w.order, i);
    var p := ExtPick(s, i, 0);
    if p != k {
      GrantsAreOneHot(s, w.order, i, p, k);
    }
    assert InstrAddr(s, i) == Addr(s.fb[k].addr.line, ExtOff(s.c, s.fb[k]));
  }

  /** A response is an error exactly if its beat has a fault. */
  lemma ResponseIsFault(e: Faults, s: Regs, w: World, i: Inputs, k: nat)
    requires BusInv(s, w.order, w.bus) && LegalBus(w.bus, i) && LegalFaults(e, s, w.bus, i) && BusAllowed(e, w.bus)
    requires k < |s.fb| && RvdArb(s, i, k)
    ensures i.err <==> FaultAt(e, s.fb[k].addr.line, RvdOff(s.c, s.fb[k]))
  {
    ResponseReachesOwner(s, w.order, w.bus, i, k);
    hide BusInv, InstrReq, RvdOff;
    assert !e.pmp(w.bus[0].addr.line, w.bus[0].addr.beat);
  }

  // ------------------------------------------------------------------ flags over a cycle

  /** One beat of a buffer that stays, without a hit. */
  lemma BeatFlaggedStep(e: Faults, s: Regs, w: World, i: Inputs, k: nat, b: nat, g: Buffer)
    requires Shape(s) && Age(s, w.order) && LegalFaults(e, s, w.bus, i) && k < |s.fb| && s.fb[k].busy && b < s.c.beats
    requires BufferOk(s.c, g) && g.addr == s.fb[k].addr && g.err == ErrNext(s, i, k) && g.hit == s.fb[k].hit
    requires g.rvdCnt == s.fb[k].rvdCnt + (if RvdArb(s, i, k) then 1 else 0) <= s.c.beats
    requires RvdArb(s, i, k) ==> (i.err <==> FaultAt(e, s.fb[k].addr.line, RvdOff(s.c, s.fb[k])))
    requires BeatFlagged(e, s.c, s.fb[k], b)
    ensures BeatFlagged(e, s.c, g, b)
  {
    var f := s.fb[k];
    assert BufferOk(s.c, f) && s.c.beats >= 2;
    if ExtArb(s, i, k) && i.pmpErr {
      DeniedIsFault(e, s, w, i, k);
    }
    hide Shape, Age, LegalFaults, ExtArb, RvdArb, FaultAt, ExtOff;
    assert g.err[b] == ((ExtArb(s, i, k) && i.pmpErr && ExtOff(s.c, f) == b)
                        || (RvdArb(s, i, k) && i.err && RvdOff(s.c, f) == b) || f.err[b]);
    if Received(s.c, g, b) && !Received(s.c, f, b) {
      assert RvdArb(s, i, k) && b == RvdOff(s.c, f);
    }
  }

  lemma BufferFlaggedStep(e: Faults, m: Memory, s: Regs, w: World, i: Inputs, k: nat)
    requires Inv(m, s, w) && FaultInv(e, s, w) && Legal(m, s, w.bus, i) && LegalFaults(e, s, w.bus, i) && k < |s.fb|
    requires BufferOk(s.c, BufferNext(s, i, k))
    ensures BufferFlagged(e, s.c, BufferNext(s, i, k))
  {
    var f, g := s.fb[k], BufferNext(s, i, k);
    if g.busy {
      OlderNext(s, i, k);
      if f.busy {
        FillNext(s, i, k);
        BusyCounters(s, w.order, w.bus, i, k);
        StayingFlagged(e, m, s, w, i, k, g);
      } else {
        AllocUnflagged(e, m, s, i, k);
      }
    }
  }

  lemma AllocUnflagged(e: Faults, m: Memory, s: Regs, i: Inputs, k: nat)
    requires Ready(s, i) && k < |s.fb| && Alloc(s, i, k) && LookupOk(m, s) && BufferOk(s.c, BufferNext(s, i, k))
    ensures BufferFlagged(e, s.c, BufferNext(s, i, k))
  {
    AllocHasNoData(m, s, i, k);
    var g := BufferNext(s, i, k);
    assert g.err == ErrNext(s, i, k) && !s.fb[k].busy && !ExtArb(s, i, k) && !RvdArb(s, i, k);
    hide BufferNext, Alloc, Shape, FaultAt, ExtArb, RvdArb;
    assert forall b :: 0 <= b < s.c.beats ==> !g.err[b] && !Received(s.c, g, b);
  }

  lemma StayingFlagged(e: Faults, m: Memory, s: Regs, w: World, i: Inputs, k: nat, g: Buffer)
    requires Inv(m, s, w) && FaultInv(e, s, w) && Legal(m, s, w.bus, i) && LegalFaults(e, s, w.bus, i)
    requires k < |s.fb| && s.fb[k].busy && BufferOk(s.c, g)
    requires g.addr == s.fb[k].addr && g.err == ErrNext(s, i, k) && g.hit == (HitIc1(s, k) || s.fb[k].hit)
    requires g.rvdCnt == s.fb[k].rvdCnt + (if i.rvalid && w.bus[0].owner == k then 1 else 0) <= s.fb[k].extCnt
    ensures BufferFlagged(e, s.c, g)
  {
    hide Inv, FaultInv, Legal, LegalFaults, Shape, Age, BusInv, RvdArb, HitIc1, ErrNext, LookupOk, LookupFaultless,
         BusAllowed;
    InvBuffer(m, s, w, k);
    ResponseIsMemory(m, s, w, i, k);
    BufferFacts(e, m, s, w, i, k);
    forall b | 0 <= b < s.c.beats ensures BeatFlagged(e, s.c, g, b) {
      assert BeatFlagged(e, s.c, s.fb[k], b);
      BeatFlaggedStep(e, s, w, i, k, b, g.(hit := s.fb[k].hit));
      assert HitIc1(s, k) ==> !FaultAt(e, g.addr.line, b);
    }
  }

  /** What one busy buffer's next flags rest on. */
  lemma BufferFacts(e: Faults, m: Memory, s: Regs, w: World, i: Inputs, k: nat)
    requires Inv(m, s, w) && FaultInv(e, s, w) && Legal(m, s, w.bus, i) && LegalFaults(e, s, w.bus, i)
    requires k < |s.fb| && s.fb[k].busy
    ensures BufferOk(s.c, s.fb[k]) && BufferFlagged(e, s.c, s.fb[k]) && Age(s, w.order) && LegalBus(w.bus, i)
    ensures RvdArb(s, i, k) ==> (i.err <==> FaultAt(e, s.fb[k].addr.line, RvdOff(s.c, s.fb[k])))
    ensures HitIc1(s, k) ==> LineFaultless(e, s.c, s.fb[k].addr.line)
  {
    InvParts(e, m, s, w);
    assert LegalBus(w.bus, i) && BufferFlagged(e, s.c, s.fb[k]);
    hide Inv, FaultInv, Legal, LegalFaults, Age, BusInv, RvdArb, HitIc1, LookupOk, LookupFaultless, BusAllowed,
         FaultAt, RvdOff, BufferFlagged, LineFaultless;
    if RvdArb(s, i, k) {
      ResponseIsFault(e, s, w, i, k);
    }
    if HitIc1(s, k) {
      HitIsFaultless(e, m, s, k);
    }
  }

  lemma InvParts(e: Faults, m: Memory, s: Regs, w: World)
    requires Inv(m, s, w) && FaultInv(e, s, w)
    ensures Shape(s) && Age(s, w.order) && BusInv(s, w.order, w.bus) && LookupOk(m, s) && LookupFaultless(e, s)
    ensures BusAllowed(e, w.bus)
  {
  }

  // ------------------------------------------------------------------ RAMs and lookup over a cycle

  /** What is written to the RAMs has no fault. */
  lemma WritesFaultless(e: Faults, m: Memory, s: Regs, w: World, k: nat)
    requires Inv(m, s, w) && FaultInv(e, s, w) && k < |s.fb| && RamReq(s, k)
    ensures LineFaultless(e, s.c, s.fb[k].addr.line)
  {
    var f := s.fb[k];
    InvBuffer(m, s, w, k);
    assert BufferFlagged(e, s.c, f);
    hide Inv, FaultInv, Shape, FaultAt;
    forall b | 0 <= b < s.c.beats ensures !FaultAt(e, f.addr.line, b) {
      assert BeatFlagged(e, s.c, f, b) && Received(s.c, f, b) && !f.err[b];
    }
  }

  lemma RamsFaultlessStep(e: Faults, m: Memory, s: Regs, w: World, i: Inputs)
    requires Inv(m, s, w) && FaultInv(e, s, w) && Ready(s, i) && Shape(Step(s, i))
    ensures RamsFaultless(e, Step(s, i), CleanNext(s, w.clean))
  {
    var t, k, clean := Step(s, i), RamPick(s, i, 0), CleanNext(s, w.clean);
    RamsShape(s, i);
    assert t.tags == TagsNext(s, i) && t.c == s.c;
    if k < |s.fb| && RamReq(s, k) {
      WritesFaultless(e, m, s, w, k);
    }
    assert RamsFaultless(e, s, w.clean);
    hide Step, Inv, FaultInv, TagsNext, LinesNext, LineFaultless, RamReq;
    forall v, x | 0 <= v < s.c.ways && 0 <= x < s.c.lines && x < clean ensures EntryFaultless(e, s.c, t.tags[v][x], x) {
      EntryNext(s, i, v, x);
      hide Shape, RamsOk;
      assert x < w.clean ==> EntryFaultless(e, s.c, s.tags[v][x], x);
    }
  }

  lemma LookupFaultlessStep(e: Faults, m: Memory, s: Regs, w: World, i: Inputs)
    requires Inv(m, s, w) && FaultInv(e, s, w) && Legal(m, s, w.bus, i) && Shape(Step(s, i))
    ensures LookupFaultless(e, Step(s, i))
  {
    var t := Step(s, i);
    assert t.lookupValid == LookupActual(s, i) && t.c == s.c;
    if t.lookupValid {
      var a := LookupAddr(s, i).line;
      LookupNext(s, i);
      ReadNext(s, i, 0);
      assert s.resetInval && !s.invalProg && a.index < w.clean by { LookupIsClean(m, s, w, i); }
      assert RamsFaultless(e, s, w.clean);
      hide Step, Inv, FaultInv, Legal, Shape, EntryFaultless, LookupActual, Lookup, LowestFree;
      forall v | 0 <= v < s.c.ways ensures EntryFaultless(e, s.c, t.tagRead[v], a.index) {
        ReadNext(s, i, v);
        assert EntryFaultless(e, s.c, s.tags[v][a.index], a.index);
      }
    }
  }

  /** Nothing is looked up that the sweep has not initialised. */
  lemma LookupIsClean(m: Memory, s: Regs, w: World, i: Inputs)
    requires Inv(m, s, w) && Legal(m, s, w.bus, i) && LookupActual(s, i)
    ensures s.resetInval && !s.invalProg && LookupAddr(s, i).line.index < w.clean
  {
  }

  lemma FaultInvStep(e: Faults, m: Memory, s: Regs, w: World, i: Inputs)
    requires Inv(m, s, w) && FaultInv(e, s, w) && Legal(m, s, w.bus, i) && LegalFaults(e, s, w.bus, i)
    ensures FaultInv(e, Step(s, i), WorldStep(s, w, i))
  {
    var t := Step(s, i);
    ShapeStep(s, i);
    RamsFaultlessStep(e, m, s, w, i);
    LookupFaultlessStep(e, m, s, w, i);
    BusAllowedStep(e, s, w.bus, i);
    BuffersStep(s, i);
    forall k | 0 <= k < |s.fb| ensures BufferFlagged(e, t.c, t.fb[k]) {
      assert BufferOk(t.c, t.fb[k]);
      BufferFlaggedStep(e, m, s, w, i, k);
    }
    hide Step, BufferNext, Inv, Legal, LegalFaults, BufferFlagged, RamsFaultless, LookupFaultless, BusAllowed,
         OrderNext, BusNext, Shape;
  }

  // ------------------------------------------------------------------ the output

  /** What the multiplexers put out is an error exactly if the beat at the head of the stream has a
      fault. */
  lemma OutputErrIff(e: Faults, m: Memory, s: Regs, w: World, o: OutRegs, x: CoreInputs)
    requires DeliveryInv(m, s, w, o, true) && FaultInv(e, s, w) && OutReady(s, o, x)
    requires Legal(m, s, w.bus, x.i) && LegalFaults(e, s, w.bus, x.i) && DataValid(s, x.i)
    ensures OutputErr(s, o, x) <==> FaultAt(e, Wanted(s.c, o).line, Wanted(s.c, o).beat)
  {
    var k :| 0 <= k < |s.fb| && OutArb(s, x.i, k);
    HeadIsWanted(m, s, w, o, x, k);
    HeadErrIff(e, m, s, w, o, x, k);
  }

  lemma HeadErrIff(e: Faults, m: Memory, s: Regs, w: World, o: OutRegs, x: CoreInputs, k: nat)
    requires Inv(m, s, w) && LookupOutputs(s) && FaultInv(e, s, w) && OutReady(s, o, x)
    requires Legal(m, s, w.bus, x.i) && LegalFaults(e, s, w.bus, x.i)
    requires k < |s.fb| && OutArb(s, x.i, k) && NotAhead(s.fb[k]) && s.fb[k].outCnt == MuxBeat(s, o)
    ensures OutputErr(s, o, x) <==> FaultAt(e, s.fb[k].addr.line, s.fb[k].outCnt)
  {
    var f := s.fb[k];
    HeadSource(m, s, w, x.i, k);
    InvParts(e, m, s, w);
    assert s.fb[k].busy && f.outCnt < s.c.beats;
    InvBuffer(m, s, w, k);
    if AnyDataRvd(s, x.i) {
      assert RvdArb(s, x.i, k) && RvdOff(s.c, f) == f.outCnt;
      ResponseIsFault(e, s, w, x.i, k);
    } else if AnyDataHit(s) {
      HitIsFaultless(e, m, s, k);
    } else {
      assert BufferFlagged(e, s.c, f);
      BufferedErrIff(e, s.c, f);
    }
  }

  lemma BufferedErrIff(e: Faults, c: Config, f: Buffer)
    requires BufferOk(c, f) && f.busy && BufferFlagged(e, c, f) && f.addr.beat <= f.outCnt < c.beats
        && f.rvdCnt <= c.beats
    requires f.hit || RvdBeat(c, f) > f.outCnt || f.err[f.outCnt]
    ensures f.err[f.outCnt] <==> FaultAt(e, f.addr.line, f.outCnt)
  {
    assert BeatFlagged(e, c, f, f.outCnt);
    hide FaultAt;
  }

  // ------------------------------------------------------------------ instructions

  predicate FaultHalf(e: Faults, c: Config, n: nat)
    requires ConfigOk(c)
  {
    var at := AddrOfHalf(c, n);
    FaultAt(e, at.0.line, at.0.beat)
  }

  /** The instruction at a halfword number has a fault in its first or in its second half. */
  predicate Faulty(e: Faults, m: Memory, c: Config, pc: nat)
    requires ConfigOk(c)
  {
    FaultHalf(e, c, pc) || (!Compressed(MemHalf(m, c, pc)) && FaultHalf(e, c, Next(c, pc, true)))
  }

  /** The half kept in the skid buffer has none. */
  predicate SkidFaultless(e: Faults, o: OutRegs) { o.skidValid ==> !FaultAt(e, o.addr.line, o.addr.beat) }

  predicate OutputErrIs(e: Faults, s: Regs, o: OutRegs, x: CoreInputs)
    requires OutReady(s, o, x)
  {
    DataValid(s, x.i) ==> (OutputErr(s, o, x) <==> FaultAt(e, Wanted(s.c, o).line, Wanted(s.c, o).beat))
  }

  lemma FaultsOfAddress(e: Faults, c: Config, a: Addr, upper: bool)
    requires ConfigOk(c) && AddrOk(c, a)
    ensures var pc, next := HalfNumber(c, a, upper), NextHalf(c, a, upper);
            && FaultHalf(e, c, pc) == FaultAt(e, a.line, a.beat)
            && FaultHalf(e, c, Next(c, pc, true)) == FaultAt(e, next.0.line, next.0.beat)
  {
    hide HalfNumber, Next, AddrOfHalf, NextBeat, FaultAt;
    SkipCounts(c, a, upper, true);
    AddrOfHalfNumber(c, a, upper);
    var next := NextHalf(c, a, upper);
    AddrOfHalfNumber(c, next.0, next.1);
  }

  /** A valid output carries an error exactly if its instruction has a fault, said to be in the second
      half exactly if the first has none. */
  lemma ErrorIff(e: Faults, m: Memory, s: Regs, o: OutRegs, x: CoreInputs)
    requires OutReady(s, o, x) && SkidOk(m, o) && SkidFaultless(e, o) && ValidO(s, o, x)
    requires PutsOut(m, s, o, x, Wanted(s.c, o)) && OutputErrIs(e, s, o, x)
    ensures var pc := HalfNumber(s.c, o.addr, o.upper);
            && (ErrO(s, o, x) <==> Faulty(e, m, s.c, pc))
            && (ErrO(s, o, x) ==> (ErrPlus2(o) <==> !FaultHalf(e, s.c, pc)))
  {
    assert ConfigOk(s.c);
    hide OutputErr, OutputData, DataValid, NextBeat, Lo, Hi, Compressed, Shape, FaultAt, FaultHalf, HalfNumber, Next,
         MemHalf;
    FaultsOfAddress(e, s.c, o.addr, o.upper);
    HalvesOfAddress(m, s.c, o.addr, o.upper);
  }

  lemma SkidFaultlessStep(e: Faults, m: Memory, s: Regs, o: OutRegs, x: CoreInputs)
    requires OutReady(s, o, x) && SkidOk(m, o) && SkidFaultless(e, o) && OutputErrIs(e, s, o, x)
    requires !x.i.branch && !(Accepts(s, o, x) && ErrO(s, o, x))
    ensures SkidFaultless(e, OutNext(s, o, x))
  {
    hide OutputErr, OutputData, DataValid, NextBeat, Lo, Hi, Compressed, Shape, FaultAt;
  }

  // ------------------------------------------------------------------ runs

  /** Everything that holds of a followed stream. */
  ghost predicate AllInv(e: Faults, m: Memory, s: Regs, w: World, o: OutRegs, running: bool) {
    DeliveryInv(m, s, w, o, running) && FaultInv(e, s, w) && (running ==> SkidFaultless(e, o))
  }

  predicate LegalAll(e: Faults, m: Memory, s: Regs, w: World, o: OutRegs, x: CoreInputs) {
    OutReady(s, o, x) && Legal(m, s, w.bus, x.i) && LegalFaults(e, s, w.bus, x.i)
  }

  lemma OutputErrHolds(e: Faults, m: Memory, s: Regs, w: World, o: OutRegs, x: CoreInputs)
    requires AllInv(e, m, s, w, o, true) && LegalAll(e, m, s, w, o, x)
    ensures PutsOut(m, s, o, x, Wanted(s.c, o)) && OutputErrIs(e, s, o, x)
  {
    PutsOutWanted(m, s, w, o, x);
    if DataValid(s, x.i) {
      OutputErrIff(e, m, s, w, o, x);
    }
    hide DataValid, OutputErr, OutputData, FaultAt, DeliveryInv, FaultInv;
  }

  /** What the fill buffers see is legal if what the cache sees is. */
  lemma LegalFaultsAgrees(e: Faults, s: Regs, bus: seq<Fetch>, o: OutRegs, x: CoreInputs)
    requires OutReady(s, o, x) && LegalFaults(e, s, bus, x.i)
    ensures LegalFaults(e, s, bus, FillInputs(o, x))
  {
    var i := FillInputs(o, x);
    assert forall j :: 0 <= j < |s.fb| ==> ExtReq(s, i, j) == ExtReq(s, x.i, j);
    hide ExtReq, Shape;
    assert forall j :: 0 <= j < |s.fb| ==> ExtArb(s, i, j) == ExtArb(s, x.i, j);
    SamePick(s, i, x.i, 0);
  }

  lemma {:induction false} SamePick(s: Regs, i: Inputs, j: Inputs, k: nat)
    requires Shape(s) && k <= |s.fb| && forall n :: 0 <= n < |s.fb| ==> ExtArb(s, i, n) == ExtArb(s, j, n)
    ensures ExtPick(s, i, k) == ExtPick(s, j, k)
    decreases |s.fb| - k
  {
    hide ExtArb, Shape;
    if k < |s.fb| {
      SamePick(s, i, j, k + 1);
    }
  }

  lemma AllInvStep(e: Faults, m: Memory, s: Regs, w: World, o: OutRegs, x: CoreInputs, running: bool)
    requires AllInv(e, m, s, w, o, running) && LegalAll(e, m, s, w, o, x)
    ensures AllInv(e, m, CacheStep(s, o, x), WorldStep(s, w, FillInputs(o, x)), OutNext(s, o, x),
                   RunningNext(s, o, x, running))
  {
    var i := FillInputs(o, x);
    DeliveryStep(m, s, w, o, x, running);
    LegalAgrees(m, s, w, o, x);
    LegalFaultsAgrees(e, s, w.bus, o, x);
    FaultInvStep(e, m, s, w, i);
    if RunningNext(s, o, x, running) {
      if !x.i.branch {
        OutputErrHolds(e, m, s, w, o, x);
        SkidFaultlessStep(e, m, s, o, x);
      }
    }
    hide DeliveryInv, FaultInv, Step, WorldStep, RunningNext, FaultAt, Legal, LegalFaults;
  }

  ghost predicate LegalWithFaults(e: Faults, m: Memory, s: Regs, w: World, o: OutRegs, run: seq<CoreInputs>)
    decreases |run|
  {
    run == [] ||
    (LegalAll(e, m, s, w, o, run[0])
     && LegalWithFaults(e, m, CacheStep(s, o, run[0]), WorldStep(s, w, FillInputs(o, run[0])), OutNext(s, o, run[0]),
                        run[1..]))
  }

  /** While a stream is followed an instruction carries an error exactly if it has a fault. */
  ghost predicate ErrorsAreFaults(e: Faults, m: Memory, c: Config, pc: nat, running: bool, trace: seq<Event>)
    requires ConfigOk(c)
    decreases |trace|
  {
    trace == [] ||
    match trace[0]
    case Branch(at, upper) => ErrorsAreFaults(e, m, c, HalfNumber(c, at, upper), true, trace[1..])
    case Instruction(_, _, lo, _, err, plus2) =>
      && (running ==> (err <==> Faulty(e, m, c, pc)) && (err ==> (plus2 <==> !FaultHalf(e, c, pc))))
      && ErrorsAreFaults(e, m, c, Next(c, pc, Compressed(lo)), running && !err, trace[1..])
  }

  lemma ErrorsThen(e: Faults, m: Memory, s: Regs, o: OutRegs, x: CoreInputs, running: bool, rest: seq<Event>)
    requires OutReady(s, o, x)
    requires running && Accepts(s, o, x) ==>
               var pc := HalfNumber(s.c, o.addr, o.upper);
               && (ErrO(s, o, x) <==> Faulty(e, m, s.c, pc))
               && (ErrO(s, o, x) ==> (ErrPlus2(o) <==> !FaultHalf(e, s.c, pc)))
    requires var to := OutNext(s, o, x);
             ErrorsAreFaults(e, m, s.c, HalfNumber(s.c, to.addr, to.upper), RunningNext(s, o, x, running), rest)
    ensures ErrorsAreFaults(e, m, s.c, HalfNumber(s.c, o.addr, o.upper), running, Events(s, o, x) + rest)
  {
    hide Faulty, FaultHalf, HalfNumber, Accepts, ErrO, ErrPlus2, RDataLo, RDataHi, DataValid, OutputData, OutputErr,
         SkidValidNext, Compressed, Skip, Next;
    var v := Events(s, o, x);
    SkipCounts(s.c, o.addr, o.upper, Compressed(RDataLo(s, o, x)));
    if |v| == 2 {
      assert (v + rest)[1..] == [v[1]] + rest;
      assert ([v[1]] + rest)[1..] == rest;
    } else if |v| == 1 {
      assert (v + rest)[1..] == rest;
    } else {
      assert v + rest == rest;
    }
  }

  lemma {:induction false} RunErrorsAreFaults(e: Faults, m: Memory, s: Regs, w: World, o: OutRegs, running: bool,
                                              run: seq<CoreInputs>)
    requires AllInv(e, m, s, w, o, running) && LegalWithFaults(e, m, s, w, o, run)
    ensures ErrorsAreFaults(e, m, s.c, HalfNumber(s.c, o.addr, o.upper), running, Trace(s, o, run))
    decreases |run|
  {
    if run == [] {
    } else {
      var x := run[0];
      var t, to := CacheStep(s, o, x), OutNext(s, o, x);
      AllInvStep(e, m, s, w, o, x, running);
      RunErrorsAreFaults(e, m, t, WorldStep(s, w, FillInputs(o, x)), to, RunningNext(s, o, x, running), run[1..]);
      SameConfig(s, FillInputs(o, x));
      if running && Accepts(s, o, x) {
        OutputErrHolds(e, m, s, w, o, x);
        ErrorIff(e, m, s, o, x);
      }
      hide AllInv, OutNext, RunningNext, Faulty, FaultHalf, ErrorsAreFaults, Accepts, ErrO, Step, LegalAll, Shape,
           ErrPlus2;
      ErrorsThen(e, m, s, o, x, running, Trace(t, to, run[1..]));
    }
  }

  lemma AllInvReset(e: Faults, m: Memory, s: Regs, o: OutRegs)
    requires IsReset(s) && AddrOk(s.c, o.addr)
    ensures AllInv(e, m, s, NOTHING, o, false)
  {
    InvReset(m, s);
  }

  /** From reset, with memory and faults that do not change, everything else free: an instruction of a
      followed stream carries an error exactly if one of its halves has a fault. */
  lemma CacheReportsFaults(e: Faults, m: Memory, s: Regs, o: OutRegs, run: seq<CoreInputs>)
    requires IsReset(s) && AddrOk(s.c, o.addr) && !o.skidValid && LegalWithFaults(e, m, s, NOTHING, o, run)
    ensures ErrorsAreFaults(e, m, s.c, HalfNumber(s.c, o.addr, o.upper), false, Trace(s, o, run))
  {
    AllInvReset(e, m, s, o);
    RunErrorsAreFaults(e, m, s, NOTHING, o, false, run);
  }

  // ------------------------------------------------------------------ the documented handshake

  /** No error arrives for a beat that hits. */
  lemma NothingSpoiled(e: Faults, m: Memory, s: Regs, w: World, i: Inputs, k: nat)
    requires Inv(m, s, w) && FaultInv(e, s, w) && LegalBus(w.bus, i) && LegalFaults(e, s, w.bus, i)
    requires k < |s.fb| && Outputs(s, k)
    ensures !Spoils(s, i, k)
  {
    InvParts(e, m, s, w);
    InvBuffer(m, s, w, k);
    var f := s.fb[k];
    if HitIc1(s, k) {
      HitIsFaultless(e, m, s, k);
    }
    assert f.outCnt < s.c.beats && BeatFlagged(e, s.c, f, f.outCnt);
    if RvdArb(s, i, k) {
      ResponseIsFault(e, s, w, i, k);
    }
    if ExtArb(s, i, k) && i.pmpErr {
      DeniedIsFault(e, s, w, i, k);
    }
    hide Inv, FaultInv, Shape, Age, BusInv, LookupOk, LookupFaultless, BusAllowed, FaultAt, RvdArb, ExtArb, HitIc1;
  }

  lemma {:induction false} AllInvRun(e: Faults, m: Memory, n: Snapshot, run: seq<CoreInputs>)
    requires AllInv(e, m, n.s, n.w, n.o, n.running) && LegalWithFaults(e, m, n.s, n.w, n.o, run)
    ensures var t := After(n, run); AllInv(e, m, t.s, t.w, t.o, t.running)
    ensures LegalDelivery(m, n.s, n.w, n.o, run)
    decreases |run|
  {
    if run != [] {
      var x := run[0];
      AllInvStep(e, m, n.s, n.w, n.o, x, n.running);
      hide AllInv, Step, WorldStep, OutNext, RunningNext;
      AllInvRun(e, m, Snapshot(CacheStep(n.s, n.o, x), WorldStep(n.s, n.w, FillInputs(n.o, x)), OutNext(n.s, n.o, x),
                               RunningNext(n.s, n.o, x, n.running)), run[1..]);
    }
  }

  /** In every run from reset with faults that do not change, what `OutputIsStable` says holds with the
      error flag as stable as the rest. */
  lemma DocumentedHandshake(e: Faults, m: Memory, s: Regs, o: OutRegs, run: seq<CoreInputs>, x: CoreInputs,
                            y: CoreInputs)
    requires IsReset(s) && AddrOk(s.c, o.addr) && !o.skidValid && LegalWithFaults(e, m, s, NOTHING, o, run)
    requires var t := After(Snapshot(s, NOTHING, o, false), run);
             && t.running && LegalAll(e, m, t.s, t.w, t.o, x) && ValidO(t.s, t.o, x) && !x.ready && !x.i.branch
             && OutReady(CacheStep(t.s, t.o, x), OutNext(t.s, t.o, x), y)
             && Legal(m, CacheStep(t.s, t.o, x), WorldStep(t.s, t.w, FillInputs(t.o, x)).bus, y.i)
    ensures var t := After(Snapshot(s, NOTHING, o, false), run);
            var u, to := CacheStep(t.s, t.o, x), OutNext(t.s, t.o, x);
            && ValidO(u, to, y) && SameInstruction(t.s, t.o, x, u, to, y) && ErrO(u, to, y) == ErrO(t.s, t.o, x)
  {
    AllInvReset(e, m, s, o);
    AllInvRun(e, m, Snapshot(s, NOTHING, o, false), run);
    var t := After(Snapshot(s, NOTHING, o, false), run);
    HeadNotSpoiled(e, m, t.s, t.w, t.o, x);
    hide AllInv, LegalWithFaults, LegalDelivery, Step, WorldStep, OutNext, SameInstruction, Shape, HeadSpoiled,
         ValidO, ErrO, After;
    OutputIsStable(m, s, o, run, t, x, y);
  }

  lemma HeadNotSpoiled(e: Faults, m: Memory, s: Regs, w: World, o: OutRegs, x: CoreInputs)
    requires AllInv(e, m, s, w, o, true) && LegalAll(e, m, s, w, o, x)
    ensures !HeadSpoiled(s, x.i)
  {
    assert Inv(m, s, w) && FaultInv(e, s, w) && LegalBus(w.bus, x.i);
    hide AllInv, DeliveryInv, Inv, FaultInv, LegalFaults, Spoils, Shape;
    forall k | 0 <= k < |s.fb| && OutArb(s, x.i, k) ensures !Spoils(s, x.i, k) {
      NothingSpoiled(e, m, s, w, x.i, k);
    }
  }
}
