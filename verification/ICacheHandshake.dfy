/** The instruction cache's side of the handshake with the core: what is valid stays until it is
    taken, and the cache never gets stuck. */
module ICacheHandshake {
  import opened ICache
  import opened ICacheProofs
  import opened ICacheData
  import opened ICacheOutput
  import opened ICacheDelivery

  // ------------------------------------------------------------------ runs

  /** The cache with what surrounds it; `running` as in `RunningNext`. */
  datatype Snapshot = Snapshot(s: Regs, w: World, o: OutRegs, running: bool)

  ghost function After(n: Snapshot, run: seq<CoreInputs>): Snapshot
    decreases |run|
  {
    if run == [] || !OutReady(n.s, n.o, run[0]) then n
    else
      var x := run[0];
      After(Snapshot(CacheStep(n.s, n.o, x), WorldStep(n.s, n.w, FillInputs(n.o, x)), OutNext(n.s, n.o, x),
                     RunningNext(n.s, n.o, x, n.running)), run[1..])
  }

  /** Everything the handshake rests on. */
  ghost predicate HandshakeInv(m: Memory, n: Snapshot) {
    DeliveryInv(m, n.s, n.w, n.o, n.running) && FlagInv(n.s)
  }

  lemma {:induction false} HandshakeInvRun(m: Memory, n: Snapshot, run: seq<CoreInputs>)
    requires HandshakeInv(m, n) && LegalDelivery(m, n.s, n.w, n.o, run)
    ensures HandshakeInv(m, After(n, run))
    decreases |run|
  {
    if run != [] {
      var x := run[0];
      HandshakeStep(m, n, x);
      hide HandshakeInv, Step, WorldStep, OutNext, RunningNext;
      HandshakeInvRun(m, Snapshot(CacheStep(n.s, n.o, x), WorldStep(n.s, n.w, FillInputs(n.o, x)), OutNext(n.s, n.o, x),
                                  RunningNext(n.s, n.o, x, n.running)), run[1..]);
    }
  }

  lemma HandshakeStep(m: Memory, n: Snapshot, x: CoreInputs)
    requires HandshakeInv(m, n) && OutReady(n.s, n.o, x) && Legal(m, n.s, n.w.bus, x.i)
    ensures HandshakeInv(m,
                         Snapshot(CacheStep(n.s, n.o, x), WorldStep(n.s, n.w, FillInputs(n.o, x)), OutNext(n.s, n.o, x),
                                     RunningNext(n.s, n.o, x, n.running)))
  {
    DeliveryStep(m, n.s, n.w, n.o, x, n.running);
    LegalAgrees(m, n.s, n.w, n.o, x);
    ShapeStep(n.s, FillInputs(n.o, x));
    FlagInvStep(m, n.s, n.w, FillInputs(n.o, x));
    hide DeliveryInv, FlagInv, Step, WorldStep, OutNext, RunningNext;
  }

  /** Reached from reset by a legal run. */
  ghost predicate Reached(m: Memory, s: Regs, o: OutRegs, run: seq<CoreInputs>, t: Snapshot) {
    && IsReset(s) && AddrOk(s.c, o.addr) && !o.skidValid && LegalDelivery(m, s, NOTHING, o, run)
    && t == After(Snapshot(s, NOTHING, o, false), run)
  }

  lemma ReachedHolds(m: Memory, s: Regs, o: OutRegs, run: seq<CoreInputs>, t: Snapshot)
    requires Reached(m, s, o, run, t)
    ensures HandshakeInv(m, t)
  {
    InvReset(m, s);
    HandshakeInvRun(m, Snapshot(s, NOTHING, o, false), run);
  }

  // ------------------------------------------------------------------ error flags

  /** A beat flagged before it was received was denied by the PMP, and is the last one asked for. */
  predicate FlagOk(c: Config, f: Buffer, b: nat)
    requires BufferOk(c, f) && b < c.beats
  {
    f.err[b] && Turn(c, f, b) >= f.rvdCnt ==> Turn(c, f, b) == f.extCnt && !f.extHold
  }

  /** A buffer has nothing flagged while its lookup is in IC1. */
  ghost predicate FlagInv(s: Regs) {
    && Shape(s)
    && (forall k, b :: 0 <= k < |s.fb| && s.fb[k].busy && 0 <= b < s.c.beats ==> FlagOk(s.c, s.fb[k], b))
    && (s.lookupValid ==> s.fb[s.fillIn].busy && forall b :: 0 <= b < s.c.beats ==> !s.fb[s.fillIn].err[b])
  }

  /** What is denied is the next beat to be asked for. */
  lemma DeniedIsNext(m: Memory, s: Regs, w: World, i: Inputs, k: nat)
    requires Inv(m, s, w) && k < |s.fb| && ExtArb(s, i, k)
    ensures s.fb[k].busy && s.fb[k].extCnt < s.c.beats && Turn(s.c, s.fb[k], ExtOff(s.c, s.fb[k])) == s.fb[k].extCnt
  {
    assert s.fb[k].busy;
    InvBuffer(m, s, w, k);
  }

  /** A denied buffer makes no more requests. */
  lemma DeniedStops(m: Memory, s: Regs, w: World, i: Inputs, k: nat, b: nat)
    requires Inv(m, s, w) && k < |s.fb| && s.fb[k].busy && b < s.c.beats && s.fb[k].err[b] && FlagOk(s.c, s.fb[k], b)
    requires Turn(s.c, s.fb[k], b) >= s.fb[k].rvdCnt
    ensures !ExtArb(s, i, k)
  {
    var f := s.fb[k];
    InvBuffer(m, s, w, k);
    assert ExtOff(s.c, f) == b;
  }

  /** The response taken now is for the next beat to be received, one that was asked for. */
  lemma ReceivedIsNext(m: Memory, s: Regs, w: World, i: Inputs, k: nat)
    requires Inv(m, s, w) && LegalBus(w.bus, i) && k < |s.fb| && RvdArb(s, i, k)
    ensures s.fb[k].busy && s.fb[k].rvdCnt < s.fb[k].extCnt <= s.c.beats
    ensures Turn(s.c, s.fb[k], RvdOff(s.c, s.fb[k])) == s.fb[k].rvdCnt
  {
    assert s.fb[k].busy;
    InvBuffer(m, s, w, k);
    ResponseReachesOwner(s, w.order, w.bus, i, k);
    assert Owed(s, w.bus[0]);
  }

  /** One beat's flag over a cycle. */
  lemma FlagNext(s: Regs, i: Inputs, k: nat, b: nat)
    requires Shape(s) && k < |s.fb| && s.fb[k].busy && b < s.c.beats
    ensures ErrNext(s, i, k)[b] <==>
              || s.fb[k].err[b] || (ExtArb(s, i, k) && i.pmpErr && ExtOff(s.c, s.fb[k]) == b)
              || (RvdArb(s, i, k) && i.err && RvdOff(s.c, s.fb[k]) == b)
  {
    hide ExtArb, RvdArb, ExtOff, RvdOff;
  }

  lemma FlagOkStep(m: Memory, s: Regs, w: World, i: Inputs, k: nat, b: nat)
    requires Inv(m, s, w) && FlagInv(s) && Legal(m, s, w.bus, i) && k < |s.fb| && s.fb[k].busy && b < s.c.beats
    requires BufferOk(s.c, BufferNext(s, i, k))
    ensures FlagOk(s.c, BufferNext(s, i, k), b)
  {
    var f, g := s.fb[k], BufferNext(s, i, k);
    InvBuffer(m, s, w, k);
    FillNext(s, i, k);
    BusyCounters(s, w.order, w.bus, i, k);
    FlagNext(s, i, k, b);
    if ExtArb(s, i, k) {
      DeniedIsNext(m, s, w, i, k);
    }
    if RvdArb(s, i, k) {
      ReceivedIsNext(m, s, w, i, k);
    }
    if i.rvalid {
      ResponseReachesOwner(s, w.order, w.bus, i, k);
    }
    assert FlagOk(s.c, f, b);
    if f.err[b] && Turn(s.c, f, b) >= f.rvdCnt {
      DeniedStops(m, s, w, i, k, b);
    }
    hide Inv, FlagInv, Legal, Shape, BufferNext, ErrNext, DataNext, ExtArb, RvdArb, HitIc1, RvdOff, BusInv;
    TurnIsInjective(s.c, f, b, ExtOff(s.c, f));
    hide ExtOff;
  }

  lemma TurnIsInjective(c: Config, f: Buffer, a: nat, b: nat)
    requires a < c.beats && b < c.beats
    ensures Turn(c, f, a) == Turn(c, f, b) ==> a == b
  {
  }

  lemma StepBuffersOk(m: Memory, s: Regs, w: World, i: Inputs)
    requires Inv(m, s, w) && Legal(m, s, w.bus, i) && Shape(Step(s, i))
    ensures Ready(s, i)
    ensures var t := Step(s, i);
            && |t.fb| == |s.fb| && t.c == s.c && t.fillIn < |t.fb|
            && forall k :: 0 <= k < |s.fb| ==> t.fb[k] == BufferNext(s, i, k) && BufferOk(s.c, t.fb[k])
  {
    BuffersStep(s, i);
    hide Step, BufferNext, Inv, BufferOk;
  }

  lemma FlagInvStep(m: Memory, s: Regs, w: World, i: Inputs)
    requires Inv(m, s, w) && FlagInv(s) && Legal(m, s, w.bus, i) && Shape(Step(s, i))
    ensures FlagInv(Step(s, i))
  {
    var t := Step(s, i);
    hide *;
    StepBuffersOk(m, s, w, i);
    LookupRegsNext(s, i);
    forall k, b | 0 <= k < |t.fb| && t.fb[k].busy && 0 <= b < t.c.beats ensures FlagOk(t.c, t.fb[k], b) {
      BufferFlagStep(m, s, w, i, k, b);
    }
    if t.lookupValid {
      AllocIsLowestFree(s, i, t.fillIn);
      NewIsUnflagged(s, i, t.fillIn);
    }
    FlagInvIntro(t);
  }

  lemma LookupRegsNext(s: Regs, i: Inputs)
    requires Ready(s, i)
    ensures Step(s, i).lookupValid ==> Lookup(s, i) && Step(s, i).fillIn == LowestFree(s, 0)
  {
    hide LowestFree;
  }

  lemma FlagInvIntro(s: Regs)
    requires Shape(s)
    requires forall k, b :: 0 <= k < |s.fb| && s.fb[k].busy && 0 <= b < s.c.beats ==> FlagOk(s.c, s.fb[k], b)
    requires s.lookupValid ==> s.fb[s.fillIn].busy && forall b :: 0 <= b < s.c.beats ==> !s.fb[s.fillIn].err[b]
    ensures FlagInv(s)
  {
  }

  lemma BufferFlagStep(m: Memory, s: Regs, w: World, i: Inputs, k: nat, b: nat)
    requires Inv(m, s, w) && FlagInv(s) && Legal(m, s, w.bus, i) && k < |s.fb| && b < s.c.beats
    requires BufferOk(s.c, BufferNext(s, i, k)) && BufferNext(s, i, k).busy
    ensures FlagOk(s.c, BufferNext(s, i, k), b)
  {
    OlderNext(s, i, k);
    if s.fb[k].busy {
      FlagOkStep(m, s, w, i, k, b);
    } else {
      NewIsUnflagged(s, i, k);
    }
    hide Inv, FlagInv, Legal, BufferNext, Done, Alloc;
  }

  lemma NewIsUnflagged(s: Regs, i: Inputs, k: nat)
    requires Ready(s, i) && k < |s.fb| && Alloc(s, i, k)
    ensures BufferNext(s, i, k).busy && BufferNext(s, i, k).err == seq(s.c.beats, b => false)
  {
    OlderNext(s, i, k);
    assert BufferNext(s, i, k).err == ErrNext(s, i, k) && !s.fb[k].busy && !ExtArb(s, i, k) && !RvdArb(s, i, k);
    hide BufferNext, Alloc, Shape, ExtArb, RvdArb;
  }

  // ------------------------------------------------------------------ stability

  /** Without a branch the buffer at the head of the stream stays there while nothing is taken. */
  lemma HeadStays(s: Regs, w: World, i: Inputs, k: nat)
    requires Ready(s, i) && Shape(Step(s, i)) && Age(s, w.order) && !i.branch && k < |s.fb|
    requires Outputs(s, k) && DataSel(s, k) && !Taken(s, i, k)
    ensures k < |Step(s, i).fb| && Outputs(Step(s, i), k) && DataSel(Step(s, i), k)
  {
    var t := Step(s, i);
    BuffersStep(s, i);
    OutputsNext(s, i, k);
    OlderNext(s, i, k);
    AgeIsTotalOrder(s, w.order, k, k);
    assert !Alloc(s, i, k);
    forall j | 0 <= j < |t.fb| && j in t.fb[k].older ensures !Outputs(t, j) {
      assert j in s.fb[k].older && j in BusySet(s) && j !in DoneSet(s, i);
      OutputsNext(s, i, j);
    }
    hide Step, BufferNext, Shape, Age, Alloc, Outputs, Taken;
  }

  /** What a buffer has to put out it still has in the next cycle. */
  lemma DataStays(s: Regs, w: World, i: Inputs, k: nat, next: Inputs)
    requires BusInv(s, w.order, w.bus) && Ready(s, i) && LegalBus(w.bus, i) && k < |s.fb| && s.fb[k].busy
    requires Shape(Step(s, i)) && k < |Step(s, i).fb| && Outputs(Step(s, i), k)
    requires OutReq(s, i, k) && NotAhead(s.fb[k]) && Step(s, i).fb[k].outCnt == s.fb[k].outCnt
    ensures OutReq(Step(s, i), next, k)
  {
    var t := Step(s, i);
    BuffersStep(s, i);
    FillNext(s, i, k);
    BusyCounters(s, w.order, w.bus, i, k);
    assert BufferOk(s.c, s.fb[k]) && BufferOk(s.c, t.fb[k]) && s.fb[k].extCnt <= s.c.beats;
    if i.rvalid {
      ResponseReachesOwner(s, w.order, w.bus, i, k);
    }
    var n := s.fb[k].outCnt;
    assert n < s.c.beats && (s.fb[k].err[n] ==> ErrNext(s, i, k)[n]);
    hide Step, BufferNext, Shape, BusInv, ErrNext, DataNext, RvdArb, HitIc1, Done;
  }

  lemma ValidDataStays(m: Memory, s: Regs, w: World, o: OutRegs, x: CoreInputs, y: CoreInputs)
    requires DeliveryInv(m, s, w, o, true) && OutReady(s, o, x) && Legal(m, s, w.bus, x.i)
    requires DataValid(s, x.i) && !x.ready && !x.i.branch && Shape(CacheStep(s, o, x))
    ensures DataValid(CacheStep(s, o, x), y.i)
  {
    var i, t := FillInputs(o, x), CacheStep(s, o, x);
    var k :| 0 <= k < |s.fb| && OutArb(s, x.i, k);
    HeadIsWanted(m, s, w, o, x, k);
    FillInputsAgree(s, o, x, k);
    assert Age(s, w.order) && LegalBus(w.bus, i) && BusInv(s, w.order, w.bus);
    assert OutArb(s, i, k) && !Taken(s, i, k);
    HeadStays(s, w, i, k);
    OutputsNext(s, i, k);
    DataStays(s, w, i, k, y.i);
    assert OutArb(t, y.i, k);
  }

  /** Without readiness and branch the output registers do not move. */
  lemma RegistersStay(s: Regs, o: OutRegs, x: CoreInputs)
    requires OutReady(s, o, x) && !x.ready && !x.i.branch
    ensures OutNext(s, o, x) == o
  {
    hide OutputErr, OutputData, DataValid;
  }

  /** An error that arrives for a beat that is already there: the wanted beat of a buffer that hits is
      answered with an error, or denied in a request still held. */
  predicate Spoils(s: Regs, i: Inputs, k: nat)
    requires Shape(s) && k < |s.fb|
  {
    var f := s.fb[k];
    && (HitIc1(s, k) || f.hit)
    && ((RvdArb(s, i, k) && i.err && RvdOff(s.c, f) == f.outCnt)
        || (ExtArb(s, i, k) && i.pmpErr && ExtOff(s.c, f) == f.outCnt))
  }

  ghost predicate HeadSpoiled(s: Regs, i: Inputs)
    requires Shape(s)
  {
    exists k :: 0 <= k < |s.fb| && OutArb(s, i, k) && Spoils(s, i, k)
  }

  /** A lookup in IC1 is never that of a buffer in use before. */
  lemma NoLateHit(s: Regs, i: Inputs, k: nat)
    requires Ready(s, i) && Shape(Step(s, i)) && k < |s.fb| && s.fb[k].busy
    ensures !HitIc1(Step(s, i), k)
  {
    AllocIsLowestFree(s, i, k);
    LookupRegsNext(s, i);
    hide Step, Lookup, LowestFree;
  }

  /** The flag of the wanted beat, against what is put out now. */
  lemma FlagAgainstOutput(m: Memory, s: Regs, w: World, o: OutRegs, x: CoreInputs, k: nat)
    requires Inv(m, s, w) && LookupOutputs(s) && FlagInv(s) && Legal(m, s, w.bus, x.i) && OutReady(s, o, x)
    requires k < |s.fb| && OutArb(s, x.i, k) && NotAhead(s.fb[k]) && s.fb[k].outCnt == MuxBeat(s, o)
    ensures s.fb[k].outCnt < s.c.beats
    ensures ErrNext(s, x.i, k)[s.fb[k].outCnt] <==> OutputErr(s, o, x) || Spoils(s, x.i, k)
  {
    var f, n := s.fb[k], s.fb[k].outCnt;
    assert f.busy && n < s.c.beats;
    InvBuffer(m, s, w, k);
    RvdBeatForm(m, s, w, k);
    HeadSource(m, s, w, x.i, k);
    FlagNext(s, x.i, k, n);
    assert FlagOk(s.c, f, n) && Turn(s.c, f, n) == n - f.addr.beat;
    assert HitIc1(s, k) ==> !f.err[n];
    if ExtArb(s, x.i, k) {
      DeniedIsNext(m, s, w, x.i, k);
    }
    if RvdArb(s, x.i, k) {
      ReceivedIsNext(m, s, w, x.i, k);
    }
    assert f.hit || HitIc1(s, k) || f.err[n] || f.addr.beat + f.rvdCnt > n || RvdArb(s, x.i, k);
    hide Inv, FlagInv, Legal, Shape, ErrNext, ExtArb, RvdArb, HitIc1, BusInv, LookupOutputs, RegPick, OutArb;
    assert RvdOff(s.c, f) == n && RvdArb(s, x.i, k) ==> RvdBeat(s.c, f) == n;
  }

  /** The head of the stream takes nothing from the bus in the next cycle: what it has is in it. */
  lemma NoBypassNext(m: Memory, s: Regs, w: World, i: Inputs, k: nat, next: Inputs)
    requires Inv(m, s, w) && FlagInv(s) && Legal(m, s, w.bus, i) && k < |s.fb| && OutReq(s, i, k) && NotAhead(s.fb[k])
    requires Shape(Step(s, i)) && k < |Step(s, i).fb| && Outputs(Step(s, i), k)
    requires Step(s, i).fb[k].outCnt == s.fb[k].outCnt && LegalBus(WorldStep(s, w, i).bus, next)
    ensures !DataRvd(Step(s, i), next, k)
  {
    var t, v, f, n := Step(s, i), WorldStep(s, w, i), s.fb[k], s.fb[k].outCnt;
    InvStep(m, s, w, i);
    FlagInvStep(m, s, w, i);
    BuffersStep(s, i);
    assert f.busy && n < s.c.beats && t.fb[k].busy && FlagOk(t.c, t.fb[k], n);
    FillNext(s, i, k);
    BusyCounters(s, w.order, w.bus, i, k);
    RvdBeatForm(m, s, w, k);
    RvdBeatForm(m, t, v, k);
    FlagNext(s, i, k, n);
    assert Turn(t.c, t.fb[k], n) == n - f.addr.beat;
    if i.rvalid {
      ResponseReachesOwner(s, w.order, w.bus, i, k);
    }
    assert f.hit || HitIc1(s, k) || f.err[n] || f.addr.beat + f.rvdCnt > n || RvdArb(s, i, k);
    hide Inv, FlagInv, Legal, Step, WorldStep, Shape, BufferNext, ErrNext, DataNext, RvdArb, ExtArb, HitIc1, BusInv,
         DataSel, OutReq;
    if DataRvd(t, next, k) {
      ReceivedIsNext(m, t, v, next, k);
      assert false;
    }
  }

  /** What is put out in the next cycle, while nothing is taken. */
  lemma OutputErrNext(m: Memory, s: Regs, w: World, o: OutRegs, x: CoreInputs, y: CoreInputs)
    requires DeliveryInv(m, s, w, o, true) && FlagInv(s) && OutReady(s, o, x) && Legal(m, s, w.bus, x.i)
    requires DataValid(s, x.i) && !x.ready && !x.i.branch
    requires OutReady(CacheStep(s, o, x), o, y)
        && Legal(m, CacheStep(s, o, x), WorldStep(s, w, FillInputs(o, x)).bus, y.i)
    requires DeliveryInv(m, CacheStep(s, o, x), WorldStep(s, w, FillInputs(o, x)), o, true)
    ensures OutputErr(CacheStep(s, o, x), o, y) <==> OutputErr(s, o, x) || HeadSpoiled(s, x.i)
  {
    var i, t, v := FillInputs(o, x), CacheStep(s, o, x), WorldStep(s, w, FillInputs(o, x));
    var k :| 0 <= k < |s.fb| && OutArb(s, x.i, k);
    HeadIsWanted(m, s, w, o, x, k);
    FlagAgainstOutput(m, s, w, o, x, k);
    OnlyHeadSpoils(s, w.order, x.i, k);
    HeadNext(m, s, w, o, x, y, k);
    HeadIsWanted(m, t, v, o, y, k);
    HeadSource(m, t, v, y.i, k);
    hide DeliveryInv, FlagInv, Legal, Step, WorldStep, OutArb, Spoils, HeadSpoiled, DataRvd, ErrNext, AnyDataHit,
         AnyDataRvd, RegPick;
  }

  lemma OnlyHeadSpoils(s: Regs, order: seq<nat>, i: Inputs, k: nat)
    requires Shape(s) && Age(s, order) && k < |s.fb| && OutArb(s, i, k)
    ensures HeadSpoiled(s, i) <==> Spoils(s, i, k)
  {
    if HeadSpoiled(s, i) {
      var j :| 0 <= j < |s.fb| && OutArb(s, i, j) && Spoils(s, i, j);
      OneHead(s, order, j, k);
    }
  }

  /** The head of the stream in the next cycle. */
  lemma HeadNext(m: Memory, s: Regs, w: World, o: OutRegs, x: CoreInputs, y: CoreInputs, k: nat)
    requires DeliveryInv(m, s, w, o, true) && FlagInv(s) && OutReady(s, o, x) && Legal(m, s, w.bus, x.i)
    requires k < |s.fb| && OutArb(s, x.i, k) && NotAhead(s.fb[k]) && !x.ready && !x.i.branch
    requires OutReady(CacheStep(s, o, x), o, y) && LegalBus(WorldStep(s, w, FillInputs(o, x)).bus, y.i)
    ensures var t := CacheStep(s, o, x);
            && k < |t.fb| && OutArb(t, y.i, k) && t.fb[k].err == ErrNext(s, x.i, k) && t.fb[k].outCnt == s.fb[k].outCnt
            && !DataRvd(t, y.i, k) && !HitIc1(t, k)
  {
    var i, t := FillInputs(o, x), CacheStep(s, o, x);
    FillInputsAgree(s, o, x, k);
    LegalAgrees(m, s, w, o, x);
    assert Inv(m, s, w) && BusInv(s, w.order, w.bus) && LegalBus(w.bus, i) && s.fb[k].busy;
    HeadStays(s, w, i, k);
    OutputsNext(s, i, k);
    DataStays(s, w, i, k, y.i);
    NoBypassNext(m, s, w, i, k, y.i);
    NoLateHit(s, i, k);
    FillNext(s, i, k);
    BuffersStep(s, i);
    SameFlags(s, o, x, k);
    hide DeliveryInv, Inv, BusInv, FlagInv, Legal, Step, WorldStep, BufferNext, ErrNext, DataNext, Shape, DataRvd,
         HitIc1, Outputs;
  }

  /** The flags do not depend on the core's readiness. */
  lemma SameFlags(s: Regs, o: OutRegs, x: CoreInputs, k: nat)
    requires OutReady(s, o, x) && k < |s.fb|
    ensures ErrNext(s, FillInputs(o, x), k) == ErrNext(s, x.i, k)
  {
    var i := FillInputs(o, x);
    FillInputsAgree(s, o, x, k);
    assert forall j :: 0 <= j < |s.fb| ==> ExtReq(s, i, j) == ExtReq(s, x.i, j);
    hide ExtReq, RvdArb, Shape;
    assert ExtArb(s, i, k) == ExtArb(s, x.i, k);
    hide ExtArb;
    forall b | 0 <= b < s.c.beats ensures ErrNext(s, i, k)[b] == ErrNext(s, x.i, k)[b] {
    }
  }

  /** Where both cycles put out memory's beat the instruction stays valid. */
  lemma StaysValid(m: Memory, s: Regs, t: Regs, o: OutRegs, x: CoreInputs, y: CoreInputs)
    requires OutReady(s, o, x) && OutReady(t, o, y) && t.c == s.c && ValidO(s, o, x)
    requires DataValid(s, x.i) ==> DataValid(t, y.i) && (OutputErr(s, o, x) ==> OutputErr(t, o, y))
    requires PutsOut(m, s, o, x, Wanted(s.c, o)) && PutsOut(m, t, o, y, Wanted(s.c, o))
    ensures ValidO(t, o, y)
  {
    hide OutputErr, OutputData, DataValid, NextBeat, Lo, Hi, Compressed, Shape;
  }

  /** The output as the core sees it, without what is unspecified when there is an error. */
  ghost predicate SameInstruction(s: Regs, o: OutRegs, x: CoreInputs, t: Regs, to: OutRegs, y: CoreInputs)
    requires OutReady(s, o, x) && OutReady(t, to, y)
  {
    && to.addr == o.addr && to.upper == o.upper && ErrPlus2(to) == ErrPlus2(o)
    && (!ErrO(t, to, y) ==>
          RDataLo(t, to, y) == RDataLo(s, o, x)
            && (!Compressed(RDataLo(s, o, x)) ==> RDataHi(t, to, y) == RDataHi(s, o, x)))
  }

  lemma ValidStays(m: Memory, n: Snapshot, x: CoreInputs, y: CoreInputs)
    requires HandshakeInv(m, n) && n.running && OutReady(n.s, n.o, x) && Legal(m, n.s, n.w.bus, x.i)
    requires ValidO(n.s, n.o, x) && !x.ready && !x.i.branch
    requires OutReady(CacheStep(n.s, n.o, x), n.o, y)
    requires Legal(m, CacheStep(n.s, n.o, x), WorldStep(n.s, n.w, FillInputs(n.o, x)).bus, y.i)
    ensures var t, o := CacheStep(n.s, n.o, x), n.o;
            && OutNext(n.s, o, x) == o && ValidO(t, o, y) && SameInstruction(n.s, o, x, t, o, y)
            && (ErrO(t, o, y) <==> ErrO(n.s, o, x) || (!SkidComplete(o) && HeadSpoiled(n.s, x.i)))
  {
    var s, w, o := n.s, n.w, n.o;
    var t, v := CacheStep(s, o, x), WorldStep(s, w, FillInputs(o, x));
    RegistersStay(s, o, x);
    HandshakeStep(m, n, x);
    SameConfig(s, FillInputs(o, x));
    PutsOutWanted(m, s, w, o, x);
    PutsOutWanted(m, t, v, o, y);
    if DataValid(s, x.i) {
      ValidDataStays(m, s, w, o, x, y);
      OutputErrNext(m, s, w, o, x, y);
    } else {
      assert !HeadSpoiled(s, x.i);
    }
    StaysValid(m, s, t, o, x, y);
    assert SkidOk(m, o);
    hide HandshakeInv, DeliveryInv, Legal, Step, WorldStep, OutNext, DataValid, OutputErr, OutputData, Shape,
         RunningNext, Compressed, HeadSpoiled, RDataLo, RDataHi, HalfAt, NextHalf;
    if !ErrO(t, o, y) {
      DeliversMemory(m, s, o, x);
      DeliversMemory(m, t, o, y);
    }
  }

  /** In every run from reset, with any errors: an instruction of a followed stream that is valid and
      not taken stays valid in the next cycle, unless a branch cancels it, at the same address and with
      the same bits. Its error stays; and one is added exactly if one arrives for the wanted beat of a
      buffer that hits. */
  lemma OutputIsStable(m: Memory, s: Regs, o: OutRegs, run: seq<CoreInputs>, t: Snapshot, x: CoreInputs, y: CoreInputs)
    requires Reached(m, s, o, run, t) && t.running && OutReady(t.s, t.o, x) && Legal(m, t.s, t.w.bus, x.i)
    requires ValidO(t.s, t.o, x) && !x.ready && !x.i.branch
    requires OutReady(CacheStep(t.s, t.o, x), OutNext(t.s, t.o, x), y)
    requires Legal(m, CacheStep(t.s, t.o, x), WorldStep(t.s, t.w, FillInputs(t.o, x)).bus, y.i)
    ensures var u, to := CacheStep(t.s, t.o, x), OutNext(t.s, t.o, x);
            && ValidO(u, to, y) && SameInstruction(t.s, t.o, x, u, to, y)
            && (ErrO(u, to, y) <==> ErrO(t.s, t.o, x) || (!SkidComplete(t.o) && HeadSpoiled(t.s, x.i)))
  {
    ReachedHolds(m, s, o, run, t);
    RegistersStay(t.s, t.o, x);
    hide HandshakeInv, Legal, Step, WorldStep, OutNext, SameInstruction, Shape, HeadSpoiled;
    ValidStays(m, t, x, y);
  }

  // ------------------------------------------------------------------ no deadlock

  /** A buffer that still has something to do other than wait for the core. */
  lemma HeadMakesRequest(m: Memory, s: Regs, w: World, i: Inputs, k: nat)
    requires Inv(m, s, w) && k < |s.fb| && Outputs(s, k) && NotAhead(s.fb[k]) && !OutReq(s, i, k) && !i.branch
    ensures w.bus != [] || InstrReq(s, i)
  {
    var f := s.fb[k];
    InvBuffer(m, s, w, k);
    RvdBeatForm(m, s, w, k);
    assert f.outCnt == f.addr.beat + f.rvdCnt && f.outCnt < s.c.beats;
    if f.rvdCnt < f.extCnt {
      OwedIsOnBus(s, w.order, w.bus, k);
    } else {
      assert ExtOff(s.c, f) == f.outCnt && !f.err[f.outCnt];
      assert ExtReq(s, i, k);
    }
  }

  lemma OwedIsOnBus(s: Regs, order: seq<nat>, bus: seq<Fetch>, k: nat)
    requires BusInv(s, order, bus) && k < |s.fb| && s.fb[k].busy && s.fb[k].rvdCnt < s.fb[k].extCnt
    ensures bus != []
  {
    assert OnBus(bus, k, s.fb[k].rvdCnt);
  }

  /** A busy buffer that has nothing to put out waits for the bus or for the RAMs, hits, or leaves. */
  lemma IdleBufferMoves(m: Memory, s: Regs, w: World, i: Inputs, k: nat)
    requires Inv(m, s, w) && k < |s.fb| && s.fb[k].busy && !Outputs(s, k) && !i.branch
    ensures w.bus != [] || InstrReq(s, i) || RamReq(s, k) || HitIc1(s, k) || Done(s, i, k)
  {
    var f := s.fb[k];
    InvBuffer(m, s, w, k);
    if f.rvdCnt < f.extCnt {
      OwedIsOnBus(s, w.order, w.bus, k);
    } else if !ExtDone(s, i, k) {
      assert ExtReq(s, i, k);
    } else {
      assert RvdDone(s, i, k) && (f.err[ExtOff(s.c, f)] ==> AnyErr(f));
    }
  }

  lemma {:induction false} SomeBusy(s: Regs, n: nat)
    requires n <= |s.fb| && FillLevel(s, n) > 0
    ensures exists k :: 0 <= k < n && s.fb[k].busy && !s.fb[k].stale
  {
    if !(s.fb[n - 1].busy && !s.fb[n - 1].stale) {
      SomeBusy(s, n - 1);
    }
  }

  /** A cycle in which the cache itself moves: it looks up, writes a line, sweeps, hits or frees a
      buffer. */
  ghost predicate MovesOn(s: Regs, i: Inputs)
    requires Shape(s)
  {
    || Lookup(s, i) || FillGrant(s, i) || s.invalProg
    || exists k :: 0 <= k < |s.fb| && s.fb[k].busy && (HitIc1(s, k) || Done(s, i, k))
  }

  /** The oldest buffer with data to output. */
  lemma HeadOf(s: Regs, order: seq<nat>, k: nat) returns (h: nat)
    requires Shape(s) && Age(s, order) && k < |s.fb| && Outputs(s, k)
    ensures h < |s.fb| && Outputs(s, h) && DataSel(s, h)
  {
    var among := set j | 0 <= j < |s.fb| && Outputs(s, j);
    assert k in among && among <= BusySet(s);
    h := OldestOf(s, order, among, 0);
    forall j | 0 <= j < |s.fb| && j in s.fb[h].older ensures !Outputs(s, j) {
      assert j !in s.fb[h].older * among;
    }
  }

  lemma SomethingMoves(m: Memory, s: Regs, w: World, o: OutRegs, x: CoreInputs)
    requires DeliveryInv(m, s, w, o, true) && OutReady(s, o, x) && x.i.req && !x.i.branch
    ensures DataValid(s, x.i) || InstrReq(s, x.i) || w.bus != [] || MovesOn(s, x.i)
  {
    if k :| 0 <= k < |s.fb| && Outputs(s, k) {
      var h := HeadOf(s, w.order, k);
      if !OutReq(s, x.i, h) {
        HeadMakesRequest(m, s, w, x.i, h);
      } else {
        assert OutArb(s, x.i, h);
      }
    } else if !Lookup(s, x.i) {
      if !AllBusy(s) {
        SomeBusy(s, s.c.buffers);
      }
      var k :| 0 <= k < |s.fb| && s.fb[k].busy;
      IdleBufferMoves(m, s, w, x.i, k);
    }
  }

  /** No deadlock, in any run from reset: while a stream is followed and fetching is enabled the cache
      has data for the core, asks the bus for some, waits for an answer, or moves by itself. */
  lemma NeverStuck(m: Memory, s: Regs, o: OutRegs, run: seq<CoreInputs>, t: Snapshot, x: CoreInputs)
    requires Reached(m, s, o, run, t) && t.running && OutReady(t.s, t.o, x) && x.i.req && !x.i.branch
    ensures DataValid(t.s, x.i) || InstrReq(t.s, x.i) || t.w.bus != [] || MovesOn(t.s, x.i)
  {
    ReachedHolds(m, s, o, run, t);
    assert DeliveryInv(m, t.s, t.w, t.o, true);
    SomethingMoves(m, t.s, t.w, t.o, x);
    hide DataValid, InstrReq, MovesOn, Shape;
  }

  // ------------------------------------------------------------------ bounded waiting

  /** The bus requests and responses a buffer can still see before the core takes a beat: its own, and
      those of the line it may be given next. */
  function Budget(s: Regs, k: nat): int
    requires Shape(s) && k < |s.fb|
  {
    var f := s.fb[k];
    if !f.busy then 2 * s.c.beats
    else 2 * s.c.beats - f.extCnt - f.rvdCnt + if Outputs(s, k) then 0 else 2 * s.c.beats
  }

  predicate GrantedTo(s: Regs, i: Inputs, k: nat)
    requires Shape(s) && k < |s.fb|
  {
    (ExtArb(s, i, k) || (Alloc(s, i, k) && Spec(s, i))) && GntNotPmpErr(i)
  }

  predicate AnsweredTo(s: Regs, bus: seq<Fetch>, i: Inputs, k: nat) { i.rvalid && bus != [] && bus[0].owner == k }

  function Bit(b: bool): nat { if b then 1 else 0 }

  /** One buffer over a cycle in which the core takes nothing. */
  lemma BudgetFalls(s: Regs, w: World, i: Inputs, k: nat)
    requires BusInv(s, w.order, w.bus) && Ready(s, i) && LegalBus(w.bus, i) && Shape(Step(s, i)) && !i.branch
    requires k < |s.fb| && k < |Step(s, i).fb| && !Taken(s, i, k)
    ensures Step(s, i).c == s.c
    ensures Budget(Step(s, i), k) <= Budget(s, k) - Bit(GrantedTo(s, i, k)) - Bit(AnsweredTo(s, w.bus, i, k))
  {
    BuffersStep(s, i);
    OlderNext(s, i, k);
    AllocIsLowestFree(s, i, k);
    if s.fb[k].busy {
      BusyBudgetFalls(s, w, i, k);
    } else {
      FreeBudgetFalls(s, w, i, k);
    }
  }

  lemma BusyBudgetFalls(s: Regs, w: World, i: Inputs, k: nat)
    requires BusInv(s, w.order, w.bus) && Ready(s, i) && LegalBus(w.bus, i) && Shape(Step(s, i)) && !i.branch
    requires k < |s.fb| && k < |Step(s, i).fb| && s.fb[k].busy && !Taken(s, i, k)
    ensures Step(s, i).c == s.c
    ensures Budget(Step(s, i), k) <= Budget(s, k) - Bit(GrantedTo(s, i, k)) - Bit(AnsweredTo(s, w.bus, i, k))
  {
    var t := Step(s, i);
    BuffersStep(s, i);
    BusyCounters(s, w.order, w.bus, i, k);
    OutputsNext(s, i, k);
    OlderNext(s, i, k);
    assert !Alloc(s, i, k);
    assert s.fb[k].extCnt <= s.c.beats && (k in DoneSet(s, i) <==> Done(s, i, k));
    assert Outputs(s, k) ==> s.fb[k].busy;
    hide Step, BufferNext, Shape, BusInv, Alloc, ExtArb, Done, DoneSet, Taken, Outputs, Spec;
  }

  lemma FreeBudgetFalls(s: Regs, w: World, i: Inputs, k: nat)
    requires BusInv(s, w.order, w.bus) && Ready(s, i) && LegalBus(w.bus, i) && Shape(Step(s, i))
    requires k < |s.fb| && k < |Step(s, i).fb| && !s.fb[k].busy
    ensures Step(s, i).c == s.c
    ensures Budget(Step(s, i), k) <= Budget(s, k) - Bit(GrantedTo(s, i, k)) - Bit(AnsweredTo(s, w.bus, i, k))
  {
    BuffersStep(s, i);
    OlderNext(s, i, k);
    AllocIsLowestFree(s, i, k);
    assert w.bus != [] ==> Owed(s, w.bus[0]);
    assert !ExtArb(s, i, k);
    if Alloc(s, i, k) {
      CountersNext(s, i, k);
      LookupNext(s, i);
    }
    hide Step, BufferNext, Shape, BusInv, Alloc, ExtArb, Done, Outputs, Spec, LowestFree, Lookup;
  }

  function TotalBudget(s: Regs, n: nat): int
    requires Shape(s) && n <= |s.fb|
  {
    if n == 0 then 0 else TotalBudget(s, n - 1) + Budget(s, n - 1)
  }

  /** Grants and responses that go to the first `n` buffers. */
  function EventsTo(s: Regs, bus: seq<Fetch>, i: Inputs, n: nat): nat
    requires Shape(s) && n <= |s.fb|
  {
    if n == 0 then 0 else EventsTo(s, bus, i, n - 1) + Bit(GrantedTo(s, i, n - 1)) + Bit(AnsweredTo(s, bus, i, n - 1))
  }

  lemma {:induction false} TotalBudgetFalls(s: Regs, w: World, i: Inputs, n: nat)
    requires BusInv(s, w.order, w.bus) && Ready(s, i) && LegalBus(w.bus, i) && Shape(Step(s, i)) && !i.branch
    requires n <= |s.fb| && |Step(s, i).fb| == |s.fb| && !AnyTaken(s, i)
    ensures TotalBudget(Step(s, i), n) <= TotalBudget(s, n) - EventsTo(s, w.bus, i, n)
  {
    hide Step, Shape, BusInv, Budget, GrantedTo, AnsweredTo, Taken;
    if n > 0 {
      assert !Taken(s, i, n - 1);
      BudgetFalls(s, w, i, n - 1);
      TotalBudgetFalls(s, w, i, n - 1);
    }
  }

  lemma {:induction false} EventsCounted(s: Regs, bus: seq<Fetch>, i: Inputs, n: nat, g: nat, r: nat)
    requires Shape(s) && n <= |s.fb|
    ensures EventsTo(s, bus, i, n) >= Bit(g < n && GrantedTo(s, i, g)) + Bit(r < n && AnsweredTo(s, bus, i, r))
  {
    hide Shape, GrantedTo, AnsweredTo;
    if n > 0 {
      EventsCounted(s, bus, i, n - 1, g, r);
    }
  }

  /** Grants and responses of one cycle. */
  function BusEvents(s: Regs, i: Inputs): nat
    requires Shape(s)
  {
    Bit(Grants(s, i)) + Bit(i.rvalid)
  }

  /** Each of them goes to some buffer. */
  lemma EveryEventCounts(s: Regs, w: World, i: Inputs)
    requires BusInv(s, w.order, w.bus) && Ready(s, i) && LegalBus(w.bus, i)
    ensures BusEvents(s, i) <= EventsTo(s, w.bus, i, |s.fb|)
  {
    var r := if i.rvalid then w.bus[0].owner else 0;
    assert i.rvalid ==> Owed(s, w.bus[0]);
    var g := 0;
    if Grants(s, i) {
      if AnyExtReq(s, i) {
        IssuedByBuffer(s, w.order, w.bus, i);
        g := ExtPick(s, i, 0);
      } else {
        IssuedByLookup(s, i);
        g := LowestFree(s, 0);
        assert Spec(s, i);
      }
      assert g < |s.fb| && GrantedTo(s, i, g);
    }
    EventsCounted(s, w.bus, i, |s.fb|, g, r);
    hide BusInv, Shape, GrantedTo, EventsTo;
  }

  lemma {:induction false} TotalBudgetBounds(s: Regs, w: World, n: nat)
    requires BusInv(s, w.order, w.bus) && n <= |s.fb|
    ensures 0 <= TotalBudget(s, n) <= 4 * s.c.beats * n
  {
    if n > 0 {
      assert s.fb[n - 1].busy ==> s.fb[n - 1].rvdCnt <= s.fb[n - 1].extCnt <= s.c.beats;
      assert 0 <= Budget(s, n - 1) <= 4 * s.c.beats;
      hide BusInv, Budget, Shape;
      TotalBudgetBounds(s, w, n - 1);
      assert 4 * s.c.beats * n == 4 * s.c.beats * (n - 1) + 4 * s.c.beats;
    }
  }

  /** Cycles without a branch in which there is no data for the core. */
  ghost predicate Waiting(m: Memory, s: Regs, w: World, run: seq<Inputs>)
    decreases |run|
  {
    run == [] ||
    (Legal(m, s, w.bus, run[0]) && !run[0].branch && !DataValid(s, run[0])
     && Waiting(m, Step(s, run[0]), WorldStep(s, w, run[0]), run[1..]))
  }

  ghost function RunBusEvents(s: Regs, run: seq<Inputs>): nat
    decreases |run|
  {
    if run == [] || !Ready(s, run[0]) then 0 else BusEvents(s, run[0]) + RunBusEvents(Step(s, run[0]), run[1..])
  }

  lemma {:induction false} BudgetFallsOverRun(m: Memory, s: Regs, w: World, run: seq<Inputs>)
    requires Inv(m, s, w) && Waiting(m, s, w, run)
    ensures RunBusEvents(s, run) <= TotalBudget(s, |s.fb|)
    decreases |run|
  {
    assert BusInv(s, w.order, w.bus);
    TotalBudgetBounds(s, w, |s.fb|);
    if run != [] {
      var i := run[0];
      InvStep(m, s, w, i);
      BudgetFallsOverRun(m, Step(s, i), WorldStep(s, w, i), run[1..]);
      NothingTakenYet(s, i);
      BuffersStep(s, i);
      ShapeStep(s, i);
      TotalBudgetFalls(s, w, i, |s.fb|);
      EveryEventCounts(s, w, i);
      hide Step, Inv, BusInv, Shape, TotalBudget, EventsTo, BusEvents, WorldStep, Legal, DataValid;
    }
  }

  lemma NothingTakenYet(s: Regs, i: Inputs)
    requires Shape(s) && !DataValid(s, i)
    ensures !AnyTaken(s, i)
  {
    hide OutArb, Shape;
  }

  /** However slow the bus: from reset, whatever has happened, a stretch without a branch and without
      data for the core sees at most four grants or responses per beat the buffers hold. With
      `NeverStuck`: the wait ends unless the bus, or sweeps asked for again and again, never do; in
      cycles it is bounded by `ICacheProgress.DataComesInTime`. */
  lemma WaitIsBounded(m: Memory, s: Regs, past: seq<Inputs>, run: seq<Inputs>)
    requires IsReset(s) && LegalRun(m, s, NOTHING, past)
    requires Waiting(m, RunState(s, past), RunWorld(s, NOTHING, past), run)
    ensures RunBusEvents(RunState(s, past), run) <= 4 * RunState(s, past).c.beats * RunState(s, past).c.buffers
  {
    InvReset(m, s);
    InvRun(m, s, NOTHING, past);
    var t, v := RunState(s, past), RunWorld(s, NOTHING, past);
    assert BusInv(t, v.order, v.bus) && |t.fb| == t.c.buffers;
    BudgetFallsOverRun(m, t, v, run);
    TotalBudgetBounds(t, v, |t.fb|);
  }
}
