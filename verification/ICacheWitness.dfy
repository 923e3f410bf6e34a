/** A run of the instruction cache in which an error is added to an instruction already offered. */
module ICacheWitness {
  import opened ICache
  import opened ICacheProofs
  import opened ICacheData
  import opened ICacheOutput
  import opened ICacheDelivery
  import opened ICacheHandshake

  // ------------------------------------------------------------------ the states of the run

  /** Two buffers, one way, one line of two beats. */
  const SMALL := Config(2, 1, 1, 2, 1, false, false)
  const START := Addr(LineAddr(0, 0), 0)
  const OUT := OutRegs(false, 0, false, START, false)

  function Buf(busy: bool, stale: bool, cache: bool, hit: bool, ext: nat, rvd: nat, ramDone: bool): Buffer {
    Buffer(busy, {}, stale, cache, hit, ext, false, rvd, ramDone, 0, START, 0, [0, 0], [false, false])
  }

  const FREE := Buf(false, false, false, false, 0, 0, false)

  function State(b0: Buffer, b1: Buffer, tag: Tag, tagRead: Tag, lookupValid: bool, fillIn: nat, cacheCnt: nat,
                 resetInval: bool, invalProg: bool): Regs {
    Regs(SMALL, [b0, b1], [[tag]], [[[0, 0]]], [tagRead], [[0, 0]], lookupValid, 0, fillIn, 0, START, cacheCnt,
         resetInval, invalProg, 0)
  }

  const NONE := Tag(false, 0)
  const HELD := Tag(true, 0)

  const S0 := State(FREE, FREE, NONE, NONE, false, 0, 0, false, false)
  const S1 := State(FREE, FREE, NONE, NONE, false, 0, 0, true, true)
  const S2 := State(FREE, FREE, NONE, NONE, false, 0, 0, true, false)
  const S3 := State(Buf(true, false, true, false, 1, 0, false), FREE, NONE, NONE, true, 0, 2, true, false)
  const S4 := State(Buf(true, false, true, false, 2, 1, false), FREE, NONE, NONE, false, 0, 2, true, false)
  const S5 := State(Buf(true, false, true, false, 2, 2, false), FREE, NONE, NONE, false, 0, 2, true, false)
  const S6 := State(Buf(true, false, true, false, 2, 2, true), FREE, HELD, NONE, false, 0, 2, true, false)
  const S7 := State(Buf(false, true, true, false, 2, 2, true), Buf(true, false, true, false, 1, 0, false), HELD, HELD,
                    true, 1, 2, true, false)
  const S8 := State(Buf(false, true, true, false, 2, 2, true), Buf(true, false, true, true, 1, 0, false), HELD, HELD,
                    false, 1, 2, true, false)

  /** The core never takes anything. */
  function Cycle(branch: bool, gnt: bool, rvalid: bool, err: bool): CoreInputs {
    CoreInputs(Inputs(branch, branch, START, false, gnt, 0, err, false, rvalid, true, false), false, false)
  }

  /** A step is made of its parts. */
  lemma Assemble(s: Regs, i: Inputs, t: Regs)
    requires Ready(s, i) && s.c == t.c == SMALL && |t.fb| == 2
    requires BufferNext(s, i, 0) == t.fb[0] && BufferNext(s, i, 1) == t.fb[1]
    requires TagsNext(s, i) == t.tags && LinesNext(s, i) == t.lines
    requires TagReadNext(s, i) == t.tagRead && LineReadNext(s, i) == t.lineRead
    requires t.lookupValid == LookupActual(s, i)
        && t.lookupTag == (if Lookup(s, i) then LookupAddr(s, i).line.tag else s.lookupTag)
    requires t.fillIn == FillInNext(s, i) && t.roundRobin == RoundRobinNext(s) && t.prefetch == PrefetchNext(s, i)
    requires t.cacheCnt == CacheCntNext(s, i) && t.resetInval && t.invalProg == InvalProgNext(s, i)
    requires t.invalIndex == InvalIndexNext(s, i)
    ensures Step(s, i) == t
  {
    hide BufferNext, TagsNext, LinesNext, TagReadNext, LineReadNext, Lookup, LookupActual, FillInNext;
    assert BuffersNext(s, i) == t.fb;
  }

  /** A buffer that is not in use and gets no line stays as it is. */
  lemma FreeStays(s: Regs, i: Inputs, k: nat)
    requires Ready(s, i) && k < |s.fb| && !s.fb[k].busy && !Alloc(s, i, k) && (s.lookupValid ==> s.fillIn != k)
    ensures BufferNext(s, i, k) == s.fb[k]
  {
    assert !RvdArb(s, i, k) && !HitIc1(s, k);
    hide Alloc, Shape, RvdArb, HitIc1;
  }

  /** Without a request nothing is looked up or allocated. */
  lemma Unasked(s: Regs, i: Inputs)
    requires Ready(s, i) && !i.req
    ensures !Lookup(s, i) && !LookupActual(s, i) && forall k :: 0 <= k < |s.fb| ==> !Alloc(s, i, k)
    ensures TagReadNext(s, i) == s.tagRead && LineReadNext(s, i) == s.lineRead && FillInNext(s, i) == s.fillIn
  {
  }

  /** Nothing is written while no buffer has a complete line. */
  lemma Unwritten(s: Regs, i: Inputs)
    requires Ready(s, i) && !s.invalProg && forall k :: 0 <= k < |s.fb| ==> !RamReq(s, k)
    ensures TagsNext(s, i) == s.tags && LinesNext(s, i) == s.lines
    ensures forall k :: 0 <= k < |s.fb| ==> !RamArb(s, i, k)
  {
    hide RamReq;
  }

  lemma Step01()
    ensures Step(S0, Cycle(false, false, false, false).i) == S1
  {
    var i := Cycle(false, false, false, false).i;
    Unasked(S0, i);
    Unwritten(S0, i);
    FreeStays(S0, i, 0);
    FreeStays(S0, i, 1);
    Assemble(S0, i, S1);
  }

  lemma Step12()
    ensures Step(S1, Cycle(false, false, false, false).i) == S2
  {
    var i := Cycle(false, false, false, false).i;
    Unasked(S1, i);
    FreeStays(S1, i, 0);
    FreeStays(S1, i, 1);
    assert !AnyRamReq(S1);
    assert TagsNext(S1, i) == [[NONE]] by {
      assert TagsNext(S1, i)[0] == [NONE];
    }
    Assemble(S1, i, S2);
  }

  lemma FirstAllocation()
    ensures BufferNext(S2, Cycle(true, true, false, false).i, 0) == S3.fb[0]
  {
    var i := Cycle(true, true, false, false).i;
    assert AllocSel(S2, 0) && !AllBusy(S2) && Lookup(S2, i) && Alloc(S2, i, 0);
    assert !AnyExtReq(S2, i) && Spec(S2, i) && BusySet(S2) == {} && !HitIc1(S2, 0);
    assert !ExtArb(S2, i, 0) && !RvdArb(S2, i, 0) && !RamArb(S2, i, 0) && !OutArb(S2, i, 0);
    hide Alloc, Lookup, ExtArb, RvdArb, RamArb, OutArb, HitIc1, Done, DoneSet, BusySet, Spec, Shape;
    assert ErrNext(S2, i, 0) == [false, false];
  }

  lemma FirstLookup()
    ensures var i := Cycle(true, true, false, false).i;
            && Lookup(S2, i) && LowestFree(S2, 0) == 0 && !Alloc(S2, i, 1)
            && TagReadNext(S2, i) == [NONE] && LineReadNext(S2, i) == [[0, 0]]
  {
    var i := Cycle(true, true, false, false).i;
    assert AllocSel(S2, 0) && !AllBusy(S2) && Lookup(S2, i) && Reads(S2, i) && LookupAddr(S2, i) == START;
    assert LowestFree(S2, 0) == 0;
    hide Throttle, AllBusy, Lookup, Reads;
    assert TagReadNext(S2, i)[0] == NONE && LineReadNext(S2, i)[0] == [0, 0];
  }

  lemma Step23()
    ensures Step(S2, Cycle(true, true, false, false).i) == S3
  {
    var i := Cycle(true, true, false, false).i;
    Unwritten(S2, i);
    FirstAllocation();
    FirstLookup();
    FreeStays(S2, i, 1);
    hide BufferNext, Lookup, LowestFree, Alloc, TagsNext, LinesNext, TagReadNext, LineReadNext, HitIc1;
    Assemble(S2, i, S3);
  }

  /** A buffer in use in a cycle without branch, error and hit. */
  lemma UsedNext(s: Regs, i: Inputs, k: nat)
    requires Ready(s, i) && k < |s.fb| && s.fb[k].busy && !i.branch && !i.err && !i.pmpErr && !i.outputReady
        && i.rdata == 0
    requires !HitIc1(s, k) && !Done(s, i, k) && s.fb[k].older == {} && s.fb[k].data == [0, 0] && s.c == SMALL
    ensures var f := s.fb[k];
            BufferNext(s, i, k) == f.(extCnt := IncIf(s.c, f.extCnt, ExtArb(s, i, k) && i.gnt),
                                      extHold := ExtArb(s, i, k) && !i.gnt,
                                      rvdCnt := IncIf(s.c, f.rvdCnt, RvdArb(s, i, k)),
                                      ramDone := RamArb(s, i, k) || f.ramDone,
                                      way := if s.lookupValid && s.fillIn == k then SelWay(s) else f.way)
  {
    assert !Alloc(s, i, k);
    hide Alloc, Lookup, ExtArb, RvdArb, RamArb, OutArb, HitIc1, Done, DoneSet, BusySet, Spec, SelWay;
    var f := s.fb[k];
    assert |f.err| == 2 && f.data[0] == f.data[1] == 0;
    assert ErrNext(s, i, k) == f.err;
    assert DataNext(s, i, k) == f.data;
  }

  lemma Step34()
    ensures Step(S3, Cycle(false, true, true, false).i) == S4
  {
    var i := Cycle(false, true, true, false).i;
    Unasked(S3, i);
    Unwritten(S3, i);
    FreeStays(S3, i, 1);
    assert !TagMatch(S3, 0) && !HitIc1(S3, 0) && LowestInvalid(S3, 0) == 0;
    assert ExtReq(S3, i, 0) && ExtArb(S3, i, 0) && RvdExp(S3, i, 0) && RvdArb(S3, i, 0) && !Done(S3, i, 0);
    UsedNext(S3, i, 0);
    hide BufferNext, ExtArb, RvdArb, Done;
    Assemble(S3, i, S4);
  }

  lemma Step45()
    ensures Step(S4, Cycle(false, false, true, false).i) == S5
  {
    var i := Cycle(false, false, true, false).i;
    Unasked(S4, i);
    Unwritten(S4, i);
    FreeStays(S4, i, 1);
    assert !ExtReq(S4, i, 0) && RvdExp(S4, i, 0) && RvdArb(S4, i, 0) && !Done(S4, i, 0);
    UsedNext(S4, i, 0);
    hide BufferNext, ExtArb, RvdArb, Done;
    Assemble(S4, i, S5);
  }

  lemma LineWritten()
    ensures var i := Cycle(false, false, false, false).i;
            RamArb(S5, i, 0) && TagsNext(S5, i) == [[HELD]] && LinesNext(S5, i) == [[[0, 0]]]
  {
    var i := Cycle(false, false, false, false).i;
    Unasked(S5, i);
    assert RamReq(S5, 0) && AnyRamReq(S5) && FillGrant(S5, i) && RamArb(S5, i, 0);
    assert RamPick(S5, i, 0) == 0;
    assert TagsNext(S5, i)[0] == [HELD] && LinesNext(S5, i)[0] == [[0, 0]];
  }

  lemma Step56()
    ensures Step(S5, Cycle(false, false, false, false).i) == S6
  {
    var i := Cycle(false, false, false, false).i;
    Unasked(S5, i);
    LineWritten();
    FreeStays(S5, i, 1);
    assert !Done(S5, i, 0) && !ExtReq(S5, i, 0) && !HitIc1(S5, 0) && !RvdArb(S5, i, 0);
    UsedNext(S5, i, 0);
    hide BufferNext, ExtArb, RvdArb, Done, RamArb, AnyRamReq, TagsNext, LinesNext;
    Assemble(S5, i, S6);
  }

  lemma SecondAllocation()
    ensures BufferNext(S6, Cycle(true, true, false, false).i, 0) == S7.fb[0]
    ensures BufferNext(S6, Cycle(true, true, false, false).i, 1) == S7.fb[1]
  {
    var i := Cycle(true, true, false, false).i;
    assert AllocSel(S6, 1) && !AllBusy(S6) && Lookup(S6, i) && Alloc(S6, i, 1) && !Alloc(S6, i, 0);
    assert !ExtReq(S6, i, 0) && !ExtReq(S6, i, 1) && !AnyExtReq(S6, i) && Spec(S6, i);
    assert Done(S6, i, 0) && BusySet(S6) - DoneSet(S6, i) == {};
    assert !HitIc1(S6, 0) && !HitIc1(S6, 1) && !RamReq(S6, 0) && !RamArb(S6, i, 0) && !RamArb(S6, i, 1);
    assert !ExtArb(S6, i, 0) && !ExtArb(S6, i, 1) && !RvdArb(S6, i, 0) && !RvdArb(S6, i, 1);
    hide Alloc, Lookup, ExtArb, RvdArb, RamArb, OutArb, HitIc1, Done, DoneSet, BusySet, Spec, Shape;
    assert ErrNext(S6, i, 0) == [false, false] && ErrNext(S6, i, 1) == [false, false];
  }

  lemma Step67()
    ensures Step(S6, Cycle(true, true, false, false).i) == S7
  {
    var i := Cycle(true, true, false, false).i;
    assert !RamReq(S6, 0) && !RamReq(S6, 1);
    Unwritten(S6, i);
    SecondAllocation();
    assert !AllBusy(S6) && LowestFree(S6, 1) == 1 && LowestFree(S6, 0) == 1 && Lookup(S6, i);
    hide BufferNext, AllBusy, Throttle;
    assert TagReadNext(S6, i) == [HELD] && LineReadNext(S6, i) == [[0, 0]];
    Assemble(S6, i, S7);
  }

  lemma HitNext()
    ensures BufferNext(S7, Cycle(false, false, false, false).i, 1) == S8.fb[1] && HitIc1(S7, 1)
  {
    var i := Cycle(false, false, false, false).i;
    assert TagMatch(S7, 0) && HitIc1(S7, 1);
    assert HitData(S7, 1) == [0, 0] by {
      OrIdentities([0, 0]);
      assert HitData(S7, 0) == Zeros(2) == [0, 0];
    }
    assert LowestInvalid(S7, 1) == 1 && LowestInvalid(S7, 0) == 1 && SelWay(S7) == 0;
    assert !Alloc(S7, i, 1) && !ExtReq(S7, i, 1) && !ExtArb(S7, i, 1) && !RvdArb(S7, i, 1) && !RamArb(S7, i, 1)
        && !Done(S7, i, 1);
    hide Alloc, Lookup, ExtArb, RvdArb, RamArb, OutArb, HitIc1, Done, DoneSet, BusySet, Spec, Shape, HitData, SelWay;
    assert ErrNext(S7, i, 1) == [false, false];
  }

  lemma Step78()
    ensures Step(S7, Cycle(false, false, false, false).i) == S8
  {
    var i := Cycle(false, false, false, false).i;
    Unasked(S7, i);
    Unwritten(S7, i);
    FreeStays(S7, i, 0);
    HitNext();
    hide BufferNext, HitIc1;
    Assemble(S7, i, S8);
  }

  // ------------------------------------------------------------------ the run

  /** One more cycle of a run. */
  function Then(n: Snapshot, x: CoreInputs): Snapshot
    requires OutReady(n.s, n.o, x)
  {
    Snapshot(CacheStep(n.s, n.o, x), WorldStep(n.s, n.w, FillInputs(n.o, x)), OutNext(n.s, n.o, x),
             RunningNext(n.s, n.o, x, n.running))
  }

  lemma {:induction false} AfterMore(m: Memory, n: Snapshot, run: seq<CoreInputs>, x: CoreInputs)
    requires LegalDelivery(m, n.s, n.w, n.o, run)
    requires var t := After(n, run); OutReady(t.s, t.o, x) && Legal(m, t.s, t.w.bus, x.i)
    ensures After(n, run + [x]) == Then(After(n, run), x) && LegalDelivery(m, n.s, n.w, n.o, run + [x])
    decreases |run|
  {
    hide Legal, Step, WorldStep, OutNext, RunningNext;
    if run == [] {
      assert run + [x] == [x] && [x][1..] == [];
      assert After(Then(n, x), []) == Then(n, x);
    } else {
      var next := Then(n, run[0]);
      assert (run + [x])[1..] == run[1..] + [x] && (run + [x])[0] == run[0];
      AfterMore(m, next, run[1..], x);
    }
  }

  const ZEROS: Memory := (a: LineAddr, b: nat) => 0

  /** The state of the cache after a run, with a stream followed or not; the core takes nothing. */
  ghost predicate At(run: seq<CoreInputs>, t: Snapshot, s: Regs, running: bool) {
    Reached(ZEROS, S0, OUT, run, t) && t.s == s && t.o == OUT && t.running == running
  }

  lemma Goes(run: seq<CoreInputs>, t: Snapshot, s: Regs, running: bool, branch: bool, gnt: bool, rvalid: bool,
             next: Regs)
      returns (more: seq<CoreInputs>, u: Snapshot)
    requires At(run, t, s, running) && Shape(s) && s.c == SMALL && Step(s, Cycle(branch, gnt, rvalid, false).i) == next
    requires !s.resetInval ==> !branch
    requires rvalid ==> exists k :: 0 <= k < |s.fb| && s.fb[k].busy && s.fb[k].rvdCnt < s.fb[k].extCnt
    ensures At(more, u, next, running || branch)
  {
    var x := Cycle(branch, gnt, rvalid, false);
    assert FillInputs(OUT, x) == x.i && OutReady(s, OUT, x);
    OutStays(s, x);
    CycleIsLegal(run, t, s, running, branch, gnt, rvalid);
    hide Step, Legal, WorldStep, OutNext, Shape, RunningNext;
    AfterMore(ZEROS, Snapshot(S0, NOTHING, OUT, false), run, x);
    more, u := run + [x], Then(t, x);
  }

  lemma BusAt(run: seq<CoreInputs>, t: Snapshot, s: Regs, running: bool)
    requires At(run, t, s, running)
    ensures BusInv(s, t.w.order, t.w.bus)
  {
    hide BusInv, Reached;
    ReachedHolds(ZEROS, S0, OUT, run, t);
  }

  lemma CycleIsLegal(run: seq<CoreInputs>, t: Snapshot, s: Regs, running: bool, branch: bool, gnt: bool, rvalid: bool)
    requires At(run, t, s, running) && Shape(s) && s.c == SMALL && (!s.resetInval ==> !branch)
    requires rvalid ==> exists k :: 0 <= k < |s.fb| && s.fb[k].busy && s.fb[k].rvdCnt < s.fb[k].extCnt
    ensures Legal(ZEROS, s, t.w.bus, Cycle(branch, gnt, rvalid, false).i)
  {
    hide At, BusInv, Shape, Reached, AllBusy, Throttle;
    BusAt(run, t, s, running);
    if rvalid {
      var k :| 0 <= k < |s.fb| && s.fb[k].busy && s.fb[k].rvdCnt < s.fb[k].extCnt;
      OwedIsOnBus(s, t.w.order, t.w.bus, k);
    }
  }

  /** The output registers stay where a branch to the same address puts them. */
  lemma OutStays(s: Regs, x: CoreInputs)
    requires OutReady(s, OUT, x) && !x.ready && (x.i.branch ==> x.i.addr == START && !x.targetUpper)
    ensures OutNext(s, OUT, x) == OUT
    ensures forall running :: RunningNext(s, OUT, x, running) == (x.i.branch || running)
  {
    hide OutputErr, OutputData, DataValid;
  }

  /** The hit is offered without an error in the cycle in which its speculative request is answered
      with one. */
  lemma HitIsSpoiled(x: CoreInputs)
    requires x == Cycle(false, false, true, true)
    ensures OutReady(S8, OUT, x) && ValidO(S8, OUT, x) && !ErrO(S8, OUT, x) && HeadSpoiled(S8, x.i)
  {
    var i := x.i;
    assert OutReq(S8, i, 1) && DataSel(S8, 1) && OutArb(S8, i, 1);
    assert RvdExp(S8, i, 1) && !RvdExp(S8, i, 0) && RvdArb(S8, i, 1) && Spoils(S8, i, 1);
    assert !DataRvd(S8, i, 0) && !DataRvd(S8, i, 1) && !DataHit(S8, 0) && !DataHit(S8, 1);
    assert !DataReg(S8, 0) && DataReg(S8, 1) && RegPick(S8, 1) == 1 && RegPick(S8, 0) == 1;
    hide OutArb, RvdArb, DataRvd, DataHit, DataReg, Shape, Spoils;
    assert DataValid(S8, i) && !AnyDataRvd(S8, i) && !AnyDataHit(S8);
    assert !OutputErr(S8, OUT, x);
  }

  lemma StateShape(b0: Buffer, b1: Buffer, tag: Tag, tagRead: Tag, lookupValid: bool, fillIn: nat, cacheCnt: nat,
                   resetInval: bool, invalProg: bool)
    requires BufferOk(SMALL, b0) && BufferOk(SMALL, b1) && fillIn < 2
    ensures Shape(State(b0, b1, tag, tagRead, lookupValid, fillIn, cacheCnt, resetInval, invalProg))
  {
  }

  lemma Shapes()
    ensures Shape(S0) && Shape(S1) && Shape(S2) && Shape(S3) && Shape(S4)
    ensures Shape(S5) && Shape(S6) && Shape(S7) && Shape(S8)
  {
    hide Shape, State;
    StateShape(FREE, FREE, NONE, NONE, false, 0, 0, false, false);
    StateShape(FREE, FREE, NONE, NONE, false, 0, 0, true, true);
    StateShape(FREE, FREE, NONE, NONE, false, 0, 0, true, false);
    StateShape(Buf(true, false, true, false, 1, 0, false), FREE, NONE, NONE, true, 0, 2, true, false);
    StateShape(Buf(true, false, true, false, 2, 1, false), FREE, NONE, NONE, false, 0, 2, true, false);
    StateShape(Buf(true, false, true, false, 2, 2, false), FREE, NONE, NONE, false, 0, 2, true, false);
    StateShape(Buf(true, false, true, false, 2, 2, true), FREE, HELD, NONE, false, 0, 2, true, false);
    StateShape(Buf(false, true, true, false, 2, 2, true), Buf(true, false, true, false, 1, 0, false), HELD, HELD, true,
               1, 2, true, false);
    StateShape(Buf(false, true, true, false, 2, 2, true), Buf(true, false, true, true, 1, 0, false), HELD, HELD, false,
               1, 2, true, false);
  }

  /** A line is fetched and written, then hit. */
  lemma RunToHit() returns (run: seq<CoreInputs>, t: Snapshot)
    ensures At(run, t, S8, true)
  {
    run, t := [], Snapshot(S0, NOTHING, OUT, false);
    assert At(run, t, S0, false);
    assert S3.fb[0].busy && S3.fb[0].rvdCnt < S3.fb[0].extCnt && S4.fb[0].busy && S4.fb[0].rvdCnt < S4.fb[0].extCnt;
    Shapes();
    hide Shape, Step, At, Cycle;
    Step01();
    run, t := Goes(run, t, S0, false, false, false, false, S1);
    Step12();
    run, t := Goes(run, t, S1, false, false, false, false, S2);
    Step23();
    run, t := Goes(run, t, S2, false, true, true, false, S3);
    Step34();
    run, t := Goes(run, t, S3, true, false, true, true, S4);
    Step45();
    run, t := Goes(run, t, S4, true, false, false, true, S5);
    Step56();
    run, t := Goes(run, t, S5, true, false, false, false, S6);
    Step67();
    run, t := Goes(run, t, S6, true, true, true, false, S7);
    Step78();
    run, t := Goes(run, t, S7, true, false, false, false, S8);
  }

  lemma ErrorRises(run: seq<CoreInputs>, t: Snapshot)
    requires At(run, t, S8, true)
    ensures exists x: CoreInputs, y: CoreInputs ::
              && OutReady(t.s, t.o, x) && Legal(ZEROS, t.s, t.w.bus, x.i)
              && ValidO(t.s, t.o, x) && !ErrO(t.s, t.o, x) && !x.ready && !x.i.branch
              && OutReady(CacheStep(t.s, t.o, x), OutNext(t.s, t.o, x), y) && !y.i.branch
              && Legal(ZEROS, CacheStep(t.s, t.o, x), WorldStep(t.s, t.w, FillInputs(t.o, x)).bus, y.i)
              && ErrO(CacheStep(t.s, t.o, x), OutNext(t.s, t.o, x), y)
  {
    var x, y := Cycle(false, false, true, true), Cycle(false, false, false, false);
    HitIsSpoiled(x);
    ReachedHolds(ZEROS, S0, OUT, run, t);
    assert S8.fb[1].busy && BusInv(S8, t.w.order, t.w.bus);
    OwedIsOnBus(S8, t.w.order, t.w.bus, 1);
    assert FillInputs(OUT, x) == x.i && Legal(ZEROS, S8, t.w.bus, x.i);
    OutStays(S8, x);
    ShapeStep(S8, x.i);
    var u := CacheStep(S8, OUT, x);
    assert u.resetInval && u.c == SMALL && OutReady(u, OUT, y);
    assert Legal(ZEROS, u, WorldStep(S8, t.w, x.i).bus, y.i);
    hide Step, WorldStep, OutNext, HandshakeInv, Shape, ValidO, ErrO, HeadSpoiled, Legal;
    OutputIsStable(ZEROS, S0, OUT, run, t, x, y);
  }

  /** So the documented handshake fails: after some run from reset an instruction offered without an
      error carries one in the next cycle, with nothing taken and no branch. */
  lemma ErrorMayRise()
    ensures exists m: Memory, s: Regs, o: OutRegs, run: seq<CoreInputs>, t: Snapshot, x: CoreInputs, y: CoreInputs ::
              && Reached(m, s, o, run, t) && t.running && OutReady(t.s, t.o, x) && Legal(m, t.s, t.w.bus, x.i)
              && ValidO(t.s, t.o, x) && !ErrO(t.s, t.o, x) && !x.ready && !x.i.branch
              && OutReady(CacheStep(t.s, t.o, x), OutNext(t.s, t.o, x), y) && !y.i.branch
              && Legal(m, CacheStep(t.s, t.o, x), WorldStep(t.s, t.w, FillInputs(t.o, x)).bus, y.i)
              && ErrO(CacheStep(t.s, t.o, x), OutNext(t.s, t.o, x), y)
  {
    var run, t := RunToHit();
    assert Reached(ZEROS, S0, OUT, run, t) && t.running;
    hide *;
    ErrorRises(run, t);
  }
}
