/** The instruction cache delivers exactly the instructions memory holds from the last branch target
    on, up to the first one it reports an error for. */
module ICacheDelivery {
  import opened ICache
  import opened ICacheProofs
  import opened ICacheData
  import opened ICacheOutput
  import opened Bits

  // ------------------------------------------------------------------ the stream of beats

  /** Buffers in age order that still have data to output hold consecutive lines from `at` on, each
      but the first from its start; after them comes `end`. */
  predicate Chain(s: Regs, order: seq<nat>, at: Addr, end: Addr)
    requires Shape(s)
    decreases |order|
  {
    if order == [] then at == end
    else
      var k := order[0];
      k < |s.fb| &&
      if Outputs(s, k)
      then s.fb[k].addr.line == at.line && s.fb[k].outCnt == at.beat
           && Chain(s, order[1..], Addr(NextLine(s.c, at.line), 0), end)
      else Chain(s, order[1..], at, end)
  }

  /** The next beat the output stage takes. */
  function Wanted(c: Config, o: OutRegs): Addr { if o.skidValid then NextBeat(c, o.addr) else o.addr }

  /** A buffer never outputs ahead of its data. */
  predicate NotAhead(f: Buffer) { f.outCnt >= f.addr.beat && (f.hit || f.outCnt <= f.addr.beat + f.rvdCnt) }

  ghost predicate NoneAhead(s: Regs)
    requires Shape(s)
  {
    forall k :: 0 <= k < |s.fb| && Outputs(s, k) ==> NotAhead(s.fb[k])
  }

  /** A lookup in IC1 belongs to a buffer that still has all its data to output. */
  predicate LookupOutputs(s: Regs)
    requires Shape(s)
  {
    s.lookupValid ==> Outputs(s, s.fillIn)
  }

  /** The skid buffer holds the upper half of the beat at the output address. */
  predicate SkidOk(m: Memory, o: OutRegs) {
    o.skidValid ==> o.upper && !o.skidErr && o.skidData == Hi(m(o.addr.line, o.addr.beat))
  }

  ghost predicate Streaming(m: Memory, s: Regs, w: World, o: OutRegs)
    requires Shape(s)
  {
    Chain(s, w.order, Wanted(s.c, o), s.prefetch) && NoneAhead(s) && SkidOk(m, o)
  }

  ghost predicate DeliveryInv(m: Memory, s: Regs, w: World, o: OutRegs, running: bool) {
    && Inv(m, s, w) && AddrOk(s.c, o.addr) && LookupOutputs(s)
    && (running ==> Streaming(m, s, w, o))
  }

  // ------------------------------------------------------------------ the buffer that outputs

  lemma {:induction false} ChainHead(s: Regs, order: seq<nat>, n: nat, at: Addr, end: Addr, p: nat)
    requires Shape(s) && n <= p < |order| && order[p] < |s.fb| && Outputs(s, order[p])
    requires Chain(s, order[n..], at, end)
    requires forall q :: n <= q < p ==> order[q] < |s.fb| && !Outputs(s, order[q])
    ensures s.fb[order[p]].addr.line == at.line && s.fb[order[p]].outCnt == at.beat
    decreases p - n
  {
    hide Outputs, Shape;
    assert order[n..][0] == order[n] && order[n..][1..] == order[n + 1..];
    if n < p {
      ChainHead(s, order, n + 1, at, end, p);
    }
  }

  /** The buffer granted the output is at the head of the stream. */
  lemma OutputIsWanted(s: Regs, order: seq<nat>, i: Inputs, at: Addr, end: Addr, k: nat)
    requires Shape(s) && Age(s, order) && Chain(s, order, at, end) && k < |s.fb| && Outputs(s, k) && DataSel(s, k)
    ensures s.fb[k].addr.line == at.line && s.fb[k].outCnt == at.beat
    ensures exists p :: 0 <= p < |order| && order[p] == k && forall q :: 0 <= q < p ==> !Outputs(s, order[q])
  {
    assert k in BusySet(s);
    var p :| 0 <= p < |order| && order[p] == k;
    forall q | 0 <= q < p ensures !Outputs(s, order[q]) {
      assert order[..p][q] == order[q];
      assert order[q] in Prior(order, p);
    }
    assert order[0..] == order;
    hide Outputs, Chain, Shape;
    ChainHead(s, order, 0, at, end, p);
  }

  /** At most one buffer has data to output and nothing older before it. */
  lemma OneHead(s: Regs, order: seq<nat>, j: nat, k: nat)
    requires Shape(s) && Age(s, order) && j < |s.fb| && k < |s.fb|
    requires Outputs(s, j) && DataSel(s, j) && Outputs(s, k) && DataSel(s, k)
    ensures j == k
  {
    if j != k {
      AgeIsTotalOrder(s, order, j, k);
    }
  }

  // ------------------------------------------------------------------ the data put out

  /** Incoming data is bypassed only to the buffer at the head of the stream. */
  lemma BypassedIsMemory(m: Memory, s: Regs, w: World, i: Inputs, k: nat)
    requires Inv(m, s, w) && Legal(m, s, w.bus, i) && k < |s.fb| && DataRvd(s, i, k) && !i.err
    ensures s.fb[k].outCnt < s.c.beats && i.rdata == m(s.fb[k].addr.line, s.fb[k].outCnt)
  {
    ResponseReachesOwner(s, w.order, w.bus, i, k);
  }

  /** A buffer's own data, where it is ahead of the output. */
  lemma BufferedIsMemory(m: Memory, s: Regs, w: World, k: nat)
    requires Inv(m, s, w) && k < |s.fb| && Outputs(s, k) && NotAhead(s.fb[k])
    requires var f := s.fb[k]; (f.hit || RvdBeat(s.c, f) > f.outCnt) && !f.err[f.outCnt]
    ensures s.fb[k].data[s.fb[k].outCnt] == m(s.fb[k].addr.line, s.fb[k].outCnt)
  {
    var f := s.fb[k];
    assert BufferOk(s.c, f) && DataOk(m, s.c, f);
    assert Received(s.c, f, f.outCnt);
  }

  /** Beats behind the incoming one have no wrap-around. */
  lemma RvdBeatForm(m: Memory, s: Regs, w: World, k: nat)
    requires Inv(m, s, w) && k < |s.fb| && s.fb[k].busy
    ensures RvdBeat(s.c, s.fb[k]) == s.fb[k].addr.beat + s.fb[k].rvdCnt
  {
    assert BufferOk(s.c, s.fb[k]) && s.fb[k].rvdCnt <= s.fb[k].extCnt <= s.c.beats;
  }

  /** Which of the three sources the head of the stream is put out from. */
  lemma HeadSource(m: Memory, s: Regs, w: World, i: Inputs, k: nat)
    requires Inv(m, s, w) && LookupOutputs(s) && k < |s.fb| && OutArb(s, i, k) && NotAhead(s.fb[k])
    ensures AnyDataRvd(s, i) <==> DataRvd(s, i, k)
    ensures AnyDataHit(s) <==> HitIc1(s, k)
    ensures !AnyDataRvd(s, i) && !AnyDataHit(s) ==> RegPick(s, 0) == k
    ensures !AnyDataRvd(s, i) && !AnyDataHit(s) ==>
              s.fb[k].hit || RvdBeat(s.c, s.fb[k]) > s.fb[k].outCnt || s.fb[k].err[s.fb[k].outCnt]
  {
    RvdBeatForm(m, s, w, k);
    forall j | 0 <= j < |s.fb| && DataRvd(s, i, j) ensures j == k {
      OneHead(s, w.order, j, k);
    }
    forall j | 0 <= j < |s.fb| && DataHit(s, j) ensures j == k {
      assert Outputs(s, s.fillIn);
      OneHead(s, w.order, j, k);
    }
    assert HitIc1(s, k) ==> DataHit(s, k);
    if !AnyDataRvd(s, i) && !AnyDataHit(s) {
      assert !DataRvd(s, i, k) && !DataHit(s, k);
      assert BufferOk(s.c, s.fb[k]);
      assert s.fb[k].err[Low(s.c, s.fb[k].outCnt)] ==> AnyErr(s.fb[k]);
      assert DataReg(s, k);
      var r := RegPick(s, 0);
      assert r < |s.fb| && DataReg(s, r);
      OneHead(s, w.order, r, k);
    }
  }

  /** Unless an error is flagged, the beat put out is memory's at the head of the stream. */
  lemma HeadIsMemory(m: Memory, s: Regs, w: World, o: OutRegs, x: CoreInputs, k: nat)
    requires Inv(m, s, w) && LookupOutputs(s) && Legal(m, s, w.bus, x.i) && OutReady(s, o, x)
    requires k < |s.fb| && OutArb(s, x.i, k) && NotAhead(s.fb[k]) && s.fb[k].outCnt == MuxBeat(s, o)
    ensures !OutputErr(s, o, x) ==> OutputData(s, o, x) == m(s.fb[k].addr.line, s.fb[k].outCnt)
    ensures !AnyDataRvd(s, x.i) && !AnyDataHit(s) && s.fb[k].err[s.fb[k].outCnt] ==> OutputErr(s, o, x)
  {
    HeadSource(m, s, w, x.i, k);
    if AnyDataRvd(s, x.i) {
      if !x.i.err {
        BypassedIsMemory(m, s, w, x.i, k);
      }
    } else if AnyDataHit(s) {
      HitReturnsMemory(m, s, k);
    } else if !s.fb[k].err[s.fb[k].outCnt] {
      BufferedIsMemory(m, s, w, k);
    }
  }

  // ------------------------------------------------------------------ the output stage

  /** A beat of data is taken from the buffers. */
  predicate Takes(s: Regs, o: OutRegs, x: CoreInputs)
    requires Shape(s)
  {
    DataValid(s, x.i) && OutputReady(o, x.ready)
  }

  /** What is put out, if no error is flagged, is memory's beat `at`. */
  predicate PutsOut(m: Memory, s: Regs, o: OutRegs, x: CoreInputs, at: Addr)
    requires OutReady(s, o, x)
  {
    DataValid(s, x.i) && !OutputErr(s, o, x) ==> OutputData(s, o, x) == m(at.line, at.beat)
  }

  /** An error taken from the buffers is at once part of an instruction that reports it. */
  lemma ErrorIsReported(s: Regs, o: OutRegs, x: CoreInputs)
    requires OutReady(s, o, x) && Takes(s, o, x) && OutputErr(s, o, x)
    ensures Accepts(s, o, x) && ErrO(s, o, x)
  {
    hide OutputErr, OutputData, DataValid;
  }

  /** Without a branch and without an error accepted, the stage moves on by exactly the beats it
      takes, and the skid buffer keeps the half it still needs. */
  lemma StageMoves(m: Memory, s: Regs, o: OutRegs, x: CoreInputs)
    requires OutReady(s, o, x) && SkidOk(m, o) && !x.i.branch && !(Accepts(s, o, x) && ErrO(s, o, x))
    requires PutsOut(m, s, o, x, Wanted(s.c, o))
    ensures Wanted(s.c, OutNext(s, o, x)) == if Takes(s, o, x) then NextBeat(s.c, Wanted(s.c, o)) else Wanted(s.c, o)
    ensures SkidOk(m, OutNext(s, o, x))
  {
    if Takes(s, o, x) && OutputErr(s, o, x) {
      ErrorIsReported(s, o, x);
    }
    hide OutputErr, OutputData, DataValid, NextBeat, Lo, Hi, Compressed, Shape;
  }

  /** The halfword memory holds at a halfword address. */
  function HalfAt(m: Memory, at: Addr, upper: bool): Half {
    if upper then Hi(m(at.line, at.beat)) else Lo(m(at.line, at.beat))
  }

  /** A valid instruction without an error is the one memory holds at the output address. */
  lemma DeliversMemory(m: Memory, s: Regs, o: OutRegs, x: CoreInputs)
    requires OutReady(s, o, x) && SkidOk(m, o) && ValidO(s, o, x) && !ErrO(s, o, x)
    requires PutsOut(m, s, o, x, Wanted(s.c, o))
    ensures RDataLo(s, o, x) == HalfAt(m, o.addr, o.upper)
    ensures !Compressed(RDataLo(s, o, x)) ==>
              var next := NextHalf(s.c, o.addr, o.upper); RDataHi(s, o, x) == HalfAt(m, next.0, next.1)
  {
    hide OutputErr, OutputData, DataValid, NextBeat, Lo, Hi, Compressed, Shape;
  }

  // ------------------------------------------------------------------ the stream moves

  /** What a busy buffer's place in the stream becomes. */
  lemma PlaceNext(s: Regs, i: Inputs, k: nat)
    requires Ready(s, i) && k < |s.fb| && (Alloc(s, i, k) || s.fb[k].busy)
    ensures var f, g := s.fb[k], BufferNext(s, i, k);
            if Alloc(s, i, k)
            then g.outCnt == LookupAddr(s, i).beat && !g.stale && g.addr == LookupAddr(s, i)
            else && g.outCnt == IncIf(s.c, f.outCnt, OutArb(s, i, k) && i.outputReady)
                 && g.stale == (i.branch || f.stale) && g.addr == f.addr
  {
    assert Alloc(s, i, k) ==> !s.fb[k].busy;
    hide Alloc, ExtArb, RvdArb, HitIc1, RamArb, OutArb, HitData, SelWay, Done, RvdBeat, DoneSet, BusySet, Spec,
         DataNext, ErrNext;
  }

  /** Without a branch a buffer that still has data to output does not leave. */
  lemma OutputsStay(s: Regs, i: Inputs, k: nat)
    requires Ready(s, i) && k < |s.fb| && s.fb[k].busy && !i.branch
    ensures Outputs(s, k) ==> !Done(s, i, k)
  {
  }

  /** How a busy buffer's output moves in a cycle without a branch, if it is in `gone` when it
      leaves and has `taken` a beat. */
  predicate Moves(s: Regs, t: Regs, gone: set<nat>, k: nat, taken: bool)
    requires Shape(s) && Shape(t)
  {
    && k < |s.fb| && k < |t.fb| && t.c == s.c && t.fb[k].addr == s.fb[k].addr
    && if Outputs(s, k)
       then && k !in gone && t.fb[k].outCnt == s.fb[k].outCnt + (if taken then 1 else 0)
            && s.fb[k].outCnt < s.c.beats && (Outputs(t, k) <==> t.fb[k].outCnt < s.c.beats)
       else k !in gone ==> !Outputs(t, k)
  }

  predicate Taken(s: Regs, i: Inputs, k: nat)
    requires Shape(s) && k < |s.fb|
  {
    OutArb(s, i, k) && i.outputReady
  }

  lemma OutputsNext(s: Regs, i: Inputs, k: nat)
    requires Ready(s, i) && Shape(Step(s, i)) && k < |s.fb| && s.fb[k].busy && !i.branch
    ensures Moves(s, Step(s, i), DoneSet(s, i), k, Taken(s, i, k))
  {
    BuffersStep(s, i);
    PlaceNext(s, i, k);
    OlderNext(s, i, k);
    OutputsStay(s, i, k);
    assert BufferOk(s.c, s.fb[k]) && !Alloc(s, i, k);
    assert OutArb(s, i, k) ==> Outputs(s, k);
    hide Step, BufferNext, Shape, OutArb, Alloc, Done;
  }

  lemma {:induction false} SurvivorsFront(k: nat, rest: seq<nat>, gone: set<nat>)
    ensures Survivors([k] + rest, gone) == (if k in gone then [] else [k]) + Survivors(rest, gone)
    decreases |rest|
  {
    var n := |rest|;
    if n == 0 {
      assert [k] + rest == [k] && [k][..0] == [];
      assert Survivors([], gone) == [];
    } else {
      SurvivorsFront(k, rest[..n - 1], gone);
      assert ([k] + rest)[..n] == [k] + rest[..n - 1] && ([k] + rest)[n] == rest[n - 1];
    }
  }

  /** The first buffer of `order` with data to output has given up a beat. */
  ghost predicate HeadTaken(s: Regs, order: seq<nat>, taken: set<nat>)
    requires Shape(s)
    decreases |order|
  {
    && order != [] && order[0] < |s.fb|
    && if Outputs(s, order[0]) then order[0] in taken else HeadTaken(s, order[1..], taken)
  }

  /** The stream keeps its place, or moves on by the beat taken from the buffer at its head. */
  lemma {:induction false} ChainMoves(s: Regs, t: Regs, order: seq<nat>, gone: set<nat>, at: Addr, end: Addr,
                                      taken: set<nat>)
    requires Shape(s) && Shape(t) && Chain(s, order, at, end)
    requires forall q :: 0 <= q < |order| ==> Moves(s, t, gone, order[q], order[q] in taken)
    requires forall p, q :: 0 <= p < q < |order| && order[q] in taken ==> order[p] < |s.fb| && !Outputs(s, order[p])
    ensures Chain(t, Survivors(order, gone), if HeadTaken(s, order, taken) then NextBeat(s.c, at) else at, end)
    decreases |order|
  {
    hide Outputs, Shape;
    if order == [] {
    } else {
      var k, rest := order[0], order[1..];
      assert order == [k] + rest;
      SurvivorsFront(k, rest, gone);
      assert forall q :: 0 <= q < |rest| ==> rest[q] == order[q + 1];
      assert Moves(s, t, gone, k, k in taken);
      var kept := Survivors(rest, gone);
      assert ([k] + kept)[1..] == kept && [] + kept == kept;
      if Outputs(s, k) {
        var next := Addr(NextLine(s.c, at.line), 0);
        NothingTaken(s, rest, taken);
        ChainMoves(s, t, rest, gone, next, end, taken);
      } else {
        ChainMoves(s, t, rest, gone, at, end, taken);
      }
    }
  }

  lemma {:induction false} NothingTaken(s: Regs, order: seq<nat>, taken: set<nat>)
    requires Shape(s) && forall q :: 0 <= q < |order| ==> order[q] !in taken
    ensures !HeadTaken(s, order, taken)
    decreases |order|
  {
    hide Outputs, Shape;
    if order != [] {
      NothingTaken(s, order[1..], taken);
    }
  }

  /** A lookup appends its line to the stream. */
  lemma {:induction false} ChainAppends(t: Regs, order: seq<nat>, at: Addr, end: Addr, k: nat)
    requires Shape(t) && Chain(t, order, at, end)
    requires k < |t.fb| && Outputs(t, k) && t.fb[k].addr.line == end.line && t.fb[k].outCnt == end.beat
    ensures Chain(t, order + [k], at, Addr(NextLine(t.c, end.line), 0))
    decreases |order|
  {
    hide Outputs, Shape;
    if order == [] {
      assert (order + [k])[1..] == [];
    } else {
      assert (order + [k])[1..] == order[1..] + [k];
      ChainAppends(t, order[1..], if Outputs(t, order[0]) then Addr(NextLine(t.c, at.line), 0) else at, end, k);
    }
  }

  /** After a branch nothing older is left in the stream. */
  lemma {:induction false} ChainEmpty(t: Regs, order: seq<nat>, at: Addr)
    requires Shape(t) && forall q :: 0 <= q < |order| ==> order[q] < |t.fb| && !Outputs(t, order[q])
    ensures Chain(t, order, at, at)
    decreases |order|
  {
    hide Outputs, Shape;
    if order == [] {
    } else {
      ChainEmpty(t, order[1..], at);
    }
  }

  predicate AnyTaken(s: Regs, i: Inputs)
    requires Shape(s)
  {
    exists k :: 0 <= k < |s.fb| && Taken(s, i, k)
  }

  function TakenSet(s: Regs, i: Inputs): set<nat>
    requires Shape(s)
  {
    set k | 0 <= k < |s.fb| && Taken(s, i, k)
  }

  /** Only the first buffer with data to output gives up a beat. */
  lemma TakenIsHead(s: Regs, order: seq<nat>, i: Inputs, p: nat, q: nat)
    requires Shape(s) && Age(s, order) && p < q < |order| && order[q] in TakenSet(s, i)
    ensures order[p] < |s.fb| && !Outputs(s, order[p])
  {
    assert order[..q][p] == order[p];
    assert order[p] in Prior(order, q);
    hide Outputs, OutReq;
  }

  lemma {:induction false} HeadTakenIff(s: Regs, order: seq<nat>, taken: set<nat>)
    requires Shape(s)
    requires forall q :: 0 <= q < |order| ==> order[q] < |s.fb| && (order[q] in taken ==> Outputs(s, order[q]))
    requires forall p, q :: 0 <= p < q < |order| && order[q] in taken ==> !Outputs(s, order[p])
    ensures HeadTaken(s, order, taken) <==> exists q :: 0 <= q < |order| && order[q] in taken
    decreases |order|
  {
    hide Outputs, Shape;
    if order != [] {
      HeadTakenIff(s, order[1..], taken);
      assert forall q :: 0 < q < |order| ==> order[1..][q - 1] == order[q];
    }
  }

  lemma HeadTakenIsAnyTaken(s: Regs, order: seq<nat>, i: Inputs)
    requires Shape(s) && Age(s, order)
    ensures HeadTaken(s, order, TakenSet(s, i)) <==> AnyTaken(s, i)
  {
    var taken := TakenSet(s, i);
    assert forall k :: k in taken ==> k in BusySet(s) && Outputs(s, k);
    forall p, q | 0 <= p < q < |order| && order[q] in taken ensures order[p] < |s.fb| && !Outputs(s, order[p]) {
      TakenIsHead(s, order, i, p, q);
    }
    hide Outputs, Shape, Taken;
    HeadTakenIff(s, order, taken);
    if AnyTaken(s, i) {
      var k :| 0 <= k < |s.fb| && Taken(s, i, k);
      assert k in taken && k in Prior(order, |order|) && k in order;
    }
  }

  /** The buffer a lookup allocates. */
  lemma LookupNext(s: Regs, i: Inputs)
    requires Ready(s, i) && Shape(Step(s, i)) && Lookup(s, i)
    ensures var t, a, k := Step(s, i), LookupAddr(s, i), LowestFree(s, 0);
            && k < |s.fb| && k < |t.fb| && t.c == s.c && Outputs(t, k) && t.fb[k].addr == a && t.fb[k].outCnt == a.beat
            && t.fb[k].rvdCnt == 0 && t.prefetch == Addr(NextLine(s.c, a.line), 0)
  {
    var k := LowestFree(s, 0);
    AllocIsLowestFree(s, i, k);
    BuffersStep(s, i);
    PlaceNext(s, i, k);
    CountersNext(s, i, k);
    OlderNext(s, i, k);
    hide BufferNext, Alloc, Lookup, LowestFree;
  }

  /** Without a branch the stream moves on by the beats taken. */
  lemma ChainStep(s: Regs, order: seq<nat>, i: Inputs, at: Addr)
    requires Ready(s, i) && Shape(Step(s, i)) && Age(s, order) && !i.branch && Chain(s, order, at, s.prefetch)
    ensures Chain(Step(s, i), OrderNext(s, order, i), if AnyTaken(s, i) then NextBeat(s.c, at) else at,
                  Step(s, i).prefetch)
  {
    var t, taken := Step(s, i), TakenSet(s, i);
    assert !Lookup(s, i) ==> t.prefetch == s.prefetch;
    forall q | 0 <= q < |order| ensures Moves(s, t, DoneSet(s, i), order[q], order[q] in taken) {
      assert order[q] in Prior(order, |order|) && order[q] in BusySet(s);
      OutputsNext(s, i, order[q]);
    }
    forall p, q | 0 <= p < q < |order| && order[q] in taken ensures order[p] < |s.fb| && !Outputs(s, order[p]) {
      TakenIsHead(s, order, i, p, q);
    }
    HeadTakenIsAnyTaken(s, order, i);
    hide Step, Shape, Age, Taken, Moves, Chain, Lookup, LowestFree, NextBeat, DoneSet;
    ChainMoves(s, t, order, DoneSet(s, i), at, s.prefetch, taken);
    var kept, to := Survivors(order, DoneSet(s, i)), if AnyTaken(s, i) then NextBeat(s.c, at) else at;
    if Lookup(s, i) {
      LookupNext(s, i);
      ChainAppends(t, kept, to, s.prefetch, LowestFree(s, 0));
    } else {
      assert kept + [] == kept;
    }
  }

  /** A branch makes every buffer in use stale. */
  lemma StaleNext(s: Regs, i: Inputs, k: nat)
    requires Ready(s, i) && Shape(Step(s, i)) && k < |s.fb| && s.fb[k].busy && i.branch
    ensures k < |Step(s, i).fb| && !Outputs(Step(s, i), k)
  {
    BuffersStep(s, i);
    PlaceNext(s, i, k);
    assert !Alloc(s, i, k);
    hide Step, BufferNext, Alloc;
  }

  lemma {:induction false} SurvivorsAmong(order: seq<nat>, gone: set<nat>)
    ensures forall k :: k in Survivors(order, gone) ==> k in order
    decreases |order|
  {
    if order != [] {
      SurvivorsAmong(order[..|order| - 1], gone);
    }
  }

  /** A branch restarts the stream at its target. */
  lemma ChainBranch(s: Regs, order: seq<nat>, i: Inputs)
    requires Ready(s, i) && Shape(Step(s, i)) && Age(s, order) && i.branch
    ensures Chain(Step(s, i), OrderNext(s, order, i), i.addr, Step(s, i).prefetch)
  {
    var t, kept := Step(s, i), Survivors(order, DoneSet(s, i));
    assert !Lookup(s, i) ==> t.prefetch == i.addr;
    SurvivorsAmong(order, DoneSet(s, i));
    forall q | 0 <= q < |kept| ensures kept[q] < |t.fb| && !Outputs(t, kept[q]) {
      assert kept[q] in order;
      assert kept[q] in Prior(order, |order|) && kept[q] in BusySet(s);
      StaleNext(s, i, kept[q]);
    }
    hide Step, Shape, Age, Chain, Lookup, LowestFree, DoneSet, Outputs;
    ChainEmpty(t, kept, i.addr);
    if Lookup(s, i) {
      LookupNext(s, i);
      ChainAppends(t, kept, i.addr, i.addr, LowestFree(s, 0));
    } else {
      assert kept + [] == kept;
    }
  }

  // ------------------------------------------------------------------ the invariant is kept

  /** The fill buffers see the core's readiness only through the output stage. */
  lemma FillInputsAgree(s: Regs, o: OutRegs, x: CoreInputs, k: nat)
    requires OutReady(s, o, x) && k < |s.fb|
    ensures var i := FillInputs(o, x);
            && Ready(s, i) && OutArb(s, i, k) == OutArb(s, x.i, k) && RvdArb(s, i, k) == RvdArb(s, x.i, k)
            && Taken(s, i, k) == (OutArb(s, x.i, k) && OutputReady(o, x.ready))
  {
    var i := FillInputs(o, x);
    assert forall j :: 0 <= j < |s.fb| ==> ExtDone(s, i, j) == ExtDone(s, x.i, j);
    assert forall j :: 0 <= j < |s.fb| ==> RvdExp(s, i, j) == RvdExp(s, x.i, j);
    hide ExtDone, Shape, Outputs, DataSel, HitIc1, RvdBeat, RvdExp;
  }

  lemma TakesIsAnyTaken(s: Regs, o: OutRegs, x: CoreInputs)
    requires OutReady(s, o, x)
    ensures Takes(s, o, x) <==> AnyTaken(s, FillInputs(o, x))
  {
    forall k | 0 <= k < |s.fb|
      ensures Taken(s, FillInputs(o, x), k) == (OutArb(s, x.i, k) && OutputReady(o, x.ready))
    {
      FillInputsAgree(s, o, x, k);
    }
    hide OutArb, Shape, OutputReady, Taken;
  }

  lemma LegalAgrees(m: Memory, s: Regs, w: World, o: OutRegs, x: CoreInputs)
    requires OutReady(s, o, x) && Legal(m, s, w.bus, x.i)
    ensures Legal(m, s, w.bus, FillInputs(o, x))
  {
  }

  /** The buffer that has data for the core has the beat the output stage wants. */
  lemma HeadIsWanted(m: Memory, s: Regs, w: World, o: OutRegs, x: CoreInputs, k: nat)
    requires DeliveryInv(m, s, w, o, true) && OutReady(s, o, x) && k < |s.fb| && OutArb(s, x.i, k)
    ensures s.fb[k].addr.line == Wanted(s.c, o).line && s.fb[k].outCnt == Wanted(s.c, o).beat == MuxBeat(s, o)
    ensures NotAhead(s.fb[k])
  {
    OutputIsWanted(s, w.order, x.i, Wanted(s.c, o), s.prefetch, k);
  }

  lemma PutsOutWanted(m: Memory, s: Regs, w: World, o: OutRegs, x: CoreInputs)
    requires DeliveryInv(m, s, w, o, true) && OutReady(s, o, x) && Legal(m, s, w.bus, x.i)
    ensures PutsOut(m, s, o, x, Wanted(s.c, o))
  {
    if DataValid(s, x.i) {
      var k :| 0 <= k < |s.fb| && OutArb(s, x.i, k);
      HeadIsWanted(m, s, w, o, x, k);
      HeadIsMemory(m, s, w, o, x, k);
    }
    hide OutputErr, OutputData, DataValid, Inv, Streaming, Legal;
  }

  /** A beat taken without an error was there to take. */
  lemma TakenIsThere(m: Memory, s: Regs, w: World, o: OutRegs, x: CoreInputs, k: nat)
    requires DeliveryInv(m, s, w, o, true) && OutReady(s, o, x) && Legal(m, s, w.bus, x.i)
    requires k < |s.fb| && OutArb(s, x.i, k) && !OutputErr(s, o, x)
    ensures s.fb[k].hit || HitIc1(s, k) || s.fb[k].addr.beat + s.fb[k].rvdCnt > s.fb[k].outCnt || RvdArb(s, x.i, k)
  {
    HeadIsWanted(m, s, w, o, x, k);
    HeadSource(m, s, w, x.i, k);
    HeadIsMemory(m, s, w, o, x, k);
    RvdBeatForm(m, s, w, k);
    hide OutputErr, Inv, Streaming, Legal, Shape, OutArb, HitIc1, RvdArb, AnyDataHit, RvdBeat, NotAhead;
  }

  /** No buffer outputs ahead of its data. */
  lemma NotAheadStep(m: Memory, s: Regs, w: World, i: Inputs, k: nat)
    requires Inv(m, s, w) && Legal(m, s, w.bus, i) && Shape(Step(s, i)) && k < |s.fb| && k < |Step(s, i).fb|
    requires Outputs(Step(s, i), k) && s.fb[k].busy && !i.branch && (Outputs(s, k) ==> NotAhead(s.fb[k]))
    requires Taken(s, i, k) ==>
               s.fb[k].hit || HitIc1(s, k) || s.fb[k].addr.beat + s.fb[k].rvdCnt > s.fb[k].outCnt || RvdArb(s, i, k)
    ensures NotAhead(Step(s, i).fb[k])
  {
    OutputsNext(s, i, k);
    OlderNext(s, i, k);
    FillNext(s, i, k);
    BusyCounters(s, w.order, w.bus, i, k);
    BuffersStep(s, i);
    hide Step, BufferNext, Inv, Legal, Shape, OutArb, HitIc1, RvdArb, Done, Taken;
  }

  /** After a branch the stream is followed until an error is handed over. */
  predicate RunningNext(s: Regs, o: OutRegs, x: CoreInputs, running: bool)
    requires OutReady(s, o, x)
  {
    x.i.branch || (running && !(Accepts(s, o, x) && ErrO(s, o, x)))
  }

  lemma NoneAheadStep(m: Memory, s: Regs, w: World, o: OutRegs, x: CoreInputs, running: bool)
    requires DeliveryInv(m, s, w, o, running) && OutReady(s, o, x) && Legal(m, s, w.bus, x.i)
    requires RunningNext(s, o, x, running) && Shape(CacheStep(s, o, x))
    ensures NoneAhead(CacheStep(s, o, x))
  {
    var t, i := CacheStep(s, o, x), FillInputs(o, x);
    LegalAgrees(m, s, w, o, x);
    BuffersStep(s, i);
    forall k | 0 <= k < |t.fb| && Outputs(t, k) ensures NotAhead(t.fb[k]) {
      OlderNext(s, i, k);
      AllocIsLowestFree(s, i, k);
      if !s.fb[k].busy {
        LookupNext(s, i);
      } else if i.branch {
        StaleNext(s, i, k);
      } else {
        TakenWasThere(m, s, w, o, x, k);
        NotAheadStep(m, s, w, i, k);
      }
    }
  }

  lemma TakenWasThere(m: Memory, s: Regs, w: World, o: OutRegs, x: CoreInputs, k: nat)
    requires DeliveryInv(m, s, w, o, true) && OutReady(s, o, x) && Legal(m, s, w.bus, x.i)
    requires !x.i.branch && RunningNext(s, o, x, true) && k < |s.fb|
    ensures var i := FillInputs(o, x);
            Taken(s, i, k) ==>
              s.fb[k].hit || HitIc1(s, k) || s.fb[k].addr.beat + s.fb[k].rvdCnt > s.fb[k].outCnt || RvdArb(s, i, k)
  {
    FillInputsAgree(s, o, x, k);
    if Taken(s, FillInputs(o, x), k) {
      if OutputErr(s, o, x) {
        ErrorIsReported(s, o, x);
      } else {
        TakenIsThere(m, s, w, o, x, k);
      }
    }
  }

  lemma LookupOutputsStep(s: Regs, i: Inputs)
    requires Ready(s, i) && Shape(Step(s, i))
    ensures LookupOutputs(Step(s, i))
  {
    if LookupActual(s, i) {
      LookupNext(s, i);
    }
    assert Step(s, i).lookupValid == LookupActual(s, i);
    assert Lookup(s, i) ==> Step(s, i).fillIn == LowestFree(s, 0);
    hide Step, Shape, Lookup, LowestFree;
  }

  lemma StreamingStep(m: Memory, s: Regs, w: World, o: OutRegs, x: CoreInputs, running: bool)
    requires DeliveryInv(m, s, w, o, running) && OutReady(s, o, x) && Legal(m, s, w.bus, x.i)
    requires RunningNext(s, o, x, running) && Shape(CacheStep(s, o, x))
    ensures Streaming(m, CacheStep(s, o, x), WorldStep(s, w, FillInputs(o, x)), OutNext(s, o, x))
  {
    hide Step, Shape, Legal, OutputErr, OutputData, DataValid, Chain, NoneAhead, BusInv, SweepOk, RamsHoldMemory,
         LookupOk, BuffersOk, LookupOutputs, NextBeat, Takes, Accepts, ErrO, OrderNext, BusNext, AnyTaken;
    var i := FillInputs(o, x);
    NoneAheadStep(m, s, w, o, x, running);
    SameConfig(s, i);
    InvGives(m, s, w);
    if i.branch {
      ChainBranch(s, w.order, i);
    } else {
      PutsOutWanted(m, s, w, o, x);
      StageMoves(m, s, o, x);
      TakesIsAnyTaken(s, o, x);
      ChainStep(s, w.order, i, Wanted(s.c, o));
    }
  }

  lemma SameConfig(s: Regs, i: Inputs)
    requires Ready(s, i)
    ensures Step(s, i).c == s.c
  {
  }

  lemma OutAddrStep(s: Regs, o: OutRegs, x: CoreInputs)
    requires OutReady(s, o, x)
    ensures AddrOk(s.c, OutNext(s, o, x).addr)
  {
    hide OutputErr, OutputData, DataValid, SkidValidNext, Accepts, RDataLo;
  }

  /** Kept by every cycle. */
  lemma DeliveryStep(m: Memory, s: Regs, w: World, o: OutRegs, x: CoreInputs, running: bool)
    requires DeliveryInv(m, s, w, o, running) && OutReady(s, o, x) && Legal(m, s, w.bus, x.i)
    ensures DeliveryInv(m, CacheStep(s, o, x), WorldStep(s, w, FillInputs(o, x)), OutNext(s, o, x),
                        RunningNext(s, o, x, running))
  {
    var i := FillInputs(o, x);
    LegalAgrees(m, s, w, o, x);
    InvStep(m, s, w, i);
    ShapeStep(s, i);
    SameConfig(s, i);
    LookupOutputsStep(s, i);
    OutAddrStep(s, o, x);
    if RunningNext(s, o, x, running) {
      StreamingStep(m, s, w, o, x, running);
    }
    hide Step, Inv, Streaming, Shape, LookupOutputs, OutNext, RunningNext, WorldStep;
  }

  // ------------------------------------------------------------------ halfword addresses

  function LineNumber(c: Config, a: LineAddr): nat { a.tag * c.lines + a.index }

  function BeatNumber(c: Config, a: Addr): nat { LineNumber(c, a.line) * c.beats + a.beat }

  function HalfNumber(c: Config, a: Addr, upper: bool): nat { BeatNumber(c, a) * 2 + if upper then 1 else 0 }

  function Beats(c: Config): (r: nat)
    ensures ConfigOk(c) ==> r > 0
  {
    assert ConfigOk(c) ==> c.tags * c.lines > 0;
    c.tags * c.lines * c.beats
  }

  /** Counting up a two-digit number. */
  lemma CountUp(hi: nat, lo: nat, highs: nat, lows: nat)
    requires hi < highs && lo < lows
    ensures hi * lows + lo < highs * lows
    ensures lo + 1 == lows ==> (hi + 1) * lows == hi * lows + lo + 1
    ensures hi * lows + lo + 1 == highs * lows <==> lo + 1 == lows && hi + 1 == highs
  {
    assert (hi + 1) * lows == hi * lows + lows;
    if hi + 1 < highs {
      assert (hi + 2) * lows <= highs * lows && (hi + 2) * lows == (hi + 1) * lows + lows;
    }
  }

  /** The address and the half a halfword number stands for. */
  function AddrOfHalf(c: Config, n: nat): (Addr, bool)
    requires ConfigOk(c)
  {
    var beat := n / 2;
    var line := beat / c.beats;
    (Addr(LineAddr(line / c.lines, line % c.lines), beat % c.beats), n % 2 == 1)
  }

  /** An address is determined by its halfword number. */
  lemma AddrOfHalfNumber(c: Config, a: Addr, upper: bool)
    requires ConfigOk(c) && AddrOk(c, a)
    ensures AddrOfHalf(c, HalfNumber(c, a, upper)) == (a, upper)
  {
    ModUnique(LineNumber(c, a.line) * c.beats + a.beat, c.beats, LineNumber(c, a.line), a.beat);
    ModUnique(a.line.tag * c.lines + a.line.index, c.lines, a.line.tag, a.line.index);
  }

  lemma LineCounts(c: Config, a: LineAddr)
    requires ConfigOk(c) && LineAddrOk(c, a)
    ensures LineNumber(c, a) < c.tags * c.lines
    ensures LineNumber(c, NextLine(c, a))
         == if LineNumber(c, a) + 1 == c.tags * c.lines then 0 else LineNumber(c, a) + 1
  {
    CountUp(a.tag, a.index, c.tags, c.lines);
  }

  lemma BeatCounts(c: Config, a: Addr)
    requires ConfigOk(c) && AddrOk(c, a)
    ensures BeatNumber(c, a) < Beats(c)
    ensures BeatNumber(c, NextBeat(c, a)) == if BeatNumber(c, a) + 1 == Beats(c) then 0 else BeatNumber(c, a) + 1
    ensures AddrOk(c, NextBeat(c, a))
  {
    LineCounts(c, a.line);
    CountUp(LineNumber(c, a.line), a.beat, c.tags * c.lines, c.beats);
    hide LineNumber, NextLine;
  }

  lemma Wraps(n: nat, total: nat)
    requires n < 2 * total
    ensures n % total == if n < total then n else n - total
  {
    if n >= total {
      assert n == total + (n - total);
    }
  }

  /** The address counter steps by one or two halfwords, carrying through beat, index and tag. */
  lemma SkipCounts(c: Config, a: Addr, upper: bool, compressed: bool)
    requires ConfigOk(c) && AddrOk(c, a)
    ensures var to := Skip(c, a, upper, compressed);
            AddrOk(c, to.0) && HalfNumber(c, to.0, to.1) == Next(c, HalfNumber(c, a, upper), compressed)
  {
    hide BeatNumber, Beats, NextBeat;
    BeatCounts(c, a);
    Wraps(HalfNumber(c, a, upper) + if compressed then 1 else 2, 2 * Beats(c));
  }

  // ------------------------------------------------------------------ runs

  /** What the core sees: the branches it makes and the instructions it accepts. */
  datatype Event =
    | Branch(at: Addr, upper: bool)
    | Instruction(at: Addr, upper: bool, lo: Half, hi: Half, err: bool, plus2: bool)

  function Events(s: Regs, o: OutRegs, x: CoreInputs): seq<Event>
    requires OutReady(s, o, x)
  {
    (if Accepts(s, o, x)
     then [Instruction(o.addr, o.upper, RDataLo(s, o, x), RDataHi(s, o, x), ErrO(s, o, x), ErrPlus2(o))]
     else [])
    + if x.i.branch then [Branch(x.i.addr, x.targetUpper)] else []
  }

  ghost function Trace(s: Regs, o: OutRegs, run: seq<CoreInputs>): seq<Event>
    decreases |run|
  {
    if run == [] || !OutReady(s, o, run[0]) then []
    else Events(s, o, run[0]) + Trace(CacheStep(s, o, run[0]), OutNext(s, o, run[0]), run[1..])
  }

  ghost predicate LegalDelivery(m: Memory, s: Regs, w: World, o: OutRegs, run: seq<CoreInputs>)
    decreases |run|
  {
    run == [] ||
    (OutReady(s, o, run[0]) && Legal(m, s, w.bus, run[0].i)
     && LegalDelivery(m, CacheStep(s, o, run[0]), WorldStep(s, w, FillInputs(o, run[0])), OutNext(s, o, run[0]),
                      run[1..]))
  }

  /** Memory by halfword number. */
  function MemHalf(m: Memory, c: Config, n: nat): Half
    requires ConfigOk(c)
  {
    var at := AddrOfHalf(c, n);
    HalfAt(m, at.0, at.1)
  }

  function Next(c: Config, pc: nat, compressed: bool): nat
    requires ConfigOk(c)
  {
    (pc + if compressed then 1 else 2) % (2 * Beats(c))
  }

  /** The instruction memory holds at a halfword number. */
  predicate IsInstructionAt(m: Memory, c: Config, pc: nat, lo: Half, hi: Half)
    requires ConfigOk(c)
  {
    lo == MemHalf(m, c, pc) && (!Compressed(lo) ==> hi == MemHalf(m, c, Next(c, pc, true)))
  }

  /** An error said to be in the second half leaves the first half memory's, of an instruction that
      has two halves. */
  predicate FirstHalfAt(m: Memory, c: Config, pc: nat, lo: Half)
    requires ConfigOk(c)
  {
    lo == MemHalf(m, c, pc) && !Compressed(lo)
  }

  /** Once a branch has set the program counter, and until an instruction is handed over with an
      error, every instruction is the one memory holds at the counter, and the counter moves past it
      by one or two halfwords. */
  ghost predicate SequentialDelivery(m: Memory, c: Config, pc: nat, running: bool, trace: seq<Event>)
    requires ConfigOk(c)
    decreases |trace|
  {
    trace == [] ||
    match trace[0]
    case Branch(at, upper) => SequentialDelivery(m, c, HalfNumber(c, at, upper), true, trace[1..])
    case Instruction(at, upper, lo, hi, err, plus2) =>
      && (running ==>
            && (at, upper) == AddrOfHalf(c, pc)
            && (!err ==> IsInstructionAt(m, c, pc, lo, hi))
            && (err && plus2 ==> FirstHalfAt(m, c, pc, lo)))
      && SequentialDelivery(m, c, Next(c, pc, Compressed(lo)), running && !err, trace[1..])
  }

  /** What an accepted instruction of a followed stream has to be. */
  predicate Delivered(m: Memory, s: Regs, o: OutRegs, x: CoreInputs)
    requires OutReady(s, o, x)
  {
    var pc := HalfNumber(s.c, o.addr, o.upper);
    if ErrO(s, o, x) then ErrPlus2(o) ==> FirstHalfAt(m, s.c, pc, RDataLo(s, o, x))
    else IsInstructionAt(m, s.c, pc, RDataLo(s, o, x), RDataHi(s, o, x))
  }

  /** One cycle's events in front of a sequential delivery. */
  lemma EventsThen(m: Memory, s: Regs, o: OutRegs, x: CoreInputs, running: bool, rest: seq<Event>)
    requires OutReady(s, o, x) && (running && Accepts(s, o, x) ==> Delivered(m, s, o, x))
    requires var to := OutNext(s, o, x);
             SequentialDelivery(m, s.c, HalfNumber(s.c, to.addr, to.upper), RunningNext(s, o, x, running), rest)
    ensures SequentialDelivery(m, s.c, HalfNumber(s.c, o.addr, o.upper), running, Events(s, o, x) + rest)
  {
    hide IsInstructionAt, FirstHalfAt, HalfNumber, Accepts, ErrO, RDataLo, RDataHi, DataValid, OutputData, OutputErr,
         SkidValidNext, Compressed, Skip, Beats, Next, AddrOfHalf;
    var e := Events(s, o, x);
    SkipCounts(s.c, o.addr, o.upper, Compressed(RDataLo(s, o, x)));
    AddrOfHalfNumber(s.c, o.addr, o.upper);
    if |e| == 2 {
      assert (e + rest)[1..] == [e[1]] + rest;
      assert ([e[1]] + rest)[1..] == rest;
    } else if |e| == 1 {
      assert (e + rest)[1..] == rest;
    } else {
      assert e + rest == rest;
    }
  }

  lemma {:induction false} RunDelivers(m: Memory, s: Regs, w: World, o: OutRegs, running: bool, run: seq<CoreInputs>)
    requires DeliveryInv(m, s, w, o, running) && LegalDelivery(m, s, w, o, run)
    ensures SequentialDelivery(m, s.c, HalfNumber(s.c, o.addr, o.upper), running, Trace(s, o, run))
    decreases |run|
  {
    if run == [] {
    } else {
      var x := run[0];
      var t, to := CacheStep(s, o, x), OutNext(s, o, x);
      DeliveryStep(m, s, w, o, x, running);
      RunDelivers(m, t, WorldStep(s, w, FillInputs(o, x)), to, RunningNext(s, o, x, running), run[1..]);
      if running {
        InstructionIsMemory(m, s, w, o, x);
      }
      SameConfig(s, FillInputs(o, x));
      hide DeliveryInv, OutNext, RunningNext, Delivered, SequentialDelivery, Accepts, ErrO, Step, Legal, Shape;
      EventsThen(m, s, o, x, running, Trace(t, to, run[1..]));
    }
  }

  /** Memory at the output address and in the half after it, by halfword number. */
  lemma HalvesOfAddress(m: Memory, c: Config, a: Addr, upper: bool)
    requires ConfigOk(c) && AddrOk(c, a)
    ensures var pc, next := HalfNumber(c, a, upper), NextHalf(c, a, upper);
            && MemHalf(m, c, pc) == HalfAt(m, a, upper)
            && MemHalf(m, c, Next(c, pc, true)) == HalfAt(m, next.0, next.1)
  {
    hide HalfNumber, Next, AddrOfHalf, NextBeat;
    SkipCounts(c, a, upper, true);
    AddrOfHalfNumber(c, a, upper);
    var next := NextHalf(c, a, upper);
    AddrOfHalfNumber(c, next.0, next.1);
  }

  lemma InstructionIsMemory(m: Memory, s: Regs, w: World, o: OutRegs, x: CoreInputs)
    requires DeliveryInv(m, s, w, o, true) && OutReady(s, o, x) && Legal(m, s, w.bus, x.i)
    ensures Accepts(s, o, x) ==> Delivered(m, s, o, x)
  {
    hide ValidO, Legal, Inv, Chain, NoneAhead, RDataHi, OutputData, OutputErr, DataValid, Hi, Lo, Compressed,
         HalfNumber, MemHalf, Next, NextBeat;
    PutsOutWanted(m, s, w, o, x);
    HalvesOfAddress(m, s.c, o.addr, o.upper);
    if Accepts(s, o, x) && !ErrO(s, o, x) {
      DeliversMemory(m, s, o, x);
    }
  }

  /** From reset, for every configuration, memory, bus timing, pattern of branches, readiness,
      invalidations and of the cache being enabled or not. */
  lemma CacheDeliversMemory(m: Memory, s: Regs, o: OutRegs, run: seq<CoreInputs>)
    requires IsReset(s) && AddrOk(s.c, o.addr) && !o.skidValid && LegalDelivery(m, s, NOTHING, o, run)
    ensures SequentialDelivery(m, s.c, HalfNumber(s.c, o.addr, o.upper), false, Trace(s, o, run))
  {
    InvReset(m, s);
    RunDelivers(m, s, NOTHING, o, false, run);
  }

  // ------------------------------------------------------------------ errors

  /** No buffer and no halfword kept back is marked as an error. */
  ghost predicate Clean(s: Regs, o: OutRegs)
    requires Shape(s)
  {
    (o.skidValid ==> !o.skidErr) && forall k :: 0 <= k < |s.fb| && s.fb[k].busy ==> !AnyErr(s.fb[k])
  }

  lemma CleanBufferStep(s: Regs, i: Inputs, k: nat)
    requires Ready(s, i) && k < |s.fb| && (s.fb[k].busy ==> !AnyErr(s.fb[k]))
    requires !i.err && !i.pmpErr && BufferNext(s, i, k).busy
    ensures !AnyErr(BufferNext(s, i, k))
  {
    OlderNext(s, i, k);
    assert BufferNext(s, i, k).err == ErrNext(s, i, k);
    hide BufferNext, Alloc, RvdArb, ExtArb, Done;
  }

  lemma CleanPutsOutNoError(s: Regs, o: OutRegs, x: CoreInputs)
    requires OutReady(s, o, x) && Clean(s, o) && !x.i.err
    ensures !OutputErr(s, o, x) && (Accepts(s, o, x) ==> !ErrO(s, o, x))
  {
    var b := MuxBeat(s, o);
    forall j | 0 <= j < |s.fb| && s.fb[j].busy ensures !s.fb[j].err[b] {
      assert BufferOk(s.c, s.fb[j]) && !AnyErr(s.fb[j]);
    }
    assert forall j :: 0 <= j < |s.fb| && DataReg(s, j) ==> s.fb[j].busy;
    hide DataRvd, DataReg, DataHit, LineErr, Accepts;
  }

  lemma CleanStep(s: Regs, o: OutRegs, x: CoreInputs)
    requires OutReady(s, o, x) && Clean(s, o) && !x.i.err && !x.i.pmpErr && Shape(CacheStep(s, o, x))
    ensures Clean(CacheStep(s, o, x), OutNext(s, o, x))
  {
    var t, i := CacheStep(s, o, x), FillInputs(o, x);
    BuffersStep(s, i);
    CleanPutsOutNoError(s, o, x);
    forall k | 0 <= k < |t.fb| && t.fb[k].busy ensures !AnyErr(t.fb[k]) {
      CleanBufferStep(s, i, k);
    }
    hide Step, Shape, OutputErr, OutputData, DataValid, AnyErr, RDataLo, Accepts;
  }

  /** Errors are not made up: without a bus or PMP error no instruction carries one. */
  lemma {:induction false} ErrorFreeRun(s: Regs, o: OutRegs, run: seq<CoreInputs>)
    requires Shape(s) && Clean(s, o)
    requires forall j :: 0 <= j < |run| ==> !run[j].i.err && !run[j].i.pmpErr
    ensures forall e :: e in Trace(s, o, run) && e.Instruction? ==> !e.err
    decreases |run|
  {
    if run != [] && OutReady(s, o, run[0]) {
      var x := run[0];
      ShapeStep(s, FillInputs(o, x));
      CleanPutsOutNoError(s, o, x);
      CleanStep(s, o, x);
      assert forall j :: 0 <= j < |run[1..]| ==> run[1..][j] == run[j + 1];
      hide Step, Shape, OutNext, Clean, Accepts, ErrO, RDataLo, RDataHi;
      ErrorFreeRun(CacheStep(s, o, x), OutNext(s, o, x), run[1..]);
    }
  }
}
