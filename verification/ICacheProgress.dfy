/** The instruction cache delivers data within a bounded number of cycles when the bus serves it within
    a bounded number of cycles. */
module ICacheProgress {
  import opened ICache
  import opened ICacheProofs
  import opened ICacheData
  import opened ICacheOutput
  import opened ICacheDelivery
  import opened ICacheHandshake

  // ------------------------------------------------------------------ what is left to do

  /** What a buffer can still do by itself, or be denied, before the core takes a beat: the last request
      denied, the line written, the buffer freed and given a new line. */
  function Chores(s: Regs, k: nat): nat
    requires Shape(s) && k < |s.fb|
  {
    var f := s.fb[k];
    if !f.busy then 5
    else Bit(!ExtFinished(s.c, f)) + Bit(!f.ramDone) + 1 + if Outputs(s, k) then 0 else 5
  }

  predicate DeniedTo(s: Regs, i: Inputs, k: nat)
    requires Shape(s) && k < |s.fb|
  {
    ExtArb(s, i, k) && i.pmpErr
  }

  /** What a buffer does by itself in a cycle; being given a line counts twice, the second time for its
      lookup in the next cycle. */
  function ChoresDone(s: Regs, i: Inputs, k: nat): nat
    requires Shape(s) && k < |s.fb|
  {
    Bit(DeniedTo(s, i, k)) + Bit(RamArb(s, i, k)) + Bit(s.fb[k].busy && Done(s, i, k)) + 2 * Bit(Alloc(s, i, k))
  }

  lemma BusyChores(s: Regs, i: Inputs, k: nat)
    requires Ready(s, i) && Shape(Step(s, i)) && !i.branch
    requires k < |s.fb| && k < |Step(s, i).fb| && s.fb[k].busy && !Taken(s, i, k)
    ensures Chores(Step(s, i), k) <= Chores(s, k) - ChoresDone(s, i, k)
  {
    var t := Step(s, i);
    BuffersStep(s, i);
    OutputsNext(s, i, k);
    OlderNext(s, i, k);
    assert !Alloc(s, i, k) && (k in DoneSet(s, i) <==> Done(s, i, k));
    assert t.fb[k].ramDone == (RamArb(s, i, k) || s.fb[k].ramDone) && (RamArb(s, i, k) ==> !s.fb[k].ramDone);
    assert ExtFinished(s.c, s.fb[k]) ==> ExtDone(s, i, k);
    assert Outputs(t, k) ==> t.fb[k].busy;
    if ExtDone(s, i, k) {
      ExtDoneIsStable(s, i, k);
    } else if DeniedTo(s, i, k) {
      DeniedIsFinished(s, i, k);
    }
    assert DeniedTo(s, i, k) ==> !ExtDone(s, i, k);
    hide Step, BufferNext, Shape, Alloc, ExtArb, RamArb, Done, DoneSet, Taken, Outputs, ExtFinished, ExtDone, DeniedTo;
  }

  /** A denied buffer asks for no more. */
  lemma DeniedIsFinished(s: Regs, i: Inputs, k: nat)
    requires Ready(s, i) && k < |s.fb| && s.fb[k].busy && DeniedTo(s, i, k) && BufferOk(s.c, BufferNext(s, i, k))
    ensures ExtFinished(s.c, BufferNext(s, i, k))
  {
    FillNext(s, i, k);
    CountersNext(s, i, k);
    assert ExtOff(s.c, s.fb[k]) < s.c.beats;
    assert ErrNext(s, i, k)[ExtOff(s.c, s.fb[k])];
    hide BufferNext, ExtArb, DataNext, ErrNext;
  }

  lemma FreeChores(s: Regs, i: Inputs, k: nat)
    requires Ready(s, i) && Shape(Step(s, i)) && !i.branch
    requires k < |s.fb| && k < |Step(s, i).fb| && !s.fb[k].busy
    ensures Chores(Step(s, i), k) <= Chores(s, k) - ChoresDone(s, i, k)
  {
    BuffersStep(s, i);
    OlderNext(s, i, k);
    AllocIsLowestFree(s, i, k);
    assert !ExtArb(s, i, k) && !RamArb(s, i, k);
    if Alloc(s, i, k) {
      LookupNext(s, i);
    }
    hide Step, BufferNext, Shape, Alloc, ExtArb, RamArb, Done, Outputs, ExtFinished, LowestFree, Lookup;
  }

  // ------------------------------------------------------------------ all buffers

  function TotalChores(s: Regs, n: nat): nat
    requires Shape(s) && n <= |s.fb|
  {
    if n == 0 then 0 else TotalChores(s, n - 1) + Chores(s, n - 1)
  }

  function TotalDone(s: Regs, i: Inputs, n: nat): nat
    requires Shape(s) && n <= |s.fb|
  {
    if n == 0 then 0 else TotalDone(s, i, n - 1) + ChoresDone(s, i, n - 1)
  }

  lemma {:induction false} TotalChoresFall(s: Regs, i: Inputs, n: nat)
    requires Ready(s, i) && Shape(Step(s, i)) && !i.branch
    requires n <= |s.fb| && |Step(s, i).fb| == |s.fb| && !AnyTaken(s, i)
    ensures TotalChores(Step(s, i), n) <= TotalChores(s, n) - TotalDone(s, i, n)
  {
    hide Step, Shape, Chores, ChoresDone, Taken;
    if n > 0 {
      assert !Taken(s, i, n - 1);
      if s.fb[n - 1].busy {
        BusyChores(s, i, n - 1);
      } else {
        FreeChores(s, i, n - 1);
      }
      TotalChoresFall(s, i, n - 1);
    }
  }

  lemma {:induction false} DoneCounted(s: Regs, i: Inputs, n: nat, k: nat)
    requires Shape(s) && n <= |s.fb| && k < n
    ensures TotalDone(s, i, n) >= ChoresDone(s, i, k)
  {
    hide Shape, ChoresDone;
    if k < n - 1 {
      DoneCounted(s, i, n - 1, k);
    }
  }

  lemma {:induction false} TotalChoresBound(s: Regs, n: nat)
    requires Shape(s) && n <= |s.fb|
    ensures TotalChores(s, n) <= 8 * n
  {
    if n > 0 {
      TotalChoresBound(s, n - 1);
    }
    hide Shape, ExtFinished, Outputs;
  }

  /** Indices the sweep has still to visit. */
  function Sweep(s: Regs): int { if s.invalProg then s.c.lines - s.invalIndex else 0 }

  /** Everything that can still happen before there is data for the core. */
  function Potential(s: Regs): int
    requires Shape(s)
  {
    TotalBudget(s, |s.fb|) + TotalChores(s, |s.fb|) + Bit(s.lookupValid) + Sweep(s)
  }

  /** A cycle in which something happens. */
  ghost predicate Happens(s: Regs, i: Inputs)
    requires Shape(s)
  {
    Grants(s, i) || i.rvalid || (InstrReq(s, i) && i.pmpErr) || MovesOn(s, i)
  }

  /** What the cache does by itself, or is denied, is done by some buffer. */
  lemma MovesAreDone(s: Regs, w: World, i: Inputs)
    requires BusInv(s, w.order, w.bus) && Ready(s, i)
    ensures TotalDone(s, i, |s.fb|) >= 2 * Bit(Lookup(s, i))
    ensures (InstrReq(s, i) && i.pmpErr) || MovesOn(s, i) ==>
              TotalDone(s, i, |s.fb|) >= 1 || s.invalProg || s.lookupValid
  {
    hide TotalDone, BusInv, ExtFinished, ExtArb, Done, Lookup, ExtReq;
    if Lookup(s, i) {
      AllocIsLowestFree(s, i, 0);
      AllocIsLowestFree(s, i, LowestFree(s, 0));
      DoneCounted(s, i, |s.fb|, LowestFree(s, 0));
    } else if AnyExtReq(s, i) && i.pmpErr {
      PickedRequest(s, w, i);
      DoneCounted(s, i, |s.fb|, ExtPick(s, i, 0));
    }
    if FillGrant(s, i) {
      var k := PickedWrite(s, w, i);
      DoneCounted(s, i, |s.fb|, k);
    }
    forall k | 0 <= k < |s.fb| && s.fb[k].busy && Done(s, i, k) ensures TotalDone(s, i, |s.fb|) >= 1 {
      DoneCounted(s, i, |s.fb|, k);
    }
  }

  lemma PickedRequest(s: Regs, w: World, i: Inputs)
    requires BusInv(s, w.order, w.bus) && AnyExtReq(s, i)
    ensures ExtPick(s, i, 0) < |s.fb| && ExtArb(s, i, ExtPick(s, i, 0))
  {
    SomeExtArb(s, w.order, i);
  }

  /** The oldest buffer with a line to write. */
  lemma PickedWrite(s: Regs, w: World, i: Inputs) returns (k: nat)
    requires BusInv(s, w.order, w.bus) && FillGrant(s, i)
    ensures k < |s.fb| && RamArb(s, i, k)
  {
    var among := set j | 0 <= j < |s.fb| && RamReq(s, j);
    var j :| 0 <= j < |s.fb| && RamReq(s, j);
    assert j in among && among <= BusySet(s) && among * Prior(w.order, 0) == {};
    k := OldestOf(s, w.order, among, 0);
    forall j | 0 <= j < |s.fb| && j in s.fb[k].older ensures !RamReq(s, j) {
      assert j !in s.fb[k].older * among;
    }
  }

  lemma SweepFalls(s: Regs, i: Inputs)
    requires Ready(s, i) && s.resetInval && !i.inval
    ensures Sweep(Step(s, i)) <= Sweep(s) - Bit(s.invalProg) && Sweep(s) >= 0
    ensures Bit(Step(s, i).lookupValid) <= Bit(Lookup(s, i))
  {
    hide Lookup, BuffersNext, TagsNext, LinesNext;
  }

  /** Every cycle in which something happens leaves less to happen. */
  lemma PotentialFalls(m: Memory, s: Regs, w: World, i: Inputs)
    requires Inv(m, s, w) && Legal(m, s, w.bus, i) && Shape(Step(s, i))
    requires s.resetInval && !i.inval && !i.branch && !DataValid(s, i)
    ensures Potential(Step(s, i)) <= Potential(s) - Bit(Happens(s, i))
  {
    assert BusInv(s, w.order, w.bus) && Ready(s, i) && LegalBus(w.bus, i);
    BuffersStep(s, i);
    NothingTakenYet(s, i);
    hide Step, Inv, BusInv, Shape, TotalBudget, EventsTo, TotalChores, TotalDone, Legal, DataValid, InstrReq, Lookup,
         AnyTaken, Sweep, MovesOn;
    TotalBudgetFalls(s, w, i, |s.fb|);
    EveryEventCounts(s, w, i);
    TotalChoresFall(s, i, |s.fb|);
    MovesAreDone(s, w, i);
    SweepFalls(s, i);
  }

  function Most(c: Config): nat { c.buffers * (4 * c.beats + 8) + c.lines + 1 }

  lemma PotentialBounds(m: Memory, s: Regs, w: World)
    requires Inv(m, s, w)
    ensures 0 <= Potential(s) <= Most(s.c)
  {
    assert BusInv(s, w.order, w.bus) && |s.fb| == s.c.buffers && Sweep(s) <= s.c.lines && Sweep(s) >= 0;
    TotalBudgetBounds(s, w, |s.fb|);
    TotalChoresBound(s, |s.fb|);
    assert s.c.buffers * (4 * s.c.beats + 8) == 4 * s.c.beats * s.c.buffers + 8 * s.c.buffers;
    hide Inv, BusInv, Shape, TotalBudget, TotalChores, Sweep;
  }

  // ------------------------------------------------------------------ runs

  function Next(n: Snapshot, x: CoreInputs): Snapshot
    requires OutReady(n.s, n.o, x)
  {
    Snapshot(CacheStep(n.s, n.o, x), WorldStep(n.s, n.w, FillInputs(n.o, x)), OutNext(n.s, n.o, x),
             RunningNext(n.s, n.o, x, n.running))
  }

  /** A cycle in which the bus has nothing to do for the cache, or does something. */
  predicate Serves(s: Regs, bus: seq<Fetch>, i: Inputs)
    requires Shape(s)
  {
    (!InstrReq(s, i) && bus == []) || (InstrReq(s, i) && GntOrPmpErr(i)) || i.rvalid
  }

  /** Cycles of a followed stream with fetching enabled, no branch, no new sweep and no data for the core,
      in which the bus is never idle for more than `bound` cycles in a row while it has something to
      do; `left` of them are left now. */
  ghost predicate Starved(m: Memory, n: Snapshot, run: seq<CoreInputs>, bound: nat, left: nat)
    decreases |run|
  {
    run == [] ||
    (var x := run[0];
     && OutReady(n.s, n.o, x) && Legal(m, n.s, n.w.bus, x.i) && n.running
     && var i := FillInputs(n.o, x);
        && i.req && !i.branch && !i.inval && !DataValid(n.s, i)
        && if Serves(n.s, n.w.bus, i) then Starved(m, Next(n, x), run[1..], bound, bound)
           else left > 0 && Starved(m, Next(n, x), run[1..], bound, left - 1))
  }

  lemma ServedHappens(m: Memory, n: Snapshot, x: CoreInputs)
    requires HandshakeInv(m, n) && n.running && OutReady(n.s, n.o, x)
    requires var i := FillInputs(n.o, x);
             i.req && !i.branch && !DataValid(n.s, i) && Serves(n.s, n.w.bus, i)
    ensures Happens(n.s, FillInputs(n.o, x))
  {
    var i := FillInputs(n.o, x);
    assert OutReady(n.s, n.o, x.(i := i)) && DeliveryInv(m, n.s, n.w, n.o, true);
    SomethingMoves(m, n.s, n.w, n.o, x.(i := i));
    hide HandshakeInv, DeliveryInv, Shape, InstrReq, MovesOn, DataValid;
  }

  /** Cycles that `p` things to happen can take, `left` idle ones before the first. */
  function Limit(p: int, bound: nat, left: nat): int { p * (bound + 1) + left }

  lemma LimitServed(p: int, q: int, bound: nat, left: nat)
    requires q <= p - 1
    ensures 1 + Limit(q, bound, bound) <= Limit(p, bound, left)
  {
    assert (p - 1) * (bound + 1) == p * (bound + 1) - (bound + 1);
    assert 1 + Limit(p - 1, bound, bound) <= Limit(p, bound, left);
    hide Limit;
    LimitIdle(p - 1, q, bound, bound);
  }

  lemma LimitIdle(p: int, q: int, bound: nat, left: nat)
    requires q <= p
    ensures Limit(q, bound, left) <= Limit(p, bound, left)
    ensures left > 0 ==> 1 + Limit(q, bound, left - 1) <= Limit(p, bound, left)
    ensures Limit(0, bound, left) >= 0
  {
    assert p * (bound + 1) == (p - q) * (bound + 1) + q * (bound + 1);
  }

  lemma {:induction false} StarvedIsShort(m: Memory, n: Snapshot, run: seq<CoreInputs>, bound: nat, left: nat)
    requires HandshakeInv(m, n) && n.s.resetInval && Starved(m, n, run, bound, left)
    ensures |run| <= Limit(Potential(n.s), bound, left)
    decreases |run|
  {
    assert Inv(m, n.s, n.w);
    hide HandshakeInv, Legal, DataValid, Happens, Potential, Next, FillInputs, Shape, Limit, Serves, Inv;
    PotentialBounds(m, n.s, n.w);
    if run == [] {
      LimitIdle(Potential(n.s), 0, bound, left);
    } else {
      var x := run[0];
      OneStarvedCycle(m, n, x);
      if Serves(n.s, n.w.bus, FillInputs(n.o, x)) {
        ServedHappens(m, n, x);
        StarvedIsShort(m, Next(n, x), run[1..], bound, bound);
        LimitServed(Potential(n.s), Potential(Next(n, x).s), bound, left);
      } else {
        StarvedIsShort(m, Next(n, x), run[1..], bound, left - 1);
        LimitIdle(Potential(n.s), Potential(Next(n, x).s), bound, left);
      }
    }
  }

  lemma OneStarvedCycle(m: Memory, n: Snapshot, x: CoreInputs)
    requires HandshakeInv(m, n) && n.s.resetInval && OutReady(n.s, n.o, x) && Legal(m, n.s, n.w.bus, x.i)
    requires var i := FillInputs(n.o, x); !i.branch && !i.inval && !DataValid(n.s, i)
    ensures HandshakeInv(m, Next(n, x)) && Next(n, x).s.resetInval
    ensures Potential(Next(n, x).s) <= Potential(n.s) - Bit(Happens(n.s, FillInputs(n.o, x)))
  {
    HandshakeStep(m, n, x);
    LegalAgrees(m, n.s, n.w, n.o, x);
    ShapeStep(n.s, FillInputs(n.o, x));
    PotentialFalls(m, n.s, n.w, FillInputs(n.o, x));
    hide HandshakeInv, DataValid, Happens, Potential;
  }

  /** A stream is followed only after the first clock edge. */
  lemma {:induction false} RunningIsLater(n: Snapshot, run: seq<CoreInputs>)
    requires n.running ==> n.s.resetInval
    ensures After(n, run).running ==> After(n, run).s.resetInval
    decreases |run|
  {
    if run != [] && OutReady(n.s, n.o, run[0]) {
      RunningIsLater(Next(n, run[0]), run[1..]);
    }
  }

  /** In every run from reset: while a stream is followed, fetching is enabled and no sweep is asked for, a
      bus that is never idle for more than `bound` cycles in a row lets the core wait for data only so
      many cycles. */
  lemma DataComesInTime(m: Memory, s: Regs, o: OutRegs, run: seq<CoreInputs>, t: Snapshot, waiting: seq<CoreInputs>,
                        bound: nat)
    requires Reached(m, s, o, run, t) && Starved(m, t, waiting, bound, bound)
    ensures |waiting| <= Limit(Most(t.s.c), bound, bound)
  {
    ReachedHolds(m, s, o, run, t);
    RunningIsLater(Snapshot(s, NOTHING, o, false), run);
    assert Inv(m, t.s, t.w) && (waiting != [] ==> t.s.resetInval);
    hide HandshakeInv, Reached, Starved, Potential, Inv, Limit, Shape, Most;
    PotentialBounds(m, t.s, t.w);
    LimitIdle(Most(t.s.c), Potential(t.s), bound, bound);
    if waiting == [] {
      LimitIdle(Potential(t.s), 0, bound, bound);
    } else {
      StarvedIsShort(m, t, waiting, bound, bound);
    }
  }
}
