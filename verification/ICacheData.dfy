/** With a constant memory the cache only ever holds, and only ever returns, memory's data. */
module ICacheData {
  import opened ICache
  import opened ICacheProofs

  /** Instruction memory, one beat at a time. */
  type Memory = (LineAddr, nat) -> Beat

  function MemLine(m: Memory, c: Config, a: LineAddr): (r: Line)
    ensures |r| == c.beats && forall b :: 0 <= b < c.beats ==> r[b] == m(a, b)
  {
    seq(c.beats, b requires 0 <= b < c.beats => m(a, b))
  }

  /** Allocation order, unanswered bus requests, and how many indices of the tag RAM have been
      initialised since reset. */
  datatype World = World(order: seq<nat>, bus: seq<Fetch>, clean: nat)

  function CleanNext(s: Regs, clean: nat): nat {
    if s.invalProg && clean <= s.invalIndex then s.invalIndex + 1 else clean
  }

  function WorldStep(s: Regs, w: World, i: Inputs): World
    requires Shape(s)
  {
    World(OrderNext(s, w.order, i), BusNext(s, w.bus, i), CleanNext(s, w.clean))
  }

  /** Responses carry memory's data or an error. The cache looks nothing up in the first cycle after
      reset, as the control register that enables it resets to zero; `FirstCycleIsSafeIff` shows that
      nothing less will do. */
  predicate Legal(m: Memory, s: Regs, bus: seq<Fetch>, i: Inputs) {
    && Ready(s, i) && LegalBus(bus, i)
    && (i.rvalid && !i.err ==> i.rdata == m(bus[0].addr.line, bus[0].addr.beat))
    && (!s.resetInval ==> !LookupActual(s, i))
  }

  // ------------------------------------------------------------------ invariants

  /** The number of the request that fetches beat `b`. */
  function Turn(c: Config, f: Buffer, b: nat): int {
    if b >= f.addr.beat then b - f.addr.beat else b + c.beats - f.addr.beat
  }

  predicate Received(c: Config, f: Buffer, b: nat) { f.hit || Turn(c, f, b) < f.rvdCnt }

  ghost predicate DataOk(m: Memory, c: Config, f: Buffer)
    requires BufferOk(c, f)
  {
    f.busy ==> forall b :: 0 <= b < c.beats && Received(c, f, b) ==> f.err[b] || f.data[b] == m(f.addr.line, b)
  }

  ghost predicate WayOk(m: Memory, c: Config, tag: Tag, line: Line, index: nat) {
    tag.valid ==> line == MemLine(m, c, LineAddr(tag.tag, index))
  }

  /** Every valid way of every initialised index holds memory's line. */
  ghost predicate RamsHoldMemory(m: Memory, s: Regs, clean: nat)
    requires Shape(s)
  {
    forall v, x :: 0 <= v < s.c.ways && 0 <= x < s.c.lines && x < clean
      ==> WayOk(m, s.c, s.tags[v][x], s.lines[v][x], x)
  }

  predicate SweepOk(s: Regs, clean: nat) {
    && (s.resetInval && !s.invalProg ==> clean >= s.c.lines)
    && (s.invalProg ==> clean >= s.invalIndex && s.resetInval)
  }

  /** What the RAMs have just returned belongs to the address of the buffer in IC1. */
  ghost predicate LookupOk(m: Memory, s: Regs)
    requires Shape(s)
  {
    s.lookupValid ==>
      var f := s.fb[s.fillIn];
      && f.busy && f.addr.line.tag == s.lookupTag
      && forall v :: 0 <= v < s.c.ways ==> WayOk(m, s.c, s.tagRead[v], s.lineRead[v], f.addr.line.index)
  }

  ghost predicate BuffersOk(m: Memory, s: Regs)
    requires Shape(s)
  {
    forall k :: 0 <= k < |s.fb| ==> DataOk(m, s.c, s.fb[k])
  }

  ghost predicate Inv(m: Memory, s: Regs, w: World) {
    && BusInv(s, w.order, w.bus) && SweepOk(s, w.clean)
    && RamsHoldMemory(m, s, w.clean) && LookupOk(m, s) && BuffersOk(m, s)
  }

  // ------------------------------------------------------------------ hits

  /** Or-ing any number of ways that hold the same line gives that line. */
  lemma {:induction false} OrOfEqualLines(s: Regs, n: nat, line: Line)
    requires Shape(s) && n <= s.c.ways && |line| == s.c.beats
    requires forall v :: 0 <= v < n && TagMatch(s, v) ==> s.lineRead[v] == line
    ensures HitData(s, n) == if exists v :: 0 <= v < n && TagMatch(s, v) then line else Zeros(s.c.beats)
  {
    if n == 0 {
    } else {
      OrOfEqualLines(s, n - 1, line);
      OrIdentities(line);
    }
  }

  lemma OrIdentities(line: Line)
    ensures OrLine(line, line) == line && OrLine(Zeros(|line|), line) == line
  {
    forall k | 0 <= k < |line| ensures line[k] | line[k] == line[k] && 0 | line[k] == line[k] {
      OrBeat(line[k]);
    }
  }

  lemma OrBeat(x: Beat)
    ensures x | x == x && 0 | x == x
  {
  }

  /** A hit returns memory's line at the looked-up address. */
  lemma HitReturnsMemory(m: Memory, s: Regs, k: nat)
    requires Shape(s) && LookupOk(m, s) && k < |s.fb| && HitIc1(s, k)
    ensures HitData(s, s.c.ways) == MemLine(m, s.c, s.fb[k].addr.line)
  {
    var line := MemLine(m, s.c, s.fb[k].addr.line);
    forall v | 0 <= v < s.c.ways && TagMatch(s, v) ensures s.lineRead[v] == line {
      assert WayOk(m, s.c, s.tagRead[v], s.lineRead[v], s.fb[k].addr.line.index);
    }
    OrOfEqualLines(s, s.c.ways, line);
  }

  // ------------------------------------------------------------------ fill data

  /** How a buffer's data moves. */
  lemma FillNext(s: Regs, i: Inputs, k: nat)
    requires Ready(s, i) && k < |s.fb| && s.fb[k].busy
    ensures var f, g := s.fb[k], BufferNext(s, i, k);
            && g.data == DataNext(s, i, k) && g.err == ErrNext(s, i, k) && g.addr == f.addr
            && g.hit == (HitIc1(s, k) || f.hit) && g.rvdCnt == IncIf(s.c, f.rvdCnt, RvdArb(s, i, k))
  {
    CountersNext(s, i, k);
    assert !Alloc(s, i, k);
    hide Alloc, ExtArb, RvdArb, HitIc1, RamArb, OutArb, HitData, SelWay, Done, RvdBeat, DoneSet, BusySet, Spec,
         DataNext, ErrNext;
  }

  lemma DataStep(m: Memory, s: Regs, w: World, i: Inputs, k: nat)
    requires Inv(m, s, w) && Legal(m, s, w.bus, i) && k < |s.fb|
    requires BufferOk(s.c, BufferNext(s, i, k))
    ensures DataOk(m, s.c, BufferNext(s, i, k))
  {
    var f, g := s.fb[k], BufferNext(s, i, k);
    if g.busy {
      OlderNext(s, i, k);
      if f.busy {
        FillNext(s, i, k);
        BusyCounters(s, w.order, w.bus, i, k);
        if HitIc1(s, k) {
          HitReturnsMemory(m, s, k);
        } else {
          BeatStep(m, s, w, i, k);
        }
      } else {
        AllocHasNoData(m, s, i, k);
      }
    }
  }

  lemma AllocHasNoData(m: Memory, s: Regs, i: Inputs, k: nat)
    requires Ready(s, i) && k < |s.fb| && Alloc(s, i, k) && LookupOk(m, s)
    ensures BufferNext(s, i, k).rvdCnt == 0 && !BufferNext(s, i, k).hit
  {
    CountersNext(s, i, k);
  }

  lemma InvGives(m: Memory, s: Regs, w: World)
    requires Inv(m, s, w)
    ensures Age(s, w.order) && Shape(s)
  {
  }

  lemma InvBuffer(m: Memory, s: Regs, w: World, k: nat)
    requires Inv(m, s, w) && k < |s.fb| && s.fb[k].busy
    ensures Shape(s) && BufferOk(s.c, s.fb[k]) && s.fb[k].rvdCnt <= s.fb[k].extCnt <= s.c.beats
  {
  }

  lemma BeatStep(m: Memory, s: Regs, w: World, i: Inputs, k: nat)
    requires Inv(m, s, w) && Legal(m, s, w.bus, i) && k < |s.fb| && s.fb[k].busy && !HitIc1(s, k)
    requires var f, g := s.fb[k], BufferNext(s, i, k);
             && g.data == DataNext(s, i, k) && g.err == ErrNext(s, i, k) && g.addr == f.addr
             && g.hit == f.hit && BufferOk(s.c, g)
             && g.rvdCnt == f.rvdCnt + (if i.rvalid && w.bus[0].owner == k then 1 else 0) <= f.extCnt
    ensures DataOk(m, s.c, BufferNext(s, i, k))
  {
    hide Inv, Shape, BufferNext, RvdArb, ErrNext, Legal, ExtArb, DataNext, DataOk;
    InvBuffer(m, s, w, k);
    var f, g := s.fb[k], BufferNext(s, i, k);
    ResponseIsMemory(m, s, w, i, k);
    forall b | 0 <= b < s.c.beats && Received(s.c, g, b) ensures g.err[b] || g.data[b] == m(g.addr.line, b) {
      ErrsAndDataNext(m, s, w, i, k, b);
    }
    DataOkIntro(m, s.c, g);
  }

  lemma DataOkIntro(m: Memory, c: Config, f: Buffer)
    requires BufferOk(c, f)
    requires forall b :: 0 <= b < c.beats && Received(c, f, b) ==> f.err[b] || f.data[b] == m(f.addr.line, b)
    ensures DataOk(m, c, f)
  {
  }

  /** The response taken by a buffer is memory's beat at the buffer's offset. */
  lemma ResponseIsMemory(m: Memory, s: Regs, w: World, i: Inputs, k: nat)
    requires Inv(m, s, w) && Legal(m, s, w.bus, i) && k < |s.fb| && s.fb[k].busy
    ensures i.rvalid ==> (RvdArb(s, i, k) <==> w.bus[0].owner == k)
    ensures RvdArb(s, i, k) ==> i.rvalid && (!i.err ==> i.rdata == m(s.fb[k].addr.line, RvdOff(s.c, s.fb[k])))
  {
    if i.rvalid {
      ResponseReachesOwner(s, w.order, w.bus, i, k);
    }
  }

  /** One beat of a buffer over a cycle. */
  lemma ErrsAndDataNext(m: Memory, s: Regs, w: World, i: Inputs, k: nat, b: nat)
    requires Inv(m, s, w) && k < |s.fb| && s.fb[k].busy && b < s.c.beats && !HitIc1(s, k)
    requires RvdArb(s, i, k) && !i.err ==> i.rdata == m(s.fb[k].addr.line, RvdOff(s.c, s.fb[k]))
    requires Turn(s.c, s.fb[k], b) < s.fb[k].rvdCnt + (if RvdArb(s, i, k) then 1 else 0) || s.fb[k].hit
    requires RvdArb(s, i, k) ==> s.fb[k].rvdCnt < s.c.beats
    ensures ErrNext(s, i, k)[b] || DataNext(s, i, k)[b] == m(s.fb[k].addr.line, b)
  {
    var f := s.fb[k];
    assert BufferOk(s.c, f) && DataOk(m, s.c, f);
    hide Inv, Shape, RvdArb, ExtArb, HitIc1;
    if Received(s.c, f, b) {
      assert f.err[b] || f.data[b] == m(f.addr.line, b);
    } else {
      assert b == RvdOff(s.c, f);
    }
  }

  // ------------------------------------------------------------------ RAMs and lookup

  /** What a buffer writes to the RAMs is a complete line of memory. */
  lemma WritesMemory(m: Memory, s: Regs, w: World, k: nat)
    requires Inv(m, s, w) && k < |s.fb| && RamReq(s, k)
    ensures s.fb[k].data == MemLine(m, s.c, s.fb[k].addr.line)
  {
    var f := s.fb[k];
    assert DataOk(m, s.c, f) && BufferOk(s.c, f);
    assert f.rvdCnt <= f.extCnt <= s.c.beats;
    hide Inv, Shape;
    forall b | 0 <= b < s.c.beats ensures f.data[b] == m(f.addr.line, b) {
      assert Received(s.c, f, b) && !f.err[b];
    }
  }

  /** The next content of one RAM entry. */
  lemma EntryNext(s: Regs, i: Inputs, v: nat, x: nat)
    requires Ready(s, i) && v < s.c.ways && x < s.c.lines
    ensures RamsOk(s.c, TagsNext(s, i), LinesNext(s, i))
    ensures var tag, line, k := TagsNext(s, i)[v][x], LinesNext(s, i)[v][x], RamPick(s, i, 0);
            || (tag == s.tags[v][x] && line == s.lines[v][x] && (s.invalProg ==> x != s.invalIndex))
            || (!tag.valid && s.invalProg && x == s.invalIndex)
            || (k < |s.fb| && RamReq(s, k) && !s.invalProg && x == s.fb[k].addr.line.index
                && tag == Tag(true, s.fb[k].addr.line.tag) && line == s.fb[k].data)
  {
    RamsShape(s, i);
    var k := RamPick(s, i, 0);
    assert k < |s.fb| ==> BufferOk(s.c, s.fb[k]) && RamReq(s, k);
    hide Lookup, AnyRamReq, RamArb, RamReq;
    assert |s.tags[v]| == s.c.lines && |s.lines[v]| == s.c.lines;
  }

  lemma RamsStep(m: Memory, s: Regs, w: World, i: Inputs)
    requires Inv(m, s, w) && Legal(m, s, w.bus, i) && Shape(Step(s, i))
    ensures RamsHoldMemory(m, Step(s, i), CleanNext(s, w.clean))
    ensures SweepOk(Step(s, i), CleanNext(s, w.clean))
  {
    var t, k, clean := Step(s, i), RamPick(s, i, 0), CleanNext(s, w.clean);
    RamsShape(s, i);
    assert t.tags == TagsNext(s, i) && t.lines == LinesNext(s, i) && t.c == s.c;
    if k < |s.fb| && RamReq(s, k) {
      WritesMemory(m, s, w, k);
    }
    assert RamsHoldMemory(m, s, w.clean);
    hide Step, Inv, TagsNext, LinesNext, Legal;
    forall v, x | 0 <= v < s.c.ways && 0 <= x < s.c.lines && x < clean
      ensures WayOk(m, t.c, t.tags[v][x], t.lines[v][x], x)
    {
      EntryNext(s, i, v, x);
      hide Shape, RamsOk;
      assert x < w.clean ==> WayOk(m, s.c, s.tags[v][x], s.lines[v][x], x);
    }
  }

  /** What reaches IC1. */
  lemma ReadNext(s: Regs, i: Inputs, v: nat)
    requires Ready(s, i) && v < s.c.ways && LookupActual(s, i)
    ensures var a, t := LookupAddr(s, i).line, Step(s, i);
            && |t.tagRead| == |t.lineRead| == s.c.ways && a.index < s.c.lines
            && t.tagRead[v] == s.tags[v][a.index] && t.lineRead[v] == s.lines[v][a.index]
            && t.fillIn == LowestFree(s, 0) && t.lookupTag == a.tag
  {
    hide BufferNext, TagsNext, LinesNext, Lookup;
  }

  lemma LookupStep(m: Memory, s: Regs, w: World, i: Inputs)
    requires Inv(m, s, w) && Legal(m, s, w.bus, i) && Shape(Step(s, i))
    ensures LookupOk(m, Step(s, i))
  {
    var t := Step(s, i);
    assert t.lookupValid == LookupActual(s, i) && t.c == s.c;
    if t.lookupValid {
      var a, k := LookupAddr(s, i).line, LowestFree(s, 0);
      AllocIsLowestFree(s, i, k);
      CountersNext(s, i, k);
      OlderNext(s, i, k);
      BuffersStep(s, i);
      ReadNext(s, i, 0);
      assert t.fb[t.fillIn].busy && t.fb[t.fillIn].addr.line == a;
      forall v | 0 <= v < s.c.ways ensures WayOk(m, s.c, t.tagRead[v], t.lineRead[v], a.index) {
        ReadNext(s, i, v);
        assert WayOk(m, s.c, s.tags[v][a.index], s.lines[v][a.index], a.index);
      }
    }
  }

  lemma InvStep(m: Memory, s: Regs, w: World, i: Inputs)
    requires Inv(m, s, w) && Legal(m, s, w.bus, i)
    ensures Inv(m, Step(s, i), WorldStep(s, w, i))
  {
    var t := Step(s, i);
    BusInvStep(s, w.order, w.bus, i);
    RamsStep(m, s, w, i);
    LookupStep(m, s, w, i);
    BuffersStep(s, i);
    hide Step, BufferNext, Inv, BusInv, Legal, LookupOk, DataOk, RamsHoldMemory, SweepOk, OrderNext, BusNext;
    forall k | 0 <= k < |s.fb| ensures DataOk(m, t.c, t.fb[k]) {
      DataStep(m, s, w, i, k);
    }
  }

  // ------------------------------------------------------------------ runs

  /** Reset clears the control registers; the RAMs hold anything. */
  predicate IsReset(s: Regs) {
    && Shape(s) && !s.lookupValid && !s.resetInval && !s.invalProg
    && forall k :: 0 <= k < |s.fb| ==> !s.fb[k].busy
  }

  const NOTHING := World([], [], 0)

  lemma InvReset(m: Memory, s: Regs)
    requires IsReset(s)
    ensures Inv(m, s, NOTHING)
  {
  }

  ghost predicate LegalRun(m: Memory, s: Regs, w: World, run: seq<Inputs>)
    decreases |run|
  {
    run == [] ||
    (Legal(m, s, w.bus, run[0]) && LegalRun(m, Step(s, run[0]), WorldStep(s, w, run[0]), run[1..]))
  }

  ghost function RunState(s: Regs, run: seq<Inputs>): Regs
    decreases |run|
  {
    if run == [] || !Ready(s, run[0]) then s else RunState(Step(s, run[0]), run[1..])
  }

  ghost function RunWorld(s: Regs, w: World, run: seq<Inputs>): World
    decreases |run|
  {
    if run == [] || !Ready(s, run[0]) then w else RunWorld(Step(s, run[0]), WorldStep(s, w, run[0]), run[1..])
  }

  lemma {:induction false} InvRun(m: Memory, s: Regs, w: World, run: seq<Inputs>)
    requires Inv(m, s, w) && LegalRun(m, s, w, run)
    ensures Inv(m, RunState(s, run), RunWorld(s, w, run))
    decreases |run|
  {
    if run == [] {
    } else {
      InvStep(m, s, w, run[0]);
      InvRun(m, Step(s, run[0]), WorldStep(s, w, run[0]), run[1..]);
    }
  }

  /** Whatever hits is memory's line. */
  ghost predicate HitsAreMemory(m: Memory, s: Regs)
    requires Shape(s)
  {
    forall k :: 0 <= k < |s.fb| && HitIc1(s, k) ==> HitData(s, s.c.ways) == MemLine(m, s.c, s.fb[k].addr.line)
  }

  /** From reset, after any run: once no sweep is in progress every valid way of every line holds
      memory's data, and whatever hits, in however many ways, is memory's line. */
  lemma CacheHoldsMemory(m: Memory, s: Regs, run: seq<Inputs>)
    requires IsReset(s) && LegalRun(m, s, NOTHING, run)
    ensures var t := RunState(s, run);
            && Shape(t)
            && (t.resetInval && !t.invalProg ==> RamsHoldMemory(m, t, t.c.lines))
            && HitsAreMemory(m, t)
  {
    InvReset(m, s);
    InvRun(m, s, NOTHING, run);
    var t, w := RunState(s, run), RunWorld(s, NOTHING, run);
    forall k | 0 <= k < |t.fb| && HitIc1(t, k) ensures HitData(t, t.c.ways) == MemLine(m, t.c, t.fb[k].addr.line) {
      HitReturnsMemory(m, t, k);
    }
  }

  /** From reset, after any run: in age order the bus owes exactly what the counters expect, and a
      response goes to the buffer it was fetched for, at the beat it was fetched for. */
  lemma ResponsesAreAttributed(m: Memory, s: Regs, run: seq<Inputs>, i: Inputs, k: nat)
    requires IsReset(s) && LegalRun(m, s, NOTHING, run)
    ensures var t, w := RunState(s, run), RunWorld(s, NOTHING, run);
            && BusInv(t, w.order, w.bus)
            && (i.rvalid && w.bus != [] && k < |t.fb| ==>
                 && (RvdArb(t, i, k) <==> k == w.bus[0].owner)
                 && (k == w.bus[0].owner ==> w.bus[0].addr == Addr(t.fb[k].addr.line, RvdOff(t.c, t.fb[k]))))
  {
    InvReset(m, s);
    InvRun(m, s, NOTHING, run);
    var t, w := RunState(s, run), RunWorld(s, NOTHING, run);
    if i.rvalid && w.bus != [] && k < |t.fb| {
      ResponseReachesOwner(t, w.order, w.bus, i, k);
    }
  }

  // ------------------------------------------------------------------ the first cycle

  /** With `i` in the first cycle after reset, whatever the RAMs held at power-up: every memory and
      every run from the second cycle on only ever sees memory's data. */
  ghost predicate FirstCycleIsSafe(c: Config, i: Inputs) {
    forall m: Memory, s: Regs, run: seq<Inputs> ::
      s.c == c && IsReset(s) && Ready(s, i) && LegalRun(m, Step(s, i), WorldStep(s, NOTHING, i), run)
      ==> Shape(RunState(Step(s, i), run)) && HitsAreMemory(m, RunState(Step(s, i), run))
  }

  /** After reset every buffer is free, so only the inputs decide whether the RAMs are looked up. */
  lemma {:induction false} FillLevelAtReset(s: Regs, n: nat)
    requires IsReset(s) && n <= |s.fb|
    ensures FillLevel(s, n) == 0
  {
    if n > 0 {
      FillLevelAtReset(s, n - 1);
    }
  }

  lemma LookupAtReset(s: Regs, i: Inputs)
    requires IsReset(s)
    ensures LookupActual(s, i) <==> i.req && i.enable
    ensures Lookup(s, i) ==> LowestFree(s, 0) == 0
  {
    FillLevelAtReset(s, s.c.buffers);
    assert !s.fb[0].busy;
  }

  function Ones(n: nat): (r: Line)
    ensures |r| == n
  {
    seq(n, k => 1)
  }

  /** Power-up content of the RAMs in which everything looks like a hit for the address looked up. */
  function PowerUp(c: Config, at: Addr): (s: Regs)
    requires ConfigOk(c) && AddrOk(c, at)
    ensures IsReset(s) && s.c == c && s.prefetch == at
    ensures forall v, x :: 0 <= v < c.ways && 0 <= x < c.lines ==>
              s.tags[v][x] == Tag(true, at.line.tag) && s.lines[v][x] == Ones(c.beats)
  {
    var f := Buffer(false, {}, false, false, false, 0, false, 0, false, 0, at, 0, Zeros(c.beats),
                    seq(c.beats, b => false));
    Regs(c, seq(c.buffers, k => f),
         seq(c.ways, v => seq(c.lines, x => Tag(true, at.line.tag))),
         seq(c.ways, v => seq(c.lines, x => Ones(c.beats))),
         seq(c.ways, v => Tag(false, 0)), seq(c.ways, v => Zeros(c.beats)),
         false, 0, 0, 0, at, 0, false, false, 0)
  }

  /** A lookup in the first cycle can hit on what the RAMs held at power-up. */
  lemma PowerUpHits(c: Config, i: Inputs)
    requires ConfigOk(c) && AddrOk(c, i.addr) && i.req && i.enable
    ensures var t := Step(PowerUp(c, i.addr), i);
            Shape(t) && t.c == c && 0 < |t.fb| && HitIc1(t, 0) && HitData(t, c.ways) == Ones(c.beats)
  {
    var s := PowerUp(c, i.addr);
    var t := Step(s, i);
    LookupAtReset(s, i);
    ShapeStep(s, i);
    assert LookupAddr(s, i) == i.addr;
    forall v | 0 <= v < c.ways ensures TagMatch(t, v) && t.lineRead[v] == Ones(c.beats) {
      ReadNext(s, i, v);
      assert s.tags[v][i.addr.line.index] == Tag(true, i.addr.line.tag);
    }
    ReadNext(s, i, 0);
    hide Step, PowerUp, LookupActual, Lookup;
    OrOfEqualLines(t, c.ways, Ones(c.beats));
    assert TagMatch(t, 0);
  }

  /** The cache is safe from the first cycle on exactly if it is disabled or not asked in that
      cycle, in every configuration. `Legal` asks for no more than that. */
  lemma FirstCycleIsSafeIff(c: Config, i: Inputs)
    requires ConfigOk(c) && AddrOk(c, i.addr) && !i.rvalid
    ensures FirstCycleIsSafe(c, i) <==> !(i.req && i.enable)
  {
    if i.req && i.enable {
      UnsafeFirstCycle(c, i);
    } else {
      forall m: Memory, s: Regs, run: seq<Inputs> |
        s.c == c && IsReset(s) && Ready(s, i) && LegalRun(m, Step(s, i), WorldStep(s, NOTHING, i), run)
        ensures Shape(RunState(Step(s, i), run)) && HitsAreMemory(m, RunState(Step(s, i), run))
      {
        SafeFirstCycle(m, s, i, run);
      }
    }
  }

  lemma UnsafeFirstCycle(c: Config, i: Inputs)
    requires ConfigOk(c) && AddrOk(c, i.addr) && !i.rvalid && i.req && i.enable
    ensures !FirstCycleIsSafe(c, i)
  {
    hide Step, PowerUp, WorldStep;
    var m: Memory := (a: LineAddr, b: nat) => 0;
    var s := PowerUp(c, i.addr);
    var t := Step(s, i);
    PowerUpHits(c, i);
    var line := MemLine(m, c, t.fb[0].addr.line);
    assert Ones(c.beats)[0] == 1 && line[0] == 0;
    assert LegalRun(m, t, WorldStep(s, NOTHING, i), []) && RunState(t, []) == t;
  }

  lemma SafeFirstCycle(m: Memory, s: Regs, i: Inputs, run: seq<Inputs>)
    requires IsReset(s) && Ready(s, i) && !i.rvalid && !(i.req && i.enable)
    requires LegalRun(m, Step(s, i), WorldStep(s, NOTHING, i), run)
    ensures Shape(RunState(Step(s, i), run)) && HitsAreMemory(m, RunState(Step(s, i), run))
  {
    LookupAtReset(s, i);
    var whole := [i] + run;
    assert whole[0] == i && whole[1..] == run;
    assert Legal(m, s, NOTHING.bus, i);
    hide Step, WorldStep, LookupActual, IsReset, Ready, Legal;
    CacheHoldsMemory(m, s, whole);
    assert RunState(s, whole) == RunState(Step(s, i), run) by { LegalIsReady(m, s, i); }
  }

  lemma LegalIsReady(m: Memory, s: Regs, i: Inputs)
    requires Legal(m, s, [], i)
    ensures Ready(s, i)
  {
  }
}
