/** rtl/ibex_icache.sv without ECC: lookup pipeline, fill buffers, tag and data RAMs and the
    invalidation sweep, for any number of fill buffers, ways, lines and beats per line. One-hot
    registers are kept as the number of their set bit, bit vectors over buffers as sets. */
module ICache {

  datatype Config = Config(buffers: nat, ways: nat, lines: nat, beats: nat, tags: nat,
                           specRequest: bool, branchCache: bool)

  predicate ConfigOk(c: Config) {
    c.buffers >= 2 && c.ways >= 1 && c.lines >= 1 && c.beats >= 2 && c.tags >= 1
  }

  const CACHE_AHEAD := 2

  type Beat = bv32
  type Line = seq<Beat>

  /** An address cut at the cache's field boundaries: tag, index, beat within the line. */
  datatype LineAddr = LineAddr(tag: nat, index: nat)
  datatype Addr = Addr(line: LineAddr, beat: nat)

  datatype Tag = Tag(valid: bool, tag: nat)

  /** One fill buffer. */
  datatype Buffer = Buffer(busy: bool, older: set<nat>, stale: bool, cache: bool, hit: bool,
                           extCnt: nat, extHold: bool, rvdCnt: nat, ramDone: bool, outCnt: nat,
                           addr: Addr, way: nat, data: Line, err: seq<bool>)

  datatype Regs = Regs(c: Config, fb: seq<Buffer>,
                       tags: seq<seq<Tag>>, lines: seq<seq<Line>>, tagRead: seq<Tag>, lineRead: seq<Line>,
                       lookupValid: bool, lookupTag: nat, fillIn: nat, roundRobin: nat,
                       prefetch: Addr, cacheCnt: nat,
                       resetInval: bool, invalProg: bool, invalIndex: nat)

  datatype Inputs = Inputs(req: bool, branch: bool, addr: Addr, outputReady: bool,
                           gnt: bool, rdata: Beat, err: bool, pmpErr: bool, rvalid: bool,
                           enable: bool, inval: bool)

  predicate LineAddrOk(c: Config, a: LineAddr) { a.tag < c.tags && a.index < c.lines }

  predicate AddrOk(c: Config, a: Addr) { LineAddrOk(c, a.line) && a.beat < c.beats }

  predicate BufferOk(c: Config, f: Buffer) {
    && f.extCnt < 2 * c.beats && f.rvdCnt < 2 * c.beats && f.outCnt < 2 * c.beats
    && AddrOk(c, f.addr) && f.way < c.ways && |f.data| == c.beats && |f.err| == c.beats
  }

  predicate RamsOk(c: Config, tags: seq<seq<Tag>>, lines: seq<seq<Line>>) {
    && |tags| == c.ways && |lines| == c.ways
    && (forall w :: 0 <= w < c.ways ==> |tags[w]| == c.lines)
    && (forall w :: 0 <= w < c.ways ==> |lines[w]| == c.lines)
    && (forall w, x :: 0 <= w < c.ways && 0 <= x < c.lines ==> |lines[w][x]| == c.beats)
  }

  predicate Shape(s: Regs) {
    && ConfigOk(s.c)
    && |s.fb| == s.c.buffers && (forall k :: 0 <= k < |s.fb| ==> BufferOk(s.c, s.fb[k]))
    && RamsOk(s.c, s.tags, s.lines)
    && |s.tagRead| == s.c.ways && |s.lineRead| == s.c.ways
    && (forall w :: 0 <= w < s.c.ways ==> |s.lineRead[w]| == s.c.beats)
    && s.fillIn < s.c.buffers && s.roundRobin < s.c.ways
    && AddrOk(s.c, s.prefetch) && s.invalIndex < s.c.lines
  }

  predicate Ready(s: Regs, i: Inputs) { Shape(s) && AddrOk(s.c, i.addr) }

  // ------------------------------------------------------------------ counters

  /** Counters have one bit more than a beat number: that bit is `Full`, the others are `Low`. */
  predicate Full(c: Config, n: nat) { n >= c.beats }

  function Low(c: Config, n: nat): nat { if n >= c.beats then n - c.beats else n }

  function Inc(c: Config, n: nat): nat { if n + 1 == 2 * c.beats then 0 else n + 1 }

  function IncIf(c: Config, n: nat, b: bool): nat { if b then Inc(c, n) else n }

  function Wrap2(c: Config, n: nat): nat { if n >= 2 * c.beats then n - 2 * c.beats else n }

  function ExtOff(c: Config, f: Buffer): nat { Low(c, f.addr.beat + Low(c, f.extCnt)) }

  function RvdBeat(c: Config, f: Buffer): nat { Wrap2(c, f.addr.beat + f.rvdCnt) }

  function RvdOff(c: Config, f: Buffer): nat { Low(c, RvdBeat(c, f)) }

  predicate AnyErr(f: Buffer) { true in f.err }

  // ------------------------------------------------------------------ lookup (IC0)

  predicate AllBusy(s: Regs) { forall k :: 0 <= k < |s.fb| ==> s.fb[k].busy }

  /** Buffers in use that no branch has made stale, among the first `n`. */
  function FillLevel(s: Regs, n: nat): nat
    requires n <= |s.fb|
  {
    if n == 0 then 0
    else FillLevel(s, n - 1) + if s.fb[n - 1].busy && !s.fb[n - 1].stale then 1 else 0
  }

  predicate Throttle(s: Regs)
    requires Shape(s)
  {
    FillLevel(s, s.c.buffers) > s.c.buffers - 2
  }

  predicate Lookup(s: Regs, i: Inputs)
    requires Shape(s)
  {
    i.req && !AllBusy(s) && (i.branch || !Throttle(s))
  }

  function LookupAddr(s: Regs, i: Inputs): Addr { if i.branch then i.addr else s.prefetch }

  function NextLine(c: Config, a: LineAddr): LineAddr {
    if a.index + 1 < c.lines then LineAddr(a.tag, a.index + 1)
    else LineAddr(if a.tag + 1 < c.tags then a.tag + 1 else 0, 0)
  }

  function PrefetchNext(s: Regs, i: Inputs): Addr
    requires Shape(s)
  {
    if Lookup(s, i) then Addr(NextLine(s.c, LookupAddr(s, i).line), 0)
    else if i.branch then i.addr
    else s.prefetch
  }

  predicate LookupActual(s: Regs, i: Inputs)
    requires Shape(s)
  {
    Lookup(s, i) && i.enable && !s.invalProg
  }

  function CacheCntNext(s: Regs, i: Inputs): nat
    requires Shape(s)
  {
    if i.branch then CACHE_AHEAD
    else if Lookup(s, i) && s.cacheCnt > 0 then s.cacheCnt - 1
    else s.cacheCnt
  }

  predicate CacheNew(s: Regs, i: Inputs) {
    (s.c.branchCache ==> i.branch || s.cacheCnt > 0) && i.enable && !i.inval && !s.invalProg
  }

  // ------------------------------------------------------------------ tag match (IC1)

  predicate TagMatch(s: Regs, w: nat)
    requires w < |s.tagRead|
  {
    s.tagRead[w] == Tag(true, s.lookupTag)
  }

  predicate TagHit(s: Regs) { exists w :: 0 <= w < |s.tagRead| && TagMatch(s, w) }

  function OrLine(a: Line, b: Line): (r: Line)
    requires |a| == |b|
    ensures |r| == |a|
  {
    seq(|a|, k requires 0 <= k < |a| && |a| == |b| => a[k] | b[k])
  }

  function Zeros(n: nat): (r: Line)
    ensures |r| == n
  {
    seq(n, k => 0)
  }

  /** The lines of the matching ways among the first `n`, or-ed together. */
  function HitData(s: Regs, n: nat): (r: Line)
    requires Shape(s) && n <= s.c.ways
    ensures |r| == s.c.beats
  {
    if n == 0 then Zeros(s.c.beats)
    else if TagMatch(s, n - 1) then OrLine(HitData(s, n - 1), s.lineRead[n - 1])
    else HitData(s, n - 1)
  }

  /** The lowest way without a valid tag, from `w` up; the number of ways when there is none. */
  function LowestInvalid(s: Regs, w: nat): (r: nat)
    requires w <= |s.tagRead|
    ensures r <= |s.tagRead|
    decreases |s.tagRead| - w
  {
    if w == |s.tagRead| || !s.tagRead[w].valid then w else LowestInvalid(s, w + 1)
  }

  function SelWay(s: Regs): (r: nat)
    requires Shape(s)
    ensures r < s.c.ways
  {
    if LowestInvalid(s, 0) < s.c.ways then LowestInvalid(s, 0) else s.roundRobin
  }

  function RoundRobinNext(s: Regs): nat
    requires Shape(s)
  {
    if !s.lookupValid then s.roundRobin
    else if s.roundRobin + 1 < s.c.ways then s.roundRobin + 1
    else 0
  }

  // ------------------------------------------------------------------ fill buffers

  predicate GntOrPmpErr(i: Inputs) { i.gnt || i.pmpErr }
  predicate GntNotPmpErr(i: Inputs) { i.gnt && !i.pmpErr }

  predicate AllocSel(s: Regs, k: nat)
    requires k < |s.fb|
  {
    !s.fb[k].busy && forall j :: 0 <= j < k ==> s.fb[j].busy
  }

  predicate Alloc(s: Regs, i: Inputs, k: nat)
    requires Shape(s) && k < |s.fb|
  {
    AllocSel(s, k) && Lookup(s, i)
  }

  predicate HitIc1(s: Regs, k: nat)
    requires Shape(s)
  {
    s.lookupValid && s.fillIn == k && TagHit(s)
  }

  predicate ExtDone(s: Regs, i: Inputs, k: nat)
    requires Shape(s) && k < |s.fb|
  {
    var f := s.fb[k];
    && (Full(s.c, f.extCnt) || HitIc1(s, k) || f.hit || f.err[ExtOff(s.c, f)]
        || (!f.cache && (i.branch || f.stale)))
    && !f.extHold
  }

  predicate ExtReq(s: Regs, i: Inputs, k: nat)
    requires Shape(s) && k < |s.fb|
  {
    s.fb[k].busy && !ExtDone(s, i, k)
  }

  predicate AnyExtReq(s: Regs, i: Inputs)
    requires Shape(s)
  {
    exists k :: 0 <= k < |s.fb| && ExtReq(s, i, k)
  }

  predicate ExtArb(s: Regs, i: Inputs, k: nat)
    requires Shape(s) && k < |s.fb|
  {
    ExtReq(s, i, k) && forall j :: 0 <= j < |s.fb| && j in s.fb[k].older ==> !ExtReq(s, i, j)
  }

  predicate Spec(s: Regs, i: Inputs)
    requires Shape(s)
  {
    (s.c.specRequest || i.branch) && !AnyExtReq(s, i)
  }

  predicate RvdDone(s: Regs, i: Inputs, k: nat)
    requires Shape(s) && k < |s.fb|
  {
    ExtDone(s, i, k) && s.fb[k].rvdCnt == s.fb[k].extCnt
  }

  predicate RvdExp(s: Regs, i: Inputs, k: nat)
    requires Shape(s) && k < |s.fb|
  {
    s.fb[k].busy && !RvdDone(s, i, k)
  }

  predicate RvdArb(s: Regs, i: Inputs, k: nat)
    requires Shape(s) && k < |s.fb|
  {
    && i.rvalid && RvdExp(s, i, k)
    && forall j :: 0 <= j < |s.fb| && j in s.fb[k].older ==> !RvdExp(s, i, j)
  }

  predicate RamReq(s: Regs, k: nat)
    requires Shape(s) && k < |s.fb|
  {
    var f := s.fb[k];
    f.busy && Full(s.c, f.rvdCnt) && !f.hit && f.cache && !AnyErr(f) && !f.ramDone
  }

  predicate AnyRamReq(s: Regs)
    requires Shape(s)
  {
    exists k :: 0 <= k < |s.fb| && RamReq(s, k)
  }

  /** Lookups have priority over cache writes. */
  predicate FillGrant(s: Regs, i: Inputs)
    requires Shape(s)
  {
    AnyRamReq(s) && !Lookup(s, i) && !s.invalProg
  }

  predicate RamArb(s: Regs, i: Inputs, k: nat)
    requires Shape(s) && k < |s.fb|
  {
    && RamReq(s, k) && FillGrant(s, i)
    && forall j :: 0 <= j < |s.fb| && j in s.fb[k].older ==> !RamReq(s, j)
  }

  /** Still has data to output to the core. */
  predicate Outputs(s: Regs, k: nat)
    requires Shape(s) && k < |s.fb|
  {
    s.fb[k].busy && !Full(s.c, s.fb[k].outCnt) && !s.fb[k].stale
  }

  predicate DataSel(s: Regs, k: nat)
    requires Shape(s) && k < |s.fb|
  {
    forall j :: 0 <= j < |s.fb| && j in s.fb[k].older ==> !Outputs(s, j)
  }

  predicate OutReq(s: Regs, i: Inputs, k: nat)
    requires Shape(s) && k < |s.fb|
  {
    var f := s.fb[k];
    && Outputs(s, k)
    && (HitIc1(s, k) || f.hit || f.err[Low(s.c, f.outCnt)]
        || RvdBeat(s.c, f) > f.outCnt || RvdArb(s, i, k))
  }

  predicate OutArb(s: Regs, i: Inputs, k: nat)
    requires Shape(s) && k < |s.fb|
  {
    OutReq(s, i, k) && DataSel(s, k)
  }

  /** All actions of the buffer are completed. */
  predicate Done(s: Regs, i: Inputs, k: nat)
    requires Shape(s) && k < |s.fb|
  {
    var f := s.fb[k];
    && (f.ramDone || f.hit || !f.cache || AnyErr(f))
    && (Full(s.c, f.outCnt) || f.stale || i.branch)
    && RvdDone(s, i, k)
  }

  function BusySet(s: Regs): set<nat> { set k | 0 <= k < |s.fb| && s.fb[k].busy }

  function DoneSet(s: Regs, i: Inputs): set<nat>
    requires Shape(s)
  {
    set k | 0 <= k < |s.fb| && Done(s, i, k)
  }

  // ------------------------------------------------------------------ fill buffer registers

  function ErrNext(s: Regs, i: Inputs, k: nat): (r: seq<bool>)
    requires Shape(s) && k < |s.fb|
    ensures |r| == s.c.beats
  {
    var f := s.fb[k];
    seq(s.c.beats, b requires 0 <= b < s.c.beats && |f.err| == s.c.beats && Shape(s) && k < |s.fb| =>
      || (ExtArb(s, i, k) && i.pmpErr && ExtOff(s.c, f) == b)
      || (RvdArb(s, i, k) && i.err && RvdOff(s.c, f) == b)
      || (f.busy && f.err[b]))
  }

  function DataNext(s: Regs, i: Inputs, k: nat): (r: Line)
    requires Shape(s) && k < |s.fb|
    ensures |r| == s.c.beats
  {
    var f := s.fb[k];
    if HitIc1(s, k) then HitData(s, s.c.ways)
    else if RvdArb(s, i, k) && RvdOff(s.c, f) < s.c.beats then f.data[RvdOff(s.c, f) := i.rdata]
    else f.data
  }

  /** The registers behind the buffer's general enable. */
  function Tracked(s: Regs, i: Inputs, k: nat): Buffer
    requires Shape(s) && k < |s.fb|
  {
    var f, alloc := s.fb[k], Alloc(s, i, k);
    f.(busy := alloc || (f.busy && !Done(s, i, k)),
       older := (if alloc then BusySet(s) else f.older) - DoneSet(s, i),
       stale := f.busy && (i.branch || f.stale),
       cache := (alloc && CacheNew(s, i)) || (f.cache && f.busy),
       hit := HitIc1(s, k) || (f.hit && f.busy),
       extCnt := if alloc then (if Spec(s, i) && GntNotPmpErr(i) then 1 else 0)
                 else IncIf(s.c, f.extCnt, ExtArb(s, i, k) && GntNotPmpErr(i)),
       extHold := (alloc && Spec(s, i) && !GntOrPmpErr(i)) || (ExtArb(s, i, k) && !GntOrPmpErr(i)),
       rvdCnt := if alloc then 0 else IncIf(s.c, f.rvdCnt, RvdArb(s, i, k)),
       ramDone := RamArb(s, i, k) || (f.ramDone && f.busy),
       outCnt := if alloc then LookupAddr(s, i).beat
                 else IncIf(s.c, f.outCnt, OutArb(s, i, k) && i.outputReady),
       err := ErrNext(s, i, k))
  }

  function BufferNext(s: Regs, i: Inputs, k: nat): Buffer
    requires Shape(s) && k < |s.fb|
  {
    var f, alloc := s.fb[k], Alloc(s, i, k);
    (if alloc || f.busy then Tracked(s, i, k) else f).(
      addr := if alloc then LookupAddr(s, i) else f.addr,
      way := if s.lookupValid && s.fillIn == k then SelWay(s) else f.way,
      data := DataNext(s, i, k))
  }

  function BuffersNext(s: Regs, i: Inputs): (r: seq<Buffer>)
    requires Shape(s)
  {
    seq(|s.fb|, k requires 0 <= k < |s.fb| && Shape(s) => BufferNext(s, i, k))
  }

  // ------------------------------------------------------------------ RAMs

  /** The buffer that writes to the RAMs, searched from `k` up; the number of buffers for none. */
  function RamPick(s: Regs, i: Inputs, k: nat): (r: nat)
    requires Shape(s) && k <= |s.fb|
    ensures r < |s.fb| ==> RamArb(s, i, r)
    ensures r == |s.fb| ==> forall j :: k <= j < |s.fb| ==> !RamArb(s, i, j)
    ensures r <= |s.fb|
    decreases |s.fb| - k
  {
    if k == |s.fb| || RamArb(s, i, k) then k else RamPick(s, i, k + 1)
  }

  function TagsNext(s: Regs, i: Inputs): seq<seq<Tag>>
    requires Shape(s)
  {
    var k := RamPick(s, i, 0);
    if s.invalProg
    then seq(s.c.ways, w requires 0 <= w < s.c.ways && Shape(s) => s.tags[w][s.invalIndex := Tag(false, 0)])
    else if k < |s.fb|
    then var f := s.fb[k]; s.tags[f.way := s.tags[f.way][f.addr.line.index := Tag(true, f.addr.line.tag)]]
    else s.tags
  }

  /** A sweep clobbers the data of the index it invalidates if a request comes in the same cycle. */
  function LinesNext(s: Regs, i: Inputs): seq<seq<Line>>
    requires Shape(s)
  {
    var k := RamPick(s, i, 0);
    if s.invalProg
    then if !Lookup(s, i) && !AnyRamReq(s) then s.lines
         else seq(s.c.ways, w requires 0 <= w < s.c.ways && Shape(s) => s.lines[w][s.invalIndex := Zeros(s.c.beats)])
    else if k < |s.fb|
    then var f := s.fb[k]; s.lines[f.way := s.lines[f.way][f.addr.line.index := f.data]]
    else s.lines
  }

  predicate Reads(s: Regs, i: Inputs)
    requires Shape(s)
  {
    Lookup(s, i) && !s.invalProg
  }

  function TagReadNext(s: Regs, i: Inputs): seq<Tag>
    requires Ready(s, i)
  {
    if !Reads(s, i) then s.tagRead
    else seq(s.c.ways, w requires 0 <= w < s.c.ways && Ready(s, i) => s.tags[w][LookupAddr(s, i).line.index])
  }

  function LineReadNext(s: Regs, i: Inputs): seq<Line>
    requires Ready(s, i)
  {
    if !Reads(s, i) then s.lineRead
    else seq(s.c.ways, w requires 0 <= w < s.c.ways && Ready(s, i) => s.lines[w][LookupAddr(s, i).line.index])
  }

  // ------------------------------------------------------------------ invalidation sweep

  predicate StartInval(s: Regs, i: Inputs) { (!s.resetInval || i.inval) && !s.invalProg }

  predicate InvalProgNext(s: Regs, i: Inputs) {
    StartInval(s, i) || (s.invalProg && s.invalIndex + 1 != s.c.lines)
  }

  function InvalIndexNext(s: Regs, i: Inputs): nat {
    if !InvalProgNext(s, i) then s.invalIndex
    else if StartInval(s, i) then 0
    else s.invalIndex + 1
  }

  // ------------------------------------------------------------------ clock edge

  /** The buffer a lookup would be given, from `k` up. */
  function LowestFree(s: Regs, k: nat): (r: nat)
    requires k <= |s.fb|
    ensures k <= r <= |s.fb|
    ensures r < |s.fb| ==> !s.fb[r].busy
    ensures forall j :: k <= j < r ==> s.fb[j].busy
    decreases |s.fb| - k
  {
    if k == |s.fb| || !s.fb[k].busy then k else LowestFree(s, k + 1)
  }

  function FillInNext(s: Regs, i: Inputs): nat
    requires Shape(s)
  {
    if Lookup(s, i) then LowestFree(s, 0) else s.fillIn
  }

  function Step(s: Regs, i: Inputs): Regs
    requires Ready(s, i)
  {
    Regs(s.c,
         BuffersNext(s, i),
         TagsNext(s, i), LinesNext(s, i), TagReadNext(s, i), LineReadNext(s, i),
         LookupActual(s, i), if Lookup(s, i) then LookupAddr(s, i).line.tag else s.lookupTag,
         FillInNext(s, i), RoundRobinNext(s),
         PrefetchNext(s, i), CacheCntNext(s, i),
         true, InvalProgNext(s, i), InvalIndexNext(s, i))
  }

  // ------------------------------------------------------------------ the bus side

  /** The address on the bus: of the oldest requesting buffer, or else of the lookup. */
  function ExtPick(s: Regs, i: Inputs, k: nat): (r: nat)
    requires Shape(s) && k <= |s.fb|
    ensures k <= r <= |s.fb|
    ensures r < |s.fb| ==> ExtArb(s, i, r)
    decreases |s.fb| - k
  {
    if k == |s.fb| || ExtArb(s, i, k) then k else ExtPick(s, i, k + 1)
  }

  predicate InstrReq(s: Regs, i: Inputs)
    requires Shape(s)
  {
    ((s.c.specRequest || i.branch) && Lookup(s, i)) || AnyExtReq(s, i)
  }

  function InstrAddr(s: Regs, i: Inputs): Addr
    requires Shape(s)
  {
    var k := ExtPick(s, i, 0);
    if !AnyExtReq(s, i) then LookupAddr(s, i)
    else if k < |s.fb| then Addr(s.fb[k].addr.line, ExtOff(s.c, s.fb[k]))
    else Addr(LineAddr(0, 0), 0)
  }

  // ------------------------------------------------------------------ the clocked unit

  /** The cache's flops and RAMs, overwritten in place at every clock edge. */
  class InstructionCache {
    const c: Config
    var fb: seq<Buffer>
    var tags: seq<seq<Tag>>
    var lines: seq<seq<Line>>
    var tagRead: seq<Tag>
    var lineRead: seq<Line>
    var lookupValid: bool
    var lookupTag: nat
    var fillIn: nat
    var roundRobin: nat
    var prefetch: Addr
    var cacheCnt: nat
    var resetInval: bool
    var invalProg: bool
    var invalIndex: nat

    function State(): Regs
      reads this
    {
      Regs(c, fb, tags, lines, tagRead, lineRead, lookupValid, lookupTag, fillIn, roundRobin,
           prefetch, cacheCnt, resetInval, invalProg, invalIndex)
    }

    constructor (c: Config)
      requires ConfigOk(c)
      ensures Shape(State()) && this.c == c
      ensures !lookupValid && !resetInval && !invalProg
      ensures forall k :: 0 <= k < |fb| ==> !fb[k].busy
    {
      var at := Addr(LineAddr(0, 0), 0);
      var empty := Buffer(false, {}, false, false, false, 0, false, 0, false, 0, at, 0,
                          Zeros(c.beats), seq(c.beats, b => false));
      this.c := c;
      fb := seq(c.buffers, k => empty);
      tags := seq(c.ways, v => seq(c.lines, x => Tag(false, 0)));
      lines := seq(c.ways, v => seq(c.lines, x => Zeros(c.beats)));
      tagRead := seq(c.ways, v => Tag(false, 0));
      lineRead := seq(c.ways, v => Zeros(c.beats));
      lookupValid, lookupTag, fillIn, roundRobin := false, 0, 0, 0;
      prefetch, cacheCnt := at, 0;
      resetInval, invalProg, invalIndex := false, false, 0;
    }

    /** Every fill buffer moves on the state `s` before the edge. */
    method ClockBuffers(s: Regs, i: Inputs)
      requires Ready(s, i) && fb == s.fb
      modifies this`fb
      ensures fb == BuffersNext(s, i)
    {
      hide BufferNext;
      var k := 0;
      while k < |s.fb|
        invariant 0 <= k <= |s.fb| == |fb|
        invariant forall j :: 0 <= j < k ==> fb[j] == BufferNext(s, i, j)
      {
        fb := fb[k := BufferNext(s, i, k)];
        k := k + 1;
      }
    }

    method ClockRams(s: Regs, i: Inputs)
      requires Ready(s, i) && tags == s.tags && lines == s.lines && c == s.c
      modifies this`tags, this`lines
      ensures tags == TagsNext(s, i) && lines == LinesNext(s, i)
    {
      hide Lookup, AnyRamReq, RamArb;
      if s.invalProg {
        var clobber := Lookup(s, i) || AnyRamReq(s);
        var v := 0;
        while v < c.ways
          invariant 0 <= v <= c.ways == |tags| == |lines|
          invariant forall j :: 0 <= j < v ==> tags[j] == TagsNext(s, i)[j] && lines[j] == LinesNext(s, i)[j]
          invariant forall j :: v <= j < c.ways ==> tags[j] == s.tags[j] && lines[j] == s.lines[j]
        {
          tags := tags[v := tags[v][s.invalIndex := Tag(false, 0)]];
          if clobber {
            lines := lines[v := lines[v][s.invalIndex := Zeros(c.beats)]];
          }
          v := v + 1;
        }
      } else {
        var k := RamPick(s, i, 0);
        if k < |s.fb| {
          var f := s.fb[k];
          assert BufferOk(s.c, f);
          tags := tags[f.way := tags[f.way][f.addr.line.index := Tag(true, f.addr.line.tag)]];
          lines := lines[f.way := lines[f.way][f.addr.line.index := f.data]];
        }
      }
    }

    /** The lookup pipeline's registers. */
    method ClockLookup(s: Regs, i: Inputs)
      requires Ready(s, i) && lookupTag == s.lookupTag
      modifies this`tagRead, this`lineRead, this`lookupValid, this`lookupTag, this`fillIn, this`roundRobin
      ensures tagRead == TagReadNext(s, i) && lineRead == LineReadNext(s, i)
      ensures lookupValid == LookupActual(s, i)
      ensures lookupTag == if Lookup(s, i) then LookupAddr(s, i).line.tag else s.lookupTag
      ensures fillIn == FillInNext(s, i) && roundRobin == RoundRobinNext(s)
    {
      tagRead, lineRead := TagReadNext(s, i), LineReadNext(s, i);
      lookupValid := LookupActual(s, i);
      if Lookup(s, i) {
        lookupTag := LookupAddr(s, i).line.tag;
      }
      fillIn, roundRobin := FillInNext(s, i), RoundRobinNext(s);
    }

    /** The prefetch address, the caching counter and the invalidation sweep. */
    method ClockControl(s: Regs, i: Inputs)
      requires Ready(s, i)
      modifies this`prefetch, this`cacheCnt, this`resetInval, this`invalProg, this`invalIndex
      ensures prefetch == PrefetchNext(s, i) && cacheCnt == CacheCntNext(s, i) && resetInval
      ensures invalProg == InvalProgNext(s, i) && invalIndex == InvalIndexNext(s, i)
    {
      prefetch, cacheCnt := PrefetchNext(s, i), CacheCntNext(s, i);
      resetInval := true;
      invalProg, invalIndex := InvalProgNext(s, i), InvalIndexNext(s, i);
    }

    method Clock(i: Inputs)
      requires Ready(State(), i)
      modifies this
      ensures State() == Step(old(State()), i)
    {
      hide BuffersNext, TagsNext, LinesNext, TagReadNext, LineReadNext, Lookup, LookupActual, FillInNext,
           RoundRobinNext, PrefetchNext, CacheCntNext, InvalProgNext, InvalIndexNext, Shape;
      var s := State();
      ClockBuffers(s, i);
      ClockRams(s, i);
      ClockLookup(s, i);
      ClockControl(s, i);
    }
  }
}
