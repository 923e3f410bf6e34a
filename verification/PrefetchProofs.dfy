/** The prefetch buffer delivers exactly the instructions memory holds from the last branch
    target on, under any bus timing, and obeys the bus protocol. */
module PrefetchProofs {
  import opened FetchFifo
  import opened FetchFifoQueue
  import opened PrefetchBuffer

  const WORDS := 0x4000_0000

  /** Instruction memory by word index. It does not change during a run. */
  type Memory = int -> Word

  /** What surrounds the buffer. `bus` and `pend` hold word indices, oldest first: requests the
      bus has granted and not answered, and all outstanding requests, blocked ones included.
      `half` is the program counter of the sequential fetch machine, in halfwords. */
  datatype World = World(bus: seq<int>, pend: seq<int>, half: int, running: bool)

  function WordOf(addr: int): int { addr / 4 }
  function Nth(base: int, k: int): int { (base + k) % WORDS }

  // ------------------------------------------------------------------ environment

  /** A grant may come in any cycle; a response only for the oldest unanswered grant, carrying what
      memory holds there or an error. The PMP may deny any request. */
  predicate Legal(m: Memory, s: PbRegs, w: World, i: PbInputs)
    requires PbShape(s)
  {
    && 0 <= i.addr < ADDRESSES
    && (i.rvalid ==> w.bus != [] && (!i.err ==> i.rdata == m(w.bus[0])))
  }

  predicate Granted(s: PbRegs, i: PbInputs)
    requires PbShape(s)
  {
    ValidReq(s, i) && GntOrPmpErr(i)
  }

  function BusNext(s: PbRegs, w: World, i: PbInputs): seq<int>
    requires PbShape(s)
  {
    (if i.rvalid && w.bus != [] then w.bus[1..] else w.bus)
    + if Granted(s, i) && !i.pmpErr then [WordOf(InstrAddr(s, i))] else []
  }

  function PendNext(s: PbRegs, w: World, i: PbInputs): seq<int>
    requires PbShape(s)
  {
    (if RvalidOrPmpErr(s, i) && w.pend != [] then w.pend[1..] else w.pend)
    + if Granted(s, i) then [WordOf(InstrAddr(s, i))] else []
  }

  /** The sequential fetch machine: a branch sets the counter, an accepted instruction moves it
      past itself. */
  function FetchNext(s: PbRegs, half: int, i: PbInputs): int
    requires PbShape(s)
  {
    if i.branch then i.addr / 2
    else if i.ready && OutValidO(s, i)
    then (half + if Compressed(OutData(s.fifo, FifoInputs(s, i)).lo) then 1 else 2) % HALFWORDS
    else half
  }

  function WorldStep(s: PbRegs, w: World, i: PbInputs): World
    requires PbShape(s)
  {
    World(BusNext(s, w, i), PendNext(s, w, i), FetchNext(s, w.half, i), w.running || i.branch)
  }

  // ------------------------------------------------------------------ invariant

  function Bit(b: bool): nat { if b then 1 else 0 }

  function Outstanding(s: PbRegs): nat
    requires PbShape(s)
  {
    Bit(s.outstanding[0]) + Bit(s.outstanding[1])
  }

  function Discarded(s: PbRegs): nat
    requires PbShape(s)
  {
    Bit(s.discard[0]) + Bit(s.discard[1])
  }

  /** A held request that no branch has cancelled. */
  predicate Pending(s: PbRegs) { s.validReq && !s.discardReq }

  function InFlight(s: PbRegs): int
    requires PbShape(s)
  {
    Count(s.fifo) + Outstanding(s) - Discarded(s) + Bit(Pending(s))
  }

  /** Order and capacity, which need no branch to have happened. */
  ghost predicate Ordered(s: PbRegs) {
    && PbShape(s) && Prefix(s.fifo)
    && (s.outstanding[1] ==> s.outstanding[0])
    && (s.discard[0] ==> s.outstanding[0]) && (s.discard[1] ==> s.outstanding[1])
    && (s.pmpErr[0] ==> s.outstanding[0]) && (s.pmpErr[1] ==> s.outstanding[1])
    // discarded requests are the oldest
    && (s.discard[1] ==> s.discard[0])
    && (s.validReq && s.discardReq && s.outstanding[0] ==> s.discard[0])
    // a blocked request at the head is alone, and leaves at once
    && (s.pmpErr[0] ==> !s.outstanding[1])
    // a held request has a slot waiting for it
    && (s.validReq ==> !s.outstanding[1])
    && InFlight(s) <= DEPTH
  }

  /** The bus owes answers to the requests that are not blocked, in order. */
  ghost predicate Tracked(s: PbRegs, w: World)
    requires Ordered(s)
  {
    && |w.pend| == Outstanding(s)
    && w.bus == (if |w.pend| == 0 then []
                 else if |w.pend| == 1 then if s.pmpErr[0] then [] else w.pend
                 else if s.pmpErr[1] then [w.pend[0]] else w.pend)
  }

  ghost predicate EntryOk(m: Memory, e: Entry, w: int) { !e.err ==> e.word == m(w) }

  /** Requests no branch has cancelled, oldest first: outstanding, then the held one, then the
      address the next request will use. */
  function Live(s: PbRegs, pend: seq<int>): seq<int>
    requires PbShape(s) && Discarded(s) <= |pend|
  {
    pend[Discarded(s)..] + (if Pending(s) then [WordOf(s.storedAddr)] else []) + [WordOf(s.fetchAddr)]
  }

  /** Fetched words `q` and requested words `live` follow each other from word `base` on. */
  ghost predicate Consecutive(m: Memory, q: seq<Entry>, live: seq<int>, base: int) {
    && (forall k :: 0 <= k < |q| ==> EntryOk(m, q[k], Nth(base, k)))
    && (forall k :: 0 <= k < |live| ==> live[k] == Nth(base, |q| + k))
  }

  /** The stream starts in the word the program counter is in. */
  ghost predicate Streaming(m: Memory, s: PbRegs, w: World)
    requires Ordered(s) && |w.pend| == Outstanding(s)
  {
    && s.fifo.half == w.half && 0 <= w.half < HALFWORDS
    && Consecutive(m, Queue(s.fifo), Live(s, w.pend), w.half / 2)
  }

  ghost predicate Inv(m: Memory, s: PbRegs, w: World) {
    && Ordered(s) && Tracked(s, w)
    && 0 <= s.storedAddr < ADDRESSES && 0 <= s.fetchAddr < ADDRESSES
    && (w.running ==> Streaming(m, s, w))
  }

  // ------------------------------------------------------------------ preservation

  lemma RoomForResponse(s: PbRegs, i: PbInputs)
    requires Ordered(s)
    ensures HasRoom(s.fifo, FifoInputs(s, i))
  {
  }

  /** The FIFO's assertions IbexFetchFifoPushFull and IbexFetchFifoPushPopFull never fire. */
  lemma QueueCount(s: PbRegs, i: PbInputs)
    requires Ordered(s)
    ensures var f := FifoInputs(s, i);
            && Prefix(Step(s.fifo, f))
            && Count(Step(s.fifo, f)) ==
                 if i.branch then 0 else Count(s.fifo) + Bit(FifoValid(s, i)) - Bit(Pop(s.fifo, f))
  {
    RoomForResponse(s, i);
    StepIsQueueStep(s.fifo, FifoInputs(s, i));
  }

  /** The outstanding and the PMP queue of the next cycle. */
  lemma OutstandingStep(s: PbRegs, i: PbInputs)
    requires Ordered(s)
    ensures var t := PbStep(s, i);
            && (t.outstanding[1] ==> t.outstanding[0]) && (t.validReq ==> !t.outstanding[1])
            && (t.pmpErr[0] ==> t.outstanding[0]) && (t.pmpErr[1] ==> t.outstanding[1])
            && (t.pmpErr[0] ==> !t.outstanding[1])
    ensures Outstanding(PbStep(s, i)) == Outstanding(s) - Bit(RvalidOrPmpErr(s, i)) + Bit(Granted(s, i))
  {
    hide PbStep, InReady, Count, Prefix, Step, StoredAddrNext, FetchAddrNext;
    StepFields(s, i);
  }

  /** The discard queue of the next cycle. */
  lemma DiscardStep(s: PbRegs, i: PbInputs)
    requires Ordered(s)
    ensures var t := PbStep(s, i);
            && (t.discard[0] ==> t.outstanding[0]) && (t.discard[1] ==> t.outstanding[1])
            && (t.discard[1] ==> t.discard[0])
            && (t.validReq && t.discardReq && t.outstanding[0] ==> t.discard[0])
  {
    hide PbStep, InReady, Count, Prefix, Step, StoredAddrNext, FetchAddrNext, PmpErrN;
    StepFields(s, i);
  }

  /** Requests no branch has cancelled: those outstanding, and the held one. */
  function LiveRequests(s: PbRegs): int
    requires PbShape(s)
  {
    Outstanding(s) - Discarded(s) + Bit(Pending(s))
  }

  /** A branch leaves at most the request it issues; otherwise a new request adds one and an answer
      taken into the FIFO removes one. */
  lemma LiveRequestsStep(s: PbRegs, i: PbInputs)
    requires Ordered(s)
    ensures var t := PbStep(s, i);
            if i.branch then LiveRequests(t) <= 1
            else LiveRequests(t) == LiveRequests(s) - Bit(FifoValid(s, i)) + Bit(IssuesNew(s, i))
  {
    hide PbStep, InReady, Count, Prefix, Step, StoredAddrNext, FetchAddrNext, PmpErrN;
    StepFields(s, i);
  }

  /** A new request is made only when the FIFO will have room for its answer. */
  lemma RoomForRequest(s: PbRegs, i: PbInputs)
    requires Ordered(s) && !i.branch && IssuesNew(s, i)
    ensures InFlight(s) < DEPTH
  {
  }

  lemma OrderedStep(s: PbRegs, i: PbInputs)
    requires Ordered(s)
    ensures Ordered(PbStep(s, i))
    ensures Outstanding(PbStep(s, i)) == Outstanding(s) - Bit(RvalidOrPmpErr(s, i)) + Bit(Granted(s, i))
  {
    var t := PbStep(s, i);
    QueueCount(s, i);
    OutstandingStep(s, i);
    DiscardStep(s, i);
    LiveRequestsStep(s, i);
    StepFields(s, i);
    if IssuesNew(s, i) && !i.branch {
      RoomForRequest(s, i);
    }
    assert InFlight(t) == Count(t.fifo) + LiveRequests(t) && InFlight(s) == Count(s.fifo) + LiveRequests(s);
    hide PbStep, Step, Pop, FifoInputs, Outstanding, Discarded, Pending, Count, Prefix, LiveRequests, IssuesNew,
         FifoValid;
  }

  lemma TrackedStep(m: Memory, s: PbRegs, w: World, i: PbInputs)
    requires Ordered(s) && Tracked(s, w) && Legal(m, s, w, i)
    requires Ordered(PbStep(s, i))
    ensures Tracked(PbStep(s, i), WorldStep(s, w, i))
  {
    hide PbStep, Step, Pop, FifoInputs, InReady, Prefix, InFlight, Count, WordOf, InstrAddr, StoredAddrNext,
         FetchAddrNext;
    StepFields(s, i);
  }

  lemma NthShift(base: int, j: int, k: int)
    ensures Nth(Nth(base, j), k) == Nth(base, j + k)
  {
    var q := (base + j) / WORDS;
    assert Nth(base, j) == base + j - q * WORDS;
  }

  lemma WordAfter(addr: int)
    requires 0 <= addr < ADDRESSES
    ensures WordOf((Align(addr) + 4) % ADDRESSES) == Nth(WordOf(addr), 1)
    ensures WordOf((addr + 4) % ADDRESSES) == Nth(WordOf(addr), 1)
    ensures WordOf(Align(addr)) == WordOf(addr) == Nth(WordOf(addr), 0)
  {
    var w, b := addr / 4, addr % 4;
    assert addr == 4 * w + b;
    WordOfSum(w, b);
    WordOfSum(w, 0);
  }

  lemma WordOfSum(w: int, b: int)
    requires 0 <= w < WORDS && 0 <= b < 4
    ensures (4 * w + b) / 4 == w && w % WORDS == w
    ensures ((4 * w + b + 4) % ADDRESSES) / 4 == (w + 1) % WORDS
  {
    if w + 1 == WORDS {
      assert (4 * w + b + 4) % ADDRESSES == b;
    }
  }

  /** The counter's word moves on exactly when the FIFO drops its head. */
  lemma CounterWord(half: int, increment: int)
    requires 0 <= half < HALFWORDS && (increment == 1 || increment == 2)
    ensures ((half + increment) % HALFWORDS) / 2
         == Nth(half / 2, if half / 2 != (half + increment) / 2 then 1 else 0)
  {
    var w, b := half / 2, half % 2;
    assert half == 2 * w + b && 0 <= w < WORDS;
    if b + increment >= 2 && w + 1 == WORDS {
      assert (half + increment) % HALFWORDS == b + increment - 2;
    }
  }

  /** Moves of the outstanding queue in one cycle. */
  lemma PendMoves(s: PbRegs, w: World, i: PbInputs)
    requires Ordered(s) && |w.pend| == Outstanding(s)
    ensures var t, shift, grant := PbStep(s, i), Bit(RvalidOrPmpErr(s, i)), Granted(s, i);
            && shift <= |w.pend|
            && PendNext(s, w, i) == w.pend[shift..] + (if grant then [WordOf(InstrAddr(s, i))] else [])
            && (i.branch ==> Discarded(t) == |w.pend| - shift + Bit(grant && s.validReq))
            && (!i.branch ==> Discarded(t) == Discarded(s) - Bit(RvalidOrPmpErr(s, i) && s.discard[0])
                                                + Bit(grant && s.validReq && s.discardReq))
  {
    hide Step, FifoInputs, InReady;
  }

  /** A branch leaves only what is requested for its target. */
  lemma LiveBranch(s: PbRegs, w: World, i: PbInputs)
    requires Ordered(s) && Ordered(PbStep(s, i)) && |w.pend| == Outstanding(s)
    requires i.branch && 0 <= i.addr < ADDRESSES
    ensures var t, first := PbStep(s, i), WordOf(i.addr);
            && Discarded(t) <= |PendNext(s, w, i)|
            && Live(t, PendNext(s, w, i)) == [first] + if IssuesNew(s, i) then [Nth(first, 1)] else []
  {
    assert PbShape(s);
    hide PbStep, Ordered, Outstanding, Discarded, PendNext, Nth, WordOf, IssuesNew, Granted, InstrAddr;
    OutstandingBranch(s, w, i);
    AddressesBranch(s, i);
  }

  /** After a branch: the held request, the address on the bus and the next fetch address. */
  lemma AddressesBranch(s: PbRegs, i: PbInputs)
    requires PbShape(s) && i.branch && 0 <= i.addr < ADDRESSES
    ensures var t, issues, g := PbStep(s, i), IssuesNew(s, i), Granted(s, i);
            && (issues ==> !s.validReq) && (g ==> s.validReq || issues)
            && t.discardReq == s.validReq
            && t.validReq == ((s.validReq || issues) && !g)
            && InstrAddr(s, i) == (if s.validReq then s.storedAddr else i.addr)
            && t.storedAddr == (if issues && !g then i.addr else s.storedAddr)
            && WordOf(t.fetchAddr) == if issues then Nth(WordOf(i.addr), 1) else WordOf(i.addr)
  {
    hide PbStep, WordOf, Nth, InReady, Align, StoredAddrNext, FetchAddrNext;
    StepFields(s, i);
    FetchBranch(s, i);
    StoredNext(s, i);
  }

  lemma FetchBranch(s: PbRegs, i: PbInputs)
    requires PbShape(s) && i.branch && 0 <= i.addr < ADDRESSES
    ensures WordOf(FetchAddrNext(s, i)) == if IssuesNew(s, i) then Nth(WordOf(i.addr), 1) else WordOf(i.addr)
  {
    hide IssuesNew;
    WordAfter(i.addr);
  }

  lemma FetchOn(s: PbRegs, i: PbInputs)
    requires PbShape(s) && !i.branch && 0 <= s.fetchAddr < ADDRESSES
    ensures WordOf(FetchAddrNext(s, i)) == if IssuesNew(s, i) then Nth(WordOf(s.fetchAddr), 1) else WordOf(s.fetchAddr)
  {
    hide IssuesNew;
    WordAfter(s.fetchAddr);
  }

  lemma StoredNext(s: PbRegs, i: PbInputs)
    requires PbShape(s)
    ensures StoredAddrNext(s, i) ==
              if IssuesNew(s, i) && !GntOrPmpErr(i) then if i.branch then i.addr else s.fetchAddr else s.storedAddr
  {
    hide InReady;
  }

  /** Of the outstanding requests only one granted for the target stays live. */
  lemma OutstandingBranch(s: PbRegs, w: World, i: PbInputs)
    requires Ordered(s) && |w.pend| == Outstanding(s) && i.branch
    ensures var t, pend := PbStep(s, i), PendNext(s, w, i);
            && Discarded(t) <= |pend|
            && pend[Discarded(t)..] == if Granted(s, i) && !s.validReq then [WordOf(InstrAddr(s, i))] else []
  {
    assert PbShape(s);
    hide PbStep, Discarded, PendNext, WordOf, Granted, FifoInputs, InReady;
    PendMoves(s, w, i);
  }

  /** After a branch the stream is what has been issued for the target. */
  lemma StreamingBranch(m: Memory, s: PbRegs, w: World, i: PbInputs)
    requires Ordered(s) && Legal(m, s, w, i) && i.branch && |w.pend| == Outstanding(s)
    requires Ordered(PbStep(s, i)) && |WorldStep(s, w, i).pend| == Outstanding(PbStep(s, i))
    ensures Streaming(m, PbStep(s, i), WorldStep(s, w, i))
  {
    var t, v := PbStep(s, i), WorldStep(s, w, i);
    hide Ordered, Outstanding, Live, Discarded, PendNext;
    QueueCount(s, i);
    LiveBranch(s, w, i);
    WordAfter(i.addr);
    assert Queue(t.fifo) == [];
    assert t.fifo.half == v.half == i.addr / 2 && v.half / 2 == WordOf(i.addr);
    assert v.pend == PendNext(s, w, i);
  }

  /** What the FIFO takes in is the next word of the stream. */
  lemma IncomingOk(m: Memory, s: PbRegs, w: World, i: PbInputs)
    requires Inv(m, s, w) && Legal(m, s, w, i) && w.running && FifoValid(s, i)
    ensures EntryOk(m, FifoInputs(s, i).incoming, Nth(w.half / 2, Count(s.fifo)))
  {
    assert Live(s, w.pend)[0] == w.pend[0];
    assert Live(s, w.pend)[0] == Nth(w.half / 2, Count(s.fifo) + 0);
  }

  /** The FIFO's address register, as words. */
  lemma HalfMoves(s: Regs, f: Inputs)
    requires Shape(s) && !f.clear && 0 <= s.half < HALFWORDS
    ensures 0 <= HalfNext(s, f) < HALFWORDS && HalfNext(s, f) / 2 == Nth(s.half / 2, Bit(Pop(s, f)))
  {
    hide Nth, OutValid, Pop, HeadWord, Compressed;
    PopLeavesWord(s, f);
    CounterWord(s.half, Increment(s, f));
    assert Nth(s.half / 2, 0) == s.half / 2 by { CounterStays(s.half); }
  }

  lemma CounterStays(half: int)
    requires 0 <= half < HALFWORDS
    ensures Nth(half / 2, 0) == half / 2
  {
  }

  /** The FIFO advances by what it delivers. */
  lemma CounterAgrees(s: PbRegs, i: PbInputs)
    requires Ordered(s) && !i.branch
    ensures FetchNext(s, s.fifo.half, i) == HalfNext(s.fifo, FifoInputs(s, i))
  {
    var f := FifoInputs(s, i);
    assert !f.clear && f.outReady == i.ready;
    RoomForResponse(s, i);
    OutputIsHeadOfQueue(s.fifo, f);
    hide Ordered, FifoInputs, OutData, OutErr, OutErrPlus2, OutValid, Available, FirstHalf, Complete, Increment,
         Compressed;
  }

  lemma NotCleared(s: PbRegs, i: PbInputs)
    requires PbShape(s)
    ensures FifoInputs(s, i).clear == i.branch
  {
  }

  lemma CounterMoves(m: Memory, s: PbRegs, w: World, i: PbInputs)
    requires Inv(m, s, w) && !i.branch && w.running
    ensures var t, v := PbStep(s, i), WorldStep(s, w, i);
            && t.fifo.half == v.half && 0 <= v.half < HALFWORDS
            && v.half / 2 == Nth(w.half / 2, Bit(Pop(s.fifo, FifoInputs(s, i))))
  {
    assert Ordered(s) && s.fifo.half == w.half && 0 <= w.half < HALFWORDS;
    hide Inv, Ordered, PbStep, FifoInputs, HalfNext, Nth, Pop, FetchNext;
    StepFields(s, i);
    CounterAgrees(s, i);
    NotCleared(s, i);
    HalfMoves(s.fifo, FifoInputs(s, i));
  }

  /** The FIFO takes the head of the live requests when it answers; a new request joins at the
      end. */
  lemma LiveMoves(s: PbRegs, w: World, i: PbInputs)
    requires Ordered(s) && Ordered(PbStep(s, i)) && |w.pend| == Outstanding(s) && !i.branch
    requires 0 <= s.fetchAddr < ADDRESSES
    ensures var t := PbStep(s, i);
            && Discarded(t) <= |PendNext(s, w, i)|
            && Live(t, PendNext(s, w, i))
               == Live(s, w.pend)[Bit(FifoValid(s, i))..]
                  + (if IssuesNew(s, i) then [Nth(WordOf(s.fetchAddr), 1)] else [])
  {
    assert PbShape(s);
    hide PbStep, Ordered, Outstanding, Discarded, PendNext, Nth, WordOf, FifoValid, IssuesNew, Granted, InstrAddr;
    OutstandingMoves(s, w, i);
    AddressesMove(s, i);
    var t, fv := PbStep(s, i), Bit(FifoValid(s, i));
    LiveDrop(s, w.pend, fv);
    LiveForm(t, PendNext(s, w, i));
    hide Live;
    Requeue(w.pend[Discarded(s)..][fv..], s.validReq, s.discardReq, IssuesNew(s, i), Granted(s, i),
            WordOf(s.storedAddr), WordOf(t.storedAddr), WordOf(s.fetchAddr), WordOf(t.fetchAddr));
  }

  /** Without a branch: the held request, the address on the bus and the next fetch address. */
  lemma AddressesMove(s: PbRegs, i: PbInputs)
    requires PbShape(s) && !i.branch && 0 <= s.fetchAddr < ADDRESSES
    ensures var t, issues, g := PbStep(s, i), IssuesNew(s, i), Granted(s, i);
            && (issues ==> !s.validReq) && (g ==> s.validReq || issues)
            && t.discardReq == (s.validReq && s.discardReq)
            && t.validReq == ((s.validReq || issues) && !g)
            && InstrAddr(s, i) == (if s.validReq then s.storedAddr else s.fetchAddr)
            && t.storedAddr == (if issues && !g then s.fetchAddr else s.storedAddr)
            && WordOf(t.fetchAddr) == if issues then Nth(WordOf(s.fetchAddr), 1) else WordOf(s.fetchAddr)
  {
    hide PbStep, WordOf, Nth, InReady, Align, StoredAddrNext, FetchAddrNext;
    StepFields(s, i);
    FetchOn(s, i);
    StoredNext(s, i);
  }

  /** The queue of live requests, its head already taken: `v` and `d` tell of the held request,
      `issues` and `g` of the request on the bus. */
  lemma Requeue(kept: seq<int>, v: bool, d: bool, issues: bool, g: bool, stored: int, stored': int, fetch: int,
                fetch': int)
    requires issues ==> !v
    requires g ==> v || issues
    requires stored' == if issues && !g then fetch else stored
    requires !issues ==> fetch' == fetch
    ensures kept + (if g && !(v && d) then [if v then stored else fetch] else [])
              + (if (v || issues) && !g && !(v && d) then [stored'] else []) + [fetch']
         == kept + (if v && !d then [stored] else []) + [fetch] + if issues then [fetch'] else []
  {
  }

  lemma LiveForm(s: PbRegs, pend: seq<int>)
    requires PbShape(s) && Discarded(s) <= |pend|
    ensures Live(s, pend) == pend[Discarded(s)..] + (if Pending(s) then [WordOf(s.storedAddr)] else [])
        + [WordOf(s.fetchAddr)]
  {
  }

  lemma LiveDrop(s: PbRegs, pend: seq<int>, n: nat)
    requires PbShape(s) && Discarded(s) <= |pend| && n <= |pend| - Discarded(s)
    ensures n <= |Live(s, pend)|
    ensures Live(s, pend)[n..] == pend[Discarded(s)..][n..] + (if Pending(s) then [WordOf(s.storedAddr)] else [])
        + [WordOf(s.fetchAddr)]
  {
    hide Discarded, WordOf;
  }

  /** The answered one of the live outstanding requests leaves, a granted live one joins. */
  lemma OutstandingMoves(s: PbRegs, w: World, i: PbInputs)
    requires PbShape(s) && Ordered(s) && |w.pend| == Outstanding(s) && !i.branch
    ensures var t, pend, fv := PbStep(s, i), PendNext(s, w, i), Bit(FifoValid(s, i));
            && Discarded(s) <= |w.pend| && fv <= |w.pend| - Discarded(s) && Discarded(t) <= |pend|
            && pend[Discarded(t)..] == w.pend[Discarded(s)..][fv..]
                 + if Granted(s, i) && !(s.validReq && s.discardReq) then [WordOf(InstrAddr(s, i))] else []
  {
    hide *;
    DiscardCounts(s, i);
    PendOn(s, w, i);
    DropHead(w.pend, Discarded(s), Bit(RvalidOrPmpErr(s, i)), Bit(FifoValid(s, i)), Granted(s, i),
             s.validReq && s.discardReq,
             WordOf(InstrAddr(s, i)));
  }

  lemma PendOn(s: PbRegs, w: World, i: PbInputs)
    requires PbShape(s) && Ordered(s) && |w.pend| == Outstanding(s) && !i.branch
    ensures var shift, fv, g := Bit(RvalidOrPmpErr(s, i)), Bit(FifoValid(s, i)), Granted(s, i);
            && shift <= |w.pend|
            && PendNext(s, w, i) == w.pend[shift..] + (if g then [WordOf(InstrAddr(s, i))] else [])
            && Discarded(PbStep(s, i)) == Discarded(s) - (shift - fv) + Bit(g && (s.validReq && s.discardReq))
  {
    hide PbStep, PendNext, Discarded, Outstanding, Granted, InstrAddr, WordOf, Ordered;
    PendMoves(s, w, i);
  }

  lemma DiscardCounts(s: PbRegs, i: PbInputs)
    requires PbShape(s) && Ordered(s)
    ensures var n, d, shift, x := Outstanding(s), Discarded(s), Bit(RvalidOrPmpErr(s, i)),
        Bit(RvalidOrPmpErr(s, i) && s.discard[0]);
            && d <= n && shift <= n && Bit(FifoValid(s, i)) == shift - x && shift <= 1 && 0 <= x <= d
            && (Bit(FifoValid(s, i)) > 0 ==> d == 0) && (s.validReq && s.discardReq ==> d == n)
  {
    hide InFlight, Prefix;
  }

  /** `d` discarded requests at the front of `pend`, `shift` answered ones of which `fv` are live. */
  lemma DropHead(pend: seq<int>, d: nat, shift: nat, fv: nat, g: bool, cancelled: bool, a: int)
    requires d <= |pend| && fv <= shift <= |pend| && shift <= 1 && shift - fv <= d
    requires (fv > 0 ==> d == 0) && (cancelled ==> d == |pend|)
    ensures var next, d' := pend[shift..] + (if g then [a] else []), d - (shift - fv) + Bit(g && cancelled);
            && fv <= |pend| - d && 0 <= d' <= |next|
            && next[d'..] == pend[d..][fv..] + if g && !cancelled then [a] else []
  {
    var more := if g then [a] else [];
    if g && cancelled {
      assert pend[d..] == [] && fv == 0;
      assert |pend[shift..] + more| == |pend| - shift + 1;
    } else {
      DropOfSum(pend[shift..], more, d - (shift - fv));
      DropOfDrop(pend, shift, d - (shift - fv));
      DropOfDrop(pend, d, fv);
    }
  }

  lemma DropOfSum(q: seq<int>, more: seq<int>, n: nat)
    requires n <= |q|
    ensures (q + more)[n..] == q[n..] + more
  {
  }

  lemma DropOfDrop(q: seq<int>, m: nat, n: nat)
    requires m + n <= |q|
    ensures q[m..][n..] == q[m + n..]
  {
  }

  /** Consecutive words stay consecutive when one moves across, some leave and some join. */
  lemma ConsecutiveMoves(m: Memory, q: seq<Entry>, live: seq<int>, base: int, arrived: seq<Entry>, p: nat,
                         more: seq<int>)
    requires Consecutive(m, q, live, base) && |live| > 0
    requires |arrived| <= 1 && |arrived| <= |live| && p <= |q| + |arrived|
    requires arrived != [] ==> EntryOk(m, arrived[0], live[0])
    requires more == [] || more == [Nth(live[|live| - 1], 1)]
    ensures Consecutive(m, (q + arrived)[p..], live[|arrived|..] + more, Nth(base, p))
  {
    var a, b := (q + arrived)[p..], live[|arrived|..] + more;
    NthShift(base, |q| + |live| - 1, 1);
    forall k | 0 <= k < |a| ensures EntryOk(m, a[k], Nth(Nth(base, p), k)) {
      NthShift(base, p, k);
    }
    forall k | 0 <= k < |b| ensures b[k] == Nth(Nth(base, p), |a| + k) {
      NthShift(base, p, |a| + k);
    }
  }

  lemma ConsecutiveOn(m: Memory, s: PbRegs, w: World, i: PbInputs)
    requires Inv(m, s, w) && Legal(m, s, w, i) && !i.branch && w.running
    requires Ordered(PbStep(s, i)) && Discarded(PbStep(s, i)) <= |PendNext(s, w, i)|
    ensures var t, p := PbStep(s, i), Bit(Pop(s.fifo, FifoInputs(s, i)));
            Consecutive(m, Queue(t.fifo), Live(t, PendNext(s, w, i)), Nth(w.half / 2, p))
  {
    var f, live := FifoInputs(s, i), Live(s, w.pend);
    var p := Bit(Pop(s.fifo, f));
    var arrived := if FifoValid(s, i) then [f.incoming] else [];
    var more := if IssuesNew(s, i) then [Nth(WordOf(s.fetchAddr), 1)] else [];
    assert FifoValid(s, i) ==> EntryOk(m, f.incoming, live[0]) by {
      if FifoValid(s, i) {
        IncomingOk(m, s, w, i);
        assert live[0] == Nth(w.half / 2, |Queue(s.fifo)| + 0);
      }
    }
    assert live[|live| - 1] == WordOf(s.fetchAddr);
    RoomForResponse(s, i);
    StepIsQueueStep(s.fifo, f);
    LiveMoves(s, w, i);
    assert Step(s.fifo, f) == PbStep(s, i).fifo && f.clear == i.branch;
    hide PbStep, Step, Pop, Live, Ordered, Tracked, Outstanding, Discarded, Queue, Nth, EntryOk, Consecutive,
         PendNext, IssuesNew, InFlight;
    assert Queue(PbStep(s, i).fifo) == (Queue(s.fifo) + arrived)[p..];
    ConsecutiveMoves(m, Queue(s.fifo), live, w.half / 2, arrived, p, more);
  }

  lemma StreamingOn(m: Memory, s: PbRegs, w: World, i: PbInputs)
    requires Inv(m, s, w) && Legal(m, s, w, i) && !i.branch && w.running
    requires Ordered(PbStep(s, i)) && |WorldStep(s, w, i).pend| == Outstanding(PbStep(s, i))
    ensures Streaming(m, PbStep(s, i), WorldStep(s, w, i))
  {
    hide PbStep, Queue, Live, Outstanding, Pop, FifoInputs;
    LiveMoves(s, w, i);
    CounterMoves(m, s, w, i);
    ConsecutiveOn(m, s, w, i);
    assert WorldStep(s, w, i).pend == PendNext(s, w, i);
  }

  lemma InvStep(m: Memory, s: PbRegs, w: World, i: PbInputs)
    requires Inv(m, s, w) && Legal(m, s, w, i)
    ensures Inv(m, PbStep(s, i), WorldStep(s, w, i))
  {
    OrderedStep(s, i);
    TrackedStep(m, s, w, i);
    var t, v := PbStep(s, i), WorldStep(s, w, i);
    assert 0 <= t.storedAddr < ADDRESSES && 0 <= t.fetchAddr < ADDRESSES;
    assert v.running <==> w.running || i.branch;
    hide PbStep, WorldStep, Streaming;
    if i.branch {
      StreamingBranch(m, s, w, i);
    } else if w.running {
      StreamingOn(m, s, w, i);
    }
  }

  // ------------------------------------------------------------------ what the core is given

  /** The halfword memory holds at halfword address `half`. */
  function HalfAt(m: Memory, half: int): int {
    if half % 2 == 1 then m(half / 2).hi else m(half / 2).lo
  }

  /** Without an error the bits are those memory holds at `half`; an error in the second half leaves the
      first one memory's, of an instruction that has two halves in two words. */
  predicate IsInstructionAt(m: Memory, half: int, data: Word, err: bool, plus2: bool) {
    && (!err ==>
          data.lo == HalfAt(m, half) && (!Compressed(data.lo) ==> data.hi == HalfAt(m, (half + 1) % HALFWORDS)))
    && (plus2 ==> err && half % 2 == 1 && data.lo == HalfAt(m, half) && !Compressed(data.lo))
  }

  lemma DeliversMemory(m: Memory, s: PbRegs, w: World, i: PbInputs)
    requires Inv(m, s, w) && Legal(m, s, w, i) && w.running && OutValidO(s, i)
    ensures var f := FifoInputs(s, i);
            && s.fifo.half == w.half
            && IsInstructionAt(m, w.half, OutData(s.fifo, f), OutErr(s.fifo, f),
                               OutErr(s.fifo, f) && OutErrPlus2(s.fifo, f))
  {
    var f := FifoInputs(s, i);
    var q := Available(s.fifo, f);
    RoomForResponse(s, i);
    OutputIsHeadOfQueue(s.fifo, f);
    if FifoValid(s, i) {
      IncomingOk(m, s, w, i);
    }
    assert forall k :: 0 <= k < |q| ==> EntryOk(m, q[k], Nth(w.half / 2, k));
    NextWord(w.half);
    hide Available, OutValid, OutData, OutErr, OutErrPlus2, Inv, FifoInputs, Compressed, HeadWord, Increment,
         FifoValid, Nth;
    assert EntryOk(m, q[0], Nth(w.half / 2, 0));
    if |q| > 1 {
      assert EntryOk(m, q[1], Nth(w.half / 2, 1));
    }
  }

  lemma NextWord(half: int)
    requires 0 <= half < HALFWORDS
    ensures Nth(half / 2, 0) == half / 2
    ensures ((half + 1) % HALFWORDS) / 2 == if half % 2 == 1 then Nth(half / 2, 1) else half / 2
    ensures ((half + 1) % HALFWORDS) % 2 == 1 - half % 2
  {
  }

  // ------------------------------------------------------------------ runs

  /** What the core sees: instructions it accepts and branches it takes. */
  datatype Event =
    | Instruction(half: int, data: Word, err: bool, plus2: bool)
    | Branch(target: int)

  function Events(s: PbRegs, i: PbInputs): seq<Event>
    requires PbShape(s)
  {
    var f := FifoInputs(s, i);
    (if i.ready && OutValidO(s, i)
     then [Instruction(s.fifo.half, OutData(s.fifo, f), OutErr(s.fifo, f), OutErr(s.fifo, f) && OutErrPlus2(s.fifo, f))]
     else [])
    + if i.branch then [Branch(i.addr / 2)] else []
  }

  function Trace(s: PbRegs, run: seq<PbInputs>): seq<Event>
    requires PbShape(s)
    decreases |run|
  {
    if run == [] then [] else Events(s, run[0]) + Trace(PbStep(s, run[0]), run[1..])
  }

  ghost predicate LegalRun(m: Memory, s: PbRegs, w: World, run: seq<PbInputs>)
    requires PbShape(s)
    decreases |run|
  {
    run == [] || (Legal(m, s, w, run[0]) && LegalRun(m, PbStep(s, run[0]), WorldStep(s, w, run[0]), run[1..]))
  }

  /** Once a branch has set the program counter, every instruction is the one memory holds at the
      counter, and the counter moves past it. */
  ghost predicate SequentialFetch(m: Memory, half: int, running: bool, trace: seq<Event>)
    decreases |trace|
  {
    trace == [] ||
    match trace[0]
    case Branch(target) => SequentialFetch(m, target, true, trace[1..])
    case Instruction(at, data, err, plus2) =>
      && (running ==> at == half && IsInstructionAt(m, at, data, err, plus2))
      && SequentialFetch(m, (half + if Compressed(data.lo) then 1 else 2) % HALFWORDS, running, trace[1..])
  }

  predicate IsReset(s: PbRegs) {
    && PbShape(s) && !s.validReq && !s.discardReq
    && s.outstanding == [false, false] && s.discard == [false, false] && s.pmpErr == [false, false]
    && s.fifo.valid == [false, false, false]
    && 0 <= s.storedAddr < ADDRESSES && 0 <= s.fetchAddr < ADDRESSES
  }

  const IDLE := World([], [], 0, false)

  lemma InvReset(m: Memory, s: PbRegs)
    requires IsReset(s)
    ensures Inv(m, s, IDLE)
  {
  }

  lemma {:induction false} RunFetchesMemory(m: Memory, s: PbRegs, w: World, run: seq<PbInputs>)
    requires Inv(m, s, w) && LegalRun(m, s, w, run)
    ensures SequentialFetch(m, w.half, w.running, Trace(s, run))
    decreases |run|
  {
    if run == [] {
    } else {
      var i := run[0];
      var t, v := PbStep(s, i), WorldStep(s, w, i);
      InvStep(m, s, w, i);
      RunFetchesMemory(m, t, v, run[1..]);
      var rest := Trace(t, run[1..]);
      assert Trace(s, run) == Events(s, i) + rest;
      if w.running && OutValidO(s, i) {
        DeliversMemory(m, s, w, i);
      }
      assert v.half == FetchNext(s, w.half, i) && v.running == (w.running || i.branch);
      hide Inv, PbStep, WorldStep, Legal, LegalRun, IsInstructionAt, OutData, OutErr, OutErrPlus2, OutValidO,
           FifoInputs, Trace;
      EventsThen(m, s, w, i, rest);
    }
  }

  /** One cycle's events in front of a sequential fetch. */
  lemma EventsThen(m: Memory, s: PbRegs, w: World, i: PbInputs, rest: seq<Event>)
    requires PbShape(s)
    requires SequentialFetch(m, FetchNext(s, w.half, i), w.running || i.branch, rest)
    requires w.running && OutValidO(s, i) ==>
               var f := FifoInputs(s, i);
               && s.fifo.half == w.half
               && IsInstructionAt(m, w.half, OutData(s.fifo, f), OutErr(s.fifo, f),
                                  OutErr(s.fifo, f) && OutErrPlus2(s.fifo, f))
    ensures SequentialFetch(m, w.half, w.running, Events(s, i) + rest)
  {
    hide IsInstructionAt, OutData, OutErr, OutErrPlus2, OutValidO, FifoInputs;
    var e := Events(s, i);
    if |e| == 2 {
      assert (e + rest)[1..] == [e[1]] + rest;
      assert ([e[1]] + rest)[1..] == rest;
    } else if |e| == 1 {
      assert (e + rest)[1..] == rest;
    } else {
      assert e + rest == rest;
    }
  }

  /** From reset, for every memory, every timing of grants and responses, every PMP answer and bus
      error, every ready pattern and every branch pattern. */
  lemma FetchesMemory(m: Memory, s: PbRegs, run: seq<PbInputs>)
    requires IsReset(s) && LegalRun(m, s, IDLE, run)
    ensures SequentialFetch(m, 0, false, Trace(s, run))
  {
    InvReset(m, s);
    RunFetchesMemory(m, s, IDLE, run);
  }

  function RunState(s: PbRegs, run: seq<PbInputs>): (t: PbRegs)
    requires PbShape(s)
    ensures PbShape(t)
    decreases |run|
  {
    if run == [] then s else RunState(PbStep(s, run[0]), run[1..])
  }

  /** Order and capacity hold after any inputs at all, legal or not: the FIFO's assertions
      IbexFetchFifoPushFull and IbexFetchFifoPushPopFull never fire. */
  lemma {:induction false} NeverOverfull(s: PbRegs, run: seq<PbInputs>, i: PbInputs)
    requires Ordered(s)
    ensures var t := RunState(s, run); Ordered(t) && HasRoom(t.fifo, FifoInputs(t, i))
    decreases |run|
  {
    if run == [] {
      RoomForResponse(s, i);
    } else {
      OrderedStep(s, run[0]);
      NeverOverfull(PbStep(s, run[0]), run[1..], i);
    }
  }

  // ------------------------------------------------------------------ bus protocol and progress

  /** A request that gets no grant stays up at the same word-aligned address, whatever happens in
      the next cycle, a branch included. */
  lemma RequestIsHeld(s: PbRegs, i: PbInputs, j: PbInputs)
    requires PbShape(s) && ValidReq(s, i) && !GntOrPmpErr(i)
    ensures ValidReq(PbStep(s, i), j)
    ensures BusAddr(PbStep(s, i), j) == BusAddr(s, i) && BusAddr(s, i) % 4 == 0
  {
    Aligned(InstrAddr(s, i));
    StepFields(s, i);
    hide PbStep, Align, FetchAddrNext, InReady;
  }

  lemma Aligned(a: int)
    ensures Align(a) % 4 == 0
  {
  }

  /** No deadlock: while fetching is enabled something is always on its way or ready. */
  lemma AlwaysProgress(s: PbRegs, i: PbInputs)
    requires Ordered(s) && i.req
    ensures ValidReq(s, i) || s.outstanding[0] || OutValidO(s, i)
    ensures !ValidReq(s, i) && !OutValidO(s, i) ==> s.outstanding[1]
  {
  }

  predicate HeldDiscard(s: PbRegs) { s.validReq && s.discardReq }

  /** What still has to happen on the bus before an instruction is complete: answers to requests a
      branch has cancelled, answers for two words, and grants for what may be outstanding then. */
  function Rank(s: PbRegs): int
    requires PbShape(s)
  {
    3 * (2 - Count(s.fifo) + Discarded(s) + Bit(HeldDiscard(s))) + 2 - Outstanding(s)
  }

  /** Grants and responses of one cycle. */
  function BusEvents(s: PbRegs, i: PbInputs): nat
    requires PbShape(s)
  {
    Bit(Granted(s, i)) + Bit(RvalidOrPmpErr(s, i))
  }

  lemma RankBounds(s: PbRegs, i: PbInputs)
    requires Ordered(s) && !OutValidO(s, i)
    ensures 0 <= Rank(s) <= 13 && Count(s.fifo) <= 1
  {
  }

  lemma DiscardsMove(s: PbRegs, i: PbInputs)
    requires Ordered(s) && !i.branch
    ensures Discarded(PbStep(s, i)) + Bit(HeldDiscard(PbStep(s, i)))
         == Discarded(s) + Bit(HeldDiscard(s)) - Bit(RvalidOrPmpErr(s, i) && s.discard[0])
  {
    hide Step, FifoInputs, InReady, FetchAddrNext, StoredAddrNext;
  }

  /** Every grant and every response brings the next instruction nearer; waiting loses nothing. */
  lemma RankFalls(s: PbRegs, i: PbInputs)
    requires Ordered(s) && !i.branch && !OutValidO(s, i)
    ensures Rank(PbStep(s, i)) <= Rank(s) - BusEvents(s, i)
  {
    OrderedStep(s, i);
    QueueCount(s, i);
    DiscardsMove(s, i);
    assert !Pop(s.fifo, FifoInputs(s, i));
    hide PbStep, Step, Pop, Discarded, HeldDiscard, Granted, Ordered, OutValid, Outstanding;
  }

  /** Cycles without a branch in which no instruction is ready. */
  ghost predicate Waiting(s: PbRegs, run: seq<PbInputs>)
    requires PbShape(s)
    decreases |run|
  {
    run == [] || (!run[0].branch && !OutValidO(s, run[0]) && Waiting(PbStep(s, run[0]), run[1..]))
  }

  function RunBusEvents(s: PbRegs, run: seq<PbInputs>): nat
    requires PbShape(s)
    decreases |run|
  {
    if run == [] then 0 else BusEvents(s, run[0]) + RunBusEvents(PbStep(s, run[0]), run[1..])
  }

  lemma {:induction false} RankFallsOverRun(s: PbRegs, run: seq<PbInputs>)
    requires Ordered(s) && run != [] && Waiting(s, run)
    ensures RunBusEvents(s, run[..|run| - 1]) <= Rank(s)
    decreases |run|
  {
    var n := |run| - 1;
    RankBounds(s, run[0]);
    if n > 0 {
      OrderedStep(s, run[0]);
      RankFalls(s, run[0]);
      assert run[..n][1..] == run[1..][..n - 1] && run[..n][0] == run[0];
      hide PbStep, Ordered, Rank, BusEvents;
      RankFallsOverRun(PbStep(s, run[0]), run[1..]);
    }
  }

  /** However slow the bus, after at most 13 grants and responses without a branch an instruction is
      ready. With `AlwaysProgress`: until then the bus always has one of them to make. */
  lemma InstructionWithinThirteen(s: PbRegs, run: seq<PbInputs>)
    requires Ordered(s) && run != [] && Waiting(s, run)
    ensures RunBusEvents(s, run[..|run| - 1]) <= 13
  {
    RankBounds(s, run[0]);
    RankFallsOverRun(s, run);
  }
}
