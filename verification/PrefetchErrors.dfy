/** The prefetch buffer attributes errors to exactly the instructions whose words were answered with
    one, whatever the PMP and the bus answer from one request to the next. */
module PrefetchErrors {
  import opened FetchFifo
  import opened FetchFifoQueue
  import opened PrefetchBuffer
  import opened PrefetchProofs

  // ------------------------------------------------------------------ what was answered

  /** The account kept outside the buffer: for each request granted and not answered, whether it was made
      after the last branch and whether the PMP denied it; whether a request waits for its grant, and
      was made after the last branch; the words of the stream from `start` on that have been answered,
      `log` saying which with an error; and `pos`, the halfwords from `start` to the next instruction. */
  datatype Account = Account(live: seq<bool>, denied: seq<bool>, held: bool, heldLive: bool,
                             start: int, log: seq<bool>, pos: nat)

  predicate AccountOk(a: Account) { |a.live| == |a.denied| }

  /** Whether the request on the bus now is one of the stream. */
  predicate RequestLive(a: Account, i: PbInputs) { if a.held then a.heldLive && !i.branch else true }

  predicate Answered(a: Account, i: PbInputs) { a.denied != [] && (i.rvalid || a.denied[0]) }

  /** An answer to a request of the stream. */
  predicate StreamAnswered(a: Account, i: PbInputs)
    requires AccountOk(a)
  {
    Answered(a, i) && a.live[0]
  }

  /** A denied request is answered with an error. */
  predicate AnswerErr(a: Account, i: PbInputs)
    requires Answered(a, i)
  {
    a.denied[0] || i.err
  }

  function LogNow(a: Account, i: PbInputs): seq<bool>
    requires AccountOk(a)
  {
    a.log + if StreamAnswered(a, i) then [AnswerErr(a, i)] else []
  }

  function Rest(q: seq<bool>, answered: bool): seq<bool> { if answered && q != [] then q[1..] else q }

  function AccountNext(s: PbRegs, a: Account, i: PbInputs): Account
    requires PbShape(s) && AccountOk(a)
  {
    var answered, more := Answered(a, i), Granted(s, i);
    var was := if i.branch then seq(|a.live|, k => false) else a.live;
    Account(Rest(was, answered) + (if more then [RequestLive(a, i)] else []),
            Rest(a.denied, answered) + (if more then [i.pmpErr] else []),
            ValidReq(s, i) && !GntOrPmpErr(i), RequestLive(a, i),
            if i.branch then WordOf(i.addr) else a.start,
            if i.branch then [] else LogNow(a, i),
            if i.branch then i.addr / 2 % 2
            else if i.ready && OutValidO(s, i)
            then a.pos + if Compressed(OutData(s.fifo, FifoInputs(s, i)).lo) then 1 else 2
            else a.pos)
  }

  // ------------------------------------------------------------------ invariant

  ghost predicate LiveAgrees(s: PbRegs, a: Account)
    requires Ordered(s)
  {
    && |a.live| == Outstanding(s) && (forall k :: 0 <= k < |a.live| ==> a.live[k] == !s.discard[k])
    && a.held == s.validReq && (s.validReq ==> a.heldLive == !s.discardReq)
  }

  ghost predicate DenialsAgree(s: PbRegs, a: Account)
    requires Ordered(s)
  {
    |a.denied| == Outstanding(s) && forall k :: 0 <= k < |a.denied| ==> a.denied[k] == s.pmpErr[k]
  }

  ghost predicate RequestsAgree(s: PbRegs, a: Account)
    requires Ordered(s)
  {
    LiveAgrees(s, a) && DenialsAgree(s, a)
  }

  /** The queue is what the log records from `base` on. */
  ghost predicate Recorded(q: seq<Entry>, log: seq<bool>, base: nat) {
    |log| == base + |q| && forall k :: 0 <= k < |q| ==> q[k].err == log[base + k]
  }

  /** The FIFO holds the last words of the log. */
  ghost predicate LogAgrees(s: PbRegs, a: Account)
    requires Ordered(s)
  {
    a.pos % 2 == s.fifo.half % 2 && Recorded(Queue(s.fifo), a.log, a.pos / 2)
  }

  ghost predicate AccountInv(m: Memory, s: PbRegs, w: World, a: Account) {
    && Inv(m, s, w) && RequestsAgree(s, a)
    && (w.running ==> LogAgrees(s, a) && w.half / 2 == Nth(a.start, a.pos / 2))
  }

  // ------------------------------------------------------------------ preservation

  /** The account sees an answer, and one of the stream, when the buffer does. */
  lemma AnswersAgree(s: PbRegs, a: Account, i: PbInputs)
    requires Ordered(s) && RequestsAgree(s, a)
    ensures Answered(a, i) == RvalidOrPmpErr(s, i) && StreamAnswered(a, i) == FifoValid(s, i)
  {
    hide InFlight, Prefix;
  }

  lemma LiveAgreesStep(s: PbRegs, a: Account, i: PbInputs)
    requires Ordered(s) && Ordered(PbStep(s, i)) && LiveAgrees(s, a) && AccountOk(a)
    requires Answered(a, i) == RvalidOrPmpErr(s, i)
    ensures LiveAgrees(PbStep(s, i), AccountNext(s, a, i))
  {
    hide PbStep, InReady, Count, Prefix, Step, StoredAddrNext, FetchAddrNext, OutValidO, OutData, FifoInputs,
         Compressed, InFlight, WordOf, Answered, LogNow, Discarded, PmpErrN;
    StepFields(s, i);
  }

  lemma DenialsAgreeStep(s: PbRegs, a: Account, i: PbInputs)
    requires Ordered(s) && Ordered(PbStep(s, i)) && DenialsAgree(s, a) && AccountOk(a)
    requires Answered(a, i) == RvalidOrPmpErr(s, i)
    ensures DenialsAgree(PbStep(s, i), AccountNext(s, a, i))
  {
    hide PbStep, InReady, Count, Prefix, Step, StoredAddrNext, FetchAddrNext, OutValidO, OutData, FifoInputs,
         Compressed, InFlight, WordOf, Answered, LogNow, Discarded, DiscardN, DiscardReqNext, RequestLive;
    StepFields(s, i);
  }

  lemma RequestsAgreeStep(s: PbRegs, a: Account, i: PbInputs)
    requires Ordered(s) && Ordered(PbStep(s, i)) && RequestsAgree(s, a)
    ensures RequestsAgree(PbStep(s, i), AccountNext(s, a, i))
    ensures Answered(a, i) == RvalidOrPmpErr(s, i) && StreamAnswered(a, i) == FifoValid(s, i)
  {
    assert AccountOk(a);
    hide PbStep, LiveAgrees, DenialsAgree, AccountNext, Ordered, Answered, StreamAnswered, FifoValid, RvalidOrPmpErr;
    AnswersAgree(s, a, i);
    LiveAgreesStep(s, a, i);
    DenialsAgreeStep(s, a, i);
  }

  /** The words available now, against the log. */
  lemma AvailableIsLog(s: PbRegs, a: Account, i: PbInputs)
    requires Ordered(s) && RequestsAgree(s, a) && LogAgrees(s, a)
    requires Answered(a, i) == RvalidOrPmpErr(s, i) && StreamAnswered(a, i) == FifoValid(s, i)
    ensures Recorded(Available(s.fifo, FifoInputs(s, i)), LogNow(a, i), a.pos / 2)
  {
    hide Queue, Prefix, Count, InFlight;
  }

  /** The halfword position moves over a word exactly when the FIFO drops one. */
  lemma PositionMoves(pos: nat, half: int, n: nat)
    requires pos % 2 == half % 2 && (n == 1 || n == 2) && 0 <= half < HALFWORDS
    ensures (pos + n) / 2 == pos / 2 + Bit(half / 2 != (half + n) / 2)
    ensures (pos + n) % 2 == ((half + n) % HALFWORDS) % 2
  {
  }

  /** The FIFO's words after the clock edge are those available now, without the head if it is used up. */
  lemma QueueOn(s: PbRegs, i: PbInputs)
    requires Ordered(s) && !i.branch
    ensures var q, f := Available(s.fifo, FifoInputs(s, i)), PbStep(s, i).fifo;
            && (Pop(s.fifo, FifoInputs(s, i)) ==> |q| > 0)
            && Queue(f) == if Pop(s.fifo, FifoInputs(s, i)) then q[1..] else q
  {
    RoomForResponse(s, i);
    StepIsQueueStep(s.fifo, FifoInputs(s, i));
    StepFields(s, i);
    NotCleared(s, i);
    hide PbStep, Step, FifoInputs, Pop, Available, Queue, Ordered;
  }

  /** The position moves on by what is accepted. */
  lemma PositionOn(s: PbRegs, a: Account, i: PbInputs)
    requires Ordered(s) && AccountOk(a) && !i.branch && a.pos % 2 == s.fifo.half % 2 && 0 <= s.fifo.half < HALFWORDS
    ensures var b, f := AccountNext(s, a, i), PbStep(s, i).fifo;
            b.pos / 2 == a.pos / 2 + Bit(Pop(s.fifo, FifoInputs(s, i))) && b.pos % 2 == f.half % 2
  {
    var f := FifoInputs(s, i);
    assert f.outReady == i.ready && OutValidO(s, i) == OutValid(s.fifo, f);
    NotCleared(s, i);
    RoomForResponse(s, i);
    OutputIsHeadOfQueue(s.fifo, f);
    PopLeavesWord(s.fifo, f);
    StepFields(s, i);
    hide PbStep, FifoInputs, Pop, Available, Queue, Ordered, OutValid, OutValidO, OutData, OutErr, OutErrPlus2,
         Increment, Compressed, FirstHalf, Complete, Answered, LogNow;
    if Accepted(s.fifo, f) {
      PositionMoves(a.pos, s.fifo.half, Increment(s.fifo, f));
    }
  }

  /** Dropping the head of the queue moves its place in the log by one. */
  lemma DropHead(q: seq<Entry>, log: seq<bool>, base: nat, drop: bool)
    requires Recorded(q, log, base) && (drop ==> |q| > 0)
    ensures Recorded(if drop then q[1..] else q, log, base + Bit(drop))
  {
    if drop {
      forall k | 0 <= k < |q| - 1 ensures q[1..][k].err == log[base + 1 + k] {
        assert q[k + 1].err == log[base + (k + 1)];
      }
    }
  }

  lemma LogAgreesOn(s: PbRegs, a: Account, i: PbInputs)
    requires Ordered(s) && Ordered(PbStep(s, i)) && RequestsAgree(s, a) && LogAgrees(s, a) && !i.branch
    requires 0 <= s.fifo.half < HALFWORDS
    ensures LogAgrees(PbStep(s, i), AccountNext(s, a, i))
    ensures AccountNext(s, a, i).pos / 2 == a.pos / 2 + Bit(Pop(s.fifo, FifoInputs(s, i)))
  {
    assert AccountOk(a) && AccountNext(s, a, i).log == LogNow(a, i) by {
      hide PbStep, LogNow, Granted;
    }
    hide PbStep, Ordered, RequestsAgree, Recorded, AccountNext, LogNow, Available, FifoInputs, Pop, Queue, Answered,
         StreamAnswered, RvalidOrPmpErr, FifoValid, Bit;
    RequestsAgreeStep(s, a, i);
    AvailableIsLog(s, a, i);
    QueueOn(s, i);
    PositionOn(s, a, i);
    DropHead(Available(s.fifo, FifoInputs(s, i)), LogNow(a, i), a.pos / 2, Pop(s.fifo, FifoInputs(s, i)));
  }

  lemma LogAgreesBranch(s: PbRegs, a: Account, i: PbInputs)
    requires Ordered(s) && Ordered(PbStep(s, i)) && i.branch && AccountOk(a) && 0 <= i.addr < ADDRESSES
    ensures LogAgrees(PbStep(s, i), AccountNext(s, a, i))
  {
    QueueCount(s, i);
    StepFields(s, i);
    hide PbStep, InReady, Prefix, StoredAddrNext, FetchAddrNext;
  }

  lemma AccountInvStep(m: Memory, s: PbRegs, w: World, a: Account, i: PbInputs)
    requires AccountInv(m, s, w, a) && Legal(m, s, w, i)
    ensures AccountInv(m, PbStep(s, i), WorldStep(s, w, i), AccountNext(s, a, i))
  {
    InvStep(m, s, w, i);
    RequestsAgreeStep(s, a, i);
    var t, v, b := PbStep(s, i), WorldStep(s, w, i), AccountNext(s, a, i);
    if i.branch {
      LogAgreesBranch(s, a, i);
      BranchWord(i.addr);
    } else if w.running {
      LogAgreesOn(s, a, i);
      CounterMoves(m, s, w, i);
      NthShift(a.start, a.pos / 2, Bit(Pop(s.fifo, FifoInputs(s, i))));
    }
    hide PbStep, Inv, LogAgrees, RequestsAgree, Pop, FifoInputs, Nth, WordOf, OutValidO;
  }

  lemma BranchWord(addr: int)
    requires 0 <= addr < ADDRESSES
    ensures addr / 2 / 2 == Nth(WordOf(addr), 0) && (addr / 2 % 2) / 2 == 0
  {
  }

  // ------------------------------------------------------------------ instructions

  /** An instruction `n` halfwords into a stream whose words were answered as `log` says carries an error
      exactly if one of its own words was answered with one, said to be in the second half exactly if the
      first half's word was not. */
  predicate CarriesItsErrors(log: seq<bool>, n: nat, lo: int, err: bool, plus2: bool) {
    && n / 2 < |log| && (!Compressed(lo) ==> (n + 1) / 2 < |log|)
    && (err <==> log[n / 2] || (!Compressed(lo) && log[(n + 1) / 2]))
    && (plus2 <==> err && !log[n / 2])
  }

  /** The first two words available, against the log. */
  lemma HeadErrors(s: PbRegs, a: Account, i: PbInputs)
    requires Ordered(s) && Ordered(PbStep(s, i)) && RequestsAgree(s, a) && LogAgrees(s, a)
    ensures var q, log, n := Available(s.fifo, FifoInputs(s, i)), LogNow(a, i), a.pos / 2;
            && (|q| > 0 ==> n < |log| && q[0].err == log[n])
            && (|q| > 1 ==> n + 1 < |log| && q[1].err == log[n + 1])
  {
    hide PbStep, Ordered, Available, LogNow, FifoInputs, RequestsAgree, LogAgrees;
    RequestsAgreeStep(s, a, i);
    AvailableIsLog(s, a, i);
  }

  lemma SecondHalfWord(n: nat)
    ensures (n + 1) / 2 == n / 2 + n % 2
  {
  }

  lemma OutputCarriesItsErrors(m: Memory, s: PbRegs, w: World, a: Account, i: PbInputs)
    requires AccountInv(m, s, w, a) && w.running && OutValidO(s, i)
    ensures var f := FifoInputs(s, i);
            CarriesItsErrors(LogNow(a, i), a.pos, OutData(s.fifo, f).lo, OutErr(s.fifo, f),
                             OutErr(s.fifo, f) && OutErrPlus2(s.fifo, f))
  {
    assert a.pos % 2 == s.fifo.half % 2 && LogAgrees(s, a) && RequestsAgree(s, a);
    hide AccountInv, Inv, PbStep, OutData, OutErr, OutErrPlus2, OutValid, FifoInputs, Available, LogNow, Compressed,
         Increment, Ordered, RequestsAgree, LogAgrees;
    OrderedStep(s, i);
    RoomForResponse(s, i);
    OutputIsHeadOfQueue(s.fifo, FifoInputs(s, i));
    HeadErrors(s, a, i);
    SecondHalfWord(a.pos);
  }

  // ------------------------------------------------------------------ runs

  /** What is heard on both sides: answers to requests of the stream with their words, instructions
      accepted, and branches. */
  datatype Event =
    | Answer(word: int, err: bool)
    | Accept(half: int, lo: int, err: bool, plus2: bool)
    | Redirect(target: int)

  function Answers(w: World, a: Account, i: PbInputs): seq<Event>
    requires AccountOk(a)
  {
    if StreamAnswered(a, i) && w.pend != [] then [Answer(w.pend[0], AnswerErr(a, i))] else []
  }

  function Accepts(s: PbRegs, i: PbInputs): seq<Event>
    requires PbShape(s)
  {
    var f := FifoInputs(s, i);
    if i.ready && OutValidO(s, i)
    then [Accept(s.fifo.half, OutData(s.fifo, f).lo, OutErr(s.fifo, f), OutErr(s.fifo, f) && OutErrPlus2(s.fifo, f))]
    else []
  }

  function Redirects(i: PbInputs): seq<Event> { if i.branch then [Redirect(i.addr / 2)] else [] }

  ghost function Heard(s: PbRegs, w: World, a: Account, run: seq<PbInputs>): seq<Event>
    requires PbShape(s)
    decreases |run|
  {
    if run == [] || !AccountOk(a) then []
    else Answers(w, a, run[0]) + (Accepts(s, run[0]) + (Redirects(run[0])
         + Heard(PbStep(s, run[0]), WorldStep(s, w, run[0]), AccountNext(s, a, run[0]), run[1..])))
  }

  /** From a branch on the answers are for consecutive words, and every instruction is at its place and
      carries the errors of its own words. */
  ghost predicate Attributed(start: int, log: seq<bool>, pos: nat, running: bool, heard: seq<Event>)
    decreases |heard|
  {
    heard == [] ||
    match heard[0]
    case Answer(word, err) =>
      && (running ==> word == Nth(start, |log|))
      && Attributed(start, log + [err], pos, running, heard[1..])
    case Accept(half, lo, err, plus2) =>
      && (running ==> half == (2 * start + pos) % HALFWORDS && CarriesItsErrors(log, pos, lo, err, plus2))
      && Attributed(start, log, pos + if Compressed(lo) then 1 else 2, running, heard[1..])
    case Redirect(target) => Attributed(target / 2, [], target % 2, true, heard[1..])
  }

  /** What one cycle adds to the account. */
  lemma HeardIsAttributed(m: Memory, s: PbRegs, w: World, a: Account, i: PbInputs)
    requires AccountInv(m, s, w, a) && Legal(m, s, w, i) && w.running
    ensures StreamAnswered(a, i) ==> w.pend != [] && w.pend[0] == Nth(a.start, |a.log|)
    ensures s.fifo.half == (2 * a.start + a.pos) % HALFWORDS
  {
    OrderedStep(s, i);
    RequestsAgreeStep(s, a, i);
    PlaceOfPosition(a.start, a.pos, s.fifo.half);
    if StreamAnswered(a, i) {
      assert Live(s, w.pend)[0] == w.pend[0] == Nth(w.half / 2, Count(s.fifo) + 0);
      NthShift(a.start, a.pos / 2, Count(s.fifo));
    }
  }

  lemma PlaceOfPosition(start: int, pos: nat, half: int)
    requires 0 <= half < HALFWORDS && pos % 2 == half % 2 && half / 2 == Nth(start, pos / 2)
    ensures half == (2 * start + pos) % HALFWORDS
  {
    var q := (start + pos / 2) / WORDS;
    assert half / 2 == start + pos / 2 - q * WORDS;
    assert half == 2 * start + pos - q * HALFWORDS;
  }

  lemma AnswersThen(w: World, a: Account, i: PbInputs, rest: seq<Event>)
    requires AccountOk(a)
        && (StreamAnswered(a, i) ==> w.pend != [] && (w.running ==> w.pend[0] == Nth(a.start, |a.log|)))
    requires Attributed(a.start, LogNow(a, i), a.pos, w.running, rest)
    ensures Attributed(a.start, a.log, a.pos, w.running, Answers(w, a, i) + rest)
  {
    hide Answered, AnswerErr, Nth, CarriesItsErrors, Compressed;
    if StreamAnswered(a, i) {
      assert (Answers(w, a, i) + rest)[1..] == rest;
    } else {
      assert Answers(w, a, i) + rest == rest && LogNow(a, i) == a.log;
    }
  }

  /** How far a cycle moves the position before any branch in it. */
  function Advanced(s: PbRegs, pos: nat, i: PbInputs): nat
    requires PbShape(s)
  {
    if i.ready && OutValidO(s, i) then pos + if Compressed(OutData(s.fifo, FifoInputs(s, i)).lo) then 1 else 2 else pos
  }

  lemma AcceptsThen(s: PbRegs, i: PbInputs, start: int, log: seq<bool>, pos: nat, running: bool, rest: seq<Event>)
    requires PbShape(s)
    requires running && OutValidO(s, i) ==>
               && s.fifo.half == (2 * start + pos) % HALFWORDS
               && var f := FifoInputs(s, i);
                  CarriesItsErrors(log, pos, OutData(s.fifo, f).lo, OutErr(s.fifo, f),
                                   OutErr(s.fifo, f) && OutErrPlus2(s.fifo, f))
    requires Attributed(start, log, Advanced(s, pos, i), running, rest)
    ensures Attributed(start, log, pos, running, Accepts(s, i) + rest)
  {
    hide OutData, OutErr, OutErrPlus2, OutValidO, FifoInputs, Compressed, CarriesItsErrors, Nth;
    if i.ready && OutValidO(s, i) {
      assert (Accepts(s, i) + rest)[1..] == rest;
    } else {
      assert Accepts(s, i) + rest == rest;
    }
  }

  lemma RedirectsThen(s: PbRegs, a: Account, i: PbInputs, running: bool, rest: seq<Event>)
    requires PbShape(s) && AccountOk(a) && 0 <= i.addr < ADDRESSES
    requires var b := AccountNext(s, a, i); Attributed(b.start, b.log, b.pos, running || i.branch, rest)
    ensures Attributed(a.start, LogNow(a, i), Advanced(s, a.pos, i), running, Redirects(i) + rest)
  {
    hide OutData, OutValidO, FifoInputs, Compressed, Granted, LogNow, Answered, CarriesItsErrors, Nth;
    if i.branch {
      assert (Redirects(i) + rest)[1..] == rest && i.addr / 2 / 2 == WordOf(i.addr);
    } else {
      assert Redirects(i) + rest == rest;
    }
  }

  /** One cycle's events in front of an attributed rest. */
  lemma CycleIsAttributed(m: Memory, s: PbRegs, w: World, a: Account, i: PbInputs, later: seq<Event>)
    requires AccountInv(m, s, w, a) && Legal(m, s, w, i)
    requires var b := AccountNext(s, a, i); Attributed(b.start, b.log, b.pos, w.running || i.branch, later)
    ensures Attributed(a.start, a.log, a.pos, w.running, Answers(w, a, i) + (Accepts(s, i) + (Redirects(i) + later)))
  {
    assert PbShape(s) && AccountOk(a) && 0 <= i.addr < ADDRESSES;
    hide *;
    StreamAnswerIsPending(m, s, w, a, i);
    if w.running {
      HeardIsAttributed(m, s, w, a, i);
      if OutValidO(s, i) {
        OutputCarriesItsErrors(m, s, w, a, i);
      }
    }
    RedirectsThen(s, a, i, w.running, later);
    AcceptsThen(s, i, a.start, LogNow(a, i), a.pos, w.running, Redirects(i) + later);
    AnswersThen(w, a, i, Accepts(s, i) + (Redirects(i) + later));
  }

  lemma {:induction false} RunIsAttributed(m: Memory, s: PbRegs, w: World, a: Account, run: seq<PbInputs>)
    requires AccountInv(m, s, w, a) && LegalRun(m, s, w, run)
    ensures Attributed(a.start, a.log, a.pos, w.running, Heard(s, w, a, run))
    decreases |run|
  {
    assert PbShape(s) && AccountOk(a);
    if run == [] {
    } else {
      var i := run[0];
      var t, v, b := PbStep(s, i), WorldStep(s, w, i), AccountNext(s, a, i);
      assert v.running == (w.running || i.branch) by {
        hide BusNext, PendNext, FetchNext;
      }
      hide AccountInv, Legal, PbStep, WorldStep, AccountNext, Attributed, Answers, Accepts, Redirects;
      AccountInvStep(m, s, w, a, i);
      RunIsAttributed(m, t, v, b, run[1..]);
      CycleIsAttributed(m, s, w, a, i, Heard(t, v, b, run[1..]));
    }
  }

  lemma StreamAnswerIsPending(m: Memory, s: PbRegs, w: World, a: Account, i: PbInputs)
    requires AccountInv(m, s, w, a)
    ensures StreamAnswered(a, i) ==> w.pend != []
  {
  }

  const NO_ACCOUNT := Account([], [], false, false, 0, [], 0)

  /** From reset, for every memory, every timing, every readiness and branch pattern, and PMP answers and
      bus errors that may differ each time a word is asked for: an instruction carries an error exactly
      if one of its own words was answered with one, attributed to the right half. */
  lemma ErrorsAreAttributed(m: Memory, s: PbRegs, run: seq<PbInputs>)
    requires IsReset(s) && LegalRun(m, s, IDLE, run)
    ensures Attributed(0, [], 0, false, Heard(s, IDLE, NO_ACCOUNT, run))
  {
    InvReset(m, s);
    RunIsAttributed(m, s, IDLE, NO_ACCOUNT, run);
  }
}
