/** rtl/ibex_fetch_fifo.sv: a shifting FIFO of fetched words with a bypass from its input, and
    the aligner that cuts 16- and 32-bit instructions out of it. */
module FetchFifo {

  const DEPTH := 3
  const HALFWORDS := 0x8000_0000

  /** A fetched 32-bit word as its two halfwords. */
  datatype Word = Word(lo: int, hi: int)

  /** One word with the error that came with it. */
  datatype Entry = Entry(word: Word, err: bool)

  /** An instruction is compressed unless its two lowest bits are both set. */
  predicate Compressed(half: int) { half % 4 != 3 }

  /** `half` is `instr_addr_q[31:1]`: the address of the head instruction in halfwords. */
  datatype Regs = Regs(valid: seq<bool>, word: seq<Word>, err: seq<bool>, half: int)

  datatype Inputs = Inputs(clear: bool, inValid: bool, inAddr: int, incoming: Entry, outReady: bool)

  predicate Shape(s: Regs) {
    |s.valid| == DEPTH && |s.word| == DEPTH && |s.err| == DEPTH
  }

  // ------------------------------------------------------------------ output port

  function HeadWord(s: Regs, i: Inputs): Word
    requires Shape(s)
  {
    if s.valid[0] then s.word[0] else i.incoming.word
  }

  predicate Unaligned(s: Regs) { s.half % 2 == 1 }

  predicate UnalignedIsCompressed(s: Regs, i: Inputs)
    requires Shape(s)
  {
    Compressed(HeadWord(s, i).hi)
  }

  predicate AlignedIsCompressed(s: Regs, i: Inputs)
    requires Shape(s)
  {
    Compressed(HeadWord(s, i).lo)
  }

  predicate OutValid(s: Regs, i: Inputs)
    requires Shape(s)
  {
    if Unaligned(s) && !UnalignedIsCompressed(s, i) then s.valid[1] || (s.valid[0] && i.inValid)
    else s.valid[0] || i.inValid
  }

  function OutData(s: Regs, i: Inputs): Word
    requires Shape(s)
  {
    if Unaligned(s)
    then Word(HeadWord(s, i).hi, if s.valid[1] then s.word[1].lo else i.incoming.word.lo)
    else HeadWord(s, i)
  }

  predicate OutErr(s: Regs, i: Inputs)
    requires Shape(s)
  {
    if !Unaligned(s) then if s.valid[0] then s.err[0] else i.incoming.err
    else if s.valid[1] then (s.err[1] && !UnalignedIsCompressed(s, i)) || s.err[0]
    else (s.valid[0] && s.err[0]) ||
         (i.incoming.err && (!s.valid[0] || !UnalignedIsCompressed(s, i)))
  }

  /** The error belongs to the second half of an unaligned instruction. */
  predicate OutErrPlus2(s: Regs, i: Inputs)
    requires Shape(s)
  {
    Unaligned(s) &&
    if s.valid[1] then s.err[1] && !s.err[0] else i.incoming.err && s.valid[0] && !s.err[0]
  }

  // ------------------------------------------------------------------ input port and next state

  /** Space for every request that may be outstanding. */
  predicate InReady(s: Regs)
    requires Shape(s)
  {
    !s.valid[1]
  }

  /** Halfwords in the head instruction. */
  function Increment(s: Regs, i: Inputs): int
    requires Shape(s)
  {
    var one := if Unaligned(s) then UnalignedIsCompressed(s, i) else AlignedIsCompressed(s, i);
    if one then 1 else 2
  }

  predicate Accepted(s: Regs, i: Inputs)
    requires Shape(s)
  {
    i.outReady && OutValid(s, i)
  }

  /** The head entry is used up: an aligned compressed instruction leaves its upper half. */
  predicate Pop(s: Regs, i: Inputs)
    requires Shape(s)
  {
    Accepted(s, i) && (!AlignedIsCompressed(s, i) || Unaligned(s))
  }

  predicate LowestFree(s: Regs, k: nat)
    requires Shape(s) && k < DEPTH
  {
    !s.valid[k] && (k > 0 ==> s.valid[k - 1])
  }

  predicate Pushed(s: Regs, i: Inputs, k: nat)
    requires Shape(s) && k < DEPTH
  {
    (i.inValid && LowestFree(s, k)) || s.valid[k]
  }

  predicate ValidNext(s: Regs, i: Inputs, k: nat)
    requires Shape(s) && k < DEPTH
  {
    && !i.clear
    && if Pop(s, i) then k + 1 < DEPTH && Pushed(s, i, k + 1) else Pushed(s, i, k)
  }

  predicate EntryEnable(s: Regs, i: Inputs, k: nat)
    requires Shape(s) && k < DEPTH
  {
    if k + 1 < DEPTH
    then (Pushed(s, i, k + 1) && Pop(s, i)) || (i.inValid && LowestFree(s, k) && !Pop(s, i))
    else i.inValid && LowestFree(s, k)
  }

  predicate TakesNext(s: Regs, k: nat)
    requires Shape(s) && k < DEPTH
  {
    k + 1 < DEPTH && s.valid[k + 1]
  }

  function WordNext(s: Regs, i: Inputs, k: nat): Word
    requires Shape(s) && k < DEPTH
  {
    if !EntryEnable(s, i, k) then s.word[k]
    else if TakesNext(s, k) then s.word[k + 1] else i.incoming.word
  }

  predicate ErrNext(s: Regs, i: Inputs, k: nat)
    requires Shape(s) && k < DEPTH
  {
    if !EntryEnable(s, i, k) then s.err[k]
    else if TakesNext(s, k) then s.err[k + 1] else i.incoming.err
  }

  function HalfNext(s: Regs, i: Inputs): int
    requires Shape(s)
  {
    if i.clear then i.inAddr / 2
    else if Accepted(s, i) then (s.half + Increment(s, i)) % HALFWORDS
    else s.half
  }

  /** One clock edge. */
  function Step(s: Regs, i: Inputs): (t: Regs)
    requires Shape(s)
    ensures Shape(t)
  {
    Regs([ValidNext(s, i, 0), ValidNext(s, i, 1), ValidNext(s, i, 2)],
         [WordNext(s, i, 0), WordNext(s, i, 1), WordNext(s, i, 2)],
         [ErrNext(s, i, 0), ErrNext(s, i, 1), ErrNext(s, i, 2)],
         HalfNext(s, i))
  }

  /** The FIFO's flops, shifted and written in place. */
  class Fifo {
    var valid: seq<bool>
    var word: seq<Word>
    var err: seq<bool>
    var half: int

    function State(): Regs
      reads this
    {
      Regs(valid, word, err, half)
    }

    constructor ()
      ensures Shape(State()) && valid == [false, false, false]
    {
      valid := [false, false, false];
      word := [Word(0, 0), Word(0, 0), Word(0, 0)];
      err := [false, false, false];
      half := 0;
    }

    /** One entry's flops, given the state `s` before the edge. */
    method ClockEntry(s: Regs, i: Inputs, k: nat)
      requires Shape(s) && Shape(State()) && k < DEPTH
      requires forall j :: k <= j < DEPTH ==> word[j] == s.word[j] && err[j] == s.err[j]
      modifies this
      ensures valid == old(valid)[k := ValidNext(s, i, k)]
      ensures word == old(word)[k := WordNext(s, i, k)]
      ensures err == old(err)[k := ErrNext(s, i, k)]
      ensures half == old(half)
    {
      hide ValidNext, EntryEnable;
      if EntryEnable(s, i, k) {
        word := word[k := if TakesNext(s, k) then word[k + 1] else i.incoming.word];
        err := err[k := if TakesNext(s, k) then err[k + 1] else i.incoming.err];
      }
      valid := valid[k := ValidNext(s, i, k)];
    }

    method Clock(i: Inputs)
      requires Shape(State())
      modifies this
      ensures Shape(State())
      ensures State() == Step(old(State()), i)
    {
      hide ValidNext, WordNext, ErrNext, HalfNext;
      var s := State();
      half := HalfNext(s, i);
      ClockEntry(s, i, 0);
      ClockEntry(s, i, 1);
      ClockEntry(s, i, 2);
    }
  }
}

/** Seen from outside the FIFO is a queue of words, the incoming one included at its end. */
module FetchFifoQueue {
  import opened FetchFifo

  /** Valid bits form a prefix. */
  predicate Prefix(s: Regs)
    requires Shape(s)
  {
    (s.valid[1] ==> s.valid[0]) && (s.valid[2] ==> s.valid[1])
  }

  function Count(s: Regs): nat
    requires Shape(s)
  {
    if s.valid[2] then 3 else if s.valid[1] then 2 else if s.valid[0] then 1 else 0
  }

  function Queue(s: Regs): (q: seq<Entry>)
    requires Shape(s)
    ensures |q| == Count(s)
  {
    var e0, e1, e2 := Entry(s.word[0], s.err[0]), Entry(s.word[1], s.err[1]), Entry(s.word[2], s.err[2]);
    if s.valid[2] then [e0, e1, e2] else if s.valid[1] then [e0, e1] else if s.valid[0] then [e0] else []
  }

  /** The stored words followed by the one arriving now. */
  function Available(s: Regs, i: Inputs): seq<Entry>
    requires Shape(s)
  {
    Queue(s) + if i.inValid then [i.incoming] else []
  }

  /** A word is never pushed into a full FIFO. */
  predicate HasRoom(s: Regs, i: Inputs)
    requires Shape(s)
  {
    i.inValid ==> !s.valid[2]
  }

  /** The instruction at halfword `half` can be cut from the queue. */
  predicate Complete(q: seq<Entry>, half: int) {
    |q| > 0 && (half % 2 == 1 && !Compressed(q[0].word.hi) ==> |q| > 1)
  }

  /** Its first halfword. */
  function FirstHalf(q: seq<Entry>, half: int): int
    requires |q| > 0
  {
    if half % 2 == 1 then q[0].word.hi else q[0].word.lo
  }

  lemma OutputIsHeadOfQueue(s: Regs, i: Inputs)
    requires Shape(s) && Prefix(s) && HasRoom(s, i)
    ensures var q := Available(s, i);
            && (OutValid(s, i) <==> Complete(q, s.half))
            && (OutValid(s, i) ==>
                  && OutData(s, i).lo == FirstHalf(q, s.half)
                  && (!Compressed(FirstHalf(q, s.half)) ==>
                        OutData(s, i).hi == if s.half % 2 == 1 then q[1].word.lo else q[0].word.hi)
                  && Increment(s, i) == (if Compressed(FirstHalf(q, s.half)) then 1 else 2)
                  && (OutErr(s, i) <==>
                        q[0].err || (s.half % 2 == 1 && !Compressed(q[0].word.hi) && q[1].err))
                  && (OutErr(s, i) ==> (OutErrPlus2(s, i) <==> !q[0].err)))
  {
  }

  /** A clock edge appends the incoming word and drops the head once its last halfword is used. */
  lemma StepIsQueueStep(s: Regs, i: Inputs)
    requires Shape(s) && Prefix(s) && HasRoom(s, i)
    ensures Prefix(Step(s, i))
    ensures var q := Available(s, i);
            && (Pop(s, i) ==> |q| > 0)
            && Queue(Step(s, i)) == if i.clear then [] else if Pop(s, i) then q[1..] else q
  {
    OutputIsHeadOfQueue(s, i);
    assert Pop(s, i) ==> |Available(s, i)| > 0;
    hide Pop, OutValid, OutErr, OutData, OutErrPlus2;
  }

  /** The head is dropped exactly when the address leaves its word. */
  lemma PopLeavesWord(s: Regs, i: Inputs)
    requires Shape(s)
    ensures Pop(s, i) <==> Accepted(s, i) && s.half / 2 != (s.half + Increment(s, i)) / 2
  {
    hide Accepted, HeadWord, Compressed;
  }
}
