/** Byte-level meaning of the unit's bus traffic. */
module LoadStoreProofs {
  import opened LoadStoreUnit

  type Memory = int -> Word

  /** One access of the program. */
  datatype Op = Op(we: bool, size: Size, signExt: bool, addr: Address, data: Word)

  // ------------------------------------------------------------------ reference machine

  function Bytes(size: Size): nat { match size case WordSize => 4 case HalfSize => 2 case ByteSize => 1 }

  function Plus(a: Address, k: nat): Address {
    if a.offset + k < 4 then Address(a.word, a.offset + k) else Address((a.word + 1) % WORDS, a.offset + k - 4)
  }

  function WithByte(w: Word, k: nat, b: Byte): Word {
    if k == 0 then w.(b0 := b) else if k == 1 then w.(b1 := b) else if k == 2 then w.(b2 := b) else w.(b3 := b)
  }

  /** A store writes its bytes one after the other; here bytes `from` up to `n`. */
  function StoreBytes(m: Memory, a: Address, d: Word, from: nat, n: nat): Memory
    requires from <= n <= 4
    decreases n
  {
    if n == from then m
    else var before, p := StoreBytes(m, a, d, from, n - 1), Plus(a, n - 1);
         x => if x == p.word then WithByte(before(x), p.offset, d.At(n - 1)) else before(x)
  }

  function Store(m: Memory, op: Op): Memory {
    if op.we then StoreBytes(m, op.addr, op.data, 0, Bytes(op.size)) else m
  }

  function ByteAt(m: Memory, a: Address): Byte
    requires a.offset < 4
  {
    m(a.word).At(a.offset)
  }

  /** A load reads its bytes one by one and extends. */
  function Load(m: Memory, op: Op): Word
    requires AddressOk(op.addr)
  {
    var b0, b1 := ByteAt(m, op.addr), ByteAt(m, Plus(op.addr, 1));
    match op.size
    case WordSize => Word(b0, b1, ByteAt(m, Plus(op.addr, 2)), ByteAt(m, Plus(op.addr, 3)))
    case HalfSize => Word(b0, b1, SignByte(b1, op.signExt), SignByte(b1, op.signExt))
    case ByteSize => Word(b0, SignByte(b0, op.signExt), SignByte(b0, op.signExt), SignByte(b0, op.signExt))
  }

  /** The program's accesses, in order. */
  function Program(m: Memory, ops: seq<Op>): Memory {
    if ops == [] then m else Store(Program(m, ops[..|ops| - 1]), ops[|ops| - 1])
  }

  // ------------------------------------------------------------------ accesses that meet errors

  /** One flag for each bus transaction of an access; the second one only counts when it is split. */
  datatype Halves = Halves(first: bool, second: bool)

  const NEITHER := Halves(false, false)

  predicate SplitOp(op: Op) { Split(op.size, op.addr.offset) }

  /** The bytes of the access in the addressed word. */
  function FirstBytes(op: Op): nat
    requires AddressOk(op.addr)
  {
    if SplitOp(op) then 4 - op.addr.offset else Bytes(op.size)
  }

  /** What has become of one access: the halves the PMP denies, those the bus has granted, those that
      took effect in memory and those answered with an error; the byte lanes driven and the
      responses given to the core. */
  datatype Access = Access(op: Op, denied: Halves, granted: Halves, did: Halves, erred: Halves,
                           lanes: nat, responses: nat)

  /** A store of which only the halves in `did` take effect. */
  function Apply(m: Memory, op: Op, did: Halves): Memory
    requires AddressOk(op.addr)
  {
    var f := FirstBytes(op);
    var half := if op.we && did.first then StoreBytes(m, op.addr, op.data, 0, f) else m;
    if op.we && did.second then StoreBytes(half, op.addr, op.data, f, Bytes(op.size)) else half
  }

  predicate AllOk(log: seq<Access>) { forall k :: 0 <= k < |log| ==> AddressOk(log[k].op.addr) }

  /** The accesses in order, each with the halves that took effect. */
  function Execute(m: Memory, log: seq<Access>): Memory
    requires AllOk(log)
  {
    if log == [] then m
    else Apply(Execute(m, log[..|log| - 1]), log[|log| - 1].op, log[|log| - 1].did)
  }

  // ------------------------------------------------------------------ the bus and its memory

  function MergeWord(w: Word, be: Lanes, d: Word): Word {
    Word(if be.l0 then d.b0 else w.b0, if be.l1 then d.b1 else w.b1,
         if be.l2 then d.b2 else w.b2, if be.l3 then d.b3 else w.b3)
  }

  function WriteWord(m: Memory, word: int, be: Lanes, d: Word): Memory {
    x => if x == word then MergeWord(m(x), be, d) else m(x)
  }

  ghost predicate Same(m: Memory, n: Memory) { forall x :: m(x) == n(x) }

  function Bit(b: bool): nat { if b then 1 else 0 }

  function LaneCount(be: Lanes): nat { Bit(be.l0) + Bit(be.l1) + Bit(be.l2) + Bit(be.l3) }

  /** Byte `o` of word `x` is byte number `Index` of an access at `a`; four when it is none. */
  function Index(a: Address, x: int, o: nat): int
    requires a.offset < 4 && o < 4
  {
    if x == a.word && a.offset <= o then o - a.offset
    else if x == (a.word + 1) % WORDS && o < a.offset then o + 4 - a.offset
    else 4
  }

  /** `StoreBytes` changes the bytes of the access in its range and no other. */
  lemma {:induction false} StoredBytes(m: Memory, a: Address, d: Word, from: nat, n: nat, x: int, o: nat)
    requires AddressOk(a) && from <= n <= 4 && o < 4
    ensures StoreBytes(m, a, d, from, n)(x).At(o)
         == if from <= Index(a, x, o) < n then d.At(Index(a, x, o)) else m(x).At(o)
    decreases n
  {
    if n == from {
    } else {
      var before, p := StoreBytes(m, a, d, from, n - 1), Plus(a, n - 1);
      StoredBytes(m, a, d, from, n - 1, x, o);
      assert StoreBytes(m, a, d, from, n)(x)
          == if x == p.word then WithByte(before(x), p.offset, d.At(n - 1)) else before(x);
      hide StoreBytes, WithByte, Plus, Index;
      IndexOfByte(a, n - 1, x, o);
      WithByteAt(before(x), p.offset, d.At(n - 1), o);
    }
  }

  /** Byte number `k` of an access is where `Plus` says. */
  lemma IndexOfByte(a: Address, k: nat, x: int, o: nat)
    requires AddressOk(a) && k < 4 && o < 4
    ensures Index(a, x, o) == k <==> x == Plus(a, k).word && o == Plus(a, k).offset
    ensures Plus(a, k).offset < 4 && Index(a, x, o) >= 0
  {
    assert (a.word + 1) % WORDS != a.word;
  }

  lemma WithByteAt(w: Word, k: nat, b: Byte, o: nat)
    requires k < 4 && o < 4
    ensures WithByte(w, k, b).At(o) == if o == k then b else w.At(o)
  {
  }

  lemma SameBytes(v: Word, w: Word)
    requires forall o :: 0 <= o < 4 ==> v.At(o) == w.At(o)
    ensures v == w
  {
    assert v.At(0) == w.At(0) && v.At(1) == w.At(1) && v.At(2) == w.At(2) && v.At(3) == w.At(3);
  }

  /** One bus write changes the enabled lanes of one word. */
  lemma WrittenBytes(m: Memory, word: int, be: Lanes, d: Word, x: int, o: nat)
    requires o < 4
    ensures WriteWord(m, word, be, d)(x).At(o) == if x == word && be.At(o) then d.At(o) else m(x).At(o)
  {
    assert WriteWord(m, word, be, d)(x) == if x == word then MergeWord(m(x), be, d) else m(x);
  }

  /** Lane `o` of the rotated store data and its enable, in terms of the bytes of the access. */
  lemma LanesOfAccess(size: Size, d: Word, a: Address, o: nat)
    requires AddressOk(a) && o < 4
    ensures ByteEnable(size, a.offset, false).At(o) <==> Index(a, a.word, o) < Bytes(size)
    ensures Split(size, a.offset) ==> (ByteEnable(size, a.offset, true).At(o)
              <==> Index(a, (a.word + 1) % WORDS, o) < Bytes(size))
    ensures a.offset <= o ==> WData(d, a.offset).At(o) == d.At(o - a.offset)
    ensures o < a.offset ==> WData(d, a.offset).At(o) == d.At(o + 4 - a.offset)
  {
    assert (a.word + 1) % WORDS != a.word;
  }

  /** The first bus write stores the bytes that lie in the addressed word. */
  lemma FirstWrite(m: Memory, base: Memory, op: Op)
    requires AddressOk(op.addr) && Same(m, base)
    ensures Same(WriteWord(m, op.addr.word, ByteEnable(op.size, op.addr.offset, false), WData(op.data, op.addr.offset)),
                 StoreBytes(base, op.addr, op.data, 0, FirstBytes(op)))
  {
    var n, a := FirstBytes(op), op.addr;
    var be, d := ByteEnable(op.size, a.offset, false), WData(op.data, a.offset);
    forall x ensures WriteWord(m, a.word, be, d)(x) == StoreBytes(base, a, op.data, 0, n)(x) {
      forall o | 0 <= o < 4
        ensures WriteWord(m, a.word, be, d)(x).At(o) == StoreBytes(base, a, op.data, 0, n)(x).At(o)
      {
        WrittenBytes(m, a.word, be, d, x, o);
        StoredBytes(base, a, op.data, 0, n, x, o);
        LanesOfAccess(op.size, op.data, a, o);
      }
      SameBytes(WriteWord(m, a.word, be, d)(x), StoreBytes(base, a, op.data, 0, n)(x));
    }
  }

  /** The second bus write of a split store stores the others, in the next word. */
  lemma SecondWrite(m: Memory, base: Memory, op: Op)
    requires AddressOk(op.addr) && SplitOp(op) && Same(m, base)
    ensures Same(WriteWord(m, (op.addr.word + 1) % WORDS, ByteEnable(op.size, op.addr.offset, true),
                           WData(op.data, op.addr.offset)),
                 StoreBytes(base, op.addr, op.data, FirstBytes(op), Bytes(op.size)))
  {
    var a, f, n, next := op.addr, FirstBytes(op), Bytes(op.size), (op.addr.word + 1) % WORDS;
    var be, d := ByteEnable(op.size, a.offset, true), WData(op.data, a.offset);
    hide ByteEnable, WData, WriteWord, StoreBytes;
    forall x ensures WriteWord(m, next, be, d)(x) == StoreBytes(base, a, op.data, f, n)(x) {
      forall o | 0 <= o < 4 ensures WriteWord(m, next, be, d)(x).At(o) == StoreBytes(base, a, op.data, f, n)(x).At(o) {
        SecondLane(op, x, o);
        WrittenBytes(m, next, be, d, x, o);
        StoredBytes(base, a, op.data, f, n, x, o);
      }
      SameBytes(WriteWord(m, next, be, d)(x), StoreBytes(base, a, op.data, f, n)(x));
    }
  }

  /** The lanes of the second transaction are the bytes from number `4 - offset` on. */
  lemma SecondLane(op: Op, x: int, o: nat)
    requires AddressOk(op.addr) && SplitOp(op) && o < 4
    ensures var k := Index(op.addr, x, o);
            && FirstBytes(op) <= Bytes(op.size) <= 4 && 0 <= k
            && (x == (op.addr.word + 1) % WORDS && ByteEnable(op.size, op.addr.offset, true).At(o)
                <==> FirstBytes(op) <= k < Bytes(op.size))
            && (FirstBytes(op) <= k < Bytes(op.size) ==> WData(op.data, op.addr.offset).At(o) == op.data.At(k))
  {
    assert (op.addr.word + 1) % WORDS != op.addr.word;
    LanesOfAccess(op.size, op.data, op.addr, o);
    hide ByteEnable, WData;
  }

  /** Bytes of the access that took effect, one by one. */
  lemma AppliedBytes(m: Memory, op: Op, did: Halves, x: int, o: nat)
    requires AddressOk(op.addr) && o < 4
    ensures var k := Index(op.addr, x, o);
            Apply(m, op, did)(x).At(o) ==
              if op.we && k < Bytes(op.size) && (if k < FirstBytes(op) then did.first else did.second)
              then op.data.At(k)
              else m(x).At(o)
  {
    var f := FirstBytes(op);
    IndexOfByte(op.addr, 0, x, o);
    hide StoreBytes, Index, Split;
    if op.we {
      StoredBytes(m, op.addr, op.data, 0, f, x, o);
      var half := if did.first then StoreBytes(m, op.addr, op.data, 0, f) else m;
      StoredBytes(half, op.addr, op.data, f, Bytes(op.size), x, o);
    }
  }

  /** A store all of whose halves take effect is the store of the program, on equal memories. */
  lemma AppliedIsStore(m: Memory, n: Memory, op: Op, did: Halves)
    requires AddressOk(op.addr) && Same(m, n) && did.first && (SplitOp(op) ==> did.second)
    ensures Same(Apply(m, op, did), Store(n, op))
  {
    forall x ensures Apply(m, op, did)(x) == Store(n, op)(x) {
      forall o | 0 <= o < 4 ensures Apply(m, op, did)(x).At(o) == Store(n, op)(x).At(o) {
        AppliedBytes(m, op, did, x, o);
        IndexOfByte(op.addr, 0, x, o);
        if op.we {
          StoredBytes(n, op.addr, op.data, 0, Bytes(op.size), x, o);
        }
        hide Apply, StoreBytes, Index;
      }
      SameBytes(Apply(m, op, did)(x), Store(n, op)(x));
    }
  }

  // ------------------------------------------------------------------ environment

  /** A granted transaction: the word memory held there, and whether it took effect. */
  datatype Transaction = Transaction(second: bool, we: bool, data: Word, done: bool)

  datatype Current = None | Some(access: Access)

  /** `now` is the access presented last, possibly in progress, and `past` those before it; `bus` the
      transactions granted and not answered; `recent` holds in the cycle after the first half of a
      split access was answered. */
  datatype World = World(past: seq<Access>, now: Current, mem: Memory, bus: seq<Transaction>, recent: bool)

  /** A cycle: the inputs; whether a transaction granted in it takes effect in memory; and whether the
      PMP denies the second half of an access that starts in it. */
  datatype Cycle = Cycle(i: Inputs, takes: bool, denySecond: bool)

  function OpOf(i: Inputs): Op { Op(i.we, i.size, i.signExt, i.addr, i.wdata) }

  function NextWord(a: Address): Address { Address((a.word + 1) % WORDS, a.offset) }

  predicate Starts(s: Regs, i: Inputs) { s.fsm == IDLE && i.req }

  /** A request the PMP denies is not on the bus, so a grant seen with it means nothing. */
  predicate Granted(s: Regs, i: Inputs) { DataReq(s, i) && i.gnt && !i.pmpErr }

  /** Grants at any time; responses in order, later than their grants, with an error, or of a
      transaction that took effect and, if it reads, with what memory held at the grant. The ID stage
      starts an access when at most the response arriving now is missing, holds its operands until the
      FSM is idle again, the data only of a store, and computes the second address from the last one
      when asked to. The PMP's verdict on each half holds for the whole access. */
  predicate Legal(s: Regs, w: World, c: Cycle) {
    var i := c.i;
    && AddressOk(i.addr)
    && (i.rvalid ==> w.bus != [] && (!i.err ==> w.bus[0].done && (w.bus[0].we || i.rdata == w.bus[0].data)))
    && (Starts(s, i) ==> w.bus == [] || (i.rvalid && |w.bus| == 1))
    && (s.fsm != IDLE ==>
          && w.now.Some?
          && var a := w.now.access;
             && i.pmpErr == (if AddrIncr(s) then a.denied.second else a.denied.first)
             && OpOf(i) == a.op.(addr := if AddrIncr(s) then NextWord(s.addrLast) else a.op.addr,
                                 data := if a.op.we then a.op.data else i.wdata))
  }

  function With(h: Halves, second: bool, value: bool): Halves {
    if second then h.(second := value) else h.(first := value)
  }

  /** The access after the answer and the response of a cycle. */
  function Answered(s: Regs, w: World, i: Inputs, a: Access): Access {
    a.(erred := if i.rvalid && i.err && w.bus != [] then With(a.erred, w.bus[0].second, true) else a.erred,
       responses := a.responses + Bit(RespValid(s, i)))
  }

  /** The access after the grant of a cycle. */
  function Issued(s: Regs, c: Cycle, a: Access): Access {
    if !Granted(s, c.i) then a
    else a.(granted := With(a.granted, AddrIncr(s), true), did := With(a.did, AddrIncr(s), c.takes),
            lanes := a.lanes + LaneCount(ByteEnable(c.i.size, c.i.addr.offset, s.handle)))
  }

  function Opened(c: Cycle): Access {
    Access(OpOf(c.i), Halves(c.i.pmpErr, c.denySecond), NEITHER, NEITHER, NEITHER, 0, 0)
  }

  function MemNext(s: Regs, m: Memory, c: Cycle): Memory {
    var i := c.i;
    if Granted(s, i) && i.we && c.takes
    then WriteWord(m, i.addr.word, ByteEnable(i.size, i.addr.offset, s.handle), WData(i.wdata, i.addr.offset))
    else m
  }

  function BusNext(s: Regs, w: World, c: Cycle): seq<Transaction> {
    (if c.i.rvalid && w.bus != [] then w.bus[1..] else w.bus)
    + (if Granted(s, c.i) then [Transaction(AddrIncr(s), c.i.we, w.mem(c.i.addr.word), c.takes)] else [])
  }

  function WorldStep(s: Regs, w: World, c: Cycle): World {
    var i := c.i;
    World(if Starts(s, i) && w.now.Some? then w.past + [Answered(s, w, i, w.now.access)] else w.past,
          if Starts(s, i) then Some(Issued(s, c, Opened(c)))
          else if w.now.Some? then Some(Issued(s, c, Answered(s, w, i, w.now.access)))
          else None,
          MemNext(s, w.mem, c), BusNext(s, w, c),
          i.rvalid && (s.fsm == WAIT_RVALID_MIS || s.fsm == WAIT_RVALID_MIS_GNTS_DONE))
  }

  // ------------------------------------------------------------------ invariant

  function LanesOf(op: Op, h: Halves): nat
    requires AddressOk(op.addr)
  {
    (if h.first then FirstBytes(op) else 0) + (if SplitOp(op) && h.second then Bytes(op.size) - FirstBytes(op) else 0)
  }

  /** Only granted transactions take effect or meet errors, and each granted lane is driven once. */
  predicate Accounted(a: Access) {
    && AddressOk(a.op.addr) && a.lanes == LanesOf(a.op, a.granted) && (a.granted.second ==> SplitOp(a.op))
    && (a.did.first || a.erred.first ==> a.granted.first) && (a.did.second || a.erred.second ==> a.granted.second)
  }

  /** Exactly the halves that are not denied have been granted. */
  predicate Allowed(a: Access) {
    a.granted == Halves(!a.denied.first, SplitOp(a.op) && !a.denied.second)
  }

  /** A half was denied or answered with an error. */
  predicate Failed(a: Access) {
    a.denied.first || (SplitOp(a.op) && a.denied.second) || a.erred.first || a.erred.second
  }

  /** An access that has been answered: once, with every half denied, failed or in memory. */
  predicate Finished(a: Access) {
    && Accounted(a) && Allowed(a) && a.responses == 1
    && (a.granted.first ==> a.did.first || a.erred.first) && (a.granted.second ==> a.did.second || a.erred.second)
  }

  predicate Ctrl(s: Regs, op: Op) {
    s.offset == op.addr.offset && s.size == op.size && s.signExt == op.signExt && s.we == op.we
  }

  /** The transactions of the access, `base` being memory before it. */
  function FirstOf(a: Access, base: Memory): Transaction {
    Transaction(false, a.op.we, base(a.op.addr.word), a.did.first)
  }

  function SecondOf(a: Access, base: Memory): Transaction {
    Transaction(true, a.op.we, base(NextWord(a.op.addr).word), a.did.second)
  }

  predicate FirstFailed(a: Access) { a.denied.first || a.erred.first }

  /** The first half is over: denied, failed or in memory. */
  predicate FirstOver(a: Access) {
    a.granted.first == !a.denied.first && (a.granted.first ==> a.did.first || a.erred.first)
  }

  /** The access has yet to be answered to the core, by the last transaction or because it was denied. */
  predicate Due(s: Regs, w: World, a: Access, base: Memory) {
    && Allowed(a) && Ctrl(s, a.op) && !a.erred.second
    && s.pmpErr == (if SplitOp(a.op) then a.denied.second else a.denied.first)
    && w.bus == (if s.pmpErr then [] else if SplitOp(a.op) then [SecondOf(a, base)] else [FirstOf(a, base)])
    && s.lsuErr == (SplitOp(a.op) && FirstFailed(a))
    && s.addrLast == (if SplitOp(a.op) && !s.lsuErr then NextWord(a.op.addr) else a.op.addr)
    && (if SplitOp(a.op) then FirstOver(a) else !a.erred.first)
    && (SplitOp(a.op) && !a.op.we && !s.lsuErr ==>
          s.rdataQ == if w.recent then base(a.op.addr.word).(b0 := 0) else ZERO)
  }

  /** Before any grant. */
  predicate Waiting(s: Regs, w: World, a: Access) {
    && !s.handle && !s.lsuErr && s.pmpErr == a.denied.first && w.bus == []
    && a.granted == NEITHER && a.erred == NEITHER
  }

  ghost predicate Phase(s: Regs, w: World, a: Access, base: Memory) {
    match s.fsm
    case IDLE => !s.handle && if a.responses == 0 then Due(s, w, a, base) else Finished(a) && w.bus == [] && !s.pmpErr
    case WAIT_GNT_MIS => SplitOp(a.op) && a.responses == 0 && Waiting(s, w, a)
    case WAIT_GNT =>
      && a.responses == 0
      && if s.handle
         then && SplitOp(a.op) && Ctrl(s, a.op) && s.addrLast == a.op.addr && w.bus == []
              && FirstOver(a) && !a.granted.second && s.pmpErr == a.denied.second && s.lsuErr == FirstFailed(a)
         else !SplitOp(a.op) && Waiting(s, w, a)
    case WAIT_RVALID_MIS =>
      && s.handle && SplitOp(a.op) && a.responses == 0 && Ctrl(s, a.op) && s.addrLast == a.op.addr
      && a.granted == Halves(!a.denied.first, false) && a.erred == NEITHER && s.pmpErr == a.denied.first
      && w.bus == if s.pmpErr then [] else [FirstOf(a, base)]
    case WAIT_RVALID_MIS_GNTS_DONE =>
      && !s.handle && SplitOp(a.op) && a.responses == 0 && Ctrl(s, a.op) && s.addrLast == a.op.addr
      && !a.denied.first && a.granted == Halves(true, !a.denied.second) && a.erred == NEITHER && !s.pmpErr
      && w.bus == [FirstOf(a, base)] + if a.granted.second then [SecondOf(a, base)] else []
  }

  predicate AllFinished(log: seq<Access>) { forall k :: 0 <= k < |log| ==> Finished(log[k]) }

  /** The access in progress and memory, given memory before it. */
  ghost predicate Progress(s: Regs, w: World, a: Access, base: Memory) {
    Accounted(a) && Same(w.mem, Apply(base, a.op, a.did)) && Phase(s, w, a, base)
  }

  ghost predicate Inv(m0: Memory, s: Regs, w: World) {
    && Shape(s) && AllFinished(w.past) && AllOk(w.past)
    && match w.now
       case None => w.past == [] && s.fsm == IDLE && !s.handle && !s.pmpErr && w.bus == [] && Same(w.mem, m0)
       case Some(a) => Progress(s, w, a, Execute(m0, w.past))
  }

  // ------------------------------------------------------------------ transactions

  lemma LanesDriven(op: Op)
    requires AddressOk(op.addr)
    ensures LaneCount(ByteEnable(op.size, op.addr.offset, false)) == FirstBytes(op)
    ensures SplitOp(op) ==> LaneCount(ByteEnable(op.size, op.addr.offset, true)) == Bytes(op.size) - FirstBytes(op)
  {
  }

  /** The operands on the bus are the access's, at its address or the next word's. */
  predicate Presents(i: Inputs, op: Op, second: bool) {
    && i.addr == (if second then NextWord(op.addr) else op.addr)
    && i.we == op.we && i.size == op.size && i.signExt == op.signExt && (op.we ==> i.wdata == op.data)
  }

  /** A cycle in which the first transaction may be granted: what it reads, and memory after it. */
  lemma FirstTransaction(s: Regs, m: Memory, c: Cycle, a: Access, base: Memory)
    requires Accounted(a) && Same(m, Apply(base, a.op, a.did)) && a.granted == NEITHER
    requires Presents(c.i, a.op, false) && !s.handle && !AddrIncr(s)
    ensures m(c.i.addr.word) == base(a.op.addr.word)
    ensures Same(MemNext(s, m, c), Apply(base, a.op, Issued(s, c, a).did)) && Accounted(Issued(s, c, a))
  {
    assert Apply(base, a.op, NEITHER) == base;
    FirstWrite(m, base, a.op);
    LanesDriven(a.op);
    hide ByteEnable, WData, WriteWord, StoreBytes, LaneCount, Split, AddrIncr, DataReq, FirstBytes;
  }

  lemma NextWordIsUntouched(base: Memory, op: Op, did: Halves)
    requires AddressOk(op.addr) && !did.second
    ensures Apply(base, op, did)(NextWord(op.addr).word) == base(NextWord(op.addr).word)
  {
    var x := NextWord(op.addr).word;
    forall o | 0 <= o < 4 ensures Apply(base, op, did)(x).At(o) == base(x).At(o) {
      AppliedBytes(base, op, did, x, o);
      hide Apply;
    }
    SameBytes(Apply(base, op, did)(x), base(x));
  }

  /** A cycle in which the second transaction may be granted. */
  lemma SecondTransaction(s: Regs, m: Memory, c: Cycle, a: Access, base: Memory)
    requires Accounted(a) && Same(m, Apply(base, a.op, a.did)) && SplitOp(a.op) && !a.granted.second
    requires Presents(c.i, a.op, true) && s.handle && AddrIncr(s)
    ensures m(c.i.addr.word) == base(NextWord(a.op.addr).word)
    ensures Same(MemNext(s, m, c), Apply(base, a.op, Issued(s, c, a).did)) && Accounted(Issued(s, c, a))
  {
    LanesDriven(a.op);
    NextWordIsUntouched(base, a.op, a.did);
    SecondWrite(m, Apply(base, a.op, a.did), a.op);
    hide ByteEnable, WData, WriteWord, StoreBytes, LaneCount, Split, AddrIncr, DataReq, FirstBytes;
  }

  // ------------------------------------------------------------------ preservation

  /** The state and the bus after the first cycle of an access. */
  lemma StartPhase(s: Regs, w: World, c: Cycle, base: Memory)
    requires Starts(s, c.i) && Legal(s, w, c) && !s.handle && w.mem(c.i.addr.word) == base(c.i.addr.word)
    ensures Phase(Step(s, c.i), WorldStep(s, w, c), Issued(s, c, Opened(c)), base)
  {
    hide ByteEnable, LaneCount, MemNext, Split, FirstBytes, NextWord, Finished;
  }

  /** A new access, granted in its first cycle or not. */
  lemma StartStep(s: Regs, w: World, c: Cycle, base: Memory)
    requires Starts(s, c.i) && Legal(s, w, c) && Same(w.mem, base) && !s.handle
    ensures Progress(Step(s, c.i), WorldStep(s, w, c), Issued(s, c, Opened(c)), base)
  {
    assert !AddrIncr(s) && Apply(base, OpOf(c.i), NEITHER) == base;
    NothingDriven(OpOf(c.i));
    hide Apply, Same, MemNext, LanesOf, Phase, Step, Issued, FirstBytes, Split, AddrIncr;
    FirstTransaction(s, w.mem, c, Opened(c), base);
    StartPhase(s, w, c, base);
  }

  lemma NothingDriven(op: Op)
    requires AddressOk(op.addr)
    ensures LanesOf(op, NEITHER) == 0
  {
  }

  /** An access none of whose transactions has been granted. */
  lemma UngrantedStep(s: Regs, w: World, c: Cycle, base: Memory)
    requires w.now.Some? && Progress(s, w, w.now.access, base) && Legal(s, w, c)
    requires s.fsm == WAIT_GNT_MIS || (s.fsm == WAIT_GNT && !s.handle)
    ensures WorldStep(s, w, c).now.Some?
        && Progress(Step(s, c.i), WorldStep(s, w, c), WorldStep(s, w, c).now.access, base)
  {
    hide ByteEnable, WData, WriteWord, StoreBytes, LaneCount, Apply, Same, MemNext, Accounted;
    FirstTransaction(s, w.mem, c, Answered(s, w, c.i, w.now.access), base);
  }

  /** A split access whose first transaction was granted and not answered, or denied. */
  lemma FirstAnswerStep(s: Regs, w: World, c: Cycle, base: Memory)
    requires w.now.Some? && Progress(s, w, w.now.access, base) && Legal(s, w, c)
    requires s.fsm == WAIT_RVALID_MIS
    ensures WorldStep(s, w, c).now.Some?
        && Progress(Step(s, c.i), WorldStep(s, w, c), WorldStep(s, w, c).now.access, base)
  {
    hide ByteEnable, WData, WriteWord, StoreBytes, LaneCount, Apply, Same, MemNext, LanesOf;
    SecondTransaction(s, w.mem, c, Answered(s, w, c.i, w.now.access), base);
  }

  /** A split access whose first transaction is over before the second was granted. */
  lemma LateGrantStep(s: Regs, w: World, c: Cycle, base: Memory)
    requires w.now.Some? && Progress(s, w, w.now.access, base) && Legal(s, w, c)
    requires s.fsm == WAIT_GNT && s.handle
    ensures WorldStep(s, w, c).now.Some?
        && Progress(Step(s, c.i), WorldStep(s, w, c), WorldStep(s, w, c).now.access, base)
  {
    hide ByteEnable, WData, WriteWord, StoreBytes, LaneCount, Apply, Same, MemNext, LanesOf;
    SecondTransaction(s, w.mem, c, Answered(s, w, c.i, w.now.access), base);
  }

  /** A split access whose transactions have been granted before the first one was answered. */
  lemma BothGrantedStep(s: Regs, w: World, c: Cycle, base: Memory)
    requires w.now.Some? && Progress(s, w, w.now.access, base) && Legal(s, w, c)
    requires s.fsm == WAIT_RVALID_MIS_GNTS_DONE
    ensures WorldStep(s, w, c).now.Some?
        && Progress(Step(s, c.i), WorldStep(s, w, c), WorldStep(s, w, c).now.access, base)
  {
    hide ByteEnable, WData, WriteWord, StoreBytes, LaneCount, Apply, Same, LanesOf;
  }

  /** An idle unit: the access is answered, or stays as it is. */
  lemma IdleStep(s: Regs, w: World, c: Cycle, base: Memory)
    requires w.now.Some? && Progress(s, w, w.now.access, base) && Legal(s, w, c) && s.fsm == IDLE
    ensures var a := Answered(s, w, c.i, w.now.access);
            if Starts(s, c.i)
            then Finished(a) && AddressOk(a.op.addr) && Same(w.mem, Apply(base, a.op, a.did)) && !s.handle
            else Progress(Step(s, c.i), WorldStep(s, w, c), a, base) && WorldStep(s, w, c).now == Some(a)
  {
    hide ByteEnable, WData, WriteWord, StoreBytes, LaneCount, Apply, Same, LanesOf;
  }

  /** Before the first access. */
  lemma QuietStep(m0: Memory, s: Regs, w: World, c: Cycle)
    requires Inv(m0, s, w) && Legal(s, w, c) && w.now.None? && !c.i.req
    ensures Inv(m0, Step(s, c.i), WorldStep(s, w, c))
  {
  }

  lemma ExecuteNone(m0: Memory)
    ensures Execute(m0, []) == m0
  {
  }

  lemma ExecuteOne(m0: Memory, log: seq<Access>, a: Access)
    requires AllOk(log) && AddressOk(a.op.addr)
    ensures AllOk(log + [a]) && Execute(m0, log + [a]) == Apply(Execute(m0, log), a.op, a.did)
  {
    assert (log + [a])[..|log|] == log;
  }

  lemma InvStep(m0: Memory, s: Regs, w: World, c: Cycle)
    requires Inv(m0, s, w) && Legal(s, w, c)
    ensures Inv(m0, Step(s, c.i), WorldStep(s, w, c))
  {
    hide Execute, Progress, Apply, Finished, Answered, Issued, Opened, MemNext, BusNext, FsmNext;
    if w.now.Some? {
      var base := Execute(m0, w.past);
      if s.fsm == WAIT_GNT_MIS || (s.fsm == WAIT_GNT && !s.handle) {
        UngrantedStep(s, w, c, base);
      } else if s.fsm == WAIT_RVALID_MIS {
        FirstAnswerStep(s, w, c, base);
      } else if s.fsm == WAIT_GNT {
        LateGrantStep(s, w, c, base);
      } else if s.fsm == WAIT_RVALID_MIS_GNTS_DONE {
        BothGrantedStep(s, w, c, base);
      } else {
        IdleStep(s, w, c, base);
      }
    } else if !c.i.req {
      QuietStep(m0, s, w, c);
    }
    if Starts(s, c.i) {
      ExecuteNone(m0);
      if w.now.Some? {
        ExecuteOne(m0, w.past, Answered(s, w, c.i, w.now.access));
      }
      StartStep(s, w, c, Execute(m0, WorldStep(s, w, c).past));
    }
  }
  // ------------------------------------------------------------------ responses

  /** What a split load returns when the first word's bytes are read as zero. */
  function Cleared(m: Memory, op: Op): Word
    requires AddressOk(op.addr)
  {
    Load(x => if x == op.addr.word then ZERO else m(x), op)
  }

  /** The answer to a load, for every timing. */
  lemma LoadAnswer(m0: Memory, s: Regs, w: World, c: Cycle)
    requires Inv(m0, s, w) && Legal(s, w, c) && RDataValid(s, c.i)
    ensures w.now.Some? && !w.now.access.op.we && AddressOk(w.now.access.op.addr)
    ensures var op, base := w.now.access.op, Execute(m0, w.past);
            RData(s, c.i) == if SplitOp(op) && !w.recent then Cleared(base, op) else Load(base, op)
  {
    var op, base := w.now.access.op, Execute(m0, w.past);
    assert (op.addr.word + 1) % WORDS != op.addr.word;
    hide Execute, Same, Apply;
  }

  /** The bytes of the access that lie in the addressed word are zero in memory. */
  predicate FirstBytesZero(m: Memory, op: Op)
    requires AddressOk(op.addr)
  {
    var lo, o := m(op.addr.word), op.addr.offset;
    lo.b3 == 0 && (op.size == WordSize ==> (o <= 2 ==> lo.b2 == 0) && (o <= 1 ==> lo.b1 == 0))
  }

  /** When exactly a load returns what memory holds: the word kept from the first answer of a split
      load is cleared after one cycle. */
  lemma LoadIsExactIff(m0: Memory, s: Regs, w: World, c: Cycle)
    requires Inv(m0, s, w) && Legal(s, w, c) && RDataValid(s, c.i)
    ensures w.now.Some? && AddressOk(w.now.access.op.addr)
    ensures var op, base := w.now.access.op, Execute(m0, w.past);
            RData(s, c.i) == Load(base, op) <==> !SplitOp(op) || w.recent || FirstBytesZero(base, op)
  {
    LoadAnswer(m0, s, w, c);
    assert (w.now.access.op.addr.word + 1) % WORDS != w.now.access.op.addr.word;
    hide Inv, Legal, RData, Execute;
  }

  /** A response belongs to the last access, which had none before. It reports an error exactly if a half
      was denied or answered with one, and then the last address is that of the first such half; a
      load without an error writes its register. */
  lemma ResponseIsAttributed(m0: Memory, s: Regs, w: World, c: Cycle)
    requires Inv(m0, s, w) && Legal(s, w, c) && RespValid(s, c.i)
    ensures w.now.Some? && w.now.access.responses == 0
    ensures var a := Answered(s, w, c.i, w.now.access);
            && LoadErr(s, c.i) == (Failed(a) && !a.op.we) && StoreErr(s, c.i) == (Failed(a) && a.op.we)
            && RDataValid(s, c.i) == (!Failed(a) && !a.op.we)
            && (Failed(a) ==> s.addrLast == if FirstFailed(a) then a.op.addr else NextWord(a.op.addr))
  {
    hide Execute, Same, Apply, LanesOf, Split, NextWord;
  }

  // ------------------------------------------------------------------ runs

  predicate IsReset(s: Regs) { s == Regs(IDLE, false, false, false, ZERO, 0, WordSize, false, false, Address(0, 0)) }

  function Start(m0: Memory): World { World([], None, m0, [], false) }

  predicate LegalRun(s: Regs, w: World, run: seq<Cycle>)
    decreases |run|
  {
    run == [] || (Legal(s, w, run[0]) && LegalRun(Step(s, run[0].i), WorldStep(s, w, run[0]), run[1..]))
  }

  function RunState(s: Regs, run: seq<Cycle>): Regs
    decreases |run|
  {
    if run == [] then s else RunState(Step(s, run[0].i), run[1..])
  }

  function RunWorld(s: Regs, w: World, run: seq<Cycle>): World
    decreases |run|
  {
    if run == [] then w else RunWorld(Step(s, run[0].i), WorldStep(s, w, run[0]), run[1..])
  }

  lemma {:induction false} InvRun(m0: Memory, s: Regs, w: World, run: seq<Cycle>)
    requires Inv(m0, s, w) && LegalRun(s, w, run)
    ensures Inv(m0, RunState(s, run), RunWorld(s, w, run))
    decreases |run|
  {
    if run == [] {
    } else {
      hide Inv, Legal, Step, WorldStep;
      InvStep(m0, s, w, run[0]);
      InvRun(m0, Step(s, run[0].i), WorldStep(s, w, run[0]), run[1..]);
    }
  }

  /** Every access presented so far. */
  function Log(w: World): seq<Access> { w.past + if w.now.Some? then [w.now.access] else [] }

  function Ops(log: seq<Access>): seq<Op> { seq(|log|, k requires 0 <= k < |log| => log[k].op) }

  /** Every access so far has been answered. */
  predicate Quiet(s: Regs, w: World) { s.fsm == IDLE && w.bus == [] && !s.pmpErr }

  predicate NoneFailed(log: seq<Access>) { forall k :: 0 <= k < |log| ==> !Failed(log[k]) }

  /** Accesses without errors leave memory as the program's accesses, one after the other, would. */
  lemma {:induction false} ErrorFreeIsProgram(m0: Memory, log: seq<Access>)
    requires AllOk(log) && AllFinished(log) && NoneFailed(log)
    ensures Same(Execute(m0, log), Program(m0, Ops(log)))
    decreases |log|
  {
    if log == [] {
    } else {
      var rest, a := log[..|log| - 1], log[|log| - 1];
      ErrorFreeIsProgram(m0, rest);
      assert Ops(log)[..|log| - 1] == Ops(rest) && Finished(a) && !Failed(a);
      hide Same, Apply, Store;
      AppliedIsStore(Execute(m0, rest), Program(m0, Ops(rest)), a.op, a.did);
    }
  }

  lemma LogOfInv(m0: Memory, s: Regs, w: World)
    requires Inv(m0, s, w)
    ensures AllOk(Log(w)) && Same(w.mem, Execute(m0, Log(w))) && AllFinished(w.past)
    ensures forall k :: 0 <= k < |Log(w)| ==> Accounted(Log(w)[k])
    ensures Quiet(s, w) ==> AllFinished(Log(w))
  {
    hide Execute, Apply, Same, LanesOf;
    if w.now.Some? {
      ExecuteOne(m0, w.past, w.now.access);
    } else {
      assert Log(w) == [];
      ExecuteNone(m0);
    }
  }

  /** From reset, for every memory, every timing, every PMP verdict and every bus error: memory is always
      as if of each access exactly the halves that took effect had been made, one access after the
      other, byte by byte. A denied half never is, one answered without an error always; no byte lane
      is driven twice, every answered access had one response, and without errors memory is the
      program's. */
  lemma MemoryIsSequential(m0: Memory, s: Regs, run: seq<Cycle>)
    requires IsReset(s) && LegalRun(s, Start(m0), run)
    ensures var t, v := RunState(s, run), RunWorld(s, Start(m0), run);
            && AllOk(Log(v)) && Same(v.mem, Execute(m0, Log(v)))
            && (forall k :: 0 <= k < |Log(v)| ==> Accounted(Log(v)[k])) && AllFinished(v.past)
            && (Quiet(t, v) ==> AllFinished(Log(v)))
            && (Quiet(t, v) && NoneFailed(Log(v)) ==> Same(v.mem, Program(m0, Ops(Log(v)))))
  {
    var t, v := RunState(s, run), RunWorld(s, Start(m0), run);
    InvRun(m0, s, Start(m0), run);
    hide Inv, Execute, Program, RunState, RunWorld;
    LogOfInv(m0, t, v);
    if Quiet(t, v) && NoneFailed(Log(v)) {
      ErrorFreeIsProgram(m0, Log(v));
    }
  }

  /** The loads of a run: memory is what the accesses in front of the load have left. */
  lemma LoadsOfRunsAreExactIff(m0: Memory, s: Regs, run: seq<Cycle>, c: Cycle)
    requires IsReset(s) && LegalRun(s, Start(m0), run)
    requires var t, v := RunState(s, run), RunWorld(s, Start(m0), run);
             Legal(t, v, c) && RDataValid(t, c.i)
    ensures var t, v := RunState(s, run), RunWorld(s, Start(m0), run);
            && v.now.Some? && AllOk(v.past) && AddressOk(v.now.access.op.addr)
            && var op, before := v.now.access.op, Execute(m0, v.past);
               RData(t, c.i) == Load(before, op) <==> !SplitOp(op) || v.recent || FirstBytesZero(before, op)
  {
    InvRun(m0, s, Start(m0), run);
    LoadIsExactIff(m0, RunState(s, run), RunWorld(s, Start(m0), run), c);
  }

  /** The responses of a run. */
  lemma ResponsesOfRunsAreAttributed(m0: Memory, s: Regs, run: seq<Cycle>, c: Cycle)
    requires IsReset(s) && LegalRun(s, Start(m0), run)
    requires var t, v := RunState(s, run), RunWorld(s, Start(m0), run);
             Legal(t, v, c) && RespValid(t, c.i)
    ensures var t, v := RunState(s, run), RunWorld(s, Start(m0), run);
            && v.now.Some? && v.now.access.responses == 0
            && var a := Answered(t, v, c.i, v.now.access);
               && LoadErr(t, c.i) == (Failed(a) && !a.op.we) && StoreErr(t, c.i) == (Failed(a) && a.op.we)
               && RDataValid(t, c.i) == (!Failed(a) && !a.op.we)
               && (Failed(a) ==> t.addrLast == if FirstFailed(a) then a.op.addr else NextWord(a.op.addr))
  {
    InvRun(m0, s, Start(m0), run);
    ResponseIsAttributed(m0, RunState(s, run), RunWorld(s, Start(m0), run), c);
  }

  lemma OneStep(s: Regs, w: World, c: Cycle, t: Regs, v: World, rest: seq<Cycle>)
    requires Legal(s, w, c) && Step(s, c.i) == t && WorldStep(s, w, c) == v
    ensures RunState(s, [c] + rest) == RunState(t, rest) && RunWorld(s, w, [c] + rest) == RunWorld(t, v, rest)
    ensures LegalRun(s, w, [c] + rest) == LegalRun(t, v, rest)
  {
    assert ([c] + rest)[1..] == rest;
  }

  // ------------------------------------------------------------------ a split load that loses bytes

  const ONES := Word(1, 1, 1, 1)
  const AT := Address(0, 1)
  const LOAD := Op(false, WordSize, false, AT, ZERO)
  const RESET := Regs(IDLE, false, false, false, ZERO, 0, WordSize, false, false, Address(0, 0))
  const HALFWAY := RESET.(fsm := WAIT_RVALID_MIS, handle := true, offset := 1, addrLast := AT)
  const GRANTED := RESET.(rdataQ := Word(0, 1, 1, 1), offset := 1, addrLast := NextWord(AT))

  function AllOnes(): Memory { x => ONES }

  /** One cycle of the load on the bus. */
  function LoadCycle(gnt: bool, rvalid: bool, req: bool, addr: Address): Cycle {
    Cycle(Inputs(gnt, rvalid, false, false, ONES, false, WordSize, ZERO, false, req, addr), true, false)
  }

  function LoadWorld(halves: Halves, lanes: nat, recent: bool): World {
    World([], Some(Access(LOAD, NEITHER, halves, halves, NEITHER, lanes, 0)), AllOnes(),
          [Transaction(halves.second, false, ONES, true)], recent)
  }

  lemma LossySteps()
    ensures var w1, w2 := LoadWorld(Halves(true, false), 3, false), LoadWorld(Halves(true, true), 4, true);
            var a, b, c := LoadCycle(true, false, true, AT), LoadCycle(true, true, false, NextWord(AT)),
                           LoadCycle(false, false, false, AT);
            && Legal(RESET, Start(AllOnes()), a) && Step(RESET, a.i) == HALFWAY
            && WorldStep(RESET, Start(AllOnes()), a) == w1
            && Legal(HALFWAY, w1, b) && Step(HALFWAY, b.i) == GRANTED && WorldStep(HALFWAY, w1, b) == w2
            && Legal(GRANTED, w2, c) && Step(GRANTED, c.i) == GRANTED.(rdataQ := ZERO)
            && WorldStep(GRANTED, w2, c) == w2.(recent := false)
  {
  }

  lemma LossyAnswer()
    ensures var t, w, d := GRANTED.(rdataQ := ZERO), LoadWorld(Halves(true, true), 4, false),
                           LoadCycle(false, true, false, AT);
            Legal(t, w, d) && RDataValid(t, d.i) && RData(t, d.i) != Load(AllOnes(), LOAD)
  {
    assert RData(GRANTED.(rdataQ := ZERO), LoadCycle(false, true, false, AT).i).b0 == 0;
    assert Load(AllOnes(), LOAD).b0 == 1;
  }

  /** A word load at offset one, granted and answered at once except for the last answer, which
      comes a cycle later than it could: the three bytes of the first word are lost. */
  lemma SplitLoadMayLoseBytes()
    ensures exists m0: Memory, s: Regs, run: seq<Cycle>, c: Cycle ::
              var t, w := RunState(s, run), RunWorld(s, Start(m0), run);
              && IsReset(s) && LegalRun(s, Start(m0), run) && Legal(t, w, c) && RDataValid(t, c.i)
              && w.now.Some? && AddressOk(w.now.access.op.addr) && RData(t, c.i) != Load(m0, w.now.access.op)
  {
    var w1, w2 := LoadWorld(Halves(true, false), 3, false), LoadWorld(Halves(true, true), 4, true);
    var a, b, c := LoadCycle(true, false, true, AT), LoadCycle(true, true, false, NextWord(AT)),
                   LoadCycle(false, false, false, AT);
    var t, w, d := GRANTED.(rdataQ := ZERO), w2.(recent := false), LoadCycle(false, true, false, AT);
    var run := [a, b, c];
    assert IsReset(RESET) && AddressOk(AT);
    assert w.now.Some? && w.now.access.op == LOAD && w == LoadWorld(Halves(true, true), 4, false);
    hide *;
    LossySteps();
    LossyAnswer();
    OneStep(RESET, Start(AllOnes()), a, HALFWAY, w1, [b, c]);
    OneStep(HALFWAY, w1, b, GRANTED, w2, [c]);
    OneStep(GRANTED, w2, c, t, w, []);
    RunOfNothing(t, w);
    assert run == [a] + [b, c] && [b, c] == [b] + [c] && [c] == [c] + [];
    assert RunState(RESET, run) == t && RunWorld(RESET, Start(AllOnes()), run) == w
        && LegalRun(RESET, Start(AllOnes()), run);
  }

  lemma RunOfNothing(s: Regs, w: World)
    ensures RunState(s, []) == s && RunWorld(s, w, []) == w && LegalRun(s, w, [])
  {
  }
}
