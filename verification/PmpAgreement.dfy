/** The C++ register model and the RTL hold the same PMP, mcountinhibit and mhpmevent registers:
    when exactly their read data agree on every run of accesses and resets. */
module PmpAgreement {
  import opened CsrAccess
  import opened RegisterModel
  import opened PmpCsrs
  import opened PmpCsrProofs

  // ------------------------------------------------------------------ bytes

  /** A byte with its reserved bits and its reserved combination taken out. */
  function Clean(b: Byte): Byte { LegalByte(b & 0x9F) }

  lemma PackIsClean(c: Cfg)
    requires c.write ==> c.read
    ensures Clean(Pack(c)) == Pack(c)
    ensures Pack(c) & 0x80 != 0 <==> c.lock
    ensures Pack(c) & 0x18 == 8 <==> c.mode == TOR
  {
  }

  lemma WrittenIsClean(p: Params, b: Byte)
    requires p.granularity == 0
    ensures Pack(CfgWData(p, b)) == Clean(b)
  {
  }

  /** The model's masked update of a configuration byte against the RTL's guarded one. */
  lemma CfgByteAgrees(v: Byte, op: Op, w: Byte)
    requires !op.Read? && Clean(v) == v
    ensures LegalByte(UpdatedByte(v, op, w, ByteLock(v)) & 0x9F) == if v & 0x80 != 0 then v else Clean(OpByte(v, op, w))
  {
  }

  lemma Units(x: Byte)
    ensures BitAnd(x, 0) == 0 && BitAnd(x, BitNot(0)) == x && BitAnd(x, 0xFF) == x && BitAnd(x, BitNot(0xFF)) == 0
    ensures BitOr(x, 0) == x && BitOr(0, x) == x && BitOr(x, 0xFF) == 0xFF
  {
  }

  lemma Commute(x: Byte, y: Byte)
    ensures BitOr(x, y) == BitOr(y, x) && BitAnd(x, y) == BitAnd(y, x)
  {
  }

  /** A byte under an empty and under a full lock mask. */
  lemma OpenByteAgrees(v: Byte, op: Op, w: Byte)
    requires !op.Read?
    ensures UpdatedByte(v, op, w, 0) == OpByte(v, op, w)
    ensures UpdatedByte(v, op, w, 0xFF) == v
  {
    hide BitAnd, BitOr, BitNot;
    Units(v);
    Units(w);
    Units(BitNot(w));
    Commute(v, w);
    Commute(v, BitNot(w));
  }

  /** A written byte of mcountinhibit as it reads afterwards, from the flops `q`; `o` are the bits
      that always read as one, `z` those always zero. */
  function ModelInhibit(q: Byte, o: Byte, z: Byte, op: Op, w: Byte): Byte {
    UpdatedByte(BitOr(o, q), op, w, BitOr(o, z))
  }
  function RtlInhibit(q: Byte, o: Byte, z: Byte, op: Op, w: Byte): Byte {
    BitOr(o, BitAnd(OpByte(BitOr(o, q), op, w), BitNot(BitOr(o, z))))
  }


  lemma InhibitWrite(q: Byte, o: Byte, z: Byte, w: Byte)
    requires q & (o | z) == 0 && o & z == 0
    ensures ModelInhibit(q, o, z, Write, w) == RtlInhibit(q, o, z, Write, w)
  {
  }

  lemma InhibitSet(q: Byte, o: Byte, z: Byte, w: Byte)
    requires q & (o | z) == 0 && o & z == 0
    ensures ModelInhibit(q, o, z, Set, w) == RtlInhibit(q, o, z, Set, w)
  {
    hide BitAnd, BitOr, BitNot;
    RawSet(q, o, z, w);
  }

  lemma RawSet(q: Byte, o: Byte, z: Byte, w: Byte)
    requires q & (o | z) == 0 && o & z == 0
    ensures BitOr(BitOr(o, q), BitAnd(w, BitNot(BitOr(o, z))))
         == BitOr(o, BitAnd(BitOr(w, BitOr(o, q)), BitNot(BitOr(o, z))))
  {
  }

  lemma InhibitClear(q: Byte, o: Byte, z: Byte, w: Byte)
    requires q & (o | z) == 0 && o & z == 0
    ensures ModelInhibit(q, o, z, Clear, w) == RtlInhibit(q, o, z, Clear, w)
  {
    hide BitAnd, BitOr, BitNot;
    RawClear(q, o, z, w);
  }

  lemma RawClear(q: Byte, o: Byte, z: Byte, w: Byte)
    requires q & (o | z) == 0 && o & z == 0
    ensures BitAnd(BitOr(o, q), BitOr(BitNot(w), BitOr(o, z)))
         == BitOr(o, BitAnd(BitAnd(BitNot(w), BitOr(o, q)), BitNot(BitOr(o, z))))
  {
  }

  lemma InhibitByte(q: Byte, o: Byte, z: Byte, op: Op, w: Byte)
    requires !op.Read? && q & (o | z) == 0 && o & z == 0
    ensures ModelInhibit(q, o, z, op, w) == RtlInhibit(q, o, z, op, w)
  {
    hide ModelInhibit, RtlInhibit;
    match op {
      case Write => InhibitWrite(q, o, z, w);
      case Set => InhibitSet(q, o, z, w);
      case Clear => InhibitClear(q, o, z, w);
    }
  }

  lemma MaskedOut(x: Word, m: Word)
    ensures And(And(x, Not(m)), m) == ZERO
  {
    MaskedOutByte(x.b0, m.b0);
    MaskedOutByte(x.b1, m.b1);
    MaskedOutByte(x.b2, m.b2);
    MaskedOutByte(x.b3, m.b3);
  }

  lemma MaskedOutByte(x: Byte, m: Byte)
    ensures (x & !m) & m == 0
  {
  }

  // ------------------------------------------------------------------ the two states in step

  /** The configurations the model is right about. */
  predicate Agreeable(p: Params) { p.pmpEnable ==> p.granularity == 0 && p.regions % 4 == 0 }

  function CfgReg(p: Params, s: Regs, j: nat): Word
    requires Shape(p, s)
  {
    Word(CfgRData(p, s, 4 * j), CfgRData(p, s, 4 * j + 1), CfgRData(p, s, 4 * j + 2), CfgRData(p, s, 4 * j + 3))
  }

  predicate Layout(p: Params, regs: seq<Register>)
    requires ParamsOk(p)
  {
    && |regs| == ENTRIES && Distinct(regs)
    && forall k :: 0 <= k < ENTRIES ==> regs[k].addr == Entry(p, k).addr && regs[k].kind == Entry(p, k).kind
  }

  predicate InhibitOk(p: Params, s: Regs)
    requires ParamsOk(p)
  {
    And(s.inhibit, Or(Ones(p), TIME)) == ZERO
  }

  /** The model's registers hold what the RTL's do. */
  predicate InStep(p: Params, regs: seq<Register>, s: Regs) {
    && Shape(p, s) && Layout(p, regs) && NoReserved(s) && InhibitOk(p, s)
    && (p.pmpEnable ==>
          && (forall j :: 0 <= j < p.regions / 4 ==> regs[j].value == CfgReg(p, s, j))
          && (forall i :: 0 <= i < p.regions ==> regs[4 + i].value == s.addr[i]))
    && regs[20].value == Or(Ones(p), s.inhibit)
    && forall i :: 3 <= i < p.counters + 3 ==> regs[18 + i].value == One(i)
  }

  function IndexOf(a: nat): nat
    requires Covered(a)
  {
    if PMPCFG0 <= a < PMPCFG0 + 4 then a - PMPCFG0
    else if PMPADDR0 <= a < PMPADDR0 + 16 then 4 + a - PMPADDR0
    else if a == MCOUNTINHIBIT then 20
    else 18 + a - MCOUNTINHIBIT
  }

  lemma {:induction false} LookupFinds(regs: seq<Register>, k: nat, n: nat)
    requires Distinct(regs) && k < n <= |regs|
    ensures Lookup(regs, regs[k].addr, n) == RegisterRead(regs[k])
    decreases n
  {
    if n - 1 != k {
      LookupFinds(regs, k, n - 1);
    }
  }

  lemma {:induction false} LookupMisses(regs: seq<Register>, a: nat, n: nat)
    requires n <= |regs| && forall k :: 0 <= k < n ==> regs[k].addr != a
    ensures Lookup(regs, a, n) == ZERO
    decreases n
  {
    if n > 0 {
      LookupMisses(regs, a, n - 1);
    }
  }

  lemma CfgRegZero(p: Params, s: Regs, j: nat)
    requires Shape(p, s) && (!p.pmpEnable || p.regions <= 4 * j)
    ensures CfgReg(p, s, j) == ZERO
  {
  }

  /** Class of the entry at a covered address. */
  function CoveredKind(p: Params, a: nat): Kind
    requires ParamsOk(p) && Covered(a)
  {
    if PMPCFG0 <= a < PMPCFG0 + 4 then CfgKind(p, a - PMPCFG0)
    else if PMPADDR0 <= a < PMPADDR0 + 16 then AddrKind(p, a - PMPADDR0)
    else if a == MCOUNTINHIBIT then Warl(Or(UnusedCounters(p), TIME), UnusedCounters(p))
    else CounterKind(p, a - MCOUNTINHIBIT, Warl(ALL, One(a - MCOUNTINHIBIT)))
  }

  lemma EntryOf(p: Params, regs: seq<Register>, a: nat)
    requires ParamsOk(p) && Covered(a) && Layout(p, regs)
    ensures var k := IndexOf(a);
            k < |regs| && regs[k].addr == a && regs[k].kind == CoveredKind(p, a)
  {
    var k := IndexOf(a);
    hide UnusedCounters, MaskLow, MaskHigh, One, Or;
    assert Entry(p, k).addr == a && Entry(p, k).kind == CoveredKind(p, a);
  }

  /** What the model reads at a covered address. */
  lemma ModelReads(p: Params, regs: seq<Register>, a: nat)
    requires ParamsOk(p) && Covered(a) && Layout(p, regs)
    ensures IndexOf(a) < |regs|
    ensures Lookup(regs, a, |regs|) == if CoveredKind(p, a).NonImp? then ZERO else regs[IndexOf(a)].value
  {
    EntryOf(p, regs, a);
    LookupFinds(regs, IndexOf(a), |regs|);
  }

  lemma CfgReadsAgree(p: Params, regs: seq<Register>, s: Regs, j: nat)
    requires Agreeable(p) && InStep(p, regs, s) && j < 4
    ensures CfgReg(p, s, j) == RData(p, s, PMPCFG0 + j) == if CfgKind(p, j).NonImp? then ZERO else regs[j].value
  {
    hide Layout, NoReserved, InhibitOk, Or, One, Pack;
    if !(p.pmpEnable && j < p.regions / 4) {
      CfgRegZero(p, s, j);
    }
  }

  /** The same read data at every covered address. */
  lemma ReadsAgree(p: Params, regs: seq<Register>, s: Regs, a: nat)
    requires Agreeable(p) && InStep(p, regs, s) && Covered(a)
    ensures Lookup(regs, a, |regs|) == RData(p, s, a)
  {
    hide Layout, UnusedCounters, One, Or, And, Not, BitOr, BitAnd, From, NoReserved, InhibitOk, Lookup, Pack, CfgReg;
    ModelReads(p, regs, a);
    if PMPCFG0 <= a < PMPCFG0 + 4 {
      CfgReadsAgree(p, regs, s, a - PMPCFG0);
    }
  }

  // ------------------------------------------------------------------ one access keeps them in step

  lemma LayoutStep(p: Params, regs: seq<Register>, t: Access)
    requires ParamsOk(p) && Layout(p, regs)
    ensures Layout(p, Transact(regs, t))
  {
    var r := Transact(regs, t);
    hide Entry, NewValue;
    forall k | 0 <= k < ENTRIES ensures r[k].addr == regs[k].addr && r[k].kind == regs[k].kind {
    }
  }

  /** What the model makes of a configuration byte. */
  function NewCfgByte(v: Byte, op: Op, w: Byte): Byte { LegalByte(UpdatedByte(v, op, w, ByteLock(v)) & 0x9F) }

  /** One configuration byte of both sides after an access to its register. */
  predicate ByteInStep(p: Params, s: Regs, t: Access, i: nat, v: Byte, w: Byte)
    requires Shape(p, s) && Covered(t.addr) && i < p.regions
  {
    Pack(CfgNext(p, s, t, i)) == NewCfgByte(v, t.op, w)
  }

  lemma RegionOf(j: nat, k: nat)
    requires k < 4
    ensures (4 * j + k) / 4 == j && (4 * j + k) % 4 == k
  {
  }

  lemma CfgRegAt(p: Params, s: Regs, j: nat, k: nat)
    requires Shape(p, s) && k < 4
    ensures CfgReg(p, s, j).At(k) == CfgRData(p, s, 4 * j + k)
  {
    hide CfgRData;
  }

  lemma CfgByteStep(p: Params, s: Regs, t: Access, j: nat, k: nat)
    requires Shape(p, s) && NoReserved(s) && p.granularity == 0 && p.pmpEnable && !t.op.Read?
    requires j < 4 && k < 4 && 4 * j + k < p.regions && t.addr == PMPCFG0 + j
    ensures ByteInStep(p, s, t, 4 * j + k, CfgReg(p, s, j).At(k), t.wdata.At(k))
  {
    hide Pack, Clean, UpdatedByte, LegalByte, ByteLock, WDataInt, CfgWData, OpByte, RData, CfgReg;
    var i := 4 * j + k;
    var v, w := Pack(s.cfg[i]), t.wdata.At(k);
    RegionOf(j, k);
    CfgRegAt(p, s, j, k);
    PackIsClean(s.cfg[i]);
    CfgByteAgrees(v, t.op, w);
    WrittenIsClean(p, OpByte(v, t.op, w));
    WDataByte(p, s, t, j, k);
  }

  lemma WDataByte(p: Params, s: Regs, t: Access, j: nat, k: nat)
    requires Shape(p, s) && j < 4 && k < 4 && t.addr == PMPCFG0 + j && !t.op.Read?
    ensures WDataInt(p, s, t).At(k) == OpByte(CfgReg(p, s, j).At(k), t.op, t.wdata.At(k))
  {
    hide CfgRData, OpByte;
  }

  lemma LegalBytesForm(v: Word)
    ensures LegalBytes(v, 4) == Word(LegalByte(v.b0), LegalByte(v.b1), LegalByte(v.b2), LegalByte(v.b3))
  {
    hide LegalByte;
    assert LegalBytes(v, 0) == v;
    assert LegalBytes(v, 1) == v.(b0 := LegalByte(v.b0));
    assert LegalBytes(v, 2) == v.(b0 := LegalByte(v.b0), b1 := LegalByte(v.b1));
    assert LegalBytes(v, 3) == v.(b0 := LegalByte(v.b0), b1 := LegalByte(v.b1), b2 := LegalByte(v.b2));
  }

  /** The model's new value of a written configuration register, byte by byte. */
  lemma CfgRegNew(v: Word, op: Op, w: Word)
    ensures LegalBytes(And(Updated(v, op, w, CfgLockMask(v)), RAZ_MASK), 4)
         == Word(NewCfgByte(v.b0, op, w.b0), NewCfgByte(v.b1, op, w.b1), NewCfgByte(v.b2, op, w.b2),
                 NewCfgByte(v.b3, op, w.b3))
  {
    hide LegalByte, UpdatedByte, ByteLock, LegalBytes;
    LegalBytesForm(And(Updated(v, op, w, CfgLockMask(v)), RAZ_MASK));
    assert RAZ_MASK == Word(0x9F, 0x9F, 0x9F, 0x9F);
  }

  lemma CfgNextByte(p: Params, s: Regs, t: Access, j: nat, k: nat)
    requires Shape(p, s) && NoReserved(s) && p.granularity == 0 && p.pmpEnable && !t.op.Read? && k < 4
    requires 4 * j + 3 < p.regions && t.addr == PMPCFG0 + j && Shape(p, Step(p, s, t))
    ensures CfgReg(p, Step(p, s, t), j).At(k) == NewCfgByte(CfgReg(p, s, j).At(k), t.op, t.wdata.At(k))
  {
    hide NewCfgByte, Pack, Step, CfgNext, CfgReg;
    CfgByteStep(p, s, t, j, k);
    StepAt(p, s, t, 4 * j + k);
    CfgRegAt(p, Step(p, s, t), j, k);
  }

  /** The RTL's configuration register after an access to it ... */
  lemma CfgWritten(p: Params, s: Regs, t: Access, j: nat)
    requires Shape(p, s) && NoReserved(s) && p.granularity == 0 && p.pmpEnable && !t.op.Read?
    requires 4 * j + 3 < p.regions && t.addr == PMPCFG0 + j && Shape(p, Step(p, s, t))
    ensures var v := CfgReg(p, s, j);
            CfgReg(p, Step(p, s, t), j) == LegalBytes(And(Updated(v, t.op, t.wdata, CfgLockMask(v)), RAZ_MASK), 4)
  {
    hide NewCfgByte, LegalByte, UpdatedByte, ByteLock, CfgReg, Step, LegalBytes, Updated, And, CfgLockMask;
    CfgRegNew(CfgReg(p, s, j), t.op, t.wdata);
    CfgNextByte(p, s, t, j, 0);
    CfgNextByte(p, s, t, j, 1);
    CfgNextByte(p, s, t, j, 2);
    CfgNextByte(p, s, t, j, 3);
  }

  /** ... and after any other. */
  lemma CfgUnwritten(p: Params, s: Regs, t: Access, j: nat)
    requires Shape(p, s) && Covered(t.addr) && 4 * j + 3 < p.regions && Shape(p, Step(p, s, t))
    requires t.op.Read? || t.addr != PMPCFG0 + j
    ensures CfgReg(p, Step(p, s, t), j) == CfgReg(p, s, j)
  {
    hide Step, Pack, CfgReg, CfgNext;
    CfgByteUnwritten(p, s, t, j, 0);
    CfgByteUnwritten(p, s, t, j, 1);
    CfgByteUnwritten(p, s, t, j, 2);
    CfgByteUnwritten(p, s, t, j, 3);
  }

  lemma CfgByteUnwritten(p: Params, s: Regs, t: Access, j: nat, k: nat)
    requires Shape(p, s) && Covered(t.addr) && 4 * j + k < p.regions && k < 4 && Shape(p, Step(p, s, t))
    requires t.op.Read? || t.addr != PMPCFG0 + j
    ensures CfgReg(p, Step(p, s, t), j).At(k) == CfgReg(p, s, j).At(k)
  {
    hide Step, Pack, CfgReg, WDataInt, CfgWData;
    RegionOf(j, k);
    StepAt(p, s, t, 4 * j + k);
    CfgRegAt(p, s, j, k);
    CfgRegAt(p, Step(p, s, t), j, k);
  }

  lemma ReadKeeps(v: Word, w: Word, lock: Word)
    ensures Updated(v, Read, w, lock) == v
  {
  }

  lemma CfgStep(p: Params, regs: seq<Register>, s: Regs, t: Access, j: nat)
    requires Agreeable(p) && InStep(p, regs, s) && Covered(t.addr) && p.pmpEnable && j < p.regions / 4
    requires Shape(p, Step(p, s, t))
    ensures Transact(regs, t)[j].value == CfgReg(p, Step(p, s, t), j)
  {
    hide LegalBytes, Updated, And, CfgReg, UnusedCounters, One, MaskLow, MaskHigh, Or;
    var v := regs[j].value;
    assert v == CfgReg(p, s, j);
    assert regs[j].kind == PmpCfg && regs[j].addr == PMPCFG0 + j by {
      assert regs[j].kind == Entry(p, j).kind && regs[j].addr == Entry(p, j).addr;
    }
    ReadKeeps(v, t.wdata, CfgLockMask(v));
    hide Layout, InStep, CfgLockMask, Entry, Step;
    if t.addr == PMPCFG0 + j && !t.op.Read? {
      CfgWritten(p, s, t, j);
    } else {
      CfgUnwritten(p, s, t, j);
    }
  }

  lemma LocksAgree(p: Params, regs: seq<Register>, s: Regs, i: nat)
    requires Agreeable(p) && InStep(p, regs, s) && p.pmpEnable && i < p.regions
    ensures AddrLockMask(regs, PMPADDR0 + i)
         == if s.cfg[i].lock || (i + 1 < p.regions && s.cfg[i + 1].mode == TOR) then ALL else ZERO
  {
    assert (PMPADDR0 + i) % 16 == i;
    RegionAgrees(p, regs, s, i);
    RegionAgrees(p, regs, s, i + 1);
    PackIsClean(s.cfg[i]);
    if i + 1 < p.regions {
      PackIsClean(s.cfg[i + 1]);
    }
    hide Pack, InStep, RegionByte, Lookup;
  }

  /** What the model finds as the configuration of a region, in or out of range. */
  lemma RegionAgrees(p: Params, regs: seq<Register>, s: Regs, i: nat)
    requires Agreeable(p) && InStep(p, regs, s) && p.pmpEnable && i <= p.regions
    ensures RegionByte(Lookup(regs, CfgAddr(i), |regs|), i) == if i < p.regions then Pack(s.cfg[i]) else 0
  {
    hide Pack, Entry;
    if i < 16 {
      ReadsAgree(p, regs, s, CfgAddr(i));
      assert RData(p, s, CfgAddr(i)) == CfgReg(p, s, i / 4);
      if i == p.regions {
        CfgRegZero(p, s, i / 4);
      }
      hide Lookup, InStep;
      assert 4 * (i / 4) + i % 4 == i;
    } else {
      NoFifthCfg(p, regs);
    }
  }

  /** The model looks for the configuration of region 16 in a register that does not exist. */
  lemma NoFifthCfg(p: Params, regs: seq<Register>)
    requires ParamsOk(p) && Layout(p, regs)
    ensures Lookup(regs, CfgAddr(16), |regs|) == ZERO
  {
    forall k | 0 <= k < ENTRIES ensures regs[k].addr != CfgAddr(16) {
      assert regs[k].addr == Entry(p, k).addr;
    }
    LookupMisses(regs, CfgAddr(16), |regs|);
  }

  /** An address register of the RTL over an access. */
  lemma AddrNextIs(p: Params, s: Regs, t: Access, i: nat)
    requires Shape(p, s) && Covered(t.addr) && p.pmpEnable && p.granularity == 0 && i < p.regions
    requires Shape(p, Step(p, s, t))
    ensures var locked := s.cfg[i].lock || (i + 1 < p.regions && s.cfg[i + 1].mode == TOR);
            Step(p, s, t).addr[i] ==
              if t.addr == PMPADDR0 + i && !t.op.Read? && !locked then OpWord(s.addr[i], t.op, t.wdata)
                                     else s.addr[i]
  {
    hide Step, OpWord;
    StepAt(p, s, t, i);
  }

  lemma AddrStep(p: Params, regs: seq<Register>, s: Regs, t: Access, i: nat)
    requires Agreeable(p) && InStep(p, regs, s) && Covered(t.addr) && p.pmpEnable && i < p.regions
    requires Shape(p, Step(p, s, t))
    ensures Transact(regs, t)[4 + i].value == Step(p, s, t).addr[i]
  {
    hide Step, Updated, AddrLockMask, WDataInt, OpWord, Or, Ones, CfgReg, One, InhibitOk;
    var v := regs[4 + i].value;
    assert v == s.addr[i] && regs[4 + i].addr == PMPADDR0 + i && regs[4 + i].kind == PmpAddr by {
      assert regs[4 + i].kind == Entry(p, 4 + i).kind && regs[4 + i].addr == Entry(p, 4 + i).addr;
    }
    LocksAgree(p, regs, s, i);
    AddrNextIs(p, s, t, i);
    OpenWord(v, t.op, t.wdata);
    ReadKeeps(v, t.wdata, AddrLockMask(regs, PMPADDR0 + i));
  }

  lemma OpenWord(v: Word, op: Op, w: Word)
    ensures !op.Read? ==> Updated(v, op, w, ZERO) == OpWord(v, op, w) && Updated(v, op, w, ALL) == v
  {
    if !op.Read? {
      OpenByteAgrees(v.b0, op, w.b0);
      OpenByteAgrees(v.b1, op, w.b1);
      OpenByteAgrees(v.b2, op, w.b2);
      OpenByteAgrees(v.b3, op, w.b3);
      hide UpdatedByte, OpByte;
    }
  }

  lemma InhibitStep(p: Params, regs: seq<Register>, s: Regs, t: Access)
    requires InStep(p, regs, s) && Covered(t.addr) && Shape(p, Step(p, s, t))
    ensures Transact(regs, t)[20].value == Or(Ones(p), Step(p, s, t).inhibit) && InhibitOk(p, Step(p, s, t))
  {
    var v, o := regs[20].value, Ones(p);
    assert v == Or(o, s.inhibit) && regs[20].addr == MCOUNTINHIBIT && regs[20].kind == Warl(Or(o, TIME), o) by {
      assert regs[20].kind == Entry(p, 20).kind && regs[20].addr == Entry(p, 20).addr;
    }
    assert InhibitOk(p, s);
    hide InStep, Layout, Entry, Ones, InhibitOk;
    if t.addr == MCOUNTINHIBIT && !t.op.Read? {
      InhibitWord(p, s, t.op, t.wdata);
    } else {
      ReadKeeps(v, t.wdata, Or(o, TIME));
    }
    hide Updated, Or, And, Not, OpWord;
  }

  /** The write of mcountinhibit, whole. */
  lemma InhibitWord(p: Params, s: Regs, op: Op, w: Word)
    requires ParamsOk(p) && InhibitOk(p, s) && !op.Read?
    ensures var o, v := Ones(p), Or(Ones(p), s.inhibit);
            && Updated(v, op, w, Or(o, TIME)) == Or(o, And(OpWord(v, op, w), Not(Or(o, TIME))))
            && And(And(OpWord(v, op, w), Not(Or(o, TIME))), Or(o, TIME)) == ZERO
  {
    var o, q := Ones(p), s.inhibit;
    hide ModelInhibit, RtlInhibit, UpdatedByte, OpByte;
    InhibitForm(o, q, op, w);
    InhibitBytes(p, s, op, w);
    MaskedOut(OpWord(Or(o, q), op, w), Or(o, TIME));
    hide Or, And, Not, OpWord, Updated, Ones, InhibitOk;
  }

  lemma InhibitForm(o: Word, q: Word, op: Op, w: Word)
    ensures Updated(Or(o, q), op, w, Or(o, TIME))
         == Word(ModelInhibit(q.b0, o.b0, 2, op, w.b0), ModelInhibit(q.b1, o.b1, 0, op, w.b1),
                 ModelInhibit(q.b2, o.b2, 0, op, w.b2), ModelInhibit(q.b3, o.b3, 0, op, w.b3))
    ensures Or(o, And(OpWord(Or(o, q), op, w), Not(Or(o, TIME))))
         == Word(RtlInhibit(q.b0, o.b0, 2, op, w.b0), RtlInhibit(q.b1, o.b1, 0, op, w.b1),
                 RtlInhibit(q.b2, o.b2, 0, op, w.b2), RtlInhibit(q.b3, o.b3, 0, op, w.b3))
  {
    hide UpdatedByte, OpByte, BitAnd, BitOr, BitNot;
  }

  lemma InhibitBytes(p: Params, s: Regs, op: Op, w: Word)
    requires ParamsOk(p) && InhibitOk(p, s) && !op.Read?
    ensures var o, q := Ones(p), s.inhibit;
            && ModelInhibit(q.b0, o.b0, 2, op, w.b0) == RtlInhibit(q.b0, o.b0, 2, op, w.b0)
            && ModelInhibit(q.b1, o.b1, 0, op, w.b1) == RtlInhibit(q.b1, o.b1, 0, op, w.b1)
            && ModelInhibit(q.b2, o.b2, 0, op, w.b2) == RtlInhibit(q.b2, o.b2, 0, op, w.b2)
            && ModelInhibit(q.b3, o.b3, 0, op, w.b3) == RtlInhibit(q.b3, o.b3, 0, op, w.b3)
  {
    var o, q := Ones(p), s.inhibit;
    TimeExists(p);
    hide ModelInhibit, RtlInhibit, Ones;
    InhibitByte(q.b0, o.b0, 2, op, w.b0);
    InhibitByte(q.b1, o.b1, 0, op, w.b1);
    InhibitByte(q.b2, o.b2, 0, op, w.b2);
    InhibitByte(q.b3, o.b3, 0, op, w.b3);
  }

  /** Bit 1 is not one of the unused counters. */
  lemma TimeExists(p: Params)
    ensures Ones(p).b0 & 2 == 0 && Ones(p).b1 & 0 == 0 && Ones(p).b2 & 0 == 0 && Ones(p).b3 & 0 == 0
  {
    var n := p.counters + 3;
    assert n == 3 || n == 4 || n == 5 || n == 6 || n == 7 || n >= 8;
  }

  lemma EventStep(p: Params, regs: seq<Register>, s: Regs, t: Access, i: nat)
    requires InStep(p, regs, s) && 3 <= i < p.counters + 3
    ensures Transact(regs, t)[18 + i].value == One(i)
  {
    var v := regs[18 + i].value;
    assert v == One(i) && regs[18 + i].kind == Warl(ALL, One(i)) by {
      assert regs[18 + i].kind == Entry(p, 18 + i).kind;
    }
    hide InStep, Layout, Entry, One;
    ReadKeeps(v, t.wdata, ALL);
    OpenWord(v, t.op, t.wdata);
    hide Updated;
  }

  lemma InStepStep(p: Params, regs: seq<Register>, s: Regs, t: Access)
    requires Agreeable(p) && InStep(p, regs, s) && Covered(t.addr)
    ensures InStep(p, Transact(regs, t), Step(p, s, t))
  {
    var r, u := Transact(regs, t), Step(p, s, t);
    StepAt(p, s, t, 0);
    LayoutStep(p, regs, t);
    InhibitStep(p, regs, s, t);
    NeverReserved(p, [t], s);
    assert Run(p, s, [t]) == u by {
      assert [t][1..] == [];
      assert Run(p, u, []) == u;
    }
    hide InStep, Layout, Step, CfgReg, Ones, Or, One, InhibitOk, NoReserved;
    assert NoReserved(u);
    forall j | p.pmpEnable && 0 <= j < p.regions / 4 ensures r[j].value == CfgReg(p, u, j) {
      CfgStep(p, regs, s, t, j);
    }
    forall i | p.pmpEnable && 0 <= i < p.regions ensures r[4 + i].value == u.addr[i] {
      AddrStep(p, regs, s, t, i);
    }
    forall i | 3 <= i < p.counters + 3 ensures r[18 + i].value == One(i) {
      EventStep(p, regs, s, t, i);
    }
    InStepIntro(p, r, u);
  }

  lemma InStepIntro(p: Params, regs: seq<Register>, s: Regs)
    requires Shape(p, s) && Layout(p, regs) && NoReserved(s) && InhibitOk(p, s)
    requires p.pmpEnable ==> forall j :: 0 <= j < p.regions / 4 ==> regs[j].value == CfgReg(p, s, j)
    requires p.pmpEnable ==> forall i :: 0 <= i < p.regions ==> regs[4 + i].value == s.addr[i]
    requires regs[20].value == Or(Ones(p), s.inhibit)
    requires forall i :: 3 <= i < p.counters + 3 ==> regs[18 + i].value == One(i)
    ensures InStep(p, regs, s)
  {
  }

  // ------------------------------------------------------------------ runs

  /** What the test bench does to both sides: an access, or a reset. */
  datatype Event = Do(t: Access) | DoReset

  /** The values read at the addresses covered, in order. */
  function ModelReadsOf(regs: seq<Register>, run: seq<Event>): seq<Word>
    decreases |run|
  {
    if run == [] then []
    else
      match run[0]
      case Do(t) =>
        (if Covered(t.addr) then [Lookup(regs, t.addr, |regs|)] else []) + ModelReadsOf(Transact(regs, t), run[1..])
      case DoReset => ModelReadsOf(Reset(regs), run[1..])
  }

  function RtlReadsOf(p: Params, s: Regs, run: seq<Event>): seq<Word>
    requires Shape(p, s)
    decreases |run|
  {
    if run == [] then []
    else
      match run[0]
      case Do(t) =>
        if !Covered(t.addr) then RtlReadsOf(p, s, run[1..]) else
        StepAt(p, s, t, 0);
        [RData(p, s, t.addr)] + RtlReadsOf(p, Step(p, s, t), run[1..])
      case DoReset => RtlReadsOf(p, ResetState(p), run[1..])
  }

  /** Model and RTL after a reset, whatever was before. */
  lemma ResetInStep(p: Params, regs: seq<Register>)
    requires ParamsOk(p) && Layout(p, regs)
    ensures InStep(p, Reset(regs), ResetState(p))
  {
    var r := Reset(regs);
    forall k | 0 <= k < ENTRIES ensures r[k].addr == regs[k].addr && r[k].kind == regs[k].kind {
    }
    assert Layout(p, r);
    assert forall k :: 0 <= k < ENTRIES ==> r[k].kind == Entry(p, k).kind;
    assert r[20].value == Ones(p);
    OrZero(Ones(p));
    forall i | 3 <= i < p.counters + 3 ensures r[18 + i].value == One(i) {
      assert r[18 + i].kind == Entry(p, 18 + i).kind;
    }
    forall j | p.pmpEnable && 0 <= j < p.regions / 4 ensures r[j].value == CfgReg(p, ResetState(p), j) {
      assert r[j].kind == Entry(p, j).kind;
      assert Pack(RESET_CFG) == 0;
    }
    forall i | p.pmpEnable && 0 <= i < p.regions ensures r[4 + i].value == ResetState(p).addr[i] {
      assert r[4 + i].kind == Entry(p, 4 + i).kind;
    }
    InStepIntro(p, r, ResetState(p));
  }

  lemma OrZero(v: Word)
    ensures Or(v, ZERO) == v && And(ZERO, v) == ZERO
  {
    Units(v.b0);
    Units(v.b1);
    Units(v.b2);
    Units(v.b3);
    Commute(0, v.b0);
    Commute(0, v.b1);
    Commute(0, v.b2);
    Commute(0, v.b3);
    hide BitOr, BitAnd, BitNot;
  }

  /** An access to a register that is not covered moves none that is. */
  lemma OtherAccess(p: Params, regs: seq<Register>, s: Regs, t: Access)
    requires InStep(p, regs, s) && !Covered(t.addr)
    ensures InStep(p, Transact(regs, t), s)
  {
    var r := Transact(regs, t);
    LayoutStep(p, regs, t);
    forall k | 0 <= k < 50 ensures r[k] == regs[k] {
      assert regs[k].addr == Entry(p, k).addr;
      assert Covered(regs[k].addr);
    }
    hide Layout, Transact, CfgReg, Ones, Or, One, InhibitOk, NoReserved, Entry;
  }

  lemma {:induction false} RunsAgree(p: Params, regs: seq<Register>, s: Regs, run: seq<Event>)
    requires Agreeable(p) && InStep(p, regs, s)
    ensures ModelReadsOf(regs, run) == RtlReadsOf(p, s, run)
    decreases |run|
  {
    hide InStep, Layout, Lookup, RData, Transact, Step, Reset, ResetState;
    assert Shape(p, s) && Layout(p, regs) by { Parts(p, regs, s); }
    if run == [] {
    } else if run[0].Do? && !Covered(run[0].t.addr) {
      OtherAccess(p, regs, s, run[0].t);
      RunsAgree(p, Transact(regs, run[0].t), s, run[1..]);
    } else if run[0].Do? {
      ReadsAgree(p, regs, s, run[0].t.addr);
      InStepStep(p, regs, s, run[0].t);
      RunsAgree(p, Transact(regs, run[0].t), Step(p, s, run[0].t), run[1..]);
    } else {
      ResetInStep(p, regs);
      RunsAgree(p, Reset(regs), ResetState(p), run[1..]);
    }
  }

  lemma Parts(p: Params, regs: seq<Register>, s: Regs)
    requires InStep(p, regs, s)
    ensures Shape(p, s) && Layout(p, regs)
  {
  }

  // ------------------------------------------------------------------ exactly when

  /** Model and RTL return the same data at the addresses covered on every sequence of accesses, to any
      addresses, and resets after reset. */
  ghost predicate Agreement(p: Params)
    requires ParamsOk(p)
  {
    forall run :: ModelReadsOf(Reset(InitialMap(p)), run) == RtlReadsOf(p, ResetState(p), run)
  }

  /** A write and the read after it. */
  lemma WriteThenRead(p: Params, regs: seq<Register>, s: Regs, a: nat, w: Word)
    requires Shape(p, s) && Covered(a)
    ensures var t := Access(a, Write, w);
            var run := [Do(t), Do(Access(a, Read, ZERO))];
            && Shape(p, Step(p, s, t))
            && (Lookup(Transact(regs, t), a, |regs|) != RData(p, Step(p, s, t), a)
                ==> ModelReadsOf(regs, run) != RtlReadsOf(p, s, run))
  {
    hide Lookup, RData, Transact, Step;
    var t, r := Access(a, Write, w), Access(a, Read, ZERO);
    StepAt(p, s, t, 0);
    var run := [Do(t), Do(r)];
    var rest := [Do(r)];
    assert run[1..] == rest && rest[1..] == [];
    assert |Transact(regs, t)| == |regs|;
    var m, n := ModelReadsOf(Transact(regs, t), rest), RtlReadsOf(p, Step(p, s, t), rest);
    assert ModelReadsOf(regs, run) == [Lookup(regs, a, |regs|)] + m;
    assert RtlReadsOf(p, s, run) == [RData(p, s, a)] + n;
    assert m[0] == Lookup(Transact(regs, t), a, |regs|) && n[0] == RData(p, Step(p, s, t), a);
    assert ModelReadsOf(regs, run)[1] == m[0] && RtlReadsOf(p, s, run)[1] == n[0];
  }

  const BIT0 := Word(1, 0, 0, 0)

  lemma ResetReads(p: Params, a: nat)
    requires ParamsOk(p) && (PMPCFG0 <= a < PMPCFG0 + 4)
    ensures Lookup(Reset(InitialMap(p)), a, ENTRIES) == ZERO
  {
    var regs := Reset(InitialMap(p));
    MapIsDistinct(p);
    assert Layout(p, InitialMap(p));
    ResetInStep(p, InitialMap(p));
    Parts(p, regs, ResetState(p));
    ModelReads(p, regs, a);
    assert regs[a - PMPCFG0].kind == Entry(p, a - PMPCFG0).kind;
  }

  /** The model keeps the lowest bit of an address register whatever the granularity ... */
  lemma ModelKeepsLowBit(p: Params)
    requires ParamsOk(p) && p.pmpEnable
    ensures var regs := Transact(Reset(InitialMap(p)), Access(PMPADDR0, Write, BIT0));
            Lookup(regs, PMPADDR0, |regs|) == BIT0
  {
    var regs, t := Reset(InitialMap(p)), Access(PMPADDR0, Write, BIT0);
    MapIsDistinct(p);
    ResetInStep(p, InitialMap(p));
    Parts(p, regs, ResetState(p));
    LayoutStep(p, regs, t);
    ModelReads(p, Transact(regs, t), PMPADDR0);
    ResetReads(p, PMPCFG0);
    assert regs[4].kind == PmpAddr && regs[4].value == ZERO && regs[4].addr == PMPADDR0 by {
      assert regs[4].kind == Entry(p, 4).kind && regs[4].addr == Entry(p, 4).addr;
    }
    hide InStep, Layout, Entry, Updated, Lookup, Reset;
    assert AddrLockMask(regs, PMPADDR0) == ZERO;
    OpenWord(ZERO, Write, BIT0);
    hide AddrLockMask;
  }

  /** ... the RTL drops it with a granularity above zero. */
  lemma RtlDropsLowBit(p: Params)
    requires ParamsOk(p) && p.pmpEnable && p.granularity > 0
    ensures var t := Access(PMPADDR0, Write, BIT0);
            Shape(p, Step(p, ResetState(p), t)) && RData(p, Step(p, ResetState(p), t), PMPADDR0).b0 & 1 == 0
  {
    StepAt(p, ResetState(p), Access(PMPADDR0, Write, BIT0), 0);
    LowBitMasked(p.granularity);
    hide Step, From;
  }

  lemma GranularityDisagrees(p: Params)
    requires ParamsOk(p) && p.pmpEnable && p.granularity > 0
    ensures !Agreement(p)
  {
    hide Step, RData, Lookup, Transact, ResetState, Reset;
    ModelKeepsLowBit(p);
    RtlDropsLowBit(p);
    WriteThenRead(p, Reset(InitialMap(p)), ResetState(p), PMPADDR0, BIT0);
  }

  lemma LowBitMasked(n: nat)
    requires n > 0
    ensures And(BIT0, From(n)).b0 & 1 == 0 && And(ZERO, From(n)).b0 & 1 == 0
  {
    if n < 8 {
      assert n == 1 || n == 2 || n == 3 || n == 4 || n == 5 || n == 6 || n == 7;
    }
  }

  /** With a number of regions that does not fill its last configuration register the model has no
      such register. */
  lemma RegionsDisagree(p: Params)
    requires ParamsOk(p) && p.pmpEnable && p.regions % 4 != 0
    ensures !Agreement(p)
  {
    var j := p.regions / 4;
    var a := PMPCFG0 + j;
    var regs, s, t := Reset(InitialMap(p)), ResetState(p), Access(a, Write, BIT0);
    MapIsDistinct(p);
    ResetInStep(p, InitialMap(p));
    Parts(p, regs, s);
    LayoutStep(p, regs, t);
    ModelReads(p, Transact(regs, t), a);
    WriteThenRead(p, regs, s, a, BIT0);
    WrittenRegionReads(p, j);
    assert Lookup(Transact(regs, t), a, |regs|) == ZERO;
    hide Step, RData, Lookup, Transact;
  }

  /** The RTL has the register: its first region reads back readable. */
  lemma WrittenRegionReads(p: Params, j: nat)
    requires ParamsOk(p) && p.pmpEnable && 4 * j < p.regions && j < 4
    ensures var t := Access(PMPCFG0 + j, Write, BIT0);
            Shape(p, Step(p, ResetState(p), t)) && RData(p, Step(p, ResetState(p), t), t.addr).b0 == 1
  {
    var s, t := ResetState(p), Access(PMPCFG0 + j, Write, BIT0);
    StepAt(p, s, t, 4 * j);
    FirstBit(p);
    assert WDataInt(p, s, t) == BIT0;
    assert (4 * j) / 4 == j && (4 * j) % 4 == 0;
    hide Step, CfgWData, WDataInt, Pack;
  }

  lemma FirstBit(p: Params)
    ensures CfgWData(p, 1) == Cfg(false, OFF, false, false, true) && Pack(CfgWData(p, 1)) == 1
  {
  }

  /** The model is a faithful reference exactly for the configurations without a PMP, and those with
      granularity zero and a number of regions divisible by four. */
  lemma AgreementIff(p: Params)
    requires ParamsOk(p)
    ensures Agreement(p) <==> (p.pmpEnable ==> p.granularity == 0 && p.regions % 4 == 0)
  {
    if Agreeable(p) {
      MapIsDistinct(p);
      ResetInStep(p, InitialMap(p));
      forall run: seq<Event>
        ensures ModelReadsOf(Reset(InitialMap(p)), run) == RtlReadsOf(p, ResetState(p), run)
      {
        RunsAgree(p, Reset(InitialMap(p)), ResetState(p), run);
      }
    } else if p.granularity > 0 {
      GranularityDisagrees(p);
    } else {
      RegionsDisagree(p);
    }
  }
}
