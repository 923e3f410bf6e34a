/** What a CSR access is, to the register model and to the CSR block alike. */
module CsrAccess {

  /** dv/cs_registers/env/register_types.h. */
  datatype Params = Params(pmpEnable: bool, granularity: nat, regions: nat, counters: nat, counterWidth: nat)

  predicate ParamsOk(p: Params) {
    p.granularity < 32 && 1 <= p.regions <= 16 && p.counters <= 29 && p.counterWidth <= 64
  }

  type Byte = bv8

  /** A 32-bit word as its four bytes, lowest first. All masks of the PMP registers are the same
      in every byte, so that bitwise operations are written byte by byte. */
  datatype Word = Word(b0: Byte, b1: Byte, b2: Byte, b3: Byte) {
    /** Bits 8k to 8k + 7. */
    function At(k: nat): Byte
      requires k < 4
    {
      if k == 0 then b0 else if k == 1 then b1 else if k == 2 then b2 else b3
    }
  }

  const ZERO := Word(0, 0, 0, 0)
  const ALL := Word(0xFF, 0xFF, 0xFF, 0xFF)

  function BitAnd(a: Byte, b: Byte): Byte { a & b }
  function BitOr(a: Byte, b: Byte): Byte { a | b }
  function BitNot(a: Byte): Byte { !a }

  function And(v: Word, w: Word): Word {
    Word(BitAnd(v.b0, w.b0), BitAnd(v.b1, w.b1), BitAnd(v.b2, w.b2), BitAnd(v.b3, w.b3))
  }

  function Or(v: Word, w: Word): Word {
    Word(BitOr(v.b0, w.b0), BitOr(v.b1, w.b1), BitOr(v.b2, w.b2), BitOr(v.b3, w.b3))
  }

  function Not(v: Word): Word { Word(BitNot(v.b0), BitNot(v.b1), BitNot(v.b2), BitNot(v.b3)) }

  /** Byte `k` of `~((1 << n) - 1)`. */
  function ByteFrom(n: nat, k: nat): Byte {
    if n <= 8 * k then 0xFF else if n >= 8 * k + 8 then 0 else (0xFF as Byte) << (n - 8 * k)
  }

  /** `~((1 << n) - 1)`: the bits from `n` on. */
  function From(n: nat): Word { Word(ByteFrom(n, 0), ByteFrom(n, 1), ByteFrom(n, 2), ByteFrom(n, 3)) }

  /** `1 << n`. */
  function One(n: nat): Word { And(From(n), Not(From(n + 1))) }

  /** 0x2: mcountinhibit has no bit for time. */
  const TIME := Word(2, 0, 0, 0)

  datatype Op = Read | Write | Set | Clear

  datatype Access = Access(addr: nat, op: Op, wdata: Word)

  const PMPCFG0 := 0x3A0
  const PMPADDR0 := 0x3B0
  const MCOUNTINHIBIT := 0x320
  const MCYCLE := 0xB00
  const MINSTRET := 0xB02
  const MCYCLEH := 0xB80
  const MINSTRETH := 0xB82
}

/** dv/cs_registers/model: the C++ reference model of the CSRs, an ordered map of registers of
    several classes. */
module RegisterModel {
  import opened CsrAccess

  datatype Kind = Base | PmpCfg | PmpAddr | NonImp | Warl(mask: Word, resval: Word)

  datatype Register = Register(addr: nat, kind: Kind, value: Word)

  const RAZ_MASK := Word(0x9F, 0x9F, 0x9F, 0x9F)

  // ------------------------------------------------------------------ the register classes

  function RegisterRead(r: Register): Word { if r.kind.NonImp? then ZERO else r.value }

  function ResetValue(k: Kind): Word { if k.Warl? then k.resval else ZERO }

  function ByteLock(b: Byte): Byte { if b & 0x80 != 0 then 0xFF else 0 }

  function CfgLockMask(v: Word): Word { Word(ByteLock(v.b0), ByteLock(v.b1), ByteLock(v.b2), ByteLock(v.b3)) }

  /** What the last register with address `a` among the first `n` reads as. */
  function Lookup(regs: seq<Register>, a: nat, n: nat): Word
    requires n <= |regs|
  {
    if n == 0 then ZERO
    else if regs[n - 1].addr == a then RegisterRead(regs[n - 1])
    else Lookup(regs, a, n - 1)
  }

  /** The configuration register of a region, and the region's byte of it. */
  function CfgAddr(region: nat): nat { PMPCFG0 + region / 4 }
  function RegionByte(v: Word, region: nat): Byte { v.At(region % 4) }

  /** Locked if the lock bit is set, or the next region is TOR. */
  predicate Locks(cfg: Byte, cfgPlus1: Byte) { cfg & 0x80 != 0 || cfgPlus1 & 0x18 == 0x8 }

  function AddrLockMask(regs: seq<Register>, addr: nat): Word {
    var region := addr % 16;
    var cfg := Lookup(regs, CfgAddr(region), |regs|);
    var cfgPlus1 := Lookup(regs, CfgAddr(region + 1), |regs|);
    if Locks(RegionByte(cfg, region), RegionByte(cfgPlus1, region + 1)) then ALL else ZERO
  }

  function LockMask(regs: seq<Register>, r: Register): Word {
    match r.kind
    case PmpCfg => CfgLockMask(r.value)
    case PmpAddr => AddrLockMask(regs, r.addr)
    case Warl(mask, _) => mask
    case _ => ZERO
  }

  /** The reserved combination W = 1, R = 0 is taken out. */
  function LegalByte(b: Byte): Byte { if b & 0x3 == 0x2 then b & !0x3 else b }

  function WithByte(v: Word, k: nat, b: Byte): Word {
    if k == 0 then v.(b0 := b) else if k == 1 then v.(b1 := b) else if k == 2 then v.(b2 := b) else v.(b3 := b)
  }

  /** The first `n` bytes made legal. */
  function LegalBytes(v: Word, n: nat): Word
    requires n <= 4
  {
    if n == 0 then v else WithByte(LegalBytes(v, n - 1), n - 1, LegalByte(v.At(n - 1)))
  }

  function UpdatedByte(v: Byte, op: Op, wdata: Byte, lock: Byte): Byte {
    match op
    case Read => v
    case Write => BitOr(BitAnd(v, lock), BitAnd(wdata, BitNot(lock)))
    case Set => BitOr(v, BitAnd(wdata, BitNot(lock)))
    case Clear => BitAnd(v, BitOr(BitNot(wdata), lock))
  }

  function Updated(v: Word, op: Op, w: Word, lock: Word): Word {
    Word(UpdatedByte(v.b0, op, w.b0, lock.b0), UpdatedByte(v.b1, op, w.b1, lock.b1),
         UpdatedByte(v.b2, op, w.b2, lock.b2), UpdatedByte(v.b3, op, w.b3, lock.b3))
  }

  /** The register's value after an access to it. */
  function NewValue(regs: seq<Register>, r: Register, t: Access): Word {
    var v := Updated(r.value, t.op, t.wdata, LockMask(regs, r));
    match r.kind
    case NonImp => r.value
    case PmpCfg => if t.op.Read? then v else LegalBytes(And(v, RAZ_MASK), 4)
    case _ => v
  }

  // ------------------------------------------------------------------ the model

  function Transact(regs: seq<Register>, t: Access): (r: seq<Register>)
    ensures |r| == |regs|
    ensures forall k :: 0 <= k < |r| ==>
              r[k] == if regs[k].addr == t.addr then regs[k].(value := NewValue(regs, regs[k], t)) else regs[k]
  {
    seq(|regs|, k requires 0 <= k < |regs| =>
      if regs[k].addr == t.addr then regs[k].(value := NewValue(regs, regs[k], t)) else regs[k])
  }

  function Reset(regs: seq<Register>): (r: seq<Register>)
    ensures |r| == |regs|
    ensures forall k :: 0 <= k < |r| ==> r[k] == regs[k].(value := ResetValue(regs[k].kind))
  {
    seq(|regs|, k requires 0 <= k < |regs| => regs[k].(value := ResetValue(regs[k].kind)))
  }

  predicate Distinct(regs: seq<Register>) {
    forall j, k :: 0 <= j < k < |regs| ==> regs[j].addr != regs[k].addr
  }

  predicate Contains(regs: seq<Register>, a: nat) { exists k :: 0 <= k < |regs| && regs[k].addr == a }

  // ------------------------------------------------------------------ the register map

  function CfgKind(p: Params, j: nat): Kind { if p.pmpEnable && j < p.regions / 4 then PmpCfg else NonImp }

  function AddrKind(p: Params, i: nat): Kind { if p.pmpEnable && i < p.regions then PmpAddr else NonImp }

  /** `~((1 << MHPMCounterNum) - 1) << 3`. */
  function UnusedCounters(p: Params): Word { From(p.counters + 3) }

  /** The bits a counter of the given width does not have, in its low and in its high word. */
  function MaskLow(p: Params): Word { From(p.counterWidth) }
  function MaskHigh(p: Params): Word { From(if p.counterWidth <= 32 then 0 else p.counterWidth - 32) }

  function CounterKind(p: Params, i: nat, used: Kind): Kind { if i < p.counters + 3 then used else NonImp }

  /** The class and address of entry `k` of the map, in the order the constructor fills it. */
  function Entry(p: Params, k: nat): Register
    requires ParamsOk(p)
  {
    if k < 4 then Register(PMPCFG0 + k, CfgKind(p, k), ZERO)
    else if k < 20 then Register(PMPADDR0 + (k - 4), AddrKind(p, k - 4), ZERO)
    else if k == 20 then Register(MCOUNTINHIBIT, Warl(Or(UnusedCounters(p), TIME), UnusedCounters(p)), ZERO)
    else if k < 50 then Register(MCOUNTINHIBIT + (k - 18), CounterKind(p, k - 18, Warl(ALL, One(k - 18))), ZERO)
    else if k == 50 then Register(MCYCLE, Base, ZERO)
    else if k == 51 then Register(MINSTRET, Base, ZERO)
    else if k < 81 then Register(MCYCLE + (k - 49), CounterKind(p, k - 49, Warl(MaskLow(p), ZERO)), ZERO)
    else if k == 81 then Register(MCYCLEH, Base, ZERO)
    else if k == 82 then Register(MINSTRETH, Base, ZERO)
    else Register(MCYCLEH + (k - 80), CounterKind(p, k - 80, Warl(MaskHigh(p), ZERO)), ZERO)
  }

  const ENTRIES := 112

  function InitialMap(p: Params): (r: seq<Register>)
    requires ParamsOk(p)
    ensures |r| == ENTRIES && forall k :: 0 <= k < ENTRIES ==> r[k] == Entry(p, k)
  {
    seq(ENTRIES, k requires 0 <= k && ParamsOk(p) => Entry(p, k))
  }

  lemma MapIsDistinct(p: Params)
    requires ParamsOk(p)
    ensures Distinct(InitialMap(p))
  {
    forall j, k | 0 <= j < k < ENTRIES ensures Entry(p, j).addr != Entry(p, k).addr {
    }
  }

  /** The registers, mutated in place. Like those of `RegisterModel::RegisterReset`,
      `RegisterModel::NewTransaction` and `PmpAddrRegister::GetLockMask`, the loops run over the whole
      map. */
  class Model {
    const p: Params
    var regs: seq<Register>

    predicate Valid()
      reads this
    {
      Distinct(regs)
    }

    constructor (p: Params)
      requires ParamsOk(p)
      ensures Valid() && this.p == p && regs == InitialMap(p)
    {
      hide UnusedCounters, MaskLow, MaskHigh;
      MapIsDistinct(p);
      var r := Protection(p);
      r := Inhibits(p, r);
      r := r + [Register(MCYCLE, Base, ZERO), Register(MINSTRET, Base, ZERO)];
      r := Counters(p, r, MCYCLE, MaskLow(p));
      r := r + [Register(MCYCLEH, Base, ZERO), Register(MINSTRETH, Base, ZERO)];
      r := Counters(p, r, MCYCLEH, MaskHigh(p));
      assert r == InitialMap(p);
      this.p := p;
      regs := r;
    }

    static method Protection(p: Params) returns (r: seq<Register>)
      requires ParamsOk(p)
      ensures |r| == 20 && r <= InitialMap(p)
    {
      r := [];
      for i := 0 to 4
        invariant |r| == i && r <= InitialMap(p)
      {
        r := r + [Register(PMPCFG0 + i, if p.pmpEnable && i < p.regions / 4 then PmpCfg else NonImp, ZERO)];
      }
      for i := 0 to 16
        invariant |r| == 4 + i && r <= InitialMap(p)
      {
        r := r + [Register(PMPADDR0 + i, if p.pmpEnable && i < p.regions then PmpAddr else NonImp, ZERO)];
      }
    }

    static method Inhibits(p: Params, from: seq<Register>) returns (r: seq<Register>)
      requires ParamsOk(p) && |from| == 20 && from <= InitialMap(p)
      ensures |r| == 50 && r <= InitialMap(p)
    {
      hide UnusedCounters, MaskLow, MaskHigh;
      var unused := UnusedCounters(p);
      r := from + [Register(MCOUNTINHIBIT, Warl(Or(unused, TIME), unused), ZERO)];
      for i := 3 to 32
        invariant |r| == 18 + i && r <= InitialMap(p)
      {
        assert InitialMap(p)[|r|] == Register(MCOUNTINHIBIT + i, CounterKind(p, i, Warl(ALL, One(i))), ZERO);
        r := r + [Register(MCOUNTINHIBIT + i, if i < p.counters + 3 then Warl(ALL, One(i)) else NonImp, ZERO)];
      }
    }

    static method Counters(p: Params, from: seq<Register>, addr: nat, mask: Word) returns (r: seq<Register>)
      requires ParamsOk(p) && from <= InitialMap(p)
      requires |from| + 29 <= ENTRIES
      requires forall k :: |from| <= k < |from| + 29 ==>
                 Entry(p, k) == Register(addr + k - |from| + 3, CounterKind(p, k - |from| + 3, Warl(mask, ZERO)), ZERO)
      ensures |r| == |from| + 29 && r <= InitialMap(p)
    {
      r := from;
      for i := 3 to 32
        invariant |r| == |from| + i - 3 && r <= InitialMap(p)
      {
        assert InitialMap(p)[|r|] == Register(addr + i, CounterKind(p, i, Warl(mask, ZERO)), ZERO);
        r := r + [Register(addr + i, if i < p.counters + 3 then Warl(mask, ZERO) else NonImp, ZERO)];
      }
    }

    method RegisterReset()
      modifies this
      ensures regs == Reset(old(regs))
    {
      var k := 0;
      while k < |regs|
        invariant 0 <= k <= |regs| == |old(regs)|
        invariant forall j :: 0 <= j < k ==> regs[j] == Reset(old(regs))[j]
        invariant forall j :: k <= j < |regs| ==> regs[j] == old(regs)[j]
      {
        regs := regs[k := regs[k].(value := ResetValue(regs[k].kind))];
        k := k + 1;
      }
    }

    /** `PmpAddrRegister::GetLockMask`: finds and reads two configuration registers. */
    method PmpAddrLockMask(addr: nat) returns (mask: Word)
      ensures mask == AddrLockMask(regs, addr)
    {
      hide Locks, RegionByte, CfgAddr;
      var region := addr % 16;
      var cfgAddr, plus1Addr := CfgAddr(region), CfgAddr(region + 1);
      var cfg: Word, plus1: Word := ZERO, ZERO;
      var k := 0;
      while k < |regs|
        invariant 0 <= k <= |regs|
        invariant cfg == Lookup(regs, cfgAddr, k) && plus1 == Lookup(regs, plus1Addr, k)
      {
        if regs[k].addr == cfgAddr {
          cfg := RegisterRead(regs[k]);
        }
        if regs[k].addr == plus1Addr {
          plus1 := RegisterRead(regs[k]);
        }
        k := k + 1;
      }
      mask := if Locks(RegionByte(cfg, region), RegionByte(plus1, region + 1)) then ALL else ZERO;
    }

    static method Legalised(v: Word) returns (w: Word)
      ensures w == LegalBytes(v, 4)
    {
      hide LegalByte;
      w := v;
      for i := 0 to 4
        invariant w == LegalBytes(v, i) && forall k :: i <= k < 4 ==> w.At(k) == v.At(k)
      {
        w := WithByte(w, i, LegalByte(w.At(i)));
      }
    }

    method Mutate(k: nat, t: Access)
      requires k < |regs|
      modifies this
      ensures regs == old(regs)[k := old(regs)[k].(value := NewValue(old(regs), old(regs)[k], t))]
    {
      hide LegalBytes, Updated, AddrLockMask, CfgLockMask, And;
      var r := regs[k];
      var lock := LockMask(regs, r);
      if r.kind.PmpAddr? {
        lock := PmpAddrLockMask(r.addr);
      }
      var v := Updated(r.value, t.op, t.wdata, lock);
      if r.kind.PmpCfg? && !t.op.Read? {
        v := Legalised(And(v, RAZ_MASK));
      }
      if !r.kind.NonImp? {
        regs := regs[k := r.(value := v)];
      }
    }

    /** Checks the value read against the model and updates the model; asks for a stop on a
        mismatch, other than of a running counter, or when an access to no register was legal. */
    method NewTransaction(t: Access, rdata: Word, illegal: bool) returns (stop: bool)
      requires Valid()
      modifies this
      ensures Valid() && regs == Transact(old(regs), t)
      ensures stop <==>
                if Contains(old(regs), t.addr)
                then rdata != Lookup(old(regs), t.addr, |old(regs)|) && t.addr != MCYCLE && t.addr != MCYCLEH
                else !illegal
    {
      hide NewValue;
      stop := false;
      var matched, k := false, 0;
      ghost var was := regs;
      while k < |regs|
        invariant 0 <= k <= |regs| == |was|
        invariant matched <==> exists j :: 0 <= j < k && was[j].addr == t.addr
        invariant forall j :: 0 <= j < k ==> regs[j] == Transact(was, t)[j]
        invariant forall j :: k <= j < |regs| ==> regs[j] == was[j]
        invariant !matched ==> regs == was && Lookup(was, t.addr, k) == ZERO
        invariant stop <==> matched && rdata != Lookup(was, t.addr, k) && t.addr != MCYCLE && t.addr != MCYCLEH
      {
        if regs[k].addr == t.addr {
          assert !matched;
          var readVal := RegisterRead(regs[k]);
          Mutate(k, t);
          matched := true;
          if t.addr != MCYCLE && t.addr != MCYCLEH && readVal != rdata {
            stop := true;
          }
        }
        k := k + 1;
      }
      assert regs == Transact(was, t);
      if !matched && !illegal {
        stop := true;
      }
    }
  }
}
