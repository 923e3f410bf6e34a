/** PMP locks of the C++ register model are permanent, in every configuration. */
module ModelLocks {
  import opened CsrAccess
  import opened RegisterModel
  import opened PmpAgreement
  import PmpCsrs

  // ------------------------------------------------------------------ a region of the model

  /** Region `i`'s configuration byte and its address. */
  function ModelCfg(regs: seq<Register>, i: nat): Byte
    requires i / 4 < |regs|
  {
    regs[i / 4].value.At(i % 4)
  }

  function ModelAddr(regs: seq<Register>, i: nat): Word
    requires 4 + i < |regs|
  {
    regs[4 + i].value
  }

  predicate ModelLocked(regs: seq<Register>, i: nat)
    requires i / 4 < |regs|
  {
    ModelCfg(regs, i) & 0x80 != 0
  }

  predicate ModelTor(regs: seq<Register>, i: nat)
    requires i / 4 < |regs|
  {
    ModelCfg(regs, i) & 0x18 == 8
  }

  // ------------------------------------------------------------------ invariant

  predicate CleanWord(v: Word) { forall k :: 0 <= k < 4 ==> Clean(v.At(k)) == v.At(k) }

  /** A configuration register holds no reserved bit or combination, one not implemented nothing. */
  predicate CfgOk(r: Register) { if r.kind.NonImp? then r.value == ZERO else CleanWord(r.value) }

  predicate ModelInv(p: Params, regs: seq<Register>)
    requires ParamsOk(p)
  {
    Layout(p, regs) && forall j :: 0 <= j < 4 ==> CfgOk(regs[j])
  }

  lemma CleanIsStable(b: Byte)
    ensures Clean(Clean(b)) == Clean(b)
  {
  }

  lemma ModelReset(p: Params, regs: seq<Register>)
    requires ParamsOk(p) && Layout(p, regs)
    ensures ModelInv(p, Reset(regs))
  {
    var r := Reset(regs);
    assert Clean(0) == 0;
    forall j | 0 <= j < 4 ensures CfgOk(r[j]) {
      assert r[j].kind == Entry(p, j).kind;
    }
    hide Entry, Clean;
    forall k | 0 <= k < ENTRIES ensures r[k].addr == regs[k].addr && r[k].kind == regs[k].kind {
    }
  }

  /** A byte of a written configuration register: clean again, and the old one if it was locked. */
  lemma NewByte(v: Byte, op: Op, w: Byte)
    requires !op.Read? && Clean(v) == v
    ensures Clean(NewCfgByte(v, op, w)) == NewCfgByte(v, op, w)
    ensures v & 0x80 != 0 ==> NewCfgByte(v, op, w) == v
  {
    CfgByteAgrees(v, op, w);
    hide Clean, UpdatedByte, PmpCsrs.OpByte, LegalByte, ByteLock;
    CleanIsStable(PmpCsrs.OpByte(v, op, w));
  }

  /** A configuration register in an access to it. */
  lemma CfgValue(regs: seq<Register>, r: Register, t: Access, k: nat)
    requires r.kind.PmpCfg? && CleanWord(r.value) && k < 4
    ensures var v := NewValue(regs, r, t);
            && Clean(v.At(k)) == v.At(k)
            && (r.value.At(k) & 0x80 != 0 ==> v.At(k) == r.value.At(k))
  {
    hide Clean, NewCfgByte, Updated, LegalBytes, And, CfgLockMask;
    var v := r.value;
    if t.op.Read? {
      ReadKeeps(v, t.wdata, CfgLockMask(v));
    } else {
      CfgRegNew(v, t.op, t.wdata);
      NewByte(v.At(k), t.op, t.wdata.At(k));
    }
  }

  /** One configuration register of the model over any access. */
  lemma CfgRegStep(p: Params, regs: seq<Register>, t: Access, j: nat)
    requires ParamsOk(p) && ModelInv(p, regs) && j < 4
    ensures CfgOk(Transact(regs, t)[j])
    ensures forall k :: 0 <= k < 4 && regs[j].value.At(k) & 0x80 != 0 ==>
              Transact(regs, t)[j].value.At(k) == regs[j].value.At(k)
  {
    var r, u := regs[j], Transact(regs, t)[j];
    assert r.kind == PmpCfg || r.kind == NonImp by {
      assert r.kind == Entry(p, j).kind;
    }
    assert CfgOk(r);
    hide Layout, ModelInv, Clean;
    if r.kind.PmpCfg? && r.addr == t.addr {
      forall k | 0 <= k < 4
        ensures Clean(u.value.At(k)) == u.value.At(k)
        ensures r.value.At(k) & 0x80 != 0 ==> u.value.At(k) == r.value.At(k)
      {
        CfgValue(regs, r, t, k);
      }
      hide NewValue;
    } else if r.kind.NonImp? {
      assert u.value == r.value;
    }
  }

  lemma ModelInvStep(p: Params, regs: seq<Register>, t: Access)
    requires ParamsOk(p) && ModelInv(p, regs)
    ensures ModelInv(p, Transact(regs, t))
  {
    LayoutStep(p, regs, t);
    forall j | 0 <= j < 4 ensures CfgOk(Transact(regs, t)[j]) {
      CfgRegStep(p, regs, t, j);
    }
    hide CfgOk, Layout, Transact;
  }

  // ------------------------------------------------------------------ one access

  /** What the search through the map finds as the configuration of a region. */
  lemma CfgFound(p: Params, regs: seq<Register>, i: nat)
    requires ParamsOk(p) && ModelInv(p, regs) && i < 16
    ensures RegionByte(Lookup(regs, CfgAddr(i), |regs|), i) == ModelCfg(regs, i)
  {
    var j := i / 4;
    assert regs[j].addr == CfgAddr(i) by {
      assert regs[j].addr == Entry(p, j).addr;
    }
    assert CfgOk(regs[j]) && Distinct(regs);
    hide Layout, ModelInv, Lookup, CleanWord;
    LookupFinds(regs, j, |regs|);
  }

  lemma AddrLocked(p: Params, regs: seq<Register>, i: nat)
    requires ParamsOk(p) && ModelInv(p, regs) && i < p.regions
    requires ModelLocked(regs, i) || (i + 1 < p.regions && ModelTor(regs, i + 1))
    ensures AddrLockMask(regs, PMPADDR0 + i) == ALL
  {
    assert (PMPADDR0 + i) % 16 == i;
    hide ModelInv, Lookup, RegionByte, CfgAddr, ModelCfg;
    CfgFound(p, regs, i);
    if i + 1 < p.regions {
      CfgFound(p, regs, i + 1);
    }
  }

  lemma AddrEntry(p: Params, regs: seq<Register>, i: nat)
    requires ParamsOk(p) && ModelInv(p, regs) && p.pmpEnable && i < p.regions
    ensures |regs| == ENTRIES && regs[4 + i].kind == PmpAddr && regs[4 + i].addr == PMPADDR0 + i
  {
    assert regs[4 + i].kind == Entry(p, 4 + i).kind && regs[4 + i].addr == Entry(p, 4 + i).addr;
  }

  /** A locked region, and the base of a region in TOR mode, cannot be written. */
  lemma AddrKept(p: Params, regs: seq<Register>, t: Access, i: nat)
    requires ParamsOk(p) && ModelInv(p, regs) && p.pmpEnable && i < p.regions
    requires ModelLocked(regs, i) || (i + 1 < p.regions && ModelTor(regs, i + 1))
    ensures ModelAddr(Transact(regs, t), i) == ModelAddr(regs, i)
  {
    hide ModelInv, AddrLockMask, Updated, ModelLocked, ModelTor;
    AddrEntry(p, regs, i);
    AddrLocked(p, regs, i);
    ReadKeeps(regs[4 + i].value, t.wdata, ALL);
    OpenWord(regs[4 + i].value, t.op, t.wdata);
  }

  lemma CfgKept(p: Params, regs: seq<Register>, t: Access, i: nat)
    requires ParamsOk(p) && ModelInv(p, regs) && i < 16
    ensures ModelLocked(regs, i) ==> ModelCfg(Transact(regs, t), i) == ModelCfg(regs, i)
  {
    hide ModelInv, Transact, CfgOk;
    CfgRegStep(p, regs, t, i / 4);
  }

  /** What a lock keeps of region `i` from one state to another. */
  predicate LockKept(p: Params, was: seq<Register>, now: seq<Register>, i: nat)
    requires i < p.regions <= 16 && |was| == |now| == ENTRIES
  {
    && (ModelLocked(was, i) ==> ModelCfg(now, i) == ModelCfg(was, i) && ModelAddr(now, i) == ModelAddr(was, i))
    && (i + 1 < p.regions && ModelLocked(was, i + 1) && ModelTor(was, i + 1) ==>
          && ModelCfg(now, i + 1) == ModelCfg(was, i + 1)
          && ModelAddr(now, i) == ModelAddr(was, i) && ModelAddr(now, i + 1) == ModelAddr(was, i + 1))
  }

  lemma LockStep(p: Params, regs: seq<Register>, t: Access, i: nat)
    requires ParamsOk(p) && ModelInv(p, regs) && p.pmpEnable && i < p.regions
    ensures LockKept(p, regs, Transact(regs, t), i)
  {
    assert |regs| == ENTRIES;
    hide ModelInv, Transact, ModelLocked, ModelTor, ModelCfg, ModelAddr;
    CfgKept(p, regs, t, i);
    if ModelLocked(regs, i) {
      AddrKept(p, regs, t, i);
    }
    if i + 1 < p.regions && ModelLocked(regs, i + 1) {
      CfgKept(p, regs, t, i + 1);
      AddrKept(p, regs, t, i + 1);
      if ModelTor(regs, i + 1) {
        AddrKept(p, regs, t, i);
      }
    }
  }

  // ------------------------------------------------------------------ runs

  function ModelAfter(regs: seq<Register>, run: seq<Event>): (r: seq<Register>)
    ensures |r| == |regs|
    decreases |run|
  {
    if run == [] then regs
    else ModelAfter(match run[0] case Do(t) => Transact(regs, t) case DoReset => Reset(regs), run[1..])
  }

  predicate NoReset(run: seq<Event>) { forall k :: 0 <= k < |run| ==> run[k].Do? }

  lemma {:induction false} ModelInvRun(p: Params, regs: seq<Register>, run: seq<Event>)
    requires ParamsOk(p) && ModelInv(p, regs)
    ensures ModelInv(p, ModelAfter(regs, run))
    decreases |run|
  {
    if run == [] {
    } else if run[0].Do? {
      ModelInvStep(p, regs, run[0].t);
      ModelInvRun(p, Transact(regs, run[0].t), run[1..]);
    } else {
      ModelReset(p, regs);
      ModelInvRun(p, Reset(regs), run[1..]);
    }
  }

  lemma {:induction false} LockKeptRun(p: Params, regs: seq<Register>, run: seq<Event>, i: nat)
    requires ParamsOk(p) && ModelInv(p, regs) && p.pmpEnable && i < p.regions && NoReset(run)
    ensures LockKept(p, regs, ModelAfter(regs, run), i)
    decreases |run|
  {
    if run == [] {
    } else {
      var t := run[0].t;
      assert |regs| == ENTRIES;
      ModelInvStep(p, regs, t);
      LockStep(p, regs, t, i);
      hide ModelInv, ModelCfg, ModelAddr, Transact;
      LockKeptRun(p, Transact(regs, t), run[1..], i);
    }
  }

  /** From reset, in every configuration with a PMP, whatever came before: no accesses, to any
      addresses, move a locked region, nor configuration or either address of a region locked in TOR
      mode, until the next reset. */
  lemma ModelLockIsPermanent(p: Params, past: seq<Event>, run: seq<Event>, i: nat)
    requires ParamsOk(p) && p.pmpEnable && i < p.regions && NoReset(run)
    ensures var now := ModelAfter(Reset(InitialMap(p)), past);
            |now| == ENTRIES && LockKept(p, now, ModelAfter(now, run), i)
  {
    hide ModelAfter, LockKept, Entry;
    MapIsDistinct(p);
    ModelReset(p, InitialMap(p));
    ModelInvRun(p, Reset(InitialMap(p)), past);
    LockKeptRun(p, ModelAfter(Reset(InitialMap(p)), past), run, i);
  }
}
