/** Age order of the fill buffers, attribution of bus responses, and the content of the RAMs. */
module ICacheProofs {
  import opened ICache

  lemma ShapeStep(s: Regs, i: Inputs)
    requires Ready(s, i)
    ensures Shape(Step(s, i))
  {
    hide BufferNext, TagsNext, LinesNext, TagReadNext, LineReadNext, HitData, BufferOk, RamsOk, Lookup;
    var t := Step(s, i);
    forall k | 0 <= k < |t.fb| ensures BufferOk(t.c, t.fb[k]) {
      assert t.fb[k] == BufferNext(s, i, k);
      BufferShape(s, i, k);
    }
    RamsShape(s, i);
    ReadShape(s, i);
    AllocIsLowestFree(s, i, 0);
  }

  lemma BufferShape(s: Regs, i: Inputs, k: nat)
    requires Ready(s, i) && k < |s.fb|
    ensures BufferOk(s.c, BufferNext(s, i, k))
  {
    hide Alloc, ExtArb, RvdArb, HitIc1, RamArb, OutArb, HitData, SelWay, Done, RvdBeat;
    assert BufferOk(s.c, s.fb[k]);
  }

  lemma RamsShape(s: Regs, i: Inputs)
    requires Ready(s, i)
    ensures RamsOk(s.c, TagsNext(s, i), LinesNext(s, i))
  {
    var k, t, l := RamPick(s, i, 0), TagsNext(s, i), LinesNext(s, i);
    hide Lookup, AnyRamReq, RamArb;
    assert k < |s.fb| ==> BufferOk(s.c, s.fb[k]);
    assert RamsOk(s.c, s.tags, s.lines);
    forall w | 0 <= w < s.c.ways ensures |t[w]| == s.c.lines && |l[w]| == s.c.lines {
      assert |s.tags[w]| == s.c.lines && |s.lines[w]| == s.c.lines;
    }
    forall w, x | 0 <= w < s.c.ways && 0 <= x < s.c.lines ensures |l[w][x]| == s.c.beats {
      assert |s.lines[w][x]| == s.c.beats;
      if s.invalProg {
        assert l[w] == s.lines[w] || l[w] == s.lines[w][s.invalIndex := Zeros(s.c.beats)];
      } else if k < |s.fb| {
        var f := s.fb[k];
        assert l[w] == s.lines[w] || l[w] == s.lines[w][f.addr.line.index := f.data];
      }
    }
  }

  lemma ReadShape(s: Regs, i: Inputs)
    requires Ready(s, i)
    ensures |TagReadNext(s, i)| == s.c.ways && |LineReadNext(s, i)| == s.c.ways
    ensures forall w :: 0 <= w < s.c.ways ==> |LineReadNext(s, i)[w]| == s.c.beats
  {
    hide Reads;
    forall w | 0 <= w < s.c.ways ensures |s.lines[w][LookupAddr(s, i).line.index]| == s.c.beats {
    }
  }

  // ------------------------------------------------------------------ age order

  /** What stands before position `q` in the allocation order. */
  function Prior(order: seq<nat>, q: nat): set<nat>
    requires q <= |order|
  {
    set x | x in order[..q]
  }

  ghost predicate Distinct(order: seq<nat>) {
    forall p, q :: 0 <= p < q < |order| ==> order[p] != order[q]
  }

  /** `order` lists the busy buffers, oldest allocation first, and each buffer's `older` set is
      exactly what stands before it. */
  ghost predicate Age(s: Regs, order: seq<nat>) {
    && Distinct(order)
    && BusySet(s) == Prior(order, |order|)
    && forall q :: 0 <= q < |order| ==> order[q] < |s.fb| && s.fb[order[q]].older == Prior(order, q)
  }

  /** The order after the buffers in `gone` have left it. */
  function Survivors(order: seq<nat>, gone: set<nat>): seq<nat> {
    if order == [] then []
    else var n := |order| - 1;
         Survivors(order[..n], gone) + if order[n] in gone then [] else [order[n]]
  }

  function OrderNext(s: Regs, order: seq<nat>, i: Inputs): seq<nat>
    requires Shape(s)
  {
    Survivors(order, DoneSet(s, i)) + if Lookup(s, i) then [LowestFree(s, 0)] else []
  }

  /** Position `p` of `f` holds a survivor of `order`, with the survivors before it. */
  ghost predicate Kept(order: seq<nat>, gone: set<nat>, f: seq<nat>, p: nat)
    requires p < |f|
  {
    exists q :: 0 <= q < |order| && f[p] == order[q] && f[p] !in gone && Prior(f, p) == Prior(order, q) - gone
  }

  ghost predicate Filtered(order: seq<nat>, gone: set<nat>, f: seq<nat>) {
    && Distinct(f)
    && Prior(f, |f|) == Prior(order, |order|) - gone
    && forall p :: 0 <= p < |f| ==> Kept(order, gone, f, p)
  }

  lemma {:induction false} SurvivorsAt(order: seq<nat>, gone: set<nat>)
    requires Distinct(order)
    ensures Filtered(order, gone, Survivors(order, gone))
    decreases |order|
  {
    if order == [] {
    } else {
      var n := |order| - 1;
      SurvivorsAt(order[..n], gone);
      assert order[n] !in order[..n];
      FilteredMore(order[..n], gone, Survivors(order[..n], gone), order[n]);
      assert order == order[..n] + [order[n]];
    }
  }

  lemma PriorMore(order: seq<nat>, x: nat)
    ensures Prior(order + [x], |order|) == Prior(order, |order|)
    ensures Prior(order + [x], |order| + 1) == Prior(order, |order|) + {x}
  {
    var g := order + [x];
    assert g[..|order|] == order[..|order|] && g[..|order| + 1] == order[..|order|] + [x];
  }

  /** A kept position stays kept when both sequences grow. */
  lemma KeptMore(order: seq<nat>, gone: set<nat>, f: seq<nat>, x: nat, more: seq<nat>, p: nat)
    requires p < |f| && Kept(order, gone, f, p)
    ensures Kept(order + [x], gone, f + more, p)
  {
    var q :| 0 <= q < |order| && f[p] == order[q] && f[p] !in gone && Prior(f, p) == Prior(order, q) - gone;
    assert (order + [x])[q] == order[q] && (f + more)[p] == f[p];
    assert (order + [x])[..q] == order[..q] && (f + more)[..p] == f[..p];
  }

  lemma FilteredMore(order: seq<nat>, gone: set<nat>, f: seq<nat>, x: nat)
    requires Filtered(order, gone, f) && x !in order
    ensures Filtered(order + [x], gone, f + if x in gone then [] else [x])
  {
    hide Kept, Prior;
    var more := if x in gone then [] else [x];
    var g := f + more;
    PriorMore(order, x);
    PriorMore(f, x);
    PriorWhole(f);
    PriorWhole(order);
    assert x !in Prior(f, |f|);
    DistinctMore(f, more);
    assert x in gone ==> g == f;
    forall p | 0 <= p < |g| ensures Kept(order + [x], gone, g, p) {
      if p < |f| {
        KeptMore(order, gone, f, x, more, p);
      } else {
        KeptLast(order, gone, f, x);
      }
    }
  }

  lemma KeptLast(order: seq<nat>, gone: set<nat>, f: seq<nat>, x: nat)
    requires x !in gone && Prior(f, |f|) == Prior(order, |order|) - gone
    ensures Kept(order + [x], gone, f + [x], |f|)
  {
    hide Prior;
    PriorMore(order, x);
    PriorMore(f, x);
    assert (order + [x])[|order|] == x;
  }

  lemma PriorPrefix(order: seq<nat>, n: nat)
    requires n <= |order|
    ensures forall q :: 0 <= q <= n ==> Prior(order[..n], q) == Prior(order, q)
  {
    forall q | 0 <= q <= n ensures Prior(order[..n], q) == Prior(order, q) {
      assert order[..n][..q] == order[..q];
    }
  }

  /** The buffer's place in the order and its `older` set move together. */
  lemma OlderNext(s: Regs, i: Inputs, k: nat)
    requires Shape(s) && k < |s.fb|
    ensures var f := BufferNext(s, i, k);
            && f.busy == (Alloc(s, i, k) || (s.fb[k].busy && !Done(s, i, k)))
            && (Alloc(s, i, k) ==> f.older == BusySet(s) - DoneSet(s, i))
            && (!Alloc(s, i, k) && s.fb[k].busy ==> f.older == s.fb[k].older - DoneSet(s, i))
  {
    hide Alloc, ExtArb, RvdArb, HitIc1, RamArb, OutArb, HitData, SelWay, Done, RvdBeat, DoneSet, BusySet;
  }

  lemma AllocIsLowestFree(s: Regs, i: Inputs, k: nat)
    requires Shape(s) && k < |s.fb|
    ensures Alloc(s, i, k) <==> Lookup(s, i) && k == LowestFree(s, 0)
    ensures Lookup(s, i) ==> LowestFree(s, 0) < |s.fb|
  {
    hide Throttle;
  }

  /** How every buffer's place in the order moves. */
  lemma PlacesNext(s: Regs, i: Inputs)
    requires Ready(s, i)
    ensures |Step(s, i).fb| == |s.fb| && (Lookup(s, i) ==> LowestFree(s, 0) < |s.fb|)
    ensures forall k :: 0 <= k < |s.fb| ==>
              Step(s, i).fb[k].busy
                == ((Lookup(s, i) && k == LowestFree(s, 0)) || (s.fb[k].busy && k !in DoneSet(s, i)))
    ensures forall k :: 0 <= k < |s.fb| && s.fb[k].busy ==> Step(s, i).fb[k].older == s.fb[k].older - DoneSet(s, i)
    ensures Lookup(s, i) ==> Step(s, i).fb[LowestFree(s, 0)].older == BusySet(s) - DoneSet(s, i)
  {
    var t, gone, a := Step(s, i), DoneSet(s, i), LowestFree(s, 0);
    forall k | 0 <= k < |s.fb| ensures k in gone <==> Done(s, i, k) {
    }
    hide BufferNext, Alloc, Lookup, LowestFree, DoneSet, Done, BusySet, Shape;
    BuffersStep(s, i);
    AllocIsLowestFree(s, i, 0);
    forall k | 0 <= k < |s.fb|
      ensures Alloc(s, i, k) <==> Lookup(s, i) && k == a
      ensures t.fb[k].busy == (Alloc(s, i, k) || (s.fb[k].busy && k !in gone))
      ensures Alloc(s, i, k) ==> t.fb[k].older == BusySet(s) - gone
      ensures !Alloc(s, i, k) && s.fb[k].busy ==> t.fb[k].older == s.fb[k].older - gone
    {
      AllocIsLowestFree(s, i, k);
      OlderNext(s, i, k);
    }
  }

  lemma AgeStep(s: Regs, order: seq<nat>, i: Inputs)
    requires Ready(s, i) && Age(s, order)
    ensures Age(Step(s, i), OrderNext(s, order, i))
  {
    hide Step, Lookup, Survivors, DoneSet, Age;
    assert Distinct(order) by { AgeIsDistinct(s, order); }
    SurvivorsAt(order, DoneSet(s, i));
    PlacesNext(s, i);
    AgeMoves(s, order, Step(s, i), Survivors(order, DoneSet(s, i)), DoneSet(s, i),
             if Lookup(s, i) then [LowestFree(s, 0)] else []);
  }

  lemma AgeIsDistinct(s: Regs, order: seq<nat>)
    requires Age(s, order)
    ensures Distinct(order)
  {
  }

  /** A sequence without repetition stays so with a new element at its end. */
  lemma DistinctMore(f: seq<nat>, more: seq<nat>)
    requires Distinct(f) && |more| <= 1 && (more != [] ==> more[0] !in f)
    ensures Distinct(f + more)
  {
    var g := f + more;
    forall p, q | 0 <= p < q < |g| ensures g[p] != g[q] {
      assert g[p] == f[p];
    }
  }

  lemma PriorWhole(order: seq<nat>)
    ensures forall x :: x in Prior(order, |order|) <==> x in order
  {
    assert order[..|order|] == order;
  }

  lemma AgeMoves(s: Regs, order: seq<nat>, t: Regs, f: seq<nat>, gone: set<nat>, more: seq<nat>)
    requires Age(s, order) && |t.fb| == |s.fb| && |more| <= 1 && Filtered(order, gone, f)
    requires more != [] ==> more[0] < |s.fb| && !s.fb[more[0]].busy && t.fb[more[0]].older == BusySet(s) - gone
    requires forall k :: 0 <= k < |s.fb| ==> t.fb[k].busy == ([k] == more || (s.fb[k].busy && k !in gone))
    requires forall k :: 0 <= k < |s.fb| && s.fb[k].busy ==> t.fb[k].older == s.fb[k].older - gone
    ensures Age(t, f + more)
  {
    hide Kept, Prior, Distinct;
    var last := f + more;
    assert last[..|f|] == f;
    PriorPrefix(last, |f|);
    PriorWhole(f);
    PriorWhole(last);
    forall p | 0 <= p < |last| ensures last[p] < |t.fb| && t.fb[last[p]].older == Prior(last, p) {
      if p < |f| {
        assert Kept(order, gone, f, p);
        OlderMoves(s, order, t, f, gone, p);
      }
    }
    assert BusySet(s) - gone == Prior(f, |f|);
    DistinctMore(f, more);
    forall k ensures k in BusySet(t) <==> k in Prior(last, |last|) {
      assert k in BusySet(s) - gone <==> k in f;
    }
  }

  lemma OlderMoves(s: Regs, order: seq<nat>, t: Regs, f: seq<nat>, gone: set<nat>, p: nat)
    requires Age(s, order) && |t.fb| == |s.fb| && p < |f| && Kept(order, gone, f, p)
    requires forall k :: 0 <= k < |s.fb| && s.fb[k].busy ==> t.fb[k].older == s.fb[k].older - gone
    ensures f[p] < |t.fb| && t.fb[f[p]].older == Prior(f, p)
  {
    var q :| 0 <= q < |order| && f[p] == order[q] && f[p] !in gone && Prior(f, p) == Prior(order, q) - gone;
    assert order[q] in Prior(order, |order|);
  }

  /** `older` among busy buffers is a strict total order, for any number of buffers. */
  lemma AgeIsTotalOrder(s: Regs, order: seq<nat>, j: nat, k: nat)
    requires Age(s, order) && j in BusySet(s) && k in BusySet(s)
    ensures k !in s.fb[k].older && s.fb[k].older <= BusySet(s)
    ensures j != k ==> (j in s.fb[k].older <==> k !in s.fb[j].older)
    ensures j in s.fb[k].older ==> s.fb[j].older < s.fb[k].older
  {
    var p :| 0 <= p < |order| && order[p] == j;
    var q :| 0 <= q < |order| && order[q] == k;
    assert forall x :: x in order[..p] ==> x in order;
    assert forall x :: x in order[..q] ==> x in order;
    if p < q {
      assert order[..p] == order[..q][..p] && order[..q][p] == j;
      assert j in s.fb[k].older && j !in s.fb[j].older;
      assert forall x :: x in order[..p] ==> x in order[..q];
    } else if q < p {
      assert order[..p][q] == k;
    }
  }

  /** Every grant of the arbiters goes to at most one buffer. */
  lemma GrantsAreOneHot(s: Regs, order: seq<nat>, i: Inputs, j: nat, k: nat)
    requires Shape(s) && Age(s, order) && j < |s.fb| && k < |s.fb| && j != k
    ensures !(ExtArb(s, i, j) && ExtArb(s, i, k))
    ensures !(RvdArb(s, i, j) && RvdArb(s, i, k))
    ensures !(RamArb(s, i, j) && RamArb(s, i, k))
    ensures !(OutArb(s, i, j) && OutArb(s, i, k))
  {
    if s.fb[j].busy && s.fb[k].busy {
      AgeIsTotalOrder(s, order, j, k);
    }
    hide Age, Shape, ExtDone, RvdDone, FillGrant;
  }

  /** The oldest buffer of a non-empty set of busy ones. */
  lemma {:induction false} OldestOf(s: Regs, order: seq<nat>, among: set<nat>, n: nat) returns (k: nat)
    requires Age(s, order) && n <= |order| && among * Prior(order, n) == {}
    requires among <= BusySet(s) && among != {}
    ensures k in among && s.fb[k].older * among == {}
    decreases |order| - n
  {
    if n == |order| {
      assert false;
    } else if order[n] in among {
      k := order[n];
    } else {
      assert order[..n + 1] == order[..n] + [order[n]];
      k := OldestOf(s, order, among, n + 1);
    }
  }

  /** Whenever a buffer wants the bus, one of them is granted its use. */
  lemma SomeExtArb(s: Regs, order: seq<nat>, i: Inputs)
    requires Shape(s) && Age(s, order) && AnyExtReq(s, i)
    ensures ExtPick(s, i, 0) < |s.fb|
  {
    var among := set k | 0 <= k < |s.fb| && ExtReq(s, i, k);
    var w :| 0 <= w < |s.fb| && ExtReq(s, i, w);
    assert w in among;
    var k := OldestOf(s, order, among, 0);
    forall j | 0 <= j < |s.fb| && j in s.fb[k].older ensures !ExtReq(s, i, j) {
      assert j !in s.fb[k].older * among;
    }
    assert ExtArb(s, i, k);
    if ExtPick(s, i, 0) == |s.fb| {
      NoExtPick(s, i, 0, k);
    }
  }

  lemma {:induction false} NoExtPick(s: Regs, i: Inputs, n: nat, k: nat)
    requires Shape(s) && n <= k < |s.fb| && ExtArb(s, i, k)
    ensures ExtPick(s, i, n) < |s.fb|
    decreases |s.fb| - n
  {
    if !ExtArb(s, i, n) {
      NoExtPick(s, i, n + 1, k);
    }
  }

  // ------------------------------------------------------------------ external requests

  /** A granted bus request that has no response yet: the address the bus saw, and the buffer it
      was made for with its number among that buffer's requests. */
  datatype Fetch = Fetch(addr: Addr, owner: nat, number: nat)

  /** `ExtDone` on registers alone. */
  predicate ExtFinished(c: Config, f: Buffer)
    requires ConfigOk(c) && BufferOk(c, f)
  {
    && (Full(c, f.extCnt) || f.hit || f.err[ExtOff(c, f)] || (!f.cache && f.stale))
    && !f.extHold
  }

  lemma FinishedIsDone(s: Regs, i: Inputs, k: nat)
    requires Shape(s) && k < |s.fb| && ExtFinished(s.c, s.fb[k])
    ensures ExtDone(s, i, k)
  {
  }

  /** Once a busy buffer has no more requests to make it never makes one again. */
  lemma ExtDoneIsStable(s: Regs, i: Inputs, k: nat)
    requires Ready(s, i) && k < |s.fb| && s.fb[k].busy && ExtDone(s, i, k)
    ensures BufferOk(s.c, BufferNext(s, i, k)) && ExtFinished(s.c, BufferNext(s, i, k))
  {
    BufferShape(s, i, k);
    hide RvdArb, RamArb, OutArb, HitData, SelWay, Done, RvdBeat, DoneSet, BusySet, TagHit;
  }

  predicate Grants(s: Regs, i: Inputs)
    requires Shape(s)
  {
    InstrReq(s, i) && GntNotPmpErr(i)
  }

  function Issued(s: Regs, i: Inputs): seq<Fetch>
    requires Shape(s)
  {
    if !Grants(s, i) then []
    else var k := ExtPick(s, i, 0);
         if AnyExtReq(s, i) && k < |s.fb| then [Fetch(InstrAddr(s, i), k, s.fb[k].extCnt)]
         else [Fetch(InstrAddr(s, i), LowestFree(s, 0), 0)]
  }

  /** The bus answers in order. */
  function BusNext(s: Regs, bus: seq<Fetch>, i: Inputs): seq<Fetch>
    requires Shape(s)
  {
    (if i.rvalid && bus != [] then bus[1..] else bus) + Issued(s, i)
  }

  /** The beat a buffer's request number `n` is for. */
  function BeatAddr(c: Config, f: Buffer, n: nat): Addr { Addr(f.addr.line, Low(c, f.addr.beat + n)) }

  ghost predicate Counters(s: Regs) {
    forall k :: 0 <= k < |s.fb| && s.fb[k].busy ==>
      && s.fb[k].rvdCnt <= s.fb[k].extCnt <= s.c.beats
      && (s.fb[k].extHold ==> s.fb[k].extCnt < s.c.beats)
  }

  predicate OwedTo(c: Config, f: Buffer, x: Fetch) {
    f.busy && f.rvdCnt <= x.number < f.extCnt && x.addr == BeatAddr(c, f, x.number)
  }

  predicate Owed(s: Regs, x: Fetch) { x.owner < |s.fb| && OwedTo(s.c, s.fb[x.owner], x) }

  predicate IsOlder(older: set<nat>, x: Fetch, y: Fetch) {
    (x.owner == y.owner && x.number < y.number) || x.owner in older
  }

  predicate Before(s: Regs, x: Fetch, y: Fetch) {
    y.owner < |s.fb| && IsOlder(s.fb[y.owner].older, x, y)
  }

  ghost predicate OnBus(bus: seq<Fetch>, k: nat, n: nat) {
    exists p :: 0 <= p < |bus| && bus[p].owner == k && bus[p].number == n
  }

  ghost predicate AllOwed(s: Regs, bus: seq<Fetch>) {
    forall p :: 0 <= p < |bus| ==> Owed(s, bus[p])
  }

  ghost predicate Sorted(s: Regs, bus: seq<Fetch>) {
    forall p, q :: 0 <= p < q < |bus| ==> Before(s, bus[p], bus[q])
  }

  ghost predicate Complete(s: Regs, bus: seq<Fetch>) {
    forall k, n :: 0 <= k < |s.fb| && s.fb[k].busy && s.fb[k].rvdCnt <= n < s.fb[k].extCnt ==> OnBus(bus, k, n)
  }

  /** The bus owes exactly the responses the counters wait for, and in age order. */
  ghost predicate BusInAgeOrder(s: Regs, bus: seq<Fetch>) {
    AllOwed(s, bus) && Sorted(s, bus) && Complete(s, bus)
  }

  /** A buffer that has issued a request is younger only than buffers that have issued theirs. */
  ghost predicate IssuesInAgeOrder(s: Regs)
    requires Shape(s)
  {
    forall j, k :: 0 <= j < |s.fb| && 0 <= k < |s.fb| && s.fb[k].busy && j in s.fb[k].older
                   && (s.fb[k].extCnt > 0 || s.fb[k].extHold)
      ==> ExtFinished(s.c, s.fb[j])
  }

  ghost predicate BusInv(s: Regs, order: seq<nat>, bus: seq<Fetch>) {
    && Shape(s) && Age(s, order) && Counters(s)
    && IssuesInAgeOrder(s) && BusInAgeOrder(s, bus)
  }

  /** A response is taken by the buffer it was fetched for, as the beat it was fetched for. */
  lemma ResponseReachesOwner(s: Regs, order: seq<nat>, bus: seq<Fetch>, i: Inputs, k: nat)
    requires BusInv(s, order, bus) && i.rvalid && bus != [] && k < |s.fb|
    ensures RvdArb(s, i, k) <==> k == bus[0].owner
    ensures k == bus[0].owner
        ==> bus[0].number == s.fb[k].rvdCnt && bus[0].addr == Addr(s.fb[k].addr.line, RvdOff(s.c, s.fb[k]))
  {
    var h := bus[0].owner;
    var f := s.fb[h];
    assert Owed(s, bus[0]);
    assert OnBus(bus, h, f.rvdCnt);
    var p :| 0 <= p < |bus| && bus[p].owner == h && bus[p].number == f.rvdCnt;
    AgeIsTotalOrder(s, order, h, h);
    assert bus[0].number == f.rvdCnt;
    assert f.rvdCnt + f.addr.beat < 2 * s.c.beats;
    assert RvdExp(s, i, h);
    forall j | 0 <= j < |s.fb| && j in f.older ensures !RvdExp(s, i, j) {
      OlderHasNoResponseDue(s, order, bus, i, j);
    }
    if k != h {
      OneResponse(s, order, i, h, k);
    }
  }

  lemma OneResponse(s: Regs, order: seq<nat>, i: Inputs, h: nat, k: nat)
    requires Shape(s) && Age(s, order) && h < |s.fb| && k < |s.fb| && h != k && RvdArb(s, i, h)
    ensures !RvdArb(s, i, k)
  {
    GrantsAreOneHot(s, order, i, h, k);
  }

  lemma OlderHasNoResponseDue(s: Regs, order: seq<nat>, bus: seq<Fetch>, i: Inputs, j: nat)
    requires BusInv(s, order, bus) && bus != [] && bus[0].owner < |s.fb| && j < |s.fb|
    requires j in s.fb[bus[0].owner].older
    ensures !RvdExp(s, i, j)
  {
    var h := bus[0].owner;
    assert Owed(s, bus[0]);
    AgeIsTotalOrder(s, order, h, h);
    AgeIsTotalOrder(s, order, j, h);
    assert s.fb[h].extCnt > 0;
    FinishedIsDone(s, i, j);
    forall p | 0 <= p < |bus| ensures bus[p].owner != j {
      assert p > 0 ==> Before(s, bus[0], bus[p]);
    }
    assert s.fb[j].rvdCnt < s.fb[j].extCnt ==> OnBus(bus, j, s.fb[j].rvdCnt);
  }

  /** How one buffer's request counters move. */
  lemma CountersNext(s: Regs, i: Inputs, k: nat)
    requires Ready(s, i) && k < |s.fb| && (Alloc(s, i, k) || s.fb[k].busy)
    ensures var f, g := s.fb[k], BufferNext(s, i, k);
            if Alloc(s, i, k)
            then && g.extCnt == (if Spec(s, i) && GntNotPmpErr(i) then 1 else 0) && g.rvdCnt == 0
                 && g.extHold == (Spec(s, i) && !GntOrPmpErr(i)) && g.addr == LookupAddr(s, i)
            else && g.extCnt == IncIf(s.c, f.extCnt, ExtArb(s, i, k) && GntNotPmpErr(i))
                 && g.rvdCnt == IncIf(s.c, f.rvdCnt, RvdArb(s, i, k))
                 && g.extHold == (ExtArb(s, i, k) && !GntOrPmpErr(i)) && g.addr == f.addr
  {
    assert Alloc(s, i, k) ==> !ExtArb(s, i, k);
    hide Alloc, ExtArb, RvdArb, HitIc1, RamArb, OutArb, HitData, SelWay, Done, RvdBeat, DoneSet, BusySet, Spec,
         DataNext, ErrNext;
  }

  lemma AllocIsFree(s: Regs, i: Inputs, k: nat)
    requires Shape(s) && k < |s.fb| && Alloc(s, i, k)
    ensures !s.fb[k].busy
  {
  }

  /** The bus delivers responses only to granted requests. */
  predicate LegalBus(bus: seq<Fetch>, i: Inputs) { i.rvalid ==> bus != [] }

  /** Counters of a busy buffer move by one: the request granted now, the response taken now. */
  lemma BusyCounters(s: Regs, order: seq<nat>, bus: seq<Fetch>, i: Inputs, k: nat)
    requires BusInv(s, order, bus) && Ready(s, i) && LegalBus(bus, i) && k < |s.fb| && s.fb[k].busy
    ensures var f, g := s.fb[k], BufferNext(s, i, k);
            && g.extCnt == f.extCnt + (if ExtArb(s, i, k) && GntNotPmpErr(i) then 1 else 0) <= s.c.beats
            && g.rvdCnt == f.rvdCnt + (if i.rvalid && bus[0].owner == k then 1 else 0) <= f.extCnt
            && (ExtArb(s, i, k) ==> f.extCnt < s.c.beats)
            && g.extHold == (ExtArb(s, i, k) && !GntOrPmpErr(i)) && g.addr == f.addr
            && (g.extCnt > 0 || g.extHold ==> f.extCnt > 0 || f.extHold || ExtArb(s, i, k))
  {
    CountersNext(s, i, k);
    if Alloc(s, i, k) {
      AllocIsFree(s, i, k);
    }
    if i.rvalid {
      ResponseReachesOwner(s, order, bus, i, k);
      assert Owed(s, bus[0]);
    }
    hide BufferNext, Alloc, RvdArb, AnyExtReq, BusInAgeOrder, IssuesInAgeOrder, Age, Spec;
    assert BufferOk(s.c, s.fb[k]);
  }

  lemma CountersStep(s: Regs, order: seq<nat>, bus: seq<Fetch>, i: Inputs)
    requires BusInv(s, order, bus) && Ready(s, i) && LegalBus(bus, i) && Shape(Step(s, i))
    ensures Counters(Step(s, i))
  {
    var t := Step(s, i);
    forall k | 0 <= k < |t.fb| && t.fb[k].busy
      ensures t.fb[k].rvdCnt <= t.fb[k].extCnt <= t.c.beats && (t.fb[k].extHold ==> t.fb[k].extCnt < t.c.beats)
    {
      assert t.fb[k] == BufferNext(s, i, k);
      OlderNext(s, i, k);
      if s.fb[k].busy {
        BusyCounters(s, order, bus, i, k);
      } else {
        CountersNext(s, i, k);
      }
      hide Shape, BusInv, BufferNext, Alloc, Step;
    }
  }

  // ------------------------------------------------------------------ preservation of the bus order

  /** A response that is still owed stays owed, unless it is delivered now. */
  lemma OwedStays(s: Regs, order: seq<nat>, bus: seq<Fetch>, i: Inputs, p: nat)
    requires BusInv(s, order, bus) && Ready(s, i) && LegalBus(bus, i)
    requires p < |bus| && (i.rvalid ==> p > 0)
    ensures bus[p].owner < |s.fb| && OwedTo(s.c, BufferNext(s, i, bus[p].owner), bus[p])
    ensures bus[p].owner !in DoneSet(s, i) && s.fb[bus[p].owner].busy
  {
    var x := bus[p];
    var k := x.owner;
    assert Owed(s, x);
    assert k !in DoneSet(s, i);
    OlderNext(s, i, k);
    BusyCounters(s, order, bus, i, k);
    if i.rvalid {
      ResponseReachesOwner(s, order, bus, i, bus[0].owner) by { assert Owed(s, bus[0]); }
      AgeIsTotalOrder(s, order, k, k);
      assert Before(s, bus[0], bus[p]);
    }
    hide BusInv, Shape, BufferNext, DoneSet, Done, Age, Low;
  }

  /** The request granted now is owed: that of the oldest requesting buffer ... */
  lemma IssuedByBuffer(s: Regs, order: seq<nat>, bus: seq<Fetch>, i: Inputs)
    requires BusInv(s, order, bus) && Ready(s, i) && LegalBus(bus, i) && Grants(s, i) && AnyExtReq(s, i)
    ensures var k := ExtPick(s, i, 0);
            && k < |s.fb| && ExtArb(s, i, k) && k !in DoneSet(s, i)
            && Issued(s, i) == [Fetch(BeatAddr(s.c, s.fb[k], s.fb[k].extCnt), k, s.fb[k].extCnt)]
            && OwedTo(s.c, BufferNext(s, i, k), Issued(s, i)[0])
  {
    var k := ExtPick(s, i, 0);
    SomeExtArb(s, order, i);
    BusyCounters(s, order, bus, i, k);
    OlderNext(s, i, k);
    assert !Alloc(s, i, k) && !Done(s, i, k) && s.fb[k].busy;
    hide BufferNext, BusInv, Age, Alloc, Done, Shape, ExtArb, AnyExtReq;
  }

  /** ... or a speculative one for the buffer allocated in the same cycle. */
  lemma IssuedByLookup(s: Regs, i: Inputs)
    requires Ready(s, i) && Grants(s, i) && !AnyExtReq(s, i)
    ensures var k := LowestFree(s, 0);
            && k < |s.fb| && Alloc(s, i, k)
            && Issued(s, i) == [Fetch(LookupAddr(s, i), k, 0)]
            && OwedTo(s.c, BufferNext(s, i, k), Issued(s, i)[0])
  {
    var k := LowestFree(s, 0);
    AllocIsLowestFree(s, i, k);
    CountersNext(s, i, k);
    OlderNext(s, i, k);
    assert Spec(s, i);
    hide BufferNext, Alloc, Done, Shape, Spec, AnyExtReq;
  }

  /** Everything already on the bus is older than the request issued now. */
  lemma IssuedIsYoungest(s: Regs, order: seq<nat>, bus: seq<Fetch>, i: Inputs, p: nat)
    requires BusInv(s, order, bus) && Ready(s, i) && LegalBus(bus, i) && Issued(s, i) != []
    requires p < |bus| && (i.rvalid ==> p > 0)
    ensures |Issued(s, i)| == 1 && Issued(s, i)[0].owner < |s.fb|
    ensures var y := Issued(s, i)[0];
            IsOlder(BufferNext(s, i, y.owner).older, bus[p], y)
  {
    assert Owed(s, bus[p]) && Grants(s, i);
    BusInvGives(s, order, bus);
    hide *;
    OwedStays(s, order, bus, i, p);
    if AnyExtReq(s, i) {
      IssuedByBuffer(s, order, bus, i);
      ExtArbIsYoungest(s, order, i, ExtPick(s, i, 0), bus[p]);
    } else {
      IssuedByLookup(s, i);
      AllocIsYoungest(s, i, LowestFree(s, 0), bus[p]);
    }
  }

  lemma BusInvGives(s: Regs, order: seq<nat>, bus: seq<Fetch>)
    requires BusInv(s, order, bus)
    ensures Age(s, order) && IssuesInAgeOrder(s)
  {
  }

  /** A buffer allocated now is younger than all that stay. */
  lemma AllocIsYoungest(s: Regs, i: Inputs, k: nat, x: Fetch)
    requires Ready(s, i) && k < |s.fb| && Alloc(s, i, k) && Owed(s, x) && x.owner !in DoneSet(s, i)
    ensures x.owner in BufferNext(s, i, k).older
  {
    OlderNext(s, i, k);
    hide BufferNext, DoneSet, Alloc;
  }

  /** Whatever is owed to a buffer is owed to one older than that which is granted the bus, or to
      that one as an earlier request. */
  lemma ExtArbIsYoungest(s: Regs, order: seq<nat>, i: Inputs, k: nat, x: Fetch)
    requires Ready(s, i) && Age(s, order) && k < |s.fb| && ExtArb(s, i, k) && Owed(s, x) && x.owner !in DoneSet(s, i)
    requires IssuesInAgeOrder(s)
    ensures IsOlder(BufferNext(s, i, k).older, x, Fetch(x.addr, k, s.fb[k].extCnt))
  {
    var j := x.owner;
    assert s.fb[k].busy && ExtReq(s, i, k) && !Alloc(s, i, k);
    OlderNext(s, i, k);
    AgeIsTotalOrder(s, order, j, k);
    assert s.fb[j].extCnt > 0;
    if j != k && k in s.fb[j].older {
      FinishedIsDone(s, i, k);
      assert false;
    }
  }

  lemma SortedStays(s: Regs, order: seq<nat>, bus: seq<Fetch>, i: Inputs, p: nat, q: nat)
    requires BusInv(s, order, bus) && Ready(s, i) && LegalBus(bus, i)
    requires p < q < |bus| && (i.rvalid ==> p > 0)
    ensures bus[q].owner < |s.fb|
    ensures IsOlder(BufferNext(s, i, bus[q].owner).older, bus[p], bus[q])
  {
    OwedStays(s, order, bus, i, p);
    OwedStays(s, order, bus, i, q);
    OlderNext(s, i, bus[q].owner);
    assert Before(s, bus[p], bus[q]);
    assert !Alloc(s, i, bus[q].owner);
  }

  /** What is on the bus and not answered now is still there. */
  lemma StaysOnBus(s: Regs, bus: seq<Fetch>, i: Inputs, p: nat)
    requires Shape(s) && LegalBus(bus, i) && p < |bus| && (i.rvalid ==> p > 0)
    ensures OnBus(BusNext(s, bus, i), bus[p].owner, bus[p].number)
  {
    hide Shape, Issued;
    var rest, d := if i.rvalid then bus[1..] else bus, if i.rvalid then 1 else 0;
    assert BusNext(s, bus, i) == rest + Issued(s, i) && rest[p - d] == bus[p];
    assert BusNext(s, bus, i)[p - d] == bus[p];
  }

  /** A request granted now is put on the bus. */
  lemma IssuedIsOnBus(s: Regs, bus: seq<Fetch>, i: Inputs)
    requires Shape(s) && LegalBus(bus, i) && |Issued(s, i)| == 1
    ensures OnBus(BusNext(s, bus, i), Issued(s, i)[0].owner, Issued(s, i)[0].number)
  {
    hide Shape, Issued;
    var rest := if i.rvalid then bus[1..] else bus;
    assert BusNext(s, bus, i)[|rest|] == Issued(s, i)[0];
  }

  lemma EveryOwedIsOnBus(s: Regs, order: seq<nat>, bus: seq<Fetch>, i: Inputs, k: nat, n: nat)
    requires BusInv(s, order, bus) && Ready(s, i) && LegalBus(bus, i) && k < |s.fb|
    requires var g := BufferNext(s, i, k); g.busy && g.rvdCnt <= n < g.extCnt
    ensures OnBus(BusNext(s, bus, i), k, n)
  {
    OlderNext(s, i, k);
    if !s.fb[k].busy {
      CountersNext(s, i, k);
      AllocIsLowestFree(s, i, k);
      IssuedByLookup(s, i);
      IssuedIsOnBus(s, bus, i);
    } else {
      OwedByBusyIsOnBus(s, order, bus, i, k, n);
    }
  }

  lemma OwedByBusyIsOnBus(s: Regs, order: seq<nat>, bus: seq<Fetch>, i: Inputs, k: nat, n: nat)
    requires BusInv(s, order, bus) && Ready(s, i) && LegalBus(bus, i) && k < |s.fb| && s.fb[k].busy
    requires var g := BufferNext(s, i, k); g.rvdCnt <= n < g.extCnt
    ensures OnBus(BusNext(s, bus, i), k, n)
  {
    BusyCounters(s, order, bus, i, k);
    hide BufferNext, BusNext, Age, IssuesInAgeOrder, Shape;
    if n < s.fb[k].extCnt {
      assert OnBus(bus, k, n);
      var p :| 0 <= p < |bus| && bus[p].owner == k && bus[p].number == n;
      if i.rvalid {
        ResponseReachesOwner(s, order, bus, i, k);
      }
      StaysOnBus(s, bus, i, p);
    } else {
      GrantedIsIssued(s, order, bus, i, k);
      IssuedIsOnBus(s, bus, i);
    }
  }

  /** The request of the buffer granted the bus is the one issued. */
  lemma GrantedIsIssued(s: Regs, order: seq<nat>, bus: seq<Fetch>, i: Inputs, k: nat)
    requires BusInv(s, order, bus) && Ready(s, i) && LegalBus(bus, i) && k < |s.fb| && ExtArb(s, i, k)
        && GntNotPmpErr(i)
    ensures |Issued(s, i)| == 1 && Issued(s, i)[0].owner == k && Issued(s, i)[0].number == s.fb[k].extCnt
  {
    assert ExtReq(s, i, k) && AnyExtReq(s, i);
    hide Shape, Issued, BufferNext, BusInAgeOrder, IssuesInAgeOrder, Age, ExtReq;
    IssuedByBuffer(s, order, bus, i);
    if ExtPick(s, i, 0) != k {
      GrantsAreOneHot(s, order, i, k, ExtPick(s, i, 0));
    }
  }

  lemma IssueOrderStays(s: Regs, order: seq<nat>, bus: seq<Fetch>, i: Inputs, j: nat, k: nat)
    requires BusInv(s, order, bus) && Ready(s, i) && LegalBus(bus, i) && j < |s.fb| && k < |s.fb|
    requires var g := BufferNext(s, i, k); g.busy && j in g.older && (g.extCnt > 0 || g.extHold)
    ensures BufferOk(s.c, BufferNext(s, i, j)) && ExtFinished(s.c, BufferNext(s, i, j))
  {
    OlderNext(s, i, k);
    if !s.fb[k].busy {
      CountersNext(s, i, k);
      assert !ExtReq(s, i, j);
    } else {
      if Alloc(s, i, k) {
        AllocIsFree(s, i, k);
      }
      BusyCounters(s, order, bus, i, k);
      AgeIsTotalOrder(s, order, k, k);
      if s.fb[k].extCnt > 0 || s.fb[k].extHold {
        FinishedIsDone(s, i, j);
      } else {
        assert !ExtReq(s, i, j);
      }
    }
    assert s.fb[j].busy && ExtDone(s, i, j);
    ExtDoneIsStable(s, i, j);
  }

  lemma BuffersStep(s: Regs, i: Inputs)
    requires Ready(s, i)
    ensures var t := Step(s, i);
            |t.fb| == |s.fb| && t.c == s.c && forall k :: 0 <= k < |s.fb| ==> t.fb[k] == BufferNext(s, i, k)
  {
    hide BufferNext;
  }

  /** One response owed after the clock edge. */
  lemma OwedNext(s: Regs, order: seq<nat>, bus: seq<Fetch>, i: Inputs, p: nat)
    requires BusInv(s, order, bus) && Ready(s, i) && LegalBus(bus, i)
    requires p < |BusNext(s, bus, i)|
    ensures var x := BusNext(s, bus, i)[p];
            x.owner < |s.fb| && OwedTo(s.c, BufferNext(s, i, x.owner), x)
  {
    hide Shape, AddrOk, BufferNext, BusInv, OwedTo, Issued, IsOlder;
    var rest, d := if i.rvalid then bus[1..] else bus, if i.rvalid then 1 else 0;
    assert BusNext(s, bus, i) == rest + Issued(s, i);
    hide BusNext;
    if p < |rest| {
      OwedStays(s, order, bus, i, p + d);
    } else {
      IssuedShape(s, order, bus, i);
    }
  }

  /** Two responses owed after the clock edge. */
  lemma SortedNext(s: Regs, order: seq<nat>, bus: seq<Fetch>, i: Inputs, p: nat, q: nat)
    requires BusInv(s, order, bus) && Ready(s, i) && LegalBus(bus, i)
    requires p < q < |BusNext(s, bus, i)|
    ensures var x, y := BusNext(s, bus, i)[p], BusNext(s, bus, i)[q];
            y.owner < |s.fb| && IsOlder(BufferNext(s, i, y.owner).older, x, y)
  {
    hide Shape, AddrOk, BufferNext, BusInv, OwedTo, Issued, IsOlder;
    var rest, d := if i.rvalid then bus[1..] else bus, if i.rvalid then 1 else 0;
    assert BusNext(s, bus, i) == rest + Issued(s, i);
    hide BusNext;
    if q < |rest| {
      SortedStays(s, order, bus, i, p + d, q + d);
    } else {
      IssuedShape(s, order, bus, i);
      IssuedIsYoungest(s, order, bus, i, p + d);
    }
  }

  lemma BusOrderStep(s: Regs, order: seq<nat>, bus: seq<Fetch>, i: Inputs)
    requires BusInv(s, order, bus) && Ready(s, i) && LegalBus(bus, i)
    ensures BusInAgeOrder(Step(s, i), BusNext(s, bus, i))
  {
    hide Step, Shape, AddrOk, BufferNext, BusInv, BusNext, OwedTo, IsOlder, OnBus;
    var t, next := Step(s, i), BusNext(s, bus, i);
    BuffersStep(s, i);
    forall p | 0 <= p < |next| ensures Owed(t, next[p]) {
      OwedNext(s, order, bus, i, p);
    }
    forall p, q | 0 <= p < q < |next| ensures Before(t, next[p], next[q]) {
      SortedNext(s, order, bus, i, p, q);
    }
    forall k, n | 0 <= k < |t.fb| && t.fb[k].busy && t.fb[k].rvdCnt <= n < t.fb[k].extCnt ensures OnBus(next, k, n) {
      EveryOwedIsOnBus(s, order, bus, i, k, n);
    }
  }

  lemma IssuedShape(s: Regs, order: seq<nat>, bus: seq<Fetch>, i: Inputs)
    requires BusInv(s, order, bus) && Ready(s, i) && LegalBus(bus, i)
    ensures Issued(s, i) != [] ==>
              && |Issued(s, i)| == 1 && Issued(s, i)[0].owner < |s.fb|
              && OwedTo(s.c, BufferNext(s, i, Issued(s, i)[0].owner), Issued(s, i)[0])
  {
    hide BufferNext, OwedTo;
    if Grants(s, i) {
      if AnyExtReq(s, i) {
        IssuedByBuffer(s, order, bus, i);
      } else {
        IssuedByLookup(s, i);
      }
    }
  }

  lemma BusInvStep(s: Regs, order: seq<nat>, bus: seq<Fetch>, i: Inputs)
    requires BusInv(s, order, bus) && Ready(s, i) && LegalBus(bus, i)
    ensures BusInv(Step(s, i), OrderNext(s, order, i), BusNext(s, bus, i))
  {
    var t := Step(s, i);
    ShapeStep(s, i);
    AgeStep(s, order, i);
    CountersStep(s, order, bus, i);
    BusOrderStep(s, order, bus, i);
    BuffersStep(s, i);
    hide Step, BufferNext, Ready, BusNext, BusInAgeOrder, Counters, Age, OrderNext, Shape, ExtFinished;
    forall j, k | 0 <= j < |t.fb| && 0 <= k < |t.fb| && t.fb[k].busy && j in t.fb[k].older
                  && (t.fb[k].extCnt > 0 || t.fb[k].extHold)
      ensures BufferOk(t.c, t.fb[j]) && ExtFinished(t.c, t.fb[j])
    {
      IssueOrderStays(s, order, bus, i, j, k);
    }
  }

  /** An ungranted request is repeated at the same address in the next cycle, whatever the core
      does then. */
  lemma RequestIsHeld(s: Regs, order: seq<nat>, bus: seq<Fetch>, i: Inputs, next: Inputs)
    requires BusInv(s, order, bus) && Ready(s, i) && LegalBus(bus, i) && Ready(Step(s, i), next)
    requires InstrReq(s, i) && !GntOrPmpErr(i)
    ensures InstrReq(Step(s, i), next) && InstrAddr(Step(s, i), next) == InstrAddr(s, i)
  {
    var t := Step(s, i);
    var k := HolderOf(s, order, bus, i);
    BusInvStep(s, order, bus, i);
    BuffersStep(s, i);
    hide Step, BusInv, Shape, AddrOk, BufferNext, Alloc, AnyExtReq, InstrAddr;
    HeldWins(t, OrderNext(s, order, i), BusNext(s, bus, i), next, k);
  }

  lemma RequesterIsNotDone(s: Regs, i: Inputs, k: nat)
    requires Shape(s) && k < |s.fb| && ExtReq(s, i, k)
    ensures !Done(s, i, k) && s.fb[k].busy
  {
  }

  /** The buffer left holding an ungranted request. */
  lemma HolderOf(s: Regs, order: seq<nat>, bus: seq<Fetch>, i: Inputs) returns (k: nat)
    requires BusInv(s, order, bus) && Ready(s, i) && LegalBus(bus, i)
    requires InstrReq(s, i) && !GntOrPmpErr(i)
    ensures k < |s.fb|
    ensures var g := BufferNext(s, i, k);
            g.busy && g.extHold && InstrAddr(s, i) == BeatAddr(s.c, g, g.extCnt)
  {
    hide BufferNext, Alloc, Age, Done, Counters, IssuesInAgeOrder, BusInAgeOrder;
    if AnyExtReq(s, i) {
      k := ExtPick(s, i, 0);
      SomeExtArb(s, order, i);
      BusyCounters(s, order, bus, i, k);
      RequesterIsNotDone(s, i, k);
      OlderNext(s, i, k);
    } else {
      k := LowestFree(s, 0);
      AllocIsLowestFree(s, i, k);
      CountersNext(s, i, k);
      OlderNext(s, i, k);
    }
  }

  /** A held request keeps the bus. */
  lemma HeldWins(s: Regs, order: seq<nat>, bus: seq<Fetch>, i: Inputs, k: nat)
    requires BusInv(s, order, bus) && k < |s.fb| && s.fb[k].busy && s.fb[k].extHold
    ensures ExtPick(s, i, 0) == k && AnyExtReq(s, i)
    ensures InstrAddr(s, i) == BeatAddr(s.c, s.fb[k], s.fb[k].extCnt)
  {
    AgeIsTotalOrder(s, order, k, k);
    forall j | 0 <= j < |s.fb| && j in s.fb[k].older ensures !ExtReq(s, i, j) {
      FinishedIsDone(s, i, j);
    }
    assert ExtReq(s, i, k);
    NoExtPick(s, i, 0, k);
    if ExtPick(s, i, 0) != k {
      GrantsAreOneHot(s, order, i, ExtPick(s, i, 0), k);
    }
  }
}
