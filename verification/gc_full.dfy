/** `luaC_fullgc`: it terminates from any phase, and it frees exactly what it should. */
module GcFull {
  import opened GcHeap
  import opened GcMark
  import opened GcAtomic
  import opened GcSweep
  import opened GcCycle
  import opened GcSteps
  import opened GcMutator
  import opened GcAlloc
  import opened GcRun
  import opened GcReach
  import opened GcWithin
  import opened GcExact

  // ---------- the strings that weak tables save ----------

  function TableHits(g: State, t: Ref): set<Ref> {
    if t !in g.heap || !g.heap[t].Table? then {} else
      (if g.heap[t].weakBits.values then ArrHits(g, g.heap[t].arr) else {}) + NodesHits(g, g.heap[t].nodes)
  }

  /** The strings that clearing the weak tables `ts` marks. */
  function WeakHits(g: State, ts: seq<Ref>): set<Ref> {
    if ts == [] then {} else TableHits(g, ts[0]) + WeakHits(g, ts[1..])
  }

  lemma ClearedSame(g: State, r: State, v: Value, iskey: bool)
    requires ClearedFrom(g, r) && g.mark.Keys == g.heap.Keys
    ensures StringHit(r, v) == StringHit(g, v) && Cleared(r, v, iskey) == Cleared(g, v, iskey)
  {
    if v.Coll? && v.r in g.heap && g.heap[v.r].Table? { assert Emptied(g.heap[v.r], r.heap[v.r]); }
  }

  lemma ArrHitsSame(g: State, r: State, vs: seq<Value>)
    requires ClearedFrom(g, r) && g.mark.Keys == g.heap.Keys
    ensures ArrHits(r, vs) == ArrHits(g, vs)
  {
    if vs != [] {
      ClearedSame(g, r, vs[0], false);
      ArrHitsSame(g, r, vs[1..]);
    }
  }

  lemma NodesHitsSame(g: State, r: State, ns: seq<Node>)
    requires ClearedFrom(g, r) && g.mark.Keys == g.heap.Keys
    ensures NodesHits(r, ns) == NodesHits(g, ns)
  {
    if ns != [] {
      ClearedSame(g, r, ns[0].key, true);
      ClearedSame(g, r, ns[0].val, true);
      NodesHitsSame(g, r, ns[1..]);
    }
  }

  lemma {:induction false} WeakHitsSame(g: State, r: State, t: Ref, ts: seq<Ref>)
    requires ClearedFrom(g, r) && g.mark.Keys == g.heap.Keys && t !in ts
    requires forall x | x in g.heap && x != t :: r.heap[x] == g.heap[x]
    ensures WeakHits(r, ts) == WeakHits(g, ts)
    decreases |ts|
  {
    if ts != [] {
      var u := ts[0];
      assert u in ts;
      if u in g.heap && g.heap[u].Table? {
        ArrHitsSame(g, r, g.heap[u].arr);
        NodesHitsSame(g, r, g.heap[u].nodes);
      }
      WeakHitsSame(g, r, t, ts[1..]);
    }
  }

  predicate Distinct(ts: seq<Ref>) { forall i, j | 0 <= i < j < |ts| :: ts[i] != ts[j] }

  lemma ClearTableMarks(g: State, t: Ref)
    requires g.mark.Keys == g.heap.Keys
    ensures MarkedSet(ClearTable(g, t)) == MarkedSet(g) + TableHits(g, t)
  {
    if t in g.heap && g.heap[t].Table? {
      HitsAreStrings(g, g.heap[t].arr);
      NodesHitsAreStrings(g, g.heap[t].nodes);
    }
  }

  lemma {:induction false} ClearTablesMarks(g: State, ts: seq<Ref>)
    requires g.mark.Keys == g.heap.Keys && Distinct(ts)
    ensures MarkedSet(ClearTables(g, ts)) == MarkedSet(g) + WeakHits(g, ts)
    decreases |ts|
  {
    if ts != [] {
      var t := ts[0];
      var r := ClearTable(g, t);
      ClearTableFrom(g, t);
      ClearTableMarks(g, t);
      hide ClearTable, TableHits;
      WeakHitsSame(g, r, t, ts[1..]);
      ClearTablesMarks(r, ts[1..]);
    }
  }

  lemma {:induction false} OnceDistinct(s: seq<Ref>)
    requires forall x :: multiset(s)[x] <= 1
    ensures Distinct(s)
  {
    if s != [] {
      FirstOnce(s);
      assert multiset(s)[s[0]] <= 1;
      assert multiset(s[1..])[s[0]] == 0;
      forall x ensures multiset(s[1..])[x] <= 1 { assert multiset(s)[x] <= 1; }
      OnceDistinct(s[1..]);
      forall i, j | 0 <= i < j < |s| ensures s[i] != s[j] {
        assert s[j] == s[1..][j - 1];
        if i > 0 { assert s[i] == s[1..][i - 1]; }
      }
    }
  }

  lemma WeakDistinct(g: State)
    requires Tri(g, {}, {})
    ensures Distinct(g.weak)
  {
    forall x ensures multiset(g.weak)[x] <= 1 {
      if x in g.heap { assert Sorted(g, x); } else { assert ListCount(g, x) == 0; }
    }
    OnceDistinct(g.weak);
  }

  lemma AliveOf(r: State, x: Ref)
    requires x in r.mark && (IsDead(r, x) <==> !Marked(r, x))
    ensures Alive(r, x) <==> x in MarkedSet(r) || x in r.fixed
  {}

  /** What is dead after `atomic`: all but the strongly reachable objects, the strings that
      weak tables refer to, and the fixed objects. */
  lemma AtomicIsExact(g: State)
    requires Inv(g) && g.phase == Propagate && g.gray == []
    requires MarkedSet(g) <= Kept(g, AtomicMark(g))
    ensures forall x | x in g.heap ::
      Alive(Atomic(g), x) <==>
        x in Kept(g, AtomicMark(g)) || x in WeakHits(AtomicMark(g), AtomicMark(g).weak) || x in g.fixed
    ensures Atomic(g).heap.Keys == g.heap.Keys && Atomic(g).tmudata == AtomicMark(g).tmudata
    ensures Inv(Atomic(g))
  {
    var m := AtomicMark(g);
    assert FixedOk(g) && Propagating(g);
    hide Inv, Tri, NoDangling, Propagating, MarkedUp, WeakHits, Kept, AtomicMark, AliveShut, Atomic, MarkedSet, Alive;
    AtomicIsSafe(g);
    AtomicInv(g);
    MarkingIsExact(g);
    AtomicClears(g, m);
    AtomicFixed(g);
    forall x | x in g.heap
      ensures Alive(Atomic(g), x) <==> x in Kept(g, m) || x in WeakHits(m, m.weak) || x in g.fixed
    {
      AliveOf(Atomic(g), x);
    }
  }

  lemma AtomicClears(g: State, m: State)
    requires Propagating(g) && g.gray == [] && m == AtomicMark(g)
    ensures MarkedSet(ClearTables(m, m.weak)) == MarkedSet(m) + WeakHits(m, m.weak)
  {
    hide Tri, NoDangling, Propagating, MarkedUp, WeakHits, AtomicMark, ClearTables, MarkedSet;
    AtomicStages(g);
    AtomicMarkDef(g);
    MarkedUpTri(g, m);
    WeakDistinct(m);
    assert m.mark.Keys == m.heap.Keys by { KeysAgree(m, {}); }
    ClearTablesMarks(m, m.weak);
  }

  lemma AtomicFixed(g: State)
    requires Propagating(g) && g.gray == []
    ensures Atomic(g).fixed == g.fixed && Atomic(g).tmudata == AtomicMark(g).tmudata
        && Atomic(g).heap.Keys == g.heap.Keys
    ensures MarkedSet(Atomic(g)) == MarkedSet(ClearTables(AtomicMark(g), AtomicMark(g).weak))
    ensures Atomic(g).mark.Keys == g.heap.Keys
  {
    hide Tri, NoDangling, ClearTables, MarkedUp, Clearing, Propagating;
    AtomicStages(g);
    var m := AtomicMark(g);
    ReadyToClear(g, m);
    ClearTablesShut(m, m.weak);
    hide AtomicMark;
    MarkedUpFixed(g, m);
    MarkedUpKeys(g, m);
  }

  lemma MarkedUpFixed(g: State, m: State)
    requires MarkedUp(g, m)
    ensures m.fixed == g.fixed && m.mark.Keys == m.heap.Keys
  {}

  // ---------- `luaC_fullgc` ----------

  /** An unfinished mark phase is abandoned: everything is to be swept. */
  function Reset(g: State): State {
    if g.phase == Pause || g.phase == Propagate
    then g.(sweepstrgc := 0, sweepgc := 0, gray := [], grayagain := [], weak := [], phase := SweepString)
    else g
  }

  function FinishSweep(g: State): State
    requires Inv(g) && (g.phase == SweepString || g.phase == Sweep || g.phase == Finalize)
    decreases Rank(g.phase), Work(g)
  {
    if g.phase == Finalize then g else
      SingleStepInv(g);
      SweepPhases(g);
      FinishSweep(SingleStep(g))
  }

  function FinishCycle(g: State): State
    requires Inv(g)
    decreases Rank(g.phase), Work(g)
  {
    if g.phase == Pause then g else
      SingleStepInv(g);
      FinishCycle(SingleStep(g))
  }

  lemma SweepPhases(g: State)
    requires Inv(g) && (g.phase == SweepString || g.phase == Sweep)
    ensures SingleStep(g).phase == SweepString || SingleStep(g).phase == Sweep || SingleStep(g).phase == Finalize
  {
    if g.phase == SweepString {
      SweepStringInv(g);
    } else {
      SweepStepInv(g);
      GoodIsInv(g);
    }
  }

  lemma ResetInv(g: State)
    requires Inv(g)
    ensures Inv(Reset(g)) && Reset(g).phase != Pause && Reset(g).phase != Propagate
    ensures g.phase == Pause || g.phase == Propagate ==> forall x | x in g.heap :: Alive(Reset(g), x)
  {
    if g.phase == Pause || g.phase == Propagate {
      var r := Reset(g);
      InvParts(g);
      ResetAlive(g);
      hide Owned, UdataLast, FixedOk, AliveShut;
      TailIsLast(g);
      SameHeapShapes(g, r);
      ShapeWellFormed(g, r);
      AllUnswept(r);
    }
  }

  /** Before the first sweep of a cycle nothing is dead. */
  lemma ResetAlive(g: State)
    requires Inv(g) && (g.phase == Pause || g.phase == Propagate)
    ensures AliveShut(Reset(g)) && forall x | x in g.heap :: Alive(Reset(g), x)
  {
    hide Owned, FixedOk, UdataLast, LiveRefs, Tri, NoDangling;
    SameAlive(g, Reset(g));
    forall x | x in g.heap ensures Alive(g, x) {
      if g.phase == Pause && x in g.tmudata { assert x in Elems(g.tmudata); }
    }
  }

  /** `luaC_fullgc` */
  function FullGc(g: State): State
    requires Inv(g)
  {
    ResetInv(g);
    FinishSweepInv(Reset(g));
    PauseInv(FinishSweep(Reset(g)));
    FinishCycle(MarkRoot(FinishSweep(Reset(g))))
  }

  lemma {:induction false} FinishSweepInv(g: State)
    requires Inv(g) && (g.phase == SweepString || g.phase == Sweep || g.phase == Finalize)
    ensures Inv(FinishSweep(g)) && FinishSweep(g).phase == Finalize && Sparing(g, FinishSweep(g))
    ensures FinishSweep(g).tmudata == g.tmudata && FinishSweep(g).fixed == g.fixed
    decreases Rank(g.phase), Work(g)
  {
    hide Inv, Sparing, SingleStep, Work;
    SparingRefl(g);
    if g.phase != Finalize {
      SingleStepInv(g);
      SweepPhases(g);
      SweepStepSparing(g);
      SweepStepFields(g);
      FinishSweepInv(SingleStep(g));
      SparingTrans(g, SingleStep(g), FinishSweep(g));
    }
  }

  lemma {:induction false} FinishCycleInv(g: State)
    requires Inv(g)
    ensures Inv(FinishCycle(g)) && FinishCycle(g).phase == Pause
    decreases Rank(g.phase), Work(g)
  {
    hide Inv, SingleStep, Work;
    if g.phase != Pause {
      SingleStepInv(g);
      FinishCycleInv(SingleStep(g));
    }
  }

  lemma SweepStepFields(g: State)
    requires Inv(g) && (g.phase == SweepString || g.phase == Sweep)
    ensures SingleStep(g).tmudata == g.tmudata && SingleStep(g).fixed == g.fixed
  {
    GoodIsInv(g);
    if g.phase == Sweep {
      hide Inv, SweepGood, SweepList;
      SweepListFields(g, GCSWEEPMAX);
    }
  }

  lemma {:induction false} SweepListFields(g: State, count: nat)
    requires SweepGood(g, {})
    ensures SweepList(g, count).tmudata == g.tmudata && SweepList(g, count).fixed == g.fixed
    decreases count
  {
    hide SweepGood, SweepOne;
    if g.sweepgc < |g.rootgc| && count > 0 {
      SweepOneGood(g);
      SweepOneFields(g);
      SweepListFields(SweepOne(g), count - 1);
    }
  }

  lemma SweepOneFields(g: State)
    requires SweepGood(g, {}) && g.sweepgc < |g.rootgc|
    ensures SweepOne(g).tmudata == g.tmudata && SweepOne(g).fixed == g.fixed
  {
    hide SweepGood, Close, CloseReady, NewUpvals;
    var o := g.rootgc[g.sweepgc];
    AtPointer(g);
    SweepOpenAt(g);
    var h := if g.heap[o].Thread? then SweepOpen(g, o) else g;
    if h.heap[o].Thread? { CloseFields(Unlink(h), o, 0); }
  }

  lemma {:induction false} CloseFields(g: State, t: Ref, level: nat)
    requires CloseReady(g, t)
    ensures Close(g, t, level).tmudata == g.tmudata && Close(g, t, level).fixed == g.fixed
    decreases |g.heap[t].openupval|
  {
    hide CloseOne;
    if g.heap[t].openupval != [] {
      CloseOneReady(g, t);
      FirstIsOpen(g, t);
      CloseOneFrame(g, t);
      DetachFixed(g, t);
      if g.heap[g.heap[t].openupval[0]].home.slot >= level { CloseFields(CloseOne(g, t), t, level); }
    }
  }

  lemma DetachFixed(g: State, t: Ref)
    requires t in g.heap && g.heap[t].Thread? && g.heap[t].openupval != [] && IsOpen(g.heap, g.heap[t].openupval[0])
    ensures Detach(g, t).tmudata == g.tmudata && Detach(g, t).fixed == g.fixed
  {}

  // ---------- a whole cycle without the mutator ----------

  lemma StepIsPropagate(g: State)
    requires Inv(g) && g.phase == Propagate
    ensures g.gray != [] ==> g.gray[0] in g.heap && SingleStep(g) == PropagateMark(g)
    ensures g.gray == [] ==> Propagating(g) && SingleStep(g) == Atomic(g)
    ensures Markable(g)
  {
    hide Tri, NoDangling, PropagateMark, Atomic;
    if g.gray != [] { PropagateTri(g, Pending(g)); }
    TriMarkable(g, Pending(g));
  }

  /** The fields that propagation leaves alone. */
  ghost predicate SameCycle(g: State, p: State) {
    && TidiedHeap(g.heap, p.heap) && p.tmudata == g.tmudata && p.fixed == g.fixed && Roots(p) == Roots(g)
  }

  lemma PropagateSame(g: State)
    requires Inv(g) && g.phase == Propagate && g.gray != []
    ensures g.gray[0] in g.heap && SameCycle(g, PropagateMark(g))
  {
    hide Tri, NoDangling, PropagateMark, Settled, WeakListed;
    PropagateSettles(g, Pending(g));
    SettledKeeps(g, PropagateMark(g));
  }

  lemma SameCycleTrans(a: State, b: State, c: State)
    requires SameCycle(a, b) && SameCycle(b, c)
    ensures SameCycle(a, c)
  {
    TidiedTrans(a.heap, b.heap, c.heap);
  }

  /** The mark phase of a cycle: the gray objects are propagated, and then `atomic` runs. */
  lemma {:induction false} CyclePropagates(g: State)
    requires Inv(g) && g.phase == Propagate
    ensures Markable(g) && Inv(PropagateAll(g)) && PropagateAll(g).phase == Propagate && PropagateAll(g).gray == []
    ensures SameCycle(g, PropagateAll(g)) && Propagating(PropagateAll(g)) && Inv(Atomic(PropagateAll(g)))
    ensures FinishCycle(g) == FinishCycle(Atomic(PropagateAll(g)))
    decreases |Whites(g)| + |g.gray|
  {
    hide Inv, PropagateMark, Settled, Tri, NoDangling, Markable, Propagating, SingleStep, Atomic, FinishCycle,
        SameCycle;
    StepIsPropagate(g);
    CycleStep(g);
    PropagateAllStep(g);
    if g.gray == [] {
      SameCycleRefl(g);
    } else {
      PropagateStepInv(g);
      PropagateSame(g);
      CyclePropagates(PropagateMark(g));
      SameCycleTrans(g, PropagateMark(g), PropagateAll(g));
    }
  }

  lemma CycleStep(g: State)
    requires Inv(g) && g.phase != Pause
    ensures Inv(SingleStep(g)) && FinishCycle(g) == FinishCycle(SingleStep(g))
  {
    hide Inv, SingleStep;
    SingleStepInv(g);
  }

  lemma PropagateAllStep(g: State)
    requires Inv(g) && g.phase == Propagate
    ensures Markable(g) && (g.gray == [] ==> PropagateAll(g) == g)
    ensures g.gray != [] ==>
      g.gray[0] in g.heap && Markable(PropagateMark(g)) && PropagateAll(g) == PropagateAll(PropagateMark(g))
    ensures g.gray != [] ==> |Whites(PropagateMark(g))| + |PropagateMark(g).gray| < |Whites(g)| + |g.gray|
  {
    hide PropagateMark, Settled, Tri, NoDangling;
    StepIsPropagate(g);
    if g.gray != [] {
      PropagateSettles(g, Pending(g));
      TriMarkable(PropagateMark(g), Pending(g));
    }
  }

  lemma SameCycleRefl(g: State)
    ensures SameCycle(g, g)
  {}

  lemma {:induction false} CycleSweeps(g: State)
    requires Inv(g) && (g.phase == SweepString || g.phase == Sweep || g.phase == Finalize)
    ensures Inv(FinishSweep(g)) && FinishCycle(g) == FinishCycle(FinishSweep(g))
    decreases Rank(g.phase), Work(g)
  {
    hide Inv, SingleStep, Work;
    FinishSweepInv(g);
    if g.phase != Finalize {
      SingleStepInv(g);
      SweepPhases(g);
      CycleSweeps(SingleStep(g));
    }
  }

  lemma {:induction false} CycleFinalizes(g: State)
    requires Inv(g) && g.phase == Finalize
    ensures FinishCycle(g).heap.Keys == g.heap.Keys && FinishCycle(g).tmudata == []
    decreases Work(g)
  {
    FinalizeInv(g);
    FinalizeKeys(g);
    hide Inv, StepFinalize;
    if SingleStep(g).phase != Pause {
      CycleFinalizes(SingleStep(g));
    } else {
      assert g.tmudata == [] && SingleStep(g).tmudata == [] by { FinalizeEnds(g); }
    }
  }

  lemma FinalizeEnds(g: State)
    requires g.phase == Finalize && StepFinalize(g).phase == Pause
    ensures g.tmudata == [] && StepFinalize(g).tmudata == []
  {}

  lemma RestAlive(g: State)
    requires Inv(g) && g.phase == Finalize
    ensures forall x | x in g.heap :: Alive(g, x)
  {
    forall x | x in g.heap ensures Alive(g, x) {
      if x in g.tmudata { assert x in Elems(g.tmudata); }
    }
  }

  /** After the sweep exactly the objects that were alive are left. */
  lemma SweepFreesTheDead(g: State)
    requires Inv(g) && (g.phase == SweepString || g.phase == Sweep || g.phase == Finalize)
    ensures forall x :: x in FinishSweep(g).heap <==> x in g.heap && Alive(g, x)
  {
    hide Inv;
    FinishSweepInv(g);
    RestAlive(FinishSweep(g));
  }

  /** The state from which `luaC_fullgc` starts its own cycle. */
  function Swept(g: State): State
    requires Inv(g)
  {
    ResetInv(g);
    FinishSweep(Reset(g))
  }

  /** The state in which it has propagated all gray objects. */
  ghost function AllGrayDone(g: State): State
    requires Inv(g)
  {
    SweptInv(g);
    CyclePropagates(MarkRoot(Swept(g)));
    PropagateAll(MarkRoot(Swept(g)))
  }

  lemma SweptInv(g: State)
    requires Inv(g)
    ensures Inv(Swept(g)) && Swept(g).phase == Finalize
    ensures Inv(MarkRoot(Swept(g))) && MarkRoot(Swept(g)).phase == Propagate
    ensures FullGc(g) == FinishCycle(MarkRoot(Swept(g)))
  {
    hide Inv, MarkRoot;
    ResetInv(g);
    FinishSweepInv(Reset(g));
    PauseInv(Swept(g));
  }

  /** Abandoning an unfinished mark frees nothing; otherwise the pending sweep is finished. */
  lemma SweptHeap(g: State)
    requires Inv(g)
    ensures g.phase == Pause || g.phase == Propagate ==> Swept(g).heap.Keys == g.heap.Keys
    ensures g.phase != Pause && g.phase != Propagate ==> forall x :: x in Swept(g).heap <==> x in g.heap && Alive(g, x)
  {
    hide Inv;
    ResetInv(g);
    SweepFreesTheDead(Reset(g));
    assert Reset(g).heap == g.heap;
  }

  /** The marks of the last cycle that are left are those of userdata waiting for finalizers. */
  lemma LeftMarks(g: State)
    requires Inv(g) && g.phase == Finalize
    ensures MarkedSet(g) <= Elems(g.tmudata) && RootsExist(g) && NoDangling(g)
    ensures g.mainthread in g.heap && g.heap[g.mainthread].Thread?
    ensures forall u | u in g.tmudata :: u in g.heap && g.heap[u].Udata?
  {
    RestAlive(g);
    FixedNotTmu(g);
    RestNoDead(g);
    hide Owned, LiveRefs;
    AllAliveNoDangling(g);
    TailIsLast(g);
  }

  lemma MarkRootSameCycle(g: State)
    requires Inv(g) && g.phase == Finalize
    ensures SameCycle(g, MarkRoot(g))
  {
    hide Inv, MarkObject, MarkValue, MarkMt;
    assert TidiedHeap(g.heap, g.heap);
    MarkRootFrom(g);
  }

  lemma MarkRootFrom(g: State)
    ensures MarkRoot(g) == g.(mark := MarkRoot(g).mark, gray := MarkRoot(g).gray, grayagain := MarkRoot(g).grayagain,
                               weak := MarkRoot(g).weak, phase := MarkRoot(g).phase)
  {
    hide MarkObject, MarkValue, MarkMt;
  }

  lemma MarkCycleIn(f: State, S: set<Ref>, T: set<Ref>)
    requires Inv(f) && f.phase == Finalize && Shut(f.heap, S, T) && Inside(f, S, T) && Roots(f) <= S
    ensures Inv(MarkRoot(f)) && MarkRoot(f).phase == Propagate && Markable(MarkRoot(f))
    ensures Inside(PropagateAll(MarkRoot(f)), S, T) && SameCycle(f, PropagateAll(MarkRoot(f)))
    ensures Shut(PropagateAll(MarkRoot(f)).heap, S, T)
  {
    LeftMarks(f);
    hide Inv, Inside, Shut, MarkRoot, PropagateAll, Markable, NoDangling, Elems, Roots;
    PauseInv(f);
    MarkRootIn(f, S, T);
    MarkRootSameCycle(f);
    CyclePropagates(MarkRoot(f));
    PropagateAllIn(MarkRoot(f), S, T);
    SameCycleTrans(f, MarkRoot(f), PropagateAll(MarkRoot(f)));
    ShutTidied(f.heap, PropagateAll(MarkRoot(f)).heap, S, T);
  }

  lemma TmuGrows(g: State)
    requires Propagating(g) && g.gray == []
    ensures Elems(g.tmudata) <= Elems(AtomicMark(g).tmudata)
    ensures |g.tmudata| <= |AtomicMark(g).tmudata| && AtomicMark(g).tmudata[..|g.tmudata|] == g.tmudata
  {
    hide Tri, NoDangling, Propagating, MarkedUp, SeparateFrom, Atomic1, Atomic2, Atomic3, Atomic4;
    AtomicStages(g);
    var t := AtomicMark(g).tmudata;
    assert t[..|g.tmudata|] == g.tmudata;
    forall u | u in Elems(g.tmudata) ensures u in Elems(t) {
      var j :| 0 <= j < |g.tmudata| && g.tmudata[j] == u;
      assert t[..|g.tmudata|][j] == t[j];
    }
  }

  lemma MarksAreKept(g: State)
    requires Inv(g)
    ensures Inv(AllGrayDone(g)) && AllGrayDone(g).phase == Propagate && AllGrayDone(g).gray == []
    ensures Propagating(AllGrayDone(g))
    ensures SameCycle(Swept(g), AllGrayDone(g))
    ensures MarkedSet(AllGrayDone(g)) <= Kept(AllGrayDone(g), AtomicMark(AllGrayDone(g)))
    ensures Kept(AllGrayDone(g), AtomicMark(AllGrayDone(g)))
         == Closure(Swept(g).heap, Roots(Swept(g)) + Elems(AtomicMark(AllGrayDone(g)).tmudata), {})
  {
    hide Inv, Inside, Shut, MarkRoot, PropagateAll, Markable, NoDangling, Elems, Roots, Closure, Swept, FinishCycle,
        Atomic, AtomicMark, Propagating, MarkedSet;
    var f := Swept(g);
    SweptInv(g);
    CyclePropagates(MarkRoot(f));
    var p := AllGrayDone(g);
    var m := AtomicMark(p);
    MarkRootSameCycle(f);
    SameCycleTrans(f, MarkRoot(f), p);
    TmuGrows(p);
    LeftMarks(f);
    var R := Roots(f) + Elems(m.tmudata);
    var S := Closure(f.heap, R, {});
    NoDanglingStrong(f);
    ClosureShut(f.heap, R, {});
    RootsInHeap(f);
    InTmu(f, m, R, S);
    InsideSet(f, S);
    MarkCycleIn(f, S, {});
    InsideSet(p, S);
    ClosureTidied(f.heap, p.heap, R, {});
  }

  lemma InTmu(f: State, m: State, R: set<Ref>, S: set<Ref>)
    requires MarkedSet(f) <= Elems(f.tmudata) && Elems(f.tmudata) <= Elems(m.tmudata)
    requires R == Roots(f) + Elems(m.tmudata) && R * f.heap.Keys <= S && Roots(f) <= f.heap.Keys
    requires forall u | u in f.tmudata :: u in f.heap && f.heap[u].Udata?
    ensures MarkedSet(f) <= S && Roots(f) <= S
  {}

  /** `luaC_fullgc`, called in any phase, returns at rest, with no finalizer pending, and what it
      leaves are exactly the strongly reachable objects, those that finalizers will see, the
      strings in weak tables, and the fixed objects. */
  lemma FullGcLeaves(g: State, x: Ref)
    requires Inv(g)
    ensures Inv(FullGc(g)) && FullGc(g).phase == Pause && FullGc(g).tmudata == []
    ensures Propagating(AllGrayDone(g)) && AllGrayDone(g).gray == []
    ensures x in FullGc(g).heap <==>
      x in Swept(g).heap &&
      (|| x in Closure(Swept(g).heap, Roots(Swept(g)) + Elems(AtomicMark(AllGrayDone(g)).tmudata), {})
       || x in WeakHits(AtomicMark(AllGrayDone(g)), AtomicMark(AllGrayDone(g)).weak)
       || x in g.fixed)
  {
    hide Inv, Closure, Elems, WeakHits, Propagating, Roots, AtomicMark, MarkRoot, PropagateAll, Atomic, FinishSweep,
        Alive, AllGrayDone, Swept;
    var f := Swept(g);
    SweptInv(g);
    CyclePropagates(MarkRoot(f));
    var p := AllGrayDone(g);
    assert p == PropagateAll(MarkRoot(f)) by { GrayDoneDef(g); }
    MarksAreKept(g);
    AtomicIsExact(p);
    var a := Atomic(p);
    assert a.phase == SweepString by { AtomicInv(p); }
    CycleSweeps(a);
    SweepFreesTheDead(a);
    FinishSweepInv(a);
    CycleFinalizes(FinishSweep(a));
    FinishCycleInv(MarkRoot(f));
    assert f.fixed == g.fixed by { SweptFixed(g); }
  }

  lemma GrayDoneDef(g: State)
    requires Inv(g)
    ensures Inv(Swept(g)) && Inv(MarkRoot(Swept(g))) && Markable(MarkRoot(Swept(g)))
    ensures AllGrayDone(g) == PropagateAll(MarkRoot(Swept(g)))
  {
    hide Inv, MarkRoot, PropagateAll, Markable;
    SweptInv(g);
    CyclePropagates(MarkRoot(Swept(g)));
  }

  lemma SweptFixed(g: State)
    requires Inv(g)
    ensures Swept(g).fixed == g.fixed
  {
    hide Inv;
    ResetInv(g);
    FinishSweepInv(Reset(g));
  }
}
