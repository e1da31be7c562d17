/** The sweep leaves the slots of the objects that it does not free as they are. */
module GcKeep {
  import opened GcHeap
  import opened GcMark
  import opened GcAtomic
  import opened GcSweep
  import opened GcCycle
  import opened GcSteps
  import opened GcRun
  import opened GcReach
  import opened GcWithin
  import opened GcExact
  import opened GcFull

  /** A thread may lose open upvalues, an upvalue may be closed; everything else stays. */
  ghost predicate BodyKept(h: map<Ref, Body>, k: map<Ref, Body>, x: Ref)
    requires x in h && x in k
  {
    match h[x]
    case Thread(gt, stack, _) => k[x].Thread? && k[x].gt == gt && k[x].stack == stack
    case UpVal(home) => k[x].UpVal? && UpvalValue(k, k[x].home) == UpvalValue(h, home)
    case _ => k[x] == h[x]
  }

  ghost predicate SlotsKept(h: map<Ref, Body>, k: map<Ref, Body>) {
    k.Keys <= h.Keys && forall x | x in k :: BodyKept(h, k, x)
  }

  lemma KeptRefl(h: map<Ref, Body>)
    ensures SlotsKept(h, h)
  {}

  lemma KeptTrans(a: map<Ref, Body>, b: map<Ref, Body>, c: map<Ref, Body>)
    requires SlotsKept(a, b) && SlotsKept(b, c)
    ensures SlotsKept(a, c)
  {
    forall x | x in c ensures BodyKept(a, c, x) { assert BodyKept(a, b, x) && BodyKept(b, c, x); }
  }

  /** Objects go; none of them is a thread that an open upvalue points to. */
  lemma FewerKept(h: map<Ref, Body>, k: map<Ref, Body>)
    requires k.Keys <= h.Keys && forall x | x in k :: k[x] == h[x]
    requires forall u | IsOpen(h, u) && u in k && h[u].home.thread in h && h[h[u].home.thread].Thread? ::
        h[u].home.thread in k
    ensures SlotsKept(h, k)
  {
    forall x | x in k ensures BodyKept(h, k, x) {}
  }

  lemma BucketKept(g: State, i: nat)
    requires Owned(g, {}) && i < |g.strt|
    ensures SlotsKept(g.heap, SweepBucket(g, i).heap)
  {
    BucketObjects(g, i);
    FewerKept(g.heap, SweepBucket(g, i).heap);
  }

  /** A thread has another list of open upvalues, and open upvalues have gone. */
  ghost predicate Relisted(h: map<Ref, Body>, k: map<Ref, Body>, t: Ref) {
    && t in h && h[t].Thread? && t in k && k[t].Thread? && k[t] == h[t].(openupval := k[t].openupval)
    && k.Keys <= h.Keys && (forall x | x in h && x !in k :: h[x].UpVal?)
    && (forall x | x in k && x != t :: k[x] == h[x])
  }

  lemma RelistedKept(h: map<Ref, Body>, k: map<Ref, Body>, t: Ref)
    requires Relisted(h, k, t)
    ensures SlotsKept(h, k)
  {
    forall x | x in k ensures BodyKept(h, k, x) {}
  }

  lemma OpenSweptKept(g: State, t: Ref)
    requires CloseReady(g, t)
    ensures t !in g.heap[t].openupval && SlotsKept(g.heap, SweepOpen(g, t).heap)
  {
    SweepOpenDoes(g, t);
    var d := DeadOf(g, g.heap[t].openupval);
    assert forall u | u in d :: u in g.heap[t].openupval && IsOpen(g.heap, u);
    hide SweepOpen, Without, SlotsKept;
    RelistedKept(g.heap, SweepOpen(g, t).heap, t);
  }

  /** Closing an upvalue keeps its value. */
  lemma ClosedKept(h: map<Ref, Body>, u: Ref)
    requires IsOpen(h, u)
    ensures SlotsKept(h, h[u := UpVal(Closed(UpvalValue(h, h[u].home)))])
  {
    var k := h[u := UpVal(Closed(UpvalValue(h, h[u].home)))];
    forall x | x in k ensures BodyKept(h, k, x) {}
  }

  lemma DetachKept(g: State, t: Ref)
    requires CloseReady(g, t) && g.heap[t].openupval != [] && IsOpen(g.heap, g.heap[t].openupval[0])
    ensures SlotsKept(g.heap, Detach(g, t).heap)
  {
    hide SlotsKept, Without, BodyKept;
    var u := g.heap[t].openupval[0];
    var th := g.heap[t].(openupval := g.heap[t].openupval[1..]);
    var h := g.heap[t := th];
    if IsDead(g, u) {
      RelistedKept(g.heap, h - {u}, t);
    } else {
      RelistedKept(g.heap, h, t);
      assert UpvalValue(h, h[u].home) == UpvalValue(g.heap, g.heap[u].home);
      ClosedKept(h, u);
      KeptTrans(g.heap, h, Detach(g, t).heap);
    }
  }

  lemma {:induction false} CloseKept(g: State, t: Ref, level: nat)
    requires CloseReady(g, t)
    ensures SlotsKept(g.heap, Close(g, t, level).heap)
    decreases |g.heap[t].openupval|
  {
    hide CloseOne, SlotsKept, Detach;
    KeptRefl(g.heap);
    if g.heap[t].openupval != [] {
      CloseOneReady(g, t);
      FirstIsOpen(g, t);
      DetachKept(g, t);
      CloseOneFrame(g, t);
      if g.heap[g.heap[t].openupval[0]].home.slot >= level {
        CloseKept(CloseOne(g, t), t, level);
        KeptTrans(g.heap, CloseOne(g, t).heap, Close(g, t, level).heap);
      }
    }
  }

  /** A thread without open upvalues goes. */
  lemma RemoveKept(g: State, X: set<Ref>, o: Ref)
    requires Owned(g, X) && o in g.heap && (g.heap[o].Thread? ==> g.heap[o].openupval == [])
    ensures SlotsKept(g.heap, g.heap - {o})
  {
    forall u | IsOpen(g.heap, u) && g.heap[u].home.thread == o ensures !g.heap[o].Thread? { assert UpvalOwned(g, u); }
    FewerKept(g.heap, g.heap - {o});
  }

  lemma GoodOwned(g: State, X: set<Ref>)
    requires SweepGood(g, X)
    ensures Owned(g, X)
  {}

  lemma SweepOneKept(g: State)
    requires SweepGood(g, {}) && g.sweepgc < |g.rootgc|
    ensures SlotsKept(g.heap, SweepOne(g).heap)
  {
    hide SweepGood, CloseReady, NewUpvals, SweepOpen, Close, SlotsKept, Owned;
    var o := g.rootgc[g.sweepgc];
    AtPointer(g);
    SweepOpenAt(g);
    var h := if g.heap[o].Thread? then SweepOpen(g, o) else g;
    KeptRefl(g.heap);
    if g.heap[o].Thread? { OpenSweptKept(g, o); }
    if !Alive(h, o) {
      assert o != h.mainthread by { MainAlive(h); }
      NewUpvalsDef(h, o);
      UnlinkGood(h, o);
      var k := Unlink(h);
      assert NewUpvals(k, o) by { NewUpvalsFrame(h, k, o); }
      FreeKept(k, o);
      KeptTrans(g.heap, k.heap, SweepOne(g).heap);
    }
  }

  lemma FreeKept(k: State, o: Ref)
    requires SweepGood(k, {o}) && o in k.heap && (k.heap[o].Thread? ==> CloseReady(k, o)) && NewUpvals(k, o)
    requires multiset(k.rootgc)[o] == 0 && o != k.mainthread
    ensures SlotsKept(k.heap, FreeObj(k, o).heap)
  {
    hide SweepGood, CloseReady, NewUpvals, Close, SlotsKept, Owned;
    GoodOwned(k, {o});
    if k.heap[o].Thread? {
      CloseAllGood(k, o);
      CloseKept(k, o, 0);
      var c := Close(k, o, 0);
      CloseReadyThread(c, o);
      GoodOwned(c, {o});
      RemoveKept(c, {o}, o);
      KeptTrans(k.heap, c.heap, c.heap - {o});
    } else {
      RemoveKept(k, {o}, o);
    }
  }

  lemma {:induction false} SweepListKept(g: State, count: nat)
    requires SweepGood(g, {})
    ensures SlotsKept(g.heap, SweepList(g, count).heap)
    decreases count
  {
    hide SweepGood, SweepOne, SweepMeasure, SlotsKept;
    KeptRefl(g.heap);
    if g.sweepgc < |g.rootgc| && count > 0 {
      SweepOneGood(g);
      SweepOneKept(g);
      SweepListKept(SweepOne(g), count - 1);
      KeptTrans(g.heap, SweepOne(g).heap, SweepList(g, count).heap);
    }
  }

  lemma InvOwned(g: State)
    requires Inv(g)
    ensures Owned(g, {}) && (g.phase == SweepString ==> g.sweepstrgc < |g.strt|)
  {}

  lemma SweepStepKept(g: State)
    requires Inv(g) && (g.phase == SweepString || g.phase == Sweep)
    ensures SlotsKept(g.heap, SingleStep(g).heap)
  {
    hide SlotsKept, SweepBucket, SweepList, SweepGood, Owned;
    GoodIsInv(g);
    if g.phase == SweepString {
      InvOwned(g);
      BucketKept(g, g.sweepstrgc);
    } else {
      hide Inv;
      SweepListKept(g, GCSWEEPMAX);
    }
  }

  // ---------- marks and roots through the sweep ----------

  /** The sweep leaves the roots, and the marks of the userdata that wait for their finalizers. */
  ghost predicate RestKept(g: State, r: State) {
    && r.mainthread == g.mainthread && r.running == g.running && r.registry == g.registry && r.mt == g.mt
    && r.tmudata == g.tmudata && r.fixed == g.fixed
    && forall u | u in g.tmudata :: u in g.mark && u in r.mark && r.mark[u] == g.mark[u]
  }

  lemma RestTrans(a: State, b: State, c: State)
    requires RestKept(a, b) && RestKept(b, c)
    ensures RestKept(a, c)
  {}

  lemma RestRefl(g: State)
    requires forall u | u in g.tmudata :: u in g.mark
    ensures RestKept(g, g)
  {}

  lemma BucketRest(g: State, i: nat)
    requires Owned(g, {}) && i < |g.strt| && g.mark.Keys == g.heap.Keys
    requires forall u | u in g.tmudata :: u in g.heap && g.heap[u].Udata?
    ensures RestKept(g, SweepBucket(g, i))
  {
    BucketObjects(g, i);
  }

  lemma OpenRest(g: State, t: Ref)
    requires CloseReady(g, t) && forall u | u in g.tmudata :: u in g.heap && g.heap[u].Udata?
    ensures t !in g.heap[t].openupval && RestKept(g, SweepOpen(g, t))
  {
    assert t in g.heap[t].openupval ==> IsOpen(g.heap, t);
    forall u | u in g.heap[t].openupval ensures u !in g.tmudata { assert IsOpen(g.heap, u); }
    hide Without;
  }

  lemma WhitenRest(g: State, o: Ref)
    requires o !in g.tmudata && forall u | u in g.tmudata :: u in g.mark
    ensures RestKept(g, MakeWhite(g, o).(sweepgc := g.sweepgc + 1))
  {}

  lemma DetachRest(g: State, t: Ref)
    requires CloseReady(g, t) && g.heap[t].openupval != [] && IsOpen(g.heap, g.heap[t].openupval[0])
    requires IsNew(g, g.heap[t].openupval[0])
    requires forall u | u in g.tmudata :: u in g.heap && g.heap[u].Udata?
    ensures RestKept(g, CloseOne(g, t))
  {}

  lemma GoodTmu(g: State, X: set<Ref>)
    requires SweepGood(g, X)
    ensures g.mark.Keys == g.heap.Keys && forall u | u in g.tmudata :: u in g.heap && g.heap[u].Udata?
  {}

  lemma FirstIsNew(g: State, t: Ref)
    requires CloseReady(g, t) && g.heap[t].openupval != [] && NewUpvals(g, t)
    ensures IsOpen(g.heap, g.heap[t].openupval[0]) && IsNew(g, g.heap[t].openupval[0])
  {
    FirstIsOpen(g, t);
  }

  lemma {:induction false} CloseRest(g: State, t: Ref)
    requires SweepGood(g, {t}) && CloseReady(g, t) && NewUpvals(g, t)
    requires multiset(g.rootgc)[t] == 0 && t != g.mainthread
    ensures RestKept(g, Close(g, t, 0))
    decreases |g.heap[t].openupval|
  {
    hide SweepGood, NewUpvals, CloseOne, RestKept, CloseReady;
    CloseReadyThread(g, t);
    GoodTmu(g, {t});
    RestRefl(g);
    if g.heap[t].openupval != [] {
      CloseOneGood(g, t);
      CloseOneReady(g, t);
      FirstIsNew(g, t);
      DetachRest(g, t);
      CloseRest(CloseOne(g, t), t);
      RestTrans(g, CloseOne(g, t), Close(g, t, 0));
    }
  }

  lemma RemoveRest(g: State, o: Ref)
    requires multiset(g.tmudata)[o] == 0 && forall u | u in g.tmudata :: u in g.mark
    ensures RestKept(g, g.(heap := g.heap - {o}, mark := g.mark - {o}))
  {}

  lemma FreeRest(k: State, o: Ref)
    requires SweepGood(k, {o}) && o in k.heap && (k.heap[o].Thread? ==> CloseReady(k, o)) && NewUpvals(k, o)
    requires multiset(k.rootgc)[o] == 0 && o != k.mainthread && multiset(k.tmudata)[o] == 0
    ensures RestKept(k, FreeObj(k, o))
  {
    hide SweepGood, CloseReady, NewUpvals, Close, RestKept;
    GoodTmu(k, {o});
    if k.heap[o].Thread? {
      CloseAllGood(k, o);
      CloseRest(k, o);
      GoodTmu(Close(k, o, 0), {o});
      RemoveRest(Close(k, o, 0), o);
      RestTrans(k, Close(k, o, 0), FreeObj(k, o));
    } else {
      RemoveRest(k, o);
    }
  }

  lemma UnlinkRest(g: State)
    requires g.sweepgc < |g.rootgc| && forall u | u in g.tmudata :: u in g.mark
    ensures RestKept(g, Unlink(g))
  {}

  lemma SweepOneRest(g: State)
    requires SweepGood(g, {}) && g.sweepgc < |g.rootgc|
    ensures RestKept(g, SweepOne(g))
  {
    hide SweepGood, CloseReady, NewUpvals, SweepOpen, Close, RestKept;
    var o := g.rootgc[g.sweepgc];
    AtPointer(g);
    SweepOpenAt(g);
    GoodTmu(g, {});
    var h := if g.heap[o].Thread? then SweepOpen(g, o) else g;
    RestRefl(g);
    if g.heap[o].Thread? { OpenRest(g, o); }
    GoodTmu(h, {});
    if Alive(h, o) {
      NotTmu(h);
      WhitenRest(h, o);
      RestTrans(g, h, SweepOne(g));
    } else {
      assert o != h.mainthread by { MainAlive(h); }
      NewUpvalsDef(h, o);
      UnlinkGood(h, o);
      UnlinkRest(h);
      var k := Unlink(h);
      assert NewUpvals(k, o) by { NewUpvalsFrame(h, k, o); }
      FreeRest(k, o);
      RestTrans(g, h, k);
      RestTrans(g, k, SweepOne(g));
    }
  }

  lemma NotTmu(g: State)
    requires SweepGood(g, {}) && g.sweepgc < |g.rootgc|
    ensures g.rootgc[g.sweepgc] !in g.tmudata
  {
    assert RootOwned(g, g.rootgc[g.sweepgc]);
  }

  lemma {:induction false} SweepListRest(g: State, count: nat)
    requires SweepGood(g, {})
    ensures RestKept(g, SweepList(g, count))
    decreases count
  {
    hide SweepGood, SweepOne, SweepMeasure, RestKept;
    GoodTmu(g, {});
    RestRefl(g);
    if g.sweepgc < |g.rootgc| && count > 0 {
      SweepOneGood(g);
      SweepOneRest(g);
      SweepListRest(SweepOne(g), count - 1);
      RestTrans(g, SweepOne(g), SweepList(g, count));
    }
  }

  lemma InvTmu(g: State)
    requires Inv(g)
    ensures g.mark.Keys == g.heap.Keys && forall u | u in g.tmudata :: u in g.heap && g.heap[u].Udata?
  {}

  lemma PhaseRest(g: State, h: State, r: State)
    requires RestKept(g, h) && r.mark == h.mark && r.tmudata == h.tmudata && r.fixed == h.fixed
    requires r.mainthread == h.mainthread && r.running == h.running && r.registry == h.registry && r.mt == h.mt
    ensures RestKept(g, r)
  {}

  lemma SweepStepRest(g: State)
    requires Inv(g) && (g.phase == SweepString || g.phase == Sweep)
    ensures RestKept(g, SingleStep(g))
  {
    hide RestKept, SweepBucket, SweepList, SweepGood, Owned;
    GoodIsInv(g);
    InvTmu(g);
    if g.phase == SweepString {
      InvOwned(g);
      BucketRest(g, g.sweepstrgc);
      PhaseRest(g, SweepBucket(g, g.sweepstrgc), SingleStep(g));
    } else {
      hide Inv;
      SweepListRest(g, GCSWEEPMAX);
      PhaseRest(g, SweepList(g, GCSWEEPMAX), SingleStep(g));
    }
  }

  // ---------- a whole sweep ----------

  lemma {:induction false} FinishSweepKeeps(g: State)
    requires Inv(g) && (g.phase == SweepString || g.phase == Sweep || g.phase == Finalize)
    ensures SlotsKept(g.heap, FinishSweep(g).heap) && RestKept(g, FinishSweep(g))
    decreases Rank(g.phase), Work(g)
  {
    hide Inv, SlotsKept, RestKept, SingleStep, Work;
    InvTmu(g);
    KeptRefl(g.heap);
    RestRefl(g);
    if g.phase != Finalize {
      SingleStepInv(g);
      SweepPhases(g);
      SweepStepKept(g);
      SweepStepRest(g);
      FinishSweepKeeps(SingleStep(g));
      KeptTrans(g.heap, SingleStep(g).heap, FinishSweep(g).heap);
      RestTrans(g, SingleStep(g), FinishSweep(g));
    }
  }

  /** The sweep that a full collection begins with leaves the slots of what is alive. */
  lemma SweptKeeps(g: State)
    requires Inv(g)
    ensures SlotsKept(g.heap, Swept(g).heap) && RestKept(g, Swept(g))
    ensures forall x :: x in Swept(g).heap <==> x in g.heap && Alive(g, x)
  {
    hide Inv, SlotsKept;
    ResetInv(g);
    InvTmu(g);
    FinishSweepKeeps(Reset(g));
    SweptHeap(g);
    if g.phase == Pause || g.phase == Propagate { RestingAlive(g); }
  }

  /** Between two sweeps nothing is dead. */
  lemma RestingAlive(g: State)
    requires Inv(g) && (g.phase == Pause || g.phase == Propagate)
    ensures forall x | x in g.heap :: Alive(g, x)
  {
    hide Inv;
    ResetInv(g);
    forall x | x in g.heap ensures Alive(g, x) { assert Alive(Reset(g), x); }
  }

  /** Strong slots do not depend on what the sweep changes. */
  lemma KeptRefs(h: map<Ref, Body>, k: map<Ref, Body>, x: Ref)
    requires SlotsKept(h, k) && x in k && LiveRefs(k, k[x]) <= k.Keys
    ensures StrongRefs(k, k[x]) == StrongRefs(h, h[x]) && LiveRefs(k, k[x]) == LiveRefs(h, h[x])
    ensures k[x].Table? ==> h[x] == k[x] && Mode(k, k[x].mt) == Mode(h, h[x].mt)
    ensures HasGc(k, k[x]) == HasGc(h, h[x])
  {
    assert BodyKept(h, k, x);
    if k[x].Table? && k[x].mt.Some? { assert BodyKept(h, k, k[x].mt.value); }
    if k[x].Udata? && k[x].mt.Some? { assert BodyKept(h, k, k[x].mt.value); }
  }

  lemma {:induction false} PathSwept(h: map<Ref, Body>, k: map<Ref, Body>, R: set<Ref>, T: set<Ref>, p: seq<Ref>)
    requires SlotsKept(h, k) && R <= k.Keys && (forall x | x in k :: LiveRefs(k, k[x]) <= k.Keys)
    requires StrongPath(h, R, T, p)
    ensures StrongPath(k, R, T, p) && p[|p| - 1] in k
    decreases |p|
  {
    hide SlotsKept, LiveRefs, StrongRefs;
    if |p| > 1 {
      var q := p[..|p| - 1];
      assert q[|q| - 1] == p[|p| - 2];
      PathSwept(h, k, R, T, q);
      assert p[|p| - 2] in h && p[|p| - 2] !in T && p[|p| - 1] in StrongRefs(h, h[p[|p| - 2]]);
      KeptRefs(h, k, p[|p| - 2]);
      StrongIsLive(k, k[p[|p| - 2]]);
      forall i | 0 <= i < |p| - 1 ensures p[i] in k && p[i] !in T && p[i + 1] in StrongRefs(k, k[p[i]]) {
        if i < |p| - 2 { assert q[i] == p[i] && q[i + 1] == p[i + 1]; }
      }
    }
  }

  lemma PathUnswept(h: map<Ref, Body>, k: map<Ref, Body>, R: set<Ref>, T: set<Ref>, p: seq<Ref>)
    requires SlotsKept(h, k) && (forall x | x in k :: LiveRefs(k, k[x]) <= k.Keys) && StrongPath(k, R, T, p)
    ensures StrongPath(h, R, T, p)
  {
    hide LiveRefs, StrongRefs, BodyKept;
    forall i | 0 <= i < |p| - 1 ensures p[i] in h && p[i] !in T && p[i + 1] in StrongRefs(h, h[p[i]]) {
      KeptRefs(h, k, p[i]);
    }
  }

  /** Nothing that is strongly reachable goes, and strong reachability stays as it is. */
  lemma ClosureSwept(h: map<Ref, Body>, k: map<Ref, Body>, R: set<Ref>, T: set<Ref>)
    requires SlotsKept(h, k) && R <= k.Keys && (forall x | x in k :: LiveRefs(k, k[x]) <= k.Keys)
    ensures Closure(k, R, T) == Closure(h, R, T)
  {
    hide LiveRefs, StrongRefs, BodyKept;
    forall x ensures x in k && StrongReach(k, R, T, x) <==> x in h && StrongReach(h, R, T, x) {
      if x in h && StrongReach(h, R, T, x) {
        var p :| StrongPath(h, R, T, p) && p[|p| - 1] == x;
        PathSwept(h, k, R, T, p);
      }
      if x in k && StrongReach(k, R, T, x) {
        var p :| StrongPath(k, R, T, p) && p[|p| - 1] == x;
        PathUnswept(h, k, R, T, p);
      }
    }
  }
}
