/** What the mutator can reach is alive, and no step of the collector frees what is alive. */
module GcReach {
  import opened GcHeap
  import opened GcMark
  import opened GcAtomic
  import opened GcSweep
  import opened GcCycle
  import opened GcSteps
  import opened GcRun

  // ---------- reachability ----------

  /** The roots of the mutator; the globals of a thread and its stack are slots of the thread. */
  predicate IsRoot(g: State, r: Ref) {
    r == g.mainthread || r == g.running || r in ValueRef(g.registry) || Some(r) in g.mt
  }

  /** A path that the mutator can follow: weak slots count, keys of empty entries do not. */
  ghost predicate Path(g: State, p: seq<Ref>) {
    && p != [] && IsRoot(g, p[0])
    && forall i | 0 <= i < |p| - 1 :: p[i] in g.heap && p[i + 1] in LiveRefs(g.heap, g.heap[p[i]])
  }

  ghost predicate Reachable(g: State, r: Ref) { exists p :: Path(g, p) && p[|p| - 1] == r }

  lemma {:induction false} PathAlive(g: State, p: seq<Ref>)
    requires AliveShut(g) && Path(g, p)
    ensures Alive(g, p[|p| - 1]) && p[|p| - 1] in g.heap
    decreases |p|
  {
    if |p| > 1 {
      var q := p[..|p| - 1];
      assert q[|q| - 1] == p[|p| - 2];
      PathAlive(g, q);
      assert AllAlive(g, LiveRefs(g.heap, g.heap[p[|p| - 2]]));
    }
  }

  /** A reachable object exists, and it is not dead. */
  lemma ReachableAlive(g: State, r: Ref)
    requires AliveShut(g) && Reachable(g, r)
    ensures r in g.heap && Alive(g, r)
  {
    var p :| Path(g, p) && p[|p| - 1] == r;
    PathAlive(g, p);
  }

  // ---------- what a sweep frees ----------

  /** Live objects stay, dead ones are not revived, and nothing else appears. */
  ghost predicate Sparing(g: State, r: State) {
    && r.heap.Keys <= g.heap.Keys
    && (forall x | x in g.heap && Alive(g, x) :: x in r.heap && Alive(r, x))
    && (forall x | x in r.heap && Alive(r, x) :: Alive(g, x))
  }

  lemma SparingTrans(a: State, b: State, c: State)
    requires Sparing(a, b) && Sparing(b, c)
    ensures Sparing(a, c)
  {}

  lemma SweepBucketSparing(g: State, k: nat)
    requires k < |g.strt| && g.mark.Keys == g.heap.Keys
    ensures Sparing(g, SweepBucket(g, k))
  {}

  lemma SweepOpenSparing(g: State, t: Ref)
    requires CloseReady(g, t) && t !in g.heap[t].openupval
    ensures Sparing(g, SweepOpen(g, t))
  {}

  lemma CloseOneSparing(g: State, t: Ref)
    requires SweepGood(g, {t}) && CloseReady(g, t) && g.heap[t].openupval != [] && NewUpvals(g, t)
    ensures IsOpen(g.heap, g.heap[t].openupval[0]) && Sparing(g, CloseOne(g, t))
  {
    FirstIsOpen(g, t);
    assert IsNew(g, g.heap[t].openupval[0]);
  }

  lemma {:induction false} CloseSparing(g: State, t: Ref)
    requires SweepGood(g, {t}) && CloseReady(g, t) && NewUpvals(g, t)
    requires multiset(g.rootgc)[t] == 0 && t != g.mainthread
    ensures Sparing(g, Close(g, t, 0))
    decreases |g.heap[t].openupval|
  {
    hide SweepGood, NewUpvals, CloseOne, Sparing;
    CloseReadyThread(g, t);
    SparingRefl(g);
    if g.heap[t].openupval != [] {
      CloseOneGood(g, t);
      CloseOneReady(g, t);
      CloseOneSparing(g, t);
      CloseSparing(CloseOne(g, t), t);
      SparingTrans(g, CloseOne(g, t), Close(g, t, 0));
    }
  }

  lemma SparingRefl(g: State)
    ensures Sparing(g, g)
  {}

  lemma RemoveSparing(g: State, o: Ref)
    requires !Alive(g, o)
    ensures Sparing(g, g.(heap := g.heap - {o}, mark := g.mark - {o}))
  {}

  lemma WhitenSparing(g: State, o: Ref)
    requires Alive(g, o)
    ensures Sparing(g, MakeWhite(g, o).(sweepgc := g.sweepgc + 1))
  {}

  lemma UnlinkSparing(g: State)
    requires g.sweepgc < |g.rootgc|
    ensures Sparing(g, Unlink(g))
  {}

  lemma SweepOneSparing(g: State)
    requires SweepGood(g, {}) && g.sweepgc < |g.rootgc|
    ensures Sparing(g, SweepOne(g))
  {
    hide SweepGood, CloseReady, NewUpvals, SweepOpen, Close, Sparing;
    var o := g.rootgc[g.sweepgc];
    AtPointer(g);
    SweepOpenAt(g);
    var h := if g.heap[o].Thread? then SweepOpen(g, o) else g;
    if g.heap[o].Thread? { SweepOpenSparing(g, o); } else { SparingRefl(g); }
    if Alive(h, o) {
      WhitenSparing(h, o);
      SparingTrans(g, h, SweepOne(g));
    } else {
      assert o != h.mainthread by { MainAlive(h); }
      NewUpvalsDef(h, o);
      UnlinkGood(h, o);
      var k := Unlink(h);
      assert NewUpvals(k, o) by { NewUpvalsFrame(h, k, o); }
      UnlinkSparing(h);
      SparingTrans(g, h, k);
      if k.heap[o].Thread? {
        CloseSparing(k, o);
        CloseKeepsDead(k, o);
        SparingTrans(g, k, Close(k, o, 0));
        RemoveSparing(Close(k, o, 0), o);
        SparingTrans(g, Close(k, o, 0), SweepOne(g));
      } else {
        RemoveSparing(k, o);
        SparingTrans(g, k, SweepOne(g));
      }
    }
  }

  lemma {:induction false} SweepListSparing(g: State, count: nat)
    requires SweepGood(g, {})
    ensures Sparing(g, SweepList(g, count))
    decreases count
  {
    hide SweepGood, SweepOne, SweepMeasure, Sparing;
    SparingRefl(g);
    if g.sweepgc < |g.rootgc| && count > 0 {
      SweepOneGood(g);
      SweepOneSparing(g);
      SweepListSparing(SweepOne(g), count - 1);
      SparingTrans(g, SweepOne(g), SweepList(g, count));
    }
  }

  lemma PhaseSparing(g: State, r: State)
    requires r.heap == g.heap && r.mark == g.mark && r.currentwhite == g.currentwhite && r.fixed == g.fixed
    ensures Sparing(g, r)
  {}

  lemma StringStepSparing(g: State)
    requires g.sweepstrgc < |g.strt| && g.mark.Keys == g.heap.Keys
    ensures Sparing(g, StepSweepString(g))
  {
    hide Sparing, SweepBucket;
    var h := SweepBucket(g, g.sweepstrgc);
    SweepBucketSparing(g, g.sweepstrgc);
    SweepBucketFields(g, g.sweepstrgc);
    PhaseSparing(h, StepSweepString(g));
    SparingTrans(g, h, StepSweepString(g));
  }

  lemma SweepBucketFields(g: State, k: nat)
    requires k < |g.strt|
    ensures SweepBucket(g, k).currentwhite == g.currentwhite && SweepBucket(g, k).fixed == g.fixed
  {}

  lemma RootStepSparing(g: State)
    requires SweepGood(g, {})
    ensures Sparing(g, StepSweep(g))
  {
    hide Sparing, SweepList, SweepGood;
    var h := SweepList(g, GCSWEEPMAX);
    SweepListSparing(g, GCSWEEPMAX);
    PhaseSparing(h, StepSweep(g));
    SparingTrans(g, h, StepSweep(g));
  }

  /** A sweep step frees dead objects only, and revives none. */
  lemma SweepStepSparing(g: State)
    requires Inv(g) && (g.phase == SweepString || g.phase == Sweep)
    ensures Sparing(g, SingleStep(g))
  {
    hide Sparing, StepSweepString, StepSweep, SweepGood;
    GoodIsInv(g);
    if g.phase == SweepString {
      StringStepSparing(g);
    } else {
      hide Inv;
      RootStepSparing(g);
    }
  }

  lemma AtomicKeys(g: State)
    requires Inv(g) && g.phase == Propagate && g.gray == []
    ensures Atomic(g).heap.Keys == g.heap.Keys
  {
    hide Tri, NoDangling, Owned, UdataLast, AliveShut;
    AtomicIsSafe(g);
  }

  lemma FinalizeKeys(g: State)
    ensures StepFinalize(g).heap.Keys == g.heap.Keys
  {}

  /** Only the sweep frees objects; the other steps of the collector keep them all. */
  lemma OtherStepKeys(g: State)
    requires Inv(g) && g.phase != SweepString && g.phase != Sweep
    ensures SingleStep(g).heap.Keys == g.heap.Keys
  {
    match g.phase
    case Pause => hide Inv; PauseInv(g);
    case Propagate => if g.gray == [] { AtomicKeys(g); } else { PropagateStepInv(g); }
    case Finalize => FinalizeKeys(g);
  }

  /** What a step of the collector frees was dead before the step. */
  lemma SingleStepKeeps(g: State, x: Ref)
    requires Inv(g) && x in g.heap && Alive(g, x)
    ensures x in SingleStep(g).heap
  {
    if g.phase == SweepString || g.phase == Sweep {
      SweepStepSparing(g);
    } else {
      hide Inv;
      OtherStepKeys(g);
    }
  }
}
