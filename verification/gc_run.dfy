/** Runs of the collector and the mutator: what is reachable is never freed. */
module GcRun {
  import opened GcHeap
  import opened GcMark
  import opened GcAtomic
  import opened GcSweep
  import opened GcCycle
  import opened GcSteps
  import opened GcMutator
  import opened GcAlloc

  // ---------- Finalize ----------

  /** The first userdata of `tmudata` returns to `rootgc`. */
  function Untmu(g: State): State
    requires g.tmudata != []
  {
    MakeWhite(LinkUdata(g.(tmudata := g.tmudata[1..]), g.tmudata[0]), g.tmudata[0])
  }

  lemma UntmuOwned(g: State)
    requires WellFormed(g) && g.tmudata != []
    ensures Owned(Untmu(g), {}) && UdataTail(Untmu(g).heap, Untmu(g).rootgc, g.mainthread)
    ensures forall u | u in Untmu(g).tmudata :: u in g.tmudata
  {
    var u := g.tmudata[0];
    var h := Untmu(g);
    TailIsLast(g);
    InsertTail(g.heap, g.rootgc, g.mainthread, u);
    assert h.rootgc == InsertAt(g.rootgc, After(g.rootgc, g.mainthread), u);
    FirstOnce(g.tmudata);
    forall x ensures RootOwned(h, x) { assert RootOwned(g, x); }
    forall x ensures StrOwned(h, x) { assert StrOwned(g, x); }
    forall x ensures UpvalOwned(h, x) { assert UpvalOwned(g, x); }
    forall x ensures ThreadOwns(h, x) { assert ThreadOwns(g, x); }
  }

  lemma UntmuAlive(g: State)
    requires AliveShut(g) && g.tmudata != [] && g.tmudata[0] in g.heap
    ensures AliveShut(Untmu(g)) && Alive(Untmu(g), g.tmudata[0])
  {
    hide LiveRefs;
    var h := Untmu(g);
    var u := g.tmudata[0];
    assert u in Elems(g.tmudata);
    assert forall x | x in h.tmudata :: x in g.tmudata;
    assert Elems(h.tmudata) <= Elems(g.tmudata);
    forall x | x in h.heap && Alive(h, x) ensures Follows(g, h, x) {}
    AliveTransfer(g, h);
  }

  lemma UntmuFields(g: State)
    requires g.tmudata != []
    ensures var h := Untmu(g); var u := g.tmudata[0];
      && h.heap == g.heap && h.mark == g.mark[u := White(g.currentwhite)] && h.currentwhite == g.currentwhite
      && h.phase == g.phase && h.tmudata == g.tmudata[1..] && h.mainthread == g.mainthread && h.fixed == g.fixed
      && h.strt == g.strt
  {}

  lemma UntmuInv(g: State)
    requires Inv(g) && g.phase == Finalize && g.tmudata != []
    ensures Inv(Untmu(g)) && g.tmudata[0] in Untmu(g).heap && Alive(Untmu(g), g.tmudata[0])
    ensures Untmu(g).phase == Finalize && Untmu(g).tmudata == g.tmudata[1..]
  {
    var h := Untmu(g);
    UntmuOwned(g);
    UntmuAlive(g);
    UntmuFields(g);
    hide Owned, UdataTail, AliveShut, Untmu;
    FixedFrame(g, h) by { hide WellFormed, Colours, KindColours; assert WellFormed(g); assert FixedOk(g); }
    TailIsLast(g);
    TailIsLast(h);
    hide FixedOk, UdataLast;
    UntmuColours(g, h);
    hide KindColours, Resting;
  }

  lemma UntmuColours(g: State, h: State)
    requires KindColours(g) && Resting(g) && g.tmudata != [] && g.tmudata[0] in g.heap && h.tmudata == g.tmudata[1..]
    requires h.heap == g.heap && h.mark == g.mark[g.tmudata[0] := White(g.currentwhite)]
    requires h.currentwhite == g.currentwhite
    ensures KindColours(h) && Resting(h)
  {
    forall x | x in h.heap ensures IsNew(h, x) || x in h.tmudata {
      assert IsNew(g, x) || x in g.tmudata;
      if x in g.tmudata && x != g.tmudata[0] { assert x in g.tmudata[1..]; }
    }
  }

  lemma PushInv(g: State, v: Value)
    requires Inv(g) && AllAlive(g, ValueRef(v))
    ensures Inv(Push(g, v)) && Push(g, v).phase == g.phase && Push(g, v).tmudata == g.tmudata
  {
    if g.running in g.heap && g.heap[g.running].Thread? {
      hide Inv;
      var th := g.heap[g.running];
      StackInv(g, g.running, th.stack + [v], th.gt);
    }
  }

  lemma FinalizeInv(g: State)
    requires Inv(g) && g.phase == Finalize
    ensures Inv(StepFinalize(g))
    ensures StepFinalize(g).phase == Pause || (StepFinalize(g).phase == Finalize
        && |StepFinalize(g).tmudata| < |g.tmudata|)
  {
    if g.tmudata == [] {
      var r := g.(phase := Pause);
      hide Owned, AliveShut, FixedOk, UdataLast;
      SameAlive(g, r);
      SameHeapShapes(g, r);
      ShapeWellFormed(g, r);
    } else {
      hide Inv;
      UntmuInv(g);
      if HasGc(Untmu(g).heap, Untmu(g).heap[g.tmudata[0]]) { PushInv(Untmu(g), Coll(g.tmudata[0])); }
    }
  }

  // ---------- every step of the collector ----------

  function Rank(p: Phase): nat {
    match p
    case Propagate => 4
    case SweepString => 3
    case Sweep => 2
    case Finalize => 1
    case Pause => 0
  }

  /** What is left to do in a phase. */
  function Work(g: State): int {
    match g.phase
    case Propagate => |Whites(g)| + |g.gray|
    case SweepString => |g.strt| - g.sweepstrgc
    case Sweep => SweepMeasure(g)
    case Finalize => |g.tmudata|
    case Pause => 0
  }

  /** `r` keeps the invariant, and is closer to the next pause than `g`. */
  ghost predicate StepOk(g: State, r: State) {
    && Inv(r) && Work(g) >= 0
    && (g.phase == Pause ==> r.phase == Propagate)
    && (g.phase != Pause ==> Rank(r.phase) < Rank(g.phase) || (r.phase == g.phase && Work(r) < Work(g)))
  }

  lemma PauseOk(g: State)
    requires Inv(g) && g.phase == Pause
    ensures StepOk(g, MarkRoot(g))
  {
    hide Inv, MarkRoot;
    PauseInv(g);
  }

  lemma PropagateOk(g: State)
    requires Inv(g) && g.phase == Propagate && g.gray != []
    ensures g.gray[0] in g.heap && StepOk(g, PropagateMark(g))
  {
    hide Tri, NoDangling, Owned, UdataLast, FixedOk, AliveShut, KindColours, PropagateMark, Settled, WellFormed;
    PropagateStepInv(g);
    PropagateSettles(g, Pending(g));
    hide Inv;
  }

  lemma AtomicOk(g: State)
    requires Inv(g) && g.phase == Propagate && g.gray == []
    ensures StepOk(g, Atomic(g))
  {
    hide Tri, NoDangling, Owned, UdataLast, FixedOk, AliveShut, KindColours, Atomic, WellFormed;
    AtomicInv(g);
    hide Inv;
  }

  lemma SweepStringOk(g: State)
    requires Inv(g) && g.phase == SweepString
    ensures StepOk(g, StepSweepString(g))
  {
    hide Owned, UdataLast, FixedOk, AliveShut, KindColours, StepSweepString, WellFormed, Sweeping;
    SweepStringInv(g);
    assert g.sweepstrgc < |g.strt|;
    hide Inv;
  }

  lemma SweepOk(g: State)
    requires Inv(g) && g.phase == Sweep
    ensures SweepGood(g, {}) && StepOk(g, StepSweep(g))
  {
    hide Owned, UdataLast, FixedOk, AliveShut, KindColours, StepSweep, WellFormed;
    GoodIsInv(g);
    assert g.sweepgc <= |g.rootgc|;
    hide Inv, SweepGood;
    SweepStepInv(g);
  }

  lemma FinalizeOk(g: State)
    requires Inv(g) && g.phase == Finalize
    ensures StepOk(g, StepFinalize(g))
  {
    hide Inv, StepFinalize;
    FinalizeInv(g);
  }

  /** `singlestep` keeps the invariant, and it gets the collector closer to the next pause. */
  lemma SingleStepInv(g: State)
    requires Inv(g)
    ensures Inv(SingleStep(g)) && Work(g) >= 0
    ensures g.phase == Pause ==> SingleStep(g).phase == Propagate
    ensures g.phase != Pause ==> (
      || Rank(SingleStep(g).phase) < Rank(g.phase)
      || (SingleStep(g).phase == g.phase && Work(SingleStep(g)) < Work(g)))
  {
    match g.phase
    case Pause => hide Inv, MarkRoot; PauseOk(g);
    case Propagate =>
      hide Tri, NoDangling, Owned, UdataLast, FixedOk, AliveShut, KindColours, PropagateMark, Atomic, WellFormed;
      if g.gray == [] { AtomicOk(g); } else { PropagateOk(g); }
    case SweepString => hide Inv, StepSweepString; SweepStringOk(g);
    case Sweep => hide Inv, StepSweep, SweepGood; SweepOk(g);
    case Finalize => hide Inv, StepFinalize; FinalizeOk(g);
  }
}
