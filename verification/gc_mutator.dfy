/** The mutator's operations, each with the barrier that the interpreter runs after it, and the
    proof that they keep the invariant of the collector in every phase. */
module GcMutator {
  import opened GcHeap
  import opened GcMark
  import opened GcAtomic
  import opened GcSweep
  import opened GcCycle
  import opened GcSteps

  // ---------- a write to one object ----------

  /** `r` differs from `g` in the body of `o` only, and `o` keeps its kind and its place. */
  ghost predicate WroteOne(g: State, r: State, o: Ref) {
    && o in g.heap && o in r.heap
    && r == g.(heap := g.heap[o := r.heap[o]])
    && SameShape(g.heap[o], r.heap[o]) && Fits(g.heap, r.heap)
  }

  lemma WroteShapes(g: State, r: State, o: Ref)
    requires WroteOne(g, r, o)
    ensures SameShapes(g.heap, r.heap)
  {
    forall x | x in g.heap ensures SameShape(g.heap[x], r.heap[x]) {}
  }

  /** A black object depends on its own body only. */
  lemma BlackLocal(h: map<Ref, Body>, k: map<Ref, Body>, b: Body)
    requires Blackable(b)
    ensures AllRefs(k, b) == AllRefs(h, b)
  {}

  /** Before its barrier has run, the written object is exempt. */
  lemma WriteTri(g: State, r: State, o: Ref, P: set<Ref>)
    requires Tri(g, P, {}) && WroteOne(g, r, o) && Pending(g) <= P
    requires forall u | IsOpen(g.heap, u) :: u in g.uvhead
    ensures Tri(r, P + {o}, {})
  {
    WroteShapes(g, r, o);
    forall x | x in r.heap ensures Sorted(r, x) {
      assert Sorted(g, x);
      assert SameShape(g.heap[x], r.heap[x]);
      KindsSame(g.heap[x], r.heap[x]);
    }
    forall x | x in r.heap && x !in {} && x !in P + {o} && Marked(r, x) && x !in r.gray ensures Covered(r, x) {
      assert Sorted(g, x) && Covered(g, x);
      if g.mark[x].Black? {
        BlackLocal(g.heap, r.heap, g.heap[x]);
      } else {
        GrayIsString(g, x, P);
      }
    }
  }

  lemma KindsSame(a: Body, b: Body)
    requires SameShape(a, b)
    ensures Blackable(a) == Blackable(b) && Grayable(a) == Grayable(b) && Listable(a) == Listable(b)
  {}

  lemma GrayIsString(g: State, x: Ref, P: set<Ref>)
    requires x in g.heap && x in g.mark && g.mark[x].Gray? && Sorted(g, x) && Pending(g) <= P && x !in P && x !in g.gray
    requires forall u | IsOpen(g.heap, u) :: u in g.uvhead
    ensures g.heap[x].Str?
  {
    assert multiset(g.gray)[x] == 0;
    assert x !in g.grayagain && x !in g.weak && x !in g.uvhead;
    assert multiset(g.grayagain)[x] == 0 && multiset(g.weak)[x] == 0;
  }

  lemma WriteAlive(g: State, r: State, o: Ref)
    requires AliveShut(g) && WroteOne(g, r, o)
    requires forall x | x in r.heap && Alive(r, x) :: Follows(g, r, x)
    ensures AliveShut(r)
  {
    hide LiveRefs;
    RootsTransfer(g, r);
    AliveTransfer(g, r);
  }

  /** A step that keeps the shape of the heap, in a phase without the tri-colour invariant. */
  lemma OtherPhaseInv(g: State, r: State)
    requires Inv(g) && g.phase != Propagate
    requires r == g.(heap := r.heap, mark := r.mark, gray := r.gray, grayagain := r.grayagain)
    requires SameShapes(g.heap, r.heap) && r.mark.Keys == g.mark.Keys && AliveShut(r) && KindColours(r)
    requires forall x | IsNew(g, x) :: IsNew(r, x)
    ensures Inv(r)
  {
    hide AliveShut, Owned, FixedOk, UdataLast, KindColours;
    ShapeWellFormed(g, r);
    if g.phase == SweepString || g.phase == Sweep {
      forall x | x in r.heap && x !in {} ensures IsNew(r, x) || x in r.tmudata || Unswept(r, x) {
        assert IsNew(g, x) || x in g.tmudata || Unswept(g, x);
        assert SameShape(g.heap[x], r.heap[x]);
      }
    } else {
      forall x | x in r.heap ensures IsNew(r, x) || x in r.tmudata { assert x in g.heap; }
    }
  }

  /** A step that keeps the shape of the heap, in the mark phase. */
  lemma MarkPhaseInv(g: State, r: State)
    requires Inv(g) && g.phase == Propagate
    requires r == g.(heap := r.heap, mark := r.mark, gray := r.gray, grayagain := r.grayagain)
    requires SameShapes(g.heap, r.heap) && r.mark.Keys == g.mark.Keys
    requires Tri(r, Pending(r), {}) && NoDangling(r)
    requires forall x | Marked(g, x) :: Marked(r, x)
    requires forall x | x in r.mark && r.mark[x].White? :: r.mark[x] == g.mark[x]
    ensures Inv(r)
  {
    hide Tri, NoDangling, AliveShut, Owned, FixedOk, UdataLast, KindColours, Elems;
    ShapeWellFormed(g, r);
    forall u | u in r.uvhead ensures IsOpen(r.heap, u) { assert IsOpen(g.heap, u) && SameShape(g.heap[u], r.heap[u]); }
    forall u | u in r.tmudata ensures u in r.heap && r.heap[u].Udata? { assert SameShape(g.heap[u], r.heap[u]); }
    PropagatingInv(r);
  }

  /** In the mark phase nothing is dead. */
  lemma MarkPhaseNoDead(g: State)
    requires Inv(g) && g.phase == Propagate
    ensures NoDead(g) && NoDangling(g) && forall x | x in g.heap :: Alive(g, x)
    ensures Tri(g, Pending(g), {}) && forall u | IsOpen(g.heap, u) :: u in g.uvhead
  {
    forall u | IsOpen(g.heap, u) ensures u in g.uvhead { assert UpvalOwned(g, u); }
  }

  /** In the mark phase a live slot is an existing one. */
  lemma AliveIsNoDangling(g: State, r: State)
    requires r.mark.Keys == r.heap.Keys && AliveShut(r) && NoDead(r)
    ensures NoDangling(r)
  {
    AllAliveNoDangling(r);
  }

  // ---------- writes without a barrier: stacks ----------

  /** The result of a write that needs no barrier, because the written object is not black. */
  lemma PlainWriteInv(g: State, r: State, o: Ref)
    requires Inv(g) && WroteOne(g, r, o)
    requires forall x | x in r.heap && Alive(r, x) :: Follows(g, r, x)
    requires g.phase == Propagate && IsBlack(g, o) ==> Covered(r, o)
    ensures Inv(r)
  {
    hide Tri, NoDangling, Owned, LiveRefs, FixedOk, UdataLast;
    WroteShapes(g, r, o);
    WriteAlive(g, r, o);
    if g.phase == Propagate {
      MarkPhaseNoDead(g);
      WriteTri(g, r, o, Pending(g));
      AliveIsNoDangling(g, r);
      WrittenTri(g, r, o, Pending(g));
      MarkPhaseInv(g, r);
    } else {
      forall x | x in r.heap
        ensures (r.mark[x].Black? ==> Blackable(r.heap[x])) && (r.mark[x].Gray? ==> Grayable(r.heap[x]))
      {
        KindsSame(g.heap[x], r.heap[x]);
      }
      OtherPhaseInv(g, r);
    }
  }

  /** The written object is exempt no longer. */
  lemma WrittenTri(g: State, r: State, o: Ref, P: set<Ref>)
    requires Tri(g, P, {}) && Tri(r, P + {o}, {}) && WroteOne(g, r, o) && Pending(g) <= P
    requires forall u | IsOpen(g.heap, u) :: u in g.uvhead
    requires IsBlack(g, o) ==> Covered(r, o)
    ensures Tri(r, P, {})
  {
    if Marked(r, o) && o !in r.gray && o !in P {
      assert Sorted(g, o);
      if !IsBlack(g, o) { GrayIsString(g, o, P); assert SameShape(g.heap[o], r.heap[o]); }
    }
    TriWeaken(r, P + {o}, P);
  }

  /** A stack slot is written: no barrier, a thread is never black. */
  function Write(g: State, o: Ref, b: Body): State { g.(heap := g.heap[o := b]) }

  /** Every slot keeps its value, gets a live one, or is cut off if no open upvalue points to it. The
      other slots of a dead thread, which an open upvalue can still write to, need not be alive. */
  ghost predicate SlotsOk(g: State, t: Ref, stack: seq<Value>, gt: Value)
    requires t in g.heap && g.heap[t].Thread?
  {
    && (forall u | IsOpen(g.heap, u) && g.heap[u].home.thread == t && g.heap[u].home.slot < |g.heap[t].stack| ::
         g.heap[u].home.slot < |stack|)
    && (forall i | 0 <= i < |stack| ::
         (i < |g.heap[t].stack| && stack[i] == g.heap[t].stack[i]) || AllAlive(g, ValueRef(stack[i])))
    && (gt == g.heap[t].gt || AllAlive(g, ValueRef(gt)))
  }

  lemma StackFollows(g: State, t: Ref, stack: seq<Value>, gt: Value)
    requires AliveShut(g) && t in g.heap && g.heap[t].Thread? && SlotsOk(g, t, stack, gt)
    ensures WroteOne(g, Write(g, t, g.heap[t].(stack := stack, gt := gt)), t)
    ensures forall x | x in g.heap && Alive(g, x) :: Follows(g, Write(g, t, g.heap[t].(stack := stack, gt := gt)), x)
  {
    var r := Write(g, t, g.heap[t].(stack := stack, gt := gt));
    forall x | x in r.heap && Alive(r, x) ensures Follows(g, r, x) {
      forall c | c in LiveRefs(r.heap, r.heap[x])
        ensures Alive(r, c) || (Alive(g, x) && c in LiveRefs(g.heap, g.heap[x]))
      {
        if x == t {
          if c in ValueRefs(stack) {
            var i :| 0 <= i < |stack| && stack[i] == Coll(c);
            assert c in ValueRef(stack[i]);
          }
        } else if g.heap[x].UpVal? && g.heap[x].home.Open? && g.heap[x].home.thread == t {
          var i := g.heap[x].home.slot;
          assert i < |stack| && stack[i] == Coll(c) && c in ValueRef(stack[i]);
        }
      }
    }
  }

  lemma StackInv(g: State, t: Ref, stack: seq<Value>, gt: Value)
    requires Inv(g) && t in g.heap && g.heap[t].Thread? && SlotsOk(g, t, stack, gt)
    ensures Inv(Write(g, t, g.heap[t].(stack := stack, gt := gt)))
  {
    hide Owned, LiveRefs, FixedOk, UdataLast, Colours, Follows, SlotsOk;
    StackFollows(g, t, stack, gt);
    assert KindColours(g);
    PlainWriteInv(g, Write(g, t, g.heap[t].(stack := stack, gt := gt)), t);
  }

  // ---------- writes with a forward barrier ----------

  /** A body whose slots are those of the old body, and `v`. */
  ghost predicate AddsOnly(g: State, o: Ref, b: Body, vs: set<Ref>)
    requires o in g.heap
  {
    && SameShape(g.heap[o], b)
    && AllRefs(g.heap, b) <= AllRefs(g.heap, g.heap[o]) + vs
    && LiveRefs(g.heap, b) <= LiveRefs(g.heap, g.heap[o]) + vs
    && AllAlive(g, vs)
  }

  /** Objects other than threads and open upvalues: no other object reads their slots. */
  predicate Plain(b: Body) { !b.Thread? && !b.Str? && !(b.UpVal? && b.home.Open?) }

  lemma PlainWriteFollows(g: State, o: Ref, b: Body, vs: set<Ref>)
    requires AliveShut(g) && o in g.heap && Plain(g.heap[o]) && AddsOnly(g, o, b, vs)
    ensures WroteOne(g, Write(g, o, b), o)
    ensures forall x | x in g.heap && Alive(g, x) :: Follows(g, Write(g, o, b), x)
    ensures AliveShut(Write(g, o, b))
  {
    var r := Write(g, o, b);
    forall x | x in r.heap && Alive(r, x) ensures Follows(g, r, x) {
      PlainLocal(g, o, b, x);
    }
    WriteAlive(g, r, o);
  }

  lemma PlainLocal(g: State, o: Ref, b: Body, x: Ref)
    requires o in g.heap && Plain(g.heap[o]) && SameShape(g.heap[o], b) && x in g.heap
    ensures x != o ==> LiveRefs(Write(g, o, b).heap, g.heap[x]) == LiveRefs(g.heap, g.heap[x])
    ensures LiveRefs(Write(g, o, b).heap, b) == LiveRefs(g.heap, b)
    ensures AllRefs(Write(g, o, b).heap, b) == AllRefs(g.heap, b)
  {}

  lemma BarrierKinds(g: State, o: Ref, v: Value)
    requires KindColours(g) && o in g.heap && g.phase != Propagate
    ensures Barrier(g, o, v).mark == g.mark || Barrier(g, o, v) == MakeWhite(g, o)
    ensures KindColours(Barrier(g, o, v))
    ensures forall x | IsNew(g, x) :: IsNew(Barrier(g, o, v), x)
  {}

  lemma BarrierAlive(g: State, o: Ref, v: Value)
    requires AliveShut(g) && o in g.heap && (g.phase == Propagate ==> NoDead(g))
    ensures AliveShut(Barrier(g, o, v)) && (g.phase == Propagate ==> NoDead(Barrier(g, o, v)))
  {
    hide LiveRefs;
    var r := Barrier(g, o, v);
    BarrierFrame(g, o, v);
    forall x | x in g.heap && Alive(g, x) ensures Alive(r, x) {}
    RootsTransfer(g, r);
    forall x | x in r.heap && Alive(r, x) ensures Follows(g, r, x) {}
    AliveTransfer(g, r);
  }

  /** A write to an object that is not a table, followed by `luaC_barrier` or `luaC_objbarrier`. */
  function ForwardWrite(g: State, o: Ref, b: Body, v: Value): State { Barrier(Write(g, o, b), o, v) }

  lemma ForwardWriteInv(g: State, o: Ref, b: Body, v: Value)
    requires Inv(g) && o in g.heap && Plain(g.heap[o]) && AddsOnly(g, o, b, ValueRef(v))
    ensures Inv(ForwardWrite(g, o, b, v))
  {
    hide Tri, NoDangling, Owned, LiveRefs, AllRefs, FixedOk, UdataLast, AddsOnly;
    var h := Write(g, o, b);
    PlainWriteFollows(g, o, b, ValueRef(v));
    WroteShapes(g, h, o);
    KindsSame(g.heap[o], b) by { assert SameShape(g.heap[o], b); }
    if g.phase == Propagate {
      ForwardMarkInv(g, o, b, v);
    } else {
      assert KindColours(h);
      BarrierKinds(h, o, v);
      BarrierAlive(h, o, v);
      BarrierFrame(h, o, v);
      hide Barrier;
      OtherPhaseInv(g, Barrier(h, o, v));
    }
  }

  lemma ForwardMarkInv(g: State, o: Ref, b: Body, v: Value)
    requires Inv(g) && g.phase == Propagate && o in g.heap && Plain(g.heap[o]) && AddsOnly(g, o, b, ValueRef(v))
    requires WroteOne(g, Write(g, o, b), o) && AliveShut(Write(g, o, b)) && SameShapes(g.heap, Write(g, o, b).heap)
    ensures Inv(ForwardWrite(g, o, b, v))
  {
    hide Tri, NoDangling, Owned, LiveRefs, AllRefs, FixedOk, UdataLast, AliveShut, KindColours, Colours;
    var P := Pending(g);
    var h := Write(g, o, b);
    var r := ForwardWrite(g, o, b, v);
    MarkPhaseNoDead(g);
    AliveIsNoDangling(g, h);
    WriteTri(g, h, o, P);
    BarrierFrame(h, o, v);
    ForwardTri(g, h, r, o, b, v, P);
    hide Barrier;
    ForwardMarks(h, o, v);
    SameHeapNoDangling(h, r);
    MarkPhaseInv(g, r);
  }

  lemma ForwardMarks(h: State, o: Ref, v: Value)
    requires h.phase == Propagate
    ensures forall x | Marked(h, x) :: Marked(Barrier(h, o, v), x)
    ensures forall x | x in Barrier(h, o, v).mark && Barrier(h, o, v).mark[x].White? ::
             x in h.mark
             && Barrier(h, o, v).mark[x] == h.mark[x]
    ensures Barrier(h, o, v).grayagain == h.grayagain && Barrier(h, o, v).weak == h.weak
  {}

  /** The forward barrier marks the new value, so that the written object is covered again. */
  lemma ForwardTri(g: State, h: State, r: State, o: Ref, b: Body, v: Value, P: set<Ref>)
    requires Tri(g, P, {}) && Tri(h, P + {o}, {}) && NoDangling(h) && Pending(g) <= P
    requires h == Write(g, o, b) && r == Barrier(h, o, v) && g.phase == Propagate
    requires o in g.heap && Plain(g.heap[o]) && AddsOnly(g, o, b, ValueRef(v))
    ensures Tri(r, P, {})
  {
    hide AddsOnly;
    assert AllRefs(g.heap, b) <= AllRefs(g.heap, g.heap[o]) + ValueRef(v)
        && AllAlive(g, ValueRef(v)) by { AddsOnlyDef(g, o, b, ValueRef(v)); }
    assert SameShape(g.heap[o], b) by { AddsOnlyDef(g, o, b, ValueRef(v)); }
    assert Tri(r, P + {o}, {}) by {
      if v.Coll? && v.r in h.heap && IsWhite(h, v.r) && IsBlack(h, o) {
        ReallyMarkTri(h, v.r, P + {o}, {});
      }
    }
    if Marked(r, o) && o !in r.gray && o !in P {
      ForwardCovered(g, h, r, o, b, v, P);
    }
    TriWeaken(r, P + {o}, P);
  }

  lemma AddsOnlyDef(g: State, o: Ref, b: Body, vs: set<Ref>)
    requires o in g.heap && AddsOnly(g, o, b, vs)
    ensures SameShape(g.heap[o], b) && AllAlive(g, vs)
    ensures AllRefs(g.heap, b) <= AllRefs(g.heap, g.heap[o]) + vs
    ensures LiveRefs(g.heap, b) <= LiveRefs(g.heap, g.heap[o]) + vs
  {}

  /** A marked plain object on no list is black. */
  lemma UnlistedIsBlack(g: State, o: Ref)
    requires o in g.heap && o in g.mark && Sorted(g, o) && Plain(g.heap[o]) && Marked(g, o)
    requires o !in g.gray && o !in g.grayagain && o !in g.weak
    ensures g.mark[o].Black?
  {
    assert multiset(g.gray)[o] == 0 && multiset(g.grayagain)[o] == 0 && multiset(g.weak)[o] == 0;
  }

  lemma BlackUnlisted(g: State, o: Ref)
    requires o in g.heap && o in g.mark && Sorted(g, o) && g.mark[o].Black?
    ensures o !in g.gray
  {
    assert multiset(g.gray)[o] == 0;
  }

  lemma ForwardCovered(g: State, h: State, r: State, o: Ref, b: Body, v: Value, P: set<Ref>)
    requires Tri(g, P, {}) && Tri(r, P + {o}, {}) && Pending(g) <= P
    requires h == Write(g, o, b) && r == Barrier(h, o, v) && g.phase == Propagate
    requires o in g.heap && Plain(g.heap[o]) && SameShape(g.heap[o], b)
    requires AllRefs(g.heap, b) <= AllRefs(g.heap, g.heap[o]) + ValueRef(v) && AllAlive(g, ValueRef(v))
    requires Marked(r, o) && o !in r.gray && o !in P
    ensures Covered(r, o)
  {
    assert Sorted(r, o) && Sorted(g, o);
    PlainLocal(g, o, b, o);
    hide Tri, AllRefs, LiveRefs, StrongRefs;
    ForwardMarks(h, o, v);
    BarrierFrame(h, o, v) by { KeysAgree(g, P); }
    UnlistedIsBlack(r, o);
    assert g.mark[o].Black?;
    BlackUnlisted(g, o);
    assert Covered(g, o) by { CoveredAt(g, o, P); }
    assert AllMarked(r, AllRefs(g.heap, g.heap[o]));
    assert AllMarked(r, ValueRef(v)) by { KeysAgree(g, P); ValueMarked(h, o, v); }
    assert r.heap[o] == b && AllRefs(r.heap, b) == AllRefs(g.heap, b);
  }

  lemma CoveredAt(g: State, o: Ref, P: set<Ref>)
    requires Tri(g, P, {}) && o in g.heap && Marked(g, o) && o !in P && o !in g.gray
    ensures Covered(g, o)
  {}

  /** After the barrier the value is marked, if the object is black. */
  lemma ValueMarked(h: State, o: Ref, v: Value)
    requires h.mark.Keys == h.heap.Keys && AllAlive(h, ValueRef(v)) && IsBlack(h, o) && h.phase == Propagate
    ensures AllMarked(Barrier(h, o, v), ValueRef(v))
  {}

  // ---------- writes with a backward barrier ----------

  /** `luaC_barrierback` */
  function BarrierBack(g: State, t: Ref): State
    requires t in g.mark
  {
    g.(mark := g.mark[t := Gray], grayagain := [t] + g.grayagain)
  }

  /** `luaC_barriert` and `luaC_objbarriert` */
  function BarrierT(g: State, t: Ref, v: Value): State {
    if v.Coll? && IsWhite(g, v.r) && IsBlack(g, t) then BarrierBack(g, t) else g
  }

  lemma BarrierBackTri(g: State, t: Ref, P: set<Ref>)
    requires Tri(g, P + {t}, {}) && t in g.heap && g.heap[t].Table? && IsBlack(g, t)
    ensures Tri(BarrierBack(g, t), P + {t}, {})
  {
    var r := BarrierBack(g, t);
    assert multiset(r.grayagain) == multiset{t} + multiset(g.grayagain);
    forall x | x in r.heap ensures Sorted(r, x) { assert Sorted(g, x); }
    forall x | x in r.heap && x !in {} && x !in P + {t} && Marked(r, x) && x !in r.gray ensures Covered(r, x) {
      assert Covered(g, x);
    }
  }

  /** A table write: the new key, if it is new, and then the value run the backward barrier. */
  function TableWrite(g: State, t: Ref, b: Body, k: Value, newKey: bool, v: Value): State {
    var h := Write(g, t, b);
    BarrierT(if newKey then BarrierT(h, t, k) else h, t, v)
  }

  /** The backward barrier runs at most once. */
  lemma TableWriteOnce(g: State, t: Ref, b: Body, k: Value, newKey: bool, v: Value)
    requires t in g.mark
    ensures var h := Write(g, t, b); var r := TableWrite(g, t, b, k, newKey, v);
      && (r == h || (IsBlack(h, t) && r == BarrierBack(h, t)))
      && (r == h && IsBlack(h, t) ==>
            !(v.Coll? && IsWhite(h, v.r)) && (newKey ==> !(k.Coll? && IsWhite(h, k.r))))
  {}

  lemma BackAlive(g: State, t: Ref)
    requires AliveShut(g) && IsBlack(g, t) && t in g.heap
    ensures AliveShut(BarrierBack(g, t))
  {
    hide LiveRefs;
    var r := BarrierBack(g, t);
    RootsTransfer(g, r);
    forall x | x in r.heap && Alive(r, x) ensures Follows(g, r, x) {}
    AliveTransfer(g, r);
  }

  lemma TableWriteInv(g: State, t: Ref, b: Body, k: Value, newKey: bool, v: Value)
    requires Inv(g) && t in g.heap && g.heap[t].Table? && AddsOnly(g, t, b, ValueRef(k) + ValueRef(v))
    requires !newKey ==> ValueRef(k) <= AllRefs(g.heap, g.heap[t])
    ensures Inv(TableWrite(g, t, b, k, newKey, v))
  {
    hide Tri, NoDangling, Owned, LiveRefs, AllRefs, FixedOk, UdataLast, AddsOnly, AliveShut;
    var vs := ValueRef(k) + ValueRef(v);
    var h := Write(g, t, b);
    var r := TableWrite(g, t, b, k, newKey, v);
    PlainWriteFollows(g, t, b, vs);
    WroteShapes(g, h, t);
    AddsOnlyDef(g, t, b, vs);
    TableWriteOnce(g, t, b, k, newKey, v);
    hide TableWrite;
    if g.phase == Propagate {
      TableMarkInv(g, t, b, k, newKey, v);
    } else {
      KindsSame(g.heap[t], b);
      assert KindColours(h);
      if r != h { BackAlive(h, t); }
      OtherPhaseInv(g, r);
    }
  }

  lemma TableMarkInv(g: State, t: Ref, b: Body, k: Value, newKey: bool, v: Value)
    requires Inv(g) && g.phase == Propagate && t in g.heap && g.heap[t].Table?
    requires AddsOnly(g, t, b, ValueRef(k) + ValueRef(v))
    requires !newKey ==> ValueRef(k) <= AllRefs(g.heap, g.heap[t])
    requires WroteOne(g, Write(g, t, b), t) && AliveShut(Write(g, t, b)) && SameShapes(g.heap, Write(g, t, b).heap)
    ensures Inv(TableWrite(g, t, b, k, newKey, v))
  {
    hide Tri, NoDangling, Owned, LiveRefs, AllRefs, FixedOk, UdataLast, AddsOnly, AliveShut, KindColours, Colours;
    var P := Pending(g);
    var h := Write(g, t, b);
    var r := TableWrite(g, t, b, k, newKey, v);
    MarkPhaseNoDead(g);
    AliveIsNoDangling(g, h);
    WriteTri(g, h, t, P);
    TableWriteOnce(g, t, b, k, newKey, v);
    AddsOnlyDef(g, t, b, ValueRef(k) + ValueRef(v));
    SameHeapNoDangling(h, r) by { hide Write; }
    if r == h {
      if Marked(h, t) && t !in h.gray && t !in P { TableCovered(g, h, t, b, k, newKey, v, P); }
      TriWeaken(h, P + {t}, P);
    } else {
      BarrierBackTri(h, t, P);
      PendingBack(g, r, t);
    }
    hide TableWrite;
    MarkPhaseInv(g, r);
  }

  lemma PendingBack(g: State, r: State, t: Ref)
    requires r.grayagain == [t] + g.grayagain && r.weak == g.weak && r.uvhead == g.uvhead && r.tmudata == g.tmudata
    ensures Pending(r) == Pending(g) + {t}
  {
    assert Elems([t] + g.grayagain) == {t} + Elems(g.grayagain);
  }

  lemma TableCovered(g: State, h: State, t: Ref, b: Body, k: Value, newKey: bool, v: Value, P: set<Ref>)
    requires Tri(g, P, {}) && Tri(h, P + {t}, {}) && Pending(g) <= P
    requires h == Write(g, t, b) && t in g.heap && g.heap[t].Table? && SameShape(g.heap[t], b)
    requires AllRefs(g.heap, b) <= AllRefs(g.heap, g.heap[t]) + (ValueRef(k) + ValueRef(v))
    requires AllAlive(g, ValueRef(k) + ValueRef(v))
    requires !newKey ==> ValueRef(k) <= AllRefs(g.heap, g.heap[t])
    requires IsBlack(h, t) ==> !(v.Coll? && IsWhite(h, v.r)) && (newKey ==> !(k.Coll? && IsWhite(h, k.r)))
    requires Marked(h, t) && t !in h.gray && t !in P
    ensures Covered(h, t)
  {
    assert Sorted(h, t) && Sorted(g, t);
    PlainLocal(g, t, b, t);
    CoveredAt(g, t, P);
    hide Tri, AllRefs, LiveRefs, StrongRefs;
    UnlistedIsBlack(h, t);
    assert AllMarked(h, AllRefs(g.heap, g.heap[t]));
    assert h.heap[t] == b && AllRefs(h.heap, b) == AllRefs(g.heap, b);
    forall c | c in AllRefs(h.heap, b) ensures Marked(h, c) {
      if c !in AllRefs(g.heap, g.heap[t]) { assert Alive(g, c) && c in g.mark; }
    }
  }
}
