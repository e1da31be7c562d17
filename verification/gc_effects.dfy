/** What the operations of the mutator on upvalues do to the values that variables have. */
module GcEffects {
  import opened GcHeap
  import opened GcMark
  import opened GcAtomic
  import opened GcSweep
  import opened GcCycle
  import opened GcSteps
  import opened GcMutator
  import opened GcAlloc
  import opened GcReach
  import opened GcKeep
  import opened GcOps

  // ---------- captured variables ----------

  /** The upvalue stands for the slot of the thread. */
  predicate StandsFor(h: map<Ref, Body>, u: Ref, t: Ref, slot: nat) { u in h && h[u] == UpVal(Open(t, slot)) }

  lemma CaptureKeeps(g: State, c: Capture, u: Ref, t: Ref, slot: nat)
    requires CanRun(g) && Unused(g, c) && StandsFor(g.heap, u, t, slot)
    ensures StandsFor(CaptureOne(g, c).heap, u, t, slot)
  {}

  lemma CaptureStands(g: State, c: Capture)
    requires Inv(g) && CanRun(g) && Unused(g, c) && CaptureOk(g, c) && c.Local?
    ensures StandsFor(CaptureOne(g, c).heap, CaptureRef(g, c), g.running, c.slot)
  {
    hide FindUpval, UpvalFor;
    assert Alive(g, g.running) by { hide LiveRefs; }
    hide Inv;
    FindUpvalInv(g, g.running, c.slot, c.spare);
  }

  lemma {:induction false} CaptureAllKeeps(g: State, caps: seq<Capture>, u: Ref, t: Ref, slot: nat)
    requires CanRun(g) && AllUnused(g, caps) && StandsFor(g.heap, u, t, slot)
    ensures StandsFor(CaptureAll(g, caps).heap, u, t, slot)
    decreases |caps|
  {
    hide CaptureOne, StandsFor;
    if caps != [] {
      CaptureFinds(g, caps[0]);
      StillUnused(g, CaptureOne(g, caps[0]), caps);
      assert caps[0] in caps;
      CaptureKeeps(g, caps[0], u, t, slot);
      CaptureAllKeeps(CaptureOne(g, caps[0]), caps[1..], u, t, slot);
    }
  }

  /** The upvalue that a captured variable becomes: one for its slot, or that of the enclosing function. */
  ghost predicate Captures(h: map<Ref, Body>, running: Ref, c: Capture, u: Ref) {
    match c case Local(slot, _) => StandsFor(h, u, running, slot) case Outer(v) => u == v
  }

  lemma {:induction false} CapturedAt(g: State, caps: seq<Capture>, i: nat)
    requires Inv(g) && CanRun(g) && AllUnused(g, caps) && forall c | c in caps :: CaptureOk(g, c)
    requires i < |caps|
    ensures |CaptureRefs(g, caps)| == |caps|
    ensures Captures(CaptureAll(g, caps).heap, g.running, caps[i], CaptureRefs(g, caps)[i])
    decreases |caps|
  {
    hide Inv, CaptureOne, StandsFor, CaptureRef;
    var h := CaptureOne(g, caps[0]);
    CaptureFinds(g, caps[0]);
    StillUnused(g, h, caps);
    assert caps[0] in caps;
    CaptureOneInv(g, caps[0]);
    forall c | c in caps[1..] ensures CaptureOk(h, c) { assert c in caps && CaptureOk(g, c); }
    if i > 0 {
      CapturedAt(h, caps[1..], i - 1);
    } else {
      if |caps| > 1 { CapturedAt(h, caps[1..], 0); }
      if caps[0].Local? {
        CaptureStands(g, caps[0]);
        CaptureAllKeeps(h, caps[1..], CaptureRef(g, caps[0]), g.running, caps[0].slot);
      } else {
        OuterRef(g, caps[0]);
      }
    }
  }

  lemma OuterRef(g: State, c: Capture)
    requires CanRun(g) && c.Outer?
    ensures CaptureRef(g, c) == c.upval
  {}

  lemma PushedClosure(h: State, r: Ref, b: Body, u: Ref, t: Ref, slot: nat)
    requires r !in h.heap && b.LClosure?
    ensures var k := Push(NewObject(h, r, b), Coll(r)).heap;
      r in k && k[r] == b && (StandsFor(h.heap, u, t, slot) ==> StandsFor(k, u, t, slot))
  {}

  /** A new closure has one upvalue for each variable that it captures. */
  lemma ClosureCaptures(g: State, op: Op, i: nat)
    requires Inv(g) && Enabled(g, op) && op.NewClosure? && i < |op.caps|
    ensures var h := Apply(g, op).heap;
      && op.r in h && h[op.r].LClosure? && h[op.r].env == op.env && h[op.r].proto == op.proto
      && |h[op.r].upvals| == |op.caps| && Captures(h, g.running, op.caps[i], h[op.r].upvals[i])
  {
    hide Inv, Enabled, CaptureAll, CaptureRefs, AllUnused, CaptureOk, Reachable, Apply, Push, NewObject, StandsFor,
        CanRun, AllAlive, Alive;
    CapturesOk(g, op);
    CaptureAllInv(g, op.caps);
    CapturedAt(g, op.caps, i);
    ApplyClosure(g, op);
    var h, us := CaptureAll(g, op.caps), CaptureRefs(g, op.caps);
    var slot := if op.caps[i].Local? then op.caps[i].slot else 0;
    PushedClosure(h, op.r, LClosure(op.env, op.proto, us), us[i], g.running, slot);
  }

  // ---------- assignment to a captured variable, and the end of its scope ----------

  /** The value of a variable that a closure has captured. */
  function ValueOf(h: map<Ref, Body>, u: Ref): Value
    requires u in h && h[u].UpVal?
  {
    UpvalValue(h, h[u].home)
  }

  lemma BarrierHeap(g: State, o: Ref, v: Value)
    ensures Barrier(g, o, v).heap == g.heap
  {
    hide MarkedFrom;
    if v.Coll? && v.r in g.heap && IsWhite(g, v.r) && IsBlack(g, o) && g.phase == Propagate { MarkKeepsHeap(g, v.r); }
  }

  lemma MarkKeepsHeap(g: State, o: Ref)
    requires IsWhite(g, o) && o in g.heap
    ensures ReallyMark(g, o).heap == g.heap
  {
    hide ReallyMark;
    assert MarkedFrom(g, ReallyMark(g, o)) by { MarksFrom(g, o); }
  }

  lemma MarksFrom(g: State, o: Ref)
    requires IsWhite(g, o) && o in g.heap
    ensures MarkedFrom(g, ReallyMark(g, o))
  {}

  /** An assignment gives the variable its value, and the same one to what else stands for it: an open
      upvalue of the same slot, or the slot itself. No other variable changes. */
  lemma AssignedValue(g: State, u: Ref, v: Value, w: Ref)
    requires Inv(g) && u in g.heap && g.heap[u].UpVal? && w in g.heap && g.heap[w].UpVal?
    ensures var h := AssignUpval(g, u, v).heap;
      && w in h && h[w].UpVal?
      && ValueOf(h, w) == if w == u || (g.heap[u].home.Open? && g.heap[w].home == g.heap[u].home) then v
                          else ValueOf(g.heap, w)
  {
    hide Inv, Barrier;
    match g.heap[u].home
    case Closed(_) => BarrierHeap(Write(g, u, UpVal(Closed(v))), u, v);
    case Open(t, i) =>
      OpenHome(g, u);
      BarrierHeap(Write(g, t, g.heap[t].(stack := g.heap[t].stack[i := v])), u, v);
  }

  /** When variables go out of scope, every upvalue that is kept has the value that it had. */
  lemma ClosedValue(g: State, t: Ref, level: nat, u: Ref)
    requires Inv(g) && t in g.heap && g.heap[t].Thread? && u in g.heap && g.heap[u].UpVal?
    requires CloseReady(g, t) && u in Close(g, t, level).heap
    ensures var h := Close(g, t, level).heap; h[u].UpVal? && ValueOf(h, u) == ValueOf(g.heap, u)
  {
    hide Inv, CloseReady, Close;
    CloseKept(g, t, level);
    assert BodyKept(g.heap, Close(g, t, level).heap, u);
  }

  // ---------- which slots count ----------

  ghost predicate InEntry(ns: seq<Node>, c: Ref, keys: bool, values: bool) {
    exists n | n in ns :: n.val != Nil && ((keys && n.key == Coll(c)) || (values && n.val == Coll(c)))
  }

  /** An object holds another, slot by slot; `w` says which slots of a table do not count. */
  ghost predicate Holds(h: map<Ref, Body>, b: Body, w: Weak, c: Ref) {
    match b
    case Str => false
    case Udata(mt, env, _) => mt == Some(c) || env == c
    case UpVal(Closed(v)) => v == Coll(c)
    case UpVal(Open(t, i)) => t in h && h[t].Thread? && i < |h[t].stack| && h[t].stack[i] == Coll(c)
    case CClosure(env, upvalues) => env == c || Coll(c) in upvalues
    case LClosure(env, proto, upvals) => env == c || proto == c || c in upvals
    case Table(mt, arr, nodes, _, _) =>
      mt == Some(c) || (!w.values && Coll(c) in arr) || InEntry(nodes, c, !w.keys, !w.values)
    case Thread(gt, stack, _) => gt == Coll(c) || Coll(c) in stack
    case Proto(strings, k, protos) => c in strings || Coll(c) in k || c in protos
  }

  lemma InEntryIs(ns: seq<Node>, c: Ref)
    ensures c in LiveKeyRefs(ns) <==> InEntry(ns, c, true, false)
    ensures c in ValRefs(ns) <==> InEntry(ns, c, false, true)
    ensures InEntry(ns, c, true, true) <==> InEntry(ns, c, true, false) || InEntry(ns, c, false, true)
    ensures !InEntry(ns, c, false, false)
  {}

  lemma InValues(vs: seq<Value>, c: Ref)
    ensures c in ValueRefs(vs) <==> Coll(c) in vs
  {}

  /** A reference can be followed if and only if a slot holds it, and it keeps its target if and only if
      a slot that is not weak does. */
  lemma HoldsExactly(h: map<Ref, Body>, b: Body, c: Ref)
    ensures c in LiveRefs(h, b) <==> Holds(h, b, Weak(false, false), c)
    ensures c in StrongRefs(h, b) <==> Holds(h, b, if b.Table? then Mode(h, b.mt) else Weak(false, false), c)
  {
    hide InEntry, ValueRefs, LiveKeyRefs, ValRefs;
    match b
    case CClosure(_, upvalues) => InValues(upvalues, c);
    case Table(_, arr, nodes, _, _) => InValues(arr, c); InEntryIs(nodes, c);
    case Thread(_, stack, _) => InValues(stack, c);
    case Proto(_, k, _) => InValues(k, c);
    case _ =>
  }
}
