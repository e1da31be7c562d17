/** The operations of the mutator, in terms of what it can reach, and runs in which they
    alternate with steps of the collector and with full collections. */
module GcOps {
  import opened GcHeap
  import opened GcMark
  import opened GcAtomic
  import opened GcSweep
  import opened GcCycle
  import opened GcSteps
  import opened GcMutator
  import opened GcAlloc
  import opened GcRun
  import opened GcReach
  import GcExact
  import GcFull
  import GcSurvive

  /** What a new closure captures: a slot of the running thread, or an upvalue of the closure
      that creates it. `spare` is the address of the upvalue that may have to be created. */
  datatype Capture = Local(slot: nat, spare: Ref) | Outer(upval: Ref)

  datatype Op =
    | Step
    | Full
    | PushValue(v: Value)
    | PopTo(top: nat)
    | SetSlot(t: Ref, i: nat, v: Value)
    | NewStr(r: Ref, bucket: nat)
    | FindStr(s: Ref)
    | NewUser(r: Ref, env: Ref)
    | NewBody(r: Ref, b: Body)
    | NewClosure(r: Ref, env: Ref, proto: Ref, caps: seq<Capture>)
    | SetUpval(u: Ref, v: Value)
    | SetEntry(t: Ref, arr: seq<Value>, nodes: seq<Node>, meta: Meta, k: Value, v: Value)
    | SetTableMeta(t: Ref, mt: Option<Ref>)
    | SetField(o: Ref, b: Body, v: Value)
    | SetBasicMeta(i: nat, mt: Option<Ref>)
    | CloseUpvals(t: Ref, level: nat)
    | Resume(t: Ref)
    | ResizeStrings(strt: seq<seq<Ref>>)
    | FixStr(s: Ref)

  // ---------- what the mutator may do ----------

  ghost predicate ReachableAll(g: State, rs: set<Ref>) { forall r | r in rs :: Reachable(g, r) }

  ghost predicate ReachableThread(g: State, t: Ref) { t in g.heap && g.heap[t].Thread? && Reachable(g, t) }

  /** A table assignment may rearrange the entries of the table, as a rehash does, and it may change
      what the table says as a metatable of others. Apart from the key and the value assigned, the
      table refers to nothing new. */
  ghost predicate Rearranged(g: State, t: Ref, arr: seq<Value>, nodes: seq<Node>, meta: Meta, k: Value, v: Value)
    requires t in g.heap && g.heap[t].Table?
  {
    var b := g.heap[t].(arr := arr, nodes := nodes, meta := meta);
    var vs := ValueRef(k) + ValueRef(v);
    && AllRefs(g.heap, b) <= AllRefs(g.heap, g.heap[t]) + vs
    && LiveRefs(g.heap, b) <= LiveRefs(g.heap, g.heap[t]) + vs
  }

  /** A field of an object other than a table: a metatable, an environment, an upvalue of a C
      closure, a constant or a nested prototype of a prototype. */
  ghost predicate FieldSet(g: State, o: Ref, b: Body, v: Value)
    requires o in g.heap
  {
    && (g.heap[o].Udata? || g.heap[o].CClosure? || g.heap[o].LClosure? || g.heap[o].Proto?)
    && SameShape(g.heap[o], b)
    && AllRefs(g.heap, b) <= AllRefs(g.heap, g.heap[o]) + ValueRef(v)
    && LiveRefs(g.heap, b) <= LiveRefs(g.heap, g.heap[o]) + ValueRef(v)
  }

  ghost predicate Capturable(g: State, c: Capture)
    requires g.running in g.heap && g.heap[g.running].Thread?
  {
    match c
    case Local(i, r) => i < |g.heap[g.running].stack| && r !in g.heap
    case Outer(u) => Reachable(g, u)
  }

  predicate FreshCaptures(caps: seq<Capture>) {
    forall i, j | 0 <= i < j < |caps| && caps[i].Local? && caps[j].Local? :: caps[i].spare != caps[j].spare
  }

  /** The operations that a program can perform: it uses only what it can reach. */
  ghost predicate Enabled(g: State, op: Op) {
    match op
    case Step => true
    case Full => true
    case PushValue(v) => ReachableAll(g, ValueRef(v))
    case PopTo(top) => ReachableThread(g, g.running) && top <= |g.heap[g.running].stack|
      && forall u | IsOpen(g.heap, u) && g.heap[u].home.thread == g.running :: g.heap[u].home.slot < top
    case SetSlot(t, i, v) => ReachableThread(g, t) && i < |g.heap[t].stack| && ReachableAll(g, ValueRef(v))
    case NewStr(r, bucket) => r !in g.heap && bucket < |g.strt|
    case FindStr(s) => s in g.heap && g.heap[s].Str?
    case NewUser(r, env) => r !in g.heap && Reachable(g, env)
    case NewBody(r, b) => r !in g.heap && (b.Table? || b.CClosure? || b.Proto? || (b.Thread? && b.openupval == []))
      && ReachableAll(g, LiveRefs(g.heap, b))
    case NewClosure(r, env, p, caps) => r !in g.heap && Reachable(g, env) && Reachable(g, p)
      && ReachableThread(g, g.running)
      && (forall c | c in caps :: Capturable(g, c) && (c.Local? ==> c.spare != r)) && FreshCaptures(caps)
    case SetUpval(u, v) => u in g.heap && g.heap[u].UpVal? && Reachable(g, u) && ReachableAll(g, ValueRef(v))
    case SetEntry(t, arr, nodes, meta, k, v) => t in g.heap && g.heap[t].Table? && Reachable(g, t)
      && ReachableAll(g, ValueRef(k) + ValueRef(v)) && Rearranged(g, t, arr, nodes, meta, k, v)
    case SetTableMeta(t, mt) => t in g.heap && g.heap[t].Table? && Reachable(g, t) && ReachableAll(g, OptRef(mt))
    case SetField(o, b, v) => o in g.heap && Reachable(g, o) && ReachableAll(g, ValueRef(v)) && FieldSet(g, o, b, v)
    case SetBasicMeta(i, mt) => i < |g.mt| && ReachableAll(g, OptRef(mt))
    case CloseUpvals(t, level) => ReachableThread(g, t)
    case Resume(t) => ReachableThread(g, t)
    case ResizeStrings(strt) => g.phase != SweepString && |strt| > 0
        && (forall s :: StrCount(strt, s) == StrCount(g.strt, s))
    case FixStr(s) => s in g.heap && g.heap[s].Str? && !IsDead(g, s)
  }

  function WithMeta(b: Body, mt: Option<Ref>): Body
    requires b.Table?
  {
    Table(mt, b.arr, b.nodes, b.weakBits, b.meta)
  }

  function OptValue(o: Option<Ref>): Value { if o.Some? then Coll(o.value) else Nil }

  /** A key is new to a table unless some node has it. */
  predicate NewKey(ns: seq<Node>, k: Value) { forall n | n in ns :: n.key != k }

  // ---------- captured variables ----------

  ghost predicate CanRun(g: State) { g.running in g.heap && g.heap[g.running].Thread? }

  predicate Unused(g: State, c: Capture) { c.Local? ==> c.spare !in g.heap }

  predicate AllUnused(g: State, caps: seq<Capture>) {
    FreshCaptures(caps) && forall c | c in caps :: Unused(g, c)
  }

  function CaptureOne(g: State, c: Capture): State
    requires CanRun(g)
  {
    if c.Local? then FindUpval(g, g.running, c.slot, c.spare) else g
  }

  function CaptureRef(g: State, c: Capture): Ref
    requires CanRun(g)
  {
    if c.Local? then UpvalFor(g, g.running, c.slot, c.spare) else c.upval
  }

  /** What finding an upvalue does besides returning it. */
  ghost predicate Found(g: State, h: State, c: Capture)
    requires CanRun(g)
  {
    && h.running == g.running && CanRun(h)
    && h.heap[h.running] == g.heap[g.running].(openupval := h.heap[h.running].openupval)
    && h.heap.Keys <= g.heap.Keys + (if c.Local? then {c.spare} else {}) && g.heap.Keys <= h.heap.Keys
    && (forall x | Alive(g, x) && x in g.heap :: Alive(h, x))
    && h.currentwhite == g.currentwhite
  }

  lemma CaptureFinds(g: State, c: Capture)
    requires CanRun(g) && Unused(g, c)
    ensures Found(g, CaptureOne(g, c), c)
  {}

  lemma StillUnused(g: State, h: State, caps: seq<Capture>)
    requires caps != [] && AllUnused(g, caps) && CanRun(g) && Found(g, h, caps[0])
    ensures AllUnused(h, caps[1..])
  {
    forall c | c in caps[1..] ensures Unused(h, c) {
      var j :| 0 < j < |caps| && caps[j] == c;
      assert c in caps && Unused(g, c);
    }
  }

  /** The heap after the variables of a new closure have been captured, one after the other. */
  function CaptureAll(g: State, caps: seq<Capture>): State
    requires CanRun(g) && AllUnused(g, caps)
    decreases |caps|
  {
    if caps == [] then g else
      CaptureFinds(g, caps[0]);
      StillUnused(g, CaptureOne(g, caps[0]), caps);
      CaptureAll(CaptureOne(g, caps[0]), caps[1..])
  }

  function CaptureRefs(g: State, caps: seq<Capture>): seq<Ref>
    requires CanRun(g) && AllUnused(g, caps)
    decreases |caps|
  {
    if caps == [] then [] else
      CaptureFinds(g, caps[0]);
      StillUnused(g, CaptureOne(g, caps[0]), caps);
      [CaptureRef(g, caps[0])] + CaptureRefs(CaptureOne(g, caps[0]), caps[1..])
  }

  /** What may still be captured when a part has been: slots of the stack, live upvalues. */
  ghost predicate CaptureOk(g: State, c: Capture)
    requires CanRun(g)
  {
    match c
    case Local(i, r) => i < |g.heap[g.running].stack|
    case Outer(u) => Alive(g, u) && u in g.heap
  }

  lemma CaptureOneInv(g: State, c: Capture)
    requires Inv(g) && CanRun(g) && Unused(g, c) && CaptureOk(g, c)
    ensures Inv(CaptureOne(g, c)) && Alive(CaptureOne(g, c), CaptureRef(g, c))
    ensures CaptureRef(g, c) in CaptureOne(g, c).heap
  {
    hide FindUpval, UpvalFor;
    assert Alive(g, g.running) by { hide LiveRefs; }
    hide Inv;
    if c.Local? { FindUpvalInv(g, g.running, c.slot, c.spare); }
  }

  lemma {:induction false} CaptureAllInv(g: State, caps: seq<Capture>)
    requires Inv(g) && CanRun(g) && AllUnused(g, caps) && forall c | c in caps :: CaptureOk(g, c)
    ensures Inv(CaptureAll(g, caps)) && AllAlive(CaptureAll(g, caps), Elems(CaptureRefs(g, caps)))
    ensures forall x | Alive(g, x) && x in g.heap :: Alive(CaptureAll(g, caps), x) && x in CaptureAll(g, caps).heap
    ensures CanRun(CaptureAll(g, caps)) && CaptureAll(g, caps).running == g.running
    ensures forall x | x in CaptureAll(g, caps).heap :: x in g.heap || exists c :: c in caps && c.Local? && c.spare == x
    decreases |caps|
  {
    hide Inv, CaptureOne, CaptureRef, Elems;
    if caps != [] {
      var h := CaptureOne(g, caps[0]);
      CaptureFinds(g, caps[0]);
      StillUnused(g, h, caps);
      assert caps[0] in caps;
      CaptureOneInv(g, caps[0]);
      forall c | c in caps[1..] ensures CaptureOk(h, c) { assert c in caps && CaptureOk(g, c); }
      CaptureAllInv(h, caps[1..]);
      ElemsCons(CaptureRefs(g, caps));
    } else {
      assert Elems([]) == {} by { NoElems(); }
    }
  }

  // ---------- the operations ----------

  /** An open upvalue points to a slot of the stack of an existing thread. */
  lemma OpenHome(g: State, u: Ref)
    requires Inv(g) && IsOpen(g.heap, u)
    ensures var t := g.heap[u].home.thread;
      t in g.heap && g.heap[t].Thread? && g.heap[u].home.slot < |g.heap[t].stack|
  {
    assert UpvalOwned(g, u);
  }

  lemma ThreadReady(g: State, t: Ref)
    requires Inv(g) && t in g.heap && g.heap[t].Thread?
    ensures CloseReady(g, t)
  {
    OwnsThread(g, t);
  }

  /** Assignment to an upvalue, followed by `luaC_barrier`. */
  function AssignUpval(g: State, u: Ref, v: Value): State
    requires Inv(g) && u in g.heap && g.heap[u].UpVal?
  {
    match g.heap[u].home
    case Closed(_) => ForwardWrite(g, u, UpVal(Closed(v)), v)
    case Open(t, i) =>
      OpenHome(g, u);
      Barrier(Write(g, t, g.heap[t].(stack := g.heap[t].stack[i := v])), u, v)
  }

  /** A closure is created, and its variables are captured. */
  function MakeClosure(g: State, op: Op): State
    requires Enabled(g, op) && op.NewClosure?
  {
    assert CanRun(g) && AllUnused(g, op.caps);
    Push(NewObject(CaptureAll(g, op.caps), op.r, LClosure(op.env, op.proto, CaptureRefs(g, op.caps))), Coll(op.r))
  }

  function Apply(g: State, op: Op): State
    requires Inv(g) && Enabled(g, op)
  {
    hide Inv, Reachable;
    match op
    case Step => SingleStep(g)
    case Full => GcFull.FullGc(g)
    case PushValue(v) => Push(g, v)
    case PopTo(top) => Write(g, g.running, g.heap[g.running].(stack := g.heap[g.running].stack[..top]))
    case SetSlot(t, i, v) => Write(g, t, g.heap[t].(stack := g.heap[t].stack[i := v]))
    case NewStr(r, k) => Push(NewString(g, r, k), Coll(r))
    case FindStr(s) => Push(if IsDead(g, s) then MakeWhite(g, s) else g, Coll(s))
    case NewUser(r, env) => Push(NewUdata(g, r, env), Coll(r))
    case NewBody(r, b) => Push(NewObject(g, r, b), Coll(r))
    case NewClosure(_, _, _, _) => MakeClosure(g, op)
    case SetUpval(u, v) => AssignUpval(g, u, v)
    case SetEntry(t, arr, nodes, meta, k, v) =>
      TableWrite(g, t, g.heap[t].(arr := arr, nodes := nodes, meta := meta), k, NewKey(g.heap[t].nodes, k), v)
    case SetTableMeta(t, mt) => TableWrite(g, t, WithMeta(g.heap[t], mt), Nil, false, OptValue(mt))
    case SetField(o, b, v) => ForwardWrite(g, o, b, v)
    case SetBasicMeta(i, mt) => g.(mt := g.mt[i := mt])
    case CloseUpvals(t, level) => ThreadReady(g, t); Close(g, t, level)
    case Resume(t) => g.(running := t)
    case ResizeStrings(strt) => g.(strt := strt)
    case FixStr(s) => g.(fixed := g.fixed + {s})
  }

  // ---------- every operation keeps the invariant ----------

  lemma ReachableIsAlive(g: State, rs: set<Ref>)
    requires Inv(g) && ReachableAll(g, rs)
    ensures AllAlive(g, rs) && rs <= g.heap.Keys
  {
    assert AliveShut(g);
    forall r | r in rs ensures Alive(g, r) && r in g.heap { ReachableAlive(g, r); }
  }

  lemma ReachableOne(g: State, r: Ref)
    requires Inv(g) && Reachable(g, r)
    ensures Alive(g, r) && r in g.heap
  {
    assert AliveShut(g);
    ReachableAlive(g, r);
  }

  lemma PopInv(g: State, top: nat)
    requires Inv(g) && Enabled(g, PopTo(top))
    ensures Inv(Apply(g, PopTo(top)))
  {
    hide Inv;
    var t := g.running;
    var s := g.heap[t].stack[..top];
    assert SlotsOk(g, t, s, g.heap[t].gt);
    StackInv(g, t, s, g.heap[t].gt);
    assert g.heap[t].(stack := s, gt := g.heap[t].gt) == g.heap[t].(stack := s);
  }

  lemma SlotInv(g: State, t: Ref, i: nat, v: Value)
    requires Inv(g) && t in g.heap && g.heap[t].Thread? && i < |g.heap[t].stack| && AllAlive(g, ValueRef(v))
    ensures Inv(Write(g, t, g.heap[t].(stack := g.heap[t].stack[i := v])))
  {
    hide Inv;
    var s := g.heap[t].stack[i := v];
    assert SlotsOk(g, t, s, g.heap[t].gt);
    StackInv(g, t, s, g.heap[t].gt);
    assert g.heap[t].(stack := s, gt := g.heap[t].gt) == g.heap[t].(stack := s);
  }

  lemma FindStrInv(g: State, s: Ref)
    requires Inv(g) && Enabled(g, FindStr(s))
    ensures Inv(Apply(g, FindStr(s)))
  {
    InvParts(g);
    hide Inv;
    var h := if IsDead(g, s) then MakeWhite(g, s) else g;
    if IsDead(g, s) { ReviveInv(g, s); }
    assert Alive(h, s);
    PushInv(h, Coll(s));
  }

  lemma CapturesOk(g: State, op: Op)
    requires Inv(g) && Enabled(g, op) && op.NewClosure?
    ensures CanRun(g) && AllUnused(g, op.caps) && forall c | c in op.caps :: CaptureOk(g, c)
    ensures Alive(g, op.env) && op.env in g.heap && Alive(g, op.proto) && op.proto in g.heap
    ensures op.r !in g.heap && forall c | c in op.caps && c.Local? :: c.spare != op.r
  {
    hide Inv, Reachable;
    ReachableOne(g, op.env);
    ReachableOne(g, op.proto);
    forall c | c in op.caps ensures CaptureOk(g, c) && Unused(g, c) {
      assert Capturable(g, c);
      if c.Outer? { ReachableOne(g, c.upval); }
    }
  }

  lemma ClosureRefs(h: map<Ref, Body>, env: Ref, p: Ref, us: seq<Ref>)
    ensures LiveRefs(h, LClosure(env, p, us)) == {env, p} + Elems(us)
  {}

  lemma NewClosureInv(g: State, r: Ref, env: Ref, p: Ref, caps: seq<Capture>)
    requires Inv(g) && Enabled(g, NewClosure(r, env, p, caps))
    ensures Inv(Apply(g, NewClosure(r, env, p, caps)))
  {
    CapturesOk(g, NewClosure(r, env, p, caps));
    hide Inv, Enabled, CaptureAll, CaptureRefs, AllUnused, CaptureOk, CanRun, Elems, Push, Alive, AllAlive, NewObject,
        Apply;
    CaptureAllInv(g, caps);
    PushLClosureInv(CaptureAll(g, caps), r, env, p, CaptureRefs(g, caps));
    ApplyClosure(g, NewClosure(r, env, p, caps));
  }

  lemma ApplyClosure(g: State, op: Op)
    requires Inv(g) && Enabled(g, op) && op.NewClosure? && CanRun(g) && AllUnused(g, op.caps)
    ensures Apply(g, op) == Push(NewObject(CaptureAll(g, op.caps), op.r,
      LClosure(op.env, op.proto, CaptureRefs(g, op.caps))), Coll(op.r))
  {
    hide Inv, Enabled, Push, CaptureAll, CaptureRefs, NewObject, CanRun, AllUnused;
  }

  lemma PushLClosureInv(h: State, r: Ref, env: Ref, p: Ref, us: seq<Ref>)
    requires Inv(h) && r !in h.heap && Alive(h, env) && Alive(h, p) && AllAlive(h, Elems(us))
    ensures Inv(Push(NewObject(h, r, LClosure(env, p, us)), Coll(r)))
  {
    hide Inv, Elems, LiveRefs;
    var b := LClosure(env, p, us);
    ClosureRefs(h.heap, env, p, us);
    NewObjectInv(h, r, b);
    hide Push, Alive;
    PushNewInv(NewObject(h, r, b), r);
  }

  /** A new object is white, and may be pushed on the stack. */
  lemma PushNewInv(h: State, r: Ref)
    requires Inv(h) && IsNew(h, r)
    ensures Inv(Push(h, Coll(r)))
  {
    hide Inv;
    PushInv(h, Coll(r));
  }

  lemma AllocateInv(g: State, op: Op)
    requires Inv(g) && Enabled(g, op) && (op.NewStr? || op.NewUser? || op.NewBody?)
    ensures Inv(Apply(g, op))
  {
    hide Push, Reachable;
    match op
    case NewStr(r, k) => hide Inv; NewStringInv(g, r, k); PushNewInv(NewString(g, r, k), r);
    case NewUser(r, env) => NewUserInv(g, r, env);
    case NewBody(r, b) => NewBodyInv(g, r, b);
  }

  lemma NewUserInv(g: State, r: Ref, env: Ref)
    requires Inv(g) && Enabled(g, NewUser(r, env))
    ensures Inv(Push(NewUdata(g, r, env), Coll(r)))
  {
    ReachableOne(g, env);
    hide Inv, Push, Reachable, After, LinkUdata;
    NewUdataInv(g, r, env);
    assert IsNew(NewUdata(g, r, env), r) by { NewUdataNew(g, r, env); }
    PushNewInv(NewUdata(g, r, env), r);
  }

  lemma NewUdataNew(g: State, r: Ref, env: Ref)
    ensures IsNew(NewUdata(g, r, env), r)
  {
    hide After;
  }

  lemma NewBodyInv(g: State, r: Ref, b: Body)
    requires Inv(g) && Enabled(g, NewBody(r, b))
    ensures Inv(Push(NewObject(g, r, b), Coll(r)))
  {
    ReachableIsAlive(g, LiveRefs(g.heap, b));
    hide Inv, Push, LiveRefs, Reachable;
    NewObjectInv(g, r, b);
    PushNewInv(NewObject(g, r, b), r);
  }

  lemma AssignUpvalInv(g: State, u: Ref, v: Value)
    requires Inv(g) && u in g.heap && g.heap[u].UpVal? && AllAlive(g, ValueRef(v))
    ensures Inv(AssignUpval(g, u, v))
  {
    if g.heap[u].home.Closed? {
      hide Inv;
      assert AddsOnly(g, u, UpVal(Closed(v)), ValueRef(v));
      ForwardWriteInv(g, u, UpVal(Closed(v)), v);
    } else {
      KindAt(g, u);
      OpenHome(g, u);
      hide Inv;
      SlotInv(g, g.heap[u].home.thread, g.heap[u].home.slot, v);
    }
  }

  lemma SetEntryInv(g: State, t: Ref, arr: seq<Value>, nodes: seq<Node>, meta: Meta, k: Value, v: Value)
    requires Inv(g) && Enabled(g, SetEntry(t, arr, nodes, meta, k, v))
    ensures Inv(Apply(g, SetEntry(t, arr, nodes, meta, k, v)))
  {
    ReachableIsAlive(g, ValueRef(k) + ValueRef(v));
    hide Inv, Reachable;
    var b := g.heap[t].(arr := arr, nodes := nodes, meta := meta);
    assert AddsOnly(g, t, b, ValueRef(k) + ValueRef(v));
    if !NewKey(g.heap[t].nodes, k) {
      var n :| n in g.heap[t].nodes && n.key == k;
      assert ValueRef(k) <= KeyRefs(g.heap[t].nodes);
    }
    TableWriteInv(g, t, b, k, NewKey(g.heap[t].nodes, k), v);
  }

  lemma SetTableMetaInv(g: State, t: Ref, mt: Option<Ref>)
    requires Inv(g) && Enabled(g, SetTableMeta(t, mt))
    ensures Inv(Apply(g, SetTableMeta(t, mt)))
  {
    ReachableIsAlive(g, OptRef(mt));
    hide Inv, Reachable, TableWrite;
    var b := WithMeta(g.heap[t], mt);
    var v := OptValue(mt);
    MetaAdds(g, t, mt);
    hide AddsOnly, WithMeta, AllRefs;
    TableWriteInv(g, t, b, Nil, false, v);
  }

  lemma MetaAdds(g: State, t: Ref, mt: Option<Ref>)
    requires t in g.heap && g.heap[t].Table? && AllAlive(g, OptRef(mt))
    ensures AddsOnly(g, t, WithMeta(g.heap[t], mt), ValueRef(Nil) + ValueRef(OptValue(mt)))
    ensures ValueRef(Nil) <= AllRefs(g.heap, g.heap[t])
  {
    assert ValueRef(Nil) + ValueRef(OptValue(mt)) == OptRef(mt);
  }

  lemma SetFieldInv(g: State, o: Ref, b: Body, v: Value)
    requires Inv(g) && Enabled(g, SetField(o, b, v))
    ensures Inv(Apply(g, SetField(o, b, v)))
  {
    ReachableIsAlive(g, ValueRef(v));
    hide Inv, Reachable;
    assert AddsOnly(g, o, b, ValueRef(v));
    ForwardWriteInv(g, o, b, v);
  }

  /** The basic metatables, the running thread, the string table or the fixed strings change. */
  lemma RootFieldsInv(g: State, r: State)
    requires Inv(g) && r == g.(mt := r.mt, running := r.running, strt := r.strt, fixed := r.fixed)
    requires RootsAlive(r) && |r.strt| > 0 && (g.phase == SweepString ==> r.strt == g.strt)
    requires forall s :: StrCount(r.strt, s) == StrCount(g.strt, s)
    requires g.fixed <= r.fixed && FixedOk(r)
    ensures Inv(r)
  {
    hide FixedOk, StrCount, LiveRefs, Tri, NoDangling, RootsAlive, AliveShut, KindColours, Colours, Owned;
    assert FixedOk(g) && Alive(g, g.mainthread) by { FixedAlive(g); }
    RootFieldsOwned(g, r);
    RootFieldsAlive(g, r);
    if g.phase == Propagate {
      RootFieldsTri(g, r);
    } else {
      RootFieldsColours(g, r);
    }
  }

  lemma FixedAlive(g: State)
    requires Inv(g)
    ensures FixedOk(g) && Alive(g, g.mainthread)
  {
    assert AliveShut(g);
    assert RootsAlive(g);
  }

  lemma RootFieldsOwned(g: State, r: State)
    requires Owned(g, {}) && r == g.(mt := r.mt, running := r.running, strt := r.strt, fixed := r.fixed)
    requires forall s :: StrCount(r.strt, s) == StrCount(g.strt, s)
    ensures Owned(r, {})
  {
    forall x ensures RootOwned(r, x) { assert RootOwned(g, x); }
    forall x ensures StrOwned(r, x) { assert StrOwned(g, x); }
    forall x ensures UpvalOwned(r, x) { assert UpvalOwned(g, x); }
    forall x ensures ThreadOwns(r, x) { assert ThreadOwns(g, x); }
  }

  lemma RootFieldsAlive(g: State, r: State)
    requires AliveShut(g) && r == g.(mt := r.mt, running := r.running, strt := r.strt, fixed := r.fixed)
    requires RootsAlive(r) && g.fixed <= r.fixed && FixedOk(r) && Alive(g, g.mainthread)
    ensures AliveShut(r)
  {
    forall x | x in r.heap && Alive(r, x) ensures Follows(g, r, x) {
      if !Alive(g, x) { StrRefs(r.heap, r.heap[x]); }
    }
    AliveTransfer(g, r);
  }

  lemma RootFieldsTri(g: State, r: State)
    requires Inv(g) && g.phase == Propagate
    requires r == g.(mt := r.mt, running := r.running, strt := r.strt, fixed := r.fixed)
    requires RootsAlive(r) && g.mark.Keys == g.heap.Keys
    ensures KindColours(r) && Colours(r)
  {
    hide Tri, NoDangling, Owned, FixedOk, UdataLast, LiveRefs;
    SameObjectsTri(g, r, Pending(g));
    SameHeapNoDangling(g, r);
    assert RootsExist(r);
  }

  lemma RootFieldsColours(g: State, r: State)
    requires Inv(g) && g.phase != Propagate
    requires r == g.(mt := r.mt, running := r.running, strt := r.strt, fixed := r.fixed)
    requires g.phase == SweepString ==> r.strt == g.strt
    ensures KindColours(r) && Colours(r)
  {
    hide Owned, AliveShut, FixedOk, UdataLast;
    if g.phase == SweepString || g.phase == Sweep {
      forall x | x in r.heap && x !in {} ensures IsNew(r, x) || x in r.tmudata || Unswept(r, x) {
        assert IsNew(g, x) || x in g.tmudata || Unswept(g, x);
      }
    } else {
      forall x | x in r.heap ensures IsNew(r, x) || x in r.tmudata { assert IsNew(g, x) || x in g.tmudata; }
    }
  }

  /** The operations that change none but those fields. */
  ghost predicate RootOp(g: State, op: Op, r: State) {
    match op
    case SetBasicMeta(i, mt) => i < |g.mt| && r == g.(mt := g.mt[i := mt])
    case Resume(t) => r == g.(running := t)
    case ResizeStrings(strt) => r == g.(strt := strt)
    case FixStr(s) => r == g.(fixed := g.fixed + {s})
    case _ => false
  }

  lemma ApplyRoot(g: State, op: Op)
    requires Inv(g) && Enabled(g, op) && (op.SetBasicMeta? || op.Resume? || op.ResizeStrings? || op.FixStr?)
    ensures RootOp(g, op, Apply(g, op))
  {
    hide Inv, Reachable, StrCount, IsDead;
  }

  lemma RootParts(g: State)
    requires Inv(g)
    ensures RootsAlive(g) && FixedOk(g) && |g.strt| > 0 && g.mark.Keys == g.heap.Keys
  {
    hide Owned, UdataLast, KindColours, Colours, LiveRefs, RootsAlive, FixedOk;
  }

  lemma RootOpsInv(g: State, op: Op)
    requires Inv(g) && Enabled(g, op) && (op.SetBasicMeta? || op.Resume? || op.ResizeStrings? || op.FixStr?)
    ensures Inv(Apply(g, op))
  {
    hide Inv, Reachable, StrCount, Apply, RootsAlive, FixedOk;
    RootParts(g);
    ApplyRoot(g, op);
    var r := Apply(g, op);
    if op.SetBasicMeta? { ReachableIsAlive(g, OptRef(op.mt)); }
    if op.Resume? { ReachableOne(g, op.t); }
    RootOpsRoots(g, op, r);
    RootOpsFixed(g, op, r);
    RootFieldsInv(g, r);
  }

  lemma RootOpsFixed(g: State, op: Op, r: State)
    requires RootOp(g, op, r) && FixedOk(g) && (op.FixStr? ==> op.s in g.heap && g.heap[op.s].Str?)
    ensures FixedOk(r) && g.fixed <= r.fixed
  {}

  lemma RootOpsRoots(g: State, op: Op, r: State)
    requires RootsAlive(g) && g.mark.Keys == g.heap.Keys
    requires r == g.(mt := r.mt, running := r.running, strt := r.strt, fixed := r.fixed) && g.fixed <= r.fixed
    requires r.running == g.running || Alive(g, r.running)
    requires r.mt == g.mt || (op.SetBasicMeta? && op.i < |g.mt| && r.mt == g.mt[op.i := op.mt]
        && AllAlive(g, OptRef(op.mt)))
    ensures RootsAlive(r)
  {
    forall x | Alive(g, x) ensures Alive(r, x) {}
    forall m | m in r.mt && m.Some? ensures Alive(r, m.value) {
      if r.mt != g.mt && m == op.mt { assert m.value in OptRef(op.mt); }
    }
  }

  lemma CloseUpvalsInv(g: State, t: Ref, level: nat)
    requires Inv(g) && t in g.heap && g.heap[t].Thread?
    ensures CloseReady(g, t) && Inv(Close(g, t, level))
  {
    ThreadReady(g, t);
    hide Inv, CloseReady;
    CloseInv(g, t, level);
  }

  /** Every operation, in every phase of the collector, keeps the invariant. */
  lemma ApplyInv(g: State, op: Op)
    requires Inv(g) && Enabled(g, op)
    ensures Inv(Apply(g, op))
  {
    hide Inv, Reachable, Push, Close, Write, TableWrite, ForwardWrite, SingleStep, CaptureAll, CaptureRefs,
        GcFull.FullGc;
    match op
    case Step => SingleStepInv(g);
    case Full => GcSurvive.FullGcIsExact(g);
    case PushValue(v) => ReachableIsAlive(g, ValueRef(v)); PushInv(g, v);
    case PopTo(top) => PopInv(g, top);
    case SetSlot(t, i, v) => ReachableIsAlive(g, ValueRef(v)); SlotInv(g, t, i, v);
    case NewStr(_, _) => AllocateInv(g, op);
    case FindStr(s) => FindStrInv(g, s);
    case NewUser(_, _) => AllocateInv(g, op);
    case NewBody(_, _) => AllocateInv(g, op);
    case NewClosure(r, env, p, caps) => NewClosureInv(g, r, env, p, caps);
    case SetUpval(u, v) => ReachableIsAlive(g, ValueRef(v)); AssignUpvalInv(g, u, v);
    case SetEntry(t, arr, nodes, meta, k, v) => SetEntryInv(g, t, arr, nodes, meta, k, v);
    case SetTableMeta(t, mt) => SetTableMetaInv(g, t, mt);
    case SetField(o, b, v) => SetFieldInv(g, o, b, v);
    case SetBasicMeta(_, _) => RootOpsInv(g, op);
    case CloseUpvals(t, level) => CloseUpvalsInv(g, t, level);
    case Resume(_) => RootOpsInv(g, op);
    case ResizeStrings(_) => RootOpsInv(g, op);
    case FixStr(_) => RootOpsInv(g, op);
  }

  // ---------- nothing reachable is freed ----------

  lemma {:induction false} CloseKeeps(g: State, t: Ref, level: nat)
    requires Inv(g) && CloseReady(g, t)
    ensures forall x | x in g.heap && Alive(g, x) :: x in Close(g, t, level).heap && Alive(Close(g, t, level), x)
    decreases |g.heap[t].openupval|
  {
    hide Inv, CloseOne, CloseReady;
    CloseReadyThread(g, t);
    if g.heap[t].openupval != [] {
      CloseOneInv(g, t);
      CloseOneKeeps(g, t);
      if g.heap[g.heap[t].openupval[0]].home.slot >= level { CloseKeeps(CloseOne(g, t), t, level); }
    }
  }

  lemma CloseOneKeeps(g: State, t: Ref)
    requires Inv(g) && CloseReady(g, t) && g.heap[t].openupval != []
    ensures IsOpen(g.heap, g.heap[t].openupval[0])
    ensures forall x | x in g.heap && Alive(g, x) :: x in CloseOne(g, t).heap && Alive(CloseOne(g, t), x)
  {
    InvParts(g);
    if g.phase == Propagate { MarkPhaseNoDead(g); }
    hide Inv, CloseOne, CloseReady;
    CloseOneAlive(g, t);
    CloseOneInv(g, t);
    InvParts(CloseOne(g, t));
  }

  lemma GrowKeys(g: State, op: Op)
    requires Inv(g) && Enabled(g, op) && !op.Step? && !op.Full? && !op.CloseUpvals? && !op.NewClosure?
    ensures g.heap.Keys <= Apply(g, op).heap.Keys
  {
    hide Inv, Reachable;
    if op.SetUpval? { AssignKeys(g, op.u, op.v); }
    if op.SetField? { ForwardKeys(g, op.o, op.b, op.v); }
  }

  lemma ForwardKeys(g: State, o: Ref, b: Body, v: Value)
    ensures g.heap.Keys <= ForwardWrite(g, o, b, v).heap.Keys
  {}

  lemma AssignKeys(g: State, u: Ref, v: Value)
    requires Inv(g) && u in g.heap && g.heap[u].UpVal?
    ensures g.heap.Keys <= AssignUpval(g, u, v).heap.Keys
  {
    hide Inv;
    if g.heap[u].home.Open? { OpenHome(g, u); }
  }

  /** What an operation must not free: what the mutator can reach. A full collection clears the weak
      slots before it frees, so what counts is what can be reached without them. */
  ghost predicate Held(g: State, op: Op, r: Ref) {
    if op.Full? then GcExact.StrongReach(g.heap, GcExact.Roots(g), {}, r) else Reachable(g, r)
  }

  /** Strong reachability is a kind of reachability. */
  lemma StrongIsReachable(g: State, r: Ref)
    requires GcExact.StrongReach(g.heap, GcExact.Roots(g), {}, r)
    ensures Reachable(g, r)
  {
    var p :| GcExact.StrongPath(g.heap, GcExact.Roots(g), {}, p) && p[|p| - 1] == r;
    forall i | 0 <= i < |p| - 1 ensures p[i] in g.heap && p[i + 1] in LiveRefs(g.heap, g.heap[p[i]]) {
      GcExact.StrongIsLive(g.heap, g.heap[p[i]]);
    }
    assert Path(g, p);
  }

  lemma FullKeeps(g: State, r: Ref)
    requires Inv(g) && GcExact.StrongReach(g.heap, GcExact.Roots(g), {}, r)
    ensures r in GcFull.FullGc(g).heap
  {
    hide Inv, Reachable, GcFull.FullGc, GcExact.Roots, GcExact.StrongPath;
    StrongIsReachable(g, r);
    ReachableOne(g, r);
    GcSurvive.StrongSurvives(g, r);
  }

  /** What an operation frees could not be reached before it. */
  lemma ReachableIsKept(g: State, op: Op, r: Ref)
    requires Inv(g) && Enabled(g, op) && Held(g, op, r)
    ensures r in Apply(g, op).heap
  {
    hide Inv, Reachable, Push, Close, SingleStep, CaptureAll, GcFull.FullGc;
    if op.Full? {
      FullKeeps(g, r);
    } else {
      ReachableOne(g, r);
      match op {
        case Step => SingleStepKeeps(g, r);
        case CloseUpvals(t, level) => ThreadReady(g, t); CloseKeeps(g, t, level);
        case NewClosure(c, env, p, caps) => NewClosureKeeps(g, op, r);
        case _ => GrowKeys(g, op);
      }
    }
  }

  lemma NewClosureKeeps(g: State, op: Op, x: Ref)
    requires Inv(g) && Enabled(g, op) && op.NewClosure? && x in g.heap && Alive(g, x)
    ensures x in Apply(g, op).heap
  {
    CapturesOk(g, op);
    hide Inv, Enabled, CaptureAll, CaptureRefs, AllUnused, CaptureOk;
    CaptureAllInv(g, op.caps);
  }

  // ---------- runs ----------

  /** `ops[i]` leads from `gs[i]` to `gs[i + 1]`. */
  ghost predicate Run(gs: seq<State>, ops: seq<Op>) {
    && |gs| == |ops| + 1
    && forall i | 0 <= i < |ops| :: StepOf(gs[i], ops[i], gs[i + 1])
  }

  ghost predicate StepOf(g: State, op: Op, h: State) {
    Inv(g) ==> Enabled(g, op) && h == Apply(g, op)
  }

  /** Safety over whole runs: from a state that satisfies the invariant, however steps of the
      collector, full collections and operations of the mutator alternate, every object that the
      mutator can reach exists and is not dead, and an object that goes away could not be reached
      before. */
  lemma {:induction false} RunSafe(gs: seq<State>, ops: seq<Op>, i: nat)
    requires Run(gs, ops) && Inv(gs[0]) && i < |gs|
    ensures Inv(gs[i])
    ensures forall r | Reachable(gs[i], r) :: r in gs[i].heap && Alive(gs[i], r)
    ensures i > 0 ==> forall r | r in gs[i - 1].heap && r !in gs[i].heap :: !Held(gs[i - 1], ops[i - 1], r)
    decreases i
  {
    hide Inv, Reachable, Apply, Enabled, Alive, Held;
    if i > 0 {
      RunSafe(gs, ops, i - 1);
      assert StepOf(gs[i - 1], ops[i - 1], gs[i]);
      ApplyInv(gs[i - 1], ops[i - 1]);
      forall r | r in gs[i - 1].heap && r !in gs[i].heap ensures !Held(gs[i - 1], ops[i - 1], r) {
        if Held(gs[i - 1], ops[i - 1], r) { ReachableIsKept(gs[i - 1], ops[i - 1], r); }
      }
    }
    forall r | Reachable(gs[i], r) ensures r in gs[i].heap && Alive(gs[i], r) { ReachableOne(gs[i], r); }
  }

  // ---------- the first state ----------

  const MINSTRTABSIZE: nat := 32

  function NewTable(): Body { Table(None, [], [], Weak(false, false), Meta(Weak(false, false), false)) }

  /** `lua_newstate`: the main thread, its globals and the registry, and an empty string table. */
  function FirstState(tags: nat): State {
    var h := map[0 := Thread(Coll(1), [Nil], []), 1 := NewTable(), 2 := NewTable()];
    State(h, map[0 := White(false), 1 := White(false), 2 := White(false)], {0}, false, Pause,
          [2, 1, 0], 0, seq(MINSTRTABSIZE, _ => []), 0, [], [], [], [], [],
          0, 0, Coll(2), seq(tags, _ => None))
  }

  lemma NoStrings(bs: seq<seq<Ref>>, r: Ref)
    requires forall b | b in bs :: b == []
    ensures StrCount(bs, r) == 0
  {
    if bs != [] {
      assert bs[0] in bs && forall b | b in bs[1..] :: b in bs;
      NoStrings(bs[1..], r);
    }
  }

  lemma FirstOwned(g: State, x: Ref)
    requires g == FirstState(|g.mt|)
    ensures RootOwned(g, x) && StrOwned(g, x) && UpvalOwned(g, x) && ThreadOwns(g, x)
  {
    NoStrings(g.strt, x);
    assert multiset(g.rootgc)[x] == if x < 3 then 1 else 0;
  }

  lemma FirstInv(tags: nat)
    ensures Inv(FirstState(tags))
  {
    var g := FirstState(tags);
    FirstWellFormed(g);
    FirstAlive(g);
    hide WellFormed, AliveShut;
  }

  lemma FirstWellFormed(g: State)
    requires g == FirstState(|g.mt|)
    ensures WellFormed(g)
  {
    forall x ensures RootOwned(g, x) && StrOwned(g, x) && UpvalOwned(g, x) && ThreadOwns(g, x) { FirstOwned(g, x); }
    FirstLast(g);
    hide RootOwned, StrOwned, UpvalOwned, ThreadOwns, UdataLast;
  }

  lemma FirstAlive(g: State)
    requires g == FirstState(|g.mt|)
    ensures AliveShut(g)
  {}

  lemma FirstLast(g: State)
    requires g == FirstState(|g.mt|)
    ensures UdataLast(g)
  {
    assert After([0], 0) == 1 && After([1, 0], 0) == 2 by { assert [1, 0][1..] == [0]; }
    assert After(g.rootgc, 0) == 3 by { assert g.rootgc[1..] == [1, 0]; }
  }
}
