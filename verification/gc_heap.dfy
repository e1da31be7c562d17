/** The heap, the collector's global state and the tri-colour marking operations of the
    incremental collector (`lgc.c`, `lgc.h`). */
module GcHeap {

  /** The address of a collectable object. Addresses may be reused after a free. */
  type Ref = nat

  datatype Option<+T> = None | Some(value: T)

  /** The white, gray and black bits of `marked`; `bit` says which of the two whites. */
  datatype Color = White(bit: bool) | Gray | Black

  datatype Phase = Pause | Propagate | SweepString | Sweep | Finalize

  /** A tagged value: nil, a non-collectable value, a collectable one, or the key tag left
      behind when an empty entry is removed from a table. */
  datatype Value = Nil | Prim | Coll(r: Ref) | DeadKey(r: Ref)

  datatype Node = Node(key: Value, val: Value)

  datatype Weak = Weak(keys: bool, values: bool)

  /** What the fields `__mode` and `__gc` of a table say when it is used as a metatable. */
  datatype Meta = Meta(weak: Weak, gc: bool)

  /** Where the value of an upvalue lives: in a slot of a thread's stack, or in the upvalue. */
  datatype Home = Open(thread: Ref, slot: nat) | Closed(value: Value)

  datatype Body =
    | Str
    | Udata(mt: Option<Ref>, env: Ref, finalized: bool)
    | UpVal(home: Home)
    | CClosure(env: Ref, upvalues: seq<Value>)
    | LClosure(env: Ref, proto: Ref, upvals: seq<Ref>)
    | Table(mt: Option<Ref>, arr: seq<Value>, nodes: seq<Node>, weakBits: Weak, meta: Meta)
    | Thread(gt: Value, stack: seq<Value>, openupval: seq<Ref>)
    | Proto(strings: seq<Ref>, k: seq<Value>, protos: seq<Ref>)

  /** `global_State`, with the bodies and the mark bits of all objects. `sweepgc` is the number
      of elements of `rootgc` before the sweep pointer; `tmudata` runs from the first element
      of the circular list to the last. */
  datatype State = State(
    heap: map<Ref, Body>, mark: map<Ref, Color>, fixed: set<Ref>,
    currentwhite: bool, phase: Phase,
    rootgc: seq<Ref>, sweepgc: nat, strt: seq<seq<Ref>>, sweepstrgc: nat,
    gray: seq<Ref>, grayagain: seq<Ref>, weak: seq<Ref>,
    tmudata: seq<Ref>, uvhead: seq<Ref>,
    mainthread: Ref, running: Ref, registry: Value, mt: seq<Option<Ref>>)

  // ---------- slots ----------

  function ValueRef(v: Value): set<Ref> { if v.Coll? then {v.r} else {} }

  function ValueRefs(vs: seq<Value>): set<Ref> { set v | v in vs && v.Coll? :: v.r }

  function OptRef(o: Option<Ref>): set<Ref> { if o.Some? then {o.value} else {} }

  function Elems(s: seq<Ref>): set<Ref> { set r | r in s }

  function KeyRefs(ns: seq<Node>): set<Ref> { set n | n in ns && n.key.Coll? :: n.key.r }

  /** Keys of the entries that have a value; the key of an empty entry is never followed. */
  function LiveKeyRefs(ns: seq<Node>): set<Ref> {
    set n | n in ns && n.val != Nil && n.key.Coll? :: n.key.r
  }

  function ValRefs(ns: seq<Node>): set<Ref> { set n | n in ns && n.val.Coll? :: n.val.r }

  /** The weakness that a metatable asks for. */
  function Mode(h: map<Ref, Body>, mt: Option<Ref>): Weak {
    if mt.Some? && mt.value in h && h[mt.value].Table? then h[mt.value].meta.weak else Weak(false, false)
  }

  /** The value an upvalue stands for. */
  function UpvalValue(h: map<Ref, Body>, home: Home): Value {
    match home
    case Closed(v) => v
    case Open(t, i) => if t in h && h[t].Thread? && i < |h[t].stack| then h[t].stack[i] else Nil
  }

  /** Every slot of an object, the keys of empty entries included. */
  function AllRefs(h: map<Ref, Body>, b: Body): set<Ref> {
    match b
    case Table(mt, arr, ns, _, _) => OptRef(mt) + ValueRefs(arr) + KeyRefs(ns) + ValRefs(ns)
    case _ => LiveRefs(h, b)
  }

  /** The slots a mutator can follow. */
  function LiveRefs(h: map<Ref, Body>, b: Body): set<Ref> {
    match b
    case Str => {}
    case Udata(mt, env, _) => OptRef(mt) + {env}
    case UpVal(home) => ValueRef(UpvalValue(h, home))
    case CClosure(env, ups) => {env} + ValueRefs(ups)
    case LClosure(env, p, ups) => {env, p} + Elems(ups)
    case Table(mt, arr, ns, _, _) => OptRef(mt) + ValueRefs(arr) + LiveKeyRefs(ns) + ValRefs(ns)
    case Thread(gt, stack, _) => ValueRef(gt) + ValueRefs(stack)
    case Proto(ss, k, ps) => Elems(ss) + ValueRefs(k) + Elems(ps)
  }

  /** The slots that keep their target alive: those of `LiveRefs` without the weak ones. */
  function StrongRefs(h: map<Ref, Body>, b: Body): set<Ref> {
    match b
    case Table(mt, arr, ns, _, _) =>
      var w := Mode(h, mt);
      OptRef(mt) + (if w.values then {} else ValueRefs(arr))
      + (if w.keys then {} else LiveKeyRefs(ns)) + (if w.values then {} else ValRefs(ns))
    case _ => LiveRefs(h, b)
  }

  // ---------- colours ----------

  predicate IsWhite(g: State, o: Ref) { o in g.mark && g.mark[o].White? }

  predicate IsBlack(g: State, o: Ref) { o in g.mark && g.mark[o].Black? }

  predicate IsGray(g: State, o: Ref) { o in g.mark && g.mark[o].Gray? }

  /** An existing object that is gray or black. */
  predicate Marked(g: State, o: Ref) { o in g.mark && !g.mark[o].White? }

  predicate IsDead(g: State, o: Ref) { o in g.mark && g.mark[o] == White(!g.currentwhite) }

  function MakeWhite(g: State, o: Ref): State { g.(mark := g.mark[o := White(g.currentwhite)]) }

  function Whites(g: State): set<Ref> { set r | r in g.mark && g.mark[r].White? }

  // ---------- marking ----------

  /** What marking may change: white objects become gray or black, and the newly gray ones may
      be pushed on the gray list. Everything else stays. */
  ghost predicate MarkedFrom(g: State, r: State) {
    && r == g.(mark := r.mark, gray := r.gray)
    && r.mark.Keys == g.mark.Keys
    && (forall x | x in g.mark && !g.mark[x].White? :: r.mark[x] == g.mark[x])
    && (forall x | x in r.mark && r.mark[x].White? :: r.mark[x] == g.mark[x])
    && (forall x | !IsWhite(g, x) :: multiset(r.gray)[x] == multiset(g.gray)[x])
    && |Whites(r)| + |r.gray| <= |Whites(g)| + |g.gray|
  }

  lemma WhitesShrink(g: State, r: State)
    requires MarkedFrom(g, r)
    ensures Whites(r) <= Whites(g) && |Whites(r)| <= |Whites(g)|
  {
    assert Whites(r) <= Whites(g);
    SubsetSize(Whites(r), Whites(g));
  }

  lemma SubsetSize<T>(a: set<T>, b: set<T>)
    requires a <= b
    ensures |a| <= |b|
  {
    assert b == a + (b - a);
  }

  /** `markobject` */
  function MarkObject(g: State, o: Ref): (r: State)
    ensures MarkedFrom(g, r)
    ensures o in g.heap ==> !IsWhite(r, o)
    decreases |Whites(g)|, 1
  {
    if IsWhite(g, o) && o in g.heap then ReallyMark(g, o) else g
  }

  /** `markvalue` */
  function MarkValue(g: State, v: Value): (r: State)
    ensures MarkedFrom(g, r)
    ensures v.Coll? && v.r in g.heap ==> !IsWhite(r, v.r)
    decreases |Whites(g)|, 2
  {
    if v.Coll? then MarkObject(g, v.r) else g
  }

  /** `reallymarkobject` */
  function ReallyMark(g: State, o: Ref): (r: State)
    requires IsWhite(g, o) && o in g.heap
    ensures MarkedFrom(g, r)
    ensures !IsWhite(r, o)
    decreases |Whites(g)|, 0
  {
    var c := if g.heap[o].Udata? then Black else Gray;
    var g1 := g.(mark := g.mark[o := c]);
    assert Whites(g1) == Whites(g) - {o};
    match g.heap[o]
    case Str => g1
    case Udata(mt, env, _) =>
      var g2 := if mt.Some? then MarkObject(g1, mt.value) else g1;
      WhitesShrink(g1, g2);
      var r := MarkObject(g2, env);
      MarkedTrans(g1, g2, r);
      MarkedSince(g, o, c, r);
      r
    case UpVal(home) =>
      var r := MarkValue(g1, UpvalValue(g.heap, home));
      var d := if home.Closed? then Black else Gray;
      MarkedSince(g, o, c, r);
      MarkedAs(g, r, o, d);
      r.(mark := r.mark[o := d])
    case _ => PushGray(g1, o)
  }

  function PushGray(g: State, o: Ref): State { g.(gray := [o] + g.gray) }

  lemma MarkedTrans(a: State, b: State, c: State)
    requires MarkedFrom(a, b) && MarkedFrom(b, c)
    ensures MarkedFrom(a, c)
  {}

  lemma MarkedSince(g: State, o: Ref, c: Color, r: State)
    requires IsWhite(g, o) && !c.White? && MarkedFrom(g.(mark := g.mark[o := c]), r)
    ensures MarkedFrom(g, r) && r.mark[o] == c
  {
    assert Whites(g.(mark := g.mark[o := c])) == Whites(g) - {o};
  }

  lemma MarkedAs(g: State, r: State, o: Ref, c: Color)
    requires MarkedFrom(g, r) && IsWhite(g, o) && Marked(r, o) && !c.White?
    ensures MarkedFrom(g, r.(mark := r.mark[o := c]))
  {
    assert Whites(r.(mark := r.mark[o := c])) == Whites(r);
  }

  /** Marks the values in order. */
  function MarkAll(g: State, vs: seq<Value>): (r: State)
    ensures MarkedFrom(g, r)
    decreases |vs|
  {
    if vs == [] then g else MarkAll(MarkValue(g, vs[0]), vs[1..])
  }

  // ---------- the tri-colour invariant ----------

  predicate Listable(b: Body) { b.Table? || b.CClosure? || b.LClosure? || b.Thread? || b.Proto? }

  /** Strings, threads and open upvalues are never black. */
  predicate Blackable(b: Body) {
    b.Udata? || (b.UpVal? && b.home.Closed?) || b.CClosure? || b.LClosure? || b.Table? || b.Proto?
  }

  /** Userdata and closed upvalues are never gray. */
  predicate Grayable(b: Body) { !b.Udata? && !(b.UpVal? && b.home.Closed?) }

  /** On how many of the lists `gray`, `grayagain` and `weak` an object is. */
  function ListCount(g: State, r: Ref): nat {
    multiset(g.gray)[r] + multiset(g.grayagain)[r] + multiset(g.weak)[r]
  }

  ghost predicate AllMarked(g: State, rs: set<Ref>) { forall c | c in rs :: Marked(g, c) }

  /** A black object refers to marked objects only; a gray one that is done with this cycle
      refers strongly to marked objects only. */
  ghost predicate Covered(g: State, r: Ref)
    requires r in g.heap && r in g.mark
  {
    AllMarked(g, if g.mark[r].Black? then AllRefs(g.heap, g.heap[r]) else StrongRefs(g.heap, g.heap[r]))
  }

  /** Colour, list membership and kind of an object agree. */
  ghost predicate Sorted(g: State, r: Ref)
    requires r in g.heap && r in g.mark
  {
    && ListCount(g, r) == (if g.mark[r].Gray? && Listable(g.heap[r]) then 1 else 0)
    && (g.mark[r].Black? ==> Blackable(g.heap[r]))
    && (g.mark[r].Gray? ==> Grayable(g.heap[r]))
  }

  /** Every object has a mark, and the three lists hold objects only. */
  ghost predicate ListsOk(g: State) {
    && g.mark.Keys == g.heap.Keys
    && (forall r | r !in g.heap :: ListCount(g, r) == 0)
  }

  /** The tri-colour invariant. Objects in `P` are still to be traversed (again) before the
      sweep, and so are those on the gray list; objects in `X` are being traversed right now. */
  ghost predicate Tri(g: State, P: set<Ref>, X: set<Ref>) {
    && ListsOk(g)
    && (forall r | r in g.heap && r !in X :: Sorted(g, r))
    && (forall r | r in g.heap && r !in X && r !in P && Marked(g, r) && r !in g.gray :: Covered(g, r))
    && AllMarked(g, X)
  }

  /** Every slot that can be followed holds an existing object. */
  ghost predicate NoDangling(g: State) {
    forall r | r in g.heap :: LiveRefs(g.heap, g.heap[r]) <= g.heap.Keys
  }

  lemma {:induction false} MarkObjectTri(g: State, o: Ref, P: set<Ref>, X: set<Ref>)
    requires Tri(g, P, X) && NoDangling(g) && o in g.heap
    ensures Tri(MarkObject(g, o), P, X) && Marked(MarkObject(g, o), o)
    decreases |Whites(g)|, 1
  {
    if IsWhite(g, o) { ReallyMarkTri(g, o, P, X); }
  }

  lemma {:induction false} MarkValueTri(g: State, v: Value, P: set<Ref>, X: set<Ref>)
    requires Tri(g, P, X) && NoDangling(g) && ValueRef(v) <= g.heap.Keys
    ensures Tri(MarkValue(g, v), P, X) && AllMarked(MarkValue(g, v), ValueRef(v))
    decreases |Whites(g)|, 2
  {
    if v.Coll? { MarkObjectTri(g, v.r, P, X); }
  }

  /** A white object gets a colour and enters the set `X`. */
  lemma EnterX(g: State, o: Ref, c: Color, P: set<Ref>, X: set<Ref>)
    requires Tri(g, P, X) && o in g.heap && IsWhite(g, o) && !c.White?
    ensures Tri(g.(mark := g.mark[o := c]), P, X + {o})
  {
    var r := g.(mark := g.mark[o := c]);
    forall x | x in r.heap && x !in X + {o} && x !in P && Marked(r, x) && x !in r.gray
      ensures Covered(r, x)
    {
      assert Covered(g, x);
    }
  }

  /** An object leaves the set `X` once its own part of the invariant holds. */
  lemma LeaveX(g: State, o: Ref, P: set<Ref>, X: set<Ref>)
    requires Tri(g, P, X + {o})
    requires o in g.heap && (o !in X ==> Sorted(g, o))
    requires o !in X && o !in P && Marked(g, o) && o !in g.gray ==> Covered(g, o)
    ensures Tri(g, P, X)
  {}

  /** An object in `X` changes from one mark to another. */
  lemma RecolorX(g: State, o: Ref, c: Color, P: set<Ref>, X: set<Ref>)
    requires Tri(g, P, X) && o in X && Marked(g, o) && !c.White?
    ensures Tri(g.(mark := g.mark[o := c]), P, X)
  {
    var r := g.(mark := g.mark[o := c]);
    forall x | x in r.heap && x !in X && x !in P && Marked(r, x) && x !in r.gray
      ensures Covered(r, x)
    {
      assert Covered(g, x);
    }
  }

  lemma PushGrayTri(g: State, o: Ref, P: set<Ref>, X: set<Ref>)
    requires Tri(g, P, X + {o}) && o in g.heap && IsGray(g, o) && Listable(g.heap[o])
    requires ListCount(g, o) == 0
    ensures Tri(PushGray(g, o), P, X)
  {
    var r := PushGray(g, o);
    assert multiset(r.gray) == multiset{o} + multiset(g.gray);
    forall x | x in r.heap && x !in X && x !in P && Marked(r, x) && x !in r.gray
      ensures Covered(r, x)
    {
      assert Covered(g, x);
    }
  }

  lemma {:induction false} ReallyMarkTri(g: State, o: Ref, P: set<Ref>, X: set<Ref>)
    requires Tri(g, P, X) && NoDangling(g) && o in g.heap && IsWhite(g, o)
    ensures Tri(ReallyMark(g, o), P, X) && Marked(ReallyMark(g, o), o)
    decreases |Whites(g)|, 0
  {
    var b := g.heap[o];
    var c := if b.Udata? then Black else Gray;
    var g1 := g.(mark := g.mark[o := c]);
    assert Whites(g1) == Whites(g) - {o};
    EnterX(g, o, c, P, X);
    if b.Str? {
      LeaveX(g1, o, P, X);
    } else if b.Udata? {
      UdataTri(g, g1, o, P, X);
    } else if b.UpVal? {
      UpvalTri(g, g1, o, P, X);
    } else {
      PushGrayTri(g1, o, P, X);
    }
  }

  lemma UdataTri(g: State, g1: State, o: Ref, P: set<Ref>, X: set<Ref>)
    requires IsWhite(g, o) && o in g.heap && g.heap[o].Udata? && o !in X
    requires g1 == g.(mark := g.mark[o := Black]) && |Whites(g1)| < |Whites(g)|
    requires Tri(g, P, X) && Tri(g1, P, X + {o}) && NoDangling(g1)
    ensures Tri(ReallyMark(g, o), P, X)
    decreases |Whites(g)|, 0, 0
  {
    var b := g.heap[o];
    var g2 := g1;
    if b.mt.Some? {
      MarkObjectTri(g1, b.mt.value, P, X + {o});
      g2 := MarkObject(g1, b.mt.value);
    }
    WhitesShrink(g1, g2);
    MarkObjectTri(g2, b.env, P, X + {o});
    var r := MarkObject(g2, b.env);
    assert r == ReallyMark(g, o);
    UdataDone(g1, g2, r, o, P, X);
    MarkedTrans(g1, g2, r);
    UdataSorted(g, g1, r, o, P, X);
    hide Sorted, Covered, MarkedFrom, MarkObject, ReallyMark;
    LeaveX(r, o, P, X);
  }

  lemma UdataSorted(g: State, g1: State, r: State, o: Ref, P: set<Ref>, X: set<Ref>)
    requires Tri(g, P, X) && o in g.heap && o !in X && g.heap[o].Udata? && IsWhite(g, o)
    requires g1 == g.(mark := g.mark[o := Black]) && MarkedFrom(g1, r) && IsBlack(r, o)
    ensures Sorted(r, o)
  {
    assert Sorted(g, o);
    hide Covered;
  }

  lemma UdataDone(g: State, g2: State, r: State, o: Ref, P: set<Ref>, X: set<Ref>)
    requires Tri(g, P, X + {o}) && Tri(r, P, X + {o}) && MarkedFrom(g, g2) && MarkedFrom(g2, r)
    requires o in g.heap && g.heap[o].Udata? && IsBlack(g, o)
    requires g.heap[o].mt.Some? ==> Marked(g2, g.heap[o].mt.value)
    requires Marked(r, g.heap[o].env)
    ensures IsBlack(r, o) && Covered(r, o)
  {
    MarkedTrans(g, g2, r);
  }

  lemma UpvalTri(g: State, g1: State, o: Ref, P: set<Ref>, X: set<Ref>)
    requires IsWhite(g, o) && o in g.heap && g.heap[o].UpVal? && o !in X
    requires g1 == g.(mark := g.mark[o := Gray]) && |Whites(g1)| < |Whites(g)|
    requires Tri(g, P, X) && Tri(g1, P, X + {o}) && NoDangling(g1)
    ensures Tri(ReallyMark(g, o), P, X)
    decreases |Whites(g)|, 0, 0
  {
    var v := UpvalValue(g.heap, g.heap[o].home);
    MarkValueTri(g1, v, P, X + {o});
    var m := MarkValue(g1, v);
    var d := if g.heap[o].home.Closed? then Black else Gray;
    var r := m.(mark := m.mark[o := d]);
    assert r == ReallyMark(g, o);
    assert ListCount(m, o) == 0 && Marked(m, o) by { UpvalUnlisted(g, g1, m, o, P, X); }
    hide MarkValue, ReallyMark, MarkedFrom, Tri, ListCount;
    UpvalLeave(m, o, d, P, X);
  }

  lemma UpvalLeave(m: State, o: Ref, d: Color, P: set<Ref>, X: set<Ref>)
    requires Tri(m, P, X + {o}) && o in m.heap && m.heap[o].UpVal? && ListCount(m, o) == 0 && Marked(m, o)
    requires d == (if m.heap[o].home.Closed? then Black else Gray)
    requires AllMarked(m, ValueRef(UpvalValue(m.heap, m.heap[o].home)))
    ensures Tri(m.(mark := m.mark[o := d]), P, X)
  {
    var r := m.(mark := m.mark[o := d]);
    RecolorX(m, o, d, P, X + {o});
    assert Sorted(r, o) && Covered(r, o);
    hide Tri, Sorted, Covered;
    LeaveX(r, o, P, X);
  }

  lemma UpvalUnlisted(g: State, g1: State, m: State, o: Ref, P: set<Ref>, X: set<Ref>)
    requires Tri(g, P, X) && o in g.heap && o !in X && g.heap[o].UpVal? && IsWhite(g, o)
    requires g1 == g.(mark := g.mark[o := Gray]) && MarkedFrom(g1, m)
    ensures ListCount(m, o) == 0 && Marked(m, o) && m.heap == g.heap
  {
    assert Sorted(g, o);
    hide Covered;
  }
}
