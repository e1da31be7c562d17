/** Traversal of gray objects: `propagatemark`, `propagateall` and what they traverse. */
module GcMark {
  import opened GcHeap

  function Rev(vs: seq<Value>): seq<Value> { if vs == [] then [] else Rev(vs[1..]) + [vs[0]] }

  /** The values that `traversetable` marks in the hash part, last node first. */
  function NodeOrder(ns: seq<Node>, w: Weak): seq<Value> {
    if ns == [] then [] else
      NodeOrder(ns[1..], w)
      + (if ns[0].val == Nil then [] else
         (if w.keys then [] else [ns[0].key]) + (if w.values then [] else [ns[0].val]))
  }

  /** `removeentry` on an empty entry. */
  function Clean(n: Node): Node {
    if n.val == Nil && n.key.Coll? then Node(DeadKey(n.key.r), Nil) else n
  }

  function CleanNodes(ns: seq<Node>): (r: seq<Node>)
    ensures |r| == |ns| && forall i | 0 <= i < |ns| :: r[i] == Clean(ns[i])
  {
    if ns == [] then [] else [Clean(ns[0])] + CleanNodes(ns[1..])
  }

  function AsValues(rs: seq<Ref>): (vs: seq<Value>)
    ensures |vs| == |rs| && forall i | 0 <= i < |rs| :: vs[i] == Coll(rs[i])
  {
    if rs == [] then [] else [Coll(rs[0])] + AsValues(rs[1..])
  }

  /** The slots of an object other than a table, in the order of its traversal. */
  function Order(b: Body): seq<Value> {
    match b
    case CClosure(env, ups) => [Coll(env)] + ups
    case LClosure(env, p, ups) => [Coll(env), Coll(p)] + AsValues(ups)
    case Thread(gt, stack, _) => [gt] + stack
    case Proto(ss, k, ps) => AsValues(ss) + k + AsValues(ps)
    case _ => []
  }

  /** `traversetable`; the table is weak when `w` has a flag set. */
  function TraverseTable(g: State, o: Ref): State
    requires o in g.heap && g.heap[o].Table?
  {
    var b := g.heap[o];
    var w := Mode(g.heap, b.mt);
    var g1 := TraverseHead(g, o, w);
    if w.keys && w.values then g1 else TraverseParts(g1, o, w)
  }

  /** `propagatemark` */
  function PropagateMark(g: State): State
    requires g.gray != [] && g.gray[0] in g.heap
  {
    var o := g.gray[0];
    var b := g.heap[o];
    var g1 := g.(gray := g.gray[1..], mark := g.mark[o := Black]);
    if b.Table? then
      var r := TraverseTable(g1, o);
      var w := Mode(g.heap, b.mt);
      if w.keys || w.values then r.(mark := r.mark[o := Gray]) else r
    else if b.Thread? then
      MarkAll(g1.(grayagain := [o] + g.grayagain, mark := g.mark[o := Gray]), Order(b))
    else
      MarkAll(g1, Order(b))
  }

  // ---------- what traversal marks ----------

  lemma {:induction false} RevRefs(vs: seq<Value>)
    ensures ValueRefs(Rev(vs)) == ValueRefs(vs)
  {
    if vs != [] {
      RevRefs(vs[1..]);
      assert vs == [vs[0]] + vs[1..];
      assert ValueRefs(vs) == ValueRef(vs[0]) + ValueRefs(vs[1..]);
      assert ValueRefs(Rev(vs)) == ValueRefs(Rev(vs[1..])) + ValueRef(vs[0]);
    }
  }

  function NodeStrong(ns: seq<Node>, w: Weak): set<Ref> {
    (if w.keys then {} else LiveKeyRefs(ns)) + (if w.values then {} else ValRefs(ns))
  }

  lemma {:induction false} NodeOrderRefs(ns: seq<Node>, w: Weak)
    ensures ValueRefs(NodeOrder(ns, w)) == NodeStrong(ns, w)
  {
    if ns != [] {
      NodeOrderRefs(ns[1..], w);
      var n := ns[0];
      NodeStrongCons(ns, w);
      var last := if n.val == Nil then [] else
        (if w.keys then [] else [n.key]) + (if w.values then [] else [n.val]);
      NodeStrongOne(n, w, last);
      ConcatRefs(NodeOrder(ns[1..], w), last);
      hide ValueRefs, NodeStrong;
    } else {
      assert ValueRefs([]) == {} && NodeStrong([], w) == {};
    }
  }

  lemma NodeStrongCons(ns: seq<Node>, w: Weak)
    requires ns != []
    ensures NodeStrong(ns, w) == NodeStrong([ns[0]], w) + NodeStrong(ns[1..], w)
  {
    assert ns == [ns[0]] + ns[1..];
    assert LiveKeyRefs(ns) == LiveKeyRefs([ns[0]]) + LiveKeyRefs(ns[1..]);
    assert ValRefs(ns) == ValRefs([ns[0]]) + ValRefs(ns[1..]);
  }

  lemma NodeStrongOne(n: Node, w: Weak, last: seq<Value>)
    requires last == if n.val == Nil then [] else
      (if w.keys then [] else [n.key]) + (if w.values then [] else [n.val])
    ensures ValueRefs(last) == NodeStrong([n], w)
  {
    assert LiveKeyRefs([n]) == (if n.val == Nil then {} else ValueRef(n.key));
    assert ValRefs([n]) == ValueRef(n.val);
    assert ValueRefs(last) == (if n.val == Nil then {} else
      (if w.keys then {} else ValueRef(n.key)) + (if w.values then {} else ValueRef(n.val)));
  }

  lemma AsValuesRefs(rs: seq<Ref>)
    ensures ValueRefs(AsValues(rs)) == Elems(rs)
  {
    forall r | r in Elems(rs) ensures r in ValueRefs(AsValues(rs)) {
      var i :| 0 <= i < |rs| && rs[i] == r;
      assert AsValues(rs)[i] == Coll(r);
    }
  }

  lemma ConcatRefs(a: seq<Value>, b: seq<Value>)
    ensures ValueRefs(a + b) == ValueRefs(a) + ValueRefs(b)
  {}

  lemma OrderRefs(h: map<Ref, Body>, b: Body)
    requires Listable(b) && !b.Table?
    ensures ValueRefs(Order(b)) == StrongRefs(h, b) == AllRefs(h, b)
  {
    match b
    case CClosure(env, ups) =>
      ConcatRefs([Coll(env)], ups);
    case LClosure(env, p, ups) =>
      ConcatRefs([Coll(env), Coll(p)], AsValues(ups));
      AsValuesRefs(ups);
      assert ValueRefs([Coll(env), Coll(p)]) == {env, p} by {
        assert Coll(env) in [Coll(env), Coll(p)] && Coll(p) in [Coll(env), Coll(p)];
      }
    case Thread(gt, stack, _) =>
      ConcatRefs([gt], stack);
    case Proto(ss, k, ps) =>
      ConcatRefs(AsValues(ss) + k, AsValues(ps));
      ConcatRefs(AsValues(ss), k);
      AsValuesRefs(ss);
      AsValuesRefs(ps);
  }

  lemma {:induction false} MarkAllTri(g: State, vs: seq<Value>, P: set<Ref>, X: set<Ref>)
    requires Tri(g, P, X) && NoDangling(g) && ValueRefs(vs) <= g.heap.Keys
    ensures Tri(MarkAll(g, vs), P, X) && AllMarked(MarkAll(g, vs), ValueRefs(vs))
    decreases |vs|
  {
    if vs != [] {
      assert vs == [vs[0]] + vs[1..];
      ConcatRefs([vs[0]], vs[1..]);
      assert ValueRefs([vs[0]]) == ValueRef(vs[0]);
      MarkValueTri(g, vs[0], P, X);
      MarkAllTri(MarkValue(g, vs[0]), vs[1..], P, X);
    }
  }

  // ---------- tidying of tables ----------

  ghost predicate TidyNodes(a: seq<Node>, b: seq<Node>) {
    |b| == |a| && forall i | 0 <= i < |a| :: b[i] == a[i] || b[i] == Clean(a[i])
  }

  /** The mark phase leaves a body as it is, except that it may tag the keys of empty table
      entries as dead, record the weakness of a table, and note that a userdata needs no
      (other) finalization. */
  ghost predicate Tidied(a: Body, b: Body) {
    || b == a
    || (a.Table? && b.Table? && TidyNodes(a.nodes, b.nodes)
        && b == a.(nodes := b.nodes, weakBits := b.weakBits))
    || (a.Udata? && b.Udata? && b == a.(finalized := b.finalized))
  }

  ghost predicate TidiedHeap(h: map<Ref, Body>, k: map<Ref, Body>) {
    h.Keys == k.Keys && forall r | r in h :: Tidied(h[r], k[r])
  }

  lemma TidyRefs(a: seq<Node>, b: seq<Node>)
    requires TidyNodes(a, b)
    ensures LiveKeyRefs(b) == LiveKeyRefs(a) && ValRefs(b) == ValRefs(a) && KeyRefs(b) <= KeyRefs(a)
  {
    forall r | r in LiveKeyRefs(a) ensures r in LiveKeyRefs(b) {
      var n :| n in a && n.val != Nil && n.key.Coll? && n.key.r == r;
      var i :| 0 <= i < |a| && a[i] == n;
      assert b[i] == n;
    }
    forall r | r in ValRefs(a) ensures r in ValRefs(b) {
      var n :| n in a && n.val.Coll? && n.val.r == r;
      var i :| 0 <= i < |a| && a[i] == n;
      assert b[i] == n;
    }
  }

  /** Tidying changes no slot that counts. */
  lemma TidiedRefs(h: map<Ref, Body>, k: map<Ref, Body>, r: Ref)
    requires TidiedHeap(h, k) && r in h
    ensures LiveRefs(k, k[r]) == LiveRefs(h, h[r]) && StrongRefs(k, k[r]) == StrongRefs(h, h[r])
    ensures AllRefs(k, k[r]) <= AllRefs(h, h[r])
  {
    if h[r].Table? {
      TidyRefs(h[r].nodes, if k[r] == h[r] then h[r].nodes else k[r].nodes);
      var mt := h[r].mt;
      if mt.Some? && mt.value in h {
        assert Tidied(h[mt.value], k[mt.value]);
      }
    } else if h[r].UpVal? && h[r].home.Open? {
      var t := h[r].home.thread;
      if t in h { assert Tidied(h[t], k[t]); }
    }
  }

  lemma TidiedTrans(a: map<Ref, Body>, b: map<Ref, Body>, c: map<Ref, Body>)
    requires TidiedHeap(a, b) && TidiedHeap(b, c)
    ensures TidiedHeap(a, c)
  {
    forall r | r in a ensures Tidied(a[r], c[r]) {
      assert Tidied(a[r], b[r]) && Tidied(b[r], c[r]);
    }
  }

  /** The invariant does not depend on what tidying changes. */
  lemma TidyTri(g: State, r: State, P: set<Ref>, X: set<Ref>)
    requires Tri(g, P, X) && NoDangling(g)
    requires r == g.(heap := r.heap) && TidiedHeap(g.heap, r.heap)
    ensures Tri(r, P, X) && NoDangling(r)
  {
    forall x | x in g.heap
      ensures LiveRefs(r.heap, r.heap[x]) == LiveRefs(g.heap, g.heap[x])
      ensures StrongRefs(r.heap, r.heap[x]) == StrongRefs(g.heap, g.heap[x])
      ensures AllRefs(r.heap, r.heap[x]) <= AllRefs(g.heap, g.heap[x])
      ensures Tidied(g.heap[x], r.heap[x])
    {
      TidiedRefs(g.heap, r.heap, x);
    }
    forall x | x in r.heap && x !in X && x !in P && Marked(r, x) && x !in r.gray
      ensures Covered(r, x)
    {
      assert Covered(g, x);
    }
    forall x | x in r.heap && x !in X ensures Sorted(r, x) {
      assert Sorted(g, x);
    }
  }

  lemma CleanTidies(ns: seq<Node>)
    ensures TidyNodes(ns, CleanNodes(ns)) && KeyRefs(CleanNodes(ns)) <= LiveKeyRefs(ns)
  {}

  // ---------- propagation keeps the invariant ----------

  /** What a propagation step may change besides marks. */
  ghost predicate PropagatedFrom(g: State, r: State) {
    && r == g.(heap := r.heap, mark := r.mark, gray := r.gray, grayagain := r.grayagain, weak := r.weak)
    && TidiedHeap(g.heap, r.heap)
    && r.mark.Keys == g.mark.Keys
    && (forall x | Marked(g, x) :: Marked(r, x))
    && (forall x | x in r.mark && r.mark[x].White? :: r.mark[x] == g.mark[x])
    && |Whites(r)| + |r.gray| <= |Whites(g)| + |g.gray|
  }

  lemma PropagatedTrans(a: State, b: State, c: State)
    requires PropagatedFrom(a, b) && PropagatedFrom(b, c)
    ensures PropagatedFrom(a, c)
  {
    TidiedTrans(a.heap, b.heap, c.heap);
  }

  lemma MarkedIsPropagated(g: State, r: State)
    requires MarkedFrom(g, r)
    ensures PropagatedFrom(g, r)
  {}

  function Pop(g: State, c: Color): State
    requires g.gray != []
  {
    g.(gray := g.gray[1..], mark := g.mark[g.gray[0] := c])
  }

  /** The first gray object leaves the list and enters the set of objects being traversed. */
  lemma PopTri(g: State, c: Color, P: set<Ref>)
    requires Tri(g, P, {}) && g.gray != [] && !c.White?
    ensures g.gray[0] in g.heap && IsGray(g, g.gray[0]) && Listable(g.heap[g.gray[0]])
    ensures Tri(Pop(g, c), P, {g.gray[0]}) && ListCount(Pop(g, c), g.gray[0]) == 0
    ensures |Whites(Pop(g, c))| + |Pop(g, c).gray| < |Whites(g)| + |g.gray|
    ensures forall x | Marked(g, x) :: Marked(Pop(g, c), x)
  {
    var o := g.gray[0];
    var r := Pop(g, c);
    assert g.gray == [o] + r.gray;
    assert multiset(g.gray) == multiset{o} + multiset(r.gray);
    assert ListCount(g, o) >= 1;
    assert o in g.heap;
    assert Sorted(g, o);
    assert Whites(r) == Whites(g);
    forall x | x in r.heap && x !in {o} && x !in P && Marked(r, x) && x !in r.gray
      ensures Covered(r, x)
    {
      assert Covered(g, x);
    }
    forall x | x in r.heap && x !in {o} ensures Sorted(r, x) {
      assert Sorted(g, x);
    }
  }

  /** An object in `X` is linked to the weak list or to the grayagain list. */
  lemma RelistTri(g: State, r: State, o: Ref, P: set<Ref>)
    requires Tri(g, P, {o}) && o in g.heap
    requires r == g.(weak := r.weak, grayagain := r.grayagain)
    requires (r.weak == g.weak || r.weak == [o] + g.weak)
    requires (r.grayagain == g.grayagain || r.grayagain == [o] + g.grayagain)
    ensures Tri(r, P, {o})
    ensures ListCount(r, o) ==
      ListCount(g, o) + (if r.weak == g.weak then 0 else 1) + (if r.grayagain == g.grayagain then 0 else 1)
  {
    assert multiset([o] + g.weak) == multiset{o} + multiset(g.weak);
    assert multiset([o] + g.grayagain) == multiset{o} + multiset(g.grayagain);
    forall x | x in r.heap && x !in {o} ensures Sorted(r, x) { assert Sorted(g, x); }
    forall x | x in r.heap && x !in {o} && x !in P && Marked(r, x) && x !in r.gray
      ensures Covered(r, x)
    {
      assert Covered(g, x);
    }
  }

  lemma SlotsExist(g: State, o: Ref)
    requires NoDangling(g) && o in g.heap
    ensures LiveRefs(g.heap, g.heap[o]) <= g.heap.Keys
  {}

  /** A stage of the traversal of `o`, begun in `g` and now in `r`. */
  ghost predicate Stage(g: State, r: State, o: Ref, P: set<Ref>) {
    && Tri(r, P, {o}) && NoDangling(r) && PropagatedFrom(g, r)
    && o in g.heap && o in r.heap && o in g.mark && o in r.mark && r.mark[o] == g.mark[o]
    && r.grayagain == g.grayagain && r.heap == g.heap[o := r.heap[o]]
  }

  lemma StageTrans(a: State, b: State, c: State, o: Ref, P: set<Ref>)
    requires Stage(a, b, o, P) && Stage(b, c, o, P)
    ensures Stage(a, c, o, P)
  {
    PropagatedTrans(a, b, c);
  }

  lemma StageMark(g: State, x: Ref, o: Ref, P: set<Ref>)
    requires Tri(g, P, {o}) && NoDangling(g) && o in g.heap && x in g.heap
    ensures var r := MarkObject(g, x);
      Stage(g, r, o, P) && Marked(r, x) && ListCount(r, o) == ListCount(g, o)
  {
    hide Tri, NoDangling, MarkObject;
    MarkObjectTri(g, x, P, {o});
    MarkedIsPropagated(g, MarkObject(g, x));
    SameHeapNoDangling(g, MarkObject(g, x));
    assert Marked(g, o) by { MarkedX(g, o, P); }
  }

  lemma StageMarkAll(g: State, vs: seq<Value>, o: Ref, P: set<Ref>)
    requires Tri(g, P, {o}) && NoDangling(g) && o in g.heap && ValueRefs(vs) <= g.heap.Keys
    ensures var r := MarkAll(g, vs);
      Stage(g, r, o, P) && AllMarked(r, ValueRefs(vs)) && ListCount(r, o) == ListCount(g, o)
  {
    hide Tri, NoDangling, MarkAll, ValueRefs;
    MarkAllTri(g, vs, P, {o});
    MarkedIsPropagated(g, MarkAll(g, vs));
    SameHeapNoDangling(g, MarkAll(g, vs));
    assert Marked(g, o) by { MarkedX(g, o, P); }
  }

  lemma MarkedX(g: State, o: Ref, P: set<Ref>)
    requires Tri(g, P, {o})
    ensures Marked(g, o)
  {}

  lemma StageTidy(g: State, b: Body, o: Ref, P: set<Ref>)
    requires Tri(g, P, {o}) && NoDangling(g) && o in g.heap && Tidied(g.heap[o], b)
    ensures Stage(g, g.(heap := g.heap[o := b]), o, P)
  {
    TidyTri(g, g.(heap := g.heap[o := b]), P, {o});
  }

  lemma StageWeak(g: State, o: Ref, P: set<Ref>)
    requires Tri(g, P, {o}) && NoDangling(g) && o in g.heap
    ensures var r := g.(weak := [o] + g.weak);
      Stage(g, r, o, P) && ListCount(r, o) == ListCount(g, o) + 1
  {
    RelistTri(g, g.(weak := [o] + g.weak), o, P);
  }

  /** The array part and the hash part of `traversetable`. */
  function TraverseParts(g: State, o: Ref, w: Weak): State
    requires o in g.heap && g.heap[o].Table?
  {
    var b := g.heap[o];
    var g1 := if w.values then g else MarkAll(g, Rev(b.arr));
    var g2 := MarkAll(g1, NodeOrder(b.nodes, w));
    g2.(heap := g2.heap[o := b.(nodes := CleanNodes(b.nodes))])
  }

  lemma TraversePartsTri(g: State, o: Ref, w: Weak, P: set<Ref>)
    requires Tri(g, P, {o}) && NoDangling(g) && o in g.heap && g.heap[o].Table?
    ensures Stage(g, TraverseParts(g, o, w), o, P)
    ensures ListCount(TraverseParts(g, o, w), o) == ListCount(g, o)
    ensures TraverseParts(g, o, w).weak == g.weak
    ensures TraverseParts(g, o, w).heap[o] == g.heap[o].(nodes := CleanNodes(g.heap[o].nodes))
    ensures !w.values ==> AllMarked(TraverseParts(g, o, w), ValueRefs(g.heap[o].arr))
    ensures AllMarked(TraverseParts(g, o, w), NodeStrong(g.heap[o].nodes, w))
  {
    hide Tri, NoDangling, PropagatedFrom, NodeStrong, MarkAll, Tidied;
    var b := g.heap[o];
    TraversePartsExist(g, o, w);
    var vs := if w.values then [] else Rev(b.arr);
    var g1 := MarkAll(g, vs);
    StageMarkAll(g, vs, o, P);
    assert g1 == (if w.values then g else MarkAll(g, Rev(b.arr))) by { MarkNone(g); }
    var ns := NodeOrder(b.nodes, w);
    var g2 := MarkAll(g1, ns);
    StageMarkAll(g1, ns, o, P);
    StageTrans(g, g1, g2, o, P);
    var b' := b.(nodes := CleanNodes(b.nodes));
    assert Tidied(b, b') by { CleanTidied(b); }
    StageTidy(g2, b', o, P);
    StageTrans(g, g2, TraverseParts(g, o, w), o, P);
  }

  lemma MarkNone(g: State)
    ensures MarkAll(g, []) == g
  {}

  lemma CleanTidied(b: Body)
    requires b.Table?
    ensures Tidied(b, b.(nodes := CleanNodes(b.nodes)))
  {
    CleanTidies(b.nodes);
  }

  lemma TraversePartsExist(g: State, o: Ref, w: Weak)
    requires NoDangling(g) && o in g.heap && g.heap[o].Table?
    ensures ValueRefs(Rev(g.heap[o].arr)) == ValueRefs(g.heap[o].arr) <= g.heap.Keys
    ensures ValueRefs(NodeOrder(g.heap[o].nodes, w)) == NodeStrong(g.heap[o].nodes, w) <= g.heap.Keys
    ensures ValueRefs([]) == {}
  {
    RevRefs(g.heap[o].arr);
    NodeOrderRefs(g.heap[o].nodes, w);
    SlotsExist(g, o);
  }

  /** The part of `traversetable` before the slots: the metatable, and the list of weak tables. */
  function TraverseHead(g: State, o: Ref, w: Weak): State
    requires o in g.heap && g.heap[o].Table?
  {
    var b := g.heap[o];
    var g1 := if b.mt.Some? then MarkObject(g, b.mt.value) else g;
    if w.keys || w.values
    then g1.(heap := g.heap[o := b.(weakBits := w)], weak := [o] + g1.weak) else g1
  }

  lemma StageRefl(g: State, o: Ref, P: set<Ref>)
    requires Tri(g, P, {o}) && NoDangling(g) && o in g.heap
    ensures Stage(g, g, o, P)
  {}

  lemma TraverseHeadTri(g: State, o: Ref, w: Weak, P: set<Ref>)
    requires Tri(g, P, {o}) && NoDangling(g) && o in g.heap && g.heap[o].Table?
    ensures Stage(g, TraverseHead(g, o, w), o, P)
    ensures AllMarked(TraverseHead(g, o, w), OptRef(g.heap[o].mt))
    ensures TraverseHead(g, o, w).weak == (if w.keys || w.values then [o] + g.weak else g.weak)
    ensures ListCount(TraverseHead(g, o, w), o) == ListCount(g, o) + (if w.keys || w.values then 1 else 0)
    ensures TraverseHead(g, o, w).heap[o]
         == (if w.keys || w.values then g.heap[o].(weakBits := w) else g.heap[o])
  {
    hide Tri, NoDangling, PropagatedFrom;
    var b := g.heap[o];
    SlotsExist(g, o);
    var g1 := if b.mt.Some? then MarkObject(g, b.mt.value) else g;
    if b.mt.Some? { StageMark(g, b.mt.value, o, P); } else { StageRefl(g, o, P); }
    if w.keys || w.values {
      StageTidy(g1, b.(weakBits := w), o, P);
      var g2 := g1.(heap := g.heap[o := b.(weakBits := w)]);
      StageWeak(g2, o, P);
      StageTrans(g1, g2, TraverseHead(g, o, w), o, P);
      StageTrans(g, g1, TraverseHead(g, o, w), o, P);
      assert ListCount(g2, o) == ListCount(g1, o) == ListCount(g, o);
    }
  }

  /** Traversal marks what a table refers to strongly, and all it refers to if it is not weak. */
  lemma TraverseTableTri(g: State, o: Ref, w: Weak, P: set<Ref>)
    requires Tri(g, P, {o}) && NoDangling(g) && o in g.heap && g.heap[o].Table?
    requires w == Mode(g.heap, g.heap[o].mt)
    ensures Stage(g, TraverseTable(g, o), o, P)
    ensures TraverseTable(g, o).weak == (if w.keys || w.values then [o] + g.weak else g.weak)
    ensures ListCount(TraverseTable(g, o), o) == ListCount(g, o) + (if w.keys || w.values then 1 else 0)
    ensures TraverseTable(g, o).heap[o].Table?
    ensures w.keys || w.values ==> TraverseTable(g, o).heap[o].weakBits == w
    ensures AllMarked(TraverseTable(g, o), StrongRefs(g.heap, g.heap[o]))
    ensures !w.keys && !w.values ==>
      AllMarked(TraverseTable(g, o), AllRefs(TraverseTable(g, o).heap, TraverseTable(g, o).heap[o]))
  {
    hide Tri, NoDangling, TraverseHead, TraverseParts, PropagatedFrom, StrongRefs, AllRefs, LiveRefs, Mode, NodeStrong,
        ValueRefs;
    var b := g.heap[o];
    var g1 := TraverseHead(g, o, w);
    var r := TraverseTable(g, o);
    TraverseHeadTri(g, o, w, P);
    TableStrong(g, o, w);
    if !(w.keys && w.values) {
      TraversePartsTri(g1, o, w, P);
      StageTrans(g, g1, r, o, P);
      assert PropagatedFrom(g1, r);
      MarkedStays(g1, r, OptRef(b.mt));
      TableAll(g, r, o, w);
    }
  }

  lemma TableStrong(g: State, o: Ref, w: Weak)
    requires o in g.heap && g.heap[o].Table? && w == Mode(g.heap, g.heap[o].mt)
    ensures StrongRefs(g.heap, g.heap[o])
      == OptRef(g.heap[o].mt) + (if w.values then {} else ValueRefs(g.heap[o].arr)) + NodeStrong(g.heap[o].nodes, w)
    ensures w.keys && w.values ==> NodeStrong(g.heap[o].nodes, w) == {}
  {}

  /** The slots of a table that is not weak, after its empty entries have been removed. */
  lemma TableAll(g: State, r: State, o: Ref, w: Weak)
    requires o in g.heap && g.heap[o].Table? && o in r.heap && r.heap[o].Table? && r.heap[o].mt == g.heap[o].mt
    requires r.heap[o].arr == g.heap[o].arr && r.heap[o].nodes == CleanNodes(g.heap[o].nodes)
    ensures !w.keys && !w.values ==>
      AllRefs(r.heap, r.heap[o]) <= OptRef(g.heap[o].mt) + ValueRefs(g.heap[o].arr) + NodeStrong(g.heap[o].nodes, w)
  {
    CleanTidies(g.heap[o].nodes);
    TidyRefs(g.heap[o].nodes, CleanNodes(g.heap[o].nodes));
  }

  lemma MarkedStays(g: State, r: State, rs: set<Ref>)
    requires PropagatedFrom(g, r) && AllMarked(g, rs)
    ensures AllMarked(r, rs)
  {}

  /** A traversed object takes its final colour. */
  lemma FinishTri(g: State, r: State, o: Ref, c: Color, P: set<Ref>)
    requires Stage(g, r, o, P) && !c.White? && Marked(r, o)
    requires ListCount(r, o) == (if c.Gray? && Listable(r.heap[o]) then 1 else 0)
    requires (c.Black? ==> Blackable(r.heap[o])) && (c.Gray? ==> Grayable(r.heap[o]))
    requires AllMarked(r, if c.Black? then AllRefs(r.heap, r.heap[o]) else StrongRefs(r.heap, r.heap[o]))
    ensures Tri(r.(mark := r.mark[o := c]), P, {}) && NoDangling(r.(mark := r.mark[o := c]))
    ensures PropagatedFrom(g, r.(mark := r.mark[o := c]))
  {
    var t := r.(mark := r.mark[o := c]);
    RecolorX(r, o, c, P, {o});
    assert Covered(t, o) by { hide Tri, NoDangling, PropagatedFrom, Stage, AllRefs, StrongRefs; }
    assert Sorted(t, o) by { hide Tri, NoDangling, PropagatedFrom, Stage, Covered; }
    LeaveFinished(t, o, P);
    SameHeapNoDangling(r, t);
    Repainted(g, r, o, c);
  }

  lemma LeaveFinished(t: State, o: Ref, P: set<Ref>)
    requires Tri(t, P, {o}) && o in t.heap && o in t.mark && Sorted(t, o) && Covered(t, o)
    ensures Tri(t, P, {})
  {
    hide Sorted, Covered;
    LeaveX(t, o, P, {});
  }

  lemma Repainted(g: State, r: State, o: Ref, c: Color)
    requires PropagatedFrom(g, r) && Marked(r, o) && !c.White?
    ensures PropagatedFrom(g, r.(mark := r.mark[o := c]))
  {
    assert Whites(r.(mark := r.mark[o := c])) == Whites(r);
  }

  lemma SameHeapNoDangling(g: State, r: State)
    requires NoDangling(g) && r.heap == g.heap
    ensures NoDangling(r)
  {}

  /** What one `propagatemark` does, besides marking. */
  ghost predicate Propagated(g: State, r: State, P: set<Ref>)
    requires g.gray != [] && g.gray[0] in g.heap
  {
    var o := g.gray[0];
    && Tri(r, P, {}) && NoDangling(r) && PropagatedFrom(g, r)
    && |Whites(r)| + |r.gray| < |Whites(g)| + |g.gray|
    && r.heap == g.heap[o := r.heap[o]]
    && r.grayagain == (if g.heap[o].Thread? then [o] + g.grayagain else g.grayagain)
    && (r.weak == g.weak || (r.weak == [o] + g.weak && WeakListed(r, o)))
  }

  /** A listed weak table whose recorded weakness is the one its metatable asks for now. */
  ghost predicate WeakListed(g: State, o: Ref) {
    && o in g.heap && g.heap[o].Table?
    && g.heap[o].weakBits == Mode(g.heap, g.heap[o].mt)
    && (g.heap[o].weakBits.keys || g.heap[o].weakBits.values)
  }

  lemma PropagateTri(g: State, P: set<Ref>)
    requires Tri(g, P, {}) && NoDangling(g) && g.gray != []
    ensures g.gray[0] in g.heap && Propagated(g, PropagateMark(g), P)
  {
    var o := g.gray[0];
    PopTri(g, Black, P);
    if g.heap[o].Table? { PropagateTableTri(g, P); } else { PropagateOtherTri(g, P); }
  }

  /** A propagation step, counted from before its object was popped. */
  lemma PropagatePopped(g: State, c: Color, p: State, r: State)
    requires g.gray != [] && Marked(g, g.gray[0]) && !c.White?
    requires p == Pop(g, c).(grayagain := p.grayagain)
    requires PropagatedFrom(p, r)
    ensures PropagatedFrom(g, r) && |Whites(r)| + |r.gray| < |Whites(g)| + |g.gray|
  {
    assert Whites(p) == Whites(g);
  }

  lemma PropagateTableDef(g: State, w: Weak)
    requires g.gray != [] && g.gray[0] in g.heap && g.heap[g.gray[0]].Table?
    requires w == Mode(g.heap, g.heap[g.gray[0]].mt)
    requires TraverseTable(Pop(g, Black), g.gray[0]).mark[g.gray[0] := Black]
        == TraverseTable(Pop(g, Black), g.gray[0]).mark
    ensures var t := TraverseTable(Pop(g, Black), g.gray[0]);
      PropagateMark(g) == t.(mark := t.mark[g.gray[0] := if w.keys || w.values then Gray else Black])
  {
    hide TraverseTable;
  }

  lemma PropagateTableTri(g: State, P: set<Ref>)
    requires Tri(g, P, {}) && NoDangling(g) && g.gray != []
    requires g.gray[0] in g.heap && g.heap[g.gray[0]].Table?
    ensures Propagated(g, PropagateMark(g), P)
  {
    hide Tri, NoDangling, TraverseTable, PropagatedFrom, StrongRefs, AllRefs, LiveRefs, Mode, PropagateMark;
    var o := g.gray[0];
    PopTri(g, Black, P);
    var p := Pop(g, Black);
    SameHeapNoDangling(g, p);
    var w := Mode(g.heap, g.heap[o].mt);
    TraverseTableTri(p, o, w, P);
    var t := TraverseTable(p, o);
    assert Stage(p, t, o, P);
    var c := if w.keys || w.values then Gray else Black;
    SameMark(t, o, Black);
    PropagateTableDef(g, w);
    StageTidied(p, t, o, P);
    TidiedRefs(g.heap, t.heap, o);
    FinishTri(p, t, o, c, P);
    PropagatePopped(g, Black, p, PropagateMark(g));
    ModeTidied(g.heap, t.heap, g.heap[o].mt);
  }

  lemma StageTidied(g: State, r: State, o: Ref, P: set<Ref>)
    requires Stage(g, r, o, P) && g.heap[o].Table? && r.heap[o].Table?
    ensures TidiedHeap(g.heap, r.heap) && r.heap[o].mt == g.heap[o].mt
  {
    assert Tidied(g.heap[o], r.heap[o]);
  }

  lemma ModeTidied(h: map<Ref, Body>, k: map<Ref, Body>, mt: Option<Ref>)
    requires TidiedHeap(h, k)
    ensures Mode(k, mt) == Mode(h, mt)
  {
    if mt.Some? && mt.value in h { assert Tidied(h[mt.value], k[mt.value]); }
  }

  function PopOther(g: State, c: Color): State
    requires g.gray != []
  {
    var p := Pop(g, c);
    if c.Gray? then p.(grayagain := [g.gray[0]] + g.grayagain) else p
  }

  lemma PropagateOtherDef(g: State)
    requires g.gray != [] && g.gray[0] in g.heap && !g.heap[g.gray[0]].Table?
    ensures var b := g.heap[g.gray[0]];
      PropagateMark(g) == MarkAll(PopOther(g, if b.Thread? then Gray else Black), Order(b))
  {
    hide MarkAll;
  }

  lemma PopOtherTri(g: State, c: Color, P: set<Ref>)
    requires Tri(g, P, {}) && NoDangling(g) && g.gray != [] && !c.White?
    ensures g.gray[0] in g.heap && IsGray(g, g.gray[0]) && Listable(g.heap[g.gray[0]])
    ensures Tri(PopOther(g, c), P, {g.gray[0]}) && NoDangling(PopOther(g, c))
    ensures ListCount(PopOther(g, c), g.gray[0]) == (if c.Gray? then 1 else 0)
  {
    hide Tri, NoDangling;
    PopTri(g, c, P);
    var p := Pop(g, c);
    SameHeapNoDangling(g, p);
    if c.Gray? {
      RelistTri(p, PopOther(g, c), g.gray[0], P);
      SameHeapNoDangling(p, PopOther(g, c));
    }
  }

  lemma PropagateOtherTri(g: State, P: set<Ref>)
    requires Tri(g, P, {}) && NoDangling(g) && g.gray != []
    requires g.gray[0] in g.heap && !g.heap[g.gray[0]].Table?
    ensures Propagated(g, PropagateMark(g), P)
  {
    hide Tri, NoDangling, PropagatedFrom, StrongRefs, AllRefs, LiveRefs, PropagateMark;
    var o := g.gray[0];
    var b := g.heap[o];
    var c := if b.Thread? then Gray else Black;
    PopOtherTri(g, c, P);
    var q := PopOther(g, c);
    OrderRefs(g.heap, b);
    OrderExists(g, o);
    PropagateOtherDef(g);
    var r := PropagateMark(g);
    StageMarkAll(q, Order(b), o, P);
    assert Stage(q, r, o, P) && ListCount(r, o) == ListCount(q, o);
    assert r == MarkAll(q, Order(b)) && r.heap == g.heap && r.weak == g.weak;
    SameMark(r, o, c);
    hide Stage, MarkAll, PopOther, Order;
    FinishTri(q, r, o, c, P);
    PropagatePopped(g, c, q, r);
  }

  lemma SameMark(g: State, o: Ref, c: Color)
    requires o in g.mark && g.mark[o] == c
    ensures g.(mark := g.mark[o := c]) == g
  {
    assert g.mark[o := c] == g.mark;
  }

  lemma OrderExists(g: State, o: Ref)
    requires NoDangling(g) && o in g.heap && Listable(g.heap[o]) && !g.heap[o].Table?
    ensures ValueRefs(Order(g.heap[o])) <= g.heap.Keys
  {
    OrderRefs(g.heap, g.heap[o]);
    SlotsExist(g, o);
  }
}
