/** The end of the mark phase: `atomic` and what it calls. */
module GcAtomic {
  import opened GcHeap
  import opened GcMark

  /** The lists are sane enough for gray objects to be propagated. */
  ghost predicate Markable(g: State) { Tri(g, g.heap.Keys, {}) && NoDangling(g) }

  lemma TriWeaken(g: State, P: set<Ref>, Q: set<Ref>)
    requires Tri(g, P, {})
    requires forall x | x in P && x in g.heap && Marked(g, x) && x !in g.gray && x !in Q :: Covered(g, x)
    ensures Tri(g, Q, {})
  {}

  lemma TriMarkable(g: State, P: set<Ref>)
    requires Tri(g, P, {}) && NoDangling(g)
    ensures Markable(g)
  {}

  /** `propagateall` */
  function PropagateAll(g: State): State
    requires Markable(g)
    decreases |Whites(g)| + |g.gray|
  {
    if g.gray == [] then g else
      PropagateTri(g, g.heap.Keys);
      TriMarkable(PropagateMark(g), g.heap.Keys);
      PropagateAll(PropagateMark(g))
  }

  /** What propagation leaves behind: `grayagain` and `weak` grow, by threads and by weak tables. */
  ghost predicate Settled(g: State, r: State) {
    && PropagatedFrom(g, r)
    && Elems(g.grayagain) <= Elems(r.grayagain)
    && Elems(g.weak) <= Elems(r.weak)
    && (forall x | x in r.grayagain && x !in g.grayagain :: x in r.heap && r.heap[x].Thread?)
    && (forall x | x in r.weak && x !in g.weak :: WeakListed(r, x))
  }

  lemma WeakListedStays(g: State, r: State, x: Ref)
    requires TidiedHeap(g.heap, r.heap) && WeakListed(g, x)
    requires r.heap[x].Table? ==> r.heap[x].weakBits == g.heap[x].weakBits
    ensures WeakListed(r, x)
  {
    assert Tidied(g.heap[x], r.heap[x]);
    ModeTidied(g.heap, r.heap, g.heap[x].mt);
  }

  lemma PropagateSettles(g: State, P: set<Ref>)
    requires Tri(g, P, {}) && NoDangling(g) && g.gray != []
    ensures g.gray[0] in g.heap && Settled(g, PropagateMark(g))
    ensures Tri(PropagateMark(g), P, {}) && NoDangling(PropagateMark(g))
    ensures |Whites(PropagateMark(g))| + |PropagateMark(g).gray| < |Whites(g)| + |g.gray|
  {
    hide Tri, NoDangling, WeakListed, PropagateMark;
    PropagateTri(g, P);
    assert Tidied(g.heap[g.gray[0]], PropagateMark(g).heap[g.gray[0]]);
  }

  lemma SettledTrans(a: State, b: State, c: State)
    requires Settled(a, b) && Settled(b, c)
    requires forall x | x in b.weak && WeakListed(b, x) :: WeakListed(c, x)
    ensures Settled(a, c)
  {
    hide WeakListed;
    PropagatedTrans(a, b, c);
    forall x | x in c.grayagain && x !in a.grayagain ensures x in c.heap && c.heap[x].Thread? {
      if x in b.grayagain { assert Tidied(b.heap[x], c.heap[x]); }
    }
  }

  /** A listed weak table keeps its recorded weakness: it is not traversed again. */
  lemma {:induction false} PropagateAllTri(g: State, P: set<Ref>)
    requires Tri(g, P, {}) && NoDangling(g)
    ensures Markable(g)
    ensures Tri(PropagateAll(g), P, {}) && NoDangling(PropagateAll(g)) && PropagateAll(g).gray == []
    ensures Settled(g, PropagateAll(g))
    ensures forall x | x in g.weak && WeakListed(g, x) :: WeakListed(PropagateAll(g), x)
    decreases |Whites(g)| + |g.gray|
  {
    hide Tri, NoDangling, WeakListed, PropagateMark;
    TriMarkable(g, P);
    if g.gray != [] {
      PropagateSettles(g, P);
      var r := PropagateMark(g);
      forall x | x in g.weak && WeakListed(g, x) ensures WeakListed(r, x) {
        WeakKept(g, P, x);
      }
      PropagateAllTri(r, P);
      SettledTrans(g, r, PropagateAll(r));
      assert forall x | x in g.weak :: x in Elems(g.weak) && x in Elems(r.weak);
    } else {
      SettledRefl(g);
    }
  }

  lemma SettledRefl(g: State)
    ensures Settled(g, g)
  {}

  lemma WeakKept(g: State, P: set<Ref>, x: Ref)
    requires Tri(g, P, {}) && NoDangling(g) && g.gray != [] && x in g.weak && WeakListed(g, x)
    ensures g.gray[0] in g.heap && WeakListed(PropagateMark(g), x)
  {
    hide PropagateMark, NoDangling, PropagatedFrom;
    PropagateTri(g, P);
    var o := g.gray[0];
    assert x != o by {
      assert Sorted(g, x);
      assert multiset(g.gray)[o] > 0 && multiset(g.weak)[x] > 0;
    }
    var r := PropagateMark(g);
    assert Propagated(g, r, P);
    assert r.heap[x] == g.heap[x];
    assert TidiedHeap(g.heap, r.heap) by { assert PropagatedFrom(g, r); PropagatedTidied(g, r); }
    WeakListedStays(g, r, x);
  }

  lemma PropagatedTidied(g: State, r: State)
    requires PropagatedFrom(g, r)
    ensures TidiedHeap(g.heap, r.heap)
  {}

  // ---------- the pieces of `atomic` ----------

  /** `remarkupvals`, on one open upvalue. */
  function RemarkOne(g: State, u: Ref): State {
    if IsGray(g, u) && u in g.heap && g.heap[u].UpVal? then MarkValue(g, UpvalValue(g.heap, g.heap[u].home)) else g
  }

  /** `remarkupvals`, on the part `us` of the list of open upvalues. */
  function RemarkUpvals(g: State, us: seq<Ref>): State
    decreases |us|
  {
    if us == [] then g else RemarkUpvals(RemarkOne(g, us[0]), us[1..])
  }

  predicate IsOpen(h: map<Ref, Body>, u: Ref) { u in h && h[u].UpVal? && h[u].home.Open? }

  lemma {:induction false} RemarkUpvalsTri(g: State, us: seq<Ref>, P: set<Ref>)
    requires Tri(g, P, {}) && NoDangling(g)
    requires forall u | u in us :: IsOpen(g.heap, u)
    ensures Tri(RemarkUpvals(g, us), P - Elems(us), {})
    ensures MarkedFrom(g, RemarkUpvals(g, us))
    decreases |us|
  {
    hide Tri, NoDangling, RemarkOne, IsOpen;
    if us != [] {
      var u := us[0];
      assert us == [u] + us[1..];
      var h := RemarkOne(g, u);
      RemarkOneTri(g, u, P);
      assert h.heap == g.heap;
      RemarkUpvalsTri(h, us[1..], P - {u});
      assert P - {u} - Elems(us[1..]) == P - Elems(us);
      MarkedTrans(g, h, RemarkUpvals(g, us));
    } else {
      assert P - Elems(us) == P;
    }
  }

  lemma RemarkOneTri(g: State, u: Ref, P: set<Ref>)
    requires Tri(g, P, {}) && NoDangling(g) && IsOpen(g.heap, u)
    ensures Tri(RemarkOne(g, u), P - {u}, {}) && NoDangling(RemarkOne(g, u)) && MarkedFrom(g, RemarkOne(g, u))
  {
    var v := UpvalValue(g.heap, g.heap[u].home);
    var h := RemarkOne(g, u);
    assert Sorted(g, u);
    SlotsExist(g, u);
    if IsGray(g, u) { MarkValueTri(g, v, P, {}); }
    SameHeapNoDangling(g, h);
    hide NoDangling, MarkedFrom;
    TriWeaken(h, P, P - {u});
  }

  /** `markmt`, on the part `ms` of the basic metatables. */
  function MarkMt(g: State, ms: seq<Option<Ref>>): (r: State)
    ensures MarkedFrom(g, r)
    decreases |ms|
  {
    if ms == [] then g else
      var h := if ms[0].Some? then MarkObject(g, ms[0].value) else g;
      var r := MarkMt(h, ms[1..]);
      MarkedTrans(g, h, r);
      r
  }

  lemma {:induction false} MarkMtTri(g: State, ms: seq<Option<Ref>>, P: set<Ref>)
    requires Tri(g, P, {}) && NoDangling(g)
    requires forall m | m in ms && m.Some? :: m.value in g.heap
    ensures Tri(MarkMt(g, ms), P, {})
    ensures forall m | m in ms && m.Some? :: Marked(MarkMt(g, ms), m.value)
    decreases |ms|
  {
    if ms != [] {
      assert ms == [ms[0]] + ms[1..];
      var h := if ms[0].Some? then MarkObject(g, ms[0].value) else g;
      if ms[0].Some? { MarkObjectTri(g, ms[0].value, P, {}); }
      MarkMtTri(h, ms[1..], P);
    }
  }

  function After(s: seq<Ref>, r: Ref): nat {
    if s == [] then 0 else if s[0] == r then 1 else 1 + After(s[1..], r)
  }

  /** Does the metatable of a userdata have a finalizer? */
  predicate HasGc(h: map<Ref, Body>, b: Body) {
    b.Udata? && b.mt.Some? && b.mt.value in h && h[b.mt.value].Table? && h[b.mt.value].meta.gc
  }

  /** One round of the loop of `luaC_separateudata`. */
  function SeparateOne(g: State, i: nat): State
    requires i < |g.rootgc|
  {
    var u := g.rootgc[i];
    if u !in g.heap || !g.heap[u].Udata? || !IsWhite(g, u) || g.heap[u].finalized then g
    else
      var h := g.heap[u := g.heap[u].(finalized := true)];
      if !HasGc(g.heap, g.heap[u]) then g.(heap := h)
      else g.(heap := h, rootgc := g.rootgc[..i] + g.rootgc[i + 1..], tmudata := g.tmudata + [u])
  }

  /** `luaC_separateudata` with `all` false, from position `i` of `rootgc` on. */
  function SeparateFrom(g: State, i: nat): State
    decreases |g.rootgc| - i
  {
    if i >= |g.rootgc| then g else
      var h := SeparateOne(g, i);
      SeparateFrom(h, if |h.rootgc| < |g.rootgc| then i else i + 1)
  }

  /** `marktmu`, on one userdata. */
  function RemarkUdata(g: State, u: Ref): State {
    if u in g.heap then ReallyMark(MakeWhite(g, u), u) else g
  }

  /** `marktmu`, on the part `us` of the userdata that are to be finalized. */
  function MarkTmu(g: State, us: seq<Ref>): State
    decreases |us|
  {
    if us == [] then g else
      MarkTmu(RemarkUdata(g, us[0]), us[1..])
  }

  /** `iscleared` */
  predicate Cleared(g: State, v: Value, iskey: bool) {
    && v.Coll? && v.r in g.heap && !g.heap[v.r].Str?
    && (IsWhite(g, v.r) || (g.heap[v.r].Udata? && !iskey && g.heap[v.r].finalized))
  }

  /** The string that `iscleared` marks when it looks at a value. */
  function StringHit(g: State, v: Value): set<Ref> {
    if v.Coll? && v.r in g.heap && g.heap[v.r].Str? then {v.r} else {}
  }

  function ArrHits(g: State, vs: seq<Value>): set<Ref> {
    if vs == [] then {} else StringHit(g, vs[0]) + ArrHits(g, vs[1..])
  }

  /** The value of an entry is looked at only if its key is not cleared. */
  function NodeHits(g: State, n: Node): set<Ref> {
    if n.val == Nil then {} else
      StringHit(g, n.key) + (if Cleared(g, n.key, true) then {} else StringHit(g, n.val))
  }

  function NodesHits(g: State, ns: seq<Node>): set<Ref> {
    if ns == [] then {} else NodeHits(g, ns[0]) + NodesHits(g, ns[1..])
  }

  function ClearArr(g: State, vs: seq<Value>): (r: seq<Value>)
    ensures |r| == |vs|
    ensures forall i | 0 <= i < |vs| :: r[i] == if Cleared(g, vs[i], false) then Nil else vs[i]
  {
    if vs == [] then [] else [if Cleared(g, vs[0], false) then Nil else vs[0]] + ClearArr(g, vs[1..])
  }

  function ClearNode(g: State, n: Node): Node {
    if n.val != Nil && (Cleared(g, n.key, true) || Cleared(g, n.val, false)) then Clean(Node(n.key, Nil)) else n
  }

  function ClearNodes(g: State, ns: seq<Node>): (r: seq<Node>)
    ensures |r| == |ns| && forall i | 0 <= i < |ns| :: r[i] == ClearNode(g, ns[i])
  {
    if ns == [] then [] else [ClearNode(g, ns[0])] + ClearNodes(g, ns[1..])
  }

  /** `stringmark` on every string of a set. */
  function StringMarks(m: map<Ref, Color>, ss: set<Ref>): map<Ref, Color> {
    map r | r in m :: if r in ss && m[r].White? then Gray else m[r]
  }

  /** `cleartable` on one table. */
  function ClearTable(g: State, t: Ref): State {
    if t !in g.heap || !g.heap[t].Table? then g else
      var b := g.heap[t];
      var arr := if b.weakBits.values then ClearArr(g, b.arr) else b.arr;
      var hits := (if b.weakBits.values then ArrHits(g, b.arr) else {}) + NodesHits(g, b.nodes);
      g.(heap := g.heap[t := b.(arr := arr, nodes := ClearNodes(g, b.nodes))],
         mark := StringMarks(g.mark, hits))
  }

  /** `cleartable` */
  function ClearTables(g: State, ts: seq<Ref>): State
    decreases |ts|
  {
    if ts == [] then g else ClearTables(ClearTable(g, ts[0]), ts[1..])
  }

  // ---------- userdata to be finalized ----------

  /** What `SeparateFrom` does: it notes finalizations and moves white userdata to `tmudata`. */
  ghost predicate Separated(g: State, r: State) {
    && r == g.(heap := r.heap, rootgc := r.rootgc, tmudata := r.tmudata)
    && TidiedHeap(g.heap, r.heap)
    && (forall x | x in g.heap ::
          r.heap[x] == g.heap[x] || (g.heap[x].Udata? && r.heap[x] == g.heap[x].(finalized := true)))
    && multiset(r.rootgc) + multiset(r.tmudata) == multiset(g.rootgc) + multiset(g.tmudata)
    && |g.tmudata| <= |r.tmudata| && r.tmudata[..|g.tmudata|] == g.tmudata
    && (forall j | |g.tmudata| <= j < |r.tmudata| :: Finalizable(g, r.tmudata[j]))
  }

  /** An unreachable userdata with a finalizer that has not been called yet. */
  ghost predicate Finalizable(g: State, u: Ref) {
    u in g.heap && g.heap[u].Udata? && IsWhite(g, u) && !g.heap[u].finalized && HasGc(g.heap, g.heap[u])
  }

  lemma RemoveAt(s: seq<Ref>, i: nat)
    requires i < |s|
    ensures multiset(s) == multiset(s[..i] + s[i + 1..]) + multiset{s[i]}
  {
    assert s == s[..i] + [s[i]] + s[i + 1..];
  }

  lemma {:induction false} SeparateFromDoes(g: State, i: nat)
    ensures Separated(g, SeparateFrom(g, i))
    decreases |g.rootgc| - i
  {
    if i < |g.rootgc| {
      var u := g.rootgc[i];
      var h := SeparateOne(g, i);
      SeparateOneDoes(g, i);
      var j := if |h.rootgc| < |g.rootgc| then i else i + 1;
      SeparateFromDoes(h, j);
      SeparatedTrans(g, h, SeparateFrom(g, i));
    } else {
      assert TidiedHeap(g.heap, g.heap);
    }
  }

  lemma SeparateOneDoes(g: State, i: nat)
    requires i < |g.rootgc|
    ensures Separated(g, SeparateOne(g, i))
  {
    var u := g.rootgc[i];
    var r := SeparateOne(g, i);
    if u in g.heap && g.heap[u].Udata? {
      TidyOne(g.heap, u, g.heap[u].(finalized := true));
    }
    assert TidiedHeap(g.heap, r.heap);
    if |r.rootgc| < |g.rootgc| {
      RemoveAt(g.rootgc, i);
      assert multiset(r.tmudata) == multiset(g.tmudata) + multiset{u};
      assert Finalizable(g, u);
    }
  }

  lemma TidyOne(h: map<Ref, Body>, u: Ref, b: Body)
    requires u in h && Tidied(h[u], b)
    ensures TidiedHeap(h, h[u := b]) && TidiedHeap(h, h)
  {}

  lemma SeparatedTrans(a: State, b: State, c: State)
    requires Separated(a, b) && Separated(b, c)
    ensures Separated(a, c)
  {
    TidiedTrans(a.heap, b.heap, c.heap);
    forall j | |a.tmudata| <= j < |c.tmudata| ensures Finalizable(a, c.tmudata[j]) {
      if j < |b.tmudata| {
        assert c.tmudata[j] == b.tmudata[j];
      } else {
        var u := c.tmudata[j];
        assert Finalizable(b, u);
        assert Tidied(a.heap[u], b.heap[u]);
        UnfinalizedSame(a, b, u);
      }
    }
    assert c.tmudata[..|a.tmudata|] == c.tmudata[..|b.tmudata|][..|a.tmudata|];
  }

  lemma UnfinalizedSame(a: State, b: State, u: Ref)
    requires Separated(a, b) && Finalizable(b, u)
    ensures Finalizable(a, u)
  {
    assert Tidied(a.heap[u], b.heap[u]);
    var mt := b.heap[u].mt.value;
    assert Tidied(a.heap[mt], b.heap[mt]);
    FinalizedGrows(a, b, u);
  }

  lemma FinalizedGrows(a: State, b: State, u: Ref)
    requires Separated(a, b) && u in a.heap && a.heap[u].Udata? && !b.heap[u].finalized
    ensures !a.heap[u].finalized
  {}

  /** The state in which a userdata of `tmudata` has just been turned black again. */
  function Blacken(g: State, u: Ref): State { g.(mark := g.mark[u := Black]) }

  lemma RemarkUdataDef(g: State, u: Ref)
    requires u in g.heap && u in g.mark && g.heap[u].Udata?
    ensures var b := g.heap[u]; var g1 := Blacken(g, u);
      ReallyMark(MakeWhite(g, u), u)
        == MarkObject(if b.mt.Some? then MarkObject(g1, b.mt.value) else g1, b.env)
  {
    hide MarkObject, MarkedFrom;
    var h := MakeWhite(g, u);
    assert h.mark[u := Black] == g.mark[u := Black];
    assert h.(mark := h.mark[u := Black]) == Blacken(g, u);
  }

  lemma BlackenTri(g: State, u: Ref, P: set<Ref>)
    requires Tri(g, P, {}) && NoDangling(g) && u in g.heap && g.heap[u].Udata?
    ensures Tri(Blacken(g, u), P - {u}, {u}) && NoDangling(Blacken(g, u))
    ensures ListCount(Blacken(g, u), u) == 0
  {
    assert Sorted(g, u);
    var r := Blacken(g, u);
    SameHeapNoDangling(g, r);
    if IsWhite(g, u) {
      EnterX(g, u, Black, P, {});
    } else {
      SameMark(g, u, Black);
    }
  }

  lemma RemarkUdataTri(g: State, u: Ref, P: set<Ref>)
    requires Tri(g, P, {}) && NoDangling(g) && u in g.heap && u in g.mark && g.heap[u].Udata?
    ensures Tri(RemarkUdata(g, u), P - {u}, {}) && NoDangling(RemarkUdata(g, u))
    ensures Grown(g, RemarkUdata(g, u)) && Marked(RemarkUdata(g, u), u)
  {
    hide Tri, NoDangling, PropagatedFrom, MarkObject, ReallyMark;
    var b := g.heap[u];
    var g1 := Blacken(g, u);
    var Q := P - {u};
    BlackenTri(g, u, P);
    RemarkUdataDef(g, u);
    SlotsExist(g, u);
    var g2 := if b.mt.Some? then MarkObject(g1, b.mt.value) else g1;
    if b.mt.Some? { StageMark(g1, b.mt.value, u, Q); } else { StageRefl(g1, u, Q); }
    assert Stage(g1, g2, u, Q) && AllMarked(g2, OptRef(b.mt)) && g2.heap == g1.heap;
    var r := MarkObject(g2, b.env);
    StageMark(g2, b.env, u, Q);
    assert Stage(g2, r, u, Q) && r.heap == g2.heap;
    StageTrans(g1, g2, r, u, Q);
    MarkedStays(g2, r, OptRef(b.mt));
    SameMark(r, u, Black);
    FinishTri(g1, r, u, Black, Q);
    GrownFrom(g, u, r, P);
  }

  /** What may happen to marks when userdata are marked again. */
  ghost predicate Grown(g: State, r: State) {
    && r == g.(mark := r.mark, gray := r.gray)
    && r.mark.Keys == g.mark.Keys
    && (forall x | Marked(g, x) :: Marked(r, x))
    && (forall x | x in r.mark && r.mark[x].White? :: r.mark[x] == g.mark[x])
  }

  lemma GrownFrom(g: State, u: Ref, r: State, P: set<Ref>)
    requires Tri(g, P, {}) && u in g.heap && PropagatedFrom(Blacken(g, u), r)
    requires r.heap == g.heap && r.weak == g.weak && r.grayagain == g.grayagain && Marked(r, u)
    ensures Grown(g, r)
  {}

  lemma GrownTrans(a: State, b: State, c: State)
    requires Grown(a, b) && Grown(b, c)
    ensures Grown(a, c)
  {}

  lemma ElemsCons(us: seq<Ref>)
    requires us != []
    ensures Elems(us) == {us[0]} + Elems(us[1..])
  {
    assert us == [us[0]] + us[1..];
  }

  lemma {:induction false} MarkTmuTri(g: State, us: seq<Ref>, P: set<Ref>)
    requires Tri(g, P, {}) && NoDangling(g)
    requires forall u | u in us :: u in g.heap && g.heap[u].Udata?
    ensures Tri(MarkTmu(g, us), P - Elems(us), {}) && NoDangling(MarkTmu(g, us))
    ensures Grown(g, MarkTmu(g, us)) && AllMarked(MarkTmu(g, us), Elems(us))
    decreases |us|
  {
    hide Tri, NoDangling, RemarkUdata, Grown, Elems;
    if us != [] {
      var u := us[0];
      ElemsCons(us);
      KeysAgree(g, P);
      var h := RemarkUdata(g, u);
      RemarkUdataTri(g, u, P);
      GrownHeap(g, h);
      MarkTmuTri(h, us[1..], P - {u});
      var r := MarkTmu(h, us[1..]);
      assert r == MarkTmu(g, us);
      assert P - {u} - Elems(us[1..]) == P - Elems(us);
      GrownTrans(g, h, r);
      GrownKeeps(h, r, u);
    } else {
      assert P - Elems(us) == P && Elems(us) == {} by { NoElems(); }
      GrownRefl(g);
    }
  }

  lemma NoElems()
    ensures Elems([]) == {}
  {}

  lemma GrownRefl(g: State)
    ensures Grown(g, g)
  {}

  lemma GrownHeap(g: State, r: State)
    requires Grown(g, r)
    ensures r.heap == g.heap
  {}

  lemma GrownKeeps(g: State, r: State, u: Ref)
    requires Grown(g, r) && Marked(g, u)
    ensures Marked(r, u)
  {}

  lemma KeysAgree(g: State, P: set<Ref>)
    requires Tri(g, P, {})
    ensures g.mark.Keys == g.heap.Keys
  {}

  // ---------- clearing weak tables ----------

  /** Every slot of a marked object that can be followed holds a marked object. */
  ghost predicate MarkedShut(g: State, r: Ref)
    requires r in g.heap
  {
    Marked(g, r) ==> AllMarked(g, LiveRefs(g.heap, g.heap[r]))
  }

  /** A table on the weak list that is still to be cleared. */
  ghost predicate ToClear(g: State, t: Ref) {
    && WeakListed(g, t)
    && AllMarked(g, StrongRefs(g.heap, g.heap[t]))
  }

  /** `todo` holds all the tables that may still refer to unmarked objects. */
  ghost predicate Clearing(g: State, todo: set<Ref>) {
    && g.mark.Keys == g.heap.Keys
    && NoDangling(g)
    && (forall t | t in todo :: ToClear(g, t))
    && (forall r | r in g.heap && r !in todo :: MarkedShut(g, r))
  }

  lemma HitsAreStrings(g: State, vs: seq<Value>)
    ensures forall s | s in ArrHits(g, vs) :: s in g.heap && g.heap[s].Str?
    ensures forall v | v in vs :: StringHit(g, v) <= ArrHits(g, vs)
  {
    if vs != [] { HitsAreStrings(g, vs[1..]); }
  }

  lemma NodesHitsAreStrings(g: State, ns: seq<Node>)
    ensures forall s | s in NodesHits(g, ns) :: s in g.heap && g.heap[s].Str?
    ensures forall n | n in ns :: NodeHits(g, n) <= NodesHits(g, ns)
  {
    if ns != [] { NodesHitsAreStrings(g, ns[1..]); }
  }

  /** A table that differs from another in its slots only. */
  ghost predicate Emptied(a: Body, b: Body)
    requires a.Table?
  {
    b.Table? && b == a.(arr := b.arr, nodes := b.nodes)
  }

  /** Clearing changes a table by removing entries, and marks strings only. */
  ghost predicate ClearedFrom(g: State, r: State) {
    && r == g.(heap := r.heap, mark := r.mark)
    && r.heap.Keys == g.heap.Keys && r.mark.Keys == g.mark.Keys
    && (forall x | x in g.heap && !g.heap[x].Table? :: r.heap[x] == g.heap[x])
    && (forall x | x in g.heap && g.heap[x].Table? :: Emptied(g.heap[x], r.heap[x]))
    && (forall x | x in g.mark && !g.mark[x].White? :: r.mark[x] == g.mark[x])
    && (forall x | x in r.mark && r.mark[x] != g.mark[x] :: x in g.heap && g.heap[x].Str? && r.mark[x].Gray?)
  }

  lemma ClearTableFrom(g: State, t: Ref)
    requires g.mark.Keys == g.heap.Keys
    ensures ClearedFrom(g, ClearTable(g, t))
    ensures forall x | x in g.heap && x != t :: ClearTable(g, t).heap[x] == g.heap[x]
  {
    if t in g.heap && g.heap[t].Table? {
      HitsAreStrings(g, g.heap[t].arr);
      NodesHitsAreStrings(g, g.heap[t].nodes);
    }
  }

  /** What is left in the array part of a cleared table is marked. */
  lemma ClearArrShut(g: State, b: Body, vs: seq<Value>, m: map<Ref, Color>)
    requires g.mark.Keys == g.heap.Keys && ValueRefs(vs) <= g.heap.Keys
    requires m.Keys == g.mark.Keys && forall x | x in m && (Marked(g, x) || x in ArrHits(g, vs)) :: !m[x].White?
    ensures forall c | c in ValueRefs(ClearArr(g, vs)) :: c in m && !m[c].White? && c in ValueRefs(vs)
  {
    HitsAreStrings(g, vs);
    forall c | c in ValueRefs(ClearArr(g, vs)) ensures c in m && !m[c].White? && c in ValueRefs(vs) {
      var i :| 0 <= i < |vs| && ClearArr(g, vs)[i] == Coll(c);
      assert vs[i] == Coll(c) && vs[i] in vs;
      assert StringHit(g, Coll(c)) <= ArrHits(g, vs);
    }
  }

  /** What is left in the hash part of a cleared table is marked. */
  lemma ClearNodesShut(g: State, ns: seq<Node>, m: map<Ref, Color>)
    requires g.mark.Keys == g.heap.Keys && LiveKeyRefs(ns) + ValRefs(ns) <= g.heap.Keys
    requires m.Keys == g.mark.Keys && forall x | x in m && (Marked(g, x) || x in NodesHits(g, ns)) :: !m[x].White?
    ensures forall c | c in LiveKeyRefs(ClearNodes(g, ns)) :: c in m && !m[c].White? && c in LiveKeyRefs(ns)
    ensures forall c | c in ValRefs(ClearNodes(g, ns)) :: c in m && !m[c].White? && c in ValRefs(ns)
  {
    NodesHitsAreStrings(g, ns);
    var r := ClearNodes(g, ns);
    forall n | n in r && n.val != Nil
      ensures n in ns && NodeHits(g, n) <= NodesHits(g, ns)
      ensures !Cleared(g, n.key, true) && !Cleared(g, n.val, false)
    {
      var i :| 0 <= i < |ns| && r[i] == n;
      assert ns[i] == n;
    }
  }

  lemma ClearTableShut(g: State, t: Ref)
    requires g.mark.Keys == g.heap.Keys && NoDangling(g) && ToClear(g, t)
    ensures AllMarked(ClearTable(g, t), LiveRefs(ClearTable(g, t).heap, ClearTable(g, t).heap[t]))
    ensures LiveRefs(ClearTable(g, t).heap, ClearTable(g, t).heap[t]) <= LiveRefs(g.heap, g.heap[t])
  {
    var b := g.heap[t];
    var r := ClearTable(g, t);
    SlotsExist(g, t);
    if b.weakBits.values { ClearArrShut(g, b, b.arr, r.mark); }
    ClearNodesShut(g, b.nodes, r.mark);
  }

  lemma {:induction false} ClearTablesShut(g: State, ts: seq<Ref>)
    requires Clearing(g, Elems(ts))
    ensures Clearing(ClearTables(g, ts), {}) && ClearedFrom(g, ClearTables(g, ts))
    decreases |ts|
  {
    if ts != [] {
      var r := ClearTable(g, ts[0]);
      ClearOneShut(g, ts[0], Elems(ts), Elems(ts[1..]));
      ClearTablesShut(r, ts[1..]);
      ClearedTrans(g, r, ClearTables(g, ts));
    } else {
      assert Elems(ts) == {};
    }
  }

  /** Emptying slots of tables does not change what the other objects refer to. */
  lemma RefsCleared(g: State, r: State, b: Body)
    requires ClearedFrom(g, r)
    ensures LiveRefs(r.heap, b) == LiveRefs(g.heap, b) && StrongRefs(r.heap, b) == StrongRefs(g.heap, b)
    ensures b.Table? ==> Mode(r.heap, b.mt) == Mode(g.heap, b.mt)
  {
    if b.Table? && b.mt.Some? && b.mt.value in g.heap && g.heap[b.mt.value].Table? {
      assert Emptied(g.heap[b.mt.value], r.heap[b.mt.value]);
    }
    if b.UpVal? && b.home.Open? && b.home.thread in g.heap && g.heap[b.home.thread].Table? {
      assert Emptied(g.heap[b.home.thread], r.heap[b.home.thread]);
    }
  }

  lemma ClearedRefs(g: State, t: Ref, x: Ref)
    requires g.mark.Keys == g.heap.Keys && x in g.heap && x != t
    ensures ClearTable(g, t).heap[x] == g.heap[x]
    ensures LiveRefs(ClearTable(g, t).heap, g.heap[x]) == LiveRefs(g.heap, g.heap[x])
    ensures StrongRefs(ClearTable(g, t).heap, g.heap[x]) == StrongRefs(g.heap, g.heap[x])
    ensures WeakListed(g, x) ==> WeakListed(ClearTable(g, t), x)
  {
    hide ClearTable, LiveRefs, StrongRefs, Mode;
    ClearTableFrom(g, t);
    RefsCleared(g, ClearTable(g, t), g.heap[x]);
  }

  lemma ClearOneShut(g: State, t: Ref, todo: set<Ref>, rest: set<Ref>)
    requires Clearing(g, todo) && todo == {t} + rest
    ensures Clearing(ClearTable(g, t), rest) && ClearedFrom(g, ClearTable(g, t))
  {
    hide ClearTable;
    var r := ClearTable(g, t);
    ClearTableFrom(g, t);
    assert ToClear(g, t);
    ClearTableShut(g, t);
    forall x | x in r.heap ensures LiveRefs(r.heap, r.heap[x]) <= r.heap.Keys {
      if x != t { ClearedRefs(g, t, x); }
      SlotsExist(g, x);
    }
    forall x | x in rest ensures ToClear(r, x) {
      assert ToClear(g, x);
      if x != t {
        ClearedRefs(g, t, x);
      } else {
        ClearedSelf(g, t);
      }
    }
    forall x | x in r.heap && x !in rest ensures MarkedShut(r, x) {
      if x != t {
        ClearedRefs(g, t, x);
        assert MarkedShut(g, x);
      }
    }
  }

  lemma ClearedSelf(g: State, t: Ref)
    requires g.mark.Keys == g.heap.Keys && NoDangling(g) && ToClear(g, t)
    ensures ToClear(ClearTable(g, t), t)
  {
    ClearTableShut(g, t);
    ClearTableFrom(g, t);
    var r := ClearTable(g, t);
    var mt := g.heap[t].mt;
    if mt.Some? && mt.value in g.heap && g.heap[mt.value].Table? {
      assert Emptied(g.heap[mt.value], r.heap[mt.value]);
    }
    assert Mode(r.heap, mt) == Mode(g.heap, mt);
  }

  lemma ClearedTrans(a: State, b: State, c: State)
    requires ClearedFrom(a, b) && ClearedFrom(b, c)
    ensures ClearedFrom(a, c)
  {}

  // ---------- `atomic` ----------

  /** Objects that the tri-colour invariant exempts until `atomic` returns to them. */
  function Pending(g: State): set<Ref> {
    Elems(g.grayagain) + Elems(g.weak) + Elems(g.uvhead) + Elems(g.tmudata)
  }

  ghost predicate RootsExist(g: State) {
    && g.mainthread in g.heap && g.running in g.heap && ValueRef(g.registry) <= g.heap.Keys
    && (forall m | m in g.mt && m.Some? :: m.value in g.heap)
  }

  /** The mark-phase part of the invariant. */
  ghost predicate Propagating(g: State) {
    && Tri(g, Pending(g), {}) && NoDangling(g) && RootsExist(g)
    && (forall r | r in g.mark && g.mark[r].White? :: g.mark[r].bit == g.currentwhite)
    && Marked(g, g.mainthread) && AllMarked(g, ValueRef(g.registry))
    && (forall u | u in g.uvhead :: IsOpen(g.heap, u))
    && (forall u | u in g.tmudata :: u in g.heap && g.heap[u].Udata?)
  }

  /** A stage of `atomic`: the invariant with an empty gray list and pending objects `P`. */
  ghost predicate AtStage(g0: State, g: State, P: set<Ref>) {
    && Tri(g, P, {}) && NoDangling(g) && g.gray == []
    && AtomicFrom(g0, g)
  }

  /** What `atomic` changes before it clears the weak tables. */
  ghost predicate AtomicFrom(g0: State, g: State) {
    && g == g0.(heap := g.heap, mark := g.mark, gray := g.gray, grayagain := g.grayagain,
                weak := g.weak, rootgc := g.rootgc, tmudata := g.tmudata)
    && TidiedHeap(g0.heap, g.heap)
    && g.mark.Keys == g0.mark.Keys
    && (forall x | Marked(g0, x) :: Marked(g, x))
    && (forall x | x in g.mark && g.mark[x].White? :: g.mark[x] == g0.mark[x])
  }

  lemma AtomicFromTrans(a: State, b: State, c: State)
    requires AtomicFrom(a, b) && AtomicFrom(b, c)
    ensures AtomicFrom(a, c)
  {
    TidiedTrans(a.heap, b.heap, c.heap);
  }

  lemma PropagatedIsAtomic(g: State, r: State)
    requires PropagatedFrom(g, r)
    ensures AtomicFrom(g, r) && r.tmudata == g.tmudata && r.rootgc == g.rootgc
  {}

  /** `atomic`, up to the end of the first propagation. */
  function Atomic1(g: State): State
    requires Markable(RemarkUpvals(g, g.uvhead))
  {
    PropagateAll(RemarkUpvals(g, g.uvhead))
  }

  /** The weak tables are traversed again, and what the running thread and the basic metatables
      refer to. */
  function Atomic2Start(g: State): State {
    MarkMt(MarkObject(g.(gray := g.weak, weak := []), g.running), g.mt)
  }

  function Atomic2(g: State): State
    requires Markable(Atomic2Start(g))
  {
    PropagateAll(Atomic2Start(g))
  }

  /** The objects caught by the backward barrier and the threads are traversed again. */
  function Atomic3(g: State): State
    requires Markable(g.(gray := g.grayagain, grayagain := []))
  {
    PropagateAll(g.(gray := g.grayagain, grayagain := []))
  }

  /** Userdata to be finalized are separated and marked with all they refer to. */
  function Atomic4Start(g: State): State {
    var h := SeparateFrom(g, After(g.rootgc, g.mainthread));
    MarkTmu(h, h.tmudata)
  }

  function Atomic4(g: State): State
    requires Markable(Atomic4Start(g))
  {
    PropagateAll(Atomic4Start(g))
  }

  lemma Atomic1Stage(g: State)
    requires Propagating(g) && g.gray == []
    ensures Markable(RemarkUpvals(g, g.uvhead))
    ensures AtStage(g, Atomic1(g), Elems(Atomic1(g).grayagain) + Elems(Atomic1(g).weak) + Elems(g.tmudata))
  {
    hide Tri, NoDangling, MarkedFrom, PropagatedFrom, RemarkUpvals, PropagateAll, Elems;
    var P := Elems(g.grayagain) + Elems(g.weak) + Elems(g.tmudata);
    RemarkUpvalsTri(g, g.uvhead, Pending(g));
    var h := RemarkUpvals(g, g.uvhead);
    RemarkedLists(g, h);
    TriMore(h, Pending(g) - Elems(g.uvhead), P);
    PropagateAllTri(h, P);
    var r := PropagateAll(h);
    AtomicFromTrans(g, h, r) by { MarkedIsPropagated(g, h); PropagatedIsAtomic(g, h); PropagatedIsAtomic(h, r); }
    TriMore(r, P, Elems(r.grayagain) + Elems(r.weak) + Elems(g.tmudata));
  }

  lemma RemarkedLists(g: State, h: State)
    requires MarkedFrom(g, h) && NoDangling(g)
    ensures h.grayagain == g.grayagain && h.weak == g.weak && h.heap == g.heap && NoDangling(h)
  {}

  /** Exempting more objects weakens the invariant. */
  lemma TriMore(g: State, P: set<Ref>, Q: set<Ref>)
    requires Tri(g, P, {}) && P <= Q
    ensures Tri(g, Q, {})
  {}

  /** The weak list, or the grayagain list, becomes the gray list. */
  lemma SwapLists(g: State, r: State, P: set<Ref>, Q: set<Ref>)
    requires Tri(g, P, {}) && NoDangling(g) && g.gray == [] && P <= Q + Elems(r.gray)
    requires r == g.(gray := g.weak, weak := []) || r == g.(gray := g.grayagain, grayagain := [])
    ensures Tri(r, Q, {}) && NoDangling(r) && PropagatedFromLists(g, r)
  {
    SameHeapNoDangling(g, r);
    forall x | x in r.heap ensures Sorted(r, x) { assert Sorted(g, x); }
    forall x | x in r.heap && x !in {} && x !in Q && Marked(r, x) && x !in r.gray ensures Covered(r, x) {
      assert x !in P;
      assert Covered(g, x);
    }
  }

  ghost predicate PropagatedFromLists(g: State, r: State) {
    r == g.(gray := r.gray, weak := r.weak, grayagain := r.grayagain)
  }

  lemma ListsAreAtomic(g: State, r: State)
    requires PropagatedFromLists(g, r)
    ensures AtomicFrom(g, r)
  {}

  lemma Atomic2Stage(g: State, P: set<Ref>)
    requires Tri(g, P + Elems(g.grayagain) + Elems(g.weak), {}) && NoDangling(g) && g.gray == [] && RootsExist(g)
    ensures Markable(Atomic2Start(g))
    ensures AtStage(g, Atomic2(g), P + Elems(Atomic2(g).grayagain))
    ensures forall x | x in Atomic2(g).weak :: WeakListed(Atomic2(g), x)
    ensures Marked(Atomic2(g), g.running)
    ensures forall m | m in g.mt && m.Some? :: Marked(Atomic2(g), m.value)
  {
    hide Tri, NoDangling, PropagatedFrom, PropagateAll, Elems, MarkMt, MarkObject, WeakListed;
    var Q := P + Elems(g.grayagain);
    var g1 := g.(gray := g.weak, weak := []);
    SwapLists(g, g1, P + Elems(g.grayagain) + Elems(g.weak), Q);
    ListsAreAtomic(g, g1);
    var g2 := MarkObject(g1, g.running);
    MarkObjectTri(g1, g.running, Q, {});
    MarkedSame(g1, g2);
    var g3 := MarkMt(g2, g.mt);
    MarkMtTri(g2, g.mt, Q);
    MarkedSame(g2, g3);
    PropagateAllTri(g3, Q);
    var r := PropagateAll(g3);
    PropagatedIsAtomic(g3, r);
    AtomicFromTrans(g, g1, g2);
    AtomicFromTrans(g, g2, g3);
    AtomicFromTrans(g, g3, r);
    TriMore(r, Q, P + Elems(r.grayagain));
  }

  lemma MarkedSame(g: State, h: State)
    requires MarkedFrom(g, h) && NoDangling(g)
    ensures h.grayagain == g.grayagain && h.weak == g.weak && h.heap == g.heap && NoDangling(h)
    ensures AtomicFrom(g, h)
  {}

  lemma Atomic3Stage(g: State, P: set<Ref>)
    requires Tri(g, P + Elems(g.grayagain), {}) && NoDangling(g) && g.gray == []
    requires forall x | x in g.weak :: WeakListed(g, x)
    ensures Markable(g.(gray := g.grayagain, grayagain := []))
    ensures AtStage(g, Atomic3(g), P)
    ensures forall x | x in Atomic3(g).weak :: WeakListed(Atomic3(g), x)
    ensures forall x | x in Atomic3(g).grayagain :: x in Atomic3(g).heap && Atomic3(g).heap[x].Thread?
  {
    hide Tri, NoDangling, PropagatedFrom, PropagateAll, Elems, WeakListed;
    var g1 := g.(gray := g.grayagain, grayagain := []);
    SwapLists(g, g1, P + Elems(g.grayagain), P);
    ListsAreAtomic(g, g1);
    forall x | x in g.weak ensures WeakListed(g1, x) { WeakListedFrame(g, g1, x); }
    PropagateAllTri(g1, P);
    PropagatedIsAtomic(g1, PropagateAll(g1));
    AtomicFromTrans(g, g1, PropagateAll(g1));
  }

  lemma WeakListedFrame(g: State, r: State, x: Ref)
    requires WeakListed(g, x) && r.heap == g.heap
    ensures WeakListed(r, x)
  {}

  lemma SeparateTri(g: State, h: State, P: set<Ref>)
    requires Tri(g, P, {}) && NoDangling(g) && Separated(g, h)
    requires forall u | u in g.tmudata :: u in g.heap && g.heap[u].Udata?
    ensures Tri(h, P, {}) && NoDangling(h) && AtomicFrom(g, h)
    ensures h.gray == g.gray && h.weak == g.weak && h.grayagain == g.grayagain
    ensures Elems(g.tmudata) <= Elems(h.tmudata)
    ensures forall u | u in h.tmudata :: u in h.heap && h.heap[u].Udata?
    ensures forall x | WeakListed(g, x) :: WeakListed(h, x)
    ensures forall x | x in g.heap && g.heap[x].Thread? :: h.heap[x].Thread?
  {
    hide AllRefs, StrongRefs, LiveRefs, Mode;
    var k := g.(heap := h.heap);
    TidyTri(g, k, P, {});
    SameObjectsTri(k, h, P);
    SameHeapNoDangling(k, h);
    hide Tri, NoDangling;
    forall x | WeakListed(g, x) ensures WeakListed(h, x) { WeakListedStays(g, h, x); }
    SeparateTmu(g, h);
  }

  /** The invariant depends on the objects and on the lists of gray objects only. */
  lemma SameObjectsTri(k: State, h: State, P: set<Ref>)
    requires Tri(k, P, {}) && h.heap == k.heap && h.mark == k.mark
    requires h.gray == k.gray && h.grayagain == k.grayagain && h.weak == k.weak
    ensures Tri(h, P, {})
  {
    hide AllRefs, StrongRefs, LiveRefs;
    forall x | x in h.heap ensures Sorted(h, x) { assert Sorted(k, x); }
    forall x | x in h.heap && x !in {} && x !in P && Marked(h, x) && x !in h.gray ensures Covered(h, x) {
      assert Covered(k, x);
    }
  }

  lemma SeparateTmu(g: State, h: State)
    requires Separated(g, h) && forall u | u in g.tmudata :: u in g.heap && g.heap[u].Udata?
    ensures Elems(g.tmudata) <= Elems(h.tmudata)
    ensures forall u | u in h.tmudata :: u in h.heap && h.heap[u].Udata?
    ensures forall x | x in g.heap && g.heap[x].Thread? :: h.heap[x].Thread?
  {
    forall u | u in h.tmudata ensures u in h.heap && h.heap[u].Udata? {
      var j :| 0 <= j < |h.tmudata| && h.tmudata[j] == u;
      if j < |g.tmudata| {
        assert g.tmudata[j] == u;
      } else {
        assert Finalizable(g, u);
      }
    }
    forall u | u in Elems(g.tmudata) ensures u in Elems(h.tmudata) {
      var j :| 0 <= j < |g.tmudata| && g.tmudata[j] == u;
      assert h.tmudata[j] == u;
    }
  }

  lemma GrownIsAtomic(g: State, r: State)
    requires Grown(g, r) && NoDangling(g)
    ensures AtomicFrom(g, r) && r.heap == g.heap && r.weak == g.weak && r.grayagain == g.grayagain
    ensures r.tmudata == g.tmudata && r.rootgc == g.rootgc
  {}

  /** What follows the separation of userdata leaves the lists of owners alone. */
  ghost predicate FromSeparate(h: State, r: State) {
    AtomicFrom(h, r) && r.tmudata == h.tmudata && r.rootgc == h.rootgc
  }

  lemma Atomic4Stage(g: State)
    requires Tri(g, Elems(g.tmudata), {}) && NoDangling(g) && g.gray == []
    requires forall u | u in g.tmudata :: u in g.heap && g.heap[u].Udata?
    requires forall x | x in g.weak :: WeakListed(g, x)
    requires forall x | x in g.grayagain :: x in g.heap && g.heap[x].Thread?
    ensures Markable(Atomic4Start(g))
    ensures AtStage(g, Atomic4(g), {})
    ensures forall x | x in Atomic4(g).weak :: WeakListed(Atomic4(g), x)
    ensures forall x | x in Atomic4(g).grayagain :: x in Atomic4(g).heap && Atomic4(g).heap[x].Thread?
    ensures AllMarked(Atomic4(g), Elems(Atomic4(g).tmudata))
    ensures FromSeparate(SeparateFrom(g, After(g.rootgc, g.mainthread)), Atomic4(g))
  {
    hide Tri, NoDangling, PropagatedFrom, PropagateAll, Elems, WeakListed, SeparateFrom, MarkTmu, Separated;
    var h := SeparateFrom(g, After(g.rootgc, g.mainthread));
    SeparateFromDoes(g, After(g.rootgc, g.mainthread));
    SeparateTri(g, h, Elems(g.tmudata));
    TriMore(h, Elems(g.tmudata), Elems(h.tmudata));
    var k := MarkTmu(h, h.tmudata);
    MarkTmuTri(h, h.tmudata, Elems(h.tmudata));
    assert Elems(h.tmudata) - Elems(h.tmudata) == {};
    GrownIsAtomic(h, k);
    forall x | x in k.weak ensures WeakListed(k, x) { WeakListedFrame(h, k, x); }
    PropagateAllTri(k, {});
    var r := PropagateAll(k);
    PropagatedIsAtomic(k, r);
    AtomicFromTrans(g, h, k);
    AtomicFromTrans(g, k, r);
    AtomicFromTrans(h, k, r);
    forall x | x in r.grayagain ensures x in r.heap && r.heap[x].Thread? {
      if x in k.grayagain { assert Tidied(k.heap[x], r.heap[x]); }
    }
  }

  ghost predicate RootsMarked(g: State) {
    && Marked(g, g.mainthread) && Marked(g, g.running) && AllMarked(g, ValueRef(g.registry))
    && (forall m | m in g.mt && m.Some? :: Marked(g, m.value))
    && AllMarked(g, Elems(g.tmudata))
  }

  /** Marking is complete; only the weak tables are left to be cleared. */
  ghost predicate MarkedUp(g0: State, g: State) {
    && AtStage(g0, g, {})
    && (forall x | x in g.weak :: WeakListed(g, x))
    && (forall x | x in g.grayagain :: x in g.heap && g.heap[x].Thread?)
    && RootsMarked(g)
  }

  lemma AtomicFromKeeps(g0: State, g: State)
    requires AtomicFrom(g0, g) && RootsExist(g0)
    ensures RootsExist(g)
    ensures forall u | u in g0.heap && g0.heap[u].Udata? :: u in g.heap && g.heap[u].Udata?
    ensures forall rs :: AllMarked(g0, rs) ==> AllMarked(g, rs)
  {
    forall u | u in g0.heap && g0.heap[u].Udata? ensures g.heap[u].Udata? {
      assert Tidied(g0.heap[u], g.heap[u]);
    }
  }

  lemma PropagateAllTmu(g: State)
    requires Markable(g)
    ensures PropagateAll(g).tmudata == g.tmudata && PropagateAll(g).rootgc == g.rootgc
  {
    hide Tri, NoDangling, PropagateAll;
    PropagateAllTri(g, g.heap.Keys);
    PropagatedIsAtomic(g, PropagateAll(g));
  }

  /** All the marking that `atomic` does. */
  function AtomicMark(g: State): State
    requires Propagating(g) && g.gray == []
  {
    AtomicStages(g);
    Atomic4(Atomic3(Atomic2(Atomic1(g))))
  }

  lemma AtomicStages(g: State)
    requires Propagating(g) && g.gray == []
    ensures Markable(RemarkUpvals(g, g.uvhead)) && Markable(Atomic2Start(Atomic1(g)))
    ensures var g2 := Atomic2(Atomic1(g));
      Markable(g2.(gray := g2.grayagain, grayagain := [])) && Markable(Atomic4Start(Atomic3(g2)))
    ensures MarkedUp(g, Atomic4(Atomic3(Atomic2(Atomic1(g)))))
    ensures var g3 := Atomic3(Atomic2(Atomic1(g)));
      && AtomicFrom(g, g3) && g3.rootgc == g.rootgc && g3.tmudata == g.tmudata
      && Separated(g3, SeparateFrom(g3, After(g3.rootgc, g3.mainthread)))
      && FromSeparate(SeparateFrom(g3, After(g3.rootgc, g3.mainthread)), Atomic4(g3))
  {
    hide Tri, NoDangling, Elems, WeakListed, Atomic1, Atomic2, Atomic3, Atomic4, Markable, AtomicFrom,
         Atomic2Start, Atomic4Start, RemarkUpvals, SeparateFrom, Separated, TidiedHeap, FromSeparate;
    var T := Elems(g.tmudata);
    Atomic1Stage(g);
    var g1 := Atomic1(g);
    AtomicTmu1(g);
    AtomicFromKeeps(g, g1);
    assert Elems(g1.grayagain) + Elems(g1.weak) + T == T + Elems(g1.grayagain) + Elems(g1.weak);
    Atomic2Stage(g1, T);
    var g2 := Atomic2(g1);
    AtomicTmu2(g1);
    Atomic3Stage(g2, T);
    var g3 := Atomic3(g2);
    AtomicTmu3(g2);
    AtomicFromTrans(g, g1, g2);
    AtomicFromTrans(g, g2, g3);
    AtomicFromKeeps(g, g3);
    AtomicSame(g, g3);
    Atomic4Stage(g3);
    SeparateFromDoes(g3, After(g3.rootgc, g3.mainthread));
    var g4 := Atomic4(g3);
    AtomicFromTrans(g, g3, g4);
    AtomicFromTrans(g2, g3, g4);
    RootsStay(g, g2, g4);
  }

  lemma AtomicSame(g: State, r: State)
    requires AtomicFrom(g, r)
    ensures r.mainthread == g.mainthread && r.running == g.running && r.mt == g.mt && r.registry == g.registry
  {}

  lemma RootsStay(g: State, g2: State, r: State)
    requires AtomicFrom(g, r) && AtomicFrom(g2, r)
    requires g2.running == g.running && g2.mt == g.mt
    requires Marked(g, g.mainthread) && AllMarked(g, ValueRef(g.registry))
    requires Marked(g2, g2.running) && forall m | m in g2.mt && m.Some? :: Marked(g2, m.value)
    requires AllMarked(r, Elems(r.tmudata))
    ensures RootsMarked(r)
  {}

  lemma AtomicTmu1(g: State)
    requires Propagating(g) && g.gray == []
    ensures Markable(RemarkUpvals(g, g.uvhead))
    ensures Atomic1(g).tmudata == g.tmudata && Atomic1(g).rootgc == g.rootgc
    ensures Atomic1(g).running == g.running && Atomic1(g).mt == g.mt
  {
    hide Tri, NoDangling, PropagateAll, RemarkUpvals;
    Atomic1Stage(g);
    RemarkUpvalsTri(g, g.uvhead, Pending(g));
    PropagateAllTmu(RemarkUpvals(g, g.uvhead));
  }

  lemma AtomicTmu2(g: State)
    requires Markable(Atomic2Start(g))
    ensures Atomic2(g).tmudata == g.tmudata && Atomic2(g).rootgc == g.rootgc
    ensures AtomicFrom(Atomic2Start(g), Atomic2(g)) && Atomic2(g).running == g.running && Atomic2(g).mt == g.mt
  {
    hide Tri, NoDangling, PropagateAll, MarkObject, MarkMt;
    PropagateAllTri(Atomic2Start(g), g.heap.Keys);
    PropagatedIsAtomic(Atomic2Start(g), Atomic2(g));
  }

  lemma AtomicTmu3(g: State)
    requires Markable(g.(gray := g.grayagain, grayagain := []))
    ensures Atomic3(g).tmudata == g.tmudata && Atomic3(g).rootgc == g.rootgc
  {
    hide Tri, NoDangling, PropagateAll;
    PropagateAllTmu(g.(gray := g.grayagain, grayagain := []));
  }

  /** `atomic` */
  function Atomic(g: State): State
    requires Propagating(g) && g.gray == []
  {
    var m := AtomicMark(g);
    var c := ClearTables(m, m.weak);
    c.(currentwhite := !c.currentwhite, sweepstrgc := 0, sweepgc := 0, phase := SweepString)
  }

  /** What is to be swept away: dead objects that are not fixed. */
  predicate Alive(g: State, o: Ref) { o in g.mark && (!IsDead(g, o) || o in g.fixed) }

  ghost predicate AllAlive(g: State, rs: set<Ref>) { forall c | c in rs :: Alive(g, c) }

  ghost predicate RootsAlive(g: State) {
    && Alive(g, g.mainthread) && Alive(g, g.running) && AllAlive(g, ValueRef(g.registry))
    && (forall m | m in g.mt && m.Some? :: Alive(g, m.value))
    && AllAlive(g, Elems(g.tmudata))
  }

  /** The safety invariant: roots are alive, and a live object refers to live objects only. */
  ghost predicate AliveShut(g: State) {
    && g.mark.Keys == g.heap.Keys
    && RootsAlive(g)
    && (forall r | r in g.heap && Alive(g, r) :: AllAlive(g, LiveRefs(g.heap, g.heap[r])))
  }

  lemma ReadyToClear(g0: State, g: State)
    requires MarkedUp(g0, g)
    ensures Clearing(g, Elems(g.weak))
  {
    assert Tri(g, {}, {}) && NoDangling(g) && g.gray == [];
    KeysAgree(g, {});
    hide Tri, NoDangling, WeakListed, ToClear, MarkedShut, Marked, AtomicFrom, RootsMarked;
    forall t | t in Elems(g.weak) ensures ToClear(g, t) {
      assert t in g.weak && WeakListed(g, t) && multiset(g.weak)[t] > 0;
      WeakIsClearable(g, t);
    }
    forall r | r in g.heap && r !in Elems(g.weak) ensures MarkedShut(g, r) {
      UnlistedIsShut(g, r);
    }
  }

  lemma WeakIsClearable(g: State, t: Ref)
    requires Tri(g, {}, {}) && g.gray == [] && WeakListed(g, t) && multiset(g.weak)[t] > 0
    ensures ToClear(g, t)
  {
    hide AllRefs, StrongRefs, LiveRefs, Mode;
    assert Sorted(g, t) && Covered(g, t);
  }

  lemma UnlistedIsShut(g: State, r: Ref)
    requires Tri(g, {}, {}) && g.gray == [] && r in g.heap && r !in g.weak
    requires forall x | x in g.grayagain :: x in g.heap && g.heap[x].Thread?
    ensures MarkedShut(g, r)
  {
    hide AllRefs, StrongRefs, LiveRefs, Mode;
    if Marked(g, r) {
      assert Sorted(g, r) && Covered(g, r);
      assert multiset(g.weak)[r] == 0 && multiset(g.gray)[r] == 0;
      if r in g.grayagain { assert g.heap[r].Thread?; } else { assert multiset(g.grayagain)[r] == 0; }
      GrayIsStrong(g, r);
    }
  }

  lemma GrayIsStrong(g: State, r: Ref)
    requires r in g.heap && r in g.mark
    requires Covered(g, r) && (g.mark[r].Gray? ==> !g.heap[r].Table?)
    requires Marked(g, r)
    ensures AllMarked(g, LiveRefs(g.heap, g.heap[r]))
  {
    if g.heap[r].Table? {
      assert LiveKeyRefs(g.heap[r].nodes) <= KeyRefs(g.heap[r].nodes);
    }
  }

  /** When `atomic` finishes, every live object refers only to live objects, weak slots included,
      and the roots are alive; what is dead is exactly what was not marked. */
  lemma AtomicIsSafe(g: State)
    requires Propagating(g) && g.gray == []
    requires forall s | s in g.fixed :: s in g.heap && (g.heap[s].Str? || s == g.mainthread)
    ensures AliveShut(Atomic(g)) && Atomic(g).heap.Keys == g.heap.Keys && NoDangling(Atomic(g))
    ensures forall x | x in g.heap :: IsDead(Atomic(g), x) <==> !Marked(Atomic(g), x)
  {
    hide Tri, NoDangling, ClearTables, Clearing, ClearedFrom, MarkedUp, Propagating;
    AtomicStages(g);
    var m := AtomicMark(g);
    ReadyToClear(g, m);
    ClearTablesShut(m, m.weak);
    var c := ClearTables(m, m.weak);
    MarkedUpWhites(g, m);
    FlipIsSafe(g, m, c, Atomic(g));
  }

  lemma MarkedUpWhites(g: State, m: State)
    requires Propagating(g) && MarkedUp(g, m)
    ensures m.currentwhite == g.currentwhite && m.fixed == g.fixed && m.mainthread == g.mainthread
    ensures m.heap.Keys == g.heap.Keys && RootsMarked(m)
    ensures forall r | r in m.mark && m.mark[r].White? :: m.mark[r].bit == m.currentwhite
    ensures forall s | s in g.heap && g.heap[s].Str? :: m.heap[s].Str?
  {
    hide Tri, NoDangling, WeakListed, RootsMarked;
    forall s | s in g.heap && g.heap[s].Str? ensures m.heap[s].Str? {
      assert Tidied(g.heap[s], m.heap[s]);
    }
  }

  /** After the whites have been exchanged, exactly the unmarked objects are dead. */
  lemma FlipDeath(m: State, c: State, r: State)
    requires forall x | x in m.mark && m.mark[x].White? :: m.mark[x].bit == m.currentwhite
    requires ClearedFrom(m, c)
    requires r == c.(currentwhite := !c.currentwhite, sweepstrgc := 0, sweepgc := 0, phase := SweepString)
    ensures forall x :: Alive(r, x) <==> x in c.mark && (Marked(c, x) || x in c.fixed)
    ensures forall x | x in c.mark :: IsDead(r, x) <==> !Marked(c, x)
  {
    hide Emptied;
  }

  lemma FlipRoots(m: State, c: State, r: State)
    requires RootsMarked(m) && ClearedFrom(m, c) && forall x | Marked(c, x) :: Alive(r, x)
    requires r == c.(currentwhite := !c.currentwhite, sweepstrgc := 0, sweepgc := 0, phase := SweepString)
    ensures RootsAlive(r)
  {
    forall x | Marked(m, x) ensures Alive(r, x) { assert Marked(c, x); }
    hide ClearedFrom, Marked, Alive;
  }

  lemma FlipShut(c: State, r: State, x: Ref)
    requires Clearing(c, {}) && r.heap == c.heap && r.mark == c.mark && x in r.heap && Alive(r, x)
    requires Marked(c, x) || c.heap[x].Str?
    requires forall x | Marked(c, x) :: Alive(r, x)
    ensures AllAlive(r, LiveRefs(r.heap, r.heap[x]))
  {
    assert MarkedShut(c, x);
    if c.heap[x].Str? { StrRefs(c.heap, c.heap[x]); }
    hide LiveRefs, Alive;
  }

  lemma FlipIsSafe(g: State, m: State, c: State, r: State)
    requires m.heap.Keys == g.heap.Keys && m.fixed == g.fixed && m.mainthread == g.mainthread
    requires forall x | x in m.mark && m.mark[x].White? :: m.mark[x].bit == m.currentwhite
    requires forall s | s in g.fixed :: s in m.heap && (m.heap[s].Str? || s == g.mainthread)
    requires RootsMarked(m) && Clearing(c, {}) && ClearedFrom(m, c)
    requires r == c.(currentwhite := !c.currentwhite, sweepstrgc := 0, sweepgc := 0, phase := SweepString)
    ensures AliveShut(r) && r.heap.Keys == g.heap.Keys && NoDangling(r)
    ensures forall x | x in g.heap :: IsDead(r, x) <==> !Marked(r, x)
  {
    FlipDeath(m, c, r);
    FlipFixed(m, c);
    assert NoDangling(c) && c.mark.Keys == c.heap.Keys && r.heap.Keys == g.heap.Keys;
    SameHeapNoDangling(c, r);
    hide NoDangling, Clearing, Alive, IsDead, LiveRefs;
    FlipRoots(m, c, r);
    hide RootsAlive, RootsMarked, ClearedFrom;
    forall x | x in r.heap && Alive(r, x) ensures AllAlive(r, LiveRefs(r.heap, r.heap[x])) { FlipShut(c, r, x); }
  }

  lemma FlipFixed(m: State, c: State)
    requires ClearedFrom(m, c) && Marked(m, m.mainthread)
    requires forall s | s in m.fixed :: s in m.heap && (m.heap[s].Str? || s == m.mainthread)
    ensures forall s | s in c.fixed :: s in c.heap && (c.heap[s].Str? || Marked(c, s))
  {}

  lemma StrRefs(h: map<Ref, Body>, b: Body)
    requires b.Str?
    ensures LiveRefs(h, b) == {}
  {}
}
