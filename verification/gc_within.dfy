/** Marking reaches nothing that is not strongly reachable. */
module GcWithin {
  import opened GcHeap
  import opened GcMark
  import opened GcAtomic

  /** `S` is closed under strong slots, those of the objects in `T` aside. */
  ghost predicate Shut(h: map<Ref, Body>, S: set<Ref>, T: set<Ref>) {
    forall x | x in S && x in h && x !in T :: StrongRefs(h, h[x]) <= S
  }

  /** Everything marked is in `S`; the userdata in `T` are marked, and marking passes them by. */
  ghost predicate Inside(g: State, S: set<Ref>, T: set<Ref>) {
    && (forall x | Marked(g, x) :: x in S)
    && (forall x | x in T :: Marked(g, x) && x in g.heap && g.heap[x].Udata?)
  }

  lemma {:induction false} MarkObjectIn(g: State, o: Ref, S: set<Ref>, T: set<Ref>)
    requires Shut(g.heap, S, T) && Inside(g, S, T) && o in S
    ensures Inside(MarkObject(g, o), S, T)
    decreases |Whites(g)|, 1
  {
    if IsWhite(g, o) && o in g.heap { ReallyMarkIn(g, o, S, T); }
  }

  lemma {:induction false} MarkValueIn(g: State, v: Value, S: set<Ref>, T: set<Ref>)
    requires Shut(g.heap, S, T) && Inside(g, S, T) && ValueRef(v) <= S
    ensures Inside(MarkValue(g, v), S, T)
    decreases |Whites(g)|, 2
  {
    if v.Coll? { MarkObjectIn(g, v.r, S, T); }
  }

  lemma {:induction false} ReallyMarkIn(g: State, o: Ref, S: set<Ref>, T: set<Ref>)
    requires Shut(g.heap, S, T) && Inside(g, S, T) && o in S && IsWhite(g, o) && o in g.heap
    ensures Inside(ReallyMark(g, o), S, T)
    decreases |Whites(g)|, 0
  {
    var b := g.heap[o];
    var c := if b.Udata? then Black else Gray;
    var g1 := g.(mark := g.mark[o := c]);
    assert Whites(g1) == Whites(g) - {o};
    assert o !in T && StrongRefs(g.heap, b) <= S;
    PaintIn(g, o, c, S, T);
    hide Inside, Shut, MarkedFrom, Whites;
    if b.Udata? {
      UdataIn(g, g1, o, S, T);
    } else if b.UpVal? {
      MarkValueIn(g1, UpvalValue(g.heap, b.home), S, T);
      PaintIn(MarkValue(g1, UpvalValue(g.heap, b.home)), o, if b.home.Closed? then Black else Gray, S, T);
    } else if !b.Str? {
      SameMarksIn(g1, PushGray(g1, o), S, T);
    }
  }

  lemma PaintIn(g: State, o: Ref, c: Color, S: set<Ref>, T: set<Ref>)
    requires Inside(g, S, T) && o in S && !c.White?
    ensures Inside(g.(mark := g.mark[o := c]), S, T)
  {}

  lemma SameMarksIn(g: State, r: State, S: set<Ref>, T: set<Ref>)
    requires Inside(g, S, T) && r.mark == g.mark && r.heap == g.heap
    ensures Inside(r, S, T)
  {}

  lemma UdataIn(g: State, g1: State, o: Ref, S: set<Ref>, T: set<Ref>)
    requires Shut(g.heap, S, T) && o in g.heap && g.heap[o].Udata? && IsWhite(g, o)
    requires g1 == g.(mark := g.mark[o := Black]) && |Whites(g1)| < |Whites(g)| && Inside(g1, S, T)
    requires StrongRefs(g.heap, g.heap[o]) <= S
    ensures Inside(ReallyMark(g, o), S, T)
    decreases |Whites(g)|, 0, 0
  {
    hide Inside, Shut, Whites;
    var b := g.heap[o];
    var g2 := if b.mt.Some? then MarkObject(g1, b.mt.value) else g1;
    if b.mt.Some? {
      assert b.mt.value in StrongRefs(g.heap, b);
      MarkObjectIn(g1, b.mt.value, S, T);
    }
    WhitesShrink(g1, g2);
    MarkObjectIn(g2, b.env, S, T);
    assert ReallyMark(g, o) == MarkObject(g2, b.env);
  }

  lemma {:induction false} MarkAllIn(g: State, vs: seq<Value>, S: set<Ref>, T: set<Ref>)
    requires Shut(g.heap, S, T) && Inside(g, S, T) && ValueRefs(vs) <= S
    ensures Inside(MarkAll(g, vs), S, T) && MarkAll(g, vs).heap == g.heap
    decreases |vs|
  {
    if vs != [] {
      assert vs == [vs[0]] + vs[1..];
      ConcatRefs([vs[0]], vs[1..]);
      assert ValueRefs([vs[0]]) == ValueRef(vs[0]);
      MarkValueIn(g, vs[0], S, T);
      MarkAllIn(MarkValue(g, vs[0]), vs[1..], S, T);
    }
  }

  lemma ShutTidied(h: map<Ref, Body>, k: map<Ref, Body>, S: set<Ref>, T: set<Ref>)
    requires Shut(h, S, T) && TidiedHeap(h, k)
    ensures Shut(k, S, T)
  {
    forall x | x in S && x in k && x !in T ensures StrongRefs(k, k[x]) <= S { TidiedRefs(h, k, x); }
  }

  lemma InsideTidied(g: State, r: State, S: set<Ref>, T: set<Ref>)
    requires Inside(g, S, T) && TidiedHeap(g.heap, r.heap) && r.mark == g.mark
    ensures Inside(r, S, T)
  {
    forall x | x in T ensures r.heap[x].Udata? { assert Tidied(g.heap[x], r.heap[x]); }
  }

  lemma TraverseTableIn(g: State, o: Ref, S: set<Ref>, T: set<Ref>)
    requires Shut(g.heap, S, T) && Inside(g, S, T) && o in S && o !in T && o in g.heap && g.heap[o].Table?
    ensures Inside(TraverseTable(g, o), S, T)
  {
    hide MarkAll, MarkObject, Inside, Shut, StrongRefs;
    var b := g.heap[o];
    var w := Mode(g.heap, b.mt);
    TableShut(g, o, w, S, T);
    var m := if b.mt.Some? then MarkObject(g, b.mt.value) else g;
    if b.mt.Some? { MarkObjectIn(g, b.mt.value, S, T); }
    var g1 := TraverseHead(g, o, w);
    TidyOne(g.heap, o, b.(weakBits := w));
    assert TidiedHeap(m.heap, g1.heap) && g1.mark == m.mark;
    InsideTidied(m, g1, S, T);
    if !(w.keys && w.values) {
      ShutTidied(g.heap, g1.heap, S, T);
      var h1 := if w.values then g1 else MarkAll(g1, Rev(b.arr));
      if !w.values { MarkAllIn(g1, Rev(b.arr), S, T); }
      var h2 := MarkAll(h1, NodeOrder(b.nodes, w));
      MarkAllIn(h1, NodeOrder(b.nodes, w), S, T);
      TablePartsIn(h2, g1, o, w, S, T);
    }
  }

  lemma TablePartsIn(h: State, g1: State, o: Ref, w: Weak, S: set<Ref>, T: set<Ref>)
    requires o in g1.heap && g1.heap[o].Table? && h.heap == g1.heap && Inside(h, S, T)
    requires var b := g1.heap[o];
      h == MarkAll(if w.values then g1 else MarkAll(g1, Rev(b.arr)), NodeOrder(b.nodes, w))
    ensures Inside(TraverseParts(g1, o, w), S, T)
  {
    hide Inside, MarkAll;
    var b := g1.heap[o];
    CleanTidied(b);
    TidyOne(g1.heap, o, b.(nodes := CleanNodes(b.nodes)));
    InsideTidied(h, TraverseParts(g1, o, w), S, T);
  }

  lemma TableShut(g: State, o: Ref, w: Weak, S: set<Ref>, T: set<Ref>)
    requires Shut(g.heap, S, T) && o in S && o !in T && o in g.heap && g.heap[o].Table?
        && w == Mode(g.heap, g.heap[o].mt)
    ensures OptRef(g.heap[o].mt) <= S
    ensures !w.values ==> ValueRefs(Rev(g.heap[o].arr)) <= S
    ensures ValueRefs(NodeOrder(g.heap[o].nodes, w)) <= S
  {
    assert StrongRefs(g.heap, g.heap[o]) <= S;
    RevRefs(g.heap[o].arr);
    NodeOrderRefs(g.heap[o].nodes, w);
  }

  lemma PopIn(g: State, r: State, c: Color, S: set<Ref>, T: set<Ref>)
    requires g.gray != [] && Inside(g, S, T) && Marked(g, g.gray[0]) && !c.White?
    requires r == g.(gray := g.gray[1..], grayagain := r.grayagain, mark := g.mark[g.gray[0] := c])
    ensures Inside(r, S, T)
  {}

  lemma PropagateMarkIn(g: State, S: set<Ref>, T: set<Ref>)
    requires g.gray != [] && g.gray[0] in g.heap && Marked(g, g.gray[0]) && Listable(g.heap[g.gray[0]])
    requires Shut(g.heap, S, T) && Inside(g, S, T)
    ensures Inside(PropagateMark(g), S, T)
  {
    var o := g.gray[0];
    var b := g.heap[o];
    assert o in S && o !in T && StrongRefs(g.heap, b) <= S;
    var g1 := g.(gray := g.gray[1..], mark := g.mark[o := Black]);
    hide Inside, Shut, StrongRefs, MarkAll, TraverseTable;
    if b.Table? {
      PopIn(g, g1, Black, S, T);
      TraverseTableIn(g1, o, S, T);
      RemarkIn(TraverseTable(g1, o), o, S, T);
    } else {
      OrderRefs(g.heap, b);
      var g2 := if b.Thread? then g1.(grayagain := [o] + g.grayagain, mark := g.mark[o := Gray]) else g1;
      PopIn(g, g2, if b.Thread? then Gray else Black, S, T);
      MarkAllIn(g2, Order(b), S, T);
    }
  }

  lemma RemarkIn(g: State, o: Ref, S: set<Ref>, T: set<Ref>)
    requires Inside(g, S, T) && o in S
    ensures Inside(g.(mark := g.mark[o := Gray]), S, T)
  {}

  lemma GrayHead(g: State, P: set<Ref>)
    requires Tri(g, P, {}) && g.gray != []
    ensures g.gray[0] in g.heap && Marked(g, g.gray[0]) && Listable(g.heap[g.gray[0]])
  {
    PopTri(g, Black, P);
  }

  lemma {:induction false} PropagateAllIn(g: State, S: set<Ref>, T: set<Ref>)
    requires Markable(g) && Shut(g.heap, S, T) && Inside(g, S, T)
    ensures Inside(PropagateAll(g), S, T)
    decreases |Whites(g)| + |g.gray|
  {
    hide Tri, NoDangling, Inside, Shut, PropagateMark;
    if g.gray != [] {
      GrayHead(g, g.heap.Keys);
      PropagateMarkIn(g, S, T);
      PropagateTri(g, g.heap.Keys);
      TriMarkable(PropagateMark(g), g.heap.Keys);
      PropagatedTidied(g, PropagateMark(g));
      ShutTidied(g.heap, PropagateMark(g).heap, S, T);
      PropagateAllIn(PropagateMark(g), S, T);
    }
  }

  lemma {:induction false} RemarkUpvalsIn(g: State, us: seq<Ref>, S: set<Ref>, T: set<Ref>)
    requires Shut(g.heap, S, T) && Inside(g, S, T)
    ensures Inside(RemarkUpvals(g, us), S, T) && RemarkUpvals(g, us).heap == g.heap
    decreases |us|
  {
    if us != [] {
      var u := us[0];
      if IsGray(g, u) && u in g.heap && g.heap[u].UpVal? {
        assert Marked(g, u) && u !in T && StrongRefs(g.heap, g.heap[u]) <= S;
        MarkValueIn(g, UpvalValue(g.heap, g.heap[u].home), S, T);
      }
      RemarkUpvalsIn(RemarkOne(g, u), us[1..], S, T);
    }
  }

  lemma {:induction false} MarkMtIn(g: State, ms: seq<Option<Ref>>, S: set<Ref>, T: set<Ref>)
    requires Shut(g.heap, S, T) && Inside(g, S, T) && forall m | m in ms && m.Some? :: m.value in S
    ensures Inside(MarkMt(g, ms), S, T)
    decreases |ms|
  {
    if ms != [] {
      assert ms[0] in ms;
      var h := if ms[0].Some? then MarkObject(g, ms[0].value) else g;
      if ms[0].Some? { MarkObjectIn(g, ms[0].value, S, T); }
      MarkMtIn(h, ms[1..], S, T);
    }
  }

  lemma {:induction false} MarkTmuIn(g: State, us: seq<Ref>, S: set<Ref>)
    requires Shut(g.heap, S, {}) && Inside(g, S, {}) && forall u | u in us :: u in S
    ensures Inside(MarkTmu(g, us), S, {})
    decreases |us|
  {
    if us != [] {
      var u := us[0];
      assert u in us;
      if u in g.heap {
        assert Inside(MakeWhite(g, u), S, {});
        ReallyMarkIn(MakeWhite(g, u), u, S, {});
      }
      MarkTmuIn(RemarkUdata(g, u), us[1..], S);
    }
  }
}
