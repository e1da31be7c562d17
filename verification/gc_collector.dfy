/** The collector as it runs: `global_State` with fields that loops update in place. Every method
    is proved against the function on states of the same name. */
module GcCollector {
  import opened GcHeap
  import opened GcMark
  import opened GcAtomic
  import opened GcSweep
  import opened GcCycle
  import opened GcSteps
  import opened GcAlloc
  import opened GcRun
  import opened GcReach
  import opened GcFull
  import opened GcMutator
  import opened GcOps

  // ---------- marking does not look into tables ----------

  /** Two heaps that differ in tables only. */
  ghost predicate TablesApart(h: map<Ref, Body>, k: map<Ref, Body>) {
    && h.Keys == k.Keys
    && forall x | x in h :: (k[x] == h[x] || (h[x].Table? && k[x].Table?))
  }

  lemma UpvalueApart(h: map<Ref, Body>, k: map<Ref, Body>, home: Home)
    requires TablesApart(h, k)
    ensures UpvalValue(k, home) == UpvalValue(h, home)
  {}

  lemma {:induction false} MarkObjectApart(g: State, k: map<Ref, Body>, o: Ref)
    requires TablesApart(g.heap, k)
    ensures MarkObject(g.(heap := k), o) == MarkObject(g, o).(heap := k)
    decreases |Whites(g)|, 1
  {
    if IsWhite(g, o) && o in g.heap { ReallyMarkApart(g, k, o); }
  }

  lemma {:induction false} MarkValueApart(g: State, k: map<Ref, Body>, v: Value)
    requires TablesApart(g.heap, k)
    ensures MarkValue(g.(heap := k), v) == MarkValue(g, v).(heap := k)
    decreases |Whites(g)|, 2
  {
    if v.Coll? { MarkObjectApart(g, k, v.r); }
  }

  lemma {:induction false} ReallyMarkApart(g: State, k: map<Ref, Body>, o: Ref)
    requires TablesApart(g.heap, k) && IsWhite(g, o) && o in g.heap
    ensures ReallyMark(g.(heap := k), o) == ReallyMark(g, o).(heap := k)
    decreases |Whites(g)|, 0
  {
    var b := g.heap[o];
    var g1 := g.(mark := g.mark[o := if b.Udata? then Black else Gray]);
    assert Whites(g1) == Whites(g) - {o};
    assert g.(heap := k).(mark := g1.mark) == g1.(heap := k);
    if b.Udata? {
      var g2 := if b.mt.Some? then MarkObject(g1, b.mt.value) else g1;
      WhitesShrink(g1, g2);
      if b.mt.Some? { MarkObjectApart(g1, k, b.mt.value); }
      MarkObjectApart(g2, k, b.env);
    } else if b.UpVal? {
      UpvalueApart(g.heap, k, b.home);
      MarkValueApart(g1, k, UpvalValue(g.heap, b.home));
    }
  }

  lemma {:induction false} MarkAllApart(g: State, k: map<Ref, Body>, vs: seq<Value>)
    requires TablesApart(g.heap, k)
    ensures MarkAll(g.(heap := k), vs) == MarkAll(g, vs).(heap := k)
    decreases |vs|
  {
    if vs != [] {
      MarkValueApart(g, k, vs[0]);
      MarkAllApart(MarkValue(g, vs[0]), k, vs[1..]);
    }
  }

  lemma {:induction false} MarkAllConcat(g: State, us: seq<Value>, vs: seq<Value>)
    ensures MarkAll(g, us + vs) == MarkAll(MarkAll(g, us), vs)
    decreases |us|
  {
    if us == [] {
      assert us + vs == vs;
    } else {
      assert (us + vs)[1..] == us[1..] + vs;
      MarkAllConcat(MarkValue(g, us[0]), us[1..], vs);
    }
  }

  /** The last value of a prefix is the first one that `Rev` yields. */
  lemma RevPrefix(vs: seq<Value>, i: nat)
    requires 0 < i <= |vs|
    ensures Rev(vs[..i]) == [vs[i - 1]] + Rev(vs[..i - 1])
  {
    if i == 1 {
      assert vs[..1][1..] == [] && vs[..0] == [];
    } else {
      RevPrefix(vs[1..], i - 1);
      assert vs[..i][1..] == vs[1..][..i - 1];
      assert vs[..i - 1][1..] == vs[1..][..i - 2];
    }
  }

  lemma OrderPrefix(ns: seq<Node>, w: Weak, i: nat)
    requires 0 < i <= |ns|
    ensures NodeOrder(ns[..i], w) == NodeOrder([ns[i - 1]], w) + NodeOrder(ns[..i - 1], w)
  {
    if i == 1 {
      assert ns[..1] == [ns[0]] && ns[..0] == [];
    } else {
      OrderPrefix(ns[1..], w, i - 1);
      assert ns[..i][1..] == ns[1..][..i - 1];
      assert ns[..i - 1][1..] == ns[1..][..i - 2];
      assert ns[..i][0] == ns[..i - 1][0];
    }
  }

  lemma UntmuIs(g: State)
    requires g.tmudata != [] && g.mainthread in g.rootgc
    ensures After(g.rootgc, g.mainthread) <= |g.rootgc|
    ensures var i := After(g.rootgc, g.mainthread); var o := g.tmudata[0];
      Untmu(g) == g.(tmudata := g.tmudata[1..], rootgc := g.rootgc[..i] + [o] + g.rootgc[i..],
                     sweepgc := if g.sweepgc > i then g.sweepgc + 1 else g.sweepgc,
                     mark := g.mark[o := White(g.currentwhite)])
  {
    AfterIn(g.rootgc, g.mainthread);
    hide After;
  }

  lemma ClearTableIs(g: State, t: Ref)
    requires t in g.heap && g.heap[t].Table?
    ensures var b := g.heap[t]; var w := b.weakBits.values;
      GcAtomic.ClearTable(g, t) == g.(
        heap := g.heap[t := b.(arr := if w then ClearArr(g, b.arr) else b.arr, nodes := ClearNodes(g, b.nodes))],
        mark := StringMarks(g.mark, (if w then ArrHits(g, b.arr) else {}) + NodesHits(g, b.nodes)))
  {
    hide ClearArr, ClearNodes, StringMarks, ArrHits, NodesHits;
  }

  /** The heap when the nodes of `o` from `i` on have been traversed. */
  function PartClean(h: map<Ref, Body>, o: Ref, i: nat): map<Ref, Body>
    requires o in h && h[o].Table? && i <= |h[o].nodes|
  {
    h[o := h[o].(nodes := h[o].nodes[..i] + CleanNodes(h[o].nodes[i..]))]
  }

  lemma NodesStart(g: State, o: Ref, w: Weak)
    requires o in g.heap && g.heap[o].Table?
    ensures var ns := g.heap[o].nodes; PartClean(g.heap, o, |ns|) == g.heap && ns[..|ns|] == ns
  {
    var ns := g.heap[o].nodes;
    assert ns[..|ns|] == ns && ns[|ns|..] == [] && CleanNodes([]) == [];
    SameEntry(g.heap, o);
  }

  lemma NodesClean(h: map<Ref, Body>, o: Ref, i: nat)
    requires o in h && h[o].Table? && 0 < i <= |h[o].nodes|
    ensures var n := h[o].nodes[i - 1]; var p := PartClean(h, o, i);
      && TablesApart(h, p) && p[o].nodes[i - 1] == n
      && PartClean(h, o, i - 1) == if n.val == Nil then h[o := h[o].(nodes := p[o].nodes[i - 1 := Clean(n)])] else p
  {
    var ns := h[o].nodes;
    CleanSuffix(ns, i);
    LiveIsClean(ns[i - 1]);
    hide CleanNodes, Clean;
    OneCleaned(ns, i, CleanNodes(ns[i..]), Clean(ns[i - 1]));
  }

  lemma LiveIsClean(n: Node)
    ensures n.val != Nil ==> Clean(n) == n
  {}

  lemma OneCleaned(ns: seq<Node>, i: nat, z: seq<Node>, c: Node)
    requires 0 < i <= |ns|
    ensures (ns[..i] + z)[i - 1 := c] == ns[..i - 1] + ([c] + z) && (ns[..i] + z)[i - 1] == ns[i - 1]
    ensures c == ns[i - 1] ==> ns[..i] + z == ns[..i - 1] + ([c] + z)
  {}

  lemma NodesOrder(s: State, ns: seq<Node>, i: nat, w: Weak)
    requires 0 < i <= |ns|
    ensures MarkAll(s, NodeOrder(ns[..i], w)) ==
      MarkAll(if ns[i - 1].val == Nil then s else EntryMarked(s, ns[i - 1], w), NodeOrder(ns[..i - 1], w))
  {
    OrderPrefix(ns, w, i);
    MarkAllConcat(s, NodeOrder([ns[i - 1]], w), NodeOrder(ns[..i - 1], w));
    OneOrder(ns[i - 1], w, s);
    hide MarkAll, NodeOrder, GcHeap.MarkValue;
  }

  /** `markvalue` on the key and the value of an entry, as far as they are strong. */
  function EntryMarked(g: State, n: Node, w: Weak): State {
    var k := if w.keys then g else GcHeap.MarkValue(g, n.key);
    if w.values then k else GcHeap.MarkValue(k, n.val)
  }

  lemma NodesEnd(h: map<Ref, Body>, o: Ref, w: Weak, s: State)
    requires o in h && h[o].Table?
    ensures PartClean(h, o, 0) == h[o := h[o].(nodes := CleanNodes(h[o].nodes))]
    ensures MarkAll(s, NodeOrder(h[o].nodes[..0], w)) == s
  {
    var ns := h[o].nodes;
    assert ns[..0] == [] && ns[0..] == ns && [] + CleanNodes(ns) == CleanNodes(ns);
    MarkNone(s);
    NoOrder(w);
  }

  lemma FewerWhites(g: State, o: Ref, c: Color)
    requires IsWhite(g, o) && !c.White?
    ensures |Whites(g.(mark := g.mark[o := c]))| < |Whites(g)|
  {
    assert Whites(g.(mark := g.mark[o := c])) == Whites(g) - {o};
  }

  lemma SameGray(g: State, o: Ref)
    requires o in g.mark && g.mark[o].Gray?
    ensures g.mark[o := Gray] == g.mark
  {}

  lemma CleanSuffix(ns: seq<Node>, i: nat)
    requires 0 < i <= |ns|
    ensures CleanNodes(ns[i - 1..]) == [Clean(ns[i - 1])] + CleanNodes(ns[i..])
  {
    assert ns[i - 1..][1..] == ns[i..];
  }

  lemma OneOrder(n: Node, w: Weak, g: State)
    ensures n.val == Nil ==> MarkAll(g, NodeOrder([n], w)) == g
    ensures n.val != Nil ==> MarkAll(g, NodeOrder([n], w)) == EntryMarked(g, n, w)
  {
    assert [n][1..] == [];
    if n.val != Nil {
      var a := if w.keys then [] else [n.key];
      var b := if w.values then [] else [n.val];
      assert NodeOrder([n], w) == a + b;
      MarkAllConcat(g, a, b);
      assert [n.key][1..] == [] && [n.val][1..] == [];
    }
  }

  lemma MarkedHeap(g: State, o: Ref)
    ensures GcHeap.MarkObject(g, o).heap == g.heap && GcHeap.MarkObject(g, o).weak == g.weak
  {}

  lemma MarkedAllHeap(g: State, vs: seq<Value>)
    ensures MarkAll(g, vs).heap == g.heap && MarkAll(g, vs).weak == g.weak
  {}

  lemma NoOrder(w: Weak)
    ensures NodeOrder([], w) == []
  {}

  lemma SameEntry(h: map<Ref, Body>, o: Ref)
    requires o in h && h[o].Table?
    ensures h[o := h[o].(nodes := h[o].nodes + [])] == h
  {
    assert h[o].nodes + [] == h[o].nodes;
    assert h[o := h[o]] == h;
  }

  // ---------- clearing looks at no string ----------

  /** `s` is `g` with changes to tables, and with some strings marked. */
  ghost predicate StringsMarked(g: State, s: State) {
    && TablesApart(g.heap, s.heap) && s.mark.Keys == g.mark.Keys
    && forall x | x in g.mark :: s.mark[x] == g.mark[x] || (x in g.heap && g.heap[x].Str?)
  }

  lemma ClearedApart(g: State, s: State, v: Value, iskey: bool)
    requires StringsMarked(g, s)
    ensures Cleared(s, v, iskey) == Cleared(g, v, iskey) && StringHit(s, v) == StringHit(g, v)
  {}

  lemma HitIsApart(g: State, s: State, hits: set<Ref>)
    requires TablesApart(g.heap, s.heap) && s.mark == StringMarks(g.mark, hits)
    requires forall x | x in hits :: x in g.heap && g.heap[x].Str?
    ensures StringsMarked(g, s)
  {}

  lemma MarksJoin(m: map<Ref, Color>, a: set<Ref>, b: set<Ref>)
    ensures StringMarks(StringMarks(m, a), b) == StringMarks(m, a + b)
  {}

  lemma NoMarks(m: map<Ref, Color>)
    ensures StringMarks(m, {}) == m
  {}

  lemma ArrSuffix(g: State, vs: seq<Value>, i: nat)
    requires 0 < i <= |vs|
    ensures ArrHits(g, vs[i - 1..]) == StringHit(g, vs[i - 1]) + ArrHits(g, vs[i..])
    ensures ClearArr(g, vs[i - 1..]) == [if Cleared(g, vs[i - 1], false) then Nil else vs[i - 1]] + ClearArr(g, vs[i..])
  {
    assert vs[i - 1..][1..] == vs[i..];
  }

  lemma NodesSuffix(g: State, ns: seq<Node>, i: nat)
    requires 0 < i <= |ns|
    ensures NodesHits(g, ns[i - 1..]) == NodeHits(g, ns[i - 1]) + NodesHits(g, ns[i..])
    ensures ClearNodes(g, ns[i - 1..]) == [ClearNode(g, ns[i - 1])] + ClearNodes(g, ns[i..])
  {
    assert ns[i - 1..][1..] == ns[i..];
  }

  lemma SameTable(h: map<Ref, Body>, o: Ref, b: Body)
    requires o in h && h[o] == b
    ensures h[o := b] == h
  {}

  lemma ArrHitsStr(g: State, vs: seq<Value>)
    ensures forall x | x in ArrHits(g, vs) :: x in g.heap && g.heap[x].Str?
  {
    HitsAreStrings(g, vs);
  }

  lemma NoHits(g: State)
    ensures ArrHits(g, []) == {} && ClearArr(g, []) == [] && NodesHits(g, []) == {} && ClearNodes(g, []) == []
  {}

  lemma EntryApart(g: State, s: State, t: Ref, b: Body)
    requires StringsMarked(g, s) && t in s.heap && s.heap[t].Table? && b.Table?
    ensures StringsMarked(g, s.(heap := s.heap[t := b]))
  {}

  lemma StringHitStr(g: State, v: Value)
    ensures forall x | x in StringHit(g, v) :: x in g.heap && g.heap[x].Str?
  {}

  lemma MoreStrings(g: State, s: State, r: State, hits: set<Ref>)
    requires StringsMarked(g, s) && r == s.(mark := StringMarks(s.mark, hits))
    requires forall x | x in hits :: x in g.heap && g.heap[x].Str?
    ensures StringsMarked(g, r)
  {}

  lemma ClearNoTable(g: State, t: Ref)
    requires t !in g.heap || !g.heap[t].Table?
    ensures GcAtomic.ClearTable(g, t) == g
  {}

  // ---------- sweeping one object after the other ----------

  lemma SweepNone(g: State)
    ensures SweepObjects(g, []) == g && Without([], {}) == []
  {
    assert DeadOf(g, []) == {};
    assert g.heap - {} == g.heap;
  }

  lemma DeadSnoc(g: State, s: seq<Ref>, x: Ref)
    ensures DeadOf(g, s + [x]) == DeadOf(g, s) + (if Alive(g, x) then {} else {x})
  {}

  lemma SweepSnoc(g: State, s: seq<Ref>, x: Ref)
    requires g.mark.Keys == g.heap.Keys
    ensures Alive(SweepObjects(g, s), x) == Alive(g, x)
    ensures SweepObjects(g, s).mark.Keys == SweepObjects(g, s).heap.Keys
    ensures var h := SweepObjects(g, s);
      SweepObjects(g, s + [x]) == if Alive(g, x) then MakeWhite(h, x)
          else h.(heap := h.heap - {x}, mark := h.mark - {x})
  {
    DeadSnoc(g, s, x);
    var h := SweepObjects(g, s);
    var r := SweepObjects(g, s + [x]);
    if Alive(g, x) {
      assert r.heap == h.heap && r.mark == MakeWhite(h, x).mark;
    } else {
      assert r.heap == h.heap - {x} && r.mark == h.mark - {x};
    }
  }

  /** `Without`, in a form that loops can follow. */
  function Kept(s: seq<Ref>, d: set<Ref>): seq<Ref> {
    if s == [] then [] else (if s[0] in d then [] else [s[0]]) + Kept(s[1..], d)
  }

  lemma KeptIsWithout(s: seq<Ref>, d: set<Ref>)
    ensures Kept(s, d) == Without(s, d)
  {
    if s != [] { KeptIsWithout(s[1..], d); }
  }

  lemma KeptHead(s: seq<Ref>, d: set<Ref>)
    requires s != []
    ensures Kept(s, d) == (if s[0] in d then [] else [s[0]]) + Kept(s[1..], d)
  {}

  lemma {:induction false} KeptSnoc(s: seq<Ref>, x: Ref, d: set<Ref>)
    ensures Kept(s + [x], d) == Kept(s, d) + (if x in d then [] else [x])
  {
    if s == [] {
      assert [x][1..] == [] && s + [x] == [x];
    } else {
      assert (s + [x])[1..] == s[1..] + [x] && (s + [x])[0] == s[0];
      KeptSnoc(s[1..], x, d);
      KeptHead(s, d);
      KeptHead(s + [x], d);
      hide Kept;
    }
  }

  lemma {:induction false} KeptTwice(s: seq<Ref>, d: set<Ref>, x: Ref)
    ensures Kept(Kept(s, d), {x}) == Kept(s, d + {x})
  {
    if s != [] {
      KeptTwice(s[1..], d, x);
      if s[0] !in d {
        assert Kept(s, d) == [s[0]] + Kept(s[1..], d);
        assert Kept(s, d)[1..] == Kept(s[1..], d);
      } else {
        assert Kept(s, d) == Kept(s[1..], d);
      }
    }
  }

  lemma KeptNone(s: seq<Ref>)
    ensures Kept(s, {}) == s
  {
    if s != [] { KeptNone(s[1..]); }
  }

  /** The list that is being swept, after the part `s[..j]`. */
  function SweptList(s: seq<Ref>, d: set<Ref>, j: nat): seq<Ref>
    requires j <= |s|
  {
    Kept(s[..j], d) + s[j..]
  }

  lemma SweptStep(s: seq<Ref>, d: set<Ref>, j: nat)
    requires j < |s|
    ensures s[..j + 1] == s[..j] + [s[j]]
    ensures |Kept(s[..j], d)| < |SweptList(s, d, j)| && SweptList(s, d, j)[|Kept(s[..j], d)|] == s[j]
    ensures s[j] !in d ==>
      SweptList(s, d, j + 1) == SweptList(s, d, j) && |Kept(s[..j + 1], d)| == |Kept(s[..j], d)| + 1
    ensures s[j] in d ==>
      SweptList(s, d, j + 1) == Cut(SweptList(s, d, j), |Kept(s[..j], d)|) && |Kept(s[..j + 1], d)| == |Kept(s[..j], d)|
  {
    assert s[..j + 1] == s[..j] + [s[j]];
    KeptSnoc(s[..j], s[j], d);
    hide Kept;
    assert s[j..] == [s[j]] + s[j + 1..];
  }

  lemma SweptEnds(s: seq<Ref>, d: set<Ref>)
    ensures s[..0] == [] && Kept(s[..0], d) == [] && SweptList(s, d, 0) == s
    ensures s[..|s|] == s && SweptList(s, d, |s|) == Kept(s, d)
  {
    assert s[..0] == [] && s[0..] == s && s[|s|..] == [] && s[..|s|] == s;
    assert Kept(s[..|s|], d) + [] == Kept(s, d);
  }

  /** The state during the sweep of the open upvalues of a thread. */
  function SweepingOpen(g: State, t: Ref, us: seq<Ref>, j: nat): State
    requires t in g.heap && g.heap[t].Thread? && j <= |us|
  {
    var h := SweepObjects(g, us[..j]);
    h.(heap := h.heap[t := g.heap[t].(openupval := SweptList(us, DeadOf(g, us), j))],
       uvhead := Kept(g.uvhead, DeadOf(g, us[..j])))
  }

  lemma SweepingOpenEnds(g: State, t: Ref)
    requires t in g.heap && g.heap[t].Thread? && t !in g.heap[t].openupval
    ensures var us := g.heap[t].openupval;
      SweepingOpen(g, t, us, 0) == g && SweepingOpen(g, t, us, |us|) == SweepOpen(g, t)
  {
    var us := g.heap[t].openupval;
    SweptEnds(us, DeadOf(g, us));
    SweepNone(g);
    KeptNone(g.uvhead);
    assert DeadOf(g, []) == {};
    assert g.heap[t := g.heap[t]] == g.heap;
    KeptIsWithout(us, DeadOf(g, us));
    KeptIsWithout(g.uvhead, DeadOf(g, us));
  }

  /** An open upvalue is unlinked and freed. */
  function FreedOpen(h: State, t: Ref, p: nat): State
    requires t in h.heap && h.heap[t].Thread? && p < |h.heap[t].openupval|
  {
    var us := h.heap[t].openupval;
    h.(heap := h.heap[t := h.heap[t].(openupval := Cut(us, p))] - {us[p]}, mark := h.mark - {us[p]},
       uvhead := Without(h.uvhead, {us[p]}))
  }

  lemma SweepingOpenAlive(g: State, t: Ref, us: seq<Ref>, j: nat)
    requires t in g.heap && g.heap[t].Thread? && j < |us| && us[j] != t && g.mark.Keys == g.heap.Keys && Alive(g, us[j])
    ensures SweepingOpen(g, t, us, j + 1) == MakeWhite(SweepingOpen(g, t, us, j), us[j])
  {
    SweepSnoc(g, us[..j], us[j]);
    SweptStep(us, DeadOf(g, us), j);
    DeadSnoc(g, us[..j], us[j]);
    InDead(g, us, us[j]);
    hide SweepObjects, Kept, DeadOf, SweptList, Alive;
    assert DeadOf(g, us[..j]) + {} == DeadOf(g, us[..j]);
  }

  lemma SweepingOpenDead(g: State, t: Ref, us: seq<Ref>, j: nat, p: nat)
    requires t in g.heap && g.heap[t].Thread? && j < |us| && us[j] != t && g.mark.Keys == g.heap.Keys
        && !Alive(g, us[j])
    requires p == |Kept(us[..j], DeadOf(g, us))| < |SweptList(us, DeadOf(g, us), j)|
    requires SweptList(us, DeadOf(g, us), j)[p] == us[j]
    ensures SweepingOpen(g, t, us, j + 1) == FreedOpen(SweepingOpen(g, t, us, j), t, p)
  {
    var u := us[j];
    SweepSnoc(g, us[..j], u);
    SweptStep(us, DeadOf(g, us), j);
    DeadSnoc(g, us[..j], u);
    KeptTwice(g.uvhead, DeadOf(g, us[..j]), u);
    InDead(g, us, u);
    var h := SweepingOpen(g, t, us, j);
    var k := SweepObjects(g, us[..j]);
    KeptIsWithout(h.uvhead, {u});
    hide SweepObjects, Kept, DeadOf, SweptList, Alive, Without;
    RemoveThenPut(k.heap, t, SweepingOpen(g, t, us, j + 1).heap[t],
        g.heap[t].(openupval := SweptList(us, DeadOf(g, us), j)), u);
  }

  lemma RemoveThenPut(h: map<Ref, Body>, t: Ref, b: Body, c: Body, u: Ref)
    requires u != t
    ensures (h - {u})[t := b] == h[t := c][t := b] - {u}
  {}

  lemma SweepingOpenStep(g: State, t: Ref, us: seq<Ref>, j: nat, p: nat)
    requires t in g.heap && g.heap[t].Thread? && j < |us| && us[j] != t && g.mark.Keys == g.heap.Keys
    requires p == |Kept(us[..j], DeadOf(g, us))|
    ensures var h := SweepingOpen(g, t, us, j);
      && t in h.heap && h.heap[t].Thread? && p < |h.heap[t].openupval| && h.heap[t].openupval[p] == us[j]
      && SweepingOpen(g, t, us, j + 1) == (if Alive(h, us[j]) then MakeWhite(h, us[j]) else FreedOpen(h, t, p))
      && |Kept(us[..j + 1], DeadOf(g, us))| == (if Alive(h, us[j]) then p + 1 else p)
  {
    SweepSnoc(g, us[..j], us[j]);
    SweptStep(us, DeadOf(g, us), j);
    InDead(g, us, us[j]);
    SweepingOpenHas(g, t, us, j);
    SameAliveOne(SweepObjects(g, us[..j]), SweepingOpen(g, t, us, j), us[j]);
    hide SweepObjects, Kept, DeadOf, SweptList, Alive, FreedOpen, SweepingOpen;
    if Alive(g, us[j]) {
      SweepingOpenAlive(g, t, us, j);
    } else {
      SweepingOpenDead(g, t, us, j, p);
    }
  }

  lemma SweepingOpenHas(g: State, t: Ref, us: seq<Ref>, j: nat)
    requires t in g.heap && g.heap[t].Thread? && j <= |us|
    ensures var h := SweepingOpen(g, t, us, j);
      t in h.heap && h.heap[t] == g.heap[t].(openupval := SweptList(us, DeadOf(g, us), j))
  {}

  lemma InDead(g: State, s: seq<Ref>, x: Ref)
    requires x in s
    ensures x in DeadOf(g, s) <==> !Alive(g, x)
  {}

  /** The state when the first `j` strings of a bucket have been swept. */
  function PartSwept(g: State, k: nat, j: nat): State
    requires k < |g.strt| && j <= |g.strt[k]|
  {
    var s := g.strt[k];
    SweepObjects(g, s[..j]).(strt := g.strt[k := SweptList(s, DeadOf(g, s), j)])
  }

  lemma BucketStart(g: State, k: nat)
    requires k < |g.strt|
    ensures PartSwept(g, k, 0) == g && Kept(g.strt[k][..0], DeadOf(g, g.strt[k])) == []
  {
    SweptEnds(g.strt[k], DeadOf(g, g.strt[k]));
    SweepNone(g);
    hide SweepObjects, SweptList;
  }

  lemma BucketStep(g: State, k: nat, j: nat)
    requires k < |g.strt| && j <= |g.strt[k]| && g.mark.Keys == g.heap.Keys
    requires |Kept(g.strt[k][..j], DeadOf(g, g.strt[k]))| < |PartSwept(g, k, j).strt[k]|
    ensures j < |g.strt[k]|
    ensures var s := g.strt[k]; var d := DeadOf(g, s); var p := |Kept(s[..j], d)|; var x := s[j];
      var c := PartSwept(g, k, j);
      && c.strt[k][p] == x
      && PartSwept(g, k, j + 1) == (
           if Alive(c, x) then MakeWhite(c, x)
           else c.(strt := c.strt[k := Cut(c.strt[k], p)], heap := c.heap - {x}, mark := c.mark - {x}))
      && |Kept(s[..j + 1], d)| == if Alive(c, x) then p + 1 else p
  {
    var s := g.strt[k];
    var d := DeadOf(g, s);
    assert j < |s| by { if j == |s| { SweptEnds(s, d); } }
    SweptStep(s, d, j);
    SweepSnoc(g, s[..j], s[j]);
    InDead(g, s, s[j]);
    SameAliveOne(SweepObjects(g, s[..j]), PartSwept(g, k, j), s[j]);
    hide SweepObjects, SweptList, Kept, DeadOf, Alive, Cut;
  }

  lemma BucketEnd(g: State, k: nat, j: nat)
    requires k < |g.strt| && j <= |g.strt[k]|
    requires |Kept(g.strt[k][..j], DeadOf(g, g.strt[k]))| >= |PartSwept(g, k, j).strt[k]|
    ensures PartSwept(g, k, j) == SweepBucket(g, k)
  {
    var s := g.strt[k];
    var d := DeadOf(g, s);
    assert j == |s| by { if j < |s| { SweptStep(s, d, j); } }
    SweptEnds(s, d);
    KeptIsWithout(s, d);
    hide SweepObjects, SweptList, Kept, DeadOf;
  }

  lemma SameAliveOne(g: State, r: State, x: Ref)
    requires r.mark == g.mark && r.currentwhite == g.currentwhite && r.fixed == g.fixed
    ensures Alive(r, x) == Alive(g, x)
  {}

  class Collector {
    var heap: map<Ref, Body>
    var mark: map<Ref, Color>
    var fixed: set<Ref>
    var currentwhite: bool
    var phase: Phase
    var rootgc: seq<Ref>
    var sweepgc: nat
    var strt: seq<seq<Ref>>
    var sweepstrgc: nat
    var gray: seq<Ref>
    var grayagain: seq<Ref>
    var weak: seq<Ref>
    var tmudata: seq<Ref>
    var uvhead: seq<Ref>
    var mainthread: Ref
    var running: Ref
    var registry: Value
    var mt: seq<Option<Ref>>

    function Snapshot(): State
      reads this
    {
      State(heap, mark, fixed, currentwhite, phase, rootgc, sweepgc, strt, sweepstrgc,
            gray, grayagain, weak, tmudata, uvhead, mainthread, running, registry, mt)
    }

    /** `lua_newstate` */
    constructor (tags: nat)
      ensures Snapshot() == FirstState(tags) && Inv(Snapshot())
    {
      var g := FirstState(tags);
      FirstInv(tags);
      heap, mark, fixed, currentwhite, phase := g.heap, g.mark, g.fixed, g.currentwhite, g.phase;
      rootgc, sweepgc, strt, sweepstrgc := g.rootgc, g.sweepgc, g.strt, g.sweepstrgc;
      gray, grayagain, weak, tmudata, uvhead := g.gray, g.grayagain, g.weak, g.tmudata, g.uvhead;
      mainthread, running, registry, mt := g.mainthread, g.running, g.registry, g.mt;
    }

    /** `reallymarkobject` */
    method ReallyMarkObject(o: Ref)
      requires o in heap && IsWhite(Snapshot(), o)
      modifies `mark, `gray
      ensures Snapshot() == ReallyMark(old(Snapshot()), o)
      decreases |Whites(Snapshot())|, 0
    {
      hide MarkedFrom, Whites;
      ghost var g := Snapshot();
      FewerWhites(g, o, Gray);
      FewerWhites(g, o, Black);
      mark := mark[o := Gray];
      match heap[o]
      case Str =>
      case Udata(mt, env, _) =>
        mark := mark[o := Black];
        assert mark == g.mark[o := Black];
        ghost var g1 := Snapshot();
        if mt.Some? { MarkObject(mt.value); } else { MarkedReflexive(g1); }
        WhitesShrink(g1, Snapshot());
        MarkObject(env);
      case UpVal(home) =>
        ghost var g1 := Snapshot();
        MarkValue(UpvalValue(heap, home));
        MarkedSince(g, o, Gray, Snapshot());
        SameGray(Snapshot(), o);
        if home.Closed? { mark := mark[o := Black]; }
      case _ =>
        gray := [o] + gray;
    }

    /** `markobject` */
    method MarkObject(o: Ref)
      modifies `mark, `gray
      ensures Snapshot() == GcHeap.MarkObject(old(Snapshot()), o)
      decreases |Whites(Snapshot())|, 1
    {
      if o in heap && o in mark && mark[o].White? { ReallyMarkObject(o); }
    }

    /** `markvalue` */
    method MarkValue(v: Value)
      modifies `mark, `gray
      ensures Snapshot() == GcHeap.MarkValue(old(Snapshot()), v)
      decreases |Whites(Snapshot())|, 2
    {
      if v.Coll? { MarkObject(v.r); }
    }

    /** The loops that mark the elements of an array in order. */
    method MarkArray(vs: seq<Value>)
      modifies `mark, `gray
      ensures Snapshot() == MarkAll(old(Snapshot()), vs)
    {
      var i := 0;
      while i < |vs|
        invariant i <= |vs|
        invariant MarkAll(Snapshot(), vs[i..]) == MarkAll(old(Snapshot()), vs)
      {
        assert vs[i..][1..] == vs[i + 1..];
        MarkValue(vs[i]);
        i := i + 1;
      }
    }

    /** The loop of `traversetable` over the array part, last element first. */
    method MarkArrayPart(vs: seq<Value>)
      modifies `mark, `gray
      ensures Snapshot() == MarkAll(old(Snapshot()), Rev(vs))
    {
      var i := |vs|;
      assert vs[..i] == vs;
      while i > 0
        invariant i <= |vs|
        invariant MarkAll(Snapshot(), Rev(vs[..i])) == MarkAll(old(Snapshot()), Rev(vs))
      {
        RevPrefix(vs, i);
        assert ([vs[i - 1]] + Rev(vs[..i - 1]))[1..] == Rev(vs[..i - 1]);
        i := i - 1;
        MarkValue(vs[i]);
      }
    }

    /** The loop of `traversetable` over the hash part, last node first. */
    method MarkNodes(o: Ref, w: Weak)
      requires o in heap && heap[o].Table?
      modifies `heap, `mark, `gray
      ensures var g := old(Snapshot()); var b := g.heap[o]; var r := MarkAll(g, NodeOrder(b.nodes, w));
        Snapshot() == r.(heap := r.heap[o := b.(nodes := CleanNodes(b.nodes))])
    {
      hide MarkAll, CleanNodes, NodeOrder, MarkedFrom, Clean, GcHeap.MarkValue;
      ghost var g := Snapshot();
      var b := heap[o];
      var ns := b.nodes;
      var i: nat := |ns|;
      NodesStart(g, o, w);
      while i > 0
        invariant i <= |ns| && heap == PartClean(g.heap, o, i)
        invariant MarkAll(Snapshot().(heap := g.heap), NodeOrder(ns[..i], w)) == MarkAll(g, NodeOrder(ns, w))
        invariant Snapshot() == g.(heap := heap, mark := mark, gray := gray)
      {
        NodesClean(g.heap, o, i);
        NodesOrder(Snapshot().(heap := g.heap), ns, i, w);
        i := i - 1;
        var n := heap[o].nodes[i];
        if n.val == Nil {
          heap := heap[o := b.(nodes := heap[o].nodes[i := Clean(n)])];
        } else {
          MarkEntry(n, w, g.heap);
        }
      }
      NodesEnd(g.heap, o, w, Snapshot().(heap := g.heap));
    }

    /** The key and the value of an entry are marked unless they are weak. */
    method MarkEntry(n: Node, w: Weak, ghost h: map<Ref, Body>)
      requires TablesApart(h, heap)
      modifies `mark, `gray
      ensures Snapshot() == old(Snapshot()).(mark := mark, gray := gray)
      ensures Snapshot().(heap := h) == EntryMarked(old(Snapshot()).(heap := h), n, w)
    {
      ghost var s := Snapshot().(heap := h);
      if !w.keys {
        MarkValueApart(s, heap, n.key);
        MarkValue(n.key);
      }
      if !w.values {
        MarkValueApart(Snapshot().(heap := h), heap, n.val);
        MarkValue(n.val);
      }
    }

    /** `traversetable` */
    method TraverseTable(o: Ref) returns (isWeak: bool)
      requires o in heap && heap[o].Table?
      modifies `heap, `mark, `gray, `weak
      ensures Snapshot() == GcMark.TraverseTable(old(Snapshot()), o)
      ensures var w := Mode(old(heap), old(heap)[o].mt); isWeak == (w.keys || w.values)
    {
      hide MarkedFrom, CleanNodes, NodeOrder, Rev, MarkAll, GcHeap.MarkObject, Mode;
      var b := heap[o];
      var w := Mode(heap, b.mt);
      if b.mt.Some? {
        MarkedHeap(Snapshot(), b.mt.value);
        MarkObject(b.mt.value);
      }
      if w.keys || w.values {
        heap := heap[o := b.(weakBits := w)];
        weak := [o] + weak;
      }
      isWeak := w.keys || w.values;
      assert Snapshot() == TraverseHead(old(Snapshot()), o, w);
      if w.keys && w.values { return; }
      if !w.values {
        MarkedAllHeap(Snapshot(), Rev(heap[o].arr));
        MarkArrayPart(heap[o].arr);
      }
      MarkNodes(o, w);
    }

    /** `propagatemark` */
    method PropagateMark()
      requires gray != [] && gray[0] in heap
      modifies `heap, `mark, `gray, `grayagain, `weak
      ensures Snapshot() == GcMark.PropagateMark(old(Snapshot()))
    {
      hide MarkedFrom, GcMark.TraverseTable, MarkAll, Order;
      ghost var g := Snapshot();
      var o := gray[0];
      mark := mark[o := Black];
      gray := gray[1..];
      if heap[o].Table? {
        var isWeak := TraverseTable(o);
        if isWeak { mark := mark[o := Gray]; }
      } else if heap[o].Thread? {
        grayagain := [o] + grayagain;
        mark := mark[o := Gray];
        assert mark == g.mark[o := Gray];
        MarkArray(Order(heap[o]));
      } else {
        MarkArray(Order(heap[o]));
      }
    }

    /** `propagateall` */
    method PropagateAll()
      requires Markable(Snapshot())
      modifies `heap, `mark, `gray, `grayagain, `weak
      ensures Snapshot() == GcAtomic.PropagateAll(old(Snapshot()))
    {
      while gray != []
        invariant Markable(Snapshot())
        invariant GcAtomic.PropagateAll(Snapshot()) == GcAtomic.PropagateAll(old(Snapshot()))
        decreases |Whites(Snapshot())| + |gray|
      {
        ghost var g := Snapshot();
        PropagateTri(g, g.heap.Keys);
        TriMarkable(GcMark.PropagateMark(g), g.heap.Keys);
        PropagateMark();
      }
    }

    /** `remarkupvals` */
    method RemarkUpvals()
      modifies `mark, `gray
      ensures Snapshot() == GcAtomic.RemarkUpvals(old(Snapshot()), uvhead)
    {
      var i := 0;
      while i < |uvhead|
        invariant i <= |uvhead|
        invariant GcAtomic.RemarkUpvals(Snapshot(), uvhead[i..]) == GcAtomic.RemarkUpvals(old(Snapshot()), uvhead)
      {
        var u := uvhead[i];
        assert uvhead[i..][1..] == uvhead[i + 1..];
        if u in mark && mark[u].Gray? && u in heap && heap[u].UpVal? { MarkValue(UpvalValue(heap, heap[u].home)); }
        i := i + 1;
      }
    }

    /** `markmt` */
    method MarkMt()
      modifies `mark, `gray
      ensures Snapshot() == GcAtomic.MarkMt(old(Snapshot()), mt)
    {
      var i := 0;
      while i < |mt|
        invariant i <= |mt|
        invariant GcAtomic.MarkMt(Snapshot(), mt[i..]) == GcAtomic.MarkMt(old(Snapshot()), mt)
      {
        assert mt[i..][1..] == mt[i + 1..];
        if mt[i].Some? { MarkObject(mt[i].value); }
        i := i + 1;
      }
    }

    /** One round of the loop of `luaC_separateudata`. */
    method SeparateAt(p: nat) returns (moved: bool)
      requires p < |rootgc|
      modifies `heap, `rootgc, `tmudata
      ensures Snapshot() == SeparateOne(old(Snapshot()), p) && moved == (|rootgc| < |old(rootgc)|)
          && |rootgc| <= |old(rootgc)|
    {
      hide HasGc;
      var curr := rootgc[p];
      moved := false;
      if curr in heap && heap[curr].Udata? && curr in mark && mark[curr].White? && !heap[curr].finalized {
        moved := HasGc(heap, heap[curr]);
        heap := heap[curr := heap[curr].(finalized := true)];
        if moved {
          rootgc := rootgc[..p] + rootgc[p + 1..];
          tmudata := tmudata + [curr];
        }
      }
    }

    /** `luaC_separateudata`, called with `all` false */
    method SeparateUdata()
      modifies `heap, `rootgc, `tmudata
      ensures Snapshot() == SeparateFrom(old(Snapshot()), After(old(rootgc), mainthread))
    {
      hide SeparateOne, After;
      var p: nat := After(rootgc, mainthread);
      while p < |rootgc|
        invariant SeparateFrom(Snapshot(), p) == SeparateFrom(old(Snapshot()), After(old(rootgc), mainthread))
        decreases |rootgc| - p
      {
        SeparateOneDoes(Snapshot(), p);
        var moved := SeparateAt(p);
        p := if moved then p else p + 1;
      }
    }

    /** `marktmu` */
    method MarkTmu()
      modifies `mark, `gray
      ensures Snapshot() == GcAtomic.MarkTmu(old(Snapshot()), tmudata)
    {
      var i := 0;
      while i < |tmudata|
        invariant i <= |tmudata|
        invariant GcAtomic.MarkTmu(Snapshot(), tmudata[i..]) == GcAtomic.MarkTmu(old(Snapshot()), tmudata)
      {
        var u := tmudata[i];
        assert tmudata[i..][1..] == tmudata[i + 1..];
        if u in heap {
          mark := mark[u := White(currentwhite)];
          ReallyMarkObject(u);
        }
        i := i + 1;
      }
    }

    /** `iscleared` */
    method IsCleared(v: Value, iskey: bool) returns (r: bool)
      modifies `mark
      ensures r == Cleared(old(Snapshot()), v, iskey)
      ensures mark == StringMarks(old(mark), StringHit(old(Snapshot()), v))
    {
      NoMarks(mark);
      if !v.Coll? || v.r !in heap { return false; }
      if heap[v.r].Str? {
        if v.r in mark && mark[v.r].White? { mark := mark[v.r := Gray]; }
        assert mark == StringMarks(old(mark), {v.r});
        return false;
      }
      return (v.r in mark && mark[v.r].White?) || (heap[v.r].Udata? && !iskey && heap[v.r].finalized);
    }

    /** The loop of `cleartable` over the array part. */
    method ClearArrayPart(t: Ref)
      requires t in heap && heap[t].Table?
      modifies `heap, `mark
      ensures var g := old(Snapshot()); var b := g.heap[t];
        && heap == g.heap[t := b.(arr := ClearArr(g, b.arr))]
        && mark == StringMarks(g.mark, ArrHits(g, b.arr))
    {
      hide ArrHits, ClearArr, StringHit, Cleared, StringMarks, StringsMarked;
      ghost var g := Snapshot();
      var b := heap[t];
      var vs := b.arr;
      var i := |vs|;
      assert vs[i..] == [];
      NoHits(g);
      assert vs[..i] + [] == vs;
      SameTable(heap, t, b.(arr := vs));
      NoMarks(mark);
      while i > 0
        invariant i <= |vs|
        invariant heap == g.heap[t := b.(arr := vs[..i] + ClearArr(g, vs[i..]))]
        invariant mark == StringMarks(g.mark, ArrHits(g, vs[i..]))
      {
        ArrSuffix(g, vs, i);
        ArrHitsStr(g, vs[i..]);
        HitIsApart(g, Snapshot(), ArrHits(g, vs[i..]));
        ClearedApart(g, Snapshot(), vs[i - 1], false);
        MarksJoin(g.mark, ArrHits(g, vs[i..]), StringHit(g, vs[i - 1]));
        assert ArrHits(g, vs[i..]) + StringHit(g, vs[i - 1]) == ArrHits(g, vs[i - 1..]);
        i := i - 1;
        assert heap[t].arr[i] == vs[i];
        var c := IsCleared(heap[t].arr[i], false);
        if c { heap := heap[t := b.(arr := heap[t].arr[i := Nil])]; }
        assert heap[t].arr == vs[..i] + ClearArr(g, vs[i..]);
      }
      assert vs[..0] + ClearArr(g, vs[0..]) == ClearArr(g, vs);
      assert vs[0..] == vs;
    }

    /** The loop of `cleartable` over the hash part; `s` is the state before `cleartable`. */
    method ClearHashPart(t: Ref, ghost s: State)
      requires t in heap && heap[t].Table? && StringsMarked(s, Snapshot())
      modifies `heap, `mark
      ensures var b := old(heap)[t];
        && heap == old(heap)[t := b.(nodes := ClearNodes(s, b.nodes))]
        && mark == StringMarks(old(mark), NodesHits(s, b.nodes))
    {
      hide NodesHits, ClearNodes, StringHit, Cleared, StringMarks, NodeHits, ClearNode, StringsMarked;
      var b := heap[t];
      var ns := b.nodes;
      var i := |ns|;
      assert ns[i..] == [];
      NoHits(s);
      assert ns[..i] + [] == ns;
      SameTable(heap, t, b.(nodes := ns));
      NoMarks(mark);
      while i > 0
        invariant i <= |ns|
        invariant heap == old(heap)[t := b.(nodes := ns[..i] + ClearNodes(s, ns[i..]))]
        invariant mark == StringMarks(old(mark), NodesHits(s, ns[i..]))
        invariant StringsMarked(s, Snapshot())
      {
        NodesSuffix(s, ns, i);
        MarksJoin(old(mark), NodesHits(s, ns[i..]), NodeHits(s, ns[i - 1]));
        assert NodesHits(s, ns[i..]) + NodeHits(s, ns[i - 1]) == NodesHits(s, ns[i - 1..]);
        i := i - 1;
        assert heap[t].nodes[i] == ns[i];
        ClearEntry(t, i, s);
        assert heap[t].nodes == ns[..i] + ClearNodes(s, ns[i..]);
      }
      assert ns[..0] + ClearNodes(s, ns[0..]) == ClearNodes(s, ns);
      assert ns[0..] == ns;
    }

    /** Is the key of an entry cleared, or else its value? */
    method IsEntryCleared(n: Node, ghost s: State) returns (c: bool)
      requires n.val != Nil && StringsMarked(s, Snapshot())
      modifies `mark
      ensures c == (Cleared(s, n.key, true) || Cleared(s, n.val, false))
      ensures mark == StringMarks(old(mark), NodeHits(s, n)) && StringsMarked(s, Snapshot())
    {
      hide StringHit, Cleared, StringMarks, StringsMarked;
      ClearedApart(s, Snapshot(), n.key, true);
      StringHitStr(s, n.key);
      c := IsCleared(n.key, true);
      MoreStrings(s, old(Snapshot()), Snapshot(), StringHit(s, n.key));
      assert StringHit(s, n.key) + {} == StringHit(s, n.key);
      if !c {
        ClearedApart(s, Snapshot(), n.val, false);
        StringHitStr(s, n.val);
        MarksJoin(old(mark), StringHit(s, n.key), StringHit(s, n.val));
        ghost var r := Snapshot();
        c := IsCleared(n.val, false);
        MoreStrings(s, r, Snapshot(), StringHit(s, n.val));
      }
    }

    /** One round of that loop. */
    method ClearEntry(t: Ref, i: nat, ghost s: State)
      requires t in heap && heap[t].Table? && i < |heap[t].nodes| && StringsMarked(s, Snapshot())
      modifies `heap, `mark
      ensures var b := old(heap)[t];
        && heap == old(heap)[t := b.(nodes := b.nodes[i := ClearNode(s, b.nodes[i])])]
        && mark == StringMarks(old(mark), NodeHits(s, b.nodes[i]))
      ensures StringsMarked(s, Snapshot())
    {
      hide StringHit, Cleared, StringMarks, StringsMarked;
      var b := heap[t];
      var n := b.nodes[i];
      NoMarks(mark);
      assert b.nodes[i := n] == b.nodes && heap[t := b] == heap;
      if n.val != Nil {
        var c := IsEntryCleared(n, s);
        if c {
          EntryApart(s, Snapshot(), t, b.(nodes := b.nodes[i := Clean(Node(n.key, Nil))]));
          heap := heap[t := b.(nodes := b.nodes[i := Clean(Node(n.key, Nil))])];
        }
      }
    }

    /** `cleartable`, on one table of the list */
    method ClearTable(t: Ref)
      requires t in heap && heap[t].Table?
      modifies `heap, `mark
      ensures Snapshot() == GcAtomic.ClearTable(old(Snapshot()), t)
    {
      hide StringHit, Cleared, StringMarks, ClearNodes, NodesHits, ClearArr, ArrHits, GcAtomic.ClearTable,
           StringsMarked;
      ghost var g := Snapshot();
      var b := heap[t];
      NoMarks(mark);
      ClearTableIs(g, t);
      if b.weakBits.values {
        ClearArrayPart(t);
        ArrHitsStr(g, b.arr);
        HitIsApart(g, Snapshot(), ArrHits(g, b.arr));
        MarksJoin(g.mark, ArrHits(g, b.arr), NodesHits(g, b.nodes));
      } else {
        HitIsApart(g, g, {});
        assert {} + NodesHits(g, b.nodes) == NodesHits(g, b.nodes);
      }
      ClearHashPart(t, g);
    }

    /** `cleartable` */
    method ClearTables()
      modifies `heap, `mark
      ensures Snapshot() == GcAtomic.ClearTables(old(Snapshot()), weak)
    {
      var i := 0;
      while i < |weak|
        invariant i <= |weak|
        invariant GcAtomic.ClearTables(Snapshot(), weak[i..]) == GcAtomic.ClearTables(old(Snapshot()), weak)
      {
        hide GcAtomic.ClearTable;
        var t := weak[i];
        assert weak[i..][1..] == weak[i + 1..];
        if t in heap && heap[t].Table? { ClearTable(t); } else { ClearNoTable(Snapshot(), t); }
        i := i + 1;
      }
    }

    /** `sweepwholelist`, on a list of the string table */
    method SweepStringList(k: nat)
      requires k < |strt| && mark.Keys == heap.Keys
      modifies `heap, `mark, `strt
      ensures Snapshot() == SweepBucket(old(Snapshot()), k)
    {
      hide SweepObjects, Kept, DeadOf, SweptList, Alive, Cut, Without, SweepBucket;
      ghost var g := Snapshot();
      ghost var s := strt[k];
      ghost var d := DeadOf(g, s);
      ghost var j: nat := 0;
      var p := 0;
      BucketStart(g, k);
      while p < |strt[k]|
        invariant j <= |s| && p == |Kept(s[..j], d)|
        invariant Snapshot() == PartSwept(g, k, j)
        decreases |s| - j
      {
        BucketStep(g, k, j);
        var curr := strt[k][p];
        if Alive(Snapshot(), curr) {
          mark := mark[curr := White(currentwhite)];
          p := p + 1;
        } else {
          strt := strt[k := Cut(strt[k], p)];
          heap := heap - {curr};
          mark := mark - {curr};
        }
        j := j + 1;
      }
      BucketEnd(g, k, j);
    }

    /** One round of `sweeplist` on the open upvalues of a thread. */
    method SweepOneOpen(t: Ref, p: nat) returns (kept: bool)
      requires t in heap && heap[t].Thread? && p < |heap[t].openupval|
      modifies `heap, `mark, `uvhead
      ensures kept == Alive(old(Snapshot()), old(heap)[t].openupval[p])
      ensures Snapshot() == if kept then MakeWhite(old(Snapshot()), old(heap)[t].openupval[p])
          else FreedOpen(old(Snapshot()), t, p)
    {
      hide Without;
      var curr := heap[t].openupval[p];
      kept := Alive(Snapshot(), curr);
      if kept {
        mark := mark[curr := White(currentwhite)];
      } else {
        heap := heap[t := heap[t].(openupval := Cut(heap[t].openupval, p))] - {curr};
        mark := mark - {curr};
        uvhead := Without(uvhead, {curr});
      }
    }

    /** `sweepwholelist`, on the open upvalues of a thread */
    method SweepOpenUpvals(t: Ref)
      requires t in heap && heap[t].Thread? && t !in heap[t].openupval && mark.Keys == heap.Keys
      modifies `heap, `mark, `uvhead
      ensures Snapshot() == SweepOpen(old(Snapshot()), t)
    {
      hide SweepObjects, Kept, DeadOf, SweptList, Alive, SweepOpen, SweepingOpen, FreedOpen, MakeWhite;
      ghost var g := Snapshot();
      ghost var us := heap[t].openupval;
      ghost var d := DeadOf(g, us);
      ghost var j: nat := 0;
      var p := 0;
      SweepingOpenEnds(g, t);
      SweptEnds(us, d);
      while p < |heap[t].openupval|
        invariant t in heap && heap[t].Thread?
        invariant j <= |us| && p == |Kept(us[..j], d)|
        invariant Snapshot() == SweepingOpen(g, t, us, j)
        decreases |us| - j
      {
        SweepingOpenHas(g, t, us, j);
        assert j < |us| by { if j == |us| { SweptEnds(us, d); } }
        SweepingOpenStep(g, t, us, j, p);
        SweepingOpenHas(g, t, us, j + 1);
        var kept := SweepOneOpen(t, p);
        p := if kept then p + 1 else p;
        j := j + 1;
      }
      SweepingOpenHas(g, t, us, j);
      assert j == |us| by { if j < |us| { SweptStep(us, d, j); } }
    }

    // ---------- barriers and links ----------

    /** `luaC_barrierf` */
    method BarrierF(o: Ref, v: Ref)
      requires v in heap && IsWhite(Snapshot(), v)
      modifies `mark, `gray
      ensures Snapshot() == GcSweep.BarrierF(old(Snapshot()), o, v)
    {
      if phase == Propagate { ReallyMarkObject(v); } else { mark := mark[o := White(currentwhite)]; }
    }

    /** The macros `luaC_barrier` and `luaC_objbarrier`. */
    method Barrier(o: Ref, v: Value)
      modifies `mark, `gray
      ensures Snapshot() == GcSweep.Barrier(old(Snapshot()), o, v)
    {
      if v.Coll? && v.r in heap && IsWhite(Snapshot(), v.r) && IsBlack(Snapshot(), o) { BarrierF(o, v.r); }
    }

    /** `luaC_barrierback` */
    method BarrierBack(t: Ref)
      requires t in mark
      modifies `mark, `grayagain
      ensures Snapshot() == GcMutator.BarrierBack(old(Snapshot()), t)
    {
      mark := mark[t := Gray];
      grayagain := [t] + grayagain;
    }

    /** The macros `luaC_barriert` and `luaC_objbarriert`. */
    method BarrierT(t: Ref, v: Value)
      modifies `mark, `grayagain
      ensures Snapshot() == GcMutator.BarrierT(old(Snapshot()), t, v)
    {
      if v.Coll? && IsWhite(Snapshot(), v.r) && IsBlack(Snapshot(), t) { BarrierBack(t); }
    }

    /** `luaC_link`, of a new object */
    method Link(r: Ref, b: Body)
      modifies `heap, `mark, `rootgc, `sweepgc
      ensures Snapshot() == NewObject(old(Snapshot()), r, b)
    {
      heap := heap[r := b];
      rootgc := [r] + rootgc;
      sweepgc := if sweepgc == 0 then 0 else sweepgc + 1;
      mark := mark[r := White(currentwhite)];
    }

    /** `luaC_linkupval` */
    method LinkUpval(u: Ref)
      requires u in heap && heap[u].UpVal?
      modifies `mark, `gray, `rootgc, `sweepgc
      ensures Snapshot() == GcSweep.LinkUpval(old(Snapshot()), u)
    {
      rootgc := [u] + rootgc;
      sweepgc := if sweepgc == 0 then 0 else sweepgc + 1;
      if IsGray(Snapshot(), u) {
        if phase == Propagate {
          mark := mark[u := Black];
          Barrier(u, UpvalValue(heap, heap[u].home));
        } else {
          mark := mark[u := White(currentwhite)];
        }
      }
    }

    // ---------- `luaF_close` and `sweeplist` ----------

    /** One round of the loop of `luaF_close`. */
    method CloseFirst(t: Ref)
      requires t in heap && heap[t].Thread? && heap[t].openupval != [] && IsOpen(heap, heap[t].openupval[0])
      modifies `heap, `mark, `gray, `rootgc, `sweepgc, `uvhead
      ensures Snapshot() == CloseOne(old(Snapshot()), t)
    {
      hide Without, GcSweep.Barrier;
      var u := heap[t].openupval[0];
      var v := UpvalValue(heap, heap[u].home);
      heap := heap[t := heap[t].(openupval := heap[t].openupval[1..])];
      uvhead := Without(uvhead, {u});
      if IsDead(Snapshot(), u) {
        heap := heap - {u};
        mark := mark - {u};
      } else {
        heap := heap[u := UpVal(Closed(v))];
        LinkUpval(u);
      }
    }

    /** `luaF_close` */
    method CloseUpvals(t: Ref, level: nat)
      requires CloseReady(Snapshot(), t)
      modifies `heap, `mark, `gray, `rootgc, `sweepgc, `uvhead
      ensures Snapshot() == Close(old(Snapshot()), t, level)
    {
      hide CloseOne;
      CloseReadyThread(Snapshot(), t);
      while heap[t].openupval != [] && heap[heap[t].openupval[0]].home.slot >= level
        invariant t in heap && heap[t].Thread?
        invariant heap[t].openupval != [] ==> IsOpen(heap, heap[t].openupval[0])
        invariant CloseReady(Snapshot(), t) && Close(Snapshot(), t, level) == Close(old(Snapshot()), t, level)
        decreases |heap[t].openupval|
      {
        CloseOneReady(Snapshot(), t);
        CloseFirst(t);
        if heap[t].openupval != [] { FirstIsOpen(Snapshot(), t); }
      }
    }

    /** `freeobj` */
    method FreeObj(o: Ref)
      requires o in heap && (heap[o].Thread? ==> CloseReady(Snapshot(), o))
      modifies `heap, `mark, `gray, `rootgc, `sweepgc, `uvhead
      ensures Snapshot() == GcSweep.FreeObj(old(Snapshot()), o)
    {
      hide Close, CloseReady;
      if heap[o].Thread? { CloseUpvals(o, 0); }
      heap := heap - {o};
      mark := mark - {o};
    }

    /** The object at the sweep pointer is kept or freed. */
    method SweepAtPointer()
      requires sweepgc < |rootgc| && rootgc[sweepgc] in heap
      requires heap[rootgc[sweepgc]].Thread? ==> CloseReady(Unlink(Snapshot()), rootgc[sweepgc])
      modifies `heap, `mark, `gray, `rootgc, `sweepgc, `uvhead
      ensures var h := old(Snapshot()); var o := h.rootgc[h.sweepgc];
        Snapshot() == if Alive(h, o) then MakeWhite(h, o).(sweepgc := h.sweepgc + 1) else GcSweep.FreeObj(Unlink(h), o)
    {
      hide GcSweep.FreeObj, CloseReady;
      var curr := rootgc[sweepgc];
      if Alive(Snapshot(), curr) {
        mark := mark[curr := White(currentwhite)];
        sweepgc := sweepgc + 1;
      } else {
        rootgc := Cut(rootgc, sweepgc);
        FreeObj(curr);
      }
    }

    /** One round of `sweeplist` on `rootgc`. */
    method SweepOne()
      requires SweepGood(Snapshot(), {}) && sweepgc < |rootgc|
      modifies `heap, `mark, `gray, `rootgc, `sweepgc, `uvhead
      ensures Snapshot() == GcCycle.SweepOne(old(Snapshot()))
    {
      hide SweepGood, SweepOpen, CloseReady, NewUpvals, GcSweep.FreeObj, Alive;
      ghost var g := Snapshot();
      var curr := rootgc[sweepgc];
      AtPointer(g);
      SweepOpenAt(g);
      if heap[curr].Thread? {
        GoodKeys(g);
        SweepOpenUpvals(curr);
      }
      SweepAtPointer();
    }

    /** `sweeplist`, on `rootgc` */
    method SweepList(count: nat)
      requires SweepGood(Snapshot(), {})
      modifies `heap, `mark, `gray, `rootgc, `sweepgc, `uvhead
      ensures Snapshot() == GcCycle.SweepList(old(Snapshot()), count)
    {
      hide SweepGood, GcCycle.SweepOne;
      var n := count;
      while sweepgc < |rootgc| && n > 0
        invariant SweepGood(Snapshot(), {})
        invariant GcCycle.SweepList(Snapshot(), n) == GcCycle.SweepList(old(Snapshot()), count)
        decreases n
      {
        SweepOneGood(Snapshot());
        SweepOne();
        n := n - 1;
      }
    }

    // ---------- `atomic`, `singlestep`, `luaC_fullgc` ----------

    method EmptyLists()
      modifies `gray, `grayagain, `weak
      ensures Snapshot() == old(Snapshot()).(gray := [], grayagain := [], weak := [])
    {
      gray, grayagain, weak := [], [], [];
    }

    /** The marking of `markroot`. */
    method MarkRoots()
      requires mainthread in heap && heap[mainthread].Thread?
      modifies `mark, `gray
      ensures var g := old(Snapshot());
        Snapshot() == GcAtomic.MarkMt(GcHeap.MarkValue(GcHeap.MarkValue(GcHeap.MarkObject(g, g.mainthread),
          g.heap[g.mainthread].gt), g.registry), g.mt)
    {
      hide GcHeap.MarkObject, GcHeap.MarkValue, GcAtomic.MarkMt, MarkedFrom;
      MarkObject(mainthread);
      MarkValue(heap[mainthread].gt);
      MarkValue(registry);
      MarkMt();
    }

    /** `markroot` */
    method MarkRoot()
      requires mainthread in heap && heap[mainthread].Thread?
      modifies `mark, `gray, `grayagain, `weak, `phase
      ensures Snapshot() == GcCycle.MarkRoot(old(Snapshot()))
    {
      hide GcHeap.MarkObject, GcHeap.MarkValue, GcAtomic.MarkMt, MarkedFrom, GcCycle.MarkRoot;
      MarkRootDef(Snapshot());
      EmptyLists();
      MarkRoots();
      phase := Propagate;
    }

    /** `atomic`, up to the first propagation */
    method RemarkFirst()
      requires Markable(GcAtomic.RemarkUpvals(Snapshot(), uvhead))
      modifies `heap, `mark, `gray, `grayagain, `weak
      ensures Snapshot() == Atomic1(old(Snapshot()))
    {
      hide Markable, GcAtomic.PropagateAll, GcAtomic.RemarkUpvals;
      RemarkUpvals();
      PropagateAll();
    }

    /** The weak tables, the running thread and the basic metatables again. */
    method RemarkWeak()
      requires Markable(Atomic2Start(Snapshot()))
      modifies `heap, `mark, `gray, `grayagain, `weak
      ensures Snapshot() == Atomic2(old(Snapshot()))
    {
      hide Markable, GcAtomic.PropagateAll, GcAtomic.MarkMt, GcHeap.MarkObject, MarkedFrom;
      gray, weak := weak, [];
      MarkObject(running);
      MarkMt();
      PropagateAll();
    }

    /** The objects on `grayagain`. */
    method RemarkGrayAgain()
      requires Markable(Snapshot().(gray := grayagain, grayagain := []))
      modifies `heap, `mark, `gray, `grayagain, `weak
      ensures Snapshot() == Atomic3(old(Snapshot()))
    {
      hide Markable, GcAtomic.PropagateAll;
      gray, grayagain := grayagain, [];
      PropagateAll();
    }

    /** The userdata to be finalized. */
    method RemarkFinalized()
      requires Markable(Atomic4Start(Snapshot()))
      modifies `heap, `mark, `gray, `grayagain, `weak, `rootgc, `tmudata
      ensures Snapshot() == Atomic4(old(Snapshot()))
    {
      hide Markable, GcAtomic.PropagateAll, SeparateFrom, GcAtomic.MarkTmu;
      SeparateUdata();
      MarkTmu();
      PropagateAll();
    }

    /** All the marking of `atomic`. */
    method MarkAtomically()
      requires Propagating(Snapshot()) && gray == []
      modifies `heap, `mark, `gray, `grayagain, `weak, `rootgc, `tmudata
      ensures Snapshot() == AtomicMark(old(Snapshot()))
    {
      hide Propagating, Markable, Atomic1, Atomic2, Atomic3, Atomic4, Atomic2Start, Atomic4Start, GcAtomic.RemarkUpvals,
           SeparateFrom, MarkedUp, Separated, FromSeparate, AtomicFrom;
      AtomicStages(Snapshot());
      RemarkFirst();
      RemarkWeak();
      RemarkGrayAgain();
      RemarkFinalized();
    }

    /** `atomic` */
    method Atomic()
      requires Propagating(Snapshot()) && gray == []
      modifies `heap, `mark, `gray, `grayagain, `weak, `rootgc, `tmudata, `currentwhite, `sweepgc, `sweepstrgc, `phase
      ensures Snapshot() == GcAtomic.Atomic(old(Snapshot()))
    {
      hide Propagating, AtomicMark, GcAtomic.ClearTables;
      MarkAtomically();
      ClearTables();
      currentwhite := !currentwhite;
      sweepstrgc := 0;
      sweepgc := 0;
      phase := SweepString;
    }

    /** The first userdata of `tmudata` returns to `rootgc`. */
    method UnlinkTmu()
      requires tmudata != [] && mainthread in rootgc
      modifies `mark, `rootgc, `sweepgc, `tmudata
      ensures Snapshot() == Untmu(old(Snapshot()))
    {
      hide After, Untmu;
      UntmuIs(Snapshot());
      var o := tmudata[0];
      tmudata := tmudata[1..];
      var i := After(rootgc, mainthread);
      rootgc := rootgc[..i] + [o] + rootgc[i..];
      sweepgc := if sweepgc > i then sweepgc + 1 else sweepgc;
      mark := mark[o := White(currentwhite)];
    }

    /** `GCTM` */
    method CallFinalizer()
      requires tmudata != [] && mainthread in rootgc
      modifies `heap, `mark, `rootgc, `sweepgc, `tmudata
      ensures Snapshot() == StepFinalize(old(Snapshot()))
    {
      hide After, HasGc, LinkUdata;
      var o := tmudata[0];
      UnlinkTmu();
      if o in heap && HasGc(heap, heap[o]) && running in heap && heap[running].Thread? {
        heap := heap[running := heap[running].(stack := heap[running].stack + [Coll(o)])];
      }
    }

    /** The step of the mark phase. */
    method StepPropagate()
      requires Propagating(Snapshot())
      modifies `heap, `mark, `gray, `grayagain, `weak, `rootgc, `tmudata, `currentwhite, `sweepgc, `sweepstrgc, `phase
      ensures Snapshot() == GcCycle.StepPropagate(old(Snapshot()))
    {
      hide Tri, NoDangling, GcMark.PropagateMark, GcAtomic.Atomic;
      if gray != [] {
        PropagateTri(Snapshot(), Pending(Snapshot()));
        PropagateMark();
      } else {
        Atomic();
      }
    }

    /** The steps of the sweep. */
    method StepSweepString()
      requires sweepstrgc < |strt| && mark.Keys == heap.Keys
      modifies `heap, `mark, `strt, `sweepstrgc, `phase
      ensures Snapshot() == GcCycle.StepSweepString(old(Snapshot()))
    {
      SweepBucketLen(Snapshot(), sweepstrgc);
      SweepBucketFrame(Snapshot(), sweepstrgc);
      hide SweepBucket;
      SweepStringList(sweepstrgc);
      sweepstrgc := sweepstrgc + 1;
      phase := if sweepstrgc >= |strt| then Sweep else SweepString;
    }

    method StepSweep()
      requires SweepGood(Snapshot(), {}) && phase == Sweep
      modifies `heap, `mark, `gray, `rootgc, `sweepgc, `uvhead, `phase
      ensures Snapshot() == GcCycle.StepSweep(old(Snapshot()))
    {
      hide SweepGood, GcCycle.SweepList;
      SweepList(GCSWEEPMAX);
      if sweepgc >= |rootgc| { phase := Finalize; }
    }

    method StepFinalizer()
      requires phase == Finalize && mainthread in rootgc
      modifies `heap, `mark, `rootgc, `sweepgc, `tmudata, `phase
      ensures Snapshot() == StepFinalize(old(Snapshot()))
    {
      if tmudata != [] {
        hide StepFinalize;
        CallFinalizer();
      } else {
        FinalizeNothing(Snapshot());
        hide StepFinalize;
        phase := Pause;
      }
    }

    /** `singlestep` */
    method SingleStep()
      requires Inv(Snapshot())
      modifies this
      ensures Snapshot() == GcCycle.SingleStep(old(Snapshot()))
    {
      StepReady(Snapshot());
      GoodIsInv(Snapshot());
      hide Inv, Propagating, SweepGood, GcCycle.MarkRoot, StepFinalize, GcCycle.StepPropagate, GcCycle.StepSweep,
          GcCycle.StepSweepString;
      match phase
      case Pause => MarkRoot();
      case Propagate => StepPropagate();
      case SweepString => StepSweepString();
      case Sweep => StepSweep();
      case Finalize => StepFinalizer();
    }

    /** An unfinished mark phase is abandoned. */
    method Reset()
      modifies `sweepstrgc, `sweepgc, `gray, `grayagain, `weak, `phase
      ensures Snapshot() == GcFull.Reset(old(Snapshot()))
    {
      if phase == Pause || phase == Propagate {
        EmptyLists();
        sweepstrgc := 0;
        sweepgc := 0;
        phase := SweepString;
      }
    }

    /** The first loop of `luaC_fullgc`. */
    method FinishSweep()
      requires Inv(Snapshot()) && (phase == SweepString || phase == Sweep || phase == Finalize)
      modifies this
      ensures Snapshot() == GcFull.FinishSweep(old(Snapshot()))
    {
      hide Inv, GcCycle.SingleStep, Work;
      while phase != Finalize
        invariant Inv(Snapshot()) && (phase == SweepString || phase == Sweep || phase == Finalize)
        invariant GcFull.FinishSweep(Snapshot()) == GcFull.FinishSweep(old(Snapshot()))
        decreases Rank(phase), Work(Snapshot())
      {
        SingleStepInv(Snapshot());
        SweepPhases(Snapshot());
        SingleStep();
      }
    }

    /** The second loop of `luaC_fullgc`. */
    method FinishCycle()
      requires Inv(Snapshot())
      modifies this
      ensures Snapshot() == GcFull.FinishCycle(old(Snapshot()))
    {
      hide Inv, GcCycle.SingleStep, Work;
      while phase != Pause
        invariant Inv(Snapshot()) && GcFull.FinishCycle(Snapshot()) == GcFull.FinishCycle(old(Snapshot()))
        decreases Rank(phase), Work(Snapshot())
      {
        SingleStepInv(Snapshot());
        SingleStep();
      }
    }

    /** `luaC_fullgc` */
    method FullGc()
      requires Inv(Snapshot())
      modifies this
      ensures Snapshot() == GcFull.FullGc(old(Snapshot()))
      ensures Inv(Snapshot()) && phase == Pause && tmudata == []
    {
      hide Inv, GcCycle.MarkRoot, GcFull.FinishCycle, GcFull.FinishSweep;
      ghost var g := Snapshot();
      ResetInv(g);
      SweptInv(g);
      FullGcLeaves(g, mainthread);
      hide GcFull.FullGc;
      Reset();
      FinishSweep();
      StepReady(Snapshot());
      MarkRoot();
      FinishCycle();
    }
  }

  lemma MarkRootDef(g: State)
    requires g.mainthread in g.heap && g.heap[g.mainthread].Thread?
    ensures var g0 := g.(gray := [], grayagain := [], weak := []);
      GcCycle.MarkRoot(g) == GcAtomic.MarkMt(GcHeap.MarkValue(GcHeap.MarkValue(GcHeap.MarkObject(g0, g.mainthread),
        g.heap[g.mainthread].gt), g.registry), g.mt).(phase := Propagate)
  {
    hide GcHeap.MarkObject, GcHeap.MarkValue, GcAtomic.MarkMt, MarkedFrom;
    MarkRootFrom(g);
  }

  lemma GoodKeys(g: State)
    requires SweepGood(g, {})
    ensures g.mark.Keys == g.heap.Keys
  {}

  lemma SweepBucketFrame(g: State, k: nat)
    requires k < |g.strt|
    ensures SweepBucket(g, k).sweepstrgc == g.sweepstrgc
  {}

  lemma StepReady(g: State)
    requires Inv(g)
    ensures g.mainthread in g.heap && g.heap[g.mainthread].Thread? && g.mainthread in g.rootgc
        && g.mark.Keys == g.heap.Keys
    ensures g.phase == Propagate ==> Propagating(g)
    ensures g.phase == SweepString ==> g.sweepstrgc < |g.strt|
    ensures g.phase == Sweep ==> SweepGood(g, {})
  {
    GoodIsInv(g);
  }

  lemma FinalizeNothing(g: State)
    requires g.tmudata == []
    ensures StepFinalize(g) == g.(phase := Pause)
  {}
}
