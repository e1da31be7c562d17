/** What each step of the collector does to the slots of the objects that it keeps. */
module GcContents {
  import opened GcHeap
  import opened GcMark
  import opened GcAtomic
  import opened GcSweep
  import opened GcCycle
  import opened GcSteps
  import opened GcRun
  import opened GcReach
  import opened GcWithin
  import opened GcExact
  import opened GcFull
  import opened GcFinal
  import opened GcKeep

  // ---------- slots before and after ----------

  /** What decides which slots are emptied: the objects that are kept, the userdata whose finalizers
      are not to be called (again), and the tables that are cleared. */
  datatype Loss = Loss(kept: set<Ref>, flagged: set<Ref>, cleared: set<Ref>)

  /** A cleared table loses what refers to an object that is not kept, and values (not keys) that are
      flagged userdata. Strings are values, and never lost. */
  predicate Lost(h: map<Ref, Body>, c: Loss, v: Value, isKey: bool) {
    && v.Coll? && v.r in h && !h[v.r].Str?
    && (v.r !in c.kept || (!isKey && h[v.r].Udata? && v.r in c.flagged))
  }

  /** An element of the array part of `t`: only weak values are emptied. */
  predicate SlotAfter(h: map<Ref, Body>, c: Loss, t: Ref, v: Value, after: Value)
    requires t in h && h[t].Table?
  {
    after == if t in c.cleared && Mode(h, h[t].mt).values && Lost(h, c, v, false) then Nil else v
  }

  predicate KeyAfter(key: Value, after: Value) { after == key || (key.Coll? && after == DeadKey(key.r)) }

  /** An entry of `t`: it is emptied if its key or its value is lost; the key of an empty entry may be
      tagged as dead. */
  predicate EntryAfter(h: map<Ref, Body>, c: Loss, t: Ref, n: Node, after: Node) {
    if n.val == Nil || (t in c.cleared && (Lost(h, c, n.key, true) || Lost(h, c, n.val, false)))
    then after.val == Nil && KeyAfter(n.key, after.key)
    else after == n
  }

  ghost predicate TableAfter(h: map<Ref, Body>, c: Loss, t: Ref, after: Body)
    requires t in h && h[t].Table?
  {
    var b := h[t];
    && after.Table? && after.mt == b.mt && after.meta == b.meta
    && |after.arr| == |b.arr| && |after.nodes| == |b.nodes|
    && (forall i | 0 <= i < |b.arr| :: SlotAfter(h, c, t, b.arr[i], after.arr[i]))
    && (forall i | 0 <= i < |b.nodes| :: EntryAfter(h, c, t, b.nodes[i], after.nodes[i]))
  }

  /** Every slot of `x` is the one it had, but for what tables lose, and for the userdata `calls` that
      are handed to their finalizers on the stack of the thread `running`. */
  ghost predicate BodyAfter(h: map<Ref, Body>, c: Loss, running: Ref, calls: seq<Ref>, k: map<Ref, Body>, x: Ref)
    requires x in h && x in k
  {
    match h[x]
    case Udata(mt, env, _) => k[x] == Udata(mt, env, x in c.flagged)
    case UpVal(home) => k[x].UpVal? && UpvalValue(k, k[x].home) == UpvalValue(h, home)
    case Table(_, _, _, _, _) => TableAfter(h, c, x, k[x])
    case Thread(gt, stack, _) =>
      k[x].Thread? && k[x].gt == gt && k[x].stack == stack + if x == running then AsValues(calls) else []
    case _ => k[x] == h[x]
  }

  ghost predicate ContentsAfter(h: map<Ref, Body>, c: Loss, running: Ref, calls: seq<Ref>, k: map<Ref, Body>) {
    k.Keys <= h.Keys && forall x | x in k :: BodyAfter(h, c, running, calls, k, x)
  }

  /** The userdata whose finalizers are not to be called (again). */
  function FinalizedIn(h: map<Ref, Body>): set<Ref> { set u | u in h && h[u].Udata? && h[u].finalized }

  /** Nothing is lost. */
  function NoLoss(h: map<Ref, Body>): Loss { Loss({}, FinalizedIn(h), {}) }

  // ---------- steps that lose nothing ----------

  lemma SameContents(h: map<Ref, Body>, running: Ref)
    ensures ContentsAfter(h, NoLoss(h), running, [], h)
  {}

  lemma SweepContents(h: map<Ref, Body>, k: map<Ref, Body>, running: Ref)
    requires SlotsKept(h, k)
    ensures ContentsAfter(h, NoLoss(h), running, [], k)
  {
    forall x | x in k ensures BodyAfter(h, NoLoss(h), running, [], k, x) { assert BodyKept(h, k, x); }
  }

  lemma TidyTable(h: map<Ref, Body>, k: map<Ref, Body>, t: Ref)
    requires t in h && h[t].Table? && t in k && Tidied(h[t], k[t])
    ensures TableAfter(h, NoLoss(h), t, k[t])
  {}

  lemma TidyValue(h: map<Ref, Body>, k: map<Ref, Body>, home: Home)
    requires TidiedHeap(h, k)
    ensures UpvalValue(k, home) == UpvalValue(h, home)
  {
    if home.Open? && home.thread in h { assert Tidied(h[home.thread], k[home.thread]); }
  }

  lemma TidyContents(h: map<Ref, Body>, k: map<Ref, Body>, running: Ref)
    requires TidiedHeap(h, k) && SameUdata(h, k)
    ensures ContentsAfter(h, NoLoss(h), running, [], k)
  {
    forall x | x in k ensures BodyAfter(h, NoLoss(h), running, [], k, x) {
      assert Tidied(h[x], k[x]);
      if h[x].UpVal? { TidyValue(h, k, h[x].home); }
      if h[x].Table? { TidyTable(h, k, x); }
      hide TableAfter;
    }
  }

  /** The userdata that a step hands to its finalizer. */
  function CallOf(g: State): seq<Ref> {
    if g.phase == Finalize && g.tmudata != [] && g.tmudata[0] in g.heap && HasGc(g.heap, g.heap[g.tmudata[0]])
      && g.running in g.heap && g.heap[g.running].Thread?
    then [g.tmudata[0]] else []
  }

  lemma OpenInStack(g: State, u: Ref)
    requires Owned(g, {}) && IsOpen(g.heap, u)
    ensures InStack(g.heap, g.heap[u].home)
  {
    assert UpvalOwned(g, u);
  }

  /** Pushing values on a stack changes nothing else. */
  lemma PushedContents(g: State, k: map<Ref, Body>, calls: seq<Ref>)
    requires Owned(g, {}) && g.running in g.heap && g.heap[g.running].Thread?
    requires k == g.heap[g.running := g.heap[g.running].(stack := g.heap[g.running].stack + AsValues(calls))]
    ensures ContentsAfter(g.heap, NoLoss(g.heap), g.running, calls, k)
  {
    forall x | x in k ensures BodyAfter(g.heap, NoLoss(g.heap), g.running, calls, k, x) {
      if IsOpen(g.heap, x) { OpenInStack(g, x); }
      if g.heap[x].Table? { TidyTable(g.heap, g.heap, x); }
      hide TableAfter, Owned;
    }
  }

  lemma RunningIs(g: State)
    requires Inv(g)
    ensures Owned(g, {}) && g.running in g.heap && FixedOk(g)
  {}

  lemma FinalizeHeap(g: State)
    requires g.phase == Finalize
    ensures StepFinalize(g).heap == if CallOf(g) == [] then g.heap else
      g.heap[g.running := g.heap[g.running].(stack := g.heap[g.running].stack + [Coll(g.tmudata[0])])]
  {
    hide HasGc;
  }

  lemma OneValue(u: Ref)
    ensures AsValues([u]) == [Coll(u)]
  {}

  lemma FinalizeContents(g: State)
    requires Inv(g) && g.phase == Finalize
    ensures ContentsAfter(g.heap, NoLoss(g.heap), g.running, CallOf(g), StepFinalize(g).heap)
  {
    hide Inv, Owned, ContentsAfter, StepFinalize, AsValues, NoLoss;
    RunningIs(g);
    FinalizeHeap(g);
    SameContents(g.heap, g.running);
    if CallOf(g) != [] {
      OneValue(g.tmudata[0]);
      PushedContents(g, StepFinalize(g).heap, CallOf(g));
    }
  }

  lemma PropagateContents(g: State)
    requires Inv(g) && g.phase == Propagate && g.gray != []
    ensures g.gray[0] in g.heap
    ensures ContentsAfter(g.heap, NoLoss(g.heap), g.running, [], PropagateMark(g).heap)
  {
    hide Inv, PropagateMark, ContentsAfter, Markable;
    StepIsPropagate(g);
    PropagateStepInv(g);
    PropagateUdata(g);
    TidyContents(g.heap, PropagateMark(g).heap, g.running);
  }

  /** Every step of the collector but the end of the mark phase keeps all slots of the objects that it
      does not free; a finalizer step pushes its userdata on the stack. */
  lemma StepContents(g: State)
    requires Inv(g) && !(g.phase == Propagate && g.gray == [])
    ensures ContentsAfter(g.heap, NoLoss(g.heap), g.running, CallOf(g), SingleStep(g).heap)
  {
    hide Inv, ContentsAfter, MarkRoot, PropagateMark, StepFinalize, StepSweep, StepSweepString, SlotsKept, Atomic,
        Propagating;
    match g.phase
    case Pause => PauseInv(g); SameContents(g.heap, g.running);
    case Propagate => StepIsPropagate(g); PropagateContents(g);
    case SweepString => SweepStepKept(g); SweepContents(g.heap, SingleStep(g).heap, g.running);
    case Sweep => SweepStepKept(g); SweepContents(g.heap, SingleStep(g).heap, g.running);
    case Finalize => FinalizeContents(g);
  }

  // ---------- which userdata `atomic` flags ----------

  lemma SeparateOneElse(g: State, i: nat, u: Ref)
    requires i < |g.rootgc| && g.rootgc[i] != u && u in g.heap
    ensures u in SeparateOne(g, i).heap && SeparateOne(g, i).heap[u] == g.heap[u]
    ensures SeparateOne(g, i).mark == g.mark
  {}

  lemma SeparateOneThis(g: State, i: nat, u: Ref)
    requires i < |g.rootgc| && g.rootgc[i] == u && u in g.heap && g.heap[u].Udata?
    ensures u in SeparateOne(g, i).heap
    ensures SeparateOne(g, i).heap[u] == g.heap[u].(finalized := g.heap[u].finalized || IsWhite(g, u))
    ensures SeparateOne(g, i).mark == g.mark
  {}

  lemma SeparateOneList(g: State, i: nat, j: nat)
    requires i < |g.rootgc| && i <= j < |SeparateOne(g, i).rootgc|
    ensures var s := SeparateOne(g, i).rootgc; |s| < |g.rootgc| ==> j + 1 < |g.rootgc| && s[j] == g.rootgc[j + 1]
    ensures |SeparateOne(g, i).rootgc| == |g.rootgc| ==> SeparateOne(g, i).rootgc == g.rootgc
  {}

  /** An object that the walk does not come to stays as it is. */
  lemma {:induction false} SeparatePasses(g: State, i: nat, u: Ref)
    requires u in g.heap && forall j | i <= j < |g.rootgc| :: g.rootgc[j] != u
    ensures u in SeparateFrom(g, i).heap && SeparateFrom(g, i).heap[u] == g.heap[u]
    decreases |g.rootgc| - i
  {
    if i < |g.rootgc| {
      var h := SeparateOne(g, i);
      SeparateOneElse(g, i, u);
      forall j | i <= j < |h.rootgc| ensures |h.rootgc| < |g.rootgc| ==> h.rootgc[j] != u { SeparateOneList(g, i, j); }
      SeparateOneShorter(g, i);
      hide SeparateOne;
      SeparatePasses(h, if |h.rootgc| < |g.rootgc| then i else i + 1, u);
    }
  }

  lemma SeparateOneShorter(g: State, i: nat)
    requires i < |g.rootgc|
    ensures var s := SeparateOne(g, i).rootgc; |s| <= |g.rootgc| && (|s| == |g.rootgc| ==> s == g.rootgc)
  {}

  /** The walk flags the white userdata that it comes to. */
  lemma {:induction false} SeparateFlags(g: State, i: nat, k: nat, u: Ref)
    requires i <= k < |g.rootgc| && g.rootgc[k] == u && u in g.heap && g.heap[u].Udata?
    requires forall j | i <= j < |g.rootgc| && j != k :: g.rootgc[j] != u
    ensures u in SeparateFrom(g, i).heap
    ensures SeparateFrom(g, i).heap[u] == g.heap[u].(finalized := g.heap[u].finalized || IsWhite(g, u))
    decreases |g.rootgc| - i
  {
    var h := SeparateOne(g, i);
    var j := if |h.rootgc| < |g.rootgc| then i else i + 1;
    SeparateOneShorter(g, i);
    forall l | i <= l < |h.rootgc| && |h.rootgc| < |g.rootgc|
      ensures l + 1 < |g.rootgc| && h.rootgc[l] == g.rootgc[l + 1]
    {
      SeparateOneList(g, i, l);
    }
    assert SeparateFrom(g, i) == SeparateFrom(h, j);
    if i == k {
      SeparateOneThis(g, i, u);
      hide SeparateOne, SeparateFrom;
      SeparatePasses(h, j, u);
    } else {
      SeparateOneElse(g, i, u);
      SeparateOneLength(g, i, k);
      hide SeparateOne, SeparateFrom;
      SeparateFlags(h, j, if j == i then k - 1 else k, u);
    }
  }

  lemma SeparateOneLength(g: State, i: nat, k: nat)
    requires i < k < |g.rootgc|
    ensures var s := SeparateOne(g, i).rootgc;
      if |s| < |g.rootgc| then k - 1 < |s| && s[k - 1] == g.rootgc[k] else s == g.rootgc
  {}

  /** The userdata that are flagged when `atomic` clears the weak tables: those that were flagged
      before, and those that were not marked when userdata were separated. */
  ghost function AtomicFlags(g: State): set<Ref>
    requires Propagating(g) && g.gray == []
  {
    set u | u in g.heap && g.heap[u].Udata?
      && (g.heap[u].finalized || (u !in g.tmudata && u !in MarkedSet(BeforeSeparate(g))))
  }

  lemma OnceOnRootgc(g: State, u: Ref)
    requires WellFormed(g) && u in g.heap && g.heap[u].Udata?
    ensures u in g.tmudata ==> forall j | 0 <= j < |g.rootgc| :: g.rootgc[j] != u
    ensures forall i, j | 0 <= i < j < |g.rootgc| :: !(g.rootgc[i] == u && g.rootgc[j] == u)
  {
    assert RootOwned(g, u);
    forall x ensures multiset(g.rootgc)[x] <= 1 { assert RootOwned(g, x); }
    OnceDistinct(g.rootgc);
    if u in g.tmudata {
      assert multiset(g.tmudata)[u] > 0;
      assert u !in g.rootgc;
    }
  }

  /** The separation of userdata, on one of them. */
  lemma SeparatedFlag(g: State, p: State, u: Ref)
    requires WellFormed(g) && u in g.heap && g.heap[u].Udata? && u in p.heap && p.heap[u] == g.heap[u]
    requires p.rootgc == g.rootgc && p.mainthread == g.mainthread && p.mark.Keys == p.heap.Keys
    ensures u in SeparateFrom(p, After(p.rootgc, p.mainthread)).heap
    ensures SeparateFrom(p, After(p.rootgc, p.mainthread)).heap[u]
      == g.heap[u].(finalized := g.heap[u].finalized || (u !in g.tmudata && u !in MarkedSet(p)))
  {
    hide Owned, SeparateFrom, FixedOk;
    OnceOnRootgc(g, u);
    var i := After(p.rootgc, p.mainthread);
    if u in g.tmudata {
      SeparatePasses(p, i, u);
    } else {
      OnRootgc(g, u);
      var k :| i <= k < |p.rootgc| && p.rootgc[k] == u;
      SeparateFlags(p, i, k, u);
    }
  }

  lemma {:induction false} RemarkedHeap(g: State, us: seq<Ref>)
    ensures MarkTmu(g, us).heap == g.heap
    decreases |us|
  {
    if us != [] { RemarkedHeap(RemarkUdata(g, us[0]), us[1..]); }
  }

  lemma AtomicMarkUdata(g: State, u: Ref)
    requires Inv(g) && g.phase == Propagate && g.gray == [] && u in g.heap && g.heap[u].Udata?
    ensures u in AtomicMark(g).heap
    ensures AtomicMark(g).heap[u] == g.heap[u].(finalized := u in AtomicFlags(g))
  {
    assert WellFormed(g) && Propagating(g);
    hide Inv, Propagating, SeparateFrom, WellFormed, Atomic1, Atomic2, Atomic3, MarkedUp, Separated, Markable,
        MarkTmu, PropagateAll, MarkedSet;
    AtomicStages(g);
    AtomicMarkDef(g);
    BeforeSeparateTri(g);
    BeforeSeparateUdata(g);
    var p := BeforeSeparate(g);
    KeysAgree(p, Elems(g.tmudata));
    SeparatedFlag(g, p, u);
    var h := SeparateFrom(p, After(p.rootgc, p.mainthread));
    RemarkedHeap(h, h.tmudata);
    PropagateAllUdata(Atomic4Start(p));
  }

  // ---------- what `cleartable` empties ----------

  lemma {:induction false} ClearArrSame(g: State, r: State, vs: seq<Value>)
    requires ClearedFrom(g, r) && g.mark.Keys == g.heap.Keys
    ensures ClearArr(r, vs) == ClearArr(g, vs)
  {
    hide ClearedFrom, Cleared;
    if vs != [] {
      ClearedSame(g, r, vs[0], false);
      ClearArrSame(g, r, vs[1..]);
    }
  }

  lemma {:induction false} ClearNodesSame(g: State, r: State, ns: seq<Node>)
    requires ClearedFrom(g, r) && g.mark.Keys == g.heap.Keys
    ensures ClearNodes(r, ns) == ClearNodes(g, ns)
  {
    hide ClearedFrom, Cleared;
    if ns != [] {
      ClearedSame(g, r, ns[0].key, true);
      ClearedSame(g, r, ns[0].val, false);
      ClearNodesSame(g, r, ns[1..]);
    }
  }

  function ClearedBody(g: State, b: Body): Body
    requires b.Table?
  {
    b.(arr := if b.weakBits.values then ClearArr(g, b.arr) else b.arr, nodes := ClearNodes(g, b.nodes))
  }

  lemma ClearedBodySame(g: State, r: State, b: Body)
    requires ClearedFrom(g, r) && g.mark.Keys == g.heap.Keys && b.Table?
    ensures ClearedBody(r, b) == ClearedBody(g, b)
  {
    ClearArrSame(g, r, b.arr);
    ClearNodesSame(g, r, b.nodes);
  }

  lemma ClearTableBody(g: State, t: Ref)
    requires t in g.heap && g.heap[t].Table?
    ensures ClearTable(g, t).heap == g.heap[t := ClearedBody(g, g.heap[t])]
  {
    hide ClearArr, ClearNodes;
  }

  /** Each listed table is cleared once, with the marks at the beginning. */
  lemma {:induction false} ClearTablesBody(g: State, ts: seq<Ref>, x: Ref)
    requires g.mark.Keys == g.heap.Keys && Distinct(ts) && x in g.heap
    ensures x in ClearTables(g, ts).heap
    ensures ClearTables(g, ts).heap[x]
      == if x in ts && g.heap[x].Table? then ClearedBody(g, g.heap[x]) else g.heap[x]
    decreases |ts|
  {
    hide ClearTable, ClearedBody, ClearedFrom;
    if ts != [] {
      var t := ts[0];
      var r := ClearTable(g, t);
      ClearTableFrom(g, t);
      ClearedKeys(g, r);
      if t in g.heap && g.heap[t].Table? { ClearTableBody(g, t); }
      assert x in ts <==> x == t || x in ts[1..];
      ClearTablesBody(r, ts[1..], x);
      if g.heap[x].Table? { ClearedBodySame(g, r, g.heap[x]); }
      assert x == t ==> x !in ts[1..];
    }
  }

  lemma ClearedKeys(g: State, r: State)
    requires ClearedFrom(g, r)
    ensures r.heap.Keys == g.heap.Keys && r.mark.Keys == g.mark.Keys
    ensures forall x | x in g.heap :: g.heap[x].Table? <==> r.heap[x].Table?
  {
    forall x | x in g.heap ensures g.heap[x].Table? <==> r.heap[x].Table? {
      if g.heap[x].Table? { assert Emptied(g.heap[x], r.heap[x]); }
    }
  }

  /** What a finished mark phase and the lists it leaves mean for slots. */
  ghost predicate Decided(h: map<Ref, Body>, m: State, c: Loss) {
    && TidiedHeap(h, m.heap) && m.mark.Keys == m.heap.Keys
    && c.kept == MarkedSet(m) && c.cleared == Elems(m.weak)
    && (forall u | u in h && h[u].Udata? :: m.heap[u] == h[u].(finalized := u in c.flagged))
    && (forall t | t in m.weak :: WeakListed(m, t))
  }

  lemma ClearedIsLost(h: map<Ref, Body>, m: State, c: Loss, v: Value, isKey: bool)
    requires Decided(h, m, c)
    ensures Cleared(m, v, isKey) == Lost(h, c, v, isKey)
  {
    hide WeakListed;
    if v.Coll? && v.r in h { assert Tidied(h[v.r], m.heap[v.r]); }
  }

  lemma ListedTable(h: map<Ref, Body>, m: State, c: Loss, t: Ref)
    requires Decided(h, m, c) && t in m.weak
    ensures t in h && h[t].Table? && m.heap[t].Table? && m.heap[t].weakBits == Mode(h, h[t].mt)
    ensures m.heap[t] == h[t].(nodes := m.heap[t].nodes, weakBits := m.heap[t].weakBits)
    ensures TidyNodes(h[t].nodes, m.heap[t].nodes)
  {
    assert WeakListed(m, t) && Tidied(h[t], m.heap[t]);
    ModeTidied(h, m.heap, h[t].mt);
  }

  lemma EntryCleared(h: map<Ref, Body>, m: State, c: Loss, t: Ref, n: Node, tidy: Node)
    requires Decided(h, m, c) && t in c.cleared && (tidy == n || tidy == Clean(n))
    ensures EntryAfter(h, c, t, n, ClearNode(m, tidy))
  {
    ClearedIsLost(h, m, c, n.key, true);
    ClearedIsLost(h, m, c, n.val, false);
    hide Cleared, Lost, Decided;
  }

  lemma ClearedTable(h: map<Ref, Body>, m: State, c: Loss, t: Ref)
    requires Decided(h, m, c) && t in m.weak
    ensures t in h && h[t].Table? && t in m.heap && m.heap[t].Table? && TableAfter(h, c, t, ClearedBody(m, m.heap[t]))
  {
    ListedTable(h, m, c, t);
    var b, d := h[t], m.heap[t];
    var r := ClearedBody(m, d);
    assert t in c.cleared;
    hide Decided, Lost, Cleared, ClearNode, EntryAfter;
    forall i | 0 <= i < |b.arr| ensures SlotAfter(h, c, t, b.arr[i], r.arr[i]) {
      ClearedIsLost(h, m, c, b.arr[i], false);
    }
    forall i | 0 <= i < |b.nodes| ensures EntryAfter(h, c, t, b.nodes[i], r.nodes[i]) {
      EntryCleared(h, m, c, t, b.nodes[i], d.nodes[i]);
      assert r.nodes[i] == ClearNode(m, d.nodes[i]);
    }
  }

  lemma TidiedTable(h: map<Ref, Body>, m: State, c: Loss, t: Ref)
    requires Decided(h, m, c) && t in h && h[t].Table? && t !in m.weak
    ensures t in m.heap && m.heap[t].Table? && TableAfter(h, c, t, m.heap[t])
  {
    assert Tidied(h[t], m.heap[t]);
    hide Lost;
  }

  lemma ClearedContents(h: map<Ref, Body>, m: State, c: Loss, k: map<Ref, Body>, running: Ref)
    requires Decided(h, m, c) && Distinct(m.weak) && k == ClearTables(m, m.weak).heap && k.Keys == h.Keys
    ensures ContentsAfter(h, c, running, [], k)
  {
    hide ClearTables, ClearedBody, TableAfter;
    forall x | x in k ensures BodyAfter(h, c, running, [], k, x) {
      ClearTablesBody(m, m.weak, x);
      assert Tidied(h[x], m.heap[x]);
      if h[x].Table? {
        if x in m.weak { ClearedTable(h, m, c, x); } else { TidiedTable(h, m, c, x); }
      } else if h[x].UpVal? {
        TidyValue(h, m.heap, h[x].home);
        ClearedValue(m, k, h[x].home);
      }
    }
  }

  lemma ClearedValue(m: State, k: map<Ref, Body>, home: Home)
    requires m.mark.Keys == m.heap.Keys && Distinct(m.weak) && k == ClearTables(m, m.weak).heap && k.Keys == m.heap.Keys
    ensures UpvalValue(k, home) == UpvalValue(m.heap, home)
  {
    hide ClearTables;
    if home.Open? && home.thread in k { ClearTablesBody(m, m.weak, home.thread); }
  }

  /** What decides the slots that `atomic` empties. */
  ghost function AtomicLoss(g: State): Loss
    requires Propagating(g) && g.gray == []
  {
    Loss(MarkedSet(AtomicMark(g)), AtomicFlags(g), Elems(AtomicMark(g).weak))
  }

  lemma AtomicTidy(g: State)
    requires Inv(g) && g.phase == Propagate && g.gray == []
    ensures Propagating(g)
    ensures var m := AtomicMark(g);
      && Distinct(m.weak) && TidiedHeap(g.heap, m.heap) && m.mark.Keys == m.heap.Keys == g.heap.Keys
      && forall t | t in m.weak :: WeakListed(m, t)
  {
    assert Propagating(g);
    hide Inv, Propagating, AtomicMark, WeakListed, Tri, MarkedUp, Markable, TidiedHeap, Atomic1, Atomic2, Atomic3,
        Atomic4, Separated, FromSeparate, AtomicFrom;
    AtomicStages(g);
    AtomicMarkDef(g);
    var m := AtomicMark(g);
    MarkedUpTri(g, m);
    WeakDistinct(m);
    MarkedUpTidy(g, m);
  }

  lemma AtomicDecided(g: State)
    requires Inv(g) && g.phase == Propagate && g.gray == []
    ensures Propagating(g) && Decided(g.heap, AtomicMark(g), AtomicLoss(g)) && Distinct(AtomicMark(g).weak)
  {
    hide Inv, Propagating, AtomicMark, AtomicFlags, WeakListed, MarkedSet, Elems, TidiedHeap;
    AtomicTidy(g);
    var m := AtomicMark(g);
    forall u | u in g.heap && g.heap[u].Udata? ensures m.heap[u] == g.heap[u].(finalized := u in AtomicFlags(g)) {
      AtomicMarkUdata(g, u);
    }
  }

  lemma MarkedUpTidy(g: State, m: State)
    requires MarkedUp(g, m)
    ensures TidiedHeap(g.heap, m.heap) && m.mark.Keys == m.heap.Keys == g.heap.Keys
    ensures forall t | t in m.weak :: WeakListed(m, t)
  {
    KeysAgree(m, {});
    hide Tri, WeakListed;
  }

  /** The end of the mark phase keeps all slots but those of the weak tables on its list. From these it
      takes exactly the entries, and the elements of arrays with weak values, that refer to an unmarked
      object other than a string, or whose value is a flagged userdata. */
  lemma AtomicContents(g: State)
    requires Inv(g) && g.phase == Propagate && g.gray == []
    ensures Propagating(g) && ContentsAfter(g.heap, AtomicLoss(g), g.running, [], Atomic(g).heap)
  {
    hide Decided, ClearTables, ContentsAfter, AtomicMark, AtomicLoss;
    AtomicDecided(g);
    AtomicHeap(g);
    ClearedContents(g.heap, AtomicMark(g), AtomicLoss(g), Atomic(g).heap, g.running);
  }

  lemma AtomicHeap(g: State)
    requires Inv(g) && g.phase == Propagate && g.gray == []
    ensures Propagating(g) && Atomic(g).heap == ClearTables(AtomicMark(g), AtomicMark(g).weak).heap
    ensures Atomic(g).heap.Keys == g.heap.Keys
  {
    hide ClearTables, AtomicMark;
    assert Propagating(g);
    hide Inv, Propagating;
    AtomicFixed(g);
  }
}