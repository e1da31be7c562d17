/** Ownership of objects by the collector's lists, closing of upvalues, and the sweep:
    `sweeplist`, `freeobj`, `luaF_close`, `luaC_linkupval`. */
module GcSweep {
  import opened GcHeap
  import opened GcMark
  import opened GcAtomic

  // ---------- who owns what ----------

  /** Objects other than strings and open upvalues are on `rootgc` or on `tmudata`. */
  predicate OnRoot(b: Body) { !b.Str? && !(b.UpVal? && b.home.Open?) }

  function StrCount(bs: seq<seq<Ref>>, r: Ref): nat {
    if bs == [] then 0 else multiset(bs[0])[r] + StrCount(bs[1..], r)
  }

  ghost predicate RootOwned(g: State, r: Ref) {
    multiset(g.rootgc)[r] + multiset(g.tmudata)[r] == (if r in g.heap && OnRoot(g.heap[r]) then 1 else 0)
  }

  ghost predicate StrOwned(g: State, r: Ref) {
    StrCount(g.strt, r) == (if r in g.heap && g.heap[r].Str? then 1 else 0)
  }

  /** Open upvalues are on `uvhead`, and on the list of the thread they point into. */
  ghost predicate UpvalOwned(g: State, r: Ref) {
    && multiset(g.uvhead)[r] == (if IsOpen(g.heap, r) then 1 else 0)
    && (IsOpen(g.heap, r) ==>
         var t := g.heap[r].home.thread;
         t in g.heap && g.heap[t].Thread? && g.heap[r].home.slot < |g.heap[t].stack| && r in g.heap[t].openupval)
  }

  ghost predicate ThreadOwns(g: State, t: Ref) {
    t in g.heap && g.heap[t].Thread? ==>
      && (forall u | u in g.heap[t].openupval :: IsOpen(g.heap, u) && g.heap[u].home.thread == t)
      && (forall u :: multiset(g.heap[t].openupval)[u] <= 1)
  }

  /** Every object is on the lists it belongs to, once; those in `X` have just been unlinked. */
  ghost predicate Owned(g: State, X: set<Ref>) {
    && (forall r | r !in X :: RootOwned(g, r))
    && (forall r :: StrOwned(g, r))
    && (forall r :: UpvalOwned(g, r))
    && (forall t :: ThreadOwns(g, t))
  }

  /** Userdata come after the main thread on `rootgc`, and nothing else does. */
  ghost predicate UdataLast(g: State) {
    && g.mainthread in g.rootgc
    && (forall i | 0 <= i < |g.rootgc| && g.rootgc[i] in g.heap ::
         i >= After(g.rootgc, g.mainthread) <==> g.heap[g.rootgc[i]].Udata?)
    && (forall u | u in g.tmudata :: u in g.heap && g.heap[u].Udata?)
  }

  ghost predicate FixedOk(g: State) {
    && g.mainthread in g.fixed && g.mainthread in g.heap && g.heap[g.mainthread].Thread?
    && (forall s | s in g.fixed :: s in g.heap && (g.heap[s].Str? || s == g.mainthread))
  }

  ghost predicate WellFormed(g: State) {
    g.mark.Keys == g.heap.Keys && Owned(g, {}) && UdataLast(g) && FixedOk(g) && |g.strt| > 0
  }

  // ---------- closing upvalues ----------

  /** `luaC_barrierf` */
  function BarrierF(g: State, o: Ref, v: Ref): State
    requires v in g.heap && IsWhite(g, v)
  {
    if g.phase == Propagate then ReallyMark(g, v) else MakeWhite(g, o)
  }

  /** `luaC_barrier` and `luaC_objbarrier` */
  function Barrier(g: State, o: Ref, v: Value): State {
    if v.Coll? && v.r in g.heap && IsWhite(g, v.r) && IsBlack(g, o) then BarrierF(g, o, v.r) else g
  }

  /** An element is put before the first one of `rootgc`. The sweep pointer stays where it is:
      at the head of the list, or behind the same element as before. */
  function LinkRoot(g: State, o: Ref): State {
    g.(rootgc := [o] + g.rootgc, sweepgc := if g.sweepgc == 0 then 0 else g.sweepgc + 1)
  }

  /** The part of `luaC_linkupval` that looks at the colour of the upvalue. */
  function LinkColour(g: State, u: Ref): State
    requires u in g.heap && g.heap[u].UpVal?
  {
    if !IsGray(g, u) then g
    else if g.phase == Propagate then
      Barrier(g.(mark := g.mark[u := Black]), u, UpvalValue(g.heap, g.heap[u].home))
    else MakeWhite(g, u)
  }

  /** `luaC_linkupval` */
  function LinkUpval(g: State, u: Ref): State
    requires u in g.heap && g.heap[u].UpVal?
  {
    LinkColour(LinkRoot(g, u), u)
  }

  function Without(s: seq<Ref>, d: set<Ref>): (r: seq<Ref>)
    ensures forall x :: multiset(r)[x] == if x in d then 0 else multiset(s)[x]
  {
    if s == [] then [] else
      assert s == [s[0]] + s[1..];
      (if s[0] in d then [] else [s[0]]) + Without(s[1..], d)
  }

  /** The fields that ownership depends on. */
  ghost predicate SameOwners(g: State, r: State) {
    r.heap == g.heap && r.rootgc == g.rootgc && r.tmudata == g.tmudata && r.strt == g.strt && r.uvhead == g.uvhead
  }

  lemma OwnedFrame(g: State, r: State, X: set<Ref>)
    requires Owned(g, X) && SameOwners(g, r)
    ensures Owned(r, X)
  {
    forall x | x !in X ensures RootOwned(r, x) { assert RootOwned(g, x); }
    forall x ensures StrOwned(r, x) { assert StrOwned(g, x); }
    forall x ensures UpvalOwned(r, x) { assert UpvalOwned(g, x); }
    forall x ensures ThreadOwns(r, x) { assert ThreadOwns(g, x); }
  }

  lemma BarrierFrame(g: State, o: Ref, v: Value)
    requires o in g.mark && g.mark.Keys == g.heap.Keys
    ensures SameOwners(g, Barrier(g, o, v)) && Barrier(g, o, v).mark.Keys == g.mark.Keys
    ensures Barrier(g, o, v) == g.(mark := Barrier(g, o, v).mark, gray := Barrier(g, o, v).gray)
  {}

  /** The first open upvalue of a thread, before `luaC_linkupval` looks at its colour. */
  function Detach(g: State, t: Ref): State
    requires t in g.heap && g.heap[t].Thread? && g.heap[t].openupval != []
    requires g.heap[t].openupval[0] in g.heap && g.heap[g.heap[t].openupval[0]].UpVal?
  {
    var u := g.heap[t].openupval[0];
    var th := g.heap[t].(openupval := g.heap[t].openupval[1..]);
    var uvs := Without(g.uvhead, {u});
    if IsDead(g, u) then
      g.(heap := g.heap[t := th] - {u}, mark := g.mark - {u}, uvhead := uvs)
    else
      LinkRoot(g.(heap := g.heap[t := th][u := UpVal(Closed(UpvalValue(g.heap, g.heap[u].home)))], uvhead := uvs), u)
  }

  /** One round of the loop of `luaF_close` on thread `t`. */
  function CloseOne(g: State, t: Ref): State
    requires t in g.heap && g.heap[t].Thread? && g.heap[t].openupval != []
    requires IsOpen(g.heap, g.heap[t].openupval[0])
  {
    var u := g.heap[t].openupval[0];
    if IsDead(g, u) then Detach(g, t) else LinkColour(Detach(g, t), u)
  }

  lemma LinkColourFrame(g: State, u: Ref)
    requires u in g.heap && g.heap[u].UpVal? && g.mark.Keys == g.heap.Keys
    ensures SameOwners(g, LinkColour(g, u)) && LinkColour(g, u).mark.Keys == g.mark.Keys
    ensures LinkColour(g, u) == g.(mark := LinkColour(g, u).mark, gray := LinkColour(g, u).gray)
  {}

  lemma DetachKeys(g: State, t: Ref)
    requires g.mark.Keys == g.heap.Keys && t in g.heap && g.heap[t].Thread? && g.heap[t].openupval != []
    requires IsOpen(g.heap, g.heap[t].openupval[0])
    ensures Detach(g, t).mark.Keys == Detach(g, t).heap.Keys
    ensures t in Detach(g, t).heap && Detach(g, t).heap[t] == g.heap[t].(openupval := g.heap[t].openupval[1..])
    ensures !IsDead(g, g.heap[t].openupval[0]) ==>
      g.heap[t].openupval[0] in Detach(g, t).heap && Detach(g, t).heap[g.heap[t].openupval[0]].UpVal?
  {}

  lemma CloseOneFrame(g: State, t: Ref)
    requires g.mark.Keys == g.heap.Keys && t in g.heap && g.heap[t].Thread? && g.heap[t].openupval != []
    requires IsOpen(g.heap, g.heap[t].openupval[0])
    ensures SameOwners(Detach(g, t), CloseOne(g, t)) && CloseOne(g, t).mark.Keys == Detach(g, t).mark.Keys
    ensures CloseOne(g, t) == Detach(g, t).(mark := CloseOne(g, t).mark, gray := CloseOne(g, t).gray)
    ensures CloseOne(g, t).mark.Keys == CloseOne(g, t).heap.Keys
    ensures t in CloseOne(g, t).heap && CloseOne(g, t).heap[t] == g.heap[t].(openupval := g.heap[t].openupval[1..])
  {
    hide Detach, LinkColour;
    DetachKeys(g, t);
    if !IsDead(g, g.heap[t].openupval[0]) { LinkColourFrame(Detach(g, t), g.heap[t].openupval[0]); }
  }

  lemma FirstOnce(us: seq<Ref>)
    requires us != []
    ensures multiset(us) == multiset{us[0]} + multiset(us[1..])
  {
    assert us == [us[0]] + us[1..];
  }

  /** What `Detach` does to the heap and to the lists. */
  ghost predicate Detached(g: State, r: State, t: Ref, u: Ref)
    requires t in g.heap && g.heap[t].Thread? && g.heap[t].openupval != []
  {
    && r.strt == g.strt && r.tmudata == g.tmudata
    && (forall x | x != t && x != u :: (x in r.heap <==> x in g.heap) && (x in g.heap ==> r.heap[x] == g.heap[x]))
    && t in r.heap && r.heap[t] == g.heap[t].(openupval := g.heap[t].openupval[1..])
    && (u in r.heap ==> r.heap[u].UpVal? && r.heap[u].home.Closed?)
    && (forall x :: multiset(r.rootgc)[x] == multiset(g.rootgc)[x] + (if x == u && u in r.heap then 1 else 0))
    && (forall x :: multiset(r.uvhead)[x] == if x == u then 0 else multiset(g.uvhead)[x])
  }

  lemma DetachDoes(g: State, t: Ref)
    requires t in g.heap && g.heap[t].Thread? && g.heap[t].openupval != []
    requires IsOpen(g.heap, g.heap[t].openupval[0])
    ensures Detached(g, Detach(g, t), t, g.heap[t].openupval[0])
  {
    var u := g.heap[t].openupval[0];
    assert multiset([u] + g.rootgc) == multiset{u} + multiset(g.rootgc);
  }

  lemma DetachedRoot(g: State, r: State, t: Ref, u: Ref, x: Ref)
    requires t in g.heap && g.heap[t].Thread? && g.heap[t].openupval != []
    requires Detached(g, r, t, u) && IsOpen(g.heap, u)
    ensures RootOwned(g, x) ==> RootOwned(r, x)
    ensures StrOwned(g, x) ==> StrOwned(r, x)
  {}

  lemma DetachedUpval(g: State, r: State, t: Ref, u: Ref, x: Ref)
    requires t in g.heap && g.heap[t].Thread? && g.heap[t].openupval != [] && u == g.heap[t].openupval[0]
    requires Detached(g, r, t, u) && IsOpen(g.heap, u) && g.heap[u].home.thread == t && UpvalOwned(g, x)
    ensures UpvalOwned(r, x)
  {
    if x != u && x in g.heap[t].openupval { assert x in g.heap[t].openupval[1..]; }
  }

  lemma DetachedThread(g: State, r: State, t: Ref, u: Ref, x: Ref)
    requires t in g.heap && g.heap[t].Thread? && g.heap[t].openupval != [] && u == g.heap[t].openupval[0]
    requires Detached(g, r, t, u) && IsOpen(g.heap, u) && g.heap[u].home.thread == t && ThreadOwns(g, x)
    ensures ThreadOwns(r, x)
  {
    var us := g.heap[t].openupval;
    FirstOnce(us);
    if x == t {
      assert multiset(us)[u] <= 1;
      forall y ensures multiset(us[1..])[y] <= 1 { assert multiset(us)[y] <= 1; }
      forall y | y in us[1..] ensures IsOpen(r.heap, y) && r.heap[y].home.thread == t {
        assert y in us && multiset(us[1..])[y] > 0 && y != u;
      }
    } else if x in g.heap && g.heap[x].Thread? && x != u {
      assert r.heap[x] == g.heap[x];
      forall y | y in g.heap[x].openupval ensures IsOpen(r.heap, y) && r.heap[y].home.thread == x {
        assert IsOpen(g.heap, y) && g.heap[y].home.thread == x && y != u;
      }
    }
  }

  /** What `luaF_close` needs of the list of open upvalues of a thread. */
  ghost predicate CloseReady(g: State, t: Ref) {
    g.mark.Keys == g.heap.Keys && t in g.heap && g.heap[t].Thread? && ThreadOwns(g, t)
  }

  lemma FirstIsOpen(g: State, t: Ref)
    requires CloseReady(g, t) && g.heap[t].openupval != []
    ensures IsOpen(g.heap, g.heap[t].openupval[0]) && g.heap[g.heap[t].openupval[0]].home.thread == t
  {
    assert g.heap[t].openupval[0] in g.heap[t].openupval;
  }

  lemma DetachOwned(g: State, t: Ref, X: set<Ref>)
    requires Owned(g, X) && CloseReady(g, t) && g.heap[t].openupval != []
    ensures IsOpen(g.heap, g.heap[t].openupval[0]) && Owned(Detach(g, t), X)
  {
    var u := g.heap[t].openupval[0];
    FirstIsOpen(g, t);
    DetachDoes(g, t);
    var r := Detach(g, t);
    hide Detach, Detached, RootOwned, StrOwned, UpvalOwned, ThreadOwns;
    forall x ensures x !in X ==> RootOwned(r, x) {
      DetachedRoot(g, r, t, u, x);
    }
    forall x ensures StrOwned(r, x) && UpvalOwned(r, x) && ThreadOwns(r, x) {
      DetachedRoot(g, r, t, u, x);
      DetachedUpval(g, r, t, u, x);
      DetachedThread(g, r, t, u, x);
    }
  }

  lemma CloseOneOwned(g: State, t: Ref, X: set<Ref>)
    requires Owned(g, X) && CloseReady(g, t) && g.heap[t].openupval != []
    ensures IsOpen(g.heap, g.heap[t].openupval[0]) && Owned(CloseOne(g, t), X)
  {
    hide Owned, CloseOne, Detach;
    DetachOwned(g, t, X);
    CloseOneFrame(g, t);
    OwnedFrame(Detach(g, t), CloseOne(g, t), X);
  }

  lemma CloseOneReady(g: State, t: Ref)
    requires CloseReady(g, t) && g.heap[t].openupval != []
    ensures IsOpen(g.heap, g.heap[t].openupval[0]) && CloseReady(CloseOne(g, t), t)
    ensures CloseOne(g, t).heap[t] == g.heap[t].(openupval := g.heap[t].openupval[1..])
  {
    FirstIsOpen(g, t);
    DetachDoes(g, t);
    hide CloseOne, Detach;
    CloseOneFrame(g, t);
    DetachedThread(g, Detach(g, t), t, g.heap[t].openupval[0], t);
  }

  /** `luaF_close` */
  function Close(g: State, t: Ref, level: nat): State
    requires CloseReady(g, t)
    decreases |g.heap[t].openupval|
  {
    var us := g.heap[t].openupval;
    if us == [] then g else
      CloseOneReady(g, t);
      if g.heap[us[0]].home.slot < level then g else Close(CloseOne(g, t), t, level)
  }

  // ---------- keeping what is alive ----------

  /** A change that keeps live objects alive, revives none, and makes live objects refer to
      what they referred to, or to live objects, keeps the safety invariant. */
  lemma AliveTransfer(g: State, r: State)
    requires AliveShut(g) && r.mark.Keys == r.heap.Keys
    requires RootsAlive(r)
    requires forall x | Alive(g, x) && x in g.heap :: Alive(r, x)
    requires forall x | x in r.heap && Alive(r, x) :: Follows(g, r, x)
    ensures AliveShut(r)
  {
    forall x | x in r.heap && Alive(r, x) ensures AllAlive(r, LiveRefs(r.heap, r.heap[x])) {
      assert Follows(g, r, x);
    }
  }

  ghost predicate Follows(g: State, r: State, x: Ref)
    requires x in r.heap
  {
    forall c | c in LiveRefs(r.heap, r.heap[x]) :: Alive(r, c)
      || (x in g.heap && Alive(g, x) && c in LiveRefs(g.heap, g.heap[x]))
  }

  /** The roots of two states are the same. */
  ghost predicate SameRoots(g: State, r: State) {
    && r.mainthread == g.mainthread && r.running == g.running && r.registry == g.registry
    && r.mt == g.mt && r.tmudata == g.tmudata
  }

  lemma RootsTransfer(g: State, r: State)
    requires RootsAlive(g) && SameRoots(g, r)
    requires g.mark.Keys == g.heap.Keys
    requires forall x | Alive(g, x) && x in g.heap :: Alive(r, x)
    ensures RootsAlive(r)
  {}

  // ---------- sweeping ----------

  function DeadOf(g: State, s: seq<Ref>): set<Ref> { set x | x in s && !Alive(g, x) }

  /** The effect of sweeping the objects of a list on the objects: the dead are freed, the
      others become white. */
  function SweepObjects(g: State, s: seq<Ref>): State {
    var d := DeadOf(g, s);
    g.(heap := g.heap - d,
       mark := map x | x in g.mark && x !in d :: if x in s then White(g.currentwhite) else g.mark[x])
  }

  /** `sweepwholelist` on a list of the string table. */
  function SweepBucket(g: State, k: nat): State
    requires k < |g.strt|
  {
    SweepObjects(g, g.strt[k]).(strt := g.strt[k := Without(g.strt[k], DeadOf(g, g.strt[k]))])
  }

  /** `sweepwholelist` on the open upvalues of a thread. */
  function SweepOpen(g: State, t: Ref): State
    requires t in g.heap && g.heap[t].Thread? && t !in g.heap[t].openupval
  {
    var us := g.heap[t].openupval;
    var d := DeadOf(g, us);
    var h := SweepObjects(g, us);
    h.(heap := h.heap[t := g.heap[t].(openupval := Without(us, d))], uvhead := Without(g.uvhead, d))
  }

  function Cut(s: seq<Ref>, i: nat): seq<Ref>
    requires i < |s|
  {
    s[..i] + s[i + 1..]
  }

  /** `freeobj` on an object that is on no list any more; a thread has its upvalues closed. */
  function FreeObj(g: State, o: Ref): State
    requires o in g.heap && (g.heap[o].Thread? ==> CloseReady(g, o))
  {
    var h := if g.heap[o].Thread? then Close(g, o, 0) else g;
    h.(heap := h.heap - {o}, mark := h.mark - {o})
  }

  lemma SweepObjectsAlive(g: State, s: seq<Ref>)
    requires AliveShut(g)
    ensures AliveShut(SweepObjects(g, s))
    ensures forall x | x in g.heap :: Alive(g, x) ==> Alive(SweepObjects(g, s), x)
    ensures forall x | Alive(SweepObjects(g, s), x) :: Alive(g, x)
  {
    var r := SweepObjects(g, s);
    forall x | x in g.heap && Alive(g, x) ensures Alive(r, x) {}
    forall x | x in r.heap && Alive(r, x) ensures Follows(g, r, x) {
      FewerRefs(g.heap, r.heap, g.heap[x]);
    }
    RootsTransfer(g, r);
    AliveTransfer(g, r);
  }

  lemma FewerRefs(h: map<Ref, Body>, k: map<Ref, Body>, b: Body)
    requires k.Keys <= h.Keys && forall x | x in k :: k[x] == h[x]
    ensures LiveRefs(k, b) <= LiveRefs(h, b)
  {}

  /** The list of open upvalues of a thread is not a slot. */
  lemma RelistThread(h: map<Ref, Body>, t: Ref, us: seq<Ref>, b: Body)
    requires t in h && h[t].Thread?
    ensures LiveRefs(h[t := h[t].(openupval := us)], b) == LiveRefs(h, b)
    ensures LiveRefs(h, h[t].(openupval := us)) == LiveRefs(h, h[t])
  {}

  lemma SweepOpenAlive(g: State, t: Ref)
    requires AliveShut(g) && t in g.heap && g.heap[t].Thread? && t !in g.heap[t].openupval
    ensures AliveShut(SweepOpen(g, t))
  {
    hide LiveRefs;
    var us := g.heap[t].openupval;
    var h := SweepObjects(g, us);
    SweepObjectsAlive(g, us);
    var r := SweepOpen(g, t);
    assert r.mark == h.mark;
    forall x | x in r.heap && Alive(r, x) ensures Follows(h, r, x) {
      RelistThread(h.heap, t, r.heap[t].openupval, h.heap[x]);
      RelistThread(h.heap, t, r.heap[t].openupval, r.heap[x]);
    }
    RootsTransfer(h, r);
    AliveTransfer(h, r);
  }

  lemma SweepBucketAlive(g: State, k: nat)
    requires AliveShut(g) && k < |g.strt|
    ensures AliveShut(SweepBucket(g, k))
  {
    var h := SweepObjects(g, g.strt[k]);
    SweepObjectsAlive(g, g.strt[k]);
    SameAlive(h, SweepBucket(g, k));
  }

  lemma SameAlive(g: State, r: State)
    requires AliveShut(g) && SameRoots(g, r)
    requires r.heap == g.heap && r.mark == g.mark && r.currentwhite == g.currentwhite && r.fixed == g.fixed
    ensures AliveShut(r)
  {
    hide LiveRefs;
    forall x | x in r.heap && Alive(r, x) ensures Follows(g, r, x) {}
    AliveTransfer(g, r);
  }

  /** In the mark phase nothing is dead. */
  ghost predicate NoDead(g: State) { forall x | x in g.mark :: !IsDead(g, x) }

  lemma DetachAlive(g: State, t: Ref)
    requires AliveShut(g) && CloseReady(g, t) && g.heap[t].openupval != [] && FixedOk(g)
    ensures IsOpen(g.heap, g.heap[t].openupval[0]) && AliveShut(Detach(g, t))
    ensures forall x | x in g.heap && Alive(g, x) :: Alive(Detach(g, t), x)
  {
    FirstIsOpen(g, t);
    var u := g.heap[t].openupval[0];
    var us := g.heap[t].openupval[1..];
    var r := Detach(g, t);
    DetachKeys(g, t);
    forall x | x in r.heap && Alive(r, x) ensures Follows(g, r, x) {
      DetachRefs(g, t, x);
    }
    RootsTransfer(g, r);
    AliveTransfer(g, r);
  }

  lemma DetachRefs(g: State, t: Ref, x: Ref)
    requires CloseReady(g, t) && g.heap[t].openupval != []
    requires IsOpen(g.heap, g.heap[t].openupval[0])
    requires x in Detach(g, t).heap
    ensures x in g.heap && LiveRefs(Detach(g, t).heap, Detach(g, t).heap[x]) <= LiveRefs(g.heap, g.heap[x])
  {
    var u := g.heap[t].openupval[0];
    var us := g.heap[t].openupval[1..];
    var h := g.heap[t := g.heap[t].(openupval := us)];
    var r := Detach(g, t);
    RelistThread(g.heap, t, us, g.heap[x]);
    RelistThread(g.heap, t, us, h[x]);
    assert LiveRefs(h, h[x]) == LiveRefs(g.heap, g.heap[x]);
    if IsDead(g, u) {
      FewerRefs(h, r.heap, h[x]);
    } else {
      CloseRefs(h, u, x);
    }
  }

  /** Closing an upvalue changes no slot. */
  lemma CloseRefs(h: map<Ref, Body>, u: Ref, x: Ref)
    requires IsOpen(h, u) && x in h
    ensures var k := h[u := UpVal(Closed(UpvalValue(h, h[u].home)))];
      LiveRefs(k, k[x]) == LiveRefs(h, h[x]) && StrongRefs(k, k[x]) == StrongRefs(h, h[x])
      && AllRefs(k, k[x]) == AllRefs(h, h[x])
  {}

  lemma LinkColourAlive(g: State, u: Ref)
    requires AliveShut(g) && u in g.heap && g.heap[u].UpVal? && (g.phase == Propagate ==> NoDead(g))
    ensures AliveShut(LinkColour(g, u))
    ensures forall x | x in g.heap && Alive(g, x) :: Alive(LinkColour(g, u), x)
  {
    hide LiveRefs;
    var r := LinkColour(g, u);
    LinkColourFrame(g, u);
    forall x | x in g.heap && Alive(g, x) ensures Alive(r, x) {}
    RootsTransfer(g, r);
    forall x | x in r.heap && Alive(r, x) ensures Follows(g, r, x) {}
    AliveTransfer(g, r);
  }

  lemma DetachNoDead(g: State, t: Ref)
    requires CloseReady(g, t) && g.heap[t].openupval != [] && IsOpen(g.heap, g.heap[t].openupval[0]) && NoDead(g)
    ensures NoDead(Detach(g, t))
  {}

  lemma CloseOneAlive(g: State, t: Ref)
    requires AliveShut(g) && CloseReady(g, t) && g.heap[t].openupval != [] && FixedOk(g)
    requires g.phase == Propagate ==> NoDead(g)
    ensures IsOpen(g.heap, g.heap[t].openupval[0]) && AliveShut(CloseOne(g, t))
    ensures forall x | x in g.heap && Alive(g, x) :: Alive(CloseOne(g, t), x)
  {
    hide LinkColour, AliveShut, LiveRefs;
    FirstIsOpen(g, t);
    DetachAlive(g, t);
    DetachKeys(g, t);
    var u := g.heap[t].openupval[0];
    if !IsDead(g, u) {
      if g.phase == Propagate { DetachNoDead(g, t); }
      LinkColourAlive(Detach(g, t), u);
    }
  }
}
