/** The sweep phase keeps the invariant: `sweeplist`, `freeobj`, `singlestep`. */
module GcCycle {
  import opened GcHeap
  import opened GcMark
  import opened GcAtomic
  import opened GcSweep

  // ---------- ownership through the sweep ----------

  lemma StrCountUpdate(bs: seq<seq<Ref>>, k: nat, b: seq<Ref>, r: Ref)
    requires k < |bs|
    ensures StrCount(bs[k := b], r) + multiset(bs[k])[r] == StrCount(bs, r) + multiset(b)[r]
    ensures StrCount(bs, r) >= multiset(bs[k])[r]
  {
    if k > 0 {
      assert bs[k := b][1..] == bs[1..][k - 1 := b];
      StrCountUpdate(bs[1..], k - 1, b, r);
    } else {
      assert bs[k := b][1..] == bs[1..];
    }
  }

  lemma StrCountIn(bs: seq<seq<Ref>>, r: Ref)
    ensures StrCount(bs, r) > 0 <==> exists j :: 0 <= j < |bs| && r in bs[j]
  {
    if bs != [] {
      StrCountIn(bs[1..], r);
      if j :| 0 <= j < |bs| && r in bs[j] {
        if j > 0 { assert bs[1..][j - 1] == bs[j]; }
      }
    }
  }

  lemma SweepBucketOwned(g: State, k: nat)
    requires Owned(g, {}) && k < |g.strt|
    ensures Owned(SweepBucket(g, k), {})
  {
    var r := SweepBucket(g, k);
    var d := DeadOf(g, g.strt[k]);
    forall x | x in d ensures x in g.heap && g.heap[x].Str? {
      StrCountIn(g.strt, x);
      assert StrOwned(g, x);
    }
    hide StrCount, SweepBucket;
    assert r == SweepObjects(g, g.strt[k]).(strt := g.strt[k := Without(g.strt[k], d)]) by { SweepBucketDef(g, k); }
    forall x ensures RootOwned(r, x) { assert RootOwned(g, x); }
    forall x ensures StrOwned(r, x) {
      assert StrOwned(g, x);
      StrCountUpdate(g.strt, k, Without(g.strt[k], d), x);
    }
    forall x ensures UpvalOwned(r, x) { assert UpvalOwned(g, x); }
    forall x ensures ThreadOwns(r, x) { assert ThreadOwns(g, x); }
  }

  lemma SweepBucketDef(g: State, k: nat)
    requires k < |g.strt|
    ensures SweepBucket(g, k)
      == SweepObjects(g, g.strt[k]).(strt := g.strt[k := Without(g.strt[k], DeadOf(g, g.strt[k]))])
  {}

  /** What sweeping the open upvalues of a thread does to the heap and the lists. */
  ghost predicate OpenSwept(g: State, r: State, t: Ref, d: set<Ref>)
    requires t in g.heap && g.heap[t].Thread?
  {
    && (forall x | x in d :: x in g.heap[t].openupval)
    && r.heap.Keys == g.heap.Keys - d && t !in d
    && (forall x | x in r.heap && x != t :: r.heap[x] == g.heap[x])
    && r.heap[t] == g.heap[t].(openupval := Without(g.heap[t].openupval, d))
    && r.rootgc == g.rootgc && r.tmudata == g.tmudata && r.strt == g.strt
    && r.uvhead == Without(g.uvhead, d)
  }

  lemma SweepOpenDoes(g: State, t: Ref)
    requires CloseReady(g, t)
    ensures t !in g.heap[t].openupval && OpenSwept(g, SweepOpen(g, t), t, DeadOf(g, g.heap[t].openupval))
  {
    assert t in g.heap[t].openupval ==> IsOpen(g.heap, t);
  }

  lemma OpenSweptOwned(g: State, r: State, t: Ref, d: set<Ref>, x: Ref)
    requires CloseReady(g, t) && OpenSwept(g, r, t, d)
    requires RootOwned(g, x) && StrOwned(g, x) && UpvalOwned(g, x) && ThreadOwns(g, x)
    ensures RootOwned(r, x) && StrOwned(r, x) && UpvalOwned(r, x)
  {
    assert x in d ==> x in g.heap[t].openupval && IsOpen(g.heap, x);
    if IsOpen(r.heap, x) && g.heap[x].home.thread == t {
      assert multiset(g.heap[t].openupval)[x] > 0;
    }
  }

  lemma OpenSweptThread(g: State, r: State, t: Ref, d: set<Ref>, x: Ref)
    requires CloseReady(g, t) && OpenSwept(g, r, t, d) && ThreadOwns(g, x)
    ensures ThreadOwns(r, x)
  {
    if x in r.heap && r.heap[x].Thread? {
      forall u | u in r.heap[x].openupval
        ensures IsOpen(r.heap, u) && r.heap[u].home.thread == x
      {
        assert multiset(r.heap[x].openupval)[u] > 0;
        assert multiset(g.heap[x].openupval)[u] > 0 && u in g.heap[x].openupval;
      }
      forall u ensures multiset(r.heap[x].openupval)[u] <= 1 {
        assert multiset(g.heap[x].openupval)[u] <= 1;
      }
    }
  }

  lemma SweepOpenOwned(g: State, t: Ref)
    requires Owned(g, {}) && CloseReady(g, t)
    ensures t !in g.heap[t].openupval && Owned(SweepOpen(g, t), {})
  {
    SweepOpenDoes(g, t);
    var d := DeadOf(g, g.heap[t].openupval);
    var r := SweepOpen(g, t);
    hide SweepOpen, OpenSwept, RootOwned, StrOwned, UpvalOwned, ThreadOwns;
    forall x ensures RootOwned(r, x) && StrOwned(r, x) && UpvalOwned(r, x) && ThreadOwns(r, x) {
      OpenSweptOwned(g, r, t, d, x);
      OpenSweptThread(g, r, t, d, x);
    }
  }

  // ---------- the order of `rootgc` ----------

  /** `UdataLast` on a list: what comes after `m`, and only that, is userdata. */
  ghost predicate UdataTail(h: map<Ref, Body>, s: seq<Ref>, m: Ref) {
    m in s && forall i | 0 <= i < |s| && s[i] in h :: i >= After(s, m) <==> h[s[i]].Udata?
  }

  lemma AfterIn(s: seq<Ref>, m: Ref)
    requires m in s
    ensures 0 < After(s, m) <= |s| && s[After(s, m) - 1] == m
  {
    if s[0] != m { AfterIn(s[1..], m); }
  }

  lemma {:induction false} AfterConcat(s: seq<Ref>, t: seq<Ref>, m: Ref)
    ensures m in s ==> After(s + t, m) == After(s, m)
    ensures m !in s ==> After(s + t, m) == |s| + After(t, m)
  {
    if s == [] {
      assert s + t == t;
    } else {
      assert (s + t)[1..] == s[1..] + t;
      AfterConcat(s[1..], t, m);
    }
  }

  lemma LinkTail(h: map<Ref, Body>, s: seq<Ref>, m: Ref, u: Ref)
    requires UdataTail(h, s, m) && u != m && (u in h ==> !h[u].Udata?)
    ensures UdataTail(h, [u] + s, m)
  {
    AfterIn(s, m);
    AfterConcat([u], s, m);
    var t := [u] + s;
    forall i | 0 <= i < |t| && t[i] in h ensures i >= After(t, m) <==> h[t[i]].Udata? {
      if i > 0 { assert t[i] == s[i - 1]; }
    }
  }

  lemma CutTail(h: map<Ref, Body>, s: seq<Ref>, m: Ref, i: nat)
    requires UdataTail(h, s, m) && i < |s| && i != After(s, m) - 1
    ensures UdataTail(h, Cut(s, i), m)
  {
    AfterIn(s, m);
    var a := After(s, m) - 1;
    var t := Cut(s, i);
    if i < a {
      assert t[a - 1] == m;
      AfterCut(s, m, i);
    } else {
      assert t[a] == m;
      AfterCut(s, m, i);
    }
    forall j | 0 <= j < |t| && t[j] in h ensures j >= After(t, m) <==> h[t[j]].Udata? {
      assert t[j] == s[if j < i then j else j + 1];
    }
  }

  lemma {:induction false} AfterCut(s: seq<Ref>, m: Ref, i: nat)
    requires m in s && i < |s| && i != After(s, m) - 1
    ensures After(Cut(s, i), m) == if i < After(s, m) - 1 then After(s, m) - 1 else After(s, m)
  {
    if i == 0 {
      assert Cut(s, i) == s[1..];
    } else {
      assert Cut(s, i) == [s[0]] + Cut(s[1..], i - 1);
      assert Cut(s, i)[1..] == Cut(s[1..], i - 1);
      if s[0] != m { AfterCut(s[1..], m, i - 1); }
    }
  }

  lemma TailFrame(h: map<Ref, Body>, k: map<Ref, Body>, s: seq<Ref>, m: Ref)
    requires UdataTail(h, s, m)
    requires forall i | 0 <= i < |s| && s[i] in k :: s[i] in h && k[s[i]].Udata? == h[s[i]].Udata?
    ensures UdataTail(k, s, m)
  {}

  // ---------- colours during the sweep ----------

  /** Strings, threads and open upvalues are never black, userdata and closed upvalues never
      gray. */
  ghost predicate KindColours(g: State) {
    && g.mark.Keys == g.heap.Keys
    && forall r | r in g.heap :: (g.mark[r].Black? ==> Blackable(g.heap[r]))
        && (g.mark[r].Gray? ==> Grayable(g.heap[r]))
  }

  /** Still to be swept: on the rest of `rootgc`, open in a thread there, or in a bucket of the
      string table that comes next. */
  ghost predicate Unswept(g: State, r: Ref)
    requires r in g.heap && g.sweepgc <= |g.rootgc|
  {
    || (g.heap[r].Str? && g.phase == SweepString
        && exists j :: g.sweepstrgc <= j < |g.strt| && r in g.strt[j])
    || r in g.rootgc[g.sweepgc..]
    || (IsOpen(g.heap, r) && g.heap[r].home.thread in g.rootgc[g.sweepgc..])
  }

  ghost predicate IsNew(g: State, r: Ref) { r in g.mark && g.mark[r] == White(g.currentwhite) }

  /** Every object has been swept, is waiting for its finalizer, or is still to be swept. */
  ghost predicate Sweeping(g: State, X: set<Ref>) {
    && g.sweepgc <= |g.rootgc|
    && forall r | r in g.heap && r !in X :: IsNew(g, r) || r in g.tmudata || Unswept(g, r)
  }

  /** The invariant during the sweep of `rootgc`, except for unlinked objects. */
  ghost predicate SweepGood(g: State, X: set<Ref>) {
    && g.phase == Sweep && g.mark.Keys == g.heap.Keys
    && Owned(g, X) && UdataTail(g.heap, g.rootgc, g.mainthread) && FixedOk(g)
    && (forall u | u in g.tmudata :: u in g.heap && g.heap[u].Udata?)
    && AliveShut(g) && KindColours(g) && Sweeping(g, X)
  }

  lemma WhitenGood(g: State, o: Ref)
    requires SweepGood(g, {}) && g.sweepgc < |g.rootgc| && o == g.rootgc[g.sweepgc] && Alive(g, o)
    requires forall u | IsOpen(g.heap, u) && g.heap[u].home.thread == o :: IsNew(g, u)
    ensures SweepGood(MakeWhite(g, o).(sweepgc := g.sweepgc + 1), {})
  {
    hide Owned, UdataTail, AliveShut, KindColours, Sweeping, IsOpen;
    var r := MakeWhite(g, o).(sweepgc := g.sweepgc + 1);
    OwnedFrame(g, r, {});
    WhitenSweeping(g, o, r);
    WhitenAlive(g, r, o);
    FixedFrame(g, r);
  }

  lemma FixedFrame(g: State, r: State)
    requires FixedOk(g) && r.fixed == g.fixed && r.mainthread == g.mainthread
    requires forall s | s in g.fixed :: s in r.heap && (g.heap[s].Str? ==> r.heap[s].Str?)
                                        && (g.heap[s].Thread? ==> r.heap[s].Thread?)
    ensures FixedOk(r)
  {}

  lemma WhitenSweeping(g: State, o: Ref, r: State)
    requires Sweeping(g, {}) && KindColours(g) && g.sweepgc < |g.rootgc| && o == g.rootgc[g.sweepgc] && Alive(g, o)
    requires forall u | IsOpen(g.heap, u) && g.heap[u].home.thread == o :: IsNew(g, u)
    requires r == MakeWhite(g, o).(sweepgc := g.sweepgc + 1)
    ensures Sweeping(r, {}) && KindColours(r)
  {
    assert g.rootgc[g.sweepgc..] == [o] + r.rootgc[r.sweepgc..];
    forall x | x in r.heap && x !in {} ensures IsNew(r, x) || x in r.tmudata || Unswept(r, x) {
      assert IsNew(g, x) || x in g.tmudata || Unswept(g, x);
    }
  }

  lemma WhitenAlive(g: State, r: State, o: Ref)
    requires AliveShut(g) && o in g.mark && Alive(g, o)
    requires r == g.(mark := g.mark[o := White(g.currentwhite)], sweepgc := r.sweepgc)
    ensures AliveShut(r)
  {
    hide LiveRefs;
    RootsTransfer(g, r);
    forall x | x in r.heap && Alive(r, x) ensures Follows(g, r, x) {}
    AliveTransfer(g, r);
  }

  /** The open upvalues of the thread that the sweep has reached. */
  lemma SweepOpenGood(g: State, t: Ref)
    requires SweepGood(g, {}) && CloseReady(g, t)
    ensures t !in g.heap[t].openupval && SweepGood(SweepOpen(g, t), {})
    ensures forall u | IsOpen(SweepOpen(g, t).heap, u) && SweepOpen(g, t).heap[u].home.thread == t ::
        IsNew(SweepOpen(g, t), u)
    ensures CloseReady(SweepOpen(g, t), t)
  {
    SweepOpenDoes(g, t);
    SweepOpenOwned(g, t);
    SweepOpenAlive(g, t);
    var r := SweepOpen(g, t);
    var d := DeadOf(g, g.heap[t].openupval);
    hide Owned, AliveShut;
    assert r.mark.Keys == r.heap.Keys && ThreadOwns(r, t) by { OwnsThread(r, t); }
    SweepOpenColours(g, t, d);
    SweepOpenKinds(g, t, d);
  }

  lemma OwnsThread(g: State, t: Ref)
    requires Owned(g, {})
    ensures ThreadOwns(g, t)
  {}

  lemma SweepOpenMarks(g: State, t: Ref, x: Ref)
    requires t in g.heap && g.heap[t].Thread? && t !in g.heap[t].openupval && x in SweepOpen(g, t).heap
    requires g.mark.Keys == g.heap.Keys
    ensures x in g.heap && x in SweepOpen(g, t).mark
    ensures x in g.heap[t].openupval ==> IsNew(SweepOpen(g, t), x)
    ensures x !in g.heap[t].openupval ==> SweepOpen(g, t).mark[x] == g.mark[x]
    ensures x != t ==> SweepOpen(g, t).heap[x] == g.heap[x]
    ensures SweepOpen(g, t).heap[t] == g.heap[t].(openupval := SweepOpen(g, t).heap[t].openupval)
  {}

  lemma SweepOpenColours(g: State, t: Ref, d: set<Ref>)
    requires CloseReady(g, t) && d == DeadOf(g, g.heap[t].openupval) && t !in g.heap[t].openupval
    requires Sweeping(g, {}) && KindColours(g) && Owned(g, {})
    ensures Sweeping(SweepOpen(g, t), {}) && KindColours(SweepOpen(g, t))
    ensures forall u | IsOpen(SweepOpen(g, t).heap, u) && SweepOpen(g, t).heap[u].home.thread == t ::
        IsNew(SweepOpen(g, t), u)
  {
    var r := SweepOpen(g, t);
    SweepOpenFrame(g, t);
    hide SweepOpen, SweptAt, KindColours, UpvalOwned;
    forall x | x in r.heap
      ensures SweptAt(g, r, t, x)
    {
      assert UpvalOwned(g, x);
      hide Owned, Sweeping;
      SweepOpenMarks(g, t, x);
      SweptOne(g, r, t, x);
    }
    SweptAll(g, r, t);
  }

  lemma SweptAll(g: State, r: State, t: Ref)
    requires r.mark.Keys == r.heap.Keys && r.sweepgc <= |r.rootgc| && forall x | x in r.heap :: SweptAt(g, r, t, x)
    ensures Sweeping(r, {}) && KindColours(r)
    ensures forall u | IsOpen(r.heap, u) && r.heap[u].home.thread == t :: IsNew(r, u)
  {
    forall x | x in r.heap
      ensures (r.mark[x].Black? ==> Blackable(r.heap[x])) && (r.mark[x].Gray? ==> Grayable(r.heap[x]))
      ensures IsNew(r, x) || x in r.tmudata || Unswept(r, x)
    {
      assert SweptAt(g, r, t, x);
      hide Unswept;
    }
    forall u | IsOpen(r.heap, u) && r.heap[u].home.thread == t ensures IsNew(r, u) { assert SweptAt(g, r, t, u); }
    hide SweptAt, Unswept;
  }

  lemma SweepOpenFrame(g: State, t: Ref)
    requires CloseReady(g, t) && t !in g.heap[t].openupval
    ensures var r := SweepOpen(g, t);
      r == g.(heap := r.heap, mark := r.mark, uvhead := r.uvhead) && r.mark.Keys == r.heap.Keys
  {
    hide Without;
  }

  ghost predicate SweptAt(g: State, r: State, t: Ref, x: Ref)
    requires x in r.heap && x in r.mark && r.sweepgc <= |r.rootgc|
  {
    && (r.mark[x].Black? ==> Blackable(r.heap[x])) && (r.mark[x].Gray? ==> Grayable(r.heap[x]))
    && (IsNew(r, x) || x in r.tmudata || Unswept(r, x))
    && (IsOpen(r.heap, x) && r.heap[x].home.thread == t ==> IsNew(r, x))
  }

  lemma SweptOne(g: State, r: State, t: Ref, x: Ref)
    requires t in g.heap && g.heap[t].Thread? && x in g.heap && x in r.heap && x in r.mark && UpvalOwned(g, x)
    requires Sweeping(g, {}) && KindColours(g)
    requires r == g.(heap := r.heap, mark := r.mark, uvhead := r.uvhead)
    requires x in g.heap[t].openupval ==> IsNew(r, x)
    requires x !in g.heap[t].openupval ==> r.mark[x] == g.mark[x]
    requires x != t ==> r.heap[x] == g.heap[x]
    requires t in r.heap && r.heap[t].Thread? && r.heap[t] == g.heap[t].(openupval := r.heap[t].openupval)
    ensures SweptAt(g, r, t, x)
  {
    assert IsNew(g, x) || x in g.tmudata || Unswept(g, x);
  }

  lemma SweepOpenKinds(g: State, t: Ref, d: set<Ref>)
    requires CloseReady(g, t) && d == DeadOf(g, g.heap[t].openupval) && t !in g.heap[t].openupval
    requires FixedOk(g) && UdataTail(g.heap, g.rootgc, g.mainthread)
    requires forall u | u in g.tmudata :: u in g.heap && g.heap[u].Udata?
    ensures FixedOk(SweepOpen(g, t)) && UdataTail(SweepOpen(g, t).heap, g.rootgc, g.mainthread)
    ensures forall u | u in g.tmudata :: u in SweepOpen(g, t).heap && SweepOpen(g, t).heap[u].Udata?
  {
    var r := SweepOpen(g, t);
    SweepOpenDoes(g, t);
    SweepOpenFrame(g, t);
    OnlyOpen(g, r, t, d);
    hide SweepOpen, OpenSwept, UdataTail, ThreadOwns;
    FixedFrame(g, r);
    TailFrame(g.heap, r.heap, g.rootgc, g.mainthread);
  }

  /** What has gone was an open upvalue; the other objects are of the same kind as before. */
  lemma OnlyOpen(g: State, r: State, t: Ref, d: set<Ref>)
    requires CloseReady(g, t) && OpenSwept(g, r, t, d)
    ensures forall x | x in g.heap && !g.heap[x].UpVal? :: x in r.heap
    ensures forall x | x in r.heap :: x in g.heap && (r.heap[x].Udata? <==> g.heap[x].Udata?)
    ensures forall x | x in r.heap :: (r.heap[x].Str? <==> g.heap[x].Str?) && (r.heap[x].Thread? <==> g.heap[x].Thread?)
  {
    forall x | x in d ensures IsOpen(g.heap, x) {}
    hide Without;
  }

  /** The object at the sweep pointer is unlinked. */
  function Unlink(g: State): State
    requires g.sweepgc < |g.rootgc|
  {
    g.(rootgc := Cut(g.rootgc, g.sweepgc))
  }

  lemma UnlinkGood(g: State, o: Ref)
    requires SweepGood(g, {}) && g.sweepgc < |g.rootgc| && o == g.rootgc[g.sweepgc] && o != g.mainthread
    requires forall u | IsOpen(g.heap, u) && g.heap[u].home.thread == o :: IsNew(g, u)
    ensures SweepGood(Unlink(g), {o}) && multiset(Unlink(g).rootgc)[o] == 0
    ensures multiset(g.tmudata)[o] == 0 && o in g.heap && OnRoot(g.heap[o])
  {
    var r := Unlink(g);
    RemoveAt(g.rootgc, g.sweepgc);
    UnlinkOwned(g, o);
    CutTail(g.heap, g.rootgc, g.mainthread, g.sweepgc) by { AfterIn(g.rootgc, g.mainthread); }
    hide Owned, UdataTail;
    UnlinkSweeping(g, o);
    SameAlive(g, r);
    FixedFrame(g, r);
  }

  lemma UnlinkOwned(g: State, o: Ref)
    requires Owned(g, {}) && g.sweepgc < |g.rootgc| && o == g.rootgc[g.sweepgc]
    ensures Owned(Unlink(g), {o}) && multiset(Unlink(g).rootgc)[o] == 0 && multiset(g.tmudata)[o] == 0
    ensures o in g.heap && OnRoot(g.heap[o])
  {
    var r := Unlink(g);
    RemoveAt(g.rootgc, g.sweepgc);
    assert RootOwned(g, o);
    forall x | x !in {o} ensures RootOwned(r, x) { assert RootOwned(g, x); }
    forall x ensures StrOwned(r, x) { assert StrOwned(g, x); }
    forall x ensures UpvalOwned(r, x) { assert UpvalOwned(g, x); }
    forall x ensures ThreadOwns(r, x) { assert ThreadOwns(g, x); }
  }

  lemma UnlinkSweeping(g: State, o: Ref)
    requires Sweeping(g, {}) && KindColours(g) && g.sweepgc < |g.rootgc| && o == g.rootgc[g.sweepgc]
    requires forall u | IsOpen(g.heap, u) && g.heap[u].home.thread == o :: IsNew(g, u)
    ensures Sweeping(Unlink(g), {o}) && KindColours(Unlink(g))
  {
    var r := Unlink(g);
    assert g.rootgc[g.sweepgc..] == [o] + r.rootgc[r.sweepgc..];
    forall x | x in r.heap && x !in {o} ensures IsNew(r, x) || x in r.tmudata || Unswept(r, x) {
      assert IsNew(g, x) || x in g.tmudata || Unswept(g, x);
    }
  }

  /** The open upvalues of a thread have just been swept. */
  ghost predicate NewUpvals(g: State, t: Ref) {
    forall u | IsOpen(g.heap, u) && g.heap[u].home.thread == t :: IsNew(g, u)
  }

  lemma CloseOneGood(g: State, t: Ref)
    requires SweepGood(g, {t}) && CloseReady(g, t) && g.heap[t].openupval != [] && NewUpvals(g, t)
    requires multiset(g.rootgc)[t] == 0 && t != g.mainthread
    ensures IsOpen(g.heap, g.heap[t].openupval[0]) && CloseReady(CloseOne(g, t), t)
    ensures SweepGood(CloseOne(g, t), {t}) && NewUpvals(CloseOne(g, t), t)
    ensures multiset(CloseOne(g, t).rootgc)[t] == 0
    ensures CloseOne(g, t).tmudata == g.tmudata && CloseOne(g, t).mainthread == g.mainthread
    ensures |CloseOne(g, t).rootgc| - CloseOne(g, t).sweepgc + |CloseOne(g, t).uvhead|
         <= |g.rootgc| - g.sweepgc + |g.uvhead|
  {
    FirstIsOpen(g, t);
    var u := g.heap[t].openupval[0];
    assert IsNew(g, u);
    CloseNewIsDetach(g, t);
    DetachNew(g, t);
    assert UpvalOwned(g, u);
    hide CloseOne, Detach, Owned, AliveShut, UdataTail, FixedOk, KindColours, Sweeping, NewUpvals, CloseReady, Without;
    assert CloseReady(g, t);
    CloseOneReady(g, t);
    CloseOneOwned(g, t, {t});
    CloseOneAlive(g, t);
    WithoutShorter(g.uvhead, u);
    CloseKinds(g, t);
    CloseColours(g, t);
  }

  lemma CloseNewIsDetach(g: State, t: Ref)
    requires t in g.heap && g.heap[t].Thread? && g.heap[t].openupval != [] && IsOpen(g.heap, g.heap[t].openupval[0])
    requires IsNew(g, g.heap[t].openupval[0])
    ensures CloseOne(g, t) == Detach(g, t) && !IsDead(g, g.heap[t].openupval[0])
    ensures Detach(g, t).uvhead == Without(g.uvhead, {g.heap[t].openupval[0]})
  {
    hide Without;
  }

  lemma WithoutShorter(s: seq<Ref>, u: Ref)
    ensures |Without(s, {u})| + multiset(s)[u] == |s|
  {
    if s != [] {
      assert s == [s[0]] + s[1..];
      WithoutShorter(s[1..], u);
    }
  }

  /** The first open upvalue of `t` has been closed and put before `rootgc`. */
  ghost predicate ClosedFirst(g: State, r: State, t: Ref, u: Ref) {
    && t in g.heap && g.heap[t].Thread? && IsOpen(g.heap, u) && g.heap[u].home.thread == t
    && r == g.(heap := r.heap, uvhead := r.uvhead, rootgc := r.rootgc, sweepgc := r.sweepgc)
    && r.heap.Keys == g.heap.Keys && (forall x | x in g.heap && x != t && x != u :: r.heap[x] == g.heap[x])
    && r.heap[t].Thread? && r.heap[u].UpVal? && r.heap[u].home.Closed?
    && r.rootgc == [u] + g.rootgc && r.sweepgc == (if g.sweepgc == 0 then 0 else g.sweepgc + 1)
  }

  lemma DetachNew(g: State, t: Ref)
    requires CloseReady(g, t) && g.heap[t].openupval != [] && IsNew(g, g.heap[t].openupval[0])
    requires IsOpen(g.heap, g.heap[t].openupval[0]) && g.heap[g.heap[t].openupval[0]].home.thread == t
    ensures ClosedFirst(g, Detach(g, t), t, g.heap[t].openupval[0])
  {
    hide Without;
  }

  lemma ClosedKinds(g: State, r: State, t: Ref, u: Ref)
    requires ClosedFirst(g, r, t, u) && KindColours(g) && NewUpvals(g, t)
    ensures KindColours(r) && NewUpvals(r, t)
  {
    assert IsNew(g, u);
  }

  lemma ClosedUnswept(g: State, r: State, t: Ref, u: Ref, x: Ref)
    requires ClosedFirst(g, r, t, u) && IsNew(g, u) && x in r.heap && x != t
    requires t !in g.rootgc && g.sweepgc <= |g.rootgc|
    requires IsNew(g, x) || x in g.tmudata || Unswept(g, x)
    ensures IsNew(r, x) || x in r.tmudata || Unswept(r, x)
  {
    if g.sweepgc == 0 {
      assert r.rootgc[r.sweepgc..] == [u] + g.rootgc[g.sweepgc..];
    } else {
      assert r.rootgc[r.sweepgc..] == g.rootgc[g.sweepgc..];
    }
  }

  lemma CloseColours(g: State, t: Ref)
    requires CloseReady(g, t) && g.heap[t].openupval != [] && NewUpvals(g, t) && KindColours(g) && Sweeping(g, {t})
    requires IsOpen(g.heap, g.heap[t].openupval[0]) && g.heap[g.heap[t].openupval[0]].home.thread == t
    requires t !in g.rootgc
    ensures KindColours(Detach(g, t)) && Sweeping(Detach(g, t), {t}) && NewUpvals(Detach(g, t), t)
  {
    var u := g.heap[t].openupval[0];
    var r := Detach(g, t);
    assert IsNew(g, u);
    DetachNew(g, t);
    hide Detach, KindColours, NewUpvals, Unswept;
    ClosedKinds(g, r, t, u);
    forall x | x in r.heap && x !in {t} ensures IsNew(r, x) || x in r.tmudata || Unswept(r, x) {
      assert IsNew(g, x) || x in g.tmudata || Unswept(g, x);
      ClosedUnswept(g, r, t, u, x);
    }
    ClosedPointer(g, r, t, u);
  }

  lemma ClosedPointer(g: State, r: State, t: Ref, u: Ref)
    requires ClosedFirst(g, r, t, u) && g.sweepgc <= |g.rootgc|
    ensures r.sweepgc <= |r.rootgc|
  {}

  lemma CloseKinds(g: State, t: Ref)
    requires CloseReady(g, t) && g.heap[t].openupval != [] && FixedOk(g) && UdataTail(g.heap, g.rootgc, g.mainthread)
    requires IsOpen(g.heap, g.heap[t].openupval[0])
    requires forall u | u in g.tmudata :: u in g.heap && g.heap[u].Udata?
    ensures FixedOk(Detach(g, t)) && UdataTail(Detach(g, t).heap, Detach(g, t).rootgc, g.mainthread)
    ensures forall u | u in g.tmudata :: u in Detach(g, t).heap && Detach(g, t).heap[u].Udata?
  {
    var u := g.heap[t].openupval[0];
    var r := Detach(g, t);
    DetachDoes(g, t);
    DetachRest(g, t);
    assert u !in g.fixed && r.heap.Keys <= g.heap.Keys;
    hide Detach, UdataTail, ThreadOwns;
    FixedFrame(g, r);
    DetachTailKept(g, r, t, u);
    if !IsDead(g, u) {
      hide Detached;
      LinkTail(r.heap, g.rootgc, g.mainthread, u);
    }
  }

  lemma DetachTailKept(g: State, r: State, t: Ref, u: Ref)
    requires t in g.heap && g.heap[t].Thread? && g.heap[t].openupval != [] && Detached(g, r, t, u)
    requires UdataTail(g.heap, g.rootgc, g.mainthread) && IsOpen(g.heap, u)
    ensures UdataTail(r.heap, g.rootgc, g.mainthread)
  {
    TailFrame(g.heap, r.heap, g.rootgc, g.mainthread);
  }

  lemma DetachRest(g: State, t: Ref)
    requires t in g.heap && g.heap[t].Thread? && g.heap[t].openupval != [] && IsOpen(g.heap, g.heap[t].openupval[0])
    ensures var r := Detach(g, t);
      && r.fixed == g.fixed && r.mainthread == g.mainthread
      && r.rootgc == if IsDead(g, g.heap[t].openupval[0]) then g.rootgc else [g.heap[t].openupval[0]] + g.rootgc
  {
    hide Without;
  }

  /** Nodes still to be swept, and upvalues that may yet join them. */
  function SweepMeasure(g: State): int { |g.rootgc| - g.sweepgc + |g.uvhead| }

  lemma {:induction false} CloseAllGood(g: State, t: Ref)
    requires SweepGood(g, {t}) && CloseReady(g, t) && NewUpvals(g, t)
    requires multiset(g.rootgc)[t] == 0 && t != g.mainthread
    ensures SweepGood(Close(g, t, 0), {t}) && multiset(Close(g, t, 0).rootgc)[t] == 0
    ensures CloseReady(Close(g, t, 0), t) && Close(g, t, 0).heap[t].openupval == []
    ensures Close(g, t, 0).tmudata == g.tmudata && Close(g, t, 0).mainthread == g.mainthread
    ensures SweepMeasure(Close(g, t, 0)) <= SweepMeasure(g)
    decreases |g.heap[t].openupval|
  {
    hide SweepGood, CloseReady, NewUpvals, CloseOne;
    CloseReadyThread(g, t);
    if g.heap[t].openupval != [] {
      CloseOneGood(g, t);
      CloseOneReady(g, t);
      CloseAllGood(CloseOne(g, t), t);
    }
  }

  lemma RemoveGood(g: State, o: Ref)
    requires SweepGood(g, {o}) && multiset(g.rootgc)[o] == 0 && multiset(g.tmudata)[o] == 0
    requires o in g.heap && OnRoot(g.heap[o]) && !Alive(g, o)
    requires g.heap[o].Thread? ==> g.heap[o].openupval == []
    ensures SweepGood(g.(heap := g.heap - {o}, mark := g.mark - {o}), {})
  {
    var r := g.(heap := g.heap - {o}, mark := g.mark - {o});
    RemoveOwned(g, o);
    hide Owned;
    RemoveAlive(g, o);
    TailFrame(g.heap, r.heap, g.rootgc, g.mainthread);
    RemoveKinds(g, o);
    hide AliveShut, UdataTail, FixedOk, Sweeping, KindColours;
    RemoveSweeping(g, o);
  }

  lemma RemoveSweeping(g: State, o: Ref)
    requires Sweeping(g, {o}) && KindColours(g)
    ensures Sweeping(g.(heap := g.heap - {o}, mark := g.mark - {o}), {})
    ensures KindColours(g.(heap := g.heap - {o}, mark := g.mark - {o}))
  {
    var r := g.(heap := g.heap - {o}, mark := g.mark - {o});
    forall x | x in r.heap && x !in {} ensures IsNew(r, x) || x in r.tmudata || Unswept(r, x) {
      assert IsNew(g, x) || x in g.tmudata || Unswept(g, x);
    }
  }

  lemma RemoveKinds(g: State, o: Ref)
    requires FixedOk(g) && AliveShut(g) && !Alive(g, o)
    requires forall u | u in g.tmudata :: u in g.heap && g.heap[u].Udata?
    ensures FixedOk(g.(heap := g.heap - {o}, mark := g.mark - {o}))
    ensures forall u | u in g.tmudata :: u in g.heap - {o} && g.heap[u].Udata?
  {
    assert forall u | u in g.tmudata :: u in Elems(g.tmudata);
    FixedFrame(g, g.(heap := g.heap - {o}, mark := g.mark - {o}));
  }

  lemma RemoveOwned(g: State, o: Ref)
    requires Owned(g, {o}) && multiset(g.rootgc)[o] == 0 && multiset(g.tmudata)[o] == 0
    requires o in g.heap && OnRoot(g.heap[o])
    requires g.heap[o].Thread? ==> g.heap[o].openupval == []
    ensures Owned(g.(heap := g.heap - {o}, mark := g.mark - {o}), {})
  {
    var r := g.(heap := g.heap - {o}, mark := g.mark - {o});
    forall x ensures RootOwned(r, x) { if x != o { assert RootOwned(g, x); } }
    forall x ensures StrOwned(r, x) { assert StrOwned(g, x); }
    forall x ensures UpvalOwned(r, x) { assert UpvalOwned(g, x); }
    forall x ensures ThreadOwns(r, x) { assert ThreadOwns(g, x); }
  }

  lemma RemoveAlive(g: State, o: Ref)
    requires AliveShut(g) && !Alive(g, o)
    ensures AliveShut(g.(heap := g.heap - {o}, mark := g.mark - {o}))
  {
    var r := g.(heap := g.heap - {o}, mark := g.mark - {o});
    RootsTransfer(g, r);
    forall x | x in r.heap && Alive(r, x) ensures Follows(g, r, x) {
      FewerRefs(g.heap, r.heap, g.heap[x]);
    }
    AliveTransfer(g, r);
  }

  /** `sweeplist` on one object of `rootgc`. */
  function SweepOne(g: State): State
    requires SweepGood(g, {}) && g.sweepgc < |g.rootgc|
  {
    var o := g.rootgc[g.sweepgc];
    AtPointer(g);
    var h := if g.heap[o].Thread? then SweepOpen(g, o) else g;
    SweepOpenAt(g);
    if Alive(h, o) then MakeWhite(h, o).(sweepgc := h.sweepgc + 1)
    else FreeObj(Unlink(h), o)
  }

  lemma AtPointer(g: State)
    requires SweepGood(g, {}) && g.sweepgc < |g.rootgc|
    ensures var o := g.rootgc[g.sweepgc];
      o in g.heap && OnRoot(g.heap[o]) && (g.heap[o].Thread? ==> CloseReady(g, o) && o !in g.heap[o].openupval)
  {
    var o := g.rootgc[g.sweepgc];
    assert RootOwned(g, o) && multiset(g.rootgc)[o] > 0;
    assert ThreadOwns(g, o);
  }

  /** The state in which `sweeplist` decides about the object at the sweep pointer. */
  lemma SweepOpenAt(g: State)
    requires SweepGood(g, {}) && g.sweepgc < |g.rootgc|
    ensures g.rootgc[g.sweepgc] in g.heap
    ensures var o := g.rootgc[g.sweepgc];
      (g.heap[o].Thread? ==> o !in g.heap[o].openupval) &&
      var h := if g.heap[o].Thread? then SweepOpen(g, o) else g;
      && SweepGood(h, {}) && h.rootgc == g.rootgc && h.sweepgc == g.sweepgc && o in h.heap
          && h.mainthread == g.mainthread
      && (h.heap[o].Thread? <==> g.heap[o].Thread?)
      && (h.heap[o].Thread? ==> CloseReady(h, o) && CloseReady(Unlink(h), o)) && NewUpvals(h, o)
      && SweepMeasure(h) <= SweepMeasure(g)
  {
    var o := g.rootgc[g.sweepgc];
    AtPointer(g);
    if g.heap[o].Thread? {
      SweepOpenGood(g, o);
      WithoutFewer(g.uvhead, DeadOf(g, g.heap[o].openupval));
    } else {
      forall u | IsOpen(g.heap, u) ensures g.heap[u].home.thread != o { assert UpvalOwned(g, u); }
    }
  }

  lemma WithoutFewer(s: seq<Ref>, d: set<Ref>)
    ensures |Without(s, d)| <= |s|
  {
    if s != [] { WithoutFewer(s[1..], d); }
  }

  lemma SweepOneGood(g: State)
    requires SweepGood(g, {}) && g.sweepgc < |g.rootgc|
    ensures SweepGood(SweepOne(g), {}) && SweepMeasure(SweepOne(g)) < SweepMeasure(g)
  {
    hide SweepGood, CloseReady, NewUpvals, SweepOpen, Close;
    var o := g.rootgc[g.sweepgc];
    AtPointer(g);
    SweepOpenAt(g);
    var h := if g.heap[o].Thread? then SweepOpen(g, o) else g;
    if Alive(h, o) {
      WhitenGood(h, o) by { assert NewUpvals(h, o); NewUpvalsDef(h, o); }
    } else {
      assert o != h.mainthread by { MainAlive(h); }
      NewUpvalsDef(h, o);
      UnlinkGood(h, o);
      var k := Unlink(h);
      assert NewUpvals(k, o) by { NewUpvalsFrame(h, k, o); }
      if k.heap[o].Thread? {
        CloseAllGood(k, o);
        CloseKeepsDead(k, o);
        RemoveGood(Close(k, o, 0), o) by { CloseReadyThread(Close(k, o, 0), o); }
      } else {
        RemoveGood(k, o);
      }
    }
  }

  lemma CloseReadyThread(g: State, t: Ref)
    requires CloseReady(g, t)
    ensures t in g.heap && g.heap[t].Thread?
  {}

  lemma NewUpvalsDef(g: State, t: Ref)
    requires NewUpvals(g, t)
    ensures forall u | IsOpen(g.heap, u) && g.heap[u].home.thread == t :: IsNew(g, u)
  {}

  lemma NewUpvalsFrame(g: State, r: State, t: Ref)
    requires NewUpvals(g, t) && r.heap == g.heap && r.mark == g.mark && r.currentwhite == g.currentwhite
    ensures NewUpvals(r, t)
  {}

  lemma MainAlive(g: State)
    requires SweepGood(g, {})
    ensures Alive(g, g.mainthread)
  {}

  lemma {:induction false} CloseKeepsDead(g: State, t: Ref)
    requires SweepGood(g, {t}) && CloseReady(g, t) && NewUpvals(g, t)
    requires multiset(g.rootgc)[t] == 0 && t != g.mainthread && !Alive(g, t)
    ensures !Alive(Close(g, t, 0), t)
    decreases |g.heap[t].openupval|
  {
    hide SweepGood, NewUpvals, CloseOne, CloseReady;
    CloseReadyThread(g, t);
    if g.heap[t].openupval != [] {
      CloseOneGood(g, t);
      CloseOneReady(g, t);
      CloseOneDead(g, t);
      CloseKeepsDead(CloseOne(g, t), t);
    }
  }

  lemma CloseOneDead(g: State, t: Ref)
    requires CloseReady(g, t) && g.heap[t].openupval != [] && NewUpvals(g, t) && !Alive(g, t)
    ensures IsOpen(g.heap, g.heap[t].openupval[0]) && !Alive(CloseOne(g, t), t)
  {
    FirstIsOpen(g, t);
    CloseNewIsDetach(g, t);
    DetachNew(g, t);
    hide CloseOne, Detach;
  }

  /** `sweeplist` on at most `count` objects of `rootgc`. */
  function SweepList(g: State, count: nat): State
    requires SweepGood(g, {})
    decreases count
  {
    if g.sweepgc >= |g.rootgc| || count == 0 then g else
      SweepOneGood(g);
      SweepList(SweepOne(g), count - 1)
  }

  lemma {:induction false} SweepListGood(g: State, count: nat)
    requires SweepGood(g, {})
    ensures SweepGood(SweepList(g, count), {}) && SweepMeasure(SweepList(g, count)) <= SweepMeasure(g)
    ensures g.sweepgc < |g.rootgc| && count > 0 ==> SweepMeasure(SweepList(g, count)) < SweepMeasure(g)
    decreases count
  {
    hide SweepGood, SweepOne, SweepMeasure;
    if g.sweepgc < |g.rootgc| && count > 0 {
      SweepOneGood(g);
      SweepListGood(SweepOne(g), count - 1);
    }
  }

  // ---------- the invariant ----------

  /** Colours between two collections: everything is new, except that userdata waiting for
      their finalizers may have kept their marks. */
  ghost predicate Resting(g: State) {
    forall r | r in g.heap :: IsNew(g, r) || r in g.tmudata
  }

  ghost predicate Colours(g: State) {
    match g.phase
    case Pause => Resting(g)
    case Finalize => Resting(g)
    case Propagate => Propagating(g)
    case SweepString => Sweeping(g, {}) && g.sweepgc == 0 && g.sweepstrgc < |g.strt|
    case Sweep => Sweeping(g, {})
  }

  /** The invariant of the collector and the mutator. */
  ghost predicate Inv(g: State) {
    && WellFormed(g) && AliveShut(g) && KindColours(g) && Colours(g)
  }

  lemma TailIsLast(g: State)
    ensures UdataLast(g) <==> UdataTail(g.heap, g.rootgc, g.mainthread)
                              && forall u | u in g.tmudata :: u in g.heap && g.heap[u].Udata?
  {}

  lemma GoodIsInv(g: State)
    ensures g.phase == Sweep && |g.strt| > 0 ==> (Inv(g) <==> SweepGood(g, {}))
  {
    TailIsLast(g);
  }

  // ---------- `singlestep` ----------

  const GCSWEEPMAX: nat := 40

  /** `markroot` */
  function MarkRoot(g: State): State {
    var g1 := MarkObject(g.(gray := [], grayagain := [], weak := []), g.mainthread);
    var gt := if g.mainthread in g.heap && g.heap[g.mainthread].Thread? then g.heap[g.mainthread].gt else Nil;
    var g2 := MarkValue(MarkValue(g1, gt), g.registry);
    MarkMt(g2, g.mt).(phase := Propagate)
  }

  function StepSweepString(g: State): State
    requires g.sweepstrgc < |g.strt|
  {
    var h := SweepBucket(g, g.sweepstrgc);
    h.(sweepstrgc := g.sweepstrgc + 1, phase := if g.sweepstrgc + 1 >= |g.strt| then Sweep else SweepString)
  }

  function StepSweep(g: State): State
    requires SweepGood(g, {})
  {
    var h := SweepList(g, GCSWEEPMAX);
    if h.sweepgc >= |h.rootgc| then h.(phase := Finalize) else h
  }

  /** A userdata is linked behind the main thread. */
  function LinkUdata(g: State, u: Ref): State {
    var i := After(g.rootgc, g.mainthread);
    if i > |g.rootgc| then g else
      g.(rootgc := g.rootgc[..i] + [u] + g.rootgc[i..],
         sweepgc := if g.sweepgc > i then g.sweepgc + 1 else g.sweepgc)
  }

  /** A value is pushed on the stack of the running thread. */
  function Push(g: State, v: Value): State {
    if g.running in g.heap && g.heap[g.running].Thread?
    then g.(heap := g.heap[g.running := g.heap[g.running].(stack := g.heap[g.running].stack + [v])]) else g
  }

  /** `GCTM`: the first userdata of `tmudata` returns to `rootgc`, white, and is handed to its
      finalizer on the stack. */
  function StepFinalize(g: State): State {
    if g.tmudata == [] then g.(phase := Pause) else
      var u := g.tmudata[0];
      var h := MakeWhite(LinkUdata(g.(tmudata := g.tmudata[1..]), u), u);
      if u in h.heap && HasGc(h.heap, h.heap[u]) then Push(h, Coll(u)) else h
  }

  /** `singlestep` */
  function SingleStep(g: State): State
    requires Inv(g)
  {
    match g.phase
    case Pause => MarkRoot(g)
    case Propagate => StepPropagate(g)
    case SweepString => StepSweepString(g)
    case Sweep => GoodIsInv(g); StepSweep(g)
    case Finalize => StepFinalize(g)
  }

  function StepPropagate(g: State): State
    requires Propagating(g)
  {
    if g.gray != [] then PropagateTri(g, Pending(g)); PropagateMark(g) else Atomic(g)
  }
}
