/** How the parser finds the variable that a name means (`lparser.c`), in functions nested to any depth. */
module ParseScope {

  datatype Kind = Local | Upval

  /** Where a function gets an upvalue from: a local variable of the function around it, or one of its
      upvalues. */
  datatype Desc = Desc(k: Kind, info: nat)

  /** A block, with the number of variables outside it; `upval` if one of its variables is an upvalue. */
  datatype Block = Block(nactvar: nat, upval: bool)

  /** A function that is being compiled; the innermost block is the last one. */
  datatype Func = Func(actvar: seq<string>, upvalues: seq<Desc>, names: seq<string>, blocks: seq<Block>)

  datatype Option<T> = None | Some(value: T)

  /** A variable: a function, outermost first, and a slot. */
  datatype Var = Var(level: nat, slot: nat)

  /** What `singlevaraux` finds. */
  datatype Found = Global | AtLocal(slot: nat) | AtUpval(idx: nat)

  // ---------- what a name means ----------

  /** The last declaration of the name in one function. */
  function LastDecl(actvar: seq<string>, n: string): (r: Option<nat>)
    ensures r.Some? ==>
      && r.value < |actvar| && actvar[r.value] == n
      && forall i | r.value < i < |actvar| :: actvar[i] != n
    ensures r.None? ==> n !in actvar
  {
    if actvar == [] then None
    else if actvar[|actvar| - 1] == n then Some(|actvar| - 1)
    else LastDecl(actvar[..|actvar| - 1], n)
  }

  /** The innermost visible declaration, from the functions up to `level`. */
  function Visible(fs: seq<Func>, level: int, n: string): Option<Var>
    requires level < |fs|
    decreases level
  {
    if level < 0 then None else
      match LastDecl(fs[level].actvar, n)
      case Some(slot) => Some(Var(level, slot))
      case None => Visible(fs, level - 1, n)
  }

  /** The variable at the end of the descriptors. */
  function Resolve(fs: seq<Func>, level: nat, i: nat): Option<Var>
    decreases level
  {
    if level >= |fs| || i >= |fs[level].upvalues| || level == 0 then None else
      var d := fs[level].upvalues[i];
      if d.k == Local then Some(Var(level - 1, d.info)) else Resolve(fs, level - 1, d.info)
  }

  /** All descriptors lead to active variables of functions further out, with the recorded name, and
      none occurs twice. */
  ghost predicate Level(fs: seq<Func>, level: nat)
    requires level < |fs|
  {
    && |fs[level].names| == |fs[level].upvalues|
    && (forall i, j | 0 <= i < j < |fs[level].upvalues| :: fs[level].upvalues[i] != fs[level].upvalues[j])
    && (forall i | 0 <= i < |fs[level].upvalues| :: Leads(fs, level, i))
  }

  ghost predicate Leads(fs: seq<Func>, level: nat, i: nat)
    requires level < |fs| && i < |fs[level].upvalues| && |fs[level].names| == |fs[level].upvalues|
  {
    var v := Resolve(fs, level, i);
    && v.Some? && v.value.level < level && v.value.slot < |fs[v.value.level].actvar|
    && fs[v.value.level].actvar[v.value.slot] == fs[level].names[i]
  }

  ghost predicate Scoped(fs: seq<Func>) { forall l | 0 <= l < |fs| :: Level(fs, l) }

  // ---------- adding an upvalue ----------

  /** Functions with more upvalues: the others are as they were. */
  ghost predicate Grown(f: Func, g: Func) {
    && g.actvar == f.actvar && |g.upvalues| >= |f.upvalues| && g.upvalues[..|f.upvalues|] == f.upvalues
    && |g.names| >= |f.names| && g.names[..|f.names|] == f.names
    && |g.blocks| == |f.blocks|
    && forall b | 0 <= b < |f.blocks| ::
         g.blocks[b].nactvar == f.blocks[b].nactvar && (f.blocks[b].upval ==> g.blocks[b].upval)
  }

  ghost predicate AllGrown(fs: seq<Func>, gs: seq<Func>, level: int) {
    && |gs| == |fs| && (forall l | 0 <= l < |fs| :: Grown(fs[l], gs[l]))
    && forall l | 0 <= l < |fs| && level < l :: gs[l] == fs[l]
  }

  lemma GrownTrans(f: Func, g: Func, h: Func)
    requires Grown(f, g) && Grown(g, h)
    ensures Grown(f, h)
  {
    assert h.upvalues[..|f.upvalues|] == g.upvalues[..|f.upvalues|];
    assert h.names[..|f.names|] == g.names[..|f.names|];
  }

  lemma AllGrownTrans(fs: seq<Func>, gs: seq<Func>, hs: seq<Func>, level: int)
    requires AllGrown(fs, gs, level) && AllGrown(gs, hs, level)
    ensures AllGrown(fs, hs, level)
  {
    forall l | 0 <= l < |fs| ensures Grown(fs[l], hs[l]) { GrownTrans(fs[l], gs[l], hs[l]); }
  }

  lemma {:induction false} ResolveGrown(fs: seq<Func>, gs: seq<Func>, at: int, level: nat, i: nat)
    requires AllGrown(fs, gs, at) && level < |fs| && i < |fs[level].upvalues|
    ensures Resolve(fs, level, i).Some? ==> Resolve(gs, level, i) == Resolve(fs, level, i)
    decreases level
  {
    assert Grown(fs[level], gs[level]);
    assert gs[level].upvalues[..|fs[level].upvalues|][i] == fs[level].upvalues[i];
    var d := fs[level].upvalues[i];
    if level > 0 && d.k == Upval && d.info < |fs[level - 1].upvalues| { ResolveGrown(fs, gs, at, level - 1, d.info); }
  }

  lemma {:induction false} VisibleGrown(fs: seq<Func>, gs: seq<Func>, at: int, level: int, n: string)
    requires AllGrown(fs, gs, at) && level < |fs|
    ensures Visible(gs, level, n) == Visible(fs, level, n)
    decreases level
  {
    if level >= 0 {
      assert Grown(fs[level], gs[level]);
      VisibleGrown(fs, gs, at, level - 1, n);
    }
  }

  /** The visible declaration is a declaration, and none further in has the name. */
  lemma {:induction false} VisibleIs(fs: seq<Func>, level: int, n: string)
    requires level < |fs|
    ensures match Visible(fs, level, n)
      case Some(v) => v.level <= level && v.slot < |fs[v.level].actvar| && fs[v.level].actvar[v.slot] == n
        && (forall i | v.slot < i < |fs[v.level].actvar| :: fs[v.level].actvar[i] != n)
        && (forall l | v.level < l <= level :: n !in fs[l].actvar)
      case None => forall l | 0 <= l <= level :: n !in fs[l].actvar
    decreases level
  {
    if level >= 0 && LastDecl(fs[level].actvar, n).None? { VisibleIs(fs, level - 1, n); }
  }

  // ---------- blocks ----------

  /** The innermost block that was entered when the slot was not in use yet. */
  function BlockOf(blocks: seq<Block>, slot: nat): (r: Option<nat>)
    ensures r.Some? ==>
      && r.value < |blocks| && blocks[r.value].nactvar <= slot
      && forall b | r.value < b < |blocks| :: blocks[b].nactvar > slot
    ensures r.None? ==> forall b | 0 <= b < |blocks| :: blocks[b].nactvar > slot
  {
    if blocks == [] then None
    else if blocks[|blocks| - 1].nactvar <= slot then Some(|blocks| - 1)
    else BlockOf(blocks[..|blocks| - 1], slot)
  }

  /** One of the block's own variables is in the set. */
  ghost predicate Holds(blocks: seq<Block>, b: nat, captured: set<nat>) {
    exists s :: s in captured && BlockOf(blocks, s) == Some(b)
  }

  /** Exactly the blocks are marked that have a captured variable. */
  ghost predicate BlocksOk(f: Func, captured: set<nat>) {
    && (forall b, c | 0 <= b < c < |f.blocks| :: f.blocks[b].nactvar <= f.blocks[c].nactvar)
    && (forall b | 0 <= b < |f.blocks| :: f.blocks[b].nactvar <= |f.actvar|)
    && (forall s | s in captured :: s < |f.actvar|)
    && (forall b | 0 <= b < |f.blocks| :: f.blocks[b].upval <==> Holds(f.blocks, b, captured))
  }

  /** The same blocks, but for their marks. */
  ghost predicate SameBlocks(a: seq<Block>, b: seq<Block>) {
    |a| == |b| && forall i | 0 <= i < |a| :: b[i].nactvar == a[i].nactvar
  }

  lemma {:induction false} BlockOfSame(a: seq<Block>, b: seq<Block>, s: nat)
    requires SameBlocks(a, b)
    ensures BlockOf(a, s) == BlockOf(b, s)
    decreases |a|
  {
    if a != [] && a[|a| - 1].nactvar > s { BlockOfSame(a[..|a| - 1], b[..|b| - 1], s); }
  }

  function Marked(f: Func, slot: nat): Func {
    match BlockOf(f.blocks, slot)
    case None => f
    case Some(b) => f.(blocks := f.blocks[b := f.blocks[b].(upval := true)])
  }

  lemma MarkedOk(f: Func, captured: set<nat>, slot: nat)
    requires BlocksOk(f, captured) && slot < |f.actvar|
    ensures BlocksOk(Marked(f, slot), captured + {slot}) && Grown(f, Marked(f, slot))
    ensures Marked(f, slot).actvar == f.actvar && Marked(f, slot).upvalues == f.upvalues
        && Marked(f, slot).names == f.names
  {
    var g := Marked(f, slot);
    MarkedIs(f, slot);
    hide Marked, BlockOf;
    forall b | 0 <= b < |g.blocks| ensures g.blocks[b].upval <==> Holds(g.blocks, b, captured + {slot}) {
      HoldsMore(f.blocks, g.blocks, b, captured, slot);
    }
  }

  lemma MarkedIs(f: Func, slot: nat)
    ensures var g := Marked(f, slot);
      && g.actvar == f.actvar && g.upvalues == f.upvalues && g.names == f.names && SameBlocks(f.blocks, g.blocks)
      && forall b | 0 <= b < |f.blocks| :: g.blocks[b].upval == (f.blocks[b].upval
          || BlockOf(f.blocks, slot) == Some(b))
  {}

  lemma HoldsMore(blocks: seq<Block>, other: seq<Block>, b: nat, captured: set<nat>, slot: nat)
    requires SameBlocks(blocks, other)
    ensures Holds(other, b, captured + {slot}) <==> Holds(blocks, b, captured) || BlockOf(blocks, slot) == Some(b)
  {
    if Holds(other, b, captured + {slot}) {
      var s :| s in captured + {slot} && BlockOf(other, s) == Some(b);
      BlockOfSame(blocks, other, s);
    }
    if Holds(blocks, b, captured) {
      var s :| s in captured && BlockOf(blocks, s) == Some(b);
      BlockOfSame(blocks, other, s);
      assert s in captured + {slot};
    }
    BlockOfSame(blocks, other, slot);
    assert slot in captured + {slot};
  }

  // ---------- the parser's functions ----------

  function DescOf(r: Found): Desc {
    if r.AtLocal? then Desc(Local, r.slot) else if r.AtUpval? then Desc(Upval, r.idx) else Desc(Local, 0)
  }

  /** A descriptor in the function at `level` leads to the variable. */
  ghost predicate Points(fs: seq<Func>, level: nat, d: Desc, v: Var)
    requires 0 < level < |fs|
  {
    if d.k == Local then v == Var(level - 1, d.info) else Resolve(fs, level - 1, d.info) == Some(v)
  }

  /** A new upvalue of the function at `level`. */
  function WithUpvalue(fs: seq<Func>, level: nat, n: string, d: Desc): seq<Func>
    requires level < |fs|
  {
    fs[level := fs[level].(upvalues := fs[level].upvalues + [d], names := fs[level].names + [n])]
  }

  lemma AddedGrown(fs: seq<Func>, level: nat, n: string, d: Desc)
    requires level < |fs|
    ensures AllGrown(fs, WithUpvalue(fs, level, n, d), level)
  {}

  lemma AddedResolves(fs: seq<Func>, level: nat, n: string, d: Desc, v: Var)
    requires 0 < level < |fs| && Points(fs, level, d, v)
    ensures Resolve(WithUpvalue(fs, level, n, d), level, |fs[level].upvalues|) == Some(v)
  {
    AddedGrown(fs, level, n, d);
    if d.k == Upval {
      assert d.info < |fs[level - 1].upvalues|;
      ResolveGrown(fs, WithUpvalue(fs, level, n, d), level, level - 1, d.info);
    }
  }

  lemma UpvalueAdded(fs: seq<Func>, level: nat, n: string, d: Desc, v: Var)
    requires Scoped(fs) && 0 < level < |fs| && Points(fs, level, d, v) && d !in fs[level].upvalues
    requires v.level < level && v.slot < |fs[v.level].actvar| && fs[v.level].actvar[v.slot] == n
    ensures var gs := WithUpvalue(fs, level, n, d);
      Scoped(gs) && AllGrown(fs, gs, level) && Resolve(gs, level, |fs[level].upvalues|) == Some(v)
  {
    hide Resolve, AllGrown, Points;
    var gs := WithUpvalue(fs, level, n, d);
    AddedGrown(fs, level, n, d);
    AddedResolves(fs, level, n, d, v);
    forall l | 0 <= l < |gs| ensures Level(gs, l) {
      assert Level(fs, l);
      forall i | 0 <= i < |gs[l].upvalues| ensures Leads(gs, l, i) {
        if i < |fs[l].upvalues| { LeadsGrown(fs, gs, level, l, i); }
      }
    }
  }

  lemma LeadsGrown(fs: seq<Func>, gs: seq<Func>, at: int, l: nat, i: nat)
    requires AllGrown(fs, gs, at) && l < |fs| && Level(fs, l) && i < |fs[l].upvalues|
        && |gs[l].names| == |gs[l].upvalues|
    ensures i < |gs[l].upvalues| && Leads(gs, l, i)
  {
    hide Resolve;
    assert Leads(fs, l, i);
    assert Grown(fs[l], gs[l]) && gs[l].names[..|fs[l].names|][i] == fs[l].names[i];
    ResolveGrown(fs, gs, at, l, i);
    var v := Resolve(fs, l, i).value;
    assert Grown(fs[v.level], gs[v.level]);
  }

  /** Marks do not matter for scoping. */
  lemma MarkScoped(fs: seq<Func>, level: nat, slot: nat)
    requires Scoped(fs) && level < |fs|
    requires Marked(fs[level], slot).actvar == fs[level].actvar
        && Marked(fs[level], slot).upvalues == fs[level].upvalues && Marked(fs[level], slot).names == fs[level].names
    requires Grown(fs[level], Marked(fs[level], slot))
    ensures var gs := fs[level := Marked(fs[level], slot)]; Scoped(gs) && AllGrown(fs, gs, level)
  {
    var gs := fs[level := Marked(fs[level], slot)];
    hide Marked, BlocksOk, Resolve;
    assert AllGrown(fs, gs, level);
    forall l | 0 <= l < |gs| ensures Level(gs, l) {
      assert Level(fs, l);
      forall i | 0 <= i < |gs[l].upvalues| ensures Leads(gs, l, i) { LeadsGrown(fs, gs, level, l, i); }
    }
  }

  class Parser {
    var fs: seq<Func>
    /** For each function, the slots that are upvalues of functions inside it. */
    ghost var captured: seq<set<nat>>

    ghost predicate Valid()
      reads this
    {
      |captured| == |fs| && Scoped(fs) && forall l | 0 <= l < |fs| :: BlocksOk(fs[l], captured[l])
    }

    constructor ()
      ensures Valid() && fs == []
    {
      fs, captured := [], [];
    }

    /** `searchvar` */
    method SearchVar(level: nat, n: string) returns (r: int)
      requires level < |fs|
      ensures match LastDecl(fs[level].actvar, n) case Some(slot) => r == slot case None => r == -1
    {
      var actvar := fs[level].actvar;
      r := |actvar| - 1;
      while r >= 0
        invariant -1 <= r < |actvar| && LastDecl(actvar[..r + 1], n) == LastDecl(actvar, n)
      {
        if actvar[r] == n { return; }
        assert actvar[..r + 1][..r] == actvar[..r];
        r := r - 1;
      }
    }

    /** `markupval` */
    method MarkUpval(level: nat, slot: nat)
      requires Valid() && level < |fs| && slot < |fs[level].actvar|
      modifies this
      ensures Valid() && AllGrown(old(fs), fs, level) && fs == old(fs)[level := Marked(old(fs)[level], slot)]
      ensures captured == old(captured)[level := old(captured)[level] + {slot}]
    {
      MarkedOk(fs[level], captured[level], slot);
      MarkScoped(fs, level, slot);
      hide BlocksOk, Scoped, AllGrown, Grown, BlockOf;
      var b := FindBlock(level, slot);
      if b >= 0 { fs := fs[level := fs[level].(blocks := fs[level].blocks[b := fs[level].blocks[b].(upval := true)])]; }
      captured := captured[level := captured[level] + {slot}];
    }

    /** The walk of `markupval` over the blocks, from the innermost one. */
    method FindBlock(level: nat, slot: nat) returns (b: int)
      requires level < |fs|
      ensures match BlockOf(fs[level].blocks, slot) case Some(x) => b == x case None => b == -1
    {
      var blocks := fs[level].blocks;
      b := |blocks| - 1;
      while b >= 0 && blocks[b].nactvar > slot
        invariant -1 <= b < |blocks| && BlockOf(blocks[..b + 1], slot) == BlockOf(blocks, slot)
      {
        assert blocks[..b + 1][..b] == blocks[..b];
        b := b - 1;
      }
    }

    /** `indexupvalue` */
    method IndexUpvalue(level: nat, n: string, d: Desc, ghost v: Var) returns (idx: nat)
      requires Valid() && 0 < level < |fs| && Points(fs, level, d, v)
      requires v.level < level && v.slot < |fs[v.level].actvar| && fs[v.level].actvar[v.slot] == n
      modifies `fs
      ensures Valid() && AllGrown(old(fs), fs, level) && idx < |fs[level].upvalues|
          && Resolve(fs, level, idx) == Some(v)
      ensures fs == if d in old(fs)[level].upvalues then old(fs) else WithUpvalue(old(fs), level, n, d)
    {
      hide BlocksOk;
      var i := 0;
      while i < |fs[level].upvalues|
        invariant i <= |fs[level].upvalues| && d !in fs[level].upvalues[..i] && fs == old(fs)
      {
        if fs[level].upvalues[i] == d { return i; }
        i := i + 1;
      }
      UpvalueAdded(fs, level, n, d, v);
      ghost var was := fs;
      fs := WithUpvalue(fs, level, n, d);
      idx := i;
      forall l | 0 <= l < |fs| ensures BlocksOk(fs[l], captured[l]) { BlocksKept(was[l], fs[l], captured[l]); }
    }

    /** `singlevaraux`: the innermost visible declaration, and for one further out an upvalue that leads
        to it, whose slot is marked there. */
    method SingleVarAux(level: int, n: string, base: bool) returns (r: Found)
      requires Valid() && -1 <= level < |fs|
      modifies this
      ensures Valid() && AllGrown(old(fs), fs, level)
      ensures match Visible(old(fs), level, n)
        case None => r == Global && fs == old(fs) && captured == old(captured)
        case Some(v) =>
          && v.level <= level && |old(captured)| == |old(fs)|
          && captured == (if base && v.level == level then old(captured)
              else old(captured)[v.level := old(captured)[v.level] + {v.slot}])
          && if v.level == level then r == AtLocal(v.slot)
             else r.AtUpval? && r.idx < |fs[level].upvalues| && Resolve(fs, level, r.idx) == Some(v)
      decreases level + 1
    {
      hide BlocksOk, Scoped, Marked, WithUpvalue, Resolve;
      if level == -1 { return Global; }
      var v := SearchVar(level, n);
      if v >= 0 {
        if !base { MarkUpval(level, v); }
        return AtLocal(v);
      }
      ghost var fs0 := fs;
      VisibleIs(fs, level, n);
      r := SingleVarAux(level - 1, n, false);
      ghost var fs1 := fs;
      AllGrownMore(fs0, fs1, level - 1, level);
      if r == Global { return; }
      ghost var target := Visible(fs0, level, n).value;
      assert Grown(fs0[target.level], fs1[target.level]);
      var idx := IndexUpvalue(level, n, DescOf(r), target);
      AllGrownTrans(fs0, fs1, fs, level);
      return AtUpval(idx);
    }

    /** `singlevar`: a name in the innermost function */
    method SingleVar(n: string) returns (r: Found)
      requires Valid() && fs != []
      modifies this
      ensures Valid() && AllGrown(old(fs), fs, |old(fs)| - 1)
      ensures r == Global <==> forall l | 0 <= l < |old(fs)| :: n !in old(fs)[l].actvar
      ensures match Visible(old(fs), |old(fs)| - 1, n)
        case None => r == Global
        case Some(v) => if v.level == |fs| - 1 then r == AtLocal(v.slot)
          else r.AtUpval? && r.idx < |fs[|fs| - 1].upvalues| && Resolve(fs, |fs| - 1, r.idx) == Some(v)
    {
      hide Scoped, AllGrown, BlocksOk, Resolve;
      VisibleIs(fs, |fs| - 1, n);
      r := SingleVarAux(|fs| - 1, n, true);
    }

    /** `new_localvar` and `adjustlocalvars`: one more active variable */
    method Declare(n: string)
      requires Valid() && fs != []
      modifies this
      ensures Valid() && var t := |old(fs)| - 1;
        fs == old(fs)[t := old(fs)[t].(actvar := old(fs)[t].actvar + [n])] && captured == old(captured)
    {
      var t := |fs| - 1;
      TopChanged(fs, fs[t].(actvar := fs[t].actvar + [n]));
      fs := fs[t := fs[t].(actvar := fs[t].actvar + [n])];
    }

    /** `enterblock` */
    method EnterBlock()
      requires Valid() && fs != []
      modifies this
      ensures Valid() && var t := |old(fs)| - 1; var f := old(fs)[t];
        fs == old(fs)[t := f.(blocks := f.blocks + [Block(|f.actvar|, false)])] && captured == old(captured)
    {
      var t := |fs| - 1;
      var f := fs[t].(blocks := fs[t].blocks + [Block(|fs[t].actvar|, false)]);
      BlockEntered(fs[t], captured[t]);
      TopChanged(fs, f);
      fs := fs[t := f];
    }

    /** `leaveblock`: the block's variables go out of scope; the upvalues that refer to them are closed,
        if there are any. */
    method LeaveBlock() returns (close: bool)
      requires Valid() && fs != [] && fs[|fs| - 1].blocks != []
      modifies this
      ensures Valid() && |fs| == |old(fs)| && var t := |fs| - 1; var f := old(fs)[t]; var b := f.blocks[|f.blocks| - 1];
        && fs == old(fs)[t := f.(actvar := f.actvar[..b.nactvar], blocks := f.blocks[..|f.blocks| - 1])]
        && (close <==> exists s :: s in old(captured)[t] && s >= b.nactvar)
    {
      var t := |fs| - 1;
      var bl := fs[t].blocks[|fs[t].blocks| - 1];
      var f := fs[t].(actvar := fs[t].actvar[..bl.nactvar], blocks := fs[t].blocks[..|fs[t].blocks| - 1]);
      BlockLeft(fs[t], captured[t]);
      TopChanged(fs, f);
      fs := fs[t := f];
      captured := captured[t := Below(captured[t], bl.nactvar)];
      close := bl.upval;
    }

    /** `open_func` */
    method OpenFunc()
      requires Valid()
      modifies this
      ensures Valid() && fs == old(fs) + [Func([], [], [], [])]
    {
      ghost var was := fs;
      fs := fs + [Func([], [], [], [])];
      captured := captured + [{}];
      forall l | 0 <= l < |fs| ensures Level(fs, l) {
        if l < |was| {
          assert Level(was, l);
          forall i | 0 <= i < |fs[l].upvalues| ensures Leads(fs, l, i) {
            assert Leads(was, l, i);
            ResolveBelow(was, fs, l, i);
          }
        }
      }
    }

    /** `close_func` */
    method CloseFunc()
      requires Valid() && fs != []
      modifies this
      ensures Valid() && fs == old(fs)[..|old(fs)| - 1]
    {
      ghost var was := fs;
      fs := fs[..|fs| - 1];
      captured := captured[..|captured| - 1];
      forall l | 0 <= l < |fs| ensures Level(fs, l) {
        assert Level(was, l);
        forall i | 0 <= i < |fs[l].upvalues| ensures Leads(fs, l, i) {
          assert Leads(was, l, i);
          ResolveBelow(was, fs, l, i);
        }
      }
    }
  }

  ghost function Below(captured: set<nat>, n: nat): set<nat> { set s | s in captured && s < n }

  /** Descriptors look outward only. */
  lemma {:induction false} ResolveBelow(fs: seq<Func>, gs: seq<Func>, level: nat, i: nat)
    requires level < |fs| && level < |gs| && (forall l | 0 <= l <= level :: gs[l].upvalues == fs[l].upvalues)
    ensures Resolve(gs, level, i) == Resolve(fs, level, i)
    ensures Resolve(fs, level, i).Some? ==> Resolve(fs, level, i).value.level < level
    decreases level
  {
    if level > 0 && i < |fs[level].upvalues|
        && fs[level].upvalues[i].k == Upval { ResolveBelow(fs, gs, level - 1, fs[level].upvalues[i].info); }
  }

  /** The variables and blocks of the innermost function do not matter for the descriptors. */
  lemma TopChanged(fs: seq<Func>, f: Func)
    requires Scoped(fs) && fs != [] && f.upvalues == fs[|fs| - 1].upvalues && f.names == fs[|fs| - 1].names
    ensures Scoped(fs[|fs| - 1 := f])
  {
    var gs := fs[|fs| - 1 := f];
    hide Resolve;
    forall l | 0 <= l < |gs| ensures Level(gs, l) {
      assert Level(fs, l);
      forall i | 0 <= i < |gs[l].upvalues| ensures Leads(gs, l, i) {
        assert Leads(fs, l, i);
        ResolveBelow(fs, gs, l, i);
      }
    }
  }

  lemma BlockOfLast(blocks: seq<Block>, b: Block, s: nat)
    ensures BlockOf(blocks + [b], s) == if b.nactvar <= s then Some(|blocks|) else BlockOf(blocks, s)
  {
    assert (blocks + [b])[..|blocks|] == blocks;
  }

  lemma BlockEntered(f: Func, captured: set<nat>)
    requires BlocksOk(f, captured)
    ensures BlocksOk(f.(blocks := f.blocks + [Block(|f.actvar|, false)]), captured)
  {
    var b := Block(|f.actvar|, false);
    var g := f.(blocks := f.blocks + [b]);
    forall s
      ensures BlockOf(g.blocks, s) == if b.nactvar <= s then Some(|f.blocks|) else BlockOf(f.blocks, s)
    {
      BlockOfLast(f.blocks, b, s);
    }
    hide BlockOf;
    forall i | 0 <= i < |g.blocks| ensures g.blocks[i].upval <==> Holds(g.blocks, i, captured) {
      if i < |f.blocks| {
        assert g.blocks[i] == f.blocks[i];
        if Holds(f.blocks, i, captured) {
          var s :| s in captured && BlockOf(f.blocks, s) == Some(i);
          assert BlockOf(g.blocks, s) == Some(i);
        }
      }
    }
  }

  lemma BlockLeft(f: Func, captured: set<nat>)
    requires BlocksOk(f, captured) && f.blocks != []
    ensures var b := f.blocks[|f.blocks| - 1];
      && BlocksOk(f.(actvar := f.actvar[..b.nactvar], blocks := f.blocks[..|f.blocks| - 1]), Below(captured, b.nactvar))
      && (b.upval <==> exists s :: s in captured && s >= b.nactvar)
  {
    var n := |f.blocks| - 1;
    var b, rest := f.blocks[n], f.blocks[..n];
    assert f.blocks == rest + [b];
    forall s
      ensures BlockOf(f.blocks, s) == if b.nactvar <= s then Some(n) else BlockOf(rest, s)
    {
      BlockOfLast(rest, b, s);
    }
    LastHolds(f.blocks, n, b, captured);
    var small := Below(captured, b.nactvar);
    forall i | 0 <= i < n ensures rest[i].upval <==> Holds(rest, i, small) {
      assert rest[i] == f.blocks[i];
      OthersHold(f.blocks, rest, n, i, b, captured);
    }
    hide BlockOf, Holds;
  }

  lemma LastHolds(blocks: seq<Block>, n: nat, b: Block, captured: set<nat>)
    requires n < |blocks|
    requires forall s :: BlockOf(blocks, s) == (if b.nactvar <= s then Some(n) else BlockOf(blocks[..n], s))
    ensures Holds(blocks, n, captured) <==> exists s :: s in captured && s >= b.nactvar
  {
    if s :| s in captured && s >= b.nactvar { assert BlockOf(blocks, s) == Some(n); }
    hide BlockOf;
    if Holds(blocks, n, captured) {
      var s :| s in captured && BlockOf(blocks, s) == Some(n);
      NotBelow(blocks[..n], s, n);
    }
  }

  lemma NotBelow(blocks: seq<Block>, s: nat, n: nat)
    requires |blocks| == n
    ensures BlockOf(blocks, s) != Some(n)
  {}

  lemma OthersHold(blocks: seq<Block>, rest: seq<Block>, n: nat, i: nat, b: Block, captured: set<nat>)
    requires forall s :: BlockOf(blocks, s) == if b.nactvar <= s then Some(n) else BlockOf(rest, s)
    requires i < n
    ensures Holds(blocks, i, captured) <==> Holds(rest, i, Below(captured, b.nactvar))
  {
    hide BlockOf;
    if Holds(blocks, i, captured) {
      var s :| s in captured && BlockOf(blocks, s) == Some(i);
      assert s in Below(captured, b.nactvar) && BlockOf(rest, s) == Some(i);
    }
    if Holds(rest, i, Below(captured, b.nactvar)) {
      var s :| s in Below(captured, b.nactvar) && BlockOf(rest, s) == Some(i);
      assert s in captured && BlockOf(blocks, s) == Some(i);
    }
  }

  lemma AllGrownMore(fs: seq<Func>, gs: seq<Func>, a: int, b: int)
    requires AllGrown(fs, gs, a) && a <= b
    ensures AllGrown(fs, gs, b)
  {}

  lemma BlocksKept(f: Func, g: Func, captured: set<nat>)
    requires BlocksOk(f, captured) && g.blocks == f.blocks && g.actvar == f.actvar
    ensures BlocksOk(g, captured)
  {}
}
