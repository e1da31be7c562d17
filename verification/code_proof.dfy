/** The code generator preserves meaning. */
module CodeProof {
  import opened CodeVm
  import opened CodeGen
  import opened CodePatch
  import opened CodeSem
  import opened CodeExits
  import opened CodeClose

  predicate Under(r: nat, n: nat) { r < n }

  ghost function Below(n: nat): iset<nat> { iset r: nat | Under(r, n) }

  lemma {:induction false} UsesReads(env: Env, ex: Expr, n: nat, R: Regs, W: Regs)
    requires Uses(ex, n) && Keeps(Below(n), R, W)
    ensures Eval(env, ex, W) == Eval(env, ex, R)
    decreases ex
  {
    match ex
    case Local(r) => assert r in Below(n);
    case Upvalue(_) =>
    case Neg(a) => UsesReads(env, a, n, R, W);
    case Conj(a, b) => UsesReads(env, a, n, R, W); UsesReads(env, b, n, R, W);
    case Disj(a, b) => UsesReads(env, a, n, R, W); UsesReads(env, b, n, R, W);
    case Compare(_, a, b) => UsesReads(env, a, n, R, W); UsesReads(env, b, n, R, W);
  }

  lemma UsesBelow(env: Env, ex: Expr, nactvar: nat, n: nat)
    requires Uses(ex, nactvar) && nactvar <= n
    ensures Reads(env, ex, Below(n))
  {
    forall R: Regs, W: Regs | Keeps(Below(n), R, W) ensures Eval(env, ex, W) == Eval(env, ex, R) {
      assert Keeps(Below(nactvar), R, W);
      UsesReads(env, ex, nactvar, R, W);
    }
  }

  // ---------- the code of an unfinished expression ----------

  /** The instruction or the comparison that makes the value, if it is the last one, is not part of
      the base. */
  function Base(fs: Fs, e: ExpDesc): seq<Instr> {
    match e.k
    case VReloc(pc) => if pc <= |fs.code| then fs.code[..pc] else fs.code
    case VJmp(pc) => if 1 <= pc <= |fs.code| then fs.code[..pc - 1] else fs.code
    case _ => fs.code
  }

  predicate Placed(fs: Fs, e: ExpDesc) {
    match e.k
    case VReloc(pc) => |fs.code| == pc + 1 && (fs.code[pc].Not? || fs.code[pc].GetUpval?) && fs.jpc == []
    case VJmp(pc) => |fs.code| == pc + 1 && pc >= 1 && fs.code[pc] == Jmp(NO_JUMP) && fs.code[pc - 1].Cmp?
        && fs.jpc == []
    case _ => true
  }

  function TailOf(fs: Fs, e: ExpDesc): Tail
    requires Placed(fs, e)
  {
    match e.k
    case VLocal(r) => Reg(r)
    case VNonReloc(r) => Reg(r)
    case VUpval(idx) => Up(idx)
    case VReloc(pc) => if fs.code[pc].Not? then NotOf(fs.code[pc].b) else Up(fs.code[pc].idx)
    case VJmp(pc) => var i := fs.code[pc - 1]; Rel(i.op, i.cond, i.b, i.c)
  }

  /** The value is in a local variable, or in the one temporary register in use, or in none. */
  predicate RegOk(n: nat, fs: Fs, e: ExpDesc) {
    && fs.nactvar <= n
    && match e.k
       case VLocal(r) => r < fs.nactvar && fs.freereg == n
       case VNonReloc(r) => (r < fs.nactvar && fs.freereg == n) || (r == n && fs.freereg == n + 1)
       case _ => fs.freereg == n
  }

  /** The state before an expression. */
  ghost predicate Start(fs: Fs) { Shape(fs.code, fs.jpc, [], |fs.code|) && fs.nactvar <= fs.freereg }

  /** Between `fs0` and `fs` the code of the expression `ex` has been generated, and `e` describes it. */
  ghost predicate Den(env: Env, fs0: Fs, fs: Fs, e: ExpDesc, ex: Expr) {
    && Placed(fs, e) && fs.nactvar == fs0.nactvar && RegOk(fs0.freereg, fs, e)
    && Follows(fs0.code, fs0.jpc, Base(fs, e), fs.jpc)
    && Sem(env, Base(fs, e), fs.jpc, e.t, e.f, |fs0.code|, Below(fs0.freereg), TailOf(fs, e), ex)
  }

  // ---------- what comes before stays ----------

  lemma PrefixStays(code: seq<Instr>, list: seq<nat>, vt: nat, reg: int, dt: nat, n: nat)
    requires n <= |code| && Landing(code, n) && reg >= -1 && forall x | x in list :: n <= x < |code| && code[x].Jmp?
    ensures PatchAll(code, list, vt, reg, dt)[..n] == code[..n]
  {
    var c := PatchAll(code, list, vt, reg, dt);
    forall i | 0 <= i < n ensures c[i] == code[i] {
      PatchAllAt(code, list, vt, reg, dt, i);
    }
  }

  lemma FollowsPatched(c1: seq<Instr>, j1: seq<nat>, c2: seq<Instr>, j2: seq<nat>, xs: seq<nat>)
    requires Follows(c1, j1, c2, j2) && Shape(c2, j2, xs, |c1|)
    ensures Follows(c1, j1, Patched(c2, j2), [])
  {
    if c2 == c1 && j2 == j1 {
      assert Patched(c2, j2)[..|c1|] == Patched(c1, j1);
    } else {
      PrefixStays(c2, j2, |c2|, NO_REG, |c2|, |c1|);
    }
  }

  lemma FollowsMore(c1: seq<Instr>, j1: seq<nat>, c2: seq<Instr>, more: seq<Instr>, j: seq<nat>)
    requires Follows(c1, j1, c2, []) && forall x | x in j :: x >= |c1|
    ensures Follows(c1, j1, c2 + more, j)
  {
    assert (c2 + more)[..|c1|] == c2[..|c1|];
    if c2 == c1 && j1 == [] { assert Patched(c1, []) == c1 && c2[..|c1|] == c1; }
  }

  lemma FollowsTrans(c1: seq<Instr>, j1: seq<nat>, c2: seq<Instr>, j2: seq<nat>, xs: seq<nat>, c3: seq<Instr>,
                     j3: seq<nat>)
    requires Follows(c1, j1, c2, j2) && Shape(c2, j2, xs, |c1|) && Follows(c2, j2, c3, j3)
    ensures Follows(c1, j1, c3, j3)
  {
    FollowsPatched(c1, j1, c2, j2, xs);
    if !(c3 == c2 && j3 == j2) && !(c2 == c1 && j2 == j1) {
      assert c3[..|c1|] == c3[..|c2|][..|c1|] == Patched(c2, j2)[..|c1|];
      PrefixStays(c2, j2, |c2|, NO_REG, |c2|, |c1|);
    }
  }

  /** The same part before, and the same jumps to the next instruction. */
  lemma FollowsChanged(c1: seq<Instr>, j1: seq<nat>, c2: seq<Instr>, j2: seq<nat>, c3: seq<Instr>)
    requires Follows(c1, j1, c2, j2) && |c3| == |c2| && |c1| <= |c2| && c3[..|c1|] == c2[..|c1|]
    ensures Follows(c1, j1, c3, j2)
  {
    if c2 == c1 && j2 == j1 { assert c3[..|c1|] == c3 && c2[..|c1|] == c2; }
  }

  lemma StartAfter(code: seq<Instr>, jpc: seq<nat>, xs: seq<nat>, from: nat)
    requires Shape(code, jpc, xs, from)
    ensures Shape(code, jpc, [], |code|)
  {
    EndIsLanding(code, jpc, xs, from);
    DistinctParts(jpc, xs);
    NoExits(jpc);
  }

  lemma PatchNone(code: seq<Instr>)
    ensures Patched(code, []) == code
  {}

  // ---------- discharging ----------

  lemma DischargeVarsDen(env: Env, fs0: Fs, fs: Fs, e: ExpDesc, ex: Expr)
    requires Den(env, fs0, fs, e, ex)
    ensures var d := DischargeVars(fs, e); Den(env, fs0, d.fs, d.e, ex) && !d.e.k.VLocal? && !d.e.k.VUpval?
    ensures var d := DischargeVars(fs, e); d.e.t == e.t && d.e.f == e.f
    ensures !e.k.VLocal? && !e.k.VUpval? ==> DischargeVars(fs, e) == Res(fs, e)
  {
    if e.k.VUpval? {
      var d := DischargeVars(fs, e);
      PatchedSem(env, fs.code, fs.jpc, e.t, e.f, |fs0.code|, Below(fs0.freereg), Up(e.k.idx), ex);
      FollowsPatched(fs0.code, fs0.jpc, fs.code, fs.jpc, e.t + e.f);
      assert Base(d.fs, d.e) == Patched(fs.code, fs.jpc);
      hide Sem, Follows, Patched;
    }
  }

  /** A value in a register. */
  ghost predicate InReg(env: Env, fs0: Fs, fs: Fs, t: seq<nat>, f: seq<nat>, K: iset<nat>, reg: nat, ex: Expr) {
    && fs.nactvar == fs0.nactvar
    && Follows(fs0.code, fs0.jpc, fs.code, fs.jpc)
    && Sem(env, fs.code, fs.jpc, t, f, |fs0.code|, K, Reg(reg), ex)
  }

  lemma LoadReg(env: Env, fs0: Fs, code: seq<Instr>, t: seq<nat>, f: seq<nat>, tail: Tail, ex: Expr, reg: nat, r: Fs)
    requires Sem(env, code, [], t, f, |fs0.code|, Below(fs0.freereg), tail, ex) && !tail.Rel?
    requires Follows(fs0.code, fs0.jpc, code, [])
    requires r.code == code + [LoadInstr(tail, reg)] && r.jpc == [] && r.nactvar == fs0.nactvar
    ensures InReg(env, fs0, r, t, f, Below(fs0.freereg) - iset{reg}, reg, ex)
  {
    LoadSem(env, code, t, f, |fs0.code|, Below(fs0.freereg), tail, ex, reg);
    FollowsMore(fs0.code, fs0.jpc, code, [LoadInstr(tail, reg)], []);
  }

  lemma KeepFewer(env: Env, code: seq<Instr>, jpc: seq<nat>, t: seq<nat>, f: seq<nat>, from: nat, K: iset<nat>,
                  K2: iset<nat>, tail: Tail, ex: Expr)
    requires Sem(env, code, jpc, t, f, from, K, tail, ex) && K2 <= K
    ensures Sem(env, code, jpc, t, f, from, K2, tail, ex)
  {
    hide Shape, RunOf, Eval, TailVal;
    forall R: Regs ensures SemAt(env, code, jpc, t, f, from, K2, tail, ex, R) {
      assert SemAt(env, code, jpc, t, f, from, K, tail, ex, R);
    }
  }

  lemma NotBelow(n: nat)
    ensures Below(n) - iset{n} == Below(n)
  {}

  /** `discharge2anyreg`, followed by `freeexp` */
  lemma AnyRegDen(env: Env, fs0: Fs, fs: Fs, e: ExpDesc, ex: Expr)
    requires Den(env, fs0, fs, e, ex) && (e.k.VReloc? || e.k.VNonReloc?)
    ensures var d := Discharge2AnyReg(fs, e);
      && d.e.k.VNonReloc? && d.e.t == e.t && d.e.f == e.f
      && InReg(env, fs0, d.fs, e.t, e.f, Below(fs0.freereg), d.e.k.r, ex)
      && FreeExp(d.fs, d.e) == d.fs.(freereg := fs0.freereg)
  {
    if e.k.VReloc? {
      var fs1 := fs.(freereg := fs.freereg + 1);
      NotBelow(fs0.freereg);
      assert Base(fs1, e) == Base(fs, e) && TailOf(fs1, e) == TailOf(fs, e);
      RelocReg(env, fs0, fs1, e, fs0.freereg, ex);
    }
  }

  lemma RelocReg(env: Env, fs0: Fs, fs: Fs, e: ExpDesc, reg: nat, ex: Expr)
    requires Placed(fs, e) && e.k.VReloc? && fs.nactvar == fs0.nactvar
    requires Follows(fs0.code, fs0.jpc, Base(fs, e), fs.jpc)
    requires Sem(env, Base(fs, e), fs.jpc, e.t, e.f, |fs0.code|, Below(fs0.freereg), TailOf(fs, e), ex)
    ensures var d := Discharge2Reg(fs, e, reg);
      && d.e == e.(k := VNonReloc(reg)) && d.fs.freereg == fs.freereg
      && InReg(env, fs0, d.fs, e.t, e.f, Below(fs0.freereg) - iset{reg}, reg, ex)
  {
    var d := Discharge2Reg(fs, e, reg);
    assert d.fs.code == Base(fs, e) + [LoadInstr(TailOf(fs, e), reg)];
    hide Sem, Follows;
    LoadReg(env, fs0, Base(fs, e), e.t, e.f, TailOf(fs, e), ex, reg, d.fs);
  }

  // ---------- conditional jumps ----------

  /** The code of a first operand: it goes on if the operand has the truth value `go`. */
  ghost predicate Open(env: Env, fs0: Fs, fs: Fs, t: seq<nat>, f: seq<nat>, ex: Expr, go: bool, plain: bool) {
    && fs.nactvar == fs0.nactvar && fs.freereg == fs0.freereg && fs.jpc == []
    && Follows(fs0.code, fs0.jpc, fs.code, [])
    && Both(env, fs.code, t, f, |fs0.code|, Below(fs0.freereg), ex, go, plain)
  }

  /** The last instruction is a new exit, for the truth value `truth`. */
  function LastExit(fs: Fs, list: seq<nat>, truth: bool): seq<nat> {
    if truth && |fs.code| > 0 then list + [|fs.code| - 1] else list
  }

  lemma OpenTest(env: Env, fs0: Fs, code: seq<Instr>, t: seq<nat>, f: seq<nat>, tail: Tail, ex: Expr, i: Instr,
                 go: bool, r: Fs)
    requires Sem(env, code, [], t, f, |fs0.code|, Below(fs0.freereg), tail, ex) && Tests(env, i, tail, go)
    requires Follows(fs0.code, fs0.jpc, code, [])
    requires r == Fs(code + [i, Jmp(NO_JUMP)], [], fs0.freereg, fs0.nactvar)
    ensures Open(env, fs0, r, LastExit(r, t, !go), LastExit(r, f, go), ex, go, !i.TestSet?)
  {
    TestBoth(env, code, t, f, |fs0.code|, Below(fs0.freereg), tail, ex, i, go);
    FollowsMore(fs0.code, fs0.jpc, code, [i, Jmp(NO_JUMP)], []);
    assert |r.code| - 1 == |code| + 1;
    hide Both, Follows, Sem, Tests;
  }

  lemma CondJumpIs(fs: Fs, i: Instr)
    ensures CondJump(fs, i) == fs.(code := Patched(fs.code, fs.jpc) + [i, Jmp(NO_JUMP)], jpc := [])
  {
    assert Patched(fs.code, fs.jpc) + [i] + [Jmp(NO_JUMP)] == Patched(fs.code, fs.jpc) + [i, Jmp(NO_JUMP)];
  }

  lemma TestsNot(env: Env, b: nat, cond: bool)
    ensures Tests(env, Test(b, !cond), NotOf(b), !cond)
  {}

  lemma TestsReg(env: Env, r: nat, cond: bool)
    ensures Tests(env, TestSet(NO_REG, r, cond), Reg(r), !cond)
  {}

  lemma TestsCmp(env: Env, op: CmpOp, cond: bool, b: nat, c: nat)
    ensures Tests(env, Cmp(op, !cond, b, c), Rel(op, cond, b, c), true)
    ensures Tests(env, Cmp(op, cond, b, c), Rel(op, cond, b, c), false)
  {}

  lemma OpenWeaker(env: Env, fs0: Fs, fs: Fs, t: seq<nat>, f: seq<nat>, ex: Expr, go: bool, plain: bool)
    requires Open(env, fs0, fs, t, f, ex, go, plain)
    ensures Open(env, fs0, fs, t, f, ex, go, false)
  {
    hide Shape, RunOf, Eval, Follows;
    forall R: Regs ensures BothAt(env, fs.code, t, f, |fs0.code|, Below(fs0.freereg), ex, go, false, R) {
      assert BothAt(env, fs.code, t, f, |fs0.code|, Below(fs0.freereg), ex, go, plain, R);
    }
  }

  lemma JumpOnCondDen(env: Env, fs0: Fs, fs: Fs, e: ExpDesc, cond: bool, ex: Expr)
    requires Den(env, fs0, fs, e, ex) && (e.k.VReloc? || e.k.VNonReloc?)
    ensures var g := JumpOnCond(fs, e, cond);
      |g.code| > 0 && Open(env, fs0, g, LastExit(g, e.t, cond), LastExit(g, e.f, !cond), ex, !cond, false)
  {
    if e.k.VReloc? && fs.code[e.k.pc].Not? {
      hide Den;
      NotTest(env, fs0, fs, e, cond, ex);
    } else {
      AnyRegDen(env, fs0, fs, e, ex);
      var d := Discharge2AnyReg(fs, e);
      CondJumpIs(FreeExp(d.fs, d.e), TestSet(NO_REG, d.e.k.r, cond));
      hide Discharge2AnyReg, Den, InReg, FreeExp, CondJump;
      RegTest(env, fs0, d.fs, e.t, e.f, d.e.k.r, ex, cond);
    }
  }

  lemma NotTest(env: Env, fs0: Fs, fs: Fs, e: ExpDesc, cond: bool, ex: Expr)
    requires Den(env, fs0, fs, e, ex) && e.k.VReloc? && fs.code[e.k.pc].Not?
    ensures var g := JumpOnCond(fs, e, cond);
      |g.code| > 0 && Open(env, fs0, g, LastExit(g, e.t, cond), LastExit(g, e.f, !cond), ex, !cond, false)
  {
    var g := JumpOnCond(fs, e, cond);
    var code := Base(fs, e);
    var b := fs.code[e.k.pc].b;
    assert TailOf(fs, e) == NotOf(b) && code == fs.code[..|fs.code| - 1];
    PatchNone(code);
    CondJumpIs(fs.(code := code), Test(b, !cond));
    TestsNot(env, b, cond);
    assert g == Fs(code + [Test(b, !cond), Jmp(NO_JUMP)], [], fs0.freereg, fs0.nactvar);
    hide Sem, Follows, Tests, CondJump, JumpOnCond, Open;
    OpenTest(env, fs0, code, e.t, e.f, NotOf(b), ex, Test(b, !cond), !cond, g);
    OpenWeaker(env, fs0, g, LastExit(g, e.t, cond), LastExit(g, e.f, !cond), ex, !cond, true);
  }

  lemma RegTest(env: Env, fs0: Fs, fs: Fs, t: seq<nat>, f: seq<nat>, r: nat, ex: Expr, cond: bool)
    requires InReg(env, fs0, fs, t, f, Below(fs0.freereg), r, ex)
    ensures var g := fs.(code := Patched(fs.code, fs.jpc) + [TestSet(NO_REG, r, cond), Jmp(NO_JUMP)], jpc := [],
        freereg := fs0.freereg);
      Open(env, fs0, g, LastExit(g, t, cond), LastExit(g, f, !cond), ex, !cond, false)
  {
    var c := Patched(fs.code, fs.jpc);
    var i := TestSet(NO_REG, r, cond);
    var g := fs.(code := c + [i, Jmp(NO_JUMP)], jpc := [], freereg := fs0.freereg);
    PatchedSem(env, fs.code, fs.jpc, t, f, |fs0.code|, Below(fs0.freereg), Reg(r), ex);
    FollowsPatched(fs0.code, fs0.jpc, fs.code, fs.jpc, t + f);
    TestsReg(env, r, cond);
    assert fs.nactvar == fs0.nactvar;
    hide Sem, Follows, Tests, Patched, InReg, Open;
    OpenTest(env, fs0, c, t, f, Reg(r), ex, i, !cond, g);
  }

  lemma CmpParts(env: Env, fs0: Fs, fs: Fs, e: ExpDesc, ex: Expr)
    requires Den(env, fs0, fs, e, ex) && e.k.VJmp?
    ensures var i := fs.code[e.k.pc - 1];
      && i.Cmp? && fs.code == Base(fs, e) + [i, Jmp(NO_JUMP)] && TailOf(fs, e) == Rel(i.op, i.cond, i.b, i.c)
      && InvertJump(fs, e.k.pc) == fs.(code := Base(fs, e) + [Cmp(i.op, !i.cond, i.b, i.c), Jmp(NO_JUMP)])
      && fs.jpc == [] && fs.freereg == fs0.freereg && fs.nactvar == fs0.nactvar
  {
    hide Sem, Follows;
  }

  lemma CmpBoth(env: Env, fs0: Fs, fs: Fs, e: ExpDesc, ex: Expr, inverted: bool)
    requires Den(env, fs0, fs, e, ex) && e.k.VJmp?
    ensures var g := if inverted then InvertJump(fs, e.k.pc) else fs;
      Open(env, fs0, g, LastExit(g, e.t, !inverted), LastExit(g, e.f, inverted), ex, inverted, true)
  {
    CmpParts(env, fs0, fs, e, ex);
    var code := Base(fs, e);
    var i := fs.code[e.k.pc - 1];
    TestsCmp(env, i.op, i.cond, i.b, i.c);
    hide Sem, Follows, Tests, Open, InvertJump, Base, TailOf, LastExit;
    if inverted {
      OpenTest(env, fs0, code, e.t, e.f, TailOf(fs, e), ex, Cmp(i.op, !i.cond, i.b, i.c), true, InvertJump(fs, e.k.pc));
    } else {
      OpenTest(env, fs0, code, e.t, e.f, TailOf(fs, e), ex, i, false, fs);
    }
  }

  /** The state after `luaK_goiftrue` or `luaK_goiffalse`. */
  ghost predicate Gone(env: Env, fs0: Fs, fs: Fs, xs: seq<nat>, ex: Expr, go: bool) {
    && fs.nactvar == fs0.nactvar && fs.freereg == fs0.freereg
    && Follows(fs0.code, fs0.jpc, fs.code, fs.jpc)
    && Go(env, fs.code, fs.jpc, xs, |fs0.code|, Below(fs0.freereg), ex, go)
  }

  lemma OpenGone(env: Env, fs0: Fs, fs: Fs, t: seq<nat>, f: seq<nat>, ex: Expr, go: bool, plain: bool)
    requires Open(env, fs0, fs, t, f, ex, go, plain)
    ensures Gone(env, fs0, PatchToHere(fs, if go then t else f), if go then f else t, ex, go)
  {
    var j := if go then t else f;
    NoExits(j);
    BothGo(env, fs.code, t, f, |fs0.code|, Below(fs0.freereg), ex, go, plain);
    ExitsInCode2(fs.code, [], t, f, |fs0.code|);
    assert fs.code + [] == fs.code;
    FollowsMore(fs0.code, fs0.jpc, fs.code, [], j);
  }

  lemma GoJmp(env: Env, fs0: Fs, fs: Fs, e: ExpDesc, ex: Expr, go: bool)
    requires Den(env, fs0, fs, e, ex) && e.k.VJmp?
    ensures var g := if go then InvertJump(fs, e.k.pc) else fs;
      Gone(env, fs0, PatchToHere(g, if go then e.t else e.f), (if go then e.f else e.t) + [e.k.pc], ex, go)
  {
    hide Den, Open, Gone, InvertJump, PatchToHere;
    CmpBoth(env, fs0, fs, e, ex, go);
    var g := if go then InvertJump(fs, e.k.pc) else fs;
    assert |g.code| - 1 == e.k.pc by { JmpIsLast(env, fs0, fs, e, ex); }
    OpenGone(env, fs0, g, LastExit(g, e.t, !go), LastExit(g, e.f, go), ex, go, true);
  }

  lemma JmpIsLast(env: Env, fs0: Fs, fs: Fs, e: ExpDesc, ex: Expr)
    requires Den(env, fs0, fs, e, ex) && e.k.VJmp?
    ensures |fs.code| - 1 == e.k.pc && |InvertJump(fs, e.k.pc).code| == |fs.code|
  {}

  lemma GoTest(env: Env, fs0: Fs, fs: Fs, e: ExpDesc, ex: Expr, go: bool)
    requires Den(env, fs0, fs, e, ex) && (e.k.VReloc? || e.k.VNonReloc?)
    ensures var g := JumpOnCond(fs, e, !go);
      Gone(env, fs0, PatchToHere(g, if go then e.t else e.f), (if go then e.f else e.t) + [|g.code| - 1], ex, go)
  {
    hide Den, Open, Gone, JumpOnCond, PatchToHere;
    JumpOnCondDen(env, fs0, fs, e, !go, ex);
    var g := JumpOnCond(fs, e, !go);
    OpenGone(env, fs0, g, LastExit(g, e.t, !go), LastExit(g, e.f, go), ex, go, false);
  }

  lemma GoIfTrueGone(env: Env, fs0: Fs, fs: Fs, e: ExpDesc, ex: Expr)
    requires Den(env, fs0, fs, e, ex)
    ensures var g := GoIfTrue(fs, e); Gone(env, fs0, g.fs, g.e.f, ex, true)
  {
    DischargeVarsDen(env, fs0, fs, e, ex);
    var d := DischargeVars(fs, e);
    hide Den, Gone, JumpOnCond, InvertJump, DischargeVars, PatchToHere;
    if d.e.k.VJmp? { GoJmp(env, fs0, d.fs, d.e, ex, true); } else { GoTest(env, fs0, d.fs, d.e, ex, true); }
  }

  lemma GoIfFalseGone(env: Env, fs0: Fs, fs: Fs, e: ExpDesc, ex: Expr)
    requires Den(env, fs0, fs, e, ex)
    ensures var g := GoIfFalse(fs, e); Gone(env, fs0, g.fs, g.e.t, ex, false)
  {
    DischargeVarsDen(env, fs0, fs, e, ex);
    var d := DischargeVars(fs, e);
    hide Den, Gone, JumpOnCond, DischargeVars, PatchToHere;
    if d.e.k.VJmp? { GoJmp(env, fs0, d.fs, d.e, ex, false); } else { GoTest(env, fs0, d.fs, d.e, ex, false); }
  }

  // ---------- `exp2reg` ----------

  lemma FollowsClosed(fs0: Fs, fs: Fs, t: seq<nat>, f: seq<nat>, reg: nat, pf: nat)
    requires Follows(fs0.code, fs0.jpc, fs.code, fs.jpc) && Shape(fs.code, fs.jpc, t + f, |fs0.code|)
    ensures Follows(fs0.code, fs0.jpc, CloseCode(fs.code, t, f, reg, pf), fs.jpc)
  {
    var n := |fs0.code|;
    ExitsInCode2(fs.code, fs.jpc, t, f, n);
    var c1 := PatchAll(fs.code, f, |fs.code|, reg, pf);
    PrefixStays(fs.code, f, |fs.code|, reg, pf, n);
    forall x | x in t ensures c1[x].Jmp? { PatchAllAt(fs.code, f, |fs.code|, reg, pf, x); }
    if n > 0 { PatchAllAt(fs.code, f, |fs.code|, reg, pf, n - 1); }
    PrefixStays(c1, t, |fs.code|, reg, pf + 1, n);
    FollowsChanged(fs0.code, fs0.jpc, fs.code, fs.jpc, CloseCode(fs.code, t, f, reg, pf));
  }

  /** The result of an expression in a register, without open jumps. */
  ghost predicate Done(env: Env, fs0: Fs, fs: Fs, K: iset<nat>, reg: nat, ex: Expr) {
    InReg(env, fs0, fs, [], [], K, reg, ex)
  }

  lemma CloseDone(env: Env, fs0: Fs, fs: Fs, t: seq<nat>, f: seq<nat>, K: iset<nat>, reg: nat, ex: Expr, pf: nat)
    requires InReg(env, fs0, fs, t, f, K, reg, ex) && Ready(fs.code, t + f, reg, pf)
    ensures Done(env, fs0, fs.(code := CloseCode(fs.code, t, f, reg, pf)), K - iset{reg}, reg, ex)
  {
    CloseSem(env, fs.code, fs.jpc, t, f, |fs0.code|, K, ex, reg, pf);
    FollowsClosed(fs0, fs, t, f, reg, pf);
  }

  lemma NeedReady(code: seq<Instr>, t: seq<nat>, f: seq<nat>, reg: nat)
    requires !NeedValue(code, t) && !NeedValue(code, f)
    ensures Ready(code, t + f, reg, 0)
  {}

  /** The result of `exp2reg` when the value is in the register already. */
  function Finish(fs: Fs, t: seq<nat>, f: seq<nat>, reg: nat): Fs {
    if t == [] && f == [] then fs
    else if NeedValue(fs.code, t) || NeedValue(fs.code, f) then
      var l := LoadBools(fs, false, reg);
      l.(code := CloseCode(l.code, t, f, reg, |l.code| - 2))
    else fs.(code := CloseCode(fs.code, t, f, reg, 0))
  }

  lemma FinishDone(env: Env, fs0: Fs, fs: Fs, t: seq<nat>, f: seq<nat>, K: iset<nat>, reg: nat, ex: Expr)
    requires InReg(env, fs0, fs, t, f, K, reg, ex)
    ensures Done(env, fs0, Finish(fs, t, f, reg), K - iset{reg}, reg, ex)
  {
    hide InReg, LoadBools, CloseCode, Done, NeedValue, Ready;
    if t == [] && f == [] {
      NothingDone(env, fs0, fs, K, reg, ex);
    } else if NeedValue(fs.code, t) || NeedValue(fs.code, f) {
      LoadBoolsReg(env, fs0, fs, t, f, K, reg, ex);
      var l := LoadBools(fs, false, reg);
      CloseDone(env, fs0, l, t, f, K, reg, ex, |l.code| - 2);
    } else {
      NeedReady(fs.code, t, f, reg);
      CloseDone(env, fs0, fs, t, f, K, reg, ex, 0);
    }
  }

  lemma NothingDone(env: Env, fs0: Fs, fs: Fs, K: iset<nat>, reg: nat, ex: Expr)
    requires InReg(env, fs0, fs, [], [], K, reg, ex)
    ensures Done(env, fs0, fs, K - iset{reg}, reg, ex)
  {
    hide Follows, Sem;
    KeepFewer(env, fs.code, fs.jpc, [], [], |fs0.code|, K, K - iset{reg}, Reg(reg), ex);
  }

  lemma LoadBoolsReg(env: Env, fs0: Fs, fs: Fs, t: seq<nat>, f: seq<nat>, K: iset<nat>, reg: nat, ex: Expr)
    requires InReg(env, fs0, fs, t, f, K, reg, ex) && (t != [] || f != [])
    ensures var l := LoadBools(fs, false, reg);
      |l.code| >= 2 && InReg(env, fs0, l, t, f, K, reg, ex) && Ready(l.code, t + f, reg, |l.code| - 2)
  {
    var l := LoadBools(fs, false, reg);
    assert l.code == fs.code + [Jmp(NO_JUMP)] + Loads(reg);
    SkipLoads(env, fs.code, fs.jpc, t, f, |fs0.code|, K, Reg(reg), ex, reg);
    FollowsLoads(fs0, fs, t + f, reg);
    hide Sem, Follows;
  }

  lemma FollowsLoads(fs0: Fs, fs: Fs, xs: seq<nat>, reg: nat)
    requires Follows(fs0.code, fs0.jpc, fs.code, fs.jpc) && Shape(fs.code, fs.jpc, xs, |fs0.code|) && xs != []
    ensures Follows(fs0.code, fs0.jpc, fs.code + [Jmp(NO_JUMP)] + Loads(reg), [|fs.code|] + fs.jpc)
  {
    assert xs[0] in xs;
    assert (fs.code + [Jmp(NO_JUMP)] + Loads(reg))[..|fs0.code|] == fs.code[..|fs0.code|];
  }
}
