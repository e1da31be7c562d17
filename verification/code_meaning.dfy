/** Whole expressions: what `Compile` generates computes the value of the expression. */
module CodeMeaning {
  import opened CodeVm
  import opened CodeGen
  import opened CodePatch
  import opened CodeSem
  import opened CodeExits
  import opened CodeClose
  import opened CodeProof

  /** `Den`, without the count of registers in use. */
  ghost predicate Mean(env: Env, fs0: Fs, fs: Fs, e: ExpDesc, ex: Expr) {
    && Placed(fs, e) && fs.nactvar == fs0.nactvar
    && Follows(fs0.code, fs0.jpc, Base(fs, e), fs.jpc)
    && Sem(env, Base(fs, e), fs.jpc, e.t, e.f, |fs0.code|, Below(fs0.freereg), TailOf(fs, e), ex)
  }

  predicate Discharged(e: ExpDesc) { e.k.VReloc? || e.k.VNonReloc? || e.k.VJmp? }

  lemma ValueReg(env: Env, fs0: Fs, fs: Fs, e: ExpDesc, reg: nat, ex: Expr)
    requires Mean(env, fs0, fs, e, ex) && (e.k.VReloc? || e.k.VNonReloc?)
    ensures var d := Discharge2Reg(fs, e, reg);
      && d.e == e.(k := VNonReloc(reg)) && d.fs.freereg == fs.freereg
      && InReg(env, fs0, d.fs, e.t, e.f, Below(fs0.freereg) - iset{reg}, reg, ex)
  {
    if e.k.VReloc? {
      hide Sem, Follows, InReg, Discharge2Reg;
      RelocReg(env, fs0, fs, e, reg, ex);
    } else {
      hide Mean;
      FixedReg(env, fs0, fs, e, reg, ex);
    }
  }

  lemma FixedReg(env: Env, fs0: Fs, fs: Fs, e: ExpDesc, reg: nat, ex: Expr)
    requires Mean(env, fs0, fs, e, ex) && e.k.VNonReloc?
    ensures var d := Discharge2Reg(fs, e, reg);
      && d.e == e.(k := VNonReloc(reg)) && d.fs.freereg == fs.freereg
      && InReg(env, fs0, d.fs, e.t, e.f, Below(fs0.freereg) - iset{reg}, reg, ex)
  {
    var d := Discharge2Reg(fs, e, reg);
    var K := Below(fs0.freereg);
    if reg != e.k.r {
      PatchedSem(env, fs.code, fs.jpc, e.t, e.f, |fs0.code|, K, Reg(e.k.r), ex);
      FollowsPatched(fs0.code, fs0.jpc, fs.code, fs.jpc, e.t + e.f);
      hide Sem, Follows, PatchAll, InReg;
      LoadReg(env, fs0, Patched(fs.code, fs.jpc), e.t, e.f, Reg(e.k.r), ex, reg, d.fs);
    } else {
      hide Follows, Sem;
      KeepFewer(env, fs.code, fs.jpc, e.t, e.f, |fs0.code|, K, K - iset{reg}, Reg(reg), ex);
    }
  }

  // ---------- `exp2reg` ----------

  lemma ValueDone(env: Env, fs0: Fs, fs: Fs, e: ExpDesc, reg: nat, ex: Expr)
    requires Mean(env, fs0, fs, e, ex) && (e.k.VReloc? || e.k.VNonReloc?)
    ensures var r := Exp2Reg(fs, e, reg);
      && r.e == ExpDesc(VNonReloc(reg), [], []) && r.fs.freereg == fs.freereg
      && Done(env, fs0, r.fs, Below(fs0.freereg) - iset{reg}, reg, ex)
  {
    var d := Discharge2Reg(fs, e, reg);
    var K := Below(fs0.freereg) - iset{reg};
    hide Discharge2Reg, InReg, Done, Mean, Finish, Exp2Reg;
    ValueReg(env, fs0, fs, e, reg, ex);
    FinishDone(env, fs0, d.fs, e.t, e.f, K, reg, ex);
    assert K - iset{reg} == K;
    FinishIs(d.fs, e.t, e.f, reg);
    ValueResult(fs, e, reg);
  }

  lemma ValueResult(fs: Fs, e: ExpDesc, reg: nat)
    requires Discharge2Reg(fs, e, reg).e == e.(k := VNonReloc(reg))
    ensures Exp2Reg(fs, e, reg) == Res(Finish(Discharge2Reg(fs, e, reg).fs, e.t, e.f, reg),
        ExpDesc(VNonReloc(reg), [], []))
  {
    hide Discharge2Reg, NeedValue, LoadBools;
  }

  lemma FinishIs(fs: Fs, t: seq<nat>, f: seq<nat>, reg: nat)
    ensures Finish(fs, t, f, reg).freereg == fs.freereg
  {}

  lemma JmpDone(env: Env, fs0: Fs, fs: Fs, e: ExpDesc, reg: nat, ex: Expr)
    requires Mean(env, fs0, fs, e, ex) && e.k.VJmp? && fs.nactvar <= fs0.freereg
    ensures var r := Exp2Reg(fs, e, reg);
      && r.e == ExpDesc(VNonReloc(reg), [], []) && r.fs.freereg == fs.freereg
      && Done(env, fs0, r.fs, Below(fs0.freereg) - iset{reg}, reg, ex)
  {
    var g := fs.(freereg := fs0.freereg);
    assert Den(env, fs0, g, e, ex);
    var t := e.t + [e.k.pc];
    hide Mean, Den;
    CmpBoth(env, fs0, g, e, ex, false);
    JmpIsLast(env, fs0, g, e, ex);
    FallDone(env, fs0, g, t, e.f, reg, ex);
    JmpResult(env, fs0, fs, e, reg, ex);
  }

  /** The code of an expression that goes on if it is false. */
  lemma FallDone(env: Env, fs0: Fs, fs: Fs, t: seq<nat>, f: seq<nat>, reg: nat, ex: Expr)
    requires Open(env, fs0, fs, t, f, ex, false, true)
    ensures var c := fs.code + Loads(reg);
      Done(env, fs0, fs.(code := CloseCode(c, t, f, reg, |fs.code|)), Below(fs0.freereg) - iset{reg}, reg, ex)
  {
    var K := Below(fs0.freereg) - iset{reg};
    var l := fs.(code := fs.code + Loads(reg));
    FallLoads(env, fs.code, t, f, |fs0.code|, Below(fs0.freereg), ex, reg);
    FollowsMore(fs0.code, fs0.jpc, fs.code, Loads(reg), []);
    hide Sem, Follows, CloseCode, Done, HasLoads;
    assert Ready(l.code, t + f, reg, |fs.code|);
    CloseDone(env, fs0, l, t, f, K, reg, ex, |fs.code|);
    assert K - iset{reg} == K;
  }

  lemma JmpResult(env: Env, fs0: Fs, fs: Fs, e: ExpDesc, reg: nat, ex: Expr)
    requires Mean(env, fs0, fs, e, ex) && e.k.VJmp?
    ensures Exp2Reg(fs, e, reg)
      == Res(fs.(code := CloseCode(fs.code + Loads(reg), e.t + [e.k.pc], e.f, reg, |fs.code|)),
          ExpDesc(VNonReloc(reg), [], []))
  {
    assert fs.jpc == [] && e.k.pc + 1 == |fs.code| && !Valued(fs.code, e.k.pc);
    hide Mean;
    JmpLoads(fs, e, reg);
  }

  lemma JmpLoads(fs: Fs, e: ExpDesc, reg: nat)
    requires e.k.VJmp? && fs.jpc == [] && !Valued(fs.code, e.k.pc)
    ensures Exp2Reg(fs, e, reg)
      == Res(fs.(code := CloseCode(fs.code + Loads(reg), e.t + [e.k.pc], e.f, reg, |fs.code|)),
          ExpDesc(VNonReloc(reg), [], []))
  {
    var t := e.t + [e.k.pc];
    assert NeedValue(fs.code, t) by { assert e.k.pc in t; }
    PatchNone(fs.code);
    assert LoadBools(fs, true, reg) == fs.(code := fs.code + Loads(reg));
    hide NeedValue, LoadBools, PatchAll, Valued;
  }

  /** `exp2reg` leaves the value in the register, and the registers below the first free one keep
      their contents. */
  lemma Exp2RegDone(env: Env, fs0: Fs, fs: Fs, e: ExpDesc, reg: nat, ex: Expr)
    requires Mean(env, fs0, fs, e, ex) && Discharged(e) && fs.nactvar <= fs0.freereg
    ensures var r := Exp2Reg(fs, e, reg);
      && r.e == ExpDesc(VNonReloc(reg), [], []) && r.fs.freereg == fs.freereg
      && Done(env, fs0, r.fs, Below(fs0.freereg) - iset{reg}, reg, ex)
  {
    hide Mean, Exp2Reg, Done;
    if e.k.VJmp? { JmpDone(env, fs0, fs, e, reg, ex); } else { ValueDone(env, fs0, fs, e, reg, ex); }
  }

  lemma DenMean(env: Env, fs0: Fs, fs: Fs, e: ExpDesc, ex: Expr, freereg: nat)
    requires Den(env, fs0, fs, e, ex)
    ensures Mean(env, fs0, fs.(freereg := freereg), e, ex) && fs.nactvar <= fs0.freereg
  {}

  /** The value is in a register, and no jump is open. */
  ghost predicate InOne(env: Env, fs0: Fs, fs: Fs, e: ExpDesc, ex: Expr) {
    Den(env, fs0, fs, e, ex) && e.k.VNonReloc? && e.t == [] && e.f == []
  }

  lemma Exp2NextRegDen(env: Env, fs0: Fs, fs: Fs, e: ExpDesc, ex: Expr)
    requires Den(env, fs0, fs, e, ex)
    ensures var r := Exp2NextReg(fs, e); InOne(env, fs0, r.fs, r.e, ex) && r.e.k == VNonReloc(fs0.freereg)
  {
    var n := fs0.freereg;
    var d := DischargeVars(fs, e);
    hide Mean, Exp2Reg, DischargeVars, FreeExp, Den, InOne;
    DischargeVarsDen(env, fs0, fs, e, ex);
    DenFrees(env, fs0, d.fs, d.e, ex);
    DenMean(env, fs0, d.fs, d.e, ex, n + 1);
    var g := d.fs.(freereg := n + 1);
    assert FreeExp(d.fs, d.e).(freereg := n + 1) == g;
    Exp2RegDone(env, fs0, g, d.e, n, ex);
    NotBelow(n);
    assert g.nactvar == d.fs.nactvar <= n;
    DoneDen(env, fs0, Exp2Reg(g, d.e, n).fs, n, ex);
  }

  lemma DenFrees(env: Env, fs0: Fs, fs: Fs, e: ExpDesc, ex: Expr)
    requires Den(env, fs0, fs, e, ex)
    ensures FreeExp(fs, e) == fs.(freereg := fs0.freereg)
  {}

  lemma DoneDen(env: Env, fs0: Fs, fs: Fs, reg: nat, ex: Expr)
    requires Done(env, fs0, fs, Below(fs0.freereg), reg, ex) && fs0.nactvar <= fs0.freereg
    requires reg == fs0.freereg && fs.freereg == fs0.freereg + 1
    ensures InOne(env, fs0, fs, ExpDesc(VNonReloc(reg), [], []), ex)
  {
    hide Follows, Sem;
  }

  /** The value stays in its register, where its exits are loaded too. */
  lemma StaysInReg(env: Env, fs0: Fs, d: Res, ex: Expr)
    requires Den(env, fs0, d.fs, d.e, ex) && d.e.k.VNonReloc? && d.e.k.r >= d.fs.nactvar
    ensures var r := d.e.k.r; InOne(env, fs0, Exp2Reg(d.fs, d.e, r).fs, Exp2Reg(d.fs, d.e, r).e, ex)
  {
    assert d.e.k.r == fs0.freereg && d.fs.freereg == fs0.freereg + 1;
    hide Sem, Follows, Exp2Reg;
    DenMean(env, fs0, d.fs, d.e, ex, d.fs.freereg);
    hide Den, Mean;
    Exp2RegDone(env, fs0, d.fs, d.e, d.e.k.r, ex);
    NotBelow(fs0.freereg);
    DoneDen(env, fs0, Exp2Reg(d.fs, d.e, d.e.k.r).fs, d.e.k.r, ex);
  }

  lemma Exp2AnyRegDen(env: Env, fs0: Fs, fs: Fs, e: ExpDesc, ex: Expr)
    requires Den(env, fs0, fs, e, ex)
    ensures var r := Exp2AnyReg(fs, e); InOne(env, fs0, r.fs, r.e, ex)
    ensures e.k.VNonReloc? && e.t == [] && e.f == [] ==> Exp2AnyReg(fs, e) == Res(fs, e)
  {
    DischargeVarsDen(env, fs0, fs, e, ex);
    var d := DischargeVars(fs, e);
    if d.e.k.VNonReloc? && !HasJumps(d.e) {
      hide Sem, Follows;
    } else {
      hide Den, Exp2NextReg, Exp2Reg, InOne, DischargeVars;
      if d.e.k.VNonReloc? && d.e.k.r >= d.fs.nactvar {
        StaysInReg(env, fs0, d, ex);
      } else {
        Exp2NextRegDen(env, fs0, d.fs, d.e, ex);
      }
    }
  }

  lemma Exp2RKDen(env: Env, fs0: Fs, fs: Fs, e: ExpDesc, ex: Expr)
    requires Den(env, fs0, fs, e, ex)
    ensures var r := Exp2RK(fs, e); InOne(env, fs0, r.fs, r.e, ex)
    ensures e.k.VNonReloc? && e.t == [] && e.f == [] ==> Exp2RK(fs, e) == Res(fs, e)
  {
    hide Den, Exp2AnyReg, DischargeVars;
    if HasJumps(e) {
      Exp2AnyRegDen(env, fs0, fs, e, ex);
      var v := Exp2AnyReg(fs, e);
      Exp2AnyRegDen(env, fs0, v.fs, v.e, ex);
    } else {
      DischargeVarsDen(env, fs0, fs, e, ex);
      var v := DischargeVars(fs, e);
      Exp2AnyRegDen(env, fs0, v.fs, v.e, ex);
    }
  }

  // ---------- `codenot` ----------

  lemma {:induction false} RemoveAppend(code: seq<Instr>, more: seq<Instr>, list: seq<nat>)
    requires forall x | x in list :: x <= |code|
    ensures RemoveValues(code + more, list) == RemoveValues(code, list) + more
    decreases |list|
  {
    if list != [] {
      var x := list[0];
      assert x in list && forall y | y in list[1..] :: y in list;
      assert PatchTestReg(code + more, x, NO_REG) == PatchTestReg(code, x, NO_REG) + more;
      RemoveAppend(PatchTestReg(code, x, NO_REG), more, list[1..]);
    }
  }

  function Removed(code: seq<Instr>, t: seq<nat>, f: seq<nat>): (r: seq<Instr>)
    ensures |r| == |code|
  {
    RemoveValues(RemoveValues(code, t), f)
  }

  lemma FollowsRemoved(fs0: Fs, code: seq<Instr>, t: seq<nat>, f: seq<nat>)
    requires Follows(fs0.code, fs0.jpc, code, []) && Shape(code, [], t + f, |fs0.code|)
    ensures Follows(fs0.code, fs0.jpc, Removed(code, t, f), [])
  {
    var n := |fs0.code|;
    var c1 := RemoveValues(code, t);
    var c := Removed(code, t, f);
    ExitsInCode2(code, [], t, f, n);
    forall i | 0 <= i < n ensures c[i] == code[i] {
      RemoveAllAt(code, t, i);
      RemoveAllAt(c1, f, i);
    }
    assert c[..n] == code[..n];
    FollowsChanged(fs0.code, fs0.jpc, code, [], c);
  }

  /** An instruction sequence at the end, and an expression with swapped exits before it. */
  lemma NotDen(env: Env, fs0: Fs, code: seq<Instr>, t: seq<nat>, f: seq<nat>, tail: Tail, a: Expr, tail': Tail)
    requires Sem(env, code, [], t, f, |fs0.code|, Below(fs0.freereg), tail, a) && Follows(fs0.code, fs0.jpc, code, [])
    requires forall R: Regs :: TailVal(env, tail', R) == Bool(!Truthy(TailVal(env, tail, R)))
    ensures var c := Removed(code, t, f);
      Follows(fs0.code, fs0.jpc, c, []) && Sem(env, c, [], f, t, |fs0.code|, Below(fs0.freereg), tail', Neg(a))
    ensures forall more :: RemoveValues(RemoveValues(code + more, t), f) == Removed(code, t, f) + more
  {
    NotSem(env, code, t, f, |fs0.code|, Below(fs0.freereg), tail, a, tail');
    FollowsRemoved(fs0, code, t, f);
    ExitsInCode2(code, [], t, f, |fs0.code|);
    forall more ensures RemoveValues(RemoveValues(code + more, t), f) == Removed(code, t, f) + more {
      RemoveAppend(code, more, t);
      RemoveAppend(RemoveValues(code, t), more, f);
    }
  }

  /** A description is put together from its parts. */
  lemma MakeDen(env: Env, fs0: Fs, fs: Fs, e: ExpDesc, code: seq<Instr>, tail: Tail, ex: Expr)
    requires Placed(fs, e) && (e.k.VReloc? || e.k.VJmp?) && Base(fs, e) == code && TailOf(fs, e) == tail && fs.jpc == []
    requires fs.nactvar == fs0.nactvar && fs.nactvar <= fs0.freereg == fs.freereg
    requires Follows(fs0.code, fs0.jpc, code, [])
    requires Sem(env, code, [], e.t, e.f, |fs0.code|, Below(fs0.freereg), tail, ex)
    ensures Den(env, fs0, fs, e, ex)
  {
    hide Sem, Follows;
  }

  lemma NotJmpDen(env: Env, fs0: Fs, fs: Fs, e: ExpDesc, a: Expr)
    requires Den(env, fs0, fs, e, a) && e.k.VJmp?
    ensures CodeNot(fs, e).fs == InvertJump(fs, e.k.pc).(code := Removed(InvertJump(fs, e.k.pc).code, e.t, e.f))
    ensures Den(env, fs0, CodeNot(fs, e).fs, CodeNot(fs, e).e, Neg(a))
  {
    var code := Base(fs, e);
    var i := fs.code[e.k.pc - 1];
    var j := Cmp(i.op, !i.cond, i.b, i.c);
    var tail' := Rel(i.op, !i.cond, i.b, i.c);
    var r := CodeNot(fs, e);
    var c := Removed(code, e.t, e.f);
    assert InvertJump(fs, e.k.pc).code == code + [j, Jmp(NO_JUMP)];
    NotDen(env, fs0, code, e.t, e.f, TailOf(fs, e), a, tail');
    assert RemoveValues(RemoveValues(code + [j, Jmp(NO_JUMP)], e.t), e.f) == c + [j, Jmp(NO_JUMP)];
    assert r.fs.code == c + [j, Jmp(NO_JUMP)] && r.e == ExpDesc(e.k, e.f, e.t);
    assert Base(r.fs, r.e) == c;
    hide Sem, Follows, Removed, CodeNot;
    MakeDen(env, fs0, r.fs, r.e, c, tail', Neg(a));
  }

  lemma NotRegDen(env: Env, fs0: Fs, fs: Fs, t: seq<nat>, f: seq<nat>, reg: nat, a: Expr, r: Fs)
    requires InReg(env, fs0, fs, t, f, Below(fs0.freereg), reg, a) && fs0.nactvar <= fs0.freereg
    requires r == Fs(Removed(Patched(fs.code, fs.jpc) + [Not(0, reg)], t, f), [], fs0.freereg, fs0.nactvar)
    ensures Den(env, fs0, r, ExpDesc(VReloc(|fs.code|), f, t), Neg(a))
  {
    var code := Patched(fs.code, fs.jpc);
    var c := Removed(code, t, f);
    PatchedSem(env, fs.code, fs.jpc, t, f, |fs0.code|, Below(fs0.freereg), Reg(reg), a);
    FollowsPatched(fs0.code, fs0.jpc, fs.code, fs.jpc, t + f);
    hide Sem, Follows, Patched;
    NotDen(env, fs0, code, t, f, Reg(reg), a, NotOf(reg));
    assert RemoveValues(RemoveValues(code + [Not(0, reg)], t), f) == c + [Not(0, reg)];
    assert r.code == c + [Not(0, reg)];
    hide Removed, InReg;
    MakeDen(env, fs0, r, ExpDesc(VReloc(|fs.code|), f, t), c, NotOf(reg), Neg(a));
  }

  lemma CodeNotDen(env: Env, fs0: Fs, fs: Fs, e: ExpDesc, a: Expr)
    requires Den(env, fs0, fs, e, a)
    ensures var r := CodeNot(fs, e); Den(env, fs0, r.fs, r.e, Neg(a))
  {
    DischargeVarsDen(env, fs0, fs, e, a);
    var d := DischargeVars(fs, e);
    NotOnce(fs, e);
    if d.e.k.VJmp? {
      hide Den, CodeNot;
      NotJmpDen(env, fs0, d.fs, d.e, a);
    } else {
      AnyRegDen(env, fs0, d.fs, d.e, a);
      assert fs0.nactvar <= fs0.freereg;
      var x := Discharge2AnyReg(d.fs, d.e);
      NotResult(d.fs, d.e, fs0.freereg);
      hide Den, CodeNot, Discharge2AnyReg, InReg, FreeExp, Removed;
      assert x.fs.nactvar == fs0.nactvar by { InRegNact(env, fs0, x.fs, d.e.t, d.e.f, Below(fs0.freereg), x.e.k.r, a); }
      NotRegDen(env, fs0, x.fs, d.e.t, d.e.f, x.e.k.r, a, CodeNot(d.fs, d.e).fs);
    }
  }

  lemma InRegNact(env: Env, fs0: Fs, fs: Fs, t: seq<nat>, f: seq<nat>, K: iset<nat>, reg: nat, ex: Expr)
    requires InReg(env, fs0, fs, t, f, K, reg, ex)
    ensures fs.nactvar == fs0.nactvar
  {}

  lemma NotOnce(fs: Fs, e: ExpDesc)
    ensures var d := DischargeVars(fs, e); CodeNot(d.fs, d.e) == CodeNot(fs, e)
  {
    hide RemoveValues, Discharge2AnyReg, Code, InvertJump, FreeExp;
  }

  lemma NotResult(fs: Fs, e: ExpDesc, n: nat)
    requires (e.k.VReloc? || e.k.VNonReloc?) && Discharge2AnyReg(fs, e).e.k.VNonReloc?
    requires var x := Discharge2AnyReg(fs, e); FreeExp(x.fs, x.e) == x.fs.(freereg := n) && x.e.t == e.t && x.e.f == e.f
    ensures var x := Discharge2AnyReg(fs, e);
      CodeNot(fs, e) == Res(
        Fs(Removed(Patched(x.fs.code, x.fs.jpc) + [Not(0, x.e.k.r)], e.t, e.f), [], n, x.fs.nactvar),
        ExpDesc(VReloc(|x.fs.code|), e.f, e.t))
  {
    hide RemoveValues, Discharge2AnyReg, FreeExp, PatchAll;
  }

  // ---------- `codecomp` ----------

  lemma RKSame(fs: Fs, e: ExpDesc)
    requires e.k.VNonReloc? && e.t == [] && e.f == []
    ensures Exp2RK(fs, e) == Res(fs, e)
  {}

  /** Both operands are in registers. */
  lemma CompDen(env: Env, fs0: Fs, fs1: Fs, e1: ExpDesc, a: Expr, fs2: Fs, e2: ExpDesc, b: Expr, rel: RelOp, r: Fs)
    requires InOne(env, fs0, fs1, e1, a) && InOne(env, fs1, fs2, e2, b) && Reads(env, b, Below(fs0.freereg))
    requires var tail := CmpTail(rel, e1.k.r, e2.k.r);
      r == Fs(Patched(fs2.code, fs2.jpc) + [Cmp(tail.op, tail.cond, tail.b, tail.c), Jmp(NO_JUMP)], [], fs0.freereg,
          fs0.nactvar)
    ensures Den(env, fs0, r, ExpDesc(VJmp(|r.code| - 1), [], []), Compare(rel, a, b))
  {
    var tail := CmpTail(rel, e1.k.r, e2.k.r);
    var code := Patched(fs2.code, fs2.jpc);
    var K := Below(fs0.freereg);
    assert K <= Below(fs1.freereg) && e1.k.r in Below(fs1.freereg);
    NoExits([]);
    FollowsTrans(fs0.code, fs0.jpc, fs1.code, fs1.jpc, [], fs2.code, fs2.jpc);
    CompareSem(env, fs1.code, fs1.jpc, |fs0.code|, K, e1.k.r, a, fs2.code, fs2.jpc, Below(fs1.freereg), e2.k.r, b, rel);
    assert fs0.nactvar <= fs0.freereg;
    hide Den, Follows, Below;
    PatchedSem(env, fs2.code, fs2.jpc, [], [], |fs0.code|, K, tail, Compare(rel, a, b));
    FollowsPatched(fs0.code, fs0.jpc, fs2.code, fs2.jpc, []);
    hide Sem, Patched;
    var e := ExpDesc(VJmp(|r.code| - 1), [], []);
    assert Base(r, e) == code;
    MakeDen(env, fs0, r, e, code, tail, Compare(rel, a, b));
  }

  function CmpInstr(rel: RelOp, r1: nat, r2: nat): Instr {
    var tail := CmpTail(rel, r1, r2);
    Cmp(tail.op, tail.cond, tail.b, tail.c)
  }

  lemma CompResult(fs: Fs, e1: ExpDesc, e2: ExpDesc, rel: RelOp, n: nat)
    requires e1.k.VNonReloc? && e1.t == [] && e1.f == []
    requires var x := Exp2RK(fs, e2); x.e.k.VNonReloc? && FreeExp(FreeExp(x.fs, x.e), e1) == x.fs.(freereg := n)
    ensures var x := Exp2RK(fs, e2);
      var r := Fs(Patched(x.fs.code, x.fs.jpc) + [CmpInstr(rel, e1.k.r, x.e.k.r), Jmp(NO_JUMP)], [], n, x.fs.nactvar);
      CodeComp(fs, OpOf(rel), CondOf(rel), e1, e2) == Res(r, ExpDesc(VJmp(|r.code| - 1), [], []))
  {
    RKSame(fs, e1);
    var x := Exp2RK(fs, e2);
    CondJumpIs(x.fs.(freereg := n), CmpInstr(rel, e1.k.r, x.e.k.r));
    hide Exp2RK, CondJump, FreeExp, Patched;
  }

  /** Both temporary registers are free again. */
  lemma BothFree(env: Env, fs0: Fs, fs1: Fs, e1: ExpDesc, a: Expr, fs2: Fs, e2: ExpDesc, b: Expr)
    requires InOne(env, fs0, fs1, e1, a) && InOne(env, fs1, fs2, e2, b)
    ensures FreeExp(FreeExp(fs2, e2), e1) == fs2.(freereg := fs0.freereg) && fs2.nactvar == fs0.nactvar
  {
    hide Sem, Follows;
  }

  lemma CodeCompDen(env: Env, fs0: Fs, fs1: Fs, e1: ExpDesc, a: Expr, fs2: Fs, e2: ExpDesc, b: Expr, rel: RelOp)
    requires InOne(env, fs0, fs1, e1, a) && Den(env, fs1, fs2, e2, b) && Reads(env, b, Below(fs0.freereg))
    ensures var r := CodeComp(fs2, OpOf(rel), CondOf(rel), e1, e2); Den(env, fs0, r.fs, r.e, Compare(rel, a, b))
  {
    var x := Exp2RK(fs2, e2);
    hide Den, Exp2RK, CodeComp, Reads, FreeExp, Below, Patched;
    Exp2RKDen(env, fs1, fs2, e2, b);
    BothFree(env, fs0, fs1, e1, a, x.fs, x.e, b);
    CompResult(fs2, e1, e2, rel, fs0.freereg);
    CompDen(env, fs0, fs1, e1, a, x.fs, x.e, b, rel, CodeComp(fs2, OpOf(rel), CondOf(rel), e1, e2).fs);
  }

  // ---------- whole expressions ----------

  lemma StartOf(env: Env, fs0: Fs, fs: Fs, e: ExpDesc, ex: Expr)
    requires InOne(env, fs0, fs, e, ex)
    ensures Start(fs)
  {
    StartAfter(fs.code, fs.jpc, e.t + e.f, |fs0.code|);
  }

  lemma StartGone(env: Env, fs0: Fs, fs: Fs, xs: seq<nat>, ex: Expr, go: bool)
    requires Gone(env, fs0, fs, xs, ex, go) && fs0.nactvar <= fs0.freereg
    ensures Start(fs)
  {
    StartAfter(fs.code, fs.jpc, xs, |fs0.code|);
  }

  /** A local variable or an upvalue: no code yet. */
  lemma LeafDen(env: Env, fs: Fs, k: Kind, ex: Expr)
    requires Start(fs)
    requires (k.VLocal? && k.r < fs.nactvar && ex == Local(k.r)) || (k.VUpval? && ex == Upvalue(k.idx))
    ensures Den(env, fs, fs, ExpDesc(k, [], []), ex)
  {
    var e := ExpDesc(k, [], []);
    NoExits([]);
    NoExits(fs.jpc);
    forall R: Regs ensures SemAt(env, fs.code, fs.jpc, [], [], |fs.code|, Below(fs.freereg), TailOf(fs, e), ex, R) {
      assert RunOf(env, fs.code, fs.jpc, [], |fs.code|, R) == Outcome(|fs.code|, R);
    }
  }

  lemma FirstExit(code: seq<Instr>, jpc: seq<nat>, xs: seq<nat>, from: nat)
    requires Shape(code, jpc, xs, from) && xs != []
    ensures from < |code|
  {
    assert xs[0] in xs;
  }

  lemma NoRoom(code: seq<Instr>, jpc: seq<nat>, t: seq<nat>, f: seq<nat>, from: nat)
    requires Shape(code, jpc, t + f, from) && |code| == from
    ensures t == [] && f == []
  {
    if t + f != [] { FirstExit(code, jpc, t + f, from); }
  }

  lemma JoinDen(env: Env, fs0: Fs, fs1: Fs, xs: seq<nat>, a: Expr, go: bool, fs2: Fs, e: ExpDesc, b: Expr)
    requires Gone(env, fs0, fs1, xs, a, go) && Den(env, fs1, fs2, e, b) && Reads(env, b, Below(fs0.freereg))
    ensures Den(env, fs0, fs2, e.(t := if go then e.t else e.t + xs, f := if go then e.f + xs else e.f),
                if go then Conj(a, b) else Disj(a, b))
  {
    var code := Base(fs2, e);
    FollowsTrans(fs0.code, fs0.jpc, fs1.code, fs1.jpc, xs, code, fs2.jpc);
    if code == fs1.code { NoRoom(code, fs2.jpc, e.t, e.f, |fs1.code|); }
    hide Sem, Follows, Go, Reads, Below;
    JoinSem(env, fs1.code, fs1.jpc, xs, |fs0.code|, Below(fs0.freereg), a, go, code, fs2.jpc, e.t, e.f,
        Below(fs1.freereg), TailOf(fs2, e), b);
    JoinParts(env, fs0, fs1, fs2, e, b, if go then e.t else e.t + xs, if go then e.f + xs
        else e.f, if go then Conj(a, b) else Disj(a, b));
  }

  lemma JoinParts(env: Env, fs0: Fs, fs1: Fs, fs2: Fs, e: ExpDesc, b: Expr, t: seq<nat>, f: seq<nat>, ex: Expr)
    requires Den(env, fs1, fs2, e, b) && fs1.nactvar == fs0.nactvar && fs1.freereg == fs0.freereg
    requires Follows(fs0.code, fs0.jpc, Base(fs2, e), fs2.jpc)
    requires Sem(env, Base(fs2, e), fs2.jpc, t, f, |fs0.code|, Below(fs0.freereg), TailOf(fs2, e), ex)
    ensures Den(env, fs0, fs2, e.(t := t, f := f), ex)
  {
    hide Sem, Follows;
    assert Base(fs2, e.(t := t, f := f)) == Base(fs2, e) && TailOf(fs2, e.(t := t, f := f)) == TailOf(fs2, e);
  }

  lemma StartNact(fs: Fs)
    requires Start(fs)
    ensures fs.nactvar <= fs.freereg
  {}

  lemma InOneNact(env: Env, fs0: Fs, fs: Fs, e: ExpDesc, ex: Expr)
    requires InOne(env, fs0, fs, e, ex)
    ensures fs.nactvar == fs0.nactvar
  {}

  lemma GoneNact(env: Env, fs0: Fs, fs: Fs, xs: seq<nat>, ex: Expr, go: bool)
    requires Gone(env, fs0, fs, xs, ex, go)
    ensures fs.nactvar == fs0.nactvar
  {}

  /** Every expression compiles to code that describes its value. */
  lemma {:induction false} CompileDen(env: Env, fs: Fs, ex: Expr)
    requires Start(fs) && Uses(ex, fs.nactvar)
    ensures var r := Compile(fs, ex); Den(env, fs, r.fs, r.e, ex)
    decreases ex, 0
  {
    StartNact(fs);
    hide Start, Den, Gone, InOne, CodeNot, GoIfTrue, GoIfFalse, DischargeVars, Exp2RK, CodeComp, Reads, Below;
    match ex
    case Local(r) => LeafDen(env, fs, VLocal(r), ex);
    case Upvalue(idx) => LeafDen(env, fs, VUpval(idx), ex);
    case Neg(a) =>
      CompileDen(env, fs, a);
      var x := Compile(fs, a);
      CodeNotDen(env, fs, x.fs, x.e, a);
    case Conj(a, b) =>
      CompileDen(env, fs, a);
      var x := Compile(fs, a);
      GoIfTrueGone(env, fs, x.fs, x.e, a);
      var g := GoIfTrue(x.fs, x.e);
      CompileSecond(env, fs, g.fs, g.e.f, a, true, b);
    case Disj(a, b) =>
      CompileDen(env, fs, a);
      var x := Compile(fs, a);
      GoIfFalseGone(env, fs, x.fs, x.e, a);
      var g := GoIfFalse(x.fs, x.e);
      CompileSecond(env, fs, g.fs, g.e.t, a, false, b);
    case Compare(rel, a, b) =>
      CompileDen(env, fs, a);
      var x := Compile(fs, a);
      Exp2RKDen(env, fs, x.fs, x.e, a);
      var v := Exp2RK(x.fs, x.e);
      CompileOther(env, fs, v.fs, v.e, a, b, rel);
  }

  lemma CompileSecond(env: Env, fs: Fs, g: Fs, xs: seq<nat>, a: Expr, go: bool, b: Expr)
    requires Gone(env, fs, g, xs, a, go) && fs.nactvar <= fs.freereg && Uses(b, fs.nactvar)
    ensures var y := Compile(g, b); var d := DischargeVars(y.fs, y.e);
      Den(env, fs, d.fs, d.e.(t := if go then d.e.t else d.e.t + xs, f := if go then d.e.f + xs else d.e.f),
          if go then Conj(a, b) else Disj(a, b))
    decreases b, 1
  {
    hide Start, Den, Gone, DischargeVars, Reads, Below;
    StartGone(env, fs, g, xs, a, go);
    GoneNact(env, fs, g, xs, a, go);
    CompileDen(env, g, b);
    var y := Compile(g, b);
    DischargeVarsDen(env, g, y.fs, y.e, b);
    var d := DischargeVars(y.fs, y.e);
    UsesBelow(env, b, fs.nactvar, fs.freereg);
    JoinDen(env, fs, g, xs, a, go, d.fs, d.e, b);
  }

  lemma CompileOther(env: Env, fs: Fs, g: Fs, e1: ExpDesc, a: Expr, b: Expr, rel: RelOp)
    requires InOne(env, fs, g, e1, a) && fs.nactvar <= fs.freereg && Uses(b, fs.nactvar)
    ensures var y := Compile(g, b); var r := CodeComp(y.fs, OpOf(rel), CondOf(rel), e1, y.e);
      Den(env, fs, r.fs, r.e, Compare(rel, a, b))
    decreases b, 1
  {
    hide Start, Den, CodeComp, Reads, Below, InOne, Uses;
    StartOf(env, fs, g, e1, a);
    InOneNact(env, fs, g, e1, a);
    CompileDen(env, g, b);
    var y := Compile(g, b);
    UsesBelow(env, b, fs.nactvar, fs.freereg);
    CodeCompDen(env, fs, g, e1, a, y.fs, y.e, b, rel);
  }

  // ---------- the result ----------

  /** The code after the next instruction has been emitted, up to that instruction. */
  function Finished(fs: Fs): seq<Instr> { Patched(fs.code, fs.jpc) }

  /** The finished code has no open jump, and no test without a register. */
  predicate NothingOpen(code: seq<Instr>, from: nat) {
    forall i | from <= i < |code| ::
      && (code[i].Jmp? ==> code[i].sbx >= 0 && i + 1 + code[i].sbx <= |code|)
      && (code[i].TestSet? ==> code[i].ra >= 0)
  }

  lemma DoneRuns(env: Env, fs0: Fs, fs: Fs, K: iset<nat>, reg: nat, ex: Expr, R: Regs)
    requires Done(env, fs0, fs, K, reg, ex)
    ensures var c := Finished(fs); var o := Exec(env, c, {}, |fs0.code|, R);
      && o.pc == |c| && Get(o.R, reg) == Eval(env, ex, R) && Keeps(K, R, o.R)
      && |fs0.code| <= |c| && c[..|fs0.code|] == Finished(fs0) && NothingOpen(c, |fs0.code|)
  {
    var from := |fs0.code|;
    var c := Finished(fs);
    NoExits([]);
    PatchedSem(env, fs.code, fs.jpc, [], [], from, K, Reg(reg), ex);
    FollowsPatched(fs0.code, fs0.jpc, fs.code, fs.jpc, []);
    assert Elems([]) + Elems([]) == {};
    assert Clean(c, {}, from);
    assert SemAt(env, c, [], [], [], from, K, Reg(reg), ex, R);
    hide Patched;
    assert c[..from] == Finished(fs0) by { if c == fs0.code { PatchNone(fs0.code); assert c[..from] == c; } }
  }

  /** An expression compiled into the next free register: run from its first instruction, the
      code comes to its end with the value of the expression in that register; all registers in
      use before keep their contents, and the code before is the same but for the jumps that led
      to the expression, which now have their target. */
  lemma NextRegRuns(env: Env, fs: Fs, ex: Expr, R: Regs)
    requires Start(fs) && Uses(ex, fs.nactvar)
    ensures var x := Compile(fs, ex); var r := Exp2NextReg(x.fs, x.e); var c := Finished(r.fs);
      var o := Exec(env, c, {}, |fs.code|, R);
      && r.e == ExpDesc(VNonReloc(fs.freereg), [], []) && r.fs.freereg == fs.freereg + 1
      && o.pc == |c| && Get(o.R, fs.freereg) == Eval(env, ex, R)
      && (forall q: nat | q < fs.freereg :: Get(o.R, q) == Get(R, q))
      && |fs.code| <= |c| && c[..|fs.code|] == Finished(fs) && NothingOpen(c, |fs.code|)
  {
    var x := Compile(fs, ex);
    var r := Exp2NextReg(x.fs, x.e);
    hide Start, Compile, Exp2NextReg, Finished, Eval, Exec, NothingOpen;
    CompileDen(env, fs, ex);
    Exp2NextRegDen(env, fs, x.fs, x.e, ex);
    InOneDone(env, fs, r.fs, r.e, ex);
    DoneRuns(env, fs, r.fs, Below(fs.freereg), fs.freereg, ex, R);
    hide Den, Done, InOne;
    var o := Exec(env, Finished(r.fs), {}, |fs.code|, R);
    forall q: nat | q < fs.freereg ensures Get(o.R, q) == Get(R, q) { assert q in Below(fs.freereg); }
  }

  lemma InOneDone(env: Env, fs0: Fs, fs: Fs, e: ExpDesc, ex: Expr)
    requires InOne(env, fs0, fs, e, ex) && e.k == VNonReloc(fs0.freereg)
    ensures Done(env, fs0, fs, Below(fs0.freereg), fs0.freereg, ex)
    ensures fs.freereg == fs0.freereg + 1 && e == ExpDesc(VNonReloc(fs0.freereg), [], [])
  {
    hide Sem, Follows;
  }

  /** An expression assigned to a local variable: every other register in use keeps its contents. */
  lemma StoreLocalRuns(env: Env, fs: Fs, ex: Expr, reg: nat, R: Regs)
    requires Start(fs) && Uses(ex, fs.nactvar) && reg < fs.nactvar
    ensures var x := Compile(fs, ex); var d := DischargeVars(x.fs, x.e); var r := StoreLocal(d.fs, d.e, reg);
      var c := Finished(r.fs); var o := Exec(env, c, {}, |fs.code|, R);
      && r.fs.freereg == fs.freereg
      && o.pc == |c| && Get(o.R, reg) == Eval(env, ex, R)
      && (forall q: nat | q < fs.freereg && q != reg :: Get(o.R, q) == Get(R, q))
      && |fs.code| <= |c| && c[..|fs.code|] == Finished(fs) && NothingOpen(c, |fs.code|)
  {
    var x := Compile(fs, ex);
    var d := DischargeVars(x.fs, x.e);
    var g := FreeExp(d.fs, d.e);
    hide Compile, Exp2Reg, DischargeVars, Finished, Eval, Exec, NothingOpen, FreeExp, Den, Mean, Done;
    CompileDen(env, fs, ex);
    DischargeVarsDen(env, fs, x.fs, x.e, ex);
    DenFrees(env, fs, d.fs, d.e, ex);
    DenMean(env, fs, d.fs, d.e, ex, fs.freereg);
    Exp2RegDone(env, fs, g, d.e, reg, ex);
    var r := Exp2Reg(g, d.e, reg);
    DoneRuns(env, fs, r.fs, Below(fs.freereg) - iset{reg}, reg, ex, R);
    var o := Exec(env, Finished(r.fs), {}, |fs.code|, R);
    forall q: nat | q < fs.freereg && q != reg
      ensures Get(o.R, q) == Get(R, q)
    {
      assert q in Below(fs.freereg) - iset{reg};
    }
  }
}
