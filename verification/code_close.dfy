/** Comparisons of two values in registers, and the end of an expression, where its exits get
    their targets (`exp2reg`). */
module CodeClose {
  import opened CodeVm
  import opened CodeGen
  import opened CodePatch
  import opened CodeSem
  import opened CodeExits

  lemma NoExits(a: seq<nat>)
    ensures [] + a == a && a + [] == a
  {}

  // ---------- comparisons ----------

  /** The instruction of a comparison, on the registers of its operands. */
  function CmpTail(rel: RelOp, r1: nat, r2: nat): Tail {
    if !CondOf(rel) && OpOf(rel) != EQ then Rel(OpOf(rel), true, r2, r1) else Rel(OpOf(rel), CondOf(rel), r1, r2)
  }

  lemma CompareSem(env: Env, code1: seq<Instr>, jpc1: seq<nat>, from: nat, K: iset<nat>, r1: nat, a: Expr,
                   code2: seq<Instr>, jpc2: seq<nat>, K2: iset<nat>, r2: nat, b: Expr, rel: RelOp)
    requires Sem(env, code1, jpc1, [], [], from, K, Reg(r1), a)
        && Sem(env, code2, jpc2, [], [], |code1|, K2, Reg(r2), b)
    requires Follows(code1, jpc1, code2, jpc2) && K <= K2 && r1 in K2 && Reads(env, b, K)
    ensures Sem(env, code2, jpc2, [], [], from, K, CmpTail(rel, r1, r2), Compare(rel, a, b))
  {
    NoExits([]);
    SeqShape(code1, jpc1, [], from, code2, jpc2, []);
    hide Shape, Follows, Eval, Keeps;
    forall R: Regs ensures SemAt(env, code2, jpc2, [], [], from, K, CmpTail(rel, r1, r2), Compare(rel, a, b), R) {
      assert SemAt(env, code1, jpc1, [], [], from, K, Reg(r1), a, R);
      var o1 := RunOf(env, code1, jpc1, [], from, R);
      assert SemAt(env, code2, jpc2, [], [], |code1|, K2, Reg(r2), b, o1.R);
      SeqRun(env, code1, jpc1, [], from, code2, jpc2, [], R);
      var o2 := RunOf(env, code2, jpc2, [], |code1|, o1.R);
      assert Eval(env, b, o1.R) == Eval(env, b, R);
      hide RunOf;
      KeepsTrans(K, K2, R, o1.R, o2.R);
      CompareValue(env, rel, r1, r2, a, b, R, K2, o1.R, o2.R);
    }
  }

  lemma CompareValue(env: Env, rel: RelOp, r1: nat, r2: nat, a: Expr, b: Expr, R: Regs, K2: iset<nat>, W1: Regs,
                     W2: Regs)
    requires r1 in K2 && Keeps(K2, W1, W2)
    requires Get(W1, r1) == Eval(env, a, R) && Get(W2, r2) == Eval(env, b, R)
    ensures TailVal(env, CmpTail(rel, r1, r2), W2) == Eval(env, Compare(rel, a, b), R)
  {}

  // ---------- the instructions that load booleans ----------

  const LOADS: nat := 2

  function Loads(reg: nat): seq<Instr> { [LoadBool(reg, false, true), LoadBool(reg, true, false)] }

  /** The code ends with these two instructions, which are entered by jumps only. */
  ghost predicate HasLoads(code: seq<Instr>, reg: nat, pf: nat) {
    |code| == pf + LOADS && code[pf..] == Loads(reg) && Landing(code, pf)
  }

  lemma LoadsShape(code: seq<Instr>, jpc: seq<nat>, xs: seq<nat>, from: nat, reg: nat)
    requires Shape(code, jpc, xs, from)
    ensures var c := code + [Jmp(NO_JUMP)] + Loads(reg);
        Shape(c, [|code|] + jpc, xs, from) && HasLoads(c, reg, |code| + 1)
  {
    var c := code + [Jmp(NO_JUMP)] + Loads(reg);
    var j := [|code|] + jpc;
    forall x ensures multiset(j + xs)[x] <= 1 {
      assert j + xs == [|code|] + (jpc + xs);
      assert multiset(jpc + xs)[x] <= 1;
      if x == |code| { assert x !in jpc + xs; }
    }
    assert c[|code| + 1..] == Loads(reg);
    LoadsClean(code, Elems(jpc) + Elems(xs), from, reg, Elems(j) + Elems(xs));
  }

  lemma LoadsClean(code: seq<Instr>, P: set<nat>, from: nat, reg: nat, Q: set<nat>)
    requires Clean(code, P, from) && Q == P + {|code|}
    ensures Clean(code + [Jmp(NO_JUMP)] + Loads(reg), Q, from)
  {}

  /** A jump over the two instructions is a jump to the next instruction. */
  lemma SkipLoads(env: Env, code: seq<Instr>, jpc: seq<nat>, t: seq<nat>, f: seq<nat>, from: nat, K: iset<nat>,
                  tail: Tail, ex: Expr, reg: nat)
    requires Sem(env, code, jpc, t, f, from, K, tail, ex)
    ensures Sem(env, code + [Jmp(NO_JUMP)] + Loads(reg), [|code|] + jpc, t, f, from, K, tail, ex)
    ensures HasLoads(code + [Jmp(NO_JUMP)] + Loads(reg), reg, |code| + 1)
  {
    var c := code + [Jmp(NO_JUMP)] + Loads(reg);
    var j := [|code|] + jpc;
    LoadsShape(code, jpc, t + f, from, reg);
    ExitsInCode2(code, jpc, t, f, from);
    assert c == code + ([Jmp(NO_JUMP)] + Loads(reg));
    hide HasLoads, Loads;
    forall R: Regs ensures SemAt(env, c, j, t, f, from, K, tail, ex, R) {
      assert SemAt(env, code, jpc, t, f, from, K, tail, ex, R);
      ExecExtends(env, code, Elems(jpc) + Elems(t + f), c, Elems(j) + Elems(t + f), from, R);
      RunStops(env, code, jpc, t + f, from, R);
      assert RunOf(env, c, j, t + f, from, R) == RunOf(env, code, jpc, t + f, from, R);
      hide Shape, RunOf, SemAt, Exec;
      SkipLoadsAt(env, code, jpc, t, f, from, K, tail, ex, [Jmp(NO_JUMP)] + Loads(reg), R);
    }
    hide Shape, SemAt;
  }

  /** A run that ends in the code ends there when more code follows, behind which it goes on. */
  lemma SkipLoadsAt(env: Env, code: seq<Instr>, jpc: seq<nat>, t: seq<nat>, f: seq<nat>, from: nat, K: iset<nat>,
                    tail: Tail, ex: Expr, more: seq<Instr>, R: Regs)
    requires SemAt(env, code, jpc, t, f, from, K, tail, ex, R)
    requires RunOf(env, code + more, [|code|] + jpc, t + f, from, R) == RunOf(env, code, jpc, t + f, from, R)
    requires forall y | y in t || y in f :: 0 < y < |code|
    ensures SemAt(env, code + more, [|code|] + jpc, t, f, from, K, tail, ex, R)
  {
    var o := RunOf(env, code, jpc, t + f, from, R);
    hide RunOf, Eval, TailVal;
    if o.pc in t || o.pc in f { AtExitAppend(code, more, t, f, t, f, o, Eval(env, ex, R)); }
  }

  lemma ExitsInCode2(code: seq<Instr>, jpc: seq<nat>, t: seq<nat>, f: seq<nat>, from: nat)
    requires Shape(code, jpc, t + f, from)
    ensures forall y | y in t || y in f :: y in t + f && from < y < |code| && y !in jpc && code[y] == Jmp(NO_JUMP)
  {
    DistinctParts(jpc, t + f);
    assert forall y | y in t || y in f :: y in t + f;
  }

  /** A comparison that is false goes on with the first of the two instructions. */
  lemma FallLoads(env: Env, code: seq<Instr>, t: seq<nat>, f: seq<nat>, from: nat, K: iset<nat>, ex: Expr, reg: nat)
    requires Both(env, code, t, f, from, K, ex, false, true)
    ensures Sem(env, code + Loads(reg), [], t, f, from, K - iset{reg}, Reg(reg), ex)
    ensures HasLoads(code + Loads(reg), reg, |code|)
  {
    var c := code + Loads(reg);
    FallShape(code, t + f, from, reg);
    ExitsInCode2(code, [], t, f, from);
    NoExits(t + f);
    hide HasLoads;
    forall R: Regs ensures SemAt(env, c, [], t, f, from, K - iset{reg}, Reg(reg), ex, R) {
      assert BothAt(env, code, t, f, from, K, ex, false, true, R);
      var o := RunOf(env, code, [], t + f, from, R);
      AppendRun(env, code, t + f, from, Loads(reg), [], R);
      LoadsStep(env, c, {}, |code|, reg, o.R);
      assert Elems([]) == {};
      hide Shape, RunOf, Eval, Exec, Both;
      if o.pc in t || o.pc in f { AtExitAppend(code, Loads(reg), t, f, t, f, o, Eval(env, ex, R)); }
    }
  }

  lemma FallShape(code: seq<Instr>, xs: seq<nat>, from: nat, reg: nat)
    requires Shape(code, [], xs, from)
    ensures Shape(code + Loads(reg), [], xs, from) && HasLoads(code + Loads(reg), reg, |code|)
  {
    var c := code + Loads(reg);
    assert c[|code|..] == Loads(reg);
    EndIsLanding(code, [], xs, from);
    FallClean(code, Elems([]) + Elems(xs), from, reg);
    forall i | 0 <= i < |code| ensures c[i] == code[i] {}
    hide Clean, Loads;
  }

  lemma FallClean(code: seq<Instr>, P: set<nat>, from: nat, reg: nat)
    requires Clean(code, P, from)
    ensures Clean(code + Loads(reg), P, from)
  {}

  lemma LoadsStep(env: Env, c: seq<Instr>, P: set<nat>, pf: nat, reg: nat, R: Regs)
    requires |c| == pf + LOADS && c[pf..] == Loads(reg) && pf !in P && pf + 1 !in P
    ensures Exec(env, c, P, pf, R) == Outcome(pf + LOADS, R[reg := Bool(false)])
    ensures Exec(env, c, P, pf + 1, R) == Outcome(pf + LOADS, R[reg := Bool(true)])
  {
    assert c[pf] == c[pf..][0] && c[pf + 1] == c[pf..][1];
    assert Step(env, c, P, pf, R) == Outcome(pf + 2, R[reg := Bool(false)]);
    assert Step(env, c, P, pf + 1, R) == Outcome(pf + 2, R[reg := Bool(true)]);
    assert Stops(c, P, pf + 2);
  }

  // ---------- the exits get their targets ----------

  /** Every exit has its value in a register, or there are instructions that load it. */
  ghost predicate Ready(code: seq<Instr>, list: seq<nat>, reg: nat, pf: nat) {
    HasLoads(code, reg, pf) || forall x | x in list :: Valued(code, x)
  }

  lemma ReadyPatchable(code: seq<Instr>, P: set<nat>, list: seq<nat>, reg: nat, pf: nat, dtarget: nat)
    requires Ready(code, list, reg, pf) && (dtarget == pf || dtarget == pf + 1)
    requires Distinct(list) && Landing(code, |code|)
    requires forall x | x in list :: x in P && x < |code| && code[x].Jmp?
    ensures AllPatchable(code, P, list, |code|, dtarget)
  {
    forall x | x in list ensures Patchable(code, P, x, |code|, dtarget) {
      if !Valued(code, x) {
        assert code[pf] == code[pf..][0] && code[pf + 1] == code[pf..][1];
      }
    }
  }

  /** The stop of a run when the exits in `list` have got their targets. */
  function Closed(code: seq<Instr>, list: seq<nat>, reg: nat, truth: bool, o: Outcome): Outcome {
    if o.pc in list then
      Outcome(|code|, if Valued(code, o.pc) then Written(code, o.pc, reg, o.R) else o.R[reg := Bool(truth)])
    else o
  }

  lemma CloseRun(env: Env, code: seq<Instr>, P: set<nat>, list: seq<nat>, reg: nat, pf: nat, truth: bool, from: nat,
                 R: Regs)
    requires Clean(code, P, from) && Landing(code, |code|) && Distinct(list) && Ready(code, list, reg, pf)
    requires forall x | x in list :: x in P && from < x < |code| && code[x].Jmp?
    requires forall x | x in P :: x < |code| && code[x].Jmp?
    ensures var dt := if truth then pf + 1 else pf; var c := PatchAll(code, list, |code|, reg, dt);
      Exec(env, c, P - Elems(list), from, R) == Closed(code, list, reg, truth, Exec(env, code, P, from, R))
  {
    var dt := if truth then pf + 1 else pf;
    var c := PatchAll(code, list, |code|, reg, dt);
    var Q := P - Elems(list);
    var o := Exec(env, code, P, from, R);
    ReadyPatchable(code, P, list, reg, pf, dt);
    ExecPatchAll(env, code, P, list, |code|, reg, dt, from, R);
    if o.pc in list && !Valued(code, o.pc) {
      assert HasLoads(code, reg, pf);
      LoadsStay(code, list, reg, dt, pf);
      NotPending(code, P, reg, pf);
      LoadsStep(env, c, Q, pf, reg, o.R);
    }
  }

  lemma NotPending(code: seq<Instr>, P: set<nat>, reg: nat, pf: nat)
    requires HasLoads(code, reg, pf) && forall x | x in P :: x < |code| && code[x].Jmp?
    ensures pf !in P && pf + 1 !in P
  {
    assert code[pf] == code[pf..][0] && code[pf + 1] == code[pf..][1];
  }

  lemma LoadsStay(code: seq<Instr>, list: seq<nat>, reg: nat, dt: nat, pf: nat)
    requires HasLoads(code, reg, pf) && forall x | x in list :: x < |code| && code[x].Jmp?
    ensures HasLoads(PatchAll(code, list, |code|, reg, dt), reg, pf)
  {
    var c := PatchAll(code, list, |code|, reg, dt);
    assert code[pf] == code[pf..][0] && code[pf + 1] == code[pf..][1];
    PatchAllAt(code, list, |code|, reg, dt, pf);
    PatchAllAt(code, list, |code|, reg, dt, pf + 1);
    if pf > 0 { PatchAllAt(code, list, |code|, reg, dt, pf - 1); }
    assert c[pf] == code[pf] && c[pf + 1] == code[pf + 1];
    assert c[pf..] == Loads(reg);
  }

  /** Patching one list leaves the other one as it was. */
  lemma OtherList(code: seq<Instr>, list: seq<nat>, other: seq<nat>, reg: nat, dt: nat)
    requires forall x | x in list :: x < |code| && code[x].Jmp?
    requires forall x | x in other :: 0 < x < |code| && code[x].Jmp? && x !in list && TMode(code[x - 1])
    ensures var c := PatchAll(code, list, |code|, reg, dt);
      forall x | x in other :: c[x] == code[x] && c[x - 1] == code[x - 1] && Valued(c, x) == Valued(code, x)
  {
    var c := PatchAll(code, list, |code|, reg, dt);
    forall x | x in other ensures c[x] == code[x] && c[x - 1] == code[x - 1] && Valued(c, x) == Valued(code, x) {
      PatchAllAt(code, list, |code|, reg, dt, x);
      PatchAllAt(code, list, |code|, reg, dt, x - 1);
      if x + 1 in list { assert !Valued(code, x + 1); }
    }
  }

  lemma JpcStays(code: seq<Instr>, list: seq<nat>, jpc: seq<nat>, reg: nat, dt: nat)
    requires forall x | x in list :: x < |code| && code[x].Jmp?
    requires forall x | x in jpc :: x < |code| && code[x].Jmp? && x !in list
    ensures var c := PatchAll(code, list, |code|, reg, dt); forall x | x in jpc :: c[x] == code[x]
    ensures var c := PatchAll(code, list, |code|, reg, dt);
        forall p: nat | p <= |code| :: Landing(c, p) == Landing(code, p)
  {
    var c := PatchAll(code, list, |code|, reg, dt);
    forall x | x in jpc ensures c[x] == code[x] {
      PatchAllAt(code, list, |code|, reg, dt, x);
      if x + 1 in list { assert !Valued(code, x + 1); }
    }
    forall p: nat | p <= |code| ensures Landing(c, p) == Landing(code, p) {
      if p > 0 { PatchAllAt(code, list, |code|, reg, dt, p - 1); }
    }
  }

  /** The code after the false exits, and then the true exits, have got their targets. */
  function CloseCode(code: seq<Instr>, t: seq<nat>, f: seq<nat>, reg: nat, pf: nat): (r: seq<Instr>)
    ensures |r| == |code|
  {
    PatchAll(PatchAll(code, f, |code|, reg, pf), t, |code|, reg, pf + 1)
  }

  ghost predicate MidOk(code: seq<Instr>, c: seq<Instr>, jpc: seq<nat>, t: seq<nat>, f: seq<nat>, from: nat, reg: nat,
                        pf: nat) {
    && |c| == |code| && Clean(c, Elems(jpc) + Elems(t + f) - Elems(f), from) && Ready(c, t, reg, pf)
    && (forall p: nat | p <= |code| :: Landing(c, p) == Landing(code, p))
    && (forall x | x in jpc :: x < |code| && c[x] == code[x])
    && (forall x | x in t ::
          0 < x < |code| && c[x] == code[x] && c[x - 1] == code[x - 1] && Valued(c, x) == Valued(code, x))
  }

  lemma CloseMid(code: seq<Instr>, jpc: seq<nat>, t: seq<nat>, f: seq<nat>, from: nat, reg: nat, pf: nat)
    requires Shape(code, jpc, t + f, from) && Ready(code, t + f, reg, pf)
    ensures forall x | x in jpc || x in t :: x < |code|
    ensures forall x | x in t :: x > 0
    ensures MidOk(code, PatchAll(code, f, |code|, reg, pf), jpc, t, f, from, reg, pf)
  {
    ExitsInCode2(code, jpc, t, f, from);
    EndIsLanding(code, jpc, t + f, from);
    DistinctParts(jpc, t + f);
    DistinctParts(t, f);
    assert forall x | x in t :: TMode(code[x - 1]) by { assert forall x | x in t :: x in t + f; }
    var P := Elems(jpc) + Elems(t + f);
    ReadyPatchable(code, P, f, reg, pf, pf) by { assert Ready(code, f, reg, pf); }
    CleanPatchAll(code, P, f, |code|, reg, pf, from);
    OtherList(code, f, t, reg, pf);
    JpcStays(code, f, jpc, reg, pf);
    if HasLoads(code, reg, pf) { LoadsStay(code, f, reg, pf, pf); }
  }

  lemma CloseShape(code: seq<Instr>, jpc: seq<nat>, t: seq<nat>, f: seq<nat>, from: nat, reg: nat, pf: nat)
    requires Shape(code, jpc, t + f, from) && Ready(code, t + f, reg, pf)
    ensures Shape(CloseCode(code, t, f, reg, pf), jpc, [], from)
  {
    CloseMid(code, jpc, t, f, from, reg, pf);
    ExitsInCode2(code, jpc, t, f, from);
    EndIsLanding(code, jpc, t + f, from);
    DistinctParts(jpc, t + f);
    DistinctParts(t, f);
    var c1 := PatchAll(code, f, |code|, reg, pf);
    var P1 := Elems(jpc) + Elems(t + f) - Elems(f);
    assert P1 == Elems(jpc) + Elems(t);
    ReadyPatchable(c1, P1, t, reg, pf, pf + 1);
    CleanPatchAll(c1, P1, t, |code|, reg, pf + 1, from);
    JpcStays(c1, t, jpc, reg, pf + 1);
    NoExits(jpc);
    assert P1 - Elems(t) == Elems(jpc) + Elems([]);
    hide Clean, Distinct, Elems, PatchAll, AllPatchable, Ready;
    MakeShape(CloseCode(code, t, f, reg, pf), jpc, [], from);
  }

  lemma CloseBoth(env: Env, code: seq<Instr>, jpc: seq<nat>, t: seq<nat>, f: seq<nat>, from: nat, reg: nat, pf: nat,
                  R: Regs)
    requires Shape(code, jpc, t + f, from) && Ready(code, t + f, reg, pf)
    ensures RunOf(env, CloseCode(code, t, f, reg, pf), jpc, [], from, R)
      == Closed(code, t, reg, true, Closed(code, f, reg, false, RunOf(env, code, jpc, t + f, from, R)))
  {
    CloseMid(code, jpc, t, f, from, reg, pf);
    ExitsInCode2(code, jpc, t, f, from);
    EndIsLanding(code, jpc, t + f, from);
    DistinctParts(jpc, t + f);
    DistinctParts(t, f);
    var c1 := PatchAll(code, f, |code|, reg, pf);
    var P := Elems(jpc) + Elems(t + f);
    var P1 := P - Elems(f);
    assert P1 == Elems(jpc) + Elems(t) && P1 - Elems(t) == Elems(jpc) + Elems([]);
    CloseRun(env, code, P, f, reg, pf, false, from, R) by { assert Ready(code, f, reg, pf); }
    CloseRun(env, c1, P1, t, reg, pf, true, from, R);
    hide Exec, Shape, Clean, Distinct, Ready;
    ClosedSame(code, c1, t, reg, Closed(code, f, reg, false, Exec(env, code, P, from, R)));
  }

  lemma ClosedSame(code: seq<Instr>, c: seq<Instr>, t: seq<nat>, reg: nat, o: Outcome)
    requires |c| == |code|
    requires forall x | x in t :: 0 < x < |code| && c[x - 1] == code[x - 1] && Valued(c, x) == Valued(code, x)
    ensures Closed(c, t, reg, true, o) == Closed(code, t, reg, true, o)
  {}

  /** `exp2reg`: when the exits have got their targets, every run comes to the end with the value
      in the register. */
  lemma CloseSem(env: Env, code: seq<Instr>, jpc: seq<nat>, t: seq<nat>, f: seq<nat>, from: nat, K: iset<nat>,
                 ex: Expr, reg: nat, pf: nat)
    requires Sem(env, code, jpc, t, f, from, K, Reg(reg), ex) && Ready(code, t + f, reg, pf)
    ensures Sem(env, CloseCode(code, t, f, reg, pf), jpc, [], [], from, K - iset{reg}, Reg(reg), ex)
  {
    var c := CloseCode(code, t, f, reg, pf);
    CloseShape(code, jpc, t, f, from, reg, pf);
    NoExits([]);
    ExitsInCode2(code, jpc, t, f, from);
    DistinctParts(jpc, t + f);
    DistinctParts(t, f);
    forall R: Regs ensures SemAt(env, c, jpc, [], [], from, K - iset{reg}, Reg(reg), ex, R) {
      assert SemAt(env, code, jpc, t, f, from, K, Reg(reg), ex, R);
      CloseBoth(env, code, jpc, t, f, from, reg, pf, R);
      hide Shape, RunOf, Eval, CloseCode;
      CloseAt(code, t, f, reg, RunOf(env, code, jpc, t + f, from, R), Eval(env, ex, R), K, R);
    }
  }

  lemma CloseAt(code: seq<Instr>, t: seq<nat>, f: seq<nat>, reg: nat, o: Outcome, v: Val, K: iset<nat>, R: Regs)
    requires Keeps(K, R, o.R) && forall x | x in t || x in f :: 0 < x < |code|
    requires forall x | x in t :: x !in f
    requires o.pc in t || o.pc in f ==> AtExit(code, t, f, o, v)
    ensures var o1 := Closed(code, t, reg, true, Closed(code, f, reg, false, o));
      && Keeps(K - iset{reg}, R, o1.R)
      && (o.pc in t || o.pc in f ==> o1.pc == |code| && Get(o1.R, reg) == v)
      && (o.pc !in t && o.pc !in f ==> o1 == o)
  {}
}
