/** What the code of an unfinished expression means, and how the steps of the generator keep it. */
module CodeSem {
  import opened CodeVm
  import opened CodeGen
  import opened CodePatch

  /** The value of an expression that is not in a register yet. */
  datatype Tail = Reg(r: nat) | NotOf(b: nat) | Up(idx: nat) | Rel(op: CmpOp, cond: bool, b: nat, c: nat)

  function TailVal(env: Env, tail: Tail, R: Regs): Val {
    match tail
    case Reg(r) => Get(R, r)
    case NotOf(b) => Bool(!Truthy(Get(R, b)))
    case Up(idx) => env.up(idx)
    case Rel(op, cond, b, c) => Bool(env.cmp(op, Get(R, b), Get(R, c)) == cond)
  }

  /** The code after `from`, with its pending jumps: those to the next instruction in `jpc`, and
      the exits `xs` of the expression, each of which follows a test. */
  ghost predicate Shape(code: seq<Instr>, jpc: seq<nat>, xs: seq<nat>, from: nat) {
    && from <= |code| && Landing(code, from)
    && Distinct(jpc + xs)
    && (forall x | x in jpc :: x < |code| && code[x] == Jmp(NO_JUMP))
    && (forall x | x in xs :: from < x < |code| && code[x] == Jmp(NO_JUMP) && TMode(code[x - 1]))
    && Clean(code, Elems(jpc) + Elems(xs), from)
  }

  /** A run from `from` stops at a pending jump or at the end. */
  function RunOf(env: Env, code: seq<Instr>, jpc: seq<nat>, xs: seq<nat>, from: nat, R: Regs): Outcome {
    Exec(env, code, Elems(jpc) + Elems(xs), from, R)
  }

  ghost predicate Keeps(K: iset<nat>, R: Regs, W: Regs) { forall r | r in K :: Get(W, r) == Get(R, r) }

  /** At an exit the value is at hand: a test that can set a register holds it, and otherwise it is
      the boolean that the exit stands for. */
  predicate Holds(code: seq<Instr>, x: nat, W: Regs, v: Val, truth: bool) {
    && Truthy(v) == truth
    && if Valued(code, x) then Get(W, code[x - 1].b) == v else v == Bool(truth)
  }

  /** A run has come to the end of the code, or to a jump that leads there. */
  predicate Falls(code: seq<Instr>, jpc: seq<nat>, pc: nat) { pc == |code| || pc in jpc }

  /** The meaning of the code of an expression with value `ex`: where a run from `from` stops, and
      with which value, and that registers in `K` keep their contents. */
  ghost predicate SemAt(env: Env, code: seq<Instr>, jpc: seq<nat>, t: seq<nat>, f: seq<nat>, from: nat,
                        K: iset<nat>, tail: Tail, ex: Expr, R: Regs) {
    var o := RunOf(env, code, jpc, t + f, from, R);
    var v := Eval(env, ex, R);
    && Keeps(K, R, o.R)
    && (if o.pc in t then Holds(code, o.pc, o.R, v, true)
        else if o.pc in f then Holds(code, o.pc, o.R, v, false)
        else Falls(code, jpc, o.pc) && TailVal(env, tail, o.R) == v)
  }

  ghost predicate Sem(env: Env, code: seq<Instr>, jpc: seq<nat>, t: seq<nat>, f: seq<nat>, from: nat,
                      K: iset<nat>, tail: Tail, ex: Expr) {
    && Shape(code, jpc, t + f, from)
    && forall R: Regs :: SemAt(env, code, jpc, t, f, from, K, tail, ex, R)
  }

  /** The meaning of code that goes on only if `ex` has the truth value `go`. */
  ghost predicate GoAt(env: Env, code: seq<Instr>, jpc: seq<nat>, xs: seq<nat>, from: nat,
                       K: iset<nat>, ex: Expr, go: bool, R: Regs) {
    var o := RunOf(env, code, jpc, xs, from, R);
    var v := Eval(env, ex, R);
    && Keeps(K, R, o.R)
    && (if o.pc in xs then Holds(code, o.pc, o.R, v, !go)
        else Falls(code, jpc, o.pc) && Truthy(v) == go)
  }

  ghost predicate Go(env: Env, code: seq<Instr>, jpc: seq<nat>, xs: seq<nat>, from: nat,
                     K: iset<nat>, ex: Expr, go: bool) {
    && Shape(code, jpc, xs, from)
    && forall R: Regs :: GoAt(env, code, jpc, xs, from, K, ex, go, R)
  }

  // ---------- the jumps to the next instruction get their target ----------

  function Patched(code: seq<Instr>, jpc: seq<nat>): (r: seq<Instr>)
    ensures |r| == |code|
  {
    PatchAll(code, jpc, |code|, NO_REG, |code|)
  }

  lemma EndIsLanding(code: seq<Instr>, jpc: seq<nat>, xs: seq<nat>, from: nat)
    requires Shape(code, jpc, xs, from)
    ensures Landing(code, |code|)
  {}

  lemma JpcPatchable(code: seq<Instr>, jpc: seq<nat>, xs: seq<nat>, from: nat)
    requires Shape(code, jpc, xs, from)
    ensures AllPatchable(code, Elems(jpc) + Elems(xs), jpc, |code|, |code|)
    ensures Elems(jpc) + Elems(xs) - Elems(jpc) == Elems([]) + Elems(xs)
  {
    EndIsLanding(code, jpc, xs, from);
    DistinctParts(jpc, xs);
    forall x | x in Elems(jpc) ensures x !in Elems(xs) {}
  }

  lemma DistinctParts(a: seq<nat>, b: seq<nat>)
    requires Distinct(a + b)
    ensures Distinct(a) && Distinct(b) && forall x | x in a :: x !in b
  {
    forall x ensures multiset(a)[x] + multiset(b)[x] <= 1 {
      assert multiset(a + b)[x] <= 1;
    }
    forall x | x in a ensures x !in b {
      assert multiset(a)[x] > 0;
    }
  }

  lemma MakeShape(code: seq<Instr>, jpc: seq<nat>, xs: seq<nat>, from: nat)
    requires from <= |code| && Landing(code, from) && Distinct(jpc + xs)
    requires forall x | x in jpc :: x < |code| && code[x] == Jmp(NO_JUMP)
    requires forall x | x in xs :: from < x < |code| && code[x] == Jmp(NO_JUMP) && TMode(code[x - 1])
    requires Clean(code, Elems(jpc) + Elems(xs), from)
    ensures Shape(code, jpc, xs, from)
  {
    hide Clean, Distinct, Elems;
  }

  lemma PatchedExit(code: seq<Instr>, jpc: seq<nat>, xs: seq<nat>, from: nat, x: nat)
    requires Shape(code, jpc, xs, from) && x in xs
    ensures var c := Patched(code, jpc);
      0 < x < |code| && c[x] == code[x] && c[x - 1] == code[x - 1] && Valued(c, x) == Valued(code, x)
  {
    DistinctParts(jpc, xs);
    PatchAllAt(code, jpc, |code|, NO_REG, |code|, x);
    PatchAllAt(code, jpc, |code|, NO_REG, |code|, x - 1);
    if x + 1 in jpc { assert !Valued(code, x + 1); }
    assert x - 1 !in jpc;
  }

  lemma PatchedShape(code: seq<Instr>, jpc: seq<nat>, xs: seq<nat>, from: nat)
    requires Shape(code, jpc, xs, from)
    ensures Shape(Patched(code, jpc), [], xs, from)
    ensures forall x | x in xs ::
      0 < x < |code| && Patched(code, jpc)[x - 1] == code[x - 1] && Valued(Patched(code, jpc), x) == Valued(code, x)
  {
    var P := Elems(jpc) + Elems(xs);
    var c := Patched(code, jpc);
    JpcPatchable(code, jpc, xs, from);
    CleanPatchAll(code, P, jpc, |code|, NO_REG, |code|, from);
    DistinctParts(jpc, xs);
    assert [] + xs == xs;
    hide Distinct;
    forall x | x in xs
      ensures 0 < x < |code| && c[x] == code[x] && c[x - 1] == code[x - 1] && Valued(c, x) == Valued(code, x)
    {
      PatchedExit(code, jpc, xs, from, x);
    }
    assert Landing(c, from) by { if from > 0 { PatchAllAt(code, jpc, |code|, NO_REG, |code|, from - 1); } }
    hide Clean, Distinct, PatchAll, Valued, Elems, Patched;
    MakeShape(c, [], xs, from);
  }

  /** A run of the patched code comes to the end where it came to one of the jumps before. */
  lemma PatchedRun(env: Env, code: seq<Instr>, jpc: seq<nat>, xs: seq<nat>, from: nat, R: Regs)
    requires Shape(code, jpc, xs, from)
    ensures var o := RunOf(env, code, jpc, xs, from, R);
      RunOf(env, Patched(code, jpc), [], xs, from, R) == if o.pc in jpc then Outcome(|code|, o.R) else o
  {
    var P := Elems(jpc) + Elems(xs);
    JpcPatchable(code, jpc, xs, from);
    assert from in jpc ==> !Valued(code, from);
    ExecPatchAll(env, code, P, jpc, |code|, NO_REG, |code|, from, R);
  }

  lemma PatchedSem(env: Env, code: seq<Instr>, jpc: seq<nat>, t: seq<nat>, f: seq<nat>, from: nat,
                   K: iset<nat>, tail: Tail, ex: Expr)
    requires Sem(env, code, jpc, t, f, from, K, tail, ex)
    ensures Sem(env, Patched(code, jpc), [], t, f, from, K, tail, ex)
  {
    PatchedShape(code, jpc, t + f, from);
    DistinctParts(jpc, t + f);
    assert forall x | x in t || x in f :: x in t + f;
    assert forall x | x in t || x in f :: x < |code| && x !in jpc;
    hide Shape, Distinct;
    forall R: Regs ensures SemAt(env, Patched(code, jpc), [], t, f, from, K, tail, ex, R) {
      assert SemAt(env, code, jpc, t, f, from, K, tail, ex, R);
      PatchedRun(env, code, jpc, t + f, from, R);
      hide SemAt;
      PatchedAt(env, code, Patched(code, jpc), jpc, t, f, from, K, tail, ex, R);
    }
  }

  lemma PatchedAt(env: Env, code: seq<Instr>, c: seq<Instr>, jpc: seq<nat>, t: seq<nat>, f: seq<nat>, from: nat,
                  K: iset<nat>, tail: Tail, ex: Expr, R: Regs)
    requires SemAt(env, code, jpc, t, f, from, K, tail, ex, R) && |c| == |code|
    requires forall x | x in t || x in f :: x in t + f && x < |code| && x !in jpc
    requires forall x | x in t + f :: 0 < x < |code| && c[x - 1] == code[x - 1] && Valued(c, x) == Valued(code, x)
    requires var o := RunOf(env, code, jpc, t + f, from, R);
      RunOf(env, c, [], t + f, from, R) == if o.pc in jpc then Outcome(|code|, o.R) else o
    ensures SemAt(env, c, [], t, f, from, K, tail, ex, R)
  {
    hide RunOf, Eval, TailVal, Keeps;
  }

  // ---------- instructions at the end ----------

  /** Instructions are appended after a part of the code without jumps to the next instruction. */
  lemma AppendRun(env: Env, code: seq<Instr>, xs: seq<nat>, from: nat, more: seq<Instr>, ys: seq<nat>, R: Regs)
    requires Shape(code, [], xs, from) && forall y | y in ys :: y >= |code|
    ensures var o := RunOf(env, code, [], xs, from, R);
      RunOf(env, code + more, [], xs + ys, from, R)
        == if o.pc in xs then o else Exec(env, code + more, Elems(ys), |code|, o.R)
    ensures var o := RunOf(env, code, [], xs, from, R); o.pc in xs || o.pc == |code|
  {
    var P := Elems([]) + Elems(xs);
    var Q := Elems([]) + Elems(xs + ys);
    var c := code + more;
    var o := RunOf(env, code, [], xs, from, R);
    ExecExtends(env, code, P, c, Q, from, R);
    RunStops(env, code, [], xs, from, R);
    if o.pc == |code| { ExecLater(env, c, Q, Elems(ys), |code|, o.R); }
  }

  /** A run of clean code stops at the end or at a pending jump. */
  lemma {:induction false} ExecWithin(env: Env, code: seq<Instr>, P: set<nat>, pc: nat, R: Regs)
    requires Clean(code, P, pc) && pc <= |code|
    ensures var o := Exec(env, code, P, pc, R); o.pc == |code| || (pc <= o.pc < |code| && o.pc in P)
    decreases |code| - pc
  {
    if !Stops(code, P, pc) {
      StepEnters(env, code, P, pc, R, 0);
      var s := Step(env, code, P, pc, R);
      assert s.pc <= |code|;
      ExecWithin(env, code, P, s.pc, s.R);
    }
  }

  lemma RunStops(env: Env, code: seq<Instr>, jpc: seq<nat>, xs: seq<nat>, from: nat, R: Regs)
    requires Shape(code, jpc, xs, from)
    ensures var o := RunOf(env, code, jpc, xs, from, R); o.pc in xs || Falls(code, jpc, o.pc)
  {
    ExecWithin(env, code, Elems(jpc) + Elems(xs), from, R);
  }

  /** The instruction that puts a value into a register. */
  function LoadInstr(tail: Tail, reg: nat): Instr {
    match tail
    case Reg(r) => Move(reg, r)
    case NotOf(b) => Not(reg, b)
    case Up(idx) => GetUpval(reg, idx)
    case Rel(_, _, b, _) => Move(reg, b)
  }

  lemma AppendShape(code: seq<Instr>, xs: seq<nat>, from: nat, i: Instr)
    requires Shape(code, [], xs, from) && (i.Move? || i.Not? || i.GetUpval? || (i.LoadBool? && !i.skip))
    ensures Shape(code + [i], [], xs, from)
  {}

  /** The value goes into a register. */
  lemma LoadSem(env: Env, code: seq<Instr>, t: seq<nat>, f: seq<nat>, from: nat, K: iset<nat>, tail: Tail, ex: Expr,
                reg: nat)
    requires Sem(env, code, [], t, f, from, K, tail, ex) && !tail.Rel?
    ensures Sem(env, code + [LoadInstr(tail, reg)], [], t, f, from, K - iset{reg}, Reg(reg), ex)
  {
    var i := LoadInstr(tail, reg);
    var c := code + [i];
    AppendShape(code, t + f, from, i);
    forall R: Regs ensures SemAt(env, c, [], t, f, from, K - iset{reg}, Reg(reg), ex, R) {
      assert SemAt(env, code, [], t, f, from, K, tail, ex, R);
      LoadAt(env, code, t, f, from, K, tail, ex, reg, R);
    }
  }

  lemma LoadAt(env: Env, code: seq<Instr>, t: seq<nat>, f: seq<nat>, from: nat, K: iset<nat>, tail: Tail, ex: Expr,
               reg: nat, R: Regs)
    requires Shape(code, [], t + f, from) && SemAt(env, code, [], t, f, from, K, tail, ex, R) && !tail.Rel?
    ensures SemAt(env, code + [LoadInstr(tail, reg)], [], t, f, from, K - iset{reg}, Reg(reg), ex, R)
  {
    var i := LoadInstr(tail, reg);
    ExitsInCode(code, t, f, from);
    AppendRun(env, code, t + f, from, [i], [], R);
    assert t + f + [] == t + f;
    var o := RunOf(env, code, [], t + f, from, R);
    LoadStep(env, code, tail, reg, o.R);
    hide Shape, RunOf, Eval, Exec, TailVal, LoadInstr;
    if o.pc in t || o.pc in f { AtExitAppend(code, [i], t, f, t, f, o, Eval(env, ex, R)); }
  }

  lemma LoadStep(env: Env, code: seq<Instr>, tail: Tail, reg: nat, R: Regs)
    requires !tail.Rel?
    ensures Exec(env, code + [LoadInstr(tail, reg)], Elems([]), |code|, R)
        == Outcome(|code| + 1, R[reg := TailVal(env, tail, R)])
  {
    var c := code + [LoadInstr(tail, reg)];
    assert !Stops(c, {}, |code|) && Elems([]) == {};
    var s := Step(env, c, {}, |code|, R);
    assert s == Outcome(|code| + 1, R[reg := TailVal(env, tail, R)]);
    assert Exec(env, c, {}, s.pc, s.R) == s;
  }

  // ---------- a test at the end ----------

  /** `i` jumps just when the value of the tail has not the truth value `go`; the jump has the value
      at hand. */
  ghost predicate Tests(env: Env, i: Instr, tail: Tail, go: bool) {
    && TMode(i)
    && (forall R: Regs :: Jumps(env, i, R) <==> Truthy(TailVal(env, tail, R)) != go)
    && (if i.TestSet? then tail == Reg(i.b) else tail.NotOf? || tail.Rel?)
  }

  /** The code of an expression both of whose lists are open, and which goes on if it has the truth
      value `go`; if `plain` is set, then with that boolean. */
  ghost predicate BothAt(env: Env, code: seq<Instr>, t: seq<nat>, f: seq<nat>, from: nat,
                         K: iset<nat>, ex: Expr, go: bool, plain: bool, R: Regs) {
    var o := RunOf(env, code, [], t + f, from, R);
    var v := Eval(env, ex, R);
    && Keeps(K, R, o.R)
    && (if o.pc in t then Holds(code, o.pc, o.R, v, true)
        else if o.pc in f then Holds(code, o.pc, o.R, v, false)
        else o.pc == |code| && Truthy(v) == go && (plain ==> v == Bool(go)))
  }

  ghost predicate Both(env: Env, code: seq<Instr>, t: seq<nat>, f: seq<nat>, from: nat,
                       K: iset<nat>, ex: Expr, go: bool, plain: bool) {
    && Shape(code, [], t + f, from)
    && forall R: Regs :: BothAt(env, code, t, f, from, K, ex, go, plain, R)
  }

  lemma TestShape(code: seq<Instr>, xs: seq<nat>, from: nat, i: Instr, ys: seq<nat>)
    requires Shape(code, [], xs, from) && TMode(i) && multiset(ys) == multiset(xs + [|code| + 1])
    ensures Shape(code + [i, Jmp(NO_JUMP)], [], ys, from)
  {
    var x := |code| + 1;
    var c := code + [i, Jmp(NO_JUMP)];
    assert [] + xs == xs && [] + ys == ys;
    forall y ensures y in ys <==> y in xs || y == x {
      assert y in ys <==> multiset(ys)[y] > 0;
      assert y in xs <==> multiset(xs)[y] > 0;
    }
    forall y ensures multiset(ys)[y] <= 1 {
      assert multiset(xs)[y] <= 1;
      if y == x { assert x !in xs; }
    }
    TestClean(code, Elems([]) + Elems(xs), from, i, Elems([]) + Elems(ys));
  }

  lemma TestClean(code: seq<Instr>, P: set<nat>, from: nat, i: Instr, Q: set<nat>)
    requires Clean(code, P, from) && TMode(i) && forall y | y < |code| :: y in P <==> y in Q
    requires |code| + 1 in Q
    ensures Clean(code + [i, Jmp(NO_JUMP)], Q, from)
  {}

  lemma TestStep(env: Env, code: seq<Instr>, i: Instr, R: Regs)
    requires TMode(i)
    ensures var c := code + [i, Jmp(NO_JUMP)];
      Exec(env, c, Elems([|code| + 1]), |code|, R) == Outcome(if Jumps(env, i, R) then |code| + 1 else |code| + 2, R)
  {
    var c := code + [i, Jmp(NO_JUMP)];
    var P := Elems([|code| + 1]);
    assert |code| + 1 in P && |code| !in P;
    assert !Stops(c, P, |code|);
    var s := Step(env, c, P, |code|, R);
    assert Stops(c, P, s.pc);
  }

  lemma ElemsSame(a: seq<nat>, b: seq<nat>)
    requires multiset(a) == multiset(b)
    ensures Elems(a) == Elems(b)
  {
    forall x ensures x in a <==> x in b {
      assert x in a <==> multiset(a)[x] > 0;
      assert x in b <==> multiset(b)[x] > 0;
    }
  }

  lemma TestRun(env: Env, code: seq<Instr>, xs: seq<nat>, ys: seq<nat>, from: nat, i: Instr, R: Regs)
    requires Shape(code, [], xs, from) && TMode(i) && multiset(ys) == multiset(xs + [|code| + 1])
    ensures var o := RunOf(env, code, [], xs, from, R);
      && (o.pc in xs || o.pc == |code|)
      && RunOf(env, code + [i, Jmp(NO_JUMP)], [], ys, from, R)
        == if o.pc in xs then o else Outcome(if Jumps(env, i, o.R) then |code| + 1 else |code| + 2, o.R)
  {
    AppendRun(env, code, xs, from, [i, Jmp(NO_JUMP)], [|code| + 1], R);
    ElemsSame(ys, xs + [|code| + 1]);
    TestStep(env, code, i, RunOf(env, code, [], xs, from, R).R);
  }

  lemma HoldsAppend(code: seq<Instr>, more: seq<Instr>, x: nat, W: Regs, v: Val, truth: bool)
    requires x < |code|
    ensures Holds(code + more, x, W, v, truth) == Holds(code, x, W, v, truth)
  {}

  lemma TestBoth(env: Env, code: seq<Instr>, t: seq<nat>, f: seq<nat>, from: nat, K: iset<nat>, tail: Tail, ex: Expr,
                 i: Instr, go: bool)
    requires Sem(env, code, [], t, f, from, K, tail, ex) && Tests(env, i, tail, go)
    ensures var c := code + [i, Jmp(NO_JUMP)]; var x := [|code| + 1];
      Both(env, c, if go then t else t + x, if go then f + x else f, from, K, ex, go, !i.TestSet?)
  {
    var c := code + [i, Jmp(NO_JUMP)];
    var x := |code| + 1;
    var t1 := if go then t else t + [x];
    var f1 := if go then f + [x] else f;
    var plain := !i.TestSet?;
    TestShape(code, t + f, from, i, t1 + f1);
    ExitsInCode(code, t, f, from);
    hide Shape, Tests;
    forall R: Regs ensures BothAt(env, c, t1, f1, from, K, ex, go, plain, R) {
      assert SemAt(env, code, [], t, f, from, K, tail, ex, R);
      hide SemAt, BothAt;
      TestBothAt(env, code, t, f, t1, f1, from, K, tail, ex, i, go, R);
    }
  }

  lemma ExitsInCode(code: seq<Instr>, t: seq<nat>, f: seq<nat>, from: nat)
    requires Shape(code, [], t + f, from)
    ensures forall y | y in t || y in f :: y in t + f && y < |code|
  {
    assert forall y | y in t || y in f :: y in t + f;
  }

  /** Where the value is, when a run has stopped at an exit. */
  predicate AtExit(code: seq<Instr>, t: seq<nat>, f: seq<nat>, o: Outcome, v: Val) {
    if o.pc in t then Holds(code, o.pc, o.R, v, true) else o.pc in f && Holds(code, o.pc, o.R, v, false)
  }

  lemma AtExitAppend(code: seq<Instr>, more: seq<Instr>, t: seq<nat>, f: seq<nat>, t1: seq<nat>, f1: seq<nat>,
                     o: Outcome, v: Val)
    requires AtExit(code, t, f, o, v) && o.pc < |code|
    requires o.pc in t1 <==> o.pc in t
    requires o.pc in f1 <==> o.pc in f
    ensures AtExit(code + more, t1, f1, o, v)
  {
    HoldsAppend(code, more, o.pc, o.R, v, o.pc in t);
  }

  lemma TestBothAt(env: Env, code: seq<Instr>, t: seq<nat>, f: seq<nat>, t1: seq<nat>, f1: seq<nat>, from: nat,
                   K: iset<nat>, tail: Tail, ex: Expr, i: Instr, go: bool, R: Regs)
    requires Shape(code, [], t + f, from) && Tests(env, i, tail, go)
    requires SemAt(env, code, [], t, f, from, K, tail, ex, R)
    requires forall y | y in t || y in f :: y in t + f && y < |code|
    requires t1 == (if go then t else t + [|code| + 1]) && f1 == (if go then f + [|code| + 1] else f)
    ensures BothAt(env, code + [i, Jmp(NO_JUMP)], t1, f1, from, K, ex, go, !i.TestSet?, R)
  {
    var x := |code| + 1;
    TestRun(env, code, t + f, t1 + f1, from, i, R);
    var o := RunOf(env, code, [], t + f, from, R);
    var o1 := RunOf(env, code + [i, Jmp(NO_JUMP)], [], t1 + f1, from, R);
    var v := Eval(env, ex, R);
    if o.pc in t || o.pc in f {
      AtExitAppend(code, [i, Jmp(NO_JUMP)], t, f, t1, f1, o, v);
    } else {
      TestValue(env, i, tail, go, o.R, x, code);
      assert o.pc == |code|;
    }
    TestBothDef(env, code, t, f, t1, f1, from, K, tail, ex, i, go, R, o, o1, v);
  }

  lemma TestBothDef(env: Env, code: seq<Instr>, t: seq<nat>, f: seq<nat>, t1: seq<nat>, f1: seq<nat>, from: nat,
                    K: iset<nat>, tail: Tail, ex: Expr, i: Instr, go: bool, R: Regs, o: Outcome, o1: Outcome, v: Val)
    requires TMode(i) && v == Eval(env, ex, R) && Keeps(K, R, o.R)
    requires o1 == RunOf(env, code + [i, Jmp(NO_JUMP)], [], t1 + f1, from, R)
    requires forall y | y in t || y in f :: y < |code|
    requires t1 == (if go then t else t + [|code| + 1]) && f1 == (if go then f + [|code| + 1] else f)
    requires o.pc in t || o.pc in f ==> o1 == o && AtExit(code + [i, Jmp(NO_JUMP)], t1, f1, o, v)
    requires o.pc !in t && o.pc !in f ==>
      && o1 == Outcome(if Jumps(env, i, o.R) then |code| + 1 else |code| + 2, o.R)
      && (Jumps(env, i, o.R) ==> Holds(code + [i, Jmp(NO_JUMP)], |code| + 1, o.R, v, !go))
      && (!Jumps(env, i, o.R) ==> Truthy(v) == go && (!i.TestSet? ==> v == Bool(go)))
    ensures BothAt(env, code + [i, Jmp(NO_JUMP)], t1, f1, from, K, ex, go, !i.TestSet?, R)
  {
    hide RunOf, Eval, Jumps, Holds, Keeps, Truthy;
  }

  lemma TestValue(env: Env, i: Instr, tail: Tail, go: bool, W: Regs, x: nat, code: seq<Instr>)
    requires Tests(env, i, tail, go) && x == |code| + 1
    ensures var v := TailVal(env, tail, W);
      && (Jumps(env, i, W) ==> Holds(code + [i, Jmp(NO_JUMP)], x, W, v, !go))
      && (!Jumps(env, i, W) ==> Truthy(v) == go && (!i.TestSet? ==> v == Bool(go)))
  {
    assert (code + [i, Jmp(NO_JUMP)])[x - 1] == i;
    assert Jumps(env, i, W) <==> Truthy(TailVal(env, tail, W)) != go;
  }

  /** One of the lists becomes the list of jumps to the next instruction. */
  lemma BothAtGo(env: Env, code: seq<Instr>, t: seq<nat>, f: seq<nat>, from: nat, K: iset<nat>, ex: Expr, go: bool,
                 plain: bool, jpc: seq<nat>, xs: seq<nat>, R: Regs)
    requires BothAt(env, code, t, f, from, K, ex, go, plain, R) && (forall x | x in t :: x !in f)
    requires jpc == (if go then t else f) && xs == (if go then f else t)
    requires RunOf(env, code, jpc, xs, from, R) == RunOf(env, code, [], t + f, from, R)
    ensures GoAt(env, code, jpc, xs, from, K, ex, go, R)
  {
    var o := RunOf(env, code, jpc, xs, from, R);
    if o.pc in jpc { HoldsTruth(code, o.pc, o.R, Eval(env, ex, R), go); }
    hide RunOf, Holds, Keeps, Eval, Truthy;
  }

  lemma HoldsTruth(code: seq<Instr>, x: nat, W: Regs, v: Val, truth: bool)
    ensures Holds(code, x, W, v, truth) ==> Truthy(v) == truth
  {}

  lemma BothGo(env: Env, code: seq<Instr>, t: seq<nat>, f: seq<nat>, from: nat, K: iset<nat>, ex: Expr, go: bool,
               plain: bool)
    requires Both(env, code, t, f, from, K, ex, go, plain)
    ensures Go(env, code, if go then t else f, if go then f else t, from, K, ex, go)
  {
    var jpc := if go then t else f;
    var xs := if go then f else t;
    DistinctParts([], t + f);
    DistinctParts(t, f);
    assert [] + (t + f) == t + f;
    ShapeMoves(code, t, f, from, jpc, xs);
    assert Elems(jpc) + Elems(xs) == Elems([]) + Elems(t + f);
    hide Shape, Distinct, Elems, Exec;
    forall R: Regs ensures GoAt(env, code, jpc, xs, from, K, ex, go, R) {
      assert BothAt(env, code, t, f, from, K, ex, go, plain, R);
      hide Both, BothAt, GoAt;
      BothAtGo(env, code, t, f, from, K, ex, go, plain, jpc, xs, R);
    }
    hide GoAt, Both;
  }

  lemma ShapeMoves(code: seq<Instr>, t: seq<nat>, f: seq<nat>, from: nat, jpc: seq<nat>, xs: seq<nat>)
    requires Shape(code, [], t + f, from) && ((jpc == t && xs == f) || (jpc == f && xs == t))
    ensures Shape(code, jpc, xs, from)
  {
    assert [] + (t + f) == t + f;
    assert forall y | y in t || y in f :: y in t + f;
    assert Elems(jpc) + Elems(xs) == Elems([]) + Elems(t + f);
    assert multiset(jpc + xs) == multiset(t + f);
  }
}
