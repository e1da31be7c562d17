/** Negation, sequencing, and the end of an expression, where its exits are patched. */
module CodeExits {
  import opened CodeVm
  import opened CodeGen
  import opened CodePatch
  import opened CodeSem

  // ---------- `not` ----------

  lemma RemoveAt(code: seq<Instr>, x: nat, i: nat)
    requires i < |code|
    ensures var c := PatchTestReg(code, x, NO_REG);
      && (i + 1 != x ==> c[i] == code[i])
      && (TMode(c[i]) <==> TMode(code[i])) && (c[i].Jmp? <==> code[i].Jmp?)
      && (c[i].LoadBool? || code[i].LoadBool? || c[i].Jmp? || c[i].TestSet? ==> c[i] == code[i])
      && !Valued(c, x) && (i + 1 != x ==> Valued(c, i + 1) == Valued(code, i + 1))
  {}

  lemma {:induction false} RemoveAllAt(code: seq<Instr>, list: seq<nat>, i: nat)
    requires i < |code|
    ensures var c := RemoveValues(code, list);
      && (i + 1 !in list ==> c[i] == code[i])
      && (TMode(c[i]) <==> TMode(code[i])) && (c[i].Jmp? <==> code[i].Jmp?)
      && (c[i].LoadBool? || code[i].LoadBool? || c[i].Jmp? || c[i].TestSet? ==> c[i] == code[i])
      && (Valued(c, i + 1) <==> Valued(code, i + 1) && i + 1 !in list)
    decreases |list|
  {
    if list != [] {
      RemoveAt(code, list[0], i);
      RemoveAllAt(PatchTestReg(code, list[0], NO_REG), list[1..], i);
      if i + 1 == list[0] && i + 1 !in list[1..] { assert Valued(code, i + 1) ==> code[i].TestSet?; }
    }
  }

  /** A test that does not set its register runs like one that would only do so at a jump whose
      target is not known. */
  lemma {:induction false} RemoveExec(env: Env, code: seq<Instr>, P: set<nat>, x: nat, pc: nat, R: Regs)
    requires x in P
    ensures Exec(env, PatchTestReg(code, x, NO_REG), P, pc, R) == Exec(env, code, P, pc, R)
    decreases |code| - pc
  {
    var c := PatchTestReg(code, x, NO_REG);
    if pc < |code| { RemoveAt(code, x, pc); }
    if !Stops(code, P, pc) {
      var s := Step(env, code, P, pc, R);
      assert Step(env, c, P, pc, R) == s;
      RemoveExec(env, code, P, x, s.pc, s.R);
    }
  }

  lemma {:induction false} RemoveAllExec(env: Env, code: seq<Instr>, P: set<nat>, list: seq<nat>, pc: nat, R: Regs)
    requires forall x | x in list :: x in P
    ensures Exec(env, RemoveValues(code, list), P, pc, R) == Exec(env, code, P, pc, R)
    decreases |list|
  {
    if list != [] {
      RemoveExec(env, code, P, list[0], pc, R);
      RemoveAllExec(env, PatchTestReg(code, list[0], NO_REG), P, list[1..], pc, R);
    }
  }

  /** Two codes that differ in what their tests do. */
  ghost predicate SameKinds(code: seq<Instr>, c: seq<Instr>) {
    && |c| == |code|
    && forall i | 0 <= i < |code| ::
      && (TMode(c[i]) <==> TMode(code[i]))
      && (c[i].LoadBool? || code[i].LoadBool? || c[i].Jmp? || code[i].Jmp? || c[i].TestSet? ==> c[i] == code[i])
  }

  lemma SameKindsClean(code: seq<Instr>, c: seq<Instr>, P: set<nat>, from: nat)
    requires SameKinds(code, c) && Clean(code, P, from)
    ensures Clean(c, P, from)
  {}

  lemma SameKindsShape(code: seq<Instr>, c: seq<Instr>, xs: seq<nat>, ys: seq<nat>, from: nat)
    requires SameKinds(code, c) && Shape(code, [], xs, from) && multiset(ys) == multiset(xs)
    ensures Shape(c, [], ys, from)
  {
    assert [] + xs == xs && [] + ys == ys;
    ElemsSame(xs, ys);
    SameKindsClean(code, c, Elems([]) + Elems(xs), from);
    hide Clean;
    forall y | y in ys ensures y in xs { assert y in Elems(ys); }
  }

  lemma RemoveKinds(code: seq<Instr>, list: seq<nat>)
    ensures SameKinds(code, RemoveValues(code, list))
  {
    forall i | 0 <= i < |code|
      ensures var c := RemoveValues(code, list);
        && (TMode(c[i]) <==> TMode(code[i]))
        && (c[i].LoadBool? || code[i].LoadBool? || c[i].Jmp? || code[i].Jmp? || c[i].TestSet? ==> c[i] == code[i])
    {
      RemoveAllAt(code, list, i);
    }
  }

  lemma RemoveBothRun(env: Env, code: seq<Instr>, t: seq<nat>, f: seq<nat>, from: nat, R: Regs)
    ensures RunOf(env, RemoveValues(RemoveValues(code, t), f), [], f + t, from, R)
        == RunOf(env, code, [], t + f, from, R)
  {
    ElemsSame(f + t, t + f);
    RemoveAllExec(env, code, Elems([]) + Elems(t + f), t, from, R);
    RemoveAllExec(env, RemoveValues(code, t), Elems([]) + Elems(t + f), f, from, R);
  }

  /** `not` swaps the exits, which have no values any more. */
  lemma NotSem(env: Env, code: seq<Instr>, t: seq<nat>, f: seq<nat>, from: nat, K: iset<nat>, tail: Tail, ex: Expr,
               tail': Tail)
    requires Sem(env, code, [], t, f, from, K, tail, ex)
    requires forall R: Regs :: TailVal(env, tail', R) == Bool(!Truthy(TailVal(env, tail, R)))
    ensures Sem(env, RemoveValues(RemoveValues(code, t), f), [], f, t, from, K, tail', Neg(ex))
  {
    var c1 := RemoveValues(code, t);
    var c := RemoveValues(c1, f);
    RemoveKinds(code, t);
    RemoveKinds(c1, f);
    SameKindsShape(code, c1, t + f, t + f, from);
    SameKindsShape(c1, c, t + f, f + t, from);
    ExitsInCode(code, t, f, from);
    forall x | x in t || x in f
      ensures !Valued(c, x) && x < |code|
    {
      ExitAfter(code, t, f, from, x);
      NotValued(code, t, f, x);
    }
    forall x | x in t ensures x !in f {
      assert Distinct(t + f) by { assert [] + (t + f) == t + f; }
      DistinctParts(t, f);
    }
    hide Shape, RemoveValues, Valued, SameKinds, Distinct;
    forall R: Regs ensures SemAt(env, c, [], f, t, from, K, tail', Neg(ex), R) {
      assert SemAt(env, code, [], t, f, from, K, tail, ex, R);
      RemoveBothRun(env, code, t, f, from, R);
      hide SemAt, RunOf;
      NotAt(env, code, c, t, f, from, K, tail, ex, tail', R, RunOf(env, code, [], t + f, from, R));
    }
  }

  lemma ExitAfter(code: seq<Instr>, t: seq<nat>, f: seq<nat>, from: nat, x: nat)
    requires Shape(code, [], t + f, from) && (x in t || x in f)
    ensures 0 < x < |code|
  {
    assert x in t + f;
  }

  lemma NotValued(code: seq<Instr>, t: seq<nat>, f: seq<nat>, x: nat)
    requires (x in t || x in f) && 0 < x < |code|
    ensures !Valued(RemoveValues(RemoveValues(code, t), f), x)
  {
    RemoveAllAt(code, t, x - 1);
    RemoveAllAt(RemoveValues(code, t), f, x - 1);
  }

  lemma NotAt(env: Env, code: seq<Instr>, c: seq<Instr>, t: seq<nat>, f: seq<nat>, from: nat, K: iset<nat>, tail: Tail,
              ex: Expr, tail': Tail, R: Regs, o: Outcome)
    requires SemAt(env, code, [], t, f, from, K, tail, ex, R)
    requires TailVal(env, tail', o.R) == Bool(!Truthy(TailVal(env, tail, o.R)))
    requires forall x | x in t || x in f :: !Valued(c, x)
    requires o == RunOf(env, code, [], t + f, from, R) && RunOf(env, c, [], f + t, from, R) == o && |c| == |code|
    requires forall x | x in t :: x !in f
    ensures SemAt(env, c, [], f, t, from, K, tail', Neg(ex), R)
  {
    hide RunOf, Keeps, TailVal, Valued;
  }

  // ---------- one expression after another ----------

  /** `code2` goes on after `code1`, whose jumps to the next instruction have got their target. If
      there is no new instruction then nothing has changed. */
  ghost predicate Follows(code1: seq<Instr>, jpc1: seq<nat>, code2: seq<Instr>, jpc2: seq<nat>) {
    || (code2 == code1 && jpc2 == jpc1)
    || (|code1| <= |code2| && code2[..|code1|] == Patched(code1, jpc1) && forall x | x in jpc2 :: x >= |code1|)
  }

  lemma SeqClean(c1: seq<Instr>, P1: set<nat>, from: nat, code2: seq<Instr>, P2: set<nat>, P: set<nat>)
    requires Clean(c1, P1, from) && Clean(code2, P2, |c1|) && |c1| <= |code2| && code2[..|c1|] == c1
    requires forall i | 0 <= i < |c1| :: i in P <==> i in P1
    requires forall i | |c1| <= i :: i in P <==> i in P2
    ensures Clean(code2, P, from)
  {
    assert forall i | 0 <= i < |c1| :: code2[i] == c1[i];
  }

  lemma SeqDistinct(n: nat, low: seq<nat>, jpc: seq<nat>, high: seq<nat>)
    requires Distinct(jpc + high) && Distinct(low)
    requires (forall x | x in low :: x < n) && (forall x | x in jpc || x in high :: x >= n)
    ensures Distinct(jpc + (high + low))
  {
    forall x ensures multiset(jpc + (high + low))[x] <= 1 {
      assert multiset(jpc + high)[x] <= 1 && multiset(low)[x] <= 1;
      if x < n { assert x !in jpc && x !in high; } else { assert x !in low; }
    }
  }

  lemma SeqShape(code1: seq<Instr>, jpc1: seq<nat>, xs1: seq<nat>, from: nat, code2: seq<Instr>, jpc2: seq<nat>,
                 xs2: seq<nat>)
    requires Shape(code1, jpc1, xs1, from) && Shape(code2, jpc2, xs2, |code1|) && Follows(code1, jpc1, code2, jpc2)
    requires code2 == code1 && jpc2 == jpc1 ==> xs2 == []
    ensures Shape(code2, jpc2, xs2 + xs1, from)
    ensures forall x | x in xs1 :: x < |code1| && code2[x - 1] == code1[x - 1] && Valued(code2, x) == Valued(code1, x)
  {
    if code2 == code1 && jpc2 == jpc1 {
      assert xs2 + xs1 == xs1;
    } else {
      var c1 := Patched(code1, jpc1);
      PatchedShape(code1, jpc1, xs1, from);
      assert [] + xs1 == xs1;
      forall x | x in xs1 ensures x < |code1| && code2[x - 1] == code1[x - 1] && Valued(code2, x) == Valued(code1, x) {
        assert code2[x - 1] == c1[x - 1] && code2[x] == c1[x];
      }
      SeqDistinct(|code1|, xs1, jpc2, xs2);
      SeqClean(c1, Elems([]) + Elems(xs1), from, code2, Elems(jpc2) + Elems(xs2), Elems(jpc2) + Elems(xs2 + xs1));
      assert Landing(code2, from) by { if from > 0 { assert code2[from - 1] == c1[from - 1]; } }
      hide Clean, Distinct, Patched, Valued;
      forall x | x in xs2 + xs1 ensures from < x < |code2| && code2[x] == Jmp(NO_JUMP) && TMode(code2[x - 1]) {
        if x in xs1 { assert code2[x] == c1[x] && code2[x - 1] == c1[x - 1]; }
      }
    }
  }

  /** Where a run of both parts stops, in terms of where the runs of the parts stop. */
  predicate SeqStop(o1: Outcome, xs1: seq<nat>, o2: Outcome, o: Outcome, code2: seq<Instr>, jpc2: seq<nat>) {
    if o1.pc in xs1 then o == o1
    else o.R == o2.R && (o.pc == o2.pc || (o2.pc == |code2| && o.pc in jpc2))
  }

  lemma SeqSets(xs1: seq<nat>, jpc2: seq<nat>, xs2: seq<nat>)
    ensures Elems(jpc2) + Elems(xs2 + xs1) == Elems([]) + Elems(xs1 + (jpc2 + xs2))
    ensures Elems(jpc2 + xs2) == Elems(jpc2) + Elems(xs2)
  {}

  lemma SeqMore(env: Env, c1: seq<Instr>, xs1: seq<nat>, from: nat, code2: seq<Instr>, jpc2: seq<nat>, xs2: seq<nat>,
                R: Regs)
    requires Shape(c1, [], xs1, from) && Shape(code2, jpc2, xs2, |c1|) && |c1| <= |code2| && code2[..|c1|] == c1
    requires forall x | x in jpc2 :: x >= |c1|
    ensures var r1 := RunOf(env, c1, [], xs1, from, R);
      RunOf(env, code2, jpc2, xs2 + xs1, from, R) == if r1.pc in xs1 then r1
          else RunOf(env, code2, jpc2, xs2, |c1|, r1.R)
  {
    var more := code2[|c1|..];
    assert c1 + more == code2;
    AppendRun(env, c1, xs1, from, more, jpc2 + xs2, R);
    SeqSets(xs1, jpc2, xs2);
    hide Elems, Exec, Shape;
  }

  lemma SeqRun(env: Env, code1: seq<Instr>, jpc1: seq<nat>, xs1: seq<nat>, from: nat, code2: seq<Instr>,
               jpc2: seq<nat>, xs2: seq<nat>, R: Regs)
    requires Shape(code1, jpc1, xs1, from) && Shape(code2, jpc2, xs2, |code1|) && Follows(code1, jpc1, code2, jpc2)
    requires code2 == code1 && jpc2 == jpc1 ==> xs2 == []
    ensures var o1 := RunOf(env, code1, jpc1, xs1, from, R);
      SeqStop(o1, xs1, RunOf(env, code2, jpc2, xs2, |code1|, o1.R), RunOf(env, code2, jpc2, xs2 + xs1, from, R), code2,
          jpc2)
  {
    RunStops(env, code1, jpc1, xs1, from, R);
    if code2 == code1 && jpc2 == jpc1 {
      assert xs2 + xs1 == xs1;
      hide Shape;
    } else {
      PatchedShape(code1, jpc1, xs1, from);
      PatchedRun(env, code1, jpc1, xs1, from, R);
      DistinctParts(jpc1, xs1);
      ExitsBelow(code1, jpc1, xs1, from);
      SeqMore(env, Patched(code1, jpc1), xs1, from, code2, jpc2, xs2, R);
      hide Shape, RunOf, Patched, Exec;
    }
  }

  lemma ExitsBelow(code: seq<Instr>, jpc: seq<nat>, xs: seq<nat>, from: nat)
    requires Shape(code, jpc, xs, from)
    ensures forall x | x in xs :: x < |code|
  {}

  lemma ShapePerm(code: seq<Instr>, jpc: seq<nat>, xs: seq<nat>, ys: seq<nat>, from: nat)
    requires Shape(code, jpc, xs, from) && multiset(ys) == multiset(xs)
    ensures Shape(code, jpc, ys, from)
  {
    ElemsSame(xs, ys);
    assert multiset(jpc + ys) == multiset(jpc + xs);
    hide Clean;
    forall y | y in ys ensures y in xs { assert y in Elems(ys); }
  }

  /** The value of an expression depends on the registers in `K` only. */
  ghost predicate Reads(env: Env, ex: Expr, K: iset<nat>) {
    forall R: Regs, W: Regs :: Keeps(K, R, W) ==> Eval(env, ex, W) == Eval(env, ex, R)
  }

  lemma KeepsTrans(K: iset<nat>, K2: iset<nat>, R: Regs, W: Regs, X: Regs)
    requires Keeps(K, R, W) && Keeps(K2, W, X) && K <= K2
    ensures Keeps(K, R, X)
  {}

  /** `and` and `or`: the second operand follows the first one, which went on. */
  lemma JoinSem(env: Env, code1: seq<Instr>, jpc1: seq<nat>, xs: seq<nat>, from: nat, K: iset<nat>, a: Expr, go: bool,
                code2: seq<Instr>, jpc2: seq<nat>, t: seq<nat>, f: seq<nat>, K2: iset<nat>, tail: Tail, b: Expr)
    requires Go(env, code1, jpc1, xs, from, K, a, go) && Sem(env, code2, jpc2, t, f, |code1|, K2, tail, b)
    requires Follows(code1, jpc1, code2, jpc2) && (code2 == code1 && jpc2 == jpc1 ==> t == [] && f == [])
    requires K <= K2 && Reads(env, b, K)
    ensures Sem(env, code2, jpc2, if go then t else t + xs, if go then f + xs else f, from, K, tail,
                if go then Conj(a, b) else Disj(a, b))
  {
    var t1 := if go then t else t + xs;
    var f1 := if go then f + xs else f;
    var ex := if go then Conj(a, b) else Disj(a, b);
    SeqShape(code1, jpc1, xs, from, code2, jpc2, t + f);
    assert multiset(t1 + f1) == multiset(t + f + xs);
    ShapePerm(code2, jpc2, t + f + xs, t1 + f1, from);
    ElemsSame(t1 + f1, t + f + xs);
    JoinApart(code1, jpc1, xs, from, code2, jpc2, t, f);
    hide Shape, Follows, Elems;
    forall R: Regs ensures SemAt(env, code2, jpc2, t1, f1, from, K, tail, ex, R) {
      assert GoAt(env, code1, jpc1, xs, from, K, a, go, R);
      var o1 := RunOf(env, code1, jpc1, xs, from, R);
      assert SemAt(env, code2, jpc2, t, f, |code1|, K2, tail, b, o1.R);
      SeqRun(env, code1, jpc1, xs, from, code2, jpc2, t + f, R);
      var o2 := RunOf(env, code2, jpc2, t + f, |code1|, o1.R);
      assert RunOf(env, code2, jpc2, t1 + f1, from, R) == RunOf(env, code2, jpc2, t + f + xs, from, R);
      assert Eval(env, b, o1.R) == Eval(env, b, R);
      ExecStops(env, code2, Elems(jpc2) + Elems(t + f), |code1|, o1.R);
      hide RunOf, SemAt, GoAt;
      JoinAt(env, code1, jpc1, xs, from, K, a, go, code2, jpc2, t, f, K2, tail, b, R, o1, o2);
    }
  }

  lemma JoinApart(code1: seq<Instr>, jpc1: seq<nat>, xs: seq<nat>, from: nat, code2: seq<Instr>, jpc2: seq<nat>,
                  t: seq<nat>, f: seq<nat>)
    requires Shape(code1, jpc1, xs, from) && Shape(code2, jpc2, t + f, |code1|) && Follows(code1, jpc1, code2, jpc2)
    ensures forall x | x in t || x in f :: x !in xs && |code1| < x < |code2| && x !in jpc2
    ensures forall x | x in xs :: 0 < x < |code1| && x !in jpc2
    ensures |code1| <= |code2|
  {
    DistinctParts(jpc2, t + f);
    DistinctParts(jpc1, xs);
    assert forall x | x in t || x in f :: x in t + f;
  }

  lemma JoinAt(env: Env, code1: seq<Instr>, jpc1: seq<nat>, xs: seq<nat>, from: nat, K: iset<nat>, a: Expr, go: bool,
               code2: seq<Instr>, jpc2: seq<nat>, t: seq<nat>, f: seq<nat>, K2: iset<nat>, tail: Tail, b: Expr,
               R: Regs, o1: Outcome, o2: Outcome)
    requires GoAt(env, code1, jpc1, xs, from, K, a, go, R) && SemAt(env, code2, jpc2, t, f, |code1|, K2, tail, b, o1.R)
    requires o1 == RunOf(env, code1, jpc1, xs, from, R) && o2 == RunOf(env, code2, jpc2, t + f, |code1|, o1.R)
    requires forall x | x in t || x in f :: x !in xs && |code1| < x < |code2| && x !in jpc2
    requires |code1| <= |code2| && |code1| <= o2.pc
    requires forall x | x in xs ::
      0 < x < |code1| && x !in jpc2 && code2[x - 1] == code1[x - 1] && Valued(code2, x) == Valued(code1, x)
    requires Eval(env, b, o1.R) == Eval(env, b, R) && K <= K2 && |code1| <= |code2|
    requires var o := RunOf(env, code2, jpc2, (if go then t else t + xs) + (if go then f + xs else f), from, R);
      SeqStop(o1, xs, o2, o, code2, jpc2)
    ensures SemAt(env, code2, jpc2, if go then t else t + xs, if go then f + xs else f, from, K, tail,
                  if go then Conj(a, b) else Disj(a, b), R)
  {
    var t1 := if go then t else t + xs;
    var f1 := if go then f + xs else f;
    var o := RunOf(env, code2, jpc2, t1 + f1, from, R);
    if o1.pc in xs {
      HoldsSame(code1, code2, o1.pc, o1.R, Eval(env, a, R), !go);
    } else {
      KeepsTrans(K, K2, R, o1.R, o2.R);
      JoinFalls(o2, o, t, f, xs, code1, code2, jpc2);
    }
    JoinDef(env, xs, from, K, a, go, code2, jpc2, t, f, t1, f1, tail, b, R, o1, o2, o);
  }

  /** Where the value is, when a run has stopped. */
  predicate AtStop(env: Env, code: seq<Instr>, jpc: seq<nat>, t: seq<nat>, f: seq<nat>, tail: Tail, o: Outcome,
                   v: Val) {
    if o.pc in t then Holds(code, o.pc, o.R, v, true)
    else if o.pc in f then Holds(code, o.pc, o.R, v, false)
    else Falls(code, jpc, o.pc) && TailVal(env, tail, o.R) == v
  }

  lemma JoinDef(env: Env, xs: seq<nat>, from: nat, K: iset<nat>, a: Expr, go: bool,
                code2: seq<Instr>, jpc2: seq<nat>, t: seq<nat>, f: seq<nat>, t1: seq<nat>, f1: seq<nat>, tail: Tail,
                    b: Expr,
                R: Regs, o1: Outcome, o2: Outcome, o: Outcome)
    requires t1 == (if go then t else t + xs) && f1 == (if go then f + xs else f)
    requires o == RunOf(env, code2, jpc2, t1 + f1, from, R) && Keeps(K, R, o.R)
    requires forall x | x in t || x in f :: x !in xs
    requires o1.pc in xs ==> o == o1 && Holds(code2, o1.pc, o1.R, Eval(env, a, R), !go)
    requires o1.pc !in xs ==>
      && Truthy(Eval(env, a, R)) == go && AtStop(env, code2, jpc2, t, f, tail, o2, Eval(env, b, R)) && o.R == o2.R
      && o.pc !in xs && (o.pc == o2.pc || (o2.pc !in t && o2.pc !in f && o.pc !in t && o.pc !in f))
      && (Falls(code2, jpc2, o2.pc) ==> Falls(code2, jpc2, o.pc))
    ensures SemAt(env, code2, jpc2, t1, f1, from, K, tail, if go then Conj(a, b) else Disj(a, b), R)
  {
    EvalJoin(env, a, b, go, R);
    if o1.pc in xs { HoldsTruth(code2, o1.pc, o1.R, Eval(env, a, R), !go); }
    hide RunOf, Keeps, TailVal, Falls, Holds, Eval, Truthy;
    assert o.pc in t1 <==> o.pc in t || (!go && o.pc in xs);
    assert o.pc in f1 <==> o.pc in f || (go && o.pc in xs);
  }

  /** The first operand decides, or the second one is the value. */
  lemma EvalJoin(env: Env, a: Expr, b: Expr, go: bool, R: Regs)
    ensures Eval(env, if go then Conj(a, b) else Disj(a, b), R) ==
      if Truthy(Eval(env, a, R)) == go then Eval(env, b, R) else Eval(env, a, R)
  {}

  lemma HoldsSame(code: seq<Instr>, c: seq<Instr>, x: nat, W: Regs, v: Val, truth: bool)
    requires Valued(c, x) == Valued(code, x) && 0 < x < |code| <= |c| && c[x - 1] == code[x - 1]
    ensures Holds(c, x, W, v, truth) == Holds(code, x, W, v, truth)
  {}

  lemma JoinFalls(o2: Outcome, o: Outcome, t: seq<nat>, f: seq<nat>, xs: seq<nat>, code1: seq<Instr>,
                  code2: seq<Instr>, jpc2: seq<nat>)
    requires o.pc == o2.pc || (o2.pc == |code2| && o.pc in jpc2)
    requires forall x | x in t || x in f :: |code1| < x < |code2| && x !in jpc2
    ensures (o.pc in t <==> o2.pc in t) && (o.pc in f <==> o2.pc in f)
    ensures Falls(code2, jpc2, o2.pc) ==> Falls(code2, jpc2, o.pc)
  {}
}
