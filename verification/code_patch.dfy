/** Patching jumps: what it does to the runs of the code. */
module CodePatch {
  import opened CodeVm
  import opened CodeGen

  function Elems(s: seq<nat>): set<nat> { set x | x in s }

  ghost predicate Distinct(s: seq<nat>) { forall x :: multiset(s)[x] <= 1 }

  lemma DistinctHead(s: seq<nat>)
    requires s != [] && Distinct(s)
    ensures s[0] !in s[1..] && Distinct(s[1..])
  {
    assert s == [s[0]] + s[1..];
    assert multiset(s)[s[0]] <= 1;
    forall x ensures multiset(s[1..])[x] <= 1 { assert multiset(s)[x] <= 1; }
  }

  /** Control does not come to `p` from the instruction before it if that is a test. */
  predicate Landing(code: seq<Instr>, p: nat) { p == 0 || p > |code| || !TMode(code[p - 1]) }

  /** From `from` on, the jumps that are not in `P` have their targets, and these lie ahead; a test
      without a register controls a jump in `P`. */
  ghost predicate Clean(code: seq<Instr>, P: set<nat>, from: nat) {
    && Paired(code, from)
    && (forall i | from <= i < |code| && code[i].Jmp? && i !in P ::
          code[i].sbx >= 0 && i + 1 + code[i].sbx <= |code| && Landing(code, i + 1 + code[i].sbx))
    && (forall i | from <= i < |code| && code[i].LoadBool? && code[i].skip :: i + 1 < |code| && !TMode(code[i + 1]))
    && (forall i | from <= i < |code| && code[i].TestSet? && code[i].ra < 0 :: i + 1 in P)
  }

  function Target(code: seq<Instr>, x: nat, vtarget: nat, dtarget: nat): nat {
    if Valued(code, x) then vtarget else dtarget
  }

  /** What a patched jump leaves in the registers. */
  function Written(code: seq<Instr>, x: nat, reg: int, R: Regs): Regs {
    if Valued(code, x) && reg >= 0 && reg != code[x - 1].b then R[reg := Get(R, code[x - 1].b)] else R
  }

  /** The jump at `x` is pending, and its target will be ahead of it. */
  ghost predicate Patchable(code: seq<Instr>, P: set<nat>, x: nat, vtarget: nat, dtarget: nat) {
    && x in P && x < |code| && code[x].Jmp?
    && x < Target(code, x, vtarget, dtarget) <= |code| && Landing(code, Target(code, x, vtarget, dtarget))
  }

  lemma PatchOneAt(code: seq<Instr>, x: nat, vtarget: nat, reg: int, dtarget: nat, i: nat)
    requires x < |code| && i < |code| && code[x].Jmp? && reg >= -1
    ensures var c := PatchOne(code, x, vtarget, reg, dtarget);
      && (i != x && (i + 1 != x || !Valued(code, x)) ==> c[i] == code[i])
      && c[x] == Jmp(Target(code, x, vtarget, dtarget) - (x + 1))
      && (TMode(c[i]) <==> TMode(code[i]))
      && (c[i].Jmp? <==> code[i].Jmp?)
      && (c[i].Jmp? && i != x ==> c[i] == code[i])
      && (c[i].LoadBool? ==> c[i] == code[i])
      && (c[i].TestSet? && c[i].ra < 0 ==> c[i] == code[i] && i + 1 != x)
  {}

  lemma CleanPatchOne(code: seq<Instr>, P: set<nat>, x: nat, vtarget: nat, reg: int, dtarget: nat, from: nat)
    requires Clean(code, P, from) && Patchable(code, P, x, vtarget, dtarget) && reg >= -1
    ensures Clean(PatchOne(code, x, vtarget, reg, dtarget), P - {x}, from)
  {
    var c := PatchOne(code, x, vtarget, reg, dtarget);
    forall i | 0 <= i < |code|
      ensures (TMode(c[i]) <==> TMode(code[i])) && (c[i].Jmp? <==> code[i].Jmp?)
      ensures c[i].Jmp? && i != x ==> c[i] == code[i]
      ensures c[i].LoadBool? ==> c[i] == code[i]
      ensures c[i].TestSet? && c[i].ra < 0 ==> c[i] == code[i] && i + 1 != x
    {
      PatchOneAt(code, x, vtarget, reg, dtarget, i);
    }
    PatchOneAt(code, x, vtarget, reg, dtarget, x);
    hide PatchOne, Valued, Target, TMode;
  }

  /** After a jump has been patched, a run that stopped there goes on at the target. */
  lemma {:induction false} ExecPatchOne(env: Env, code: seq<Instr>, P: set<nat>, x: nat, vtarget: nat, reg: int,
                                        dtarget: nat, pc: nat, R: Regs)
    requires Clean(code, P, pc) && Patchable(code, P, x, vtarget, dtarget) && reg >= -1
    requires pc == x ==> !Valued(code, x)
    ensures var c := PatchOne(code, x, vtarget, reg, dtarget); var o := Exec(env, code, P, pc, R);
      Exec(env, c, P - {x}, pc, R)
        == if o.pc == x then Exec(env, c, P - {x}, Target(code, x, vtarget, dtarget), Written(code, x, reg, o.R)) else o
    decreases |code| - pc
  {
    if Stops(code, P, pc) {
      PatchedStop(env, code, P, x, vtarget, reg, dtarget, pc, R);
    } else {
      var s := Step(env, code, P, pc, R);
      StepEnters(env, code, P, pc, R, x);
      if code[pc].TestSet? && pc + 1 == x && Jumps(env, code[pc], R) {
        PatchedEntry(env, code, P, x, vtarget, reg, dtarget, pc, R);
      } else {
        PatchedStep(env, code, P, x, vtarget, reg, dtarget, pc, R);
        hide Step, PatchOne, Stops, Valued, Target, Written, Clean, Patchable;
        ExecPatchOne(env, code, P, x, vtarget, reg, dtarget, s.pc, s.R);
      }
    }
  }

  /** A run that starts at the jump, or stops at once. */
  lemma PatchedStop(env: Env, code: seq<Instr>, P: set<nat>, x: nat, vtarget: nat, reg: int, dtarget: nat, pc: nat,
                    R: Regs)
    requires Patchable(code, P, x, vtarget, dtarget) && reg >= -1 && Stops(code, P, pc)
        && (pc == x ==> !Valued(code, x))
    ensures var c := PatchOne(code, x, vtarget, reg, dtarget);
      Exec(env, c, P - {x}, pc, R)
        == if pc == x then Exec(env, c, P - {x}, Target(code, x, vtarget, dtarget), Written(code, x, reg, R))
            else Outcome(pc, R)
  {
    if pc < |code| {
      PatchOneAt(code, x, vtarget, reg, dtarget, pc);
      PatchOneAt(code, x, vtarget, reg, dtarget, x);
    }
    hide PatchOne, Valued;
  }

  /** A test that sets a register comes to the jump it controls. */
  lemma PatchedEntry(env: Env, code: seq<Instr>, P: set<nat>, x: nat, vtarget: nat, reg: int, dtarget: nat, pc: nat,
                     R: Regs)
    requires Patchable(code, P, x, vtarget, dtarget) && reg >= -1 && !Stops(code, P, pc)
    requires code[pc].TestSet? && pc + 1 == x && Jumps(env, code[pc], R)
    ensures var c := PatchOne(code, x, vtarget, reg, dtarget);
      && Exec(env, code, P, pc, R) == Outcome(x, R)
      && Exec(env, c, P - {x}, pc, R) == Exec(env, c, P - {x}, Target(code, x, vtarget, dtarget),
          Written(code, x, reg, R))
  {
    var c := PatchOne(code, x, vtarget, reg, dtarget);
    PatchOneAt(code, x, vtarget, reg, dtarget, x);
    assert Step(env, c, P - {x}, pc, R) == Outcome(x, Written(code, x, reg, R));
  }

  lemma PatchedStep(env: Env, code: seq<Instr>, P: set<nat>, x: nat, vtarget: nat, reg: int, dtarget: nat, pc: nat,
                    R: Regs)
    requires Patchable(code, P, x, vtarget, dtarget) && reg >= -1 && !Stops(code, P, pc)
    requires !(code[pc].TestSet? && pc + 1 == x && Jumps(env, code[pc], R))
    ensures var c := PatchOne(code, x, vtarget, reg, dtarget);
      !Stops(c, P - {x}, pc) && Step(env, c, P - {x}, pc, R) == Step(env, code, P, pc, R)
  {
    PatchOneAt(code, x, vtarget, reg, dtarget, pc);
  }

  /** Nothing but a test leads to the jump it controls. */
  lemma StepEnters(env: Env, code: seq<Instr>, P: set<nat>, pc: nat, R: Regs, x: nat)
    requires Clean(code, P, pc) && !Stops(code, P, pc)
    ensures Clean(code, P, Step(env, code, P, pc, R).pc)
    ensures Step(env, code, P, pc, R).pc == x && Valued(code, x)
        ==> code[pc].TestSet? && pc + 1 == x && Jumps(env, code[pc], R)
  {}

  /** All jumps of a list are pending. */
  ghost predicate AllPatchable(code: seq<Instr>, P: set<nat>, list: seq<nat>, vtarget: nat, dtarget: nat) {
    Distinct(list) && forall x | x in list :: Patchable(code, P, x, vtarget, dtarget)
  }

  /** Patching one jump does not affect the others. */
  lemma PatchableRest(code: seq<Instr>, P: set<nat>, list: seq<nat>, vtarget: nat, reg: int, dtarget: nat)
    requires list != [] && list[0] < |code| && AllPatchable(code, P, list, vtarget, dtarget) && reg >= -1
    ensures var c := PatchOne(code, list[0], vtarget, reg, dtarget);
      && AllPatchable(c, P - {list[0]}, list[1..], vtarget, dtarget)
      && (forall y | y != list[0] :: Valued(c, y) == Valued(code, y))
      && (forall y | y != list[0] && Valued(code, y) :: c[y - 1] == code[y - 1])
  {
    var x := list[0];
    var c := PatchOne(code, x, vtarget, reg, dtarget);
    assert Patchable(code, P, x, vtarget, dtarget);
    forall i | 0 <= i < |code|
      ensures i != x && (i + 1 != x || !Valued(code, x)) ==> c[i] == code[i]
      ensures (TMode(c[i]) <==> TMode(code[i])) && (c[i].Jmp? <==> code[i].Jmp?)
    {
      PatchOneAt(code, x, vtarget, reg, dtarget, i);
    }
    forall y | y != x ensures Valued(c, y) == Valued(code, y) {}
    DistinctHead(list);
    forall y | y in list[1..] ensures Patchable(c, P - {x}, y, vtarget, dtarget) {
      assert y in list && Patchable(code, P, y, vtarget, dtarget);
    }
  }

  lemma {:induction false} CleanPatchAll(code: seq<Instr>, P: set<nat>, list: seq<nat>, vtarget: nat, reg: int,
                                         dtarget: nat, from: nat)
    requires Clean(code, P, from) && AllPatchable(code, P, list, vtarget, dtarget) && reg >= -1
    ensures Clean(PatchAll(code, list, vtarget, reg, dtarget), P - Elems(list), from)
    decreases |list|
  {
    if list != [] {
      var x := list[0];
      assert Patchable(code, P, x, vtarget, dtarget);
      CleanPatchOne(code, P, x, vtarget, reg, dtarget, from);
      PatchableRest(code, P, list, vtarget, reg, dtarget);
      CleanPatchAll(PatchOne(code, x, vtarget, reg, dtarget), P - {x}, list[1..], vtarget, reg, dtarget, from);
      assert P - Elems(list) == P - {x} - Elems(list[1..]);
    } else {
      assert P - Elems(list) == P;
    }
  }

  /** What patching leaves alone. */
  lemma {:induction false} PatchAllAt(code: seq<Instr>, list: seq<nat>, vtarget: nat, reg: int, dtarget: nat, i: nat)
    requires i < |code| && reg >= -1 && forall x | x in list :: x < |code| && code[x].Jmp?
    ensures var c := PatchAll(code, list, vtarget, reg, dtarget);
      && (i !in list && (i + 1 !in list || !Valued(code, i + 1)) ==> c[i] == code[i])
      && (TMode(c[i]) <==> TMode(code[i])) && (c[i].Jmp? <==> code[i].Jmp?)
      && (i + 1 !in list ==> Valued(c, i + 1) == Valued(code, i + 1))
    decreases |list|
  {
    if list != [] {
      var x := list[0];
      assert x in list;
      var c := PatchOne(code, x, vtarget, reg, dtarget);
      PatchOneAt(code, x, vtarget, reg, dtarget, i);
      forall y | y in list[1..]
        ensures y < |c| && c[y].Jmp?
      {
        assert y in list;
        PatchOneAt(code, x, vtarget, reg, dtarget, y);
      }
      PatchAllAt(c, list[1..], vtarget, reg, dtarget, i);
    }
  }

  lemma {:induction false} ExecPatchAll(env: Env, code: seq<Instr>, P: set<nat>, list: seq<nat>, vtarget: nat,
                                        reg: int, dtarget: nat, pc: nat, R: Regs)
    requires Clean(code, P, pc) && AllPatchable(code, P, list, vtarget, dtarget) && reg >= -1
    requires pc in list ==> !Valued(code, pc)
    ensures var c := PatchAll(code, list, vtarget, reg, dtarget); var Q := P - Elems(list);
        var o := Exec(env, code, P, pc, R);
      Exec(env, c, Q, pc, R)
        == if o.pc in list then Exec(env, c, Q, Target(code, o.pc, vtarget, dtarget), Written(code, o.pc, reg, o.R))
            else o
    decreases |list|
  {
    hide Clean, Distinct, Valued, PatchOne, Exec, Written, Target;
    if list == [] {
      assert P - Elems(list) == P;
    } else {
      var x := list[0];
      assert x in list && Patchable(code, P, x, vtarget, dtarget);
      var c := PatchOne(code, x, vtarget, reg, dtarget);
      CleanPatchOne(code, P, x, vtarget, reg, dtarget, pc);
      PatchableRest(code, P, list, vtarget, reg, dtarget);
      ExecPatchOne(env, code, P, x, vtarget, reg, dtarget, pc, R);
      assert P - Elems(list) == P - {x} - Elems(list[1..]);
      DistinctHead(list);
      assert forall y :: y in list <==> y == x || y in list[1..];
      hide AllPatchable, Patchable, Elems;
      var o := Exec(env, code, P, pc, R);
      ExecPatchAll(env, c, P - {x}, list[1..], vtarget, reg, dtarget, pc, R);
      if o.pc == x {
        var t := Target(code, x, vtarget, dtarget);
        var W := Written(code, x, reg, o.R);
        assert pc <= t by { ExecStops(env, code, P, pc, R); TargetAhead(code, P, x, vtarget, dtarget); }
        CleanLater(c, P - {x}, pc, t);
        TargetEnters(code, P, list, vtarget, reg, dtarget);
        ExecPatchAll(env, c, P - {x}, list[1..], vtarget, reg, dtarget, t, W);
      } else if o.pc in list {
        SameControl(code, c, o.pc, vtarget, reg, dtarget, o.R);
      }
    }
  }

  lemma TargetAhead(code: seq<Instr>, P: set<nat>, x: nat, vtarget: nat, dtarget: nat)
    requires Patchable(code, P, x, vtarget, dtarget)
    ensures x < Target(code, x, vtarget, dtarget)
  {}

  lemma SameControl(code: seq<Instr>, c: seq<Instr>, x: nat, vtarget: nat, reg: int, dtarget: nat, R: Regs)
    requires Valued(c, x) == Valued(code, x) && (Valued(code, x) ==> c[x - 1] == code[x - 1])
    ensures Target(c, x, vtarget, dtarget) == Target(code, x, vtarget, dtarget)
    ensures Written(c, x, reg, R) == Written(code, x, reg, R)
  {}

  lemma CleanLater(code: seq<Instr>, P: set<nat>, from: nat, later: nat)
    requires Clean(code, P, from) && from <= later
    ensures Clean(code, P, later)
  {}

  lemma TargetEnters(code: seq<Instr>, P: set<nat>, list: seq<nat>, vtarget: nat, reg: int, dtarget: nat)
    requires list != [] && list[0] < |code| && AllPatchable(code, P, list, vtarget, dtarget) && reg >= -1
    ensures var t := Target(code, list[0], vtarget, dtarget);
      t in list[1..] ==> !Valued(PatchOne(code, list[0], vtarget, reg, dtarget), t)
  {
    var x := list[0];
    assert Patchable(code, P, x, vtarget, dtarget);
    PatchableRest(code, P, list, vtarget, reg, dtarget);
  }
}
