/** The instructions that boolean expressions compile to, and the part of the virtual machine
    (`lvm.c`) that runs them. */
module CodeVm {

  const NO_JUMP: int := -1

  /** No register: the largest operand in the instruction format; registers are not bounded here. */
  const NO_REG: int := -1

  /** Lua values, as far as boolean expressions look at them. */
  datatype Val = Nil | Bool(b: bool) | Other(id: int)

  datatype CmpOp = EQ | LT | LE

  datatype Instr =
    | Move(a: nat, b: nat)
    | LoadBool(a: nat, v: bool, skip: bool)
    | GetUpval(a: nat, idx: nat)
    | Not(a: nat, b: nat)
    | Jmp(sbx: int)
    | Cmp(op: CmpOp, cond: bool, b: nat, c: nat)
    | Test(a: nat, flag: bool)
    | TestSet(ra: int, b: nat, flag: bool)

  predicate Truthy(v: Val) { v != Nil && v != Bool(false) }

  /** Registers; one that was never written holds nil. */
  type Regs = map<nat, Val>

  function Get(R: Regs, r: nat): Val { if r in R then R[r] else Nil }

  /** What the program cannot change while an expression is evaluated: how values compare, and
      the upvalues. Comparisons are those of values without metamethods. */
  datatype Env = Env(cmp: (CmpOp, Val, Val) -> bool, up: nat -> Val)

  datatype Outcome = Outcome(pc: nat, R: Regs)

  /** Instructions that are followed by the jump they control. */
  predicate TMode(i: Instr) { i.Cmp? || i.Test? || i.TestSet? }

  /** Does a test pass control to the jump behind it? */
  predicate Jumps(env: Env, i: Instr, R: Regs)
    requires TMode(i)
  {
    match i
    case Cmp(op, cond, b, c) => env.cmp(op, Get(R, b), Get(R, c)) == cond
    case Test(a, flag) => !Truthy(Get(R, a)) != flag
    case TestSet(_, b, flag) => !Truthy(Get(R, b)) != flag
  }

  /** The end of the code, a jump in `P`, or a jump backwards. */
  predicate Stops(code: seq<Instr>, P: set<nat>, pc: nat) {
    pc >= |code| || pc in P || (code[pc].Jmp? && code[pc].sbx < 0)
  }

  /** One instruction. A test that sets a register does not do so when it comes to a jump in `P`. */
  function Step(env: Env, code: seq<Instr>, P: set<nat>, pc: nat, R: Regs): (r: Outcome)
    requires !Stops(code, P, pc)
    ensures r.pc > pc
  {
    match code[pc]
    case Move(a, b) => Outcome(pc + 1, R[a := Get(R, b)])
    case LoadBool(a, v, skip) => Outcome(if skip then pc + 2 else pc + 1, R[a := Bool(v)])
    case GetUpval(a, idx) => Outcome(pc + 1, R[a := env.up(idx)])
    case Not(a, b) => Outcome(pc + 1, R[a := Bool(!Truthy(Get(R, b)))])
    case Jmp(sbx) => Outcome(pc + 1 + sbx, R)
    case Cmp(_, _, _, _) => Outcome(if Jumps(env, code[pc], R) then pc + 1 else pc + 2, R)
    case Test(_, _) => Outcome(if Jumps(env, code[pc], R) then pc + 1 else pc + 2, R)
    case TestSet(ra, b, _) =>
      if !Jumps(env, code[pc], R) then Outcome(pc + 2, R)
      else Outcome(pc + 1, if pc + 1 in P || ra < 0 then R else R[ra := Get(R, b)])
  }

  /** Runs the code from `pc` until it stops: at the end, or at a jump in `P`, whose target is not
      known yet. */
  function Exec(env: Env, code: seq<Instr>, P: set<nat>, pc: nat, R: Regs): Outcome
    decreases |code| - pc
  {
    if Stops(code, P, pc) then Outcome(pc, R) else
      var s := Step(env, code, P, pc, R);
      Exec(env, code, P, s.pc, s.R)
  }

  // ---------- what a run depends on ----------

  /** From `from` on, every test is followed by its jump. */
  predicate Paired(code: seq<Instr>, from: nat) {
    forall i | from <= i < |code| && TMode(code[i]) :: i + 1 < |code| && code[i + 1].Jmp?
  }

  /** From `pc` on, `other` extends `code`, and `Q` has the same jumps as `P`. */
  ghost predicate Extends(code: seq<Instr>, P: set<nat>, other: seq<Instr>, Q: set<nat>, pc: nat) {
    && |code| <= |other| && Paired(code, pc)
    && (forall i | pc <= i < |code| :: i in P <==> i in Q)
    && (forall i | pc <= i < |code| && i !in P :: other[i] == code[i])
  }

  /** A run of a prefix of the code can be continued in the whole code. */
  lemma {:induction false} ExecExtends(env: Env, code: seq<Instr>, P: set<nat>, other: seq<Instr>, Q: set<nat>,
                                       pc: nat, R: Regs)
    requires Extends(code, P, other, Q, pc)
    ensures var o := Exec(env, code, P, pc, R);
      Exec(env, other, Q, pc, R) == Exec(env, other, Q, o.pc, o.R)
    decreases |code| - pc
  {
    if !Stops(code, P, pc) {
      var s := Step(env, code, P, pc, R);
      assert Step(env, other, Q, pc, R) == s;
      ExecExtends(env, code, P, other, Q, s.pc, s.R);
    }
  }

  /** A run stops, ahead of where it started. */
  lemma {:induction false} ExecStops(env: Env, code: seq<Instr>, P: set<nat>, pc: nat, R: Regs)
    ensures var o := Exec(env, code, P, pc, R); o.pc >= pc && Stops(code, P, o.pc)
    decreases |code| - pc
  {
    if !Stops(code, P, pc) {
      var s := Step(env, code, P, pc, R);
      ExecStops(env, code, P, s.pc, s.R);
    }
  }

  /** Pending jumps before the start of a run do not matter. */
  lemma {:induction false} ExecLater(env: Env, code: seq<Instr>, P: set<nat>, Q: set<nat>, pc: nat, R: Regs)
    requires forall i | pc <= i :: i in P <==> i in Q
    ensures Exec(env, code, P, pc, R) == Exec(env, code, Q, pc, R)
    decreases |code| - pc
  {
    if !Stops(code, P, pc) {
      var s := Step(env, code, P, pc, R);
      ExecLater(env, code, P, Q, s.pc, s.R);
    }
  }
}
