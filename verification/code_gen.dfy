/** The code generator for boolean expressions (`lcode.c`), with jump lists as sequences. */
module CodeGen {
  import opened CodeVm

  datatype RelOp = Eq | Ne | Lt | Le | Gt | Ge

  /** Expressions whose operands are local variables and upvalues. */
  datatype Expr =
    | Local(r: nat)
    | Upvalue(idx: nat)
    | Neg(e: Expr)
    | Conj(left: Expr, right: Expr)
    | Disj(left: Expr, right: Expr)
    | Compare(rel: RelOp, left: Expr, right: Expr)

  /** The kinds of `expdesc` that occur: a local variable, an upvalue, a value in a fixed register,
      an instruction that can put its result anywhere, and a comparison followed by its jump. */
  datatype Kind = VLocal(r: nat) | VUpval(idx: nat) | VNonReloc(r: nat) | VReloc(pc: nat) | VJmp(pc: nat)

  /** `t` and `f` are the jumps that leave the expression when it is true, and when it is false. */
  datatype ExpDesc = ExpDesc(k: Kind, t: seq<nat>, f: seq<nat>)

  /** `jpc` holds the jumps to the next instruction. */
  datatype Fs = Fs(code: seq<Instr>, jpc: seq<nat>, freereg: nat, nactvar: nat)

  datatype Res = Res(fs: Fs, e: ExpDesc)

  // ---------- patching ----------

  /** The jump at `x` is controlled by a test that also sets a register. */
  predicate Valued(code: seq<Instr>, x: nat) { 1 <= x <= |code| && code[x - 1].TestSet? }

  /** `patchtestreg` */
  function PatchTestReg(code: seq<Instr>, x: nat, reg: int): (r: seq<Instr>)
    ensures |r| == |code|
  {
    if Valued(code, x) then
      var i := code[x - 1];
      code[x - 1 := if reg != NO_REG && reg != i.b then TestSet(reg, i.b, i.flag) else Test(i.b, i.flag)]
    else code
  }

  /** One round of `patchlistaux`. */
  function PatchOne(code: seq<Instr>, x: nat, vtarget: nat, reg: int, dtarget: nat): (r: seq<Instr>)
    requires x < |code|
    ensures |r| == |code|
  {
    PatchTestReg(code, x, reg)[x := Jmp((if Valued(code, x) then vtarget else dtarget) - (x + 1))]
  }

  /** `patchlistaux` */
  function PatchAll(code: seq<Instr>, list: seq<nat>, vtarget: nat, reg: int, dtarget: nat): (r: seq<Instr>)
    ensures |r| == |code|
    decreases |list|
  {
    if list == [] then code
    else if list[0] >= |code| then PatchAll(code, list[1..], vtarget, reg, dtarget)
    else PatchAll(PatchOne(code, list[0], vtarget, reg, dtarget), list[1..], vtarget, reg, dtarget)
  }

  /** `removevalues` */
  function RemoveValues(code: seq<Instr>, list: seq<nat>): (r: seq<Instr>)
    ensures |r| == |code|
    decreases |list|
  {
    if list == [] then code else RemoveValues(PatchTestReg(code, list[0], NO_REG), list[1..])
  }

  /** `need_value` */
  predicate NeedValue(code: seq<Instr>, list: seq<nat>) { exists x :: x in list && !Valued(code, x) }

  // ---------- emitting ----------

  /** `dischargejpc` */
  function DischargeJpc(fs: Fs): Fs {
    fs.(code := PatchAll(fs.code, fs.jpc, |fs.code|, NO_REG, |fs.code|), jpc := [])
  }

  /** `luaK_code` */
  function Code(fs: Fs, i: Instr): Fs {
    var d := DischargeJpc(fs);
    d.(code := d.code + [i])
  }

  /** `condjump`; its jump is the last instruction. */
  function CondJump(fs: Fs, i: Instr): Fs {
    var d := Code(fs, i);
    d.(code := d.code + [Jmp(NO_JUMP)])
  }

  /** `luaK_dischargevars` */
  function DischargeVars(fs: Fs, e: ExpDesc): Res {
    match e.k
    case VLocal(r) => Res(fs, e.(k := VNonReloc(r)))
    case VUpval(idx) => Res(Code(fs, GetUpval(0, idx)), e.(k := VReloc(|fs.code|)))
    case _ => Res(fs, e)
  }

  /** The instruction puts its result into `reg`. */
  function SetA(i: Instr, reg: nat): Instr {
    match i
    case Not(_, b) => Not(reg, b)
    case GetUpval(_, idx) => GetUpval(reg, idx)
    case _ => i
  }

  /** `discharge2reg` */
  function Discharge2Reg(fs: Fs, e: ExpDesc, reg: nat): Res {
    var d := DischargeVars(fs, e);
    match d.e.k
    case VReloc(pc) =>
      Res(if pc < |d.fs.code| then d.fs.(code := d.fs.code[pc := SetA(d.fs.code[pc], reg)])
          else d.fs, d.e.(k := VNonReloc(reg)))
    case VNonReloc(r) => Res(if reg != r then Code(d.fs, Move(reg, r)) else d.fs, d.e.(k := VNonReloc(reg)))
    case _ => d
  }

  /** `freeexp` */
  function FreeExp(fs: Fs, e: ExpDesc): Fs {
    if e.k.VNonReloc? && e.k.r >= fs.nactvar && fs.freereg > 0 then fs.(freereg := fs.freereg - 1) else fs
  }

  /** `discharge2anyreg` */
  function Discharge2AnyReg(fs: Fs, e: ExpDesc): Res {
    if e.k.VNonReloc? then Res(fs, e) else Discharge2Reg(fs.(freereg := fs.freereg + 1), e, fs.freereg)
  }

  predicate HasJumps(e: ExpDesc) { e.t != [] || e.f != [] }

  /** The part of `exp2reg` that makes jumps without a value load one. */
  function LoadBools(fs: Fs, jmp: bool, reg: nat): Fs {
    var fj := [|fs.code|] + fs.jpc;
    var d := if jmp then DischargeJpc(fs) else fs.(code := fs.code + [Jmp(NO_JUMP)], jpc := []);
    d.(code := d.code + [LoadBool(reg, false, true), LoadBool(reg, true, false)], jpc := if jmp then [] else fj)
  }

  /** The end of `exp2reg`: the jumps are patched, to the end or to an instruction that loads
      their value. */
  function PatchExits(fs: Fs, e: ExpDesc, reg: nat, pf: nat): Fs {
    fs.(code := PatchAll(PatchAll(fs.code, e.f, |fs.code|, reg, pf), e.t, |fs.code|, reg, pf + 1))
  }

  /** `exp2reg` */
  function Exp2Reg(fs: Fs, e: ExpDesc, reg: nat): Res {
    var d := Discharge2Reg(fs, e, reg);
    var jmp := d.e.k.VJmp?;
    var e1 := if jmp then d.e.(t := d.e.t + [d.e.k.pc]) else d.e;
    var r := ExpDesc(VNonReloc(reg), [], []);
    if !HasJumps(e1) then Res(d.fs, r)
    else if NeedValue(d.fs.code, e1.t) || NeedValue(d.fs.code, e1.f) then
      var l := LoadBools(d.fs, jmp, reg);
      Res(PatchExits(l, e1, reg, |l.code| - 2), r)
    else Res(PatchExits(d.fs, e1, reg, 0), r)
  }

  /** `luaK_exp2nextreg` */
  function Exp2NextReg(fs: Fs, e: ExpDesc): Res {
    var d := DischargeVars(fs, e);
    var g := FreeExp(d.fs, d.e);
    Exp2Reg(g.(freereg := g.freereg + 1), d.e, g.freereg)
  }

  /** `luaK_exp2anyreg` */
  function Exp2AnyReg(fs: Fs, e: ExpDesc): Res {
    var d := DischargeVars(fs, e);
    if d.e.k.VNonReloc? && !HasJumps(d.e) then d
    else if d.e.k.VNonReloc? && d.e.k.r >= d.fs.nactvar then Exp2Reg(d.fs, d.e, d.e.k.r)
    else Exp2NextReg(d.fs, d.e)
  }

  /** `luaK_exp2RK`, for an expression that is no constant */
  function Exp2RK(fs: Fs, e: ExpDesc): Res {
    var v := if HasJumps(e) then Exp2AnyReg(fs, e) else DischargeVars(fs, e);
    Exp2AnyReg(v.fs, v.e)
  }

  /** `luaK_storevar`, to a local variable */
  function StoreLocal(fs: Fs, e: ExpDesc, reg: nat): Res { Exp2Reg(FreeExp(fs, e), e, reg) }

  // ---------- operators ----------

  /** `invertjump`, on the comparison before the jump at `pc` */
  function InvertJump(fs: Fs, pc: nat): Fs {
    if 1 <= pc <= |fs.code| && fs.code[pc - 1].Cmp? then
      var i := fs.code[pc - 1];
      fs.(code := fs.code[pc - 1 := Cmp(i.op, !i.cond, i.b, i.c)])
    else fs
  }

  /** `jumponcond`; its jump is the last instruction. */
  function JumpOnCond(fs: Fs, e: ExpDesc, cond: bool): Fs {
    if e.k.VReloc? && e.k.pc < |fs.code| && fs.code[e.k.pc].Not? then
      CondJump(fs.(code := fs.code[..|fs.code| - 1]), Test(fs.code[e.k.pc].b, !cond))
    else
      var d := Discharge2AnyReg(fs, e);
      CondJump(FreeExp(d.fs, d.e), TestSet(NO_REG, if d.e.k.VNonReloc? then d.e.k.r else 0, cond))
  }

  /** `luaK_patchtohere` */
  function PatchToHere(fs: Fs, list: seq<nat>): Fs { fs.(jpc := fs.jpc + list) }

  /** `luaK_goiftrue` */
  function GoIfTrue(fs: Fs, e: ExpDesc): Res {
    var d := DischargeVars(fs, e);
    var g := if d.e.k.VJmp? then InvertJump(d.fs, d.e.k.pc) else JumpOnCond(d.fs, d.e, false);
    Res(PatchToHere(g, d.e.t), d.e.(t := [], f := d.e.f + [if d.e.k.VJmp? then d.e.k.pc else |g.code| - 1]))
  }

  /** `luaK_goiffalse` */
  function GoIfFalse(fs: Fs, e: ExpDesc): Res {
    var d := DischargeVars(fs, e);
    var g := if d.e.k.VJmp? then d.fs else JumpOnCond(d.fs, d.e, true);
    Res(PatchToHere(g, d.e.f), d.e.(f := [], t := d.e.t + [if d.e.k.VJmp? then d.e.k.pc else |g.code| - 1]))
  }

  /** `codenot` */
  function CodeNot(fs: Fs, e: ExpDesc): Res {
    var d := DischargeVars(fs, e);
    var r :=
      if d.e.k.VJmp? then Res(InvertJump(d.fs, d.e.k.pc), d.e)
      else
        var a := Discharge2AnyReg(d.fs, d.e);
        var g := FreeExp(a.fs, a.e);
        Res(Code(g, Not(0, if a.e.k.VNonReloc? then a.e.k.r else 0)), a.e.(k := VReloc(|g.code|)));
    var e1 := r.e.(t := r.e.f, f := r.e.t);
    Res(r.fs.(code := RemoveValues(RemoveValues(r.fs.code, e1.f), e1.t)), e1)
  }

  /** `codecomp` on two values in registers */
  function CodeComp(fs: Fs, op: CmpOp, cond: bool, e1: ExpDesc, e2: ExpDesc): Res {
    var a := Exp2RK(fs, e1);
    var b := Exp2RK(a.fs, e2);
    var o1 := if a.e.k.VNonReloc? then a.e.k.r else 0;
    var o2 := if b.e.k.VNonReloc? then b.e.k.r else 0;
    var g := FreeExp(FreeExp(b.fs, b.e), a.e);
    var i := if !cond && op != EQ then Cmp(op, true, o2, o1) else Cmp(op, cond, o1, o2);
    var c := CondJump(g, i);
    Res(c, ExpDesc(VJmp(|c.code| - 1), a.e.t, a.e.f))
  }

  function OpOf(rel: RelOp): CmpOp {
    match rel
    case Eq => EQ case Ne => EQ
    case Lt => LT case Gt => LT
    case Le => LE case Ge => LE
  }

  function CondOf(rel: RelOp): bool { rel == Eq || rel == Lt || rel == Le }

  /** What the parser does for an expression (`subexpr`, with `luaK_prefix`, `luaK_infix` and
      `luaK_posfix`). */
  function Compile(fs: Fs, ex: Expr): Res
    decreases ex
  {
    match ex
    case Local(r) => Res(fs, ExpDesc(VLocal(r), [], []))
    case Upvalue(idx) => Res(fs, ExpDesc(VUpval(idx), [], []))
    case Neg(a) => var x := Compile(fs, a); CodeNot(x.fs, x.e)
    case Conj(a, b) =>
      var x := Compile(fs, a);
      var g := GoIfTrue(x.fs, x.e);
      var y := Compile(g.fs, b);
      var d := DischargeVars(y.fs, y.e);
      Res(d.fs, d.e.(f := d.e.f + g.e.f))
    case Disj(a, b) =>
      var x := Compile(fs, a);
      var g := GoIfFalse(x.fs, x.e);
      var y := Compile(g.fs, b);
      var d := DischargeVars(y.fs, y.e);
      Res(d.fs, d.e.(t := d.e.t + g.e.t))
    case Compare(rel, a, b) =>
      var x := Compile(fs, a);
      var v := Exp2RK(x.fs, x.e);
      var y := Compile(v.fs, b);
      CodeComp(y.fs, OpOf(rel), CondOf(rel), v.e, y.e)
  }

  // ---------- meaning ----------

  function Eval(env: Env, ex: Expr, R: Regs): Val {
    match ex
    case Local(r) => Get(R, r)
    case Upvalue(idx) => env.up(idx)
    case Neg(a) => Bool(!Truthy(Eval(env, a, R)))
    case Conj(a, b) => var v := Eval(env, a, R); if Truthy(v) then Eval(env, b, R) else v
    case Disj(a, b) => var v := Eval(env, a, R); if Truthy(v) then v else Eval(env, b, R)
    case Compare(rel, a, b) =>
      var v, w := Eval(env, a, R), Eval(env, b, R);
      Bool(match rel
           case Eq => env.cmp(EQ, v, w) case Ne => !env.cmp(EQ, v, w)
           case Lt => env.cmp(LT, v, w) case Gt => env.cmp(LT, w, v)
           case Le => env.cmp(LE, v, w) case Ge => env.cmp(LE, w, v))
  }

  /** The expression uses active local variables only. */
  predicate Uses(ex: Expr, nactvar: nat) {
    match ex
    case Local(r) => r < nactvar
    case Upvalue(_) => true
    case Neg(a) => Uses(a, nactvar)
    case Conj(a, b) => Uses(a, nactvar) && Uses(b, nactvar)
    case Disj(a, b) => Uses(a, nactvar) && Uses(b, nactvar)
    case Compare(_, a, b) => Uses(a, nactvar) && Uses(b, nactvar)
  }
}
