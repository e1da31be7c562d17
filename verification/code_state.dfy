/** `FuncState` as it is: jump lists are threaded through the `sBx` fields of the jumps that are
    still without a target. Every method is proved against the function on sequences of the same
    name. */
module CodeState {
  import opened CodeVm
  import opened CodeGen
  import opened CodePatch
  import opened CodeSem
  import opened CodeExits
  import opened CodeClose
  import opened CodeProof
  import opened CodeMeaning

  /** Where the lists link a pending jump to the next one. */
  type Links = map<nat, nat>

  /** Only pending jumps are linked, and none to itself: that offset marks the end of a list. */
  ghost predicate Linked(code: seq<Instr>, link: Links) {
    forall x | x in link :: x < |code| && code[x] == Jmp(NO_JUMP) && link[x] != x
  }

  /** The instructions in memory. */
  function Threaded(code: seq<Instr>, link: Links): (r: seq<Instr>)
    ensures |r| == |code|
  {
    seq(|code|, i requires 0 <= i < |code| => if i in link then Jmp(link[i] - (i + 1)) else code[i])
  }

  /** From `head` the links lead through exactly the jumps in `s`. */
  ghost predicate Chain(link: Links, head: int, s: seq<nat>)
    decreases |s|
  {
    if s == [] then head == NO_JUMP
    else head == s[0] && if |s| == 1 then s[0] !in link else s[0] in link && Chain(link, link[s[0]], s[1..])
  }

  /** The jumps in `s` are pending. */
  ghost predicate Pending(code: seq<Instr>, s: seq<nat>) {
    forall x | x in s :: x < |code| && code[x] == Jmp(NO_JUMP)
  }

  /** `getjump` */
  function GetJump(code: seq<Instr>, pc: nat): int
    requires pc < |code| && code[pc].Jmp?
  {
    if code[pc].sbx == NO_JUMP then NO_JUMP else pc + 1 + code[pc].sbx
  }

  lemma GetJumpLink(code: seq<Instr>, link: Links, s: seq<nat>)
    requires Linked(code, link) && s != [] && Pending(code, s)
    ensures s[0] < |code| && Threaded(code, link)[s[0]].Jmp?
    ensures Chain(link, s[0], s) ==> Chain(link, GetJump(Threaded(code, link), s[0]), s[1..])
  {
    assert s[0] in s;
  }

  /** A list is the same when the links of its jumps are. */
  lemma {:induction false} ChainFrame(link: Links, other: Links, head: int, s: seq<nat>)
    requires Chain(link, head, s)
    requires forall x | x in s :: (x in other <==> x in link) && (x in link ==> other[x] == link[x])
    ensures Chain(other, head, s)
    decreases |s|
  {
    if |s| > 1 {
      assert s[0] in s && forall x | x in s[1..] :: x in s;
      ChainFrame(link, other, link[s[0]], s[1..]);
    } else if |s| == 1 {
      assert s[0] in s;
    }
  }

  lemma {:induction false} ChainConcat(link: Links, h1: int, s1: seq<nat>, h2: nat, s2: seq<nat>)
    requires Chain(link, h1, s1) && Chain(link, h2, s2) && s1 != [] && s2 != [] && Distinct(s1 + s2)
    ensures Chain(link[s1[|s1| - 1] := h2], h1, s1 + s2)
    decreases |s1|
  {
    var other := link[s1[|s1| - 1] := h2];
    var s := s1 + s2;
    assert s[0] == s1[0];
    if |s1| == 1 {
      assert s[1..] == s2;
      DistinctHead(s);
      ChainFrame(link, other, h2, s2);
    } else {
      assert s[1..] == s1[1..] + s2;
      DistinctHead(s);
      assert s1[1..][|s1| - 2] == s1[|s1| - 1] && s1[|s1| - 1] in s[1..];
      ChainConcat(link, link[s1[0]], s1[1..], h2, s2);
    }
  }

  lemma ThreadedLink(code: seq<Instr>, link: Links, x: nat, y: nat)
    requires x < |code|
    ensures Threaded(code, link)[x := Jmp(y - (x + 1))] == Threaded(code, link[x := y])
  {}

  lemma ThreadedMore(code: seq<Instr>, link: Links, more: seq<Instr>)
    requires Linked(code, link)
    ensures Threaded(code + more, link) == Threaded(code, link) + more && Linked(code + more, link)
  {}

  /** Tests are where they were. */
  lemma ThreadedTests(code: seq<Instr>, link: Links, x: nat)
    requires Linked(code, link)
    ensures Valued(Threaded(code, link), x) == Valued(code, x)
    ensures Valued(code, x) ==> Threaded(code, link)[x - 1] == code[x - 1]
    ensures PatchTestReg(Threaded(code, link), x, NO_REG) == Threaded(PatchTestReg(code, x, NO_REG), link)
    ensures Linked(PatchTestReg(code, x, NO_REG), link)
  {}

  lemma ThreadedPatch(code: seq<Instr>, link: Links, x: nat, vt: nat, reg: int, dt: nat)
    requires Linked(code, link) && x < |code|
    ensures PatchOne(Threaded(code, link), x, vt, reg, dt) == Threaded(PatchOne(code, x, vt, reg, dt), link - {x})
    ensures Linked(PatchOne(code, x, vt, reg, dt), link - {x})
  {
    assert Valued(Threaded(code, link), x) == Valued(code, x);
  }

  /** The links of all jumps but those in `s` are as they were. */
  ghost predicate LinksKept(link: Links, other: Links, s: set<nat>) {
    forall x | x !in s :: (x in other <==> x in link) && (x in link ==> other[x] == link[x])
  }

  class FuncState {
    var code: seq<Instr>
    var jpc: int
    var freereg: nat
    var nactvar: nat
    ghost var view: Fs
    ghost var link: Links

    ghost predicate Valid()
      reads this
    {
      && Linked(view.code, link) && code == Threaded(view.code, link)
      && freereg == view.freereg && nactvar == view.nactvar
      && Chain(link, jpc, view.jpc) && Distinct(view.jpc) && Pending(view.code, view.jpc)
    }

    /** A new function */
    constructor (params: nat)
      ensures Valid() && view == Fs([], [], params, params)
    {
      code, jpc, freereg, nactvar := [], NO_JUMP, params, params;
      view, link := Fs([], [], params, params), map[];
    }

    /** `luaK_concat`: the result is the concatenation of two lists. */
    method Concat(l1: int, l2: int, ghost s1: seq<nat>, ghost s2: seq<nat>) returns (l: int)
      requires Linked(view.code, link) && code == Threaded(view.code, link)
      requires Chain(link, l1, s1) && Chain(link, l2, s2) && Distinct(s1 + s2) && Pending(view.code, s1)
      modifies `code, `link
      ensures Linked(view.code, link) && code == Threaded(view.code, link)
      ensures Chain(link, l, s1 + s2) && LinksKept(old(link), link, Elems(s1))
    {
      assert s1 + [] == s1 && [] + s2 == s2;
      if l2 == NO_JUMP { return l1; }
      if l1 == NO_JUMP { return l2; }
      var list := l1;
      ghost var done: nat := 0;
      assert s1[0..] == s1;
      GetJumpLink(view.code, link, s1);
      var next := GetJump(code, list);
      while next != NO_JUMP
        invariant code == old(code) && link == old(link) && view == old(view)
        invariant done < |s1| && Chain(link, list, s1[done..]) && Chain(link, next, s1[done + 1..])
        decreases |s1| - done
      {
        done := done + 1;
        list := next;
        assert s1[done..][1..] == s1[done + 1..];
        assert Pending(view.code, s1[done..]) by { assert forall x | x in s1[done..] :: x in s1; }
        GetJumpLink(view.code, link, s1[done..]);
        next := GetJump(code, list);
      }
      assert done == |s1| - 1 && list == s1[|s1| - 1] && list in s1;
      ChainConcat(link, l1, s1, l2, s2);
      ThreadedLink(view.code, link, list, l2);
      assert l2 != list by { LastDiffers(s1, s2); }
      code := code[list := Jmp(l2 - (list + 1))];
      link := link[list := l2];
      l := l1;
    }

    /** `need_value` */
    method NeedValue(l: int, ghost s: seq<nat>) returns (r: bool)
      requires Linked(view.code, link) && code == Threaded(view.code, link) && Chain(link, l, s)
          && Pending(view.code, s)
      ensures r == CodeGen.NeedValue(view.code, s)
    {
      var list := l;
      ghost var done: nat := 0;
      assert s[0..] == s;
      while list != NO_JUMP
        invariant done <= |s| && Chain(link, list, s[done..]) && forall x | x in s[..done] :: Valued(view.code, x)
        decreases |s| - done
      {
        assert Pending(view.code, s[done..]) by { assert forall x | x in s[done..] :: x in s; }
        GetJumpLink(view.code, link, s[done..]);
        ThreadedTests(view.code, link, s[done]);
        if !Valued(code, list) {
          assert s[done] in s;
          return true;
        }
        assert s[done..][1..] == s[done + 1..] && s[..done + 1] == s[..done] + [s[done]];
        list := GetJump(code, list);
        done := done + 1;
      }
      assert s[..done] == s;
      return false;
    }

    /** `removevalues` */
    method RemoveValues(l: int, ghost s: seq<nat>)
      requires Linked(view.code, link) && code == Threaded(view.code, link) && Chain(link, l, s)
          && Pending(view.code, s)
      modifies `code, `view
      ensures view == old(view).(code := CodeGen.RemoveValues(old(view.code), s))
      ensures Linked(view.code, link) && code == Threaded(view.code, link)
    {
      var list := l;
      ghost var done: nat := 0;
      assert s[0..] == s;
      while list != NO_JUMP
        invariant done <= |s| && Chain(link, list, s[done..]) && Pending(view.code, s)
        invariant Linked(view.code, link) && code == Threaded(view.code, link)
        invariant CodeGen.RemoveValues(view.code, s[done..]) == CodeGen.RemoveValues(old(view.code), s)
        invariant view == old(view).(code := view.code)
        decreases |s| - done
      {
        assert Pending(view.code, s[done..]) by { assert forall x | x in s[done..] :: x in s; }
        GetJumpLink(view.code, link, s[done..]);
        ThreadedTests(view.code, link, s[done]);
        assert s[done..][1..] == s[done + 1..];
        var x := list;
        list := GetJump(code, x);
        StillPending(view.code, s, x);
        code := PatchTestReg(code, x, NO_REG);
        view := view.(code := PatchTestReg(view.code, x, NO_REG));
        done := done + 1;
      }
    }

    /** One round of `patchlistaux`. */
    method PatchFirst(x: nat, vt: nat, reg: int, dt: nat, ghost s: seq<nat>) returns (next: int)
      requires Linked(view.code, link) && code == Threaded(view.code, link)
      requires s != [] && s[0] == x && Chain(link, x, s) && Distinct(s) && Pending(view.code, s)
      modifies `code, `view, `link
      ensures x < |old(view.code)| && view == old(view).(code := PatchOne(old(view.code), x, vt, reg, dt))
      ensures Linked(view.code, link) && code == Threaded(view.code, link) && link == old(link) - {x}
      ensures Chain(link, next, s[1..]) && Pending(view.code, s[1..]) && Distinct(s[1..])
    {
      hide PatchOne;
      GetJumpLink(view.code, link, s);
      ThreadedPatch(view.code, link, x, vt, reg, dt);
      DistinctHead(s);
      PatchPending(view.code, s, vt, reg, dt);
      next := GetJump(code, x);
      ChainFrame(link, link - {x}, next, s[1..]);
      code := PatchOne(code, x, vt, reg, dt);
      view := view.(code := PatchOne(view.code, x, vt, reg, dt));
      link := link - {x};
    }

    /** `patchlistaux`: exactly the jumps of the list get a target, and only their tests change. */
    method PatchListAux(l: int, vt: nat, reg: int, dt: nat, ghost s: seq<nat>)
      requires Linked(view.code, link) && code == Threaded(view.code, link)
      requires Chain(link, l, s) && Distinct(s) && Pending(view.code, s)
      modifies `code, `view, `link
      ensures view == old(view).(code := PatchAll(old(view.code), s, vt, reg, dt))
      ensures Linked(view.code, link) && code == Threaded(view.code, link) && link == old(link) - Elems(s)
    {
      hide PatchOne, Linked, Pending, Distinct;
      var list := l;
      ghost var done: nat := 0;
      assert s[0..] == s && s[..0] == [] && link == link - Elems([]);
      while list != NO_JUMP
        invariant done <= |s| && Chain(link, list, s[done..]) && Pending(view.code, s[done..]) && Distinct(s[done..])
        invariant Linked(view.code, link) && code == Threaded(view.code, link)
        invariant PatchAll(view.code, s[done..], vt, reg, dt) == PatchAll(old(view.code), s, vt, reg, dt)
        invariant view == old(view).(code := view.code) && link == old(link) - Elems(s[..done])
        decreases |s| - done
      {
        assert s[done..][1..] == s[done + 1..] && s[..done + 1] == s[..done] + [s[done]];
        list := PatchFirst(list, vt, reg, dt, s[done..]);
        assert Elems(s[..done]) + {s[done]} == Elems(s[..done + 1]);
        assert link == old(link) - Elems(s[..done + 1]);
        done := done + 1;
      }
      assert done == |s| && s[..done] == s;
    }

    // ---------- emitting ----------

    /** `dischargejpc` */
    method DischargeJpc()
      requires Valid()
      modifies `code, `view, `link, `jpc
      ensures Valid() && view == CodeGen.DischargeJpc(old(view))
          && Frame(old(link), link, |old(code)|, Elems(old(view.jpc)))
    {
      PatchListAux(jpc, |code|, NO_REG, |code|, view.jpc);
      jpc := NO_JUMP;
      view := view.(jpc := []);
    }

    /** `luaK_code` */
    method Code(i: Instr) returns (pc: nat)
      requires Valid()
      modifies `code, `view, `link, `jpc
      ensures Valid() && view == CodeGen.Code(old(view), i) && Frame(old(link), link, |old(code)|, Elems(old(view.jpc)))
      ensures pc == |old(code)| && |code| == pc + 1 && pc !in link
    {
      hide Chain, Distinct;
      DischargeJpc();
      pc := |code|;
      ThreadedMore(view.code, link, [i]);
      code := code + [i];
      view := view.(code := view.code + [i]);
    }

    /** `luaK_jump`: the jumps to the next instruction are kept on hold with the new jump. */
    method Jump() returns (j: int, ghost s: seq<nat>)
      requires Valid()
      modifies `code, `view, `link, `jpc
      ensures Valid() && view == old(view).(code := old(view.code) + [Jmp(NO_JUMP)], jpc := [])
      ensures s == [|old(code)|] + old(view.jpc) && Chain(link, j, s) && Frame(old(link), link, |old(code)|, {})
    {
      var held := jpc;
      ghost var list := view.jpc;
      ghost var n := |view.code|;
      ThreadedMore(view.code, link, [Jmp(NO_JUMP)]);
      NewDistinct(view.code, list);
      jpc := NO_JUMP;
      j := |code|;
      code := code + [Jmp(NO_JUMP)];
      view := view.(code := view.code + [Jmp(NO_JUMP)], jpc := []);
      s := [n] + list;
      assert Pending(view.code, [n]) && Chain(link, j, [n]);
      j := Concat(j, held, [n], list);
    }

    /** `condjump` */
    method CondJump(i: Instr) returns (j: int)
      requires Valid()
      modifies `code, `view, `link, `jpc
      ensures Valid() && view == CodeGen.CondJump(old(view), i)
          && Frame(old(link), link, |old(code)|, Elems(old(view.jpc)))
      ensures j == |code| - 1 && |code| == |old(code)| + 2 && Chain(link, j, [|code| - 1])
    {
      hide Distinct;
      var pc := Code(i);
      ghost var s;
      j, s := Jump();
      assert s == [|code| - 1];
    }

    /** `luaK_patchtohere` */
    method PatchToHere(l: int, ghost s: seq<nat>)
      requires Valid() && Chain(link, l, s) && Distinct(view.jpc + s) && Pending(view.code, s)
      modifies `code, `view, `link, `jpc
      ensures Valid() && view == CodeGen.PatchToHere(old(view), s)
          && Frame(old(link), link, |code|, Elems(old(view.jpc)))
    {
      hide Distinct, Chain, Linked, Threaded, Pending, LinksKept, Frame, Elems;
      ghost var was := link;
      PendingBoth(view.code, view.jpc, s);
      jpc := Concat(jpc, l, view.jpc, s);
      KeptFrame(was, link, |code|, view.jpc);
      view := view.(jpc := view.jpc + s);
    }

    // ---------- expressions ----------

    /** `luaK_dischargevars` */
    method DischargeVars(e: EDesc, ghost fs0: Fs, ghost a: ExpDesc, ghost ex: Expr) returns (r: EDesc)
      requires Valid() && Builds(fs0, view, a, ex) && Describes(link, e, a)
      modifies `code, `view, `link, `jpc
      ensures Valid() && view == CodeGen.DischargeVars(old(view), a).fs
      ensures Describes(link, r, CodeGen.DischargeVars(old(view), a).e)
      ensures Frame(old(link), link, |old(code)|, Elems(old(view.jpc)))
      ensures !a.k.VLocal? && !a.k.VUpval? ==> r == e && view == old(view) && link == old(link) && code == old(code)
    {
      hide Builds, Chain, Distinct;
      BuildsLists(fs0, view, a, ex);
      match e.k
      case VLocal(x) => r := e.(k := VNonReloc(x));
      case VUpval(idx) =>
        ghost var was := link;
        ghost var fs := view;
        var pc := Code(GetUpval(0, idx));
        DescribesKept(fs, was, link, e, a);
        r := e.(k := VReloc(pc));
      case _ => r := e;
    }

    /** `discharge2reg`, after `luaK_dischargevars` */
    method Discharge2Reg(e: EDesc, reg: nat, ghost a: ExpDesc) returns (r: EDesc)
      requires Valid() && Describes(link, e, a) && ListsOk(view, a.t, a.f) && (a.k.VReloc? || a.k.VNonReloc?)
      requires a.k.VReloc? ==> a.k.pc < |view.code| && !view.code[a.k.pc].Jmp?
      modifies `code, `view, `link, `jpc
      ensures Valid() && view == CodeGen.Discharge2Reg(old(view), a, reg).fs
      ensures Describes(link, r, CodeGen.Discharge2Reg(old(view), a, reg).e)
      ensures Frame(old(link), link, |old(code)|, Elems(old(view.jpc)))
    {
      hide Chain, Distinct;
      ghost var was := link;
      ghost var fs := view;
      match e.k {
        case VReloc(pc) =>
          SetReg(view.code, link, pc, reg);
          code := code[pc := SetA(code[pc], reg)];
          view := view.(code := view.code[pc := SetA(view.code[pc], reg)]);
        case VNonReloc(x) =>
          if reg != x {
            var pc := Code(Move(reg, x));
            DescribesKept(fs, was, link, e, a);
          }
        case _ =>
      }
      r := e.(k := VNonReloc(reg));
    }

    /** `freeexp` */
    method FreeExp(e: EDesc, ghost a: ExpDesc)
      requires Valid() && e.k == a.k
      modifies `freereg, `view
      ensures Valid() && view == CodeGen.FreeExp(old(view), a)
    {
      if e.k.VNonReloc? && e.k.r >= nactvar && freereg > 0 {
        freereg := freereg - 1;
        view := view.(freereg := view.freereg - 1);
      }
    }

    /** `discharge2anyreg`, after `luaK_dischargevars` */
    method Discharge2AnyReg(e: EDesc, ghost a: ExpDesc) returns (r: EDesc)
      requires Valid() && Describes(link, e, a) && ListsOk(view, a.t, a.f) && (a.k.VReloc? || a.k.VNonReloc?)
      requires a.k.VReloc? ==> a.k.pc < |view.code| && !view.code[a.k.pc].Jmp?
      modifies `code, `view, `link, `jpc, `freereg
      ensures Valid() && view == CodeGen.Discharge2AnyReg(old(view), a).fs
      ensures Describes(link, r, CodeGen.Discharge2AnyReg(old(view), a).e)
      ensures Frame(old(link), link, |old(code)|, Elems(old(view.jpc)))
    {
      hide Chain, Distinct, CodeGen.Discharge2Reg;
      if e.k.VNonReloc? { return e; }
      freereg := freereg + 1;
      view := view.(freereg := view.freereg + 1);
      r := Discharge2Reg(e, freereg - 1, a);
    }

    /** The two instructions that load booleans. */
    method LoadBoth(reg: nat)
      requires Valid()
      modifies `code, `view, `link, `jpc
      ensures Valid() && view == old(view).(code := Patched(old(view.code), old(view.jpc)) + Loads(reg), jpc := [])
      ensures Frame(old(link), link, |old(code)|, Elems(old(view.jpc)))
    {
      hide Chain, Distinct, Linked, Pending, Threaded;
      LoadedCode(view, reg);
      var pf := Code(LoadBool(reg, false, true));
      var pt := Code(LoadBool(reg, true, false));
    }

    /** The part of `exp2reg` that makes jumps without a value load one. */
    method LoadBools(jmp: bool, reg: nat)
      requires Valid()
      modifies `code, `view, `link, `jpc
      ensures Valid() && view == CodeGen.LoadBools(old(view), jmp, reg)
      ensures Frame(old(link), link, |old(code)|, if jmp then Elems(old(view.jpc)) else {})
    {
      if jmp { LoadBoth(reg); } else { LoadHeld(reg); }
    }

    method LoadHeld(reg: nat)
      requires Valid()
      modifies `code, `view, `link, `jpc
      ensures Valid() && view == CodeGen.LoadBools(old(view), false, reg) && Frame(old(link), link, |old(code)|, {})
    {
      hide Distinct, Chain, Linked, Threaded;
      ghost var fs := view;
      var fj, s := Jump();
      ghost var was := link;
      ghost var mid := view;
      HeldPending(fs, s);
      LoadBoth(reg);
      LoadedPending(mid, view, was, link, fj, s, reg);
      assert view.jpc + s == s;
      PatchNone(mid.code);
      PatchToHere(fj, s);
    }

    /** The end of `exp2reg`. */
    method PatchExits(e: EDesc, reg: nat, pf: nat, ghost a: ExpDesc)
      requires Valid() && Chains(link, e, a) && ListsOk(view, a.t, a.f)
      modifies `code, `view, `link
      ensures Valid() && view == CodeGen.PatchExits(old(view), a, reg, pf)
      ensures link == old(link) - Elems(a.f) - Elems(a.t)
    {
      hide Chain, Distinct;
      ListsApart(view, a.t, a.f);
      ghost var fs := view;
      ghost var was := link;
      var final := |code|;
      PatchListAux(e.f, final, reg, pf, a.f);
      OthersPending(fs.code, a.f, a.t, final, reg, pf);
      ChainFrame(was, link, e.t, a.t);
      PatchListAux(e.t, final, reg, pf + 1, a.t);
      ChainFrame(was, link, jpc, fs.jpc);
      OthersPending(fs.code, a.f, fs.jpc, final, reg, pf);
      OthersPending(PatchAll(fs.code, a.f, final, reg, pf), a.t, fs.jpc, final, reg, pf + 1);
    }

    /** The jump of a comparison joins the true exits. */
    method JoinJump(e: EDesc, ghost a: ExpDesc) returns (t: int)
      requires Valid() && Describes(link, e, a) && ListsOk(view, a.t, a.f) && a.k.VJmp? && view.jpc == []
      requires Distinct(a.t + [a.k.pc])
      modifies `code, `link
      ensures Valid() && Chains(link, EDesc(e.k, t, e.f), a.(t := a.t + [a.k.pc]))
      ensures LinksKept(old(link), link, Elems(a.t))
    {
      ghost var was := link;
      t := Concat(e.t, e.k.pc, a.t, [a.k.pc]);
      AfterExit(was, link, e, t, view, a);
    }

    /** `exp2reg`, after `luaK_dischargevars` */
    method Exp2Reg(e: EDesc, reg: nat, ghost fs0: Fs, ghost a: ExpDesc, ghost ex: Expr) returns (r: EDesc)
      requires Valid() && Means(fs0, view, a, ex) && Discharged(a) && Describes(link, e, a)
      modifies `code, `view, `link, `jpc
      ensures Valid() && view == CodeGen.Exp2Reg(old(view), a, reg).fs
      ensures r == EDesc(VNonReloc(reg), NO_JUMP, NO_JUMP)
      ensures Frame(old(link), link, |fs0.code|, Elems(fs0.jpc))
    {
      hide Means, Chain, Distinct, CodeGen.Discharge2Reg, CodeGen.PatchExits, CodeGen.NeedValue, Closing, Linked,
          Threaded, Pending, CodeGen.Exp2Reg;
      ghost var fs := view;
      MeansLists(fs0, view, a, ex);
      DischargedIs(fs, a, reg);
      ClosedIs(fs, a, reg);
      if e.k.VJmp? {
        var t := JoinJump(e, a);
        r := Close(EDesc(e.k, t, e.f), true, reg, a.(t := a.t + [a.k.pc]));
      } else {
        MeansValue(fs0, fs, a, reg, ex);
        var d := Discharge2Reg(e, reg, a);
        r := Close(d, false, reg, a.(k := VNonReloc(reg)));
      }
    }

    /** The rest of `exp2reg`, when the value is in the register or the last jump is in the list. */
    method Close(d: EDesc, jmp: bool, reg: nat, ghost b: ExpDesc) returns (r: EDesc)
      requires Valid() && Chains(link, d, b) && ListsOk(view, b.t, b.f)
      modifies `code, `view, `link, `jpc
      ensures Valid() && view == Closing(old(view), jmp, reg, b) && r == EDesc(VNonReloc(reg), NO_JUMP, NO_JUMP)
      ensures Frame(old(link), link, |old(code)|, (if jmp then Elems(old(view.jpc)) else {}) + Elems(b.t) + Elems(b.f))
    {
      hide Chain, Distinct, CodeGen.LoadBools, CodeGen.PatchExits, CodeGen.NeedValue;
      r := EDesc(VNonReloc(reg), NO_JUMP, NO_JUMP);
      ListsApart(view, b.t, b.f);
      NoJumpIsEmpty(link, d, b);
      if d.t != d.f {
        var nt := NeedValue(d.t, b.t);
        var nf := NeedValue(d.f, b.f);
        if nt || nf {
          ghost var fs := view;
          ghost var was := link;
          LoadBools(jmp, reg);
          LoadsKeepLists(fs, view, jmp, reg, was, link, d, b);
          PatchExits(d, reg, |code| - 2, b);
        } else {
          PatchExits(d, reg, 0, b);
        }
      }
    }

    /** `luaK_exp2nextreg` */
    method Exp2NextReg(e: EDesc, ghost fs0: Fs, ghost a: ExpDesc, ghost ex: Expr) returns (r: EDesc)
      requires Valid() && Builds(fs0, view, a, ex) && Describes(link, e, a)
      modifies `code, `view, `link, `jpc, `freereg
      ensures Valid() && view == CodeGen.Exp2NextReg(old(view), a).fs
      ensures r == EDesc(VNonReloc(fs0.freereg), NO_JUMP, NO_JUMP)
      ensures CodeGen.Exp2NextReg(old(view), a).e == ExpDesc(VNonReloc(fs0.freereg), [], [])
      ensures Frame(old(link), link, |fs0.code|, Elems(fs0.jpc))
    {
      hide Builds, Means, Chain, Distinct, CodeGen.Exp2Reg, CodeGen.DischargeVars, CodeGen.FreeExp, Linked, Threaded,
          Pending, Describes;
      ghost var fs := view;
      NextRegParts(fs0, fs, a, ex);
      ghost var da := CodeGen.DischargeVars(fs, a).e;
      var d := DischargeVars(e, fs0, a, ex);
      FreeExp(d, da) by { assert d.k == da.k by { DescribesKind(link, d, da); } }
      freereg := freereg + 1;
      view := view.(freereg := view.freereg + 1);
      r := Exp2Reg(d, freereg - 1, fs0, da, ex);
    }

    /** `luaK_exp2anyreg` */
    method Exp2AnyReg(e: EDesc, ghost fs0: Fs, ghost a: ExpDesc, ghost ex: Expr) returns (r: EDesc)
      requires Valid() && Builds(fs0, view, a, ex) && Describes(link, e, a)
      modifies `code, `view, `link, `jpc, `freereg
      ensures Valid() && view == CodeGen.Exp2AnyReg(old(view), a).fs
      ensures Describes(link, r, CodeGen.Exp2AnyReg(old(view), a).e)
      ensures Frame(old(link), link, |fs0.code|, Elems(fs0.jpc))
    {
      hide Builds, Means, Chain, Chains, Distinct, CodeGen.Exp2Reg, CodeGen.DischargeVars, CodeGen.Exp2NextReg, Linked,
          Threaded, Pending, CodeGen.Exp2AnyReg;
      ghost var fs := view;
      AnyRegParts(fs0, fs, a, ex);
      ghost var da := CodeGen.DischargeVars(fs, a).e;
      var d := DischargeVars(e, fs0, a, ex);
      NoJumpIsEmpty(link, d, da);
      if d.k.VNonReloc? && d.t == d.f {
        r := d;
      } else if d.k.VNonReloc? && d.k.r >= nactvar {
        r := Exp2Reg(d, d.k.r, fs0, da, ex);
        EmptyDescribes(link, da.k.r);
      } else {
        r := Exp2NextReg(d, fs0, da, ex);
        EmptyDescribes(link, fs0.freereg);
      }
    }

    /** `luaK_exp2RK`, for an expression that is no constant */
    method Exp2RK(e: EDesc, ghost fs0: Fs, ghost a: ExpDesc, ghost ex: Expr) returns (r: EDesc)
      requires Valid() && Builds(fs0, view, a, ex) && Describes(link, e, a)
      modifies `code, `view, `link, `jpc, `freereg
      ensures Valid() && view == CodeGen.Exp2RK(old(view), a).fs
      ensures Describes(link, r, CodeGen.Exp2RK(old(view), a).e)
      ensures Frame(old(link), link, |fs0.code|, Elems(fs0.jpc))
    {
      hide Builds, Chain, Chains, Distinct, CodeGen.DischargeVars, Linked, Threaded, Pending, CodeGen.Exp2AnyReg;
      ghost var fs := view;
      RKParts(fs0, fs, a, ex);
      NoJumpIsEmpty(link, e, a) by { assert Chains(link, e, a); }
      var v: EDesc;
      ghost var va: ExpDesc;
      if e.t != e.f {
        v := Exp2AnyReg(e, fs0, a, ex);
        va := CodeGen.Exp2AnyReg(fs, a).e;
      } else {
        v := DischargeVars(e, fs0, a, ex);
        va := CodeGen.DischargeVars(fs, a).e;
      }
      r := Exp2AnyReg(v, fs0, va, ex);
    }

    /** `invertjump` */
    method InvertJump(pc: nat)
      requires Valid()
      modifies `code, `view
      ensures Valid() && view == CodeGen.InvertJump(old(view), pc) && |code| == |old(code)|
    {
      if 1 <= pc <= |code| && code[pc - 1].Cmp? {
        InvertThreaded(view.code, link, pc, view.jpc);
        var i := code[pc - 1];
        code := code[pc - 1 := Cmp(i.op, !i.cond, i.b, i.c)];
        view := view.(code := view.code[pc - 1 := Cmp(i.op, !i.cond, i.b, i.c)]);
      } else {
        InvertThreaded(view.code, link, pc, view.jpc);
      }
    }

    /** The last instruction is taken back. */
    method DropLast()
      requires Valid() && view.jpc == [] && |view.code| > 0 && !view.code[|view.code| - 1].Jmp?
      modifies `code, `view
      ensures Valid() && view == old(view).(code := old(view.code)[..|old(view.code)| - 1])
          && code == old(code)[..|old(code)| - 1]
    {
      code := code[..|code| - 1];
      view := view.(code := view.code[..|view.code| - 1]);
      assert code == Threaded(view.code, link);
    }

    /** `jumponcond`, after `luaK_dischargevars` */
    method JumpOnCond(e: EDesc, cond: bool, ghost fs0: Fs, ghost a: ExpDesc, ghost ex: Expr) returns (j: int)
      requires Valid() && Builds(fs0, view, a, ex) && Describes(link, e, a) && (a.k.VReloc? || a.k.VNonReloc?)
      modifies `code, `view, `link, `jpc, `freereg
      ensures Valid() && view == CodeGen.JumpOnCond(old(view), a, cond)
      ensures j == |code| - 1 && Chain(link, j, [|code| - 1]) && Chains(link, e, a)
      ensures Frame(old(link), link, |fs0.code|, Elems(fs0.jpc))
    {
      hide Builds, Means, Chain, Distinct, CodeGen.CondJump, CodeGen.Discharge2AnyReg, CodeGen.FreeExp, Linked,
          Threaded, Pending;
      ghost var fs := view;
      ghost var was := link;
      BuildsParts(fs0, fs, a, ex);
      JumpParts(fs0, fs, a, ex);
      if e.k.VReloc? { ThreadedAt(view.code, link, a.k.pc); }
      if e.k.VReloc? && code[e.k.pc].Not? {
        var b := code[e.k.pc].b;
        DropLast();
        j := CondJump(Test(b, !cond));
        ChainsKept(fs, was, link, e, a, |fs.code| - 1, []);
      } else {
        var d := Discharge2AnyReg(e, a);
        ghost var da := CodeGen.Discharge2AnyReg(fs, a);
        AnyRegJpc(fs, a);
        FreeExp(d, da.e);
        ghost var mid := link;
        j := CondJump(TestSet(NO_REG, d.k.r, cond));
        ChainsKept(fs, was, mid, e, a, |fs.code|, fs.jpc);
        ChainsKept(fs, mid, link, e, a, |fs.code|, fs.jpc);
      }
    }

    /** The new jump at `x` joins one list of exits, and the other list is patched to here. */
    method AddExit(list: int, other: int, x: nat, ghost s: seq<nat>, ghost o: seq<nat>) returns (l: int)
      requires Valid() && Chain(link, list, s) && Chain(link, other, o) && x !in link && ExitsOk(view, s, x, o)
      modifies `code, `view, `link, `jpc
      ensures Valid() && view == CodeGen.PatchToHere(old(view), o) && |code| == |old(code)|
      ensures Chain(link, l, s + [x]) && Frame(old(link), link, |code|, Elems(s))
    {
      hide Linked, Threaded;
      ghost var was := link;
      ExitsApart(view, s, x, o);
      l := Concat(list, x, s, [x]);
      ChainFrame(was, link, other, o);
      ghost var mid := link;
      PatchToHere(other, o);
      ChainFrame(mid, link, l, s + [x]);
    }

    /** `luaK_goiftrue`: the exits when the expression is false */
    method GoIfTrue(e: EDesc, ghost fs0: Fs, ghost a: ExpDesc, ghost ex: Expr) returns (f: int)
      requires Valid() && Builds(fs0, view, a, ex) && Describes(link, e, a)
      modifies `code, `view, `link, `jpc, `freereg
      ensures Valid() && view == CodeGen.GoIfTrue(old(view), a).fs
      ensures Chain(link, f, CodeGen.GoIfTrue(old(view), a).e.f)
      ensures Frame(old(link), link, |fs0.code|, Elems(fs0.jpc))
    {
      hide Builds, Chain, Distinct, Linked, Threaded, Pending, CodeGen.JumpOnCond, CodeGen.InvertJump,
          CodeGen.DischargeVars, ExitsOk;
      ghost var fs := view;
      GoParts(fs0, fs, a, ex, true);
      ghost var da := CodeGen.DischargeVars(fs, a).e;
      var d := DischargeVars(e, fs0, a, ex);
      var pc;
      if d.k.VJmp? {
        InvertJump(d.k.pc);
        pc := d.k.pc;
      } else {
        pc := JumpOnCond(d, false, fs0, da, ex);
        assert pc !in link by { OneLink(link, pc); }
      }
      f := AddExit(d.f, d.t, pc, da.f, da.t);
    }

    /** `luaK_goiffalse`: the exits when the expression is true */
    method GoIfFalse(e: EDesc, ghost fs0: Fs, ghost a: ExpDesc, ghost ex: Expr) returns (t: int)
      requires Valid() && Builds(fs0, view, a, ex) && Describes(link, e, a)
      modifies `code, `view, `link, `jpc, `freereg
      ensures Valid() && view == CodeGen.GoIfFalse(old(view), a).fs
      ensures Chain(link, t, CodeGen.GoIfFalse(old(view), a).e.t)
      ensures Frame(old(link), link, |fs0.code|, Elems(fs0.jpc))
    {
      hide Builds, Chain, Distinct, Linked, Threaded, Pending, CodeGen.JumpOnCond, CodeGen.DischargeVars, ExitsOk;
      ghost var fs := view;
      GoParts(fs0, fs, a, ex, false);
      ghost var da := CodeGen.DischargeVars(fs, a).e;
      var d := DischargeVars(e, fs0, a, ex);
      var pc;
      if d.k.VJmp? {
        pc := d.k.pc;
      } else {
        pc := JumpOnCond(d, true, fs0, da, ex);
        assert pc !in link by { OneLink(link, pc); }
      }
      t := AddExit(d.t, d.f, pc, da.t, da.f);
    }

    /** The end of `codenot`: the lists are swapped, and none of their jumps has a value. */
    method SwapExits(e: EDesc, ghost a: ExpDesc) returns (r: EDesc)
      requires Valid() && Chains(link, e, a) && Pending(view.code, a.t) && Pending(view.code, a.f)
      modifies `code, `view
      ensures Valid() && view == old(view).(code := Removed(old(view.code), a.t, a.f))
      ensures r == EDesc(e.k, e.f, e.t)
    {
      hide Linked, Threaded, Chain, Distinct;
      r := EDesc(e.k, e.f, e.t);
      RemovedPending(view.code, a.t, a.f);
      RemovedPending(view.code, a.t, view.jpc);
      RemoveValues(r.f, a.t);
      RemovedPending(view.code, a.f, view.jpc);
      RemoveValues(r.t, a.f);
    }

    /** `codenot`, after `luaK_dischargevars` */
    method NotValue(e: EDesc, ghost fs0: Fs, ghost a: ExpDesc, ghost ex: Expr) returns (r: EDesc, ghost b: ExpDesc)
      requires Valid() && Builds(fs0, view, a, ex) && Describes(link, e, a) && Discharged(a)
      modifies `code, `view, `link, `jpc, `freereg
      ensures Valid() && Pending(view.code, b.t) && Pending(view.code, b.f) && Describes(link, r, b)
      ensures Res(view.(code := Removed(view.code, b.t, b.f)), ExpDesc(b.k, b.f, b.t)) == CodeGen.CodeNot(old(view), a)
      ensures Frame(old(link), link, |fs0.code|, Elems(fs0.jpc))
    {
      hide Builds, Means, Chain, Distinct, CodeGen.Code, CodeGen.Discharge2AnyReg, CodeGen.FreeExp, CodeGen.InvertJump,
          Removed, Linked, Threaded, Pending, CodeGen.CodeNot, Den;
      ghost var fs := view;
      ghost var was := link;
      NotParts(fs0, fs, a, ex);
      if e.k.VJmp? {
        InvertJump(e.k.pc);
        return e, a;
      }
      JumpParts(fs0, fs, a, ex);
      var d := Discharge2AnyReg(e, a);
      ghost var da := CodeGen.Discharge2AnyReg(fs, a);
      AnyRegJpc(fs, a);
      FreeExp(d, da.e);
      ghost var mid := link;
      var pc := Code(Not(0, d.k.r));
      ChainsKept(fs, was, mid, e, a, |fs.code|, fs.jpc);
      ChainsKept(fs, mid, link, e, a, |fs.code|, fs.jpc);
      r, b := e.(k := VReloc(pc)), a.(k := VReloc(pc));
    }

    /** `codenot` */
    method CodeNot(e: EDesc, ghost fs0: Fs, ghost a: ExpDesc, ghost ex: Expr) returns (r: EDesc)
      requires Valid() && Builds(fs0, view, a, ex) && Describes(link, e, a)
      modifies `code, `view, `link, `jpc, `freereg
      ensures Valid() && view == CodeGen.CodeNot(old(view), a).fs
      ensures Describes(link, r, CodeGen.CodeNot(old(view), a).e)
      ensures Frame(old(link), link, |fs0.code|, Elems(fs0.jpc))
    {
      hide Builds, Chain, Distinct, Linked, Threaded, Pending, CodeGen.DischargeVars, CodeGen.CodeNot, Removed;
      GoParts(fs0, view, a, ex, true);
      hide ExitsOk, CodeGen.InvertJump, CodeGen.JumpOnCond;
      NotOnce(view, a);
      ghost var da := CodeGen.DischargeVars(view, a).e;
      var d := DischargeVars(e, fs0, a, ex);
      ghost var b;
      r, b := NotValue(d, fs0, da, ex);
      r := SwapExits(r, b);
    }

    /** `codecomp`. The first operand is in a register already, where `luaK_exp2RK` leaves it. */
    method CodeComp(op: CmpOp, cond: bool, e1: EDesc, e2: EDesc, ghost a1: ExpDesc, ghost x1: Expr,
                    ghost fs0: Fs, ghost fs1: Fs, ghost a2: ExpDesc, ghost x2: Expr) returns (r: EDesc)
      requires Valid() && InOne(SomeEnv(), fs0, fs1, a1, x1) && Builds(fs1, view, a2, x2)
      requires e1.k == a1.k && Describes(link, e2, a2)
      modifies `code, `view, `link, `jpc, `freereg
      ensures Valid() && view == CodeGen.CodeComp(old(view), op, cond, a1, a2).fs
      ensures Describes(link, r, CodeGen.CodeComp(old(view), op, cond, a1, a2).e)
      ensures Frame(old(link), link, |fs1.code|, Elems(fs1.jpc))
    {
      hide Builds, Chain, Distinct, Linked, Threaded, Pending, CodeGen.Exp2RK, CodeGen.CondJump, InOne, Den,
          CodeGen.FreeExp;
      ghost var fs := view;
      CompParts(fs0, fs1, a1, x1, fs, a2, x2);
      ghost var b := CodeGen.Exp2RK(fs, a2);
      var d := Exp2RK(e2, fs1, a2, x2);
      FreeExp(d, b.e);
      FreeExp(e1, a1);
      var i := if !cond && op != EQ then Cmp(op, true, d.k.r, e1.k.r) else Cmp(op, cond, e1.k.r, d.k.r);
      var j := CondJump(i);
      r := EDesc(VJmp(j), NO_JUMP, NO_JUMP);
      assert Describes(link, r, ExpDesc(VJmp(j), [], [])) by { NewJump(link, j); }
    }

    /** The second operand of `and` or `or` keeps its own exits; `l` holds those of the first one. */
    method JoinExits(l: int, own: int, ghost s: seq<nat>, ghost o: seq<nat>) returns (r: int)
      requires Valid() && Chain(link, l, s) && Chain(link, own, o) && Distinct(o + s) && Pending(view.code, o)
      requires forall x | x in o :: x !in view.jpc
      modifies `code, `link
      ensures Valid() && Chain(link, r, o + s) && LinksKept(old(link), link, Elems(o))
    {
      ghost var was := link;
      r := Concat(own, l, o, s);
      ChainFrame(was, link, jpc, view.jpc);
    }

    // ---------- whole expressions ----------

    /** What the parser does for an expression (`subexpr`). */
    method Compile(ex: Expr) returns (e: EDesc, ghost a: ExpDesc)
      requires Valid() && Start(view) && Uses(ex, view.nactvar)
      modifies `code, `view, `link, `jpc, `freereg
      ensures Valid() && Res(view, a) == CodeGen.Compile(old(view), ex) && Builds(old(view), view, a, ex)
      ensures Describes(link, e, a) && Frame(old(link), link, |old(code)|, Elems(old(view.jpc)))
      decreases ex, 0
    {
      ghost var fs := view;
      StartNact(fs);
      CompileDen(SomeEnv(), fs, ex);
      hide Builds, Chain, Chains, Distinct, Linked, Threaded, Pending, CodeGen.DischargeVars, CodeGen.CodeNot,
          CodeGen.GoIfTrue, CodeGen.GoIfFalse,
        CodeGen.Exp2RK, CodeGen.CodeComp, Start, Gone, InOne;
      match ex
      case Local(r) =>
        e, a := EDesc(VLocal(r), NO_JUMP, NO_JUMP), ExpDesc(VLocal(r), [], []);
        LeafDescribes(link, VLocal(r));
      case Upvalue(idx) =>
        e, a := EDesc(VUpval(idx), NO_JUMP, NO_JUMP), ExpDesc(VUpval(idx), [], []);
        LeafDescribes(link, VUpval(idx));
      case Neg(p) =>
        e, a := Compile(p);
        ghost var r := CodeGen.CodeNot(view, a).e;
        e := CodeNot(e, fs, a, p);
        a := r;
      case Conj(p, q) =>
        e, a := Compile(p);
        ghost var g := CodeGen.GoIfTrue(view, a);
        GoIfTrueGone(SomeEnv(), fs, view, a, p);
        var f := GoIfTrue(e, fs, a, p);
        e, a := Second(q, f, true, fs, g.e.f, p);
      case Disj(p, q) =>
        e, a := Compile(p);
        ghost var g := CodeGen.GoIfFalse(view, a);
        GoIfFalseGone(SomeEnv(), fs, view, a, p);
        var t := GoIfFalse(e, fs, a, p);
        e, a := Second(q, t, false, fs, g.e.t, p);
      case Compare(rel, p, q) =>
        e, a := Compile(p);
        ghost var v := CodeGen.Exp2RK(view, a).e;
        Exp2RKDen(SomeEnv(), fs, view, a, p);
        e := Exp2RK(e, fs, a, p);
        DescribesKind(link, e, v);
        e, a := Other(q, rel, e, fs, v, p);
    }

    /** The second operand of `and` (`go`) or `or`; `l` holds the exits of the first one. */
    method Second(ex: Expr, l: int, go: bool, ghost fs0: Fs, ghost xs: seq<nat>, ghost first: Expr)
        returns (e: EDesc, ghost a: ExpDesc)
      requires Valid() && Gone(SomeEnv(), fs0, view, xs, first, go) && fs0.nactvar <= fs0.freereg
          && Uses(ex, fs0.nactvar)
      requires Chain(link, l, xs)
      modifies `code, `view, `link, `jpc, `freereg
      ensures Valid() && var y := CodeGen.Compile(old(view), ex); var d := CodeGen.DischargeVars(y.fs, y.e);
        view == d.fs && a == d.e.(t := if go then d.e.t else d.e.t + xs, f := if go then d.e.f + xs else d.e.f)
      ensures Describes(link, e, a) && Frame(old(link), link, |fs0.code|, Elems(fs0.jpc))
      decreases ex, 1
    {
      hide Builds, Chain, Distinct, Linked, Threaded, Pending, CodeGen.DischargeVars, CodeGen.Compile, Start, Gone;
      ghost var g := view;
      ghost var was := link;
      StartGone(SomeEnv(), fs0, g, xs, first, go);
      GoneNact(SomeEnv(), fs0, g, xs, first, go);
      e, a := Compile(ex);
      ghost var y := view;
      ghost var ya := a;
      SecondParts(fs0, g, xs, first, go, y, ya, ex);
      ghost var mid := link;
      e := DischargeVars(e, g, ya, ex);
      a := CodeGen.DischargeVars(y, ya).e;
      ChainFrame(was, mid, l, xs);
      ChainFrame(mid, link, l, xs);
      ghost var before := link;
      ghost var d := e;
      if go {
        var f := JoinExits(l, e.f, xs, a.f);
        e := e.(f := f);
        JoinDescribes(before, link, d, a, f, xs, true);
        a := a.(f := a.f + xs);
      } else {
        var t := JoinExits(l, e.t, xs, a.t);
        e := e.(t := t);
        JoinDescribes(before, link, d, a, t, xs, false);
        a := a.(t := a.t + xs);
      }
    }

    /** The second operand of a comparison. */
    method Other(ex: Expr, rel: RelOp, e1: EDesc, ghost fs0: Fs, ghost a1: ExpDesc, ghost first: Expr)
        returns (e: EDesc, ghost a: ExpDesc)
      requires Valid() && InOne(SomeEnv(), fs0, view, a1, first) && e1.k == a1.k
      requires fs0.nactvar <= fs0.freereg && Uses(ex, fs0.nactvar)
      modifies `code, `view, `link, `jpc, `freereg
      ensures Valid() && var y := CodeGen.Compile(old(view), ex);
        Res(view, a) == CodeGen.CodeComp(y.fs, OpOf(rel), CondOf(rel), a1, y.e)
      ensures Describes(link, e, a) && Frame(old(link), link, |fs0.code|, Elems(fs0.jpc))
      decreases ex, 1
    {
      hide Builds, Chain, Chains, Distinct, Linked, Threaded, Pending, CodeGen.CodeComp, CodeGen.Compile, Start, InOne;
      ghost var g := view;
      InOneParts(fs0, g, a1, first);
      ghost var y;
      e, y := Compile(ex);
      a := CodeGen.CodeComp(view, OpOf(rel), CondOf(rel), a1, y).e;
      e := CodeComp(OpOf(rel), CondOf(rel), e1, e, a1, first, fs0, g, y, ex);
    }

    /** The next instruction: every jump behind `from` has its target now, in memory too. */
    method Next(i: Instr, ghost from: nat)
      requires Valid() && from <= |Finished(view)| && NothingOpen(Finished(view), from)
      modifies `code, `view, `link, `jpc
      ensures Valid() && |code| == |Finished(old(view))| + 1 && code[|code| - 1] == i
      ensures forall k | from <= k < |code| - 1 :: code[k] == Finished(old(view))[k]
    {
      hide Chain, Distinct, Pending;
      ghost var done := Finished(view);
      var pc := Code(i);
      assert view.code == done + [i];
      assert forall k | from <= k < pc :: view.code[k] == done[k] && view.code[k] != Jmp(NO_JUMP);
      assert forall k | k in link :: view.code[k] == Jmp(NO_JUMP);
    }

    /** An expression compiled into the next free register, and the instruction after it: the
        instructions in memory compute the expression. */
    method ToNextRegister(ex: Expr, i: Instr) returns (from: nat, to: nat, reg: nat)
      requires Valid() && Start(view) && Uses(ex, view.nactvar)
      modifies `code, `view, `link, `jpc, `freereg
      ensures Valid() && from == |old(code)| <= to && |code| == to + 1 && code[to] == i
      ensures reg == old(freereg) && freereg == reg + 1
      ensures forall env: Env, R: Regs :: Computes(env, code[..to], from, reg, reg, ex, R)
    {
      hide Start, Builds, Chain, Distinct, Linked, Threaded, Pending, CodeGen.Exp2NextReg, CodeGen.Compile,
          NothingOpen, Finished, Computes, Describes;
      ghost var fs := view;
      from, reg := |code|, freereg;
      var e, a := Compile(ex);
      ghost var r := CodeGen.Exp2NextReg(view, a);
      NextRegRuns(SomeEnv(), fs, ex, map[]);
      e := Exp2NextReg(e, fs, a, ex);
      Next(i, from);
      to := |code| - 1;
      forall env: Env, R: Regs ensures Computes(env, code[..to], from, reg, reg, ex, R) {
        NextRegComputes(env, fs, ex, R, code[..to]);
      }
    }

    /** An expression assigned to a local variable (`luaK_storevar`), and the instruction after it. */
    method ToLocal(ex: Expr, reg: nat, i: Instr) returns (from: nat, to: nat)
      requires Valid() && Start(view) && Uses(ex, view.nactvar) && reg < view.nactvar
      modifies `code, `view, `link, `jpc, `freereg
      ensures Valid() && from == |old(code)| <= to && |code| == to + 1 && code[to] == i && freereg == old(freereg)
      ensures forall env: Env, R: Regs :: Computes(env, code[..to], from, reg, freereg, ex, R)
    {
      hide Start, Builds, Means, Chain, Distinct, Linked, Threaded, Pending, CodeGen.Exp2Reg, CodeGen.Compile,
          CodeGen.DischargeVars, NothingOpen,
        Finished, Computes, Describes, CodeGen.FreeExp;
      ghost var fs := view;
      from := |code|;
      var e, a := Compile(ex);
      StoreParts(fs, view, a, ex);
      ghost var da := CodeGen.DischargeVars(view, a).e;
      e := DischargeVars(e, fs, a, ex);
      assert e.k == da.k by { DescribesKind(link, e, da); }
      FreeExp(e, da);
      StoreLocalRuns(SomeEnv(), fs, ex, reg, map[]);
      e := Exp2Reg(e, reg, fs, da, ex);
      Next(i, from);
      to := |code| - 1;
      forall env: Env, R: Regs ensures Computes(env, code[..to], from, reg, freereg, ex, R) {
        StoreComputes(env, fs, ex, reg, R, code[..to]);
      }
    }
  }

  /** A new exit, and two lists of exits. */
  ghost predicate ExitsOk(fs: Fs, s: seq<nat>, x: nat, o: seq<nat>) {
    fs.jpc == [] && Distinct(s + [x] + o) && Pending(fs.code, s) && Pending(fs.code, o) && Pending(fs.code, [x])
  }

  lemma ExitsApart(fs: Fs, s: seq<nat>, x: nat, o: seq<nat>)
    requires ExitsOk(fs, s, x, o)
    ensures Distinct(s + [x]) && Distinct(fs.jpc + o) && (forall y | y in s + [x] :: y < |fs.code|)
        && forall y | y in o :: y !in s
  {
    DistinctParts(s + [x], o);
    assert fs.jpc + o == o;
    forall y | y in s + [x] ensures y < |fs.code| { if y !in s { assert y in [x]; } }
    forall y | y in o ensures y !in s { assert y in s ==> y in s + [x]; }
  }

  lemma NewJump(link: Links, j: nat)
    requires Chain(link, j, [j])
    ensures Describes(link, EDesc(VJmp(j), NO_JUMP, NO_JUMP), ExpDesc(VJmp(j), [], []))
  {}

  lemma CompParts(fs0: Fs, fs1: Fs, a1: ExpDesc, x1: Expr, fs: Fs, a2: ExpDesc, x2: Expr)
    requires InOne(SomeEnv(), fs0, fs1, a1, x1) && Builds(fs1, fs, a2, x2)
    ensures CodeGen.Exp2RK(fs, a1) == Res(fs, a1) && a1.k.VNonReloc? && a1.t == [] && a1.f == []
    ensures var b := CodeGen.Exp2RK(fs, a2);
      && b.e.k.VNonReloc? && |fs1.code| <= |b.fs.code|
      && (forall x | x in b.fs.jpc && x < |fs1.code| :: x in fs1.jpc)
      && CodeGen.FreeExp(CodeGen.FreeExp(b.fs, b.e), a1).(freereg := b.fs.freereg) == b.fs
  {
    RKSame(fs, a1);
    var b := CodeGen.Exp2RK(fs, a2);
    Exp2RKDen(SomeEnv(), fs1, fs, a2, x2);
    BuildsParts(fs1, b.fs, b.e, x2);
    hide CodeGen.Exp2RK, Sem, Follows;
  }

  lemma LeafDescribes(link: Links, k: Kind)
    requires !k.VJmp?
    ensures Describes(link, EDesc(k, NO_JUMP, NO_JUMP), ExpDesc(k, [], []))
  {}

  lemma InOneParts(fs0: Fs, fs: Fs, a: ExpDesc, ex: Expr)
    requires InOne(SomeEnv(), fs0, fs, a, ex)
    ensures Start(fs) && fs.nactvar == fs0.nactvar && |fs0.code| <= |fs.code|
    ensures forall x | x in fs.jpc && x < |fs0.code| :: x in fs0.jpc
  {
    StartOf(SomeEnv(), fs0, fs, a, ex);
    BuildsParts(fs0, fs, a, ex);
  }

  /** Between two operands. */
  lemma GoneParts(fs0: Fs, fs: Fs, xs: seq<nat>, ex: Expr, go: bool)
    requires Gone(SomeEnv(), fs0, fs, xs, ex, go)
    ensures |fs0.code| <= |fs.code| && Distinct(xs) && Pending(fs.code, xs)
    ensures forall x | x in xs :: |fs0.code| <= x < |fs.code| && x !in fs.jpc
    ensures forall x | x in fs.jpc && x < |fs0.code| :: x in fs0.jpc
  {
    DistinctParts(fs.jpc, xs);
  }

  lemma ApartDistinct(a: seq<nat>, b: seq<nat>)
    requires Distinct(a) && Distinct(b) && forall x | x in a :: x !in b
    ensures Distinct(a + b)
  {
    forall x ensures multiset(a + b)[x] <= 1 {
      assert multiset(a)[x] <= 1 && multiset(b)[x] <= 1;
      assert x in a ==> x !in b;
    }
  }

  lemma SecondParts(fs0: Fs, g: Fs, xs: seq<nat>, first: Expr, go: bool, y: Fs, ya: ExpDesc, ex: Expr)
    requires Gone(SomeEnv(), fs0, g, xs, first, go) && Builds(g, y, ya, ex)
    ensures |fs0.code| <= |g.code| <= |y.code|
    ensures forall x | x in xs :: |fs0.code| <= x < |g.code| && x !in g.jpc && x !in y.jpc
    ensures forall x | x in y.jpc && x < |fs0.code| :: x in fs0.jpc
    ensures forall x | x in g.jpc && x < |fs0.code| :: x in fs0.jpc
    ensures var d := CodeGen.DischargeVars(y, ya);
      && Distinct(d.e.f + xs) && Distinct(d.e.t + xs) && Pending(d.fs.code, d.e.t) && Pending(d.fs.code, d.e.f)
      && (forall x | x in d.e.t || x in d.e.f :: x >= |g.code| && x !in d.fs.jpc)
      && (forall x | x in d.e.t :: x !in d.e.f)
      && (d.e.k.VJmp? ==> d.e.k.pc >= |g.code| && d.e.k.pc !in d.e.t && d.e.k.pc !in d.e.f)
  {
    var d := CodeGen.DischargeVars(y, ya);
    GoneParts(fs0, g, xs, first, go);
    BuildsParts(g, y, ya, ex);
    DischargeVarsDen(SomeEnv(), g, y, ya, ex);
    BuildsParts(g, d.fs, d.e, ex);
    MeansLists(g, d.fs, d.e, ex);
    ListsApart(d.fs, d.e.t, d.e.f);
    if d.e.k.VJmp? { JmpApart(d.e.t, d.e.f, d.e.k.pc, d.fs); }
    hide Den, Mean, Gone, ListsOk, CodeGen.DischargeVars, Distinct, Pending;
    ApartDistinct(d.e.f, xs);
    ApartDistinct(d.e.t, xs);
  }

  lemma JmpApart(t: seq<nat>, f: seq<nat>, x: nat, fs: Fs)
    requires ListsOk(fs, t + [x], f) && Distinct(t + [x])
    ensures x !in t && x !in f
  {
    DistinctParts(t, [x]);
    ListsApart(fs, t + [x], f);
    assert x in [x] && (t + [x])[|t|] == x;
  }

  /** One list has become longer. */
  lemma JoinDescribes(link: Links, other: Links, e: EDesc, a: ExpDesc, l: int, xs: seq<nat>, go: bool)
    requires Describes(link, e, a) && (forall x | x in a.t :: x !in a.f)
        && LinksKept(link, other, Elems(if go then a.f else a.t))
    requires Chain(other, l, (if go then a.f else a.t) + xs) && (a.k.VJmp? ==> a.k.pc !in a.t && a.k.pc !in a.f)
    ensures Describes(other, if go then e.(f := l) else e.(t := l), if go then a.(f := a.f + xs) else a.(t := a.t + xs))
  {
    if go { ChainFrame(link, other, e.t, a.t); } else { ChainFrame(link, other, e.f, a.f); }
  }

  /** Run from `from`, the code comes to its end with the value of the expression in `reg`; the
      other registers below `n` keep their contents. */
  ghost predicate Computes(env: Env, code: seq<Instr>, from: nat, reg: nat, n: nat, ex: Expr, R: Regs) {
    var o := Exec(env, code, {}, from, R);
    o.pc == |code| && Get(o.R, reg) == Eval(env, ex, R) && forall q: nat | q < n && q != reg :: Get(o.R, q) == Get(R, q)
  }

  /** A run sees the instructions from its start on only. */
  lemma {:induction false} ExecSuffix(env: Env, code: seq<Instr>, other: seq<Instr>, pc: nat, R: Regs)
    requires |code| == |other| && forall k | pc <= k < |code| :: other[k] == code[k]
    ensures Exec(env, other, {}, pc, R) == Exec(env, code, {}, pc, R)
    decreases |code| - pc
  {
    if !Stops(code, {}, pc) {
      var s := Step(env, code, {}, pc, R);
      ExecSuffix(env, code, other, s.pc, s.R);
    }
  }

  lemma NextRegComputes(env: Env, fs: Fs, ex: Expr, R: Regs, code: seq<Instr>)
    requires Start(fs) && Uses(ex, fs.nactvar)
    requires var x := CodeGen.Compile(fs, ex); var c := Finished(CodeGen.Exp2NextReg(x.fs, x.e).fs);
      |code| == |c| && forall k | |fs.code| <= k < |c| :: code[k] == c[k]
    ensures Computes(env, code, |fs.code|, fs.freereg, fs.freereg, ex, R)
  {
    hide Start, CodeGen.Compile, CodeGen.Exp2NextReg, Finished, NothingOpen, Exec;
    NextRegRuns(env, fs, ex, R);
    var x := CodeGen.Compile(fs, ex);
    ExecSuffix(env, Finished(CodeGen.Exp2NextReg(x.fs, x.e).fs), code, |fs.code|, R);
  }

  lemma StoreComputes(env: Env, fs: Fs, ex: Expr, reg: nat, R: Regs, code: seq<Instr>)
    requires Start(fs) && Uses(ex, fs.nactvar) && reg < fs.nactvar
    requires var x := CodeGen.Compile(fs, ex); var d := CodeGen.DischargeVars(x.fs, x.e);
      var c := Finished(CodeGen.StoreLocal(d.fs, d.e, reg).fs);
      |code| == |c| && forall k | |fs.code| <= k < |c| :: code[k] == c[k]
    ensures Computes(env, code, |fs.code|, reg, fs.freereg, ex, R)
  {
    hide Start, CodeGen.Compile, CodeGen.StoreLocal, CodeGen.DischargeVars, Finished, NothingOpen, Exec;
    StoreLocalRuns(env, fs, ex, reg, R);
    var x := CodeGen.Compile(fs, ex);
    var d := CodeGen.DischargeVars(x.fs, x.e);
    ExecSuffix(env, Finished(CodeGen.StoreLocal(d.fs, d.e, reg).fs), code, |fs.code|, R);
  }

  lemma StoreParts(fs0: Fs, fs: Fs, a: ExpDesc, ex: Expr)
    requires Builds(fs0, fs, a, ex)
    ensures var d := CodeGen.DischargeVars(fs, a);
      && Discharged(d.e) && CodeGen.FreeExp(d.fs, d.e) == d.fs.(freereg := fs0.freereg)
      && Means(fs0, d.fs.(freereg := fs0.freereg), d.e, ex)
  {
    var d := CodeGen.DischargeVars(fs, a);
    DischargeVarsDen(SomeEnv(), fs0, fs, a, ex);
    DenFrees(SomeEnv(), fs0, d.fs, d.e, ex);
    DenMean(SomeEnv(), fs0, d.fs, d.e, ex, fs0.freereg);
    hide Den, Mean;
  }

  lemma {:induction false} RemovedPending(code: seq<Instr>, list: seq<nat>, s: seq<nat>)
    requires Pending(code, s)
    ensures Pending(CodeGen.RemoveValues(code, list), s)
    decreases |list|
  {
    if list != [] {
      StillPending(code, s, list[0]);
      RemovedPending(PatchTestReg(code, list[0], NO_REG), list[1..], s);
    }
  }

  lemma NotParts(fs0: Fs, fs: Fs, a: ExpDesc, ex: Expr)
    requires Builds(fs0, fs, a, ex) && Discharged(a)
    ensures ListsOk(fs, a.t, a.f) && |fs0.code| <= |fs.code|
    ensures forall x | x in fs.jpc && x < |fs0.code| :: x in fs0.jpc
    ensures a.k.VReloc? ==> a.k.pc < |fs.code| && !fs.code[a.k.pc].Jmp?
    ensures a.k.VJmp? ==> NotOfJump(fs, a)
    ensures !a.k.VJmp? ==> NotOfValue(fs, a)
  {
    BuildsParts(fs0, fs, a, ex);
    MeansLists(fs0, fs, a, ex);
    hide Builds, Means, NotOfJump, NotOfValue, ListsOk;
    if a.k.VJmp? { NotJumpParts(fs0, fs, a, ex); } else { NotValueParts(fs0, fs, a, ex); }
  }

  /** What `codenot` does to a comparison. */
  ghost predicate NotOfJump(fs: Fs, a: ExpDesc)
    requires a.k.VJmp?
  {
    var g := CodeGen.InvertJump(fs, a.k.pc);
    && Pending(g.code, a.t) && Pending(g.code, a.f)
    && CodeGen.CodeNot(fs, a) == Res(g.(code := Removed(g.code, a.t, a.f)), ExpDesc(a.k, a.f, a.t))
  }

  /** What it does to another value. */
  ghost predicate NotOfValue(fs: Fs, a: ExpDesc) {
    var x := CodeGen.Discharge2AnyReg(fs, a);
    && x.e.k.VNonReloc?
    && var g := CodeGen.Code(CodeGen.FreeExp(x.fs, x.e), Not(0, x.e.k.r));
      && Pending(g.code, a.t) && Pending(g.code, a.f)
      && CodeGen.CodeNot(fs, a) == Res(g.(code := Removed(g.code, a.t, a.f)), ExpDesc(VReloc(|x.fs.code|), a.f, a.t))
  }

  lemma NotJumpParts(fs0: Fs, fs: Fs, a: ExpDesc, ex: Expr)
    requires Builds(fs0, fs, a, ex) && a.k.VJmp?
    ensures NotOfJump(fs, a)
  {
    BuildsParts(fs0, fs, a, ex);
    MeansLists(fs0, fs, a, ex);
    hide Builds, Means, CodeGen.RemoveValues;
  }

  lemma NotValueParts(fs0: Fs, fs: Fs, a: ExpDesc, ex: Expr)
    requires Builds(fs0, fs, a, ex) && Discharged(a) && !a.k.VJmp?
    ensures NotOfValue(fs, a)
  {
    BuildsParts(fs0, fs, a, ex);
    MeansLists(fs0, fs, a, ex);
    AnyRegJpc(fs, a);
    MeansValue(fs0, fs, a, fs.freereg, ex);
    hide Builds, Means, CodeGen.RemoveValues;
  }

  lemma OneLink(link: Links, x: nat)
    requires Chain(link, x, [x])
    ensures x !in link
  {}

  lemma OpenExits(fs0: Fs, fs: Fs, t: seq<nat>, f: seq<nat>, ex: Expr, go: bool, plain: bool)
    requires Open(SomeEnv(), fs0, fs, t, f, ex, go, plain)
    ensures fs.jpc == [] && Distinct(t + f) && Pending(fs.code, t) && Pending(fs.code, f) && |fs0.code| <= |fs.code|
  {
    ShapeLists(fs.code, [], t, f, |fs0.code|);
    assert [] + (t + f) == t + f;
  }

  lemma MakeExits(fs: Fs, t: seq<nat>, f: seq<nat>, x: nat, go: bool)
    requires fs.jpc == []
    requires var t1, f1 := if go then t else t + [x], if go then f + [x] else f;
      Distinct(t1 + f1) && Pending(fs.code, t1) && Pending(fs.code, f1)
    ensures ExitsOk(fs, if go then f else t, x, if go then t else f)
  {
    var s, o := if go then f else t, if go then t else f;
    assert forall y | y in s :: y in s + [x];
    assert forall y | y in [x] :: y in s + [x] by { assert (s + [x])[|s|] == x; }
    if go {
      forall y ensures multiset(s + [x] + o)[y] <= 1 { assert multiset(t + (f + [x]))[y] <= 1; }
    }
  }

  lemma JmpExits(fs0: Fs, fs: Fs, a: ExpDesc, ex: Expr, go: bool)
    requires Builds(fs0, fs, a, ex) && a.k.VJmp?
    ensures var g := if go then CodeGen.InvertJump(fs, a.k.pc) else fs;
      |fs0.code| <= |g.code| && ExitsOk(g, if go then a.f else a.t, a.k.pc, if go then a.t else a.f)
  {
    hide Den, Open, CodeGen.InvertJump, Distinct, Pending;
    CmpBoth(SomeEnv(), fs0, fs, a, ex, go);
    JmpIsLast(SomeEnv(), fs0, fs, a, ex);
    var g := if go then CodeGen.InvertJump(fs, a.k.pc) else fs;
    OpenExits(fs0, g, LastExit(g, a.t, !go), LastExit(g, a.f, go), ex, go, true);
    hide ExitsOk;
    MakeExits(g, a.t, a.f, a.k.pc, go);
  }

  lemma TestExits(fs0: Fs, fs: Fs, a: ExpDesc, ex: Expr, go: bool)
    requires Builds(fs0, fs, a, ex) && (a.k.VReloc? || a.k.VNonReloc?)
    ensures var g := CodeGen.JumpOnCond(fs, a, !go);
      |g.code| > 0 && |fs0.code| <= |g.code| && ExitsOk(g, if go then a.f else a.t, |g.code| - 1, if go then a.t
          else a.f)
  {
    hide Den, Open, CodeGen.JumpOnCond, Distinct, Pending;
    JumpOnCondDen(SomeEnv(), fs0, fs, a, !go, ex);
    var g := CodeGen.JumpOnCond(fs, a, !go);
    OpenExits(fs0, g, LastExit(g, a.t, !go), LastExit(g, a.f, go), ex, go, false);
    hide ExitsOk;
    MakeExits(g, a.t, a.f, |g.code| - 1, go);
  }

  lemma GoParts(fs0: Fs, fs: Fs, a: ExpDesc, ex: Expr, go: bool)
    requires Builds(fs0, fs, a, ex)
    ensures var d := CodeGen.DischargeVars(fs, a);
      && Builds(fs0, d.fs, d.e, ex) && Discharged(d.e)
      && |fs0.code| <= |fs.code| && (forall x | x in fs.jpc && x < |fs0.code| :: x in fs0.jpc)
      && (forall x | x in d.e.t || x in d.e.f :: x >= |fs0.code|)
      && (d.e.k.VJmp? ==>
        var g := if go then CodeGen.InvertJump(d.fs, d.e.k.pc) else d.fs;
        |fs0.code| <= |g.code| && ExitsOk(g, if go then d.e.f else d.e.t, d.e.k.pc, if go then d.e.t else d.e.f))
      && (!d.e.k.VJmp? ==>
        var g := CodeGen.JumpOnCond(d.fs, d.e, !go);
        |g.code| > 0 && |fs0.code| <= |g.code| && ExitsOk(g, if go then d.e.f
            else d.e.t, |g.code| - 1, if go then d.e.t else d.e.f))
  {
    var d := CodeGen.DischargeVars(fs, a);
    BuildsParts(fs0, fs, a, ex);
    DischargeVarsDen(SomeEnv(), fs0, fs, a, ex);
    BuildsParts(fs0, d.fs, d.e, ex);
    hide Den, ExitsOk, CodeGen.InvertJump, CodeGen.JumpOnCond, CodeGen.DischargeVars;
    if d.e.k.VJmp? { JmpExits(fs0, d.fs, d.e, ex, go); } else { TestExits(fs0, d.fs, d.e, ex, go); }
  }

  lemma InvertThreaded(code: seq<Instr>, link: Links, pc: nat, jpc: seq<nat>)
    requires Linked(code, link) && Pending(code, jpc)
    ensures 1 <= pc <= |code| ==> Threaded(code, link)[pc - 1].Cmp? == code[pc - 1].Cmp?
    ensures 1 <= pc <= |code| && code[pc - 1].Cmp? ==>
      var i := code[pc - 1]; var c := code[pc - 1 := Cmp(i.op, !i.cond, i.b, i.c)];
      && Threaded(code, link)[pc - 1] == i && Linked(c, link) && Pending(c, jpc)
      && Threaded(c, link) == Threaded(code, link)[pc - 1 := Cmp(i.op, !i.cond, i.b, i.c)]
  {}

  lemma ChainsKept(fs: Fs, link: Links, other: Links, e: EDesc, a: ExpDesc, n: nat, s: seq<nat>)
    requires Chains(link, e, a) && Frame(link, other, n, Elems(s))
    requires forall x | x in a.t || x in a.f :: x < n && x !in s
    ensures Chains(other, e, a)
  {
    ChainFrame(link, other, e.t, a.t);
    ChainFrame(link, other, e.f, a.f);
  }

  lemma JumpParts(fs0: Fs, fs: Fs, a: ExpDesc, ex: Expr)
    requires Builds(fs0, fs, a, ex) && (a.k.VReloc? || a.k.VNonReloc?)
    ensures forall x | x in a.t || x in a.f :: x < |fs.code| && x !in fs.jpc && (a.k.VReloc? ==> x < |fs.code| - 1)
    ensures a.k.VReloc? ==>
      && a.k.pc == |fs.code| - 1 && (fs.code[a.k.pc].Not? || fs.code[a.k.pc].GetUpval?) && fs.jpc == []
      && |fs0.code| <= |fs.code| - 1
  {
    ExitsInCode2(Base(fs, a), fs.jpc, a.t, a.f, |fs0.code|);
  }

  lemma AnyRegJpc(fs: Fs, a: ExpDesc)
    requires a.k.VReloc? || a.k.VNonReloc?
    ensures CodeGen.Discharge2AnyReg(fs, a).fs.jpc == fs.jpc && CodeGen.Discharge2AnyReg(fs, a).e.k.VNonReloc?
    ensures |CodeGen.Discharge2AnyReg(fs, a).fs.code| == |fs.code|
    ensures var d := CodeGen.Discharge2AnyReg(fs, a); CodeGen.FreeExp(d.fs, d.e).(freereg := d.fs.freereg) == d.fs
  {}

  lemma ThreadedAt(code: seq<Instr>, link: Links, pc: nat)
    requires Linked(code, link) && pc < |code| && !code[pc].Jmp?
    ensures Threaded(code, link)[pc] == code[pc]
  {}

  lemma EmptyDescribes(link: Links, reg: nat)
    ensures Describes(link, EDesc(VNonReloc(reg), NO_JUMP, NO_JUMP), ExpDesc(VNonReloc(reg), [], []))
  {}

  lemma BuildsParts(fs0: Fs, fs: Fs, a: ExpDesc, ex: Expr)
    requires Builds(fs0, fs, a, ex)
    ensures ListsOk(fs, a.t, a.f) && (forall x | x in a.t :: x !in a.f) && |fs0.code| <= |fs.code|
    ensures Means(fs0, fs, a, ex) && fs.nactvar == fs0.nactvar
    ensures forall x | x in fs.jpc && x < |fs0.code| :: x in fs0.jpc
    ensures forall x | x in a.t || x in a.f :: x >= |fs0.code|
  {
    DenMean(SomeEnv(), fs0, fs, a, ex, fs.freereg);
    MeansLists(fs0, fs, a, ex);
    ListsApart(fs, a.t, a.f);
  }

  lemma AnyRegParts(fs0: Fs, fs: Fs, a: ExpDesc, ex: Expr)
    requires Builds(fs0, fs, a, ex)
    ensures var d := CodeGen.DischargeVars(fs, a);
      && Builds(fs0, d.fs, d.e, ex) && Means(fs0, d.fs, d.e, ex) && Discharged(d.e)
      && (forall x | x in d.e.t :: x !in d.e.f)
      && |fs0.code| <= |fs.code| && (forall x | x in fs.jpc && x < |fs0.code| :: x in fs0.jpc)
      && CodeGen.Exp2AnyReg(fs, a) == (
        if d.e.k.VNonReloc? && !HasJumps(d.e) then d
        else if d.e.k.VNonReloc? && d.e.k.r >= d.fs.nactvar then CodeGen.Exp2Reg(d.fs, d.e, d.e.k.r)
        else CodeGen.Exp2NextReg(d.fs, d.e))
      && (d.e.k.VNonReloc? ==> CodeGen.Exp2Reg(d.fs, d.e, d.e.k.r).e == ExpDesc(VNonReloc(d.e.k.r), [], []))
  {
    var d := CodeGen.DischargeVars(fs, a);
    BuildsParts(fs0, fs, a, ex);
    DischargeVarsDen(SomeEnv(), fs0, fs, a, ex);
    BuildsParts(fs0, d.fs, d.e, ex);
    if d.e.k.VNonReloc? { ClosedIs(d.fs, d.e, d.e.k.r); }
    hide CodeGen.Exp2Reg, CodeGen.Exp2NextReg, Den, Mean;
  }

  lemma RKParts(fs0: Fs, fs: Fs, a: ExpDesc, ex: Expr)
    requires Builds(fs0, fs, a, ex)
    ensures (forall x | x in a.t :: x !in a.f) && |fs0.code| <= |fs.code|
    ensures var v := if HasJumps(a) then CodeGen.Exp2AnyReg(fs, a) else CodeGen.DischargeVars(fs, a);
      Builds(fs0, v.fs, v.e, ex)
    ensures forall x | x in fs.jpc && x < |fs0.code| :: x in fs0.jpc
  {
    BuildsParts(fs0, fs, a, ex);
    hide CodeGen.Exp2AnyReg;
    Exp2AnyRegDen(SomeEnv(), fs0, fs, a, ex);
    DischargeVarsDen(SomeEnv(), fs0, fs, a, ex);
    hide Den, CodeGen.DischargeVars;
  }

  lemma DescribesKind(link: Links, e: EDesc, a: ExpDesc)
    requires Describes(link, e, a)
    ensures e.k == a.k
  {}

  lemma NextRegParts(fs0: Fs, fs: Fs, a: ExpDesc, ex: Expr)
    requires Builds(fs0, fs, a, ex)
    ensures var d := CodeGen.DischargeVars(fs, a);
      && Discharged(d.e) && CodeGen.FreeExp(d.fs, d.e) == d.fs.(freereg := fs0.freereg)
      && Means(fs0, d.fs.(freereg := fs0.freereg + 1), d.e, ex)
      && |fs0.code| <= |fs.code| && (forall x | x in fs.jpc && x < |fs0.code| :: x in fs0.jpc)
    ensures CodeGen.Exp2NextReg(fs, a).e == ExpDesc(VNonReloc(fs0.freereg), [], [])
  {
    var d := CodeGen.DischargeVars(fs, a);
    DischargeVarsDen(SomeEnv(), fs0, fs, a, ex);
    DenFrees(SomeEnv(), fs0, d.fs, d.e, ex);
    DenMean(SomeEnv(), fs0, d.fs, d.e, ex, fs0.freereg + 1);
    DenMean(SomeEnv(), fs0, fs, a, ex, fs.freereg);
    MeansLists(fs0, fs, a, ex);
    Exp2NextRegDen(SomeEnv(), fs0, fs, a, ex);
    ClosedIs(CodeGen.FreeExp(d.fs, d.e).(freereg := fs0.freereg + 1), d.e, fs0.freereg);
    hide Den, Mean, Discharge2Reg, Closing;
  }

  ghost predicate Means(fs0: Fs, fs: Fs, a: ExpDesc, ex: Expr) { Mean(SomeEnv(), fs0, fs, a, ex) }

  lemma MeansLists(fs0: Fs, fs: Fs, a: ExpDesc, ex: Expr)
    requires Means(fs0, fs, a, ex)
    ensures ListsOk(fs, a.t, a.f)
    ensures a.k.VReloc? ==> a.k.pc < |fs.code| && !fs.code[a.k.pc].Jmp?
    ensures a.k.VJmp? ==>
      && fs.jpc == [] && a.k.pc < |fs.code| && fs.code[a.k.pc] == Jmp(NO_JUMP) && a.k.pc >= |fs0.code|
      && ListsOk(fs, a.t + [a.k.pc], a.f) && Distinct(a.t + [a.k.pc])
    ensures |fs0.code| <= |fs.code| && forall x | x in a.t || x in a.f :: x >= |fs0.code|
    ensures forall x | x in fs.jpc && x < |fs0.code| :: x in fs0.jpc
  {
    var n := |fs0.code|;
    ShapeLists(Base(fs, a), fs.jpc, a.t, a.f, n);
    ExitsInCode2(Base(fs, a), fs.jpc, a.t, a.f, n);
    if a.k.VJmp? {
      JmpDistinct(fs.jpc, a.t, a.f, a.k.pc);
      DistinctParts(fs.jpc, a.t + [a.k.pc] + a.f);
      DistinctParts(a.t + [a.k.pc], a.f);
    }
  }

  lemma JmpDistinct(jpc: seq<nat>, t: seq<nat>, f: seq<nat>, x: nat)
    requires Distinct(jpc + (t + f)) && jpc == [] && x !in t && x !in f
    ensures Distinct(jpc + (t + [x] + f))
  {
    forall y ensures multiset(jpc + (t + [x] + f))[y] <= 1 {
      assert multiset(jpc + (t + f))[y] <= 1;
    }
  }

  lemma MeansValue(fs0: Fs, fs: Fs, a: ExpDesc, reg: nat, ex: Expr)
    requires Means(fs0, fs, a, ex) && (a.k.VReloc? || a.k.VNonReloc?)
    ensures ListsOk(CodeGen.Discharge2Reg(fs, a, reg).fs, a.t, a.f)
    ensures forall x | x in CodeGen.Discharge2Reg(fs, a, reg).fs.jpc && x < |fs0.code| :: x in fs0.jpc
    ensures |CodeGen.Discharge2Reg(fs, a, reg).fs.code| >= |fs.code|
  {
    ValueReg(SomeEnv(), fs0, fs, a, reg, ex);
    var d := CodeGen.Discharge2Reg(fs, a, reg);
    ShapeLists(d.fs.code, d.fs.jpc, a.t, a.f, |fs0.code|);
  }

  lemma DischargedIs(fs: Fs, a: ExpDesc, reg: nat)
    requires Discharged(a)
    ensures CodeGen.Discharge2Reg(fs, a, reg).e == a.(k := if a.k.VJmp? then a.k else VNonReloc(reg))
    ensures a.k.VJmp? ==> CodeGen.Discharge2Reg(fs, a, reg).fs == fs
  {}

  /** The end of `exp2reg` on sequences. */
  function Closing(fs: Fs, jmp: bool, reg: nat, b: ExpDesc): Fs {
    if !HasJumps(b) then fs
    else if CodeGen.NeedValue(fs.code, b.t) || CodeGen.NeedValue(fs.code, b.f) then
      var l := CodeGen.LoadBools(fs, jmp, reg);
      CodeGen.PatchExits(l, b, reg, |l.code| - 2)
    else CodeGen.PatchExits(fs, b, reg, 0)
  }

  lemma ClosedIs(fs: Fs, a: ExpDesc, reg: nat)
    requires Discharged(a)
    ensures var d := CodeGen.Discharge2Reg(fs, a, reg);
      CodeGen.Exp2Reg(fs, a, reg) == Res(
        Closing(d.fs, a.k.VJmp?, reg, if a.k.VJmp? then d.e.(t := d.e.t + [a.k.pc]) else d.e),
            ExpDesc(VNonReloc(reg), [], []))
  {
    DischargedIs(fs, a, reg);
    hide CodeGen.Discharge2Reg, CodeGen.LoadBools, PatchAll, CodeGen.NeedValue;
  }

  /** The jump of a comparison has joined the true exits. */
  lemma AfterExit(was: Links, link: Links, e: EDesc, t: int, fs: Fs, a: ExpDesc)
    requires Chains(was, e, a) && LinksKept(was, link, Elems(a.t)) && ListsOk(fs, a.t, a.f)
    requires a.k.VJmp? && Chain(link, t, a.t + [a.k.pc])
    ensures Chains(link, EDesc(e.k, t, e.f), a.(t := a.t + [a.k.pc]))
  {
    ListsApart(fs, a.t, a.f);
    ChainFrame(was, link, e.f, a.f);
  }

  lemma LoadsKeepLists(fs: Fs, l: Fs, jmp: bool, reg: nat, was: Links, link: Links, d: EDesc, b: ExpDesc)
    requires Chains(was, d, b) && ListsOk(fs, b.t, b.f) && l == CodeGen.LoadBools(fs, jmp, reg)
        && Pending(fs.code, fs.jpc)
    requires Frame(was, link, |fs.code|, if jmp then Elems(fs.jpc) else {})
    ensures |l.code| >= 2 && Chains(link, d, b) && ListsOk(l, b.t, b.f)
  {
    ListsApart(fs, b.t, b.f);
    ChainFrame(was, link, d.t, b.t);
    ChainFrame(was, link, d.f, b.f);
    if jmp {
      OthersPending(fs.code, fs.jpc, b.t, |fs.code|, NO_REG, |fs.code|);
      OthersPending(fs.code, fs.jpc, b.f, |fs.code|, NO_REG, |fs.code|);
      NoExits(b.t + b.f);
      DistinctParts(fs.jpc, b.t + b.f);
    } else {
      assert [|fs.code|] + fs.jpc + (b.t + b.f) == [|fs.code|] + (fs.jpc + (b.t + b.f));
      NewDistinct(fs.code, fs.jpc + (b.t + b.f));
    }
  }

  /** Two lists have the same first jump only if both are empty. */
  lemma NoJumpIsEmpty(link: Links, d: EDesc, b: ExpDesc)
    requires Chains(link, d, b) && forall x | x in b.t :: x !in b.f
    ensures d.t != d.f <==> HasJumps(b)
  {
    if b.t != [] { assert b.t[0] in b.t; }
    if b.f != [] { assert b.f[0] in b.f; }
  }

  lemma HeldPending(fs: Fs, s: seq<nat>)
    requires s == [|fs.code|] + fs.jpc && Pending(fs.code, fs.jpc) && Distinct(fs.jpc)
    ensures Pending(fs.code + [Jmp(NO_JUMP)], s) && Distinct(s)
  {
    NewDistinct(fs.code, fs.jpc);
  }

  lemma LoadedCode(fs: Fs, reg: nat)
    ensures CodeGen.Code(CodeGen.Code(fs, LoadBool(reg, false, true)), LoadBool(reg, true, false))
      == fs.(code := Patched(fs.code, fs.jpc) + Loads(reg), jpc := [])
  {
    assert Patched(fs.code, fs.jpc) + [LoadBool(reg, false, true)] + [LoadBool(reg, true, false)]
        == Patched(fs.code, fs.jpc) + Loads(reg);
  }

  lemma LoadedPending(mid: Fs, fs: Fs, was: Links, link: Links, fj: int, s: seq<nat>, reg: nat)
    requires fs.code == Patched(mid.code, mid.jpc) + Loads(reg) && Chain(was, fj, s) && Pending(mid.code, s)
    requires s == [] || mid.jpc == []
    requires forall x | x in s :: (x in link <==> x in was) && (x in was ==> link[x] == was[x])
    ensures Pending(fs.code, s) && Chain(link, fj, s)
  {
    ChainFrame(was, link, fj, s);
    if mid.jpc == [] { PatchNone(mid.code); }
  }

  /** Patching a list leaves the jumps of other lists pending. */
  lemma OthersPending(code: seq<Instr>, list: seq<nat>, other: seq<nat>, vt: nat, reg: int, dt: nat)
    requires Pending(code, list) && Pending(code, other) && reg >= -1 && forall x | x in other :: x !in list
    ensures Pending(PatchAll(code, list, vt, reg, dt), other)
  {
    forall x | x in other ensures PatchAll(code, list, vt, reg, dt)[x] == Jmp(NO_JUMP) {
      PatchAllAt(code, list, vt, reg, dt, x);
      assert x + 1 in list ==> !Valued(code, x + 1);
    }
  }

  /** An `expdesc`, with its lists as the positions of their first jumps. */
  datatype EDesc = EDesc(k: Kind, t: int, f: int)

  ghost predicate Chains(link: Links, e: EDesc, a: ExpDesc) { Chain(link, e.t, a.t) && Chain(link, e.f, a.f) }

  /** The jump of a comparison is on no list yet. */
  ghost predicate Describes(link: Links, e: EDesc, a: ExpDesc) {
    e.k == a.k && Chains(link, e, a) && (a.k.VJmp? ==> a.k.pc !in link)
  }

  ghost predicate ListsOk(fs: Fs, t: seq<nat>, f: seq<nat>) {
    Distinct(fs.jpc + (t + f)) && Pending(fs.code, t) && Pending(fs.code, f)
  }

  /** Between `fs0` and `fs` the code of `ex` has been generated. */
  ghost predicate Builds(fs0: Fs, fs: Fs, a: ExpDesc, ex: Expr) { Den(SomeEnv(), fs0, fs, a, ex) }

  function SomeEnv(): Env { Env((o, v, w) => false, i => Nil) }

  lemma BuildsLists(fs0: Fs, fs: Fs, a: ExpDesc, ex: Expr)
    requires Builds(fs0, fs, a, ex)
    ensures ListsOk(fs, a.t, a.f)
    ensures a.k.VReloc? ==> a.k.pc < |fs.code| && !fs.code[a.k.pc].Jmp?
  {
    ShapeLists(Base(fs, a), fs.jpc, a.t, a.f, |fs0.code|);
  }

  lemma ShapeLists(code: seq<Instr>, jpc: seq<nat>, t: seq<nat>, f: seq<nat>, from: nat)
    requires Shape(code, jpc, t + f, from)
    ensures Distinct(jpc + (t + f)) && Pending(code, t) && Pending(code, f)
  {
    ExitsInCode2(code, jpc, t, f, from);
  }

  lemma ListsApart(fs: Fs, t: seq<nat>, f: seq<nat>)
    requires ListsOk(fs, t, f)
    ensures forall x | x in t || x in f :: x < |fs.code| && x !in fs.jpc && fs.code[x] == Jmp(NO_JUMP)
    ensures forall x | x in t :: x !in f
    ensures Distinct(fs.jpc) && Distinct(t) && Distinct(f)
  {
    DistinctParts(fs.jpc, t + f);
    DistinctParts(t, f);
    assert forall x | x in t || x in f :: x in t + f;
  }

  /** The lists of an expression stay while the jumps to the next instruction change. */
  lemma DescribesKept(fs: Fs, link: Links, other: Links, e: EDesc, a: ExpDesc)
    requires Describes(link, e, a) && ListsOk(fs, a.t, a.f) && Frame(link, other, |fs.code|, Elems(fs.jpc))
        && !a.k.VJmp?
    ensures Describes(other, e, a)
  {
    ListsApart(fs, a.t, a.f);
    ChainFrame(link, other, e.t, a.t);
    ChainFrame(link, other, e.f, a.f);
  }

  lemma SetReg(code: seq<Instr>, link: Links, pc: nat, reg: nat)
    requires Linked(code, link) && pc < |code| && !code[pc].Jmp?
    ensures Threaded(code, link)[pc] == code[pc]
    ensures Threaded(code[pc := SetA(code[pc], reg)], link) == Threaded(code, link)[pc := SetA(code[pc], reg)]
    ensures Linked(code[pc := SetA(code[pc], reg)], link)
  {}

  /** The lists before position `n` are as they were, those in `s` aside. */
  ghost predicate Frame(link: Links, other: Links, n: nat, s: set<nat>) {
    forall x | x < n && x !in s :: (x in other <==> x in link) && (x in link ==> other[x] == link[x])
  }

  lemma PendingBoth(code: seq<Instr>, a: seq<nat>, b: seq<nat>)
    requires Pending(code, a) && Pending(code, b)
    ensures Pending(code, a + b)
  {}

  lemma KeptFrame(link: Links, other: Links, n: nat, s: seq<nat>)
    requires LinksKept(link, other, Elems(s))
    ensures Frame(link, other, n, Elems(s))
  {}

  lemma NewDistinct(code: seq<Instr>, list: seq<nat>)
    requires Distinct(list) && Pending(code, list)
    ensures Distinct([|code|] + list)
  {
    forall x ensures multiset([|code|] + list)[x] <= 1 {
      assert multiset(list)[x] <= 1;
      if x == |code| { assert x !in list; }
    }
  }

  lemma LastDiffers(s1: seq<nat>, s2: seq<nat>)
    requires s1 != [] && s2 != [] && Distinct(s1 + s2)
    ensures s2[0] != s1[|s1| - 1]
  {
    var x := s1[|s1| - 1];
    assert multiset(s1 + s2)[x] <= 1;
    assert multiset(s1 + s2)[x] == multiset(s1)[x] + multiset(s2)[x];
    assert x in s1 && multiset(s1)[x] > 0;
    assert s2[0] in s2 && multiset(s2)[s2[0]] > 0;
  }

  lemma StillPending(code: seq<Instr>, s: seq<nat>, x: nat)
    requires Pending(code, s)
    ensures Pending(PatchTestReg(code, x, NO_REG), s)
  {}

  lemma PatchPending(code: seq<Instr>, s: seq<nat>, vt: nat, reg: int, dt: nat)
    requires s != [] && Pending(code, s) && Distinct(s) && s[0] < |code|
    ensures Pending(PatchOne(code, s[0], vt, reg, dt), s[1..])
  {
    DistinctHead(s);
    forall x | x in s[1..] ensures x < |code| && PatchOne(code, s[0], vt, reg, dt)[x] == Jmp(NO_JUMP) {
      assert x in s;
    }
  }
}
