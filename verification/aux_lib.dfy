/** References into a table, and string buffers (`lauxlib.c`). */
module AuxLib {

  // ---------- references ----------

  const REF_NIL: int := -1
  const FREELIST: nat := 0

  /** What a slot holds: a number that links the free list, or a value that a reference stands for. */
  datatype Slot<V> = Link(ref: nat) | Held(v: V)

  /** What `luaH_getn` may return: a place behind which the table is empty, and it is not before. */
  predicate Border<V>(t: map<nat, Slot<V>>, b: nat) { (b == 0 || b in t) && b + 1 !in t }

  ghost predicate NoDup(s: seq<nat>) { forall i, j | 0 <= i < j < |s| :: s[i] != s[j] }

  /** The free list: from slot 0 through all free slots; the last one is empty. */
  ghost predicate FreeList<V>(t: map<nat, Slot<V>>, free: seq<nat>) {
    && NoDup(free)
    && (if free == [] then FREELIST !in t else FREELIST in t && t[FREELIST] == Link(free[0]))
    && (forall i | 0 <= i < |free| - 1 :: free[i] in t && t[free[i]] == Link(free[i + 1]))
    && (free != [] ==> free[|free| - 1] !in t)
  }

  /** The slots from 1 to `n` are live or free, and there are no others. */
  ghost predicate Slots<V>(t: map<nat, Slot<V>>, live: map<nat, V>, free: seq<nat>, n: nat) {
    && (forall k | k in live :: 1 <= k <= n && k !in free && k in t && t[k] == Held(live[k]))
    && (forall k | k in free :: 1 <= k <= n)
    && (forall k | 1 <= k <= n :: k in live || k in free)
    && (forall k | k in t :: k <= n)
  }

  class RefTable<V> {
    var t: map<nat, Slot<V>>
    ghost var live: map<nat, V>
    ghost var free: seq<nat>
    ghost var n: nat

    ghost predicate Valid()
      reads this
    {
      FreeList(t, free) && Slots(t, live, free, n)
    }

    constructor ()
      ensures Valid() && live == map[]
    {
      t, live, free, n := map[], map[], [], 0;
    }

    /** `luaL_ref`, for a value that is not nil; `len` is what `lua_objlen` returns, which may be any
        border. The reference is a new one, and all others keep their values. */
    method Ref(v: V, len: nat) returns (ref: nat)
      requires Valid() && Border(t, len)
      modifies this
      ensures Valid() && ref >= 1 && ref !in old(live) && live == old(live)[ref := v]
    {
      if FREELIST in t && t[FREELIST].Link? && t[FREELIST].ref != 0 {
        ref := t[FREELIST].ref;
        TakeFree(t, live, free, n, v);
        t := if ref in t then t[FREELIST := t[ref]] else t - {FREELIST};
        free := free[1..];
      } else {
        NoHole(t, live, free, n, len);
        ref := len + 1;
        n := n + 1;
      }
      t := t[ref := Held(v)];
      live := live[ref := v];
    }

    /** `luaL_ref`: nil has a fixed reference, and takes no slot. */
    method RefValue(v: Option<V>, len: nat) returns (ref: int)
      requires Valid() && Border(t, len)
      modifies this
      ensures Valid() && match v
        case None => ref == REF_NIL && live == old(live)
        case Some(x) => ref >= 1 && ref !in old(live) && live == old(live)[ref := x]
    {
      if v.None? { return REF_NIL; }
      ref := Ref(v.value, len);
    }

    /** `luaL_unref`, of a live reference or of a negative one */
    method Unref(ref: int)
      requires Valid() && (ref >= 0 ==> ref in live)
      modifies this
      ensures Valid() && live == if ref >= 0 then old(live) - {ref as nat} else old(live)
    {
      if ref >= 0 {
        var r: nat := ref;
        GiveBack(t, live, free, n, r);
        t := if FREELIST in t then t[r := t[FREELIST]] else t - {r};
        t := t[FREELIST := Link(r)];
        free := [r] + free;
        live := live - {r};
      }
    }
  }

  datatype Option<V> = None | Some(value: V)

  /** The first free slot is taken out of the list and filled. */
  lemma TakeFree<V>(t: map<nat, Slot<V>>, live: map<nat, V>, free: seq<nat>, n: nat, v: V)
    requires FreeList(t, free) && Slots(t, live, free, n) && FREELIST in t
    ensures free != [] && t[FREELIST] == Link(free[0]) && free[0] >= 1 && free[0] !in live
    ensures var r := free[0]; var t2 := (if r in t then t[FREELIST := t[r]] else t - {FREELIST})[r := Held(v)];
      FreeList(t2, free[1..]) && Slots(t2, live[r := v], free[1..], n)
  {
    var r, rest := free[0], free[1..];
    var t2 := (if r in t then t[FREELIST := t[r]] else t - {FREELIST})[r := Held(v)];
    FirstFree(t, live, free, n);
    assert r in free && forall k | k in free :: k != FREELIST;
    TakenList(t, free, v, t2);
    RestOf(free);
    hide FreeList;
    forall k | 1 <= k <= n ensures k in live[r := v] || k in rest {
      if k !in live && k != r { assert k in free; }
    }
  }

  lemma RestOf(free: seq<nat>)
    requires free != [] && NoDup(free)
    ensures (forall k | k in free :: k == free[0] || k in free[1..])
        && (forall k | k in free[1..] :: k in free && k != free[0])
  {
    forall i | 0 <= i < |free| - 1 ensures free[1..][i] == free[i + 1] && free[i + 1] != free[0] {}
  }

  lemma TakenList<V>(t: map<nat, Slot<V>>, free: seq<nat>, v: V, t2: map<nat, Slot<V>>)
    requires FreeList(t, free) && free != [] && (forall k | k in free :: k != FREELIST)
    requires t2 == (if free[0] in t then t[FREELIST := t[free[0]]] else t - {FREELIST})[free[0] := Held(v)]
    ensures FreeList(t2, free[1..])
  {
    var r, rest := free[0], free[1..];
    forall i | 0 <= i < |rest|
      ensures rest[i] == free[i + 1] && rest[i] != r && rest[i] != FREELIST
    {
      assert free[i + 1] in free;
    }
    if rest != [] { assert t[free[0]] == Link(free[1]); }
    forall i | 0 <= i < |rest| - 1
      ensures rest[i] in t2 && t2[rest[i]] == Link(rest[i + 1])
    {
      assert t[free[i + 1]] == Link(free[i + 2]);
    }
  }

  lemma FirstFree<V>(t: map<nat, Slot<V>>, live: map<nat, V>, free: seq<nat>, n: nat)
    requires FreeList(t, free) && Slots(t, live, free, n) && free != []
    ensures FREELIST in t && t[FREELIST] == Link(free[0]) && free[0] >= 1
  {
    assert free[0] in free;
  }

  /** With no free slot there is no hole: every border is the last slot. */
  lemma NoHole<V>(t: map<nat, Slot<V>>, live: map<nat, V>, free: seq<nat>, n: nat, b: nat)
    requires FreeList(t, free) && Slots(t, live, free, n) && Border(t, b)
    requires FREELIST !in t || !t[FREELIST].Link? || t[FREELIST].ref == 0
    ensures free == [] && b == n
  {
    if free != [] { FirstFree(t, live, free, n); }
    assert 1 <= b + 1 <= n ==> b + 1 in live || b + 1 in free;
  }

  /** A live slot is put at the front of the free list. */
  lemma GiveBack<V>(t: map<nat, Slot<V>>, live: map<nat, V>, free: seq<nat>, n: nat, r: nat)
    requires FreeList(t, free) && Slots(t, live, free, n) && r in live
    ensures var t2 := (if FREELIST in t then t[r := t[FREELIST]] else t - {r})[FREELIST := Link(r)];
      FreeList(t2, [r] + free) && Slots(t2, live - {r}, [r] + free, n)
  {
    var free2 := [r] + free;
    var t2 := (if FREELIST in t then t[r := t[FREELIST]] else t - {r})[FREELIST := Link(r)];
    assert r !in free && r != FREELIST && (forall k | k in free :: k != FREELIST);
    GivenList(t, free, r, t2);
    hide FreeList;
    forall k | 1 <= k <= n ensures k in live - {r} || k in free2 {
      if k == r { assert free2[0] == r; } else if k !in live { assert k in free; }
    }
    forall k | k in free2 ensures 1 <= k <= n { assert k == r || k in free; }
  }

  lemma GivenList<V>(t: map<nat, Slot<V>>, free: seq<nat>, r: nat, t2: map<nat, Slot<V>>)
    requires FreeList(t, free) && r !in free && r != FREELIST && (forall k | k in free :: k != FREELIST)
    requires t2 == (if FREELIST in t then t[r := t[FREELIST]] else t - {r})[FREELIST := Link(r)]
    ensures FreeList(t2, [r] + free)
  {
    var free2 := [r] + free;
    forall i | 0 <= i < |free|
      ensures free2[i + 1] == free[i] && free[i] != r && free[i] != FREELIST
    {
      assert free[i] in free;
    }
    forall i | 0 <= i < |free2| - 1 ensures free2[i] in t2 && t2[free2[i]] == Link(free2[i + 1]) {
      if i > 0 { assert free[i - 1] in t && t[free[i - 1]] == Link(free[i]); }
    }
  }

  // ---------- string buffers ----------

  const LIMIT: nat := 10

  /** The characters of some strings, one after the other. */
  function Joined(s: seq<string>): string { if s == [] then "" else Joined(s[..|s| - 1]) + s[|s| - 1] }

  lemma {:induction false} JoinedTwo(a: seq<string>, b: seq<string>)
    ensures Joined(a + b) == Joined(a) + Joined(b)
    decreases |b|
  {
    if b == [] {
      assert a + b == a;
    } else {
      assert (a + b)[..|a + b| - 1] == a + b[..|b| - 1] && (a + b)[|a + b| - 1] == b[|b| - 1];
      JoinedTwo(a, b[..|b| - 1]);
      assert Joined(a) + (Joined(b[..|b| - 1]) + b[|b| - 1]) == (Joined(a) + Joined(b[..|b| - 1])) + b[|b| - 1];
    }
  }

  /** One more string on the stack. */
  lemma OnTop(stack: seq<string>, lvl: nat, s: string)
    requires lvl <= |stack|
    ensures var all := stack + [s]; var k := |all| - (lvl + 1);
      k == |stack| - lvl && all[..k] == stack[..k] && Joined(all[k..]) == Joined(stack[k..]) + s
  {
    var k := |stack| - lvl;
    JoinedTwo(stack[k..], [s]);
    assert Joined([s]) == s by { assert [s][..0] == []; }
    assert (stack + [s])[k..] == stack[k..] + [s];
  }

  lemma NothingMore(s: string)
    ensures s + "" == s && Joined([]) == ""
  {}

  lemma Assoc(a: string, b: string, c: string)
    ensures a + (b + c) == (a + b) + c
  {}

  /** `luaL_Buffer`: its last `lvl` strings are on the stack, and the newest characters in the buffer. */
  class Buffer {
    const size: nat
    var stack: seq<string>
    var lvl: nat
    var buffer: string
    /** The stack below the buffer's strings. */
    ghost var below: seq<string>

    ghost predicate Held()
      reads this
    {
      lvl <= |stack| && stack[..|stack| - lvl] == below && |buffer| <= size
    }

    /** At most nine strings are on the stack between calls. */
    ghost predicate Valid()
      reads this
    {
      Held() && lvl < LIMIT
    }

    ghost function Contents(): string
      requires Held()
      reads this
    {
      Joined(stack[|stack| - lvl..]) + buffer
    }

    /** `luaL_buffinit` */
    constructor (size: nat, stack: seq<string>)
      requires size > 0
      ensures Valid() && Contents() == "" && below == stack && this.size == size
    {
      this.size, this.stack, lvl, buffer, below := size, stack, 0, "", stack;
    }

    /** `emptybuffer` */
    method EmptyBuffer() returns (r: bool)
      requires Held()
      modifies this
      ensures Held() && Contents() == old(Contents()) && buffer == "" && below == old(below)
      ensures r == (old(buffer) != "") && lvl == (if r then old(lvl) + 1 else old(lvl))
      ensures stack == if r then old(stack) + [old(buffer)] else old(stack)
    {
      if buffer == "" { return false; }
      hide Joined;
      OnTop(stack, lvl, buffer);
      NothingMore(Joined(stack[|stack| - lvl..]) + buffer);
      stack := stack + [buffer];
      buffer := "";
      lvl := lvl + 1;
      return true;
    }

    /** `adjuststack`: the topmost strings are joined, so that few and ever longer ones remain. */
    method AdjustStack()
      requires Held() && lvl <= LIMIT + 1
      modifies this
      ensures Valid() && Contents() == old(Contents()) && buffer == old(buffer) && below == old(below)
    {
      if lvl <= 1 { return; }
      var toget := 1;
      var toplen := |stack[|stack| - 1]|;
      while toget < lvl && (lvl - toget + 1 >= LIMIT || toplen > |stack[|stack| - (toget + 1)]|)
        invariant 1 <= toget <= lvl
      {
        toplen := toplen + |stack[|stack| - (toget + 1)]|;
        toget := toget + 1;
      }
      Concat(toget);
      lvl := lvl - toget + 1;
    }

    /** `lua_concat`, on the buffer's own strings */
    method Concat(n: nat)
      requires Held() && 0 < n <= lvl
      modifies `stack
      ensures |stack| == |old(stack)| - n + 1
          && stack == old(stack)[..|old(stack)| - n] + [Joined(old(stack)[|old(stack)| - n..])]
      ensures var l := lvl - n + 1; l <= |stack| && stack[..|stack| - l] == below
                                    && Joined(stack[|stack| - l..]) == Joined(old(stack)[|old(stack)| - lvl..])
    {
      ghost var was := stack;
      var k := |stack| - n;
      var s := "";
      var i := k;
      while i < |stack|
        invariant k <= i <= |stack| && s == Joined(stack[k..i])
      {
        assert stack[k..i + 1][..|stack[k..i + 1]| - 1] == stack[k..i];
        s := s + stack[i];
        i := i + 1;
      }
      assert stack[k..i] == stack[k..];
      stack := stack[..k] + [s];
      ghost var mine := was[|was| - lvl..k];
      assert was[|was| - lvl..] == mine + was[k..];
      JoinedTwo(mine, was[k..]);
      JoinedTwo(mine, [s]);
      assert Joined([s]) == s by { assert [s][..0] == []; }
      assert stack[|stack| - (lvl - n + 1)..] == mine + [s];
      assert stack[..|stack| - (lvl - n + 1)] == was[..|was| - lvl];
    }

    /** `luaL_addchar` */
    method AddChar(c: char)
      requires Valid() && size > 0
      modifies this
      ensures Valid() && Contents() == old(Contents()) + [c] && below == old(below)
    {
      if |buffer| >= size {
        var r := EmptyBuffer();
        if r { AdjustStack(); }
      }
      hide Joined;
      Assoc(Joined(stack[|stack| - lvl..]), buffer, [c]);
      buffer := buffer + [c];
    }

    /** `luaL_addvalue`: the value on the top of the stack goes into the buffer, or stays as one of its
        strings. */
    method AddValue(s: string)
      requires Valid()
      modifies this
      ensures Valid() && Contents() == old(Contents()) + s && below == old(below)
    {
      hide Joined;
      if |s| <= size - |buffer| {
        Assoc(Joined(stack[|stack| - lvl..]), buffer, s);
        buffer := buffer + s;
      } else {
        var r := EmptyBuffer();
        OnTop(stack, lvl, s);
        NothingMore(Joined(stack[|stack| - lvl..]));
        NothingMore(Joined(stack[|stack| - lvl..]) + s);
        stack := stack + [s];
        lvl := lvl + 1;
        AdjustStack();
      }
    }

    /** `luaL_pushresult`: one string on the stack, with everything that was added */
    method PushResult()
      requires Valid()
      modifies this
      ensures stack == old(below) + [old(Contents())] && lvl == 1 && buffer == ""
    {
      hide Joined;
      var r := EmptyBuffer();
      NothingMore(Joined(stack[|stack| - lvl..]));
      if lvl == 0 {
        assert stack[|stack|..] == [] && stack[..|stack|] == stack;
        stack := stack + [""];
      } else {
        Concat(lvl);
      }
      lvl := 1;
    }
  }
}
