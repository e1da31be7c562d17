/** The table of interned strings (`lstring.c`): chains of strings, threaded through their `next`
    fields, in buckets by hash value. */
module StrTable {

  const NONE: int := -1

  // ---------- hash values ----------

  /** The hash of the characters before `l1`, every `step`-th one. */
  function HashFrom(str: seq<bv8>, l1: nat, step: nat, h: bv32): bv32
    requires l1 <= |str| && step > 0
    decreases l1
  {
    if l1 < step then h else HashFrom(str, l1 - step, step, h ^ ((h << 5) + (h >> 2) + (str[l1 - 1] as bv32)))
  }

  /** The seed is the length, as an unsigned 32-bit number. */
  function Seed(n: nat): bv32 { (n % 0x1_0000_0000) as bv32 }

  function HashOf(str: seq<bv8>): bv32 { HashFrom(str, |str|, |str| / 32 + 1, Seed(|str|)) }

  /** The bucket for a hash value; sizes are powers of two in the program, where this is a mask. */
  function Index(h: bv32, size: nat): (r: nat)
    requires size > 0
    ensures r < size
  {
    (h as int) % size
  }

  // ---------- chains ----------

  /** A string object. */
  datatype TString = TString(text: seq<bv8>, hash: bv32, next: int)

  /** From `head` the `next` fields lead through exactly the strings in `s`. */
  ghost predicate Chain(objs: map<nat, TString>, head: int, s: seq<nat>)
    decreases |s|
  {
    if s == [] then head == NONE else head == s[0] && s[0] in objs && Chain(objs, objs[s[0]].next, s[1..])
  }

  ghost predicate NoDup(s: seq<nat>) { forall i, j | 0 <= i < j < |s| :: s[i] != s[j] }

  function Elems(s: seq<nat>): set<nat> { set x | x in s }

  /** A chain is the same when its strings are. */
  lemma {:induction false} ChainSame(objs: map<nat, TString>, other: map<nat, TString>, head: int, s: seq<nat>)
    requires Chain(objs, head, s) && forall x | x in s :: x in objs ==> x in other && other[x].next == objs[x].next
    ensures Chain(other, head, s)
    decreases |s|
  {
    if s != [] {
      assert s[0] in s && forall x | x in s[1..] :: x in s;
      ChainSame(objs, other, objs[s[0]].next, s[1..]);
    }
  }

  lemma {:induction false} ChainIn(objs: map<nat, TString>, head: int, s: seq<nat>)
    requires Chain(objs, head, s)
    ensures forall x | x in s :: x in objs
    decreases |s|
  {
    if s != [] {
      ChainIn(objs, objs[s[0]].next, s[1..]);
      assert forall x | x in s :: x == s[0] || x in s[1..];
    }
  }

  function Total(chains: seq<seq<nat>>): nat { if chains == [] then 0 else |chains[0]| + Total(chains[1..]) }

  lemma {:induction false} TotalUpdate(chains: seq<seq<nat>>, b: nat, s: seq<nat>)
    requires b < |chains|
    ensures Total(chains[b := s]) == Total(chains) - |chains[b]| + |s|
    decreases |chains|
  {
    if b == 0 {
      assert chains[0 := s][1..] == chains[1..];
    } else {
      assert chains[b := s][1..] == chains[1..][b - 1 := s];
      TotalUpdate(chains[1..], b - 1, s);
    }
  }

  lemma {:induction false} TotalEmpty(chains: seq<seq<nat>>)
    requires forall b | 0 <= b < |chains| :: chains[b] == []
    ensures Total(chains) == 0
    decreases |chains|
  {
    if chains != [] { TotalEmpty(chains[1..]); }
  }

  /** All strings of some chains. */
  ghost function All(chains: seq<seq<nat>>): set<nat> { set b, x | 0 <= b < |chains| && x in chains[b] :: x }

  /** Strings are in the bucket of their hash value. */
  ghost predicate Placed(objs: map<nat, TString>, chains: seq<seq<nat>>) {
    |chains| > 0 && forall b, x | 0 <= b < |chains| && x in chains[b] :: x in objs && Index(objs[x].hash, |chains|) == b
  }

  ghost predicate Threaded(objs: map<nat, TString>, heads: seq<int>, chains: seq<seq<nat>>) {
    |heads| == |chains| && forall b | 0 <= b < |chains| :: Chain(objs, heads[b], chains[b]) && NoDup(chains[b])
  }

  /** No two strings have the same content, and each has the hash value of its content. */
  ghost predicate Interned(objs: map<nat, TString>) {
    && (forall x, y | x in objs && y in objs && objs[x].text == objs[y].text :: x == y)
    && (forall x | x in objs :: objs[x].hash == HashOf(objs[x].text))
  }

  ghost predicate NotIn(objs: map<nat, TString>, s: seq<nat>, str: seq<bv8>) {
    forall x | x in s :: x in objs && objs[x].text != str
  }

  /** A string that is not in the bucket for its hash value is nowhere. */
  lemma NotFound(objs: map<nat, TString>, chains: seq<seq<nat>>, b: nat, str: seq<bv8>)
    requires Placed(objs, chains) && Interned(objs) && All(chains) == objs.Keys
    requires b == Index(HashOf(str), |chains|) && NotIn(objs, chains[b], str)
    ensures forall x | x in objs :: objs[x].text != str
  {
    hide HashOf, Index;
    forall x | x in objs ensures objs[x].text != str {
      assert x in All(chains);
      var c :| 0 <= c < |chains| && x in chains[c];
      assert Index(objs[x].hash, |chains|) == c;
    }
  }

  class StringTable {
    var heads: seq<int>
    var objs: map<nat, TString>
    var nuse: nat
    /** The collector is in the phase that sweeps strings. */
    var sweeping: bool
    /** Strings that the collector has found dead and not freed yet. */
    var dead: set<nat>
    ghost var chains: seq<seq<nat>>

    ghost predicate Valid()
      reads this
    {
      && Placed(objs, chains) && Threaded(objs, heads, chains) && Interned(objs)
      && All(chains) == objs.Keys && nuse == Total(chains)
    }

    constructor (size: nat)
      requires size > 0
      ensures Valid() && objs == map[] && !sweeping && |heads| == size && dead == {}
    {
      heads := seq(size, _ => NONE);
      objs, nuse, sweeping, dead := map[], 0, false, {};
      chains := seq(size, _ => []);
      new;
      TotalEmpty(chains);
    }

    /** The loop that computes the hash value. */
    method ComputeHash(str: seq<bv8>) returns (h: bv32)
      ensures h == HashOf(str)
    {
      h := Seed(|str|);
      var step := |str| / 32 + 1;
      var l1: nat := |str|;
      while l1 >= step
        invariant l1 <= |str| && HashFrom(str, l1, step, h) == HashOf(str)
      {
        h := h ^ ((h << 5) + (h >> 2) + (str[l1 - 1] as bv32));
        l1 := l1 - step;
      }
    }

    /** The search in one chain. */
    method Find(str: seq<bv8>, h: bv32) returns (o: int)
      requires Valid() && h == HashOf(str)
      ensures if o == NONE then forall x | x in objs :: objs[x].text != str else o in objs && objs[o].text == str
    {
      hide HashOf, Index, Interned, All;
      var b := Index(h, |heads|) by { assert |heads| == |chains|; }
      o := heads[b];
      ghost var k: nat := 0;
      ghost var s := chains[b];
      assert s[0..] == s;
      while o != NONE
        invariant k <= |s| && Chain(objs, o, s[k..]) && NotIn(objs, s[..k], str)
        decreases |s| - k
      {
        assert s[k..][0] == s[k] && s[k..][1..] == s[k + 1..] && s[..k + 1] == s[..k] + [s[k]];
        if objs[o].text == str { return; }
        o := objs[o].next;
        k := k + 1;
      }
      assert s[..k] == s;
      NotFound(objs, chains, b, str);
    }

    /** `newlstr`: a new object at the given address, first in its chain. The table grows when it has
        more strings than buckets. */
    method NewLStr(at: nat, str: seq<bv8>, h: bv32) returns (ts: nat)
      requires Valid() && at !in objs && h == HashOf(str) && forall x | x in objs :: objs[x].text != str
      modifies this
      ensures Valid() && ts == at && objs.Keys == old(objs.Keys) + {at} && objs[at].text == str
      ensures forall x | x in old(objs) :: x in objs && objs[x].text == old(objs)[x].text
      ensures dead == old(dead) && sweeping == old(sweeping)
      ensures sweeping || |heads| == (if nuse > |old(heads)| then 2 * |old(heads)| else |old(heads)|)
    {
      hide HashOf, Index, Interned, Placed, Threaded, Total;
      SizesAgree(objs, heads, chains);
      var b := Index(h, |heads|);
      ts := at;
      ghost var was := chains;
      StringAdded(objs, heads, chains, at, str, h, b);
      objs := objs[at := TString(str, h, heads[b])];
      heads := heads[b := at];
      chains := chains[b := [at] + chains[b]];
      nuse := nuse + 1;
      assert nuse == Total(chains) by { TotalUpdate(was, b, [at] + was[b]); }
      if nuse > |heads| { Resize(2 * |heads|); }
    }

    /** `luaS_newlstr`: the one string object with this content. One that was found dead is alive again. */
    method Intern(at: nat, str: seq<bv8>) returns (ts: nat)
      requires Valid() && at !in objs
      modifies this
      ensures Valid() && ts in objs && objs[ts].text == str && (ts in old(objs) ==> ts !in dead)
      ensures (exists x :: x in old(objs) && old(objs)[x].text == str) ==> ts in old(objs) && objs == old(objs)
      ensures objs.Keys == old(objs.Keys) + {ts} && forall x | x in old(objs) :: objs[x].text == old(objs)[x].text
    {
      hide HashOf, Index, Interned, Placed, Threaded, Total;
      var h := ComputeHash(str);
      var o := Find(str, h);
      if o != NONE {
        ts := o;
        dead := dead - {ts};
      } else {
        ts := NewLStr(at, str, h);
      }
    }

    /** `luaS_resize`: every string goes to the front of its new chain; nothing happens while strings
        are being swept. */
    method Resize(newsize: nat)
      requires Valid() && newsize > 0
      modifies this
      ensures Valid() && objs.Keys == old(objs.Keys) && nuse == old(nuse) && dead == old(dead)
          && sweeping == old(sweeping)
      ensures forall x | x in objs :: objs[x].text == old(objs)[x].text && objs[x].hash == old(objs)[x].hash
      ensures |heads| == if sweeping then |old(heads)| else newsize
    {
      hide HashOf, Index, Interned, Total, All;
      SizesAgree(objs, heads, chains);
      if sweeping { return; }
      var newhash := seq(newsize, _ => NONE);
      ghost var newChains: seq<seq<nat>> := seq(newsize, _ => []);
      ghost var objs0 := objs;
      RehashStart(objs, heads, chains, newhash, newChains);
      var i := 0;
      while i < |heads|
        invariant i <= |heads| == |chains| && heads == old(heads) && chains == old(chains) && nuse == old(nuse)
        invariant dead == old(dead) && sweeping == old(sweeping) && |newhash| == newsize
        invariant Rehash(objs0, objs, newhash, newChains, heads[i..], chains[i..], nuse)
      {
        var p := heads[i];
        ghost var cur := chains[i];
        assert [p] + heads[i + 1..] == heads[i..] && [cur] + chains[i + 1..] == chains[i..];
        while p != NONE
          invariant i < |heads| == |chains| && heads == old(heads) && chains == old(chains) && nuse == old(nuse)
          invariant dead == old(dead) && sweeping == old(sweeping) && |newhash| == newsize
          invariant Rehash(objs0, objs, newhash, newChains, [p] + heads[i + 1..], [cur] + chains[i + 1..], nuse)
          decreases |cur|
        {
          RehashFirst(objs0, objs, newhash, newChains, p, cur, heads[i + 1..], chains[i + 1..], nuse);
          var next := objs[p].next;
          var h1 := Index(objs[p].hash, newsize);
          RehashMove(objs0, objs, newhash, newChains, p, cur, heads[i + 1..], chains[i + 1..], nuse, h1);
          objs := objs[p := objs[p].(next := newhash[h1])];
          newhash := newhash[h1 := p];
          newChains := newChains[h1 := [cur[0]] + newChains[h1]];
          p := next;
          cur := cur[1..];
        }
        RehashNext(objs0, objs, newhash, newChains, cur, heads[i + 1..], chains[i + 1..], nuse);
        i := i + 1;
      }
      assert heads[i..] == [] && chains[i..] == [];
      RehashEnd(objs0, objs, newhash, newChains, nuse);
      heads := newhash;
      chains := newChains;
    }

    /** A dead string is unlinked from its chain and freed (`sweepwholelist` and `freeobj`). */
    method Unlink(b: nat, prev: int, curr: nat, ghost kept: seq<nat>, ghost rest: seq<nat>)
      requires Valid() && b < |heads| == |chains| && chains[b] == kept + rest && rest != [] && curr == rest[0]
          && curr in objs
      requires prev == (if kept == [] then NONE else kept[|kept| - 1]) && (kept != [] ==> prev in objs)
      modifies this
      ensures Valid() && |heads| == |chains| == |old(heads)| && chains == old(chains)[b := kept + rest[1..]]
          && sweeping == old(sweeping)
      ensures objs.Keys == old(objs.Keys) - {curr} && dead == old(dead) - {curr}
      ensures forall x | x in objs :: objs[x].text == old(objs)[x].text && objs[x].hash == old(objs)[x].hash
    {
      hide HashOf, Index, Interned, Placed, Threaded, Total, All, Chain;
      CutOne(objs, heads, chains, b, kept, rest);
      var next := objs[curr].next;
      if prev == NONE { heads := heads[b := next]; } else { objs := objs[prev := objs[prev].(next := next)]; }
      objs := objs - {curr};
      nuse := nuse - 1;
      dead := dead - {curr};
      chains := chains[b := kept + rest[1..]];
    }

    /** The sweep of one bucket (`sweepwholelist` and `freeobj`): exactly its dead strings are freed. */
    method SweepBucket(b: nat)
      requires Valid() && b < |heads|
      modifies this
      ensures Valid() && |heads| == |old(heads)| && sweeping == old(sweeping)
      ensures objs.Keys == old(objs.Keys) - (old(dead) * InBucket(old(objs), b, |heads|))
      ensures forall x | x in objs :: objs[x].text == old(objs)[x].text && objs[x].hash == old(objs)[x].hash
      ensures dead == old(dead) - InBucket(old(objs), b, |heads|)
    {
      hide HashOf, Index, Interned, Placed, Threaded, Total, All, Chain, InBucket;
      SizesAgree(objs, heads, chains);
      var prev, curr := NONE, heads[b];
      ghost var kept: seq<nat>, rest := [], chains[b];
      ghost var bucket := Elems(chains[b]);
      BucketIs(objs, chains, b);
      ghost var objs0, dead0 := objs, dead;
      assert [] + chains[b] == chains[b];
      SweepStart(objs, heads, chains, b);
      while curr != NONE
        invariant Valid() && |heads| == |chains| == |old(heads)| && chains[b] == kept + rest
            && sweeping == old(sweeping)
        invariant curr == (if rest == [] then NONE else rest[0])
        invariant prev == (if kept == [] then NONE else kept[|kept| - 1])
        invariant objs.Keys == objs0.Keys - (dead0 * (bucket - Elems(kept + rest)))
            && dead == dead0 - (bucket - Elems(kept + rest))
        invariant Elems(kept) !! dead && Elems(kept + rest) <= bucket && objs.Keys <= objs0.Keys
        invariant forall x | x in objs :: objs[x].text == objs0[x].text && objs[x].hash == objs0[x].hash
        invariant bucket - Elems(kept + rest) <= dead0
        decreases |rest|
      {
        SweepAt(objs, heads, chains, b, kept, rest);
        assert (kept + [rest[0]]) + rest[1..] == kept + rest;
        if curr !in dead {
          prev := curr;
          curr := objs[curr].next;
          kept, rest := kept + [rest[0]], rest[1..];
        } else {
          FreeSets(objs.Keys, objs0.Keys, dead, dead0, bucket, kept, rest);
          var next := objs[curr].next;
          Unlink(b, prev, curr, kept, rest);
          rest := rest[1..];
          curr := next;
        }
      }
      assert kept + [] == kept;
      SweepEnd(objs0.Keys, dead, dead0, bucket, kept);
    }
  }

  /** The strings in one bucket. */
  ghost function InBucket(objs: map<nat, TString>, b: nat, size: nat): set<nat>
    requires size > 0
  {
    set x | x in objs && Index(objs[x].hash, size) == b
  }

  lemma BucketIs(objs: map<nat, TString>, chains: seq<seq<nat>>, b: nat)
    requires Placed(objs, chains) && All(chains) == objs.Keys && b < |chains|
    ensures InBucket(objs, b, |chains|) == Elems(chains[b])
  {
    hide Index;
    forall x | x in InBucket(objs, b, |chains|) ensures x in chains[b] {
      assert x in All(chains);
      var c :| 0 <= c < |chains| && x in chains[c];
    }
  }

  lemma SweepStart(objs: map<nat, TString>, heads: seq<int>, chains: seq<seq<nat>>, b: nat)
    requires Threaded(objs, heads, chains) && b < |chains|
    ensures heads[b] == if chains[b] == [] then NONE else chains[b][0]
  {
    assert Chain(objs, heads[b], chains[b]);
  }

  lemma {:induction false} ChainAt(objs: map<nat, TString>, head: int, kept: seq<nat>, rest: seq<nat>)
    requires Chain(objs, head, kept + rest)
    ensures rest != [] ==> rest[0] in objs && objs[rest[0]].next == if |rest| == 1 then NONE else rest[1]
    ensures kept != [] ==> kept[|kept| - 1] in objs
    decreases |kept|
  {
    if kept == [] {
      assert kept + rest == rest;
    } else {
      assert (kept + rest)[1..] == kept[1..] + rest && (kept + rest)[0] == kept[0];
      ChainAt(objs, objs[kept[0]].next, kept[1..], rest);
    }
  }

  lemma SweepAt(objs: map<nat, TString>, heads: seq<int>, chains: seq<seq<nat>>, b: nat, kept: seq<nat>, rest: seq<nat>)
    requires Threaded(objs, heads, chains) && b < |chains| && chains[b] == kept + rest && rest != []
    ensures rest[0] in objs && objs[rest[0]].next == (if rest[1..] == [] then NONE else rest[1..][0])
    ensures kept != [] ==> kept[|kept| - 1] in objs
    ensures NoDup(kept + rest)
  {
    assert Chain(objs, heads[b], chains[b]);
    ChainAt(objs, heads[b], kept, rest);
  }

  /** From `head` the `next` fields lead through the strings in `s` to `to`. */
  ghost predicate Segment(objs: map<nat, TString>, head: int, s: seq<nat>, to: int)
    decreases |s|
  {
    if s == [] then head == to else head == s[0] && s[0] in objs && Segment(objs, objs[s[0]].next, s[1..], to)
  }

  lemma {:induction false} ChainParts(objs: map<nat, TString>, head: int, kept: seq<nat>, rest: seq<nat>)
    requires Chain(objs, head, kept + rest)
    ensures var to := if rest == [] then NONE else rest[0]; Segment(objs, head, kept, to) && Chain(objs, to, rest)
    decreases |kept|
  {
    if kept == [] {
      assert kept + rest == rest;
    } else {
      assert (kept + rest)[1..] == kept[1..] + rest && (kept + rest)[0] == kept[0];
      ChainParts(objs, objs[kept[0]].next, kept[1..], rest);
    }
  }

  lemma {:induction false} ChainJoin(objs: map<nat, TString>, head: int, kept: seq<nat>, to: int, rest: seq<nat>)
    requires Segment(objs, head, kept, to) && Chain(objs, to, rest)
    ensures Chain(objs, head, kept + rest)
    decreases |kept|
  {
    if kept == [] {
      assert kept + rest == rest;
    } else {
      assert (kept + rest)[1..] == kept[1..] + rest && (kept + rest)[0] == kept[0];
      ChainJoin(objs, objs[kept[0]].next, kept[1..], to, rest);
    }
  }

  /** The last string of a segment gets another `next`. */
  lemma {:induction false} SegmentRelinked(objs: map<nat, TString>, other: map<nat, TString>, head: int, s: seq<nat>,
                                           to: int, to2: int)
    requires Segment(objs, head, s, to) && s != [] && (forall x | x in s && x in objs :: x in other)
    requires forall i | 0 <= i < |s| - 1 :: s[i] in objs ==> other[s[i]].next == objs[s[i]].next
    requires s[|s| - 1] in objs ==> other[s[|s| - 1]].next == to2
    ensures Segment(other, head, s, to2)
    decreases |s|
  {
    assert s[0] in s;
    if |s| > 1 {
      assert s[1..][|s| - 2] == s[|s| - 1] && forall x | x in s[1..] :: x in s;
      SegmentRelinked(objs, other, objs[s[0]].next, s[1..], to, to2);
    }
  }

  /** One string is taken out of a chain. */
  lemma ChainCut(objs: map<nat, TString>, head: int, kept: seq<nat>, rest: seq<nat>)
    requires Chain(objs, head, kept + rest) && rest != [] && NoDup(kept + rest) && rest[0] in objs
        && (kept != [] ==> kept[|kept| - 1] in objs)
    ensures var next := objs[rest[0]].next;
      if kept == [] then Chain(objs - {rest[0]}, next, rest[1..])
      else Chain(objs[kept[|kept| - 1] := objs[kept[|kept| - 1]].(next := next)] - {rest[0]}, head, kept + rest[1..])
  {
    var next := objs[rest[0]].next;
    ChainParts(objs, head, kept, rest);
    assert Chain(objs, next, rest[1..]);
    forall x | x in rest[1..] ensures x != rest[0] && x !in kept { RestApart(kept + rest, kept, rest, x); }
    NoDupCut(kept, rest);
    if kept == [] {
      ChainSame(objs, objs - {rest[0]}, next, rest[1..]);
    } else {
      CutLinked(objs, head, kept, rest);
    }
  }

  lemma CutLinked(objs: map<nat, TString>, head: int, kept: seq<nat>, rest: seq<nat>)
    requires kept != [] && rest != [] && NoDup(kept + rest) && rest[0] in objs && kept[|kept| - 1] in objs
    requires Segment(objs, head, kept, rest[0]) && Chain(objs, objs[rest[0]].next, rest[1..])
    requires rest[0] !in kept + rest[1..] && forall x | x in rest[1..] :: x != rest[0] && x !in kept
    ensures Chain(objs[kept[|kept| - 1] := objs[kept[|kept| - 1]].(next := objs[rest[0]].next)] - {rest[0]}, head,
        kept + rest[1..])
  {
    hide Chain, Segment;
    var next, last := objs[rest[0]].next, kept[|kept| - 1];
    var objs2 := objs[last := objs[last].(next := next)] - {rest[0]};
    assert last in kept && forall x | x in kept :: x in kept + rest[1..];
    forall i | 0 <= i < |kept| - 1 ensures kept[i] != last {
      assert (kept + rest)[i] == kept[i] && (kept + rest)[|kept| - 1] == last;
    }
    SegmentRelinked(objs, objs2, head, kept, rest[0], next);
    ChainSame(objs, objs2, next, rest[1..]);
    ChainJoin(objs2, head, kept, next, rest[1..]);
  }

  lemma RestApart(all: seq<nat>, kept: seq<nat>, rest: seq<nat>, x: nat)
    requires all == kept + rest && NoDup(all) && rest != [] && x in rest[1..]
    ensures x != rest[0] && x !in kept
  {
    var i :| 0 <= i < |rest[1..]| && rest[1..][i] == x;
    assert all[|kept| + 1 + i] == x && all[|kept|] == rest[0];
    forall k | 0 <= k < |kept| ensures kept[k] != x { assert all[k] == kept[k]; }
  }

  lemma NoDupCut(kept: seq<nat>, rest: seq<nat>)
    requires NoDup(kept + rest) && rest != []
    ensures NoDup(kept + rest[1..]) && rest[0] !in kept + rest[1..]
  {
    var all, cut := kept + rest, kept + rest[1..];
    forall i, j | 0 <= i < j < |cut| ensures cut[i] != cut[j] {
      var i2, j2 := if i < |kept| then i else i + 1, if j < |kept| then j else j + 1;
      assert cut[i] == all[i2] && cut[j] == all[j2];
    }
    forall i | 0 <= i < |cut| ensures cut[i] != rest[0] {
      assert cut[i] == all[if i < |kept| then i else i + 1] && all[|kept|] == rest[0];
    }
  }

  /** A string is unlinked and freed. */
  lemma CutOne(objs: map<nat, TString>, heads: seq<int>, chains: seq<seq<nat>>, b: nat, kept: seq<nat>, rest: seq<nat>)
    requires Placed(objs, chains) && Threaded(objs, heads, chains) && Interned(objs) && All(chains) == objs.Keys
    requires b < |chains| && chains[b] == kept + rest && rest != [] && rest[0] in objs
        && (kept != [] ==> kept[|kept| - 1] in objs)
    ensures var next := objs[rest[0]].next; var chains2 := chains[b := kept + rest[1..]];
      var heads2 := if kept == [] then heads[b := next] else heads;
      var objs2 := (if kept == [] then objs else objs[kept[|kept| - 1] :=
          objs[kept[|kept| - 1]].(next := next)]) - {rest[0]};
      && Placed(objs2, chains2) && Threaded(objs2, heads2, chains2) && Interned(objs2) && All(chains2) == objs2.Keys
      && Total(chains2) == Total(chains) - 1 && objs2.Keys == objs.Keys - {rest[0]}
      && forall x | x in objs2 :: objs2[x].text == objs[x].text && objs2[x].hash == objs[x].hash
  {
    hide HashOf, Index, Placed, All, Total, Interned, Chain, NoDup;
    var next, chains2 := objs[rest[0]].next, chains[b := kept + rest[1..]];
    var heads2 := if kept == [] then heads[b := next] else heads;
    var objs2 := (if kept == [] then objs else objs[kept[|kept| - 1] :=
        objs[kept[|kept| - 1]].(next := next)]) - {rest[0]};
    TotalUpdate(chains, b, kept + rest[1..]);
    CutThreaded(objs, heads, chains, b, kept, rest, objs2, heads2);
    assert NoDup(chains[b]);
    CutPlaced(objs, chains, b, kept, rest, objs2);
    InternedFewer(objs, objs2);
  }

  lemma InternedFewer(objs: map<nat, TString>, other: map<nat, TString>)
    requires Interned(objs) && other.Keys <= objs.Keys
    requires forall x | x in other :: other[x].text == objs[x].text && other[x].hash == objs[x].hash
    ensures Interned(other)
  {
    hide HashOf;
  }

  lemma CutThreaded(objs: map<nat, TString>, heads: seq<int>, chains: seq<seq<nat>>, b: nat, kept: seq<nat>,
                    rest: seq<nat>,
                    objs2: map<nat, TString>, heads2: seq<int>)
    requires Placed(objs, chains) && Threaded(objs, heads, chains) && b < |chains| && chains[b] == kept + rest
        && rest != []
    requires rest[0] in objs && (kept != [] ==> kept[|kept| - 1] in objs)
    requires heads2 == if kept == [] then heads[b := objs[rest[0]].next] else heads
    requires objs2 == (if kept == [] then objs
        else objs[kept[|kept| - 1] := objs[kept[|kept| - 1]].(next := objs[rest[0]].next)]) - {rest[0]}
    ensures Threaded(objs2, heads2, chains[b := kept + rest[1..]])
  {
    hide Index;
    var chains2 := chains[b := kept + rest[1..]];
    assert Chain(objs, heads[b], chains[b]) && NoDup(chains[b]);
    ChainCut(objs, heads[b], kept, rest);
    NoDupCut(kept, rest);
    assert kept + rest[1..] == if kept == [] then rest[1..] else kept + rest[1..];
    forall c | 0 <= c < |chains2| ensures Chain(objs2, heads2[c], chains2[c]) && NoDup(chains2[c]) {
      if c != b {
        assert Chain(objs, heads[c], chains[c]) && NoDup(chains[c]);
        forall x | x in chains[c] ensures x !in chains[b] { assert Index(objs[x].hash, |chains|) == c; }
        assert rest[0] in chains[b] && (kept != [] ==> kept[|kept| - 1] in chains[b]);
        ChainSame(objs, objs2, heads[c], chains[c]);
      }
    }
  }

  lemma CutPlaced(objs: map<nat, TString>, chains: seq<seq<nat>>, b: nat, kept: seq<nat>, rest: seq<nat>,
                  objs2: map<nat, TString>)
    requires Placed(objs, chains) && b < |chains| && chains[b] == kept + rest && rest != [] && All(chains) == objs.Keys
        && NoDup(chains[b])
    requires objs2.Keys == objs.Keys - {rest[0]} && forall x | x in objs2 :: objs2[x].hash == objs[x].hash
    ensures Placed(objs2, chains[b := kept + rest[1..]]) && All(chains[b := kept + rest[1..]]) == objs2.Keys
  {
    hide Index;
    var chains2 := chains[b := kept + rest[1..]];
    NoDupCut(kept, rest);
    forall c, x | 0 <= c < |chains2| && x in chains2[c] ensures x in objs2 && Index(objs2[x].hash, |chains2|) == c {
      assert x in chains[c];
    }
    forall x | x in objs2 ensures x in All(chains2) {
      assert x in All(chains);
      var c :| 0 <= c < |chains| && x in chains[c];
      if c == b { assert x in kept || x in rest[1..]; }
      assert x in chains2[c];
    }
  }

  lemma FreeSets(keys: set<nat>, keys0: set<nat>, dead: set<nat>, dead0: set<nat>, bucket: set<nat>, kept: seq<nat>,
                 rest: seq<nat>)
    requires rest != [] && rest[0] in dead && NoDup(kept + rest) && Elems(kept + rest) <= bucket
    requires keys == keys0 - (dead0 * (bucket - Elems(kept + rest))) && dead == dead0 - (bucket - Elems(kept + rest))
        && bucket - Elems(kept + rest) <= dead0
    ensures Elems(kept + rest[1..]) == Elems(kept + rest) - {rest[0]}
    ensures keys - {rest[0]} == keys0 - (dead0 * (bucket - Elems(kept + rest[1..])))
        && dead - {rest[0]} == dead0 - (bucket - Elems(kept + rest[1..]))
    ensures bucket - Elems(kept + rest[1..]) <= dead0
  {
    NoDupCut(kept, rest);
    var a, z := Elems(kept + rest), Elems(kept + rest[1..]);
    forall x | x in a - {rest[0]} ensures x in z { assert x in kept || x in rest[1..]; }
    forall x | x in z ensures x in a { assert x in kept || x in rest; }
    assert rest[0] in rest && rest[0] in a;
  }

  lemma SweepEnd(keys0: set<nat>, dead: set<nat>, dead0: set<nat>, bucket: set<nat>, kept: seq<nat>)
    requires Elems(kept) !! dead && Elems(kept) <= bucket && bucket - Elems(kept) <= dead0
        && dead == dead0 - (bucket - Elems(kept))
    ensures keys0 - (dead0 * (bucket - Elems(kept))) == keys0 - (dead0 * bucket) && dead == dead0 - bucket
  {}

  lemma SizesAgree(objs: map<nat, TString>, heads: seq<int>, chains: seq<seq<nat>>)
    requires Placed(objs, chains) && Threaded(objs, heads, chains)
    ensures |heads| == |chains| > 0
  {}

  lemma StringAdded(objs: map<nat, TString>, heads: seq<int>, chains: seq<seq<nat>>, at: nat, str: seq<bv8>, h: bv32,
                    b: nat)
    requires Placed(objs, chains) && Threaded(objs, heads, chains) && Interned(objs) && All(chains) == objs.Keys
    requires at !in objs && h == HashOf(str) && (forall x | x in objs :: objs[x].text != str) && b == Index(h, |chains|)
    ensures var objs2 := objs[at := TString(str, h, heads[b])]; var chains2 := chains[b := [at] + chains[b]];
      Placed(objs2, chains2) && Threaded(objs2, heads[b := at], chains2) && Interned(objs2)
          && All(chains2) == objs2.Keys
  {
    hide HashOf, Index, All, Chain, NoDup;
    AddedThreaded(objs, heads, chains, at, TString(str, h, heads[b]), b);
    AddedInterned(objs, at, TString(str, h, heads[b]));
    hide Interned;
    var objs2, chains2 := objs[at := TString(str, h, heads[b])], chains[b := [at] + chains[b]];
    forall c, x | 0 <= c < |chains2| && x in chains2[c] ensures x in objs2 && Index(objs2[x].hash, |chains2|) == c {
      if x != at { assert x in chains[c]; }
    }
    AllAdded(chains, b, at);
  }

  lemma AddedThreaded(objs: map<nat, TString>, heads: seq<int>, chains: seq<seq<nat>>, at: nat, entry: TString, b: nat)
    requires Placed(objs, chains) && Threaded(objs, heads, chains) && at !in objs && b < |chains|
        && entry.next == heads[b]
    ensures Threaded(objs[at := entry], heads[b := at], chains[b := [at] + chains[b]])
  {
    hide Index;
    var objs2, heads2, chains2 := objs[at := entry], heads[b := at], chains[b := [at] + chains[b]];
    forall c | 0 <= c < |chains2| ensures Chain(objs2, heads2[c], chains2[c]) && NoDup(chains2[c]) {
      ChainSame(objs, objs2, heads[c], chains[c]);
      if c == b {
        assert chains2[b][1..] == chains[b];
        assert at !in chains[b];
      }
    }
  }

  lemma AddedInterned(objs: map<nat, TString>, at: nat, entry: TString)
    requires Interned(objs) && at !in objs && entry.hash == HashOf(entry.text)
    requires forall x | x in objs :: objs[x].text != entry.text
    ensures Interned(objs[at := entry])
  {
    hide HashOf;
  }

  lemma AllAdded(chains: seq<seq<nat>>, b: nat, at: nat)
    requires b < |chains|
    ensures All(chains[b := [at] + chains[b]]) == All(chains) + {at}
  {
    var chains2 := chains[b := [at] + chains[b]];
    forall x | x in All(chains) + {at} ensures x in All(chains2) {
      if x == at {
        assert x in chains2[b];
      } else {
        var c :| 0 <= c < |chains| && x in chains[c];
        assert x in chains2[c];
      }
    }
  }

  // ---------- rehashing ----------

  ghost predicate SameStrings(objs: map<nat, TString>, other: map<nat, TString>) {
    other.Keys == objs.Keys && forall x | x in objs :: other[x].text == objs[x].text && other[x].hash == objs[x].hash
  }

  /** No string is in two of the chains. */
  ghost predicate Apart(chains: seq<seq<nat>>) {
    forall i, j, x | 0 <= i < j < |chains| && x in chains[i] :: x !in chains[j]
  }

  /** In the middle of `luaS_resize`: every string is in a new chain, or in what is left of the old ones. */
  ghost predicate Rehash(objs0: map<nat, TString>, objs: map<nat, TString>, newhash: seq<int>, newChains: seq<seq<nat>>,
                         heads: seq<int>, chains: seq<seq<nat>>, nuse: nat) {
    && SameStrings(objs0, objs) && Placed(objs, newChains) && Threaded(objs, newhash, newChains)
        && Threaded(objs, heads, chains)
    && Apart(chains) && All(newChains) + All(chains) == objs.Keys && All(newChains) !! All(chains)
    && Total(newChains) + Total(chains) == nuse && Interned(objs)
  }

  lemma RehashStart(objs: map<nat, TString>, heads: seq<int>, chains: seq<seq<nat>>, newhash: seq<int>,
                    newChains: seq<seq<nat>>)
    requires Placed(objs, chains) && Threaded(objs, heads, chains) && Interned(objs) && All(chains) == objs.Keys
    requires |newhash| == |newChains| > 0 && forall b | 0 <= b < |newChains| :: newChains[b] == [] && newhash[b] == NONE
    ensures Rehash(objs, objs, newhash, newChains, heads[0..], chains[0..], Total(chains))
  {
    hide Index, HashOf, Interned, All, Chain, NoDup, Total, Apart, Placed, Threaded;
    EmptyChains(objs, newhash, newChains);
    ApartByIndex(objs, chains);
    assert heads[0..] == heads && chains[0..] == chains;
    SameStringsTrans(objs, objs, objs);
    MakeRehash(objs, objs, newhash, newChains, heads, chains, Total(chains));
  }

  lemma EmptyChains(objs: map<nat, TString>, heads: seq<int>, chains: seq<seq<nat>>)
    requires |heads| == |chains| > 0 && forall b | 0 <= b < |chains| :: chains[b] == [] && heads[b] == NONE
    ensures Placed(objs, chains) && Threaded(objs, heads, chains) && All(chains) == {} && Total(chains) == 0
  {
    TotalEmpty(chains);
  }

  /** Only `next` has changed. */
  lemma NextSame(objs: map<nat, TString>, p: nat, to: int)
    requires p in objs
    ensures SameStrings(objs, objs[p := objs[p].(next := to)])
  {}

  lemma SameStringsTrans(a: map<nat, TString>, b: map<nat, TString>, c: map<nat, TString>)
    ensures SameStrings(a, b) && SameStrings(b, c) ==> SameStrings(a, c)
    ensures SameStrings(a, a)
  {}

  lemma ApartByIndex(objs: map<nat, TString>, chains: seq<seq<nat>>)
    requires Placed(objs, chains)
    ensures Apart(chains)
  {
    hide Index;
    forall i, j, x | 0 <= i < j < |chains| && x in chains[i] ensures x !in chains[j] {
      assert Index(objs[x].hash, |chains|) == i;
    }
  }

  lemma RehashFirst(objs0: map<nat, TString>, objs: map<nat, TString>, newhash: seq<int>, newChains: seq<seq<nat>>,
                    p: int, cur: seq<nat>, heads: seq<int>, chains: seq<seq<nat>>, nuse: nat)
    requires Rehash(objs0, objs, newhash, newChains, [p] + heads, [cur] + chains, nuse) && p != NONE
    ensures cur != [] && p == cur[0] && p in objs && |newhash| == |newChains|
  {
    hide Interned, Placed, All, Apart, SameStrings;
    assert ([cur] + chains)[0] == cur && ([p] + heads)[0] == p;
    assert Chain(objs, ([p] + heads)[0], ([cur] + chains)[0]);
  }

  lemma RehashNext(objs0: map<nat, TString>, objs: map<nat, TString>, newhash: seq<int>, newChains: seq<seq<nat>>,
                   cur: seq<nat>, heads: seq<int>, chains: seq<seq<nat>>, nuse: nat)
    requires Rehash(objs0, objs, newhash, newChains, [NONE] + heads, [cur] + chains, nuse)
    ensures Rehash(objs0, objs, newhash, newChains, heads, chains, nuse)
  {
    hide Interned, Placed, SameStrings, Chain, NoDup;
    var hs, cs := [NONE] + heads, [cur] + chains;
    assert cs[0] == cur && hs[0] == NONE;
    assert cur == [] by { assert Chain(objs, hs[0], cs[0]); EmptyChain(objs, cur); }
    forall b | 0 <= b < |chains| ensures Chain(objs, heads[b], chains[b]) && NoDup(chains[b]) {
      assert cs[b + 1] == chains[b] && hs[b + 1] == heads[b];
    }
    forall i, j, x | 0 <= i < j < |chains| && x in chains[i] ensures x !in chains[j] {
      assert cs[i + 1] == chains[i] && cs[j + 1] == chains[j];
    }
    AllTail(cs);
    assert cs[1..] == chains;
  }

  lemma EmptyChain(objs: map<nat, TString>, s: seq<nat>)
    requires Chain(objs, NONE, s)
    ensures s == []
  {}

  lemma AllTail(chains: seq<seq<nat>>)
    requires chains != [] && chains[0] == []
    ensures All(chains[1..]) == All(chains) && Total(chains[1..]) == Total(chains)
  {
    forall x | x in All(chains) ensures x in All(chains[1..]) {
      var c :| 0 <= c < |chains| && x in chains[c];
      assert x in chains[1..][c - 1];
    }
    forall x | x in All(chains[1..]) ensures x in All(chains) {
      var c :| 0 <= c < |chains[1..]| && x in chains[1..][c];
      assert x in chains[c + 1];
    }
  }

  /** Where the first string of the remaining chains is, and where it is not. */
  lemma FirstAlone(objs: map<nat, TString>, newChains: seq<seq<nat>>, p: nat, tail: seq<nat>, heads: seq<int>,
                   next: int, chains: seq<seq<nat>>)
    requires Threaded(objs, [p as int] + heads, [[p] + tail] + chains) && Apart([[p] + tail] + chains)
    requires All(newChains) !! All([[p] + tail] + chains)
    ensures p !in tail && (forall j | 0 <= j < |chains| :: p !in chains[j])
    ensures forall b | 0 <= b < |newChains| :: p !in newChains[b]
    ensures NoDup(tail)
  {
    var cs := [[p] + tail] + chains;
    assert cs[0] == [p] + tail && cs[0][0] == p && NoDup(cs[0]);
    assert p in cs[0];
    forall i | 0 <= i < |tail| ensures tail[i] != p { assert cs[0][i + 1] == tail[i]; }
    forall j | 0 <= j < |chains| ensures p !in chains[j] { assert cs[j + 1] == chains[j]; }
    assert p in All(cs);
    forall b | 0 <= b < |newChains| ensures p !in newChains[b] { assert p in newChains[b] ==> p in All(newChains); }
    forall i, j | 0 <= i < j < |tail| ensures tail[i] != tail[j] {
      assert cs[0][i + 1] == tail[i] && cs[0][j + 1] == tail[j];
    }
  }

  lemma MovedNew(objs: map<nat, TString>, newhash: seq<int>, newChains: seq<seq<nat>>, p: nat, h1: nat)
    requires Placed(objs, newChains) && Threaded(objs, newhash, newChains) && p in objs
        && h1 == Index(objs[p].hash, |newChains|)
    requires forall b | 0 <= b < |newChains| :: p !in newChains[b]
    ensures var objs2 := objs[p := objs[p].(next := newhash[h1])]; var chains2 := newChains[h1 := [p] + newChains[h1]];
      Placed(objs2, chains2) && Threaded(objs2, newhash[h1 := p], chains2)
  {
    hide Index;
    var objs2, chains2, hash2 := objs[p := objs[p].(next := newhash[h1])], newChains[h1 := [p] + newChains[h1]],
        newhash[h1 := p];
    forall b, x | 0 <= b < |chains2| && x in chains2[b] ensures x in objs2 && Index(objs2[x].hash, |chains2|) == b {
      if x != p { assert x in newChains[b]; }
    }
    forall b | 0 <= b < |chains2| ensures Chain(objs2, hash2[b], chains2[b]) && NoDup(chains2[b]) {
      ChainSame(objs, objs2, newhash[b], newChains[b]);
      if b == h1 { assert chains2[b][1..] == newChains[b]; }
    }
  }

  lemma MovedOld(objs: map<nat, TString>, p: nat, tail: seq<nat>, heads: seq<int>, chains: seq<seq<nat>>, to: int)
    requires Threaded(objs, [p as int] + heads, [[p] + tail] + chains) && p in objs && NoDup(tail)
    requires p !in tail && forall j | 0 <= j < |chains| :: p !in chains[j]
    ensures Threaded(objs[p := objs[p].(next := to)], [objs[p].next] + heads, [tail] + chains)
  {
    var objs2 := objs[p := objs[p].(next := to)];
    var hs, cs := [p as int] + heads, [[p] + tail] + chains;
    var hs2, cs2 := [objs[p].next] + heads, [tail] + chains;
    assert Chain(objs, hs[0], cs[0]) && cs[0][1..] == tail;
    forall b | 0 <= b < |cs2| ensures Chain(objs2, hs2[b], cs2[b]) && NoDup(cs2[b]) {
      if b == 0 {
        ChainSame(objs, objs2, objs[p].next, tail);
      } else {
        assert hs[b] == heads[b - 1] && cs[b] == chains[b - 1] && Chain(objs, hs[b], cs[b]) && NoDup(cs[b]);
        ChainSame(objs, objs2, hs[b], cs[b]);
      }
    }
  }

  lemma MovedSets(newChains: seq<seq<nat>>, p: nat, tail: seq<nat>, chains: seq<seq<nat>>, h1: nat)
    requires h1 < |newChains| && p !in tail && (forall j | 0 <= j < |chains| :: p !in chains[j])
        && Apart([[p] + tail] + chains)
    ensures All(newChains[h1 := [p] + newChains[h1]]) == All(newChains) + {p}
    ensures All([tail] + chains) == All([[p] + tail] + chains) - {p} && p in All([[p] + tail] + chains)
        && Apart([tail] + chains)
    ensures Total(newChains[h1 := [p] + newChains[h1]]) == Total(newChains) + 1
        && Total([tail] + chains) == Total([[p] + tail] + chains) - 1
  {
    AllAdded(newChains, h1, p);
    TotalUpdate(newChains, h1, [p] + newChains[h1]);
    var cs, cs2 := [[p] + tail] + chains, [tail] + chains;
    assert cs[1..] == chains && cs2[1..] == chains;
    assert cs[0] == [p] + tail && p in cs[0];
    forall x | x in All(cs) - {p} ensures x in All(cs2) {
      var c :| 0 <= c < |cs| && x in cs[c];
      assert x in cs2[c];
    }
    forall x | x in All(cs2) ensures x in All(cs) - {p} {
      var c :| 0 <= c < |cs2| && x in cs2[c];
      assert x in cs[c];
    }
    forall i, j, x | 0 <= i < j < |cs2| && x in cs2[i] ensures x !in cs2[j] { assert x in cs[i] && cs2[j] == cs[j]; }
  }

  lemma RehashMove(objs0: map<nat, TString>, objs: map<nat, TString>, newhash: seq<int>, newChains: seq<seq<nat>>,
                   p: int, cur: seq<nat>, heads: seq<int>, chains: seq<seq<nat>>, nuse: nat, h1: nat)
    requires Rehash(objs0, objs, newhash, newChains, [p] + heads, [cur] + chains, nuse) && p != NONE
    requires cur != [] && p == cur[0] && p in objs && |newhash| == |newChains| && h1 == Index(objs[p].hash, |newhash|)
    ensures Rehash(objs0, objs[p := objs[p].(next := newhash[h1])], newhash[h1 := p],
        newChains[h1 := [cur[0]] + newChains[h1]],
                   [objs[p].next] + heads, [cur[1..]] + chains, nuse)
  {
    hide Index, All, Apart, Threaded, Placed, Total, HashOf, Interned, SameStrings;
    var q, tail := cur[0], cur[1..];
    assert cur == [q] + tail;
    FirstAlone(objs, newChains, q, tail, heads, objs[p].next, chains);
    MovedNew(objs, newhash, newChains, q, h1);
    MovedOld(objs, q, tail, heads, chains, newhash[h1]);
    MovedSets(newChains, q, tail, chains, h1);
    var objs2 := objs[q := objs[q].(next := newhash[h1])];
    NextSame(objs, q, newhash[h1]);
    SameStringsTrans(objs0, objs, objs2);
    InternedSame(objs, objs2);
    SetsMove(All(newChains), All([cur] + chains), objs.Keys, q);
    MakeRehash(objs0, objs2, newhash[h1 := q], newChains[h1 := [q] + newChains[h1]], [objs[q].next] + heads,
        [tail] + chains, nuse);
  }

  lemma SetsMove(a: set<nat>, b: set<nat>, all: set<nat>, p: nat)
    requires a + b == all && a !! b && p in b
    ensures (a + {p}) + (b - {p}) == all && (a + {p}) !! (b - {p})
  {}

  lemma MakeRehash(objs0: map<nat, TString>, objs: map<nat, TString>, newhash: seq<int>, newChains: seq<seq<nat>>,
                   heads: seq<int>, chains: seq<seq<nat>>, nuse: nat)
    requires SameStrings(objs0, objs) && Placed(objs, newChains) && Threaded(objs, newhash, newChains)
        && Threaded(objs, heads, chains)
    requires Apart(chains) && All(newChains) + All(chains) == objs.Keys && All(newChains) !! All(chains)
    requires Total(newChains) + Total(chains) == nuse && Interned(objs)
    ensures Rehash(objs0, objs, newhash, newChains, heads, chains, nuse)
  {
    hide SameStrings, Placed, Threaded, Apart, All, Total, Interned;
  }

  lemma InternedSame(objs: map<nat, TString>, other: map<nat, TString>)
    requires Interned(objs) && SameStrings(objs, other)
    ensures Interned(other)
  {
    hide HashOf;
  }

  lemma RehashEnd(objs0: map<nat, TString>, objs: map<nat, TString>, newhash: seq<int>, newChains: seq<seq<nat>>,
                  nuse: nat)
    requires Rehash(objs0, objs, newhash, newChains, [], [], nuse)
    ensures Placed(objs, newChains) && Threaded(objs, newhash, newChains) && Interned(objs)
        && All(newChains) == objs.Keys
    ensures Total(newChains) == nuse && SameStrings(objs0, objs) && |newhash| == |newChains|
  {
    hide Index, HashOf, Interned, Placed;
    assert All([]) == {};
  }

  // ---------- what interning is for ----------

  /** Two strings of the table are the same object exactly when they have the same content. */
  lemma SameObject(t: StringTable, x: nat, y: nat)
    requires t.Valid() && x in t.objs && y in t.objs
    ensures x == y <==> t.objs[x].text == t.objs[y].text
  {
    hide HashOf, Placed, Threaded, All, Total;
  }
}
