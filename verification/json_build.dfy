/** The tree that the parser builds node by node, in document order. */
module JsonBuild {
  import opened JsonText
  import opened JsonDoc
  import opened JsonParse

  /** The position of the last of some siblings that start at `c`. */
  function LastOf(c: nat, ts: seq<Tree>): (r: nat)
    requires ts != []
    ensures r >= c
    decreases ts
  {
    if |ts| == 1 then c else LastOf(c + Size(ts[0]), ts[1..])
  }

  /** The nodes from `i` on, in document order, form the tree; how the first one is linked to its
      siblings and its parent is left open. */
  ghost predicate Block(nodes: seq<Node>, i: nat, t: Tree)
    decreases t
  {
    && i + Size(t) <= |nodes| && nodes[i].kind == t.kind && nodes[i].text == t.text
    && nodes[i].child == (if t.kids == [] then NONE else i + 1)
    && nodes[i].childEnd == (if t.kids == [] then NONE else LastOf(i + 1, t.kids))
    && Row(nodes, i, i + 1, NONE, t.kids, NONE)
  }

  /** From `c` on, siblings in document order; the one behind the last is `after`. */
  ghost predicate Row(nodes: seq<Node>, parent: nat, c: nat, previous: int, ts: seq<Tree>, after: int)
    decreases ts
  {
    ts == [] ||
    (&& Block(nodes, c, ts[0]) && nodes[c].parent == parent && nodes[c].previous == previous
     && nodes[c].next == (if |ts| == 1 then after else c + Size(ts[0]))
     && Row(nodes, parent, c + Size(ts[0]), c, ts[1..], after))
  }

  lemma {:induction false} BlockIsRep(nodes: seq<Node>, i: nat, t: Tree)
    requires Block(nodes, i, t)
    ensures Rep(nodes, i, t)
    decreases t
  {
    RowIsKids(nodes, i, i + 1, NONE, t.kids);
  }

  lemma {:induction false} RowIsKids(nodes: seq<Node>, parent: nat, c: nat, previous: int, ts: seq<Tree>)
    requires Row(nodes, parent, c, previous, ts, NONE)
    ensures Kids(nodes, parent, if ts == [] then NONE else c, previous, ts)
    decreases ts
  {
    if ts != [] {
      BlockIsRep(nodes, c, ts[0]);
      RowIsKids(nodes, parent, c + Size(ts[0]), c, ts[1..]);
    }
  }

  /** The same nodes from `c` on, up to `e`. */
  ghost predicate Same(nodes: seq<Node>, other: seq<Node>, c: nat, e: nat) {
    e <= |nodes| && e <= |other| && forall k | c <= k < e :: other[k] == nodes[k]
  }

  /** The same, but for how `i` is linked to its siblings. */
  ghost predicate SameBut(nodes: seq<Node>, other: seq<Node>, c: nat, e: nat, i: nat) {
    && e <= |nodes| && e <= |other|
    && (forall k | c <= k < e && k != i :: other[k] == nodes[k])
    && (c <= i < e ==> other[i] == nodes[i].(next := other[i].next))
  }

  lemma {:induction false} BlockSame(nodes: seq<Node>, other: seq<Node>, i: nat, t: Tree)
    requires Block(nodes, i, t) && SameBut(nodes, other, i, i + Size(t), i)
    ensures Block(other, i, t)
    decreases t
  {
    RowSame(nodes, other, i, i + 1, NONE, t.kids, NONE);
  }

  lemma {:induction false} RowSame(nodes: seq<Node>, other: seq<Node>, parent: nat, c: nat, previous: int,
                                   ts: seq<Tree>, after: int)
    requires Row(nodes, parent, c, previous, ts, after) && Same(nodes, other, c, c + SizeAll(ts))
    ensures Row(other, parent, c, previous, ts, after)
    decreases ts
  {
    if ts != [] {
      BlockSame(nodes, other, c, ts[0]);
      RowSame(nodes, other, parent, c + Size(ts[0]), c, ts[1..], after);
    }
  }

  lemma {:induction false} LastInside(c: nat, ts: seq<Tree>)
    requires ts != []
    ensures c <= LastOf(c, ts) < c + SizeAll(ts)
    decreases ts
  {
    if |ts| > 1 { LastInside(c + Size(ts[0]), ts[1..]); }
  }

  /** The last sibling gets a follower. */
  lemma {:induction false} RowLinked(nodes: seq<Node>, other: seq<Node>, parent: nat, c: nat, previous: int,
                                     ts: seq<Tree>, after: int, to: int)
    requires Row(nodes, parent, c, previous, ts, after) && ts != []
        && SameBut(nodes, other, c, c + SizeAll(ts), LastOf(c, ts))
    requires LastOf(c, ts) < |other| && other[LastOf(c, ts)].next == to
    ensures Row(other, parent, c, previous, ts, to)
    decreases ts
  {
    LastInside(c, ts);
    if |ts| > 1 {
      LastInside(c + Size(ts[0]), ts[1..]);
      BlockSame(nodes, other, c, ts[0]);
      RowLinked(nodes, other, parent, c + Size(ts[0]), c, ts[1..], after, to);
    } else {
      assert SizeAll(ts[1..]) == 0;
      BlockSame(nodes, other, c, ts[0]);
    }
  }

  /** One more sibling at the end. */
  lemma {:induction false} RowMore(nodes: seq<Node>, parent: nat, c: nat, previous: int, ts: seq<Tree>, t: Tree)
    requires Row(nodes, parent, c, previous, ts, c + SizeAll(ts)) && Block(nodes, c + SizeAll(ts), t)
    requires nodes[c + SizeAll(ts)].parent == parent && nodes[c + SizeAll(ts)].next == NONE
    requires nodes[c + SizeAll(ts)].previous == if ts == [] then previous else LastOf(c, ts)
    ensures Row(nodes, parent, c, previous, ts + [t], NONE) && SizeAll(ts + [t]) == SizeAll(ts) + Size(t)
    ensures LastOf(c, ts + [t]) == c + SizeAll(ts)
    decreases ts
  {
    if ts == [] {
      assert ts + [t] == [t] && [t][1..] == [];
    } else {
      assert (ts + [t])[1..] == ts[1..] + [t];
      RowMore(nodes, parent, c + Size(ts[0]), c, ts[1..], t);
    }
  }

  // ---------- the values that are still open ----------

  /** How a value that is being read is linked: to its parent and the value before it, to what has
      been read below it, and to the next open value `inner` if there is one. */
  ghost predicate Half(nodes: seq<Node>, id: nat, o: Open, inner: int) {
    && id + 1 + SizeAll(o.done) <= |nodes| && nodes[id].kind == o.kind && nodes[id].text == o.text
        && nodes[id].next == NONE
    && nodes[id].child == (if o.done == [] && inner == NONE then NONE else id + 1)
    && nodes[id].childEnd == (if inner != NONE then inner else if o.done == [] then NONE else LastOf(id + 1, o.done))
    && Row(nodes, id, id + 1, NONE, o.done, inner)
  }

  /** The open value at place `k`, which reaches up to the next one, or to the last node. */
  ghost predicate HalfAt(nodes: seq<Node>, ids: seq<nat>, stack: seq<Open>, k: nat)
    requires |ids| == |stack| && k < |ids|
  {
    if k + 1 < |ids| then Half(nodes, ids[k], stack[k], ids[k + 1]) && ids[k] + 1 + SizeAll(stack[k].done) == ids[k + 1]
    else Half(nodes, ids[k], stack[k], NONE) && ids[k] + 1 + SizeAll(stack[k].done) == |nodes|
  }

  /** The open values, outermost first: the last node that was made belongs to the innermost one. */
  ghost predicate Spine(nodes: seq<Node>, ids: seq<nat>, stack: seq<Open>) {
    && |ids| == |stack| && (ids == [] ==> nodes == []) && (ids != [] ==> ids[0] == 0)
    && (forall k | 0 <= k < |ids| :: HalfAt(nodes, ids, stack, k))
    && (forall k | 0 <= k < |ids| :: LinkedUp(nodes, ids, stack, k))
  }

  ghost predicate LinkedUp(nodes: seq<Node>, ids: seq<nat>, stack: seq<Open>, k: nat)
    requires |ids| == |stack| && k < |ids|
  {
    ids[k] < |nodes| &&
    if k == 0 then nodes[ids[k]].parent == NONE && nodes[ids[k]].previous == NONE
    else nodes[ids[k]].parent == ids[k - 1] && nodes[ids[k]].previous == BeforeOf(ids[k - 1], stack[k - 1].done)
  }

  /** The last of the values that have been read below `id`. */
  function BeforeOf(id: nat, done: seq<Tree>): int { if done == [] then NONE else LastOf(id + 1, done) }

  /** The innermost value is complete: it is one more below the value around it. */
  lemma SpineFold(nodes: seq<Node>, ids: seq<nat>, stack: seq<Open>)
    requires Spine(nodes, ids, stack) && |stack| >= 2
    ensures var n := |stack|; Spine(nodes, ids[..n - 1], stack[..n - 2] + [Add(stack[n - 2], Closed(stack[n - 1]))])
  {
    var n := |stack|;
    var o, p := stack[n - 1], stack[n - 2];
    var x := Add(p, Closed(o));
    var ids2, stack2 := ids[..n - 1], stack[..n - 2] + [x];
    assert HalfAt(nodes, ids, stack, n - 1) && HalfAt(nodes, ids, stack, n - 2);
    assert LinkedUp(nodes, ids, stack, n - 1) && LinkedUp(nodes, ids, stack, n - 2);
    HalfIsBlock(nodes, ids[n - 1], o);
    HalfFold(nodes, ids[n - 2], p, ids[n - 1], Closed(o));
    hide Row, Block, Half, SizeAll;
    assert HalfAt(nodes, ids2, stack2, n - 2);
    forall k | 0 <= k < |ids2| ensures LinkedUp(nodes, ids2, stack2, k) { assert LinkedUp(nodes, ids, stack, k); }
    forall k | 0 <= k < |ids2| ensures HalfAt(nodes, ids2, stack2, k) {
      if k < n - 2 { assert HalfAt(nodes, ids, stack, k); }
    }
  }

  lemma HalfIsBlock(nodes: seq<Node>, id: nat, o: Open)
    requires Half(nodes, id, o, NONE)
    ensures Block(nodes, id, Closed(o)) && Size(Closed(o)) == 1 + SizeAll(o.done)
  {}

  lemma HalfFold(nodes: seq<Node>, id: nat, p: Open, inner: nat, t: Tree)
    requires Half(nodes, id, p, inner) && inner == id + 1 + SizeAll(p.done) && Block(nodes, inner, t)
    requires nodes[inner].parent == id && nodes[inner].previous == BeforeOf(id, p.done) && nodes[inner].next == NONE
    ensures Half(nodes, id, Add(p, t), NONE) && SizeAll(Add(p, t).done) == SizeAll(p.done) + Size(t)
  {
    RowMore(nodes, id, id + 1, NONE, p.done, t);
    hide Row, Block;
  }

  lemma SpineRoot(nodes: seq<Node>, ids: seq<nat>, stack: seq<Open>)
    requires Spine(nodes, ids, stack) && |stack| == 1
    ensures Rep(nodes, 0, Closed(stack[0]))
  {
    assert HalfAt(nodes, ids, stack, 0);
    HalfIsBlock(nodes, 0, stack[0]);
    BlockIsRep(nodes, 0, Closed(stack[0]));
  }

  /** The nodes after a new value has been put at the end of the list below `id`. */
  function Linked(nodes: seq<Node>, id: nat, done: seq<Tree>, kind: Kind, text: string): seq<Node>
    requires id < |nodes| && (done != [] ==> LastOf(id + 1, done) < |nodes|)
  {
    var c := |nodes|;
    var all := nodes + [Node(kind, text, id, BeforeOf(id, done), NONE, NONE, NONE)];
    if done == [] then all[id := all[id].(child := c, childEnd := c)]
    else all[LastOf(id + 1, done) := all[LastOf(id + 1, done)].(next := c)][id := all[id].(childEnd := c)]
  }

  /** A new value below the innermost one becomes the innermost. */
  lemma SpinePush(nodes: seq<Node>, ids: seq<nat>, stack: seq<Open>, kind: Kind, text: string)
    requires Spine(nodes, ids, stack) && stack != []
    ensures var n := |stack|; ids[n - 1] < |nodes|
                              && (stack[n - 1].done != [] ==> LastOf(ids[n - 1] + 1, stack[n - 1].done) < |nodes|)
    ensures var n := |stack|;
      Spine(Linked(nodes, ids[n - 1], stack[n - 1].done, kind, text), ids + [|nodes|], stack + [Open(kind, text, [])])
  {
    var n := |stack|;
    var id, o, c := ids[n - 1], stack[n - 1], |nodes|;
    assert HalfAt(nodes, ids, stack, n - 1);
    HalfLast(nodes, id, o);
    var other := Linked(nodes, id, o.done, kind, text);
    var ids2, stack2 := ids + [c], stack + [Open(kind, text, [])];
    HalfLinked(nodes, id, o, kind, text);
    LinkedSame(nodes, id, o.done, kind, text);
    hide Row, Block, Half, SizeAll, Linked, HalfAt, LinkedUp, Spine;
    forall k | 0 <= k < |ids2|
      ensures HalfAt(other, ids2, stack2, k)
    {
      PushHalf(nodes, other, ids, stack, Open(kind, text, []), k);
    }
    forall k | 0 <= k < |ids2|
      ensures LinkedUp(other, ids2, stack2, k)
    {
      PushLinked(nodes, other, ids, stack, Open(kind, text, []), k);
    }
    MakeSpine(other, ids2, stack2) by { assert ids2[0] == if n == 1 then id else ids[0]; SpineZero(nodes, ids, stack); }
  }

  lemma SpineZero(nodes: seq<Node>, ids: seq<nat>, stack: seq<Open>)
    requires Spine(nodes, ids, stack) && stack != []
    ensures |ids| == |stack| && ids[0] == 0
  {}

  lemma MakeSpine(nodes: seq<Node>, ids: seq<nat>, stack: seq<Open>)
    requires |ids| == |stack| && ids != [] && ids[0] == 0
    requires forall k | 0 <= k < |ids| :: HalfAt(nodes, ids, stack, k)
    requires forall k | 0 <= k < |ids| :: LinkedUp(nodes, ids, stack, k)
    ensures Spine(nodes, ids, stack)
  {}

  /** What holds after a value has been put below the innermost one. */
  ghost predicate Pushed(nodes: seq<Node>, other: seq<Node>, id: nat, o: Open, x: Open) {
    && id < |nodes| && |other| == |nodes| + 1 && Same(nodes, other, 0, id) && x.done == []
    && Half(other, id, o, |nodes|) && Half(other, |nodes|, x, NONE) && id + 1 + SizeAll(o.done) == |nodes|
    && other[|nodes|].parent == id && other[|nodes|].previous == BeforeOf(id, o.done)
    && other[id].parent == nodes[id].parent && other[id].previous == nodes[id].previous
  }

  lemma PushHalf(nodes: seq<Node>, other: seq<Node>, ids: seq<nat>, stack: seq<Open>, x: Open, k: nat)
    requires Spine(nodes, ids, stack) && stack != [] && Pushed(nodes, other, ids[|ids| - 1], stack[|ids| - 1], x)
        && k <= |ids|
    ensures HalfAt(other, ids + [|nodes|], stack + [x], k)
  {
    if k < |ids| - 1 {
      assert HalfAt(nodes, ids, stack, k);
      IdsGrow(nodes, ids, stack, k);
      HalfSame(nodes, other, ids[k], stack[k], ids[k + 1]);
    }
    hide Half, Spine;
  }

  lemma PushLinked(nodes: seq<Node>, other: seq<Node>, ids: seq<nat>, stack: seq<Open>, x: Open, k: nat)
    requires Spine(nodes, ids, stack) && stack != [] && Pushed(nodes, other, ids[|ids| - 1], stack[|ids| - 1], x)
        && k <= |ids|
    ensures LinkedUp(other, ids + [|nodes|], stack + [x], k)
  {
    if k < |ids| {
      IdsGrow(nodes, ids, stack, k);
      assert LinkedUp(nodes, ids, stack, k);
    }
    hide Half, Spine;
  }

  lemma HalfLast(nodes: seq<Node>, id: nat, o: Open)
    requires Half(nodes, id, o, NONE)
    ensures id < |nodes| && (o.done != [] ==> id < LastOf(id + 1, o.done) < id + 1 + SizeAll(o.done) <= |nodes|)
  {
    if o.done != [] { LastInside(id + 1, o.done); }
  }

  /** Which nodes change when a value is put at the end of a list. */
  lemma LinkedSame(nodes: seq<Node>, id: nat, done: seq<Tree>, kind: Kind, text: string)
    requires id < |nodes| && (done != [] ==> id < LastOf(id + 1, done) < |nodes|)
    ensures var other := Linked(nodes, id, done, kind, text);
      && |other| == |nodes| + 1 && Same(nodes, other, 0, id)
      && other[|nodes|] == Node(kind, text, id, BeforeOf(id, done), NONE, NONE, NONE)
      && other[id] == nodes[id].(child := other[id].child, childEnd := |nodes|)
      && other[id].child == (if done == [] then |nodes| else nodes[id].child)
      && (done != [] ==>
            SameBut(nodes, other, id + 1, |nodes|, LastOf(id + 1, done)) && other[LastOf(id + 1, done)].next == |nodes|)
  {}

  lemma HalfLinked(nodes: seq<Node>, id: nat, o: Open, kind: Kind, text: string)
    requires Half(nodes, id, o, NONE) && id + 1 + SizeAll(o.done) == |nodes|
    requires o.done != [] ==> id < LastOf(id + 1, o.done) < |nodes|
    ensures Half(Linked(nodes, id, o.done, kind, text), id, o, |nodes|)
    ensures Half(Linked(nodes, id, o.done, kind, text), |nodes|, Open(kind, text, []), NONE)
  {
    var other := Linked(nodes, id, o.done, kind, text);
    LinkedSame(nodes, id, o.done, kind, text);
    hide Linked;
    if o.done != [] { RowLinked(nodes, other, id, id + 1, NONE, o.done, NONE, |nodes|); }
    hide Block;
  }

  lemma HalfSame(nodes: seq<Node>, other: seq<Node>, id: nat, o: Open, inner: nat)
    requires Half(nodes, id, o, inner) && Same(nodes, other, id, id + 1 + SizeAll(o.done))
    ensures Half(other, id, o, inner)
  {
    RowSame(nodes, other, id, id + 1, NONE, o.done, inner);
    hide Row;
  }

  lemma {:induction false} IdsGrow(nodes: seq<Node>, ids: seq<nat>, stack: seq<Open>, k: nat)
    requires Spine(nodes, ids, stack) && k < |ids|
    ensures ids[k] <= ids[|ids| - 1] && (k + 1 < |ids| ==> ids[k] < ids[k + 1] <= ids[|ids| - 1])
    decreases |ids| - k
  {
    assert HalfAt(nodes, ids, stack, k);
    if k + 1 < |ids| { IdsGrow(nodes, ids, stack, k + 1); }
  }

  /** The root becomes the only open value. */
  lemma SpineStart(kind: Kind)
    ensures Spine([Node(kind, "", NONE, NONE, NONE, NONE, NONE)], [0], [Open(kind, "", [])])
  {
    var nodes := [Node(kind, "", NONE, NONE, NONE, NONE, NONE)];
    assert HalfAt(nodes, [0], [Open(kind, "", [])], 0);
    assert LinkedUp(nodes, [0], [Open(kind, "", [])], 0);
  }
}
