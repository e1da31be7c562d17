/** Documents as linked nodes (`json.c`), and the walk that writes them. A node is known by its
    position; -1 stands for no node. */
module JsonDoc {
  import opened JsonText

  const NONE: int := -1

  datatype Node = Node(kind: Kind, text: string, parent: int, previous: int, next: int, child: int, childEnd: int)

  predicate At(nodes: seq<Node>, i: int) { 0 <= i < |nodes| }

  // ---------- which tree the nodes form ----------

  /** The node and all below it form the tree. */
  ghost predicate Rep(nodes: seq<Node>, i: int, t: Tree)
    decreases t
  {
    At(nodes, i) && nodes[i].kind == t.kind && nodes[i].text == t.text && Kids(nodes, i, nodes[i].child, NONE, t.kids)
  }

  /** From `c` on the siblings form the trees. */
  ghost predicate Kids(nodes: seq<Node>, parent: int, c: int, previous: int, ts: seq<Tree>)
    decreases ts
  {
    if ts == [] then c == NONE else
      At(nodes, c) && nodes[c].parent == parent && nodes[c].previous == previous && Rep(nodes, c, ts[0])
          && Kids(nodes, parent, nodes[c].next, c, ts[1..])
  }

  function Size(t: Tree): (n: nat)
    ensures n > 0
    decreases t
  {
    1 + SizeAll(t.kids)
  }

  function SizeAll(ts: seq<Tree>): nat
    decreases ts
  {
    if ts == [] then 0 else Size(ts[0]) + SizeAll(ts[1..])
  }

  /** A node forms one tree only. */
  lemma {:induction false} RepOnce(nodes: seq<Node>, i: int, t: Tree, u: Tree)
    requires Rep(nodes, i, t) && Rep(nodes, i, u)
    ensures t == u
    decreases t
  {
    KidsOnce(nodes, i, nodes[i].child, NONE, t.kids, u.kids);
  }

  lemma {:induction false} KidsOnce(nodes: seq<Node>, parent: int, c: int, previous: int, ts: seq<Tree>, us: seq<Tree>)
    requires Kids(nodes, parent, c, previous, ts) && Kids(nodes, parent, c, previous, us)
    ensures ts == us
    decreases ts
  {
    if ts != [] && us != [] {
      RepOnce(nodes, c, ts[0], us[0]);
      KidsOnce(nodes, parent, nodes[c].next, c, ts[1..], us[1..]);
      assert ts == [ts[0]] + ts[1..] && us == [us[0]] + us[1..];
    }
  }

  // ---------- writing ----------

  /** A tree whose labels in objects all have a value. */
  predicate Printable(t: Tree, inObject: bool)
    decreases t
  {
    !(inObject && t.kind == KString && t.kids == []) && AllPrintable(t.kids, t.kind == KObject)
  }

  predicate AllPrintable(ts: seq<Tree>, inObject: bool)
    decreases ts
  {
    ts == [] || (Printable(ts[0], inObject) && AllPrintable(ts[1..], inObject))
  }

  /** Only objects, arrays, and labels in objects have something below them. */
  predicate Shaped(t: Tree, inObject: bool)
    decreases t
  {
    (t.kids != [] ==> t.kind == KObject || t.kind == KArray || (t.kind == KString && inObject))
        && AllShaped(t.kids, t.kind == KObject)
  }

  predicate AllShaped(ts: seq<Tree>, inObject: bool)
    decreases ts
  {
    ts == [] || (Shaped(ts[0], inObject) && AllShaped(ts[1..], inObject))
  }

  /** A value that has been opened, and the siblings of the value that is being written below it. */
  datatype Frame = Frame(node: int, t: Tree, rest: seq<Tree>)

  /** What is still to be written when the value at the cursor has been closed. */
  function Pending(frames: seq<Frame>): string {
    if frames == [] then "" else
      var f := frames[|frames| - 1];
      PrintAll(f.rest, true) + (CloseText(f.t) + Pending(frames[..|frames| - 1]))
  }

  function Work(frames: seq<Frame>): nat {
    if frames == [] then 0 else 2 * SizeAll(frames[|frames| - 1].rest) + 1 + Work(frames[..|frames| - 1])
  }

  predicate PendingOk(frames: seq<Frame>) {
    frames == [] || (AllPrintable(frames[|frames| - 1].rest, frames[|frames| - 1].t.kind == KObject)
        && PendingOk(frames[..|frames| - 1]))
  }

  /** Whether the value at the cursor is a label; `top` says so of the root. */
  predicate InObject(frames: seq<Frame>, top: bool) {
    if frames == [] then top else frames[|frames| - 1].t.kind == KObject
  }

  /** The frames lead from the root, which forms `t`, to the node `c`, which forms `u`. */
  ghost predicate Path(nodes: seq<Node>, root: int, t: Tree, top: bool, frames: seq<Frame>, c: int, u: Tree)
    decreases |frames|
  {
    && Rep(nodes, c, u) && Shaped(u, InObject(frames, top))
    && if frames == [] then c == root && u == t else
       var f := frames[|frames| - 1];
       && nodes[c].parent == f.node && Kids(nodes, f.node, nodes[c].next, c, f.rest)
           && AllShaped(f.rest, f.t.kind == KObject) && Size(u) < Size(f.t)
       && SizeAll(f.rest) < Size(f.t) && (f.t.kind == KObject || f.t.kind == KArray || f.t.kind == KString)
       && Path(nodes, root, t, top, frames[..|frames| - 1], f.node, f.t)
  }

  lemma {:induction false} PathSmaller(nodes: seq<Node>, root: int, t: Tree, top: bool, frames: seq<Frame>, c: int,
                                       u: Tree)
    requires Path(nodes, root, t, top, frames, c, u)
    ensures Size(u) <= Size(t) && (frames != [] ==> Size(u) < Size(t))
    decreases |frames|
  {
    if frames != [] {
      var f := frames[|frames| - 1];
      PathSmaller(nodes, root, t, top, frames[..|frames| - 1], f.node, f.t);
    }
  }

  /** The cursor is at the root exactly when nothing is open. */
  lemma AtRoot(nodes: seq<Node>, root: int, t: Tree, top: bool, frames: seq<Frame>, c: int, u: Tree)
    requires Path(nodes, root, t, top, frames, c, u) && Rep(nodes, root, t)
    ensures c == root <==> frames == []
  {
    PathSmaller(nodes, root, t, top, frames, c, u);
    if c == root { RepOnce(nodes, root, t, u); }
  }

  lemma KidsFirst(nodes: seq<Node>, parent: int, c: int, previous: int, ts: seq<Tree>)
    requires Kids(nodes, parent, c, previous, ts)
    ensures ts == [] <==> c == NONE
    ensures ts != [] ==>
      && At(nodes, c) && nodes[c].parent == parent && nodes[c].previous == previous && Rep(nodes, c, ts[0])
      && Kids(nodes, parent, nodes[c].next, c, ts[1..])
  {
    hide Rep;
  }

  lemma ShapedFirst(ts: seq<Tree>, inObject: bool)
    requires AllShaped(ts, inObject) && ts != []
    ensures Shaped(ts[0], inObject) && AllShaped(ts[1..], inObject)
  {}

  lemma SizesFirst(t: Tree)
    requires t.kids != []
    ensures Size(t.kids[0]) < Size(t) && SizeAll(t.kids[1..]) < Size(t)
  {}

  /** Down to the first child. */
  lemma PathDown(nodes: seq<Node>, root: int, t: Tree, top: bool, frames: seq<Frame>, c: int, u: Tree)
    requires Path(nodes, root, t, top, frames, c, u)
    ensures u.kids == [] <==> nodes[c].child == NONE
    ensures u.kids != [] ==>
      && At(nodes, nodes[c].child) && nodes[nodes[c].child].previous == NONE
      && Path(nodes, root, t, top, frames + [Frame(c, u, u.kids[1..])], nodes[c].child, u.kids[0])
  {
    KidsFirst(nodes, c, nodes[c].child, NONE, u.kids);
    if u.kids != [] {
      var f := Frame(c, u, u.kids[1..]);
      var fs := frames + [f];
      assert fs[..|fs| - 1] == frames && fs[|fs| - 1] == f;
      assert AllShaped(u.kids, u.kind == KObject);
      ShapedFirst(u.kids, u.kind == KObject);
      SizesFirst(u);
      hide Rep, Kids, Shaped, AllShaped, Size, SizeAll;
    }
  }

  lemma SizeRest(ts: seq<Tree>)
    requires ts != []
    ensures Size(ts[0]) <= SizeAll(ts) && SizeAll(ts[1..]) <= SizeAll(ts)
  {}

  /** Right to the next sibling. */
  lemma PathRight(nodes: seq<Node>, root: int, t: Tree, top: bool, frames: seq<Frame>, c: int, u: Tree)
    requires Path(nodes, root, t, top, frames, c, u) && frames != []
    ensures var f := frames[|frames| - 1];
      && (f.rest == [] <==> nodes[c].next == NONE)
      && (f.rest != [] ==>
        && At(nodes, nodes[c].next) && nodes[nodes[c].next].previous == c && c != NONE
        && Path(nodes, root, t, top, frames[..|frames| - 1] + [f.(rest := f.rest[1..])], nodes[c].next, f.rest[0]))
  {
    var f := frames[|frames| - 1];
    KidsFirst(nodes, f.node, nodes[c].next, c, f.rest);
    if f.rest != [] {
      ShapedFirst(f.rest, f.t.kind == KObject);
      SizeRest(f.rest);
      hide Rep, Kids, Shaped, AllShaped, Size, SizeAll;
      var g := f.(rest := f.rest[1..]);
      var fs := frames[..|frames| - 1] + [g];
      assert fs[..|fs| - 1] == frames[..|frames| - 1] && fs[|fs| - 1] == g;
    }
  }

  /** Up to the parent. */
  lemma PathUp(nodes: seq<Node>, root: int, t: Tree, top: bool, frames: seq<Frame>, c: int, u: Tree)
    requires Path(nodes, root, t, top, frames, c, u) && frames != []
    ensures var f := frames[|frames| - 1]; nodes[c].parent == f.node
                                           && Path(nodes, root, t, top, frames[..|frames| - 1], f.node, f.t)
  {}

  lemma PathAt(nodes: seq<Node>, root: int, t: Tree, top: bool, frames: seq<Frame>, c: int, u: Tree)
    requires Path(nodes, root, t, top, frames, c, u)
    ensures At(nodes, c) && nodes[c].kind == u.kind && nodes[c].text == u.text
        && (nodes[c].child == NONE <==> u.kids == [])
    ensures u.kids != [] ==> u.kind == KString || u.kind == KObject || u.kind == KArray
    ensures frames == [] ==> u == t
  {
    PathDown(nodes, root, t, top, frames, c, u);
  }

  lemma PathInObject(nodes: seq<Node>, root: int, t: Tree, top: bool, frames: seq<Frame>, c: int, u: Tree)
    requires Path(nodes, root, t, top, frames, c, u) && frames != []
    ensures At(nodes, nodes[c].parent) && (nodes[nodes[c].parent].kind == KObject <==> InObject(frames, top))
    ensures u.kind == KString && u.kids != [] ==> InObject(frames, top)
  {}

  // ---------- what is left to write ----------

  /** The text that is left at a value that is to be opened, or to be closed. */
  function Left(frames: seq<Frame>, u: Tree, opening: bool): string {
    (if opening then Print(u) else CloseText(u)) + Pending(frames)
  }

  /** Whether what is left can be written. */
  predicate LeftOk(top: bool, frames: seq<Frame>, u: Tree, opening: bool) {
    (opening ==> Printable(u, InObject(frames, top))) && PendingOk(frames)
  }

  lemma PrintFirst(u: Tree)
    requires u.kids != []
    ensures Print(u) == OpenText(u) + (Print(u.kids[0]) + (PrintAll(u.kids[1..], true) + CloseText(u)))
  {
    assert PrintAll(u.kids, false) == "" + Print(u.kids[0]) + PrintAll(u.kids[1..], true);
    Regroup(OpenText(u), Print(u.kids[0]), PrintAll(u.kids[1..], true), CloseText(u));
    assert "" + Print(u.kids[0]) == Print(u.kids[0]);
  }

  lemma Regroup(a: string, b: string, c: string, d: string)
    ensures a + (b + c) + d == a + (b + (c + d))
  {}

  lemma LeftDown(top: bool, frames: seq<Frame>, c: int, u: Tree)
    requires u.kids != []
    ensures var fs := frames + [Frame(c, u, u.kids[1..])];
      && Left(frames, u, true) == OpenText(u) + Left(fs, u.kids[0], true)
      && (LeftOk(top, frames, u, true) <==> LeftOk(top, fs, u.kids[0], true))
      && Work(fs) + 2 * Size(u.kids[0]) < Work(frames) + 2 * Size(u)
  {
    var f := Frame(c, u, u.kids[1..]);
    var fs := frames + [f];
    assert fs[..|frames|] == frames && fs[|fs| - 1] == f;
    PrintFirst(u);
    assert Printable(u, InObject(frames, top)) == (Printable(u.kids[0], u.kind == KObject)
        && AllPrintable(f.rest, u.kind == KObject));
    assert Size(u) == 1 + (Size(u.kids[0]) + SizeAll(f.rest));
    hide Print, PrintAll, Printable, AllPrintable, Size, SizeAll;
    assert Pending(fs) == PrintAll(f.rest, true) + (CloseText(u) + Pending(frames));
    assert PendingOk(fs) == (AllPrintable(f.rest, u.kind == KObject) && PendingOk(frames));
    Regroup2(OpenText(u), Print(u.kids[0]), PrintAll(f.rest, true), CloseText(u), Pending(frames));
  }

  lemma Regroup2(a: string, b: string, c: string, d: string, e: string)
    ensures a + (b + (c + d)) + e == a + (b + (c + (d + e)))
  {}

  lemma LeftLeaf(top: bool, frames: seq<Frame>, u: Tree)
    requires u.kids == []
    ensures Left(frames, u, true) == OpenText(u) + Left(frames, u, false)
    ensures LeftOk(top, frames, u, true) <==>
      !(InObject(frames, top) && u.kind == KString) && LeftOk(top, frames, u, false)
    ensures Size(u) >= 1
  {
    assert PrintAll(u.kids, false) == "";
    assert OpenText(u) + "" + CloseText(u) == OpenText(u) + CloseText(u);
    assert AllPrintable(u.kids, u.kind == KObject);
    hide Print, PrintAll, Pending, PendingOk;
  }

  lemma LeftRight(top: bool, frames: seq<Frame>, u: Tree)
    requires frames != [] && frames[|frames| - 1].rest != []
    ensures var f := frames[|frames| - 1]; var fs := frames[..|frames| - 1] + [f.(rest := f.rest[1..])];
      && Left(frames, u, false) == CloseText(u) + ("," + Left(fs, f.rest[0], true))
      && (LeftOk(top, frames, u, false) <==> LeftOk(top, fs, f.rest[0], true))
      && Work(fs) + 2 * Size(f.rest[0]) < Work(frames) + 1
  {
    var f := frames[|frames| - 1];
    var g := f.(rest := f.rest[1..]);
    var fs := frames[..|frames| - 1] + [g];
    assert fs[..|fs| - 1] == frames[..|frames| - 1] && fs[|fs| - 1] == g;
    assert PrintAll(f.rest, true) == "," + Print(f.rest[0]) + PrintAll(g.rest, true);
    assert AllPrintable(f.rest, f.t.kind == KObject) == (Printable(f.rest[0], f.t.kind == KObject)
        && AllPrintable(g.rest, f.t.kind == KObject));
    assert SizeAll(f.rest) == Size(f.rest[0]) + SizeAll(g.rest);
    hide Print, PrintAll, Printable, AllPrintable, Size, SizeAll;
    var up := frames[..|frames| - 1];
    assert Pending(fs) == PrintAll(g.rest, true) + (CloseText(f.t) + Pending(up));
    assert PendingOk(fs) == (AllPrintable(g.rest, f.t.kind == KObject) && PendingOk(up));
    assert Work(fs) == 2 * SizeAll(g.rest) + 1 + Work(up);
    Regroup3(CloseText(u), ",", Print(f.rest[0]), PrintAll(g.rest, true), CloseText(f.t) + Pending(up));
    hide Pending, PendingOk, Work;
  }

  lemma Regroup3(a: string, b: string, c: string, d: string, e: string)
    ensures a + ((b + c + d) + e) == a + (b + (c + (d + e)))
  {}

  lemma LeftUp(top: bool, frames: seq<Frame>, u: Tree)
    requires frames != [] && frames[|frames| - 1].rest == []
    ensures var f := frames[|frames| - 1];
      && Left(frames, u, false) == CloseText(u) + Left(frames[..|frames| - 1], f.t, false)
      && (LeftOk(top, frames, u, false) <==> LeftOk(top, frames[..|frames| - 1], f.t, false))
      && Work(frames[..|frames| - 1]) < Work(frames)
  {
    assert PrintAll([], true) == "";
    hide Print, PrintAll;
  }

  /** The comma between siblings. */
  function Comma(nodes: seq<Node>, frames: seq<Frame>, c: int): string {
    if frames != [] && At(nodes, c) && nodes[c].previous != NONE then "," else ""
  }

  /** Where the walk is. */
  ghost predicate Walking(nodes: seq<Node>, root: int, t: Tree, top: bool, frames: seq<Frame>, c: int, u: Tree,
                          opening: bool, out: string) {
    && Path(nodes, root, t, top, frames, c, u)
    && (Printable(t, top) <==> LeftOk(top, frames, u, opening))
    && Print(t) == out + ((if opening then Comma(nodes, frames, c) else "") + Left(frames, u, opening))
  }

  lemma Append2(out: string, comma: string, text: string, left: string)
    ensures out + (comma + (text + left)) == (out + comma + text) + ("" + left)
  {}

  /** A value without children is opened; a label without a value cannot be. */
  lemma WalkLeaf(nodes: seq<Node>, root: int, t: Tree, top: bool, frames: seq<Frame>, c: int, u: Tree, out: string)
    requires Walking(nodes, root, t, top, frames, c, u, true, out) && u.kids == []
    ensures if InObject(frames, top) && u.kind == KString then !Printable(t, top)
            else Walking(nodes, root, t, top, frames, c, u, false, out + Comma(nodes, frames, c) + OpenText(u))
  {
    hide Path, Print, Printable, Left, LeftOk, InObject, OpenText, Comma;
    LeftLeaf(top, frames, u);
    Append2(out, Comma(nodes, frames, c), OpenText(u), Left(frames, u, false));
  }

  /** A value with children is opened, and the walk goes to the first of them. */
  lemma WalkDown(nodes: seq<Node>, root: int, t: Tree, top: bool, frames: seq<Frame>, c: int, u: Tree, out: string)
    requires Walking(nodes, root, t, top, frames, c, u, true, out) && u.kids != []
    ensures At(nodes, c) && At(nodes, nodes[c].child)
    ensures var fs := frames + [Frame(c, u, u.kids[1..])];
      && Walking(nodes, root, t, top, fs, nodes[c].child, u.kids[0], true, out + Comma(nodes, frames, c) + OpenText(u))
      && Work(fs) + 2 * Size(u.kids[0]) < Work(frames) + 2 * Size(u)
  {
    hide Path, Print, Printable, Left, LeftOk, InObject, OpenText, Work, Size;
    PathAt(nodes, root, t, top, frames, c, u);
    LeftDown(top, frames, c, u);
    PathDown(nodes, root, t, top, frames, c, u);
    var fs := frames + [Frame(c, u, u.kids[1..])];
    Append2(out, Comma(nodes, frames, c), OpenText(u), Left(fs, u.kids[0], true));
  }

  lemma Append3(out: string, close: string, left: string)
    ensures out + ("" + (close + left)) == (out + close) + left
        && out + ("" + (close + left)) == (out + close) + ("" + left)
  {}

  /** A value is closed, and the walk goes on with the next one. */
  lemma WalkRight(nodes: seq<Node>, root: int, t: Tree, top: bool, frames: seq<Frame>, c: int, u: Tree, out: string)
    requires Walking(nodes, root, t, top, frames, c, u, false, out) && frames != [] && frames[|frames| - 1].rest != []
    ensures At(nodes, c) && At(nodes, nodes[c].next)
    ensures var f := frames[|frames| - 1]; var fs := frames[..|frames| - 1] + [f.(rest := f.rest[1..])];
      && Walking(nodes, root, t, top, fs, nodes[c].next, f.rest[0], true, out + CloseText(u))
      && Work(fs) + 2 * Size(f.rest[0]) < Work(frames) + 1
  {
    hide Path, Print, Printable, Left, LeftOk, InObject, CloseText, Work, Size;
    PathAt(nodes, root, t, top, frames, c, u);
    LeftRight(top, frames, u);
    PathRight(nodes, root, t, top, frames, c, u);
    var f := frames[|frames| - 1];
    var fs := frames[..|frames| - 1] + [f.(rest := f.rest[1..])];
    assert Comma(nodes, fs, nodes[c].next) == ",";
    Append3(out, CloseText(u), "," + Left(fs, f.rest[0], true));
  }

  /** The last one has been closed, and its parent is next. */
  lemma WalkUp(nodes: seq<Node>, root: int, t: Tree, top: bool, frames: seq<Frame>, c: int, u: Tree, out: string)
    requires Walking(nodes, root, t, top, frames, c, u, false, out) && frames != [] && frames[|frames| - 1].rest == []
    ensures At(nodes, c)
    ensures var f := frames[|frames| - 1]; var fs := frames[..|frames| - 1];
      && Walking(nodes, root, t, top, fs, nodes[c].parent, f.t, false, out + CloseText(u)) && Work(fs) < Work(frames)
  {
    hide Path, Print, Printable, Left, LeftOk, InObject, CloseText, Work;
    PathAt(nodes, root, t, top, frames, c, u);
    LeftUp(top, frames, u);
    PathUp(nodes, root, t, top, frames, c, u);
    Append3(out, CloseText(u), Left(frames[..|frames| - 1], frames[|frames| - 1].t, false));
  }

  /** The root has been closed. */
  lemma WalkDone(nodes: seq<Node>, root: int, t: Tree, top: bool, c: int, u: Tree, out: string)
    requires Walking(nodes, root, t, top, [], c, u, false, out)
    ensures Printable(t, top) && Print(t) == out + CloseText(u)
  {
    hide Path, Print, Printable, Left, LeftOk, CloseText;
    LeftDone(top, u);
    assert "" + CloseText(u) == CloseText(u);
  }

  /** Where the cursor is. */
  lemma WalkAt(nodes: seq<Node>, root: int, t: Tree, top: bool, frames: seq<Frame>, c: int, u: Tree, opening: bool,
               out: string)
    requires Walking(nodes, root, t, top, frames, c, u, opening, out) && Rep(nodes, root, t)
    ensures Path(nodes, root, t, top, frames, c, u) && (c == root <==> frames == [])
    ensures At(nodes, c) && nodes[c].kind == u.kind && (nodes[c].child == NONE <==> u.kids == [])
    ensures frames != [] ==> (nodes[c].next == NONE <==> frames[|frames| - 1].rest == [])
  {
    hide Path, Rep, Print, Printable, Left, LeftOk;
    PathAt(nodes, root, t, top, frames, c, u);
    AtRoot(nodes, root, t, top, frames, c, u);
    if frames != [] { PathRight(nodes, root, t, top, frames, c, u); }
  }

  lemma Begins(nodes: seq<Node>, root: int, t: Tree, top: bool)
    requires Rep(nodes, root, t) && Shaped(t, top)
    ensures Walking(nodes, root, t, top, [], root, t, true, "")
  {
    assert Pending([]) == "" && Print(t) + "" == Print(t);
    assert Comma(nodes, [], root) == "" && "" + ("" + Print(t)) == Print(t);
  }

  // ---------- putting nodes together ----------

  /** Which children a value takes; a label in an object gets its own child later. */
  predicate Takes(parent: Node, child: Node) {
    match parent.kind
    case KString => child.kind == KObject || child.kind == KArray || child.child == NONE
    case KObject => child.kind == KString
    case KArray => child.kind == KObject || child.kind == KArray || child.child == NONE
    case _ => false
  }

  /** An array takes exactly the trees that may be elements, so does a label, and an object exactly the
      labels; nothing else takes a child. */
  lemma TakesExactly(nodes: seq<Node>, parent: int, child: int, u: Tree)
    requires At(nodes, parent) && Rep(nodes, child, u) && Shaped(u, true)
    ensures Takes(nodes[parent], nodes[child]) <==>
      if nodes[parent].kind == KObject then u.kind == KString
      else (nodes[parent].kind == KArray || nodes[parent].kind == KString) && Shaped(u, false)
  {
    hide AllShaped;
    if u.kids != [] { assert Kids(nodes, child, nodes[child].child, NONE, u.kids); }
  }

  /** The nodes after `child` has become the last child of `parent`. */
  function Inserted(nodes: seq<Node>, parent: int, child: int): seq<Node>
    requires At(nodes, parent) && At(nodes, child)
        && (nodes[parent].child != NONE ==> At(nodes, nodes[parent].childEnd))
  {
    var a := nodes[child := nodes[child].(parent := parent, next := NONE)];
    if a[parent].child == NONE then a[parent := a[parent].(child := child, childEnd := child)] else
      var e := a[parent].childEnd;
      var b := a[child := a[child].(previous := e)];
      var c := b[e := b[e].(next := child)];
      c[parent := c[parent].(childEnd := child)]
  }

  class Document {
    var nodes: seq<Node>

    constructor ()
      ensures nodes == []
    {
      nodes := [];
    }

    /** `json_new_value` and its relatives */
    method NewValue(kind: Kind, text: string) returns (id: int)
      modifies this
      ensures id == |old(nodes)| && nodes == old(nodes) + [Node(kind, text, NONE, NONE, NONE, NONE, NONE)]
    {
      id := |nodes|;
      nodes := nodes + [Node(kind, text, NONE, NONE, NONE, NONE, NONE)];
    }

    /** `json_insert_child` */
    method InsertChild(parent: int, child: int) returns (ok: bool)
      requires At(nodes, parent) && At(nodes, child) && parent != child
          && (nodes[parent].child != NONE ==> At(nodes, nodes[parent].childEnd))
      modifies this
      ensures ok == Takes(old(nodes[parent]), old(nodes[child]))
      ensures nodes == if ok then Inserted(old(nodes), parent, child) else old(nodes)
    {
      match nodes[parent].kind {
        case KString =>
          if nodes[child].kind != KObject && nodes[child].kind != KArray && nodes[child].child != NONE { return false; }
        case KObject =>
          if nodes[child].kind != KString { return false; }
        case KArray =>
          if nodes[child].kind != KObject && nodes[child].kind != KArray && nodes[child].child != NONE { return false; }
        case _ => return false;
      }
      SetParent(parent, child);
      if nodes[parent].child != NONE {
        var e := nodes[parent].childEnd;
        nodes := nodes[child := nodes[child].(previous := e)];
        nodes := nodes[e := nodes[e].(next := child)];
        nodes := nodes[parent := nodes[parent].(childEnd := child)];
      } else {
        nodes := nodes[parent := nodes[parent].(child := child, childEnd := child)];
      }
      ok := true;
    }

    method SetParent(parent: int, child: int)
      requires At(nodes, child)
      modifies this
      ensures nodes == old(nodes)[child := old(nodes)[child].(parent := parent, next := NONE)]
    {
      nodes := nodes[child := nodes[child].(parent := parent, next := NONE)];
    }

    predicate RootOk(i: int)
      reads this
    {
      At(nodes, i) && (nodes[i].parent == NONE || At(nodes, nodes[i].parent))
    }

    /** A string without a parent counts as a label, like one in an object. */
    predicate IsLabel(i: int)
      reads this
      requires RootOk(i)
    {
      nodes[i].parent == NONE || nodes[nodes[i].parent].kind == KObject
    }

    /** What `json_tree_to_string` writes when it opens the value at the cursor; nothing for a label
        without a value. */
    method Open(cursor: int, ghost root: int, ghost t: Tree, ghost top: bool, ghost frames: seq<Frame>, ghost u: Tree)
        returns (r: Option<string>)
      requires Path(nodes, root, t, top, frames, cursor, u)
          && (frames == [] ==> RootOk(cursor) && top == IsLabel(cursor))
      ensures r == if InObject(frames, top) && u.kind == KString && u.kids == [] then None else Some(OpenText(u))
    {
      PathAt(nodes, root, t, top, frames, cursor, u);
      if frames != [] { PathInObject(nodes, root, t, top, frames, cursor, u); }
      var n := nodes[cursor];
      match n.kind
      case KString =>
        var quoted := "\"" + n.text + "\"";
        if n.parent == NONE || nodes[n.parent].kind == KObject {
          if n.child == NONE { return None; }
          return Some(quoted + ":");
        }
        assert quoted + "" == quoted;
        return Some(quoted);
      case KNumber => return Some(n.text);
      case KObject => return Some("{");
      case KArray => return Some("[");
      case KTrue => return Some("true");
      case KFalse => return Some("false");
      case KNull => return Some("null");
    }

    /** `json_tree_to_string`, from any value: the text, or nothing when a label has no value */
    method ToString(root: int, ghost t: Tree) returns (r: Option<string>)
      requires Rep(nodes, root, t) && RootOk(root) && Shaped(t, IsLabel(root))
      ensures r == if Printable(t, IsLabel(root)) then Some(Print(t)) else None
    {
      hide Path, Print, Printable, Rep, Shaped, Work, Size, InObject, OpenText, RootOk, IsLabel, Walking;
      ghost var top := IsLabel(root);
      var cursor, opening, out := root, true, "";
      ghost var frames: seq<Frame>, u := [], t;
      Begins(nodes, root, t, top);
      while true
        invariant Walking(nodes, root, t, top, frames, cursor, u, opening, out)
        decreases Work(frames) + if opening then 2 * Size(u) else 1
      {
        WalkAt(nodes, root, t, top, frames, cursor, u, opening, out);
        if opening {
          if u.kids == [] {
            WalkLeaf(nodes, root, t, top, frames, cursor, u, out);
          } else {
            WalkDown(nodes, root, t, top, frames, cursor, u, out);
          }
          if nodes[cursor].previous != NONE && cursor != root { out := out + ","; } else { assert out == out + ""; }
          var text := Open(cursor, root, t, top, frames, u);
          if text.None? { return None; }
          out := out + text.value;
          if nodes[cursor].child != NONE {
            frames, u := frames + [Frame(cursor, u, u.kids[1..])], u.kids[0];
            cursor := nodes[cursor].child;
          } else {
            opening := false;
          }
        } else {
          if cursor == root {
            WalkDone(nodes, root, t, top, cursor, u, out);
          } else if frames[|frames| - 1].rest == [] {
            WalkUp(nodes, root, t, top, frames, cursor, u, out);
          } else {
            WalkRight(nodes, root, t, top, frames, cursor, u, out);
          }
          out := out + if nodes[cursor].kind == KObject then "}" else if nodes[cursor].kind == KArray then "]" else "";
          if cursor == root { return Some(out); }
          if nodes[cursor].next != NONE {
            ghost var f := frames[|frames| - 1];
            cursor := nodes[cursor].next;
            frames, u := frames[..|frames| - 1] + [f.(rest := f.rest[1..])], f.rest[0];
            opening := true;
          } else {
            cursor := nodes[cursor].parent;
            frames, u := frames[..|frames| - 1], frames[|frames| - 1].t;
          }
        }
      }
    }
  }

  lemma LeftDone(top: bool, u: Tree)
    ensures Left([], u, false) == CloseText(u) && LeftOk(top, [], u, false)
  {
    assert CloseText(u) + "" == CloseText(u);
  }
}
