/** The pointers of the thread nodes against the forest they represent, and the two basic pointer
    operations: linking a child in front and relinking a child under another parent. */
module ThreadLinks {
  import opened SeqFacts
  import opened ThreadForest

  /** What follows entry `i` of the list `s`. */
  ghost function After(s: seq<Node>, i: nat): Node?
    requires i <= |s|
  {
    if i < |s| then s[i] else null
  }

  /** `first` heads a list of exactly the nodes of `s`, chained through `next`. */
  ghost predicate ListAt(first: Node?, s: seq<Node>)
    reads s`next
  {
    first == After(s, 0) && forall i :: 0 <= i < |s| ==> s[i].next == After(s, i + 1)
  }

  ghost predicate ListOf(kids: map<Node, seq<Node>>, o: Node)
    requires o in kids
    reads o`child, kids[o]`next
  {
    ListAt(o.child, kids[o])
  }

  ghost predicate KidsKnown(nodes: set<Node>, kids: map<Node, seq<Node>>, o: Node)
    requires o in kids
  {
    forall k | k in kids[o] :: k in nodes
  }

  /** Every child list of `kids` is linked. */
  ghost predicate Lists(hdr: Node, nodes: set<Node>, kids: map<Node, seq<Node>>)
    reads nodes`next, nodes`child, hdr`child
  {
    && kids.Keys <= nodes + {hdr}
    && forall o {:trigger ListOf(kids, o)} | o in kids :: KidsKnown(nodes, kids, o) && ListOf(kids, o)
  }

  ghost predicate Linked(f: Forest)
    reads f.nodes`next, f.nodes`child, f.hdr`child
  {
    Lists(f.hdr, f.nodes, f.kids)
  }

  /** `x` is in no child list but that of `o`. */
  ghost predicate OnlyIn(kids: map<Node, seq<Node>>, o: Node, x: Node) {
    forall p | p in kids && p != o :: x !in kids[p]
  }

  /** The node whose `next` comes after position `i` of the child list of `o`; null stands for the
      head slot `o.child` itself, the list cell that the cast `&o->child` makes of it. */
  ghost predicate SlotAt(f: Forest, o: Node, i: nat, last: Node?)
    requires o in f.kids
  {
    i <= |f.kids[o]| && last == if i == 0 then null else f.kids[o][i - 1]
  }

  ghost function Cell(last: Node?): set<Node> {
    if last == null then {} else {last}
  }

  function SlotNext(o: Node, last: Node?): Node?
    reads o`child, Cell(last)`next
  {
    if last == null then o.child else last.next
  }

  lemma SlotNextIs(f: Forest, o: Node, i: nat, last: Node?)
    requires Linked(f) && o in f.kids && SlotAt(f, o, i, last)
    ensures SlotNext(o, last) == After(f.kids[o], i)
    ensures i < |f.kids[o]| ==> f.kids[o][i].next == After(f.kids[o], i + 1)
  {
    assert ListOf(f.kids, o);
  }

  lemma LinkedAmong(f: Forest, nodes: set<Node>)
    requires f.Ok() && Lists(f.hdr, nodes, f.kids)
    ensures Linked(f)
  {
    forall p | p in f.kids ensures KidsKnown(f.nodes, f.kids, p) && ListOf(f.kids, p) {
      assert ListOf(f.kids, p);
      forall k | k in f.kids[p] ensures k in f.nodes { assert f.Holds(p, k); }
    }
  }

  lemma HeldOnlyIn(f: Forest, o: Node, x: Node)
    requires f.Ok() && f.Holds(o, x)
    ensures OnlyIn(f.kids, o, x)
  {
    forall p | p in f.kids && p != o ensures x !in f.kids[p] {
      if x in f.kids[p] { OneOwner(f, o, p, x); }
    }
  }

  lemma UnheldAnywhere(f: Forest, x: Node)
    requires f.Ok() && x in f.nodes && f.anc[x] == [] && x !in f.kids[f.hdr]
    ensures forall p | p in f.kids :: x !in f.kids[p]
  {
    forall p | p in f.kids ensures x !in f.kids[p] { Unheld(f, p, x); }
  }

  /** The entry behind `last` leaves one list. */
  method UnlinkOne(o: Node, ghost s: seq<Node>, ghost i: nat, last: Node?)
    requires ListAt(o.child, s) && NoDup(s) && i < |s| && last == if i == 0 then null else s[i - 1]
    modifies o`child, Cell(last)`next
    ensures ListAt(o.child, DropAt(s, i))
    ensures last == null ==> forall n | n in s :: n.next == old(n.next)
    ensures last != null ==> o.child == old(o.child)
  {
    ghost var t := DropAt(s, i);
    if last == null {
      assert o.child == s[0];
      o.child := o.child.next;
    } else {
      assert s[i - 1].next == s[i] && s[i].next == After(s, i + 1);
      last.next := last.next.next;
      assert forall j :: 0 <= j < |s| && j != i - 1 ==> s[j].next == old(s[j].next);
    }
    forall j | 0 <= j < |t| ensures t[j].next == After(t, j + 1) {
      if j < i { assert t[j] == s[j]; } else { assert t[j] == s[j + 1]; }
    }
  }

  /** The same among all child lists. */
  method UnlinkIn(ghost hdr: Node, ghost nodes: set<Node>, ghost kids: map<Node, seq<Node>>,
                  o: Node, ghost i: nat, last: Node?)
    requires Lists(hdr, nodes, kids) && o in kids && i < |kids[o]| && NoDup(kids[o])
    requires last == if i == 0 then null else kids[o][i - 1]
    requires last != null ==> OnlyIn(kids, o, last)
    modifies o`child, Cell(last)`next
    ensures Lists(hdr, nodes, kids[o := DropAt(kids[o], i)])
    ensures last == null ==> forall n | n in nodes :: n.next == old(n.next)
    ensures last != null ==> o.child == old(o.child)
  {
    ghost var after := kids[o := DropAt(kids[o], i)];
    assert ListOf(kids, o);
    UnlinkOne(o, kids[o], i, last);
    forall p | p in after ensures KidsKnown(nodes, after, p) && ListOf(after, p) {
      assert old(ListOf(kids, p));
    }
  }

  method Unlink(ghost f: Forest, o: Node, ghost i: nat, last: Node?) returns (ghost g: Forest)
    requires f.Ok() && Linked(f) && o in f.kids && i < |f.kids[o]| && SlotAt(f, o, i, last)
    modifies o`child, Cell(last)`next
    ensures g == f.Detach(o, i) && g.Ok() && Linked(g)
    ensures SlotAt(g, o, i, last)
    ensures last == null ==> forall n | n in f.nodes :: n.next == old(n.next)
    ensures last != null ==> o.child == old(o.child)
  {
    if last != null { assert f.Holds(o, last); HeldOnlyIn(f, o, last); }
    UnlinkIn(f.hdr, f.nodes, f.kids, o, i, last);
    g := f.Detach(o, i);
    DetachOk(f, o, i);
  }

  /** `child` is linked in behind `last`. */
  method InsertBehind(o: Node, last: Node?, child: Node, ghost before: seq<Node>, ghost rest: seq<Node>)
    requires ListAt(o.child, before + rest) && NoDup(before + rest) && child !in before && child !in rest
    requires last == if before == [] then null else before[|before| - 1]
    modifies o`child, Cell(last)`next, child`next
    ensures ListAt(o.child, before + [child] + rest)
    ensures last != null ==> o.child == old(o.child)
  {
    ghost var s, t := before + rest, before + [child] + rest;
    if last == null {
      child.next := o.child;
      o.child := child;
    } else {
      assert last == s[|before| - 1];
      child.next := last.next;
      last.next := child;
    }
    forall k | 0 <= k < |t| ensures t[k].next == After(t, k + 1) {
      if k < |before| { assert t[k] == s[k]; } else if k > |before| { assert t[k] == s[k - 1]; }
    }
  }

  lemma AddNodeLinked(f: Forest, c: Node)
    requires f.Ok() && Linked(f) && c !in f.nodes && c != f.hdr && c.child == null
    ensures Linked(f.AddNode(c))
  {
    var g := f.AddNode(c);
    forall p | p in g.kids ensures KidsKnown(g.nodes, g.kids, p) && ListOf(g.kids, p) {
      if p != c { assert ListOf(f.kids, p); }
    }
  }

  /** The same among all child lists. */
  method InsertIn(ghost hdr: Node, ghost nodes: set<Node>, ghost kids: map<Node, seq<Node>>,
                  o: Node, ghost j: nat, last: Node?, x: Node)
    requires Lists(hdr, nodes, kids) && o in kids && j <= |kids[o]| && NoDup(kids[o]) && x in nodes
    requires last == if j == 0 then null else kids[o][j - 1]
    requires last != null ==> OnlyIn(kids, o, last)
    requires forall p | p in kids :: x !in kids[p]
    modifies o`child, Cell(last)`next, x`next
    ensures Lists(hdr, nodes, kids[o := InsertAt(kids[o], j, x)])
  {
    ghost var s, after := kids[o], kids[o := InsertAt(kids[o], j, x)];
    assert ListOf(kids, o);
    assert s == s[..j] + s[j..];
    hide NoDup, ListAt;
    InsertBehind(o, last, x, s[..j], s[j..]);
    forall p | p in after ensures KidsKnown(nodes, after, p) && ListOf(after, p) {
      assert old(ListOf(kids, p));
      if p != o {
        assert old(ListAt(p.child, kids[p]));
        assert p.child == old(p.child);
        assert forall k | k in kids[p] :: k.next == old(k.next);
        assert ListAt(p.child, kids[p]);
      }
    }
  }

  /** Walks to the end of the list of `o` and links `first` there. */
  method AppendOne(o: Node, first: Node?, ghost s: seq<Node>, ghost t: seq<Node>)
    requires ListAt(o.child, s) && ListAt(first, t) && NoDup(s) && forall k | k in s :: k !in t
    modifies o`child, s`next
    ensures ListAt(o.child, s + t) && ListAt(first, t)
    ensures s != [] ==> o.child == old(o.child)
  {
    var scan: Node? := null;
    ghost var i := 0;
    while SlotNext(o, scan) != null
      invariant i <= |s| && scan == (if i == 0 then null else s[i - 1]) && SlotNext(o, scan) == After(s, i)
      decreases |s| - i
    {
      scan := SlotNext(o, scan);
      i := i + 1;
    }
    assert scan != null ==> scan in s;
    if scan == null { o.child := first; } else { scan.next := first; }
    assert forall k :: 0 <= k < |t| ==> t[k] in t && t[k].next == old(t[k].next);
    ghost var u := s + t;
    forall k | 0 <= k < |u| ensures u[k].next == After(u, k + 1) {
      if k < |s| { assert u[k] == s[k]; } else { assert u[k] == t[k - |s|]; }
    }
  }

  // ---------------------------------------------------------------- container_add_child

  /** `child` comes first in the list of `node`. */
  method PushFront(node: Node, child: Node, ghost s: seq<Node>)
    requires ListAt(node.child, s) && child !in s
    modifies node`child, child`next
    ensures ListAt(node.child, [child] + s)
  {
    child.next := node.child;
    node.child := child;
    ghost var t := [child] + s;
    forall j | 0 <= j < |t| ensures t[j].next == After(t, j + 1) {
      if j > 0 { assert t[j] == s[j - 1]; }
    }
  }

  method PushFrontIn(ghost hdr: Node, ghost nodes: set<Node>, ghost kids: map<Node, seq<Node>>,
                     node: Node, child: Node)
    requires Lists(hdr, nodes, kids) && node in kids && child in nodes
    requires forall p | p in kids :: child !in kids[p]
    modifies node`child, child`next
    ensures Lists(hdr, nodes, kids[node := InsertAt(kids[node], 0, child)])
  {
    InsertFront(kids[node], child);
    ghost var after := kids[node := [child] + kids[node]];
    assert ListOf(kids, node);
    PushFront(node, child, kids[node]);
    forall p | p in after ensures KidsKnown(nodes, after, p) && ListOf(after, p) {
      assert old(ListOf(kids, p));
    }
  }

  method ContainerAddChild(ghost f: Forest, node: Node, child: Node) returns (ghost g: Forest)
    requires Attachable(f, node, 0, child) && node != f.hdr && Linked(f)
    modifies node`child, child`next, child`parent
    ensures g == f.Attach(node, 0, child) && g.Ok() && Linked(g)
    ensures child.parent == node
  {
    UnheldAnywhere(f, child);
    PushFrontIn(f.hdr, f.nodes, f.kids, node, child);
    child.parent := node;
    g := f.Attach(node, 0, child);
    AttachOk(f, node, 0, child);
  }

  // ---------------------------------------------------------------- container_parent_child

  ghost function ParentIn(f: Forest, n: Node): Node?
    requires n in f.anc
  {
    if f.anc[n] == [] then null else f.anc[n][0]
  }

  /** The parent that the forest gives a node; a node it does not know has none. */
  ghost function Parent(f: Forest, n: Node): Node? {
    if n in f.anc then ParentIn(f, n) else null
  }

  /** Every parent pointer names the node whose child list holds the node. */
  ghost predicate ParentsExact(f: Forest)
    requires f.Shaped()
    reads f.nodes`parent
  {
    forall n | n in f.nodes :: n.parent == ParentIn(f, n)
  }

  /** Would putting `child` under `parent` change nothing or close a loop? */
  ghost predicate Refused(f: Forest, parent: Node, child: Node)
    requires parent in f.anc && child in f.anc
  {
    (f.anc[child] != [] && f.anc[child][0] == parent) || child in f.anc[parent]
  }

  /** The forest without the link from `x` to its parent, if it has one. */
  ghost function Unparented(f: Forest, x: Node): Forest
    requires f.Ok() && x in f.nodes
  {
    if f.anc[x] == [] then f
    else
      assert f.Placed(x);
      f.Detach(f.anc[x][0], IndexOf(f.kids[f.anc[x][0]], x))
  }

  ghost function ParentChild(f: Forest, parent: Node, child: Node): Forest
    requires f.Ok() && parent in f.nodes && child in f.nodes
  {
    if Refused(f, parent, child) then f
    else
      var h := Unparented(f, child);
      assert parent in h.kids by { if f.anc[child] != [] { assert f.Placed(child); } }
      h.Attach(parent, 0, child)
  }

  lemma UnparentedOk(f: Forest, x: Node)
    requires f.Ok() && x in f.nodes && x !in f.kids[f.hdr]
    ensures var h := Unparented(f, x);
      && h.Ok() && h.nodes == f.nodes && h.hdr == f.hdr && h.kids[h.hdr] == f.kids[f.hdr]
      && h.anc[x] == []
      && forall n | n in f.nodes && x !in f.anc[n] && n != x :: h.anc[n] == f.anc[n]
  {
    if f.anc[x] != [] {
      assert f.Placed(x);
      var o := f.anc[x][0];
      DetachOk(f, o, IndexOf(f.kids[o], x));
      forall n | n in f.nodes && x !in f.anc[n] ensures Regraft(f.anc[n], x, []) == f.anc[n] {
        RegraftAbsent(f.anc[n], x, []);
      }
    }
  }

  /** Relinking `child` changes no other parent. */
  lemma ParentChildParents(f: Forest, parent: Node, child: Node)
    requires f.Ok() && f.kids[f.hdr] == []
    requires parent in f.nodes && child in f.nodes && parent != child
    requires !Refused(f, parent, child)
    ensures f.anc[child] != [] ==> f.Placed(child)
    ensures Attachable(Unparented(f, child), parent, 0, child)
    ensures ParentChild(f, parent, child).Ok()
    ensures var g := ParentChild(f, parent, child);
      && g.nodes == f.nodes && g.hdr == f.hdr && g.kids[g.hdr] == []
      && ParentIn(g, child) == parent
      && forall n | n in f.nodes && n != child :: ParentIn(g, n) == ParentIn(f, n)
  {
    assert f.anc[child] != [] ==> f.Placed(child);
    UnparentedOk(f, child);
    AttachOk(Unparented(f, child), parent, 0, child);
  }

  method ContainerParentChild(ghost f: Forest, parent: Node, child: Node) returns (ghost g: Forest)
    requires f.Ok() && Linked(f) && ParentsExact(f) && f.kids[f.hdr] == []
    requires parent in f.nodes && child in f.nodes && parent != child
    modifies f.nodes`next, f.nodes`child, f.nodes`parent
    ensures g == ParentChild(f, parent, child)
    ensures g.Ok() && Linked(g) && ParentsExact(g)
    ensures g.nodes == f.nodes && g.hdr == f.hdr && g.kids[g.hdr] == []
  {
    // nothing to do
    if child.parent == parent { return f; }

    // a node must not come below itself
    var loops := IsAbove(f, parent, child);
    if loops { return f; }
    ParentChildParents(f, parent, child);

    // no list holds the child yet
    if child.parent == null {
      g := ContainerAddChild(f, parent, child);
      return;
    }

    // the child moves from one list to another
    g := Reparent(f, parent, child);
  }

  method Reparent(ghost f: Forest, parent: Node, child: Node) returns (ghost g: Forest)
    requires f.Ok() && Linked(f) && f.kids[f.hdr] == []
    requires parent in f.nodes && child in f.nodes && parent != child
    requires !Refused(f, parent, child) && f.anc[child] != [] && child.parent == f.anc[child][0]
    modifies f.nodes`next, f.nodes`child, child`parent
    ensures g == ParentChild(f, parent, child) && g.Ok() && Linked(g)
    ensures child.parent == parent
  {
    ParentChildParents(f, parent, child);
    var node := child.parent;
    assert f.Placed(child);
    var c, i := FindSlot(f, node, child);
    g := Unlink(f, node, i, c);
    child.parent := null;
    g := ContainerAddChild(g, parent, child);
  }

  /** Walks the parent pointers up from `node`, looking for `child`. */
  method IsAbove(ghost f: Forest, parent: Node, child: Node) returns (above: bool)
    requires f.Ok() && ParentsExact(f) && parent in f.nodes
    ensures above <==> child in f.anc[parent]
  {
    var node := parent.parent;
    ghost var k := 0;
    while node != null
      invariant k <= |f.anc[parent]| && node == After(f.anc[parent], k)
      invariant child !in f.anc[parent][..k]
      decreases |f.anc[parent]| - k
    {
      if node == child {
        return true;
      }
      AncestorLine(f, parent, k);
      assert ParentIn(f, node) == After(f.anc[parent], k + 1);
      node := node.parent;
      k := k + 1;
    }
    return false;
  }

  /** Scans the child list of `node` for the slot in front of `child`. */
  method FindSlot(ghost f: Forest, node: Node, child: Node) returns (c: Node?, ghost i: nat)
    requires f.Ok() && Linked(f) && f.Holds(node, child)
    ensures i == IndexOf(f.kids[node], child) && SlotAt(f, node, i, c)
    ensures c != null ==> c in f.nodes
  {
    i := 0;
    c := null;
    SlotNextIs(f, node, 0, null);
    while SlotNext(node, c) != null
      invariant SlotAt(f, node, i, c) && SlotNext(node, c) == After(f.kids[node], i)
      invariant child !in f.kids[node][..i]
      invariant c != null ==> c in f.nodes
      decreases |f.kids[node]| - i
    {
      if SlotNext(node, c) == child {
        return;
      }
      assert f.Holds(node, f.kids[node][i]);
      c := SlotNext(node, c);
      i := i + 1;
      SlotNextIs(f, node, i, c);
    }
    // the search does not fail: the list of the parent holds the node
    assert false;
  }
}
