/** The nodes of a message thread and the forest they form.  `Forest` is a mathematical picture
    of the `next`, `child` and `parent` pointers: the ordered child list of every node and, for
    every node, the line of its ancestors, nearest first. */
module ThreadForest {
  import opened SeqFacts

  /** The parsed subject of a message: its root form, if any, and whether it is a reply. */
  datatype Subject = Subject(root: string, re: bool)

  class MessageInfo {
    const messageId: nat
    const references: seq<nat>
    const subject: Subject

    constructor (messageId: nat, references: seq<nat>, subject: Subject)
      ensures this.messageId == messageId && this.references == references && this.subject == subject
    {
      this.messageId, this.references, this.subject := messageId, references, subject;
    }
  }

  class Node {
    var next: Node?
    var parent: Node?
    var child: Node?
    var message: MessageInfo?
    var rootSubject: string  // the empty string when there is none
    var order: nat
    var re: bool

    constructor ()
      ensures next == null && parent == null && child == null && message == null
      ensures rootSubject == "" && order == 0 && !re
    {
      next, parent, child, message := null, null, null, null;
      rootSubject, order, re := "", 0, false;
    }
  }

  // ---------------------------------------------------------------- lines of ancestors

  /** The line `s` after the subtree of `x` has been moved so that the line of `x` is `t`. */
  function Regraft<T(==)>(s: seq<T>, x: T, t: seq<T>): seq<T> {
    if s == [] then [] else if s[0] == x then [x] + t else [s[0]] + Regraft(s[1..], x, t)
  }

  /** The line `s` without the node `x`. */
  function Skip<T(==)>(s: seq<T>, x: T): seq<T> {
    if s == [] then [] else if s[0] == x then Skip(s[1..], x) else [s[0]] + Skip(s[1..], x)
  }

  /** The line `s` with `y` in the place of `x`. */
  function Replace<T(==)>(s: seq<T>, x: T, y: T): seq<T> {
    if s == [] then [] else [if s[0] == x then y else s[0]] + Replace(s[1..], x, y)
  }

  /** The members of `s` that are in `keep`, in order. */
  function Only<T(==)>(s: seq<T>, keep: set<T>): seq<T> {
    if s == [] then [] else if s[0] in keep then [s[0]] + Only(s[1..], keep) else Only(s[1..], keep)
  }

  lemma RegraftCons<T>(a: T, s: seq<T>, x: T, t: seq<T>)
    ensures Regraft([a] + s, x, t) == if a == x then [x] + t else [a] + Regraft(s, x, t)
  {
    assert ([a] + s)[1..] == s;
  }

  lemma SkipCons<T>(a: T, s: seq<T>, x: T)
    ensures Skip([a] + s, x) == if a == x then Skip(s, x) else [a] + Skip(s, x)
  {
    assert ([a] + s)[1..] == s;
  }

  lemma ReplaceCons<T>(a: T, s: seq<T>, x: T, y: T)
    ensures Replace([a] + s, x, y) == [if a == x then y else a] + Replace(s, x, y)
  {
    assert ([a] + s)[1..] == s;
  }

  lemma {:induction false} RegraftAbsent<T>(s: seq<T>, x: T, t: seq<T>)
    requires x !in s
    ensures Regraft(s, x, t) == s
  {
    if s != [] {
      RegraftAbsent(s[1..], x, t);
    }
  }

  lemma {:induction false} RegraftMember<T>(s: seq<T>, x: T, t: seq<T>, y: T)
    ensures x in s ==> x in Regraft(s, x, t)
    ensures y in Regraft(s, x, t) ==> y in s || y in t
    ensures y in t && x in s ==> y in Regraft(s, x, t)
  {
    if s != [] {
      RegraftMember(s[1..], x, t, y);
    }
  }

  lemma {:induction false} SkipMember<T>(s: seq<T>, x: T, y: T)
    ensures y in Skip(s, x) <==> y in s && y != x
  {
    if s != [] {
      SkipMember(s[1..], x, y);
    }
  }

  lemma {:induction false} SkipAbsent<T>(s: seq<T>, x: T)
    requires x !in s
    ensures Skip(s, x) == s
  {
    if s != [] {
      SkipAbsent(s[1..], x);
    }
  }

  lemma {:induction false} ReplaceAbsent<T>(s: seq<T>, x: T, y: T)
    requires x !in s
    ensures Replace(s, x, y) == s
  {
    if s != [] {
      ReplaceAbsent(s[1..], x, y);
    }
  }

  /** Skipping a node outside `keep` does not show in the part of a line that is in `keep`. */
  lemma {:induction false} OnlySkip<T>(s: seq<T>, x: T, keep: set<T>)
    requires x !in keep
    ensures Only(Skip(s, x), keep) == Only(s, keep)
  {
    if s != [] {
      OnlySkip(s[1..], x, keep);
    }
  }

  // ---------------------------------------------------------------- forests

  /** `hdr` stands for the variable that holds the head of the root list: its `child` field is
      that variable.  `msgs` are the nodes that carry a message. */
  datatype Forest = Forest(hdr: Node, nodes: set<Node>, kids: map<Node, seq<Node>>,
                           anc: map<Node, seq<Node>>, msgs: set<Node>)
  {
    /** The ancestors of a child of `o`. */
    ghost function Line(o: Node): seq<Node>
      requires o == hdr || o in anc
    {
      if o == hdr then [] else [o] + anc[o]
    }

    /** The node whose child list holds `n`. */
    ghost function Owner(n: Node): Node
      requires n in anc
    {
      if anc[n] == [] then hdr else anc[n][0]
    }

    /** The child list of `o` holds `k`. */
    ghost predicate Holds(o: Node, k: Node) {
      o in kids && k in kids[o]
    }

    ghost predicate Placed(n: Node)
      requires n in anc && anc[n] != []
    {
      anc[n][0] in nodes && Holds(anc[n][0], n)
    }

    ghost predicate Shaped() {
      && hdr !in nodes
      && kids.Keys == nodes + {hdr}
      && anc.Keys == nodes
    }

    /** Every node is in at most one child list, at most once, and ancestor lines are finite and
        agree with the child lists, so there are no cycles.  A node without a parent may or may
        not be in the root list. */
    ghost predicate Ok() {
      Shaped() && ListsOk() && KidsOk() && PlacesOk()
    }

    ghost predicate ListsOk() {
      forall o | o in kids :: NoDup(kids[o])
    }

    ghost predicate KidsOk() {
      forall o, k {:trigger Holds(o, k)} | o in kids && k in kids[o] :: KidOk(o, k)
    }

    /** The child `k` of `o` has `o` and the ancestors of `o` as its ancestors. */
    ghost predicate KidOk(o: Node, k: Node) {
      k in nodes && k in anc && (o == hdr || o in anc) && anc[k] == Line(o)
    }

    ghost predicate PlacesOk() {
      forall n {:trigger Placed(n)} | n in nodes && n in anc && anc[n] != [] :: Placed(n)
    }

    /** Every node without a parent is in the root list. */
    ghost predicate Rooted()
      requires Shaped()
    {
      forall n | n in nodes && anc[n] == [] :: n in kids[hdr]
    }

    /** The node that has just been created, in no list. */
    ghost function AddNode(n: Node): Forest {
      Forest(hdr, nodes + {n}, kids[n := []], anc[n := []], msgs)
    }

    ghost function Regrafted(x: Node, t: seq<Node>): map<Node, seq<Node>> {
      map n | n in anc :: if n == x then t else Regraft(anc[n], x, t)
    }

    /** Takes entry `i` out of the child list of `o`. */
    ghost function Detach(o: Node, i: nat): Forest
      requires o in kids && i < |kids[o]|
    {
      Forest(hdr, nodes, kids[o := DropAt(kids[o], i)], Regrafted(kids[o][i], []), msgs)
    }

    /** Puts `x`, which is in no list, in front of entry `i` of the child list of `o`. */
    ghost function Attach(o: Node, i: nat, x: Node): Forest
      requires o in kids && i <= |kids[o]| && (o == hdr || o in anc)
    {
      Forest(hdr, nodes, kids[o := InsertAt(kids[o], i, x)],
             if o == hdr then anc else Regrafted(x, Line(o)), msgs)
    }

    /** Drops entry `i` of the child list of `o` and puts its children, reversed, in its place. */
    ghost function Splice(o: Node, i: nat): Forest
      requires o in kids && i < |kids[o]| && kids[o][i] in kids
    {
      var c := kids[o][i];
      Forest(hdr, nodes - {c},
             kids[o := kids[o][..i] + Reverse(kids[c]) + kids[o][i + 1..]] - {c},
             map n | n in anc && n != c :: Skip(anc[n], c), msgs)
    }

    /** Drops root `i` and appends its children to those of the root `d`. */
    ghost function Merge(i: nat, d: Node): Forest
      requires hdr in kids && i < |kids[hdr]| && kids[hdr][i] in kids && d in kids
    {
      var c := kids[hdr][i];
      Forest(hdr, nodes - {c},
             kids[hdr := DropAt(kids[hdr], i)][d := kids[d] + kids[c]] - {c},
             map n | n in anc && n != c :: Replace(anc[n], c, d), msgs)
    }

    /** The nodes below `o`. */
    ghost function Under(o: Node): set<Node>
      requires anc.Keys == nodes
    {
      set n | n in nodes && (o == hdr || o in anc[n])
    }
  }

  /** A node is in one child list only. */
  lemma OneOwner(f: Forest, o: Node, p: Node, k: Node)
    requires f.Ok() && f.Holds(o, k) && f.Holds(p, k)
    ensures o == p
  {
    assert f.Line(o) == f.Line(p);
    if o != f.hdr && p != f.hdr {
      assert f.Line(o)[0] == f.Line(p)[0];
    }
  }

  /** A node that has no parent and is not a root is in no child list. */
  lemma Unheld(f: Forest, p: Node, x: Node)
    requires f.Ok() && x in f.nodes && f.anc[x] == [] && x !in f.kids[f.hdr]
    ensures !f.Holds(p, x)
  {
  }

  lemma AddNodeOk(f: Forest, n: Node)
    requires f.Ok() && n !in f.nodes && n != f.hdr
    ensures f.AddNode(n).Ok()
  {
    var g := f.AddNode(n);
    assert g.KidsOk() by {
      forall o, k | o in g.kids && k in g.kids[o] ensures g.KidOk(o, k) {
        assert f.Holds(o, k);
      }
    }
    assert g.PlacesOk() by {
      forall m | m in g.nodes && g.anc[m] != [] ensures g.Placed(m) {
        assert f.Placed(m);
      }
    }
  }

  // ---------------------------------------------------------------- Detach

  lemma DetachOk(f: Forest, o: Node, i: nat)
    requires f.Ok() && o in f.kids && i < |f.kids[o]|
    ensures f.Detach(o, i).Ok()
    ensures var x := f.kids[o][i];
      && x in f.nodes && f.Detach(o, i).anc[x] == []
      && x !in f.Detach(o, i).kids[f.hdr]
  {
    var x := f.kids[o][i];
    var g := f.Detach(o, i);
    assert f.Holds(o, x);
    NoDupDrop(f.kids[o], i);
    assert g.KidsOk() by {
      forall p, k | p in g.kids && k in g.kids[p] ensures g.KidOk(p, k) {
        DetachHolds(f, o, i, p, k);
      }
    }
    assert g.PlacesOk() by {
      forall n | n in g.nodes && g.anc[n] != [] ensures g.Placed(n) {
        DetachPlaced(f, o, i, n);
      }
    }
    if x in g.kids[f.hdr] {
      assert f.Holds(f.hdr, x);
      OneOwner(f, o, f.hdr, x);
    }
  }

  lemma DetachHolds(f: Forest, o: Node, i: nat, p: Node, k: Node)
    requires f.Ok() && o in f.kids && i < |f.kids[o]|
    requires f.Detach(o, i).Holds(p, k)
    ensures f.Detach(o, i).KidOk(p, k)
  {
    var x := f.kids[o][i];
    assert f.Holds(o, x);
    NoDupDrop(f.kids[o], i);
    assert f.Holds(p, k);
    if k == x {
      OneOwner(f, o, p, k);
    } else if p != f.hdr {
      RegraftCons(p, f.anc[p], x, []);
    }
  }

  lemma DetachPlaced(f: Forest, o: Node, i: nat, n: Node)
    requires f.Ok() && o in f.kids && i < |f.kids[o]|
    requires n in f.nodes && n != f.kids[o][i] && f.anc[n] != []
    ensures f.Detach(o, i).anc[n] != []
    ensures f.Detach(o, i).Placed(n)
  {
    var x := f.kids[o][i];
    NoDupDrop(f.kids[o], i);
    assert f.Placed(n);
  }

  // ---------------------------------------------------------------- Attach

  ghost predicate Attachable(f: Forest, o: Node, i: nat, x: Node) {
    && f.Ok() && o in f.kids && i <= |f.kids[o]|
    && x in f.nodes && f.anc[x] == [] && x !in f.kids[f.hdr]
    && o != x && (o == f.hdr || x !in f.anc[o])
  }

  lemma AttachOk(f: Forest, o: Node, i: nat, x: Node)
    requires Attachable(f, o, i, x)
    ensures f.Attach(o, i, x).Ok()
  {
    var g := f.Attach(o, i, x);
    Unheld(f, o, x);
    NoDupInsert(f.kids[o], i, x);
    assert g.KidsOk() by {
      forall p, k | p in g.kids && k in g.kids[p] ensures g.KidOk(p, k) {
        AttachHolds(f, o, i, x, p, k);
      }
    }
    assert g.PlacesOk() by {
      forall n | n in g.nodes && g.anc[n] != [] ensures g.Placed(n) {
        AttachPlaced(f, o, i, x, n);
      }
    }
  }

  lemma AttachHolds(f: Forest, o: Node, i: nat, x: Node, p: Node, k: Node)
    requires Attachable(f, o, i, x)
    requires f.Attach(o, i, x).Holds(p, k)
    ensures f.Attach(o, i, x).KidOk(p, k)
  {
    var g := f.Attach(o, i, x);
    if o != f.hdr {
      RegraftAbsent(f.anc[o], x, f.Line(o));
    }
    Unheld(f, p, x);
    if k != x {
      assert f.Holds(p, k);
      if p != f.hdr && o != f.hdr {
        RegraftCons(p, f.anc[p], x, f.Line(o));
      }
    }
  }

  lemma AttachPlaced(f: Forest, o: Node, i: nat, x: Node, n: Node)
    requires Attachable(f, o, i, x)
    requires n in f.nodes && f.Attach(o, i, x).anc[n] != []
    ensures f.Attach(o, i, x).Placed(n)
  {
    var g := f.Attach(o, i, x);
    assert g.kids[o][i] == x;
    if n == x {
      assert g.anc[x] == f.Line(o);
    } else {
      assert f.Placed(n);
      var p := f.anc[n][0];
      assert p != x ==> g.anc[n][0] == p;
      if p == o {
        var j := IndexOf(f.kids[o], n);
        assert g.kids[o][if j < i then j else j + 1] == n;
      }
    }
  }

  // ---------------------------------------------------------------- Splice

  ghost predicate Spliceable(f: Forest, o: Node, i: nat) {
    f.Ok() && o in f.kids && i < |f.kids[o]| && o != f.kids[o][i]
  }

  lemma SpliceOk(f: Forest, o: Node, i: nat)
    requires Spliceable(f, o, i)
    ensures f.kids[o][i] in f.nodes && f.Splice(o, i).Ok()
  {
    var c := f.kids[o][i];
    assert f.Holds(o, c);
    var g := f.Splice(o, i);
    SpliceKids(f, o, i);
    assert g.KidsOk() by {
      forall p, k | p in g.kids && k in g.kids[p] ensures g.KidOk(p, k) {
        SpliceHolds(f, o, i, p, k);
      }
    }
    assert g.PlacesOk() by {
      forall n | n in g.nodes && g.anc[n] != [] ensures g.Placed(n) {
        SplicePlaced(f, o, i, n);
      }
    }
  }

  lemma SpliceHolds(f: Forest, o: Node, i: nat, p: Node, k: Node)
    requires Spliceable(f, o, i) && f.kids[o][i] in f.nodes
    requires f.Splice(o, i).Holds(p, k)
    ensures f.Splice(o, i).KidOk(p, k)
  {
    var c := f.kids[o][i];
    assert f.Holds(o, c);
    SpliceKids(f, o, i);
    if p == o && k in f.kids[c] {
      assert f.Holds(c, k);
      SkipCons(c, f.anc[c], c);
      if o != f.hdr { SkipCons(o, f.anc[o], c); }
    } else {
      assert f.Holds(p, k);
      if k == c {
        OneOwner(f, o, p, k);
      }
      if p != f.hdr { SkipCons(p, f.anc[p], c); }
    }
  }

  lemma SplicePlaced(f: Forest, o: Node, i: nat, n: Node)
    requires Spliceable(f, o, i) && f.kids[o][i] in f.nodes
    requires n in f.Splice(o, i).nodes && f.Splice(o, i).anc[n] != []
    ensures f.Splice(o, i).Placed(n)
  {
    var c := f.kids[o][i];
    assert f.Holds(o, c);
    SpliceKids(f, o, i);
    assert f.Placed(n);
    var p := f.anc[n][0];
    if p == c {
      assert f.anc[n] == [c] + f.Line(o);
      SkipCons(c, f.Line(o), c);
      if o != f.hdr { SkipCons(o, f.anc[o], c); }
    } else {
      SkipCons(p, f.anc[p], c);
    }
  }

  lemma SpliceKids(f: Forest, o: Node, i: nat)
    requires Spliceable(f, o, i) && f.kids[o][i] in f.nodes
    ensures var c := f.kids[o][i]; var l := f.Splice(o, i).kids;
      NoDup(l[o]) && forall k :: k in l[o] <==> k in f.kids[c] || (k in f.kids[o] && k != c)
  {
    var l, c := f.kids[o], f.kids[o][i];
    NoDupReverse(f.kids[c]);
    NoDupDrop(l, i);
    var r := Reverse(f.kids[c]);
    forall k | k in f.kids[c] ensures k !in l {
      if k in l {
        assert f.Holds(c, k) && f.Holds(o, k);
        OneOwner(f, c, o, k);
      }
    }
    NoDupConcat(r, l[i + 1..]);
    NoDupConcat(l[..i], r + l[i + 1..]);
    assert l[..i] + r + l[i + 1..] == l[..i] + (r + l[i + 1..]);
    assert forall k :: k in DropAt(l, i) <==> k in l[..i] || k in l[i + 1..];
  }

  // ---------------------------------------------------------------- Merge

  ghost predicate Mergeable(f: Forest, i: nat, d: Node) {
    f.Ok() && i < |f.kids[f.hdr]| && d in f.kids[f.hdr] && f.kids[f.hdr][i] != d
  }

  lemma MergeOk(f: Forest, i: nat, d: Node)
    requires Mergeable(f, i, d)
    ensures f.kids[f.hdr][i] in f.nodes && d in f.nodes
    ensures f.Merge(i, d).Ok()
  {
    var c := f.kids[f.hdr][i];
    assert f.Holds(f.hdr, c) && f.Holds(f.hdr, d);
    var g := f.Merge(i, d);
    MergeKids(f, i, d);
    assert g.KidsOk() by {
      forall p, k | p in g.kids && k in g.kids[p] ensures g.KidOk(p, k) {
        MergeHolds(f, i, d, p, k);
      }
    }
    assert g.PlacesOk() by {
      forall n | n in g.nodes && g.anc[n] != [] ensures g.Placed(n) {
        MergePlaced(f, i, d, n);
      }
    }
  }

  lemma MergeKids(f: Forest, i: nat, d: Node)
    requires Mergeable(f, i, d) && f.kids[f.hdr][i] in f.nodes && d in f.nodes
    ensures var g := f.Merge(i, d); var c := f.kids[f.hdr][i];
      && NoDup(g.kids[f.hdr]) && NoDup(g.kids[d])
      && (forall k :: k in g.kids[f.hdr] <==> k in f.kids[f.hdr] && k != c)
  {
    var c := f.kids[f.hdr][i];
    NoDupDrop(f.kids[f.hdr], i);
    forall k | k in f.kids[d] ensures k !in f.kids[c] {
      if k in f.kids[c] {
        assert f.Holds(c, k) && f.Holds(d, k);
        OneOwner(f, c, d, k);
      }
    }
    NoDupConcat(f.kids[d], f.kids[c]);
  }

  lemma MergeHolds(f: Forest, i: nat, d: Node, p: Node, k: Node)
    requires Mergeable(f, i, d) && f.kids[f.hdr][i] in f.nodes && d in f.nodes
    requires f.Merge(i, d).Holds(p, k)
    ensures f.Merge(i, d).KidOk(p, k)
  {
    var c := f.kids[f.hdr][i];
    assert f.Holds(f.hdr, c) && f.Holds(f.hdr, d);
    MergeKids(f, i, d);
    if p == d && k in f.kids[c] {
      assert f.Holds(c, k);
      ReplaceCons(c, [], c, d);
    } else {
      assert f.Holds(p, k);
      if k == c {
        OneOwner(f, f.hdr, p, k);
      }
      if p != f.hdr { ReplaceCons(p, f.anc[p], c, d); }
    }
  }

  lemma MergePlaced(f: Forest, i: nat, d: Node, n: Node)
    requires Mergeable(f, i, d) && f.kids[f.hdr][i] in f.nodes && d in f.nodes
    requires n in f.Merge(i, d).nodes && f.Merge(i, d).anc[n] != []
    ensures f.Merge(i, d).Placed(n)
  {
    var c := f.kids[f.hdr][i];
    MergeKids(f, i, d);
    assert f.Placed(n);
  }

  // ---------------------------------------------------------------- ancestors

  /** The ancestors of an ancestor of `n` are the rest of the line of `n`. */
  lemma {:induction false} AncestorLine(f: Forest, n: Node, j: nat)
    requires f.Ok() && n in f.nodes && j < |f.anc[n]|
    ensures f.anc[n][j] in f.nodes && f.anc[f.anc[n][j]] == f.anc[n][j + 1..]
    decreases j
  {
    assert f.Placed(n);
    var p := f.anc[n][0];
    assert f.Holds(p, n) && f.anc[n] == [p] + f.anc[p];
    if j > 0 {
      AncestorLine(f, p, j - 1);
      assert f.anc[n][j] == f.anc[p][j - 1];
      assert f.anc[n][j + 1..] == f.anc[p][j..];
    }
  }

  lemma NotOwnAncestor(f: Forest, n: Node)
    requires f.Ok() && n in f.nodes
    ensures n !in f.anc[n]
  {
    if n in f.anc[n] {
      var j := IndexOf(f.anc[n], n);
      AncestorLine(f, n, j);
    }
  }

  /** What is above an ancestor of `n` is above `n`. */
  lemma AncestorTrans(f: Forest, n: Node, a: Node, b: Node)
    requires f.Ok() && n in f.nodes && a in f.anc[n]
    ensures a in f.nodes
    ensures b in f.anc[a] ==> b in f.anc[n]
  {
    var j := IndexOf(f.anc[n], a);
    AncestorLine(f, n, j);
  }

  /** A node that has `o` as an ancestor is, or is below, a child of `o`. */
  lemma ChildTowards(f: Forest, o: Node, n: Node) returns (a: Node)
    requires f.Ok() && n in f.nodes && o in f.anc[n]
    ensures o in f.kids && a in f.kids[o] && (a == n || a in f.anc[n])
  {
    var j := IndexOf(f.anc[n], o);
    if j == 0 {
      a := n;
      assert f.Placed(n);
    } else {
      a := f.anc[n][j - 1];
      AncestorLine(f, n, j - 1);
      assert f.anc[a][0] == o;
      assert f.Placed(a);
    }
  }

  /** Every node is, or is below, a root. */
  lemma RootAbove(f: Forest, n: Node) returns (a: Node)
    requires f.Ok() && n in f.nodes
    ensures a in f.nodes && f.anc[a] == [] && (a == n || a in f.anc[n])
  {
    if f.anc[n] == [] {
      a := n;
    } else {
      var j := |f.anc[n]| - 1;
      AncestorLine(f, n, j);
      a := f.anc[n][j];
    }
  }
}
