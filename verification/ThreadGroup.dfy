/** The third phase of threading: roots with the same root subject are put together. */
module ThreadGroup {
  import opened SeqFacts
  import opened ThreadForest
  import opened ThreadLinks

  // ---------------------------------------------------------------- moving subtrees among the roots

  ghost predicate RootedBut(f: Forest, loose: set<Node>)
    requires f.Shaped()
  {
    forall n | n in f.nodes && n !in loose && f.anc[n] == [] :: n in f.kids[f.hdr]
  }

  ghost predicate Loose(f: Forest, x: Node) {
    x in f.nodes && x in f.anc && f.anc[x] == [] && f.hdr in f.kids && x !in f.kids[f.hdr]
  }

  /** `x` is taken out of the list that holds it, the root list if it has no parent. */
  ghost function Uproot(f: Forest, x: Node): Forest
    requires x in f.anc && f.Holds(f.Owner(x), x)
  {
    f.Detach(f.Owner(x), IndexOf(f.kids[f.Owner(x)], x))
  }

  lemma OwnerHolds(f: Forest, x: Node)
    requires f.Ok() && x in f.nodes && (f.anc[x] != [] || x in f.kids[f.hdr])
    ensures f.Holds(f.Owner(x), x) && f.Owner(x) in f.kids
  {
    if f.anc[x] != [] { assert f.Placed(x); }
  }

  lemma {:induction false} RegraftEmpty<T>(s: seq<T>, x: T, t: seq<T>)
    ensures Regraft(s, x, t) == [] <==> s == []
    ensures s != [] ==> Regraft(s, x, t)[0] == s[0]
  {
  }

  lemma UprootFacts(f: Forest, x: Node, loose: set<Node>)
    requires f.Ok() && RootedBut(f, loose) && x in f.nodes && f.Holds(f.Owner(x), x)
    ensures var g := Uproot(f, x);
      && g.Ok() && RootedBut(g, loose + {x}) && Loose(g, x) && g.nodes == f.nodes && g.hdr == f.hdr && g.msgs == f.msgs
    ensures var g := Uproot(f, x);
      && (forall n | n in f.nodes && n != x && x !in f.anc[n] :: g.anc[n] == f.anc[n])
      && (forall n | n in f.nodes && n != x :: g.anc[n] == [] <==> f.anc[n] == [])
      && (forall n | n in f.nodes && n != x :: ParentIn(g, n) == ParentIn(f, n))
      && (forall q, k | q in f.kids :: k in g.kids[q] <==> k in f.kids[q] && k != x)
      && (forall q | q in f.kids && q != f.Owner(x) :: g.kids[q] == f.kids[q])
  {
    var g := Uproot(f, x);
    var o := f.Owner(x);
    var i := IndexOf(f.kids[o], x);
    DetachOk(f, o, i);
    NoDupDrop(f.kids[o], i);
    HeldOnlyIn(f, o, x);
    forall n | n in f.nodes && n != x
      ensures (g.anc[n] == [] <==> f.anc[n] == []) && (x !in f.anc[n] ==> g.anc[n] == f.anc[n])
      ensures ParentIn(g, n) == ParentIn(f, n)
    {
      RegraftEmpty(f.anc[n], x, []);
      if x !in f.anc[n] { RegraftAbsent(f.anc[n], x, []); }
    }
  }

  lemma AttachFacts(f: Forest, o: Node, i: nat, x: Node, loose: set<Node>)
    requires Attachable(f, o, i, x) && RootedBut(f, loose)
    ensures var g := f.Attach(o, i, x);
      && g.Ok() && RootedBut(g, loose - {x}) && g.nodes == f.nodes && g.hdr == f.hdr && g.msgs == f.msgs
    ensures var g := f.Attach(o, i, x);
      && g.anc[x] == f.Line(o)
      && (forall n | n in f.nodes && n != x && x !in f.anc[n] :: g.anc[n] == f.anc[n])
      && (forall n | n in f.nodes && n != x :: g.anc[n] == [] <==> f.anc[n] == [])
      && (forall n | n in f.nodes && n != x :: ParentIn(g, n) == ParentIn(f, n))
      && (forall q, k | q in f.kids :: k in g.kids[q] <==> k in f.kids[q] || (q == o && k == x))
      && (forall q | q in f.kids && q != o :: g.kids[q] == f.kids[q])
  {
    var g := f.Attach(o, i, x);
    AttachOk(f, o, i, x);
    UnheldAnywhere(f, x);
    NoDupInsert(f.kids[o], i, x);
    forall n | n in f.nodes && n != x
      ensures (g.anc[n] == [] <==> f.anc[n] == []) && (x !in f.anc[n] ==> g.anc[n] == f.anc[n])
      ensures ParentIn(g, n) == ParentIn(f, n)
    {
      if o != f.hdr {
        RegraftEmpty(f.anc[n], x, f.Line(o));
        if x !in f.anc[n] { RegraftAbsent(f.anc[n], x, f.Line(o)); }
      }
    }
  }

  // ---------------------------------------------------------------- one step of the merge loop

  /** The forest, the subject table, the position in the root list and the subjects of the nodes. */
  datatype Grouping = Grouping(f: Forest, table: map<string, Node>, i: nat, subj: map<Node, Subject>) {

    ghost function Roots(): seq<Node>
      requires f.hdr in f.kids
    {
      f.kids[f.hdr]
    }

    ghost predicate Shaped() {
      f.Ok() && i <= |Roots()| && subj.Keys == f.nodes && f.msgs <= f.nodes
    }

    /** A node without a message is a root and has a child that is in no table entry. */
    ghost predicate EmptiesOk()
      requires f.Shaped()
    {
      forall n {:trigger Anchored(n)} | n in f.nodes && n !in f.msgs :: f.anc[n] == [] && Anchored(n)
    }

    ghost predicate Anchored(n: Node) {
      n in f.kids && exists k :: k in f.kids[n] && k !in table.Values
    }

    /** The entry for a subject is a node with that subject.  It is a root, or it carries a message
        and is a child of a root with the same subject that the loop has passed. */
    ghost predicate TableOk()
      requires Shaped()
    {
      forall s {:trigger EntryOk(s)} | s in table :: EntryOk(s)
    }

    ghost predicate EntryOk(s: string)
      requires Shaped() && s in table
    {
      var x := table[s];
      && s != "" && x in f.nodes && subj[x].root == s
      && (f.anc[x] == [] ||
          (x in f.msgs && |f.anc[x]| == 1 && f.anc[x][0] in f.nodes
           && f.anc[x][0] in Roots()[..i] && subj[f.anc[x][0]].root == s))
    }

    ghost predicate Ok() {
      Shaped() && f.Rooted() && EmptiesOk() && TableOk()
    }

    /** The node at the current position. */
    ghost function Current(): Node
      requires f.hdr in f.kids && i < |Roots()|
    {
      Roots()[i]
    }

    /** Is there another node with the subject of `c` in the table? */
    ghost predicate Matched(c: Node) {
      c in subj && subj[c].root != "" && subj[c].root in table && table[subj[c].root] != c
    }
  }

  /** A matched root is in no table entry. */
  lemma MatchedNoEntry(g: Grouping, c: Node)
    requires g.Shaped() && g.TableOk() && g.Matched(c)
    ensures c !in g.table.Values
  {
    forall s | s in g.table ensures g.table[s] != c { assert g.EntryOk(s); }
  }

  /** `c` stays a root; the loop goes on behind it. */
  ghost function Keep(g: Grouping): Grouping {
    g.(i := g.i + 1)
  }

  lemma KeepOk(g: Grouping)
    requires g.Ok() && g.i < |g.Roots()|
    ensures Keep(g).Ok()
  {
    var h := Keep(g);
    assert h.EmptiesOk() by {
      forall n | n in h.f.nodes && n !in h.f.msgs ensures h.f.anc[n] == [] && h.Anchored(n) { assert g.Anchored(n); }
    }
    forall s | s in h.table ensures h.EntryOk(s) {
      assert g.EntryOk(s);
      assert h.Roots()[..h.i] == g.Roots()[..g.i] + [g.Current()];
    }
  }

  /** "merge containers children": both have no message. */
  ghost function MergeInto(g: Grouping, x: Node): Grouping
    requires Mergeable(g.f, g.i, x) && g.f.kids[g.f.hdr][g.i] in g.f.nodes && x in g.f.nodes
  {
    var c := g.Current();
    g.(f := g.f.Merge(g.i, x), subj := g.subj - {c})
  }

  /** `x` is the table's node for the subject of the current root `c`. */
  ghost predicate At(g: Grouping, c: Node, x: Node) {
    && g.Ok() && g.i < |g.Roots()| && c == g.Current() && g.Matched(c) && x == g.table[g.subj[c].root]
    && c in g.f.nodes && x in g.f.nodes
  }

  ghost predicate CanMerge(g: Grouping, c: Node, x: Node) {
    At(g, c, x) && c !in g.f.msgs && x !in g.f.msgs && Mergeable(g.f, g.i, x)
  }

  lemma MergeEmpties(g: Grouping, c: Node, x: Node)
    requires CanMerge(g, c, x) && MergeInto(g, x).f.Shaped()
    ensures MergeInto(g, x).EmptiesOk()
  {
    var f, h := g.f, MergeInto(g, x);
    MergeKids(f, g.i, x);
    forall n | n in h.f.nodes && n !in h.f.msgs ensures h.f.anc[n] == [] && h.Anchored(n) {
      assert g.Anchored(n);
      var k :| k in f.kids[n] && k !in g.table.Values;
      assert k in h.f.kids[n];
    }
  }

  lemma MergeTable(g: Grouping, c: Node, x: Node)
    requires CanMerge(g, c, x) && MergeInto(g, x).Shaped()
    ensures MergeInto(g, x).TableOk()
  {
    var f, h := g.f, MergeInto(g, x);
    forall s | s in h.table ensures h.EntryOk(s) { MergeEntry(g, c, x, s); }
  }

  lemma MergeEntry(g: Grouping, c: Node, x: Node, s: string)
    requires CanMerge(g, c, x) && MergeInto(g, x).Shaped() && s in g.table
    ensures MergeInto(g, x).EntryOk(s)
  {
    var f, h, y := g.f, MergeInto(g, x), g.table[s];
    MatchedNoEntry(g, c);
    assert g.EntryOk(s);
    assert y in g.table.Values;
    CurrentIsRoot(g, c, x);
    assert x != f.hdr && h.Roots() == DropAt(g.Roots(), g.i);
    assert h.Roots()[..h.i] == g.Roots()[..g.i];
    if f.anc[y] != [] {
      var o := f.anc[y][0];
      assert f.anc[y] == [o];
      RootAt(g, o, c);
      ReplaceCons(o, [], c, x);
      assert [o] + [] == [o] && Replace<Node>([], c, x) == [];
    } else {
      assert h.f.anc[y] == [];
    }
  }

  lemma CurrentIsRoot(g: Grouping, c: Node, x: Node)
    requires At(g, c, x)
    ensures g.f.anc[c] == [] && g.f.Holds(g.f.hdr, c) && g.f.Owner(c) == g.f.hdr
  {
    assert g.f.Holds(g.f.hdr, c);
  }

  lemma MergeIntoOk(g: Grouping, c: Node, x: Node)
    requires At(g, c, x) && c !in g.f.msgs && x !in g.f.msgs
    ensures CanMerge(g, c, x) && MergeInto(g, x).Ok()
  {
    var f := g.f;
    CurrentIsRoot(g, c, x);
    assert g.Anchored(x) && f.anc[x] == [];
    MergeOk(f, g.i, x);
    var h := MergeInto(g, x);
    MergeEmpties(g, c, x);
    MergeTable(g, c, x);
    assert h.f.Rooted() by {
      MergeKids(f, g.i, x);
      forall n | n in h.f.nodes && h.f.anc[n] == [] ensures n in h.f.kids[h.f.hdr] { assert n in f.kids[f.hdr]; }
    }
  }

  /** A root that has been passed is not the current one. */
  lemma RootAt(g: Grouping, o: Node, c: Node)
    requires g.f.Ok() && g.i < |g.Roots()| && o in g.Roots()[..g.i] && c == g.Current()
    ensures o != c
  {
    assert NoDup(g.Roots());
  }

  // ---------------------------------------------------------------- adopting

  /** The forest with `x` moved to the front of the children of `p`. */
  ghost function Moved(f: Forest, x: Node, p: Node): Forest
    requires x in f.anc && f.Holds(f.Owner(x), x) && p in f.anc && p in f.kids && p in Uproot(f, x).anc
  {
    Uproot(f, x).Attach(p, 0, x)
  }

  lemma MovedFacts(f: Forest, x: Node, p: Node)
    requires f.Ok() && f.Rooted() && x in f.nodes && f.Holds(f.Owner(x), x)
    requires p in f.nodes && p != x && x !in f.anc[p]
    ensures var g := Moved(f, x, p);
      && g.Ok() && g.Rooted() && g.nodes == f.nodes && g.hdr == f.hdr && g.msgs == f.msgs
      && g.anc[x] == [p] + f.anc[p]
      && (forall n | n in f.nodes && n != x :: ParentIn(g, n) == ParentIn(f, n))
      && (forall n | n in f.nodes && n != x && x !in f.anc[n] :: g.anc[n] == f.anc[n])
      && (forall n | n in f.nodes && n != x :: g.anc[n] == [] <==> f.anc[n] == [])
      && (forall q, k | q in f.kids :: k in g.kids[q] <==> (k in f.kids[q] && k != x) || (q == p && k == x))
      && g.kids[f.hdr] == Uproot(f, x).kids[f.hdr]
    ensures Attachable(Uproot(f, x), p, 0, x)
  {
    UprootFacts(f, x, {});
    AttachFacts(Uproot(f, x), p, 0, x, {x});
  }

  /** The current root `c` becomes a child of the table's node `x`. */
  ghost function AdoptCurrent(g: Grouping, c: Node, x: Node): Grouping
    requires c in g.f.anc && g.f.Holds(g.f.Owner(c), c) && x in g.f.anc && x in g.f.kids && x in Uproot(g.f, c).anc
  {
    g.(f := Moved(g.f, c, x))
  }

  /** The table's node `x` becomes a child of the current root `c`; the loop goes on behind `c`. */
  ghost function AdoptEntry(g: Grouping, c: Node, x: Node): Grouping
    requires x in g.f.anc && g.f.Holds(g.f.Owner(x), x) && c in g.f.anc && c in g.f.kids && c in Uproot(g.f, x).anc
    requires g.f.hdr in g.f.kids && c in Uproot(g.f, x).kids[g.f.hdr]
  {
    g.(f := Moved(g.f, x, c), i := IndexOf(Uproot(g.f, x).kids[g.f.hdr], c) + 1)
  }

  /** The ancestors of an entry do not include another node with a different subject or the
      current root. */
  lemma EntryLine(g: Grouping, s: string, n: Node)
    requires g.Ok() && s in g.table && n in g.f.nodes
    requires g.subj[n].root != s || (g.i < |g.Roots()| && n == g.Current())
    ensures g.table[s] in g.f.nodes && n !in g.f.anc[g.table[s]]
  {
    assert g.EntryOk(s);
    var y := g.table[s];
    if g.f.anc[y] != [] && g.i < |g.Roots()| && n == g.Current() {
      RootAt(g, g.f.anc[y][0], n);
    }
  }

  lemma AdoptCurrentOk(g: Grouping, c: Node, x: Node)
    requires At(g, c, x) && c in g.f.msgs
    ensures g.f.Holds(g.f.Owner(c), c) && x in Uproot(g.f, c).anc
    ensures Attachable(Uproot(g.f, c), x, 0, c)
    ensures AdoptCurrent(g, c, x).Ok() && |AdoptCurrent(g, c, x).Roots()| < |g.Roots()|
  {
    var f := g.f;
    CurrentIsRoot(g, c, x);
    EntryLine(g, g.subj[c].root, c);
    MovedFacts(f, c, x);
    MatchedNoEntry(g, c);
    var h := AdoptCurrent(g, c, x);
    assert IndexOf(g.Roots(), c) == g.i by { assert NoDup(g.Roots()); }
    assert h.Roots() == DropAt(g.Roots(), g.i);
    assert h.EmptiesOk() by {
      forall n | n in h.f.nodes && n !in h.f.msgs ensures h.f.anc[n] == [] && h.Anchored(n) {
        assert g.Anchored(n);
        var k :| k in f.kids[n] && k !in g.table.Values;
        if k == c { OneOwner(f, f.hdr, n, c); }
        assert k in h.f.kids[n];
      }
    }
    assert h.TableOk() by {
      forall s | s in h.table ensures h.EntryOk(s) {
        assert g.EntryOk(s);
        EntryLine(g, s, c);
        assert g.table[s] in g.table.Values;
        assert h.Roots()[..h.i] == g.Roots()[..g.i];
      }
    }
  }

  lemma IndexIs<T>(r: seq<T>, i: nat)
    requires NoDup(r) && i < |r|
    ensures IndexOf(r, r[i]) == i
  {
  }

  /** Without entry `j`, the list up to entry `i` still holds what it held but for that entry. */
  lemma PrefixDrop(r: seq<Node>, j: nat, i: nat)
    requires NoDup(r) && i < |r| && j < |r| && i != j
    ensures var k := if i < j then i else i - 1;
      && r[i] in DropAt(r, j) && IndexOf(DropAt(r, j), r[i]) == k
      && forall o | o in r[..i] && o != r[j] :: o in DropAt(r, j)[..k]
  {
    var d, k := DropAt(r, j), if i < j then i else i - 1;
    NoDupDrop(r, j);
    IndexIs(d, k);
    forall o | o in r[..i] && o != r[j] ensures o in d[..k] {
      var m := IndexOf(r[..i], o);
      assert d[..k][if m < j then m else m - 1] == o;
    }
  }

  /** With or without entry `x`, the list up to `c` still holds what it held but for `x`. */
  lemma PrefixWithout(r: seq<Node>, r': seq<Node>, i: nat, c: Node, x: Node)
    requires NoDup(r) && i < |r| && c == r[i] && c != x
    requires r' == r || exists j :: 0 <= j < |r| && r[j] == x && r' == DropAt(r, j)
    ensures c in r' && r'[IndexOf(r', c)] == c
    ensures forall o | o in r[..i] && o != x :: o in r'[..IndexOf(r', c)]
    ensures |r'| - IndexOf(r', c) <= |r| - i
  {
    if r' == r {
      IndexIs(r, i);
    } else {
      var j :| 0 <= j < |r| && r[j] == x && r' == DropAt(r, j);
      PrefixDrop(r, j, i);
    }
  }

  lemma UprootRoots(f: Forest, x: Node)
    requires f.Ok() && x in f.nodes && f.Holds(f.Owner(x), x)
    ensures var r := Uproot(f, x).kids[f.hdr];
      r == f.kids[f.hdr] || exists j :: 0 <= j < |f.kids[f.hdr]| && f.kids[f.hdr][j] == x && r == DropAt(f.kids[f.hdr], j)
  {
  }

  lemma AdoptEntryOk(g: Grouping, c: Node, x: Node)
    requires At(g, c, x) && x in g.f.msgs
    ensures g.f.Holds(g.f.Owner(x), x) && c in Uproot(g.f, x).anc && c in Uproot(g.f, x).kids[g.f.hdr]
    ensures Attachable(Uproot(g.f, x), c, 0, x)
    ensures AdoptEntry(g, c, x).Ok()
    ensures |AdoptEntry(g, c, x).Roots()| - AdoptEntry(g, c, x).i < |g.Roots()| - g.i
  {
    var f := g.f;
    CurrentIsRoot(g, c, x);
    assert g.EntryOk(g.subj[c].root);
    OwnerHolds(f, x);
    MovedFacts(f, x, c);
    UprootFacts(f, x, {});
    UprootRoots(f, x);
    var h := AdoptEntry(g, c, x);
    PrefixWithout(g.Roots(), h.Roots(), g.i, c, x);
    AdoptEntryEmpties(g, c, x, h);
    assert h.TableOk() by {
      forall s | s in h.table ensures h.EntryOk(s) { AdoptEntryEntry(g, c, x, h, s); }
    }
  }

  lemma AdoptEntryEmpties(g: Grouping, c: Node, x: Node, h: Grouping)
    requires At(g, c, x) && x in g.f.msgs
    requires h.table == g.table && h.subj == g.subj && h.f.Shaped() && h.f.nodes == g.f.nodes && h.f.msgs == g.f.msgs
    requires h.f.hdr == g.f.hdr
    requires forall n | n in g.f.nodes && n != x :: h.f.anc[n] == [] <==> g.f.anc[n] == []
    requires forall q, k | q in g.f.kids :: k in h.f.kids[q] <==> (k in g.f.kids[q] && k != x) || (q == c && k == x)
    ensures h.EmptiesOk()
  {
    forall n | n in h.f.nodes && n !in h.f.msgs ensures h.f.anc[n] == [] && h.Anchored(n) {
      assert g.Anchored(n);
      var k :| k in g.f.kids[n] && k !in g.table.Values;
      assert x in g.table.Values;
      assert k in h.f.kids[n];
    }
  }

  lemma AdoptEntryEntry(g: Grouping, c: Node, x: Node, h: Grouping, s: string)
    requires At(g, c, x) && x in g.f.msgs && s in g.table && g.f.anc[c] == []
    requires h.table == g.table && h.subj == g.subj && h.Shaped() && h.f.nodes == g.f.nodes && h.f.msgs == g.f.msgs
    requires h.f.hdr == g.f.hdr && h.f.anc[x] == [c] && h.i > 0 && h.Roots()[h.i - 1] == c
    requires forall n | n in g.f.nodes && n != x && x !in g.f.anc[n] :: h.f.anc[n] == g.f.anc[n]
    requires forall o | o in g.Roots()[..g.i] && o != x :: o in h.Roots()[..h.i - 1]
    ensures h.EntryOk(s)
  {
    var t := g.subj[c].root;
    assert g.EntryOk(s) && g.EntryOk(t);
    assert h.Roots()[..h.i] == h.Roots()[..h.i - 1] + [c];
    if s != t {
      EntryLine(g, s, x);
    }
  }

  // ---------------------------------------------------------------- the phantom

  /** The forest after both `x` and the root `c` have been unlinked. */
  ghost function BothOut(f: Forest, c: Node, x: Node): Forest
    requires x in f.anc && f.Holds(f.Owner(x), x) && f.hdr in f.kids && c in Uproot(f, x).kids[f.hdr]
  {
    Uproot(f, x).Detach(f.hdr, IndexOf(Uproot(f, x).kids[f.hdr], c))
  }

  /** The node `p` put into the root list at `j`, with the children `x` and `c`. */
  ghost function PhantomIn(f: Forest, j: nat, p: Node, c: Node, x: Node): Forest
    requires f.hdr in f.kids && f.hdr != p && j <= |f.kids[f.hdr]|
  {
    TwoIn(NewRoot(f, j, p), p, c, x)
  }

  ghost function NewRoot(f: Forest, j: nat, p: Node): Forest
    requires f.hdr in f.kids && f.hdr != p && j <= |f.kids[f.hdr]|
  {
    f.AddNode(p).Attach(f.hdr, j, p)
  }

  ghost function TwoIn(f: Forest, p: Node, c: Node, x: Node): Forest
    requires p in f.kids && p in f.anc
  {
    f.Attach(p, 0, c).Attach(p, 0, x)
  }

  lemma BothOutFacts(f: Forest, c: Node, x: Node)
    requires f.Ok() && f.Rooted() && x in f.nodes && c in f.kids[f.hdr] && x != c && f.Holds(f.Owner(x), x)
    requires c in f.nodes && f.anc[c] == []
    ensures c in Uproot(f, x).kids[f.hdr]
    ensures var g := BothOut(f, c, x);
      && g.Ok() && RootedBut(g, {x, c}) && Loose(g, x) && Loose(g, c)
      && g.nodes == f.nodes && g.hdr == f.hdr && g.msgs == f.msgs
      && (forall n | n in f.nodes && n != x && n != c && x !in f.anc[n] && c !in f.anc[n] :: g.anc[n] == f.anc[n])
      && (forall n | n in f.nodes && n != x && n != c :: g.anc[n] == [] <==> f.anc[n] == [])
      && (forall n | n in f.nodes && n != x && n != c :: ParentIn(g, n) == ParentIn(f, n))
      && (forall q, k | q in f.kids :: k in g.kids[q] <==> k in f.kids[q] && k != x && k != c)
  {
    UprootFacts(f, x, {});
    var h := Uproot(f, x);
    assert h.Owner(c) == f.hdr && h.Holds(f.hdr, c);
    UprootFacts(h, c, {x});
  }

  lemma AddNodeFacts(f: Forest, p: Node, loose: set<Node>)
    requires f.Ok() && RootedBut(f, loose) && p !in f.nodes && p != f.hdr
    ensures var g := f.AddNode(p);
      && g.Ok() && RootedBut(g, loose + {p}) && Loose(g, p)
      && forall n | n in f.nodes :: p !in f.anc[n]
  {
    AddNodeOk(f, p);
    forall n, a | n in f.nodes && a in f.anc[n] ensures a in f.nodes { AncestorTrans(f, n, a, a); }
    forall k | k in f.kids[f.hdr] ensures k in f.nodes { assert f.Holds(f.hdr, k); }
  }

  lemma NewRootFacts(f: Forest, j: nat, p: Node, loose: set<Node>)
    requires f.Ok() && RootedBut(f, loose) && loose <= f.nodes && j <= |f.kids[f.hdr]| && p !in f.nodes && p != f.hdr
    ensures Attachable(f.AddNode(p), f.hdr, j, p)
    ensures var g := NewRoot(f, j, p);
      && g.Ok() && RootedBut(g, loose) && g.nodes == f.nodes + {p} && g.hdr == f.hdr && g.msgs == f.msgs
      && g.anc == f.anc[p := []] && g.kids == f.kids[p := []][f.hdr := InsertAt(f.kids[f.hdr], j, p)]
      && (forall n | n in loose && Loose(f, n) :: Loose(g, n))
      && (forall n | n in f.nodes :: p !in f.anc[n])
  {
    AddNodeFacts(f, p, loose);
    AttachFacts(f.AddNode(p), f.hdr, j, p, loose + {p});
    assert loose + {p} - {p} == loose;
  }

  lemma TwoInFacts(f: Forest, p: Node, c: Node, x: Node)
    requires f.Ok() && RootedBut(f, {x, c}) && Loose(f, x) && Loose(f, c) && x != c
    requires p in f.nodes && f.anc[p] == [] && p in f.kids[f.hdr]
    ensures Attachable(f, p, 0, c) && Attachable(f.Attach(p, 0, c), p, 0, x)
    ensures var g := TwoIn(f, p, c, x);
      && g.Ok() && g.Rooted() && g.nodes == f.nodes && g.hdr == f.hdr && g.msgs == f.msgs
      && g.anc[c] == [p] && g.anc[x] == [p] && g.anc[p] == []
      && (forall n | n in f.nodes && n != x && n != c && x !in f.anc[n] && c !in f.anc[n] :: g.anc[n] == f.anc[n])
      && (forall n | n in f.nodes && n != x && n != c :: g.anc[n] == [] <==> f.anc[n] == [])
      && (forall n | n in f.nodes && n != x && n != c :: ParentIn(g, n) == ParentIn(f, n))
      && x in g.kids[p] && c in g.kids[p]
      && (forall q | q in f.kids && q != p :: g.kids[q] == f.kids[q])
  {
    AttachFacts(f, p, 0, c, {x, c});
    hide Forest.KidsOk, Forest.PlacesOk, Forest.ListsOk;
    AttachFacts(f.Attach(p, 0, c), p, 0, x, {x, c} - {c});
  }

  lemma PhantomInFacts(f: Forest, j: nat, p: Node, c: Node, x: Node)
    requires f.Ok() && RootedBut(f, {x, c}) && Loose(f, x) && Loose(f, c) && x != c
    requires j <= |f.kids[f.hdr]| && p !in f.nodes && p != f.hdr
    ensures var g := PhantomIn(f, j, p, c, x);
      && g.Ok() && g.Rooted() && g.nodes == f.nodes + {p} && g.hdr == f.hdr && g.msgs == f.msgs
      && g.anc[p] == [] && g.anc[c] == [p] && g.anc[x] == [p]
      && (forall n | n in f.nodes && n != x && n != c && x !in f.anc[n] && c !in f.anc[n] :: g.anc[n] == f.anc[n])
      && (forall n | n in f.nodes && n != x && n != c :: g.anc[n] == [] <==> f.anc[n] == [])
      && (forall n | n in f.nodes && n != x && n != c :: ParentIn(g, n) == ParentIn(f, n))
      && g.kids[f.hdr] == InsertAt(f.kids[f.hdr], j, p)
      && x in g.kids[p] && c in g.kids[p]
      && (forall q | q in f.kids && q != f.hdr :: g.kids[q] == f.kids[q])
  {
    hide Forest.KidsOk, Forest.PlacesOk, Forest.ListsOk, Forest.Attach, TwoIn, NewRoot, Forest.Owner;
    NewRootFacts(f, j, p, {x, c});
    assert p in NewRoot(f, j, p).kids[f.hdr] by { assert NewRoot(f, j, p).kids[f.hdr][j] == p; }
    TwoInFacts(NewRoot(f, j, p), p, c, x);
  }

  /** Both are replies: a phantom `p` takes the place of `c` and holds both; it is the table's
      node for the subject from now on. */
  ghost function Pair(g: Grouping, c: Node, x: Node, p: Node): Grouping
    requires c in g.subj && g.f.hdr != p
    requires x in g.f.anc && g.f.Holds(g.f.Owner(x), x) && g.f.hdr in g.f.kids && c in Uproot(g.f, x).kids[g.f.hdr]
  {
    var j := IndexOf(Uproot(g.f, x).kids[g.f.hdr], c);
    Grouping(PhantomIn(BothOut(g.f, c, x), j, p, c, x), g.table[g.subj[c].root := p], j + 1,
             g.subj[p := Subject(g.subj[c].root, true)])
  }

  ghost predicate CanPair(g: Grouping, c: Node, x: Node, p: Node) {
    At(g, c, x) && c in g.f.msgs && x in g.f.msgs && p !in g.f.nodes && p != g.f.hdr
  }

  lemma PairForest(g: Grouping, c: Node, x: Node, p: Node)
    requires CanPair(g, c, x, p)
    ensures g.f.Holds(g.f.Owner(x), x) && c in Uproot(g.f, x).kids[g.f.hdr]
    ensures c !in g.f.anc[x] && g.f.anc[c] == [] && c != x
    ensures var h := Pair(g, c, x, p);
      && h.f.Ok() && h.f.Rooted() && h.f.nodes == g.f.nodes + {p} && h.f.hdr == g.f.hdr && h.f.msgs == g.f.msgs
      && h.f.anc[p] == [] && h.f.anc[c] == [p] && h.f.anc[x] == [p]
      && (forall n | n in g.f.nodes && n != x && n != c && x !in g.f.anc[n] && c !in g.f.anc[n] :: h.f.anc[n] == g.f.anc[n])
      && (forall n | n in g.f.nodes && n != x && n != c :: h.f.anc[n] == [] <==> g.f.anc[n] == [])
      && (forall n | n in g.f.nodes && n != x && n != c :: ParentIn(h.f, n) == ParentIn(g.f, n))
      && c in h.f.kids[p]
      && (forall q, k | q in g.f.nodes && q in h.f.kids :: k in h.f.kids[q] <==> k in g.f.kids[q] && k != x && k != c)
    ensures var h := Pair(g, c, x, p);
      && 0 < h.i <= |h.Roots()| && h.Roots()[h.i - 1] == p && |h.Roots()| - h.i < |g.Roots()| - g.i
      && forall o | o in g.Roots()[..g.i] && o != x :: o in h.Roots()[..h.i]
  {
    hide Grouping.TableOk, Grouping.EmptiesOk, Forest.KidsOk, Forest.PlacesOk, Forest.ListsOk;
    PairBase(g, c, x);
    var r := Uproot(g.f, x).kids[g.f.hdr];
    var j := IndexOf(r, c);
    PhantomInFacts(BothOut(g.f, c, x), j, p, c, x);
    InsertPrefix(r, j, p);
  }

  lemma InsertPrefix<T>(r: seq<T>, j: nat, p: T)
    requires j < |r|
    ensures forall o :: o in r[..j] ==> o in InsertAt(DropAt(r, j), j, p)[..j + 1]
  {
    var d := InsertAt(DropAt(r, j), j, p)[..j + 1];
    forall o | o in r[..j] ensures o in d {
      assert d[IndexOf(r[..j], o)] == o;
    }
  }

  lemma PairBase(g: Grouping, c: Node, x: Node)
    requires At(g, c, x) && x in g.f.msgs
    ensures g.f.Holds(g.f.Owner(x), x) && c in Uproot(g.f, x).kids[g.f.hdr]
    ensures c !in g.f.anc[x] && g.f.anc[c] == [] && c != x
    ensures var h := BothOut(g.f, c, x);
      && h.Ok() && RootedBut(h, {x, c}) && Loose(h, x) && Loose(h, c)
      && h.nodes == g.f.nodes && h.hdr == g.f.hdr && h.msgs == g.f.msgs
      && (forall n | n in g.f.nodes && n != x && n != c && x !in g.f.anc[n] && c !in g.f.anc[n] :: h.anc[n] == g.f.anc[n])
      && (forall n | n in g.f.nodes && n != x && n != c :: h.anc[n] == [] <==> g.f.anc[n] == [])
      && (forall n | n in g.f.nodes && n != x && n != c :: ParentIn(h, n) == ParentIn(g.f, n))
      && (forall q, k | q in g.f.kids :: k in h.kids[q] <==> k in g.f.kids[q] && k != x && k != c)
    ensures g.f.hdr in Uproot(g.f, x).kids
    ensures var r := Uproot(g.f, x).kids[g.f.hdr]; var j := IndexOf(r, c);
      && BothOut(g.f, c, x).kids[g.f.hdr] == DropAt(r, j)
      && |r| - j <= |g.Roots()| - g.i
      && forall o | o in g.Roots()[..g.i] && o != x :: o in r[..j]
  {
    CurrentIsRoot(g, c, x);
    assert g.EntryOk(g.subj[c].root);
    OwnerHolds(g.f, x);
    EntryLine(g, g.subj[c].root, c);
    UprootRoots(g.f, x);
    var r := Uproot(g.f, x).kids[g.f.hdr];
    PrefixWithout(g.Roots(), r, g.i, c, x);
    BothOutFacts(g.f, c, x);
  }

  lemma PairOk(g: Grouping, c: Node, x: Node, p: Node)
    requires CanPair(g, c, x, p)
    ensures g.f.Holds(g.f.Owner(x), x) && c in Uproot(g.f, x).kids[g.f.hdr]
    ensures Pair(g, c, x, p).Ok()
    ensures |Pair(g, c, x, p).Roots()| - Pair(g, c, x, p).i < |g.Roots()| - g.i
  {
    hide Grouping.TableOk, Grouping.EmptiesOk, Forest.KidsOk, Forest.PlacesOk, Forest.ListsOk, Uproot, PhantomIn;
    PairForest(g, c, x, p);
    var h := Pair(g, c, x, p);
    PairEmpties(g, c, x, p, h);
    PairTable(g, c, x, p, h);
  }

  lemma PairTable(g: Grouping, c: Node, x: Node, p: Node, h: Grouping)
    requires CanPair(g, c, x, p) && h.Shaped() && h.f.hdr == g.f.hdr
    requires h.table == g.table[g.subj[c].root := p] && h.subj == g.subj[p := Subject(g.subj[c].root, true)]
    requires h.f.nodes == g.f.nodes + {p} && h.f.msgs == g.f.msgs && h.f.anc[p] == []
    requires forall n | n in g.f.nodes && n != x && n != c && x !in g.f.anc[n] && c !in g.f.anc[n] :: h.f.anc[n] == g.f.anc[n]
    requires forall o | o in g.Roots()[..g.i] && o != x :: o in h.Roots()[..h.i]
    ensures h.TableOk()
  {
    forall s | s in h.table ensures h.EntryOk(s) { PairEntry(g, c, x, p, h, s); }
  }

  lemma PairEmpties(g: Grouping, c: Node, x: Node, p: Node, h: Grouping)
    requires CanPair(g, c, x, p) && g.f.anc[c] == []
    requires h.table == g.table[g.subj[c].root := p] && h.f.Shaped() && h.f.nodes == g.f.nodes + {p} && h.f.msgs == g.f.msgs
    requires h.f.anc[p] == [] && c in h.f.kids[p] && c != x
    requires forall n | n in g.f.nodes && n != x && n != c :: h.f.anc[n] == [] <==> g.f.anc[n] == []
    requires forall q, k | q in g.f.nodes && q in h.f.kids :: k in h.f.kids[q] <==> k in g.f.kids[q] && k != x && k != c
    ensures h.EmptiesOk()
  {
    MatchedNoEntry(g, c);
    forall s | s in h.table ensures h.table[s] == p || h.table[s] in g.table.Values {}
    assert x in g.table.Values;
    forall n | n in h.f.nodes && n !in h.f.msgs ensures h.f.anc[n] == [] && h.Anchored(n) {
      if n == p {
        assert c !in h.table.Values;
      } else {
        assert g.Anchored(n);
        var k :| k in g.f.kids[n] && k !in g.table.Values;
        assert g.f.Holds(n, k);
        assert k in h.f.kids[n] && k !in h.table.Values;
      }
    }
  }

  lemma PairEntry(g: Grouping, c: Node, x: Node, p: Node, h: Grouping, s: string)
    requires CanPair(g, c, x, p) && h.Shaped() && h.f.hdr == g.f.hdr && s in h.table
    requires h.table == g.table[g.subj[c].root := p] && h.subj == g.subj[p := Subject(g.subj[c].root, true)]
    requires h.f.nodes == g.f.nodes + {p} && h.f.msgs == g.f.msgs && h.f.anc[p] == []
    requires forall n | n in g.f.nodes && n != x && n != c && x !in g.f.anc[n] && c !in g.f.anc[n] :: h.f.anc[n] == g.f.anc[n]
    requires forall o | o in g.Roots()[..g.i] && o != x :: o in h.Roots()[..h.i]
    ensures h.EntryOk(s)
  {
    var t := g.subj[c].root;
    assert g.EntryOk(t);
    if s != t {
      assert g.EntryOk(s);
      MatchedNoEntry(g, c);
      assert g.table[s] in g.table.Values;
      EntryLine(g, s, x);
      EntryLine(g, s, c);
    }
  }

  /** One turn of the merge loop, with `p` the phantom if one is made. */
  ghost predicate Step(g: Grouping, h: Grouping, p: Node) {
    && g.Ok() && g.i < |g.Roots()| && g.Current() in g.f.nodes
    && var c := g.Current();
    if !g.Matched(c) then h == Keep(g)
    else
      var x := g.table[g.subj[c].root];
      && x in g.f.nodes && x in g.subj
      && if c !in g.f.msgs then
           if x !in g.f.msgs then CanMerge(g, c, x) && h == MergeInto(g, x)
           else Entrant(g, c, x) && h == AdoptEntry(g, c, x)
         else if x !in g.f.msgs || (g.subj[c].re && !g.subj[x].re) then
           Leaver(g, c, x) && h == AdoptCurrent(g, c, x)
         else if g.subj[x].re then
           Entrant(g, c, x)
           && if g.subj[c].re then p != g.f.hdr && p !in g.f.nodes && h == Pair(g, c, x, p)
              else h == AdoptEntry(g, c, x)
         else h == Keep(g)
  }

  /** `x` can be moved below the current root `c`. */
  ghost predicate Entrant(g: Grouping, c: Node, x: Node) {
    && At(g, c, x) && g.f.Holds(g.f.Owner(x), x) && c in g.f.anc && c in g.f.kids
    && c in Uproot(g.f, x).anc && g.f.hdr in Uproot(g.f, x).kids && c in Uproot(g.f, x).kids[g.f.hdr]
  }

  /** The current root `c` can be moved below `x`. */
  ghost predicate Leaver(g: Grouping, c: Node, x: Node) {
    At(g, c, x) && g.f.Holds(g.f.Owner(c), c) && x in g.f.anc && x in g.f.kids && x in Uproot(g.f, c).anc
  }

  /** The merge loop keeps its invariant and gets nearer to the end of the root list; nodes that
      carry a message neither appear nor disappear. */
  lemma StepOk(g: Grouping, h: Grouping, p: Node)
    requires Step(g, h, p)
    ensures h.Ok() && h.f.hdr == g.f.hdr && h.f.msgs == g.f.msgs
    ensures h.f.nodes <= g.f.nodes + {p} && g.f.msgs <= h.f.nodes
    ensures |h.Roots()| - h.i < |g.Roots()| - g.i
  {
    hide Grouping.TableOk, Grouping.EmptiesOk, Forest.KidsOk, Forest.PlacesOk, Forest.ListsOk;
    var c := g.Current();
    KeepOk(g);
    if g.Matched(c) {
      var x := g.table[g.subj[c].root];
      if c !in g.f.msgs && x !in g.f.msgs {
        MergeIntoOk(g, c, x);
        assert |MergeInto(g, x).Roots()| == |g.Roots()| - 1 by { CurrentIsRoot(g, c, x); }
      } else if c !in g.f.msgs || (x in g.f.msgs && g.subj[x].re && !g.subj[c].re) {
        AdoptEntryOk(g, c, x);
      } else if x !in g.f.msgs || (g.subj[c].re && !g.subj[x].re) {
        AdoptCurrentOk(g, c, x);
      } else if g.subj[x].re {
        PairOk(g, c, x, p);
      }
    }
  }
}
