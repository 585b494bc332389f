/** The merge by subject, on the pointers: gathering the subjects of the roots, then the loop whose
    turns are the steps of ThreadGroup. */
module ThreadGroupRun {
  import opened SeqFacts
  import opened ThreadForest
  import opened ThreadLinks
  import opened ThreadGroup

  // ---------------------------------------------------------------- get_root_subject

  const NO_SUBJECT := Subject("", false)

  ghost function FirstSubject(s: seq<Node>): Subject
    reads s`message
  {
    if s == [] then NO_SUBJECT
    else if s[0].message != null then s[0].message.subject
    else FirstSubject(s[1..])
  }

  /** The subject of a node, or of its first child with a message when it has none itself. */
  ghost function SubjectOf(f: Forest, c: Node): Subject
    requires c in f.kids
    reads c`message, f.kids[c]`message
  {
    if c.message != null then c.message.subject else FirstSubject(f.kids[c])
  }

  /** The subject of a node without a message is that of its first child with one. */
  lemma {:induction false} FirstSubjectIs(s: seq<Node>, i: nat)
    requires i <= |s| && forall j | 0 <= j < i :: s[j].message == null
    ensures i < |s| && s[i].message != null ==> FirstSubject(s) == s[i].message.subject
    ensures i == |s| ==> FirstSubject(s) == Subject("", false)
    decreases |s|
  {
    if i > 0 { FirstSubjectIs(s[1..], i - 1); }
  }

  method GetRootSubject(ghost f: Forest, c: Node) returns (s: string)
    requires Linked(f) && c in f.kids
    modifies c`re
    ensures Subject(s, c.re) == SubjectOf(f, c)
  {
    c.re := false;
    s := "";
    if c.message != null {
      s, c.re := c.message.subject.root, c.message.subject.re;
    } else {
      assert ListOf(f.kids, c);
      ghost var t := f.kids[c];
      var scan := c.child;
      ghost var i := 0;
      while scan != null
        invariant i <= |t| && scan == After(t, i)
        invariant FirstSubject(t) == FirstSubject(t[i..]) && s == "" && !c.re
        decreases |t| - i
      {
        if scan.message != null {
          s, c.re := scan.message.subject.root, scan.message.subject.re;
          return;
        }
        assert t[i..][1..] == t[i + 1..];
        scan := scan.next;
        i := i + 1;
      }
      assert t[i..] == [];
    }
  }

  // ---------------------------------------------------------------- gathering

  /** Does `c` take the place of `x` in the table? */
  ghost predicate Supersedes(subj: map<Node, Subject>, msgs: set<Node>, c: Node, x: Node)
    requires c in subj && x in subj
  {
    (x !in msgs && c in msgs) || (subj[x].re && !subj[c].re)
  }

  /** The table after the roots `r`, in order. */
  ghost function Gathered(r: seq<Node>, subj: map<Node, Subject>, msgs: set<Node>): (t: map<string, Node>)
    requires forall n | n in r :: n in subj
    ensures forall s | s in t :: s != "" && t[s] in r && subj[t[s]].root == s
  {
    if r == [] then map[]
    else
      var c, t := r[|r| - 1], Gathered(r[..|r| - 1], subj, msgs);
      var s := subj[c].root;
      if s != "" && (s !in t || Supersedes(subj, msgs, c, t[s])) then t[s := c] else t
  }

  ghost predicate Labelled(nodes: set<Node>, subj: map<Node, Subject>)
    reads nodes`rootSubject, nodes`re
  {
    nodes <= subj.Keys && forall n | n in nodes :: Subject(n.rootSubject, n.re) == subj[n]
  }

  ghost predicate Marked(f: Forest)
    reads f.nodes`message
  {
    f.msgs <= f.nodes && forall n | n in f.nodes :: n in f.msgs <==> n.message != null
  }

  /** What the loop knows after the first `i` roots. */
  ghost predicate Gathering(f: Forest, i: nat, table: map<string, Node>, subj: map<Node, Subject>)
    requires f.hdr in f.kids && i <= |f.kids[f.hdr]| && KidsKnown(f.nodes, f.kids, f.hdr)
    reads f.nodes`rootSubject, f.nodes`re, f.nodes`message
  {
    var r := f.kids[f.hdr];
    && subj.Keys == f.nodes && Labelled(f.nodes, subj)
    && (forall n | n in r[..i] :: n in r && n in f.nodes && n in f.kids && KidsKnown(f.nodes, f.kids, n)
                                  && subj[n] == SubjectOf(f, n))
    && table == Gathered(r[..i], subj, f.msgs)
  }

  method GatherOne(ghost f: Forest, c: Node, ghost i: nat, table: map<string, Node>, ghost subj: map<Node, Subject>)
      returns (table': map<string, Node>, ghost subj': map<Node, Subject>)
    requires Linked(f) && Marked(f) && f.hdr in f.kids && i < |f.kids[f.hdr]| && c == f.kids[f.hdr][i]
    requires KidsKnown(f.nodes, f.kids, f.hdr) && NoDup(f.kids[f.hdr]) && c in f.nodes && c in f.kids
    requires Gathering(f, i, table, subj)
    modifies c`rootSubject, c`re
    ensures Gathering(f, i + 1, table', subj')
  {
    assert ListOf(f.kids, c);
    hide Linked, NoDup, Gathered, SubjectOf, Better, Supersedes, Marked;
    ghost var r := f.kids[f.hdr];
    PrefixNoDup(r, i);
    subj' := SetLabel(f, c, subj);
    GatheredSame(r[..i], subj, subj', f.msgs);
    assert r[..i + 1][..i] == r[..i] && r[..i + 1][i] == c;
    GatheredNext(r, i, subj', f.msgs);
    assert subj'[c] == Subject(c.rootSubject, c.re);
    table' := EnterRoot(f, c, table, subj');
  }

  /** The root takes the place of the table's node for its subject, if it is better. */
  method EnterRoot(ghost f: Forest, c: Node, table: map<string, Node>, ghost subj: map<Node, Subject>)
      returns (table': map<string, Node>)
    requires Marked(f) && Labelled(f.nodes, subj) && c in f.nodes && c in subj
    requires c.rootSubject in table ==> table[c.rootSubject] in f.nodes && table[c.rootSubject] in subj
    ensures var s := subj[c].root;
      table' == if s != "" && (s !in table || Supersedes(subj, f.msgs, c, table[s])) then table[s := c] else table
  {
    hide Marked, Better, Supersedes;
    assert subj[c] == Subject(c.rootSubject, c.re);
    table' := table;
    if c.rootSubject != "" {
      if c.rootSubject in table { BetterIs(f, subj, table[c.rootSubject], c); }
      if c.rootSubject !in table || Better(table[c.rootSubject], c) {
        table' := table[c.rootSubject := c];
      }
    }
  }

  method SetLabel(ghost f: Forest, c: Node, ghost subj: map<Node, Subject>) returns (ghost subj': map<Node, Subject>)
    requires Linked(f) && c in f.nodes && c in f.kids && KidsKnown(f.nodes, f.kids, c) && Labelled(f.nodes, subj)
    modifies c`rootSubject, c`re
    ensures subj' == subj[c := SubjectOf(f, c)] && Labelled(f.nodes, subj')
  {
    hide Linked;
    c.rootSubject := GetRootSubject(f, c);
    subj' := subj[c := SubjectOf(f, c)];
  }

  lemma BetterIs(f: Forest, subj: map<Node, Subject>, x: Node, c: Node)
    requires Marked(f) && Labelled(f.nodes, subj) && x in f.nodes && c in f.nodes && x in subj && c in subj
    ensures Better(x, c) <==> Supersedes(subj, f.msgs, c, x)
  {
    assert Subject(x.rootSubject, x.re) == subj[x] && Subject(c.rootSubject, c.re) == subj[c];
  }

  lemma GatheredNext(r: seq<Node>, i: nat, subj: map<Node, Subject>, msgs: set<Node>)
    requires i < |r| && r[i] in subj && forall n | n in r[..i] :: n in subj
    ensures forall n | n in r[..i + 1] :: n in subj
    ensures var t, c := Gathered(r[..i], subj, msgs), r[i];
      Gathered(r[..i + 1], subj, msgs) ==
        if subj[c].root != "" && (subj[c].root !in t || Supersedes(subj, msgs, c, t[subj[c].root])) then t[subj[c].root := c] else t
  {
    assert r[..i + 1][..i] == r[..i] && r[..i + 1][i] == r[i];
  }

  lemma PrefixNoDup<T>(r: seq<T>, i: nat)
    requires NoDup(r) && i < |r|
    ensures r[i] !in r[..i]
  {
  }

  method Gather(ghost f: Forest, hdr: Node) returns (table: map<string, Node>, ghost subj: map<Node, Subject>)
    requires f.Ok() && Linked(f) && Marked(f) && f.hdr == hdr
    modifies f.nodes`rootSubject, f.nodes`re
    ensures KidsKnown(f.nodes, f.kids, hdr) && Gathering(f, |f.kids[hdr]|, table, subj)
  {
    ghost var r := f.kids[hdr];
    assert ListOf(f.kids, hdr) && KidsKnown(f.nodes, f.kids, hdr) && NoDup(r);
    hide Forest.KidsOk, Forest.PlacesOk, Forest.ListsOk, NoDup;
    subj := map n | n in f.nodes :: Subject(n.rootSubject, n.re);
    table := map[];
    var c := hdr.child;
    ghost var i := 0;
    while c != null
      invariant i <= |r| && c == After(r, i) && Gathering(f, i, table, subj)
      decreases |r| - i
    {
      assert c == r[i] && c in r && c.next == After(r, i + 1);
      table, subj := GatherOne(f, c, i, table, subj);
      c := c.next;
      i := i + 1;
    }
  }

  /** Is `c` a better choice for the table than `container`?  A message is better than a phantom, an
      original than a reply. */
  predicate Better(container: Node, c: Node)
    reads container, c
  {
    (container.message == null && c.message != null) || (container.re && !c.re)
  }

  lemma {:induction false} GatheredSame(r: seq<Node>, subj: map<Node, Subject>, subj': map<Node, Subject>, msgs: set<Node>)
    requires forall n | n in r :: n in subj && n in subj' && subj[n] == subj'[n]
    ensures Gathered(r, subj, msgs) == Gathered(r, subj', msgs)
  {
    if r != [] {
      GatheredSame(r[..|r| - 1], subj, subj', msgs);
    }
  }

  // ---------------------------------------------------------------- the merge loop on the pointers

  /** Parent pointers are exact but for children of a root without a message that have come there
      by a merge; those are in no table entry. */
  ghost predicate ParentsLoose(g: Grouping)
    requires g.f.Shaped()
    reads g.f.nodes`parent
  {
    forall n | n in g.f.nodes :: ParentOk(g, n)
  }

  ghost predicate ParentOk(g: Grouping, n: Node)
    requires n in g.f.anc
    reads n`parent
  {
    n.parent == ParentIn(g.f, n)
    || (g.f.anc[n] != [] && g.f.anc[n][0] !in g.f.msgs && n !in g.table.Values)
  }

  /** The pointers and labels of the nodes are those of `g`; `clast` is the slot before its
      current root. */
  ghost predicate Grouped(g: Grouping, clast: Node?)
    reads g.f.hdr`child, g.f.nodes`next, g.f.nodes`child, g.f.nodes`parent, g.f.nodes`message,
      g.f.nodes`rootSubject, g.f.nodes`re
  {
    && g.Ok() && Linked(g.f) && ParentsLoose(g) && Marked(g.f) && Labelled(g.f.nodes, g.subj)
    && SlotAt(g.f, g.f.hdr, g.i, clast)
  }

  /** remove_node */
  method RemoveNode(ghost f: Forest, hdr: Node, node: Node, clast: Node?, ghost i: nat)
      returns (ghost f': Forest, clast': Node?, ghost i': nat)
    requires f.Ok() && Linked(f) && f.hdr == hdr && node in f.nodes && f.Holds(f.Owner(node), node)
    requires node.parent == ParentIn(f, node)
    requires SlotAt(f, hdr, i, clast)
    modifies hdr`child, f.nodes`child, f.nodes`next
    ensures f' == Uproot(f, node) && f'.Ok() && Linked(f')
    ensures node.next == old(node.next)
    ensures SlotAt(f', hdr, i', clast')
    ensures i' == if f.anc[node] == [] && IndexOf(f.kids[hdr], node) < i then i - 1 else i
    ensures clast' == null || clast' in f.nodes
  {
    hide *;
    OwnerIs(f, node);
    var o: Node;
    if node.parent != null { o := node.parent; } else { o := hdr; }
    var c, k := FindSlot(f, o, node);
    clast', i' := clast, i;
    if clast != null {
      if clast == node {
        clast', i' := c, k;
      } else if o == hdr && k < i {
        i' := i - 1;
      }
    }
    SlotAfterUproot(f, node, o, k, c, clast, i);
    f' := Unlink(f, o, k, c);
  }

  lemma OwnerIs(f: Forest, n: Node)
    requires f.Ok() && n in f.nodes && f.Holds(f.Owner(n), n)
    ensures (f.Owner(n) == f.hdr || f.Owner(n) in f.nodes) && forall c: Node? :: Cell(c) == if c == null then {} else {c}
    ensures f.Owner(n) == (if ParentIn(f, n) == null then f.hdr else ParentIn(f, n)) && f.Owner(n) in f.kids && n in f.kids[f.Owner(n)]
  {
  }

  /** The slot before place `i` of the root list, after `node` has been taken out of place `k` of the
      list of `o`, where `c` is the slot before it. */
  lemma SlotAfterUproot(f: Forest, node: Node, o: Node, k: nat, c: Node?, clast: Node?, i: nat)
    requires f.Ok() && node in f.nodes && o == f.Owner(node) && f.Holds(o, node) && k == IndexOf(f.kids[o], node)
    requires SlotAt(f, o, k, c) && SlotAt(f, f.hdr, i, clast)
    ensures var i' := if clast != null && clast == node then k else if clast != null && o == f.hdr && k < i then i - 1 else i;
      && SlotAt(Uproot(f, node), f.hdr, i', if clast == node then c else clast)
      && i' == if f.anc[node] == [] && IndexOf(f.kids[f.hdr], node) < i then i - 1 else i
    ensures Uproot(f, node) == f.Detach(o, k)
    ensures clast == null || clast in f.nodes
    ensures c == null || (c in f.nodes && c != node)
  {
    if clast != null {
      assert f.Holds(f.hdr, clast);
      if clast == node { OneOwner(f, o, f.hdr, node); }
    }
    if c != null { assert f.Holds(o, c); }
    assert NoDup(f.kids[o]) && NoDup(f.kids[f.hdr]);
  }

  // ---------------------------------------------------------------- the cases of the loop body

  /** Moving one node to its new parent, exactly, keeps the rest as it is. */
  lemma ParentsAfterMove(g: Grouping, h: Grouping, x: Node, p: Node)
    requires g.Ok() && x in g.f.nodes && g.f.Holds(g.f.Owner(x), x) && p in g.f.nodes && p != x && x !in g.f.anc[p]
    requires h.f.Shaped() && Attachable(Uproot(g.f, x), p, 0, x) && h.f == Moved(g.f, x, p) && h.table == g.table
    requires forall n | n in g.f.nodes && n != x :: ParentOk(g, n)
    requires x.parent == p
    ensures ParentsLoose(h)
  {
    MovedFacts(g.f, x, p);
    hide Grouping.TableOk, Grouping.EmptiesOk, Forest.KidsOk, Forest.PlacesOk, Forest.ListsOk, Moved;
    forall n | n in h.f.nodes ensures ParentOk(h, n) {
      if n != x { assert ParentOk(g, n) && ParentIn(h.f, n) == ParentIn(g.f, n); }
    }
  }

  /** The current root is unlinked and becomes the first child of `x`. */
  method MoveCurrent(ghost f: Forest, hdr: Node, ghost i: nat, clast: Node?, c: Node, x: Node) returns (ghost f': Forest)
    requires f.Ok() && f.Rooted() && Linked(f) && f.hdr == hdr && SlotAt(f, hdr, i, clast)
    requires i < |f.kids[hdr]| && c == f.kids[hdr][i] && c in f.nodes && f.anc[c] == [] && IndexOf(f.kids[hdr], c) == i
    requires x in f.nodes && x != c && c !in f.anc[x]
    modifies hdr`child, f.nodes`next, f.nodes`child, c`parent
    ensures f.Holds(f.Owner(c), c) && Attachable(Uproot(f, c), x, 0, c) && f' == Moved(f, c, x)
    ensures f'.Ok() && Linked(f') && c.parent == x
  {
    assert f.Holds(hdr, c);
    if clast != null { assert f.Holds(hdr, clast); }
    MovedFacts(f, c, x);
    hide Forest.KidsOk, Forest.PlacesOk, Forest.ListsOk;
    f' := Unlink(f, hdr, i, clast);
    f' := ContainerAddChild(f', x, c);
  }

  lemma GroupedAfter(g: Grouping, h: Grouping, clast: Node?)
    requires h.Ok() && Linked(h.f) && ParentsLoose(h) && SlotAt(h.f, h.f.hdr, h.i, clast)
    requires h.f.nodes <= g.f.nodes && h.f.msgs == g.f.msgs && h.subj == g.subj && Marked(g.f) && Labelled(g.f.nodes, g.subj)
    ensures Grouped(h, clast)
  {
  }

  /** What is needed to move the current root, and what comes of it. */
  lemma AdoptCurrentFacts(g: Grouping, clast: Node?, c: Node, x: Node)
    requires Grouped(g, clast) && At(g, c, x) && c in g.f.msgs
    ensures g.Ok() && g.f.Ok() && g.f.Rooted() && Linked(g.f) && SlotAt(g.f, g.f.hdr, g.i, clast) && ParentsLoose(g)
    ensures Marked(g.f) && Labelled(g.f.nodes, g.subj)
    ensures g.f.hdr in g.f.kids && g.i < |g.f.kids[g.f.hdr]| && c == g.f.kids[g.f.hdr][g.i] && c in g.f.nodes && x in g.f.nodes
    ensures g.f.anc[c] == [] && IndexOf(g.f.kids[g.f.hdr], c) == g.i && x != c && c !in g.f.anc[x]
    ensures Leaver(g, c, x) && c in g.f.anc && g.f.Holds(g.f.Owner(c), c) && Attachable(Uproot(g.f, c), x, 0, c)
    ensures var h := AdoptCurrent(g, c, x);
      && h.Ok() && h.f.Shaped() && h.f == Moved(g.f, c, x) && h.table == g.table && h.subj == g.subj
      && h.f.hdr == g.f.hdr && h.f.nodes == g.f.nodes && h.f.msgs == g.f.msgs && SlotAt(h.f, h.f.hdr, h.i, clast)
  {
    hide Grouping.TableOk, Grouping.EmptiesOk, Forest.KidsOk, Forest.PlacesOk, Forest.ListsOk, Linked;
    CurrentIsRoot(g, c, x);
    EntryLine(g, g.subj[c].root, c);
    AdoptCurrentOk(g, c, x);
    RootIndex(g);
    MovedFacts(g.f, c, x);
    SlotAfterDetach(g.f, g.i, clast, AdoptCurrent(g, c, x).f);
  }

  method DoAdoptCurrent(ghost g: Grouping, hdr: Node, clast: Node?, c: Node, x: Node) returns (ghost h: Grouping)
    requires Grouped(g, clast) && g.f.hdr == hdr && At(g, c, x) && c in g.f.msgs
    modifies hdr`child, g.f.nodes`next, g.f.nodes`child, g.f.nodes`parent
    ensures Leaver(g, c, x) && h == AdoptCurrent(g, c, x) && Grouped(h, clast)
  {
    hide Grouping.Ok, Forest.Ok, Linked, SlotAt, Moved, Uproot, AdoptCurrent, Attachable, At, Marked, Labelled, Grouped;
    AdoptCurrentFacts(g, clast, c, x);
    ghost var f' := MoveCurrent(g.f, hdr, g.i, clast, c, x);
    h := AdoptCurrent(g, c, x);
    ParentsAfterMove(g, h, c, x);
    GroupedAfter(g, h, clast);
  }

  lemma RootIndex(g: Grouping)
    requires g.f.Ok() && g.i < |g.Roots()|
    ensures IndexOf(g.Roots(), g.Roots()[g.i]) == g.i
  {
    IndexIs(g.Roots(), g.i);
  }

  lemma SlotAfterDetach(f: Forest, i: nat, clast: Node?, f': Forest)
    requires f.hdr in f.kids && f'.hdr == f.hdr && f.hdr in f'.kids && i < |f.kids[f.hdr]| && SlotAt(f, f.hdr, i, clast)
    requires f'.kids[f.hdr] == DropAt(f.kids[f.hdr], i)
    ensures SlotAt(f', f.hdr, i, clast)
  {
  }

  /** The table's node is unlinked and becomes the first child of the current root. */
  method MoveEntry(ghost f: Forest, hdr: Node, ghost i: nat, clast: Node?, c: Node, x: Node) returns (ghost f': Forest)
    requires f.Ok() && f.Rooted() && Linked(f) && f.hdr == hdr && SlotAt(f, hdr, i, clast)
    requires x in f.nodes && f.Holds(f.Owner(x), x) && x.parent == ParentIn(f, x)
    requires c in f.nodes && x != c && x !in f.anc[c]
    modifies hdr`child, f.nodes`next, f.nodes`child, x`parent
    ensures Attachable(Uproot(f, x), c, 0, x) && f' == Moved(f, x, c)
    ensures f'.Ok() && Linked(f') && x.parent == c
  {
    MovedFacts(f, x, c);
    hide Forest.KidsOk, Forest.PlacesOk, Forest.ListsOk;
    var clast';
    ghost var i';
    f', clast', i' := RemoveNode(f, hdr, x, clast, i);
    f' := ContainerAddChild(f', c, x);
  }

  lemma EntryParent(g: Grouping, s: string)
    requires g.Ok() && ParentsLoose(g) && s in g.table
    ensures var x := g.table[s];
      && x in g.f.nodes && x.parent == ParentIn(g.f, x) && g.f.Holds(g.f.Owner(x), x)
  {
    var x := g.table[s];
    assert g.EntryOk(s) && x in g.table.Values;
    assert ParentOk(g, x);
    OwnerHolds(g.f, x);
  }

  lemma AdoptEntryFacts(g: Grouping, clast: Node?, c: Node, x: Node)
    requires Grouped(g, clast) && At(g, c, x) && x in g.f.msgs
    ensures g.Ok() && g.f.Ok() && g.f.Rooted() && Linked(g.f) && SlotAt(g.f, g.f.hdr, g.i, clast) && ParentsLoose(g)
    ensures Marked(g.f) && Labelled(g.f.nodes, g.subj)
    ensures g.f.hdr in g.f.kids && x in g.f.nodes && x.parent == ParentIn(g.f, x) && g.f.Holds(g.f.Owner(x), x)
    ensures c in g.f.nodes && x != c && x !in g.f.anc[c]
    ensures Entrant(g, c, x) && x in g.f.anc && Attachable(Uproot(g.f, x), c, 0, x)
    ensures var h := AdoptEntry(g, c, x);
      && h.Ok() && h.f.Shaped() && h.f == Moved(g.f, x, c) && h.table == g.table && h.subj == g.subj
      && h.f.hdr == g.f.hdr && h.f.nodes == g.f.nodes && h.f.msgs == g.f.msgs && SlotAt(h.f, h.f.hdr, h.i, c)
  {
    hide Grouping.TableOk, Grouping.EmptiesOk, Forest.KidsOk, Forest.PlacesOk, Forest.ListsOk, Linked;
    CurrentIsRoot(g, c, x);
    EntryParent(g, g.subj[c].root);
    AdoptEntryOk(g, c, x);
    MovedFacts(g.f, x, c);
  }

  method DoAdoptEntry(ghost g: Grouping, hdr: Node, clast: Node?, c: Node, x: Node) returns (ghost h: Grouping, clast': Node?)
    requires Grouped(g, clast) && g.f.hdr == hdr && At(g, c, x) && x in g.f.msgs
    modifies hdr`child, g.f.nodes`next, g.f.nodes`child, g.f.nodes`parent
    ensures Entrant(g, c, x) && h == AdoptEntry(g, c, x) && Grouped(h, clast')
  {
    hide Grouping.Ok, Forest.Ok, Linked, SlotAt, Moved, Uproot, AdoptEntry, Attachable, At, Marked, Labelled, Grouped;
    AdoptEntryFacts(g, clast, c, x);
    ghost var f' := MoveEntry(g.f, hdr, g.i, clast, c, x);
    clast' := c;
    h := AdoptEntry(g, c, x);
    ParentsAfterMove(g, h, x, c);
    GroupedAfter(g, h, clast');
  }

  // ---------------------------------------------------------------- the phantom

  /** A new node is linked in behind `clast`, before the root `after`. */
  method InsertRoot(ghost f: Forest, hdr: Node, ghost j: nat, clast: Node?, after: Node?, p: Node) returns (ghost f': Forest)
    requires f.Ok() && RootedBut(f, f.nodes) && Linked(f) && f.hdr == hdr && SlotAt(f, hdr, j, clast)
    requires after == After(f.kids[hdr], j)
    requires p !in f.nodes && p != hdr && p.child == null
    modifies hdr`child, Cell(clast)`next, p`next
    ensures f' == NewRoot(f, j, p) && f'.Ok() && Linked(f')
  {
    if clast != null { assert f.Holds(hdr, clast); HeldOnlyIn(f, hdr, clast); }
    AddNodeOk(f, p);
    AddNodeLinked(f, p);
    NewRootFacts(f, j, p, f.nodes);
    ghost var h := f.AddNode(p);
    UnheldAnywhere(h, p);
    SlotNextIs(f, hdr, j, clast);
    assert after == SlotNext(hdr, clast);
    hide Forest.KidsOk, Forest.PlacesOk;
    InsertIn(hdr, h.nodes, h.kids, hdr, j, clast, p);
    f' := NewRoot(f, j, p);
  }

  /** Where `c` is once `x` has been taken out. */
  lemma IndexAfterUproot(f: Forest, i: nat, c: Node, x: Node)
    requires f.Ok() && x in f.nodes && f.Holds(f.Owner(x), x) && x != c
    requires i < |f.kids[f.hdr]| && c == f.kids[f.hdr][i]
    ensures f.hdr in Uproot(f, x).kids && c in Uproot(f, x).kids[f.hdr]
    ensures IndexOf(Uproot(f, x).kids[f.hdr], c) == if f.anc[x] == [] && IndexOf(f.kids[f.hdr], x) < i then i - 1 else i
  {
    var r := f.kids[f.hdr];
    if f.anc[x] == [] {
      PrefixDrop(r, IndexOf(r, x), i);
    } else {
      IndexIs(r, i);
    }
  }

  method TakeBoth(ghost f: Forest, hdr: Node, ghost i: nat, clast: Node?, c: Node, x: Node)
      returns (ghost f': Forest, clast': Node?, ghost j: nat)
    requires f.Ok() && f.Rooted() && Linked(f) && f.hdr == hdr && SlotAt(f, hdr, i, clast)
    requires i < |f.kids[hdr]| && c == f.kids[hdr][i] && c in f.nodes && f.anc[c] == [] && c.parent == null
    requires x in f.nodes && x != c && f.Holds(f.Owner(x), x) && x.parent == ParentIn(f, x)
    modifies hdr`child, f.nodes`next, f.nodes`child
    ensures f.hdr in Uproot(f, x).kids && c in Uproot(f, x).kids[hdr] && j == IndexOf(Uproot(f, x).kids[hdr], c)
    ensures f' == BothOut(f, c, x) && f'.Ok() && Linked(f')
    ensures hdr in f'.kids && j <= |f'.kids[hdr]|
    ensures SlotAt(f', hdr, j, clast') && c.next == After(f'.kids[hdr], j)
    ensures clast' == null || clast' in f.nodes
  {
    hide *;
    TakeFacts(f, i, c, x);
    ghost var f1;
    f1, clast', j := RemoveNode(f, hdr, x, clast, i);
    CurrentNext(f1, j, clast', c);
    ghost var k;
    f', clast', k := RemoveNode(f1, hdr, c, clast', j);
  }

  lemma TakeFacts(f: Forest, i: nat, c: Node, x: Node)
    requires f.Ok() && f.Rooted() && i < |f.kids[f.hdr]| && c == f.kids[f.hdr][i] && c in f.nodes && f.anc[c] == []
    requires x in f.nodes && x != c && f.Holds(f.Owner(x), x)
    ensures f.hdr in Uproot(f, x).kids && c in Uproot(f, x).kids[f.hdr]
    ensures BothOut(f, c, x).Ok()
    ensures var g := Uproot(f, x);
      && g.hdr == f.hdr && g.nodes == f.nodes && c in g.nodes && c in g.anc && g.anc[c] == []
      && g.Holds(g.Owner(c), c) && Uproot(g, c) == BothOut(f, c, x) && ParentIn(g, c) == null
      && (var j := IndexOf(g.kids[f.hdr], c);
          && j == (if f.anc[x] == [] && IndexOf(f.kids[f.hdr], x) < i then i - 1 else i)
          && BothOut(f, c, x).hdr == f.hdr && f.hdr in BothOut(f, c, x).kids
          && j <= |BothOut(f, c, x).kids[f.hdr]|
          && After(BothOut(f, c, x).kids[f.hdr], j) == After(g.kids[f.hdr], j + 1))
  {
    IndexAfterUproot(f, i, c, x);
    BothOutFacts(f, c, x);
    UprootFacts(f, x, {});
    var g := Uproot(f, x);
    assert g.Owner(c) == f.hdr && g.Holds(f.hdr, c);
    assert BothOut(f, c, x).kids[f.hdr] == DropAt(g.kids[f.hdr], IndexOf(g.kids[f.hdr], c));
  }

  lemma CurrentNext(f: Forest, j: nat, clast: Node?, c: Node)
    requires f.Ok() && Linked(f) && c in f.kids[f.hdr] && j == IndexOf(f.kids[f.hdr], c) && SlotAt(f, f.hdr, j, clast)
    ensures SlotNext(f.hdr, clast) == c && c.next == After(f.kids[f.hdr], j + 1)
  {
    SlotNextIs(f, f.hdr, j, clast);
  }

  /** The new phantom goes where `c` was and takes `c` and then `x` as its children. */
  method GiveBoth(ghost f: Forest, hdr: Node, ghost j: nat, clast: Node?, c: Node, x: Node, p: Node) returns (ghost f': Forest)
    requires f.Ok() && RootedBut(f, {x, c}) && Loose(f, x) && Loose(f, c) && x != c && Linked(f) && f.hdr == hdr
    requires hdr in f.kids && j <= |f.kids[hdr]|
    requires SlotAt(f, hdr, j, clast) && c.next == After(f.kids[hdr], j) && (clast == null || clast in f.nodes)
    requires p !in f.nodes && p != hdr && p.child == null
    modifies hdr`child, f.nodes`next, p`next, p`child, c`parent, x`parent
    ensures f' == PhantomIn(f, j, p, c, x) && f'.Ok() && Linked(f')
    ensures c.parent == p && x.parent == p
  {
    CellIn(clast, f.nodes);
    hide *;
    GiveFacts(f, j, p, c, x);
    f' := InsertRoot(f, hdr, j, clast, c.next, p);
    f' := ContainerAddChild(f', p, c);
    f' := ContainerAddChild(f', p, x);
  }

  lemma CellIn(clast: Node?, nodes: set<Node>)
    requires clast == null || clast in nodes
    ensures Cell(clast) <= nodes
  {
  }

  lemma GiveFacts(f: Forest, j: nat, p: Node, c: Node, x: Node)
    requires f.Ok() && RootedBut(f, {x, c}) && Loose(f, x) && Loose(f, c) && x != c
    requires f.hdr in f.kids && j <= |f.kids[f.hdr]| && p !in f.nodes && p != f.hdr
    ensures RootedBut(f, f.nodes) && c in f.nodes && x in f.nodes
    ensures var g := NewRoot(f, j, p);
      && Attachable(g, p, 0, c) && g.hdr == f.hdr
      && Attachable(g.Attach(p, 0, c), p, 0, x) && g.Attach(p, 0, c).hdr == f.hdr
      && g.Attach(p, 0, c).Attach(p, 0, x) == PhantomIn(f, j, p, c, x)
  {
    NewRootFacts(f, j, p, {x, c});
    hide Forest.KidsOk, Forest.PlacesOk, Forest.ListsOk;
    assert p in NewRoot(f, j, p).kids[f.hdr] by { assert NewRoot(f, j, p).kids[f.hdr][j] == p; }
    TwoInFacts(NewRoot(f, j, p), p, c, x);
  }

  /** Unlinks both, makes the phantom and links both below it. */
  method PairPointers(ghost f: Forest, hdr: Node, ghost i: nat, clast: Node?, c: Node, x: Node)
      returns (ghost f': Forest, p: Node)
    requires f.Ok() && f.Rooted() && Linked(f) && f.hdr == hdr && SlotAt(f, hdr, i, clast)
    requires i < |f.kids[hdr]| && c == f.kids[hdr][i] && c in f.nodes && f.anc[c] == [] && c.parent == null
    requires x in f.nodes && x != c && f.Holds(f.Owner(x), x) && x.parent == ParentIn(f, x)
    requires hdr in Uproot(f, x).kids && c in Uproot(f, x).kids[hdr]
    requires var h := BothOut(f, c, x);
      RootedBut(h, {x, c}) && Loose(h, x) && Loose(h, c) && h.nodes == f.nodes && h.hdr == hdr
    modifies hdr`child, f.nodes`next, f.nodes`child, c`parent, x`parent
    ensures fresh(p) && p.parent == null && p.message == null
    ensures p.rootSubject == c.rootSubject && p.re == (c.re && x.re)
    ensures hdr in BothOut(f, c, x).kids
    ensures var j := IndexOf(Uproot(f, x).kids[hdr], c);
      j <= |BothOut(f, c, x).kids[hdr]| && f' == PhantomIn(BothOut(f, c, x), j, p, c, x)
    ensures f'.Ok() && Linked(f') && c.parent == p && x.parent == p
  {
    hide *;
    ghost var f1, j;
    var slot;
    f1, slot, j := TakeBoth(f, hdr, i, clast, c, x);
    p := new Node();
    p.rootSubject := c.rootSubject;
    p.re := c.re && x.re;
    f' := GiveBoth(f1, hdr, j, slot, c, x, p);
  }

  method DoPair(ghost g: Grouping, hdr: Node, clast: Node?, c: Node, x: Node) returns (ghost h: Grouping, p: Node)
    requires Grouped(g, clast) && g.f.hdr == hdr && At(g, c, x) && c in g.f.msgs && x in g.f.msgs
    requires g.subj[c].re && x in g.subj && g.subj[x].re
    modifies hdr`child, g.f.nodes`next, g.f.nodes`child, g.f.nodes`parent
    ensures fresh(p) && Entrant(g, c, x) && h == Pair(g, c, x, p) && Grouped(h, p)
    ensures p.rootSubject == g.subj[c].root
  {
    hide *;
    PairStart(g, clast, c, x);
    PairLoose(g, c, x);
    ghost var f2;
    f2, p := PairPointers(g.f, hdr, g.i, clast, c, x);
    PairCan(g, c, x, p);
    PairOk(g, c, x, p);
    PairIs(g, c, x, p);
    h := Pair(g, c, x, p);
    PairEnd(g, h, c, x, p);
  }

  lemma PairLoose(g: Grouping, c: Node, x: Node)
    requires At(g, c, x) && x in g.f.msgs
    ensures x in g.f.anc && g.f.Holds(g.f.Owner(x), x) && g.f.hdr in g.f.kids && c in Uproot(g.f, x).kids[g.f.hdr]
    ensures var h := BothOut(g.f, c, x);
      h.Ok() && RootedBut(h, {x, c}) && Loose(h, x) && Loose(h, c) && x != c && h.nodes == g.f.nodes && h.hdr == g.f.hdr
  {
    hide BothOut, RootedBut, Loose;
    PairBase(g, c, x);
  }

  lemma PairStart(g: Grouping, clast: Node?, c: Node, x: Node)
    requires Grouped(g, clast) && At(g, c, x) && x in g.f.msgs
    ensures g.f.Ok() && g.f.Rooted() && Linked(g.f) && SlotAt(g.f, g.f.hdr, g.i, clast)
    ensures g.i < |g.f.kids[g.f.hdr]| && c == g.f.kids[g.f.hdr][g.i] && c in g.f.nodes && g.f.anc[c] == [] && c.parent == null
    ensures x in g.f.nodes && x != c && g.f.Holds(g.f.Owner(x), x) && x.parent == ParentIn(g.f, x)
    ensures g.f.hdr !in g.f.nodes && Entrant(g, c, x) && g.subj.Keys == g.f.nodes && g.Ok()
    ensures g.f.Shaped() && x in g.f.anc && g.f.hdr in g.f.kids && g.f.hdr in Uproot(g.f, x).kids && c in Uproot(g.f, x).kids[g.f.hdr]
    ensures Marked(g.f) && Labelled(g.f.nodes, g.subj)
    ensures forall n | n in g.f.nodes && n in g.f.anc :: ParentOk(g, n)
    ensures c in g.subj && x in g.subj && Subject(c.rootSubject, c.re) == g.subj[c] && Subject(x.rootSubject, x.re) == g.subj[x]
  {
    CurrentIsRoot(g, c, x);
    EntryParent(g, g.subj[c].root);
    AdoptEntryOk(g, c, x);
    assert ParentOk(g, c);
  }

  lemma PairCan(g: Grouping, c: Node, x: Node, p: Node)
    requires At(g, c, x) && c in g.f.msgs && x in g.f.msgs && p !in g.f.nodes && p != g.f.hdr
    ensures CanPair(g, c, x, p)
  {
  }

  lemma PairIs(g: Grouping, c: Node, x: Node, p: Node)
    requires Entrant(g, c, x) && c in g.subj && g.f.hdr != p && g.f.hdr in g.f.kids && x in g.f.anc
    ensures g.f.hdr in Uproot(g.f, x).kids && c in Uproot(g.f, x).kids[g.f.hdr]
    ensures var h := Pair(g, c, x, p); var j := IndexOf(Uproot(g.f, x).kids[g.f.hdr], c);
      && h.table == g.table[g.subj[c].root := p] && h.subj == g.subj[p := Subject(g.subj[c].root, true)]
      && h.i == j + 1 && j <= |BothOut(g.f, c, x).kids[g.f.hdr]|
      && h.f == PhantomIn(BothOut(g.f, c, x), j, p, c, x)
  {
  }

  lemma PairEnd(g: Grouping, h: Grouping, c: Node, x: Node, p: Node)
    requires CanPair(g, c, x, p) && c in g.subj && g.subj.Keys == g.f.nodes && Entrant(g, c, x)
    requires g.f.hdr in g.f.kids && x in g.f.anc && c in g.f.nodes && x in g.f.nodes && g.f.hdr != p && p !in g.f.nodes
    requires g.f.hdr in Uproot(g.f, x).kids && c in Uproot(g.f, x).kids[g.f.hdr] && g.f.Holds(g.f.Owner(x), x)
    requires h == Pair(g, c, x, p) && h.Ok() && Linked(h.f)
    requires c.parent == p && x.parent == p && p.parent == null && p.message == null
    requires Subject(p.rootSubject, p.re) == Subject(g.subj[c].root, true)
    requires forall n | n in g.f.nodes && n in g.f.anc && n != c && n != x :: ParentOk(g, n)
    requires Marked(g.f) && Labelled(g.f.nodes, g.subj) && g.f.Shaped()
    ensures Grouped(h, p)
  {
    hide *;
    PairForest(g, c, x, p);
    PairIs(g, c, x, p);
    OkShaped(h.f);
    PairParents(g, h, c, x, p, g.subj[c].root);
    GroupedIntro(g, h, p);
  }

  lemma OkShaped(f: Forest)
    requires f.Ok()
    ensures f.Shaped()
  {
  }

  lemma GroupedIntro(g: Grouping, h: Grouping, p: Node)
    requires h.Ok() && Linked(h.f) && h.f.Shaped() && ParentsLoose(h)
    requires h.f.hdr in h.f.kids && 0 < h.i <= |h.Roots()| && h.Roots()[h.i - 1] == p
    requires h.f.nodes == g.f.nodes + {p} && h.f.msgs == g.f.msgs && p !in g.f.nodes
    requires Marked(g.f) && Labelled(g.f.nodes, g.subj) && p.message == null
    requires p in h.subj && Subject(p.rootSubject, p.re) == h.subj[p]
    requires forall n | n in g.f.nodes && n in g.subj :: n in h.subj && h.subj[n] == g.subj[n]
    ensures Grouped(h, p)
  {
  }

  lemma PairParents(g: Grouping, h: Grouping, c: Node, x: Node, p: Node, t: string)
    requires g.f.Shaped() && h.f.Shaped() && c in g.f.nodes && x in g.f.nodes
    requires h.f.nodes == g.f.nodes + {p} && p !in g.f.nodes && h.f.msgs == g.f.msgs
    requires h.f.anc[p] == [] && h.f.anc[c] == [p] && h.f.anc[x] == [p]
    requires forall n | n in g.f.nodes && n != x && n != c :: ParentIn(h.f, n) == ParentIn(g.f, n)
    requires h.table == g.table[t := p]
    requires c.parent == p && x.parent == p && p.parent == null
    requires forall n | n in g.f.nodes && n in g.f.anc && n != c && n != x :: ParentOk(g, n)
    ensures ParentsLoose(h)
  {
    forall s | s in h.table ensures h.table[s] == p || h.table[s] in g.table.Values {}
    forall n | n in h.f.nodes ensures ParentOk(h, n) {
      if n != p && n != c && n != x {
        assert ParentOk(g, n) && ParentIn(h.f, n) == ParentIn(g.f, n);
      }
    }
  }

  // ---------------------------------------------------------------- merging two roots without a message

  method AppendIn(ghost hdr: Node, ghost nodes: set<Node>, ghost kids: map<Node, seq<Node>>, d: Node, c: Node)
    requires Lists(hdr, nodes, kids) && d in kids && c in kids && d != c
    requires NoDup(kids[d]) && (forall k | k in kids[d] :: k !in kids[c] && OnlyIn(kids, d, k))
    modifies d`child, kids[d]`next
    ensures Lists(hdr, nodes, kids[d := kids[d] + kids[c]])
  {
    ghost var after := kids[d := kids[d] + kids[c]];
    assert ListOf(kids, d) && ListOf(kids, c);
    hide NoDup, ListAt;
    AppendOne(d, c.child, kids[d], kids[c]);
    forall p | p in after ensures KidsKnown(nodes, after, p) && ListOf(after, p) {
      assert old(ListOf(kids, p));
      if p != d {
        assert old(ListAt(p.child, kids[p]));
        assert forall k | k in kids[d] :: OnlyIn(kids, d, k) && k !in kids[p];
        assert p.child == old(p.child);
        assert forall k | k in kids[p] :: k.next == old(k.next);
        assert ListAt(p.child, kids[p]);
      }
    }
  }

  method MergePointers(ghost f: Forest, hdr: Node, ghost i: nat, clast: Node?, c: Node, d: Node) returns (ghost f': Forest)
    requires Mergeable(f, i, d) && Linked(f) && f.hdr == hdr && c == f.kids[hdr][i] && c in f.nodes && d in f.nodes
    requires SlotAt(f, hdr, i, clast)
    modifies hdr`child, f.nodes`next, d`child
    ensures f' == f.Merge(i, d) && f'.Ok() && Linked(f')
    ensures SlotAt(f', hdr, i, clast)
  {
    MergeOk(f, i, d);
    MergeLists(f, i, clast, c, d);
    hide Forest.KidsOk, Forest.PlacesOk;
    ghost var kids := f.kids[d := f.kids[d] + f.kids[c]];
    AppendIn(hdr, f.nodes, f.kids, d, c);
    UnlinkIn(hdr, f.nodes, kids, hdr, i, clast);
    f' := f.Merge(i, d);
    LinkedWithin(f', f.nodes, kids[hdr := DropAt(kids[hdr], i)]);
  }

  lemma MergeLists(f: Forest, i: nat, clast: Node?, c: Node, d: Node)
    requires Mergeable(f, i, d) && c == f.kids[f.hdr][i] && c in f.nodes && d in f.nodes && SlotAt(f, f.hdr, i, clast)
    ensures c != d && d != f.hdr && c != f.hdr
    ensures forall k | k in f.kids[d] :: k in f.nodes && k !in f.kids[c] && OnlyIn(f.kids, d, k)
    ensures clast != null ==> clast in f.nodes && OnlyIn(f.kids[d := f.kids[d] + f.kids[c]], f.hdr, clast)
  {
    forall k | k in f.kids[d] ensures k in f.nodes && k !in f.kids[c] && OnlyIn(f.kids, d, k) {
      assert f.Holds(d, k);
      HeldOnlyIn(f, d, k);
    }
    if clast != null {
      assert f.Holds(f.hdr, clast);
      HeldOnlyIn(f, f.hdr, clast);
    }
  }

  lemma LinkedWithin(f: Forest, nodes: set<Node>, kids: map<Node, seq<Node>>)
    requires f.Ok() && Lists(f.hdr, nodes, kids)
    requires forall p | p in f.kids :: p in kids && f.kids[p] == kids[p]
    ensures Linked(f)
  {
    forall p | p in f.kids ensures KidsKnown(f.nodes, f.kids, p) && ListOf(f.kids, p) {
      assert ListOf(kids, p);
      forall k | k in f.kids[p] ensures k in f.nodes { assert f.Holds(p, k); }
    }
  }

  lemma ParentsAfterMerge(g: Grouping, c: Node, x: Node)
    requires CanMerge(g, c, x) && c in g.f.nodes && MergeInto(g, x).f.Shaped() && ParentsLoose(g)
    ensures ParentsLoose(MergeInto(g, x))
  {
    var f, h := g.f, MergeInto(g, x);
    CurrentIsRoot(g, c, x);
    assert g.Anchored(x);
    forall n | n in h.f.nodes ensures ParentOk(h, n) {
      assert ParentOk(g, n);
      if f.anc[n] != [] {
        assert f.Placed(n) && f.anc[n] == f.Line(f.anc[n][0]);
        ReplaceCons(f.anc[n][0], f.anc[f.anc[n][0]], c, x);
        if f.anc[n][0] == c && n in g.table.Values {
          var s :| s in g.table && g.table[s] == n;
          assert g.EntryOk(s);
          RootAt(g, c, c);
        }
      }
    }
  }

  method DoMerge(ghost g: Grouping, hdr: Node, clast: Node?, c: Node, x: Node) returns (ghost h: Grouping)
    requires Grouped(g, clast) && g.f.hdr == hdr && At(g, c, x) && c !in g.f.msgs && x !in g.f.msgs
    modifies hdr`child, g.f.nodes`next, g.f.nodes`child
    ensures CanMerge(g, c, x) && h == MergeInto(g, x) && Grouped(h, clast)
  {
    hide *;
    MergeStart(g, clast, c, x);
    MergeIntoOk(g, c, x);
    ghost var f' := MergePointers(g.f, hdr, g.i, clast, c, x);
    h := MergeInto(g, x);
    MergeEnd(g, h, clast, c, x);
  }

  lemma MergeStart(g: Grouping, clast: Node?, c: Node, x: Node)
    requires Grouped(g, clast) && At(g, c, x) && c !in g.f.msgs && x !in g.f.msgs
    ensures Mergeable(g.f, g.i, x) && Linked(g.f) && c == g.f.kids[g.f.hdr][g.i] && c in g.f.nodes && x in g.f.nodes
    ensures SlotAt(g.f, g.f.hdr, g.i, clast) && g.f.hdr in g.f.kids && g.i < |g.f.kids[g.f.hdr]|
    ensures g.f.Merge(g.i, x) == MergeInto(g, x).f && MergeInto(g, x).i == g.i
    ensures g.f.Shaped() && ParentsLoose(g) && Marked(g.f) && Labelled(g.f.nodes, g.subj)
  {
    CurrentIsRoot(g, c, x);
    assert g.Anchored(x);
  }

  lemma MergeEnd(g: Grouping, h: Grouping, clast: Node?, c: Node, x: Node)
    requires CanMerge(g, c, x) && g.f.Shaped() && c in g.f.nodes && h == MergeInto(g, x) && h.Ok() && Linked(h.f)
    requires g.f.hdr in g.f.kids && g.i < |g.f.kids[g.f.hdr]| && SlotAt(g.f, g.f.hdr, g.i, clast)
    requires ParentsLoose(g) && Marked(g.f) && Labelled(g.f.nodes, g.subj)
    ensures Grouped(h, clast)
  {
    hide Grouping.TableOk, Grouping.EmptiesOk, Forest.KidsOk, Forest.PlacesOk, Forest.ListsOk, Linked, ParentsLoose;
    MergedRoots(g, c, x);
    ParentsAfterMerge(g, c, x);
  }

  lemma MergedRoots(g: Grouping, c: Node, x: Node)
    requires CanMerge(g, c, x) && g.f.hdr in g.f.kids && g.i < |g.f.kids[g.f.hdr]|
    ensures var h := MergeInto(g, x);
      h.i == g.i && h.f.hdr == g.f.hdr && h.f.hdr in h.f.kids && h.f.kids[h.f.hdr] == DropAt(g.f.kids[g.f.hdr], g.i)
    ensures MergeInto(g, x).f.nodes == g.f.nodes - {c} && MergeInto(g, x).f.msgs == g.f.msgs
    ensures forall n | n in MergeInto(g, x).f.nodes :: n in g.f.nodes
    ensures MergeInto(g, x).subj == g.subj - {c}
  {
    CurrentIsRoot(g, c, x);
    assert g.f.Holds(g.f.hdr, x);
  }

  // ---------------------------------------------------------------- group_root_set

  /** What the loop reads is what the step looks at. */
  lemma TurnReads(g: Grouping, clast: Node?, c: Node)
    requires Grouped(g, clast) && SlotNext(g.f.hdr, clast) == c
    ensures g.Ok() && g.f.hdr !in g.f.nodes
    ensures g.f.hdr in g.f.kids && g.i < |g.Roots()| && c == g.Current() && c in g.f.nodes && c in g.subj
    ensures c.message == null <==> c !in g.f.msgs
    ensures Subject(c.rootSubject, c.re) == g.subj[c]
    ensures g.Matched(c) <==> c.rootSubject != "" && c.rootSubject in g.table && g.table[c.rootSubject] != c
    ensures g.Matched(c) ==> var x := g.table[c.rootSubject];
      && At(g, c, x) && x in g.f.nodes && x in g.subj && (x.message == null <==> x !in g.f.msgs) && x.re == g.subj[x].re
  {
    assert g.f.Holds(g.f.hdr, g.Roots()[g.i]) by { SlotNextIs(g.f, g.f.hdr, g.i, clast); }
    SlotNextIs(g.f, g.f.hdr, g.i, clast);
    assert Subject(c.rootSubject, c.re) == g.subj[c];
    if g.Matched(c) {
      assert g.EntryOk(c.rootSubject);
      var x := g.table[c.rootSubject];
      assert Subject(x.rootSubject, x.re) == g.subj[x];
    }
  }

  lemma KeepStep(g: Grouping, clast: Node?, c: Node)
    requires Grouped(g, clast) && SlotNext(g.f.hdr, clast) == c && c in g.subj && g.f.hdr in g.f.kids
    requires !g.Matched(c) || (var x := g.table[g.subj[c].root];
      c in g.f.msgs && x in g.f.msgs && x in g.subj && !g.subj[c].re && !g.subj[x].re)
    ensures Step(g, Keep(g), c) && Grouped(Keep(g), c) && Keep(g).table == g.table
  {
    TurnReads(g, clast, c);
    KeepOk(g);
  }

  lemma MatchedStep(g: Grouping, h: Grouping, clast: Node?, c: Node, x: Node, p: Node)
    requires g.Ok() && g.f.hdr in g.f.kids && g.i < |g.Roots()| && c == g.Current() && c in g.f.nodes && c in g.subj && g.Matched(c)
    requires x == g.table[g.subj[c].root] && x in g.f.nodes && x in g.subj
    requires
      || (c !in g.f.msgs && x !in g.f.msgs && CanMerge(g, c, x) && h == MergeInto(g, x))
      || (x in g.f.msgs && (c !in g.f.msgs || (!g.subj[c].re && g.subj[x].re)) && Entrant(g, c, x) && h == AdoptEntry(g, c, x))
      || (c in g.f.msgs && (x !in g.f.msgs || (g.subj[c].re && !g.subj[x].re)) && Leaver(g, c, x) && h == AdoptCurrent(g, c, x))
      || (c in g.f.msgs && x in g.f.msgs && g.subj[c].re && g.subj[x].re && Entrant(g, c, x)
          && p != g.f.hdr && p !in g.f.nodes && h == Pair(g, c, x, p))
    ensures Step(g, h, p)
  {
  }

  /** What each case leaves in the table. */
  lemma TableAfter(g: Grouping, h: Grouping, c: Node, x: Node, p: Node)
    requires c in g.subj && g.f.hdr in g.f.kids
    ensures CanMerge(g, c, x) && h == MergeInto(g, x) ==> h.table == g.table
    ensures Entrant(g, c, x) && h == AdoptEntry(g, c, x) ==> h.table == g.table
    ensures Leaver(g, c, x) && h == AdoptCurrent(g, c, x) ==> h.table == g.table
    ensures Entrant(g, c, x) && p != g.f.hdr && h == Pair(g, c, x, p) ==> h.table == g.table[g.subj[c].root := p]
  {
  }

  method Turn(ghost g: Grouping, hdr: Node, clast: Node?, table: map<string, Node>)
      returns (ghost h: Grouping, clast': Node?, table': map<string, Node>, ghost p: Node)
    requires Grouped(g, clast) && g.f.hdr == hdr && SlotNext(hdr, clast) != null && g.table == table
    modifies hdr`child, g.f.nodes`next, g.f.nodes`child, g.f.nodes`parent
    ensures Step(g, h, p) && Grouped(h, clast') && h.table == table'
    ensures p in g.f.nodes || fresh(p)
  {
    hide *;
    var c := SlotNext(hdr, clast);
    TurnReads(g, clast, c);
    table', p := table, c;
    if c.rootSubject != "" && c.rootSubject in table && table[c.rootSubject] != c {
      var container := table[c.rootSubject];
      if c.message == null && container.message == null {
        // two phantoms with one subject become one
        h := DoMerge(g, hdr, clast, c, container);
        clast' := clast;
      } else if c.message == null && container.message != null {
        // a phantom takes in the message that speaks for its subject
        h, clast' := DoAdoptEntry(g, hdr, clast, c, container);
      } else if c.message != null && container.message == null {
        // the message goes below the phantom of its subject
        h := DoAdoptCurrent(g, hdr, clast, c, container);
        clast' := clast;
      } else if c.re && !container.re {
        // a reply goes below the original
        h := DoAdoptCurrent(g, hdr, clast, c, container);
        clast' := clast;
      } else if !c.re && container.re {
        // the reply in the table goes below the original found now
        h, clast' := DoAdoptEntry(g, hdr, clast, c, container);
      } else if c.re && container.re {
        // two replies get a phantom for a parent
        var scan;
        h, scan := DoPair(g, hdr, clast, c, container);
        clast', p := scan, scan;
        table' := table[scan.rootSubject := scan];
      } else {
        KeepStep(g, clast, c);
        h, clast' := Keep(g), c;
        return;
      }
      MatchedStep(g, h, clast, c, container, p);
      TableAfter(g, h, c, container, p);
    } else {
      KeepStep(g, clast, c);
      h, clast' := Keep(g), c;
    }
  }

  /** A run of the merge loop: `ps` are the phantoms of its steps. */
  ghost predicate Run(states: seq<Grouping>, ps: seq<Node>) {
    |states| == |ps| + 1 && forall k | 0 <= k < |ps| :: Step(states[k], states[k + 1], ps[k])
  }

  /** A phantom is a node that was not there before the loop. */
  ghost predicate PhantomsNew(f: Forest, states: seq<Grouping>, ps: seq<Node>) {
    |states| == |ps| + 1 && forall k | 0 <= k < |ps| :: ps[k] in states[k].f.nodes || ps[k] !in f.nodes
  }

  /** The state before the first turn: every root is labelled with its subject, and the table is
      what gathering the roots in order gives. */
  ghost predicate Begins(f: Forest, g: Grouping)
    requires f.Shaped()
    reads f.nodes`message
  {
    var r := f.kids[f.hdr];
    && g.f == f && g.i == 0 && g.subj.Keys == f.nodes
    && (forall n | n in r :: n in f.nodes && n in f.kids && KidsKnown(f.nodes, f.kids, n) && g.subj[n] == SubjectOf(f, n))
    && g.table == Gathered(r, g.subj, f.msgs)
  }

  /** Roots without a message hold at least two children, as pruning leaves them. */
  ghost predicate RootsFull(f: Forest)
    requires f.Shaped()
  {
    forall n | n in f.nodes && n !in f.msgs :: f.anc[n] == [] && |f.kids[n]| >= 2
  }

  lemma BeginsOk(f: Forest, table: map<string, Node>, subj: map<Node, Subject>)
    requires f.Ok() && f.Rooted() && Linked(f) && ParentsExact(f) && Marked(f) && RootsFull(f)
    requires KidsKnown(f.nodes, f.kids, f.hdr) && Gathering(f, |f.kids[f.hdr]|, table, subj)
    ensures f.Shaped() && Begins(f, Grouping(f, table, 0, subj)) && Grouped(Grouping(f, table, 0, subj), null)
  {
    var r, g := f.kids[f.hdr], Grouping(f, table, 0, subj);
    assert r[..|r|] == r;
    assert forall s | s in g.table :: g.table[s] in r;
    assert g.EmptiesOk() by {
      forall n | n in f.nodes && n !in f.msgs ensures f.anc[n] == [] && g.Anchored(n) {
        assert f.Holds(n, f.kids[n][0]) && n != f.hdr;
        forall s | s in g.table ensures g.table[s] != f.kids[n][0] { assert f.Holds(f.hdr, g.table[s]); }
        assert f.kids[n][0] in f.kids[n];
      }
    }
    forall s | s in g.table ensures g.EntryOk(s) {
      assert f.Holds(f.hdr, g.table[s]);
    }
    forall n | n in f.nodes ensures ParentOk(g, n) {}
  }

  /** The forest `g.f` after the whole merge. */
  ghost predicate Finished(g: Grouping)
    reads g.f.hdr`child, g.f.nodes`next, g.f.nodes`child, g.f.nodes`parent, g.f.nodes`message
  {
    g.Ok() && g.i == |g.Roots()| && Linked(g.f) && ParentsLoose(g) && Marked(g.f)
  }

  /** A run of the loop from its beginning to its end. */
  ghost predicate Whole(f: Forest, states: seq<Grouping>, ps: seq<Node>)
    reads f.nodes`message
  {
    && f.Shaped() && |states| == |ps| + 1 && Run(states, ps) && PhantomsNew(f, states, ps) && Begins(f, states[0])
    && states[|ps|].Ok() && states[|ps|].i == |states[|ps|].Roots()|
  }

  lemma RunIsWhole(f: Forest, states: seq<Grouping>, ps: seq<Node>)
    requires f.Ok() && |states| == |ps| + 1 && Run(states, ps) && PhantomsNew(f, states, ps) && Begins(f, states[0])
    requires Finished(states[|ps|])
    ensures Whole(f, states, ps)
  {
  }

  lemma TurnsDone(g: Grouping, clast: Node?)
    requires Grouped(g, clast) && SlotNext(g.f.hdr, clast) == null
    ensures Finished(g)
  {
    SlotNextIs(g.f, g.f.hdr, g.i, clast);
  }

  ghost function Left(g: Grouping): int
    requires g.f.hdr in g.f.kids
  {
    |g.Roots()| - g.i
  }

  /** The loop has somewhere to go as long as it goes on. */
  lemma LeftShrinks(g: Grouping, h: Grouping, p: Node)
    requires Step(g, h, p)
    ensures g.f.hdr in g.f.kids && h.f.hdr in h.f.kids && 0 <= Left(h) < Left(g)
    ensures h.f.hdr == g.f.hdr && h.f.msgs == g.f.msgs && h.f.nodes <= g.f.nodes + {p}
  {
    StepOk(g, h, p);
  }

  lemma LongerRun(states: seq<Grouping>, ps: seq<Node>, g: Grouping, p: Node)
    requires Run(states, ps) && Step(states[|ps|], g, p)
    ensures Run(states + [g], ps + [p])
  {
    hide Step;
    var more, qs := states + [g], ps + [p];
    forall k | 0 <= k < |qs| ensures Step(more[k], more[k + 1], qs[k]) {
      if k < |ps| { assert more[k] == states[k] && more[k + 1] == states[k + 1] && qs[k] == ps[k]; }
    }
  }

  lemma LongerNew(f: Forest, states: seq<Grouping>, ps: seq<Node>, g: Grouping, p: Node)
    requires PhantomsNew(f, states, ps) && (p in states[|ps|].f.nodes || p !in f.nodes)
    ensures PhantomsNew(f, states + [g], ps + [p])
  {
  }

  lemma GroupedShape(g: Grouping, clast: Node?)
    requires Grouped(g, clast)
    ensures g.f.hdr in g.f.kids
  {
  }

  method GroupRootSet(ghost f: Forest, hdr: Node) returns (ghost states: seq<Grouping>, ghost ps: seq<Node>)
    requires f.Ok() && f.Rooted() && Linked(f) && ParentsExact(f) && Marked(f) && RootsFull(f) && f.hdr == hdr
    modifies hdr`child, f.nodes`next, f.nodes`child, f.nodes`parent, f.nodes`rootSubject, f.nodes`re
    ensures |states| == |ps| + 1 && Run(states, ps) && Begins(f, states[0]) && Whole(f, states, ps)
    ensures Finished(states[|ps|]) && states[|ps|].f.hdr == hdr && states[|ps|].f.msgs == f.msgs
    ensures fresh(states[|ps|].f.nodes - f.nodes)
  {
    hide *;
    var table;
    ghost var subj;
    table, subj := Gather(f, hdr);
    ghost var g := Grouping(f, table, 0, subj);
    BeginsOk(f, table, subj);
    GroupedShape(g, null);
    var clast: Node? := null;
    states, ps := [g], [];
    FirstRun(f, g);
    while SlotNext(hdr, clast) != null
      invariant Run(states, ps) && PhantomsNew(f, states, ps) && |states| == |ps| + 1 && states[|ps|] == g && Begins(f, states[0])
      invariant Grouped(g, clast) && g.table == table && g.f.hdr == hdr && hdr in g.f.kids
      invariant g.f.msgs == f.msgs && fresh(g.f.nodes - f.nodes)
      decreases Left(g)
    {
      ghost var h := g;
      ghost var p;
      g, clast, table, p := Turn(h, hdr, clast, table);
      LeftShrinks(h, g, p);
      LongerRun(states, ps, g, p);
      LongerNew(f, states, ps, g, p);
      states, ps := states + [g], ps + [p];
    }
    TurnsDone(g, clast);
    RunIsWhole(f, states, ps);
  }

  lemma FirstRun(f: Forest, g: Grouping)
    ensures Run([g], []) && PhantomsNew(f, [g], [])
  {
  }
}
