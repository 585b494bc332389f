/** The last phase of threading: a root without a message gives its place to its first child, and
    its other children go below that child. */
module ThreadTop {
  import opened SeqFacts
  import opened ThreadForest
  import opened ThreadLinks
  import opened ThreadSort

  // ---------------------------------------------------------------- the forest

  /** Root `i` has no message; its first child `t` takes its place. */
  ghost predicate Phantom(f: Forest, i: nat, c: Node, t: Node) {
    && f.Ok() && f.Rooted() && i < |f.kids[f.hdr]| && c == f.kids[f.hdr][i]
    && c in f.nodes && t in f.nodes && f.kids[c] != [] && t == f.kids[c][0]
  }

  ghost function Promoted(f: Forest, i: nat, c: Node, t: Node): Forest
    requires f.hdr in f.kids && i < |f.kids[f.hdr]| && c == f.kids[f.hdr][i]
    requires c in f.kids && f.kids[c] != [] && c != f.hdr && t != f.hdr && t in f.kids
  {
    assert InsertAt(f.kids[f.hdr], i + 1, t)[i] == c;
    f.Detach(c, 0).Attach(f.hdr, i + 1, t).Merge(i, t)
  }

  /** First `t` becomes a root behind `c`. */
  lemma PromotedHalf(f: Forest, i: nat, c: Node, t: Node)
    requires Phantom(f, i, c, t)
    ensures c != f.hdr && t != f.hdr && t != c
    ensures Attachable(f.Detach(c, 0), f.hdr, i + 1, t)
    ensures var g := f.Detach(c, 0).Attach(f.hdr, i + 1, t);
      && g.Ok() && g.hdr == f.hdr && g.nodes == f.nodes && g.msgs == f.msgs
      && g.kids == f.kids[c := f.kids[c][1..]][f.hdr := InsertAt(f.kids[f.hdr], i + 1, t)]
  {
    hide Forest.KidsOk, Forest.PlacesOk, Forest.ListsOk;
    PhantomFacts(f, i, c, t);
    DetachOk(f, c, 0);
    assert DropAt(f.kids[c], 0) == f.kids[c][1..];
    AttachOk(f.Detach(c, 0), f.hdr, i + 1, t);
  }

  lemma PromotedOk(f: Forest, i: nat, c: Node, t: Node)
    requires Phantom(f, i, c, t)
    ensures c != f.hdr && t != f.hdr && t != c
    ensures Promoted(f, i, c, t).Ok()
    ensures var g := Promoted(f, i, c, t);
      && g.hdr == f.hdr && g.nodes == f.nodes - {c} && g.msgs == f.msgs
      && g.kids == f.kids[f.hdr := f.kids[f.hdr][i := t]][t := f.kids[t] + f.kids[c][1..]] - {c}
  {
    hide Forest.KidsOk, Forest.PlacesOk, Forest.ListsOk, Forest.Detach, Forest.Attach;
    PromotedHalf(f, i, c, t);
    var g, r := f.Detach(c, 0).Attach(f.hdr, i + 1, t), f.kids[f.hdr];
    assert InsertAt(r, i + 1, t)[i] == c && InsertAt(r, i + 1, t)[i + 1] == t;
    MergeOk(g, i, t);
    assert DropAt(InsertAt(r, i + 1, t), i) == r[i := t];
  }

  lemma PhantomFacts(f: Forest, i: nat, c: Node, t: Node)
    requires Phantom(f, i, c, t)
    ensures c != f.hdr && t != f.hdr && t != c && f.anc[c] == [] && f.anc[t] == [c]
  {
    assert f.Holds(f.hdr, c) && f.Holds(c, t);
    NotOwnAncestor(f, t);
  }

  /** Who is whose parent afterwards. */
  lemma PromotedParents(f: Forest, i: nat, c: Node, t: Node)
    requires Phantom(f, i, c, t)
    requires Promoted(f, i, c, t).Ok() && Promoted(f, i, c, t).hdr == f.hdr && Promoted(f, i, c, t).nodes == f.nodes - {c}
    requires Promoted(f, i, c, t).kids == f.kids[f.hdr := f.kids[f.hdr][i := t]][t := f.kids[t] + f.kids[c][1..]] - {c}
    requires c != f.hdr && t != f.hdr && t != c
    ensures var g := Promoted(f, i, c, t);
      && g.Rooted() && g.anc[t] == []
      && forall n | n in g.nodes && n != t :: ParentIn(g, n) == if n in f.kids[c] then t else ParentIn(f, n)
  {
    var g := Promoted(f, i, c, t);
    var r := f.kids[f.hdr];
    assert f.Holds(f.hdr, c) && f.Holds(c, t);
    assert g.kids[f.hdr][i] == t;
    assert g.Holds(f.hdr, t);
    forall n | n in g.nodes && n != t
      ensures ParentIn(g, n) == if n in f.kids[c] then t else ParentIn(f, n)
      ensures g.anc[n] == [] ==> n in g.kids[f.hdr]
    {
      if n in f.kids[c] {
        assert n in f.kids[c][1..];
        assert g.Holds(t, n);
      } else if f.anc[n] == [] {
        assert n in r;
        var j := IndexOf(r, n);
        assert g.kids[f.hdr][j] == n;
        assert g.Holds(f.hdr, n);
      } else {
        var p := f.anc[n][0];
        assert f.Placed(n) && f.Holds(p, n);
        assert g.Holds(p, n);
      }
    }
  }

  // ---------------------------------------------------------------- the pointers

  /** The entry behind `last` in the root list gives its place to `t`. */
  method ReplaceOne(hdr: Node, last: Node?, c: Node, t: Node, ghost r: seq<Node>, ghost i: nat)
    requires ListAt(hdr.child, r) && NoDup(r) && i < |r| && c == r[i] && t !in r
    requires last == if i == 0 then null else r[i - 1]
    modifies hdr`child, Cell(last)`next, t`next
    ensures ListAt(hdr.child, r[i := t])
  {
    ghost var s := r[i := t];
    assert last != null ==> last in r;
    assert c.next == After(r, i + 1);
    if last == null { hdr.child := t; } else { last.next := t; }
    t.next := c.next;
    assert forall j :: 0 <= j < |r| && j + 1 != i ==> r[j] in r && r[j].next == old(r[j].next);
    forall j | 0 <= j < |s| ensures s[j].next == After(s, j + 1) {
      if j != i { assert s[j] == r[j]; }
    }
  }

  /** newtop takes the place of the pseudo node, whose other children go behind newtop's. */
  method PromoteThree(hdr: Node, last: Node?, c: Node, t: Node, ghost r: seq<Node>, ghost i: nat, ghost u: seq<Node>, ghost v: seq<Node>)
    requires ListAt(hdr.child, r) && ListAt(c.child, v) && ListAt(t.child, u) && v != [] && v[0] == t
    requires NoDup(r) && NoDup(u) && NoDup(v) && i < |r| && c == r[i] && last == if i == 0 then null else r[i - 1]
    requires hdr != t && c != t && hdr != c
    requires (forall k | k in v :: k !in r && k !in u) && forall k | k in u :: k !in r
    modifies hdr`child, Cell(last)`next, t`child, t`next, u`next
    ensures ListAt(hdr.child, r[i := t]) && ListAt(t.child, u + v[1..])
  {
    hide ListAt, NoDup;
    ghost var rest := v[1..];
    Tail(c.child, v);
    TailApart(v);
    assert last != null ==> last in r;
    AppendOne(t, t.next, u, rest);
    assert hdr.child == old(hdr.child) && forall k | k in r :: k.next == old(k.next);
    assert ListAt(hdr.child, r);
    label Appended:
    ReplaceOne(hdr, last, c, t, r, i);
    assert forall k | k in u + rest :: (k in u || k in rest) && k.next == old@Appended(k.next);
    assert t.child == old@Appended(t.child);
    assert ListAt(t.child, u + rest);
  }

  lemma TailApart<T>(v: seq<T>)
    requires v != [] && NoDup(v)
    ensures v[0] in v && v[0] !in v[1..] && forall k | k in v[1..] :: k in v
  {
  }

  lemma Tail(first: Node?, s: seq<Node>)
    requires s != [] && ListAt(first, s)
    ensures first == s[0] && ListAt(s[0].next, s[1..])
  {
    assert s[0].next == After(s, 1);
    forall i | 0 <= i < |s[1..]| ensures s[1..][i].next == After(s[1..], i + 1) {
      assert s[i + 1].next == After(s, i + 2);
    }
  }

  /** Every node of the list gets the new parent. */
  method SetParents(first: Node?, up: Node, ghost s: seq<Node>)
    requires ListAt(first, s)
    modifies s`parent
    ensures forall n | n in s :: n.parent == up
  {
    var scan := first;
    ghost var k := 0;
    while scan != null
      invariant k <= |s| && scan == After(s, k)
      invariant forall j | 0 <= j < k :: s[j].parent == up
      decreases |s| - k
    {
      assert s[k].next == After(s, k + 1);
      scan.parent := up;
      scan := scan.next;
      k := k + 1;
    }
  }

  ghost predicate Disjoint3(kids: map<Node, seq<Node>>, hdr: Node, c: Node, t: Node, last: Node?) {
    && hdr in kids && c in kids && t in kids && hdr != t && c != t && hdr != c
    && NoDup(kids[hdr]) && NoDup(kids[c]) && NoDup(kids[t])
    && (forall k | k in kids[t] :: OnlyIn(kids, t, k))
    && (forall k | k in kids[c] :: OnlyIn(kids, c, k))
    && (last != null ==> OnlyIn(kids, hdr, last))
  }

  method PromoteLists(hdr: Node, ghost nodes: set<Node>, ghost kids: map<Node, seq<Node>>,
                      ghost i: nat, last: Node?, c: Node, t: Node)
    requires Lists(hdr, nodes, kids) && Disjoint3(kids, hdr, c, t, last)
    requires i < |kids[hdr]| && c == kids[hdr][i] && last == if i == 0 then null else kids[hdr][i - 1]
    requires kids[c] != [] && t == kids[c][0]
    modifies hdr`child, Cell(last)`next, t`child, t`next, t`parent, kids[t]`next, kids[c]`parent
    ensures Lists(hdr, nodes, kids[hdr := kids[hdr][i := t]][t := kids[t] + kids[c][1..]] - {c})
    ensures t.parent == null && forall n | n in kids[c][1..] :: n.parent == t
  {
    hide NoDup, ListAt;
    ghost var kids' := kids[hdr := kids[hdr][i := t]][t := kids[t] + kids[c][1..]] - {c};
    assert ListOf(kids, hdr) && ListOf(kids, c) && ListOf(kids, t);
    assert KidsKnown(nodes, kids, hdr) && KidsKnown(nodes, kids, c) && KidsKnown(nodes, kids, t);
    Tail(c.child, kids[c]);
    TailApart(kids[c]);
    t.parent := null;
    SetParents(t.next, t, kids[c][1..]);
    PromoteThree(hdr, last, c, t, kids[hdr], i, kids[t], kids[c]);
    forall p | p in kids' ensures KidsKnown(nodes, kids', p) && ListOf(kids', p) {
      assert old(ListOf(kids, p));
      if p != hdr && p != t {
        assert old(ListAt(p.child, kids[p]));
        assert forall k | k in kids[t] :: OnlyIn(kids, t, k) && k !in kids[p];
        assert t in kids[c] && OnlyIn(kids, c, t) && t !in kids[p];
        assert last != null ==> last !in kids[p];
        assert p.child == old(p.child);
        assert forall k | k in kids[p] :: k.next == old(k.next);
        assert ListAt(p.child, kids[p]);
      }
    }
  }

  // ---------------------------------------------------------------- the loop

  /** Parent pointers are exact but for children of a root without a message. */
  ghost predicate ParentsNear(f: Forest)
    requires f.Shaped()
    reads f.nodes`parent
  {
    forall n | n in f.nodes :: ParentNear(f, n)
  }

  ghost predicate ParentNear(f: Forest, n: Node)
    requires n in f.anc
    reads n`parent
  {
    n.parent == ParentIn(f, n) || (f.anc[n] != [] && f.anc[n][0] !in f.msgs)
  }

  /** The first `i` roots carry messages; the roots are in summary order. */
  ghost predicate TopState(f: Forest, ord: map<Node, nat>, i: nat, last: Node?)
    reads f.hdr`child, f.nodes`next, f.nodes`child, f.nodes`parent, f.nodes`message, f.nodes`order
  {
    && SortState(f, ord) && f.Rooted() && ParentsNear(f) && Increasing(f, ord, f.hdr)
    && SlotAt(f, f.hdr, i, last) && forall j | 0 <= j < i :: f.kids[f.hdr][j] in f.msgs
  }

  /** What the loop reads at root `i`. */
  lemma TopReads(f: Forest, ord: map<Node, nat>, i: nat, last: Node?)
    requires TopState(f, ord, i, last)
    ensures f.hdr in f.kids && i <= |f.kids[f.hdr]| && SlotNext(f.hdr, last) == After(f.kids[f.hdr], i)
    ensures i < |f.kids[f.hdr]| ==>
      var c := f.kids[f.hdr][i];
      && c in f.nodes && (c.message == null <==> c !in f.msgs)
      && (c.message == null ==> c.child != null && Phantom(f, i, c, c.child) && c.child in f.msgs)
  {
    SlotNextIs(f, f.hdr, i, last);
    if i < |f.kids[f.hdr]| {
      var c := f.kids[f.hdr][i];
      assert f.Holds(f.hdr, c);
      if c.message == null {
        assert ListOf(f.kids, c);
        RepFacts(f, f.hdr, c);
        assert f.Holds(c, f.kids[c][0]);
      }
    }
  }

  lemma PromotedTop(f: Forest, ord: map<Node, nat>, i: nat, c: Node, t: Node, g: Forest)
    requires Phantom(f, i, c, t) && EmptyRoots(f) && c !in f.msgs && t in f.msgs && Increasing(f, ord, f.hdr)
    requires g.Ok() && g.hdr == f.hdr && g.nodes == f.nodes - {c} && g.msgs == f.msgs
    requires g.kids == f.kids[f.hdr := f.kids[f.hdr][i := t]][t := f.kids[t] + f.kids[c][1..]] - {c}
    requires t != f.hdr && g.anc[t] == []
    requires forall n | n in g.nodes && n != t :: ParentIn(g, n) == if n in f.kids[c] then t else ParentIn(f, n)
    ensures EmptyRoots(g) && Increasing(g, ord, g.hdr)
  {
    forall n | n in g.nodes && n !in g.msgs ensures g.anc[n] == [] && g.kids[n] != [] {
      assert f.anc[n] == [];
      assert f.Holds(c, n) <==> n in f.kids[c];
    }
    var r, s := f.kids[f.hdr], g.kids[g.hdr];
    forall j | 0 <= j < |s| ensures s[j] in g.kids && r[j] in f.kids && Key(g, ord, s[j]) == Key(f, ord, r[j]) {
      assert f.Holds(f.hdr, r[j]) && g.Holds(g.hdr, s[j]);
      if j != i {
        assert r[j] != c by { assert NoDup(r); }
        assert f.Holds(c, t);
        if r[j] == t { OneOwner(f, f.hdr, c, t); }
      }
    }
    forall j, k | 0 <= j < k < |s| ensures s[j] in g.kids && s[k] in g.kids && Key(g, ord, s[j]) < Key(g, ord, s[k]) {
      assert Key(f, ord, r[j]) < Key(f, ord, r[k]);
    }
  }

  lemma TopDisjoint(f: Forest, i: nat, c: Node, t: Node, last: Node?)
    requires Phantom(f, i, c, t) && SlotAt(f, f.hdr, i, last)
    ensures Disjoint3(f.kids, f.hdr, c, t, last)
    ensures forall k | k in f.kids[c] || k in f.kids[t] :: k in f.nodes
    ensures last == null || last in f.nodes
  {
    PhantomFacts(f, i, c, t);
    AllOnlyIn(f, c);
    AllOnlyIn(f, t);
    AllOnlyIn(f, f.hdr);
    forall k | k in f.kids[c] || k in f.kids[t] ensures k in f.nodes {
      if k in f.kids[c] { assert f.Holds(c, k); } else { assert f.Holds(t, k); }
    }
    if last != null { assert f.Holds(f.hdr, last); }
  }

  /** The pseudo node at root `i` is replaced by its first child. */
  method PromoteNode(ghost f: Forest, ghost ord: map<Node, nat>, hdr: Node, ghost i: nat, last: Node?, c: Node, t: Node)
      returns (ghost g: Forest)
    requires TopState(f, ord, i, last) && f.hdr == hdr && hdr in f.kids && i < |f.kids[hdr]|
    requires Phantom(f, i, c, t) && c !in f.msgs && t in f.msgs && t == c.child
    modifies hdr`child, f.nodes`next, f.nodes`child, f.nodes`parent
    ensures Phantom(f, i, c, t) && c != hdr && t != hdr && g == Promoted(f, i, c, t)
    ensures TopState(g, ord, i + 1, t) && g.hdr == hdr && hdr in g.kids && g.nodes <= f.nodes && g.msgs == f.msgs
    ensures |g.kids[hdr]| == |f.kids[hdr]|
  {
    hide *;
    PromoteStart(f, ord, i, last, c, t);
    TopDisjoint(f, i, c, t, last);
    CellWithin(last, f.nodes);
    PromotedOk(f, i, c, t);
    g := Promoted(f, i, c, t);
    PromoteLists(hdr, f.nodes, f.kids, i, last, c, t);
    PromoteEnd(f, g, ord, i, c, t);
  }

  lemma CellWithin(last: Node?, nodes: set<Node>)
    requires last == null || last in nodes
    ensures Cell(last) <= nodes
  {
  }

  lemma PromoteStart(f: Forest, ord: map<Node, nat>, i: nat, last: Node?, c: Node, t: Node)
    requires TopState(f, ord, i, last) && Phantom(f, i, c, t)
    ensures Linked(f) && Lists(f.hdr, f.nodes, f.kids) && SlotAt(f, f.hdr, i, last)
    ensures c == f.kids[f.hdr][i] && last == (if i == 0 then null else f.kids[f.hdr][i - 1])
    ensures c in f.kids && f.kids[c] != [] && t == f.kids[c][0] && c in f.nodes && t in f.nodes && t in f.kids
    ensures f.hdr in f.kids && i < |f.kids[f.hdr]|
    ensures EmptyRoots(f) && Numbered(f, ord) && Increasing(f, ord, f.hdr) && f.Shaped() && NoDup(f.kids[c]) && f.Ok()
    ensures forall j | 0 <= j < i :: f.kids[f.hdr][j] in f.msgs
    ensures forall n | n in f.nodes && n in f.anc :: ParentNear(f, n)
  {
  }

  lemma PromoteEnd(f: Forest, g: Forest, ord: map<Node, nat>, i: nat, c: Node, t: Node)
    requires Phantom(f, i, c, t) && EmptyRoots(f) && c !in f.msgs && t in f.msgs && c in f.kids && f.hdr in f.kids
    requires Increasing(f, ord, f.hdr) && t in f.kids && f.kids[c] != [] && c != f.hdr && t != f.hdr && t != c
    requires i < |f.kids[f.hdr]| && c == f.kids[f.hdr][i]
    requires g == Promoted(f, i, c, t) && g.Ok() && g.hdr == f.hdr && g.nodes == f.nodes - {c} && g.msgs == f.msgs
    requires g.kids == f.kids[f.hdr := f.kids[f.hdr][i := t]][t := f.kids[t] + f.kids[c][1..]] - {c}
    requires Lists(f.hdr, f.nodes, g.kids) && Numbered(f, ord)
    requires t.parent == null && forall n | n in f.kids[c][1..] :: n.parent == t
    requires forall n | n in f.nodes && n in f.anc && n !in f.kids[c] :: ParentNear(f, n)
    requires forall j | 0 <= j < i :: f.kids[f.hdr][j] in f.msgs
    ensures TopState(g, ord, i + 1, t) && f.hdr in g.kids && |g.kids[f.hdr]| == |f.kids[f.hdr]|
  {
    hide Forest.Ok, Promoted, Linked, Lists, Numbered, EmptyRoots, Increasing, ParentIn, ParentsNear, Phantom;
    PromotedParents(f, i, c, t);
    PromotedTop(f, ord, i, c, t, g);
    LinkedAmong(g, f.nodes);
    PhantomLives(f, i, c, t);
    OkIsShaped(g);
    NearAfter(f, g, i, c, t);
    NumberedFewer(f, g, ord, c);
    assert g.kids[f.hdr] == f.kids[f.hdr][i := t];
  }

  lemma OkIsShaped(f: Forest)
    requires f.Ok()
    ensures f.Shaped()
  {
  }

  lemma PhantomLives(f: Forest, i: nat, c: Node, t: Node)
    requires Phantom(f, i, c, t) && t != c
    ensures f.Shaped() && t in f.nodes - {c} && f.Ok()
  {
  }

  lemma NumberedFewer(f: Forest, g: Forest, ord: map<Node, nat>, c: Node)
    requires Numbered(f, ord) && c !in f.msgs && g.nodes == f.nodes - {c} && g.msgs == f.msgs
    ensures Numbered(g, ord)
  {
  }

  lemma NearAfter(f: Forest, g: Forest, i: nat, c: Node, t: Node)
    requires Phantom(f, i, c, t) && g.Shaped() && g.nodes == f.nodes - {c} && g.msgs == f.msgs
    requires t in g.nodes && g.anc[t] == []
    requires forall n | n in g.nodes && n != t :: ParentIn(g, n) == if n in f.kids[c] then t else ParentIn(f, n)
    requires t.parent == null && forall n | n in f.kids[c][1..] :: n.parent == t
    requires forall n | n in f.nodes && n in f.anc && n !in f.kids[c] :: ParentNear(f, n)
    ensures ParentsNear(g)
  {
    forall n | n in g.nodes ensures ParentNear(g, n) {
      if n == t {
      } else if n in f.kids[c] {
        assert n in f.kids[c][1..];
      } else {
        assert ParentNear(f, n);
      }
    }
  }

  /** One turn of the loop, at root `i`. */
  ghost predicate TopStep(f: Forest, g: Forest, i: nat) {
    && f.hdr in f.kids && i < |f.kids[f.hdr]|
    && var c := f.kids[f.hdr][i];
    if c in f.msgs then g == f
    else
      && c in f.kids && f.kids[c] != []
      && var t := f.kids[c][0]; Phantom(f, i, c, t) && c != f.hdr && t != f.hdr && t in f.msgs && g == Promoted(f, i, c, t)
  }

  /** The turns of the loop, one for each root. */
  ghost predicate TopRun(tops: seq<Forest>) {
    tops != [] && forall i | 0 <= i < |tops| - 1 :: TopStep(tops[i], tops[i + 1], i)
  }

  /** No pseudo nodes are left: the nodes are those with a message, the roots are in summary
      order, and every parent pointer is exact. */
  ghost predicate Topped(f: Forest, ord: map<Node, nat>)
    reads f.hdr`child, f.nodes`next, f.nodes`child, f.nodes`parent, f.nodes`message, f.nodes`order
  {
    && f.Ok() && f.Rooted() && Linked(f) && ParentsExact(f) && Numbered(f, ord)
    && f.nodes == f.msgs && Increasing(f, ord, f.hdr)
  }

  lemma TopEnd(f: Forest, ord: map<Node, nat>, i: nat, last: Node?)
    requires TopState(f, ord, i, last) && i == |f.kids[f.hdr]|
    ensures Topped(f, ord)
  {
    assert forall n | n in f.kids[f.hdr] :: n in f.msgs;
    forall n | n in f.nodes ensures n.parent == ParentIn(f, n) {
      assert ParentNear(f, n);
      if f.anc[n] != [] { assert f.Placed(n); }
    }
  }

  lemma TopBegin(f: Forest, ord: map<Node, nat>)
    requires SortState(f, ord) && f.Shaped() && f.Rooted() && ParentsNear(f) && Increasing(f, ord, f.hdr)
    ensures TopState(f, ord, 0, null) && f.hdr in f.kids
  {
  }

  lemma TopKept(f: Forest, ord: map<Node, nat>, i: nat, last: Node?, c: Node)
    requires TopState(f, ord, i, last) && i < |f.kids[f.hdr]| && c == f.kids[f.hdr][i] && c in f.msgs
    ensures TopState(f, ord, i + 1, c)
  {
  }

  lemma TopTurn(tops: seq<Forest>, f: Forest, g: Forest, i: nat)
    requires TopRun(tops) && |tops| == i + 1 && tops[i] == f && TopStep(f, g, i)
    ensures TopRun(tops + [g])
  {
  }

  lemma StepOfPhantom(f: Forest, i: nat, c: Node, t: Node)
    requires Phantom(f, i, c, t) && c !in f.msgs && t in f.msgs && c != f.hdr && t != f.hdr
    ensures TopStep(f, Promoted(f, i, c, t), i)
  {
  }

  lemma StepOfMessage(f: Forest, i: nat, c: Node)
    requires f.hdr in f.kids && i < |f.kids[f.hdr]| && c == f.kids[f.hdr][i] && c in f.msgs
    ensures TopStep(f, f, i)
  {
  }

  lemma OneTop(f: Forest)
    ensures TopRun([f])
  {
  }

  method RemovePhantoms(ghost f: Forest, ghost ord: map<Node, nat>, hdr: Node) returns (ghost tops: seq<Forest>)
    requires SortState(f, ord) && f.Shaped() && f.Rooted() && ParentsNear(f) && Increasing(f, ord, f.hdr) && f.hdr == hdr
    modifies hdr`child, f.nodes`next, f.nodes`child, f.nodes`parent
    ensures TopRun(tops) && |tops| == |f.kids[hdr]| + 1 && tops[0] == f
    ensures var g := tops[|f.kids[hdr]|]; Topped(g, ord) && g.hdr == hdr && g.nodes <= f.nodes && g.msgs == f.msgs
  {
    hide *;
    TopBegin(f, ord);
    ghost var g := f;
    tops := [f];
    OneTop(f);
    var c: Node? := null;
    ghost var i := 0;
    TopReads(g, ord, 0, null);
    while SlotNext(hdr, c) != null
      invariant TopState(g, ord, i, c) && g.hdr == hdr && hdr in g.kids && |g.kids[hdr]| == |f.kids[hdr]|
      invariant g.nodes <= f.nodes && g.msgs == f.msgs
      invariant i <= |g.kids[hdr]| && SlotNext(hdr, c) == After(g.kids[hdr], i)
      invariant |tops| == i + 1 && TopRun(tops) && tops[0] == f && tops[i] == g
      decreases |f.kids[hdr]| - i
    {
      AfterIs(g.kids[hdr], i);
      TopReads(g, ord, i, c);
      var child := SlotNext(hdr, c);
      ghost var h := g;
      if child.message == null {
        var newtop := child.child;
        g := PromoteNode(h, ord, hdr, i, c, child, newtop);
        StepOfPhantom(h, i, child, newtop);
        c := newtop;
      } else {
        StepOfMessage(h, i, child);
        TopKept(h, ord, i, c, child);
        c := child;
      }
      TopTurn(tops, h, g, i);
      tops := tops + [g];
      i := i + 1;
      TopReads(g, ord, i, c);
    }
    AfterIs(g.kids[hdr], i);
    TopEnd(g, ord, i, c);
  }
}
