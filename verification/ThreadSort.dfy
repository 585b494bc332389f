/** The fourth phase of threading: every sibling list is put in summary order. */
module ThreadSort {
  import opened SeqFacts
  import opened ThreadForest
  import opened ThreadLinks

  // ---------------------------------------------------------------- qsort with sort_node

  /** A node without a message is sorted by its first child. */
  predicate Sortable(n: Node)
    reads n`message, n`child
  {
    n.message != null || n.child != null
  }

  function SortKey(n: Node): nat
    requires Sortable(n)
    reads n`message, n`child, n`order, if n.child == null then {} else {n.child}
  {
    if n.message == null then n.child.order else n.order
  }

  /** sort_node */
  function Compare(a: Node, b: Node): int
    requires Sortable(a) && Sortable(b)
    reads a, b, if a.child == null then {} else {a.child}, if b.child == null then {} else {b.child}
  {
    if SortKey(a) == SortKey(b) then 0 else if SortKey(a) < SortKey(b) then -1 else 1
  }

  ghost predicate Keyed(s: seq<Node>, key: map<Node, nat>)
    reads set n | n in s :: n, set n | n in s && n.child != null :: n.child
  {
    forall n | n in s :: Sortable(n) && n in key && key[n] == SortKey(n)
  }

  ghost predicate Ordered(s: seq<Node>, key: map<Node, nat>) {
    (forall n | n in s :: n in key) && forall i, j | 0 <= i < j < |s| :: key[s[i]] <= key[s[j]]
  }

  method InsertOrdered(s: seq<Node>, x: Node, ghost key: map<Node, nat>) returns (t: seq<Node>)
    requires Keyed(s, key) && Keyed([x], key) && Ordered(s, key)
    ensures Keyed(t, key) && Ordered(t, key) && multiset(t) == multiset(s) + multiset{x}
  {
    hide Ordered;
    var k := |s|;
    while k > 0 && Above(s[k - 1], x, s, key)
      invariant 0 <= k <= |s|
      invariant forall j | k <= j < |s| :: s[j] in key && x in key && key[x] <= key[s[j]]
    {
      k := k - 1;
    }
    t := s[..k] + [x] + s[k..];
    InsertedOrdered(s, x, k, key);
    InsertedKeyed(s, x, k, key);
  }

  /** The comparison of qsort, whose result is that of the keys. */
  predicate Above(y: Node, x: Node, ghost s: seq<Node>, ghost key: map<Node, nat>)
    requires Keyed(s, key) && Keyed([x], key) && y in s
    reads set n | n in s :: n, set n | n in s && n.child != null :: n.child, x, if x.child == null then {} else {x.child}
    ensures x in key && y in key && (Above(y, x, s, key) <==> key[y] > key[x])
  {
    assert x in [x];
    Compare(y, x) > 0
  }

  lemma InsertedOrdered(s: seq<Node>, x: Node, k: nat, key: map<Node, nat>)
    requires Ordered(s, key) && x in key && k <= |s|
    requires k == 0 || (s[k - 1] in key && key[s[k - 1]] <= key[x])
    requires forall j | k <= j < |s| :: s[j] in key && key[x] <= key[s[j]]
    ensures Ordered(s[..k] + [x] + s[k..], key)
    ensures multiset(s[..k] + [x] + s[k..]) == multiset(s) + multiset{x}
  {
    var t := s[..k] + [x] + s[k..];
    assert s == s[..k] + s[k..];
    forall i, j | 0 <= i < j < |t| ensures key[t[i]] <= key[t[j]] {
      assert t[i] == if i < k then s[i] else if i == k then x else s[i - 1];
      assert t[j] == if j < k then s[j] else if j == k then x else s[j - 1];
    }
  }

  lemma InsertedKeyed(s: seq<Node>, x: Node, k: nat, key: map<Node, nat>)
    requires Keyed(s, key) && Keyed([x], key) && k <= |s|
    ensures Keyed(s[..k] + [x] + s[k..], key)
  {
    assert x in [x];
  }

  /** The C library's qsort, here by insertion: what matters is that the result is in order and
      holds the same nodes. */
  method QSort(a: array<Node>, ghost key: map<Node, nat>)
    requires Keyed(a[..], key)
    modifies a
    ensures multiset(a[..]) == multiset(old(a[..])) && Ordered(a[..], key)
  {
    ghost var before := a[..];
    var s: seq<Node> := [];
    var i := 0;
    while i < a.Length
      invariant 0 <= i <= a.Length && a[..] == before
      invariant multiset(s) == multiset(before[..i]) && Keyed(s, key) && Ordered(s, key)
    {
      assert before[..i + 1] == before[..i] + [before[i]];
      assert a[i] in before;
      s := InsertOrdered(s, a[i], key);
      i := i + 1;
    }
    assert before[..i] == before;
    assert |s| == |multiset(s)| == |before|;
    i := 0;
    while i < a.Length
      invariant 0 <= i <= a.Length && a[..i] == s[..i]
    {
      a[i] := s[i];
      i := i + 1;
    }
    assert a[..] == s;
  }

  // ---------------------------------------------------------------- what sorting does

  lemma NoDupByCount<T>(s: seq<T>, t: seq<T>)
    requires NoDup(s) && multiset(t) == multiset(s)
    ensures NoDup(t) && |t| == |s|
    ensures forall x :: x in t <==> x in s
  {
    assert |multiset(t)| == |multiset(s)|;
    forall x ensures x in t <==> x in s { assert x in t <==> x in multiset(t); }
    forall x ensures multiset(s)[x] <= 1 { CountOnce(s, x); }
    forall i, j | 0 <= i < j < |t| ensures t[i] != t[j] {
      assert t == t[..j] + t[j..] && t[i] in t[..j] && t[j] in t[j..];
      assert multiset(t)[t[j]] == multiset(t[..j])[t[j]] + multiset(t[j..])[t[j]];
    }
  }

  lemma {:induction false} CountOnce<T>(s: seq<T>, x: T)
    requires NoDup(s)
    ensures multiset(s)[x] <= 1
  {
    if s != [] {
      CountOnce(s[1..], x);
      assert s == [s[0]] + s[1..];
      if s[0] == x { assert x !in s[1..]; }
    }
  }

  /** `g` is `f` with the child lists of `o` and of the nodes below it rearranged. */
  ghost predicate Resorting(f: Forest, g: Forest, o: Node) {
    && f.Shaped() && g.kids.Keys == f.kids.Keys && g == f.(kids := g.kids)
    && (forall p | p in f.kids :: multiset(g.kids[p]) == multiset(f.kids[p]))
    && (forall p | p in f.kids && p != o && p !in f.Under(o) :: g.kids[p] == f.kids[p])
  }

  lemma ResortingOk(f: Forest, g: Forest, o: Node)
    requires f.Ok() && Resorting(f, g, o)
    ensures g.Ok() && (f.Rooted() ==> g.Rooted())
    ensures forall p, k | p in f.kids :: k in g.kids[p] <==> k in f.kids[p]
  {
    forall p | p in f.kids ensures NoDup(g.kids[p]) && forall k :: k in g.kids[p] <==> k in f.kids[p] {
      NoDupByCount(f.kids[p], g.kids[p]);
    }
    assert g.KidsOk() by {
      forall p, k | p in g.kids && k in g.kids[p] ensures g.KidOk(p, k) { assert f.Holds(p, k); }
    }
    assert g.PlacesOk() by {
      forall n | n in g.nodes && g.anc[n] != [] ensures g.Placed(n) { assert f.Placed(n); }
    }
  }

  /** Nodes without a message are roots and have children. */
  ghost predicate EmptyRoots(f: Forest)
    requires f.Shaped()
  {
    forall n | n in f.nodes && n !in f.msgs :: f.anc[n] == [] && f.kids[n] != []
  }

  ghost predicate DistinctOrders(f: Forest, ord: map<Node, nat>) {
    && (forall n | n in f.msgs :: n in ord)
    && forall a, b | a in f.msgs && b in f.msgs && a != b :: ord[a] != ord[b]
  }

  /** The node whose order counts for `n`. */
  ghost function Rep(f: Forest, n: Node): Node
    requires n in f.kids
  {
    if n in f.msgs || f.kids[n] == [] then n else f.kids[n][0]
  }

  ghost function Key(f: Forest, ord: map<Node, nat>, n: Node): nat
    requires n in f.kids
  {
    if Rep(f, n) in ord then ord[Rep(f, n)] else 0
  }

  /** The child list of `o` is strictly increasing in summary order. */
  ghost predicate Increasing(f: Forest, ord: map<Node, nat>, o: Node)
    requires o in f.kids
  {
    forall i, j | 0 <= i < j < |f.kids[o]| ::
      f.kids[o][i] in f.kids && f.kids[o][j] in f.kids && Key(f, ord, f.kids[o][i]) < Key(f, ord, f.kids[o][j])
  }

  /** Two siblings never have the same key. */
  lemma KeysDiffer(f: Forest, ord: map<Node, nat>, o: Node, a: Node, b: Node)
    requires f.Ok() && EmptyRoots(f) && DistinctOrders(f, ord) && f.Holds(o, a) && f.Holds(o, b) && a != b
    ensures a in f.kids && b in f.kids && Rep(f, a) in ord && Rep(f, b) in ord
    ensures Key(f, ord, a) != Key(f, ord, b)
  {
    RepFacts(f, o, a);
    RepFacts(f, o, b);
    if Rep(f, a) == Rep(f, b) {
      var r := Rep(f, a);
      var p, q := if r == a then o else a, if r == b then o else b;
      OneOwner(f, p, q, r);
      NotOwnAncestor(f, a);
      NotOwnAncestor(f, b);
      assert false;
    }
  }

  lemma RepFacts(f: Forest, o: Node, a: Node)
    requires f.Ok() && EmptyRoots(f) && f.Holds(o, a)
    ensures a in f.nodes && a in f.kids && Rep(f, a) in f.msgs
    ensures f.Holds(if Rep(f, a) == a then o else a, Rep(f, a))
  {
    if a !in f.msgs {
      assert f.Holds(a, f.kids[a][0]);
    }
  }

  // ---------------------------------------------------------------- sort_thread

  /** head = last; each earlier entry is linked in front of it. */
  method RelinkOne(o: Node, a: array<Node>)
    requires a.Length > 0 && NoDup(a[..])
    modifies o`child, a[..]`next
    ensures ListAt(o.child, a[..]) && a[..] == old(a[..])
  {
    ghost var s := a[..];
    var size := a.Length - 1;
    var head := a[size];
    head.next := null;
    assert s[size..] == [head];
    while size > 0
      invariant 0 <= size < a.Length && a[..] == s && ListAt(head, s[size..])
    {
      size := size - 1;
      assert a[size] == s[size];
      var c := s[size];
      assert s[size..] == [c] + s[size + 1..];
      assert c !in s[size + 1..] by { PrefixApart(s, size); }
      a[size].next := head;
      assert ListAt(head, s[size + 1..]);
      assert ListAt(c, s[size..]) by { ConsList(c, head, s[size + 1..]); }
      head := a[size];
    }
    o.child := head;
    assert s[0..] == s;
  }

  lemma PrefixApart<T>(s: seq<T>, i: nat)
    requires NoDup(s) && i < |s|
    ensures s[i] !in s[i + 1..]
  {
  }

  lemma ConsList(c: Node, head: Node?, s: seq<Node>)
    requires c.next == head && ListAt(head, s)
    ensures ListAt(c, [c] + s)
  {
    var t := [c] + s;
    forall i | 0 <= i < |t| ensures t[i].next == After(t, i + 1) {
      if i > 0 { assert t[i] == s[i - 1]; }
    }
  }

  /** The messages and orders of the nodes. */
  ghost predicate Numbered(f: Forest, ord: map<Node, nat>)
    reads f.nodes`message, f.nodes`order
  {
    f.msgs <= f.nodes && DistinctOrders(f, ord)
    && forall n | n in f.nodes :: (n in f.msgs <==> n.message != null) && (n in f.msgs ==> n in ord && n.order == ord[n])
  }

  ghost predicate SortState(f: Forest, ord: map<Node, nat>)
    reads f.hdr`child, f.nodes`next, f.nodes`child, f.nodes`message, f.nodes`order
  {
    f.Ok() && Linked(f) && EmptyRoots(f) && Numbered(f, ord)
  }

  ghost function Keys(f: Forest, ord: map<Node, nat>, s: seq<Node>): map<Node, nat>
    requires forall n | n in s :: n in f.kids
  {
    map n | n in s :: Key(f, ord, n)
  }

  lemma KeysAreRead(f: Forest, ord: map<Node, nat>, o: Node)
    requires SortState(f, ord) && o in f.kids
    ensures forall n | n in f.kids[o] :: n in f.kids && n in f.nodes
    ensures Keyed(f.kids[o], Keys(f, ord, f.kids[o]))
  {
    forall n | n in f.kids[o] ensures n in f.kids && n in f.nodes { assert f.Holds(o, n); }
    forall n | n in f.kids[o] ensures Sortable(n) && SortKey(n) == Key(f, ord, n) {
      assert f.Holds(o, n);
      RepFacts(f, o, n);
      if n !in f.msgs {
        assert ListOf(f.kids, n);
      }
    }
  }

  /** The rearranged forest, once the list of `o` is `s`. */
  ghost function WithList(f: Forest, o: Node, s: seq<Node>): Forest {
    f.(kids := f.kids[o := s])
  }

  lemma WithListFacts(f: Forest, ord: map<Node, nat>, o: Node, s: seq<Node>)
    requires f.Ok() && EmptyRoots(f) && DistinctOrders(f, ord) && o in f.kids && multiset(s) == multiset(f.kids[o])
    requires forall n | n in f.kids[o] :: n in f.kids
    requires Ordered(s, Keys(f, ord, f.kids[o]))
    ensures var g := WithList(f, o, s);
      && Resorting(f, g, o) && g.Ok() && EmptyRoots(g) && Increasing(g, ord, o) && NoDup(s) && |s| == |f.kids[o]|
  {
    var g := WithList(f, o, s);
    ResortingOk(f, g, o);
    NoDupByCount(f.kids[o], s);
    forall i, j | 0 <= i < j < |s|
      ensures s[i] in g.kids && s[j] in g.kids && Key(g, ord, s[i]) < Key(g, ord, s[j])
    {
      assert s[i] in f.kids[o] && s[j] in f.kids[o];
      assert f.Holds(o, s[i]) && f.Holds(o, s[j]);
      KeysDiffer(f, ord, o, s[i], s[j]);
      NotOwnAncestor(f, s[i]);
      NotOwnAncestor(f, s[j]);
      assert s[i] != o && s[j] != o;
    }
  }

  method Gather(o: Node, size: nat, ghost s: seq<Node>) returns (a: array<Node>)
    requires ListAt(o.child, s) && size == |s|
    ensures fresh(a) && a[..] == s
  {
    a := new Node[size](_ => o);
    var c := o.child;
    var k := 0;
    while c != null
      invariant 0 <= k <= size && c == After(s, k) && a[..k] == s[..k]
      decreases size - k
    {
      assert s[k].next == After(s, k + 1);
      a[k] := c;
      c := c.next;
      k := k + 1;
    }
  }

  method RelinkIn(ghost hdr: Node, ghost nodes: set<Node>, ghost kids: map<Node, seq<Node>>, o: Node, a: array<Node>)
    requires Lists(hdr, nodes, kids) && o in kids && a.Length > 0 && NoDup(a[..])
    requires forall n :: n in a[..] <==> n in kids[o]
    requires forall n | n in kids[o] :: OnlyIn(kids, o, n)
    modifies o`child, a[..]`next
    ensures Lists(hdr, nodes, kids[o := a[..]]) && a[..] == old(a[..])
  {
    hide NoDup, ListAt;
    assert ListOf(kids, o);
    ghost var s, after := a[..], kids[o := a[..]];
    RelinkOne(o, a);
    forall p | p in after ensures KidsKnown(nodes, after, p) && ListOf(after, p) {
      assert old(ListOf(kids, p));
      if p != o {
        assert old(ListAt(p.child, kids[p]));
        assert forall k | k in kids[o] :: OnlyIn(kids, o, k) && k !in kids[p];
        assert p.child == old(p.child);
        assert forall k | k in kids[p] :: k.next == old(k.next);
        assert ListAt(p.child, kids[p]);
      }
    }
  }

  // ---------------------------------------------------------------- the recursion

  /** Two siblings have nothing below them in common. */
  lemma SiblingsApart(f: Forest, o: Node, a: Node, c: Node, p: Node)
    requires f.Ok() && f.Holds(o, a) && f.Holds(o, c) && a != c
    requires p in f.nodes && (p == a || a in f.anc[p])
    ensures p != c && c !in f.anc[p]
  {
    NotOwnAncestor(f, a);
    NotOwnAncestor(f, c);
    if c in f.anc[p] {
      var j := IndexOf(f.anc[p], c);
      AncestorLine(f, p, j);
      if p != a {
        var i := IndexOf(f.anc[p], a);
        AncestorLine(f, p, i);
      }
    }
  }

  ghost predicate AtOrBelow(f: Forest, c: Node, p: Node) {
    p in f.nodes && p in f.anc && (p == c || c in f.anc[p])
  }

  /** The lists at and below the first `k` children of `o` are in order. */
  ghost predicate SortedTo(f: Forest, g: Forest, ord: map<Node, nat>, o: Node, k: nat) {
    && o in f.kids && o in g.kids && Resorting(f, g, o) && g.kids[o] == f.kids[o] && k <= |f.kids[o]|
    && forall j, p | 0 <= j < k && p in f.nodes && AtOrBelow(f, f.kids[o][j], p) :: p in g.kids && Increasing(g, ord, p)
  }

  /** Rearranging elsewhere leaves the order of the list of a node. */
  lemma IncreasingKept(f: Forest, g: Forest, ord: map<Node, nat>, p: Node)
    requires f.Ok() && EmptyRoots(f) && p in f.nodes && p in g.kids && g.kids[p] == f.kids[p]
    requires g.msgs == f.msgs && g.kids.Keys == f.kids.Keys && Increasing(f, ord, p)
    ensures Increasing(g, ord, p)
  {
    forall n | n in f.kids[p] ensures n in f.msgs { assert f.Holds(p, n); }
    forall i, j | 0 <= i < j < |g.kids[p]|
      ensures g.kids[p][i] in g.kids && g.kids[p][j] in g.kids && Key(g, ord, g.kids[p][i]) < Key(g, ord, g.kids[p][j])
    {
      assert f.kids[p][i] in f.kids[p] && f.kids[p][j] in f.kids[p];
      assert Key(f, ord, f.kids[p][i]) < Key(f, ord, f.kids[p][j]);
    }
  }

  lemma ResortingTrans(f: Forest, g: Forest, h: Forest, o: Node, c: Node)
    requires f.Ok() && Resorting(f, g, o) && Resorting(g, h, c) && (c == o || f.Holds(o, c))
    ensures Resorting(f, h, o)
  {
    if c != o {
      assert c in f.Under(o);
      forall p | p in g.Under(c) ensures p in f.Under(o) { if o != f.hdr { AncestorTrans(f, p, c, o); } }
    }
  }

  lemma SortedNext(f: Forest, g: Forest, h: Forest, ord: map<Node, nat>, o: Node, k: nat)
    requires f.Ok() && EmptyRoots(f) && SortedTo(f, g, ord, o, k) && k < |f.kids[o]| && g.Ok() && EmptyRoots(g)
    requires f.kids[o][k] in f.nodes && Resorting(g, h, f.kids[o][k])
    requires forall p | p == f.kids[o][k] || p in g.Under(f.kids[o][k]) :: p in h.kids && Increasing(h, ord, p)
    ensures SortedTo(f, h, ord, o, k + 1)
  {
    var c := f.kids[o][k];
    assert f.Holds(o, c);
    NotOwnAncestor(f, c);
    ResortingTrans(f, g, h, o, c);
    assert o != c && o !in g.Under(c);
    forall j, p | 0 <= j < k + 1 && p in f.nodes && AtOrBelow(f, f.kids[o][j], p)
      ensures p in h.kids && Increasing(h, ord, p)
    {
      if j < k {
        var a := f.kids[o][j];
        assert f.Holds(o, a);
        SiblingsApart(f, o, a, c, p);
        IncreasingKept(g, h, ord, p);
      }
    }
  }

  /** After all children, only the list of `o` itself is left to be sorted. */
  lemma SortedBelow(f: Forest, g: Forest, ord: map<Node, nat>, o: Node)
    requires f.Ok() && f.Rooted() && o in f.kids && SortedTo(f, g, ord, o, |f.kids[o]|)
    ensures forall p | p in f.Under(o) :: p in g.kids && Increasing(g, ord, p)
  {
    forall p | p in f.Under(o) ensures p in g.kids && Increasing(g, ord, p) {
      var a;
      if o == f.hdr { a := RootAbove(f, p); } else { a := ChildTowards(f, o, p); }
      assert a in f.kids[o];
      var j := IndexOf(f.kids[o], a);
      assert AtOrBelow(f, f.kids[o][j], p);
    }
  }

  /** Everything at or below `o` is in order. */
  ghost predicate SortedFrom(f: Forest, g: Forest, ord: map<Node, nat>, o: Node) {
    && f.Shaped() && Resorting(f, g, o)
    && o in g.kids && Increasing(g, ord, o) && forall p | p in f.Under(o) :: p in g.kids && Increasing(g, ord, p)
  }

  lemma ListSorted(f: Forest, g: Forest, ord: map<Node, nat>, o: Node, s: seq<Node>)
    requires f.Ok() && f.Rooted() && o in f.kids && SortedTo(f, g, ord, o, |f.kids[o]|)
    requires g.Ok() && EmptyRoots(g) && DistinctOrders(g, ord)
    requires multiset(s) == multiset(g.kids[o])
    requires forall n | n in g.kids[o] :: n in g.kids
    requires Ordered(s, Keys(g, ord, g.kids[o]))
    ensures SortedFrom(f, WithList(g, o, s), ord, o)
  {
    var h := WithList(g, o, s);
    WithListFacts(g, ord, o, s);
    SortedBelow(f, g, ord, o);
    ResortingTrans(f, g, h, o, o);
    forall p | p in f.Under(o) ensures p in h.kids && Increasing(h, ord, p) {
      if p != o { IncreasingKept(g, h, ord, p); }
    }
  }

  method SortList(ghost f: Forest, ghost ord: map<Node, nat>, o: Node, size: nat) returns (ghost g: Forest)
    requires SortState(f, ord) && o in f.kids && size == |f.kids[o]| && size > 0
    modifies o`child, f.nodes`next
    ensures SortState(g, ord) && o in g.kids && g == WithList(f, o, g.kids[o])
    ensures multiset(g.kids[o]) == multiset(f.kids[o])
    ensures forall n | n in f.kids[o] :: n in f.kids
    ensures Ordered(g.kids[o], Keys(f, ord, f.kids[o]))
  {
    hide *;
    ListStart(f, ord, o);
    var carray := Gather(o, size, f.kids[o]);
    KeysAreRead(f, ord, o);
    QSort(carray, Keys(f, ord, f.kids[o]));
    ghost var s := carray[..];
    WithListFacts(f, ord, o, s);
    NoDupByCount(f.kids[o], s);
    RelinkIn(f.hdr, f.nodes, f.kids, o, carray);
    g := WithList(f, o, s);
    ListEnd(f, g, ord, o, s);
  }

  lemma ListStart(f: Forest, ord: map<Node, nat>, o: Node)
    requires SortState(f, ord) && o in f.kids
    ensures f.Ok() && EmptyRoots(f) && DistinctOrders(f, ord) && Numbered(f, ord)
    ensures ListAt(o.child, f.kids[o]) && NoDup(f.kids[o]) && Lists(f.hdr, f.nodes, f.kids)
    ensures forall n | n in f.kids[o] :: OnlyIn(f.kids, o, n) && n in f.nodes && n in f.kids
  {
    assert ListOf(f.kids, o);
    AllOnlyIn(f, o);
    forall n | n in f.kids[o] ensures n in f.nodes { assert f.Holds(o, n); }
  }

  lemma ListEnd(f: Forest, g: Forest, ord: map<Node, nat>, o: Node, s: seq<Node>)
    requires o in f.kids && g == WithList(f, o, s) && g.Ok() && EmptyRoots(g)
    requires Lists(f.hdr, f.nodes, f.kids[o := s]) && Numbered(f, ord)
    ensures SortState(g, ord) && o in g.kids && g.kids[o] == s
  {
  }

  lemma AllOnlyIn(f: Forest, o: Node)
    requires f.Ok() && o in f.kids
    ensures forall n | n in f.kids[o] :: OnlyIn(f.kids, o, n)
  {
    forall n | n in f.kids[o] ensures OnlyIn(f.kids, o, n) { assert f.Holds(o, n); HeldOnlyIn(f, o, n); }
  }

  lemma SortStart(f: Forest, ord: map<Node, nat>, o: Node)
    requires SortState(f, ord) && f.Rooted() && o in f.kids
    ensures f.Ok() && SortedTo(f, f, ord, o, 0) && o.child == After(f.kids[o], 0)
  {
    assert ListOf(f.kids, o);
  }

  lemma SortChild(f: Forest, g: Forest, ord: map<Node, nat>, o: Node, k: nat, c: Node)
    requires SortState(g, ord) && SortedTo(f, g, ord, o, k) && o in f.kids && k < |f.kids[o]| && c == f.kids[o][k] && f.Ok()
    ensures c in g.kids && c in f.nodes && g.Under(c) < f.Under(o) && g.Ok()
    ensures c.child == null ==> SortedFrom(g, g, ord, c)
  {
    assert f.Holds(o, c);
    NotOwnAncestor(f, c);
    forall n | n in g.Under(c) ensures n in f.Under(o) { if o != f.hdr { AncestorTrans(f, n, c, o); } }
    assert c in f.Under(o);
    if c.child == null {
      assert ListOf(g.kids, c);
      assert g.kids[c] == [];
      forall n | n in g.Under(c) ensures false { var b := ChildTowards(g, c, n); }
    }
  }

  lemma ChildSorted(f: Forest, g: Forest, h: Forest, ord: map<Node, nat>, o: Node, k: nat, c: Node)
    requires f.Ok() && EmptyRoots(f) && SortedTo(f, g, ord, o, k) && o in f.kids && k < |f.kids[o]| && c == f.kids[o][k] && c in f.nodes
    requires g.Ok() && EmptyRoots(g) && g.Rooted() && SortedFrom(g, h, ord, c) && SortState(h, ord)
    ensures SortedTo(f, h, ord, o, k + 1) && h.Rooted() && c.next == After(f.kids[o], k + 1)
  {
    SortedNext(f, g, h, ord, o, k);
    ResortingOk(g, h, c);
    assert ListOf(h.kids, o);
  }

  lemma ChildrenSorted(f: Forest, g: Forest, ord: map<Node, nat>, o: Node)
    requires f.Ok() && f.Rooted() && SortState(g, ord) && o in f.kids && SortedTo(f, g, ord, o, |f.kids[o]|)
    ensures o in g.kids && g.kids[o] == f.kids[o] && g.Ok() && EmptyRoots(g) && DistinctOrders(g, ord)
    ensures |f.kids[o]| < 2 ==> SortedFrom(f, g, ord, o)
  {
    SortedBelow(f, g, ord, o);
  }

  lemma StillRooted(f: Forest, g: Forest, ord: map<Node, nat>, o: Node)
    requires f.Ok() && f.Rooted() && SortedFrom(f, g, ord, o)
    ensures g.Shaped() && g.Rooted()
  {
    ResortingOk(f, g, o);
  }

  /** sort_thread */
  method SortThread(ghost f: Forest, ghost ord: map<Node, nat>, o: Node) returns (ghost g: Forest)
    requires SortState(f, ord) && f.Rooted() && o in f.kids
    modifies o`child, f.nodes`next, f.nodes`child
    ensures SortState(g, ord) && SortedFrom(f, g, ord, o) && g.Shaped() && g.Rooted()
    ensures g.nodes == f.nodes && g.hdr == f.hdr
    decreases f.Under(o)
  {
    hide *;
    g := f;
    SortStart(f, ord, o);
    StateParts(f, ord);
    var c := o.child;
    var size := 0;
    while c != null
      invariant size <= |f.kids[o]| && c == After(f.kids[o], size)
      invariant SortState(g, ord) && g.Shaped() && g.Rooted() && SortedTo(f, g, ord, o, size) && g.nodes == f.nodes && g.hdr == f.hdr
      decreases |f.kids[o]| - size
    {
      AfterIs(f.kids[o], size);
      SortChild(f, g, ord, o, size, c);
      StateParts(g, ord);
      // the lists below come first
      ghost var h := g;
      if c.child != null {
        g := SortThread(h, ord, c);
      }
      ChildSorted(f, h, g, ord, o, size, c);
      size := size + 1;
      c := c.next;
    }
    AfterIs(f.kids[o], size);
    ChildrenSorted(f, g, ord, o);
    if size >= 2 {
      ghost var h := g;
      g := SortList(h, ord, o, size);
      ListSorted(f, h, ord, o, g.kids[o]);
      WithListShape(h, o, g.kids[o]);
    }
    StillRooted(f, g, ord, o);
  }

  lemma AfterIs(s: seq<Node>, i: nat)
    requires i <= |s|
    ensures After(s, i) == if i < |s| then s[i] else null
  {
  }

  lemma StateParts(f: Forest, ord: map<Node, nat>)
    requires SortState(f, ord)
    ensures f.Ok() && EmptyRoots(f) && f.Shaped()
  {
  }

  lemma WithListShape(f: Forest, o: Node, s: seq<Node>)
    ensures WithList(f, o, s).nodes == f.nodes && WithList(f, o, s).hdr == f.hdr
  {
  }
}
