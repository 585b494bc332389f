/** The second phase of threading: nodes without a message are removed and their children take
    their place, except for roots that hold two or more children together. */
module ThreadPrune {
  import opened SeqFacts
  import opened ThreadForest
  import opened ThreadLinks

  // ---------------------------------------------------------------- lines restricted to survivors

  lemma {:induction false} OnlyAll<T>(s: seq<T>, keep: set<T>)
    requires forall x | x in s :: x in keep
    ensures Only(s, keep) == s
  {
    if s != [] { OnlyAll(s[1..], keep); }
  }

  lemma {:induction false} OnlyMember<T>(s: seq<T>, keep: set<T>)
    ensures forall x :: x in Only(s, keep) <==> x in s && x in keep
  {
    if s != [] { OnlyMember(s[1..], keep); }
  }

  lemma {:induction false} OnlyTwice<T>(s: seq<T>, a: set<T>, b: set<T>)
    requires b <= a
    ensures Only(Only(s, a), b) == Only(s, b)
  {
    if s != [] {
      OnlyTwice(s[1..], a, b);
      if s[0] in a { assert ([s[0]] + Only(s[1..], a))[1..] == Only(s[1..], a); }
    }
  }

  lemma {:induction false} SkipIsOnly<T>(s: seq<T>, x: T, nodes: set<T>)
    requires forall y | y in s :: y in nodes
    ensures Skip(s, x) == Only(s, nodes - {x})
  {
    if s != [] { SkipIsOnly(s[1..], x, nodes); }
  }

  lemma AncestorsAreNodes(f: Forest, n: Node)
    requires f.Ok() && n in f.nodes
    ensures forall a | a in f.anc[n] :: a in f.nodes
  {
    forall a | a in f.anc[n] ensures a in f.nodes { AncestorTrans(f, n, a, a); }
  }

  // ---------------------------------------------------------------- what pruning does

  /** `g` is `f` after message-less nodes below `o` have been removed: every line is the old line
      restricted to the nodes that are left, so the ancestor relation among them is unchanged,
      and child lists elsewhere are untouched. */
  ghost predicate Pruning(f: Forest, g: Forest, o: Node) {
    && f.Ok() && g.Ok() && g.hdr == f.hdr && g.msgs == f.msgs && g.nodes <= f.nodes
    && (f.Rooted() ==> g.Rooted())
    && (forall n | n in f.nodes && n !in g.nodes :: n in f.Under(o) && n !in f.msgs)
    && (forall n | n in g.nodes :: g.anc[n] == Only(f.anc[n], g.nodes))
    && (forall p | p in f.kids && p != o && p !in f.Under(o) :: p in g.kids && g.kids[p] == f.kids[p])
  }

  lemma PruningRefl(f: Forest, o: Node)
    requires f.Ok()
    ensures Pruning(f, f, o)
  {
    forall n | n in f.nodes ensures f.anc[n] == Only(f.anc[n], f.nodes) {
      AncestorsAreNodes(f, n);
      OnlyAll(f.anc[n], f.nodes);
    }
  }

  /** Below `o` is the same thing before and after, for the nodes that are left. */
  lemma UnderAfter(f: Forest, g: Forest, o: Node, p: Node)
    requires Pruning(f, g, o) && (p == f.hdr || p in g.nodes)
    ensures g.Under(p) == f.Under(p) * g.nodes
  {
    forall n | n in g.nodes ensures p in g.anc[n] <==> p in f.anc[n] && p in g.nodes {
      OnlyMember(f.anc[n], g.nodes);
    }
  }

  lemma UnderChild(f: Forest, o: Node, c: Node)
    requires f.Ok() && f.Holds(o, c)
    ensures c in f.Under(o) && f.Under(c) < f.Under(o)
    ensures o != c
  {
    NotOwnAncestor(f, c);
    forall n | n in f.Under(c) ensures n in f.Under(o) {
      if o != f.hdr { AncestorTrans(f, n, c, o); }
    }
  }

  lemma PruningTrans(f: Forest, g: Forest, h: Forest, o: Node, c: Node)
    requires Pruning(f, g, o) && Pruning(g, h, c)
    requires o == f.hdr || o in g.nodes
    requires c == o || g.Holds(o, c)
    ensures Pruning(f, h, o)
  {
    hide Forest.KidsOk, Forest.PlacesOk, Forest.ListsOk, Forest.Rooted, Only;
    UnderBoth(f, g, o, c);
    forall n | n in h.nodes ensures h.anc[n] == Only(f.anc[n], h.nodes) {
      OnlyTwice(f.anc[n], g.nodes, h.nodes);
    }
    hide Forest.Under;
  }

  lemma UnderBoth(f: Forest, g: Forest, o: Node, c: Node)
    requires Pruning(f, g, o) && (o == f.hdr || o in g.nodes) && (c == o || g.Holds(o, c)) && g.anc.Keys == g.nodes
    ensures g.Under(c) <= g.Under(o) <= f.Under(o)
    ensures c == o || c in g.Under(o)
  {
    UnderAfter(f, g, o, o);
    if c != o { UnderChild(g, o, c); }
  }

  lemma PruningSplice(f: Forest, o: Node, i: nat)
    requires Spliceable(f, o, i) && f.kids[o][i] in f.nodes && f.kids[o][i] !in f.msgs
    ensures Pruning(f, f.Splice(o, i), o)
  {
    var g, c := f.Splice(o, i), f.kids[o][i];
    SpliceOk(f, o, i);
    assert f.Holds(o, c);
    UnderChild(f, o, c);
    forall n | n in g.nodes ensures g.anc[n] == Only(f.anc[n], g.nodes) {
      AncestorsAreNodes(f, n);
      SkipIsOnly(f.anc[n], c, f.nodes);
    }
    if f.Rooted() { SpliceRooted(f, o, i); }
  }

  lemma SpliceRooted(f: Forest, o: Node, i: nat)
    requires Spliceable(f, o, i) && f.kids[o][i] in f.nodes && f.Rooted()
    requires f.Splice(o, i).Shaped()
    ensures f.Splice(o, i).Rooted()
  {
    var g, c := f.Splice(o, i), f.kids[o][i];
    SpliceKids(f, o, i);
    forall n | n in g.nodes && g.anc[n] == [] ensures n in g.kids[g.hdr] {
      if f.anc[n] == [] {
        assert n in f.kids[f.hdr];
        assert f.Holds(o, c) && f.Holds(f.hdr, n);
      } else {
        var p := f.anc[n][0];
        assert f.Placed(n) && f.Holds(p, n) && f.anc[n] == [p] + f.anc[p];
        SkipCons(p, f.anc[p], c);
        assert p == c;
        assert f.Holds(o, c);
      }
    }
  }

  // ---------------------------------------------------------------- what is still to be visited

  /** `n` is one of `s` or below one of them. */
  ghost predicate Covers(f: Forest, s: seq<Node>, n: Node)
    requires n in f.anc
  {
    exists a | a in s :: a == n || a in f.anc[n]
  }

  lemma CoverOf(f: Forest, s: seq<Node>, n: Node) returns (a: Node)
    requires n in f.anc && Covers(f, s, n)
    ensures a in s && (a == n || a in f.anc[n])
  {
    a :| a in s && (a == n || a in f.anc[n]);
  }

  lemma CoveredBy(f: Forest, s: seq<Node>, n: Node, a: Node)
    requires n in f.anc && a in s && (a == n || a in f.anc[n])
    ensures Covers(f, s, n)
  {
  }

  /** The nodes at or below the children of `o` from position `i` on. */
  ghost function Todo(f: Forest, o: Node, i: nat): set<Node>
    requires f.Shaped() && o in f.kids && i <= |f.kids[o]|
  {
    set n | n in f.nodes && Covers(f, f.kids[o][i..], n)
  }

  /** A node that pruning leaves alone. */
  ghost predicate Settled(f: Forest, n: Node)
    requires n in f.anc && n in f.kids
  {
    n in f.msgs || (f.anc[n] == [] && |f.kids[n]| >= 2)
  }

  /** Everything below `o` that is not at or below its children from `i` on is settled. */
  ghost predicate SettledBefore(f: Forest, o: Node, i: nat)
    requires f.Shaped() && o in f.kids && i <= |f.kids[o]|
  {
    forall n | n in f.Under(o) && n !in Todo(f, o, i) :: Settled(f, n)
  }

  lemma UnderIsTodo(f: Forest, o: Node)
    requires f.Ok() && f.Rooted() && o in f.kids
    ensures f.Under(o) == Todo(f, o, 0)
  {
    assert f.kids[o][0..] == f.kids[o];
    forall n | n in f.Under(o) ensures Covers(f, f.kids[o], n) {
      if o == f.hdr {
        var a := RootAbove(f, n);
        assert a in f.kids[f.hdr];
      } else {
        var a := ChildTowards(f, o, n);
      }
    }
    forall n | n in Todo(f, o, 0) ensures n in f.Under(o) {
      var a :| a in f.kids[o] && (a == n || a in f.anc[n]);
      assert f.Holds(o, a);
      if o != f.hdr && a != n { AncestorTrans(f, n, a, o); }
    }
  }

  /** Child `i` stays: what is at or below it has been settled. */
  lemma TodoNext(f: Forest, o: Node, i: nat)
    requires f.Ok() && o in f.kids && i < |f.kids[o]|
    ensures Todo(f, o, i) == Todo(f, o, i + 1) + {f.kids[o][i]} + f.Under(f.kids[o][i])
    ensures f.kids[o][i] !in Todo(f, o, i + 1)
  {
    var c := f.kids[o][i];
    assert f.Holds(o, c);
    assert f.kids[o][i..] == [c] + f.kids[o][i + 1..];
    forall n | n in f.nodes
      ensures Covers(f, f.kids[o][i..], n) <==> Covers(f, f.kids[o][i + 1..], n) || n == c || c in f.anc[n] {
      if Covers(f, f.kids[o][i..], n) {
        var a := CoverOf(f, f.kids[o][i..], n);
        if a != c { CoveredBy(f, f.kids[o][i + 1..], n, a); }
      }
      if n == c || c in f.anc[n] { CoveredBy(f, f.kids[o][i..], n, c); }
      if Covers(f, f.kids[o][i + 1..], n) {
        var a := CoverOf(f, f.kids[o][i + 1..], n);
        CoveredBy(f, f.kids[o][i..], n, a);
      }
    }
    if Covers(f, f.kids[o][i + 1..], c) {
      var a := CoverOf(f, f.kids[o][i + 1..], c);
      NotBelowSibling(f, o, a, c);
    }
  }

  lemma NotBelowSibling(f: Forest, o: Node, a: Node, c: Node)
    requires f.Ok() && f.Holds(o, a) && f.Holds(o, c)
    ensures a in f.nodes && c in f.nodes && a !in f.anc[c]
  {
    NotOwnAncestor(f, a);
  }

  lemma NotBelowChild(f: Forest, o: Node, c: Node)
    requires f.Ok() && f.Holds(o, c)
    ensures c in f.nodes && o != c && o !in f.Under(c)
  {
    NotOwnAncestor(f, c);
  }

  /** Pruning below child `i` leaves the later children, and what is below them, to be visited. */
  lemma TodoAfterChild(f: Forest, g: Forest, o: Node, i: nat)
    requires f.Ok() && o in f.kids && i < |f.kids[o]| && Pruning(f, g, f.kids[o][i])
    ensures o in g.kids && g.kids[o] == f.kids[o] && f.kids[o][i] in g.nodes
    ensures forall j | 0 <= j <= |f.kids[o]| :: Todo(g, o, j) == Todo(f, o, j) * g.nodes
  {
    var c := f.kids[o][i];
    assert f.Holds(o, c);
    NotBelowChild(f, o, c);
    NotOwnAncestor(f, c);
    assert o in g.kids && g.kids[o] == f.kids[o];
    forall n, a | n in g.nodes && a in f.kids[o] ensures a in f.anc[n] <==> a in g.anc[n] {
      assert f.Holds(o, a);
      NotBelowSibling(f, o, c, a);
      OnlyMember(f.anc[n], g.nodes);
    }
    forall j, n | 0 <= j <= |f.kids[o]| && n in g.nodes
      ensures Covers(g, f.kids[o][j..], n) <==> Covers(f, f.kids[o][j..], n)
    {
      if Covers(f, f.kids[o][j..], n) {
        var a := CoverOf(f, f.kids[o][j..], n);
        assert a in f.kids[o];
        CoveredBy(g, f.kids[o][j..], n, a);
      }
      if Covers(g, f.kids[o][j..], n) {
        var a := CoverOf(g, f.kids[o][j..], n);
        assert a in f.kids[o];
        CoveredBy(f, f.kids[o][j..], n, a);
      }
    }
  }

  /** Replacing child `i` by its children leaves exactly the rest to be visited. */
  lemma TodoAfterSplice(f: Forest, o: Node, i: nat)
    requires Spliceable(f, o, i) && f.kids[o][i] in f.nodes && f.Splice(o, i).Ok()
    ensures Todo(f.Splice(o, i), o, i) == Todo(f, o, i) - {f.kids[o][i]}
  {
    var g, c := f.Splice(o, i), f.kids[o][i];
    assert f.Holds(o, c);
    var s, t := f.kids[o][i..], g.kids[o][i..];
    assert s == [c] + f.kids[o][i + 1..];
    assert t == Reverse(f.kids[c]) + f.kids[o][i + 1..];
    SpliceKids(f, o, i);
    NoDupReverse(f.kids[c]);
    forall n | n in g.nodes ensures Covers(g, t, n) <==> Covers(f, s, n) {
      if Covers(g, t, n) {
        var a := CoverOf(g, t, n);
        SkipMember(f.anc[n], c, a);
        if a in f.kids[c] {
          assert f.Holds(c, a);
          if a != n { AncestorTrans(f, n, a, c); }
          CoveredBy(f, s, n, c);
        } else {
          CoveredBy(f, s, n, a);
        }
      }
      if Covers(f, s, n) {
        var a := CoverOf(f, s, n);
        if a == c {
          var b := ChildTowards(f, c, n);
          assert f.Holds(c, b);
          NotBelowChild(f, c, b);
          SkipMember(f.anc[n], c, b);
          CoveredBy(g, t, n, b);
        } else {
          SkipMember(f.anc[n], c, a);
          CoveredBy(g, t, n, a);
        }
      }
    }
  }

  lemma SettledAfterChild(f: Forest, g: Forest, o: Node, i: nat)
    requires f.Ok() && o in f.kids && i < |f.kids[o]| && Pruning(f, g, f.kids[o][i])
    requires SettledBefore(f, o, i)
    ensures o in g.kids && i < |g.kids[o]| && SettledBefore(g, o, i)
  {
    var c := f.kids[o][i];
    TodoAfterChild(f, g, o, i);
    UnderAfter(f, g, c, if o == f.hdr then f.hdr else o);
    forall n | n in g.Under(o) && n !in Todo(g, o, i) ensures Settled(g, n) {
      TodoNext(f, o, i);
      assert n in f.Under(o) && n !in Todo(f, o, i);
      assert Settled(f, n);
    }
  }

  lemma SettledNext(f: Forest, o: Node, i: nat)
    requires f.Ok() && o in f.kids && i < |f.kids[o]| && SettledBefore(f, o, i)
    requires f.kids[o][i] in f.nodes && Settled(f, f.kids[o][i])
    requires forall n | n in f.Under(f.kids[o][i]) :: Settled(f, n)
    ensures SettledBefore(f, o, i + 1)
  {
    TodoNext(f, o, i);
  }

  lemma SettledSplice(f: Forest, o: Node, i: nat)
    requires Spliceable(f, o, i) && f.kids[o][i] in f.nodes && f.Splice(o, i).Ok()
    requires f.kids[o][i] !in f.msgs && SettledBefore(f, o, i)
    ensures SettledBefore(f.Splice(o, i), o, i)
  {
    var g, c := f.Splice(o, i), f.kids[o][i];
    TodoAfterSplice(f, o, i);
    forall n | n in g.Under(o) && n !in Todo(g, o, i) ensures Settled(g, n) {
      SkipMember(f.anc[n], c, o);
      assert n in f.Under(o) && n !in Todo(f, o, i);
      assert Settled(f, n);
    }
  }

  // ---------------------------------------------------------------- which roots are dissolved

  /** `n` carries a message, is below `c`, and no message is above it. */
  ghost predicate Head(f: Forest, c: Node, n: Node) {
    n in f.msgs && n in f.anc && c in f.anc[n] && Only(f.anc[n], f.msgs) == []
  }

  ghost predicate OneHead(f: Forest, c: Node) {
    forall a, b | a in f.msgs && b in f.msgs && Head(f, c, a) && Head(f, c, b) :: a == b
  }

  /** A root that is gone held at most one message that was not below another. */
  ghost predicate Dissolved(f: Forest, g: Forest)
    requires f.Shaped()
  {
    && f.msgs <= f.nodes
    && forall c | c in f.nodes && c !in g.nodes && f.anc[c] == [] :: OneHead(f, c)
  }

  lemma DissolvedBelow(f: Forest, g: Forest, o: Node)
    requires Pruning(f, g, o) && o != f.hdr && f.msgs <= f.nodes
    ensures Dissolved(f, g)
  {
  }

  lemma DissolvedTrans(f: Forest, g: Forest, h: Forest, o: Node)
    requires Pruning(f, g, o) && Dissolved(f, g) && g.Shaped() && Dissolved(g, h) && g.msgs == f.msgs
    ensures Dissolved(f, h)
  {
    forall c | c in f.nodes && c !in h.nodes && f.anc[c] == [] ensures OneHead(f, c) {
      if c in g.nodes {
        forall n | n in f.msgs && Head(f, c, n) ensures Head(g, c, n) {
          OnlyMember(f.anc[n], g.nodes);
          OnlyTwice(f.anc[n], g.nodes, f.msgs);
        }
      }
    }
  }

  /** When everything below `c` carries a message, the heads below `c` are its children. */
  lemma DissolvedSplice(f: Forest, o: Node, i: nat)
    requires f.Ok() && f.msgs <= f.nodes && o in f.kids && i < |f.kids[o]| && f.kids[o][i] in f.nodes
    requires var c := f.kids[o][i];
      o == f.hdr ==> |f.kids[c]| <= 1 && forall n | n in f.Under(c) :: Settled(f, n)
    ensures Dissolved(f, f.Splice(o, i))
  {
    var c := f.kids[o][i];
    assert f.Holds(o, c);
    forall n | Head(f, c, n) && f.anc[c] == [] ensures n in f.kids[c] {
      var b := ChildTowards(f, c, n);
      if b != n {
        AncestorTrans(f, n, b, c);
        assert f.Holds(c, b);
        assert Settled(f, b);
        OnlyMember(f.anc[n], f.msgs);
      }
    }
  }

  lemma DissolvedNone(f: Forest)
    requires f.Ok() && f.msgs <= f.nodes
    ensures Dissolved(f, f)
  {
  }

  // ---------------------------------------------------------------- prune_empty

  /** One child of `t` more behind `before`. */
  lemma PromoteStep(before: seq<Node>, t: seq<Node>, after: seq<Node>, j: nat)
    requires j < |t| && NoDup(before + after) && NoDup(t)
    requires forall k | k in t :: k !in before && k !in after
    ensures NoDup(before + (Reverse(t[..j]) + after)) && t[j] !in Reverse(t[..j]) + after
    ensures t[j..] != [] && t[j..][0] == t[j] && t[j..][1..] == t[j + 1..]
    ensures forall k | k in t[j + 1..] :: k != t[j] && k !in before
    ensures before + Reverse(t[..j]) + after == before + (Reverse(t[..j]) + after)
    ensures before + [t[j]] + (Reverse(t[..j]) + after) == before + Reverse(t[..j + 1]) + after
  {
    var r := Reverse(t[..j]);
    NoDupReverse(t[..j]);
    forall x | x in r ensures x in t { assert x in t[..j]; }
    assert NoDup(before) && NoDup(after) by {
      assert before == (before + after)[..|before|] && after == (before + after)[|before|..];
    }
    NoDupConcat(r, after);
    assert forall x | x in before :: x !in after by {
      forall i, k | 0 <= i < |before| && 0 <= k < |after| ensures before[i] != after[k] {
        assert (before + after)[i] == before[i] && (before + after)[|before| + k] == after[k];
      }
    }
    NoDupConcat(before, r + after);
    assert Reverse(t[..j + 1]) == [t[j]] + r;
  }

  lemma ListHead(first: Node?, s: seq<Node>)
    requires ListAt(first, s)
    ensures first == null <==> s == []
  {
  }

  lemma ListTail(first: Node, s: seq<Node>)
    requires s != [] && ListAt(first, s)
    ensures first == s[0] && ListAt(first.next, s[1..])
  {
    assert s[0].next == After(s, 1);
    forall i | 0 <= i < |s[1..]| ensures s[1..][i].next == After(s[1..], i + 1) {
      assert s[i + 1].next == After(s, i + 2);
    }
  }

  /** Links the children `t` of a removed node one by one behind the slot `last` of `o`, and gives
      them the parent `up`. */
  method PromoteOne(o: Node, last: Node?, first: Node?, up: Node?,
                    ghost before: seq<Node>, ghost t: seq<Node>, ghost after: seq<Node>)
    requires ListAt(o.child, before + after) && ListAt(first, t)
    requires NoDup(before + after) && NoDup(t) && (forall k | k in t :: k !in before && k !in after)
    requires last == if before == [] then null else before[|before| - 1]
    modifies o`child, Cell(last)`next, t`next, t`parent
    ensures ListAt(o.child, before + Reverse(t) + after)
    ensures last != null ==> o.child == old(o.child)
    ensures forall k | k in t :: k.parent == up
  {
    hide NoDup, ListAt;
    assert last != null ==> last in before;
    var child := first;
    ghost var j := 0;
    assert t[0..] == t;
    assert before + Reverse(t[..0]) + after == before + after;
    ListHead(child, t);
    while child != null
      invariant j <= |t| && ListAt(child, t[j..]) && (child == null <==> j == |t|)
      invariant ListAt(o.child, before + Reverse(t[..j]) + after)
      invariant forall k | 0 <= k < j :: t[k].parent == up
      invariant last != null ==> o.child == old(o.child)
      decreases |t| - j
    {
      PromoteStep(before, t, after, j);
      ListTail(child, t[j..]);
      assert ListAt(child.next, t[j + 1..]);
      var next := child.next;
      child.parent := up;
      InsertBehind(o, last, child, before, Reverse(t[..j]) + after);
      child := next;
      j := j + 1;
      ListHead(child, t[j..]);
    }
    assert t[..j] == t;
  }

  /** The node `c` leaves the list and its children are put in its place one by one. */
  method PromoteTwo(o: Node, ghost s: seq<Node>, ghost i: nat, last: Node?, c: Node, ghost t: seq<Node>)
    requires i < |s| && c == s[i] && c != o && ListAt(o.child, s) && ListAt(c.child, t)
    requires NoDup(s) && NoDup(t) && forall k | k in t :: k !in s
    requires last == if i == 0 then null else s[i - 1]
    modifies o`child, Cell(last)`next, t`next, t`parent
    ensures ListAt(o.child, s[..i] + Reverse(t) + s[i + 1..])
    ensures forall k | k in t :: k.parent == old(c.parent)
  {
    hide NoDup, ListAt;
    assert DropAt(s, i) == s[..i] + s[i + 1..];
    NoDupDrop(s, i);
    assert last != null ==> last in s;
    assert c in s;
    var up := c.parent;
    UnlinkOne(o, s, i, last);
    PromoteOne(o, last, c.child, up, s[..i], t, s[i + 1..]);
  }

  /** Unlinks entry `i` of the list of `o` and links the list `t` of its children in its place. */
  method PromoteIn(ghost hdr: Node, ghost nodes: set<Node>, ghost kids: map<Node, seq<Node>>,
                   o: Node, ghost i: nat, last: Node?, c: Node)
    requires Lists(hdr, nodes, kids) && o in kids && i < |kids[o]| && c == kids[o][i] && c in kids && c != o
    requires NoDup(kids[o]) && NoDup(kids[c])
    requires last == if i == 0 then null else kids[o][i - 1]
    requires last != null ==> OnlyIn(kids, o, last)
    requires forall k | k in kids[c] :: OnlyIn(kids, c, k)
    modifies o`child, Cell(last)`next, kids[c]`next, kids[c]`parent
    ensures Lists(hdr, nodes, kids[o := kids[o][..i] + Reverse(kids[c]) + kids[o][i + 1..]] - {c})
    ensures forall k | k in kids[c] :: k.parent == old(c.parent)
  {
    hide NoDup, ListAt;
    assert ListOf(kids, o) && ListOf(kids, c);
    PromoteTwo(o, kids[o], i, last, c, kids[c]);
    ghost var kids' := kids[o := kids[o][..i] + Reverse(kids[c]) + kids[o][i + 1..]] - {c};
    forall p | p in kids' ensures KidsKnown(nodes, kids', p) && ListOf(kids', p) {
      assert old(ListOf(kids, p));
      PromoteKept(nodes, kids, kids', o, i, c, p);
      if p != o {
        assert old(ListAt(p.child, kids[p]));
        assert forall k | k in kids[c] :: OnlyIn(kids, c, k) && k !in kids[p];
        assert last != null ==> last !in kids[p];
        assert p.child == old(p.child);
        assert forall k | k in kids[p] :: k.next == old(k.next);
        assert ListAt(p.child, kids[p]);
      }
    }
  }

  lemma PromoteKept(nodes: set<Node>, kids: map<Node, seq<Node>>, kids': map<Node, seq<Node>>,
                    o: Node, i: nat, c: Node, p: Node)
    requires o in kids && i < |kids[o]| && c in kids && p in kids && p in kids'
    requires kids' == kids[o := kids[o][..i] + Reverse(kids[c]) + kids[o][i + 1..]] - {c}
    requires KidsKnown(nodes, kids, p) && KidsKnown(nodes, kids, c)
    ensures KidsKnown(nodes, kids', p)
  {
  }

  lemma SpliceParents(f: Forest, o: Node, i: nat)
    requires Spliceable(f, o, i) && f.kids[o][i] in f.nodes && f.Splice(o, i).Ok()
    ensures var g := f.Splice(o, i); var c := f.kids[o][i];
      forall n | n in g.nodes :: ParentIn(g, n) == if n in f.kids[c] then ParentIn(f, c) else ParentIn(f, n)
  {
    var g, c := f.Splice(o, i), f.kids[o][i];
    assert f.Holds(o, c);
    forall n | n in g.nodes
      ensures ParentIn(g, n) == if n in f.kids[c] then ParentIn(f, c) else ParentIn(f, n)
    {
      if n in f.kids[c] {
        assert f.Holds(c, n);
        NotOwnAncestor(f, c);
        SkipCons(c, f.anc[c], c);
        SkipAbsent(f.anc[c], c);
      } else if f.anc[n] != [] {
        var p := f.anc[n][0];
        assert f.Placed(n) && f.anc[n] == [p] + f.anc[p];
        SkipCons(p, f.anc[p], c);
      }
    }
  }

  lemma SpliceStart(f: Forest, o: Node, i: nat, last: Node?)
    requires f.Ok() && Linked(f) && o in f.kids && i < |f.kids[o]| && SlotAt(f, o, i, last)
    ensures var c := f.kids[o][i];
      && c in f.nodes && c != f.hdr && c in f.kids && c != o && Spliceable(f, o, i)
      && Lists(f.hdr, f.nodes, f.kids) && NoDup(f.kids[o]) && NoDup(f.kids[c])
      && last == (if i == 0 then null else f.kids[o][i - 1]) && (last != null ==> OnlyIn(f.kids, o, last) && last in f.nodes)
      && forall k | k in f.kids[c] :: OnlyIn(f.kids, c, k) && k in f.nodes
  {
    var c := f.kids[o][i];
    assert f.Holds(o, c);
    NotBelowChild(f, o, c);
    if last != null { assert f.Holds(o, last); HeldOnlyIn(f, o, last); }
    forall k | k in f.kids[c] ensures OnlyIn(f.kids, c, k) && k in f.nodes { assert f.Holds(c, k); HeldOnlyIn(f, c, k); }
  }

  lemma SpliceSlot(f: Forest, o: Node, i: nat, last: Node?)
    requires o in f.kids && i < |f.kids[o]| && f.kids[o][i] in f.kids && f.kids[o][i] != o && SlotAt(f, o, i, last)
    ensures var g, c := f.Splice(o, i), f.kids[o][i];
      && g.hdr == f.hdr && g.nodes == f.nodes - {c} && SlotAt(g, o, i, last)
      && g.kids == f.kids[o := f.kids[o][..i] + Reverse(f.kids[c]) + f.kids[o][i + 1..]] - {c}
  {
  }

  /** Entry `i` below `o`, which has no message, is replaced by its children. */
  method SpliceNode(ghost f: Forest, o: Node, ghost i: nat, last: Node?, c: Node) returns (ghost g: Forest)
    requires f.Ok() && Linked(f) && ParentsExact(f)
    requires o in f.kids && i < |f.kids[o]| && c == f.kids[o][i] && SlotAt(f, o, i, last)
    modifies o`child, f.nodes`next, f.nodes`parent
    ensures Spliceable(f, o, i) && c in f.nodes && g == f.Splice(o, i)
    ensures g.Ok() && Linked(g) && ParentsExact(g) && SlotAt(g, o, i, last)
  {
    hide Forest.Ok, Linked, NoDup, Lists, OnlyIn, Forest.Splice, Spliceable, SlotAt, ParentIn;
    SpliceStart(f, o, i, last);
    SpliceOk(f, o, i);
    SpliceParents(f, o, i);
    SpliceSlot(f, o, i, last);
    PromoteIn(f.hdr, f.nodes, f.kids, o, i, last, c);
    g := f.Splice(o, i);
    LinkedAmong(g, f.nodes);
  }

  ghost predicate Pruned(f: Forest, o: Node)
    requires f.Shaped()
  {
    forall n | n in f.Under(o) :: Settled(f, n)
  }

  ghost predicate Pointers(f: Forest)
    reads f.hdr`child, f.nodes`next, f.nodes`child, f.nodes`parent, f.nodes`message
  {
    && f.Ok() && f.Rooted() && Linked(f) && ParentsExact(f) && f.msgs <= f.nodes
    && forall n | n in f.nodes :: n in f.msgs <==> n.message != null
  }

  /** The recursive call for child `i`, seen from `o`. */
  lemma AfterChild(f0: Forest, f: Forest, g: Forest, o: Node, i: nat)
    requires Pruning(f0, f, o) && f0.Rooted() && o in f.kids && i < |f.kids[o]| && SettledBefore(f, o, i)
    requires Pruning(f, g, f.kids[o][i]) && Pruned(g, f.kids[o][i])
    ensures Pruning(f0, g, o) && o in g.kids && g.kids[o] == f.kids[o] && SettledBefore(g, o, i)
    ensures f.kids[o][i] in g.nodes && g.Under(f.kids[o][i]) <= f.Under(f.kids[o][i])
    ensures Todo(g, o, i) <= Todo(f, o, i) && g.Holds(o, f.kids[o][i])
  {
    hide SettledBefore, Settled;
    var c := f.kids[o][i];
    assert f.Holds(o, c);
    TodoAfterChild(f, g, o, i);
    SettledAfterChild(f, g, o, i);
    UnderAfter(f, g, c, c);
    PruningTrans(f0, f, g, o, c);
  }

  /** Child `i` is replaced by its children. */
  lemma AfterSplice(f0: Forest, f: Forest, o: Node, i: nat)
    requires Pruning(f0, f, o) && o in f.kids && Spliceable(f, o, i) && f.kids[o][i] in f.nodes
    requires f.kids[o][i] !in f.msgs && SettledBefore(f, o, i)
    ensures f.Splice(o, i).Ok() && Pruning(f0, f.Splice(o, i), o) && SettledBefore(f.Splice(o, i), o, i)
    ensures Todo(f.Splice(o, i), o, i) < Todo(f, o, i)
  {
    hide SettledBefore, Settled;
    SpliceOk(f, o, i);
    PruningSplice(f, o, i);
    PruningTrans(f0, f, f.Splice(o, i), o, o);
    SettledSplice(f, o, i);
    TodoAfterSplice(f, o, i);
    TodoNext(f, o, i);
  }

  /** Child `i` stays. */
  lemma AfterKeep(f: Forest, o: Node, i: nat)
    requires f.Ok() && o in f.kids && i < |f.kids[o]| && f.kids[o][i] in f.nodes
    requires SettledBefore(f, o, i) && Settled(f, f.kids[o][i]) && Pruned(f, f.kids[o][i])
    ensures SettledBefore(f, o, i + 1) && Todo(f, o, i + 1) < Todo(f, o, i)
  {
    SettledNext(f, o, i);
    TodoNext(f, o, i);
  }

  /** The state of the loop over the child list of `o`, with child `i` next. */
  ghost predicate Visiting(f0: Forest, f: Forest, o: Node, i: nat, last: Node?)
    reads f.hdr`child, f.nodes`next, f.nodes`child, f.nodes`parent, f.nodes`message, o`child, Cell(last)`next
  {
    && Pointers(f) && f0.Ok() && f0.Rooted() && Pruning(f0, f, o) && o in f.kids
    && SlotAt(f, o, i, last) && SettledBefore(f, o, i) && Dissolved(f0, f)
    && SlotNext(o, last) == After(f.kids[o], i)
  }

  lemma StartVisiting(f: Forest, o: Node)
    requires Pointers(f) && o in f.kids
    ensures Visiting(f, f, o, 0, null) && Todo(f, o, 0) == f.Under(o)
  {
    PruningRefl(f, o);
    DissolvedNone(f);
    UnderIsTodo(f, o);
    SlotNextIs(f, o, 0, null);
  }

  lemma NextChild(f0: Forest, f: Forest, o: Node, i: nat, last: Node?)
    requires Visiting(f0, f, o, i, last) && SlotNext(o, last) != null
    ensures i < |f.kids[o]| && SlotNext(o, last) == f.kids[o][i]
    ensures f.kids[o][i] in f.nodes && f.kids[o][i] in f.kids && f.Under(f.kids[o][i]) < f0.Under(o)
  {
    hide Pruned, SettledBefore, Settled;
    var c := f.kids[o][i];
    assert f.Holds(o, c);
    UnderChild(f, o, c);
    UnderAfter(f0, f, o, o);
  }

  lemma ChildVisited(f0: Forest, f: Forest, g: Forest, o: Node, i: nat, last: Node?)
    requires f0.Ok() && f0.Rooted() && Pruning(f0, f, o) && Dissolved(f0, f) && o in f.kids && i < |f.kids[o]|
    requires SlotAt(f, o, i, last) && SettledBefore(f, o, i) && f.kids[o][i] != f.hdr
    requires Pointers(g) && Pruning(f, g, f.kids[o][i]) && Pruned(g, f.kids[o][i])
    ensures Visiting(f0, g, o, i, last) && g.kids[o] == f.kids[o] && Todo(g, o, i) <= Todo(f, o, i)
    ensures f.kids[o][i] in g.nodes && g.nodes <= f.nodes
  {
    hide SettledBefore, Settled, Pruned, Dissolved;
    assert f.msgs <= f.nodes;
    DissolvedBelow(f, g, f.kids[o][i]);
    DissolvedTrans(f0, f, g, o);
    AfterChild(f0, f, g, o, i);
    SlotNextIs(g, o, i, last);
  }

  lemma StopVisiting(f0: Forest, f: Forest, o: Node, i: nat, last: Node?)
    requires Visiting(f0, f, o, i, last) && SlotNext(o, last) == null
    ensures Pointers(f) && Pruning(f0, f, o) && Pruned(f, o) && Dissolved(f0, f)
  {
    hide Pruning, Settled, Forest.KidsOk, Forest.PlacesOk, Forest.ListsOk;
    assert f.kids[o][i..] == [];
    assert Todo(f, o, i) == {};
  }

  lemma FewChildren(f: Forest, o: Node, c: Node)
    requires f.Ok() && Linked(f) && ParentsExact(f) && f.Holds(o, c) && c in f.nodes
    requires c.child == null || c.parent != null || c.child.next == null
    ensures o == f.hdr ==> |f.kids[c]| <= 1
  {
    assert ListOf(f.kids, c);
    if |f.kids[c]| > 1 { assert c.child == f.kids[c][0] && c.child.next == f.kids[c][1]; }
  }

  method SpliceChild(ghost f0: Forest, ghost f: Forest, o: Node, ghost i: nat, last: Node?, c: Node)
      returns (ghost g: Forest)
    requires Visiting(f0, f, o, i, last) && i < |f.kids[o]| && c == f.kids[o][i] && c in f.nodes
    requires c.message == null && Pruned(f, c)
    requires c.child == null || c.parent != null || c.child.next == null
    modifies o`child, f.nodes`next, f.nodes`parent
    ensures g.nodes <= f.nodes && Visiting(f0, g, o, i, last) && Todo(g, o, i) < Todo(f, o, i)
  {
    hide Dissolved, Pruned, SettledBefore, Linked, ParentsExact, SlotAt, Pruning, Todo;
    hide Forest.KidsOk, Forest.PlacesOk, Forest.ListsOk, Forest.Splice;
    SpliceChildStart(f0, f, o, i, last, c);
    g := SpliceNode(f, o, i, last, c);
    SlotNextIs(g, o, i, last);
  }

  lemma SpliceChildStart(f0: Forest, f: Forest, o: Node, i: nat, last: Node?, c: Node)
    requires Visiting(f0, f, o, i, last) && i < |f.kids[o]| && c == f.kids[o][i] && c in f.nodes
    requires c.message == null && Pruned(f, c)
    requires c.child == null || c.parent != null || c.child.next == null
    ensures var g := f.Splice(o, i);
      && g.Shaped() && o in g.kids && i <= |g.kids[o]| && Dissolved(f0, g) && Pruning(f0, g, o) && SettledBefore(g, o, i)
      && Todo(g, o, i) < Todo(f, o, i)
      && g.Rooted() && g.msgs == f.msgs && g.nodes == f.nodes - {c} && g.hdr == f.hdr && c !in f.msgs && SlotAt(g, o, i, last)
  {
    hide Dissolved, SettledBefore, Linked, ParentsExact, Forest.KidsOk, Forest.PlacesOk, Forest.ListsOk, Settled, Only;
    SpliceStart(f, o, i, last);
    assert f.Holds(o, c);
    FewChildren(f, o, c);
    DissolvedSplice(f, o, i);
    DissolvedTrans(f0, f, f.Splice(o, i), o);
    AfterSplice(f0, f, o, i);
    SpliceSlot(f, o, i, last);
  }

  lemma KeepChild(f0: Forest, f: Forest, o: Node, i: nat, last: Node?, c: Node)
    requires Visiting(f0, f, o, i, last) && i < |f.kids[o]| && c == f.kids[o][i] && c in f.nodes
    requires Pruned(f, c)
    requires c.message != null || (c.child != null && c.parent == null && c.child.next != null)
    ensures Visiting(f0, f, o, i + 1, c) && Todo(f, o, i + 1) < Todo(f, o, i)
  {
    assert f.Holds(o, c);
    assert ListOf(f.kids, c);
    if c.message == null {
      assert c.child == f.kids[c][0] && c.child.next == After(f.kids[c], 1);
    }
    hide SettledBefore, Pruned, Pruning;
    AfterKeep(f, o, i);
    SlotNextIs(f, o, i + 1, c);
  }

  method PruneEmpty(ghost f: Forest, o: Node) returns (ghost g: Forest)
    requires Pointers(f) && o in f.kids
    modifies o`child, f.nodes`next, f.nodes`child, f.nodes`parent
    ensures Pointers(g) && Pruning(f, g, o) && Pruned(g, o) && Dissolved(f, g)
    decreases f.Under(o)
  {
    hide SettledBefore, Settled, Pruned, Dissolved, Linked, ParentsExact, Forest.KidsOk, Forest.PlacesOk, Forest.ListsOk;
    g := f;
    StartVisiting(f, o);
    var last: Node? := null;
    ghost var i := 0;
    while SlotNext(o, last) != null
      invariant g.nodes <= f.nodes && Visiting(f, g, o, i, last)
      decreases Todo(g, o, i)
    {
      NextChild(f, g, o, i, last);
      var c := SlotNext(o, last);
      ghost var h := g;
      g := PruneEmpty(h, c);
      ChildVisited(f, h, g, o, i, last);
      if c.message == null && (c.child == null || c.parent != null || c.child.next == null) {
        // the node goes, and its children, if any, take its place
        g := SpliceChild(f, g, o, i, last, c);
      } else {
        KeepChild(f, g, o, i, last, c);
        last := c;
        i := i + 1;
      }
    }
    StopVisiting(f, g, o, i, last);
  }
}
