/** What threading preserves: the line of ancestors that the references give a message stays in
    its place.  Grouping by subject and the removal of pseudo nodes only add ancestors behind it. */
module ThreadKept {
  import opened SeqFacts
  import opened ThreadForest
  import opened ThreadLinks
  import opened ThreadBuild
  import opened ThreadPrune
  import opened ThreadGroup
  import opened ThreadGroupRun
  import opened ThreadSort
  import opened ThreadTop
  import opened ThreadSummary

  /** The ancestors of `n` that carry a message, nearest first. */
  ghost function Cited(f: Forest, n: Node): seq<Node>
    requires n in f.anc
  {
    Only(f.anc[n], f.msgs)
  }

  ghost function AllCited(f: Forest): map<Node, seq<Node>> {
    map n | n in f.anc :: Cited(f, n)
  }

  /** The rest of the line behind an ancestor is the line of that ancestor. */
  ghost predicate Nested(base: map<Node, seq<Node>>) {
    forall n, i | n in base && 0 <= i < |base[n]| :: base[n][i] in base && base[n][i + 1..] == base[base[n][i]]
  }

  lemma {:induction false} CitedNested(f: Forest, n: Node, i: nat)
    requires f.Ok() && n in f.nodes && i < |Cited(f, n)|
    ensures Cited(f, n)[i] in f.nodes && Cited(f, n)[i + 1..] == Cited(f, Cited(f, n)[i])
    decreases |f.anc[n]|
  {
    assert f.Placed(n);
    var o := f.anc[n][0];
    assert f.Holds(o, n) && f.anc[n] == [o] + f.anc[o];
    assert f.anc[n][1..] == f.anc[o];
    if o !in f.msgs {
      CitedNested(f, o, i);
    } else if i > 0 {
      CitedNested(f, o, i - 1);
      assert Cited(f, n)[i + 1..] == Cited(f, o)[i..];
    } else {
      assert Cited(f, n)[1..] == Cited(f, o);
    }
  }

  lemma AllCitedNested(f: Forest)
    requires f.Ok()
    ensures Nested(AllCited(f))
  {
    forall n, i | n in f.nodes && 0 <= i < |Cited(f, n)|
      ensures Cited(f, n)[i] in f.nodes && Cited(f, n)[i + 1..] == Cited(f, Cited(f, n)[i])
    {
      CitedNested(f, n, i);
    }
  }

  /** The line that `base` gives a message is where its line of ancestors begins. */
  ghost predicate Kept(base: map<Node, seq<Node>>, f: Forest) {
    forall b | b in f.msgs :: b in base && b in f.anc && base[b] <= Only(f.anc[b], f.msgs)
  }

  // ---------------------------------------------------------------- lines

  lemma {:induction false} RegraftKept<T>(b: seq<T>, s: seq<T>, x: T, t: seq<T>, keep: set<T>)
    requires b <= Only(s, keep) && x in keep
    requires forall i | 0 <= i < |b| && b[i] == x :: i == |b| - 1
    ensures b <= Only(Regraft(s, x, t), keep)
  {
    if s != [] {
      var r := Regraft(s[1..], x, t);
      if s[0] == x {
        assert ([x] + t)[1..] == t;
        assert b == [] || b[0] == x;
      } else if s[0] in keep {
        assert ([s[0]] + r)[1..] == r;
        if b != [] {
          RegraftKept(b[1..], s[1..], x, t, keep);
        }
      } else {
        assert ([s[0]] + r)[1..] == r;
        RegraftKept(b, s[1..], x, t, keep);
      }
    }
  }

  /** The last of a line, which carries no message, gives way to another node. */
  lemma {:induction false} ReplaceKept<T>(b: seq<T>, s: seq<T>, x: T, y: T, keep: set<T>)
    requires b <= Only(s, keep) && x !in keep
    requires forall i | 0 <= i < |s| && s[i] == x :: i == |s| - 1
    ensures b <= Only(Replace(s, x, y), keep)
  {
    if s != [] {
      var r := Replace(s[1..], x, y);
      assert ([if s[0] == x then y else s[0]] + r)[1..] == r;
      if s[0] == x {
        assert s[1..] == [];
      } else {
        ReplaceKept(if s[0] in keep && b != [] then b[1..] else if s[0] in keep then [] else b, s[1..], x, y, keep);
      }
    }
  }

  lemma LastOf(base: map<Node, seq<Node>>, n: Node, x: Node)
    requires Nested(base) && n in base && x in base && base[x] == []
    ensures forall i | 0 <= i < |base[n]| && base[n][i] == x :: i == |base[n]| - 1
  {
  }

  // ---------------------------------------------------------------- operations on the forest

  /** Taking out `x` and putting it elsewhere changes lines only behind `x`. */
  lemma DetachKept(base: map<Node, seq<Node>>, f: Forest, o: Node, i: nat)
    requires Kept(base, f) && Nested(base) && o in f.kids && i < |f.kids[o]|
    requires var x := f.kids[o][i]; x in f.msgs && x in base && base[x] == []
    ensures Kept(base, f.Detach(o, i))
  {
    var x := f.kids[o][i];
    forall b | b in f.msgs ensures b == x || base[b] <= Only(Regraft(f.anc[b], x, []), f.msgs) {
      LastOf(base, b, x);
      RegraftKept(base[b], f.anc[b], x, [], f.msgs);
    }
  }

  lemma AttachKept(base: map<Node, seq<Node>>, f: Forest, o: Node, i: nat, x: Node)
    requires Kept(base, f) && Nested(base) && o in f.kids && i <= |f.kids[o]| && (o == f.hdr || o in f.anc)
    requires o == f.hdr || (x in f.msgs && x in base && base[x] == [])
    ensures Kept(base, f.Attach(o, i, x))
  {
    if o != f.hdr {
      forall b | b in f.msgs ensures b == x || base[b] <= Only(Regraft(f.anc[b], x, f.Line(o)), f.msgs) {
        LastOf(base, b, x);
        RegraftKept(base[b], f.anc[b], x, f.Line(o), f.msgs);
      }
    }
  }

  lemma MergeKept(base: map<Node, seq<Node>>, f: Forest, i: nat, d: Node)
    requires f.Ok() && Kept(base, f) && Mergeable(f, i, d) && f.kids[f.hdr][i] !in f.msgs
    ensures f.kids[f.hdr][i] in f.kids && d in f.kids && Kept(base, f.Merge(i, d))
  {
    var c := f.kids[f.hdr][i];
    MergeOk(f, i, d);
    assert f.Holds(f.hdr, c);
    forall b | b in f.msgs ensures base[b] <= Only(Replace(f.anc[b], c, d), f.msgs) {
      RootIsLast(f, b, c);
      ReplaceKept(base[b], f.anc[b], c, d, f.msgs);
    }
  }

  lemma {:induction false} RootIsLast(f: Forest, n: Node, c: Node)
    requires f.Ok() && n in f.nodes && c in f.nodes && f.anc[c] == []
    ensures forall i | 0 <= i < |f.anc[n]| && f.anc[n][i] == c :: i == |f.anc[n]| - 1
    decreases |f.anc[n]|
  {
    if f.anc[n] != [] {
      assert f.Placed(n);
      var o := f.anc[n][0];
      assert f.Holds(o, n) && f.anc[n] == [o] + f.anc[o];
      RootIsLast(f, o, c);
      forall i | 0 <= i < |f.anc[n]| && f.anc[n][i] == c ensures i == |f.anc[n]| - 1 {
        if i > 0 { assert f.anc[o][i - 1] == c; }
      }
    }
  }

  // ---------------------------------------------------------------- grouping

  /** Nothing is cited above a node of the subject table. */
  ghost predicate TopEntries(base: map<Node, seq<Node>>, g: Grouping) {
    forall s | s in g.table && g.table[s] in g.f.msgs :: g.table[s] in base && base[g.table[s]] == []
  }

  lemma RootCitesNone(base: map<Node, seq<Node>>, f: Forest, c: Node)
    requires Kept(base, f) && c in f.msgs && c in f.anc && f.anc[c] == []
    ensures base[c] == []
  {
  }

  lemma MovedKept(base: map<Node, seq<Node>>, f: Forest, x: Node, p: Node)
    requires Kept(base, f) && Nested(base) && x in f.msgs && x in base && base[x] == []
    requires x in f.anc && f.Holds(f.Owner(x), x) && p in f.anc && p in f.kids && p in Uproot(f, x).anc
    ensures Kept(base, Moved(f, x, p))
  {
    var o := f.Owner(x);
    DetachKept(base, f, o, IndexOf(f.kids[o], x));
    AttachKept(base, Uproot(f, x), p, 0, x);
  }

  lemma PairKept(base: map<Node, seq<Node>>, g: Grouping, c: Node, x: Node, p: Node)
    requires Kept(base, g.f) && Nested(base) && CanPair(g, c, x, p) && Entrant(g, c, x)
    requires x in base && base[x] == [] && c in base && base[c] == []
    ensures Kept(base, Pair(g, c, x, p).f)
  {
    hide Grouping.TableOk, Grouping.EmptiesOk, Forest.KidsOk, Forest.PlacesOk, Forest.ListsOk, Nested;
    var o, u := g.f.Owner(x), Uproot(g.f, x);
    DetachKept(base, g.f, o, IndexOf(g.f.kids[o], x));
    var j := IndexOf(u.kids[u.hdr], c);
    DetachKept(base, u, u.hdr, j);
    var b := BothOut(g.f, c, x);
    assert Kept(base, b.AddNode(p));
    AttachKept(base, b.AddNode(p), b.hdr, j, p);
    var n := NewRoot(b, j, p);
    AttachKept(base, n, p, 0, c);
    AttachKept(base, n.Attach(p, 0, c), p, 0, x);
  }

  lemma StepKept(base: map<Node, seq<Node>>, g: Grouping, h: Grouping, p: Node)
    requires Step(g, h, p) && Kept(base, g.f) && Nested(base) && TopEntries(base, g)
    ensures Kept(base, h.f) && TopEntries(base, h) && h.f.msgs == g.f.msgs
  {
    hide Grouping.TableOk, Grouping.EmptiesOk, Forest.KidsOk, Forest.PlacesOk, Forest.ListsOk, Nested, Kept;
    var c := g.Current();
    if g.Matched(c) {
      var x := g.table[g.subj[c].root];
      CurrentIsRoot(g, c, x);
      if c in g.f.msgs { RootCitesNone(base, g.f, c); KeptIn(base, g.f, c); }
      if c !in g.f.msgs && x !in g.f.msgs {
        MergeKept(base, g.f, g.i, x);
      } else if c !in g.f.msgs || (x in g.f.msgs && g.subj[x].re && !g.subj[c].re) {
        MovedKept(base, g.f, x, c);
      } else if x !in g.f.msgs || (g.subj[c].re && !g.subj[x].re) {
        MovedKept(base, g.f, c, x);
      } else if g.subj[x].re {
        PairKept(base, g, c, x, p);
      }
    }
    StepOk(g, h, p);
  }

  lemma KeptIn(base: map<Node, seq<Node>>, f: Forest, b: Node)
    requires Kept(base, f) && b in f.msgs
    ensures b in base && b in f.anc
  {
  }

  lemma {:induction false} RunKept(base: map<Node, seq<Node>>, states: seq<Grouping>, ps: seq<Node>, k: nat)
    requires Run(states, ps) && k <= |ps| && Nested(base)
    requires Kept(base, states[0].f) && TopEntries(base, states[0])
    ensures Kept(base, states[k].f) && TopEntries(base, states[k]) && states[k].f.msgs == states[0].f.msgs
  {
    hide Step, Nested, Kept, TopEntries;
    if k > 0 {
      RunKept(base, states, ps, k - 1);
      StepKept(base, states[k - 1], states[k], ps[k - 1]);
    }
  }

  // ---------------------------------------------------------------- the last phase

  lemma TopStepKept(base: map<Node, seq<Node>>, f: Forest, g: Forest, i: nat)
    requires TopStep(f, g, i) && Kept(base, f) && Nested(base)
    ensures Kept(base, g) && g.msgs == f.msgs
  {
    hide Forest.KidsOk, Forest.PlacesOk, Forest.ListsOk, Nested;
    var c := f.kids[f.hdr][i];
    if c !in f.msgs {
      var t := f.kids[c][0];
      PhantomFacts(f, i, c, t);
      assert f.anc[t][1..] == [];
      KeptIn(base, f, t);
      assert Cited(f, t) == [];
      DetachKept(base, f, c, 0);
      AttachKept(base, f.Detach(c, 0), f.hdr, i + 1, t);
      PromotedHalf(f, i, c, t);
      var h, r := f.Detach(c, 0).Attach(f.hdr, i + 1, t), f.kids[f.hdr];
      assert InsertAt(r, i + 1, t)[i] == c && InsertAt(r, i + 1, t)[i + 1] == t;
      MergeKept(base, h, i, t);
    }
  }

  lemma {:induction false} TopRunKept(base: map<Node, seq<Node>>, tops: seq<Forest>, k: nat)
    requires TopRun(tops) && k < |tops| && Kept(base, tops[0]) && Nested(base)
    ensures Kept(base, tops[k]) && tops[k].msgs == tops[0].msgs
  {
    hide TopStep, Nested, Kept;
    if k > 0 {
      TopRunKept(base, tops, k - 1);
      TopStepKept(base, tops[k - 1], tops[k], k - 1);
    }
  }

  // ---------------------------------------------------------------- all phases

  lemma PrunedKept(f: Forest, g: Forest, h: Forest)
    requires RootsListed(f, g) && Pruning(g, h, g.hdr) && f.msgs <= f.nodes
    ensures Kept(AllCited(f), h) && h.msgs == f.msgs && h.Ok()
  {
    forall b | b in h.msgs ensures b in h.anc && Only(h.anc[b], h.msgs) == Cited(f, b) {
      assert b in h.nodes;
      OnlyTwice(f.anc[b], h.nodes, h.msgs);
    }
  }

  lemma BeginsTop(base: map<Node, seq<Node>>, f: Forest, g: Grouping)
    requires f.Ok() && Begins(f, g) && Kept(base, f)
    ensures TopEntries(base, g) && g.f == f
  {
    forall s | s in g.table && g.table[s] in f.msgs ensures base[g.table[s]] == [] {
      assert f.Holds(f.hdr, g.table[s]);
    }
  }

  lemma GroupedKept(base: map<Node, seq<Node>>, f: Forest, states: seq<Grouping>, ps: seq<Node>)
    requires f.Ok() && Kept(base, f) && Nested(base) && GroupedBy(f, states, ps) && Begins(f, states[0])
    ensures states != [] && Kept(base, states[|states| - 1].f) && states[|states| - 1].f.msgs == f.msgs
  {
    hide Step, Nested, Kept, TopEntries;
    BeginsTop(base, f, states[0]);
    RunKept(base, states, ps, |ps|);
  }

  /** For every message, the ancestors cited by references after linking are, in the same order,
      the nearest ancestors in the final tree. */
  lemma ReferencesKept(r: Phases, ord: map<Node, nat>, summary: seq<MessageInfo>, subject: bool)
    requires |r.nodeOf| == |summary| && Threaded(r, ord, summary, subject)
    requires r.Final().Ok() && r.Final().nodes == r.Final().msgs
    requires subject ==> r.states != [] && r.pruned.Shaped() && Begins(r.pruned, r.states[0])
    ensures r.Final().msgs == r.Linked().msgs
    ensures forall b | b in r.Final().nodes :: b in r.Linked().nodes && Cited(r.Linked(), b) <= r.Final().anc[b]
  {
    hide Nested, Kept, AllCited, Step, TopStep, Run, TopRun, Progress, Begins, GroupedBy;
    hide RootsListed, Pruning, Pruned, Dissolved, SortedFrom;
    hide Forest.Ok, Only;
    var base := AllCited(r.Linked());
    var f := r.Final();
    ListedOk(r.Linked(), r.rooted);
    AllCitedNested(r.Linked());
    PrunedKept(r.Linked(), r.rooted, r.pruned);
    if subject { GroupedKept(base, r.pruned, r.states, r.ps); }
    SortedKept(base, r.Grouped(), r.sorted, ord);
    TopRunKept(base, r.tops, |r.tops| - 1);
    forall b | b in f.nodes ensures b in r.Linked().nodes && b in f.anc && Cited(r.Linked(), b) <= f.anc[b] {
      KeptAt(base, f, b);
      AllCitedAt(r.Linked(), b);
      AncestorsAreNodes(f, b);
      OnlyAll(f.anc[b], f.msgs);
    }
  }

  lemma ListedOk(f: Forest, g: Forest)
    requires RootsListed(f, g)
    ensures f.Ok() && f.Shaped() && g.hdr == f.hdr
  {
  }

  lemma AllCitedAt(f: Forest, b: Node)
    requires b in f.nodes && f.Shaped()
    ensures b in f.anc && b in AllCited(f) && AllCited(f)[b] == Cited(f, b)
  {
  }

  lemma SortedKept(base: map<Node, seq<Node>>, f: Forest, g: Forest, ord: map<Node, nat>)
    requires Kept(base, f) && SortedFrom(f, g, ord, g.hdr)
    ensures Kept(base, g) && g.msgs == f.msgs
  {
  }

  lemma KeptAt(base: map<Node, seq<Node>>, f: Forest, b: Node)
    requires Kept(base, f) && b in f.msgs
    ensures b in base && b in f.anc && base[b] <= Only(f.anc[b], f.msgs)
  {
  }
}
