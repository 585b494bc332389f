/** What linking by references is for.  When the references of a summary agree with each other, every
    message comes below the messages it refers to, nearest first. */
module ThreadReferences {
  import opened SeqFacts
  import opened ThreadForest
  import opened ThreadLinks
  import opened ThreadBuild
  import opened ThreadGroupRun
  import opened ThreadSummary
  import opened ThreadKept

  // ---------------------------------------------------------------- references that agree

  /** Where a walk from `own` along the ids of `chain` ends. */
  function End(own: nat, chain: seq<nat>): nat {
    if chain == [] then own else chain[|chain| - 1]
  }

  /** The references without empty ones and without an id that repeats the one before. */
  function Chain(own: nat, refs: seq<nat>): (chain: seq<nat>)
    ensures forall r | r in chain :: r != 0 && r in refs
  {
    if refs == [] then []
    else
      var before, r := Chain(own, refs[..|refs| - 1]), refs[|refs| - 1];
      if r == 0 || r == End(own, before) then before else before + [r]
  }

  /** The id under which message `i` is entered, or 0 if it is a duplicate or has none. */
  function Own(summary: seq<MessageInfo>, i: nat): nat
    requires i < |summary|
  {
    if summary[i].messageId != 0 && (forall j | 0 <= j < i :: summary[j].messageId != summary[i].messageId)
    then summary[i].messageId else 0
  }

  /** The id before entry `j` of the chain. */
  function Before(own: nat, chain: seq<nat>, j: nat): nat
    requires j < |chain|
  {
    if j == 0 then own else chain[j - 1]
  }

  /** Every id of the chain is what `up` gives for the one before. */
  ghost predicate Follows(up: map<nat, nat>, own: nat, chain: seq<nat>) {
    forall j | 0 <= j < |chain| ::
      var k := Before(own, chain, j); k != 0 ==> k in up && up[k] == chain[j]
  }

  /** Nothing is above itself: going up lowers the rank. */
  ghost predicate Rising(up: map<nat, nat>, rank: map<nat, nat>) {
    0 !in up && forall k | k in up :: k in rank && up[k] in rank && rank[up[k]] < rank[k]
  }

  /** The references of all messages agree on what is directly above each id. */
  ghost predicate Agree(summary: seq<MessageInfo>, up: map<nat, nat>) {
    forall i | 0 <= i < |summary| :: Follows(up, Own(summary, i), Chain(Own(summary, i), summary[i].references))
  }

  // ---------------------------------------------------------------- forests that agree

  /** Parents are named by ids, and the parent of the node of an id is what `up` gives. */
  ghost predicate Agreed(f: Forest, ids: map<nat, Node>, up: map<nat, nat>) {
    && f.Ok() && f.kids[f.hdr] == []
    && (forall n | n in f.nodes && Parent(f, n) != null :: Parent(f, n) in ids.Values)
    && forall k | k in ids && ids[k] in f.nodes && Parent(f, ids[k]) != null ::
         k in up && up[k] in ids && ids[up[k]] == Parent(f, ids[k])
  }

  /** The table gives each id a node of its own. */
  ghost predicate Distinct(hdr: Node, ids: map<nat, Node>) {
    Injective(ids) && hdr !in ids.Values && 0 !in ids
  }

  lemma AncestorsNamed(f: Forest, ids: map<nat, Node>, up: map<nat, nat>, n: Node, a: Node)
    requires Agreed(f, ids, up) && n in f.nodes && a in f.anc[n]
    ensures a in ids.Values
  {
    var j := IndexOf(f.anc[n], a);
    if j == 0 {
      assert Parent(f, n) == a;
    } else {
      AncestorLine(f, n, j - 1);
      assert Parent(f, f.anc[n][j - 1]) == a;
    }
  }

  lemma {:induction false} AboveRank(f: Forest, ids: map<nat, Node>, up: map<nat, nat>, rank: map<nat, nat>, k: nat, j: nat)
    requires Agreed(f, ids, up) && Distinct(f.hdr, ids) && Rising(up, rank) && k in ids && j in ids && ids[k] in f.nodes
    requires ids[j] in f.anc[ids[k]]
    ensures j in rank && k in rank && rank[j] < rank[k]
    decreases |f.anc[ids[k]]|
  {
    var n := ids[k];
    assert f.Placed(n) && f.Holds(f.anc[n][0], n);
    assert Parent(f, n) == f.anc[n][0] == ids[up[k]];
    assert f.anc[n] == [ids[up[k]]] + f.anc[ids[up[k]]];
    if ids[j] != ids[up[k]] { AboveRank(f, ids, up, rank, up[k], j); }
  }

  /** What stands for the id `own` in the table, or a node that the table does not know. */
  ghost predicate Stands(ids: map<nat, Node>, own: nat, n: Node) {
    if own == 0 then n !in ids.Values else own in ids && ids[own] == n
  }

  /** A reference that agrees is never refused. */
  lemma NeverAbove(f: Forest, ids: map<nat, Node>, up: map<nat, nat>, rank: map<nat, nat>, own: nat, child: Node, r: nat)
    requires Agreed(f, ids, up) && Distinct(f.hdr, ids) && Rising(up, rank) && Stands(ids, own, child)
    requires r in ids && (own == 0 || (own in up && up[own] == r))
    ensures !Above(f, child, ids[r])
  {
    if Above(f, child, ids[r]) {
      AncestorsNamed(f, ids, up, ids[r], child);
      AboveRank(f, ids, up, rank, r, own);
    }
  }

  lemma StepAgreed(f: Forest, ids: map<nat, Node>, up: map<nat, nat>, rank: map<nat, nat>, own: nat, child: Node, r: nat,
                   g: Forest, c: Node)
    requires Agreed(f, ids, up) && Distinct(f.hdr, ids) && Rising(up, rank) && Stands(ids, own, child) && child in f.nodes
    requires r != 0 && r in ids && (own == 0 || own == r || (own in up && up[own] == r))
    requires (g, c) == LinkStep(f, ids, child, r)
    ensures Agreed(g, ids, up) && c == ids[r] && g.hdr == f.hdr && g.msgs == f.msgs && g.nodes == f.nodes + {c}
    ensures Parent(g, child) == if own == r then Parent(f, child) else c
    ensures own != 0 && Parent(f, child) != null ==> Parent(g, child) == Parent(f, child)
    ensures forall n | n != child :: Parent(g, n) == Parent(f, n)
  {
    hide Forest.KidsOk, Forest.PlacesOk, Forest.ListsOk, LinkStep;
    LinkStepParents(f, ids, child, r, g, c);
    if own != r { NeverAbove(f, ids, up, rank, own, child, r); }
  }

  // ---------------------------------------------------------------- one message

  /** The node before entry `j` of the chain. */
  ghost function NodeBefore(ids: map<nat, Node>, first: Node, chain: seq<nat>, j: nat): Node
    requires j < |chain| && forall r | r in chain :: r in ids
  {
    if j == 0 then first else ids[chain[j - 1]]
  }

  /** From `first` on, each node of the chain is the parent of the one before. */
  ghost predicate Rises(f: Forest, ids: map<nat, Node>, first: Node, chain: seq<nat>) {
    && (forall r | r in chain :: r in ids)
    && forall j | 0 <= j < |chain| :: Parent(f, NodeBefore(ids, first, chain, j)) == ids[chain[j]]
  }

  /** Parents once set stay, but for that of `first`. */
  ghost predicate Lasting(f: Forest, g: Forest, ids: map<nat, Node>, first: Node) {
    forall n | n in f.nodes + ids.Values && (n != first || n in ids.Values) ::
      Parent(f, n) == Parent(g, n) || (Parent(f, n) == null && n in ids.Values)
  }

  lemma RisesStill(f: Forest, g: Forest, ids: map<nat, Node>, child: Node, first: Node, chain: seq<nat>)
    requires Lasting(f, g, ids, child) && Rises(f, ids, first, chain)
    requires (first != child || first in ids.Values || chain == []) && first in f.nodes
    ensures Rises(g, ids, first, chain)
  {
    forall j | 0 <= j < |chain| ensures Parent(g, NodeBefore(ids, first, chain, j)) == ids[chain[j]] {
      if j > 0 { assert chain[j - 1] in chain && ids[chain[j - 1]] in ids.Values; }
    }
  }

  /** `g` is `f` with the chain linked, and `c` the last node of it. */
  ghost predicate Chained(f: Forest, ids: map<nat, Node>, up: map<nat, nat>, own: nat, first: Node, chain: seq<nat>,
                          g: Forest, c: Node)
  {
    && Agreed(g, ids, up) && g.hdr == f.hdr && g.msgs == f.msgs && f.nodes <= g.nodes <= f.nodes + ids.Values
    && c in g.nodes && Stands(ids, End(own, chain), c)
    && Rises(g, ids, first, chain) && Lasting(f, g, ids, first)
    && (chain == [] ==> c == first && Parent(g, first) == Parent(f, first))
  }

  /** One more reference. */
  lemma ChainedOn(f: Forest, ids: map<nat, Node>, up: map<nat, nat>, rank: map<nat, nat>, own: nat, first: Node,
                  before: seq<nat>, h: Forest, child: Node, r: nat, g: Forest, c: Node)
    requires Distinct(f.hdr, ids) && Rising(up, rank) && first in f.nodes && (forall k | k in before :: k != 0)
    requires Chained(f, ids, up, own, first, before, h, child) && r != 0 && r in ids
    requires r != End(own, before) ==> Follows(up, own, before + [r])
    requires (g, c) == LinkStep(h, ids, child, r)
    ensures Chained(f, ids, up, own, first, if r == End(own, before) then before else before + [r], g, c)
  {
    hide Agreed, Rising, LinkStep, Injective, Rises, Lasting, Parent;
    if before != [] { assert before[|before| - 1] in before; }
    var k := End(own, before);
    if r != k {
      var chain := before + [r];
      assert Before(own, chain, |before|) == k && chain[|before|] == r;
    }
    StepAgreed(h, ids, up, rank, k, child, r, g, c);
    assert c in ids.Values;
    LastingStep(f, h, g, ids, first, child, k);
    LastingNext(h, g, ids, child, k);
    if k == 0 { NoChainYet(own, before); }
    RisesStill(h, g, ids, child, first, before);
    if r != k { RisesOn(g, ids, first, before, r, child); }
  }

  lemma LastingNext(h: Forest, g: Forest, ids: map<nat, Node>, child: Node, k: nat)
    requires Stands(ids, k, child) && forall n | n != child :: Parent(g, n) == Parent(h, n)
    requires k != 0 && Parent(h, child) != null ==> Parent(g, child) == Parent(h, child)
    ensures Lasting(h, g, ids, child)
  {
  }

  lemma {:induction false} ChainAgreed(f: Forest, ids: map<nat, Node>, up: map<nat, nat>, rank: map<nat, nat>,
                                       own: nat, first: Node, refs: seq<nat>)
    requires Agreed(f, ids, up) && Distinct(f.hdr, ids) && Rising(up, rank) && Stands(ids, own, first) && first in f.nodes
    requires (forall r | r in refs && r != 0 :: r in ids) && Follows(up, own, Chain(own, refs))
    ensures var (g, c) := LinkChain(f, ids, first, refs); Chained(f, ids, up, own, first, Chain(own, refs), g, c)
  {
    hide Agreed, Rising, LinkStep, Distinct, Rises, Lasting, Parent, Stands, Follows;
    if refs == [] {
      NothingChained(f, ids, up, own, first);
    } else {
      var n := |refs| - 1;
      var before, r := Chain(own, refs[..n]), refs[n];
      assert r in refs;
      FollowsLess(up, own, refs);
      ChainAgreed(f, ids, up, rank, own, first, refs[..n]);
      var (h, child) := LinkChain(f, ids, first, refs[..n]);
      if r == 0 {
        NoStep(h, ids, child);
      } else {
        var (g, c) := LinkStep(h, ids, child, r);
        ChainedOn(f, ids, up, rank, own, first, before, h, child, r, g, c);
      }
    }
  }

  lemma NothingChained(f: Forest, ids: map<nat, Node>, up: map<nat, nat>, own: nat, first: Node)
    requires Agreed(f, ids, up) && Stands(ids, own, first) && first in f.nodes
    ensures Chained(f, ids, up, own, first, [], f, first)
  {
  }

  lemma FollowsLess(up: map<nat, nat>, own: nat, refs: seq<nat>)
    requires refs != [] && Follows(up, own, Chain(own, refs))
    ensures Follows(up, own, Chain(own, refs[..|refs| - 1]))
  {
    var before, chain := Chain(own, refs[..|refs| - 1]), Chain(own, refs);
    forall j | 0 <= j < |before| ensures chain[j] == before[j] && Before(own, chain, j) == Before(own, before, j) {}
  }

  lemma NoStep(f: Forest, ids: map<nat, Node>, child: Node)
    ensures LinkStep(f, ids, child, 0) == (f, child)
  {
  }

  lemma NoChainYet(own: nat, chain: seq<nat>)
    requires End(own, chain) == 0 && forall r | r in chain :: r != 0
    ensures chain == [] && own == 0
  {
    assert chain != [] ==> End(own, chain) in chain;
  }

  lemma StandsFor(hdr: Node, ids: map<nat, Node>, r: nat)
    requires Distinct(hdr, ids) && r in ids
    ensures Stands(ids, r, ids[r])
  {
  }

  lemma RisesOn(g: Forest, ids: map<nat, Node>, first: Node, before: seq<nat>, r: nat, child: Node)
    requires Rises(g, ids, first, before) && r in ids && Parent(g, child) == ids[r]
    requires child == if before == [] then first else ids[before[|before| - 1]]
    ensures Rises(g, ids, first, before + [r])
  {
    var chain := before + [r];
    forall j | 0 <= j < |chain| ensures Parent(g, NodeBefore(ids, first, chain, j)) == ids[chain[j]] {
      if j < |before| { assert NodeBefore(ids, first, chain, j) == NodeBefore(ids, first, before, j); }
    }
  }

  lemma LastingStep(f: Forest, h: Forest, g: Forest, ids: map<nat, Node>, first: Node, child: Node, k: nat)
    requires Lasting(f, h, ids, first) && Stands(ids, k, child) && (k == 0 ==> child == first) && f.nodes <= h.nodes
    requires forall n | n != child :: Parent(g, n) == Parent(h, n)
    requires k != 0 && Parent(h, child) != null ==> Parent(g, child) == Parent(h, child)
    ensures Lasting(f, g, ids, first)
  {
    if k != 0 { assert child in ids.Values; }
  }

  // ---------------------------------------------------------------- the whole summary

  /** The first `i` messages are linked as their references say. */
  ghost predicate Placed(f: Forest, ids: map<nat, Node>, up: map<nat, nat>, nodeOf: seq<Node>, summary: seq<MessageInfo>, i: nat)
    requires i <= |nodeOf| <= |summary|
  {
    && Agreed(f, ids, up)
    && (forall n | n in f.nodes :: n in ids.Values || n in nodeOf[..i])
    && forall j | 0 <= j < i ::
         var chain := Chain(Own(summary, j), summary[j].references);
         && nodeOf[j] in f.nodes && Rises(f, ids, nodeOf[j], chain)
         && (chain == [] && nodeOf[j] !in ids.Values ==> Parent(f, nodeOf[j]) == null)
  }

  /** Every message has a node of its own: the one of its id, or one that no id has. */
  ghost predicate Owned(ids: map<nat, Node>, nodeOf: seq<Node>, summary: seq<MessageInfo>)
    requires |nodeOf| == |summary|
  {
    NoDup(nodeOf) && forall i | 0 <= i < |nodeOf| :: Stands(ids, Own(summary, i), nodeOf[i])
  }

  lemma OwnedAll(f: Forest, ids: map<nat, Node>, noIds: map<MessageInfo, Node>, nodeOf: seq<Node>, hist: seq<Forest>,
                 summary: seq<MessageInfo>)
    requires |nodeOf| == |summary| && NoDup(summary) && NoDup(nodeOf)
    requires Progress(f, ids, noIds, nodeOf, hist, summary) && Tabled(f, ids, noIds)
    ensures Owned(ids, nodeOf, summary)
  {
    forall i | 0 <= i < |nodeOf| ensures Stands(ids, Own(summary, i), nodeOf[i]) {
      if !FirstOfId(summary, i) { assert nodeOf[i] in noIds.Values; }
    }
  }

  lemma EnterAgreed(f: Forest, ids: map<nat, Node>, up: map<nat, nat>, c: Node)
    requires Agreed(f, ids, up) && c != f.hdr
    ensures var g := Enter(f, c);
      && Agreed(g, ids, up) && g.hdr == f.hdr && g.nodes == f.nodes + {c} && forall n :: Parent(g, n) == Parent(f, n)
  {
    var h := if c in f.nodes then f else f.AddNode(c);
    if c !in f.nodes { AddNodeOk(f, c); }
    MsgsOk(h, f.msgs + {c});
  }

  lemma OwnedAt(f: Forest, ids: map<nat, Node>, nodeOf: seq<Node>, summary: seq<MessageInfo>, i: nat)
    requires i < |nodeOf| == |summary| && Owned(ids, nodeOf, summary)
    requires f.Shaped() && forall n | n in f.nodes :: n in ids.Values || n in nodeOf[..i]
    ensures Stands(ids, Own(summary, i), nodeOf[i]) && forall j | 0 <= j < i :: nodeOf[j] != nodeOf[i]
    ensures nodeOf[i] !in ids.Values ==> nodeOf[i] !in f.nodes && Parent(f, nodeOf[i]) == null
  {
  }

  lemma PlacedNext(f: Forest, ids: map<nat, Node>, up: map<nat, nat>, rank: map<nat, nat>,
                   nodeOf: seq<Node>, summary: seq<MessageInfo>, i: nat)
    requires i < |nodeOf| == |summary| && Placed(f, ids, up, nodeOf, summary, i) && Owned(ids, nodeOf, summary)
    requires Distinct(f.hdr, ids) && Rising(up, rank) && Agree(summary, up) && nodeOf[i] != f.hdr
    requires forall r | r in summary[i].references && r != 0 :: r in ids
    ensures var g := Grown(f, ids, nodeOf[i], summary[i]);
      Placed(g, ids, up, nodeOf, summary, i + 1) && g.hdr == f.hdr
  {
    hide Agreed, Rising, Distinct, Rises, LinkChain, Follows, Enter, Parent;
    var c, own := nodeOf[i], Own(summary, i);
    var e, chain := Enter(f, c), Chain(own, summary[i].references);
    EnterAgreed(f, ids, up, c);
    ChainAgreed(e, ids, up, rank, own, c, summary[i].references);
    var (g, last) := LinkChain(e, ids, c, summary[i].references);
    assert nodeOf[..i + 1] == nodeOf[..i] + [c];
    assert f.Shaped() by { ShapedIs(f, ids, up); }
    OwnedAt(f, ids, nodeOf, summary, i);
    forall j | 0 <= j < i + 1
      ensures var chain := Chain(Own(summary, j), summary[j].references);
        && nodeOf[j] in g.nodes && Rises(g, ids, nodeOf[j], chain)
        && (chain == [] && nodeOf[j] !in ids.Values ==> Parent(g, nodeOf[j]) == null)
    {
      var chain := Chain(Own(summary, j), summary[j].references);
      if j < i {
        RisesSame(f, e, ids, nodeOf[j], chain);
        RisesStill(e, g, ids, c, nodeOf[j], chain);
      }
    }
  }

  lemma ShapedIs(f: Forest, ids: map<nat, Node>, up: map<nat, nat>)
    requires Agreed(f, ids, up)
    ensures f.Shaped()
  {
  }

  lemma RisesSame(f: Forest, g: Forest, ids: map<nat, Node>, first: Node, chain: seq<nat>)
    requires Rises(f, ids, first, chain) && forall n :: Parent(g, n) == Parent(f, n)
    ensures Rises(g, ids, first, chain)
  {
  }

  lemma NothingPlaced(hdr: Node, ids: map<nat, Node>, up: map<nat, nat>, nodeOf: seq<Node>, summary: seq<MessageInfo>)
    requires |nodeOf| == |summary|
    ensures Placed(EmptyForest(hdr), ids, up, nodeOf, summary, 0)
  {
  }

  lemma {:induction false} HistoryPlaced(hist: seq<Forest>, hdr: Node, ids: map<nat, Node>, up: map<nat, nat>, rank: map<nat, nat>,
                                         nodeOf: seq<Node>, summary: seq<MessageInfo>, i: nat)
    requires i <= |nodeOf| == |summary| && History(hist, ids, nodeOf, summary) && hist[0] == EmptyForest(hdr)
    requires Known(ids, summary) && Owned(ids, nodeOf, summary) && hdr !in nodeOf
    requires Distinct(hdr, ids) && Rising(up, rank) && Agree(summary, up)
    ensures Placed(hist[i], ids, up, nodeOf, summary, i) && hist[i].hdr == hdr
  {
    hide Placed, Rising, Distinct, Agree, Owned, Grown;
    if i == 0 {
      NothingPlaced(hdr, ids, up, nodeOf, summary);
    } else {
      HistoryPlaced(hist, hdr, ids, up, rank, nodeOf, summary, i - 1);
      var mi := summary[i - 1];
      assert mi in summary && NonZero(mi.references) <= ids.Keys;
      forall r | r in mi.references && r != 0 ensures r in ids { assert r in NonZero(mi.references); }
      PlacedNext(hist[i - 1], ids, up, rank, nodeOf, summary, i - 1);
    }
  }

  // ---------------------------------------------------------------- lines of ancestors

  /** The nodes of the ids. */
  ghost function Nodes(ids: map<nat, Node>, chain: seq<nat>): (s: seq<Node>)
    requires forall r | r in chain :: r in ids
    ensures |s| == |chain| && forall j | 0 <= j < |chain| :: s[j] == ids[chain[j]]
  {
    seq(|chain|, j requires 0 <= j < |chain| => ids[chain[j]])
  }

  ghost function NodeAt(n: Node, s: seq<Node>, j: nat): Node
    requires j <= |s|
  {
    if j == 0 then n else s[j - 1]
  }

  lemma {:induction false} LineStarts(f: Forest, n: Node, s: seq<Node>)
    requires f.Ok() && n in f.nodes && forall j | 0 <= j < |s| :: Parent(f, NodeAt(n, s, j)) == s[j]
    ensures s <= f.anc[n]
    ensures Parent(f, NodeAt(n, s, |s|)) == null ==> f.anc[n] == s
    decreases |s|
  {
    if s != [] {
      var p := s[0];
      assert Parent(f, NodeAt(n, s, 0)) == p;
      assert f.Placed(n) && f.Holds(p, n) && f.anc[n] == [p] + f.anc[p];
      forall j | 0 <= j < |s| - 1 ensures Parent(f, NodeAt(p, s[1..], j)) == s[1..][j] {
        assert Parent(f, NodeAt(n, s, j + 1)) == s[j + 1];
      }
      LineStarts(f, p, s[1..]);
      assert s == [p] + s[1..];
    }
  }

  /** When the references agree, the line of ancestors of every message begins with the nodes of its
      references, nearest first; it is nothing else if nothing is said to be above the last of them. */
  lemma LinesCited(f: Forest, ids: map<nat, Node>, noIds: map<MessageInfo, Node>, nodeOf: seq<Node>, hist: seq<Forest>,
                   summary: seq<MessageInfo>, up: map<nat, nat>, rank: map<nat, nat>, i: nat)
    requires i < |nodeOf| == |summary| && NoDup(summary) && NoDup(nodeOf) && f.hdr !in nodeOf && f.hdr !in f.nodes
    requires Progress(f, ids, noIds, nodeOf, hist, summary) && Tabled(f, ids, noIds)
    requires Agree(summary, up) && Rising(up, rank)
    ensures var own := Own(summary, i); var chain := Chain(own, summary[i].references);
      && nodeOf[i] in f.anc && (forall r | r in chain :: r in ids) && Nodes(ids, chain) <= f.anc[nodeOf[i]]
      && (End(own, chain) !in up ==> f.anc[nodeOf[i]] == Nodes(ids, chain))
  {
    hide Agreed, Rising, Agree, Follows, History, Known, Grown;
    var own := Own(summary, i);
    var chain := Chain(own, summary[i].references);
    OwnedAll(f, ids, noIds, nodeOf, hist, summary);
    assert summary[..|summary|] == summary;
    HistoryPlaced(hist, f.hdr, ids, up, rank, nodeOf, summary, |summary|);
    assert Stands(ids, own, nodeOf[i]);
    AgreedOk(f, ids, up);
    assert Rises(f, ids, nodeOf[i], chain);
    var s := Nodes(ids, chain);
    forall j | 0 <= j < |s| ensures Parent(f, NodeAt(nodeOf[i], s, j)) == s[j] {
      assert Parent(f, NodeBefore(ids, nodeOf[i], chain, j)) == ids[chain[j]];
    }
    LineStarts(f, nodeOf[i], s);
    if End(own, chain) !in up { TopOf(f, ids, up, own, nodeOf[i], chain); }
  }

  lemma AgreedOk(f: Forest, ids: map<nat, Node>, up: map<nat, nat>)
    requires Agreed(f, ids, up)
    ensures f.Ok()
  {
  }

  /** Nothing is above the end of a chain of which `up` says nothing. */
  lemma TopOf(f: Forest, ids: map<nat, Node>, up: map<nat, nat>, own: nat, first: Node, chain: seq<nat>)
    requires Agreed(f, ids, up) && Stands(ids, own, first) && Rises(f, ids, first, chain) && End(own, chain) !in up
    requires chain == [] && first !in ids.Values ==> Parent(f, first) == null
    ensures Parent(f, NodeAt(first, Nodes(ids, chain), |chain|)) == null
  {
    if chain != [] { assert chain[|chain| - 1] in chain; }
  }

  // ---------------------------------------------------------------- the tree that is delivered

  /** Message `j` is the one that the id stands for. */
  ghost predicate Bears(summary: seq<MessageInfo>, j: nat, id: nat) {
    j < |summary| && id != 0 && Own(summary, j) == id
  }

  /** The nodes of those messages of the summary that the ids stand for, in order. */
  ghost function Found(summary: seq<MessageInfo>, nodeOf: seq<Node>, chain: seq<nat>): seq<Node>
    requires |nodeOf| == |summary|
  {
    if chain == [] then []
    else
      (if j: nat :| Bears(summary, j, chain[0]) then [nodeOf[j]] else []) + Found(summary, nodeOf, chain[1..])
  }

  lemma {:induction false} FoundAre(msgs: set<Node>, ids: map<nat, Node>, nodeOf: seq<Node>, summary: seq<MessageInfo>, chain: seq<nat>)
    requires |nodeOf| == |summary| && Owned(ids, nodeOf, summary) && Injective(ids) && msgs == (set n | n in nodeOf)
    requires forall r | r in chain :: r in ids && r != 0
    ensures Found(summary, nodeOf, chain) == Only(Nodes(ids, chain), msgs)
  {
    if chain != [] {
      var k, s := chain[0], Nodes(ids, chain);
      assert k in chain && s[1..] == Nodes(ids, chain[1..]);
      FoundAre(msgs, ids, nodeOf, summary, chain[1..]);
      forall j: nat | Bears(summary, j, k) ensures nodeOf[j] == ids[k] { assert Stands(ids, k, nodeOf[j]); }
      if ids[k] in msgs {
        var j := IndexOf(nodeOf, ids[k]);
        assert Stands(ids, Own(summary, j), nodeOf[j]) && nodeOf[j] in ids.Values;
        assert Bears(summary, j, k);
      }
    }
  }

  lemma {:induction false} OnlyPrefix<T>(s: seq<T>, t: seq<T>, keep: set<T>)
    requires s <= t
    ensures Only(s, keep) <= Only(t, keep)
  {
    if s != [] { OnlyPrefix(s[1..], t[1..], keep); }
  }

  /** In the tree that is delivered, with or without grouping by subject: when the references agree, the
      nearest ancestors of every message are the messages it refers to, nearest first. */
  lemma RepliesBelow(r: Phases, ord: map<Node, nat>, summary: seq<MessageInfo>, subject: bool,
                     up: map<nat, nat>, rank: map<nat, nat>, i: nat)
    requires i < |r.nodeOf| == |summary| && NoDup(summary) && Threaded(r, ord, summary, subject)
    requires r.Final().Ok() && r.Final().nodes == r.Final().msgs
    requires subject ==> r.states != [] && r.pruned.Shaped() && Begins(r.pruned, r.states[0])
    requires Agree(summary, up) && Rising(up, rank)
    ensures r.nodeOf[i] in r.Final().anc
    ensures Found(summary, r.nodeOf, Chain(Own(summary, i), summary[i].references)) <= r.Final().anc[r.nodeOf[i]]
  {
    hide *;
    LinkedFacts(r, ord, summary, subject);
    var f, n, chain := r.Linked(), r.nodeOf[i], Chain(Own(summary, i), summary[i].references);
    ReferencesKept(r, ord, summary, subject);
    assert n in f.msgs;
    HasLine(r.Final(), n);
    LinesCited(f, r.ids, r.noIds, r.nodeOf, r.hist, summary, up, rank, i);
    OwnedAll(f, r.ids, r.noIds, r.nodeOf, r.hist, summary);
    FoundAre(f.msgs, r.ids, r.nodeOf, summary, chain);
    OnlyPrefix(Nodes(r.ids, chain), f.anc[n], f.msgs);
    CitedIs(f, n);
  }

  lemma HasLine(f: Forest, n: Node)
    requires f.Ok() && n in f.nodes
    ensures n in f.anc
  {
  }

  lemma CitedIs(f: Forest, n: Node)
    requires n in f.anc
    ensures Cited(f, n) == Only(f.anc[n], f.msgs)
  {
  }

  lemma LinkedFacts(r: Phases, ord: map<Node, nat>, summary: seq<MessageInfo>, subject: bool)
    requires |r.nodeOf| == |summary| && Threaded(r, ord, summary, subject)
    ensures r.hist != [] && r.tops != [] && var f := r.Linked();
      && Progress(f, r.ids, r.noIds, r.nodeOf, r.hist, summary) && Tabled(f, r.ids, r.noIds) && NoDup(r.nodeOf)
      && f.msgs == (set n | n in r.nodeOf) && f.Shaped() && f.hdr !in f.nodes && f.hdr !in r.nodeOf && Injective(r.ids)
  {
  }
}
