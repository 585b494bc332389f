/** thread_summary: the five phases one after the other. */
module ThreadSummary {
  import opened SeqFacts
  import opened ThreadForest
  import opened ThreadLinks
  import opened ThreadBuild
  import opened ThreadPrune
  import opened ThreadGroup
  import opened ThreadGroupRun
  import opened ThreadSort
  import opened ThreadTop

  /** The forests between the phases: linked by references, with its roots listed, pruned, grouped
      by subject (the states of the loop), sorted, and without pseudo nodes. */
  datatype Phases = Phases(ids: map<nat, Node>, noIds: map<MessageInfo, Node>, nodeOf: seq<Node>, hist: seq<Forest>,
                           rooted: Forest, pruned: Forest, states: seq<Grouping>, ps: seq<Node>,
                           sorted: Forest, tops: seq<Forest>)
  {
    ghost function Linked(): Forest
      requires hist != []
    {
      hist[|hist| - 1]
    }

    ghost function Grouped(): Forest {
      if states == [] then pruned else states[|states| - 1].f
    }

    ghost function Final(): Forest
      requires tops != []
    {
      tops[|tops| - 1]
    }
  }

  ghost function Orders(nodeOf: seq<Node>): map<Node, nat>
    reads nodeOf`order
  {
    map n | n in nodeOf :: n.order
  }

  /** The root list is all that the second forest adds to the first. */
  ghost predicate RootsListed(f: Forest, g: Forest) {
    && f.Ok() && g.Ok() && g.Rooted() && g.hdr == f.hdr && g.hdr in g.kids
    && g == f.(kids := f.kids[g.hdr := g.kids[g.hdr]])
  }

  ghost predicate GroupedBy(f: Forest, states: seq<Grouping>, ps: seq<Node>) {
    && Run(states, ps) && states[0].f == f
    && var g := states[|ps|]; g.f.hdr in g.f.kids && g.i == |g.Roots()|
  }

  /** What each phase makes of the forest before it. */
  ghost predicate Threaded(r: Phases, ord: map<Node, nat>, summary: seq<MessageInfo>, subject: bool) {
    && |r.nodeOf| == |summary| && r.hist != [] && r.tops != []
    && Progress(r.Linked(), r.ids, r.noIds, r.nodeOf, r.hist, summary)
    && Tabled(r.Linked(), r.ids, r.noIds) && NoDup(r.nodeOf) && r.Linked().msgs == (set n | n in r.nodeOf)
    && r.Linked().msgs <= r.Linked().nodes && RootsListed(r.Linked(), r.rooted)
    && Pruning(r.rooted, r.pruned, r.rooted.hdr) && Pruned(r.pruned, r.rooted.hdr) && Dissolved(r.rooted, r.pruned)
    && (if subject then GroupedBy(r.pruned, r.states, r.ps) else r.states == [])
    && SortedFrom(r.Grouped(), r.sorted, ord, r.sorted.hdr)
    && TopRun(r.tops) && r.tops[0] == r.sorted
  }

  // ---------------------------------------------------------------- from phase to phase

  lemma AssignedOrders(f: Forest, nodeOf: seq<Node>, summary: seq<MessageInfo>)
    requires |nodeOf| <= |summary| && Assigned(f, nodeOf, summary)
    ensures NoDup(nodeOf) && DistinctOrders(f, Orders(nodeOf))
    ensures forall i | 0 <= i < |nodeOf| :: nodeOf[i] in Orders(nodeOf) && Orders(nodeOf)[nodeOf[i]] == i + 1
  {
    forall n | n in nodeOf ensures n in Orders(nodeOf) && Orders(nodeOf)[n] == IndexOf(nodeOf, n) + 1 {}
  }

  lemma AfterRoots(f: Forest, g: Forest, nodeOf: seq<Node>, summary: seq<MessageInfo>)
    requires f.Ok() && RootsOf(f, g, f.nodes) && g.Rooted()
    requires |nodeOf| <= |summary| && Assigned(f, nodeOf, summary)
    ensures RootsListed(f, g) && Pointers(g) && Numbered(g, Orders(nodeOf)) && g.hdr == f.hdr && g.hdr in g.kids && g.nodes == f.nodes
  {
    AssignedOrders(f, nodeOf, summary);
  }

  lemma NumberedStill(f: Forest, g: Forest, ord: map<Node, nat>)
    requires Numbered(f, ord) && g.msgs == f.msgs && Marked(g)
    ensures Numbered(g, ord)
  {
  }

  /** What sorting and the last phase start from. */
  ghost predicate Ready(f: Forest, ord: map<Node, nat>)
    reads f.hdr`child, f.nodes`next, f.nodes`child, f.nodes`parent, f.nodes`message, f.nodes`order
  {
    f.Shaped() && f.Ok() && f.Rooted() && SortState(f, ord) && ParentsNear(f) && f.hdr in f.kids
  }

  lemma ReadyParts(f: Forest, ord: map<Node, nat>)
    requires Ready(f, ord)
    ensures f.Shaped() && f.Ok() && f.Rooted() && SortState(f, ord) && ParentsNear(f) && f.hdr in f.kids
  {
  }

  lemma AfterPruning(f: Forest, g: Forest, ord: map<Node, nat>)
    requires Pointers(g) && Pruning(f, g, f.hdr) && Pruned(g, f.hdr) && Numbered(f, ord)
    ensures g.Shaped() && g.Ok() && g.Rooted() && Linked(g) && ParentsExact(g) && Marked(g) && RootsFull(g) && g.hdr == f.hdr
    ensures g.hdr in g.kids && g.nodes <= f.nodes && g.msgs == f.msgs
    ensures Ready(g, ord)
  {
    NumberedStill(f, g, ord);
    assert RootsFull(g) && EmptyRoots(g) by {
      forall n | n in g.nodes && n !in g.msgs ensures g.anc[n] == [] && |g.kids[n]| >= 2 {
        assert n in g.Under(g.hdr);
        assert Settled(g, n);
      }
    }
    forall n | n in g.nodes ensures ParentNear(g, n) {}
  }

  lemma AfterGrouping(f: Forest, g: Grouping, ord: map<Node, nat>)
    requires Finished(g) && g.f.msgs == f.msgs && Numbered(f, ord)
    ensures Ready(g.f, ord)
  {
    assert EmptyRoots(g.f) by {
      forall n | n in g.f.nodes && n !in g.f.msgs ensures g.f.anc[n] == [] && g.f.kids[n] != [] {
        assert g.Anchored(n);
      }
    }
    NumberedStill(f, g.f, ord);
    forall n | n in g.f.nodes ensures ParentNear(g.f, n) { assert ParentOk(g, n); }
  }

  lemma AfterSorting(f: Forest, g: Forest, ord: map<Node, nat>)
    requires f.Shaped() && g.Shaped() && ParentsNear(f) && SortedFrom(f, g, ord, f.hdr)
    ensures ParentsNear(g) && g.hdr in g.kids && Increasing(g, ord, g.hdr) && g.msgs == f.msgs
  {
    forall n | n in g.nodes ensures ParentNear(g, n) { assert ParentNear(f, n); }
  }

  // ---------------------------------------------------------------- the whole of it

  lemma AfterBuilding(f: Forest, ids: map<nat, Node>, noIds: map<MessageInfo, Node>,
                      nodeOf: seq<Node>, hist: seq<Forest>, summary: seq<MessageInfo>)
    requires |nodeOf| == |summary| && Linking(f, ids, noIds) && Progress(f, ids, noIds, nodeOf, hist, summary)
    ensures hist != [] && hist[|hist| - 1] == f && f.Ok() && f.msgs <= f.nodes && Tabled(f, ids, noIds)
  {
  }

  lemma RunFrom(f: Forest, states: seq<Grouping>, ps: seq<Node>)
    requires f.Shaped() && |states| == |ps| + 1 && Run(states, ps) && Begins(f, states[0])
    requires Finished(states[|ps|])
    ensures GroupedBy(f, states, ps)
  {
  }

  lemma AllThreaded(r: Phases, linked: Forest, grouped: Forest, ord: map<Node, nat>, summary: seq<MessageInfo>, subject: bool)
    requires |r.nodeOf| == |summary| && r.hist != [] && r.tops != [] && linked == r.hist[|r.hist| - 1]
    requires Progress(linked, r.ids, r.noIds, r.nodeOf, r.hist, summary) && RootsListed(linked, r.rooted) && linked.msgs <= linked.nodes
    requires Tabled(linked, r.ids, r.noIds) && NoDup(r.nodeOf) && linked.msgs == (set n | n in r.nodeOf)
    requires Pruning(r.rooted, r.pruned, r.rooted.hdr) && Pruned(r.pruned, r.rooted.hdr) && Dissolved(r.rooted, r.pruned)
    requires if subject then GroupedBy(r.pruned, r.states, r.ps) else r.states == []
    requires grouped == if r.states == [] then r.pruned else r.states[|r.states| - 1].f
    requires SortedFrom(grouped, r.sorted, ord, r.sorted.hdr) && TopRun(r.tops) && r.tops[0] == r.sorted
    ensures Threaded(r, ord, summary, subject) && r.Final() == r.tops[|r.tops| - 1]
  {
  }

  /** What a caller of thread_summary sees: the tree holds every message of the summary exactly
      once and nothing else, and its pointers are exact. */
  ghost predicate Delivered(f: Forest, nodeOf: seq<Node>, summary: seq<MessageInfo>)
    reads f.hdr`child, f.nodes`next, f.nodes`child, f.nodes`parent, nodeOf`message, nodeOf`order
  {
    && f.Ok() && f.Rooted() && Linked(f) && ParentsExact(f)
    && NoDup(nodeOf) && f.nodes == f.msgs == (set n | n in nodeOf) && |nodeOf| == |summary|
    && (forall i | 0 <= i < |nodeOf| :: nodeOf[i].message == summary[i] && nodeOf[i].order == i + 1)
    && f.hdr in f.kids && forall i, j | 0 <= i < j < |f.kids[f.hdr]| ::
         (var a, b := f.kids[f.hdr][i], f.kids[f.hdr][j]; a in f.nodes && b in f.nodes && a.order < b.order)
  }

  lemma DeliveredAtEnd(f: Forest, ord: map<Node, nat>, nodeOf: seq<Node>, summary: seq<MessageInfo>)
    requires Topped(f, ord) && |nodeOf| == |summary| && NoDup(nodeOf)
    requires f.msgs == (set n | n in nodeOf)
    requires forall i | 0 <= i < |nodeOf| :: nodeOf[i].message == summary[i] && nodeOf[i].order == i + 1
    ensures Delivered(f, nodeOf, summary)
  {
    var r := f.kids[f.hdr];
    forall i, j | 0 <= i < j < |r| ensures r[i] in f.nodes && r[j] in f.nodes && r[i].order < r[j].order {
      assert f.Holds(f.hdr, r[i]) && f.Holds(f.hdr, r[j]);
      assert Key(f, ord, r[i]) < Key(f, ord, r[j]);
    }
  }

  lemma AssignedParts(f: Forest, nodeOf: seq<Node>, summary: seq<MessageInfo>)
    requires |nodeOf| == |summary| && Assigned(f, nodeOf, summary)
    ensures f.msgs == (set n | n in nodeOf) && NoDup(nodeOf)
    ensures forall i | 0 <= i < |nodeOf| :: nodeOf[i].message == summary[i] && nodeOf[i].order == i + 1
  {
  }

  lemma RootsListedMsgs(f: Forest, g: Forest)
    requires RootsListed(f, g)
    ensures g.msgs == f.msgs && g.Shaped()
  {
  }

  /** References and pruning. */
  method LinkAndPrune(summary: seq<MessageInfo>, hdr: Node)
      returns (ids: map<nat, Node>, noIds: map<MessageInfo, Node>, ghost nodeOf: seq<Node>, ghost hist: seq<Forest>,
               ghost rooted: Forest, ghost g: Forest)
    requires NoDup(summary) && hdr.child == null
    modifies hdr`child
    ensures |nodeOf| == |summary| && hist != [] && RootsListed(hist[|hist| - 1], rooted)
    ensures Progress(hist[|hist| - 1], ids, noIds, nodeOf, hist, summary) && hist[|hist| - 1].msgs <= hist[|hist| - 1].nodes
    ensures Tabled(hist[|hist| - 1], ids, noIds) && hist[|hist| - 1].msgs == (set n | n in nodeOf)
    ensures rooted.hdr == hdr && Pruning(rooted, g, hdr) && Pruned(g, hdr) && Dissolved(rooted, g)
    ensures Ready(g, Orders(nodeOf)) && RootsFull(g) && Marked(g) && Linked(g) && ParentsExact(g)
    ensures g.hdr == hdr && fresh(g.nodes) && g.msgs == (set n | n in nodeOf) && NoDup(nodeOf)
    ensures forall i | 0 <= i < |nodeOf| :: nodeOf[i].message == summary[i] && nodeOf[i].order == i + 1
  {
    hide *;
    ghost var f;
    f, ids, noIds, nodeOf, hist := BuildForest(summary, hdr);
    AfterBuilding(f, ids, noIds, nodeOf, hist, summary);
    AssignedParts(f, nodeOf, summary);
    ghost var ord := Orders(nodeOf);
    rooted := ListRoots(f, ids, noIds, hdr);
    AfterRoots(f, rooted, nodeOf, summary);
    RootsListedMsgs(f, rooted);
    g := PruneEmpty(rooted, hdr);
    AfterPruning(rooted, g, ord);
  }

  /** group_root_set, if threading by subject is allowed. */
  method GroupIf(ghost f: Forest, ghost ord: map<Node, nat>, hdr: Node, subject: bool)
      returns (ghost states: seq<Grouping>, ghost ps: seq<Node>, ghost g: Forest)
    requires Ready(f, ord) && RootsFull(f) && Marked(f) && Linked(f) && ParentsExact(f) && f.hdr == hdr
    modifies hdr`child, f.nodes`next, f.nodes`child, f.nodes`parent, f.nodes`rootSubject, f.nodes`re
    ensures if subject then states != [] && GroupedBy(f, states, ps) && f.Shaped() && Begins(f, states[0]) && Whole(f, states, ps) else states == []
    ensures g == if states == [] then f else states[|states| - 1].f
    ensures Ready(g, ord) && g.hdr == hdr && g.msgs == f.msgs && fresh(g.nodes - f.nodes)
  {
    hide *;
    states, ps, g := [], [], f;
    ReadyParts(f, ord);
    if subject {
      states, ps := GroupRootSet(f, hdr);
      RunFrom(f, states, ps);
      g := states[|ps|].f;
      AfterGrouping(f, states[|ps|], ord);
    }
  }

  method SortAndPromote(ghost f: Forest, ghost ord: map<Node, nat>, hdr: Node)
      returns (ghost g: Forest, ghost tops: seq<Forest>)
    requires Ready(f, ord) && f.hdr == hdr
    modifies hdr`child, f.nodes`next, f.nodes`child, f.nodes`parent
    ensures SortedFrom(f, g, ord, hdr) && g.hdr == hdr && TopRun(tops) && tops != [] && tops[0] == g
    ensures var t := tops[|tops| - 1]; Topped(t, ord) && t.hdr == hdr && t.nodes <= f.nodes && t.msgs == f.msgs
  {
    hide *;
    ReadyParts(f, ord);
    g := SortThread(f, ord, hdr);
    AfterSorting(f, g, ord);
    tops := RemovePhantoms(g, ord, hdr);
  }

  /** thread_summary */
  method ThreadSummary(summary: seq<MessageInfo>, subject: bool) returns (head: Node?, ghost r: Phases)
    requires NoDup(summary)
    ensures |r.nodeOf| == |summary| && r.tops != [] && Delivered(r.Final(), r.nodeOf, summary) && head == r.Final().hdr.child
    ensures Threaded(r, Orders(r.nodeOf), summary, subject)
    ensures subject ==> r.states != [] && r.pruned.Shaped() && Begins(r.pruned, r.states[0]) && Whole(r.pruned, r.states, r.ps)
    ensures fresh(r.Final().nodes + {r.Final().hdr})
  {
    hide *;
    var hdr := new Node();
    ghost var rooted, f, g, nodeOf, hist, states, ps, sorted, tops;
    var ids, noIds;
    ids, noIds, nodeOf, hist, rooted, f := LinkAndPrune(summary, hdr);
    ghost var ord := Orders(nodeOf);
    states, ps, g := GroupIf(f, ord, hdr, subject);
    sorted, tops := SortAndPromote(g, ord, hdr);
    head := hdr.child;
    r := Phases(ids, noIds, nodeOf, hist, rooted, f, states, ps, sorted, tops);
    DeliveredAtEnd(tops[|tops| - 1], ord, nodeOf, summary);
    AllThreaded(r, hist[|hist| - 1], g, ord, summary, subject);
  }
}
