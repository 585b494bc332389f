/** What becomes of the roots that share a subject: which of them the table names, and where each of
    them is when the merge is done. */
module ThreadOutcome {
  import opened SeqFacts
  import opened ThreadForest
  import opened ThreadLinks
  import opened ThreadGroup
  import opened ThreadGroupRun
  import opened ThreadSubject

  // ---------------------------------------------------------------- the node in the table

  /** The roots, their subjects, and the nodes that carry a message. */
  datatype Labels = Labels(subj: map<Node, Subject>, msgs: set<Node>) {

    ghost predicate Has(n: Node, s: string) {
      n in subj && subj[n].root == s
    }

    /** A message that is no reply. */
    ghost predicate Original(n: Node, s: string) {
      Has(n, s) && n in msgs && !subj[n].re
    }

    /** A message that is a reply. */
    ghost predicate Reply(n: Node, s: string) {
      Has(n, s) && n in msgs && subj[n].re
    }

    /** A node without a message. */
    ghost predicate Empty(n: Node, s: string) {
      Has(n, s) && n !in msgs
    }

    /** A reply, or a node that stands for a thread whose first message is no reply: each of the two
        takes the place of the other in the table. */
    ghost predicate Rival(n: Node, s: string) {
      Reply(n, s) || (Empty(n, s) && !subj[n].re)
    }

    /** The root the table is to name: the first original; without one, the first of the last rivals
        of one kind; without rivals, the first of all. */
    ghost predicate Chosen(r: seq<Node>, s: string, i: nat) {
      && i < |r| && Has(r[i], s)
      && ((Original(r[i], s) && forall j | 0 <= j < i :: !Original(r[j], s))
          || ((forall j | 0 <= j < |r| :: !Original(r[j], s))
              && ((Rival(r[i], s) && LastTurn(r, s, i))
                  || ((forall j | 0 <= j < |r| :: !Rival(r[j], s)) && forall j | 0 <= j < i :: !Has(r[j], s)))))
    }

    /** All rivals behind entry `i` are of its kind, and the nearest one before it is not. */
    ghost predicate LastTurn(r: seq<Node>, s: string, i: nat)
      requires i < |r|
    {
      && (forall k | i < k < |r| && Rival(r[k], s) :: r[k] in msgs <==> r[i] in msgs)
      && forall j | 0 <= j < i && Rival(r[j], s) && (forall k | j < k < i :: !Rival(r[k], s)) ::
           r[j] in msgs <==> r[i] !in msgs
    }
  }

  /** Whatever order the roots come in, the table names the chosen one. */
  lemma {:induction false} TableIsChosen(r: seq<Node>, l: Labels, s: string)
    requires (forall n | n in r :: n in l.subj) && s in Gathered(r, l.subj, l.msgs)
    ensures exists i :: 0 <= i < |r| && Gathered(r, l.subj, l.msgs)[s] == r[i] && l.Chosen(r, s, i)
  {
    var n := |r| - 1;
    var c, before := r[n], r[..n];
    var t := Gathered(before, l.subj, l.msgs);
    if s in t {
      TableIsChosen(before, l, s);
      var i :| 0 <= i < n && t[s] == before[i] && l.Chosen(before, s, i);
      if l.Has(c, s) && s != "" && Supersedes(l.subj, l.msgs, c, t[s]) {
        NextChosen(r, l, s, i);
        assert Gathered(r, l.subj, l.msgs)[s] == r[n];
      } else {
        StillChosen(r, l, s, i);
        assert Gathered(r, l.subj, l.msgs)[s] == r[i];
      }
    } else {
      forall j | 0 <= j < n ensures !l.Has(r[j], s) {
        assert r[j] == before[j];
        if l.Has(r[j], s) { GatheredAll(before, l.subj, l.msgs, r[j]); }
      }
      assert l.Chosen(r, s, n);
    }
  }

  lemma StillChosen(r: seq<Node>, l: Labels, s: string, i: nat)
    requires r != [] && (forall n | n in r :: n in l.subj) && l.Chosen(r[..|r| - 1], s, i) && s != ""
    requires l.Has(r[|r| - 1], s) ==> !Supersedes(l.subj, l.msgs, r[|r| - 1], r[i])
    ensures l.Chosen(r, s, i)
  {
    var before := r[..|r| - 1];
    assert forall j | 0 <= j < |before| :: before[j] == r[j];
    assert before[i] == r[i];
  }

  lemma NextChosen(r: seq<Node>, l: Labels, s: string, i: nat)
    requires r != [] && (forall n | n in r :: n in l.subj) && l.Chosen(r[..|r| - 1], s, i) && s != ""
    requires l.Has(r[|r| - 1], s) && Supersedes(l.subj, l.msgs, r[|r| - 1], r[i])
    ensures l.Chosen(r, s, |r| - 1)
  {
    var before := r[..|r| - 1];
    assert forall j | 0 <= j < |before| :: before[j] == r[j];
    assert before[i] == r[i];
  }

  // ---------------------------------------------------------------- what a turn does

  /** The loop's state, as far as parents go: the roots passed and those ahead, the parent of every node
      that has one, and what the nodes are. */
  datatype Scene = Scene(passed: set<Node>, ahead: set<Node>, parent: map<Node, Node>, l: Labels, table: map<string, Node>) {

    ghost predicate Root(n: Node) {
      n in l.subj && n !in parent
    }

    /** The roots are those passed and those ahead. */
    ghost predicate Ok() {
      && passed !! ahead && (forall n | n in passed + ahead :: Root(n)) && (forall n | n in l.subj && n !in parent :: n in passed + ahead)
      && parent.Keys <= l.subj.Keys && l.msgs <= l.subj.Keys
    }

    ghost predicate Under(n: Node, p: Node) {
      n in parent && parent[n] == p
    }
  }

  ghost function SceneOf(g: Grouping): Scene
    requires g.Shaped()
  {
    var r := g.Roots();
    Scene((set n | n in r[..g.i]), (set n | n in r[g.i..]), map n | n in g.f.nodes && g.f.anc[n] != [] :: g.f.anc[n][0], Labels(g.subj, g.f.msgs), g.table)
  }

  /** Does the table name another node for the subject of `c`? */
  ghost predicate Matched(v: Scene, c: Node) {
    c in v.l.subj && v.l.subj[c].root != "" && v.l.subj[c].root in v.table && v.table[v.l.subj[c].root] != c
  }

  /** The node is `x`. */
  ghost predicate Meets(v: Scene, c: Node, x: Node) {
    Matched(v, c) && v.table[v.l.subj[c].root] == x && v.l.Has(x, v.l.subj[c].root)
  }

  ghost predicate Keeps(v: Scene, w: Scene, c: Node, x: Node) {
    && (Matched(v, c) ==> Meets(v, c, x) && c in v.l.msgs && x in v.l.msgs && !v.l.subj[c].re && !v.l.subj[x].re)
    && w.parent == v.parent && w.l == v.l && w.table == v.table
  }

  /** `c` disappears and its children go to `x`. */
  ghost predicate Joins(v: Scene, w: Scene, c: Node, x: Node) {
    && Meets(v, c, x) && c !in v.l.msgs && x !in v.l.msgs && x !in v.parent
    && w.parent == (map n | n in v.parent :: if v.parent[n] == c then x else v.parent[n])
    && w.l == v.l.(subj := v.l.subj - {c}) && w.table == v.table
  }

  /** `c` goes below `x`. */
  ghost predicate Descends(v: Scene, w: Scene, c: Node, x: Node) {
    && Meets(v, c, x) && c in v.l.msgs && (x !in v.l.msgs || (v.l.subj[c].re && !v.l.subj[x].re))
    && w.parent == v.parent[c := x] && w.l == v.l && w.table == v.table
  }

  /** `x` goes below `c`. */
  ghost predicate Yields(v: Scene, w: Scene, c: Node, x: Node) {
    && Meets(v, c, x) && x in v.l.msgs && (c !in v.l.msgs || (!v.l.subj[c].re && v.l.subj[x].re))
    && w.parent == v.parent[x := c] && w.l == v.l && w.table == v.table
  }

  /** Both go below the new node `p`. */
  ghost predicate Pairs(v: Scene, w: Scene, c: Node, x: Node, p: Node) {
    && Meets(v, c, x) && c in v.l.msgs && x in v.l.msgs && v.l.subj[c].re && v.l.subj[x].re && p !in v.l.subj
    && w.parent == v.parent[x := p][c := p]
    && w.l == v.l.(subj := v.l.subj[p := Subject(v.l.subj[c].root, true)]) && w.table == v.table[v.l.subj[c].root := p]
  }

  ghost predicate Turned(v: Scene, w: Scene, c: Node, x: Node, p: Node) {
    && v.Ok() && w.Ok() && c in v.ahead && w.ahead <= v.ahead - {c} 
    && w.passed <= v.passed + {c} + (if p in v.l.subj then {} else {p})
    && (Keeps(v, w, c, x) || Joins(v, w, c, x) || Descends(v, w, c, x) || Yields(v, w, c, x) || Pairs(v, w, c, x, p))
  }

  lemma SceneIs(g: Grouping)
    requires g.Shaped()
    ensures View(g).passed == SceneOf(g).passed && View(g).ahead == SceneOf(g).ahead && SceneOf(g).l.subj == g.subj && SceneOf(g).l.msgs == g.f.msgs && SceneOf(g).table == g.table
    ensures forall n | n in g.f.nodes :: (n in SceneOf(g).parent <==> g.f.anc[n] != []) && ParentIn(g.f, n) == if n in SceneOf(g).parent then SceneOf(g).parent[n] else null
    ensures SceneOf(g).parent.Keys <= g.f.nodes && g.subj.Keys == g.f.nodes
    ensures g.f.Rooted() ==> SceneOf(g).Ok()
    ensures g.i < |g.Roots()| ==> g.Current() in SceneOf(g).ahead
  {
    ViewApart(g);
    forall n | n in g.Roots() ensures n in g.f.nodes && g.f.anc[n] == [] { assert g.f.Holds(g.f.hdr, n); }
  }

  lemma KeepTurns(g: Grouping, x: Node)
    requires g.Ok() && g.i < |g.Roots()|
    requires var c := g.Current(); g.Matched(c) ==>
      Meets(SceneOf(g), c, x) && c in g.f.msgs && x in g.f.msgs && !g.subj[c].re && !g.subj[x].re
    ensures SceneOf(Keep(g)).ahead <= SceneOf(g).ahead - {g.Current()} && SceneOf(Keep(g)).passed <= SceneOf(g).passed + {g.Current()}
    ensures Keeps(SceneOf(g), SceneOf(Keep(g)), g.Current(), x)
  {
    hide Grouping.TableOk, Grouping.EmptiesOk, Forest.KidsOk, Forest.PlacesOk, Forest.ListsOk;
    KeepOk(g);
    KeepMoves(g);
    SceneIs(g);
    SceneIs(Keep(g));
  }

  /** Only the parent of `x` is another one. */
  lemma OneParent(g: Grouping, h: Grouping, x: Node, p: Node)
    requires g.Shaped() && h.Shaped() && h.f.nodes == g.f.nodes && x in g.f.nodes && ParentIn(h.f, x) == p
    requires forall n | n in g.f.nodes && n != x :: ParentIn(h.f, n) == ParentIn(g.f, n)
    ensures SceneOf(h).parent == SceneOf(g).parent[x := p]
  {
    hide Forest.KidsOk, Forest.PlacesOk, Forest.ListsOk;
  }

  lemma MergedParents(g: Grouping, c: Node, x: Node)
    requires CanMerge(g, c, x) && MergeInto(g, x).Ok()
    ensures SceneOf(MergeInto(g, x)).parent
      == map n | n in SceneOf(g).parent :: if SceneOf(g).parent[n] == c then x else SceneOf(g).parent[n]
    ensures g.f.anc[x] == []
  {
    hide Grouping.TableOk, Grouping.EmptiesOk, Forest.PlacesOk, Forest.ListsOk;
    CurrentIsRoot(g, c, x);
    assert g.f.Holds(g.f.hdr, x);
  }

  lemma JoinTurns(g: Grouping, c: Node, x: Node)
    requires CanMerge(g, c, x)
    ensures MergeInto(g, x).Ok() && Joins(SceneOf(g), SceneOf(MergeInto(g, x)), c, x)
    ensures SceneOf(MergeInto(g, x)).ahead <= SceneOf(g).ahead - {c} && SceneOf(MergeInto(g, x)).passed <= SceneOf(g).passed + {c}
  {
    hide Grouping.TableOk, Grouping.EmptiesOk, Forest.KidsOk, Forest.PlacesOk, Forest.ListsOk, SceneOf, View, Forest.Merge;
    MergeRoots(g, c, x);
    var h := MergeInto(g, x);
    LeaveMoves(g, h);
    EntryHas(g, c, x);
    MergedParents(g, c, x);
    SceneIs(g);
    SceneIs(h);
  }

  lemma TwoParents(g: Grouping, h: Grouping, c: Node, x: Node, p: Node)
    requires g.Shaped() && h.Shaped() && h.f.nodes == g.f.nodes + {p} && p !in g.f.nodes && x in g.f.nodes && c in g.f.nodes
    requires ParentIn(h.f, x) == p && ParentIn(h.f, c) == p && ParentIn(h.f, p) == null
    requires forall n | n in g.f.nodes && n != x && n != c :: ParentIn(h.f, n) == ParentIn(g.f, n)
    ensures SceneOf(h).parent == SceneOf(g).parent[x := p][c := p]
  {
    hide Forest.KidsOk, Forest.PlacesOk, Forest.ListsOk;
  }

  lemma EntryHas(g: Grouping, c: Node, x: Node)
    requires At(g, c, x)
    ensures Meets(SceneOf(g), c, x)
  {
    assert g.EntryOk(g.subj[c].root);
  }

  lemma DescendTurns(g: Grouping, c: Node, x: Node)
    requires Leaver(g, c, x) && c in g.f.msgs && (x !in g.f.msgs || (g.subj[c].re && !g.subj[x].re))
    ensures AdoptCurrent(g, c, x).Ok() && Descends(SceneOf(g), SceneOf(AdoptCurrent(g, c, x)), c, x)
    ensures SceneOf(AdoptCurrent(g, c, x)).ahead <= SceneOf(g).ahead - {c} && SceneOf(AdoptCurrent(g, c, x)).passed <= SceneOf(g).passed + {c}
  {
    hide Grouping.TableOk, Grouping.EmptiesOk, Forest.KidsOk, Forest.PlacesOk, Forest.ListsOk, Moved, Uproot, SceneOf, View, DropAt;
    CurrentRoots(g, c, x);
    var h := AdoptCurrent(g, c, x);
    LeaveMoves(g, h);
    EntryHas(g, c, x);
    CurrentIsRoot(g, c, x);
    EntryLine(g, g.subj[c].root, c);
    MovedFacts(g.f, c, x);
    OneParent(g, h, c, x);
    SceneIs(g);
    SceneIs(h);
  }

  lemma YieldTurns(g: Grouping, c: Node, x: Node)
    requires Entrant(g, c, x) && x in g.f.msgs && (c !in g.f.msgs || (!g.subj[c].re && g.subj[x].re))
    ensures AdoptEntry(g, c, x).Ok() && Yields(SceneOf(g), SceneOf(AdoptEntry(g, c, x)), c, x)
    ensures SceneOf(AdoptEntry(g, c, x)).ahead <= SceneOf(g).ahead - {c} && SceneOf(AdoptEntry(g, c, x)).passed <= SceneOf(g).passed + {c}
  {
    hide Grouping.TableOk, Grouping.EmptiesOk, Forest.KidsOk, Forest.PlacesOk, Forest.ListsOk, Moved, Uproot, SceneOf, View;
    EntryMoves(g, c, x);
    var h := AdoptEntry(g, c, x);
    EntryHas(g, c, x);
    CurrentIsRoot(g, c, x);
    MovedFacts(g.f, x, c);
    OneParent(g, h, x, c);
    SceneIs(g);
    SceneIs(h);
  }

  lemma PairTurns(g: Grouping, c: Node, x: Node, p: Node)
    requires Entrant(g, c, x) && CanPair(g, c, x, p) && g.subj[c].re && g.subj[x].re
    ensures Pair(g, c, x, p).Ok() && Pairs(SceneOf(g), SceneOf(Pair(g, c, x, p)), c, x, p)
    ensures SceneOf(Pair(g, c, x, p)).ahead <= SceneOf(g).ahead - {c}
    ensures SceneOf(Pair(g, c, x, p)).passed <= SceneOf(g).passed + {p}
  {
    hide Grouping.TableOk, Grouping.EmptiesOk, Forest.KidsOk, Forest.PlacesOk, Forest.ListsOk, Uproot, PhantomIn, BothOut, SceneOf, View;
    PairMoves(g, c, x, p);
    var h := Pair(g, c, x, p);
    EntryHas(g, c, x);
    PairForest(g, c, x, p);
    TwoParents(g, h, c, x, p);
    SceneIs(g);
    SceneIs(h);
  }

  lemma StepTurns(g: Grouping, h: Grouping, p: Node)
    requires Step(g, h, p)
    ensures h.Ok() && g.Current() in g.subj
    ensures var c := g.Current();
      Turned(SceneOf(g), SceneOf(h), c, if g.Matched(c) then g.table[g.subj[c].root] else c, p)
  {
    hide Grouping.TableOk, Grouping.EmptiesOk, Forest.KidsOk, Forest.PlacesOk, Forest.ListsOk, Moved, Uproot, PhantomIn, BothOut, Pair;
    SceneIs(g);
    StepOk(g, h, p);
    SceneIs(h);
    var c := g.Current();
    KeepOk(g);
    if !g.Matched(c) {
      KeepTurns(g, c);
    } else {
      var x := g.table[g.subj[c].root];
      if c !in g.f.msgs && x !in g.f.msgs {
        JoinTurns(g, c, x);
      } else if c !in g.f.msgs || (x in g.f.msgs && g.subj[x].re && !g.subj[c].re) {
        YieldTurns(g, c, x);
      } else if x !in g.f.msgs || (g.subj[c].re && !g.subj[x].re) {
        DescendTurns(g, c, x);
      } else if g.subj[x].re {
        PairTurns(g, c, x, p);
      } else {
        EntryHas(g, c, x);
        KeepTurns(g, x);
      }
    }
  }

  // ---------------------------------------------------------------- roots with one subject

  /** The roots that share the subject `s` before the loop, what they were, the parents there were,
      and the one that the table names. */
  datatype Group = Group(s: string, members: set<Node>, lead: Node, l: Labels, below: map<Node, Node>) {

    ghost predicate Original(n: Node) {
      n in members && l.Original(n, s)
    }

    ghost predicate Reply(n: Node) {
      n in members && l.Reply(n, s)
    }

    ghost predicate Empty(n: Node) {
      n in members && l.Empty(n, s)
    }
  }

  /** The members still ahead are the only ones ahead with their subject, and nodes keep what they are. */
  ghost predicate Known(v: Scene, k: Group) {
    && k.s != "" && k.lead in k.members && k.members <= k.l.subj.Keys && k.s in v.table && v.l.msgs == k.l.msgs
    && (forall n | n in k.members :: k.l.Has(n, k.s) && (n in v.l.subj ==> v.l.subj[n] == k.l.subj[n]))
    && (forall n | n in v.ahead && v.l.Has(n, k.s) :: n in k.members)
    && (forall n | n in k.members && n in k.l.msgs :: n in v.l.subj)
  }

  /** An original leads: replies go below it, other originals stay, and it goes below the roots without
      a message, one after the other. */
  ghost predicate OriginalLeads(v: Scene, k: Group)
    requires k.s in v.table
  {
    && k.Original(k.lead) && v.table[k.s] == k.lead
    && (forall n | n in k.members && n != k.lead :: WithOriginal(v, k, n))
    && (v.Root(k.lead) || (k.lead in v.parent && k.Empty(v.parent[k.lead])))
    && (forall n | n in k.members && k.Empty(n) && n !in v.ahead :: k.lead in v.parent)
  }

  ghost predicate WithOriginal(v: Scene, k: Group, n: Node) {
    if k.Reply(n) then n in v.ahead || v.Under(n, k.lead) else v.Root(n)
  }

  /** A node without a message leads: it takes replies in, and the children of the others like it. */
  ghost predicate EmptyLeads(v: Scene, k: Group)
    requires k.s in v.table
  {
    && k.Empty(k.lead) && (forall n | n in k.members :: !k.Original(n)) && v.table[k.s] == k.lead && v.Root(k.lead)
    && (forall n | n in k.members && n != k.lead :: WithEmpty(v, k, n))
    && (forall n | n in k.below && k.Empty(k.below[n]) :: ChildOfEmpty(v, k, n))
  }

  ghost predicate WithEmpty(v: Scene, k: Group, n: Node) {
    n in v.ahead || if k.Reply(n) then v.Under(n, k.lead) else n !in v.l.subj
  }

  ghost predicate ChildOfEmpty(v: Scene, k: Group, n: Node)
    requires n in k.below
  {
    && n in v.l.subj && n !in v.table.Values
    && (v.Under(n, k.lead) || (v.Under(n, k.below[n]) && k.below[n] in v.ahead))
  }

  /** A reply leads: until another reply comes it goes below the roots without a message; then they
      all go below a node of their own. */
  ghost predicate ReplyLeads(v: Scene, k: Group)
    requires k.s in v.table
  {
    && k.Reply(k.lead) && (forall n | n in k.members :: !k.Original(n))
    && (v.table[k.s] == k.lead ==>
          && (v.Root(k.lead) || (k.lead in v.parent && k.Empty(v.parent[k.lead])))
          && forall n | n in k.members && k.Empty(n) && n !in v.ahead :: k.lead in v.parent)
    && (forall n | n in k.members && k.Empty(n) && n in v.ahead :: v.Root(n))
    && (v.table[k.s] != k.lead ==>
          v.Root(v.table[k.s]) && v.l.Has(v.table[k.s], k.s) && v.table[k.s] !in k.l.msgs + k.l.subj.Keys)
    && ((forall n | n in k.members && k.Reply(n) :: n == k.lead) ==> v.table[k.s] == k.lead)
    && forall n | n in k.members && k.Reply(n) :: WithReply(v, k, n)
  }

  ghost predicate WithReply(v: Scene, k: Group, n: Node)
    requires k.s in v.table
  {
    n in v.ahead || if v.table[k.s] == k.lead then n == k.lead else v.Under(n, v.table[k.s])
  }

  /** A root ahead of the current one stays ahead as long as it is a root. */
  lemma AheadStays(v: Scene, w: Scene, c: Node, x: Node, p: Node)
    requires Turned(v, w, c, x, p)
    ensures forall n | n in v.ahead && n != c && w.Root(n) :: n in w.ahead
    ensures forall n | n in v.ahead && n != c && n !in w.parent :: n in w.ahead
    ensures forall n | n in w.ahead :: n in v.ahead && n != c
    ensures (forall n | n in v.ahead :: v.Root(n)) && v.l.msgs + v.parent.Keys <= v.l.subj.Keys && c in v.ahead
  {
  }

  lemma KnownStays(v: Scene, w: Scene, c: Node, x: Node, p: Node, k: Group)
    requires Known(v, k) && Turned(v, w, c, x, p) && (p in v.l.subj || p !in k.l.subj)
    ensures Known(w, k)
  {
    if Joins(v, w, c, x) { assert c !in k.l.msgs; }
  }

  lemma WithOriginalStays(v: Scene, w: Scene, c: Node, x: Node, p: Node, k: Group, n: Node)
    requires Known(v, k) && Turned(v, w, c, x, p) && OriginalLeads(v, k) && n in k.members && n != k.lead
    ensures WithOriginal(w, k, n)
  {
    hide Scene.Ok;
    AheadStays(v, w, c, x, p);
    assert WithOriginal(v, k, n);
  }

  lemma OriginalStays(v: Scene, w: Scene, c: Node, x: Node, p: Node, k: Group)
    requires Known(v, k) && Turned(v, w, c, x, p) && (p in v.l.subj || p !in k.l.subj) && OriginalLeads(v, k)
    ensures Known(w, k) && OriginalLeads(w, k)
  {
    KnownStays(v, w, c, x, p, k);
    forall n | n in k.members && n != k.lead ensures WithOriginal(w, k, n) { WithOriginalStays(v, w, c, x, p, k, n); }
    LeadStays(v, w, c, x, p, k);
  }

  lemma LeadStays(v: Scene, w: Scene, c: Node, x: Node, p: Node, k: Group)
    requires Known(v, k) && Turned(v, w, c, x, p) && OriginalLeads(v, k)
    ensures k.s in w.table && w.table[k.s] == k.lead
    ensures w.Root(k.lead) || (k.lead in w.parent && k.Empty(w.parent[k.lead]))
    ensures forall n | n in k.members && k.Empty(n) && n !in w.ahead :: k.lead in w.parent
  {
    hide Scene.Ok;
    AheadStays(v, w, c, x, p);
    forall n | n in k.members && k.Empty(n) && n !in w.ahead ensures k.lead in w.parent {
      assert WithOriginal(v, k, n);
      WithOriginalStays(v, w, c, x, p, k, n);
    }
  }

  lemma EmptyStays(v: Scene, w: Scene, c: Node, x: Node, p: Node, k: Group)
    requires Known(v, k) && Turned(v, w, c, x, p) && (p in v.l.subj || p !in k.l.subj) && EmptyLeads(v, k)
    ensures Known(w, k) && EmptyLeads(w, k)
  {
    KnownStays(v, w, c, x, p, k);
    forall n | n in k.members && n != k.lead ensures WithEmpty(w, k, n) { WithEmptyStays(v, w, c, x, p, k, n); }
    forall n | n in k.below && k.Empty(k.below[n]) ensures ChildOfEmpty(w, k, n) { ChildOfEmptyStays(v, w, c, x, p, k, n); }
    EmptyStaysRoot(v, w, c, x, p, k);
  }

  lemma EmptyStaysRoot(v: Scene, w: Scene, c: Node, x: Node, p: Node, k: Group)
    requires Known(v, k) && Turned(v, w, c, x, p) && EmptyLeads(v, k)
    ensures k.s in w.table && w.table[k.s] == k.lead && w.Root(k.lead)
  {
    hide Scene.Ok;
    AheadStays(v, w, c, x, p);
  }

  lemma WithEmptyStays(v: Scene, w: Scene, c: Node, x: Node, p: Node, k: Group, n: Node)
    requires Known(v, k) && Turned(v, w, c, x, p) && (p in v.l.subj || p !in k.l.subj) && EmptyLeads(v, k)
    requires n in k.members && n != k.lead
    ensures WithEmpty(w, k, n)
  {
    hide Scene.Ok;
    AheadStays(v, w, c, x, p);
    assert WithEmpty(v, k, n) && !k.Original(n);
  }

  lemma ChildOfEmptyStays(v: Scene, w: Scene, c: Node, x: Node, p: Node, k: Group, n: Node)
    requires Known(v, k) && Turned(v, w, c, x, p) && EmptyLeads(v, k) && n in k.below && k.Empty(k.below[n])
    ensures ChildOfEmpty(w, k, n)
  {
    hide Scene.Ok;
    AheadStays(v, w, c, x, p);
    assert ChildOfEmpty(v, k, n);
    if Meets(v, c, x) { assert x in v.table.Values; }
  }

  lemma ReplyStays(v: Scene, w: Scene, c: Node, x: Node, p: Node, k: Group)
    requires Known(v, k) && Turned(v, w, c, x, p) && (p in v.l.subj || p !in k.l.subj) && ReplyLeads(v, k)
    ensures Known(w, k) && ReplyLeads(w, k)
  {
    KnownStays(v, w, c, x, p, k);
    TopStays(v, w, c, x, p, k);
    forall n | n in k.members && k.Reply(n) ensures WithReply(w, k, n) { WithReplyStays(v, w, c, x, p, k, n); }
  }

  lemma TopStays(v: Scene, w: Scene, c: Node, x: Node, p: Node, k: Group)
    requires Known(v, k) && Turned(v, w, c, x, p) && (p in v.l.subj || p !in k.l.subj) && ReplyLeads(v, k)
    ensures k.s in w.table
    ensures w.table[k.s] == k.lead ==>
      && (w.Root(k.lead) || (k.lead in w.parent && k.Empty(w.parent[k.lead])))
      && forall n | n in k.members && k.Empty(n) && n !in w.ahead :: k.lead in w.parent
    ensures forall n | n in k.members && k.Empty(n) && n in w.ahead :: w.Root(n)
    ensures w.table[k.s] != k.lead ==>
      w.Root(w.table[k.s]) && w.l.Has(w.table[k.s], k.s) && w.table[k.s] !in k.l.msgs + k.l.subj.Keys
    ensures (forall n | n in k.members && k.Reply(n) :: n == k.lead) ==> w.table[k.s] == k.lead
    ensures w.table[k.s] == v.table[k.s] || (Pairs(v, w, c, x, p) && w.table[k.s] == p && v.l.Has(c, k.s))
  {
    hide Scene.Ok;
    AheadStays(v, w, c, x, p);
  }

  lemma WithReplyStays(v: Scene, w: Scene, c: Node, x: Node, p: Node, k: Group, n: Node)
    requires Known(v, k) && Turned(v, w, c, x, p) && ReplyLeads(v, k) && n in k.members && k.Reply(n)
    requires k.s in w.table && (w.table[k.s] == v.table[k.s] || (Pairs(v, w, c, x, p) && w.table[k.s] == p && v.l.Has(c, k.s)))
    ensures WithReply(w, k, n)
  {
    hide Scene.Ok;
    AheadStays(v, w, c, x, p);
    assert WithReply(v, k, n);
  }

  // ---------------------------------------------------------------- the whole loop

  ghost predicate Led(v: Scene, k: Group) {
    && Known(v, k)
    && (k.Original(k.lead) ==> OriginalLeads(v, k))
    && (k.Empty(k.lead) && (forall n | n in k.members :: !k.Original(n)) ==> EmptyLeads(v, k))
    && (k.Reply(k.lead) && (forall n | n in k.members :: !k.Original(n)) ==> ReplyLeads(v, k))
  }

  lemma LedStays(v: Scene, w: Scene, c: Node, x: Node, p: Node, k: Group)
    requires Led(v, k) && Turned(v, w, c, x, p) && (p in v.l.subj || p !in k.l.subj)
    ensures Led(w, k)
  {
    hide Turned, Known, OriginalLeads, EmptyLeads, ReplyLeads;
    KnownStays(v, w, c, x, p, k);
    if k.Original(k.lead) { OriginalStays(v, w, c, x, p, k); }
    if k.Empty(k.lead) && (forall n | n in k.members :: !k.Original(n)) { EmptyStays(v, w, c, x, p, k); }
    if k.Reply(k.lead) && (forall n | n in k.members :: !k.Original(n)) { ReplyStays(v, w, c, x, p, k); }
  }

  /** The roots with the subject `s` when the loop begins. */
  ghost function GroupOf(f: Forest, g: Grouping, s: string): Group
    requires f.Shaped() && g.Shaped() && s in g.table
  {
    var members := set n | n in f.kids[f.hdr] && n in g.subj && g.subj[n].root == s;
    Group(s, members, g.table[s], Labels(g.subj, g.f.msgs), SceneOf(g).parent)
  }

  /** Before the first turn all roots are ahead. */
  lemma FirstScene(f: Forest, g: Grouping, s: string)
    requires f.Shaped() && Begins(f, g) && g.Ok() && s in g.table
    ensures SceneOf(g).Ok() && SceneOf(g).ahead == (set n | n in g.Roots())
    ensures forall t | t in g.table :: g.table[t] in SceneOf(g).ahead
    ensures s != "" && g.table[s] in GroupOf(f, g, s).members && SceneOf(g).l == GroupOf(f, g, s).l
    ensures GroupOf(f, g, s).members <= SceneOf(g).ahead
    ensures forall n | n in SceneOf(g).ahead && n in g.subj && g.subj[n].root == s :: n in GroupOf(f, g, s).members
    ensures forall n | n in GroupOf(f, g, s).members :: n in g.subj && g.subj[n].root == s
  {
    hide Grouping.EmptiesOk, Forest.KidsOk, Forest.PlacesOk, Forest.ListsOk;
    SceneIs(g);
    var r := g.Roots();
    assert g.EntryOk(s);
    assert r[..0] == [] && r[0..] == r;
  }

  lemma OkShape(g: Grouping)
    requires g.Ok()
    ensures g.Shaped()
  {
  }

  lemma FirstKnown(f: Forest, g: Grouping, s: string)
    requires f.Shaped() && Begins(f, g) && g.Ok() && s in g.table
    ensures Known(SceneOf(g), GroupOf(f, g, s))
  {
    hide Grouping.EmptiesOk, Grouping.TableOk, Forest.KidsOk, Forest.PlacesOk, Forest.ListsOk, Begins;
    FirstScene(f, g, s);
  }

  lemma FirstLed(f: Forest, g: Grouping, s: string)
    requires f.Shaped() && Begins(f, g) && g.Ok() && s in g.table
    ensures Led(SceneOf(g), GroupOf(f, g, s))
  {
    hide Grouping.Ok, Grouping.Shaped, Begins, Known, SceneOf;
    OkShape(g);
    FirstKnown(f, g, s);
    FirstScene(f, g, s);
    SceneIs(g);
    var v, k := SceneOf(g), GroupOf(f, g, s);
    forall n | n in k.below && k.Empty(k.below[n]) ensures ChildOfEmpty(v, k, n) {}
    forall n | n in k.members ensures WithOriginal(v, k, n) && WithEmpty(v, k, n) && WithReply(v, k, n) {}
  }

  lemma StepLed(g: Grouping, h: Grouping, p: Node, k: Group)
    requires Step(g, h, p) && Led(SceneOf(g), k) && (p in g.f.nodes || p !in k.l.subj)
    ensures h.Ok() && Led(SceneOf(h), k)
  {
    hide Led, Turned, Grouping.EmptiesOk, Grouping.TableOk, Forest.KidsOk, Forest.PlacesOk, Forest.ListsOk, SceneOf;
    StepTurns(g, h, p);
    SceneIs(g);
    var c := g.Current();
    LedStays(SceneOf(g), SceneOf(h), c, if g.Matched(c) then g.table[g.subj[c].root] else c, p, k);
  }

  lemma {:induction false} RunLed(f: Forest, states: seq<Grouping>, ps: seq<Node>, s: string, i: nat)
    requires f.Shaped() && Run(states, ps) && PhantomsNew(f, states, ps) && Begins(f, states[0]) && states[0].Ok()
    requires s in states[0].table && i <= |ps|
    ensures states[i].Ok() && Led(SceneOf(states[i]), GroupOf(f, states[0], s))
  {
    hide Led, Step, Grouping.Ok, Begins;
    if i == 0 {
      FirstLed(f, states[0], s);
    } else {
      RunLed(f, states, ps, s, i - 1);
      BeginsNodes(f, states[0]);
      OkShape(states[0]);
      OkShape(states[i - 1]);
      StepLed(states[i - 1], states[i], ps[i - 1], GroupOf(f, states[0], s));
    }
  }

  lemma BeginsNodes(f: Forest, g: Grouping)
    requires f.Shaped() && Begins(f, g)
    ensures g.f == f && g.subj.Keys == f.nodes
  {
  }

  // ---------------------------------------------------------------- when the merge is done

  ghost function LabelsOf(g: Grouping): Labels {
    Labels(g.subj, g.f.msgs)
  }

  lemma WholeShape(f: Forest, states: seq<Grouping>, ps: seq<Node>)
    requires Whole(f, states, ps)
    ensures |states| == |ps| + 1 && states[0].Ok() && states[|ps|].Ok() && states[0].f == f && states[|ps|].f.msgs == f.msgs
    ensures states[0].Shaped() && states[|ps|].Shaped() && f.Shaped() && states[|ps|].f.Shaped()
  {
    assert |ps| > 0 ==> Step(states[0], states[1], ps[0]);
    RunMsgs(states, ps, |ps|);
  }

  lemma {:induction false} RunMsgs(states: seq<Grouping>, ps: seq<Node>, i: nat)
    requires Run(states, ps) && i <= |ps|
    ensures states[i].f.msgs == states[0].f.msgs
  {
    hide Step;
    if i > 0 {
      RunMsgs(states, ps, i - 1);
      StepOk(states[i - 1], states[i], ps[i - 1]);
    }
  }

  /** What the invariant says of the final forest. */
  lemma AtEnd(f: Forest, states: seq<Grouping>, ps: seq<Node>, s: string)
    requires Whole(f, states, ps) && s in states[0].table
    ensures states[0].Ok() && states[|ps|].Ok() && states[0].f == f
    ensures var v, k := SceneOf(states[|ps|]), GroupOf(f, states[0], s);
      Led(v, k) && v.ahead == {} && forall n | n in v.l.subj ::
        n in states[|ps|].f.nodes && Parent(states[|ps|].f, n) == if n in v.parent then v.parent[n] else null
  {
    hide Led, Grouping.EmptiesOk, Grouping.TableOk, Forest.KidsOk, Forest.PlacesOk, Forest.ListsOk, Linked, ParentsLoose, Marked, Gathered, SubjectOf;
    assert |ps| > 0 ==> Step(states[0], states[1], ps[0]);
    RunLed(f, states, ps, s, |ps|);
    var g := states[|ps|];
    SceneIs(g);
    assert g.Roots()[g.i..] == [];
  }

  /** The members of the group are the roots with the subject, and the table's node is the chosen one. */
  lemma AtBeginning(f: Forest, states: seq<Grouping>, ps: seq<Node>, s: string, n: Node)
    requires Whole(f, states, ps) && f.hdr in f.kids && n in f.kids[f.hdr] && LabelsOf(states[0]).Has(n, s) && s != ""
    ensures s in states[0].table && states[0].Ok()
    ensures var k, l, r := GroupOf(f, states[0], s), LabelsOf(states[0]), f.kids[f.hdr];
      && k.s == s && k.l == l && k.lead == states[0].table[s] && k.below == SceneOf(states[0]).parent
      && (forall m | m in r && l.Has(m, s) :: m in k.members)
      && (forall m | m in k.members :: m in r && l.Has(m, s))
      && exists i :: 0 <= i < |r| && r[i] == k.lead && l.Chosen(r, s, i)
  {
    hide Grouping.EmptiesOk, Grouping.TableOk, Forest.KidsOk, Forest.PlacesOk, Forest.ListsOk, Linked, ParentsLoose, Marked, Gathered, SubjectOf, Labels.Chosen;
    assert |ps| > 0 ==> Step(states[0], states[1], ps[0]);
    var g := states[0];
    GatheredAll(f.kids[f.hdr], g.subj, f.msgs, n);
    TableIsChosen(f.kids[f.hdr], LabelsOf(g), s);
  }

  lemma FirstIsChosen(r: seq<Node>, l: Labels, s: string, i: nat, j: nat)
    requires i < |r| && l.Original(r[i], s) && (forall k | 0 <= k < i :: !l.Original(r[k], s)) && l.Chosen(r, s, j)
    ensures i == j
  {
  }

  /** The table names the first original of a subject.  When the merge is done every reply that was a
      root with that subject is a child of that node, every other root with the subject is still a
      root, and the node itself is a root unless there were roots without a message. */
  lemma RepliesJoinOriginal(f: Forest, states: seq<Grouping>, ps: seq<Node>, s: string, i: nat)
    requires Whole(f, states, ps) && f.hdr in f.kids && i < |f.kids[f.hdr]| && s != ""
    requires var r, l := f.kids[f.hdr], LabelsOf(states[0]); l.Original(r[i], s) && forall j | 0 <= j < i :: !l.Original(r[j], s)
    ensures s in states[0].table && states[0].table[s] == f.kids[f.hdr][i]
    ensures var r, l, h := f.kids[f.hdr], LabelsOf(states[0]), states[|ps|].f;
      && (forall n | n in r && l.Has(n, s) && n != r[i] :: n in h.nodes && Parent(h, n) == if l.Reply(n, s) then r[i] else null)
      && r[i] in h.nodes
      && (if exists n :: n in r && l.Empty(n, s) then Parent(h, r[i]) in r && l.Empty(Parent(h, r[i]), s)
          else Parent(h, r[i]) == null)
  {
    hide Whole, SceneOf, Labels.Chosen, Grouping.Ok, Grouping.Shaped, Forest.Shaped;
    WholeShape(f, states, ps);
    var r, l := f.kids[f.hdr], LabelsOf(states[0]);
    AtBeginning(f, states, ps, s, r[i]);
    AtEnd(f, states, ps, s);
    var j :| 0 <= j < |r| && r[j] == states[0].table[s] && l.Chosen(r, s, j);
    FirstIsChosen(r, l, s, i, j);
    var v, k := SceneOf(states[|ps|]), GroupOf(f, states[0], s);
    assert OriginalLeads(v, k);
    forall n | n in r && l.Has(n, s) && n != r[i] ensures WithOriginal(v, k, n) {}
  }

  /** When no root with a subject is an original and the table names one without a message, that one
      takes in every reply and the children of all others without a message, which disappear. */
  lemma EmptyTakesAll(f: Forest, states: seq<Grouping>, ps: seq<Node>, s: string, n: Node)
    requires Whole(f, states, ps) && f.hdr in f.kids && n in f.kids[f.hdr] && LabelsOf(states[0]).Has(n, s) && s != ""
    requires forall m | m in f.kids[f.hdr] :: !LabelsOf(states[0]).Original(m, s)
    ensures s in states[0].table
    ensures var r, l, h, e := f.kids[f.hdr], LabelsOf(states[0]), states[|ps|].f, states[0].table[s];
      e !in f.msgs ==>
        && e in r && e in h.nodes && Parent(h, e) == null
        && (l.Reply(n, s) ==> n in h.nodes && Parent(h, n) == e)
        && (l.Empty(n, s) && n != e ==> n !in h.nodes && forall c | c in f.nodes && Parent(f, c) == n :: c in h.nodes && Parent(h, c) == e)
  {
    hide Whole, SceneOf, Labels.Chosen, Grouping.Ok, Grouping.Shaped, Forest.Shaped;
    WholeShape(f, states, ps);
    AtBeginning(f, states, ps, s, n);
    AtEnd(f, states, ps, s);
    var v, k := SceneOf(states[|ps|]), GroupOf(f, states[0], s);
    SceneIs(states[0]);
    SceneIs(states[|ps|]);
    if k.lead !in f.msgs {
      assert EmptyLeads(v, k);
      if n != k.lead { assert WithEmpty(v, k, n); }
      forall c | c in f.nodes && Parent(f, c) == n && k.l.Empty(n, s) ensures ChildOfEmpty(v, k, c) {}
    }
  }

  /** When no root with a subject is an original and the table names a reply: if there is another reply,
      they all become children of one new root that carries no message; if not, the reply is a root
      unless there were roots without a message, of which it is then a child. */
  lemma RepliesGetParent(f: Forest, states: seq<Grouping>, ps: seq<Node>, s: string, a: Node, b: Node)
    requires Whole(f, states, ps) && f.hdr in f.kids && s != ""
    requires var r, l := f.kids[f.hdr], LabelsOf(states[0]);
      a in r && b in r && l.Reply(a, s) && l.Reply(b, s) && forall n | n in r :: !l.Original(n, s)
    ensures s in states[0].table
    ensures var r, l, h := f.kids[f.hdr], LabelsOf(states[0]), states[|ps|].f; var p := Parent(h, a);
      states[0].table[s] in f.msgs ==>
        && (a != b ==>
              p != null && p == Parent(h, b) && p in h.nodes && p !in f.nodes && p !in h.msgs && Parent(h, p) == null)
        && ((forall n | n in r && l.Reply(n, s) :: n == a) ==>
              if exists n :: n in r && l.Empty(n, s) then p in r && l.Empty(p, s) else p == null)
  {
    hide Whole, SceneOf, Labels.Chosen, Grouping.Ok, Grouping.Shaped, Forest.Shaped;
    WholeShape(f, states, ps);
    AtBeginning(f, states, ps, s, a);
    AtEnd(f, states, ps, s);
    var v, k := SceneOf(states[|ps|]), GroupOf(f, states[0], s);
    SceneIs(states[|ps|]);
    if k.lead in f.msgs { RepliesEnd(v, k, a, b); }
  }

  lemma RepliesEnd(v: Scene, k: Group, a: Node, b: Node)
    requires Led(v, k) && v.ahead == {} && k.Reply(k.lead) && k.Reply(a) && k.Reply(b) && forall n | n in k.members :: !k.Original(n)
    ensures a in v.l.subj && b in v.l.subj
    ensures var t := v.table[k.s];
      a != b ==> v.Under(a, t) && v.Under(b, t) && v.Root(t) && t !in k.l.subj && t !in k.l.msgs
    ensures (forall n | n in k.members && k.Reply(n) :: n == a) ==>
      if exists n :: n in k.members && k.Empty(n) then a in v.parent && k.Empty(v.parent[a]) else v.Root(a)
  {
    assert ReplyLeads(v, k);
    assert WithReply(v, k, a) && WithReply(v, k, b) && WithReply(v, k, k.lead);
  }
}
