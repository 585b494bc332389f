/** What the merge by subject is for: a reply that stays a root is the only root with its subject. */
module ThreadSubject {
  import opened SeqFacts
  import opened ThreadForest
  import opened ThreadLinks
  import opened ThreadGroup
  import opened ThreadGroupRun

  // ---------------------------------------------------------------- the invariant

  /** What matters of the state of the loop: the roots it has passed and those still ahead, the
      nodes with a message, the subjects and the table. */
  datatype Sieve = Sieve(passed: set<Node>, ahead: set<Node>, msgs: set<Node>, subj: map<Node, Subject>,
                         table: map<string, Node>) {

    ghost predicate Reply(n: Node) {
      n in msgs && n in subj && subj[n].re
    }

    /** `n` and `m` are labelled with the same subject, and it is not empty. */
    ghost predicate Alike(n: Node, m: Node) {
      n in subj && m in subj && subj[n].root == subj[m].root && subj[n].root != ""
    }

    /** `x` is the table's node for the subject of `n`. */
    ghost predicate Entered(n: Node, x: Node) {
      n in subj && subj[n].root != "" && subj[n].root in table && table[subj[n].root] == x
    }

    /** Every root with a subject has an entry for it. */
    ghost predicate AllEntered() {
      forall n | n in passed + ahead :: n in subj && (subj[n].root != "" ==> subj[n].root in table)
    }

    /** A reply that has been passed is the table's node for its subject. */
    ghost predicate RepliesEntered() {
      forall a | a in passed && Reply(a) && subj[a].root != "" :: Entered(a, a)
    }

    /** A reply that has been passed is the only such root with its subject. */
    ghost predicate RepliesAlone() {
      forall a, b | a in passed && b in passed && a != b && Alike(a, b) :: !Reply(a)
    }

    /** Once a root with some subject has been passed, a table's node for it that is still ahead is
        no reply. */
    ghost predicate NoReplyAhead() {
      forall b, x | b in passed && x in ahead && Entered(b, x) :: !Reply(x)
    }

    ghost predicate Ok() {
      passed !! ahead && AllEntered() && RepliesEntered() && RepliesAlone() && NoReplyAhead()
    }
  }

  // ---------------------------------------------------------------- what a turn does to it

  /** `w` holds in its two parts what `v` does, without the nodes in `gone`, and in front also those in `come`. */
  ghost predicate Moves(v: Sieve, w: Sieve, gone: set<Node>, come: set<Node>) {
    && w.passed <= v.passed - gone + come && w.ahead <= v.ahead - gone && w.passed !! w.ahead
    && w.msgs == v.msgs && (forall n | n in v.subj && n in w.passed + w.ahead :: n in w.subj && w.subj[n] == v.subj[n])
  }

  lemma LessOk(v: Sieve, w: Sieve, gone: set<Node>)
    requires v.Ok() && Moves(v, w, gone, {}) && w.table == v.table
    ensures w.Ok()
  {
  }

  /** The root `c` is passed; the table's node for its subject is `c`, or neither is a reply. */
  lemma PassOk(v: Sieve, w: Sieve, c: Node)
    requires v.Ok() && c in v.ahead && Moves(v, w, {}, {c}) && c in w.passed && w.table == v.table
    requires v.subj[c].root != "" && v.table[v.subj[c].root] != c ==> !v.Reply(c) && !v.Reply(v.table[v.subj[c].root])
    ensures w.Ok()
  {
  }

  /** The root `c`, no reply, is passed and takes the table's node for its subject out of the roots. */
  lemma AdoptOk(v: Sieve, w: Sieve, c: Node, x: Node)
    requires v.Ok() && c in v.ahead && Moves(v, w, {x}, {c}) && c in w.passed && w.table == v.table
    requires v.Entered(c, x) && x != c && !v.Reply(c)
    ensures w.Ok()
  {
  }

  /** The phantom `p` takes the place of the root `c` and of the table's node for its subject. */
  lemma PhantomOk(v: Sieve, w: Sieve, c: Node, x: Node, p: Node)
    requires v.Ok() && c in v.ahead && Moves(v, w, {x, c}, {p}) && p in w.passed
    requires v.Entered(c, x) && x != c && p !in v.msgs && p !in v.subj
    requires p in w.subj && w.subj[p].root == v.subj[c].root && w.table == v.table[v.subj[c].root := p]
    ensures w.Ok()
  {
  }

  // ---------------------------------------------------------------- the loop's states

  ghost function View(g: Grouping): Sieve
    requires g.Shaped()
  {
    var r := g.Roots();
    Sieve((set n | n in r[..g.i]), (set n | n in r[g.i..]), g.f.msgs, g.subj, g.table)
  }

  lemma ViewApart(g: Grouping)
    requires g.Shaped()
    ensures View(g).passed !! View(g).ahead
    ensures forall n | n in View(g).passed + View(g).ahead :: n in g.Roots() && n in g.f.nodes && n in g.subj
    ensures forall n | n in g.Roots() :: n in View(g).passed + View(g).ahead
    ensures g.i < |g.Roots()| ==> g.Current() in View(g).ahead
  {
    var r := g.Roots();
    assert NoDup(r);
    assert r == r[..g.i] + r[g.i..];
    if g.i < |r| { assert r[g.i..][0] == r[g.i]; }
    forall n | n in r ensures n in g.f.nodes { assert g.f.Holds(g.f.hdr, n); }
  }

  lemma KeepMoves(g: Grouping)
    requires g.Ok() && g.i < |g.Roots()|
    ensures Keep(g).Shaped() && Moves(View(g), View(Keep(g)), {}, {g.Current()}) && g.Current() in View(Keep(g)).passed
  {
    var r := g.Roots();
    ViewApart(Keep(g));
    assert r[..g.i + 1] == r[..g.i] + [g.Current()] && r[g.i..] == [g.Current()] + r[g.i + 1..];
  }

  lemma TakenOut<T>(r: seq<T>, i: nat)
    requires i < |r|
    ensures DropAt(r, i)[..i] == r[..i] && DropAt(r, i)[i..] == r[i + 1..] && r[i..] == [r[i]] + r[i + 1..]
  {
  }

  lemma NotAnyMore(g: Grouping, h: Grouping)
    requires g.Shaped() && g.i < |g.Roots()| && h.Shaped() && h.Roots() == DropAt(g.Roots(), g.i)
    ensures g.Current() !in h.Roots()
  {
    NoDupDrop(g.Roots(), g.i);
  }

  /** The current root leaves the list. */
  lemma LeaveMoves(g: Grouping, h: Grouping)
    requires g.Shaped() && g.i < |g.Roots()| && h.Shaped() && h.i == g.i && h.Roots() == DropAt(g.Roots(), g.i)
    requires h.f.msgs == g.f.msgs && forall n | n in h.subj && n in g.subj :: h.subj[n] == g.subj[n]
    ensures Moves(View(g), View(h), {g.Current()}, {})
  {
    hide Forest.KidsOk, Forest.PlacesOk, Forest.ListsOk, NoDup, DropAt;
    ViewApart(g);
    ViewApart(h);
    TakenOut(g.Roots(), g.i);
    assert g.Current() !in View(h).passed + View(h).ahead by { NotAnyMore(g, h); }
  }

  /** The root list without `x`, cut behind `c`: its parts come from the parts of the whole list. */
  lemma CutWithout(r: seq<Node>, d: seq<Node>, i: nat, c: Node, x: Node)
    requires NoDup(r) && NoDup(d) && i < |r| && c == r[i] && c != x && x !in d
    requires d == r || exists j :: 0 <= j < |r| && r[j] == x && d == DropAt(r, j)
    ensures c in d && d[IndexOf(d, c)] == c
    ensures forall a | a in d[..IndexOf(d, c)] :: a in r[..i]
    ensures forall a | a in d[IndexOf(d, c) + 1..] :: a in r[i..]
  {
    if d == r {
      IndexIs(r, i);
      assert r[i..][1..] == r[i + 1..];
    } else {
      var j :| 0 <= j < |r| && r[j] == x && d == DropAt(r, j);
      PrefixDrop(r, j, i);
      hide NoDup;
      if i < j { CutBefore(r, j, i); } else { CutAfter(r, j, i); }
    }
  }

  lemma CutBefore(r: seq<Node>, j: nat, i: nat)
    requires i < j < |r|
    ensures DropAt(r, j)[..i] == r[..i] && forall a | a in DropAt(r, j)[i + 1..] :: a in r[i..]
  {
    assert DropAt(r, j)[i + 1..] == r[i + 1..j] + r[j + 1..];
    assert r[i..] == [r[i]] + r[i + 1..j] + [r[j]] + r[j + 1..];
  }

  lemma CutAfter(r: seq<Node>, j: nat, i: nat)
    requires j < i < |r|
    ensures DropAt(r, j)[i..] == r[i + 1..] && forall a | a in DropAt(r, j)[..i - 1] :: a in r[..i]
    ensures forall a | a in r[i + 1..] :: a in r[i..]
  {
    assert DropAt(r, j)[..i - 1] == r[..j] + r[j + 1..i];
    assert r[..i] == r[..j] + [r[j]] + r[j + 1..i];
    assert r[i..] == [r[i]] + r[i + 1..];
  }

  /** The root list after the table's node `x` has been taken out of wherever it was. */
  ghost function Without(g: Grouping, x: Node): seq<Node>
    requires x in g.f.anc && g.f.Holds(g.f.Owner(x), x) && g.f.hdr in Uproot(g.f, x).kids
  {
    Uproot(g.f, x).kids[g.f.hdr]
  }

  lemma WithoutCut(g: Grouping, c: Node, x: Node)
    requires Entrant(g, c, x)
    ensures var d := Without(g, x); var k := IndexOf(d, c);
      && d[k] == c && x !in d && x != c
      && (forall a | a in d[..k] :: a in View(g).passed && a != x)
      && (forall a | a in d[k + 1..] :: a in View(g).ahead && a != x && a != c)
  {
    var d := Without(g, x);
    var k := IndexOf(d, c);
    UprootFacts(g.f, x, {});
    UprootRoots(g.f, x);
    assert NoDup(g.Roots()) && NoDup(d);
    CutWithout(g.Roots(), d, g.i, c, x);
    assert forall a | a in d[..k] :: a in d;
  }

  lemma EntryRoots(g: Grouping, c: Node, x: Node)
    requires Entrant(g, c, x) && x in g.f.msgs
    ensures var h, d := AdoptEntry(g, c, x), Without(g, x);
      && h.Ok() && h.f.msgs == g.f.msgs && h.Roots() == d && h.i == IndexOf(d, c) + 1
  {
    hide Grouping.TableOk, Grouping.EmptiesOk, Forest.KidsOk, Forest.PlacesOk, Forest.ListsOk;
    CurrentIsRoot(g, c, x);
    AdoptEntryOk(g, c, x);
    MovedFacts(g.f, x, c);
  }

  lemma EntryMoves(g: Grouping, c: Node, x: Node)
    requires Entrant(g, c, x) && x in g.f.msgs
    ensures var h := AdoptEntry(g, c, x);
      h.Ok() && Moves(View(g), View(h), {x}, {c}) && c in View(h).passed
  {
    hide Grouping.TableOk, Grouping.EmptiesOk, Forest.KidsOk, Forest.PlacesOk, Forest.ListsOk, Uproot, NoDup, Moved;
    EntryRoots(g, c, x);
    WithoutCut(g, c, x);
    var h := AdoptEntry(g, c, x);
    assert h.Roots()[..h.i] == Without(g, x)[..h.i - 1] + [c];
    ViewApart(h);
  }

  lemma PairRoots(g: Grouping, c: Node, x: Node, p: Node)
    requires Entrant(g, c, x) && CanPair(g, c, x, p)
    ensures var h, d := Pair(g, c, x, p), Without(g, x);
      && h.Ok() && h.f.msgs == g.f.msgs && h.i == IndexOf(d, c) + 1
      && h.Roots() == InsertAt(DropAt(d, IndexOf(d, c)), IndexOf(d, c), p)
  {
    hide Grouping.TableOk, Grouping.EmptiesOk, Forest.KidsOk, Forest.PlacesOk, Forest.ListsOk, Uproot, PhantomIn;
    PairOk(g, c, x, p);
    PairBase(g, c, x);
    PhantomInFacts(BothOut(g.f, c, x), IndexOf(Without(g, x), c), p, c, x);
  }

  lemma PutBack<T>(d: seq<T>, k: nat, p: T)
    requires k < |d|
    ensures var r := InsertAt(DropAt(d, k), k, p);
      r[..k + 1] == d[..k] + [p] && r[k + 1..] == d[k + 1..]
  {
  }

  lemma PairMoves(g: Grouping, c: Node, x: Node, p: Node)
    requires Entrant(g, c, x) && CanPair(g, c, x, p)
    ensures var h := Pair(g, c, x, p);
      && h.Ok() && Moves(View(g), View(h), {x, c}, {p}) && p in View(h).passed
      && h.table == g.table[g.subj[c].root := p] && h.subj == g.subj[p := Subject(g.subj[c].root, true)]
  {
    hide Grouping.TableOk, Grouping.EmptiesOk, Forest.KidsOk, Forest.PlacesOk, Forest.ListsOk, Uproot, NoDup, PhantomIn, BothOut,
      DropAt, InsertAt, Without;
    PairRoots(g, c, x, p);
    WithoutCut(g, c, x);
    ViewApart(g);
    var h := Pair(g, c, x, p);
    var d := Without(g, x);
    PutBack(d, IndexOf(d, c), p);
    ViewApart(h);
  }

  // ---------------------------------------------------------------- every turn keeps the invariant

  lemma MergeRoots(g: Grouping, c: Node, x: Node)
    requires CanMerge(g, c, x)
    ensures var h := MergeInto(g, x);
      && h.Ok() && h.i == g.i && h.Roots() == DropAt(g.Roots(), g.i) && h.f.msgs == g.f.msgs
      && h.table == g.table && forall n | n in h.subj && n in g.subj :: h.subj[n] == g.subj[n]
  {
    hide Grouping.TableOk, Grouping.EmptiesOk, Forest.KidsOk, Forest.PlacesOk, Forest.ListsOk;
    MergeIntoOk(g, c, x);
    CurrentIsRoot(g, c, x);
  }

  lemma CurrentRoots(g: Grouping, c: Node, x: Node)
    requires Leaver(g, c, x) && c in g.f.msgs
    ensures var h := AdoptCurrent(g, c, x);
      && h.Ok() && h.i == g.i && h.Roots() == DropAt(g.Roots(), g.i) && h.f.msgs == g.f.msgs
      && h.table == g.table && h.subj == g.subj
  {
    hide Grouping.TableOk, Grouping.EmptiesOk, Forest.KidsOk, Forest.PlacesOk, Forest.ListsOk;
    CurrentIsRoot(g, c, x);
    EntryLine(g, g.subj[c].root, c);
    AdoptCurrentOk(g, c, x);
    RootIndex(g);
    MovedFacts(g.f, c, x);
  }

  lemma KeepSifts(g: Grouping)
    requires g.Ok() && View(g).Ok() && g.i < |g.Roots()|
    requires var c := g.Current(); g.Matched(c) ==> !View(g).Reply(c) && !View(g).Reply(g.table[g.subj[c].root])
    ensures Keep(g).Ok() && View(Keep(g)).Ok()
  {
    hide Forest.KidsOk, Forest.PlacesOk, Forest.ListsOk, Grouping.TableOk, Grouping.EmptiesOk, Moves;
    KeepOk(g);
    KeepMoves(g);
    ViewApart(g);
    PassOk(View(g), View(Keep(g)), g.Current());
  }

  lemma MergeSifts(g: Grouping, c: Node, x: Node)
    requires CanMerge(g, c, x) && View(g).Ok()
    ensures MergeInto(g, x).Ok() && View(MergeInto(g, x)).Ok()
  {
    hide Grouping.TableOk, Grouping.EmptiesOk, Forest.KidsOk, Forest.PlacesOk, Forest.ListsOk, Sieve.Ok, Moves;
    MergeRoots(g, c, x);
    LeaveMoves(g, MergeInto(g, x));
    LessOk(View(g), View(MergeInto(g, x)), {c});
  }

  lemma CurrentSifts(g: Grouping, c: Node, x: Node)
    requires Leaver(g, c, x) && c in g.f.msgs && View(g).Ok()
    ensures AdoptCurrent(g, c, x).Ok() && View(AdoptCurrent(g, c, x)).Ok()
  {
    hide Grouping.TableOk, Grouping.EmptiesOk, Forest.KidsOk, Forest.PlacesOk, Forest.ListsOk, Sieve.Ok, Moves, Moved, Uproot;
    CurrentRoots(g, c, x);
    LeaveMoves(g, AdoptCurrent(g, c, x));
    LessOk(View(g), View(AdoptCurrent(g, c, x)), {c});
  }

  lemma EntrySifts(g: Grouping, c: Node, x: Node)
    requires Entrant(g, c, x) && x in g.f.msgs && View(g).Ok() && !View(g).Reply(c)
    ensures AdoptEntry(g, c, x).Ok() && View(AdoptEntry(g, c, x)).Ok()
  {
    hide Grouping.TableOk, Grouping.EmptiesOk, Forest.KidsOk, Forest.PlacesOk, Forest.ListsOk, Sieve.Ok, Moves, Moved, Uproot;
    EntryMoves(g, c, x);
    ViewApart(g);
    AdoptOk(View(g), View(AdoptEntry(g, c, x)), c, x);
  }

  lemma PairSifts(g: Grouping, c: Node, x: Node, p: Node)
    requires Entrant(g, c, x) && CanPair(g, c, x, p) && View(g).Ok()
    ensures Pair(g, c, x, p).Ok() && View(Pair(g, c, x, p)).Ok()
  {
    hide Grouping.TableOk, Grouping.EmptiesOk, Forest.KidsOk, Forest.PlacesOk, Forest.ListsOk, Sieve.Ok, Moves, Uproot, PhantomIn, BothOut, Pair;
    PairMoves(g, c, x, p);
    ViewApart(g);
    PhantomOk(View(g), View(Pair(g, c, x, p)), c, x, p);
  }

  lemma StepSifts(g: Grouping, h: Grouping, p: Node)
    requires Step(g, h, p) && View(g).Ok()
    ensures h.Ok() && View(h).Ok()
  {
    hide Grouping.TableOk, Grouping.EmptiesOk, Forest.KidsOk, Forest.PlacesOk, Forest.ListsOk, Sieve.Ok, Moves, Moved, Uproot, PhantomIn, BothOut, Pair;
    var c := g.Current();
    if !g.Matched(c) {
      KeepSifts(g);
    } else {
      var x := g.table[g.subj[c].root];
      if c !in g.f.msgs && x !in g.f.msgs {
        MergeSifts(g, c, x);
      } else if c !in g.f.msgs || (x in g.f.msgs && g.subj[x].re && !g.subj[c].re) {
        EntrySifts(g, c, x);
      } else if x !in g.f.msgs || (g.subj[c].re && !g.subj[x].re) {
        CurrentSifts(g, c, x);
      } else if g.subj[x].re {
        PairSifts(g, c, x, p);
      } else {
        KeepSifts(g);
      }
    }
  }

  // ---------------------------------------------------------------- whole runs

  lemma {:induction false} GatheredAll(r: seq<Node>, subj: map<Node, Subject>, msgs: set<Node>, n: Node)
    requires (forall m | m in r :: m in subj) && n in r && subj[n].root != ""
    ensures subj[n].root in Gathered(r, subj, msgs)
  {
    var last := |r| - 1;
    if n != r[last] {
      assert r == r[..last] + [r[last]];
      GatheredAll(r[..last], subj, msgs, n);
    }
  }

  lemma FirstSifted(f: Forest, g: Grouping)
    requires f.Shaped() && Begins(f, g) && g.Shaped()
    ensures View(g).Ok()
  {
    forall n | n in g.Roots() && g.subj[n].root != "" ensures g.subj[n].root in g.table {
      GatheredAll(g.Roots(), g.subj, g.f.msgs, n);
    }
    ViewApart(g);
  }

  lemma {:induction false} RunSifts(f: Forest, states: seq<Grouping>, ps: seq<Node>, k: nat)
    requires f.Shaped() && Run(states, ps) && Begins(f, states[0]) && states[0].Shaped() && k <= |ps|
    ensures states[k].Shaped() && View(states[k]).Ok()
  {
    if k == 0 {
      FirstSifted(f, states[0]);
    } else {
      RunSifts(f, states, ps, k - 1);
      StepSifts(states[k - 1], states[k], ps[k - 1]);
    }
  }

  /** When the merge is done, a reply that is still a root is the only root with its subject. */
  lemma ReplyRootsAlone(f: Forest, states: seq<Grouping>, ps: seq<Node>, a: Node, b: Node)
    requires Whole(f, states, ps)
    ensures var g := states[|ps|];
      a in g.Roots() && b in g.Roots() && a != b && View(g).Alike(a, b) ==> !View(g).Reply(a)
  {
    hide Forest.KidsOk, Forest.PlacesOk, Forest.ListsOk, Begins;
    var g := states[|ps|];
    assert |ps| > 0 ==> Step(states[0], states[1], ps[0]);
    RunSifts(f, states, ps, |ps|);
    assert g.Roots()[..g.i] == g.Roots();
    ViewApart(g);
  }
}
