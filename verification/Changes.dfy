/** Change sets of a folder: which uids have been added, removed and changed. */
module Changes {
  import opened Basics
  import opened SeqFacts

  type Uid = string

  datatype Where = Added | Removed | Changed

  /** g_ptr_array_remove_fast: the last element takes the place of the first `u`. */
  function RemoveFast(s: seq<Uid>, u: Uid): seq<Uid> {
    if s == [] then []
    else if s[0] == u then (if |s| == 1 then [] else [s[|s| - 1]] + s[1..|s| - 1])
    else [s[0]] + RemoveFast(s[1..], u)
  }

  lemma {:induction false} RemoveFastFacts(s: seq<Uid>, u: Uid)
    requires NoDup(s)
    ensures NoDup(RemoveFast(s, u)) && forall x :: x in RemoveFast(s, u) <==> x in s && x != u
  {
    if s != [] {
      var n := |s| - 1;
      if s[0] == u {
        if n > 0 {
          assert s == [s[0]] + s[1..n] + [s[n]];
          assert forall i | 0 <= i < n - 1 :: s[1..n][i] == s[i + 1];
        }
      } else {
        RemoveFastFacts(s[1..], u);
        assert s == [s[0]] + s[1..];
        assert s[0] !in s[1..];
      }
    }
  }

  /** The lists of a change set, the table of which list a uid is in, the uids to filter, and the
      uids still to be compared when a diff is built. */
  datatype Change = Change(added: seq<Uid>, removed: seq<Uid>, changed: seq<Uid>, recent: seq<Uid>,
                           stored: map<Uid, Where>, source: Option<set<Uid>>, filter: seq<Uid>)
  {
    ghost predicate Ok() {
      && NoDup(added) && NoDup(removed) && NoDup(changed)
      && (forall u :: u in added <==> u in stored && stored[u] == Added)
      && (forall u :: u in removed <==> u in stored && stored[u] == Removed)
      && (forall u :: u in changed <==> u in stored && stored[u] == Changed)
    }

    predicate HasChanges() {
      added != [] || removed != [] || changed != [] || recent != []
    }
  }

  const EMPTY := Change([], [], [], [], map[], None, [])

  /** camel_folder_change_info_add_uid */
  function AddUid(c: Change, u: Uid): Change {
    if u !in c.stored then c.(added := c.added + [u], stored := c.stored[u := Added])
    else if c.stored[u] == Removed then
      c.(removed := RemoveFast(c.removed, u), changed := c.changed + [u], stored := c.stored[u := Changed])
    else c
  }

  /** camel_folder_change_info_remove_uid */
  function RemoveUid(c: Change, u: Uid): Change {
    if u !in c.stored then c.(removed := c.removed + [u], stored := c.stored[u := Removed])
    else match c.stored[u]
      case Removed => c
      case Added => c.(added := RemoveFast(c.added, u), removed := c.removed + [u], stored := c.stored[u := Removed])
      case Changed => c.(changed := RemoveFast(c.changed, u), removed := c.removed + [u], stored := c.stored[u := Removed])
  }

  /** camel_folder_change_info_change_uid */
  function ChangeUid(c: Change, u: Uid): Change {
    if u !in c.stored then c.(changed := c.changed + [u], stored := c.stored[u := Changed]) else c
  }

  /** The ways a uid gets into a change set. */
  datatype Kind = Adding | Removing | Changing | Recent | Filtering

  function Apply(c: Change, k: Kind, u: Uid): Change {
    match k
    case Adding => AddUid(c, u)
    case Removing => RemoveUid(c, u)
    case Changing => ChangeUid(c, u)
    case Recent => c.(recent := c.recent + [u])
    case Filtering => c.(filter := c.filter + [u])
  }

  /** change_info_cat */
  function Fold(c: Change, k: Kind, list: seq<Uid>): Change {
    if list == [] then c else Apply(Fold(c, k, list[..|list| - 1]), k, list[|list| - 1])
  }

  /** camel_folder_change_info_cat */
  function Cat(c: Change, s: Change): Change {
    Fold(Fold(Fold(Fold(Fold(c, Adding, s.added), Removing, s.removed), Changing, s.changed), Recent, s.recent), Filtering, s.filter)
  }

  // ---------------------------------------------------------------- the lists and the table agree

  lemma AddUidOk(c: Change, u: Uid)
    requires c.Ok()
    ensures AddUid(c, u).Ok()
  {
    RemoveFastFacts(c.removed, u);
  }

  lemma RemoveUidOk(c: Change, u: Uid)
    requires c.Ok()
    ensures RemoveUid(c, u).Ok()
  {
    RemoveFastFacts(c.added, u);
    RemoveFastFacts(c.changed, u);
  }

  lemma ApplyOk(c: Change, k: Kind, u: Uid)
    requires c.Ok()
    ensures Apply(c, k, u).Ok()
  {
    AddUidOk(c, u);
    RemoveUidOk(c, u);
  }

  /** Where a uid is after one more operation on it. */
  function Moved(w: Option<Where>, k: Kind): Option<Where> {
    match k
    case Adding => if w == None then Some(Added) else if w == Some(Removed) then Some(Changed) else w
    case Removing => Some(Removed)
    case Changing => if w == None then Some(Changed) else w
    case _ => w
  }

  function Find(c: Change, u: Uid): Option<Where> {
    if u in c.stored then Some(c.stored[u]) else None
  }

  lemma {:induction false} FoldFinds(c: Change, k: Kind, list: seq<Uid>)
    requires c.Ok() && NoDup(list)
    ensures var d := Fold(c, k, list);
      d.Ok() && forall u :: Find(d, u) == if u in list then Moved(Find(c, u), k) else Find(c, u)
  {
    if list != [] {
      var n := |list| - 1;
      assert list == list[..n] + [list[n]] && list[n] !in list[..n];
      FoldFinds(c, k, list[..n]);
      ApplyOk(Fold(c, k, list[..n]), k, list[n]);
    }
  }

  lemma {:induction false} FoldStored(c: Change, k: Kind, list: seq<Uid>)
    requires k.Recent? || k.Filtering?
    ensures var d := Fold(c, k, list);
      d == if k.Recent? then c.(recent := c.recent + list) else c.(filter := c.filter + list)
  {
    if list != [] {
      var n := |list| - 1;
      assert list == list[..n] + [list[n]];
      FoldStored(c, k, list[..n]);
      assert c.recent + list == c.recent + list[..n] + [list[n]];
      assert c.filter + list == c.filter + list[..n] + [list[n]];
    } else {
      assert c.recent + [] == c.recent && c.filter + [] == c.filter;
    }
  }

  /** Where the uids are after concatenation. */
  function Joined(a: Option<Where>, b: Option<Where>): Option<Where> {
    match b
    case None => a
    case Some(Added) => Moved(a, Adding)
    case Some(Removed) => Some(Removed)
    case Some(Changed) => Moved(a, Changing)
  }

  lemma CatFinds(c: Change, s: Change)
    requires c.Ok() && s.Ok()
    ensures Cat(c, s).Ok() && forall u :: Find(Cat(c, s), u) == Joined(Find(c, u), Find(s, u))
    ensures Cat(c, s).recent == c.recent + s.recent && Cat(c, s).filter == c.filter + s.filter
  {
    hide Change.Ok, Fold;
    var c1 := Fold(c, Adding, s.added);
    OkLists(s);
    FoldFinds(c, Adding, s.added);
    var c2 := Fold(c1, Removing, s.removed);
    FoldFinds(c1, Removing, s.removed);
    var c3 := Fold(c2, Changing, s.changed);
    FoldFinds(c2, Changing, s.changed);
    FoldStored(c3, Recent, s.recent);
    FoldStored(c3.(recent := c3.recent + s.recent), Filtering, s.filter);
    SameOk(c3, Cat(c, s));
    RecentUntouched(c, Adding, s.added);
    RecentUntouched(c1, Removing, s.removed);
    RecentUntouched(c2, Changing, s.changed);
  }

  lemma SameOk(c: Change, d: Change)
    requires c.Ok() && d == c.(recent := d.recent, filter := d.filter)
    ensures d.Ok() && forall u :: Find(d, u) == Find(c, u)
  {
  }

  lemma OkLists(s: Change)
    requires s.Ok()
    ensures NoDup(s.added) && NoDup(s.removed) && NoDup(s.changed)
    ensures forall u :: u in s.added <==> Find(s, u) == Some(Added)
    ensures forall u :: u in s.removed <==> Find(s, u) == Some(Removed)
    ensures forall u :: u in s.changed <==> Find(s, u) == Some(Changed)
  {
  }

  lemma {:induction false} RecentUntouched(c: Change, k: Kind, list: seq<Uid>)
    requires !k.Recent? && !k.Filtering?
    ensures Fold(c, k, list).recent == c.recent && Fold(c, k, list).filter == c.filter
  {
    if list != [] { RecentUntouched(c, k, list[..|list| - 1]); }
  }

  // ---------------------------------------------------------------- histories of a folder

  datatype Event = Event(kind: Kind, uid: Uid)

  /** The uids in a folder after an event. */
  function Present(p: set<Uid>, e: Event): set<Uid> {
    match e.kind
    case Adding => p + {e.uid}
    case Removing => p - {e.uid}
    case _ => p
  }

  function PresentAfter(p: set<Uid>, h: seq<Event>): set<Uid> {
    if h == [] then p else Present(PresentAfter(p, h[..|h| - 1]), h[|h| - 1])
  }

  /** Only absent uids are added, only present ones removed or changed. */
  predicate Legal(p: set<Uid>, h: seq<Event>) {
    h == [] ||
    (var e := h[|h| - 1]; var q := PresentAfter(p, h[..|h| - 1]);
     && Legal(p, h[..|h| - 1]) && (if e.kind == Adding then e.uid !in q else e.uid in q)
     && (e.kind == Adding || e.kind == Removing || e.kind == Changing))
  }

  function Recorded(h: seq<Event>): Change {
    if h == [] then EMPTY else Apply(Recorded(h[..|h| - 1]), h[|h| - 1].kind, h[|h| - 1].uid)
  }

  predicate Touched(h: seq<Event>, u: Uid) {
    exists i | 0 <= i < |h| :: h[i].uid == u
  }

  predicate WasRemoved(h: seq<Event>, u: Uid) {
    exists i | 0 <= i < |h| :: h[i] == Event(Removing, u)
  }

  /** The uids that a legal history touches are removed if they are absent in the end, added if they
      were absent in the beginning and never removed, and changed otherwise. */
  function Class(p: set<Uid>, h: seq<Event>, u: Uid): Option<Where> {
    if !Touched(h, u) then None
    else if u !in PresentAfter(p, h) then Some(Removed)
    else if u !in p && !WasRemoved(h, u) then Some(Added)
    else Some(Changed)
  }

  lemma LastEvent(h: seq<Event>, u: Uid)
    requires h != []
    ensures var r, e := h[..|h| - 1], h[|h| - 1];
      && (Touched(h, u) <==> Touched(r, u) || e.uid == u)
      && (WasRemoved(h, u) <==> WasRemoved(r, u) || e == Event(Removing, u))
  {
    var r, e := h[..|h| - 1], h[|h| - 1];
    assert h == r + [e];
    if Touched(r, u) { var i :| 0 <= i < |r| && r[i].uid == u; assert h[i].uid == u; }
    if Touched(h, u) { var i :| 0 <= i < |h| && h[i].uid == u; if i < |r| { assert r[i].uid == u; } }
    if WasRemoved(r, u) { var i :| 0 <= i < |r| && r[i] == Event(Removing, u); assert h[i] == Event(Removing, u); }
    if WasRemoved(h, u) { var i :| 0 <= i < |h| && h[i] == Event(Removing, u); if i < |r| { assert r[i] == Event(Removing, u); } }
    if e.uid == u { assert h[|h| - 1].uid == u; }
    if e == Event(Removing, u) { assert h[|h| - 1] == Event(Removing, u); }
  }

  lemma {:induction false} HistoryClassified(p: set<Uid>, h: seq<Event>)
    requires Legal(p, h)
    ensures Recorded(h).Ok() && forall u :: Find(Recorded(h), u) == Class(p, h, u)
  {
    if h != [] {
      var r, e := h[..|h| - 1], h[|h| - 1];
      HistoryClassified(p, r);
      ApplyOk(Recorded(r), e.kind, e.uid);
      forall u ensures Find(Recorded(h), u) == Class(p, h, u) {
        LastEvent(h, u);
        assert Find(Recorded(r), u) == Class(p, r, u);
        if !Touched(r, u) { Untouched(p, r, u); } else if u !in PresentAfter(p, r) { GoneWasRemoved(p, r, u); }
      }
    }
  }

  lemma {:induction false} Untouched(p: set<Uid>, h: seq<Event>, u: Uid)
    requires !Touched(h, u)
    ensures u in PresentAfter(p, h) <==> u in p
    ensures !WasRemoved(h, u)
  {
    if h != [] {
      LastEvent(h, u);
      Untouched(p, h[..|h| - 1], u);
    }
  }

  lemma {:induction false} GoneWasRemoved(p: set<Uid>, h: seq<Event>, u: Uid)
    requires Legal(p, h) && Touched(h, u) && u !in PresentAfter(p, h)
    ensures WasRemoved(h, u)
  {
    if h != [] {
      LastEvent(h, u);
      if h[|h| - 1].uid != u { GoneWasRemoved(p, h[..|h| - 1], u); }
    }
  }

  // ---------------------------------------------------------------- joining two change sets

  /** What the place of a uid says about it: nothing has happened to it, or it is gone, or it is
      there, and was not there before if it is in the added list. */
  predicate Honest(w: Option<Where>, before: bool, after: bool) {
    if w == None then before == after
    else (after <==> w != Some(Removed)) && (w == Some(Added) ==> !before)
  }

  /** The change set tells the truth about a folder that went from `p` to `q`. */
  ghost predicate Tells(c: Change, p: set<Uid>, q: set<Uid>) {
    c.Ok() && forall u :: Honest(Find(c, u), u in p, u in q)
  }

  lemma RecordedTells(p: set<Uid>, h: seq<Event>)
    requires Legal(p, h)
    ensures Tells(Recorded(h), p, PresentAfter(p, h))
  {
    HistoryClassified(p, h);
    forall u ensures Honest(Find(Recorded(h), u), u in p, u in PresentAfter(p, h)) {
      if !Touched(h, u) { Untouched(p, h, u); }
    }
  }

  lemma HonestJoin(a: Option<Where>, b: Option<Where>, p: bool, q: bool, r: bool)
    requires Honest(a, p, q) && Honest(b, q, r)
    ensures Honest(Joined(a, b), p, r) <==> !(a == Some(Removed) && b == Some(Changed))
  {
  }

  /** The concatenation tells the truth exactly when nothing that the first change set has removed is
      in the second as changed. */
  lemma CatTellsIff(c: Change, d: Change, p: set<Uid>, q: set<Uid>, r: set<Uid>)
    requires Tells(c, p, q) && Tells(d, q, r)
    ensures Tells(Cat(c, d), p, r) <==> forall u | u in c.removed :: u !in d.changed
  {
    CatFinds(c, d);
    OkLists(c);
    OkLists(d);
    hide Cat, Change.Ok, Apply, Fold, Find, Honest, Joined;
    forall u ensures Honest(Find(Cat(c, d), u), u in p, u in r) <==> !(u in c.removed && u in d.changed) {
      HonestJoin(Find(c, u), Find(d, u), u in p, u in q, u in r);
    }
  }

  /** Such a uid: it was there, is removed, comes back, is removed and comes back again. */
  lemma CatCanLie()
    ensures var h1, h2 := [Event(Removing, "u")], [Event(Adding, "u"), Event(Removing, "u"), Event(Adding, "u")];
      && Legal({"u"}, h1) && Legal(PresentAfter({"u"}, h1), h2)
      && Recorded(h1).removed == ["u"] && Recorded(h2).changed == ["u"]
      && Cat(Recorded(h1), Recorded(h2)).removed == ["u"] && "u" in PresentAfter({"u"}, h1 + h2)
  {
    var a, b := Event(Adding, "u"), Event(Removing, "u");
    var h1, h2 := [b], [a, b, a];
    assert h1[..0] == [] && h2[..2] == [a, b] && [a, b][..1] == [a] && [a][..0] == [];
    assert Recorded(h1) == RemoveUid(EMPTY, "u") && Recorded([a]) == AddUid(EMPTY, "u");
    var r := Change([], ["u"], [], [], map["u" := Removed], None, []);
    assert Recorded(h1) == r;
    assert Recorded([a, b]) == RemoveUid(Recorded([a]), "u") == r;
    var d := Change([], [], ["u"], [], map["u" := Changed], None, []);
    assert Recorded(h2) == AddUid(r, "u") == d;
    assert PresentAfter({"u"}, h1) == {} && PresentAfter({}, [a]) == {"u"} && PresentAfter({}, [a, b]) == {};
    assert Legal({}, [a]) && Legal({}, [a, b]);
    assert d.changed[..0] == [];
    assert Fold(r, Changing, d.changed) == ChangeUid(Fold(r, Changing, []), "u") == r;
    assert (h1 + h2)[..3] == [b, a, b];
    assert "u" in PresentAfter({"u"}, h1 + h2);
  }
}
