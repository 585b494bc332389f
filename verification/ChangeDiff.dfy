/** Building a change set as the difference between a list of source uids and a list of updates. */
module ChangeDiff {
  import opened Basics
  import opened SeqFacts
  import opened Changes

  function Uids(list: seq<Uid>): set<Uid> {
    set u | u in list
  }

  lemma UidsNext(list: seq<Uid>, i: nat)
    requires i < |list|
    ensures Uids(list[..i + 1]) == Uids(list[..i]) + {list[i]}
  {
    assert list[..i + 1] == list[..i] + [list[i]];
    assert forall u :: u in list[..i + 1] <==> u in list[..i] || u == list[i];
  }

  /** camel_folder_change_info_add_source_list; adding one source is a list of one. */
  function AddSources(c: Change, list: seq<Uid>): Change {
    c.(source := Some((if c.source == None then {} else c.source.value) + Uids(list)))
  }

  /** camel_folder_change_info_add_update */
  function AddUpdate(c: Change, u: Uid): Change {
    if c.source == None || u !in c.source.value then AddUid(c, u)
    else c.(source := Some(c.source.value - {u}))
  }

  function AddUpdates(c: Change, list: seq<Uid>): Change {
    if list == [] then c else AddUpdate(AddUpdates(c, list[..|list| - 1]), list[|list| - 1])
  }

  /** The sources that are left are removed, in the order in which the table gives them. */
  ghost predicate Lists(order: seq<Uid>, s: set<Uid>) {
    NoDup(order) && forall u :: u in order <==> u in s
  }

  /** camel_folder_change_info_build_diff */
  function BuildDiff(c: Change, order: seq<Uid>): Change {
    Fold(c, Removing, order).(source := None)
  }

  function Count(list: seq<Uid>, u: Uid): nat {
    if list == [] then 0 else Count(list[..|list| - 1], u) + if list[|list| - 1] == u then 1 else 0
  }

  lemma {:induction false} CountMember(list: seq<Uid>, u: Uid)
    ensures u in list <==> Count(list, u) > 0
  {
    if list != [] {
      CountMember(list[..|list| - 1], u);
      assert list == list[..|list| - 1] + [list[|list| - 1]];
    }
  }

  lemma {:induction false} CountDistinct(list: seq<Uid>, u: Uid)
    requires NoDup(list)
    ensures Count(list, u) <= 1
  {
    if list != [] {
      var r := list[..|list| - 1];
      CountDistinct(r, u);
      CountMember(r, u);
      assert list[|list| - 1] !in r;
    }
  }

  /** Where a uid is once the updates are in: a source seen once is struck out, seen again it is
      taken for a new one. */
  lemma {:induction false} UpdatesFind(c: Change, updates: seq<Uid>)
    requires c.Ok() && c.stored == map[] && c.source.Some?
    ensures var d := AddUpdates(c, updates);
      && d.Ok() && d.source.Some?
      && (forall u :: u in d.source.value <==> u in c.source.value && u !in updates)
      && forall u :: Find(d, u) == if Count(updates, u) > (if u in c.source.value then 1 else 0) then Some(Added) else None
  {
    if updates != [] {
      var n := |updates| - 1;
      var r, x := updates[..n], updates[n];
      assert updates == r + [x];
      UpdatesFind(c, r);
      var b := AddUpdates(c, r);
      AddUidOk(b, x);
      CountMember(r, x);
    }
  }

  lemma HasFirst(s: seq<Uid>)
    ensures s == [] || s[0] in s
  {
  }

  /** A diff is right: added are the updates that are no sources, removed the sources that are no
      updates, and nothing is changed. */
  ghost predicate Right(d: Change, sources: seq<Uid>, updates: seq<Uid>) {
    && d.Ok() && d.changed == []
    && (forall u :: u in d.added <==> u in updates && u !in sources)
    && forall u :: u in d.removed <==> u in sources && u !in updates
  }

  lemma DiffFinds(sources: seq<Uid>, updates: seq<Uid>, order: seq<Uid>, u: Uid)
    requires var c := AddUpdates(AddSources(EMPTY, sources), updates); c.source.Some? && Lists(order, c.source.value)
    ensures var d := BuildDiff(AddUpdates(AddSources(EMPTY, sources), updates), order);
      d.Ok() && Find(d, u) == if u in sources && u !in updates then Some(Removed)
                              else if Count(updates, u) > (if u in sources then 1 else 0) then Some(Added)
                              else None
  {
    hide Change.Ok, Fold, AddUpdates, Count, Find;
    var b := AddSources(EMPTY, sources);
    EmptyOk(b);
    var c := AddUpdates(b, updates);
    UpdatesFind(b, updates);
    FoldFinds(c, Removing, order);
    CountMember(updates, u);
    SourceGone(Fold(c, Removing, order), u);
  }

  lemma EmptyOk(c: Change)
    requires c == EMPTY.(source := c.source)
    ensures c.Ok() && c.stored == map[]
  {
  }

  lemma SourceGone(c: Change, u: Uid)
    requires c.Ok()
    ensures c.(source := None).Ok() && Find(c.(source := None), u) == Find(c, u)
  {
  }

  /** The diff is right exactly when no source is updated twice. */
  lemma DiffRightIff(sources: seq<Uid>, updates: seq<Uid>, order: seq<Uid>)
    requires var c := AddUpdates(AddSources(EMPTY, sources), updates); c.source.Some? && Lists(order, c.source.value)
    ensures var d := BuildDiff(AddUpdates(AddSources(EMPTY, sources), updates), order);
      Right(d, sources, updates) <==> forall u | u in sources :: Count(updates, u) <= 1
  {
    hide Change.Ok, Fold, AddUpdates, AddSources, Count, BuildDiff, NoDup, Find;
    var d := BuildDiff(AddUpdates(AddSources(EMPTY, sources), updates), order);
    DiffFinds(sources, updates, order, "");
    OkLists(d);
    forall u
      ensures u in d.added <==> Count(updates, u) > if u in sources then 1 else 0
      ensures u in d.removed <==> u in sources && u !in updates
      ensures u !in d.changed && (u in updates <==> Count(updates, u) > 0)
    {
      DiffFinds(sources, updates, order, u);
      CountMember(updates, u);
    }
    HasFirst(d.changed);
  }

  function Outside(list: seq<Uid>, s: seq<Uid>): seq<Uid> {
    if list == [] then []
    else Outside(list[..|list| - 1], s) + if list[|list| - 1] in s then [] else [list[|list| - 1]]
  }

  lemma {:induction false} RemovingNew(c: Change, order: seq<Uid>)
    requires c.Ok() && NoDup(order) && forall u | u in order :: Find(c, u) == None
    ensures Fold(c, Removing, order).added == c.added && Fold(c, Removing, order).removed == c.removed + order
  {
    if order != [] {
      var n := |order| - 1;
      assert order == order[..n] + [order[n]] && order[n] !in order[..n];
      RemovingNew(c, order[..n]);
      FoldFinds(c, Removing, order[..n]);
      assert c.removed + order == c.removed + order[..n] + [order[n]];
    } else {
      assert c.removed + [] == c.removed;
    }
  }

  lemma {:induction false} UpdatesInOrder(c: Change, sources: seq<Uid>, updates: seq<Uid>)
    requires c.Ok() && c.stored == map[] && c.added == [] && c.source == Some(Uids(sources)) && NoDup(updates)
    ensures AddUpdates(c, updates).added == Outside(updates, sources)
  {
    if updates != [] {
      var n := |updates| - 1;
      var r, x := updates[..n], updates[n];
      assert x !in r;
      UpdatesInOrder(c, sources, r);
      UpdatesFind(c, r);
      CountMember(r, x);
    }
  }

  /** With distinct updates, the added uids come in the order of the updates. */
  lemma DiffInOrder(sources: seq<Uid>, updates: seq<Uid>, order: seq<Uid>)
    requires NoDup(updates)
    requires var c := AddUpdates(AddSources(EMPTY, sources), updates); c.source.Some? && Lists(order, c.source.value)
    ensures var d := BuildDiff(AddUpdates(AddSources(EMPTY, sources), updates), order);
      Right(d, sources, updates) && d.added == Outside(updates, sources) && d.removed == order
  {
    var b := AddSources(EMPTY, sources);
    var c := AddUpdates(b, updates);
    assert {} + Uids(sources) == Uids(sources);
    forall u | u in sources ensures Count(updates, u) <= 1 { CountDistinct(updates, u); }
    DiffRightIff(sources, updates, order);
    UpdatesInOrder(b, sources, updates);
    UpdatesFind(b, updates);
    forall u | u in order ensures Find(c, u) == None { CountMember(updates, u); }
    RemovingNew(c, order);
    NothingRemovedYet(b, updates);
    assert [] + order == order;
  }

  lemma {:induction false} NothingRemovedYet(c: Change, updates: seq<Uid>)
    requires c.Ok() && c.stored == map[] && c.source.Some?
    ensures AddUpdates(c, updates).removed == []
  {
    UpdatesFind(c, updates);
    var d := AddUpdates(c, updates);
    HasFirst(d.removed);
    OkLists(d);
  }

  // ---------------------------------------------------------------- the class

  class ChangeInfo {
    var added: seq<Uid>
    var removed: seq<Uid>
    var changed: seq<Uid>
    var recent: seq<Uid>
    var stored: map<Uid, Where>
    var source: Option<set<Uid>>
    var filter: seq<Uid>

    /** camel_folder_change_info_new */
    constructor ()
      ensures State() == EMPTY
    {
      added, removed, changed, recent, stored, source, filter := [], [], [], [], map[], None, [];
    }

    function State(): Change
      reads this
    {
      Change(added, removed, changed, recent, stored, source, filter)
    }

    method Add(u: Uid)
      modifies this
      ensures State() == AddUid(old(State()), u)
    {
      if u in stored {
        // a uid that had gone and is back counts as changed
        if stored[u] == Removed {
          removed := RemoveFast(removed, u);
          changed := changed + [u];
          stored := stored[u := Changed];
        }
        return;
      }
      added := added + [u];
      stored := stored[u := Added];
    }

    method Remove(u: Uid)
      modifies this
      ensures State() == RemoveUid(old(State()), u)
    {
      if u in stored {
        // only the removal is left of an earlier addition or change
        if stored[u] != Removed {
          if stored[u] == Added { added := RemoveFast(added, u); } else { changed := RemoveFast(changed, u); }
          removed := removed + [u];
          stored := stored[u := Removed];
        }
        return;
      }
      removed := removed + [u];
      stored := stored[u := Removed];
    }

    method MarkChanged(u: Uid)
      modifies this
      ensures State() == ChangeUid(old(State()), u)
    {
      if u !in stored {
        changed := changed + [u];
        stored := stored[u := Changed];
      }
    }

    method AddAs(k: Kind, u: Uid)
      modifies this
      ensures State() == Apply(old(State()), k, u)
    {
      match k
      case Adding => Add(u);
      case Removing => Remove(u);
      case Changing => MarkChanged(u);
      case Recent => recent := recent + [u];
      case Filtering => filter := filter + [u];
    }

    /** camel_folder_change_info_recent_uid */
    method AddRecent(u: Uid)
      modifies this
      ensures State() == Apply(Apply(old(State()), Recent, u), Filtering, u)
    {
      AddAs(Recent, u);
      AddAs(Filtering, u);
    }

    /** change_info_cat */
    method CatList(list: seq<Uid>, k: Kind)
      modifies this
      ensures State() == Fold(old(State()), k, list)
    {
      var i := 0;
      while i < |list|
        invariant 0 <= i <= |list| && State() == Fold(old(State()), k, list[..i])
      {
        AddAs(k, list[i]);
        assert list[..i + 1][..i] == list[..i];
        i := i + 1;
      }
      assert list[..i] == list;
    }

    /** camel_folder_change_info_cat */
    method Append(s: ChangeInfo)
      requires s != this
      modifies this
      ensures State() == Cat(old(State()), s.State())
    {
      CatList(s.added, Adding);
      CatList(s.removed, Removing);
      CatList(s.changed, Changing);
      CatList(s.recent, Recent);
      CatList(s.filter, Filtering);
    }

    method AddSourceList(list: seq<Uid>)
      modifies this
      ensures State() == AddSources(old(State()), list)
    {
      if source == None { source := Some({}); }
      ghost var s := source.value;
      var i := 0;
      assert s + Uids(list[..0]) == s;
      while i < |list|
        invariant 0 <= i <= |list| && State() == old(State()).(source := Some(s + Uids(list[..i])))
      {
        UidsNext(list, i);
        assert s + Uids(list[..i + 1]) == s + Uids(list[..i]) + {list[i]};
        assert list[i] in source.value ==> source.value + {list[i]} == source.value;
        if list[i] !in source.value { source := Some(source.value + {list[i]}); }
        i := i + 1;
      }
      assert list[..i] == list;
    }

    method Update(u: Uid)
      modifies this
      ensures State() == AddUpdate(old(State()), u)
    {
      if source == None {
        Add(u);
      } else if u in source.value {
        source := Some(source.value - {u});
      } else {
        Add(u);
      }
    }

    method UpdateList(list: seq<Uid>)
      modifies this
      ensures State() == AddUpdates(old(State()), list)
    {
      var i := 0;
      while i < |list|
        invariant 0 <= i <= |list| && State() == AddUpdates(old(State()), list[..i])
      {
        Update(list[i]);
        assert list[..i + 1][..i] == list[..i];
        i := i + 1;
      }
      assert list[..i] == list;
    }

    /** camel_folder_change_info_build_diff */
    method BuildDifference() returns (ghost order: seq<Uid>)
      modifies this
      ensures old(source) == None ==> State() == old(State())
      ensures old(source).Some? ==> Lists(order, old(source).value) && State() == BuildDiff(old(State()), order)
    {
      order := [];
      if source != None {
        var left := source.value;
        while left != {}
          invariant left <= old(source).value && State() == Fold(old(State()), Removing, order)
          invariant NoDup(order) && forall u :: u in order <==> u in old(source).value && u !in left
        {
          var u :| u in left;
          Remove(u);
          assert (order + [u])[..|order|] == order;
          order, left := order + [u], left - {u};
        }
        source := None;
      }
    }

    /** camel_folder_change_info_changed */
    method HasChanged() returns (r: bool)
      ensures r == State().HasChanges()
    {
      r := added != [] || removed != [] || changed != [] || recent != [];
    }
  }
}
