/** Freezing and thawing a folder: while it is frozen its events are held back and joined. */
module Freezing {
  import opened Basics
  import opened Changes
  import opened ChangeDiff

  /** What an event finds when it is let through: whether the folder has a filter driver for new
      messages, and the messages that are marked to be learned as junk or not junk. */
  datatype Work = Work(driver: bool, learn: set<Uid>)

  datatype Op = Freeze | Thaw(work: Work) | Report(event: Change, work: Work)

  /** What a filter thread is given: the new uids and the uids to learn. */
  datatype Job = Job(recents: seq<Uid>, learned: seq<Uid>)

  /** How often the folder is frozen, what is held back, what listeners have been told, and the
      filter threads started. */
  datatype State = State(frozen: nat, pending: Change, told: seq<Change>, jobs: seq<Job>)

  predicate Filters(e: Change, w: Work) {
    w.driver && e.filter != []
  }

  function Learned(list: seq<Uid>, learn: set<Uid>): seq<Uid> {
    if list == [] then []
    else Learned(list[..|list| - 1], learn) + if list[|list| - 1] in learn then [list[|list| - 1]] else []
  }

  /** Is there work for a filter thread? */
  predicate Busy(e: Change, w: Work) {
    Filters(e, w) || Learned(e.changed, w.learn) != []
  }

  /** The event without what the thread takes over. */
  function Left(e: Change, w: Work): Change {
    if Filters(e, w) then e.(filter := []) else e
  }

  /** An event meets a folder that is not frozen.  If there is work, the folder is frozen, the event
      is held back, and the thread will thaw the folder when it is done. */
  function Send(s: State, e: Change, w: Work): State {
    if Busy(e, w) then
      State(s.frozen + 1, Cat(s.pending, Left(e, w)), s.told,
            s.jobs + [Job(if Filters(e, w) then e.filter else [], Learned(e.changed, w.learn))])
    else s.(told := s.told + [e])
  }

  /** What each call does. */
  function Next(s: State, op: Op): State {
    match op
    case Freeze => s.(frozen := s.frozen + 1)
    case Thaw(w) =>
      if s.frozen == 0 then s
      else if s.frozen == 1 && s.pending.HasChanges() then Send(s.(frozen := 0, pending := EMPTY), s.pending, w)
      else s.(frozen := s.frozen - 1)
    case Report(e, w) =>
      if s.frozen > 0 then s.(pending := Cat(s.pending, e)) else Send(s, e, w)
  }

  function Run(s: State, ops: seq<Op>): State {
    if ops == [] then s else Next(Run(s, ops[..|ops| - 1]), ops[|ops| - 1])
  }

  /** The events joined from left to right. */
  function Joined(events: seq<Change>): Change {
    if events == [] then EMPTY else Cat(Joined(events[..|events| - 1]), events[|events| - 1])
  }

  /** What listeners should be told: events are passed on, or begin a frozen time of their own if there
      is work to do; those reported while the folder is frozen are kept in `held` and come as one
      when it is thawed, if there is anything in it. */
  function Expected(ops: seq<Op>, depth: nat, held: seq<Change>): seq<Change>
    decreases |ops|, 0
  {
    if ops == [] then []
    else
      match ops[0]
      case Freeze => Expected(ops[1..], depth + 1, held)
      case Report(e, w) => if depth == 0 then Passed(ops, e, w) else Expected(ops[1..], depth, held + [e])
      case Thaw(w) =>
        if depth == 0 then Expected(ops[1..], 0, held)
        else if depth > 1 then Expected(ops[1..], depth - 1, held)
        else if Joined(held).HasChanges() then Passed(ops, Joined(held), w)
        else Expected(ops[1..], 0, [])
  }

  /** What listeners are told once the first call lets `e` through. */
  function Passed(ops: seq<Op>, e: Change, w: Work): seq<Change>
    requires ops != []
    decreases |ops| - 1, 1
  {
    if Busy(e, w) then Expected(ops[1..], 1, [Left(e, w)]) else [e] + Expected(ops[1..], 0, [])
  }

  /** A uid to be filtered is always recent too. */
  predicate Filterable(c: Change) {
    c.filter == [] || c.recent != []
  }

  ghost predicate Proper(e: Change) {
    e.Ok() && Filterable(e) && e.source == None
  }

  lemma CatProper(c: Change, e: Change)
    requires Proper(c) && Proper(e)
    ensures Proper(Cat(c, e))
  {
    CatFinds(c, e);
    CatSource(c, e);
  }

  lemma {:induction false} FoldSource(c: Change, k: Kind, list: seq<Uid>)
    ensures Fold(c, k, list).source == c.source
  {
    if list != [] { FoldSource(c, k, list[..|list| - 1]); }
  }

  lemma CatSource(c: Change, e: Change)
    ensures Cat(c, e).source == c.source
  {
    var c1 := Fold(c, Adding, e.added);
    FoldSource(c, Adding, e.added);
    var c2 := Fold(c1, Removing, e.removed);
    FoldSource(c1, Removing, e.removed);
    var c3 := Fold(c2, Changing, e.changed);
    FoldSource(c2, Changing, e.changed);
    var c4 := Fold(c3, Recent, e.recent);
    FoldSource(c3, Recent, e.recent);
    FoldSource(c4, Filtering, e.filter);
  }

  lemma {:induction false} JoinedProper(events: seq<Change>)
    requires forall e | e in events :: Proper(e)
    ensures Proper(Joined(events))
  {
    if events != [] {
      var n := |events| - 1;
      JoinedProper(events[..n]);
      CatProper(Joined(events[..n]), events[n]);
    }
  }

  /** Nothing is left over in a change set without changes. */
  lemma NothingHeld(c: Change)
    requires Proper(c) && !c.HasChanges()
    ensures c == EMPTY
  {
    forall u ensures u !in c.stored {}
  }

  /** A change set is sent on when there is anything in it. */
  lemma HasChangesIff(c: Change)
    requires Proper(c)
    ensures c.HasChanges() <==> c != EMPTY
  {
    if !c.HasChanges() { NothingHeld(c); }
  }

  lemma {:induction false} RunFrom(s: State, ops: seq<Op>)
    requires ops != []
    ensures Run(s, ops) == Run(Next(s, ops[0]), ops[1..])
    decreases |ops|
  {
    if |ops| > 1 {
      var n := |ops| - 1;
      RunFrom(s, ops[..n]);
      assert ops[..n][1..] == ops[1..][..n - 1];
    } else {
      assert ops[..0] == [];
    }
  }

  lemma NoRun(s: State)
    ensures Run(s, []) == s
  {
  }

  lemma JoinedNone()
    ensures Joined([]) == EMPTY
  {
  }

  lemma JoinedNext(held: seq<Change>, e: Change)
    ensures Joined(held + [e]) == Cat(Joined(held), e)
  {
    assert (held + [e])[..|held|] == held;
  }

  lemma LeftProper(e: Change, w: Work)
    requires Proper(e)
    ensures Proper(Left(e, w))
  {
  }

  lemma {:induction false} RunTells(s: State, ops: seq<Op>, held: seq<Change>)
    requires s.pending == Joined(held) && (s.frozen == 0 ==> held == [])
    requires forall e | e in held :: Proper(e)
    requires forall op | op in ops && op.Report? :: Proper(op.event)
    ensures Run(s, ops).told == s.told + Expected(ops, s.frozen, held)
    decreases |ops|, 0
  {
    hide Proper, Cat, Change.HasChanges, Run, Joined, Busy, Left;
    if ops == [] {
      NoRun(s);
      assert s.told + [] == s.told;
    } else {
      RunFrom(s, ops);
      var op, rest, t := ops[0], ops[1..], Next(s, ops[0]);
      assert op in ops && forall o | o in rest :: o in ops;
      JoinedProper(held);
      JoinedNone();
      if op.Report? && s.frozen > 0 {
        JoinedNext(held, op.event);
        RunTells(t, rest, held + [op.event]);
      } else if op.Report? {
        PassedTells(s, ops, op.event, op.work);
      } else if op.Thaw? && s.frozen == 1 {
        if s.pending.HasChanges() {
          PassedTells(s.(frozen := 0, pending := EMPTY), ops, s.pending, op.work);
        } else {
          NothingHeld(s.pending);
          RunTells(t, rest, []);
        }
      } else {
        RunTells(t, rest, held);
      }
    }
  }

  lemma PassedTells(s: State, ops: seq<Op>, e: Change, w: Work)
    requires ops != [] && s.frozen == 0 && s.pending == EMPTY && Proper(e)
    requires forall op | op in ops[1..] && op.Report? :: Proper(op.event)
    ensures Run(Send(s, e, w), ops[1..]).told == s.told + Passed(ops, e, w)
    decreases |ops| - 1, 1
  {
    hide Proper, Cat, Change.HasChanges, Run, Joined, Busy, Left, Expected;
    JoinedNone();
    if Busy(e, w) {
      LeftProper(e, w);
      JoinedNext([], Left(e, w));
      assert [] + [Left(e, w)] == [Left(e, w)];
      RunTells(Send(s, e, w), ops[1..], [Left(e, w)]);
    } else {
      RunTells(Send(s, e, w), ops[1..], []);
      assert s.told + [e] + Expected(ops[1..], 0, []) == s.told + ([e] + Expected(ops[1..], 0, []));
    }
  }

  /** Freezing and thawing lose nothing: over any run, listeners are told what they should be. */
  lemma NothingIsLost(ops: seq<Op>)
    requires forall op | op in ops && op.Report? :: Proper(op.event)
    ensures Run(State(0, EMPTY, [], []), ops).told == Expected(ops, 0, [])
  {
    RunTells(State(0, EMPTY, [], []), ops, []);
    assert [] + Expected(ops, 0, []) == Expected(ops, 0, []);
  }

  // ---------------------------------------------------------------- what the filter threads are given

  /** The sequence `s` consists of `a` and `b`, each in its order. */
  ghost predicate Merged(s: seq<Uid>, a: seq<Uid>, b: seq<Uid>) {
    if s == [] then a == [] && b == []
    else
      var n, u := |s| - 1, s[|s| - 1];
      || (a != [] && a[|a| - 1] == u && Merged(s[..n], a[..|a| - 1], b))
      || (b != [] && b[|b| - 1] == u && Merged(s[..n], a, b[..|b| - 1]))
  }

  lemma {:induction false} MergedOn(s: seq<Uid>, a: seq<Uid>, b: seq<Uid>, more: seq<Uid>)
    requires Merged(s, a, b)
    ensures Merged(s + more, a + more, b) && Merged(s + more, a, b + more)
  {
    if more == [] {
      assert s + more == s && a + more == a && b + more == b;
    } else {
      var n := |more| - 1;
      MergedOn(s, a, b, more[..n]);
      assert (s + more)[..|s + more| - 1] == s + more[..n];
      assert (a + more)[..|a + more| - 1] == a + more[..n];
      assert (b + more)[..|b + more| - 1] == b + more[..n];
    }
  }

  /** The events reported, in order. */
  function Reported(ops: seq<Op>): seq<Change> {
    if ops == [] then []
    else
      var op := ops[|ops| - 1];
      Reported(ops[..|ops| - 1]) + if op.Report? then [op.event] else []
  }

  /** The uids to be filtered of all the events. */
  function FilterUids(events: seq<Change>): seq<Uid> {
    if events == [] then [] else FilterUids(events[..|events| - 1]) + events[|events| - 1].filter
  }

  /** The uids that all the threads are given to filter. */
  function Recents(jobs: seq<Job>): seq<Uid> {
    if jobs == [] then [] else Recents(jobs[..|jobs| - 1]) + jobs[|jobs| - 1].recents
  }

  lemma ConcatNext(events: seq<Change>, e: Change, jobs: seq<Job>, j: Job)
    ensures FilterUids(events + [e]) == FilterUids(events) + e.filter && Recents(jobs + [j]) == Recents(jobs) + j.recents
  {
    assert (events + [e])[..|events|] == events && (jobs + [j])[..|jobs|] == jobs;
  }

  lemma CatFilter(c: Change, e: Change)
    ensures Cat(c, e).filter == c.filter + e.filter
  {
    hide Fold;
    var c1 := Fold(c, Adding, e.added);
    RecentUntouched(c, Adding, e.added);
    var c2 := Fold(c1, Removing, e.removed);
    RecentUntouched(c1, Removing, e.removed);
    var c3 := Fold(c2, Changing, e.changed);
    RecentUntouched(c2, Changing, e.changed);
    FoldStored(c3, Recent, e.recent);
    FoldStored(c3.(recent := c3.recent + e.recent), Filtering, e.filter);
  }

  /** What has left the folder, in order: to a thread or to the listeners. */
  ghost predicate Emitted(out: seq<Uid>, s: State) {
    Merged(out, Recents(s.jobs), FilterUids(s.told))
  }

  lemma SendFilters(out: seq<Uid>, s: State, e: Change, w: Work)
    requires Emitted(out, s) && s.pending == EMPTY && Proper(e)
    ensures var t := Send(s, e, w);
      && Proper(t.pending) && (t.frozen == 0 ==> t.pending == EMPTY) 
      && exists more :: Emitted(out + more, t) && more + t.pending.filter == e.filter
  {
    hide Proper, Cat, Change.HasChanges, Merged, Recents, FilterUids, Learned, EMPTY;
    var t := Send(s, e, w);
    EmptyProper();
    LeftProper(e, w);
    CatProper(EMPTY, Left(e, w));
    CatFilter(EMPTY, Left(e, w));
    var j := Job(if Filters(e, w) then e.filter else [], Learned(e.changed, w.learn));
    ConcatNext(s.told, e, s.jobs, j);
    var more := if Busy(e, w) then j.recents else e.filter;
    MergedOn(out, Recents(s.jobs), FilterUids(s.told), more);
    assert Emitted(out + more, t) && more + t.pending.filter == e.filter;
  }

  lemma NothingMerged()
    ensures Merged([], [], [])
  {
  }

  lemma EmptyProper()
    ensures Proper(EMPTY) && EMPTY.filter == []
  {
  }

  lemma {:induction false} FiltersKept(ops: seq<Op>)
    requires forall op | op in ops && op.Report? :: Proper(op.event)
    ensures var s := Run(State(0, EMPTY, [], []), ops);
      && Proper(s.pending) && (s.frozen == 0 ==> s.pending == EMPTY)
      && exists out :: Emitted(out, s) && out + s.pending.filter == FilterUids(Reported(ops))
  {
    hide Proper, Cat, Change.HasChanges, Merged, Send, EMPTY, Next, Recents, FilterUids;
    EmptyProper();
    NoFilters();
    if ops == [] {
      NothingMerged();
      assert Emitted([], State(0, EMPTY, [], []));
      assert [] + EMPTY.filter == FilterUids(Reported([]));
    } else {
      var n := |ops| - 1;
      var op, s := ops[n], Run(State(0, EMPTY, [], []), ops[..n]);
      FiltersKept(ops[..n]);
      var out :| Emitted(out, s) && out + s.pending.filter == FilterUids(Reported(ops[..n]));
      OpFilters(out, s, op);
      var more :| Emitted(out + more, Next(s, op))
        && more + Next(s, op).pending.filter == s.pending.filter + if op.Report? then op.event.filter else [];
      var t, before := Next(s, op), Reported(ops[..n]);
      if op.Report? { ConcatNext(before, op.event, [], Job([], [])); }
      assert Reported(ops) == if op.Report? then before + [op.event] else before by { assert before + [] == before; }
      assert out + more + t.pending.filter == out + (more + t.pending.filter);
      assert FilterUids(before) + [] == FilterUids(before);
      assert Emitted(out + more, t) && out + more + t.pending.filter == FilterUids(Reported(ops));
    }
  }

  lemma NoFilters()
    ensures FilterUids([]) == [] && Recents([]) == []
  {
  }

  lemma OpFilters(out: seq<Uid>, s: State, op: Op)
    requires Emitted(out, s) && Proper(s.pending) && (s.frozen == 0 ==> s.pending == EMPTY) && (op.Report? ==> Proper(op.event))
    ensures var t := Next(s, op);
      && Proper(t.pending) && (t.frozen == 0 ==> t.pending == EMPTY)
      && exists more :: Emitted(out + more, t)
           && more + t.pending.filter == s.pending.filter + if op.Report? then op.event.filter else []
  {
    hide Proper, Cat, Change.HasChanges, Merged, Recents, FilterUids, Send, EMPTY;
    var t := Next(s, op);
    EmptyProper();
    if op.Report? && s.frozen == 0 {
      SendFilters(out, s, op.event, op.work);
    } else if op.Thaw? && s.frozen == 1 && s.pending.HasChanges() {
      SendFilters(out, s.(frozen := 0, pending := EMPTY), s.pending, op.work);
      assert s.pending.filter + [] == s.pending.filter;
    } else {
      if op.Report? {
        CatProper(s.pending, op.event);
        CatFilter(s.pending, op.event);
      } else if op.Thaw? && s.frozen == 1 {
        NothingHeld(s.pending);
      }
      assert out + [] == out && Emitted(out + [], t);
      assert [] + t.pending.filter == s.pending.filter + if op.Report? then op.event.filter else [];
    }
  }

  /** The event that a call lets through to a folder that is not frozen. */
  function LetThrough(s: State, op: Op): Option<(Change, Work)> {
    match op
    case Report(e, w) => if s.frozen == 0 then Some((e, w)) else None
    case Thaw(w) => if s.frozen == 1 && s.pending.HasChanges() then Some((s.pending, w)) else None
    case Freeze => None
  }

  /** `part` is what of `list` is in `marked`, in order. */
  ghost predicate Marked(part: seq<Uid>, list: seq<Uid>, marked: set<Uid>) {
    && (forall u | u in part :: u in marked)
    && exists rest :: Merged(list, part, rest) && forall u | u in rest :: u !in marked
  }

  lemma MarkedOn(part: seq<Uid>, list: seq<Uid>, marked: set<Uid>, u: Uid)
    requires Marked(part, list, marked)
    ensures Marked(if u in marked then part + [u] else part, list + [u], marked)
  {
    hide Merged;
    var rest :| Merged(list, part, rest) && forall v | v in rest :: v !in marked;
    MergedOn(list, part, rest, [u]);
    if u in marked {
      assert Merged(list + [u], part + [u], rest);
    } else {
      assert Merged(list + [u], part, rest + [u]);
    }
  }

  lemma {:induction false} LearnedMarked(list: seq<Uid>, learn: set<Uid>)
    ensures Marked(Learned(list, learn), list, learn)
  {
    hide Merged, Marked;
    if list == [] {
      NothingMarked(learn);
    } else {
      var n, u := |list| - 1, list[|list| - 1];
      LearnedMarked(list[..n], learn);
      MarkedOn(Learned(list[..n], learn), list[..n], learn, u);
      assert list[..n] + [u] == list && Learned(list[..n], learn) + [] == Learned(list[..n], learn);
    }
  }

  lemma NothingMarked(marked: set<Uid>)
    ensures Marked([], [], marked)
  {
    NothingMerged();
  }

  /** The thread that `e` gives rise to gets the uids to be filtered, if there is a driver, and the
      changed uids that are marked to be learned. */
  ghost predicate JobOf(j: Job, e: Change, w: Work) {
    && (j.recents != [] || j.learned != [])
    && j.recents == (if w.driver then e.filter else []) && Marked(j.learned, e.changed, w.learn)
  }

  lemma StepJobs(s: State, op: Op)
    ensures var t := Next(s, op);
      match LetThrough(s, op)
      case None => t.jobs == s.jobs && t.told == s.told
      case Some((e, w)) =>
        || (t.told == s.told && t.frozen == 1 && |t.jobs| == |s.jobs| + 1 && t.jobs[..|s.jobs|] == s.jobs && JobOf(t.jobs[|s.jobs|], e, w))
        || (t.jobs == s.jobs && t.frozen == 0 && t.told == s.told + [e]
            && (w.driver ==> e.filter == []) && forall u | u in e.changed :: u !in w.learn)
  {
    hide Cat, Change.HasChanges;
    if LetThrough(s, op).Some? {
      var (e, w) := LetThrough(s, op).value;
      LearnedMarked(e.changed, w.learn);
      if Learned(e.changed, w.learn) == [] { NoneMarked(e.changed, w.learn); }
    }
  }

  lemma NoneMarked(list: seq<Uid>, marked: set<Uid>)
    requires Marked([], list, marked)
    ensures forall u | u in list :: u !in marked
  {
    var rest :| Merged(list, [], rest) && forall u | u in rest :: u !in marked;
    AllRest(list, rest);
  }

  lemma {:induction false} AllRest(list: seq<Uid>, rest: seq<Uid>)
    requires Merged(list, [], rest)
    ensures list == rest
  {
    if list != [] { AllRest(list[..|list| - 1], rest[..|rest| - 1]); }
  }

  /** Over any run every thread is given what some event let through has for it. */
  lemma {:induction false} JobsAreDue(s: State, ops: seq<Op>, k: nat)
    requires |s.jobs| <= k < |Run(s, ops).jobs|
    ensures exists i, e, w :: 0 <= i < |ops| && LetThrough(Run(s, ops[..i]), ops[i]) == Some((e, w)) && JobOf(Run(s, ops).jobs[k], e, w)
    decreases |ops|
  {
    if ops == [] { NoRun(s); }
    var n := |ops| - 1;
    var t, op := Run(s, ops[..n]), ops[n];
    StepJobs(t, op);
    if k < |t.jobs| {
      JobsAreDue(s, ops[..n], k);
      var i, e, w :| 0 <= i < n && LetThrough(Run(s, ops[..n][..i]), ops[..n][i]) == Some((e, w)) && JobOf(t.jobs[k], e, w);
      assert ops[..n][..i] == ops[..i] && ops[..n][i] == ops[i];
      assert Run(s, ops).jobs[k] == Run(s, ops).jobs[..|t.jobs|][k];
    }
  }

  // ---------------------------------------------------------------- is the joined event true?

  /** The events tell what happens to a folder, each between two of the states `folders`. */
  ghost predicate AllTell(events: seq<Change>, folders: seq<set<Uid>>) {
    && |folders| == |events| + 1
    && forall i | 0 <= i < |events| :: Tells(events[i], folders[i], folders[i + 1])
  }

  /** Event `i` changes a uid that is in the removed list by then. */
  ghost predicate Missed(events: seq<Change>, i: nat, u: Uid)
    requires i < |events|
  {
    u in Joined(events[..i]).removed && u in events[i].changed
  }

  ghost predicate RemovedLater(events: seq<Change>, i: nat, u: Uid) {
    exists j :: i < j < |events| && u in events[j].removed
  }

  ghost predicate MadeGood(events: seq<Change>, u: Uid) {
    forall i | 0 <= i < |events| && Missed(events, i, u) :: RemovedLater(events, i, u)
  }

  lemma MadeGoodNext(events: seq<Change>, u: Uid)
    requires events != [] && events[|events| - 1].Ok()
    ensures var before, e := events[..|events| - 1], events[|events| - 1];
      MadeGood(events, u) <==>
      (u in e.removed || MadeGood(before, u)) && !(u in Joined(before).removed && u in e.changed)
  {
    hide Joined;
    var n := |events| - 1;
    var before, e := events[..n], events[n];
    forall i | 0 <= i < n
      ensures Missed(events, i, u) <==> Missed(before, i, u)
      ensures RemovedLater(events, i, u) <==> u in e.removed || RemovedLater(before, i, u)
    {
      assert before[..i] == events[..i];
      if u in e.removed { assert i < n < |events| && u in events[n].removed; }
      if RemovedLater(before, i, u) {
        var j :| i < j < |before| && u in before[j].removed;
        assert u in events[j].removed;
      }
      if RemovedLater(events, i, u) && u !in e.removed {
        var j :| i < j < |events| && u in events[j].removed;
        assert u in before[j].removed;
      }
    }
    assert Missed(events, n, u) <==> u in Joined(before).removed && u in e.changed;
  }

  /** For one uid: the joined event is honest exactly when every miss has been made good by a later
      removal; when it is not, the uid is listed as removed although it is there. */
  lemma {:induction false} UidHonestIff(events: seq<Change>, folders: seq<set<Uid>>, u: Uid)
    requires AllTell(events, folders)
    ensures Joined(events).Ok()
    ensures var n, w := |events|, Find(Joined(events), u);
      && (Honest(w, u in folders[0], u in folders[n]) <==> MadeGood(events, u))
      && (MadeGood(events, u) || (w == Some(Removed) && u in folders[n]))
  {
    if events != [] {
      var n := |events| - 1;
      var before, e := events[..n], events[n];
      assert AllTell(before, folders[..n + 1]);
      UidHonestIff(before, folders[..n + 1], u);
      assert Tells(e, folders[n], folders[n + 1]);
      CatFinds(Joined(before), e);
      OkLists(Joined(before));
      OkLists(e);
      MadeGoodNext(events, u);
      OneMore(Find(Joined(before), u), Find(e, u), u in folders[0], u in folders[n], u in folders[n + 1], MadeGood(before, u));
    }
  }

  /** The step from one event to the next, for the place `a` of a uid so far and `b` in the event. */
  lemma OneMore(a: Option<Where>, b: Option<Where>, p: bool, q: bool, r: bool, good: bool)
    requires Honest(a, p, q) <==> good
    requires good || (a == Some(Removed) && q)
    requires Honest(b, q, r)
    ensures var w := Changes.Joined(a, b);
      var good' := (b == Some(Removed) || good) && !(a == Some(Removed) && b == Some(Changed));
      (Honest(w, p, r) <==> good') && (good' || (w == Some(Removed) && r))
  {
  }

  /** The joined event tells the truth about the whole time the folder was frozen if and only if every
      uid that an event has changed while it was listed as removed is removed again later. */
  lemma JoinedTellsIff(events: seq<Change>, folders: seq<set<Uid>>)
    requires AllTell(events, folders)
    ensures Tells(Joined(events), folders[0], folders[|events|]) <==> forall u :: MadeGood(events, u)
  {
    UidHonestIff(events, folders, "");
    forall u
      ensures Honest(Find(Joined(events), u), u in folders[0], u in folders[|events|]) <==> MadeGood(events, u)
    {
      UidHonestIff(events, folders, u);
    }
  }

  /** In particular it does if no event changes a uid that is listed as removed by then. */
  lemma JoinedTells(events: seq<Change>, folders: seq<set<Uid>>)
    requires AllTell(events, folders)
    requires forall i, u | 0 <= i < |events| && u in Joined(events[..i]).removed :: u !in events[i].changed
    ensures Tells(Joined(events), folders[0], folders[|events|])
  {
    JoinedTellsIff(events, folders);
  }

  // ---------------------------------------------------------------- the class

  class Folder {
    var frozen: nat
    var changedFrozen: ChangeInfo
    var told: seq<Change>  // what listeners have been told
    var jobs: seq<Job>     // the filter threads started

    constructor ()
      ensures Shown() == State(0, EMPTY, [], []) && fresh(changedFrozen)
    {
      frozen, told, jobs := 0, [], [];
      changedFrozen := new ChangeInfo();
    }

    function Shown(): State
      reads this, changedFrozen
    {
      State(frozen, changedFrozen.State(), told, jobs)
    }

    /** freeze */
    method DoFreeze()
      modifies this`frozen
      ensures Shown() == Next(old(Shown()), Freeze)
    {
      frozen := frozen + 1;
    }

    /** The changed uids that are marked to be learned. */
    method ToLearn(list: seq<Uid>, learn: set<Uid>) returns (uids: seq<Uid>)
      ensures uids == Learned(list, learn)
    {
      uids := [];
      var i := 0;
      while i < |list|
        invariant 0 <= i <= |list| && uids == Learned(list[..i], learn)
      {
        assert list[..i + 1][..i] == list[..i];
        if list[i] in learn { uids := uids + [list[i]]; }
        i := i + 1;
      }
      assert list[..i] == list;
    }

    /** folder_changed: the event is held back while the folder is frozen; otherwise, if there is work
        for a filter thread, the folder is frozen and the event held back until the thread is done. */
    method FolderChanged(changed: ChangeInfo, work: Work) returns (pass: bool)
      requires changed != changedFrozen
      modifies this`frozen, this`jobs, changedFrozen, changed`filter
      ensures pass <==> old(frozen) == 0 && !Busy(old(changed.State()), work)
      ensures pass ==> Shown() == old(Shown()) && changed.State() == old(changed.State())
      ensures !pass ==> Shown() == Next(old(Shown()), Report(old(changed.State()), work))
    {
      if frozen > 0 {
        changedFrozen.Append(changed);
        return false;
      }
      var learned := ToLearn(changed.changed, work.learn);
      var filtering := work.driver && |changed.filter| > 0;
      var recents: seq<Uid> := [];
      if filtering {
        recents := changed.filter;
        changed.filter := [];
      }
      if filtering || learned != [] {
        jobs := jobs + [Job(recents, learned)];
        DoFreeze();
        changedFrozen.Append(changed);
        return false;
      }
      return true;
    }

    /** camel_object_trigger_event(folder, "folder_changed", changed) */
    method Trigger(changed: ChangeInfo, work: Work)
      requires changed != changedFrozen
      modifies this`told, this`frozen, this`jobs, changedFrozen, changed`filter
      ensures Shown() == Next(old(Shown()), Report(old(changed.State()), work))
    {
      var pass := FolderChanged(changed, work);
      if pass { told := told + [changed.State()]; }
    }

    /** camel_folder_thaw */
    method DoThaw(work: Work)
      modifies this, changedFrozen
      ensures Shown() == Next(old(Shown()), Thaw(work))
      ensures changedFrozen == old(changedFrozen) || fresh(changedFrozen)
    {
      if frozen == 0 { return; }
      frozen := frozen - 1;
      var some := changedFrozen.HasChanged();
      if frozen == 0 && some {
        var info := changedFrozen;
        changedFrozen := new ChangeInfo();
        Trigger(info, work);
      }
    }
  }
}
