/** Runs of a block file.  Whatever is cached, written back or dropped on the way, and however often
    the file is closed and opened, clients find in every block they hold what they last put there. */
module BlockRun {
  import opened Basics
  import opened BlockStore
  import opened BlockView

  datatype Step =
    | Load(id: nat)                      // a block is read into the cache
    | WriteBack(id: nat, next: Cache)    // a block is written, with whatever success
    | Drop(id: nat)                      // a block leaves the cache
    | New
    | Free(freed: Word)
    | Change(changed: nat, data: Content, first: bool)  // `first` takes off the SYNC flag
    | Flag                               // the root block gets the SYNC flag
    | Reopen

  ghost predicate Can(c: Cache, s: Store, st: Step) {
    match st
    case Load(id) => id !in c.cells
    case WriteBack(id, next) => id in c.cells && c.WrittenBack(id, next)
    case Drop(id) => id != 0 && !c.Dirty(id)
    case New => s.New().last < WORD_LIMIT
    case Free(id) => id in s.used
    case Change(id, data, first) => id in s.used
    case Flag => true
    case Reopen => Clean(c) && HasSync(c.At(0))
  }

  ghost function Next(c: Cache, s: Store, st: Step): Cache {
    match st
    case Load(id) => c.Loaded(id)
    case WriteBack(id, next) => next
    case Drop(id) => c.Dropped(id)
    case New => c.Changed(0, NewRoot(c.At(0), c.At(s.Next()))).Changed(s.Next(), Zeros())
    case Free(id) => c.Changed(id, Put(c.At(id), 0, c.At(0)[FREE])).Changed(0, Put(c.At(0), FREE, id))
    case Change(id, data, first) =>
      if first then c.Changed(id, data).Changed(0, ClearSync(c.At(0))) else c.Changed(id, data)
    case Flag => c.Changed(0, SetSync(c.At(0)))
    case Reopen => Opened(c.disk, c.size)
  }

  ghost function NextStore(s: Store, st: Step): Store {
    match st
    case New => s.New()
    case Free(id) => s.Free(id)
    case _ => s
  }

  /** What the blocks in use hold, for a client that knows of no cache and no file. */
  ghost function NextHeld(held: map<nat, Content>, s: Store, st: Step): map<nat, Content> {
    match st
    case New => held[s.Next() := Zeros()]
    case Free(id) => held - {id as nat}
    case Change(id, data, first) => held[id := data]
    case _ => held
  }

  ghost function Held(c: Cache, s: Store): map<nat, Content> {
    map id | id in s.used :: c.At(id)
  }

  lemma StepRefines(c: Cache, version: (Word, Word), s: Store, st: Step)
    requires c.Ok(version, s) && Can(c, s, st)
    ensures Next(c, s, st).Ok(version, NextStore(s, st))
    ensures Held(Next(c, s, st), NextStore(s, st)) == NextHeld(Held(c, s), s, st)
  {
    var d := Next(c, s, st);
    hide Store.Ok, Cache.InSync, Cache.Layout, Cache.Allocates, Chained;
    UsedNotRoot(c, version, s);
    match st
    case Load(id) => LoadOk(c, id); TransparentOk(c, d, version, s); HeldSame(c, d, s);
    case WriteBack(id, next) => WriteBackOk(c, id, d); TransparentOk(c, d, version, s); HeldSame(c, d, s);
    case Drop(id) => DropOk(c, id); TransparentOk(c, d, version, s); HeldSame(c, d, s);
    case New => NewBlockOk(c, version, s); FreshId(s);
    case Free(id) => FreeBlockOk(c, version, s, id);
    case Change(id, data, first) =>
      ClientWriteOk(c, version, s, id, data, if first then ClearSync(c.At(0)) else c.At(0));
    case Flag => RootFlagOk(c, version, s);
    case Reopen => SyncThenOpen(c, version, s); HeldSame(c, d, s);
  }

  lemma UsedNotRoot(c: Cache, version: (Word, Word), s: Store)
    requires c.Ok(version, s)
    ensures s.Ok() && 0 !in s.used
  {
  }

  lemma FreshId(s: Store)
    requires s.Ok()
    ensures s.Next() !in s.used && s.Next() != 0
  {
    NewOk(s);
  }

  lemma HeldSame(c: Cache, d: Cache, s: Store)
    requires d.View() == c.View()
    ensures Held(d, s) == Held(c, s)
  {
    forall id | id in s.used ensures d.At(id) == c.At(id) { assert d.View()[id] == c.View()[id]; }
  }

  ghost predicate CanRun(c: Cache, s: Store, run: seq<Step>)
    decreases |run|
  {
    run == [] || (Can(c, s, run[0]) && CanRun(Next(c, s, run[0]), NextStore(s, run[0]), run[1..]))
  }

  ghost function After(c: Cache, s: Store, run: seq<Step>): (Cache, Store)
    decreases |run|
  {
    if run == [] then (c, s) else After(Next(c, s, run[0]), NextStore(s, run[0]), run[1..])
  }

  ghost function HeldAfter(held: map<nat, Content>, s: Store, run: seq<Step>): map<nat, Content>
    decreases |run|
  {
    if run == [] then held else HeldAfter(NextHeld(held, s, run[0]), NextStore(s, run[0]), run[1..])
  }

  lemma {:induction false} RunOn(c: Cache, s: Store, first: seq<Step>, rest: seq<Step>)
    requires CanRun(c, s, first)
    requires var (d, t) := After(c, s, first); CanRun(d, t, rest)
    ensures var (d, t) := After(c, s, first); CanRun(c, s, first + rest) && After(c, s, first + rest) == After(d, t, rest)
    decreases |first|
  {
    if first == [] {
      assert first + rest == rest;
    } else {
      assert (first + rest)[1..] == first[1..] + rest;
      RunOn(Next(c, s, first[0]), NextStore(s, first[0]), first[1..], rest);
    }
  }

  /** Some run leads from one state to the other. */
  ghost predicate Reaches(c: Cache, s: Store, d: Cache, t: Store) {
    exists run :: CanRun(c, s, run) && After(c, s, run) == (d, t)
  }

  lemma Reached(c: Cache, s: Store)
    ensures Reaches(c, s, c, s)
  {
    assert CanRun(c, s, []) && After(c, s, []) == (c, s);
  }

  lemma ReachesNext(c: Cache, s: Store, st: Step)
    requires Can(c, s, st)
    ensures Reaches(c, s, Next(c, s, st), NextStore(s, st))
  {
    var d, t := Next(c, s, st), NextStore(s, st);
    assert [st][1..] == [] && CanRun(d, t, []) && After(d, t, []) == (d, t);
    assert CanRun(c, s, [st]) && After(c, s, [st]) == (d, t);
  }

  lemma ReachesOn(c: Cache, s: Store, d: Cache, t: Store, e: Cache, u: Store)
    requires Reaches(c, s, d, t) && Reaches(d, t, e, u)
    ensures Reaches(c, s, e, u)
  {
    var a :| CanRun(c, s, a) && After(c, s, a) == (d, t);
    var b :| CanRun(d, t, b) && After(d, t, b) == (e, u);
    RunOn(c, s, a, b);
  }

  lemma ReachesWriteBack(c: Cache, s: Store, id: nat, d: Cache)
    requires id in c.cells && c.WrittenBack(id, d)
    ensures Reaches(c, s, d, s)
  {
    ReachesNext(c, s, WriteBack(id, d));
  }

  lemma ReachesLoad(c: Cache, s: Store, id: nat)
    requires id !in c.cells
    ensures Reaches(c, s, c.Loaded(id), s)
  {
    ReachesNext(c, s, Load(id));
  }

  lemma ReachesDrop(c: Cache, s: Store, id: nat)
    requires id != 0 && !c.Dirty(id)
    ensures Reaches(c, s, c.Dropped(id), s)
  {
    ReachesNext(c, s, Drop(id));
  }

  lemma ReachesNew(c: Cache, s: Store)
    requires s.New().last < WORD_LIMIT
    ensures Reaches(c, s, c.Changed(0, NewRoot(c.At(0), c.At(s.Next()))).Changed(s.Next(), Zeros()), s.New())
  {
    ReachesNext(c, s, New);
  }

  lemma ReachesFree(c: Cache, s: Store, id: Word)
    requires id in s.used
    ensures Reaches(c, s, c.Changed(id, Put(c.At(id), 0, c.At(0)[FREE])).Changed(0, Put(c.At(0), FREE, id)), s.Free(id))
  {
    ReachesNext(c, s, Free(id));
  }

  lemma ReachesChange(c: Cache, s: Store, id: nat, data: Content)
    requires id in s.used
    ensures Reaches(c, s, c.Changed(id, data), s)
    ensures Reaches(c, s, c.Changed(id, data).Changed(0, ClearSync(c.At(0))), s)
  {
    ReachesNext(c, s, Change(id, data, false));
    ReachesNext(c, s, Change(id, data, true));
  }

  lemma ReachesFlag(c: Cache, s: Store)
    ensures Reaches(c, s, c.Changed(0, SetSync(c.At(0))), s)
  {
    ReachesNext(c, s, Flag);
  }

  lemma ReachesOpened(c: Cache, s: Store)
    requires Clean(c) && HasSync(c.At(0))
    ensures Reaches(c, s, Opened(c.disk, c.size), s)
  {
    ReachesNext(c, s, Reopen);
  }

  /** Over any run the invariants hold and the blocks in use hold what a plain store would. */
  lemma {:induction false} RunRefines(c: Cache, version: (Word, Word), s: Store, run: seq<Step>)
    requires c.Ok(version, s) && CanRun(c, s, run)
    ensures var (d, t) := After(c, s, run); d.Ok(version, t) && Held(d, t) == HeldAfter(Held(c, s), s, run)
    decreases |run|
  {
    if run != [] {
      StepRefines(c, version, s, run[0]);
      RunRefines(Next(c, s, run[0]), version, NextStore(s, run[0]), run[1..]);
    }
  }
}
