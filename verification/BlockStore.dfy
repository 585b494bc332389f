/** What the blocks of a block file stand for: which ids are allocated, which are free and in what
    order they come back, and the chain of free blocks in the data of the blocks themselves. */
module BlockStore {
  import opened Basics
  import opened SeqFacts

  const BLOCK_SIZE: nat := 1024
  const WORDS: nat := 256

  /** The data of a block, as words. */
  type Content = c: seq<Word> | |c| == 256 witness seq(256, i => 0)

  function Zeros(): Content {
    seq(256, i => 0)
  }

  function Put(c: Content, i: nat, w: Word): Content
    requires i < WORDS
  {
    c[i := w]
  }

  /** A place for a block behind the root block and before the end `last`. */
  predicate IsBlock(id: nat, last: nat) {
    id % BLOCK_SIZE == 0 && 0 < id < last
  }

  datatype Store = Store(free: seq<nat>, used: set<nat>, last: nat) {
    /** Every place is either free, once, or in use. */
    ghost predicate Ok() {
      && last > 0 && last % BLOCK_SIZE == 0 && NoDup(free)
      && (forall id | id in free :: id !in used)
      && forall id :: IsBlock(id, last) <==> id in free || id in used
    }

    /** The id that the next new block gets. */
    ghost function Next(): nat {
      if free == [] then last else free[0]
    }

    ghost function New(): Store {
      if free == [] then Store([], used + {last}, last + BLOCK_SIZE)
      else Store(free[1..], used + {free[0]}, last)
    }

    ghost function Free(id: nat): Store {
      Store([id] + free, used - {id}, last)
    }
  }

  lemma NewOk(s: Store)
    requires s.Ok()
    ensures s.New().Ok() && s.Next() !in s.used && IsBlock(s.Next(), s.New().last)
  {
    if s.free == [] {
      assert !IsBlock(s.last, s.last);
      forall id ensures IsBlock(id, s.New().last) <==> id in s.New().used {
        assert IsBlock(id, s.last) <==> id in s.free || id in s.used;
      }
    } else {
      assert s.free == [s.free[0]] + s.free[1..];
      assert s.free[0] in s.free;
    }
  }

  lemma FreeOk(s: Store, id: nat)
    requires s.Ok() && id in s.used
    ensures s.Free(id).Ok()
  {
  }

  /** Freeing keeps the store in order exactly for a block in use: not for one that is free already,
      and not for a place at the end or behind it. */
  lemma FreeOkIff(s: Store, id: nat)
    requires s.Ok()
    ensures s.Free(id).Ok() <==> id in s.used
  {
    var t := s.Free(id);
    assert t.free[0] == id && forall i | 0 <= i < |s.free| :: t.free[i + 1] == s.free[i];
    assert IsBlock(id, s.last) <==> id in s.free || id in s.used;
    if t.Ok() {
      assert id in t.free && IsBlock(id, t.last);
      assert id !in s.free by { assert NoDup(t.free); }
    }
  }

  // ---------------------------------------------------------------- runs

  datatype Op = NewOp | FreeOp(id: nat)

  ghost function Apply(s: Store, op: Op): Store {
    match op
    case NewOp => s.New()
    case FreeOp(id) => s.Free(id)
  }

  ghost function Run(s: Store, ops: seq<Op>): Store
    decreases |ops|
  {
    if ops == [] then s else Run(Apply(s, ops[0]), ops[1..])
  }

  /** Only ids in use are freed. */
  ghost predicate Legal(s: Store, ops: seq<Op>)
    decreases |ops|
  {
    ops != [] ==> (ops[0].FreeOp? ==> ops[0].id in s.used) && Legal(Apply(s, ops[0]), ops[1..])
  }

  /** Over any legal run free and used ids share out the file, and blocks are neither lost nor
      gained except at its end. */
  lemma {:induction false} RunOk(s: Store, ops: seq<Op>)
    requires s.Ok() && Legal(s, ops)
    ensures var t := Run(s, ops);
      && t.Ok() && s.last <= t.last
      && |t.free| + |t.used| - t.last / BLOCK_SIZE == |s.free| + |s.used| - s.last / BLOCK_SIZE
    decreases |ops|
  {
    if ops != [] {
      if ops[0].NewOp? { NewOk(s); } else { FreeOk(s, ops[0].id); }
      var t := Apply(s, ops[0]);
      assert |t.free| + |t.used| - t.last / BLOCK_SIZE == |s.free| + |s.used| - s.last / BLOCK_SIZE by {
        assert s.free != [] ==> s.free[0] in s.free;
        assert s.last !in s.used by { assert !IsBlock(s.last, s.last); }
      }
      RunOk(t, ops[1..]);
    }
  }

  ghost function Frees(ids: seq<nat>): seq<Op> {
    if ids == [] then [] else [FreeOp(ids[0])] + Frees(ids[1..])
  }

  ghost function News(n: nat): seq<Op> {
    if n == 0 then [] else [NewOp] + News(n - 1)
  }

  /** The free list is a stack: ids freed one after the other head it, the last one first. */
  lemma {:induction false} FreesAreStacked(s: Store, ids: seq<nat>)
    requires NoDup(ids) && forall id | id in ids :: id in s.used
    ensures Legal(s, Frees(ids)) && Run(s, Frees(ids)).free == Reverse(ids) + s.free
    ensures Run(s, Frees(ids)).used == s.used - (set id | id in ids) && Run(s, Frees(ids)).last == s.last
    decreases |ids|
  {
    if ids != [] {
      var rest := ids[1..];
      forall id | id in rest ensures id in s.Free(ids[0]).used { }
      FreesAreStacked(s.Free(ids[0]), rest);
      assert Frees(ids)[1..] == Frees(rest);
      assert ids == [ids[0]] + rest;
    }
  }

  /** New blocks take ids off the free list from its head. */
  lemma {:induction false} NewsUnstack(s: Store, ids: seq<nat>, rest: seq<nat>)
    requires s.free == ids + rest
    ensures Run(s, News(|ids|)) == Store(rest, s.used + (set id | id in ids), s.last)
    decreases |ids|
  {
    if ids != [] {
      assert News(|ids|)[1..] == News(|ids| - 1);
      assert s.free[1..] == ids[1..] + rest;
      assert ids == [ids[0]] + ids[1..];
      NewsUnstack(s.New(), ids[1..], rest);
    } else {
      assert s.free == rest;
    }
  }

  /** Freeing any blocks and taking as many new ones gives back the same store. */
  lemma FreesThenNews(s: Store, ids: seq<nat>)
    requires NoDup(ids) && forall id | id in ids :: id in s.used
    ensures Run(Run(s, Frees(ids)), News(|ids|)) == s
  {
    hide Run, Frees, News, Reverse;
    FreesAreStacked(s, ids);
    NewsUnstack(Run(s, Frees(ids)), Reverse(ids), s.free);
    ReverseMembers(ids);
    assert (set id | id in Reverse(ids)) == set id | id in ids;
    assert s.used - (set id | id in ids) + (set id | id in ids) == s.used;
  }

  lemma ReverseMembers(ids: seq<nat>)
    ensures forall id :: id in Reverse(ids) <==> id in ids
  {
    forall id | id in ids ensures id in Reverse(ids) {
      assert Reverse(ids)[|ids| - 1 - IndexOf(ids, id)] == id;
    }
  }

  // ---------------------------------------------------------------- the chain in the blocks

  /** The content of every block id. */
  ghost predicate Whole(v: imap<nat, Content>) {
    forall id: nat :: id in v
  }

  /** The first word of each free block is the id of the next, 0 at the end. */
  ghost predicate Chained(v: imap<nat, Content>, head: nat, free: seq<nat>)
    decreases |free|
  {
    if free == [] then head == 0
    else head == free[0] && head in v && Chained(v, v[head][0], free[1..])
  }

  lemma {:induction false} ChainFrame(v: imap<nat, Content>, w: imap<nat, Content>, head: nat, free: seq<nat>)
    requires Chained(v, head, free)
    requires forall id | id in free :: id in v && id in w && w[id] == v[id]
    ensures Chained(w, head, free)
    decreases |free|
  {
    if free != [] {
      ChainFrame(v, w, v[head][0], free[1..]);
    }
  }

  /** The data of the blocks determine the free list. */
  lemma {:induction false} ChainUnique(v: imap<nat, Content>, head: nat, a: seq<nat>, b: seq<nat>)
    requires Chained(v, head, a) && Chained(v, head, b) && 0 !in a && 0 !in b
    ensures a == b
    decreases |a|
  {
    if a != [] && b != [] {
      ChainUnique(v, v[head][0], a[1..], b[1..]);
      assert a == [a[0]] + a[1..] && b == [b[0]] + b[1..];
    }
  }

  /** What free_block writes: the old head goes into the first word of the freed block. */
  ghost function Linked(v: imap<nat, Content>, id: nat, head: Word): imap<nat, Content>
    requires id in v
  {
    v[id := Put(v[id], 0, head)]
  }

  /** From the freed block one gets back to the freed block if it was free already. */
  lemma {:induction false} RoundAgain(v: imap<nat, Content>, start: Word, id: nat, head: Word, free: seq<nat>, f: seq<nat>)
    requires Whole(v) && Chained(v, head, free) && id in free && 0 !in free && 0 !in f
    requires Chained(Linked(v, id, start), head, f)
    ensures exists g :: |g| <= |f| && 0 !in g && Chained(Linked(v, id, start), id, g)
    decreases |free|
  {
    if head == id {
      assert Chained(Linked(v, id, start), id, f);
    } else {
      assert f != [] by { assert free[0] in free; }
      RoundAgain(v, start, id, v[head][0], free[1..], f[1..]);
      var g :| |g| <= |f[1..]| && 0 !in g && Chained(Linked(v, id, start), id, g);
    }
  }

  lemma {:induction false} NoChainOf(v: imap<nat, Content>, id: nat, head: Word, free: seq<nat>, f: seq<nat>)
    requires Whole(v) && Chained(v, head, free) && id in free && 0 !in free && 0 !in f && id > 0
    ensures !Chained(Linked(v, id, head), id, f)
    decreases |f|
  {
    if Chained(Linked(v, id, head), id, f) {
      assert f != [];
      assert Chained(Linked(v, id, head), head, f[1..]);
      RoundAgain(v, head, id, head, free, f[1..]);
      var g :| |g| <= |f[1..]| && 0 !in g && Chained(Linked(v, id, head), id, g);
      NoChainOf(v, id, head, free, g);
    }
  }

  /** Freeing a block leaves a free list that ends exactly when the block was not free already. */
  lemma FreeEndsIff(v: imap<nat, Content>, id: nat, head: Word, free: seq<nat>)
    requires Whole(v) && Chained(v, head, free) && 0 !in free && id > 0
    ensures (exists f :: 0 !in f && Chained(Linked(v, id, head), id, f)) <==> id !in free
  {
    var w := Linked(v, id, head);
    if id in free {
      forall f | 0 !in f ensures !Chained(w, id, f) { NoChainOf(v, id, head, free, f); }
    } else {
      ChainFrame(v, w, head, free);
      assert ([id] + free)[1..] == free && w[id][0] == head;
      assert 0 !in [id] + free && Chained(w, id, [id] + free);
    }
  }

  /** The content of block 0 does not matter, as no chain goes through it. */
  lemma FreeEndsWithRoot(v: imap<nat, Content>, id: nat, head: Word, free: seq<nat>, root: Content)
    requires Whole(v) && Chained(v, head, free) && 0 !in free && id > 0
    ensures (exists f :: 0 !in f && Chained(Linked(v, id, head)[0 := root], id, f)) <==> id !in free
  {
    var w := Linked(v, id, head);
    FreeEndsIff(v, id, head, free);
    forall f | 0 !in f && Chained(w, id, f) ensures Chained(w[0 := root], id, f) { ChainFrame(w, w[0 := root], id, f); }
    forall f | 0 !in f && Chained(w[0 := root], id, f) ensures Chained(w, id, f) { ChainFrame(w[0 := root], w, id, f); }
  }

  // ---------------------------------------------------------------- keeping the cache small

  /** What is left of the cached blocks `s`, most recently used first, when up to `excess` of them
      go, from the tail on, except those in `keep`. */
  ghost function Trim<T>(s: seq<T>, excess: nat, keep: set<T>): seq<T> {
    if s == [] || excess == 0 then s
    else
      var i := |s| - 1;
      if s[i] in keep then Trim(s[..i], excess, keep) + [s[i]] else Trim(s[..i], excess - 1, keep)
  }

  /** Blocks in `keep` stay, in order, and either enough blocks went or only such blocks are left. */
  lemma {:induction false} TrimFacts<T>(s: seq<T>, excess: nat, keep: set<T>)
    requires NoDup(s)
    ensures var t := Trim(s, excess, keep);
      && NoDup(t) && (forall x | x in t :: x in s) && (forall x | x in s && x in keep :: x in t)
      && |s| - excess <= |t| <= |s|
      && (|t| == |s| - excess || forall x | x in t :: x in keep)
  {
    if s != [] && excess > 0 {
      var i := |s| - 1;
      assert NoDup(s[..i]) && s == s[..i] + [s[i]] && s[i] !in s[..i];
      TrimFacts(s[..i], if s[i] in keep then excess else excess - 1, keep);
    }
  }

  /** A block that goes is less recently used than every block that could have gone and stays. */
  lemma {:induction false} TrimIsLru<T>(s: seq<T>, excess: nat, keep: set<T>, a: nat, b: nat)
    requires NoDup(s) && a < |s| && b < |s| && s[a] !in Trim(s, excess, keep)
    requires s[b] in Trim(s, excess, keep) && s[b] !in keep
    ensures b < a
  {
    if s != [] && excess > 0 {
      var i := |s| - 1;
      var e := if s[i] in keep then excess else excess - 1;
      assert NoDup(s[..i]) && s == s[..i] + [s[i]] && s[i] !in s[..i];
      TrimFacts(s[..i], e, keep);
      if a < i && b < i {
        assert s[..i][a] == s[a] && s[..i][b] == s[b];
        TrimIsLru(s[..i], e, keep, a, b);
      }
    }
  }

  /** Only the members of `s` that are in `keep` matter. */
  lemma {:induction false} TrimKeeps<T>(s: seq<T>, excess: nat, keep: set<T>, more: set<T>)
    requires forall x | x in s :: x !in more
    ensures Trim(s, excess, keep + more) == Trim(s, excess, keep)
  {
    if s != [] && excess > 0 {
      var i := |s| - 1;
      TrimKeeps(s[..i], if s[i] in keep then excess else excess - 1, keep, more);
    }
  }

  lemma {:induction false} TrimLength<T>(s: seq<T>, excess: nat, keep: set<T>)
    ensures |s| - excess <= |Trim(s, excess, keep)| <= |s|
  {
    if s != [] && excess > 0 {
      var i := |s| - 1;
      TrimLength(s[..i], if s[i] in keep then excess else excess - 1, keep);
    }
  }

  /** The tail of the list is trimmed first, then the rest by what is left to do. */
  lemma {:induction false} TrimSplit<T>(a: seq<T>, r: seq<T>, excess: nat, keep: set<T>)
    ensures var t := Trim(r, excess, keep);
      && 0 <= |r| - |t| <= excess
      && Trim(a + r, excess, keep) == Trim(a, excess - (|r| - |t|), keep) + t
    decreases |r|
  {
    TrimLength(r, excess, keep);
    if r == [] {
      assert a + r == a;
    } else if excess > 0 {
      var i := |r| - 1;
      assert (a + r)[..|a| + i] == a + r[..i] && (a + r)[|a| + i] == r[i];
      TrimSplit(a, r[..i], if r[i] in keep then excess else excess - 1, keep);
    }
  }
}
