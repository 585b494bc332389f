/** What a reader sees through the block cache: the cached data of a block if it is cached, else
    the file.  A `Cache` is the picture of a block file that the operations on it are specified by. */
module BlockView {
  import opened Basics
  import opened SeqFacts
  import opened BlockStore

  // words of the root block
  const FLAGS: nat := 2
  const SIZE: nat := 3
  const FREE: nat := 4
  const LAST: nat := 5

  /** Bytes past the end of the file read as zeros. */
  function ReadAt(disk: map<nat, Content>, id: nat): Content {
    if id in disk then disk[id] else Zeros()
  }

  /** CAMEL_BLOCK_FILE_SYNC is bit 0 of the flags. */
  predicate HasSync(root: Content) {
    root[FLAGS] % 2 == 1
  }

  function SetSync(root: Content): Content {
    if HasSync(root) then root else Put(root, FLAGS, root[FLAGS] + 1)
  }

  function ClearSync(root: Content): Content {
    if HasSync(root) then Put(root, FLAGS, root[FLAGS] - 1) else root
  }

  /** block_file_validate_root */
  predicate ValidRoot(root: Content, version: (Word, Word), size: nat) {
    && root[LAST] != 0 && (root[0], root[1]) == version && root[SIZE] == BLOCK_SIZE
    && root[FREE] % BLOCK_SIZE == 0 && root[LAST] % BLOCK_SIZE == 0
    && size == root[LAST] && root[FREE] <= size && HasSync(root)
  }

  /** block_file_init_root */
  function InitRoot(version: (Word, Word)): Content {
    Put(Put(Put(Put(Put(Zeros(), 0, version.0), 1, version.1), LAST, BLOCK_SIZE), FLAGS, 1), SIZE, BLOCK_SIZE)
  }

  /** The root block describes the store, apart from the SYNC flag. */
  ghost predicate Describes(root: Content, version: (Word, Word), s: Store) {
    && (root[0], root[1]) == version && root[SIZE] == BLOCK_SIZE
    && root[LAST] == s.last && root[FREE] == if s.free == [] then 0 else s.free[0]
  }

  function Max(a: nat, b: nat): nat {
    if a < b then b else a
  }

  datatype Cell = Cell(data: Content, dirty: bool)

  /** The root block under id 0, the cached blocks under their ids, and the file. */
  datatype Cache = Cache(cells: map<nat, Cell>, disk: map<nat, Content>, size: nat) {
    ghost function At(id: nat): Content {
      if id in cells then cells[id].data else ReadAt(disk, id)
    }

    ghost function View(): imap<nat, Content> {
      imap id: nat | true :: At(id)
    }

    /** Every block not marked dirty is as on disk, except those a client is about to mark. */
    ghost predicate InSync(touched: set<nat>) {
      forall id | id in cells && !cells[id].dirty && id !in touched :: cells[id].data == ReadAt(disk, id)
    }

    ghost predicate Dirty(id: nat) {
      id in cells && cells[id].dirty
    }

    /** The place of `id` is within the file, or will be once the block has been written. */
    ghost predicate Backed(id: nat) {
      id + BLOCK_SIZE <= size || Dirty(id)
    }

    /** Writing all dirty blocks makes a file that ends exactly at `last`. */
    ghost predicate Layout(last: nat) {
      && BLOCK_SIZE <= last && size <= last && Backed(0)
      && (forall id: nat | Dirty(id) :: id + BLOCK_SIZE <= last)
      && forall id | IsBlock(id, last) :: Backed(id)
    }

    /** The root block and the chain through the free blocks describe the store. */
    ghost predicate Allocates(version: (Word, Word), s: Store) {
      s.Ok() && s.last < WORD_LIMIT && Describes(At(0), version, s) && Chained(View(), At(0)[FREE], s.free)
    }

    ghost predicate Ok(version: (Word, Word), s: Store) {
      0 in cells && InSync({}) && Layout(s.last) && Allocates(version, s)
    }

    /** Block `id` has been written and is clean. */
    ghost function Written(id: nat): Cache
      requires id in cells
    {
      Cache(cells[id := cells[id].(dirty := false)], disk[id := cells[id].data], Max(size, id + BLOCK_SIZE))
    }

    /** Writing block `id` has failed: `junk` is there now. */
    ghost function Spoilt(id: nat, junk: Content, size': nat): Cache {
      Cache(cells, disk[id := junk], size')
    }

    /** What writing back block `id` can come to. */
    ghost predicate WrittenBack(id: nat, c: Cache)
      requires id in cells
    {
      if !cells[id].dirty then c == this
      else c == Written(id) || c == this
           || (c == Spoilt(id, ReadAt(c.disk, id), c.size) && size <= c.size <= Max(size, id + BLOCK_SIZE))
    }

    ghost function Loaded(id: nat): Cache {
      Cache(cells[id := Cell(ReadAt(disk, id), false)], disk, size)
    }

    ghost function Dropped(id: nat): Cache {
      Cache(cells - {id}, disk, size)
    }

    /** A client has changed block `id` and marked it. */
    ghost function Changed(id: nat, data: Content): Cache {
      Cache(cells[id := Cell(data, true)], disk, size)
    }
  }

  /** Same view, and the invariants as before. */
  ghost predicate Transparent(c: Cache, d: Cache) {
    && d.View() == c.View() && (c.InSync({}) ==> d.InSync({}))
    && forall last | c.Layout(last) :: d.Layout(last)
  }

  lemma TransparentTrans(c: Cache, d: Cache, e: Cache)
    requires Transparent(c, d) && Transparent(d, e)
    ensures Transparent(c, e)
  {
  }

  lemma TransparentRefl(c: Cache)
    ensures Transparent(c, c)
  {
  }

  lemma KeepsSync(c: Cache, d: Cache)
    requires Transparent(c, d) && c.InSync({})
    ensures d.InSync({})
  {
  }

  lemma SameView(c: Cache, d: Cache)
    requires forall id: nat :: d.At(id) == c.At(id)
    ensures d.View() == c.View()
  {
  }

  lemma LayoutStill(c: Cache, d: Cache, last: nat)
    requires c.Layout(last) && d.size <= last
    requires forall k: nat | d.Dirty(k) :: c.Dirty(k) || k + BLOCK_SIZE <= last
    requires forall k: nat | c.Backed(k) :: d.Backed(k)
    ensures d.Layout(last)
  {
    assert d.Backed(0);
    forall k | IsBlock(k, last) ensures d.Backed(k) { assert c.Backed(k); }
  }

  /** Writing back changes nothing a reader sees, whether it succeeds or fails. */
  lemma WriteBackOk(c: Cache, id: nat, d: Cache)
    requires id in c.cells && c.WrittenBack(id, d) && c.InSync({})
    ensures Transparent(c, d)
    ensures !d.Dirty(id) ==> d.At(id) == ReadAt(d.disk, id)
  {
    SameView(c, d);
    forall last | c.Layout(last) ensures d.Layout(last) {
      assert d.size <= last by { if d != c { assert c.Dirty(id); } }
      LayoutStill(c, d, last);
    }
  }

  lemma LoadOk(c: Cache, id: nat)
    requires id !in c.cells
    ensures Transparent(c, c.Loaded(id)) && c.Loaded(id).At(id) == c.At(id)
  {
    var d := c.Loaded(id);
    SameView(c, d);
    forall last | c.Layout(last) ensures d.Layout(last) { LayoutStill(c, d, last); }
  }

  lemma DropOk(c: Cache, id: nat)
    requires c.InSync({}) && !c.Dirty(id)
    ensures Transparent(c, c.Dropped(id))
  {
    var d := c.Dropped(id);
    SameView(c, d);
    forall last | c.Layout(last) ensures d.Layout(last) { LayoutStill(c, d, last); }
  }

  /** Changing one block shows there and nowhere else. */
  lemma ChangeOk(c: Cache, id: nat, data: Content, last: nat)
    requires c.InSync({id}) && c.Layout(last) && id + BLOCK_SIZE <= last
    ensures var d := c.Changed(id, data);
      d.InSync({}) && d.Layout(last) && d.View() == c.View()[id := data]
  {
    var d := c.Changed(id, data);
    forall k: nat ensures d.At(k) == if k == id then data else c.At(k) {}
    forall k: nat | d.Dirty(k) ensures k + BLOCK_SIZE <= last { assert k == id || c.Dirty(k); }
    LayoutStill(c, d, last);
  }

  lemma TransparentAllocates(c: Cache, d: Cache, version: (Word, Word), s: Store)
    requires Transparent(c, d) && c.Allocates(version, s)
    ensures d.Allocates(version, s)
  {
    assert d.View()[0] == c.View()[0];
  }

  lemma TransparentOk(c: Cache, d: Cache, version: (Word, Word), s: Store)
    requires Transparent(c, d) && c.Ok(version, s) && 0 in d.cells
    ensures d.Ok(version, s)
  {
    TransparentAllocates(c, d, version, s);
  }

  // ---------------------------------------------------------------- the allocator

  lemma HeadIsNext(v: imap<nat, Content>, s: Store, head: nat)
    requires s.Ok() && Chained(v, head, s.free)
    ensures head == 0 <==> s.free == []
    ensures head == 0 || (IsBlock(head, s.last) && head == s.free[0])
  {
    if s.free != [] { assert s.free[0] in s.free; }
  }

  /** What new_block makes of the root block when it hands out block `id` with `data` in it. */
  function NewRoot(root: Content, data: Content): Content {
    if root[FREE] != 0 then Put(root, FREE, data[0])
    else Put(root, LAST, (root[LAST] + BLOCK_SIZE) % WORD_LIMIT)
  }

  /** new_block: the free list loses its head, or the file grows; the block is all zeros. */
  lemma NewBlockOk(c: Cache, version: (Word, Word), s: Store)
    requires c.Ok(version, s) && s.New().last < WORD_LIMIT
    ensures var id, root := s.Next(), NewRoot(c.At(0), c.At(s.Next()));
      var d := c.Changed(0, root).Changed(id, Zeros());
      d.Ok(version, s.New()) && d.View() == c.View()[0 := root][id := Zeros()]
  {
    var id := s.Next();
    var root := NewRoot(c.At(0), c.At(id));
    var d := c.Changed(0, root).Changed(id, Zeros());
    NewOk(s);
    NewRootOk(c, version, s);
    assert 0 != id;
    assert d.InSync({}) by { hide Store.Ok, Chained, NewRoot, Store.New; }
    forall k: nat ensures d.At(k) == if k == id then Zeros() else if k == 0 then root else c.At(k) {
      hide Store.Ok, Chained, NewRoot, Store.New;
    }
    NewLayout(c, d, s, id);
    hide Store.Ok, Chained, NewRoot, Cache.Layout, Cache.InSync;
    if s.free != [] { RestChain(c.View(), d.View(), c.At(0)[FREE], s); }
    NoChain(d.View());
  }

  lemma NoChain(v: imap<nat, Content>)
    ensures Chained(v, 0, [])
  {
  }

  lemma NewRootOk(c: Cache, version: (Word, Word), s: Store)
    requires c.Allocates(version, s) && s.New().last < WORD_LIMIT
    ensures Describes(NewRoot(c.At(0), c.At(s.Next())), version, s.New())
    ensures NewRoot(c.At(0), c.At(s.Next()))[FREE] == if s.free == [] then 0 else c.At(s.Next())[0]
  {
    HeadIsNext(c.View(), s, c.At(0)[FREE]);
    if s.free != [] {
      ChainHead(c.View(), c.View()[s.free[0]][0], s.free[1..]);
    }
  }

  lemma RestChain(v: imap<nat, Content>, w: imap<nat, Content>, head: nat, s: Store)
    requires Whole(v) && s.Ok() && Chained(v, head, s.free) && s.free != []
    requires Whole(w) && forall k: nat | k != 0 && k != s.free[0] :: w[k] == v[k]
    ensures Chained(w, v[s.free[0]][0], s.free[1..])
  {
    var rest := s.free[1..];
    assert s.free == [s.free[0]] + rest && s.free[0] !in rest;
    forall k | k in rest ensures w[k] == v[k] { assert k in s.free; }
    ChainFrame(v, w, v[s.free[0]][0], rest);
  }

  lemma ChainHead(v: imap<nat, Content>, head: nat, free: seq<nat>)
    requires Chained(v, head, free)
    ensures head == if free == [] then 0 else free[0]
  {
  }

  lemma NewLayout(c: Cache, d: Cache, s: Store, id: nat)
    requires c.Layout(s.last) && s.Ok() && id == s.Next() && d.size == c.size && d.Dirty(0) && d.Dirty(id)
    requires forall k: nat | k != 0 && k != id :: d.Dirty(k) <==> c.Dirty(k)
    ensures d.Layout(s.New().last)
  {
    var last := s.New().last;
    NewOk(s);
    forall k | IsBlock(k, last) ensures d.Backed(k) {
      if k != id { assert IsBlock(k, s.last) && c.Backed(k); }
    }
    forall k: nat | d.Dirty(k) ensures k + BLOCK_SIZE <= last {
      if k != id && k != 0 { assert c.Dirty(k); }
    }
  }

  /** free_block: the block heads the free list, its first word leading to the old head. */
  lemma FreeBlockOk(c: Cache, version: (Word, Word), s: Store, id: Word)
    requires c.Ok(version, s) && id in s.used
    ensures var data, root := Put(c.At(id), 0, c.At(0)[FREE]), Put(c.At(0), FREE, id);
      var d := c.Changed(id, data).Changed(0, root);
      d.Ok(version, s.Free(id)) && d.View() == c.View()[id := data][0 := root]
  {
    var data, root := Put(c.At(id), 0, c.At(0)[FREE]), Put(c.At(0), FREE, id);
    var d := c.Changed(id, data).Changed(0, root);
    FreeOk(s, id);
    assert IsBlock(id, s.last) && 0 !in s.free && id !in s.free;
    FreeChain(c.View(), c.At(0)[FREE], s.free, id, root);
    hide Store.Ok, Chained;
    ChangeOk(c, id, data, s.last);
    ChangeOk(c.Changed(id, data), 0, root, s.last);
    assert d.View()[0] == root;
  }

  /** Whatever block is freed, the free chain ends afterwards exactly if it was not free already. */
  lemma FreeChainEnds(c: Cache, version: (Word, Word), s: Store, id: Word)
    requires c.Ok(version, s) && id > 0
    ensures var data, root := Put(c.At(id), 0, c.At(0)[FREE]), Put(c.At(0), FREE, id);
      var d := c.Changed(id, data).Changed(0, root);
      && d.View() == c.View()[id := data][0 := root]
      && ((exists f :: 0 !in f && Chained(d.View(), id, f)) <==> id !in s.free)
  {
    var data, root := Put(c.At(id), 0, c.At(0)[FREE]), Put(c.At(0), FREE, id);
    var d := c.Changed(id, data).Changed(0, root);
    TwoChanged(c, id, data, root);
    FreeListOk(c, version, s);
    hide Cache.Ok, Chained;
    FreeEndsWithRoot(c.View(), id, c.At(0)[FREE], s.free, root);
  }

  lemma TwoChanged(c: Cache, id: nat, data: Content, root: Content)
    requires id > 0
    ensures c.Changed(id, data).Changed(0, root).View() == c.View()[id := data][0 := root]
  {
    var d := c.Changed(id, data).Changed(0, root);
    forall k: nat ensures d.At(k) == if k == 0 then root else if k == id then data else c.At(k) {}
  }

  lemma FreeListOk(c: Cache, version: (Word, Word), s: Store)
    requires c.Ok(version, s)
    ensures Whole(c.View()) && 0 !in s.free && Chained(c.View(), c.At(0)[FREE], s.free)
  {
  }

  lemma FreeChain(v: imap<nat, Content>, head: Word, free: seq<nat>, id: nat, root: Content)
    requires Whole(v) && Chained(v, head, free) && 0 !in free && id !in free && id != 0
    ensures Chained(v[id := Put(v[id], 0, head)][0 := root], id, [id] + free)
  {
    var w := v[id := Put(v[id], 0, head)][0 := root];
    ChainFrame(v, w, head, free);
    assert ([id] + free)[1..] == free;
  }

  /** A client has changed a block in use and marked it; the root block may have lost its SYNC flag. */
  lemma ClientWriteOk(c: Cache, version: (Word, Word), s: Store, id: nat, data: Content, root: Content)
    requires c.Ok(version, s) && id in s.used && (root == c.At(0) || root == ClearSync(c.At(0)))
    ensures var d := c.Changed(id, data).Changed(0, root); d.Ok(version, s) && d.View() == c.View()[id := data][0 := root]
    ensures root == c.At(0) ==> c.Changed(id, data).Ok(version, s) && c.Changed(id, data).View() == c.View()[id := data]
  {
    assert IsBlock(id, s.last);
    ChangeOk(c, id, data, s.last);
    var b := c.Changed(id, data);
    ChangeOk(b, 0, root, s.last);
    var d := b.Changed(0, root);
    assert d.View()[0] == root && b.View()[0] == c.View()[0];
    ChainFrame(c.View(), b.View(), c.At(0)[FREE], s.free);
    ChainFrame(c.View(), d.View(), c.At(0)[FREE], s.free);
  }

  /** Setting the SYNC flag keeps everything else. */
  lemma RootFlagOk(c: Cache, version: (Word, Word), s: Store)
    requires c.Ok(version, s)
    ensures c.Changed(0, SetSync(c.At(0))).Ok(version, s)
  {
    ChangeOk(c, 0, SetSync(c.At(0)), s.last);
    var d := c.Changed(0, SetSync(c.At(0)));
    assert d.View()[0] == SetSync(c.At(0));
    ChainFrame(c.View(), d.View(), c.At(0)[FREE], s.free);
  }

  // ---------------------------------------------------------------- sync and open

  /** The picture of a block file that has just been opened. */
  ghost function Opened(disk: map<nat, Content>, size: nat): Cache {
    Cache(map[0 := Cell(ReadAt(disk, 0), false)], disk, size)
  }

  /** Nothing is left to write. */
  ghost predicate Clean(c: Cache) {
    forall id: nat :: !c.Dirty(id)
  }

  lemma CleanIsDisk(c: Cache)
    requires c.InSync({}) && Clean(c)
    ensures forall id: nat :: ReadAt(c.disk, id) == c.At(id)
  {
    forall id: nat ensures ReadAt(c.disk, id) == c.At(id) { assert !c.Dirty(id); }
  }

  /** After a sync the file ends where the root block says, its root block is valid, and opening it
      again gives the same blocks, the same free list and the same end. */
  lemma SyncThenOpen(c: Cache, version: (Word, Word), s: Store)
    requires c.Ok(version, s) && Clean(c) && HasSync(c.At(0))
    ensures c.size == s.last && ValidRoot(ReadAt(c.disk, 0), version, c.size)
    ensures Opened(c.disk, c.size).Ok(version, s) && Opened(c.disk, c.size).View() == c.View()
  {
    var d := Opened(c.disk, c.size);
    CleanIsDisk(c);
    SameView(c, d);
    assert d.View()[0] == c.View()[0];
    assert c.size >= s.last by {
      var end := s.last - BLOCK_SIZE;
      assert end == 0 || IsBlock(end, s.last);
      assert c.Backed(end) && !c.Dirty(end);
    }
    assert d.Layout(s.last) by {
      forall k: nat | d.Dirty(k) ensures false {}
      forall k | IsBlock(k, s.last) ensures d.Backed(k) {}
    }
    HeadIsNext(c.View(), s, c.At(0)[FREE]);
  }

  /** A new or invalid file gets an empty store. */
  lemma InitOk(version: (Word, Word), disk: map<nat, Content>)
    requires ReadAt(disk, 0) == InitRoot(version)
    ensures Opened(disk, BLOCK_SIZE).Ok(version, Store([], {}, BLOCK_SIZE))
    ensures ValidRoot(InitRoot(version), version, BLOCK_SIZE)
  {
    var d := Opened(disk, BLOCK_SIZE);
    assert forall id: nat :: !IsBlock(id, BLOCK_SIZE);
    assert d.At(0) == InitRoot(version) && Zeros()[FREE] == 0;
  }
}
