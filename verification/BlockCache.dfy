/** The block file: a cache of blocks over a file, written back when blocks leave the cache or on
    sync, and the allocator whose free list runs through the blocks. */
module BlockCache {
  import opened Basics
  import opened SeqFacts
  import opened BlockStore
  import opened BlockView
  import opened BlockRun

  const CACHE_LIMIT: nat := 256

  class Block {
    const id: nat
    var data: Content
    var dirty: bool
    var refcount: nat

    constructor (id: nat, data: Content)
      ensures this.id == id && this.data == data && !dirty && refcount == 0
    {
      this.id, this.data, dirty, refcount := id, data, false, 0;
    }
  }

  class BlockFile {
    const version: (Word, Word)
    const root: Block            // detached from the cache
    var lru: seq<Block>          // most recently used first
    var blocks: map<nat, Block>
    var count: nat
    var disk: map<nat, Content>
    var size: nat
    ghost var store: Store
    ghost var unread: nat        // calls to open or read the file that have failed
    ghost var unwritten: nat     // calls to write or truncate it that have failed

    /** The block file around its root block, which has been read and detached. */
    constructor (version: (Word, Word), root: Block, disk: map<nat, Content>, size: nat, ghost store: Store)
      ensures this.version == version && this.root == root && this.disk == disk && this.size == size && this.store == store
      ensures lru == [] && blocks == map[] && count == 1 && unread == 0 && unwritten == 0
    {
      this.version, this.root, this.disk, this.size, this.store := version, root, disk, size, store;
      lru, blocks, count, unread, unwritten := [], map[], 1, 0, 0;
    }

    ghost predicate Hashed(b: Block)
      reads this`blocks
    {
      b.id in blocks && blocks[b.id] == b
    }

    ghost predicate Keyed()
      reads this`blocks
    {
      root.id == 0 && forall k | k in blocks :: blocks[k].id == k && k > 0
    }

    /** The hash and the list hold the same blocks, except that the blocks of `pending` are not in
        the list yet; the count includes the detached root block. */
    ghost predicate Agrees(pending: set<Block>)
      reads this`blocks, this`lru, this`count
    {
      && Keyed() && NoDup(lru) && count == |lru| + |pending| + 1
      && (forall b | b in lru :: b !in pending && Hashed(b))
      && (forall b | b in pending :: Hashed(b))
      && forall k | k in blocks :: blocks[k] in lru || blocks[k] in pending
    }

    ghost function CellsOf(m: map<nat, Block>): map<nat, Cell>
      reads root`data, root`dirty, m.Values`data, m.Values`dirty
    {
      (map k | k in m :: Cell(m[k].data, m[k].dirty))[0 := Cell(root.data, root.dirty)]
    }

    ghost function Snap(): Cache
      reads this`blocks, this`disk, this`size, root`data, root`dirty, blocks.Values`data, blocks.Values`dirty
    {
      Cache(CellsOf(blocks), disk, size)
    }

    lemma CellsWith(m: map<nat, Block>, k: nat, b: Block)
      requires k > 0
      ensures CellsOf(m[k := b]) == CellsOf(m)[k := Cell(b.data, b.dirty)]
    {
    }

    lemma CellsWithout(m: map<nat, Block>, k: nat)
      requires k > 0
      ensures CellsOf(m - {k}) == CellsOf(m) - {k}
    {
    }

    ghost predicate Valid()
      reads this`blocks, this`lru, this`count, this`disk, this`size, this`store
      reads root`data, root`dirty, blocks.Values`data, blocks.Values`dirty
    {
      Agrees({}) && Snap().Ok(version, store)
    }

    // -------------------------------------------------------------- the file

    /** block_file_use: the file may have to be opened again, which can fail. */
    method Use() returns (ok: bool)
      modifies this`unread
      ensures unread == old(unread) + if ok then 0 else 1
    {
      ok := *;
      if !ok { unread := unread + 1; }
    }

    /** lseek and read */
    method Read(id: nat) returns (data: Option<Content>)
      modifies this`unread
      ensures data == None || data == Some(ReadAt(disk, id))
      ensures unread == old(unread) + if data == None then 1 else 0
    {
      var ok: bool := *;
      if ok {
        data := Some(ReadAt(disk, id));
      } else {
        data := None;
        unread := unread + 1;
      }
    }

    /** lseek and write.  A write that fails may have written some of the block. */
    method Write(id: nat, data: Content) returns (ok: bool)
      modifies this`disk, this`size, this`unwritten
      ensures unwritten == old(unwritten) + if ok then 0 else 1
      ensures ok ==> disk == old(disk)[id := data] && size == Max(old(size), id + BLOCK_SIZE)
      ensures !ok ==> (disk == old(disk) && size == old(size)) || disk == old(disk)[id := ReadAt(disk, id)]
      ensures old(size) <= size <= Max(old(size), id + BLOCK_SIZE)
    {
      ok := *;
      if ok {
        disk, size := disk[id := data], Max(size, id + BLOCK_SIZE);
      } else {
        unwritten := unwritten + 1;
        var sought: bool := *;
        if sought {
          var some: Content := *;
          var n :| 0 <= n < BLOCK_SIZE;
          disk := disk[id := some];
          size := Max(size, id + n);
        }
      }
    }

    /** The block carries no mark any more. */
    method Unmark(bl: Block)
      requires Keyed() && (bl == root || Hashed(bl))
      modifies bl`dirty
      ensures !bl.dirty && CellsOf(blocks) == old(CellsOf(blocks))[bl.id := Cell(bl.data, false)]
    {
      bl.dirty := false;
    }

    lemma CellAt(bl: Block)
      requires Keyed() && (bl == root || Hashed(bl))
      ensures bl.id in Snap().cells && Snap().cells[bl.id] == Cell(bl.data, bl.dirty)
    {
    }

    /** sync_block_nolock: a dirty block is written and is clean if that succeeds. */
    method SyncBlockNolock(bl: Block) returns (ok: bool)
      requires Keyed() && (bl == root || Hashed(bl))
      modifies this`disk, this`size, this`unwritten, bl`dirty
      ensures unwritten == old(unwritten) + if ok then 0 else 1
      ensures ok == !bl.dirty && (!ok ==> old(bl.dirty))
      ensures ok ==> disk == if old(bl.dirty) then old(disk)[bl.id := bl.data] else old(disk)
      ensures ok ==> Snap() == if old(bl.dirty) then old(Snap()).Written(bl.id) else old(Snap())
      ensures old(Snap()).WrittenBack(bl.id, Snap())
    {
      hide BlockFile.CellsOf;
      CellAt(bl);
      ok := true;
      if bl.dirty {
        ok := Write(bl.id, bl.data);
        if ok { Unmark(bl); }
      }
    }

    // -------------------------------------------------------------- flushing old blocks

    /** The cached block `i` leaves the cache. */
    method Drop(i: nat, ghost pending: set<Block>)
      requires Agrees(pending) && i < |lru|
      modifies this`lru, this`blocks, this`count
      ensures Agrees(pending) && blocks == old(blocks) - {old(lru)[i].id}
      ensures Snap() == old(Snap()).Dropped(old(lru)[i].id)
      ensures lru == DropAt(old(lru), i) && count == old(count) - 1 && blocks.Values <= old(blocks.Values)
    {
      var flush := lru[i];
      hide NoDup, BlockFile.CellsOf;
      assert flush in lru && Hashed(flush);
      CellsWithout(blocks, flush.id);
      NoDupDrop(lru, i);
      blocks := blocks - {flush.id};
      lru := DropAt(lru, i);
      count := count - 1;
    }

    /** Blocks that clients hold. */
    ghost function Pinned(): set<Block>
      reads this`lru, lru`refcount
    {
      set b | b in lru && b.refcount > 0
    }

    /** The cached block `i` goes, unless a client holds it or it cannot be written. */
    method FlushOne(flush: Block, i: nat, ghost pending: set<Block>) returns (gone: bool)
      requires Agrees(pending) && Snap().InSync({}) && i < |lru| && flush == lru[i]
      modifies this`disk, this`size, this`unwritten, this`lru, this`blocks, this`count, flush`dirty
      ensures unwritten == old(unwritten) + if gone || flush.refcount > 0 then 0 else 1
      ensures Agrees(pending) && Transparent(old(Snap()), Snap()) && blocks.Values <= old(blocks.Values)
      ensures Reaches(old(Snap()), store, Snap(), store)
      ensures gone ==> flush.refcount == 0 && lru == DropAt(old(lru), i) && count == old(count) - 1
      ensures !gone ==> lru == old(lru) && count == old(count) && (flush.refcount > 0 || flush.dirty)
    {
      hide *;
      ghost var c := Snap();
      gone := false;
      Reached(c, store);
      Listed(pending, flush);
      if flush.refcount == 0 {
        var ok := SyncBlockNolock(flush);
        ghost var d := Snap();
        WriteBackOk(c, flush.id, d);
        ReachesWriteBack(c, store, flush.id, d);
        if ok {
          Listed(pending, flush);
          KeepsSync(c, d);
          Drop(i, pending);
          DropOk(d, flush.id);
          TransparentTrans(c, d, Snap());
          ReachesDrop(d, store, flush.id);
          ReachesOn(c, store, d, store, Snap(), store);
          gone := true;
        }
      } else {
        TransparentRefl(c);
      }
    }

    lemma ListFacts(pending: set<Block>)
      requires Agrees(pending)
      ensures NoDup(lru)
    {
    }

    /** What is known of a block in the list. */
    lemma Listed(pending: set<Block>, b: Block)
      requires Agrees(pending) && b in lru
      ensures Keyed() && Hashed(b) && b.id > 0 && b.id in Snap().cells && Snap().cells[b.id] == Cell(b.data, b.dirty)
      ensures Snap().Dirty(b.id) <==> b.dirty
    {
      assert Hashed(b);
    }

    /** Flush old blocks, from the tail of the list on. */
    method Flush(ghost pending: set<Block>) returns (ghost failed: set<Block>)
      requires Agrees(pending) && Snap().InSync({})
      modifies this`disk, this`size, this`unwritten, this`lru, this`blocks, this`count, lru`dirty
      ensures Agrees(pending) && Transparent(old(Snap()), Snap()) && blocks.Values <= old(blocks.Values)
      ensures Reaches(old(Snap()), store, Snap(), store)
      ensures lru == Trim(old(lru), Excess(old(count)), old(Pinned()) + failed)
      ensures forall b | b in failed :: b in old(lru) && b.dirty && b.refcount == 0
      ensures unwritten >= old(unwritten) && (failed == {} <==> unwritten == old(unwritten))
    {
      hide Transparent, BlockFile.Agrees, BlockFile.Snap, Cache.InSync, Trim, NoDup, DropAt, Reaches;
      ghost var s, e, keep, tail := lru, Excess(count), Pinned(), [];
      failed := {};
      var i := |lru|;
      ListFacts(pending);
      TransparentRefl(Snap());
      Reached(Snap(), store);
      TrimNone(s, e, keep);
      while count > CACHE_LIMIT && i > 0
        invariant 0 <= i <= |s| && lru == s[..i] + tail
        invariant forall b | b in failed :: b in tail && b in s && b.dirty && b.refcount == 0
        invariant unwritten >= old(unwritten) && (failed == {} <==> unwritten == old(unwritten))
        invariant Agrees(pending) && Transparent(old(Snap()), Snap()) && blocks.Values <= old(blocks.Values)
        invariant Reaches(old(Snap()), store, Snap(), store)
        invariant tail == Trim(s[i..], e, keep + failed) && Excess(count) == e - (|s| - i - |tail|)
      {
        KeepsSync(old(Snap()), Snap());
        ListFacts(pending);
        SplitLast(s, i, tail);
        i := i - 1;
        var flush := lru[i];
        ghost var c, n := Snap(), count;
        var gone := FlushOne(flush, i, pending);
        ghost var more := if gone || flush.refcount > 0 then {} else {flush};
        FlushedOne(s, i, e, keep, failed, flush, more, gone, tail, n, count);
        failed := failed + more;
        tail := if gone then tail else [flush] + tail;
        TransparentTrans(old(Snap()), c, Snap());
        ReachesOn(old(Snap()), store, c, store, Snap(), store);
      }
      TrimRest(s, i, e, keep + failed, count);
    }

    // -------------------------------------------------------------- getting a block

    /** A block that is not cached is read and entered in the hash. */
    method Load(id: nat) returns (bl: Block?)
      requires Agrees({}) && id > 0 && id !in blocks
      modifies this`unread, this`blocks, this`count
      ensures unread == old(unread) + if bl == null then 1 else 0
      ensures bl == null ==> blocks == old(blocks) && count == old(count)
      ensures bl != null ==>
        && fresh(bl) && bl.id == id && bl.refcount == 0 && bl.data == ReadAt(disk, id) && blocks == old(blocks)[id := bl]
        && Agrees({bl}) && Snap() == old(Snap()).Loaded(id) && count == old(count) + 1
    {
      hide *;
      bl := null;
      var ok := Use();
      if ok {
        var data := Read(id);
        if data != None {
          bl := new Block(id, data.value);
          Enter(bl);
        }
      }
    }

    method Enter(bl: Block)
      requires Agrees({}) && bl.id > 0 && bl.id !in blocks && bl.data == ReadAt(disk, bl.id) && !bl.dirty
      modifies this`blocks, this`count
      ensures blocks == old(blocks)[bl.id := bl] && count == old(count) + 1
      ensures Agrees({bl}) && Snap() == old(Snap()).Loaded(bl.id)
    {
      CellsWith(blocks, bl.id, bl);
      hide BlockFile.CellsOf;
      count := count + 1;
      blocks := blocks[bl.id := bl];
    }

    /** The block goes to the head of the list. */
    method AddHead(bl: Block, ghost pending: set<Block>)
      requires Agrees(pending) && pending == {bl}
      modifies this`lru, bl`refcount
      ensures Agrees({}) && Snap() == old(Snap()) && lru == [bl] + old(lru) && bl.refcount == old(bl.refcount) + 1
      ensures Hashed(bl)
    {
      lru := [bl] + lru;
      bl.refcount := bl.refcount + 1;
      assert Hashed(bl);
    }

    /** The block is taken out of the list. */
    method Remove(bl: Block)
      requires Agrees({}) && bl in lru
      modifies this`lru
      ensures Agrees({bl}) && Snap() == old(Snap()) && lru == Without(old(lru), bl)
    {
      ghost var i := IndexOf(lru, bl);
      NoDupDrop(lru, i);
      lru := Without(lru, bl);
      assert Hashed(bl);
    }

    /** Old blocks are flushed after `bl` has been read. */
    method MakeRoom(bl: Block, ghost c: Cache) returns (ghost failed: set<Block>)
      requires Agrees({bl}) && c.InSync({}) && bl.id !in c.cells && Snap() == c.Loaded(bl.id)
      modifies this`disk, this`size, this`unwritten, this`lru, this`blocks, this`count, lru`dirty
      ensures unwritten >= old(unwritten) && (failed == {} <==> unwritten == old(unwritten))
      ensures Agrees({bl}) && Transparent(c, Snap()) && Reaches(c, store, Snap(), store)
      ensures lru == Trim(old(lru), Excess(old(count)), old(Pinned()) + failed)
      ensures forall b | b in failed :: b in old(lru) && b.dirty
      ensures failed == {} ==> count <= 256 || forall b | b in lru :: b.refcount > 0
      ensures count >= 256 || lru == old(lru)
    {
      hide *;
      ghost var d, pins, s := Snap(), Pinned(), lru;
      WhoIsPinned();
      CountIs({bl});
      LoadOk(c, bl.id);
      KeepsSync(c, d);
      failed := Flush({bl});
      CountIs({bl});
      assert forall b | b in pins :: b.refcount > 0;
      MissKeepsLimit(s, pins, failed, lru, count);
      if failed == {} { assert count <= 256 || forall b | b in lru :: b in pins; }
      TransparentTrans(c, d, Snap());
      ReachesLoad(c, store, bl.id);
      ReachesOn(c, store, d, store, Snap(), store);
    }

    /** get_block for a block that is not cached: it is read, and old blocks are flushed. */
    method GetMissing(id: nat) returns (bl: Block?, ghost failed: set<Block>)
      requires Agrees({}) && Snap().InSync({}) && id !in blocks && id > 0
      modifies this`disk, this`size, this`unread, this`unwritten, this`lru, this`blocks, this`count, lru`dirty
      ensures unread == old(unread) + (if bl == null then 1 else 0)
      ensures unwritten >= old(unwritten) && (failed == {} <==> unwritten == old(unwritten))
      ensures Agrees({}) && Transparent(old(Snap()), Snap()) && Reaches(old(Snap()), store, Snap(), store)
      ensures bl == null ==> blocks == old(blocks) && lru == old(lru) && Snap() == old(Snap()) && failed == {}
      ensures bl != null ==>
        && fresh(bl) && bl.id == id && Hashed(bl) && bl.refcount == 1 && bl.data == old(Snap()).At(id)
        && lru == [bl] + Trim(old(lru), Excess(old(count) + 1), old(Pinned()) + failed)
        && forall b | b in failed :: b in old(lru) && b.dirty
      ensures bl != null && failed == {} ==>
        count <= 256 || forall b | b in lru && b in old(lru) :: b.refcount > 0
      ensures bl != null ==> count >= 256 || lru == [bl] + old(lru)
    {
      hide *;
      bl, failed := null, {};
      ghost var c := Snap();
      TransparentRefl(c);
      Reached(c, store);
      Uncached(id);
      bl := Load(id);
      if bl != null {
        failed := MakeRoom(bl, c);
        AddHead(bl, {bl});
      }
    }

    /** camel_block_file_get_block */
    method GetBlock(id: nat) returns (bl: Block?, ghost failed: set<Block>)
      requires Agrees({}) && Snap().InSync({})
      modifies this`disk, this`size, this`unread, this`unwritten
      modifies this`lru, this`blocks, this`count, lru`dirty, lru`refcount
      ensures Agrees({}) && Transparent(old(Snap()), Snap()) && Reaches(old(Snap()), store, Snap(), store)
      ensures bl == null <==>
        id == 0 || id > old(root.data)[LAST] || id % 1024 != 0 || (id !in old(blocks) && unread > old(unread))
      ensures bl != null ==> unread == old(unread)
      ensures unwritten >= old(unwritten) && (failed == {} <==> unwritten == old(unwritten))
      ensures bl == null ==> blocks == old(blocks) && lru == old(lru) && Snap() == old(Snap()) && failed == {}
      ensures bl != null ==>
        && bl.id == id && Hashed(bl) && lru != [] && lru[0] == bl && bl.data == old(Snap()).At(id)
        && (bl in old(lru) || fresh(bl))
        && forall b | b in old(lru) :: b.refcount == old(b.refcount) + if b == bl then 1 else 0
      ensures bl != null && id in old(blocks) ==>
        bl == old(blocks)[id] && bl in old(lru) && lru == [bl] + Without(old(lru), bl) && failed == {}
      ensures bl != null && id !in old(blocks) ==>
        && fresh(bl) && bl.refcount == 1
        && lru == [bl] + Trim(old(lru), Excess(old(count) + 1), old(Pinned()) + failed)
        && forall b | b in failed :: b in old(lru) && b.dirty
      ensures bl != null && id !in old(blocks) && failed == {} ==>
        count <= 256 || forall b | b in lru && b in old(lru) :: b.refcount > 0
      ensures bl != null && id !in old(blocks) ==> count >= 256 || lru == [bl] + old(lru)
    {
      hide *;
      bl, failed := null, {};
      ghost var c := Snap();
      TransparentRefl(c);
      Reached(c, store);
      var refused := Refuses(id);
      if refused { return; }
      if id in blocks {
        Found(id);
        bl := blocks[id];
        assert bl.data == c.At(id);
        Remove(bl);
        AddHead(bl, {bl});
      } else {
        bl, failed := GetMissing(id);
      }
    }

    lemma WhoIsPinned()
      ensures forall b | b in Pinned() :: b in lru && b.refcount > 0
    {
    }

    lemma CountIs(pending: set<Block>)
      requires Agrees(pending)
      ensures count == |lru| + |pending| + 1 && NoDup(lru)
    {
    }

    /** Ids that get_block turns down: the root block, places that are no multiple of the block size
        and places behind the end.  The place at the end is let through. */
    method Refuses(id: nat) returns (r: bool)
      ensures r <==> id == 0 || id > root.data[LAST] || id % 1024 != 0
    {
      r := id > root.data[LAST] || id == 0 || id % BLOCK_SIZE != 0;
    }

    lemma Found(id: nat)
      requires Agrees({}) && id in blocks && id > 0
      ensures var b := blocks[id]; b in lru && b.id == id && Hashed(b) && b.data == Snap().At(id)
      ensures lru != []
    {
    }

    lemma Uncached(id: nat)
      requires id !in blocks && id > 0
      ensures id !in Snap().cells && Snap().At(id) == ReadAt(disk, id)
    {
    }

    lemma GotBlock(c: Cache, bl: Block)
      requires Agrees({}) && Snap().Ok(version, store) && Hashed(bl)
      ensures bl.id > 0 && Keyed() && bl != root && bl.data == Snap().At(bl.id) && root.data == Snap().At(0)
    {
    }

    // -------------------------------------------------------------- the allocator

    /** New data in memory, marked dirty. */
    method Modify(bl: Block, data: Content)
      requires Keyed() && (bl == root || Hashed(bl))
      modifies bl`data, bl`dirty
      ensures bl.data == data && bl.dirty && Snap() == old(Snap()).Changed(bl.id, data)
    {
      bl.data, bl.dirty := data, true;
    }

    method Mark(bl: Block)
      requires Keyed() && (bl == root || Hashed(bl))
      modifies bl`dirty
      ensures bl.dirty && Snap() == old(Snap()).Changed(bl.id, bl.data)
    {
      bl.dirty := true;
    }

    /** What get_block leaves of the invariants. */
    lemma StillOk(c: Cache)
      requires Transparent(c, Snap()) && c.Ok(version, store)
      ensures Snap().Ok(version, store) && Snap().At(0) == root.data && Snap().View() == c.View() && Snap().InSync({})
      ensures forall id: nat :: Snap().At(id) == c.At(id)
    {
      TransparentOk(c, Snap(), version, store);
      forall id: nat ensures Snap().At(id) == c.At(id) { assert Snap().View()[id] == c.View()[id]; }
    }

    lemma NowValid()
      requires Agrees({}) && Snap().Ok(version, store)
      ensures Valid()
    {
    }

    /** camel_block_file_new_block */
    method NewBlock() returns (bl: Block?)
      requires Valid()
      modifies this`disk, this`size, this`unread, this`unwritten, this`lru, this`blocks, this`count, this`store
      modifies lru`data, lru`dirty, lru`refcount, root`data, root`dirty
      ensures bl == null <==> unread > old(unread)
      ensures bl == null ==> Valid() && store == old(store) && Snap() == old(Snap())
      ensures bl != null && old(store).New().last < WORD_LIMIT ==> Reaches(old(Snap()), old(store), Snap(), store)
      ensures bl != null ==> Agrees({}) && Hashed(bl) && bl.id == old(store).Next() && bl.data == Zeros()
      ensures bl != null ==> root.data == NewRoot(old(root.data), old(Snap()).At(bl.id))
      ensures bl != null && old(store).New().last < WORD_LIMIT ==>
        && Valid() && store == old(store).New() && bl.id !in old(store).used
        && Snap().View() == old(Snap()).View()[0 := root.data][bl.id := Zeros()]
    {
      hide *;
      ghost var c := Snap();
      Starts();
      Places();
      ghost var failed;
      if root.data[FREE] != 0 {
        bl, failed := GetBlock(root.data[FREE]);
      } else {
        bl, failed := GetBlock(root.data[LAST]);
      }
      StillOk(c);
      if bl == null { NowValid(); return; }
      ghost var d := Snap();
      TakeNew(bl);
      NewIsUnused(store);
      if store.New().last < WORD_LIMIT { ReachesOn(c, store, d, store, Snap(), store.New()); }
      store := store.New();
      if store.last < WORD_LIMIT { NowValid(); }
    }

    /** The root block lets go of the new block, which is cleared. */
    method TakeNew(bl: Block)
      requires Agrees({}) && Snap().Ok(version, store) && Hashed(bl) && bl.id == store.Next()
      modifies bl`data, bl`dirty, root`data, root`dirty
      ensures Agrees({}) && bl.data == Zeros() && root.data == NewRoot(old(root.data), old(Snap()).At(bl.id))
      ensures store.New().last < WORD_LIMIT ==>
        && Snap().Ok(version, store.New()) && Reaches(old(Snap()), store, Snap(), store.New())
        && Snap().View() == old(Snap()).View()[0 := root.data][bl.id := Zeros()]
    {
      hide *;
      ghost var d := Snap();
      GotBlock(d, bl);
      if store.New().last < WORD_LIMIT {
        NewBlockOk(d, version, store);
        ReachesNew(d, store);
      }
      Modify(root, NewRoot(root.data, bl.data));
      Modify(bl, Zeros());
    }

    lemma NewIsUnused(s: Store)
      requires s.Ok()
      ensures s.Next() !in s.used
    {
      NewOk(s);
    }

    lemma Starts()
      requires Valid()
      ensures Agrees({}) && Snap().Ok(version, store) && Snap().InSync({}) && root.data == Snap().At(0) && store.Ok()
      ensures Keyed() && root.id == 0
      ensures store.Next() == if root.data[FREE] != 0 then root.data[FREE] else root.data[LAST]
      ensures 0 < store.Next() <= root.data[LAST] && store.Next() % 1024 == 0
    {
      if store.free != [] { assert store.free[0] in store.free && IsBlock(store.free[0], store.last); }
      HeadIsNext(Snap().View(), store, root.data[FREE]);
    }

    /** camel_block_file_unref_block, for a block of the cache. */
    method UnrefBlock(bl: Block)
      requires bl.refcount > 0
      modifies bl`refcount
      ensures bl.refcount == old(bl.refcount) - 1
    {
      bl.refcount := bl.refcount - 1;
    }

    /** camel_block_file_free_block.  The id is not checked: the invariants hold afterwards exactly for a
        block in use, and the free chain ends exactly if the block was not free already. */
    method FreeBlock(id: Word) returns (ok: bool)
      requires Valid()
      modifies this`disk, this`size, this`unread, this`unwritten, this`lru, this`blocks, this`count, this`store
      modifies lru`data, lru`dirty, lru`refcount, root`data, root`dirty
      ensures !ok <==> id == 0 || id > old(root.data)[LAST] || id % 1024 != 0 || unread > old(unread)
      ensures !ok ==> Valid() && store == old(store) && Snap() == old(Snap())
      ensures ok ==> Agrees({}) && root.data == Put(old(root.data), FREE, id) && store == old(store).Free(id)
      ensures ok ==> Snap().At(id) == Put(old(Snap()).At(id), 0, old(root.data)[FREE])
      ensures ok ==> Snap().View() == old(Snap()).View()[id := Snap().At(id)][0 := root.data]
      ensures ok ==> (Valid() <==> id in old(store).used)
      ensures ok ==> ((exists f :: 0 !in f && Chained(Snap().View(), id, f)) <==> id !in old(store).free)
      ensures ok && id in old(store).used ==> Reaches(old(Snap()), old(store), Snap(), store)
    {
      hide *;
      ghost var c := Snap();
      Starts();
      Places();
      var bl;
      ghost var failed;
      bl, failed := GetBlock(id);
      StillOk(c);
      ok := bl != null;
      if bl == null { NowValid(); return; }
      ghost var d := Snap();
      Unhook(bl, id);
      UnrefBlock(bl);
      if id in store.used { ReachesOn(c, store, d, store, Snap(), store.Free(id)); }
      FreeOkIff(store, id);
      store := store.Free(id);
      if store.Ok() { NowValid(); }
      ValidStore();
    }

    /** The block leads to the old head of the free list and becomes its head. */
    method Unhook(bl: Block, id: Word)
      requires bl.id == id && Agrees({}) && Snap().Ok(version, store) && Hashed(bl)
      modifies bl`data, bl`dirty, root`data, root`dirty
      ensures Agrees({}) && root.data == Put(old(root.data), FREE, id)
      ensures Snap().At(id) == Put(old(Snap()).At(id), 0, old(root.data)[FREE])
      ensures Snap().View() == old(Snap()).View()[id := Snap().At(id)][0 := root.data]
      ensures (exists f :: 0 !in f && Chained(Snap().View(), id, f)) <==> id !in store.free
      ensures id in store.used ==>
        Snap().Ok(version, store.Free(id)) && Reaches(old(Snap()), store, Snap(), store.Free(id))
    {
      hide *;
      Places();
      ghost var d := Snap();
      GotBlock(d, bl);
      if id in store.used {
        FreeBlockOk(d, version, store, id);
        ReachesFree(d, store, id);
      }
      FreeChainEnds(d, version, store, id);
      Modify(bl, Put(bl.data, 0, root.data[FREE]));
      Modify(root, Put(root.data, FREE, id));
      AtBoth(d, Snap(), id, bl.data, root.data);
    }

    lemma ValidStore()
      ensures Valid() ==> store.Ok()
    {
    }

    // -------------------------------------------------------------- marking what clients change

    /** camel_block_file_touch_block: the first block marked after a sync takes the SYNC flag off the
        root block, which is written at once. */
    method TouchBlock(bl: Block)
      requires Agrees({}) && (bl == root || Hashed(bl))
      modifies this`disk, this`size, this`unread, this`unwritten, bl`dirty, root`data, root`dirty
      ensures unread >= old(unread) && unwritten >= old(unwritten)
      ensures bl != root && HasSync(old(root.data)) && unread == old(unread) && unwritten == old(unwritten) ==>
        disk == old(disk)[0 := root.data]
      ensures bl == root || !HasSync(old(root.data)) ==> disk == old(disk)
      ensures bl != root ==> bl.data == old(bl.data)
      ensures Agrees({}) && root.data == if bl == root then old(root.data) else ClearSync(old(root.data))
      ensures var c := old(Snap()).Changed(bl.id, bl.data);
        if bl == root || !HasSync(old(root.data)) then Snap() == c
        else c.Changed(0, ClearSync(old(root.data))).WrittenBack(0, Snap())
    {
      hide Cache.InSync, BlockFile.Snap, NoDup;
      Mark(bl);
      if HasSync(root.data) && bl != root {
        Modify(root, ClearSync(root.data));
        var ok := Use();
        if ok { ok := SyncBlockNolock(root); }
      }
    }

    /** A client changes a block it holds and marks it. */
    method WriteBlock(bl: Block, data: Content)
      requires Valid() && Hashed(bl) && bl.id in store.used
      modifies this`disk, this`size, this`unread, this`unwritten, bl`data, bl`dirty, root`data, root`dirty
      ensures Valid() && (root.data == old(root.data) || root.data == ClearSync(old(root.data)))
      ensures !HasSync(root.data) && Snap().View() == old(Snap()).View()[bl.id := data][0 := root.data]
      ensures Reaches(old(Snap()), store, Snap(), store)
      ensures unread >= old(unread) && unwritten >= old(unwritten)
      ensures HasSync(old(root.data)) && unread == old(unread) && unwritten == old(unwritten) ==>
        forall n :: !ValidRoot(ReadAt(disk, 0), version, n)
    {
      hide *;
      ghost var c := Snap();
      Starts();
      GotBlock(c, bl);
      ClearedSync(root.data);
      ClientWriteOk(c, version, store, bl.id, data, ClearSync(root.data));
      ghost var r := root.data;
      ReachesChange(c, store, bl.id, data);
      StoreData(bl, data);
      TouchBlock(bl);
      if HasSync(r) {
        ghost var d := c.Changed(bl.id, data).Changed(0, ClearSync(r));
        InBoth(d);
        WriteBackOk(d, 0, Snap());
        ReachesWriteBack(d, store, 0, Snap());
        ReachesOn(c, store, d, store, Snap(), store);
        StillOk(d);
        NeverValid(disk, root.data, version);
      } else {
        SameRoot(c, bl.id, data);
      }
      NowValid();
    }

    /** A client writes into a block in memory. */
    method StoreData(bl: Block, data: Content)
      requires Keyed() && Hashed(bl)
      modifies bl`data
      ensures bl.data == data && Snap().Changed(bl.id, data) == old(Snap()).Changed(bl.id, data)
    {
      hide BlockFile.CellsOf;
      ghost var m := CellsOf(blocks);
      SetData(bl, data);
      SetTwice(m, bl.id, Cell(data, bl.dirty), Cell(data, true));
    }

    method SetData(bl: Block, data: Content)
      requires Keyed() && Hashed(bl)
      modifies bl`data
      ensures bl.data == data && CellsOf(blocks) == old(CellsOf(blocks))[bl.id := Cell(data, bl.dirty)]
    {
      bl.data := data;
    }

    // -------------------------------------------------------------- sync

    /** The loop of sync_nolock: every dirty block of the cache is written, or one fails. */
    method SyncBlocks() returns (ok: bool, work: bool)
      requires Agrees({}) && Snap().InSync({})
      modifies this`disk, this`size, this`unwritten, lru`dirty
      ensures unwritten >= old(unwritten) && (ok <==> unwritten == old(unwritten))
      ensures Agrees({}) && Transparent(old(Snap()), Snap()) && Reaches(old(Snap()), store, Snap(), store)
      ensures ok ==> forall b | b in lru :: !b.dirty
    {
      hide *;
      TransparentRefl(Snap());
      Reached(Snap(), store);
      ok, work := true, false;
      var i := 0;
      while i < |lru|
        invariant 0 <= i <= |lru| && lru == old(lru) && Agrees({}) && Transparent(old(Snap()), Snap())
        invariant Reaches(old(Snap()), store, Snap(), store) && ok && unwritten == old(unwritten)
        invariant forall j | 0 <= j < i :: !lru[j].dirty
      {
        var bl := lru[i];
        ghost var c := Snap();
        KeepsSync(old(Snap()), c);
        if bl.dirty {
          work := true;
          Listed({}, bl);
          ok := SyncBlockNolock(bl);
          WriteBackOk(c, bl.id, Snap());
          TransparentTrans(old(Snap()), c, Snap());
          ReachesWriteBack(c, store, bl.id, Snap());
          ReachesOn(old(Snap()), store, c, store, Snap(), store);
          if !ok { return; }
        }
        i := i + 1;
      }
    }

    lemma AllClean()
      requires Agrees({}) && !root.dirty && forall b | b in lru :: !b.dirty
      ensures Clean(Snap())
    {
    }

    /** sync_nolock */
    method SyncNolock() returns (ok: bool)
      requires Valid()
      modifies this`disk, this`size, this`unwritten, lru`dirty, root`dirty, root`data
      ensures unwritten >= old(unwritten) && (ok <==> unwritten == old(unwritten))
      ensures Valid() && forall id: nat | id != 0 :: Snap().At(id) == old(Snap()).At(id)
      ensures root.data == old(root.data) || root.data == SetSync(old(root.data))
      ensures ok ==> Clean(Snap()) && HasSync(root.data)
      ensures Reaches(old(Snap()), store, Snap(), store)
    {
      hide *;
      ghost var c := Snap();
      Starts();
      var work;
      ok, work := SyncBlocks();
      StillOk(c);
      NowValid();
      if !ok { return; }
      var synced := IsSynced();
      if !work && !root.dirty && synced {
        AllClean();
        return;
      }
      ghost var d := Snap();
      Starts();
      RootFlagOk(d, version, store);
      ChangedRoot(d, SetSync(root.data));
      IsSet(root.data);
      Modify(root, SetSync(root.data));
      ghost var e := Snap();
      InBoth(e);
      ReachesFlag(d, store);
      ReachesOn(c, store, d, store, e, store);
      ok := SyncBlockNolock(root);
      WriteBackOk(e, 0, Snap());
      ReachesWriteBack(e, store, 0, Snap());
      ReachesOn(c, store, e, store, Snap(), store);
      StillOk(e);
      NowValid();
      if ok { AllClean(); }
    }

    method IsSynced() returns (r: bool)
      ensures r == HasSync(root.data)
    {
      r := HasSync(root.data);
    }

    /** camel_block_file_sync.  After success a reader of the file sees what a reader of the blocks
        sees, and opening the file again gives the same store. */
    method Sync() returns (ok: bool)
      requires Valid()
      modifies this`disk, this`size, this`unread, this`unwritten, lru`dirty, root`dirty, root`data
      ensures unread >= old(unread) && unwritten >= old(unwritten)
      ensures ok <==> unread == old(unread) && unwritten == old(unwritten)
      ensures Valid() && forall id: nat | id != 0 :: Snap().At(id) == old(Snap()).At(id)
      ensures root.data == old(root.data) || root.data == SetSync(old(root.data))
      ensures ok ==> size == store.last && ValidRoot(ReadAt(disk, 0), version, size) && forall id: nat :: ReadAt(disk, id) == Snap().At(id)
      ensures ok ==> Opened(disk, size).Ok(version, store)
      ensures Reaches(old(Snap()), store, Snap(), store)
      ensures ok ==> Reaches(Snap(), store, Opened(disk, size), store)
    {
      hide *;
      Reached(Snap(), store);
      ok := Use();
      if ok {
        ok := SyncNolock();
        if ok {
          Starts();
          ReachesOpened(Snap(), store);
          CleanIsDisk(Snap());
          SyncThenOpen(Snap(), version, store);
          SnapFile();
        }
      }
    }

    lemma SnapFile()
      ensures Snap().disk == disk && Snap().size == size
    {
    }

    // -------------------------------------------------------------- open

    /** camel_block_file_new, on a file with the content `disk`: a file whose root block is valid is
        taken as it is, with the store `s` if it holds one; any other is initialised. */
    static method Open(version: (Word, Word), disk: map<nat, Content>, size: nat, ghost s: Store)
        returns (bs: BlockFile?, ghost failed: bool)
      ensures bs == null <==> failed
      ensures bs != null ==> fresh(bs) && fresh(bs.root) && bs.version == version && bs.Agrees({})
      ensures bs != null && ValidRoot(ReadAt(disk, 0), version, size) ==>
        && bs.Snap() == Opened(disk, size) && bs.store == s
        && (Opened(disk, size).Ok(version, s) ==> bs.Valid())
      ensures bs != null && !ValidRoot(ReadAt(disk, 0), version, size) ==>
        bs.Valid() && bs.store == Store([], {}, BLOCK_SIZE) && bs.size == BLOCK_SIZE && !bs.root.dirty
      ensures var r := ReadAt(disk, 0);
        bs != null && (r[FLAGS] % 2 == 0 || size != r[LAST] || (r[0], r[1]) != version || r[SIZE] != 1024
                       || r[FREE] > size || r[FREE] % 1024 != 0 || r[LAST] % 1024 != 0 || r[LAST] == 0) ==>
          bs.Valid() && bs.store == Store([], {}, 1024)
    {
      bs := null;
      var read: bool := *;
      failed := !read;
      if !read { return; }
      var root := new Block(0, ReadAt(disk, 0));
      root.refcount := 1;
      var f := new BlockFile(version, root, disk, size, s);
      if !ValidRoot(root.data, version, size) {
        var ok := f.Initialise();
        failed := f.unread + f.unwritten > 0;
        if !ok { return; }
        InitOk(version, f.disk);
      }
      bs := f;
    }

    /** block_file_init_root, and what follows it. */
    method Initialise() returns (ok: bool)
      requires blocks == map[] && root.id == 0
      modifies this`disk, this`size, this`unread, this`unwritten, this`store, root`data, root`dirty
      ensures unread >= old(unread) && unwritten >= old(unwritten)
      ensures ok <==> unread == old(unread) && unwritten == old(unwritten)
      ensures ok ==> ReadAt(disk, 0) == InitRoot(version) && Snap() == Opened(disk, BLOCK_SIZE) && store == Store([], {}, BLOCK_SIZE)
    {
      root.data, root.dirty := InitRoot(version), true;
      ok := Use();
      if ok {
        ok := SyncBlockNolock(root);
        if ok {
          ok := Truncate(root.data[LAST]);
          store := Store([], {}, BLOCK_SIZE);
        }
      }
    }

    /** ftruncate */
    method Truncate(n: nat) returns (ok: bool)
      modifies this`disk, this`size, this`unwritten
      ensures unwritten == old(unwritten) + if ok then 0 else 1
      ensures ok ==> size == n && disk == map id | id in old(disk) && id < n :: old(disk)[id]
      ensures !ok ==> size == old(size) && disk == old(disk)
    {
      ok := *;
      if ok {
        disk, size := map id | id in disk && id < n :: disk[id], n;
      } else {
        unwritten := unwritten + 1;
      }
    }
  }

  lemma SetTwice(m: map<nat, Cell>, k: nat, a: Cell, b: Cell)
    ensures m[k := a][k := b] == m[k := b]
  {
  }

  lemma ChangedRoot(d: Cache, root: Content)
    ensures var e := d.Changed(0, root); e.At(0) == root && forall id: nat | id != 0 :: e.At(id) == d.At(id)
  {
  }

  /** A file whose root block is not marked as synced is not taken as it is. */
  lemma NeverValid(disk: map<nat, Content>, root: Content, version: (Word, Word))
    ensures !HasSync(root) && 0 in disk && disk[0] == root ==> forall n :: !ValidRoot(ReadAt(disk, 0), version, n)
  {
  }

  lemma IsSet(root: Content)
    ensures HasSync(SetSync(root))
  {
  }

  lemma AtBoth(d: Cache, e: Cache, id: nat, data: Content, root: Content)
    requires e == d.Changed(id, data).Changed(0, root) && id != 0
    ensures e.At(id) == data
  {
  }

  lemma InBoth(d: Cache)
    ensures forall v, s | d.Ok(v, s) :: 0 in d.cells && d.InSync({})
  {
  }

  lemma SameRoot(c: Cache, id: nat, data: Content)
    requires id != 0
    ensures c.View()[id := data][0 := c.At(0)] == c.View()[id := data]
  {
  }

  lemma ClearedSync(root: Content)
    ensures !HasSync(ClearSync(root)) && (!HasSync(root) ==> ClearSync(root) == root)
  {
  }

  lemma Places()
    ensures FREE < WORDS && LAST < WORDS && FLAGS < WORDS && WORDS == 256
  {
  }

  /** e_dlist_remove */
  function Without(s: seq<Block>, b: Block): (t: seq<Block>)
    ensures b in s && NoDup(s) ==> t == DropAt(s, IndexOf(s, b))
  {
    if s == [] then []
    else if s[0] == b then s[1..]
    else
      assert b in s && NoDup(s) ==> b in s[1..] && NoDup(s[1..]) && IndexOf(s, b) == IndexOf(s[1..], b) + 1;
      [s[0]] + Without(s[1..], b)
  }

  /** After a miss without a failed write, the cache is within its limit or every block that was
      there before and still is has a client; and no more blocks go than need to.  Besides the list
      `t`, the new block and the root block are counted. */
  lemma MissKeepsLimit(s: seq<Block>, pinned: set<Block>, failed: set<Block>, t: seq<Block>, count: nat)
    requires NoDup(s) && t == Trim(s, Excess(|s| + 2), pinned + failed) && count == |t| + 2
    ensures failed == {} ==> count <= 256 || forall b | b in t :: b in pinned
    ensures count >= 256 || t == s
  {
    if failed == {} { assert pinned + failed == pinned; }
    TrimFacts(s, Excess(|s| + 2), pinned + failed);
  }

  lemma SplitLast(s: seq<Block>, i: nat, tail: seq<Block>)
    requires 0 < i <= |s| && NoDup(s[..i] + tail)
    ensures s[i - 1] !in tail && (s[..i] + tail)[i - 1] == s[i - 1] && DropAt(s[..i] + tail, i - 1) == s[..i - 1] + tail
    ensures s[..i] + tail == s[..i - 1] + ([s[i - 1]] + tail)
  {
    var t := s[..i] + tail;
    forall j | i <= j < |t| ensures t[j] != t[i - 1] {}
    assert forall j | 0 <= j < |tail| :: tail[j] == t[i + j];
  }

  lemma TrimNone(s: seq<Block>, e: nat, keep: set<Block>)
    ensures s == s[..|s|] + [] && Trim(s[|s|..], e, keep + {}) == []
  {
  }

  lemma FlushedOne(s: seq<Block>, i: nat, e: nat, keep: set<Block>, failed: set<Block>, flush: Block, more: set<Block>,
                   gone: bool, tail: seq<Block>, count: nat, count': nat)
    requires NoDup(s) && i < |s| && flush == s[i] && count > CACHE_LIMIT
    requires tail == Trim(s[i + 1..], e, keep + failed) && Excess(count) == e - (|s| - i - 1 - |tail|)
    requires count' == if gone then count - 1 else count
    requires flush !in failed && (gone ==> flush !in keep)
    requires more == if gone || flush in keep then {} else {flush}
    ensures var t := if gone then tail else [flush] + tail;
      t == Trim(s[i..], e, keep + (failed + more)) && Excess(count') == e - (|s| - i - |t|)
  {
    TrimKeeps(s[i + 1..], e, keep + failed, more);
    assert s[i..] == [flush] + s[i + 1..] && keep + failed + more == keep + (failed + more);
    TrimSplit([flush], s[i + 1..], e, keep + failed + more);
  }

  lemma TrimRest(s: seq<Block>, i: nat, e: nat, keep: set<Block>, count: nat)
    requires i <= |s| && (i == 0 || Excess(count) == 0)
    requires var tail := Trim(s[i..], e, keep); Excess(count) == e - (|s| - i - |tail|)
    ensures s[..i] + Trim(s[i..], e, keep) == Trim(s, e, keep)
  {
    TrimSplit(s[..i], s[i..], e, keep);
    assert s[..i] + s[i..] == s;
  }

  function Excess(count: nat): nat {
    if count > CACHE_LIMIT then count - CACHE_LIMIT else 0
  }
}
