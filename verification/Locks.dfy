/** The locks of block files and key files, as the calls take and release them, and what they guard.
    Threads that make any calls, interleaved in any way, never wait for each other in a circle, and
    do not touch the same thing at once, but for what opening and closing a file do without its locks. */
module Locks {

  type File = nat

  datatype Lock =
    | Root(file: File) | Cache(file: File) | Io(file: File) | BlockList
    | Key(file: File) | KeyList

  /** What is shared: the root block of a block file; its cache, that is hash, list and reference
      counts; its path and descriptor; the list of block files and how many are open; the same two
      for key files. */
  datatype Resource =
    | RootBlock(file: File) | Blocks(file: File) | Descriptor(file: File) | BlockFiles
    | Stream(file: File) | KeyFiles

  function Guard(r: Resource): Lock {
    match r
    case RootBlock(f) => Root(f)
    case Blocks(f) => Cache(f)
    case Descriptor(f) => Io(f)
    case BlockFiles => BlockList
    case Stream(f) => Key(f)
    case KeyFiles => KeyList
  }

  /** The order in which locks must be obtained. */
  function Rank(l: Lock): nat {
    match l
    case Root(f) => 1
    case Cache(f) => 2
    case Io(f) => 3
    case BlockList => 4
    case Key(f) => 5
    case KeyList => 6
  }

  const TOP: nat := 6

  /** What a thread still has to do, as far as locks are concerned.  `Access` is any use of a
      resource.  `Choose` stands for everything that depends on data: whether a block is cached,
      whether a file is open, whether I/O fails. */
  datatype Prog =
    | Done
    | Acquire(lock: Lock, rest: Prog)
    | Release(lock: Lock, rest: Prog)
    | Try(lock: Lock, got: Prog, missed: Prog)
    | Access(what: Resource, rest: Prog)
    | Choose(left: Prog, right: Prog)

  // ---------------------------------------------------------------- the calls

  /** A file is turned offline: what is dirty is written, and the descriptor closed. */
  function Offline(o: File, k: Prog): Prog {
    Access(RootBlock(o), Access(Blocks(o), Access(Descriptor(o), Access(BlockFiles, k))))
  }

  /** One other file: it may be passed over, and its three locks are only tried. */
  function EvictOne(o: File, rest: Prog): Prog {
    var back1: Prog := Release(Root(o), rest);
    var back2: Prog := Release(Cache(o), back1);
    var back3: Prog := Release(Io(o), back2);
    Choose(rest, Try(Root(o), Try(Cache(o), Try(Io(o), Offline(o, back3), back2), back1), rest))
  }

  /** The loop of block_file_use that turns other files offline.  The file `f` itself has left the list. */
  function Evict(f: File, others: seq<File>, k: Prog): Prog {
    if others == [] then k
    else if others[0] == f then Evict(f, others[1..], k)
    else EvictOne(others[0], Evict(f, others[1..], k))
  }

  /** block_file_use: `ok` runs with the io lock held. */
  function Use(f: File, others: seq<File>, ok: Prog, failed: Prog): Prog {
    var online: Prog := Acquire(BlockList, Access(BlockFiles, Evict(f, others, Release(BlockList, ok))));
    Acquire(Io(f), Access(Descriptor(f), Choose(ok, Choose(Release(Io(f), failed), online))))
  }

  /** block_file_unuse */
  function Unuse(f: File, k: Prog): Prog {
    Acquire(BlockList, Access(BlockFiles, Release(BlockList, Release(Io(f), k))))
  }

  /** The block is looked up; if it is not there it is read, entered, and old blocks are flushed; it
      goes to the head of the list. */
  function GetBlock(f: File, others: seq<File>, k: Prog): Prog {
    var end: Prog := Release(Cache(f), k);
    var head: Prog := Access(Blocks(f), end);
    var enter: Prog := Access(Blocks(f), Access(Descriptor(f), Unuse(f, head)));
    Acquire(Cache(f), Access(Blocks(f),
      Choose(head, Use(f, others, Access(Descriptor(f), Choose(Unuse(f, end), enter)), end))))
  }

  function CacheOnly(f: File, k: Prog): Prog {
    Acquire(Cache(f), Access(Blocks(f), Release(Cache(f), k)))
  }

  function SyncBlock(f: File, others: seq<File>, k: Prog): Prog {
    Use(f, others, Access(Descriptor(f), Unuse(f, k)), k)
  }

  function SyncAll(f: File, others: seq<File>, k: Prog): Prog {
    var end: Prog := Release(Cache(f), Release(Root(f), k));
    var write: Prog := Access(RootBlock(f), Access(Blocks(f), Access(Descriptor(f), Unuse(f, end))));
    Acquire(Root(f), Acquire(Cache(f), Use(f, others, write, end)))
  }

  /** camel_block_file_touch_block */
  function TouchIt(f: File, others: seq<File>, k: Prog): Prog {
    var end: Prog := Release(Cache(f), Release(Root(f), k));
    Acquire(Root(f), Acquire(Cache(f), Access(RootBlock(f), Choose(end, SyncBlock(f, others, end)))))
  }

  /** camel_block_file_finalise: the blocks are freed and the file is closed without locks. */
  function Dispose(f: File, others: seq<File>, k: Prog): Prog {
    var close: Prog := Access(Descriptor(f), k);
    var free: Prog := Access(Blocks(f), Choose(close, CacheOnly(f, close)));
    var end: Prog := Acquire(BlockList, Access(BlockFiles, Release(BlockList, free)));
    Choose(end, SyncAll(f, others, end))
  }

  /** What camel_block_file_new does once the root block has been read: it compares it with the size of
      the file and may initialise it, both without locks. */
  function Validate(f: File, others: seq<File>, failed: Prog, k: Prog): Prog {
    var write: Prog := Use(f, others, Access(Descriptor(f), Choose(Unuse(f, k), Unuse(f, failed))), failed);
    var touch: Prog := TouchIt(f, others, write);
    Access(RootBlock(f), Access(Descriptor(f), Choose(k, Access(RootBlock(f), touch))))
  }

  /** camel_block_file_new */
  function Opening(f: File, others: seq<File>, k: Prog): Prog {
    var failed: Prog := Dispose(f, others, k);
    var got: Prog := Choose(failed, CacheOnly(f, Validate(f, others, failed, k)));
    Acquire(BlockList, Access(BlockFiles, Release(BlockList, GetBlock(f, others, got))))
  }

  /** A block is allocated, or the attempt fails. */
  function Allocate(f: File, others: seq<File>, k: Prog): Prog {
    var end: Prog := Release(Root(f), k);
    Acquire(Root(f), Access(RootBlock(f), GetBlock(f, others, Choose(end, Access(RootBlock(f), end)))))
  }

  function GiveUp(f: File, others: seq<File>, k: Prog): Prog {
    var link: Prog := Acquire(Root(f), Access(RootBlock(f), CacheOnly(f, Release(Root(f), k))));
    GetBlock(f, others, Choose(k, link))
  }

  function Unlink(f: File, k: Prog): Prog {
    var end: Prog := Release(Io(f), k);
    var close: Prog := Acquire(BlockList, Access(BlockFiles, Release(BlockList, Access(Descriptor(f), end))));
    Acquire(Io(f), Access(Descriptor(f), Choose(end, close)))
  }

  function EvictKeys(f: File, others: seq<File>, k: Prog): Prog {
    if others == [] then k
    else if others[0] == f then EvictKeys(f, others[1..], k)
    else EvictKey(others[0], EvictKeys(f, others[1..], k))
  }

  function EvictKey(o: File, rest: Prog): Prog {
    Choose(rest, Try(Key(o), Access(Stream(o), Access(KeyFiles, Release(Key(o), rest))), rest))
  }

  function KeyUse(f: File, others: seq<File>, ok: Prog, failed: Prog): Prog {
    var online: Prog := Acquire(KeyList, Access(KeyFiles, EvictKeys(f, others, Release(KeyList, ok))));
    Acquire(Key(f), Access(Stream(f), Choose(ok, Choose(Release(Key(f), failed), online))))
  }

  function KeyUnuse(f: File, k: Prog): Prog {
    Acquire(KeyList, Access(KeyFiles, Release(KeyList, Release(Key(f), k))))
  }

  /** camel_key_file_finalise: the file is closed under the list lock. */
  function KeyDispose(f: File, k: Prog): Prog {
    var end: Prog := Release(KeyList, k);
    Acquire(KeyList, Access(KeyFiles, Choose(end, Access(Stream(f), end))))
  }

  function KeyOpening(f: File, others: seq<File>, k: Prog): Prog {
    var failed: Prog := KeyDispose(f, k);
    var use: Prog := KeyUse(f, others, Access(Stream(f), KeyUnuse(f, Choose(k, failed))), failed);
    Acquire(KeyList, Access(KeyFiles, Release(KeyList, use)))
  }

  function KeyUnlink(f: File, k: Prog): Prog {
    var end: Prog := Release(Key(f), k);
    var close: Prog := Acquire(KeyList, Access(KeyFiles, Release(KeyList, Access(Stream(f), end))));
    Acquire(Key(f), Access(Stream(f), Choose(end, close)))
  }

  datatype Call =
    | New(f: File, others: seq<File>)
    | NewBlock(f: File, others: seq<File>)
    | FreeBlock(f: File, others: seq<File>)
    | Get(f: File, others: seq<File>)
    | Detach(f: File)            // and attach and unref
    | Touch(f: File, others: seq<File>)
    | SyncOne(f: File, others: seq<File>)
    | Sync(f: File, others: seq<File>)
    | Rename(f: File)
    | Delete(f: File)
    | Finalise(f: File, others: seq<File>)
    | KeyNew(f: File, others: seq<File>)
    | KeyReadWrite(f: File, others: seq<File>)
    | KeyRename(f: File)
    | KeyDelete(f: File)
    | KeyFinalise(f: File)

  /** The locking of a call, followed by `k`.  `others` are the files that the list may hold, each
      time it is gone through. */
  function Body(c: Call, k: Prog): Prog {
    match c
    case New(f, others) => Opening(f, others, k)
    case NewBlock(f, others) => Allocate(f, others, k)
    case FreeBlock(f, others) => GiveUp(f, others, k)
    case Get(f, others) => Choose(k, GetBlock(f, others, k))
    case Detach(f) => CacheOnly(f, k)
    case Touch(f, others) => TouchIt(f, others, k)
    case SyncOne(f, others) => SyncBlock(f, others, k)
    case Sync(f, others) => SyncAll(f, others, k)
    case Rename(f) => Acquire(Io(f), Access(Descriptor(f), Release(Io(f), k)))
    case Delete(f) => Unlink(f, k)
    case Finalise(f, others) => Dispose(f, others, k)
    case KeyNew(f, others) => KeyOpening(f, others, k)
    case KeyReadWrite(f, others) => Choose(k, KeyUse(f, others, Access(Stream(f), KeyUnuse(f, k)), k))
    case KeyRename(f) => Acquire(Key(f), Access(Stream(f), Release(Key(f), k)))
    case KeyDelete(f) => KeyUnlink(f, k)
    case KeyFinalise(f) => KeyDispose(f, k)
  }

  function Calls(cs: seq<Call>): Prog {
    if cs == [] then Done else Body(cs[0], Calls(cs[1..]))
  }

  // ---------------------------------------------------------------- what the calls touch

  /** What is touched when other block files are turned offline. */
  ghost function Evicted(f: File, others: seq<File>): set<Resource> {
    (set o | o in others && o != f :: RootBlock(o)) + (set o | o in others && o != f :: Blocks(o))
    + (set o | o in others && o != f :: Descriptor(o)) + {BlockFiles}
  }

  ghost function KeysEvicted(f: File, others: seq<File>): set<Resource> {
    (set o | o in others && o != f :: Stream(o)) + {KeyFiles}
  }

  /** The resources that a call uses. */
  ghost function Uses(c: Call): set<Resource> {
    match c
    case New(f, others) => {RootBlock(f), Blocks(f), Descriptor(f)} + Evicted(f, others)
    case NewBlock(f, others) => {RootBlock(f), Blocks(f), Descriptor(f)} + Evicted(f, others)
    case FreeBlock(f, others) => {RootBlock(f), Blocks(f), Descriptor(f)} + Evicted(f, others)
    case Get(f, others) => {Blocks(f), Descriptor(f)} + Evicted(f, others)
    case Detach(f) => {Blocks(f)}
    case Touch(f, others) => {RootBlock(f), Descriptor(f)} + Evicted(f, others)
    case SyncOne(f, others) => {Descriptor(f)} + Evicted(f, others)
    case Sync(f, others) => {RootBlock(f), Blocks(f), Descriptor(f)} + Evicted(f, others)
    case Rename(f) => {Descriptor(f)}
    case Delete(f) => {Descriptor(f), BlockFiles}
    case Finalise(f, others) => {RootBlock(f), Blocks(f), Descriptor(f)} + Evicted(f, others)
    case KeyNew(f, others) => {Stream(f)} + KeysEvicted(f, others)
    case KeyReadWrite(f, others) => {Stream(f)} + KeysEvicted(f, others)
    case KeyRename(f) => {Stream(f)}
    case KeyDelete(f) => {Stream(f), KeyFiles}
    case KeyFinalise(f) => {Stream(f), KeyFiles}
  }

  /** The resources that a call also uses without the lock that guards them. */
  ghost function Bare(c: Call): set<Resource> {
    match c
    case New(f, _) => {RootBlock(f), Blocks(f), Descriptor(f)}
    case Finalise(f, _) => {Blocks(f), Descriptor(f)}
    case KeyNew(f, _) => {Stream(f)}
    case KeyFinalise(f) => {Stream(f)}
    case _ => {}
  }

  // ---------------------------------------------------------------- discipline

  /** The resources that may be used at all, and those that may be used without their lock. */
  datatype Leave = Leave(uses: set<Resource>, bare: set<Resource>)

  /** Every lock waited for ranks above all locks held, a lock is tried only under the list lock of
      its kind, a resource is used under its lock, and in the end no lock is held. */
  ghost predicate Disciplined(p: Prog, held: set<Lock>, v: Leave) {
    match p
    case Done => held == {}
    case Acquire(l, k) => (forall h | h in held :: Rank(h) < Rank(l)) && Disciplined(k, held + {l}, v)
    case Release(l, k) => l in held && Disciplined(k, held - {l}, v)
    case Try(l, got, missed) =>
      && (if l.Key? then KeyList in held else BlockList in held)
      && (l !in held ==> Disciplined(got, held + {l}, v)) && Disciplined(missed, held, v)
    case Access(r, k) => r in v.uses && (Guard(r) in held || r in v.bare) && Disciplined(k, held, v)
    case Choose(a, b) => Disciplined(a, held, v) && Disciplined(b, held, v)
  }

  ghost predicate Below(held: set<Lock>, r: nat) {
    forall h | h in held :: Rank(h) < r
  }

  lemma GiveBack(l: Lock, k: Prog, held: set<Lock>, v: Leave)
    requires Disciplined(k, held, v) && l !in held
    ensures Disciplined(Release(l, k), held + {l}, v)
  {
    assert held + {l} - {l} == held;
  }

  lemma EvictOneDisciplined(o: File, rest: Prog, held: set<Lock>, v: Leave)
    requires Disciplined(rest, held, v) && BlockList in held && {RootBlock(o), Blocks(o), Descriptor(o), BlockFiles} <= v.uses
    ensures Disciplined(EvictOne(o, rest), held, v)
  {
    var h1 := held + {Root(o)};
    var h2 := h1 + {Cache(o)};
    var h3 := h2 + {Io(o)};
    if Root(o) !in held {
      var back1 := Release(Root(o), rest);
      GiveBack(Root(o), rest, held, v);
      if Cache(o) !in h1 {
        var back2 := Release(Cache(o), back1);
        GiveBack(Cache(o), back1, h1, v);
        if Io(o) !in h2 {
          GiveBack(Io(o), back2, h2, v);
          OfflineDisciplined(o, Release(Io(o), back2), h3, v);
        }
        assert Disciplined(Try(Io(o), Offline(o, Release(Io(o), back2)), back2), h2, v);
      }
      assert Disciplined(Try(Cache(o), Try(Io(o), Offline(o, Release(Io(o), Release(Cache(o), back1))), Release(Cache(o), back1)), back1), h1, v);
    }
  }

  lemma OfflineDisciplined(o: File, k: Prog, held: set<Lock>, v: Leave)
    requires Disciplined(k, held, v) && {Root(o), Cache(o), Io(o), BlockList} <= held
    requires {RootBlock(o), Blocks(o), Descriptor(o), BlockFiles} <= v.uses
    ensures Disciplined(Offline(o, k), held, v)
  {
    assert Disciplined(Access(Descriptor(o), Access(BlockFiles, k)), held, v);
  }

  lemma {:induction false} EvictDisciplined(f: File, others: seq<File>, k: Prog, held: set<Lock>, v: Leave)
    requires Disciplined(k, held, v) && BlockList in held && Evicted(f, others) <= v.uses
    ensures Disciplined(Evict(f, others, k), held, v)
  {
    if others != [] {
      var o := others[0];
      assert Evicted(f, others[1..]) <= Evicted(f, others);
      EvictDisciplined(f, others[1..], k, held, v);
      if o != f {
        assert RootBlock(o) in Evicted(f, others) && Blocks(o) in Evicted(f, others) && Descriptor(o) in Evicted(f, others);
        EvictOneDisciplined(o, Evict(f, others[1..], k), held, v);
      }
    }
  }

  lemma {:induction false} EvictKeysDisciplined(f: File, others: seq<File>, k: Prog, held: set<Lock>, v: Leave)
    requires Disciplined(k, held, v) && KeyList in held && KeysEvicted(f, others) <= v.uses
    ensures Disciplined(EvictKeys(f, others, k), held, v)
  {
    if others != [] {
      var o, rest := others[0], EvictKeys(f, others[1..], k);
      assert KeysEvicted(f, others[1..]) <= KeysEvicted(f, others);
      EvictKeysDisciplined(f, others[1..], k, held, v);
      if o != f && Key(o) !in held {
        assert Stream(o) in KeysEvicted(f, others);
        GiveBack(Key(o), rest, held, v);
        assert Disciplined(Access(Stream(o), Access(KeyFiles, Release(Key(o), rest))), held + {Key(o)}, v);
      }
    }
  }

  lemma UseDisciplined(f: File, others: seq<File>, ok: Prog, failed: Prog, held: set<Lock>, v: Leave)
    requires Below(held, 3) && Disciplined(ok, held + {Io(f)}, v) && Disciplined(failed, held, v)
    requires {Descriptor(f)} + Evicted(f, others) <= v.uses
    ensures Disciplined(Use(f, others, ok, failed), held, v)
  {
    hide Evict, Evicted;
    var h := held + {Io(f)};
    GiveBack(Io(f), failed, held, v);
    GiveBack(BlockList, ok, h, v);
    EvictHasList(f, others);
    var online := Access(BlockFiles, Evict(f, others, Release(BlockList, ok)));
    EvictDisciplined(f, others, Release(BlockList, ok), h + {BlockList}, v);
    assert Disciplined(online, h + {BlockList}, v);
    assert Disciplined(Choose(Release(Io(f), failed), Acquire(BlockList, online)), h, v);
    assert Disciplined(Choose(ok, Choose(Release(Io(f), failed), Acquire(BlockList, online))), h, v);
  }

  lemma EvictHasList(f: File, others: seq<File>)
    ensures BlockFiles in Evicted(f, others)
  {
  }

  lemma UnuseDisciplined(f: File, k: Prog, held: set<Lock>, v: Leave)
    requires Below(held, 3) && Disciplined(k, held, v) && BlockFiles in v.uses
    ensures Disciplined(Unuse(f, k), held + {Io(f)}, v)
  {
    var h := held + {Io(f)};
    GiveBack(Io(f), k, held, v);
    GiveBack(BlockList, Release(Io(f), k), h, v);
    assert Disciplined(Access(BlockFiles, Release(BlockList, Release(Io(f), k))), h + {BlockList}, v);
  }

  /** Using the file for I/O with the descriptor, and then letting it go. */
  lemma WithFile(f: File, others: seq<File>, k: Prog, held: set<Lock>, v: Leave)
    requires Below(held, 3) && Disciplined(k, held, v) && {Descriptor(f)} + Evicted(f, others) <= v.uses
    ensures Disciplined(SyncBlock(f, others, k), held, v)
  {
    hide Use, Unuse;
    EvictHasList(f, others);
    UnuseDisciplined(f, k, held, v);
    UseDisciplined(f, others, Access(Descriptor(f), Unuse(f, k)), k, held, v);
  }

  lemma GetBlockDisciplined(f: File, others: seq<File>, k: Prog, held: set<Lock>, v: Leave)
    requires Below(held, 2) && Disciplined(k, held, v) && {Blocks(f), Descriptor(f)} + Evicted(f, others) <= v.uses
    ensures Disciplined(GetBlock(f, others, k), held, v)
  {
    hide Use, Unuse, Evicted;
    EvictHasList(f, others);
    var h := held + {Cache(f)};
    var end := Release(Cache(f), k);
    var head := Access(Blocks(f), end);
    GiveBack(Cache(f), k, held, v);
    assert Disciplined(head, h, v);
    UnuseDisciplined(f, end, h, v);
    UnuseDisciplined(f, head, h, v);
    var enter := Access(Blocks(f), Access(Descriptor(f), Unuse(f, head)));
    assert Disciplined(enter, h + {Io(f)}, v);
    var read := Access(Descriptor(f), Choose(Unuse(f, end), enter));
    assert Disciplined(read, h + {Io(f)}, v);
    UseDisciplined(f, others, read, end, h, v);
    assert Disciplined(Access(Blocks(f), Choose(head, Use(f, others, read, end))), h, v);
  }

  lemma CacheOnlyDisciplined(f: File, k: Prog, held: set<Lock>, v: Leave)
    requires Below(held, 2) && Disciplined(k, held, v) && Blocks(f) in v.uses
    ensures Disciplined(CacheOnly(f, k), held, v)
  {
    GiveBack(Cache(f), k, held, v);
    assert Disciplined(Access(Blocks(f), Release(Cache(f), k)), held + {Cache(f)}, v);
  }

  /** One lock around a use of what it guards. */
  lemma AroundDisciplined(r: Resource, k: Prog, held: set<Lock>, v: Leave)
    requires Below(held, Rank(Guard(r))) && Disciplined(k, held, v) && r in v.uses
    ensures Disciplined(Acquire(Guard(r), Access(r, Release(Guard(r), k))), held, v)
  {
    GiveBack(Guard(r), k, held, v);
    assert Disciplined(Access(r, Release(Guard(r), k)), held + {Guard(r)}, v);
  }

  lemma BothReleased(f: File, k: Prog, v: Leave)
    requires Disciplined(k, {}, v)
    ensures Disciplined(Release(Cache(f), Release(Root(f), k)), {Root(f), Cache(f)}, v)
  {
    assert {Root(f), Cache(f)} - {Cache(f)} == {Root(f)} && {Root(f)} - {Root(f)} == {};
  }

  /** Two locks, taken in their order. */
  lemma BothTaken(f: File, p: Prog, v: Leave)
    requires Disciplined(p, {Root(f), Cache(f)}, v)
    ensures Disciplined(Acquire(Root(f), Acquire(Cache(f), p)), {}, v)
  {
    assert {} + {Root(f)} + {Cache(f)} == {Root(f), Cache(f)};
    assert Disciplined(Acquire(Cache(f), p), {} + {Root(f)}, v);
  }

  lemma SyncAllDisciplined(f: File, others: seq<File>, k: Prog, v: Leave)
    requires Disciplined(k, {}, v) && {RootBlock(f), Blocks(f), Descriptor(f)} + Evicted(f, others) <= v.uses
    ensures Disciplined(SyncAll(f, others, k), {}, v)
  {
    hide Use, Unuse, Evicted;
    EvictHasList(f, others);
    var h, end := {Root(f), Cache(f)}, Release(Cache(f), Release(Root(f), k));
    BothReleased(f, k, v);
    UnuseDisciplined(f, end, h, v);
    var write := Access(RootBlock(f), Access(Blocks(f), Access(Descriptor(f), Unuse(f, end))));
    assert Disciplined(Access(Blocks(f), Access(Descriptor(f), Unuse(f, end))), h + {Io(f)}, v);
    assert Disciplined(write, h + {Io(f)}, v);
    UseDisciplined(f, others, write, end, h, v);
    BothTaken(f, Use(f, others, write, end), v);
  }

  lemma TouchDisciplined(f: File, others: seq<File>, k: Prog, v: Leave)
    requires Disciplined(k, {}, v) && {RootBlock(f), Descriptor(f)} + Evicted(f, others) <= v.uses
    ensures Disciplined(TouchIt(f, others, k), {}, v)
  {
    hide SyncBlock, Evicted;
    var end := Release(Cache(f), Release(Root(f), k));
    BothReleased(f, k, v);
    WithFile(f, others, end, {Root(f), Cache(f)}, v);
    var p := Access(RootBlock(f), Choose(end, SyncBlock(f, others, end)));
    assert Disciplined(p, {Root(f), Cache(f)}, v);
    BothTaken(f, p, v);
  }

  lemma DisposeDisciplined(f: File, others: seq<File>, k: Prog, v: Leave)
    requires Disciplined(k, {}, v) && {Blocks(f), Descriptor(f)} <= v.bare
    requires {RootBlock(f), Blocks(f), Descriptor(f)} + Evicted(f, others) <= v.uses
    ensures Disciplined(Dispose(f, others, k), {}, v)
  {
    hide CacheOnly, SyncAll, Evicted;
    EvictHasList(f, others);
    var close := Access(Descriptor(f), k);
    CacheOnlyDisciplined(f, close, {}, v);
    var free := Access(Blocks(f), Choose(close, CacheOnly(f, close)));
    assert Disciplined(Choose(close, CacheOnly(f, close)), {}, v);
    assert Disciplined(free, {}, v);
    AroundDisciplined(BlockFiles, free, {}, v);
    SyncAllDisciplined(f, others, Acquire(BlockList, Access(BlockFiles, Release(BlockList, free))), v);
  }

  lemma ValidateDisciplined(f: File, others: seq<File>, failed: Prog, k: Prog, v: Leave)
    requires Disciplined(k, {}, v) && Disciplined(failed, {}, v) && {RootBlock(f), Descriptor(f)} <= v.bare
    requires {RootBlock(f), Descriptor(f)} + Evicted(f, others) <= v.uses
    ensures Disciplined(Validate(f, others, failed, k), {}, v)
  {
    hide Use, Unuse, TouchIt, Evicted;
    EvictHasList(f, others);
    UnuseDisciplined(f, k, {}, v);
    UnuseDisciplined(f, failed, {}, v);
    var trim := Access(Descriptor(f), Choose(Unuse(f, k), Unuse(f, failed)));
    assert Disciplined(trim, {} + {Io(f)}, v);
    var write := Use(f, others, trim, failed);
    UseDisciplined(f, others, trim, failed, {}, v);
    TouchDisciplined(f, others, write, v);
    assert Disciplined(Choose(k, Access(RootBlock(f), TouchIt(f, others, write))), {}, v);
  }

  lemma OpeningDisciplined(f: File, others: seq<File>, k: Prog, v: Leave)
    requires Disciplined(k, {}, v) && {RootBlock(f), Blocks(f), Descriptor(f)} <= v.bare
    requires {RootBlock(f), Blocks(f), Descriptor(f)} + Evicted(f, others) <= v.uses
    ensures Disciplined(Opening(f, others, k), {}, v)
  {
    hide GetBlock, CacheOnly, Dispose, Validate, Evicted;
    EvictHasList(f, others);
    var failed := Dispose(f, others, k);
    DisposeDisciplined(f, others, k, v);
    ValidateDisciplined(f, others, failed, k, v);
    CacheOnlyDisciplined(f, Validate(f, others, failed, k), {}, v);
    var got := Choose(failed, CacheOnly(f, Validate(f, others, failed, k)));
    GetBlockDisciplined(f, others, got, {}, v);
    AroundDisciplined(BlockFiles, GetBlock(f, others, got), {}, v);
  }

  lemma AllocateDisciplined(f: File, others: seq<File>, k: Prog, v: Leave)
    requires Disciplined(k, {}, v) && {RootBlock(f), Blocks(f), Descriptor(f)} + Evicted(f, others) <= v.uses
    ensures Disciplined(Allocate(f, others, k), {}, v)
  {
    hide GetBlock, Evicted;
    var end := Release(Root(f), k);
    GiveBack(Root(f), k, {}, v);
    var set_ := Choose(end, Access(RootBlock(f), end));
    assert Disciplined(set_, {} + {Root(f)}, v);
    GetBlockDisciplined(f, others, set_, {} + {Root(f)}, v);
    assert Disciplined(Access(RootBlock(f), GetBlock(f, others, set_)), {} + {Root(f)}, v);
  }

  lemma GiveUpDisciplined(f: File, others: seq<File>, k: Prog, v: Leave)
    requires Disciplined(k, {}, v) && {RootBlock(f), Blocks(f), Descriptor(f)} + Evicted(f, others) <= v.uses
    ensures Disciplined(GiveUp(f, others, k), {}, v)
  {
    hide GetBlock, CacheOnly, Evicted;
    var h := {} + {Root(f)};
    GiveBack(Root(f), k, {}, v);
    CacheOnlyDisciplined(f, Release(Root(f), k), h, v);
    var link := Access(RootBlock(f), CacheOnly(f, Release(Root(f), k)));
    assert Disciplined(link, h, v);
    assert Disciplined(Choose(k, Acquire(Root(f), link)), {}, v);
    GetBlockDisciplined(f, others, Choose(k, Acquire(Root(f), link)), {}, v);
  }

  /** A file is closed, if it is open, and deleted. */
  lemma UnlinkDisciplined(r: Resource, list: Resource, k: Prog, v: Leave)
    requires Rank(Guard(r)) < Rank(Guard(list)) && Disciplined(k, {}, v) && r in v.uses && list in v.uses
    ensures var end := Release(Guard(r), k);
      Disciplined(Acquire(Guard(r), Access(r, Choose(end,
        Acquire(Guard(list), Access(list, Release(Guard(list), Access(r, end))))))), {}, v)
  {
    var h, end := {} + {Guard(r)}, Release(Guard(r), k);
    GiveBack(Guard(r), k, {}, v);
    assert Disciplined(Access(r, end), h, v);
    AroundDisciplined(list, Access(r, end), h, v);
    assert Disciplined(Access(r, Choose(end, Acquire(Guard(list), Access(list, Release(Guard(list), Access(r, end)))))), h, v);
  }

  lemma KeyUseDisciplined(f: File, others: seq<File>, ok: Prog, failed: Prog, v: Leave)
    requires Disciplined(ok, {Key(f)}, v) && Disciplined(failed, {}, v) && {Stream(f)} + KeysEvicted(f, others) <= v.uses
    ensures Disciplined(KeyUse(f, others, ok, failed), {}, v)
  {
    hide EvictKeys;
    var h := {} + {Key(f)};
    assert h == {Key(f)};
    GiveBack(Key(f), failed, {}, v);
    GiveBack(KeyList, ok, h, v);
    var online := Access(KeyFiles, EvictKeys(f, others, Release(KeyList, ok)));
    EvictKeysDisciplined(f, others, Release(KeyList, ok), h + {KeyList}, v);
    assert Disciplined(online, h + {KeyList}, v);
    assert Disciplined(Choose(Release(Key(f), failed), Acquire(KeyList, online)), h, v);
    assert Disciplined(Choose(ok, Choose(Release(Key(f), failed), Acquire(KeyList, online))), h, v);
  }

  lemma KeyUnuseDisciplined(f: File, k: Prog, v: Leave)
    requires Disciplined(k, {}, v) && KeyFiles in v.uses
    ensures Disciplined(KeyUnuse(f, k), {Key(f)}, v)
  {
    assert {} + {Key(f)} == {Key(f)};
    GiveBack(Key(f), k, {}, v);
    AroundDisciplined(KeyFiles, Release(Key(f), k), {Key(f)}, v);
  }

  lemma KeyDisposeDisciplined(f: File, k: Prog, v: Leave)
    requires Disciplined(k, {}, v) && {Stream(f), KeyFiles} <= v.uses && Stream(f) in v.bare
    ensures Disciplined(KeyDispose(f, k), {}, v)
  {
    GiveBack(KeyList, k, {}, v);
    var end := Release(KeyList, k);
    assert Disciplined(Access(KeyFiles, Choose(end, Access(Stream(f), end))), {} + {KeyList}, v);
  }

  lemma KeyOpeningDisciplined(f: File, others: seq<File>, k: Prog, v: Leave)
    requires Disciplined(k, {}, v) && {Stream(f)} + KeysEvicted(f, others) <= v.uses && Stream(f) in v.bare
    ensures Disciplined(KeyOpening(f, others, k), {}, v)
  {
    hide KeyUse, KeyUnuse, KeyDispose;
    var failed := KeyDispose(f, k);
    KeyDisposeDisciplined(f, k, v);
    KeyUnuseDisciplined(f, Choose(k, failed), v);
    var ok := Access(Stream(f), KeyUnuse(f, Choose(k, failed)));
    assert Disciplined(ok, {Key(f)}, v);
    KeyUseDisciplined(f, others, ok, failed, v);
    AroundDisciplined(KeyFiles, KeyUse(f, others, ok, failed), {}, v);
  }

  /** Every call keeps the order of the locks, uses what `Uses` says and nothing else, under the locks
      except for what `Bare` says, and gives all locks back. */
  lemma BodyDisciplined(c: Call, k: Prog, v: Leave)
    requires Disciplined(k, {}, v) && Uses(c) <= v.uses && Bare(c) <= v.bare
    ensures Disciplined(Body(c, k), {}, v)
  {
    hide Disciplined, GetBlock, CacheOnly, SyncAll, SyncBlock, TouchIt, Dispose, Opening, Allocate, GiveUp, KeyUse, KeyUnuse, KeyDispose,
      KeyOpening, Evicted, KeysEvicted;
    match c
    case New(f, others) => OpeningDisciplined(f, others, k, v);
    case NewBlock(f, others) => AllocateDisciplined(f, others, k, v);
    case FreeBlock(f, others) => GiveUpDisciplined(f, others, k, v);
    case Get(f, others) =>
      GetBlockDisciplined(f, others, k, {}, v);
      EitherDisciplined(k, GetBlock(f, others, k), v);
    case Detach(f) => CacheOnlyDisciplined(f, k, {}, v);
    case Touch(f, others) => TouchDisciplined(f, others, k, v);
    case SyncOne(f, others) => WithFile(f, others, k, {}, v);
    case Sync(f, others) => SyncAllDisciplined(f, others, k, v);
    case Rename(f) => AroundDisciplined(Descriptor(f), k, {}, v);
    case Delete(f) => UnlinkDisciplined(Descriptor(f), BlockFiles, k, v);
    case Finalise(f, others) => DisposeDisciplined(f, others, k, v);
    case KeyNew(f, others) => KeyOpeningDisciplined(f, others, k, v);
    case KeyReadWrite(f, others) =>
      KeyReadWriteDisciplined(f, others, k, v);
      EitherDisciplined(k, KeyUse(f, others, Access(Stream(f), KeyUnuse(f, k)), k), v);
    case KeyRename(f) => AroundDisciplined(Stream(f), k, {}, v);
    case KeyDelete(f) => UnlinkDisciplined(Stream(f), KeyFiles, k, v);
    case KeyFinalise(f) => KeyDisposeDisciplined(f, k, v);
  }

  lemma EitherDisciplined(a: Prog, b: Prog, v: Leave)
    requires Disciplined(a, {}, v) && Disciplined(b, {}, v)
    ensures Disciplined(Choose(a, b), {}, v)
  {
  }

  lemma KeyReadWriteDisciplined(f: File, others: seq<File>, k: Prog, v: Leave)
    requires Disciplined(k, {}, v) && {Stream(f)} + KeysEvicted(f, others) <= v.uses
    ensures Disciplined(KeyUse(f, others, Access(Stream(f), KeyUnuse(f, k)), k), {}, v)
  {
    hide KeyUse, KeyUnuse;
    KeyUnuseDisciplined(f, k, v);
    assert Disciplined(Access(Stream(f), KeyUnuse(f, k)), {Key(f)}, v);
    KeyUseDisciplined(f, others, Access(Stream(f), KeyUnuse(f, k)), k, v);
  }

  /** What a thread with these calls may do. */
  ghost function LeaveFor(cs: seq<Call>): Leave {
    Leave(set c, r | c in cs && r in Uses(c) :: r, set c, r | c in cs && r in Bare(c) :: r)
  }

  lemma {:induction false} CallsDisciplined(cs: seq<Call>, v: Leave)
    requires forall c | c in cs :: Uses(c) <= v.uses && Bare(c) <= v.bare
    ensures Disciplined(Calls(cs), {}, v)
  {
    hide Uses, Bare, Body;
    if cs != [] {
      CallsDisciplined(cs[1..], v);
      BodyDisciplined(cs[0], Calls(cs[1..]), v);
    }
  }

  // ---------------------------------------------------------------- threads

  datatype Thread = Thread(prog: Prog, held: set<Lock>)

  type System = seq<Thread>

  ghost predicate Free(s: System, l: Lock) {
    forall t | 0 <= t < |s| :: l !in s[t].held
  }

  /** No lock is held twice, and every thread keeps the discipline. */
  ghost predicate Inv(s: System, vs: seq<Leave>) {
    && |vs| == |s|
    && (forall t, u | 0 <= t < u < |s| :: s[t].held !! s[u].held)
    && forall t | 0 <= t < |s| :: Disciplined(s[t].prog, s[t].held, vs[t])
  }

  /** What thread `t` can do next: wait no longer, give a lock back, try one, use something, or choose. */
  ghost predicate Moves(s: System, t: nat, next: Thread)
    requires t < |s|
  {
    match s[t].prog
    case Done => false
    case Acquire(l, k) => Free(s, l) && next == Thread(k, s[t].held + {l})
    case Release(l, k) => next == Thread(k, s[t].held - {l})
    case Try(l, got, missed) => next == if Free(s, l) then Thread(got, s[t].held + {l}) else Thread(missed, s[t].held)
    case Access(r, k) => next == Thread(k, s[t].held)
    case Choose(a, b) => next == Thread(a, s[t].held) || next == Thread(b, s[t].held)
  }

  ghost predicate Step(s: System, s': System) {
    exists t, next :: 0 <= t < |s| && Moves(s, t, next) && s' == s[t := next]
  }

  lemma StepInv(s: System, vs: seq<Leave>, t: nat, next: Thread)
    requires Inv(s, vs) && t < |s| && Moves(s, t, next)
    ensures Inv(s[t := next], vs)
  {
    var s' := s[t := next];
    assert Disciplined(s[t].prog, s[t].held, vs[t]);
    assert Disciplined(next.prog, next.held, vs[t]) by {
      if s[t].prog.Try? && Free(s, s[t].prog.lock) { assert s[t].prog.lock !in s[t].held; }
    }
    forall u, v | 0 <= u < v < |s'| ensures s'[u].held !! s'[v].held {
      assert s[u].held !! s[v].held;
      if u == t || v == t {
        var o := if u == t then v else u;
        forall l | l in next.held ensures l in s[t].held || l !in s[o].held {}
      }
    }
  }

  /** The thread `t` or one that holds up others in turn can move. */
  lemma {:induction false} SomeoneMoves(s: System, vs: seq<Leave>, t: nat) returns (u: nat, next: Thread)
    requires Inv(s, vs) && t < |s| && s[t].prog != Done
    ensures u < |s| && Moves(s, u, next)
    decreases if s[t].prog.Acquire? then TOP + 1 - Rank(s[t].prog.lock) else 0
  {
    var p := s[t].prog;
    u := t;
    match p
    case Acquire(l, k) =>
      if Free(s, l) {
        next := Thread(k, s[t].held + {l});
      } else {
        var h :| 0 <= h < |s| && l in s[h].held;
        assert Disciplined(s[h].prog, s[h].held, vs[h]);
        u, next := SomeoneMoves(s, vs, h);
      }
    case Release(l, k) => next := Thread(k, s[t].held - {l});
    case Try(l, got, missed) =>
      next := if Free(s, l) then Thread(got, s[t].held + {l}) else Thread(missed, s[t].held);
    case Access(r, k) => next := Thread(k, s[t].held);
    case Choose(a, b) => next := Thread(a, s[t].held);
  }

  /** As long as a call is unfinished, some thread can move. */
  lemma NoDeadlock(s: System, vs: seq<Leave>)
    requires Inv(s, vs) && exists t :: 0 <= t < |s| && s[t].prog != Done
    ensures exists s' :: Step(s, s')
  {
    var t :| 0 <= t < |s| && s[t].prog != Done;
    var u, next := SomeoneMoves(s, vs, t);
    assert Step(s, s[u := next]);
  }

  // ---------------------------------------------------------------- runs

  function Size(p: Prog): nat {
    match p
    case Done => 0
    case Acquire(l, k) => 1 + Size(k)
    case Release(l, k) => 1 + Size(k)
    case Try(l, got, missed) => 1 + Size(got) + Size(missed)
    case Access(r, k) => 1 + Size(k)
    case Choose(a, b) => 1 + Size(a) + Size(b)
  }

  function Work(s: System): nat {
    if s == [] then 0 else Size(s[0].prog) + Work(s[1..])
  }

  lemma {:induction false} WorkShrinks(s: System, t: nat, next: Thread)
    requires t < |s| && Size(next.prog) < Size(s[t].prog)
    ensures Work(s[t := next]) < Work(s)
  {
    if t > 0 {
      assert s[t := next][1..] == s[1..][t - 1 := next];
      WorkShrinks(s[1..], t - 1, next);
    } else {
      assert s[t := next][1..] == s[1..];
    }
  }

  /** States that follow one another, each by one step of one thread. */
  ghost predicate Run(states: seq<System>) {
    states != [] && forall i | 0 <= i < |states| - 1 :: Step(states[i], states[i + 1])
  }

  lemma {:induction false} RunInv(states: seq<System>, vs: seq<Leave>, i: nat)
    requires Run(states) && Inv(states[0], vs) && i < |states|
    ensures Inv(states[i], vs) && Work(states[i]) + i <= Work(states[0]) && |states[i]| == |states[0]|
  {
    if i > 0 {
      RunInv(states, vs, i - 1);
      var s := states[i - 1];
      assert Step(s, states[i]);
      var t, next :| 0 <= t < |s| && Moves(s, t, next) && states[i] == s[t := next];
      StepInv(s, vs, t, next);
      WorkShrinks(s, t, next);
    }
  }

  /** Threads that are about to make the calls of `work`. */
  ghost predicate Starts(s: System, work: seq<seq<Call>>) {
    |s| == |work| && forall t | 0 <= t < |work| :: s[t] == Thread(Calls(work[t]), {})
  }

  ghost function Leaves(work: seq<seq<Call>>): (vs: seq<Leave>)
    ensures |vs| == |work|
  {
    seq(|work|, t requires 0 <= t < |work| => LeaveFor(work[t]))
  }

  lemma StartsInv(s: System, work: seq<seq<Call>>)
    requires Starts(s, work)
    ensures Inv(s, Leaves(work))
  {
    forall t | 0 <= t < |work| ensures Disciplined(s[t].prog, s[t].held, Leaves(work)[t]) {
      var v := LeaveFor(work[t]);
      forall c | c in work[t] ensures Uses(c) <= v.uses && Bare(c) <= v.bare {}
      CallsDisciplined(work[t], v);
    }
  }

  /** Threads that make any calls: no run is longer than the work there is, a run that cannot go on
      has finished every call with every lock free, and at no time do two threads hold one lock. */
  lemma CallsFinish(work: seq<seq<Call>>, states: seq<System>)
    requires Run(states) && Starts(states[0], work)
    ensures |states| <= Work(states[0]) + 1
    ensures forall i, t, u | 0 <= i < |states| && 0 <= t < u < |states[i]| :: states[i][t].held !! states[i][u].held
    ensures var last := states[|states| - 1];
      (forall s' :: !Step(last, s')) ==> forall t | 0 <= t < |last| :: last[t] == Thread(Done, {})
  {
    var vs := Leaves(work);
    StartsInv(states[0], work);
    forall i | 0 <= i < |states| ensures Inv(states[i], vs) { RunInv(states, vs, i); }
    RunInv(states, vs, |states| - 1);
    var last := states[|states| - 1];
    if forall s' :: !Step(last, s') {
      if exists t :: 0 <= t < |last| && last[t].prog != Done { NoDeadlock(last, vs); }
      forall t | 0 <= t < |last| ensures last[t] == Thread(Done, {}) { assert Disciplined(last[t].prog, last[t].held, vs[t]); }
    }
  }

  // ---------------------------------------------------------------- what the locks are for

  /** Are two threads about to use the same resource? */
  ghost predicate Clash(s: System) {
    exists t, u :: 0 <= t < u < |s| && s[t].prog.Access? && s[u].prog.Access? && s[t].prog.what == s[u].prog.what
  }

  /** What one thread uses without its lock no other thread uses. */
  ghost predicate Separate(work: seq<seq<Call>>) {
    forall t, u, c, d | 0 <= t < |work| && 0 <= u < |work| && t != u && c in work[t] && d in work[u] :: Bare(c) !! Uses(d)
  }

  /** In no run do two threads use the same resource of a file at the same time. */
  lemma NeverTwoAtOnce(work: seq<seq<Call>>, states: seq<System>, i: nat)
    requires Run(states) && Starts(states[0], work) && Separate(work) && i < |states|
    ensures !Clash(states[i])
  {
    var vs, s := Leaves(work), states[i];
    StartsInv(states[0], work);
    RunInv(states, vs, i);
    forall t, u | 0 <= t < u < |s| && s[t].prog.Access? && s[u].prog.Access? ensures s[t].prog.what != s[u].prog.what {
      assert Disciplined(s[t].prog, s[t].held, vs[t]) && Disciplined(s[u].prog, s[u].held, vs[u]);
      assert s[t].held !! s[u].held;
      BareApart(work, t, u);
      BareApart(work, u, t);
    }
  }

  lemma BareApart(work: seq<seq<Call>>, t: nat, u: nat)
    requires Separate(work) && t < |work| && u < |work| && t != u
    ensures LeaveFor(work[t]).bare !! LeaveFor(work[u]).uses
  {
  }

  // ---------------------------------------------------------------- what is really reached

  /** With what locks a resource is used: any, not the one that guards it, or none. */
  datatype How = Anyhow | Unguarded | Unlocked

  ghost predicate Fits(how: How, r: Resource, held: set<Lock>) {
    match how
    case Anyhow => true
    case Unguarded => Guard(r) !in held
    case Unlocked => held == {}
  }

  /** A thread that nobody is in the way of can get to a use of `r`. */
  ghost predicate Reaches(p: Prog, held: set<Lock>, r: Resource, how: How) {
    match p
    case Done => false
    case Acquire(l, k) => l !in held && Reaches(k, held + {l}, r, how)
    case Release(l, k) => Reaches(k, held - {l}, r, how)
    case Try(l, got, missed) => if l in held then Reaches(missed, held, r, how) else Reaches(got, held + {l}, r, how)
    case Access(x, k) => (x == r && Fits(how, r, held)) || Reaches(k, held, r, how)
    case Choose(a, b) => Reaches(a, held, r, how) || Reaches(b, held, r, how)
  }

  /** The locks of one block file that may be held when it is used for I/O. */
  ghost predicate Mine(f: File, held: set<Lock>) {
    held <= {Root(f), Cache(f)}
  }

  lemma {:induction false} EvictReaches(f: File, others: seq<File>, k: Prog, held: set<Lock>, o: File, r: Resource)
    requires o in others && o != f && {Root(o), Cache(o), Io(o)} !! held && r in {RootBlock(o), Blocks(o), Descriptor(o)}
    ensures Reaches(Evict(f, others, k), held, r, Anyhow)
  {
    if others[0] == o {
      OfflineReaches(o, Evict(f, others[1..], k), held, r);
    } else {
      EvictReaches(f, others[1..], k, held, o, r);
    }
  }

  lemma OfflineReaches(o: File, rest: Prog, held: set<Lock>, r: Resource)
    requires {Root(o), Cache(o), Io(o)} !! held && r in {RootBlock(o), Blocks(o), Descriptor(o)}
    ensures Reaches(EvictOne(o, rest), held, r, Anyhow)
  {
    var back1 := Release(Root(o), rest);
    var back2 := Release(Cache(o), back1);
    var p := Offline(o, Release(Io(o), back2));
    var h := held + {Root(o)} + {Cache(o)};
    assert Reaches(p, h + {Io(o)}, r, Anyhow) by {
      assert Reaches(Access(Descriptor(o), Access(BlockFiles, Release(Io(o), back2))), h + {Io(o)}, Descriptor(o), Anyhow);
    }
    assert Reaches(Try(Io(o), p, back2), h, r, Anyhow);
    assert Reaches(Try(Cache(o), Try(Io(o), p, back2), back1), held + {Root(o)}, r, Anyhow);
  }

  lemma UseReaches(f: File, others: seq<File>, ok: Prog, failed: Prog, held: set<Lock>, r: Resource, how: How)
    requires Mine(f, held) && Reaches(ok, held + {Io(f)}, r, how)
    ensures Reaches(Use(f, others, ok, failed), held, r, how)
  {
  }

  /** Opening the file itself uses its descriptor and may turn others offline. */
  lemma UseUses(f: File, others: seq<File>, ok: Prog, failed: Prog, held: set<Lock>, r: Resource)
    requires Mine(f, held) && r in {Descriptor(f)} + Evicted(f, others)
    ensures Reaches(Use(f, others, ok, failed), held, r, Anyhow)
  {
    if r != Descriptor(f) {
      var h := held + {Io(f)};
      var evict := Evict(f, others, Release(BlockList, ok));
      if r != BlockFiles { EvictReaches(f, others, Release(BlockList, ok), h + {BlockList}, r.file, r); }
      assert Reaches(Access(BlockFiles, evict), h + {BlockList}, r, Anyhow);
      assert Reaches(Choose(Release(Io(f), failed), Acquire(BlockList, Access(BlockFiles, evict))), h, r, Anyhow);
    }
  }

  lemma UnuseReaches(f: File, k: Prog, held: set<Lock>, r: Resource, how: How)
    requires Mine(f, held) && Reaches(k, held, r, how)
    ensures Reaches(Unuse(f, k), held + {Io(f)}, r, how)
  {
    var h := held + {Io(f)};
    assert h - {Io(f)} == held && h + {BlockList} - {BlockList} == h;
    assert Reaches(Release(Io(f), k), h, r, how);
    assert Reaches(Release(BlockList, Release(Io(f), k)), h + {BlockList}, r, how);
  }

  lemma SyncBlockReaches(f: File, others: seq<File>, k: Prog, held: set<Lock>, r: Resource, how: How)
    requires Mine(f, held) && (Reaches(k, held, r, how) || (how == Anyhow && r in {Descriptor(f)} + Evicted(f, others)))
    ensures Reaches(SyncBlock(f, others, k), held, r, how)
  {
    hide Use, Unuse;
    if Reaches(k, held, r, how) {
      UnuseReaches(f, k, held, r, how);
      UseReaches(f, others, Access(Descriptor(f), Unuse(f, k)), k, held, r, how);
    } else {
      UseUses(f, others, Access(Descriptor(f), Unuse(f, k)), k, held, r);
    }
  }

  lemma GetBlockReaches(f: File, others: seq<File>, k: Prog, held: set<Lock>, r: Resource, how: How)
    requires held <= {Root(f)}
    requires Reaches(k, held, r, how) || (how == Anyhow && r in {Blocks(f), Descriptor(f)} + Evicted(f, others))
    ensures Reaches(GetBlock(f, others, k), held, r, how)
  {
    hide Use;
    var h, end := held + {Cache(f)}, Release(Cache(f), k);
    var head := Access(Blocks(f), end);
    assert h - {Cache(f)} == held;
    var read := Access(Descriptor(f), Choose(Unuse(f, end), Access(Blocks(f), Access(Descriptor(f), Unuse(f, head)))));
    if Reaches(k, held, r, how) {
      assert Reaches(head, h, r, how);
      assert Reaches(Choose(head, Use(f, others, read, end)), h, r, how);
    } else if r != Blocks(f) {
      UseUses(f, others, read, end, h, r);
      assert Reaches(Choose(head, Use(f, others, read, end)), h, r, how);
    }
  }

  lemma CacheOnlyReaches(f: File, k: Prog, held: set<Lock>, r: Resource, how: How)
    requires held <= {Root(f)} && (Reaches(k, held, r, how) || (how == Anyhow && r == Blocks(f)))
    ensures Reaches(CacheOnly(f, k), held, r, how)
  {
    assert held + {Cache(f)} - {Cache(f)} == held;
    assert Reaches(k, held, r, how) ==> Reaches(Release(Cache(f), k), held + {Cache(f)}, r, how);
  }

  lemma BothGone(f: File, k: Prog, r: Resource, how: How)
    requires Reaches(k, {}, r, how)
    ensures Reaches(Release(Cache(f), Release(Root(f), k)), {Root(f), Cache(f)}, r, how)
  {
    assert {Root(f), Cache(f)} - {Cache(f)} == {Root(f)} && {Root(f)} - {Root(f)} == {};
  }

  lemma BothHeld(f: File, p: Prog, r: Resource, how: How)
    requires Reaches(p, {Root(f), Cache(f)}, r, how)
    ensures Reaches(Acquire(Root(f), Acquire(Cache(f), p)), {}, r, how)
  {
    assert {} + {Root(f)} + {Cache(f)} == {Root(f), Cache(f)};
  }

  lemma SyncAllReaches(f: File, others: seq<File>, k: Prog, r: Resource, how: How)
    requires Reaches(k, {}, r, how) || (how == Anyhow && r in {RootBlock(f), Blocks(f), Descriptor(f)} + Evicted(f, others))
    ensures Reaches(SyncAll(f, others, k), {}, r, how)
  {
    hide Use, Unuse;
    var h, end := {Root(f), Cache(f)}, Release(Cache(f), Release(Root(f), k));
    var write := Access(RootBlock(f), Access(Blocks(f), Access(Descriptor(f), Unuse(f, end))));
    if Reaches(k, {}, r, how) {
      BothGone(f, k, r, how);
      UnuseReaches(f, end, h, r, how);
      assert Reaches(Access(Blocks(f), Access(Descriptor(f), Unuse(f, end))), h + {Io(f)}, r, how);
      UseReaches(f, others, write, end, h, r, how);
    } else if r == RootBlock(f) || r == Blocks(f) {
      assert Reaches(write, h + {Io(f)}, r, how);
      UseReaches(f, others, write, end, h, r, how);
    } else {
      UseUses(f, others, write, end, h, r);
    }
    BothHeld(f, Use(f, others, write, end), r, how);
  }

  lemma TouchReaches(f: File, others: seq<File>, k: Prog, r: Resource, how: How)
    requires Reaches(k, {}, r, how) || (how == Anyhow && r in {RootBlock(f), Descriptor(f)} + Evicted(f, others))
    ensures Reaches(TouchIt(f, others, k), {}, r, how)
  {
    hide SyncBlock;
    var h, end := {Root(f), Cache(f)}, Release(Cache(f), Release(Root(f), k));
    if Reaches(k, {}, r, how) {
      BothGone(f, k, r, how);
    } else if r != RootBlock(f) {
      SyncBlockReaches(f, others, end, h, r, how);
    }
    var p := Access(RootBlock(f), Choose(end, SyncBlock(f, others, end)));
    assert Reaches(p, h, r, how);
    BothHeld(f, p, r, how);
  }

  lemma AroundReaches(l: Lock, x: Resource, k: Prog, held: set<Lock>, r: Resource, how: How)
    requires l !in held && (Reaches(k, held, r, how) || (how == Anyhow && r == x))
    ensures Reaches(Acquire(l, Access(x, Release(l, k))), held, r, how)
  {
    assert held + {l} - {l} == held;
    assert Reaches(k, held, r, how) ==> Reaches(Release(l, k), held + {l}, r, how);
  }

  lemma DisposeReaches(f: File, others: seq<File>, k: Prog, r: Resource, how: How)
    requires Reaches(k, {}, r, how) || r in {Blocks(f), Descriptor(f)}
      || (how == Anyhow && r in {RootBlock(f)} + Evicted(f, others))
    ensures Reaches(Dispose(f, others, k), {}, r, how)
  {
    hide CacheOnly, SyncAll;
    var close := Access(Descriptor(f), k);
    var free := Access(Blocks(f), Choose(close, CacheOnly(f, close)));
    var end := Acquire(BlockList, Access(BlockFiles, Release(BlockList, free)));
    if Reaches(k, {}, r, how) || r in {Blocks(f), Descriptor(f)} {
      assert Reaches(Choose(close, CacheOnly(f, close)), {}, r, how) || r == Blocks(f);
      assert Reaches(free, {}, r, how);
      AroundReaches(BlockList, BlockFiles, free, {}, r, how);
    } else {
      SyncAllReaches(f, others, end, r, how);
    }
  }

  lemma ValidateReaches(f: File, others: seq<File>, failed: Prog, k: Prog, r: Resource, how: How)
    requires Reaches(k, {}, r, how) || r in {RootBlock(f), Descriptor(f)}
    ensures Reaches(Validate(f, others, failed, k), {}, r, how)
  {
    hide Use, TouchIt;
    var write := Use(f, others, Access(Descriptor(f), Choose(Unuse(f, k), Unuse(f, failed))), failed);
    var p := Choose(k, Access(RootBlock(f), TouchIt(f, others, write)));
    assert Reaches(k, {}, r, how) ==> Reaches(p, {}, r, how);
    assert Reaches(Access(Descriptor(f), p), {}, r, how) || r == RootBlock(f);
  }

  lemma OpeningReaches(f: File, others: seq<File>, k: Prog, r: Resource, how: How)
    requires Reaches(k, {}, r, how) || r in {RootBlock(f), Blocks(f), Descriptor(f)}
      || (how == Anyhow && r in Evicted(f, others))
    ensures Reaches(Opening(f, others, k), {}, r, how)
  {
    hide GetBlock, CacheOnly, Validate, Dispose;
    var failed := Dispose(f, others, k);
    var valid := Validate(f, others, failed, k);
    var got := Choose(failed, CacheOnly(f, valid));
    if Reaches(k, {}, r, how) || r in {RootBlock(f), Descriptor(f)} {
      ValidateReaches(f, others, failed, k, r, how);
      CacheOnlyReaches(f, valid, {}, r, how);
    } else if r == Blocks(f) {
      DisposeReaches(f, others, k, r, how);
    }
    assert Reaches(got, {}, r, how) || (how == Anyhow && r in Evicted(f, others));
    GetBlockReaches(f, others, got, {}, r, how);
    AroundReaches(BlockList, BlockFiles, GetBlock(f, others, got), {}, r, how);
  }

  lemma AllocateReaches(f: File, others: seq<File>, k: Prog, r: Resource, how: How)
    requires Reaches(k, {}, r, how) || (how == Anyhow && r in {RootBlock(f), Blocks(f), Descriptor(f)} + Evicted(f, others))
    ensures Reaches(Allocate(f, others, k), {}, r, how)
  {
    hide GetBlock;
    var h, end := {} + {Root(f)}, Release(Root(f), k);
    assert h - {Root(f)} == {};
    var set_ := Choose(end, Access(RootBlock(f), end));
    assert Reaches(k, {}, r, how) ==> Reaches(set_, h, r, how);
    if r != RootBlock(f) || how != Anyhow { GetBlockReaches(f, others, set_, h, r, how); }
    assert Reaches(Access(RootBlock(f), GetBlock(f, others, set_)), h, r, how);
  }

  lemma GiveUpReaches(f: File, others: seq<File>, k: Prog, r: Resource, how: How)
    requires Reaches(k, {}, r, how) || (how == Anyhow && r in {RootBlock(f), Blocks(f), Descriptor(f)} + Evicted(f, others))
    ensures Reaches(GiveUp(f, others, k), {}, r, how)
  {
    hide GetBlock, CacheOnly;
    var link := Acquire(Root(f), Access(RootBlock(f), CacheOnly(f, Release(Root(f), k))));
    assert r == RootBlock(f) && how == Anyhow ==> Reaches(link, {}, r, how);
    GetBlockReaches(f, others, Choose(k, link), {}, r, how);
  }

  lemma UnlinkReaches(x: Resource, list: Resource, k: Prog, r: Resource, how: How)
    requires Guard(x) != Guard(list) && (Reaches(k, {}, r, how) || (how == Anyhow && r in {x, list}))
    ensures var end := Release(Guard(x), k);
      Reaches(Acquire(Guard(x), Access(x, Choose(end,
        Acquire(Guard(list), Access(list, Release(Guard(list), Access(x, end))))))), {}, r, how)
  {
    var h, end := {} + {Guard(x)}, Release(Guard(x), k);
    assert h - {Guard(x)} == {};
    var close := Acquire(Guard(list), Access(list, Release(Guard(list), Access(x, end))));
    assert Reaches(k, {}, r, how) ==> Reaches(end, h, r, how);
    assert how == Anyhow && r == list ==> Reaches(close, h, r, how);
    assert Reaches(Choose(end, close), h, r, how) || (how == Anyhow && r == x);
  }

  // ---------------------------------------------------------------- key files

  lemma {:induction false} EvictKeysReaches(f: File, others: seq<File>, k: Prog, held: set<Lock>, o: File)
    requires o in others && o != f && Key(o) !in held
    ensures Reaches(EvictKeys(f, others, k), held, Stream(o), Anyhow)
  {
    if others[0] == o {
      var rest := EvictKeys(f, others[1..], k);
      assert Reaches(Try(Key(o), Access(Stream(o), Access(KeyFiles, Release(Key(o), rest))), rest), held, Stream(o), Anyhow);
    } else {
      EvictKeysReaches(f, others[1..], k, held, o);
    }
  }

  lemma KeyUseReaches(f: File, others: seq<File>, ok: Prog, failed: Prog, r: Resource, how: How)
    requires Reaches(ok, {Key(f)}, r, how) || (how == Anyhow && r in {Stream(f)} + KeysEvicted(f, others))
    ensures Reaches(KeyUse(f, others, ok, failed), {}, r, how)
  {
    var h := {} + {Key(f)};
    assert h == {Key(f)};
    var evict := EvictKeys(f, others, Release(KeyList, ok));
    var open := Choose(Release(Key(f), failed), Acquire(KeyList, Access(KeyFiles, evict)));
    if !Reaches(ok, h, r, how) && r != Stream(f) {
      if r != KeyFiles { EvictKeysReaches(f, others, Release(KeyList, ok), h + {KeyList}, r.file); }
      assert Reaches(Access(KeyFiles, evict), h + {KeyList}, r, Anyhow);
      assert Reaches(open, h, r, Anyhow);
    }
    assert Reaches(Choose(ok, open), h, r, how) || (how == Anyhow && r == Stream(f));
  }

  lemma KeyUnuseReaches(f: File, k: Prog, r: Resource, how: How)
    requires Reaches(k, {}, r, how)
    ensures Reaches(KeyUnuse(f, k), {Key(f)}, r, how)
  {
    assert {Key(f)} - {Key(f)} == {};
    assert Reaches(Release(Key(f), k), {Key(f)}, r, how);
    AroundReaches(KeyList, KeyFiles, Release(Key(f), k), {Key(f)}, r, how);
  }

  lemma KeyDisposeReaches(f: File, k: Prog, r: Resource, how: How)
    requires Reaches(k, {}, r, how) || (how == Anyhow && r == KeyFiles) || (how != Unlocked && r == Stream(f))
    ensures Reaches(KeyDispose(f, k), {}, r, how)
  {
    var h, end := {} + {KeyList}, Release(KeyList, k);
    assert h - {KeyList} == {};
    assert Reaches(Choose(end, Access(Stream(f), end)), h, r, how) || (how == Anyhow && r == KeyFiles);
  }

  lemma KeyOpeningReaches(f: File, others: seq<File>, k: Prog, r: Resource, how: How)
    requires Reaches(k, {}, r, how) || (how == Anyhow && r in KeysEvicted(f, others)) || (how != Unlocked && r == Stream(f))
    ensures Reaches(KeyOpening(f, others, k), {}, r, how)
  {
    hide KeyUse, KeyUnuse, KeyDispose;
    var failed := KeyDispose(f, k);
    var ok := Access(Stream(f), KeyUnuse(f, Choose(k, failed)));
    if Reaches(k, {}, r, how) || r == Stream(f) {
      if r == Stream(f) && how != Unlocked { KeyDisposeReaches(f, k, r, how); }
      assert Reaches(Choose(k, failed), {}, r, how);
      KeyUnuseReaches(f, Choose(k, failed), r, how);
      assert Reaches(ok, {Key(f)}, r, how);
    }
    KeyUseReaches(f, others, ok, failed, r, how);
    AroundReaches(KeyList, KeyFiles, KeyUse(f, others, ok, failed), {}, r, how);
  }

  lemma KeyReadWriteReaches(f: File, others: seq<File>, k: Prog, r: Resource)
    requires r in {Stream(f)} + KeysEvicted(f, others)
    ensures Reaches(KeyUse(f, others, Access(Stream(f), KeyUnuse(f, k)), k), {}, r, Anyhow)
  {
    hide KeyUse, KeyUnuse;
    KeyUseReaches(f, others, Access(Stream(f), KeyUnuse(f, k)), k, r, Anyhow);
  }

  // ---------------------------------------------------------------- the table is exact

  /** Every call can use what `Uses` says, can use without the lock what `Bare` says, and comes to its
      end. */
  lemma BodyReaches(c: Call, k: Prog, r: Resource, how: How)
    requires Reaches(k, {}, r, how) || (how == Anyhow && r in Uses(c))
      || (r in Bare(c) && (how == Unguarded || (how == Unlocked && !c.KeyNew? && !c.KeyFinalise?)))
    ensures Reaches(Body(c, k), {}, r, how)
  {
    hide Reaches, GetBlock, CacheOnly, SyncAll, SyncBlock, TouchIt, Dispose, Opening, Allocate, GiveUp, KeyUse, KeyUnuse, KeyDispose,
      KeyOpening, Evicted, KeysEvicted;
    match c
    case New(f, others) => OpeningReaches(f, others, k, r, how);
    case NewBlock(f, others) => AllocateReaches(f, others, k, r, how);
    case FreeBlock(f, others) => GiveUpReaches(f, others, k, r, how);
    case Get(f, others) =>
      if !Reaches(k, {}, r, how) { GetBlockReaches(f, others, k, {}, r, how); }
      EitherReaches(k, GetBlock(f, others, k), r, how);
    case Detach(f) => CacheOnlyReaches(f, k, {}, r, how);
    case Touch(f, others) => TouchReaches(f, others, k, r, how);
    case SyncOne(f, others) => SyncBlockReaches(f, others, k, {}, r, how);
    case Sync(f, others) => SyncAllReaches(f, others, k, r, how);
    case Rename(f) => AroundReaches(Io(f), Descriptor(f), k, {}, r, how);
    case Delete(f) => UnlinkReaches(Descriptor(f), BlockFiles, k, r, how);
    case Finalise(f, others) => DisposeReaches(f, others, k, r, how);
    case KeyNew(f, others) => KeyOpeningReaches(f, others, k, r, how);
    case KeyReadWrite(f, others) =>
      if !Reaches(k, {}, r, how) { KeyReadWriteReaches(f, others, k, r); }
      EitherReaches(k, KeyUse(f, others, Access(Stream(f), KeyUnuse(f, k)), k), r, how);
    case KeyRename(f) => AroundReaches(Key(f), Stream(f), k, {}, r, how);
    case KeyDelete(f) => UnlinkReaches(Stream(f), KeyFiles, k, r, how);
    case KeyFinalise(f) => KeyDisposeReaches(f, k, r, how);
  }

  lemma EitherReaches(a: Prog, b: Prog, r: Resource, how: How)
    requires Reaches(a, {}, r, how) || Reaches(b, {}, r, how)
    ensures Reaches(Choose(a, b), {}, r, how)
  {
  }

  lemma {:induction false} ReachedIsAllowed(p: Prog, held: set<Lock>, v: Leave, r: Resource)
    requires Disciplined(p, held, v)
    ensures Reaches(p, held, r, Anyhow) ==> r in v.uses
    ensures Reaches(p, held, r, Unguarded) ==> r in v.bare
  {
    match p
    case Done =>
    case Acquire(l, k) => ReachedIsAllowed(k, held + {l}, v, r);
    case Release(l, k) => ReachedIsAllowed(k, held - {l}, v, r);
    case Try(l, got, missed) =>
      if l !in held { ReachedIsAllowed(got, held + {l}, v, r); }
      ReachedIsAllowed(missed, held, v, r);
    case Access(x, k) => ReachedIsAllowed(k, held, v, r);
    case Choose(a, b) =>
      ReachedIsAllowed(a, held, v, r);
      ReachedIsAllowed(b, held, v, r);
  }

  /** A call can use exactly the resources of `Uses`, and exactly those of `Bare` without their lock. */
  lemma TableIsExact(c: Call, r: Resource)
    ensures Reaches(Body(c, Done), {}, r, Anyhow) <==> r in Uses(c)
    ensures Reaches(Body(c, Done), {}, r, Unguarded) <==> r in Bare(c)
  {
    var v := Leave(Uses(c), Bare(c));
    BodyDisciplined(c, Done, v);
    ReachedIsAllowed(Body(c, Done), {}, v, r);
    if r in Uses(c) { BodyReaches(c, Done, r, Anyhow); }
    if r in Bare(c) { BodyReaches(c, Done, r, Unguarded); }
  }

  // ---------------------------------------------------------------- opening a file

  ghost predicate Alone(s: System, t: nat) {
    forall u | 0 <= u < |s| && u != t :: s[u].held == {}
  }

  /** As long as the others hold no lock, thread `t` gets where it can get. */
  lemma {:induction false} RunTo(s: System, t: nat, r: Resource, how: How) returns (states: seq<System>)
    requires t < |s| && Alone(s, t) && Reaches(s[t].prog, s[t].held, r, how)
    ensures Run(states) && states[0] == s
    ensures var last := states[|states| - 1];
      && |last| == |s| && last[t].prog.Access? && last[t].prog.what == r && Fits(how, r, last[t].held)
      && forall u | 0 <= u < |s| && u != t :: last[u] == s[u]
    decreases Size(s[t].prog)
  {
    var p, held := s[t].prog, s[t].held;
    if p.Access? && p.what == r && Fits(how, r, held) {
      return [s];
    }
    var next := match p
      case Acquire(l, k) => Thread(k, held + {l})
      case Release(l, k) => Thread(k, held - {l})
      case Try(l, got, missed) => if l in held then Thread(missed, held) else Thread(got, held + {l})
      case Access(x, k) => Thread(k, held)
      case Choose(a, b) => if Reaches(a, held, r, how) then Thread(a, held) else Thread(b, held)
      case Done => Thread(Done, held);
    assert Moves(s, t, next) by { AloneFree(s, t); }
    var s' := s[t := next];
    assert Step(s, s');
    var rest := RunTo(s', t, r, how);
    states := [s] + rest;
    RunLonger(s, rest);
  }

  lemma AloneFree(s: System, t: nat)
    requires t < |s| && Alone(s, t)
    ensures forall l :: Free(s, l) <==> l !in s[t].held
  {
  }

  lemma RunLonger(s: System, rest: seq<System>)
    requires Run(rest) && Step(s, rest[0])
    ensures Run([s] + rest)
  {
  }

  lemma RunsJoin(a: seq<System>, b: seq<System>)
    requires Run(a) && Run(b) && a[|a| - 1] == b[0]
    ensures Run(a + b[1..]) && (a + b[1..])[0] == a[0] && (a + b[1..])[|a + b[1..]| - 1] == b[|b| - 1]
  {
    var c := a + b[1..];
    forall i | 0 <= i < |c| - 1 ensures Step(c[i], c[i + 1]) {
      if i >= |a| - 1 { assert c[i] == b[i - |a| + 1] && c[i + 1] == b[i - |a| + 2]; }
    }
  }

  lemma {:induction false} CallsReach(cs: seq<Call>, i: nat, r: Resource, how: How)
    requires i < |cs|
    requires (how == Anyhow && r in Uses(cs[i])) || (how == Unlocked && r in Bare(cs[i]) && !cs[i].KeyNew? && !cs[i].KeyFinalise?)
    ensures Reaches(Calls(cs), {}, r, how)
  {
    hide Reaches, Body, Uses, Bare;
    if i > 0 { CallsReach(cs[1..], i - 1, r, how); }
    BodyReaches(cs[0], Calls(cs[1..]), r, how);
  }

  /** The files that a call may turn offline on the way. */
  function Others(c: Call): seq<File> {
    match c
    case New(_, others) => others
    case NewBlock(_, others) => others
    case FreeBlock(_, others) => others
    case Get(_, others) => others
    case Touch(_, others) => others
    case SyncOne(_, others) => others
    case Sync(_, others) => others
    case Finalise(_, others) => others
    case _ => []
  }

  /** Two threads, one of which opens a file that the other turns offline, can meet at its root block:
      camel_block_file_new looks at it, and at the size of the file, without the locks. */
  lemma OpeningRaces(work: seq<seq<Call>>, s: System, t: nat, u: nat, c: Call, d: Call) returns (states: seq<System>)
    requires Starts(s, work) && t < |work| && u < |work| && t != u && c in work[t] && d in work[u]
    requires c.New? && c.f in Others(d) && c.f != d.f
    ensures Run(states) && states[0] == s && Clash(states[|states| - 1])
  {
    var r := RootBlock(c.f);
    var i :| 0 <= i < |work[t]| && work[t][i] == c;
    var j :| 0 <= j < |work[u]| && work[u][j] == d;
    CallsReach(work[t], i, r, Unlocked);
    CallsReach(work[u], j, r, Anyhow);
    var a := RunTo(s, t, r, Unlocked);
    var b := RunTo(a[|a| - 1], u, r, Anyhow);
    RunsJoin(a, b);
    states := a + b[1..];
    var last := states[|states| - 1];
    assert last[t] == a[|a| - 1][t];
    assert Clash(last) by {
      if t < u { assert last[t].prog.what == last[u].prog.what; } else { assert last[u].prog.what == last[t].prog.what; }
    }
  }

  /** Nobody uses a file that another thread opens, but for turning it offline, and no file is closed. */
  ghost predicate Sensible(work: seq<seq<Call>>) {
    && (forall t, c | 0 <= t < |work| && c in work[t] :: !c.Finalise? && !c.KeyNew? && !c.KeyFinalise?)
    && forall t, u, c, d | 0 <= t < |work| && 0 <= u < |work| && t != u && c in work[t] && d in work[u] && c.New? :: c.f != d.f
  }

  lemma OpensApart(c: Call, d: Call)
    requires !c.Finalise? && !c.KeyNew? && !c.KeyFinalise? && (c.New? ==> c.f != d.f && c.f !in Others(d))
    ensures Bare(c) !! Uses(d)
  {
  }

  /** One thread opens a file that another turns offline. */
  ghost predicate Meeting(work: seq<seq<Call>>, t: nat, u: nat, c: Call, d: Call) {
    t < |work| && u < |work| && t != u && c in work[t] && d in work[u] && c.New? && c.f in Others(d)
  }

  /** Such threads can meet if and only if one of them opens a file that another turns offline. */
  lemma MeetIff(work: seq<seq<Call>>, s: System)
    requires Starts(s, work) && Sensible(work)
    ensures (exists states :: Run(states) && states[0] == s && Clash(states[|states| - 1])) <==>
            exists t, u, c, d :: Meeting(work, t, u, c, d)
  {
    hide Clash, Uses, Bare, Calls;
    if t, u, c, d :| Meeting(work, t, u, c, d) {
      var states := OpeningRaces(work, s, t, u, c, d);
    } else {
      forall t, u, c, d | 0 <= t < |work| && 0 <= u < |work| && t != u && c in work[t] && d in work[u] ensures Bare(c) !! Uses(d) {
        assert !Meeting(work, t, u, c, d);
        OpensApart(c, d);
      }
      forall states | Run(states) && states[0] == s ensures !Clash(states[|states| - 1]) {
        NeverTwoAtOnce(work, states, |states| - 1);
      }
    }
  }

  // ---------------------------------------------------------------- in one hold

  function Most(a: nat, b: nat): nat {
    if a < b then b else a
  }

  /** How often a lock is taken at most. */
  function Taken(p: Prog, l: Lock): nat {
    match p
    case Done => 0
    case Acquire(m, k) => (if m == l then 1 else 0) + Taken(k, l)
    case Release(m, k) => Taken(k, l)
    case Try(m, got, missed) => Most((if m == l then 1 else 0) + Taken(got, l), Taken(missed, l))
    case Access(r, k) => Taken(k, l)
    case Choose(a, b) => Most(Taken(a, l), Taken(b, l))
  }

  lemma {:induction false} EvictTaken(f: File, others: seq<File>, k: Prog, l: Lock)
    requires l == Root(f) || l == Cache(f)
    ensures Taken(Evict(f, others, k), l) == Taken(k, l)
  {
    if others != [] {
      EvictTaken(f, others[1..], k, l);
      if others[0] != f { EvictOneTaken(f, others[0], Evict(f, others[1..], k), l); }
    }
  }

  lemma EvictOneTaken(f: File, o: File, rest: Prog, l: Lock)
    requires o != f && (l == Root(f) || l == Cache(f))
    ensures Taken(EvictOne(o, rest), l) == Taken(rest, l)
  {
    var back1 := Release(Root(o), rest);
    var back2 := Release(Cache(o), back1);
    var p := Offline(o, Release(Io(o), back2));
    assert Taken(back1, l) == Taken(rest, l) && Taken(Release(Io(o), back2), l) == Taken(rest, l);
    assert Taken(Access(Descriptor(o), Access(BlockFiles, Release(Io(o), back2))), l) == Taken(rest, l);
    assert Taken(p, l) == Taken(rest, l);
    assert Taken(Try(Io(o), p, back2), l) == Taken(rest, l);
    assert Taken(Try(Cache(o), Try(Io(o), p, back2), back1), l) == Taken(rest, l);
  }

  lemma AcquireTaken(m: Lock, k: Prog, l: Lock)
    ensures Taken(Acquire(m, k), l) == (if m == l then 1 else 0) + Taken(k, l)
    ensures Taken(Release(m, k), l) == Taken(k, l)
    ensures forall r :: Taken(Access(r, k), l) == Taken(k, l)
  {
  }

  lemma ChooseTaken(a: Prog, b: Prog, l: Lock)
    ensures Taken(Choose(a, b), l) == Most(Taken(a, l), Taken(b, l))
  {
  }

  lemma UseTaken(f: File, others: seq<File>, ok: Prog, failed: Prog, l: Lock)
    requires l == Root(f) || l == Cache(f)
    ensures Taken(Use(f, others, ok, failed), l) == Most(Taken(ok, l), Taken(failed, l))
  {
    hide Evict, Taken;
    var evict := Evict(f, others, Release(BlockList, ok));
    EvictTaken(f, others, Release(BlockList, ok), l);
    AcquireTaken(BlockList, ok, l);
    AcquireTaken(BlockList, evict, l);
    AcquireTaken(BlockList, Access(BlockFiles, evict), l);
    AcquireTaken(Io(f), failed, l);
    var open := Choose(Release(Io(f), failed), Acquire(BlockList, Access(BlockFiles, evict)));
    ChooseTaken(Release(Io(f), failed), Acquire(BlockList, Access(BlockFiles, evict)), l);
    ChooseTaken(ok, open, l);
    AcquireTaken(Io(f), Choose(ok, open), l);
    AcquireTaken(Io(f), Access(Descriptor(f), Choose(ok, open)), l);
  }

  lemma UnuseTaken(f: File, k: Prog, l: Lock)
    requires l == Root(f) || l == Cache(f)
    ensures Taken(Unuse(f, k), l) == Taken(k, l)
  {
    assert Taken(Release(BlockList, Release(Io(f), k)), l) == Taken(k, l);
  }

  lemma GetBlockTaken(f: File, others: seq<File>, k: Prog, l: Lock)
    requires l == Root(f) || l == Cache(f)
    ensures Taken(GetBlock(f, others, k), l) == (if l == Cache(f) then 1 else 0) + Taken(k, l)
  {
    hide Use, Unuse;
    var end := Release(Cache(f), k);
    var head := Access(Blocks(f), end);
    UnuseTaken(f, end, l);
    UnuseTaken(f, head, l);
    var enter := Access(Blocks(f), Access(Descriptor(f), Unuse(f, head)));
    assert Taken(head, l) == Taken(k, l) == Taken(enter, l);
    var read := Access(Descriptor(f), Choose(Unuse(f, end), enter));
    assert Taken(read, l) == Taken(k, l);
    UseTaken(f, others, read, end, l);
    assert Taken(Choose(head, Use(f, others, read, end)), l) == Taken(k, l);
  }

  /** Looking a block up, reading it and entering it happen in one hold of the cache lock, and so do the
      reading and changing of the root block when a block is allocated, in one hold of its lock. */
  lemma InOneHold(f: File, others: seq<File>)
    ensures Taken(Body(Get(f, others), Done), Cache(f)) == 1
    ensures Taken(Body(NewBlock(f, others), Done), Root(f)) == 1 && Taken(Body(NewBlock(f, others), Done), Cache(f)) == 1
  {
    hide GetBlock;
    GetBlockTaken(f, others, Done, Cache(f));
    var end := Release(Root(f), Done);
    var set_ := Choose(end, Access(RootBlock(f), end));
    GetBlockTaken(f, others, set_, Root(f));
    GetBlockTaken(f, others, set_, Cache(f));
    assert Taken(end, Root(f)) == 0 && Taken(end, Cache(f)) == 0;
    assert Taken(set_, Root(f)) == 0 && Taken(set_, Cache(f)) == 0;
  }
}
