/** The key file: record lists appended to one file, each linked to the one written before it for
    the same key, so that many chains run backwards through the file. */
module KeyFile {
  import opened Basics
  import opened SeqFacts
  import opened BlockStore

  type Byte = x: nat | x < 256

  const READ_LIMIT: nat := 1024
  const HEADER: nat := 8

  // ---------------------------------------------------------------- words in bytes

  function Bytes(w: Word): (b: seq<Byte>)
    ensures |b| == 4
  {
    [w % 256, w / 0x100 % 256, w / 0x1_0000 % 256, w / 0x100_0000]
  }

  function WordAt(data: seq<Byte>, pos: nat): Word
    requires pos + 4 <= |data|
  {
    data[pos] as nat + data[pos + 1] as nat * 0x100 + data[pos + 2] as nat * 0x1_0000 + data[pos + 3] as nat * 0x100_0000
  }

  lemma WordBack(w: Word, pre: seq<Byte>, post: seq<Byte>)
    ensures WordAt(pre + Bytes(w) + post, |pre|) == w
  {
    var data := pre + Bytes(w) + post;
    assert forall i | 0 <= i < 4 :: data[|pre| + i] == Bytes(w)[i];
  }

  function AllBytes(ws: seq<Word>): (b: seq<Byte>)
    ensures |b| == 4 * |ws|
  {
    if ws == [] then [] else Bytes(ws[0]) + AllBytes(ws[1..])
  }

  function WordsAt(data: seq<Byte>, pos: nat, n: nat): (ws: seq<Word>)
    requires pos + 4 * n <= |data|
    ensures |ws| == n
    decreases n
  {
    if n == 0 then [] else [WordAt(data, pos)] + WordsAt(data, pos + 4, n - 1)
  }

  lemma {:induction false} WordsBack(ws: seq<Word>, pre: seq<Byte>, post: seq<Byte>)
    ensures WordsAt(pre + AllBytes(ws) + post, |pre|, |ws|) == ws
    decreases |ws|
  {
    if ws != [] {
      var data := pre + AllBytes(ws) + post;
      assert data == pre + Bytes(ws[0]) + (AllBytes(ws[1..]) + post);
      WordBack(ws[0], pre, AllBytes(ws[1..]) + post);
      assert data == (pre + Bytes(ws[0])) + AllBytes(ws[1..]) + post;
      WordsBack(ws[1..], pre + Bytes(ws[0]), post);
    }
  }

  /** What lies behind does not matter. */
  lemma {:induction false} WordsFrame(data: seq<Byte>, more: seq<Byte>, pos: nat, n: nat)
    requires pos + 4 * n <= |data|
    ensures WordsAt(data + more, pos, n) == WordsAt(data, pos, n)
    decreases n
  {
    if n > 0 { WordsFrame(data, more, pos + 4, n - 1); }
  }

  // ---------------------------------------------------------------- records and chains

  /** What one write appends; the count is cut to 32 bits. */
  function Record(parent: Word, records: seq<Word>): (b: seq<Byte>)
    ensures |b| == 8 + 4 * |records|
  {
    Bytes(parent) + Bytes(|records| % WORD_LIMIT) + AllBytes(records)
  }

  ghost predicate RecordAt(data: seq<Byte>, pos: nat, next: Word, records: seq<Word>) {
    && pos + 8 + 4 * |records| <= |data| && WordAt(data, pos) == next && WordAt(data, pos + 4) == |records|
    && WordsAt(data, pos + 8, |records|) == records
  }

  /** `lists` are the record lists of the chain that starts at `head`, newest first; every link
      leads further back. */
  ghost predicate Chain(data: seq<Byte>, head: nat, lists: seq<seq<Word>>)
    decreases |lists|
  {
    if lists == [] then head == 0
    else head != 0 && exists next: Word ::
           RecordAt(data, head, next, lists[0]) && next < head && Chain(data, next, lists[1..])
  }

  lemma RecordIsThere(data: seq<Byte>, parent: Word, records: seq<Word>)
    requires |records| < WORD_LIMIT
    ensures RecordAt(data + Record(parent, records), |data|, parent, records)
  {
    var n := Bytes(|records|);
    var whole := data + Record(parent, records);
    assert whole == data + Bytes(parent) + (n + AllBytes(records));
    WordBack(parent, data, n + AllBytes(records));
    assert whole == (data + Bytes(parent)) + n + AllBytes(records);
    WordBack(|records|, data + Bytes(parent), AllBytes(records));
    assert whole == (data + Bytes(parent) + n) + AllBytes(records) + [];
    WordsBack(records, data + Bytes(parent) + n, []);
  }

  /** Appending keeps every chain there is. */
  lemma {:induction false} ChainFrame(data: seq<Byte>, more: seq<Byte>, head: nat, lists: seq<seq<Word>>)
    requires Chain(data, head, lists)
    ensures Chain(data + more, head, lists)
    decreases |lists|
  {
    if lists != [] {
      var next: Word :| RecordAt(data, head, next, lists[0]) && next < head && Chain(data, next, lists[1..]);
      WordsFrame(data, more, head + 8, |lists[0]|);
      assert RecordAt(data + more, head, next, lists[0]);
      ChainFrame(data, more, next, lists[1..]);
    }
  }

  /** The file determines the chain. */
  lemma {:induction false} ChainUnique(data: seq<Byte>, head: nat, a: seq<seq<Word>>, b: seq<seq<Word>>)
    requires Chain(data, head, a) && Chain(data, head, b)
    ensures a == b
    decreases |a|
  {
    if a != [] {
      ChainUnique(data, WordAt(data, head), a[1..], b[1..]);
      assert a == [a[0]] + a[1..] && b == [b[0]] + b[1..];
    }
  }

  /** A list written with the head of a chain as its parent heads that chain. */
  lemma ChainGrows(data: seq<Byte>, parent: Word, records: seq<Word>, lists: seq<seq<Word>>)
    requires 0 < |data| && 0 < |records| < WORD_LIMIT && Chain(data, parent, lists)
    ensures Chain(data + Record(parent, records), |data|, [records] + lists)
  {
    ChainFrame(data, Record(parent, records), parent, lists);
    RecordIsThere(data, parent, records);
    assert ([records] + lists)[1..] == lists && parent < |data|;
    assert RecordAt(data + Record(parent, records), |data|, parent, ([records] + lists)[0]);
  }

  /** A size_t as an int. */
  function AsInt(n: nat): int {
    var m := n % WORD_LIMIT;
    if m < 0x8000_0000 then m else m - WORD_LIMIT
  }

  /** What a write that did not succeed may have left behind. */
  ghost predicate PartWritten(data: seq<Byte>, data': seq<Byte>, parent: Word, records: seq<Word>) {
    exists n :: 0 <= n <= |Record(parent, records)| && data' == data + Record(parent, records)[..n]
  }

  /** The record at `start` can be read. */
  predicate Readable(data: seq<Byte>, start: nat) {
    start + 8 <= |data| && WordAt(data, start + 4) <= READ_LIMIT && start + 8 + 4 * WordAt(data, start + 4) <= |data|
  }

  // ---------------------------------------------------------------- the operations

  class KeyFile {
    var data: seq<Byte>
    var last: nat
    ghost var failures: nat  // calls to open or write the file that have failed

    /** camel_key_file_new, on a file with the content `data`; the header is written if there is none. */
    constructor (data: seq<Byte>, version: seq<Byte>)
      requires |version| == HEADER
      ensures this.data == (if data == [] then version else data) && last == |this.data| && failures == 0
    {
      this.data := if data == [] then version else data;
      last := if data == [] then HEADER else |data|;
      failures := 0;
    }

    /** key_file_use: the file may have to be opened again, which can fail. */
    method Use() returns (ok: bool)
      modifies this`failures
      ensures failures == old(failures) + if ok then 0 else 1
    {
      ok := *;
      if !ok { failures := failures + 1; }
    }

    /** fwrite at the end of the file, of which a part may be written if it fails. */
    method Put(t: seq<Byte>) returns (ok: bool)
      modifies this`data, this`failures
      ensures failures == old(failures) + if ok then 0 else 1
      ensures ok ==> data == old(data) + t
      ensures exists n :: 0 <= n <= |t| && data == old(data) + t[..n]
    {
      ok := *;
      if ok {
        assert t == t[..|t|];
        data := data + t;
      } else {
        failures := failures + 1;
        var n :| 0 <= n <= |t|;
        data := data + t[..n];
      }
    }

    /** camel_key_file_write.  The file is open for appending: what is written goes to its end.  A
        write that fails may have written some bytes.  `done` says whether it succeeded. */
    method Write(parent: Word, records: seq<Word>) returns (ret: int, parent': Word, ghost done: bool)
      modifies this
      ensures failures >= old(failures) && (done <==> failures == old(failures))
      ensures records == [] ==> done && ret == 0 && parent' == parent && data == old(data) && last == old(last)
      ensures !done ==> ret == -1 && parent' == parent && last == old(last)
      ensures !done ==> PartWritten(old(data), data, parent, records)
      ensures done ==> ret == AsInt(|records|)
      ensures done && records != [] ==>
        data == old(data) + Record(parent, records) && last == |data| && parent' == old(last) % WORD_LIMIT
    {
      if records == [] {
        return 0, parent, true;
      }
      var used := Use();
      if !used {
        assert data + Record(parent, records)[..0] == data;
        return -1, parent, false;
      }
      var next: Word := last % WORD_LIMIT;
      var ok := Put(Record(parent, records));
      if !ok {
        return -1, parent, false;
      }
      last := |data|;
      return AsInt(|records|), next, true;
    }

    /** camel_key_file_read, asked for the records.  `usable` says whether the file could be used. */
    method Read(start: Word) returns (ret: int, start': Word, records: seq<Word>, ghost usable: bool)
      modifies this`failures
      ensures failures >= old(failures) && (usable <==> failures == old(failures))
      ensures ret == if start == 0 || (usable && Readable(data, start)) then 0 else -1
      ensures start == 0 || ret == -1 ==> start' == start && records == []
      ensures ret == 0 && start != 0 ==> RecordAt(data, start, start', records)
    {
      ret, start', records, usable := -1, start, [], true;
      if start == 0 {
        return 0, start, [], true;
      }
      var used := Use();
      usable := used;
      if used && start + 8 <= |data| {
        var next, size := WordAt(data, start), WordAt(data, start + 4);
        if size <= READ_LIMIT && start + 8 + 4 * size <= |data| {
          return 0, next, WordsAt(data, start + 8, size), used;
        }
      }
    }

    /** A reader follows a chain to its end.  It gets the lists of the chain, newest first, and gets
        to the end exactly when the file can be used and no list is too long to be read. */
    method ReadChain(head: Word, ghost lists: seq<seq<Word>>) returns (ok: bool, read: seq<seq<Word>>, ghost usable: bool)
      requires Chain(data, head, lists)
      modifies this`failures
      ensures failures >= old(failures) && (usable <==> failures == old(failures))
      ensures read <= lists && (ok ==> read == lists)
      ensures ok <==> usable && forall l | l in lists :: |l| <= READ_LIMIT
    {
      hide *;
      ChainEnds(data, head, lists);
      ok, read, usable := true, [], true;
      var start := head;
      ghost var left := lists;
      while start != 0
        invariant lists == read + left && (left == [] <==> start == 0) && Chain(data, start, left) && usable && failures == old(failures)
        invariant forall l | l in read :: |l| <= READ_LIMIT
        decreases start
      {
        var ret, next, records;
        ghost var used;
        ReadIsFirst(data, start, left);
        ret, next, records, used := Read(start);
        assert left == [left[0]] + left[1..];
        if ret == -1 {
          return false, read, used;
        }
        assert RecordAt(data, start, next, records);
        read, left, start := read + [records], left[1..], next;
        ChainEnds(data, start, left);
      }
    }
  }

  lemma ChainEnds(data: seq<Byte>, head: nat, lists: seq<seq<Word>>)
    requires Chain(data, head, lists)
    ensures lists == [] <==> head == 0
  {
  }

  /** Whatever record is at the head of a chain is its first list, with the link to the rest; it can be
      read if the list is not too long. */
  lemma ReadIsFirst(data: seq<Byte>, head: nat, lists: seq<seq<Word>>)
    requires Chain(data, head, lists) && head != 0
    ensures lists != [] && (Readable(data, head) <==> |lists[0]| <= 1024)
    ensures forall next: Word, records | RecordAt(data, head, next, records) ::
              records == lists[0] && next < head && Chain(data, next, lists[1..])
    ensures READ_LIMIT == 1024
  {
    hide WordAt, WordsAt, Record;
  }

  /** The list is found under the head: reading there gives it and its parent. */
  ghost predicate Found(data: seq<Byte>, head: Word, parent: Word, records: seq<Word>) {
    head != 0 && Readable(data, head) && RecordAt(data, head, parent, records)
  }

  lemma LowByte(data: seq<Byte>, pos: nat)
    requires pos + 4 <= |data|
    ensures WordAt(data, pos) % 256 == data[pos]
  {
  }

  /** A parent that the bytes at `pos` do not spell. */
  function Other(b: Byte): (parent: Word)
    ensures parent % 256 != b
  {
    if b == 0 then 1 else 0
  }

  /** Bytes that were there before the write begin with any other word than the parent just written. */
  lemma NotThere(data: seq<Byte>, pos: nat, records: seq<Word>, more: seq<Byte>)
    requires pos < |data|
    ensures !RecordAt(data + Record(Other(data[pos]), records) + more, pos, Other(data[pos]), records)
  {
    var whole := data + Record(Other(data[pos]), records) + more;
    if pos + 4 <= |whole| { LowByte(whole, pos); }
    assert whole[pos] == data[pos];
  }

  /** A list that a write appended at the end of the file can be read back under the head that the
      write returned if and only if it holds at most 1024 keys and the file was below 4 GB. */
  lemma ReadBackIff(data: seq<Byte>, records: seq<Word>)
    requires data != []
    ensures |records| <= READ_LIMIT && |data| < WORD_LIMIT <==>
      forall parent: Word, more: seq<Byte> ::
        Found(data + Record(parent, records) + more, |data| % WORD_LIMIT, parent, records)
  {
    if |data| < WORD_LIMIT {
      forall parent: Word, more: seq<Byte>
        ensures Found(data + Record(parent, records) + more, |data|, parent, records) <==> |records| <= READ_LIMIT
      {
        AppendedHere(data, parent, records, more);
      }
      if |records| > READ_LIMIT { assert !Found(data + Record(0, records) + [], |data|, 0, records); }
    } else {
      var parent := Other(data[|data| % WORD_LIMIT]);
      NotThere(data, |data| % WORD_LIMIT, records, []);
      assert !Found(data + Record(parent, records) + [], |data| % WORD_LIMIT, parent, records);
    }
  }

  lemma AppendedHere(data: seq<Byte>, parent: Word, records: seq<Word>, more: seq<Byte>)
    requires 0 < |data| < WORD_LIMIT
    ensures Found(data + Record(parent, records) + more, |data|, parent, records) <==> |records| <= READ_LIMIT
  {
    if |records| < WORD_LIMIT {
      RecordIsThere(data, parent, records);
      WordsFrame(data + Record(parent, records), more, |data| + 8, |records|);
    }
  }

  // ---------------------------------------------------------------- many chains

  /** One successful write of `records` for a key. */
  datatype Put = Put(key: nat, records: seq<Word>)

  ghost function HeadOf(heads: map<nat, Word>, key: nat): Word {
    if key in heads then heads[key] else 0
  }

  /** The file and the heads of all chains after the writes, which stay below 4 GB. */
  ghost predicate Written(data: seq<Byte>, heads: map<nat, Word>, puts: seq<Put>)
    decreases |puts|
  {
    if puts == [] then |data| == HEADER && heads == map[]
    else
      var p := puts[|puts| - 1];
      && 0 < |p.records| < WORD_LIMIT
      && exists data0, heads0 ::
           Written(data0, heads0, puts[..|puts| - 1]) && |data0| < WORD_LIMIT
           && data == data0 + Record(HeadOf(heads0, p.key), p.records) && heads == heads0[p.key := |data0|]
  }

  /** The record lists written for a key, newest first. */
  ghost function ListsOf(puts: seq<Put>, key: nat): seq<seq<Word>> {
    if puts == [] then []
    else
      var p := puts[|puts| - 1];
      (if p.key == key then [p.records] else []) + ListsOf(puts[..|puts| - 1], key)
  }

  lemma NoLists(data: seq<Byte>)
    ensures Chain(data, 0, [])
  {
  }

  /** However the writes for different keys are interleaved, the chain of each key holds exactly the
      lists written for it. */
  lemma {:induction false} ChainsHold(data: seq<Byte>, heads: map<nat, Word>, puts: seq<Put>, key: nat)
    requires Written(data, heads, puts)
    ensures |data| >= HEADER && Chain(data, HeadOf(heads, key), ListsOf(puts, key))
    decreases |puts|
  {
    hide Chain, Record, RecordAt;
    if puts == [] {
      NoLists(data);
    } else {
      var rest, p := puts[..|puts| - 1], puts[|puts| - 1];
      var data0, heads0 :|
        Written(data0, heads0, rest) && |data0| < WORD_LIMIT
        && data == data0 + Record(HeadOf(heads0, p.key), p.records) && heads == heads0[p.key := |data0|];
      ChainsHold(data0, heads0, rest, key);
      var parent := HeadOf(heads0, p.key);
      if key == p.key {
        ChainGrows(data0, parent, p.records, ListsOf(rest, key));
      } else {
        ChainFrame(data0, Record(parent, p.records), HeadOf(heads0, key), ListsOf(rest, key));
        assert ListsOf(puts, key) == [] + ListsOf(rest, key) == ListsOf(rest, key);
      }
    }
  }

  // ---------------------------------------------------------------- after a failed write

  /** Whatever list of up to 1024 keys is appended next is found under the head that the write
      returns, if and only if the recorded end is the end of the file and below 4 GB. */
  lemma AppendsFoundIff(data: seq<Byte>, last: nat)
    requires 0 < last <= |data|
    ensures last == |data| < WORD_LIMIT <==>
      forall parent: Word, records: seq<Word> | 0 < |records| <= READ_LIMIT ::
        Found(data + Record(parent, records), last % WORD_LIMIT, parent, records)
  {
    if last == |data| < WORD_LIMIT {
      forall parent: Word, records: seq<Word> | 0 < |records| <= READ_LIMIT
        ensures Found(data + Record(parent, records), last % WORD_LIMIT, parent, records)
      {
        AppendedHere(data, parent, records, []);
        assert data + Record(parent, records) + [] == data + Record(parent, records);
      }
    } else {
      var head := last % WORD_LIMIT;
      var parent := Other(data[head]);
      NotThere(data, head, [0], []);
      assert data + Record(parent, [0]) + [] == data + Record(parent, [0]);
      assert !Found(data + Record(parent, [0]), head, parent, [0]);
    }
  }

  /** After a write that failed and left `n` bytes behind, the next list is sure to be found if and
      only if nothing was left. */
  lemma FailedWriteSpoils(data: seq<Byte>, parent: Word, records: seq<Word>, n: nat)
    requires 0 < |data| < WORD_LIMIT && n <= |Record(parent, records)|
    ensures var left := data + Record(parent, records)[..n];
      && PartWritten(data, left, parent, records)
      && (n == 0 <==>
            forall p: Word, next: seq<Word> | 0 < |next| <= READ_LIMIT ::
              Found(left + Record(p, next), |data|, p, next))
  {
    hide Found, Record, AllBytes;
    var left := data + Record(parent, records)[..n];
    AppendsFoundIff(left, |data|);
  }
}
