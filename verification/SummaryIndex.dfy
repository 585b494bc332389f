/** The messages of a folder summary, kept in an array and, by uid, in a hash table. */
module SummaryIndex {
  import opened Basics
  import opened SeqFacts

  // ---------------------------------------------------------------- numbers as text

  function Digit(d: nat): char
    requires d < 10
  {
    "0123456789"[d]
  }

  /** What "%u" prints. */
  function Decimal(n: nat): (s: string)
    ensures s != ""
  {
    if n < 10 then [Digit(n)] else Decimal(n / 10) + [Digit(n % 10)]
  }

  lemma {:induction false} DecimalInjective(a: nat, b: nat)
    requires Decimal(a) == Decimal(b)
    ensures a == b
  {
    var s, t := Decimal(a), Decimal(b);
    assert s[|s| - 1] == Digit(a % 10) && t[|t| - 1] == Digit(b % 10);
    assert s[..|s| - 1] == if a < 10 then "" else Decimal(a / 10);
    assert t[..|t| - 1] == if b < 10 then "" else Decimal(b / 10);
    if a >= 10 && b >= 10 { DecimalInjective(a / 10, b / 10); }
  }

  /** Different words have different texts, so no more words can be taken than there are keys. */
  lemma {:induction false} TakenAreFew(words: set<Word>, keys: set<string>)
    requires forall w | w in words :: Decimal(w) in keys
    ensures |words| <= |keys|
    decreases |words|
  {
    if words != {} {
      var w :| w in words;
      forall v | v in words - {w} ensures Decimal(v) in keys - {Decimal(w)} {
        if Decimal(v) == Decimal(w) { DecimalInjective(v, w); }
      }
      TakenAreFew(words - {w}, keys - {Decimal(w)});
      assert |words| == |words - {w}| + 1 && |keys| == |keys - {Decimal(w)}| + 1;
    }
  }

  // ---------------------------------------------------------------- the summary

  class Info {
    var uid: string  // empty if there is none
    var flagged: bool

    constructor (uid: string)
      ensures this.uid == uid && !flagged
    {
      this.uid, flagged := uid, false;
    }
  }

  class Summary {
    var messages: seq<Info>
    var uids: map<string, Info>
    var nextuid: Word
    var dirty: bool
    var expunged: bool

    constructor ()
      ensures Agrees() && messages == [] && nextuid == 1
    {
      messages, uids, nextuid, dirty, expunged := [], map[], 1, false, false;
    }

    ghost predicate Agrees()
      reads this`messages, this`uids, messages`uid
    {
      AgreeOn(messages, uids)
    }

    /** camel_folder_summary_next_uid: the counter wraps around. */
    method NextUid() returns (uid: Word)
      modifies this`nextuid
      ensures uid == old(nextuid) && nextuid == (old(nextuid) + 1) % WORD_LIMIT
    {
      uid := nextuid;
      nextuid := (nextuid + 1) % WORD_LIMIT;
    }

    /** camel_folder_summary_set_uid */
    method SetUid(uid: Word)
      modifies this`nextuid
      ensures nextuid >= uid && nextuid >= old(nextuid) && (nextuid == uid || nextuid == old(nextuid))
    {
      nextuid := if nextuid > uid then nextuid else uid;
    }

    /** summary_assign_uid.  The search for a free uid ends even if the counter wraps around, since
        there are fewer messages than words.  The uid is the first number from the counter on that
        nobody has. */
    method AssignUid(info: Info) returns (isNew: bool)
      requires Agrees() && |messages| < WORD_LIMIT
      modifies this`nextuid, info`uid, info`flagged
      ensures Agrees()
      ensures !isNew <==> info in messages
      ensures isNew ==> info.uid != "" && info.uid !in uids
      ensures !isNew || (old(info.uid) != "" && old(info.uid) !in uids) ==>
        info.uid == old(info.uid) && nextuid == old(nextuid) && info.flagged == old(info.flagged)
      ensures isNew && (old(info.uid) == "" || old(info.uid) in uids) ==>
        exists k :: Drawn(old(nextuid), k, info.uid, nextuid)
          && (info.flagged <==> old(info.flagged) || old(info.uid) != "" || k > 0)
    {
      hide AgreeOn, Decimal, NoDup, WordFrom, Summary.Drawn;
      Bijection(messages, uids);
      Membership(messages, uids, info);
      ghost var start, tried: nat := nextuid, 0;
      NothingDrawn(start, info);
      if info.uid == "" {
        NextDrawn(start, tried, info, uids);
        info.uid := NextUidString();
        tried := 1;
      }
      ghost var before := old(info.uid);
      while info.uid in uids
        invariant Agrees() && info.uid != "" && (info in messages ==> tried == 0)
        invariant tried == 0 ==> info.uid == before && nextuid == start
        invariant tried > 0 ==> before == "" || before in uids
        invariant Drawing(start, tried, info, uids, nextuid)
        invariant info.flagged <==> old(info.flagged) || (tried > 0 && (before != "" || tried > 1))
        decreases |uids| + 1 - tried
      {
        Membership(messages, uids, info);
        if uids[info.uid] == info {
          return false;
        }
        NextDrawn(start, tried, info, uids);
        info.uid := NextUidString();
        info.flagged := true;
        tried := tried + 1;
      }
      Membership(messages, uids, info);
      isNew := true;
      DrawnAtLast(start, tried, info, uids, nextuid);
    }

    /** next_uid_string: the next number, printed. */
    method NextUidString() returns (uid: string)
      modifies this`nextuid
      ensures uid == Decimal(old(nextuid)) && uid != "" && nextuid == (old(nextuid) + 1) % WORD_LIMIT
    {
      var n := NextUid();
      uid := Decimal(n);
    }

    /** Counting from `start`, the number after `k` others is the first that nobody has; its text is `uid`. */
    ghost predicate Drawn(start: Word, k: nat, uid: string, next: Word)
      reads this`uids
    {
      && uid == Decimal(WordFrom(start, k)) && uid !in uids && next == WordFrom(start, k + 1)
      && forall i: nat | i < k :: Decimal(WordFrom(start, i)) in uids
    }

    lemma DrawnAtLast(start: Word, tried: nat, info: Info, u: map<string, Info>, next: Word)
      requires u == uids && Drawing(start, tried, info, u, next) && info.uid !in u
      ensures tried > 0 ==> Drawn(start, tried - 1, info.uid, next)
    {
    }

    /** camel_folder_summary_add */
    method Add(info: Info)
      requires Agrees() && |messages| < WORD_LIMIT
      modifies this, info
      ensures Agrees()
      ensures info in old(messages) ==>
        messages == old(messages) && uids == old(uids) && info.uid == old(info.uid) && dirty == old(dirty)
      ensures info !in old(messages) ==>
        messages == old(messages) + [info] && uids == old(uids)[info.uid := info] && info.uid !in old(uids) && dirty
      ensures old(info.uid) != "" && old(info.uid) !in old(uids) ==> info.uid == old(info.uid)
      ensures expunged == old(expunged)
    {
      var isNew := AssignUid(info);
      if isNew {
        messages := messages + [info];
        uids := uids[info.uid := info];
        dirty := true;
      }
    }

    /** camel_folder_summary_remove.  It keeps array and table in agreement exactly when the message
        is in the summary or its uid is nobody's. */
    method Remove(info: Info)
      requires Agrees()
      modifies this`messages, this`uids, this`dirty, this`expunged
      ensures Agrees() <==> info in old(messages) || info.uid !in old(uids)
      ensures uids == old(uids) - {info.uid} && dirty && expunged
      ensures messages == WithoutInfo(old(messages), info)
    {
      hide AgreeOn, WithoutInfo;
      RemoveAgrees(messages, uids, info);
      uids := uids - {info.uid};
      messages := WithoutInfo(messages, info);
      dirty, expunged := true, true;
    }

    /** camel_folder_summary_remove_uid */
    method RemoveUid(uid: string)
      requires Agrees()
      modifies this`messages, this`uids, this`dirty, this`expunged
      ensures Agrees() && uids == old(uids) - {uid}
      ensures dirty == (old(dirty) || uid in old(uids)) && expunged == (old(expunged) || uid in old(uids))
      ensures messages == if uid in old(uids) then WithoutInfo(old(messages), old(uids)[uid]) else old(messages)
    {
      if uid in uids {
        Remove(uids[uid]);
      }
    }

    /** camel_folder_summary_remove_index.  A negative index counts as one behind the end. */
    method RemoveIndex(index: int)
      requires Agrees()
      modifies this`messages, this`uids, this`dirty
      ensures Agrees() && messages == Cut(old(messages), index, index)
      ensures dirty == (old(dirty) || 0 <= index < |old(messages)|)
      ensures forall x | x in old(messages) :: x in messages <==> IndexOf(old(messages), x) != index
    {
      CutKeeps(messages, index, index);
      if 0 <= index < |messages| {
        hide AgreeOn;
        CutAgrees(messages, uids, index, index + 1);
        UidOfOne(messages, index);
        var info := messages[index];
        uids := uids - {info.uid};
        messages := DropAt(messages, index);
        dirty := true;
      }
    }

    /** camel_folder_summary_remove_range: from `start` to `end`, inclusive, as far as there are any. */
    method RemoveRange(start: int, end: int)
      requires Agrees()
      modifies this`messages, this`uids, this`dirty
      ensures Agrees() && messages == Cut(old(messages), start, end)
      ensures dirty == (old(dirty) || (0 <= start < |old(messages)| && start <= end))
      ensures 0 <= start ==>
        forall x | x in old(messages) :: x in messages <==> !(start <= IndexOf(old(messages), x) <= end)
    {
      hide AgreeOn, Cut, IndexOf, NoDup, UidsOf;
      CutKeeps(messages, start, end);
      if end < start { return; }
      if 0 <= start < |messages| {
        var stop := if end + 1 < |messages| then end + 1 else |messages|;
        CutAgrees(messages, uids, start, stop);
        var i := start;
        UidsNext(messages, start, i);
        while i < stop
          invariant messages == old(messages) && start <= i <= stop <= |messages| && uids == old(uids) - UidsOf(messages[start..i])
        {
          UidsNext(messages, start, i);
          uids := uids - {messages[i].uid};
          i := i + 1;
        }
        messages := messages[..start] + messages[stop..];
        dirty := true;
      }
    }

    /** camel_folder_summary_clear */
    method Clear()
      requires Agrees()
      modifies this`messages, this`uids, this`dirty, this`expunged
      ensures Agrees() && messages == [] && uids == map[]
      ensures dirty == (old(dirty) || old(messages) != []) && expunged == (old(expunged) || old(messages) != [])
    {
      if |messages| == 0 {
        Bijection(messages, uids);
        return;
      }
      messages, uids := [], map[];
      dirty, expunged := true, true;
    }
  }

  // ---------------------------------------------------------------- array and table

  /** The array and the table hold the same messages, each once and under its uid. */
  ghost predicate AgreeOn(m: seq<Info>, u: map<string, Info>)
    reads m`uid
  {
    && NoDup(m)
    && (forall x | x in m :: x.uid != "" && x.uid in u && u[x.uid] == x)
    && forall k | k in u :: u[k] in m && u[k].uid == k
  }

  /** So uids are pairwise distinct and there are as many keys as messages. */
  lemma Bijection(m: seq<Info>, u: map<string, Info>)
    requires AgreeOn(m, u)
    ensures forall i, j | 0 <= i < j < |m| :: m[i].uid != m[j].uid
    ensures |u| == |m|
  {
    forall i, j | 0 <= i < j < |m| ensures m[i].uid != m[j].uid {
      assert m[i] in m && m[j] in m;
    }
    var texts := seq(|m|, i requires 0 <= i < |m| reads m`uid => m[i].uid);
    TextCount(texts);
    assert u.Keys == set t | t in texts by {
      forall k | k in u ensures k in texts { assert texts[IndexOf(m, u[k])] == k; }
      forall t | t in texts ensures t in u { var i := IndexOf(texts, t); assert m[i] in m; }
    }
  }

  lemma {:induction false} TextCount(s: seq<string>)
    requires NoDup(s)
    ensures |set t | t in s| == |s|
  {
    if s != [] {
      var n := |s| - 1;
      assert s == s[..n] + [s[n]] && s[n] !in s[..n];
      TextCount(s[..n]);
      assert (set t | t in s) == (set t | t in s[..n]) + {s[n]};
    }
  }

  lemma Membership(m: seq<Info>, u: map<string, Info>, x: Info)
    requires AgreeOn(m, u)
    ensures x in m <==> x.uid in u && u[x.uid] == x
    ensures x in m ==> x.uid != ""
    ensures "" !in u
  {
  }

  /** Taking the message and the entry under its uid away leaves an agreement exactly when the
      message was there or there was no such entry. */
  lemma RemoveAgrees(m: seq<Info>, u: map<string, Info>, x: Info)
    requires AgreeOn(m, u)
    ensures AgreeOn(WithoutInfo(m, x), u - {x.uid}) <==> x in m || x.uid !in u
  {
    hide WithoutInfo;
    if x in m {
      WithoutFacts(m, x);
    } else {
      NotThere(m, x);
      if x.uid in u { assert u[x.uid] in m; }
    }
  }

  lemma NotThere(m: seq<Info>, x: Info)
    requires x !in m
    ensures WithoutInfo(m, x) == m
  {
  }

  lemma WithoutFacts(m: seq<Info>, x: Info)
    requires NoDup(m) && x in m
    ensures NoDup(WithoutInfo(m, x)) && forall y :: y in WithoutInfo(m, x) <==> y in m && y != x
  {
    NoDupDrop(m, IndexOf(m, x));
  }

  lemma CutFacts(m: seq<Info>, start: nat, stop: nat)
    requires NoDup(m) && start <= stop <= |m|
    requires forall i, j | 0 <= i < j < |m| :: m[i].uid != m[j].uid
    ensures var rest := m[..start] + m[stop..];
      NoDup(rest) && forall x :: x in rest <==> x in m && x.uid !in UidsOf(m[start..stop])
  {
    var rest, gone := m[..start] + m[stop..], m[start..stop];
    forall i | 0 <= i < |rest| ensures rest[i] in m && rest[i].uid !in UidsOf(gone) {
      var j := if i < start then i else i - start + stop;
      assert rest[i] == m[j] && forall k | 0 <= k < |gone| :: gone[k] == m[start + k];
    }
    forall k | start <= k < stop ensures m[k].uid in UidsOf(gone) { assert gone[k - start] == m[k]; }
    forall x | x in m && x.uid !in UidsOf(gone) ensures x in rest {
      var j := IndexOf(m, x);
      assert rest[if j < start then j else j - stop + start] == x;
    }
  }

  /** Taking a stretch of messages and their entries away. */
  lemma CutAgrees(m: seq<Info>, u: map<string, Info>, start: nat, stop: nat)
    requires AgreeOn(m, u) && start <= stop <= |m|
    ensures AgreeOn(m[..start] + m[stop..], u - UidsOf(m[start..stop]))
  {
    Bijection(m, u);
    CutFacts(m, start, stop);
    hide UidsOf, NoDup;
  }

  lemma UidOfOne(m: seq<Info>, i: nat)
    requires i < |m|
    ensures UidsOf(m[i..i + 1]) == {m[i].uid} && DropAt(m, i) == m[..i] + m[i + 1..] == Cut(m, i, i)
  {
    assert m[i..i + 1] == [m[i]];
  }

  lemma UidsNext(m: seq<Info>, start: nat, i: nat)
    requires start <= i < |m|
    ensures UidsOf(m[start..start]) == {}
    ensures UidsOf(m[start..i + 1]) == UidsOf(m[start..i]) + {m[i].uid}
  {
    var s, t := m[start..i], m[start..i + 1];
    assert t == s + [m[i]];
    forall k | k in UidsOf(s) ensures k in UidsOf(t) {
      var j :| 0 <= j < |s| && s[j].uid == k;
      assert t[j].uid == k;
    }
    assert t[|s|].uid == m[i].uid;
  }

  function UidsOf(s: seq<Info>): set<string>
    reads s`uid
  {
    set i | 0 <= i < |s| :: s[i].uid
  }

  /** What remove_range leaves of a list. */
  function Cut<T>(s: seq<T>, start: int, end: int): seq<T> {
    if end < start || start < 0 || start >= |s| then s
    else s[..start] + s[if end + 1 < |s| then end + 1 else |s|..]
  }

  /** Gone are the messages from `start` to `end`, and no other. */
  lemma CutKeeps(m: seq<Info>, start: int, end: int)
    requires exists u :: AgreeOn(m, u)
    ensures 0 <= start ==> forall x | x in m :: x in Cut(m, start, end) <==> !(start <= IndexOf(m, x) <= end)
    ensures start < 0 || end < start || start >= |m| ==> Cut(m, start, end) == m
    ensures 0 <= start <= end && start < |m| ==>
      Cut(m, start, end) == m[..start] + m[if end + 1 < |m| then end + 1 else |m|..]
  {
    assert NoDup(m);
    hide AgreeOn;
    if 0 <= start {
      var rest := Cut(m, start, end);
      forall x | x in m ensures x in rest <==> !(start <= IndexOf(m, x) <= end) {
        var j := IndexOf(m, x);
        if start <= end && start < |m| {
          var stop := if end + 1 < |m| then end + 1 else |m|;
          if j < start { assert rest[j] == x; }
          if j > end { assert rest[j - stop + start] == x; }
          if start <= j <= end {
            forall k | 0 <= k < |rest| ensures rest[k] != x {
              assert rest[k] == m[if k < start then k else k - start + stop];
            }
          }
        }
      }
    }
  }

  /** g_ptr_array_remove */
  function WithoutInfo(s: seq<Info>, x: Info): (t: seq<Info>)
    ensures x !in s ==> t == s
    ensures x in s && NoDup(s) ==> t == DropAt(s, IndexOf(s, x))
  {
    if s == [] then []
    else if s[0] == x then s[1..]
    else
      assert x in s && NoDup(s) ==> x in s[1..] && NoDup(s[1..]) && IndexOf(s, x) == IndexOf(s[1..], x) + 1;
      [s[0]] + WithoutInfo(s[1..], x)
  }

  // ---------------------------------------------------------------- the counter

  /** The word that the counter gives after `k` others. */
  function WordFrom(start: nat, k: nat): Word {
    (start + k) % WORD_LIMIT
  }

  /** After `tried` words from the counter, all but the last are taken and the last is the uid. */
  ghost predicate Drawing(start: Word, tried: nat, info: Info, u: map<string, Info>, next: Word)
    reads info`uid
  {
    && next == WordFrom(start, tried) && tried <= |u| + 1
    && (tried > 0 ==> info.uid == Decimal(WordFrom(start, tried - 1)))
    && forall i: nat | i < tried - 1 :: Decimal(WordFrom(start, i)) in u
  }

  lemma NothingDrawn(start: Word, info: Info)
    ensures WordFrom(start, 0) == start
  {
  }

  /** There is another word to try, since not all that were tried can be taken. */
  lemma NextDrawn(start: Word, tried: nat, info: Info, u: map<string, Info>)
    requires |u| < WORD_LIMIT && Drawing(start, tried, info, u, WordFrom(start, tried))
    requires tried > 0 ==> info.uid in u
    ensures tried <= |u| && WordFrom(start, tried + 1) == (WordFrom(start, tried) + 1) % WORD_LIMIT
    ensures forall i: nat | i < tried :: Decimal(WordFrom(start, i)) in u
  {
    forall w | w in Words(start, tried) ensures Decimal(w) in u { Drawable(start, tried, w); }
    WordCount(start, tried);
    TakenAreFew(Words(start, tried), u.Keys);
    NextWord(start, tried);
  }

  lemma {:induction false} Drawable(start: Word, n: nat, w: Word)
    requires w in Words(start, n)
    ensures exists i: nat :: i < n && w == WordFrom(start, i)
  {
    if w == (start + n - 1) % WORD_LIMIT {
      assert w == WordFrom(start, n - 1);
    } else {
      Drawable(start, n - 1, w);
    }
  }

  /** The first `n` words that a counter at `start` gives. */
  ghost function Words(start: nat, n: nat): set<Word> {
    if n == 0 then {} else Words(start, n - 1) + {(start + n - 1) % WORD_LIMIT}
  }

  lemma NoWords(start: nat)
    ensures Words(start, 0) == {}
  {
  }

  lemma NextWord(start: nat, n: nat)
    ensures Words(start, n + 1) == Words(start, n) + {(start + n) % WORD_LIMIT}
    ensures ((start + n) % WORD_LIMIT + 1) % WORD_LIMIT == (start + n + 1) % WORD_LIMIT
  {
  }

  lemma {:induction false} NotYet(start: nat, n: nat, k: nat)
    requires n <= k < WORD_LIMIT
    ensures (start + k) % WORD_LIMIT !in Words(start, n)
  {
    if n > 0 { NotYet(start, n - 1, k); }
  }

  /** The counter gives different words until it has gone round. */
  lemma {:induction false} WordCount(start: nat, n: nat)
    ensures |Words(start, n)| <= n
    ensures n <= WORD_LIMIT ==> |Words(start, n)| == n
  {
    if n > 0 {
      WordCount(start, n - 1);
      if n <= WORD_LIMIT { NotYet(start, n - 1, n - 1); }
    }
  }
}
