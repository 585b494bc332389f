/** Strings written with a dictionary for the words that mail is full of. */
module Tokens {
  import opened Basics
  import opened Codec

  const WORDS_A: seq<Text> := ["7bit", "8bit", "alternative", "application", "base64", "boundary", "charset", "filename"]

  const WORDS_B: seq<Text> := ["html", "image", "iso-8859-1", "iso-8859-8", "message", "mixed", "multipart", "name"]

  const WORDS_C: seq<Text> := ["octet-stream", "parallel", "plain", "postscript", "quoted-printable", "related"]

  const WORDS_D: seq<Text> := ["rfc822", "text", "us-ascii"]

  /** The dictionary; the numbers of its words start at 1. */
  const TOKENS: seq<Text> := WORDS_A + WORDS_B + WORDS_C + WORDS_D

  const TOKEN_COUNT: nat := 25
  const TEXT_LIMIT: nat := 10208

  function Lower(c: Octet): Octet {
    if 'A' <= c <= 'Z' then Byte(Code(c) + 32) else c
  }

  function LowerAll(t: Text): (u: Text)
    ensures |u| == |t|
  {
    if t == [] then [] else [Lower(t[0])] + LowerAll(t[1..])
  }

  // ---------------------------------------------------------------- the dictionary is in order

  /** strcmp(a, b) < 0: at the first difference, if any, `a` ends or has the smaller byte. */
  predicate LessAt(a: Text, b: Text, k: nat) {
    && k <= |a| && k < |b| && a[..k] == b[..k] && (k < |a| ==> a[k] < b[k])
  }

  ghost predicate Less(a: Text, b: Text) {
    exists k: nat :: LessAt(a, b, k)
  }

  lemma LessTrans(a: Text, b: Text, c: Text)
    requires Less(a, b) && Less(b, c)
    ensures Less(a, c)
  {
    var i: nat :| LessAt(a, b, i);
    var j: nat :| LessAt(b, c, j);
    var k := if i < j then i else j;
    assert a[..k] == a[..i][..k] && b[..k] == b[..i][..k] && b[..k] == b[..j][..k] && c[..k] == c[..j][..k];
    if i < j { assert c[i] == c[..j][i] == b[..j][i] == b[i]; }
    if j < i { assert a[j] == a[..i][j] == b[..i][j] == b[j]; }
    assert LessAt(a, c, k);
  }

  lemma NotLess(a: Text, b: Text)
    requires Less(a, b)
    ensures a != b && !Less(b, a)
  {
    var i: nat :| LessAt(a, b, i);
    forall j: nat ensures !LessAt(b, a, j) {
      if j < i { assert a[..i][j] == a[j] && b[..i][j] == b[j]; }
      if i < j <= |a| && j <= |b| { assert a[..j][i] == a[i] && b[..j][i] == b[i]; }
    }
  }

  /** strcmp, byte by byte. */
  method Compare(a: Text, b: Text) returns (r: int)
    ensures r < 0 <==> Less(a, b)
    ensures r > 0 <==> Less(b, a)
    ensures r == 0 <==> a == b
  {
    var i := 0;
    while i < |a| && i < |b| && a[i] == b[i]
      invariant 0 <= i <= |a| && i <= |b| && a[..i] == b[..i]
    {
      i := i + 1;
    }
    if i == |a| && i == |b| {
      assert a == a[..i] && b == b[..i];
      Irreflexive(a);
      return 0;
    }
    if i == |a| || (i < |b| && a[i] < b[i]) {
      assert LessAt(a, b, i);
      NotLess(a, b);
      return -1;
    }
    assert LessAt(b, a, i);
    NotLess(b, a);
    return 1;
  }

  lemma Irreflexive(a: Text)
    ensures !Less(a, a)
  {
  }

  ghost predicate Sorted(s: seq<Text>) {
    forall i, j | 0 <= i < j < |s| :: Less(s[i], s[j])
  }

  /** Where neighbours differ. */
  const DIFFER: seq<nat> := [0, 0, 1, 0, 1, 0, 0, 0, 0, 1, 9, 0, 1, 1, 0, 0, 0, 1, 1, 0, 0, 1, 0, 0]

  lemma NeighboursInOrder(i: nat)
    requires i < 24
    ensures LessAt(TOKENS[i], TOKENS[i + 1], DIFFER[i])
  {
  }

  lemma {:induction false} TokensInOrder(i: nat, j: nat)
    requires i < j < TOKEN_COUNT
    ensures Less(TOKENS[i], TOKENS[j])
    decreases j
  {
    NeighboursInOrder(j - 1);
    if i < j - 1 {
      TokensInOrder(i, j - 1);
      LessTrans(TOKENS[i], TOKENS[j - 1], TOKENS[j]);
    }
  }

  /** bsearch: in a sorted table the word is found if it is there. */
  method Search(word: Text, table: seq<Text>) returns (k: int)
    requires Sorted(table)
    ensures k == -1 <==> word !in table
    ensures k != -1 ==> 0 <= k < |table| && table[k] == word
  {
    var lo, hi := 0, |table|;
    while lo < hi
      invariant 0 <= lo <= hi <= |table|
      invariant forall i | 0 <= i < |table| && table[i] == word :: lo <= i < hi
    {
      var mid := (lo + hi) / 2;
      var c := Compare(word, table[mid]);
      if c == 0 {
        return mid;
      }
      forall i | 0 <= i < |table| && table[i] == word
        ensures if c < 0 then i < mid else i > mid
      {
        if i != mid {
          assert if i < mid then Less(table[i], table[mid]) else Less(table[mid], table[i]);
          if i < mid { NotLess(word, table[mid]); } else { NotLess(table[mid], word); }
        }
      }
      if c < 0 { hi := mid; } else { lo := mid + 1; }
    }
    k := -1;
  }

  // ---------------------------------------------------------------- the code

  /** The number of a word in a table, from 1, or 0. */
  ghost function IndexIn(table: seq<Text>, t: Text): (k: nat)
    ensures k <= |table| && (k > 0 ==> table[k - 1] == LowerAll(t) && |t| <= 16)
    ensures k == 0 <==> |t| > 16 || LowerAll(t) !in table
  {
    if |t| > 16 || LowerAll(t) !in table then 0
    else
      var k :| 0 <= k < |table| && table[k] == LowerAll(t);
      k + 1
  }

  lemma OnePlace(table: seq<Text>, t: Text, k: nat)
    requires Sorted(table) && k < |table| && table[k] == LowerAll(t) && |t| <= 16
    ensures IndexIn(table, t) == k + 1
  {
    Irreflexive(table[k]);
  }

  ghost function Index(t: Text): (k: nat) {
    IndexIn(TOKENS, t)
  }

  ghost function EncodedToken(s: Option<Text>): Text {
    match s
    case None => Encoded(0)
    case Some(t) => if Index(t) > 0 then Encoded(Index(t)) else Encoded(|t| + 32) + t
  }

  function DecodeToken(t: Text): Decoded<Option<Text>> {
    match Decode(t)
    case Failed(rest) => Failed(rest)
    case Decoded(n, rest) =>
      if n == 0 then Decoded(None, rest)
      else if n < 32 then (if n <= TOKEN_COUNT then Decoded(Some(TOKENS[n - 1]), rest) else Failed(rest))
      else if n > 10240 then Failed(rest)
      else if n - 32 > |rest| then Failed([])
      else Decoded(Some(rest[..n - 32]), rest[n - 32..])
  }

  /** What a string comes back as: words of the dictionary in lower case. */
  ghost function Normal(s: Option<Text>): Option<Text> {
    if s == None then None else Some(NormalText(s.value))
  }

  ghost function NormalText(t: Text): Text {
    if Index(t) > 0 then LowerAll(t) else t
  }

  /** A string comes back, and exactly its bytes are used, if and only if it is not too long. */
  lemma TokenRoundTripIff(s: Option<Text>, rest: Text)
    requires s.Some? ==> |s.value| + 32 < WORD_LIMIT
    ensures DecodeToken(EncodedToken(s) + rest) == Decoded(Normal(s), rest) <==>
            (s == None || Index(s.value) > 0 || |s.value| <= TEXT_LIMIT)
  {
    match s
    case None => IntegerRoundTrip(0, rest);
    case Some(t) =>
      if Index(t) > 0 {
        IntegerRoundTrip(Index(t), rest);
      } else {
        assert EncodedToken(s) + rest == Encoded(|t| + 32) + (t + rest);
        IntegerRoundTrip(|t| + 32, t + rest);
        assert (t + rest)[..|t|] == t && (t + rest)[|t|..] == rest;
      }
  }

  /** Two strings have the same code only if they come back as the same. */
  lemma TokenCodesDiffer(s: Option<Text>, t: Option<Text>)
    requires s == None || |s.value| <= TEXT_LIMIT
    requires t == None || |t.value| <= TEXT_LIMIT
    requires EncodedToken(s) == EncodedToken(t)
    ensures Normal(s) == Normal(t)
  {
    TokenRoundTripIff(s, []);
    TokenRoundTripIff(t, []);
  }

  /** camel_folder_summary_encode_token.  For the empty string the bytes are right, but fwrite of
      nothing counts as a failure. */
  method EncodeToken(out: Output, s: Option<Text>) returns (ret: int)
    requires s.Some? ==> |s.value| + 32 < WORD_LIMIT
    modifies out
    ensures out.bytes == old(out.bytes) + EncodedToken(s)
    ensures ret == -1 <==> s == Some([])
  {
    match s
    case None => ret := EncodeUint32(out, 0);
    case Some(t) =>
      var token := -1;
      if |t| <= 16 {
        TokensSorted();
        token := Search(LowerAll(t), TOKENS);
      }
      NotEmpty();
      if token != -1 {
        OnePlace(TOKENS, t, token);
        ret := EncodeUint32(out, token + 1);
      } else {
        ret := EncodeUint32(out, |t| + 32);
        if |t| == 0 { return -1; }
        out.Write(t);
        ret := 0;
      }
  }

  lemma NotEmpty()
    ensures [] !in TOKENS
  {
    forall i | 0 <= i < TOKEN_COUNT ensures TOKENS[i] != [] {}
  }

  lemma TokensSorted()
    ensures Sorted(TOKENS)
  {
    forall i, j | 0 <= i < j < |TOKENS| ensures Less(TOKENS[i], TOKENS[j]) { TokensInOrder(i, j); }
  }

  /** camel_folder_summary_decode_token */
  method ReadToken(in_: Input) returns (ok: bool, s: Option<Text>)
    requires in_.Valid()
    modifies in_
    ensures in_.Valid() && in_.Rest() == DecodeToken(old(in_.Rest())).rest
    ensures ok == DecodeToken(old(in_.Rest())).Decoded?
    ensures s == if ok then DecodeToken(old(in_.Rest())).value else None
  {
    var found, len := DecodeUint32(in_);
    if !found { return false, None; }
    if len < 32 {
      if len == 0 { return true, None; }
      if len <= TOKEN_COUNT { return true, Some(TOKENS[len - 1]); }
      return false, None;
    }
    if len > 10240 { return false, None; }
    s := in_.Read(len - 32);
    ok := s.Some?;
  }
}
