/** What is saved of a message's content: a tree of parts, each with its content type. */
module ContentTree {
  import opened Basics
  import opened Codec
  import opened Tokens

  const COUNT_LIMIT: nat := 500

  datatype Param = Param(name: Text, value: Text)

  datatype ContentType = ContentType(major: Option<Text>, minor: Option<Text>, params: seq<Param>)

  datatype Info = Info(type_: Option<ContentType>, id: Option<Text>, description: Option<Text>,
                       encoding: Option<Text>, size: Word)

  datatype Tree = Tree(info: Info, kids: seq<Tree>)

  // ---------------------------------------------------------------- what is written

  ghost function SavedParams(ps: seq<Param>): Text {
    if ps == [] then []
    else EncodedToken(Some(ps[0].name)) + (EncodedToken(Some(ps[0].value)) + SavedParams(ps[1..]))
  }

  ghost function SavedType(t: Option<ContentType>): Text {
    match t
    case None => EncodedToken(None) + (EncodedToken(None) + Encoded(0))
    case Some(ct) =>
      EncodedToken(ct.major) + (EncodedToken(ct.minor) + (Encoded(|ct.params|) + SavedParams(ct.params)))
  }

  ghost function SavedInfo(i: Info): Text {
    SavedType(i.type_) + (EncodedToken(i.id) + (EncodedToken(i.description) + (EncodedToken(i.encoding) + Encoded(i.size))))
  }

  ghost function Saved(t: Tree): Text {
    SavedInfo(t.info) + (Encoded(|t.kids|) + SavedAll(t.kids))
  }

  ghost function SavedAll(ts: seq<Tree>): Text {
    if ts == [] then [] else Saved(ts[0]) + SavedAll(ts[1..])
  }

  // ---------------------------------------------------------------- what is read

  predicate SameName(a: Text, b: Text) {
    LowerAll(a) == LowerAll(b)
  }

  /** camel_header_set_param, for a value that is there */
  function SetParam(ps: seq<Param>, p: Param): seq<Param> {
    if ps == [] then [p]
    else if SameName(ps[0].name, p.name) then [ps[0].(value := p.value)] + ps[1..]
    else [ps[0]] + SetParam(ps[1..], p)
  }

  /** A token, or nothing if it cannot be decoded, and what is left. */
  function Token(t: Text): (r: (Option<Text>, Text))
    ensures |r.1| <= |t|
  {
    match DecodeToken(t)
    case Failed(rest) => (None, rest)
    case Decoded(s, rest) => (s, rest)
  }

  function LoadParams(ps: seq<Param>, n: nat, t: Text): (r: Option<(seq<Param>, Text)>)
    ensures r.Some? ==> |r.value.1| <= |t|
    decreases n
  {
    if n == 0 then Some((ps, t))
    else
      var (name, t1) := Token(t);
      var (value, t2) := Token(t1);
      if name == None || value == None then None
      else LoadParams(SetParam(ps, Param(name.value, value.value)), n - 1, t2)
  }

  /** content_info_load.  A size that cannot be decoded is stored as far as it goes. */
  function LoadInfo(t: Text): (r: Option<(Info, Text)>)
    ensures r.Some? ==> |r.value.1| <= |t|
  {
    var (major, t1) := Token(t);
    var (minor, t2) := Token(t1);
    match Decode(t2)
    case Failed(_) => None
    case Decoded(n, t3) =>
      if n > COUNT_LIMIT then None
      else
        match LoadParams([], n, t3)
        case None => None
        case Some((ps, t4)) =>
          var (id, t5) := Token(t4);
          var (description, t6) := Token(t5);
          var (encoding, t7) := Token(t6);
          Some((Info(Some(ContentType(major, minor, ps)), id, description, encoding, Stored(t7)), Decode(t7).rest))
  }

  /** perform_content_info_load */
  function Load(t: Text): (r: Option<(Tree, Text)>)
    ensures r.Some? ==> |r.value.1| < |t|
    decreases |t|, 0
  {
    match LoadInfo(t)
    case None => None
    case Some((info, t1)) =>
      match Decode(t1)
      case Failed(_) => None
      case Decoded(n, t2) =>
        if n > COUNT_LIMIT then None
        else
          match LoadAll(n, t2)
          case None => None
          case Some((kids, t3)) => Some((Tree(info, kids), t3))
  }

  function LoadAll(n: nat, t: Text): (r: Option<(seq<Tree>, Text)>)
    ensures r.Some? ==> |r.value.1| <= |t| && |r.value.0| == n
    decreases |t|, n + 1
  {
    if n == 0 then Some(([], t))
    else
      match Load(t)
      case None => None
      case Some((kid, t1)) =>
        match LoadAll(n - 1, t1)
        case None => None
        case Some((rest, t2)) => Some(([kid] + rest, t2))
  }

  // ---------------------------------------------------------------- what comes back

  predicate Fits(s: Option<Text>) {
    s.Some? ==> |s.value| <= TEXT_LIMIT
  }

  predicate InfoFits(i: Info) {
    && Fits(i.id) && Fits(i.description) && Fits(i.encoding)
    && (i.type_.Some? ==>
          var ct := i.type_.value;
          && Fits(ct.major) && Fits(ct.minor) && |ct.params| <= COUNT_LIMIT
          && forall p | p in ct.params :: Fits(Some(p.name)) && Fits(Some(p.value)))
  }

  /** Few enough children and parameters everywhere, and no string too long. */
  predicate TreeFits(t: Tree) {
    InfoFits(t.info) && |t.kids| <= COUNT_LIMIT && forall k | k in t.kids :: TreeFits(k)
  }

  predicate Writable(s: Option<Text>) {
    s.Some? ==> |s.value| + 32 < WORD_LIMIT
  }

  /** The sizes that C can hold. */
  predicate InfoWritable(i: Info) {
    && Writable(i.id) && Writable(i.description) && Writable(i.encoding)
    && (i.type_.Some? ==>
          var ct := i.type_.value;
          && Writable(ct.major) && Writable(ct.minor) && |ct.params| < WORD_LIMIT
          && forall p | p in ct.params :: Writable(Some(p.name)) && Writable(Some(p.value)))
  }

  predicate TreeWritable(t: Tree) {
    InfoWritable(t.info) && |t.kids| < WORD_LIMIT && forall k | k in t.kids :: TreeWritable(k)
  }

  ghost function NormalParam(p: Param): Param {
    Param(NormalText(p.name), NormalText(p.value))
  }

  /** Parameters are set one after the other. */
  ghost function AllSet(ps: seq<Param>, more: seq<Param>): seq<Param>
    decreases |more|
  {
    if more == [] then ps else AllSet(SetParam(ps, NormalParam(more[0])), more[1..])
  }

  /** A missing content type comes back as one without types and parameters. */
  ghost function NormalType(t: Option<ContentType>): ContentType {
    match t
    case None => ContentType(None, None, [])
    case Some(ct) => ContentType(Normal(ct.major), Normal(ct.minor), AllSet([], ct.params))
  }

  ghost function NormalInfo(i: Info): Info {
    Info(Some(NormalType(i.type_)), Normal(i.id), Normal(i.description), Normal(i.encoding), i.size)
  }

  ghost function NormalTree(t: Tree): Tree {
    Tree(NormalInfo(t.info), NormalAll(t.kids))
  }

  ghost function NormalAll(ts: seq<Tree>): (r: seq<Tree>)
    ensures |r| == |ts|
  {
    if ts == [] then [] else [NormalTree(ts[0])] + NormalAll(ts[1..])
  }

  lemma TokenBack(s: Option<Text>, rest: Text)
    requires Fits(s)
    ensures Token(EncodedToken(s) + rest) == (Normal(s), rest)
  {
    TokenRoundTripIff(s, rest);
  }

  lemma {:induction false} ParamsBack(ps: seq<Param>, more: seq<Param>, rest: Text)
    requires forall p | p in more :: Fits(Some(p.name)) && Fits(Some(p.value))
    ensures LoadParams(ps, |more|, SavedParams(more) + rest) == Some((AllSet(ps, more), rest))
    decreases |more|
  {
    hide EncodedToken, Token, Normal, NormalText, SetParam;
    if more != [] {
      var p := more[0];
      var tail := SavedParams(more[1..]) + rest;
      TokenBack(Some(p.name), EncodedToken(Some(p.value)) + tail);
      TokenBack(Some(p.value), tail);
      NormalSome(p.name);
      NormalSome(p.value);
      assert SavedParams(more) + rest == EncodedToken(Some(p.name)) + (EncodedToken(Some(p.value)) + tail);
      ParamsBack(SetParam(ps, NormalParam(p)), more[1..], rest);
    } else {
      assert SavedParams(more) + rest == rest;
    }
  }

  lemma NormalSome(t: Text)
    ensures Normal(Some(t)) == Some(NormalText(t))
  {
  }

  /** The four strings or the numbers behind a content type do not get in its way. */
  lemma InfoBack(i: Info, rest: Text)
    requires InfoFits(i)
    ensures LoadInfo(SavedInfo(i) + rest) == Some((NormalInfo(i), rest))
  {
    hide EncodedToken, Token, Normal, Encoded, Decode, Stored, LoadParams, SavedParams, AllSet;
    var t7 := Encoded(i.size) + rest;
    var t6 := EncodedToken(i.encoding) + t7;
    var t5 := EncodedToken(i.description) + t6;
    var t4 := EncodedToken(i.id) + t5;
    assert SavedInfo(i) + rest == SavedType(i.type_) + t4;
    var ct := if i.type_ == None then ContentType(None, None, []) else i.type_.value;
    var t3 := SavedParams(ct.params) + t4;
    var t2 := Encoded(|ct.params|) + t3;
    var t1 := EncodedToken(ct.minor) + t2;
    assert SavedType(i.type_) + t4 == EncodedToken(ct.major) + t1 by { NoParams(); }
    TokenBack(ct.major, t1);
    TokenBack(ct.minor, t2);
    IntegerRoundTrip(|ct.params|, t3);
    ParamsBack([], ct.params, t4);
    TokenBack(i.id, t5);
    TokenBack(i.description, t6);
    TokenBack(i.encoding, t7);
    IntegerRoundTrip(i.size, rest);
    StoredIs(t7);
    NormalNone();
  }

  lemma NoParams()
    ensures SavedParams([]) == []
  {
  }

  lemma NormalNone()
    ensures Normal(None) == None && AllSet([], []) == []
  {
  }

  /** Loading undoes saving for trees of any depth, up to the lower case of dictionary words, and uses
      exactly the bytes that were saved. */
  lemma {:induction false} TreeBack(t: Tree, rest: Text)
    requires TreeFits(t)
    ensures Load(Saved(t) + rest) == Some((NormalTree(t), rest))
    decreases t
  {
    hide SavedInfo, LoadInfo, NormalInfo, InfoFits, Encoded, Decode;
    var t2 := SavedAll(t.kids) + rest;
    var t1 := Encoded(|t.kids|) + t2;
    assert Saved(t) + rest == SavedInfo(t.info) + t1;
    InfoBack(t.info, t1);
    IntegerRoundTrip(|t.kids|, t2);
    AllBack(t.kids, rest);
  }

  lemma {:induction false} AllBack(ts: seq<Tree>, rest: Text)
    requires forall k | k in ts :: TreeFits(k)
    ensures LoadAll(|ts|, SavedAll(ts) + rest) == Some((NormalAll(ts), rest))
    decreases ts
  {
    hide Saved, Load, NormalTree, TreeFits;
    if ts != [] {
      var tail := SavedAll(ts[1..]) + rest;
      assert SavedAll(ts) + rest == Saved(ts[0]) + tail;
      TreeBack(ts[0], tail);
      AllBack(ts[1..], rest);
    } else {
      assert SavedAll(ts) + rest == rest;
    }
  }

  // ---------------------------------------------------------------- what does not come back

  lemma TokenLost(s: Option<Text>, rest: Text)
    requires Writable(s) && !Fits(s)
    ensures Token(EncodedToken(s) + rest).0 == None && Normal(s).Some?
  {
    var t := s.value;
    assert EncodedToken(s) + rest == Encoded(|t| + 32) + (t + rest);
    IntegerRoundTrip(|t| + 32, t + rest);
  }

  lemma {:induction false} ParamsLost(ps: seq<Param>, more: seq<Param>, rest: Text)
    requires forall p | p in more :: Writable(Some(p.name)) && Writable(Some(p.value))
    requires exists p :: p in more && !(Fits(Some(p.name)) && Fits(Some(p.value)))
    ensures LoadParams(ps, |more|, SavedParams(more) + rest) == None
    decreases |more|
  {
    hide EncodedToken, Token, Normal, NormalText, SetParam, Fits, Writable;
    var p := more[0];
    var tail := SavedParams(more[1..]) + rest;
    assert SavedParams(more) + rest == EncodedToken(Some(p.name)) + (EncodedToken(Some(p.value)) + tail);
    if !Fits(Some(p.name)) {
      TokenLost(Some(p.name), EncodedToken(Some(p.value)) + tail);
    } else {
      TokenBack(Some(p.name), EncodedToken(Some(p.value)) + tail);
      if !Fits(Some(p.value)) {
        TokenLost(Some(p.value), tail);
      } else {
        TokenBack(Some(p.value), tail);
        NormalSome(p.name);
        NormalSome(p.value);
        ParamsLost(SetParam(ps, NormalParam(p)), more[1..], rest);
      }
    }
  }

  /** What loading gives is not what was saved. */
  ghost predicate Differs<T(!new)>(r: Option<(T, Text)>, x: T) {
    r.Some? ==> r.value.0 != x
  }

  lemma SavedInfoParts(i: Info, ct: ContentType, rest: Text)
    requires ct == if i.type_ == None then ContentType(None, None, []) else i.type_.value
    ensures SavedInfo(i) + rest ==
      EncodedToken(ct.major) + (EncodedToken(ct.minor) + (Encoded(|ct.params|) + (SavedParams(ct.params) +
      (EncodedToken(i.id) + (EncodedToken(i.description) + (EncodedToken(i.encoding) + (Encoded(i.size) + rest)))))))
  {
    hide EncodedToken, Encoded, SavedParams;
    NoParams();
    var t4 := EncodedToken(i.id) + (EncodedToken(i.description) + (EncodedToken(i.encoding) + (Encoded(i.size) + rest)));
    assert SavedInfo(i) + rest == SavedType(i.type_) + t4;
  }

  /** The first field that does not fit comes back as nothing, or loading stops there. */
  lemma InfoLost(i: Info, rest: Text)
    requires InfoWritable(i) && !InfoFits(i)
    ensures Differs(LoadInfo(SavedInfo(i) + rest), NormalInfo(i))
  {
    hide EncodedToken, Token, Normal, Encoded, Decode, Stored, LoadParams, SavedParams, AllSet, Fits, Writable, SavedInfo;
    var ct := if i.type_ == None then ContentType(None, None, []) else i.type_.value;
    SavedInfoParts(i, ct, rest);
    var t7 := Encoded(i.size) + rest;
    var t6 := EncodedToken(i.encoding) + t7;
    var t5 := EncodedToken(i.description) + t6;
    var t4 := EncodedToken(i.id) + t5;
    var t3 := SavedParams(ct.params) + t4;
    var t2 := Encoded(|ct.params|) + t3;
    var t1 := EncodedToken(ct.minor) + t2;
    TokenEither(ct.major, t1);
    TokenEither(ct.minor, t2);
    IntegerRoundTrip(|ct.params|, t3);
    if forall p | p in ct.params :: Fits(Some(p.name)) && Fits(Some(p.value)) {
      ParamsBack([], ct.params, t4);
    } else {
      ParamsLost([], ct.params, t4);
    }
    TokenEither(i.id, t5);
    TokenEither(i.description, t6);
    TokenEither(i.encoding, t7);
    NothingFits();
  }

  lemma NothingFits()
    ensures Fits(None) && Writable(None) && Normal(None) == None
  {
  }

  /** A string comes back, or nothing does. */
  lemma TokenEither(s: Option<Text>, rest: Text)
    requires Writable(s)
    ensures Fits(s) ==> Token(EncodedToken(s) + rest) == (Normal(s), rest)
    ensures !Fits(s) ==> Token(EncodedToken(s) + rest).0 == None && Normal(s) != None
  {
    if Fits(s) { TokenBack(s, rest); } else { TokenLost(s, rest); }
  }

  lemma {:induction false} TreeLost(t: Tree, rest: Text)
    requires TreeWritable(t) && !TreeFits(t)
    ensures Differs(Load(Saved(t) + rest), NormalTree(t))
    decreases t
  {
    hide SavedInfo, LoadInfo, NormalInfo, InfoFits, InfoWritable, Encoded, Decode;
    var t2 := SavedAll(t.kids) + rest;
    var t1 := Encoded(|t.kids|) + t2;
    assert Saved(t) + rest == SavedInfo(t.info) + t1;
    if !InfoFits(t.info) {
      InfoLost(t.info, t1);
    } else {
      InfoBack(t.info, t1);
      IntegerRoundTrip(|t.kids|, t2);
      if |t.kids| <= COUNT_LIMIT { AllLost(t.kids, rest); }
    }
  }

  lemma {:induction false} AllLost(ts: seq<Tree>, rest: Text)
    requires (forall k | k in ts :: TreeWritable(k)) && exists k :: k in ts && !TreeFits(k)
    ensures Differs(LoadAll(|ts|, SavedAll(ts) + rest), NormalAll(ts))
    decreases ts
  {
    hide Saved, Load, NormalTree, TreeFits, TreeWritable;
    var tail := SavedAll(ts[1..]) + rest;
    assert SavedAll(ts) + rest == Saved(ts[0]) + tail;
    if TreeFits(ts[0]) {
      TreeBack(ts[0], tail);
      AllLost(ts[1..], rest);
      assert NormalAll(ts)[1..] == NormalAll(ts[1..]);
      var r := LoadAll(|ts|, SavedAll(ts) + rest);
      if r.Some? { assert r.value.0[1..] == LoadAll(|ts| - 1, tail).value.0; }
    } else {
      TreeLost(ts[0], tail);
      assert NormalAll(ts)[0] == NormalTree(ts[0]);
      var r := LoadAll(|ts|, SavedAll(ts) + rest);
      if r.Some? { assert r.value.0[0] == Load(Saved(ts[0]) + tail).value.0; }
    }
  }

  /** The exact condition: what is loaded is what was saved if and only if every string fits and
      no part has too many parameters or children; then exactly the saved bytes are used. */
  lemma TreeBackIff(t: Tree, rest: Text)
    requires TreeWritable(t)
    ensures Load(Saved(t) + rest) == Some((NormalTree(t), rest)) <==> TreeFits(t)
    ensures Differs(Load(Saved(t) + rest), NormalTree(t)) <==> !TreeFits(t)
  {
    hide Saved, Load, NormalTree, TreeFits, TreeWritable;
    if TreeFits(t) { TreeBack(t, rest); } else { TreeLost(t, rest); }
  }

  /** Parameters whose names differ in more than case come back in order. */
  predicate Distinct(ps: seq<Param>) {
    forall i, j | 0 <= i < j < |ps| :: !SameName(ps[i].name, ps[j].name)
  }

  lemma {:induction false} LowerTwice(t: Text)
    ensures LowerAll(LowerAll(t)) == LowerAll(t)
  {
    if t != [] { LowerTwice(t[1..]); }
  }

  lemma NormalName(t: Text)
    ensures LowerAll(NormalText(t)) == LowerAll(t)
  {
    LowerTwice(t);
  }

  lemma {:induction false} SetNew(ps: seq<Param>, p: Param)
    requires forall q | q in ps :: !SameName(q.name, p.name)
    ensures SetParam(ps, p) == ps + [p]
  {
    if ps != [] { SetNew(ps[1..], p); }
  }

  /** A name that is there, in whatever case, gets the new value in its place and keeps its spelling. */
  lemma {:induction false} SetKnown(ps: seq<Param>, p: Param, i: nat)
    requires i < |ps| && SameName(ps[i].name, p.name) && forall j | 0 <= j < i :: !SameName(ps[j].name, p.name)
    ensures SetParam(ps, p) == ps[i := Param(ps[i].name, p.value)]
    decreases |ps|
  {
    if i > 0 {
      SetKnown(ps[1..], p, i - 1);
      assert ps[1..][i - 1 := Param(ps[i].name, p.value)] == ps[i := Param(ps[i].name, p.value)][1..];
    }
  }

  ghost function NormalParams(ps: seq<Param>): (r: seq<Param>)
    ensures |r| == |ps|
  {
    if ps == [] then [] else NormalParams(ps[..|ps| - 1]) + [NormalParam(ps[|ps| - 1])]
  }

  lemma {:induction false} NormalParamAt(ps: seq<Param>, i: nat)
    requires i < |ps|
    ensures NormalParams(ps)[i] == NormalParam(ps[i])
  {
    if i < |ps| - 1 { NormalParamAt(ps[..|ps| - 1], i); }
  }

  lemma {:induction false} SetInOrder(all: seq<Param>, n: nat)
    requires Distinct(all) && n <= |all|
    ensures AllSet(NormalParams(all[..n]), all[n..]) == NormalParams(all)
    decreases |all| - n
  {
    if n < |all| {
      var done, p := NormalParams(all[..n]), NormalParam(all[n]);
      forall q | q in done ensures !SameName(q.name, p.name) {
        var i :| 0 <= i < n && done[i] == q;
        NormalParamAt(all[..n], i);
        NormalName(all[i].name);
        NormalName(all[n].name);
      }
      SetNew(done, p);
      assert all[..n + 1][..n] == all[..n] && all[n..][1..] == all[n + 1..];
      SetInOrder(all, n + 1);
    } else {
      assert all[..n] == all;
    }
  }

  lemma ParamsInOrder(ct: ContentType)
    requires Distinct(ct.params)
    ensures NormalType(Some(ct)).params == NormalParams(ct.params)
  {
    assert ct.params[..0] == [] && ct.params[0..] == ct.params;
    SetInOrder(ct.params, 0);
  }
}
