/** Saving and loading the parts of a message, which are linked by child, next and parent pointers. */
module ContentParts {
  import opened Basics
  import opened Codec
  import opened Tokens
  import opened ContentTree

  class ContentInfo {
    var next: ContentInfo?
    var childs: ContentInfo?
    var parent: ContentInfo?
    var type_: Option<ContentType>
    var id: Option<Text>
    var description: Option<Text>
    var encoding: Option<Text>
    var size: Word

    constructor ()
      ensures next == null && childs == null && parent == null
      ensures InfoOf() == Info(None, None, None, None, 0)
    {
      next, childs, parent := null, null, null;
      type_, id, description, encoding, size := None, None, None, None, 0;
    }

    function InfoOf(): Info
      reads this`type_, this`id, this`description, this`encoding, this`size
    {
      Info(type_, id, description, encoding, size)
    }
  }

  /** The parts of a tree, in order; `below` are all parts under `node`. */
  datatype Shape = Shape(node: ContentInfo, info: Info, kids: seq<Shape>, below: set<ContentInfo>) {
    ghost function Nodes(): set<ContentInfo> {
      {node} + below
    }
  }

  ghost function TreeOf(s: Shape): Tree {
    Tree(s.info, TreesOf(s.kids))
  }

  ghost function TreesOf(ks: seq<Shape>): (ts: seq<Tree>)
    ensures |ts| == |ks|
  {
    if ks == [] then [] else TreesOf(ks[..|ks| - 1]) + [TreeOf(ks[|ks| - 1])]
  }

  /** The part behind the first `i`. */
  ghost function After(ks: seq<Shape>, i: nat): ContentInfo? {
    if i < |ks| then ks[i].node else null
  }

  /** The parts `ks`, among `all`, are a list, each with the parent `p`, each a tree, and no two
      share a part. */
  ghost predicate AreKids(ks: seq<Shape>, p: ContentInfo, all: set<ContentInfo>)
    reads all
    decreases ks, 0
  {
    && (forall i | 0 <= i < |ks| :: ks[i].Nodes() <= all && ks[i].node.next == After(ks, i + 1) && ks[i].node.parent == p)
    && (forall i | 0 <= i < |ks| :: IsTree(ks[i]))
    && forall i, j | 0 <= i < j < |ks| :: ks[i].Nodes() !! ks[j].Nodes()
  }

  /** The pointers below a part form its tree. */
  ghost predicate IsTree(s: Shape)
    reads s.node`childs, s.node`type_, s.node`id, s.node`description, s.node`encoding, s.node`size, s.below
    decreases s, 1
  {
    && s.node !in s.below && s.node.InfoOf() == s.info && s.node.childs == After(s.kids, 0)
    && AreKids(s.kids, s.node, s.below)
  }

  // ---------------------------------------------------------------- saving

  lemma {:induction false} SavedParamsNext(ps: seq<Param>, i: nat)
    requires i < |ps|
    ensures SavedParams(ps[..i + 1]) == SavedParams(ps[..i]) + EncodedToken(Some(ps[i].name)) + EncodedToken(Some(ps[i].value))
    decreases i
  {
    hide EncodedToken;
    if i > 0 {
      SavedParamsNext(ps[1..], i - 1);
      assert ps[..i + 1][1..] == ps[1..][..i] && ps[..i][1..] == ps[1..][..i - 1];
    } else {
      assert ps[..1] == [ps[0]] && ps[..1][1..] == [] && ps[..0] == [];
      var n, v: Text := EncodedToken(Some(ps[0].name)), EncodedToken(Some(ps[0].value));
      assert SavedParams([]) == [] && v + [] == v && [] + n + v == n + v;
    }
  }

  /** content_info_save */
  method SaveInfo(out: Output, ci: ContentInfo)
    requires InfoWritable(ci.InfoOf())
    modifies out
    ensures out.bytes == old(out.bytes) + SavedInfo(ci.InfoOf())
  {
    hide EncodedToken, Encoded, SavedParams;
    ghost var start := out.bytes;
    SaveType(out, ci.type_);
    var _ := EncodeToken(out, ci.id);
    var _ := EncodeToken(out, ci.description);
    var _ := EncodeToken(out, ci.encoding);
    var _ := EncodeUint32(out, ci.size);
  }

  method SaveType(out: Output, t: Option<ContentType>)
    requires t.Some? ==> InfoWritable(Info(t, None, None, None, 0))
    modifies out
    ensures out.bytes == old(out.bytes) + SavedType(t)
  {
    hide EncodedToken, Encoded, SavedParams;
    NoParams();
    if t == None {
      var _ := EncodeToken(out, None);
      var _ := EncodeToken(out, None);
      var _ := EncodeUint32(out, 0);
      return;
    }
    var ct := t.value;
    var _ := EncodeToken(out, ct.major);
    var _ := EncodeToken(out, ct.minor);
    var _ := EncodeUint32(out, |ct.params|);
    ghost var start := out.bytes;
    var i := 0;
    assert ct.params[..0] == [] && start + [] == start;
    while i < |ct.params|
      invariant 0 <= i <= |ct.params| && out.bytes == start + SavedParams(ct.params[..i])
    {
      SavedParamsNext(ct.params, i);
      var _ := EncodeToken(out, Some(ct.params[i].name));
      var _ := EncodeToken(out, Some(ct.params[i].value));
      i := i + 1;
    }
    assert ct.params[..i] == ct.params;
  }

  /** my_list_size, of the children. */
  method CountKids(ci: ContentInfo, ghost s: Shape) returns (n: nat)
    requires s.node == ci && IsTree(s)
    ensures n == |s.kids|
  {
    n := 0;
    var ln := ci.childs;
    while ln != null
      invariant n <= |s.kids| && ln == After(s.kids, n)
      decreases |s.kids| - n
    {
      n := n + 1;
      ln := ln.next;
    }
  }

  lemma {:induction false} SavedNext(ts: seq<Tree>, t: Tree)
    ensures SavedAll(ts + [t]) == SavedAll(ts) + Saved(t)
  {
    hide Saved;
    if ts == [] {
      assert ts + [t] == [t] && [t][1..] == [] && SavedAll([]) == [];
      assert Saved(t) + [] == Saved(t) == [] + Saved(t);
    } else {
      SavedNext(ts[1..], t);
      assert (ts + [t])[1..] == ts[1..] + [t];
    }
  }

  lemma TreesNext(ks: seq<Shape>, i: nat)
    requires i < |ks|
    ensures TreesOf(ks[..i + 1]) == TreesOf(ks[..i]) + [TreeOf(ks[i])]
  {
    assert ks[..i + 1][..i] == ks[..i];
  }

  lemma {:induction false} TreeAt(ks: seq<Shape>, i: nat)
    requires i < |ks|
    ensures TreesOf(ks)[i] == TreeOf(ks[i])
  {
    if i < |ks| - 1 { TreeAt(ks[..|ks| - 1], i); }
  }

  lemma TreeParts(s: Shape)
    requires IsTree(s)
    ensures s.node.childs == After(s.kids, 0) && s.node.InfoOf() == s.info && AreKids(s.kids, s.node, s.below)
    ensures s.node !in s.below
  {
  }

  lemma KidParts(ks: seq<Shape>, p: ContentInfo, all: set<ContentInfo>, i: nat)
    requires AreKids(ks, p, all) && i < |ks|
    ensures IsTree(ks[i]) && ks[i].node.next == After(ks, i + 1) && ks[i].Nodes() <= all && ks[i].node in all
  {
  }

  lemma AfterIs(ks: seq<Shape>, i: nat)
    ensures After(ks, i) == if i < |ks| then ks[i].node else null
  {
  }

  lemma WritableParts(s: Shape, i: nat)
    requires TreeWritable(TreeOf(s))
    ensures InfoWritable(s.info) && |s.kids| < 0x1_0000_0000
    ensures i < |s.kids| ==> TreeWritable(TreeOf(s.kids[i]))
  {
    if i < |s.kids| {
      TreeAt(s.kids, i);
      assert TreeOf(s.kids[i]) in TreeOf(s).kids;
    }
  }

  lemma SavedTree(s: Shape, start: Text)
    ensures start + SavedInfo(s.info) + Encoded(|s.kids|) + SavedAll(TreesOf(s.kids)) == start + Saved(TreeOf(s))
  {
    hide SavedInfo, Encoded, SavedAll, TreesOf;
    var a, b, c: Text := SavedInfo(s.info), Encoded(|s.kids|), SavedAll(TreesOf(s.kids));
    assert start + a + b + c == start + (a + (b + c));
  }

  /** perform_content_info_save */
  method SaveTree(out: Output, ci: ContentInfo, ghost s: Shape)
    requires s.node == ci && IsTree(s) && TreeWritable(TreeOf(s))
    modifies out
    ensures out.bytes == old(out.bytes) + Saved(TreeOf(s))
    decreases s
  {
    hide *;
    TreeParts(s);
    WritableParts(s, 0);
    SaveInfo(out, ci);
    var n := CountKids(ci, s);
    var _ := EncodeUint32(out, n);
    ghost var start := out.bytes;
    var part := ci.childs;
    ghost var i := 0;
    NoneSaved(start, s.kids);
    AfterIs(s.kids, 0);
    while part != null
      invariant i <= |s.kids| && part == After(s.kids, i) && (part == null <==> i == |s.kids|)
      invariant IsTree(s) && AreKids(s.kids, ci, s.below)
      invariant out.bytes == start + SavedAll(TreesOf(s.kids[..i]))
      decreases |s.kids| - i
    {
      AfterIs(s.kids, i);
      KidParts(s.kids, ci, s.below, i);
      WritableParts(s, i);
      SaveTree(out, part, s.kids[i]);
      TreesNext(s.kids, i);
      SavedNext(TreesOf(s.kids[..i]), TreeOf(s.kids[i]));
      KidParts(s.kids, ci, s.below, i);
      part := part.next;
      i := i + 1;
      AfterIs(s.kids, i);
    }
    assert s.kids[..i] == s.kids;
    SavedTree(s, old(out.bytes));
  }

  lemma NoneSaved(start: Text, ks: seq<Shape>)
    ensures start == start + SavedAll(TreesOf(ks[..0]))
  {
  }

  // ---------------------------------------------------------------- loading

  lemma KidsApart(ks: seq<Shape>, p: ContentInfo, all: set<ContentInfo>)
    requires AreKids(ks, p, all)
    ensures forall i, j | 0 <= i < |ks| && 0 <= j < |ks| :: ks[i].node !in ks[j].below
    ensures forall i | 0 <= i < |ks| :: IsTree(ks[i])
  {
    forall i, j | 0 <= i < |ks| && 0 <= j < |ks| ensures ks[i].node !in ks[j].below {
      if i == j {
        TreeParts(ks[i]);
      } else {
        assert if i < j then ks[i].Nodes() !! ks[j].Nodes() else ks[j].Nodes() !! ks[i].Nodes();
      }
    }
  }

  ghost predicate Apart(ks: seq<Shape>) {
    forall i, j | 0 <= i < j < |ks| :: ks[i].Nodes() !! ks[j].Nodes()
  }

  lemma KidsAre(ks: seq<Shape>, p: ContentInfo, all: set<ContentInfo>)
    requires AreKids(ks, p, all)
    ensures Apart(ks) && forall i | 0 <= i < |ks| :: ks[i].Nodes() <= all && ks[i].node.parent == p && IsTree(ks[i])
    ensures forall i {:trigger ks[i].node} | 0 <= i < |ks| ::
              ks[i].node in all && ks[i].node.next == if i + 1 < |ks| then ks[i + 1].node else null
    ensures forall i, j | 0 <= i < |ks| && 0 <= j < |ks| :: ks[i].node !in ks[j].below
    ensures forall i, j | 0 <= i < |ks| && 0 <= j < |ks| && i != j :: ks[i].node != ks[j].node
  {
    KidsApart(ks, p, all);
    forall i, j | 0 <= i < |ks| && 0 <= j < |ks| && i != j ensures ks[i].node != ks[j].node {
      if i < j { assert ks[i].Nodes() !! ks[j].Nodes(); } else { assert ks[j].Nodes() !! ks[i].Nodes(); }
    }
  }

  lemma KidsWith(ks: seq<Shape>, k: Shape, p: ContentInfo, all: set<ContentInfo>)
    requires Apart(ks) && (forall i | 0 <= i < |ks| :: ks[i].Nodes() <= all) && k.Nodes() !! all
    requires forall i | 0 <= i < |ks| :: ks[i].node.parent == p && IsTree(ks[i])
    requires forall i {:trigger ks[i].node} | 0 <= i < |ks| :: ks[i].node.next == if i + 1 < |ks| then ks[i + 1].node else k.node
    requires IsTree(k) && k.node.parent == p && k.node.next == null
    ensures AreKids(ks + [k], p, all + k.Nodes())
  {
    hide IsTree;
    var more := ks + [k];
    forall i | 0 <= i < |more|
      ensures more[i].Nodes() <= all + k.Nodes() && more[i].node.parent == p && IsTree(more[i])
      ensures more[i].node.next == After(more, i + 1)
    {
      if i < |ks| {
        assert more[i] == ks[i] && more[i + 1] == if i + 1 < |ks| then ks[i + 1] else k;
        assert ks[i].node.next == if i + 1 < |ks| then ks[i + 1].node else k.node;
      } else {
        assert more[i] == k;
      }
    }
    forall i, j | 0 <= i < j < |more| ensures more[i].Nodes() !! more[j].Nodes() {
      if j < |ks| { assert ks[i].Nodes() !! ks[j].Nodes(); }
    }
  }

  method LastKid(ci: ContentInfo, ghost ks: seq<Shape>, ghost all: set<ContentInfo>) returns (ln: ContentInfo)
    requires AreKids(ks, ci, all) && ci.childs == After(ks, 0) && ci.childs != null
    ensures ks != [] && ln == ks[|ks| - 1].node
  {
    hide IsTree;
    ln := ci.childs;
    ghost var i := 0;
    while ln.next != null
      invariant i < |ks| && ln == ks[i].node
      decreases |ks| - i
    {
      ln := ln.next;
      i := i + 1;
    }
  }

  /** my_list_append to the children, and the parent link. */
  method AddKid(ci: ContentInfo, part: ContentInfo, ghost ks: seq<Shape>, ghost k: Shape, ghost all: set<ContentInfo>)
    requires AreKids(ks, ci, all) && ci.childs == After(ks, 0) && ci !in all
    requires k.node == part && IsTree(k) && k.Nodes() !! all && ci !in k.Nodes()
    modifies ci`childs, all`next, part`next, part`parent
    ensures AreKids(ks + [k], ci, all + k.Nodes()) && ci.childs == After(ks + [k], 0)
  {
    hide AreKids, IsTree, Apart;
    KidsAre(ks, ci, all);
    TreeParts(k);
    if ci.childs == null {
      part.next := null;
      ci.childs := part;
    } else {
      var ln := LastKid(ci, ks, all);
      part.next := null;
      ln.next := part;
    }
    part.parent := ci;
    KidsWith(ks, k, ci, all);
  }

  /** A token, or nothing if it cannot be decoded: content_info_load does not ask which. */
  method GetToken(in_: Input) returns (s: Option<Text>)
    requires in_.Valid()
    modifies in_
    ensures in_.Valid() && (s, in_.Rest()) == Token(old(in_.Rest()))
  {
    var ok;
    ok, s := ReadToken(in_);
  }

  method ReadParams(in_: Input, count: nat) returns (ps: Option<seq<Param>>)
    requires in_.Valid()
    modifies in_
    ensures in_.Valid()
    ensures match LoadParams([], count, old(in_.Rest()))
            case None => ps == None
            case Some((qs, rest)) => ps == Some(qs) && in_.Rest() == rest
  {
    hide Token, SetParam;
    var i := 0;
    var params: seq<Param> := [];
    while i < count
      invariant 0 <= i <= count && in_.Valid()
      invariant LoadParams(params, count - i, in_.Rest()) == LoadParams([], count, old(in_.Rest()))
    {
      var name := GetToken(in_);
      var value := GetToken(in_);
      if name == None || value == None {
        return None;
      }
      params := SetParam(params, Param(name.value, value.value));
      i := i + 1;
    }
    ps := Some(params);
  }

  /** content_info_load */
  method ReadInfo(in_: Input) returns (ci: ContentInfo?)
    requires in_.Valid()
    modifies in_
    ensures in_.Valid()
    ensures match LoadInfo(old(in_.Rest()))
            case None => ci == null
            case Some((info, rest)) =>
              ci != null && fresh(ci) && ci.InfoOf() == info && in_.Rest() == rest && ci.childs == null
  {
    hide Token, Decode, Stored, LoadParams, DecodeToken, Encoded, SavedParams;
    var part := new ContentInfo();
    var major := GetToken(in_);
    var minor := GetToken(in_);
    var ok, count := DecodeUint32(in_);
    if !ok || count > COUNT_LIMIT { return null; }
    var params := ReadParams(in_, count);
    if params == None { return null; }
    part.type_ := Some(ContentType(major, minor, params.value));
    part.id := GetToken(in_);
    part.description := GetToken(in_);
    part.encoding := GetToken(in_);
    ok, part.size := DecodeUint32(in_);
    ci := part;
  }

  /** Loading the rest gives what loading all gives after the first trees. */
  ghost predicate Joined(whole: Option<(seq<Tree>, Text)>, first: seq<Tree>, rest: Option<(seq<Tree>, Text)>) {
    match rest
    case None => whole == None
    case Some((ts, t)) => whole == Some((first + ts, t))
  }

  lemma NothingJoined(n: nat, t: Text)
    ensures Joined(LoadAll(n, t), TreesOf([]), LoadAll(n, t))
  {
    var r := LoadAll(n, t);
    if r.Some? { assert [] + r.value.0 == r.value.0; }
  }

  lemma JoinNext(whole: Option<(seq<Tree>, Text)>, ks: seq<Shape>, k: Shape, n: nat, t: Text)
    requires n > 0 && Joined(whole, TreesOf(ks), LoadAll(n, t))
    ensures Load(t) == None ==> whole == None
    ensures Load(t).Some? && Load(t).value.0 == TreeOf(k) ==>
      Joined(whole, TreesOf(ks + [k]), LoadAll(n - 1, Load(t).value.1))
  {
    hide Load, TreeOf;
    if Load(t).Some? && Load(t).value.0 == TreeOf(k) {
      assert (ks + [k])[..|ks|] == ks;
      var r := LoadAll(n - 1, Load(t).value.1);
      if r.Some? { assert TreesOf(ks) + ([TreeOf(k)] + r.value.0) == TreesOf(ks + [k]) + r.value.0; }
    }
  }

  /** What loading comes to once the part itself and the number of its children are known. */
  lemma LoadIs(t: Text)
    ensures LoadInfo(t) == None ==> Load(t) == None
    ensures LoadInfo(t).Some? ==>
      var (info, t1) := LoadInfo(t).value;
      && (Decode(t1).Failed? ==> Load(t) == None)
      && (Decode(t1).Decoded? && Decode(t1).value > 500 ==> Load(t) == None)
      && (Decode(t1).Decoded? && Decode(t1).value <= 500 ==>
            var all := LoadAll(Decode(t1).value, Decode(t1).rest);
            Load(t) == if all == None then None else Some((Tree(info, all.value.0), all.value.1)))
      && |t1| <= |t| && (Decode(t1).Decoded? ==> |Decode(t1).rest| < |t1|)
  {
    hide LoadInfo, Decode, LoadAll;
  }

  /** The children that perform_content_info_load reads for the part `ci`. */
  method ReadKids(in_: Input, ci: ContentInfo, count: nat)
      returns (ok: bool, ghost ks: seq<Shape>, ghost all: set<ContentInfo>)
    requires in_.Valid() && ci.childs == null
    modifies in_, ci`childs
    ensures in_.Valid() && fresh(all) && AreKids(ks, ci, all) && ci.childs == After(ks, 0)
    ensures match LoadAll(count, old(in_.Rest()))
            case None => !ok
            case Some((ts, rest)) => ok && TreesOf(ks) == ts && in_.Rest() == rest
    decreases |in_.Rest()|, 1
  {
    hide *;
    ghost var t := in_.Rest();
    ok, ks, all := true, [], {};
    NoKids(ci);
    NothingJoined(count, t);
    var i := 0;
    while i < count
      invariant 0 <= i <= count && in_.Valid() && |in_.Rest()| <= |t|
      invariant AreKids(ks, ci, all) && ci.childs == After(ks, 0) && ci !in all && fresh(all)
      invariant Joined(LoadAll(count, t), TreesOf(ks), LoadAll(count - i, in_.Rest()))
    {
      ghost var u := in_.Rest();
      var part;
      ghost var k;
      part, k := ReadTree(in_);
      JoinNext(LoadAll(count, t), ks, if k.Some? then k.value else Shape(ci, ci.InfoOf(), [], {}), count - i, u);
      if part == null {
        ok := false;
        return;
      }
      LoadShrinks(u);
      AddKid(ci, part, ks, k.value, all);
      ks, all := ks + [k.value], all + k.value.Nodes();
      i := i + 1;
    }
    JoinedAll(LoadAll(count, t), TreesOf(ks), in_.Rest());
  }

  lemma LoadShrinks(t: Text)
    ensures Load(t).Some? ==> |Load(t).value.1| < |t|
  {
  }

  lemma NoKids(ci: ContentInfo)
    ensures AreKids([], ci, {}) && After([], 0) == null
  {
  }

  lemma JoinedAll(whole: Option<(seq<Tree>, Text)>, first: seq<Tree>, t: Text)
    requires Joined(whole, first, LoadAll(0, t))
    ensures whole == Some((first, t))
  {
    assert first + [] == first;
  }

  lemma NewTree(ci: ContentInfo, ks: seq<Shape>, all: set<ContentInfo>)
    requires AreKids(ks, ci, all) && ci.childs == After(ks, 0) && ci !in all
    ensures var s := Shape(ci, ci.InfoOf(), ks, all);
      IsTree(s) && TreeOf(s) == Tree(ci.InfoOf(), TreesOf(ks)) && s.Nodes() == {ci} + all
  {
  }

  /** perform_content_info_load.  The parts are new, linked as a tree, and hold what was saved. */
  method ReadTree(in_: Input) returns (ci: ContentInfo?, ghost s: Option<Shape>)
    requires in_.Valid()
    modifies in_
    ensures in_.Valid()
    ensures match Load(old(in_.Rest()))
            case None => ci == null && s == None
            case Some((t, rest)) =>
              ci != null && fresh(ci) && s.Some? && s.value.node == ci && fresh(s.value.Nodes()) && IsTree(s.value)
              && TreeOf(s.value) == t && in_.Rest() == rest
    decreases |in_.Rest()|, 0
  {
    hide *;
    ghost var t := in_.Rest();
    LoadIs(t);
    s := None;
    ci := ReadInfo(in_);
    if ci == null { return; }
    var ok, count := DecodeUint32(in_);
    if !ok || count > 500 { return null, None; }
    ghost var ks, all;
    ok, ks, all := ReadKids(in_, ci, count);
    if !ok { return null, None; }
    NewTree(ci, ks, all);
    s := Some(Shape(ci, ci.InfoOf(), ks, all));
  }
}
