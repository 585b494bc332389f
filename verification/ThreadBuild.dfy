/** The first phase of threading: one node per message and per referenced id, linked by the
    references of the messages, then the list of roots. */
module ThreadBuild {
  import opened SeqFacts
  import opened ThreadForest
  import opened ThreadLinks

  /** The nodes of `msgs` carry the messages; a node without a message has order 0. */
  ghost predicate Carried(f: Forest)
    reads f.nodes`message, f.nodes`order
  {
    && f.msgs <= f.nodes
    && forall n | n in f.nodes :: (n in f.msgs <==> n.message != null) && (n.message == null <==> n.order == 0)
  }

  ghost predicate Injective<K, V>(m: map<K, V>) {
    forall a, b | a in m && b in m && m[a] == m[b] :: a == b
  }

  /** Every node is in exactly one of the two tables, under one key. */
  ghost predicate Tabled(f: Forest, ids: map<nat, Node>, noIds: map<MessageInfo, Node>) {
    && f.nodes == ids.Values + noIds.Values && ids.Values !! noIds.Values
    && Injective(ids) && Injective(noIds)
  }

  /** The pointers form the forest `f`, whose roots are not listed yet. */
  ghost predicate Formed(f: Forest)
    reads f.hdr`child, f.nodes`next, f.nodes`child, f.nodes`parent, f.nodes`message, f.nodes`order
  {
    f.Ok() && Linked(f) && ParentsExact(f) && f.kids[f.hdr] == [] && Carried(f)
  }

  ghost predicate Linking(f: Forest, ids: map<nat, Node>, noIds: map<MessageInfo, Node>)
    reads f.hdr`child, f.nodes`next, f.nodes`child, f.nodes`parent, f.nodes`message, f.nodes`order
  {
    Formed(f) && Tabled(f, ids, noIds)
  }

  method NewNode(ghost f: Forest) returns (ghost g: Forest, c: Node)
    requires Formed(f)
    ensures fresh(c) && g == f.AddNode(c) && Formed(g)
  {
    c := new Node();
    g := f.AddNode(c);
    AddNodeOk(f, c);
    AddNodeLinked(f, c);
  }

  lemma MsgsOk(f: Forest, msgs: set<Node>)
    requires f.Ok()
    ensures f.(msgs := msgs).Ok()
  {
    var g := f.(msgs := msgs);
    assert g.KidsOk() by {
      forall o, k | o in g.kids && k in g.kids[o] ensures g.KidOk(o, k) { assert f.Holds(o, k); }
    }
    assert g.PlacesOk() by {
      forall n | n in g.nodes && g.anc[n] != [] ensures g.Placed(n) { assert f.Placed(n); }
    }
  }

  method SetMessage(ghost f: Forest, c: Node, mi: MessageInfo, order: nat) returns (ghost g: Forest)
    requires Formed(f) && c in f.nodes && c.message == null && order > 0
    modifies c`message, c`order
    ensures g == f.(msgs := f.msgs + {c}) && Formed(g)
    ensures c.message == mi && c.order == order
  {
    g := f.(msgs := f.msgs + {c});
    MsgsOk(f, g.msgs);
    c.message, c.order := mi, order;
  }

  lemma ValuesAfterInsert<K, V>(m: map<K, V>, k: K, v: V)
    requires k !in m
    ensures m[k := v].Values == m.Values + {v}
  {
    var m' := m[k := v];
    assert m'[k] == v;
    forall w | w in m.Values ensures w in m'.Values {
      var j :| j in m && m[j] == w;
      assert m'[j] == w;
    }
  }

  lemma TabledId(f: Forest, ids: map<nat, Node>, noIds: map<MessageInfo, Node>, id: nat, c: Node)
    requires Tabled(f, ids, noIds) && id !in ids && c !in f.nodes
    ensures Tabled(f.AddNode(c), ids[id := c], noIds)
  {
    ValuesAfterInsert(ids, id, c);
  }

  lemma TabledNoId(f: Forest, ids: map<nat, Node>, noIds: map<MessageInfo, Node>, mi: MessageInfo, c: Node)
    requires Tabled(f, ids, noIds) && mi !in noIds && c !in f.nodes
    ensures Tabled(f.AddNode(c), ids, noIds[mi := c])
  {
    ValuesAfterInsert(noIds, mi, c);
  }

  // ---------------------------------------------------------------- one message

  /** `c`, new or a placeholder so far, now carries a message. */
  ghost function Enter(f: Forest, c: Node): Forest {
    (if c in f.nodes then f else f.AddNode(c)).(msgs := f.msgs + {c})
  }

  /** Has the id of `mi` already been taken by another message? */
  ghost predicate Duplicate(f: Forest, ids: map<nat, Node>, mi: MessageInfo) {
    mi.messageId in ids && ids[mi.messageId] in f.msgs
  }

  /** The node under the key of `mi` is `c`; a message without an id of its own goes to `noIds`. */
  ghost predicate EnteredAt(f: Forest, ids: map<nat, Node>, noIds: map<MessageInfo, Node>,
                            ids': map<nat, Node>, noIds': map<MessageInfo, Node>, mi: MessageInfo, c: Node)
  {
    if mi.messageId != 0 && !Duplicate(f, ids, mi) then
      ids' == ids[mi.messageId := c] && noIds' == noIds && (mi.messageId in ids ==> ids[mi.messageId] == c)
    else
      ids' == ids && noIds' == noIds[mi := c]
  }

  method EnterMessage(ghost f: Forest, ids: map<nat, Node>, noIds: map<MessageInfo, Node>,
                      mi: MessageInfo, order: nat)
      returns (ghost g: Forest, c: Node, ids': map<nat, Node>, noIds': map<MessageInfo, Node>)
    requires Linking(f, ids, noIds) && mi !in noIds && order > 0
    modifies f.nodes`message, f.nodes`order
    ensures fresh(c) || c in f.nodes - f.msgs
    ensures g == Enter(f, c) && EnteredAt(f, ids, noIds, ids', noIds', mi, c)
    ensures Linking(g, ids', noIds')
    ensures c.message == mi && c.order == order
    ensures forall n | n in f.nodes && n != c :: n.message == old(n.message) && n.order == old(n.order)
  {
    ids', noIds' := ids, noIds;
    g := f;
    if mi.messageId != 0 && mi.messageId in ids {
      assert ids[mi.messageId] in ids.Values;
    }
    if mi.messageId != 0 && mi.messageId in ids && ids[mi.messageId].order == 0 {
      c := ids[mi.messageId];
    } else {
      g, c := NewNode(f);
      if mi.messageId != 0 && mi.messageId !in ids {
        ids' := ids[mi.messageId := c];
        TabledId(f, ids, noIds, mi.messageId, c);
      } else {
        noIds' := noIds[mi := c];
        TabledNoId(f, ids, noIds, mi, c);
      }
    }
    g := SetMessage(g, c, mi, order);
  }

  // ---------------------------------------------------------------- the references of one message

  /** One reference `r` of the chain: the node of `r` becomes the parent of `child` unless that is
      refused, and is the next child. */
  ghost function LinkStep(f: Forest, ids: map<nat, Node>, child: Node, r: nat): (Forest, Node) {
    if r == 0 || r !in ids then (f, child)
    else
      var c := ids[r];
      var h := if c in f.nodes then f else f.AddNode(c);
      if c != child && h.Ok() && c in h.nodes && child in h.nodes then (ParentChild(h, c, child), c) else (h, c)
  }

  /** Is `child` above `c`, so that it must not come below it? */
  ghost predicate Above(f: Forest, child: Node, c: Node) {
    c in f.anc && child in f.anc[c]
  }

  /** What one reference does to the parents: the node of the id becomes the parent of `child`, unless
      it is below it, and nothing else changes. */
  lemma LinkStepParents(f: Forest, ids: map<nat, Node>, child: Node, r: nat, g: Forest, c: Node)
    requires f.Ok() && f.kids[f.hdr] == [] && child in f.nodes && r != 0 && r in ids && ids[r] != f.hdr
    requires (g, c) == LinkStep(f, ids, child, r)
    ensures g.Ok() && g.kids[g.hdr] == [] && g.hdr == f.hdr && g.msgs == f.msgs && g.nodes == f.nodes + {c} && c == ids[r]
    ensures Parent(g, child) == if c == child || Above(f, child, c) then Parent(f, child) else c
    ensures forall n | n != child :: Parent(g, n) == Parent(f, n)
  {
    hide Forest.KidsOk, Forest.PlacesOk, Forest.ListsOk, Unparented;
    var h := if c in f.nodes then f else f.AddNode(c);
    if c !in f.nodes { AddNodeOk(f, c); }
    assert h.Ok() && h.kids[h.hdr] == [] && forall n :: Parent(h, n) == Parent(f, n);
    if c != child {
      ParentChildFrame(h, c, child);
      if !Refused(h, c, child) {
        ParentChildParents(h, c, child);
      } else if Above(h, child, c) {
        assert Above(f, child, c);
      } else {
        NotOwnAncestor(h, c);
        ChildOf(h, child);
      }
    }
  }

  /** A node is not above its parent. */
  lemma ChildOf(f: Forest, n: Node)
    requires f.Ok() && n in f.nodes && f.anc[n] != []
    ensures f.anc[n][0] in f.nodes && n !in f.anc[f.anc[n][0]]
  {
    NotOwnAncestor(f, n);
    assert f.Placed(n) && f.Holds(f.anc[n][0], n);
  }

  /** The forest after the references `refs`, nearest first, of the node `child`. */
  ghost function LinkChain(f: Forest, ids: map<nat, Node>, child: Node, refs: seq<nat>): (Forest, Node) {
    if refs == [] then (f, child)
    else
      var (h, c) := LinkChain(f, ids, child, refs[..|refs| - 1]);
      LinkStep(h, ids, c, refs[|refs| - 1])
  }

  lemma LinkChainNext(f: Forest, ids: map<nat, Node>, child: Node, refs: seq<nat>, j: nat)
    requires j < |refs|
    ensures var (h, c) := LinkChain(f, ids, child, refs[..j]);
      LinkChain(f, ids, child, refs[..j + 1]) == if refs[j] == 0 then (h, c) else LinkStep(h, ids, c, refs[j])
  {
    assert refs[..j + 1][..j] == refs[..j];
  }

  /** Ids entered later do not change a chain whose ids are all known. */
  lemma {:induction false} LinkChainStable(f: Forest, ids: map<nat, Node>, ids': map<nat, Node>, child: Node, refs: seq<nat>)
    requires forall r | r in refs && r != 0 :: r in ids
    requires forall k | k in ids :: k in ids' && ids'[k] == ids[k]
    ensures LinkChain(f, ids', child, refs) == LinkChain(f, ids, child, refs)
  {
    if refs != [] {
      LinkChainStable(f, ids, ids', child, refs[..|refs| - 1]);
      assert refs[|refs| - 1] in refs;
    }
  }

  ghost predicate Extends<K, V>(m: map<K, V>, m': map<K, V>) {
    forall k | k in m :: k in m' && m'[k] == m[k]
  }

  function NonZero(refs: seq<nat>): set<nat> {
    set r | r in refs && r != 0
  }

  method LookupOrCreate(ghost f: Forest, ids: map<nat, Node>, ghost noIds: map<MessageInfo, Node>, r: nat)
      returns (ghost g: Forest, c: Node, ids': map<nat, Node>)
    requires Linking(f, ids, noIds)
    ensures Linking(g, ids', noIds) && Extends(ids, ids') && ids'.Keys == ids.Keys + {r}
    ensures r in ids' && c == ids'[r] && c in g.nodes
    ensures if c in f.nodes then g == f else fresh(c) && g == f.AddNode(c)
  {
    g, ids' := f, ids;
    if r in ids {
      c := ids[r];
      assert c in ids.Values;
    } else {
      g, c := NewNode(f);
      ids' := ids[r := c];
      TabledId(f, ids, noIds, r, c);
    }
  }

  method LinkReference(ghost f: Forest, ids: map<nat, Node>, ghost noIds: map<MessageInfo, Node>, child: Node, r: nat)
      returns (ghost g: Forest, c: Node, ids': map<nat, Node>)
    requires Linking(f, ids, noIds) && child in f.nodes && r != 0
    modifies f.nodes`next, f.nodes`child, f.nodes`parent
    ensures Linking(g, ids', noIds) && Extends(ids, ids') && ids'.Keys == ids.Keys + {r}
    ensures (g, c) == LinkStep(f, ids', child, r)
    ensures c in g.nodes && f.nodes <= g.nodes && fresh(g.nodes - f.nodes)
    ensures g.hdr == f.hdr && g.msgs == f.msgs
    ensures c == ids'[r] && (c in f.nodes || c.parent == null)
    ensures child.parent == if c == child || Above(f, child, c) then old(child.parent) else c
    ensures forall n | n in f.nodes && n != child :: n.parent == old(n.parent)
  {
    hide Forest.Ok, Linked, ParentsExact, Carried, Tabled, ParentChild;
    PointersAre(f);
    g, c, ids' := LookupOrCreate(f, ids, noIds, r);
    ghost var h := g;
    if c != child {
      ParentChildFrame(h, c, child);
      g := ContainerParentChild(h, c, child);
      SameNodes(h, g, ids', noIds);
    }
    LinkStepParents(f, ids', child, r, g, c);
    PointersAre(g);
  }

  lemma PointersAre(f: Forest)
    requires Formed(f)
    ensures f.Ok() && f.kids[f.hdr] == [] && f.hdr !in f.nodes && f.anc.Keys == f.nodes
    ensures forall n | n in f.nodes :: n.parent == Parent(f, n)
  {
  }

  lemma SameNodes(f: Forest, g: Forest, ids: map<nat, Node>, noIds: map<MessageInfo, Node>)
    requires g.nodes == f.nodes && g.msgs == f.msgs
    requires Carried(f) && Tabled(f, ids, noIds)
    ensures Carried(g) && Tabled(g, ids, noIds)
  {
  }

  lemma ParentChildFrame(f: Forest, parent: Node, child: Node)
    requires f.Ok() && parent in f.nodes && child in f.nodes
    ensures ParentChild(f, parent, child).msgs == f.msgs && ParentChild(f, parent, child).hdr == f.hdr
    ensures ParentChild(f, parent, child).nodes == f.nodes
  {
  }

  method LinkReferences(ghost f: Forest, ids: map<nat, Node>, ghost noIds: map<MessageInfo, Node>, first: Node, refs: seq<nat>)
      returns (ghost g: Forest, ids': map<nat, Node>)
    requires Linking(f, ids, noIds) && first in f.nodes
    modifies f.nodes`next, f.nodes`child, f.nodes`parent
    ensures Linking(g, ids', noIds) && Extends(ids, ids') && ids'.Keys == ids.Keys + NonZero(refs)
    ensures g == LinkChain(f, ids', first, refs).0
    ensures f.nodes <= g.nodes && fresh(g.nodes - f.nodes)
    ensures g.hdr == f.hdr && g.msgs == f.msgs
  {
    hide Linking, LinkStep;
    g, ids' := f, ids;
    var child := first;
    var j := 0;
    while j < |refs|
      invariant j <= |refs|
      invariant Linking(g, ids', noIds) && Extends(ids, ids') && ids'.Keys == ids.Keys + NonZero(refs[..j])
      invariant (g, child) == LinkChain(f, ids', first, refs[..j])
      invariant child in g.nodes && f.nodes <= g.nodes && fresh(g.nodes - f.nodes)
      invariant g.hdr == f.hdr && g.msgs == f.msgs
    {
      ghost var known := ids';
      // an empty identifier is passed over
      if refs[j] != 0 {
        g, child, ids' := LinkReference(g, ids', noIds, child, refs[j]);
        LinkChainStable(f, known, ids', first, refs[..j]);
      }
      LinkChainNext(f, ids', first, refs, j);
      assert NonZero(refs[..j + 1]) == NonZero(refs[..j]) + (if refs[j] == 0 then {} else {refs[j]});
      j := j + 1;
    }
    assert refs[..j] == refs;
  }

  // ---------------------------------------------------------------- all messages

  ghost function EmptyForest(hdr: Node): Forest {
    Forest(hdr, {}, map[hdr := []], map[], {})
  }

  /** The forest after one more message, given that `c` is its node. */
  ghost function Grown(f: Forest, ids: map<nat, Node>, c: Node, mi: MessageInfo): Forest {
    LinkChain(Enter(f, c), ids, c, mi.references).0
  }

  /** `hist` records how the forest grows from nothing, message by message. */
  ghost predicate History(hist: seq<Forest>, ids: map<nat, Node>, nodeOf: seq<Node>, summary: seq<MessageInfo>) {
    && |hist| == |nodeOf| + 1 <= |summary| + 1
    && forall i | 0 <= i < |nodeOf| :: hist[i + 1] == Grown(hist[i], ids, nodeOf[i], summary[i])
  }

  ghost predicate Known(ids: map<nat, Node>, summary: seq<MessageInfo>) {
    forall mi | mi in summary :: NonZero(mi.references) <= ids.Keys
  }

  /** The first message with an id is under that id, every other message under itself. */
  ghost predicate Entered(ids: map<nat, Node>, noIds: map<MessageInfo, Node>, nodeOf: seq<Node>, summary: seq<MessageInfo>)
    requires |nodeOf| <= |summary|
  {
    forall i | 0 <= i < |nodeOf| ::
      if FirstOfId(summary, i) then summary[i].messageId in ids && ids[summary[i].messageId] == nodeOf[i]
      else summary[i] in noIds && noIds[summary[i]] == nodeOf[i]
  }

  ghost predicate FirstOfId(summary: seq<MessageInfo>, i: nat)
    requires i < |summary|
  {
    summary[i].messageId != 0 && forall j | 0 <= j < i :: summary[j].messageId != summary[i].messageId
  }

  /** Node `nodeOf[i]` carries message `i` and its order is `i + 1`; no other node carries one. */
  ghost predicate Assigned(f: Forest, nodeOf: seq<Node>, summary: seq<MessageInfo>)
    requires |nodeOf| <= |summary|
    reads nodeOf`message, nodeOf`order
  {
    && f.msgs == (set n | n in nodeOf)
    && forall i | 0 <= i < |nodeOf| :: nodeOf[i].message == summary[i] && nodeOf[i].order == i + 1
  }

  method AddMessage(ghost f: Forest, ids: map<nat, Node>, noIds: map<MessageInfo, Node>, mi: MessageInfo, order: nat)
      returns (ghost g: Forest, c: Node, ids': map<nat, Node>, noIds': map<MessageInfo, Node>)
    requires Linking(f, ids, noIds) && mi !in noIds && order > 0
    modifies f.nodes`message, f.nodes`order, f.nodes`next, f.nodes`child, f.nodes`parent
    ensures fresh(c) || c in f.nodes - f.msgs
    ensures g == Grown(f, ids', c, mi) && g.msgs == f.msgs + {c} && g.hdr == f.hdr
    ensures f.nodes <= g.nodes && fresh(g.nodes - f.nodes)
    ensures Linking(g, ids', noIds') && Extends(ids, ids') && Extends(noIds, noIds')
    ensures ids'.Keys == ids.Keys + NonZero(mi.references) + NonZero([mi.messageId])
    ensures noIds'.Keys <= noIds.Keys + {mi}
    ensures if mi.messageId != 0 && !Duplicate(f, ids, mi) then mi.messageId in ids' && ids'[mi.messageId] == c
            else mi in noIds' && noIds'[mi] == c
    ensures c.message == mi && c.order == order
    ensures forall n | n in f.nodes && n != c :: n.message == old(n.message) && n.order == old(n.order)
  {
    hide *;
    ghost var h;
    var first;
    h, c, first, noIds' := EnterMessage(f, ids, noIds, mi, order);
    EnterFacts(f, c);
    EnteredKeys(f, ids, noIds, first, noIds', mi, c);
    g, ids' := LinkReferences(h, first, noIds', c, mi.references);
    AddedFacts(f, ids, first, ids', noIds', mi, c);
  }

  lemma EnterFacts(f: Forest, c: Node)
    ensures var g := Enter(f, c); c in g.nodes && g.nodes == f.nodes + {c} && g.hdr == f.hdr && g.msgs == f.msgs + {c}
  {
  }

  lemma EnteredKeys(f: Forest, ids: map<nat, Node>, noIds: map<MessageInfo, Node>,
                    ids': map<nat, Node>, noIds': map<MessageInfo, Node>, mi: MessageInfo, c: Node)
    requires EnteredAt(f, ids, noIds, ids', noIds', mi, c) && mi !in noIds
    ensures Extends(ids, ids') && Extends(noIds, noIds') && ids'.Keys == ids.Keys + NonZero([mi.messageId])
    ensures noIds'.Keys <= noIds.Keys + {mi}
    ensures if mi.messageId != 0 && !Duplicate(f, ids, mi) then mi.messageId in ids' && ids'[mi.messageId] == c
            else mi in noIds' && noIds'[mi] == c
  {
  }

  lemma AddedFacts(f: Forest, ids: map<nat, Node>, first: map<nat, Node>, ids': map<nat, Node>, noIds': map<MessageInfo, Node>,
                   mi: MessageInfo, c: Node)
    requires Extends(ids, first) && Extends(first, ids')
    requires first.Keys == ids.Keys + NonZero([mi.messageId]) && ids'.Keys == first.Keys + NonZero(mi.references)
    requires mi.messageId != 0 && !Duplicate(f, ids, mi) ==> mi.messageId in first && first[mi.messageId] == c
    ensures Extends(ids, ids') && ids'.Keys == ids.Keys + NonZero(mi.references) + NonZero([mi.messageId])
    ensures mi.messageId != 0 && !Duplicate(f, ids, mi) ==> mi.messageId in ids' && ids'[mi.messageId] == c
    ensures Grown(f, ids', c, mi) == LinkChain(Enter(f, c), ids', c, mi.references).0
  {
  }

  /** Everything known after the messages of `nodeOf` have been added. */
  ghost predicate Progress(f: Forest, ids: map<nat, Node>, noIds: map<MessageInfo, Node>,
                           nodeOf: seq<Node>, hist: seq<Forest>, summary: seq<MessageInfo>)
    requires |nodeOf| <= |summary|
  {
    && History(hist, ids, nodeOf, summary) && hist[0] == EmptyForest(f.hdr) && hist[|nodeOf|] == f
    && Known(ids, summary[..|nodeOf|]) && Entered(ids, noIds, nodeOf, summary)
    && noIds.Keys <= (set mi | mi in summary[..|nodeOf|])
    && (forall i | 0 <= i < |nodeOf| && summary[i].messageId != 0 :: summary[i].messageId in ids) && 0 !in ids
  }

  /** An id is a duplicate exactly when an earlier message has it. */
  lemma DuplicateIsLater(f: Forest, ids: map<nat, Node>, noIds: map<MessageInfo, Node>,
                         nodeOf: seq<Node>, hist: seq<Forest>, summary: seq<MessageInfo>)
    requires |nodeOf| < |summary| && Progress(f, ids, noIds, nodeOf, hist, summary) && Tabled(f, ids, noIds)
    requires f.msgs == (set n | n in nodeOf)
    requires summary[|nodeOf|].messageId != 0
    ensures FirstOfId(summary, |nodeOf|) <==> !Duplicate(f, ids, summary[|nodeOf|])
  {
    var k := |nodeOf|;
    var id := summary[k].messageId;
    if !FirstOfId(summary, k) {
      var j :| 0 <= j < k && summary[j].messageId == id;
      FirstWith(summary, j, id);
      var i :| 0 <= i <= j && summary[i].messageId == id && FirstOfId(summary, i);
      assert ids[id] == nodeOf[i];
    } else if Duplicate(f, ids, summary[k]) {
      var i := IndexOf(nodeOf, ids[id]);
      IdOfNode(f, ids, noIds, nodeOf, summary, i, id);
    }
  }

  lemma IdOfNode(f: Forest, ids: map<nat, Node>, noIds: map<MessageInfo, Node>,
                 nodeOf: seq<Node>, summary: seq<MessageInfo>, i: nat, id: nat)
    requires i < |nodeOf| <= |summary| && Entered(ids, noIds, nodeOf, summary) && Tabled(f, ids, noIds)
    requires id in ids && ids[id] == nodeOf[i]
    ensures summary[i].messageId == id
  {
    assert nodeOf[i] in ids.Values;
  }

  lemma {:induction false} FirstWith(summary: seq<MessageInfo>, j: nat, id: nat)
    requires j < |summary| && id != 0 && summary[j].messageId == id
    ensures exists i :: 0 <= i <= j && summary[i].messageId == id && FirstOfId(summary, i)
  {
    if !FirstOfId(summary, j) {
      var i :| 0 <= i < j && summary[i].messageId == id;
      FirstWith(summary, i, id);
    }
  }

  /** A longer table of ids does not change the steps taken so far. */
  lemma HistoryStable(hist: seq<Forest>, ids: map<nat, Node>, ids': map<nat, Node>, nodeOf: seq<Node>, summary: seq<MessageInfo>)
    requires |nodeOf| <= |summary|
    requires History(hist, ids, nodeOf, summary) && Known(ids, summary[..|nodeOf|]) && Extends(ids, ids')
    ensures History(hist, ids', nodeOf, summary)
  {
    forall i | 0 <= i < |nodeOf| ensures hist[i + 1] == Grown(hist[i], ids', nodeOf[i], summary[i]) {
      assert summary[i] in summary[..|nodeOf|];
      LinkChainStable(Enter(hist[i], nodeOf[i]), ids, ids', nodeOf[i], summary[i].references);
    }
  }

  lemma ProgressStep(f: Forest, ids: map<nat, Node>, noIds: map<MessageInfo, Node>,
                     nodeOf: seq<Node>, hist: seq<Forest>, summary: seq<MessageInfo>,
                     f': Forest, ids': map<nat, Node>, noIds': map<MessageInfo, Node>, c: Node)
    requires |nodeOf| < |summary| && Progress(f, ids, noIds, nodeOf, hist, summary) && Tabled(f, ids, noIds)
    requires f.msgs == (set n | n in nodeOf)
    requires var mi := summary[|nodeOf|];
      && f' == Grown(f, ids', c, mi) && f'.hdr == f.hdr
      && Extends(ids, ids') && Extends(noIds, noIds')
      && ids'.Keys == ids.Keys + NonZero(mi.references) + NonZero([mi.messageId])
      && noIds'.Keys <= noIds.Keys + {mi}
      && if mi.messageId != 0 && !Duplicate(f, ids, mi) then mi.messageId in ids' && ids'[mi.messageId] == c
         else mi in noIds' && noIds'[mi] == c
    ensures Progress(f', ids', noIds', nodeOf + [c], hist + [f'], summary)
  {
    var k := |nodeOf|;
    var mi, nodes := summary[k], nodeOf + [c];
    HistoryStable(hist, ids, ids', nodeOf, summary);
    if mi.messageId != 0 { DuplicateIsLater(f, ids, noIds, nodeOf, hist, summary); }
    assert summary[..k + 1] == summary[..k] + [mi];
    assert Entered(ids', noIds', nodes, summary) by {
      forall i | 0 <= i < |nodes|
        ensures if FirstOfId(summary, i) then summary[i].messageId in ids' && ids'[summary[i].messageId] == nodes[i]
                else summary[i] in noIds' && noIds'[summary[i]] == nodes[i]
      {
        if i < k { assert nodes[i] == nodeOf[i]; }
      }
    }
    assert History(hist + [f'], ids', nodes, summary) by {
      forall i | 0 <= i < |nodes| ensures (hist + [f'])[i + 1] == Grown((hist + [f'])[i], ids', nodes[i], summary[i]) {
        if i < k { assert nodes[i] == nodeOf[i]; }
      }
    }
  }

  method BuildForest(summary: seq<MessageInfo>, hdr: Node)
      returns (ghost f: Forest, ids: map<nat, Node>, noIds: map<MessageInfo, Node>,
               ghost nodeOf: seq<Node>, ghost hist: seq<Forest>)
    requires NoDup(summary) && hdr.child == null
    ensures |nodeOf| == |summary| && f.hdr == hdr && fresh(f.nodes)
    ensures Linking(f, ids, noIds) && Progress(f, ids, noIds, nodeOf, hist, summary) && Assigned(f, nodeOf, summary)
  {
    hide Forest.Ok, Linked, ParentsExact, Tabled, Grown, Known, Entered, History;
    ids, noIds, nodeOf := map[], map[], [];
    f := EmptyForest(hdr);
    EmptyLinking(hdr);
    hist := [f];
    EmptyProgress(hdr, summary);
    var i := 0;
    while i < |summary|
      invariant i == |nodeOf| <= |summary| && f.hdr == hdr && fresh(f.nodes)
      invariant Linking(f, ids, noIds) && Progress(f, ids, noIds, nodeOf, hist, summary)
      invariant Assigned(f, nodeOf, summary)
    {
      f, ids, noIds, nodeOf, hist := AddNext(f, ids, noIds, nodeOf, hist, summary, i);
      i := i + 1;
    }
  }

  /** Message `i` is added to what is there after the first `i`. */
  method AddNext(ghost f: Forest, ids: map<nat, Node>, noIds: map<MessageInfo, Node>,
                 ghost nodeOf: seq<Node>, ghost hist: seq<Forest>, summary: seq<MessageInfo>, i: nat)
      returns (ghost g: Forest, ids': map<nat, Node>, noIds': map<MessageInfo, Node>,
               ghost nodeOf': seq<Node>, ghost hist': seq<Forest>)
    requires NoDup(summary) && |nodeOf| == i < |summary|
    requires Linking(f, ids, noIds) && Progress(f, ids, noIds, nodeOf, hist, summary) && Assigned(f, nodeOf, summary)
    modifies f.nodes`message, f.nodes`order, f.nodes`next, f.nodes`child, f.nodes`parent
    ensures |nodeOf'| == i + 1 && g.hdr == f.hdr && fresh(g.nodes - f.nodes)
    ensures Linking(g, ids', noIds') && Progress(g, ids', noIds', nodeOf', hist', summary) && Assigned(g, nodeOf', summary)
  {
    hide *;
    NextIsNew(f, ids, noIds, nodeOf, hist, summary);
    ghost var c;
    g, c, ids', noIds' := AddMessage(f, ids, noIds, summary[i], i + 1);
    NewIsLast(f, nodeOf, summary, c);
    ProgressStep(f, ids, noIds, nodeOf, hist, summary, g, ids', noIds', c);
    nodeOf', hist' := nodeOf + [c], hist + [g];
    NowAssigned(f, g, nodeOf, summary, c);
  }

  lemma NextIsNew(f: Forest, ids: map<nat, Node>, noIds: map<MessageInfo, Node>,
                  nodeOf: seq<Node>, hist: seq<Forest>, summary: seq<MessageInfo>)
    requires NoDup(summary) && |nodeOf| < |summary| && Linking(f, ids, noIds)
    requires Progress(f, ids, noIds, nodeOf, hist, summary) && Assigned(f, nodeOf, summary)
    ensures summary[|nodeOf|] !in noIds && f.msgs <= f.nodes && f.msgs == (set n | n in nodeOf)
    ensures forall n | n in nodeOf :: n in f.nodes
    ensures forall i | 0 <= i < |nodeOf| :: nodeOf[i].message == summary[i] && nodeOf[i].order == i + 1
    ensures Tabled(f, ids, noIds)
  {
    assert summary[|nodeOf|] !in summary[..|nodeOf|];
    forall n | n in nodeOf ensures n in f.nodes { assert n in f.msgs; }
  }

  lemma NewIsLast(f: Forest, nodeOf: seq<Node>, summary: seq<MessageInfo>, c: Node)
    requires |nodeOf| < |summary| && f.msgs <= f.nodes && f.msgs == (set n | n in nodeOf)
    requires c !in f.nodes || c in f.nodes - f.msgs
    ensures c !in nodeOf
  {
  }

  lemma NowAssigned(f: Forest, g: Forest, nodeOf: seq<Node>, summary: seq<MessageInfo>, c: Node)
    requires |nodeOf| < |summary| && f.msgs == (set n | n in nodeOf) && g.msgs == f.msgs + {c} && c !in nodeOf
    requires forall i | 0 <= i < |nodeOf| :: nodeOf[i].message == summary[i] && nodeOf[i].order == i + 1
    requires c.message == summary[|nodeOf|] && c.order == |nodeOf| + 1
    ensures Assigned(g, nodeOf + [c], summary)
  {
  }

  lemma EmptyProgress(hdr: Node, summary: seq<MessageInfo>)
    ensures Progress(EmptyForest(hdr), map[], map[], [], [EmptyForest(hdr)], summary)
  {
  }

  lemma EmptyLinking(hdr: Node)
    requires hdr.child == null
    ensures Linking(EmptyForest(hdr), map[], map[])
  {
    var f := EmptyForest(hdr);
    assert ListOf(f.kids, hdr);
  }

  // ---------------------------------------------------------------- the list of roots

  /** `g` is `f` with exactly the parentless nodes of `seen` in the root list, in some order. */
  ghost predicate RootsOf(f: Forest, g: Forest, seen: set<Node>)
    reads f.hdr`child, f.nodes`next, f.nodes`child, f.nodes`parent, f.nodes`message, f.nodes`order
  {
    && f.hdr in g.kids && g == f.(kids := f.kids[f.hdr := g.kids[f.hdr]])
    && g.Ok() && Linked(g) && ParentsExact(g) && Carried(g)
    && forall n | n in g.nodes :: n in g.kids[g.hdr] <==> n in seen && g.anc[n] == []
  }

  /** hashloop: a node without a parent goes to the front of the root list. */
  method HashLoop(ghost f: Forest, ghost f0: Forest, ghost seen: set<Node>, hdr: Node, c: Node) returns (ghost g: Forest)
    requires f0.hdr == hdr && RootsOf(f0, f, seen) && c in f0.nodes && c !in seen
    modifies hdr`child, c`next
    ensures RootsOf(f0, g, seen + {c})
  {
    g := f;
    if c.parent == null {
      UnheldAnywhere(f, c);
      PushFrontIn(hdr, f.nodes, f.kids, hdr, c);
      g := f.Attach(hdr, 0, c);
      AttachOk(f, hdr, 0, c);
      InsertFront(f.kids[hdr], c);
    }
  }

  /** g_hash_table_foreach(table, hashloop, &head), in whatever order the table gives. */
  method ListTable<K(==)>(ghost f0: Forest, ghost f: Forest, ghost seen0: set<Node>, table: map<K, Node>, hdr: Node)
      returns (ghost g: Forest, ghost seen: set<Node>)
    requires f0.hdr == hdr && RootsOf(f0, f, seen0)
    requires Injective(table) && table.Values <= f0.nodes && table.Values !! seen0
    modifies hdr`child, f0.nodes`next
    ensures RootsOf(f0, g, seen) && seen == seen0 + table.Values
  {
    hide RootsOf;
    g, seen := f, seen0;
    var keys := table.Keys;
    while keys != {}
      invariant keys <= table.Keys && RootsOf(f0, g, seen)
      invariant seen0 <= seen <= seen0 + table.Values
      invariant forall k | k in table :: table[k] in seen <==> k !in keys
      decreases |keys|
    {
      var k :| k in keys;
      assert table[k] in table.Values;
      g := HashLoop(g, f0, seen, hdr, table[k]);
      seen := seen + {table[k]};
      keys := keys - {k};
    }
  }

  method ListRoots(ghost f: Forest, ids: map<nat, Node>, noIds: map<MessageInfo, Node>, hdr: Node) returns (ghost g: Forest)
    requires Linking(f, ids, noIds) && f.hdr == hdr
    modifies hdr`child, f.nodes`next
    ensures RootsOf(f, g, f.nodes) && g.Rooted()
  {
    NoRootsYet(f);
    hide RootsOf, Formed;
    ghost var seen;
    g, seen := ListTable(f, f, {}, ids, hdr);
    g, seen := ListTable(f, g, seen, noIds, hdr);
    assert seen == f.nodes;
    AllRooted(f, g);
  }

  lemma NoRootsYet(f: Forest)
    requires Formed(f)
    ensures RootsOf(f, f, {})
  {
    assert f.kids == f.kids[f.hdr := f.kids[f.hdr]];
  }

  lemma AllRooted(f: Forest, g: Forest)
    requires RootsOf(f, g, f.nodes)
    ensures g.Rooted()
  {
  }
}
