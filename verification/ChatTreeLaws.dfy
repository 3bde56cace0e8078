/** Laws of the composed sidebar: nothing lost or doubled, and no dependence on input order. */
module ChatTreeLaws {
  import opened ChatTree

  /******* Every chat appears exactly once *******/

  ghost function ChatBag(children: seq<Child>): multiset<Id>
  {
    if children == [] then multiset{}
    else
      var last := children[|children| - 1];
      ChatBag(children[..|children| - 1]) + if last.ChatChild? then multiset{last.id} else multiset{}
  }

  ghost function NodeBag(node: Node): multiset<Id>
  {
    multiset{node.chat.id} + ChatBag(node.children)
  }

  ghost function Sum(bags: seq<multiset<Id>>, n: nat): multiset<Id>
    requires n <= |bags|
  {
    if n == 0 then multiset{} else Sum(bags, n - 1) + bags[n - 1]
  }

  ghost function Bags(nodes: seq<Node>): seq<multiset<Id>>
  {
    seq(|nodes|, i requires 0 <= i < |nodes| => NodeBag(nodes[i]))
  }

  // The chats shown in a tree, as nodes or as children, with multiplicity.
  ghost function ShownBag(nodes: seq<Node>): multiset<Id>
  {
    Sum(Bags(nodes), |nodes|)
  }

  ghost function IdBag(chats: seq<Chat>): multiset<Id>
  {
    if chats == [] then multiset{}
    else IdBag(chats[..|chats| - 1]) + multiset{chats[|chats| - 1].id}
  }

  lemma {:induction false} SumUpdate(bags: seq<multiset<Id>>, k: nat, extra: multiset<Id>, n: nat)
    requires k < |bags| && n <= |bags|
    ensures Sum(bags[k := bags[k] + extra], n) == Sum(bags, n) + if k < n then extra else multiset{}
  {
    if n > 0 {
      SumUpdate(bags, k, extra, n - 1);
    }
  }

  lemma {:induction false} SumPrefix(bags: seq<multiset<Id>>, bag: multiset<Id>, n: nat)
    requires n <= |bags|
    ensures Sum(bags + [bag], n) == Sum(bags, n)
  {
    if n > 0 {
      SumPrefix(bags, bag, n - 1);
    }
  }

  lemma {:induction false} ShownUpdate(nodes: seq<Node>, k: nat, node: Node, extra: multiset<Id>)
    requires k < |nodes| && NodeBag(node) == NodeBag(nodes[k]) + extra
    ensures ShownBag(nodes[k := node]) == ShownBag(nodes) + extra
  {
    var bags := Bags(nodes);
    assert Bags(nodes[k := node]) == bags[k := bags[k] + extra];
    SumUpdate(bags, k, extra, |nodes|);
  }

  lemma {:induction false} ShownAppend(nodes: seq<Node>, node: Node)
    ensures ShownBag(nodes + [node]) == ShownBag(nodes) + NodeBag(node)
  {
    assert Bags(nodes + [node]) == Bags(nodes) + [NodeBag(node)];
    SumPrefix(Bags(nodes), NodeBag(node), |nodes|);
  }

  lemma {:induction false} AddedChild(node: Node, child: Child)
    requires child.ChatChild?
    ensures NodeBag(node.(children := node.children + [child])) == NodeBag(node) + multiset{child.id}
  {
    assert (node.children + [child])[..|node.children|] == node.children;
  }

  lemma {:induction false} RowsAreNoChats(children: seq<Child>)
    requires forall i :: 0 <= i < |children| ==> children[i].Subagent?
    ensures ChatBag(children) == multiset{}
  {
    if children != [] {
      RowsAreNoChats(children[..|children| - 1]);
    }
  }

  lemma {:induction false} BareNode(fam: Family, chat: Chat)
    ensures NodeBag(Node(chat, SubagentChildren(fam, chat.id))) == multiset{chat.id}
  {
    RowsAreNoChats(SubagentChildren(fam, chat.id));
  }

  // The roots with their subagents, before any chat is attached.
  lemma {:induction false} BareNodes(fam: Family, shown: seq<Chat>)
    ensures ShownBag(NodesOf(fam, [], shown)) == IdBag(shown)
  {
    if shown != [] {
      var front, last := shown[..|shown| - 1], shown[|shown| - 1];
      BareNodes(fam, front);
      var node := Node(last, SubagentChildren(fam, last.id));
      assert NodeOf(fam, [], last) == node by {
        assert node.children + [] == node.children;
      }
      assert NodesOf(fam, [], shown) == NodesOf(fam, [], front) + [node];
      ShownAppend(NodesOf(fam, [], front), node);
      BareNode(fam, last);
    }
  }

  // Placing a chat that is no root shows it once more.
  lemma {:induction false} PlacingShowsOne(fam: Family, chats: seq<Chat>, prefix: seq<Chat>, chat: Chat)
    requires DistinctIds(chats) && prefix + [chat] <= chats
    requires forall id :: id in fam.parents ==> fam.parents[id] in Ids(chats)
    ensures ShownBag(TreeAfter(fam, chats, prefix + [chat])) ==
            ShownBag(TreeAfter(fam, chats, prefix)) +
            if Where(fam, chat) == UpFront then multiset{} else multiset{chat.id}
  {
    AttachNext(fam, chats, prefix, chat);
    if Where(fam, chat) == Promoted {
      ShownAppend(TreeAfter(fam, chats, prefix), Node(chat, SubagentChildren(fam, chat.id)));
      BareNode(fam, chat);
    } else if Where(fam, chat).Under? {
      AttachingShowsOne(fam, chats, prefix, chat);
    }
  }

  lemma {:induction false} AttachingShowsOne(fam: Family, chats: seq<Chat>, prefix: seq<Chat>, chat: Chat)
    requires DistinctIds(chats) && prefix + [chat] <= chats && Where(fam, chat).Under?
    requires forall id :: id in fam.parents ==> fam.parents[id] in Ids(chats)
    ensures ShownBag(TreeAfter(fam, chats, prefix + [chat])) ==
            ShownBag(TreeAfter(fam, chats, prefix)) + multiset{chat.id}
  {
    var before, after := TreeAfter(fam, chats, prefix), TreeAfter(fam, chats, prefix + [chat]);
    AttachNext(fam, chats, prefix, chat);
    var k := HostNode(fam, chats, prefix, chat);
    var node := before[k].(children := before[k].children + [ChildOf(fam, chat)]);
    assert after == before[k := node];
    AddedChild(before[k], ChildOf(fam, chat));
    ShownUpdate(before, k, node, multiset{chat.id});
  }

  // The host of an attached chat is shown, in one place.
  lemma {:induction false} HostNode(fam: Family, chats: seq<Chat>, prefix: seq<Chat>, chat: Chat) returns (k: nat)
    requires DistinctIds(chats) && prefix <= chats && Where(fam, chat).Under?
    requires forall id :: id in fam.parents ==> fam.parents[id] in Ids(chats)
    ensures k < |TreeAfter(fam, chats, prefix)| && TreeAfter(fam, chats, prefix)[k].chat.id == Where(fam, chat).host
    ensures forall j :: 0 <= j < |TreeAfter(fam, chats, prefix)| && j != k ==>
      TreeAfter(fam, chats, prefix)[j].chat.id != Where(fam, chat).host
  {
    var h := Where(fam, chat).host;
    HostIsPresent(fam.parents, chat.id, MAX_HOPS);
    HostsAreRoots(fam.parents, chat.id, MAX_HOPS);
    var host :| host in chats && host.id == h;
    PlacedAreThere(fam, chats, UpFront);
    var up := PlacedAt(fam, chats, UpFront);
    assert host in up;
    k :| 0 <= k < |up| && up[k] == host;
    ShownOnce(fam, chats, prefix);
  }

  ghost function BelowBag(fam: Family, chats: seq<Chat>): multiset<Id>
  {
    if chats == [] then multiset{}
    else
      var last := chats[|chats| - 1];
      BelowBag(fam, chats[..|chats| - 1]) + if Where(fam, last) == UpFront then multiset{} else multiset{last.id}
  }

  lemma {:induction false} RootsAndBelow(fam: Family, chats: seq<Chat>)
    ensures IdBag(chats) == IdBag(PlacedAt(fam, chats, UpFront)) + BelowBag(fam, chats)
  {
    if chats != [] {
      var front, last := chats[..|chats| - 1], chats[|chats| - 1];
      RootsAndBelow(fam, front);
      var up := PlacedAt(fam, front, UpFront);
      assert (up + [last])[..|up|] == up;
    }
  }

  ghost predicate ShowsPlaced(fam: Family, chats: seq<Chat>, prefix: seq<Chat>)
  {
    ShownBag(TreeAfter(fam, chats, prefix)) == IdBag(PlacedAt(fam, chats, UpFront)) + BelowBag(fam, prefix)
  }

  lemma {:induction false} PlacingShows(fam: Family, chats: seq<Chat>, n: nat)
    requires DistinctIds(chats) && n <= |chats|
    requires forall id :: id in fam.parents ==> fam.parents[id] in Ids(chats)
    ensures ShowsPlaced(fam, chats, chats[..n])
  {
    if n == 0 {
      BareTree(fam, chats);
    } else {
      PlacingShows(fam, chats, n - 1);
      NextChat(chats, n - 1);
      PlacingNext(fam, chats, chats[..n - 1], chats[n - 1]);
    }
  }

  lemma {:induction false} PlacingNext(fam: Family, chats: seq<Chat>, prefix: seq<Chat>, chat: Chat)
    requires DistinctIds(chats) && prefix + [chat] <= chats && ShowsPlaced(fam, chats, prefix)
    requires forall id :: id in fam.parents ==> fam.parents[id] in Ids(chats)
    ensures ShowsPlaced(fam, chats, prefix + [chat])
  {
    PlacingShowsOne(fam, chats, prefix, chat);
    BelowAppend(fam, prefix, chat);
  }

  lemma {:induction false} BareTree(fam: Family, chats: seq<Chat>)
    ensures ShownBag(TreeAfter(fam, chats, [])) == IdBag(PlacedAt(fam, chats, UpFront))
  {
    BareNodes(fam, PlacedAt(fam, chats, UpFront));
    assert PlacedAt(fam, chats, UpFront) + [] == PlacedAt(fam, chats, UpFront);
  }

  lemma {:induction false} BelowAppend(fam: Family, chats: seq<Chat>, chat: Chat)
    ensures BelowBag(fam, chats + [chat]) ==
            BelowBag(fam, chats) + if Where(fam, chat) == UpFront then multiset{} else multiset{chat.id}
  {
    assert (chats + [chat])[..|chats|] == chats;
  }

  /**
   * Conservation: every input chat is shown exactly once, as a node or as a child,
   * and nothing else is shown as a chat.
   */
  lemma {:induction false} EveryChatOnce(chats: seq<Chat>, subagents: map<Id, seq<SubagentRow>>, memberOf: map<Id, Id>)
    requires DistinctIds(chats)
    ensures ShownBag(Tree(Family(Parents(chats, memberOf), memberOf, subagents), chats)) == IdBag(chats)
  {
    var fam := Family(Parents(chats, memberOf), memberOf, subagents);
    PlacingShows(fam, chats, |chats|);
    assert chats[..|chats|] == chats;
    RootsAndBelow(fam, chats);
  }

  lemma {:induction false} ChatChildrenAreChats(fam: Family, chats: seq<Chat>, host: Id)
    ensures forall child :: child in ChatChildren(fam, chats, host) ==> child.ChatChild?
  {
    if chats != [] {
      ChatChildrenAreChats(fam, chats[..|chats| - 1], host);
    }
  }

  /** Every node shows its own subagent rows, in order, and then only chats. */
  lemma {:induction false} SubagentsFirst(fam: Family, chats: seq<Chat>, k: nat)
    requires k < |Tree(fam, chats)|
    ensures var node := Tree(fam, chats)[k];
      var rows := if node.chat.id in fam.subagents then fam.subagents[node.chat.id] else [];
      && |rows| <= |node.children|
      && (forall i :: 0 <= i < |rows| ==> node.children[i] == Subagent(rows[i]))
      && (forall i :: |rows| <= i < |node.children| ==> node.children[i].ChatChild?)
  {
    var node := Tree(fam, chats)[k];
    var kids := ChatChildren(fam, chats, node.chat.id);
    ChatChildrenAreChats(fam, chats, node.chat.id);
    var n := |SubagentChildren(fam, node.chat.id)|;
    forall i | n <= i < |node.children| ensures node.children[i].ChatChild? {
      assert node.children[i] == kids[i - n] && kids[i - n] in kids;
    }
  }

  /** The label says which rule won: orchestrator exactly when the membership rule did. */
  lemma {:induction false} RelationNamesTheRule(chats: seq<Chat>, memberOf: map<Id, Id>,
                                                subagents: map<Id, seq<SubagentRow>>, chat: Chat)
    requires DistinctIds(chats) && chat in chats && chat.id in Parents(chats, memberOf)
    ensures ChildOf(Family(Parents(chats, memberOf), memberOf, subagents), chat).relation ==
            if Eligible(Ids(chats), chat, Owner(memberOf, chat.id)) then Orchestrator else Voice
  {
    ParentOfMember(chats, memberOf, chat);
  }

  /******* The order of the input does not matter *******/

  lemma {:induction false} SameMembers<T>(a: seq<T>, b: seq<T>)
    requires multiset(a) == multiset(b)
    ensures forall x :: x in a <==> x in b
  {
    assert forall x :: x in a <==> x in multiset(a);
    assert forall x :: x in b <==> x in multiset(b);
  }

  lemma {:induction false} ParentOfMember(chats: seq<Chat>, memberOf: map<Id, Id>, chat: Chat)
    requires DistinctIds(chats) && chat in chats
    ensures ParentIs(Parents(chats, memberOf), chat.id, ParentOf(Ids(chats), memberOf, chat))
  {
    var i :| 0 <= i < |chats| && chats[i] == chat;
  }

  lemma {:induction false} SameParents(chats: seq<Chat>, permuted: seq<Chat>, memberOf: map<Id, Id>)
    requires DistinctIds(chats) && DistinctIds(permuted) && multiset(chats) == multiset(permuted)
    ensures Ids(chats) == Ids(permuted) && Parents(chats, memberOf) == Parents(permuted, memberOf)
  {
    SameMembers(chats, permuted);
    assert Ids(chats) == Ids(permuted);
    var f, g := Parents(chats, memberOf), Parents(permuted, memberOf);
    forall id | id in Ids(chats) ensures (id in f <==> id in g) && (id in f ==> f[id] == g[id]) {
      var chat :| chat in chats && chat.id == id;
      ParentOfMember(chats, memberOf, chat);
      ParentOfMember(permuted, memberOf, chat);
    }
    assert f.Keys == g.Keys;
  }

  ghost function ChildIf(fam: Family, chat: Chat, host: Id): multiset<Child>
  {
    if Where(fam, chat) == Under(host) then multiset{ChildOf(fam, chat)} else multiset{}
  }

  lemma {:induction false} ChildrenApart(fam: Family, a: seq<Chat>, b: seq<Chat>, host: Id)
    ensures ChatChildren(fam, a + b, host) == ChatChildren(fam, a, host) + ChatChildren(fam, b, host)
  {
    if b == [] {
      assert a + b == a;
    } else {
      var n := |b| - 1;
      ChildrenApart(fam, a, b[..n], host);
      assert (a + b)[..|a + b| - 1] == a + b[..n];
      assert (a + b)[|a + b| - 1] == b[n];
    }
  }

  lemma {:induction false} OnlyChild(fam: Family, chat: Chat, host: Id)
    ensures multiset(ChatChildren(fam, [chat], host)) == ChildIf(fam, chat, host)
  {
    assert [chat][..0] == [];
  }

  lemma {:induction false} ChildrenWithout(fam: Family, chats: seq<Chat>, j: nat, host: Id)
    requires j < |chats|
    ensures multiset(ChatChildren(fam, chats, host)) ==
            multiset(ChatChildren(fam, chats[..j] + chats[j + 1..], host)) + ChildIf(fam, chats[j], host)
  {
    var a, c, b := chats[..j], [chats[j]], chats[j + 1..];
    assert chats == a + (c + b);
    ChildrenApart(fam, a, c + b, host);
    ChildrenApart(fam, c, b, host);
    ChildrenApart(fam, a, b, host);
    OnlyChild(fam, chats[j], host);
  }

  lemma {:induction false} SameChildren(fam: Family, chats: seq<Chat>, permuted: seq<Chat>, host: Id)
    requires multiset(chats) == multiset(permuted)
    ensures multiset(ChatChildren(fam, chats, host)) == multiset(ChatChildren(fam, permuted, host))
    decreases |chats|
  {
    if chats == [] {
      assert |multiset(permuted)| == 0;
    } else {
      var n := |chats| - 1;
      SameMembers(chats, permuted);
      assert chats[n] in chats;
      var j :| 0 <= j < |permuted| && permuted[j] == chats[n];
      WithoutOne(chats, n);
      WithoutOne(permuted, j);
      assert chats[..n] + chats[n + 1..] == chats[..n];
      CancelOne(multiset(chats[..n]), multiset(permuted[..j] + permuted[j + 1..]), chats[n]);
      SameChildren(fam, chats[..n], permuted[..j] + permuted[j + 1..], host);
      ChildrenWithout(fam, permuted, j, host);
    }
  }

  lemma {:induction false} CancelOne<T>(a: multiset<T>, b: multiset<T>, x: T)
    requires a + multiset{x} == b + multiset{x}
    ensures a == b
  {
    assert a == a + multiset{x} - multiset{x};
    assert b == b + multiset{x} - multiset{x};
  }

  lemma {:induction false} WithoutOne<T>(s: seq<T>, j: nat)
    requires j < |s|
    ensures multiset(s) == multiset(s[..j] + s[j + 1..]) + multiset{s[j]}
  {
    assert s == s[..j] + [s[j]] + s[j + 1..];
  }

  /**
   * Permuting the input changes neither who is a node nor who hosts whom: each
   * node of one tree is a node of the other, with the same children.
   */
  lemma {:induction false} OrderDoesNotMatter(chats: seq<Chat>, permuted: seq<Chat>, memberOf: map<Id, Id>,
                                              subagents: map<Id, seq<SubagentRow>>, node: Node) returns (other: Node)
    requires DistinctIds(chats) && DistinctIds(permuted) && multiset(chats) == multiset(permuted)
    requires node in Tree(Family(Parents(chats, memberOf), memberOf, subagents), chats)
    ensures other in Tree(Family(Parents(permuted, memberOf), memberOf, subagents), permuted)
    ensures other.chat == node.chat && multiset(other.children) == multiset(node.children)
  {
    SameParents(chats, permuted, memberOf);
    var fam, chat := Family(Parents(chats, memberOf), memberOf, subagents), node.chat;
    var place := PlaceOfNode(fam, chats, node);
    PlacedAreThere(fam, permuted, UpFront);
    PlacedAreThere(fam, permuted, Promoted);
    SameMembers(chats, permuted);
    var shown := PlacedAt(fam, permuted, UpFront) + PlacedAt(fam, permuted, Promoted);
    assert chat in shown;
    var k :| 0 <= k < |shown| && shown[k] == chat;
    other := Tree(fam, permuted)[k];
    SameChildren(fam, chats, permuted, chat.id);
  }

  lemma {:induction false} PlaceOfNode(fam: Family, chats: seq<Chat>, node: Node) returns (place: Place)
    requires DistinctIds(chats) && node in Tree(fam, chats)
    ensures node.chat in chats && node == NodeOf(fam, chats, node.chat)
    ensures (place == UpFront || place == Promoted) && Where(fam, node.chat) == place
  {
    PlacedAreThere(fam, chats, UpFront);
    PlacedAreThere(fam, chats, Promoted);
    var shown := PlacedAt(fam, chats, UpFront) + PlacedAt(fam, chats, Promoted);
    var k :| 0 <= k < |shown| && Tree(fam, chats)[k] == node;
    assert shown[k] in shown;
    place := Where(fam, node.chat);
  }
}
