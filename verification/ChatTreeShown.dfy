/** Where each chat stands in the composed sidebar, and under which label. */
module ChatTreeShown {
  import opened ChatTree
  import opened Wrappers

  // The chats before the `i`-th that have this place.
  ghost function PlacedBefore(fam: Family, chats: seq<Chat>, place: Place, i: nat): set<nat>
    requires i <= |chats|
  {
    set j: nat | j < i && Where(fam, chats[j]) == place
  }

  lemma {:induction false} SamePlaced(fam: Family, chats: seq<Chat>, place: Place, n: nat, i: nat)
    requires i <= n <= |chats|
    ensures PlacedBefore(fam, chats[..n], place, i) == PlacedBefore(fam, chats, place, i)
  {
    assert forall j :: 0 <= j < i ==> chats[..n][j] == chats[j];
  }

  lemma {:induction false} OneMorePlaced(fam: Family, chats: seq<Chat>, place: Place, n: nat)
    requires n < |chats|
    ensures |PlacedBefore(fam, chats, place, n + 1)| ==
            |PlacedBefore(fam, chats, place, n)| + if Where(fam, chats[n]) == place then 1 else 0
  {
    if Where(fam, chats[n]) == place {
      assert PlacedBefore(fam, chats, place, n + 1) == PlacedBefore(fam, chats, place, n) + {n};
    } else {
      assert PlacedBefore(fam, chats, place, n + 1) == PlacedBefore(fam, chats, place, n);
    }
  }

  // The chats with one place stand in the order of the input.
  lemma {:induction false} PlacedInOrder(fam: Family, chats: seq<Chat>, place: Place, i: nat)
    requires i < |chats| && Where(fam, chats[i]) == place
    ensures |PlacedBefore(fam, chats, place, i)| < |PlacedAt(fam, chats, place)|
    ensures PlacedAt(fam, chats, place)[|PlacedBefore(fam, chats, place, i)|] == chats[i]
  {
    var n := |chats| - 1;
    PlacedCount(fam, chats[..n], place);
    SamePlaced(fam, chats, place, n, i);
    if i < n {
      PlacedInOrder(fam, chats[..n], place, i);
    }
  }

  lemma {:induction false} PlacedCount(fam: Family, chats: seq<Chat>, place: Place)
    ensures |PlacedAt(fam, chats, place)| == |PlacedBefore(fam, chats, place, |chats|)|
  {
    if chats == [] {
      assert PlacedBefore(fam, chats, place, 0) == {};
    } else {
      var n := |chats| - 1;
      PlacedCount(fam, chats[..n], place);
      SamePlaced(fam, chats, place, n, n);
      OneMorePlaced(fam, chats, place, n);
    }
  }

  // A host's children are the chats placed under it, in order.
  lemma {:induction false} ChildrenArePlaced(fam: Family, chats: seq<Chat>, host: Id)
    ensures |ChatChildren(fam, chats, host)| == |PlacedAt(fam, chats, Under(host))|
    ensures forall k :: 0 <= k < |ChatChildren(fam, chats, host)| ==>
            var chat := PlacedAt(fam, chats, Under(host))[k];
            chat.id in fam.parents && ChatChildren(fam, chats, host)[k] == ChildOf(fam, chat)
  {
    if chats != [] {
      ChildrenArePlaced(fam, chats[..|chats| - 1], host);
    }
  }

  /******* Nodes *******/

  // The position of a chat that has a node of its own: roots first, then those promoted.
  ghost function NodeAt(fam: Family, chats: seq<Chat>, i: nat): nat
    requires i < |chats|
  {
    if Where(fam, chats[i]) == UpFront then |PlacedBefore(fam, chats, UpFront, i)|
    else |PlacedAt(fam, chats, UpFront)| + |PlacedBefore(fam, chats, Promoted, i)|
  }

  /** Roots, and chats too deep for any root, are nodes themselves, in input order. */
  lemma {:induction false} ShownAsNode(fam: Family, chats: seq<Chat>, i: nat)
    requires i < |chats| && !Where(fam, chats[i]).Under?
    ensures NodeAt(fam, chats, i) < |Tree(fam, chats)| && Tree(fam, chats)[NodeAt(fam, chats, i)].chat == chats[i]
  {
    PlacedInOrder(fam, chats, Where(fam, chats[i]), i);
  }

  /******* Children *******/

  ghost predicate SomeOwner(chats: seq<Chat>, memberOf: map<Id, Id>, chat: Chat)
  {
    exists p :: Owned(chats, memberOf, chat, p)
  }

  // The label says orchestrator exactly if an orchestrator is the parent.
  lemma {:induction false} LabelByTheRules(chats: seq<Chat>, fam: Family, chat: Chat)
    requires HasParent(chats, fam.memberOf, fam.parents, chat) && chat.id in fam.parents
    ensures ChildOf(fam, chat) ==
            ChatChild(chat.id, chat.title, if SomeOwner(chats, fam.memberOf, chat) then Orchestrator else Voice)
  {
    var p := fam.parents[chat.id];
    if SomeOwner(chats, fam.memberOf, chat) {
      var q :| Owned(chats, fam.memberOf, chat, q);
    } else {
      assert exists q :: Voiced(chats, chat, q);
      var q :| Voiced(chats, chat, q);
      assert !Owned(chats, fam.memberOf, chat, q);
    }
  }

  /**
   * A chat under a root is a child of that root's node, with its id and title, behind
   * the root's subagents and the chats that come before it in the input, labelled
   * orchestrator exactly if its orchestrator is another present chat.
   */
  lemma {:induction false} ShownUnderHost(fam: Family, chats: seq<Chat>, i: nat, h: nat)
    requires DistinctIds(chats) && ByTheRules(chats, fam.memberOf, fam.parents)
    requires i < |chats| && h < |chats| && Where(fam, chats[i]) == Under(chats[h].id)
    ensures var child := ChatChild(chats[i].id, chats[i].title,
                                   if SomeOwner(chats, fam.memberOf, chats[i]) then Orchestrator else Voice);
      var node, k := NodeAt(fam, chats, h),
                     |SubagentChildren(fam, chats[h].id)| + |PlacedBefore(fam, chats, Under(chats[h].id), i)|;
      && node < |Tree(fam, chats)| && Tree(fam, chats)[node].chat == chats[h]
      && k < |Tree(fam, chats)[node].children| && Tree(fam, chats)[node].children[k] == child
  {
    HostsAreRoots(fam.parents, chats[i].id, MAX_HOPS);
    assert Where(fam, chats[h]) == UpFront;
    ShownAsNode(fam, chats, h);
    PlacedInOrder(fam, chats, Under(chats[h].id), i);
    ChildrenArePlaced(fam, chats, chats[h].id);
    assert HasParent(chats, fam.memberOf, fam.parents, chats[i]);
    LabelByTheRules(chats, fam, chats[i]);
  }

  /** In particular, a chat that is no root is a child of its parent if that is one. */
  lemma {:induction false} UnderItsParent(fam: Family, chats: seq<Chat>, i: nat, p: Id)
    requires ByTheRules(chats, fam.memberOf, fam.parents) && i < |chats|
    requires Owned(chats, fam.memberOf, chats[i], p) ||
             (!SomeOwner(chats, fam.memberOf, chats[i]) && Voiced(chats, chats[i], p))
    requires IsRoot(fam.parents, p) && !IsRoot(fam.parents, chats[i].id)
    ensures Where(fam, chats[i]) == Under(p)
  {
    assert HasParent(chats, fam.memberOf, fam.parents, chats[i]);
    assert fam.parents[chats[i].id] == p;
  }

  /** A chat with neither kind of parent is a root. */
  lemma {:induction false} WithoutParent(fam: Family, chats: seq<Chat>, i: nat)
    requires ByTheRules(chats, fam.memberOf, fam.parents) && i < |chats|
    requires forall p :: !Owned(chats, fam.memberOf, chats[i], p) && !Voiced(chats, chats[i], p)
    ensures Where(fam, chats[i]) == UpFront
  {
    assert HasParent(chats, fam.memberOf, fam.parents, chats[i]);
  }
}
