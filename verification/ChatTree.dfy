/** The sidebar's one-level hierarchy: parents with possible cycles, flattened onto roots. */
module ChatTree {
  import opened Graphs
  import opened Wrappers

  type Id = string

  // `parent` is the voice parent's id, "" for none.
  datatype Chat = Chat(id: Id, title: string, parent: Id)

  type SubagentRow = string

  datatype Relation = Orchestrator | Voice
  datatype Child = Subagent(row: SubagentRow) | ChatChild(id: Id, title: string, relation: Relation)
  datatype Node = Node(chat: Chat, children: seq<Child>)

  // _MAX_DEPTH + 2
  const MAX_HOPS := 3

  ghost predicate DistinctIds(chats: seq<Chat>)
  {
    forall i, j :: 0 <= i < j < |chats| ==> chats[i].id != chats[j].id
  }

  function Ids(chats: seq<Chat>): set<Id>
  {
    set chat | chat in chats :: chat.id
  }

  /******* Parents, cycles, roots *******/

  predicate Eligible(present: set<Id>, chat: Chat, id: Id)
  {
    id != "" && id in present && id != chat.id
  }

  function Owner(memberOf: map<Id, Id>, id: Id): Id
  {
    if id in memberOf then memberOf[id] else ""
  }

  // The one parent a chat nests under: orchestrator first, then voice.
  function ParentOf(present: set<Id>, memberOf: map<Id, Id>, chat: Chat): Option<Id>
  {
    var owner := Owner(memberOf, chat.id);
    if Eligible(present, chat, owner) then Some(owner)
    else if Eligible(present, chat, chat.parent) then Some(chat.parent)
    else None
  }

  ghost predicate ParentIs(f: map<Id, Id>, id: Id, parent: Option<Id>)
  {
    match parent
    case None => id !in f
    case Some(p) => id in f && f[id] == p
  }

  lemma {:induction false} LastIsNew(chats: seq<Chat>)
    requires DistinctIds(chats) && chats != []
    ensures var front, last := chats[..|chats| - 1], chats[|chats| - 1];
      && DistinctIds(front) && Ids(chats) == Ids(front) + {last.id} && last.id !in Ids(front)
      && forall i :: 0 <= i < |chats| - 1 ==> chats[i] == front[i] && chats[i].id != last.id
  {
    assert chats == chats[..|chats| - 1] + [chats[|chats| - 1]];
  }

  ghost predicate ParentsAre(f: map<Id, Id>, present: set<Id>, memberOf: map<Id, Id>, chats: seq<Chat>)
  {
    && f.Keys <= Ids(chats) && (forall id :: id in f ==> f[id] in present)
    && forall i :: 0 <= i < |chats| ==> ParentIs(f, chats[i].id, ParentOf(present, memberOf, chats[i]))
  }

  lemma {:induction false} OneMoreParent(present: set<Id>, memberOf: map<Id, Id>, chats: seq<Chat>, f: map<Id, Id>,
                                         g: map<Id, Id>)
    requires DistinctIds(chats) && chats != [] && ParentsAre(f, present, memberOf, chats[..|chats| - 1])
    requires var parent := ParentOf(present, memberOf, chats[|chats| - 1]);
      g == if parent.None? then f else f[chats[|chats| - 1].id := parent.value]
    ensures ParentsAre(g, present, memberOf, chats)
  {
    LastIsNew(chats);
    var front := chats[..|chats| - 1];
    forall i | 0 <= i < |chats| ensures ParentIs(g, chats[i].id, ParentOf(present, memberOf, chats[i])) {
      if i < |front| {
        assert ParentIs(f, front[i].id, ParentOf(present, memberOf, front[i]));
      }
    }
  }

  // The parents of `chats`, those that have one, among the chats present.
  function ParentsAmong(present: set<Id>, memberOf: map<Id, Id>, chats: seq<Chat>): (f: map<Id, Id>)
    requires DistinctIds(chats)
    ensures ParentsAre(f, present, memberOf, chats)
  {
    if chats == [] then map[]
    else
      var front, last := chats[..|chats| - 1], chats[|chats| - 1];
      var f := ParentsAmong(present, memberOf, front);
      var parent := ParentOf(present, memberOf, last);
      var g := if parent.None? then f else f[last.id := parent.value];
      OneMoreParent(present, memberOf, chats, f, g);
      g
  }

  function Parents(chats: seq<Chat>, memberOf: map<Id, Id>): map<Id, Id>
    requires DistinctIds(chats)
  {
    ParentsAmong(Ids(chats), memberOf, chats)
  }

  // The chat's orchestrator is another chat that is present.
  ghost predicate Owned(chats: seq<Chat>, memberOf: map<Id, Id>, chat: Chat, parent: Id)
  {
    chat.id in memberOf && memberOf[chat.id] == parent && Another(chats, chat, parent)
  }

  // So is the chat from which it was started by voice.
  ghost predicate Voiced(chats: seq<Chat>, chat: Chat, parent: Id)
  {
    chat.parent == parent && Another(chats, chat, parent)
  }

  ghost predicate Another(chats: seq<Chat>, chat: Chat, id: Id)
  {
    id != "" && id != chat.id && exists other :: other in chats && other.id == id
  }

  // The orchestrator comes first, then the voice parent, and otherwise there is none.
  ghost predicate HasParent(chats: seq<Chat>, memberOf: map<Id, Id>, f: map<Id, Id>, chat: Chat)
  {
    && (forall p :: Owned(chats, memberOf, chat, p) ==> chat.id in f && f[chat.id] == p)
    && ((forall p :: !Owned(chats, memberOf, chat, p)) ==>
          forall p :: Voiced(chats, chat, p) ==> chat.id in f && f[chat.id] == p)
    && ((forall p :: !Owned(chats, memberOf, chat, p) && !Voiced(chats, chat, p)) ==> chat.id !in f)
  }

  ghost predicate ByTheRules(chats: seq<Chat>, memberOf: map<Id, Id>, f: map<Id, Id>)
  {
    && (forall chat :: chat in chats ==> HasParent(chats, memberOf, f, chat))
    && (forall id :: id in f ==> exists chat :: chat in chats && chat.id == id)
  }

  lemma {:induction false} ParentByTheRules(chats: seq<Chat>, memberOf: map<Id, Id>, chat: Chat, f: map<Id, Id>)
    requires ParentIs(f, chat.id, ParentOf(Ids(chats), memberOf, chat))
    ensures HasParent(chats, memberOf, f, chat)
  {
    forall p ensures Owned(chats, memberOf, chat, p) <==>
        p == Owner(memberOf, chat.id) && Eligible(Ids(chats), chat, p) {
    }
    forall p ensures Voiced(chats, chat, p) <==> p == chat.parent && Eligible(Ids(chats), chat, p) {
    }
    if (forall p :: !Owned(chats, memberOf, chat, p) && !Voiced(chats, chat, p)) {
      assert !Owned(chats, memberOf, chat, Owner(memberOf, chat.id)) && !Voiced(chats, chat, chat.parent);
    } else if forall p :: !Owned(chats, memberOf, chat, p) {
      assert !Owned(chats, memberOf, chat, Owner(memberOf, chat.id));
    }
  }

  /**
   * A chat whose orchestrator is another present chat has that one as its parent; any
   * other chat whose voice parent is another present chat has that one; and only a chat
   * with neither has none.
   */
  lemma {:induction false} ParentsByTheRules(chats: seq<Chat>, memberOf: map<Id, Id>)
    requires DistinctIds(chats)
    ensures ByTheRules(chats, memberOf, Parents(chats, memberOf))
  {
    var f := Parents(chats, memberOf);
    forall chat | chat in chats ensures HasParent(chats, memberOf, f, chat) {
      var i :| 0 <= i < |chats| && chats[i] == chat;
      assert ParentIs(f, chats[i].id, ParentOf(Ids(chats), memberOf, chats[i]));
      ParentByTheRules(chats, memberOf, chat, f);
    }
  }

  // There is one parent map by the rules.
  lemma {:induction false} OneParentMap(chats: seq<Chat>, memberOf: map<Id, Id>, f: map<Id, Id>, g: map<Id, Id>)
    requires ByTheRules(chats, memberOf, f) && ByTheRules(chats, memberOf, g)
    ensures f == g
  {
    forall chat | chat in chats
      ensures chat.id in f <==> chat.id in g
      ensures chat.id in f && chat.id in g ==> f[chat.id] == g[chat.id]
    {
      assert HasParent(chats, memberOf, f, chat) && HasParent(chats, memberOf, g, chat);
    }
    forall id ensures id in f <==> id in g {
    }
    forall id | id in f ensures f[id] == g[id] {
      var chat :| chat in chats && chat.id == id;
    }
  }

  // The ancestor `n` hops up, if the chain is that long.
  ghost function Ancestor(f: map<Id, Id>, id: Id, n: nat): Option<Id>
  {
    if n == 0 then Some(id)
    else match Ancestor(f, id, n - 1)
      case None => None
      case Some(a) => if a in f then Some(f[a]) else None
  }

  ghost predicate OnCycle(f: map<Id, Id>, id: Id)
  {
    exists n :: n >= 1 && Ancestor(f, id, n) == Some(id)
  }

  // A chat without a parent, or on a parent cycle.
  ghost predicate IsRoot(f: map<Id, Id>, id: Id)
  {
    id !in f || OnCycle(f, id)
  }

  // A set that the parents of its members and of `id` do not leave holds every
  // proper ancestor of `id`.
  lemma {:induction false} StaysInside(f: map<Id, Id>, id: Id, s: set<Id>, n: nat)
    requires id in f ==> f[id] in s
    requires forall x :: x in s && x in f ==> f[x] in s
    ensures n >= 1 ==> Ancestor(f, id, n) == None || Ancestor(f, id, n).value in s
  {
    if n >= 1 {
      StaysInside(f, id, s, n - 1);
    }
  }

  lemma {:induction false} NeverReturns(f: map<Id, Id>, id: Id, s: set<Id>)
    requires id !in s && (id in f ==> f[id] in s) && forall x :: x in s && x in f ==> f[x] in s
    ensures !OnCycle(f, id)
  {
    forall k: nat | k >= 1 ensures Ancestor(f, id, k) != Some(id) {
      StaysInside(f, id, s, k);
    }
  }

  // The chain from `id` has come to `current`, over the chats in `seen`, without
  // coming back to one of them.
  ghost predicate Climbing(f: map<Id, Id>, id: Id, seen: set<Id>, current: Id)
  {
    && id in seen && current in seen && seen - {current} <= f.Keys
    && (forall x :: x in seen && x != current ==> f[x] in seen - {id})
    && (current == id ==> seen == {id})
  }

  lemma {:induction false} ClimbOn(f: map<Id, Id>, id: Id, seen: set<Id>, current: Id)
    requires Climbing(f, id, seen, current) && current in f && f[current] != id && f[current] !in seen
    ensures Climbing(f, id, seen + {f[current]}, f[current])
    ensures |f.Keys - seen| < |f.Keys - (seen - {current})|
  {
    assert (seen + {f[current]}) - {f[current]} == seen;
    assert f.Keys - (seen - {current}) == (f.Keys - seen) + {current};
  }

  method ReturnsToItself(f: map<Id, Id>, id: Id) returns (r: bool)
    ensures r <==> OnCycle(f, id)
  {
    var seen := {id};
    var current := id;
    ghost var n := 0;
    while true
      invariant Climbing(f, id, seen, current) && Ancestor(f, id, n) == Some(current)
      decreases |f.Keys - (seen - {current})|
    {
      if current !in f || (f[current] != id && f[current] in seen) {
        NeverReturns(f, id, seen - {id});
        return false;
      }
      var parent := f[current];
      n := n + 1;
      if parent == id {
        assert Ancestor(f, id, n) == Some(id);
        return true;
      }
      ClimbOn(f, id, seen, current);
      assert seen + {parent} - {parent} == seen;
      seen := seen + {parent};
      current := parent;
    }
  }

  /******* Hosts *******/

  // The nearest root at most `hops` parents away.
  ghost function HostWithin(f: map<Id, Id>, id: Id, hops: nat): Option<Id>
    decreases hops
  {
    if hops == 0 || id !in f then None
    else if IsRoot(f, f[id]) then Some(f[id])
    else HostWithin(f, f[id], hops - 1)
  }

  ghost function Host(f: map<Id, Id>, id: Id): Option<Id>
  {
    HostWithin(f, id, MAX_HOPS)
  }

  method HostFor(f: map<Id, Id>, roots: set<Id>, id: Id) returns (host: Option<Id>)
    requires forall x :: x in f.Values ==> (x in roots <==> IsRoot(f, x))
    ensures host == Host(f, id)
  {
    var current := if id in f then Some(f[id]) else None;
    ghost var child := id;
    for i := 0 to MAX_HOPS
      invariant current == if child in f then Some(f[child]) else None
      invariant Host(f, id) == HostWithin(f, child, MAX_HOPS - i)
    {
      if current == None {
        return None;
      }
      assert current.value in f.Values;
      if current.value in roots {
        return current;
      }
      child := current.value;
      current := if current.value in f then Some(f[current.value]) else None;
    }
    return None;
  }

  // `n` hops up is a root, and nothing in between is.
  ghost predicate NearestRootAt(f: map<Id, Id>, id: Id, n: nat)
  {
    && n >= 1 && Ancestor(f, id, n).Some? && IsRoot(f, Ancestor(f, id, n).value)
    && forall k :: 1 <= k < n && Ancestor(f, id, k).Some? ==> !IsRoot(f, Ancestor(f, id, k).value)
  }

  lemma {:induction false} AncestorPlus(f: map<Id, Id>, id: Id, n: nat, k: nat)
    requires Ancestor(f, id, n).Some?
    ensures Ancestor(f, id, n + k) == Ancestor(f, Ancestor(f, id, n).value, k)
  {
    if k > 0 {
      AncestorPlus(f, id, n, k - 1);
    }
  }

  // Chains have no gaps.
  lemma {:induction false} AncestorsBelow(f: map<Id, Id>, id: Id, n: nat, k: nat)
    requires Ancestor(f, id, n).Some? && k <= n
    ensures Ancestor(f, id, k).Some?
  {
    if k < n {
      AncestorsBelow(f, id, n - 1, k);
    }
  }

  lemma {:induction false} NearestIsUnique(f: map<Id, Id>, id: Id, n: nat, m: nat)
    requires NearestRootAt(f, id, n) && NearestRootAt(f, id, m)
    ensures n == m
  {
    if n < m {
      AncestorsBelow(f, id, m, n);
    } else if m < n {
      AncestorsBelow(f, id, n, m);
    }
  }

  lemma {:induction false} ChainRepeats(f: map<Id, Id>, id: Id) returns (i: nat, j: nat)
    requires forall k :: 0 <= k <= |f| ==> Ancestor(f, id, k).Some? && Ancestor(f, id, k).value in f
    ensures i < j <= |f| && Ancestor(f, id, i) == Ancestor(f, id, j)
  {
    var s := seq(|f| + 1, k requires 0 <= k <= |f| => Ancestor(f, id, k).value);
    if forall i, j :: 0 <= i < j < |s| ==> s[i] != s[j] {
      DistinctAreFew(s, f.Keys);
      assert false;
    }
    i, j :| 0 <= i < j < |s| && s[i] == s[j];
  }

  // Following parents from a chat that is no root always meets a root.
  lemma {:induction false} SomeRootAbove(f: map<Id, Id>, id: Id) returns (n: nat)
    requires !IsRoot(f, id)
    ensures n >= 1 && Ancestor(f, id, n).Some? && IsRoot(f, Ancestor(f, id, n).value)
  {
    n := 1;
    if k :| 1 <= k <= |f| && Ancestor(f, id, k).Some? && IsRoot(f, Ancestor(f, id, k).value) {
      return k;
    }
    forall k | 0 <= k <= |f| ensures Ancestor(f, id, k).Some? && Ancestor(f, id, k).value in f {
      AllInside(f, id, k);
    }
    var i, j := ChainRepeats(f, id);
    AncestorPlus(f, id, i, j - i);
    assert OnCycle(f, Ancestor(f, id, i).value);
    assert false;
  }

  lemma {:induction false} AllInside(f: map<Id, Id>, id: Id, k: nat)
    requires !IsRoot(f, id) && k <= |f|
    requires forall n :: 1 <= n <= |f| && Ancestor(f, id, n).Some? ==> !IsRoot(f, Ancestor(f, id, n).value)
    ensures Ancestor(f, id, k).Some? && Ancestor(f, id, k).value in f
  {
    if k > 0 {
      AllInside(f, id, k - 1);
    }
  }

  // ... and so has a nearest one.
  lemma {:induction false} NearestRootExists(f: map<Id, Id>, id: Id) returns (n: nat)
    requires !IsRoot(f, id)
    ensures NearestRootAt(f, id, n)
  {
    n := SomeRootAbove(f, id);
    while !NearestRootAt(f, id, n)
      invariant n >= 1 && Ancestor(f, id, n).Some? && IsRoot(f, Ancestor(f, id, n).value)
      decreases n
    {
      var k :| 1 <= k < n && Ancestor(f, id, k).Some? && IsRoot(f, Ancestor(f, id, k).value);
      n := k;
    }
  }

  lemma {:induction false} HostIsNearest(f: map<Id, Id>, id: Id, hops: nat, n: nat)
    requires NearestRootAt(f, id, n)
    ensures HostWithin(f, id, hops) == if n <= hops then Ancestor(f, id, n) else None
    decreases hops
  {
    AncestorsBelow(f, id, n, 1);
    assert Ancestor(f, id, 1) == Some(f[id]) by {
      assert Ancestor(f, id, 0) == Some(id);
    }
    if hops > 0 && n > 1 {
      forall k: nat ensures Ancestor(f, f[id], k) == Ancestor(f, id, 1 + k) {
        AncestorPlus(f, id, 1, k);
      }
      assert Ancestor(f, f[id], n - 1) == Ancestor(f, id, 1 + (n - 1));
      assert NearestRootAt(f, f[id], n - 1) by {
        forall k | 1 <= k < n - 1 && Ancestor(f, f[id], k).Some? ensures !IsRoot(f, Ancestor(f, f[id], k).value) {
          assert Ancestor(f, f[id], k) == Ancestor(f, id, 1 + k);
        }
      }
      HostIsNearest(f, f[id], hops - 1, n - 1);
    }
  }

  /******* Where each chat goes *******/

  datatype Place = UpFront | Under(host: Id) | Promoted

  ghost function PlaceOf(f: map<Id, Id>, id: Id): Place
  {
    if IsRoot(f, id) then UpFront
    else match Host(f, id) { case Some(h) => Under(h) case None => Promoted }
  }

  /**
   * A chat is an up-front root exactly when it has no parent or lies on a parent
   * cycle.  Every other chat has a unique nearest root above it, and goes under
   * that root if it is at most three hops away, and is promoted otherwise.
   */
  lemma {:induction false} Placement(f: map<Id, Id>, id: Id) returns (n: nat)
    ensures PlaceOf(f, id) == UpFront <==> id !in f || OnCycle(f, id)
    ensures PlaceOf(f, id) != UpFront ==>
      && NearestRootAt(f, id, n) && (forall m :: NearestRootAt(f, id, m) ==> m == n)
      && PlaceOf(f, id) == if n <= 3 then Under(Ancestor(f, id, n).value) else Promoted
  {
    n := 0;
    if !IsRoot(f, id) {
      n := NearestRootExists(f, id);
      HostIsNearest(f, id, MAX_HOPS, n);
      forall m | NearestRootAt(f, id, m) ensures m == n {
        NearestIsUnique(f, id, m, n);
      }
    }
  }

  /******* The composed tree *******/

  // What decides where a chat goes and what it shows.
  datatype Family = Family(parents: map<Id, Id>, memberOf: map<Id, Id>, subagents: map<Id, seq<SubagentRow>>)

  ghost function Where(fam: Family, chat: Chat): Place
  {
    PlaceOf(fam.parents, chat.id)
  }

  function SubagentChildren(fam: Family, id: Id): seq<Child>
  {
    if id in fam.subagents
    then seq(|fam.subagents[id]|, i requires 0 <= i < |fam.subagents[id]| => Subagent(fam.subagents[id][i]))
    else []
  }

  // The parent that won labels the child, not membership alone.
  function ChildOf(fam: Family, chat: Chat): Child
    requires chat.id in fam.parents
  {
    ChatChild(chat.id, chat.title, if fam.parents[chat.id] == Owner(fam.memberOf, chat.id) then Orchestrator else Voice)
  }

  // The chat children of `host`, in input order.
  ghost function ChatChildren(fam: Family, chats: seq<Chat>, host: Id): seq<Child>
  {
    if chats == [] then []
    else
      var rest, last := ChatChildren(fam, chats[..|chats| - 1], host), chats[|chats| - 1];
      if Where(fam, last) == Under(host) then rest + [ChildOf(fam, last)] else rest
  }

  // The chats placed at `place`, in input order.
  ghost function PlacedAt(fam: Family, chats: seq<Chat>, place: Place): seq<Chat>
  {
    if chats == [] then []
    else
      var rest, last := PlacedAt(fam, chats[..|chats| - 1], place), chats[|chats| - 1];
      if Where(fam, last) == place then rest + [last] else rest
  }

  ghost function NodeOf(fam: Family, chats: seq<Chat>, chat: Chat): Node
  {
    Node(chat, SubagentChildren(fam, chat.id) + ChatChildren(fam, chats, chat.id))
  }

  ghost function NodesOf(fam: Family, chats: seq<Chat>, shown: seq<Chat>): seq<Node>
  {
    seq(|shown|, i requires 0 <= i < |shown| => NodeOf(fam, chats, shown[i]))
  }

  // The tree once the chats of `prefix` have been attached or promoted.
  ghost function TreeAfter(fam: Family, chats: seq<Chat>, prefix: seq<Chat>): seq<Node>
  {
    NodesOf(fam, prefix, PlacedAt(fam, chats, UpFront) + PlacedAt(fam, prefix, Promoted))
  }

  /** The sidebar: roots up front, then promoted chats, each with its own children. */
  ghost function Tree(fam: Family, chats: seq<Chat>): seq<Node>
  {
    TreeAfter(fam, chats, chats)
  }

  /******* Composing it *******/

  method Roots(fam: Family, chats: seq<Chat>) returns (roots: set<Id>)
    ensures forall id :: id in roots <==> id in Ids(chats) && IsRoot(fam.parents, id)
  {
    roots := {};
    for i := 0 to |chats|
      invariant forall id :: id in roots <==> id in Ids(chats[..i]) && IsRoot(fam.parents, id)
    {
      assert chats[..i + 1] == chats[..i] + [chats[i]];
      assert Ids(chats[..i + 1]) == Ids(chats[..i]) + {chats[i].id};
      var id := chats[i].id;
      var root := id !in fam.parents;
      if !root {
        root := ReturnsToItself(fam.parents, id);
      }
      if root {
        roots := roots + {id};
      }
    }
    assert chats[..|chats|] == chats;
  }

  // `index` finds every root's node in `out`.
  ghost predicate Indexed(out: seq<Node>, index: map<Id, nat>, roots: set<Id>)
  {
    && (forall id :: id in roots ==> id in index)
    && (forall id :: id in index ==> index[id] < |out| && out[index[id]].chat.id == id)
  }

  lemma {:induction false} OneMoreRoot(fam: Family, chats: seq<Chat>, i: nat)
    requires i < |chats|
    ensures PlacedAt(fam, chats[..i + 1], UpFront) ==
            PlacedAt(fam, chats[..i], UpFront) + if Where(fam, chats[i]) == UpFront then [chats[i]] else []
    ensures Ids(chats[..i + 1]) == Ids(chats[..i]) + {chats[i].id}
  {
    assert chats[..i + 1][..i] == chats[..i];
    assert chats[..i + 1] == chats[..i] + [chats[i]];
  }

  lemma {:induction false} IndexedMore(out: seq<Node>, index: map<Id, nat>, roots: set<Id>, node: Node)
    requires Indexed(out, index, roots)
    ensures Indexed(out + [node], index[node.chat.id := |out|], roots + {node.chat.id})
  {
  }

  method PutRoots(fam: Family, chats: seq<Chat>, roots: set<Id>) returns (out: seq<Node>, index: map<Id, nat>)
    requires forall id :: id in roots <==> id in Ids(chats) && IsRoot(fam.parents, id)
    ensures |out| == |PlacedAt(fam, chats, UpFront)|
    ensures forall k :: 0 <= k < |out| ==> out[k] == Node(PlacedAt(fam, chats, UpFront)[k], [])
    ensures Indexed(out, index, roots)
  {
    out, index := [], map[];
    for i := 0 to |chats|
      invariant |out| == |PlacedAt(fam, chats[..i], UpFront)|
      invariant forall k :: 0 <= k < |out| ==> out[k] == Node(PlacedAt(fam, chats[..i], UpFront)[k], [])
      invariant Indexed(out, index, roots * Ids(chats[..i]))
    {
      OneMoreRoot(fam, chats, i);
      ghost var seen := roots * Ids(chats[..i]);
      if chats[i].id in roots {
        IndexedMore(out, index, seen, Node(chats[i], []));
        assert roots * Ids(chats[..i + 1]) == seen + {chats[i].id};
        index := index[chats[i].id := |out|];
        out := out + [Node(chats[i], [])];
      } else {
        assert roots * Ids(chats[..i + 1]) == seen;
      }
    }
    assert chats[..|chats|] == chats;
  }

  method PutSubagents(fam: Family, nodes: seq<Node>) returns (out: seq<Node>)
    ensures |out| == |nodes|
    ensures forall k :: 0 <= k < |out| ==>
            out[k] == nodes[k].(children := nodes[k].children + SubagentChildren(fam, nodes[k].chat.id))
  {
    out := nodes;
    for k := 0 to |nodes|
      invariant |out| == |nodes| && out[k..] == nodes[k..]
      invariant forall j :: 0 <= j < k ==>
                out[j] == nodes[j].(children := nodes[j].children + SubagentChildren(fam, nodes[j].chat.id))
    {
      assert out[k] == out[k..][0];
      out := out[k := out[k].(children := out[k].children + SubagentChildren(fam, out[k].chat.id))];
    }
  }

  lemma {:induction false} HostsAreRoots(f: map<Id, Id>, id: Id, hops: nat)
    ensures HostWithin(f, id, hops).Some? ==> IsRoot(f, HostWithin(f, id, hops).value)
    decreases hops
  {
    if hops > 0 && id in f && !IsRoot(f, f[id]) {
      HostsAreRoots(f, f[id], hops - 1);
    }
  }

  // Only roots host anybody.
  lemma {:induction false} PromotedAreChildless(fam: Family, chats: seq<Chat>, id: Id)
    requires !IsRoot(fam.parents, id)
    ensures ChatChildren(fam, chats, id) == []
  {
    if chats != [] {
      PromotedAreChildless(fam, chats[..|chats| - 1], id);
      HostsAreRoots(fam.parents, chats[|chats| - 1].id, MAX_HOPS);
    }
  }

  lemma {:induction false} PlacedAreThere(fam: Family, chats: seq<Chat>, place: Place)
    requires DistinctIds(chats)
    ensures forall chat :: chat in PlacedAt(fam, chats, place) <==> chat in chats && Where(fam, chat) == place
    ensures DistinctIds(PlacedAt(fam, chats, place))
  {
    if chats != [] {
      var front, last := chats[..|chats| - 1], chats[|chats| - 1];
      assert chats == front + [last];
      PlacedAreThere(fam, front, place);
      assert forall chat :: chat in front ==> chat.id != last.id;
    }
  }

  // No two nodes show the same chat.
  lemma {:induction false} ShownOnce(fam: Family, chats: seq<Chat>, prefix: seq<Chat>)
    requires DistinctIds(chats) && prefix <= chats
    ensures DistinctIds(PlacedAt(fam, chats, UpFront) + PlacedAt(fam, prefix, Promoted))
  {
    PlacedAreThere(fam, chats, UpFront);
    PlacedAreThere(fam, prefix, Promoted);
    var a, b := PlacedAt(fam, chats, UpFront), PlacedAt(fam, prefix, Promoted);
    forall i, j | 0 <= i < |a| && 0 <= j < |b| ensures a[i].id != b[j].id {
      assert a[i] in a && b[j] in b;
    }
  }

  // What attaching the next chat does to the tree.
  lemma {:induction false} AttachNext(fam: Family, chats: seq<Chat>, prefix: seq<Chat>, chat: Chat)
    requires DistinctIds(chats) && prefix + [chat] <= chats
    ensures var before, after := TreeAfter(fam, chats, prefix), TreeAfter(fam, chats, prefix + [chat]);
      match Where(fam, chat)
      case UpFront => after == before
      case Promoted => after == before + [Node(chat, SubagentChildren(fam, chat.id))]
      case Under(h) =>
        && |after| == |before|
        && forall k :: 0 <= k < |before| ==>
             after[k] ==
             if before[k].chat.id == h then before[k].(children := before[k].children + [ChildOf(fam, chat)])
             else before[k]
  {
    var next := prefix + [chat];
    assert next[..|next| - 1] == prefix;
    var shown := PlacedAt(fam, chats, UpFront) + PlacedAt(fam, prefix, Promoted);
    match Where(fam, chat)
    case UpFront =>
      NodesUnchanged(fam, prefix, chat, shown);
    case Promoted =>
      NodesUnchanged(fam, prefix, chat, shown);
      PromotedAreChildless(fam, next, chat.id);
      assert PlacedAt(fam, chats, UpFront) + PlacedAt(fam, next, Promoted) == shown + [chat];
      assert NodesOf(fam, next, shown + [chat]) == NodesOf(fam, next, shown) + [NodeOf(fam, next, chat)];
      assert SubagentChildren(fam, chat.id) + [] == SubagentChildren(fam, chat.id);
    case Under(h) =>
      forall k | 0 <= k < |shown|
        ensures NodeOf(fam, next, shown[k]) ==
                if shown[k].id == h then Node(shown[k], NodeOf(fam, prefix, shown[k]).children + [ChildOf(fam, chat)])
                else NodeOf(fam, prefix, shown[k])
      {
        var subs, rest := SubagentChildren(fam, shown[k].id), ChatChildren(fam, prefix, shown[k].id);
        assert subs + (rest + [ChildOf(fam, chat)]) == subs + rest + [ChildOf(fam, chat)];
      }
  }

  lemma {:induction false} NodesUnchanged(fam: Family, prefix: seq<Chat>, chat: Chat, shown: seq<Chat>)
    requires !Where(fam, chat).Under?
    ensures NodesOf(fam, prefix + [chat], shown) == NodesOf(fam, prefix, shown)
  {
    assert (prefix + [chat])[..|prefix|] == prefix;
  }

  // Attaches or promotes one chat, unless it is a root and there already.
  method PlaceNext(fam: Family, ghost chats: seq<Chat>, ghost prefix: seq<Chat>, chat: Chat, roots: set<Id>,
                   tree: seq<Node>, index: map<Id, nat>) returns (out: seq<Node>)
    requires DistinctIds(chats) && prefix + [chat] <= chats && chat.id in Ids(chats)
    requires forall id :: id in fam.parents ==> fam.parents[id] in Ids(chats)
    requires forall id :: id in roots <==> id in Ids(chats) && IsRoot(fam.parents, id)
    requires tree == TreeAfter(fam, chats, prefix) && Indexed(tree, index, roots)
    ensures out == TreeAfter(fam, chats, prefix + [chat]) && Indexed(out, index, roots)
  {
    AttachNext(fam, chats, prefix, chat);
    if chat.id in roots {
      return tree;
    }
    var host := HostFor(fam.parents, roots, chat.id);
    if host == None {
      out := tree + [Node(chat, SubagentChildren(fam, chat.id))];
    } else {
      HostIsPresent(fam.parents, chat.id, MAX_HOPS);
      HostsAreRoots(fam.parents, chat.id, MAX_HOPS);
      var k := index[host.value];
      out := tree[k := tree[k].(children := tree[k].children + [ChildOf(fam, chat)])];
      ShownOnce(fam, chats, prefix);
      assert forall j :: 0 <= j < |tree| && tree[j].chat.id == tree[k].chat.id ==> j == k;
    }
  }

  lemma {:induction false} HostIsPresent(f: map<Id, Id>, id: Id, hops: nat)
    ensures HostWithin(f, id, hops).Some? ==> exists x :: x in f && f[x] == HostWithin(f, id, hops).value
    decreases hops
  {
    if hops > 0 && id in f && !IsRoot(f, f[id]) {
      HostIsPresent(f, f[id], hops - 1);
    }
  }

  method PlaceAll(fam: Family, chats: seq<Chat>, roots: set<Id>, tree: seq<Node>, index: map<Id, nat>)
    returns (out: seq<Node>)
    requires DistinctIds(chats)
    requires forall id :: id in fam.parents ==> fam.parents[id] in Ids(chats)
    requires forall id :: id in roots <==> id in Ids(chats) && IsRoot(fam.parents, id)
    requires tree == TreeAfter(fam, chats, []) && Indexed(tree, index, roots)
    ensures out == Tree(fam, chats)
  {
    out := tree;
    for i := 0 to |chats|
      invariant out == TreeAfter(fam, chats, chats[..i])
      invariant Indexed(out, index, roots)
    {
      NextChat(chats, i);
      out := PlaceNext(fam, chats, chats[..i], chats[i], roots, out, index);
    }
    assert chats[..|chats|] == chats;
  }

  lemma {:induction false} NextChat(chats: seq<Chat>, i: nat)
    requires i < |chats|
    ensures chats[..i] + [chats[i]] == chats[..i + 1] <= chats && chats[i].id in Ids(chats)
  {
  }

  /** The composer builds the tree, whatever the parents look like. */
  method BuildChatTree(chats: seq<Chat>, subagents: map<Id, seq<SubagentRow>>, memberOf: map<Id, Id>)
    returns (out: seq<Node>)
    requires DistinctIds(chats)
    ensures out == Tree(Family(Parents(chats, memberOf), memberOf, subagents), chats)
    ensures exists f :: ByTheRules(chats, memberOf, f) && out == Tree(Family(f, memberOf, subagents), chats)
  {
    var parents := Parents(chats, memberOf);
    ParentsByTheRules(chats, memberOf);
    var fam := Family(parents, memberOf, subagents);
    var roots := Roots(fam, chats);
    var bare, index := PutRoots(fam, chats, roots);
    var tree := PutSubagents(fam, bare);
    StartsWithRoots(fam, chats, tree);
    out := PlaceAll(fam, chats, roots, tree, index);
  }

  lemma {:induction false} StartsWithRoots(fam: Family, chats: seq<Chat>, out: seq<Node>)
    requires |out| == |PlacedAt(fam, chats, UpFront)|
    requires forall k :: 0 <= k < |out| ==>
      out[k] == Node(PlacedAt(fam, chats, UpFront)[k], [] + SubagentChildren(fam, PlacedAt(fam, chats, UpFront)[k].id))
    ensures out == TreeAfter(fam, chats, [])
  {
    var shown := PlacedAt(fam, chats, UpFront);
    assert shown + [] == shown;
    forall k | 0 <= k < |out| ensures out[k] == NodeOf(fam, [], shown[k]) {
      assert [] + SubagentChildren(fam, shown[k].id) == SubagentChildren(fam, shown[k].id) + [];
    }
  }
}
