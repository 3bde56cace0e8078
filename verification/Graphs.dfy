/** Finite graphs: walks, cycles, topological orders, and following one edge forever. */
module Graphs {

  /******* Dependency graphs *******/

  // A node that is not a key has no outgoing edge.
  function Targets<T(==)>(g: map<T, seq<T>>, n: T): seq<T>
  {
    if n in g then g[n] else []
  }

  ghost predicate Walk<T>(g: map<T, seq<T>>, p: seq<T>)
  {
    forall i :: 0 <= i < |p| - 1 ==> p[i] in g && p[i + 1] in g[p[i]]
  }

  ghost predicate Cycle<T>(g: map<T, seq<T>>, p: seq<T>)
  {
    |p| >= 2 && p[0] == p[|p| - 1] && Walk(g, p)
  }

  ghost predicate Acyclic<T(!new)>(g: map<T, seq<T>>)
  {
    !exists p :: Cycle(g, p)
  }

  // Everything a listed node points at is listed before it.
  ghost predicate Topological<T>(g: map<T, seq<T>>, order: seq<T>)
  {
    forall i, d :: 0 <= i < |order| && order[i] in g && d in g[order[i]] ==> d in order[..i]
  }

  ghost function FirstIndex<T>(s: seq<T>, x: T): (i: nat)
    requires x in s
    ensures i < |s| && s[i] == x && x !in s[..i]
  {
    if s[0] == x then 0 else 1 + FirstIndex(s[1..], x)
  }

  lemma {:induction false} FirstIsLeast<T>(s: seq<T>, x: T, j: nat)
    requires j < |s| && s[j] == x
    ensures FirstIndex(s, x) <= j
  {
    if s[0] != x {
      FirstIsLeast(s[1..], x, j - 1);
    }
  }

  // Along a walk through listed nodes, positions in a topological order fall.
  lemma {:induction false} WalkDescends<T>(g: map<T, seq<T>>, order: seq<T>, p: seq<T>, i: nat)
    requires Topological(g, order) && Walk(g, p) && i < |p| && p[0] in order
    ensures p[i] in order && FirstIndex(order, p[i]) + i <= FirstIndex(order, p[0])
  {
    if i > 0 {
      WalkDescends(g, order, p, i - 1);
      var k := FirstIndex(order, p[i - 1]);
      assert p[(i - 1) + 1] in g[order[k]];
      assert p[i] in order[..k];
      var j :| 0 <= j < k && order[j] == p[i];
      FirstIsLeast(order, p[i], j);
    }
  }

  lemma {:induction false} OrderedIsAcyclic<T(!new)>(g: map<T, seq<T>>, order: seq<T>)
    requires Topological(g, order) && forall n :: n in g ==> n in order
    ensures Acyclic(g)
  {
    forall p | Cycle(g, p) ensures false {
      assert p[0 + 1] in g[p[0]];
      WalkDescends(g, order, p, |p| - 1);
    }
  }

  /******* Following one edge from every node *******/

  // `f` applied `n` times.
  ghost function Iterate<T>(f: map<T, T>, x: T, n: nat): T
    requires x in f && f.Values <= f.Keys
    ensures Iterate(f, x, n) in f
    decreases n
  {
    if n == 0 then x
    else
      var y := Iterate(f, x, n - 1);
      assert f[y] in f.Values;
      f[y]
  }

  lemma {:induction false} DistinctAreFew<T>(s: seq<T>, u: set<T>)
    requires forall i :: 0 <= i < |s| ==> s[i] in u
    requires forall i, j :: 0 <= i < j < |s| ==> s[i] != s[j]
    ensures |s| <= |u|
    decreases |s|
  {
    if s != [] {
      var last := s[|s| - 1];
      DistinctAreFew(s[..|s| - 1], u - {last});
    }
  }

  ghost function Trail<T>(f: map<T, T>, x: T, n: nat): (s: seq<T>)
    requires x in f && f.Values <= f.Keys
    ensures |s| == n + 1 && forall i :: 0 <= i <= n ==> s[i] == Iterate(f, x, i)
  {
    seq(n + 1, i requires 0 <= i <= n => Iterate(f, x, i))
  }

  // A finite map that never leaves its keys must revisit a node.
  lemma {:induction false} Revisits<T>(f: map<T, T>, x: T) returns (i: nat, j: nat)
    requires x in f && f.Values <= f.Keys
    ensures i < j <= |f| && Iterate(f, x, i) == Iterate(f, x, j)
  {
    var s := Trail(f, x, |f|);
    if forall i, j :: 0 <= i < j < |s| ==> s[i] != s[j] {
      DistinctAreFew(s, f.Keys);
      assert false;
    }
    i, j :| 0 <= i < j < |s| && s[i] == s[j];
  }

  lemma {:induction false} TrailFollows<T>(f: map<T, T>, x: T, n: nat)
    requires x in f && f.Values <= f.Keys
    ensures forall k :: 0 <= k < n ==> Trail(f, x, n)[k] in f && Trail(f, x, n)[k + 1] == f[Trail(f, x, n)[k]]
  {
    var s := Trail(f, x, n);
    forall k | 0 <= k < n ensures s[k] in f && s[k + 1] == f[s[k]] {
      assert s[k + 1] == Iterate(f, x, k + 1) == f[Iterate(f, x, k)];
    }
  }

  // A graph in which every node of a non-empty set has an edge into the set has
  // a cycle.
  lemma {:induction false} NoWayOut<T(!new)>(g: map<T, seq<T>>, f: map<T, T>, x: T)
    requires x in f && f.Values <= f.Keys
    requires forall n :: n in f ==> f[n] in Targets(g, n)
    ensures !Acyclic(g)
  {
    var i, j := Revisits(f, x);
    var s := Trail(f, x, j);
    TrailFollows(f, x, j);
    var p := s[i..];
    assert Walk(g, p) by {
      forall k | 0 <= k < |p| - 1 ensures p[k] in g && p[k + 1] in g[p[k]] {
        assert p[k] == s[i + k] && p[k + 1] == s[i + k + 1];
        assert f[p[k]] in Targets(g, p[k]);
      }
    }
    assert Cycle(g, p);
  }
}
