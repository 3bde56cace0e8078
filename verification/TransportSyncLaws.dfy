/** Laws of the sync: when it is possible, when it converges, first syncs, and where it does not converge. */
module TransportSyncLaws {
  import opened TransportSync
  import Text
  import opened Wrappers

  /******* What a whole plan does to one path *******/

  ghost predicate Touched(ops: seq<Op>, n: nat, p: Path)
    requires n <= |ops|
  {
    Push(p) in ops[..n] || Delete(p) in ops[..n]
  }

  // Two trees agree at `p`.
  ghost predicate Agree(a: Tree, b: Tree, p: Path)
  {
    (p in a <==> p in b) && (p in a ==> a[p] == b[p])
  }

  lemma {:induction false} OpsOf(plan: Plan)
    ensures forall p :: Push(p) in Ops(plan) <==> p in plan.toPush
    ensures forall p :: Delete(p) in Ops(plan) <==> p in plan.toDelete
  {
    var ops, k := Ops(plan), |plan.toPush|;
    forall p ensures Push(p) in ops <==> p in plan.toPush {
      if p in plan.toPush {
        var i :| 0 <= i < k && plan.toPush[i] == p;
        assert ops[i] == Push(p);
      }
    }
    forall p ensures Delete(p) in ops <==> p in plan.toDelete {
      if p in plan.toDelete {
        var i :| 0 <= i < |plan.toDelete| && plan.toDelete[i] == p;
        assert ops[k + i] == Delete(p);
      }
    }
  }

  // A path that the operations leave alone stays as it is.
  lemma {:induction false} Untouched(tree: Tree, head: Commit, ops: seq<Op>, n: nat, p: Path)
    requires n <= |ops| && Pushable(head, ops, n) && !Touched(ops, n, p)
    ensures Agree(TreeAfter(tree, head, ops, n), tree, p)
  {
    if n > 0 {
      assert ops[..n] == ops[..n - 1] + [ops[n - 1]];
      Untouched(tree, head, ops, n - 1, p);
    }
  }

  // The operations never delete a path and then push it.
  ghost predicate PushesFirst(ops: seq<Op>)
  {
    forall i, j :: 0 <= i < j < |ops| && ops[i].Delete? ==> ops[j].Delete?
  }

  lemma {:induction false} PlanPushesFirst(plan: Plan)
    ensures PushesFirst(Ops(plan))
  {
  }

  // After the operations a deleted path is gone, and any other pushed path has
  // its content in the commit.
  lemma {:induction false} TouchedEffect(tree: Tree, head: Commit, ops: seq<Op>, n: nat, p: Path)
    requires n <= |ops| && Pushable(head, ops, n) && PushesFirst(ops) && Touched(ops, n, p)
    ensures var after := TreeAfter(tree, head, ops, n);
      if Delete(p) in ops[..n] then p !in after else p in Visible(head) && p in after && after[p] == Visible(head)[p]
  {
    assert ops[..n] == ops[..n - 1] + [ops[n - 1]];
    if ops[n - 1].path != p {
      TouchedEffect(tree, head, ops, n - 1, p);
    } else if ops[n - 1].Push? {
      assert Delete(p) !in ops[..n];
    }
  }

  // What a tree has at a path.
  ghost function At(tree: Tree, p: Path): Option<Bytes>
  {
    if p in tree then Some(tree[p]) else None
  }

  // What the first `n` operations leave at a path where `was` was.
  ghost function EffectAt(head: Commit, ops: seq<Op>, n: nat, was: Option<Bytes>, p: Path): Option<Bytes>
    requires n <= |ops|
  {
    if Delete(p) in ops[..n] then None
    else if Push(p) in ops[..n] then At(Visible(head), p)
    else was
  }

  lemma {:induction false} OpsLeave(tree: Tree, head: Commit, ops: seq<Op>, n: nat, p: Path)
    requires n <= |ops| && Pushable(head, ops, n) && PushesFirst(ops)
    ensures At(TreeAfter(tree, head, ops, n), p) == EffectAt(head, ops, n, At(tree, p), p)
  {
    if Touched(ops, n, p) {
      TouchedEffect(tree, head, ops, n, p);
    } else {
      Untouched(tree, head, ops, n, p);
    }
  }

  // Trees that have the same everywhere are the same.
  lemma {:induction false} SameTrees(a: Tree, b: Tree)
    requires forall p :: At(a, p) == At(b, p)
    ensures a == b
  {
    forall p ensures p in a <==> p in b {
      assert At(a, p) == At(b, p);
    }
    forall p | p in a ensures a[p] == b[p] {
      assert At(a, p) == At(b, p);
    }
  }

  /******* Convergence *******/

  ghost predicate AllPlain(commit: Commit)
  {
    forall p :: p in commit ==> Plain(p)
  }

  lemma {:induction false} KeptPlain(paths: seq<Path>, gitlinks: set<Path>)
    requires forall p :: p in paths ==> Plain(p)
    ensures forall p :: p in Kept(paths, gitlinks) <==> p in paths && p !in gitlinks
  {
    if paths != [] {
      var first, rest := paths[0], paths[1..];
      assert Plain(first) && Text.Strip(first) == first;
      assert forall p :: p in paths <==> p == first || p in rest;
      KeptPlain(rest, gitlinks);
    }
  }

  lemma {:induction false} PathsPlain(base: Commit, head: Commit, c: Change)
    requires AllPlain(base) && AllPlain(head) && True(base, head, c)
    ensures forall p :: p in Pushes(c) + Deletes(c) ==> Plain(p)
  {
  }

  ghost predicate PushedBy(diff: seq<Change>, n: nat, p: Path)
    requires n <= |diff|
  {
    exists i :: 0 <= i < n && p in Pushes(diff[i])
  }

  ghost predicate DeletedBy(diff: seq<Change>, n: nat, p: Path)
    requires n <= |diff|
  {
    exists i :: 0 <= i < n && p in Deletes(diff[i])
  }

  ghost predicate TrueDiff(base: Commit, head: Commit, diff: seq<Change>)
  {
    forall i :: 0 <= i < |diff| ==> True(base, head, diff[i])
  }

  // Of a diff line, only gitlinks are left out.
  ghost predicate KeepsPlain(c: Change, gitlinks: set<Path>, p: Path)
  {
    && (p in Kept(Pushes(c), gitlinks) <==> p in Pushes(c) && p !in gitlinks)
    && (p in Kept(Deletes(c), gitlinks) <==> p in Deletes(c) && p !in gitlinks)
  }

  lemma {:induction false} AllKeepPlain(base: Commit, head: Commit, gitlinks: set<Path>, diff: seq<Change>, p: Path)
    requires AllPlain(base) && AllPlain(head) && TrueDiff(base, head, diff)
    ensures forall i :: 0 <= i < |diff| ==> KeepsPlain(diff[i], gitlinks, p)
  {
    forall i | 0 <= i < |diff| ensures KeepsPlain(diff[i], gitlinks, p) {
      PathsPlain(base, head, diff[i]);
      KeptPlain(Pushes(diff[i]), gitlinks);
      KeptPlain(Deletes(diff[i]), gitlinks);
    }
  }

  // Which line it is that pushes, or deletes, a path.
  lemma {:induction false} PushingLine(diff: seq<Change>, gitlinks: set<Path>, n: nat, p: Path) returns (i: nat)
    requires n <= |diff| && p in PushAll(diff, gitlinks, n)
    ensures i < n && p in Kept(Pushes(diff[i]), gitlinks)
  {
    i := n - 1;
    if p !in Kept(Pushes(diff[i]), gitlinks) {
      i := PushingLine(diff, gitlinks, n - 1, p);
    }
  }

  lemma {:induction false} LinePushes(diff: seq<Change>, gitlinks: set<Path>, n: nat, i: nat, p: Path)
    requires i < n <= |diff| && p in Kept(Pushes(diff[i]), gitlinks)
    ensures p in PushAll(diff, gitlinks, n)
  {
    if i < n - 1 {
      LinePushes(diff, gitlinks, n - 1, i, p);
    }
  }

  lemma {:induction false} DeletingLine(diff: seq<Change>, gitlinks: set<Path>, n: nat, p: Path) returns (i: nat)
    requires n <= |diff| && p in DeleteAll(diff, gitlinks, n)
    ensures i < n && p in Kept(Deletes(diff[i]), gitlinks)
  {
    i := n - 1;
    if p !in Kept(Deletes(diff[i]), gitlinks) {
      i := DeletingLine(diff, gitlinks, n - 1, p);
    }
  }

  lemma {:induction false} LineDeletes(diff: seq<Change>, gitlinks: set<Path>, n: nat, i: nat, p: Path)
    requires i < n <= |diff| && p in Kept(Deletes(diff[i]), gitlinks)
    ensures p in DeleteAll(diff, gitlinks, n)
  {
    if i < n - 1 {
      LineDeletes(diff, gitlinks, n - 1, i, p);
    }
  }

  lemma {:induction false} Planned(diff: seq<Change>, gitlinks: set<Path>, p: Path)
    requires forall i :: 0 <= i < |diff| ==> KeepsPlain(diff[i], gitlinks, p)
    ensures p in PushAll(diff, gitlinks, |diff|) <==> p !in gitlinks && PushedBy(diff, |diff|, p)
    ensures p in DeleteAll(diff, gitlinks, |diff|) <==> p !in gitlinks && DeletedBy(diff, |diff|, p)
  {
    if p in PushAll(diff, gitlinks, |diff|) {
      var i := PushingLine(diff, gitlinks, |diff|, p);
      assert KeepsPlain(diff[i], gitlinks, p);
    }
    if p !in gitlinks && PushedBy(diff, |diff|, p) {
      var i :| 0 <= i < |diff| && p in Pushes(diff[i]);
      assert KeepsPlain(diff[i], gitlinks, p);
      LinePushes(diff, gitlinks, |diff|, i, p);
    }
    if p in DeleteAll(diff, gitlinks, |diff|) {
      var i := DeletingLine(diff, gitlinks, |diff|, p);
      assert KeepsPlain(diff[i], gitlinks, p);
    }
    if p !in gitlinks && DeletedBy(diff, |diff|, p) {
      var i :| 0 <= i < |diff| && p in Deletes(diff[i]);
      assert KeepsPlain(diff[i], gitlinks, p);
      LineDeletes(diff, gitlinks, |diff|, i, p);
    }
  }

  lemma {:induction false} PlannedOps(base: Commit, head: Commit, gitlinks: set<Path>, diff: seq<Change>, p: Path)
    requires AllPlain(base) && AllPlain(head) && TrueDiff(base, head, diff)
    ensures Push(p) in Ops(PlanOf(gitlinks, diff)) <==> p !in gitlinks && PushedBy(diff, |diff|, p)
    ensures Delete(p) in Ops(PlanOf(gitlinks, diff)) <==> p !in gitlinks && DeletedBy(diff, |diff|, p)
  {
    AllKeepPlain(base, head, gitlinks, diff, p);
    Planned(diff, gitlinks, p);
    OpsOf(PlanOf(gitlinks, diff));
  }

  // A line of the diff that has the path pushed, and one that has it deleted.
  ghost predicate AsksToPush(c: Change, p: Path)
  {
    || c == Added(p) || c == Modified(p)
    || (c.Renamed? && c.to == p)
    || (c.Copied? && c.from == p)
  }

  ghost predicate AsksToDelete(c: Change, p: Path)
  {
    c == Deleted(p) || (c.Renamed? && c.from == p)
  }

  /**
   * A plan pushes what was added, changed or renamed to, and the source of a copy, and
   * deletes what was deleted or renamed from, but for the gitlinks of the index.
   */
  lemma {:induction false} PlanExactly(base: Commit, head: Commit, gitlinks: set<Path>, diff: seq<Change>, p: Path)
    requires AllPlain(base) && AllPlain(head) && DiffOf(base, head, diff)
    ensures p in PlanOf(gitlinks, diff).toPush <==> p !in gitlinks && exists c :: c in diff && AsksToPush(c, p)
    ensures p in PlanOf(gitlinks, diff).toDelete <==> p !in gitlinks && exists c :: c in diff && AsksToDelete(c, p)
  {
    DiffIsTrue(base, head, diff);
    AllKeepPlain(base, head, gitlinks, diff, p);
    Planned(diff, gitlinks, p);
    AsksInDiff(diff, p);
  }

  lemma {:induction false} AsksInDiff(diff: seq<Change>, p: Path)
    ensures PushedBy(diff, |diff|, p) <==> exists c :: c in diff && AsksToPush(c, p)
    ensures DeletedBy(diff, |diff|, p) <==> exists c :: c in diff && AsksToDelete(c, p)
  {
    if PushedBy(diff, |diff|, p) {
      var i :| 0 <= i < |diff| && p in Pushes(diff[i]);
      assert diff[i] in diff && AsksToPush(diff[i], p);
    }
    if c :| c in diff && AsksToPush(c, p) {
      var i :| 0 <= i < |diff| && diff[i] == c;
      assert p in Pushes(diff[i]);
    }
    if DeletedBy(diff, |diff|, p) {
      var i :| 0 <= i < |diff| && p in Deletes(diff[i]);
      assert diff[i] in diff && AsksToDelete(diff[i], p);
    }
    if c :| c in diff && AsksToDelete(c, p) {
      var i :| 0 <= i < |diff| && diff[i] == c;
      assert p in Deletes(diff[i]);
    }
  }

  /** A file is missed exactly if it is new and every line about it is a copy to it. */
  lemma {:induction false} MissedExactly(base: Commit, head: Commit, diff: seq<Change>, p: Path)
    requires DiffOf(base, head, diff)
    ensures MissedCopy(base, head, diff, p) <==>
            && p !in base && p in Visible(head)
            && (exists c :: c in diff && c.Copied? && c.to == p)
            && (forall c :: c in diff && Accounts(c, p) ==> c.Copied? && c.to == p)
  {
    AsksInDiff(diff, p);
    if p !in base && p in Visible(head) {
      assert Differs(base, head, p);
      forall c | c in diff ensures AsksToPush(c, p) <==> Accounts(c, p) && !(c.Copied? && c.to == p) {
        assert True(base, head, c);
      }
    }
  }

  lemma {:induction false} DiffIsTrue(base: Commit, head: Commit, diff: seq<Change>)
    requires DiffOf(base, head, diff)
    ensures TrueDiff(base, head, diff)
  {
    forall i | 0 <= i < |diff| ensures True(base, head, diff[i]) {
      assert diff[i] in diff;
    }
  }

  // The remote has the visible files of `commit`, as far as tracked paths go.
  ghost predicate Holds(tree: Tree, commit: Commit, tracked: set<Path>)
  {
    forall p :: p in tracked ==> Agree(tree, Visible(commit), p)
  }

  // A path that the diff would change, but the index has a gitlink there.
  ghost predicate Skipped(base: Commit, head: Commit, gitlinks: set<Path>, p: Path)
  {
    p in gitlinks && !Agree(Visible(base), Visible(head), p)
  }

  // A new file that the diff only mentions as the target of a copy.
  ghost predicate MissedCopy(base: Commit, head: Commit, diff: seq<Change>, p: Path)
  {
    p !in base && p in Visible(head) && !PushedBy(diff, |diff|, p)
  }

  // Where the diff deletes, HEAD has nothing; where it pushes, HEAD has an entry
  // unless a copy's source is gone.
  lemma {:induction false} DeletedAreGone(base: Commit, head: Commit, diff: seq<Change>, p: Path)
    requires TrueDiff(base, head, diff)
    ensures DeletedBy(diff, |diff|, p) ==> p in base && p !in head
    ensures PushedBy(diff, |diff|, p) ==> p in base || p in head
  {
    if DeletedBy(diff, |diff|, p) {
      var i :| 0 <= i < |diff| && p in Deletes(diff[i]);
      assert True(base, head, diff[i]);
    }
    if PushedBy(diff, |diff|, p) {
      var i :| 0 <= i < |diff| && p in Pushes(diff[i]);
      assert True(base, head, diff[i]);
    }
  }

  // A difference that is no copy's target is pushed or deleted.
  lemma {:induction false} DifferenceIsPlanned(base: Commit, head: Commit, diff: seq<Change>, p: Path)
    requires TrueDiff(base, head, diff) && DiffOf(base, head, diff) && Differs(base, head, p)
    ensures p in base ==> PushedBy(diff, |diff|, p) || DeletedBy(diff, |diff|, p)
  {
    var c :| c in diff && Accounts(c, p);
    var i :| 0 <= i < |diff| && diff[i] == c;
    assert True(base, head, diff[i]);
  }

  // The plan touches only paths that are then right.
  lemma {:induction false} TouchedIsRight(base: Commit, head: Commit, gitlinks: set<Path>, diff: seq<Change>,
                                          tree: Tree, n: nat, p: Path)
    requires AllPlain(base) && AllPlain(head) && TrueDiff(base, head, diff)
    requires n <= |Ops(PlanOf(gitlinks, diff))| && Pushable(head, Ops(PlanOf(gitlinks, diff)), n)
    requires Touched(Ops(PlanOf(gitlinks, diff)), n, p)
    ensures Agree(TreeAfter(tree, head, Ops(PlanOf(gitlinks, diff)), n), Visible(head), p)
  {
    var ops := Ops(PlanOf(gitlinks, diff));
    PlanPushesFirst(PlanOf(gitlinks, diff));
    TouchedEffect(tree, head, ops, n, p);
    if Delete(p) in ops[..n] {
      assert Delete(p) in ops;
      PlannedOps(base, head, gitlinks, diff, p);
      DeletedAreGone(base, head, diff, p);
    }
  }

  // Where the plan leaves a path alone, base and HEAD agree unless it was missed.
  lemma {:induction false} UntouchedAgrees(base: Commit, head: Commit, gitlinks: set<Path>, diff: seq<Change>, p: Path)
    requires AllPlain(base) && AllPlain(head) && DiffOf(base, head, diff)
    ensures var ops := Ops(PlanOf(gitlinks, diff)); !Touched(ops, |ops|, p) ==>
      (Agree(Visible(base), Visible(head), p) <==>
          !Skipped(base, head, gitlinks, p) && !MissedCopy(base, head, diff, p))
    ensures Touched(Ops(PlanOf(gitlinks, diff)), |Ops(PlanOf(gitlinks, diff))|, p) ==>
      !Skipped(base, head, gitlinks, p) && !MissedCopy(base, head, diff, p)
  {
    DiffIsTrue(base, head, diff);
    PlannedOps(base, head, gitlinks, diff, p);
    DeletedAreGone(base, head, diff, p);
    if Differs(base, head, p) {
      DifferenceIsPlanned(base, head, diff, p);
    }
  }

  // One path after a whole plan.
  lemma {:induction false} PathConverges(base: Commit, head: Commit, gitlinks: set<Path>, diff: seq<Change>,
                                         tree: Tree, p: Path)
    requires AllPlain(base) && AllPlain(head) && DiffOf(base, head, diff)
    requires Possible(head, PlanOf(gitlinks, diff))
    requires Agree(tree, Visible(base), p)
    ensures Agree(Synced(tree, head, PlanOf(gitlinks, diff)), Visible(head), p) <==>
            !Skipped(base, head, gitlinks, p) && !MissedCopy(base, head, diff, p)
  {
    var ops := Ops(PlanOf(gitlinks, diff));
    DiffIsTrue(base, head, diff);
    UntouchedAgrees(base, head, gitlinks, diff, p);
    if Touched(ops, |ops|, p) {
      TouchedIsRight(base, head, gitlinks, diff, tree, |ops|, p);
    } else {
      Untouched(tree, head, ops, |ops|, p);
    }
  }

  /**
   * From a remote that holds the base commit's visible files, a whole sync gives
   * exactly HEAD's visible files on every tracked path if and only if the diff
   * changes nothing where the index has a gitlink, and mentions no new file as a
   * copy only.  Untracked paths are left alone.
   */
  lemma {:induction false} SyncConverges(base: Commit, head: Commit, gitlinks: set<Path>, diff: seq<Change>, tree: Tree)
    requires AllPlain(base) && AllPlain(head) && DiffOf(base, head, diff)
    requires Possible(head, PlanOf(gitlinks, diff))
    requires Holds(tree, base, base.Keys + head.Keys)
    ensures var after := Synced(tree, head, PlanOf(gitlinks, diff));
      && (Holds(after, head, base.Keys + head.Keys) <==>
            forall p :: p in base.Keys + head.Keys ==>
              !Skipped(base, head, gitlinks, p) && !MissedCopy(base, head, diff, p))
      && forall p :: p !in base && p !in head ==> Agree(after, tree, p)
  {
    DiffIsTrue(base, head, diff);
    var ops := Ops(PlanOf(gitlinks, diff));
    var after := TreeAfter(tree, head, ops, |ops|);
    forall p | p in base.Keys + head.Keys
      ensures Agree(after, Visible(head), p) <==> !Skipped(base, head, gitlinks, p) && !MissedCopy(base, head, diff, p)
    {
      PathConverges(base, head, gitlinks, diff, tree, p);
    }
    forall p | p !in base && p !in head ensures Agree(after, tree, p) {
      PlannedOps(base, head, gitlinks, diff, p);
      DeletedAreGone(base, head, diff, p);
      Untouched(tree, head, ops, |ops|, p);
    }
  }

  // A regular file that is a gitlink in HEAD.
  ghost predicate BecameGitlink(base: Commit, head: Commit, p: Path)
  {
    p in base && base[p].File? && p in head && head[p].Gitlink?
  }

  lemma {:induction false} SkippedAtHead(base: Commit, head: Commit, p: Path)
    ensures Skipped(base, head, Gitlinks(head), p) <==> BecameGitlink(base, head, p)
  {
    assert p in Gitlinks(head) ==> p !in Visible(head);
  }

  /**
   * If the index is as HEAD is, a sync gives exactly HEAD's visible files if and only
   * if no regular file became a gitlink and no file is new by copy only.
   */
  lemma {:induction false} SyncConvergesAtHead(base: Commit, head: Commit, diff: seq<Change>, tree: Tree)
    requires AllPlain(base) && AllPlain(head) && DiffOf(base, head, diff)
    requires Possible(head, PlanOf(Gitlinks(head), diff))
    requires Holds(tree, base, base.Keys + head.Keys)
    ensures Holds(Synced(tree, head, PlanOf(Gitlinks(head), diff)), head, base.Keys + head.Keys) <==>
            forall p :: !BecameGitlink(base, head, p) && !MissedCopy(base, head, diff, p)
  {
    SyncConverges(base, head, Gitlinks(head), diff, tree);
    forall p ensures Skipped(base, head, Gitlinks(head), p) <==> BecameGitlink(base, head, p) {
      SkippedAtHead(base, head, p);
    }
    forall p | BecameGitlink(base, head, p) || MissedCopy(base, head, diff, p) ensures p in base.Keys + head.Keys {
    }
  }

  // What the plan pushes is in HEAD, unless it is the source of a copy and gone.
  lemma {:induction false} OnlySourcesAreGone(base: Commit, head: Commit, gitlinks: set<Path>, diff: seq<Change>,
                                              p: Path)
    requires TrueDiff(base, head, diff) && PushedBy(diff, |diff|, p) && p !in gitlinks
    requires forall i :: 0 <= i < |diff| && diff[i].Copied? ==> diff[i].from in gitlinks || diff[i].from in head
    ensures p in head
  {
    var i :| 0 <= i < |diff| && p in Pushes(diff[i]);
    assert True(base, head, diff[i]);
  }

  // Every source of a copy, and every gitlink of HEAD that the diff pushes, is
  // there or left out because the index has a gitlink there.
  ghost predicate SourcesThere(head: Commit, gitlinks: set<Path>, diff: seq<Change>)
  {
    && (forall i :: 0 <= i < |diff| && diff[i].Copied? ==> diff[i].from in gitlinks || diff[i].from in head)
    && (forall p :: PushedBy(diff, |diff|, p) && p in Gitlinks(head) ==> p in gitlinks)
  }

  lemma {:induction false} PossibleHasSources(base: Commit, head: Commit, gitlinks: set<Path>, diff: seq<Change>,
                                              p: Path)
    requires AllPlain(base) && AllPlain(head) && TrueDiff(base, head, diff)
    requires Possible(head, PlanOf(gitlinks, diff)) && PushedBy(diff, |diff|, p) && p !in gitlinks
    ensures p in Visible(head)
  {
    var ops := Ops(PlanOf(gitlinks, diff));
    PlannedOps(base, head, gitlinks, diff, p);
    var k :| 0 <= k < |ops| && ops[k] == Push(p);
  }

  /**
   * Every file of the plan exists in HEAD exactly if no copy's source is gone and
   * the index has every gitlink of HEAD that the diff mentions; a sync of any other
   * diff fails, and fails again on every retry.
   */
  lemma {:induction false} PushableExactly(base: Commit, head: Commit, gitlinks: set<Path>, diff: seq<Change>)
    requires AllPlain(base) && AllPlain(head) && DiffOf(base, head, diff)
    ensures Possible(head, PlanOf(gitlinks, diff)) <==> SourcesThere(head, gitlinks, diff)
  {
    DiffIsTrue(base, head, diff);
    var ops := Ops(PlanOf(gitlinks, diff));
    if Possible(head, PlanOf(gitlinks, diff)) {
      forall i | 0 <= i < |diff| && diff[i].Copied? && diff[i].from !in gitlinks ensures diff[i].from in head {
        assert diff[i].from in Pushes(diff[i]) && PushedBy(diff, |diff|, diff[i].from);
        PossibleHasSources(base, head, gitlinks, diff, diff[i].from);
      }
      forall p | PushedBy(diff, |diff|, p) && p !in gitlinks ensures p !in Gitlinks(head) {
        PossibleHasSources(base, head, gitlinks, diff, p);
      }
    }
    if SourcesThere(head, gitlinks, diff) {
      forall k | 0 <= k < |ops| && ops[k].Push? ensures ops[k].path in Visible(head) {
        assert Push(ops[k].path) in ops;
        PlannedOps(base, head, gitlinks, diff, ops[k].path);
        OnlySourcesAreGone(base, head, gitlinks, diff, ops[k].path);
      }
    }
  }

  /******* First syncs *******/

  lemma {:induction false} PlainIsNonBlank(files: seq<Path>)
    requires forall p :: p in files ==> Plain(p)
    ensures NonBlank(files) == files
  {
    if files != [] {
      assert Plain(files[0]) && forall p :: p in files[1..] ==> p in files;
      PlainIsNonBlank(files[1..]);
    }
  }

  lemma {:induction false} FirstOps(gitlinks: set<Path>, files: seq<Path>)
    requires forall p :: p in files ==> Plain(p)
    ensures var ops := Ops(FirstPlan(gitlinks, files));
      && (forall p :: Push(p) in ops <==> p in files && p !in gitlinks)
      && (forall p :: Delete(p) !in ops)
  {
    PlainIsNonBlank(files);
    KeptPlain(files, gitlinks);
    OpsOf(FirstPlan(gitlinks, files));
  }

  /**
   * A first sync can succeed exactly if every file that the index lists, but for its
   * gitlinks, is a file of HEAD.
   */
  lemma {:induction false} FirstSyncPossibleExactly(head: Commit, gitlinks: set<Path>, files: seq<Path>)
    requires forall p :: p in files ==> Plain(p)
    ensures Possible(head, FirstPlan(gitlinks, files)) <==>
      forall p :: p in files && p !in gitlinks ==> p in Visible(head)
  {
    var ops := Ops(FirstPlan(gitlinks, files));
    FirstOps(gitlinks, files);
    if Possible(head, FirstPlan(gitlinks, files)) {
      forall p | p in files && p !in gitlinks ensures p in Visible(head) {
        assert Push(p) in ops;
        var k :| 0 <= k < |ops| && ops[k] == Push(p);
      }
    }
    if forall p :: p in files && p !in gitlinks ==> p in Visible(head) {
      forall k | 0 <= k < |ops| && ops[k].Push? ensures ops[k].path in Visible(head) {
        assert Push(ops[k].path) in ops;
      }
    }
  }

  /**
   * A first sync, from whatever is there, installs what the index lists, but for its
   * gitlinks, as HEAD has it, and touches nothing else.
   */
  lemma {:induction false} FirstSyncInstalls(head: Commit, gitlinks: set<Path>, files: seq<Path>, tree: Tree)
    requires (forall p :: p in files ==> Plain(p)) && Possible(head, FirstPlan(gitlinks, files))
    ensures forall p ::
      Agree(Synced(tree, head, FirstPlan(gitlinks, files)),
            if p in files && p !in gitlinks then Visible(head) else tree, p)
  {
    var ops := Ops(FirstPlan(gitlinks, files));
    FirstOps(gitlinks, files);
    PlanPushesFirst(FirstPlan(gitlinks, files));
    forall p
      ensures Agree(TreeAfter(tree, head, ops, |ops|), if p in files && p !in gitlinks then Visible(head) else tree, p)
    {
      assert ops[..|ops|] == ops;
      if Touched(ops, |ops|, p) {
        TouchedEffect(tree, head, ops, |ops|, p);
      } else {
        Untouched(tree, head, ops, |ops|, p);
      }
    }
  }

  // Every file of HEAD is on the remote.
  ghost predicate Installed(tree: Tree, head: Commit)
  {
    forall p :: p in Visible(head) ==> Agree(tree, Visible(head), p)
  }

  /**
   * A first sync that succeeds installs all of HEAD's files, whatever was there,
   * exactly if the index lists each of them and as no gitlink.
   */
  lemma {:induction false} FirstSyncCompleteExactly(head: Commit, gitlinks: set<Path>, files: seq<Path>)
    requires (forall p :: p in files ==> Plain(p)) && Possible(head, FirstPlan(gitlinks, files))
    ensures (forall tree :: Installed(Synced(tree, head, FirstPlan(gitlinks, files)), head)) <==>
      forall p :: p in Visible(head) ==> p in files && p !in gitlinks
  {
    var plan := FirstPlan(gitlinks, files);
    if forall p :: p in Visible(head) ==> p in files && p !in gitlinks {
      forall tree ensures Installed(Synced(tree, head, plan), head) {
        FirstSyncInstalls(head, gitlinks, files, tree);
      }
    } else {
      var p :| p in Visible(head) && !(p in files && p !in gitlinks);
      FirstSyncInstalls(head, gitlinks, files, map[]);
      assert Agree(Synced(map[], head, plan), map[], p);
    }
  }

  /** So it does if the index is as HEAD is. */
  lemma {:induction false} FirstSyncAtHead(head: Commit, files: seq<Path>, tree: Tree)
    requires AllPlain(head) && forall p :: p in files <==> p in head
    ensures Possible(head, FirstPlan(Gitlinks(head), files))
    ensures Installed(Synced(tree, head, FirstPlan(Gitlinks(head), files)), head)
  {
    FirstSyncPossibleExactly(head, Gitlinks(head), files);
    FirstSyncCompleteExactly(head, Gitlinks(head), files);
  }

  /**
   * With the removal of a file staged and not committed, the first sync does not
   * install the file although HEAD has it.  The sync has nothing to do and succeeds,
   * so the pointer becomes HEAD.
   */
  lemma {:induction false} StagedRemovalIsSkipped(content: Bytes) returns (head: Commit)
    ensures AllPlain(head) && Visible(head) == map["f" := content]
    ensures FirstPlan({}, []) == Plan([], []) && Possible(head, FirstPlan({}, []))
    ensures !Installed(Synced(map[], head, FirstPlan({}, [])), head)
  {
    head := map["f" := File(content)];
    StripF();
    assert Visible(head) == map["f" := content];
    assert Synced(map[], head, FirstPlan({}, [])) == map[];
    assert "f" in Visible(head);
  }

  /** With a new file staged and not committed, every first sync fails. */
  lemma {:induction false} StagedFileFails() returns (head: Commit, files: seq<Path>)
    ensures (forall p :: p in files ==> Plain(p)) && !Possible(head, FirstPlan({}, files))
  {
    head, files := map[], ["f"];
    StripF();
    FirstSyncPossibleExactly(head, {}, files);
    assert "f" in files;
  }

  /**
   * A file that is missing on the remote stays missing until a diff pushes it: no
   * sync to any later HEAD brings it back by itself.
   */
  lemma {:induction false} MissingStaysMissing(base: Commit, head: Commit, gitlinks: set<Path>, diff: seq<Change>,
                                               tree: Tree, p: Path)
    requires AllPlain(base) && AllPlain(head) && DiffOf(base, head, diff) && Possible(head, PlanOf(gitlinks, diff))
    requires p !in tree
    ensures p in Synced(tree, head, PlanOf(gitlinks, diff)) <==> p !in gitlinks && PushedBy(diff, |diff|, p)
  {
    var ops := Ops(PlanOf(gitlinks, diff));
    DiffIsTrue(base, head, diff);
    PlannedOps(base, head, gitlinks, diff, p);
    DeletedAreGone(base, head, diff, p);
    assert ops[..|ops|] == ops;
    if Touched(ops, |ops|, p) {
      TouchedIsRight(base, head, gitlinks, diff, tree, |ops|, p);
      if Push(p) in ops {
        var k :| 0 <= k < |ops| && ops[k] == Push(p);
      }
    } else {
      Untouched(tree, head, ops, |ops|, p);
    }
  }

  /******* Where it does not converge *******/

  /**
   * A regular file that becomes a gitlink stays on the remote: the plan is empty.
   */
  lemma {:induction false} GitlinkLeavesTheFile(content: Bytes, sha: Sha) returns (base: Commit, head: Commit)
    ensures DiffOf(base, head, [Modified("f")]) && PlanOf(Gitlinks(head), [Modified("f")]) == Plan([], [])
    ensures "f" in Visible(base) && "f" !in Visible(head)
  {
    base, head := map["f" := File(content)], map["f" := Gitlink(sha)];
    var diff := [Modified("f")];
    StripF();
    assert "f" in Gitlinks(head);
    assert Kept(["f"], Gitlinks(head)) == [];
    assert PushAll(diff, Gitlinks(head), 0) == [] && PushAll(diff, Gitlinks(head), 1) == [];
    assert DeleteAll(diff, Gitlinks(head), 0) == [] && DeleteAll(diff, Gitlinks(head), 1) == [];
    forall p | Differs(base, head, p) ensures exists c :: c in diff && Accounts(c, p) {
      assert Modified("f") in diff && Accounts(Modified("f"), p);
    }
  }

  /**
   * A new file that is listed as a copy is not pushed: its source is pushed again.
   */
  lemma {:induction false} CopyIsNotPushed(content: Bytes) returns (base: Commit, head: Commit, copy: Path)
    ensures DiffOf(base, head, [Copied("f", copy)]) && PlanOf(Gitlinks(head), [Copied("f", copy)]) == Plan(["f"], [])
    ensures copy != "f" && copy !in Visible(base) && copy in Visible(head)
  {
    copy := "g";
    base, head := map["f" := File(content)], map["f" := File(content), copy := File(content)];
    var diff := [Copied("f", copy)];
    StripF();
    assert Kept(["f"], Gitlinks(head)) == ["f"];
    assert PushAll(diff, Gitlinks(head), 0) == [] && PushAll(diff, Gitlinks(head), 1) == ["f"];
    assert DeleteAll(diff, Gitlinks(head), 0) == [] && DeleteAll(diff, Gitlinks(head), 1) == [];
    forall p | Differs(base, head, p) ensures exists c :: c in diff && Accounts(c, p) {
      assert Copied("f", copy) in diff && Accounts(Copied("f", copy), p);
    }
  }

  lemma {:induction false} StripF()
    ensures Text.Strip("f") == "f" && Plain("f")
  {
    assert Parts("f") == ["f"] by {
      assert PartsFrom("f", []) == PartsFrom("f"[1..], [] + ['f']);
      assert [] + ['f'] == "f" && "f"[1..] == [];
    }
    assert ".." !in ["f"];
    assert !Text.IsSpace('f');
  }
}
