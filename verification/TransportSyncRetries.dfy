/**
 Syncs that fail, and syncs during which HEAD moves: what they leave behind, and when
 the next sync sets it right.
 */
module TransportSyncRetries {
  import opened TransportSync
  import opened TransportSyncLaws
  import opened Wrappers

  /******* Failed attempts *******/

  // A sync that fails: whose bytes it pushes, its plan, and where it breaks off.  The
  // index, and HEAD itself, may be another at each attempt.
  datatype Attempt = Attempt(commit: Commit, plan: Plan, cut: Cut)

  ghost predicate Breaks(a: Attempt)
  {
    CutOf(a.commit, Ops(a.plan), a.cut)
  }

  ghost predicate AllBreak(attempts: seq<Attempt>)
  {
    forall i :: 0 <= i < |attempts| ==> Breaks(attempts[i])
  }

  // The tree after several failed attempts.
  ghost function AfterAttempts(tree: Tree, attempts: seq<Attempt>, n: nat): Tree
    requires n <= |attempts| && AllBreak(attempts)
  {
    if n == 0 then tree
    else
      var a := attempts[n - 1];
      Broken(AfterAttempts(tree, attempts, n - 1), a.commit, Ops(a.plan), a.cut)
  }

  // What one attempt leaves at a path where `was` was.
  ghost function LeftAt(a: Attempt, was: Option<Bytes>, p: Path): Option<Bytes>
    requires Breaks(a)
  {
    if TornAt(Ops(a.plan), a.cut, p) then a.cut.torn else EffectAt(a.commit, Ops(a.plan), a.cut.done, was, p)
  }

  ghost function LeftBy(attempts: seq<Attempt>, n: nat, was: Option<Bytes>, p: Path): Option<Bytes>
    requires n <= |attempts| && AllBreak(attempts)
  {
    if n == 0 then was else LeftAt(attempts[n - 1], LeftBy(attempts, n - 1, was, p), p)
  }

  lemma {:induction false} AttemptLeaves(tree: Tree, a: Attempt, p: Path)
    requires Breaks(a)
    ensures At(Broken(tree, a.commit, Ops(a.plan), a.cut), p) == LeftAt(a, At(tree, p), p)
  {
    PlanPushesFirst(a.plan);
    OpsLeave(tree, a.commit, Ops(a.plan), a.cut.done, p);
  }

  lemma {:induction false} AttemptsLeave(tree: Tree, attempts: seq<Attempt>, n: nat, p: Path)
    requires n <= |attempts| && AllBreak(attempts)
    ensures At(AfterAttempts(tree, attempts, n), p) == LeftBy(attempts, n, At(tree, p), p)
  {
    if n > 0 {
      AttemptsLeave(tree, attempts, n - 1, p);
      AttemptLeaves(AfterAttempts(tree, attempts, n - 1), attempts[n - 1], p);
    }
  }

  // What a whole sync leaves.
  lemma {:induction false} SyncLeaves(tree: Tree, head: Commit, plan: Plan, p: Path)
    requires Possible(head, plan)
    ensures At(Synced(tree, head, plan), p) == EffectAt(head, Ops(plan), |Ops(plan)|, At(tree, p), p)
  {
    PlanPushesFirst(plan);
    OpsLeave(tree, head, Ops(plan), |Ops(plan)|, p);
  }

  // The plan rewrites or deletes the path.
  ghost predicate Rewrites(plan: Plan, p: Path)
  {
    Touched(Ops(plan), |Ops(plan)|, p)
  }

  /**
   * After any failed attempts, with whatever plans and HEADs, a sync that succeeds
   * leaves at a path what it would have left without them exactly if its own plan
   * rewrites the path, or the attempts left there what was there before.
   */
  lemma {:induction false} RetriesDifferExactly(tree: Tree, attempts: seq<Attempt>, head: Commit, plan: Plan, p: Path)
    requires AllBreak(attempts) && Possible(head, plan)
    ensures At(Synced(AfterAttempts(tree, attempts, |attempts|), head, plan), p) == At(Synced(tree, head, plan), p) <==>
            Rewrites(plan, p) || LeftBy(attempts, |attempts|, At(tree, p), p) == At(tree, p)
  {
    AttemptsLeave(tree, attempts, |attempts|, p);
    SyncLeaves(AfterAttempts(tree, attempts, |attempts|), head, plan, p);
    SyncLeaves(tree, head, plan, p);
  }

  // An attempt that does not plan to touch a path leaves it.
  lemma {:induction false} OthersLeaveIt(attempts: seq<Attempt>, n: nat, was: Option<Bytes>, p: Path)
    requires n <= |attempts| && AllBreak(attempts)
    requires forall i :: 0 <= i < n ==> !Rewrites(attempts[i].plan, p)
    ensures LeftBy(attempts, n, was, p) == was
  {
    if n > 0 {
      OthersLeaveIt(attempts, n - 1, was, p);
      var ops, cut := Ops(attempts[n - 1].plan), attempts[n - 1].cut;
      assert !Rewrites(attempts[n - 1].plan, p) && ops[..|ops|] == ops;
      assert Push(p) !in ops && Delete(p) !in ops;
    }
  }

  ghost predicate Covers(plan: Plan, other: Plan)
  {
    forall p :: Rewrites(other, p) ==> Rewrites(plan, p)
  }

  /**
   * However many attempts fail, at whatever HEADs and wherever they break off, in the
   * middle of a file included, a sync that succeeds leaves the tree of a single
   * undisturbed sync if its plan rewrites whatever theirs did.  Attempts with one and
   * the same plan are the common case.
   */
  lemma {:induction false} RetriesConverge(tree: Tree, attempts: seq<Attempt>, head: Commit, plan: Plan)
    requires AllBreak(attempts) && Possible(head, plan)
    requires forall i :: 0 <= i < |attempts| ==> Covers(plan, attempts[i].plan)
    ensures Synced(AfterAttempts(tree, attempts, |attempts|), head, plan) == Synced(tree, head, plan)
  {
    var after := Synced(AfterAttempts(tree, attempts, |attempts|), head, plan);
    forall p ensures At(after, p) == At(Synced(tree, head, plan), p) {
      RetriesDifferExactly(tree, attempts, head, plan, p);
      if !Rewrites(plan, p) {
        forall i | 0 <= i < |attempts| ensures !Rewrites(attempts[i].plan, p) {
          assert Covers(plan, attempts[i].plan);
        }
        OthersLeaveIt(attempts, |attempts|, At(tree, p), p);
      }
    }
    SameTrees(after, Synced(tree, head, plan));
  }

  /******* Staging between the attempts *******/

  // Attempts at one HEAD from one pointer, for which the index was read anew each time.
  ghost predicate LaterAttempts(attempts: seq<Attempt>, head: Commit, diff: seq<Change>, indexes: seq<set<Path>>)
  {
    && |indexes| == |attempts|
    && forall i :: 0 <= i < |attempts| ==>
         attempts[i].commit == head && attempts[i].plan == PlanOf(indexes[i], diff)
  }

  lemma {:induction false} PlanRewrites(base: Commit, head: Commit, gitlinks: set<Path>, diff: seq<Change>, p: Path)
    requires AllPlain(base) && AllPlain(head) && TrueDiff(base, head, diff)
    ensures Rewrites(PlanOf(gitlinks, diff), p) <==>
            p !in gitlinks && (PushedBy(diff, |diff|, p) || DeletedBy(diff, |diff|, p))
  {
    var ops := Ops(PlanOf(gitlinks, diff));
    PlannedOps(base, head, gitlinks, diff, p);
    assert ops[..|ops|] == ops;
  }

  /**
   * If only the index changes between attempts at one HEAD, the attempts can matter only
   * where the last index has a gitlink and an earlier one had none.
   */
  lemma {:induction false} StagingBetween(base: Commit, head: Commit, diff: seq<Change>, tree: Tree,
                                          attempts: seq<Attempt>, indexes: seq<set<Path>>, gitlinks: set<Path>, p: Path)
    requires AllPlain(base) && AllPlain(head) && DiffOf(base, head, diff)
    requires AllBreak(attempts) && LaterAttempts(attempts, head, diff, indexes)
    requires Possible(head, PlanOf(gitlinks, diff))
    requires !Agree(Synced(AfterAttempts(tree, attempts, |attempts|), head, PlanOf(gitlinks, diff)),
                    Synced(tree, head, PlanOf(gitlinks, diff)), p)
    ensures p in gitlinks && exists i :: 0 <= i < |indexes| && p !in indexes[i]
  {
    DiffIsTrue(base, head, diff);
    RetriesDifferExactly(tree, attempts, head, PlanOf(gitlinks, diff), p);
    PlanRewrites(base, head, gitlinks, diff, p);
    if forall i :: 0 <= i < |attempts| ==> !Rewrites(attempts[i].plan, p) {
      OthersLeaveIt(attempts, |attempts|, At(tree, p), p);
      assert false;
    }
    var i :| 0 <= i < |attempts| && Rewrites(attempts[i].plan, p);
    PlanRewrites(base, head, indexes[i], diff, p);
    assert p !in indexes[i];
  }

  ghost predicate FirstAttempts(attempts: seq<Attempt>, head: Commit, indexes: seq<(set<Path>, seq<Path>)>)
  {
    && |indexes| == |attempts|
    && forall i :: 0 <= i < |attempts| ==>
         attempts[i].commit == head && attempts[i].plan == FirstPlan(indexes[i].0, indexes[i].1)
  }

  lemma {:induction false} FirstRewrites(gitlinks: set<Path>, files: seq<Path>, p: Path)
    requires forall q :: q in files ==> Plain(q)
    ensures Rewrites(FirstPlan(gitlinks, files), p) <==> p in files && p !in gitlinks
  {
    var ops := Ops(FirstPlan(gitlinks, files));
    FirstOps(gitlinks, files);
    assert ops[..|ops|] == ops;
  }

  /**
   * First syncs: the failed ones can matter only where an earlier index listed a file
   * that the last one does not list, or lists as a gitlink.
   */
  lemma {:induction false} StagingBetweenFirst(head: Commit, tree: Tree, attempts: seq<Attempt>,
                                               indexes: seq<(set<Path>, seq<Path>)>,
                                               gitlinks: set<Path>, files: seq<Path>, p: Path)
    requires AllBreak(attempts) && FirstAttempts(attempts, head, indexes) && Possible(head, FirstPlan(gitlinks, files))
    requires forall i :: 0 <= i < |indexes| ==> forall q :: q in indexes[i].1 ==> Plain(q)
    requires forall q :: q in files ==> Plain(q)
    requires !Agree(Synced(AfterAttempts(tree, attempts, |attempts|), head, FirstPlan(gitlinks, files)),
                    Synced(tree, head, FirstPlan(gitlinks, files)), p)
    ensures p !in files || p in gitlinks
    ensures exists i :: 0 <= i < |indexes| && p in indexes[i].1 && p !in indexes[i].0
  {
    RetriesDifferExactly(tree, attempts, head, FirstPlan(gitlinks, files), p);
    FirstRewrites(gitlinks, files, p);
    if forall i :: 0 <= i < |attempts| ==> !Rewrites(attempts[i].plan, p) {
      OthersLeaveIt(attempts, |attempts|, At(tree, p), p);
      assert false;
    }
    var i :| 0 <= i < |attempts| && Rewrites(attempts[i].plan, p);
    FirstRewrites(indexes[i].0, indexes[i].1, p);
    assert p in indexes[i].1 && p !in indexes[i].0;
  }

  /******* Another HEAD after failed syncs *******/

  // A path is right after a whole sync exactly if the plan rewrites it, or it had
  // HEAD's file before.
  lemma {:induction false} RightAfter(base: Commit, head: Commit, gitlinks: set<Path>, diff: seq<Change>,
                                      tree: Tree, p: Path)
    requires AllPlain(base) && AllPlain(head) && DiffOf(base, head, diff)
    requires Possible(head, PlanOf(gitlinks, diff))
    ensures Agree(Synced(tree, head, PlanOf(gitlinks, diff)), Visible(head), p) <==>
            Rewrites(PlanOf(gitlinks, diff), p) || Agree(tree, Visible(head), p)
  {
    var ops := Ops(PlanOf(gitlinks, diff));
    DiffIsTrue(base, head, diff);
    if Touched(ops, |ops|, p) {
      TouchedIsRight(base, head, gitlinks, diff, tree, |ops|, p);
    } else {
      Untouched(tree, head, ops, |ops|, p);
    }
  }

  /**
   * Failed syncs, of whatever plans and HEADs, and then a sync from the same base: a
   * path is right in the end exactly if the last plan rewrites it, or what the failed
   * ones left there is what the last HEAD has.
   */
  lemma {:induction false} OtherHeadExactly(base: Commit, attempts: seq<Attempt>, head: Commit, gitlinks: set<Path>,
                                            diff: seq<Change>, tree: Tree, p: Path)
    requires AllPlain(base) && AllPlain(head) && DiffOf(base, head, diff)
    requires Possible(head, PlanOf(gitlinks, diff)) && AllBreak(attempts) && Agree(tree, Visible(base), p)
    ensures Agree(Synced(AfterAttempts(tree, attempts, |attempts|), head, PlanOf(gitlinks, diff)),
                  Visible(head), p) <==>
            || Rewrites(PlanOf(gitlinks, diff), p)
            || LeftBy(attempts, |attempts|, At(Visible(base), p), p) == At(Visible(head), p)
  {
    AttemptsLeave(tree, attempts, |attempts|, p);
    RightAfter(base, head, gitlinks, diff, AfterAttempts(tree, attempts, |attempts|), p);
  }

  // The failed sync left something at the path that the base commit does not have
  // there: the first HEAD's version, or a broken file.
  ghost predicate Disturbed(base: Commit, first: Commit, ops: seq<Op>, cut: Cut, p: Path)
    requires cut.done <= |ops|
  {
    if TornAt(ops, cut, p) then At(Visible(base), p) != cut.torn
    else Touched(ops, cut.done, p) && !Agree(Visible(base), Visible(first), p)
  }

  lemma {:induction false} DisturbedExactly(base: Commit, first: Commit, gitlinks: set<Path>, diff: seq<Change>,
                                            cut: Cut, p: Path)
    requires AllPlain(base) && AllPlain(first) && DiffOf(base, first, diff)
    requires CutOf(first, Ops(PlanOf(gitlinks, diff)), cut)
    ensures LeftAt(Attempt(first, PlanOf(gitlinks, diff), cut), At(Visible(base), p), p) != At(Visible(base), p) <==>
            Disturbed(base, first, Ops(PlanOf(gitlinks, diff)), cut, p)
  {
    var ops := Ops(PlanOf(gitlinks, diff));
    DiffIsTrue(base, first, diff);
    if Delete(p) in ops[..cut.done] {
      assert Delete(p) in ops;
      PlannedOps(base, first, gitlinks, diff, p);
      DeletedAreGone(base, first, diff, p);
    }
  }

  /**
   * On the paths that a sync to the second HEAD alone would set right, the failed
   * sync does harm exactly where it had changed something that the second plan
   * leaves alone: what was changed at the first HEAD and changed back at the second.
   */
  lemma {:induction false} FailedSyncHarmsExactly(base: Commit, first: Commit, gitlinks: set<Path>, diff: seq<Change>,
                                                  cut: Cut, head: Commit, gitlinks': set<Path>, diff': seq<Change>,
                                                  tree: Tree, p: Path)
    requires AllPlain(base) && AllPlain(first) && DiffOf(base, first, diff)
    requires AllPlain(head) && DiffOf(base, head, diff') && Possible(head, PlanOf(gitlinks', diff'))
    requires CutOf(first, Ops(PlanOf(gitlinks, diff)), cut) && Agree(tree, Visible(base), p)
    requires Agree(Synced(tree, head, PlanOf(gitlinks', diff')), Visible(head), p)
    ensures var ops, ops' := Ops(PlanOf(gitlinks, diff)), Ops(PlanOf(gitlinks', diff'));
      Agree(Synced(Broken(tree, first, ops, cut), head, PlanOf(gitlinks', diff')), Visible(head), p) <==>
      !(Disturbed(base, first, ops, cut, p) && !Touched(ops', |ops'|, p))
  {
    AttemptLeaves(tree, Attempt(first, PlanOf(gitlinks, diff), cut), p);
    DisturbedExactly(base, first, gitlinks, diff, cut, p);
    RightAfter(base, head, gitlinks', diff', Broken(tree, first, Ops(PlanOf(gitlinks, diff)), cut), p);
    RightAfter(base, head, gitlinks', diff', tree, p);
  }

  /**
   * A file changed at the first HEAD and changed back at the second stays wrong:
   * the first sync is cut off after pushing it, the second has nothing to do.
   */
  lemma {:induction false} RevertedFileStaysWrong(was: Bytes, now: Bytes)
    returns (base: Commit, first: Commit, ops: seq<Op>, left: Tree)
    requires was != now
    ensures DiffOf(base, first, [Modified("f")]) && ops == Ops(PlanOf({}, [Modified("f")]))
    ensures |ops| == 1 && Pushable(first, ops, 1) && left == TreeAfter(Visible(base), first, ops, 1)
    // the second HEAD is the base commit again: its diff is empty, and so is its plan
    ensures DiffOf(base, base, []) && Ops(PlanOf({}, [])) == []
    ensures !Agree(left, Visible(base), "f")
  {
    base, first := map["f" := File(was)], map["f" := File(now)];
    StripF();
    assert [Modified("f")][..0] == [];
    assert PushAll([Modified("f")], {}, 1) == ["f"] by {
      assert Kept(["f"], {}) == ["f"];
    }
    assert DeleteAll([Modified("f")], {}, 1) == [];
    ops := Ops(PlanOf({}, [Modified("f")]));
    assert ops == [Push("f")];
    left := TreeAfter(Visible(base), first, ops, 1);
    forall p | Differs(base, first, p) ensures exists c :: c in [Modified("f")] && Accounts(c, p) {
      assert Modified("f") in [Modified("f")] && Accounts(Modified("f"), p);
    }
  }

  /******* HEAD moves during a sync *******/

  /**
   * HEAD is read once for the bytes and the new pointer (`first`), and again for the
   * diff, when it may have moved on (`moved`).  Such a sync can succeed exactly if every
   * file that the diff pushes is in the HEAD read first.
   */
  lemma {:induction false} RacePossibleExactly(base: Commit, first: Commit, moved: Commit, gitlinks: set<Path>,
                                               diff: seq<Change>)
    requires AllPlain(base) && AllPlain(moved) && DiffOf(base, moved, diff)
    ensures Possible(first, PlanOf(gitlinks, diff)) <==>
            forall p :: PushedBy(diff, |diff|, p) && p !in gitlinks ==> p in Visible(first)
  {
    var ops := Ops(PlanOf(gitlinks, diff));
    DiffIsTrue(base, moved, diff);
    if Possible(first, PlanOf(gitlinks, diff)) {
      forall p | PushedBy(diff, |diff|, p) && p !in gitlinks ensures p in Visible(first) {
        PlannedOps(base, moved, gitlinks, diff, p);
        var k :| 0 <= k < |ops| && ops[k] == Push(p);
      }
    }
    if forall p :: PushedBy(diff, |diff|, p) && p !in gitlinks ==> p in Visible(first) {
      forall k | 0 <= k < |ops| && ops[k].Push? ensures ops[k].path in Visible(first) {
        assert Push(ops[k].path) in ops;
        PlannedOps(base, moved, gitlinks, diff, ops[k].path);
      }
    }
  }

  // What a sync during which HEAD moved leaves at a path.
  ghost function RaceLeft(base: Commit, first: Commit, gitlinks: set<Path>, diff: seq<Change>, p: Path): Option<Bytes>
  {
    if p in gitlinks then At(Visible(base), p)
    else if DeletedBy(diff, |diff|, p) then None
    else if PushedBy(diff, |diff|, p) then At(Visible(first), p)
    else At(Visible(base), p)
  }

  lemma {:induction false} RaceLeaves(base: Commit, first: Commit, moved: Commit, gitlinks: set<Path>,
                                      diff: seq<Change>, tree: Tree, p: Path)
    requires AllPlain(base) && AllPlain(moved) && DiffOf(base, moved, diff)
    requires Possible(first, PlanOf(gitlinks, diff)) && Agree(tree, Visible(base), p)
    ensures At(Synced(tree, first, PlanOf(gitlinks, diff)), p) == RaceLeft(base, first, gitlinks, diff, p)
  {
    var ops := Ops(PlanOf(gitlinks, diff));
    DiffIsTrue(base, moved, diff);
    SyncLeaves(tree, first, PlanOf(gitlinks, diff), p);
    PlannedOps(base, moved, gitlinks, diff, p);
    assert ops[..|ops|] == ops;
  }

  /**
   * The sync after such a sync starts from the HEAD read first.  It sets a path right
   * exactly if its own plan rewrites it, or what was left there is what its HEAD has.
   */
  lemma {:induction false} AfterRaceExactly(base: Commit, first: Commit, moved: Commit, gitlinks: set<Path>,
                                            diff: seq<Change>, head: Commit, gitlinks': set<Path>, diff': seq<Change>,
                                            tree: Tree, p: Path)
    requires AllPlain(base) && AllPlain(moved) && DiffOf(base, moved, diff)
    requires Possible(first, PlanOf(gitlinks, diff)) && Agree(tree, Visible(base), p)
    requires AllPlain(first) && AllPlain(head) && DiffOf(first, head, diff') && Possible(head, PlanOf(gitlinks', diff'))
    ensures Agree(Synced(Synced(tree, first, PlanOf(gitlinks, diff)), head, PlanOf(gitlinks', diff')),
                  Visible(head), p) <==>
            Rewrites(PlanOf(gitlinks', diff'), p) || RaceLeft(base, first, gitlinks, diff, p) == At(Visible(head), p)
  {
    RaceLeaves(base, first, moved, gitlinks, diff, tree, p);
    RightAfter(first, head, gitlinks', diff', Synced(tree, first, PlanOf(gitlinks, diff)), p);
  }

  // A sync by this diff leaves the path as it is although the commits differ there.
  ghost predicate Missed(base: Commit, head: Commit, gitlinks: set<Path>, diff: seq<Change>, p: Path)
  {
    Skipped(base, head, gitlinks, p) || MissedCopy(base, head, diff, p)
  }

  /**
   * If the next sync finds the HEAD to which the diff was taken, it heals the race but
   * for what single syncs miss: a path is wrong exactly if the first diff missed it and
   * the second plan does not rewrite it, or the first plan pushed it and the second diff
   * missed it.
   */
  lemma {:induction false} RaceHealsExactly(base: Commit, first: Commit, moved: Commit, gitlinks: set<Path>,
                                            diff: seq<Change>, gitlinks': set<Path>, diff': seq<Change>,
                                            tree: Tree, p: Path)
    requires AllPlain(base) && AllPlain(first) && AllPlain(moved)
    requires DiffOf(base, moved, diff) && DiffOf(first, moved, diff') && Agree(tree, Visible(base), p)
    requires Possible(first, PlanOf(gitlinks, diff)) && Possible(moved, PlanOf(gitlinks', diff'))
    ensures Agree(Synced(Synced(tree, first, PlanOf(gitlinks, diff)), moved, PlanOf(gitlinks', diff')),
                  Visible(moved), p) <==>
            && !(Missed(base, moved, gitlinks, diff, p) && !Rewrites(PlanOf(gitlinks', diff'), p))
            && !(p !in gitlinks && PushedBy(diff, |diff|, p) && !DeletedBy(diff, |diff|, p) &&
                 Missed(first, moved, gitlinks', diff', p))
  {
    AfterRaceExactly(base, first, moved, gitlinks, diff, moved, gitlinks', diff', tree, p);
    UntouchedAgrees(base, moved, gitlinks, diff, p);
    UntouchedAgrees(first, moved, gitlinks', diff', p);
    DiffIsTrue(base, moved, diff);
    DeletedAreGone(base, moved, diff, p);
    PlanRewrites(base, moved, gitlinks, diff, p);
  }

  /**
   * If HEAD moves back in the meantime, the race stays: a change is taken back while a
   * sync to it runs, and is made again.  The sync pushes nothing and moves the pointer,
   * and the next one has nothing to do.
   */
  lemma {:induction false} RaceStays(was: Bytes, now: Bytes) returns (base: Commit, first: Commit)
    requires was != now
    ensures DiffOf(base, base, []) && Possible(first, PlanOf({}, [])) && PlanOf({}, []) == Plan([], [])
    ensures DiffOf(first, first, [])
    ensures !Agree(Synced(Synced(Visible(base), first, PlanOf({}, [])), first, PlanOf({}, [])), Visible(first), "f")
  {
    base, first := map["f" := File(was)], map["f" := File(now)];
    assert PlanOf({}, []) == Plan([], []);
    assert Synced(Visible(base), first, Plan([], [])) == Visible(base);
  }
}
