/** Syncs of paths that git does not print as they are: quoted names, and names with spaces at an end. */
module TransportSyncPaths {
  import Text
  import opened TransportSync
  import opened TransportSyncLaws
  import opened TransportSyncRetries
  import opened Wrappers

  /******* Printing and reading *******/

  // A path that git prints without quotes.
  ghost predicate Ordinary(p: Path)
  {
    forall c :: c in p ==> ' ' <= c <= '~' && c !in "\"\\"
  }

  ghost predicate Quoted(line: Path)
  {
    |line| >= 2 && line[0] == '"' && line[|line| - 1] == '"'
  }

  // How git prints a path: as it is, or between quotes.
  ghost predicate GitPrint(shown: Path -> Path)
  {
    forall p :: if Ordinary(p) then shown(p) == p else Quoted(shown(p))
  }

  // What the code takes the printed path for.
  function Read(shown: Path -> Path, p: Path): Path
  {
    Text.Strip(shown(p))
  }

  function Printed(c: Change, shown: Path -> Path): Change
  {
    match c
    case Added(p) => Added(shown(p))
    case Modified(p) => Modified(shown(p))
    case Deleted(p) => Deleted(shown(p))
    case Renamed(from, to) => Renamed(shown(from), shown(to))
    case Copied(from, to) => Copied(shown(from), shown(to))
  }

  function PrintedDiff(diff: seq<Change>, shown: Path -> Path): seq<Change>
  {
    seq(|diff|, i requires 0 <= i < |diff| => Printed(diff[i], shown))
  }

  // One of the paths is read as `p`.
  ghost predicate ReadAs(paths: seq<Path>, shown: Path -> Path, p: Path)
  {
    exists q :: q in paths && Read(shown, q) == p
  }

  ghost predicate PushedAs(diff: seq<Change>, n: nat, shown: Path -> Path, p: Path)
    requires n <= |diff|
  {
    exists i :: 0 <= i < n && ReadAs(Pushes(diff[i]), shown, p)
  }

  ghost predicate DeletedAs(diff: seq<Change>, n: nat, shown: Path -> Path, p: Path)
    requires n <= |diff|
  {
    exists i :: 0 <= i < n && ReadAs(Deletes(diff[i]), shown, p)
  }

  lemma {:induction false} KeptOne(line: Path, gitlinks: set<Path>)
    ensures Kept([line], gitlinks) == if Text.Strip(line) in gitlinks then [] else [Text.Strip(line)]
  {
    assert [line][1..] == [] && Kept([], gitlinks) == [];
  }

  lemma {:induction false} KeptRead(shown: Path -> Path, gitlinks: set<Path>, q: Path, p: Path)
    ensures p in Kept([shown(q)], gitlinks) <==> p !in gitlinks && ReadAs([q], shown, p)
  {
    KeptOne(shown(q), gitlinks);
    assert q in [q];
  }

  lemma {:induction false} PrintedLine(c: Change, shown: Path -> Path, gitlinks: set<Path>, p: Path)
    ensures p in Kept(Pushes(Printed(c, shown)), gitlinks) <==> p !in gitlinks && ReadAs(Pushes(c), shown, p)
    ensures p in Kept(Deletes(Printed(c, shown)), gitlinks) <==> p !in gitlinks && ReadAs(Deletes(c), shown, p)
  {
    match c
    case Added(q) => KeptRead(shown, gitlinks, q, p);
    case Modified(q) => KeptRead(shown, gitlinks, q, p);
    case Deleted(q) => KeptRead(shown, gitlinks, q, p);
    case Renamed(from, to) =>
      KeptRead(shown, gitlinks, from, p);
      KeptRead(shown, gitlinks, to, p);
    case Copied(from, _) => KeptRead(shown, gitlinks, from, p);
  }

  lemma {:induction false} PrintedPushes(diff: seq<Change>, shown: Path -> Path, gitlinks: set<Path>, p: Path)
    ensures p in PlanOf(gitlinks, PrintedDiff(diff, shown)).toPush <==>
            p !in gitlinks && PushedAs(diff, |diff|, shown, p)
  {
    if p in PlanOf(gitlinks, PrintedDiff(diff, shown)).toPush {
      var i := PushingLine(PrintedDiff(diff, shown), gitlinks, |diff|, p);
      PrintedLine(diff[i], shown, gitlinks, p);
    }
    if p !in gitlinks && PushedAs(diff, |diff|, shown, p) {
      var i :| 0 <= i < |diff| && ReadAs(Pushes(diff[i]), shown, p);
      PrintedLine(diff[i], shown, gitlinks, p);
      LinePushes(PrintedDiff(diff, shown), gitlinks, |diff|, i, p);
    }
  }

  lemma {:induction false} PrintedDeletes(diff: seq<Change>, shown: Path -> Path, gitlinks: set<Path>, p: Path)
    ensures p in PlanOf(gitlinks, PrintedDiff(diff, shown)).toDelete <==>
            p !in gitlinks && DeletedAs(diff, |diff|, shown, p)
  {
    if p in PlanOf(gitlinks, PrintedDiff(diff, shown)).toDelete {
      var i := DeletingLine(PrintedDiff(diff, shown), gitlinks, |diff|, p);
      PrintedLine(diff[i], shown, gitlinks, p);
    }
    if p !in gitlinks && DeletedAs(diff, |diff|, shown, p) {
      var i :| 0 <= i < |diff| && ReadAs(Deletes(diff[i]), shown, p);
      PrintedLine(diff[i], shown, gitlinks, p);
      LineDeletes(PrintedDiff(diff, shown), gitlinks, |diff|, i, p);
    }
  }

  lemma {:induction false} PrintedOps(diff: seq<Change>, shown: Path -> Path, gitlinks: set<Path>, p: Path)
    ensures var ops := Ops(PlanOf(gitlinks, PrintedDiff(diff, shown)));
      && (Push(p) in ops <==> p !in gitlinks && PushedAs(diff, |diff|, shown, p))
      && (Delete(p) in ops <==> p !in gitlinks && DeletedAs(diff, |diff|, shown, p))
  {
    PrintedPushes(diff, shown, gitlinks, p);
    PrintedDeletes(diff, shown, gitlinks, p);
    OpsOf(PlanOf(gitlinks, PrintedDiff(diff, shown)));
  }

  /******* Any names at all *******/

  /**
   * However git prints its paths, the plan is possible exactly if whatever a pushed path
   * is read as is a file of HEAD, or a gitlink of the index.
   */
  lemma {:induction false} PrintedPossibleExactly(head: Commit, diff: seq<Change>, shown: Path -> Path,
                                                  gitlinks: set<Path>)
    ensures Possible(head, PlanOf(gitlinks, PrintedDiff(diff, shown))) <==>
            forall p :: PushedAs(diff, |diff|, shown, p) && p !in gitlinks ==> p in Visible(head)
  {
    var plan := PlanOf(gitlinks, PrintedDiff(diff, shown));
    var ops := Ops(plan);
    if Possible(head, plan) {
      forall p | PushedAs(diff, |diff|, shown, p) && p !in gitlinks ensures p in Visible(head) {
        PrintedOps(diff, shown, gitlinks, p);
        var k :| 0 <= k < |ops| && ops[k] == Push(p);
      }
    }
    if forall p :: PushedAs(diff, |diff|, shown, p) && p !in gitlinks ==> p in Visible(head) {
      forall k | 0 <= k < |ops| && ops[k].Push? ensures ops[k].path in Visible(head) {
        assert Push(ops[k].path) in ops;
        PrintedOps(diff, shown, gitlinks, ops[k].path);
      }
    }
  }

  /**
   * Then a path is right after a sync exactly if it is deleted under a name it is read
   * as and HEAD has no such file; or is pushed so and not deleted; or is neither, and
   * was right before.
   */
  lemma {:induction false} PrintedSyncExactly(head: Commit, diff: seq<Change>, shown: Path -> Path,
                                              gitlinks: set<Path>, tree: Tree, p: Path)
    requires Possible(head, PlanOf(gitlinks, PrintedDiff(diff, shown)))
    ensures Agree(Synced(tree, head, PlanOf(gitlinks, PrintedDiff(diff, shown))), Visible(head), p) <==>
            if p !in gitlinks && DeletedAs(diff, |diff|, shown, p) then p !in Visible(head)
            else (p !in gitlinks && PushedAs(diff, |diff|, shown, p)) || Agree(tree, Visible(head), p)
  {
    var plan := PlanOf(gitlinks, PrintedDiff(diff, shown));
    SyncLeaves(tree, head, plan, p);
    PrintedOps(diff, shown, gitlinks, p);
    assert Ops(plan)[..|Ops(plan)|] == Ops(plan);
  }

  lemma {:induction false} KeptLines(lines: seq<Path>, gitlinks: set<Path>, p: Path)
    ensures p in Kept(NonBlank(lines), gitlinks) <==>
            p != [] && p !in gitlinks && exists line :: line in lines && Text.Strip(line) == p
  {
    if lines != [] {
      var first, rest := lines[0], lines[1..];
      KeptLines(rest, gitlinks, p);
      assert lines == [first] + rest;
      assert NonBlank(lines) == if Text.Strip(first) == [] then NonBlank(rest) else [first] + NonBlank(rest);
      if Text.Strip(first) != [] {
        KeptMore(first, NonBlank(rest), gitlinks);
      }
    }
  }

  lemma {:induction false} KeptMore(line: Path, lines: seq<Path>, gitlinks: set<Path>)
    ensures Kept([line] + lines, gitlinks) ==
            (if Text.Strip(line) in gitlinks then [] else [Text.Strip(line)]) + Kept(lines, gitlinks)
  {
    assert ([line] + lines)[1..] == lines;
  }

  function Lines(files: seq<Path>, shown: Path -> Path): seq<Path>
  {
    seq(|files|, i requires 0 <= i < |files| => shown(files[i]))
  }

  lemma {:induction false} LinesRead(files: seq<Path>, shown: Path -> Path, p: Path)
    ensures (exists line :: line in Lines(files, shown) && Text.Strip(line) == p) <==> ReadAs(files, shown, p)
  {
    if line :| line in Lines(files, shown) && Text.Strip(line) == p {
      var i :| 0 <= i < |files| && Lines(files, shown)[i] == line;
      assert files[i] in files && Read(shown, files[i]) == p;
    }
    if q :| q in files && Read(shown, q) == p {
      var i :| 0 <= i < |files| && files[i] == q;
      assert Lines(files, shown)[i] in Lines(files, shown);
    }
  }

  /**
   * However git prints the files of the index, a first sync can succeed exactly if each
   * of them is read as a file of HEAD, as a gitlink of the index, or as nothing.
   */
  lemma {:induction false} FirstPrintedPossibleExactly(head: Commit, files: seq<Path>, shown: Path -> Path,
                                                       gitlinks: set<Path>)
    ensures Possible(head, FirstPlan(gitlinks, Lines(files, shown))) <==>
            forall q :: q in files ==>
              var p := Read(shown, q); p == [] || p in gitlinks || p in Visible(head)
  {
    var plan := FirstPlan(gitlinks, Lines(files, shown));
    var ops := Ops(plan);
    OpsOf(plan);
    if Possible(head, plan) {
      forall q | q in files
        ensures var p := Read(shown, q); p == [] || p in gitlinks || p in Visible(head)
      {
        var p := Read(shown, q);
        assert ReadAs(files, shown, p);
        LinesRead(files, shown, p);
        KeptLines(Lines(files, shown), gitlinks, p);
        if p != [] && p !in gitlinks {
          assert Push(p) in ops;
          var k :| 0 <= k < |ops| && ops[k] == Push(p);
        }
      }
    } else {
      var k :| 0 <= k < |ops| && ops[k].Push? && ops[k].path !in Visible(head);
      var p := ops[k].path;
      assert Push(p) in ops;
      LinesRead(files, shown, p);
      KeptLines(Lines(files, shown), gitlinks, p);
      var q :| q in files && Read(shown, q) == p;
    }
  }

  /******* Quoted names *******/

  // A path that git prints quoted, and that does not itself look so.
  ghost predicate Odd(p: Path)
  {
    !Ordinary(p) && !Quoted(p)
  }

  lemma {:induction false} QuotedIsRead(line: Path)
    requires Quoted(line)
    ensures Text.Strip(line) == line
  {
    assert !Text.IsSpace('"');
  }

  lemma {:induction false} StrippedIsOrdinary(p: Path)
    requires Ordinary(p)
    ensures Ordinary(Text.Strip(p))
  {
    LStripPart(p);
    RStripPart(Text.LStrip(p));
  }

  lemma {:induction false} LStripPart(s: string)
    ensures forall c :: c in Text.LStrip(s) ==> c in s
  {
    if s != [] && Text.IsSpace(s[0]) {
      LStripPart(s[1..]);
    }
  }

  lemma {:induction false} RStripPart(s: string)
    ensures forall c :: c in Text.RStrip(s) ==> c in s
  {
    if s != [] && Text.IsSpace(s[|s| - 1]) {
      RStripPart(s[..|s| - 1]);
    }
  }

  // Nothing that git prints is read as an odd path.
  lemma {:induction false} OutOfReach(shown: Path -> Path, q: Path)
    requires GitPrint(shown)
    ensures !Odd(Read(shown, q))
    ensures !Ordinary(q) ==> Read(shown, q) == shown(q) && Quoted(shown(q))
  {
    if Ordinary(q) {
      StrippedIsOrdinary(q);
    } else {
      QuotedIsRead(shown(q));
    }
  }

  /**
   * No sync changes what the remote has at an odd path, whatever the diff says of it.
   */
  lemma {:induction false} OddIsLeftAlone(head: Commit, diff: seq<Change>, shown: Path -> Path,
                                          gitlinks: set<Path>, tree: Tree, p: Path)
    requires GitPrint(shown) && Odd(p) && Possible(head, PlanOf(gitlinks, PrintedDiff(diff, shown)))
    ensures At(Synced(tree, head, PlanOf(gitlinks, PrintedDiff(diff, shown))), p) == At(tree, p)
  {
    var plan := PlanOf(gitlinks, PrintedDiff(diff, shown));
    forall q ensures Read(shown, q) != p {
      OutOfReach(shown, q);
    }
    SyncLeaves(tree, head, plan, p);
    PrintedOps(diff, shown, gitlinks, p);
    assert Ops(plan)[..|Ops(plan)|] == Ops(plan);
  }

  /** A deleted file with an odd path stays, and the plan is possible all the same. */
  lemma {:induction false} DeletedOddStays(shown: Path -> Path, base: Commit, gitlinks: set<Path>, tree: Tree, p: Path)
    requires GitPrint(shown) && Odd(p) && p in Visible(base) && Agree(tree, Visible(base), p)
    ensures var head, diff := base - {p}, [Deleted(p)];
      && DiffOf(base, head, diff) && Possible(head, PlanOf(gitlinks, PrintedDiff(diff, shown)))
      && p !in Visible(head) && p in Synced(tree, head, PlanOf(gitlinks, PrintedDiff(diff, shown)))
  {
    var head, diff := base - {p}, [Deleted(p)];
    forall q | Differs(base, head, q) ensures exists c :: c in diff && Accounts(c, q) {
      assert Deleted(p) in diff && Accounts(Deleted(p), q);
    }
    PrintedPossibleExactly(head, diff, shown, gitlinks);
    OddIsLeftAlone(head, diff, shown, gitlinks, tree, p);
  }

  // What is pushed is plain or odd, and no file of HEAD has a name that looks quoted.
  ghost predicate PlainOrOdd(head: Commit, diff: seq<Change>)
  {
    && (forall p :: PushedBy(diff, |diff|, p) ==> Plain(p) || Odd(p))
    && (forall p :: p in head ==> !Quoted(p))
  }

  // The path is read as a file of HEAD, or left out as a gitlink.
  ghost predicate Reaches(head: Commit, shown: Path -> Path, gitlinks: set<Path>, p: Path)
  {
    if Plain(p) then p in gitlinks || p in Visible(head) else shown(p) in gitlinks
  }

  lemma {:induction false} ReadExactly(head: Commit, shown: Path -> Path, gitlinks: set<Path>, p: Path)
    requires GitPrint(shown) && (Plain(p) || Odd(p)) && forall q :: q in head ==> !Quoted(q)
    ensures Reaches(head, shown, gitlinks, p) <==> Read(shown, p) in gitlinks || Read(shown, p) in Visible(head)
  {
    OutOfReach(shown, p);
    if Plain(p) {
      assert Ordinary(p) && shown(p) == p;
    }
  }

  /**
   * A pushed file with an odd path makes every sync fail: a plan is possible exactly if
   * each plain path it pushes is a file of HEAD or a gitlink of the index, and each odd
   * one is such a gitlink.
   */
  lemma {:induction false} OddBlocksExactly(head: Commit, diff: seq<Change>, shown: Path -> Path, gitlinks: set<Path>)
    requires GitPrint(shown) && PlainOrOdd(head, diff)
    ensures Possible(head, PlanOf(gitlinks, PrintedDiff(diff, shown))) <==>
            forall p :: PushedBy(diff, |diff|, p) ==> Reaches(head, shown, gitlinks, p)
  {
    PrintedPossibleExactly(head, diff, shown, gitlinks);
    if forall r :: PushedAs(diff, |diff|, shown, r) && r !in gitlinks ==> r in Visible(head) {
      forall p | PushedBy(diff, |diff|, p) ensures Reaches(head, shown, gitlinks, p) {
        var i :| 0 <= i < |diff| && p in Pushes(diff[i]);
        assert ReadAs(Pushes(diff[i]), shown, Read(shown, p));
        assert PushedAs(diff, |diff|, shown, Read(shown, p));
        ReadExactly(head, shown, gitlinks, p);
      }
    }
    if forall p :: PushedBy(diff, |diff|, p) ==> Reaches(head, shown, gitlinks, p) {
      forall r | PushedAs(diff, |diff|, shown, r) && r !in gitlinks ensures r in Visible(head) {
        var i :| 0 <= i < |diff| && ReadAs(Pushes(diff[i]), shown, r);
        var p :| p in Pushes(diff[i]) && Read(shown, p) == r;
        assert PushedBy(diff, |diff|, p);
        ReadExactly(head, shown, gitlinks, p);
      }
    }
  }

  /** A new file with an odd path: there is nothing to push under the name that git prints. */
  lemma {:induction false} OddFileBlocks(p: Path, content: Bytes) returns (shown: Path -> Path, head: Commit)
    requires Odd(p)
    ensures GitPrint(shown) && DiffOf(map[], head, [Added(p)]) && p in Visible(head)
    ensures !Possible(head, PlanOf({}, PrintedDiff([Added(p)], shown)))
  {
    shown, head := q => if Ordinary(q) then q else "\"" + q + "\"", map[p := File(content)];
    assert p in Pushes([Added(p)][0]);
    assert PushedBy([Added(p)], 1, p);
    forall q | Differs(map[], head, q) ensures exists c :: c in [Added(p)] && Accounts(c, q) {
      assert Added(p) in [Added(p)] && Accounts(Added(p), q);
    }
    assert !Reaches(head, shown, {}, p);
    OddBlocksExactly(head, [Added(p)], shown, {});
  }
}
