/** Pushing a commit's files to a remote checkout: plan from a diff, apply file by file. */
module TransportSync {
  import Text
  import opened Wrappers

  type Path = string
  type Bytes = seq<bv8>
  type Sha = string

  datatype Result<+T> = Ok(value: T) | Err(reason: SyncError)
  datatype SyncError = UnsafePath(path: Path) | NoSuchBlob(path: Path) | TransferFailed(changed: nat)

  // A tracked path holds a file, or a reference to another repository.
  datatype Entry = File(content: Bytes) | Gitlink(commit: Sha)

  type Commit = map<Path, Entry>
  type Tree = map<Path, Bytes>

  // The files of a commit, without gitlinks.
  function Visible(commit: Commit): Tree
  {
    map p | p in commit && commit[p].File? :: commit[p].content
  }

  function Gitlinks(commit: Commit): set<Path>
  {
    set p | p in commit && commit[p].Gitlink?
  }

  /******* Paths *******/

  // The components of a path, split at slashes.
  function Parts(path: Path): seq<Path>
  {
    PartsFrom(path, [])
  }

  function PartsFrom(path: Path, part: Path): seq<Path>
    decreases |path|
  {
    if path == [] then [part]
    else if path[0] == '/' then [part] + PartsFrom(path[1..], [])
    else PartsFrom(path[1..], part + [path[0]])
  }

  // A path that stays below the remote root.
  predicate Safe(path: Path)
  {
    path != [] && path[0] != '/' && ".." !in Parts(path)
  }

  // `path[i..j]` is a component: it stands between slashes or the ends.
  ghost predicate Component(path: Path, i: nat, j: nat)
  {
    && i <= j <= |path| && (i == 0 || path[i - 1] == '/') && (j == |path| || path[j] == '/')
    && '/' !in path[i..j]
  }

  // What is listed stands between slashes; `path[m..n]` is the part read so far.
  lemma {:induction false} PartStands(path: Path, m: nat, n: nat, x: Path) returns (i: nat, j: nat)
    requires m <= n <= |path| && (m == 0 || path[m - 1] == '/') && '/' !in path[m..n]
    requires x in PartsFrom(path[n..], path[m..n])
    ensures Component(path, i, j) && x == path[i..j]
    decreases |path| - n
  {
    if n == |path| || (path[n] == '/' && x == path[m..n]) {
      return m, n;
    }
    NextPart(path, m, n);
    if path[n] == '/' {
      i, j := PartStands(path, n + 1, n + 1, x);
    } else {
      i, j := PartStands(path, m, n + 1, x);
    }
  }

  // One step of the splitting, on the whole path.
  lemma {:induction false} NextPart(path: Path, m: nat, n: nat)
    requires m <= n < |path|
    ensures PartsFrom(path[n..], path[m..n]) ==
            if path[n] == '/' then [path[m..n]] + PartsFrom(path[n + 1..], path[n + 1..n + 1])
            else PartsFrom(path[n + 1..], path[m..n + 1])
  {
    assert path[n..][1..] == path[n + 1..] && path[n + 1..n + 1] == [];
    assert path[m..n] + [path[n]] == path[m..n + 1];
  }

  // What stands between slashes is listed.
  lemma {:induction false} StandsAsPart(path: Path, m: nat, n: nat, i: nat, j: nat)
    requires m <= n <= |path| && '/' !in path[m..n]
    requires m <= i && (i <= n ==> i == m && j >= n) && Component(path, i, j)
    ensures path[i..j] in PartsFrom(path[n..], path[m..n])
    decreases |path| - n
  {
    if n < |path| {
      NextPart(path, m, n);
      if path[n] != '/' {
        StandsAsPart(path, m, n + 1, i, j);
      } else if i > n {
        StandsAsPart(path, n + 1, n + 1, i, j);
      } else {
        EndsAtSlash(path, i, j, n);
      }
    }
  }

  // A component stops at the first slash.
  lemma {:induction false} EndsAtSlash(path: Path, i: nat, j: nat, n: nat)
    requires i <= n < |path| && path[n] == '/' && Component(path, i, j)
    ensures j <= n
  {
    forall k | i <= k < j ensures path[k] != '/' {
      assert path[k] == path[i..j][k - i];
    }
  }

  /**
   * A path is safe exactly if it is not empty, does not begin with a slash, and no
   * component of it is two dots.
   */
  lemma {:induction false} SafeMeaning(path: Path)
    ensures Safe(path) <==>
            path != [] && path[0] != '/' && forall i: nat, j: nat :: Component(path, i, j) ==> path[i..j] != ".."
  {
    assert path[0..] == path && path[0..0] == [];
    if ".." in Parts(path) {
      var i, j := PartStands(path, 0, 0, "..");
    }
    forall i: nat, j: nat | Component(path, i, j) ensures path[i..j] in Parts(path) {
      StandsAsPart(path, 0, 0, i, j);
    }
  }

  // Git's output for a path, as the code reads it.
  function SafeRelative(path: Path): Result<Path>
  {
    var normalised := Text.Strip(path);
    if Safe(normalised) then Ok(normalised) else Err(UnsafePath(path))
  }

  // A tracked path that git prints without quotes and the code reads back unchanged.
  ghost predicate Plain(path: Path)
  {
    Text.Strip(path) == path && Safe(path) && forall c :: c in path ==> ' ' <= c <= '~' && c !in "\"\\"
  }

  /******* Diffs *******/

  // One line of `git diff --name-status`.  A file whose mode or type changed is
  // listed like one whose content did.
  datatype Change =
    | Added(path: Path)
    | Modified(path: Path)
    | Deleted(path: Path)
    | Renamed(from: Path, to: Path)
    | Copied(from: Path, to: Path)

  // What one line of the diff says is so.
  ghost predicate True(base: Commit, head: Commit, c: Change)
  {
    match c
    case Added(p) => p !in base && p in head
    case Modified(p) => p in base && p in head
    case Deleted(p) => p in base && p !in head
    case Renamed(from, to) => from in base && from !in head && to !in base && to in head
    case Copied(from, to) => from in base && to !in base && to in head
  }

  // The line accounts for what happened to `p`.
  ghost predicate Accounts(c: Change, p: Path)
  {
    match c
    case Added(q) => q == p
    case Modified(q) => q == p
    case Deleted(q) => q == p
    case Renamed(from, to) => from == p || to == p
    case Copied(_, to) => to == p
  }

  ghost predicate Differs(base: Commit, head: Commit, p: Path)
  {
    if p in base then p !in head || base[p] != head[p] else p in head
  }

  // A diff whose lines are true and account for every difference.
  ghost predicate DiffOf(base: Commit, head: Commit, diff: seq<Change>)
  {
    && (forall c :: c in diff ==> True(base, head, c))
    && (forall p :: Differs(base, head, p) ==> exists c :: c in diff && Accounts(c, p))
  }

  /******* Plans *******/

  datatype Plan = Plan(toPush: seq<Path>, toDelete: seq<Path>)

  // The paths one diff line pushes and deletes, before they are checked.
  function Pushes(c: Change): seq<Path>
  {
    match c
    case Added(p) => [p]
    case Modified(p) => [p]
    case Deleted(p) => []
    case Renamed(from, to) => [to]
    case Copied(from, to) => [from]   // the code pushes the line's first path
  }

  function Deletes(c: Change): seq<Path>
  {
    match c
    case Deleted(p) => [p]
    case Renamed(from, to) => [from]
    case _ => []
  }

  // The stripped paths that are no gitlinks.
  function Kept(paths: seq<Path>, gitlinks: set<Path>): seq<Path>
  {
    if paths == [] then []
    else (if Text.Strip(paths[0]) in gitlinks then [] else [Text.Strip(paths[0])]) + Kept(paths[1..], gitlinks)
  }

  // The lines that are not blank.
  function NonBlank(lines: seq<Path>): seq<Path>
  {
    if lines == [] then []
    else (if Text.Strip(lines[0]) == [] then [] else [lines[0]]) + NonBlank(lines[1..])
  }

  ghost function PushAll(diff: seq<Change>, gitlinks: set<Path>, n: nat): seq<Path>
    requires n <= |diff|
  {
    if n == 0 then [] else PushAll(diff, gitlinks, n - 1) + Kept(Pushes(diff[n - 1]), gitlinks)
  }

  ghost function DeleteAll(diff: seq<Change>, gitlinks: set<Path>, n: nat): seq<Path>
    requires n <= |diff|
  {
    if n == 0 then [] else DeleteAll(diff, gitlinks, n - 1) + Kept(Deletes(diff[n - 1]), gitlinks)
  }

  // The plan of a sync from an earlier commit, and of a first sync.
  ghost function PlanOf(gitlinks: set<Path>, diff: seq<Change>): Plan
  {
    Plan(PushAll(diff, gitlinks, |diff|), DeleteAll(diff, gitlinks, |diff|))
  }

  ghost function FirstPlan(gitlinks: set<Path>, files: seq<Path>): Plan
  {
    Plan(Kept(NonBlank(files), gitlinks), [])
  }

  ghost predicate AllSafe(paths: seq<Path>)
  {
    forall p :: p in paths ==> Safe(p)
  }

  lemma {:induction false} KeptFirst(paths: seq<Path>, gitlinks: set<Path>, sofar: seq<Path>)
    requires paths != []
    ensures var path, rest := Text.Strip(paths[0]), Kept(paths[1..], gitlinks);
      if path in gitlinks then Kept(paths, gitlinks) == rest
      else
        && sofar + Kept(paths, gitlinks) == (sofar + [path]) + rest
        && (AllSafe(Kept(paths, gitlinks)) <==> Safe(path) && AllSafe(rest))
  {
    var path, rest := Text.Strip(paths[0]), Kept(paths[1..], gitlinks);
    if path !in gitlinks {
      assert Kept(paths, gitlinks) == [path] + rest;
      assert Kept(paths, gitlinks)[0] == path;
    }
  }

  // The gitlinks are left out before a path is checked.
  method AddChecked(paths: seq<Path>, gitlinks: set<Path>, sofar: seq<Path>) returns (r: Result<seq<Path>>)
    ensures r.Ok? <==> AllSafe(Kept(paths, gitlinks))
    ensures r.Ok? ==> r.value == sofar + Kept(paths, gitlinks)
    ensures r.Err? ==> r.reason.UnsafePath? && r.reason.path in paths && !Safe(Text.Strip(r.reason.path))
  {
    if paths == [] {
      return Ok(sofar);
    }
    KeptFirst(paths, gitlinks, sofar);
    var path := Text.Strip(paths[0]);
    if path in gitlinks {
      r := AddChecked(paths[1..], gitlinks, sofar);
    } else {
      match SafeRelative(paths[0])
      case Ok(safe) => r := AddChecked(paths[1..], gitlinks, sofar + [safe]);
      case Err(e) => r := Err(e);
    }
  }

  // Every path that the plan against `last` would push or delete is safe.
  ghost predicate SafeToPlan(last: Sha, headSha: Sha, gitlinks: set<Path>, files: seq<Path>, diff: seq<Change>)
  {
    if last == headSha then true
    else if last == "" then AllSafe(Kept(NonBlank(files), gitlinks))
    else AllSafe(PushAll(diff, gitlinks, |diff|)) && AllSafe(DeleteAll(diff, gitlinks, |diff|))
  }

  ghost function PlanFor(last: Sha, headSha: Sha, gitlinks: set<Path>, files: seq<Path>, diff: seq<Change>): Plan
  {
    if last == headSha then Plan([], [])
    else if last == "" then FirstPlan(gitlinks, files)
    else PlanOf(gitlinks, diff)
  }

  /**
   * The plan against `last`: nothing when HEAD is there already, every file on a
   * first sync, and otherwise what the diff says.  `diff` is the diff from `last` to
   * HEAD as it is by then, which may no longer be `headSha`; `gitlinks` and `files` list
   * the index, which may differ from both.
   */
  method ComputePlan(last: Sha, headSha: Sha, gitlinks: set<Path>, files: seq<Path>, diff: seq<Change>)
    returns (r: Result<Plan>)
    ensures r.Ok? <==> SafeToPlan(last, headSha, gitlinks, files, diff)
    ensures r.Ok? ==> r.value == PlanFor(last, headSha, gitlinks, files, diff)
    ensures r.Err? ==> r.reason.UnsafePath? && !Safe(Text.Strip(r.reason.path))
  {
    if last == headSha {
      return Ok(Plan([], []));
    }
    if last == "" {
      var checked := AddChecked(NonBlank(files), gitlinks, []);
      assert [] + Kept(NonBlank(files), gitlinks) == Kept(NonBlank(files), gitlinks);
      return match checked case Ok(paths) => Ok(Plan(paths, [])) case Err(e) => Err(e);
    }
    var toPush, toDelete: seq<Path> := [], [];
    for i := 0 to |diff|
      invariant toPush == PushAll(diff, gitlinks, i) && toDelete == DeleteAll(diff, gitlinks, i)
      invariant AllSafe(toPush) && AllSafe(toDelete)
    {
      var deletes := AddChecked(Deletes(diff[i]), gitlinks, toDelete);
      if deletes.Err? {
        UnsafeSoFar(diff, gitlinks, i + 1);
        return Err(deletes.reason);
      }
      var pushes := AddChecked(Pushes(diff[i]), gitlinks, toPush);
      if pushes.Err? {
        UnsafeSoFar(diff, gitlinks, i + 1);
        return Err(pushes.reason);
      }
      toPush, toDelete := pushes.value, deletes.value;
    }
    return Ok(Plan(toPush, toDelete));
  }

  // What a part of the diff plans is planned by all of it.
  lemma {:induction false} PushAllGrows(diff: seq<Change>, gitlinks: set<Path>, n: nat)
    requires n <= |diff|
    ensures PushAll(diff, gitlinks, n) <= PushAll(diff, gitlinks, |diff|)
    decreases |diff| - n
  {
    if n < |diff| {
      PushAllGrows(diff, gitlinks, n + 1);
    }
  }

  lemma {:induction false} DeleteAllGrows(diff: seq<Change>, gitlinks: set<Path>, n: nat)
    requires n <= |diff|
    ensures DeleteAll(diff, gitlinks, n) <= DeleteAll(diff, gitlinks, |diff|)
    decreases |diff| - n
  {
    if n < |diff| {
      DeleteAllGrows(diff, gitlinks, n + 1);
    }
  }

  lemma {:induction false} PrefixSafe(part: seq<Path>, all: seq<Path>)
    requires part <= all && AllSafe(all)
    ensures AllSafe(part)
  {
    assert forall i :: 0 <= i < |part| ==> part[i] == all[i] && all[i] in all;
  }

  lemma {:induction false} UnsafeSoFar(diff: seq<Change>, gitlinks: set<Path>, n: nat)
    requires n <= |diff|
    requires !AllSafe(PushAll(diff, gitlinks, n)) || !AllSafe(DeleteAll(diff, gitlinks, n))
    ensures !AllSafe(PushAll(diff, gitlinks, |diff|)) || !AllSafe(DeleteAll(diff, gitlinks, |diff|))
  {
    PushAllGrows(diff, gitlinks, n);
    DeleteAllGrows(diff, gitlinks, n);
    if AllSafe(PushAll(diff, gitlinks, |diff|)) {
      PrefixSafe(PushAll(diff, gitlinks, n), PushAll(diff, gitlinks, |diff|));
    }
    if AllSafe(DeleteAll(diff, gitlinks, |diff|)) {
      PrefixSafe(DeleteAll(diff, gitlinks, n), DeleteAll(diff, gitlinks, |diff|));
    }
  }

  /******* Applying a plan *******/

  datatype Op = Push(path: Path) | Delete(path: Path)

  function Ops(plan: Plan): seq<Op>
  {
    seq(|plan.toPush|, i requires 0 <= i < |plan.toPush| => Push(plan.toPush[i])) +
    seq(|plan.toDelete|, i requires 0 <= i < |plan.toDelete| => Delete(plan.toDelete[i]))
  }

  // Every file that the first `n` operations push exists in the commit.
  ghost predicate Pushable(head: Commit, ops: seq<Op>, n: nat)
    requires n <= |ops|
  {
    forall i :: 0 <= i < n && ops[i].Push? ==> ops[i].path in Visible(head)
  }

  // The remote tree after the first `n` operations.
  ghost function TreeAfter(tree: Tree, head: Commit, ops: seq<Op>, n: nat): Tree
    requires n <= |ops| && Pushable(head, ops, n)
  {
    if n == 0 then tree
    else
      var before := TreeAfter(tree, head, ops, n - 1);
      match ops[n - 1]
      case Push(p) => before[p := Visible(head)[p]]
      case Delete(p) => before - {p}
  }

  // Every file of the plan exists in the commit.
  ghost predicate Possible(head: Commit, plan: Plan)
  {
    Pushable(head, Ops(plan), |Ops(plan)|)
  }

  // The remote tree after the whole plan.
  ghost function Synced(tree: Tree, head: Commit, plan: Plan): Tree
    requires Possible(head, plan)
  {
    TreeAfter(tree, head, Ops(plan), |Ops(plan)|)
  }

  // Where an attempt broke off: after `done` operations, and, if the next one was
  // pushing a file, perhaps leaving something else of the file behind.
  datatype Cut = Cut(done: nat, torn: Option<Bytes>)

  ghost predicate TornAt(ops: seq<Op>, cut: Cut, p: Path)
  {
    cut.torn.Some? && cut.done < |ops| && ops[cut.done] == Push(p)
  }

  ghost predicate CutOf(head: Commit, ops: seq<Op>, cut: Cut)
  {
    cut.done <= |ops| && Pushable(head, ops, cut.done)
  }

  // The remote tree after an attempt that broke off.
  ghost function Broken(tree: Tree, head: Commit, ops: seq<Op>, cut: Cut): Tree
    requires CutOf(head, ops, cut)
  {
    var after := TreeAfter(tree, head, ops, cut.done);
    if cut.torn.Some? && cut.done < |ops| && ops[cut.done].Push? then after[ops[cut.done].path := cut.torn.value]
    else after
  }

  // Pushing the file of the operation fails, for the commit has no such file.
  ghost predicate NoBlobAt(head: Commit, ops: seq<Op>, n: nat)
  {
    n < |ops| && ops[n].Push? && ops[n].path !in Visible(head)
  }

  // Why an attempt broke off: the first file that the commit does not have, or, if that
  // comes earlier, the connection.
  ghost predicate BreaksOff(head: Commit, ops: seq<Op>, failAt: Option<Cut>, cut: Cut, reason: SyncError)
  {
    && CutOf(head, ops, cut) && cut.done < |ops| && (failAt.Some? ==> cut.done <= failAt.value.done)
    && (if NoBlobAt(head, ops, cut.done)
        then cut.torn.None? && reason == NoSuchBlob(ops[cut.done].path)
        else failAt == Some(cut) && reason == TransferFailed(cut.done))
  }

  class Remote {
    var tree: Tree

    // `failAt` is where the connection fails.
    method ApplyPlan(plan: Plan, head: Commit, failAt: Option<Cut>) returns (r: Result<nat>, ghost cut: Cut)
      modifies this
      ensures CutOf(head, Ops(plan), cut) && tree == Broken(old(tree), head, Ops(plan), cut)
      ensures r.Ok? ==> cut == Cut(|Ops(plan)|, None) && r.value == |Ops(plan)|
      ensures r.Ok? <==> Possible(head, plan) && (failAt.None? || failAt.value.done >= |Ops(plan)|)
      ensures r.Err? ==> BreaksOff(head, Ops(plan), failAt, cut, r.reason)
    {
      var ops := Ops(plan);
      var changed := 0;
      while changed < |ops|
        invariant changed <= |ops| && Pushable(head, ops, changed)
        invariant tree == TreeAfter(old(tree), head, ops, changed)
        invariant failAt.Some? ==> changed <= failAt.value.done
      {
        var op := ops[changed];
        if op.Push? && op.path !in Visible(head) {
          return Err(NoSuchBlob(op.path)), Cut(changed, None);
        }
        if failAt.Some? && failAt.value.done == changed {
          if failAt.value.torn.Some? && op.Push? {
            tree := tree[op.path := failAt.value.torn.value];
          }
          return Err(TransferFailed(changed)), failAt.value;
        }
        match op {
          case Push(p) => tree := tree[p := Visible(head)[p]];
          case Delete(p) => tree := tree - {p};
        }
        changed := changed + 1;
      }
      return Ok(changed), Cut(changed, None);
    }

    /**
     * A whole sync: the new pointer is HEAD's on success, and none on failure, so
     * that a failed sync is computed again from the same commit.
     */
    method SyncTransport(last: Sha, headSha: Sha, head: Commit, gitlinks: set<Path>, files: seq<Path>,
                         diff: seq<Change>, failAt: Option<Cut>)
      returns (ok: bool, filesChanged: nat, pointer: Sha, ghost cut: Cut)
      modifies this
      ensures ok ==> pointer == headSha
      ensures !ok ==> pointer == "" && filesChanged == 0
      ensures var plan := PlanFor(last, headSha, gitlinks, files, diff);
        && (ok <==> && SafeToPlan(last, headSha, gitlinks, files, diff) && Possible(head, plan)
                    && (failAt.None? || failAt.value.done >= |Ops(plan)|))
        && (ok ==> filesChanged == |Ops(plan)| && tree == Synced(old(tree), head, plan))
        && (!SafeToPlan(last, headSha, gitlinks, files, diff) ==> tree == old(tree))
        && (!ok && SafeToPlan(last, headSha, gitlinks, files, diff) ==>
              && (exists reason :: BreaksOff(head, Ops(plan), failAt, cut, reason))
              && tree == Broken(old(tree), head, Ops(plan), cut))
    {
      cut := Cut(0, None);
      var plan := ComputePlan(last, headSha, gitlinks, files, diff);
      if plan.Err? {
        return false, 0, "", Cut(0, None);
      }
      if plan.value.toPush == [] && plan.value.toDelete == [] {
        return true, 0, headSha, Cut(0, None);
      }
      var changed;
      changed, cut := ApplyPlan(plan.value, head, failAt);
      match changed
      case Err(_) => return false, 0, "", cut;
      case Ok(count) => return true, count, headSha, cut;
    }
  }
}
