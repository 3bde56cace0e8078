/** Rows that stay on disk after their session has left memory: where they come from, and when they come back. */
module SessionStrays {
  import opened Sessions
  import opened SessionsLaws

  /******* What a call does to one row *******/

  // The call starts a session under this key.
  ghost predicate Starts(op: Op, k: Key)
  {
    op.New? && op.key == k
  }

  // The call deletes the row: a drop, the visit that finds the session lapsed, a sweep
  // that takes it out, or a restart that finds it stale, and the deletion succeeds.
  ghost predicate Deletes(s: State, op: Op, c: Config, k: Key)
  {
    match op
    case New(_, _, _, _, _, dropped, forgot, _) => k in dropped && forgot.Up?
    case Get(now, key, db) => key == k && k in s.memory && !Fresh(s.memory[k], now, c) && db.Up?
    case Drop(_, key, db) => key == k && db.Up?
    case Restart(now, readable, deletable) => readable && deletable && k in s.disk && !Fresh(s.disk[k], now, c)
  }

  // The call takes the session out of memory and leaves its row.
  ghost predicate LeavesRow(s: State, op: Op, c: Config, k: Key)
  {
    k in s.disk &&
    match op
    case New(_, _, _, _, _, dropped, forgot, _) => k in dropped && !forgot.Up?
    case Get(now, key, db) => key == k && k in s.memory && !Fresh(s.memory[k], now, c) && !db.Up?
    case Drop(_, key, db) => key == k && !db.Up?
    case Restart(now, readable, deletable) => !readable || (!deletable && !Fresh(s.disk[k], now, c))
  }

  // A restart takes the session up again.
  ghost predicate Restores(s: State, op: Op, c: Config, k: Key)
  {
    op.Restart? && op.readable && k in s.disk && Fresh(s.disk[k], op.now, c)
  }

  // The row is there and its session is not.
  ghost predicate Stray(s: State, k: Key)
  {
    k in s.disk && k !in s.memory
  }

  lemma {:induction false} RowStep(s: State, op: Op, c: Config, k: Key)
    requires k in s.disk && !Starts(op, k)
    ensures k in Apply(s, op, c).disk <==> !Deletes(s, op, c, k)
    ensures Deletes(s, op, c, k) ==> k !in Apply(s, op, c).memory
  {
  }

  lemma {:induction false} StrayStep(s: State, op: Op, c: Config, k: Key)
    requires !Starts(op, k) && (op.New? ==> op.dropped <= s.memory.Keys)
    ensures Stray(Apply(s, op, c), k) <==>
      LeavesRow(s, op, c, k) || (Stray(s, k) && !Deletes(s, op, c, k) && !Restores(s, op, c, k))
  {
    match op
    case New(_, _, _, _, _, _, _, _) =>
    case Get(_, _, _) =>
    case Drop(_, _, _) =>
    case Restart(_, _, _) =>
  }

  /******* Over runs *******/

  ghost predicate DeletedAt(r: Run, i: nat, k: Key)
    requires i < |r.ops|
  {
    Deletes(After(r, i), r.ops[i], r.config, k)
  }

  ghost predicate RestoredBy(r: Run, i: nat, k: Key)
    requires i < |r.ops|
  {
    Restores(After(r, i), r.ops[i], r.config, k)
  }

  ghost predicate LeftAt(r: Run, i: nat, k: Key)
    requires i < |r.ops|
  {
    LeavesRow(After(r, i), r.ops[i], r.config, k)
  }

  ghost predicate NotStarted(r: Run, m: nat, n: nat, k: Key)
    requires m <= n <= |r.ops|
  {
    forall i :: m <= i < n ==> !Starts(r.ops[i], k)
  }

  /**
   * A row that is on disk at one time is there at a later one, with no session started
   * under its key in between, exactly if no call in between deleted it; and when it is
   * gone, so is its session.
   */
  lemma {:induction false} RowStays(r: Run, m: nat, n: nat, k: Key)
    requires m <= n <= |r.ops| && k in After(r, m).disk && NotStarted(r, m, n, k)
    ensures k in After(r, n).disk <==> forall i :: m <= i < n ==> !DeletedAt(r, i, k)
    ensures k !in After(r, n).disk ==> k !in After(r, n).memory
  {
    if m < n {
      RowStays(r, m, n - 1, k);
      assert !Starts(r.ops[n - 1], k);
      if k in After(r, n - 1).disk {
        RowStep(After(r, n - 1), r.ops[n - 1], r.config, k);
        assert k in After(r, n).disk <==> !DeletedAt(r, n - 1, k);
      } else {
        GoneStep(After(r, n - 1), r.ops[n - 1], r.config, k);
      }
    }
  }

  // Since call `i` left the row behind, nothing deleted it or took its session up again.
  ghost predicate StrayFrom(r: Run, i: nat, n: nat, k: Key)
    requires i < n <= |r.ops|
  {
    LeftAt(r, i, k) && forall j :: i < j < n ==> !DeletedAt(r, j, k) && !RestoredBy(r, j, k)
  }

  // No session is started under the key of a row.
  lemma {:induction false} StrayStepAt(r: Run, n: nat, k: Key)
    requires Possible(r) && n < |r.ops|
    ensures Stray(After(r, n + 1), k) <==>
      LeftAt(r, n, k) || (Stray(After(r, n), k) && !DeletedAt(r, n, k) && !RestoredBy(r, n, k))
  {
    assert EnabledAt(r, n);
    var s, op := After(r, n), r.ops[n];
    if Starts(op, k) {
      assert k in Apply(s, op, r.config).memory;
    } else {
      StrayStep(s, op, r.config, k);
    }
  }

  /**
   * Where strays come from: a row without its session is there exactly if some call
   * took the session out of memory while its row was not deleted, or some restart did
   * not read it, and no call since has deleted the row or taken the session up again.
   */
  lemma {:induction false} StraysComeFrom(r: Run, n: nat, k: Key)
    requires Possible(r) && n <= |r.ops|
    ensures Stray(After(r, n), k) <==> exists i :: 0 <= i < n && StrayFrom(r, i, n, k)
  {
    if n > 0 {
      StraysComeFrom(r, n - 1, k);
      StrayStepAt(r, n - 1, k);
      assert StrayFrom(r, n - 1, n, k) <==> LeftAt(r, n - 1, k);
      forall i | 0 <= i < n - 1
        ensures StrayFrom(r, i, n, k) <==>
          StrayFrom(r, i, n - 1, k) && !DeletedAt(r, n - 1, k) && !RestoredBy(r, n - 1, k)
      {
      }
      if Stray(After(r, n), k) && !LeftAt(r, n - 1, k) {
        var i :| 0 <= i < n - 1 && StrayFrom(r, i, n - 1, k);
        assert StrayFrom(r, i, n, k);
      }
      if i :| 0 <= i < n && StrayFrom(r, i, n, k) && i < n - 1 {
        assert StrayFrom(r, i, n - 1, k);
      }
    }
  }

  /**
   * What a restart restores beyond what memory would accept, in any run: exactly the
   * strays whose row is still good.
   */
  lemma {:induction false} OnlyStraysComeBack(r: Run, now: real, k: Key)
    requires Possible(r) && now >= Clock(r, |r.ops|)
    ensures var s, c := After(r, |r.ops|), r.config;
      RestoredAt(s, k, now, c) && !Accepted(s, k, now, c) <==>
      k in s.disk && Fresh(s.disk[k], now, c) && exists i :: 0 <= i < |r.ops| && StrayFrom(r, i, |r.ops|, k)
  {
    var n := |r.ops|;
    RunsAreConsistent(r, n);
    assert KeyConsistent(After(r, n), k, Clock(r, n), r.config);
    StraysComeFrom(r, n, k);
  }

  /******* Dropped sessions *******/

  // As long as its session is not in memory, a row does not change.
  lemma {:induction false} StrayIsFrozen(r: Run, m: nat, n: nat, k: Key)
    requires m <= n <= |r.ops| && NotStarted(r, m, n, k)
    requires forall j :: m <= j < n ==> k !in After(r, j).memory
    ensures k in After(r, n).disk ==> k in After(r, m).disk && After(r, n).disk[k] == After(r, m).disk[k]
  {
    if m < n {
      StrayIsFrozen(r, m, n - 1, k);
      assert !Starts(r.ops[n - 1], k);
      FrozenStep(After(r, n - 1), r.ops[n - 1], r.config, k);
    }
  }

  lemma {:induction false} FrozenStep(s: State, op: Op, c: Config, k: Key)
    requires k !in s.memory && !Starts(op, k)
    ensures var s' := Apply(s, op, c); k in s'.disk ==> k in s.disk && s'.disk[k] == s.disk[k]
  {
  }

  /**
   * A dropped session comes back, restarts of any number included, exactly at the first
   * restart that can read its row, if the row was not deleted with the session, nor by
   * any call since, and is still good then as it was at the drop.
   */
  lemma {:induction false} DroppedComesBack(r: Run, i: nat, n: nat, k: Key, db: Db)
    requires i < n < |r.ops| && r.ops[i] == Drop(r.ops[i].now, k, db) && r.ops[n].Restart?
    requires NotStarted(r, i, n, k) && forall j :: i < j <= n ==> k !in After(r, j).memory
    ensures k in After(r, n + 1).memory <==>
      && !db.Up? && k in After(r, i).disk && (forall j :: i < j < n ==> !DeletedAt(r, j, k))
      && r.ops[n].readable && Fresh(After(r, i).disk[k], r.ops[n].now, r.config)
  {
    var dropped := After(r, i + 1);
    assert dropped == Dropped(After(r, i), k, db);
    StrayIsFrozen(r, i + 1, n, k);
    if k in dropped.disk {
      RowStays(r, i + 1, n, k);
    }
  }

  /**
   * A dropped session whose deletion gets through never comes back, in any run,
   * whatever fails later, unless a new session is started under its key.
   */
  lemma {:induction false} DroppedStaysDropped(r: Run, i: nat, n: nat, k: Key)
    requires i < n <= |r.ops| && r.ops[i] == Drop(r.ops[i].now, k, Up) && NotStarted(r, i, n, k)
    ensures k !in After(r, n).memory && k !in After(r, n).disk
  {
    assert After(r, i + 1) == Dropped(After(r, i), k, Up);
    assert forall j :: i + 1 <= j < n ==> !Starts(r.ops[j], k);
    GoneStaysGone(r, i + 1, n, k);
  }

  /**
   * A user logs in and out, the deletion fails, the server restarts: the session is
   * there again.
   */
  lemma {:induction false} DroppedIsBack(c: Config, k: Key, user: string, role: string, csrf: string) returns (r: Run)
    requires c.ttl > 0.0 && c.idle >= 0.0
    ensures Possible(r) && r.config == c && |r.ops| == 3 && r.ops[1] == Drop(0.0, k, Failing)
    ensures k in After(r, 3).memory
  {
    var login := New(0.0, k, user, role, csrf, {}, Up, Up);
    r := Run([login, Drop(0.0, k, Failing), Restart(0.0, true, true)], c);
    var empty: map<Key, Record> := map[];
    assert After(r, 0) == State(map[], map[], map[]);
    assert Expired(empty, 0.0) == {} && empty.Keys == {} && empty.Keys - {} == {};
    assert EnabledAt(r, 0);
    var record := Record(user, role, 0.0 + c.ttl, 0.0, csrf);
    assert After(r, 1) == State(map[k := record], map[k := 0.0], map[k := record]);
    assert EnabledAt(r, 1);
    assert After(r, 2).memory == map[] && After(r, 2).disk == map[k := record];
    assert EnabledAt(r, 2);
  }
}
