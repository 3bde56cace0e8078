/** Every session, in memory or on disk, is the one that a login started. */
module SessionOrigins {
  import opened Sessions
  import opened SessionsLaws
  import opened SessionStrays

  // Call `i` started a session under this key, and no later one has.
  ghost predicate StartedAt(r: Run, n: nat, k: Key, i: nat)
    requires n <= |r.ops|
  {
    i < n && Starts(r.ops[i], k) && NotStarted(r, i + 1, n, k)
  }

  // The record has the user, role, token and end of that login.
  ghost predicate OfLogin(r: Run, i: nat, record: Record)
    requires i < |r.ops| && r.ops[i].New?
  {
    IssuedTo(record, r.ops[i].user, r.ops[i].role, r.ops[i].csrf, r.ops[i].now, r.config)
  }

  ghost predicate HasOrigin(r: Run, n: nat, k: Key, record: Record)
    requires n <= |r.ops|
  {
    exists i :: StartedAt(r, n, k, i) && OfLogin(r, i, record)
  }

  // Whose session a record is.
  ghost predicate SameSession(a: Record, b: Record)
  {
    a.(last := b.last) == b
  }

  // A call that starts no session under the key changes nothing but the idle clock.
  lemma {:induction false} SessionStays(s: State, op: Op, c: Config, k: Key)
    requires !Starts(op, k)
    ensures var s' := Apply(s, op, c);
      && (k in s'.memory ==>
            (k in s.memory && SameSession(s'.memory[k], s.memory[k])) ||
            (op.Restart? && k in s.disk && SameSession(s'.memory[k], s.disk[k])))
      && (k in s'.disk ==>
            (k in s.disk && SameSession(s'.disk[k], s.disk[k])) ||
            (k in s.memory && SameSession(s'.disk[k], s.memory[k])))
  {
  }

  lemma {:induction false} OriginStays(r: Run, n: nat, k: Key, record: Record, record': Record)
    requires n < |r.ops| && !Starts(r.ops[n], k) && HasOrigin(r, n, k, record) && SameSession(record', record)
    ensures HasOrigin(r, n + 1, k, record')
  {
    var i :| StartedAt(r, n, k, i) && OfLogin(r, i, record);
    assert StartedAt(r, n + 1, k, i);
  }

  lemma {:induction false} NewRecord(s: State, op: Op, clock: real, c: Config)
    requires op.New? && Enabled(s, op, clock, c)
    ensures var s' := Apply(s, op, c);
      && op.key in s'.memory && IssuedTo(s'.memory[op.key], op.user, op.role, op.csrf, op.now, c)
      && (op.key in s'.disk ==> s'.disk[op.key] == s'.memory[op.key])
  {
  }

  ghost predicate Logins(r: Run, n: nat, k: Key, records: map<Key, Record>)
    requires n <= |r.ops|
  {
    k in records ==> HasOrigin(r, n, k, records[k])
  }

  lemma {:induction false} MemoryStep(r: Run, n: nat, k: Key, s: State, s': State)
    requires n < |r.ops| && !Starts(r.ops[n], k) && s' == Apply(s, r.ops[n], r.config)
    requires Logins(r, n, k, s.memory) && Logins(r, n, k, s.disk)
    ensures Logins(r, n + 1, k, s'.memory)
  {
    SessionStays(s, r.ops[n], r.config, k);
    if k in s'.memory {
      if k in s.memory && SameSession(s'.memory[k], s.memory[k]) {
        OriginStays(r, n, k, s.memory[k], s'.memory[k]);
      } else {
        OriginStays(r, n, k, s.disk[k], s'.memory[k]);
      }
    }
  }

  lemma {:induction false} DiskStep(r: Run, n: nat, k: Key, s: State, s': State)
    requires n < |r.ops| && !Starts(r.ops[n], k) && s' == Apply(s, r.ops[n], r.config)
    requires Logins(r, n, k, s.memory) && Logins(r, n, k, s.disk)
    ensures Logins(r, n + 1, k, s'.disk)
  {
    SessionStays(s, r.ops[n], r.config, k);
    if k in s'.disk {
      if k in s.disk && SameSession(s'.disk[k], s.disk[k]) {
        OriginStays(r, n, k, s.disk[k], s'.disk[k]);
      } else {
        OriginStays(r, n, k, s.memory[k], s'.disk[k]);
      }
    }
  }

  lemma {:induction false} LoginStep(r: Run, n: nat, k: Key, s: State, s': State, clock: real)
    requires n < |r.ops| && Starts(r.ops[n], k)
    requires Enabled(s, r.ops[n], clock, r.config) && s' == Apply(s, r.ops[n], r.config)
    ensures Logins(r, n + 1, k, s'.memory) && Logins(r, n + 1, k, s'.disk)
  {
    NewRecord(s, r.ops[n], clock, r.config);
    assert StartedAt(r, n + 1, k, n) && OfLogin(r, n, s'.memory[k]);
  }

  lemma {:induction false} OriginStep(r: Run, n: nat, k: Key, s: State, s': State, clock: real)
    requires n < |r.ops| && Logins(r, n, k, s.memory) && Logins(r, n, k, s.disk)
    requires Enabled(s, r.ops[n], clock, r.config) && s' == Apply(s, r.ops[n], r.config)
    ensures Logins(r, n + 1, k, s'.memory) && Logins(r, n + 1, k, s'.disk)
  {
    if Starts(r.ops[n], k) {
      LoginStep(r, n, k, s, s', clock);
    } else {
      MemoryStep(r, n, k, s, s');
      DiskStep(r, n, k, s, s');
    }
  }

  /**
   * In every run, through requests, failures and restarts, whatever is held under a key
   * in memory or on disk is the session of the last login under it: the same user, role,
   * token and end.
   */
  lemma {:induction false} RecordsAreLogins(r: Run, n: nat, k: Key)
    requires Possible(r) && n <= |r.ops|
    ensures Logins(r, n, k, After(r, n).memory) && Logins(r, n, k, After(r, n).disk)
  {
    if n > 0 {
      RecordsAreLogins(r, n - 1, k);
      assert EnabledAt(r, n - 1);
      OriginStep(r, n - 1, k, After(r, n - 1), After(r, n), Clock(r, n - 1));
    }
  }
}
