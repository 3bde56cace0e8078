/** Laws of the session table over whole runs, with and without database failures. */
module SessionsLaws {
  import opened Sessions
  import opened Sets

  /******* Runs *******/

  // One call, with what the database does to each of its statements.
  datatype Op =
    | New(now: real, key: Key, user: string, role: string, csrf: string, dropped: set<Key>, forgot: Db, saved: Db)
    | Get(now: real, key: Key, db: Db)
    | Drop(now: real, key: Key, db: Db)
    | Restart(now: real, readable: bool, deletable: bool)

  ghost function Apply(s: State, op: Op, c: Config): State
  {
    match op
    case New(now, key, user, role, csrf, dropped, forgot, saved) =>
      Created(s, now, key, user, role, csrf, c, dropped, forgot, saved)
    case Get(now, key, db) => Got(s, now, key, c, db)
    case Drop(_, key, db) => Dropped(s, key, db)
    case Restart(now, readable, deletable) => Restarted(s, now, c, readable, deletable)
  }

  // The clock does not run backwards, and the key of a new session is new.
  ghost predicate Enabled(s: State, op: Op, clock: real, c: Config)
  {
    && op.now >= clock
    && (op.New? ==>
          Swept(s.memory, op.now, c, op.dropped) && op.key !in s.memory && op.key !in s.disk && op.key !in s.persisted)
  }

  // Every statement of the call succeeds.
  ghost predicate Healthy(op: Op)
  {
    match op
    case New(_, _, _, _, _, _, forgot, saved) => forgot.Up? && saved.Up?
    case Get(_, _, db) => db.Up?
    case Drop(_, _, db) => db.Up?
    case Restart(_, readable, deletable) => readable && deletable
  }

  datatype Run = Run(ops: seq<Op>, config: Config)

  // The state after the first `n` calls, starting with an empty table and an empty disk.
  ghost function After(r: Run, n: nat): State
    requires n <= |r.ops|
  {
    if n == 0 then State(map[], map[], map[]) else Apply(After(r, n - 1), r.ops[n - 1], r.config)
  }

  ghost function Clock(r: Run, n: nat): real
    requires n <= |r.ops|
  {
    if n == 0 then 0.0 else r.ops[n - 1].now
  }

  ghost predicate EnabledAt(r: Run, i: nat)
    requires i < |r.ops|
  {
    Enabled(After(r, i), r.ops[i], Clock(r, i), r.config)
  }

  ghost predicate Possible(r: Run)
  {
    forall i :: 0 <= i < |r.ops| ==> EnabledAt(r, i)
  }

  ghost predicate HealthyUpTo(r: Run, n: nat)
    requires n <= |r.ops|
  {
    forall i :: 0 <= i < n ==> Healthy(r.ops[i])
  }

  /******* What every state keeps *******/

  // Memory and disk agree on who a session is for and when it ends; the idle clock
  // on disk may be behind, never ahead.
  ghost predicate Mirrors(m: Record, d: Record)
  {
    d.(last := m.last) == m && d.last <= m.last
  }

  ghost predicate Timely(r: Record, clock: real, c: Config)
  {
    r.last <= clock && r.expiry <= clock + c.ttl
  }

  ghost predicate KeyConsistent(s: State, k: Key, clock: real, c: Config)
  {
    && (k in s.memory ==> Timely(s.memory[k], clock, c))
    && (k in s.disk ==> Timely(s.disk[k], clock, c))
    && (k in s.memory && k in s.disk ==> Mirrors(s.memory[k], s.disk[k]))
  }

  ghost predicate Consistent(s: State, clock: real, c: Config)
  {
    forall k :: KeyConsistent(s, k, clock, c)
  }

  // The session is in memory and on disk, or in neither; its idle clock lags by no
  // more than a minute.
  ghost predicate KeyInStep(s: State, k: Key)
  {
    && (k in s.memory <==> k in s.disk) && (k in s.memory <==> k in s.persisted)
    && (k in s.memory ==> s.persisted[k] == s.disk[k].last && s.memory[k].last <= s.disk[k].last + LAST_PERSIST)
  }

  ghost predicate InStep(s: State, c: Config)
  {
    (forall k :: KeyInStep(s, k)) && |s.memory.Keys| <= c.max + 1
  }

  lemma {:induction false} LaterConsistent(s: State, k: Key, clock: real, now: real, c: Config)
    requires KeyConsistent(s, k, clock, c) && clock <= now
    ensures KeyConsistent(s, k, now, c)
  {
  }

  lemma {:induction false} ForgetConsistent(s: State, keys: set<Key>, db: Db, k: Key, clock: real, c: Config)
    requires KeyConsistent(s, k, clock, c)
    ensures KeyConsistent(Forget(s.(memory := s.memory - keys), keys, db), k, clock, c)
  {
  }

  lemma {:induction false} GotConsistent(s: State, now: real, key: Key, db: Db, k: Key, c: Config)
    requires KeyConsistent(s, k, now, c)
    ensures KeyConsistent(Got(s, now, key, c, db), k, now, c)
  {
    if key in s.memory && !Fresh(s.memory[key], now, c) {
      ForgetConsistent(s, {key}, db, k, now, c);
    }
  }

  lemma {:induction false} CreatedConsistent(s: State, op: Op, k: Key, c: Config)
    requires op.New? && KeyConsistent(s, k, op.now, c) && op.key !in s.memory && op.key !in s.disk
    ensures KeyConsistent(Apply(s, op, c), k, op.now, c)
  {
    ForgetConsistent(s, op.dropped, op.forgot, k, op.now, c);
  }

  lemma {:induction false} RestartConsistent(s: State, now: real, readable: bool, deletable: bool, k: Key, c: Config)
    requires KeyConsistent(s, k, now, c)
    ensures KeyConsistent(Restarted(s, now, c, readable, deletable), k, now, c)
  {
  }

  lemma {:induction false} KeyConsistentStep(s: State, op: Op, clock: real, c: Config, k: Key)
    requires KeyConsistent(s, k, clock, c) && Enabled(s, op, clock, c)
    ensures KeyConsistent(Apply(s, op, c), k, op.now, c)
  {
    LaterConsistent(s, k, clock, op.now, c);
    match op
    case New(_, _, _, _, _, _, _, _) => CreatedConsistent(s, op, k, c);
    case Get(now, key, db) => GotConsistent(s, now, key, db, k, c);
    case Drop(now, key, db) => ForgetConsistent(s, {key}, db, k, now, c);
    case Restart(now, readable, deletable) => RestartConsistent(s, now, readable, deletable, k, c);
  }

  lemma {:induction false} ConsistentStep(s: State, op: Op, clock: real, c: Config)
    requires Consistent(s, clock, c) && Enabled(s, op, clock, c)
    ensures Consistent(Apply(s, op, c), op.now, c)
  {
    var after := Apply(s, op, c);
    forall k ensures KeyConsistent(after, k, op.now, c) {
      assert KeyConsistent(s, k, clock, c);
      KeyConsistentStep(s, op, clock, c, k);
    }
  }

  lemma {:induction false} KeyInStepStep(s: State, op: Op, clock: real, c: Config, k: Key)
    requires Enabled(s, op, clock, c) && Healthy(op) && KeyInStep(s, k)
    ensures KeyInStep(Apply(s, op, c), k)
  {
    match op
    case New(now, key, user, role, csrf, dropped, forgot, saved) =>
    case Get(now, key, db) =>
    case Drop(_, key, db) =>
    case Restart(now, readable, deletable) =>
  }

  // A sweep leaves no more sessions than the limit.
  lemma {:induction false} SweepMakesRoom(memory: map<Key, Record>, now: real, c: Config, dropped: set<Key>)
    requires Swept(memory, now, c, dropped)
    ensures |(memory - dropped).Keys| <= c.max
  {
    var expired := Expired(memory, now);
    assert (memory - dropped).Keys == (memory.Keys - expired) - (dropped - expired);
  }

  lemma {:induction false} KeysAfter(s: State, op: Op, c: Config)
    requires !op.Restart?
    ensures op.New? ==> Apply(s, op, c).memory.Keys == (s.memory - op.dropped).Keys + {op.key}
    ensures !op.New? ==> Apply(s, op, c).memory.Keys <= s.memory.Keys
  {
  }

  // The table never holds more than one session over the limit after a call that is
  // no restart, whatever it held before a new session.
  lemma {:induction false} SizeStep(s: State, op: Op, clock: real, c: Config)
    requires Enabled(s, op, clock, c) && !op.Restart? && (op.New? || |s.memory.Keys| <= c.max + 1)
    ensures |Apply(s, op, c).memory.Keys| <= c.max + 1
  {
    KeysAfter(s, op, c);
    if op.New? {
      SweepMakesRoom(s.memory, op.now, c, op.dropped);
    } else {
      SubsetSize(Apply(s, op, c).memory.Keys, s.memory.Keys);
    }
  }

  lemma {:induction false} InStepStep(s: State, op: Op, clock: real, c: Config)
    requires InStep(s, c) && Enabled(s, op, clock, c) && Healthy(op)
    ensures InStep(Apply(s, op, c), c)
  {
    var after := Apply(s, op, c);
    forall k ensures KeyInStep(after, k) {
      assert KeyInStep(s, k);
      KeyInStepStep(s, op, clock, c, k);
    }
    if op.Restart? {
      forall k | k in after.memory ensures k in s.memory {
        assert KeyInStep(s, k);
      }
      SubsetSize(after.memory.Keys, s.memory.Keys);
    } else {
      SizeStep(s, op, clock, c);
    }
  }

  /**
   * In every run, whatever the database does, memory and disk never disagree about
   * a session they both hold, and no session outlives its absolute end.
   */
  lemma {:induction false} RunsAreConsistent(r: Run, n: nat)
    requires Possible(r) && n <= |r.ops|
    ensures Consistent(After(r, n), Clock(r, n), r.config)
  {
    if n > 0 {
      RunsAreConsistent(r, n - 1);
      assert EnabledAt(r, n - 1);
      ConsistentStep(After(r, n - 1), r.ops[n - 1], Clock(r, n - 1), r.config);
    }
  }

  lemma {:induction false} StartInStep(c: Config)
    ensures InStep(State(map[], map[], map[]), c)
  {
    var empty: map<Key, Record> := map[];
    assert empty.Keys == {};
  }

  // Up to here, every call of the run succeeded and the state is in step.
  ghost predicate InStepSoFar(r: Run, n: nat)
    requires n <= |r.ops|
  {
    HealthyUpTo(r, n) ==> InStep(After(r, n), r.config)
  }

  lemma {:induction false} InStepAt(r: Run, i: nat)
    requires Possible(r) && i < |r.ops| && InStepSoFar(r, i)
    ensures InStepSoFar(r, i + 1)
  {
    assert EnabledAt(r, i);
    if HealthyUpTo(r, i + 1) {
      assert HealthyUpTo(r, i);
      InStepStep(After(r, i), r.ops[i], Clock(r, i), r.config);
    }
  }

  /**
   * While every statement succeeds, memory and disk hold the same keys, no idle
   * clock on disk lags by more than a minute, and there are at most `max + 1` sessions.
   */
  lemma {:induction false} HealthyRunsStayInStep(r: Run, n: nat)
    requires Possible(r) && n <= |r.ops| && HealthyUpTo(r, n)
    ensures InStep(After(r, n), r.config)
  {
    StartInStep(r.config);
    assert InStepSoFar(r, 0);
    for i := 0 to n
      invariant InStepSoFar(r, i)
    {
      InStepAt(r, i);
    }
  }

  /******* Restarts *******/

  // Memory would still accept the session.
  ghost predicate Accepted(s: State, k: Key, now: real, c: Config)
  {
    k in s.memory && Fresh(s.memory[k], now, c)
  }

  ghost predicate RestoredAt(s: State, k: Key, now: real, c: Config)
  {
    k in Restorable(s.disk, now, c)
  }

  // A restart restores the session only if memory would still accept it, for the same
  // user and with the same end, and loses an accepted one exactly if its clock on disk
  // has run out, which takes all but the last minute of the idle time.
  ghost predicate FaithfulRestart(s: State, now: real, c: Config, k: Key)
  {
    && (RestoredAt(s, k, now, c) ==> Accepted(s, k, now, c) && s.disk[k].(last := s.memory[k].last) == s.memory[k])
    && (Accepted(s, k, now, c) ==> k in s.disk && (RestoredAt(s, k, now, c) <==> now - s.disk[k].last <= c.idle))
    && (Accepted(s, k, now, c) && now - s.memory[k].last <= c.idle - LAST_PERSIST ==> RestoredAt(s, k, now, c))
  }

  lemma {:induction false} RestartRestores(s: State, clock: real, now: real, c: Config, k: Key)
    requires KeyConsistent(s, k, clock, c) && KeyInStep(s, k) && now >= clock
    ensures FaithfulRestart(s, now, c, k)
  {
  }

  /**
   * A restart after any run without failures is faithful to every session.
   */
  lemma {:induction false} RestartsAreFaithful(r: Run, now: real, k: Key)
    requires Possible(r) && HealthyUpTo(r, |r.ops|) && now >= Clock(r, |r.ops|)
    ensures FaithfulRestart(After(r, |r.ops|), now, r.config, k)
  {
    var n := |r.ops|;
    RunsAreConsistent(r, n);
    HealthyRunsStayInStep(r, n);
    assert KeyConsistent(After(r, n), k, Clock(r, n), r.config);
    assert KeyInStep(After(r, n), k);
    RestartRestores(After(r, n), Clock(r, n), now, r.config, k);
  }

  // A session that is nowhere stays nowhere: no call brings it back, restarts included.
  lemma {:induction false} GoneStaysGone(r: Run, m: nat, n: nat, k: Key)
    requires m <= n <= |r.ops| && k !in After(r, m).memory && k !in After(r, m).disk
    requires forall i :: m <= i < n ==> !(r.ops[i].New? && r.ops[i].key == k)
    ensures k !in After(r, n).memory && k !in After(r, n).disk
  {
    if m < n {
      GoneStaysGone(r, m, n - 1, k);
      GoneStep(After(r, n - 1), r.ops[n - 1], r.config, k);
    }
  }

  lemma {:induction false} GoneStep(s: State, op: Op, c: Config, k: Key)
    requires k !in s.memory && k !in s.disk && !(op.New? && op.key == k)
    ensures k !in Apply(s, op, c).memory && k !in Apply(s, op, c).disk
  {
  }

  /******* Failures cost no login *******/

  // The same call, but for what the database does.
  ghost predicate SameCall(a: Op, b: Op)
  {
    match a
    case New(now, key, user, role, csrf, dropped, _, _) =>
      b.New? && b == New(now, key, user, role, csrf, dropped, b.forgot, b.saved)
    case Get(now, key, _) => b.Get? && b == Get(now, key, b.db)
    case Drop(now, key, _) => b.Drop? && b == Drop(now, key, b.db)
    case Restart(_, _, _) => false
  }

  lemma {:induction false} SameCallSameMemory(s: State, t: State, a: Op, b: Op, c: Config)
    requires s.memory == t.memory && SameCall(a, b)
    ensures Apply(s, a, c).memory == Apply(t, b, c).memory
  {
  }

  /**
   * Until the next restart the database makes no difference to the sessions that
   * are accepted: the same calls leave the same table, whichever statements fail.
   */
  lemma {:induction false} FailuresAreInvisible(r: Run, t: Run, m: nat, n: nat)
    requires m <= n <= |r.ops| && n <= |t.ops| && r.config == t.config && After(r, m).memory == After(t, m).memory
    requires forall i :: m <= i < n ==> SameCall(r.ops[i], t.ops[i])
    ensures After(r, n).memory == After(t, n).memory
  {
    if m < n {
      FailuresAreInvisible(r, t, m, n - 1);
      SameCallSameMemory(After(r, n - 1), After(t, n - 1), r.ops[n - 1], t.ops[n - 1], r.config);
    }
  }
}
