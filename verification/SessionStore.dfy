/** The session table as a program that updates its own variables in place. */
module SessionTable {
  import opened Sessions
  import opened SessionsLaws
  import opened Wrappers

  // Memory and disk are as they were for this key.
  ghost predicate SameAt(s: State, s': State, k: Key)
  {
    && (k in s.memory <==> k in s'.memory) && (k in s.memory ==> s'.memory[k] == s.memory[k])
    && (k in s.disk <==> k in s'.disk) && (k in s.disk ==> s'.disk[k] == s.disk[k])
  }

  // A call keeps memory and disk consistent, and in step if all its statements succeed.
  lemma {:induction false} Kept(s: State, op: Op, before: real, c: Config)
    requires Consistent(s, before, c) && Enabled(s, op, before, c)
    ensures Consistent(Apply(s, op, c), op.now, c)
    ensures InStep(s, c) && Healthy(op) ==> InStep(Apply(s, op, c), c)
  {
    ConsistentStep(s, op, before, c);
    if InStep(s, c) && Healthy(op) {
      InStepStep(s, op, before, c);
    }
  }

  lemma {:induction false} Later(s: State, before: real, now: real, c: Config)
    requires Consistent(s, before, c) && before <= now
    ensures Consistent(s, now, c)
  {
    forall k ensures KeyConsistent(s, k, now, c) {
      assert KeyConsistent(s, k, before, c);
    }
  }

  // What a login means, under a new key.
  lemma {:induction false} NewEffect(s: State, op: Op, before: real, c: Config)
    requires Consistent(s, before, c) && op.New? && op.now >= before && Swept(s.memory, op.now, c, op.dropped)
    ensures var isNew := op.key !in s.memory && op.key !in s.disk && op.key !in s.persisted;
      && (isNew ==> Consistent(Apply(s, op, c), op.now, c))
      && (isNew && InStep(s, c) && op.forgot.Up? && op.saved.Up? ==> InStep(Apply(s, op, c), c))
    ensures Accepted(Apply(s, op, c), op.key, op.now, c) <==> c.ttl > 0.0 && c.idle >= 0.0
  {
    if op.key !in s.memory && op.key !in s.disk && op.key !in s.persisted {
      Kept(s, op, before, c);
    }
  }

  lemma {:induction false} GotElsewhere(s: State, now: real, key: Key, db: Db, c: Config)
    ensures var s' := Got(s, now, key, c, db);
      && (!Accepted(s, key, now, c) ==> key !in s'.memory)
      && (forall k :: k != key ==> SameAt(s, s', k))
  {
  }

  // What a request means for its session and the others.
  lemma {:induction false} GetEffect(s: State, now: real, key: Key, db: Db, before: real, c: Config)
    requires Consistent(s, before, c) && now >= before
    ensures var s' := Got(s, now, key, c, db);
      && Consistent(s', now, c) && (InStep(s, c) && db.Up? ==> InStep(s', c))
      && (!Accepted(s, key, now, c) ==> key !in s'.memory)
      && (forall k :: k != key ==> SameAt(s, s', k))
  {
    Kept(s, Get(now, key, db), before, c);
    GotElsewhere(s, now, key, db, c);
  }

  // What a drop means from then on, for this session and the others.
  lemma {:induction false} DropEffect(s: State, key: Key, db: Db, c: Config)
    ensures var s' := Dropped(s, key, db);
      && (forall now :: !Accepted(s', key, now, c))
      && (forall now :: RestoredAt(s', key, now, c) <==> !db.Up? && RestoredAt(s, key, now, c))
      && (forall k :: k != key ==> SameAt(s, s', k))
  {
  }

  lemma {:induction false} OneMoreTime(records: map<Key, Record>, k: Key, r: Record)
    requires k !in records
    ensures LastTimes(records[k := r]) == LastTimes(records)[k := r.last]
    ensures |records[k := r].Keys| == |records.Keys| + 1
  {
    assert records[k := r].Keys == records.Keys + {k};
  }

  class SessionStore {
    const config: Config
    var memory: map<Key, Record>
    var persisted: map<Key, real>
    var disk: map<Key, Record>
    ghost var clock: real

    ghost function View(): State
      reads this
    {
      State(memory, persisted, disk)
    }

    // Memory and disk agree on the sessions they both hold, as far as the clock has come.
    ghost predicate Valid()
      reads this
    {
      Consistent(View(), clock, config)
    }

    // Nothing is missing on disk and nothing is left over there.
    ghost predicate Healthy()
      reads this
    {
      InStep(View(), config)
    }

    constructor (config: Config)
      ensures this.config == config && View() == State(map[], map[], map[]) && clock == 0.0
      ensures Valid() && Healthy()
    {
      this.config := config;
      memory, persisted, disk, clock := map[], map[], map[], 0.0;
      new;
      StartInStep(config);
    }

    method PersistRecord(key: Key, r: Record, db: Db)
      modifies this`disk, this`persisted
      ensures View() == Persist(old(View()), key, r, db)
    {
      if db.Gone? {
        return;
      }
      if db.Up? {
        disk := disk[key := r];
        persisted := persisted[key := r.last];
      }
    }

    method ForgetKeys(keys: set<Key>, db: Db)
      modifies this`disk, this`persisted
      ensures View() == Forget(old(View()), keys, db)
    {
      if keys == {} || db.Gone? {
        return;
      }
      if db.Up? {
        disk := disk - keys;
      }
      persisted := persisted - keys;
    }

    // One of the sessions that expire first.
    method FirstToExpire() returns (key: Key)
      requires memory != map[]
      ensures key in memory && forall k :: k in memory ==> memory[key].expiry <= memory[k].expiry
    {
      var left := memory.Keys;
      key :| key in left;
      left := left - {key};
      while left != {}
        invariant key in memory && left <= memory.Keys
        invariant forall k :: k in memory && k !in left ==> memory[key].expiry <= memory[k].expiry
        decreases |left|
      {
        var k :| k in left;
        if memory[k].expiry < memory[key].expiry {
          key := k;
        }
        left := left - {k};
      }
    }

    // Drops the sessions that expire first until no more than the limit are left.
    method EvictOver() returns (evicted: set<Key>)
      modifies this`memory
      ensures evicted <= old(memory).Keys && memory == old(memory) - evicted
      ensures |evicted| == if |old(memory).Keys| > config.max then |old(memory).Keys| - config.max else 0
      ensures FirstOut(old(memory), evicted)
    {
      evicted := {};
      ghost var start := memory;
      while |memory.Keys| > config.max
        invariant evicted <= start.Keys && memory == start - evicted
        invariant |evicted| + |memory.Keys| == |start.Keys|
        invariant evicted != {} ==> |memory.Keys| >= config.max
        invariant FirstOut(start, evicted)
        decreases |memory.Keys|
      {
        var key := FirstToExpire();
        OneMoreOut(start, evicted, key);
        memory, evicted := memory - {key}, evicted + {key};
      }
    }

    method Sweep(now: real, db: Db) returns (dropped: set<Key>)
      modifies this`memory, this`disk, this`persisted
      ensures Swept(old(memory), now, config, dropped)
      ensures View() == Forget(old(View()).(memory := old(memory) - dropped), dropped, db)
      ensures Erased(old(View()), View(), dropped, db)
    {
      var expired := Expired(memory, now);
      memory := memory - expired;
      assert memory.Keys == old(memory).Keys - expired;
      var evicted := EvictOver();
      dropped := expired + evicted;
      assert dropped - expired == evicted;
      assert memory == old(memory) - dropped;
      ForgetKeys(dropped, db);
      ForgetErases(old(View()), dropped, db);
    }

    /**
     * A login: the expired sessions and those over the limit are gone, and the new one
     * is there, on disk too if it could be written.
     */
    method SessionNew(key: Key, user: string, role: string, csrf: string, now: real, forgot: Db, saved: Db)
      returns (ghost dropped: set<Key>)
      requires Valid() && now >= clock
      modifies this
      ensures Swept(old(memory), now, config, dropped) && clock == now
      ensures View() == Created(old(View()), now, key, user, role, csrf, config, dropped, forgot, saved)
      ensures old(key !in memory && key !in disk && key !in persisted) ==> Valid()
      ensures old(key !in memory && key !in disk && key !in persisted && Healthy()) && forgot.Up? && saved.Up? ==>
              Healthy()
      ensures Accepted(View(), key, now, config) <==> config.ttl > 0.0 && config.idle >= 0.0
      ensures key in memory && IssuedTo(memory[key], user, role, csrf, now, config) && memory[key].last == now
      ensures saved.Up? ==> key in disk && disk[key] == memory[key]
      ensures forall k :: k in memory && k != key ==> k in old(memory) && memory[k] == old(memory)[k]
    {
      ghost var s, before := View(), clock;
      dropped := Create(key, user, role, csrf, now, forgot, saved);
      clock := now;
      NewEffect(s, New(now, key, user, role, csrf, dropped, forgot, saved), before, config);
    }

    method Create(key: Key, user: string, role: string, csrf: string, now: real, forgot: Db, saved: Db)
      returns (ghost dropped: set<Key>)
      modifies this`memory, this`disk, this`persisted
      ensures Swept(old(memory), now, config, dropped)
      ensures View() == Apply(old(View()), New(now, key, user, role, csrf, dropped, forgot, saved), config)
    {
      dropped := Sweep(now, forgot);
      var r := Record(user, role, now + config.ttl, now, csrf);
      memory := memory[key := r];
      PersistRecord(key, r, saved);
    }

    /**
     * A request: the session is found exactly if it is there, neither past its end nor
     * idle for too long; its idle clock starts again.  A lapsed one is gone.
     */
    method SessionGet(key: Option<Key>, now: real, db: Db) returns (found: Option<Record>)
      requires Valid() && now >= clock
      modifies this
      ensures Valid() && clock == now && (old(Healthy()) && db.Up? ==> Healthy())
      ensures key.None? ==> found.None? && View() == old(View())
      ensures key.Some? ==> View() == Got(old(View()), now, key.value, config, db)
      ensures found.Some? <==> key.Some? && old(Accepted(View(), key.value, now, config))
      ensures found.Some? ==> found.value == old(memory)[key.value].(last := now) == memory[key.value]
      ensures key.Some? && found.None? ==> key.value !in memory
      ensures key.Some? && found.None? ==>
                (if key.value in old(memory) then Erased(old(View()), View(), {key.value}, db)
                 else View() == old(View()))
      ensures forall k :: Some(k) != key ==> SameAt(old(View()), View(), k)
      ensures found.Some? ==>
                (if db.Up? && now - (if key.value in old(persisted) then old(persisted)[key.value] else 0.0) > 60.0
                 then disk == old(disk)[key.value := found.value] else disk == old(disk))
    {
      ghost var s, before := View(), clock;
      if key.None? {
        clock := now;
        Later(s, before, now, config);
        return None;
      }
      ForgetErases(s, {key.value}, db);
      found := Find(key.value, now, db);
      clock := now;
      GetEffect(s, now, key.value, db, before, config);
    }

    method Find(k: Key, now: real, db: Db) returns (found: Option<Record>)
      modifies this`memory, this`disk, this`persisted
      ensures View() == Got(old(View()), now, k, config, db)
      ensures found.Some? <==> k in old(memory) && Fresh(old(memory)[k], now, config)
      ensures found.Some? ==> found.value == old(memory)[k].(last := now) == memory[k]
    {
      if k !in memory {
        return None;
      }
      var record := memory[k];
      if record.expiry <= now || now - record.last > config.idle {
        memory := memory - {k};
        ForgetKeys({k}, db);
        return None;
      }
      record := record.(last := now);
      memory := memory[k := record];
      if now - (if k in persisted then persisted[k] else 0.0) > LAST_PERSIST {
        PersistRecord(k, record, db);
      }
      return Some(record);
    }

    /**
     * A logout: the session is accepted no more, and comes back with a restart exactly
     * if its row could not be deleted and is still good then.
     */
    method SessionDrop(key: Option<Key>, db: Db)
      requires Valid()
      modifies this
      ensures Valid() && clock == old(clock) && (old(Healthy()) && db.Up? ==> Healthy())
      ensures View() == if key.Some? then Dropped(old(View()), key.value, db) else old(View())
      ensures key.Some? ==> Erased(old(View()), View(), {key.value}, db)
      ensures key.Some? ==> forall now :: !Accepted(View(), key.value, now, config)
      ensures key.Some? ==> forall now ::
        RestoredAt(View(), key.value, now, config) <==> !db.Up? && old(RestoredAt(View(), key.value, now, config))
      ensures forall k :: Some(k) != key ==> SameAt(old(View()), View(), k)
    {
      if key.None? {
        return;
      }
      Kept(View(), Drop(clock, key.value, db), clock, config);
      DropEffect(View(), key.value, db, config);
      ForgetErases(View(), {key.value}, db);
      memory := memory - {key.value};
      ForgetKeys({key.value}, db);
    }

    // One row: taken up, or reported stale.
    method TakeUp(k: Key, now: real, rows: set<Key>, stale: set<Key>) returns (stale': set<Key>)
      requires TakenUp(disk, memory, now, config, rows, stale) && persisted == LastTimes(memory)
      requires k in rows && rows <= disk.Keys
      modifies this`memory, this`persisted
      ensures TakenUp(disk, memory, now, config, rows - {k}, stale') && persisted == LastTimes(memory)
      ensures |memory.Keys| == |old(memory).Keys| + if Fresh(disk[k], now, config) then 1 else 0
    {
      assert RowTaken(disk, memory, k, now, config, rows);
      if disk[k].expiry <= now || now - disk[k].last > config.idle {
        stale' := stale + {k};
        TakenUpOneMore(disk, memory, memory, now, config, rows, k, stale, stale');
      } else {
        stale' := stale;
        OneMoreTime(memory, k, disk[k]);
        memory := memory[k := disk[k]];
        persisted := persisted[k := disk[k].last];
        TakenUpOneMore(disk, old(memory), memory, now, config, rows, k, stale, stale');
      }
    }

    method TakeUpAll(now: real) returns (restored: nat, stale: set<Key>)
      requires memory == map[] && persisted == map[]
      modifies this`memory, this`persisted
      ensures TakenUp(disk, memory, now, config, {}, stale) && restored == |memory.Keys|
      ensures persisted == LastTimes(memory)
    {
      restored, stale := 0, {};
      assert persisted == LastTimes(memory);
      var rows := disk.Keys;
      while rows != {}
        invariant rows <= disk.Keys && TakenUp(disk, memory, now, config, rows, stale)
        invariant persisted == LastTimes(memory) && restored == |memory.Keys|
        decreases |rows|
      {
        var k :| k in rows;
        stale := TakeUp(k, now, rows, stale);
        restored := restored + if Fresh(disk[k], now, config) then 1 else 0;
        rows := rows - {k};
      }
    }

    method DeleteStale(stale: set<Key>, deletable: bool)
      requires stale == disk.Keys - memory.Keys && memory.Keys <= disk.Keys
      requires forall k :: k in memory ==> disk[k] == memory[k]
      modifies this`disk
      ensures disk == if deletable then memory else old(disk)
    {
      assert disk - stale == memory;
      if stale != {} {
        if deletable {
          disk := disk - stale;
        }
      } else {
        assert disk - {} == disk;
      }
    }

    /**
     * A new process takes over the disk; `readable` and `deletable` say whether the two
     * statements succeed.  It accepts exactly what is good on disk.
     */
    method LoadSessions(now: real, readable: bool, deletable: bool) returns (restored: nat)
      requires Valid() && now >= clock
      modifies this
      ensures Valid() && clock == now && (old(Healthy()) && readable && deletable ==> Healthy())
      ensures View() == Restarted(old(View()), now, config, readable, deletable) && restored == |memory.Keys|
      ensures forall k :: Accepted(View(), k, now, config) <==> readable && old(RestoredAt(View(), k, now, config))
      ensures forall k :: k in memory ==> k in old(disk) && memory[k] == old(disk)[k]
      ensures disk == if readable && deletable then memory else old(disk)
    {
      Kept(View(), Restart(now, readable, deletable), clock, config);
      clock := now;
      memory, persisted, restored := map[], map[], 0;
      if !readable {
        assert persisted == LastTimes(memory);
        return;
      }
      var stale;
      restored, stale := TakeUpAll(now);
      TakenUpIsRestorable(disk, memory, now, config, stale);
      DeleteStale(stale, deletable);
    }
  }
}
