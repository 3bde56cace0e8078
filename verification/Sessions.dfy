/** The session table: in memory, with a mirror on disk that may lag or miss writes. */
module Sessions {
  import opened Wrappers

  type Key = string

  datatype Record = Record(user: string, role: string, expiry: real, last: real, csrf: string)

  // How the database takes one statement: done, an error, or no connection at all.
  datatype Db = Up | Failing | Gone

  datatype Config = Config(ttl: real, idle: real, max: nat)

  datatype State = State(memory: map<Key, Record>, persisted: map<Key, real>, disk: map<Key, Record>)

  const LAST_PERSIST := 60.0

  // Neither past its absolute end nor idle for too long.
  predicate Fresh(r: Record, now: real, c: Config)
  {
    r.expiry > now && now - r.last <= c.idle
  }

  // The record is that of a login: who, as what, with which token, and until when.
  predicate IssuedTo(r: Record, user: string, role: string, csrf: string, now: real, c: Config)
  {
    r.user == user && r.role == role && r.csrf == csrf && r.expiry == now + c.ttl
  }

  /******* Steps *******/

  ghost function Persist(s: State, key: Key, r: Record, db: Db): State
  {
    if db.Up? then s.(disk := s.disk[key := r], persisted := s.persisted[key := r.last]) else s
  }

  ghost function Forget(s: State, keys: set<Key>, db: Db): State
  {
    if keys == {} || db.Gone? then s
    else s.(disk := if db.Up? then s.disk - keys else s.disk, persisted := s.persisted - keys)
  }

  // Gone from memory; from disk too if rows can be deleted; and, unless the connection
  // cannot be had at all, from the record of what was saved when.
  ghost predicate Erased(s: State, s': State, keys: set<Key>, db: Db)
  {
    && s'.memory == s.memory - keys && s'.disk == s.disk - (if db.Up? then keys else {})
    && s'.persisted == s.persisted - (if db.Gone? then {} else keys)
  }

  lemma {:induction false} ForgetErases(s: State, keys: set<Key>, db: Db)
    ensures Erased(s, Forget(s.(memory := s.memory - keys), keys, db), keys, db)
  {
  }

  // The sessions past their end.
  function Expired(memory: map<Key, Record>, now: real): set<Key>
  {
    set k | k in memory && memory[k].expiry <= now
  }

  // The sweep drops the expired sessions, and of the others as many as are over
  // the limit, those that would expire first.
  ghost predicate Swept(memory: map<Key, Record>, now: real, c: Config, dropped: set<Key>)
  {
    var expired := Expired(memory, now);
    && expired <= dropped <= memory.Keys
    && |dropped - expired| == (if |memory.Keys - expired| > c.max then |memory.Keys - expired| - c.max else 0)
    && FirstOut(memory - expired, dropped - expired)
  }

  // Those taken out expire no later than those left.
  ghost predicate FirstOut(memory: map<Key, Record>, out: set<Key>)
  {
    forall e, k :: e in memory && e in out && k in memory && k !in out ==> memory[e].expiry <= memory[k].expiry
  }

  ghost function Created(s: State, now: real, key: Key, user: string, role: string, csrf: string, c: Config,
                         dropped: set<Key>, forgot: Db, saved: Db): State
  {
    var r := Record(user, role, now + c.ttl, now, csrf);
    var swept := Forget(s.(memory := s.memory - dropped), dropped, forgot);
    Persist(swept.(memory := swept.memory[key := r]), key, r, saved)
  }

  ghost function Dropped(s: State, key: Key, db: Db): State
  {
    Forget(s.(memory := s.memory - {key}), {key}, db)
  }

  // Whether the idle clock on disk has drifted by more than is allowed.
  ghost predicate Drifted(s: State, key: Key, now: real)
  {
    now - (if key in s.persisted then s.persisted[key] else 0.0) > LAST_PERSIST
  }

  ghost function Got(s: State, now: real, key: Key, c: Config, db: Db): State
  {
    if key !in s.memory then s
    else if !Fresh(s.memory[key], now, c) then Dropped(s, key, db)
    else
      var r := s.memory[key].(last := now);
      var touched := s.(memory := s.memory[key := r]);
      if Drifted(s, key, now) then Persist(touched, key, r, db) else touched
  }

  // The sessions on disk that a restart takes up again.
  ghost function Restorable(disk: map<Key, Record>, now: real, c: Config): map<Key, Record>
  {
    map k | k in disk && Fresh(disk[k], now, c) :: disk[k]
  }

  ghost function LastTimes(records: map<Key, Record>): map<Key, real>
  {
    map k | k in records :: records[k].last
  }

  // A new process: everything comes from disk, and what is stale there is deleted.
  ghost function Restarted(s: State, now: real, c: Config, readable: bool, deletable: bool): State
  {
    var restored := if readable then Restorable(s.disk, now, c) else map[];
    State(restored, LastTimes(restored), if readable && deletable then restored else s.disk)
  }

  lemma {:induction false} OneMoreOut(start: map<Key, Record>, out: set<Key>, key: Key)
    requires FirstOut(start, out) && out <= start.Keys && key in start - out
    requires forall k :: k in start - out ==> start[key].expiry <= start[k].expiry
    ensures FirstOut(start, out + {key})
    ensures (start - out) - {key} == start - (out + {key})
    ensures |(start - (out + {key})).Keys| == |(start - out).Keys| - 1
  {
    assert (start - (out + {key})).Keys == (start - out).Keys - {key};
  }

  /******* Reading the rows one by one *******/

  // The row is taken up if it is fresh, once it has been read.
  ghost predicate RowTaken(disk: map<Key, Record>, memory: map<Key, Record>, k: Key, now: real, c: Config,
                           rows: set<Key>)
    requires k in disk
  {
    (k in memory <==> k !in rows && Fresh(disk[k], now, c)) && (k in memory ==> memory[k] == disk[k])
  }

  // The rows still to be read are those in `rows`, and `stale` are the ones left out.
  ghost predicate TakenUp(disk: map<Key, Record>, memory: map<Key, Record>, now: real, c: Config, rows: set<Key>,
                          stale: set<Key>)
  {
    && memory.Keys <= disk.Keys
    && (forall k :: k in disk ==> RowTaken(disk, memory, k, now, c, rows))
    && (forall k :: k in stale <==> k in disk && k !in rows && k !in memory)
  }

  lemma {:induction false} TakenUpOneMore(disk: map<Key, Record>, memory: map<Key, Record>, memory': map<Key, Record>,
                                          now: real, c: Config, rows: set<Key>, k: Key,
                                          stale: set<Key>, stale': set<Key>)
    requires TakenUp(disk, memory, now, c, rows, stale) && k in rows && k in disk
    requires memory' == if Fresh(disk[k], now, c) then memory[k := disk[k]] else memory
    requires stale' == if Fresh(disk[k], now, c) then stale else stale + {k}
    ensures TakenUp(disk, memory', now, c, rows - {k}, stale')
  {
    assert RowTaken(disk, memory, k, now, c, rows);
    forall q | q in disk ensures RowTaken(disk, memory', q, now, c, rows - {k}) {
      assert RowTaken(disk, memory, q, now, c, rows);
    }
  }

  lemma {:induction false} TakenUpIsRestorable(disk: map<Key, Record>, memory: map<Key, Record>, now: real, c: Config,
                                               stale: set<Key>)
    requires TakenUp(disk, memory, now, c, {}, stale)
    ensures memory == Restorable(disk, now, c) && stale == disk.Keys - memory.Keys
  {
    forall k | k in disk ensures k in memory <==> k in Restorable(disk, now, c) {
      assert RowTaken(disk, memory, k, now, c, {});
    }
    forall k | k in memory ensures memory[k] == disk[k] {
      assert RowTaken(disk, memory, k, now, c, {});
    }
  }
}
