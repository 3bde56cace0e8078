/** What the limiter answers, without buckets: a request passes exactly if no stretch of its key goes over quota. */
module RateLimitExact {
  import opened RateLimit
  import opened RateLimitLaws

  // The path's own limit, or the default one: the whole capacity over one window.
  ghost predicate Quota(cfg: Config, path: string, capacity: int, rate: real)
  {
    if path in cfg.limits then cfg.limits[path] == (capacity, rate)
    else capacity == cfg.capacity && rate * cfg.window == capacity as real
  }

  lemma {:induction false} QuotaIsLimit(cfg: Config, path: string, capacity: int, rate: real)
    requires cfg.window > 0.0 && Quota(cfg, path, capacity, rate)
    ensures Limit(cfg, path) == (capacity, rate)
  {
    if path !in cfg.limits {
      var c, w := cfg.capacity as real, cfg.window;
      assert (c / w) * w == c;
      SameFactor(c / w, rate, w);
    }
  }

  lemma {:induction false} SameFactor(a: real, b: real, w: real)
    requires w > 0.0 && a * w == b * w
    ensures a == b
  {
    assert (a - b) * w == 0.0;
  }

  // The event asks for `key`.
  ghost predicate Asks(events: seq<Event>, j: nat, key: Key)
  {
    j < |events| && events[j].Check? && events[j].key == key
  }

  // What a stretch that began with event `j` leaves of the quota at `t`, before event `n`.
  ghost function Room(cfg: Config, events: seq<Event>, key: Key, j: nat, n: nat, t: real): real
    requires cfg.window > 0.0 && j <= n <= |events| && j < |events|
  {
    Limit(cfg, key.1).0 as real + Gain(Limit(cfg, key.1).1, t - events[j].now)
      - AllowedCount(cfg, true, events, key, j, n) as real
  }

  // The tokens `key` can draw on at `t` after `n` events.
  ghost function Left(cfg: Config, events: seq<Event>, key: Key, n: nat, t: real): real
    requires cfg.window > 0.0 && n <= |events|
  {
    Tokens(cfg, TableAfter(cfg, true, events, n), key, t)
  }

  // A check of the key takes its token; the rest grows until `t`, up to the capacity.
  lemma {:induction false} AfterOwn(cfg: Config, events: seq<Event>, key: Key, n: nat, t: real)
    requires ValidConfig(cfg) && Timed(events) && n < |events| && Asks(events, n, key) && events[n].now <= t
    ensures var taken := if Allowed(cfg, true, events, n) then 1.0 else 0.0;
      && Left(cfg, events, key, n, events[n].now) <= Limit(cfg, key.1).0 as real
      && Left(cfg, events, key, n + 1, t) ==
         MinReal(Limit(cfg, key.1).0 as real,
                 Left(cfg, events, key, n, events[n].now) - taken + Gain(Limit(cfg, key.1).1, t - events[n].now))
  {
    SaneAtEnd(cfg, events, n, n);
    var table := TableAfter(cfg, true, events, n);
    if key in table {
      assert SaneBucket(cfg, key, table[key], events[n].now);
    }
  }

  lemma {:induction false} AfterOther(cfg: Config, events: seq<Event>, key: Key, n: nat, t: real)
    requires ValidConfig(cfg) && n < |events| && !Asks(events, n, key)
    ensures Left(cfg, events, key, n + 1, t) == Left(cfg, events, key, n, t)
  {
  }

  // A check of the key takes its token from what every stretch leaves.
  lemma {:induction false} RoomAfterOwn(cfg: Config, events: seq<Event>, key: Key, j: nat, n: nat, t: real)
    requires ValidConfig(cfg) && j <= n && Asks(events, n, key)
    ensures Room(cfg, events, key, j, n + 1, t) ==
            Room(cfg, events, key, j, n, events[n].now) - (if Allowed(cfg, true, events, n) then 1.0 else 0.0)
              + Gain(Limit(cfg, key.1).1, t - events[n].now)
  {
    GainAdds(Limit(cfg, key.1).1, events[n].now - events[j].now, t - events[n].now);
  }

  lemma {:induction false} RoomNow(cfg: Config, events: seq<Event>, key: Key, n: nat)
    requires ValidConfig(cfg) && n < |events|
    ensures Room(cfg, events, key, n, n, events[n].now) == Limit(cfg, key.1).0 as real
  {
    assert events[n].now - events[n].now == 0.0;
    assert Gain(Limit(cfg, key.1).1, 0.0) == 0.0;
  }

  // No stretch leaves less than the tokens.
  lemma {:induction false} AtMostRoom(cfg: Config, events: seq<Event>, key: Key, j: nat, n: nat, t: real)
    requires ValidConfig(cfg) && Timed(events) && j < n <= |events| && Asks(events, j, key) && events[n - 1].now <= t
    ensures Left(cfg, events, key, n, t) <= Room(cfg, events, key, j, n, t)
  {
    var last := events[n - 1].now;
    if !Asks(events, n - 1, key) {
      AfterOther(cfg, events, key, n - 1, t);
      AtMostRoom(cfg, events, key, j, n - 1, t);
    } else {
      AfterOwn(cfg, events, key, n - 1, t);
      RoomAfterOwn(cfg, events, key, j, n - 1, t);
      if j < n - 1 {
        AtMostRoom(cfg, events, key, j, n - 1, last);
      } else {
        RoomNow(cfg, events, key, j);
      }
    }
  }

  // A bucket that is not full holds what some stretch leaves.
  lemma {:induction false} SomeRoom(cfg: Config, events: seq<Event>, key: Key, n: nat, t: real) returns (j: nat)
    requires ValidConfig(cfg) && Timed(events) && n <= |events| && (n > 0 ==> events[n - 1].now <= t)
    ensures Left(cfg, events, key, n, t) == Limit(cfg, key.1).0 as real ||
            (j < n && Asks(events, j, key) && Left(cfg, events, key, n, t) == Room(cfg, events, key, j, n, t))
  {
    if n == 0 {
      RefillNow(Fresh(cfg, key.1, t), t);
      return 0;
    }
    var last := events[n - 1].now;
    if !Asks(events, n - 1, key) {
      AfterOther(cfg, events, key, n - 1, t);
      j := SomeRoom(cfg, events, key, n - 1, t);
    } else {
      AfterOwn(cfg, events, key, n - 1, t);
      j := SomeRoom(cfg, events, key, n - 1, last);
      if Left(cfg, events, key, n - 1, last) == Limit(cfg, key.1).0 as real {
        j := n - 1;
        RoomNow(cfg, events, key, j);
      }
      RoomAfterOwn(cfg, events, key, j, n - 1, t);
    }
  }

  // With this request, the requests of `key` allowed since event `j` are within its quota.
  ghost predicate FitsSince(cfg: Config, keep: bool, events: seq<Event>, key: Key, j: nat, n: nat, capacity: int,
                            rate: real)
    requires cfg.window > 0.0 && j <= n < |events|
  {
    (AllowedCount(cfg, keep, events, key, j, n) + 1) as real
      <= capacity as real + rate * (events[n].now - events[j].now)
  }

  /**
   * A request is allowed exactly if the capacity is not zero and, counted from any
   * earlier request of the same key, the requests allowed with this one are at most the
   * capacity plus the rate times the time since.  What other keys ask plays no part.
   */
  lemma {:induction false} AllowedExactly(cfg: Config, events: seq<Event>, n: nat, key: Key, capacity: int, rate: real)
    requires ValidConfig(cfg) && Timed(events) && Asks(events, n, key) && Quota(cfg, key.1, capacity, rate)
    ensures Allowed(cfg, true, events, n) <==>
            && capacity >= 1
            && forall j :: 0 <= j < n && Asks(events, j, key) ==>
                 FitsSince(cfg, true, events, key, j, n, capacity, rate)
  {
    QuotaIsLimit(cfg, key.1, capacity, rate);
    var t := events[n].now;
    assert Allowed(cfg, true, events, n) <==> Left(cfg, events, key, n, t) >= 1.0;
    AfterOwn(cfg, events, key, n, t);
    forall j | 0 <= j < n && Asks(events, j, key)
      ensures Left(cfg, events, key, n, t) <= Room(cfg, events, key, j, n, t)
      ensures Room(cfg, events, key, j, n, t) >= 1.0 <==> FitsSince(cfg, true, events, key, j, n, capacity, rate)
    {
      AtMostRoom(cfg, events, key, j, n, t);
    }
    var j := SomeRoom(cfg, events, key, n, t);
  }

  /** Likewise with cleanups that cannot be observed. */
  lemma {:induction false} AllowedExactlyWithCleanup(cfg: Config, events: seq<Event>, n: nat, key: Key, capacity: int,
                                                     rate: real)
    requires ValidConfig(cfg) && Timed(events) && Asks(events, n, key) && Quota(cfg, key.1, capacity, rate)
    requires CleanupUnobservable(cfg)
    ensures Allowed(cfg, false, events, n) <==>
            && capacity >= 1
            && forall j :: 0 <= j < n && Asks(events, j, key) ==>
                 FitsSince(cfg, false, events, key, j, n, capacity, rate)
  {
    AllowedExactly(cfg, events, n, key, capacity, rate);
    forall j | 0 <= j < n && Asks(events, j, key)
      ensures AllowedCount(cfg, false, events, key, j, n) == AllowedCount(cfg, true, events, key, j, n)
    {
      SameCount(cfg, events, key, j, n);
    }
  }
}
