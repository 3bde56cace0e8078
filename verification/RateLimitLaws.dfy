/** Laws of the rate limiter: a true rate bound, and exactly when cleanup cannot be observed. */
module RateLimitLaws {
  import opened RateLimit

  /******* Tables that runs reach *******/

  ghost predicate SaneBucket(cfg: Config, key: Key, b: Bucket, now: real)
    requires cfg.window > 0.0
  {
    && b.capacity == Limit(cfg, key.1).0 && b.rate == Limit(cfg, key.1).1
    && 0.0 <= b.tokens <= b.capacity as real && b.lastRefill <= now
  }

  ghost predicate Sane(cfg: Config, table: Table, now: real)
    requires cfg.window > 0.0
  {
    forall key :: key in table ==> SaneBucket(cfg, key, table[key], now)
  }

  lemma {:induction false} LimitsAreValid(cfg: Config, path: string)
    requires ValidConfig(cfg)
    ensures Limit(cfg, path).0 >= 0 && Limit(cfg, path).1 >= 0.0
  {
  }

  lemma {:induction false} ProductNonNegative(a: real, b: real)
    requires a >= 0.0 && b >= 0.0
    ensures a * b >= 0.0
  {
  }

  lemma {:induction false} GainAdds(rate: real, a: real, b: real)
    ensures Gain(rate, a + b) == Gain(rate, a) + Gain(rate, b)
  {
  }

  lemma {:induction false} ConsumeSane(cfg: Config, key: Key, b: Bucket, before: real, now: real)
    requires ValidConfig(cfg) && SaneBucket(cfg, key, b, before) && before <= now
    ensures SaneBucket(cfg, key, Consume(b, now), now)
  {
    LimitsAreValid(cfg, key.1);
    ProductNonNegative(now - b.lastRefill, b.rate);
  }

  lemma {:induction false} FreshIsSane(cfg: Config, key: Key, now: real)
    requires ValidConfig(cfg)
    ensures SaneBucket(cfg, key, Fresh(cfg, key.1, now), now)
  {
    LimitsAreValid(cfg, key.1);
  }

  lemma {:induction false} StepSane(cfg: Config, keep: bool, table: Table, e: Event, before: real)
    requires ValidConfig(cfg) && Sane(cfg, table, before) && before <= e.now
    ensures Sane(cfg, Step(cfg, keep, table, e), e.now)
  {
    if e.Check? {
      var b := BucketFor(cfg, table, e.key, e.now);
      if e.key !in table {
        FreshIsSane(cfg, e.key, e.now);
        ConsumeSane(cfg, e.key, b, e.now, e.now);
      } else {
        ConsumeSane(cfg, e.key, b, before, e.now);
      }
    }
  }

  // The time of the event before position `n`, or of the first one.
  ghost function Before(events: seq<Event>, n: nat): real
    requires n <= |events| && events != []
  {
    if n == 0 then events[0].now else events[n - 1].now
  }

  /** Tokens never leave 0..capacity, whatever the run. */
  lemma {:induction false} TokensBounded(cfg: Config, keep: bool, events: seq<Event>, n: nat)
    requires ValidConfig(cfg) && Timed(events) && n <= |events| && events != []
    ensures Sane(cfg, TableAfter(cfg, keep, events, n), Before(events, n))
  {
    if n > 0 {
      TokensBounded(cfg, keep, events, n - 1);
      StepSane(cfg, keep, TableAfter(cfg, keep, events, n - 1), events[n - 1], Before(events, n - 1));
    }
  }

  /******* Cleanup cannot be observed *******/

  // Two windows refill the whole bucket.
  ghost predicate Generous(cfg: Config, path: string)
    requires cfg.window > 0.0
  {
    Gain(Limit(cfg, path).1, cfg.window * 2.0) >= Limit(cfg, path).0 as real
  }

  lemma {:induction false} DefaultIsGenerous(cfg: Config, path: string)
    requires ValidConfig(cfg) && path !in cfg.limits
    ensures Generous(cfg, path)
  {
    var c, w := cfg.capacity as real, cfg.window;
    assert c / w * (w * 2.0) == c / w * w * 2.0 == c * 2.0;
  }

  // From `now` on the bucket refills to the brim.
  ghost predicate Full(b: Bucket, now: real)
  {
    b.tokens + Gain(b.rate, now - b.lastRefill) >= b.capacity as real
  }

  lemma {:induction false} StaysFull(b: Bucket, now: real, later: real)
    requires Full(b, now) && now <= later && b.rate >= 0.0
    ensures Full(b, later)
  {
    ProductNonNegative(later - now, b.rate);
    GainAdds(b.rate, now - b.lastRefill, later - now);
  }

  // The kept table has the cleaned one's buckets, and otherwise full ones only.
  ghost predicate Similar(kept: Table, cleaned: Table, now: real)
  {
    && (forall key :: key in cleaned ==> key in kept && kept[key] == cleaned[key])
    && (forall key :: key in kept && key !in cleaned ==> Full(kept[key], now))
  }

  lemma {:induction false} SimilarLater(cfg: Config, kept: Table, cleaned: Table, now: real, later: real)
    requires ValidConfig(cfg) && Sane(cfg, kept, now) && Similar(kept, cleaned, now) && now <= later
    ensures Similar(kept, cleaned, later)
  {
    forall key | key in kept && key !in cleaned ensures Full(kept[key], later) {
      LimitsAreValid(cfg, key.1);
      StaysFull(kept[key], now, later);
    }
  }

  // A full bucket and a fresh one answer and continue alike.
  lemma {:induction false} FullIsFresh(cfg: Config, key: Key, b: Bucket, before: real, now: real)
    requires ValidConfig(cfg) && SaneBucket(cfg, key, b, before) && before <= now && Full(b, now)
    ensures Allows(b, now) == Allows(Fresh(cfg, key.1, now), now)
    ensures Consume(b, now) == Consume(Fresh(cfg, key.1, now), now)
  {
  }

  lemma {:induction false} StaleIsFull(cfg: Config, key: Key, b: Bucket, now: real)
    requires ValidConfig(cfg) && SaneBucket(cfg, key, b, now) && Generous(cfg, key.1)
    requires b.lastRefill < Cutoff(cfg, now)
    ensures Full(b, now)
  {
    LimitsAreValid(cfg, key.1);
    var extra := now - b.lastRefill - cfg.window * 2.0;
    ProductNonNegative(extra, b.rate);
    GainAdds(b.rate, cfg.window * 2.0, extra);
  }

  lemma {:induction false} SimilarStep(cfg: Config, kept: Table, cleaned: Table, e: Event, before: real)
    requires ValidConfig(cfg) && Sane(cfg, kept, before) && before <= e.now
    requires Similar(kept, cleaned, before) && forall path :: Generous(cfg, path)
    ensures Answer(cfg, kept, e) == Answer(cfg, cleaned, e)
    ensures Similar(Step(cfg, true, kept, e), Step(cfg, false, cleaned, e), e.now)
  {
    SimilarLater(cfg, kept, cleaned, before, e.now);
    if e.Check? {
      if e.key in kept && e.key !in cleaned {
        FullIsFresh(cfg, e.key, kept[e.key], before, e.now);
      }
    } else {
      forall key | key in cleaned && key !in Cleaned(cfg, cleaned, e.now) ensures Full(kept[key], e.now) {
        StaleIsFull(cfg, key, kept[key], e.now);
      }
    }
  }

  lemma {:induction false} SimilarRuns(cfg: Config, events: seq<Event>, n: nat)
    requires ValidConfig(cfg) && Timed(events) && n <= |events| && events != []
    requires forall path :: Generous(cfg, path)
    ensures Similar(TableAfter(cfg, true, events, n), TableAfter(cfg, false, events, n), Before(events, n))
  {
    if n > 0 {
      SimilarRuns(cfg, events, n - 1);
      TokensBounded(cfg, true, events, n - 1);
      SimilarStep(cfg, TableAfter(cfg, true, events, n - 1), TableAfter(cfg, false, events, n - 1), events[n - 1],
          Before(events, n - 1));
    }
  }

  // Deleting stale buckets never changes an answer.
  ghost predicate CleanupUnobservable(cfg: Config)
    requires cfg.window > 0.0
  {
    forall events, n ::
        Timed(events) && 0 <= n < |events| ==> Allowed(cfg, false, events, n) == Allowed(cfg, true, events, n)
  }

  lemma {:induction false} GenerousUnobservable(cfg: Config)
    requires ValidConfig(cfg) && forall path :: Generous(cfg, path)
    ensures CleanupUnobservable(cfg)
  {
    forall events, n | Timed(events) && 0 <= n < |events|
      ensures Allowed(cfg, false, events, n) == Allowed(cfg, true, events, n)
    {
      SimilarRuns(cfg, events, n);
      TokensBounded(cfg, true, events, n);
      SimilarStep(cfg, TableAfter(cfg, true, events, n), TableAfter(cfg, false, events, n), events[n],
          Before(events, n));
    }
  }

  /******* When it can *******/

  // `count` checks of `key` at time `t`, from position `a` on.
  ghost predicate Burst(events: seq<Event>, a: nat, count: nat, key: Key, t: real)
  {
    a + count <= |events| && forall i :: a <= i < a + count ==> events[i] == Check(key, t)
  }

  // The tokens the burst finds.
  ghost function Supply(cfg: Config, keep: bool, events: seq<Event>, a: nat, key: Key, t: real): real
    requires cfg.window > 0.0 && a <= |events|
  {
    Refill(BucketFor(cfg, TableAfter(cfg, keep, events, a), key, t), t).tokens
  }

  // The bucket after `count` checks of a burst that found `supply` tokens.
  ghost predicate Spent(cfg: Config, table: Table, key: Key, t: real, supply: real, count: nat)
    requires cfg.window > 0.0
  {
    var b := BucketFor(cfg, table, key, t);
    if count == 0 then Refill(b, t).tokens == supply
    else b == Bucket(Limit(cfg, key.1).0, Limit(cfg, key.1).1, supply - count as real, t)
  }

  lemma {:induction false} SpendOne(cfg: Config, table: Table, key: Key, t: real, supply: real, count: nat)
    requires ValidConfig(cfg) && Sane(cfg, table, t) && Spent(cfg, table, key, t, supply, count)
    ensures Answer(cfg, table, Check(key, t)) <==> supply >= (count + 1) as real
    ensures supply >= (count + 1) as real ==>
            Spent(cfg, Step(cfg, true, table, Check(key, t)), key, t, supply, count + 1)
  {
    if key !in table {
      FreshIsSane(cfg, key, t);
    }
    var b := BucketFor(cfg, table, key, t);
    assert SaneBucket(cfg, key, b, t);
    if count > 0 {
      assert t - b.lastRefill == 0.0;
      assert Gain(b.rate, 0.0) == 0.0;
      assert Refill(b, t).tokens == supply - count as real;
    }
  }

  // A burst is allowed in full exactly if the bucket holds that many tokens.
  lemma {:induction false} BurstAllowed(cfg: Config, keep: bool, events: seq<Event>, a: nat, count: nat, key: Key,
                                        t: real)
    requires ValidConfig(cfg) && Burst(events, a, count, key, t)
    requires Sane(cfg, TableAfter(cfg, keep, events, a), t)
    ensures (forall i :: a <= i < a + count ==> Allowed(cfg, keep, events, i)) <==>
            (Supply(cfg, keep, events, a, key, t) >= count as real || count == 0)
    ensures Supply(cfg, keep, events, a, key, t) >= count as real ==>
      var table := TableAfter(cfg, keep, events, a + count);
      Sane(cfg, table, t) && Spent(cfg, table, key, t, Supply(cfg, keep, events, a, key, t), count)
  {
    if count >= 1 {
      BurstAllowed(cfg, keep, events, a, count - 1, key, t);
      var supply, table := Supply(cfg, keep, events, a, key, t), TableAfter(cfg, keep, events, a + count - 1);
      assert events[a + count - 1] == Check(key, t);
      if supply >= (count - 1) as real {
        SpendOne(cfg, table, key, t, supply, count - 1);
        StepSane(cfg, keep, table, Check(key, t), t);
      }
      assert Allowed(cfg, keep, events, a + count - 1) == Answer(cfg, table, Check(key, t));
    }
  }

  // A time just after two windows at which an unused bucket is not full yet.
  ghost function TooSoon(cfg: Config, path: string): (t: real)
    requires ValidConfig(cfg) && !Generous(cfg, path)
    ensures t > cfg.window * 2.0 && Gain(Limit(cfg, path).1, t) < Limit(cfg, path).0 as real
  {
    var rate, cap, w := Limit(cfg, path).1, Limit(cfg, path).0 as real, cfg.window * 2.0;
    LimitsAreValid(cfg, path);
    if rate == 0.0 then w + 1.0
    else
      var t := w + (cap - rate * w) / (2.0 * rate);
      assert t * rate == w * rate + (cap - rate * w) / 2.0 by {
        assert (cap - rate * w) / (2.0 * rate) * (2.0 * rate) == cap - rate * w;
      }
      assert (cap - rate * w) / (2.0 * rate) > 0.0;
      t
  }

  ghost function Checks(n: nat, key: Key, t: real): seq<Event>
  {
    seq(n, i => Check(key, t))
  }

  // Drain a bucket, clean up when it is stale, and drain it again.
  ghost function Exposure(n: nat, key: Key, t: real): seq<Event>
  {
    Checks(n, key, 0.0) + [Cleanup(t)] + Checks(n, key, t)
  }

  lemma {:induction false} ExposureShape(n: nat, key: Key, t: real)
    requires t >= 0.0
    ensures var events := Exposure(n, key, t);
      && Timed(events) && |events| == 2 * n + 1
      && Burst(events, 0, n, key, 0.0) && events[n] == Cleanup(t) && Burst(events, n + 1, n, key, t)
  {
  }

  // The first half of the exposure leaves an empty bucket.
  lemma {:induction false} Drained(cfg: Config, keep: bool, n: nat, path: string, t: real)
    requires ValidConfig(cfg) && t >= 0.0 && n == Limit(cfg, path).0 && n >= 1
    ensures |Exposure(n, ("", path), t)| == 2 * n + 1
    ensures var table := TableAfter(cfg, keep, Exposure(n, ("", path), t), n);
      ("", path) in table && table[("", path)] == Bucket(n, Limit(cfg, path).1, 0.0, 0.0)
  {
    ExposureShape(n, ("", path), t);
    BurstAllowed(cfg, keep, Exposure(n, ("", path), t), 0, n, ("", path), 0.0);
  }

  // The old bucket, emptied at time 0, has not refilled at `t`.
  lemma {:induction false} EmptyAtZero(rate: real, n: nat, t: real)
    requires Gain(rate, t) < n as real
    ensures Refill(Bucket(n, rate, 0.0, 0.0), t).tokens < n as real
  {
  }

  // After the cleanup a fresh bucket supplies it all, the old one less.
  lemma {:induction false} ExposureSupplies(cfg: Config, n: nat, path: string, t: real)
    requires ValidConfig(cfg) && n == Limit(cfg, path).0 && n >= 1
    requires t > cfg.window * 2.0 && Gain(Limit(cfg, path).1, t) < n as real
    ensures var events := Exposure(n, ("", path), t);
      && |events| == 2 * n + 1
      && Supply(cfg, false, events, n + 1, ("", path), t) == n as real
      && Supply(cfg, true, events, n + 1, ("", path), t) < n as real
  {
    var events, key := Exposure(n, ("", path), t), ("", path);
    ExposureShape(n, key, t);
    Drained(cfg, true, n, path, t);
    Drained(cfg, false, n, path, t);
    assert key !in TableAfter(cfg, false, events, n + 1);
    assert TableAfter(cfg, true, events, n + 1) == TableAfter(cfg, true, events, n);
    EmptyAtZero(Limit(cfg, path).1, n, t);
  }

  lemma {:induction false} ExposureSane(cfg: Config, keep: bool, n: nat, key: Key, t: real)
    requires ValidConfig(cfg) && t >= 0.0
    ensures |Exposure(n, key, t)| == 2 * n + 1 && Sane(cfg, TableAfter(cfg, keep, Exposure(n, key, t), n + 1), t)
  {
    ExposureShape(n, key, t);
    TokensBounded(cfg, keep, Exposure(n, key, t), n + 1);
  }

  /** A limit that two windows do not refill betrays the cleanup. */
  lemma {:induction false} StingyObservable(cfg: Config, path: string)
    requires ValidConfig(cfg) && !Generous(cfg, path)
    ensures !CleanupUnobservable(cfg)
  {
    LimitsAreValid(cfg, path);
    ProductNonNegative(Limit(cfg, path).1, cfg.window * 2.0);
    var n, key, t := Limit(cfg, path).0, ("", path), TooSoon(cfg, path);
    var events := Exposure(n, key, t);
    ExposureShape(n, key, t);
    ExposureSane(cfg, true, n, key, t);
    ExposureSane(cfg, false, n, key, t);
    ExposureSupplies(cfg, n, path, t);
    BurstAllowed(cfg, false, events, n + 1, n, key, t);
    BurstAllowed(cfg, true, events, n + 1, n, key, t);
    var i :| n + 1 <= i < n + 1 + n && !Allowed(cfg, true, events, i);
    assert Allowed(cfg, false, events, i);
  }

  /**
   * Cleanup is unobservable, for every interleaving of checks and cleanups over
   * all keys, exactly when two windows refill every limit in use.
   */
  lemma {:induction false} CleanupUnobservableExactly(cfg: Config)
    requires ValidConfig(cfg)
    ensures CleanupUnobservable(cfg) <==>
      forall path :: path in cfg.limits ==> Gain(cfg.limits[path].1, cfg.window * 2.0) >= cfg.limits[path].0 as real
  {
    forall path | path !in cfg.limits ensures Generous(cfg, path) {
      DefaultIsGenerous(cfg, path);
    }
    forall path | path in cfg.limits
      ensures Generous(cfg, path) <==> Gain(cfg.limits[path].1, cfg.window * 2.0) >= cfg.limits[path].0 as real
    {
    }
    if forall path :: Generous(cfg, path) {
      GenerousUnobservable(cfg);
    } else {
      var path :| !Generous(cfg, path);
      StingyObservable(cfg, path);
    }
  }

  // The limits shipped with the application; the window is configurable.
  function Shipped(capacity: int, window: real): Config
  {
    Config(capacity, window, map["/api/chats/" := (10, 0.167), "/api/machines" := (20, 0.333)])
  }

  /**
   * With the shipped endpoint limits, cleanup is unobservable exactly for windows
   * of 31 whole seconds or more; the default is 60.
   */
  lemma {:induction false} ShippedWindows(capacity: nat, seconds: nat)
    requires seconds >= 1
    ensures CleanupUnobservable(Shipped(capacity, seconds as real)) <==> seconds >= 31
  {
    var cfg := Shipped(capacity, seconds as real);
    CleanupUnobservableExactly(cfg);
    assert "/api/machines" in cfg.limits && "/api/chats/" in cfg.limits;
    assert cfg.limits["/api/machines"] == (20, 0.333) && cfg.limits["/api/chats/"] == (10, 0.167);
    assert 0.333 * (seconds as real * 2.0) >= 20.0 <==> seconds >= 31;
  }

  /******* The rate bound *******/

  // The checks of `key` allowed from position `lo` up to `hi`.
  ghost function AllowedCount(cfg: Config, keep: bool, events: seq<Event>, key: Key, lo: nat, hi: nat): nat
    requires cfg.window > 0.0 && lo <= hi <= |events|
  {
    if lo == hi then 0
    else AllowedCount(cfg, keep, events, key, lo, hi - 1) +
         if events[hi - 1].Check? && events[hi - 1].key == key && Allowed(cfg, keep, events, hi - 1) then 1 else 0
  }

  // The tokens `key` can draw on at `now`.
  ghost function Tokens(cfg: Config, table: Table, key: Key, now: real): real
    requires cfg.window > 0.0
  {
    Refill(BucketFor(cfg, table, key, now), now).tokens
  }

  lemma {:induction false} TokensGrow(cfg: Config, table: Table, key: Key, now: real, later: real)
    requires ValidConfig(cfg) && Sane(cfg, table, now) && now <= later
    ensures Tokens(cfg, table, key, later) <= Tokens(cfg, table, key, now) + Gain(Limit(cfg, key.1).1, later - now)
  {
    LimitsAreValid(cfg, key.1);
    ProductNonNegative(Limit(cfg, key.1).1, later - now);
    if key in table {
      assert SaneBucket(cfg, key, table[key], now);
      RefillGrows(table[key], now, later);
    }
  }

  lemma {:induction false} RefillGrows(b: Bucket, now: real, later: real)
    requires b.lastRefill <= now <= later && b.rate >= 0.0
    ensures Refill(b, later).tokens <= Refill(b, now).tokens + Gain(b.rate, later - now)
  {
    GainAdds(b.rate, now - b.lastRefill, later - now);
    ProductNonNegative(b.rate, later - now);
  }

  lemma {:induction false} RefillNow(b: Bucket, now: real)
    requires b.tokens <= b.capacity as real && b.lastRefill == now
    ensures Refill(b, now).tokens == b.tokens
  {
    assert now - b.lastRefill == 0.0;
    assert Gain(b.rate, 0.0) == 0.0;
  }

  lemma {:induction false} RefillSane(b: Bucket, now: real)
    requires 0.0 <= b.tokens <= b.capacity as real && b.rate >= 0.0 && b.lastRefill <= now
    ensures 0.0 <= Refill(b, now).tokens <= b.capacity as real
  {
    ProductNonNegative(now - b.lastRefill, b.rate);
    assert Gain(b.rate, now - b.lastRefill) >= 0.0;
  }

  lemma {:induction false} TokensSpent(cfg: Config, table: Table, e: Event, key: Key)
    requires ValidConfig(cfg) && Sane(cfg, table, e.now)
    ensures Tokens(cfg, Step(cfg, true, table, e), key, e.now) ==
            Tokens(cfg, table, key, e.now) - if e.Check? && e.key == key && Answer(cfg, table, e) then 1.0 else 0.0
  {
    if e.Check? && e.key == key {
      LimitsAreValid(cfg, key.1);
      if key !in table {
        FreshIsSane(cfg, key, e.now);
      }
      var b := BucketFor(cfg, table, key, e.now);
      assert SaneBucket(cfg, key, b, e.now);
      RefillSane(b, e.now);
      RefillNow(Consume(b, e.now), e.now);
    }
  }

  lemma {:induction false} TokensNonNegative(cfg: Config, table: Table, key: Key, now: real)
    requires ValidConfig(cfg) && Sane(cfg, table, now)
    ensures Tokens(cfg, table, key, now) >= 0.0
  {
    LimitsAreValid(cfg, key.1);
    if key !in table {
      FreshIsSane(cfg, key, now);
    }
    var b := BucketFor(cfg, table, key, now);
    assert SaneBucket(cfg, key, b, now);
    RefillSane(b, now);
  }

  lemma {:induction false} SaneLater(cfg: Config, table: Table, now: real, later: real)
    requires cfg.window > 0.0 && Sane(cfg, table, now) && now <= later
    ensures Sane(cfg, table, later)
  {
  }

  // From `s` to `t`, `count` requests and the tokens left stay within the quota.
  ghost predicate WithinQuota(cfg: Config, table: Table, key: Key, count: nat, s: real, t: real)
    requires cfg.window > 0.0
  {
    count as real + Tokens(cfg, table, key, t) <= Limit(cfg, key.1).0 as real + Gain(Limit(cfg, key.1).1, t - s)
  }

  // What the next event `e` at the end of a stretch does to the budget.
  lemma {:induction false} BudgetStep(cfg: Config, table: Table, e: Event, key: Key, count: nat, s: real, t: real)
    requires ValidConfig(cfg) && Sane(cfg, table, t) && t <= e.now && WithinQuota(cfg, table, key, count, s, t)
    ensures WithinQuota(cfg, Step(cfg, true, table, e), key,
                        count + if e.Check? && e.key == key && Answer(cfg, table, e) then 1 else 0, s, e.now)
  {
    TokensGrow(cfg, table, key, t, e.now);
    SaneLater(cfg, table, t, e.now);
    TokensSpent(cfg, table, e, key);
    GainAdds(Limit(cfg, key.1).1, t - s, e.now - t);
  }

  // The end of the stretch `lo..hi`: its last event, or its start if it is empty.
  ghost function EndOf(events: seq<Event>, lo: nat, hi: nat): real
    requires lo <= hi <= |events| && lo < |events|
  {
    if hi == lo then events[lo].now else events[hi - 1].now
  }

  lemma {:induction false} SaneAtEnd(cfg: Config, events: seq<Event>, lo: nat, hi: nat)
    requires ValidConfig(cfg) && Timed(events) && lo <= hi <= |events| && lo < |events|
    ensures Sane(cfg, TableAfter(cfg, true, events, hi), EndOf(events, lo, hi))
  {
    TokensBounded(cfg, true, events, hi);
    SaneLater(cfg, TableAfter(cfg, true, events, hi), Before(events, hi), EndOf(events, lo, hi));
  }

  lemma {:induction false} EmptyStretch(cfg: Config, table: Table, key: Key, now: real)
    requires ValidConfig(cfg)
    ensures WithinQuota(cfg, table, key, 0, now, now) || !Sane(cfg, table, now)
  {
    if key in table && Sane(cfg, table, now) {
      assert SaneBucket(cfg, key, table[key], now);
    }
  }

  lemma {:induction false} Budget(cfg: Config, events: seq<Event>, key: Key, lo: nat, hi: nat)
    requires ValidConfig(cfg) && Timed(events) && lo <= hi <= |events| && lo < |events|
    ensures WithinQuota(cfg, TableAfter(cfg, true, events, hi), key, AllowedCount(cfg, true, events, key, lo, hi),
                        events[lo].now, EndOf(events, lo, hi))
  {
    if hi == lo {
      SaneAtEnd(cfg, events, lo, lo);
      EmptyStretch(cfg, TableAfter(cfg, true, events, lo), key, events[lo].now);
    } else {
      Budget(cfg, events, key, lo, hi - 1);
      BudgetNext(cfg, events, key, lo, hi - 1);
    }
  }

  lemma {:induction false} BudgetNext(cfg: Config, events: seq<Event>, key: Key, lo: nat, hi: nat)
    requires ValidConfig(cfg) && Timed(events) && lo <= hi < |events|
    requires WithinQuota(cfg, TableAfter(cfg, true, events, hi), key, AllowedCount(cfg, true, events, key, lo, hi),
                        events[lo].now, EndOf(events, lo, hi))
    ensures WithinQuota(cfg, TableAfter(cfg, true, events, hi + 1), key,
                        AllowedCount(cfg, true, events, key, lo, hi + 1), events[lo].now, EndOf(events, lo, hi + 1))
  {
    SaneAtEnd(cfg, events, lo, hi);
    BudgetStep(cfg, TableAfter(cfg, true, events, hi), events[hi], key,
               AllowedCount(cfg, true, events, key, lo, hi), events[lo].now, EndOf(events, lo, hi));
  }

  /**
   * For every key and every stretch of a run, the requests allowed are at most
   * the capacity plus the rate times the time the stretch takes.
   */
  lemma {:induction false} RateBound(cfg: Config, events: seq<Event>, key: Key, lo: nat, hi: nat)
    requires ValidConfig(cfg) && Timed(events) && lo < hi <= |events|
    ensures AllowedCount(cfg, true, events, key, lo, hi) as real
            <= Limit(cfg, key.1).0 as real + Gain(Limit(cfg, key.1).1, events[hi - 1].now - events[lo].now)
  {
    var s, t := events[lo].now, events[hi - 1].now;
    var table := StretchEnd(cfg, events, key, lo, hi, t);
    QuotaBound(cfg, table, key, AllowedCount(cfg, true, events, key, lo, hi), s, t);
  }

  lemma {:induction false} StretchEnd(cfg: Config, events: seq<Event>, key: Key, lo: nat, hi: nat, t: real)
    returns (table: Table)
    requires ValidConfig(cfg) && Timed(events) && lo < hi <= |events| && t == events[hi - 1].now
    ensures Sane(cfg, table, t)
    ensures WithinQuota(cfg, table, key, AllowedCount(cfg, true, events, key, lo, hi), events[lo].now, t)
  {
    table := TableAfter(cfg, true, events, hi);
    SaneAtEnd(cfg, events, lo, hi);
    Budget(cfg, events, key, lo, hi);
  }

  lemma {:induction false} QuotaBound(cfg: Config, table: Table, key: Key, count: nat, s: real, t: real)
    requires ValidConfig(cfg) && Sane(cfg, table, t) && WithinQuota(cfg, table, key, count, s, t)
    ensures count as real <= Limit(cfg, key.1).0 as real + Gain(Limit(cfg, key.1).1, t - s)
  {
    TokensNonNegative(cfg, table, key, t);
  }

  lemma {:induction false} SameCount(cfg: Config, events: seq<Event>, key: Key, lo: nat, hi: nat)
    requires cfg.window > 0.0 && CleanupUnobservable(cfg) && Timed(events) && lo <= hi <= |events|
    ensures AllowedCount(cfg, false, events, key, lo, hi) == AllowedCount(cfg, true, events, key, lo, hi)
  {
    if lo < hi {
      SameCount(cfg, events, key, lo, hi - 1);
    }
  }

  /** The bound survives cleanups that cannot be observed. */
  lemma {:induction false} RateBoundWithCleanup(cfg: Config, events: seq<Event>, key: Key, lo: nat, hi: nat)
    requires ValidConfig(cfg) && CleanupUnobservable(cfg) && Timed(events) && lo < hi <= |events|
    ensures AllowedCount(cfg, false, events, key, lo, hi) as real
            <= Limit(cfg, key.1).0 as real + Gain(Limit(cfg, key.1).1, events[hi - 1].now - events[lo].now)
  {
    SameCount(cfg, events, key, lo, hi);
    RateBound(cfg, events, key, lo, hi);
  }
}
