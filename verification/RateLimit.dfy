/** Token buckets per (ip, path), and a cleanup that drops the stale ones. */
module RateLimit {

  type Key = (string, string)

  datatype Bucket = Bucket(capacity: int, rate: real, tokens: real, lastRefill: real)

  // Default capacity and window in seconds, and per-path (capacity, rate).
  datatype Config = Config(capacity: int, window: real, limits: map<string, (int, real)>)

  predicate ValidConfig(cfg: Config)
  {
    && cfg.capacity >= 0 && cfg.window > 0.0
    && forall path :: path in cfg.limits ==> cfg.limits[path].0 >= 0 && cfg.limits[path].1 >= 0.0
  }

  function Limit(cfg: Config, path: string): (int, real)
    requires cfg.window > 0.0
  {
    if path in cfg.limits then cfg.limits[path] else (cfg.capacity, cfg.capacity as real / cfg.window)
  }

  /******* Buckets *******/

  function MinReal(a: real, b: real): real { if a <= b then a else b }

  function Fresh(cfg: Config, path: string, now: real): Bucket
    requires cfg.window > 0.0
  {
    Bucket(Limit(cfg, path).0, Limit(cfg, path).1, Limit(cfg, path).0 as real, now)
  }

  // What `elapsed` seconds at `rate` add.
  function Gain(rate: real, elapsed: real): real
  {
    elapsed * rate
  }

  function Refill(b: Bucket, now: real): Bucket
  {
    b.(tokens := MinReal(b.capacity as real, b.tokens + Gain(b.rate, now - b.lastRefill)), lastRefill := now)
  }

  predicate Allows(b: Bucket, now: real)
  {
    Refill(b, now).tokens >= 1.0
  }

  function Consume(b: Bucket, now: real): Bucket
  {
    var r := Refill(b, now);
    if r.tokens >= 1.0 then r.(tokens := r.tokens - 1.0) else r
  }

  /******* The limiter *******/

  type Table = map<Key, Bucket>

  datatype Event = Check(key: Key, now: real) | Cleanup(now: real)

  function BucketFor(cfg: Config, table: Table, key: Key, now: real): Bucket
    requires cfg.window > 0.0
  {
    if key in table then table[key] else Fresh(cfg, key.1, now)
  }

  function Cutoff(cfg: Config, now: real): real
  {
    now - cfg.window * 2.0
  }

  function Cleaned(cfg: Config, table: Table, now: real): Table
  {
    map key | key in table && table[key].lastRefill >= Cutoff(cfg, now) :: table[key]
  }

  // One event; with `keep`, cleanups do nothing.
  function Step(cfg: Config, keep: bool, table: Table, e: Event): Table
    requires cfg.window > 0.0
  {
    match e
    case Check(key, now) => table[key := Consume(BucketFor(cfg, table, key, now), now)]
    case Cleanup(now) => if keep then table else Cleaned(cfg, table, now)
  }

  // The answer to an event; a cleanup answers nothing.
  predicate Answer(cfg: Config, table: Table, e: Event)
    requires cfg.window > 0.0
  {
    match e
    case Check(key, now) => Allows(BucketFor(cfg, table, key, now), now)
    case Cleanup(_) => false
  }

  function TableAfter(cfg: Config, keep: bool, events: seq<Event>, n: nat): Table
    requires cfg.window > 0.0 && n <= |events|
  {
    if n == 0 then map[] else Step(cfg, keep, TableAfter(cfg, keep, events, n - 1), events[n - 1])
  }

  // Whether the `n`th event of a run from an empty limiter is allowed.
  predicate Allowed(cfg: Config, keep: bool, events: seq<Event>, n: nat)
    requires cfg.window > 0.0 && n < |events|
  {
    Answer(cfg, TableAfter(cfg, keep, events, n), events[n])
  }

  // The clock never runs backwards.
  ghost predicate Timed(events: seq<Event>)
  {
    forall i, j :: 0 <= i < j < |events| ==> events[i].now <= events[j].now
  }

  /******* The program *******/

  class BucketObject {
    const capacity: int
    const rate: real
    var tokens: real
    var lastRefill: real

    constructor (capacity: int, rate: real, now: real)
      ensures State() == Bucket(capacity, rate, capacity as real, now)
    {
      this.capacity, this.rate := capacity, rate;
      tokens, lastRefill := capacity as real, now;
    }

    function State(): Bucket
      reads this
    {
      Bucket(capacity, rate, tokens, lastRefill)
    }

    method RefillAt(now: real)
      modifies this
      ensures State() == Refill(old(State()), now)
    {
      var elapsed := now - lastRefill;
      tokens := MinReal(capacity as real, tokens + elapsed * rate);
      lastRefill := now;
    }

    method ConsumeAt(now: real) returns (allowed: bool)
      modifies this
      ensures State() == Consume(old(State()), now) && allowed == Allows(old(State()), now)
    {
      RefillAt(now);
      if tokens >= 1.0 {
        tokens := tokens - 1.0;
        return true;
      }
      return false;
    }
  }

  class Limiter {
    const cfg: Config
    var buckets: map<Key, BucketObject>

    ghost predicate Valid()
      reads this
    {
      && cfg.window > 0.0
      && forall k, l :: k in buckets && l in buckets && buckets[k] == buckets[l] ==> k == l
    }

    ghost function View(): Table
      reads this, buckets.Values
    {
      map key | key in buckets :: buckets[key].State()
    }

    constructor (cfg: Config)
      requires cfg.window > 0.0
      ensures Valid() && View() == map[] && this.cfg == cfg && buckets == map[]
    {
      this.cfg := cfg;
      buckets := map[];
    }

    method CheckAt(ip: string, path: string, now: real) returns (allowed: bool)
      requires Valid()
      modifies this, buckets.Values
      ensures Valid() && fresh(buckets.Values - old(buckets.Values))
      ensures View() == Step(cfg, false, old(View()), Check((ip, path), now))
      ensures allowed == Answer(cfg, old(View()), Check((ip, path), now))
    {
      var key := (ip, path);
      if key !in buckets {
        var (capacity, rate) := Limit(cfg, path);
        var bucket := new BucketObject(capacity, rate, now);
        buckets := buckets[key := bucket];
      }
      allowed := buckets[key].ConsumeAt(now);
    }

    method CleanupAt(now: real)
      requires Valid()
      modifies this`buckets
      ensures Valid() && buckets.Values <= old(buckets.Values)
      ensures View() == Step(cfg, false, old(View()), Cleanup(now))
    {
      var cutoff := now - cfg.window * 2.0;
      var stale := set key | key in buckets && buckets[key].lastRefill < cutoff;
      buckets := buckets - stale;
    }
  }
}
