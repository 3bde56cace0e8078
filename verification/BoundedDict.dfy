/** A capped hand-off buffer: assignments reorder, the oldest entries are evicted. */
module BoundedDict {
  import opened Sets

  // One operation on the buffer: `d[k] = v`, `d.setdefault(k, v)` and `d.pop(k)`.
  datatype Op<K, V> = Set(key: K, value: V) | SetDefault(key: K, value: V) | Pop(key: K)

  // The entries in order, oldest first.
  datatype Dict<K, V> = Dict(order: seq<K>, values: map<K, V>)

  function Without<K(==)>(order: seq<K>, key: K): seq<K>
  {
    if order == [] then []
    else (if order[0] == key then [] else [order[0]]) + Without(order[1..], key)
  }

  // Dropping from the front until at most `maxsize` entries are left.
  function Capped<K, V>(d: Dict<K, V>, maxsize: nat): Dict<K, V>
    decreases |d.order|
  {
    if |d.order| <= maxsize then d
    else Capped(Dict(d.order[1..], d.values - {d.order[0]}), maxsize)
  }

  function Step<K(==), V>(d: Dict<K, V>, op: Op<K, V>, maxsize: nat): Dict<K, V>
  {
    match op
    case Set(k, v) => Capped(Dict(Without(d.order, k) + [k], d.values[k := v]), maxsize)
    case SetDefault(k, v) =>
      if k in d.values then Dict(Without(d.order, k) + [k], d.values)
      else Capped(Dict(d.order + [k], d.values[k := v]), maxsize)
    case Pop(k) => Dict(Without(d.order, k), d.values - {k})
  }

  // The buffer after the first `n` operations of a history.
  function Run<K(==), V>(h: seq<Op<K, V>>, n: nat, maxsize: nat): Dict<K, V>
    requires n <= |h|
  {
    if n == 0 then Dict([], map[]) else Step(Run(h, n - 1, maxsize), h[n - 1], maxsize)
  }

  /******* What a history says *******/

  // The operation that last touched `key`, or -1 if it was popped since or never touched.
  ghost function Touch<K(!new), V>(h: seq<Op<K, V>>, n: nat, key: K): int
    requires n <= |h|
  {
    if n == 0 then -1
    else if h[n - 1].key == key then (if h[n - 1].Pop? then -1 else n - 1)
    else Touch(h, n - 1, key)
  }

  ghost function Keys<K(!new), V>(h: seq<Op<K, V>>): set<K>
  {
    set i | 0 <= i < |h| :: h[i].key
  }

  // The keys last touched after operation `i`.
  ghost function TouchedSince<K(!new), V>(h: seq<Op<K, V>>, n: nat, i: int): set<K>
    requires n <= |h|
  {
    set k | k in Keys(h) && Touch(h, n, k) > i
  }

  // At no time since operation `i` did newer keys fill the buffer.
  ghost predicate Room<K(!new), V>(h: seq<Op<K, V>>, n: nat, i: int, maxsize: nat)
    requires n <= |h|
  {
    forall m: nat :: i < m <= n ==> |TouchedSince(h, m, i)| < maxsize
  }

  // The history leaves `key` in a buffer of that size.
  ghost predicate Kept<K(!new), V>(h: seq<Op<K, V>>, n: nat, key: K, maxsize: nat)
    requires n <= |h|
  {
    Touch(h, n, key) >= 0 && Room(h, n, Touch(h, n, key), maxsize)
  }

  // The operation that last stored a value for `key`: an assignment, or a default
  // for a key that was not in the buffer at that time.
  ghost function Write<K(!new), V>(h: seq<Op<K, V>>, n: nat, key: K, maxsize: nat): int
    requires n <= |h|
    ensures var w := Write(h, n, key, maxsize); -1 <= w < n && (w >= 0 ==> !h[w].Pop?)
  {
    if n == 0 then -1
    else
      var op := h[n - 1];
      if op.key == key && (op.Set? || (op.SetDefault? && !Kept(h, n - 1, key, maxsize))) then n - 1
      else Write(h, n - 1, key, maxsize)
  }

  /******* The buffer against its history *******/

  ghost function KeySet<K>(order: seq<K>): set<K>
  {
    set k | k in order
  }

  // The entries stand in the order of their last touches.
  ghost predicate InTouchOrder<K(!new), V>(h: seq<Op<K, V>>, n: nat, order: seq<K>)
    requires n <= |h|
  {
    && (forall k :: k in order ==> Touch(h, n, k) >= 0)
    && (forall p, q :: 0 <= p < q < |order| ==> Touch(h, n, order[p]) < Touch(h, n, order[q]))
  }

  // Every key touched after the oldest entry is in the buffer.
  ghost predicate Newest<K(!new), V>(h: seq<Op<K, V>>, n: nat, order: seq<K>)
    requires n <= |h|
  {
    order != [] ==> forall k :: Touch(h, n, k) > Touch(h, n, order[0]) ==> k in order
  }

  ghost predicate ExactlyKept<K(!new), V>(h: seq<Op<K, V>>, n: nat, order: seq<K>, maxsize: nat)
    requires n <= |h|
  {
    forall k :: k in order <==> Kept(h, n, k, maxsize)
  }

  ghost predicate Stored<K(!new), V>(h: seq<Op<K, V>>, n: nat, values: map<K, V>, maxsize: nat)
    requires n <= |h|
  {
    forall k :: k in values ==> var w := Write(h, n, k, maxsize); w >= 0 && h[w].key == k && values[k] == h[w].value
  }

  /**
   * The buffer is what its history says: exactly the kept keys, in the order of
   * their last touches, each with the value last stored for it.
   */
  ghost predicate Follows<K(!new), V>(h: seq<Op<K, V>>, n: nat, d: Dict<K, V>, maxsize: nat)
    requires n <= |h|
  {
    && InTouchOrder(h, n, d.order) && ExactlyKept(h, n, d.order, maxsize)
    && d.values.Keys == KeySet(d.order) && Stored(h, n, d.values, maxsize)
  }

  // Such a buffer, within its size, with nothing newer than its oldest entry left out.
  ghost predicate Right<K(!new), V>(h: seq<Op<K, V>>, n: nat, d: Dict<K, V>, maxsize: nat)
    requires n <= |h|
  {
    Follows(h, n, d, maxsize) && Newest(h, n, d.order) && |d.order| <= maxsize
  }

  lemma {:induction false} TouchIsAnOp<K(!new), V>(h: seq<Op<K, V>>, n: nat, key: K)
    requires n <= |h|
    ensures var t := Touch(h, n, key); -1 <= t < n && (t >= 0 ==> h[t].key == key && key in Keys(h))
  {
    if n > 0 {
      TouchIsAnOp(h, n - 1, key);
    }
  }

  lemma {:induction false} WithoutKey<K>(order: seq<K>, key: K)
    ensures forall k :: k in Without(order, key) <==> k in order && k != key
    ensures key !in order ==> Without(order, key) == order
  {
    if order != [] {
      WithoutKey(order[1..], key);
      assert order == [order[0]] + order[1..];
    }
  }

  lemma {:induction false} WithoutSize<K>(order: seq<K>, key: K)
    ensures |Without(order, key)| <= |order| && (key in order ==> |Without(order, key)| < |order|)
  {
    if order != [] {
      assert order == [order[0]] + order[1..];
      WithoutSize(order[1..], key);
    }
  }

  // Everything behind the first entry was touched after it.
  lemma {:induction false} TailInOrder<K(!new), V>(h: seq<Op<K, V>>, n: nat, order: seq<K>)
    requires n <= |h| && order != [] && InTouchOrder(h, n, order)
    ensures InTouchOrder(h, n, order[1..])
    ensures forall k :: k in order[1..] ==> Touch(h, n, order[0]) < Touch(h, n, k)
  {
    var rest := order[1..];
    assert forall p :: 0 <= p < |rest| ==> rest[p] == order[p + 1];
  }

  lemma {:induction false} HeadInOrder<K(!new), V>(h: seq<Op<K, V>>, n: nat, k: K, rest: seq<K>)
    requires n <= |h| && InTouchOrder(h, n, rest) && Touch(h, n, k) >= 0
    requires forall r :: r in rest ==> Touch(h, n, k) < Touch(h, n, r)
    ensures InTouchOrder(h, n, [k] + rest)
  {
    var order := [k] + rest;
    assert forall p :: 1 <= p < |order| ==> order[p] == rest[p - 1] && order[p] in rest;
  }

  // Removing a key keeps the order of the others.
  lemma {:induction false} WithoutInOrder<K(!new), V>(h: seq<Op<K, V>>, n: nat, order: seq<K>, key: K)
    requires n <= |h| && InTouchOrder(h, n, order)
    ensures InTouchOrder(h, n, Without(order, key))
  {
    if order != [] {
      TailInOrder(h, n, order);
      WithoutInOrder(h, n, order[1..], key);
      WithoutKey(order[1..], key);
      if order[0] != key {
        HeadInOrder(h, n, order[0], Without(order[1..], key));
      }
    }
  }

  lemma {:induction false} OrderedSize<K(!new), V>(h: seq<Op<K, V>>, n: nat, order: seq<K>)
    requires n <= |h| && InTouchOrder(h, n, order)
    ensures |KeySet(order)| == |order|
  {
    if order != [] {
      var rest := order[1..];
      assert order == [order[0]] + rest;
      assert forall p :: 0 <= p < |rest| ==> rest[p] == order[p + 1];
      OrderedSize(h, n, rest);
      forall p | 0 <= p < |rest| ensures rest[p] != order[0] {
        assert Touch(h, n, order[0]) < Touch(h, n, order[p + 1]);
      }
      assert KeySet(order) == {order[0]} + KeySet(rest);
    }
  }

  // What was touched since an entry is what stands behind it.
  lemma {:induction false} TouchedBehind<K(!new), V>(h: seq<Op<K, V>>, n: nat, order: seq<K>, p: nat)
    requires n <= |h| && InTouchOrder(h, n, order) && Newest(h, n, order) && p < |order|
    ensures |TouchedSince(h, n, Touch(h, n, order[p]))| == |order| - 1 - p
  {
    var behind := order[p + 1..];
    assert forall q :: 0 <= q < |behind| ==> behind[q] == order[p + 1 + q];
    forall k ensures k in TouchedSince(h, n, Touch(h, n, order[p])) <==> k in behind {
      TouchIsAnOp(h, n, k);
      if k in TouchedSince(h, n, Touch(h, n, order[p])) {
        var q :| 0 <= q < |order| && order[q] == k;
        assert q > p;
        assert behind[q - p - 1] == k;
      }
    }
    assert TouchedSince(h, n, Touch(h, n, order[p])) == KeySet(behind);
    OrderedSize(h, n, behind);
  }

  // The order after operation `n`, before anything is evicted.
  ghost function Moved<K(!new), V>(h: seq<Op<K, V>>, n: nat, order: seq<K>): seq<K>
    requires n < |h|
  {
    Without(order, h[n].key) + if h[n].Pop? then [] else [h[n].key]
  }

  lemma {:induction false} MovedKeys<K(!new), V>(h: seq<Op<K, V>>, n: nat, order: seq<K>)
    requires n < |h|
    ensures forall k :: k in Moved(h, n, order) <==> (if k == h[n].key then !h[n].Pop? else k in order)
  {
    WithoutKey(order, h[n].key);
  }

  lemma {:induction false} MovedTouches<K(!new), V>(h: seq<Op<K, V>>, n: nat, order: seq<K>)
    requires n < |h| && InTouchOrder(h, n, order)
    ensures InTouchOrder(h, n + 1, Moved(h, n, order))
  {
    var key, kept := h[n].key, Without(order, h[n].key);
    WithoutInOrder(h, n, order, key);
    WithoutKey(order, key);
    forall p | 0 <= p < |kept| ensures Touch(h, n + 1, kept[p]) == Touch(h, n, kept[p]) < n {
      assert kept[p] in kept;
      TouchIsAnOp(h, n, kept[p]);
    }
  }

  lemma {:induction false} MovedNewest<K(!new), V>(h: seq<Op<K, V>>, n: nat, order: seq<K>)
    requires n < |h| && InTouchOrder(h, n, order) && Newest(h, n, order)
    ensures Newest(h, n + 1, Moved(h, n, order))
  {
    var key, moved := h[n].key, Moved(h, n, order);
    MovedKeys(h, n, order);
    if moved != [] {
      forall k | Touch(h, n + 1, k) > Touch(h, n + 1, moved[0]) ensures k in moved {
        TouchIsAnOp(h, n + 1, k);
        assert moved[0] in moved;
        if k != key && moved[0] != key {
          assert Touch(h, n, moved[0]) >= Touch(h, n, order[0]);
        }
      }
    }
  }

  // Evicting the oldest entry keeps the order.
  lemma {:induction false} EvictedInOrder<K(!new), V>(h: seq<Op<K, V>>, n: nat, order: seq<K>)
    requires n <= |h| && order != [] && InTouchOrder(h, n, order) && Newest(h, n, order)
    ensures InTouchOrder(h, n, order[1..]) && Newest(h, n, order[1..])
    ensures forall k :: k in order[1..] <==> k in order && k != order[0]
  {
    var rest := order[1..];
    assert order == [order[0]] + rest;
    assert forall p :: 0 <= p < |rest| ==> rest[p] == order[p + 1];
    forall p | 0 <= p < |rest| ensures rest[p] != order[0] {
      assert Touch(h, n, order[0]) < Touch(h, n, order[p + 1]);
    }
  }

  ghost function Last<K>(order: seq<K>, maxsize: nat): seq<K>
  {
    if |order| <= maxsize then order else order[|order| - maxsize..]
  }

  lemma {:induction false} LastInOrder<K(!new), V>(h: seq<Op<K, V>>, n: nat, order: seq<K>, maxsize: nat)
    requires n <= |h| && InTouchOrder(h, n, order) && Newest(h, n, order) && |order| <= maxsize + 1
    ensures var last := Last(order, maxsize);
      && InTouchOrder(h, n, last) && Newest(h, n, last)
      && forall k :: k in last <==> k in order && (|order| > maxsize ==> k != order[0])
  {
    if |order| > maxsize {
      EvictedInOrder(h, n, order);
    }
  }

  // A key that is still there: nothing newer ever filled the buffer.
  lemma {:induction false} StillKept<K(!new), V>(h: seq<Op<K, V>>, n: nat, order: seq<K>, maxsize: nat, k: K)
    requires n < |h| && InTouchOrder(h, n + 1, order) && Newest(h, n + 1, order) && |order| <= maxsize && k in order
    requires k != h[n].key ==> Kept(h, n, k, maxsize)
    ensures Kept(h, n + 1, k, maxsize)
  {
    var t := Touch(h, n + 1, k);
    var p :| 0 <= p < |order| && order[p] == k;
    TouchedBehind(h, n + 1, order, p);
    forall m: nat | t < m <= n + 1 ensures |TouchedSince(h, m, t)| < maxsize {
      if m <= n {
        assert Room(h, n, t, maxsize);
      }
    }
  }

  // A key that is not there: evicted now, or not kept before.
  lemma {:induction false} NotKept<K(!new), V>(h: seq<Op<K, V>>, n: nat, order: seq<K>, maxsize: nat, k: K)
    requires n < |h| && InTouchOrder(h, n + 1, order) && Newest(h, n + 1, order) && |order| <= maxsize + 1
    requires k !in Last(order, maxsize) && (k == h[n].key ==> k in order || h[n].Pop?)
    requires k !in order && k != h[n].key ==> !Kept(h, n, k, maxsize)
    ensures !Kept(h, n + 1, k, maxsize)
  {
    var t := Touch(h, n + 1, k);
    TouchIsAnOp(h, n + 1, k);
    LastInOrder(h, n + 1, order, maxsize);
    if k in order {
      TouchedBehind(h, n + 1, order, 0);
    } else if k != h[n].key && t >= 0 {
      var m: nat :| t < m <= n && |TouchedSince(h, m, t)| >= maxsize;
      assert !Room(h, n + 1, t, maxsize);
    }
  }

  // Whether the history keeps a key, after operation `n`.
  lemma {:induction false} KeptAfter<K(!new), V>(h: seq<Op<K, V>>, n: nat, moved: seq<K>, maxsize: nat, k: K)
    requires n < |h| && InTouchOrder(h, n + 1, moved) && Newest(h, n + 1, moved) && |moved| <= maxsize + 1
    requires k == h[n].key ==> k in moved || h[n].Pop?
    requires k != h[n].key ==> (k in moved <==> Kept(h, n, k, maxsize))
    ensures k in Last(moved, maxsize) <==> Kept(h, n + 1, k, maxsize)
  {
    LastInOrder(h, n + 1, moved, maxsize);
    if k in Last(moved, maxsize) {
      StillKept(h, n, Last(moved, maxsize), maxsize, k);
    } else {
      NotKept(h, n, moved, maxsize, k);
    }
  }

  // Which keys the history keeps, after operation `n`.
  lemma {:induction false} MovedKept<K(!new), V>(h: seq<Op<K, V>>, n: nat, order: seq<K>, maxsize: nat)
    requires n < |h| && InTouchOrder(h, n, order) && Newest(h, n, order)
    requires ExactlyKept(h, n, order, maxsize) && |order| <= maxsize
    ensures ExactlyKept(h, n + 1, Last(Moved(h, n, order), maxsize), maxsize)
  {
    var moved := Moved(h, n, order);
    MovedTouches(h, n, order);
    MovedNewest(h, n, order);
    MovedKeys(h, n, order);
    WithoutSize(order, h[n].key);
    forall k ensures k in Last(moved, maxsize) <==> Kept(h, n + 1, k, maxsize) {
      assert k in order <==> Kept(h, n, k, maxsize);
      KeptAfter(h, n, moved, maxsize, k);
    }
  }

  // What is left after operation `n` is in order and holds everything newer.
  lemma {:induction false} MovedLast<K(!new), V>(h: seq<Op<K, V>>, n: nat, order: seq<K>, maxsize: nat)
    requires n < |h| && InTouchOrder(h, n, order) && Newest(h, n, order) && |order| <= maxsize
    ensures var last := Last(Moved(h, n, order), maxsize);
      && InTouchOrder(h, n + 1, last) && Newest(h, n + 1, last) && |last| <= maxsize
      && forall k :: k in last <==>
           k in Moved(h, n, order) && (|Moved(h, n, order)| > maxsize ==> k != Moved(h, n, order)[0])
  {
    MovedTouches(h, n, order);
    MovedNewest(h, n, order);
    WithoutSize(order, h[n].key);
    LastInOrder(h, n + 1, Moved(h, n, order), maxsize);
  }

  lemma {:induction false} CappedOnce<K, V>(d: Dict<K, V>, maxsize: nat)
    requires |d.order| <= maxsize + 1
    ensures Capped(d, maxsize) ==
      if |d.order| <= maxsize then d else Dict(Last(d.order, maxsize), d.values - {d.order[0]})
  {
  }

  // What an operation leaves stored for a key that is there afterwards.
  ghost function NewValue<K, V>(op: Op<K, V>, values: map<K, V>, k: K): V
    requires k == op.key || k in values
    requires k == op.key ==> !op.Pop?
  {
    if k == op.key && (op.Set? || k !in values) then op.value else values[k]
  }

  // One step moves the key to the end and drops what is then too much.
  lemma {:induction false} StepOrder<K(!new), V>(h: seq<Op<K, V>>, n: nat, d: Dict<K, V>, maxsize: nat)
    requires n < |h| && d.values.Keys == KeySet(d.order) && |d.order| <= maxsize
    ensures var after, moved := Step(d, h[n], maxsize), Moved(h, n, d.order);
      && after.order == Last(moved, maxsize)
      && (forall k :: k in after.values <==> k in moved && (|moved| > maxsize ==> k != moved[0]))
      && (forall k :: k in after.values ==>
            (if k == h[n].key then !h[n].Pop? else k in d.values) && after.values[k] == NewValue(h[n], d.values, k))
  {
    var key := h[n].key;
    WithoutKey(d.order, key);
    WithoutSize(d.order, key);
    match h[n]
    case Set(k, v) => CappedOnce(Dict(Without(d.order, k) + [k], d.values[k := v]), maxsize);
    case SetDefault(k, v) => CappedOnce(Dict(d.order + [k], d.values[k := v]), maxsize);
    case Pop(_) =>
  }

  lemma {:induction false} StepStored<K(!new), V>(h: seq<Op<K, V>>, n: nat, values: map<K, V>, after: map<K, V>,
                                                    maxsize: nat)
    requires n < |h| && Stored(h, n, values, maxsize)
    requires forall k :: k in values <==> Kept(h, n, k, maxsize)
    requires forall k ::
             k in after ==> (if k == h[n].key then !h[n].Pop? else k in values) && after[k] == NewValue(h[n], values, k)
    ensures Stored(h, n + 1, after, maxsize)
  {
  }

  lemma {:induction false} StepFollows<K(!new), V>(h: seq<Op<K, V>>, n: nat, d: Dict<K, V>, maxsize: nat)
    requires n < |h| && Right(h, n, d, maxsize)
    ensures Right(h, n + 1, Step(d, h[n], maxsize), maxsize)
  {
    var after := Step(d, h[n], maxsize);
    MovedKept(h, n, d.order, maxsize);
    MovedLast(h, n, d.order, maxsize);
    StepOrder(h, n, d, maxsize);
    assert after.values.Keys == KeySet(after.order);
    assert Stored(h, n + 1, after.values, maxsize) by {
      assert forall k :: k in d.values <==> k in d.order;
      StepStored(h, n, d.values, after.values, maxsize);
    }
  }

  lemma {:induction false} StartFollows<K(!new), V>(h: seq<Op<K, V>>, maxsize: nat)
    ensures Right(h, 0, Dict([], map[]), maxsize)
  {
  }

  /**
   * After any operations the buffer is what the history says: it holds exactly the
   * keys since whose last touch fewer than `maxsize` newer keys were ever there at
   * once, in touch order, each with the value last assigned or inserted.
   */
  lemma {:induction false} RunFollows<K(!new), V>(h: seq<Op<K, V>>, n: nat, maxsize: nat)
    requires n <= |h|
    ensures Right(h, n, Run(h, n, maxsize), maxsize)
  {
    if n == 0 {
      StartFollows(h, maxsize);
    } else {
      RunFollows(h, n - 1, maxsize);
      StepFollows(h, n - 1, Run(h, n - 1, maxsize), maxsize);
    }
  }

  lemma {:induction false} KeysAgree<K(!new), V>(h: seq<Op<K, V>>, n: nat, maxsize: nat, key: K)
    requires n <= |h|
    ensures var d := Run(h, n, maxsize); key in d.values <==> key in d.order
  {
    RunFollows(h, n, maxsize);
    assert key in Run(h, n, maxsize).values.Keys <==> key in KeySet(Run(h, n, maxsize).order);
  }

  /******* Without pops *******/

  ghost predicate NoPops<K, V>(h: seq<Op<K, V>>)
  {
    forall i :: 0 <= i < |h| ==> !h[i].Pop?
  }

  lemma {:induction false} TouchesStay<K(!new), V>(h: seq<Op<K, V>>, m: nat, n: nat, key: K)
    requires m <= n <= |h| && NoPops(h)
    ensures Touch(h, m, key) <= Touch(h, n, key)
  {
    TouchIsAnOp(h, m, key);
    if m < n {
      TouchesStay(h, m, n - 1, key);
      TouchIsAnOp(h, n - 1, key);
    }
  }

  /**
   * A buffer that is never popped holds exactly the `maxsize` most recently touched
   * distinct keys: those with fewer than `maxsize` distinct keys touched since.
   */
  lemma {:induction false} MostRecentlyTouched<K(!new), V>(h: seq<Op<K, V>>, n: nat, maxsize: nat, key: K)
    requires n <= |h| && NoPops(h)
    ensures key in Run(h, n, maxsize).order <==>
      Touch(h, n, key) >= 0 && |TouchedSince(h, n, Touch(h, n, key))| < maxsize
  {
    RunFollows(h, n, maxsize);
    TouchIsAnOp(h, n, key);
    var t := Touch(h, n, key);
    if t >= 0 {
      forall m: nat | t < m <= n ensures |TouchedSince(h, m, t)| <= |TouchedSince(h, n, t)| {
        forall k ensures Touch(h, m, k) <= Touch(h, n, k) {
          TouchesStay(h, m, n, k);
        }
        SubsetSize(TouchedSince(h, m, t), TouchedSince(h, n, t));
      }
      if |TouchedSince(h, n, t)| >= maxsize {
        assert !Room(h, n, t, maxsize);
      }
    }
  }

  /******* The dictionary itself *******/

  class BoundedDict<K(==, !new), V> {
    const maxsize: nat
    var order: seq<K>
    var values: map<K, V>
    ghost var history: seq<Op<K, V>>

    // The contents are those that the operations so far lead to.
    ghost predicate Valid()
      reads this
    {
      Dict(order, values) == Run(history, |history|, maxsize)
    }

    constructor (maxsize: nat)
      ensures Valid() && history == [] && this.maxsize == maxsize
    {
      this.maxsize := maxsize;
      order, values, history := [], map[], [];
    }

    ghost method Record(op: Op<K, V>)
      modifies this`history
      ensures history == old(history) + [op]
      ensures Run(history, |old(history)|, maxsize) == Run(old(history), |old(history)|, maxsize)
    {
      RunPrefix(history, [op], |history|, maxsize);
      history := history + [op];
    }

    method MoveToEnd(key: K)
      modifies this`order
      ensures order == Without(old(order), key) + [key]
    {
      order := Without(order, key) + [key];
    }

    method PopOldest()
      requires order != []
      modifies this`order, this`values
      ensures order == old(order[1..]) && values == old(values) - {old(order[0])}
    {
      values := values - {order[0]};
      order := order[1..];
    }

    // An assignment, before it is recorded.
    method Assign(key: K, value: V)
      requires key in values <==> key in order
      modifies this`order, this`values
      ensures Dict(order, values) == Capped(old(Dict(Without(order, key) + [key], values[key := value])), maxsize)
    {
      WithoutKey(order, key);
      if key in values {
        MoveToEnd(key);
      } else {
        order := order + [key];
      }
      values := values[key := value];
      ghost var before := Dict(order, values);
      while |order| > maxsize
        invariant Capped(Dict(order, values), maxsize) == Capped(before, maxsize)
      {
        PopOldest();
      }
    }

    method SetItem(key: K, value: V)
      requires Valid()
      modifies this
      ensures Valid() && history == old(history) + [Set(key, value)]
    {
      KeysAgree(history, |history|, maxsize, key);
      Assign(key, value);
      Record(Set(key, value));
    }

    method SetDefault(key: K, default: V) returns (value: V)
      requires Valid()
      modifies this
      ensures Valid() && history == old(history) + [Op.SetDefault(key, default)]
      ensures value == if key in old(values) then old(values)[key] else default
    {
      KeysAgree(history, |history|, maxsize, key);
      if key in values {
        MoveToEnd(key);
        value := values[key];
      } else {
        WithoutKey(order, key);
        Assign(key, default);
        value := default;
      }
      Record(Op.SetDefault(key, default));
    }

    method Take(key: K, missing: V) returns (value: V)
      requires Valid()
      modifies this
      ensures Valid() && history == old(history) + [Pop(key)]
      ensures value == if key in old(values) then old(values)[key] else missing
    {
      value := if key in values then values[key] else missing;
      order, values := Without(order, key), values - {key};
      Record(Pop(key));
    }
  }

  lemma {:induction false} RunPrefix<K, V>(h: seq<Op<K, V>>, more: seq<Op<K, V>>, n: nat, maxsize: nat)
    requires n <= |h|
    ensures Run(h + more, n, maxsize) == Run(h, n, maxsize)
  {
    if n > 0 {
      RunPrefix(h, more, n - 1, maxsize);
    }
  }
}
