/** A resumable benchmark sweep whose progress is read off the stored rows. */
module BenchmarkSweep {
  import opened Wrappers

  // (model, task type)
  type Key = (string, string)
  type Stamp = nat

  // A delegation_capability row: the measured columns, then the provenance ones.
  datatype Row = Row(
    accuracy: Option<real>,
    n: Option<nat>,
    latency: Option<real>,
    cost: Option<real>,
    maxContext: Option<nat>,
    measuredAt: Option<Stamp>,
    failures: nat,
    dormant: bool)

  const EMPTY := Row(None, None, None, None, None, None, 0, false)

  const DORMANCY_THRESHOLD := 3
  const VOICE := "voice"

  type Rows = map<Key, Row>

  // A frozen sweep: its matrix in order, its start and its expiry.
  datatype Sweep = Sweep(matrix: seq<Key>, startedAt: Stamp, expiresAt: Stamp)

  datatype Result = Ok(accuracy: Option<real>, n: Option<nat>, latency: Option<real>) | Failed

  function RowAt(rows: Rows, key: Key): Row
  {
    if key in rows then rows[key] else EMPTY
  }

  /******* What a cell is *******/

  datatype Cell = Done | Pending | Dormant

  // Dormant first, then measured since the start.
  function CellOf(sweep: Sweep, rows: Rows, key: Key): Cell
  {
    var row := RowAt(rows, key);
    if row.dormant then Dormant
    else if row.measuredAt.Some? && row.measuredAt.value >= sweep.startedAt then Done
    else Pending
  }

  ghost predicate Complete(sweep: Sweep, rows: Rows)
  {
    forall key :: key in sweep.matrix ==> CellOf(sweep, rows, key) != Pending
  }

  // Those of the first `n` matrix entries that are of one kind, in matrix order.
  function GroupUpTo(sweep: Sweep, rows: Rows, n: nat, cell: Cell): seq<Key>
    requires n <= |sweep.matrix|
  {
    if n == 0 then []
    else
      var key := sweep.matrix[n - 1];
      GroupUpTo(sweep, rows, n - 1, cell) + if CellOf(sweep, rows, key) == cell then [key] else []
  }

  function Group(sweep: Sweep, rows: Rows, cell: Cell): seq<Key>
  {
    GroupUpTo(sweep, rows, |sweep.matrix|, cell)
  }

  lemma {:induction false} GroupMembers(sweep: Sweep, rows: Rows, n: nat, cell: Cell)
    requires n <= |sweep.matrix|
    ensures forall key ::
            key in GroupUpTo(sweep, rows, n, cell) <==> key in sweep.matrix[..n] && CellOf(sweep, rows, key) == cell
  {
    if n > 0 {
      GroupMembers(sweep, rows, n - 1, cell);
      assert sweep.matrix[..n] == sweep.matrix[..n - 1] + [sweep.matrix[n - 1]];
    }
  }

  // The entries of one kind among the first `n`.
  ghost function KindBefore(sweep: Sweep, rows: Rows, n: nat, cell: Cell): set<nat>
    requires n <= |sweep.matrix|
  {
    set i: nat | i < n && CellOf(sweep, rows, sweep.matrix[i]) == cell
  }

  lemma {:induction false} OneMoreKind(sweep: Sweep, rows: Rows, n: nat, cell: Cell)
    requires n < |sweep.matrix|
    ensures |KindBefore(sweep, rows, n + 1, cell)| ==
            |KindBefore(sweep, rows, n, cell)| + if CellOf(sweep, rows, sweep.matrix[n]) == cell then 1 else 0
  {
    if CellOf(sweep, rows, sweep.matrix[n]) == cell {
      assert KindBefore(sweep, rows, n + 1, cell) == KindBefore(sweep, rows, n, cell) + {n};
    } else {
      assert KindBefore(sweep, rows, n + 1, cell) == KindBefore(sweep, rows, n, cell);
    }
  }

  lemma {:induction false} GroupCount(sweep: Sweep, rows: Rows, n: nat, cell: Cell)
    requires n <= |sweep.matrix|
    ensures |GroupUpTo(sweep, rows, n, cell)| == |KindBefore(sweep, rows, n, cell)|
  {
    if n == 0 {
      assert KindBefore(sweep, rows, 0, cell) == {};
    } else {
      GroupCount(sweep, rows, n - 1, cell);
      OneMoreKind(sweep, rows, n - 1, cell);
    }
  }

  /** Each group has the matrix entries of its kind, in matrix order. */
  lemma {:induction false} GroupInOrder(sweep: Sweep, rows: Rows, n: nat, i: nat)
    requires i < n <= |sweep.matrix|
    ensures var cell := CellOf(sweep, rows, sweep.matrix[i]);
      var k := |KindBefore(sweep, rows, i, cell)|;
      k < |GroupUpTo(sweep, rows, n, cell)| && GroupUpTo(sweep, rows, n, cell)[k] == sweep.matrix[i]
  {
    if i < n - 1 {
      GroupInOrder(sweep, rows, n - 1, i);
    } else {
      GroupCount(sweep, rows, i, CellOf(sweep, rows, sweep.matrix[i]));
    }
  }

  // Measured since the sweep began.
  ghost predicate Measured(sweep: Sweep, row: Row)
  {
    row.measuredAt.Some? && row.measuredAt.value >= sweep.startedAt
  }

  lemma {:induction false} GroupMeaning(sweep: Sweep, rows: Rows, cell: Cell)
    ensures forall key :: key in Group(sweep, rows, cell) <==> key in sweep.matrix && CellOf(sweep, rows, key) == cell
  {
    GroupMembers(sweep, rows, |sweep.matrix|, cell);
    assert sweep.matrix[..|sweep.matrix|] == sweep.matrix;
  }

  /******* Nights *******/

  datatype Outcome = CompleteOutcome | StoppedBusy | StoppedTried | Expired

  // What one night may do to the rows: `tried` are the cells it attempted, in
  // order, `result` what a measurement of each would give.
  ghost predicate Night(sweep: Sweep, before: Rows, result: Key -> Result, tried: seq<Key>, after: Rows)
  {
    && (forall i, j :: 0 <= i < j < |tried| ==> tried[i] != tried[j])
    && (forall key :: key in tried ==> key in sweep.matrix && CellOf(sweep, before, key) == Pending)
    && (forall key :: key !in tried ==> RowAt(after, key) == RowAt(before, key))
    && (forall key :: key in tried ==> Attempted(sweep, RowAt(before, key), key, result(key), RowAt(after, key)))
  }

  // What one attempt does to its row.
  ghost predicate Attempted(sweep: Sweep, before: Row, key: Key, result: Result, after: Row)
  {
    match result
    case Failed =>
      after == before.(failures := before.failures + 1, dormant := before.failures + 1 >= DORMANCY_THRESHOLD)
    case Ok(accuracy, n, latency) =>
      && after.measuredAt.Some? && after.measuredAt.value >= sweep.startedAt
      && after == before.(accuracy := accuracy, n := n, latency := if key.1 == VOICE then before.latency else latency,
                          measuredAt := after.measuredAt, failures := 0, dormant := false)
  }

  // What was measured bears the time of its attempt.
  ghost predicate Stamped(rows: Rows, result: Key -> Result, stamp: nat -> Stamp, tried: seq<Key>)
  {
    forall i :: 0 <= i < |tried| && result(tried[i]).Ok? ==> RowAt(rows, tried[i]).measuredAt == Some(stamp(i))
  }

  lemma {:induction false} StampedNext(before: Rows, after: Rows, result: Key -> Result, stamp: nat -> Stamp,
                                       tried: seq<Key>, key: Key)
    requires Stamped(before, result, stamp, tried) && key !in tried
    requires key in after && after == before[key := after[key]]
    requires result(key).Ok? ==> after[key].measuredAt == Some(stamp(|tried|))
    ensures Stamped(after, result, stamp, tried + [key])
  {
    forall i | 0 <= i < |tried| ensures RowAt(after, tried[i]) == RowAt(before, tried[i]) {
      assert tried[i] != key;
    }
  }

  // The first `a` in the matrix comes before any `b`.
  ghost predicate Precedes(matrix: seq<Key>, a: Key, b: Key)
  {
    exists i :: 0 <= i < |matrix| && matrix[i] == a && b !in matrix[..i + 1]
  }

  // The cells are attempted in matrix order.
  ghost predicate InOrder(matrix: seq<Key>, tried: seq<Key>)
  {
    forall i, j :: 0 <= i < j < |tried| ==> Precedes(matrix, tried[i], tried[j])
  }

  ghost predicate Left(sweep: Sweep, rows: Rows, tried: seq<Key>, key: Key)
  {
    key in sweep.matrix && CellOf(sweep, rows, key) == Pending && key !in tried
  }

  // What is left comes behind what was attempted.
  ghost predicate AllBehind(sweep: Sweep, rows: Rows, tried: seq<Key>)
  {
    forall key, t :: Left(sweep, rows, tried, key) && t in tried ==> Precedes(sweep.matrix, t, key)
  }

  // The night up to here, and what is left of it.
  ghost predicate SoFar(sweep: Sweep, before: Rows, result: Key -> Result, tried: seq<Key>, now: Rows)
  {
    Night(sweep, before, result, tried, now) && InOrder(sweep.matrix, tried) && AllBehind(sweep, now, tried)
  }

  ghost predicate FirstLeft(sweep: Sweep, rows: Rows, tried: seq<Key>, next: Key)
  {
    forall key :: Left(sweep, rows, tried, key) && key != next ==> Precedes(sweep.matrix, next, key)
  }

  // How the night ended.
  ghost predicate EndedWith(sweep: Sweep, after: Rows, tried: seq<Key>, outcome: Outcome)
  {
    match outcome
    case CompleteOutcome => Complete(sweep, after)
    case StoppedTried =>
      && !Complete(sweep, after)
      && forall key :: key in sweep.matrix && CellOf(sweep, after, key) == Pending ==> key in tried
    case StoppedBusy =>
      exists key :: key in sweep.matrix && CellOf(sweep, after, key) == Pending && key !in tried
    case Expired => true
  }

  datatype RunStatus = Running | Finished(dormantCells: nat) | Abandoned

  class Store {
    var rows: Rows
    var status: RunStatus

    constructor ()
      ensures rows == map[] && status == Running
    {
      rows, status := map[], Running;
    }

    method ClassifyCells(sweep: Sweep) returns (done: seq<Key>, pending: seq<Key>, dormant: seq<Key>)
      ensures done == Group(sweep, rows, Done)
      ensures pending == Group(sweep, rows, Pending)
      ensures dormant == Group(sweep, rows, Dormant)
      ensures forall key :: key in dormant <==> key in sweep.matrix && RowAt(rows, key).dormant
      ensures forall key :: key in done <==>
              key in sweep.matrix && !RowAt(rows, key).dormant && Measured(sweep, RowAt(rows, key))
      ensures forall key :: key in pending <==>
              key in sweep.matrix && !RowAt(rows, key).dormant && !Measured(sweep, RowAt(rows, key))
    {
      done, pending, dormant := [], [], [];
      for i := 0 to |sweep.matrix|
        invariant done == GroupUpTo(sweep, rows, i, Done)
        invariant pending == GroupUpTo(sweep, rows, i, Pending)
        invariant dormant == GroupUpTo(sweep, rows, i, Dormant)
      {
        var key := sweep.matrix[i];
        match CellOf(sweep, rows, key)
        case Dormant => dormant := dormant + [key];
        case Done => done := done + [key];
        case Pending => pending := pending + [key];
      }
      GroupMeaning(sweep, rows, Done);
      GroupMeaning(sweep, rows, Pending);
      GroupMeaning(sweep, rows, Dormant);
    }

    method SweepIsComplete(sweep: Sweep) returns (complete: bool)
      ensures complete <==> Complete(sweep, rows)
    {
      var done, pending, dormant := ClassifyCells(sweep);
      GroupMeaning(sweep, rows, Pending);
      assert pending != [] ==> pending[0] in pending;
      complete := pending == [];
    }

    method RecordFailure(key: Key)
      modifies this`rows
      ensures key in rows && rows == old(rows)[key := rows[key]]
      ensures forall sweep: Sweep :: Attempted(sweep, RowAt(old(rows), key), key, Failed, rows[key])
      ensures rows[key].failures == RowAt(old(rows), key).failures + 1
      ensures rows[key].dormant <==> rows[key].failures >= 3
    {
      var failures := RowAt(rows, key).failures + 1;
      rows := rows[key := RowAt(rows, key).(failures := failures, dormant := failures >= DORMANCY_THRESHOLD)];
    }

    // The one path a measurement takes into the table: the measured columns,
    // then the provenance that resets the failure counter and dormancy.
    method WriteCell(key: Key, accuracy: Option<real>, n: Option<nat>, latency: Option<real>, now: Stamp)
      modifies this`rows
      ensures key in rows && rows == old(rows)[key := rows[key]]
      ensures forall sweep: Sweep :: now >= sweep.startedAt ==>
        Attempted(sweep, RowAt(old(rows), key), key, Ok(accuracy, n, latency), rows[key])
      ensures rows[key].measuredAt == Some(now)
    {
      var existing := RowAt(rows, key);
      var kept := latency;
      if key.1 == VOICE {
        kept := existing.latency;
      }
      rows := rows[key := existing.(accuracy := accuracy, n := n, latency := kept)];
      rows := rows[key := rows[key].(measuredAt := Some(now), failures := 0, dormant := false)];
    }

    method Attempt(sweep: Sweep, key: Key, result: Result, now: Stamp)
      requires now >= sweep.startedAt
      modifies this`rows
      ensures key in rows && rows == old(rows)[key := rows[key]]
      ensures Attempted(sweep, RowAt(old(rows), key), key, result, rows[key])
      ensures result.Ok? ==> rows[key].measuredAt == Some(now)
    {
      match result
      case Failed => RecordFailure(key);
      case Ok(accuracy, n, latency) => WriteCell(key, accuracy, n, latency, now);
    }

    method Finish(sweep: Sweep)
      modifies this`status
      ensures status == Finished(|Group(sweep, rows, Dormant)|)
    {
      var done, pending, dormant := ClassifyCells(sweep);
      status := Finished(|dormant|);
    }

    // How the night ends before another attempt, or the cell to attempt next.
    method NextCell(sweep: Sweep, tried: seq<Key>, busy: bool) returns (ended: Option<Outcome>, next: Option<Key>)
      modifies this`status
      ensures ended.Some? ==> EndedWith(sweep, rows, tried, ended.value) && ended.value != Expired
      ensures ended == Some(StoppedBusy) ==> busy
      ensures status == if ended == Some(CompleteOutcome) then Finished(|Group(sweep, rows, Dormant)|) else old(status)
      ensures ended.None? ==> !busy && next.Some? && next.value in sweep.matrix && next.value !in tried
      ensures ended.None? ==> CellOf(sweep, rows, next.value) == Pending
      ensures ended.None? ==> FirstLeft(sweep, rows, tried, next.value)
    {
      var complete := SweepIsComplete(sweep);
      if complete {
        Finish(sweep);
        return Some(CompleteOutcome), None;
      }
      var done, pending, dormant := ClassifyCells(sweep);
      GroupMeaning(sweep, rows, Pending);
      next := FirstUntried(pending, tried);
      if next.Some? {
        ghost var k :| && 0 <= k < |pending| && pending[k] == next.value
                       && forall key :: key in pending[..k] ==> key in tried;
        FirstInMatrix(sweep, rows, tried, k);
      }
      if next == None {
        return Some(StoppedTried), None;
      }
      if busy {
        return Some(StoppedBusy), None;
      }
      return None, next;
    }

    // The night's next attempt.
    method AttemptNext(sweep: Sweep, ghost before: Rows, result: Key -> Result,
                       ghost tried: seq<Key>, key: Key, now: Stamp)
      requires now >= sweep.startedAt && SoFar(sweep, before, result, tried, rows)
      requires Left(sweep, rows, tried, key) && FirstLeft(sweep, rows, tried, key)
      modifies this`rows
      ensures SoFar(sweep, before, result, tried + [key], rows)
      ensures key in rows && rows == old(rows)[key := rows[key]]
      ensures result(key).Ok? ==> rows[key].measuredAt == Some(now)
    {
      ghost var sofar := rows;
      Attempt(sweep, key, result(key), now);
      AttemptOnce(sweep, before, sofar, rows, result, tried, key);
      StaysInOrder(sweep, sofar, rows, tried, key);
    }

    /**
     * One night: measures pending cells until the sweep completes or expires, the
     * box is busy, or every pending cell has had its attempt.  `clock`, `busy` and
     * `stamp` are read once per round, `result` once per cell.
     */
    method RunNight(sweep: Sweep, clock: nat -> Stamp, busy: nat -> bool, result: Key -> Result, stamp: nat -> Stamp)
      returns (outcome: Outcome, tried: seq<Key>)
      requires forall i :: stamp(i) >= sweep.startedAt
      modifies this
      ensures Night(sweep, old(rows), result, tried, rows)
      ensures EndedWith(sweep, rows, tried, outcome) && InOrder(sweep.matrix, tried)
      ensures forall i :: 0 <= i < |tried| ==> clock(i) < sweep.expiresAt && !busy(i)
      ensures Stamped(rows, result, stamp, tried)
      ensures outcome == Expired <==> clock(|tried|) >= sweep.expiresAt
      ensures outcome == StoppedBusy ==> busy(|tried|)
      ensures outcome == CompleteOutcome ==> status == Finished(|Group(sweep, rows, Dormant)|)
      ensures outcome == Expired ==> status == Abandoned
      ensures outcome == StoppedBusy || outcome == StoppedTried ==> status == old(status)
    {
      tried := [];
      while true
        invariant SoFar(sweep, old(rows), result, tried, rows) && status == old(status)
        invariant forall i :: 0 <= i < |tried| ==> clock(i) < sweep.expiresAt && !busy(i)
        invariant Stamped(rows, result, stamp, tried)
        decreases |Untried(sweep.matrix, tried)|
      {
        if clock(|tried|) >= sweep.expiresAt {
          status := Abandoned;
          return Expired, tried;
        }
        var ended, next := NextCell(sweep, tried, busy(|tried|));
        if ended.Some? {
          return ended.value, tried;
        }
        ghost var sofar := rows;
        AttemptNext(sweep, old(rows), result, tried, next.value, stamp(|tried|));
        StampedNext(sofar, rows, result, stamp, tried, next.value);
        FewerLeft(sweep.matrix, tried, next.value);
        tried := tried + [next.value];
      }
    }
  }

  // A cell not tried yet tonight is as it was at the start of the night.
  lemma {:induction false} AttemptOnce(sweep: Sweep, before: Rows, now: Rows, after: Rows,
                                       result: Key -> Result, tried: seq<Key>, key: Key)
    requires Night(sweep, before, result, tried, now)
    requires key in sweep.matrix && key !in tried && CellOf(sweep, now, key) == Pending
    requires key in after && after == now[key := after[key]]
    requires Attempted(sweep, RowAt(now, key), key, result(key), after[key])
    ensures Night(sweep, before, result, tried + [key], after)
  {
    assert forall k :: k in tried + [key] <==> k in tried || k == key;
    assert forall k :: k != key ==> RowAt(after, k) == RowAt(now, k);
  }

  // What comes before an entry of the pending ones in the matrix is before it there.
  lemma {:induction false} InMatrix(sweep: Sweep, rows: Rows, n: nat, k: nat) returns (i: nat)
    requires n <= |sweep.matrix| && k < |GroupUpTo(sweep, rows, n, Pending)|
    ensures i < n && sweep.matrix[i] == GroupUpTo(sweep, rows, n, Pending)[k]
    ensures forall key :: key in sweep.matrix[..i] && CellOf(sweep, rows, key) == Pending ==>
            key in GroupUpTo(sweep, rows, n, Pending)[..k]
  {
    var before := GroupUpTo(sweep, rows, n - 1, Pending);
    if k < |before| {
      i := InMatrix(sweep, rows, n - 1, k);
      assert GroupUpTo(sweep, rows, n, Pending)[..k] == before[..k];
    } else {
      i := n - 1;
      GroupMembers(sweep, rows, n - 1, Pending);
      assert GroupUpTo(sweep, rows, n, Pending)[..k] == before;
    }
  }

  lemma {:induction false} FirstInMatrix(sweep: Sweep, rows: Rows, tried: seq<Key>, k: nat)
    requires var pending := Group(sweep, rows, Pending);
      k < |pending| && forall key :: key in pending[..k] ==> key in tried
    ensures FirstLeft(sweep, rows, tried, Group(sweep, rows, Pending)[k])
  {
    var i := InMatrix(sweep, rows, |sweep.matrix|, k);
    var next := sweep.matrix[i];
    forall key | Left(sweep, rows, tried, key) && key != next ensures Precedes(sweep.matrix, next, key) {
      assert sweep.matrix[..i + 1] == sweep.matrix[..i] + [next];
    }
  }

  lemma {:induction false} StaysInOrder(sweep: Sweep, before: Rows, after: Rows, tried: seq<Key>, next: Key)
    requires InOrder(sweep.matrix, tried) && AllBehind(sweep, before, tried)
    requires Left(sweep, before, tried, next) && FirstLeft(sweep, before, tried, next)
    requires forall key :: key != next ==> RowAt(after, key) == RowAt(before, key)
    ensures InOrder(sweep.matrix, tried + [next]) && AllBehind(sweep, after, tried + [next])
  {
    forall key, t | Left(sweep, after, tried + [next], key) && t in tried + [next]
      ensures Precedes(sweep.matrix, t, key)
    {
      assert next in tried + [next] && forall k :: k in tried ==> k in tried + [next];
      assert Left(sweep, before, tried, key);
    }
  }

  ghost function Untried(matrix: seq<Key>, tried: seq<Key>): set<Key>
  {
    set key | key in matrix && key !in tried
  }

  lemma {:induction false} FewerLeft(matrix: seq<Key>, tried: seq<Key>, key: Key)
    requires key in matrix && key !in tried
    ensures |Untried(matrix, tried + [key])| < |Untried(matrix, tried)|
  {
    assert Untried(matrix, tried + [key]) == Untried(matrix, tried) - {key};
    assert key in Untried(matrix, tried);
  }

  method FirstUntried(pending: seq<Key>, tried: seq<Key>) returns (next: Option<Key>)
    ensures next == None <==> forall key :: key in pending ==> key in tried
    ensures next.Some? ==> next.value in pending && next.value !in tried
    ensures next.Some? ==> exists i :: 0 <= i < |pending| && pending[i] == next.value &&
                                       forall key :: key in pending[..i] ==> key in tried
  {
    for i := 0 to |pending|
      invariant forall key :: key in pending[..i] ==> key in tried
    {
      assert pending[..i + 1] == pending[..i] + [pending[i]];
      if pending[i] !in tried {
        return Some(pending[i]);
      }
    }
    assert pending[..|pending|] == pending;
    return None;
  }

  /******* Several nights *******/

  datatype Record = Record(result: Key -> Result, tried: seq<Key>, after: Rows, outcome: Outcome)

  ghost function RowsAfter(start: Rows, nights: seq<Record>, n: nat): Rows
    requires n <= |nights|
  {
    if n == 0 then start else nights[n - 1].after
  }

  ghost predicate NightAt(sweep: Sweep, start: Rows, nights: seq<Record>, i: nat)
    requires i < |nights|
  {
    && Night(sweep, RowsAfter(start, nights, i), nights[i].result, nights[i].tried, nights[i].after)
    && EndedWith(sweep, nights[i].after, nights[i].tried, nights[i].outcome)
  }

  // Successive nights of one sweep, with nothing else writing the rows.
  ghost predicate History(sweep: Sweep, start: Rows, nights: seq<Record>)
  {
    forall i :: 0 <= i < |nights| ==> NightAt(sweep, start, nights, i)
  }

  // Nights that gave every pending cell its attempt and still did not complete.
  ghost function TriedNights(nights: seq<Record>, n: nat): nat
    requires n <= |nights|
  {
    if n == 0 then 0 else TriedNights(nights, n - 1) + if nights[n - 1].outcome == StoppedTried then 1 else 0
  }

  /**
   * A night never takes anything back: a done cell stays done and a dormant one
   * dormant, and no night touches the latency of a voice cell, a cost or a context
   * size.
   */
  lemma {:induction false} NeverRegresses(sweep: Sweep, before: Rows, result: Key -> Result,
                                          tried: seq<Key>, after: Rows, key: Key)
    requires Night(sweep, before, result, tried, after)
    ensures CellOf(sweep, before, key) != Pending ==> RowAt(after, key) == RowAt(before, key)
    ensures CellOf(sweep, after, key) == Pending ==>
      CellOf(sweep, before, key) == Pending &&
      RowAt(after, key).failures == RowAt(before, key).failures + (if key in tried then 1 else 0)
    ensures RowAt(after, key).cost == RowAt(before, key).cost &&
            RowAt(after, key).maxContext == RowAt(before, key).maxContext
    ensures key.1 == VOICE ==> RowAt(after, key).latency == RowAt(before, key).latency
  {
  }

  // A cell that is still pending has failed in every night that tried them all.
  lemma {:induction false} PendingHasFailed(sweep: Sweep, start: Rows, nights: seq<Record>, n: nat, key: Key)
    requires History(sweep, start, nights) && n <= |nights|
    requires key in sweep.matrix && CellOf(sweep, RowsAfter(start, nights, n), key) == Pending
    ensures RowAt(RowsAfter(start, nights, n), key).failures >= TriedNights(nights, n)
  {
    if n > 0 {
      assert NightAt(sweep, start, nights, n - 1);
      NeverRegresses(sweep, RowsAfter(start, nights, n - 1), nights[n - 1].result, nights[n - 1].tried,
          nights[n - 1].after, key);
      PendingHasFailed(sweep, start, nights, n - 1, key);
    }
  }

  /**
   * However many nights a sweep takes, and however many of them the box was busy,
   * at most two of them end with every pending cell tried and some still pending.
   */
  lemma {:induction false} AtMostTwoFruitlessNights(sweep: Sweep, start: Rows, nights: seq<Record>, n: nat)
    requires History(sweep, start, nights) && n <= |nights|
    ensures TriedNights(nights, n) <= 2
  {
    if n > 0 {
      AtMostTwoFruitlessNights(sweep, start, nights, n - 1);
      assert NightAt(sweep, start, nights, n - 1);
      if nights[n - 1].outcome == StoppedTried {
        var key :| key in sweep.matrix && CellOf(sweep, nights[n - 1].after, key) == Pending;
        PendingHasFailed(sweep, start, nights, n, key);
      }
    }
  }

  /**
   * If three successive nights each end neither busy nor expired, one of them
   * completes the sweep.
   */
  lemma {:induction false} ThreeNightsComplete(sweep: Sweep, start: Rows, nights: seq<Record>)
    requires History(sweep, start, nights) && |nights| == 3
    requires forall i :: 0 <= i < 3 ==> nights[i].outcome == CompleteOutcome || nights[i].outcome == StoppedTried
    ensures exists i :: 0 <= i < 3 && nights[i].outcome == CompleteOutcome
  {
    AtMostTwoFruitlessNights(sweep, start, nights, 3);
    assert TriedNights(nights, 3) == TriedNights(nights, 2) + if nights[2].outcome == StoppedTried then 1 else 0;
    assert TriedNights(nights, 2) == TriedNights(nights, 1) + if nights[1].outcome == StoppedTried then 1 else 0;
  }

  /** Two nights are not enough: a cell that fails twice is still pending. */
  lemma {:induction false} TwoNightsMayNot(sweep: Sweep, key: Key) returns (nights: seq<Record>)
    requires sweep.matrix == [key]
    ensures History(sweep, map[], nights) && |nights| == 2
    ensures nights[0].outcome == StoppedTried && nights[1].outcome == StoppedTried
  {
    var once := Record(_ => Failed, [key], map[key := EMPTY.(failures := 1)], StoppedTried);
    var twice := Record(_ => Failed, [key], map[key := EMPTY.(failures := 2)], StoppedTried);
    nights := [once, twice];
    assert CellOf(sweep, once.after, key) == Pending && CellOf(sweep, twice.after, key) == Pending;
    assert NightAt(sweep, map[], nights, 0);
    assert NightAt(sweep, map[], nights, 1);
  }
}
