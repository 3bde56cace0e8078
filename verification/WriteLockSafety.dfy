/** One write at a time in each loop, and exactly when that fails. */
module WriteLockSafety {
  import opened WriteLock
  import opened Wrappers

  // A task started inside a write inherits the flag, and writes without the lock.
  ghost predicate Inherits(s: State, e: Event)
  {
    e.Spawn? && e.task in s.tasks && s.tasks[e.task].flag
  }

  // A write of a loop whose lock was replaced by another loop's, while its old lock
  // is still held or waited for, gets a new lock.
  ghost predicate Replaces(s: State, e: Event)
  {
    && e.Call? && e.task in s.tasks && !s.tasks[e.task].flag
    && !Serves(s.current, s.currentLoop, s.tasks[e.task].loop)
    && exists l :: 0 <= l < |s.locks| && Busy(s.locks[l]) && s.locks[l].loop == s.tasks[e.task].loop
  }

  ghost predicate Leaks(s: State, e: Event)
  {
    Inherits(s, e) || Replaces(s, e)
  }

  /******* Every step *******/

  // Only task `t` is changed or new.
  ghost predicate SameTasksBut(s: State, s': State, t: TaskId)
  {
    forall u :: u != t ==> (u in s.tasks <==> u in s'.tasks) && (u in s.tasks ==> s'.tasks[u] == s.tasks[u])
  }

  lemma {:induction false} BeginKeeps(s: State, e: Event)
    requires Inv(s) && Enabled(s, e) && e.Begin?
    ensures Inv(Apply(s, e))
  {
    var s' := Apply(s, e);
    forall t | t in s'.tasks ensures TaskOk(s', t) {
      if t != e.task {
        assert TaskOk(s, t);
      }
    }
    forall l | 0 <= l < |s'.locks| ensures LockOk(s', l) {
      assert LockOk(s, l);
      LockAfterNewTask(s, s', l, e.task);
    }
  }

  // A new task is in nobody's way.
  lemma {:induction false} LockAfterNewTask(s: State, s': State, l: LockId, t: TaskId)
    requires l < |s.locks| && LockOk(s, l) && s'.locks == s.locks && t !in s.tasks && SameTasksBut(s, s', t)
    ensures LockOk(s', l)
  {
    forall q | q in s.locks[l].queue ensures WaiterOk(s', l, q) {
      assert WaiterOk(s, l, q);
    }
  }

  lemma {:induction false} SpawnKeeps(s: State, e: Event)
    requires Inv(s) && Enabled(s, e) && e.Spawn?
    ensures Inv(Apply(s, e)) <==> !Inherits(s, e)
  {
    var s' := Apply(s, e);
    assert TaskOk(s, e.task);
    if Inherits(s, e) {
      assert !TaskOk(s', e.child);
    } else {
      forall t | t in s'.tasks ensures TaskOk(s', t) {
        if t != e.child {
          assert TaskOk(s, t);
        }
      }
      forall l | 0 <= l < |s'.locks| ensures LockOk(s', l) {
        assert LockOk(s, l);
        LockAfterNewTask(s, s', l, e.child);
      }
    }
  }

  /******* Calls *******/

  lemma {:induction false} NestedCallKeeps(s: State, e: Event)
    requires Inv(s) && Enabled(s, e) && e.Call? && s.tasks[e.task].flag
    ensures Inv(Apply(s, e))
  {
    var s', t := Apply(s, e), e.task;
    assert TaskOk(s, t);
    forall u | u in s'.tasks ensures TaskOk(s', u) {
      assert TaskOk(s, u);
    }
    forall l | 0 <= l < |s'.locks| ensures LockOk(s', l) {
      assert LockOk(s, l);
      forall q | q in s.locks[l].queue ensures WaiterOk(s', l, q) {
        assert WaiterOk(s, l, q);
      }
    }
  }

  // Without a replacement, what the lock is asked of is the loop's only busy lock, if
  // it has one.
  lemma {:induction false} EnsuredKeeps(s: State, loop: LoopId)
    requires Inv(s)
    requires Serves(s.current, s.currentLoop, loop) ||
             forall l :: 0 <= l < |s.locks| && Busy(s.locks[l]) ==> s.locks[l].loop != loop
    ensures var r := Ensured(s, loop);
      && Inv(r) && r.current.Some? && r.currentLoop == loop && r.tasks == s.tasks
      && forall l :: 0 <= l < |r.locks| && Busy(r.locks[l]) && r.locks[l].loop == loop ==> l == r.current.value
  {
    var r := Ensured(s, loop);
    if !Serves(s.current, s.currentLoop, loop) {
      assert forall l :: 0 <= l < |s.locks| ==> r.locks[l] == s.locks[l];
      forall t | t in r.tasks ensures TaskOk(r, t) {
        assert TaskOk(s, t);
      }
      forall l | 0 <= l < |r.locks| ensures LockOk(r, l) {
        if l < |s.locks| {
          assert LockOk(s, l);
          forall q | q in r.locks[l].queue ensures WaiterOk(r, l, q) {
            assert WaiterOk(s, l, q);
          }
        }
      }
    }
  }

  // No busy lock of the loop but this one, which is the module's if that is the loop's.
  ghost predicate OnlyLock(s: State, l: LockId)
    requires l < |s.locks|
  {
    && (forall m :: 0 <= m < |s.locks| && Busy(s.locks[m]) && s.locks[m].loop == s.locks[l].loop ==> m == l)
    && (s.current.Some? && s.currentLoop == s.locks[l].loop ==> s.current.value == l)
  }

  // A task that waits for nothing and writes nothing may take or ask for the lock.
  ghost predicate Idle(s: State, t: TaskId)
  {
    t in s.tasks && s.tasks[t].frames == [] && forall l :: 0 <= l < |s.locks| ==> t !in s.locks[l].queue
  }

  lemma {:induction false} AcquiredKeeps(s: State, t: TaskId, l: LockId)
    requires Inv(s) && Idle(s, t) && l < |s.locks| && OnlyLock(s, l)
    requires s.locks[l].holder.None? && s.locks[l].loop == s.tasks[t].loop
    ensures Inv(Acquired(s, t, l))
  {
    var s' := Acquired(s, t, l);
    assert s'.tasks[t].frames == [Owner(l)];
    forall u | u in s'.tasks ensures TaskOk(s', u) {
      assert TaskOk(s, u);
    }
    forall m | 0 <= m < |s'.locks| ensures LockOk(s', m) {
      assert LockOk(s, m);
      forall q | q in s'.locks[m].queue ensures WaiterOk(s', m, q) {
        assert WaiterOk(s, m, q);
      }
    }
  }

  lemma {:induction false} QueuedKeeps(s: State, t: TaskId, l: LockId)
    requires Inv(s) && Idle(s, t) && l < |s.locks| && s.locks[l].loop == s.tasks[t].loop && OnlyLock(s, l)
    ensures Inv(s.(locks := s.locks[l := s.locks[l].(queue := s.locks[l].queue + [t])]))
  {
    var s' := s.(locks := s.locks[l := s.locks[l].(queue := s.locks[l].queue + [t])]);
    forall u | u in s'.tasks ensures TaskOk(s', u) {
      assert TaskOk(s, u);
    }
    forall m | 0 <= m < |s'.locks| ensures LockOk(s', m) {
      assert LockOk(s, m);
      forall q | q in s'.locks[m].queue ensures WaiterOk(s', m, q) {
        assert q != t ==> WaiterOk(s, m, q);
      }
    }
  }

  lemma {:induction false} CallKeeps(s: State, e: Event)
    requires Inv(s) && Enabled(s, e) && e.Call? && !s.tasks[e.task].flag && !Replaces(s, e)
    ensures Inv(Apply(s, e))
  {
    var t, loop := e.task, s.tasks[e.task].loop;
    assert TaskOk(s, t);
    EnsuredKeeps(s, loop);
    var r := Ensured(s, loop);
    assert Idle(r, t) by {
      forall l | 0 <= l < |r.locks| ensures t !in r.locks[l].queue {
        assert l < |s.locks| ==> r.locks[l] == s.locks[l];
      }
    }
    if r.locks[r.current.value].holder.None? && r.locks[r.current.value].queue == [] {
      AcquiredKeeps(r, t, r.current.value);
    } else {
      QueuedKeeps(r, t, r.current.value);
    }
  }

  // The replacement leaves two busy locks in one loop.
  lemma {:induction false} ReplacementBreaks(s: State, e: Event)
    requires Inv(s) && Enabled(s, e) && Replaces(s, e)
    ensures !Inv(Apply(s, e))
  {
    var s', fresh' := Apply(s, e), |s.locks|;
    var l :| 0 <= l < |s.locks| && Busy(s.locks[l]) && s.locks[l].loop == s.tasks[e.task].loop;
    assert s'.locks[l] == s.locks[l];
    assert Busy(s'.locks[fresh']) && s'.locks[fresh'].loop == s'.locks[l].loop;
  }

  /******* Waking, giving up and returning *******/

  lemma {:induction false} FewerWaiters(s: State, l: LockId, queue: seq<TaskId>)
    requires Inv(s) && l < |s.locks| && forall q :: q in queue ==> q in s.locks[l].queue
    requires forall i, j :: 0 <= i < j < |queue| ==> queue[i] != queue[j]
    ensures Inv(s.(locks := s.locks[l := s.locks[l].(queue := queue)]))
  {
    var s' := s.(locks := s.locks[l := s.locks[l].(queue := queue)]);
    forall u | u in s'.tasks ensures TaskOk(s', u) {
      assert TaskOk(s, u);
    }
    assert queue != [] ==> queue[0] in s.locks[l].queue;
    forall m | 0 <= m < |s'.locks| ensures LockOk(s', m) {
      assert LockOk(s, m);
      forall q | q in s'.locks[m].queue ensures WaiterOk(s', m, q) {
        assert WaiterOk(s, m, q);
      }
    }
  }

  lemma {:induction false} WithoutOne(queue: seq<TaskId>, t: TaskId)
    requires forall i, j :: 0 <= i < j < |queue| ==> queue[i] != queue[j]
    ensures var left := Without(queue, t);
      && (forall q :: q in left <==> q in queue && q != t)
      && (forall i, j :: 0 <= i < j < |left| ==> left[i] != left[j])
  {
    if queue != [] {
      var rest := queue[1..];
      assert queue == [queue[0]] + rest;
      assert forall i :: 0 <= i < |rest| ==> rest[i] == queue[i + 1];
      WithoutOne(rest, t);
      assert queue[0] !in rest;
      assert Without(queue, t) == (if queue[0] == t then [] else [queue[0]]) + Without(rest, t);
    }
  }

  lemma {:induction false} CancelKeeps(s: State, e: Event)
    requires Inv(s) && Enabled(s, e) && e.Cancel?
    ensures Inv(Apply(s, e))
  {
    assert LockOk(s, e.lock);
    WithoutOne(s.locks[e.lock].queue, e.task);
    FewerWaiters(s, e.lock, Without(s.locks[e.lock].queue, e.task));
  }

  lemma {:induction false} WakeKeeps(s: State, e: Event)
    requires Inv(s) && Enabled(s, e) && e.Wake?
    ensures Inv(Apply(s, e))
  {
    var l, queue := e.lock, s.locks[e.lock].queue;
    assert LockOk(s, l) && WaiterOk(s, l, e.task);
    FewerWaiters(s, l, queue[1..]);
    var r := s.(locks := s.locks[l := s.locks[l].(queue := queue[1..])]);
    assert Busy(s.locks[l]);
    forall m | 0 <= m < |r.locks| ensures e.task !in r.locks[m].queue {
      if m != l {
        var other := s.locks[m];
        assert LockOk(s, m);
        assert e.task in other.queue ==> WaiterOk(s, m, e.task) && Busy(other);
      }
    }
    assert OnlyLock(r, l);
    AcquiredKeeps(r, e.task, l);
  }

  lemma {:induction false} ReturnKeeps(s: State, e: Event)
    requires Inv(s) && Enabled(s, e) && e.Return?
    ensures Inv(Apply(s, e))
  {
    var s', t := Apply(s, e), e.task;
    var k := s.tasks[t];
    assert TaskOk(s, t);
    assert |k.frames| == 1 <==> k.frames[|k.frames| - 1].Owner?;
    forall u | u in s'.tasks ensures TaskOk(s', u) {
      assert TaskOk(s, u);
    }
    forall m | 0 <= m < |s'.locks| ensures LockOk(s', m) {
      assert LockOk(s, m);
      forall q | q in s'.locks[m].queue ensures WaiterOk(s', m, q) {
        assert WaiterOk(s, m, q);
      }
    }
  }

  /**
   * A step keeps the invariant exactly unless it starts a task inside a write, or
   * replaces a lock of its own loop that is still in use.
   */
  lemma {:induction false} StepKeeps(s: State, e: Event)
    requires Inv(s) && Enabled(s, e)
    ensures Inv(Apply(s, e)) <==> !Leaks(s, e)
  {
    match e
    case Begin(_, _) => BeginKeeps(s, e);
    case Spawn(_, _) => SpawnKeeps(s, e);
    case Wake(_, _) => WakeKeeps(s, e);
    case Cancel(_, _) => CancelKeeps(s, e);
    case Return(_) => ReturnKeeps(s, e);
    case Call(t) =>
      if s.tasks[t].flag {
        NestedCallKeeps(s, e);
      } else if Replaces(s, e) {
        ReplacementBreaks(s, e);
      } else {
        CallKeeps(s, e);
      }
  }
}
