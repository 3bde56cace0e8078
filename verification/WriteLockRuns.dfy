/** Whole runs of the write lock: exclusion, no deadlock, and the runs that overlap. */
module WriteLockRuns {
  import opened WriteLock
  import opened WriteLockSafety
  import opened Wrappers

  /******* What the invariant means *******/

  ghost predicate InBody(s: State, t: TaskId)
  {
    t in s.tasks && s.tasks[t].frames != []
  }

  // At most one task of a loop is inside a write.
  ghost predicate Exclusive(s: State)
  {
    forall t, u :: InBody(s, t) && InBody(s, u) && s.tasks[t].loop == s.tasks[u].loop ==> t == u
  }

  ghost predicate Holds(s: State, t: TaskId)
  {
    exists l :: 0 <= l < |s.locks| && s.locks[l].holder == Some(t)
  }

  /**
   * One writer in each loop; the flag is set exactly for tasks that hold a lock,
   * and those are exactly the tasks in a write; a task in a write waits for nothing.
   */
  lemma {:induction false} InvIsSafe(s: State)
    requires Inv(s)
    ensures Exclusive(s)
    ensures forall t :: t in s.tasks ==> (s.tasks[t].flag <==> Holds(s, t)) && (s.tasks[t].flag <==> InBody(s, t))
    ensures forall t :: InBody(s, t) ==> !Waiting(s, t)
  {
    forall t, u | InBody(s, t) && InBody(s, u) && s.tasks[t].loop == s.tasks[u].loop ensures t == u {
      assert TaskOk(s, t) && TaskOk(s, u);
      var l, m := s.tasks[t].frames[0].lock, s.tasks[u].frames[0].lock;
      assert Busy(s.locks[l]) && Busy(s.locks[m]);
    }
    forall t | t in s.tasks ensures (s.tasks[t].flag <==> Holds(s, t)) && (s.tasks[t].flag <==> InBody(s, t)) {
      assert TaskOk(s, t);
      if Holds(s, t) {
        var l :| 0 <= l < |s.locks| && s.locks[l].holder == Some(t);
        assert LockOk(s, l);
      }
    }
    forall t | InBody(s, t) ensures !Waiting(s, t) {
      forall l | 0 <= l < |s.locks| ensures t !in s.locks[l].queue {
        assert LockOk(s, l);
        assert t in s.locks[l].queue ==> WaiterOk(s, l, t);
      }
    }
  }

  /**
   * A waiter never waits for nothing: the lock's holder can return, or its first
   * waiter can go on.
   */
  lemma {:induction false} NoDeadlock(s: State, t: TaskId, l: LockId) returns (e: Event)
    requires Inv(s) && l < |s.locks| && t in s.locks[l].queue
    ensures Enabled(s, e) &&
            ((e == Return(e.task) && s.locks[l].holder == Some(e.task)) || e == Wake(s.locks[l].queue[0], l))
  {
    InvIsSafe(s);
    assert LockOk(s, l);
    if s.locks[l].holder.Some? {
      e := Return(s.locks[l].holder.value);
      assert TaskOk(s, e.task);
      assert LocksExist(s, e.task) by {
        assert forall f :: f in s.tasks[e.task].frames && f.Owner? ==> f == s.tasks[e.task].frames[0];
      }
    } else {
      e := Wake(s.locks[l].queue[0], l);
      assert WaiterOk(s, l, e.task);
    }
  }

  /**
   * The end of a task's outermost write, completed or failed, frees its lock and
   * clears the flag; the end of a nested one changes neither.
   */
  lemma {:induction false} OutermostReturnFrees(s: State, t: TaskId)
    requires Inv(s) && Enabled(s, Return(t))
    ensures var s', outermost := Apply(s, Return(t)), |s.tasks[t].frames| == 1;
      && (Holds(s', t) <==> !outermost) && (s'.tasks[t].flag <==> !outermost)
      && s'.locks[s.tasks[t].frames[0].lock].holder == if outermost then None else Some(t)
  {
    assert TaskOk(s, t);
    ReturnKeeps(s, Return(t));
    InvIsSafe(Apply(s, Return(t)));
  }

  // The outermost return leaves no task of the loop in a write; a nested one only
  // changes the depth.
  lemma {:induction false} ReturnEffect(s: State, t: TaskId)
    requires Inv(s) && Enabled(s, Return(t))
    ensures var s', outermost := Apply(s, Return(t)), |s.tasks[t].frames| == 1;
      && Inv(s') && s'.tasks.Keys == s.tasks.Keys && |s'.tasks[t].frames| == |s.tasks[t].frames| - 1
      && (outermost ==> forall u :: InBody(s', u) ==> s'.tasks[u].loop != s'.tasks[t].loop)
      && (!outermost ==> s'.locks == s.locks)
  {
    var s' := Apply(s, Return(t));
    ReturnKeeps(s, Return(t));
    assert TaskOk(s, t);
    InvIsSafe(s);
    if |s.tasks[t].frames| == 1 {
      forall u | InBody(s', u) ensures s'.tasks[u].loop != s'.tasks[t].loop {
        assert InBody(s, u) && InBody(s, t);
      }
    }
  }

  /**
   * A nested write goes straight in, whatever the others do: the same task, one
   * write deeper, and no lock is touched.
   */
  lemma {:induction false} NestedWriteNeverWaits(s: State, t: TaskId)
    requires Inv(s) && InBody(s, t)
    ensures Enabled(s, Call(t)) && !Waiting(Apply(s, Call(t)), t)
    ensures Apply(s, Call(t)).locks == s.locks && |Apply(s, Call(t)).tasks[t].frames| == |s.tasks[t].frames| + 1
  {
    InvIsSafe(s);
    NestedCallKeeps(s, Call(t));
    InvIsSafe(Apply(s, Call(t)));
  }

  /******* Runs *******/

  ghost predicate Execution(states: seq<State>, events: seq<Event>)
  {
    && |states| == |events| + 1 && states[0] == EMPTY
    && forall i :: 0 <= i < |events| ==> StepAt(states, events, i)
  }

  ghost predicate StepAt(states: seq<State>, events: seq<Event>, i: nat)
    requires |states| == |events| + 1 && i < |events|
  {
    var s := states[i];
    (s.current.Some? ==> s.current.value < |s.locks|) && Enabled(s, events[i]) && states[i + 1] == Apply(s, events[i])
  }

  lemma {:induction false} EmptyInv()
    ensures Inv(EMPTY)
  {
  }

  /**
   * A run keeps the invariant up to a point exactly if no step before it started a
   * task inside a write or replaced a lock in use.
   */
  lemma {:induction false} RunsAreSafe(states: seq<State>, events: seq<Event>, n: nat)
    requires Execution(states, events) && n <= |events|
    ensures (forall i :: 0 <= i <= n ==> Inv(states[i])) <==> forall i :: 0 <= i < n ==> !Leaks(states[i], events[i])
  {
    if n == 0 {
      EmptyInv();
    } else {
      RunsAreSafe(states, events, n - 1);
      assert StepAt(states, events, n - 1);
      if Inv(states[n - 1]) {
        StepKeeps(states[n - 1], events[n - 1]);
      }
    }
  }

  /******* One loop *******/

  ghost predicate OneLoop(s: State, loop: LoopId)
  {
    && (forall t :: t in s.tasks ==> s.tasks[t].loop == loop)
    && (forall l :: 0 <= l < |s.locks| ==> s.locks[l].loop == loop)
    && (if s.current.None? then s.locks == [] else s.currentLoop == loop)
  }

  lemma {:induction false} OneLoopStep(s: State, e: Event, loop: LoopId)
    requires OneLoop(s, loop) && Enabled(s, e) && (e.Begin? ==> e.loop == loop) &&
             (s.current.Some? ==> s.current.value < |s.locks|)
    ensures OneLoop(Apply(s, e), loop) && !Replaces(s, e)
  {
  }

  /**
   * In a process with a single event loop, where no task is started inside a write,
   * no two tasks are ever inside a write at once.
   */
  lemma {:induction false} SingleLoopIsSafe(states: seq<State>, events: seq<Event>, loop: LoopId, n: nat)
    requires Execution(states, events) && n <= |events|
    requires forall i ::
             0 <= i < |events| ==> (events[i].Begin? ==> events[i].loop == loop) && !Inherits(states[i], events[i])
    ensures Inv(states[n]) && OneLoop(states[n], loop)
    ensures forall t, u :: InBody(states[n], t) && InBody(states[n], u) ==> t == u
  {
    if n == 0 {
      EmptyInv();
    } else {
      SingleLoopIsSafe(states, events, loop, n - 1);
      assert StepAt(states, events, n - 1);
      OneLoopStep(states[n - 1], events[n - 1], loop);
      StepKeeps(states[n - 1], events[n - 1]);
    }
    InvIsSafe(states[n]);
  }

  /******* Exactly the leaks lose exclusion *******/

  // Two tasks of one loop are inside a write, or will be after one more step that is
  // no leak itself.
  ghost predicate LosesExclusion(s: State, e: Event)
    requires Enabled(s, e) && (s.current.Some? ==> s.current.value < |s.locks|)
  {
    var s' := Apply(s, e);
    || !Exclusive(s')
    || exists next :: FollowsUp(s', next) && !Leaks(s', next) && !Exclusive(Apply(s', next))
  }

  ghost predicate FollowsUp(s: State, e: Event)
  {
    Enabled(s, e) && (s.current.Some? ==> s.current.value < |s.locks|)
  }

  lemma {:induction false} InheritingLoses(s: State, e: Event)
    requires Inv(s) && Enabled(s, e) && Inherits(s, e)
    ensures FollowsUp(Apply(s, e), Call(e.child)) && !Leaks(Apply(s, e), Call(e.child))
    ensures !Exclusive(Apply(Apply(s, e), Call(e.child)))
  {
    var s', t, child := Apply(s, e), e.task, e.child;
    assert TaskOk(s, t);
    forall l | 0 <= l < |s'.locks| ensures child !in s'.locks[l].queue {
      assert LockOk(s, l);
      assert child in s.locks[l].queue ==> WaiterOk(s, l, child);
    }
    var s'' := Apply(s', Call(child));
    assert InBody(s'', t) && InBody(s'', child) && s''.tasks[t].loop == s''.tasks[child].loop;
  }

  lemma {:induction false} ReplacedLock(s: State, e: Event, l: LockId)
    requires Inv(s) && Enabled(s, e) && Replaces(s, e) && l < |s.locks|
    ensures var s' := Apply(s, e);
      && InBody(s', e.task) && CurrentOk(s'.locks, s'.current, s'.currentLoop)
      && l < |s'.locks| && s'.locks[l] == s.locks[l] && SameTasksBut(s, s', e.task)
      && s'.tasks[e.task].loop == s.tasks[e.task].loop
  {
  }

  // The lock that was replaced is held, or its first waiter can go on.
  lemma {:induction false} ReplacingLoses(s: State, e: Event, l: LockId)
    requires Inv(s) && Enabled(s, e) && Replaces(s, e)
    requires l < |s.locks| && Busy(s.locks[l]) && s.locks[l].loop == s.tasks[e.task].loop
    ensures s.locks[l].holder.Some? ==> !Exclusive(Apply(s, e))
    ensures s.locks[l].holder.None? ==>
      && FollowsUp(Apply(s, e), Wake(s.locks[l].queue[0], l)) && !Leaks(Apply(s, e), Wake(s.locks[l].queue[0], l))
      && !Exclusive(Apply(Apply(s, e), Wake(s.locks[l].queue[0], l)))
  {
    var s', t := Apply(s, e), e.task;
    ReplacedLock(s, e, l);
    assert LockOk(s, l) && TaskOk(s, t);
    if s.locks[l].holder.Some? {
      var u := s.locks[l].holder.value;
      assert InBody(s', u) && InBody(s', t) && TaskOk(s, u);
      assert s'.tasks[u].loop == s'.tasks[t].loop;
    } else {
      var u := s.locks[l].queue[0];
      assert u in s.locks[l].queue && WaiterOk(s, l, u) && u != t;
      var s'' := Apply(s', Wake(u, l));
      assert InBody(s'', u) && InBody(s'', t) && s''.tasks[u].loop == s''.tasks[t].loop;
    }
  }

  /**
   * A step loses exclusion, at once or with the next step, exactly if it starts a
   * task inside a write or replaces a lock of its loop that is in use.
   */
  lemma {:induction false} LeaksLoseExclusion(s: State, e: Event)
    requires Inv(s) && Enabled(s, e)
    ensures LosesExclusion(s, e) <==> Leaks(s, e)
  {
    var s' := Apply(s, e);
    if Inherits(s, e) {
      InheritingLoses(s, e);
    } else if Replaces(s, e) {
      var l :| 0 <= l < |s.locks| && Busy(s.locks[l]) && s.locks[l].loop == s.tasks[e.task].loop;
      ReplacingLoses(s, e, l);
    } else {
      StepKeeps(s, e);
      InvIsSafe(s');
      forall next | FollowsUp(s', next) && !Leaks(s', next) ensures Exclusive(Apply(s', next)) {
        StepKeeps(s', next);
        InvIsSafe(Apply(s', next));
      }
    }
  }

  /******* Runs that overlap *******/

  // Two tasks of loop 0 and one of loop 1: the second loop's write replaces the
  // lock, and the first loop's next write replaces it again.
  const BEGINS: seq<Event> := [] + [Begin(0, 0)] + [Begin(1, 0)] + [Begin(2, 1)]
  const INTERLEAVED: seq<Event> := BEGINS + [Call(0)] + [Call(2)] + [Call(1)]

  ghost predicate Overlap(states: seq<State>, events: seq<Event>)
  {
    Execution(states, events) && !Exclusive(states[|events|])
  }

  ghost predicate StepsTo(s: State, e: Event, s': State)
  {
    FollowsUp(s, e) && s' == Apply(s, e)
  }

  // The three tasks before any of them writes.
  lemma {:induction false} ThreeTasks() returns (s1: State, s2: State, s3: State)
    ensures StepsTo(EMPTY, Begin(0, 0), s1) && StepsTo(s1, Begin(1, 0), s2) && StepsTo(s2, Begin(2, 1), s3)
    ensures Inv(s3)
    ensures s3 == State(map[0 := Task(0, false, []), 1 := Task(0, false, []), 2 := Task(1, false, [])], [], None, 0)
  {
    s1 := Apply(EMPTY, Begin(0, 0));
    s2 := Apply(s1, Begin(1, 0));
    s3 := Apply(s2, Begin(2, 1));
    EmptyInv();
    StepKeeps(EMPTY, Begin(0, 0));
    StepKeeps(s1, Begin(1, 0));
    StepKeeps(s2, Begin(2, 1));
  }

  lemma {:induction false} FirstWriter(s3: State) returns (s4: State)
    requires Inv(s3)
    requires s3 == State(map[0 := Task(0, false, []), 1 := Task(0, false, []), 2 := Task(1, false, [])], [], None, 0)
    ensures StepsTo(s3, Call(0), s4) && Inv(s4)
    ensures s4.locks == [Lock(0, Some(0), [])] && s4.current == Some(0) && s4.currentLoop == 0
    ensures s4.tasks.Keys == {0, 1, 2} && s4.tasks[1] == Task(0, false, []) && s4.tasks[2] == Task(1, false, [])
  {
    s4 := Apply(s3, Call(0));
    StepKeeps(s3, Call(0));
  }

  // One task of each loop writes, and the first loop's lock is forgotten.
  lemma {:induction false} SecondLoop(s4: State) returns (s5: State)
    requires Inv(s4) && s4.locks == [Lock(0, Some(0), [])] && s4.current == Some(0) && s4.currentLoop == 0
    requires s4.tasks.Keys == {0, 1, 2} && s4.tasks[1] == Task(0, false, []) && s4.tasks[2] == Task(1, false, [])
    ensures StepsTo(s4, Call(2), s5) && Inv(s5) && FollowsUp(s5, Call(1))
    ensures Replaces(s5, Call(1)) && |s5.locks| == 2 && s5.locks[0] == Lock(0, Some(0), []) && s5.tasks[1].loop == 0
  {
    s5 := Apply(s4, Call(2));
    assert s5.locks == [Lock(0, Some(0), []), Lock(1, Some(2), [])];
    StepKeeps(s4, Call(2));
    assert Busy(s5.locks[0]);
  }

  // The second task of the first loop gets a new lock, and writes too.
  lemma {:induction false} ThirdWriter(s5: State) returns (s6: State)
    requires Inv(s5) && FollowsUp(s5, Call(1)) && Replaces(s5, Call(1))
    requires |s5.locks| == 2 && s5.locks[0] == Lock(0, Some(0), []) && s5.tasks[1].loop == 0
    ensures StepsTo(s5, Call(1), s6) && !Exclusive(s6)
  {
    ReplacingLoses(s5, Call(1), 0);
    s6 := Apply(s5, Call(1));
  }

  lemma {:induction false} StepsOn(states: seq<State>, events: seq<Event>, e: Event, s: State)
    requires Execution(states, events) && StepsTo(states[|events|], e, s)
    ensures Execution(states + [s], events + [e])
  {
    var states', events' := states + [s], events + [e];
    forall i | 0 <= i < |events'| ensures StepAt(states', events', i) {
      if i < |events| {
        assert StepAt(states, events, i);
      }
    }
  }

  // A run of three more steps.
  lemma {:induction false} ThreeMore(states: seq<State>, events: seq<Event>,
                                     d: Event, s: State, e: Event, t: State, f: Event, u: State)
    requires Execution(states, events)
    requires StepsTo(states[|events|], d, s) && StepsTo(s, e, t) && StepsTo(t, f, u)
    ensures Execution(states + [s] + [t] + [u], events + [d] + [e] + [f])
  {
    StepsOn(states, events, d, s);
    StepsOn(states + [s], events + [d], e, t);
    StepsOn(states + [s] + [t], events + [d] + [e], f, u);
  }

  // The run up to the point where each task has begun.
  lemma {:induction false} BeginsRun() returns (states: seq<State>)
    ensures Execution(states, BEGINS) && Inv(states[3])
    ensures states[3] ==
            State(map[0 := Task(0, false, []), 1 := Task(0, false, []), 2 := Task(1, false, [])], [], None, 0)
  {
    var s1, s2, s3 := ThreeTasks();
    states := [EMPTY] + [s1] + [s2] + [s3];
    ThreeMore([EMPTY], [], Begin(0, 0), s1, Begin(1, 0), s2, Begin(2, 1), s3);
  }

  /**
   * Two event loops that take turns break exclusion within one of them: the lock in
   * use is forgotten, and two tasks of one loop write at once.
   */
  lemma {:induction false} InterleavedLoopsOverlap() returns (states: seq<State>)
    ensures Overlap(states, INTERLEAVED)
  {
    var first := BeginsRun();
    var s4 := FirstWriter(first[3]);
    var s5 := SecondLoop(s4);
    var s6 := ThirdWriter(s5);
    ThreeMore(first, BEGINS, Call(0), s4, Call(2), s5, Call(1), s6);
    states := first + [s4] + [s5] + [s6];
  }

  const INHERITED: seq<Event> := [Begin(0, 0), Call(0), Spawn(0, 1), Call(1)]

  /**
   * A task started inside a write takes the flag with it, and writes at the same time.
   */
  lemma {:induction false} SpawnedTaskOverlaps() returns (states: seq<State>)
    ensures Overlap(states, INHERITED)
  {
    var s1 := Apply(EMPTY, Begin(0, 0));
    var s2 := Apply(s1, Call(0));
    assert s2.locks == [Lock(0, Some(0), [])];
    var s3 := Apply(s2, Spawn(0, 1));
    states := [EMPTY, s1, s2, s3, Apply(s3, Call(1))];
    forall i | 0 <= i < |INHERITED| ensures StepAt(states, INHERITED, i) {
    }
    EmptyInv();
    StepKeeps(EMPTY, Begin(0, 0));
    StepKeeps(s1, Call(0));
    InheritingLoses(s2, Spawn(0, 1));
  }

  /******* Fairness *******/

  // The waiters in front of `t`.
  ghost predicate Ahead(queue: seq<TaskId>, t: TaskId, n: nat)
  {
    n < |queue| && queue[n] == t && forall i :: 0 <= i < n ==> queue[i] != t
  }

  // The step lets the first waiter on, or one in front of the `n`-th gives up.
  ghost predicate MovesUp(queue: seq<TaskId>, e: Event, l: LockId, n: nat)
    requires n < |queue|
  {
    (e.Wake? && e.lock == l) || (e.Cancel? && e.lock == l && e.task in queue[..n])
  }

  /**
   * A waiter is never overtaken: whatever happens, there is one fewer in front of it
   * when the first goes on or one of them gives up, and as many as before otherwise;
   * it leaves its queue only by going on itself or by giving up.
   */
  lemma {:induction false} NeverOvertaken(s: State, e: Event, l: LockId, t: TaskId, n: nat)
    requires Inv(s) && Enabled(s, e) && l < |s.locks| && Ahead(s.locks[l].queue, t, n)
    requires e != Wake(t, l) && e != Cancel(t, l)
    ensures MovesUp(s.locks[l].queue, e, l, n) ==> n > 0
    ensures Ahead(Apply(s, e).locks[l].queue, t, if MovesUp(s.locks[l].queue, e, l, n) then n - 1 else n)
  {
    assert LockOk(s, l);
    if e.Cancel? && e.lock == l {
      var queue := s.locks[l].queue;
      if e.task in queue[..n] {
        var k :| 0 <= k < n && queue[..n][k] == e.task;
        GoneInFront(queue, e.task, t, n, k);
      } else {
        assert forall i :: 0 <= i < n ==> queue[i] == queue[..n][i];
        GoneBehind(queue, e.task, t, n);
      }
    }
  }

  lemma {:induction false} AheadBehind(x: TaskId, queue: seq<TaskId>, t: TaskId, n: nat)
    requires Ahead(queue, t, n) && x != t
    ensures Ahead([x] + queue, t, n + 1)
  {
  }

  // Someone else gives up behind the waiter, or is not in the queue.
  lemma {:induction false} GoneBehind(queue: seq<TaskId>, gone: TaskId, t: TaskId, n: nat)
    requires Ahead(queue, t, n) && gone != t && forall i :: 0 <= i < n ==> queue[i] != gone
    ensures Ahead(Without(queue, gone), t, n)
  {
    var rest := queue[1..];
    assert Without(queue, gone) == [queue[0]] + Without(rest, gone);
    if n > 0 {
      assert forall i :: 0 <= i < |rest| ==> rest[i] == queue[i + 1];
      GoneBehind(rest, gone, t, n - 1);
      AheadBehind(queue[0], Without(rest, gone), t, n - 1);
    }
  }

  // Someone in front of the waiter gives up.
  lemma {:induction false} GoneInFront(queue: seq<TaskId>, gone: TaskId, t: TaskId, n: nat, k: nat)
    requires Ahead(queue, t, n) && k < n && queue[k] == gone && gone != t
    requires forall i :: 0 <= i < n && i != k ==> queue[i] != gone
    ensures Ahead(Without(queue, gone), t, n - 1)
  {
    var rest := queue[1..];
    assert forall i :: 0 <= i < |rest| ==> rest[i] == queue[i + 1];
    if k == 0 {
      assert Without(queue, gone) == Without(rest, gone);
      GoneBehind(rest, gone, t, n - 1);
    } else {
      assert Without(queue, gone) == [queue[0]] + Without(rest, gone);
      GoneInFront(rest, gone, t, n - 1, k - 1);
      AheadBehind(queue[0], Without(rest, gone), t, n - 2);
    }
  }
}
