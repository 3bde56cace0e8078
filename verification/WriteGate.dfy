/** The write lock as a program that updates the module's variables in place. */
module WriteGates {
  import opened Wrappers
  import opened WriteLock
  import opened WriteLockRuns
  import opened WriteLockSafety

  class WriteGate {
    var tasks: map<TaskId, Task>
    var locks: seq<Lock>
    var current: Option<LockId>
    var currentLoop: LoopId

    ghost function View(): State
      reads this
    {
      State(tasks, locks, current, currentLoop)
    }

    ghost predicate Valid()
      reads this
    {
      Inv(View())
    }

    constructor ()
      ensures Valid() && View() == EMPTY
    {
      tasks, locks, current, currentLoop := map[], [], None, 0;
      new;
      EmptyInv();
    }

    // Someone holds a lock of the loop, or waits for one.
    ghost predicate InUse(loop: LoopId)
      reads this
    {
      exists l :: 0 <= l < |locks| && Busy(locks[l]) && locks[l].loop == loop
    }

    // The lock of the running loop, made anew when the loop has changed.
    method EnsureLock(loop: LoopId) returns (l: LockId)
      requires CurrentOk(locks, current, currentLoop)
      modifies this
      ensures View() == Ensured(old(View()), loop) && Some(l) == current
      ensures l < |locks| && locks[l].loop == loop && CurrentOk(locks, current, currentLoop)
      ensures !Serves(old(current), old(currentLoop), loop) ==> locks == old(locks) + [Lock(loop, None, [])]
      ensures Serves(old(current), old(currentLoop), loop) ==> locks == old(locks)
    {
      if current.None? || currentLoop != loop {
        locks := locks + [Lock(loop, None, [])];
        current, currentLoop := Some(|locks| - 1), loop;
      }
      l := current.value;
    }

    method Take(t: TaskId, l: LockId)
      requires t in tasks && l < |locks|
      modifies this
      ensures View() == Acquired(old(View()), t, l)
    {
      locks := locks[l := locks[l].(holder := Some(t))];
      tasks := tasks[t := tasks[t].(flag := true, frames := tasks[t].frames + [Owner(l)])];
    }

    /**
     * A task starts a write.  Inside its own write it goes straight in.  Otherwise it
     * waits exactly if a lock of its loop is in use, unless that lock is replaced.
     */
    method Write(t: TaskId) returns (waits: bool)
      requires Valid() && Enabled(View(), Event.Call(t))
      modifies this
      ensures View() == Apply(old(View()), Event.Call(t))
      ensures Valid() <==> !old(Leaks(View(), Event.Call(t)))
      ensures waits <==> Waiting(View(), t)
      ensures old(tasks[t].flag) ==> !waits && locks == old(locks) && InBody(View(), t)
      ensures !old(tasks[t].flag) && !old(Leaks(View(), Event.Call(t))) ==> (waits <==> old(InUse(tasks[t].loop)))
      ensures waits <==> !InBody(View(), t)
    {
      StepKeeps(View(), Event.Call(t));
      assert TaskOk(View(), t);
      if tasks[t].flag {
        tasks := tasks[t := tasks[t].(frames := tasks[t].frames + [Direct])];
        assert forall l :: 0 <= l < |locks| ==> t !in locks[l].queue;
        return false;
      }
      ghost var loop := tasks[t].loop;
      var l := EnsureLock(tasks[t].loop);
      assert Serves(old(current), old(currentLoop), loop) && Busy(locks[l]) ==> old(InUse(loop));
      if locks[l].holder.None? && locks[l].queue == [] {
        Take(t, l);
        assert forall m :: 0 <= m < |locks| ==> t !in locks[m].queue;
        return false;
      }
      locks := locks[l := locks[l].(queue := locks[l].queue + [t])];
      assert t in locks[l].queue;
      return true;
    }

    // The first waiter of a lock that is free goes on.
    method WakeUp(t: TaskId, l: LockId)
      requires Valid() && Enabled(View(), Event.Wake(t, l))
      modifies this
      ensures View() == Apply(old(View()), Event.Wake(t, l))
      ensures Valid() && InBody(View(), t) && locks[l].holder == Some(t) && locks[l].queue == old(locks[l].queue[1..])
    {
      StepKeeps(View(), Event.Wake(t, l));
      locks := locks[l := locks[l].(queue := locks[l].queue[1..])];
      Take(t, l);
    }

    /**
     * A write ends, whether it completed or failed: the outermost one leaves no task
     * of the loop in a write, and no lock held by this one; a nested one changes
     * nothing but the depth.
     */
    method Finish(t: TaskId)
      requires Valid() && Enabled(View(), Event.Return(t))
      modifies this
      ensures View() == Apply(old(View()), Event.Return(t))
      ensures Valid() && tasks.Keys == old(tasks.Keys) && |tasks[t].frames| == old(|tasks[t].frames|) - 1
      ensures old(|tasks[t].frames|) > 1 ==> locks == old(locks) && tasks[t].flag
      ensures old(|tasks[t].frames|) == 1 ==> !tasks[t].flag && !Holds(View(), t)
      ensures old(|tasks[t].frames|) == 1 ==> forall u :: InBody(View(), u) ==> tasks[u].loop != tasks[t].loop
    {
      ReturnEffect(View(), t);
      OutermostReturnFrees(View(), t);
      var k := tasks[t];
      var last := k.frames[|k.frames| - 1];
      assert last in k.frames;
      match last
      case Direct =>
        tasks := tasks[t := k.(frames := k.frames[..|k.frames| - 1])];
      case Owner(l) =>
        tasks := tasks[t := k.(flag := false, frames := k.frames[..|k.frames| - 1])];
        locks := locks[l := locks[l].(holder := None)];
    }
  }
}
