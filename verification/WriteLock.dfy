/** The reentrant write lock: a lock per event loop, and a flag per task. */
module WriteLock {
  import opened Wrappers

  type TaskId = nat
  type LoopId = nat
  type LockId = nat

  // A lock belongs to the loop it was made in; waiters are served in order.
  datatype Lock = Lock(loop: LoopId, holder: Option<TaskId>, queue: seq<TaskId>)

  // One write in progress: run straight through, or under a lock that it took.
  datatype Frame = Direct | Owner(lock: LockId)

  // `flag` is the context variable; `frames` are the writes in progress, outermost first.
  datatype Task = Task(loop: LoopId, flag: bool, frames: seq<Frame>)

  // `locks` are all locks ever made; the module remembers the latest one and its loop.
  datatype State = State(tasks: map<TaskId, Task>, locks: seq<Lock>, current: Option<LockId>, currentLoop: LoopId)

  datatype Event =
    | Begin(task: TaskId, loop: LoopId)
    | Spawn(task: TaskId, child: TaskId)
    | Call(task: TaskId)
    | Wake(task: TaskId, lock: LockId)
    | Cancel(task: TaskId, lock: LockId)
    | Return(task: TaskId)

  ghost predicate Waiting(s: State, t: TaskId)
  {
    exists l :: 0 <= l < |s.locks| && t in s.locks[l].queue
  }

  ghost predicate Enabled(s: State, e: Event)
  {
    match e
    case Begin(t, _) => t !in s.tasks
    case Spawn(t, child) => t in s.tasks && !Waiting(s, t) && child !in s.tasks
    case Call(t) => t in s.tasks && !Waiting(s, t)
    case Wake(t, l) =>
      t in s.tasks && l < |s.locks| && s.locks[l].queue != [] && s.locks[l].queue[0] == t && s.locks[l].holder.None?
    case Cancel(t, l) => t in s.tasks && l < |s.locks| && t in s.locks[l].queue
    case Return(t) => t in s.tasks && !Waiting(s, t) && s.tasks[t].frames != [] && LocksExist(s, t)
  }

  // The locks that a task's writes took exist.
  ghost predicate LocksExist(s: State, t: TaskId)
    requires t in s.tasks
  {
    forall f :: f in s.tasks[t].frames && f.Owner? ==> f.lock < |s.locks|
  }

  /******* Steps *******/

  // The module's lock serves the loop already.
  predicate Serves(current: Option<LockId>, currentLoop: LoopId, loop: LoopId)
  {
    current.Some? && currentLoop == loop
  }

  ghost function Ensured(s: State, loop: LoopId): State
  {
    if Serves(s.current, s.currentLoop, loop) then s
    else s.(locks := s.locks + [Lock(loop, None, [])], current := Some(|s.locks|), currentLoop := loop)
  }

  ghost function Acquired(s: State, t: TaskId, l: LockId): State
    requires t in s.tasks && l < |s.locks|
  {
    var k := s.tasks[t];
    s.(tasks := s.tasks[t := k.(flag := true, frames := k.frames + [Owner(l)])],
       locks := s.locks[l := s.locks[l].(holder := Some(t))])
  }

  // The lock that a write asks for: free for the taking, or to be waited for.
  ghost function Asked(s: State, t: TaskId, l: LockId): State
    requires t in s.tasks && l < |s.locks|
  {
    if s.locks[l].holder.None? && s.locks[l].queue == [] then Acquired(s, t, l)
    else s.(locks := s.locks[l := s.locks[l].(queue := s.locks[l].queue + [t])])
  }

  ghost function Called(s: State, t: TaskId): State
    requires t in s.tasks && (s.current.Some? ==> s.current.value < |s.locks|)
  {
    var k := s.tasks[t];
    if k.flag then s.(tasks := s.tasks[t := k.(frames := k.frames + [Direct])])
    else
      var ready := Ensured(s, k.loop);
      Asked(ready, t, ready.current.value)
  }

  function Without(queue: seq<TaskId>, t: TaskId): seq<TaskId>
  {
    if queue == [] then [] else (if queue[0] == t then [] else [queue[0]]) + Without(queue[1..], t)
  }

  // The innermost write of a task completes or fails.
  ghost function Returned(s: State, t: TaskId): State
    requires t in s.tasks && s.tasks[t].frames != [] && LocksExist(s, t)
  {
    var k := s.tasks[t];
    var rest, last := k.frames[..|k.frames| - 1], k.frames[|k.frames| - 1];
    match last
    case Direct => s.(tasks := s.tasks[t := k.(frames := rest)])
    case Owner(l) =>
      s.(tasks := s.tasks[t := k.(flag := false, frames := rest)], locks := s.locks[l := s.locks[l].(holder := None)])
  }

  ghost function Apply(s: State, e: Event): State
    requires Enabled(s, e) && (s.current.Some? ==> s.current.value < |s.locks|)
  {
    match e
    case Begin(t, loop) => s.(tasks := s.tasks[t := Task(loop, false, [])])
    case Spawn(t, child) => s.(tasks := s.tasks[child := Task(s.tasks[t].loop, s.tasks[t].flag, [])])
    case Call(t) => Called(s, t)
    case Wake(t, l) => Acquired(s.(locks := s.locks[l := s.locks[l].(queue := s.locks[l].queue[1..])]), t, l)
    case Cancel(t, l) => s.(locks := s.locks[l := s.locks[l].(queue := Without(s.locks[l].queue, t))])
    case Return(t) => Returned(s, t)
  }

  /******* What every state keeps *******/

  // The flag is set exactly while the task is in a write, and then the outermost
  // write, and no other, holds a lock of the task's loop.
  ghost predicate TaskOk(s: State, t: TaskId)
    requires t in s.tasks
  {
    var k := s.tasks[t];
    && (k.flag <==> k.frames != [])
    && (k.frames != [] ==> k.frames[0].Owner? && HeldBy(s, k.frames[0].lock, t, k.loop))
    && (forall i :: 1 <= i < |k.frames| ==> k.frames[i].Direct?)
  }

  ghost predicate HeldBy(s: State, l: LockId, t: TaskId, loop: LoopId)
  {
    l < |s.locks| && s.locks[l].holder == Some(t) && s.locks[l].loop == loop
  }

  // A waiter is a task of the lock's loop that is in no write.
  ghost predicate WaiterOk(s: State, l: LockId, t: TaskId)
    requires l < |s.locks|
  {
    t in s.tasks && s.tasks[t].frames == [] && s.tasks[t].loop == s.locks[l].loop
  }

  ghost predicate HolderOk(s: State, l: LockId, t: TaskId)
  {
    t in s.tasks && s.tasks[t].frames != [] && s.tasks[t].frames[0] == Owner(l)
  }

  ghost predicate LockOk(s: State, l: LockId)
    requires l < |s.locks|
  {
    var lock := s.locks[l];
    && (lock.holder.Some? ==> HolderOk(s, l, lock.holder.value))
    && (forall t :: t in lock.queue ==> WaiterOk(s, l, t))
    && (forall i, j :: 0 <= i < j < |lock.queue| ==> lock.queue[i] != lock.queue[j])
  }

  predicate Busy(lock: Lock)
  {
    lock.holder.Some? || lock.queue != []
  }

  ghost predicate CurrentOk(locks: seq<Lock>, current: Option<LockId>, currentLoop: LoopId)
  {
    if current.None? then locks == [] else current.value < |locks| && locks[current.value].loop == currentLoop
  }

  // A loop uses one lock at a time: the module's own, if that one is the loop's.
  ghost predicate OnePerLoop(locks: seq<Lock>, current: Option<LockId>, currentLoop: LoopId)
  {
    && (forall l, m :: 0 <= l < m < |locks| && Busy(locks[l]) && Busy(locks[m]) ==> locks[l].loop != locks[m].loop)
    && (forall l :: 0 <= l < |locks| && Busy(locks[l]) && current.Some? && locks[l].loop == currentLoop ==>
          l == current.value)
  }

  ghost predicate Inv(s: State)
  {
    && (forall t :: t in s.tasks ==> TaskOk(s, t))
    && (forall l :: 0 <= l < |s.locks| ==> LockOk(s, l))
    && CurrentOk(s.locks, s.current, s.currentLoop)
    && OnePerLoop(s.locks, s.current, s.currentLoop)
  }

  const EMPTY := State(map[], [], None, 0)
}
