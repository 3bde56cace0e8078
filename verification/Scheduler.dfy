/** Running a plan: every task once, dependencies first, failures blocking what depends on them. */
module Scheduler {
  import opened Graphs
  import Plan
  import opened Sets
  import Text

  type Id = string

  datatype Status = Pending | Done | Failed | Blocked

  datatype Message = Message(assistant: bool, content: string)

  // What one turn came to: whether it settled as "done", and the last messages
  // of its chat, oldest first.
  datatype Turn = Turn(done: bool, recent: seq<Message>)

  // Some assistant message is the newest one, and it is not blank.
  ghost predicate Answered(recent: seq<Message>)
  {
    exists i :: 0 <= i < |recent| && recent[i].assistant && !Text.AllSpace(recent[i].content)
      && forall j :: i < j < |recent| ==> !recent[j].assistant
  }

  // A turn succeeds when it is done and produced output.
  ghost predicate Succeeds(turn: Turn)
  {
    turn.done && Answered(turn.recent)
  }

  method Verdict(turn: Turn) returns (ok: bool)
    ensures ok <==> Succeeds(turn)
  {
    var text := "";
    if turn.done {
      var i := |turn.recent|;
      while i > 0
        invariant 0 <= i <= |turn.recent| && text == ""
        invariant forall j :: i <= j < |turn.recent| ==> !turn.recent[j].assistant
      {
        i := i - 1;
        if turn.recent[i].assistant {
          text := turn.recent[i].content;
          break;
        }
      }
    }
    Text.StripMeaning(text);
    ok := turn.done && Text.Strip(text) != "";
  }

  /******* What a run may end in *******/

  type Graph = map<Id, seq<Id>>
  type Statuses = map<Id, Status>

  predicate IsDone(status: Statuses, t: Id) { t in status && status[t] == Done }
  predicate Stuck(status: Statuses, t: Id) { t in status && (status[t] == Failed || status[t] == Blocked) }

  // `t` may take a turn: all it depends on is done.
  ghost predicate Ready(deps: Graph, status: Statuses, t: Id)
  {
    forall d :: d in Targets(deps, t) ==> IsDone(status, d)
  }

  // `t` cannot succeed any more: it depends on something failed or blocked.
  ghost predicate Doomed(deps: Graph, status: Statuses, t: Id)
  {
    exists d :: d in Targets(deps, t) && Stuck(status, d)
  }

  // The `i`th decision follows from the decisions before it.
  ghost predicate Justified(deps: Graph, ok: Id -> bool, status: Statuses, log: seq<Id>, i: nat)
    requires i < |log|
  {
    var t, before := log[i], log[..i];
    t in status &&
    match status[t]
    case Pending => false
    case Blocked => exists d :: d in Targets(deps, t) && d in before && Stuck(status, d)
    case _ => (status[t] == Done <==> ok(t)) && forall d :: d in Targets(deps, t) ==> d in before && IsDone(status, d)
  }

  // `log` lists the decided tasks once each, in the order of decision.
  ghost predicate Decided(deps: Graph, ok: Id -> bool, status: Statuses, log: seq<Id>)
  {
    && status.Keys == deps.Keys
    && (forall i, j :: 0 <= i < j < |log| ==> log[i] != log[j])
    && (forall t :: t in status ==> (status[t] != Pending <==> t in log))
    && (forall i :: 0 <= i < |log| ==> Justified(deps, ok, status, log, i))
  }

  // Nothing is left to do.
  ghost predicate Settled(deps: Graph, status: Statuses)
  {
    forall t :: t in status && status[t] == Pending ==> !Ready(deps, status, t) && !Doomed(deps, status, t)
  }

  ghost predicate Outcome(deps: Graph, ok: Id -> bool, status: Statuses, log: seq<Id>)
  {
    Decided(deps, ok, status, log) && Settled(deps, status)
  }

  /******* Whatever the order, the same verdicts *******/

  lemma {:induction false} DecidedAgree(deps: Graph, ok: Id -> bool,
                                        s1: Statuses, l1: seq<Id>, s2: Statuses, l2: seq<Id>, n: nat)
    requires Outcome(deps, ok, s1, l1) && Outcome(deps, ok, s2, l2) && n <= |l1|
    ensures forall t :: t in l1[..n] ==> t in s2 && s2[t] == s1[t]
  {
    if n > 0 {
      DecidedAgree(deps, ok, s1, l1, s2, l2, n - 1);
      var t := l1[n - 1];
      assert l1[..n] == l1[..n - 1] + [t];
      assert Justified(deps, ok, s1, l1, n - 1);
      if s1[t] == Blocked {
        var d :| d in Targets(deps, t) && d in l1[..n - 1] && Stuck(s1, d);
        assert Stuck(s2, d) && Doomed(deps, s2, t);
      } else {
        assert Ready(deps, s2, t);
      }
      DecisionIn(deps, ok, s2, l2, t);
    }
  }

  lemma {:induction false} DecisionIn(deps: Graph, ok: Id -> bool, status: Statuses, log: seq<Id>, t: Id)
    requires Outcome(deps, ok, status, log) && t in status
    ensures Doomed(deps, status, t) ==> status[t] == Blocked
    ensures Ready(deps, status, t) ==> status[t] == if ok(t) then Done else Failed
  {
    if status[t] != Pending {
      var i :| 0 <= i < |log| && log[i] == t;
      assert Justified(deps, ok, status, log, i);
    }
  }

  /**
   * Two runs of the same tasks, with the same turn outcomes but their tasks listed
   * in whatever order, end in the same statuses.  Any graph, cyclic or not.
   */
  lemma {:induction false} OrderDoesNotMatter(deps: Graph, ok: Id -> bool,
                                              s1: Statuses, l1: seq<Id>, s2: Statuses, l2: seq<Id>)
    requires Outcome(deps, ok, s1, l1) && Outcome(deps, ok, s2, l2)
    ensures s1 == s2
  {
    DecidedAgree(deps, ok, s1, l1, s2, l2, |l1|);
    DecidedAgree(deps, ok, s2, l2, s1, l1, |l2|);
    assert l1[..|l1|] == l1 && l2[..|l2|] == l2;
    forall t | t in s1 ensures s1[t] == s2[t] {
      if s1[t] == Pending && s2[t] != Pending {
        assert t in l2;
      }
    }
  }

  /******* Plans that decide everything *******/

  // Every dependency names a task.
  ghost predicate Known(deps: Graph)
  {
    forall t, d :: t in deps && d in deps[t] ==> d in deps
  }

  // A pending task of a settled run with known dependencies waits for another.
  ghost function Waiting(deps: Graph, status: Statuses): (f: map<Id, Id>)
    requires status.Keys == deps.Keys && Known(deps) && Settled(deps, status)
    ensures forall t :: t in f <==> t in status && status[t] == Pending
    ensures f.Values <= f.Keys && forall t :: t in f ==> f[t] in Targets(deps, t)
  {
    map t | t in status && status[t] == Pending :: WaitsFor(deps, status, t)
  }

  ghost function WaitsFor(deps: Graph, status: Statuses, t: Id): (d: Id)
    requires status.Keys == deps.Keys && Known(deps) && Settled(deps, status)
    requires t in status && status[t] == Pending
    ensures d in Targets(deps, t) && d in status && status[d] == Pending
  {
    assert !Ready(deps, status, t) && !Doomed(deps, status, t);
    var d :| d in Targets(deps, t) && !IsDone(status, d);
    assert !Stuck(status, d);
    d
  }

  /**
   * A plan whose dependencies are known and acyclic is always decided in full, and
   * each verdict is the recursive one: blocked if something it depends on is not
   * done, and else what its own turn came to.
   */
  lemma {:induction false} FullyDecided(deps: Graph, ok: Id -> bool, status: Statuses, log: seq<Id>)
    requires Outcome(deps, ok, status, log) && Known(deps) && Acyclic(deps)
    ensures forall t :: t in status ==>
      status[t] == if !Ready(deps, status, t) then Blocked else if ok(t) then Done else Failed
  {
    var f := Waiting(deps, status);
    if t :| t in f {
      NoWayOut(deps, f, t);
    }
    forall t | t in status
      ensures status[t] == if !Ready(deps, status, t) then Blocked else if ok(t) then Done else Failed
    {
      assert t !in f;
      assert status[t] != Pending;
      var i :| 0 <= i < |log| && log[i] == t;
      assert Justified(deps, ok, status, log, i);
    }
  }

  /**
   * When every turn succeeds, the run decides every task exactly if all
   * dependencies are known and there is no cycle.
   */
  lemma {:induction false} DecidesExactlyValidPlans(deps: Graph, ok: Id -> bool, status: Statuses, log: seq<Id>)
    requires Outcome(deps, ok, status, log) && forall t :: ok(t)
    ensures (forall t :: t in status ==> status[t] != Pending) <==> Known(deps) && Acyclic(deps)
  {
    if Known(deps) && Acyclic(deps) {
      FullyDecided(deps, ok, status, log);
    }
    if forall t :: t in status ==> status[t] != Pending {
      AllSucceed(deps, ok, status, log, |log|);
      assert log[..|log|] == log;
      forall i, d | 0 <= i < |log| && d in Targets(deps, log[i]) ensures d in log[..i] {
        assert Justified(deps, ok, status, log, i);
      }
      OrderedIsAcyclic(deps, log);
      forall t, d | t in deps && d in deps[t] ensures d in deps {
        var i :| 0 <= i < |log| && log[i] == t;
        assert d in log[..i];
        var k :| 0 <= k < i && log[k] == d;
        assert Justified(deps, ok, status, log, k);
      }
    }
  }

  lemma {:induction false} AllSucceed(deps: Graph, ok: Id -> bool, status: Statuses, log: seq<Id>, n: nat)
    requires Decided(deps, ok, status, log) && n <= |log| && forall t :: ok(t)
    ensures forall t :: t in log[..n] ==> IsDone(status, t)
  {
    if n > 0 {
      AllSucceed(deps, ok, status, log, n - 1);
      assert log[..n] == log[..n - 1] + [log[n - 1]];
      assert Justified(deps, ok, status, log, n - 1);
    }
  }

  // What a row of a sound plan depends on is a row.
  lemma {:induction false} SoundDependency(items: seq<Plan.Item>, allowed: set<string>, rows: seq<Plan.Row>, i: nat,
                                           d: Id)
    returns (k: nat)
    requires Plan.Sound(items, allowed) && |rows| == |items| && i < |rows| && d in rows[i].dependsOn
    requires forall i :: 0 <= i < |rows| ==> items[i].Object? && rows[i] == Plan.RowOf(items, i)
    ensures k < |rows| && rows[k].id == d
  {
    assert !Plan.Defect(items, allowed, Plan.OfItem(i, Plan.UnknownDependency(d)));
    var item :| item in items && item.id == d;
    k :| 0 <= k < |items| && items[k] == item;
  }

  // The rows of a sound plan name each other only, and each once.
  lemma {:induction false} SoundRows(items: seq<Plan.Item>, allowed: set<string>, rows: seq<Plan.Row>)
    requires Plan.Sound(items, allowed) && |rows| == |items|
    requires forall i :: 0 <= i < |rows| ==> items[i].Object? && rows[i] == Plan.RowOf(items, i)
    ensures forall i, j :: 0 <= i < j < |rows| ==> rows[i].id != rows[j].id
    ensures Known(Plan.GraphOf(rows))
  {
    forall i, j | 0 <= i < j < |rows| ensures rows[i].id != rows[j].id {
      assert !Plan.Defect(items, allowed, Plan.OfItem(j, Plan.DuplicateId(items[j].id)));
    }
    Plan.GraphShape(rows);
    var g := Plan.GraphOf(rows);
    forall t, d | t in g && d in g[t] ensures d in g {
      var row :| row in rows && row.id == t && row.dependsOn == g[t];
      var i :| 0 <= i < |rows| && rows[i] == row;
      var k := SoundDependency(items, allowed, rows, i, d);
      assert rows[k] in rows;
    }
  }

  /**
   * A plan that validation accepts runs to a verdict for every task: blocked if
   * something it depends on is not done, and else what its own turn came to.
   */
  lemma {:induction false} ValidatedPlansAreDecided(items: seq<Plan.Item>, allowed: set<string>, rows: seq<Plan.Row>,
                                 ok: Id -> bool, status: Statuses, log: seq<Id>)
    requires Plan.Sound(items, allowed) && |rows| == |items|
    requires forall i :: 0 <= i < |rows| ==> items[i].Object? && rows[i] == Plan.RowOf(items, i)
    requires Acyclic(Plan.GraphOf(rows))
    requires Outcome(Plan.GraphOf(rows), ok, status, log)
    ensures forall i :: 0 <= i < |rows| ==> rows[i].id in status
    ensures forall i :: 0 <= i < |rows| ==>
      status[rows[i].id] ==
        (if exists d :: d in rows[i].dependsOn && !IsDone(status, d) then Blocked
         else if ok(rows[i].id) then Done else Failed)
  {
    SoundRows(items, allowed, rows);
    Plan.GraphShape(rows);
    var g := Plan.GraphOf(rows);
    FullyDecided(g, ok, status, log);
    forall i | 0 <= i < |rows| ensures rows[i].id in g && g[rows[i].id] == rows[i].dependsOn {
      assert rows[i] in rows;
      var row :| row in rows && row.id == rows[i].id && row.dependsOn == g[rows[i].id];
      var j :| 0 <= j < |rows| && rows[j] == row;
      assert i == j;
    }
  }

  /******* The run itself *******/

  // When `ran[i]` took its turn, all it depends on was done.
  ghost predicate InOrder(deps: Graph, status: Statuses, ran: seq<Id>, i: nat)
    requires i < |ran|
  {
    forall d :: d in Targets(deps, ran[i]) ==> d in ran[..i] && IsDone(status, d)
  }

  // The tasks that took a turn, each once and after everything it depends on.
  ghost predicate TurnsTaken(deps: Graph, status: Statuses, ran: seq<Id>)
  {
    && (forall i, j :: 0 <= i < j < |ran| ==> ran[i] != ran[j])
    && (forall t :: t in ran <==> t in status && (status[t] == Done || status[t] == Failed))
    && (forall i :: 0 <= i < |ran| ==> InOrder(deps, status, ran, i))
  }

  // A decision that follows from the earlier ones can be appended.
  lemma {:induction false} DecideOne(deps: Graph, ok: Id -> bool, status: Statuses, log: seq<Id>, t: Id, s: Status)
    requires Decided(deps, ok, status, log) && t in status && status[t] == Pending
    requires (s == Blocked && Doomed(deps, status, t)) ||
             (s == (if ok(t) then Done else Failed) && Ready(deps, status, t))
    ensures Decided(deps, ok, status[t := s], log + [t])
  {
    var status', log' := status[t := s], log + [t];
    assert t !in log;
    assert forall u :: u in log' <==> u in log || u == t;
    forall i | 0 <= i < |log'| ensures Justified(deps, ok, status', log', i) {
      if i < |log| {
        assert Justified(deps, ok, status, log, i);
        assert log'[..i] == log[..i];
      } else {
        assert log'[..i] == log;
      }
    }
  }

  lemma {:induction false} TakeTurn(deps: Graph, status: Statuses, ran: seq<Id>, t: Id, s: Status)
    requires TurnsTaken(deps, status, ran) && t in status && status[t] == Pending
    requires (s == Done || s == Failed) && Ready(deps, status, t)
    ensures TurnsTaken(deps, status[t := s], ran + [t])
  {
    var status', ran' := status[t := s], ran + [t];
    assert t !in ran;
    assert forall u :: u in ran' <==> u in ran || u == t;
    forall i | 0 <= i < |ran'| ensures InOrder(deps, status', ran', i) {
      if i < |ran| {
        assert InOrder(deps, status, ran, i);
        assert ran'[..i] == ran[..i];
      } else {
        assert ran'[..i] == ran;
      }
    }
  }

  // Blocking takes no turn.
  lemma {:induction false} BlockOne(deps: Graph, status: Statuses, ran: seq<Id>, t: Id)
    requires TurnsTaken(deps, status, ran) && t in status && status[t] == Pending
    ensures TurnsTaken(deps, status[t := Blocked], ran)
  {
    var status' := status[t := Blocked];
    forall i | 0 <= i < |ran| ensures InOrder(deps, status', ran, i) {
      assert InOrder(deps, status, ran, i);
    }
  }

  lemma {:induction false} LogIsShort(deps: Graph, ok: Id -> bool, status: Statuses, log: seq<Id>)
    requires Decided(deps, ok, status, log)
    ensures |log| <= |deps|
  {
    forall i | 0 <= i < |log| ensures log[i] in deps.Keys {
      assert Justified(deps, ok, status, log, i);
    }
    DistinctAreFew(log, deps.Keys);
  }

  // In the order of the list; the first `a` in it comes before any `b`.
  ghost predicate Precedes(order: seq<Id>, a: Id, b: Id)
  {
    exists k :: 0 <= k < |order| && order[k] == a && b !in order[..k + 1]
  }

  ghost predicate InListOrder(order: seq<Id>, part: seq<Id>)
  {
    forall i, j :: 0 <= i < j < |part| ==> Precedes(order, part[i], part[j])
  }

  lemma {:induction false} ListedNext(order: seq<Id>, part: seq<Id>, i: nat)
    requires i < |order| && order[i] !in order[..i] && InListOrder(order, part)
    requires forall t :: t in part ==> t in order[..i]
    ensures InListOrder(order, part + [order[i]])
  {
    forall j | 0 <= j < |part| ensures Precedes(order, part[j], order[i]) {
      assert part[j] in order[..i];
      var k :| 0 <= k < i && order[k] == part[j];
      assert order[..k + 1] <= order[..i];
    }
  }

  datatype RunStatus = AllDone | Error | Degraded

  class TaskRun {
    const deps: Graph
    const order: seq<Id>     // the tasks in dictionary order
    const turn: Id -> Turn   // what a task's turn would come to
    ghost const ok: Id -> bool
    var status: Statuses
    var done: set<Id>
    var failed: set<Id>
    var blocked: set<Id>
    ghost var log: seq<Id>
    ghost var ran: seq<Id>

    ghost predicate Valid()
      reads this
    {
      && (forall t :: t in order <==> t in deps)
      && (forall t :: ok(t) <==> Succeeds(turn(t)))
      && Decided(deps, ok, status, log)
      && TurnsTaken(deps, status, ran)
      && (forall t :: t in done <==> IsDone(status, t))
      && (forall t :: t in failed <==> t in status && status[t] == Failed)
      && (forall t :: t in blocked <==> t in status && status[t] == Blocked)
    }

    constructor (order: seq<Id>, deps: Graph, turn: Id -> Turn)
      requires forall t :: t in order <==> t in deps
      ensures this.deps == deps && this.order == order && this.turn == turn
      ensures Valid() && log == []
    {
      this.order, this.deps, this.turn := order, deps, turn;
      this.ok := t => Succeeds(turn(t));
      status := map t | t in deps :: Pending;
      done, failed, blocked := {}, {}, {};
      log, ran := [], [];
    }

    method Block(t: Id)
      requires Valid() && t in status && status[t] == Pending && Doomed(deps, status, t)
      modifies this
      ensures Valid() && log == old(log) + [t]
    {
      DecideOne(deps, ok, status, log, t, Blocked);
      BlockOne(deps, status, ran, t);
      status, blocked, log := status[t := Blocked], blocked + {t}, log + [t];
    }

    // Marks, in dictionary order, each pending task that depends on a failed or
    // blocked one; a task blocked here blocks those listed after it at once.
    method BlockPass() returns (changed: bool)
      requires Valid()
      modifies this
      ensures Valid()
      ensures if changed then old(|log|) < |log| else log == old(log)
      ensures !changed ==> forall t :: t in status && status[t] == Pending ==> !Doomed(deps, status, t)
    {
      changed := false;
      for i := 0 to |order|
        invariant Valid()
        invariant if changed then old(|log|) < |log| else log == old(log)
        invariant !changed ==> forall t :: t in order[..i] && status[t] == Pending ==> !Doomed(deps, status, t)
      {
        var t := order[i];
        assert order[..i + 1] == order[..i] + [t];
        if status[t] == Pending && exists d :: d in deps[t] && (d in failed || d in blocked) {
          assert Doomed(deps, status, t) by {
            var d :| d in deps[t] && (d in failed || d in blocked);
            assert Stuck(status, d);
          }
          Block(t);
          changed := true;
        }
      }
      assert order[..|order|] == order;
    }

    method ReadyTasks() returns (ready: seq<Id>)
      requires Valid()
      ensures forall t :: t in ready <==> t in status && status[t] == Pending && Ready(deps, status, t)
      ensures forall i, j :: 0 <= i < j < |ready| ==> ready[i] != ready[j]
      ensures InListOrder(order, ready)
    {
      ready := [];
      for i := 0 to |order|
        invariant forall t :: t in ready <==> t in order[..i] && status[t] == Pending && Ready(deps, status, t)
        invariant forall k, j :: 0 <= k < j < |ready| ==> ready[k] != ready[j]
        invariant InListOrder(order, ready)
      {
        var t := order[i];
        assert order[..i + 1] == order[..i] + [t];
        if status[t] == Pending && t !in ready && forall d :: d in deps[t] ==> d in done {
          ListedNext(order, ready, i);
          ready := ready + [t];
        }
      }
      assert order[..|order|] == order;
    }

    method Run(t: Id)
      requires Valid() && t in status && status[t] == Pending && Ready(deps, status, t)
      modifies this
      ensures Valid() && log == old(log) + [t]
      ensures status == old(status)[t := status[t]] && status[t] != Pending
    {
      var success := Verdict(turn(t));
      var s := if success then Done else Failed;
      DecideOne(deps, ok, status, log, t, s);
      TakeTurn(deps, status, ran, t, s);
      status, log, ran := status[t := s], log + [t], ran + [t];
      if success {
        done := done + {t};
      } else {
        failed := failed + {t};
      }
    }

    method RunReady(ready: seq<Id>)
      requires Valid()
      requires forall t :: t in ready ==> t in status && status[t] == Pending && Ready(deps, status, t)
      requires forall i, j :: 0 <= i < j < |ready| ==> ready[i] != ready[j]
      modifies this
      ensures Valid() && log == old(log) + ready
    {
      for i := 0 to |ready|
        invariant Valid() && log == old(log) + ready[..i]
        invariant forall k :: i <= k < |ready| ==>
                  ready[k] in status && status[ready[k]] == Pending && Ready(deps, status, ready[k])
      {
        assert ready[..i + 1] == ready[..i] + [ready[i]];
        Run(ready[i]);
      }
      assert ready[..|ready|] == ready;
    }

    /** Runs the plan until nothing is left to do, and says how it went as a whole. */
    method RunTasks() returns (verdict: RunStatus)
      requires Valid()
      modifies this
      ensures Valid() && Outcome(deps, ok, status, log)
      ensures verdict == AllDone <==> forall t :: t in status ==> status[t] == Done
      ensures verdict == Error <==> status != map[] && forall t :: t in status ==> status[t] != Done
    {
      while true
        invariant Valid()
        decreases |deps| - |log|
      {
        label Pass:
        var changed := BlockPass();
        var ready := ReadyTasks();
        if ready == [] && !changed {
          break;
        }
        RunReady(ready);
        LogIsShort(deps, ok, status, log);
        assert |log| > old@Pass(|log|);
      }
      CountDone();
      verdict := if |done| == |status| then AllDone else if done == {} then Error else Degraded;
    }

    // The finished tasks are as many as the tasks exactly when all are done.
    lemma {:induction false} CountDone()
      requires Valid()
      ensures |done| == |status| <==> forall t :: t in status ==> status[t] == Done
      ensures done == {} <==> forall t :: t in status ==> status[t] != Done
    {
      assert done <= status.Keys;
      assert done == status.Keys <==> forall t :: t in status ==> status[t] == Done;
      if |done| == |status| {
        SubsetSize(done, status.Keys);
      }
      if t :| t in status && status[t] == Done {
        assert t in done;
      }
    }
  }
}
