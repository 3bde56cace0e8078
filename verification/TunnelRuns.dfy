/**
 Whole runs of the tunnel protocol: safety as long as `stop` finds no connect in
 flight, the exact step that breaks it otherwise, and what exhausted ports do.
 */
module TunnelRuns {
  import opened TunnelProtocol
  import opened TunnelSafety
  import opened Wrappers

  ghost predicate StepsTo(w: World, e: Event, w': World)
  {
    Enabled(w, e) && w' == Apply(w, e)
  }

  // `ws` are the worlds passed through by the events `es`, from `ws[0]` on.
  ghost predicate Execution(ws: seq<World>, es: seq<Event>)
  {
    && |ws| == |es| + 1
    && forall i :: 0 <= i < |es| ==> StepsTo(ws[i], es[i], ws[i + 1])
  }

  // Every stop of the run finds no connect in flight.
  ghost predicate StopsAreCalm(ws: seq<World>, es: seq<Event>)
    requires Execution(ws, es)
  {
    forall i :: 0 <= i < |es| && es[i].Stop? ==> ws[i].runs == map[]
  }

  lemma {:induction false} StepAt(ws: seq<World>, es: seq<Event>, i: nat)
    requires Execution(ws, es) && i < |es|
    ensures Enabled(ws[i], es[i]) && ws[i + 1] == Apply(ws[i], es[i])
  {
    assert StepsTo(ws[i], es[i], ws[i + 1]);
  }

  lemma {:induction false} Chain(ws: seq<World>, es: seq<Event>, ws': seq<World>, es': seq<Event>)
    requires Execution(ws, es) && Execution(ws', es') && ws[|es|] == ws'[0]
    ensures Execution(ws + ws'[1..], es + es')
  {
    forall i | 0 <= i < |es + es'| ensures StepsTo((ws + ws'[1..])[i], (es + es')[i], (ws + ws'[1..])[i + 1]) {
      if i >= |es| {
        var j := i - |es|;
        assert StepsTo(ws'[j], es'[j], ws'[j + 1]);
      }
    }
  }

  /******* The guard *******/

  lemma {:induction false} RestartGuard(w: World, m: Machine, backoff: nat, foreign: set<Port>)
    requires Guarded(w)
    ensures Guarded(Restart(w, m, backoff, foreign)) && !RestartOverlaps(w, m, backoff, foreign)
  {
    ReleaseFrame(w, m);
  }

  lemma {:induction false} ReleaseAllFrame(w: World, order: seq<Machine>)
    ensures var w' := ReleaseAll(w, order);
            w' == w.(state := w'.state, transports := w'.transports, closed := w'.closed)
    decreases |order|
  {
    if order != [] {
      ReleaseFrame(w, order[0]);
      ReleaseAllFrame(Release(w, order[0]), order[1..]);
    }
  }

  lemma {:induction false} EndRunGuard(w: World, r: nat)
    requires Guarded(w) && OneRunPerMachine(w.runs) && r in w.runs
    ensures Guarded(EndRun(w, r))
  {
  }

  lemma {:induction false} StopGuard(w: World, order: seq<Machine>)
    requires Enabled(w, Stop(order))
    ensures Guarded(Apply(w, Stop(order))) <==> w.runs == map[]
  {
    ReleaseAllFrame(w, order);
    if w.runs != map[] {
      var r :| r in w.runs;
      assert r in Apply(w, Stop(order)).runs;
    }
  }

  lemma {:induction false} CommandGuard(w: World, command: Command, foreign: set<Port>)
    requires Guarded(w)
    ensures Guarded(HandleCommand(w, command, foreign))
    ensures command.Reconnect? ==> !RestartOverlaps(w, command.machine, BACKOFF_BASE, foreign)
  {
    match command
    case StartTunnel(_) =>
    case StopTunnel(m) => ReleaseFrame(w, m);
    case Reconnect(m) => RestartGuard(w, m, BACKOFF_BASE, foreign);
  }

  // While the guard covers every connect nothing overlaps, and the only step
  // that can uncover one is a stop that finds it in flight.
  lemma {:induction false} GuardStep(w: World, e: Event)
    requires Guarded(w) && OneRunPerMachine(w.runs) && Enabled(w, e)
    ensures !Overlaps(w, e)
    ensures Guarded(Apply(w, e)) <==> (e.Stop? ==> w.runs == map[])
  {
    match e
    case Drain(foreign) => CommandGuard(w.(queue := w.queue[1..]), w.queue[0], foreign);
    case RetryWake(m, backoff, foreign) =>
      RestartGuard(w.(sleeping := w.sleeping - multiset{(m, backoff)}), m, backoff, foreign);
    case Stop(order) => StopGuard(w, order);
    case Land(r) => EndRunGuard(w, r);
    case Finish(r) => EndRunGuard(w, r);
    case _ =>
  }

  /******* Safety over runs *******/

  // What the invariant means to a user of the tunnels.
  ghost predicate Safe(w: World)
  {
    // reference counts are exact, and nothing registered is unused
    && (forall t :: t in w.transports ==>
          w.transports[t].refcount == |Claimants(w.state, t)| + |Arriving(w.runs, t)| >= 1)
    // no connection is closed under a machine that uses it
    && (forall m :: Claims(w.state, m) ==>
          && w.state[m].claim.value.transport in w.transports
          && w.transports[w.state[m].claim.value.transport].conn == w.state[m].claim.value.conn
          && w.state[m].claim.value.conn !in w.closed)
    // no connection outlives its last holder
    && (forall c :: 0 <= c < |w.dialled| && c !in w.closed ==>
          |Claimants(w.state, w.dialled[c])| + |Arriving(w.runs, w.dialled[c])| >= 1)
    // one connect per machine, on its own reserved port
    && OneRunPerMachine(w.runs)
    && PortsReserved(w.runs, w.reserved)
    // no two live forwards share a port
    && ForwardsDistinct(w.state, w.runs)
  }

  lemma {:induction false} InvIsSafe(w: World)
    requires Inv(w)
    ensures Safe(w)
  {
    forall t | t in w.transports
      ensures w.transports[t].refcount == |Claimants(w.state, t)| + |Arriving(w.runs, t)| >= 1
    {
      assert CountedAt(w.state, w.runs, w.transports, t);
    }
    forall m | Claims(w.state, m) ensures w.state[m].claim.value.transport in w.transports {
      ClaimIsRegistered(w, m);
    }
  }

  /**
   * In every run from boot in which each stop finds no connect in flight, every
   * world is safe.
   */
  lemma {:induction false} RunsAreSafe(ws: seq<World>, es: seq<Event>, n: nat)
    requires Execution(ws, es) && ws[0] == BOOT && StopsAreCalm(ws, es)
    requires n < |ws|
    ensures Safe(ws[n]) && Inv(ws[n]) && Guarded(ws[n])
  {
    if n == 0 {
      InvIsSafe(BOOT);
    } else {
      RunsAreSafe(ws, es, n - 1);
      StepAt(ws, es, n - 1);
      GuardStep(ws[n - 1], es[n - 1]);
      StepKeeps(ws[n - 1], es[n - 1]);
      InvIsSafe(ws[n]);
    }
  }

  ghost predicate OverlapsAt(ws: seq<World>, es: seq<Event>, i: nat)
    requires Execution(ws, es) && i < |es|
  {
    StepAt(ws, es, i);
    Overlaps(ws[i], es[i])
  }

  /**
   * Whatever the stops do, the invariant holds throughout a run exactly when no
   * step of it starts a second connect for a machine that has one in flight.
   */
  lemma {:induction false} InvariantUnlessOverlap(ws: seq<World>, es: seq<Event>)
    requires Execution(ws, es) && ws[0] == BOOT
    ensures (forall i :: 0 <= i < |ws| ==> Inv(ws[i])) <==> (forall i :: 0 <= i < |es| ==> !OverlapsAt(ws, es, i))
  {
    if forall i :: 0 <= i < |ws| ==> Inv(ws[i]) {
      forall i | 0 <= i < |es| ensures !OverlapsAt(ws, es, i) {
        StepAt(ws, es, i);
        StepKeeps(ws[i], es[i]);
      }
    }
    if forall i :: 0 <= i < |es| ==> !OverlapsAt(ws, es, i) {
      forall i | 0 <= i < |ws| ensures Inv(ws[i]) {
        NoOverlapKeeps(ws, es, i);
      }
    }
  }

  lemma {:induction false} NoOverlapKeeps(ws: seq<World>, es: seq<Event>, n: nat)
    requires Execution(ws, es) && ws[0] == BOOT && n < |ws|
    requires forall i :: 0 <= i < |es| ==> !OverlapsAt(ws, es, i)
    ensures Inv(ws[n])
  {
    if n > 0 {
      NoOverlapKeeps(ws, es, n - 1);
      StepAt(ws, es, n - 1);
      assert !OverlapsAt(ws, es, n - 1);
      StepKeeps(ws[n - 1], es[n - 1]);
    }
  }

  // What any stop leaves: no entry and no guard, and every connect in flight.
  lemma {:induction false} StoppedWorld(w: World, order: seq<Machine>) returns (w': World)
    requires Inv(w) && Enabled(w, Stop(order))
    ensures StepsTo(w, Stop(order), w')
    ensures Inv(w') && w'.state == map[] && w'.connecting == {} && w'.queue == []
    ensures w'.runs == w.runs && w'.reserved == w.reserved && w'.nextId == w.nextId
  {
    w' := Apply(w, Stop(order));
    ReleaseAllKeeps(w, order);
    ReleaseAllFrame(w, order);
    forall m | m in w.state ensures m in order {
      assert multiset(w.state.Keys)[m] == 1;
    }
  }

  // A calm stop leaves nothing behind: no entry, no registration, and every
  // connection ever opened is closed.
  lemma {:induction false} CalmStopClosesEverything(w: World, order: seq<Machine>)
    requires Inv(w) && Enabled(w, Stop(order)) && w.runs == map[]
    ensures var w' := Apply(w, Stop(order));
      && w'.state == map[] && w'.transports == map[] && w'.reserved == {}
      && forall c: Conn :: c < |w'.dialled| ==> c in w'.closed
  {
    var w' := Apply(w, Stop(order));
    ReleaseAllKeeps(w, order);
    forall m | m in w.state ensures m in order {
      assert multiset(w.state.Keys)[m] == 1;
    }
    assert w'.state == map[];
    forall t ensures t !in w'.transports {
      assert CountedAt(w'.state, w'.runs, w'.transports, t);
      assert Claimants(w'.state, t) == {} && Arriving(w'.runs, t) == {};
    }
  }

  /******* When the ports run out *******/

  // The guard of `m` is set, but no connect will ever clear it.
  ghost predicate Wedged(w: World, m: Machine)
  {
    m in w.connecting && !InFlight(w, m)
  }

  // The port search raises after the guard was set: a machine that finds every
  // port taken is wedged by the attempt.
  lemma {:induction false} ExhaustedPortsWedge(w: World, m: Machine, foreign: set<Port>)
    requires m !in w.connecting && !InFlight(w, m)
    ensures Wedged(TryConnect(w, m, foreign), m) <==>
            forall p :: PORT_LOW <= p < PORT_HIGH ==> p in w.reserved + (LivePorts(w.state, w.runs) + foreign)
  {
    FirstFreeIsFree(w.reserved + (LivePorts(w.state, w.runs) + foreign), PORT_LOW);
    if Launches(w, m, foreign) {
      assert TryConnect(w, m, foreign).runs[w.nextId].machine == m;
    }
  }

  lemma {:induction false} WedgedRestart(w: World, m: Machine, n: Machine, backoff: nat, foreign: set<Port>)
    requires Wedged(w, m)
    ensures Wedged(Restart(w, n, backoff, foreign), m)
  {
    ReleaseFrame(w, n);
  }

  lemma {:induction false} WedgedStep(w: World, e: Event, m: Machine)
    requires Wedged(w, m) && Enabled(w, e) && !e.Stop?
    ensures Wedged(Apply(w, e), m)
  {
    match e
    case Drain(foreign) =>
      var w1 := w.(queue := w.queue[1..]);
      match w.queue[0] {
        case StartTunnel(_) =>
        case StopTunnel(n) => ReleaseFrame(w1, n);
        case Reconnect(n) => WedgedRestart(w1, m, n, BACKOFF_BASE, foreign);
      }
    case RetryWake(n, backoff, foreign) =>
      WedgedRestart(w.(sleeping := w.sleeping - multiset{(n, backoff)}), m, n, backoff, foreign);
    case _ =>
  }

  /**
   * A wedged machine stays wedged through every command, tick and retry until the
   * manager is stopped: no connect is ever started for it again.
   */
  lemma {:induction false} WedgedUntilStop(ws: seq<World>, es: seq<Event>, m: Machine, n: nat)
    requires Execution(ws, es) && n < |ws| && Wedged(ws[0], m)
    requires forall i :: 0 <= i < |es| ==> !es[i].Stop?
    ensures Wedged(ws[n], m)
  {
    if n > 0 {
      WedgedUntilStop(ws, es, m, n - 1);
      StepAt(ws, es, n - 1);
      WedgedStep(ws[n - 1], es[n - 1], m);
    }
  }
}
