/**
 The tunnel manager as a program that updates its tables in place.  Every method
 is the code between two suspension points.  It keeps the invariant, says what it
 does to the machine, the count and the connections, and takes exactly the step of
 `TunnelProtocol` that it stands for.
 */
module TunnelManager {
  import opened TunnelEffects
  import opened TunnelProtocol
  import opened TunnelRuns
  import opened Wrappers

  class Manager {
    var state: map<Machine, Entry>
    var transports: map<Transport, Shared>
    var connecting: set<Machine>
    var reserved: set<Port>
    var queue: seq<Command>
    // the event loop's side: connect tasks, the health probe, retry tasks
    var runs: map<nat, Run>
    var probe: Option<(Machine, nat)>
    var spawned: multiset<Machine>
    var sleeping: multiset<(Machine, nat)>
    var nextId: nat
    // a record of the connections opened and closed so far
    var dialled: seq<Transport>
    var closed: set<Conn>

    function View(): World
      reads this
    {
      World(state, transports, connecting, reserved, queue, runs, probe, spawned, sleeping, nextId, dialled, closed)
    }

    // Between two steps the invariant holds and the guard covers every connect.
    ghost predicate Valid()
      reads this
    {
      Good(View())
    }

    constructor ()
      ensures Valid() && View() == BOOT
    {
      state, transports, connecting, reserved, queue := map[], map[], {}, {}, [];
      runs, probe, spawned, sleeping, nextId := map[], None, multiset{}, multiset{}, 0;
      dialled, closed := [], {};
      new;
      InvIsSafe(BOOT);
    }

    method Unclaim(t: Transport)
      requires t in transports
      modifies this`transports, this`closed
      ensures View() == TunnelProtocol.Unclaim(old(View()), t)
    {
      var shared := transports[t];
      transports := transports[t := shared.(refcount := shared.refcount - 1)];
      if transports[t].refcount <= 0 {
        closed := closed + {shared.conn};
        transports := transports - {t};
        assert transports == old(transports) - {t};
      }
    }

    // The pop of the entry, and the release of its claim.
    method Pop(m: Machine)
      modifies this`state, this`transports, this`closed
      ensures View() == Release(old(View()), m)
    {
      if m !in state {
        return;
      }
      var entry := state[m];
      state := state - {m};
      if entry.claim.Some? {
        var c := entry.claim.value;
        if c.transport in transports {
          Unclaim(c.transport);
        } else {
          closed := closed + {c.conn};
        }
      }
    }

    /**
     * The machine's entry is gone, and so is its claim: the connection is closed exactly
     * if no other machine and no connect holds it.
     */
    method ReleaseMachine(m: Machine)
      requires Valid()
      modifies this`state, this`transports, this`closed
      ensures View() == Release(old(View()), m)
      ensures Valid() && state == old(state) - {m} && GivesBackIfAny(old(View()), View(), m)
    {
      ReleaseEffect(View(), m);
      Pop(m);
    }

    // Scans the port range upwards; `listening` are the ports whose probe is not
    // refused.
    method FindPort(listening: set<Port>) returns (port: Option<Port>)
      modifies this`reserved
      ensures port == FirstFree(old(reserved) + listening, PORT_LOW)
      ensures port.Some? ==> 9000 <= port.value < 10000 && port.value !in old(reserved) + listening
      ensures forall q :: 9000 <= q < (if port.Some? then port.value else 10000) ==> q in old(reserved) + listening
      ensures reserved == old(reserved) + if port.Some? then {port.value} else {}
    {
      for p := PORT_LOW to PORT_HIGH
        invariant reserved == old(reserved)
        invariant forall q :: 9000 <= q < p ==> q in reserved + listening
        invariant FirstFree(reserved + listening, PORT_LOW) == FirstFree(reserved + listening, p)
      {
        if p !in reserved && p !in listening {
          reserved := reserved + {p};
          return Some(p);
        }
      }
      return None;
    }

    method TryConnect(m: Machine, foreign: set<Port>)
      modifies this`connecting, this`reserved, this`runs, this`nextId
      ensures View() == TunnelProtocol.TryConnect(old(View()), m, foreign)
    {
      if m in connecting {
        return;
      }
      ghost var w := View();
      connecting := connecting + {m};
      var port := FindPort(LivePorts(state, runs) + foreign);
      assert port == FreePort(w, foreign);
      if port.Some? {
        SpawnConnect(m, port.value);
      }
      // otherwise the search raises, and the guard stays set
    }

    method SpawnConnect(m: Machine, port: Port)
      modifies this`runs, this`nextId
      ensures runs == old(runs)[old(nextId) := Run(m, port, Opening)] && nextId == old(nextId) + 1
    {
      runs := runs[nextId := Run(m, port, Opening)];
      nextId := nextId + 1;
    }

    method PutFresh(m: Machine, backoff: nat)
      modifies this`state, this`nextId
      ensures View() == TunnelProtocol.PutFresh(old(View()), m, backoff)
    {
      state := state[m := Entry(nextId, Connecting, None, backoff)];
      nextId := nextId + 1;
    }

    // Release, a new entry, and another connect.
    method Redo(m: Machine, backoff: nat, foreign: set<Port>)
      modifies this`state, this`transports, this`closed, this`connecting, this`reserved, this`runs, this`nextId
      ensures View() == Restart(old(View()), m, backoff, foreign)
    {
      Pop(m);
      PutFresh(m, backoff);
      TryConnect(m, foreign);
    }

    /**
     * START gives the machine an entry if it has none and asks for a reconnect, STOP
     * releases it, and RECONNECT restarts it; the other machines are not touched.
     */
    method HandleCommand(command: Command, foreign: set<Port>)
      requires Valid()
      modifies this
      ensures View() == TunnelProtocol.HandleCommand(old(View()), command, foreign)
      ensures Valid() && Obeys(old(View()), View(), command, foreign)
    {
      CommandEffect(View(), command, foreign);
      match command
      case StartTunnel(m) =>
        if m !in state {
          PutFresh(m, BACKOFF_BASE);
        }
        queue := queue + [Reconnect(m)];
      case StopTunnel(m) =>
        Pop(m);
      case Reconnect(m) =>
        Redo(m, BACKOFF_BASE, foreign);
    }

    method QueueCommand(command: Command)
      requires Valid()
      modifies this`queue
      ensures Valid() && queue == old(queue) + [command]
    {
      StaysGood(View(), Post(command));
      queue := queue + [command];
    }

    /** The loop takes the next command and carries it out; the others stay queued. */
    method DrainOne(foreign: set<Port>)
      requires Valid() && Enabled(View(), Drain(foreign))
      modifies this
      ensures View() == Apply(old(View()), Drain(foreign))
      ensures Valid() && Obeys(old(View()).(queue := old(queue)[1..]), View(), old(queue)[0], foreign)
    {
      var command := queue[0];
      PopQueue(View());
      queue := queue[1..];
      HandleCommand(command, foreign);
    }

    /**
     * The tick writes through the entry it read before the probe: only the link of that
     * entry changes, and if the machine has another entry by now, nothing does.
     */
    method ProbeReturns(ok: bool)
      requires Valid() && Enabled(View(), ProbeDone(ok))
      modifies this`state, this`probe
      ensures View() == Apply(old(View()), ProbeDone(ok))
      ensures Valid() && Probed(old(View()), View(), old(probe).value.0, old(probe).value.1, ok) && probe == None
    {
      ProbeEffect(View(), ok);
      var (m, id) := probe.value;
      probe := None;
      if m in state && state[m].id == id {
        var entry := state[m];
        if ok {
          entry := entry.(link := Connected);
        } else {
          entry := entry.(link := Error);
        }
        state := state[m := entry];
      }
    }

    /**
     * The retry will wait for twice the machine's backoff, between two seconds and sixty;
     * for a machine that is gone it ends.
     */
    method RetryBegins(m: Machine)
      requires Valid() && Enabled(View(), RetryStart(m))
      modifies this`spawned, this`sleeping
      ensures View() == Apply(old(View()), RetryStart(m))
      ensures Valid() && (m !in state ==> sleeping == old(sleeping))
      ensures m in state ==> exists b :: BackedOff(state[m], b) && sleeping == old(sleeping) + multiset{(m, b)}
    {
      RetryEffect(View(), m);
      spawned := spawned - multiset{m};
      if m !in state {
        return;
      }
      var backoff := Min(state[m].backoff * 2, BACKOFF_MAX);
      sleeping := sleeping + multiset{(m, backoff)};
    }

    /** Whatever happened while it slept, the retry restarts the machine. */
    method RetryWakes(m: Machine, backoff: nat, foreign: set<Port>)
      requires Valid() && Enabled(View(), RetryWake(m, backoff, foreign))
      modifies this
      ensures View() == Apply(old(View()), RetryWake(m, backoff, foreign))
      ensures Valid() && Restarts(old(View()), View(), m, backoff, foreign) && queue == old(queue)
    {
      WakeEffect(View(), m, backoff, foreign);
      sleeping := sleeping - multiset{(m, backoff)};
      Redo(m, backoff, foreign);
    }

    /**
     * A live connection is reused, with one more holder; without one the connect keeps
     * the transport's lock, and nobody else is at it.
     */
    method ConnectTakesLock(r: nat, t: Transport)
      requires Valid() && Enabled(View(), TakeLock(r, t))
      modifies this`runs, this`transports
      ensures View() == Apply(old(View()), TakeLock(r, t))
      ensures Valid() && TakesLock(old(View()), View(), r, t)
    {
      TakeLockEffect(View(), r, t);
      ReuseOrWait(r, t);
    }

    method ReuseOrWait(r: nat, t: Transport)
      requires Enabled(View(), TakeLock(r, t))
      modifies this`runs, this`transports
      ensures View() == Apply(old(View()), TakeLock(r, t))
    {
      if t in transports {
        var shared := transports[t];
        transports := transports[t := shared.(refcount := shared.refcount + 1)];
        runs := runs[r := runs[r].(phase := Claimed(Claim(t, shared.conn, runs[r].port)))];
      } else {
        runs := runs[r := runs[r].(phase := Handshaking(t))];
      }
    }

    /** The new connection is registered with one holder, and clobbers no other. */
    method HandshakeSucceeds(r: nat)
      requires Valid() && Enabled(View(), HandshakeDone(r))
      modifies this`runs, this`transports, this`dialled
      ensures View() == Apply(old(View()), HandshakeDone(r))
      ensures Valid() && Registers(old(View()), View(), r, old(runs[r].phase.transport))
    {
      HandshakeEffect(View(), r);
      Register(r);
    }

    method Register(r: nat)
      requires Enabled(View(), HandshakeDone(r))
      modifies this`runs, this`transports, this`dialled
      ensures View() == Apply(old(View()), HandshakeDone(r))
    {
      var t, conn := runs[r].phase.transport, |dialled|;
      dialled := dialled + [t];
      transports := transports[t := Shared(conn, 1)];
      runs := runs[r := runs[r].(phase := Claimed(Claim(t, conn, runs[r].port)))];
    }

    /** A failed connect claims nothing, and marks the machine's entry if there is one. */
    method ConnectGivesUp(r: nat)
      requires Valid() && Enabled(View(), ConnectFails(r))
      modifies this`runs, this`state
      ensures View() == Apply(old(View()), ConnectFails(r))
      ensures Valid() && GivesUp(old(View()), View(), r, old(runs[r].machine))
    {
      FailureEffect(View(), r);
      var m := runs[r].machine;
      if m in state {
        state := state[m := state[m].(link := Error)];
      }
      runs := runs[r := runs[r].(phase := Failed)];
    }

    /**
     * The claim goes to the machine's entry; if that is gone, it is given back; a failure
     * leaves no claim and every count as it was.
     */
    method ConnectLands(r: nat)
      requires Valid() && Enabled(View(), Land(r))
      modifies this
      ensures View() == Apply(old(View()), Land(r))
      ensures Valid() && Outcome(old(View()), View(), r)
    {
      LandEffect(View(), r);
      Deliver(r);
    }

    method Deliver(r: nat)
      requires Enabled(View(), Land(r))
      modifies this
      ensures View() == Apply(old(View()), Land(r))
    {
      var m, phase := runs[r].machine, runs[r].phase;
      if m !in state {
        // Stopped while the connect was in flight: hand the claim back.
        if phase.Claimed? && phase.claim.transport in transports {
          Unclaim(phase.claim.transport);
        }
        ClearGuard(r);
      } else if phase.Claimed? {
        state := state[m := state[m].(link := Connected, claim := Some(phase.claim), backoff := BACKOFF_BASE)];
        runs := runs[r := runs[r].(phase := Landed)];
      } else {
        state := state[m := state[m].(link := Error)];
        ClearGuard(r);
      }
    }

    method ClearGuard(r: nat)
      requires r in runs
      modifies this`runs, this`connecting, this`reserved
      ensures View() == EndRun(old(View()), r)
    {
      connecting := connecting - {runs[r].machine};
      reserved := reserved - {runs[r].port};
      runs := runs - {r};
    }

    /** A connect that landed ends: its guard and its port are free again. */
    method ConnectEnds(r: nat)
      requires Valid() && Enabled(View(), Finish(r))
      modifies this`runs, this`connecting, this`reserved
      ensures View() == Apply(old(View()), Finish(r))
      ensures Valid() && Over(old(View()), View(), r)
    {
      FinishEffect(View(), r);
      ClearGuard(r);
    }

    /**
     * Everything is released and the guard cleared.  If no connect is in flight, no
     * connection stays open; otherwise the guard no longer covers it.  `order` is the
     * order in which the entries are listed.
     */
    method StopAll(order: seq<Machine>)
      requires Valid() && Enabled(View(), Stop(order))
      modifies this
      ensures View() == Apply(old(View()), Stop(order))
      ensures Inv(View()) && (Valid() <==> old(runs) == map[]) && Stopped(old(View()), View())
    {
      StopEffect(View(), order);
      Clear(order);
    }

    method Clear(order: seq<Machine>)
      modifies this
      ensures View() == ReleaseAll(old(View()), order).(connecting := {}, queue := [], probe := None)
    {
      ReleaseEach(order);
      probe := None;  // the loop task, and its probe with it, is cancelled
      connecting := {};
      queue := [];
    }

    method ReleaseEach(order: seq<Machine>)
      modifies this`state, this`transports, this`closed
      ensures View() == ReleaseAll(old(View()), order)
    {
      ghost var w := View();
      var i := 0;
      while i < |order|
        invariant 0 <= i <= |order|
        invariant ReleaseAll(View(), order[i..]) == ReleaseAll(w, order)
      {
        Pop(order[i]);
        assert order[i..][1..] == order[i + 1..];
        i := i + 1;
      }
    }
  }
}
