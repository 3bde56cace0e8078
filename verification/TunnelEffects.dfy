/** What each step of the tunnel protocol means for the machine, the count and the connections. */
module TunnelEffects {
  import opened TunnelProtocol
  import opened TunnelRuns
  import opened TunnelSafety
  import opened Wrappers

  // A world between two steps, in which the guard covers every connect in flight.
  ghost predicate Good(w: World)
  {
    Inv(w) && Guarded(w)
  }

  // A step keeps a world good, unless it is a stop that finds a connect in flight.
  lemma {:induction false} StaysGood(w: World, e: Event)
    requires Good(w) && Enabled(w, e) && (e.Stop? ==> w.runs == map[])
    ensures Good(Apply(w, e))
  {
    GuardStep(w, e);
    StepKeeps(w, e);
  }

  /******* Giving a claim back *******/

  // Someone holds the transport: a machine, or a connect that has not landed.
  ghost predicate Held(w: World, t: Transport)
  {
    |Claimants(w.state, t)| + |Arriving(w.runs, t)| > 0
  }

  ghost predicate SameShared(w: World, w': World, t: Transport)
  {
    (t in w.transports <==> t in w'.transports) && (t in w.transports ==> w'.transports[t] == w.transports[t])
  }

  ghost predicate SameRegistry(w: World, w': World)
  {
    w'.transports == w.transports && w'.closed == w.closed
  }

  // One holder of the claim's transport is gone.  Its connection is closed exactly if
  // nobody else holds it; the other transports are not touched.
  ghost predicate GivesBack(w: World, w': World, c: Claim)
  {
    var t := c.transport;
    && t in w.transports && w.transports[t].conn == c.conn
    && (t in w'.transports <==> Held(w', t))
    && (t in w'.transports ==> w'.transports[t] == w.transports[t].(refcount := w.transports[t].refcount - 1))
    && w'.closed == w.closed + (if Held(w', t) then {} else {c.conn})
    && forall u :: u != t ==> SameShared(w, w', u)
  }

  // What happens to a claim that a machine may have had.
  ghost predicate GivesBackIfAny(w: World, w': World, m: Machine)
  {
    if Claims(w.state, m) then GivesBack(w, w', w.state[m].claim.value) else SameRegistry(w, w')
  }

  lemma {:induction false} UnclaimGivesBack(w: World, w': World, c: Claim)
    requires c.transport in w.transports && w.transports[c.transport].conn == c.conn
    requires w'.transports == Unclaim(w, c.transport).transports && w'.closed == Unclaim(w, c.transport).closed
    requires Counted(w'.state, w'.runs, w'.transports)
    ensures GivesBack(w, w', c)
  {
    assert CountedAt(w'.state, w'.runs, w'.transports, c.transport);
  }

  /**
   * Releasing a machine removes its entry and gives back the claim it had: the
   * connection is closed exactly if no other machine and no connect holds it.
   */
  lemma {:induction false} ReleaseEffect(w: World, m: Machine)
    requires Inv(w)
    ensures var w' := Release(w, m); Inv(w') && w'.state == w.state - {m} && GivesBackIfAny(w, w', m)
    ensures var w' := Release(w, m); w' == w.(state := w'.state, transports := w'.transports, closed := w'.closed)
    ensures Guarded(w) ==> Guarded(Release(w, m))
  {
    var w' := Release(w, m);
    ReleaseKeeps(w, m);
    ReleaseFrame(w, m);
    if Claims(w.state, m) {
      ClaimIsRegistered(w, m);
      UnclaimGivesBack(w, w', w.state[m].claim.value);
    }
  }

  /**
   * Whatever came before, leaks included: the last counted holder closes the registered
   * connection, and a machine whose transport is not registered closes its own.
   */
  lemma {:induction false} ReleaseAnyway(w: World, m: Machine)
    requires Claims(w.state, m)
    ensures var w', c := Release(w, m), w.state[m].claim.value;
      var counted := c.transport in w.transports && w.transports[c.transport].refcount > 1;
      && (forall u :: u != c.transport ==> SameShared(w, w', u))
      && (c.transport in w'.transports <==> counted)
      && (counted ==>
            && w'.transports[c.transport].refcount == w.transports[c.transport].refcount - 1
            && w'.transports[c.transport].conn == w.transports[c.transport].conn)
      && w'.closed == w.closed + (if counted then {}
                                  else if c.transport in w.transports then {w.transports[c.transport].conn}
                                  else {c.conn})
  {
  }

  /******* Starting a connect *******/

  ghost predicate SameEntriesBut(w: World, w': World, m: Machine)
  {
    forall n :: n != m ==> (n in w.state <==> n in w'.state) && (n in w.state ==> w'.state[n] == w.state[n])
  }

  // The machine has a new entry, which claims nothing.
  ghost predicate FreshEntry(w: World, m: Machine, backoff: nat)
  {
    m in w.state && w.state[m].link == Connecting && w.state[m].claim == None && w.state[m].backoff == backoff
  }

  // Nothing was started: the machine is guarded, or every port is taken.
  ghost predicate NotStarted(w: World, w': World, m: Machine, live: set<Port>)
  {
    && (m in w.connecting || forall p :: 9000 <= p < 10000 ==> p in w.reserved || p in live)
    && w'.runs == w.runs && w'.reserved == w.reserved
  }

  ghost predicate OneMoreRun(runs: Runs, runs': Runs, m: Machine, p: Port)
  {
    exists r: nat :: r !in runs && runs' == runs[r := Run(m, p, Opening)]
  }

  // A connect was started, with a port of its own that nobody listens on: the lowest one.
  ghost predicate Started(w: World, w': World, m: Machine, live: set<Port>, p: Port)
  {
    && m !in w.connecting && 9000 <= p < 10000 && p !in w.reserved && p !in live
    && (forall q :: 9000 <= q < p ==> q in w.reserved || q in live)
    && w'.reserved == w.reserved + {p} && OneMoreRun(w.runs, w'.runs, m, p)
  }

  // A connect is on its way if a port was left; `live` are the ports listened on.
  ghost predicate StartsIfPossible(w: World, w': World, m: Machine, live: set<Port>)
  {
    m in w'.connecting && (NotStarted(w, w', m, live) || exists p :: Started(w, w', m, live, p))
  }

  lemma {:induction false} TryConnectStarts(w: World, m: Machine, foreign: set<Port>)
    requires w.nextId !in w.runs
    ensures StartsIfPossible(w, TryConnect(w, m, foreign), m, LivePorts(w.state, w.runs) + foreign)
  {
    var w', live := TryConnect(w, m, foreign), LivePorts(w.state, w.runs) + foreign;
    FirstFreeIsFree(w.reserved + live, PORT_LOW);
    if Launches(w, m, foreign) {
      var p := FreePort(w, foreign).value;
      assert w'.runs == w.runs[w.nextId := Run(m, p, Opening)];
      assert OneMoreRun(w.runs, w'.runs, m, p);
      forall q | 9000 <= q < p ensures q in w.reserved || q in live {
        assert q in w.reserved + (LivePorts(w.state, w.runs) + foreign);
      }
      assert Started(w, w', m, live, p);
    } else if m !in w.connecting {
      forall p | 9000 <= p < 10000 ensures p in w.reserved || p in live {
        assert p in w.reserved + (LivePorts(w.state, w.runs) + foreign);
      }
      assert NotStarted(w, w', m, live);
    }
  }

  // The claims that entries and connects make on a transport.
  ghost predicate SameHolders(w: World, w': World, t: Transport)
  {
    Claimants(w'.state, t) == Claimants(w.state, t) && Arriving(w'.runs, t) == Arriving(w.runs, t)
  }

  lemma {:induction false} GivesBackStill(w: World, w1: World, w2: World, c: Claim)
    requires GivesBack(w, w1, c) && SameRegistry(w1, w2) && SameHolders(w1, w2, c.transport)
    ensures GivesBack(w, w2, c)
  {
    forall u | u != c.transport ensures SameShared(w, w2, u) {
      assert SameShared(w, w1, u);
    }
  }

  // What a restart adds to the release holds nothing.
  lemma {:induction false} RestartHolders(w: World, m: Machine, backoff: nat, foreign: set<Port>, t: Transport)
    requires w.nextId !in w.runs && w.nextId + 1 !in w.runs
    ensures SameHolders(Release(w, m), Restart(w, m, backoff, foreign), t)
  {
    ReleaseFrame(w, m);
    var released, w' := Release(w, m), Restart(w, m, backoff, foreign);
    assert Claimants(w'.state, t) == Claimants(released.state, t);
    assert Arriving(w'.runs, t) == Arriving(w.runs, t);
  }

  lemma {:induction false} RestartStarts(w: World, m: Machine, backoff: nat, foreign: set<Port>)
    requires w.nextId + 1 !in w.runs
    ensures var w' := Restart(w, m, backoff, foreign);
      && FreshEntry(w', m, backoff) && SameEntriesBut(w, w', m) && SameRegistry(Release(w, m), w')
      && StartsIfPossible(w, w', m, LivePorts(w'.state, w.runs) + foreign)
  {
    ReleaseFrame(w, m);
    var before := PutFresh(Release(w, m), m, backoff);
    var w', live := TryConnect(before, m, foreign), LivePorts(before.state, before.runs) + foreign;
    TryConnectStarts(before, m, foreign);
    assert w'.state == before.state && before.runs == w.runs;
    if NotStarted(before, w', m, live) {
      assert NotStarted(w, w', m, live);
    } else {
      var p :| Started(before, w', m, live, p);
      assert Started(w, w', m, live, p);
    }
  }

  ghost predicate Restarts(w: World, w': World, m: Machine, backoff: nat, foreign: set<Port>)
  {
    && FreshEntry(w', m, backoff) && SameEntriesBut(w, w', m) && GivesBackIfAny(w, w', m)
    && StartsIfPossible(w, w', m, LivePorts(w'.state, w.runs) + foreign)
    && w'.connecting == w.connecting + {m} && w'.probe == w.probe && w'.dialled == w.dialled
  }

  lemma {:induction false} RestartFrame(w: World, m: Machine, backoff: nat, foreign: set<Port>)
    ensures var w' := Restart(w, m, backoff, foreign);
      && w'.connecting == w.connecting + {m} && w'.probe == w.probe && w'.dialled == w.dialled
      && w'.queue == w.queue && w'.spawned == w.spawned && w'.sleeping == w.sleeping
  {
    ReleaseFrame(w, m);
  }

  /**
   * A restart gives the machine's claim back, puts a new entry that claims nothing, and
   * starts a connect on a free port of its own unless the machine is guarded or no port
   * is left.  The other machines are not touched.
   */
  lemma {:induction false} RestartEffect(w: World, m: Machine, backoff: nat, foreign: set<Port>)
    requires Good(w) && BACKOFF_BASE <= backoff <= BACKOFF_MAX
    ensures var w' := Restart(w, m, backoff, foreign); Good(w') && Restarts(w, w', m, backoff, foreign)
  {
    RestartKeeps(w, m, backoff, foreign);
    RestartGuard(w, m, backoff, foreign);
    RestartStarts(w, m, backoff, foreign);
    RestartFrame(w, m, backoff, foreign);
    ReleaseEffect(w, m);
    if Claims(w.state, m) {
      var c := w.state[m].claim.value;
      RestartHolders(w, m, backoff, foreign, c.transport);
      GivesBackStill(w, Release(w, m), Restart(w, m, backoff, foreign), c);
    }
  }

  /******* A connect in flight *******/

  // Only the phase of connect `r` changes.
  ghost predicate SameRunsBut(runs: Runs, runs': Runs, r: nat)
  {
    && r in runs && r in runs' && runs'.Keys == runs.Keys
    && runs'[r].machine == runs[r].machine && runs'[r].port == runs[r].port
    && forall q :: q in runs && q != r ==> runs'[q] == runs[q]
  }

  // Under the lock a live connection is reused with one more holder, and no other is
  // opened; without one, nobody else is at the transport until the handshake is over.
  ghost predicate TakesLock(w: World, w': World, r: nat, t: Transport)
  {
    && SameRunsBut(w.runs, w'.runs, r) && w' == w.(runs := w'.runs, transports := w'.transports)
    && (if t in w.transports then
          && w'.transports == w.transports[t := w.transports[t].(refcount := w.transports[t].refcount + 1)]
          && w'.runs[r].phase == Claimed(Claim(t, w.transports[t].conn, w'.runs[r].port))
          && w.transports[t].conn !in w.closed
        else
          && w'.transports == w.transports && w'.runs[r].phase == Handshaking(t)
          && forall q :: q in w'.runs && w'.runs[q].phase == Handshaking(t) ==> q == r)
  }

  /** A connect that takes a transport's lock. */
  lemma {:induction false} TakeLockEffect(w: World, r: nat, t: Transport)
    requires Good(w) && Enabled(w, TakeLock(r, t))
    ensures Good(Apply(w, TakeLock(r, t))) && TakesLock(w, Apply(w, TakeLock(r, t)), r, t)
  {
    StaysGood(w, TakeLock(r, t));
    TakeLockFrame(w, r, t);
  }

  lemma {:induction false} TakeLockFrame(w: World, r: nat, t: Transport)
    requires Accounted(w.transports, w.dialled, w.closed) && Enabled(w, TakeLock(r, t))
    ensures TakesLock(w, Apply(w, TakeLock(r, t)), r, t)
  {
  }

  // The connection it opened is registered, with one holder, and clobbers none.
  ghost predicate Registers(w: World, w': World, r: nat, t: Transport)
  {
    var conn := |w.dialled|;
    && SameRunsBut(w.runs, w'.runs, r) && w'.dialled == w.dialled + [t]
    && w' == w.(runs := w'.runs, transports := w'.transports, dialled := w'.dialled)
    && t !in w.transports && conn !in w.closed && w'.transports == w.transports[t := Shared(conn, 1)]
    && w'.runs[r].phase == Claimed(Claim(t, conn, w'.runs[r].port))
  }

  /** A handshake that succeeds. */
  lemma {:induction false} HandshakeEffect(w: World, r: nat)
    requires Good(w) && Enabled(w, HandshakeDone(r))
    ensures Good(Apply(w, HandshakeDone(r))) && Registers(w, Apply(w, HandshakeDone(r)), r, w.runs[r].phase.transport)
  {
    StaysGood(w, HandshakeDone(r));
    HandshakeFrame(w, r);
  }

  lemma {:induction false} HandshakeFrame(w: World, r: nat)
    requires Accounted(w.transports, w.dialled, w.closed) && LocksHeld(w.runs, w.transports)
    requires Enabled(w, HandshakeDone(r))
    ensures Registers(w, Apply(w, HandshakeDone(r)), r, w.runs[r].phase.transport)
  {
  }

  // The machine's entry, if it has one, says so; it claims nothing, and neither does
  // the connect.
  ghost predicate GivesUp(w: World, w': World, r: nat, m: Machine)
  {
    && SameRunsBut(w.runs, w'.runs, r) && w'.runs[r].phase == Failed && SameEntriesBut(w, w', m)
    && w' == w.(runs := w'.runs, state := w'.state) && (m in w.state <==> m in w'.state)
    && (m in w'.state ==> w'.state[m] == w.state[m].(link := Error) && !Claims(w'.state, m))
  }

  /** A connect that fails claims nothing and leaves every count as it was. */
  lemma {:induction false} FailureEffect(w: World, r: nat)
    requires Good(w) && Enabled(w, ConnectFails(r))
    ensures Good(Apply(w, ConnectFails(r))) && GivesUp(w, Apply(w, ConnectFails(r)), r, w.runs[r].machine)
  {
    StaysGood(w, ConnectFails(r));
    FailureFrame(w, r);
  }

  lemma {:induction false} FailureFrame(w: World, r: nat)
    requires UnlandedClaimNothing(w.state, w.runs) && Enabled(w, ConnectFails(r))
    ensures GivesUp(w, Apply(w, ConnectFails(r)), r, w.runs[r].machine)
  {
  }

  // The connect is over: its guard and its port are free.
  ghost predicate Over(w: World, w': World, r: nat)
    requires r in w.runs
  {
    && w'.runs == w.runs - {r} && w'.connecting == w.connecting - {w.runs[r].machine}
    && w'.reserved == w.reserved - {w.runs[r].port}
  }

  // Whose entry it is, and where the connect stands, is all that changes.
  lemma {:induction false} LandFrame(w: World, r: nat)
    requires Enabled(w, Land(r))
    ensures var w', run := Apply(w, Land(r)), w.runs[r];
      && SameEntriesBut(w, w', run.machine) && (run.machine in w'.state <==> run.machine in w.state)
      && (run.machine in w.state ==> SameRegistry(w, w'))
      && (run.machine !in w.state || run.phase == Failed ==> Over(w, w', r))
      && (run.machine in w.state && run.phase == Failed ==>
            w'.state[run.machine] == w.state[run.machine].(link := Error))
      && (run.machine in w.state && run.phase.Claimed? ==>
            && SameRunsBut(w.runs, w'.runs, r) && w'.runs[r].phase == Landed
            && w'.state[run.machine].id == w.state[run.machine].id
            && w'.connecting == w.connecting && w'.reserved == w.reserved)
  {
    assert w.runs[r].machine !in w.state || w.runs[r].phase == Failed ==> Apply(w, Land(r)).runs == w.runs - {r};
  }

  lemma {:induction false} LandOnEntry(w: World, r: nat)
    requires Good(w) && Enabled(w, Land(r)) && w.runs[r].phase.Claimed? && w.runs[r].machine in w.state
    ensures var e, c := Apply(w, Land(r)).state[w.runs[r].machine], w.runs[r].phase.claim;
      e.claim == Some(c) && e.link == Connected && c.conn !in w.closed && e.backoff == 1
  {
    assert CountedAt(w.state, w.runs, w.transports, w.runs[r].phase.claim.transport);
    assert r in Arriving(w.runs, w.runs[r].phase.claim.transport);
  }

  lemma {:induction false} LandGivesBack(w: World, r: nat)
    requires Good(w) && Enabled(w, Land(r)) && w.runs[r].phase.Claimed? && w.runs[r].machine !in w.state
    requires Inv(Apply(w, Land(r)))
    ensures GivesBack(w, Apply(w, Land(r)), w.runs[r].phase.claim)
  {
    assert CountedAt(w.state, w.runs, w.transports, w.runs[r].phase.claim.transport);
    assert r in Arriving(w.runs, w.runs[r].phase.claim.transport);
    UnclaimGivesBack(w, Apply(w, Land(r)), w.runs[r].phase.claim);
  }

  /**
   * The outcome of a connect.  A claim goes to the machine's entry; if the entry is
   * gone, it is given back; a failure leaves no claim and every count as it was.
   */
  lemma {:induction false} LandEffect(w: World, r: nat)
    requires Good(w) && Enabled(w, Land(r))
    ensures Good(Apply(w, Land(r))) && Outcome(w, Apply(w, Land(r)), r)
  {
    var run := w.runs[r];
    StaysGood(w, Land(r));
    LandFrame(w, r);
    if run.phase.Claimed? && run.machine in w.state {
      LandOnEntry(w, r);
    } else if run.phase.Claimed? {
      LandGivesBack(w, r);
    } else {
      FailedClaimsNothing(w, r);
    }
  }

  lemma {:induction false} FailedClaimsNothing(w: World, r: nat)
    requires Good(w) && r in w.runs && w.runs[r].phase == Failed
    ensures !Claims(Apply(w, Land(r)).state, w.runs[r].machine) && SameRegistry(w, Apply(w, Land(r)))
  {
  }

  ghost predicate Outcome(w: World, w': World, r: nat)
    requires r in w.runs
  {
    var run, m := w.runs[r], w.runs[r].machine;
    && SameEntriesBut(w, w', m) && (m in w'.state <==> m in w.state)
    && (if !run.phase.Claimed? then
          && SameRegistry(w, w') && Over(w, w', r) && !Claims(w'.state, m)
          && (m in w.state ==> w'.state[m] == w.state[m].(link := Error))
        else if m in w.state then
          && SameRegistry(w, w') && Lands(w', m, run.phase.claim) && w'.state[m].id == w.state[m].id
          && SameRunsBut(w.runs, w'.runs, r) && w'.runs[r].phase == Landed
          && w'.connecting == w.connecting && w'.reserved == w.reserved
        else
          GivesBack(w, w', run.phase.claim) && Over(w, w', r))
  }

  // The machine is connected over that claim, whose connection is open, and waits no
  // longer than at first when it is lost.
  ghost predicate Lands(w: World, m: Machine, c: Claim)
  {
    && m in w.state && w.state[m].claim == Some(c) && w.state[m].link == Connected && c.conn !in w.closed
    && w.state[m].backoff == 1
  }

  /** The end of a landed connect frees its guard and its port, and nothing else. */
  lemma {:induction false} FinishEffect(w: World, r: nat)
    requires Good(w) && Enabled(w, Finish(r))
    ensures var w' := Apply(w, Finish(r));
      && Good(w') && Over(w, w', r)
      && w' == w.(runs := w'.runs, connecting := w'.connecting, reserved := w'.reserved)
  {
    StaysGood(w, Finish(r));
  }

  /******* Probes and retries *******/

  // The world after a probe: only the link of the entry it was started for changes.
  ghost predicate Probed(w: World, w': World, m: Machine, id: nat, ok: bool)
  {
    && SameRegistry(w, w') && SameEntriesBut(w, w', m) && w'.state.Keys == w.state.Keys
    && (m in w.state && w.state[m].id != id ==> w'.state[m] == w.state[m])
    && (m in w.state && w.state[m].id == id ==> w'.state[m] == w.state[m].(link := if ok then Connected else Error))
  }

  lemma {:induction false} ProbeFrame(w: World, ok: bool)
    requires Enabled(w, ProbeDone(ok))
    ensures Probed(w, Apply(w, ProbeDone(ok)), w.probe.value.0, w.probe.value.1, ok)
  {
  }

  /**
   * A probe's result reaches the entry it was started for, and only its link; a machine
   * that has another entry by now keeps it as it is.
   */
  lemma {:induction false} ProbeEffect(w: World, ok: bool)
    requires Good(w) && Enabled(w, ProbeDone(ok))
    ensures Good(Apply(w, ProbeDone(ok)))
    ensures Probed(w, Apply(w, ProbeDone(ok)), w.probe.value.0, w.probe.value.1, ok)
  {
    StaysGood(w, ProbeDone(ok));
    ProbeFrame(w, ok);
  }

  // Twice the entry's backoff, or the cap if that is less.
  ghost predicate BackedOff(e: Entry, b: nat)
  {
    2 <= b <= 60 && b <= 2 * e.backoff && (b == 60 || b == 2 * e.backoff)
  }

  /**
   * A retry that begins will wait for twice the machine's backoff, capped, and never
   * for less than two seconds or more than sixty; for a machine that is gone it ends.
   */
  lemma {:induction false} RetryEffect(w: World, m: Machine)
    requires Good(w) && Enabled(w, RetryStart(m))
    ensures var w' := Apply(w, RetryStart(m));
      && Good(w') && w' == w.(spawned := w.spawned - multiset{m}, sleeping := w'.sleeping)
      && (m !in w.state ==> w'.sleeping == w.sleeping)
      && (m in w.state ==> exists b :: BackedOff(w.state[m], b) && w'.sleeping == w.sleeping + multiset{(m, b)})
  {
    StaysGood(w, RetryStart(m));
    if m in w.state {
      assert BackedOff(w.state[m], Min(w.state[m].backoff * 2, BACKOFF_MAX));
    }
  }

  // Taking a command off the queue, or a retry off its sleep, changes nothing else.
  lemma {:induction false} PopQueue(w: World)
    requires Good(w) && w.queue != []
    ensures Good(w.(queue := w.queue[1..]))
  {
  }

  lemma {:induction false} WakeIsGood(w: World, m: Machine, backoff: nat)
    requires Good(w) && (m, backoff) in w.sleeping
    ensures Good(w.(sleeping := w.sleeping - multiset{(m, backoff)})) && BACKOFF_BASE <= backoff <= BACKOFF_MAX
  {
    FewerSleep(w.sleeping, (m, backoff));
  }

  lemma {:induction false} FewerSleep(sleeping: multiset<(Machine, nat)>, gone: (Machine, nat))
    requires BackoffsBounded(sleeping)
    ensures BackoffsBounded(sleeping - multiset{gone})
  {
    forall s | s in sleeping - multiset{gone} ensures 2 * BACKOFF_BASE <= s.1 <= BACKOFF_MAX {
      assert s in sleeping;
    }
  }

  /** A retry that wakes restarts its machine, whatever happened while it slept. */
  lemma {:induction false} WakeEffect(w: World, m: Machine, backoff: nat, foreign: set<Port>)
    requires Good(w) && Enabled(w, RetryWake(m, backoff, foreign))
    ensures var w' := Apply(w, RetryWake(m, backoff, foreign));
      && Good(w') && Restarts(w, w', m, backoff, foreign) && w'.queue == w.queue
      && w'.spawned == w.spawned && w'.sleeping == w.sleeping - multiset{(m, backoff)}
  {
    var awake := w.(sleeping := w.sleeping - multiset{(m, backoff)});
    WakeIsGood(w, m, backoff);
    RestartEffect(awake, m, backoff, foreign);
    RestartFrame(awake, m, backoff, foreign);
    RestartsFrom(awake, w, Restart(awake, m, backoff, foreign), m, backoff, foreign);
  }

  // A restart does not depend on who sleeps.
  lemma {:induction false} RestartsFrom(awake: World, w: World, w': World, m: Machine, backoff: nat, foreign: set<Port>)
    requires awake == w.(sleeping := awake.sleeping) && Restarts(awake, w', m, backoff, foreign)
    ensures Restarts(w, w', m, backoff, foreign)
  {
    var live := LivePorts(w'.state, w.runs) + foreign;
    if NotStarted(awake, w', m, live) {
      assert NotStarted(w, w', m, live);
    } else {
      var p :| Started(awake, w', m, live, p);
      assert Started(w, w', m, live, p);
    }
    if Claims(w.state, m) {
      var c := w.state[m].claim.value;
      forall u | u != c.transport ensures SameShared(w, w', u) {
        assert SameShared(awake, w', u);
      }
    }
  }

  // A retry that the tick spawns goes to sleep for twice the machine's backoff.
  lemma {:induction false} RetrySleeps(w: World, m: Machine) returns (b: nat, asleep: World)
    requires Good(w) && m in w.state && m !in w.connecting
    ensures BackedOff(w.state[m], b)
    ensures Enabled(w, SpawnRetry(m)) && Enabled(Apply(w, SpawnRetry(m)), RetryStart(m))
    ensures asleep == Apply(Apply(w, SpawnRetry(m)), RetryStart(m))
    ensures Good(asleep) && asleep == w.(sleeping := w.sleeping + multiset{(m, b)})
  {
    var spawned := Apply(w, SpawnRetry(m));
    StaysGood(w, SpawnRetry(m));
    RetryEffect(spawned, m);
    asleep := Apply(spawned, RetryStart(m));
    b :| BackedOff(w.state[m], b) && asleep.sleeping == w.sleeping + multiset{(m, b)};
    assert asleep.spawned == w.spawned;
  }

  /**
   * A retry that the tick spawns gets to its sleep and from there to its restart, with
   * the backoff doubled, if nothing comes between; it leaves no other trace.
   */
  lemma {:induction false} RetryRound(w: World, m: Machine, foreign: set<Port>) returns (b: nat, w': World)
    requires Good(w) && m in w.state && m !in w.connecting
    ensures BackedOff(w.state[m], b)
    ensures Enabled(w, SpawnRetry(m)) && Enabled(Apply(w, SpawnRetry(m)), RetryStart(m))
    ensures var asleep := Apply(Apply(w, SpawnRetry(m)), RetryStart(m));
      Enabled(asleep, RetryWake(m, b, foreign)) && w' == Apply(asleep, RetryWake(m, b, foreign))
    ensures Good(w') && Restarts(w, w', m, b, foreign)
    ensures w'.queue == w.queue && w'.spawned == w.spawned && w'.sleeping == w.sleeping
  {
    var asleep;
    b, asleep := RetrySleeps(w, m);
    WakeEffect(asleep, m, b, foreign);
    w' := Apply(asleep, RetryWake(m, b, foreign));
    RestartsFrom(asleep, w, w', m, b, foreign);
  }

  /** A probe's result reaches the entry for which the tick began it. */
  lemma {:induction false} ProbeRound(w: World, m: Machine, id: nat, ok: bool)
    requires Good(w) && Enabled(w, ProbeStart(m, id))
    ensures var probing := Apply(w, ProbeStart(m, id));
      && Good(probing) && Enabled(probing, ProbeDone(ok))
      && Probed(w, Apply(probing, ProbeDone(ok)), m, id, ok) && Apply(probing, ProbeDone(ok)).probe == None
  {
    StaysGood(w, ProbeStart(m, id));
    ProbeFrame(Apply(w, ProbeStart(m, id)), ok);
  }

  // The machine has an entry: the one it had, or a new one.
  ghost predicate StartedEntry(w: World, w': World, m: Machine)
  {
    if m in w.state then m in w'.state && w'.state[m] == w.state[m] else FreshEntry(w', m, BACKOFF_BASE)
  }

  // START gives the machine an entry if it has none and asks for a reconnect; STOP
  // releases the machine; RECONNECT restarts it.
  ghost predicate Obeys(w: World, w': World, command: Command, foreign: set<Port>)
  {
    var m := command.machine;
    && SameEntriesBut(w, w', m)
    && match command
       case StartTunnel(_) =>
         && StartedEntry(w, w', m) && w'.queue == w.queue + [Reconnect(m)]
         && w' == w.(state := w'.state, nextId := w'.nextId, queue := w'.queue)
       case StopTunnel(_) =>
         && m !in w'.state && GivesBackIfAny(w, w', m)
         && w' == w.(state := w'.state, transports := w'.transports, closed := w'.closed)
       case Reconnect(_) =>
         Restarts(w, w', m, BACKOFF_BASE, foreign) && w'.queue == w.queue
  }

  lemma {:induction false} CommandStaysGood(w: World, command: Command, foreign: set<Port>)
    requires Good(w)
    ensures Good(HandleCommand(w, command, foreign))
  {
    CommandKeeps(w, command, foreign);
    CommandGuard(w, command, foreign);
  }

  lemma {:induction false} StopObeys(w: World, m: Machine, foreign: set<Port>)
    requires Good(w)
    ensures Obeys(w, Release(w, m), StopTunnel(m), foreign)
  {
    ReleaseEffect(w, m);
    ReleaseFrame(w, m);
  }

  lemma {:induction false} ReconnectObeys(w: World, m: Machine, foreign: set<Port>)
    requires Good(w)
    ensures Obeys(w, Restart(w, m, BACKOFF_BASE, foreign), Reconnect(m), foreign)
  {
    RestartEffect(w, m, BACKOFF_BASE, foreign);
    ReleaseFrame(w, m);
  }

  /** What a command does; the other machines are not touched. */
  lemma {:induction false} CommandEffect(w: World, command: Command, foreign: set<Port>)
    requires Good(w)
    ensures Good(HandleCommand(w, command, foreign)) && Obeys(w, HandleCommand(w, command, foreign), command, foreign)
  {
    CommandStaysGood(w, command, foreign);
    match command
    case StartTunnel(_) =>
    case StopTunnel(m) => StopObeys(w, m, foreign);
    case Reconnect(m) => ReconnectObeys(w, m, foreign);
  }

  /** The loop takes the first command off the queue and carries it out. */
  lemma {:induction false} DrainEffect(w: World, foreign: set<Port>)
    requires Good(w) && w.queue != []
    ensures var w' := Apply(w, Drain(foreign));
      Good(w') && Obeys(w.(queue := w.queue[1..]), w', w.queue[0], foreign)
  {
    PopQueue(w);
    CommandEffect(w.(queue := w.queue[1..]), w.queue[0], foreign);
  }

  // Nothing is left, and, if no connect is in flight, no connection is open.
  ghost predicate Stopped(w: World, w': World)
  {
    && w'.state == map[] && w'.connecting == {} && w'.queue == [] && w'.probe == None
    && w'.runs == w.runs && w'.reserved == w.reserved && w'.spawned == w.spawned && w'.sleeping == w.sleeping
    && (w.runs == map[] ==> w'.transports == map[] && forall c: Conn :: c < |w'.dialled| ==> c in w'.closed)
  }

  /** A stop releases everything, and keeps the world good exactly if nothing is in flight. */
  lemma {:induction false} StopEffect(w: World, order: seq<Machine>)
    requires Good(w) && Enabled(w, Stop(order))
    ensures var w' := Apply(w, Stop(order)); Inv(w') && (Good(w') <==> w.runs == map[]) && Stopped(w, w')
  {
    var w' := Apply(w, Stop(order));
    StopKeeps(w, order);
    StopGuard(w, order);
    StopEmpties(w, order);
    if w.runs == map[] {
      CalmStopClosesEverything(w, order);
    }
  }

  lemma {:induction false} StopEmpties(w: World, order: seq<Machine>)
    requires Good(w) && Enabled(w, Stop(order))
    ensures var w' := Apply(w, Stop(order));
      && w'.state == map[] && w'.runs == w.runs && w'.reserved == w.reserved
      && w'.spawned == w.spawned && w'.sleeping == w.sleeping
  {
    ReleaseAllFrame(w, order);
    var _ := StoppedWorld(w, order);
  }
}
