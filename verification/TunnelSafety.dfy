/**
 Every step of the tunnel protocol keeps its invariant, except the one step that
 starts a second connect for a machine whose guard was cleared under it.
 */
module TunnelSafety {
  import opened TunnelProtocol
  import opened Wrappers

  /******* Releasing a claim *******/

  lemma {:induction false} ClaimIsRegistered(w: World, m: Machine)
    requires Counted(w.state, w.runs, w.transports) && Claims(w.state, m)
    ensures w.state[m].claim.value.transport in w.transports
  {
    var t := w.state[m].claim.value.transport;
    assert CountedAt(w.state, w.runs, w.transports, t);
    assert m in Claimants(w.state, t);
  }

  lemma {:induction false} UnclaimAccounts(w: World, t: Transport)
    requires Accounted(w.transports, w.dialled, w.closed) && t in w.transports
    ensures var w' := Unclaim(w, t); Accounted(w'.transports, w'.dialled, w'.closed)
  {
  }

  lemma {:induction false} RemovedClaim(state: State, m: Machine, t: Transport)
    ensures |Claimants(state - {m}, t)| == |Claimants(state, t)| - if m in Claimants(state, t) then 1 else 0
  {
    assert Claimants(state - {m}, t) == Claimants(state, t) - {m};
  }

  lemma {:induction false} ReleaseCounts(w: World, m: Machine, t: Transport)
    requires Counted(w.state, w.runs, w.transports)
    ensures CountedAt(w.state - {m}, w.runs, Release(w, m).transports, t)
  {
    assert CountedAt(w.state, w.runs, w.transports, t);
    RemovedClaim(w.state, m, t);
    if Claims(w.state, m) {
      ClaimIsRegistered(w, m);
    }
  }

  lemma {:induction false} ReleaseAccounts(w: World, m: Machine)
    requires Counted(w.state, w.runs, w.transports) && Accounted(w.transports, w.dialled, w.closed)
    ensures var w' := Release(w, m); Accounted(w'.transports, w'.dialled, w'.closed)
  {
    if Claims(w.state, m) {
      ClaimIsRegistered(w, m);
      UnclaimAccounts(w.(state := w.state - {m}), w.state[m].claim.value.transport);
    }
  }

  lemma {:induction false} RemovedEntry(state: State, runs: Runs, probe: Option<(Machine, nat)>, nextId: nat,
                                        m: Machine)
    requires UnlandedClaimNothing(state, runs) && ForwardsDistinct(state, runs)
    requires EntriesSound(state, runs, nextId) && ProbeSound(state, probe, nextId)
    ensures UnlandedClaimNothing(state - {m}, runs) && ForwardsDistinct(state - {m}, runs)
    ensures EntriesSound(state - {m}, runs, nextId) && ProbeSound(state - {m}, probe, nextId)
  {
  }

  lemma {:induction false} ReleaseConnections(w: World, m: Machine)
    requires SameConnections(w.state, w.runs, w.transports) && LocksHeld(w.runs, w.transports)
    ensures var w' := Release(w, m);
      SameConnections(w'.state, w'.runs, w'.transports) && LocksHeld(w'.runs, w'.transports)
  {
  }

  // All that releasing a machine touches is its entry and the registry.
  lemma {:induction false} ReleaseFrame(w: World, m: Machine)
    ensures Release(w, m) ==
            w.(state := w.state - {m}, transports := Release(w, m).transports, closed := Release(w, m).closed)
  {
    assert m !in w.state ==> w.state - {m} == w.state;
  }

  lemma {:induction false} ReleaseKeeps(w: World, m: Machine)
    requires Inv(w)
    ensures Inv(Release(w, m))
  {
    ReleaseFrame(w, m);
    forall t ensures CountedAt(Release(w, m).state, w.runs, Release(w, m).transports, t) {
      ReleaseCounts(w, m, t);
    }
    ReleaseAccounts(w, m);
    ReleaseConnections(w, m);
    RemovedEntry(w.state, w.runs, w.probe, w.nextId, m);
  }

  lemma {:induction false} ReleaseAllKeeps(w: World, order: seq<Machine>)
    requires Inv(w)
    ensures Inv(ReleaseAll(w, order))
    ensures ReleaseAll(w, order).runs == w.runs
    ensures forall m :: m in ReleaseAll(w, order).state ==> m in w.state && m !in order
    decreases |order|
  {
    if order != [] {
      ReleaseKeeps(w, order[0]);
      ReleaseFrame(w, order[0]);
      ReleaseAllKeeps(Release(w, order[0]), order[1..]);
    }
  }

  /******* Starting a connect *******/

  lemma {:induction false} AddedEntry(state: State, runs: Runs, transports: Registry,
                                      probe: Option<(Machine, nat)>, nextId: nat, m: Machine, backoff: nat)
    requires SameConnections(state, runs, transports)
    requires UnlandedClaimNothing(state, runs) && ForwardsDistinct(state, runs)
    requires EntriesSound(state, runs, nextId) && ProbeSound(state, probe, nextId)
    requires m !in state && BACKOFF_BASE <= backoff <= BACKOFF_MAX
    ensures var state' := state[m := Entry(nextId, Connecting, None, backoff)];
      && SameConnections(state', runs, transports)
      && UnlandedClaimNothing(state', runs) && ForwardsDistinct(state', runs)
      && EntriesSound(state', runs, nextId + 1) && ProbeSound(state', probe, nextId + 1)
  {
  }

  // Entries that claim nothing do not count.
  lemma {:induction false} UnclaimingEntryCounts(state: State, runs: Runs, transports: Registry, m: Machine, e: Entry)
    requires Counted(state, runs, transports)
    requires e.claim == if m in state then state[m].claim else None
    ensures Counted(state[m := e], runs, transports)
  {
    var state' := state[m := e];
    forall t ensures CountedAt(state', runs, transports, t) {
      assert CountedAt(state, runs, transports, t);
      assert Claimants(state', t) == Claimants(state, t);
    }
  }

  lemma {:induction false} PutFreshKeeps(w: World, m: Machine, backoff: nat)
    requires Inv(w) && m !in w.state
    requires BACKOFF_BASE <= backoff <= BACKOFF_MAX
    ensures Inv(PutFresh(w, m, backoff))
  {
    AddedEntry(w.state, w.runs, w.transports, w.probe, w.nextId, m, backoff);
    UnclaimingEntryCounts(w.state, w.runs, w.transports, m, Entry(w.nextId, Connecting, None, backoff));
  }

  lemma {:induction false} FirstFreeIsFree(taken: set<Port>, low: int)
    ensures var p := FirstFree(taken, low);
      p.Some? ==> p.value !in taken && low <= p.value < PORT_HIGH && forall q :: low <= q < p.value ==> q in taken
    ensures FirstFree(taken, low) == None ==> forall q :: low <= q < PORT_HIGH ==> q in taken
    decreases PORT_HIGH - low
  {
    if low < PORT_HIGH && low in taken {
      FirstFreeIsFree(taken, low + 1);
    }
  }

  // A connect task is started for `m` by `TryConnect(w, m, foreign)`.
  ghost predicate Launches(w: World, m: Machine, foreign: set<Port>)
  {
    m !in w.connecting && FreePort(w, foreign).Some?
  }

  ghost predicate InFlight(w: World, m: Machine)
  {
    exists r :: r in w.runs && w.runs[r].machine == m
  }

  lemma {:induction false} LaunchPorts(w: World, m: Machine, foreign: set<Port>)
    requires PortsReserved(w.runs, w.reserved) && ForwardsDistinct(w.state, w.runs)
    requires Launches(w, m, foreign) && w.nextId !in w.runs
    ensures var w' := TryConnect(w, m, foreign);
            PortsReserved(w'.runs, w'.reserved) && ForwardsDistinct(w'.state, w'.runs)
  {
    var p := FreePort(w, foreign).value;
    var w' := TryConnect(w, m, foreign);
    FirstFreeIsFree(w.reserved + (LivePorts(w.state, w.runs) + foreign), PORT_LOW);
    forall q ensures q in w'.reserved <==> exists r :: r in w'.runs && w'.runs[r].port == q {
      if q == p {
        assert w'.runs[w.nextId].port == q;
      } else if q in w.reserved {
        var r :| r in w.runs && w.runs[r].port == q;
        assert w'.runs[r].port == q;
      }
    }
    forall n | Claims(w.state, n) ensures w.state[n].claim.value.port != p {
      assert w.state[n].claim.value.port in LivePorts(w.state, w.runs);
    }
  }

  lemma {:induction false} AddedRun(state: State, runs: Runs, transports: Registry, nextId: nat, m: Machine, p: Port)
    requires SameConnections(state, runs, transports) && LocksHeld(runs, transports)
    requires UnlandedClaimNothing(state, runs) && EntriesSound(state, runs, nextId)
    requires !Claims(state, m)
    ensures var runs' := runs[nextId := Run(m, p, Opening)];
      && SameConnections(state, runs', transports) && LocksHeld(runs', transports)
      && UnlandedClaimNothing(state, runs') && EntriesSound(state, runs', nextId + 1)
  {
  }

  lemma {:induction false} AddedRunCounts(state: State, runs: Runs, transports: Registry, nextId: nat, m: Machine,
                                          p: Port)
    requires Counted(state, runs, transports) && EntriesSound(state, runs, nextId)
    ensures Counted(state, runs[nextId := Run(m, p, Opening)], transports)
  {
    var runs' := runs[nextId := Run(m, p, Opening)];
    forall t ensures CountedAt(state, runs', transports, t) {
      assert CountedAt(state, runs, transports, t);
      assert Arriving(runs', t) == Arriving(runs, t);
    }
  }

  lemma {:induction false} AddedRunOverlaps(runs: Runs, id: nat, m: Machine, p: Port)
    requires OneRunPerMachine(runs) && id !in runs
    ensures OneRunPerMachine(runs[id := Run(m, p, Opening)]) <==> !(exists r :: r in runs && runs[r].machine == m)
  {
    var runs' := runs[id := Run(m, p, Opening)];
    if r :| r in runs && runs[r].machine == m {
      assert runs'[r].machine == runs'[id].machine && r != id;
    }
  }

  // Exactly the overlapping start breaks the invariant.
  lemma {:induction false} TryConnectKeeps(w: World, m: Machine, foreign: set<Port>)
    requires Inv(w)
    requires !Claims(w.state, m)
    ensures Inv(TryConnect(w, m, foreign)) <==> !(Launches(w, m, foreign) && InFlight(w, m))
  {
    var w' := TryConnect(w, m, foreign);
    if Launches(w, m, foreign) {
      var p := FreePort(w, foreign).value;
      LaunchPorts(w, m, foreign);
      AddedRun(w.state, w.runs, w.transports, w.nextId, m, p);
      AddedRunCounts(w.state, w.runs, w.transports, w.nextId, m, p);
      AddedRunOverlaps(w.runs, w.nextId, m, p);
    }
  }

  /******* A connect in flight moves on *******/

  // Moving an unlanded run to another phase, ports and machines unchanged.
  lemma {:induction false} ChangedPhase(state: State, runs: Runs, reserved: set<Port>, nextId: nat, r: nat,
                                        phase: Phase)
    requires OneRunPerMachine(runs) && UnlandedClaimNothing(state, runs) && PortsReserved(runs, reserved)
    requires ForwardsDistinct(state, runs) && EntriesSound(state, runs, nextId)
    requires r in runs && runs[r].phase != Landed
    requires phase.Claimed? ==> phase.claim.port == runs[r].port
    ensures var runs' := runs[r := runs[r].(phase := phase)];
      && OneRunPerMachine(runs') && UnlandedClaimNothing(state, runs') && PortsReserved(runs', reserved)
      && ForwardsDistinct(state, runs') && EntriesSound(state, runs', nextId)
  {
    var runs' := runs[r := runs[r].(phase := phase)];
    assert runs'.Keys == runs.Keys;
    assert forall q :: q in runs ==> runs'[q].port == runs[q].port && runs'[q].machine == runs[q].machine;
  }

  lemma {:induction false} ChangedPhaseCounts(state: State, runs: Runs, transports: Registry, r: nat, phase: Phase)
    requires Counted(state, runs, transports)
    requires r in runs && !runs[r].phase.Claimed? && !phase.Claimed?
    ensures Counted(state, runs[r := runs[r].(phase := phase)], transports)
  {
    var runs' := runs[r := runs[r].(phase := phase)];
    forall t ensures CountedAt(state, runs', transports, t) {
      assert CountedAt(state, runs, transports, t);
      assert Arriving(runs', t) == Arriving(runs, t);
    }
  }

  lemma {:induction false} ArrivedRun(runs: Runs, r: nat, c: Claim, t: Transport)
    requires r in runs && !runs[r].phase.Claimed?
    ensures |Arriving(runs[r := runs[r].(phase := Claimed(c))], t)| ==
            |Arriving(runs, t)| + if t == c.transport then 1 else 0
  {
    var runs' := runs[r := runs[r].(phase := Claimed(c))];
    assert Arriving(runs', t) == if t == c.transport then Arriving(runs, t) + {r} else Arriving(runs, t);
  }

  // A run arrives at a transport, whose count goes up by one.
  lemma {:induction false} ArrivedCounts(state: State, runs: Runs, transports: Registry, r: nat, c: Claim,
                                         shared: Shared)
    requires Counted(state, runs, transports)
    requires r in runs && !runs[r].phase.Claimed?
    requires shared.refcount == 1 + if c.transport in transports then transports[c.transport].refcount else 0
    ensures Counted(state, runs[r := runs[r].(phase := Claimed(c))], transports[c.transport := shared])
  {
    var runs' := runs[r := runs[r].(phase := Claimed(c))];
    var transports' := transports[c.transport := shared];
    forall t ensures CountedAt(state, runs', transports', t) {
      assert CountedAt(state, runs, transports, t);
      ArrivedRun(runs, r, c, t);
    }
  }

  lemma {:induction false} TakeLockKeeps(w: World, r: nat, t: Transport)
    requires Inv(w) && Enabled(w, TakeLock(r, t))
    ensures Inv(Apply(w, TakeLock(r, t)))
  {
    if t in w.transports {
      var shared := w.transports[t];
      var c := Claim(t, shared.conn, w.runs[r].port);
      ChangedPhase(w.state, w.runs, w.reserved, w.nextId, r, Claimed(c));
      ArrivedCounts(w.state, w.runs, w.transports, r, c, shared.(refcount := shared.refcount + 1));
      SharedConnection(w, r, t);
    } else {
      ChangedPhase(w.state, w.runs, w.reserved, w.nextId, r, Handshaking(t));
      ChangedPhaseCounts(w.state, w.runs, w.transports, r, Handshaking(t));
    }
  }

  lemma {:induction false} SharedConnection(w: World, r: nat, t: Transport)
    requires SameConnections(w.state, w.runs, w.transports)
    requires Accounted(w.transports, w.dialled, w.closed) && LocksHeld(w.runs, w.transports)
    requires Enabled(w, TakeLock(r, t)) && t in w.transports
    ensures var w' := Apply(w, TakeLock(r, t));
      && SameConnections(w'.state, w'.runs, w'.transports)
      && Accounted(w'.transports, w'.dialled, w'.closed) && LocksHeld(w'.runs, w'.transports)
  {
  }

  lemma {:induction false} NobodyHolds(w: World, t: Transport)
    requires CountedAt(w.state, w.runs, w.transports, t) && t !in w.transports
    ensures forall m :: Claims(w.state, m) ==> w.state[m].claim.value.transport != t
    ensures forall q :: q in w.runs && w.runs[q].phase.Claimed? ==> w.runs[q].phase.claim.transport != t
  {
    assert forall m :: Claims(w.state, m) && w.state[m].claim.value.transport == t ==> m in Claimants(w.state, t);
    assert forall q ::
           q in w.runs && w.runs[q].phase.Claimed? && w.runs[q].phase.claim.transport == t ==> q in Arriving(w.runs, t);
  }

  lemma {:induction false} RegisteredConnection(w: World, r: nat)
    requires Counted(w.state, w.runs, w.transports) && SameConnections(w.state, w.runs, w.transports)
    requires Accounted(w.transports, w.dialled, w.closed) && LocksHeld(w.runs, w.transports)
    requires Enabled(w, HandshakeDone(r))
    ensures var w' := Apply(w, HandshakeDone(r));
      && SameConnections(w'.state, w'.runs, w'.transports)
      && Accounted(w'.transports, w'.dialled, w'.closed) && LocksHeld(w'.runs, w'.transports)
  {
    NobodyHolds(w, w.runs[r].phase.transport);
  }

  lemma {:induction false} HandshakeDoneKeeps(w: World, r: nat)
    requires Inv(w) && Enabled(w, HandshakeDone(r))
    ensures Inv(Apply(w, HandshakeDone(r)))
  {
    var t := w.runs[r].phase.transport;
    var c := Claim(t, |w.dialled|, w.runs[r].port);
    ChangedPhase(w.state, w.runs, w.reserved, w.nextId, r, Claimed(c));
    ArrivedCounts(w.state, w.runs, w.transports, r, c, Shared(|w.dialled|, 1));
    RegisteredConnection(w, r);
  }

  // Entries keep their claims and identities: only the link changes.
  lemma {:induction false} ChangedLink(state: State, runs: Runs, transports: Registry,
                                       probe: Option<(Machine, nat)>, nextId: nat, m: Machine, link: Link)
    requires SameConnections(state, runs, transports)
    requires UnlandedClaimNothing(state, runs) && ForwardsDistinct(state, runs)
    requires EntriesSound(state, runs, nextId) && ProbeSound(state, probe, nextId)
    requires m in state && (link == Connected ==> Claims(state, m))
    ensures var state' := state[m := state[m].(link := link)];
      && SameConnections(state', runs, transports)
      && UnlandedClaimNothing(state', runs) && ForwardsDistinct(state', runs)
      && EntriesSound(state', runs, nextId) && ProbeSound(state', probe, nextId)
  {
  }

  lemma {:induction false} SetLinkKeeps(w: World, m: Machine, link: Link)
    requires Inv(w)
    requires link == Connected && m in w.state ==> Claims(w.state, m)
    ensures Inv(SetLink(w, m, link))
  {
    if m in w.state {
      ChangedLink(w.state, w.runs, w.transports, w.probe, w.nextId, m, link);
      UnclaimingEntryCounts(w.state, w.runs, w.transports, m, w.state[m].(link := link));
    }
  }

  lemma {:induction false} ConnectFailsKeeps(w: World, r: nat)
    requires Inv(w) && Enabled(w, ConnectFails(r))
    ensures Inv(Apply(w, ConnectFails(r)))
  {
    ChangedPhase(w.state, w.runs, w.reserved, w.nextId, r, Failed);
    ChangedPhaseCounts(w.state, w.runs, w.transports, r, Failed);
    assert Inv(SetPhase(w, r, Failed));
    SetLinkKeeps(SetPhase(w, r, Failed), w.runs[r].machine, Error);
  }

  /******* A connect lands *******/

  lemma {:induction false} RemovedRun(runs: Runs, reserved: set<Port>, r: nat)
    requires PortsReserved(runs, reserved) && r in runs
    ensures PortsReserved(runs - {r}, reserved - {runs[r].port})
  {
    forall p ensures p in reserved - {runs[r].port} <==> exists q :: q in runs - {r} && runs[q].port == p {
      if p in reserved - {runs[r].port} {
        var q :| q in runs && runs[q].port == p;
        assert q in runs - {r};
      }
    }
  }

  // A run that is gone, and did not hold anything, is not missed.
  lemma {:induction false} EndRunKeeps(w: World, r: nat)
    requires Inv(w) && r in w.runs && !w.runs[r].phase.Claimed?
    ensures Inv(EndRun(w, r))
  {
    var runs' := w.runs - {r};
    forall t ensures CountedAt(w.state, runs', w.transports, t) {
      assert CountedAt(w.state, w.runs, w.transports, t);
      assert Arriving(runs', t) == Arriving(w.runs, t);
    }
    RemovedRun(w.runs, w.reserved, r);
  }

  lemma {:induction false} LandedCounts(state: State, runs: Runs, transports: Registry, r: nat, e: Entry)
    requires Counted(state, runs, transports)
    requires r in runs && runs[r].phase.Claimed? && e.claim == Some(runs[r].phase.claim)
    requires !Claims(state, runs[r].machine)
    ensures Counted(state[runs[r].machine := e], runs[r := runs[r].(phase := Landed)], transports)
  {
    var m, c := runs[r].machine, runs[r].phase.claim;
    var state', runs' := state[m := e], runs[r := runs[r].(phase := Landed)];
    forall t ensures CountedAt(state', runs', transports, t) {
      assert CountedAt(state, runs, transports, t);
      LandedHolders(state, runs, r, e, t);
    }
  }

  // The run hands its place among the holders of `t` to its machine.
  lemma {:induction false} LandedHolders(state: State, runs: Runs, r: nat, e: Entry, t: Transport)
    requires r in runs && runs[r].phase.Claimed? && e.claim == Some(runs[r].phase.claim)
    requires !Claims(state, runs[r].machine)
    ensures |Claimants(state[runs[r].machine := e], t)| + |Arriving(runs[r := runs[r].(phase := Landed)], t)| ==
            |Claimants(state, t)| + |Arriving(runs, t)|
  {
    NewClaimant(state, runs[r].machine, e, t);
    NoLongerArriving(runs, r, t);
  }

  lemma {:induction false} NewClaimant(state: State, m: Machine, e: Entry, t: Transport)
    requires !Claims(state, m) && e.claim.Some?
    ensures |Claimants(state[m := e], t)| == |Claimants(state, t)| + if t == e.claim.value.transport then 1 else 0
  {
    assert Claimants(state[m := e], t) ==
           if t == e.claim.value.transport then Claimants(state, t) + {m} else Claimants(state, t);
  }

  lemma {:induction false} NoLongerArriving(runs: Runs, r: nat, t: Transport)
    requires r in runs && runs[r].phase.Claimed?
    ensures |Arriving(runs[r := runs[r].(phase := Landed)], t)| ==
            |Arriving(runs, t)| - if t == runs[r].phase.claim.transport then 1 else 0
  {
    assert Arriving(runs[r := runs[r].(phase := Landed)], t) == Arriving(runs, t) - {r};
    assert r in Arriving(runs, t) <==> t == runs[r].phase.claim.transport;
  }

  lemma {:induction false} LandedStructure(state: State, runs: Runs, reserved: set<Port>,
                                           probe: Option<(Machine, nat)>, nextId: nat, r: nat, e: Entry)
    requires OneRunPerMachine(runs) && UnlandedClaimNothing(state, runs) && PortsReserved(runs, reserved)
    requires ForwardsDistinct(state, runs) && EntriesSound(state, runs, nextId) && ProbeSound(state, probe, nextId)
    requires r in runs && runs[r].phase.Claimed? && runs[r].machine in state
    requires e ==
             state[runs[r].machine].(link := Connected, claim := Some(runs[r].phase.claim), backoff := BACKOFF_BASE)
    ensures var state', runs' := state[runs[r].machine := e], runs[r := runs[r].(phase := Landed)];
      && OneRunPerMachine(runs') && UnlandedClaimNothing(state', runs') && PortsReserved(runs', reserved)
      && ForwardsDistinct(state', runs') && EntriesSound(state', runs', nextId) && ProbeSound(state', probe, nextId)
  {
    var runs' := runs[r := runs[r].(phase := Landed)];
    assert runs'.Keys == runs.Keys;
    assert forall q :: q in runs ==> runs'[q].port == runs[q].port && runs'[q].machine == runs[q].machine;
  }

  lemma {:induction false} LandOnEntryKeeps(w: World, r: nat)
    requires Inv(w) && r in w.runs && w.runs[r].phase.Claimed? && w.runs[r].machine in w.state
    ensures Inv(LandRun(w, r))
  {
    var m, c := w.runs[r].machine, w.runs[r].phase.claim;
    var e := w.state[m].(link := Connected, claim := Some(c), backoff := BACKOFF_BASE);
    LandedCounts(w.state, w.runs, w.transports, r, e);
    LandedStructure(w.state, w.runs, w.reserved, w.probe, w.nextId, r, e);
  }

  lemma {:induction false} DepartedCounts(w: World, r: nat)
    requires Counted(w.state, w.runs, w.transports)
    requires r in w.runs && w.runs[r].phase.Claimed?
    ensures var t := w.runs[r].phase.claim.transport;
      t in w.transports && Counted(w.state, w.runs - {r}, Unclaim(w, t).transports)
  {
    var u, runs' := w.runs[r].phase.claim.transport, w.runs - {r};
    assert CountedAt(w.state, w.runs, w.transports, u) && r in Arriving(w.runs, u);
    var transports' := Unclaim(w, u).transports;
    forall t ensures CountedAt(w.state, runs', transports', t) {
      assert CountedAt(w.state, w.runs, w.transports, t);
      DepartedRun(w.runs, r, t);
    }
  }

  lemma {:induction false} DepartedRun(runs: Runs, r: nat, t: Transport)
    requires r in runs && runs[r].phase.Claimed?
    ensures |Arriving(runs - {r}, t)| == |Arriving(runs, t)| - if t == runs[r].phase.claim.transport then 1 else 0
  {
    assert Arriving(runs - {r}, t) == Arriving(runs, t) - {r};
    assert r in Arriving(runs, t) <==> t == runs[r].phase.claim.transport;
  }

  lemma {:induction false} DepartedStructure(state: State, runs: Runs, transports: Registry, nextId: nat, r: nat,
                                             t: Transport)
    requires SameConnections(state, runs, transports) && LocksHeld(runs, transports) && OneRunPerMachine(runs)
    requires UnlandedClaimNothing(state, runs) && ForwardsDistinct(state, runs) && EntriesSound(state, runs, nextId)
    requires t in transports
    ensures var runs', lower := runs - {r}, transports[t].(refcount := transports[t].refcount - 1);
      && SameConnections(state, runs', transports - {t}) && SameConnections(state, runs', transports[t := lower])
      && LocksHeld(runs', transports - {t}) && LocksHeld(runs', transports[t := lower])
      && OneRunPerMachine(runs') && UnlandedClaimNothing(state, runs')
      && ForwardsDistinct(state, runs') && EntriesSound(state, runs', nextId)
  {
  }

  lemma {:induction false} LandRemovedKeeps(w: World, r: nat)
    requires Inv(w) && r in w.runs && w.runs[r].phase.Claimed? && w.runs[r].machine !in w.state
    ensures Inv(LandRun(w, r))
  {
    var t, w' := w.runs[r].phase.claim.transport, LandRun(w, r);
    DepartedCounts(w, r);
    UnclaimAccounts(w, t);
    DepartedStructure(w.state, w.runs, w.transports, w.nextId, r, t);
    RemovedRun(w.runs, w.reserved, r);
    assert w' == EndRun(Unclaim(w, t), r);
    assert w'.runs == w.runs - {r} && w'.reserved == w.reserved - {w.runs[r].port};
  }

  lemma {:induction false} LandKeeps(w: World, r: nat)
    requires Inv(w) && Enabled(w, Land(r))
    ensures Inv(LandRun(w, r))
  {
    if w.runs[r].phase == Failed {
      SetLinkKeeps(w, w.runs[r].machine, Error);
      EndRunKeeps(SetLink(w, w.runs[r].machine, Error), r);
    } else if w.runs[r].machine in w.state {
      LandOnEntryKeeps(w, r);
    } else {
      LandRemovedKeeps(w, r);
    }
  }

  /******* All steps *******/

  // A restart of `m` starts a connect although one is in flight.
  ghost predicate RestartOverlaps(w: World, m: Machine, backoff: nat, foreign: set<Port>)
  {
    InFlight(w, m) && Launches(PutFresh(Release(w, m), m, backoff), m, foreign)
  }

  ghost predicate Overlaps(w: World, e: Event)
    requires Enabled(w, e)
  {
    match e
    case Drain(foreign) =>
      w.queue[0].Reconnect? && RestartOverlaps(w.(queue := w.queue[1..]), w.queue[0].machine, BACKOFF_BASE, foreign)
    case RetryWake(m, backoff, foreign) =>
      RestartOverlaps(w.(sleeping := w.sleeping - multiset{(m, backoff)}), m, backoff, foreign)
    case _ => false
  }

  lemma {:induction false} RestartKeeps(w: World, m: Machine, backoff: nat, foreign: set<Port>)
    requires Inv(w) && BACKOFF_BASE <= backoff <= BACKOFF_MAX
    ensures Inv(Restart(w, m, backoff, foreign)) <==> !RestartOverlaps(w, m, backoff, foreign)
  {
    var released := Release(w, m);
    ReleaseKeeps(w, m);
    ReleaseFrame(w, m);
    PutFreshKeeps(released, m, backoff);
    TryConnectKeeps(PutFresh(released, m, backoff), m, foreign);
  }

  lemma {:induction false} CommandKeeps(w: World, command: Command, foreign: set<Port>)
    requires Inv(w)
    ensures Inv(HandleCommand(w, command, foreign)) <==>
            !(command.Reconnect? && RestartOverlaps(w, command.machine, BACKOFF_BASE, foreign))
  {
    match command
    case StartTunnel(m) =>
      if m !in w.state {
        PutFreshKeeps(w, m, BACKOFF_BASE);
      }
    case StopTunnel(m) =>
      ReleaseKeeps(w, m);
    case Reconnect(m) =>
      RestartKeeps(w, m, BACKOFF_BASE, foreign);
  }

  lemma {:induction false} ProbeDoneKeeps(w: World, ok: bool)
    requires Inv(w) && Enabled(w, ProbeDone(ok))
    ensures Inv(Apply(w, ProbeDone(ok)))
  {
    var (m, id) := w.probe.value;
    if m in w.state && w.state[m].id == id {
      SetLinkKeeps(w.(probe := None), m, if ok then Connected else Error);
    }
  }

  lemma {:induction false} StopKeeps(w: World, order: seq<Machine>)
    requires Inv(w) && Enabled(w, Stop(order))
    ensures Inv(Apply(w, Stop(order)))
  {
    ReleaseAllKeeps(w, order);
  }

  /**
   * One step of the protocol keeps the invariant exactly when it does not start a
   * second connect for a machine that has one in flight.
   */
  lemma {:induction false} StepKeeps(w: World, e: Event)
    requires Inv(w) && Enabled(w, e)
    ensures Inv(Apply(w, e)) <==> !Overlaps(w, e)
  {
    match e
    case Drain(foreign) => CommandKeeps(w.(queue := w.queue[1..]), w.queue[0], foreign);
    case ProbeDone(ok) => ProbeDoneKeeps(w, ok);
    case RetryWake(m, backoff, foreign) =>
      RestartKeeps(w.(sleeping := w.sleeping - multiset{(m, backoff)}), m, backoff, foreign);
    case TakeLock(r, t) => TakeLockKeeps(w, r, t);
    case HandshakeDone(r) => HandshakeDoneKeeps(w, r);
    case ConnectFails(r) => ConnectFailsKeeps(w, r);
    case Land(r) => LandKeeps(w, r);
    case Finish(r) => EndRunKeeps(w, r);
    case Stop(order) => StopKeeps(w, order);
    case Post(_) =>
    case ProbeStart(_, _) =>
    case SpawnRetry(_) =>
    case RetryStart(_) =>
  }
}
