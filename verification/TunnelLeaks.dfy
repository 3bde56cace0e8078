/**
 What an overlapping step costs: from there, whatever the two connects are at, a few
 more steps lead to a count that exceeds the number of holders.
 */
module TunnelLeaks {
  import opened TunnelProtocol
  import opened TunnelRuns
  import opened TunnelSafety
  import opened Wrappers

  /******* Two connects that land *******/

  // Two connects of `m`: `r` in its handshake on `t`, `q` not begun.
  ghost predicate Doubled(w: World, m: Machine, r: nat, q: nat, t: Transport)
  {
    && Counted(w.state, w.runs, w.transports)
    && m in w.state && !Claims(w.state, m) && t !in w.transports
    && r in w.runs && w.runs[r].machine == m && w.runs[r].phase == Handshaking(t)
    && q in w.runs && w.runs[q].machine == m && w.runs[q].phase == Opening
    && (forall p :: p in w.runs && w.runs[p].phase == Handshaking(t) ==> p == r)
  }

  // A transport counted once more than it is held.
  ghost predicate Overcounted(w: World, t: Transport)
  {
    t in w.transports && w.transports[t].refcount == |Claimants(w.state, t)| + |Arriving(w.runs, t)| + 1
  }

  lemma {:induction false} FirstLands(w: World, m: Machine, r: nat, q: nat, t: Transport) returns (w1: World, w2: World)
    requires Doubled(w, m, r, q, t)
    ensures Execution([w, w1, w2], [HandshakeDone(r), Land(r)])
    ensures Counted(w2.state, w2.runs, w2.transports) && t in w2.transports && LockFree(w2, t)
    ensures Claims(w2.state, m) && w2.state[m].claim.value.transport == t
    ensures q in w2.runs && w2.runs[q] == w.runs[q]
  {
    w1 := Apply(w, HandshakeDone(r));
    ArrivedCounts(w.state, w.runs, w.transports, r, w1.runs[r].phase.claim, Shared(|w.dialled|, 1));
    w2 := Apply(w1, Land(r));
    LandedCounts(w1.state, w1.runs, w1.transports, r, w2.state[m]);
  }

  lemma {:induction false} SecondLands(w: World, m: Machine, q: nat, t: Transport) returns (w1: World, w2: World)
    requires Counted(w.state, w.runs, w.transports) && t in w.transports && LockFree(w, t)
    requires Claims(w.state, m) && w.state[m].claim.value.transport == t
    requires q in w.runs && w.runs[q].machine == m && w.runs[q].phase == Opening
    ensures Execution([w, w1, w2], [TakeLock(q, t), Land(q)])
    ensures t in w2.transports
    ensures w2.transports[t].refcount == |Claimants(w2.state, t)| + |Arriving(w2.runs, t)| + 1
  {
    w1 := Apply(w, TakeLock(q, t));
    ArrivedCounts(w.state, w.runs, w.transports, q, w1.runs[q].phase.claim, w1.transports[t]);
    assert CountedAt(w1.state, w1.runs, w1.transports, t);
    w2 := Apply(w1, Land(q));
    assert Claimants(w2.state, t) == Claimants(w.state, t);
    NoLongerArriving(w1.runs, q, t);
  }

  function LandBoth(r: nat, q: nat, t: Transport): seq<Event>
  {
    [HandshakeDone(r), Land(r)] + [TakeLock(q, t), Land(q)]
  }

  lemma {:induction false} DoubledLands(w: World, m: Machine, r: nat, q: nat, t: Transport) returns (ws: seq<World>)
    requires Doubled(w, m, r, q, t)
    ensures Execution(ws, LandBoth(r, q, t)) && ws[0] == w
    ensures Overcounted(ws[4], t)
  {
    var w1, w2 := FirstLands(w, m, r, q, t);
    var w3, w4 := SecondLands(w2, m, q, t);
    ws := [w, w1, w2] + [w2, w3, w4][1..];
    Chain([w, w1, w2], [HandshakeDone(r), Land(r)], [w2, w3, w4], [TakeLock(q, t), Land(q)]);
  }

  /******* Two connects, whatever the first is at *******/

  // A connect of `m` that has not begun, in a world with exact counts.
  ghost predicate Waiting(w: World, m: Machine, q: nat)
  {
    && Counted(w.state, w.runs, w.transports) && LocksHeld(w.runs, w.transports)
    && EntriesSound(w.state, w.runs, w.nextId)
    && m in w.state && !Claims(w.state, m)
    && q in w.runs && w.runs[q].machine == m && w.runs[q].phase == Opening
  }

  // Two connects of `m`: `r`, wherever it is, and `q`, which has not begun.
  ghost predicate Twins(w: World, m: Machine, r: nat, q: nat)
  {
    Waiting(w, m, q) && r != q && r in w.runs && w.runs[r].machine == m
  }

  // A run that ends in an overcounted world.
  ghost predicate LeadsToOvercount(ws: seq<World>, es: seq<Event>)
  {
    Execution(ws, es) && exists t :: Overcounted(ws[|es|], t)
  }

  lemma {:induction false} ThenOvercount(ws: seq<World>, es: seq<Event>, ws': seq<World>, es': seq<Event>)
    requires Execution(ws, es) && LeadsToOvercount(ws', es') && ws[|es|] == ws'[0]
    ensures LeadsToOvercount(ws + ws'[1..], es + es') && (ws + ws'[1..])[0] == ws[0]
  {
    Chain(ws, es, ws', es');
    assert (ws + ws'[1..])[|es + es'|] == ws'[|es'|];
  }

  lemma {:induction false} OneStep(w: World, e: Event)
    requires Enabled(w, e)
    ensures Execution([w, Apply(w, e)], [e])
  {
    OneStepRun(w, e, Apply(w, e));
  }

  /******* By the first connect's phase *******/

  lemma {:induction false} HandshakingLeaks(w: World, m: Machine, r: nat, q: nat)
    returns (ws: seq<World>, es: seq<Event>)
    requires Twins(w, m, r, q) && w.runs[r].phase.Handshaking?
    ensures LeadsToOvercount(ws, es) && ws[0] == w
  {
    var t := w.runs[r].phase.transport;
    ws := DoubledLands(w, m, r, q, t);
    es := LandBoth(r, q, t);
    assert Overcounted(ws[|es|], t);
  }

  lemma {:induction false} ClaimedLeaks(w: World, m: Machine, r: nat, q: nat) returns (ws: seq<World>, es: seq<Event>)
    requires Twins(w, m, r, q) && w.runs[r].phase.Claimed?
    ensures LeadsToOvercount(ws, es) && ws[0] == w
  {
    var t, w1 := w.runs[r].phase.claim.transport, Apply(w, Land(r));
    assert CountedAt(w.state, w.runs, w.transports, t) && r in Arriving(w.runs, t);
    LandedCounts(w.state, w.runs, w.transports, r, w1.state[m]);
    OneStep(w, Land(r));
    var w2, w3 := SecondLands(w1, m, q, t);
    ws, es := [w, w1] + [w1, w2, w3][1..], [Land(r)] + [TakeLock(q, t), Land(q)];
    assert Overcounted([w1, w2, w3][2], t);
    ThenOvercount([w, w1], [Land(r)], [w1, w2, w3], [TakeLock(q, t), Land(q)]);
  }

  // There is always another name.
  lemma {:induction false} Another(names: set<Transport>) returns (t: Transport)
    ensures t !in names
  {
    var rest, n: nat := names, 0;
    while rest != {}
      invariant rest <= names && forall x :: x in names && x !in rest ==> |x| < n
      decreases rest
    {
      var x :| x in rest;
      rest, n := rest - {x}, if |x| < n then n else |x| + 1;
    }
    t := seq(n, _ => 'x');
  }

  lemma {:induction false} OpeningLeaks(w: World, m: Machine, r: nat, q: nat) returns (ws: seq<World>, es: seq<Event>)
    requires Twins(w, m, r, q) && w.runs[r].phase == Opening
    ensures LeadsToOvercount(ws, es) && ws[0] == w
  {
    var busy := set p | p in w.runs && w.runs[p].phase.Handshaking? :: w.runs[p].phase.transport;
    var t := Another(busy + w.transports.Keys);
    assert LockFree(w, t) by {
      forall p | p in w.runs ensures w.runs[p].phase != Handshaking(t) {
        assert w.runs[p].phase.Handshaking? ==> w.runs[p].phase.transport in busy;
      }
    }
    var w1 := Apply(w, TakeLock(r, t));
    OneStep(w, TakeLock(r, t));
    SameCounts(w, w1, r);
    var ws1, es1 := HandshakingLeaks(w1, m, r, q);
    ThenOvercount([w, w1], [TakeLock(r, t)], ws1, es1);
    ws, es := [w, w1] + ws1[1..], [TakeLock(r, t)] + es1;
  }

  // Neither an opening connect nor one in its handshake counts.
  lemma {:induction false} SameCounts(w: World, w1: World, r: nat)
    requires Counted(w.state, w.runs, w.transports) && r in w.runs && !w.runs[r].phase.Claimed?
    requires w1.state == w.state && w1.transports == w.transports
    requires w1.runs == w.runs - {r} ||
             (exists phase: Phase :: !phase.Claimed? && w1.runs == SetPhase(w, r, phase).runs)
    ensures Counted(w1.state, w1.runs, w1.transports)
  {
    forall t ensures CountedAt(w1.state, w1.runs, w1.transports, t) {
      assert CountedAt(w.state, w.runs, w.transports, t);
      assert Arriving(w1.runs, t) == Arriving(w.runs, t);
    }
  }

  // A launched connect joins the one in flight.
  lemma {:induction false} LaunchedTwin(w: World, m: Machine, r: nat, foreign: set<Port>)
    requires Counted(w.state, w.runs, w.transports) && LocksHeld(w.runs, w.transports)
    requires EntriesSound(w.state, w.runs, w.nextId)
    requires m in w.state && !Claims(w.state, m)
    requires r in w.runs && w.runs[r].machine == m && Launches(w, m, foreign)
    ensures Twins(TryConnect(w, m, foreign), m, r, w.nextId)
  {
    AddedRunCounts(w.state, w.runs, w.transports, w.nextId, m, FreePort(w, foreign).value);
  }

  /******* A first connect that only has to end *******/

  // A port that no entry claims and no connect but `r` has.
  ghost predicate OwnPort(state: State, runs: Runs, r: nat)
    requires r in runs
  {
    && PORT_LOW <= runs[r].port < PORT_HIGH
    && (forall s :: s in runs && s != r ==> runs[s].port != runs[r].port)
    && (forall n :: Claims(state, n) ==> state[n].claim.value.port != runs[r].port)
  }

  // Port `p` is left for the next connect.
  ghost predicate LeftOver(w: World, p: Port)
  {
    && PORT_LOW <= p < PORT_HIGH && p !in w.reserved
    && (forall s :: s in w.runs && w.runs[s].phase.Claimed? ==> w.runs[s].port != p)
    && (forall n :: Claims(w.state, n) ==> w.state[n].claim.value.port != p)
  }

  lemma {:induction false} LeftOverIsFree(w: World, p: Port)
    requires LeftOver(w, p)
    ensures FreePort(w, {}).Some?
  {
    var taken := w.reserved + (LivePorts(w.state, w.runs) + {});
    FirstFreeIsFree(taken, PORT_LOW);
    assert p !in taken;
  }

  lemma {:induction false} LinkedCounts(w: World, m: Machine, link: Link)
    requires Counted(w.state, w.runs, w.transports) && m in w.state
    ensures Counted(SetLink(w, m, link).state, w.runs, w.transports)
  {
    UnclaimingEntryCounts(w.state, w.runs, w.transports, m, w.state[m].(link := link));
  }

  // The end of the first connect clears the guard under the second one.
  lemma {:induction false} FirstEnds(w: World, m: Machine, r: nat, q: nat) returns (e: Event)
    requires Twins(w, m, r, q) && OwnPort(w.state, w.runs, r)
    requires w.runs[r].phase == Failed || w.runs[r].phase == Landed
    ensures Enabled(w, e) && Waiting(Apply(w, e), m, q)
    ensures m !in Apply(w, e).connecting && LeftOver(Apply(w, e), w.runs[r].port)
  {
    e := if w.runs[r].phase == Failed then Land(r) else Finish(r);
    var linked := if w.runs[r].phase == Failed then SetLink(w, m, Error) else w;
    var w' := EndRun(linked, r);
    assert Apply(w, e) == w';
    LinkedCounts(w, m, Error);
    SameCounts(linked, w', r);
    forall n | Claims(w'.state, n) ensures Claims(w.state, n) && w'.state[n].claim == w.state[n].claim {
    }
  }

  // The health tick starts the third connect.
  function Retries(m: Machine, backoff: nat): seq<Event>
  {
    [SpawnRetry(m), RetryStart(m), RetryWake(m, backoff, {})]
  }

  lemma {:induction false} RestartTwins(w: World, m: Machine, q: nat, backoff: nat, p: Port)
    requires Waiting(w, m, q) && m !in w.connecting && LeftOver(w, p) && BACKOFF_BASE <= backoff <= BACKOFF_MAX
    ensures Twins(Restart(w, m, backoff, {}), m, q, w.nextId + 1)
    ensures Restart(w, m, backoff, {}).runs[q].phase == Opening
  {
    var renewed := PutFresh(Release(w, m), m, backoff);
    assert renewed.state == w.state[m := Entry(w.nextId, Connecting, None, backoff)];
    UnclaimingEntryCounts(w.state, w.runs, w.transports, m, renewed.state[m]);
    LeftOverIsFree(renewed, p);
    LaunchedTwin(renewed, m, q, {});
  }

  lemma {:induction false} SpawnedStep(w: World, m: Machine)
    requires m !in w.connecting
    ensures StepsTo(w, SpawnRetry(m), w.(spawned := w.spawned + multiset{m}))
  {
  }

  lemma {:induction false} StartedStep(w: World, m: Machine, backoff: nat)
    requires m in w.spawned && m in w.state && backoff == Min(w.state[m].backoff * 2, BACKOFF_MAX)
    ensures StepsTo(w, RetryStart(m),
                    w.(spawned := w.spawned - multiset{m}, sleeping := w.sleeping + multiset{(m, backoff)}))
  {
  }

  lemma {:induction false} WokenStep(w: World, m: Machine, backoff: nat)
    requires (m, backoff) in w.sleeping
    ensures StepsTo(w, RetryWake(m, backoff, {}),
                    Restart(w.(sleeping := w.sleeping - multiset{(m, backoff)}), m, backoff, {}))
  {
  }

  lemma {:induction false} RetryRuns(w: World, m: Machine, backoff: nat) returns (ws: seq<World>, woken: World)
    requires m in w.state && m !in w.connecting && backoff == Min(w.state[m].backoff * 2, BACKOFF_MAX)
    ensures Execution(ws, Retries(m, backoff)) && ws[0] == w && ws[3] == Restart(woken, m, backoff, {})
    ensures woken == w.(spawned := woken.spawned, sleeping := woken.sleeping)
  {
    var w1 := w.(spawned := w.spawned + multiset{m});
    var w2 := w1.(spawned := w1.spawned - multiset{m}, sleeping := w1.sleeping + multiset{(m, backoff)});
    woken := w2.(sleeping := w2.sleeping - multiset{(m, backoff)});
    var w3 := Restart(woken, m, backoff, {});
    SpawnedStep(w, m);
    StartedStep(w1, m, backoff);
    WokenStep(w2, m, backoff);
    ws := [w, w1, w2, w3];
    ThreeSteps(w, SpawnRetry(m), w1, RetryStart(m), w2, RetryWake(m, backoff, {}), w3);
  }

  lemma {:induction false} OneStepRun(w: World, e: Event, w1: World)
    requires StepsTo(w, e, w1)
    ensures Execution([w, w1], [e])
  {
  }

  lemma {:induction false} ThreeRuns(w: World, e: Event, w1: World, e1: Event, w2: World, e2: Event, w3: World)
    requires Execution([w, w1], [e]) && Execution([w1, w2], [e1]) && Execution([w2, w3], [e2])
    ensures Execution([w, w1, w2, w3], [e, e1, e2])
  {
    Chain([w, w1], [e], [w1, w2], [e1]);
    assert [w, w1] + [w1, w2][1..] == [w, w1, w2] && [e] + [e1] == [e, e1];
    Chain([w, w1, w2], [e, e1], [w2, w3], [e2]);
    assert [w, w1, w2] + [w2, w3][1..] == [w, w1, w2, w3] && [e, e1] + [e2] == [e, e1, e2];
  }

  lemma {:induction false} ThreeSteps(w: World, e: Event, w1: World, e1: Event, w2: World, e2: Event, w3: World)
    requires StepsTo(w, e, w1) && StepsTo(w1, e1, w2) && StepsTo(w2, e2, w3)
    ensures Execution([w, w1, w2, w3], [e, e1, e2])
  {
    OneStepRun(w, e, w1);
    OneStepRun(w1, e1, w2);
    OneStepRun(w2, e2, w3);
    ThreeRuns(w, e, w1, e1, w2, e2, w3);
  }

  lemma {:induction false} ThirdStarts(w: World, m: Machine, q: nat, p: Port) returns (ws: seq<World>, es: seq<Event>)
    requires Waiting(w, m, q) && m !in w.connecting && LeftOver(w, p)
    ensures Execution(ws, es) && ws[0] == w && Twins(ws[|es|], m, q, w.nextId + 1)
    ensures ws[|es|].runs[q].phase == Opening
  {
    var backoff := Min(w.state[m].backoff * 2, BACKOFF_MAX);
    es := Retries(m, backoff);
    var woken: World;
    ws, woken := RetryRuns(w, m, backoff);
    RestartTwins(woken, m, q, backoff, p);
  }

  lemma {:induction false} EndingLeaks(w: World, m: Machine, r: nat, q: nat) returns (ws: seq<World>, es: seq<Event>)
    requires Twins(w, m, r, q) && OwnPort(w.state, w.runs, r)
    requires w.runs[r].phase == Failed || w.runs[r].phase == Landed
    ensures LeadsToOvercount(ws, es) && ws[0] == w
  {
    var e := FirstEnds(w, m, r, q);
    var w1 := Apply(w, e);
    OneStep(w, e);
    var ws1, es1 := ThirdStarts(w1, m, q, w.runs[r].port);
    var ws2, es2 := OpeningLeaks(ws1[|es1|], m, q, w1.nextId + 1);
    ThenOvercount(ws1, es1, ws2, es2);
    ThenOvercount([w, w1], [e], ws1 + ws2[1..], es1 + es2);
    ws, es := [w, w1] + (ws1 + ws2[1..])[1..], [e] + (es1 + es2);
  }

  lemma {:induction false} TwinsLeak(w: World, m: Machine, r: nat, q: nat) returns (ws: seq<World>, es: seq<Event>)
    requires Twins(w, m, r, q) && OwnPort(w.state, w.runs, r)
    ensures LeadsToOvercount(ws, es) && ws[0] == w
  {
    match w.runs[r].phase
    case Opening => ws, es := OpeningLeaks(w, m, r, q);
    case Handshaking(_) => ws, es := HandshakingLeaks(w, m, r, q);
    case Claimed(_) => ws, es := ClaimedLeaks(w, m, r, q);
    case Failed => ws, es := EndingLeaks(w, m, r, q);
    case Landed => ws, es := EndingLeaks(w, m, r, q);
  }

  /******* Every overlap leaks *******/

  lemma {:induction false} OverlappingRestart(w: World, m: Machine, backoff: nat, foreign: set<Port>)
    returns (r: nat, q: nat)
    requires Inv(w) && BACKOFF_BASE <= backoff <= BACKOFF_MAX && RestartOverlaps(w, m, backoff, foreign)
    ensures var w' := Restart(w, m, backoff, foreign); Twins(w', m, r, q) && OwnPort(w'.state, w'.runs, r)
  {
    var renewed := PutFresh(Release(w, m), m, backoff);
    ReleaseKeeps(w, m);
    ReleaseFrame(w, m);
    PutFreshKeeps(Release(w, m), m, backoff);
    r :| r in w.runs && w.runs[r].machine == m;
    q := renewed.nextId;
    LaunchedTwin(renewed, m, r, foreign);
    LaunchPorts(renewed, m, foreign);
  }

  /**
   * Every step that starts a connect for a machine that has one in flight, whatever
   * that one is at, can be continued to a count that exceeds the number of holders.
   */
  lemma {:induction false} OverlapLeaks(w: World, e: Event) returns (ws: seq<World>, es: seq<Event>)
    requires Inv(w) && Enabled(w, e) && Overlaps(w, e)
    ensures LeadsToOvercount(ws, es) && ws[0] == Apply(w, e)
  {
    match e
    case Drain(foreign) =>
      var r, q := OverlappingRestart(w.(queue := w.queue[1..]), w.queue[0].machine, BACKOFF_BASE, foreign);
      ws, es := TwinsLeak(Apply(w, e), w.queue[0].machine, r, q);
    case RetryWake(m, backoff, foreign) =>
      var r, q := OverlappingRestart(w.(sleeping := w.sleeping - multiset{(m, backoff)}), m, backoff, foreign);
      ws, es := TwinsLeak(Apply(w, e), m, r, q);
  }

  /******* A stop that finds a connect in flight *******/

  lemma {:induction false} StoppedPorts(w: World, foreign: set<Port>)
    requires PortsReserved(w.runs, w.reserved) && forall m :: m in w.state ==> w.state[m].claim == None
    ensures FreePort(w, foreign) == FirstFree(w.reserved + foreign, PORT_LOW)
  {
    assert forall r :: r in w.runs ==> w.runs[r].port in w.reserved;
    assert w.reserved + (LivePorts(w.state, w.runs) + foreign) == w.reserved + foreign;
  }

  function StopAndReconnect(m: Machine, order: seq<Machine>, foreign: set<Port>): seq<Event>
  {
    [Stop(order), Post(Reconnect(m)), Drain(foreign)]
  }

  // In a stopped manager a reconnect of `m` starts a connect, whether or not
  // another one is in flight.
  lemma {:induction false} ReconnectOverlaps(w: World, r: nat, foreign: set<Port>) returns (w1: World)
    requires Inv(w) && w.state == map[] && w.connecting == {} && w.queue == [] && r in w.runs
    requires FirstFree(w.reserved + foreign, PORT_LOW).Some?
    ensures StepsTo(w, Post(Reconnect(w.runs[r].machine)), w1)
    ensures Inv(w1) && Enabled(w1, Drain(foreign)) && Overlaps(w1, Drain(foreign))
  {
    var m := w.runs[r].machine;
    w1 := Apply(w, Post(Reconnect(m)));
    StepKeeps(w, Post(Reconnect(m)));
    assert w1.(queue := w1.queue[1..]) == w;
    StoppedPorts(PutFresh(w, m, BACKOFF_BASE), foreign);
  }

  /**
   * Whenever a stop finds a connect in flight, whatever it is at, the next reconnect
   * of the same machine can be continued to a count that exceeds the number of
   * holders.
   */
  lemma {:induction false} StopInFlightLeaks(w: World, r: nat, order: seq<Machine>, foreign: set<Port>)
    returns (ws: seq<World>, es: seq<Event>)
    requires Inv(w) && Enabled(w, Stop(order)) && r in w.runs
    requires FirstFree(w.reserved + foreign, PORT_LOW).Some?
    ensures LeadsToOvercount(ws, StopAndReconnect(w.runs[r].machine, order, foreign) + es) && ws[0] == w
  {
    var m := w.runs[r].machine;
    var w1 := StoppedWorld(w, order);
    var w2 := ReconnectOverlaps(w1, r, foreign);
    var w3 := Apply(w2, Drain(foreign));
    ThreeSteps(w, Stop(order), w1, Post(Reconnect(m)), w2, Drain(foreign), w3);
    var rest: seq<World>;
    rest, es := OverlapLeaks(w2, Drain(foreign));
    ThenOvercount([w, w1, w2, w3], StopAndReconnect(m, order, foreign), rest, es);
    ws := [w, w1, w2, w3] + rest[1..];
  }

  /******* What such a count costs *******/

  lemma {:induction false} OvercountedAfterRelease(w: World, m: Machine, t: Transport)
    requires Overcounted(w, t)
    ensures Overcounted(Release(w, m), t) && Release(w, m).transports[t].conn == w.transports[t].conn
  {
    RemovedClaim(w.state, m, t);
    assert Release(w, m).runs == w.runs;
    if Claims(w.state, m) && w.state[m].claim.value.transport == t {
      assert m in Claimants(w.state, t);
    }
  }

  lemma {:induction false} OvercountedAfterAll(w: World, order: seq<Machine>, t: Transport)
    requires Overcounted(w, t)
    ensures Overcounted(ReleaseAll(w, order), t)
    ensures ReleaseAll(w, order).transports[t].conn == w.transports[t].conn
    decreases |order|
  {
    if order != [] {
      OvercountedAfterRelease(w, order[0], t);
      OvercountedAfterAll(Release(w, order[0]), order[1..], t);
    }
  }

  lemma {:induction false} AllReleased(w: World, order: seq<Machine>)
    ensures forall m :: m in ReleaseAll(w, order).state <==> m in w.state && m !in order
    decreases |order|
  {
    if order != [] {
      AllReleased(Release(w, order[0]), order[1..]);
      ReleaseFrame(w, order[0]);
    }
  }

  /**
   * A transport that is counted once too often is never let go: when every machine has
   * released it and no connect is in flight, it is still registered, with the same
   * connection and a count of one.
   */
  lemma {:induction false} NeverLetGo(w: World, order: seq<Machine>, t: Transport)
    requires Overcounted(w, t) && w.runs == map[] && forall m :: m in w.state ==> m in order
    ensures var w' := ReleaseAll(w, order);
      && w'.state == map[] && t in w'.transports
      && w'.transports[t] == Shared(w.transports[t].conn, 1)
  {
    var w' := ReleaseAll(w, order);
    AllReleased(w, order);
    ReleaseAllFrame(w, order);
    OvercountedAfterAll(w, order, t);
    assert w'.state == map[];
    assert Claimants(w'.state, t) == {} && Arriving(w'.runs, t) == {};
  }
}
