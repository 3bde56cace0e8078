/**
 The shared-tunnel protocol as a transition system.

 Machines reach remote hosts through SSH connections that several machines may
 share.  One `World` is everything the tunnel manager remembers between two
 suspension points of the event loop; one `Event` is the code that runs from one
 suspension point to the next.  Any interleaving of events is allowed.
 */
module TunnelProtocol {
  import opened Wrappers

  type Machine = string
  type Transport = string
  type Port = int
  // The identity of one opened SSH client.
  type Conn = nat

  const PORT_LOW := 9000
  const PORT_HIGH := 10000
  const BACKOFF_BASE := 1
  const BACKOFF_MAX := 60

  datatype Link = Connecting | Connected | Error

  // What a landed connect stores in its machine's entry.
  datatype Claim = Claim(transport: Transport, conn: Conn, port: Port)

  // `id` is the identity of the entry object: the health tick keeps a reference
  // to an entry across an await, and writes through it even when the machine
  // has been given another entry since.
  datatype Entry = Entry(id: nat, link: Link, claim: Option<Claim>, backoff: nat)

  datatype Shared = Shared(conn: Conn, refcount: int)

  datatype Phase =
    | Opening                            // has not looked at the registry yet
    | Handshaking(transport: Transport)  // holds that transport's lock
    | Claimed(claim: Claim)              // counted in the registry, not landed
    | Failed                             // claims nothing, not landed
    | Landed                             // entry updated, guard not yet cleared

  datatype Run = Run(machine: Machine, port: Port, phase: Phase)

  datatype Command = StartTunnel(machine: Machine) | StopTunnel(machine: Machine) | Reconnect(machine: Machine)

  datatype World = World(
    state: map<Machine, Entry>,
    transports: map<Transport, Shared>,
    connecting: set<Machine>,
    reserved: set<Port>,
    queue: seq<Command>,
    runs: map<nat, Run>,
    probe: Option<(Machine, nat)>,
    spawned: multiset<Machine>,
    sleeping: multiset<(Machine, nat)>,
    nextId: nat,
    dialled: seq<Transport>,   // dialled[c] is what connection c was opened for
    closed: set<Conn>)

  const BOOT := World(map[], map[], {}, {}, [], map[], None, multiset{}, multiset{}, 0, [], {})

  datatype Event =
    | Post(command: Command)
    | Drain(foreign: set<Port>)
    | ProbeStart(machine: Machine, id: nat)
    | ProbeDone(ok: bool)
    | SpawnRetry(machine: Machine)
    | RetryStart(machine: Machine)
    | RetryWake(machine: Machine, backoff: nat, foreign: set<Port>)
    | TakeLock(run: nat, transport: Transport)
    | HandshakeDone(run: nat)
    | ConnectFails(run: nat)
    | Land(run: nat)
    | Finish(run: nat)
    | Stop(order: seq<Machine>)

  /******* Building blocks *******/

  type State = map<Machine, Entry>
  type Runs = map<nat, Run>
  type Registry = map<Transport, Shared>

  // One holder of the registry entry of transport `t` lets go.
  function Unclaim(w: World, t: Transport): World
    requires t in w.transports
  {
    var shared := w.transports[t];
    if shared.refcount - 1 <= 0 then
      w.(transports := w.transports - {t}, closed := w.closed + {shared.conn})
    else
      w.(transports := w.transports[t := shared.(refcount := shared.refcount - 1)])
  }

  function Release(w: World, m: Machine): World
  {
    if m !in w.state then w else
    var popped := w.(state := w.state - {m});
    match w.state[m].claim
    case None => popped
    case Some(c) =>
      if c.transport in w.transports then Unclaim(popped, c.transport)
      else popped.(closed := popped.closed + {c.conn})
  }

  function PutFresh(w: World, m: Machine, backoff: nat): World
  {
    w.(state := w.state[m := Entry(w.nextId, Connecting, None, backoff)], nextId := w.nextId + 1)
  }

  // Ports on which a live forward server listens.
  function LivePorts(state: State, runs: Runs): set<Port>
  {
    (set m | m in state && state[m].claim.Some? :: state[m].claim.value.port) +
    (set r | r in runs && runs[r].phase.Claimed? :: runs[r].port)
  }

  // The lowest port from `low` on that is not taken.
  ghost function FirstFree(taken: set<Port>, low: int): Option<Port>
    decreases PORT_HIGH - low
  {
    if low >= PORT_HIGH then None
    else if low in taken then FirstFree(taken, low + 1)
    else Some(low)
  }

  // A probe is refused, and the port free, exactly when nothing listens on it:
  // no forward of ours and no program of someone else's (`foreign`).
  ghost function FreePort(w: World, foreign: set<Port>): Option<Port>
  {
    FirstFree(w.reserved + (LivePorts(w.state, w.runs) + foreign), PORT_LOW)
  }

  // Guard, reserve a port, spawn the connect task.  When every port is taken the
  // port search raises after the guard was set, and no task is spawned.
  ghost function TryConnect(w: World, m: Machine, foreign: set<Port>): World
  {
    if m in w.connecting then w else
    match FreePort(w, foreign)
    case None => w.(connecting := w.connecting + {m})
    case Some(port) =>
      w.(connecting := w.connecting + {m},
         reserved := w.reserved + {port},
         runs := w.runs[w.nextId := Run(m, port, Opening)],
         nextId := w.nextId + 1)
  }

  ghost function Restart(w: World, m: Machine, backoff: nat, foreign: set<Port>): World
  {
    TryConnect(PutFresh(Release(w, m), m, backoff), m, foreign)
  }

  function SetLink(w: World, m: Machine, link: Link): World
  {
    if m in w.state then w.(state := w.state[m := w.state[m].(link := link)]) else w
  }

  function SetPhase(w: World, r: nat, phase: Phase): World
    requires r in w.runs
  {
    w.(runs := w.runs[r := w.runs[r].(phase := phase)])
  }

  function EndRun(w: World, r: nat): World
    requires r in w.runs
  {
    w.(runs := w.runs - {r},
       connecting := w.connecting - {w.runs[r].machine},
       reserved := w.reserved - {w.runs[r].port})
  }

  function ReleaseAll(w: World, order: seq<Machine>): World
    decreases |order|
  {
    if order == [] then w else ReleaseAll(Release(w, order[0]), order[1..])
  }

  function Min(a: nat, b: nat): nat { if a <= b then a else b }

  /******* Steps *******/

  ghost function HandleCommand(w: World, command: Command, foreign: set<Port>): World
  {
    match command
    case StartTunnel(m) =>
      var w1 := if m in w.state then w else PutFresh(w, m, BACKOFF_BASE);
      w1.(queue := w1.queue + [Reconnect(m)])
    case StopTunnel(m) => Release(w, m)
    case Reconnect(m) => Restart(w, m, BACKOFF_BASE, foreign)
  }

  ghost function LandRun(w: World, r: nat): World
    requires r in w.runs
  {
    var run := w.runs[r];
    match run.phase
    case Claimed(c) =>
      if run.machine in w.state then
        var e := w.state[run.machine];
        var landed := e.(link := Connected, claim := Some(c), backoff := BACKOFF_BASE);
        SetPhase(w.(state := w.state[run.machine := landed]), r, Landed)
      else if c.transport in w.transports then EndRun(Unclaim(w, c.transport), r)
      else EndRun(w, r)
    case _ => EndRun(SetLink(w, run.machine, Error), r)
  }

  ghost predicate LockFree(w: World, t: Transport)
  {
    forall r :: r in w.runs ==> w.runs[r].phase != Handshaking(t)
  }

  ghost predicate Enabled(w: World, e: Event)
  {
    match e
    case Post(_) => true
    case Drain(_) => w.queue != []
    case ProbeStart(m, id) =>
      w.probe.None? && id < w.nextId && (m in w.state && w.state[m].id == id ==> w.state[m].link == Connected)
    case ProbeDone(_) => w.probe.Some?
    // The tick may be looking at an entry that has been replaced since, so
    // nothing is assumed about the machine's current entry.
    case SpawnRetry(m) => m !in w.connecting
    case RetryStart(m) => m in w.spawned
    case RetryWake(m, backoff, _) => (m, backoff) in w.sleeping
    case TakeLock(r, t) => r in w.runs && w.runs[r].phase == Opening && LockFree(w, t)
    case HandshakeDone(r) => r in w.runs && w.runs[r].phase.Handshaking?
    case ConnectFails(r) => r in w.runs && (w.runs[r].phase == Opening || w.runs[r].phase.Handshaking?)
    case Land(r) => r in w.runs && (w.runs[r].phase.Claimed? || w.runs[r].phase == Failed)
    case Finish(r) => r in w.runs && w.runs[r].phase == Landed
    case Stop(order) => multiset(order) == multiset(w.state.Keys)
  }

  ghost function Apply(w: World, e: Event): World
    requires Enabled(w, e)
  {
    match e
    case Post(command) => w.(queue := w.queue + [command])
    case Drain(foreign) => HandleCommand(w.(queue := w.queue[1..]), w.queue[0], foreign)
    case ProbeStart(m, id) => w.(probe := Some((m, id)))
    case ProbeDone(ok) =>
      var (m, id) := w.probe.value;
      var w1 := w.(probe := None);
      if m in w.state && w.state[m].id == id then SetLink(w1, m, if ok then Connected else Error) else w1
    case SpawnRetry(m) => w.(spawned := w.spawned + multiset{m})
    case RetryStart(m) =>
      var w1 := w.(spawned := w.spawned - multiset{m});
      if m in w.state
      then w1.(sleeping := w.sleeping + multiset{(m, Min(w.state[m].backoff * 2, BACKOFF_MAX))})
      else w1
    case RetryWake(m, backoff, foreign) =>
      Restart(w.(sleeping := w.sleeping - multiset{(m, backoff)}), m, backoff, foreign)
    case TakeLock(r, t) =>
      if t in w.transports then
        var shared := w.transports[t];
        SetPhase(w.(transports := w.transports[t := shared.(refcount := shared.refcount + 1)]),
                 r, Claimed(Claim(t, shared.conn, w.runs[r].port)))
      else SetPhase(w, r, Handshaking(t))
    case HandshakeDone(r) =>
      // The store is unconditional: only the lock keeps it from clobbering.
      var t := w.runs[r].phase.transport;
      SetPhase(w.(transports := w.transports[t := Shared(|w.dialled|, 1)], dialled := w.dialled + [t]),
               r, Claimed(Claim(t, |w.dialled|, w.runs[r].port)))
    case ConnectFails(r) => SetLink(SetPhase(w, r, Failed), w.runs[r].machine, Error)
    case Land(r) => LandRun(w, r)
    case Finish(r) => EndRun(w, r)
    case Stop(order) => ReleaseAll(w, order).(connecting := {}, queue := [], probe := None)
  }

  /******* The invariant *******/

  ghost predicate Claims(state: State, m: Machine)
  {
    m in state && state[m].claim.Some?
  }

  // The machines whose entries claim transport `t`.
  ghost function Claimants(state: State, t: Transport): set<Machine>
  {
    set m | m in state && state[m].claim.Some? && state[m].claim.value.transport == t
  }

  // The connects that were counted on transport `t` but have not landed.
  ghost function Arriving(runs: Runs, t: Transport): set<nat>
  {
    set r | r in runs && runs[r].phase.Claimed? && runs[r].phase.claim.transport == t
  }

  // A transport is registered exactly while someone holds it, and its reference
  // count is the number of holders.
  ghost predicate CountedAt(state: State, runs: Runs, transports: Registry, t: Transport)
  {
    var holders := |Claimants(state, t)| + |Arriving(runs, t)|;
    if t in transports then transports[t].refcount == holders >= 1 else holders == 0
  }

  ghost predicate Counted(state: State, runs: Runs, transports: Registry)
  {
    forall t :: CountedAt(state, runs, transports, t)
  }

  // A holder uses the very connection that is registered.
  ghost predicate SameConnections(state: State, runs: Runs, transports: Registry)
  {
    && (forall m :: Claims(state, m) && state[m].claim.value.transport in transports ==>
          state[m].claim.value.conn == transports[state[m].claim.value.transport].conn)
    && (forall r :: r in runs && runs[r].phase.Claimed? && runs[r].phase.claim.transport in transports ==>
          runs[r].phase.claim.conn == transports[runs[r].phase.claim.transport].conn)
  }

  // Every connection ever opened is either closed or the registered one of the
  // transport it was opened for, and not both.
  ghost predicate Accounted(transports: Registry, dialled: seq<Transport>, closed: set<Conn>)
  {
    && (forall t :: t in transports ==>
          transports[t].conn < |dialled| && dialled[transports[t].conn] == t && transports[t].conn !in closed)
    && (forall c :: 0 <= c < |dialled| && c !in closed ==> dialled[c] in transports && transports[dialled[c]].conn == c)
    && (forall c :: c in closed ==> c < |dialled|)
  }

  // The transport lock is exclusive, and nothing is registered behind it.
  ghost predicate LocksHeld(runs: Runs, transports: Registry)
  {
    && (forall r :: r in runs && runs[r].phase.Handshaking? ==> runs[r].phase.transport !in transports)
    && (forall r, q :: r in runs && q in runs && runs[r].phase.Handshaking? && runs[r].phase == runs[q].phase ==>
          r == q)
  }

  ghost predicate OneRunPerMachine(runs: Runs)
  {
    forall r, q :: r in runs && q in runs && runs[r].machine == runs[q].machine ==> r == q
  }

  // Until its connect lands, a machine's entry claims nothing.
  ghost predicate UnlandedClaimNothing(state: State, runs: Runs)
  {
    forall r :: r in runs && runs[r].phase != Landed ==> !Claims(state, runs[r].machine)
  }

  // Connects in flight hold distinct ports, and only they hold reservations.
  ghost predicate PortsReserved(runs: Runs, reserved: set<Port>)
  {
    && (reserved == set r | r in runs :: runs[r].port)
    && (forall r, q :: r in runs && q in runs && runs[r].port == runs[q].port ==> r == q)
    && (forall r :: r in runs ==> PORT_LOW <= runs[r].port < PORT_HIGH)
    && (forall r :: r in runs && runs[r].phase.Claimed? ==> runs[r].phase.claim.port == runs[r].port)
  }

  // No two live forwards share a port, and a reserved port carries at most the
  // forward of the machine it is reserved for.
  ghost predicate ForwardsDistinct(state: State, runs: Runs)
  {
    && (forall m, n :: Claims(state, m) && Claims(state, n) && m != n ==>
          state[m].claim.value.port != state[n].claim.value.port)
    && (forall m, r :: Claims(state, m) && r in runs && !(runs[r].machine == m && runs[r].phase == Landed) ==>
          state[m].claim.value.port != runs[r].port)
  }

  ghost predicate EntriesSound(state: State, runs: Runs, nextId: nat)
  {
    && (forall m :: m in state ==> state[m].id < nextId && BACKOFF_BASE <= state[m].backoff <= BACKOFF_MAX)
    && (forall m :: m in state && state[m].link == Connected ==> Claims(state, m))
    && (forall r :: r in runs ==> r < nextId)
  }

  // A probe in progress is about an entry that was connected, whether or not
  // that entry is still the machine's.
  ghost predicate ProbeSound(state: State, probe: Option<(Machine, nat)>, nextId: nat)
  {
    probe.Some? ==>
      && probe.value.1 < nextId
      && (probe.value.0 in state && state[probe.value.0].id == probe.value.1 ==> Claims(state, probe.value.0))
  }

  ghost predicate BackoffsBounded(sleeping: multiset<(Machine, nat)>)
  {
    forall s :: s in sleeping ==> 2 * BACKOFF_BASE <= s.1 <= BACKOFF_MAX
  }

  ghost predicate Inv(w: World)
  {
    && Counted(w.state, w.runs, w.transports)
    && SameConnections(w.state, w.runs, w.transports)
    && Accounted(w.transports, w.dialled, w.closed)
    && LocksHeld(w.runs, w.transports)
    && OneRunPerMachine(w.runs)
    && UnlandedClaimNothing(w.state, w.runs)
    && PortsReserved(w.runs, w.reserved)
    && ForwardsDistinct(w.state, w.runs)
    && EntriesSound(w.state, w.runs, w.nextId)
    && ProbeSound(w.state, w.probe, w.nextId)
    && BackoffsBounded(w.sleeping)
  }

  // The re-entry guard covers every connect in flight.
  ghost predicate Guarded(w: World)
  {
    forall r :: r in w.runs ==> w.runs[r].machine in w.connecting
  }
}
