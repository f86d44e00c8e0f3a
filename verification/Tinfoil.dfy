/**
 The recovery protocol of the Tinfoil transport. One shared slot holds the attested client
 and an attempt counter; a gate keeps discovery single-flight; an atomic flag hands the
 background initialization to one task at a time. Initializers, refreshers and requests are
 tasks with program counters, and one step of one task touches the shared state once.
 */
module Tinfoil {
  import opened Options

  type ClientId = nat
  type TaskId = nat

  const U64_MODULUS := 0x1_0000_0000_0000_0000
  const INITIAL_RETRY_DELAY: nat := 1
  const MAX_RETRY_DELAY: nat := 30

  datatype Snapshot = Snapshot(client: ClientId, attempt: nat)

  datatype RefreshDecision = Refresh | UseCurrent | PreviousAttemptFailed

  function Decide(failedAttempt: nat, currentAttempt: nat, sameClient: bool): (r: RefreshDecision) {
    if !sameClient then UseCurrent
    else if failedAttempt == currentAttempt then Refresh
    else PreviousAttemptFailed
  }

  function NextRetryDelay(current: nat): (r: nat) {
    if 2 * current < MAX_RETRY_DELAY then 2 * current else MAX_RETRY_DELAY
  }

  // ---------- Shared state and its atomic updates ----------

  datatype Shared = Shared(client: Option<ClientId>, attempt: nat, gate: Option<TaskId>, started: bool) {
    function Snap(): (r: Option<Snapshot>) {
      if client.None? then None else Some(Snapshot(client.value, attempt))
    }
    function Bumped(): (r: Shared) {
      this.(attempt := (attempt + 1) % U64_MODULUS)
    }
    function Install(c: ClientId): (r: Shared) {
      Bumped().(client := Some(c))
    }
    function Uninstall(): (r: Shared) {
      Bumped().(client := None)
    }
    function Claimed(): (r: Shared) {
      this.(started := true)
    }
    function Unclaimed(): (r: Shared) {
      this.(started := false)
    }
    function GateTakenBy(t: TaskId): (r: Shared) {
      this.(gate := Some(t))
    }
  }

  /** The transport object; each method is one atomic access, and the steps of the tasks below are
      made of the same accesses. */
  class SecureTinfoilTransport {
    var client: Option<ClientId>
    var attempt: nat
    var gate: Option<TaskId>
    var started: bool

    ghost function State(): (r: Shared)
      reads this
    {
      Shared(client, attempt, gate, started)
    }

    constructor ()
      ensures State() == Shared(None, 0, None, false)
    {
      client, attempt, gate, started := None, 0, None, false;
    }

    method TakeSnapshot() returns (r: Option<Snapshot>)
      ensures r == State().Snap()
    {
      r := None;
      if client.Some? {
        r := Some(Snapshot(client.value, attempt));
      }
    }

    method ClaimBackgroundInitialization() returns (claimed: bool)
      modifies this
      ensures claimed == !old(started)
      ensures State() == old(State()).Claimed()
    {
      claimed := !started;
      started := true;
    }

    method ReleaseClaim()
      modifies this
      ensures State() == old(State()).Unclaimed()
    {
      started := false;
    }

    method TryRefreshGate(t: TaskId) returns (locked: bool)
      modifies this
      ensures locked == old(gate).None?
      ensures State() == if locked then old(State()).GateTakenBy(t) else old(State())
    {
      locked := gate.None?;
      if locked {
        gate := Some(t);
      }
    }

    /** An initializer's success: the claim goes while the slot is still write-locked. */
    method InstallAndRelease(c: ClientId)
      modifies this
      ensures State() == old(State()).Install(c).Unclaimed()
    {
      client := Some(c);
      attempt := (attempt + 1) % U64_MODULUS;
      started := false;
    }

    /** A refresher's outcome: the counter moves either way. */
    method ApplyRefresh(discovered: Option<ClientId>) returns (r: Option<Snapshot>)
      modifies this
      ensures State() == if discovered.Some? then old(State()).Install(discovered.value) else old(State()).Uninstall()
      ensures r == if discovered.Some? then State().Snap() else None
    {
      attempt := (attempt + 1) % U64_MODULUS;
      client := discovered;
      r := None;
      if discovered.Some? {
        r := Some(Snapshot(discovered.value, attempt));
      }
    }
  }

  // ---------- Tasks ----------

  /** What follows a call of `start_background_initialization`. */
  datatype After = Constructed | RequestGoesOn | RefreshGivesUp(failed: Snapshot)

  datatype Pc =
    | Starting(after: After)                       // about to look for a client
    | Claiming(after: After)                       // saw none; about to claim
    | InitWaiting(delay: nat)                      // owns the claim, waits for the gate
    | InitChecking(delay: nat)                     // holds the gate, about to look
    | InitReleasing                                // saw a client, about to release the claim
    | InitDiscovering(delay: nat)
    | InitSleeping(delay: nat)
    | InitLeaving                                  // claim released, gate still held
    | ReqSnapshot
    | ReqSending(snap: Snapshot)
    | ReqWaiting(failed: Snapshot, refresher: TaskId)
    | ReqRetrying(failed: Snapshot, snap: Snapshot)
    | RefTrying(failed: Snapshot)
    | RefDeciding(failed: Snapshot)                // holds the gate from here on
    | RefUsing(failed: Snapshot)
    | RefPrevious(failed: Snapshot)
    | RefDiscovering(failed: Snapshot)
    | RefDropping(failed: Snapshot)                // emptied the slot
    | RefLeaving(failed: Snapshot, result: Option<Snapshot>)
    | RefDone(failed: Snapshot, result: Option<Snapshot>)
    | Done

  predicate HoldsGate(pc: Pc) {
    pc.InitChecking? || pc.InitReleasing? || pc.InitDiscovering? || pc.InitLeaving? ||
    pc.RefDeciding? || pc.RefUsing? || pc.RefPrevious? || pc.RefDiscovering? || pc.RefDropping? || pc.RefLeaving?
  }

  predicate OwnsClaim(pc: Pc) {
    pc.InitWaiting? || pc.InitChecking? || pc.InitReleasing? || pc.InitDiscovering? || pc.InitSleeping?
  }

  /** An owner that has not seen a client will go on until it has discovered one. */
  predicate WillDiscover(pc: Pc) {
    OwnsClaim(pc) && !pc.InitReleasing?
  }

  predicate Discovering(pc: Pc) {
    pc.InitDiscovering? || pc.RefDiscovering?
  }

  /** The task has yet to try the claim. */
  predicate WillTryClaim(pc: Pc) {
    pc.Starting? || pc.Claiming? || pc.RefDropping?
  }

  /** `owner` names the task behind the claim flag; `refreshed` lists the clients that a
      refresh discovery was started for, in order. */
  datatype World = World(
    shared: Shared,
    tasks: map<TaskId, Pc>,
    nextTask: TaskId,
    nextClient: ClientId,
    owner: Option<TaskId>,
    refreshed: seq<ClientId>)

  /** `Advance` is a step without an outcome of its own; the others name what discovery or the
      network answered, a new request coming in, or a request running into its timeout. */
  datatype Move =
    | Advance(t: TaskId)
    | Discovered(t: TaskId)
    | DiscoveryFailed(t: TaskId)
    | Sent(t: TaskId)
    | ConnectFailed(t: TaskId)
    | TimedOut(t: TaskId)
    | NewRequest

  function Start(): (r: World) {
    World(Shared(None, 0, None, false), map[0 := Starting(Constructed)], 1, 0, None, [])
  }

  predicate Enabled(w: World, m: Move) {
    m.NewRequest? ||
    (m.t in w.tasks &&
     var pc := w.tasks[m.t];
     match m
     case Advance(_) =>
       && !Discovering(pc) && !pc.ReqSending? && !pc.ReqRetrying? && !pc.RefDone? && !pc.Done?
       && (pc.InitWaiting? ==> w.shared.gate.None?)
       && (pc.ReqWaiting? ==> pc.refresher in w.tasks && w.tasks[pc.refresher].RefDone?)
     case Discovered(_) => Discovering(pc)
     case DiscoveryFailed(_) => Discovering(pc)
     case Sent(_) => pc.ReqSending? || pc.ReqRetrying?
     case ConnectFailed(_) => pc.ReqSending?
     case TimedOut(_) => pc.ReqSending? || pc.ReqRetrying? || pc.ReqWaiting?
     case NewRequest => true)
  }

  function AfterStart(a: After): (r: Pc) {
    match a
    case Constructed => Done
    case RequestGoesOn => ReqSnapshot
    case RefreshGivesUp(failed) => RefDone(failed, None)
  }

  function Goto(w: World, t: TaskId, pc: Pc): (r: World) {
    w.(tasks := w.tasks[t := pc])
  }

  function Spawn(w: World, pc: Pc): (r: World) {
    w.(tasks := w.tasks[w.nextTask := pc], nextTask := w.nextTask + 1)
  }

  function Lock(w: World, t: TaskId): (r: World) {
    w.(shared := w.shared.GateTakenBy(t))
  }

  function Unlock(w: World): (r: World) {
    w.(shared := w.shared.(gate := None))
  }

  function AdvanceTask(w: World, t: TaskId): (r: World)
    requires Enabled(w, Advance(t))
  {
    var s := w.shared;
    match w.tasks[t]
    case Starting(after) =>
      Goto(w, t, if s.Snap().Some? then AfterStart(after) else Claiming(after))
    case Claiming(after) =>
      if s.started then Goto(w, t, AfterStart(after))
      else
        Spawn(Goto(w.(shared := s.Claimed(), owner := Some(w.nextTask)), t, AfterStart(after)),
              InitWaiting(INITIAL_RETRY_DELAY))
    case InitWaiting(delay) => Goto(Lock(w, t), t, InitChecking(delay))
    case InitChecking(delay) => Goto(w, t, if s.Snap().Some? then InitReleasing else InitDiscovering(delay))
    case InitReleasing => Goto(w.(shared := s.Unclaimed(), owner := None), t, InitLeaving)
    case InitSleeping(delay) => Goto(w, t, InitWaiting(NextRetryDelay(delay)))
    case InitLeaving => Goto(Unlock(w), t, Done)
    case ReqSnapshot => Goto(w, t, if s.Snap().Some? then ReqSending(s.Snap().value) else Done)
    case ReqWaiting(failed, r) =>
      var result := w.tasks[r].result;
      Goto(w, t, if result.Some? then ReqRetrying(failed, result.value) else Done)
    case RefTrying(failed) =>
      if s.gate.Some? then Goto(w, t, RefDone(failed, None)) else Goto(Lock(w, t), t, RefDeciding(failed))
    case RefDeciding(failed) =>
      (match Decide(failed.attempt, s.attempt, s.client == Some(failed.client))
       case UseCurrent => Goto(w, t, RefUsing(failed))
       case Refresh => Goto(w.(refreshed := w.refreshed + [failed.client]), t, RefDiscovering(failed))
       case PreviousAttemptFailed => Goto(w, t, RefPrevious(failed)))
    case RefUsing(failed) => Goto(w, t, RefLeaving(failed, s.Snap()))
    case RefPrevious(failed) => Goto(w, t, RefLeaving(failed, None))
    case RefDropping(failed) => Goto(Unlock(w), t, Starting(RefreshGivesUp(failed)))
    case RefLeaving(failed, result) => Goto(Unlock(w), t, RefDone(failed, result))
  }

  function Next(w: World, m: Move): (r: World)
    requires Enabled(w, m)
  {
    match m
    case Advance(t) => AdvanceTask(w, t)
    case Discovered(t) =>
      var w1 := w.(nextClient := w.nextClient + 1, shared := w.shared.Install(w.nextClient));
      (match w.tasks[t]
       case InitDiscovering(_) => Goto(w1.(shared := w1.shared.Unclaimed(), owner := None), t, InitLeaving)
       case RefDiscovering(failed) => Goto(w1, t, RefLeaving(failed, w1.shared.Snap())))
    case DiscoveryFailed(t) =>
      (match w.tasks[t]
       case InitDiscovering(delay) => Goto(Unlock(w), t, InitSleeping(delay))
       case RefDiscovering(failed) => Goto(w.(shared := w.shared.Uninstall()), t, RefDropping(failed)))
    case Sent(t) => Goto(w, t, Done)
    case ConnectFailed(t) =>
      var failed := w.tasks[t].snap;
      Spawn(Goto(w, t, ReqWaiting(failed, w.nextTask)), RefTrying(failed))
    case TimedOut(t) => Goto(w, t, Done)
    case NewRequest => Spawn(w, Starting(RequestGoesOn))
  }

  ghost predicate Admissible(w: World, moves: seq<Move>)
    decreases |moves|
  {
    moves == [] || (Enabled(w, moves[0]) && Admissible(Next(w, moves[0]), moves[1..]))
  }

  function Run(w: World, moves: seq<Move>): (r: World)
    requires Admissible(w, moves)
    decreases |moves|
  {
    if moves == [] then w else Run(Next(w, moves[0]), moves[1..])
  }

  // ---------- The invariant ----------

  /** The gate is held by the one task whose counter says so. */
  ghost predicate GateExact(w: World) {
    && (forall t :: t in w.tasks ==> (HoldsGate(w.tasks[t]) <==> w.shared.gate == Some(t)))
    && (w.shared.gate.Some? ==> w.shared.gate.value in w.tasks)
  }

  /** The claim flag is up exactly while one task owns the claim. */
  ghost predicate ClaimExact(w: World) {
    && (forall t :: t in w.tasks ==> (OwnsClaim(w.tasks[t]) <==> w.owner == Some(t)))
    && (w.owner.Some? ==> w.owner.value in w.tasks)
    && (w.shared.started <==> w.owner.Some?)
  }

  /** A snapshot whose client is still installed carries the current counter. */
  predicate Coherent(s: Shared, nextClient: ClientId, snap: Snapshot) {
    snap.client < nextClient && (s.client == Some(snap.client) ==> s.attempt == snap.attempt)
  }

  predicate ResultOk(s: Shared, nextClient: ClientId, failed: Snapshot, result: Option<Snapshot>) {
    && Coherent(s, nextClient, failed)
    && (result.Some? ==> Coherent(s, nextClient, result.value) && result.value.client != failed.client)
  }

  predicate AfterOk(s: Shared, nextClient: ClientId, a: After) {
    a.RefreshGivesUp? ==> Coherent(s, nextClient, a.failed)
  }

  /** The delays are the doublings of one second, capped at thirty. */
  predicate DelayOk(delay: nat) {
    delay == 1 || delay == 2 || delay == 4 || delay == 8 || delay == 16 || delay == 30
  }

  /** What a task at `pc` may rely on. */
  predicate TaskOk(s: Shared, nextClient: ClientId, pc: Pc) {
    match pc
    case Starting(a) => AfterOk(s, nextClient, a)
    case Claiming(a) => AfterOk(s, nextClient, a)
    case InitWaiting(d) => DelayOk(d)
    case InitChecking(d) => DelayOk(d)
    case InitReleasing => s.client.Some?
    case InitDiscovering(d) => DelayOk(d) && s.client.None?
    case InitSleeping(d) => DelayOk(d)
    case InitLeaving => true
    case ReqSnapshot => true
    case ReqSending(snap) => Coherent(s, nextClient, snap)
    case ReqWaiting(failed, _) => Coherent(s, nextClient, failed)
    case ReqRetrying(failed, snap) => ResultOk(s, nextClient, failed, Some(snap))
    case RefTrying(failed) => Coherent(s, nextClient, failed)
    case RefDeciding(failed) => Coherent(s, nextClient, failed)
    case RefUsing(failed) => Coherent(s, nextClient, failed) && s.client != Some(failed.client)
    case RefPrevious(_) => false
    case RefDiscovering(failed) => Coherent(s, nextClient, failed) && s.client == Some(failed.client)
    case RefDropping(failed) => Coherent(s, nextClient, failed) && s.client.None?
    case RefLeaving(failed, result) => ResultOk(s, nextClient, failed, result)
    case RefDone(failed, result) => ResultOk(s, nextClient, failed, result)
    case Done => true
  }

  ghost predicate TasksOk(w: World) {
    && (w.shared.client.Some? ==> w.shared.client.value < w.nextClient)
    && forall t :: t in w.tasks ==> t < w.nextTask && TaskOk(w.shared, w.nextClient, w.tasks[t])
  }

  /** The client that the refresher at `pc` was started for, if it is a refresher. */
  function RefreshOf(pc: Pc): (r: Option<Snapshot>) {
    match pc
    case Starting(RefreshGivesUp(failed)) => Some(failed)
    case Claiming(RefreshGivesUp(failed)) => Some(failed)
    case RefTrying(failed) => Some(failed)
    case RefDeciding(failed) => Some(failed)
    case RefUsing(failed) => Some(failed)
    case RefPrevious(failed) => Some(failed)
    case RefDiscovering(failed) => Some(failed)
    case RefDropping(failed) => Some(failed)
    case RefLeaving(failed, _) => Some(failed)
    case RefDone(failed, _) => Some(failed)
    case _ => None
  }

  /** A waiting request waits for the refresher of its own failure. */
  ghost predicate WaitsMatch(w: World) {
    forall t :: t in w.tasks && w.tasks[t].ReqWaiting? ==>
      w.tasks[t].refresher in w.tasks && RefreshOf(w.tasks[w.tasks[t].refresher]) == Some(w.tasks[t].failed)
  }

  /** Each client is refreshed at most once: a client in the list has left the slot, or its one
      refresh discovery is still under way. */
  ghost predicate RefreshedOnce(w: World) {
    && (forall i, j :: 0 <= i < j < |w.refreshed| ==> w.refreshed[i] != w.refreshed[j])
    && (forall i :: 0 <= i < |w.refreshed| ==> w.refreshed[i] < w.nextClient)
    && (forall i :: 0 <= i < |w.refreshed| && w.shared.client == Some(w.refreshed[i]) ==>
          w.shared.gate.Some? && w.shared.gate.value in w.tasks && w.tasks[w.shared.gate.value].RefDiscovering?)
  }

  /** With no client installed, a claim owner will still discover or a task will try the claim. */
  ghost predicate Recovering(w: World) {
    w.shared.client.None? ==>
      w.shared.started || exists t :: t in w.tasks && WillTryClaim(w.tasks[t])
  }

  ghost predicate Valid(w: World) {
    && GateExact(w)
    && ClaimExact(w)
    && TasksOk(w)
    && WaitsMatch(w)
    && RefreshedOnce(w)
    && Recovering(w)
  }

  lemma StartValid()
    ensures Valid(Start())
  {
    assert WillTryClaim(Start().tasks[0]);
  }

  // ---------- Every step keeps the invariant ----------

  lemma GateKeptByAdvance(w: World, t: TaskId, w': World)
    requires GateExact(w) && Enabled(w, Advance(t)) && w' == AdvanceTask(w, t) && w.nextTask !in w.tasks
    ensures GateExact(w')
  {
  }

  lemma GateKept(w: World, m: Move, w': World)
    requires GateExact(w) && Enabled(w, m) && w' == Next(w, m) && w.nextTask !in w.tasks
    ensures GateExact(w')
  {
    if m.Advance? { GateKeptByAdvance(w, m.t, w'); }
  }

  lemma ClaimKeptByAdvance(w: World, t: TaskId, w': World)
    requires ClaimExact(w) && Enabled(w, Advance(t)) && w' == AdvanceTask(w, t) && w.nextTask !in w.tasks
    ensures ClaimExact(w')
  {
  }

  lemma ClaimKept(w: World, m: Move, w': World)
    requires ClaimExact(w) && Enabled(w, m) && w' == Next(w, m) && w.nextTask !in w.tasks
    ensures ClaimExact(w')
  {
    if m.Advance? { ClaimKeptByAdvance(w, m.t, w'); }
  }

  /** What a task relies on survives a change of the slot made by another gate holder. */
  lemma TaskOkStable(s: Shared, n: ClientId, s': Shared, n': ClientId, pc: Pc)
    requires TaskOk(s, n, pc) && n <= n'
    requires (s'.client, s'.attempt) == (s.client, s.attempt)
             || (!HoldsGate(pc) && (s'.client.None? || s'.client.value >= n))
    ensures TaskOk(s', n', pc)
  {
  }

  /** Only a gate holder changes the slot, and only to nothing or to a new client. */
  lemma SlotChanges(w: World, m: Move, w': World)
    requires Enabled(w, m) && w' == Next(w, m)
    ensures w.nextClient <= w'.nextClient
    ensures (w'.shared.client, w'.shared.attempt) == (w.shared.client, w.shared.attempt)
            || (!m.NewRequest? && HoldsGate(w.tasks[m.t]) && w'.shared.client.None?)
            || (!m.NewRequest? && HoldsGate(w.tasks[m.t]) && w'.shared.client == Some(w.nextClient) && w'.nextClient == w.nextClient + 1)
  {
  }

  /** A step leaves the other tasks where they are, except that it may add one. */
  lemma OthersStay(w: World, m: Move, w': World)
    requires Enabled(w, m) && w' == Next(w, m)
    ensures w.nextTask <= w'.nextTask
    ensures forall u :: u in w.tasks && (m.NewRequest? || u != m.t) && u != w.nextTask ==> u in w'.tasks && w'.tasks[u] == w.tasks[u]
    ensures forall u :: u in w'.tasks ==> u in w.tasks || (u == w.nextTask && w'.nextTask == w.nextTask + 1)
  {
  }

  lemma RefresherAdvancedOk(w: World, t: TaskId, w': World)
    requires Enabled(w, Advance(t)) && w' == AdvanceTask(w, t)
    requires TaskOk(w.shared, w.nextClient, w.tasks[t]) && RefreshOf(w.tasks[t]).Some?
    requires w.shared.client.Some? ==> w.shared.client.value < w.nextClient
    requires !w.tasks[t].Claiming?
    ensures TaskOk(w'.shared, w'.nextClient, w'.tasks[t])
  {
  }

  lemma AdvancedOk(w: World, t: TaskId, w': World)
    requires Enabled(w, Advance(t)) && w' == AdvanceTask(w, t) && w.nextTask !in w.tasks
    requires TaskOk(w.shared, w.nextClient, w.tasks[t])
    requires w.shared.client.Some? ==> w.shared.client.value < w.nextClient
    requires w.tasks[t].ReqWaiting? ==>
               var r := w.tasks[w.tasks[t].refresher];
               TaskOk(w.shared, w.nextClient, r) && RefreshOf(r) == Some(w.tasks[t].failed)
    ensures TaskOk(w'.shared, w'.nextClient, w'.tasks[t])
  {
    if RefreshOf(w.tasks[t]).Some? && !w.tasks[t].Claiming? { RefresherAdvancedOk(w, t, w'); }
  }

  lemma SpawnedOk(w: World, t: TaskId, w': World)
    requires Enabled(w, Advance(t)) && w' == AdvanceTask(w, t) && w.nextTask !in w.tasks
    requires TaskOk(w.shared, w.nextClient, w.tasks[t])
    ensures w.nextTask in w'.tasks ==> TaskOk(w'.shared, w'.nextClient, w'.tasks[w.nextTask])
  {
  }

  lemma MovedOk(w: World, m: Move, w': World)
    requires TasksOk(w) && WaitsMatch(w) && Enabled(w, m) && w' == Next(w, m) && w.nextTask !in w.tasks
    ensures !m.NewRequest? ==> TaskOk(w'.shared, w'.nextClient, w'.tasks[m.t])
    ensures w.nextTask in w'.tasks ==> TaskOk(w'.shared, w'.nextClient, w'.tasks[w.nextTask])
  {
    if m.Advance? {
      AdvancedOk(w, m.t, w');
      SpawnedOk(w, m.t, w');
    } else if !m.NewRequest? {
      assert TaskOk(w.shared, w.nextClient, w.tasks[m.t]);
    }
  }

  lemma TasksKept(w: World, m: Move, w': World)
    requires GateExact(w) && TasksOk(w) && WaitsMatch(w) && Enabled(w, m) && w' == Next(w, m)
    ensures TasksOk(w')
  {
    MovedOk(w, m, w');
    OthersStay(w, m, w');
    SlotChanges(w, m, w');
    forall u | u in w'.tasks
      ensures u < w'.nextTask && TaskOk(w'.shared, w'.nextClient, w'.tasks[u])
    {
      if u in w.tasks && (m.NewRequest? || u != m.t) {
        TaskOkStable(w.shared, w.nextClient, w'.shared, w'.nextClient, w.tasks[u]);
      }
    }
  }

  lemma RefreshKept(w: World, m: Move, w': World, u: TaskId)
    requires Enabled(w, m) && w' == Next(w, m) && w.nextTask !in w.tasks && u in w.tasks
    ensures RefreshOf(w.tasks[u]).Some? ==> u in w'.tasks && RefreshOf(w'.tasks[u]) == RefreshOf(w.tasks[u])
  {
  }

  /** A request that starts to wait waits for a refresh of the client that failed it. */
  lemma WaitStarts(w: World, m: Move, w': World, t: TaskId)
    requires Enabled(w, m) && w' == Next(w, m) && w.nextTask !in w.tasks
    requires t in w'.tasks && w'.tasks[t].ReqWaiting? && !(t in w.tasks && w.tasks[t].ReqWaiting?)
    ensures w'.tasks[t].refresher in w'.tasks && RefreshOf(w'.tasks[w'.tasks[t].refresher]) == Some(w'.tasks[t].failed)
  {
  }

  lemma WaitsKept(w: World, m: Move, w': World)
    requires WaitsMatch(w) && Enabled(w, m) && w' == Next(w, m) && w.nextTask !in w.tasks
    ensures WaitsMatch(w')
  {
    OthersStay(w, m, w');
    forall t | t in w'.tasks && w'.tasks[t].ReqWaiting?
      ensures w'.tasks[t].refresher in w'.tasks && RefreshOf(w'.tasks[w'.tasks[t].refresher]) == Some(w'.tasks[t].failed)
    {
      if t in w.tasks && w.tasks[t].ReqWaiting? {
        RefreshKept(w, m, w', w.tasks[t].refresher);
      } else {
        WaitStarts(w, m, w', t);
      }
    }
  }

  lemma RefreshedKeptByAdvance(w: World, t: TaskId, w': World)
    requires GateExact(w) && TasksOk(w) && RefreshedOnce(w) && Enabled(w, Advance(t)) && w' == AdvanceTask(w, t)
    ensures RefreshedOnce(w')
  {
    assert TaskOk(w.shared, w.nextClient, w.tasks[t]);
  }

  lemma RefreshedKept(w: World, m: Move, w': World)
    requires GateExact(w) && TasksOk(w) && RefreshedOnce(w) && Enabled(w, m) && w' == Next(w, m)
    ensures RefreshedOnce(w')
  {
    if m.Advance? { RefreshedKeptByAdvance(w, m.t, w'); }
  }

  lemma RecoveringKept(w: World, m: Move, w': World)
    requires ClaimExact(w) && TasksOk(w) && Recovering(w) && Enabled(w, m) && w' == Next(w, m)
    ensures Recovering(w')
  {
    if w'.shared.client.None? && !w'.shared.started {
      if w.shared.client.Some? {
        assert WillTryClaim(w'.tasks[m.t]);
      } else if w.shared.started {
        assert false;
      } else {
        var u :| u in w.tasks && WillTryClaim(w.tasks[u]);
        assert WillTryClaim(w'.tasks[u]);
      }
    }
  }

  lemma StepKeeps(w: World, m: Move)
    requires Valid(w) && Enabled(w, m)
    ensures Valid(Next(w, m))
  {
    var w' := Next(w, m);
    GateKept(w, m, w');
    ClaimKept(w, m, w');
    TasksKept(w, m, w');
    WaitsKept(w, m, w');
    RefreshedKept(w, m, w');
    RecoveringKept(w, m, w');
  }

  lemma {:induction false} RunKeeps(w: World, moves: seq<Move>)
    requires Valid(w) && Admissible(w, moves)
    ensures Valid(Run(w, moves))
    decreases |moves|
  {
    if moves != [] {
      StepKeeps(w, moves[0]);
      RunKeeps(Next(w, moves[0]), moves[1..]);
    }
  }

  // ---------- What every run guarantees ----------

  /** With no client installed, either exactly one task owns the claim and it will go on until
      it has discovered a client, or some task has yet to try the claim. Discoveries never
      overlap. */
  lemma NoLostRecovery(moves: seq<Move>)
    requires Admissible(Start(), moves)
    ensures var w := Run(Start(), moves);
            && (w.shared.client.None? ==>
                  || (exists o :: o in w.tasks && WillDiscover(w.tasks[o])
                        && forall t :: t in w.tasks && OwnsClaim(w.tasks[t]) ==> t == o)
                  || (exists t :: t in w.tasks && WillTryClaim(w.tasks[t])))
            && (forall t, u :: t in w.tasks && u in w.tasks && Discovering(w.tasks[t]) && Discovering(w.tasks[u]) ==> t == u)
  {
    StartValid();
    RunKeeps(Start(), moves);
    var w := Run(Start(), moves);
    if w.shared.client.None? && w.shared.started {
      var o := w.owner.value;
      assert TaskOk(w.shared, w.nextClient, w.tasks[o]);
      assert WillDiscover(w.tasks[o]);
    }
  }

  /** Snapshots agree with the slot while their client is installed, no refresher ever concludes
      that a previous attempt failed, no client is refreshed twice, and a retry never goes to the
      client that failed. */
  lemma SnapshotCoherence(moves: seq<Move>, t: TaskId)
    requires Admissible(Start(), moves) && t in Run(Start(), moves).tasks
    ensures var w := Run(Start(), moves);
            var pc := w.tasks[t];
            && !pc.RefPrevious?
            && (pc.ReqSending? && w.shared.client == Some(pc.snap.client) ==> w.shared.attempt == pc.snap.attempt)
            && (pc.RefTrying? && w.shared.client == Some(pc.failed.client) ==> w.shared.attempt == pc.failed.attempt)
            && (pc.ReqRetrying? ==> pc.snap.client != pc.failed.client)
            && (forall i, j :: 0 <= i < j < |w.refreshed| ==> w.refreshed[i] != w.refreshed[j])
  {
    StartValid();
    RunKeeps(Start(), moves);
  }

  // ---------- Recovery is always within reach ----------

  lemma {:induction false} RunAppend(w: World, a: seq<Move>, b: seq<Move>)
    requires Admissible(w, a) && Admissible(Run(w, a), b)
    ensures Admissible(w, a + b) && Run(w, a + b) == Run(Run(w, a), b)
    decreases |a|
  {
    if a == [] {
      assert a + b == b;
    } else {
      assert (a + b)[0] == a[0] && (a + b)[1..] == a[1..] + b;
      RunAppend(Next(w, a[0]), a[1..], b);
    }
  }

  lemma RunOne(w: World, m: Move)
    requires Enabled(w, m)
    ensures Admissible(w, [m]) && Run(w, [m]) == Next(w, m)
  {
    assert [m][1..] == [];
    assert Admissible(Next(w, m), []);
  }

  /** How many steps the gate holder is from letting go, with no client installed. */
  function HolderWork(w: World): (r: nat) {
    if w.shared.gate.None? || w.shared.gate.value !in w.tasks then 0
    else
      match w.tasks[w.shared.gate.value]
      case InitChecking(_) => 2
      case RefDeciding(_) => 3
      case RefUsing(_) => 2
      case _ => 1
  }

  /** One move of the gate holder finds a client or brings the gate closer to free. */
  lemma HolderMoves(w: World) returns (m: Move)
    requires Valid(w) && w.shared.client.None? && w.shared.gate.Some?
    ensures Enabled(w, m)
    ensures Next(w, m).shared.client.Some?
            || (Next(w, m).owner == w.owner && HolderWork(Next(w, m)) < HolderWork(w))
  {
    var g := w.shared.gate.value;
    assert HoldsGate(w.tasks[g]) && TaskOk(w.shared, w.nextClient, w.tasks[g]);
    m := if w.tasks[g].InitDiscovering? then Discovered(g) else Advance(g);
  }

  /** With the gate free, an owner about to look can go straight through to a client. */
  lemma OwnerFinishes(w: World, o: TaskId) returns (moves: seq<Move>)
    requires o in w.tasks && w.tasks[o].InitWaiting? && w.shared.gate.None? && w.shared.client.None?
    ensures Admissible(w, moves) && Run(w, moves).shared.client.Some?
  {
    var w1 := Next(w, Advance(o));
    var w2 := Next(w1, Advance(o));
    RunOne(w, Advance(o));
    RunOne(w1, Advance(o));
    RunOne(w2, Discovered(o));
    RunAppend(w1, [Advance(o)], [Discovered(o)]);
    RunAppend(w, [Advance(o)], [Advance(o)] + [Discovered(o)]);
    moves := [Advance(o)] + ([Advance(o)] + [Discovered(o)]);
  }

  /** With the gate free and the claim free, a task that will try the claim gets it. */
  lemma TaskClaims(w: World) returns (moves: seq<Move>)
    requires Valid(w) && w.shared.client.None? && w.shared.gate.None? && w.owner.None?
    ensures Admissible(w, moves) && Run(w, moves).owner.Some?
  {
    var u :| u in w.tasks && WillTryClaim(w.tasks[u]);
    assert !HoldsGate(w.tasks[u]);
    if w.tasks[u].Claiming? {
      RunOne(w, Advance(u));
      moves := [Advance(u)];
    } else {
      var w1 := Next(w, Advance(u));
      RunOne(w, Advance(u));
      RunOne(w1, Advance(u));
      RunAppend(w, [Advance(u)], [Advance(u)]);
      moves := [Advance(u)] + [Advance(u)];
    }
  }

  ghost predicate OwnerSleeps(w: World) {
    w.owner.Some? && w.owner.value in w.tasks && w.tasks[w.owner.value].InitSleeping?
  }

  /** From every reachable state some run leads to an installed client: the protocol is never
      stuck with no client and nobody recovering. */
  lemma {:induction false} RecoveryWithinReach(w: World) returns (moves: seq<Move>)
    requires Valid(w)
    ensures Admissible(w, moves) && Run(w, moves).shared.client.Some?
    decreases w.owner.None?, HolderWork(w), OwnerSleeps(w)
  {
    if w.shared.client.Some? {
      moves := [];
    } else if w.shared.gate.None? && w.owner.Some? && !OwnerSleeps(w) {
      assert OwnsClaim(w.tasks[w.owner.value]) && !HoldsGate(w.tasks[w.owner.value]);
      moves := OwnerFinishes(w, w.owner.value);
    } else {
      var first: seq<Move>;
      if w.shared.gate.Some? {
        var m := HolderMoves(w);
        RunOne(w, m);
        first := [m];
      } else if w.owner.Some? {
        RunOne(w, Advance(w.owner.value));
        first := [Advance(w.owner.value)];
      } else {
        first := TaskClaims(w);
      }
      RunKeeps(w, first);
      var w1 := Run(w, first);
      if w1.shared.client.Some? {
        moves := first;
      } else {
        var rest := RecoveryWithinReach(w1);
        RunAppend(w, first, rest);
        moves := first + rest;
      }
    }
  }

  // ---------- Retry delays ----------

  function Doubled(n: nat): (r: nat) {
    if n == 0 then 1 else 2 * Doubled(n - 1)
  }

  /** The delay before retry number n + 1. */
  function RetryDelay(n: nat): (r: nat) {
    if n == 0 then INITIAL_RETRY_DELAY else NextRetryDelay(RetryDelay(n - 1))
  }

  /** Delays double from one second and stay at the cap once they would pass it. */
  lemma {:induction false} RetryDelayClosedForm(n: nat)
    ensures RetryDelay(n) == if Doubled(n) < MAX_RETRY_DELAY then Doubled(n) else MAX_RETRY_DELAY
  {
    if n > 0 { RetryDelayClosedForm(n - 1); }
  }
}
