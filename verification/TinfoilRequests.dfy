/**
 What becomes of a request over a run of the Tinfoil protocol: when it is sent, what its refresher
 hands back, where it is retried, and why it may end unsent. And how long an initializer sleeps.
 */
module TinfoilRequests {
  import opened Options
  import opened Tinfoil

  /** The state after the first `k` moves of a run. */
  function StateAt(w: World, moves: seq<Move>, k: nat): (r: World)
    requires Admissible(w, moves) && k <= |moves|
    decreases k
  {
    if k == 0 then w else StateAt(Next(w, moves[0]), moves[1..], k - 1)
  }

  // ---------- A request, from its start to its refresher ----------

  predicate IsRequest(pc: Pc) {
    || ((pc.Starting? || pc.Claiming?) && pc.after.RequestGoesOn?)
    || pc.ReqSnapshot? || pc.ReqSending? || pc.ReqWaiting? || pc.ReqRetrying?
  }

  /** A request that comes in while a client is installed is sent on a snapshot of that client, and
      one that finds the slot empty first tries the claim. */
  lemma RequestIsSent(w: World, t: TaskId)
    requires t in w.tasks
    ensures w.tasks[t] == Starting(RequestGoesOn) || w.tasks[t].ReqSnapshot? ==>
              Enabled(w, Advance(t)) && t in Next(w, Advance(t)).tasks
    ensures w.tasks[t] == Starting(RequestGoesOn) ==>
              Next(w, Advance(t)).tasks[t] == if w.shared.client.Some? then ReqSnapshot else Claiming(RequestGoesOn)
    ensures w.tasks[t].ReqSnapshot? ==>
              Next(w, Advance(t)).tasks[t] ==
              match w.shared.client
              case Some(c) => ReqSending(Snapshot(c, w.shared.attempt))
              case None => Done
  {
  }

  /** A request that cannot connect starts a refresher for its snapshot and waits for it. */
  lemma FailureStartsRefresher(w: World, t: TaskId)
    requires w.nextTask !in w.tasks && t in w.tasks && w.tasks[t].ReqSending?
    ensures Enabled(w, ConnectFailed(t))
    ensures var w' := Next(w, ConnectFailed(t)); var failed := w.tasks[t].snap;
            && t in w'.tasks && w'.tasks[t] == ReqWaiting(failed, w.nextTask)
            && w.nextTask in w'.tasks && w'.tasks[w.nextTask] == RefTrying(failed)
  {
  }

  /** A request that was sent, or that times out, is over. */
  lemma RequestIsOver(w: World, t: TaskId)
    requires t in w.tasks && (w.tasks[t].ReqSending? || w.tasks[t].ReqRetrying?)
    ensures Enabled(w, Sent(t)) && Enabled(w, TimedOut(t))
    ensures Next(w, Sent(t)) == w.(tasks := w.tasks[t := Done]) == Next(w, TimedOut(t))
  {
  }

  // ---------- What a refresher hands back ----------

  predicate IsRefresher(pc: Pc, failed: Snapshot) {
    pc == RefTrying(failed) || pc == RefDeciding(failed) || pc == RefUsing(failed) || pc == RefDiscovering(failed)
  }

  /** Where the answer of a refresher was decided: the move and the state it was made in. */
  predicate Decides(w: World, m: Move, r: TaskId, failed: Snapshot, result: Option<Snapshot>) {
    r in w.tasks &&
    match result
    case Some(snap) =>
      // it discovered a client itself, or found another one installed
      || (m == Discovered(r) && w.tasks[r] == RefDiscovering(failed)
          && snap == Snapshot(w.nextClient, (w.shared.attempt + 1) % U64_MODULUS))
      || (m == Advance(r) && w.tasks[r] == RefUsing(failed) && w.shared.client == Some(snap.client)
          && snap.attempt == w.shared.attempt && snap.client != failed.client)
    case None =>
      // the gate was busy, its discovery failed, or the slot was empty
      || (m == Advance(r) && w.tasks[r] == RefTrying(failed) && w.shared.gate.Some?)
      || (m == DiscoveryFailed(r) && w.tasks[r] == RefDiscovering(failed))
      || (m == Advance(r) && w.tasks[r] == RefUsing(failed) && w.shared.client.None?)
  }

  /** The refresher has its answer and is on its way to hand it over. */
  predicate Answered(pc: Pc, failed: Snapshot, result: Option<Snapshot>) {
    || pc == RefLeaving(failed, result) || pc == RefDone(failed, result)
    || (result.None? && (pc == RefDropping(failed) || pc == Starting(RefreshGivesUp(failed)) || pc == Claiming(RefreshGivesUp(failed))))
  }

  lemma RefresherStep(w: World, m: Move, w': World, r: TaskId, failed: Snapshot) returns (result: Option<Snapshot>)
    requires Valid(w) && Enabled(w, m) && w' == Next(w, m) && r in w.tasks && IsRefresher(w.tasks[r], failed)
    ensures r in w'.tasks
    ensures IsRefresher(w'.tasks[r], failed) || (Answered(w'.tasks[r], failed, result) && Decides(w, m, r, failed, result))
  {
    OthersStay(w, m, w');
    assert TaskOk(w.shared, w.nextClient, w.tasks[r]);
    result := if w'.tasks[r].RefLeaving? then w'.tasks[r].result else None;
  }

  lemma AnswerStays(w: World, m: Move, w': World, r: TaskId, failed: Snapshot, result: Option<Snapshot>)
    requires Valid(w) && Enabled(w, m) && w' == Next(w, m) && r in w.tasks && Answered(w.tasks[r], failed, result)
    ensures r in w'.tasks && Answered(w'.tasks[r], failed, result)
  {
    OthersStay(w, m, w');
  }

  lemma {:induction false} AnswerStaysOn(w: World, moves: seq<Move>, r: TaskId, failed: Snapshot, result: Option<Snapshot>)
    requires Valid(w) && Admissible(w, moves) && r in w.tasks && Answered(w.tasks[r], failed, result)
    ensures r in Run(w, moves).tasks && Answered(Run(w, moves).tasks[r], failed, result)
    decreases |moves|
  {
    if moves != [] {
      AnswerStays(w, moves[0], Next(w, moves[0]), r, failed, result);
      StepKeeps(w, moves[0]);
      AnswerStaysOn(Next(w, moves[0]), moves[1..], r, failed, result);
    }
  }

  /** Whatever a refresher hands back was decided on the way: a snapshot is of the client it
      discovered, or of another client it found installed; it hands back nothing only when the gate
      was busy, its discovery failed or the slot was empty. */
  lemma {:induction false} RefresherAnswer(w: World, moves: seq<Move>, r: TaskId, failed: Snapshot, result: Option<Snapshot>)
    returns (k: nat)
    requires Valid(w) && Admissible(w, moves) && r in w.tasks && IsRefresher(w.tasks[r], failed)
    requires r in Run(w, moves).tasks && Run(w, moves).tasks[r] == RefDone(failed, result)
    ensures k < |moves| && Decides(StateAt(w, moves, k), moves[k], r, failed, result)
    decreases |moves|
  {
    var w1 := Next(w, moves[0]);
    var decided := RefresherStep(w, moves[0], w1, r, failed);
    assert Valid(w1) by { StepKeeps(w, moves[0]); }
    if IsRefresher(w1.tasks[r], failed) {
      k := RefresherAnswer(w1, moves[1..], r, failed, result);
      k := k + 1;
    } else {
      AnswerStaysOn(w1, moves[1..], r, failed, decided);
      k := 0;
    }
  }

  // ---------- Retrying ----------

  /** A request whose refresher has handed back a snapshot goes on to retry on it; one whose
      refresher has nothing ends. */
  lemma WaitResumes(w: World, t: TaskId, r: TaskId, failed: Snapshot, result: Option<Snapshot>)
    requires t in w.tasks && w.tasks[t] == ReqWaiting(failed, r) && r in w.tasks && w.tasks[r] == RefDone(failed, result)
    ensures Enabled(w, Advance(t)) && t in Next(w, Advance(t)).tasks
    ensures Next(w, Advance(t)).tasks[t] == if result.Some? then ReqRetrying(failed, result.value) else Done
  {
  }

  /** The request waits for its answer, retries on `snap`, or is over. */
  predicate Served(w: World, t: TaskId, r: TaskId, failed: Snapshot, snap: Snapshot) {
    && t in w.tasks && r in w.tasks && Answered(w.tasks[r], failed, Some(snap))
    && (w.tasks[t] == ReqWaiting(failed, r) || w.tasks[t] == ReqRetrying(failed, snap))
  }

  lemma ServedStep(w: World, m: Move, w': World, t: TaskId, r: TaskId, failed: Snapshot, snap: Snapshot)
    requires Valid(w) && Enabled(w, m) && w' == Next(w, m) && Served(w, t, r, failed, snap)
    ensures Served(w', t, r, failed, snap) || m == Sent(t) || m == TimedOut(t)
  {
    OthersStay(w, m, w');
    AnswerStays(w, m, w', r, failed, Some(snap));
  }

  lemma {:induction false} ServedOn(w: World, moves: seq<Move>, t: TaskId, r: TaskId, failed: Snapshot, snap: Snapshot)
    requires Valid(w) && Admissible(w, moves) && Served(w, t, r, failed, snap)
    requires Sent(t) !in moves && TimedOut(t) !in moves
    ensures Served(Run(w, moves), t, r, failed, snap)
    decreases |moves|
  {
    if moves != [] {
      assert moves[0] in moves && forall m :: m in moves[1..] ==> m in moves;
      ServedStep(w, moves[0], Next(w, moves[0]), t, r, failed, snap);
      StepKeeps(w, moves[0]);
      ServedOn(Next(w, moves[0]), moves[1..], t, r, failed, snap);
    }
  }

  /** A request whose refresher discovers a client is retried on that very client: until it is sent
      or times out it waits for the answer or retries on a snapshot of the new client, and as soon
      as the refresher is done its next step is that retry. */
  lemma RetryOnDiscovered(w: World, t: TaskId, r: TaskId, failed: Snapshot, moves: seq<Move>)
    requires Valid(w) && t in w.tasks && w.tasks[t] == ReqWaiting(failed, r) && r in w.tasks && w.tasks[r] == RefDiscovering(failed)
    requires Admissible(Next(w, Discovered(r)), moves) && Sent(t) !in moves && TimedOut(t) !in moves
    ensures var w' := Run(Next(w, Discovered(r)), moves);
            var snap := Snapshot(w.nextClient, (w.shared.attempt + 1) % U64_MODULUS);
            && Served(w', t, r, failed, snap)
            && (w'.tasks[r].RefDone? && w'.tasks[t].ReqWaiting? ==>
                  Enabled(w', Advance(t)) && t in Next(w', Advance(t)).tasks && Next(w', Advance(t)).tasks[t] == ReqRetrying(failed, snap))
  {
    var w1 := Next(w, Discovered(r));
    var snap := Snapshot(w.nextClient, (w.shared.attempt + 1) % U64_MODULUS);
    StepKeeps(w, Discovered(r));
    ServedOn(w1, moves, t, r, failed, snap);
    var w' := Run(w1, moves);
    if w'.tasks[r].RefDone? && w'.tasks[t].ReqWaiting? { WaitResumes(w', t, r, failed, Some(snap)); }
  }

  // ---------- Why a request ends ----------

  /** The move that ends request `t`: it was sent, it timed out, no client was there for its snapshot,
      or its refresher had nothing. */
  predicate Ends(w: World, m: Move, t: TaskId) {
    t in w.tasks &&
    (|| (m == Sent(t) && (w.tasks[t].ReqSending? || w.tasks[t].ReqRetrying?))
     || m == TimedOut(t)
     || (m == Advance(t) && w.tasks[t].ReqSnapshot? && w.shared.client.None?)
     || (m == Advance(t) && w.tasks[t].ReqWaiting? && w.tasks[t].refresher in w.tasks
         && w.tasks[w.tasks[t].refresher] == RefDone(w.tasks[t].failed, None)))
  }

  lemma RequestStep(w: World, m: Move, w': World, t: TaskId)
    requires Valid(w) && Enabled(w, m) && w' == Next(w, m) && t in w.tasks && IsRequest(w.tasks[t])
    ensures t in w'.tasks && (IsRequest(w'.tasks[t]) || Ends(w, m, t))
  {
    OthersStay(w, m, w');
  }

  /** A request that is over was sent or timed out, or found no client at its snapshot, or had a
      refresher that got none. */
  lemma {:induction false} RequestEnds(w: World, moves: seq<Move>, t: TaskId) returns (k: nat)
    requires Valid(w) && Admissible(w, moves) && t in w.tasks && IsRequest(w.tasks[t])
    requires t in Run(w, moves).tasks && !IsRequest(Run(w, moves).tasks[t])
    ensures k < |moves| && Ends(StateAt(w, moves, k), moves[k], t)
    decreases |moves|
  {
    var w1 := Next(w, moves[0]);
    RequestStep(w, moves[0], w1, t);
    StepKeeps(w, moves[0]);
    if IsRequest(w1.tasks[t]) {
      k := RequestEnds(w1, moves[1..], t);
      k := k + 1;
    } else {
      k := 0;
    }
  }

  // ---------- How long an initializer sleeps ----------

  function FailuresOf(moves: seq<Move>, t: TaskId): (r: nat) {
    if moves == [] then 0 else (if moves[0] == DiscoveryFailed(t) then 1 else 0) + FailuresOf(moves[1..], t)
  }

  /** After `n` failed discoveries an initializer carries delay number n; while it sleeps, the one
      before. */
  predicate CarriesDelay(pc: Pc, n: nat) {
    match pc
    case InitWaiting(d) => d == RetryDelay(n)
    case InitChecking(d) => d == RetryDelay(n)
    case InitDiscovering(d) => d == RetryDelay(n)
    case InitSleeping(d) => 0 < n && d == RetryDelay(n - 1)
    case _ => true
  }

  predicate DelayIs(w: World, t: TaskId, n: nat) {
    if t in w.tasks then CarriesDelay(w.tasks[t], n) else n == 0
  }

  lemma OwnDelay(w: World, m: Move, w': World, n: nat)
    requires Enabled(w, m) && w' == Next(w, m) && !m.NewRequest? && w.nextTask !in w.tasks && CarriesDelay(w.tasks[m.t], n)
    ensures m.t in w'.tasks && CarriesDelay(w'.tasks[m.t], n + if m.DiscoveryFailed? then 1 else 0)
  {
  }

  lemma FirstDelay(w: World, m: Move, w': World)
    requires Enabled(w, m) && w' == Next(w, m) && w.nextTask !in w.tasks && w.nextTask in w'.tasks
    ensures CarriesDelay(w'.tasks[w.nextTask], 0)
  {
  }

  lemma DelayStep(w: World, m: Move, w': World, t: TaskId, n: nat)
    requires Enabled(w, m) && w' == Next(w, m) && w.nextTask !in w.tasks && DelayIs(w, t, n)
    ensures DelayIs(w', t, n + if m == DiscoveryFailed(t) then 1 else 0)
  {
    OthersStay(w, m, w');
    if t in w.tasks {
      if !m.NewRequest? && m.t == t { OwnDelay(w, m, w', n); }
    } else if t in w'.tasks {
      FirstDelay(w, m, w');
    }
  }

  /** Over every run an initializer that has failed n times sleeps for delay number n - 1 and then
      tries again with delay number n. */
  lemma {:induction false} DelaysFollow(w: World, moves: seq<Move>, t: TaskId, n: nat)
    requires Valid(w) && Admissible(w, moves) && DelayIs(w, t, n)
    ensures DelayIs(Run(w, moves), t, n + FailuresOf(moves, t))
    decreases |moves|
  {
    if moves != [] {
      var w1 := Next(w, moves[0]);
      assert w.nextTask !in w.tasks;
      DelayStep(w, moves[0], w1, t, n);
      StepKeeps(w, moves[0]);
      DelaysFollow(w1, moves[1..], t, n + if moves[0] == DiscoveryFailed(t) then 1 else 0);
    }
  }

  // ---------- The attempt counter ----------

  /** The moves of a run that install a client or take one out. */
  function SlotWrites(w: World, moves: seq<Move>): (r: nat)
    requires Admissible(w, moves)
    decreases |moves|
  {
    if moves == [] then 0
    else
      (if moves[0].Discovered? || (moves[0].DiscoveryFailed? && w.tasks[moves[0].t].RefDiscovering?) then 1 else 0)
      + SlotWrites(Next(w, moves[0]), moves[1..])
  }

  lemma AttemptStep(w: World, m: Move, w': World)
    requires Enabled(w, m) && w' == Next(w, m)
    ensures w'.shared.attempt ==
            if m.Discovered? || (m.DiscoveryFailed? && w.tasks[m.t].RefDiscovering?) then (w.shared.attempt + 1) % U64_MODULUS
            else w.shared.attempt
  {
  }

  lemma ModAdd(a: nat, b: nat)
    ensures ((a + 1) % U64_MODULUS + b) % U64_MODULUS == (a + 1 + b) % U64_MODULUS
  {
  }

  /** The counter counts, modulo 2^64, how often the slot was filled or emptied. */
  lemma {:induction false} AttemptCounts(w: World, moves: seq<Move>)
    requires Admissible(w, moves) && w.shared.attempt < U64_MODULUS
    ensures Run(w, moves).shared.attempt == (w.shared.attempt + SlotWrites(w, moves)) % U64_MODULUS
    decreases |moves|
  {
    if moves != [] {
      var w1 := Next(w, moves[0]);
      AttemptStep(w, moves[0], w1);
      AttemptCounts(w1, moves[1..]);
      ModAdd(w.shared.attempt, SlotWrites(w1, moves[1..]));
    }
  }
}
