/**
 How much work recovery takes. With no client installed, a rank bounds the steps that the gate
 holder, the claim owner and the tasks next to claim can still take before a client is installed
 or a discovery fails. No other task raises it, however many new requests come in.
 */
module TinfoilRecovery {
  import opened Options
  import opened Tinfoil

  /** What is left of a task that can still touch the gate, and of the owner's way to a client. */
  function Weight(pc: Pc): (r: nat) {
    match pc
    case InitSleeping(_) => 4
    case InitWaiting(_) => 3
    case InitChecking(_) => 2
    case InitDiscovering(_) => 1
    case InitLeaving => 1
    case ReqSending(_) => 6
    case RefTrying(_) => 5
    case RefDeciding(_) => 4
    case RefUsing(_) => 3
    case RefLeaving(_, _) => 2
    case RefDropping(_) => 2
    case _ => 0
  }

  function Load(tasks: map<TaskId, Pc>, n: nat): (r: nat) {
    if n == 0 then 0 else Load(tasks, n - 1) + if n - 1 in tasks then Weight(tasks[n - 1]) else 0
  }

  ghost predicate AnyClaiming(tasks: map<TaskId, Pc>) {
    exists t :: t in tasks && tasks[t].Claiming?
  }

  ghost predicate AnyStarting(tasks: map<TaskId, Pc>) {
    exists t :: t in tasks && tasks[t].Starting?
  }

  /** How far the nearest task is from holding the claim. */
  ghost function Phase(w: World): (r: nat) {
    if w.owner.Some? then 0 else if AnyClaiming(w.tasks) then 1 else if AnyStarting(w.tasks) then 2 else 3
  }

  ghost function Rank(w: World): (r: nat) {
    4 * Phase(w) + Load(w.tasks, w.nextTask)
  }

  /** The task holds the gate, owns the claim, or is one of the nearest to the claim. */
  ghost predicate Recovers(w: World, t: TaskId) {
    && t in w.tasks
    && (|| w.shared.gate == Some(t)
        || w.owner == Some(t)
        || (w.owner.None? && Phase(w) == match w.tasks[t]
                                         case Claiming(_) => 1
                                         case Starting(_) => 2
                                         case RefDropping(_) => 3
                                         case _ => 0))
  }

  // ---------- The load ----------

  lemma {:induction false} LoadUpdate(tasks: map<TaskId, Pc>, n: nat, t: TaskId, pc: Pc)
    ensures Load(tasks[t := pc], n) ==
            Load(tasks, n) + (if t < n then Weight(pc) - (if t in tasks then Weight(tasks[t]) else 0) else 0)
  {
    if n > 0 { LoadUpdate(tasks, n - 1, t, pc); }
  }

  /** The weight a step adds by starting a task. */
  function Spawned(w: World, w': World): (r: nat) {
    if w.nextTask in w'.tasks then Weight(w'.tasks[w.nextTask]) else 0
  }

  lemma TasksAfter(w: World, m: Move, w': World)
    requires Enabled(w, m) && w' == Next(w, m) && w.nextTask !in w.tasks
    ensures if m.NewRequest? then w'.nextTask == w.nextTask + 1 && w'.tasks == w.tasks[w.nextTask := Starting(RequestGoesOn)]
            else
              && m.t in w'.tasks
              && ((w'.nextTask == w.nextTask && w'.tasks == w.tasks[m.t := w'.tasks[m.t]])
                  || (w'.nextTask == w.nextTask + 1 && w.nextTask in w'.tasks
                      && w'.tasks == w.tasks[m.t := w'.tasks[m.t]][w.nextTask := w'.tasks[w.nextTask]]))
  {
  }

  lemma LoadAfter(w: World, m: Move, w': World)
    requires Enabled(w, m) && w' == Next(w, m) && forall t :: t in w.tasks ==> t < w.nextTask
    ensures m.NewRequest? ==> Load(w'.tasks, w'.nextTask) == Load(w.tasks, w.nextTask)
    ensures !m.NewRequest? ==> m.t in w'.tasks
    ensures !m.NewRequest? ==>
              Load(w'.tasks, w'.nextTask) == Load(w.tasks, w.nextTask) - Weight(w.tasks[m.t]) + Weight(w'.tasks[m.t]) + Spawned(w, w')
  {
    TasksAfter(w, m, w');
    if m.NewRequest? {
      LoadUpdate(w.tasks, w.nextTask, w.nextTask, Starting(RequestGoesOn));
    } else {
      var pc := w'.tasks[m.t];
      LoadUpdate(w.tasks, w.nextTask, m.t, pc);
      if w'.nextTask > w.nextTask {
        LoadUpdate(w.tasks[m.t := pc], w.nextTask, w.nextTask, w'.tasks[w.nextTask]);
      }
    }
  }

  /** With no client before and after, a step that is not a failed discovery lowers the weight of a
      gate holder or owner and raises nobody's, except that a successful claim starts an owner. */
  lemma WeightAfter(w: World, m: Move, w': World)
    requires Enabled(w, m) && w' == Next(w, m) && !m.NewRequest? && !m.DiscoveryFailed?
    requires w.shared.client.None? && w'.shared.client.None? && w.nextTask !in w.tasks
    requires TaskOk(w.shared, w.nextClient, w.tasks[m.t]) && (w.shared.started <==> w.owner.Some?)
    ensures m.t in w'.tasks
    ensures var before, after := Weight(w.tasks[m.t]), Weight(w'.tasks[m.t]) + Spawned(w, w');
            if w.tasks[m.t].Claiming? && w.owner.None? then after <= before + 3 && w'.owner.Some?
            else
              && w'.owner == w.owner && after <= before
              && (HoldsGate(w.tasks[m.t]) || OwnsClaim(w.tasks[m.t]) ==> after < before)
  {
  }

  lemma FailureAfter(w: World, m: Move, w': World)
    requires Enabled(w, m) && w' == Next(w, m) && m.DiscoveryFailed? && w.shared.client.None? && w.nextTask !in w.tasks
    requires TaskOk(w.shared, w.nextClient, w.tasks[m.t])
    ensures m.t in w'.tasks && w'.owner == w.owner && OwnsClaim(w.tasks[m.t])
    ensures Weight(w'.tasks[m.t]) + Spawned(w, w') == Weight(w.tasks[m.t]) + 3
  {
  }

  // ---------- The phase ----------

  lemma ClaimingMoves(w: World, m: Move, w': World, c: TaskId)
    requires Valid(w) && Enabled(w, m) && w' == Next(w, m) && w.owner.None? && c in w.tasks && w.tasks[c].Claiming?
    ensures if m.NewRequest? || m.t != c then c in w'.tasks && w'.tasks[c] == w.tasks[c] else w'.owner.Some?
  {
    OthersStay(w, m, w');
  }

  lemma StartingMoves(w: World, m: Move, w': World, c: TaskId)
    requires Valid(w) && Enabled(w, m) && w' == Next(w, m) && w.shared.client.None? && c in w.tasks && w.tasks[c].Starting?
    ensures c in w'.tasks && if m.NewRequest? || m.t != c then w'.tasks[c] == w.tasks[c] else w'.tasks[c].Claiming?
  {
    OthersStay(w, m, w');
  }

  lemma PhaseAfter(w: World, m: Move, w': World)
    requires Valid(w) && Enabled(w, m) && w' == Next(w, m) && w.shared.client.None?
    requires w.owner.Some? ==> w'.owner.Some?
    ensures Phase(w') <= Phase(w)
    ensures w.owner.None? && !m.NewRequest? && w.shared.gate != Some(m.t) && Recovers(w, m.t) ==> Phase(w') < Phase(w)
  {
    if w.owner.None? && AnyClaiming(w.tasks) {
      var c :| c in w.tasks && w.tasks[c].Claiming?;
      ClaimingMoves(w, m, w', c);
      if !m.NewRequest? && w.tasks[m.t].Claiming? { ClaimingMoves(w, m, w', m.t); }
    } else if w.owner.None? && AnyStarting(w.tasks) {
      var c :| c in w.tasks && w.tasks[c].Starting?;
      StartingMoves(w, m, w', c);
      if !m.NewRequest? && w.tasks[m.t].Starting? { StartingMoves(w, m, w', m.t); }
    } else if !m.NewRequest? && w.tasks[m.t].RefDropping? {
      assert HoldsGate(w.tasks[m.t]);
    }
  }

  // ---------- The rank ----------

  /** With no client before and after, no step raises the rank except a failed discovery, by three;
      every other step of a recovering task lowers it. */
  lemma RankAfter(w: World, m: Move, w': World)
    requires Valid(w) && Enabled(w, m) && w' == Next(w, m) && w.shared.client.None? && w'.shared.client.None?
    ensures Rank(w') <= Rank(w) + (if m.DiscoveryFailed? then 3 else 0)
    ensures !m.NewRequest? && !m.DiscoveryFailed? && Recovers(w, m.t) ==> Rank(w') < Rank(w)
  {
    LoadAfter(w, m, w');
    if m.NewRequest? {
      PhaseAfter(w, m, w');
    } else {
      assert TaskOk(w.shared, w.nextClient, w.tasks[m.t]);
      if m.DiscoveryFailed? {
        FailureAfter(w, m, w');
        PhaseAfter(w, m, w');
      } else {
        WeightAfter(w, m, w');
        PhaseAfter(w, m, w');
        if w.tasks[m.t].Claiming? && w.owner.None? { assert AnyClaiming(w.tasks); }
      }
    }
  }

  /** With no client installed a recovering task can always take a step that is no failure. */
  lemma SomeoneCanStep(w: World) returns (m: Move)
    requires Valid(w) && w.shared.client.None?
    ensures Enabled(w, m) && !m.NewRequest? && !m.DiscoveryFailed? && Recovers(w, m.t)
  {
    if w.shared.gate.Some? {
      var g := w.shared.gate.value;
      assert HoldsGate(w.tasks[g]) && TaskOk(w.shared, w.nextClient, w.tasks[g]);
      m := if w.tasks[g].InitDiscovering? then Discovered(g) else Advance(g);
    } else if w.owner.Some? {
      var o := w.owner.value;
      assert OwnsClaim(w.tasks[o]) && !HoldsGate(w.tasks[o]);
      m := Advance(o);
    } else {
      var c :| c in w.tasks && WillTryClaim(w.tasks[c]);
      assert !HoldsGate(w.tasks[c]);
      if AnyClaiming(w.tasks) { c :| c in w.tasks && w.tasks[c].Claiming?; }
      m := Advance(c);
    }
  }

  ghost predicate EmptyThroughout(w: World, moves: seq<Move>)
    requires Admissible(w, moves)
    decreases |moves|
  {
    w.shared.client.None? && (moves == [] || EmptyThroughout(Next(w, moves[0]), moves[1..]))
  }

  /** The steps that recovering tasks take in a run. */
  ghost function RecoverySteps(w: World, moves: seq<Move>): (r: nat)
    requires Admissible(w, moves)
    decreases |moves|
  {
    if moves == [] then 0
    else (if !moves[0].NewRequest? && Recovers(w, moves[0].t) then 1 else 0) + RecoverySteps(Next(w, moves[0]), moves[1..])
  }

  function Failures(moves: seq<Move>): (r: nat) {
    if moves == [] then 0 else (if moves[0].DiscoveryFailed? then 1 else 0) + Failures(moves[1..])
  }

  /** As long as no client is installed, the recovering tasks take at most as many steps as the rank
      says, plus four for each failed discovery, whatever other tasks and new requests do. As one
      of them can always step, they get to a client unless discovery goes on failing. */
  lemma {:induction false} RecoveryIsBounded(w: World, moves: seq<Move>)
    requires Valid(w) && Admissible(w, moves) && EmptyThroughout(w, moves)
    ensures RecoverySteps(w, moves) + Rank(Run(w, moves)) <= Rank(w) + 4 * Failures(moves)
    decreases |moves|
  {
    if moves != [] {
      var w1 := Next(w, moves[0]);
      RankAfter(w, moves[0], w1);
      StepKeeps(w, moves[0]);
      RecoveryIsBounded(w1, moves[1..]);
    }
  }
}
