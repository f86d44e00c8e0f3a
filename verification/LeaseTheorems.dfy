/**
 What every run of the session cache guarantees: leases pin their slot, a lease holder's
 `touch` succeeds, a purge pass accounts for every expired entry, and a fresh entry survives
 a bounded number of competing operations.
 */
module LeaseTheorems {
  import opened Options
  import opened RecencyList
  import opened LeaseCache
  import opened LeaseRuns

  // ---------- Lease residency ----------

  /** A lease never changes, and an identifier that is gone or unused stays out of use until
      it is handed out afresh. */
  lemma LeaseUnchangedByStep(w: World, e: Event, l: nat)
    requires Enabled(w, e) && l < w.nextLease && l in Next(w, e).leases
    ensures l in w.leases && l < Next(w, e).nextLease
    ensures Next(w, e).leases[l].(counted := true) == w.leases[l].(counted := true)
  {
  }

  lemma {:induction false} LeaseUnchanged(w: World, events: seq<Event>, l: nat)
    requires Valid(w) && Admissible(w, events) && l < w.nextLease
    requires l in Run(w, events).leases
    ensures l in w.leases
    ensures Run(w, events).leases[l].(counted := true) == w.leases[l].(counted := true)
    decreases |events|
  {
    if events != [] {
      StepKeeps(w, events[0]);
      assert l < Next(w, events[0]).nextLease;
      LeaseUnchanged(Next(w, events[0]), events[1..], l);
      LeaseUnchangedByStep(w, events[0], l);
    }
  }

  /** In every run the slot behind an outstanding lease, held or half dropped, is what looking
      up its key finds, and it still carries the value seen at acquisition. */
  lemma LeaseResidency(capacity: nat, ttl: nat, events: seq<Event>, l: nat)
    requires 0 < capacity && Admissible(Start(capacity, ttl), events)
    requires l in Run(Start(capacity, ttl), events).leases
    ensures var w := Run(Start(capacity, ttl), events);
            var lease := w.leases[l];
            && Holds(w.cache.entries, lease.key, lease.slot)
            && lease.slot in w.cache.slots
            && w.cache.slots[lease.slot].value == lease.value
            && w.cache.slots[lease.slot].HasExternalLease()
  {
    StartValid(capacity, ttl);
    RunKeeps(Start(capacity, ttl), events);
    var w := Run(Start(capacity, ttl), events);
    assert l in Handles(w.leases, w.leases[l].slot);
  }

  /** While any lease on `key` is outstanding, `touch` finds the entry, whatever the clock and
      whatever its checks answer, and leaves it in front with a fresh deadline. */
  lemma LeaseHolderTouches(w: World, l: nat, seen: set<SlotId>, now: nat)
    requires Valid(w) && l in w.leases && LeasedSlots(w.cache) <= seen
    ensures var (c, touched) := Touch(w.cache, seen, w.leases[l].key, now);
            touched && c.entries[0] == Entry(w.leases[l].key, w.leases[l].slot, now + c.ttl)
  {
    LeaseIsSeen(w.cache, w.leases, w.nextLease, l);
    TouchFinds(w.cache, seen, w.leases[l].key, w.leases[l].slot, now);
  }

  lemma LeaseIsSeen(c: Cache, leases: map<nat, Lease>, nextLease: nat, l: nat)
    requires LeasesResident(c, leases, nextLease) && CountsExact(c.slots, leases) && l in leases
    ensures Holds(c.entries, leases[l].key, leases[l].slot) && leases[l].slot in LeasedSlots(c)
  {
    assert l in Handles(leases, leases[l].slot);
  }

  lemma TouchFinds(c: Cache, seen: set<SlotId>, key: Key, slot: SlotId, now: nat)
    requires Holds(c.entries, key, slot) && slot in seen
    ensures var (d, touched) := Touch(c, seen, key, now);
            touched && d.entries[0] == Entry(key, slot, now + d.ttl)
  {
  }

  /** The session flow: once `acquire` has handed out a lease, any run in which that lease is
      not dropped leaves the session in place with its value, so the later `touch` succeeds. */
  lemma TouchAfterAcquireSucceeds(w: World, e: Event, events: seq<Event>, seen: set<SlotId>, now: nat)
    requires Valid(w) && e.DoAcquire? && Enabled(w, e)
    requires Acquire(w.cache, e.seen, e.key, e.now).1.Some?
    requires Admissible(Next(w, e), events)
    requires var w' := Run(Next(w, e), events); w.nextLease in w'.leases && LeasedSlots(w'.cache) <= seen
    ensures var s := Acquire(w.cache, e.seen, e.key, e.now).1.value;
            var w' := Run(Next(w, e), events);
            && s in w.cache.slots && s in w'.cache.slots
            && w'.cache.slots[s].value == w.cache.slots[s].value
            && Holds(w'.cache.entries, e.key, s)
            && Touch(w'.cache, seen, e.key, now).1
  {
    var w1, w' := Next(w, e), Run(Next(w, e), events);
    assert Valid(w1) && Valid(w') by {
      StepKeeps(w, e);
      RunKeeps(w1, events);
    }
    AcquireHands(w, e, w1);
    LeaseUnchanged(w1, events, w.nextLease);
    LeaseHolderTouches(w', w.nextLease, seen, now);
  }

  /** A successful acquisition adds the lease it hands out. */
  lemma AcquireHands(w: World, e: Event, w': World)
    requires e.DoAcquire? && Enabled(w, e) && w' == Next(w, e) && Acquire(w.cache, e.seen, e.key, e.now).1.Some?
    ensures var s := Acquire(w.cache, e.seen, e.key, e.now).1.value;
            && s in w.cache.slots && w'.nextLease == w.nextLease + 1 && w.nextLease in w'.leases
            && w'.leases[w.nextLease] == Lease(s, e.key, w.cache.slots[s].value, true)
  {
  }

  // ---------- The purge pass ----------

  /** The snapshot of a pass changes nothing and lists exactly the keys expired at the cutoff and found
      unleased, least recent first. */
  lemma SnapshotExact(w: World, e: Event)
    requires Valid(w) && e.DoSnapshot? && Enabled(w, e)
    ensures var w' := Next(w, e);
            && w'.cache == w.cache && w'.leases == w.leases && w'.pass.cutoff == e.cutoff
            && w'.pass.todo == KeysOf(Reversed(Filter(w.cache.entries, (x: Entry<Key, SlotId>) => x.expiresAt <= e.cutoff && x.payload !in e.seen)))
            && w'.pass.retired == [] && w'.pass.count == 0
  {
    ScanIsFilter(w.cache.entries, e.seen, e.cutoff);
  }

  /** One lock hold of the purge: the survivors are the others in their order, so no entry live
      at the cutoff and none found leased goes; what goes was due, and is at most one batch. */
  lemma RetireStepExact(w: World, e: Event)
    requires Valid(w) && e.DoRetire? && Enabled(w, e)
    ensures var w' := Next(w, e);
            var batch := Batch(w.pass.todo);
            var due := (x: Entry<Key, SlotId>) =>
              x.key in batch && x.expiresAt <= w.pass.cutoff && x.payload !in e.seen;
            && w'.cache.entries == Filter(w.cache.entries, (x: Entry<Key, SlotId>) => !due(x))
            && |w'.pass.retired| == |w.pass.retired| + (|w.cache.entries| - |w'.cache.entries|)
            && w'.pass.count - w.pass.count == |w.cache.entries| - |w'.cache.entries| <= 4096
            && (forall x :: x in w.cache.entries && due(x) ==> x.payload !in LeasedSlots(w.cache))
  {
    var batch := Batch(w.pass.todo);
    RetireIsFilter(w.cache, e.seen, batch, w.pass.cutoff);
    RetiredExactly(w.cache, e.seen, batch, w.pass.cutoff);
    FilterSame(w.cache.entries,
      (x: Entry<Key, SlotId>) => !(x.key in batch && x.expiresAt <= w.pass.cutoff && x.payload !in e.seen),
      (x: Entry<Key, SlotId>) => !((y: Entry<Key, SlotId>) =>
        y.key in batch && y.expiresAt <= w.pass.cutoff && y.payload !in e.seen)(x));
  }

  /** Slot `s` is expired and found leased by the check at event `e`: the snapshot, or a batch that
      holds its key. */
  ghost predicate FoundBy(w: World, e: Event, s: SlotId) {
    || (e.DoSnapshot? && s in FoundLeasedAnywhere(w.cache.entries, e.seen, e.cutoff))
    || (e.DoRetire? && s in FoundLeased(w.cache.entries, Batch(w.pass.todo), e.seen, w.pass.cutoff))
  }

  /** The check at event `n` of the last pass found `s` leased, and it was: event `k` took the lock
      for that check while a lease on `s` was outstanding, and only lease drops came in between. */
  ghost predicate LeasedWhenChecked(w: World, events: seq<Event>, s: SlotId, k: nat, n: nat)
    requires Admissible(w, events)
  {
    && n < |events| && HeldSince(w, events, k, n)
    && FoundBy(StateAt(w, events, n), events[n], s)
    && HasLease(StateAt(w, events, k).leases, s)
    && (forall j :: n < j < |events| ==> !events[j].DoSnapshot?)
  }

  /** After the run, every entry still expired at the cutoff of the last pass was leased when that
      pass checked it. */
  ghost predicate OnlyLeasedRemain(w: World, events: seq<Event>)
    requires Admissible(w, events)
  {
    var w' := Run(w, events);
    forall i :: 0 <= i < |w'.cache.entries| && w'.cache.entries[i].expiresAt <= w'.pass.cutoff ==>
      exists k: nat, n: nat :: LeasedWhenChecked(w, events, w'.cache.entries[i].payload, k, n)
  }

  /** A slot the pass excused was found leased by one of its checks. */
  lemma ExcusedByStep(w: World, e: Event, w': World, s: SlotId)
    requires Enabled(w, e) && w' == Next(w, e) && s in w'.pass.excused
    ensures FoundBy(w, e, s) || (s in w.pass.excused && !e.DoSnapshot?)
  {
  }

  lemma {:induction false} ExcusedByCheck(w: World, events: seq<Event>, n: nat, s: SlotId) returns (m: nat)
    requires Admissible(w, events) && n <= |events| && s in StateAt(w, events, n).pass.excused
    requires s in w.pass.excused ==> exists j :: 0 <= j < n && events[j].DoSnapshot?
    ensures m < n && FoundBy(StateAt(w, events, m), events[m], s)
    ensures forall j :: m < j < n ==> !events[j].DoSnapshot?
    decreases n
  {
    if n == 0 {
      assert false;
    } else {
      m := n - 1;
      StateSteps(w, events, n - 1);
      ExcusedByStep(StateAt(w, events, n - 1), events[n - 1], StateAt(w, events, n), s);
      if !FoundBy(StateAt(w, events, n - 1), events[n - 1], s) {
        m := ExcusedByCheck(w, events, n - 1, s);
      }
    }
  }

  lemma LeasedHaveHandles(w: World, events: seq<Event>, k: nat, locked: World)
    requires Valid(w) && Admissible(w, events) && k <= |events| && locked == StateAt(w, events, k)
    ensures forall s :: s in LeasedSlots(locked.cache) ==> HasLease(locked.leases, s)
  {
    StateKeeps(w, events, k);
    forall s | s in LeasedSlots(locked.cache)
      ensures HasLease(locked.leases, s)
    {
      LeasedHasHandle(locked.cache, locked.leases, s);
    }
  }

  /** A check finds leased only slots that had an outstanding lease when its lock was taken. */
  lemma SeenWasLeased(w: World, events: seq<Event>, n: nat) returns (k: nat)
    requires Valid(w) && w.hold.None? && Admissible(w, events) && n < |events| && !events[n].DoLock? && !IsDrop(events[n])
    ensures HeldSince(w, events, k, n)
    ensures forall s :: s in events[n].seen ==> HasLease(StateAt(w, events, k).leases, s)
  {
    var e, v := events[n], StateAt(w, events, n);
    assert v.hold.Some? && e.seen <= v.hold.value by { StateSteps(w, events, n); }
    k := HoldBegan(w, events, n);
    LeasedHaveHandles(w, events, k, StateAt(w, events, k));
  }

  lemma ExcusedWasLeased(w: World, events: seq<Event>, s: SlotId)
    requires Valid(w) && w.hold.None? && Admissible(w, events) && s in Run(w, events).pass.excused
    requires s in w.pass.excused ==> exists j :: 0 <= j < |events| && events[j].DoSnapshot?
    ensures exists k: nat, n: nat :: LeasedWhenChecked(w, events, s, k, n)
  {
    StateEnds(w, events);
    var n := ExcusedByCheck(w, events, |events|, s);
    var k := SeenWasLeased(w, events, n);
    assert LeasedWhenChecked(w, events, s, k, n);
  }

  lemma PassLeavesLeased(w: World, events: seq<Event>)
    requires Valid(w) && w.hold.None? && Admissible(w, events) && 0 < w.cache.ttl && Run(w, events).pass.todo == []
    requires w.pass.excused == {} || exists j :: 0 <= j < |events| && events[j].DoSnapshot?
    ensures OnlyLeasedRemain(w, events)
  {
    RunKeeps(w, events);
    LimitsFixed(w, events);
    var w' := Run(w, events);
    forall i | 0 <= i < |w'.cache.entries| && w'.cache.entries[i].expiresAt <= w'.pass.cutoff
      ensures exists k: nat, n: nat :: LeasedWhenChecked(w, events, w'.cache.entries[i].payload, k, n)
    {
      ExcusedWasLeased(w, events, w'.cache.entries[i].payload);
    }
  }

  /** When a pass is through, only entries that were leased when it checked them remain expired at
      its cutoff; the total is the number of slots it removed, each once, each expired at the
      cutoff, none of them in the cache any more. */
  lemma PurgeAccounts(capacity: nat, ttl: nat, events: seq<Event>)
    requires 0 < capacity && Admissible(Start(capacity, ttl), events)
    requires Run(Start(capacity, ttl), events).pass.todo == []
    ensures 0 < ttl ==> OnlyLeasedRemain(Start(capacity, ttl), events)
    ensures PassCounts(Run(Start(capacity, ttl), events).cache, Run(Start(capacity, ttl), events).pass)
  {
    StartValid(capacity, ttl);
    RunKeeps(Start(capacity, ttl), events);
    if 0 < ttl { PassLeavesLeased(Start(capacity, ttl), events); }
  }

  /** When an insertion is refused because all entries are leased, they were: each had an
      outstanding lease when the lock for the insertion was taken. */
  lemma AllLeasedIsTrue(w: World, events: seq<Event>, n: nat) returns (k: nat)
    requires Valid(w) && w.hold.None? && Admissible(w, events) && n < |events| && events[n].DoInsert?
    requires var e, v := events[n], StateAt(w, events, n);
             InsertEvicting(v.cache, e.seen, e.key, e.value, e.now).1 == Failure(AllEntriesLeased)
    ensures HeldSince(w, events, k, n)
    ensures var locked := StateAt(w, events, k);
            && |locked.cache.entries| == locked.cache.capacity
            && forall i :: 0 <= i < |locked.cache.entries| ==> HasLease(locked.leases, locked.cache.entries[i].payload)
  {
    k := SeenWasLeased(w, events, n);
    var v := StateAt(w, events, n);
    assert |v.cache.entries| == v.cache.capacity by { StateKeeps(w, events, n); }
    SameLimitsAt(w, events, k, n);
    assert forall i :: 0 <= i < |v.cache.entries| ==> v.cache.entries[i].payload in events[n].seen;
  }

  lemma {:induction false} SameLimitsAt(w: World, events: seq<Event>, k: nat, n: nat)
    requires Admissible(w, events) && k <= n <= |events|
    ensures (StateAt(w, events, n).cache.ttl, StateAt(w, events, n).cache.capacity) ==
            (StateAt(w, events, k).cache.ttl, StateAt(w, events, k).cache.capacity)
    ensures StateAt(w, events, k).nextLease <= StateAt(w, events, n).nextLease
    decreases n
  {
    if k < n {
      SameLimitsAt(w, events, k, n - 1);
      StateSteps(w, events, n - 1);
      LimitsFixedByStep(StateAt(w, events, n - 1), events[n - 1]);
    }
  }

  lemma LimitsFixedByStep(w: World, e: Event)
    requires Enabled(w, e)
    ensures Next(w, e).cache.ttl == w.cache.ttl && Next(w, e).cache.capacity == w.cache.capacity
    ensures w.nextLease <= Next(w, e).nextLease
  {
    if e.DoRetire? { RetireLimits(w.cache, e.seen, Batch(w.pass.todo), w.pass.cutoff); }
  }

  lemma LimitsFixed(w: World, events: seq<Event>)
    requires Admissible(w, events)
    ensures Run(w, events).cache.ttl == w.cache.ttl && Run(w, events).cache.capacity == w.cache.capacity
  {
    StateEnds(w, events);
    SameLimitsAt(w, events, 0, |events|);
  }

  /** An insertion right after the snapshot of a pass. */
  function EscapeEvents(key: Key, value: Value): (r: seq<Event>) {
    [DoLock] + ([DoSnapshot(0, 0, {})] + ([DoLock] + ([DoInsert(key, value, 0, {})] + [])))
  }

  lemma RunCons(w: World, e: Event, rest: seq<Event>)
    requires Enabled(w, e) && Admissible(Next(w, e), rest)
    ensures Admissible(w, [e] + rest) && Run(w, [e] + rest) == Run(Next(w, e), rest)
  {
    assert ([e] + rest)[1..] == rest;
  }

  /** With a zero TTL the accounting fails: an entry inserted right after the snapshot, at the
      very instant of the cutoff, is expired there and never looked at, though nothing was ever
      leased. */
  lemma ZeroTtlEscapesPurge(capacity: nat, key: Key, value: Value)
    requires 0 < capacity
    ensures Admissible(Start(capacity, 0), EscapeEvents(key, value))
    ensures var w := Run(Start(capacity, 0), EscapeEvents(key, value));
            && w.pass.todo == [] && w.nextLease == 0
            && |w.cache.entries| == 1 && w.cache.entries[0].expiresAt <= w.pass.cutoff
  {
    var e1, e3 := DoSnapshot(0, 0, {}), DoInsert(key, value, 0, {});
    var w0 := Start(capacity, 0);
    assert LeasedSlots(w0.cache) == {};
    var w1 := Next(w0, DoLock);
    var w2 := Next(w1, e1);
    var w3 := Next(w2, DoLock);
    RunCons(w3, e3, []);
    RunCons(w2, DoLock, [e3] + []);
    RunCons(w1, e1, [DoLock] + ([e3] + []));
    RunCons(w0, DoLock, [e1] + ([DoLock] + ([e3] + [])));
  }

  /** A run that never leased anything has no entry that was leased when checked. */
  lemma NothingLeased(w: World, events: seq<Event>, s: SlotId, k: nat, n: nat)
    requires Valid(w) && Admissible(w, events) && Run(w, events).nextLease == 0
    ensures !LeasedWhenChecked(w, events, s, k, n)
  {
    if LeasedWhenChecked(w, events, s, k, n) {
      StateEnds(w, events);
      SameLimitsAt(w, events, k, |events|);
      StateKeeps(w, events, k);
    }
  }

  /** So the accounting holds over all runs exactly when the TTL is positive. */
  lemma PurgeAccountsIffTtl(capacity: nat, ttl: nat, key: Key, value: Value)
    requires 0 < capacity
    ensures 0 < ttl <==>
              forall events :: Admissible(Start(capacity, ttl), events) && Run(Start(capacity, ttl), events).pass.todo == [] ==>
                OnlyLeasedRemain(Start(capacity, ttl), events)
  {
    if 0 < ttl {
      forall events | Admissible(Start(capacity, ttl), events) && Run(Start(capacity, ttl), events).pass.todo == []
        ensures OnlyLeasedRemain(Start(capacity, ttl), events)
      {
        PurgeAccounts(capacity, ttl, events);
      }
    } else {
      var events := EscapeEvents(key, value);
      ZeroTtlEscapesPurge(capacity, key, value);
      StartValid(capacity, 0);
      var s := Run(Start(capacity, 0), events).cache.entries[0].payload;
      forall k: nat, n: nat
        ensures !LeasedWhenChecked(Start(capacity, 0), events, s, k, n)
      {
        NothingLeased(Start(capacity, 0), events, s, k, n);
      }
      assert !OnlyLeasedRemain(Start(capacity, 0), events);
    }
  }

  /** What happens before one batch check: the events of other tasks, then the check itself. */
  datatype Round = Round(events: seq<Event>, now: nat, seen: set<SlotId>)

  predicate Foreign(e: Event) {
    !e.DoSnapshot? && !e.DoRetire?
  }

  /** `rounds` schedules exactly the batches the pass in `w` still needs. */
  ghost predicate Scheduled(w: World, rounds: seq<Round>)
    decreases |rounds|
  {
    if rounds == [] then w.pass.todo == []
    else
      var r := rounds[0];
      && w.pass.todo != []
      && (forall i :: 0 <= i < |r.events| ==> Foreign(r.events[i]))
      && Admissible(w, r.events)
      && Enabled(Run(w, r.events), DoRetire(r.now, r.seen))
      && Scheduled(Next(Run(w, r.events), DoRetire(r.now, r.seen)), rounds[1..])
  }

  lemma {:induction false} ForeignLeavesPass(w: World, events: seq<Event>)
    requires Admissible(w, events)
    requires forall i :: 0 <= i < |events| ==> Foreign(events[i])
    ensures Run(w, events).pass == w.pass
    decreases |events|
  {
    if events != [] {
      assert Foreign(events[0]);
      ForeignLeavesPass(Next(w, events[0]), events[1..]);
    }
  }

  /** The purge of the session cache: a snapshot, then one lock hold per batch, with whatever
      other tasks do in between. It returns the number of entries its lock holds removed; `trace`
      is the whole run. */
  method PurgeExpiredSessions(start: World, opening: Round, cutoff: nat, rounds: seq<Round>)
    returns (w: World, sessionCount: nat, ghost trace: seq<Event>)
    requires Valid(start) && start.hold.None? && Admissible(start, opening.events)
    requires Enabled(Run(start, opening.events), DoSnapshot(cutoff, opening.now, opening.seen))
    requires Scheduled(Next(Run(start, opening.events), DoSnapshot(cutoff, opening.now, opening.seen)), rounds)
    ensures Valid(w) && w.pass.cutoff == cutoff && w.pass.todo == []
    ensures sessionCount == |w.pass.retired|
    ensures Admissible(start, trace) && w == Run(start, trace)
    ensures 0 < start.cache.ttl ==> OnlyLeasedRemain(start, trace)
  {
    var snapshot := DoSnapshot(cutoff, opening.now, opening.seen);
    RunKeeps(start, opening.events);
    StepKeeps(Run(start, opening.events), snapshot);
    ExtendRun(start, opening.events, snapshot);
    trace := opening.events + [snapshot];
    w := Next(Run(start, opening.events), snapshot);
    sessionCount := 0;
    var k := 0;
    while w.pass.todo != []
      invariant 0 <= k <= |rounds|
      invariant Valid(w) && w.pass.cutoff == cutoff
      invariant sessionCount == |w.pass.retired|
      invariant Scheduled(w, rounds[k..])
      invariant Admissible(start, trace) && w == Run(start, trace)
      invariant |opening.events| < |trace| && trace[|opening.events|] == snapshot
      decreases |rounds| - k
    {
      var r := rounds[k];
      var e := DoRetire(r.now, r.seen);
      assert rounds[k..][1..] == rounds[k + 1..];
      BatchStep(w, r);
      RunAppend(start, trace, r.events);
      ExtendRun(start, trace + r.events, e);
      trace := trace + r.events + [e];
      w := Run(w, r.events);
      var before := |w.cache.entries|;
      w := Next(w, e);
      sessionCount := sessionCount + (before - |w.cache.entries|);
      k := k + 1;
    }
    if 0 < start.cache.ttl { PassLeavesLeased(start, trace); }
  }

  lemma ExtendRun(w: World, events: seq<Event>, e: Event)
    requires Admissible(w, events) && Enabled(Run(w, events), e)
    ensures Admissible(w, events + [e]) && Run(w, events + [e]) == Next(Run(w, events), e)
  {
    RunCons(Run(w, events), e, []);
    assert [e] + [] == [e];
    RunAppend(w, events, [e]);
  }

  /** One round of the batch loop: the others leave the pass alone, and the check counts what it
      removes. */
  lemma BatchStep(w: World, r: Round)
    requires Valid(w) && Admissible(w, r.events) && (forall i :: 0 <= i < |r.events| ==> Foreign(r.events[i]))
    requires Enabled(Run(w, r.events), DoRetire(r.now, r.seen))
    ensures var w1 := Run(w, r.events); var w2 := Next(w1, DoRetire(r.now, r.seen));
            && Valid(w2) && w2.pass.cutoff == w.pass.cutoff
            && |w2.pass.retired| == |w.pass.retired| + (|w1.cache.entries| - |w2.cache.entries|)
            && |w2.cache.entries| <= |w1.cache.entries|
  {
    var w1, e := Run(w, r.events), DoRetire(r.now, r.seen);
    RunKeeps(w, r.events);
    ForeignLeavesPass(w, r.events);
    StepKeeps(w1, e);
    RetireStepExact(w1, e);
  }

  // ---------- How long a fresh entry survives ----------

  /** How many entries a check with answers `seen` treats as leased. */
  function Pinned(es: seq<Entry<Key, SlotId>>, seen: set<SlotId>): (r: nat) {
    if es == [] then 0
    else Pinned(es[..|es| - 1], seen) + if es[|es| - 1].payload in seen then 1 else 0
  }

  /** One for an operation that can push `key` back: an insertion, or a touch of another key. */
  function Push(e: Event, key: Key): (r: nat) {
    if e.DoInsert? || (e.DoTouch? && e.key != key) then 1 else 0
  }

  function Pressure(events: seq<Event>, key: Key): (r: nat) {
    if events == [] then 0 else Push(events[0], key) + Pressure(events[1..], key)
  }

  /** Throughout the run the clock stays before `deadline`, and whenever an insertion looks for
      a victim it finds at most `leased` entries leased. */
  ghost predicate Calm(w: World, events: seq<Event>, deadline: nat, leased: nat)
    requires Admissible(w, events)
    decreases |events|
  {
    events == [] ||
    (&& (match events[0]
         case DoLock => true
         case DoInsert(_, _, now, seen) => now < deadline && Pinned(w.cache.entries, seen) <= leased
         case DoAcquire(_, now, _) => now < deadline
         case DoTouch(_, now, _) => now < deadline
         case DoRelease(_) => true
         case DoDrop(_) => true
         case DoSnapshot(_, now, _) => now < deadline
         case DoRetire(now, _) => now < deadline)
     && Calm(Next(w, events[0]), events[1..], deadline, leased))
  }

  /** When all entries behind `i` are found leased there are at least that many. */
  lemma {:induction false} PinnedBehind(es: seq<Entry<Key, SlotId>>, seen: set<SlotId>, i: nat)
    requires i < |es| && forall j :: i < j < |es| ==> es[j].payload in seen
    ensures |es| - 1 - i <= Pinned(es, seen)
  {
    if i < |es| - 1 { PinnedBehind(es[..|es| - 1], seen, i); }
  }

  /** An entry with more than `leased` entries behind it is not the victim. */
  lemma NotTheVictim(es: seq<Entry<Key, SlotId>>, seen: set<SlotId>, i: nat, leased: nat)
    requires i + leased + 1 < |es| && Pinned(es, seen) <= leased
    ensures EvictionIndex(es, seen) != i
  {
    if EvictionIndex(es, seen) == i { PinnedBehind(es, seen, i); }
  }

  lemma {:induction false} RetireLeavesAt(c: Cache, seen: set<SlotId>, keys: seq<Key>, cutoff: nat, key: Key, slot: SlotId, deadline: nat, depth: int)
    requires DistinctKeys(c.entries) && cutoff < deadline && At(c.entries, key, slot, deadline, depth)
    ensures At(RetireCandidates(c, seen, keys, cutoff).0.entries, key, slot, deadline, depth)
    decreases |keys|
  {
    if keys != [] {
      var i := IndexOf(c.entries, keys[0]);
      if i >= 0 && Removable(c.entries, seen, i, cutoff) {
        RemoveLeavesAt(c.entries, i, key, slot, deadline, depth);
        RetireLeavesAt(Detach(c, i), seen, keys[1..], cutoff, key, slot, deadline, depth);
      } else {
        RetireLeavesAt(c, seen, keys[1..], cutoff, key, slot, deadline, depth);
      }
    }
  }

  lemma EvictLeavesAt(es: seq<Entry<Key, SlotId>>, seen: set<SlotId>, e: Entry<Key, SlotId>,
                      key: Key, slot: SlotId, deadline: nat, depth: int, leased: nat)
    requires DistinctKeys(es) && At(es, key, slot, deadline, depth) && EvictionIndex(es, seen) >= 0 && e.key != key
    requires Pinned(es, seen) <= leased && depth + leased + 1 < |es|
    ensures At([e] + RemoveAt(es, EvictionIndex(es, seen)), key, slot, deadline, depth + 1)
  {
    var i := EvictionIndex(es, seen);
    NotTheVictim(es, seen, IndexOf(es, key), leased);
    RemoveLeavesAt(es, i, key, slot, deadline, depth);
    FrontPushesAt(e, RemoveAt(es, i), key, slot, deadline, depth);
  }

  lemma InsertLeavesAt(c: Cache, seen: set<SlotId>, k: Key, value: Value, now: nat,
                       key: Key, slot: SlotId, deadline: nat, depth: int, leased: nat)
    requires WellFormed(c) && At(c.entries, key, slot, deadline, depth)
    requires Pinned(c.entries, seen) <= leased && depth + leased + 1 < c.capacity
    ensures At(InsertEvicting(c, seen, k, value, now).0.entries, key, slot, deadline, depth + 1)
  {
    var es := c.entries;
    if IndexOf(es, k) < 0 {
      if |es| < c.capacity {
        FrontPushesAt(Entry(k, c.nextSlot, now + c.ttl), es, key, slot, deadline, depth);
      } else if EvictionIndex(es, seen) >= 0 {
        EvictLeavesAt(es, seen, Entry(k, c.nextSlot, now + c.ttl), key, slot, deadline, depth, leased);
      }
    }
  }

  lemma MoveLeavesAt(es: seq<Entry<Key, SlotId>>, i: nat, due: nat, key: Key, slot: SlotId, deadline: nat, depth: int)
    requires DistinctKeys(es) && At(es, key, slot, deadline, depth) && i < |es| && deadline <= due
    ensures At([es[i].(expiresAt := due)] + RemoveAt(es, i), key, slot, deadline, if es[i].key == key then depth else depth + 1)
  {
    if es[i].key != key {
      RemoveLeavesAt(es, i, key, slot, deadline, depth);
      FrontPushesAt(es[i].(expiresAt := due), RemoveAt(es, i), key, slot, deadline, depth);
    }
  }

  lemma TouchLeavesAt(c: Cache, seen: set<SlotId>, k: Key, now: nat, key: Key, slot: SlotId, deadline: nat, depth: int)
    requires WellFormed(c) && At(c.entries, key, slot, deadline, depth)
    requires now < deadline <= now + c.ttl
    ensures At(Touch(c, seen, k, now).0.entries, key, slot, deadline, if k == key then depth else depth + 1)
  {
    var i := IndexOf(c.entries, k);
    if i >= 0 {
      if Removable(c.entries, seen, i, now) {
        RemoveLeavesAt(c.entries, i, key, slot, deadline, depth);
      } else {
        MoveLeavesAt(c.entries, i, now + c.ttl, key, slot, deadline, depth);
      }
    }
  }

  lemma AcquireLeavesAt(c: Cache, seen: set<SlotId>, k: Key, now: nat, key: Key, slot: SlotId, deadline: nat, depth: int)
    requires WellFormed(c) && At(c.entries, key, slot, deadline, depth) && now < deadline
    ensures At(Acquire(c, seen, k, now).0.entries, key, slot, deadline, depth)
  {
    var i := IndexOf(c.entries, k);
    if i >= 0 && Removable(c.entries, seen, i, now) {
      RemoveLeavesAt(c.entries, i, key, slot, deadline, depth);
    }
  }

  lemma ApplyLeavesAt(w: World, e: Event, key: Key, slot: SlotId, deadline: nat, depth: int, leased: nat)
    requires WellFormed(w.cache) && Ready(w, e) && w.pass.cutoff <= w.clock && deadline <= w.clock + w.cache.ttl
    requires (e.DoInsert? || e.DoAcquire? || e.DoTouch? || e.DoSnapshot? || e.DoRetire? ==> e.now < deadline)
    requires e.DoInsert? ==> Pinned(w.cache.entries, e.seen) <= leased
    requires At(w.cache.entries, key, slot, deadline, depth)
    requires depth + Push(e, key) + leased < w.cache.capacity
    ensures At(Apply(w, e).cache.entries, key, slot, deadline, depth + Push(e, key))
  {
    match e
    case DoInsert(k, value, now, seen) =>
      InsertLeavesAt(w.cache, seen, k, value, now, key, slot, deadline, depth, leased);
    case DoAcquire(k, now, seen) =>
      AcquireLeavesAt(w.cache, seen, k, now, key, slot, deadline, depth);
    case DoTouch(k, now, seen) =>
      TouchLeavesAt(w.cache, seen, k, now, key, slot, deadline, depth);
    case DoLock =>
    case DoRelease(_) =>
    case DoDrop(_) =>
    case DoSnapshot(_, _, _) =>
    case DoRetire(_, seen) =>
      RetireLeavesAt(w.cache, seen, Batch(w.pass.todo), w.pass.cutoff, key, slot, deadline, depth);
  }

  lemma StepLeavesAt(w: World, e: Event, key: Key, slot: SlotId, deadline: nat, depth: int, leased: nat)
    requires Valid(w) && Enabled(w, e) && Calm(w, [e], deadline, leased)
    requires At(w.cache.entries, key, slot, deadline, depth)
    requires depth + Push(e, key) + leased < w.cache.capacity
    ensures At(Next(w, e).cache.entries, key, slot, deadline, depth + Push(e, key))
  {
    assert deadline <= w.clock + w.cache.ttl;
    ApplyLeavesAt(w.(hold := HoldAfter(w, e)), e, key, slot, deadline, depth, leased);
  }

  /** An unexpired entry at most `depth` back survives any run whose insertions and touches of
      other keys number at most capacity - 1 - leased - depth. */
  lemma {:induction false} Survival(w: World, events: seq<Event>, key: Key, slot: SlotId, deadline: nat, depth: nat, leased: nat)
    requires Valid(w) && Admissible(w, events) && Calm(w, events, deadline, leased)
    requires At(w.cache.entries, key, slot, deadline, depth)
    requires depth + Pressure(events, key) + leased <= w.cache.capacity - 1
    ensures At(Run(w, events).cache.entries, key, slot, deadline, depth + Pressure(events, key))
    ensures Holds(Run(w, events).cache.entries, key, slot)
    decreases |events|
  {
    if events != [] {
      var e := events[0];
      assert Calm(w, [e], deadline, leased) by {
        assert [e][1..] == [];
      }
      StepLeavesAt(w, e, key, slot, deadline, depth, leased);
      StepKeeps(w, e);
      var w1 := Next(w, e);
      LimitsFixedByStep(w, e);
      Survival(w1, events[1..], key, slot, deadline, depth + Push(e, key), leased);
    }
  }

  // ---------- What an insertion stored can be acquired ----------

  lemma SlotValueByStep(w: World, e: Event, w': World, s: SlotId)
    requires Enabled(w, e) && w' == Next(w, e) && s < w.cache.nextSlot && s in w'.cache.slots
    ensures s in w.cache.slots && w'.cache.slots[s].value == w.cache.slots[s].value && s < w'.cache.nextSlot
  {
    if e.DoRetire? { RetireValues(w.cache, e.seen, Batch(w.pass.todo), w.pass.cutoff, s); }
  }

  lemma NextSlotByStep(w: World, e: Event)
    requires Enabled(w, e)
    ensures w.cache.nextSlot <= Next(w, e).cache.nextSlot
  {
    if e.DoRetire? { RetireLimits(w.cache, e.seen, Batch(w.pass.todo), w.pass.cutoff); }
  }

  lemma {:induction false} RetireValues(c: Cache, seen: set<SlotId>, keys: seq<Key>, now: nat, s: SlotId)
    requires s in RetireCandidates(c, seen, keys, now).0.slots
    ensures s in c.slots && RetireCandidates(c, seen, keys, now).0.slots[s].value == c.slots[s].value
    ensures RetireCandidates(c, seen, keys, now).0.nextSlot == c.nextSlot
    decreases |keys|
  {
    if keys != [] {
      var i := IndexOf(c.entries, keys[0]);
      if i >= 0 && Removable(c.entries, seen, i, now) {
        RetireValues(Detach(c, i), seen, keys[1..], now, s);
      } else {
        RetireValues(c, seen, keys[1..], now, s);
      }
    }
  }

  /** A slot never changes its value and is never used again. */
  lemma {:induction false} SlotValueKept(w: World, events: seq<Event>, s: SlotId)
    requires Admissible(w, events) && s < w.cache.nextSlot && s in Run(w, events).cache.slots
    ensures s in w.cache.slots && Run(w, events).cache.slots[s].value == w.cache.slots[s].value
    decreases |events|
  {
    if events != [] {
      var w1 := Next(w, events[0]);
      NextSlotByStep(w, events[0]);
      SlotValueKept(w1, events[1..], s);
      SlotValueByStep(w, events[0], w1, s);
    }
  }

  /** A lease of `key` on slot `s` with `value` is what the acquisition `f` hands out. */
  ghost predicate HandsOut(w: World, f: Event, s: SlotId, value: Value)
    requires f.DoAcquire? && Enabled(w, f)
  {
    && Acquire(w.cache, f.seen, f.key, f.now).1 == Some(s)
    && w.nextLease in Next(w, f).leases && Next(w, f).leases[w.nextLease] == Lease(s, f.key, value, true)
  }

  lemma LiveIsHandedOut(w: World, f: Event, s: SlotId)
    requires Valid(w) && f.DoAcquire? && Enabled(w, f) && s in w.cache.slots && w.cache.slots[s].leases < USIZE_MAX
    requires At(w.cache.entries, f.key, s, f.now + 1, |w.cache.entries|)
    ensures HandsOut(w, f, s, w.cache.slots[s].value)
  {
    AcquireExact(w.cache, f.seen, f.key, f.now, IndexOf(w.cache.entries, f.key));
    AcquireHands(w, f, Next(w, f));
  }

  lemma InsertPlaces(w: World, e: Event, w1: World)
    requires WellFormed(w.cache) && e.DoInsert? && Enabled(w, e) && w1 == Next(w, e)
    requires InsertEvicting(w.cache, e.seen, e.key, e.value, e.now).1.Success?
    ensures var s := w.cache.nextSlot;
            && At(w1.cache.entries, e.key, s, e.now + w.cache.ttl, 0)
            && s < w1.cache.nextSlot && s in w1.cache.slots && w1.cache.slots[s].value == e.value
            && w1.cache.capacity == w.cache.capacity
  {
    var _ := InsertStores(w.cache, e.seen, e.key, e.value, e.now);
  }

  /** A stored value can be acquired: after a successful insertion and any run that puts no more
      pressure on it than it is sure to survive, an acquisition of the key before the deadline hands
      out a lease on the new slot with the inserted value, unless its counter is at the maximum. */
  lemma InsertThenAcquire(w: World, e: Event, events: seq<Event>, f: Event, leased: nat)
    requires Valid(w) && e.DoInsert? && Enabled(w, e) && InsertEvicting(w.cache, e.seen, e.key, e.value, e.now).1.Success?
    requires Admissible(Next(w, e), events) && Calm(Next(w, e), events, e.now + w.cache.ttl, leased)
    requires Pressure(events, e.key) + leased <= w.cache.capacity - 1
    requires f.DoAcquire? && f.key == e.key && f.now < e.now + w.cache.ttl && Enabled(Run(Next(w, e), events), f)
    ensures var w' := Run(Next(w, e), events); var s := w.cache.nextSlot;
            s in w'.cache.slots && (w'.cache.slots[s].leases < USIZE_MAX ==> HandsOut(w', f, s, e.value))
  {
    var w1, s := Next(w, e), w.cache.nextSlot;
    var w' := Run(w1, events);
    InsertPlaces(w, e, w1);
    assert Valid(w1) && Valid(w') by {
      StepKeeps(w, e);
      RunKeeps(w1, events);
    }
    assert At(w'.cache.entries, e.key, s, f.now + 1, |w'.cache.entries|) by {
      Survival(w1, events, e.key, s, e.now + w.cache.ttl, 0, leased);
    }
    assert s in w'.cache.slots;
    SlotValueKept(w1, events, s);
    if w'.cache.slots[s].leases < USIZE_MAX { LiveIsHandedOut(w', f, s); }
  }

  // ---------- The bound is sharp ----------

  lemma {:induction false} PinnedSame(es: seq<Entry<Key, SlotId>>, seen: set<SlotId>, pins: set<SlotId>)
    requires forall i :: 0 <= i < |es| ==> (es[i].payload in seen <==> es[i].payload in pins)
    ensures EvictionIndex(es, seen) == EvictionIndex(es, pins)
  {
    if es != [] { PinnedSame(es[..|es| - 1], seen, pins); }
  }

  lemma {:induction false} PinnedAtMost(es: seq<Entry<Key, SlotId>>, pins: set<SlotId>)
    ensures Pinned(es, pins) <= |es|
    ensures Pinned(es, pins) == |es| <==> forall i :: 0 <= i < |es| ==> es[i].payload in pins
  {
    if es != [] { PinnedAtMost(es[..|es| - 1], pins); }
  }

  lemma {:induction false} PinnedRemove(es: seq<Entry<Key, SlotId>>, pins: set<SlotId>, i: nat)
    requires i < |es| && es[i].payload !in pins
    ensures Pinned(RemoveAt(es, i), pins) == Pinned(es, pins)
  {
    var n := |es| - 1;
    if i == n {
      assert RemoveAt(es, i) == es[..n];
    } else {
      PinnedRemove(es[..n], pins, i);
      assert RemoveAt(es, i)[..n - 1] == RemoveAt(es[..n], i);
    }
  }

  /** How many entries behind index `i` are not pinned. */
  function FreeBehind(es: seq<Entry<Key, SlotId>>, pins: set<SlotId>, i: nat): (r: int)
    requires i < |es|
  {
    |es| - 1 - i - Pinned(es[i + 1..], pins)
  }

  lemma FreeRemove(es: seq<Entry<Key, SlotId>>, pins: set<SlotId>, i: nat, v: nat)
    requires i < v < |es| && es[v].payload !in pins
    ensures FreeBehind(RemoveAt(es, v), pins, i) == FreeBehind(es, pins, i) - 1
  {
    var behind := es[i + 1..];
    assert behind[v - i - 1] == es[v];
    PinnedRemove(behind, pins, v - i - 1);
    assert RemoveAt(es, v)[i + 1..] == RemoveAt(behind, v - i - 1);
  }

  lemma NoneFree(es: seq<Entry<Key, SlotId>>, pins: set<SlotId>, i: nat)
    requires i < |es|
    ensures FreeBehind(es, pins, i) >= 0
    ensures FreeBehind(es, pins, i) == 0 <==> forall j :: i < j < |es| ==> es[j].payload in pins
  {
    var behind := es[i + 1..];
    PinnedAtMost(behind, pins);
    assert forall j :: i < j < |es| ==> es[j] == behind[j - i - 1];
    assert forall j :: 0 <= j < |behind| ==> behind[j] == es[i + 1 + j];
  }

  /** With a free entry behind index `i`, an eviction takes one of them and pushes entry `i` back by
      one; with none, it takes entry `i`. */
  lemma EvictionTakesFree(es: seq<Entry<Key, SlotId>>, pins: set<SlotId>, i: nat)
    requires i < |es| && es[i].payload !in pins
    ensures var v := EvictionIndex(es, pins);
            && i <= v && FreeBehind(es, pins, i) >= 0
            && (v == i <==> FreeBehind(es, pins, i) == 0)
            && (v > i ==> i < |RemoveAt(es, v)| && FreeBehind(RemoveAt(es, v), pins, i) == FreeBehind(es, pins, i) - 1)
  {
    var v := EvictionIndex(es, pins);
    NoneFree(es, pins, i);
    if v > i { FreeRemove(es, pins, i, v); }
  }

  /** The lock is taken, or a new key comes in while exactly `pins` are found leased. */
  ghost predicate Crowds(w: World, e: Event, key: Key, pins: set<SlotId>) {
    || e.DoLock?
    || (&& e.DoInsert? && e.key != key && IndexOf(w.cache.entries, e.key) < 0
        && forall i :: 0 <= i < |w.cache.entries| ==> (w.cache.entries[i].payload in e.seen <==> w.cache.entries[i].payload in pins))
  }

  ghost predicate Crowding(w: World, events: seq<Event>, key: Key, pins: set<SlotId>)
    requires Admissible(w, events)
    decreases |events|
  {
    events == [] || (Crowds(w, events[0], key, pins) && Crowding(Next(w, events[0]), events[1..], key, pins))
  }

  function Insertions(events: seq<Event>): (r: nat) {
    if events == [] then 0 else (if events[0].DoInsert? then 1 else 0) + Insertions(events[1..])
  }

  /** A full cache holds `key` at index `i`, unpinned. */
  ghost predicate HeldAt(c: Cache, key: Key, pins: set<SlotId>, i: int) {
    && |c.entries| == c.capacity && IndexOf(c.entries, key) == i >= 0
    && c.entries[i].payload !in pins && (forall s :: s in pins ==> s < c.nextSlot)
  }

  lemma FrontIndex(e: Entry<Key, SlotId>, es: seq<Entry<Key, SlotId>>, key: Key)
    requires e.key != key
    ensures IndexOf([e] + es, key) == if IndexOf(es, key) < 0 then -1 else IndexOf(es, key) + 1
  {
    var i, j := IndexOf([e] + es, key), IndexOf(es, key);
    if j >= 0 { assert ([e] + es)[j + 1] == es[j]; }
    if i >= 1 { assert es[i - 1] == ([e] + es)[i]; }
  }

  lemma RemoveBehind(es: seq<Entry<Key, SlotId>>, v: nat, key: Key)
    requires DistinctKeys(es) && v < |es| && IndexOf(es, key) <= v
    ensures IndexOf(RemoveAt(es, v), key) == if IndexOf(es, key) == v then -1 else IndexOf(es, key)
  {
    var i := IndexOf(es, key);
    if 0 <= i < v { assert RemoveAt(es, v)[i] == es[i]; }
  }

  lemma FrontFree(e: Entry<Key, SlotId>, es: seq<Entry<Key, SlotId>>, pins: set<SlotId>, i: nat)
    requires i < |es|
    ensures FreeBehind([e] + es, pins, i + 1) == FreeBehind(es, pins, i)
  {
    assert ([e] + es)[i + 2..] == es[i + 1..];
  }

  /** One crowding insertion pushes the entry back, or out when nothing free is behind it. */
  lemma CrowdStep(c: Cache, e: Event, d: Cache, key: Key, pins: set<SlotId>, i: nat)
    requires WellFormed(c) && HeldAt(c, key, pins, i) && e.DoInsert? && e.key != key && IndexOf(c.entries, e.key) < 0
    requires forall j :: 0 <= j < |c.entries| ==> (c.entries[j].payload in e.seen <==> c.entries[j].payload in pins)
    requires d == InsertEvicting(c, e.seen, e.key, e.value, e.now).0
    ensures if FreeBehind(c.entries, pins, i) == 0 then IndexOf(d.entries, key) < 0
            else HeldAt(d, key, pins, i + 1) && FreeBehind(d.entries, pins, i + 1) == FreeBehind(c.entries, pins, i) - 1
  {
    var es := c.entries;
    var v := EvictionIndex(es, pins);
    PinnedSame(es, e.seen, pins);
    EvictionTakesFree(es, pins, i);
    RemoveBehind(es, v, key);
    var front := Entry(e.key, c.nextSlot, e.now + c.ttl);
    FrontIndex(front, RemoveAt(es, v), key);
    if v > i { FrontFree(front, RemoveAt(es, v), pins, i); }
  }

  lemma AbsentStep(c: Cache, e: Event, key: Key)
    requires e.DoInsert? && e.key != key && IndexOf(c.entries, key) < 0
    ensures IndexOf(InsertEvicting(c, e.seen, e.key, e.value, e.now).0.entries, key) < 0
  {
    var es := c.entries;
    var front := Entry(e.key, c.nextSlot, e.now + c.ttl);
    FrontIndex(front, es, key);
    var v := EvictionIndex(es, e.seen);
    if v >= 0 {
      RemoveLeavesAbsent(es, v, key);
      FrontIndex(front, RemoveAt(es, v), key);
    }
  }

  lemma {:induction false} StaysAbsent(w: World, events: seq<Event>, key: Key, pins: set<SlotId>)
    requires Admissible(w, events) && Crowding(w, events, key, pins) && IndexOf(w.cache.entries, key) < 0
    ensures IndexOf(Run(w, events).cache.entries, key) < 0
    decreases |events|
  {
    if events != [] {
      if events[0].DoInsert? { AbsentStep(w.cache, events[0], key); }
      StaysAbsent(Next(w, events[0]), events[1..], key, pins);
    }
  }

  /** In a full cache, an unpinned entry with `free` unpinned entries behind it is gone once more
      than `free` new keys have come in while the same slots were pinned. With all L pinned entries
      behind it, free is capacity - 1 - L minus its depth: one insertion more than it is sure to
      survive. */
  lemma {:induction false} PushedOut(w: World, events: seq<Event>, key: Key, pins: set<SlotId>, i: nat)
    requires Valid(w) && Admissible(w, events) && Crowding(w, events, key, pins) && HeldAt(w.cache, key, pins, i)
    requires FreeBehind(w.cache.entries, pins, i) < Insertions(events)
    ensures !exists s :: Holds(Run(w, events).cache.entries, key, s)
    decreases |events|
  {
    EvictionTakesFree(w.cache.entries, pins, i);
    var e := events[0];
    var w' := Next(w, e);
    StepKeeps(w, e);
    if e.DoLock? {
      PushedOut(w', events[1..], key, pins, i);
    } else {
      CrowdStep(w.cache, e, w'.cache, key, pins, i);
      if FreeBehind(w.cache.entries, pins, i) == 0 {
        StaysAbsent(w', events[1..], key, pins);
      } else {
        PushedOut(w', events[1..], key, pins, i + 1);
      }
    }
  }
}
