/**
 Whole runs of the session cache: any interleaving of cache operations, the two halves of
 lease drops, and one purge pass at a time that takes a snapshot under one lock hold and
 retires it in batches under later ones. The lock keeps operations apart but not lease drops:
 drops go on between the moment the lock is taken and the operation under it.
 */
module LeaseRuns {
  import opened Options
  import opened RecencyList
  import opened LeaseCache

  const SESSION_RETIREMENT_BATCH_SIZE: nat := 4096

  /** An outstanding lease. `counted` turns false when its drop has decremented the slot's
      counter but not yet released the strong reference. */
  datatype Lease = Lease(slot: SlotId, key: Key, value: Value, counted: bool)

  /** The current or last purge pass: its cutoff, the candidates not yet checked, what it has
      retired, the running total, and the expired slots it found leased when it checked them. */
  datatype Pass = Pass(
    cutoff: nat,
    todo: seq<Key>,
    retired: seq<Entry<Key, SlotId>>,
    count: nat,
    excused: set<SlotId>)

  /** `hold` is the set of slots that were leased when the lock was taken, while it is held. */
  datatype World = World(cache: Cache, leases: map<nat, Lease>, nextLease: nat, clock: nat, pass: Pass, hold: Option<set<SlotId>>)

  /** Each cache operation is the one operation of its lock hold and ends it. `seen` are the slots
      its checks found leased. */
  datatype Event =
    | DoLock
    | DoInsert(key: Key, value: Value, now: nat, seen: set<SlotId>)
    | DoAcquire(key: Key, now: nat, seen: set<SlotId>)
    | DoTouch(key: Key, now: nat, seen: set<SlotId>)
    | DoRelease(lease: nat)
    | DoDrop(lease: nat)
    | DoSnapshot(cutoff: nat, now: nat, seen: set<SlotId>)
    | DoRetire(now: nat, seen: set<SlotId>)

  function Start(capacity: nat, ttl: nat): (r: World) {
    World(Cache([], map[], 0, capacity, ttl), map[], 0, 0, Pass(0, [], [], 0, {}), None)
  }

  /** All pointers lead somewhere. */
  ghost predicate Sound(w: World) {
    Linked(w.cache) && forall l :: l in w.leases ==> w.leases[l].slot in w.cache.slots
  }

  /** Clock readings never go back under the lock, checks never miss a held lease, a lease is
      released once and dropped after that, and passes do not overlap. */
  ghost predicate Ready(w: World, e: Event) {
    && Sound(w)
    && match e
       case DoLock => true
       case DoInsert(_, _, now, seen) => w.clock <= now && LeasedSlots(w.cache) <= seen
       case DoAcquire(_, now, seen) => w.clock <= now && LeasedSlots(w.cache) <= seen
       case DoTouch(_, now, seen) => w.clock <= now && LeasedSlots(w.cache) <= seen
       case DoRelease(l) => l in w.leases && w.leases[l].counted
       case DoDrop(l) => l in w.leases && !w.leases[l].counted
       case DoSnapshot(cutoff, now, seen) =>
         w.clock <= now && cutoff <= now && LeasedSlots(w.cache) <= seen && w.pass.todo == []
       case DoRetire(now, seen) =>
         w.clock <= now && LeasedSlots(w.cache) <= seen && w.pass.todo != []
  }

  predicate IsDrop(e: Event) {
    e.DoRelease? || e.DoDrop?
  }

  /** One lock hold at a time; a check finds leased only what was leased when the lock was taken. */
  predicate LockAllows(w: World, e: Event) {
    if e.DoLock? then w.hold.None? else IsDrop(e) || (w.hold.Some? && e.seen <= w.hold.value)
  }

  ghost predicate Enabled(w: World, e: Event) {
    Ready(w, e) && LockAllows(w, e)
  }

  function HoldAfter(w: World, e: Event): (r: Option<set<SlotId>>) {
    if e.DoLock? then Some(LeasedSlots(w.cache)) else if IsDrop(e) then w.hold else None
  }

  function Batch(todo: seq<Key>): (r: seq<Key>)
    ensures |r| <= SESSION_RETIREMENT_BATCH_SIZE && r <= todo
    ensures todo != [] ==> r != []
  {
    if |todo| <= SESSION_RETIREMENT_BATCH_SIZE then todo else todo[..SESSION_RETIREMENT_BATCH_SIZE]
  }

  /** The expired slots among `keys` that a check with answers `seen` finds leased. */
  function FoundLeased(es: seq<Entry<Key, SlotId>>, keys: seq<Key>, seen: set<SlotId>, cutoff: nat): (r: set<SlotId>) {
    set i | 0 <= i < |es| && es[i].key in keys && es[i].expiresAt <= cutoff && es[i].payload in seen :: es[i].payload
  }

  function FoundLeasedAnywhere(es: seq<Entry<Key, SlotId>>, seen: set<SlotId>, cutoff: nat): (r: set<SlotId>) {
    set i | 0 <= i < |es| && es[i].expiresAt <= cutoff && es[i].payload in seen :: es[i].payload
  }

  /** What an event does to everything but the lock. */
  function Apply(w: World, e: Event): (r: World)
    requires Ready(w, e)
  {
    match e
    case DoLock => w
    case DoInsert(key, value, now, seen) =>
      w.(cache := InsertEvicting(w.cache, seen, key, value, now).0, clock := now)
    case DoAcquire(key, now, seen) =>
      var (c, got) := Acquire(w.cache, seen, key, now);
      if got.Some? then
        var s := got.value;
        w.(cache := c, clock := now, nextLease := w.nextLease + 1,
           leases := w.leases[w.nextLease := Lease(s, key, w.cache.slots[s].value, true)])
      else w.(cache := c, clock := now)
    case DoTouch(key, now, seen) =>
      w.(cache := Touch(w.cache, seen, key, now).0, clock := now)
    case DoRelease(l) =>
      w.(cache := ReleaseCount(w.cache, w.leases[l].slot),
         leases := w.leases[l := w.leases[l].(counted := false)])
    case DoDrop(l) =>
      w.(cache := DropHandle(w.cache, w.leases[l].slot), leases := w.leases - {l})
    case DoSnapshot(cutoff, now, seen) =>
      w.(clock := now,
         pass := Pass(cutoff, ExpiredUnleasedKeys(w.cache.entries, seen, cutoff), [], 0,
                      FoundLeasedAnywhere(w.cache.entries, seen, cutoff)))
    case DoRetire(now, seen) =>
      var batch := Batch(w.pass.todo);
      var (c, out) := RetireCandidates(w.cache, seen, batch, w.pass.cutoff);
      w.(clock := now, cache := c,
         pass := w.pass.(
           todo := w.pass.todo[|batch|..],
           retired := w.pass.retired + out,
           count := w.pass.count + |out|,
           excused := w.pass.excused + FoundLeased(w.cache.entries, batch, seen, w.pass.cutoff)))
  }

  function Next(w: World, e: Event): (r: World)
    requires Enabled(w, e)
  {
    Apply(w.(hold := HoldAfter(w, e)), e)
  }

  ghost predicate Admissible(w: World, events: seq<Event>)
    decreases |events|
  {
    events == [] || (Enabled(w, events[0]) && Admissible(Next(w, events[0]), events[1..]))
  }

  function Run(w: World, events: seq<Event>): (r: World)
    requires Admissible(w, events)
    decreases |events|
  {
    if events == [] then w else Run(Next(w, events[0]), events[1..])
  }

  // ---------- The invariant ----------

  function Handles(leases: map<nat, Lease>, s: SlotId): (r: set<nat>) {
    set l | l in leases && leases[l].slot == s
  }

  function Counted(leases: map<nat, Lease>, s: SlotId): (r: set<nat>) {
    set l | l in leases && leases[l].slot == s && leases[l].counted
  }

  /** Every lease, even one half dropped, has its slot in the cache under its key and value. */
  ghost predicate LeasesResident(c: Cache, leases: map<nat, Lease>, nextLease: nat) {
    forall l :: l in leases ==>
      && l < nextLease
      && Holds(c.entries, leases[l].key, leases[l].slot)
      && leases[l].slot in c.slots
      && c.slots[leases[l].slot].value == leases[l].value
  }

  /** The two counters of a slot agree with the leases outstanding on it. */
  ghost predicate CountsExact(slots: map<SlotId, LeaseSlot>, leases: map<nat, Lease>) {
    forall s :: s in slots ==>
      && slots[s].leases == |Counted(leases, s)|
      && slots[s].strong == 1 + |Handles(leases, s)|
  }

  /** Recency order is deadline order, and nothing is due later than a fresh entry would be. */
  ghost predicate InOrder(es: seq<Entry<Key, SlotId>>, latest: nat) {
    Ordered(es) && DueBy(es, latest)
  }

  /** Each retired entry was expired at the cutoff, is gone for good, and is counted once. */
  ghost predicate PassCounts(c: Cache, p: Pass) {
    && p.count == |p.retired|
    && DistinctSlots(p.retired)
    && forall i :: 0 <= i < |p.retired| ==>
         && p.retired[i].expiresAt <= p.cutoff
         && p.retired[i].payload < c.nextSlot
         && p.retired[i].payload !in c.slots
  }

  /** Each entry expired at the cutoff is still to be checked or was found leased. */
  ghost predicate PassCovers(es: seq<Entry<Key, SlotId>>, p: Pass) {
    forall i :: 0 <= i < |es| && es[i].expiresAt <= p.cutoff ==>
      es[i].payload in p.excused || es[i].key in p.todo
  }

  ghost predicate Valid(w: World) {
    && WellFormed(w.cache)
    && InOrder(w.cache.entries, w.clock + w.cache.ttl)
    && LeasesResident(w.cache, w.leases, w.nextLease)
    && CountsExact(w.cache.slots, w.leases)
    && w.pass.cutoff <= w.clock
    && PassCounts(w.cache, w.pass)
    && (0 < w.cache.ttl ==> PassCovers(w.cache.entries, w.pass))
  }

  lemma StartValid(capacity: nat, ttl: nat)
    requires 0 < capacity
    ensures Valid(Start(capacity, ttl))
  {
  }

  /** A slot whose check may answer "unleased" has no lease, not even a half-dropped one. */
  lemma UnleasedHasNoHandle(slots: map<SlotId, LeaseSlot>, leases: map<nat, Lease>, s: SlotId)
    requires CountsExact(slots, leases) && s in slots && !slots[s].HasExternalLease()
    ensures forall l :: l in leases ==> leases[l].slot != s
  {
    assert Handles(leases, s) == {};
    assert forall l :: l in leases && leases[l].slot == s ==> l in Handles(leases, s);
  }

  lemma DetachShape(c: Cache, i: nat, leases: map<nat, Lease>, nextLease: nat)
    requires WellFormed(c) && LeasesResident(c, leases, nextLease) && i < |c.entries|
    requires forall l :: l in leases ==> leases[l].slot != c.entries[i].payload
    ensures WellFormed(Detach(c, i)) && LeasesResident(Detach(c, i), leases, nextLease)
  {
    DetachWellFormed(c, i);
  }

  /** Detaching an unleased entry keeps everything. */
  lemma DetachKeeps(w: World, i: nat, w': World)
    requires Valid(w) && i < |w.cache.entries|
    requires w.cache.entries[i].payload !in LeasedSlots(w.cache)
    requires w' == w.(cache := Detach(w.cache, i))
    ensures Valid(w')
  {
    UnleasedHasNoHandle(w.cache.slots, w.leases, w.cache.entries[i].payload);
    DetachShape(w.cache, i, w.leases, w.nextLease);
  }

  // ---------- Putting an entry in front ----------

  lemma FrontInOrder(e: Entry<Key, SlotId>, es: seq<Entry<Key, SlotId>>)
    requires InOrder(es, e.expiresAt)
    ensures InOrder([e] + es, e.expiresAt)
  {
  }

  lemma FrontCovered(e: Entry<Key, SlotId>, es: seq<Entry<Key, SlotId>>, p: Pass)
    requires PassCovers(es, p) && p.cutoff < e.expiresAt
    ensures PassCovers([e] + es, p)
  {
  }

  /** Leases stay resident when every looked-up slot and every value is carried over. */
  lemma ResidentCarries(c: Cache, d: Cache, leases: map<nat, Lease>, nextLease: nat)
    requires LeasesResident(c, leases, nextLease)
    requires forall k, s :: Holds(c.entries, k, s) ==> Holds(d.entries, k, s)
    requires forall s :: s in c.slots ==> s in d.slots && d.slots[s].value == c.slots[s].value
    ensures LeasesResident(d, leases, nextLease)
  {
  }

  lemma InsertKeeps(w: World, key: Key, value: Value, now: nat, w': World)
    requires Valid(w) && w.clock <= now
    requires |w.cache.entries| < w.cache.capacity && IndexOf(w.cache.entries, key) < 0
    requires w'.cache == InsertNew(w.cache, key, value, now + w.cache.ttl)
    requires (w'.leases, w'.nextLease, w'.clock, w'.pass) == (w.leases, w.nextLease, now, w.pass)
    ensures Valid(w')
  {
    var c := w.cache;
    var due := now + c.ttl;
    assert InOrder(w'.cache.entries, due) by {
      FrontInOrder(Entry(key, c.nextSlot, due), c.entries);
    }
    assert 0 < c.ttl ==> PassCovers(w'.cache.entries, w.pass) by {
      if 0 < c.ttl { FrontCovered(Entry(key, c.nextSlot, due), c.entries, w.pass); }
    }
    assert CountsExact(w'.cache.slots, w.leases) by {
      InsertCounts(c, w.leases, w.nextLease, value);
    }
    assert LeasesResident(w'.cache, w.leases, w.nextLease) by {
      InsertNewWellFormed(c, key, value, due);
      ResidentCarries(c, w'.cache, w.leases, w.nextLease);
    }
    assert WellFormed(w'.cache) by {
      InsertNewWellFormed(c, key, value, due);
    }
  }

  lemma InsertCounts(c: Cache, leases: map<nat, Lease>, nextLease: nat, value: Value)
    requires LeasesResident(c, leases, nextLease) && CountsExact(c.slots, leases)
    requires c.nextSlot !in c.slots
    ensures CountsExact(c.slots[c.nextSlot := LeaseSlot(value, 0, 1)], leases)
  {
    assert Handles(leases, c.nextSlot) == {};
    assert Counted(leases, c.nextSlot) == {};
  }

  lemma LaterKeeps(w: World, now: nat, w': World)
    requires Valid(w) && w.clock <= now && w' == w.(clock := now)
    ensures Valid(w')
  {
  }

  lemma InsertAfterDetach(c: Cache, i: nat, w1: World, key: Key, value: Value, now: nat, w': World)
    requires i < |c.entries| && IndexOf(c.entries, key) < 0 && |c.entries| <= c.capacity
    requires w1.cache == Detach(c, i) && Valid(w1) && w1.clock <= now
    requires w'.cache == InsertNew(w1.cache, key, value, now + w1.cache.ttl)
    requires (w'.leases, w'.nextLease, w'.clock, w'.pass) == (w1.leases, w1.nextLease, now, w1.pass)
    ensures Valid(w')
  {
    assert IndexOf(w1.cache.entries, key) < 0 by { RemoveLeavesAbsent(c.entries, i, key); }
    InsertKeeps(w1, key, value, now, w');
  }

  lemma EvictKeeps(w: World, i: nat, key: Key, value: Value, now: nat, w': World)
    requires Valid(w) && w.clock <= now && i < |w.cache.entries| && IndexOf(w.cache.entries, key) < 0
    requires w.cache.entries[i].payload !in LeasedSlots(w.cache)
    requires w' == w.(cache := InsertNew(Detach(w.cache, i), key, value, now + w.cache.ttl), clock := now)
    ensures Valid(w')
  {
    var w1 := w.(cache := Detach(w.cache, i));
    DetachKeeps(w, i, w1);
    InsertAfterDetach(w.cache, i, w1, key, value, now, w');
  }

  lemma DoInsertKeeps(w: World, e: Event, w': World)
    requires Valid(w) && e.DoInsert? && Ready(w, e) && w' == Apply(w, e)
    ensures Valid(w')
  {
    var es := w.cache.entries;
    var i := EvictionIndex(es, e.seen);
    if IndexOf(es, e.key) < 0 && |es| < w.cache.capacity {
      InsertKeeps(w, e.key, e.value, e.now, w');
    } else if IndexOf(es, e.key) < 0 && i >= 0 {
      EvictKeeps(w, i, e.key, e.value, e.now, w');
    } else {
      LaterKeeps(w, e.now, w');
    }
  }

  lemma MoveFrontInOrder(es: seq<Entry<Key, SlotId>>, i: nat, latest: nat, due: nat)
    requires InOrder(es, latest) && i < |es| && latest <= due
    ensures InOrder([es[i].(expiresAt := due)] + RemoveAt(es, i), due)
  {
    assert InOrder(RemoveAt(es, i), due);
    FrontInOrder(es[i].(expiresAt := due), RemoveAt(es, i));
  }

  lemma MoveFrontCovered(es: seq<Entry<Key, SlotId>>, i: nat, due: nat, p: Pass)
    requires PassCovers(es, p) && i < |es| && p.cutoff < due
    ensures PassCovers([es[i].(expiresAt := due)] + RemoveAt(es, i), p)
  {
    assert PassCovers(RemoveAt(es, i), p);
    FrontCovered(es[i].(expiresAt := due), RemoveAt(es, i), p);
  }

  lemma MoveFrontShape(c: Cache, i: nat, due: nat, d: Cache, leases: map<nat, Lease>, nextLease: nat)
    requires WellFormed(c) && LeasesResident(c, leases, nextLease) && i < |c.entries|
    requires d == c.(entries := [c.entries[i].(expiresAt := due)] + RemoveAt(c.entries, i))
    ensures WellFormed(d) && LeasesResident(d, leases, nextLease)
  {
    MoveFrontWellFormed(c, i, due);
    ResidentCarries(c, d, leases, nextLease);
  }

  lemma MoveFrontKeeps(w: World, i: nat, now: nat, w': World)
    requires Valid(w) && i < |w.cache.entries| && w.clock <= now
    requires w' == w.(clock := now, cache := w.cache.(entries :=
               [w.cache.entries[i].(expiresAt := now + w.cache.ttl)] + RemoveAt(w.cache.entries, i)))
    ensures Valid(w')
  {
    var due := now + w.cache.ttl;
    assert InOrder(w'.cache.entries, due) by {
      MoveFrontInOrder(w.cache.entries, i, w.clock + w.cache.ttl, due);
    }
    assert 0 < w.cache.ttl ==> PassCovers(w'.cache.entries, w.pass) by {
      if 0 < w.cache.ttl { MoveFrontCovered(w.cache.entries, i, due, w.pass); }
    }
    MoveFrontShape(w.cache, i, due, w'.cache, w.leases, w.nextLease);
  }

  /** Entry `i` was found expired and dropped. */
  function WithoutEntry(w: World, i: nat, now: nat): (r: World)
    requires i < |w.cache.entries|
  {
    w.(cache := Detach(w.cache, i), clock := now)
  }

  lemma ExpireKeeps(w: World, i: nat, now: nat, w': World)
    requires Valid(w) && w.clock <= now && i < |w.cache.entries|
    requires w.cache.entries[i].payload !in LeasedSlots(w.cache)
    requires w' == WithoutEntry(w, i, now)
    ensures Valid(w')
  {
    var w1 := w.(clock := now);
    LaterKeeps(w, now, w1);
    DetachKeeps(w1, i, w');
  }

  lemma DoTouchKeeps(w: World, e: Event, w': World)
    requires Valid(w) && e.DoTouch? && Ready(w, e) && w' == Apply(w, e)
    ensures Valid(w')
  {
    var i := IndexOf(w.cache.entries, e.key);
    if i < 0 {
      LaterKeeps(w, e.now, w');
    } else if Removable(w.cache.entries, e.seen, i, e.now) {
      ExpireKeeps(w, i, e.now, w');
    } else {
      MoveFrontKeeps(w, i, e.now, w');
    }
  }

  // ---------- Leases ----------

  lemma HandlesAfterAcquire(leases: map<nat, Lease>, l: nat, lease: Lease, t: SlotId)
    requires l !in leases && lease.counted
    ensures var more := if t == lease.slot then 1 else 0;
            && |Handles(leases[l := lease], t)| == |Handles(leases, t)| + more
            && |Counted(leases[l := lease], t)| == |Counted(leases, t)| + more
  {
    if t == lease.slot {
      assert Handles(leases[l := lease], t) == Handles(leases, t) + {l};
      assert Counted(leases[l := lease], t) == Counted(leases, t) + {l};
    } else {
      assert Handles(leases[l := lease], t) == Handles(leases, t);
      assert Counted(leases[l := lease], t) == Counted(leases, t);
    }
  }

  lemma CountsAfterAcquire(slots: map<SlotId, LeaseSlot>, leases: map<nat, Lease>, l: nat, lease: Lease)
    requires CountsExact(slots, leases) && l !in leases && lease.slot in slots && lease.counted
    ensures var slot := slots[lease.slot];
            CountsExact(slots[lease.slot := slot.(leases := slot.leases + 1, strong := slot.strong + 1)], leases[l := lease])
  {
    forall t | t in slots {
      HandlesAfterAcquire(leases, l, lease, t);
    }
  }

  lemma ResidentAdds(c: Cache, leases: map<nat, Lease>, nextLease: nat, lease: Lease)
    requires LeasesResident(c, leases, nextLease)
    requires Holds(c.entries, lease.key, lease.slot)
    requires lease.slot in c.slots && c.slots[lease.slot].value == lease.value
    ensures LeasesResident(c, leases[nextLease := lease], nextLease + 1)
  {
  }

  /** Changing a slot's counters leaves the shape of the cache alone. */
  lemma RecountKeeps(w: World, s: SlotId, slot: LeaseSlot, c: Cache)
    requires WellFormed(w.cache) && s in w.cache.slots && slot.value == w.cache.slots[s].value
    requires LeasesResident(w.cache, w.leases, w.nextLease) && PassCounts(w.cache, w.pass)
    requires c == w.cache.(slots := w.cache.slots[s := slot])
    ensures WellFormed(c)
    ensures LeasesResident(c, w.leases, w.nextLease) && PassCounts(c, w.pass)
  {
  }

  /** A new lease on slot `s`. */
  function WithLease(w: World, s: SlotId, key: Key, now: nat): (r: World)
    requires s in w.cache.slots
  {
    var slot := w.cache.slots[s];
    w.(clock := now, nextLease := w.nextLease + 1,
       leases := w.leases[w.nextLease := Lease(s, key, slot.value, true)],
       cache := w.cache.(slots := w.cache.slots[s := slot.(leases := slot.leases + 1, strong := slot.strong + 1)]))
  }

  lemma LeaseKeeps(w: World, s: SlotId, key: Key, now: nat, w': World)
    requires Valid(w) && Holds(w.cache.entries, key, s) && s in w.cache.slots && w.clock <= now
    requires w' == WithLease(w, s, key, now)
    ensures Valid(w')
  {
    var lease := Lease(s, key, w.cache.slots[s].value, true);
    CountsAfterAcquire(w.cache.slots, w.leases, w.nextLease, lease);
    RecountKeeps(w, s, w'.cache.slots[s], w'.cache);
    assert LeasesResident(w'.cache, w'.leases, w'.nextLease) by {
      ResidentAdds(w'.cache, w.leases, w.nextLease, lease);
    }
  }

  /** The three things an acquisition can do. */
  lemma AcquireStep(w: World, e: Event, w': World)
    requires e.DoAcquire? && Ready(w, e) && w' == Apply(w, e)
    ensures var i := IndexOf(w.cache.entries, e.key);
            if i >= 0 && Removable(w.cache.entries, e.seen, i, e.now) then w' == WithoutEntry(w, i, e.now)
            else if i >= 0 && w.cache.slots[w.cache.entries[i].payload].leases != USIZE_MAX then
              w' == WithLease(w, w.cache.entries[i].payload, e.key, e.now)
            else w' == w.(clock := e.now)
  {
  }

  lemma DoAcquireKeeps(w: World, e: Event, w': World)
    requires Valid(w) && e.DoAcquire? && Ready(w, e) && w' == Apply(w, e)
    ensures Valid(w')
  {
    var i := IndexOf(w.cache.entries, e.key);
    AcquireStep(w, e, w');
    if i >= 0 && Removable(w.cache.entries, e.seen, i, e.now) {
      assert w.cache.entries[i].payload !in LeasedSlots(w.cache);
      ExpireKeeps(w, i, e.now, w');
    } else if i >= 0 && w.cache.slots[w.cache.entries[i].payload].leases != USIZE_MAX {
      assert Holds(w.cache.entries, e.key, w.cache.entries[i].payload);
      LeaseKeeps(w, w.cache.entries[i].payload, e.key, e.now, w');
    } else {
      LaterKeeps(w, e.now, w');
    }
  }

  lemma CountsAfterRelease(slots: map<SlotId, LeaseSlot>, leases: map<nat, Lease>, l: nat)
    requires CountsExact(slots, leases) && l in leases && leases[l].counted && leases[l].slot in slots
    ensures var s := leases[l].slot;
            && 0 < slots[s].leases
            && CountsExact(slots[s := slots[s].(leases := slots[s].leases - 1)], leases[l := leases[l].(counted := false)])
  {
    var s := leases[l].slot;
    var leases' := leases[l := leases[l].(counted := false)];
    assert l in Counted(leases, s);
    forall t | t in slots
      ensures |Handles(leases', t)| == |Handles(leases, t)|
      ensures |Counted(leases', t)| == |Counted(leases, t)| - (if t == s then 1 else 0)
    {
      assert Handles(leases', t) == Handles(leases, t);
      assert Counted(leases', t) == Counted(leases, t) - {l};
    }
  }

  lemma ResidentRelease(c: Cache, leases: map<nat, Lease>, nextLease: nat, l: nat)
    requires LeasesResident(c, leases, nextLease) && l in leases
    ensures LeasesResident(c, leases[l := leases[l].(counted := false)], nextLease)
  {
  }

  lemma ReleaseKeeps(w: World, l: nat, w': World)
    requires Valid(w) && l in w.leases && w.leases[l].counted
    requires w' == w.(cache := ReleaseCount(w.cache, w.leases[l].slot),
                      leases := w.leases[l := w.leases[l].(counted := false)])
    ensures Valid(w')
    ensures 0 < w.cache.slots[w.leases[l].slot].leases
  {
    var s := w.leases[l].slot;
    CountsAfterRelease(w.cache.slots, w.leases, l);
    RecountKeeps(w, s, w'.cache.slots[s], w'.cache);
    assert LeasesResident(w'.cache, w'.leases, w'.nextLease) by {
      ResidentRelease(w'.cache, w.leases, w.nextLease, l);
    }
  }

  lemma CountsAfterDrop(slots: map<SlotId, LeaseSlot>, leases: map<nat, Lease>, l: nat)
    requires CountsExact(slots, leases) && l in leases && !leases[l].counted && leases[l].slot in slots
    ensures var s := leases[l].slot;
            && 1 < slots[s].strong
            && CountsExact(slots[s := slots[s].(strong := slots[s].strong - 1)], leases - {l})
  {
    var s := leases[l].slot;
    var leases' := leases - {l};
    assert l in Handles(leases, s);
    forall t | t in slots
      ensures |Handles(leases', t)| == |Handles(leases, t)| - (if t == s then 1 else 0)
      ensures |Counted(leases', t)| == |Counted(leases, t)|
    {
      assert Handles(leases', t) == Handles(leases, t) - {l};
      assert Counted(leases', t) == Counted(leases, t);
    }
  }

  lemma ResidentDrop(c: Cache, leases: map<nat, Lease>, nextLease: nat, l: nat)
    requires LeasesResident(c, leases, nextLease) && l in leases
    ensures LeasesResident(c, leases - {l}, nextLease)
  {
  }

  lemma DropKeeps(w: World, l: nat, w': World)
    requires Valid(w) && l in w.leases && !w.leases[l].counted
    requires w' == w.(cache := DropHandle(w.cache, w.leases[l].slot), leases := w.leases - {l})
    ensures Valid(w')
    ensures 1 < w.cache.slots[w.leases[l].slot].strong
  {
    var s := w.leases[l].slot;
    CountsAfterDrop(w.cache.slots, w.leases, l);
    var slot := w.cache.slots[s];
    assert w'.cache == w.cache.(slots := w.cache.slots[s := slot.(strong := slot.strong - 1)]);
    RecountKeeps(w, s, slot.(strong := slot.strong - 1), w'.cache);
    assert LeasesResident(w'.cache, w'.leases, w'.nextLease) by {
      ResidentDrop(w'.cache, w.leases, w.nextLease, l);
    }
  }

  // ---------- The purge pass ----------

  lemma DoSnapshotKeeps(w: World, e: Event, w': World)
    requires Valid(w) && e.DoSnapshot? && Ready(w, e) && w' == Apply(w, e)
    ensures Valid(w')
  {
    var p := w'.pass;
    var es := w.cache.entries;
    forall i | 0 <= i < |es| && es[i].expiresAt <= e.cutoff
      ensures es[i].payload in p.excused || es[i].key in p.todo
    {
      if es[i].payload !in e.seen { ScanFinds(es, e.seen, e.cutoff, i); }
    }
  }

  lemma {:induction false} RetireLimits(c: Cache, seen: set<SlotId>, keys: seq<Key>, now: nat)
    ensures var d := RetireCandidates(c, seen, keys, now).0;
            (d.nextSlot, d.capacity, d.ttl) == (c.nextSlot, c.capacity, c.ttl) && d.slots.Keys <= c.slots.Keys
    decreases |keys|
  {
    if keys != [] {
      var i := IndexOf(c.entries, keys[0]);
      if i >= 0 && Removable(c.entries, seen, i, now) {
        RetireLimits(Detach(c, i), seen, keys[1..], now);
      } else {
        RetireLimits(c, seen, keys[1..], now);
      }
    }
  }

  /** Retired slots were there before, are gone after, and are all different. */
  lemma {:induction false} RetiredSlots(c: Cache, seen: set<SlotId>, keys: seq<Key>, now: nat)
    requires WellFormed(c)
    ensures var (d, out) := RetireCandidates(c, seen, keys, now);
            && DistinctSlots(out)
            && forall i :: 0 <= i < |out| ==>
                 out[i].expiresAt <= now && out[i].payload in c.slots && out[i].payload !in d.slots
    decreases |keys|
  {
    if keys != [] {
      var i := IndexOf(c.entries, keys[0]);
      if i >= 0 && Removable(c.entries, seen, i, now) {
        DetachWellFormed(c, i);
        RetiredSlots(Detach(c, i), seen, keys[1..], now);
        RetireLimits(Detach(c, i), seen, keys[1..], now);
      } else {
        RetiredSlots(c, seen, keys[1..], now);
      }
    }
  }

  lemma DetachLeased(c: Cache, i: nat)
    requires i < |c.entries|
    ensures LeasedSlots(Detach(c, i)) <= LeasedSlots(c)
  {
  }

  /** Retiring a batch detaches unleased entries one by one. */
  lemma {:induction false} RetireDetaches(w: World, seen: set<SlotId>, keys: seq<Key>, w': World)
    requires Valid(w) && LeasedSlots(w.cache) <= seen
    requires w' == w.(cache := RetireCandidates(w.cache, seen, keys, w.pass.cutoff).0)
    ensures Valid(w')
    decreases |keys|
  {
    if keys != [] {
      var i := IndexOf(w.cache.entries, keys[0]);
      if i >= 0 && Removable(w.cache.entries, seen, i, w.pass.cutoff) {
        var w1 := w.(cache := Detach(w.cache, i));
        assert Valid(w1) by { DetachKeeps(w, i, w1); }
        DetachLeased(w.cache, i);
        RetireDetaches(w1, seen, keys[1..], w');
      } else {
        RetireDetaches(w, seen, keys[1..], w');
      }
    }
  }

  lemma RetireCounted(c: Cache, c': Cache, p: Pass, out: seq<Entry<Key, SlotId>>, p': Pass)
    requires PassCounts(c, p) && c'.slots.Keys <= c.slots.Keys && c'.nextSlot == c.nextSlot
    requires forall s :: s in c.slots ==> s < c.nextSlot
    requires DistinctSlots(out)
    requires forall i :: 0 <= i < |out| ==>
               out[i].expiresAt <= p.cutoff && out[i].payload in c.slots && out[i].payload !in c'.slots
    requires p'.retired == p.retired + out && p'.count == p.count + |out| && p'.cutoff == p.cutoff
    ensures PassCounts(c', p')
  {
    var n := |p.retired|;
    assert forall i :: n <= i < |p'.retired| ==> p'.retired[i] == out[i - n];
    assert forall i :: 0 <= i < n ==> p'.retired[i] == p.retired[i];
  }

  /** A batch member that survives its check was found leased by it. */
  lemma RetireCovers(c: Cache, p: Pass, seen: set<SlotId>, p': Pass)
    requires DistinctKeys(c.entries) && PassCovers(c.entries, p)
    requires p'.cutoff == p.cutoff && p'.todo == p.todo[|Batch(p.todo)|..]
    requires p'.excused == p.excused + FoundLeased(c.entries, Batch(p.todo), seen, p.cutoff)
    ensures PassCovers(RetireCandidates(c, seen, Batch(p.todo), p.cutoff).0.entries, p')
  {
    var batch := Batch(p.todo);
    var es' := RetireCandidates(c, seen, batch, p.cutoff).0.entries;
    RetireIsFilter(c, seen, batch, p.cutoff);
    assert p.todo == batch + p'.todo;
    forall i | 0 <= i < |es'| && es'[i].expiresAt <= p.cutoff
      ensures es'[i].payload in p'.excused || es'[i].key in p'.todo
    {
      FilterMember(c.entries, (e: Entry<Key, SlotId>) => !(e.key in batch && e.expiresAt <= p.cutoff && e.payload !in seen), es'[i]);
      assert es'[i] in c.entries;
      if es'[i].key in batch {
        assert es'[i].payload in FoundLeased(c.entries, batch, seen, p.cutoff);
      }
    }
  }

  lemma DoRetireKeeps(w: World, e: Event, w': World)
    requires Valid(w) && e.DoRetire? && Ready(w, e) && w' == Apply(w, e)
    ensures Valid(w')
  {
    var (c, out) := RetireCandidates(w.cache, e.seen, Batch(w.pass.todo), w.pass.cutoff);
    RetireDetaches(w, e.seen, Batch(w.pass.todo), w.(cache := c));
    assert PassCounts(w'.cache, w'.pass) by {
      RetiredSlots(w.cache, e.seen, Batch(w.pass.todo), w.pass.cutoff);
      RetireLimits(w.cache, e.seen, Batch(w.pass.todo), w.pass.cutoff);
      RetireCounted(w.cache, c, w.pass, out, w'.pass);
    }
    assert 0 < w'.cache.ttl ==> PassCovers(w'.cache.entries, w'.pass) by {
      RetireLimits(w.cache, e.seen, Batch(w.pass.todo), w.pass.cutoff);
      if 0 < w.cache.ttl { RetireCovers(w.cache, w.pass, e.seen, w'.pass); }
    }
  }

  // ---------- Whole runs ----------

  lemma ApplyKeeps(w: World, e: Event, w': World)
    requires Valid(w) && Ready(w, e) && w' == Apply(w, e)
    ensures Valid(w')
  {
    match e
    case DoLock =>
    case DoInsert(_, _, _, _) => DoInsertKeeps(w, e, w');
    case DoAcquire(_, _, _) => DoAcquireKeeps(w, e, w');
    case DoTouch(_, _, _) => DoTouchKeeps(w, e, w');
    case DoRelease(l) => ReleaseKeeps(w, l, w');
    case DoDrop(l) => DropKeeps(w, l, w');
    case DoSnapshot(_, _, _) => DoSnapshotKeeps(w, e, w');
    case DoRetire(_, _) => DoRetireKeeps(w, e, w');
  }

  lemma StepKeeps(w: World, e: Event)
    requires Valid(w) && Enabled(w, e)
    ensures Valid(Next(w, e))
  {
    var w1 := w.(hold := HoldAfter(w, e));
    assert Valid(w1) && Ready(w1, e);
    ApplyKeeps(w1, e, Next(w, e));
  }

  /** Every reachable state is valid, whatever the interleaving. */
  lemma {:induction false} RunKeeps(w: World, events: seq<Event>)
    requires Valid(w) && Admissible(w, events)
    ensures Valid(Run(w, events))
    decreases |events|
  {
    if events != [] {
      StepKeeps(w, events[0]);
      RunKeeps(Next(w, events[0]), events[1..]);
    }
  }

  /** The state after the first `k` events of a run. */
  ghost function StateAt(w: World, events: seq<Event>, k: nat): (r: World)
    requires Admissible(w, events) && k <= |events|
    decreases k
  {
    if k == 0 then w else StateAt(Next(w, events[0]), events[1..], k - 1)
  }

  lemma {:induction false} StateSteps(w: World, events: seq<Event>, k: nat)
    requires Admissible(w, events) && k < |events|
    ensures Enabled(StateAt(w, events, k), events[k])
    ensures StateAt(w, events, k + 1) == Next(StateAt(w, events, k), events[k])
    decreases k
  {
    if k > 0 {
      StateSteps(Next(w, events[0]), events[1..], k - 1);
      assert events[1..][k - 1] == events[k];
    }
  }

  lemma {:induction false} StateEnds(w: World, events: seq<Event>)
    requires Admissible(w, events)
    ensures StateAt(w, events, |events|) == Run(w, events)
    decreases |events|
  {
    if events != [] { StateEnds(Next(w, events[0]), events[1..]); }
  }

  lemma {:induction false} StateKeeps(w: World, events: seq<Event>, k: nat)
    requires Valid(w) && Admissible(w, events) && k <= |events|
    ensures Valid(StateAt(w, events, k))
    decreases k
  {
    if k > 0 {
      StepKeeps(w, events[0]);
      StateKeeps(Next(w, events[0]), events[1..], k - 1);
    }
  }

  lemma {:induction false} RunAppend(w: World, a: seq<Event>, b: seq<Event>)
    requires Admissible(w, a) && Admissible(Run(w, a), b)
    ensures Admissible(w, a + b) && Run(w, a + b) == Run(Run(w, a), b)
    decreases |a|
  {
    if a == [] {
      assert a + b == b;
    } else {
      assert (a + b)[0] == a[0] && (a + b)[1..] == a[1..] + b;
      RunAppend(Next(w, a[0]), a[1..], b);
    }
  }

  // ---------- What a check under the lock can find ----------

  /** Lease `l` is on slot `s`. */
  predicate LeaseOn(leases: map<nat, Lease>, l: nat, s: SlotId) {
    l in leases && leases[l].slot == s
  }

  /** Some outstanding lease is on slot `s`. */
  ghost predicate HasLease(leases: map<nat, Lease>, s: SlotId) {
    exists l: nat :: LeaseOn(leases, l, s)
  }

  /** A slot that counts as leased has an outstanding lease. */
  lemma LeasedHasHandle(c: Cache, leases: map<nat, Lease>, s: SlotId)
    requires CountsExact(c.slots, leases) && s in LeasedSlots(c)
    ensures HasLease(leases, s)
  {
    if c.slots[s].leases != 0 {
      assert |Counted(leases, s)| != 0;
      assert Counted(leases, s) != {};
      var l :| l in Counted(leases, s);
      assert LeaseOn(leases, l, s);
    } else {
      assert |Handles(leases, s)| != 0;
      assert Handles(leases, s) != {};
      var l :| l in Handles(leases, s);
      assert LeaseOn(leases, l, s);
    }
  }

  lemma LowerCounts(c: Cache, s: SlotId, slot: LeaseSlot)
    requires s in c.slots && slot.leases <= c.slots[s].leases && 1 <= slot.strong <= c.slots[s].strong
    ensures LeasedSlots(c.(slots := c.slots[s := slot])) <= LeasedSlots(c)
  {
  }

  /** Drops only take leases away. */
  lemma DropsShrink(w: World, e: Event)
    requires Valid(w) && Enabled(w, e) && IsDrop(e)
    ensures LeasedSlots(Next(w, e).cache) <= LeasedSlots(w.cache)
    ensures Next(w, e).cache.entries == w.cache.entries
  {
    var l := e.lease;
    var s := w.leases[l].slot;
    var slot := w.cache.slots[s];
    if e.DoRelease? {
      CountsAfterRelease(w.cache.slots, w.leases, l);
      LowerCounts(w.cache, s, slot.(leases := slot.leases - 1));
    } else {
      CountsAfterDrop(w.cache.slots, w.leases, l);
      LowerCounts(w.cache, s, slot.(strong := slot.strong - 1));
    }
  }

  lemma HoldStep(w: World, e: Event, w': World)
    requires Valid(w) && Enabled(w, e) && w' == Next(w, e) && w'.hold.Some?
    ensures if e.DoLock? then w'.hold.value == LeasedSlots(w.cache) else IsDrop(e) && w'.hold == w.hold
    ensures w'.cache.entries == w.cache.entries && LeasedSlots(w'.cache) <= LeasedSlots(w.cache)
  {
    if IsDrop(e) { DropsShrink(w, e); }
  }

  lemma HoldStepAt(w: World, events: seq<Event>, n: nat, before: World, after: World)
    requires Valid(w) && Admissible(w, events) && n < |events|
    requires before == StateAt(w, events, n) && after == StateAt(w, events, n + 1) && after.hold.Some?
    ensures if events[n].DoLock? then after.hold.value == LeasedSlots(before.cache) else IsDrop(events[n]) && after.hold == before.hold
    ensures after.cache.entries == before.cache.entries && LeasedSlots(after.cache) <= LeasedSlots(before.cache)
  {
    StateSteps(w, events, n);
    StateKeeps(w, events, n);
    HoldStep(before, events[n], after);
  }

  /** The hold after `n` events began when event `k` took the lock; only drops have happened since,
      and the hold remembers what was leased then. */
  ghost predicate HeldSince(w: World, events: seq<Event>, k: nat, n: nat)
    requires Admissible(w, events) && n <= |events|
  {
    && k < n && events[k].DoLock?
    && (forall j :: k < j < n ==> IsDrop(events[j]))
    && StateAt(w, events, n).hold == Some(LeasedSlots(StateAt(w, events, k).cache))
    && LeasedSlots(StateAt(w, events, n).cache) <= LeasedSlots(StateAt(w, events, k).cache)
    && StateAt(w, events, n).cache.entries == StateAt(w, events, k).cache.entries
  }

  lemma HeldExtends(w: World, events: seq<Event>, k: nat, n: nat, before: World, after: World)
    requires Admissible(w, events) && n < |events| && before == StateAt(w, events, n) && after == StateAt(w, events, n + 1)
    requires HeldSince(w, events, k, n) && IsDrop(events[n]) && after.hold == before.hold
    requires after.cache.entries == before.cache.entries && LeasedSlots(after.cache) <= LeasedSlots(before.cache)
    ensures HeldSince(w, events, k, n + 1)
  {
  }

  /** Every hold began with the lock being taken, only drops have happened since, and what is
      leased now was leased then. So a hold can always go on to its operation. */
  lemma {:induction false} HoldBegan(w: World, events: seq<Event>, n: nat) returns (k: nat)
    requires Valid(w) && w.hold.None? && Admissible(w, events) && n <= |events|
    requires StateAt(w, events, n).hold.Some?
    ensures HeldSince(w, events, k, n)
    decreases n
  {
    if n == 0 {
      assert false;
    } else {
      k := n - 1;
      var before, after := StateAt(w, events, n - 1), StateAt(w, events, n);
      HoldStepAt(w, events, n - 1, before, after);
      if !events[n - 1].DoLock? {
        k := HoldBegan(w, events, n - 1);
        HeldExtends(w, events, k, n - 1, before, after);
      }
    }
  }
}
