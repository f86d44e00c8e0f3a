/**
 Whole runs of the bounded cache, against an unbounded timestamped map that forgets a key
 only when it is taken. Every insertion gets a number; the cache carries that number as its
 payload, and a ledger records where each insertion that left the cache went.
 */
module BoundedRuns {
  import opened Options
  import opened RecencyList
  import opened BoundedCache

  datatype Insertion = Insertion(key: Key, value: Value, expiresAt: nat)

  /** How an insertion left the cache. */
  datatype Fate = Taken | TakenTooLate | Superseded | EvictedLive | Reclaimed | Retired

  datatype World = World(
    entries: seq<Timed<nat>>,
    log: seq<Insertion>,
    fate: map<nat, Fate>,
    unbounded: map<Key, nat>,
    clock: nat,
    capacity: nat,
    ttl: nat)

  /** The clock is read under the lock for insertions and takes; a purge brings a cutoff read
      earlier than the time `now` at which it gets the lock. */
  datatype Event =
    | DoInsert(key: Key, value: Value, now: nat)
    | DoTake(key: Key, now: nat)
    | DoRetire(cutoff: nat, now: nat)

  function Start(capacity: nat, ttl: nat): (r: World) {
    World([], [], map[], map[], 0, capacity, ttl)
  }

  predicate Enabled(w: World, e: Event) {
    && 0 < w.capacity
    && w.clock <= e.now
    && (e.DoRetire? ==> e.cutoff <= e.now)
  }

  function Next(w: World, e: Event): (r: World)
    requires Enabled(w, e)
  {
    match e
    case DoInsert(key, value, now) =>
      var (es, outcome) := Insert(w.entries, w.capacity, w.ttl, key, |w.log|, now);
      World(es, w.log + [Insertion(key, value, now + w.ttl)], AfterInsert(w, key, outcome),
            w.unbounded[key := |w.log|], now, w.capacity, w.ttl)
    case DoTake(key, now) =>
      var (es, got) := Take(w.entries, key, now);
      var i := IndexOf(w.entries, key);
      w.(entries := es, clock := now, unbounded := w.unbounded - {key},
         fate := if i < 0 then w.fate
                 else w.fate[w.entries[i].payload := if got.Some? then Taken else TakenTooLate])
    case DoRetire(cutoff, now) =>
      var gone := w.entries[|w.entries| - ExpiredTail(w.entries, cutoff)..];
      w.(entries := Retire(w.entries, cutoff), clock := now,
         fate := w.fate + map id | id in Ids(gone) :: Retired)
  }

  /** The insertions the entries of a list carry. */
  function Ids(es: seq<Timed<nat>>): (r: set<nat>) {
    set i | 0 <= i < |es| :: es[i].payload
  }

  function AfterInsert(w: World, key: Key, outcome: InsertOutcome): (r: map<nat, Fate>) {
    match outcome
    case Inserted => w.fate
    case Replaced =>
      var i := IndexOf(w.entries, key);
      if i < 0 then w.fate else w.fate[w.entries[i].payload := Superseded]
    case ReclaimedExpired =>
      if w.entries == [] then w.fate else w.fate[w.entries[|w.entries| - 1].payload := Reclaimed]
    case EvictedOldest =>
      if w.entries == [] then w.fate else w.fate[w.entries[|w.entries| - 1].payload := EvictedLive]
  }

  ghost predicate Admissible(w: World, events: seq<Event>)
    decreases |events|
  {
    events == [] || (Enabled(w, events[0]) && Admissible(Next(w, events[0]), events[1..]))
  }

  function Run(w: World, events: seq<Event>): (r: World)
    requires Admissible(w, events)
    decreases |events|
  {
    if events == [] then w else Run(Next(w, events[0]), events[1..])
  }

  // ---------- The invariant ----------

  /** Insertion `id` is what the cache finds under its key. */
  predicate Resident(w: World, id: nat)
    requires id < |w.log|
  {
    var i := IndexOf(w.entries, w.log[id].key);
    i >= 0 && w.entries[i].payload == id
  }

  ghost predicate InOrder(w: World) {
    && WellFormed(w.entries, w.capacity)
    && Ordered(w.entries)
    && DueBy(w.entries, w.clock + w.ttl)
  }

  /** Every entry is a logged insertion, and the unbounded map agrees it is the latest. */
  ghost predicate Logged(w: World) {
    forall i :: 0 <= i < |w.entries| ==>
      && w.entries[i].payload < |w.log|
      && w.log[w.entries[i].payload].key == w.entries[i].key
      && w.log[w.entries[i].payload].expiresAt == w.entries[i].expiresAt
      && w.entries[i].key in w.unbounded
      && w.unbounded[w.entries[i].key] == w.entries[i].payload
  }

  /** Each insertion is in exactly one place: in the cache, or in the ledger with one fate. */
  ghost predicate Conserved(w: World) {
    && (forall id :: id in w.fate ==> id < |w.log|)
    && (forall id :: 0 <= id < |w.log| ==> (id in w.fate <==> !Resident(w, id)))
  }

  /** The unbounded map's insertion for `k` is logged under `k`; when it is missing from the
      cache it was evicted live or has passed its deadline by `now`. */
  ghost predicate Accounted(w: World, k: Key, now: nat)
    requires k in w.unbounded
  {
    var id := w.unbounded[k];
    && id < |w.log|
    && w.log[id].key == k
    && (id in w.fate ==> w.fate[id] == EvictedLive || w.log[id].expiresAt <= now)
  }

  ghost predicate Explained(w: World) {
    forall k :: k in w.unbounded ==> Accounted(w, k, w.clock)
  }

  ghost predicate Valid(w: World) {
    InOrder(w) && Logged(w) && Conserved(w) && Explained(w)
  }

  lemma StartValid(capacity: nat, ttl: nat)
    requires 0 < capacity
    ensures Valid(Start(capacity, ttl))
  {
  }

  // ---------- One entry leaves, one entry comes ----------

  /** Entry `i` leaves with fate `f`. */
  function Leave(w: World, i: nat, f: Fate): (r: World)
    requires i < |w.entries|
  {
    w.(entries := RemoveAt(w.entries, i), fate := w.fate[w.entries[i].payload := f])
  }

  lemma ResidentAfterLeave(w: World, i: nat, f: Fate, id: nat)
    requires InOrder(w) && Logged(w) && i < |w.entries| && id < |w.log|
    ensures Resident(Leave(w, i, f), id) <==> Resident(w, id) && id != w.entries[i].payload
  {
    var es := w.entries;
    var rest := RemoveAt(es, i);
    var j := IndexOf(es, w.log[id].key);
    if j >= 0 && j != i {
      assert rest[if j < i then j else j - 1] == es[j];
    }
  }

  lemma LeaveKeeps(w: World, i: nat, f: Fate)
    requires InOrder(w) && Logged(w) && Conserved(w) && i < |w.entries|
    ensures InOrder(Leave(w, i, f)) && Logged(Leave(w, i, f)) && Conserved(Leave(w, i, f))
  {
    forall id | 0 <= id < |w.log|
      ensures id in Leave(w, i, f).fate <==> !Resident(Leave(w, i, f), id)
    {
      ResidentAfterLeave(w, i, f, id);
    }
  }

  /** A new insertion goes in front; its key must be free and there must be room. */
  function Enter(w: World, key: Key, value: Value, now: nat): (r: World) {
    World([Entry(key, |w.log|, now + w.ttl)] + w.entries, w.log + [Insertion(key, value, now + w.ttl)],
          w.fate, w.unbounded[key := |w.log|], now, w.capacity, w.ttl)
  }

  lemma ResidentAfterEnter(w: World, key: Key, value: Value, now: nat, id: nat)
    requires InOrder(w) && Logged(w) && IndexOf(w.entries, key) < 0 && id <= |w.log|
    ensures Resident(Enter(w, key, value, now), id) <==> id == |w.log| || Resident(w, id)
  {
    var w' := Enter(w, key, value, now);
    var es, es' := w.entries, w'.entries;
    assert forall i :: 0 < i < |es'| ==> es'[i] == es[i - 1];
    if id < |w.log| {
      assert w'.log[id] == w.log[id];
      var j := IndexOf(es, w.log[id].key);
      if j >= 0 {
        assert es'[j + 1] == es[j];
      }
    }
  }

  lemma EnterKeeps(w: World, key: Key, value: Value, now: nat)
    requires InOrder(w) && Logged(w) && Conserved(w) && w.clock <= now
    requires IndexOf(w.entries, key) < 0 && |w.entries| < w.capacity
    ensures var w' := Enter(w, key, value, now); InOrder(w') && Logged(w') && Conserved(w')
  {
    var w' := Enter(w, key, value, now);
    var es, es' := w.entries, w'.entries;
    assert forall i :: 0 < i < |es'| ==> es'[i] == es[i - 1];
    assert InOrder(w');
    forall id | 0 <= id < |w'.log|
      ensures id in w'.fate <==> !Resident(w', id)
    {
      ResidentAfterEnter(w, key, value, now, id);
    }
  }

  // ---------- Steps ----------

  /** An insertion is one entry leaving, if need be, and one entering. */
  function MakeRoom(w: World, key: Key, now: nat): (r: World)
    requires 0 < w.capacity
  {
    var i := IndexOf(w.entries, key);
    if i >= 0 then Leave(w, i, Superseded)
    else if |w.entries| < w.capacity then w
    else
      var last := |w.entries| - 1;
      Leave(w, last, if w.entries[last].expiresAt <= now then Reclaimed else EvictedLive)
  }

  lemma InsertIsLeaveEnter(w: World, e: Event)
    requires e.DoInsert? && Enabled(w, e)
    ensures Next(w, e) == Enter(MakeRoom(w, e.key, e.now), e.key, e.value, e.now)
  {
  }

  lemma MakeRoomKeeps(w: World, key: Key, now: nat, w1: World)
    requires InOrder(w) && Logged(w) && Conserved(w) && w1 == MakeRoom(w, key, now)
    ensures InOrder(w1) && Logged(w1) && Conserved(w1)
    ensures IndexOf(w1.entries, key) < 0 && |w1.entries| < w1.capacity
    ensures (w1.log, w1.unbounded, w1.clock) == (w.log, w.unbounded, w.clock)
  {
    var i := IndexOf(w.entries, key);
    if i >= 0 {
      LeaveKeeps(w, i, Superseded);
      KeyFree(w.entries, i);
    } else if |w.entries| == w.capacity {
      var last := |w.entries| - 1;
      LeaveKeeps(w, last, if w.entries[last].expiresAt <= now then Reclaimed else EvictedLive);
    }
  }

  lemma DoInsertKeeps(w: World, e: Event)
    requires Valid(w) && e.DoInsert? && Enabled(w, e)
    ensures Valid(Next(w, e))
  {
    var w1 := MakeRoom(w, e.key, e.now);
    MakeRoomKeeps(w, e.key, e.now, w1);
    EnterKeeps(w1, e.key, e.value, e.now);
    MakeRoomExplained(w, e.key, e.now, w1);
    EnterExplained(w1, e.key, e.value, e.now, Next(w, e)) by {
      InsertIsLeaveEnter(w, e);
    }
    InsertIsLeaveEnter(w, e);
  }

  lemma KeyFree(es: seq<Timed<nat>>, i: nat)
    requires DistinctKeys(es) && i < |es|
    ensures IndexOf(RemoveAt(es, i), es[i].key) < 0
  {
  }

  lemma MakeRoomExplained(w: World, key: Key, now: nat, w1: World)
    requires InOrder(w) && Logged(w) && Explained(w) && w1 == MakeRoom(w, key, now) && w.clock <= now
    ensures forall k :: k in w1.unbounded && k != key ==> Accounted(w1, k, now)
  {
    forall k | k in w1.unbounded && k != key
      ensures Accounted(w1, k, now)
    {
      assert Accounted(w, k, w.clock);
    }
  }

  lemma EnterExplained(w: World, key: Key, value: Value, now: nat, w': World)
    requires Conserved(w) && w' == Enter(w, key, value, now)
    requires forall k :: k in w.unbounded && k != key ==> Accounted(w, k, now)
    ensures Explained(w')
  {
    forall k | k in w'.unbounded
      ensures Accounted(w', k, now)
    {
      if k != key { assert Accounted(w, k, now); }
    }
  }

  lemma DoTakeKeeps(w: World, e: Event, w': World)
    requires Valid(w) && e.DoTake? && Enabled(w, e) && w' == Next(w, e)
    ensures Valid(w')
  {
    var i := IndexOf(w.entries, e.key);
    var w1 := w;
    if i >= 0 {
      var f := if Take(w.entries, e.key, e.now).1.Some? then Taken else TakenTooLate;
      w1 := Leave(w, i, f);
      LeaveKeeps(w, i, f);
      KeyFree(w.entries, i);
    }
    ForgetKeeps(w1, e.key, e.now, w');
    forall k | k in w'.unbounded
      ensures Accounted(w', k, w'.clock)
    {
      assert Accounted(w, k, w.clock);
    }
  }

  /** Forgetting a key the cache does not hold changes nothing in the cache. */
  lemma ForgetKeeps(w: World, key: Key, now: nat, w': World)
    requires InOrder(w) && Logged(w) && Conserved(w) && w.clock <= now && IndexOf(w.entries, key) < 0
    requires w' == w.(unbounded := w.unbounded - {key}, clock := now)
    ensures InOrder(w') && Logged(w') && Conserved(w')
  {
    assert forall id :: 0 <= id < |w.log| ==> Resident(w', id) == Resident(w, id);
  }

  function Gone(es: seq<Timed<nat>>, cutoff: nat): (r: set<nat>) {
    Ids(es[|es| - ExpiredTail(es, cutoff)..])
  }

  lemma GoneIsDue(w: World, cutoff: nat, id: nat) returns (i: nat)
    requires Logged(w) && id in Gone(w.entries, cutoff)
    ensures |w.entries| - ExpiredTail(w.entries, cutoff) <= i < |w.entries| && w.entries[i].payload == id
    ensures id < |w.log| && w.entries[i].key == w.log[id].key && w.log[id].expiresAt <= cutoff
  {
    var es := w.entries;
    var cut := |es| - ExpiredTail(es, cutoff);
    var j :| 0 <= j < |es[cut..]| && es[cut..][j].payload == id;
    i := cut + j;
  }

  /** A logged entry is gone exactly when it sits in the expired tail. */
  lemma GoneIsTail(w: World, cutoff: nat, id: nat)
    requires DistinctKeys(w.entries) && Logged(w) && id < |w.log|
    ensures id in Gone(w.entries, cutoff) <==>
              Resident(w, id) && |w.entries| - ExpiredTail(w.entries, cutoff) <= IndexOf(w.entries, w.log[id].key)
  {
    var es := w.entries;
    var cut := |es| - ExpiredTail(es, cutoff);
    var j := IndexOf(es, w.log[id].key);
    if id in Gone(es, cutoff) {
      var i := GoneIsDue(w, cutoff, id);
      assert i == j;
    }
    if cut <= j && es[j].payload == id { assert es[cut..][j - cut] == es[j]; }
  }

  lemma ResidentAfterRetire(w: World, cutoff: nat, w': World, id: nat)
    requires DistinctKeys(w.entries) && Logged(w) && id < |w.log|
    requires w'.entries == Retire(w.entries, cutoff) && w'.log == w.log
    ensures Resident(w', id) <==> Resident(w, id) && id !in Gone(w.entries, cutoff)
    ensures id in Gone(w.entries, cutoff) ==> Resident(w, id)
  {
    GoneIsTail(w, cutoff, id);
    PrefixIndex(w.entries, |w.entries| - ExpiredTail(w.entries, cutoff), w.log[id].key);
  }

  lemma RetireConserved(w: World, cutoff: nat, w': World)
    requires DistinctKeys(w.entries) && Logged(w) && Conserved(w)
    requires w'.entries == Retire(w.entries, cutoff) && w'.log == w.log
    requires w'.fate == w.fate + map id | id in Gone(w.entries, cutoff) :: Retired
    ensures Conserved(w')
  {
    forall id | 0 <= id < |w.log|
      ensures id in w'.fate <==> !Resident(w', id)
    {
      ResidentAfterRetire(w, cutoff, w', id);
    }
    forall id | id in Gone(w.entries, cutoff)
      ensures id < |w.log|
    {
      var _ := GoneIsDue(w, cutoff, id);
    }
  }

  lemma RetireExplained(w: World, cutoff: nat, w': World)
    requires Logged(w) && Explained(w) && w.clock <= w'.clock && cutoff <= w'.clock
    requires w'.unbounded == w.unbounded && w'.log == w.log
    requires w'.fate == w.fate + map id | id in Gone(w.entries, cutoff) :: Retired
    ensures Explained(w')
  {
    forall k | k in w'.unbounded
      ensures Accounted(w', k, w'.clock)
    {
      assert Accounted(w, k, w.clock);
      if w.unbounded[k] in Gone(w.entries, cutoff) {
        var _ := GoneIsDue(w, cutoff, w.unbounded[k]);
      }
    }
  }

  lemma RetireInOrder(w: World, cutoff: nat, w': World)
    requires InOrder(w) && Logged(w) && w'.entries == Retire(w.entries, cutoff) && w.clock <= w'.clock
    requires (w'.log, w'.unbounded, w'.capacity, w'.ttl) == (w.log, w.unbounded, w.capacity, w.ttl)
    ensures InOrder(w') && Logged(w')
  {
    assert w'.entries <= w.entries;
    assert forall i :: 0 <= i < |w'.entries| ==> w'.entries[i] == w.entries[i];
  }

  /** The components of a purge step, spelled out. */
  lemma RetireShape(w: World, e: Event)
    requires e.DoRetire? && Enabled(w, e)
    ensures Next(w, e) == w.(entries := Retire(w.entries, e.cutoff), clock := e.now,
                             fate := w.fate + map id | id in Gone(w.entries, e.cutoff) :: Retired)
  {
  }

  lemma DoRetireKeeps(w: World, e: Event)
    requires Valid(w) && e.DoRetire? && Enabled(w, e)
    ensures Valid(Next(w, e))
  {
    RetireShape(w, e);
    RetireInOrder(w, e.cutoff, Next(w, e));
    RetireConserved(w, e.cutoff, Next(w, e));
    RetireExplained(w, e.cutoff, Next(w, e));
  }

  lemma StepKeeps(w: World, e: Event)
    requires Valid(w) && Enabled(w, e)
    ensures Valid(Next(w, e))
  {
    match e
    case DoInsert(_, _, _) => DoInsertKeeps(w, e);
    case DoTake(_, _) => DoTakeKeeps(w, e, Next(w, e));
    case DoRetire(_, _) => DoRetireKeeps(w, e);
  }

  /** In every run: at most `capacity` entries, recency order is deadline order, every insertion
      is in exactly one place, and the unbounded map explains every absence. */
  lemma {:induction false} RunKeeps(w: World, events: seq<Event>)
    requires Valid(w) && Admissible(w, events)
    ensures Valid(Run(w, events))
    decreases |events|
  {
    if events != [] {
      StepKeeps(w, events[0]);
      RunKeeps(Next(w, events[0]), events[1..]);
    }
  }

  // ---------- One use, against the unbounded map ----------

  /** A fate, once given, is never changed: nothing is taken twice, and what was evicted,
      superseded or retired does not come back. */
  lemma {:induction false} FateIsFinal(w: World, events: seq<Event>, id: nat)
    requires Valid(w) && Admissible(w, events) && id in w.fate
    ensures var w' := Run(w, events);
            && id in w'.fate && w'.fate[id] == w.fate[id]
            && id < |w'.log| && w'.log[id] == w.log[id] && !Resident(w', id)
    decreases |events|
  {
    if events == [] {
    } else {
      StepKeeps(w, events[0]);
      FateIsFinalByStep(w, events[0], id);
      FateIsFinal(Next(w, events[0]), events[1..], id);
    }
  }

  lemma LeaveLeavesFate(w: World, i: nat, f: Fate, id: nat)
    requires Logged(w) && Conserved(w) && i < |w.entries| && DistinctKeys(w.entries) && id in w.fate
    ensures id in Leave(w, i, f).fate && Leave(w, i, f).fate[id] == w.fate[id]
  {
    assert IndexOf(w.entries, w.entries[i].key) == i;
    assert Resident(w, w.entries[i].payload);
  }

  lemma InsertLeavesFate(w: World, e: Event, id: nat)
    requires Valid(w) && e.DoInsert? && Enabled(w, e) && id in w.fate
    ensures id in Next(w, e).fate && Next(w, e).fate[id] == w.fate[id]
  {
    InsertIsLeaveEnter(w, e);
    var i := IndexOf(w.entries, e.key);
    if i >= 0 {
      LeaveLeavesFate(w, i, Superseded, id);
    } else if |w.entries| == w.capacity {
      var last := |w.entries| - 1;
      LeaveLeavesFate(w, last, if w.entries[last].expiresAt <= e.now then Reclaimed else EvictedLive, id);
    }
  }

  lemma RetireLeavesFate(w: World, e: Event, id: nat)
    requires Valid(w) && e.DoRetire? && Enabled(w, e) && id in w.fate
    ensures id in Next(w, e).fate && Next(w, e).fate[id] == w.fate[id]
  {
    RetireShape(w, e);
    GoneIsTail(w, e.cutoff, id);
  }

  lemma FateIsFinalByStep(w: World, e: Event, id: nat)
    requires Valid(w) && Enabled(w, e) && id in w.fate
    ensures id in Next(w, e).fate && Next(w, e).fate[id] == w.fate[id]
    ensures id < |w.log| <= |Next(w, e).log| && Next(w, e).log[id] == w.log[id]
  {
    match e
    case DoInsert(_, _, _) => InsertLeavesFate(w, e, id);
    case DoRetire(_, _) => RetireLeavesFate(w, e, id);
    case DoTake(key, now) =>
      var i := IndexOf(w.entries, key);
      if i >= 0 {
        LeaveLeavesFate(w, i, if Take(w.entries, key, now).1.Some? then Taken else TakenTooLate, id);
      }
  }

  /** The fate that ends the stay of entry `i` under event `e`, if it ends. */
  function FateUnder(w: World, e: Event, i: nat): (r: Option<Fate>)
    requires i < |w.entries|
  {
    var x := w.entries[i];
    match e
    case DoTake(key, now) => if key != x.key then None else Some(if now < x.expiresAt then Taken else TakenTooLate)
    case DoRetire(cutoff, _) => if x.expiresAt <= cutoff then Some(Retired) else None
    case DoInsert(key, _, now) =>
      if key == x.key then Some(Superseded)
      else if IndexOf(w.entries, key) < 0 && |w.entries| == w.capacity && i == |w.entries| - 1
      then Some(if x.expiresAt <= now then Reclaimed else EvictedLive)
      else None
  }

  lemma TailHolds(es: seq<Timed<nat>>, cutoff: nat, i: nat)
    requires Ordered(es) && i < |es|
    ensures |es| - ExpiredTail(es, cutoff) <= i <==> es[i].expiresAt <= cutoff
  {
  }

  lemma FateByRetire(w: World, e: Event, i: nat)
    requires Valid(w) && e.DoRetire? && Enabled(w, e) && i < |w.entries|
    ensures var id := w.entries[i].payload; var fate := Next(w, e).fate;
            if w.entries[i].expiresAt <= e.cutoff then id in fate && fate[id] == Retired else id !in fate
  {
    var id := w.entries[i].payload;
    RetireShape(w, e);
    assert IndexOf(w.entries, w.entries[i].key) == i && Resident(w, id);
    GoneIsTail(w, e.cutoff, id);
    TailHolds(w.entries, e.cutoff, i);
  }

  /** Each event gives an entry exactly the fate its kind and the clock say, or leaves it in. */
  lemma FateExact(w: World, e: Event, i: nat)
    requires Valid(w) && Enabled(w, e) && i < |w.entries|
    ensures var id := w.entries[i].payload; var fate := Next(w, e).fate;
            match FateUnder(w, e, i)
            case None => id !in fate
            case Some(f) => id in fate && fate[id] == f
  {
    var id := w.entries[i].payload;
    assert IndexOf(w.entries, w.entries[i].key) == i && Resident(w, id) && id !in w.fate;
    match e
    case DoInsert(_, _, _) => InsertIsLeaveEnter(w, e);
    case DoTake(_, _) =>
    case DoRetire(_, _) => FateByRetire(w, e, i);
  }

  /** A take succeeds exactly when the unbounded map holds a live value for the key and that
      value was not evicted for space, and then it is that value. */
  lemma TakeMatchesUnbounded(w: World, key: Key, now: nat)
    requires Valid(w) && w.clock <= now
    ensures var got := Take(w.entries, key, now).1;
            && (got.Some? ==> key in w.unbounded && got.value == w.unbounded[key])
            && (got.Some? <==>
                  && key in w.unbounded
                  && now < w.log[w.unbounded[key]].expiresAt
                  && !(w.unbounded[key] in w.fate && w.fate[w.unbounded[key]] == EvictedLive))
  {
    if key in w.unbounded {
      assert Accounted(w, key, w.clock);
      var id := w.unbounded[key];
      assert id in w.fate <==> !Resident(w, id);
    }
  }

  /** The cache stores values, not numbers: each number stands for the value inserted under it. */
  function Valued(es: seq<Timed<nat>>, log: seq<Insertion>): (r: seq<Timed<Value>>)
    requires forall i :: 0 <= i < |es| ==> es[i].payload < |log|
    ensures |r| == |es|
    ensures forall i :: 0 <= i < |es| ==> r[i] == Entry(es[i].key, log[es[i].payload].value, es[i].expiresAt)
  {
    seq(|es|, i requires 0 <= i < |es| => Entry(es[i].key, log[es[i].payload].value, es[i].expiresAt))
  }

  lemma SameIndex(es: seq<Timed<nat>>, log: seq<Insertion>, key: Key)
    requires forall i :: 0 <= i < |es| ==> es[i].payload < |log|
    ensures IndexOf(Valued(es, log), key) == IndexOf(es, key)
  {
    var i, j := IndexOf(Valued(es, log), key), IndexOf(es, key);
    assert i >= 0 ==> es[i].key == key;
    assert j >= 0 ==> Valued(es, log)[j].key == key;
  }

  /** The expired tail is determined by the deadlines alone. */
  lemma {:induction false} SameTail(es: seq<Timed<nat>>, log: seq<Insertion>, now: nat)
    requires forall i :: 0 <= i < |es| ==> es[i].payload < |log|
    ensures ExpiredTail(Valued(es, log), now) == ExpiredTail(es, now)
  {
    if es != [] && es[|es| - 1].expiresAt <= now {
      var vs := Valued(es, log);
      assert vs[..|vs| - 1] == Valued(es[..|es| - 1], log);
      SameTail(es[..|es| - 1], log, now);
    }
  }

  lemma ValuedRemove(es: seq<Timed<nat>>, log: seq<Insertion>, i: nat)
    requires (forall j :: 0 <= j < |es| ==> es[j].payload < |log|) && i < |es|
    ensures Valued(RemoveAt(es, i), log) == RemoveAt(Valued(es, log), i)
  {
  }

  lemma ValuedFront(es: seq<Timed<nat>>, log: seq<Insertion>, ins: Insertion)
    requires forall j :: 0 <= j < |es| ==> es[j].payload < |log|
    ensures var n: seq<Timed<nat>> := [Entry(ins.key, |log|, ins.expiresAt)] + es;
            && (forall j :: 0 <= j < |n| ==> n[j].payload < |log| + 1)
            && Valued(n, log + [ins]) == [Entry(ins.key, ins.value, ins.expiresAt)] + Valued(es, log)
  {
    var n: seq<Timed<nat>> := [Entry(ins.key, |log|, ins.expiresAt)] + es;
    assert forall j :: 0 < j < |n| ==> n[j] == es[j - 1];
  }

  /** Inserting a number and looking up its value is inserting the value. */
  lemma InsertOnValues(w: World, key: Key, value: Value, now: nat)
    requires Logged(w) && 0 < w.capacity
    ensures var log' := w.log + [Insertion(key, value, now + w.ttl)];
            var n := Insert(w.entries, w.capacity, w.ttl, key, |w.log|, now).0;
            && (forall i :: 0 <= i < |n| ==> n[i].payload < |log'|)
            && Valued(n, log') == Insert(Valued(w.entries, w.log), w.capacity, w.ttl, key, value, now).0
  {
    var es, ins := w.entries, Insertion(key, value, now + w.ttl);
    SameIndex(es, w.log, key);
    var i := IndexOf(es, key);
    if i < 0 && |es| < w.capacity {
      ValuedFront(es, w.log, ins);
    } else {
      var out := if i >= 0 then i else |es| - 1;
      ValuedRemove(es, w.log, out);
      ValuedFront(RemoveAt(es, out), w.log, ins);
    }
  }

  lemma TakeOnValues(w: World, key: Key, now: nat)
    requires Logged(w)
    ensures var n := Take(w.entries, key, now);
            var r := Take(Valued(w.entries, w.log), key, now);
            && (forall i :: 0 <= i < |n.0| ==> n.0[i].payload < |w.log|)
            && Valued(n.0, w.log) == r.0
            && (n.1.Some? <==> r.1.Some?)
            && (n.1.Some? ==> n.1.value < |w.log| && r.1.value == w.log[n.1.value].value)
  {
    SameIndex(w.entries, w.log, key);
  }

  lemma RetireOnValues(w: World, cutoff: nat)
    requires Logged(w)
    ensures var n := Retire(w.entries, cutoff);
            && (forall i :: 0 <= i < |n| ==> n[i].payload < |w.log|)
            && Valued(n, w.log) == Retire(Valued(w.entries, w.log), cutoff)
  {
    SameTail(w.entries, w.log, cutoff);
  }

  /** A run of the cache as the source holds it: on values. It yields the answer of each take. */
  function RunOnValues(es: seq<Timed<Value>>, capacity: nat, ttl: nat, events: seq<Event>)
    : (r: (seq<Timed<Value>>, seq<Option<Value>>))
    requires 0 < capacity
    decreases |events|
  {
    if events == [] then (es, [])
    else
      match events[0]
      case DoInsert(key, value, now) => RunOnValues(Insert(es, capacity, ttl, key, value, now).0, capacity, ttl, events[1..])
      case DoRetire(cutoff, _) => RunOnValues(Retire(es, cutoff), capacity, ttl, events[1..])
      case DoTake(key, now) =>
        var (rest, taken) := Take(es, key, now);
        var r := RunOnValues(rest, capacity, ttl, events[1..]);
        (r.0, [taken] + r.1)
  }

  /** The answers of the takes in a run on numbers. */
  function Answers(w: World, events: seq<Event>): (r: seq<Option<nat>>)
    requires Admissible(w, events)
    decreases |events|
  {
    if events == [] then []
    else
      var rest := Answers(Next(w, events[0]), events[1..]);
      if events[0].DoTake? then [Take(w.entries, events[0].key, events[0].now).1] + rest else rest
  }

  /** Answer `v` is the value inserted under the number in answer `n`. */
  ghost predicate SameAnswer(log: seq<Insertion>, n: Option<nat>, v: Option<Value>) {
    match n
    case None => v.None?
    case Some(id) => id < |log| && v == Some(log[id].value)
  }

  lemma StepOnValues(w: World, e: Event, w': World)
    requires Valid(w) && Enabled(w, e) && w' == Next(w, e)
    ensures Logged(w) && Logged(w') && w.log <= w'.log && 0 < w.capacity
    ensures (w'.capacity, w'.ttl) == (w.capacity, w.ttl)
    ensures match e
            case DoInsert(key, value, now) =>
              Valued(w'.entries, w'.log) == Insert(Valued(w.entries, w.log), w.capacity, w.ttl, key, value, now).0
            case DoRetire(cutoff, _) => Valued(w'.entries, w'.log) == Retire(Valued(w.entries, w.log), cutoff)
            case DoTake(key, now) =>
              && Valued(w'.entries, w'.log) == Take(Valued(w.entries, w.log), key, now).0
              && SameAnswer(w.log, Take(w.entries, key, now).1, Take(Valued(w.entries, w.log), key, now).1)
  {
    StepKeeps(w, e);
    match e
    case DoInsert(key, value, now) => InsertOnValues(w, key, value, now);
    case DoTake(key, now) => TakeOnValues(w, key, now);
    case DoRetire(cutoff, _) => RetireOnValues(w, cutoff);
  }

  ghost predicate SameAnswers(log: seq<Insertion>, ns: seq<Option<nat>>, vs: seq<Option<Value>>) {
    |ns| == |vs| && forall i :: 0 <= i < |ns| ==> SameAnswer(log, ns[i], vs[i])
  }

  lemma AnswersCons(log: seq<Insertion>, log': seq<Insertion>, n: Option<nat>, v: Option<Value>, ns: seq<Option<nat>>, vs: seq<Option<Value>>)
    requires SameAnswer(log, n, v) && log <= log' && SameAnswers(log', ns, vs)
    ensures SameAnswers(log', [n] + ns, [v] + vs)
  {
  }

  ghost predicate MatchesValues(w: World, events: seq<Event>, w': World)
    requires Admissible(w, events) && Logged(w) && Logged(w') && 0 < w.capacity
  {
    var (es, answers) := RunOnValues(Valued(w.entries, w.log), w.capacity, w.ttl, events);
    es == Valued(w'.entries, w'.log) && SameAnswers(w'.log, Answers(w, events), answers)
  }

  lemma MatchesCons(w: World, events: seq<Event>, w1: World, w': World)
    requires events != [] && Valid(w) && Admissible(w, events) && w1 == Next(w, events[0])
    requires Logged(w1) && Logged(w') && 0 < w1.capacity && w1.log <= w'.log && MatchesValues(w1, events[1..], w')
    ensures MatchesValues(w, events, w') && w.log <= w'.log
  {
    var e := events[0];
    StepOnValues(w, e, w1);
    if e.DoTake? {
      var v := RunOnValues(Valued(w1.entries, w1.log), w1.capacity, w1.ttl, events[1..]);
      AnswersCons(w.log, w'.log, Take(w.entries, e.key, e.now).1, Take(Valued(w.entries, w.log), e.key, e.now).1,
                  Answers(w1, events[1..]), v.1);
    }
  }

  /** A run on numbers is the run on values: same entries at the end, same answers on the way. */
  lemma {:induction false} RunMatchesValues(w: World, events: seq<Event>)
    requires Valid(w) && Admissible(w, events)
    ensures 0 < w.capacity && Logged(Run(w, events)) && w.log <= Run(w, events).log
    ensures MatchesValues(w, events, Run(w, events))
    decreases |events|
  {
    if events != [] {
      var w1 := Next(w, events[0]);
      StepKeeps(w, events[0]);
      RunMatchesValues(w1, events[1..]);
      MatchesCons(w, events, w1, Run(w, events));
    }
  }

  // ---------- How long an entry survives ----------

  function Insertions(events: seq<Event>): (r: nat) {
    if events == [] then 0 else (if events[0].DoInsert? then 1 else 0) + Insertions(events[1..])
  }

  /** No event takes or replaces `key`, and no purge cutoff reaches `deadline`. */
  predicate Undisturbed(events: seq<Event>, key: Key, deadline: nat) {
    forall i :: 0 <= i < |events| ==> Spares(events[i], key, deadline)
  }

  lemma InsertLeavesAt(es: seq<Timed<nat>>, capacity: nat, ttl: nat, k: Key, next: nat, now: nat,
                       key: Key, id: nat, deadline: nat, depth: nat)
    requires WellFormed(es, capacity) && k != key
    requires At(es, key, id, deadline, depth) && depth + 1 < capacity
    ensures At(Insert(es, capacity, ttl, k, next, now).0, key, id, deadline, depth + 1)
  {
    var i := IndexOf(es, k);
    var front: Timed<nat> := Entry(k, next, now + ttl);
    if i >= 0 {
      RemoveLeavesAt(es, i, key, id, deadline, depth);
      FrontPushesAt(front, RemoveAt(es, i), key, id, deadline, depth);
    } else if |es| < capacity {
      FrontPushesAt(front, es, key, id, deadline, depth);
    } else {
      RemoveLeavesAt(es, |es| - 1, key, id, deadline, depth);
      FrontPushesAt(front, RemoveAt(es, |es| - 1), key, id, deadline, depth);
    }
  }

  lemma RetireLeavesAt(es: seq<Timed<nat>>, cutoff: nat, key: Key, id: nat, deadline: nat, depth: nat)
    requires At(es, key, id, deadline, depth) && cutoff < deadline
    ensures At(Retire(es, cutoff), key, id, deadline, depth)
  {
    var j := IndexOf(es, key);
    assert es[..|es| - ExpiredTail(es, cutoff)][j] == es[j];
  }

  predicate Spares(e: Event, key: Key, deadline: nat) {
    match e
    case DoInsert(k, _, _) => k != key
    case DoTake(k, _) => k != key
    case DoRetire(cutoff, _) => cutoff < deadline
  }

  lemma StepLeavesAt(w: World, e: Event, key: Key, id: nat, deadline: nat, depth: nat)
    requires WellFormed(w.entries, w.capacity) && Enabled(w, e) && Spares(e, key, deadline)
    requires At(w.entries, key, id, deadline, depth)
    requires depth + (if e.DoInsert? then 1 else 0) < w.capacity
    ensures At(Next(w, e).entries, key, id, deadline, depth + if e.DoInsert? then 1 else 0)
  {
    var es := w.entries;
    match e
    case DoInsert(k, _, now) =>
      InsertLeavesAt(es, w.capacity, w.ttl, k, |w.log|, now, key, id, deadline, depth);
    case DoTake(k, _) =>
      if IndexOf(es, k) >= 0 { RemoveLeavesAt(es, IndexOf(es, k), key, id, deadline, depth); }
    case DoRetire(cutoff, _) =>
      RetireLeavesAt(es, cutoff, key, id, deadline, depth);
  }

  /** An entry that nobody takes or replaces and no purge finds expired survives
      capacity - 1 - depth later insertions; a fresh one is at depth 0. */
  lemma {:induction false} Survival(w: World, events: seq<Event>, key: Key, id: nat, deadline: nat, depth: nat)
    requires Valid(w) && Admissible(w, events) && Undisturbed(events, key, deadline)
    requires At(w.entries, key, id, deadline, depth)
    requires depth + Insertions(events) <= w.capacity - 1
    ensures At(Run(w, events).entries, key, id, deadline, depth + Insertions(events))
    decreases |events|
  {
    if events != [] {
      var e := events[0];
      assert Spares(events[0], key, deadline);
      StepLeavesAt(w, e, key, id, deadline, depth);
      StepKeeps(w, e);
      Survival(Next(w, e), events[1..], key, id, deadline, depth + if e.DoInsert? then 1 else 0);
    }
  }

  /** The bound is sharp: with a full cache, once as many fresh keys have come as there are
      places from the entry to the back, the entry is gone. */
  lemma {:induction false} PushedOut(w: World, events: seq<Event>, key: Key)
    requires Valid(w) && Admissible(w, events) && AllNew(w, events, key)
    requires |w.entries| == w.capacity && IndexOf(w.entries, key) >= 0
    requires IndexOf(w.entries, key) + |events| == w.capacity
    ensures IndexOf(Run(w, events).entries, key) < 0
    decreases |events|
  {
    var e := events[0];
    StepKeeps(w, e);
    PushedBack(w.entries, w.capacity, w.ttl, e.key, |w.log|, e.now, key);
    if |events| == 1 {
      assert events[1..] == [];
    } else {
      PushedOut(Next(w, e), events[1..], key);
    }
  }

  lemma PushedBack(es: seq<Timed<nat>>, capacity: nat, ttl: nat, k: Key, next: nat, now: nat, key: Key)
    requires WellFormed(es, capacity) && |es| == capacity
    requires IndexOf(es, k) < 0 && k != key && IndexOf(es, key) >= 0
    ensures var es' := Insert(es, capacity, ttl, k, next, now).0;
            && |es'| == capacity
            && IndexOf(es', key) == if IndexOf(es, key) == capacity - 1 then -1 else IndexOf(es, key) + 1
  {
    var es' := Insert(es, capacity, ttl, k, next, now).0;
    assert forall i :: 0 < i < |es'| ==> es'[i] == es[i - 1];
    var j := IndexOf(es, key);
    if j < capacity - 1 { assert es'[j + 1] == es[j]; }
  }

  /** Every event inserts a key the cache does not hold at that moment, and not `key`. */
  ghost predicate AllNew(w: World, events: seq<Event>, key: Key)
    requires Admissible(w, events)
    decreases |events|
  {
    events == [] ||
    (&& events[0].DoInsert? && events[0].key != key && IndexOf(w.entries, events[0].key) < 0
     && AllNew(Next(w, events[0]), events[1..], key))
  }
}
