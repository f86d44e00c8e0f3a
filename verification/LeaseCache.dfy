/**
 The lease-aware session cache: a fixed-capacity recency list with a sliding TTL whose
 entries point at shared slots. A slot counts its leases and its strong references; while
 either shows a holder outside the cache, the slot may not be expired or evicted.

 Operations run under the cache mutex, but leases are dropped outside it, so the answers of
 `HasExternalLease` during one operation need not come from one instant. Every operation
 below therefore takes the set `seen` of slots its checks found leased. A lease can only go
 away while the mutex is held, so with those drops placed before the operation `seen` contains
 all slots still leased, and only slots that were leased when the mutex was taken.
 */
module LeaseCache {
  import opened Options
  import opened RecencyList

  type Key(==, !new)
  type Value(!new)
  type SlotId = nat

  const USIZE_MAX := 0xFFFF_FFFF_FFFF_FFFF

  datatype Result<+T, +E> = Success(value: T) | Failure(error: E)
  datatype InsertOutcome = Inserted | ReclaimedExpired | EvictedLeastRecentlyUsed
  datatype InsertError = DuplicateKey | AllEntriesLeased

  /** A shared allocation: its value, the lease counter and the strong reference count. */
  datatype LeaseSlot = LeaseSlot(value: Value, leases: nat, strong: nat) {
    predicate HasExternalLease() {
      leases != 0 || strong != 1
    }
  }

  datatype Cache = Cache(
    entries: seq<Entry<Key, SlotId>>,
    slots: map<SlotId, LeaseSlot>,
    nextSlot: SlotId,
    capacity: nat,
    ttl: nat)

  ghost predicate DistinctSlots(es: seq<Entry<Key, SlotId>>) {
    forall i, j :: 0 <= i < j < |es| ==> es[i].payload != es[j].payload
  }

  /** Looking `key` up leads to `slot`. */
  predicate Holds(es: seq<Entry<Key, SlotId>>, key: Key, slot: SlotId) {
    var i := IndexOf(es, key);
    i >= 0 && es[i].payload == slot
  }

  /** Entries point at existing slots (what holding an `Arc` means). */
  ghost predicate Linked(c: Cache) {
    forall i :: 0 <= i < |c.entries| ==> c.entries[i].payload in c.slots
  }

  ghost predicate WellFormed(c: Cache) {
    && 0 < c.capacity
    && |c.entries| <= c.capacity
    && DistinctKeys(c.entries)
    && DistinctSlots(c.entries)
    && Linked(c)
    && (forall s :: s in c.slots ==> s < c.nextSlot)
  }

  /** The slots that really have a holder outside the cache. */
  function LeasedSlots(c: Cache): (r: set<SlotId>) {
    set s | s in c.slots && c.slots[s].HasExternalLease()
  }

  // ---------- Operations ----------

  /** The scan from the back for the first entry not found leased; -1 when there is none. */
  function EvictionIndex(es: seq<Entry<Key, SlotId>>, seen: set<SlotId>): (r: int)
    ensures -1 <= r < |es|
    ensures r >= 0 ==> es[r].payload !in seen
    ensures forall i :: r < i < |es| ==> es[i].payload in seen
  {
    if es == [] then -1
    else if es[|es| - 1].payload !in seen then |es| - 1
    else EvictionIndex(es[..|es| - 1], seen)
  }

  /** Takes entry `i` out and destroys its slot. */
  function Detach(c: Cache, i: nat): (r: Cache)
    requires i < |c.entries|
  {
    c.(entries := RemoveAt(c.entries, i), slots := c.slots - {c.entries[i].payload})
  }

  function InsertNew(c: Cache, key: Key, value: Value, expiresAt: nat): (r: Cache) {
    c.(entries := [Entry(key, c.nextSlot, expiresAt)] + c.entries,
       slots := c.slots[c.nextSlot := LeaseSlot(value, 0, 1)],
       nextSlot := c.nextSlot + 1)
  }

  function InsertEvicting(c: Cache, seen: set<SlotId>, key: Key, value: Value, now: nat)
    : (r: (Cache, Result<InsertOutcome, InsertError>))
  {
    if IndexOf(c.entries, key) >= 0 then (c, Failure(DuplicateKey))
    else if |c.entries| < c.capacity then
      (InsertNew(c, key, value, now + c.ttl), Success(Inserted))
    else
      var i := EvictionIndex(c.entries, seen);
      if i < 0 then (c, Failure(AllEntriesLeased))
      else
        (InsertNew(Detach(c, i), key, value, now + c.ttl),
         Success(if c.entries[i].expiresAt <= now then ReclaimedExpired else EvictedLeastRecentlyUsed))
  }

  /** The entry at `i` is past its deadline and was found without a lease. */
  predicate Removable(es: seq<Entry<Key, SlotId>>, seen: set<SlotId>, i: nat, now: nat)
    requires i < |es|
  {
    es[i].expiresAt <= now && es[i].payload !in seen
  }

  /** Leases the slot of `key`; an expired and unleased entry is dropped instead. */
  function Acquire(c: Cache, seen: set<SlotId>, key: Key, now: nat): (r: (Cache, Option<SlotId>))
    requires Linked(c)
  {
    var i := IndexOf(c.entries, key);
    if i < 0 then (c, None)
    else if Removable(c.entries, seen, i, now) then (Detach(c, i), None)
    else
      var s := c.entries[i].payload;
      var slot := c.slots[s];
      if slot.leases == USIZE_MAX then (c, None)
      else (c.(slots := c.slots[s := slot.(leases := slot.leases + 1, strong := slot.strong + 1)]), Some(s))
  }

  /** Refreshes the deadline of `key` and moves it to the front. */
  function Touch(c: Cache, seen: set<SlotId>, key: Key, now: nat): (r: (Cache, bool)) {
    var i := IndexOf(c.entries, key);
    if i < 0 then (c, false)
    else if Removable(c.entries, seen, i, now) then (Detach(c, i), false)
    else
      (c.(entries := [c.entries[i].(expiresAt := now + c.ttl)] + RemoveAt(c.entries, i)), true)
  }

  /** The first half of dropping a lease: the counter goes down (wrapping like `fetch_sub`). */
  function ReleaseCount(c: Cache, s: SlotId): (r: Cache)
    requires s in c.slots
  {
    var slot := c.slots[s];
    c.(slots := c.slots[s := slot.(leases := if slot.leases == 0 then USIZE_MAX else slot.leases - 1)])
  }

  /** The second half: the strong reference goes away; the last one frees the slot. */
  function DropHandle(c: Cache, s: SlotId): (r: Cache)
    requires s in c.slots
  {
    var slot := c.slots[s];
    if slot.strong <= 1 then c.(slots := c.slots - {s})
    else c.(slots := c.slots[s := slot.(strong := slot.strong - 1)])
  }

  /** The purge snapshot: back to front, stopping at the first live entry. */
  function ExpiredUnleasedKeys(es: seq<Entry<Key, SlotId>>, seen: set<SlotId>, now: nat): (r: seq<Key>)
  {
    if es == [] || now < es[|es| - 1].expiresAt then []
    else
      var rest := ExpiredUnleasedKeys(es[..|es| - 1], seen, now);
      if es[|es| - 1].payload in seen then rest else [es[|es| - 1].key] + rest
  }

  /** Revalidates a batch of keys and detaches those still expired and unleased. */
  function RetireCandidates(c: Cache, seen: set<SlotId>, keys: seq<Key>, now: nat)
    : (r: (Cache, seq<Entry<Key, SlotId>>))
    decreases |keys|
  {
    if keys == [] then (c, [])
    else
      var i := IndexOf(c.entries, keys[0]);
      if i >= 0 && Removable(c.entries, seen, i, now) then
        var rest := RetireCandidates(Detach(c, i), seen, keys[1..], now);
        (rest.0, [c.entries[i]] + rest.1)
      else RetireCandidates(c, seen, keys[1..], now)
  }

  // ---------- What the scans compute ----------

  /** An eviction destroys a live entry only when every entry not found leased is live. */
  lemma LiveEvictionMeansNoReclaimable(es: seq<Entry<Key, SlotId>>, seen: set<SlotId>, now: nat)
    requires Ordered(es)
    requires EvictionIndex(es, seen) >= 0 && now < es[EvictionIndex(es, seen)].expiresAt
    ensures forall i :: 0 <= i < |es| && es[i].payload !in seen ==> now < es[i].expiresAt
  {
    var r := EvictionIndex(es, seen);
    forall i | 0 <= i < |es| && es[i].payload !in seen
      ensures now < es[i].expiresAt
    {
      assert i <= r;
    }
  }

  function KeysOf(es: seq<Entry<Key, SlotId>>): (r: seq<Key>)
    ensures |r| == |es|
  {
    seq(|es|, i requires 0 <= i < |es| => es[i].key)
  }

  lemma KeysOfReversed(es: seq<Entry<Key, SlotId>>, e: Entry<Key, SlotId>)
    ensures KeysOf(Reversed(es + [e])) == [e.key] + KeysOf(Reversed(es))
  {
    assert forall i :: 0 <= i < |es| ==> Reversed(es + [e])[i + 1] == Reversed(es)[i];
  }

  /** Stopping early loses nothing: the snapshot is the full filter, least recent first. */
  lemma {:induction false} ScanIsFilter(es: seq<Entry<Key, SlotId>>, seen: set<SlotId>, now: nat)
    requires Ordered(es)
    ensures ExpiredUnleasedKeys(es, seen, now) ==
            KeysOf(Reversed(Filter(es, (e: Entry<Key, SlotId>) => e.expiresAt <= now && e.payload !in seen)))
  {
    var p := (e: Entry<Key, SlotId>) => e.expiresAt <= now && e.payload !in seen;
    if es != [] {
      var n := |es| - 1;
      if now < es[n].expiresAt {
        FilterNone(es, p);
      } else {
        ScanIsFilter(es[..n], seen, now);
        assert es == es[..n] + [es[n]];
        FilterLast(es[..n], es[n], p);
        if p(es[n]) { KeysOfReversed(Filter(es[..n], p), es[n]); }
      }
    }
  }

  /** Membership form of the scan, the shape the purge argument uses. */
  lemma {:induction false} ScanFinds(es: seq<Entry<Key, SlotId>>, seen: set<SlotId>, now: nat, i: nat)
    requires Ordered(es) && i < |es|
    requires es[i].expiresAt <= now && es[i].payload !in seen
    ensures es[i].key in ExpiredUnleasedKeys(es, seen, now)
  {
    var n := |es| - 1;
    if i < n { ScanFinds(es[..n], seen, now, i); }
  }

  /** The survivors of a batch are the rest of the list in its old order. */
  lemma {:induction false} RetireIsFilter(c: Cache, seen: set<SlotId>, keys: seq<Key>, now: nat)
    requires DistinctKeys(c.entries)
    ensures RetireCandidates(c, seen, keys, now).0.entries ==
            Filter(c.entries, (e: Entry<Key, SlotId>) => !(e.key in keys && e.expiresAt <= now && e.payload !in seen))
    decreases |keys|
  {
    var keep := (e: Entry<Key, SlotId>) => !(e.key in keys && e.expiresAt <= now && e.payload !in seen);
    if keys == [] {
      FilterAll(c.entries, keep);
    } else {
      var i := IndexOf(c.entries, keys[0]);
      var rest := keys[1..];
      var keepRest := (e: Entry<Key, SlotId>) => !(e.key in rest && e.expiresAt <= now && e.payload !in seen);
      assert forall k :: k in keys <==> k == keys[0] || k in rest;
      if i >= 0 && Removable(c.entries, seen, i, now) {
        RetireIsFilter(Detach(c, i), seen, rest, now);
        FilterSkip(c.entries, i, keep, keepRest);
      } else {
        RetireIsFilter(c, seen, rest, now);
        FilterSame(c.entries, keep, keepRest);
      }
    }
  }

  /** The retired entries are exactly the batch members still expired and unleased, each once. */
  lemma {:induction false} RetiredExactly(c: Cache, seen: set<SlotId>, keys: seq<Key>, now: nat)
    requires DistinctKeys(c.entries)
    ensures var r := RetireCandidates(c, seen, keys, now);
            && (forall e :: e in r.1 <==> e in c.entries && e.key in keys && e.expiresAt <= now && e.payload !in seen)
            && |r.0.entries| + |r.1| == |c.entries|
            && |r.1| <= |keys|
    decreases |keys|
  {
    if keys != [] {
      var i := IndexOf(c.entries, keys[0]);
      assert forall k :: k in keys <==> k == keys[0] || k in keys[1..];
      if i >= 0 && Removable(c.entries, seen, i, now) {
        var d := Detach(c, i);
        RetiredExactly(d, seen, keys[1..], now);
        forall e
          ensures e in c.entries <==> e == c.entries[i] || e in d.entries
        {
          MemberRemoveAt(c.entries, i, e);
        }
        assert forall e :: e in d.entries ==> e.key != keys[0];
      } else {
        RetiredExactly(c, seen, keys[1..], now);
      }
    }
  }

  lemma MemberRemoveAt<T>(s: seq<T>, i: nat, x: T)
    requires i < |s|
    ensures x in s <==> x == s[i] || x in RemoveAt(s, i)
  {
    if x in s {
      var j :| 0 <= j < |s| && s[j] == x;
      if j != i { assert RemoveAt(s, i)[if j < i then j else j - 1] == x; }
    }
  }

  lemma {:induction false} FilterSame<T>(s: seq<T>, p: T -> bool, q: T -> bool)
    requires forall i :: 0 <= i < |s| ==> p(s[i]) == q(s[i])
    ensures Filter(s, p) == Filter(s, q)
  {
    if s != [] { FilterSame(s[1..], p, q); }
  }

  lemma {:induction false} FilterSkip<T>(s: seq<T>, i: nat, p: T -> bool, q: T -> bool)
    requires i < |s| && !p(s[i])
    requires forall j :: 0 <= j < |s| && j != i ==> p(s[j]) == q(s[j])
    ensures Filter(s, p) == Filter(RemoveAt(s, i), q)
  {
    var t := RemoveAt(s, i);
    if i == 0 {
      assert t == s[1..];
      FilterSame(s[1..], p, q);
    } else {
      assert t[1..] == RemoveAt(s[1..], i - 1);
      FilterSkip(s[1..], i - 1, p, q);
    }
  }

  // ---------- What each operation answers and leaves ----------

  ghost predicate Present(es: seq<Entry<Key, SlotId>>, key: Key) {
    exists i :: 0 <= i < |es| && es[i].key == key
  }

  /** Entry `v` is gone from `es`, the others follow in their order, in `rest`. */
  ghost predicate Lost(es: seq<Entry<Key, SlotId>>, v: int, rest: seq<Entry<Key, SlotId>>) {
    0 <= v < |es| && rest == es[..v] + es[v + 1..]
  }

  lemma RemoveAtLoses(es: seq<Entry<Key, SlotId>>, v: nat)
    requires v < |es|
    ensures Lost(es, v, RemoveAt(es, v))
  {
  }

  /** Each answer of an insertion, exactly. */
  lemma InsertAnswers(c: Cache, seen: set<SlotId>, key: Key, value: Value, now: nat)
    requires WellFormed(c)
    ensures var r := InsertEvicting(c, seen, key, value, now).1;
            var full := |c.entries| == c.capacity;
            && (r == Failure(DuplicateKey) <==> Present(c.entries, key))
            && (r == Failure(AllEntriesLeased) <==>
                  !Present(c.entries, key) && full && forall i :: 0 <= i < |c.entries| ==> c.entries[i].payload in seen)
            && (r == Success(Inserted) <==> !Present(c.entries, key) && !full)
            && (r.Success? <==> !Present(c.entries, key) && (full ==> exists i :: 0 <= i < |c.entries| && c.entries[i].payload !in seen))
  {
    var v := EvictionIndex(c.entries, seen);
    if v >= 0 { assert c.entries[v].payload !in seen; }
  }

  /** A successful insertion stores the value, unleased, in a new slot in front with a fresh deadline.
      At most one entry is lost for it: the least recent that was found unleased, reported as
      reclaimed exactly when it was due. Nothing else changes; a refused insertion changes nothing. */
  lemma InsertStores(c: Cache, seen: set<SlotId>, key: Key, value: Value, now: nat) returns (v: int)
    requires WellFormed(c)
    ensures var (d, r) := InsertEvicting(c, seen, key, value, now);
            && (r.Failure? ==> d == c)
            && (r.Success? ==>
                  && c.nextSlot !in c.slots && (d.capacity, d.ttl) == (c.capacity, c.ttl)
                  && |d.entries| > 0 && d.entries[0] == Entry(key, c.nextSlot, now + c.ttl)
                  && Holds(d.entries, key, c.nextSlot)
                  && c.nextSlot in d.slots && d.slots[c.nextSlot].value == value && !d.slots[c.nextSlot].HasExternalLease())
            && (r == Success(Inserted) ==> d.entries[1..] == c.entries && d.slots - {c.nextSlot} == c.slots)
            && (r.Success? && r.value != Inserted ==>
                  && Lost(c.entries, v, d.entries[1..]) && c.entries[v].payload !in seen
                  && (forall i :: v < i < |c.entries| ==> c.entries[i].payload in seen)
                  && d.slots - {c.nextSlot} == c.slots - {c.entries[v].payload}
                  && (r.value == ReclaimedExpired <==> c.entries[v].expiresAt <= now))
  {
    v := EvictionIndex(c.entries, seen);
    var (d, r) := InsertEvicting(c, seen, key, value, now);
    if r.Success? {
      assert IndexOf(d.entries, key) == 0;
      if v >= 0 { RemoveAtLoses(c.entries, v); }
    }
  }

  /** An acquisition hands out the slot of `key` unless the key is missing, or due and found
      unleased, or its counter is at the maximum; it then counts one more holder and moves nothing.
      A due entry found unleased is dropped; otherwise nothing changes. */
  lemma AcquireExact(c: Cache, seen: set<SlotId>, key: Key, now: nat, i: nat)
    requires WellFormed(c) && (Present(c.entries, key) ==> i < |c.entries| && c.entries[i].key == key)
    ensures var (d, r) := Acquire(c, seen, key, now);
            if !Present(c.entries, key) then d == c && r.None?
            else
              var e := c.entries[i];
              if e.expiresAt <= now && e.payload !in seen then
                r.None? && Lost(c.entries, i, d.entries) && d.slots == c.slots - {e.payload}
              else if c.slots[e.payload].leases == USIZE_MAX then d == c && r.None?
              else
                && r == Some(e.payload) && d.entries == c.entries && d.slots - {e.payload} == c.slots - {e.payload}
                && e.payload in d.slots && d.slots[e.payload].value == c.slots[e.payload].value
                && d.slots[e.payload].leases == c.slots[e.payload].leases + 1
                && d.slots[e.payload].strong == c.slots[e.payload].strong + 1
  {
    if Present(c.entries, key) {
      assert IndexOf(c.entries, key) == i;
      RemoveAtLoses(c.entries, i);
    }
  }

  /** A touch succeeds exactly when the key is there and not both due and found unleased; it then
      puts the entry in front with a fresh deadline and the others behind it in their order. */
  lemma TouchExact(c: Cache, seen: set<SlotId>, key: Key, now: nat, i: nat)
    requires WellFormed(c) && (Present(c.entries, key) ==> i < |c.entries| && c.entries[i].key == key)
    ensures var (d, touched) := Touch(c, seen, key, now);
            if !Present(c.entries, key) then d == c && !touched
            else
              var e := c.entries[i];
              if e.expiresAt <= now && e.payload !in seen then
                !touched && Lost(c.entries, i, d.entries) && d.slots == c.slots - {e.payload}
              else
                && touched && d.slots == c.slots && |d.entries| == |c.entries|
                && d.entries[0] == Entry(key, e.payload, now + c.ttl) && Lost(c.entries, i, d.entries[1..])
  {
    if Present(c.entries, key) {
      assert IndexOf(c.entries, key) == i;
      RemoveAtLoses(c.entries, i);
    }
  }

  // ---------- The cache object ----------

  /** The cache as the source holds it: the list and the slots are updated in place. The
      methods run without interference, so their checks see exactly the leased slots. */
  class LeaseAwareTtlCache {
    var entries: seq<Entry<Key, SlotId>>
    var slots: map<SlotId, LeaseSlot>
    var nextSlot: SlotId
    const capacity: nat
    const ttl: nat

    ghost function State(): (r: Cache)
      reads this
    {
      Cache(entries, slots, nextSlot, capacity, ttl)
    }

    constructor (capacity: nat, ttl: nat)
      requires 0 < capacity
      ensures State() == Cache([], map[], 0, capacity, ttl)
      ensures WellFormed(State())
    {
      this.capacity, this.ttl := capacity, ttl;
      entries, slots, nextSlot := [], map[], 0;
    }

    /** The scan for an eviction candidate, from the back. */
    method FindUnleased() returns (r: int)
      requires WellFormed(State())
      ensures r == EvictionIndex(entries, LeasedSlots(State()))
    {
      r := |entries| - 1;
      while r >= 0 && slots[entries[r].payload].HasExternalLease()
        invariant -1 <= r < |entries|
        invariant forall i :: r < i < |entries| ==> entries[i].payload in LeasedSlots(State())
      {
        r := r - 1;
      }
    }

    method InsertEvictingAt(key: Key, value: Value, now: nat)
      returns (outcome: Result<InsertOutcome, InsertError>)
      requires WellFormed(State())
      modifies this
      ensures (State(), outcome) ==
              InsertEvicting(old(State()), LeasedSlots(old(State())), key, value, now)
      ensures WellFormed(State())
    {
      if IndexOf(entries, key) >= 0 {
        return Failure(DuplicateKey);
      }
      var expiresAt := now + ttl;
      if |entries| < capacity {
        InsertNewWellFormed(State(), key, value, expiresAt);
        PutFront(key, value, expiresAt);
        return Success(Inserted);
      }
      var i := FindUnleased();
      if i < 0 {
        return Failure(AllEntriesLeased);
      }
      var evicted := entries[i];
      DetachWellFormed(State(), i);
      Pop(i);
      InsertNewWellFormed(State(), key, value, expiresAt);
      outcome := Success(if evicted.expiresAt <= now then ReclaimedExpired else EvictedLeastRecentlyUsed);
      PutFront(key, value, expiresAt);
    }

    method AcquireAt(key: Key, now: nat) returns (lease: Option<SlotId>)
      requires WellFormed(State())
      modifies this
      ensures (State(), lease) == Acquire(old(State()), LeasedSlots(old(State())), key, now)
      ensures WellFormed(State())
    {
      var i := IndexOf(entries, key);
      if i < 0 {
        return None;
      }
      var s := entries[i].payload;
      if entries[i].expiresAt <= now && !slots[s].HasExternalLease() {
        DetachWellFormed(State(), i);
        Pop(i);
        return None;
      }
      if slots[s].leases == USIZE_MAX {
        return None;
      }
      slots := slots[s := slots[s].(leases := slots[s].leases + 1, strong := slots[s].strong + 1)];
      lease := Some(s);
    }

    method TouchAt(key: Key, now: nat) returns (touched: bool)
      requires WellFormed(State())
      modifies this
      ensures (State(), touched) == Touch(old(State()), LeasedSlots(old(State())), key, now)
      ensures WellFormed(State())
    {
      var i := IndexOf(entries, key);
      if i < 0 {
        return false;
      }
      if entries[i].expiresAt <= now && !slots[entries[i].payload].HasExternalLease() {
        DetachWellFormed(State(), i);
        Pop(i);
        return false;
      }
      MoveFrontWellFormed(State(), i, now + ttl);
      entries := [entries[i].(expiresAt := now + ttl)] + RemoveAt(entries, i);
      touched := true;
    }

    /** The purge snapshot; the loop breaks at the first live entry. */
    method ExpiredUnleasedKeysAt(now: nat) returns (keys: seq<Key>)
      requires WellFormed(State())
      ensures keys == ExpiredUnleasedKeys(entries, LeasedSlots(State()), now)
    {
      keys := [];
      var n := |entries|;
      ghost var seen := LeasedSlots(State());
      assert entries[..n] == entries;
      while n > 0 && entries[n - 1].expiresAt <= now
        invariant 0 <= n <= |entries|
        invariant keys + ExpiredUnleasedKeys(entries[..n], seen, now) == ExpiredUnleasedKeys(entries, seen, now)
      {
        assert entries[..n][..n - 1] == entries[..n - 1];
        if !slots[entries[n - 1].payload].HasExternalLease() {
          keys := keys + [entries[n - 1].key];
        }
        n := n - 1;
      }
    }

    /** Revalidates a candidate batch and detaches the slots that are still due. */
    method RetireExpiredCandidatesAt(keys: seq<Key>, now: nat)
      returns (retired: seq<Entry<Key, SlotId>>)
      requires WellFormed(State())
      modifies this
      ensures (State(), retired) == RetireCandidates(old(State()), LeasedSlots(old(State())), keys, now)
      ensures WellFormed(State())
    {
      retired := [];
      ghost var seen := LeasedSlots(State());
      var n := 0;
      assert keys[0..] == keys;
      ghost var all := RetireCandidates(State(), seen, keys, now);
      assert [] + all.1 == all.1;
      while n < |keys|
        invariant 0 <= n <= |keys|
        invariant WellFormed(State())
        invariant forall i :: 0 <= i < |entries| ==>
          (entries[i].payload in seen <==> slots[entries[i].payload].HasExternalLease())
        invariant var rest := RetireCandidates(State(), seen, keys[n..], now);
          rest.0 == all.0 && retired + rest.1 == all.1
      {
        assert keys[n..][1..] == keys[n + 1..];
        var i := IndexOf(entries, keys[n]);
        if i >= 0 && entries[i].expiresAt <= now && !slots[entries[i].payload].HasExternalLease() {
          ghost var tail := RetireCandidates(Detach(State(), i), seen, keys[n + 1..], now).1;
          assert retired + ([entries[i]] + tail) == (retired + [entries[i]]) + tail;
          retired := retired + [entries[i]];
          DetachWellFormed(State(), i);
          Pop(i);
        }
        n := n + 1;
      }
      assert keys[n..] == [];
      assert retired + [] == retired;
    }

    method Pop(i: nat)
      requires i < |entries|
      modifies this
      ensures State() == Detach(old(State()), i)
    {
      slots := slots - {entries[i].payload};
      entries := RemoveAt(entries, i);
    }

    method PutFront(key: Key, value: Value, expiresAt: nat)
      modifies this
      ensures State() == InsertNew(old(State()), key, value, expiresAt)
    {
      entries := [Entry(key, nextSlot, expiresAt)] + entries;
      slots := slots[nextSlot := LeaseSlot(value, 0, 1)];
      nextSlot := nextSlot + 1;
    }
  }

  // ---------- Shape lemmas ----------

  lemma DetachWellFormed(c: Cache, i: nat)
    requires WellFormed(c) && i < |c.entries|
    ensures WellFormed(Detach(c, i))
    ensures forall k, s :: Holds(c.entries, k, s) && s != c.entries[i].payload ==> Holds(Detach(c, i).entries, k, s)
  {
    var d := Detach(c, i);
    forall k, s | Holds(c.entries, k, s) && s != c.entries[i].payload
      ensures Holds(d.entries, k, s)
    {
      var j := IndexOf(c.entries, k);
      assert d.entries[if j < i then j else j - 1] == c.entries[j];
    }
  }

  lemma InsertNewWellFormed(c: Cache, key: Key, value: Value, expiresAt: nat)
    requires WellFormed(c) && |c.entries| < c.capacity && IndexOf(c.entries, key) < 0
    ensures WellFormed(InsertNew(c, key, value, expiresAt))
    ensures forall k, s :: Holds(c.entries, k, s) ==> Holds(InsertNew(c, key, value, expiresAt).entries, k, s)
  {
    var d := InsertNew(c, key, value, expiresAt);
    forall k, s | Holds(c.entries, k, s)
      ensures Holds(d.entries, k, s)
    {
      var j := IndexOf(c.entries, k);
      assert d.entries[j + 1] == c.entries[j];
    }
    forall i | 0 <= i < |d.entries|
      ensures d.entries[i].payload in d.slots
      ensures 0 < i ==> d.entries[i].payload != c.nextSlot && d.entries[i].key != key
    {
      if 0 < i { assert d.entries[i] == c.entries[i - 1]; }
    }
  }

  lemma MoveFrontWellFormed(c: Cache, i: nat, expiresAt: nat)
    requires WellFormed(c) && i < |c.entries|
    ensures var d := c.(entries := [c.entries[i].(expiresAt := expiresAt)] + RemoveAt(c.entries, i));
            && WellFormed(d)
            && (forall k, s :: Holds(c.entries, k, s) ==> Holds(d.entries, k, s))
  {
    var d := c.(entries := [c.entries[i].(expiresAt := expiresAt)] + RemoveAt(c.entries, i));
    forall k, s | Holds(c.entries, k, s)
      ensures Holds(d.entries, k, s)
    {
      var j := IndexOf(c.entries, k);
      assert d.entries[if j == i then 0 else if j < i then j + 1 else j].payload == s;
    }
  }
}
