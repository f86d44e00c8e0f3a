/**
 The bounded cache of pending attestations: a fixed-capacity recency list with a fixed TTL.
 Insertion always succeeds and replaces or evicts the oldest entry, a value is taken at most
 once and only before its deadline, and expired values are wiped and retired from the back.
 */
module BoundedCache {
  import opened Options
  import opened RecencyList

  type Key(==, !new)
  type Value(!new)
  type Timed<V> = Entry<Key, V>

  datatype InsertOutcome = Inserted | Replaced | ReclaimedExpired | EvictedOldest

  ghost predicate WellFormed<V>(es: seq<Timed<V>>, capacity: nat) {
    0 < capacity && |es| <= capacity && DistinctKeys(es)
  }

  // ---------- Operations ----------

  function Insert<V>(es: seq<Timed<V>>, capacity: nat, ttl: nat, key: Key, value: V, now: nat)
    : (r: (seq<Timed<V>>, InsertOutcome))
    requires 0 < capacity
  {
    var front := [Entry(key, value, now + ttl)];
    var i := IndexOf(es, key);
    if i >= 0 then (front + RemoveAt(es, i), Replaced)
    else if |es| < capacity then (front + es, Inserted)
    else
      var oldest := |es| - 1;
      (front + RemoveAt(es, oldest), if es[oldest].expiresAt <= now then ReclaimedExpired else EvictedOldest)
  }

  function Take<V>(es: seq<Timed<V>>, key: Key, now: nat): (r: (seq<Timed<V>>, Option<V>)) {
    var i := IndexOf(es, key);
    if i < 0 then (es, None)
    else (RemoveAt(es, i), if es[i].expiresAt <= now then None else Some(es[i].payload))
  }

  /** The length of the expired tail, counted from the back up to the first live entry. */
  function ExpiredTail<V>(es: seq<Timed<V>>, now: nat): (r: nat)
    ensures r <= |es|
    ensures forall i :: |es| - r <= i < |es| ==> es[i].expiresAt <= now
    ensures r < |es| ==> now < es[|es| - r - 1].expiresAt
  {
    if es == [] || now < es[|es| - 1].expiresAt then 0
    else 1 + ExpiredTail(es[..|es| - 1], now)
  }

  function Retire<V>(es: seq<Timed<V>>, now: nat): (r: seq<Timed<V>>) {
    es[..|es| - ExpiredTail(es, now)]
  }

  /** With recency order equal to deadline order, the tail count removes exactly the expired
      entries, wherever they are, and keeps the live ones in their order. */
  lemma TailIsFilter<V>(es: seq<Timed<V>>, now: nat)
    requires Ordered(es)
    ensures Retire(es, now) == Filter(es, (e: Timed<V>) => now < e.expiresAt)
    ensures es[|es| - ExpiredTail(es, now)..] == Filter(es, (e: Timed<V>) => e.expiresAt <= now)
  {
    SuffixIsFilter(es, |es| - ExpiredTail(es, now), now);
  }

  /** A live entry is evicted only when nothing in the cache is expired. */
  lemma LiveEvictionMeansNothingExpired<V>(es: seq<Timed<V>>, capacity: nat, ttl: nat, key: Key, value: V, now: nat)
    requires WellFormed(es, capacity) && Ordered(es)
    requires Insert(es, capacity, ttl, key, value, now).1 == EvictedOldest
    ensures Filter(es, (e: Timed<V>) => e.expiresAt <= now) == []
  {
    FilterNone(es, (e: Timed<V>) => e.expiresAt <= now);
  }

  /** Each answer of an insertion, exactly, and what it leaves: the value in front with a fresh
      deadline, and the others behind it in their order but for the one it replaced or pushed out. */
  lemma InsertExact<V>(es: seq<Timed<V>>, capacity: nat, ttl: nat, key: Key, value: V, now: nat, i: nat)
    requires WellFormed(es, capacity)
    requires (exists j :: 0 <= j < |es| && es[j].key == key) ==> i < |es| && es[i].key == key
    ensures var (r, outcome) := Insert(es, capacity, ttl, key, value, now);
            var present := exists j :: 0 <= j < |es| && es[j].key == key;
            && |r| > 0 && r[0] == Entry(key, value, now + ttl)
            && (present ==> outcome == Replaced && r[1..] == es[..i] + es[i + 1..])
            && (!present && |es| < capacity ==> outcome == Inserted && r[1..] == es)
            && (!present && |es| == capacity ==>
                  && r[1..] == es[..|es| - 1]
                  && outcome == if es[|es| - 1].expiresAt <= now then ReclaimedExpired else EvictedOldest)
  {
    if exists j :: 0 <= j < |es| && es[j].key == key {
      assert IndexOf(es, key) == i;
      assert RemoveAt(es, i) == es[..i] + es[i + 1..];
    } else if |es| == capacity {
      assert RemoveAt(es, |es| - 1) == es[..|es| - 1];
    }
  }

  /** A take removes the key's entry, whatever its deadline, and answers with its value before it. */
  lemma TakeExact<V>(es: seq<Timed<V>>, key: Key, now: nat, i: nat)
    requires DistinctKeys(es) && ((exists j :: 0 <= j < |es| && es[j].key == key) ==> i < |es| && es[i].key == key)
    ensures var (r, got) := Take(es, key, now);
            if exists j :: 0 <= j < |es| && es[j].key == key
            then r == es[..i] + es[i + 1..] && got == if now < es[i].expiresAt then Some(es[i].payload) else None
            else r == es && got.None?
  {
    if exists j :: 0 <= j < |es| && es[j].key == key {
      assert IndexOf(es, key) == i;
      assert RemoveAt(es, i) == es[..i] + es[i + 1..];
    }
  }

  // ---------- The cache object ----------

  class BoundedTtlCache {
    var entries: seq<Timed<Value>>
    const capacity: nat
    const ttl: nat

    constructor (capacity: nat, ttl: nat)
      requires 0 < capacity
      ensures entries == [] && this.capacity == capacity && this.ttl == ttl
    {
      this.capacity, this.ttl, entries := capacity, ttl, [];
    }

    method InsertEvictingAt(key: Key, value: Value, now: nat) returns (outcome: InsertOutcome)
      requires WellFormed(entries, capacity)
      modifies this
      ensures (entries, outcome) == Insert(old(entries), capacity, ttl, key, value, now)
      ensures WellFormed(entries, capacity)
    {
      InsertWellFormed(entries, capacity, ttl, key, value, now);
      var expiresAt := now + ttl;
      var i := IndexOf(entries, key);
      if i >= 0 {
        entries := RemoveAt(entries, i);
        entries := [Entry(key, value, expiresAt)] + entries;
        return Replaced;
      }
      outcome := Inserted;
      if |entries| == capacity {
        var oldest := entries[|entries| - 1];
        entries := RemoveAt(entries, |entries| - 1);
        outcome := if oldest.expiresAt <= now then ReclaimedExpired else EvictedOldest;
      }
      entries := [Entry(key, value, expiresAt)] + entries;
    }

    method TakeLiveAt(key: Key, now: nat) returns (taken: Option<Value>)
      requires WellFormed(entries, capacity)
      modifies this
      ensures (entries, taken) == Take(old(entries), key, now)
      ensures WellFormed(entries, capacity)
    {
      var i := IndexOf(entries, key);
      if i < 0 {
        return None;
      }
      var entry := entries[i];
      entries := RemoveAt(entries, i);
      if entry.expiresAt <= now {
        return None;
      }
      taken := Some(entry.payload);
    }

    /** Counts the expired tail, then wipes and moves out that many entries, oldest first. */
    method RetireExpiredAt(now: nat, wiped: Value) returns (retired: seq<Timed<Value>>)
      requires WellFormed(entries, capacity)
      modifies this
      ensures entries == Retire(old(entries), now)
      ensures |retired| == ExpiredTail(old(entries), now)
      ensures forall i :: 0 <= i < |retired| ==>
                retired[i] == old(entries)[|old(entries)| - 1 - i].(payload := wiped)
      ensures WellFormed(entries, capacity)
    {
      var count := CountExpired(now);
      ghost var all := entries;
      retired := [];
      for k := 0 to count
        invariant |entries| == |all| - k && entries == all[..|all| - k] && |retired| == k
        invariant forall i :: 0 <= i < k ==> retired[i] == all[|all| - 1 - i].(payload := wiped)
      {
        var back := |entries| - 1;
        var last := entries[back].(payload := wiped);
        entries := entries[back := last];
        retired := retired + [last];
        entries := entries[..back];
      }
    }

    /** The number of entries from the back up to the first live one. */
    method CountExpired(now: nat) returns (count: nat)
      ensures count == ExpiredTail(entries, now)
    {
      count := 0;
      while count < |entries| && entries[|entries| - 1 - count].expiresAt <= now
        invariant count <= |entries|
        invariant forall i :: |entries| - count <= i < |entries| ==> entries[i].expiresAt <= now
      {
        count := count + 1;
      }
    }
  }

  lemma InsertWellFormed<V>(es: seq<Timed<V>>, capacity: nat, ttl: nat, key: Key, value: V, now: nat)
    requires WellFormed(es, capacity)
    ensures WellFormed(Insert(es, capacity, ttl, key, value, now).0, capacity)
  {
    var r := Insert(es, capacity, ttl, key, value, now).0;
    var i := IndexOf(es, key);
    if i >= 0 {
      assert r[1..] == RemoveAt(es, i);
    } else if |es| < capacity {
      assert r[1..] == es;
    } else {
      assert r[1..] == RemoveAt(es, |es| - 1);
    }
    assert forall j :: 0 < j < |r| ==> r[j] == r[1..][j - 1];
  }
}
