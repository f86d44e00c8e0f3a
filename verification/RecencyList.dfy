/**
 The recency list behind both secret caches.

 The source keeps its entries in a `CLruCache`: iteration runs from the most to the
 least recently used entry, `put` and `get_mut` place an entry in front, `peek` leaves the
 order alone, `pop` removes one key and `pop_back` the least recently used entry.
 Here the list is a sequence, front first, and these operations are index arithmetic.
 */
module RecencyList {

  /** A cached payload under its key with its deadline. */
  datatype Entry<K, P> = Entry(key: K, payload: P, expiresAt: nat)

  ghost predicate DistinctKeys<K, P>(es: seq<Entry<K, P>>) {
    forall i, j :: 0 <= i < j < |es| ==> es[i].key != es[j].key
  }

  /** Deadlines never decrease from the back (least recent) to the front (most recent). */
  ghost predicate Ordered<K, P>(es: seq<Entry<K, P>>) {
    forall i, j :: 0 <= i < j < |es| ==> es[j].expiresAt <= es[i].expiresAt
  }

  /** Every deadline is at most `bound`, so an entry with that deadline may go in front. */
  ghost predicate DueBy<K, P>(es: seq<Entry<K, P>>, bound: nat) {
    forall i :: 0 <= i < |es| ==> es[i].expiresAt <= bound
  }

  /** The position of `key` from `start` on, or -1. */
  function IndexFrom<K(==), P>(es: seq<Entry<K, P>>, key: K, start: nat): (r: int)
    requires start <= |es|
    ensures r == -1 || start <= r < |es|
    ensures r >= 0 ==> es[r].key == key
    ensures forall i :: start <= i < (if r < 0 then |es| else r) ==> es[i].key != key
    decreases |es| - start
  {
    if start == |es| then -1
    else if es[start].key == key then start
    else IndexFrom(es, key, start + 1)
  }

  /** The position of `key`, or -1. */
  function IndexOf<K(==), P>(es: seq<Entry<K, P>>, key: K): (r: int)
    ensures -1 <= r < |es|
    ensures r >= 0 ==> es[r].key == key
    ensures forall i :: 0 <= i < (if r < 0 then |es| else r) ==> es[i].key != key
  {
    IndexFrom(es, key, 0)
  }

  function RemoveAt<T>(s: seq<T>, i: nat): (r: seq<T>)
    requires i < |s|
    ensures |r| == |s| - 1
    ensures forall j :: 0 <= j < |r| ==> r[j] == if j < i then s[j] else s[j + 1]
  {
    seq(|s| - 1, j requires 0 <= j < |s| - 1 => if j < i then s[j] else s[j + 1])
  }

  /** The elements that satisfy `p`, in their order: the reference for every scan below. */
  function Filter<T>(s: seq<T>, p: T -> bool): (r: seq<T>)
  {
    if s == [] then []
    else if p(s[0]) then [s[0]] + Filter(s[1..], p)
    else Filter(s[1..], p)
  }

  function Reversed<T>(s: seq<T>): (r: seq<T>)
    ensures |r| == |s|
    ensures forall i :: 0 <= i < |s| ==> r[i] == s[|s| - 1 - i]
  {
    if s == [] then [] else Reversed(s[1..]) + [s[0]]
  }

  lemma {:induction false} FilterAppend<T>(s: seq<T>, t: seq<T>, p: T -> bool)
    ensures Filter(s + t, p) == Filter(s, p) + Filter(t, p)
  {
    if s == [] {
      assert s + t == t;
    } else {
      assert (s + t)[1..] == s[1..] + t;
      FilterAppend(s[1..], t, p);
    }
  }

  lemma FilterLast<T>(s: seq<T>, x: T, p: T -> bool)
    ensures Filter(s + [x], p) == Filter(s, p) + (if p(x) then [x] else [])
  {
    FilterAppend(s, [x], p);
    assert [x][1..] == [];
  }

  lemma {:induction false} FilterAll<T>(s: seq<T>, p: T -> bool)
    requires forall i :: 0 <= i < |s| ==> p(s[i])
    ensures Filter(s, p) == s
  {
    if s != [] { FilterAll(s[1..], p); }
  }

  lemma {:induction false} FilterNone<T>(s: seq<T>, p: T -> bool)
    requires forall i :: 0 <= i < |s| ==> !p(s[i])
    ensures Filter(s, p) == []
  {
    if s != [] { FilterNone(s[1..], p); }
  }

  lemma {:induction false} FilterMember<T>(s: seq<T>, p: T -> bool, x: T)
    ensures x in Filter(s, p) <==> x in s && p(x)
  {
    if s != [] {
      FilterMember(s[1..], p, x);
      assert s == [s[0]] + s[1..];
    }
  }

  /** In an ordered list the expired entries are a suffix, so cutting there is filtering. */
  lemma SuffixIsFilter<K, P>(es: seq<Entry<K, P>>, cut: nat, now: nat)
    requires cut <= |es|
    requires forall i :: 0 <= i < cut ==> now < es[i].expiresAt
    requires forall i :: cut <= i < |es| ==> es[i].expiresAt <= now
    ensures Filter(es, (e: Entry<K, P>) => now < e.expiresAt) == es[..cut]
    ensures Filter(es, (e: Entry<K, P>) => e.expiresAt <= now) == es[cut..]
  {
    var live := (e: Entry<K, P>) => now < e.expiresAt;
    var expired := (e: Entry<K, P>) => e.expiresAt <= now;
    assert es == es[..cut] + es[cut..];
    FilterAppend(es[..cut], es[cut..], live);
    FilterAppend(es[..cut], es[cut..], expired);
    FilterAll(es[..cut], live);
    FilterNone(es[cut..], live);
    FilterNone(es[..cut], expired);
    FilterAll(es[cut..], expired);
  }

  /** `key` leads to `payload`, due no earlier than `deadline`, at most `depth` entries back. */
  predicate At<K(==), P(==)>(es: seq<Entry<K, P>>, key: K, payload: P, deadline: nat, depth: int) {
    var i := IndexOf(es, key);
    0 <= i <= depth && es[i].payload == payload && deadline <= es[i].expiresAt
  }

  lemma RemoveLeavesAt<K, P>(es: seq<Entry<K, P>>, i: nat, key: K, payload: P, deadline: nat, depth: int)
    requires DistinctKeys(es) && i < |es| && At(es, key, payload, deadline, depth) && i != IndexOf(es, key)
    ensures At(RemoveAt(es, i), key, payload, deadline, depth)
  {
    var j := IndexOf(es, key);
    assert RemoveAt(es, i)[if j < i then j else j - 1] == es[j];
  }

  lemma PrefixIndex<K, P>(es: seq<Entry<K, P>>, cut: nat, key: K)
    requires cut <= |es|
    ensures IndexOf(es[..cut], key) == if IndexOf(es, key) < cut then IndexOf(es, key) else -1
  {
    var i, j := IndexOf(es[..cut], key), IndexOf(es, key);
    if 0 <= j < cut { assert es[..cut][j] == es[j]; }
    if 0 <= i { assert es[i] == es[..cut][i]; }
  }

  lemma RemoveLeavesAbsent<K, P>(es: seq<Entry<K, P>>, i: nat, key: K)
    requires IndexOf(es, key) < 0 && i < |es|
    ensures IndexOf(RemoveAt(es, i), key) < 0
  {
  }

  lemma FrontPushesAt<K, P>(e: Entry<K, P>, es: seq<Entry<K, P>>, key: K, payload: P, deadline: nat, depth: int)
    requires DistinctKeys(es) && e.key != key && At(es, key, payload, deadline, depth)
    ensures At([e] + es, key, payload, deadline, depth + 1)
  {
    var j := IndexOf(es, key);
    assert ([e] + es)[j + 1] == es[j];
  }
}
