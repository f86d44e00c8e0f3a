/**
 The per-provider store of OAuth `state` values (section 10.12 of RFC 6749). Every call prunes
 by the clock it was given; clocks are read before the lock, so the readings come in any order.
 */
module OAuthStore {

  datatype OAuthState = OAuthState(csrfToken: string, clientId: nat)
  datatype Stored = Stored(state: OAuthState, expiresAt: nat)
  type Entries = map<string, Stored>

  function Pruned(entries: Entries, now: nat): (r: Entries) {
    map t | t in entries && now < entries[t].expiresAt :: entries[t]
  }

  /** The store refuses a new token when the pruned map is full, and replaces a known one. */
  function StoreAt(entries: Entries, ttl: nat, capacity: nat, token: string, state: OAuthState, now: nat): (r: (Entries, bool)) {
    var kept := Pruned(entries, now);
    if token !in kept && |kept| >= capacity then (kept, false)
    else (kept[token := Stored(state, now + ttl)], true)
  }

  function ConsumeAt(entries: Entries, state: OAuthState, now: nat): (r: (Entries, bool)) {
    var kept := Pruned(entries, now);
    if state.csrfToken in kept && kept[state.csrfToken].state == state then (kept - {state.csrfToken}, true)
    else (kept, false)
  }

  class OAuthStateStore {
    var entries: Entries
    const ttl: nat
    const capacity: nat

    constructor (ttl: nat, capacity: nat)
      requires 0 < capacity
      ensures entries == map[] && this.ttl == ttl && this.capacity == capacity
    {
      entries, this.ttl, this.capacity := map[], ttl, capacity;
    }

    method Store(token: string, state: OAuthState, now: nat) returns (accepted: bool)
      modifies this
      ensures (entries, accepted) == StoreAt(old(entries), ttl, capacity, token, state, now)
    {
      entries := Pruned(entries, now);
      if token !in entries && |entries| >= capacity {
        return false;
      }
      entries := entries[token := Stored(state, now + ttl)];
      accepted := true;
    }

    method Consume(state: OAuthState, now: nat) returns (matched: bool)
      modifies this
      ensures (entries, matched) == ConsumeAt(old(entries), state, now)
    {
      entries := Pruned(entries, now);
      matched := state.csrfToken in entries && entries[state.csrfToken].state == state;
      if matched {
        entries := entries - {state.csrfToken};
      }
    }
  }

  // ---------- Histories ----------

  datatype Request = StoreRequest(token: string, state: OAuthState, now: nat) | ConsumeRequest(state: OAuthState, now: nat)
  datatype Call = Call(request: Request, ok: bool)

  function Token(r: Request): (t: string) {
    if r.StoreRequest? then r.token else r.state.csrfToken
  }

  /** The answered calls so far, and for each entry the call that stored it. */
  datatype World = World(entries: Entries, origin: map<string, nat>, log: seq<Call>)
  datatype Limits = Limits(ttl: nat, capacity: nat)

  function Answer(limits: Limits, entries: Entries, r: Request): (a: (Entries, bool)) {
    match r
    case StoreRequest(token, state, now) => StoreAt(entries, limits.ttl, limits.capacity, token, state, now)
    case ConsumeRequest(state, now) => ConsumeAt(entries, state, now)
  }

  function Next(limits: Limits, w: World, r: Request): (w': World) {
    var (entries, ok) := Answer(limits, w.entries, r);
    var origin := if r.StoreRequest? && ok then w.origin[r.token := |w.log|] else w.origin;
    World(entries, map t | t in origin && t in entries :: origin[t], w.log + [Call(r, ok)])
  }

  function Run(limits: Limits, requests: seq<Request>): (w: World) {
    if requests == [] then World(map[], map[], [])
    else Next(limits, Run(limits, requests[..|requests| - 1]), requests[|requests| - 1])
  }

  // ---------- What a history says, without the map ----------

  /** Call `c` ended the life of an earlier entry for `token`: it replaced or consumed it. */
  predicate Ends(c: Call, token: string) {
    c.ok && Token(c.request) == token
  }

  /** Call `i` stored a state that no later call replaced, consumed or outlived. */
  ghost predicate Alive(log: seq<Call>, ttl: nat, i: nat) {
    && i < |log| && log[i].request.StoreRequest? && log[i].ok
    && forall k :: i < k < |log| ==> log[k].request.now < log[i].request.now + ttl && !Ends(log[k], log[i].request.token)
  }

  ghost predicate AliveUntil(log: seq<Call>, ttl: nat, i: nat, now: nat) {
    Alive(log, ttl, i) && now < log[i].request.now + ttl
  }

  ghost predicate Recorded(limits: Limits, w: World, t: string)
    requires t in w.entries
  {
    && t in w.origin && Alive(w.log, limits.ttl, w.origin[t])
    && var r := w.log[w.origin[t]].request;
       r.token == t && w.entries[t] == Stored(r.state, r.now + limits.ttl)
  }

  /** The map holds exactly the stores that the history leaves alive, at most `capacity`. */
  ghost predicate Valid(limits: Limits, w: World) {
    && w.origin.Keys == w.entries.Keys
    && (forall t :: t in w.entries ==> Recorded(limits, w, t))
    && (forall i: nat :: Alive(w.log, limits.ttl, i) ==>
          w.log[i].request.token in w.origin && w.origin[w.log[i].request.token] == i)
    && |w.entries| <= limits.capacity
  }

  lemma AliveStep(log: seq<Call>, c: Call, ttl: nat, i: nat)
    ensures Alive(log + [c], ttl, i) <==>
              if i == |log| then c.request.StoreRequest? && c.ok
              else AliveUntil(log, ttl, i, c.request.now) && !Ends(c, log[i].request.token)
  {
    var log' := log + [c];
    assert forall k :: 0 <= k < |log| ==> log'[k] == log[k];
    if i < |log| && Alive(log', ttl, i) {
      assert log'[|log|] == c;
    }
  }

  lemma PrunedSize(entries: Entries, now: nat)
    ensures |Pruned(entries, now)| <= |entries|
  {
    SubsetSize(Pruned(entries, now).Keys, entries.Keys);
  }

  lemma {:induction false} SubsetSize<T>(a: set<T>, b: set<T>)
    requires a <= b
    ensures |a| <= |b|
  {
    if a != {} {
      var x :| x in a;
      SubsetSize(a - {x}, b - {x});
    }
  }

  lemma SizeKept(limits: Limits, entries: Entries, r: Request)
    requires |entries| <= limits.capacity
    ensures |Answer(limits, entries, r).0| <= limits.capacity
  {
    PrunedSize(entries, r.now);
    var kept := Pruned(entries, r.now);
    if r.StoreRequest? {
      if r.token in kept { assert kept[r.token := Stored(r.state, r.now + limits.ttl)].Keys == kept.Keys; }
    } else {
      SubsetSize((kept - {r.state.csrfToken}).Keys, kept.Keys);
    }
  }

  /** What one answer does to the entry of each token. */
  lemma AnswerAt(limits: Limits, entries: Entries, r: Request, t: string)
    ensures var (entries', ok) := Answer(limits, entries, r);
            && (ok && Token(r) == t && r.StoreRequest? ==> t in entries' && entries'[t] == Stored(r.state, r.now + limits.ttl))
            && (ok && Token(r) == t && r.ConsumeRequest? ==> t !in entries')
            && (!(ok && Token(r) == t) ==>
                  && (t in entries' <==> t in entries && r.now < entries[t].expiresAt)
                  && (t in entries' ==> entries'[t] == entries[t]))
  {
  }

  lemma EntriesRecorded(limits: Limits, w: World, r: Request, w': World, t: string)
    requires w.origin.Keys == w.entries.Keys && (t in w.entries ==> Recorded(limits, w, t))
    requires w' == Next(limits, w, r) && t in w'.entries
    ensures Recorded(limits, w', t)
  {
    var c := Call(r, Answer(limits, w.entries, r).1);
    AnswerAt(limits, w.entries, r, t);
    if Ends(c, t) {
      AliveStep(w.log, c, limits.ttl, |w.log|);
    } else {
      AliveStep(w.log, c, limits.ttl, w.origin[t]);
    }
  }

  lemma AliveRecorded(limits: Limits, w: World, r: Request, w': World, i: nat)
    requires Valid(limits, w) && w' == Next(limits, w, r) && Alive(w'.log, limits.ttl, i)
    ensures w'.log[i].request.token in w'.origin && w'.origin[w'.log[i].request.token] == i
  {
    var c := Call(r, Answer(limits, w.entries, r).1);
    AliveStep(w.log, c, limits.ttl, i);
    if i < |w.log| {
      var t := w.log[i].request.token;
      assert Recorded(limits, w, t);
      AnswerAt(limits, w.entries, r, t);
    } else {
      AnswerAt(limits, w.entries, r, r.token);
    }
  }

  lemma StepKeeps(limits: Limits, w: World, r: Request)
    requires Valid(limits, w)
    ensures Valid(limits, Next(limits, w, r))
  {
    var w' := Next(limits, w, r);
    forall t | t in w'.entries
      ensures Recorded(limits, w', t)
    {
      EntriesRecorded(limits, w, r, w', t);
    }
    forall i: nat | Alive(w'.log, limits.ttl, i)
      ensures w'.log[i].request.token in w'.origin && w'.origin[w'.log[i].request.token] == i
    {
      AliveRecorded(limits, w, r, w', i);
    }
    assert |w'.entries| <= limits.capacity by { SizeKept(limits, w.entries, r); }
  }

  lemma {:induction false} RunKeeps(limits: Limits, requests: seq<Request>)
    ensures Valid(limits, Run(limits, requests))
  {
    if requests != [] {
      RunKeeps(limits, requests[..|requests| - 1]);
      StepKeeps(limits, Run(limits, requests[..|requests| - 1]), requests[|requests| - 1]);
    }
  }

  // ---------- What every history promises ----------

  /** The stores still alive at `now`. */
  ghost function Living(log: seq<Call>, ttl: nat, now: nat): (r: set<nat>)
    ensures forall i :: i in r <==> 0 <= i < |log| && AliveUntil(log, ttl, i, now)
  {
    set i: nat | i < |log| && AliveUntil(log, ttl, i, now)
  }

  /** Tokens and the calls that stored them correspond one to one. */
  lemma {:induction false} SameSize(tokens: set<string>, calls: set<nat>, origin: map<string, nat>, log: seq<Call>)
    requires forall t :: t in tokens ==> t in origin && origin[t] in calls && origin[t] < |log| && Token(log[origin[t]].request) == t
    requires forall i :: i in calls ==> i < |log| && Token(log[i].request) in tokens && origin[Token(log[i].request)] == i
    ensures |tokens| == |calls|
  {
    if tokens == {} {
      assert calls == {};
    } else {
      var t :| t in tokens;
      SameSize(tokens - {t}, calls - {origin[t]}, origin, log);
    }
  }

  /** As many entries survive pruning as the history leaves alive. */
  lemma PrunedAreLiving(limits: Limits, w: World, now: nat)
    requires Valid(limits, w)
    ensures |Pruned(w.entries, now)| == |Living(w.log, limits.ttl, now)|
  {
    var tokens := Pruned(w.entries, now).Keys;
    var living := Living(w.log, limits.ttl, now);
    forall t | t in tokens
      ensures t in w.origin && w.origin[t] in living && w.origin[t] < |w.log| && Token(w.log[w.origin[t]].request) == t
    {
      assert Recorded(limits, w, t);
    }
    forall i | i in living
      ensures i < |w.log| && Token(w.log[i].request) in tokens && w.origin[Token(w.log[i].request)] == i
    {
      assert Recorded(limits, w, w.log[i].request.token);
    }
    SameSize(tokens, living, w.origin, w.log);
  }

  /** A callback is accepted exactly when the history leaves alive a store of that very state
      under its token; that store is the only one. */
  lemma ConsumeExact(limits: Limits, requests: seq<Request>, state: OAuthState, now: nat)
    ensures var w := Run(limits, requests);
            && (ConsumeAt(w.entries, state, now).1 <==>
                  exists i: nat :: AliveUntil(w.log, limits.ttl, i, now) && w.log[i].request.token == state.csrfToken && w.log[i].request.state == state)
            && (forall i: nat, j: nat :: Alive(w.log, limits.ttl, i) && Alive(w.log, limits.ttl, j) && w.log[i].request.token == w.log[j].request.token ==>
                  i == j)
  {
    var w := Run(limits, requests);
    RunKeeps(limits, requests);
    if state.csrfToken in w.entries { assert Recorded(limits, w, state.csrfToken); }
    forall i: nat | AliveUntil(w.log, limits.ttl, i, now) && w.log[i].request.token == state.csrfToken
      ensures state.csrfToken in w.entries && Recorded(limits, w, state.csrfToken) && w.origin[state.csrfToken] == i
    {
    }
  }

  /** A store is refused exactly when its token has no living store and `capacity` other stores
      are alive at its clock; there are never more than `capacity`. */
  lemma StoreExact(limits: Limits, requests: seq<Request>, token: string, state: OAuthState, now: nat)
    ensures var w := Run(limits, requests); var living := Living(w.log, limits.ttl, now);
            && |living| <= limits.capacity
            && (!StoreAt(w.entries, limits.ttl, limits.capacity, token, state, now).1 <==>
                  |living| == limits.capacity && forall i :: i in living ==> w.log[i].request.token != token)
  {
    var w := Run(limits, requests);
    RunKeeps(limits, requests);
    PrunedAreLiving(limits, w, now);
    PrunedSize(w.entries, now);
    var living := Living(w.log, limits.ttl, now);
    if token in w.entries { assert Recorded(limits, w, token); }
    forall i | i in living && w.log[i].request.token == token
      ensures token in Pruned(w.entries, now)
    {
      assert Recorded(limits, w, token);
    }
  }

  // ---------- One store, one callback ----------

  /** Callback `j` was answered by store `i`. */
  ghost predicate Answers(log: seq<Call>, ttl: nat, i: nat, j: nat) {
    && i < j < |log| && log[j].ok && log[j].request.ConsumeRequest?
    && Alive(log[..j], ttl, i)
    && log[i].request.token == log[j].request.state.csrfToken && log[i].request.state == log[j].request.state
  }

  /** No store answers two callbacks. */
  lemma ConsumedOnce(log: seq<Call>, ttl: nat, i: nat, j: nat, k: nat)
    requires Answers(log, ttl, i, j) && Answers(log, ttl, i, k)
    ensures j == k
  {
    if j < k { assert Ends(log[..k][j], log[..k][i].request.token); }
    if k < j { assert Ends(log[..j][k], log[..j][i].request.token); }
  }

  /** Every accepted callback in a history was answered by a store before its deadline. */
  lemma {:induction false} CallbacksAnswered(limits: Limits, requests: seq<Request>, j: nat) returns (i: nat)
    requires j < |requests|
    ensures var log := Run(limits, requests).log;
            && |log| == |requests| && log[j].request == requests[j]
            && (log[j].ok && log[j].request.ConsumeRequest? ==>
                  Answers(log, limits.ttl, i, j) && log[j].request.now < log[i].request.now + limits.ttl)
  {
    i := 0;
    var n := |requests| - 1;
    LogLength(limits, requests[..n]);
    var w := Run(limits, requests[..n]);
    var log := Run(limits, requests).log;
    assert log[..n] == w.log;
    if j < n {
      i := CallbacksAnswered(limits, requests[..n], j);
      assert log[..j] == w.log[..j];
    } else if log[j].ok && log[j].request.ConsumeRequest? {
      RunKeeps(limits, requests[..n]);
      var t := requests[j].state.csrfToken;
      assert Recorded(limits, w, t);
      i := w.origin[t];
    }
  }

  lemma {:induction false} LogLength(limits: Limits, requests: seq<Request>)
    ensures |Run(limits, requests).log| == |requests|
  {
    if requests != [] { LogLength(limits, requests[..|requests| - 1]); }
  }
}
