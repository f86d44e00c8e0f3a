/**
 Weighted provider routing: integer weights cut the hundred account buckets into consecutive
 runs, one per eligible route. Machine arithmetic is on 32 bits and written out; `NoWrap` says
 that it never wraps.
 */
module Routing {
  import opened Options

  const U32_LIMIT := 0x1_0000_0000
  const BUCKETS := 100

  type Weight = x: int | 0 <= x < 65536

  datatype Provider = Tinfoil | Continuum
  datatype ProviderConfig = ProviderConfig(provider: Provider, weight: Weight, enabled: bool)
  datatype ModelRoute = ModelRoute(provider: Provider, modelId: string, weight: Weight, enabled: bool)
  datatype ModelConfig = ModelConfig(publicId: string, routes: seq<ModelRoute>, defaultProvider: Option<Provider>)
  datatype Proxy = Proxy(baseUrl: string, providerName: string)
  datatype Proxies = Proxies(tinfoil: Proxy, default: Proxy)
  datatype EligibleRoute = EligibleRoute(provider: Provider, proxy: Proxy, modelId: string, weight: nat)
  datatype SelectionSource = StaticSplit | DefaultProvider | Fallback
  datatype Choice = Choice(index: nat, bucket: nat)
  datatype Selected = Selected(proxy: Proxy, publicId: string, modelId: string, responseId: string, bucket: Option<nat>, source: SelectionSource)
  datatype RoutingResult = Routed(route: Selected) | NoEligibleRoute(publicId: string)

  function Add32(a: int, b: int): (r: int) { (a + b) % U32_LIMIT }
  function Mul32(a: int, b: int): (r: int) { (a * b) % U32_LIMIT }
  function SaturatingAdd32(a: int, b: int): (r: int) { if a + b < U32_LIMIT then a + b else U32_LIMIT - 1 }
  function SaturatingSub32(a: int, b: int): (r: int) { if b <= a then a - b else 0 }

  // ---------- The partition of the buckets ----------

  /** The true sum of the first `n` weights. */
  function Total(routes: seq<EligibleRoute>, n: nat): (r: nat)
    requires n <= |routes|
  {
    if n == 0 then 0 else Total(routes, n - 1) + routes[n - 1].weight
  }

  /** The sum as 32-bit addition gives it. */
  function Total32(routes: seq<EligibleRoute>, n: nat): (r: nat)
    requires n <= |routes|
  {
    if n == 0 then 0 else Add32(Total32(routes, n - 1), routes[n - 1].weight)
  }

  /** Every weight is positive, as in an eligible route, and no 32-bit step wraps. */
  ghost predicate NoWrap(routes: seq<EligibleRoute>) {
    && Total(routes, |routes|) < U32_LIMIT
    && forall i :: 0 <= i < |routes| ==> 0 < routes[i].weight && routes[i].weight * BUCKETS < U32_LIMIT
  }

  /** The exact share of route `i` of the buckets, rounded down. */
  function Share(routes: seq<EligibleRoute>, i: nat): (r: nat)
    requires i < |routes| && 0 < Total(routes, |routes|)
  {
    routes[i].weight * BUCKETS / Total(routes, |routes|)
  }

  /** Where the run of route `n` begins: the floors of the exact shares before it. */
  function Begin(routes: seq<EligibleRoute>, n: nat): (r: nat)
    requires n <= |routes| && 0 < Total(routes, |routes|)
  {
    if n == 0 then 0
    else if n == |routes| then BUCKETS
    else Begin(routes, n - 1) + Share(routes, n - 1)
  }

  lemma {:induction false} TotalGrows(routes: seq<EligibleRoute>, m: nat, n: nat)
    requires m <= n <= |routes|
    ensures Total(routes, m) <= Total(routes, n)
    decreases n
  {
    if m < n { TotalGrows(routes, m, n - 1); }
  }

  /** Without wrapping, 32-bit addition gives the true sum. */
  lemma {:induction false} TotalFits(routes: seq<EligibleRoute>, m: nat)
    requires m <= |routes| && NoWrap(routes)
    ensures Total32(routes, m) == Total(routes, m)
    ensures 0 < m ==> 0 < Total(routes, |routes|)
  {
    if 0 < m {
      TotalFits(routes, m - 1);
      TotalGrows(routes, m, |routes|);
    }
  }

  lemma FloorBounds(a: nat, w: nat)
    requires 0 < w
    ensures a / w * w <= a < a / w * w + w
  {
  }

  lemma Distributes(a: nat, b: nat, w: nat)
    ensures (a + b) * w == a * w + b * w
  {
  }

  /** The run of route `n` begins at most `n` buckets before its exact place, and never after. */
  lemma {:induction false} BeginBounds(routes: seq<EligibleRoute>, n: nat)
    requires n < |routes| && 0 < Total(routes, |routes|)
    ensures var w := Total(routes, |routes|);
            Begin(routes, n) * w <= BUCKETS * Total(routes, n) <= Begin(routes, n) * w + n * w
  {
    var w := Total(routes, |routes|);
    if n > 0 {
      BeginBounds(routes, n - 1);
      FloorBounds(routes[n - 1].weight * BUCKETS, w);
      Distributes(Begin(routes, n - 1), Share(routes, n - 1), w);
      Distributes(n - 1, 1, w);
    }
  }

  lemma Widens(a: nat, b: nat, w: nat)
    ensures a < b ==> a * w + w <= b * w
  {
    if a < b { Distributes(a, b - a, w); }
  }

  /** No run begins after bucket 100, so the last route never subtracts below zero. */
  lemma BeginAtMost(routes: seq<EligibleRoute>, n: nat)
    requires n <= |routes| && 0 < Total(routes, |routes|)
    ensures Begin(routes, n) <= BUCKETS
  {
    if n < |routes| {
      var w := Total(routes, |routes|);
      assert Begin(routes, n) * w <= BUCKETS * w by {
        BeginBounds(routes, n);
        TotalGrows(routes, n, |routes|);
      }
      Widens(BUCKETS, Begin(routes, n), w);
    }
  }

  /** The runs are consecutive: none begins before one to its left. */
  lemma {:induction false} BeginOrdered(routes: seq<EligibleRoute>, m: nat, n: nat)
    requires m <= n <= |routes| && 0 < Total(routes, |routes|)
    ensures Begin(routes, m) <= Begin(routes, n)
    decreases n
  {
    if m < n {
      BeginOrdered(routes, m, n - 1);
      if n == |routes| { BeginAtMost(routes, n - 1); }
    }
  }

  /** Every route but the last owns the floor of its exact share of the buckets; the last owns
      the rest, which is at least its exact share and less than one bucket more per other route. */
  lemma ShareOfBuckets(routes: seq<EligibleRoute>, i: nat)
    requires i < |routes| && 0 < Total(routes, |routes|)
    ensures var w := Total(routes, |routes|); var owned := Begin(routes, i + 1) - Begin(routes, i);
            if i < |routes| - 1
            then owned == routes[i].weight * BUCKETS / w
            else BUCKETS * routes[i].weight <= owned * w <= BUCKETS * routes[i].weight + i * w
  {
    var w := Total(routes, |routes|);
    if i == |routes| - 1 {
      BeginOrdered(routes, i, i + 1);
      BeginBounds(routes, i);
      Distributes(BUCKETS - Begin(routes, i), Begin(routes, i), w);
      assert BUCKETS * w == BUCKETS * Total(routes, i) + BUCKETS * routes[i].weight;
    }
  }

  ghost predicate Owns(routes: seq<EligibleRoute>, i: nat, bucket: nat)
    requires i < |routes| && 0 < Total(routes, |routes|)
  {
    Begin(routes, i) <= bucket < Begin(routes, i + 1)
  }

  /** No bucket has two owners. */
  lemma OwnerUnique(routes: seq<EligibleRoute>, i: nat, j: nat, bucket: nat)
    requires i < |routes| && j < |routes| && 0 < Total(routes, |routes|)
    requires Owns(routes, i, bucket) && Owns(routes, j, bucket)
    ensures i == j
  {
    if i < j { BeginOrdered(routes, i + 1, j); }
    if j < i { BeginOrdered(routes, j + 1, i); }
  }

  /** Every bucket has an owner. */
  lemma OwnerExists(routes: seq<EligibleRoute>, bucket: nat) returns (i: nat)
    requires 0 < Total(routes, |routes|) && bucket < BUCKETS
    ensures i < |routes| && Owns(routes, i, bucket)
  {
    i := 0;
    while Begin(routes, i + 1) <= bucket
      invariant i < |routes| && Begin(routes, i) <= bucket
      decreases |routes| - i
    {
      i := i + 1;
    }
  }

  // ---------- Selection ----------

  /** The bucket of an account: its uuid, read as a 128-bit number, modulo 100. */
  function StableAccountBucket(account: nat): (r: nat)
    ensures r < 100
    ensures account < 100 ==> r == account
  {
    account % BUCKETS
  }

  lemma BucketRepeats(account: nat)
    ensures StableAccountBucket(account + 100) == StableAccountBucket(account)
  {
  }

  /** Among any hundred consecutive accounts every bucket has exactly one. */
  lemma {:induction false} BucketOnce(start: nat, bucket: nat) returns (account: nat)
    requires bucket < 100
    ensures start <= account < start + 100 && StableAccountBucket(account) == bucket
    ensures forall a :: start <= a < start + 100 && StableAccountBucket(a) == bucket ==> a == account
  {
    if start == 0 {
      account := bucket;
    } else {
      account := BucketOnce(start - 1, bucket);
      BucketRepeats(start - 1);
      if account == start - 1 { account := start + 99; }
    }
  }

  /** How many of `n` accounts from `start` on fall to route `i`. */
  ghost function Hits(routes: seq<EligibleRoute>, i: nat, start: nat, n: nat): (r: nat)
    requires i < |routes| && 0 < Total(routes, |routes|)
  {
    if n == 0 then 0
    else Hits(routes, i, start, n - 1) + if Owns(routes, i, StableAccountBucket(start + n - 1)) then 1 else 0
  }

  lemma {:induction false} HitsShift(routes: seq<EligibleRoute>, i: nat, start: nat, n: nat)
    requires i < |routes| && 0 < Total(routes, |routes|) && 0 < n
    ensures Hits(routes, i, start, n) == Hits(routes, i, start + 1, n - 1) + if Owns(routes, i, StableAccountBucket(start)) then 1 else 0
  {
    if n > 1 { HitsShift(routes, i, start, n - 1); }
  }

  lemma {:induction false} FirstHits(routes: seq<EligibleRoute>, i: nat, n: nat)
    requires i < |routes| && 0 < Total(routes, |routes|) && n <= 100
    ensures var from, to := Begin(routes, i), Begin(routes, i + 1);
            Hits(routes, i, 0, n) == if n <= from then 0 else if n <= to then n - from else to - from
  {
    BeginOrdered(routes, i, i + 1);
    if n > 0 { FirstHits(routes, i, n - 1); }
  }

  /** Among any hundred consecutive accounts a route is chosen exactly as often as it owns buckets:
      the floor of its percentage, and the rest for the last route. */
  lemma {:induction false} HundredAccounts(routes: seq<EligibleRoute>, i: nat, start: nat)
    requires i < |routes| && 0 < Total(routes, |routes|)
    ensures Hits(routes, i, start, 100) == Begin(routes, i + 1) - Begin(routes, i)
    ensures i < |routes| - 1 ==> Hits(routes, i, start, 100) == routes[i].weight * 100 / Total(routes, |routes|)
  {
    if start == 0 {
      FirstHits(routes, i, 100);
      BeginAtMost(routes, i + 1);
      BeginAtMost(routes, i);
      ShareOfBuckets(routes, i);
    } else {
      HundredAccounts(routes, i, start - 1);
      HitsShift(routes, i, start - 1, 100);
      BucketRepeats(start - 1);
    }
  }

  /** How many buckets the loop gives the route at `index`. */
  function Span(routes: seq<EligibleRoute>, index: nat, cumulative: int, total: nat): (r: int)
    requires index < |routes| && 0 < total
  {
    if index == |routes| - 1 then SaturatingSub32(BUCKETS, cumulative)
    else Mul32(routes[index].weight, BUCKETS) / total
  }

  lemma SpanExact(routes: seq<EligibleRoute>, index: nat, cumulative: int, total: nat)
    requires NoWrap(routes) && index < |routes| && 0 < total == Total(routes, |routes|)
    requires cumulative == Begin(routes, index)
    ensures SaturatingAdd32(cumulative, Span(routes, index, cumulative, total)) == Begin(routes, index + 1)
  {
    BeginAtMost(routes, index);
    BeginAtMost(routes, index + 1);
  }

  method SelectWeightedRoute(account: nat, routes: seq<EligibleRoute>) returns (r: Option<Choice>)
    ensures r.None? <==> Total32(routes, |routes|) == 0
    ensures r.Some? ==> r.value.index < |routes| && r.value.bucket == StableAccountBucket(account)
    ensures r.Some? && NoWrap(routes) ==>
              0 < Total(routes, |routes|) && Owns(routes, r.value.index, r.value.bucket)
  {
    if routes == [] {
      return None;
    }
    var total, n := 0, 0;
    while n < |routes|
      invariant 0 <= n <= |routes| && total == Total32(routes, n)
    {
      total := Add32(total, routes[n].weight);
      n := n + 1;
    }
    if total == 0 {
      return None;
    }
    ghost var plain := NoWrap(routes);
    if plain { TotalFits(routes, |routes|); }
    var bucket := StableAccountBucket(account);
    var cumulative, index := 0, 0;
    while index < |routes|
      invariant 0 <= index < |routes|
      invariant plain ==> cumulative == Begin(routes, index) <= bucket
    {
      var last := index == |routes| - 1;
      if plain { SpanExact(routes, index, cumulative, total); }
      cumulative := SaturatingAdd32(cumulative, Span(routes, index, cumulative, total));
      if bucket < cumulative || last {
        return Some(Choice(index, bucket));
      }
      index := index + 1;
    }
    assert false;
  }

  // ---------- Eligible routes ----------

  predicate NoneBefore(providers: seq<ProviderConfig>, provider: Provider, i: nat)
    requires i <= |providers|
  {
    forall j :: 0 <= j < i ==> providers[j].provider != provider
  }

  /** The first configuration of a provider. */
  function FindProvider(providers: seq<ProviderConfig>, provider: Provider): (r: Option<ProviderConfig>)
    ensures r.None? <==> forall i :: 0 <= i < |providers| ==> providers[i].provider != provider
    ensures r.Some? ==> r.value in providers && r.value.provider == provider
    ensures forall i :: 0 <= i < |providers| && providers[i].provider == provider && NoneBefore(providers, provider, i) ==>
              r == Some(providers[i])
  {
    if providers == [] then None
    else if providers[0].provider == provider then Some(providers[0])
    else
      assert forall i :: 1 <= i < |providers| ==> providers[i] == providers[1..][i - 1];
      assert forall i :: 1 <= i < |providers| && NoneBefore(providers, provider, i) ==> NoneBefore(providers[1..], provider, i - 1);
      FindProvider(providers[1..], provider)
  }

  function ProxyForProvider(proxies: Proxies, provider: Provider): (r: Option<Proxy>) {
    match provider
    case Tinfoil => Some(proxies.tinfoil)
    case Continuum => if proxies.default.providerName == "continuum" then Some(proxies.default) else None
  }

  /** The route and its provider are switched on with positive weights, and a proxy exists. */
  predicate Usable(providers: seq<ProviderConfig>, proxies: Proxies, route: ModelRoute) {
    var config := FindProvider(providers, route.provider);
    && route.enabled && route.weight != 0
    && config.Some? && config.value.enabled && config.value.weight != 0
    && ProxyForProvider(proxies, route.provider).Some?
  }

  function Eligible(providers: seq<ProviderConfig>, proxies: Proxies, route: ModelRoute): (r: EligibleRoute)
    requires Usable(providers, proxies, route)
  {
    EligibleRoute(route.provider, ProxyForProvider(proxies, route.provider).value, route.modelId,
                  Mul32(FindProvider(providers, route.provider).value.weight, route.weight))
  }

  /** The usable routes in configuration order. */
  function Eligibles(providers: seq<ProviderConfig>, proxies: Proxies, routes: seq<ModelRoute>): (r: seq<EligibleRoute>)
    ensures |r| <= |routes|
    ensures r == [] <==> forall i :: 0 <= i < |routes| ==> !Usable(providers, proxies, routes[i])
  {
    if routes == [] then []
    else
      var init := Eligibles(providers, proxies, routes[..|routes| - 1]);
      var last := routes[|routes| - 1];
      assert forall i :: 0 <= i < |routes| - 1 ==> routes[..|routes| - 1][i] == routes[i];
      if Usable(providers, proxies, last) then init + [Eligible(providers, proxies, last)] else init
  }

  function UsableOnly(providers: seq<ProviderConfig>, proxies: Proxies, routes: seq<ModelRoute>): (r: seq<ModelRoute>)
  {
    if routes == [] then []
    else
      var rest := UsableOnly(providers, proxies, routes[1..]);
      if Usable(providers, proxies, routes[0]) then [routes[0]] + rest else rest
  }

  lemma {:induction false} UsableAppend(providers: seq<ProviderConfig>, proxies: Proxies, routes: seq<ModelRoute>, last: ModelRoute)
    ensures UsableOnly(providers, proxies, routes + [last]) ==
            UsableOnly(providers, proxies, routes) + if Usable(providers, proxies, last) then [last] else []
  {
    if routes == [] {
      assert routes + [last] == [last] && [last][1..] == [];
    } else {
      assert (routes + [last])[1..] == routes[1..] + [last];
      UsableAppend(providers, proxies, routes[1..], last);
    }
  }

  /** What an eligible route is made of. */
  predicate MadeOf(providers: seq<ProviderConfig>, proxies: Proxies, route: ModelRoute, e: EligibleRoute) {
    && e.provider == route.provider && e.modelId == route.modelId
    && e.proxy == (if route.provider == Tinfoil then proxies.tinfoil else proxies.default)
    && (route.provider == Continuum ==> proxies.default.providerName == "continuum")
    && var config := FindProvider(providers, route.provider);
       config.Some? && e.weight == config.value.weight * route.weight
  }

  lemma ProductFits(a: Weight, b: Weight)
    ensures Mul32(a, b) == a * b
  {
    assert a * b <= 65535 * 65535 by {
      if a < 65535 { Widens(a, 65535, b); }
      if b < 65535 { Widens(b, 65535, 65535); }
    }
  }

  /** The eligible routes are the usable ones in configuration order, each with its provider's
      proxy and the product of the two weights, which always fits 32 bits. */
  lemma {:induction false} EligiblesExact(providers: seq<ProviderConfig>, proxies: Proxies, routes: seq<ModelRoute>, i: nat)
    ensures |Eligibles(providers, proxies, routes)| == |UsableOnly(providers, proxies, routes)|
    ensures i < |Eligibles(providers, proxies, routes)| ==>
              MadeOf(providers, proxies, UsableOnly(providers, proxies, routes)[i], Eligibles(providers, proxies, routes)[i])
  {
    if routes != [] {
      var n := |routes| - 1;
      var last := routes[n];
      EligiblesExact(providers, proxies, routes[..n], i);
      UsableAppend(providers, proxies, routes[..n], last);
      assert routes == routes[..n] + [last];
      if Usable(providers, proxies, last) {
        ProductFits(FindProvider(providers, last.provider).value.weight, last.weight);
      }
    }
  }

  /** The first route of `provider`, or the number of routes. */
  function FirstOf(routes: seq<EligibleRoute>, provider: Provider, start: nat): (r: nat)
    requires start <= |routes|
    ensures start <= r <= |routes|
    ensures r < |routes| ==> routes[r].provider == provider
    ensures forall i :: start <= i < r ==> routes[i].provider != provider
    decreases |routes| - start
  {
    if start == |routes| || routes[start].provider == provider then start else FirstOf(routes, provider, start + 1)
  }

  /** Weights are percentages and the total of all routes fits 32 bits. */
  predicate PercentScale(providers: seq<ProviderConfig>, routes: seq<ModelRoute>) {
    && (forall i :: 0 <= i < |providers| ==> providers[i].weight <= 100)
    && (forall i :: 0 <= i < |routes| ==> routes[i].weight <= 100)
    && |routes| * 10000 < U32_LIMIT
  }

  lemma {:induction false} TotalAtMost(routes: seq<EligibleRoute>, n: nat, bound: nat)
    requires n <= |routes| && forall i :: 0 <= i < n ==> routes[i].weight <= bound
    ensures Total(routes, n) <= n * bound
  {
    if 0 < n {
      TotalAtMost(routes, n - 1, bound);
      Distributes(n - 1, 1, bound);
    }
  }

  lemma ProductInScale(a: Weight, b: Weight)
    requires 0 < a <= 100 && 0 < b <= 100
    ensures 0 < Mul32(a, b) <= 10000
  {
    Widens(0, a, b);
    assert a * b <= 100 * b by { if a < 100 { Widens(a, 100, b); } }
  }

  lemma {:induction false} EligiblesInScale(providers: seq<ProviderConfig>, proxies: Proxies, routes: seq<ModelRoute>)
    requires PercentScale(providers, routes)
    ensures forall i :: 0 <= i < |Eligibles(providers, proxies, routes)| ==>
              0 < Eligibles(providers, proxies, routes)[i].weight <= 10000
  {
    if routes != [] {
      var last := routes[|routes| - 1];
      EligiblesInScale(providers, proxies, routes[..|routes| - 1]);
      if Usable(providers, proxies, last) {
        ProductInScale(FindProvider(providers, last.provider).value.weight, last.weight);
      }
    }
  }

  /** On the percent scale no 32-bit step of the selection wraps. */
  lemma PercentScaleNoWrap(providers: seq<ProviderConfig>, proxies: Proxies, routes: seq<ModelRoute>)
    requires PercentScale(providers, routes)
    ensures NoWrap(Eligibles(providers, proxies, routes))
  {
    var es := Eligibles(providers, proxies, routes);
    EligiblesInScale(providers, proxies, routes);
    TotalAtMost(es, |es|, 10000);
  }

  // ---------- The configured route ----------

  method SelectConfiguredRoute(providers: seq<ProviderConfig>, proxies: Proxies, account: nat, model: ModelConfig)
    returns (r: RoutingResult, ghost index: nat)
    ensures r.NoEligibleRoute? ==> r.publicId == model.publicId
    ensures PercentScale(providers, model.routes) ==>
              (r.NoEligibleRoute? <==> forall i :: 0 <= i < |model.routes| ==> !Usable(providers, proxies, model.routes[i]))
    ensures var es := Eligibles(providers, proxies, model.routes);
            r.Routed? ==>
              && index < |es|
              && r.route.proxy == es[index].proxy && r.route.modelId == es[index].modelId && r.route.publicId == r.route.responseId == model.publicId
              && (r.route.bucket.None? <==> r.route.source == DefaultProvider)
              && (r.route.source == DefaultProvider <==>
                    model.defaultProvider.Some? && FirstOf(es, model.defaultProvider.value, 0) < |es|)
              && (r.route.source == DefaultProvider ==> index == FirstOf(es, model.defaultProvider.value, 0))
              && (r.route.source == StaticSplit <==> model.defaultProvider.None?)
              && (r.route.bucket.Some? ==> r.route.bucket.value == StableAccountBucket(account))
              && (r.route.bucket.Some? && PercentScale(providers, model.routes) ==>
                    0 < Total(es, |es|) && Owns(es, index, r.route.bucket.value))
  {
    var eligible := [];
    index := 0;
    var n := 0;
    while n < |model.routes|
      invariant 0 <= n <= |model.routes|
      invariant eligible == Eligibles(providers, proxies, model.routes[..n])
    {
      var route := model.routes[n];
      assert model.routes[..n + 1][..n] == model.routes[..n];
      n := n + 1;
      if !route.enabled || route.weight == 0 {
        continue;
      }
      var config := FindProvider(providers, route.provider);
      if config.None? || !config.value.enabled || config.value.weight == 0 {
        continue;
      }
      var proxy := ProxyForProvider(proxies, route.provider);
      if proxy.None? {
        continue;
      }
      eligible := eligible + [EligibleRoute(route.provider, proxy.value, route.modelId, Mul32(config.value.weight, route.weight))];
    }
    assert model.routes[..n] == model.routes;
    if eligible == [] {
      return NoEligibleRoute(model.publicId), 0;
    }
    if model.defaultProvider.Some? {
      var preferred := FirstOf(eligible, model.defaultProvider.value, 0);
      if preferred < |eligible| {
        var e := eligible[preferred];
        return Routed(Selected(e.proxy, model.publicId, e.modelId, model.publicId, None, DefaultProvider)), preferred;
      }
    }
    if PercentScale(providers, model.routes) {
      PercentScaleNoWrap(providers, proxies, model.routes);
      TotalFits(eligible, |eligible|);
    }
    var choice := SelectWeightedRoute(account, eligible);
    if choice.None? {
      return NoEligibleRoute(model.publicId), 0;
    }
    var e := eligible[choice.value.index];
    r := Routed(Selected(e.proxy, model.publicId, e.modelId, model.publicId, Some(choice.value.bucket),
                         if model.defaultProvider.Some? then Fallback else StaticSplit));
    index := choice.value.index;
  }
}
