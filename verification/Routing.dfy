/** From a model name to the ordered list of providers that failover tries. */
module Routing {
  import opened Wrappers
  import opened Sequences
  import opened Reliability

  datatype ModelEntry = ModelEntry(modelId: Option<string>, aliases: seq<string>)

  datatype ProviderConfig = ProviderConfig(
    name: string, enabled: bool, models: seq<ModelEntry>, priority: int, promptCost: map<string, real>)

  /** An eligible provider; `slot` is the place of its configuration in the list. */
  datatype Eligible = Eligible(slot: nat, config: ProviderConfig)

  /** The models each registered adapter supports, by provider name. */
  type Registry = map<string, seq<string>>

  datatype Answer<+T> = Ok(value: T) | Refused(status: int)

  /* ---------- Sorting by a key ---------- */

  function Ascending<T>(key: T -> real): (T, T) -> bool {
    (a: T, b: T) => key(a) < key(b)
  }

  function InsertBy<T>(x: T, xs: seq<T>, key: T -> real): seq<T> {
    Insert(x, xs, Ascending(key))
  }

  /** `sorted(xs, key=key)`. */
  function SortBy<T>(xs: seq<T>, key: T -> real): seq<T> {
    StableSort(xs, Ascending(key))
  }

  /** Ascending by key, and by `lt` among equal keys. */
  predicate Less<T(!new)>(a: T, b: T, key: T -> real, lt: (T, T) -> bool) {
    key(a) < key(b) || (key(a) == key(b) && lt(a, b))
  }

  ghost predicate Ordered<T(!new)>(xs: seq<T>, lt: (T, T) -> bool) {
    forall i, j :: 0 <= i < j < |xs| ==> lt(xs[i], xs[j])
  }

  ghost predicate KeyOrdered<T(!new)>(xs: seq<T>, key: T -> real, lt: (T, T) -> bool) {
    forall i, j :: 0 <= i < j < |xs| ==> Less(xs[i], xs[j], key, lt)
  }

  lemma SortKeeps<T(!new)>(xs: seq<T>, key: T -> real)
    ensures multiset(SortBy(xs, key)) == multiset(xs)
  {
    SortKeepsElements(xs, Ascending(key));
  }

  lemma SameMembers<T(!new)>(xs: seq<T>, ys: seq<T>)
    requires multiset(xs) == multiset(ys)
    ensures forall x :: x in xs <==> x in ys
    ensures |xs| == |ys|
  {
    forall x ensures x in xs <==> x in ys {
      assert x in multiset(xs) <==> x in multiset(ys);
    }
    assert |multiset(xs)| == |multiset(ys)|;
  }

  lemma {:induction false} InsertOrders<T(!new)>(x: T, xs: seq<T>, key: T -> real, lt: (T, T) -> bool)
    requires KeyOrdered(xs, key, lt) && forall y :: y in xs ==> lt(x, y)
    ensures KeyOrdered(InsertBy(x, xs, key), key, lt)
  {
    if xs != [] && key(xs[0]) < key(x) {
      InsertOrders(x, xs[1..], key, lt);
      InsertKeeps(x, xs[1..], Ascending(key));
      var rest := InsertBy(x, xs[1..], key);
      assert multiset([x] + xs[1..]) == multiset(rest);
      SameMembers([x] + xs[1..], rest);
      forall j | 0 <= j < |rest| ensures Less(xs[0], rest[j], key, lt) {
        assert rest[j] in rest;
        assert rest[j] in [x] + xs[1..];
      }
    }
  }

  /** Sorting by a key refines the order the list had: elements with equal keys stay in it. */
  lemma {:induction false} SortOrders<T(!new)>(xs: seq<T>, key: T -> real, lt: (T, T) -> bool)
    requires Ordered(xs, lt)
    ensures KeyOrdered(SortBy(xs, key), key, lt)
  {
    if xs != [] {
      var rest := SortBy(xs[1..], key);
      SortOrders(xs[1..], key, lt);
      SortKeeps(xs[1..], key);
      SameMembers(rest, xs[1..]);
      InsertOrders(xs[0], rest, key, lt);
    }
  }

  /* ---------- Resolving a model ---------- */

  predicate Names(m: ModelEntry, model: string) {
    m.modelId == Some(model) || model in m.aliases
  }

  predicate Qualifies(c: ProviderConfig, model: string, registry: Registry) {
    && c.enabled && c.name in registry
    && (model in registry[c.name] || exists m :: m in c.models && Names(m, model))
  }

  function Qualifying(configs: seq<ProviderConfig>, n: nat, model: string, registry: Registry): seq<Eligible>
    requires n <= |configs|
  {
    if n == 0 then []
    else
      Qualifying(configs, n - 1, model, registry)
      + (if Qualifies(configs[n - 1], model, registry) then [Eligible(n - 1, configs[n - 1])] else [])
  }

  function Priority(p: Eligible): real {
    p.config.priority as real
  }

  predicate BySlot(a: Eligible, b: Eligible) {
    a.slot < b.slot
  }

  method ResolveProviders(model: string, registry: Registry, configs: seq<ProviderConfig>)
    returns (answer: Answer<seq<Eligible>>)
    ensures var eligible := Qualifying(configs, |configs|, model, registry);
      answer == if eligible == [] then Refused(400) else Ok(SortBy(eligible, Priority))
  {
    var eligible: seq<Eligible> := [];
    for i := 0 to |configs|
      invariant eligible == Qualifying(configs, i, model, registry)
    {
      var config := configs[i];
      if !config.enabled {
        continue;
      }
      if config.name !in registry {
        continue;
      }
      var supportedByAdapter := model in registry[config.name];
      var supportedInConfig := exists m :: m in config.models && Names(m, model);
      if supportedByAdapter || supportedInConfig {
        eligible := eligible + [Eligible(i, config)];
      }
    }
    if eligible == [] {
      return Refused(400);
    }
    return Ok(SortBy(eligible, Priority));
  }

  /* ---------- Filtering by health ---------- */

  /** The circuits after the states of the first `i` providers were read, the `k`-th at `clock(k)`. */
  function HashesAfter(ps: seq<Eligible>, i: nat, clock: nat -> real, hs: Hashes, config: Config): Hashes
    requires i <= |ps|
  {
    if i == 0 then hs
    else
      var before := HashesAfter(ps, i - 1, clock, hs, config);
      var name := ps[i - 1].config.name;
      Put(before, name, Looked(HashOf(before, name), clock(i - 1), config))
  }

  /** Provider `i` is seen open when its state is read. */
  predicate SeenOpen(ps: seq<Eligible>, i: nat, clock: nat -> real, hs: Hashes, config: Config)
    requires i < |ps|
  {
    HashOf(HashesAfter(ps, i + 1, clock, hs, config), ps[i].config.name).state.Open?
  }

  function Healthy(ps: seq<Eligible>, n: nat, clock: nat -> real, hs: Hashes, config: Config): seq<Eligible>
    requires n <= |ps|
  {
    if n == 0 then []
    else
      Healthy(ps, n - 1, clock, hs, config)
      + (if SeenOpen(ps, n - 1, clock, hs, config) then [] else [ps[n - 1]])
  }

  method FilterHealthy(providers: seq<Eligible>, circuits: Circuits, clock: nat -> real)
    returns (answer: Answer<seq<Eligible>>)
    modifies circuits
    ensures circuits.hashes == HashesAfter(providers, |providers|, clock, old(circuits.hashes), circuits.config)
    ensures var healthy := Healthy(providers, |providers|, clock, old(circuits.hashes), circuits.config);
      answer == if healthy == [] then Refused(503) else Ok(healthy)
  {
    var healthy: seq<Eligible> := [];
    for i := 0 to |providers|
      invariant circuits.hashes == HashesAfter(providers, i, clock, old(circuits.hashes), circuits.config)
      invariant healthy == Healthy(providers, i, clock, old(circuits.hashes), circuits.config)
    {
      var state := circuits.GetCircuitState(providers[i].config.name, clock(i));
      if !state.Open? {
        healthy := healthy + [providers[i]];
      }
    }
    if healthy == [] {
      return Refused(503);
    }
    return Ok(healthy);
  }

  /* ---------- Scoring ---------- */

  datatype Signals = Signals(availability: real, errorRate: real, latencyMs: real)

  datatype Health = Health(latencyMs: real, errorRate: real)

  datatype Weights = Weights(availability: real, errorRate: real, latency: real, cost: real)

  const WEIGHTS := Weights(0.35, 0.30, 0.20, 0.15)

  function SignalsOf(name: string, hs: Hashes, health: map<string, Health>): Signals {
    var availability := match HashOf(hs, name).state case Open => 0.0 case HalfOpen => 0.5 case Closed => 1.0;
    if name in health then Signals(availability, health[name].errorRate, health[name].latencyMs)
    else Signals(availability, 0.0, 1000.0)
  }

  function AtLeastZero(x: real): real {
    if x < 0.0 then 0.0 else x
  }

  function PromptCost(c: ProviderConfig, model: string): real {
    if model in c.promptCost then c.promptCost[model] else 1.0
  }

  function Score(s: Signals, cost: real, w: Weights): real {
    w.availability * s.availability
    + w.errorRate * (1.0 - s.errorRate)
    + w.latency * AtLeastZero(1.0 - s.latencyMs / 5000.0)
    + w.cost * AtLeastZero(1.0 - cost / 10.0)
  }

  function ScoreOf(p: Eligible, model: string, hs: Hashes, health: map<string, Health>): real {
    Score(SignalsOf(p.config.name, hs, health), PromptCost(p.config, model), WEIGHTS)
  }

  /** A provider that is no worse in availability, error rate, latency and cost scores no less. */
  lemma ScoreRewardsHealth(a: Signals, aCost: real, b: Signals, bCost: real)
    requires a.availability >= b.availability && a.errorRate <= b.errorRate && a.latencyMs <= b.latencyMs &&
        aCost <= bCost
    ensures Score(a, aCost, WEIGHTS) >= Score(b, bCost, WEIGHTS)
  {
  }

  /** The sort key: scores descend. */
  function ScoreKey(model: string, hs: Hashes, health: map<string, Health>): Eligible -> real {
    (p: Eligible) => -ScoreOf(p, model, hs, health)
  }

  function Descending(x: (real, Eligible)): real {
    -x.0
  }

  function Seconds(xs: seq<(real, Eligible)>): seq<Eligible> {
    if xs == [] then [] else [xs[0].1] + Seconds(xs[1..])
  }

  /** Every score in the list is the key of its provider. */
  ghost predicate Keyed(xs: seq<(real, Eligible)>, key: Eligible -> real) {
    forall i {:trigger xs[i]} :: 0 <= i < |xs| ==> Descending(xs[i]) == key(xs[i].1)
  }

  lemma {:induction false} InsertPairs(x: (real, Eligible), xs: seq<(real, Eligible)>, key: Eligible -> real)
    requires Keyed(xs, key) && Descending(x) == key(x.1)
    ensures Seconds(InsertBy(x, xs, Descending)) == InsertBy(x.1, Seconds(xs), key)
    ensures Keyed(InsertBy(x, xs, Descending), key)
  {
    if xs != [] {
      assert Descending(xs[0]) == key(xs[0].1);
      assert Keyed(xs[1..], key);
      if Descending(xs[0]) < Descending(x) {
        InsertPairs(x, xs[1..], key);
        var rest := InsertBy(x, xs[1..], Descending);
        assert ([xs[0]] + rest)[1..] == rest;
        assert Seconds(xs)[1..] == Seconds(xs[1..]);
      } else {
        assert ([x] + xs)[1..] == xs;
      }
    }
  }

  lemma {:induction false} SortPairs(xs: seq<(real, Eligible)>, key: Eligible -> real)
    requires Keyed(xs, key)
    ensures Seconds(SortBy(xs, Descending)) == SortBy(Seconds(xs), key)
    ensures Keyed(SortBy(xs, Descending), key)
  {
    if xs != [] {
      assert Descending(xs[0]) == key(xs[0].1) && Keyed(xs[1..], key);
      SortPairs(xs[1..], key);
      InsertPairs(xs[0], SortBy(xs[1..], Descending), key);
      assert Seconds(xs)[1..] == Seconds(xs[1..]);
    }
  }

  lemma {:induction false} SecondsAppend(xs: seq<(real, Eligible)>, x: (real, Eligible))
    ensures Seconds(xs + [x]) == Seconds(xs) + [x.1]
  {
    if xs == [] {
      assert xs + [x] == [x] && [x][1..] == [];
    } else {
      assert (xs + [x])[1..] == xs[1..] + [x];
      SecondsAppend(xs[1..], x);
    }
  }

  method ScoreProviders(eligible: seq<Eligible>, model: string, hashes: Hashes, health: map<string, Health>)
    returns (sorted: seq<Eligible>)
    ensures sorted == SortBy(eligible, ScoreKey(model, hashes, health))
  {
    ghost var key := ScoreKey(model, hashes, health);
    var scored: seq<(real, Eligible)> := [];
    for i := 0 to |eligible|
      invariant |scored| == i && Keyed(scored, key) && Seconds(scored) == eligible[..i]
    {
      var provider := eligible[i];
      var signals := SignalsOf(provider.config.name, hashes, health);
      var score := Score(signals, PromptCost(provider.config, model), WEIGHTS);
      SecondsAppend(scored, (score, provider));
      assert eligible[..i + 1] == eligible[..i] + [provider];
      scored := scored + [(score, provider)];
    }
    SortPairs(scored, key);
    assert eligible[..|eligible|] == eligible;
    var ranked := SortBy(scored, Descending);
    sorted := [];
    for i := 0 to |ranked|
      invariant sorted + Seconds(ranked[i..]) == Seconds(ranked)
    {
      assert ranked[i..][1..] == ranked[i + 1..];
      sorted := sorted + [ranked[i].1];
    }
    assert ranked[|ranked|..] == [];
  }

  /* ---------- The whole route ---------- */

  /** The three stages in the order the endpoint calls them. */
  method Route(model: string, registry: Registry, configs: seq<ProviderConfig>, circuits: Circuits,
               clock: nat -> real, health: map<string, Health>)
    returns (answer: Answer<seq<Eligible>>)
    modifies circuits
    ensures var eligible := Qualifying(configs, |configs|, model, registry);
      var byPriority := SortBy(eligible, Priority);
      var healthy := Healthy(byPriority, |byPriority|, clock, old(circuits.hashes), circuits.config);
      answer ==
        if eligible == [] then Refused(400)
        else if healthy == [] then Refused(503)
        else Ok(SortBy(healthy, ScoreKey(model, circuits.hashes, health)))
  {
    var resolved := ResolveProviders(model, registry, configs);
    if resolved.Refused? {
      return resolved;
    }
    var healthy := FilterHealthy(resolved.value, circuits, clock);
    if healthy.Refused? {
      return healthy;
    }
    var sorted := ScoreProviders(healthy.value, model, circuits.hashes, health);
    return Ok(sorted);
  }

  /** Score descending, then priority ascending, then configuration order. */
  predicate RanksBefore(a: Eligible, b: Eligible, model: string, hs: Hashes, health: map<string, Health>) {
    var x, y := ScoreOf(a, model, hs, health), ScoreOf(b, model, hs, health);
    || x > y
    || (x == y && a.config.priority < b.config.priority)
    || (x == y && a.config.priority == b.config.priority && a.slot < b.slot)
  }

  lemma {:induction false} QualifyingExactly(configs: seq<ProviderConfig>, n: nat, model: string, registry: Registry)
    requires n <= |configs|
    ensures Ordered(Qualifying(configs, n, model, registry), BySlot)
    ensures forall p :: p in Qualifying(configs, n, model, registry) <==>
      p.slot < n && p.config == configs[p.slot] && Qualifies(p.config, model, registry)
  {
    if n > 0 {
      QualifyingExactly(configs, n - 1, model, registry);
    }
  }

  lemma {:induction false} HealthyExactly(ps: seq<Eligible>, n: nat, clock: nat -> real, hs: Hashes, config: Config,
                                          lt: (Eligible, Eligible) -> bool)
    requires n <= |ps| && Ordered(ps, lt)
    ensures Ordered(Healthy(ps, n, clock, hs, config), lt)
    ensures forall p :: p in Healthy(ps, n, clock, hs, config) <==>
      exists i :: 0 <= i < n && p == ps[i] && !SeenOpen(ps, i, clock, hs, config)
  {
    if n > 0 {
      HealthyExactly(ps, n - 1, clock, hs, config, lt);
      var front := Healthy(ps, n - 1, clock, hs, config);
      forall i | 0 <= i < |front| ensures lt(front[i], ps[n - 1]) {
        assert front[i] in front;
      }
    }
  }

  function PriorityOrder(): (Eligible, Eligible) -> bool {
    (a: Eligible, b: Eligible) => Less(a, b, Priority, BySlot)
  }

  lemma PrioritySorts(configs: seq<ProviderConfig>, model: string, registry: Registry)
    ensures var byPriority := SortBy(Qualifying(configs, |configs|, model, registry), Priority);
      && Ordered(byPriority, PriorityOrder())
      && forall p :: p in byPriority
          <==> p.slot < |configs| && p.config == configs[p.slot] && Qualifies(p.config, model, registry)
  {
    var eligible := Qualifying(configs, |configs|, model, registry);
    QualifyingExactly(configs, |configs|, model, registry);
    SortOrders(eligible, Priority, BySlot);
    SortKeeps(eligible, Priority);
    SameMembers(SortBy(eligible, Priority), eligible);
  }

  lemma ScoreSorts(healthy: seq<Eligible>, model: string, hs: Hashes, health: map<string, Health>)
    requires Ordered(healthy, PriorityOrder())
    ensures var routed := SortBy(healthy, ScoreKey(model, hs, health));
      && multiset(routed) == multiset(healthy)
      && (forall p :: p in routed <==> p in healthy)
      && forall i, j :: 0 <= i < j < |routed| ==> RanksBefore(routed[i], routed[j], model, hs, health)
  {
    var key := ScoreKey(model, hs, health);
    SortOrders(healthy, key, PriorityOrder());
    SortKeeps(healthy, key);
    SameMembers(SortBy(healthy, key), healthy);
    var routed := SortBy(healthy, key);
    forall i, j | 0 <= i < j < |routed| ensures RanksBefore(routed[i], routed[j], model, hs, health) {
      assert Less(routed[i], routed[j], key, PriorityOrder());
    }
  }

  /** The routed list holds exactly the enabled, registered, supporting providers whose circuit
      was not open when it was read, each once, ordered by score descending, then priority
      ascending, then configuration order. */
  lemma RoutingOrder(configs: seq<ProviderConfig>, model: string, registry: Registry, clock: nat -> real,
                     before: Hashes, config: Config, after: Hashes, health: map<string, Health>)
    ensures var byPriority := SortBy(Qualifying(configs, |configs|, model, registry), Priority);
      var healthy := Healthy(byPriority, |byPriority|, clock, before, config);
      var routed := SortBy(healthy, ScoreKey(model, after, health));
      && (forall i, j :: 0 <= i < j < |routed| ==> RanksBefore(routed[i], routed[j], model, after, health))
      && (forall p :: p in routed <==>
           exists i :: 0 <= i < |byPriority| && p == byPriority[i] && !SeenOpen(byPriority, i, clock, before, config))
      && (forall p :: p in byPriority <==>
           p.slot < |configs| && p.config == configs[p.slot] && Qualifies(p.config, model, registry))
  {
    var byPriority := SortBy(Qualifying(configs, |configs|, model, registry), Priority);
    PrioritySorts(configs, model, registry);
    HealthyExactly(byPriority, |byPriority|, clock, before, config, PriorityOrder());
    ScoreSorts(Healthy(byPriority, |byPriority|, clock, before, config), model, after, health);
  }

  /** That order leaves one list: two rankings of the same providers are equal. */
  lemma {:induction false} RankingUnique(a: seq<Eligible>, b: seq<Eligible>, model: string, hs: Hashes,
                                         health: map<string, Health>)
    requires forall i, j :: 0 <= i < j < |a| ==> RanksBefore(a[i], a[j], model, hs, health)
    requires forall i, j :: 0 <= i < j < |b| ==> RanksBefore(b[i], b[j], model, hs, health)
    requires forall p :: p in a <==> p in b
    ensures a == b
  {
    assert a != [] ==> a[0] in a && a[0] in b;
    assert b != [] ==> b[0] in b && b[0] in a;
    if a != [] && b != [] {
      var i :| 0 <= i < |b| && b[i] == a[0];
      var j :| 0 <= j < |a| && a[j] == b[0];
      assert a[0] == b[0];
      RankingTail(a, b, model, hs, health);
      RankingTail(b, a, model, hs, health);
      RankingUnique(a[1..], b[1..], model, hs, health);
    }
  }

  lemma RankingTail(a: seq<Eligible>, b: seq<Eligible>, model: string, hs: Hashes, health: map<string, Health>)
    requires a != [] && b != [] && a[0] == b[0]
    requires forall i, j :: 0 <= i < j < |a| ==> RanksBefore(a[i], a[j], model, hs, health)
    requires forall p :: p in a ==> p in b
    ensures forall p :: p in a[1..] ==> p in b[1..]
  {
    forall p | p in a[1..] ensures p in b[1..] {
      var i :| 1 <= i < |a| && a[i] == p;
      assert RanksBefore(a[0], a[i], model, hs, health);
      assert p in b && p != b[0];
      var k :| 0 <= k < |b| && b[k] == p;
      assert b[1..][k - 1] == p;
    }
  }
}
