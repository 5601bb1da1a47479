/** Which provider ranks before which, and who is routed to, told by circuits, health and configuration. */
module RoutingRanks {
  import opened Wrappers
  import opened Reliability
  import opened Routing

  /** What the ranking knows of a provider. Without health data it counts as one with no errors
      and a latency of one second; without a price, as one that costs 1. */
  datatype Standing = Standing(circuit: CircuitState, errorRate: real, latencyMs: real, cost: real)

  ghost function StandingOf(p: Eligible, model: string, hs: Hashes, health: map<string, Health>): Standing {
    var known := p.config.name in health;
    Standing(HashOf(hs, p.config.name).state,
             if known then health[p.config.name].errorRate else 0.0,
             if known then health[p.config.name].latencyMs else 1000.0,
             if model in p.config.promptCost then p.config.promptCost[model] else 1.0)
  }

  /** How far a circuit is from closed. */
  ghost function Steps(c: CircuitState): real {
    match c
    case Closed => 0.0
    case HalfOpen => 1.0
    case Open => 2.0
  }

  ghost function AtMost(x: real, bound: real): real {
    if x < bound then x else bound
  }

  /** Everything that speaks against a provider, in units of the error rate: a step away from a
      closed circuit weighs 7/12, 7500 ms of latency weigh 1 up to 5000 ms, and a price of 20
      weighs 1 up to a price of 10. */
  ghost function Penalty(s: Standing): real {
    Steps(s.circuit) * 7.0 / 12.0 + s.errorRate + AtMost(s.latencyMs, 5000.0) / 7500.0 + AtMost(s.cost, 10.0) / 20.0
  }

  ghost predicate TieBefore(a: Eligible, b: Eligible) {
    a.config.priority < b.config.priority || (a.config.priority == b.config.priority && a.slot < b.slot)
  }

  lemma LatencyShare(latencyMs: real)
    ensures AtLeastZero(1.0 - latencyMs / 5000.0) == 1.0 - AtMost(latencyMs, 5000.0) / 5000.0
  {
  }

  lemma CostShare(cost: real)
    ensures AtLeastZero(1.0 - cost / 10.0) == 1.0 - AtMost(cost, 10.0) / 10.0
  {
  }

  lemma ScoreIsPenalty(p: Eligible, model: string, hs: Hashes, health: map<string, Health>)
    ensures ScoreOf(p, model, hs, health) == 1.0 - 0.3 * Penalty(StandingOf(p, model, hs, health))
  {
    var s := StandingOf(p, model, hs, health);
    LatencyShare(s.latencyMs);
    CostShare(s.cost);
  }

  /** The exact ranking: the smaller penalty first, then priority, then configuration order. */
  lemma RanksByPenalty(a: Eligible, b: Eligible, model: string, hs: Hashes, health: map<string, Health>)
    ensures var x, y := Penalty(StandingOf(a, model, hs, health)), Penalty(StandingOf(b, model, hs, health));
      RanksBefore(a, b, model, hs, health) <==> x < y || (x == y && TieBefore(a, b))
  {
    ScoreIsPenalty(a, model, hs, health);
    ScoreIsPenalty(b, model, hs, health);
  }

  /** `a` comes before `b` whatever their priorities and places in the configuration. */
  ghost predicate Outranks(a: Eligible, b: Eligible, model: string, hs: Hashes, health: map<string, Health>) {
    RanksBefore(a, b, model, hs, health) && !RanksBefore(b, a, model, hs, health)
      && ScoreOf(a, model, hs, health) != ScoreOf(b, model, hs, health)
  }

  /** Of two providers that differ in one signal only, the better one comes first: closed before
      half-open before open, the lower error rate, the lower latency below five seconds, the lower
      price below ten. */
  lemma BetterSignalFirst(a: Eligible, b: Eligible, model: string, hs: Hashes, health: map<string, Health>)
    ensures var s, t := StandingOf(a, model, hs, health), StandingOf(b, model, hs, health);
      && (s == t.(circuit := Closed) && !t.circuit.Closed? ==> Outranks(a, b, model, hs, health))
      && (s == t.(circuit := HalfOpen) && t.circuit.Open? ==> Outranks(a, b, model, hs, health))
      && (s == t.(errorRate := s.errorRate) && s.errorRate < t.errorRate ==> Outranks(a, b, model, hs, health))
      && (s == t.(latencyMs := s.latencyMs) && s.latencyMs < t.latencyMs && s.latencyMs < 5000.0 ==>
            Outranks(a, b, model, hs, health))
      && (s == t.(cost := s.cost) && s.cost < t.cost && s.cost < 10.0 ==> Outranks(a, b, model, hs, health))
  {
    ScoreIsPenalty(a, model, hs, health);
    ScoreIsPenalty(b, model, hs, health);
  }

  /** How much of one signal outweighs another, as an if and only if each: a closed circuit
      outweighs exactly an error rate less than 7/12 above that of a half-open one, an error rate
      lower by `e` exactly a latency less than 7500 * e ms longer, and a latency lower by `m` ms
      exactly a price less than m / 375 higher. */
  lemma SignalsTrade(a: Eligible, b: Eligible, model: string, hs: Hashes, health: map<string, Health>)
    ensures var s, t := StandingOf(a, model, hs, health), StandingOf(b, model, hs, health);
      && (s.circuit.Closed? && t.circuit.HalfOpen? && s == t.(circuit := Closed, errorRate := s.errorRate) ==>
            (Outranks(a, b, model, hs, health) <==> s.errorRate - t.errorRate < 7.0 / 12.0))
      && (s == t.(errorRate := s.errorRate, latencyMs := s.latencyMs)
          && s.latencyMs <= 5000.0 && t.latencyMs <= 5000.0 ==>
            (Outranks(a, b, model, hs, health) <==> s.latencyMs - t.latencyMs < 7500.0 * (t.errorRate - s.errorRate)))
      && (s == t.(latencyMs := s.latencyMs, cost := s.cost)
          && s.latencyMs <= 5000.0 && t.latencyMs <= 5000.0 && s.cost <= 10.0 && t.cost <= 10.0 ==>
            (Outranks(a, b, model, hs, health) <==> s.cost - t.cost < (t.latencyMs - s.latencyMs) / 375.0))
  {
    ScoreIsPenalty(a, model, hs, health);
    ScoreIsPenalty(b, model, hs, health);
  }

  /* ---------- Who is routed to ---------- */

  /** Enabled, registered, and the model is the adapter's or configured by name or alias. */
  ghost predicate Suits(c: ProviderConfig, model: string, registry: Registry) {
    && c.enabled && c.name in registry
    && (model in registry[c.name]
        || exists i :: 0 <= i < |c.models| && (c.models[i].modelId == Some(model) || model in c.models[i].aliases))
  }

  lemma SuitsExactly(c: ProviderConfig, model: string, registry: Registry)
    ensures Qualifies(c, model, registry) <==> Suits(c, model, registry)
  {
    forall i | 0 <= i < |c.models|
      ensures c.models[i] in c.models
      ensures Names(c.models[i], model) <==> c.models[i].modelId == Some(model) || model in c.models[i].aliases
    {
    }
  }

  /** One of the first `n` reads came when the recovery timeout of the provider had passed. */
  ghost predicate ReadLate(ps: seq<Eligible>, n: nat, clock: nat -> real, name: string, due: real)
    requires n <= |ps|
  {
    exists j {:trigger ps[j]} :: 0 <= j < n && ps[j].config.name == name && clock(j) >= due
  }

  /** The reads change a circuit only from open to half-open, and only after its recovery timeout. */
  lemma {:induction false} ReadsHalfOpen(ps: seq<Eligible>, n: nat, clock: nat -> real, hs: Hashes, config: Config,
                                         name: string)
    requires n <= |ps|
    ensures var c := HashOf(hs, name);
      HashOf(HashesAfter(ps, n, clock, hs, config), name)
        == if c.state.Open? && ReadLate(ps, n, clock, name, c.openedAt + config.recoveryTimeout)
           then c.(state := HalfOpen, successCount := 0) else c
  {
    if n > 0 {
      ReadsHalfOpen(ps, n - 1, clock, hs, config, name);
      var c := HashOf(hs, name);
      var due := c.openedAt + config.recoveryTimeout;
      assert ReadLate(ps, n, clock, name, due) <==>
          ReadLate(ps, n - 1, clock, name, due) || (ps[n - 1].config.name == name && clock(n - 1) >= due);
    }
  }

  /** A read finds a circuit open exactly when it was open and no read so far came late enough. */
  lemma SeenOpenExactly(ps: seq<Eligible>, i: nat, clock: nat -> real, hs: Hashes, config: Config)
    requires i < |ps|
    ensures var name := ps[i].config.name; var c := HashOf(hs, name);
      SeenOpen(ps, i, clock, hs, config)
      <==> c.state.Open? && !ReadLate(ps, i + 1, clock, name, c.openedAt + config.recoveryTimeout)
  {
    ReadsHalfOpen(ps, i + 1, clock, hs, config, ps[i].config.name);
  }

  /** Resolving keeps exactly the suitable configurations, by priority, then configuration order. */
  lemma ResolvedExactly(configs: seq<ProviderConfig>, model: string, registry: Registry)
    ensures var byPriority := SortBy(Qualifying(configs, |configs|, model, registry), Priority);
      && (forall p :: p in byPriority <==>
           p.slot < |configs| && p.config == configs[p.slot] && Suits(p.config, model, registry))
      && (forall i, j :: 0 <= i < j < |byPriority| ==> TieBefore(byPriority[i], byPriority[j]))
  {
    var byPriority := SortBy(Qualifying(configs, |configs|, model, registry), Priority);
    PrioritySorts(configs, model, registry);
    forall p ensures Qualifies(p, model, registry) <==> Suits(p, model, registry) {
      SuitsExactly(p, model, registry);
    }
    forall i, j | 0 <= i < j < |byPriority| ensures TieBefore(byPriority[i], byPriority[j]) {
      assert Less(byPriority[i], byPriority[j], Priority, BySlot);
    }
  }

  /** Among providers that were resolved, the endpoint routes to exactly those whose circuit was not
      open, or whose recovery timeout had passed at this or an earlier read of it, in the order of
      their penalties. */
  lemma RoutedExactly(configs: seq<ProviderConfig>, model: string, registry: Registry, clock: nat -> real,
                      before: Hashes, config: Config, after: Hashes, health: map<string, Health>)
    ensures var byPriority := SortBy(Qualifying(configs, |configs|, model, registry), Priority);
      var healthy := Healthy(byPriority, |byPriority|, clock, before, config);
      var routed := SortBy(healthy, ScoreKey(model, after, health));
      && (forall p :: p in routed <==>
           exists i :: 0 <= i < |byPriority| && p == byPriority[i]
             && var c := HashOf(before, p.config.name);
             (c.state.Open? ==> ReadLate(byPriority, i + 1, clock, p.config.name, c.openedAt + config.recoveryTimeout)))
      && (forall i, j :: 0 <= i < j < |routed| ==>
           var x := Penalty(StandingOf(routed[i], model, after, health));
           var y := Penalty(StandingOf(routed[j], model, after, health));
           x < y || (x == y && TieBefore(routed[i], routed[j])))
  {
    var byPriority := SortBy(Qualifying(configs, |configs|, model, registry), Priority);
    var healthy := Healthy(byPriority, |byPriority|, clock, before, config);
    var routed := SortBy(healthy, ScoreKey(model, after, health));
    RoutingOrder(configs, model, registry, clock, before, config, after, health);
    forall i | 0 <= i < |byPriority|
      ensures var c := HashOf(before, byPriority[i].config.name);
        SeenOpen(byPriority, i, clock, before, config) <==>
          c.state.Open? && !ReadLate(byPriority, i + 1, clock, byPriority[i].config.name,
                                     c.openedAt + config.recoveryTimeout)
    {
      SeenOpenExactly(byPriority, i, clock, before, config);
    }
    forall i, j | 0 <= i < j < |routed|
      ensures var x := Penalty(StandingOf(routed[i], model, after, health));
        var y := Penalty(StandingOf(routed[j], model, after, health));
        x < y || (x == y && TieBefore(routed[i], routed[j]))
    {
      RanksByPenalty(routed[i], routed[j], model, after, health);
    }
  }
}
