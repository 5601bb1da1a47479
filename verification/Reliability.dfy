/**
 Retry, the circuit state kept in Redis, and failover across providers, for whole responses
 and for streams up to their first chunk.
 */
module Reliability {
  import opened Wrappers
  import Streaming

  /* ---------- The circuit hash of one provider ---------- */

  datatype CircuitState = Closed | Open | HalfOpen

  /** The fields decisions depend on; an absent field reads as its default. */
  datatype Circuit = Circuit(state: CircuitState, openedAt: real, failureCount: int, successCount: int)

  const FRESH := Circuit(Closed, 0.0, 0, 0)

  datatype Config = Config(failureThreshold: int, recoveryTimeout: real, successThreshold: int)

  /** What a read does to the hash: an open circuit whose recovery timeout passed half-opens. */
  function Looked(c: Circuit, now: real, config: Config): Circuit {
    if c.state.Open? && now - c.openedAt >= config.recoveryTimeout
    then c.(state := HalfOpen, successCount := 0) else c
  }

  /** What recording a result at `now` does to a circuit just read. */
  function Counted(c: Circuit, success: bool, now: real, config: Config): Circuit {
    match c.state
    case Open => c
    case Closed =>
      if success then c.(failureCount := 0)
      else if c.failureCount + 1 >= config.failureThreshold then c.(state := Open, openedAt := now, failureCount := 0)
      else c.(failureCount := c.failureCount + 1)
    case HalfOpen =>
      if !success then c.(state := Open, openedAt := now, successCount := 0)
      else if c.successCount + 1 >= config.successThreshold then
        c.(state := Closed, failureCount := 0, successCount := 0)
      else c.(successCount := c.successCount + 1)
  }

  function Recorded(c: Circuit, success: bool, now: real, config: Config): Circuit {
    Counted(Looked(c, now, config), success, now, config)
  }

  /** An absent hash and one that holds only defaults are the same. */
  type Hashes = m: map<string, Circuit> | forall name :: name in m ==> m[name] != FRESH
    witness map[]

  function HashOf(hs: Hashes, name: string): Circuit {
    if name in hs then hs[name] else FRESH
  }

  function Put(hs: Hashes, name: string, c: Circuit): (r: Hashes)
    ensures HashOf(r, name) == c
  {
    if c == FRESH then hs - {name} else hs[name := c]
  }

  lemma PutPut(hs: Hashes, name: string, a: Circuit, b: Circuit)
    ensures Put(Put(hs, name, a), name, b) == Put(hs, name, b)
  {
  }

  class Circuits {
    var hashes: Hashes
    const config: Config

    constructor (config: Config)
      ensures hashes == map[] && this.config == config
    {
      hashes := map[];
      this.config := config;
    }

    method GetCircuitState(name: string, now: real) returns (state: CircuitState)
      modifies this
      ensures hashes == Put(old(hashes), name, Looked(HashOf(old(hashes), name), now, config))
      ensures state == HashOf(hashes, name).state
      ensures state.Open? <==> HashOf(old(hashes), name).state.Open?
                               && now < HashOf(old(hashes), name).openedAt + config.recoveryTimeout
    {
      if name !in hashes {
        return Closed;
      }
      var data := hashes[name];
      if data.state.Open? {
        if now - data.openedAt >= config.recoveryTimeout {
          hashes := Put(hashes, name, data.(state := HalfOpen, successCount := 0));
          return HalfOpen;
        }
        return Open;
      }
      return data.state;
    }

    /** The field writes are collected in `c` and stored together. */
    method RecordCircuitResult(name: string, success: bool, now: real)
      modifies this
      ensures hashes == Put(old(hashes), name, Recorded(HashOf(old(hashes), name), success, now, config))
    {
      ghost var before := hashes;
      var state := GetCircuitState(name, now);
      var c := HashOf(hashes, name);
      ghost var looked := c;
      match state {
        case Closed =>
          if !success {
            c := c.(failureCount := c.failureCount + 1);
            if c.failureCount >= config.failureThreshold {
              c := c.(state := Open, openedAt := now, failureCount := 0);
            }
          } else {
            c := c.(failureCount := 0);
          }
        case HalfOpen =>
          if success {
            c := c.(successCount := c.successCount + 1);
            if c.successCount >= config.successThreshold {
              c := c.(state := Closed, failureCount := 0, successCount := 0);
            }
          } else {
            c := c.(state := Open, openedAt := now, successCount := 0);
          }
        case Open =>
      }
      PutPut(before, name, looked, c);
      hashes := Put(hashes, name, c);
    }
  }

  /* ---------- Retry ---------- */

  type Response = string

  /** What one call to an adapter can do. */
  datatype Reply =
    | Responded(response: Response)
    | ProviderFault(message: string, retryable: bool)
    | OtherFault(kind: string)

  predicate TryAgain(r: Reply) {
    r.ProviderFault? && r.retryable
  }

  /** What trying one provider came to: an answer, a provider error (`goesOn`: failover
      continues), or an exception failover does not catch. */
  datatype Tried<+R> =
    | Answer(value: R)
    | Fault(message: string, goesOn: bool)
    | Crash(kind: string)

  function Verdict(r: Reply): Tried<Response> {
    match r
    case Responded(response) => Answer(response)
    case ProviderFault(message, retryable) => Fault(message, retryable)
    case OtherFault(kind) => Crash(kind)
  }

  /** The attempt at which retrying ends. */
  function StopAt(replies: nat -> Reply, attempts: nat, k: nat): (stop: nat)
    requires k < attempts
    ensures k <= stop < attempts
    ensures forall j :: k <= j < stop ==> TryAgain(replies(j))
    ensures TryAgain(replies(stop)) ==> stop == attempts - 1
    decreases attempts - k
  {
    if k == attempts - 1 || !TryAgain(replies(k)) then k else StopAt(replies, attempts, k + 1)
  }

  /** A provider of the list, with everything the world does when its turn comes: its replies by
      attempt, and the clock when its circuit is checked and when its result is recorded. */
  datatype Provider = Provider(name: string, maxAttempts: int, replies: nat -> Reply, checkedAt: real, recordedAt: real)

  method ExecuteWithRetry(replies: nat -> Reply, maxAttempts: int) returns (tried: Tried<Response>, ghost calls: nat)
    ensures tried == if maxAttempts <= 0 then Crash("RuntimeError")
        else Verdict(replies(StopAt(replies, maxAttempts, 0)))
    ensures calls == if maxAttempts <= 0 then 0 else StopAt(replies, maxAttempts, 0) + 1
  {
    calls := 0;
    for attempt := 0 to if maxAttempts < 0 then 0 else maxAttempts
      invariant calls == attempt
      invariant forall j :: 0 <= j < attempt ==> TryAgain(replies(j))
      invariant attempt == maxAttempts ==> attempt == 0
    {
      var reply := replies(attempt);
      calls := calls + 1;
      match reply {
        case Responded(response) =>
          return Answer(response), calls;
        case ProviderFault(message, retryable) =>
          if !retryable || attempt == maxAttempts - 1 {
            return Fault(message, retryable), calls;
          }
        case OtherFault(kind) =>
          return Crash(kind), calls;
      }
    }
    return Crash("RuntimeError"), calls;
  }

  /* ---------- Failover ---------- */

  /** A provider of the list, reduced to what trying it comes to. */
  datatype Candidate<+R> = Candidate(name: string, tried: Tried<R>, calls: nat, limit: nat, checkedAt: real,
                                     recordedAt: real)

  function Whole(p: Provider): (c: Candidate<Response>)
    ensures c.calls <= c.limit
  {
    if p.maxAttempts <= 0 then Candidate(p.name, Crash("RuntimeError"), 0, 0, p.checkedAt, p.recordedAt)
    else
      var stop := StopAt(p.replies, p.maxAttempts, 0);
      Candidate(p.name, Verdict(p.replies(stop)), stop + 1, p.maxAttempts, p.checkedAt, p.recordedAt)
  }

  /** Skipped as open, or tried. */
  datatype Round<+R> = SkippedOpen | Ran(tried: Tried<R>)

  predicate PassesOn<R>(r: Round<R>) {
    r.SkippedOpen? || (r.tried.Fault? && r.tried.goesOn)
  }

  function RoundOf<R>(c: Candidate<R>, hs: Hashes, config: Config): Round<R> {
    if Looked(HashOf(hs, c.name), c.checkedAt, config).state.Open? then SkippedOpen else Ran(c.tried)
  }

  function Visited<R>(c: Candidate<R>, hs: Hashes, config: Config): Hashes {
    var looked := Looked(HashOf(hs, c.name), c.checkedAt, config);
    Put(hs, c.name,
        if looked.state.Open? || c.tried.Crash? then looked
        else Recorded(looked, c.tried.Answer?, c.recordedAt, config))
  }

  /** The circuits after the first `i` providers had their turn. */
  function HashesAt<R>(cs: seq<Candidate<R>>, i: nat, hs: Hashes, config: Config): Hashes
    requires i <= |cs|
  {
    if i == 0 then hs else Visited(cs[i - 1], HashesAt(cs, i - 1, hs, config), config)
  }

  function RoundAt<R>(cs: seq<Candidate<R>>, i: nat, hs: Hashes, config: Config): Round<R>
    requires i < |cs|
  {
    RoundOf(cs[i], HashesAt(cs, i, hs, config), config)
  }

  /** Adapter calls made to the first `i` providers. */
  function CallsAt<R>(cs: seq<Candidate<R>>, i: nat, hs: Hashes, config: Config): nat
    requires i <= |cs|
  {
    if i == 0 then 0
    else CallsAt(cs, i - 1, hs, config) + (if RoundAt(cs, i - 1, hs, config).SkippedOpen? then 0 else cs[i - 1].calls)
  }

  function Limits<R>(cs: seq<Candidate<R>>): nat {
    if cs == [] then 0 else Limits(cs[..|cs| - 1]) + cs[|cs| - 1].limit
  }

  datatype Decision = Decision(selected: string, fallbackUsed: bool, reason: string, eligible: seq<string>)

  datatype Result<+R> =
    | Served(value: R, decision: Decision)
    | Raised(message: string)
    | Escaped(kind: string)
    | Unavailable(errors: seq<string>)

  function NamesOf<R>(cs: seq<Candidate<R>>): seq<string> {
    seq(|cs|, i requires 0 <= i < |cs| => cs[i].name)
  }

  function ErrorLine<R>(name: string, r: Round<R>): string {
    match r
    case SkippedOpen => name + ": circuit open"
    case Ran(Fault(message, _)) => name + ": " + message
    case _ => ""
  }

  /** The first `n` providers each passed the request on. */
  ghost predicate AllPassed<R>(cs: seq<Candidate<R>>, n: nat, hs: Hashes, config: Config)
    requires n <= |cs|
  {
    forall j {:trigger RoundAt(cs, j, hs, config)} :: 0 <= j < n ==> PassesOn(RoundAt(cs, j, hs, config))
  }

  /** What failover promises when it stops after `n` providers: every earlier provider was
      skipped as open or failed all its attempts in a retryable way, and the last one decides;
      or all passed, and there is one error line per provider. */
  ghost predicate Resolves<R>(cs: seq<Candidate<R>>, n: nat, hs: Hashes, config: Config, result: Result<R>) {
    && n <= |cs|
    && match result
       case Unavailable(errors) =>
         && n == |cs| && AllPassed(cs, n, hs, config)
         && |errors| == |cs|
         && forall j {:trigger errors[j]} :: 0 <= j < |cs| ==>
             errors[j] == ErrorLine(cs[j].name, RoundAt(cs, j, hs, config))
       case Served(value, decision) =>
         && n > 0 && AllPassed(cs, n - 1, hs, config)
         && RoundAt(cs, n - 1, hs, config) == Ran(Answer(value))
         && decision == Decision(cs[n - 1].name, n > 1, if n > 1 then "fallback" else "primary", NamesOf(cs))
       case Raised(message) =>
         && n > 0 && AllPassed(cs, n - 1, hs, config)
         && RoundAt(cs, n - 1, hs, config) == Ran(Fault(message, false))
       case Escaped(kind) =>
         && n > 0 && AllPassed(cs, n - 1, hs, config)
         && RoundAt(cs, n - 1, hs, config) == Ran(Crash(kind))
  }

  function ProviderNames(ps: seq<Provider>): (names: seq<string>)
    ensures names == NamesOf(Wholes(ps))
  {
    seq(|ps|, i requires 0 <= i < |ps| => ps[i].name)
  }

  function Wholes(ps: seq<Provider>): seq<Candidate<Response>> {
    seq(|ps|, i requires 0 <= i < |ps| => Whole(ps[i]))
  }

  /** Progress of the loop: the first `i` providers passed, with one error line each. */
  ghost predicate Passed<R>(cs: seq<Candidate<R>>, i: nat, hs: Hashes, config: Config, errors: seq<string>) {
    && i <= |cs| && |errors| == i && AllPassed(cs, i, hs, config)
    && forall j {:trigger errors[j]} :: 0 <= j < i ==> errors[j] == ErrorLine(cs[j].name, RoundAt(cs, j, hs, config))
  }

  lemma EndResolves<R>(cs: seq<Candidate<R>>, hs: Hashes, config: Config, errors: seq<string>)
    requires Passed(cs, |cs|, hs, config, errors)
    ensures Resolves(cs, |cs|, hs, config, Unavailable(errors))
  {
  }

  /** The branches after one provider's turn: an error line to keep, or the end. */
  method AfterRound<R>(round: Round<R>, name: string, i: nat, names: seq<string>, errors: seq<string>,
                       ghost cs: seq<Candidate<R>>, ghost hs: Hashes, ghost config: Config)
    returns (kept: seq<string>, stop: Option<Result<R>>)
    requires i < |cs| && Passed(cs, i, hs, config, errors)
    requires round == RoundAt(cs, i, hs, config) && name == cs[i].name && names == NamesOf(cs)
    ensures stop.None? ==> Passed(cs, i + 1, hs, config, kept)
    ensures stop.Some? ==> Resolves(cs, i + 1, hs, config, stop.value)
  {
    var line := "";
    kept, stop := errors, None;
    match round {
      case SkippedOpen =>
        line := name + ": circuit open";
      case Ran(Answer(value)) =>
        var decision := Decision(name, i > 0, if i > 0 then "fallback" else "primary", names);
        return errors, Some(Served(value, decision));
      case Ran(Fault(message, retryable)) =>
        line := name + ": " + message;
        if !retryable {
          return errors + [line], Some(Raised(message));
        }
      case Ran(Crash(kind)) =>
        return errors, Some(Escaped(kind));
    }
    kept := errors + [line];
  }

  lemma VisitedInSteps<R>(c: Candidate<R>, hs: Hashes, config: Config)
    ensures var looked := Looked(HashOf(hs, c.name), c.checkedAt, config);
      var read := Put(hs, c.name, looked);
      Visited(c, hs, config) ==
        if looked.state.Open? || c.tried.Crash? then read
        else Put(read, c.name, Recorded(HashOf(read, c.name), c.tried.Answer?, c.recordedAt, config))
  {
    var looked := Looked(HashOf(hs, c.name), c.checkedAt, config);
    PutPut(hs, c.name, looked, Recorded(looked, c.tried.Answer?, c.recordedAt, config));
  }

  /** One provider's turn: check its circuit, try it, record the result. It is provider `i` of
      the list `cs`, and `hs` are the circuits failover began with. */
  method TryProvider(provider: Provider, circuits: Circuits, ghost cs: seq<Candidate<Response>>, ghost i: nat,
                     ghost hs: Hashes)
    returns (round: Round<Response>, ghost calls: nat)
    requires i < |cs| && cs[i] == Whole(provider) && circuits.hashes == HashesAt(cs, i, hs, circuits.config)
    modifies circuits
    ensures round == RoundAt(cs, i, hs, circuits.config)
    ensures circuits.hashes == HashesAt(cs, i + 1, hs, circuits.config)
    ensures CallsAt(cs, i, hs, circuits.config) + calls == CallsAt(cs, i + 1, hs, circuits.config)
  {
    VisitedInSteps(Whole(provider), circuits.hashes, circuits.config);
    var state := circuits.GetCircuitState(provider.name, provider.checkedAt);
    if state.Open? {
      return SkippedOpen, 0;
    }
    var tried, made := ExecuteWithRetry(provider.replies, provider.maxAttempts);
    assert tried == Whole(provider).tried;
    if !tried.Crash? {
      circuits.RecordCircuitResult(provider.name, tried.Answer?, provider.recordedAt);
    }
    return Ran(tried), made;
  }

  method ExecuteWithFailover(providers: seq<Provider>, circuits: Circuits)
    returns (result: Result<Response>, ghost n: nat, ghost calls: nat)
    modifies circuits
    ensures Resolves(Wholes(providers), n, old(circuits.hashes), circuits.config, result)
    ensures circuits.hashes == HashesAt(Wholes(providers), n, old(circuits.hashes), circuits.config)
    ensures calls == CallsAt(Wholes(providers), n, old(circuits.hashes), circuits.config)
  {
    ghost var cs, hs, config := Wholes(providers), circuits.hashes, circuits.config;
    var names := ProviderNames(providers);
    var errors: seq<string> := [];
    calls := 0;
    for i := 0 to |providers|
      invariant Passed(cs, i, hs, config, errors)
      invariant circuits.hashes == HashesAt(cs, i, hs, config)
      invariant calls == CallsAt(cs, i, hs, config)
    {
      assert cs[i] == Whole(providers[i]);
      var round, made := TryProvider(providers[i], circuits, cs, i, hs);
      calls := calls + made;
      var kept, stop := AfterRound(round, providers[i].name, i, names, errors, cs, hs, config);
      if stop.Some? {
        return stop.value, i + 1, calls;
      }
      errors := kept;
    }
    EndResolves(cs, hs, config, errors);
    return Unavailable(errors), |providers|, calls;
  }

  /* ---------- Streams ---------- */

  /** What a provider streams after it delivered a first chunk. */
  datatype Delivery = Delivery(chunks: seq<Streaming.Chunk>, ending: Streaming.Ending)

  /** What waiting for the first chunk can come to. */
  datatype Opening =
    | Opened(first: Streaming.Chunk, rest: seq<Streaming.Chunk>, ending: Streaming.Ending)
    | OpeningFault(message: string, retryable: bool)
    | Empty
    | OtherError(kind: string, text: string)

  datatype StreamProvider = StreamProvider(name: string, opening: Opening, checkedAt: real, recordedAt: real)

  function OpeningVerdict(o: Opening): Tried<Delivery> {
    match o
    case Opened(first, rest, ending) => Answer(Delivery([first] + rest, ending))
    case OpeningFault(message, retryable) => Fault(message, retryable)
    case Empty => Fault("Stream ended before first chunk", true)
    case OtherError(kind, text) => Fault(kind + ": " + text, true)
  }

  function Opener(p: StreamProvider): Candidate<Delivery> {
    Candidate(p.name, OpeningVerdict(p.opening), 1, 1, p.checkedAt, p.recordedAt)
  }

  function StreamNames(ps: seq<StreamProvider>): (names: seq<string>)
    ensures names == NamesOf(Openers(ps))
  {
    seq(|ps|, i requires 0 <= i < |ps| => ps[i].name)
  }

  function Openers(ps: seq<StreamProvider>): seq<Candidate<Delivery>> {
    seq(|ps|, i requires 0 <= i < |ps| => Opener(ps[i]))
  }

  method TryStream(provider: StreamProvider, circuits: Circuits, ghost cs: seq<Candidate<Delivery>>, ghost i: nat,
                   ghost hs: Hashes)
    returns (round: Round<Delivery>)
    requires i < |cs| && cs[i] == Opener(provider) && circuits.hashes == HashesAt(cs, i, hs, circuits.config)
    modifies circuits
    ensures round == RoundAt(cs, i, hs, circuits.config)
    ensures circuits.hashes == HashesAt(cs, i + 1, hs, circuits.config)
  {
    VisitedInSteps(Opener(provider), circuits.hashes, circuits.config);
    var state := circuits.GetCircuitState(provider.name, provider.checkedAt);
    if state.Open? {
      return SkippedOpen;
    }
    var tried: Tried<Delivery>;
    match provider.opening {
      case Opened(first, rest, ending) => tried := Answer(Delivery([first] + rest, ending));
      case OpeningFault(message, retryable) => tried := Fault(message, retryable);
      case Empty => tried := Fault("Stream ended before first chunk", true);
      case OtherError(kind, text) => tried := Fault(kind + ": " + text, true);
    }
    circuits.RecordCircuitResult(provider.name, tried.Answer?, provider.recordedAt);
    return Ran(tried);
  }

  method ExecuteStreamWithFailover(providers: seq<StreamProvider>, circuits: Circuits)
    returns (result: Result<Delivery>, ghost n: nat)
    modifies circuits
    ensures Resolves(Openers(providers), n, old(circuits.hashes), circuits.config, result)
    ensures circuits.hashes == HashesAt(Openers(providers), n, old(circuits.hashes), circuits.config)
  {
    ghost var cs, hs, config := Openers(providers), circuits.hashes, circuits.config;
    var names := StreamNames(providers);
    var errors: seq<string> := [];
    for i := 0 to |providers|
      invariant Passed(cs, i, hs, config, errors)
      invariant circuits.hashes == HashesAt(cs, i, hs, config)
    {
      assert cs[i] == Opener(providers[i]);
      var round := TryStream(providers[i], circuits, cs, i, hs);
      var kept, stop := AfterRound(round, providers[i].name, i, names, errors, cs, hs, config);
      if stop.Some? {
        return stop.value, i + 1;
      }
      errors := kept;
    }
    EndResolves(cs, hs, config, errors);
    return Unavailable(errors), |providers|;
  }
}
