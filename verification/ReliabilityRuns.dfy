/** What failover and the Redis circuit breaker guarantee, per request and over whole runs. */
module ReliabilityRuns {
  import opened Wrappers
  import opened Sequences
  import opened Reliability
  import Streaming
  import StreamingAgreement

  /* ---------- One request ---------- */

  /** Some allowed attempt answers, and every earlier one may be tried again. */
  ghost predicate Usable(p: Provider) {
    exists k: nat :: k < p.maxAttempts && p.replies(k).Responded? && forall j: nat :: j < k ==> TryAgain(p.replies(j))
  }

  /** Some allowed attempt ends in `reply`, and every earlier one may be tried again. */
  ghost predicate ComesTo(p: Provider, reply: Reply) {
    exists k: nat :: k < p.maxAttempts && p.replies(k) == reply && forall j: nat :: j < k ==> TryAgain(p.replies(j))
  }

  /** Every allowed attempt fails in a retryable way. */
  ghost predicate Exhausted(p: Provider) {
    p.maxAttempts > 0 && forall k: nat :: k < p.maxAttempts ==> TryAgain(p.replies(k))
  }

  /** What retrying comes to, in terms of the provider's replies alone. */
  lemma RetryExactly(p: Provider)
    ensures Whole(p).tried.Answer? <==> Usable(p)
    ensures Whole(p).tried.Fault? && Whole(p).tried.goesOn <==> Exhausted(p)
    ensures Whole(p).calls <= Whole(p).limit
    ensures Exhausted(p) ==> Whole(p).calls == p.maxAttempts
  {
  }

  /** Failover has one result and one place to stop. */
  lemma ResultUnique<R>(cs: seq<Candidate<R>>, hs: Hashes, config: Config, n: nat, a: Result<R>, m: nat, b: Result<R>)
    requires Resolves(cs, n, hs, config, a) && Resolves(cs, m, hs, config, b)
    ensures n == m && a == b
  {
  }

  ghost predicate Skips(ps: seq<Provider>, i: nat, hs: Hashes, config: Config)
    requires i < |ps|
  {
    RoundAt(Wholes(ps), i, hs, config).SkippedOpen?
  }

  ghost predicate PassesBy(ps: seq<Provider>, i: nat, hs: Hashes, config: Config)
    requires i < |ps|
  {
    Skips(ps, i, hs, config) || Exhausted(ps[i])
  }

  lemma PassedByExactly(ps: seq<Provider>, n: nat, hs: Hashes, config: Config)
    requires n <= |ps|
    ensures AllPassed(Wholes(ps), n, hs, config) <==> forall j :: 0 <= j < n ==> PassesBy(ps, j, hs, config)
  {
    forall j | 0 <= j < n
      ensures PassesOn(RoundAt(Wholes(ps), j, hs, config)) <==> PassesBy(ps, j, hs, config)
    {
    }
  }

  /** What a provider that may serve would serve. */
  ghost function Serving(ps: seq<Provider>, i: nat, hs: Hashes, config: Config): Result<Response>
    requires i < |ps| && Whole(ps[i]).tried.Answer?
  {
    Served(Whole(ps[i]).tried.value,
           Decision(ps[i].name, i > 0, if i > 0 then "fallback" else "primary", ProviderNames(ps)))
  }

  lemma ServingResolves(ps: seq<Provider>, i: nat, hs: Hashes, config: Config)
    requires i < |ps| && Whole(ps[i]).tried.Answer? && !Skips(ps, i, hs, config) && AllPassed(Wholes(ps), i, hs, config)
    ensures Resolves(Wholes(ps), i + 1, hs, config, Serving(ps, i, hs, config))
    ensures ComesTo(ps[i], Responded(Serving(ps, i, hs, config).value))
  {
    assert Wholes(ps)[i] == Whole(ps[i]);
    assert RoundAt(Wholes(ps), i, hs, config) == Ran(Answer(Whole(ps[i]).tried.value));
  }

  /** The provider that serves is the first usable one whose circuit is not open: every earlier
      one was skipped as open or used up its attempts on retryable errors. What it serves is its
      first answer. */
  lemma ServedByFirstUsable(ps: seq<Provider>, hs: Hashes, config: Config, n: nat, result: Result<Response>, i: nat)
    requires Resolves(Wholes(ps), n, hs, config, result) && i < |ps|
    ensures result.Served? && n == i + 1 <==>
      && Usable(ps[i]) && !Skips(ps, i, hs, config)
      && forall j :: 0 <= j < i ==> PassesBy(ps, j, hs, config)
    ensures result.Served? && n == i + 1 ==>
      && ComesTo(ps[i], Responded(result.value))
      && result.decision == Decision(ps[i].name, i > 0, if i > 0 then "fallback" else "primary", ProviderNames(ps))
  {
    RetryExactly(ps[i]);
    PassedByExactly(ps, i, hs, config);
    assert Wholes(ps)[i] == Whole(ps[i]);
    if Usable(ps[i]) && !Skips(ps, i, hs, config) && AllPassed(Wholes(ps), i, hs, config) {
      ServingResolves(ps, i, hs, config);
      ResultUnique(Wholes(ps), hs, config, n, result, i + 1, Serving(ps, i, hs, config));
    }
  }

  /** The request is unavailable exactly when every provider was skipped or exhausted; each then
      has a line that says so, or tells the message of its last attempt. */
  lemma UnavailableExactly(ps: seq<Provider>, hs: Hashes, config: Config, n: nat, result: Result<Response>)
    requires Resolves(Wholes(ps), n, hs, config, result)
    ensures result.Unavailable? <==> forall j :: 0 <= j < |ps| ==> PassesBy(ps, j, hs, config)
    ensures result.Unavailable? ==>
      && |result.errors| == |ps| == n
      && forall j :: 0 <= j < |ps| ==>
          if Skips(ps, j, hs, config) then result.errors[j] == ps[j].name + ": circuit open"
          else Exhausted(ps[j]) && result.errors[j] == ps[j].name + ": " + ps[j].replies(ps[j].maxAttempts - 1).message
  {
    PassedByExactly(ps, |ps|, hs, config);
    if result.Unavailable? {
      forall j | 0 <= j < |ps|
        ensures if Skips(ps, j, hs, config) then result.errors[j] == ps[j].name + ": circuit open"
          else Exhausted(ps[j]) && result.errors[j] == ps[j].name + ": " + ps[j].replies(ps[j].maxAttempts - 1).message
      {
        assert PassesBy(ps, j, hs, config) && Wholes(ps)[j] == Whole(ps[j]);
        assert result.errors[j] == ErrorLine(ps[j].name, RoundAt(Wholes(ps), j, hs, config));
      }
    } else {
      assert !PassesOn(RoundAt(Wholes(ps), n - 1, hs, config));
    }
  }

  /** The caller gets a provider's own error exactly when the first provider that was neither
      skipped nor exhausted ends in that error, final. */
  lemma RaisedExactly(ps: seq<Provider>, hs: Hashes, config: Config, n: nat, result: Result<Response>, i: nat,
                      message: string)
    requires Resolves(Wholes(ps), n, hs, config, result) && i < |ps|
    ensures result == Raised(message) && n == i + 1 <==>
      && ComesTo(ps[i], ProviderFault(message, false)) && !Skips(ps, i, hs, config)
      && forall j :: 0 <= j < i ==> PassesBy(ps, j, hs, config)
  {
    var cs := Wholes(ps);
    PassedByExactly(ps, i, hs, config);
    assert cs[i] == Whole(ps[i]);
    if ComesTo(ps[i], ProviderFault(message, false)) && !Skips(ps, i, hs, config) && AllPassed(cs, i, hs, config) {
      assert RoundAt(cs, i, hs, config) == Ran(Fault(message, false));
      assert Resolves(cs, i + 1, hs, config, Raised(message));
      ResultUnique(cs, hs, config, n, result, i + 1, Raised(message));
    }
  }

  /** However the request ends, adapters are called at most as often as the attempt limits allow. */
  lemma {:induction false} CallsBounded(ps: seq<Provider>, n: nat, hs: Hashes, config: Config)
    requires n <= |ps|
    ensures CallsAt(Wholes(ps), n, hs, config) <= Limits(Wholes(ps[..n]))
  {
    if n > 0 {
      CallsBounded(ps, n - 1, hs, config);
      RetryExactly(ps[n - 1]);
      LimitsStep(ps, n);
    }
  }

  lemma LimitsStep(ps: seq<Provider>, n: nat)
    requires 0 < n <= |ps|
    ensures Limits(Wholes(ps[..n])) == Limits(Wholes(ps[..n - 1])) + Whole(ps[n - 1]).limit
  {
    var cs := Wholes(ps[..n]);
    assert cs[..|cs| - 1] == Wholes(ps[..n - 1]);
    assert cs[|cs| - 1] == Whole(ps[n - 1]);
  }

  /** An exception that is no provider error escapes exactly when the first provider that was
      neither skipped nor exhausted ends in it; a provider allowed no attempt is a runtime error. */
  lemma EscapedExactly(ps: seq<Provider>, hs: Hashes, config: Config, n: nat, result: Result<Response>, i: nat,
                       kind: string)
    requires Resolves(Wholes(ps), n, hs, config, result) && i < |ps|
    ensures result == Escaped(kind) && n == i + 1 <==>
      && ((ps[i].maxAttempts <= 0 && kind == "RuntimeError") || ComesTo(ps[i], OtherFault(kind)))
      && !Skips(ps, i, hs, config)
      && forall j :: 0 <= j < i ==> PassesBy(ps, j, hs, config)
  {
    var cs := Wholes(ps);
    PassedByExactly(ps, i, hs, config);
    assert cs[i] == Whole(ps[i]);
    if ((ps[i].maxAttempts <= 0 && kind == "RuntimeError") || ComesTo(ps[i], OtherFault(kind)))
       && !Skips(ps, i, hs, config) && AllPassed(cs, i, hs, config) {
      assert RoundAt(cs, i, hs, config) == Ran(Crash(kind));
      assert Resolves(cs, i + 1, hs, config, Escaped(kind));
      ResultUnique(cs, hs, config, n, result, i + 1, Escaped(kind));
    }
  }

  /* ---------- One stream ---------- */

  ghost predicate StreamSkips(ps: seq<StreamProvider>, i: nat, hs: Hashes, config: Config)
    requires i < |ps|
  {
    RoundAt(Openers(ps), i, hs, config).SkippedOpen?
  }

  /** What makes failover go on to the next provider of a stream. */
  ghost predicate StreamPassesBy(ps: seq<StreamProvider>, i: nat, hs: Hashes, config: Config)
    requires i < |ps|
  {
    var o := ps[i].opening;
    StreamSkips(ps, i, hs, config) || o.Empty? || o.OtherError? || (o.OpeningFault? && o.retryable)
  }

  lemma StreamsPassedByExactly(ps: seq<StreamProvider>, n: nat, hs: Hashes, config: Config)
    requires n <= |ps|
    ensures AllPassed(Openers(ps), n, hs, config) <==> forall j :: 0 <= j < n ==> StreamPassesBy(ps, j, hs, config)
  {
    forall j | 0 <= j < n
      ensures PassesOn(RoundAt(Openers(ps), j, hs, config)) <==> StreamPassesBy(ps, j, hs, config)
    {
      assert Openers(ps)[j] == Opener(ps[j]);
    }
  }

  /** Provider `i` serves the stream exactly when it opened and was not skipped, and every earlier
      one was skipped as open, was empty, failed otherwise, or failed in a retryable way. */
  lemma StreamServedExactly(ps: seq<StreamProvider>, hs: Hashes, config: Config, n: nat, result: Result<Delivery>,
                            i: nat)
    requires Resolves(Openers(ps), n, hs, config, result) && i < |ps|
    ensures result.Served? && n == i + 1 <==>
      && ps[i].opening.Opened? && !StreamSkips(ps, i, hs, config)
      && forall j :: 0 <= j < i ==> StreamPassesBy(ps, j, hs, config)
    ensures result.Served? && n == i + 1 ==>
      && result.value == Delivery([ps[i].opening.first] + ps[i].opening.rest, ps[i].opening.ending)
      && result.decision == Decision(ps[i].name, i > 0, if i > 0 then "fallback" else "primary", StreamNames(ps))
  {
    var cs := Openers(ps);
    StreamsPassedByExactly(ps, i, hs, config);
    assert cs[i] == Opener(ps[i]);
    if ps[i].opening.Opened? && !StreamSkips(ps, i, hs, config) && AllPassed(cs, i, hs, config) {
      var round := RoundAt(cs, i, hs, config);
      var served := Served(round.tried.value,
                           Decision(cs[i].name, i > 0, if i > 0 then "fallback" else "primary", NamesOf(cs)));
      assert Resolves(cs, i + 1, hs, config, served);
      ResultUnique(cs, hs, config, n, result, i + 1, served);
    }
  }

  /** The error line of a provider that passed the stream on. */
  ghost predicate StreamLine(line: string, p: StreamProvider, skipped: bool) {
    if skipped then line == p.name + ": circuit open"
    else
      match p.opening
      case OpeningFault(message, _) => line == p.name + ": " + message
      case Empty => line == p.name + ": " + "Stream ended before first chunk"
      case OtherError(kind, text) => line == p.name + ": " + (kind + ": " + text)
      case Opened(_, _, _) => false
  }

  lemma LineTells(ps: seq<StreamProvider>, j: nat, hs: Hashes, config: Config)
    requires j < |ps| && StreamPassesBy(ps, j, hs, config)
    ensures var line := ErrorLine(ps[j].name, RoundAt(Openers(ps), j, hs, config));
      StreamLine(line, ps[j], StreamSkips(ps, j, hs, config))
  {
    assert Openers(ps)[j] == Opener(ps[j]);
  }

  lemma StreamLines(ps: seq<StreamProvider>, hs: Hashes, config: Config, n: nat, result: Result<Delivery>)
    requires Resolves(Openers(ps), n, hs, config, result) && result.Unavailable?
    ensures |result.errors| == |ps| == n
    ensures forall j :: 0 <= j < |ps| ==>
      StreamPassesBy(ps, j, hs, config) && StreamLine(result.errors[j], ps[j], StreamSkips(ps, j, hs, config))
  {
    StreamsPassedByExactly(ps, |ps|, hs, config);
    forall j | 0 <= j < |ps|
      ensures StreamPassesBy(ps, j, hs, config) && StreamLine(result.errors[j], ps[j], StreamSkips(ps, j, hs, config))
    {
      LineTells(ps, j, hs, config);
      assert result.errors[j] == ErrorLine(ps[j].name, RoundAt(Openers(ps), j, hs, config));
    }
  }

  lemma StreamStops(ps: seq<StreamProvider>, hs: Hashes, config: Config, n: nat, result: Result<Delivery>)
    requires Resolves(Openers(ps), n, hs, config, result) && !result.Unavailable?
    ensures 0 < n <= |ps| && !StreamPassesBy(ps, n - 1, hs, config) && !result.Escaped?
  {
    assert !PassesOn(RoundAt(Openers(ps), n - 1, hs, config)) && Openers(ps)[n - 1] == Opener(ps[n - 1]);
  }

  /** The 503 comes exactly when every provider passed the stream on, with its line for each. */
  lemma StreamUnavailableExactly(ps: seq<StreamProvider>, hs: Hashes, config: Config, n: nat,
                                 result: Result<Delivery>)
    requires Resolves(Openers(ps), n, hs, config, result)
    ensures result.Unavailable? <==> forall j :: 0 <= j < |ps| ==> StreamPassesBy(ps, j, hs, config)
    ensures result.Unavailable? ==>
      && |result.errors| == |ps| == n
      && forall j :: 0 <= j < |ps| ==> StreamLine(result.errors[j], ps[j], StreamSkips(ps, j, hs, config))
    ensures !result.Escaped?
  {
    if result.Unavailable? {
      StreamLines(ps, hs, config, n, result);
    } else {
      StreamStops(ps, hs, config, n, result);
    }
  }

  /** The caller gets a provider's own error exactly when the first provider that did not pass the
      stream on failed with that message in a way that is not retryable. */
  lemma StreamRaisedExactly(ps: seq<StreamProvider>, hs: Hashes, config: Config, n: nat, result: Result<Delivery>,
                            i: nat, message: string)
    requires Resolves(Openers(ps), n, hs, config, result) && i < |ps|
    ensures result == Raised(message) && n == i + 1 <==>
      && ps[i].opening == OpeningFault(message, false) && !StreamSkips(ps, i, hs, config)
      && forall j :: 0 <= j < i ==> StreamPassesBy(ps, j, hs, config)
  {
    var cs := Openers(ps);
    StreamsPassedByExactly(ps, i, hs, config);
    assert cs[i] == Opener(ps[i]);
    if ps[i].opening == OpeningFault(message, false) && !StreamSkips(ps, i, hs, config)
       && AllPassed(cs, i, hs, config) {
      assert RoundAt(cs, i, hs, config) == Ran(Fault(message, false));
      assert Resolves(cs, i + 1, hs, config, Raised(message));
      ResultUnique(cs, hs, config, n, result, i + 1, Raised(message));
    }
  }

  lemma EarlierSkipped(ps: seq<StreamProvider>, hs: Hashes, config: Config, n: nat, j: nat)
    requires j < n <= |ps| && AllPassed(Openers(ps), n, hs, config) && ps[j].opening.Opened?
    ensures StreamSkips(ps, j, hs, config)
  {
    assert PassesOn(RoundAt(Openers(ps), j, hs, config)) && Openers(ps)[j] == Opener(ps[j]);
  }

  lemma ServedDelivery(ps: seq<StreamProvider>, hs: Hashes, config: Config, n: nat, result: Result<Delivery>)
    requires Resolves(Openers(ps), n, hs, config, result) && result.Served?
    ensures 0 < n <= |ps| && AllPassed(Openers(ps), n - 1, hs, config) && ps[n - 1].opening.Opened?
    ensures result.decision.selected == ps[n - 1].name
    ensures result.value == Delivery([ps[n - 1].opening.first] + ps[n - 1].opening.rest, ps[n - 1].opening.ending)
  {
    assert Openers(ps)[n - 1] == Opener(ps[n - 1]);
  }

  /** A served stream is the stream of one provider, the first that opened, and the client that
      collects it reads that provider's content or raises the error that broke it. */
  lemma StreamOfOneProvider(ps: seq<StreamProvider>, hs: Hashes, config: Config, n: nat, result: Result<Delivery>)
    requires Resolves(Openers(ps), n, hs, config, result) && result.Served?
    ensures 0 < n <= |ps| && ps[n - 1].opening.Opened?
    ensures result.decision.selected == ps[n - 1].name
    ensures result.value.chunks == [ps[n - 1].opening.first] + ps[n - 1].opening.rest
    ensures forall j :: 0 <= j < n - 1 && ps[j].opening.Opened? ==> StreamSkips(ps, j, hs, config)
    ensures var sent := Streaming.Sent(result.value.chunks, result.value.ending);
      Streaming.CollectFrom(Streaming.Received(Streaming.Lines(sent)), "") ==
        if ps[n - 1].opening.ending.Broken? then Streaming.Raised(ps[n - 1].opening.ending.failure)
        else Streaming.Collected(Streaming.Join(Streaming.Contents(result.value.chunks)))
  {
    ServedDelivery(ps, hs, config, n, result);
    forall j | 0 <= j < n - 1 && ps[j].opening.Opened? ensures StreamSkips(ps, j, hs, config) {
      EarlierSkipped(ps, hs, config, n - 1, j);
    }
    StreamingAgreement.StreamAgreement(result.value.chunks, result.value.ending);
  }

  /* ---------- One circuit over a whole run ---------- */

  /** What happened to one provider: its state was read, or its turn came and it was skipped
      or called. A call that crashed records no result. */
  datatype Event =
    | Read(at: real)
    | Skipped(at: real)
    | Called(checkedAt: real, recordedAt: real, success: Option<bool>)
  {
    function Begins(): real {
      if Called? then checkedAt else at
    }

    function Ends(): real {
      if Called? then recordedAt else at
    }

    predicate Result(success: bool) {
      Called? && this.success == Some(success)
    }
  }

  function EndOf(es: seq<Event>): real {
    if es == [] then 0.0 else Last(es).Ends()
  }

  function Step(c: Circuit, e: Event, config: Config): Circuit {
    var looked := Looked(c, e.Begins(), config);
    if e.Called? && e.success.Some? then Recorded(looked, e.success.value, e.recordedAt, config) else looked
  }

  function After(es: seq<Event>, config: Config): Circuit {
    if es == [] then FRESH else Step(After(Front(es), config), Last(es), config)
  }

  /** Events in clock order, each skipped or called as the circuit says. */
  predicate Legal(es: seq<Event>, config: Config) {
    es != [] ==>
      && Legal(Front(es), config)
      && EndOf(Front(es)) <= Last(es).Begins() <= Last(es).Ends()
      && (Last(es).Skipped? ==> Looked(After(Front(es), config), Last(es).at, config).state.Open?)
      && (Last(es).Called? ==> !Looked(After(Front(es), config), Last(es).checkedAt, config).state.Open?)
  }

  /* What the history says, without the circuit. */

  /** Failed rounds since the last success. */
  function FailuresInRow(es: seq<Event>): nat {
    if es == [] then 0
    else if Last(es).Result(true) then 0
    else FailuresInRow(Front(es)) + (if Last(es).Result(false) then 1 else 0)
  }

  /** Successful rounds since the last failure. */
  function SuccessesInRow(es: seq<Event>): nat {
    if es == [] then 0
    else if Last(es).Result(false) then 0
    else SuccessesInRow(Front(es)) + (if Last(es).Result(true) then 1 else 0)
  }

  function LastFailure(es: seq<Event>): Option<real> {
    if es == [] then None
    else if Last(es).Result(false) then Some(Last(es).recordedAt)
    else LastFailure(Front(es))
  }

  function AtLeastOne(n: int): nat {
    if n < 1 then 1 else n
  }

  /** Enough failures in a row came, and not yet enough successes in a row since. */
  predicate Tripped(es: seq<Event>, config: Config) {
    es != [] &&
    if Last(es).Result(true) then Tripped(Front(es), config) && SuccessesInRow(es) < AtLeastOne(config.successThreshold)
    else Tripped(Front(es), config) || FailuresInRow(es) >= AtLeastOne(config.failureThreshold)
  }

  /** The circuit agrees with the history. */
  ghost predicate Agrees(c: Circuit, es: seq<Event>, config: Config) {
    && (Tripped(es, config) <==> !c.state.Closed?)
    && (c.state.Closed? ==> c.failureCount == FailuresInRow(es) < AtLeastOne(config.failureThreshold))
    && (c.state.Open? ==> SuccessesInRow(es) == 0 && LastFailure(es) == Some(c.openedAt) && FailuresInRow(es) > 0)
    && (c.state.HalfOpen? ==> c.successCount == SuccessesInRow(es) < AtLeastOne(config.successThreshold))
    && (c.state.HalfOpen? ==> LastFailure(es).Some?)
    && (c.state.HalfOpen? && SuccessesInRow(es) == 0 ==> EndOf(es) - LastFailure(es).value >= config.recoveryTimeout)
  }

  /** The hash kept in Redis summarises the whole history of the provider. */
  lemma {:induction false} CircuitSummarisesHistory(es: seq<Event>, config: Config)
    requires Legal(es, config)
    ensures Agrees(After(es, config), es, config)
  {
    if es != [] {
      CircuitSummarisesHistory(Front(es), config);
    }
  }

  /** When a provider's turn comes, it is skipped exactly if its circuit tripped, no call
      succeeded since, and the recovery timeout has not passed since its last failure. */
  lemma SkippedExactly(es: seq<Event>, at: real, config: Config)
    requires Legal(es, config) && EndOf(es) <= at
    ensures Looked(After(es, config), at, config).state.Open? <==>
      Tripped(es, config) && SuccessesInRow(es) == 0 && LastFailure(es).Some? &&
          at < LastFailure(es).value + config.recoveryTimeout
  {
    CircuitSummarisesHistory(es, config);
  }

  lemma {:induction false} FailuresTrip(es: seq<Event>, config: Config)
    requires FailuresInRow(es) >= AtLeastOne(config.failureThreshold)
    ensures Tripped(es, config) && SuccessesInRow(es) == 0 && LastFailure(es).Some?
  {
    if !Last(es).Result(false) {
      FailuresTrip(Front(es), config);
    }
  }

  /** After `failureThreshold` failed rounds in a row, the adapter is not called again until the
      recovery timeout has passed since the last of them. */
  lemma QuietAfterThreshold(es: seq<Event>, e: Event, config: Config)
    requires Legal(es + [e], config)
    requires FailuresInRow(es) >= AtLeastOne(config.failureThreshold) && e.Called?
    ensures LastFailure(es).Some? && e.checkedAt >= LastFailure(es).value + config.recoveryTimeout
  {
    assert Front(es + [e]) == es && Last(es + [e]) == e;
    FailuresTrip(es, config);
    SkippedExactly(es, e.checkedAt, config);
  }

  /** A circuit that is not closed closes exactly when `successThreshold` calls in a row have
      succeeded since the last failure. */
  lemma ClosesExactly(es: seq<Event>, e: Event, config: Config)
    requires Legal(es + [e], config) && !After(es, config).state.Closed?
    ensures After(es + [e], config).state.Closed? <==>
      e.Result(true) && SuccessesInRow(es + [e]) >= AtLeastOne(config.successThreshold)
    ensures After(es + [e], config).state.Closed? ==> SuccessesInRow(es + [e]) == AtLeastOne(config.successThreshold)
  {
    assert Front(es + [e]) == es && Last(es + [e]) == e;
    CircuitSummarisesHistory(es, config);
    CircuitSummarisesHistory(es + [e], config);
  }

  /** A closed circuit opens exactly when `failureThreshold` rounds in a row have failed. */
  lemma OpensExactly(es: seq<Event>, e: Event, config: Config)
    requires Legal(es + [e], config) && After(es, config).state.Closed?
    ensures !After(es + [e], config).state.Closed? <==>
      e.Result(false) && FailuresInRow(es + [e]) >= AtLeastOne(config.failureThreshold)
    ensures !After(es + [e], config).state.Closed? ==> After(es + [e], config).openedAt == e.recordedAt
  {
    assert Front(es + [e]) == es && Last(es + [e]) == e;
    CircuitSummarisesHistory(es, config);
    CircuitSummarisesHistory(es + [e], config);
  }

  /* ---------- Runs of requests ---------- */

  /** A sequential run over all circuits: the health filter reads a state, or failover gives a
      provider its turn. */
  datatype Action<+R> =
    | ReadState(name: string, at: real)
    | Turn(c: Candidate<R>)
  {
    function Name(): string {
      if ReadState? then name else c.name
    }

    function Begins(): real {
      if ReadState? then at else c.checkedAt
    }

    function Ends(): real {
      if ReadState? then at else c.recordedAt
    }
  }

  function Act<R>(a: Action<R>, hs: Hashes, config: Config): Hashes {
    match a
    case ReadState(name, at) => Put(hs, name, Looked(HashOf(hs, name), at, config))
    case Turn(c) => Visited(c, hs, config)
  }

  function World<R>(run: seq<Action<R>>, config: Config): Hashes {
    if run == [] then map[] else Act(Last(run), World(Front(run), config), config)
  }

  function Clock<R>(run: seq<Action<R>>): real {
    if run == [] then 0.0 else Last(run).Ends()
  }

  predicate InOrder<R>(run: seq<Action<R>>) {
    run != [] ==> InOrder(Front(run)) && Clock(Front(run)) <= Last(run).Begins() <= Last(run).Ends()
  }

  function EventOf<R>(a: Action<R>, hs: Hashes, config: Config): Event {
    match a
    case ReadState(_, at) => Read(at)
    case Turn(c) =>
      if RoundOf(c, hs, config).SkippedOpen? then Skipped(c.checkedAt)
      else Called(c.checkedAt, c.recordedAt, if c.tried.Crash? then None else Some(c.tried.Answer?))
  }

  /** What a turn records: a success exactly when the provider answered or its stream opened, a
      failure for every other outcome but an exception that failover does not catch. */
  lemma TurnRecords(p: Provider, q: StreamProvider, hs: Hashes, config: Config)
    ensures var e := EventOf(Turn(Whole(p)), hs, config);
      e.Called? ==>
        && (e.success == Some(true) <==> Usable(p))
        && (e.success == Some(false) <==> Exhausted(p) || exists m :: ComesTo(p, ProviderFault(m, false)))
    ensures var e := EventOf(Turn(Opener(q)), hs, config);
      e.Called? ==> e.success == Some(q.opening.Opened?)
  {
    RetryExactly(p);
    var tried := Whole(p).tried;
    if tried.Fault? && !tried.goesOn {
      assert ComesTo(p, ProviderFault(tried.message, false));
    }
  }

  /** The part of a run that concerns one provider. */
  function History<R>(run: seq<Action<R>>, name: string, config: Config): seq<Event> {
    if run == [] then []
    else
      History(Front(run), name, config) +
      (if Last(run).Name() == name then [EventOf(Last(run), World(Front(run), config), config)] else [])
  }

  ghost predicate Tracks<R>(run: seq<Action<R>>, name: string, config: Config) {
    var es := History(run, name, config);
    Legal(es, config) && After(es, config) == HashOf(World(run, config), name) && EndOf(es) <= Clock(run)
  }

  lemma Grow(es: seq<Event>, e: Event, config: Config)
    ensures Front(es + [e]) == es && Last(es + [e]) == e
    ensures After(es + [e], config) == Step(After(es, config), e, config) && EndOf(es + [e]) == e.Ends()
  {
  }

  /** Each circuit of the run evolves as its own provider's history says. */
  lemma {:induction false} RunTracksHistory<R>(run: seq<Action<R>>, name: string, config: Config)
    requires InOrder(run)
    ensures Tracks(run, name, config)
  {
    if run != [] {
      var front, a := Front(run), Last(run);
      RunTracksHistory(front, name, config);
      var hs, es := World(front, config), History(front, name, config);
      if a.Name() == name {
        Grow(es, EventOf(a, hs, config), config);
      } else {
        assert History(run, name, config) == es;
      }
    }
  }

  function Turns<R>(cs: seq<Candidate<R>>, n: nat): seq<Action<R>>
    requires n <= |cs|
  {
    seq(n, i requires 0 <= i < n => Turn(cs[i]))
  }

  lemma LastTurn<R>(run: seq<Action<R>>, cs: seq<Candidate<R>>, n: nat)
    requires 0 < n <= |cs|
    ensures Front(run + Turns(cs, n)) == run + Turns(cs, n - 1) && Last(run + Turns(cs, n)) == Turn(cs[n - 1])
  {
    assert Turns(cs, n) == Turns(cs, n - 1) + [Turn(cs[n - 1])];
  }

  /** A failover that visits `n` providers is `n` turns of the run. */
  lemma {:induction false} FailoverIsTurns<R>(run: seq<Action<R>>, cs: seq<Candidate<R>>, n: nat, config: Config)
    requires n <= |cs|
    ensures World(run + Turns(cs, n), config) == HashesAt(cs, n, World(run, config), config)
  {
    if n == 0 {
      assert run + Turns(cs, 0) == run;
    } else {
      FailoverIsTurns(run, cs, n - 1, config);
      LastTurn(run, cs, n);
    }
  }

  /** In a run of requests, failover skips provider `i` exactly if that provider tripped its
      circuit by `failureThreshold` failures in a row, no call to it succeeded since its last
      failure, and the recovery timeout has not passed since then. */
  lemma FailoverSkipsExactly<R>(run: seq<Action<R>>, cs: seq<Candidate<R>>, i: nat, config: Config)
    requires i < |cs| && InOrder(run + Turns(cs, i)) && Clock(run + Turns(cs, i)) <= cs[i].checkedAt
    ensures var es := History(run + Turns(cs, i), cs[i].name, config);
      RoundAt(cs, i, World(run, config), config).SkippedOpen? <==>
        && Tripped(es, config) && SuccessesInRow(es) == 0 && LastFailure(es).Some?
        && cs[i].checkedAt < LastFailure(es).value + config.recoveryTimeout
  {
    var now := run + Turns(cs, i);
    FailoverIsTurns(run, cs, i, config);
    RunTracksHistory(now, cs[i].name, config);
    SkippedExactly(History(now, cs[i].name, config), cs[i].checkedAt, config);
  }
}
