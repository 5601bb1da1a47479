/**
 The token-bucket limiter of the TypeScript SDK, over exact reals; times are
 milliseconds. A bucket is refilled when it is looked at, and the refilled state is
 stored only when tokens are granted.
 */
module TokenBucket {

  datatype Config = Config(capacity: real, refillRate: real, keyPrefix: string)
  {
    ghost predicate Valid() {
      capacity >= 0.0 && refillRate > 0.0
    }
  }

  datatype Bucket = Bucket(tokens: real, lastRefill: real)

  type Buckets = map<string, Bucket>

  datatype Result =
    | Granted(remaining: int, resetAt: real)
    | Denied(retryAfter: int, resetAt: real)

  function Min(a: real, b: real): real {
    if a <= b then a else b
  }

  function Ceil(x: real): int {
    -((-x).Floor)
  }

  function BucketKey(c: Config, key: string): string {
    c.keyPrefix + ":" + key
  }

  /** Tokens the passing of time is worth. */
  function Earned(c: Config, from: real, to: real): real {
    (to - from) / 1000.0 * c.refillRate
  }

  function Refill(b: Bucket, c: Config, now: real): Bucket {
    Bucket(Min(b.tokens + Earned(c, b.lastRefill, now), c.capacity), now)
  }

  /** The bucket `check` decides on: stored or full, then refilled. */
  function Current(bs: Buckets, c: Config, key: string, now: real): Bucket {
    var k := BucketKey(c, key);
    Refill(if k in bs then bs[k] else Bucket(c.capacity, now), c, now)
  }

  function Decide(b: Bucket, c: Config, tokens: real, now: real): Result
    requires c.Valid()
  {
    if b.tokens >= tokens then Granted((b.tokens - tokens).Floor, now + c.capacity / c.refillRate * 1000.0)
    else
      var retryAfter := Ceil((tokens - b.tokens) / c.refillRate);
      Denied(retryAfter, now + retryAfter as real * 1000.0)
  }

  function Check(bs: Buckets, c: Config, key: string, tokens: real, now: real): (Buckets, Result)
    requires c.Valid()
  {
    var b := Current(bs, c, key, now);
    var r := Decide(b, c, tokens, now);
    (if r.Granted? then bs[BucketKey(c, key) := b.(tokens := b.tokens - tokens)] else bs, r)
  }

  /** The same limiter, but persisting the refill on a denial too. */
  function CheckEager(bs: Buckets, c: Config, key: string, tokens: real, now: real): (Buckets, Result)
    requires c.Valid()
  {
    var b := Current(bs, c, key, now);
    var r := Decide(b, c, tokens, now);
    (bs[BucketKey(c, key) := if r.Granted? then b.(tokens := b.tokens - tokens) else b], r)
  }

  class TokenBucketRateLimiter {
    const config: Config
    var buckets: Buckets

    constructor (config: Config)
      ensures this.config == config && buckets == map[]
    {
      this.config := config;
      buckets := map[];
    }

    method CheckAndConsume(key: string, tokens: real, now: real) returns (r: Result)
      requires config.Valid()
      modifies this
      ensures (buckets, r) == Check(old(buckets), config, key, tokens, now)
      ensures r.Denied? ==> buckets == old(buckets)
      ensures buckets - {BucketKey(config, key)} == old(buckets) - {BucketKey(config, key)}
    {
      var bucketKey := config.keyPrefix + ":" + key;
      var state := Bucket(config.capacity, now);
      if bucketKey in buckets {
        state := buckets[bucketKey];
      }
      state := Refill(state, config, now);
      if state.tokens >= tokens {
        state := state.(tokens := state.tokens - tokens);
        buckets := buckets[bucketKey := state];
        return Granted(state.tokens.Floor, now + config.capacity / config.refillRate * 1000.0);
      }
      var deficit := tokens - state.tokens;
      var retryAfter := Ceil(deficit / config.refillRate);
      return Denied(retryAfter, now + retryAfter as real * 1000.0);
    }

    method Reset(key: string)
      modifies this
      ensures buckets == old(buckets) - {BucketKey(config, key)}
    {
      buckets := buckets - {config.keyPrefix + ":" + key};
    }
  }

  /* ---------- Runs ---------- */

  datatype Event =
    | Ask(key: string, tokens: real, at: real)
    | Clear(key: string, at: real)

  function Next(bs: Buckets, c: Config, e: Event, eager: bool): Buckets
    requires c.Valid()
  {
    match e
    case Ask(key, tokens, at) => if eager then CheckEager(bs, c, key, tokens, at).0 else Check(bs, c, key, tokens, at).0
    case Clear(key, _) => bs - {BucketKey(c, key)}
  }

  function Run(bs: Buckets, c: Config, es: seq<Event>, eager: bool): Buckets
    requires c.Valid()
    decreases |es|
  {
    if es == [] then bs else Run(Next(bs, c, es[0], eager), c, es[1..], eager)
  }

  /** The answers of a run, in order. */
  function Answers(bs: Buckets, c: Config, es: seq<Event>, eager: bool): seq<Result>
    requires c.Valid()
    decreases |es|
  {
    if es == [] then []
    else
      (if es[0].Ask? then [Decide(Current(bs, c, es[0].key, es[0].at), c, es[0].tokens, es[0].at)] else [])
      + Answers(Next(bs, c, es[0], eager), c, es[1..], eager)
  }

  /** The clock never runs backwards. */
  ghost predicate Ordered(from: real, es: seq<Event>)
    decreases |es|
  {
    es == [] || (from <= es[0].at && Ordered(es[0].at, es[1..]))
  }

  function LastTime(from: real, es: seq<Event>): real {
    if es == [] then from else es[|es| - 1].at
  }

  lemma KeysIsolated(c: Config, a: string, b: string)
    ensures BucketKey(c, a) == BucketKey(c, b) <==> a == b
  {
    assert BucketKey(c, a)[|c.keyPrefix| + 1..] == a;
    assert BucketKey(c, b)[|c.keyPrefix| + 1..] == b;
  }

  /** Tokens available for a key at a time. */
  function Level(bs: Buckets, c: Config, key: string, now: real): real {
    Current(bs, c, key, now).tokens
  }

  /** Nothing was refilled later than `now`. */
  ghost predicate NotAhead(bs: Buckets, now: real) {
    forall k :: k in bs ==> bs[k].lastRefill <= now
  }

  lemma EarnedNonNegative(c: Config, from: real, to: real)
    requires c.Valid() && from <= to
    ensures Earned(c, from, to) >= 0.0
  {
    assert (to - from) / 1000.0 >= 0.0;
  }

  lemma EarnedAdds(c: Config, a: real, b: real, d: real)
    ensures Earned(c, a, b) + Earned(c, b, d) == Earned(c, a, d)
  {
    assert (b - a) / 1000.0 + (d - b) / 1000.0 == (d - a) / 1000.0;
  }

  /** Two refills in a row make one: capping early changes nothing. */
  lemma RefillTwice(b: Bucket, c: Config, now: real, then_: real)
    requires c.Valid() && b.lastRefill <= now <= then_
    ensures Refill(Refill(b, c, now), c, then_) == Refill(b, c, then_)
  {
    EarnedAdds(c, b.lastRefill, now, then_);
    EarnedNonNegative(c, now, then_);
  }

  lemma FullStaysFull(c: Config, now: real, then_: real)
    requires c.Valid() && now <= then_
    ensures Refill(Bucket(c.capacity, now), c, then_).tokens == c.capacity
  {
    EarnedNonNegative(c, now, then_);
  }

  /* ---------- Lazy persistence ---------- */

  ghost predicate SameLevels(lazy: Buckets, eager: Buckets, c: Config, now: real) {
    forall key: string, t: real {:trigger Level(lazy, c, key, t)} :: t >= now ==>
        Level(lazy, c, key, t) == Level(eager, c, key, t)
  }

  /** After one question, the level of every key from then on. */
  lemma LevelAfterAsk(bs: Buckets, c: Config, e: Event, eager: bool, key: string, t: real)
    requires c.Valid() && e.Ask? && t >= e.at && NotAhead(bs, e.at)
    ensures var before := Level(bs, c, e.key, e.at);
      Level(Next(bs, c, e, eager), c, key, t) ==
        if key == e.key && before >= e.tokens then Refill(Bucket(before - e.tokens, e.at), c, t).tokens
        else Level(bs, c, key, t)
  {
    KeysIsolated(c, key, e.key);
    if key == e.key {
      var k := BucketKey(c, key);
      if k in bs {
        RefillTwice(bs[k], c, e.at, t);
      } else {
        FullStaysFull(c, e.at, e.at);
        FullStaysFull(c, e.at, t);
        FullStaysFull(c, t, t);
      }
    }
  }

  lemma StepKeepsLevels(lazy: Buckets, eager: Buckets, c: Config, e: Event, now: real)
    requires c.Valid() && now <= e.at && NotAhead(lazy, now) && NotAhead(eager, now)
    requires SameLevels(lazy, eager, c, now)
    ensures SameLevels(Next(lazy, c, e, false), Next(eager, c, e, true), c, e.at)
    ensures NotAhead(Next(lazy, c, e, false), e.at) && NotAhead(Next(eager, c, e, true), e.at)
  {
    forall key: string, t: real | t >= e.at
      ensures Level(Next(lazy, c, e, false), c, key, t) == Level(Next(eager, c, e, true), c, key, t)
    {
      assert Level(lazy, c, key, t) == Level(eager, c, key, t);
      if e.Ask? {
        assert Level(lazy, c, e.key, e.at) == Level(eager, c, e.key, e.at);
        LevelAfterAsk(lazy, c, e, false, key, t);
        LevelAfterAsk(eager, c, e, true, key, t);
      } else {
        KeysIsolated(c, key, e.key);
      }
    }
  }

  lemma {:induction false} AnswersAgree(lazy: Buckets, eager: Buckets, c: Config, es: seq<Event>, now: real)
    requires c.Valid() && Ordered(now, es) && NotAhead(lazy, now) && NotAhead(eager, now)
    requires SameLevels(lazy, eager, c, now)
    ensures Answers(lazy, c, es, false) == Answers(eager, c, es, true)
    decreases |es|
  {
    if es != [] {
      StepKeepsLevels(lazy, eager, c, es[0], now);
      if es[0].Ask? {
        assert Level(lazy, c, es[0].key, es[0].at) == Level(eager, c, es[0].key, es[0].at);
      }
      AnswersAgree(Next(lazy, c, es[0], false), Next(eager, c, es[0], true), c, es[1..], es[0].at);
    }
  }

  /** Dropping the refilled state on a denial is invisible: in every run, whatever the
      keys, amounts and resets, the answers are those of a limiter that always stores it. */
  lemma LazyRefillInvisible(c: Config, es: seq<Event>, start: real)
    requires c.Valid() && Ordered(start, es)
    ensures Answers(map[], c, es, false) == Answers(map[], c, es, true)
  {
    AnswersAgree(map[], map[], c, es, start);
  }

  /* ---------- The bound ---------- */

  /** Tokens granted to `key` during a run. */
  function GrantedTo(bs: Buckets, c: Config, es: seq<Event>, key: string): real
    requires c.Valid()
    decreases |es|
  {
    if es == [] then 0.0
    else
      GrantOf(bs, c, es[0], key) + GrantedTo(Next(bs, c, es[0], false), c, es[1..], key)
  }

  /** What an event can put into the bucket beside its refill: a reset at most one capacity, and a
      request for a negative amount, which `check` accepts, that amount. */
  function PutBackBy(c: Config, e: Event, key: string): real {
    if e.key != key then 0.0
    else if e.Clear? then c.capacity
    else if e.tokens < 0.0 then -e.tokens
    else 0.0
  }

  function PutBack(c: Config, es: seq<Event>, key: string): real {
    if es == [] then 0.0 else PutBackBy(c, es[0], key) + PutBack(c, es[1..], key)
  }

  ghost predicate NonNegative(bs: Buckets) {
    forall k :: k in bs ==> bs[k].tokens >= 0.0
  }

  lemma LevelGrowth(bs: Buckets, c: Config, key: string, now: real, then_: real)
    requires c.Valid() && now <= then_ && NotAhead(bs, now)
    ensures Level(bs, c, key, then_) <= Level(bs, c, key, now) + Earned(c, now, then_)
    ensures Level(bs, c, key, then_) <= c.capacity
  {
    var k := BucketKey(c, key);
    EarnedNonNegative(c, now, then_);
    if k in bs {
      RefillTwice(bs[k], c, now, then_);
    } else {
      FullStaysFull(c, now, now);
      FullStaysFull(c, then_, then_);
    }
  }

  function GrantOf(bs: Buckets, c: Config, e: Event, key: string): real
    requires c.Valid()
  {
    if e.Ask? && e.key == key && e.tokens > 0.0 && Decide(Current(bs, c, key, e.at), c, e.tokens, e.at).Granted?
    then e.tokens else 0.0
  }

  lemma AskKeepsSound(bs: Buckets, c: Config, e: Event, now: real)
    requires c.Valid() && now <= e.at && NotAhead(bs, now) && NonNegative(bs)
    ensures var next := Next(bs, c, e, false); NotAhead(next, e.at) && NonNegative(next)
  {
    if e.Ask? {
      LevelNonNegative(bs, c, e.key, e.at);
    }
  }

  lemma AskConserves(bs: Buckets, c: Config, e: Event, key: string, now: real)
    requires c.Valid() && now <= e.at && e.Ask? && NotAhead(bs, now)
    ensures GrantOf(bs, c, e, key) + Level(Next(bs, c, e, false), c, key, e.at)
         <= Level(bs, c, key, e.at) + PutBackBy(c, e, key)
  {
    LevelAfterAsk(bs, c, e, false, key, e.at);
    var before := Level(bs, c, e.key, e.at);
    LevelGrowth(bs, c, e.key, now, e.at);
    if before >= e.tokens {
      RefillNow(Bucket(before - e.tokens, e.at), c);
    }
  }

  lemma RefillNow(b: Bucket, c: Config)
    ensures Refill(b, c, b.lastRefill).tokens == Min(b.tokens, c.capacity)
  {
  }

  lemma ClearConserves(bs: Buckets, c: Config, e: Event, key: string)
    requires c.Valid() && e.Clear?
    ensures Level(Next(bs, c, e, false), c, key, e.at) == if e.key == key then c.capacity else Level(bs, c, key, e.at)
  {
    KeysIsolated(c, key, e.key);
    FullStaysFull(c, e.at, e.at);
  }

  lemma StepConservation(bs: Buckets, c: Config, e: Event, key: string, now: real)
    requires c.Valid() && now <= e.at && NotAhead(bs, now) && NonNegative(bs)
    ensures var next := Next(bs, c, e, false);
      && NotAhead(next, e.at) && NonNegative(next)
      && GrantOf(bs, c, e, key) + Level(next, c, key, e.at)
         <= Level(bs, c, key, now) + Earned(c, now, e.at) + PutBackBy(c, e, key)
  {
    AskKeepsSound(bs, c, e, now);
    LevelGrowth(bs, c, key, now, e.at);
    LevelNonNegative(bs, c, key, e.at);
    if e.Ask? {
      AskConserves(bs, c, e, key, now);
    } else {
      ClearConserves(bs, c, e, key);
    }
  }

  /** What is granted plus what is left never exceeds what was there plus what was earned;
      a reset puts in at most one capacity, a request for a negative amount that amount. */
  lemma {:induction false} Conservation(bs: Buckets, c: Config, es: seq<Event>, key: string, now: real)
    requires c.Valid() && Ordered(now, es) && NotAhead(bs, now) && NonNegative(bs)
    ensures var end := LastTime(now, es); var after := Run(bs, c, es, false);
      && NotAhead(after, end) && NonNegative(after)
      && GrantedTo(bs, c, es, key) + Level(after, c, key, end)
         <= Level(bs, c, key, now) + Earned(c, now, end) + PutBack(c, es, key)
    decreases |es|
  {
    if es != [] {
      var e := es[0];
      StepConservation(bs, c, e, key, now);
      Conservation(Next(bs, c, e, false), c, es[1..], key, e.at);
      EarnedAdds(c, now, e.at, LastTime(now, es));
      assert LastTime(now, es) == LastTime(e.at, es[1..]);
    }
  }

  lemma LevelNonNegative(bs: Buckets, c: Config, key: string, now: real)
    requires c.Valid() && NotAhead(bs, now) && NonNegative(bs)
    ensures Level(bs, c, key, now) >= 0.0
  {
    var k := BucketKey(c, key);
    if k in bs {
      EarnedNonNegative(c, bs[k].lastRefill, now);
    } else {
      FullStaysFull(c, now, now);
    }
  }

  lemma GrantsEarned(c: Config, before: seq<Event>, es: seq<Event>, key: string, start: real, s: real)
    requires c.Valid() && Ordered(start, before)
    requires LastTime(start, before) <= s && Ordered(s, es)
    ensures GrantedTo(Run(map[], c, before, false), c, es, key)
         <= c.capacity + Earned(c, s, LastTime(s, es)) + PutBack(c, es, key)
  {
    Conservation(map[], c, before, key, start);
    var bs := Run(map[], c, before, false);
    assert NotAhead(bs, s);
    Conservation(bs, c, es, key, s);
    LevelGrowth(bs, c, key, s, s);
    LevelNonNegative(Run(bs, c, es, false), c, key, LastTime(s, es));
  }

  lemma AtRate(x: real, base: real, c: Config, from: real, to: real)
    requires x <= base + Earned(c, from, to)
    ensures x <= base + (to - from) / 1000.0 * c.refillRate
  {
  }

  /** Token-bucket bound: after any prefix of a run, over any stretch of it that lasts from
      s to t, a key is granted at most capacity + rate * (t - s) / 1000 tokens, plus one
      capacity for every reset of that key in the stretch and every negative amount asked for. */
  lemma GrantBound(c: Config, before: seq<Event>, es: seq<Event>, key: string, start: real, s: real)
    requires c.Valid() && Ordered(start, before)
    requires LastTime(start, before) <= s && Ordered(s, es)
    ensures GrantedTo(Run(map[], c, before, false), c, es, key)
         <= c.capacity + PutBack(c, es, key) + (LastTime(s, es) - s) / 1000.0 * c.refillRate
  {
    GrantsEarned(c, before, es, key, start, s);
    AtRate(GrantedTo(Run(map[], c, before, false), c, es, key), c.capacity + PutBack(c, es, key), c, s,
           LastTime(s, es));
  }

  /* ---------- The retry hint ---------- */

  lemma ScaleExact(rate: real, a: real, b: real)
    requires rate > 0.0
    ensures a * rate >= b * rate <==> a >= b
  {
    if a < b {
      assert (b - a) * rate > 0.0;
    }
  }

  lemma WaitExact(rate: real, deficit: real, seconds: nat)
    requires rate > 0.0
    ensures seconds as real * rate >= deficit <==> seconds >= Ceil(deficit / rate)
  {
    var needed := deficit / rate;
    assert needed * rate == deficit;
    ScaleExact(rate, seconds as real, needed);
  }

  lemma EarnedSeconds(c: Config, now: real, seconds: nat)
    ensures Earned(c, now, now + seconds as real * 1000.0) == seconds as real * c.refillRate
  {
    assert (now + seconds as real * 1000.0 - now) / 1000.0 == seconds as real;
  }

  lemma LevelLater(bs: Buckets, c: Config, key: string, now: real, then_: real)
    requires c.Valid() && now <= then_ && NotAhead(bs, now)
    ensures Level(bs, c, key, then_) == Min(Level(bs, c, key, now) + Earned(c, now, then_), c.capacity)
  {
    var k := BucketKey(c, key);
    EarnedNonNegative(c, now, then_);
    if k in bs {
      RefillTwice(bs[k], c, now, then_);
    } else {
      FullStaysFull(c, now, now);
      FullStaysFull(c, then_, then_);
    }
  }

  lemma LevelsExact(bs: Buckets, c: Config, key: string, tokens: real, now: real, seconds: nat)
    requires c.Valid() && NotAhead(bs, now) && Level(bs, c, key, now) < tokens
    ensures Level(bs, c, key, now + seconds as real * 1000.0) >= tokens
      <==> tokens <= c.capacity && seconds >= Ceil((tokens - Level(bs, c, key, now)) / c.refillRate)
  {
    LevelLater(bs, c, key, now, now + seconds as real * 1000.0);
    EarnedSeconds(c, now, seconds);
    WaitExact(c.refillRate, tokens - Level(bs, c, key, now), seconds);
  }

  /** A denied request that fits the capacity is admitted after the returned wait and not
      at any earlier whole second; one larger than the capacity never is. The reported reset is
      the end of that wait. */
  lemma RetryAfterExact(bs: Buckets, c: Config, key: string, tokens: real, now: real, seconds: nat)
    requires c.Valid() && NotAhead(bs, now)
    requires Check(bs, c, key, tokens, now).1.Denied?
    ensures var r := Check(bs, c, key, tokens, now).1.retryAfter;
      var later := Check(bs, c, key, tokens, now + seconds as real * 1000.0).1;
      && (later.Granted? <==> tokens <= c.capacity && seconds >= r)
      && Check(bs, c, key, tokens, now).1.resetAt == now + r as real * 1000.0
  {
    var then_ := now + seconds as real * 1000.0;
    LevelsExact(bs, c, key, tokens, now, seconds);
  }
}
