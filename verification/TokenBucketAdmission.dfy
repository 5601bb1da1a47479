/** Exactly when the token bucket grants a request, in terms of the grants before it. */
module TokenBucketAdmission {
  import opened TokenBucket

  datatype Grant = Grant(at: real, tokens: real)

  /** What a key was granted since it was last reset, in order; `gs` before the run. */
  ghost function Grants(bs: Buckets, c: Config, es: seq<Event>, key: string, gs: seq<Grant>): seq<Grant>
    requires c.Valid()
    decreases |es|
  {
    if es == [] then gs else Grants(Next(bs, c, es[0], false), c, es[1..], key, GrantsAfter(bs, c, es[0], key, gs))
  }

  ghost function GrantsAfter(bs: Buckets, c: Config, e: Event, key: string, gs: seq<Grant>): seq<Grant>
    requires c.Valid()
  {
    if e.key != key then gs
    else
      match e
      case Clear(_, _) => []
      case Ask(_, tokens, at) => if Check(bs, c, key, tokens, at).1.Granted? then gs + [Grant(at, tokens)] else gs
  }

  ghost function Sum(gs: seq<Grant>): real {
    if gs == [] then 0.0 else Sum(gs[..|gs| - 1]) + gs[|gs| - 1].tokens
  }

  /** Request and grants from `i` on fit the capacity plus what the rate refilled since grant `i`. */
  ghost predicate Covered(gs: seq<Grant>, i: nat, c: Config, tokens: real, now: real)
    requires i < |gs|
  {
    Sum(gs[i..]) + tokens <= c.capacity + (now - gs[i].at) / 1000.0 * c.refillRate
  }

  ghost predicate Fits(gs: seq<Grant>, c: Config, tokens: real, now: real) {
    tokens <= c.capacity && forall i :: 0 <= i < |gs| ==> Covered(gs, i, c, tokens, now)
  }

  /** The level, unrolled over the grants. */
  ghost function LevelOf(gs: seq<Grant>, c: Config, now: real): real {
    if gs == [] then c.capacity
    else
      var last := gs[|gs| - 1];
      Refill(Bucket(LevelOf(gs[..|gs| - 1], c, last.at) - last.tokens, last.at), c, now).tokens
  }

  lemma CoveredBefore(gs: seq<Grant>, i: nat, c: Config, tokens: real, now: real)
    requires i < |gs| - 1
    ensures var n := |gs| - 1;
      Covered(gs, i, c, tokens, now)
      <==> Covered(gs[..n], i, c, tokens + gs[n].tokens - Earned(c, gs[n].at, now), gs[n].at)
  {
    var n := |gs| - 1;
    assert gs[i..][..n - i] == gs[..n][i..];
    EarnedAdds(c, gs[i].at, gs[n].at, now);
    assert (now - gs[i].at) / 1000.0 * c.refillRate == Earned(c, gs[i].at, now);
    assert (gs[n].at - gs[i].at) / 1000.0 * c.refillRate == Earned(c, gs[i].at, gs[n].at);
  }

  lemma CoveredLast(gs: seq<Grant>, c: Config, tokens: real, now: real)
    requires gs != []
    ensures var last := gs[|gs| - 1];
      Covered(gs, |gs| - 1, c, tokens, now) <==> tokens + last.tokens - Earned(c, last.at, now) <= c.capacity
  {
    var last := gs[|gs| - 1];
    assert gs[|gs| - 1..] == [last] && [last][..0] == [];
    assert Sum([last]) == last.tokens;
  }

  lemma {:induction false} FitsExactly(gs: seq<Grant>, c: Config, tokens: real, now: real)
    ensures Fits(gs, c, tokens, now) <==> tokens <= LevelOf(gs, c, now)
  {
    if gs != [] {
      var n := |gs| - 1;
      var more := tokens + gs[n].tokens - Earned(c, gs[n].at, now);
      FitsExactly(gs[..n], c, more, gs[n].at);
      forall i | 0 <= i < n ensures Covered(gs, i, c, tokens, now) <==> Covered(gs[..n], i, c, more, gs[n].at) {
        CoveredBefore(gs, i, c, tokens, now);
      }
      CoveredLast(gs, c, tokens, now);
      var before := LevelOf(gs[..n], c, gs[n].at);
      assert LevelOf(gs, c, now) == Min(before - gs[n].tokens + Earned(c, gs[n].at, now), c.capacity);
    }
  }

  ghost predicate Tracks(bs: Buckets, c: Config, key: string, gs: seq<Grant>, from: real) {
    forall t: real {:trigger Level(bs, c, key, t)} :: t >= from ==> Level(bs, c, key, t) == LevelOf(gs, c, t)
  }

  lemma LevelAfterGrant(gs: seq<Grant>, g: Grant, c: Config, t: real)
    ensures LevelOf(gs + [g], c, t) == Refill(Bucket(LevelOf(gs, c, g.at) - g.tokens, g.at), c, t).tokens
  {
    assert (gs + [g])[..|gs|] == gs;
  }

  lemma AskTracks(bs: Buckets, c: Config, e: Event, key: string, gs: seq<Grant>, from: real, t: real)
    requires c.Valid() && from <= e.at <= t && NotAhead(bs, from) && Tracks(bs, c, key, gs, from) && e.Ask?
    ensures Level(Next(bs, c, e, false), c, key, t) == LevelOf(GrantsAfter(bs, c, e, key, gs), c, t)
  {
    LevelAfterAsk(bs, c, e, false, key, t);
    assert Level(bs, c, key, t) == LevelOf(gs, c, t);
    assert Level(bs, c, key, e.at) == LevelOf(gs, c, e.at);
    LevelAfterGrant(gs, Grant(e.at, e.tokens), c, t);
  }

  lemma ClearTracks(bs: Buckets, c: Config, e: Event, key: string, gs: seq<Grant>, from: real, t: real)
    requires c.Valid() && from <= e.at <= t && Tracks(bs, c, key, gs, from) && e.Clear?
    ensures Level(Next(bs, c, e, false), c, key, t) == LevelOf(GrantsAfter(bs, c, e, key, gs), c, t)
  {
    KeysIsolated(c, key, e.key);
    FullStaysFull(c, t, t);
    if e.key != key {
      assert Level(bs, c, key, t) == LevelOf(gs, c, t);
    }
  }

  lemma StepTracks(bs: Buckets, c: Config, e: Event, key: string, gs: seq<Grant>, from: real)
    requires c.Valid() && from <= e.at && NotAhead(bs, from) && Tracks(bs, c, key, gs, from)
    ensures Tracks(Next(bs, c, e, false), c, key, GrantsAfter(bs, c, e, key, gs), e.at)
    ensures NotAhead(Next(bs, c, e, false), e.at)
  {
    var next, after := Next(bs, c, e, false), GrantsAfter(bs, c, e, key, gs);
    forall t: real | t >= e.at ensures Level(next, c, key, t) == LevelOf(after, c, t) {
      if e.Ask? {
        AskTracks(bs, c, e, key, gs, from, t);
      } else {
        ClearTracks(bs, c, e, key, gs, from, t);
      }
    }
  }

  lemma {:induction false} RunTracks(bs: Buckets, c: Config, es: seq<Event>, key: string, gs: seq<Grant>, from: real)
    requires c.Valid() && Ordered(from, es) && NotAhead(bs, from) && Tracks(bs, c, key, gs, from)
    ensures Tracks(Run(bs, c, es, false), c, key, Grants(bs, c, es, key, gs), LastTime(from, es))
    ensures NotAhead(Run(bs, c, es, false), LastTime(from, es))
    decreases |es|
  {
    if es != [] {
      StepTracks(bs, c, es[0], key, gs, from);
      RunTracks(Next(bs, c, es[0], false), c, es[1..], key, GrantsAfter(bs, c, es[0], key, gs), es[0].at);
      assert LastTime(from, es) == LastTime(es[0].at, es[1..]);
    }
  }

  /** After any run, a request is granted if and only if it fits the capacity and, from every grant
      since the last reset of its key on, grants and request together fit the capacity plus what
      the rate has refilled since then: nothing is lost and nothing is given away, whatever other
      keys do, for negative amounts as well. */
  lemma GrantExact(c: Config, es: seq<Event>, key: string, tokens: real, start: real, now: real)
    requires c.Valid() && Ordered(start, es) && LastTime(start, es) <= now
    ensures Check(Run(map[], c, es, false), c, key, tokens, now).1.Granted?
       <==> Fits(Grants(map[], c, es, key, []), c, tokens, now)
  {
    forall t: real | t >= start ensures Level(map[], c, key, t) == LevelOf([], c, t) {
      FullStaysFull(c, t, t);
    }
    RunTracks(map[], c, es, key, [], start);
    FitsExactly(Grants(map[], c, es, key, []), c, tokens, now);
    assert Level(Run(map[], c, es, false), c, key, now) == LevelOf(Grants(map[], c, es, key, []), c, now);
  }

  /* ---------- What a grant reports ---------- */

  /** The reported remainder: right after a grant, a whole number of tokens is granted if and only
      if it is at most that remainder and fits the capacity. */
  lemma RemainingExact(bs: Buckets, c: Config, key: string, tokens: real, now: real, more: int)
    requires c.Valid() && NotAhead(bs, now) && Check(bs, c, key, tokens, now).1.Granted?
    ensures var (after, r) := Check(bs, c, key, tokens, now);
      Check(after, c, key, more as real, now).1.Granted? <==> more <= r.remaining && more as real <= c.capacity
  {
    var e := Ask(key, tokens, now);
    LevelAfterAsk(bs, c, e, false, key, now);
    RefillNow(Bucket(Level(bs, c, key, now) - tokens, now), c);
  }

  /** The reported reset: the bucket is full from then on if nothing more is taken, and one that
      was emptied is not full before. */
  lemma ResetExact(bs: Buckets, c: Config, key: string, tokens: real, now: real, later: real)
    requires c.Valid() && NotAhead(bs, now) && now <= later && Check(bs, c, key, tokens, now).1.Granted?
    ensures var (after, r) := Check(bs, c, key, tokens, now);
      && (later >= r.resetAt ==> Level(after, c, key, later) == c.capacity)
      && (tokens == Level(bs, c, key, now) ==> (Level(after, c, key, later) == c.capacity <==> later >= r.resetAt))
  {
    var e := Ask(key, tokens, now);
    LevelAfterAsk(bs, c, e, false, key, later);
    var needed := c.capacity / c.refillRate;
    assert needed * c.refillRate == c.capacity;
    ScaleExact(c.refillRate, (later - now) / 1000.0, needed);
    assert later >= now + needed * 1000.0 <==> (later - now) / 1000.0 >= needed;
  }
}
