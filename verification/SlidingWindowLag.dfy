/** How much of the sliding window survives pipelines that are executed late. */
module SlidingWindowLag {
  import opened Wrappers
  import opened Sums
  import opened Sequences
  import opened SlidingWindow

  /* ---------- Widths that are safe ---------- */

  ghost predicate Kept(es: seq<Event>, limit: int, window: real, d: real, width: real, a: real) {
    Executable(START, es, limit, window) && LagAtMost(es, d) ==>
      |Within(Run(START, es, limit, window).admitted, a, a + width)| <= if limit < 0 then 0 else limit
  }

  lemma {:induction false} NothingAdmitted(s: Sys, es: seq<Event>, limit: int, window: real)
    requires limit <= 0 && s.admitted == map[] && Executable(s, es, limit, window)
    ensures Run(s, es, limit, window).admitted == map[]
    decreases |es|
  {
    if es != [] {
      assert Next(s, es[0], limit, window).admitted == map[];
      NothingAdmitted(Next(s, es[0], limit, window), es[1..], limit, window);
    }
  }

  lemma NarrowKept(es: seq<Event>, limit: int, window: real, d: real, width: real, a: real)
    requires width <= window - d || width <= 0.0 || limit <= 0
    ensures Kept(es, limit, window, d, width, a)
  {
    if Executable(START, es, limit, window) && LagAtMost(es, d) {
      var marks := Run(START, es, limit, window).admitted;
      if limit <= 0 {
        NothingAdmitted(START, es, limit, window);
        assert Within(marks, a, a + width) == {};
      } else if width <= 0.0 {
        assert Within(marks, a, a + width) == {};
      } else {
        WindowSafety(es, limit, window, d, a);
        SubsetSize(Within(marks, a, a + width), Within(marks, a, a + (window - d)));
      }
    }
  }

  /* ---------- Runs ---------- */

  /** A run is its front and its last event. */
  lemma {:induction false} FrontRuns(s: Sys, es: seq<Event>, limit: int, window: real)
    requires es != [] && Executable(s, Front(es), limit, window)
    requires Enabled(Run(s, Front(es), limit, window), Last(es))
    ensures Executable(s, es, limit, window)
    ensures Run(s, es, limit, window) == Next(Run(s, Front(es), limit, window), Last(es), limit, window)
    decreases |es|
  {
    var rest := es[1..];
    if rest == [] {
      assert Front(es) == [];
    } else {
      assert Front(es)[1..] == Front(rest) && Last(rest) == Last(es) && Front(es)[0] == es[0];
      FrontRuns(Next(s, es[0], limit, window), rest, limit, window);
    }
  }

  /** A run with lag at most `d`, seen from its end. */
  ghost predicate Legal(es: seq<Event>, limit: int, window: real, d: real)
    decreases |es|, 0
  {
    es != [] ==>
      && Legal(Front(es), limit, window, d)
      && Enabled(After(Front(es), limit, window, d), Last(es))
      && (Last(es).Arrive? ==> Last(es).at - Last(es).stamp <= d)
  }

  ghost function After(es: seq<Event>, limit: int, window: real, d: real): Sys
    requires Legal(es, limit, window, d)
    decreases |es|, 1
  {
    if es == [] then START else Next(After(Front(es), limit, window, d), Last(es), limit, window)
  }

  lemma {:induction false} LegalLag(es: seq<Event>, limit: int, window: real, d: real)
    requires Legal(es, limit, window, d)
    ensures LagAtMost(es, d)
  {
    if es != [] {
      LegalLag(Front(es), limit, window, d);
      forall i | 0 <= i < |es| && es[i].Arrive? ensures es[i].at - es[i].stamp <= d {
        if i < |es| - 1 { assert es[i] == Front(es)[i]; }
      }
    }
  }

  lemma {:induction false} LegalRuns(es: seq<Event>, limit: int, window: real, d: real)
    requires Legal(es, limit, window, d)
    ensures Executable(START, es, limit, window)
    ensures Run(START, es, limit, window) == After(es, limit, window, d)
  {
    if es != [] {
      LegalRuns(Front(es), limit, window, d);
      FrontRuns(START, es, limit, window);
    }
  }

  ghost predicate Ends(es: seq<Event>, s: Sys, limit: int, window: real, d: real) {
    Legal(es, limit, window, d) && After(es, limit, window, d) == s
  }

  lemma Append(before: seq<Event>, s: Sys, e: Event, limit: int, window: real, d: real)
    returns (es: seq<Event>, t: Sys)
    requires Ends(before, s, limit, window, d) && Enabled(s, e) && (e.Arrive? ==> e.at - e.stamp <= d)
    ensures es == before + [e] && t == Next(s, e, limit, window) && Ends(es, t, limit, window, d)
  {
    es, t := before + [e], Next(s, e, limit, window);
    assert Front(es) == before && Last(es) == e;
  }

  function Zeros(k: nat): map<Member, real> {
    map m | m in Below(k) :: 0.0
  }

  /** What is left of `k` admissions at time 0: with a window that is not positive, only the last. */
  function FilledKey(k: nat, window: real): Key {
    if k == 0 then EMPTY
    else Key(if window > 0.0 then Zeros(k) else map[k - 1 := 0.0], Some(window + 10.0))
  }

  ghost predicate AllZero(marks: Marks, k: nat) {
    marks.Keys == Below(k) && forall m {:trigger marks[m]} :: m in marks ==> marks[m].stamp == 0.0
  }

  /** `k` members were admitted at time 0. */
  ghost predicate Filled(s: Sys, k: nat, window: real) {
    && s.now == 0.0 && s.refused == map[] && s.seen == Below(k)
    && AllZero(s.admitted, k) && s.key == FilledKey(k, window)
  }

  lemma ZerosGrow(k: nat)
    ensures Zeros(k)[k := 0.0] == Zeros(k + 1) && |Zeros(k)| == k
  {
    assert Below(k + 1) == Below(k) + {k};
    assert Zeros(k).Keys == Below(k);
    assert |Zeros(k)| == |Zeros(k).Keys|;
  }

  lemma CountedFilled(k: nat, window: real)
    ensures Counted(FilledKey(k, window), 0.0, 0.0, window) == if window > 0.0 then Zeros(k) else map[]
  {
    assert Zeros(0) == map[];
  }

  lemma MarksGrow(marks: Marks, k: nat, stamp: real, mark: Mark)
    requires AllZero(marks, k) && mark.stamp == 0.0
    ensures AllZero(Aged(marks, stamp)[k := mark], k + 1)
  {
    assert Below(k + 1) == Below(k) + {k};
    assert Aged(marks, stamp).Keys == marks.Keys;
  }

  lemma KeyGrows(k: nat, window: real)
    ensures Pipeline(FilledKey(k, window), 0.0, 0.0, window, k) == FilledKey(k + 1, window)
    ensures |Counted(FilledKey(k, window), 0.0, 0.0, window)| <= k
  {
    CountedFilled(k, window);
    ZerosGrow(k);
  }

  lemma FillOne(s: Sys, k: nat, limit: int, window: real)
    requires Filled(s, k, window) && k < limit
    ensures Enabled(s, Arrive(k, 0.0, 0.0)) && Filled(Next(s, Arrive(k, 0.0, 0.0), limit, window), k + 1, window)
  {
    KeyGrows(k, window);
    MarksGrow(s.admitted, k, 0.0, Mark(0.0, 0.0, None));
    assert k !in Below(k) && Below(k + 1) == Below(k) + {k};
    assert Aged(s.refused, 0.0) == map[];
  }

  /** All pipelines are stamped `high` or earlier, in order. */
  ghost predicate OrderedUpTo(es: seq<Event>, high: real) {
    InOrder(es) && forall i :: 0 <= i < |es| && es[i].Arrive? ==> es[i].stamp <= high
  }

  lemma OrderedAppend(es: seq<Event>, e: Event, high: real)
    requires OrderedUpTo(es, high) && e.Arrive? && high <= e.stamp
    ensures OrderedUpTo(es + [e], e.stamp)
  {
  }

  lemma {:induction false} Fill(k: nat, limit: int, window: real, d: real) returns (es: seq<Event>, s: Sys)
    requires k <= limit && d >= 0.0
    ensures Ends(es, s, limit, window, d) && Filled(s, k, window) && OrderedUpTo(es, 0.0)
  {
    if k == 0 {
      es, s := [], START;
    } else {
      var before, r := Fill(k - 1, limit, window, d);
      FillOne(r, k - 1, limit, window);
      OrderedAppend(before, Arrive(k - 1, 0.0, 0.0), 0.0);
      es, s := Append(before, r, Arrive(k - 1, 0.0, 0.0), limit, window, d);
    }
  }

  /** The first `limit` members are stamped 0, and `x`, stamped `b`, is one more. */
  ghost predicate Overfull(marks: Marks, limit: nat, x: Member, b: real) {
    && Below(limit) <= marks.Keys && x in marks && x !in Below(limit) && marks[x].stamp == b
    && forall m {:trigger marks[m]} :: m in Below(limit) ==> marks[m].stamp == 0.0
  }

  lemma OneMore(marks: Marks, limit: nat, x: Member, stamp: real, mark: Mark)
    requires AllZero(marks, limit) && x !in Below(limit)
    ensures Overfull(Aged(marks, stamp)[x := mark], limit, x, mark.stamp)
  {
    assert Aged(marks, stamp).Keys == marks.Keys;
  }

  lemma TooMany(marks: Marks, limit: nat, x: Member, b: real, width: real)
    requires Overfull(marks, limit, x, b) && 0.0 <= b < width
    ensures |Within(marks, b - width, b)| > limit
  {
    SubsetSize(Below(limit) + {x}, Within(marks, b - width, b));
  }

  lemma Breaks(es: seq<Event>, t: Sys, limit: nat, window: real, d: real, width: real, x: Member, b: real)
    returns (a: real)
    requires Ends(es, t, limit, window, d) && Overfull(t.admitted, limit, x, b) && 0.0 <= b < width
    ensures !Kept(es, limit, window, d, width, a)
  {
    LegalRuns(es, limit, window, d);
    LegalLag(es, limit, window, d);
    TooMany(t.admitted, limit, x, b, width);
    a := b - width;
    assert a + width == b;
  }

  /* ---------- Wider than the window ---------- */

  lemma Gone(k: nat, window: real, b: real)
    requires b >= 0.0 && b >= window
    ensures Counted(FilledKey(k, window), b, b, window) == map[]
  {
  }

  lemma WideRun(limit: nat, window: real, d: real, b: real) returns (es: seq<Event>, t: Sys)
    requires limit >= 1 && d >= 0.0 && b >= 0.0 && b >= window
    ensures Ends(es, t, limit, window, d) && Overfull(t.admitted, limit, limit, b)
  {
    var before, s := Fill(limit, limit, window, d);
    Gone(limit, window, b);
    es, t := Append(before, s, Arrive(limit, b, b), limit, window, d);
    OneMore(s.admitted, limit, limit, b, Mark(b, b, None));
  }

  lemma WideBreaks(limit: nat, window: real, d: real, width: real) returns (es: seq<Event>, a: real)
    requires limit >= 1 && d >= 0.0 && width > 0.0 && width > window
    ensures !Kept(es, limit, window, d, width, a)
  {
    var b := if window > 0.0 then window else 0.0;
    var t;
    es, t := WideRun(limit, window, d, b);
    a := Breaks(es, t, limit, window, d, width, limit, b);
  }

  /* ---------- Wider than the window less the lag ---------- */

  lemma OneMoreStays(marks: Marks, limit: nat, y: Member, stampY: real, mark: Mark, x: Member, late: Mark)
    requires AllZero(marks, limit) && y !in Below(limit) && x !in Below(limit)
    ensures Overfull(Aged(Aged(marks, stampY)[y := mark], late.stamp)[x := late], limit, x, late.stamp)
  {
    OneMore(marks, limit, y, stampY, mark);
  }

  /** With room for two: one pipeline trims the members of time 0, and a late one, stamped
      before they left the window, is admitted beside it. */
  lemma LateBeside(limit: nat, window: real, d: real, h: real) returns (es: seq<Event>, t: Sys, x: Member)
    requires limit >= 2 && 0.0 < h <= d && h < window
    ensures Ends(es, t, limit, window, d) && Overfull(t.admitted, limit, x, window - h)
  {
    var before, s := Fill(limit, limit, window, d);
    Gone(limit, window, window);
    var mid, u := Append(before, s, Arrive(limit, window, window), limit, window, d);
    assert u.key == Key(map[limit := window], Some(window + window + 10.0));
    assert Counted(u.key, window - h, window, window) == map[limit := window];
    x := limit + 1;
    es, t := Append(mid, u, Arrive(x, window - h, window), limit, window, d);
    OneMoreStays(s.admitted, limit, limit, window, Mark(window, window, None), x, Mark(window - h, window, None));
  }

  /** One member was admitted at time 0; the rest of the state is as given. */
  ghost predicate Shape(s: Sys, now: real, key: Key, refused: set<Member>, seen: set<Member>) {
    s.now == now && s.key == key && s.refused.Keys == refused && s.seen == seen && AllZero(s.admitted, 1)
  }

  lemma RemoveStep(s: Sys, now: real, key: Key, refused: set<Member>, seen: set<Member>, m: Member, window: real)
    requires Shape(s, now, key, refused, seen) && m in refused
    ensures Enabled(s, Compensate(m, now))
    ensures Shape(Next(s, Compensate(m, now), 1, window), now, Zrem(key, now, m), refused - {m}, seen)
  {
  }

  /** Two rejected entries, the second counted against the first after the member of time 0 is
      trimmed, and both removed. */
  lemma Hidden(window: real, d: real, h: real) returns (es: seq<Event>, t: Sys)
    requires 0.0 < h <= d && h < window
    ensures Ends(es, t, 1, window, d) && Shape(t, window, Key(map[], Some(window + window + 10.0)), {}, {0, 1, 2})
  {
    var e := window - h;
    var before, s := TwoRejected(window, d, e);
    es, t := Cleared(before, s, window, d, Key(map[1 := e, 2 := window], Some(window + window + 10.0)));
  }

  lemma FirstAdmitted(window: real, d: real) returns (es: seq<Event>, s: Sys)
    requires window > 0.0 && d >= 0.0
    ensures Ends(es, s, 1, window, d) && Shape(s, 0.0, Key(map[0 := 0.0], Some(window + 10.0)), {}, {0})
  {
    es, s := Fill(1, 1, window, d);
    assert Below(1) == {0};
    assert Zeros(1) == map[0 := 0.0];
  }

  lemma OneRejected(window: real, d: real, e: real) returns (es: seq<Event>, t: Sys)
    requires 0.0 < e < window && d >= 0.0
    ensures Ends(es, t, 1, window, d)
    ensures Shape(t, e, Key(map[0 := 0.0, 1 := e], Some(e + window + 10.0)), {1}, {0, 1})
  {
    FirstHidden(window, e);
    var before, s := FirstAdmitted(window, d);
    es, t := Refused(before, s, 0.0, Key(map[0 := 0.0], Some(window + 10.0)), {}, {0}, 1, e, window, d, {1}, {0, 1});
  }

  lemma TwoRejected(window: real, d: real, e: real) returns (es: seq<Event>, t: Sys)
    requires 0.0 < e < window && d >= 0.0
    ensures Ends(es, t, 1, window, d)
    ensures Shape(t, window, Key(map[1 := e, 2 := window], Some(window + window + 10.0)), {1, 2}, {0, 1, 2})
  {
    SecondHidden(window, e);
    var before, s := OneRejected(window, d, e);
    var k := Key(map[0 := 0.0, 1 := e], Some(e + window + 10.0));
    es, t := Refused(before, s, e, k, {1}, {0, 1}, 2, window, window, d, {1, 2}, {0, 1, 2});
  }

  lemma Refused(before: seq<Event>, s: Sys, now: real, key: Key, refused: set<Member>, seen: set<Member>,
                m: Member, at: real, window: real, d: real, refusedAfter: set<Member>, seenAfter: set<Member>)
    returns (es: seq<Event>, t: Sys)
    requires Ends(before, s, 1, window, d) && d >= 0.0
    requires Shape(s, now, key, refused, seen) && m !in seen && 0.0 <= at && now <= at
    requires |Counted(key, at, at, window)| >= 1
    requires refusedAfter == refused + {m} && seenAfter == seen + {m}
    ensures Ends(es, t, 1, window, d) && Shape(t, at, Pipeline(key, at, at, window, m), refusedAfter, seenAfter)
  {
    es, t := Append(before, s, Arrive(m, at, at), 1, window, d);
  }

  lemma FirstHidden(window: real, e: real)
    requires 0.0 < e < window
    ensures var k := Key(map[0 := 0.0], Some(window + 10.0));
      |Counted(k, e, e, window)| == 1 &&
          Pipeline(k, e, e, window, 1) == Key(map[0 := 0.0, 1 := e], Some(e + window + 10.0))
  {
    assert Counted(Key(map[0 := 0.0], Some(window + 10.0)), e, e, window) == map[0 := 0.0];
  }

  lemma SecondHidden(window: real, e: real)
    requires 0.0 < e < window
    ensures var k := Key(map[0 := 0.0, 1 := e], Some(e + window + 10.0));
      && |Counted(k, window, window, window)| == 1
      && Pipeline(k, window, window, window, 2) == Key(map[1 := e, 2 := window], Some(window + window + 10.0))
  {
    assert Counted(Key(map[0 := 0.0, 1 := e], Some(e + window + 10.0)), window, window, window) == map[1 := e];
  }

  lemma Removed(before: seq<Event>, s: Sys, now: real, key: Key, refused: set<Member>, seen: set<Member>,
                m: Member, window: real, d: real) returns (es: seq<Event>, t: Sys)
    requires Ends(before, s, 1, window, d) && Shape(s, now, key, refused, seen) && m in refused
    ensures Ends(es, t, 1, window, d) && Shape(t, now, Zrem(key, now, m), refused - {m}, seen)
  {
    RemoveStep(s, now, key, refused, seen, m, window);
    es, t := Append(before, s, Compensate(m, now), 1, window, d);
  }

  lemma ClearedKey(key: Key, window: real)
    requires key.entries.Keys == {1, 2} && key.expiresAt == Some(window + window + 10.0) && window > 0.0
    ensures Zrem(Zrem(key, window, 1), window, 2) == Key(map[], Some(window + window + 10.0))
  {
    assert Zrem(Zrem(key, window, 1), window, 2).entries == map[];
  }

  lemma Cleared(before: seq<Event>, s: Sys, window: real, d: real, key: Key) returns (es: seq<Event>, t: Sys)
    requires Ends(before, s, 1, window, d) && window > 0.0
    requires key.entries.Keys == {1, 2} && key.expiresAt == Some(window + window + 10.0)
    requires Shape(s, window, key, {1, 2}, {0, 1, 2})
    ensures Ends(es, t, 1, window, d) && Shape(t, window, Key(map[], Some(window + window + 10.0)), {}, {0, 1, 2})
  {
    ClearedKey(key, window);
    var mid, u := Removed(before, s, window, key, {1, 2}, {0, 1, 2}, 1, window, d);
    es, t := Removed(mid, u, window, Zrem(key, window, 1), {1, 2} - {1}, {0, 1, 2}, 2, window, d);
    assert {1, 2} - {1} - {2} == {};
  }

  /** With room for one: two rejected entries hide the trimmed member, and when both are
      removed a late pipeline is admitted. */
  lemma LateAfterRejections(limit: nat, window: real, d: real, h: real) returns (es: seq<Event>, t: Sys, x: Member)
    requires limit == 1 && 0.0 < h <= d && h < window
    ensures Ends(es, t, limit, window, d) && Overfull(t.admitted, limit, x, window - h)
  {
    var before, s := Hidden(window, d, h);
    x := 3;
    assert Counted(s.key, window - h, window, window) == map[];
    es, t := Append(before, s, Arrive(x, window - h, window), 1, window, d);
    OneMore(s.admitted, 1, x, window - h, Mark(window - h, window, None));
  }

  lemma LateRun(limit: nat, window: real, d: real, h: real) returns (es: seq<Event>, t: Sys, x: Member)
    requires limit >= 1 && 0.0 < h <= d && h < window
    ensures Ends(es, t, limit, window, d) && Overfull(t.admitted, limit, x, window - h)
  {
    if limit >= 2 {
      es, t, x := LateBeside(limit, window, d, h);
    } else {
      es, t, x := LateAfterRejections(limit, window, d, h);
    }
  }

  lemma LateBreaks(limit: nat, window: real, d: real, width: real) returns (es: seq<Event>, a: real)
    requires limit >= 1 && d >= 0.0 && 0.0 < width <= window && width > window - d
    ensures !Kept(es, limit, window, d, width, a)
  {
    var h := if d < window then d else window - width / 2.0;
    var t, x;
    es, t, x := LateRun(limit, window, d, h);
    a := Breaks(es, t, limit, window, d, width, x, window - h);
  }

  /** The exact width: when pipelines are executed at most `d` seconds late, every half-open
      interval of `width` seconds holds at most `limit` admissions in all runs if and only if
      `width` is at most `window - d`. Stamps executed out of order, or a
      key that expired first, take the rest of the window away (see `SlidingWindowOrder`). */
  lemma WindowWidthExact(limit: int, window: real, d: real, width: real)
    requires d >= 0.0
    ensures (forall es, a: real :: Kept(es, limit, window, d, width, a))
      <==> width <= window - d || width <= 0.0 || limit <= 0
  {
    if width <= window - d || width <= 0.0 || limit <= 0 {
      forall es, a: real ensures Kept(es, limit, window, d, width, a) {
        NarrowKept(es, limit, window, d, width, a);
      }
    } else {
      var es, a;
      if width > window {
        es, a := WideBreaks(limit, window, d, width);
      } else {
        es, a := LateBreaks(limit, window, d, width);
      }
      assert !Kept(es, limit, window, d, width, a);
    }
  }

  /* ---------- Key expiry ---------- */

  ghost predicate ExpiryIdle(es: seq<Event>, limit: int, window: real, d: real, stamp: real, at: real) {
    Executable(START, es, limit, window) && 0.0 <= stamp <= at && at - stamp <= d
    && Run(START, es, limit, window).now <= at ==>
      Counted(Run(START, es, limit, window).key, stamp, at, window)
      == Trim(Run(START, es, limit, window).key.entries, stamp - window)
  }

  /** Key expiry never decides in any run if and only if pipelines are at most ten seconds
      late: the slack the source adds to the time to live. */
  lemma ExpiryExact(window: real, d: real)
    requires window > 0.0
    ensures (forall es, limit: int, stamp: real, at: real :: ExpiryIdle(es, limit, window, d, stamp, at)) <==> d <= 10.0
  {
    if d <= 10.0 {
      forall es, limit: int, stamp: real, at: real ensures ExpiryIdle(es, limit, window, d, stamp, at) {
        if Executable(START, es, limit, window) && at - stamp <= d && Run(START, es, limit, window).now <= at {
          StartFaithful(limit, window, 0.0);
          RunFaithful(START, es, limit, window);
          ExpiryNeverDecides(Run(START, es, limit, window), window, stamp, at);
        }
      }
    } else {
      var es, s := Fill(1, 1, window, d);
      LegalRuns(es, 1, window, d);
      var at := window + 10.0;
      var stamp := if at > d then at - d else 0.0;
      assert 0 in Trim(s.key.entries, stamp - window) && 0 !in Counted(s.key, stamp, at, window);
      assert !ExpiryIdle(es, 1, window, d, stamp, at);
    }
  }
}
