/** The per-minute limit of the webhook guards: a list of recent times per key that is pruned at
    every request. */
module SlidingWindow {

  const WINDOW := 60

  /** The times less than a window ago, in order. */
  function Recent(times: seq<int>, now: int): seq<int> {
    if times == [] then []
    else
      var k := |times| - 1;
      Recent(times[..k], now) + if now - times[k] < WINDOW then [times[k]] else []
  }

  function TimesOf<K>(windows: map<K, seq<int>>, key: K): seq<int> {
    if key in windows then windows[key] else []
  }

  predicate Refused(limit: int, times: seq<int>, now: int) {
    |Recent(times, now)| >= limit
  }

  /** Both a refusal and a pass store the pruned list; a pass appends to it. */
  function TimesAfter(limit: int, times: seq<int>, now: int): seq<int> {
    if Refused(limit, times, now) then Recent(times, now) else Recent(times, now) + [now]
  }

  method PruneTimes(times: seq<int>, now: int) returns (recent: seq<int>)
    ensures recent == Recent(times, now)
  {
    recent := [];
    for i := 0 to |times|
      invariant recent == Recent(times[..i], now)
    {
      assert times[..i + 1][..i] == times[..i];
      if now - times[i] < WINDOW {
        recent := recent + [times[i]];
      }
    }
    assert times[..|times|] == times;
  }

  // ------------------------------------------------ runs of requests on many keys

  datatype Attempt<K> = Attempt(key: K, now: int)

  /** The stored lists, and every time a key has ever passed. */
  datatype Limiter<K> = Limiter(windows: map<K, seq<int>>, passes: map<K, seq<int>>)

  function Try<K>(limit: int, l: Limiter<K>, a: Attempt<K>): Limiter<K> {
    var times := TimesOf(l.windows, a.key);
    Limiter(
      l.windows[a.key := TimesAfter(limit, times, a.now)],
      l.passes[a.key := TimesOf(l.passes, a.key) + if Refused(limit, times, a.now) then [] else [a.now]])
  }

  function RunOf<K>(limit: int, attempts: seq<Attempt<K>>): Limiter<K> {
    if attempts == [] then Limiter(map[], map[])
    else Try(limit, RunOf(limit, attempts[..|attempts| - 1]), attempts[|attempts| - 1])
  }

  lemma RunOfSnoc<K>(limit: int, attempts: seq<Attempt<K>>, a: Attempt<K>)
    ensures RunOf(limit, attempts + [a]) == Try(limit, RunOf(limit, attempts), a)
  {
    assert (attempts + [a])[..|attempts|] == attempts;
  }

  /** The clock does not go back. */
  ghost predicate ClockMonotone<K>(attempts: seq<Attempt<K>>) {
    forall i, j | 0 <= i < j < |attempts| :: attempts[i].now <= attempts[j].now
  }

  lemma {:induction false} PruningTwice(times: seq<int>, t: int, u: int)
    requires t <= u
    ensures Recent(Recent(times, t), u) == Recent(times, u)
  {
    if times != [] {
      var k := |times| - 1;
      PruningTwice(times[..k], t, u);
      var front := Recent(times[..k], t);
      if t - times[k] < WINDOW {
        assert (front + [times[k]])[..|front|] == front;
      } else {
        assert Recent(times, t) == front;
      }
    }
  }

  lemma RecentSnoc(times: seq<int>, x: int, now: int)
    ensures Recent(times + [x], now) == Recent(times, now) + if now - x < WINDOW then [x] else []
  {
    assert (times + [x])[..|times|] == times;
  }

  ghost predicate LosesNothing(window: seq<int>, passes: seq<int>, clock: int) {
    forall t | t >= clock :: Recent(window, t) == Recent(passes, t)
  }

  lemma TryLosesNothing(limit: int, times: seq<int>, passes: seq<int>, clock: int, now: int)
    requires LosesNothing(times, passes, clock) && clock <= now
    ensures LosesNothing(TimesAfter(limit, times, now),
                         passes + if Refused(limit, times, now) then [] else [now], now)
  {
    forall t | t >= now
      ensures Recent(TimesAfter(limit, times, now), t) ==
              Recent(passes + if Refused(limit, times, now) then [] else [now], t)
    {
      PruningTwice(times, now, t);
      RecentSnoc(Recent(times, now), now, t);
      RecentSnoc(passes, now, t);
      assert passes + [] == passes && Recent(times, now) + [] == Recent(times, now);
    }
  }

  ghost predicate NothingLost<K(!new)>(l: Limiter<K>, clock: int) {
    forall key: K :: LosesNothing(TimesOf(l.windows, key), TimesOf(l.passes, key), clock)
  }

  /** What pruning forgets can never matter again. */
  lemma {:induction false} PruningLosesNothing<K(!new)>(limit: int, attempts: seq<Attempt<K>>, now: int)
    requires ClockMonotone(attempts)
    requires attempts != [] ==> attempts[|attempts| - 1].now <= now
    ensures NothingLost(RunOf(limit, attempts), now)
  {
    if attempts != [] {
      var k := |attempts| - 1;
      var a := attempts[k];
      PruningLosesNothing(limit, attempts[..k], a.now);
      var l := RunOf(limit, attempts[..k]);
      var m := Try(limit, l, a);
      forall key: K ensures LosesNothing(TimesOf(m.windows, key), TimesOf(m.passes, key), now) {
        assert LosesNothing(TimesOf(l.windows, key), TimesOf(l.passes, key), a.now);
        if key == a.key {
          TryLosesNothing(limit, TimesOf(l.windows, key), TimesOf(l.passes, key), a.now, a.now);
        }
      }
    }
  }

  /** A request is refused exactly when `limit` requests of its key have passed in the last window,
      counted over everything that ever passed. */
  lemma RefusedIff<K(!new)>(limit: int, attempts: seq<Attempt<K>>, a: Attempt<K>)
    requires ClockMonotone(attempts + [a])
    ensures var l := RunOf(limit, attempts);
      Refused(limit, TimesOf(l.windows, a.key), a.now) <==> |Recent(TimesOf(l.passes, a.key), a.now)| >= limit
  {
    var all := attempts + [a];
    assert forall i | 0 <= i < |attempts| :: all[i] == attempts[i];
    assert all[|attempts|] == a;
    assert ClockMonotone(attempts);
    PruningLosesNothing(limit, attempts, a.now);
    var l := RunOf(limit, attempts);
    assert LosesNothing(TimesOf(l.windows, a.key), TimesOf(l.passes, a.key), a.now);
  }

  /** How many of the times lie in [lo, lo + WINDOW). */
  function CountIn(times: seq<int>, lo: int): nat {
    if times == [] then 0
    else CountIn(times[..|times| - 1], lo) + if lo <= times[|times| - 1] < lo + WINDOW then 1 else 0
  }

  /** Each pass found fewer than `limit` passes in the window before it. */
  ghost predicate Spaced(limit: int, passes: seq<int>) {
    passes == [] ||
    var k := |passes| - 1;
    && Spaced(limit, passes[..k])
    && |Recent(passes[..k], passes[k])| < limit
    && forall i | 0 <= i < k :: passes[i] <= passes[k]
  }

  lemma {:induction false} CountInIsRecent(times: seq<int>, lo: int, now: int)
    requires lo <= now < lo + WINDOW
    ensures CountIn(times, lo) <= |Recent(times, now)|
  {
    if times != [] {
      CountInIsRecent(times[..|times| - 1], lo, now);
    }
  }

  lemma {:induction false} SpacedFitsEveryWindow(limit: int, passes: seq<int>, lo: int)
    requires Spaced(limit, passes) && limit >= 0
    ensures CountIn(passes, lo) <= limit
  {
    if passes != [] {
      var k := |passes| - 1;
      if lo <= passes[k] < lo + WINDOW {
        CountInIsRecent(passes[..k], lo, passes[k]);
      } else {
        SpacedFitsEveryWindow(limit, passes[..k], lo);
      }
    }
  }

  lemma {:induction false} PassesAreSpaced<K(!new)>(limit: int, attempts: seq<Attempt<K>>, key: K)
    requires ClockMonotone(attempts)
    ensures Spaced(limit, TimesOf(RunOf(limit, attempts).passes, key))
    ensures forall t | t in TimesOf(RunOf(limit, attempts).passes, key) ::
              attempts != [] && t <= attempts[|attempts| - 1].now
  {
    if attempts != [] {
      var k := |attempts| - 1;
      var a := attempts[k];
      PassesAreSpaced(limit, attempts[..k], key);
      var l := RunOf(limit, attempts[..k]);
      var passes := TimesOf(l.passes, key);
      if a.key == key && !Refused(limit, TimesOf(l.windows, key), a.now) {
        assert attempts[..k] + [a] == attempts;
        RefusedIff(limit, attempts[..k], a);
        SpacedSnoc(limit, passes, a.now);
      } else {
        assert passes + [] == passes;
      }
    }
  }

  lemma SpacedSnoc(limit: int, passes: seq<int>, now: int)
    requires Spaced(limit, passes) && |Recent(passes, now)| < limit
    requires forall t | t in passes :: t <= now
    ensures Spaced(limit, passes + [now])
  {
    var longer := passes + [now];
    assert longer[..|passes|] == passes;
    forall i | 0 <= i < |passes| ensures longer[i] <= now {
      assert longer[i] == passes[i] && passes[i] in passes;
    }
  }

  /** In no 60 seconds, wherever they begin, do more than `limit` requests of a key pass. */
  lemma NoWindowExceedsTheLimit<K(!new)>(limit: int, attempts: seq<Attempt<K>>, key: K, lo: int)
    requires ClockMonotone(attempts) && limit >= 0
    ensures CountIn(TimesOf(RunOf(limit, attempts).passes, key), lo) <= limit
  {
    PassesAreSpaced(limit, attempts, key);
    SpacedFitsEveryWindow(limit, TimesOf(RunOf(limit, attempts).passes, key), lo);
  }
}
