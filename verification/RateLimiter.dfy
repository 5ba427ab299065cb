/** The lazily pruned sliding log of lib/rate-limiter.js, against the full log of everything it granted. */
module RateLimiters {
  import opened Options

  type Hits = seq<int>

  datatype Config = Config(windowMs: int, maxRequests: int)

  datatype Event = Ask(key: string) | Clean | Tick(ms: nat)

  function At(m: map<string, Hits>, key: string): Hits {
    if key in m then m[key] else []
  }

  /** Drops the hits at or before the cutoff from the front. */
  function Prune(hits: Hits, cutoff: int): Hits {
    if hits != [] && hits[0] <= cutoff then Prune(hits[1..], cutoff) else hits
  }

  // ---------------------------------------------------------------- the limiter

  function DoAllow(c: Config, buckets: map<string, Hits>, key: string, now: int): (bool, map<string, Hits>) {
    var hits := Prune(At(buckets, key), now - c.windowMs);
    if |hits| >= c.maxRequests then (false, buckets[key := hits]) else (true, buckets[key := hits + [now]])
  }

  function DoCleanup(buckets: map<string, Hits>, cutoff: int): map<string, Hits> {
    map key | key in buckets && Prune(buckets[key], cutoff) != [] :: Prune(buckets[key], cutoff)
  }

  class RateLimiter {
    const c: Config
    var buckets: map<string, Hits>

    constructor (c: Config)
      ensures this.c == c && buckets == map[]
    {
      this.c, this.buckets := c, map[];
    }

    method ShiftExpired(key: string, cutoff: int)
      requires key in buckets
      modifies this
      ensures buckets == old(buckets)[key := Prune(old(buckets)[key], cutoff)]
    {
      while |buckets[key]| > 0 && buckets[key][0] <= cutoff
        invariant key in buckets && Prune(buckets[key], cutoff) == Prune(old(buckets)[key], cutoff)
        invariant buckets == old(buckets)[key := buckets[key]]
        decreases |buckets[key]|
      {
        buckets := buckets[key := buckets[key][1..]];
      }
    }

    method Allow(key: string, now: int) returns (granted: bool)
      modifies this
      ensures (granted, buckets) == DoAllow(c, old(buckets), key, now)
    {
      if key !in buckets {
        buckets := buckets[key := []];
      }
      ShiftExpired(key, now - c.windowMs);
      assert buckets == old(buckets)[key := Prune(At(old(buckets), key), now - c.windowMs)];
      if |buckets[key]| >= c.maxRequests {
        return false;
      }
      buckets := buckets[key := buckets[key] + [now]];
      granted := true;
      assert buckets == DoAllow(c, old(buckets), key, now).1;
    }

    method Cleanup(now: int)
      modifies this
      ensures buckets == DoCleanup(old(buckets), now - c.windowMs)
    {
      var cutoff := now - c.windowMs;
      ghost var goal := DoCleanup(buckets, cutoff);
      var todo := buckets.Keys;
      while todo != {}
        invariant todo <= buckets.Keys && todo <= old(buckets).Keys
        invariant forall k :: k in buckets <==> k in todo || k in goal
        invariant forall k :: k in buckets ==> buckets[k] == if k in todo then old(buckets)[k] else goal[k]
      {
        var key :| key in todo;
        ShiftExpired(key, cutoff);
        if buckets[key] == [] {
          buckets := buckets - {key};
        }
        todo := todo - {key};
      }
      assert buckets == goal;
    }
  }

  // ---------------------------------------------------------------- the full log

  /** Grants in the span (lo, hi]. */
  function CountIn(log: Hits, lo: int, hi: int): nat {
    if log == [] then 0 else (if lo < log[0] <= hi then 1 else 0) + CountIn(log[1..], lo, hi)
  }

  predicate Grants(c: Config, log: Hits, now: int) {
    CountIn(log, now - c.windowMs, now) < c.maxRequests
  }

  datatype State = State(now: int, buckets: map<string, Hits>, log: map<string, Hits>)

  /** The limiter's step beside the reference's: the log only grows, by the limiter's own grants. */
  function Step(c: Config, s: State, e: Event): State {
    match e
    case Tick(ms) => s.(now := s.now + ms)
    case Clean => s.(buckets := DoCleanup(s.buckets, s.now - c.windowMs))
    case Ask(key) =>
      var (granted, b) := DoAllow(c, s.buckets, key, s.now);
      State(s.now, b, if granted then s.log[key := At(s.log, key) + [s.now]] else s.log)
  }

  function Run(c: Config, s: State, es: seq<Event>): State
    decreases |es|
  {
    if es == [] then s else Run(c, Step(c, s, es[0]), es[1..])
  }

  predicate Sorted(log: Hits) {
    forall i, j :: 0 <= i < j < |log| ==> log[i] <= log[j]
  }

  predicate UpTo(log: Hits, now: int) {
    forall i :: 0 <= i < |log| ==> log[i] <= now
  }

  /** A bucket is what is left of its key's log after dropping grants that have left the window for good. */
  predicate Kept(c: Config, hits: Hits, log: Hits, now: int) {
    && Sorted(log) && UpTo(log, now)
    && |hits| <= |log| && log[|log| - |hits|..] == hits
    && forall i :: 0 <= i < |log| - |hits| ==> log[i] <= now - c.windowMs
  }

  predicate Bounded(c: Config, log: Hits, t: int) {
    CountIn(log, t - c.windowMs, t) <= Max(c.maxRequests, 0)
  }

  ghost predicate KeyInv(c: Config, s: State, key: string) {
    Kept(c, At(s.buckets, key), At(s.log, key), s.now) && forall t :: Bounded(c, At(s.log, key), t)
  }

  ghost predicate Inv(c: Config, s: State) {
    forall key :: KeyInv(c, s, key)
  }

  lemma {:induction false} CountInAppend(a: Hits, b: Hits, lo: int, hi: int)
    ensures CountIn(a + b, lo, hi) == CountIn(a, lo, hi) + CountIn(b, lo, hi)
  {
    if a == [] {
      assert a + b == b;
    } else {
      assert (a + b)[1..] == a[1..] + b;
      CountInAppend(a[1..], b, lo, hi);
    }
  }

  lemma {:induction false} CountInAll(log: Hits, lo: int, hi: int)
    ensures (forall i :: 0 <= i < |log| ==> lo < log[i] <= hi) ==> CountIn(log, lo, hi) == |log|
    ensures (forall i :: 0 <= i < |log| ==> !(lo < log[i] <= hi)) ==> CountIn(log, lo, hi) == 0
  {
    if log != [] {
      CountInAll(log[1..], lo, hi);
    }
  }

  /** With everything logged at or before `now`, a later span sees no more than the current one. */
  lemma {:induction false} CountInLater(log: Hits, w: int, now: int, t: int)
    requires now <= t && UpTo(log, now)
    ensures CountIn(log, t - w, t) <= CountIn(log, now - w, now)
  {
    if log != [] {
      CountInLater(log[1..], w, now, t);
    }
  }

  lemma KeptTail(c: Config, hits: Hits, log: Hits, now: int)
    requires Kept(c, hits, log, now) && hits != [] && hits[0] <= now - c.windowMs
    ensures Kept(c, hits[1..], log, now)
  {
    var k := |log| - |hits|;
    assert log[k] == hits[0] && log[k + 1..] == hits[1..];
  }

  /** A bucket whose first hit is inside the window holds exactly the grants of the window. */
  lemma KeptCount(c: Config, hits: Hits, log: Hits, now: int)
    requires Kept(c, hits, log, now) && (hits != [] ==> hits[0] > now - c.windowMs)
    ensures |hits| == CountIn(log, now - c.windowMs, now)
  {
    var lo, k := now - c.windowMs, |log| - |hits|;
    assert log == log[..k] + hits;
    forall i | 0 <= i < |hits| ensures lo < hits[i] <= now {
      assert hits[i] == log[k + i] && hits[0] == log[k];
    }
    CountInAppend(log[..k], hits, lo, now);
    CountInAll(log[..k], lo, now);
    CountInAll(hits, lo, now);
  }

  lemma {:induction false} PruneKept(c: Config, hits: Hits, log: Hits, now: int)
    requires Kept(c, hits, log, now)
    ensures Kept(c, Prune(hits, now - c.windowMs), log, now)
    ensures |Prune(hits, now - c.windowMs)| == CountIn(log, now - c.windowMs, now)
    decreases |hits|
  {
    if hits != [] && hits[0] <= now - c.windowMs {
      KeptTail(c, hits, log, now);
      PruneKept(c, hits[1..], log, now);
    } else {
      KeptCount(c, hits, log, now);
    }
  }

  lemma GrantKeepsBounds(c: Config, log: Hits, now: int, t: int)
    requires Bounded(c, log, t) && Grants(c, log, now) && UpTo(log, now)
    ensures Bounded(c, log + [now], t)
  {
    CountInAppend(log, [now], t - c.windowMs, t);
    if now <= t { CountInLater(log, c.windowMs, now, t); }
  }

  lemma GrantKept(c: Config, hits: Hits, log: Hits, now: int)
    requires Kept(c, hits, log, now)
    ensures Kept(c, hits + [now], log + [now], now)
  {
    var log1, hits1 := log + [now], hits + [now];
    assert log1[|log1| - |hits1|..] == log[|log| - |hits|..] + [now];
  }

  lemma AskKeepsKeyInv(c: Config, s: State, key: string)
    requires KeyInv(c, s, key)
    ensures KeyInv(c, Step(c, s, Ask(key)), key)
    ensures DoAllow(c, s.buckets, key, s.now).0 == Grants(c, At(s.log, key), s.now)
  {
    var log := At(s.log, key);
    PruneKept(c, At(s.buckets, key), log, s.now);
    if Grants(c, log, s.now) {
      GrantKept(c, Prune(At(s.buckets, key), s.now - c.windowMs), log, s.now);
      forall t ensures Bounded(c, log + [s.now], t) { assert Bounded(c, log, t); GrantKeepsBounds(c, log, s.now, t); }
    }
  }

  lemma CleanKeepsKeyInv(c: Config, s: State, key: string)
    requires KeyInv(c, s, key)
    ensures KeyInv(c, Step(c, s, Clean), key)
  {
    PruneKept(c, At(s.buckets, key), At(s.log, key), s.now);
    assert At(Step(c, s, Clean).buckets, key) == Prune(At(s.buckets, key), s.now - c.windowMs);
  }

  lemma LaterKept(c: Config, hits: Hits, log: Hits, now: int, later: int)
    requires Kept(c, hits, log, now) && now <= later
    ensures Kept(c, hits, log, later)
  {
  }

  lemma StepKeepsKeyInv(c: Config, s: State, e: Event, key: string)
    requires KeyInv(c, s, key)
    ensures KeyInv(c, Step(c, s, e), key)
  {
    match e
    case Ask(k) => if k == key { AskKeepsKeyInv(c, s, key); }
    case Clean => CleanKeepsKeyInv(c, s, key);
    case Tick(ms) => LaterKept(c, At(s.buckets, key), At(s.log, key), s.now, s.now + ms);
  }

  lemma StepKeepsInv(c: Config, s: State, e: Event)
    requires Inv(c, s)
    ensures Inv(c, Step(c, s, e))
    ensures e.Ask? ==> DoAllow(c, s.buckets, e.key, s.now).0 == Grants(c, At(s.log, e.key), s.now)
  {
    forall key ensures KeyInv(c, Step(c, s, e), key) { assert KeyInv(c, s, key); StepKeepsKeyInv(c, s, e, key); }
    if e.Ask? { assert KeyInv(c, s, e.key); AskKeepsKeyInv(c, s, e.key); }
  }

  lemma {:induction false} RunKeepsInv(c: Config, s: State, es: seq<Event>)
    requires Inv(c, s)
    ensures Inv(c, Run(c, s, es))
    decreases |es|
  {
    if es != [] {
      StepKeepsInv(c, s, es[0]);
      RunKeepsInv(c, Step(c, s, es[0]), es[1..]);
    }
  }

  lemma StartInv(c: Config, t0: int)
    ensures Inv(c, State(t0, map[], map[]))
  {
    forall key ensures KeyInv(c, State(t0, map[], map[]), key) {
      StartKeyInv(c, t0, key);
    }
  }

  lemma StartKeyInv(c: Config, t0: int, key: string)
    ensures KeyInv(c, State(t0, map[], map[]), key)
  {
  }

  lemma ReachedKeyInv(c: Config, t0: int, es: seq<Event>, key: string)
    ensures KeyInv(c, Run(c, State(t0, map[], map[]), es), key)
  {
    StartInv(c, t0);
    RunKeepsInv(c, State(t0, map[], map[]), es);
  }

  /**
   * After any run, a request is granted exactly when fewer than the limit of all grants ever made to its key
   * lie in the window, and no span of one window, wherever it ends, holds more grants than the limit.
   */
  lemma LimiterIsExact(c: Config, t0: int, es: seq<Event>, key: string, t: int)
    ensures var s := Run(c, State(t0, map[], map[]), es);
            && DoAllow(c, s.buckets, key, s.now).0 == Grants(c, At(s.log, key), s.now)
            && CountIn(At(s.log, key), t - c.windowMs, t) <= Max(c.maxRequests, 0)
  {
    var s := Run(c, State(t0, map[], map[]), es);
    hide Run;
    ReachedKeyInv(c, t0, es, key);
    AskKeepsKeyInv(c, s, key);
    assert Bounded(c, At(s.log, key), t);
  }

  /** A cleanup leaves of each key exactly the grants still in the window, and keys without any not at all. */
  lemma CleanupExact(c: Config, t0: int, es: seq<Event>, key: string)
    ensures var s := Run(c, State(t0, map[], map[]), es);
            var t := Step(c, s, Clean);
            && t.now == s.now && t.log == s.log
            && |At(t.buckets, key)| == CountIn(At(s.log, key), s.now - c.windowMs, s.now)
            && (key in t.buckets <==> CountIn(At(s.log, key), s.now - c.windowMs, s.now) > 0)
  {
    var s := Run(c, State(t0, map[], map[]), es);
    hide Run;
    ReachedKeyInv(c, t0, es, key);
    PruneKept(c, At(s.buckets, key), At(s.log, key), s.now);
  }

  function WithoutCleanups(es: seq<Event>): seq<Event> {
    if es == [] then [] else (if es[0].Clean? then [] else [es[0]]) + WithoutCleanups(es[1..])
  }

  function Answers(c: Config, s: State, es: seq<Event>): seq<bool>
    decreases |es|
  {
    if es == [] then []
    else (if es[0].Ask? then [DoAllow(c, s.buckets, es[0].key, s.now).0] else []) + Answers(c, Step(c, s, es[0]), es[1..])
  }

  /** Cleanups may come anywhere, any number of times, without changing one answer. */
  lemma {:induction false} CleanupsInvisible(c: Config, s: State, s': State, es: seq<Event>)
    requires Inv(c, s) && Inv(c, s') && s.now == s'.now && s.log == s'.log
    ensures Answers(c, s, es) == Answers(c, s', WithoutCleanups(es))
    decreases |es|
  {
    if es != [] {
      var e := es[0];
      StepKeepsInv(c, s, e);
      StepKeepsInv(c, s', e);
      if e.Clean? {
        CleanupsInvisible(c, Step(c, s, e), s', es[1..]);
        assert [] + WithoutCleanups(es[1..]) == WithoutCleanups(es[1..]);
      } else {
        CleanupsInvisible(c, Step(c, s, e), Step(c, s', e), es[1..]);
        assert ([e] + WithoutCleanups(es[1..]))[1..] == WithoutCleanups(es[1..]);
      }
    }
  }
}
