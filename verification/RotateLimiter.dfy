/** The per-address limiter of lib/handlers/_rotate-ratelimit.js: a fixed window opened by its first grant. */
module RotateLimiters {
  import opened Options
  import RL = RateLimiters

  const WINDOW := 60000

  datatype Entry = Entry(count: nat, windowStart: int)

  datatype Reply = Reply(allowed: bool, retryAfter: int)

  datatype Event = Ask(ip: string) | Tick(ms: nat)

  /** The positive integer configured, or 5. */
  function GetLimit(configured: Option<int>): (limit: int)
    ensures limit >= 1
  {
    if configured.Some? && configured.value > 0 then configured.value else 5
  }

  function Open(e: Option<Entry>, now: int): Entry {
    if e.None? || now - e.value.windowStart >= WINDOW then Entry(0, now) else e.value
  }

  function DoCheck(limit: nat, e: Option<Entry>, now: int): (Entry, Reply) {
    var w := Open(e, now);
    if w.count >= limit then (w, Reply(false, -((now - (w.windowStart + WINDOW)) / 1000)))
    else (w.(count := w.count + 1), Reply(true, 0))
  }

  function Get(store: map<string, Entry>, ip: string): Option<Entry> {
    if ip in store then Some(store[ip]) else None
  }

  class RotateLimiter {
    var store: map<string, Entry>

    constructor ()
      ensures store == map[]
    {
      store := map[];
    }

    /** The limit is read anew on every call. */
    method CheckRotateRateLimit(ip: string, configured: Option<int>, now: int) returns (r: Reply)
      modifies this
      ensures var (e, reply) := DoCheck(GetLimit(configured), Get(old(store), ip), now);
              r == reply && store == old(store)[ip := e]
    {
      var limit := GetLimit(configured);
      var entry := if ip in store then store[ip] else Entry(0, now);
      if ip !in store || now - entry.windowStart >= WINDOW {
        entry := Entry(0, now);
      }
      if entry.count >= limit {
        var windowEnd := entry.windowStart + WINDOW;
        store := store[ip := entry];
        return Reply(false, -((now - windowEnd) / 1000));
      }
      entry := entry.(count := entry.count + 1);
      store := store[ip := entry];
      r := Reply(true, 0);
    }
  }

  // ---------------------------------------------------------------- runs

  datatype State = State(now: int, store: map<string, Entry>, log: map<string, RL.Hits>)

  function Step(limit: nat, s: State, e: Event): State {
    match e
    case Tick(ms) => s.(now := s.now + ms)
    case Ask(ip) =>
      var (entry, r) := DoCheck(limit, Get(s.store, ip), s.now);
      State(s.now, s.store[ip := entry], if r.allowed then s.log[ip := RL.At(s.log, ip) + [s.now]] else s.log)
  }

  function Run(limit: nat, s: State, es: seq<Event>): State
    decreases |es|
  {
    if es == [] then s else Run(limit, Step(limit, s, es[0]), es[1..])
  }

  function Start(t0: int): State {
    State(t0, map[], map[])
  }

  /** Grants in the minute [t, t + WINDOW). */
  function InMinute(log: RL.Hits, t: int): nat {
    RL.CountIn(log, t - 1, t + WINDOW - 1)
  }

  /** Grants at or after `t`, for a log that ends before `end`. */
  function Since(log: RL.Hits, t: int, end: int): nat {
    RL.CountIn(log, t - 1, end)
  }

  predicate Within(log: RL.Hits, lo: int, hi: int) {
    forall i :: 0 <= i < |log| ==> lo <= log[i] <= hi
  }

  predicate Before(log: RL.Hits, t: int) {
    forall i :: 0 <= i < |log| ==> log[i] < t
  }

  /** The log splits into closed windows and the current one; late in the closed part fewer than `limit` grants remain. */
  ghost predicate Split(limit: nat, past: RL.Hits, cur: RL.Hits, e: Entry, now: int) {
    && |cur| == e.count && 1 <= e.count <= limit && cur[0] == e.windowStart
    && Within(cur, e.windowStart, Min(now, e.windowStart + WINDOW - 1)) && Before(past, e.windowStart)
    && forall t :: t > e.windowStart - WINDOW ==> Since(past, t, e.windowStart) <= limit - 1
  }

  ghost predicate Splits(limit: nat, log: RL.Hits, e: Entry, now: int) {
    exists k :: 0 <= k <= |log| && Split(limit, log[..k], log[k..], e, now)
  }

  ghost predicate Bounded(limit: nat, log: RL.Hits) {
    forall t :: InMinute(log, t) <= 2 * limit - 1
  }

  ghost predicate IpInv(limit: nat, s: State, ip: string) {
    var log := RL.At(s.log, ip);
    && Bounded(limit, log)
    && match Get(s.store, ip)
       case None => log == []
       case Some(e) => Splits(limit, log, e, s.now)
  }

  lemma {:induction false} CountNone(log: RL.Hits, lo: int, hi: int)
    ensures (forall i :: 0 <= i < |log| ==> !(lo < log[i] <= hi)) ==> RL.CountIn(log, lo, hi) == 0
    ensures RL.CountIn(log, lo, hi) <= |log|
  {
    if log != [] {
      CountNone(log[1..], lo, hi);
    }
  }

  /** Widening the span past the log's end adds nothing. */
  lemma {:induction false} CountCapped(log: RL.Hits, lo: int, hi: int, end: int)
    requires Before(log, end)
    ensures RL.CountIn(log, lo, hi) <= RL.CountIn(log, lo, end)
  {
    if log != [] {
      CountCapped(log[1..], lo, hi, end);
    }
  }

  /** One more grant at `now`, when at most `limit - 1` closed and `limit` current grants can share its minute. */
  lemma GrantKeepsBound(limit: nat, past: RL.Hits, cur: RL.Hits, e: Entry, now: int)
    requires Split(limit, past, cur + [now], e, now) && Bounded(limit, past + cur)
    ensures Bounded(limit, past + (cur + [now]))
  {
    forall t ensures InMinute(past + (cur + [now]), t) <= 2 * limit - 1 {
      var win := cur + [now];
      RL.CountInAppend(past, win, t - 1, t + WINDOW - 1);
      CountNone(win, t - 1, t + WINDOW - 1);
      if t <= now < t + WINDOW {
        assert win[|win| - 1] == now;
        CountCapped(past, t - 1, t + WINDOW - 1, e.windowStart);
        assert Since(past, t, e.windowStart) <= limit - 1;
      } else {
        RL.CountInAppend(cur, [now], t - 1, t + WINDOW - 1);
        RL.CountInAppend(past, cur, t - 1, t + WINDOW - 1);
        assert InMinute(past + cur, t) <= 2 * limit - 1;
      }
    }
  }

  /** A window opened a minute or more after the last one leaves at most `limit - 1` grants within reach. */
  lemma NewWindowSplits(limit: nat, past: RL.Hits, cur: RL.Hits, e: Entry, was: int, now: int)
    requires Split(limit, past, cur, e, was) && was <= now && now - e.windowStart >= WINDOW
    ensures Split(limit, past + cur, [now], Entry(1, now), now)
  {
    var log := past + cur;
    forall t | t > now - WINDOW ensures Since(log, t, now) <= limit - 1 {
      assert cur == [cur[0]] + cur[1..];
      RL.CountInAppend(past, cur, t - 1, now);
      RL.CountInAppend([cur[0]], cur[1..], t - 1, now);
      CountNone(past, t - 1, now);
      CountNone([cur[0]], t - 1, now);
      CountNone(cur[1..], t - 1, now);
    }
  }

  lemma Granted(limit: nat, past: RL.Hits, cur: RL.Hits, e: Entry, now: int)
    requires Split(limit, past, cur + [now], e, now) && Bounded(limit, past + cur)
    ensures Splits(limit, past + cur + [now], e, now) && Bounded(limit, past + cur + [now])
  {
    GrantKeepsBound(limit, past, cur, e, now);
    var log := past + cur + [now];
    assert log == past + (cur + [now]) && log[..|past|] == past && log[|past|..] == cur + [now];
  }

  lemma AskInWindow(limit: nat, past: RL.Hits, cur: RL.Hits, e: Entry, now: int)
    requires Split(limit, past, cur, e, now) && Bounded(limit, past + cur)
    requires now - e.windowStart < WINDOW && e.count < limit
    ensures Splits(limit, past + cur + [now], e.(count := e.count + 1), now) && Bounded(limit, past + cur + [now])
  {
    assert (cur + [now])[0] == cur[0];
    Granted(limit, past, cur, e.(count := e.count + 1), now);
  }

  lemma AskAfterWindow(limit: nat, past: RL.Hits, cur: RL.Hits, e: Entry, now: int)
    requires Split(limit, past, cur, e, now) && Bounded(limit, past + cur) && now - e.windowStart >= WINDOW
    ensures Splits(limit, past + cur + [now], Entry(1, now), now) && Bounded(limit, past + cur + [now])
  {
    NewWindowSplits(limit, past, cur, e, now, now);
    assert [] + [now] == [now] && past + cur + [] == past + cur;
    Granted(limit, past + cur, [], Entry(1, now), now);
  }

  lemma SplitPoint(limit: nat, log: RL.Hits, e: Entry, now: int) returns (k: nat)
    requires Splits(limit, log, e, now)
    ensures k <= |log| && log == log[..k] + log[k..] && Split(limit, log[..k], log[k..], e, now) && limit >= 1
  {
    k :| 0 <= k <= |log| && Split(limit, log[..k], log[k..], e, now);
  }

  lemma AskKeepsSplit(limit: nat, log: RL.Hits, e: Entry, now: int)
    requires Splits(limit, log, e, now) && Bounded(limit, log)
    ensures var (e1, r) := DoCheck(limit, Some(e), now);
            var log1 := if r.allowed then log + [now] else log;
            Splits(limit, log1, e1, now) && Bounded(limit, log1)
  {
    var k := SplitPoint(limit, log, e, now);
    hide Split, Splits, Bounded;
    if now - e.windowStart >= WINDOW {
      AskAfterWindow(limit, log[..k], log[k..], e, now);
    } else if e.count < limit {
      AskInWindow(limit, log[..k], log[k..], e, now);
    }
  }

  lemma AskKeepsIpInv(limit: nat, s: State, ip: string)
    requires limit >= 1 && IpInv(limit, s, ip)
    ensures IpInv(limit, Step(limit, s, Ask(ip)), ip)
  {
    if ip in s.store {
      AskKeepsSplit(limit, RL.At(s.log, ip), s.store[ip], s.now);
    } else {
      assert Split(limit, [], [] + [s.now], Entry(1, s.now), s.now) by { assert [] + [s.now] == [s.now]; }
      assert [] + [] + [s.now] == [] + [s.now];
      Granted(limit, [], [], Entry(1, s.now), s.now);
    }
  }

  lemma StepKeepsIpInv(limit: nat, s: State, e: Event, ip: string)
    requires limit >= 1 && IpInv(limit, s, ip)
    ensures IpInv(limit, Step(limit, s, e), ip)
  {
    if e == Ask(ip) {
      AskKeepsIpInv(limit, s, ip);
    } else if e.Tick? && ip in s.store {
      var log := RL.At(s.log, ip);
      var k :| 0 <= k <= |log| && Split(limit, log[..k], log[k..], s.store[ip], s.now);
      assert Split(limit, log[..k], log[k..], s.store[ip], s.now + e.ms);
    }
  }

  lemma {:induction false} RunKeepsIpInv(limit: nat, s: State, es: seq<Event>, ip: string)
    requires limit >= 1 && IpInv(limit, s, ip)
    ensures IpInv(limit, Run(limit, s, es), ip)
    decreases |es|
  {
    if es != [] {
      StepKeepsIpInv(limit, s, es[0], ip);
      RunKeepsIpInv(limit, Step(limit, s, es[0]), es[1..], ip);
    }
  }

  /** Over every run, whatever other addresses do, no minute grants one address more than 2 limit - 1 requests. */
  lemma MinuteBound(limit: nat, t0: int, es: seq<Event>, ip: string, t: int)
    requires limit >= 1
    ensures InMinute(RL.At(Run(limit, Start(t0), es).log, ip), t) <= 2 * limit - 1
  {
    assert Bounded(limit, []);
    RunKeepsIpInv(limit, Start(t0), es, ip);
  }

  // ---------------------------------------------------------------- the bound is attained

  function Asks(ip: string, n: nat): seq<Event> {
    if n == 0 then [] else [Ask(ip)] + Asks(ip, n - 1)
  }

  lemma {:induction false} RunAppend(limit: nat, s: State, a: seq<Event>, b: seq<Event>)
    ensures Run(limit, s, a + b) == Run(limit, Run(limit, s, a), b)
    decreases |a|
  {
    if a == [] {
      assert a + b == b;
    } else {
      assert (a + b)[1..] == a[1..] + b;
      RunAppend(limit, Step(limit, s, a[0]), a[1..], b);
    }
  }

  /** `n` requests at once are all granted while the window has room for them. */
  lemma {:induction false} AsksGranted(limit: nat, s: State, ip: string, n: nat)
    requires Open(Get(s.store, ip), s.now).count + n <= limit
    ensures var s1 := Run(limit, s, Asks(ip, n));
            && s1.now == s.now
            && (forall t :: InMinute(RL.At(s1.log, ip), t)
                            == InMinute(RL.At(s.log, ip), t) + (if t <= s.now < t + WINDOW then n else 0))
            && (n > 0 ==> ip in s1.store && s1.store[ip]
                          == Open(Get(s.store, ip), s.now).(count := Open(Get(s.store, ip), s.now).count + n))
    decreases n
  {
    if n > 0 {
      var s1 := Step(limit, s, Ask(ip));
      assert ([Ask(ip)] + Asks(ip, n - 1))[1..] == Asks(ip, n - 1);
      AsksGranted(limit, s1, ip, n - 1);
      forall t
        ensures InMinute(RL.At(s1.log, ip), t) == InMinute(RL.At(s.log, ip), t) + (if t <= s.now < t + WINDOW then 1 else 0)
      {
        RL.CountInAppend(RL.At(s.log, ip), [s.now], t - 1, t + WINDOW - 1);
      }
    }
  }

  /** Of requests at once from a new address exactly the configured number is granted, or five without a valid one. */
  lemma ConfiguredBurst(configured: Option<int>, ip: string, t0: int, k: nat)
    requires k <= if configured.Some? && configured.value > 0 then configured.value else 5
    ensures var limit := GetLimit(configured);
            var s := Run(limit, Start(t0), Asks(ip, k));
            DoCheck(limit, Get(s.store, ip), s.now).1.allowed <==>
              k < if configured.Some? && configured.value > 0 then configured.value else 5
  {
    AsksGranted(GetLimit(configured), Start(t0), ip, k);
  }

  /** One grant, then the rest of that window in its last millisecond, then a whole window right after. */
  function Burst(limit: nat, ip: string): seq<Event>
    requires limit >= 1
  {
    Asks(ip, 1) + ([Tick(59999)] + (Asks(ip, limit - 1) + ([Tick(1)] + Asks(ip, limit))))
  }

  lemma BurstAttains(limit: nat, t0: int, ip: string)
    requires limit >= 1
    ensures InMinute(RL.At(Run(limit, Start(t0), Burst(limit, ip)).log, ip), t0 + 1) == 2 * limit - 1
  {
    var s0 := Start(t0);
    var s1 := Run(limit, s0, Asks(ip, 1));
    AsksGranted(limit, s0, ip, 1);
    var s2 := Run(limit, s1, [Tick(59999)]);
    var s3 := Run(limit, s2, Asks(ip, limit - 1));
    assert [Tick(59999)][1..] == [] && [Tick(1)][1..] == [];
    AsksGranted(limit, s2, ip, limit - 1);
    var s4 := Run(limit, s3, [Tick(1)]);
    AsksGranted(limit, s4, ip, limit);
    RunAppend(limit, s3, [Tick(1)], Asks(ip, limit));
    RunAppend(limit, s2, Asks(ip, limit - 1), [Tick(1)] + Asks(ip, limit));
    RunAppend(limit, s1, [Tick(59999)], Asks(ip, limit - 1) + ([Tick(1)] + Asks(ip, limit)));
    RunAppend(limit, s0, Asks(ip, 1), [Tick(59999)] + (Asks(ip, limit - 1) + ([Tick(1)] + Asks(ip, limit))));
    var t := t0 + 1;
    assert InMinute(RL.At(s1.log, ip), t) == InMinute(RL.At(s0.log, ip), t);
    assert InMinute(RL.At(s3.log, ip), t) == InMinute(RL.At(s2.log, ip), t) + (limit - 1);
  }

  /** The header's promise of a sliding minute with at most `limit` grants holds for a limit of one only. */
  lemma SlidingMinuteIffLimitOne(limit: nat, t0: int)
    requires limit >= 1
    ensures limit == 1 <==>
            forall es, ip, t :: InMinute(RL.At(Run(limit, Start(t0), es).log, ip), t) <= limit
  {
    forall es, ip, t ensures InMinute(RL.At(Run(limit, Start(t0), es).log, ip), t) <= 2 * limit - 1 {
      MinuteBound(limit, t0, es, ip, t);
    }
    BurstAttains(limit, t0, "a");
    assert InMinute(RL.At(Run(limit, Start(t0), Burst(limit, "a")).log, "a"), t0 + 1) == 2 * limit - 1;
  }

  // ---------------------------------------------------------------- denials

  /**
   * A denial names the least whole number of seconds, between 1 and 60, after which the address is served
   * again; denied requests in between change nothing.
   */
  lemma RetryAfterIsExact(limit: nat, e: Option<Entry>, now: int, later: nat)
    requires limit >= 1 && (e.Some? ==> e.value.windowStart <= now)
    requires !DoCheck(limit, e, now).1.allowed
    ensures var (e1, r) := DoCheck(limit, e, now);
            && 1 <= r.retryAfter <= 60
            && Some(e1) == e
            && (later >= 1000 * r.retryAfter ==> DoCheck(limit, e, now + later).1.allowed)
            && (later <= 1000 * (r.retryAfter - 1) ==> !DoCheck(limit, e, now + later).1.allowed)
  {
  }

  /** Only a denial asks to retry, and a grant is counted in the window it falls in. */
  lemma GrantCounts(limit: nat, e: Option<Entry>, now: int)
    requires DoCheck(limit, e, now).1.allowed
    ensures var (e1, r) := DoCheck(limit, e, now);
            && r.retryAfter == 0
            && (if e.Some? && now - e.value.windowStart < 60000
                then e1 == e.value.(count := e.value.count + 1)
                else e1 == Entry(1, now))
  {
  }
}
