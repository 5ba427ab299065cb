/**
 * The LLM fallback dispatcher of lib/llm/index.js. Clock times are integers in milliseconds; how long a
 * semaphore wait or a provider call takes, and how it ends, is decided by an arbitrary environment.
 */
module Dispatcher {
  import opened Options

  datatype Provider = Provider(name: string, timeoutMs: Option<int>)

  datatype Deps = Deps(
    startedAt: Option<int>,
    chainTimeoutMs: int,
    concurrency: bool,
    waitMs: int,
    optionTimeoutMs: Option<int>,
    defaultTimeoutMs: Option<int>)

  datatype Waited = Granted(at: int) | TimedOut(at: int)

  datatype Reply<+V> = Answer(value: V, at: int) | Refusal(message: string, at: int)

  /** Outcomes by position in the chain, start time and the timeout handed over. */
  datatype Env<!V> = Env(wait: (nat, int, int) -> Waited, call: (nat, int, Option<int>) -> Reply<V>)

  datatype Event =
    | Attempt(i: nat)
    | Wait(i: nat, at: int, capMs: int)
    | GaveUp(i: nat, from: int, at: int)
    | Acquire(i: nat)
    | Call(i: nat, at: int, timeoutMs: Option<int>)
    | Success(i: nat)
    | Failure(i: nat)
    | Release(i: nat)

  datatype Note = DeadlineExceeded | WaitTimeout(i: nat) | TooLateToCall(i: nat) | ProviderError(i: nat, message: string)

  datatype Outcome<+V> = Value(value: V, provider: nat) | AllFailed(notes: seq<Note>) | NoProvider

  datatype Next<+V> = Return(value: V) | Continue | Break

  /** One pass through the loop body: what it logged, when it ended, what it noted and where it goes next. */
  datatype Turn<+V> = Turn(log: seq<Event>, at: int, note: Option<Note>, next: Next<V>)

  datatype Run<+V> = Run(outcome: Outcome<V>, log: seq<Event>, end: int, cutWaiting: bool)

  function Remaining(d: Deps, now: int): Option<int> {
    if d.chainTimeoutMs > 0 && d.startedAt.Some? then Some(d.chainTimeoutMs - (now - d.startedAt.value)) else None
  }

  predicate OutOfTime(d: Deps, now: int) {
    Remaining(d, now).Some? && Remaining(d, now).value <= 0
  }

  function Configured(d: Deps, p: Provider): Option<int> {
    if d.optionTimeoutMs.Some? then d.optionTimeoutMs
    else if p.timeoutMs.Some? then p.timeoutMs
    else d.defaultTimeoutMs
  }

  function TimeoutCap(d: Deps, p: Provider, remaining: Option<int>): Option<int> {
    var configured := Configured(d, p);
    if remaining.None? then configured
    else Some(Max(1, Min(if configured.Some? then configured.value else remaining.value, remaining.value)))
  }

  function WaitCap(d: Deps, now: int): int {
    var rem := Remaining(d, now);
    if rem.None? then d.waitMs else Max(1, Min(d.waitMs, rem.value))
  }

  function CallTurn<V>(env: Env<V>, d: Deps, p: Provider, i: nat, now: int): Turn<V> {
    var ms := TimeoutCap(d, p, Remaining(d, now));
    match env.call(i, now, ms)
    case Answer(v, at) => Turn([Call(i, now, ms), Success(i)], at, None, Return(v))
    case Refusal(m, at) => Turn([Call(i, now, ms), Failure(i)], at, Some(ProviderError(i, m)), Continue)
  }

  function TakeTurn<V>(env: Env<V>, d: Deps, p: Provider, i: nat, now: int): Turn<V> {
    if OutOfTime(d, now) then Turn([], now, Some(DeadlineExceeded), Break)
    else if !d.concurrency then
      var t := CallTurn(env, d, p, i, now);
      t.(log := [Attempt(i)] + t.log)
    else
      var wait := Wait(i, now, WaitCap(d, now));
      match env.wait(i, now, wait.capMs)
      case TimedOut(at) =>
        if OutOfTime(d, at) then Turn([Attempt(i), wait, GaveUp(i, now, at)], at, Some(DeadlineExceeded), Break)
        else Turn([Attempt(i), wait, GaveUp(i, now, at), Failure(i)], at, Some(WaitTimeout(i)), Continue)
      case Granted(at) =>
        if OutOfTime(d, at) then
          Turn([Attempt(i), wait, Acquire(i), Failure(i), Release(i)], at, Some(TooLateToCall(i)), Continue)
        else
          var t := CallTurn(env, d, p, i, at);
          t.(log := [Attempt(i), wait, Acquire(i)] + t.log + [Release(i)])
  }

  /** The chain from position `i` on, with `notes` already collected. */
  function From<V>(chain: seq<Provider>, env: Env<V>, d: Deps, i: nat, now: int, notes: seq<Note>): Run<V>
    requires i <= |chain|
    decreases |chain| - i
  {
    if i == |chain| then Run(AllFailed(notes), [], now, false)
    else
      var t := TakeTurn(env, d, chain[i], i, now);
      var more := if t.note.Some? then notes + [t.note.value] else notes;
      match t.next
      case Return(v) => Run(Value(v, i), t.log, t.at, false)
      case Break => Run(AllFailed(more), t.log, t.at, t.log != [])
      case Continue =>
        var r := From(chain, env, d, i + 1, t.at, more);
        r.(log := t.log + r.log)
  }

  function Dispatch<V>(chain: seq<Provider>, env: Env<V>, d: Deps, now: int): Run<V> {
    if chain == [] then Run(NoProvider, [], now, false) else From(chain, env, d, 0, now, [])
  }

  /** One provider's turn after the deadline check; the slot is given back on every path that took it. */
  method TryProvider<V>(env: Env<V>, d: Deps, p: Provider, i: nat, now: int) returns (t: Turn<V>)
    requires !OutOfTime(d, now)
    ensures t == TakeTurn(env, d, p, i, now)
  {
    var rem := Remaining(d, now);
    var log := [Attempt(i)];
    if !d.concurrency {
      var ms := TimeoutCap(d, p, rem);
      log := log + [Call(i, now, ms)];
      var reply := env.call(i, now, ms);
      if reply.Answer? {
        return Turn(log + [Success(i)], reply.at, None, Return(reply.value));
      }
      return Turn(log + [Failure(i)], reply.at, Some(ProviderError(i, reply.message)), Continue);
    }
    var waitTimeoutMs := if rem.None? then d.waitMs else Max(1, Min(d.waitMs, rem.value));
    log := log + [Wait(i, now, waitTimeoutMs)];
    var w := env.wait(i, now, waitTimeoutMs);
    var postWait := Remaining(d, w.at);
    var late := postWait.Some? && postWait.value <= 0;
    if w.TimedOut? {
      log := log + [GaveUp(i, now, w.at)];
      if late {
        return Turn(log, w.at, Some(DeadlineExceeded), Break);
      }
      return Turn(log + [Failure(i)], w.at, Some(WaitTimeout(i)), Continue);
    }
    log := log + [Acquire(i)];
    var at := w.at;
    var note, next := None, Continue;
    if late {
      log := log + [Failure(i)];
      note := Some(TooLateToCall(i));
    } else {
      var ms := TimeoutCap(d, p, postWait);
      log := log + [Call(i, at, ms)];
      var reply := env.call(i, at, ms);
      at := reply.at;
      if reply.Answer? {
        log := log + [Success(i)];
        next := Return(reply.value);
      } else {
        log := log + [Failure(i)];
        note := Some(ProviderError(i, reply.message));
      }
    }
    log := log + [Release(i)];
    t := Turn(log, at, note, next);
  }

  function Prepend<V>(log: seq<Event>, r: Run<V>): Run<V> {
    r.(log := log + r.log)
  }

  /** One round of the loop, on a log already written. */
  lemma TurnUnfolds<V>(chain: seq<Provider>, env: Env<V>, d: Deps, i: nat, now: int, notes: seq<Note>, log: seq<Event>)
    requires i < |chain|
    ensures var t := TakeTurn(env, d, chain[i], i, now);
            var more := if t.note.Some? then notes + [t.note.value] else notes;
            Prepend(log, From(chain, env, d, i, now, notes)) ==
              match t.next
              case Return(v) => Run(Value(v, i), log + t.log, t.at, false)
              case Break => Run(AllFailed(more), log + t.log, t.at, t.log != [])
              case Continue => Prepend(log + t.log, From(chain, env, d, i + 1, t.at, more))
  {
    var t := TakeTurn(env, d, chain[i], i, now);
    var more := if t.note.Some? then notes + [t.note.value] else notes;
    if t.next.Continue? {
      var rest := From(chain, env, d, i + 1, t.at, more).log;
      assert log + (t.log + rest) == (log + t.log) + rest;
    }
  }

  lemma ChainEnds<V>(chain: seq<Provider>, env: Env<V>, d: Deps, now: int, notes: seq<Note>, log: seq<Event>)
    ensures Prepend(log, From(chain, env, d, |chain|, now, notes)) == Run(AllFailed(notes), log, now, false)
  {
    assert log + [] == log;
  }

  /** The loop over the chain. `cutWaiting` tells that the deadline passed during a slot wait. */
  method DispatchChain<V>(chain: seq<Provider>, env: Env<V>, d: Deps, start: int)
    returns (outcome: Outcome<V>, log: seq<Event>, end: int, cutWaiting: bool)
    ensures Run(outcome, log, end, cutWaiting) == Dispatch(chain, env, d, start)
    ensures outcome.NoProvider? <==> chain == []
  {
    hide From;
    hide CallTurn;
    log, end, cutWaiting := [], start, false;
    if |chain| == 0 {
      return NoProvider, log, end, cutWaiting;
    }
    ghost var goal := Dispatch(chain, env, d, start);
    var errors: seq<Note> := [];
    var i := 0;
    while i < |chain|
      invariant 0 <= i <= |chain|
      invariant goal == Prepend(log, From(chain, env, d, i, end, errors))
    {
      TurnUnfolds(chain, env, d, i, end, errors, log);
      var rem := Remaining(d, end);
      if rem.Some? && rem.value <= 0 {
        errors := errors + [DeadlineExceeded];
        assert log + [] == log;
        return AllFailed(errors), log, end, false;
      }
      var t := TryProvider(env, d, chain[i], i, end);
      log, end := log + t.log, t.at;
      if t.note.Some? {
        errors := errors + [t.note.value];
      }
      match t.next {
        case Return(v) => return Value(v, i), log, end, false;
        case Break => return AllFailed(errors), log, end, true;
        case Continue => i := i + 1;
      }
    }
    ChainEnds(chain, env, d, end, errors, log);
    outcome := AllFailed(errors);
  }

  // ---------------------------------------------------------------- the deadline

  /** Waits and calls end within the timeout they were handed. */
  ghost predicate Honest<V>(env: Env<V>) {
    && (forall i, t, ms :: ms >= 1 ==> t <= env.wait(i, t, ms).at <= t + ms)
    && (forall i, t, ms :: ms >= 1 ==> t <= env.call(i, t, Some(ms)).at <= t + ms)
  }

  ghost predicate CallsBefore(log: seq<Event>, deadline: int) {
    forall e :: e in log && e.Call? ==>
      e.at < deadline && e.timeoutMs.Some? && e.timeoutMs.value >= 1 && e.at + e.timeoutMs.value <= deadline
  }

  lemma TurnInTime<V>(env: Env<V>, d: Deps, p: Provider, i: nat, now: int)
    requires Honest(env) && d.chainTimeoutMs > 0 && d.startedAt.Some?
    ensures var deadline := d.startedAt.value + d.chainTimeoutMs;
            var t := TakeTurn(env, d, p, i, now);
            now <= t.at <= Max(now, deadline) && CallsBefore(t.log, deadline)
  {
    if !OutOfTime(d, now) && d.concurrency {
      var w := env.wait(i, now, WaitCap(d, now));
      assert now <= w.at <= d.startedAt.value + d.chainTimeoutMs;
    }
  }

  /** However long the chain and however its waits and calls end, dispatching is over by the deadline. */
  lemma {:induction false} FromInTime<V>(chain: seq<Provider>, env: Env<V>, d: Deps, i: nat, now: int, notes: seq<Note>)
    requires Honest(env) && d.chainTimeoutMs > 0 && d.startedAt.Some? && i <= |chain|
    ensures var deadline := d.startedAt.value + d.chainTimeoutMs;
            var r := From(chain, env, d, i, now, notes);
            now <= r.end <= Max(now, deadline) && CallsBefore(r.log, deadline)
    decreases |chain| - i
  {
    if i < |chain| {
      var t := TakeTurn(env, d, chain[i], i, now);
      TurnInTime(env, d, chain[i], i, now);
      if t.next.Continue? {
        FromInTime(chain, env, d, i + 1, t.at, if t.note.Some? then notes + [t.note.value] else notes);
      }
    }
  }

  lemma DispatchMeetsDeadline<V>(chain: seq<Provider>, env: Env<V>, d: Deps, start: int)
    requires Honest(env) && d.chainTimeoutMs > 0 && d.startedAt.Some?
    requires start <= d.startedAt.value + d.chainTimeoutMs
    ensures var r := Dispatch(chain, env, d, start);
            r.end <= d.startedAt.value + d.chainTimeoutMs && CallsBefore(r.log, d.startedAt.value + d.chainTimeoutMs)
  {
    if chain != [] {
      FromInTime(chain, env, d, 0, start, []);
    }
  }

  /** What is left of the chain's time at `at`, if it is limited. */
  function Left(d: Deps, at: int): Option<int> {
    if d.chainTimeoutMs > 0 && d.startedAt.Some? then Some(d.startedAt.value + d.chainTimeoutMs - at) else None
  }

  /**
   * The request's timeout wins over the provider's and that over the default. It is handed over whole when it
   * ends before the deadline; otherwise, or without one, the call gets what is left.
   */
  predicate WellTimed(d: Deps, p: Provider, e: Event)
    requires e.Call?
  {
    var left := Left(d, e.at);
    var want := match (d.optionTimeoutMs, p.timeoutMs)
                case (Some(_), _) => d.optionTimeoutMs
                case (None, Some(_)) => p.timeoutMs
                case (None, None) => d.defaultTimeoutMs;
    if left.None? then e.timeoutMs == want
    else if want.Some? && 1 <= want.value <= left.value then e.timeoutMs == want
    else if want.Some? && want.value < 1 then e.timeoutMs == Some(1)
    else e.timeoutMs == left
  }

  /** A slot wait gets the configured time, cut to what is left of the chain and at least 1 ms when that is limited. */
  predicate WaitWellTimed(d: Deps, e: Event)
    requires e.Wait?
  {
    var left := Left(d, e.at);
    if left.None? || 1 <= d.waitMs <= left.value then e.capMs == d.waitMs
    else if d.waitMs < 1 then e.capMs == 1
    else e.capMs == left.value
  }

  /** Time is left, or unlimited. */
  predicate TimeLeft(d: Deps, at: int) {
    Left(d, at).Some? ==> Left(d, at).value > 0
  }

  lemma TurnCallWellTimed<V>(env: Env<V>, d: Deps, p: Provider, i: nat, now: int, e: Event)
    requires e in TakeTurn(env, d, p, i, now).log && e.Call?
    ensures e.i == i && TimeLeft(d, e.at) && WellTimed(d, p, e)
  {
  }

  /** Every call of a dispatch is made before the deadline with the timeout its configuration asks for. */
  lemma {:induction false} FromCallsWellTimed<V>(chain: seq<Provider>, env: Env<V>, d: Deps, i: nat, now: int, notes: seq<Note>, e: Event)
    requires i <= |chain| && e in From(chain, env, d, i, now, notes).log && e.Call?
    ensures e.i < |chain| && TimeLeft(d, e.at) && WellTimed(d, chain[e.i], e)
    decreases |chain| - i
  {
    hide TakeTurn, WellTimed, TimeLeft;
    var t := TakeTurn(env, d, chain[i], i, now);
    if e in t.log {
      TurnCallWellTimed(env, d, chain[i], i, now, e);
    } else {
      FromCallsWellTimed(chain, env, d, i + 1, t.at, if t.note.Some? then notes + [t.note.value] else notes, e);
    }
  }

  lemma TurnWaitWellTimed<V>(env: Env<V>, d: Deps, p: Provider, i: nat, now: int, e: Event)
    requires e in TakeTurn(env, d, p, i, now).log && e.Wait?
    ensures e.i == i && d.concurrency && TimeLeft(d, e.at) && WaitWellTimed(d, e)
  {
  }

  /** Every slot wait of a dispatch is started before the deadline with the time its configuration asks for. */
  lemma {:induction false} FromWaitsWellTimed<V>(chain: seq<Provider>, env: Env<V>, d: Deps, i: nat, now: int, notes: seq<Note>, e: Event)
    requires i <= |chain| && e in From(chain, env, d, i, now, notes).log && e.Wait?
    ensures e.i < |chain| && d.concurrency && TimeLeft(d, e.at) && WaitWellTimed(d, e)
    decreases |chain| - i
  {
    hide TakeTurn, WaitWellTimed, TimeLeft;
    var t := TakeTurn(env, d, chain[i], i, now);
    if e in t.log {
      TurnWaitWellTimed(env, d, chain[i], i, now, e);
    } else {
      FromWaitsWellTimed(chain, env, d, i + 1, t.at, if t.note.Some? then notes + [t.note.value] else notes, e);
    }
  }

  // ---------------------------------------------------------------- the time line

  /** Where a replayed dispatch is: at a time, in a slot wait, in a call, or off what really happened. */
  datatype Phase<+V> = At(t: int) | Waiting(i: nat, from: int, outcome: Waited) | Calling(i: nat, reply: Reply<V>) | Off

  /** One logged event against the environment: waits and calls start when the last one ended and end as it says. */
  function Watch<V>(env: Env<V>, e: Event, p: Phase<V>): Phase<V> {
    match e
    case Wait(i, at, ms) => if p.At? && p.t == at then Waiting(i, at, env.wait(i, at, ms)) else Off
    case GaveUp(i, from, at) =>
      if p.Waiting? && p.i == i && p.from == from && p.outcome == TimedOut(at) then At(at) else Off
    case Acquire(i) => if p.Waiting? && p.i == i && p.outcome.Granted? then At(p.outcome.at) else Off
    case Call(i, at, ms) => if p.At? && p.t == at then Calling(i, env.call(i, at, ms)) else Off
    case Success(i) => if p.Calling? && p.i == i && p.reply.Answer? then At(p.reply.at) else Off
    case Failure(i) => if p.Calling? && p.i == i && p.reply.Refusal? then At(p.reply.at) else if p.At? then p else Off
    case Attempt(_) => if p.At? then p else Off
    case Release(_) => if p.At? then p else Off
  }

  function WatchAll<V>(env: Env<V>, log: seq<Event>, p: Phase<V>): Phase<V> {
    if log == [] then p else WatchAll(env, log[1..], Watch(env, log[0], p))
  }

  lemma {:induction false} WatchAppend<V>(env: Env<V>, a: seq<Event>, b: seq<Event>, p: Phase<V>)
    ensures WatchAll(env, a + b, p) == WatchAll(env, b, WatchAll(env, a, p))
  {
    if a == [] {
      assert a + b == b;
    } else {
      assert (a + b)[1..] == a[1..] + b;
      WatchAppend(env, a[1..], b, Watch(env, a[0], p));
    }
  }

  lemma WatchTwo<V>(env: Env<V>, a: Event, b: Event, p: Phase<V>)
    ensures WatchAll(env, [a], p) == Watch(env, a, p)
    ensures WatchAll(env, [a, b], p) == Watch(env, b, Watch(env, a, p))
  {
    assert [a, b][1..] == [b] && [a][1..] == [] && [b][1..] == [];
    assert WatchAll(env, [b], Watch(env, a, p)) == Watch(env, b, Watch(env, a, p));
  }

  lemma CallTimeline<V>(env: Env<V>, d: Deps, p: Provider, i: nat, now: int)
    ensures var t := CallTurn(env, d, p, i, now); WatchAll(env, t.log, At(now)) == At(t.at)
  {
    var log := CallTurn(env, d, p, i, now).log;
    WatchTwo(env, log[0], log[1], At(now));
  }

  lemma TurnTimeline<V>(env: Env<V>, d: Deps, p: Provider, i: nat, now: int)
    ensures var t := TakeTurn(env, d, p, i, now); WatchAll(env, t.log, At(now)) == At(t.at)
  {
    var t := TakeTurn(env, d, p, i, now);
    if OutOfTime(d, now) {
    } else if !d.concurrency {
      var call := CallTurn(env, d, p, i, now).log;
      CallTimeline(env, d, p, i, now);
      WatchTwo(env, Attempt(i), Attempt(i), At(now));
      WatchAppend(env, [Attempt(i)], call, At(now));
    } else {
      WaitedTimeline(env, d, p, i, now);
    }
  }

  lemma GaveUpTimeline<V>(env: Env<V>, i: nat, now: int, ms: int, at: int)
    requires env.wait(i, now, ms) == TimedOut(at)
    ensures WatchAll(env, [Attempt(i), Wait(i, now, ms), GaveUp(i, now, at)], At(now)) == At(at)
    ensures WatchAll(env, [Attempt(i), Wait(i, now, ms), GaveUp(i, now, at), Failure(i)], At(now)) == At(at)
  {
    var started, p := [Attempt(i), Wait(i, now, ms)], Waiting(i, now, TimedOut(at));
    WatchTwo(env, started[0], started[1], At(now));
    WatchTwo(env, GaveUp(i, now, at), Failure(i), p);
    WatchAppend(env, started, [GaveUp(i, now, at)], At(now));
    WatchAppend(env, started, [GaveUp(i, now, at), Failure(i)], At(now));
    assert started + [GaveUp(i, now, at)] == [Attempt(i), Wait(i, now, ms), GaveUp(i, now, at)];
    assert started + [GaveUp(i, now, at), Failure(i)] == [Attempt(i), Wait(i, now, ms), GaveUp(i, now, at), Failure(i)];
  }

  /** Taking the slot, doing `work` with it, and giving it back. */
  lemma HeldTimeline<V>(env: Env<V>, i: nat, now: int, ms: int, at: int, work: seq<Event>, end: int)
    requires env.wait(i, now, ms) == Granted(at) && WatchAll(env, work, At(at)) == At(end)
    ensures WatchAll(env, [Attempt(i), Wait(i, now, ms), Acquire(i)] + work + [Release(i)], At(now)) == At(end)
  {
    var started, p := [Attempt(i), Wait(i, now, ms)], Waiting(i, now, Granted(at));
    var held := [Attempt(i), Wait(i, now, ms), Acquire(i)];
    WatchTwo(env, started[0], started[1], At(now));
    WatchTwo(env, Acquire(i), Acquire(i), p);
    assert started + [Acquire(i)] == held;
    WatchAppend(env, started, [Acquire(i)], At(now));
    WatchTwo(env, Release(i), Release(i), At(end));
    WatchAppend(env, held, work, At(now));
    WatchAppend(env, held + work, [Release(i)], At(now));
  }

  lemma WaitedTimeline<V>(env: Env<V>, d: Deps, p: Provider, i: nat, now: int)
    requires !OutOfTime(d, now) && d.concurrency
    ensures var t := TakeTurn(env, d, p, i, now); WatchAll(env, t.log, At(now)) == At(t.at)
  {
    var ms := WaitCap(d, now);
    match env.wait(i, now, ms)
    case TimedOut(at) => GaveUpTimeline(env, i, now, ms, at);
    case Granted(at) =>
      hide WatchAll;
      var call := CallTurn(env, d, p, i, at);
      CallTimeline(env, d, p, i, at);
      HeldTimeline(env, i, now, ms, at, call.log, call.at);
      FailureTimeline(env, i, at);
      HeldTimeline(env, i, now, ms, at, [Failure(i)], at);
      assert [Attempt(i), Wait(i, now, ms), Acquire(i)] + [Failure(i)] + [Release(i)]
             == [Attempt(i), Wait(i, now, ms), Acquire(i), Failure(i), Release(i)];
  }

  lemma FailureTimeline<V>(env: Env<V>, i: nat, at: int)
    ensures WatchAll(env, [Failure(i)], At(at)) == At(at)
  {
    WatchTwo(env, Failure(i), Failure(i), At(at));
  }

  /**
   * The log is what happened: each wait and call starts when the one before ended, is granted, times out, succeeds or
   * fails as the environment answers it, and the last one ends the dispatch.
   */
  lemma {:induction false} FromTimeline<V>(chain: seq<Provider>, env: Env<V>, d: Deps, i: nat, now: int, notes: seq<Note>)
    requires i <= |chain|
    ensures var r := From(chain, env, d, i, now, notes); WatchAll(env, r.log, At(now)) == At(r.end)
    decreases |chain| - i
  {
    hide TakeTurn;
    if i < |chain| {
      var t := TakeTurn(env, d, chain[i], i, now);
      TurnTimeline(env, d, chain[i], i, now);
      if t.next.Continue? {
        var more := if t.note.Some? then notes + [t.note.value] else notes;
        FromTimeline(chain, env, d, i + 1, t.at, more);
        WatchAppend(env, t.log, From(chain, env, d, i + 1, t.at, more).log, At(now));
      }
    }
  }

  // ---------------------------------------------------------------- the slots

  datatype Slot = Free | Held(i: nat) | Broken

  function Move(e: Event, slot: Slot, concurrency: bool): Slot {
    match e
    case GaveUp(_, _, _) => if slot.Free? then Free else Broken
    case Acquire(j) => if slot.Free? then Held(j) else Broken
    case Release(j) => if slot == Held(j) then Free else Broken
    case Call(j, _, _) => if slot == (if concurrency then Held(j) else Free) then slot else Broken
    case _ => slot
  }

  /** Replays a log: one slot at a time, released by its taker, no wait while holding one, no call without one when slots are on. */
  function Replay(log: seq<Event>, slot: Slot, concurrency: bool): Slot {
    if log == [] then slot else Replay(log[1..], Move(log[0], slot, concurrency), concurrency)
  }

  lemma {:induction false} ReplayAppend(a: seq<Event>, b: seq<Event>, slot: Slot, concurrency: bool)
    ensures Replay(a + b, slot, concurrency) == Replay(b, Replay(a, slot, concurrency), concurrency)
  {
    if a == [] {
      assert a + b == b;
    } else {
      assert (a + b)[1..] == a[1..] + b;
      ReplayAppend(a[1..], b, Move(a[0], slot, concurrency), concurrency);
    }
  }

  lemma ReplayTwo(a: Event, b: Event, slot: Slot, concurrency: bool)
    ensures Replay([a], slot, concurrency) == Move(a, slot, concurrency)
    ensures Replay([a, b], slot, concurrency) == Move(b, Move(a, slot, concurrency), concurrency)
  {
    assert [a, b][1..] == [b] && [a][1..] == [] && [b][1..] == [];
    assert Replay([b], Move(a, slot, concurrency), concurrency) == Move(b, Move(a, slot, concurrency), concurrency);
  }

  lemma TurnReplay<V>(env: Env<V>, d: Deps, p: Provider, i: nat, now: int)
    ensures Replay(TakeTurn(env, d, p, i, now).log, Free, d.concurrency) == Free
  {
    var log := TakeTurn(env, d, p, i, now).log;
    if OutOfTime(d, now) {
    } else if !d.concurrency {
      var c := CallTurn(env, d, p, i, now).log;
      ReplayAppend([Attempt(i)], c, Free, false);
      ReplayTwo(Attempt(i), Attempt(i), Free, false);
      ReplayTwo(c[0], c[1], Free, false);
    } else {
      WaitedReplay(env, d, p, i, now);
    }
  }

  lemma GaveUpReplay(i: nat, now: int, ms: int, at: int)
    ensures Replay([Attempt(i), Wait(i, now, ms), GaveUp(i, now, at)], Free, true) == Free
    ensures Replay([Attempt(i), Wait(i, now, ms), GaveUp(i, now, at), Failure(i)], Free, true) == Free
  {
    var started := [Attempt(i), Wait(i, now, ms)];
    ReplayTwo(started[0], started[1], Free, true);
    ReplayTwo(GaveUp(i, now, at), Failure(i), Free, true);
    ReplayAppend(started, [GaveUp(i, now, at)], Free, true);
    ReplayAppend(started, [GaveUp(i, now, at), Failure(i)], Free, true);
    assert started + [GaveUp(i, now, at)] == [Attempt(i), Wait(i, now, ms), GaveUp(i, now, at)];
    assert started + [GaveUp(i, now, at), Failure(i)] == [Attempt(i), Wait(i, now, ms), GaveUp(i, now, at), Failure(i)];
  }

  lemma HeldReplay(i: nat, now: int, ms: int, work: seq<Event>)
    requires Replay(work, Held(i), true) == Held(i)
    ensures Replay([Attempt(i), Wait(i, now, ms), Acquire(i)] + work + [Release(i)], Free, true) == Free
  {
    var started, held := [Attempt(i), Wait(i, now, ms)], [Attempt(i), Wait(i, now, ms), Acquire(i)];
    ReplayTwo(started[0], started[1], Free, true);
    assert started + [Acquire(i)] == held;
    ReplayTwo(Acquire(i), Acquire(i), Free, true);
    ReplayAppend(started, [Acquire(i)], Free, true);
    ReplayTwo(Release(i), Release(i), Held(i), true);
    ReplayAppend(held, work, Free, true);
    ReplayAppend(held + work, [Release(i)], Free, true);
  }

  lemma WaitedReplay<V>(env: Env<V>, d: Deps, p: Provider, i: nat, now: int)
    requires !OutOfTime(d, now) && d.concurrency
    ensures Replay(TakeTurn(env, d, p, i, now).log, Free, true) == Free
  {
    var ms := WaitCap(d, now);
    match env.wait(i, now, ms)
    case TimedOut(at) => GaveUpReplay(i, now, ms, at);
    case Granted(at) =>
      var call := CallTurn(env, d, p, i, at).log;
      ReplayTwo(call[0], call[1], Held(i), true);
      HeldReplay(i, now, ms, call);
      ReplayTwo(Failure(i), Failure(i), Held(i), true);
      HeldReplay(i, now, ms, [Failure(i)]);
      assert [Attempt(i), Wait(i, now, ms), Acquire(i)] + [Failure(i)] + [Release(i)]
             == [Attempt(i), Wait(i, now, ms), Acquire(i), Failure(i), Release(i)];
  }

  /** Every exit (value, deadline, exhausted chain) leaves no slot held, and none was released twice or untaken. */
  lemma {:induction false} FromFreesSlots<V>(chain: seq<Provider>, env: Env<V>, d: Deps, i: nat, now: int, notes: seq<Note>)
    requires i <= |chain|
    ensures Replay(From(chain, env, d, i, now, notes).log, Free, d.concurrency) == Free
    decreases |chain| - i
  {
    if i < |chain| {
      var t := TakeTurn(env, d, chain[i], i, now);
      TurnReplay(env, d, chain[i], i, now);
      if t.next.Continue? {
        var more := if t.note.Some? then notes + [t.note.value] else notes;
        FromFreesSlots(chain, env, d, i + 1, t.at, more);
        ReplayAppend(t.log, From(chain, env, d, i + 1, t.at, more).log, Free, d.concurrency);
      }
    }
  }

  /** The total weight of a log's events. */
  function Weigh(log: seq<Event>, w: Event -> int): int {
    if log == [] then 0 else w(log[0]) + Weigh(log[1..], w)
  }

  lemma {:induction false} WeighAppend(a: seq<Event>, b: seq<Event>, w: Event -> int)
    ensures Weigh(a + b, w) == Weigh(a, w) + Weigh(b, w)
  {
    if a == [] {
      assert a + b == b;
    } else {
      assert (a + b)[1..] == a[1..] + b;
      WeighAppend(a[1..], b, w);
    }
  }

  lemma WeighTwo(a: Event, b: Event, w: Event -> int)
    ensures Weigh([a], w) == w(a) && Weigh([a, b], w) == w(a) + w(b)
  {
    assert [a, b][1..] == [b] && [a][1..] == [] && [b][1..] == [];
  }

  /** A turn's events: one attempt, at most one of success and failure, and the slot's two ends together. */
  lemma TurnWeight<V>(env: Env<V>, d: Deps, p: Provider, i: nat, now: int, w: Event -> int)
    requires forall at, ms :: w(Call(i, at, ms)) == 0
    requires forall from, at :: w(GaveUp(i, from, at)) == 0
    requires forall at, ms :: w(Wait(i, at, ms)) == 0
    ensures var t := TakeTurn(env, d, p, i, now);
            Weigh(t.log, w) ==
              if t.log == [] then 0
              else w(Attempt(i))
                   + (if t.next.Return? then w(Success(i)) else if t.next.Continue? then w(Failure(i)) else 0)
                   + (if Acquire(i) in t.log then w(Acquire(i)) + w(Release(i)) else 0)
  {
    if OutOfTime(d, now) {
    } else if !d.concurrency {
      var c := CallTurn(env, d, p, i, now).log;
      WeighAppend([Attempt(i)], c, w);
      WeighTwo(Attempt(i), Attempt(i), w);
      WeighTwo(c[0], c[1], w);
    } else {
      WaitedWeight(env, d, p, i, now, w);
    }
  }

  lemma WaitedWeight<V>(env: Env<V>, d: Deps, p: Provider, i: nat, now: int, w: Event -> int)
    requires !OutOfTime(d, now) && d.concurrency
    requires forall at, ms :: w(Call(i, at, ms)) == 0
    requires forall from, at :: w(GaveUp(i, from, at)) == 0
    requires forall at, ms :: w(Wait(i, at, ms)) == 0
    ensures var t := TakeTurn(env, d, p, i, now);
            Weigh(t.log, w) ==
              w(Attempt(i))
              + (if t.next.Return? then w(Success(i)) else if t.next.Continue? then w(Failure(i)) else 0)
              + (if Acquire(i) in t.log then w(Acquire(i)) + w(Release(i)) else 0)
  {
    var wait := Wait(i, now, WaitCap(d, now));
    var o := env.wait(i, now, wait.capMs);
    var started := [Attempt(i), wait];
    WeighTwo(Attempt(i), wait, w);
    match o
    case TimedOut(at) =>
      WeighTwo(GaveUp(i, now, at), Failure(i), w);
      WeighAppend(started, [GaveUp(i, now, at)], w);
      WeighAppend(started, [GaveUp(i, now, at), Failure(i)], w);
      assert started + [GaveUp(i, now, at)] == [Attempt(i), wait, GaveUp(i, now, at)];
      assert started + [GaveUp(i, now, at), Failure(i)] == [Attempt(i), wait, GaveUp(i, now, at), Failure(i)];
    case Granted(at) =>
      var held := [Attempt(i), wait, Acquire(i)];
      assert started + [Acquire(i)] == held && held[2] == Acquire(i);
      WeighTwo(Acquire(i), Acquire(i), w);
      WeighAppend(started, [Acquire(i)], w);
      WeighTwo(Failure(i), Release(i), w);
      WeighAppend(held, [Failure(i), Release(i)], w);
      assert held + [Failure(i), Release(i)] == [Attempt(i), wait, Acquire(i), Failure(i), Release(i)];
      var c := CallTurn(env, d, p, i, at).log;
      WeighTwo(c[0], c[1], w);
      WeighTwo(Release(i), Release(i), w);
      WeighAppend(held, c, w);
      WeighAppend(held + c, [Release(i)], w);
  }

  function Only(e: Event): Event -> int {
    x => if x == e then 1 else 0
  }

  function Count(log: seq<Event>, e: Event): int {
    Weigh(log, Only(e))
  }

  lemma CountAppend(a: seq<Event>, b: seq<Event>, e: Event)
    ensures Count(a + b, e) == Count(a, e) + Count(b, e)
  {
    WeighAppend(a, b, Only(e));
  }

  lemma TurnSlotCounts<V>(env: Env<V>, d: Deps, p: Provider, i: nat, now: int, j: nat)
    ensures var log := TakeTurn(env, d, p, i, now).log;
            0 <= Count(log, Acquire(j)) == Count(log, Release(j)) <= Count(log, Attempt(j)) <= (if i == j then 1 else 0)
  {
    TurnWeight(env, d, p, i, now, Only(Acquire(j)));
    TurnWeight(env, d, p, i, now, Only(Release(j)));
    TurnWeight(env, d, p, i, now, Only(Attempt(j)));
  }

  /** Slot for slot: each provider's slot is taken at most once and given back exactly as often. */
  lemma {:induction false} FromSlotCounts<V>(chain: seq<Provider>, env: Env<V>, d: Deps, i: nat, now: int, notes: seq<Note>, j: nat)
    requires i <= |chain|
    ensures var log := From(chain, env, d, i, now, notes).log;
            0 <= Count(log, Acquire(j)) == Count(log, Release(j)) <= Count(log, Attempt(j)) <= (if i <= j < |chain| then 1 else 0)
    decreases |chain| - i
  {
    if i < |chain| {
      var t := TakeTurn(env, d, chain[i], i, now);
      hide TakeTurn;
      TurnSlotCounts(env, d, chain[i], i, now, j);
      if t.next.Continue? {
        var more := if t.note.Some? then notes + [t.note.value] else notes;
        FromSlotCounts(chain, env, d, i + 1, t.at, more, j);
        var rest := From(chain, env, d, i + 1, t.at, more).log;
        CountAppend(t.log, rest, Acquire(j));
        CountAppend(t.log, rest, Release(j));
        CountAppend(t.log, rest, Attempt(j));
      }
    }
  }

  // ---------------------------------------------------------------- the answer

  /** A turn only ever speaks of its own provider. */
  lemma TurnShape<V>(env: Env<V>, d: Deps, p: Provider, i: nat, now: int)
    ensures var t := TakeTurn(env, d, p, i, now);
            && (forall e :: e in t.log ==> e.i == i)
            && (Success(i) in t.log <==> t.next.Return?) && (Failure(i) in t.log <==> t.next.Continue?)
            && (t.log != [] ==> t.log[0] == Attempt(i)) && (t.log == [] ==> t.next.Break?)
            && (t.next.Return? ==>
                  exists at, ms :: Call(i, at, ms) in t.log && env.call(i, at, ms) == Answer(t.next.value, t.at))
  {
    var t := TakeTurn(env, d, p, i, now);
    if t.next.Return? {
      var at := if d.concurrency then env.wait(i, now, WaitCap(d, now)).at else now;
      assert Call(i, at, TimeoutCap(d, p, Remaining(d, at))) in t.log;
    }
  }

  lemma TurnEvents<V>(env: Env<V>, d: Deps, p: Provider, i: nat, now: int, j: nat)
    ensures var t := TakeTurn(env, d, p, i, now);
            && (Success(j) in t.log <==> j == i && t.next.Return?)
            && (Failure(j) in t.log <==> j == i && t.next.Continue?)
            && (Attempt(j) in t.log <==> j == i && t.log != [])
            && (t.log == [] ==> t.next.Break? && d.chainTimeoutMs > 0)
            && (t.next.Break? ==> d.chainTimeoutMs > 0)
  {
    BreakHasDeadline(env, d, p, i, now);
    TurnShape(env, d, p, i, now);
    hide TakeTurn;
  }

  lemma BreakHasDeadline<V>(env: Env<V>, d: Deps, p: Provider, i: nat, now: int)
    ensures TakeTurn(env, d, p, i, now).next.Break? ==> d.chainTimeoutMs > 0
  {
  }

  /** What the log says of provider `j` when the chain of `n` providers was run from position `i`. */
  ghost predicate TellsOf<V>(r: Run<V>, d: Deps, i: nat, n: nat, j: nat) {
    match r.outcome
    case Value(v, k) =>
      && i <= k < n
      && (Success(j) in r.log <==> j == k)
      && (Failure(j) in r.log <==> i <= j < k)
      && (Attempt(j) in r.log <==> i <= j <= k)
    case _ =>
      && Success(j) !in r.log
      && (Failure(j) in r.log ==> i <= j < n)
      && (d.chainTimeoutMs <= 0 && i <= j < n ==> Failure(j) in r.log)
  }

  /**
   * The answer is the first success in chain order: every provider before it failed, none after it was
   * tried. Without a chain timeout, failing altogether means every provider was tried and failed.
   */
  lemma {:induction false} FromEarliestSuccess<V>(chain: seq<Provider>, env: Env<V>, d: Deps, i: nat, now: int, notes: seq<Note>, j: nat)
    requires i <= |chain|
    ensures TellsOf(From(chain, env, d, i, now, notes), d, i, |chain|, j)
    decreases |chain| - i
  {
    if i < |chain| {
      var t := TakeTurn(env, d, chain[i], i, now);
      TurnEvents(env, d, chain[i], i, now, j);
      if t.next.Continue? {
        var more := if t.note.Some? then notes + [t.note.value] else notes;
        FromEarliestSuccess(chain, env, d, i + 1, t.at, more, j);
        PrependTells(t.log, From(chain, env, d, i + 1, t.at, more), d, i, |chain|, j);
      }
    }
  }

  lemma PrependTells<V>(log: seq<Event>, r: Run<V>, d: Deps, i: nat, n: nat, j: nat)
    requires i < n && TellsOf(r, d, i + 1, n, j)
    requires Success(j) !in log && (Failure(j) in log <==> j == i) && (Attempt(j) in log <==> j == i)
    ensures TellsOf(Prepend(log, r), d, i, n, j)
  {
  }

  /** The value returned is the reply to a call the log records, and the dispatcher ends with that reply. */
  lemma {:induction false} FromAnswers<V>(chain: seq<Provider>, env: Env<V>, d: Deps, i: nat, now: int, notes: seq<Note>)
    requires i <= |chain|
    ensures var r := From(chain, env, d, i, now, notes);
            r.outcome.Value? ==>
              exists at, ms :: Call(r.outcome.provider, at, ms) in r.log
                               && env.call(r.outcome.provider, at, ms) == Answer(r.outcome.value, r.end)
    decreases |chain| - i
  {
    if i < |chain| {
      var t := TakeTurn(env, d, chain[i], i, now);
      TurnShape(env, d, chain[i], i, now);
      if t.next.Continue? {
        FromAnswers(chain, env, d, i + 1, t.at, if t.note.Some? then notes + [t.note.value] else notes);
      }
    }
  }

  // ---------------------------------------------------------------- the counters

  function Net(e: Event): int {
    match e
    case Attempt(_) => 1
    case Success(_) => -1
    case Failure(_) => -1
    case _ => 0
  }

  /** Attempts minus successes minus failures. */
  function Tally(log: seq<Event>): int {
    Weigh(log, Net)
  }

  lemma TallyAppend(a: seq<Event>, b: seq<Event>)
    ensures Tally(a + b) == Tally(a) + Tally(b) && Tally([]) == 0
  {
    WeighAppend(a, b, Net);
  }

  lemma TurnTally<V>(env: Env<V>, d: Deps, p: Provider, i: nat, now: int)
    ensures var t := TakeTurn(env, d, p, i, now);
            && Tally(t.log) == (if t.next.Break? && t.log != [] then 1 else 0)
            && (t.log == [] ==> t.next.Break?)
  {
    hide TakeTurn;
    TurnWeight(env, d, p, i, now, Net);
    TurnEvents(env, d, p, i, now, i);
  }

  /** Attempts exceed successes plus failures by one when a slot wait was cut short, and never otherwise. */
  lemma {:induction false} FromTally<V>(chain: seq<Provider>, env: Env<V>, d: Deps, i: nat, now: int, notes: seq<Note>)
    requires i <= |chain|
    ensures var r := From(chain, env, d, i, now, notes); Tally(r.log) == if r.cutWaiting then 1 else 0
    decreases |chain| - i
  {
    hide TakeTurn, Tally;
    if i < |chain| {
      var t := TakeTurn(env, d, chain[i], i, now);
      TurnTally(env, d, chain[i], i, now);
      if t.next.Continue? {
        var more := if t.note.Some? then notes + [t.note.value] else notes;
        FromTally(chain, env, d, i + 1, t.at, more);
        TallyAppend(t.log, From(chain, env, d, i + 1, t.at, more).log);
      }
    } else {
      TallyAppend([], []);
    }
  }

  /** A slot wait that timed out at or after the deadline. */
  predicate Fatal(d: Deps, e: Event) {
    e.GaveUp? && !TimeLeft(d, e.at)
  }

  /** A logged wait did time out as logged; unless it was fatal the provider failed, if it was nothing comes after it. */
  ghost predicate WaitAsLogged<V>(env: Env<V>, d: Deps, r: Run<V>, e: Event)
    requires e.GaveUp?
  {
    && d.concurrency
    && (exists ms :: Wait(e.i, e.from, ms) in r.log && env.wait(e.i, e.from, ms) == TimedOut(e.at))
    && (if Fatal(d, e)
        then r.cutWaiting && r.end == e.at && r.log != [] && r.log[|r.log| - 1] == e
        else Failure(e.i) in r.log)
  }

  lemma TurnWait<V>(env: Env<V>, d: Deps, p: Provider, i: nat, now: int, e: Event)
    requires e in TakeTurn(env, d, p, i, now).log && e.GaveUp?
    ensures var t := TakeTurn(env, d, p, i, now);
            && d.concurrency
            && (exists ms :: Wait(e.i, e.from, ms) in t.log && env.wait(e.i, e.from, ms) == TimedOut(e.at))
            && (if Fatal(d, e) then t.next.Break? && t.at == e.at && t.log[|t.log| - 1] == e else Failure(e.i) in t.log)
  {
    assert Wait(i, now, WaitCap(d, now)) in TakeTurn(env, d, p, i, now).log;
  }

  lemma {:induction false} FromWaits<V>(chain: seq<Provider>, env: Env<V>, d: Deps, i: nat, now: int, notes: seq<Note>, e: Event)
    requires i <= |chain| && e in From(chain, env, d, i, now, notes).log && e.GaveUp?
    ensures WaitAsLogged(env, d, From(chain, env, d, i, now, notes), e)
    decreases |chain| - i
  {
    hide TakeTurn;
    var t := TakeTurn(env, d, chain[i], i, now);
    if e in t.log {
      TurnWait(env, d, chain[i], i, now, e);
    } else {
      FromWaits(chain, env, d, i + 1, t.at, if t.note.Some? then notes + [t.note.value] else notes, e);
    }
  }

  lemma TurnBreaks<V>(env: Env<V>, d: Deps, p: Provider, i: nat, now: int)
    ensures var t := TakeTurn(env, d, p, i, now);
            t.next.Break? && t.log != [] ==> Fatal(d, t.log[|t.log| - 1])
  {
  }

  /** Being cut short, the dispatch ends with the fatal wait. */
  lemma {:induction false} CutEndsLog<V>(chain: seq<Provider>, env: Env<V>, d: Deps, i: nat, now: int, notes: seq<Note>)
    requires i <= |chain|
    ensures var r := From(chain, env, d, i, now, notes);
            r.cutWaiting ==> r.log != [] && Fatal(d, r.log[|r.log| - 1])
    decreases |chain| - i
  {
    if i < |chain| {
      var t := TakeTurn(env, d, chain[i], i, now);
      TurnBreaks(env, d, chain[i], i, now);
      if t.next.Continue? {
        CutEndsLog(chain, env, d, i + 1, t.at, if t.note.Some? then notes + [t.note.value] else notes);
      }
    }
  }

  /** A dispatch counts as cut short exactly when one of its slot waits timed out at or after the deadline. */
  lemma FromCutWaiting<V>(chain: seq<Provider>, env: Env<V>, d: Deps, i: nat, now: int, notes: seq<Note>)
    requires i <= |chain|
    ensures var r := From(chain, env, d, i, now, notes);
            r.cutWaiting <==> exists e :: e in r.log && Fatal(d, e)
  {
    var r := From(chain, env, d, i, now, notes);
    hide From, TakeTurn;
    CutEndsLog(chain, env, d, i, now, notes);
    assert r.log == [] || r.log[|r.log| - 1] in r.log;
    if e :| e in r.log && Fatal(d, e) {
      FromWaits(chain, env, d, i, now, notes, e);
    }
  }

  /** So the counters are off by one exactly after a wait that timed out at or after the deadline. */
  lemma TallyIffFatalWait<V>(chain: seq<Provider>, env: Env<V>, d: Deps, start: int)
    ensures var log := Dispatch(chain, env, d, start).log;
            Tally(log) == if exists e :: e in log && Fatal(d, e) then 1 else 0
  {
    if chain != [] {
      FromTally(chain, env, d, 0, start, []);
      FromCutWaiting(chain, env, d, 0, start, []);
    }
  }

  // ---------------------------------------------------------------- the error message

  function About(n: Note): Option<nat> {
    match n
    case DeadlineExceeded => None
    case WaitTimeout(i) => Some(i)
    case TooLateToCall(i) => Some(i)
    case ProviderError(i, _) => Some(i)
  }

  ghost predicate Names(notes: seq<Note>, j: nat) {
    exists n :: n in notes && About(n) == Some(j)
  }

  lemma NamesAppend(notes: seq<Note>, n: Note, j: nat)
    ensures Names(notes + [n], j) <==> Names(notes, j) || About(n) == Some(j)
  {
    if Names(notes, j) {
      var m :| m in notes && About(m) == Some(j);
      assert m in notes + [n];
    }
    assert n in notes + [n];
  }

  /** When everything failed, the error names exactly the providers that failed, and a deadline only when it passed. */
  lemma {:induction false} FromNotes<V>(chain: seq<Provider>, env: Env<V>, d: Deps, i: nat, now: int, notes: seq<Note>, j: nat)
    requires i <= |chain|
    ensures var r := From(chain, env, d, i, now, notes);
            r.outcome.AllFailed? ==>
              && notes <= r.outcome.notes
              && (Names(r.outcome.notes, j) <==> Names(notes, j) || Failure(j) in r.log)
              && (DeadlineExceeded in r.outcome.notes ==> DeadlineExceeded in notes || !TimeLeft(d, r.end))
    decreases |chain| - i
  {
    if i < |chain| {
      var t := TakeTurn(env, d, chain[i], i, now);
      TurnEvents(env, d, chain[i], i, now, j);
      TurnNote(env, d, chain[i], i, now);
      if t.note.Some? {
        NamesAppend(notes, t.note.value, j);
        if t.next.Continue? {
          FromNotes(chain, env, d, i + 1, t.at, notes + [t.note.value], j);
        }
      }
    }
  }

  lemma TurnNote<V>(env: Env<V>, d: Deps, p: Provider, i: nat, now: int)
    ensures var t := TakeTurn(env, d, p, i, now);
            && (t.note.Some? <==> !t.next.Return?)
            && (t.note.Some? ==> About(t.note.value) == if t.next.Continue? then Some(i) else None)
            && (t.next.Break? ==> !TimeLeft(d, t.at))
  {
  }

  /** What a note says happened, did: the refusal it quotes, the wait it blames, the deadline that passed in a wait. */
  ghost predicate NoteTrue<V>(env: Env<V>, d: Deps, log: seq<Event>, n: Note) {
    match n
    case DeadlineExceeded => true
    case WaitTimeout(i) => exists from, at :: GaveUp(i, from, at) in log && TimeLeft(d, at)
    case TooLateToCall(i) =>
      exists from, ms :: Wait(i, from, ms) in log && env.wait(i, from, ms).Granted? && !TimeLeft(d, env.wait(i, from, ms).at)
    case ProviderError(i, m) =>
      exists at, ms :: Call(i, at, ms) in log && env.call(i, at, ms).Refusal? && env.call(i, at, ms).message == m
  }

  lemma TurnNoteTrue<V>(env: Env<V>, d: Deps, p: Provider, i: nat, now: int)
    ensures var t := TakeTurn(env, d, p, i, now); t.note.Some? ==> NoteTrue(env, d, t.log, t.note.value)
  {
    var t := TakeTurn(env, d, p, i, now);
    if t.note.Some? && !t.note.value.DeadlineExceeded? {
      if d.concurrency {
        var ms := WaitCap(d, now);
        var w := env.wait(i, now, ms);
        assert Wait(i, now, ms) in t.log;
        if w.TimedOut? { assert GaveUp(i, now, w.at) in t.log; }
        if t.note.value.ProviderError? { assert Call(i, w.at, TimeoutCap(d, p, Remaining(d, w.at))) in t.log; }
      } else {
        assert Call(i, now, TimeoutCap(d, p, Remaining(d, now))) in t.log;
      }
    }
  }

  lemma NoteStaysTrue<V>(env: Env<V>, d: Deps, a: seq<Event>, b: seq<Event>, n: Note)
    ensures NoteTrue(env, d, a, n) || NoteTrue(env, d, b, n) ==> NoteTrue(env, d, a + b, n)
  {
  }

  /** Every reason the final error gives is true of the log. */
  lemma {:induction false} FromNotesTrue<V>(chain: seq<Provider>, env: Env<V>, d: Deps, i: nat, now: int, notes: seq<Note>, n: Note)
    requires i <= |chain|
    ensures var r := From(chain, env, d, i, now, notes);
            r.outcome.AllFailed? && n in r.outcome.notes && n !in notes ==> NoteTrue(env, d, r.log, n)
    decreases |chain| - i
  {
    hide TakeTurn, NoteTrue;
    if i < |chain| {
      var t := TakeTurn(env, d, chain[i], i, now);
      TurnNoteTrue(env, d, chain[i], i, now);
      if t.next.Continue? {
        var more := if t.note.Some? then notes + [t.note.value] else notes;
        FromNotesTrue(chain, env, d, i + 1, t.at, more, n);
        NoteStaysTrue(env, d, t.log, From(chain, env, d, i + 1, t.at, more).log, n);
      }
    }
  }
}
