/**
 * Dispatches running at the same time and sharing the semaphores of lib/llm/util/semaphore.js. Each dispatch has the
 * log its environment gives it; a schedule decides whose next event happens when, as far as the semaphores permit.
 */
module Slots {
  import opened Options
  import opened Semaphores
  import D = Dispatcher

  type Key = string

  /** A dispatch: what it does, and the semaphore key of each provider in its chain. */
  datatype Job = Job(log: seq<D.Event>, key: nat -> Key)

  /**
   * How far each dispatch is, who has asked for a slot and not yet seen the outcome, and the semaphores made so far.
   * `asked` numbers the asks: the latest of each dispatch has its place among all `asks` made.
   */
  datatype World = World(pos: map<Ticket, nat>, asking: set<Ticket>, sems: map<Key, Sem>, asked: map<Ticket, nat>, asks: nat)

  /** A dispatch asks for the slot it is about to take or to give up on, or does its next logged event. */
  datatype Event = Ask(t: Ticket) | Advance(t: Ticket)

  /** A semaphore is made at its first use, with the limit of its key. */
  function SemOf(limits: Key -> int, w: World, k: Key): Sem {
    if k in w.sems then w.sems[k] else Sem(limits(k), {}, [])
  }

  predicate Running(jobs: map<Ticket, Job>, w: World, t: Ticket) {
    t in jobs && t in w.pos && w.pos[t] < |jobs[t].log|
  }

  function NextOf(jobs: map<Ticket, Job>, w: World, t: Ticket): D.Event
    requires Running(jobs, w, t)
  {
    jobs[t].log[w.pos[t]]
  }

  predicate Asks(e: D.Event) {
    e.Acquire? || e.GaveUp?
  }

  predicate Enabled(jobs: map<Ticket, Job>, limits: Key -> int, w: World, e: Event) {
    Running(jobs, w, e.t) &&
    var x := NextOf(jobs, w, e.t);
    var s := SemOf(limits, w, jobs[e.t].key(x.i));
    match e
    case Ask(t) => Asks(x) && t !in w.asking
    case Advance(t) =>
      && (x.Acquire? ==> t in w.asking && t in s.holders)
      && (x.GaveUp? ==> t in w.asking && t in s.waiters)
  }

  function Step(jobs: map<Ticket, Job>, limits: Key -> int, w: World, e: Event): World
    requires Enabled(jobs, limits, w, e)
  {
    var x := NextOf(jobs, w, e.t);
    var k := jobs[e.t].key(x.i);
    var s := SemOf(limits, w, k);
    match e
    case Ask(t) =>
      World(w.pos, w.asking + {t}, w.sems[k := DoAcquire(s, t)], w.asked[t := w.asks], w.asks + 1)
    case Advance(t) =>
      var pos := w.pos[t := w.pos[t] + 1];
      match x
      case Acquire(_) => w.(pos := pos, asking := w.asking - {t})
      case GaveUp(_, _, _) => w.(pos := pos, asking := w.asking - {t}, sems := w.sems[k := DoTimeOut(s, t)])
      case Release(_) => w.(pos := pos, sems := w.sems[k := DoRelease(s, t)])
      case _ => w.(pos := pos)
  }

  predicate Allowed(jobs: map<Ticket, Job>, limits: Key -> int, w: World, es: seq<Event>)
    decreases |es|
  {
    es == [] || (Enabled(jobs, limits, w, es[0]) && Allowed(jobs, limits, Step(jobs, limits, w, es[0]), es[1..]))
  }

  function Run(jobs: map<Ticket, Job>, limits: Key -> int, w: World, es: seq<Event>): World
    requires Allowed(jobs, limits, w, es)
    decreases |es|
  {
    if es == [] then w else Run(jobs, limits, Step(jobs, limits, w, es[0]), es[1..])
  }

  function Start(jobs: map<Ticket, Job>): World {
    World(map t | t in jobs :: 0, {}, map[], map[], 0)
  }

  /** The slot a dispatch has according to its own log. */
  function SlotOf(jobs: map<Ticket, Job>, w: World, t: Ticket): D.Slot
    requires t in jobs && t in w.pos && w.pos[t] <= |jobs[t].log|
  {
    D.Replay(jobs[t].log[..w.pos[t]], D.Free, true)
  }

  /** Every dispatch with slots on is one of these jobs. */
  predicate Balanced(j: Job) {
    D.Replay(j.log, D.Free, true) == D.Free
  }

  lemma DispatchBalanced<V>(chain: seq<D.Provider>, env: D.Env<V>, d: D.Deps, start: int, key: nat -> Key)
    requires d.concurrency
    ensures Balanced(Job(D.Dispatch(chain, env, d, start).log, key))
  {
    if chain != [] {
      D.FromFreesSlots(chain, env, d, 0, start, []);
    }
  }

  lemma {:induction false} BrokenStays(log: seq<D.Event>)
    ensures D.Replay(log, D.Broken, true) == D.Broken
  {
    if log != [] {
      BrokenStays(log[1..]);
    }
  }

  /** Halfway through a balanced log nothing has gone wrong yet. */
  lemma PrefixSound(j: Job, n: nat)
    requires Balanced(j) && n <= |j.log|
    ensures D.Replay(j.log[..n], D.Free, true) != D.Broken
  {
    assert j.log == j.log[..n] + j.log[n..];
    D.ReplayAppend(j.log[..n], j.log[n..], D.Free, true);
    BrokenStays(j.log[n..]);
  }

  lemma SlotMoves(j: Job, n: nat)
    requires n < |j.log|
    ensures D.Replay(j.log[..n + 1], D.Free, true) == D.Move(j.log[n], D.Replay(j.log[..n], D.Free, true), true)
  {
    assert j.log[..n + 1] == j.log[..n] + [j.log[n]];
    D.ReplayAppend(j.log[..n], [j.log[n]], D.Free, true);
    D.ReplayTwo(j.log[n], j.log[n], D.Replay(j.log[..n], D.Free, true), true);
  }

  // ---------------------------------------------------------------- the invariant

  /** A dispatch is inside its log, and asks only where the log takes or gives up a slot, holding none. */
  predicate PlaceOk(jobs: map<Ticket, Job>, w: World, t: Ticket) {
    && t in jobs && t in w.pos && w.pos[t] <= |jobs[t].log| && SlotOf(jobs, w, t) != D.Broken
    && (t in w.asking ==> Running(jobs, w, t) && Asks(NextOf(jobs, w, t)) && SlotOf(jobs, w, t) == D.Free)
  }

  /** The one key whose semaphore a dispatch may be found at. */
  function Target(jobs: map<Ticket, Job>, w: World, t: Ticket): Option<Key>
    requires PlaceOk(jobs, w, t)
  {
    if SlotOf(jobs, w, t).Held? then Some(jobs[t].key(SlotOf(jobs, w, t).i))
    else if t in w.asking then Some(jobs[t].key(NextOf(jobs, w, t).i))
    else None
  }

  /** Semaphore `k` knows dispatch `t` exactly when that is `t`'s target: as a holder, or asking, as a waiter. */
  predicate ClaimOk(jobs: map<Ticket, Job>, limits: Key -> int, w: World, t: Ticket, k: Key)
    requires PlaceOk(jobs, w, t)
  {
    var s := SemOf(limits, w, k);
    && (t in s.holders || t in s.waiters <==> Target(jobs, w, t) == Some(k))
    && (t in s.waiters ==> t in w.asking)
  }

  ghost predicate SemOk(jobs: map<Ticket, Job>, limits: Key -> int, w: World, k: Key) {
    var s := SemOf(limits, w, k);
    Sound(s) && s.limit == limits(k) && (forall t :: t in s.holders || t in s.waiters ==> t in jobs)
  }

  ghost predicate Inv(jobs: map<Ticket, Job>, limits: Key -> int, w: World) {
    && w.asking <= jobs.Keys
    && (forall t :: t in jobs ==> PlaceOk(jobs, w, t))
    && (forall k :: SemOk(jobs, limits, w, k))
    && forall t, k :: t in jobs ==> ClaimOk(jobs, limits, w, t, k)
  }

  ghost predicate AllBalanced(jobs: map<Ticket, Job>) {
    forall t :: t in jobs ==> Balanced(jobs[t])
  }

  lemma OwnPlaceOk(jobs: map<Ticket, Job>, limits: Key -> int, w: World, e: Event)
    requires PlaceOk(jobs, w, e.t) && Balanced(jobs[e.t]) && Enabled(jobs, limits, w, e)
    ensures var v := Step(jobs, limits, w, e);
            && PlaceOk(jobs, v, e.t)
            && SlotOf(jobs, v, e.t) ==
                 if e.Ask? then SlotOf(jobs, w, e.t) else D.Move(NextOf(jobs, w, e.t), SlotOf(jobs, w, e.t), true)
  {
    SlotMoves(jobs[e.t], w.pos[e.t]);
    PrefixSound(jobs[e.t], w.pos[e.t] + 1);
  }

  lemma OtherPlaceOk(jobs: map<Ticket, Job>, limits: Key -> int, w: World, e: Event, t: Ticket)
    requires PlaceOk(jobs, w, t) && Enabled(jobs, limits, w, e) && t != e.t
    ensures var v := Step(jobs, limits, w, e); PlaceOk(jobs, v, t) && SlotOf(jobs, v, t) == SlotOf(jobs, w, t)
  {
    var v := Step(jobs, limits, w, e);
    assert v.pos[t] == w.pos[t] && (t in v.asking <==> t in w.asking);
  }

  lemma StepPlaceOk(jobs: map<Ticket, Job>, limits: Key -> int, w: World, e: Event, t: Ticket)
    requires AllBalanced(jobs) && Inv(jobs, limits, w) && Enabled(jobs, limits, w, e) && t in jobs
    ensures PlaceOk(jobs, Step(jobs, limits, w, e), t)
    ensures SlotOf(jobs, Step(jobs, limits, w, e), t) ==
              if t != e.t || e.Ask? then SlotOf(jobs, w, t) else D.Move(NextOf(jobs, w, t), SlotOf(jobs, w, t), true)
  {
    assert PlaceOk(jobs, w, t) && Balanced(jobs[t]);
    hide SlotOf, Step;
    if t == e.t {
      OwnPlaceOk(jobs, limits, w, e);
    } else {
      OtherPlaceOk(jobs, limits, w, e, t);
    }
  }

  /** The semaphore an event is about. */
  function Touched(jobs: map<Ticket, Job>, limits: Key -> int, w: World, e: Event): Sem
    requires Running(jobs, w, e.t)
  {
    SemOf(limits, w, jobs[e.t].key(NextOf(jobs, w, e.t).i))
  }

  /** Where a dispatch asks it is unknown to the semaphore, where it lets go it is a holder. */
  lemma StepDemands(jobs: map<Ticket, Job>, limits: Key -> int, w: World, e: Event)
    requires AllBalanced(jobs) && Inv(jobs, limits, w) && Enabled(jobs, limits, w, e)
    ensures var s := Touched(jobs, limits, w, e);
            && (e.Ask? ==> e.t !in s.holders && e.t !in s.waiters)
            && (e.Advance? && NextOf(jobs, w, e.t).Release? ==> e.t in s.holders)
  {
    var x := NextOf(jobs, w, e.t);
    assert PlaceOk(jobs, w, e.t) && Balanced(jobs[e.t]) && ClaimOk(jobs, limits, w, e.t, jobs[e.t].key(x.i));
    SlotMoves(jobs[e.t], w.pos[e.t]);
    PrefixSound(jobs[e.t], w.pos[e.t] + 1);
  }

  lemma StepSemOk(jobs: map<Ticket, Job>, limits: Key -> int, w: World, e: Event, k: Key)
    requires AllBalanced(jobs) && Inv(jobs, limits, w) && Enabled(jobs, limits, w, e)
    ensures SemOk(jobs, limits, Step(jobs, limits, w, e), k)
  {
    var k0 := jobs[e.t].key(NextOf(jobs, w, e.t).i);
    assert SemOk(jobs, limits, w, k) && SemOk(jobs, limits, w, k0);
    StepDemands(jobs, limits, w, e);
    SemStep(jobs, limits, w, e, k);
  }

  /** The semaphore of `k` after a step: only the one the event is about changes. */
  function SemAfter(jobs: map<Ticket, Job>, limits: Key -> int, w: World, e: Event, k: Key): Sem
    requires Enabled(jobs, limits, w, e)
  {
    var x, s := NextOf(jobs, w, e.t), SemOf(limits, w, k);
    if jobs[e.t].key(x.i) != k then s
    else if e.Ask? then DoAcquire(s, e.t)
    else if x.GaveUp? then DoTimeOut(s, e.t)
    else if x.Release? then DoRelease(s, e.t)
    else s
  }

  lemma StepSem(jobs: map<Ticket, Job>, limits: Key -> int, w: World, e: Event, k: Key)
    requires Enabled(jobs, limits, w, e)
    ensures SemOf(limits, Step(jobs, limits, w, e), k) == SemAfter(jobs, limits, w, e, k)
  {
  }

  lemma SemStep(jobs: map<Ticket, Job>, limits: Key -> int, w: World, e: Event, k: Key)
    requires Enabled(jobs, limits, w, e) && SemOk(jobs, limits, w, k)
    requires SemOk(jobs, limits, w, jobs[e.t].key(NextOf(jobs, w, e.t).i))
    requires e.Ask? ==> e.t !in Touched(jobs, limits, w, e).holders && e.t !in Touched(jobs, limits, w, e).waiters
    requires e.Advance? && NextOf(jobs, w, e.t).Release? ==> e.t in Touched(jobs, limits, w, e).holders
    ensures SemOk(jobs, limits, Step(jobs, limits, w, e), k)
  {
    var x, s := NextOf(jobs, w, e.t), Touched(jobs, limits, w, e);
    StepSem(jobs, limits, w, e, k);
    hide Step, Sound;
    if e.Ask? {
      AcquireKeepsSound(s, e.t);
    } else if x.GaveUp? {
      TimeOutKeepsSound(s, e.t);
    } else if x.Release? {
      ReleaseKeepsSound(s, e.t);
    }
  }

  /** A semaphore operation by `t` leaves everybody else known or unknown to it; a waiter may become a holder. */
  lemma OthersStay(jobs: map<Ticket, Job>, limits: Key -> int, w: World, e: Event, u: Ticket, k: Key)
    requires Enabled(jobs, limits, w, e) && u != e.t && Sound(Touched(jobs, limits, w, e))
    ensures var s, t := SemOf(limits, w, k), SemOf(limits, Step(jobs, limits, w, e), k);
            && (u in t.holders || u in t.waiters <==> u in s.holders || u in s.waiters)
            && (u in t.waiters ==> u in s.waiters)
  {
    var s := Touched(jobs, limits, w, e);
    if e.Advance? && NextOf(jobs, w, e.t).GaveUp? {
      TimeOutKeepsSound(s, e.t);
    }
    assert s.waiters == [] || s.waiters == [s.waiters[0]] + s.waiters[1..];
  }

  lemma StepClaimOk(jobs: map<Ticket, Job>, limits: Key -> int, w: World, e: Event, t: Ticket, k: Key)
    requires AllBalanced(jobs) && Inv(jobs, limits, w) && Enabled(jobs, limits, w, e) && t in jobs
    requires PlaceOk(jobs, Step(jobs, limits, w, e), t)
    ensures ClaimOk(jobs, limits, Step(jobs, limits, w, e), t, k)
  {
    var x := NextOf(jobs, w, e.t);
    var k0 := jobs[e.t].key(x.i);
    assert ClaimOk(jobs, limits, w, t, k) && ClaimOk(jobs, limits, w, t, k0) && SemOk(jobs, limits, w, k0);
    assert PlaceOk(jobs, w, t);
    StepPlaceOk(jobs, limits, w, e, t);
    if t != e.t {
      OthersStay(jobs, limits, w, e, t, k);
    } else {
      OwnClaimOk(jobs, limits, w, e, k);
    }
  }

  lemma OwnClaimOk(jobs: map<Ticket, Job>, limits: Key -> int, w: World, e: Event, k: Key)
    requires Enabled(jobs, limits, w, e) && PlaceOk(jobs, w, e.t) && PlaceOk(jobs, Step(jobs, limits, w, e), e.t)
    requires ClaimOk(jobs, limits, w, e.t, k) && ClaimOk(jobs, limits, w, e.t, jobs[e.t].key(NextOf(jobs, w, e.t).i))
    requires Sound(Touched(jobs, limits, w, e))
    requires SlotOf(jobs, Step(jobs, limits, w, e), e.t) ==
               if e.Ask? then SlotOf(jobs, w, e.t) else D.Move(NextOf(jobs, w, e.t), SlotOf(jobs, w, e.t), true)
    ensures ClaimOk(jobs, limits, Step(jobs, limits, w, e), e.t, k)
  {
    if e.Advance? && NextOf(jobs, w, e.t).GaveUp? {
      TimeOutKeepsSound(Touched(jobs, limits, w, e), e.t);
    }
  }

  lemma StepKeepsInv(jobs: map<Ticket, Job>, limits: Key -> int, w: World, e: Event)
    requires AllBalanced(jobs) && Inv(jobs, limits, w) && Enabled(jobs, limits, w, e)
    ensures Inv(jobs, limits, Step(jobs, limits, w, e))
  {
    forall t | t in jobs ensures PlaceOk(jobs, Step(jobs, limits, w, e), t) { StepPlaceOk(jobs, limits, w, e, t); }
    forall k ensures SemOk(jobs, limits, Step(jobs, limits, w, e), k) { StepSemOk(jobs, limits, w, e, k); }
    forall t, k | t in jobs ensures ClaimOk(jobs, limits, Step(jobs, limits, w, e), t, k) {
      StepClaimOk(jobs, limits, w, e, t, k);
    }
  }

  lemma {:induction false} RunKeepsInv(jobs: map<Ticket, Job>, limits: Key -> int, w: World, es: seq<Event>)
    requires AllBalanced(jobs) && Inv(jobs, limits, w) && Allowed(jobs, limits, w, es)
    ensures Inv(jobs, limits, Run(jobs, limits, w, es))
    decreases |es|
  {
    if es != [] {
      StepKeepsInv(jobs, limits, w, es[0]);
      RunKeepsInv(jobs, limits, Step(jobs, limits, w, es[0]), es[1..]);
    }
  }

  // ---------------------------------------------------------------- what follows

  /** The last thing the dispatch did was to call a provider of key `k`: the call has not been answered yet. */
  predicate Calling(jobs: map<Ticket, Job>, w: World, t: Ticket, k: Key) {
    && t in jobs && t in w.pos && 0 < w.pos[t] <= |jobs[t].log|
    && var x := jobs[t].log[w.pos[t] - 1]; x.Call? && jobs[t].key(x.i) == k
  }

  lemma CallerHolds(jobs: map<Ticket, Job>, limits: Key -> int, w: World, t: Ticket, k: Key)
    requires AllBalanced(jobs) && Inv(jobs, limits, w) && Calling(jobs, w, t, k)
    ensures t in SemOf(limits, w, k).holders
  {
    assert PlaceOk(jobs, w, t) && ClaimOk(jobs, limits, w, t, k);
    SlotMoves(jobs[t], w.pos[t] - 1);
  }

  lemma SmallerSubset(a: set<Ticket>, b: set<Ticket>)
    requires a <= b
    ensures |a| <= |b|
  {
    assert b == a + (b - a);
  }

  function Callers(jobs: map<Ticket, Job>, w: World, k: Key): set<Ticket> {
    set t | t in jobs && Calling(jobs, w, t, k)
  }

  lemma CallersHold(jobs: map<Ticket, Job>, limits: Key -> int, w: World, k: Key)
    requires AllBalanced(jobs) && Inv(jobs, limits, w)
    ensures |Callers(jobs, w, k)| <= Max(limits(k), 0)
  {
    var callers := Callers(jobs, w, k);
    forall t | t in callers ensures t in SemOf(limits, w, k).holders { CallerHolds(jobs, limits, w, t, k); }
    assert SemOk(jobs, limits, w, k);
    SmallerSubset(callers, SemOf(limits, w, k).holders);
  }

  /** However dispatches interleave, calls in flight to one key never exceed its limit. */
  lemma CallsWithinLimit(jobs: map<Ticket, Job>, limits: Key -> int, es: seq<Event>, k: Key)
    requires AllBalanced(jobs) && Allowed(jobs, limits, Start(jobs), es)
    ensures |Callers(jobs, Run(jobs, limits, Start(jobs), es), k)| <= Max(limits(k), 0)
  {
    StartInv(jobs, limits);
    RunKeepsInv(jobs, limits, Start(jobs), es);
    CallersHold(jobs, limits, Run(jobs, limits, Start(jobs), es), k);
  }

  lemma StartInv(jobs: map<Ticket, Job>, limits: Key -> int)
    ensures Inv(jobs, limits, Start(jobs))
  {
  }

  /** When all dispatches are over, no slot is held and nobody waits, whatever the schedule was. */
  lemma NoSlotLeaks(jobs: map<Ticket, Job>, limits: Key -> int, es: seq<Event>, k: Key)
    requires AllBalanced(jobs) && Allowed(jobs, limits, Start(jobs), es)
    requires forall t :: t in jobs ==> !Running(jobs, Run(jobs, limits, Start(jobs), es), t)
    ensures var s := SemOf(limits, Run(jobs, limits, Start(jobs), es), k); s.holders == {} && s.waiters == []
  {
    StartInv(jobs, limits);
    RunKeepsInv(jobs, limits, Start(jobs), es);
    var w := Run(jobs, limits, Start(jobs), es);
    var s := SemOf(limits, w, k);
    assert SemOk(jobs, limits, w, k);
    assert s.waiters == [] || s.waiters[0] in s.waiters;
    forall t ensures t !in s.holders && t !in s.waiters {
      if t in jobs {
        assert PlaceOk(jobs, w, t) && ClaimOk(jobs, limits, w, t, k) && Balanced(jobs[t]);
        assert jobs[t].log[..w.pos[t]] == jobs[t].log;
      }
    }
  }

  // ---------------------------------------------------------------- first come, first served

  /** Queued in the order of the asks, all of which were made. */
  predicate ByAsk(q: seq<Ticket>, asked: map<Ticket, nat>, asks: nat) {
    && (forall i :: 0 <= i < |q| ==> q[i] in asked && asked[q[i]] < asks)
    && forall i, j :: 0 <= i < j < |q| ==> q[i] in asked && q[j] in asked && asked[q[i]] < asked[q[j]]
  }

  lemma ByAskLonger(q: seq<Ticket>, asked: map<Ticket, nat>, asks: nat, t: Ticket)
    requires ByAsk(q, asked, asks) && t !in q
    ensures ByAsk(q, asked[t := asks], asks + 1) && ByAsk(q + [t], asked[t := asks], asks + 1)
  {
  }

  lemma ByAskWithout(q: seq<Ticket>, asked: map<Ticket, nat>, asks: nat, i: nat)
    requires ByAsk(q, asked, asks) && i < |q|
    ensures ByAsk(q[..i] + q[i + 1..], asked, asks)
  {
    var r := q[..i] + q[i + 1..];
    assert forall j :: 0 <= j < |r| ==> r[j] == q[if j < i then j else j + 1];
  }

  /** The waiters of `k` stand in the order in which they asked. */
  predicate InOrder(limits: Key -> int, w: World, k: Key) {
    ByAsk(SemOf(limits, w, k).waiters, w.asked, w.asks)
  }

  /** The first waiter asked before all others. */
  lemma FirstAsked(limits: Key -> int, w: World, k: Key, u: Ticket)
    requires InOrder(limits, w, k) && u in SemOf(limits, w, k).waiters && u != SemOf(limits, w, k).waiters[0]
    ensures var q := SemOf(limits, w, k).waiters; q[0] in w.asked && u in w.asked && w.asked[q[0]] < w.asked[u]
  {
    var q := SemOf(limits, w, k).waiters;
    var j :| 0 <= j < |q| && q[j] == u;
    assert 0 < j;
  }

  lemma AskInOrder(jobs: map<Ticket, Job>, limits: Key -> int, w: World, e: Event, k: Key)
    requires e.Ask? && Enabled(jobs, limits, w, e) && InOrder(limits, w, k) && e.t !in SemOf(limits, w, k).waiters
    ensures InOrder(limits, Step(jobs, limits, w, e), k)
  {
    StepSem(jobs, limits, w, e, k);
    ByAskLonger(SemOf(limits, w, k).waiters, w.asked, w.asks, e.t);
    hide ByAsk;
  }

  lemma TimeOutInOrder(s: Sem, t: Ticket) returns (i: nat)
    requires t in s.waiters
    ensures i < |s.waiters| && DoTimeOut(s, t).waiters == s.waiters[..i] + s.waiters[i + 1..]
  {
    i := IndexOf(s.waiters, t);
  }

  lemma ReleasedQueue(s: Sem, t: Ticket)
    ensures var r := DoRelease(s, t).waiters;
            r == s.waiters || (0 < |s.waiters| && r == s.waiters[..0] + s.waiters[1..])
  {
  }

  /** An event other than an ask takes at most one waiter out of a queue. */
  lemma AdvancedQueue(jobs: map<Ticket, Job>, limits: Key -> int, w: World, e: Event, k: Key) returns (i: nat)
    requires e.Advance? && Enabled(jobs, limits, w, e)
    ensures var q, r := SemOf(limits, w, k).waiters, SemOf(limits, Step(jobs, limits, w, e), k).waiters;
            r == q || (i < |q| && r == q[..i] + q[i + 1..])
  {
    i := 0;
    StepSem(jobs, limits, w, e, k);
    var s, x := SemOf(limits, w, k), NextOf(jobs, w, e.t);
    hide Step, SemOf, DoAcquire, DoRelease, DoTimeOut;
    if jobs[e.t].key(x.i) == k {
      if x.GaveUp? {
        i := TimeOutInOrder(s, e.t);
      } else if x.Release? {
        ReleasedQueue(s, e.t);
      }
    }
  }

  lemma AdvanceInOrder(jobs: map<Ticket, Job>, limits: Key -> int, w: World, e: Event, k: Key)
    requires e.Advance? && Enabled(jobs, limits, w, e) && InOrder(limits, w, k)
    ensures InOrder(limits, Step(jobs, limits, w, e), k)
  {
    AdvanceKeepsAsks(jobs, limits, w, e);
    var i := AdvancedQueue(jobs, limits, w, e, k);
    hide Step, ByAsk, SemOf;
    var q := SemOf(limits, w, k).waiters;
    if i < |q| {
      ByAskWithout(q, w.asked, w.asks, i);
    }
  }

  lemma AdvanceKeepsAsks(jobs: map<Ticket, Job>, limits: Key -> int, w: World, e: Event)
    requires e.Advance? && Enabled(jobs, limits, w, e)
    ensures Step(jobs, limits, w, e).asked == w.asked && Step(jobs, limits, w, e).asks == w.asks
  {
  }

  lemma StepInOrder(jobs: map<Ticket, Job>, limits: Key -> int, w: World, e: Event, k: Key)
    requires Inv(jobs, limits, w) && Enabled(jobs, limits, w, e) && InOrder(limits, w, k)
    ensures InOrder(limits, Step(jobs, limits, w, e), k)
  {
    if e.Ask? {
      assert PlaceOk(jobs, w, e.t) && ClaimOk(jobs, limits, w, e.t, k);
      AskInOrder(jobs, limits, w, e, k);
    } else {
      AdvanceInOrder(jobs, limits, w, e, k);
    }
  }

  lemma {:induction false} RunInOrder(jobs: map<Ticket, Job>, limits: Key -> int, w: World, es: seq<Event>, k: Key)
    requires AllBalanced(jobs) && Inv(jobs, limits, w) && Allowed(jobs, limits, w, es) && InOrder(limits, w, k)
    ensures InOrder(limits, Run(jobs, limits, w, es), k)
    decreases |es|
  {
    if es != [] {
      StepInOrder(jobs, limits, w, es[0], k);
      StepKeepsInv(jobs, limits, w, es[0]);
      RunInOrder(jobs, limits, Step(jobs, limits, w, es[0]), es[1..], k);
    }
  }

  /** A dispatch gets a slot of `k` in this step. */
  predicate Gets(jobs: map<Ticket, Job>, limits: Key -> int, w: World, e: Event, k: Key, t: Ticket)
    requires Enabled(jobs, limits, w, e)
  {
    t !in SemOf(limits, w, k).holders && t in SemOf(limits, Step(jobs, limits, w, e), k).holders
  }

  /** Whoever gets a slot had a free one, or was the first to wait. */
  lemma GetsFirst(jobs: map<Ticket, Job>, limits: Key -> int, w: World, e: Event, k: Key, t: Ticket)
    requires Enabled(jobs, limits, w, e) && SemOk(jobs, limits, w, k) && Gets(jobs, limits, w, e, k, t)
    ensures var q := SemOf(limits, w, k).waiters; q == [] || q[0] == t
    ensures w.asked.Keys <= Step(jobs, limits, w, e).asked.Keys
    ensures e.Advance? ==> Step(jobs, limits, w, e).asked == w.asked
    ensures e.Ask? ==> SemOf(limits, w, k).waiters == [] && SemOf(limits, Step(jobs, limits, w, e), k).waiters == []
    ensures forall u :: u in SemOf(limits, Step(jobs, limits, w, e), k).waiters ==> u in SemOf(limits, w, k).waiters && u != t
  {
    var s := SemOf(limits, w, k);
    if s.waiters != [] {
      assert s.waiters == [s.waiters[0]] + s.waiters[1..];
    }
  }

  /** Over every schedule: nobody gets a slot while somebody who asked earlier is still waiting for it. */
  lemma NobodyOvertakes(jobs: map<Ticket, Job>, limits: Key -> int, es: seq<Event>, e: Event, k: Key, t: Ticket, u: Ticket)
    requires AllBalanced(jobs) && Allowed(jobs, limits, Start(jobs), es)
    requires Enabled(jobs, limits, Run(jobs, limits, Start(jobs), es), e)
    requires Gets(jobs, limits, Run(jobs, limits, Start(jobs), es), e, k, t)
    ensures var v := Step(jobs, limits, Run(jobs, limits, Start(jobs), es), e);
            u in SemOf(limits, v, k).waiters ==> t in v.asked && u in v.asked && v.asked[t] < v.asked[u]
  {
    StartInv(jobs, limits);
    RunKeepsInv(jobs, limits, Start(jobs), es);
    RunInOrder(jobs, limits, Start(jobs), es, k);
    var w := Run(jobs, limits, Start(jobs), es);
    assert SemOk(jobs, limits, w, k);
    GetsFirst(jobs, limits, w, e, k, t);
    if u in SemOf(limits, Step(jobs, limits, w, e), k).waiters {
      FirstAsked(limits, w, k, u);
    }
  }

  /** And in every reachable state those who wait for one key stand in the order of their asks. */
  lemma WaitersInOrder(jobs: map<Ticket, Job>, limits: Key -> int, es: seq<Event>, k: Key)
    requires AllBalanced(jobs) && Allowed(jobs, limits, Start(jobs), es)
    ensures InOrder(limits, Run(jobs, limits, Start(jobs), es), k)
  {
    StartInv(jobs, limits);
    RunInOrder(jobs, limits, Start(jobs), es, k);
  }
}
