/**
 * The reliable queue of lib/redis.js (index 0 is the head of a Redis list) and the protocol
 * lib/memory/write/BatchRememberWorker.js runs over it.
 */
module Queues {
  import opened Options

  /** RPOPLPUSH: the last element of `src` becomes the first of `dst`. */
  function Moved<T>(src: seq<T>, dst: seq<T>): (seq<T>, seq<T>)
    requires src != []
  {
    (src[..|src| - 1], [src[|src| - 1]] + dst)
  }

  /** LREM with count 1: the first occurrence goes. */
  function RemoveFirst<T(==)>(s: seq<T>, x: T): seq<T> {
    if s == [] then [] else if s[0] == x then s[1..] else [s[0]] + RemoveFirst(s[1..], x)
  }

  lemma TakenOut<T>(s: seq<T>, i: nat)
    requires i < |s|
    ensures multiset(s) == multiset(s[..i] + s[i + 1..]) + multiset{s[i]}
  {
    assert s == s[..i] + [s[i]] + s[i + 1..];
  }

  lemma AckBalanced<T>(pushed: multiset<T>, main: seq<T>, processing: seq<T>, acked: multiset<T>, i: nat)
    requires Balanced(pushed, main, processing, acked) && i < |processing|
    ensures Balanced(pushed, main, processing[..i] + processing[i + 1..], acked + multiset{processing[i]})
  {
    TakenOut(processing, i);
  }

  lemma RemoveFirstAt<T>(s: seq<T>, x: T, i: nat)
    requires i < |s| && s[i] == x && x !in s[..i]
    ensures RemoveFirst(s, x) == s[..i] + s[i + 1..]
  {
    if i > 0 {
      assert s[1..][..i - 1] == s[..i][1..];
      RemoveFirstAt(s[1..], x, i - 1);
    }
  }

  /** Everything pushed waits, is in flight or was acknowledged, counted with multiplicity. */
  predicate Balanced<T(==)>(pushed: multiset<T>, main: seq<T>, processing: seq<T>, acked: multiset<T>) {
    pushed == multiset(main) + multiset(processing) + acked
  }

  lemma MovedKeepsTotal<T>(src: seq<T>, dst: seq<T>)
    requires src != []
    ensures var (a, b) := Moved(src, dst); multiset(a) + multiset(b) == multiset(src) + multiset(dst)
  {
    assert src == src[..|src| - 1] + [src[|src| - 1]];
  }

  lemma Swapped<T>(a: multiset<T>, b: multiset<T>, c: multiset<T>)
    ensures a + b + c == b + a + c
  {
  }

  lemma RecoveryBalanced<T>(pushed: multiset<T>, main: seq<T>, processing: seq<T>, acked: multiset<T>)
    requires processing != [] && Balanced(pushed, main, processing, acked)
    ensures var (p, m) := Moved(processing, main); Balanced(pushed, m, p, acked)
  {
    var (p, m) := Moved(processing, main);
    MovedKeepsTotal(processing, main);
    Swapped(multiset(main), multiset(processing), acked);
    Swapped(multiset(m), multiset(p), acked);
  }

  /** Recovery halfway: the head of `p0` is still in flight, the rest of it is back before `m0`. */
  predicate Recovering<T(==)>(p0: seq<T>, m0: seq<T>, p: seq<T>, m: seq<T>) {
    |p| <= |p0| && p == p0[..|p|] && m == p0[|p|..] + m0
  }

  lemma RecoveringStart<T>(p0: seq<T>, m0: seq<T>)
    ensures Recovering(p0, m0, p0, m0)
  {
    assert p0[..|p0|] == p0 && p0[|p0|..] + m0 == m0;
  }

  lemma RecoveringRound<T>(p0: seq<T>, m0: seq<T>, p: seq<T>, m: seq<T>)
    requires p != [] && Recovering(p0, m0, p, m)
    ensures var (p1, m1) := Moved(p, m); Recovering(p0, m0, p1, m1) && |p1| == |p| - 1
  {
    var n := |p|;
    assert p0[..n][..n - 1] == p0[..n - 1];
    assert p0[n - 1..] == [p0[n - 1]] + p0[n..];
    assert [p0[n - 1]] + (p0[n..] + m0) == p0[n - 1..] + m0;
  }

  lemma RecoveringEnd<T>(p0: seq<T>, m0: seq<T>, m: seq<T>)
    requires Recovering(p0, m0, [], m)
    ensures m == p0 + m0
  {
    assert p0[0..] == p0;
  }

  class ReliableQueue<T(==)> {
    var main: seq<T>
    var processing: seq<T>
    var dead: seq<T>
    ghost var pushed: multiset<T>
    ghost var acked: multiset<T>

    ghost predicate Valid()
      reads this
    {
      Balanced(pushed, main, processing, acked)
    }

    constructor ()
      ensures Valid() && main == [] && processing == [] && dead == [] && pushed == acked == multiset{}
    {
      main, processing, dead, pushed, acked := [], [], [], multiset{}, multiset{};
    }

    method PushToQueue(raw: T)
      requires Valid()
      modifies this
      ensures Valid() && main == [raw] + old(main) && pushed == old(pushed) + multiset{raw}
      ensures processing == old(processing) && dead == old(dead) && acked == old(acked)
    {
      main, pushed := [raw] + main, pushed + multiset{raw};
    }

    /** Right-pushed items are the next ones popped. */
    method PushToQueuePriority(raw: T)
      requires Valid()
      modifies this
      ensures Valid() && main == old(main) + [raw] && pushed == old(pushed) + multiset{raw}
      ensures processing == old(processing) && dead == old(dead) && acked == old(acked)
    {
      main, pushed := main + [raw], pushed + multiset{raw};
    }

    method PopFromQueueReliable() returns (r: Option<T>)
      requires Valid()
      modifies this
      ensures Valid() && pushed == old(pushed) && acked == old(acked) && dead == old(dead)
      ensures r.None? <==> old(main) == []
      ensures r.None? ==> main == [] && processing == old(processing)
      ensures r.Some? ==> (main, processing) == Moved(old(main), old(processing)) && r.value == processing[0]
    {
      if main == [] {
        return None;
      }
      var raw := main[|main| - 1];
      assert main == main[..|main| - 1] + [raw];
      main, processing := main[..|main| - 1], [raw] + processing;
      r := Some(raw);
    }

    method AckQueueItem(raw: T) returns (removed: bool)
      requires Valid()
      modifies this
      ensures Valid() && pushed == old(pushed) && main == old(main) && dead == old(dead)
      ensures removed <==> raw in old(processing)
      ensures processing == RemoveFirst(old(processing), raw)
      ensures acked == old(acked) + (if removed then multiset{raw} else multiset{})
    {
      hide Balanced;
      var i := 0;
      while i < |processing| && processing[i] != raw
        invariant 0 <= i <= |processing| && raw !in processing[..i] && unchanged(this)
      {
        i := i + 1;
      }
      removed := i < |processing|;
      if removed {
        RemoveFirstAt(processing, raw, i);
        AckBalanced(pushed, main, processing, acked, i);
        processing, acked := processing[..i] + processing[i + 1..], acked + multiset{raw};
      } else {
        assert processing[..i] == processing;
        NothingRemoved(processing, raw);
      }
    }

    /** Boot-time recovery: in-flight items go to the head of the queue, so everything already waiting is served first. */
    method RequeueProcessing() returns (moved: nat)
      requires Valid()
      modifies this
      ensures Valid() && pushed == old(pushed) && acked == old(acked) && dead == old(dead)
      ensures processing == [] && main == old(processing) + old(main) && moved == |old(processing)|
    {
      hide Balanced, Recovering;
      moved := 0;
      ghost var p0, m0 := processing, main;
      RecoveringStart(p0, m0);
      while processing != []
        invariant moved + |processing| == |p0|
        invariant Balanced(pushed, main, processing, acked) && Recovering(p0, m0, processing, main)
        invariant pushed == old(pushed) && acked == old(acked) && dead == old(dead)
        decreases |processing|
      {
        RecoveringRound(p0, m0, processing, main);
        RecoveryBalanced(pushed, main, processing, acked);
        processing, main := processing[..|processing| - 1], [processing[|processing| - 1]] + main;
        moved := moved + 1;
      }
      RecoveringEnd(p0, m0, main);
    }

    /** What the worker does with a popped job; `pushOk` tells whether parking a failed job succeeded. */
    method Settle(raw: T, retry: T, succeeded: bool, exhausted: bool, pushOk: bool)
      requires Valid()
      modifies this
      ensures Valid()
      ensures !succeeded && !pushOk ==>
        main == old(main) && processing == old(processing) && dead == old(dead) && acked == old(acked)
      ensures succeeded || pushOk ==> processing == RemoveFirst(old(processing), raw)
      ensures main == (if !succeeded && !exhausted && pushOk then [retry] + old(main) else old(main))
      ensures dead == (if !succeeded && exhausted && pushOk then [raw] + old(dead) else old(dead))
    {
      var safeToAck := true;
      if !succeeded {
        if pushOk {
          if !exhausted {
            PushToQueue(retry);
          } else {
            dead := [raw] + dead;
          }
        } else {
          safeToAck := false;
        }
      }
      if safeToAck {
        var _ := AckQueueItem(raw);
      }
    }
  }

  lemma NothingRemoved<T>(s: seq<T>, x: T)
    requires x !in s
    ensures RemoveFirst(s, x) == s
  {
  }

  // ---------------------------------------------------------------- order of service

  /** The order in which tail pops serve a list. */
  function Served<T>(s: seq<T>): (r: seq<T>)
    ensures |r| == |s|
  {
    if s == [] then [] else [s[|s| - 1]] + Served(s[..|s| - 1])
  }

  /** Popping `k` items without acknowledging them and then recovering rotates the queue by `k`. */
  function PopMany<T>(main: seq<T>, processing: seq<T>, k: nat): (seq<T>, seq<T>)
    requires k <= |main|
  {
    if k == 0 then (main, processing)
    else var (m, p) := Moved(main, processing); PopMany(m, p, k - 1)
  }

  lemma {:induction false} PopManySplits<T>(main: seq<T>, processing: seq<T>, k: nat)
    requires k <= |main|
    ensures PopMany(main, processing, k) == (main[..|main| - k], main[|main| - k..] + processing)
  {
    if k > 0 {
      var (m, p) := Moved(main, processing);
      PopManySplits(m, p, k - 1);
      assert m[..|m| - (k - 1)] == main[..|main| - k];
      assert m[|m| - (k - 1)..] + p == main[|main| - k..] + processing;
    } else {
      assert main[..|main|] == main && main[|main|..] + processing == processing;
    }
  }

  lemma {:induction false} ServedAppend<T>(a: seq<T>, b: seq<T>)
    ensures Served(a + b) == Served(b) + Served(a)
    decreases |b|
  {
    if b == [] {
      assert a + b == a;
    } else {
      assert (a + b)[..|a + b| - 1] == a + b[..|b| - 1];
      ServedAppend(a, b[..|b| - 1]);
    }
  }

  /**
   * After a crash with `k` unacknowledged jobs and a recovery, the waiting jobs are served first, in their
   * old order, and then the recovered jobs in the order they were first popped.
   */
  lemma RecoveredServedLast<T>(main: seq<T>, k: nat)
    requires k <= |main|
    ensures var (m, p) := PopMany(main, [], k);
            Served(p + m) == Served(main)[k..] + Served(main)[..k]
  {
    PopManySplits(main, [], k);
    var (m, p) := PopMany(main, [], k);
    ServedAppend(p, m);
    ServedAppend(m, p);
    assert main == m + p;
  }

  lemma {:induction false} ServedAt<T>(s: seq<T>, i: nat)
    requires i < |s|
    ensures Served(s)[i] == s[|s| - 1 - i]
    decreases |s|
  {
    if i > 0 {
      ServedAt(s[..|s| - 1], i - 1);
    }
  }

  /** Recovered items come first only when nothing was recovered or nothing else was waiting. */
  lemma RecoveredFirstIff<T>(main: seq<T>, k: nat)
    requires k <= |main| && Distinct(main)
    ensures var (m, p) := PopMany(main, [], k);
            Served(p + m) == Served(p) + Served(m) <==> k == 0 || k == |main|
  {
    PopManySplits(main, [], k);
    var (m, p) := PopMany(main, [], k);
    ServedAppend(p, m);
    assert Served(p + m) == Served(m) + Served(p);
    if 0 < k < |main| {
      ServedAt(m, 0);
      ServedAt(p, 0);
      assert (Served(m) + Served(p))[0] == m[|m| - 1] == main[|main| - k - 1];
      assert (Served(p) + Served(m))[0] == p[|p| - 1] == main[|main| - 1];
    }
  }

  // ---------------------------------------------------------------- the worker protocol

  datatype Envelope = Envelope(jobId: nat, retry: nat, stamp: int)

  /** A worker holds a popped envelope, then knows it is safe to acknowledge. */
  datatype Phase = Idle | Working(e: Envelope) | Settled(e: Envelope)

  datatype State = State(
    main: seq<Envelope>,
    processing: seq<Envelope>,
    dead: seq<Envelope>,
    submitted: set<nat>,
    done: set<nat>,
    workers: map<nat, Phase>,
    pushed: multiset<Envelope>,
    acked: multiset<Envelope>)

  datatype Event =
    | Submit(jobId: nat, stamp: int, urgent: bool)
    | Boot(w: nat)
    | RecoverOne
    | Pop(w: nat)
    | Succeed(w: nat)
    | Retry(w: nat, stamp: int)
    | Bury(w: nat)
    | LeaveInFlight(w: nat)
    | Ack(w: nat)
    | Crash(w: nat)

  predicate Busy(s: State, w: nat) {
    w in s.workers && s.workers[w].Working?
  }

  predicate Enabled(limit: nat, s: State, e: Event) {
    match e
    case Submit(j, _, _) => j !in s.submitted
    case Boot(w) => w !in s.workers
    case RecoverOne => s.processing != []
    case Pop(w) => w in s.workers && s.workers[w].Idle? && s.main != []
    case Succeed(w) => Busy(s, w)
    case Retry(w, _) => Busy(s, w) && s.workers[w].e.retry < limit
    case Bury(w) => Busy(s, w) && s.workers[w].e.retry >= limit
    case LeaveInFlight(w) => Busy(s, w)
    case Ack(w) => w in s.workers && s.workers[w].Settled?
    case Crash(w) => w in s.workers
  }

  function Step(limit: nat, s: State, e: Event): State
    requires Enabled(limit, s, e)
  {
    match e
    case Submit(j, t, urgent) =>
      var x := Envelope(j, 0, t);
      s.(main := if urgent then s.main + [x] else [x] + s.main, submitted := s.submitted + {j}, pushed := s.pushed + multiset{x})
    case Boot(w) => s.(workers := s.workers[w := Idle])
    case RecoverOne =>
      var (p, m) := Moved(s.processing, s.main);
      s.(processing := p, main := m)
    case Pop(w) =>
      var (m, p) := Moved(s.main, s.processing);
      s.(main := m, processing := p, workers := s.workers[w := Working(p[0])])
    case Succeed(w) =>
      var x := s.workers[w].e;
      s.(done := s.done + {x.jobId}, workers := s.workers[w := Settled(x)])
    case Retry(w, t) =>
      var x := s.workers[w].e;
      var y := Envelope(x.jobId, x.retry + 1, t);
      s.(main := [y] + s.main, workers := s.workers[w := Settled(x)], pushed := s.pushed + multiset{y})
    case Bury(w) =>
      var x := s.workers[w].e;
      s.(dead := [x] + s.dead, workers := s.workers[w := Settled(x)])
    case LeaveInFlight(w) => s.(workers := s.workers[w := Idle])
    case Ack(w) =>
      var x := s.workers[w].e;
      s.(processing := RemoveFirst(s.processing, x), workers := s.workers[w := Idle],
         acked := if x in s.processing then s.acked + multiset{x} else s.acked)
    case Crash(w) => s.(workers := s.workers - {w})
  }

  const EMPTY := State([], [], [], {}, {}, map[], multiset{}, multiset{})

  predicate Allowed(limit: nat, s: State, es: seq<Event>)
    decreases |es|
  {
    es == [] || (Enabled(limit, s, es[0]) && Allowed(limit, Step(limit, s, es[0]), es[1..]))
  }

  function Run(limit: nat, s: State, es: seq<Event>): State
    requires Allowed(limit, s, es)
    decreases |es|
  {
    if es == [] then s else Run(limit, Step(limit, s, es[0]), es[1..])
  }

  predicate Queued(s: State, e: Envelope) {
    e in s.main || e in s.processing
  }

  predicate Finished(s: State, j: nat) {
    j in s.done || exists e :: e in s.dead && e.jobId == j
  }

  /** Job `j` is finished or still queued with more than `r` failures behind it. */
  ghost predicate Beyond(s: State, j: nat, r: int) {
    Finished(s, j) || exists e :: Queued(s, e) && e.jobId == j && e.retry > r
  }

  /** The promise of the queue: a submitted job is processed, dead-lettered, or still queued. */
  ghost predicate NothingLost(s: State) {
    forall j :: j in s.submitted ==> Beyond(s, j, -1)
  }

  /** A dead-lettered job has used up its retries, and no job is retried beyond the limit. */
  ghost predicate RetriesBounded(limit: nat, s: State) {
    (forall e :: Queued(s, e) ==> e.retry <= limit) && (forall e :: e in s.dead ==> e.retry == limit)
    && forall w :: w in s.workers && s.workers[w] != Idle ==> s.workers[w].e.retry <= limit
  }

  ghost predicate Inv(limit: nat, s: State) {
    && NothingLost(s) && RetriesBounded(limit, s)
    && forall w :: w in s.workers && s.workers[w].Settled? ==> Beyond(s, s.workers[w].e.jobId, s.workers[w].e.retry)
  }

  lemma RemoveFirstKeeps<T>(s: seq<T>, x: T, y: T)
    ensures y in RemoveFirst(s, x) ==> y in s
    ensures y != x && y in s ==> y in RemoveFirst(s, x)
  {
  }

  /** No step sets a job back; an acknowledgement does not because its job is already further along. */
  lemma StepKeepsBeyond(limit: nat, s: State, e: Event, j: nat, r: int)
    requires Enabled(limit, s, e) && Beyond(s, j, r)
    requires e.Ack? ==> Beyond(s, s.workers[e.w].e.jobId, s.workers[e.w].e.retry)
    ensures Beyond(Step(limit, s, e), j, r)
  {
    var t := Step(limit, s, e);
    if Finished(s, j) {
      assert Finished(t, j);
    } else {
      var x :| Queued(s, x) && x.jobId == j && x.retry > r;
      if e.Ack? {
        var a := s.workers[e.w].e;
        if x == a {
          var y :| Queued(s, y) && y.jobId == j && y.retry > a.retry;
          RemoveFirstKeeps(s.processing, a, y);
          assert Queued(t, y);
        } else {
          RemoveFirstKeeps(s.processing, a, x);
          assert Queued(t, x);
        }
      } else {
        assert Queued(t, x);
      }
    }
  }

  lemma StepBoundsRetries(limit: nat, s: State, e: Event)
    requires Enabled(limit, s, e) && RetriesBounded(limit, s)
    ensures RetriesBounded(limit, Step(limit, s, e))
  {
    var t := Step(limit, s, e);
    forall x | Queued(t, x) ensures x.retry <= limit {
      if e.Ack? { RemoveFirstKeeps(s.processing, s.workers[e.w].e, x); }
      assert Queued(s, x) || e.Submit? || e.Retry?;
    }
    if e.Pop? { assert Queued(s, s.main[|s.main| - 1]); }
  }

  lemma StepKeepsInv(limit: nat, s: State, e: Event)
    requires Enabled(limit, s, e) && Inv(limit, s)
    ensures Inv(limit, Step(limit, s, e))
  {
    var t := Step(limit, s, e);
    StepBoundsRetries(limit, s, e);
    forall j | j in t.submitted ensures Beyond(t, j, -1) {
      if j in s.submitted { StepKeepsBeyond(limit, s, e, j, -1); } else { assert Queued(t, Envelope(j, 0, e.stamp)); }
    }
    forall w | w in t.workers && t.workers[w].Settled? ensures Beyond(t, t.workers[w].e.jobId, t.workers[w].e.retry) {
      var x := t.workers[w].e;
      if w in s.workers && s.workers[w] == t.workers[w] {
        StepKeepsBeyond(limit, s, e, x.jobId, x.retry);
      } else if e.Retry? {
        assert Queued(t, Envelope(x.jobId, x.retry + 1, e.stamp));
      } else {
        assert Finished(t, x.jobId);
      }
    }
  }

  /**
   * No job is lost: over every interleaving of submissions, any number of workers, crashes between any two
   * of their steps, failed dispositions and one-item-at-a-time recoveries, even while other workers run.
   */
  lemma {:induction false} NoJobLost(limit: nat, s: State, es: seq<Event>)
    requires Allowed(limit, s, es) && Inv(limit, s)
    ensures Inv(limit, Run(limit, s, es))
    decreases |es|
  {
    if es != [] {
      StepKeepsInv(limit, s, es[0]);
      NoJobLost(limit, Step(limit, s, es[0]), es[1..]);
    }
  }

  lemma NoJobLostFromEmpty(limit: nat, es: seq<Event>)
    requires Allowed(limit, EMPTY, es)
    ensures NothingLost(Run(limit, EMPTY, es)) && RetriesBounded(limit, Run(limit, EMPTY, es))
  {
    NoJobLost(limit, EMPTY, es);
  }

  /** A submitted job is served after everything waiting, an urgent one next; a retry waits at the end again. */
  lemma SubmissionServed(limit: nat, s: State, e: Event)
    requires (e.Submit? || e.Retry?) && Enabled(limit, s, e)
    ensures var t := Step(limit, s, e);
            var x := if e.Submit? then Envelope(e.jobId, 0, e.stamp)
                     else Envelope(s.workers[e.w].e.jobId, s.workers[e.w].e.retry + 1, e.stamp);
            && Served(t.main) == (if e.Submit? && e.urgent then [x] + Served(s.main) else Served(s.main) + [x])
            && t.processing == s.processing
  {
    var x := if e.Submit? then Envelope(e.jobId, 0, e.stamp)
             else Envelope(s.workers[e.w].e.jobId, s.workers[e.w].e.retry + 1, e.stamp);
    ServedAppend([x], s.main);
    ServedAppend(s.main, [x]);
    assert [x][..0] == [] && Served([x]) == [x];
  }

  /** A worker gets the job that is to be served next, and it is in flight from then on. */
  lemma PopServed(limit: nat, s: State, w: nat)
    requires Enabled(limit, s, Pop(w))
    ensures var t := Step(limit, s, Pop(w));
            && t.workers[w] == Working(Served(s.main)[0]) && Served(t.main) == Served(s.main)[1..]
            && t.processing == [Served(s.main)[0]] + s.processing
  {
  }

  // ---------------------------------------------------------------- conservation

  predicate Conserved(s: State) {
    Balanced(s.pushed, s.main, s.processing, s.acked)
  }

  lemma {:induction false} RemoveFirstTakes<T>(s: seq<T>, x: T)
    requires x in s
    ensures multiset(s) == multiset(RemoveFirst(s, x)) + multiset{x}
  {
    assert s == [s[0]] + s[1..];
    if s[0] != x {
      RemoveFirstTakes(s[1..], x);
    }
  }

  lemma AckConserves(limit: nat, s: State, e: Event)
    requires e.Ack? && Enabled(limit, s, e) && Conserved(s)
    ensures Conserved(Step(limit, s, e))
  {
    var x := s.workers[e.w].e;
    if x in s.processing {
      RemoveFirstTakes(s.processing, x);
    } else {
      NothingRemoved(s.processing, x);
    }
  }

  lemma StepConserves(limit: nat, s: State, e: Event)
    requires Enabled(limit, s, e) && Conserved(s)
    ensures Conserved(Step(limit, s, e))
  {
    match e
    case RecoverOne => RecoveryBalanced(s.pushed, s.main, s.processing, s.acked);
    case Pop(_) => MovedKeepsTotal(s.main, s.processing);
    case Ack(_) => AckConserves(limit, s, e);
    case _ =>
  }

  /** Conservation over every interleaving of workers, crashes, retries, acknowledgements and item-wise recoveries. */
  lemma {:induction false} RunConserves(limit: nat, s: State, es: seq<Event>)
    requires Allowed(limit, s, es) && Conserved(s)
    ensures Conserved(Run(limit, s, es))
    decreases |es|
  {
    if es != [] {
      StepConserves(limit, s, es[0]);
      RunConserves(limit, Step(limit, s, es[0]), es[1..]);
    }
  }

  /**
   * An envelope is acknowledged at most as often as it was pushed, and once it is that often no copy is left: one
   * pushed once is never acknowledged twice, nor served again after its acknowledgement.
   */
  lemma AckedAtMostOnce(limit: nat, es: seq<Event>, x: Envelope)
    requires Allowed(limit, EMPTY, es)
    ensures var s := Run(limit, EMPTY, es);
            && s.acked[x] <= s.pushed[x]
            && (s.acked[x] == s.pushed[x] <==> !Queued(s, x))
            && (s.pushed[x] <= 1 ==> s.acked[x] <= 1)
  {
    RunConserves(limit, EMPTY, es);
    var s := Run(limit, EMPTY, es);
    assert x in s.main <==> multiset(s.main)[x] > 0;
    assert x in s.processing <==> multiset(s.processing)[x] > 0;
  }

  lemma RunFirst(limit: nat, s: State, e: Event, es: seq<Event>)
    requires Enabled(limit, s, e) && Allowed(limit, Step(limit, s, e), es)
    ensures Allowed(limit, s, [e] + es) && Run(limit, s, [e] + es) == Run(limit, Step(limit, s, e), es)
  {
    assert ([e] + es)[1..] == es;
  }

  lemma RecoverOneStep(limit: nat, s: State)
    requires s.processing != []
    ensures Enabled(limit, s, RecoverOne)
    ensures var n := |s.processing|;
            Step(limit, s, RecoverOne) == s.(main := [s.processing[n - 1]] + s.main, processing := s.processing[..n - 1])
  {
  }

  function Recoveries(n: nat): (es: seq<Event>)
    ensures |es| == n
  {
    if n == 0 then [] else [RecoverOne] + Recoveries(n - 1)
  }

  /** Undisturbed, the item-wise recovery is the recovery of the class: all in flight goes before all waiting. */
  lemma {:induction false} UndisturbedRecovery(limit: nat, s: State)
    ensures var es := Recoveries(|s.processing|);
            Allowed(limit, s, es) && Run(limit, s, es) == s.(main := s.processing + s.main, processing := [])
    decreases |s.processing|
  {
    hide Step, Enabled;
    if s.processing == [] {
      assert s.processing + s.main == s.main;
    } else {
      RecoverOneStep(limit, s);
      var t := Step(limit, s, RecoverOne);
      UndisturbedRecovery(limit, t);
      RunFirst(limit, s, RecoverOne, Recoveries(|t.processing|));
      assert t.processing + t.main == s.processing + s.main;
    }
  }
}
