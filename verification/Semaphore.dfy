/** The counting semaphore of lib/llm/util/semaphore.js: slots and a first-in first-out queue of waiters. */
module Semaphores {
  import opened Options

  type Ticket = nat

  /** Who has a slot and who waits for one, in order. */
  datatype Sem = Sem(limit: int, holders: set<Ticket>, waiters: seq<Ticket>)

  /** No slot beyond the limit is given out, and none is idle while somebody waits. */
  predicate Sound(s: Sem) {
    && |s.holders| <= Max(s.limit, 0)
    && (s.waiters != [] ==> |s.holders| >= s.limit)
    && Distinct(s.waiters) && forall t :: t in s.waiters ==> t !in s.holders
  }

  function DoAcquire(s: Sem, t: Ticket): Sem {
    if |s.holders| < s.limit then s.(holders := s.holders + {t}) else s.(waiters := s.waiters + [t])
  }

  function DoRelease(s: Sem, t: Ticket): Sem {
    if s.waiters == [] then s.(holders := s.holders - {t})
    else s.(holders := s.holders - {t} + {s.waiters[0]}, waiters := s.waiters[1..])
  }

  function IndexOf(s: seq<Ticket>, t: Ticket): (i: nat)
    requires t in s
    ensures i < |s| && s[i] == t && t !in s[..i]
  {
    if s[0] == t then 0
    else
      var i := IndexOf(s[1..], t);
      assert s[..i + 1] == [s[0]] + s[1..][..i];
      i + 1
  }

  function DoTimeOut(s: Sem, t: Ticket): Sem
    requires t in s.waiters
  {
    var i := IndexOf(s.waiters, t);
    s.(waiters := s.waiters[..i] + s.waiters[i + 1..])
  }

  lemma AcquireKeepsSound(s: Sem, t: Ticket)
    requires Sound(s) && t !in s.holders && t !in s.waiters
    ensures Sound(DoAcquire(s, t))
  {
  }

  lemma HandOver(holders: set<Ticket>, t: Ticket, u: Ticket)
    requires t in holders && u !in holders
    ensures |holders - {t} + {u}| == |holders| && |holders - {t}| == |holders| - 1
  {
  }

  /** A freed slot goes straight to the longest waiter, so nobody overtakes. */
  lemma ReleaseKeepsSound(s: Sem, t: Ticket)
    requires Sound(s) && t in s.holders
    ensures Sound(DoRelease(s, t))
    ensures |DoRelease(s, t).holders| == |s.holders| - (if s.waiters == [] then 1 else 0)
  {
    if s.waiters != [] {
      HandOver(s.holders, t, s.waiters[0]);
    }
  }

  lemma TimeOutWaiters(s: Sem, t: Ticket, u: Ticket)
    requires Distinct(s.waiters) && t in s.waiters
    ensures u in DoTimeOut(s, t).waiters <==> u in s.waiters && u != t
  {
    var i, r := IndexOf(s.waiters, t), DoTimeOut(s, t).waiters;
    if u in s.waiters && u != t {
      var j := IndexOf(s.waiters, u);
      assert r[if j < i then j else j - 1] == u;
    }
    if u in r {
      var j := IndexOf(r, u);
      assert s.waiters[if j < i then j else j + 1] == u;
    }
  }

  lemma TimeOutDistinct(s: Sem, t: Ticket)
    requires Distinct(s.waiters) && t in s.waiters
    ensures Distinct(DoTimeOut(s, t).waiters)
  {
    var i := IndexOf(s.waiters, t);
    var r := DoTimeOut(s, t).waiters;
    assert forall j :: 0 <= j < |r| ==> r[j] == s.waiters[if j < i then j else j + 1];
  }

  /** A waiter that ran out of time leaves the queue; no slot moves. */
  lemma TimeOutKeepsSound(s: Sem, t: Ticket)
    requires Sound(s) && t in s.waiters
    ensures Sound(DoTimeOut(s, t)) && DoTimeOut(s, t).holders == s.holders
    ensures forall u :: u in DoTimeOut(s, t).waiters <==> u in s.waiters && u != t
  {
    TimeOutDistinct(s, t);
    forall u ensures u in DoTimeOut(s, t).waiters <==> u in s.waiters && u != t {
      TimeOutWaiters(s, t, u);
    }
  }

  class Semaphore {
    const limit: int
    var active: int
    var waiters: seq<Ticket>
    ghost var holders: set<Ticket>

    ghost function State(): Sem
      reads this
    {
      Sem(limit, holders, waiters)
    }

    ghost predicate Valid()
      reads this
    {
      active == |holders| && Sound(State())
    }

    constructor (limit: int)
      ensures Valid() && State() == Sem(limit, {}, [])
    {
      this.limit, active, waiters, holders := limit, 0, [], {};
    }

    /** Either takes a slot at once or joins the end of the queue. */
    method Acquire(t: Ticket) returns (granted: bool)
      requires Valid() && t !in holders && t !in waiters
      modifies this
      ensures Valid() && State() == DoAcquire(old(State()), t)
      ensures granted <==> |old(holders)| < limit
      ensures granted ==> holders == old(holders) + {t} && waiters == old(waiters)
      ensures !granted ==> holders == old(holders) && waiters == old(waiters) + [t]
    {
      AcquireKeepsSound(State(), t);
      granted := active < limit;
      if granted {
        active := active + 1;
        holders := holders + {t};
      } else {
        waiters := waiters + [t];
      }
    }

    /** A freed slot goes straight to the longest waiter; only an empty queue lowers the count. */
    method Release(ghost t: Ticket) returns (woken: Option<Ticket>)
      requires Valid() && t in holders
      modifies this
      ensures Valid() && State() == DoRelease(old(State()), t)
      ensures old(waiters) == [] ==> woken == None && waiters == [] && holders == old(holders) - {t}
      ensures old(waiters) != [] ==>
        && woken == Some(old(waiters)[0]) && waiters == old(waiters)[1..]
        && holders == old(holders) - {t} + {woken.value}
    {
      ReleaseKeepsSound(State(), t);
      if |waiters| > 0 {
        woken := Some(waiters[0]);
        holders := holders - {t} + {waiters[0]};
        waiters := waiters[1..];
      } else {
        woken := None;
        active := active - 1;
        holders := holders - {t};
      }
    }

    /** A waiter that ran out of time leaves the queue; no slot moves and the others keep their order. */
    method TimeOut(t: Ticket)
      requires Valid() && t in waiters
      modifies this
      ensures Valid() && State() == DoTimeOut(old(State()), t)
    {
      TimeOutKeepsSound(State(), t);
      var i := 0;
      while waiters[i] != t
        invariant 0 <= i < |waiters| && t !in waiters[..i] && unchanged(this)
        decreases |waiters| - i
      {
        i := i + 1;
      }
      assert i == IndexOf(waiters, t);
      waiters := waiters[..i] + waiters[i + 1..];
    }
  }
}
