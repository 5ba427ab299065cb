/** The mutable store of lib/sessions.js, each method proved against the step it performs. */
module SessionStores {
  import opened Options
  import opened Sessions

  /** One round of the sweeper's loop. */
  function SweepOne(c: Config, s: State, id: Id, ok: bool): State
    requires id in s.mem
  {
    if s.now > s.mem[id].expiresAt then DoClose(c, s, id) else s.(mem := s.mem[id := Reflected(c, s.now, s.mem[id], ok)])
  }

  /** The loop halfway: `todo` is still as in `s0`, all other ids are as the sweep of `s0` leaves them. */
  ghost predicate Sweeping(c: Config, s0: State, reflected: set<Id>, todo: set<Id>, s: State) {
    var goal := DoSweep(c, s0, reflected);
    && s.now == s0.now && todo <= s.mem.Keys && todo <= s0.mem.Keys
    && (forall id :: id in s.mem <==> id in todo || id in goal.mem)
    && (forall id :: id in s.mem ==> s.mem[id] == if id in todo then s0.mem[id] else goal.mem[id])
    && s.redis == if c.redisEnabled then s0.redis - (ExpiredIds(s0) - todo) else s0.redis
  }

  lemma SweepStart(c: Config, s0: State, reflected: set<Id>)
    ensures Sweeping(c, s0, reflected, s0.mem.Keys, s0)
  {
    assert ExpiredIds(s0) - s0.mem.Keys == {};
    assert s0.redis - {} == s0.redis;
  }

  lemma SweepRound(c: Config, s0: State, reflected: set<Id>, todo: set<Id>, s: State, id: Id)
    requires Sweeping(c, s0, reflected, todo, s) && id in todo
    ensures Sweeping(c, s0, reflected, todo - {id}, SweepOne(c, s, id, id in reflected))
  {
    var dead := ExpiredIds(s0);
    assert s.mem[id] == s0.mem[id];
    if id in dead {
      assert dead - (todo - {id}) == (dead - todo) + {id};
    } else {
      assert dead - (todo - {id}) == dead - todo;
    }
  }

  lemma SweepTodo(c: Config, s0: State, reflected: set<Id>, todo: set<Id>, s: State)
    requires Sweeping(c, s0, reflected, todo, s)
    ensures todo <= s.mem.Keys
  {
  }

  lemma SweepEnd(c: Config, s0: State, reflected: set<Id>, s: State)
    requires Sweeping(c, s0, reflected, {}, s)
    ensures s == DoSweep(c, s0, reflected)
  {
    assert ExpiredIds(s0) - {} == ExpiredIds(s0);
    assert s.mem == DoSweep(c, s0, reflected).mem;
  }

  class SessionStore {
    const c: Config
    var now: int
    var mem: map<Id, Session>
    var redis: map<Id, Entry>

    function Snapshot(): State
      reads this
    {
      State(now, mem, redis)
    }

    constructor (c: Config, now: int)
      ensures Snapshot() == Start(now) && this.c == c
    {
      this.c, this.now, this.mem, this.redis := c, now, map[], map[];
    }

    method SaveSession(id: Id, data: Session, ttlSec: int)
      modifies this
      ensures Snapshot() == SetEx(c, old(Snapshot()), id, data, ttlSec)
    {
      if c.redisEnabled {
        redis := redis[id := Entry(data, now + ttlSec * 1000)];
      }
    }

    /** Redis returns nothing once the deadline has passed. */
    method GetSession(id: Id) returns (r: Option<Session>)
      ensures r.Some? <==> Readable(c, Snapshot(), id)
      ensures r.Some? ==> r.value == redis[id].data
    {
      if c.redisEnabled && id in redis && now <= redis[id].deadline {
        return Some(redis[id].data);
      }
      return None;
    }

    method DeleteSession(id: Id)
      modifies this
      ensures Snapshot() == Del(c, old(Snapshot()), id)
    {
      if c.redisEnabled {
        redis := redis - {id};
      }
    }

    method CreateStreamableSessionWithId(id: Id, ctx: Context, version: Option<string>)
      modifies this
      ensures Snapshot() == DoCreate(c, old(Snapshot()), id, ctx, version)
    {
      var session := NewSession(c, now, ctx, version);
      mem := mem[id := session];
      SaveSession(id, session, c.cacheTtlSec);
    }

    /** With `preserveRedis`, as a graceful shutdown closes sessions, the Redis copy survives. */
    method CloseStreamableSession(id: Id, preserveRedis: bool)
      modifies this
      ensures !preserveRedis ==> Snapshot() == DoClose(c, old(Snapshot()), id)
      ensures preserveRedis ==> Snapshot() == old(Snapshot()).(mem := old(mem) - {id})
    {
      if id !in mem {
        return;
      }
      mem := mem - {id};
      if !preserveRedis {
        DeleteSession(id);
      }
    }

    /** The part of a restoration after the read: nothing in memory is looked at. */
    method InstallCopy(id: Id, copy: Session, requested: Option<string>)
      modifies this
      ensures Snapshot() == DoInstall(c, old(Snapshot()), id, copy, requested)
    {
      var session := copy.(lastAccessedAt := now, expiresAt := now + c.ttlMs);
      if requested.Some? && requested.value in c.supported {
        session := session.(version := requested);
      }
      mem := mem[id := session];
      SaveSession(id, session, CeilSec(c.ttlMs));
    }

    method ValidateStreamableSession(id: Id, requested: Option<string>) returns (v: Verdict)
      modifies this
      ensures (Snapshot(), v) == DoValidate(c, old(Snapshot()), id, requested)
    {
      if id !in mem {
        var copy := GetSession(id);
        if copy.None? {
          return NotFound;
        }
        InstallCopy(id, copy.value, requested);
      }
      if now > mem[id].expiresAt {
        CloseStreamableSession(id, false);
        return Expired;
      }
      mem := mem[id := mem[id].(lastAccessedAt := now, expiresAt := now + c.ttlMs)];
      var remaining := CeilSec(mem[id].expiresAt - now);
      v := Valid(mem[id]);
      SaveSession(id, mem[id], Max(remaining, 60));
    }

    /** The branch of _resolveExistingSession that found a valid session. */
    method ResolveExistingSession(id: Id, requested: Option<string>, refetched: Option<seq<string>>, authOk: bool)
      returns (v: Verdict)
      modifies this
      ensures (Snapshot(), v) == DoResolve(c, old(Snapshot()), id, requested, refetched, authOk)
    {
      v := ValidateStreamableSession(id, requested);
      if !v.Valid? {
        return;
      }
      var ctx := mem[id].ctx;
      if (ctx.groupKeyIds.None? || ctx.groupKeyIds.value == []) && ctx.keyId.Some? && ctx.keyId.value != "" {
        if refetched.Some? {
          mem := mem[id := mem[id].(ctx := ctx.(groupKeyIds := refetched))];
          SaveSession(id, mem[id], CeilSec(c.ttlMs));
        }
      }
      if authOk {
        mem := mem[id := mem[id].(ctx := mem[id].ctx.(authenticated := true))];
      }
      assert mem == mem[id := mem[id]];
    }

    /** The cross-check before a same-id recovery; false is the 403 answer. */
    method CheckRecovery(id: Id, ctx: Context) returns (ok: bool)
      ensures ok <==> Accepted(c, Snapshot(), Event.CheckRecovery(id, ctx))
    {
      var copy := GetSession(id);
      ok := copy.None? || copy.value.ctx.keyId == ctx.keyId;
    }

    /** The write of a same-id recovery, whatever happened since the check. */
    method CommitRecovery(id: Id, ctx: Context, requested: Option<string>)
      modifies this
      ensures Snapshot() == Step(c, old(Snapshot()), Event.CommitRecovery(id, ctx, requested))
    {
      var anchor := if requested.Some? && requested.value in c.supported then requested else None;
      CreateStreamableSessionWithId(id, ctx.(authenticated := true), anchor);
    }

    /** A request with a session id, uninterrupted: `auth` is who it authenticates as when its session is lost. */
    method HandleRequest(id: Id, requested: Option<string>, refetched: Option<seq<string>>, authOk: bool, auth: Option<Context>)
      returns (ok: bool)
      modifies this
      ensures (Snapshot(), ok) == DoHandle(c, old(Snapshot()), id, requested, refetched, authOk, auth)
    {
      var v := ResolveExistingSession(id, requested, refetched, authOk);
      if v.Valid? {
        return mem[id].ctx.authenticated;
      }
      if auth.None? {
        return false;
      }
      ok := CheckRecovery(id, auth.value);
      if ok {
        CommitRecovery(id, auth.value, requested);
      }
    }

    method PersistNegotiatedVersion(id: Id, version: string)
      modifies this
      ensures Snapshot() == DoNegotiate(c, old(Snapshot()), id, version)
    {
      if id in mem {
        mem := mem[id := mem[id].(version := Some(version))];
        SaveSession(id, mem[id], Max(CeilSec(mem[id].expiresAt - now), 60));
      }
    }

    /** `trace` records the store after every write. */
    method RotateSession(oldId: Id, newId: Id) returns (r: RotateResult, ghost trace: seq<State>)
      requires Fresh(Snapshot(), newId)
      modifies this
      ensures (Snapshot(), r) == DoRotate(c, old(Snapshot()), oldId, newId)
      ensures trace == RotateTrace(c, old(Snapshot()), oldId, newId)
    {
      trace := [Snapshot()];
      var existing: Option<Session> := None;
      if oldId in mem {
        existing := Some(mem[oldId]);
      } else {
        existing := GetSession(oldId);
      }
      if existing.None? {
        return Missing, trace;
      }
      if now > existing.value.expiresAt {
        CloseStreamableSession(oldId, false);
        return TooOld, trace + [Snapshot()];
      }
      var session := NewSession(c, now, existing.value.ctx, None);
      mem := mem[newId := session];
      trace := trace + [Snapshot()];
      SaveSession(newId, session, c.cacheTtlSec);
      trace := trace + [Snapshot()];
      mem := mem - {oldId};
      trace := trace + [Snapshot()];
      DeleteSession(oldId);
      trace := trace + [Snapshot()];
      r := Rotated(newId, mem[newId].expiresAt);
    }

    method SweepSession(id: Id, ok: bool)
      requires id in mem
      modifies this
      ensures Snapshot() == SweepOne(c, old(Snapshot()), id, ok)
    {
      var x := mem[id];
      if now > x.expiresAt {
        CloseStreamableSession(id, false);
      } else {
        var lastAccess := if x.lastAccessedAt != 0 then x.lastAccessedAt else x.createdAt;
        var needsReflect := x.lastReflectedAt.None? || x.lastReflectedAt.value == 0
                            || now - x.lastReflectedAt.value > c.idleMs;
        if now - lastAccess > c.idleMs && needsReflect && ok {
          mem := mem[id := x.(lastReflectedAt := Some(now))];
        }
        assert mem == mem[id := mem[id]];
      }
    }

    /** `reflected` are the idle sessions whose background reflection succeeds. */
    method CleanupExpiredSessions(reflected: set<Id>)
      modifies this
      ensures Snapshot() == DoSweep(c, old(Snapshot()), reflected)
    {
      ghost var s0 := Snapshot();
      var todo := mem.Keys;
      SweepStart(c, s0, reflected);
      while todo != {}
        invariant todo <= mem.Keys && Sweeping(c, s0, reflected, todo, Snapshot())
      {
        hide Sweeping, SweepOne, DoSweep;
        var id :| id in todo;
        SweepRound(c, s0, reflected, todo, Snapshot(), id);
        SweepSession(id, id in reflected);
        todo := todo - {id};
        SweepTodo(c, s0, reflected, todo, Snapshot());
      }
      SweepEnd(c, s0, reflected, Snapshot());
    }

    /** A graceful shutdown closes every session and keeps the Redis copies: a later start sees a plain restart. */
    method ShutDown()
      modifies this
      ensures Snapshot() == Step(c, old(Snapshot()), Restart)
      ensures mem == map[] && redis == old(redis) && now == old(now)
    {
      while mem.Keys != {}
        invariant mem.Keys <= old(mem.Keys) && now == old(now) && redis == old(redis)
        decreases |mem.Keys|
      {
        var id :| id in mem.Keys;
        assert (mem - {id}).Keys < mem.Keys;
        CloseStreamableSession(id, true);
      }
      assert mem == map[];
    }
  }
}
