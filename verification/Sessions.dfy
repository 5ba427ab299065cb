/**
 * The two-tier session store of lib/sessions.js: an in-process map, a Redis copy with its own
 * expiry, and the steps lib/handlers/mcp-handler.js drives it with. Times are milliseconds.
 */
module Sessions {
  import opened Options

  type Id = string

  /** The authentication context a session carries. */
  datatype Context = Context(
    authenticated: bool,
    keyId: Option<string>,
    groupKeyIds: Option<seq<string>>,
    permissions: Option<seq<string>>,
    workspace: Option<string>,
    mode: Option<string>)

  datatype Session = Session(
    ctx: Context,
    createdAt: int,
    expiresAt: int,
    lastAccessedAt: int,
    lastReflectedAt: Option<int>,
    version: Option<string>)

  /** A Redis value with the instant after which Redis no longer returns it. */
  datatype Entry = Entry(data: Session, deadline: int)

  datatype Config = Config(ttlMs: int, cacheTtlSec: int, redisEnabled: bool, idleMs: int, supported: set<string>)

  datatype State = State(now: int, mem: map<Id, Session>, redis: map<Id, Entry>)

  datatype Verdict = Valid(session: Session) | NotFound | Expired

  datatype RotateResult = Rotated(newId: Id, expiresAt: int) | Missing | TooOld

  datatype Event =
    | Create(id: Id, ctx: Context)
    | Validate(id: Id, requested: Option<string>)
    | Handle(id: Id, requested: Option<string>, refetched: Option<seq<string>>, authOk: bool, auth: Option<Context>)
    | Fetch(id: Id)
    | Install(id: Id, copy: Session, requested: Option<string>)
    | CheckRecovery(id: Id, ctx: Context)
    | CommitRecovery(id: Id, ctx: Context, requested: Option<string>)
    | Close(id: Id)
    | Rotate(oldId: Id, newId: Id)
    | Reanchor(id: Id, version: string)
    | Negotiate(id: Id, version: string)
    | Sweep(reflected: set<Id>)
    | Tick(ms: nat)
    | Restart

  // ---------------------------------------------------------------- Redis

  /** Seconds, rounded up, as `Math.ceil(ms / 1000)` does for either sign. */
  function CeilSec(ms: int): int {
    -((-ms) / 1000)
  }

  function SetEx(c: Config, s: State, id: Id, data: Session, ttlSec: int): State {
    if c.redisEnabled then s.(redis := s.redis[id := Entry(data, s.now + ttlSec * 1000)]) else s
  }

  function Del(c: Config, s: State, id: Id): State {
    if c.redisEnabled then s.(redis := s.redis - {id}) else s
  }

  predicate Readable(c: Config, s: State, id: Id) {
    c.redisEnabled && id in s.redis && s.now <= s.redis[id].deadline
  }

  // ---------------------------------------------------------------- steps of the store

  function NewSession(c: Config, now: int, ctx: Context, version: Option<string>): Session {
    Session(ctx, now, now + c.ttlMs, now, None, version)
  }

  function DoCreate(c: Config, s: State, id: Id, ctx: Context, version: Option<string>): State {
    var x := NewSession(c, s.now, ctx, version);
    SetEx(c, s.(mem := s.mem[id := x]), id, x, c.cacheTtlSec)
  }

  function Supported(c: Config, requested: Option<string>): Option<string> {
    if requested.Some? && requested.value in c.supported then requested else None
  }

  function Touch(c: Config, now: int, x: Session): Session {
    x.(lastAccessedAt := now, expiresAt := now + c.ttlMs)
  }

  /** What a Redis copy becomes when it is put back in memory: its stored expiry is not looked at. */
  function Revived(c: Config, now: int, x: Session, requested: Option<string>): Session {
    var v := Supported(c, requested);
    Touch(c, now, if v.Some? then x.(version := v) else x)
  }

  /** Puts a copy read from Redis, perhaps some time ago, in memory whatever is there by now. */
  function DoInstall(c: Config, s: State, id: Id, copy: Session, requested: Option<string>): State {
    var x := Revived(c, s.now, copy, requested);
    SetEx(c, s.(mem := s.mem[id := x]), id, x, CeilSec(c.ttlMs))
  }

  function DoRestore(c: Config, s: State, id: Id, requested: Option<string>): State {
    if id !in s.mem && Readable(c, s, id) then DoInstall(c, s, id, s.redis[id].data, requested) else s
  }

  function DoClose(c: Config, s: State, id: Id): State {
    if id in s.mem then Del(c, s.(mem := s.mem - {id}), id) else s
  }

  /** What validation does with the session it finds in memory. */
  function DoAccess(c: Config, r: State, id: Id): (State, Verdict) {
    if id !in r.mem then (r, NotFound)
    else if r.now > r.mem[id].expiresAt then (DoClose(c, r, id), Expired)
    else
      var x := Touch(c, r.now, r.mem[id]);
      (SetEx(c, r.(mem := r.mem[id := x]), id, x, Max(CeilSec(c.ttlMs), 60)), Valid(x))
  }

  function DoValidate(c: Config, s: State, id: Id, requested: Option<string>): (State, Verdict) {
    DoAccess(c, DoRestore(c, s, id, requested), id)
  }

  predicate Stale(x: Session) {
    (x.ctx.groupKeyIds.None? || x.ctx.groupKeyIds.value == []) && x.ctx.keyId.Some? && x.ctx.keyId.value != ""
  }

  /** Missing group keys are looked up again and written to both copies. */
  function DoRefetch(c: Config, s: State, id: Id, refetched: Option<seq<string>>): State {
    if id in s.mem && Stale(s.mem[id]) && refetched.Some? then
      var y := s.mem[id].(ctx := s.mem[id].ctx.(groupKeyIds := refetched));
      SetEx(c, s.(mem := s.mem[id := y]), id, y, CeilSec(c.ttlMs))
    else s
  }

  /** An authenticated request marks the memory copy only. */
  function DoAuthenticate(s: State, id: Id, authOk: bool): State {
    if id in s.mem && authOk then
      s.(mem := s.mem[id := s.mem[id].(ctx := s.mem[id].ctx.(authenticated := true))])
    else s
  }

  /** The handler's work on a session that validated: refill missing group keys, then authenticate. */
  function DoResolve(c: Config, s: State, id: Id, requested: Option<string>, refetched: Option<seq<string>>, authOk: bool): (State, Verdict) {
    var (r, v) := DoValidate(c, s, id, requested);
    if v.Valid? then (DoAuthenticate(DoRefetch(c, r, id, refetched), id, authOk), v) else (r, v)
  }

  /** What the check before a same-id recovery reads: a Redis copy of another key refuses it. */
  predicate Forbidden(c: Config, s: State, id: Id, ctx: Context) {
    Readable(c, s, id) && s.redis[id].data.ctx.keyId != ctx.keyId
  }

  /** The write of a same-id recovery, which looks at neither store again. */
  function DoCommit(c: Config, s: State, id: Id, ctx: Context, requested: Option<string>): State {
    DoCreate(c, s, id, ctx.(authenticated := true), Supported(c, requested))
  }

  /** Check and write with nothing between them. */
  function DoRecover(c: Config, s: State, id: Id, ctx: Context, requested: Option<string>): State {
    if Forbidden(c, s, id, ctx) then s else DoCommit(c, s, id, ctx, requested)
  }

  /** One request with a session id, handled without interruption; `auth` is who it authenticates as, if anyone. */
  function DoHandle(c: Config, s: State, id: Id, requested: Option<string>, refetched: Option<seq<string>>, authOk: bool,
                    auth: Option<Context>): (State, bool)
  {
    var (r, v) := DoResolve(c, s, id, requested, refetched, authOk);
    if v.Valid? then (r, id in r.mem && r.mem[id].ctx.authenticated)
    else if auth.None? then (r, false)
    else (DoRecover(c, r, id, auth.value, requested), !Forbidden(c, r, id, auth.value))
  }

  function DoReanchor(c: Config, s: State, id: Id, version: string): State {
    if id in s.mem && version in c.supported then s.(mem := s.mem[id := s.mem[id].(version := Some(version))]) else s
  }

  function DoNegotiate(c: Config, s: State, id: Id, version: string): State {
    if id in s.mem then
      var x := s.mem[id].(version := Some(version));
      SetEx(c, s.(mem := s.mem[id := x]), id, x, Max(CeilSec(x.expiresAt - s.now), 60))
    else s
  }

  /** The session rotation reads, from memory first and from Redis otherwise. */
  function Existing(c: Config, s: State, id: Id): Option<Session> {
    if id in s.mem then Some(s.mem[id])
    else if Readable(c, s, id) then Some(s.redis[id].data)
    else None
  }

  /** Every state rotation passes through, one store write at a time. */
  function RotateTrace(c: Config, s: State, oldId: Id, newId: Id): seq<State> {
    var e := Existing(c, s, oldId);
    if e.None? then [s]
    else if s.now > e.value.expiresAt then [s, DoClose(c, s, oldId)]
    else
      var x := NewSession(c, s.now, e.value.ctx, None);
      var s1 := s.(mem := s.mem[newId := x]);
      var s2 := SetEx(c, s1, newId, x, c.cacheTtlSec);
      var s3 := s2.(mem := s2.mem - {oldId});
      [s, s1, s2, s3, Del(c, s3, oldId)]
  }

  function DoRotate(c: Config, s: State, oldId: Id, newId: Id): (State, RotateResult) {
    var e := Existing(c, s, oldId);
    var t := RotateTrace(c, s, oldId, newId);
    (t[|t| - 1],
     if e.None? then Missing else if s.now > e.value.expiresAt then TooOld else Rotated(newId, s.now + c.ttlMs))
  }

  /** The sweeper's bookkeeping for a session it keeps: a long-idle session is reflected at most once per idle span. */
  function Reflected(c: Config, now: int, x: Session, ok: bool): Session {
    var idle := now - (if x.lastAccessedAt != 0 then x.lastAccessedAt else x.createdAt) > c.idleMs;
    var due := x.lastReflectedAt.None? || x.lastReflectedAt.value == 0 || now - x.lastReflectedAt.value > c.idleMs;
    if idle && due && ok then x.(lastReflectedAt := Some(now)) else x
  }

  function ExpiredIds(s: State): set<Id> {
    set id | id in s.mem && s.now > s.mem[id].expiresAt
  }

  function DoSweep(c: Config, s: State, reflected: set<Id>): State {
    var dead := ExpiredIds(s);
    State(s.now,
          map id | id in s.mem && id !in dead :: Reflected(c, s.now, s.mem[id], id in reflected),
          if c.redisEnabled then s.redis - dead else s.redis)
  }

  function Step(c: Config, s: State, e: Event): State {
    match e
    case Create(id, ctx) => DoCreate(c, s, id, ctx, None)
    case Validate(id, requested) => DoValidate(c, s, id, requested).0
    case Handle(id, requested, refetched, authOk, auth) => DoHandle(c, s, id, requested, refetched, authOk, auth).0
    case Fetch(id) => s
    case Install(id, copy, requested) => DoInstall(c, s, id, copy, requested)
    case CheckRecovery(id, ctx) => s
    case CommitRecovery(id, ctx, requested) => DoCommit(c, s, id, ctx, requested)
    case Close(id) => DoClose(c, s, id)
    case Rotate(oldId, newId) => DoRotate(c, s, oldId, newId).0
    case Reanchor(id, version) => DoReanchor(c, s, id, version)
    case Negotiate(id, version) => DoNegotiate(c, s, id, version)
    case Sweep(reflected) => DoSweep(c, s, reflected)
    case Tick(ms) => s.(now := s.now + ms)
    case Restart => s.(mem := map[])
  }

  /** Whether the caller is told its session is usable; true for steps that answer nothing. */
  predicate Accepted(c: Config, s: State, e: Event) {
    match e
    case Validate(id, requested) => DoValidate(c, s, id, requested).1.Valid?
    case Handle(id, requested, refetched, authOk, auth) => DoHandle(c, s, id, requested, refetched, authOk, auth).1
    case Fetch(id) => id !in s.mem && Readable(c, s, id)
    case CheckRecovery(id, ctx) => !Forbidden(c, s, id, ctx)
    case Rotate(oldId, newId) => DoRotate(c, s, oldId, newId).1.Rotated?
    case _ => true
  }

  // ---------------------------------------------------------------- runs

  /** A negotiated version is written back while more than 59 seconds of the session remain. */
  predicate InTime(s: State, id: Id) {
    id in s.mem ==> s.mem[id].expiresAt - s.now > 59000
  }

  predicate Fresh(s: State, id: Id) {
    id !in s.mem && id !in s.redis
  }

  predicate Enabled(s: State, e: Event) {
    match e
    case Create(id, _) => Fresh(s, id)
    case Rotate(_, newId) => Fresh(s, newId)
    case _ => true
  }

  predicate Timely(s: State, e: Event) {
    e.Negotiate? ==> InTime(s, e.id)
  }

  function Run(c: Config, s: State, es: seq<Event>): State
    decreases |es|
  {
    if es == [] then s else Run(c, Step(c, s, es[0]), es[1..])
  }

  /** New sessions get new ids; otherwise the steps of all requests interleave in any order. */
  predicate Possible(c: Config, s: State, es: seq<Event>)
    decreases |es|
  {
    es == [] || (Enabled(s, es[0]) && Possible(c, Step(c, s, es[0]), es[1..]))
  }

  /** A possible run all of whose version write-backs are in time. */
  predicate Allowed(c: Config, s: State, es: seq<Event>)
    decreases |es|
  {
    es == [] || (Enabled(s, es[0]) && Timely(s, es[0]) && Allowed(c, Step(c, s, es[0]), es[1..]))
  }

  /** What a handler between a read and its write remembers. */
  datatype Ticket = MayRecover(id: Id, ctx: Context) | MayInstall(id: Id, copy: Session)

  function Earned(c: Config, s: State, e: Event): set<Ticket> {
    if !Accepted(c, s, e) then {}
    else match e
      case Fetch(id) => {MayInstall(id, s.redis[id].data)}
      case CheckRecovery(id, ctx) => {MayRecover(id, ctx)}
      case _ => {}
  }

  predicate Backed(tickets: set<Ticket>, e: Event) {
    && (e.Install? ==> MayInstall(e.id, e.copy) in tickets)
    && (e.CommitRecovery? ==> MayRecover(e.id, e.ctx) in tickets)
  }

  /** Every write of a handler follows its own accepted read; a restart ends all handlers. */
  predicate Grounded(c: Config, s: State, tickets: set<Ticket>, es: seq<Event>)
    decreases |es|
  {
    es == [] || (Backed(tickets, es[0])
                 && Grounded(c, Step(c, s, es[0]), if es[0].Restart? then {} else tickets + Earned(c, s, es[0]), es[1..]))
  }

  function Answers(c: Config, s: State, es: seq<Event>): seq<bool>
    decreases |es|
  {
    if es == [] then [] else [Accepted(c, s, es[0])] + Answers(c, Step(c, s, es[0]), es[1..])
  }

  function Start(now: int): State {
    State(now, map[], map[])
  }

  // ---------------------------------------------------------------- the TTL window

  /** Redis forgets a copy no earlier than its stored expiry and less than a second after it. */
  predicate InWindow(x: Entry) {
    x.data.expiresAt <= x.deadline < x.data.expiresAt + 1000
  }

  ghost predicate Windowed(s: State) {
    forall id :: id in s.redis ==> InWindow(s.redis[id])
  }

  /** The two copies may differ only in `authenticated`, `lastReflectedAt` and `version`. */
  predicate Agree(x: Session, y: Session) {
    x.ctx.(authenticated := true) == y.ctx.(authenticated := true)
    && x.expiresAt == y.expiresAt && x.lastAccessedAt == y.lastAccessedAt && x.createdAt == y.createdAt
  }

  predicate Aged(c: Config, s: State, x: Session) {
    x.expiresAt == x.lastAccessedAt + c.ttlMs && x.lastAccessedAt <= s.now
  }

  /** What the deployment must satisfy for the window: the default cache lifetime, and a session life over 59 s. */
  predicate SoundTtl(c: Config) {
    c.redisEnabled ==> 59000 < c.ttlMs && c.ttlMs <= c.cacheTtlSec * 1000 < c.ttlMs + 1000
  }

  lemma CeilSecBounds(ms: int)
    ensures ms <= CeilSec(ms) * 1000 < ms + 1000
  {
  }

  // ---------------------------------------------------------------- the two copies, one id at a time

  /** The cache lifetime of a new session is no shorter than its life. */
  predicate Covers(c: Config) {
    c.ttlMs <= c.cacheTtlSec * 1000
  }

  /**
   * What every run keeps under every configuration: with Redis on, a session in memory has an agreeing copy, and
   * one that outlives it if new copies do.
   */
  predicate PairAt(c: Config, s: State, id: Id) {
    && (id in s.mem ==> Aged(c, s, s.mem[id]))
    && (id in s.redis ==> c.redisEnabled && Aged(c, s, s.redis[id].data))
    && (c.redisEnabled && id in s.mem ==>
          && id in s.redis && Agree(s.mem[id], s.redis[id].data)
          && (Covers(c) ==> s.mem[id].expiresAt <= s.redis[id].deadline))
  }

  /** Under a sound configuration: the window of one id's copy. */
  predicate WindowAt(c: Config, s: State, id: Id) {
    id in s.redis ==> c.redisEnabled && InWindow(s.redis[id])
  }

  lemma PutPairAt(c: Config, s: State, id: Id, x: Session, ttlSec: int, k: Id)
    requires PairAt(c, s, k) && Aged(c, s, x) && (Covers(c) ==> x.expiresAt <= s.now + ttlSec * 1000)
    ensures PairAt(c, SetEx(c, s.(mem := s.mem[id := x]), id, x, ttlSec), k)
  {
  }

  lemma PutWindowAt(c: Config, s: State, id: Id, x: Session, ttlSec: int, k: Id)
    requires WindowAt(c, s, k) && (k == id && c.redisEnabled ==> x.expiresAt <= s.now + ttlSec * 1000 < x.expiresAt + 1000)
    ensures WindowAt(c, SetEx(c, s.(mem := s.mem[id := x]), id, x, ttlSec), k)
  {
  }

  lemma InstallPairAt(c: Config, s: State, id: Id, copy: Session, requested: Option<string>, k: Id)
    ensures PairAt(c, s, k) ==> PairAt(c, DoInstall(c, s, id, copy, requested), k)
    ensures WindowAt(c, s, k) ==> WindowAt(c, DoInstall(c, s, id, copy, requested), k)
  {
    CeilSecBounds(c.ttlMs);
    var x := Revived(c, s.now, copy, requested);
    if PairAt(c, s, k) { PutPairAt(c, s, id, x, CeilSec(c.ttlMs), k); }
    if WindowAt(c, s, k) { PutWindowAt(c, s, id, x, CeilSec(c.ttlMs), k); }
  }

  lemma ClosePairAt(c: Config, s: State, id: Id, k: Id)
    ensures PairAt(c, s, k) ==> PairAt(c, DoClose(c, s, id), k)
    ensures WindowAt(c, s, k) ==> WindowAt(c, DoClose(c, s, id), k)
  {
  }

  lemma AccessPairAt(c: Config, s: State, id: Id, k: Id)
    ensures PairAt(c, s, k) ==> PairAt(c, DoAccess(c, s, id).0, k)
    ensures SoundTtl(c) && WindowAt(c, s, k) ==> WindowAt(c, DoAccess(c, s, id).0, k)
  {
    CeilSecBounds(c.ttlMs);
    if id in s.mem {
      if s.now > s.mem[id].expiresAt {
        ClosePairAt(c, s, id, k);
      } else {
        var x, ttlSec := Touch(c, s.now, s.mem[id]), Max(CeilSec(c.ttlMs), 60);
        if PairAt(c, s, k) { PutPairAt(c, s, id, x, ttlSec, k); }
        if SoundTtl(c) && WindowAt(c, s, k) { PutWindowAt(c, s, id, x, ttlSec, k); }
      }
    }
  }

  lemma ValidatePairAt(c: Config, s: State, id: Id, requested: Option<string>, k: Id)
    ensures PairAt(c, s, k) ==> PairAt(c, DoValidate(c, s, id, requested).0, k)
    ensures SoundTtl(c) && WindowAt(c, s, k) ==> WindowAt(c, DoValidate(c, s, id, requested).0, k)
  {
    hide PairAt, WindowAt, DoAccess, DoInstall;
    if id !in s.mem && Readable(c, s, id) {
      InstallPairAt(c, s, id, s.redis[id].data, requested, k);
    }
    AccessPairAt(c, DoRestore(c, s, id, requested), id, k);
  }

  /** Right after validation, with the session accessed now, a refill of group keys writes a full life. */
  lemma RefreshPairAt(c: Config, s: State, id: Id, refetched: Option<seq<string>>, authOk: bool, k: Id)
    requires id in s.mem && s.mem[id].lastAccessedAt == s.now && s.mem[id].expiresAt == s.now + c.ttlMs
    ensures var t := DoAuthenticate(DoRefetch(c, s, id, refetched), id, authOk);
            (PairAt(c, s, k) ==> PairAt(c, t, k)) && (WindowAt(c, s, k) ==> WindowAt(c, t, k))
  {
    CeilSecBounds(c.ttlMs);
    var x := s.mem[id].(ctx := s.mem[id].ctx.(groupKeyIds := refetched));
    if PairAt(c, s, k) { PutPairAt(c, s, id, x, CeilSec(c.ttlMs), k); }
    if WindowAt(c, s, k) { PutWindowAt(c, s, id, x, CeilSec(c.ttlMs), k); }
  }

  lemma CommitPairAt(c: Config, s: State, id: Id, ctx: Context, version: Option<string>, k: Id)
    ensures PairAt(c, s, k) ==> PairAt(c, DoCreate(c, s, id, ctx, version), k)
    ensures SoundTtl(c) && WindowAt(c, s, k) ==> WindowAt(c, DoCreate(c, s, id, ctx, version), k)
  {
    var x := NewSession(c, s.now, ctx, version);
    if PairAt(c, s, k) { PutPairAt(c, s, id, x, c.cacheTtlSec, k); }
    if SoundTtl(c) && WindowAt(c, s, k) { PutWindowAt(c, s, id, x, c.cacheTtlSec, k); }
  }

  lemma AccessedNow(c: Config, s: State, id: Id, requested: Option<string>)
    requires DoValidate(c, s, id, requested).1.Valid?
    ensures var r := DoValidate(c, s, id, requested).0;
            id in r.mem && r.mem[id].lastAccessedAt == r.now && r.mem[id].expiresAt == r.now + c.ttlMs
  {
  }

  lemma HandlePairAt(c: Config, s: State, e: Event, k: Id)
    requires e.Handle?
    ensures PairAt(c, s, k) ==> PairAt(c, Step(c, s, e), k)
    ensures SoundTtl(c) && WindowAt(c, s, k) ==> WindowAt(c, Step(c, s, e), k)
  {
    hide PairAt, WindowAt, Step, DoValidate, DoCreate, DoRefetch, DoAuthenticate;
    var (r, v) := DoValidate(c, s, e.id, e.requested);
    ValidatePairAt(c, s, e.id, e.requested, k);
    if v.Valid? {
      ServedRequest(c, s, e);
      AccessedNow(c, s, e.id, e.requested);
      RefreshPairAt(c, r, e.id, e.refetched, e.authOk, k);
    } else {
      LostRequest(c, s, e);
      if e.auth.Some? {
        CommitPairAt(c, r, e.id, e.auth.value.(authenticated := true), Supported(c, e.requested), k);
      }
    }
  }

  lemma RotatePairAt(c: Config, s: State, oldId: Id, newId: Id, k: Id)
    ensures PairAt(c, s, k) ==> PairAt(c, DoRotate(c, s, oldId, newId).0, k)
    ensures SoundTtl(c) && WindowAt(c, s, k) ==> WindowAt(c, DoRotate(c, s, oldId, newId).0, k)
  {
    RotateEnds(c, s, oldId, newId);
    hide DoRotate, RotateTrace;
    ClosePairAt(c, s, oldId, k);
    if Rotatable(c, s, oldId) {
      CommitPairAt(c, s, newId, Existing(c, s, oldId).value.ctx, None, k);
    }
  }

  lemma NegotiatePairAt(c: Config, s: State, id: Id, version: string, k: Id)
    ensures PairAt(c, s, k) ==> PairAt(c, DoNegotiate(c, s, id, version), k)
    ensures (k == id ==> InTime(s, id)) && WindowAt(c, s, k) ==> WindowAt(c, DoNegotiate(c, s, id, version), k)
  {
    if id in s.mem {
      CeilSecBounds(s.mem[id].expiresAt - s.now);
      var x := s.mem[id].(version := Some(version));
      var ttlSec := Max(CeilSec(x.expiresAt - s.now), 60);
      if PairAt(c, s, k) && k == id { PutPairAt(c, s, id, x, ttlSec, k); }
      if (k == id ==> InTime(s, id)) && WindowAt(c, s, k) { PutWindowAt(c, s, id, x, ttlSec, k); }
    }
  }

  predicate TimelyFor(s: State, e: Event, id: Id) {
    e.Negotiate? && e.id == id ==> InTime(s, id)
  }

  /** No assumption on lifetimes or delays for agreement; a sound configuration and timeliness for this id for its window. */
  lemma StepPairAt(c: Config, s: State, e: Event, k: Id)
    ensures PairAt(c, s, k) ==> PairAt(c, Step(c, s, e), k)
    ensures SoundTtl(c) && TimelyFor(s, e, k) && WindowAt(c, s, k) ==> WindowAt(c, Step(c, s, e), k)
  {
    match e
    case Create(id, ctx) => CommitPairAt(c, s, id, ctx, None, k);
    case Validate(id, requested) => ValidatePairAt(c, s, id, requested, k);
    case Handle(_, _, _, _, _) => HandlePairAt(c, s, e, k);
    case Install(id, copy, requested) => InstallPairAt(c, s, id, copy, requested, k);
    case CommitRecovery(id, ctx, requested) => CommitPairAt(c, s, id, ctx.(authenticated := true), Supported(c, requested), k);
    case Rotate(oldId, newId) => RotatePairAt(c, s, oldId, newId, k);
    case Close(id) => ClosePairAt(c, s, id, k);
    case Negotiate(id, version) => NegotiatePairAt(c, s, id, version, k);
    case _ =>
  }

  lemma {:induction false} RunPairAt(c: Config, s: State, es: seq<Event>, id: Id)
    requires PairAt(c, s, id)
    ensures PairAt(c, Run(c, s, es), id)
    decreases |es|
  {
    if es != [] {
      StepPairAt(c, s, es[0], id);
      RunPairAt(c, Step(c, s, es[0]), es[1..], id);
    }
  }

  /** The version write-backs to one id are in time. */
  predicate AllTimelyFor(c: Config, s: State, es: seq<Event>, id: Id)
    decreases |es|
  {
    es == [] || (TimelyFor(s, es[0], id) && AllTimelyFor(c, Step(c, s, es[0]), es[1..], id))
  }

  lemma {:induction false} RunWindowAt(c: Config, s: State, es: seq<Event>, id: Id)
    requires SoundTtl(c) && WindowAt(c, s, id) && AllTimelyFor(c, s, es, id)
    ensures WindowAt(c, Run(c, s, es), id)
    decreases |es|
  {
    if es != [] {
      StepPairAt(c, s, es[0], id);
      RunWindowAt(c, Step(c, s, es[0]), es[1..], id);
    }
  }

  /**
   * After every run, late write-backs and all, and under every configuration with Redis, a session in memory has a
   * copy that differs at most in `authenticated`, `lastReflectedAt` and `version`. If new copies live as long as new
   * sessions, it stays readable as long as the session is live.
   */
  lemma CopiesAgree(c: Config, t0: int, es: seq<Event>, id: Id)
    requires c.redisEnabled
    ensures var s := Run(c, Start(t0), es);
            id in s.mem ==>
              && id in s.redis && Agree(s.mem[id], s.redis[id].data)
              && (Covers(c) && Live(c, s, id) ==> Readable(c, s, id))
  {
    RunPairAt(c, Start(t0), es, id);
  }

  // ---------------------------------------------------------------- runs and the window

  lemma {:induction false} AllowedIsPossible(c: Config, s: State, es: seq<Event>)
    requires Allowed(c, s, es)
    ensures Possible(c, s, es)
    decreases |es|
  {
    if es != [] {
      AllowedIsPossible(c, Step(c, s, es[0]), es[1..]);
    }
  }

  lemma StepEarlier(c: Config, s: State, tickets: set<Ticket>, e: Event, es: seq<Event>)
    requires Enabled(s, e) && Backed(tickets, e) && Possible(c, Step(c, s, e), es)
    requires Grounded(c, Step(c, s, e), if e.Restart? then {} else tickets + Earned(c, s, e), es)
    ensures Possible(c, s, [e] + es) && Grounded(c, s, tickets, [e] + es)
    ensures Run(c, s, [e] + es) == Run(c, Step(c, s, e), es)
  {
    assert ([e] + es)[1..] == es;
  }

  /** Putting one step that remembers nothing before a run. */
  lemma OneStepEarlier(c: Config, s: State, e: Event, es: seq<Event>)
    requires (e.Create? || e.Tick? || e.Negotiate? || e.Restart?) && Enabled(s, e)
    requires Possible(c, Step(c, s, e), es) && Grounded(c, Step(c, s, e), {}, es)
    ensures Possible(c, s, [e] + es) && Grounded(c, s, {}, [e] + es) && Run(c, s, [e] + es) == Run(c, Step(c, s, e), es)
    ensures Timely(s, e) && Allowed(c, Step(c, s, e), es) ==> Allowed(c, s, [e] + es)
  {
    assert ([e] + es)[1..] == es && {} + Earned(c, s, e) == {};
  }

  const ANON := Context(false, None, None, None, None, None)

  /** Creating a session, and perhaps validating it at once, leaves the window when the configuration is unsound. */
  lemma WindowBroken(c: Config, t0: int) returns (es: seq<Event>)
    requires c.ttlMs >= 0 && !SoundTtl(c)
    ensures Allowed(c, Start(t0), es) && !Windowed(Run(c, Start(t0), es))
  {
    var s1 := Step(c, Start(t0), Create("a", ANON));
    var s2 := Step(c, s1, Validate("a", None));
    var e1, e2 := [Create("a", ANON)], [Create("a", ANON), Validate("a", None)];
    CeilSecBounds(c.ttlMs);
    assert e1[1..] == [] && e2[1..] == [Validate("a", None)] && e2[1..][1..] == [];
    assert Run(c, Start(t0), e1) == s1 && Allowed(c, Start(t0), e1);
    assert Run(c, s1, e2[1..]) == s2 && Run(c, Start(t0), e2) == s2 && Allowed(c, Start(t0), e2);
    es := if InWindow(s1.redis["a"]) then e2 else e1;
    assert !InWindow(Run(c, Start(t0), es).redis["a"]);
  }

  lemma {:induction false} AllowedTimelyFor(c: Config, s: State, es: seq<Event>, id: Id)
    requires Allowed(c, s, es)
    ensures AllTimelyFor(c, s, es, id)
    decreases |es|
  {
    if es != [] {
      AllowedTimelyFor(c, Step(c, s, es[0]), es[1..], id);
    }
  }

  /**
   * With write-backs in time, the window holds in every reachable state exactly when the configuration is sound:
   * an overridden cache lifetime, or sessions shorter than the 60 s floor on refreshes, both break it.
   */
  lemma WindowIffSoundTtl(c: Config, t0: int)
    requires c.ttlMs >= 0
    ensures SoundTtl(c) <==> forall es :: Allowed(c, Start(t0), es) ==> Windowed(Run(c, Start(t0), es))
  {
    if SoundTtl(c) {
      forall es | Allowed(c, Start(t0), es) ensures Windowed(Run(c, Start(t0), es)) {
        forall id | id in Run(c, Start(t0), es).redis ensures InWindow(Run(c, Start(t0), es).redis[id]) {
          AllowedTimelyFor(c, Start(t0), es, id);
          RunWindowAt(c, Start(t0), es, id);
        }
      }
    } else {
      var es := WindowBroken(c, t0);
      assert Allowed(c, Start(t0), es) && !Windowed(Run(c, Start(t0), es));
    }
  }

  /** Writing the negotiated version back keeps the copy in its window exactly when it is in time. */
  lemma NegotiateInWindowIffInTime(c: Config, s: State, id: Id, version: string)
    requires c.redisEnabled && id in s.mem
    ensures InTime(s, id) <==> InWindow(DoNegotiate(c, s, id, version).redis[id])
  {
    CeilSecBounds(s.mem[id].expiresAt - s.now);
  }

  /** The window holds after every step of the run. */
  ghost predicate WindowedThroughout(c: Config, s: State, es: seq<Event>)
    decreases |es|
  {
    es == [] || (Windowed(Step(c, s, es[0])) && WindowedThroughout(c, Step(c, s, es[0]), es[1..]))
  }

  lemma StepWindowed(c: Config, s: State, e: Event)
    requires SoundTtl(c) && c.redisEnabled && Windowed(s) && Timely(s, e)
    ensures Windowed(Step(c, s, e))
  {
    hide Step;
    forall id | id in Step(c, s, e).redis ensures InWindow(Step(c, s, e).redis[id]) {
      assert id in s.redis ==> InWindow(s.redis[id]);
      StepPairAt(c, s, e, id);
    }
  }

  /** The same for one id: whatever happens to others, its copy leaves the window by its own late write-backs only. */
  predicate WindowedThroughoutFor(c: Config, s: State, es: seq<Event>, id: Id)
    decreases |es|
  {
    es == [] || (WindowAt(c, Step(c, s, es[0]), id) && WindowedThroughoutFor(c, Step(c, s, es[0]), es[1..], id))
  }

  lemma {:induction false} WindowedIffTimelyFor(c: Config, s: State, es: seq<Event>, id: Id)
    requires SoundTtl(c) && c.redisEnabled && WindowAt(c, s, id)
    ensures WindowedThroughoutFor(c, s, es, id) <==> AllTimelyFor(c, s, es, id)
    decreases |es|
  {
    if es != [] {
      if TimelyFor(s, es[0], id) {
        StepPairAt(c, s, es[0], id);
        WindowedIffTimelyFor(c, Step(c, s, es[0]), es[1..], id);
      } else {
        NegotiateInWindowIffInTime(c, s, id, es[0].version);
      }
    }
  }

  /** Under a sound configuration late write-backs are all that takes a run out of the window, and each one does. */
  lemma {:induction false} WindowedThroughoutIffAllowed(c: Config, s: State, es: seq<Event>)
    requires SoundTtl(c) && c.redisEnabled && Windowed(s) && Possible(c, s, es)
    ensures WindowedThroughout(c, s, es) <==> Allowed(c, s, es)
    decreases |es|
  {
    if es != [] {
      if Timely(s, es[0]) {
        StepWindowed(c, s, es[0]);
        WindowedThroughoutIffAllowed(c, Step(c, s, es[0]), es[1..]);
      } else {
        NegotiateInWindowIffInTime(c, s, es[0].id, es[0].version);
        assert !InWindow(Step(c, s, es[0]).redis[es[0].id]);
      }
    }
  }

  /** A write-back can be late: one 59 s before the end of a session's life takes its copy out of the window. */
  lemma LateNegotiationReachable(c: Config, t0: int) returns (es: seq<Event>)
    requires SoundTtl(c) && c.redisEnabled
    ensures Possible(c, Start(t0), es) && Grounded(c, Start(t0), {}, es) && !Windowed(Run(c, Start(t0), es))
  {
    var e1, e2, e3 := Create("a", ANON), Tick(c.ttlMs - 59000), Negotiate("a", "");
    var s1 := Step(c, Start(t0), e1);
    var s2 := Step(c, s1, e2);
    NegotiateInWindowIffInTime(c, s2, "a", "");
    assert !InWindow(Step(c, s2, e3).redis["a"]);
    OneStepEarlier(c, s2, e3, []);
    OneStepEarlier(c, s1, e2, [e3] + []);
    OneStepEarlier(c, Start(t0), e1, [e2] + ([e3] + []));
    es := [e1] + ([e2] + ([e3] + []));
  }

  // ---------------------------------------------------------------- revival by idle time

  function IdleFor(s: State, id: Id): int
    requires id in s.redis
  {
    s.now - s.redis[id].data.lastAccessedAt
  }

  function Later(s: State, ms: nat): State {
    s.(now := s.now + ms)
  }

  predicate RevivedAt(c: Config, s: State, id: Id, ms: nat) {
    DoValidate(c, Later(s, ms), id, None).1.Valid?
  }

  /** A request `ms` from now revives a session idle for a second more than its life. */
  predicate Overdue(c: Config, s: State, id: Id, ms: nat)
    requires id in s.redis
  {
    RevivedAt(c, s, id, ms) && IdleFor(Later(s, ms), id) >= c.ttlMs + 1000
  }

  /** A request `ms` from now finds a session gone that was not idle for longer than its life. */
  predicate CutShort(c: Config, s: State, id: Id, ms: nat)
    requires id in s.redis
  {
    !RevivedAt(c, s, id, ms) && IdleFor(Later(s, ms), id) <= c.ttlMs
  }

  lemma RevivedIffReadable(c: Config, s: State, id: Id, ms: nat)
    requires c.ttlMs >= 0 && id !in s.mem
    ensures RevivedAt(c, s, id, ms) <==> Readable(c, Later(s, ms), id)
  {
    ValidIffLive(c, Later(s, ms), id, None);
  }

  /**
   * After any run and under any configuration, a readable copy of a session missing from memory can still be revived
   * too late exactly if Redis keeps it a second past its stored expiry, and be lost too early exactly if Redis
   * forgets it before: both are ruled out exactly in the window.
   */
  lemma RevivalInBoundsIffInWindow(c: Config, t0: int, es: seq<Event>, id: Id)
    requires c.ttlMs >= 0
    ensures var s := Run(c, Start(t0), es);
            id !in s.mem && Readable(c, s, id) ==>
              && ((exists ms: nat :: Overdue(c, s, id, ms)) <==> s.redis[id].deadline >= s.redis[id].data.expiresAt + 1000)
              && ((exists ms: nat :: CutShort(c, s, id, ms)) <==> s.redis[id].deadline < s.redis[id].data.expiresAt)
              && (InWindow(s.redis[id]) <==> forall ms: nat :: !Overdue(c, s, id, ms) && !CutShort(c, s, id, ms))
  {
    var s := Run(c, Start(t0), es);
    RunPairAt(c, Start(t0), es, id);
    if id !in s.mem && Readable(c, s, id) {
      var x := s.redis[id];
      forall ms: nat ensures RevivedAt(c, s, id, ms) <==> s.now + ms <= x.deadline { RevivedIffReadable(c, s, id, ms); }
      hide RevivedAt;
      if x.deadline >= x.data.expiresAt + 1000 { assert Overdue(c, s, id, x.deadline - s.now); }
      if x.deadline < x.data.expiresAt { assert CutShort(c, s, id, x.deadline + 1 - s.now); }
    }
  }

  /**
   * Under a sound configuration, whatever happens to other ids: if the write-backs to this one were in time, its
   * session, missing from memory, is revived if it was idle for at most the session life, and never once it was idle
   * a second longer, although restoring skips the expiry check.
   */
  lemma RevivalBoundedByIdleTime(c: Config, t0: int, es: seq<Event>, id: Id, requested: Option<string>)
    requires SoundTtl(c) && c.ttlMs >= 0 && AllTimelyFor(c, Start(t0), es, id)
    ensures var s := Run(c, Start(t0), es);
            id !in s.mem && id in s.redis ==>
              var valid := DoValidate(c, s, id, requested).1.Valid?;
              (IdleFor(s, id) <= c.ttlMs ==> valid) && (valid ==> IdleFor(s, id) < c.ttlMs + 1000)
    ensures var s := Run(c, Start(t0), es);
            id !in s.mem && id !in s.redis ==> DoValidate(c, s, id, requested) == (s, NotFound)
  {
    RunPairAt(c, Start(t0), es, id);
    RunWindowAt(c, Start(t0), es, id);
    ValidIffLive(c, Run(c, Start(t0), es), id, requested);
  }

  /** One write-back at the end of a session's life lets it be revived after a second more than that life. */
  lemma OverdueRevivalReachable(c: Config, t0: int) returns (es: seq<Event>)
    requires SoundTtl(c) && c.redisEnabled
    ensures Possible(c, Start(t0), es) && Grounded(c, Start(t0), {}, es)
    ensures var s := Run(c, Start(t0), es); "a" !in s.mem && "a" in s.redis && Overdue(c, s, "a", 0)
  {
    var e1, e2, e3, e4, e5 := Create("a", ANON), Tick(c.ttlMs), Negotiate("a", ""), Tick(1000), Restart;
    var s1 := Step(c, Start(t0), e1);
    var s2 := Step(c, s1, e2);
    var s3 := Step(c, s2, e3);
    var s4 := Step(c, s3, e4);
    var s5 := Step(c, s4, e5);
    assert "a" !in s5.mem && Readable(c, s5, "a") && IdleFor(s5, "a") == c.ttlMs + 1000;
    RevivedIffReadable(c, s5, "a", 0);
    OneStepEarlier(c, s4, e5, []);
    OneStepEarlier(c, s3, e4, [e5] + []);
    OneStepEarlier(c, s2, e3, [e4] + ([e5] + []));
    OneStepEarlier(c, s1, e2, [e3] + ([e4] + ([e5] + [])));
    OneStepEarlier(c, Start(t0), e1, [e2] + ([e3] + ([e4] + ([e5] + []))));
    es := [e1] + ([e2] + ([e3] + ([e4] + ([e5] + []))));
  }

  // ---------------------------------------------------------------- validation

  /** A session the next request would still be served on. */
  predicate Live(c: Config, s: State, id: Id) {
    if id in s.mem then s.now <= s.mem[id].expiresAt else Readable(c, s, id)
  }

  ghost predicate SameElsewhere(s: State, t: State, id: Id) {
    forall k :: k != id ==>
      && (k in s.mem <==> k in t.mem) && (k in s.mem ==> t.mem[k] == s.mem[k])
      && (k in s.redis <==> k in t.redis) && (k in s.redis ==> t.redis[k] == s.redis[k])
  }

  /**
   * Validation accepts exactly the live sessions. It slides their expiry in both copies and leaves who they
   * belong to alone; an expired session it erases from both; no other session is touched.
   */
  lemma ValidIffLive(c: Config, s: State, id: Id, requested: Option<string>)
    requires c.ttlMs >= 0
    ensures var (r, v) := DoValidate(c, s, id, requested);
            && (v.Valid? <==> Live(c, s, id))
            && (v.Expired? <==> id in s.mem && !Live(c, s, id))
            && SameElsewhere(s, r, id)
            && (v.Valid? ==>
                  && v.session.ctx == Existing(c, s, id).value.ctx
                  && v.session.lastAccessedAt == s.now && v.session.expiresAt == s.now + c.ttlMs
                  && id in r.mem && r.mem[id] == v.session
                  && (c.redisEnabled ==> id in r.redis && r.redis[id].data == v.session))
            && (v.Expired? ==> id !in r.mem && (c.redisEnabled ==> id !in r.redis))
            && (v.NotFound? ==> r == s)
  {
    var r := DoRestore(c, s, id, requested);
    assert SameElsewhere(s, r, id);
  }

  /** A restored session speaks the requested version at once, in both copies; one in memory keeps its own. */
  lemma RestoreReanchors(c: Config, s: State, id: Id, requested: Option<string>)
    requires c.ttlMs >= 0 && Live(c, s, id)
    ensures var (r, v) := DoValidate(c, s, id, requested);
            var was := Existing(c, s, id).value.version;
            && v.Valid?
            && v.session.version == (if id in s.mem || Supported(c, requested).None? then was else requested)
            && (c.redisEnabled ==> r.redis[id].data.version == v.session.version)
  {
    ValidIffLive(c, s, id, requested);
  }

  predicate VersionOk(c: Config, x: Session) {
    x.version.Some? ==> x.version.value in c.supported
  }

  ghost predicate VersionsOk(c: Config, s: State) {
    (forall id :: id in s.mem ==> VersionOk(c, s.mem[id])) && forall id :: id in s.redis ==> VersionOk(c, s.redis[id].data)
  }

  lemma PutKeepsVersions(c: Config, s: State, id: Id, x: Session, ttlSec: int)
    requires VersionsOk(c, s) && VersionOk(c, x)
    ensures VersionsOk(c, SetEx(c, s.(mem := s.mem[id := x]), id, x, ttlSec))
  {
  }

  lemma ValidateKeepsVersions(c: Config, s: State, id: Id, requested: Option<string>)
    requires VersionsOk(c, s)
    ensures VersionsOk(c, DoValidate(c, s, id, requested).0)
  {
    if id !in s.mem && Readable(c, s, id) {
      PutKeepsVersions(c, s, id, Revived(c, s.now, s.redis[id].data, requested), CeilSec(c.ttlMs));
    }
    var r := DoRestore(c, s, id, requested);
    assert VersionsOk(c, r);
    if id in r.mem {
      PutKeepsVersions(c, r, id, Touch(c, r.now, r.mem[id]), Max(CeilSec(c.ttlMs), 60));
    }
  }

  lemma HandleKeepsVersions(c: Config, s: State, id: Id, refetched: Option<seq<string>>, authOk: bool)
    requires VersionsOk(c, s)
    ensures VersionsOk(c, DoAuthenticate(DoRefetch(c, s, id, refetched), id, authOk))
  {
    if id in s.mem {
      PutKeepsVersions(c, s, id, s.mem[id].(ctx := s.mem[id].ctx.(groupKeyIds := refetched)), CeilSec(c.ttlMs));
    }
  }

  lemma RotateKeepsVersions(c: Config, s: State, oldId: Id, newId: Id)
    requires VersionsOk(c, s)
    ensures VersionsOk(c, DoRotate(c, s, oldId, newId).0)
  {
  }

  lemma HandleStepKeepsVersions(c: Config, s: State, e: Event)
    requires e.Handle? && VersionsOk(c, s)
    ensures VersionsOk(c, Step(c, s, e))
  {
    var (r, v) := DoValidate(c, s, e.id, e.requested);
    ValidateKeepsVersions(c, s, e.id, e.requested);
    if v.Valid? {
      HandleKeepsVersions(c, r, e.id, e.refetched, e.authOk);
    } else if e.auth.Some? {
      PutKeepsVersions(c, r, e.id, NewSession(c, r.now, e.auth.value.(authenticated := true), Supported(c, e.requested)), c.cacheTtlSec);
    }
  }

  ghost predicate TicketsOk(c: Config, tickets: set<Ticket>) {
    forall t :: t in tickets && t.MayInstall? ==> VersionOk(c, t.copy)
  }

  lemma StepKeepsVersions(c: Config, s: State, tickets: set<Ticket>, e: Event)
    requires VersionsOk(c, s) && TicketsOk(c, tickets) && Backed(tickets, e) && (e.Negotiate? ==> e.version in c.supported)
    ensures VersionsOk(c, Step(c, s, e)) && TicketsOk(c, tickets + Earned(c, s, e))
  {
    match e
    case Validate(id, requested) => ValidateKeepsVersions(c, s, id, requested);
    case Handle(_, _, _, _, _) => HandleStepKeepsVersions(c, s, e);
    case Rotate(oldId, newId) => RotateKeepsVersions(c, s, oldId, newId);
    case Install(id, copy, requested) =>
      assert VersionOk(c, MayInstall(id, copy).copy);
      PutKeepsVersions(c, s, id, Revived(c, s.now, copy, requested), CeilSec(c.ttlMs));
    case _ =>
  }

  /** Whatever versions requests name, an unsupported one reaches neither copy, if initialize never grants one. */
  lemma {:induction false} OnlySupportedVersionsStored(c: Config, s: State, tickets: set<Ticket>, es: seq<Event>)
    requires VersionsOk(c, s) && TicketsOk(c, tickets) && Grounded(c, s, tickets, es)
    requires forall i :: 0 <= i < |es| && es[i].Negotiate? ==> es[i].version in c.supported
    ensures VersionsOk(c, Run(c, s, es))
    decreases |es|
  {
    if es != [] {
      StepKeepsVersions(c, s, tickets, es[0]);
      OnlySupportedVersionsStored(c, Step(c, s, es[0]), if es[0].Restart? then {} else tickets + Earned(c, s, es[0]), es[1..]);
    }
  }

  /** One new session whose initialize is granted an unsupported version stores it. */
  lemma UnsupportedVersionReachable(c: Config, t0: int, version: string) returns (es: seq<Event>)
    requires 59000 < c.ttlMs && version !in c.supported
    ensures Allowed(c, Start(t0), es) && Grounded(c, Start(t0), {}, es) && !VersionsOk(c, Run(c, Start(t0), es))
  {
    var e1, e2 := Create("a", ANON), Negotiate("a", version);
    var s1 := Step(c, Start(t0), e1);
    VersionsKeptIffGrantSupported(c, s1, "a", version);
    OneStepEarlier(c, s1, e2, []);
    OneStepEarlier(c, Start(t0), e1, [e2] + []);
    es := [e1] + ([e2] + []);
  }

  /** Writing back what initialize granted is the one step that can store an unsupported version, and it does so verbatim. */
  lemma VersionsKeptIffGrantSupported(c: Config, s: State, id: Id, version: string)
    requires VersionsOk(c, s) && id in s.mem
    ensures VersionsOk(c, DoNegotiate(c, s, id, version)) <==> version in c.supported
  {
    assert DoNegotiate(c, s, id, version).mem[id].version == Some(version);
  }

  // ---------------------------------------------------------------- identity

  function KeyOf(s: State, id: Id): Option<string>
    requires id in s.mem || id in s.redis
  {
    if id in s.mem then s.mem[id].ctx.keyId else s.redis[id].data.ctx.keyId
  }

  /** The step hands no live id over to another key. */
  ghost predicate KeyKept(c: Config, s: State, e: Event) {
    var t := Step(c, s, e);
    forall id :: Live(c, s, id) && Live(c, t, id) ==> KeyOf(s, id) == KeyOf(t, id)
  }

  ghost predicate KeysKept(c: Config, s: State, es: seq<Event>)
    decreases |es|
  {
    es == [] || (KeyKept(c, s, es[0]) && KeysKept(c, Step(c, s, es[0]), es[1..]))
  }

  /** A handler's write finds its id dead, or live under the key it writes. */
  predicate Clean(c: Config, s: State, e: Event) {
    && (e.CommitRecovery? && Live(c, s, e.id) ==> KeyOf(s, e.id) == e.ctx.keyId)
    && (e.Install? && Live(c, s, e.id) ==> KeyOf(s, e.id) == e.copy.ctx.keyId)
  }

  predicate AllClean(c: Config, s: State, es: seq<Event>)
    decreases |es|
  {
    es == [] || (Clean(c, s, es[0]) && AllClean(c, Step(c, s, es[0]), es[1..]))
  }

  /** Unlike the window and the ages, this survives any configuration and any delay. */
  predicate SameKeyAt(c: Config, s: State, id: Id) {
    c.redisEnabled && id in s.mem && id in s.redis ==> s.mem[id].ctx.keyId == s.redis[id].data.ctx.keyId
  }

  ghost predicate SameKeys(c: Config, s: State) {
    forall id :: SameKeyAt(c, s, id)
  }

  lemma ValidateKeepsKeyAt(c: Config, s: State, id0: Id, requested: Option<string>, id: Id)
    requires SameKeyAt(c, s, id)
    ensures var r := DoValidate(c, s, id0, requested).0;
            && SameKeyAt(c, r, id)
            && (Live(c, s, id) && (id in r.mem || id in r.redis) ==> KeyOf(s, id) == KeyOf(r, id))
            && (id != id0 ==> (Live(c, r, id) <==> Live(c, s, id)))
  {
  }

  lemma RefreshKeepsKeyAt(c: Config, s: State, id0: Id, refetched: Option<seq<string>>, authOk: bool, id: Id)
    requires SameKeyAt(c, s, id)
    ensures var t := DoAuthenticate(DoRefetch(c, s, id0, refetched), id0, authOk);
            && SameKeyAt(c, t, id)
            && (id in s.mem || id in s.redis ==> (id in t.mem || id in t.redis) && KeyOf(s, id) == KeyOf(t, id))
  {
  }

  lemma HandleKeepsKeyAt(c: Config, s: State, e: Event, id: Id)
    requires e.Handle? && c.ttlMs >= 0 && SameKeyAt(c, s, id)
    ensures var t := Step(c, s, e);
            && SameKeyAt(c, t, id)
            && (Live(c, s, id) && (id in t.mem || id in t.redis) ==> KeyOf(s, id) == KeyOf(t, id))
  {
    var (r, v) := DoValidate(c, s, e.id, e.requested);
    ValidIffLive(c, s, e.id, e.requested);
    ValidateKeepsKeyAt(c, s, e.id, e.requested, id);
    if v.Valid? {
      RefreshKeepsKeyAt(c, r, e.id, e.refetched, e.authOk, id);
      assert id in Step(c, s, e).mem || id in Step(c, s, e).redis ==> id in r.mem || id in r.redis;
    }
  }

  lemma WriteKeepsKeyAt(c: Config, s: State, e: Event, id: Id)
    requires e.Install? || e.CommitRecovery?
    requires c.ttlMs >= 0 && SameKeyAt(c, s, id)
    ensures SameKeyAt(c, Step(c, s, e), id) && Live(c, Step(c, s, e), e.id)
    ensures KeyOf(Step(c, s, e), e.id) == if e.Install? then e.copy.ctx.keyId else e.ctx.keyId
    ensures id != e.id && Live(c, s, id) ==> KeyOf(s, id) == KeyOf(Step(c, s, e), id)
  {
  }

  lemma RotateKeepsKeyAt(c: Config, s: State, oldId: Id, newId: Id, id: Id)
    requires SameKeyAt(c, s, id) && Fresh(s, newId)
    ensures var t := DoRotate(c, s, oldId, newId).0;
            SameKeyAt(c, t, id) && (Live(c, s, id) && Live(c, t, id) ==> KeyOf(s, id) == KeyOf(t, id))
  {
  }

  lemma StepKeepsKeyAt(c: Config, s: State, e: Event, id: Id)
    requires c.ttlMs >= 0 && SameKeyAt(c, s, id) && Enabled(s, e)
    ensures SameKeyAt(c, Step(c, s, e), id)
    ensures Clean(c, s, e) && Live(c, s, id) && Live(c, Step(c, s, e), id) ==> KeyOf(s, id) == KeyOf(Step(c, s, e), id)
  {
    match e
    case Validate(id0, requested) => ValidateKeepsKeyAt(c, s, id0, requested, id);
    case Handle(_, _, _, _, _) => HandleKeepsKeyAt(c, s, e, id);
    case Install(_, _, _) => WriteKeepsKeyAt(c, s, e, id);
    case CommitRecovery(_, _, _) => WriteKeepsKeyAt(c, s, e, id);
    case Rotate(oldId, newId) => RotateKeepsKeyAt(c, s, oldId, newId, id);
    case _ =>
  }

  /** A step re-keys a live id exactly if it is a handler's write that finds the id live under another key. */
  lemma KeyKeptIffClean(c: Config, s: State, e: Event)
    requires c.ttlMs >= 0 && SameKeys(c, s) && Enabled(s, e)
    ensures SameKeys(c, Step(c, s, e))
    ensures KeyKept(c, s, e) <==> Clean(c, s, e)
  {
    forall id ensures SameKeyAt(c, Step(c, s, e), id) {
      StepKeepsKeyAt(c, s, e, id);
    }
    if Clean(c, s, e) {
      forall id | Live(c, s, id) && Live(c, Step(c, s, e), id) ensures KeyOf(s, id) == KeyOf(Step(c, s, e), id) {
        StepKeepsKeyAt(c, s, e, id);
      }
    } else {
      WriteKeepsKeyAt(c, s, e, e.id);
    }
  }

  /** Over a whole run, with or without Redis and whatever the lifetimes: keys are stable exactly if all writes are clean. */
  lemma {:induction false} KeysKeptIffAllClean(c: Config, s: State, es: seq<Event>)
    requires c.ttlMs >= 0 && SameKeys(c, s) && Possible(c, s, es)
    ensures KeysKept(c, s, es) <==> AllClean(c, s, es)
    decreases |es|
  {
    if es != [] {
      KeyKeptIffClean(c, s, es[0]);
      KeysKeptIffAllClean(c, Step(c, s, es[0]), es[1..]);
    }
  }

  /** Requests handled one after the other, each without interruption, never re-key a live id. */
  lemma {:induction false} UninterruptedHandlersKeepKeys(c: Config, s: State, es: seq<Event>)
    requires c.ttlMs >= 0 && SameKeys(c, s) && Possible(c, s, es)
    requires forall i :: 0 <= i < |es| ==> !es[i].Install? && !es[i].CommitRecovery?
    ensures KeysKept(c, s, es)
    decreases |es|
  {
    if es != [] {
      KeyKeptIffClean(c, s, es[0]);
      UninterruptedHandlersKeepKeys(c, Step(c, s, es[0]), es[1..]);
    }
  }

  /** A possible, grounded run that re-keys a live id. */
  predicate Races(c: Config, s: State, tickets: set<Ticket>, es: seq<Event>) {
    Possible(c, s, es) && Grounded(c, s, tickets, es) && !AllClean(c, s, es)
  }

  lemma RaceNow(c: Config, s: State, tickets: set<Ticket>, e: Event)
    requires Enabled(s, e) && Backed(tickets, e) && !Clean(c, s, e)
    ensures Races(c, s, tickets, [e])
  {
    assert [e][0] == e && [e][1..] == [];
  }

  lemma RaceLater(c: Config, s: State, tickets: set<Ticket>, e: Event, es: seq<Event>)
    requires Enabled(s, e) && Backed(tickets, e) && !e.Restart?
    requires Races(c, Step(c, s, e), tickets + Earned(c, s, e), es)
    ensures Races(c, s, tickets, [e] + es)
  {
    assert ([e] + es)[0] == e && ([e] + es)[1..] == es;
  }

  const K1 := ANON.(keyId := Some("k1"))
  const K2 := ANON.(keyId := Some("k2"))

  /** Two recoveries of one lost id by different keys: both checks pass before either write, and the second write re-keys. */
  lemma RecoveryRace(c: Config, t0: int) returns (es: seq<Event>)
    requires c.ttlMs >= 0
    ensures Possible(c, Start(t0), es) && Grounded(c, Start(t0), {}, es) && !KeysKept(c, Start(t0), es)
  {
    var s := Start(t0);
    var e1, e2 := CheckRecovery("a", K1), CheckRecovery("a", K2);
    var e3, e4 := CommitRecovery("a", K1, None), CommitRecovery("a", K2, None);
    var w1 := {} + Earned(c, s, e1);
    var w2 := w1 + Earned(c, s, e2);
    var s3 := Step(c, s, e3);
    assert Live(c, s3, "a") && MayRecover("a", K1) in w2 && MayRecover("a", K2) in w2;
    RaceNow(c, s3, w2 + Earned(c, s, e3), e4);
    RaceLater(c, s, w2, e3, [e4]);
    RaceLater(c, s, w1, e2, [e3] + [e4]);
    es := [e1] + ([e2] + ([e3] + [e4]));
    RaceLater(c, s, {}, e1, [e2] + ([e3] + [e4]));
    KeysKeptIffAllClean(c, s, es);
  }

  /**
   * A copy read for a restoration while another request restores and closes the session and a third recovers the id
   * under its own key: the late restoration puts the old key back.
   */
  lemma RestorationRace(c: Config, s: State) returns (es: seq<Event>)
    requires c.ttlMs >= 0 && c.redisEnabled && SameKeys(c, s)
    requires s.mem == map[] && Readable(c, s, "a") && s.redis["a"].data.ctx.keyId != K2.keyId
    ensures Possible(c, s, es) && Grounded(c, s, {}, es) && !KeysKept(c, s, es)
  {
    var copy := s.redis["a"].data;
    var e1, e2, e3 := Fetch("a"), Validate("a", None), Close("a");
    var e4, e5, e6 := CheckRecovery("a", K2), CommitRecovery("a", K2, None), Install("a", copy, None);
    var s2 := Step(c, s, e2);
    var s3 := Step(c, s2, e3);
    var s5 := Step(c, s3, e5);
    ValidIffLive(c, s, "a", None);
    assert "a" !in s3.mem && "a" !in s3.redis && Live(c, s5, "a") && KeyOf(s5, "a") == K2.keyId;
    var w1 := {} + Earned(c, s, e1);
    var w2 := w1 + Earned(c, s, e2);
    var w3 := w2 + Earned(c, s2, e3);
    var w4 := w3 + Earned(c, s3, e4);
    assert MayInstall("a", copy) in w4 && MayRecover("a", K2) in w4;
    RaceNow(c, s5, w4 + Earned(c, s3, e5), e6);
    RaceLater(c, s3, w4, e5, [e6]);
    RaceLater(c, s3, w3, e4, [e5] + [e6]);
    RaceLater(c, s2, w2, e3, [e4] + ([e5] + [e6]));
    RaceLater(c, s, w1, e2, [e3] + ([e4] + ([e5] + [e6])));
    es := [e1] + ([e2] + ([e3] + ([e4] + ([e5] + [e6]))));
    RaceLater(c, s, {}, e1, [e2] + ([e3] + ([e4] + ([e5] + [e6]))));
    KeysKeptIffAllClean(c, s, es);
  }

  /** The check says whether the write, done now, would be clean. */
  predicate CheckDecides(c: Config, s: State, id: Id, ctx: Context) {
    Accepted(c, s, CheckRecovery(id, ctx)) ==> Clean(c, s, CommitRecovery(id, ctx, None))
  }

  /** Without Redis there is no copy to check; with a short cache lifetime it is gone before the session is. */
  lemma CheckMisleads(c: Config, t0: int) returns (es: seq<Event>, id: Id, ctx: Context)
    requires c.ttlMs >= 0 && !(c.redisEnabled && Covers(c))
    ensures Allowed(c, Start(t0), es) && Grounded(c, Start(t0), {}, es) && !CheckDecides(c, Run(c, Start(t0), es), id, ctx)
  {
    var e1, e2 := Create("a", K1), Tick(if c.redisEnabled then Max(c.cacheTtlSec * 1000 + 1, 0) else 0);
    var s1 := Step(c, Start(t0), e1);
    var s2 := Step(c, s1, e2);
    assert Live(c, s2, "a") && !Readable(c, s2, "a");
    OneStepEarlier(c, s1, e2, []);
    OneStepEarlier(c, Start(t0), e1, [e2] + []);
    es, id, ctx := [e1] + ([e2] + []), "a", K2;
  }

  /**
   * What the check is worth: after every run, late write-backs included, a check that passes means the id is not
   * live under another key at that moment, exactly when Redis is enabled and keeps new copies at least as long as
   * sessions live. Even then the write that comes later can race.
   */
  lemma CheckDecidesIffCopiesCover(c: Config, t0: int)
    requires c.ttlMs >= 0
    ensures c.redisEnabled && Covers(c) <==>
            forall es, id, ctx :: Possible(c, Start(t0), es) ==> CheckDecides(c, Run(c, Start(t0), es), id, ctx)
  {
    if c.redisEnabled && Covers(c) {
      forall es, id, ctx | Possible(c, Start(t0), es) ensures CheckDecides(c, Run(c, Start(t0), es), id, ctx) {
        CopiesAgree(c, t0, es, id);
      }
    } else {
      var es, id, ctx := CheckMisleads(c, t0);
      AllowedIsPossible(c, Start(t0), es);
      assert Possible(c, Start(t0), es) && !CheckDecides(c, Run(c, Start(t0), es), id, ctx);
    }
  }

  /**
   * Right after a failed validation nothing readable is left of the id, so the 403 answer is never given then;
   * the recovered session belongs to the caller. The cross-check only ever meets interleaved requests.
   */
  lemma RecoveryAfterFailedValidation(c: Config, s: State, id: Id, requested: Option<string>, ctx: Context)
    requires !DoValidate(c, s, id, requested).1.Valid?
    ensures var r := DoValidate(c, s, id, requested).0;
            var t := DoRecover(c, r, id, ctx, requested);
            && !Forbidden(c, r, id, ctx)
            && id in t.mem && t.mem[id].ctx == ctx.(authenticated := true) && t.mem[id].expiresAt == s.now + c.ttlMs
            && t.mem[id].version == Supported(c, requested)
            && (c.redisEnabled ==> id in t.redis && t.redis[id].data == t.mem[id])
            && SameElsewhere(r, t, id)
  {
    ValidateKeepsClock(c, s, id, requested);
  }

  // ---------------------------------------------------------------- what requests and writes leave behind

  predicate NoKeys(keys: Option<seq<string>>) {
    keys.None? || keys.value == []
  }

  predicate Named(key: Option<string>) {
    key.Some? && key.value != ""
  }

  /**
   * A request on a live session fills in missing group keys if its key has some, marks the session authenticated if
   * the request is, renews its times, and leaves everything else as it was. A session that was in Redis only speaks
   * the requested version from now on. The Redis copy differs at most in the mark.
   */
  lemma ServedRequestLeaves(c: Config, s: State, e: Event)
    requires e.Handle? && c.ttlMs >= 0 && Live(c, s, e.id)
    ensures var t, was := Step(c, s, e), Stored(s, e.id);
            var filled := NoKeys(was.ctx.groupKeyIds) && Named(was.ctx.keyId) && e.refetched.Some?;
            && e.id in t.mem && SameElsewhere(s, t, e.id)
            && var x := t.mem[e.id];
            && x.ctx.groupKeyIds == (if filled then e.refetched else was.ctx.groupKeyIds)
            && x.ctx.authenticated == (was.ctx.authenticated || e.authOk)
            && x.ctx.keyId == was.ctx.keyId && x.ctx.permissions == was.ctx.permissions
            && x.ctx.workspace == was.ctx.workspace && x.ctx.mode == was.ctx.mode
            && x.version == (if e.id !in s.mem && e.requested.Some? && e.requested.value in c.supported then e.requested else was.version)
            && x.lastAccessedAt == s.now && x.expiresAt == s.now + c.ttlMs
            && x.createdAt == was.createdAt && x.lastReflectedAt == was.lastReflectedAt
            && (c.redisEnabled ==>
                  e.id in t.redis && t.redis[e.id].data == x.(ctx := x.ctx.(authenticated := was.ctx.authenticated)))
            && (Accepted(c, s, e) <==> was.ctx.authenticated || e.authOk)
  {
    ValidIffLive(c, s, e.id, e.requested);
    ServedRequest(c, s, e);
    AccessLeaves(c, s, e.id, e.requested);
    RefreshLeaves(c, DoValidate(c, s, e.id, e.requested).0, e.id, e.refetched, e.authOk);
  }

  lemma AccessLeaves(c: Config, s: State, id: Id, requested: Option<string>)
    requires c.ttlMs >= 0 && Live(c, s, id)
    ensures var r, was := DoValidate(c, s, id, requested).0, Stored(s, id);
            && id in r.mem && r.mem[id].ctx == was.ctx && r.mem[id].createdAt == was.createdAt
            && r.mem[id].lastReflectedAt == was.lastReflectedAt
            && r.mem[id].version == (if id !in s.mem && requested.Some? && requested.value in c.supported then requested else was.version)
            && (c.redisEnabled ==> id in r.redis && r.redis[id].data == r.mem[id])
  {
  }

  lemma RefreshLeaves(c: Config, s: State, id: Id, refetched: Option<seq<string>>, authOk: bool)
    requires id in s.mem && (c.redisEnabled ==> id in s.redis && s.redis[id].data == s.mem[id])
    ensures var t, was := DoAuthenticate(DoRefetch(c, s, id, refetched), id, authOk), s.mem[id];
            var keys := if NoKeys(was.ctx.groupKeyIds) && Named(was.ctx.keyId) && refetched.Some? then refetched else was.ctx.groupKeyIds;
            && id in t.mem && SameElsewhere(s, t, id)
            && t.mem[id] == was.(ctx := was.ctx.(groupKeyIds := keys, authenticated := was.ctx.authenticated || authOk))
            && (c.redisEnabled ==> id in t.redis && t.redis[id].data == was.(ctx := was.ctx.(groupKeyIds := keys)))
  {
  }

  /** A session made at `now`, speaking the version asked for if it is a supported one. */
  predicate JustMade(c: Config, x: Session, now: int, ctx: Context, requested: Option<string>) {
    && x.ctx == ctx && x.createdAt == x.lastAccessedAt == now && x.expiresAt == now + c.ttlMs && x.lastReflectedAt.None?
    && x.version == if requested.Some? && requested.value in c.supported then requested else None
  }

  /** A request on a dead session is refused and leaves nothing, or gives the id to whom it authenticates as. */
  lemma LostRequestLeaves(c: Config, s: State, e: Event)
    requires e.Handle? && c.ttlMs >= 0 && !Live(c, s, e.id)
    ensures var t := Step(c, s, e);
            && SameElsewhere(s, t, e.id) && (Accepted(c, s, e) <==> e.auth.Some?)
            && (e.auth.None? ==> e.id !in t.mem && !Readable(c, t, e.id))
            && (e.auth.Some? ==>
                  && e.id in t.mem && JustMade(c, t.mem[e.id], s.now, e.auth.value.(authenticated := true), e.requested)
                  && (c.redisEnabled ==> e.id in t.redis && t.redis[e.id] == Entry(t.mem[e.id], s.now + c.cacheTtlSec * 1000)))
  {
    ValidIffLive(c, s, e.id, e.requested);
    LostRequest(c, s, e);
    ValidateKeepsClock(c, s, e.id, e.requested);
  }

  /** Creating and recovering put the same new session in both stores and touch no other. */
  lemma CreationLeaves(c: Config, s: State, e: Event)
    requires e.Create? || e.CommitRecovery?
    ensures var t := Step(c, s, e);
            var ctx := if e.Create? then e.ctx else e.ctx.(authenticated := true);
            && SameElsewhere(s, t, e.id)
            && e.id in t.mem && JustMade(c, t.mem[e.id], s.now, ctx, if e.Create? then None else e.requested)
            && (c.redisEnabled ==> e.id in t.redis && t.redis[e.id] == Entry(t.mem[e.id], s.now + c.cacheTtlSec * 1000))
            && (!c.redisEnabled ==> t.redis == s.redis)
  {
  }

  /** Writing back what initialize granted changes the version in both stores and nothing else in memory. */
  lemma NegotiationLeaves(c: Config, s: State, id: Id, version: string)
    ensures var t := Step(c, s, Negotiate(id, version));
            && SameElsewhere(s, t, id)
            && (id !in s.mem ==> t == s)
            && (id in s.mem ==>
                  && id in t.mem && t.mem[id] == s.mem[id].(version := Some(version))
                  && (c.redisEnabled ==>
                        && id in t.redis && t.redis[id].data == t.mem[id]
                        && t.redis[id].deadline >= s.now + 60000 && t.redis[id].deadline >= t.mem[id].expiresAt))
  {
    if id in s.mem { CeilSecBounds(s.mem[id].expiresAt - s.now); }
  }

  /** Re-anchoring a session in memory takes a supported version only, and is not written to Redis. */
  lemma ReanchorLeaves(c: Config, s: State, id: Id, version: string)
    ensures var t := Step(c, s, Reanchor(id, version));
            && t.redis == s.redis && SameElsewhere(s, t, id)
            && (id in s.mem <==> id in t.mem)
            && (id in s.mem ==> t.mem[id] == if version in c.supported then s.mem[id].(version := Some(version)) else s.mem[id])
  {
  }

  /** Closing erases a session of this process from both stores; an id it does not have in memory it leaves alone. */
  lemma ClosingLeaves(c: Config, s: State, id: Id)
    ensures var t := Step(c, s, Close(id));
            && SameElsewhere(s, t, id)
            && (id !in s.mem ==> t == s)
            && (id in s.mem ==> id !in t.mem && (c.redisEnabled ==> id !in t.redis) && (!c.redisEnabled ==> t.redis == s.redis))
  {
  }

  /**
   * The sweeper keeps exactly the unexpired sessions. It marks those whose reflection succeeded, that were idle for
   * more than the idle time and not reflected within it, and changes nothing else.
   */
  lemma SweepLeaves(c: Config, s: State, reflected: set<Id>, id: Id)
    ensures var t := Step(c, s, Sweep(reflected));
            && (id in t.mem <==> id in s.mem && s.now <= s.mem[id].expiresAt)
            && (id in t.redis <==> id in s.redis && !(c.redisEnabled && id in s.mem && id !in t.mem))
            && (id in t.redis ==> t.redis[id] == s.redis[id])
            && (id in t.mem ==>
                  var x, y := s.mem[id], t.mem[id];
                  var used := if x.lastAccessedAt != 0 then x.lastAccessedAt else x.createdAt;
                  var recent := x.lastReflectedAt.Some? && x.lastReflectedAt.value != 0 && s.now - x.lastReflectedAt.value <= c.idleMs;
                  && y.(lastReflectedAt := None) == x.(lastReflectedAt := None)
                  && y.lastReflectedAt == if id in reflected && s.now - used > c.idleMs && !recent then Some(s.now) else x.lastReflectedAt)
  {
  }

  /** The check refuses the owner of a session never, and anybody else exactly while its copy can be read. */
  lemma CheckRefusesStrangers(c: Config, t0: int, es: seq<Event>, id: Id, ctx: Context)
    ensures var s := Run(c, Start(t0), es);
            && (id in s.mem && c.redisEnabled && s.mem[id].ctx.keyId == ctx.keyId ==> Accepted(c, s, CheckRecovery(id, ctx)))
            && (Readable(c, s, id) ==> (Accepted(c, s, CheckRecovery(id, ctx)) <==> s.redis[id].data.ctx.keyId == ctx.keyId))
            && (!Readable(c, s, id) ==> Accepted(c, s, CheckRecovery(id, ctx)))
  {
    RunPairAt(c, Start(t0), es, id);
  }

  // ---------------------------------------------------------------- rotation

  /** The session of an id: the one in memory, or else the Redis copy. */
  function Stored(s: State, id: Id): Session
    requires id in s.mem || id in s.redis
  {
    if id in s.mem then s.mem[id] else s.redis[id].data
  }

  /** Rotation fails having created nothing and left every other session alone. */
  lemma RotateFailure(c: Config, s: State, oldId: Id, newId: Id)
    requires Fresh(s, newId)
    ensures var (t, r) := DoRotate(c, s, oldId, newId);
            && (r.Missing? <==> !(oldId in s.mem || Readable(c, s, oldId)))
            && (r.TooOld? <==> (oldId in s.mem || Readable(c, s, oldId)) && s.now > Stored(s, oldId).expiresAt)
            && (!r.Rotated? ==>
                  && Fresh(t, newId) && t.mem - {oldId} == s.mem - {oldId} && t.redis - {oldId} == s.redis - {oldId}
                  && (r.Missing? ==> t == s) && (r.TooOld? ==> oldId !in t.mem))
  {
  }

  /** Rotation moves the context to the new id, erases the old id, and touches nothing else. */
  lemma RotateSuccess(c: Config, s: State, oldId: Id, newId: Id)
    requires Fresh(s, newId)
    ensures var (t, r) := DoRotate(c, s, oldId, newId);
            r.Rotated? ==>
              && (oldId in s.mem || oldId in s.redis)
              && newId in t.mem && t.mem[newId].ctx == Stored(s, oldId).ctx
              && t.mem[newId].expiresAt == r.expiresAt == s.now + c.ttlMs && t.mem[newId].version.None?
              && (c.redisEnabled ==> newId in t.redis && t.redis[newId].data == t.mem[newId])
              && oldId !in t.mem && (c.redisEnabled ==> oldId !in t.redis)
              && (forall id :: id != oldId && id != newId ==>
                    && (id in s.mem <==> id in t.mem) && (id in s.mem ==> t.mem[id] == s.mem[id])
                    && (id in s.redis <==> id in t.redis) && (id in s.redis ==> t.redis[id] == s.redis[id]))
  {
  }

  /** At every write of a successful rotation the client can still reach the old or the new session. */
  lemma RotateNeverStrands(c: Config, s: State, oldId: Id, newId: Id, k: nat)
    requires Fresh(s, newId) && c.ttlMs >= 0
    requires DoRotate(c, s, oldId, newId).1.Rotated? && k < |RotateTrace(c, s, oldId, newId)|
    ensures var t := RotateTrace(c, s, oldId, newId)[k]; Live(c, t, oldId) || Live(c, t, newId)
  {
  }

  // ---------------------------------------------------------------- erased ids

  /** In neither store, as far as a request can tell. */
  predicate Gone(c: Config, s: State, id: Id) {
    id !in s.mem && !Readable(c, s, id)
  }

  /** The steps that give an id a session whatever was there: creations, handlers' writes, and recovering requests. */
  predicate Revives(c: Config, s: State, e: Event, id: Id) {
    match e
    case Create(i, _) => i == id
    case Install(i, _, _) => i == id
    case CommitRecovery(i, _, _) => i == id
    case Handle(i, _, _, _, auth) => i == id && auth.Some?
    case Rotate(oldId, newId) => newId == id && Rotatable(c, s, oldId)
    case _ => false
  }

  predicate NoneRevives(c: Config, s: State, es: seq<Event>, id: Id)
    decreases |es|
  {
    es == [] || (!Revives(c, s, es[0], id) && NoneRevives(c, Step(c, s, es[0]), es[1..], id))
  }

  /** The id is gone and stays so at every step of the run. */
  predicate GoneThroughout(c: Config, s: State, es: seq<Event>, id: Id)
    decreases |es|
  {
    Gone(c, s, id) && (es == [] || GoneThroughout(c, Step(c, s, es[0]), es[1..], id))
  }

  lemma ValidateGone(c: Config, s: State, id0: Id, requested: Option<string>, id: Id)
    requires Gone(c, s, id)
    ensures Gone(c, DoValidate(c, s, id0, requested).0, id)
    ensures id0 == id ==> !DoValidate(c, s, id0, requested).1.Valid?
  {
  }

  lemma HandleGone(c: Config, s: State, e: Event, id: Id)
    requires e.Handle? && c.ttlMs >= 0 && Gone(c, s, id)
    ensures if Revives(c, s, e, id) then Live(c, Step(c, s, e), id) else Gone(c, Step(c, s, e), id)
  {
    ValidateGone(c, s, e.id, e.requested, id);
    if DoValidate(c, s, e.id, e.requested).1.Valid? {
      ServedRequest(c, s, e);
    } else {
      LostRequest(c, s, e);
    }
  }

  lemma RotateGone(c: Config, s: State, oldId: Id, newId: Id, id: Id)
    requires c.ttlMs >= 0 && Gone(c, s, id)
    ensures var t := DoRotate(c, s, oldId, newId).0;
            if newId == id && Rotatable(c, s, oldId) then Live(c, t, id) else Gone(c, t, id)
  {
    RotateEnds(c, s, oldId, newId);
    hide DoRotate, RotateTrace;
  }

  /** A step brings a gone id back to life exactly if it is one of those. */
  lemma StepGone(c: Config, s: State, e: Event, id: Id)
    requires c.ttlMs >= 0 && Gone(c, s, id)
    ensures if Revives(c, s, e, id) then Live(c, Step(c, s, e), id) else Gone(c, Step(c, s, e), id)
  {
    match e
    case Validate(id0, requested) => ValidateGone(c, s, id0, requested, id);
    case Handle(_, _, _, _, _) => HandleGone(c, s, e, id);
    case Rotate(oldId, newId) => RotateGone(c, s, oldId, newId, id);
    case _ =>
  }

  lemma {:induction false} RunGone(c: Config, s: State, es: seq<Event>, id: Id)
    requires c.ttlMs >= 0 && Gone(c, s, id)
    ensures GoneThroughout(c, s, es, id) <==> NoneRevives(c, s, es, id)
    decreases |es|
  {
    if es != [] {
      StepGone(c, s, es[0], id);
      if !Revives(c, s, es[0], id) {
        RunGone(c, Step(c, s, es[0]), es[1..], id);
      } else {
        LiveNotGone(c, Step(c, s, es[0]), es[1..], id);
      }
    }
  }

  lemma LiveNotGone(c: Config, s: State, es: seq<Event>, id: Id)
    requires Live(c, s, id)
    ensures !GoneThroughout(c, s, es, id)
  {
  }

  /** What erases an id: closing it, or rotating it away. */
  predicate Erases(c: Config, s: State, e: Event, id: Id) {
    (e == Close(id) && id in s.mem) || (e.Rotate? && e.oldId == id && e.newId != id && Rotatable(c, s, id))
  }

  /** After a close or a rotation the old id is gone for the rest of the run exactly if no later step revives it. */
  lemma ErasedStaysGone(c: Config, s: State, e: Event, es: seq<Event>, id: Id)
    requires c.ttlMs >= 0 && Erases(c, s, e, id)
    ensures Gone(c, Step(c, s, e), id)
    ensures GoneThroughout(c, Step(c, s, e), es, id) <==> NoneRevives(c, Step(c, s, e), es, id)
  {
    if e.Rotate? {
      RotateEnds(c, s, id, e.newId);
    }
    RunGone(c, Step(c, s, e), es, id);
  }

  /** A restoration that read its copy before a rotation brings the rotated-out id back beside the new one. */
  lemma RotatedIdReturns(c: Config, s: State) returns (es: seq<Event>)
    requires c.ttlMs >= 0 && s.mem == map[] && Readable(c, s, "a") && s.now <= s.redis["a"].data.expiresAt && Fresh(s, "b")
    ensures Possible(c, s, es) && Grounded(c, s, {}, es)
    ensures Live(c, Run(c, s, es), "a") && Live(c, Run(c, s, es), "b")
  {
    var copy := s.redis["a"].data;
    var e1, e2, e3 := Fetch("a"), Rotate("a", "b"), Install("a", copy, None);
    var s2 := Step(c, s, e2);
    var s3 := Step(c, s2, e3);
    RotateEnds(c, s, "a", "b");
    assert Live(c, s3, "a") && Live(c, s3, "b");
    var w1 := {} + Earned(c, s, e1);
    var w2 := w1 + Earned(c, s, e2);
    assert MayInstall("a", copy) in w2;
    StepEarlier(c, s2, w2, e3, []);
    StepEarlier(c, s, w1, e2, [e3] + []);
    es := [e1] + ([e2] + ([e3] + []));
    StepEarlier(c, s, {}, e1, [e2] + ([e3] + []));
  }

  // ---------------------------------------------------------------- the sweeper

  /** Expired in memory, yet Redis would still hand the copy to a restarted process. */
  predicate Limbo(c: Config, s: State, id: Id) {
    id in s.mem && s.now > s.mem[id].expiresAt && Readable(c, s, id)
  }

  predicate SameButReflected(x: Session, y: Session) {
    x.(lastReflectedAt := None) == y.(lastReflectedAt := None)
  }

  /** At one id, `t` is `s` with a dead session perhaps already removed. */
  predicate ShadowAt(c: Config, s: State, t: State, id: Id) {
    && (id in t.mem ==> id in s.mem && SameButReflected(s.mem[id], t.mem[id]))
    && (id in t.redis ==> id in s.redis && s.redis[id].deadline == t.redis[id].deadline
                          && SameButReflected(s.redis[id].data, t.redis[id].data))
    && (id in s.redis && id !in t.redis ==> s.now > s.redis[id].deadline)
    && (id in s.mem && id !in t.mem ==> s.now > s.mem[id].expiresAt && !Readable(c, s, id) && (c.redisEnabled ==> id !in t.redis))
  }

  ghost predicate Shadow(c: Config, s: State, t: State) {
    s.now == t.now && forall id :: ShadowAt(c, s, t, id)
  }

  lemma RestoreShadowAt(c: Config, s: State, t: State, id: Id, requested: Option<string>, k: Id)
    requires s.now == t.now && ShadowAt(c, s, t, id) && ShadowAt(c, s, t, k)
    ensures ShadowAt(c, DoRestore(c, s, id, requested), DoRestore(c, t, id, requested), k)
  {
  }

  lemma AccessShadowAt(c: Config, s: State, t: State, id: Id, k: Id)
    requires s.now == t.now && ShadowAt(c, s, t, id) && ShadowAt(c, s, t, k)
    requires id in s.mem && id !in t.mem ==> s.now > s.mem[id].expiresAt
    ensures var (s1, v) := DoAccess(c, s, id);
            var (t1, w) := DoAccess(c, t, id);
            && s1.now == t1.now && ShadowAt(c, s1, t1, k) && v.Valid? == w.Valid?
            && (v.Valid? ==> SameButReflected(v.session, w.session) && id in s1.mem && id in t1.mem
                             && s1.mem[id] == v.session && t1.mem[id] == w.session)
  {
  }

  lemma ValidateShadowAt(c: Config, s: State, t: State, id: Id, requested: Option<string>, k: Id)
    requires s.now == t.now && ShadowAt(c, s, t, id) && ShadowAt(c, s, t, k)
    ensures var (s1, v) := DoValidate(c, s, id, requested);
            var (t1, w) := DoValidate(c, t, id, requested);
            && s1.now == t1.now && ShadowAt(c, s1, t1, k) && v.Valid? == w.Valid?
            && (v.Valid? ==> SameButReflected(v.session, w.session) && id in s1.mem && id in t1.mem
                             && s1.mem[id] == v.session && t1.mem[id] == w.session)
  {
    var s0, t0 := DoRestore(c, s, id, requested), DoRestore(c, t, id, requested);
    RestoreShadowAt(c, s, t, id, requested, id);
    RestoreShadowAt(c, s, t, id, requested, k);
    hide DoAccess;
    AccessShadowAt(c, s0, t0, id, k);
  }

  lemma RefetchShadowAt(c: Config, s: State, t: State, id: Id, refetched: Option<seq<string>>, k: Id)
    requires s.now == t.now && ShadowAt(c, s, t, id) && ShadowAt(c, s, t, k) && id in s.mem && id in t.mem
    ensures var s1, t1 := DoRefetch(c, s, id, refetched), DoRefetch(c, t, id, refetched);
            s1.now == t1.now && ShadowAt(c, s1, t1, k) && id in s1.mem && id in t1.mem
  {
  }

  lemma AuthenticateShadowAt(c: Config, s: State, t: State, id: Id, authOk: bool, k: Id)
    requires s.now == t.now && ShadowAt(c, s, t, id) && ShadowAt(c, s, t, k) && id in s.mem && id in t.mem
    ensures ShadowAt(c, DoAuthenticate(s, id, authOk), DoAuthenticate(t, id, authOk), k)
  {
  }

  lemma HandleShadowAt(c: Config, s: State, t: State, id: Id, refetched: Option<seq<string>>, authOk: bool, k: Id)
    requires s.now == t.now && ShadowAt(c, s, t, id) && ShadowAt(c, s, t, k) && id in s.mem && id in t.mem
    ensures ShadowAt(c, DoAuthenticate(DoRefetch(c, s, id, refetched), id, authOk),
                     DoAuthenticate(DoRefetch(c, t, id, refetched), id, authOk), k)
  {
    hide *;
    RefetchShadowAt(c, s, t, id, refetched, id);
    RefetchShadowAt(c, s, t, id, refetched, k);
    AuthenticateShadowAt(c, DoRefetch(c, s, id, refetched), DoRefetch(c, t, id, refetched), id, authOk, k);
  }

  /** A request that failed to validate and then recovers its id, as one step. */
  lemma LostRequest(c: Config, s: State, e: Event)
    requires e.Handle? && !DoValidate(c, s, e.id, e.requested).1.Valid?
    ensures var r := DoValidate(c, s, e.id, e.requested).0;
            && Accepted(c, s, e) == e.auth.Some?
            && Step(c, s, e) == if e.auth.None? then r else DoCommit(c, r, e.id, e.auth.value, e.requested)
  {
    if e.auth.Some? {
      RecoveryAfterFailedValidation(c, s, e.id, e.requested, e.auth.value);
    }
  }

  lemma CommitShadowAt(c: Config, s: State, t: State, id: Id, ctx: Context, requested: Option<string>, k: Id)
    requires s.now == t.now && ShadowAt(c, s, t, k)
    ensures ShadowAt(c, DoCommit(c, s, id, ctx, requested), DoCommit(c, t, id, ctx, requested), k)
  {
  }

  lemma ServedRequest(c: Config, s: State, e: Event)
    requires e.Handle? && DoValidate(c, s, e.id, e.requested).1.Valid?
    ensures var t := Step(c, s, e); e.id in t.mem && (Accepted(c, s, e) <==> t.mem[e.id].ctx.authenticated)
    ensures var r := DoValidate(c, s, e.id, e.requested).0;
            Step(c, s, e) == DoAuthenticate(DoRefetch(c, r, e.id, e.refetched), e.id, e.authOk)
  {
  }

  lemma ShadowFlag(c: Config, s: State, t: State, id: Id)
    requires ShadowAt(c, s, t, id) && id in s.mem && id in t.mem
    ensures s.mem[id].ctx == t.mem[id].ctx
  {
  }

  lemma RequestShadowAt(c: Config, s: State, t: State, e: Event, k: Id)
    requires e.Handle? && s.now == t.now && ShadowAt(c, s, t, e.id) && ShadowAt(c, s, t, k)
    ensures ShadowAt(c, Step(c, s, e), Step(c, t, e), k)
    ensures Accepted(c, s, e) == Accepted(c, t, e)
  {
    hide *;
    ValidateShadowAt(c, s, t, e.id, e.requested, e.id);
    ValidateShadowAt(c, s, t, e.id, e.requested, k);
    var (s1, v) := DoValidate(c, s, e.id, e.requested);
    var (t1, w) := DoValidate(c, t, e.id, e.requested);
    if v.Valid? {
      ServedRequest(c, s, e);
      ServedRequest(c, t, e);
      HandleShadowAt(c, s1, t1, e.id, e.refetched, e.authOk, k);
      HandleShadowAt(c, s1, t1, e.id, e.refetched, e.authOk, e.id);
      ShadowFlag(c, Step(c, s, e), Step(c, t, e), e.id);
    } else {
      LostRequest(c, s, e);
      LostRequest(c, t, e);
      if e.auth.Some? {
        CommitShadowAt(c, s1, t1, e.id, e.auth.value, e.requested, k);
      }
    }
  }

  /** The store after a successful rotation. */
  function MoveTo(c: Config, s: State, oldId: Id, newId: Id, ctx: Context): State {
    var made := DoCreate(c, s, newId, ctx, None);
    Del(c, made.(mem := made.mem - {oldId}), oldId)
  }

  predicate Rotatable(c: Config, s: State, id: Id) {
    Existing(c, s, id).Some? && s.now <= Existing(c, s, id).value.expiresAt
  }

  /** Where a rotation ends, without the states it passes through. */
  lemma RotateEnds(c: Config, s: State, oldId: Id, newId: Id)
    ensures var (t, r) := DoRotate(c, s, oldId, newId);
            && (r.Rotated? <==> Rotatable(c, s, oldId))
            && t == if Rotatable(c, s, oldId) then MoveTo(c, s, oldId, newId, Existing(c, s, oldId).value.ctx)
                    else if Existing(c, s, oldId).Some? then DoClose(c, s, oldId) else s
  {
  }

  lemma ExistingShadow(c: Config, s: State, t: State, id: Id)
    requires s.now == t.now && ShadowAt(c, s, t, id)
    ensures Rotatable(c, s, id) <==> Rotatable(c, t, id)
    ensures Rotatable(c, s, id) ==> Existing(c, s, id).value.ctx == Existing(c, t, id).value.ctx
  {
  }

  lemma MoveShadowAt(c: Config, s: State, t: State, oldId: Id, newId: Id, ctx: Context, k: Id)
    requires s.now == t.now && ShadowAt(c, s, t, k)
    ensures ShadowAt(c, MoveTo(c, s, oldId, newId, ctx), MoveTo(c, t, oldId, newId, ctx), k)
  {
  }

  /** A rotation that finds nothing to move closes the old id in both stores, or finds it in neither. */
  lemma NoMoveShadowAt(c: Config, s: State, t: State, id: Id, k: Id)
    requires s.now == t.now && ShadowAt(c, s, t, id) && ShadowAt(c, s, t, k) && !Rotatable(c, s, id)
    ensures ShadowAt(c, if Existing(c, s, id).Some? then DoClose(c, s, id) else s,
                     if Existing(c, t, id).Some? then DoClose(c, t, id) else t, k)
  {
    CloseShadowAt(c, s, t, id, k);
    if id !in s.mem { assert DoClose(c, s, id) == s; }
    if id !in t.mem { assert DoClose(c, t, id) == t; }
  }

  lemma RotateShadowAt(c: Config, s: State, t: State, e: Event, k: Id)
    requires e.Rotate? && s.now == t.now && ShadowAt(c, s, t, e.oldId) && ShadowAt(c, s, t, k)
    ensures ShadowAt(c, Step(c, s, e), Step(c, t, e), k)
    ensures Accepted(c, s, e) == Accepted(c, t, e)
  {
    hide DoRotate, MoveTo, ShadowAt, Existing;
    RotateEnds(c, s, e.oldId, e.newId);
    RotateEnds(c, t, e.oldId, e.newId);
    ExistingShadow(c, s, t, e.oldId);
    if Rotatable(c, s, e.oldId) {
      MoveShadowAt(c, s, t, e.oldId, e.newId, Existing(c, s, e.oldId).value.ctx, k);
    } else {
      NoMoveShadowAt(c, s, t, e.oldId, k);
    }
  }

  lemma SweepShadowAt(c: Config, s: State, t: State, reflected: set<Id>, k: Id)
    requires s.now == t.now && ShadowAt(c, s, t, k)
    ensures ShadowAt(c, DoSweep(c, s, reflected), DoSweep(c, t, reflected), k)
  {
  }

  /** New sessions and the handlers' own writes put the same session into both stores. */
  lemma PutShadowAt(c: Config, s: State, t: State, e: Event, k: Id)
    requires e.Create? || e.Install? || e.CommitRecovery?
    requires s.now == t.now && ShadowAt(c, s, t, k)
    ensures ShadowAt(c, Step(c, s, e), Step(c, t, e), k)
  {
  }

  lemma CloseShadowAt(c: Config, s: State, t: State, id: Id, k: Id)
    requires s.now == t.now && ShadowAt(c, s, t, id) && ShadowAt(c, s, t, k)
    ensures ShadowAt(c, DoClose(c, s, id), DoClose(c, t, id), k)
  {
  }

  /** A version write-back that does not bring a dead session's copy back in one store only. */
  predicate Harmless(c: Config, s: State, t: State, e: Event) {
    e.Negotiate? && c.redisEnabled ==> InTime(s, e.id) || (e.id in s.mem <==> e.id in t.mem)
  }

  lemma VersionShadowAt(c: Config, s: State, t: State, e: Event, k: Id)
    requires e.Reanchor? || e.Negotiate?
    requires s.now == t.now && ShadowAt(c, s, t, e.id) && ShadowAt(c, s, t, k) && Harmless(c, s, t, e)
    ensures ShadowAt(c, Step(c, s, e), Step(c, t, e), k)
  {
  }

  lemma StepShadowAt(c: Config, s: State, t: State, e: Event, k: Id)
    requires Shadow(c, s, t) && Enabled(s, e) && Harmless(c, s, t, e)
    ensures ShadowAt(c, Step(c, s, e), Step(c, t, e), k)
    ensures Accepted(c, s, e) == Accepted(c, t, e)
  {
    assert s.now == t.now && ShadowAt(c, s, t, k);
    match e
    case Validate(id, requested) => assert ShadowAt(c, s, t, id); ValidateShadowAt(c, s, t, id, requested, k);
    case Handle(id, _, _, _, _) => assert ShadowAt(c, s, t, id); RequestShadowAt(c, s, t, e, k);
    case Rotate(oldId, _) => assert ShadowAt(c, s, t, oldId); RotateShadowAt(c, s, t, e, k);
    case Sweep(reflected) => SweepShadowAt(c, s, t, reflected, k);
    case Create(_, _) => PutShadowAt(c, s, t, e, k);
    case Install(_, _, _) => PutShadowAt(c, s, t, e, k);
    case CommitRecovery(_, _, _) => PutShadowAt(c, s, t, e, k);
    case Close(id) => assert ShadowAt(c, s, t, id); CloseShadowAt(c, s, t, id, k);
    case Reanchor(id, _) => assert ShadowAt(c, s, t, id); VersionShadowAt(c, s, t, e, k);
    case Negotiate(id, _) => assert ShadowAt(c, s, t, id); VersionShadowAt(c, s, t, e, k);
    case Fetch(id) => assert ShadowAt(c, s, t, id);
    case CheckRecovery(id, _) => assert ShadowAt(c, s, t, id);
    case Tick(_) =>
    case Restart =>
  }

  lemma StepShadow(c: Config, s: State, t: State, e: Event)
    requires Shadow(c, s, t) && Enabled(s, e) && Harmless(c, s, t, e)
    ensures Shadow(c, Step(c, s, e), Step(c, t, e))
    ensures Accepted(c, s, e) == Accepted(c, t, e)
  {
    forall k ensures ShadowAt(c, Step(c, s, e), Step(c, t, e), k) { StepShadowAt(c, s, t, e, k); }
    StepShadowAt(c, s, t, e, "");
    StepClock(c, s, e);
    StepClock(c, t, e);
  }

  lemma ValidateKeepsClock(c: Config, s: State, id: Id, requested: Option<string>)
    ensures DoValidate(c, s, id, requested).0.now == s.now
  {
  }

  lemma RotateKeepsClock(c: Config, s: State, oldId: Id, newId: Id)
    ensures DoRotate(c, s, oldId, newId).0.now == s.now
  {
  }

  lemma HandleKeepsClock(c: Config, s: State, e: Event)
    requires e.Handle?
    ensures Step(c, s, e).now == s.now
  {
    ValidateKeepsClock(c, s, e.id, e.requested);
  }

  /** Only a tick moves the clock. */
  lemma StepClock(c: Config, s: State, e: Event)
    ensures Step(c, s, e).now == s.now + if e.Tick? then e.ms else 0
  {
    match e
    case Validate(id, requested) => ValidateKeepsClock(c, s, id, requested);
    case Handle(_, _, _, _, _) => HandleKeepsClock(c, s, e);
    case Rotate(oldId, newId) => RotateKeepsClock(c, s, oldId, newId);
    case _ =>
  }

  lemma {:induction false} RunShadow(c: Config, s: State, t: State, es: seq<Event>)
    requires Shadow(c, s, t) && Allowed(c, s, es)
    ensures Answers(c, s, es) == Answers(c, t, es)
    decreases |es|
  {
    if es != [] {
      StepShadow(c, s, t, es[0]);
      RunShadow(c, Step(c, s, es[0]), Step(c, t, es[0]), es[1..]);
    }
  }

  lemma LimboRevealed(c: Config, s: State, reflected: set<Id>, id: Id) returns (es: seq<Event>)
    requires c.ttlMs >= 0 && Limbo(c, s, id)
    ensures Allowed(c, s, es) && Answers(c, s, es) != Answers(c, DoSweep(c, s, reflected), es)
  {
    var e1, e2 := Restart, Validate(id, None);
    es := [e1, e2];
    var t := DoSweep(c, s, reflected);
    assert es[1..] == [e2] && es[1..][1..] == [];
    var s1, t1 := Step(c, s, e1), Step(c, t, e1);
    assert Accepted(c, s1, e2) && !Accepted(c, t1, e2);
    assert Allowed(c, s1, [e2]) && Allowed(c, s, es) by { assert [e2][1..] == []; }
    assert Answers(c, s1, [e2])[0] && !Answers(c, t1, [e2])[0];
    assert Answers(c, s, es)[1] == Answers(c, s1, es[1..])[0];
    assert Answers(c, t, es)[1] == Answers(c, t1, es[1..])[0];
  }

  /** A session life with a fraction of a second is rounded up for Redis: that fraction is spent in limbo. */
  lemma LimboByRounding(c: Config, t0: int) returns (es: seq<Event>)
    requires SoundTtl(c) && c.redisEnabled && c.ttlMs % 1000 != 0
    ensures Allowed(c, Start(t0), es) && Grounded(c, Start(t0), {}, es) && Limbo(c, Run(c, Start(t0), es), "a")
  {
    var e1, e2 := Create("a", ANON), Tick(c.ttlMs + 1);
    var s1 := Step(c, Start(t0), e1);
    OneStepEarlier(c, s1, e2, []);
    OneStepEarlier(c, Start(t0), e1, [e2] + []);
    es := [e1] + ([e2] + []);
  }

  /** Writing the negotiated version back a millisecond after creation rounds the rest of the life up. */
  lemma LimboByNegotiation(c: Config, t0: int) returns (es: seq<Event>)
    requires SoundTtl(c) && c.redisEnabled && c.ttlMs % 1000 == 0
    ensures Allowed(c, Start(t0), es) && Grounded(c, Start(t0), {}, es) && Limbo(c, Run(c, Start(t0), es), "a")
  {
    var e1, e2, e3, e4 := Create("a", ANON), Tick(1), Negotiate("a", ""), Tick(c.ttlMs);
    var s1 := Step(c, Start(t0), e1);
    var s2 := Step(c, s1, e2);
    var s3 := Step(c, s2, e3);
    assert Timely(s2, e3) && Limbo(c, Step(c, s3, e4), "a");
    OneStepEarlier(c, s3, e4, []);
    OneStepEarlier(c, s2, e3, [e4] + []);
    OneStepEarlier(c, s1, e2, [e3] + ([e4] + []));
    OneStepEarlier(c, Start(t0), e1, [e2] + ([e3] + ([e4] + [])));
    es := [e1] + ([e2] + ([e3] + ([e4] + [])));
  }

  /** Limbo is reachable under every sound configuration with Redis, and with it a sweep that is noticed. */
  lemma LimboReachable(c: Config, t0: int) returns (es: seq<Event>)
    requires SoundTtl(c) && c.redisEnabled
    ensures Allowed(c, Start(t0), es) && Grounded(c, Start(t0), {}, es) && Limbo(c, Run(c, Start(t0), es), "a")
  {
    if c.ttlMs % 1000 != 0 {
      es := LimboByRounding(c, t0);
    } else {
      es := LimboByNegotiation(c, t0);
    }
  }

  /**
   * Sweeping now changes no answer any later run gives exactly when no session is in limbo. In limbo,
   * a restart within the second would have revived the session the sweeper erased.
   */
  lemma SweepTransparentIffNoLimbo(c: Config, s: State, reflected: set<Id>)
    requires c.ttlMs >= 0
    ensures (forall id :: !Limbo(c, s, id)) <==>
            (forall es :: Allowed(c, s, es) ==> Answers(c, s, es) == Answers(c, DoSweep(c, s, reflected), es))
  {
    var t := DoSweep(c, s, reflected);
    if forall id :: !Limbo(c, s, id) {
      forall id ensures ShadowAt(c, s, t, id) { assert !Limbo(c, s, id); }
      forall es | Allowed(c, s, es) ensures Answers(c, s, es) == Answers(c, t, es) {
        RunShadow(c, s, t, es);
      }
    } else {
      var id :| Limbo(c, s, id);
      var es := LimboRevealed(c, s, reflected, id);
    }
  }

  // ---------------------------------------------------------------- the sweeper and late write-backs

  lemma HandleSameMem(c: Config, s: State, t: State, e: Event, k: Id)
    requires e.Handle? && s.now == t.now && ShadowAt(c, s, t, e.id) && s.mem.Keys == t.mem.Keys
    ensures k in Step(c, s, e).mem <==> k in Step(c, t, e).mem
  {
    ValidateShadowAt(c, s, t, e.id, e.requested, e.id);
    ValidateSameMem(c, s, t, e.id, e.requested, k);
    hide DoValidate;
    if DoValidate(c, s, e.id, e.requested).1.Valid? {
      ServedRequest(c, s, e);
      ServedRequest(c, t, e);
    } else {
      LostRequest(c, s, e);
      LostRequest(c, t, e);
    }
  }

  lemma ValidateSameMem(c: Config, s: State, t: State, id: Id, requested: Option<string>, k: Id)
    requires s.now == t.now && ShadowAt(c, s, t, id) && s.mem.Keys == t.mem.Keys
    ensures k in DoValidate(c, s, id, requested).0.mem <==> k in DoValidate(c, t, id, requested).0.mem
  {
    assert (id in s.mem <==> id in t.mem) && (k in s.mem <==> k in t.mem);
  }

  lemma RotateSameMem(c: Config, s: State, t: State, oldId: Id, newId: Id, k: Id)
    requires s.now == t.now && ShadowAt(c, s, t, oldId) && s.mem.Keys == t.mem.Keys
    ensures k in DoRotate(c, s, oldId, newId).0.mem <==> k in DoRotate(c, t, oldId, newId).0.mem
  {
    assert (oldId in s.mem <==> oldId in t.mem) && (k in s.mem <==> k in t.mem);
    RotateEnds(c, s, oldId, newId);
    RotateEnds(c, t, oldId, newId);
    ExistingShadow(c, s, t, oldId);
  }

  /** Stores with the same sessions in memory keep the same sessions in memory. */
  lemma StepSameMem(c: Config, s: State, t: State, e: Event, k: Id)
    requires Shadow(c, s, t) && s.mem.Keys == t.mem.Keys
    ensures k in Step(c, s, e).mem <==> k in Step(c, t, e).mem
  {
    assert (k in s.mem <==> k in t.mem) && ShadowAt(c, s, t, k);
    match e
    case Validate(id, requested) => assert ShadowAt(c, s, t, id); ValidateSameMem(c, s, t, id, requested, k);
    case Handle(id, _, _, _, _) => assert ShadowAt(c, s, t, id); HandleSameMem(c, s, t, e, k);
    case Rotate(oldId, newId) => assert ShadowAt(c, s, t, oldId); RotateSameMem(c, s, t, oldId, newId, k);
    case Sweep(_) =>
    case Reanchor(id, _) => assert id in s.mem <==> id in t.mem;
    case Negotiate(id, _) => assert id in s.mem <==> id in t.mem;
    case Close(id) => assert id in s.mem <==> id in t.mem;
    case _ =>
  }

  /** The same answers over every run whatsoever, if Redis is off or the same sessions are in memory. */
  lemma {:induction false} RunTwins(c: Config, s: State, t: State, es: seq<Event>)
    requires Shadow(c, s, t) && Possible(c, s, es) && (c.redisEnabled ==> s.mem.Keys == t.mem.Keys)
    ensures Answers(c, s, es) == Answers(c, t, es)
    decreases |es|
  {
    if es != [] {
      var e := es[0];
      StepShadow(c, s, t, e);
      if c.redisEnabled {
        forall k ensures k in Step(c, s, e).mem <==> k in Step(c, t, e).mem { StepSameMem(c, s, t, e, k); }
      }
      RunTwins(c, Step(c, s, e), Step(c, t, e), es[1..]);
    }
  }

  /** Writing a version back to an expired session brings its Redis copy back, unless it was swept before. */
  lemma ExpiredRevealed(c: Config, s: State, reflected: set<Id>, id: Id) returns (es: seq<Event>)
    requires c.ttlMs >= 0 && c.redisEnabled && id in ExpiredIds(s)
    ensures Possible(c, s, es) && Answers(c, s, es) != Answers(c, DoSweep(c, s, reflected), es)
  {
    var e1, e2, e3 := Negotiate(id, ""), Restart, Validate(id, None);
    var t := DoSweep(c, s, reflected);
    var s1, t1 := Step(c, s, e1), Step(c, t, e1);
    var s2, t2 := Step(c, s1, e2), Step(c, t1, e2);
    es := [e1, e2, e3];
    assert Readable(c, s2, id) && !Readable(c, t2, id);
    assert Accepted(c, s2, e3) && !Accepted(c, t2, e3);
    ThreeSteps(c, s, e1, e2, e3);
    ThreeSteps(c, t, e1, e2, e3);
  }

  lemma ThreeSteps(c: Config, s: State, e1: Event, e2: Event, e3: Event)
    ensures var es, s1 := [e1, e2, e3], Step(c, s, e1);
            var s2 := Step(c, s1, e2);
            && |Answers(c, s, es)| == 3 && Answers(c, s, es)[2] == Accepted(c, s2, e3)
            && (Enabled(s, e1) && Enabled(s1, e2) && Enabled(s2, e3) ==> Possible(c, s, es))
  {
    hide Step, Accepted, Enabled;
    var s1 := Step(c, s, e1);
    var s2 := Step(c, s1, e2);
    assert [e1, e2, e3][1..] == [e2, e3] && [e2, e3][1..] == [e3] && [e3][1..] == [];
    assert Answers(c, s2, [e3]) == [Accepted(c, s2, e3)] + Answers(c, Step(c, s2, e3), []);
    assert Answers(c, s1, [e2, e3]) == [Accepted(c, s1, e2)] + Answers(c, s2, [e3]);
    assert Enabled(s2, e3) ==> Possible(c, s2, [e3]);
    assert Enabled(s1, e2) && Enabled(s2, e3) ==> Possible(c, s1, [e2, e3]);
  }

  /**
   * With late write-backs allowed too, sweeping is invisible exactly when Redis is off or nothing in memory has
   * expired: any sweep that removes something can then be told apart.
   */
  lemma SweepTransparentToAllIff(c: Config, s: State, reflected: set<Id>)
    requires c.ttlMs >= 0
    ensures (c.redisEnabled ==> ExpiredIds(s) == {}) <==>
            (forall es :: Possible(c, s, es) ==> Answers(c, s, es) == Answers(c, DoSweep(c, s, reflected), es))
  {
    var t := DoSweep(c, s, reflected);
    if c.redisEnabled ==> ExpiredIds(s) == {} {
      forall id ensures ShadowAt(c, s, t, id) { assert id in s.mem && s.now > s.mem[id].expiresAt ==> id in ExpiredIds(s); }
      forall es | Possible(c, s, es) ensures Answers(c, s, es) == Answers(c, t, es) {
        RunTwins(c, s, t, es);
      }
    } else {
      var id :| id in ExpiredIds(s);
      var es := ExpiredRevealed(c, s, reflected, id);
    }
  }
}
