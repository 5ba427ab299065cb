/**
 * The migration runner of scripts/migrate.js: concurrent runners serialised by a session-level advisory
 * lock, one transaction per file, and crashes between any two statements.
 */
module Migrate {
  import opened Options

  type File = string

  type RunnerId = nat

  // ---------------------------------------------------------------- file order

  /** Order of strings by character code, as `Array.prototype.sort` compares them. */
  predicate Before(a: string, b: string) {
    if a == "" then b != ""
    else if b == "" then false
    else a[0] < b[0] || (a[0] == b[0] && Before(a[1..], b[1..]))
  }

  predicate Ordered(fs: seq<File>) {
    forall i, j :: 0 <= i < j < |fs| ==> Before(fs[i], fs[j])
  }

  lemma {:induction false} BeforeStrict(a: string, b: string)
    ensures Before(a, b) ==> a != b
  {
    if a != "" && b != "" {
      BeforeStrict(a[1..], b[1..]);
    }
  }

  /** `files.filter(f => !applied.has(f))` */
  function Pending(files: seq<File>, applied: set<File>): seq<File> {
    if files == [] then []
    else (if files[0] in applied then [] else [files[0]]) + Pending(files[1..], applied)
  }

  lemma {:induction false} PendingMembers(files: seq<File>, applied: set<File>, f: File)
    ensures f in Pending(files, applied) <==> f in files && f !in applied
  {
    if files != [] {
      PendingMembers(files[1..], applied, f);
      assert f in files <==> f == files[0] || f in files[1..];
    }
  }

  lemma {:induction false} PendingOrdered(files: seq<File>, applied: set<File>)
    requires Ordered(files)
    ensures Ordered(Pending(files, applied))
  {
    if files != [] {
      var rest := Pending(files[1..], applied);
      PendingOrdered(files[1..], applied);
      forall j | 0 <= j < |rest| ensures Before(files[0], rest[j]) {
        PendingMembers(files[1..], applied, rest[j]);
        var k :| 0 <= k < |files[1..]| && files[1..][k] == rest[j];
        assert files[k + 1] == rest[j];
      }
    }
  }

  // ---------------------------------------------------------------- the protocol

  /** Committed data: the recorded file names, and the effects in the order they were committed. */
  datatype Db = Db(recorded: set<File>, effects: seq<File>)

  /** Inside a transaction: begun, script run, script run and recorded. */
  datatype Tx = NoTx | Begun | Ran | Recorded

  datatype Phase =
    | Waiting
    | Locked
    | Applying(files: seq<File>, pending: seq<File>, next: nat, tx: Tx)
    | Failed
    | Done
    | Dead

  datatype State = State(db: Db, holder: Option<RunnerId>, runners: map<RunnerId, Phase>)

  datatype Event =
    | Start(r: RunnerId)
    | Acquire(r: RunnerId)
    | ReadApplied(r: RunnerId, files: seq<File>)
    | Begin(r: RunnerId)
    | RunScript(r: RunnerId)
    | Record(r: RunnerId)
    | Commit(r: RunnerId)
    | Fail(r: RunnerId)
    | Finish(r: RunnerId)
    | Crash(r: RunnerId)

  predicate Active(p: Phase) {
    p.Locked? || p.Applying?
  }

  predicate InTx(s: State, r: RunnerId, tx: Tx) {
    r in s.runners && s.runners[r].Applying? && s.runners[r].tx == tx
    && s.runners[r].next < |s.runners[r].pending|
  }

  predicate Enabled(s: State, e: Event) {
    match e
    case Start(r) => r !in s.runners
    case Acquire(r) => r in s.runners && s.runners[r].Waiting? && s.holder.None?
    case ReadApplied(r, files) => r in s.runners && s.runners[r].Locked? && Ordered(files)
    case Begin(r) => InTx(s, r, NoTx)
    case RunScript(r) => InTx(s, r, Begun)
    case Record(r) => InTx(s, r, Ran) && s.runners[r].pending[s.runners[r].next] !in s.db.recorded
    case Commit(r) => InTx(s, r, Recorded)
    case Fail(r) => r in s.runners && Active(s.runners[r])
    case Finish(r) => r in s.runners && s.runners[r].Applying? && s.runners[r].tx.NoTx? && s.runners[r].next == |s.runners[r].pending|
    case Crash(r) => r in s.runners
  }

  function Release(s: State, r: RunnerId): Option<RunnerId> {
    if s.holder == Some(r) then None else s.holder
  }

  /** The primary key refuses a second record; a commit publishes a file's effect and its record together. */
  function Step(s: State, e: Event): State
    requires Enabled(s, e)
  {
    match e
    case Start(r) => s.(runners := s.runners[r := Waiting])
    case Acquire(r) => s.(holder := Some(r), runners := s.runners[r := Locked])
    case ReadApplied(r, files) => s.(runners := s.runners[r := Applying(files, Pending(files, s.db.recorded), 0, NoTx)])
    case Begin(r) => s.(runners := s.runners[r := s.runners[r].(tx := Begun)])
    case RunScript(r) => s.(runners := s.runners[r := s.runners[r].(tx := Ran)])
    case Record(r) => s.(runners := s.runners[r := s.runners[r].(tx := Recorded)])
    case Commit(r) =>
      var p := s.runners[r];
      s.(db := Publish(s.db, p.pending[p.next]),
         runners := s.runners[r := p.(next := p.next + 1, tx := NoTx)])
    case Fail(r) => s.(holder := Release(s, r), runners := s.runners[r := Failed])
    case Finish(r) => s.(holder := Release(s, r), runners := s.runners[r := Done])
    case Crash(r) => s.(holder := Release(s, r), runners := s.runners[r := Dead])
  }

  predicate Allowed(s: State, es: seq<Event>)
    decreases |es|
  {
    es == [] || (Enabled(s, es[0]) && Allowed(Step(s, es[0]), es[1..]))
  }

  function Run(s: State, es: seq<Event>): State
    requires Allowed(s, es)
    decreases |es|
  {
    if es == [] then s else Run(Step(s, es[0]), es[1..])
  }

  const EMPTY := State(Db({}, []), None, map[])

  // ---------------------------------------------------------------- exactly once

  ghost predicate Effective(db: Db) {
    Distinct(db.effects) && forall f :: f in db.recorded <==> f in db.effects
  }

  /** What is left to do for the lock's holder is exactly what the database lacks, and it commits in order. */
  ghost predicate Course(p: Phase, db: Db) {
    p.Applying? ==>
      && p.next <= |p.pending| && (p.tx != NoTx ==> p.next < |p.pending|)
      && Ordered(p.files) && Ordered(p.pending) && p.pending[p.next..] == Pending(p.files, db.recorded)
      && |db.effects| >= p.next && db.effects[|db.effects| - p.next..] == p.pending[..p.next]
  }

  ghost predicate Inv(s: State) {
    && Effective(s.db)
    && forall r :: r in s.runners && Active(s.runners[r]) ==> s.holder == Some(r) && Course(s.runners[r], s.db)
  }

  lemma {:induction false} PendingShrinks(files: seq<File>, applied: set<File>)
    requires Ordered(files) && Pending(files, applied) != []
    ensures var p := Pending(files, applied); Pending(files, applied + {p[0]}) == p[1..]
  {
    if files[0] in applied {
      PendingShrinks(files[1..], applied);
    } else {
      assert Pending(files, applied) == [files[0]] + Pending(files[1..], applied);
      forall f | f in files[1..] ensures f != files[0] {
        var k :| 0 <= k < |files[1..]| && files[1..][k] == f;
        assert files[k + 1] == f;
        BeforeStrict(files[0], f);
      }
      PendingIgnores(files[1..], applied, files[0]);
    }
  }

  lemma {:induction false} PendingIgnores(files: seq<File>, applied: set<File>, f: File)
    requires f !in files
    ensures Pending(files, applied + {f}) == Pending(files, applied)
  {
    if files != [] {
      assert files[0] in files && forall x :: x in files[1..] ==> x in files;
      PendingIgnores(files[1..], applied, f);
    }
  }

  function Publish(db: Db, f: File): Db {
    Db(db.recorded + {f}, db.effects + [f])
  }

  lemma PublishEffective(db: Db, f: File)
    requires Effective(db) && f !in db.recorded
    ensures Effective(Publish(db, f))
  {
    assert f !in db.effects;
  }

  lemma NextPending(files: seq<File>, pending: seq<File>, next: nat, recorded: set<File>)
    requires Ordered(files) && next < |pending| && pending[next..] == Pending(files, recorded)
    ensures pending[next] !in recorded && pending[next + 1..] == Pending(files, recorded + {pending[next]})
  {
    assert pending[next..][0] == pending[next];
    PendingMembers(files, recorded, pending[next]);
    PendingShrinks(files, recorded);
  }

  lemma NextEffects(effects: seq<File>, pending: seq<File>, next: nat)
    requires next < |pending| && next <= |effects| && effects[|effects| - next..] == pending[..next]
    ensures var e := effects + [pending[next]]; e[|e| - (next + 1)..] == pending[..next + 1]
  {
    var e := effects + [pending[next]];
    assert e[|e| - (next + 1)..] == effects[|effects| - next..] + [pending[next]];
  }

  lemma PublishCourse(p: Phase, db: Db)
    requires p.Applying? && p.tx.Recorded? && Course(p, db)
    ensures var f := p.pending[p.next];
            f !in db.recorded && Course(p.(next := p.next + 1, tx := NoTx), Publish(db, f))
  {
    NextPending(p.files, p.pending, p.next, db.recorded);
    NextEffects(db.effects, p.pending, p.next);
  }

  lemma CommitKeepsInv(s: State, r: RunnerId)
    requires Inv(s) && Enabled(s, Commit(r))
    ensures Inv(Step(s, Commit(r)))
  {
    PublishCourse(s.runners[r], s.db);
    PublishEffective(s.db, s.runners[r].pending[s.runners[r].next]);
  }

  lemma ReadCourse(files: seq<File>, db: Db)
    requires Ordered(files)
    ensures Course(Applying(files, Pending(files, db.recorded), 0, NoTx), db)
  {
    var pending := Pending(files, db.recorded);
    PendingOrdered(files, db.recorded);
    assert pending[0..] == pending && pending[..0] == [] && db.effects[|db.effects|..] == [];
  }

  lemma StepKeepsInv(s: State, e: Event)
    requires Inv(s) && Enabled(s, e)
    ensures Inv(Step(s, e))
  {
    match e
    case Commit(r) => CommitKeepsInv(s, r);
    case ReadApplied(_, files) => ReadCourse(files, s.db);
    case _ =>
  }

  lemma {:induction false} RunKeepsInv(s: State, es: seq<Event>)
    requires Inv(s) && Allowed(s, es)
    ensures Inv(Run(s, es))
    decreases |es|
  {
    if es != [] {
      StepKeepsInv(s, es[0]);
      RunKeepsInv(Step(s, es[0]), es[1..]);
    }
  }

  /**
   * In every reachable state, whatever runners started, crashed or failed: each file's effect is committed at
   * most once, the recorded names are exactly the committed effects, and one runner at most is past the lock.
   */
  lemma EffectsCommittedOnce(es: seq<Event>)
    requires Allowed(EMPTY, es)
    ensures var s := Run(EMPTY, es);
            && Effective(s.db)
            && forall r, q :: r in s.runners && q in s.runners && Active(s.runners[r]) && Active(s.runners[q]) ==> r == q
  {
    RunKeepsInv(EMPTY, es);
  }

  /** The lock spares every runner the duplicate-key refusal: recording the current file always succeeds. */
  lemma RecordNeverRefused(es: seq<Event>, r: RunnerId)
    requires Allowed(EMPTY, es) && InTx(Run(EMPTY, es), r, Ran)
    ensures Enabled(Run(EMPTY, es), Record(r))
  {
    RunKeepsInv(EMPTY, es);
    var s := Run(EMPTY, es);
    var p := s.runners[r];
    assert p.pending[p.next..][0] == p.pending[p.next];
    PendingMembers(p.files, s.db.recorded, p.pending[p.next]);
  }

  /** A run that finishes leaves every file applied, and its own pending files last, in sorted order. */
  lemma FinishedRunAppliedAll(es: seq<Event>, r: RunnerId)
    requires Allowed(EMPTY, es) && Enabled(Run(EMPTY, es), Finish(r))
    ensures var s := Run(EMPTY, es);
            var mine := s.runners[r].pending;
            && (forall f :: f in s.runners[r].files ==> f in s.db.effects)
            && |mine| <= |s.db.effects| && s.db.effects[|s.db.effects| - |mine|..] == mine
            && Ordered(mine)
  {
    RunKeepsInv(EMPTY, es);
    var s := Run(EMPTY, es);
    var p := s.runners[r];
    assert Course(p, s.db);
    assert p.pending[p.next..] == [] && p.pending[..p.next] == p.pending;
    forall f | f in p.files ensures f in s.db.effects {
      PendingMembers(p.files, s.db.recorded, f);
    }
  }

  /** Only a commit changes the database, and it publishes its file's effect and record together, as the last. */
  lemma OnlyCommitsPublish(s: State, e: Event)
    requires Enabled(s, e)
    ensures !e.Commit? ==> Step(s, e).db == s.db
    ensures e.Commit? ==>
              var f := s.runners[e.r].pending[s.runners[e.r].next];
              Step(s, e).db.effects == s.db.effects + [f] && Step(s, e).db.recorded == s.db.recorded + {f}
  {
  }

  /** The lock's holder is at work: whoever finished, failed or crashed has given it back. */
  predicate HeldAtWork(s: State) {
    s.holder.Some? ==> s.holder.value in s.runners && Active(s.runners[s.holder.value])
  }

  lemma StepKeepsHeldAtWork(s: State, e: Event)
    requires Enabled(s, e) && HeldAtWork(s)
    ensures HeldAtWork(Step(s, e))
  {
  }

  lemma {:induction false} RunKeepsHeldAtWork(s: State, es: seq<Event>)
    requires Allowed(s, es) && HeldAtWork(s)
    ensures HeldAtWork(Run(s, es))
    decreases |es|
  {
    if es != [] {
      StepKeepsHeldAtWork(s, es[0]);
      RunKeepsHeldAtWork(Step(s, es[0]), es[1..]);
    }
  }

  /** So a waiting runner can take the lock exactly when no other is at work: no crash or failure blocks the next one. */
  lemma LockNeverStuck(es: seq<Event>, r: RunnerId)
    requires Allowed(EMPTY, es) && r in Run(EMPTY, es).runners && Run(EMPTY, es).runners[r].Waiting?
    ensures var s := Run(EMPTY, es);
            Enabled(s, Acquire(r)) <==> forall q :: q in s.runners ==> !Active(s.runners[q])
  {
    RunKeepsHeldAtWork(EMPTY, es);
    RunKeepsInv(EMPTY, es);
  }

  // ---------------------------------------------------------------- one runner's loop

  /** The database after the first `i` of `pending` were applied to one with effects `was`. */
  ghost predicate Applied(files: seq<File>, pending: seq<File>, i: nat, was: seq<File>, db: Db) {
    && Effective(db) && Ordered(files)
    && i <= |pending| && pending[i..] == Pending(files, db.recorded) && db.effects == was + pending[..i]
  }

  lemma ApplyStart(files: seq<File>, db: Db)
    requires Effective(db) && Ordered(files)
    ensures Applied(files, Pending(files, db.recorded), 0, db.effects, db)
  {
    var pending := Pending(files, db.recorded);
    assert pending[0..] == pending && db.effects + pending[..0] == db.effects;
  }

  lemma ApplyStep(files: seq<File>, pending: seq<File>, i: nat, was: seq<File>, db: Db)
    requires i < |pending| && Applied(files, pending, i, was, db)
    ensures Applied(files, pending, i + 1, was, Publish(db, pending[i]))
  {
    NextPending(files, pending, i, db.recorded);
    PublishEffective(db, pending[i]);
    assert pending[..i + 1] == pending[..i] + [pending[i]];
  }

  class Database {
    var recorded: set<File>
    var effects: seq<File>

    /**
     * The body of the runner once it holds the lock. `runs` tells which scripts the database accepts. A failing
     * script is rolled back and stops the run; everything before it stays applied, nothing after it is tried.
     */
    method ApplyPending(files: seq<File>, runs: File -> bool) returns (r: Result<nat, nat>)
      requires Ordered(files) && Effective(Db(recorded, effects))
      modifies this
      ensures var p := Pending(files, old(recorded));
              match r
              case Ok(n) => n == |p| && Applied(files, p, n, old(effects), Db(recorded, effects)) && forall f :: f in p ==> runs(f)
              case Err(k) => k < |p| && !runs(p[k]) && Applied(files, p, k, old(effects), Db(recorded, effects))
    {
      var pending := Pending(files, recorded);
      var i := 0;
      ApplyStart(files, Db(recorded, effects));
      hide Applied, Pending, Ordered, Effective;
      while i < |pending|
        invariant 0 <= i <= |pending| && Applied(files, pending, i, old(effects), Db(recorded, effects))
        invariant forall j :: 0 <= j < i ==> runs(pending[j])
      {
        var file := pending[i];
        var txEffects, txRecorded := effects, recorded;
        if !runs(file) {
          return Err(i);
        }
        ApplyStep(files, pending, i, old(effects), Db(recorded, effects));
        txEffects := txEffects + [file];
        txRecorded := txRecorded + {file};
        effects, recorded := txEffects, txRecorded;
        i := i + 1;
      }
      r := Ok(|pending|);
    }
  }
}
