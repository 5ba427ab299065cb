/**
 * The per-session working memory of lib/memory/FragmentIndex.js: a Redis list kept within a token budget, which
 * expires 24 hours after the last addition. Times are milliseconds.
 */
module WorkingMemories {
  import opened Options

  const BUDGET := 500
  const TTL_MS := 86400 * 1000

  datatype Item = Item(id: string, importance: real, tokens: nat)

  datatype Fragment = Fragment(id: string, importance: Option<real>, tokens: Option<nat>, contentLength: nat)

  /** Missing and zero fields take their defaults. */
  function EntryFor(f: Fragment): Item {
    Item(f.id,
         if f.importance.Some? && f.importance.value != 0.0 then f.importance.value else 0.5,
         if f.tokens.Some? && f.tokens.value != 0 then f.tokens.value else (f.contentLength + 3) / 4)
  }

  /** An estimate of zero or none is replaced by a quarter of the length, rounded up; no importance by a half. */
  lemma EntryDefaults(f: Fragment)
    ensures var x := EntryFor(f);
            && x.id == f.id
            && (f.importance.Some? && f.importance.value != 0.0 ==> x.importance == f.importance.value)
            && (f.importance.None? || f.importance.value == 0.0 ==> x.importance == 0.5)
            && (f.tokens.Some? && f.tokens.value > 0 ==> x.tokens == f.tokens.value)
            && (f.tokens.None? || f.tokens.value == 0 ==> f.contentLength <= 4 * x.tokens < f.contentLength + 4)
  {
  }

  predicate Protected(x: Item) {
    x.importance > 0.8
  }

  function Total(items: seq<Item>): nat {
    if items == [] then 0 else items[0].tokens + Total(items[1..])
  }

  /** Drops unprotected items, oldest first, until `excess` tokens are gone. */
  function Evict(items: seq<Item>, excess: int): seq<Item> {
    if items == [] || excess <= 0 then items
    else if Protected(items[0]) then [items[0]] + Evict(items[1..], excess)
    else Evict(items[1..], excess - items[0].tokens)
  }

  function Enforce(items: seq<Item>): seq<Item> {
    Evict(items, Total(items) - BUDGET)
  }

  /** A session's list and the instant after which Redis no longer has it; no list is an empty one. */
  datatype Memory = Memory(items: seq<Item>, deadline: int)

  const NOTHING := Memory([], 0)

  function Read(m: Memory, now: int): seq<Item> {
    if now <= m.deadline then m.items else []
  }

  function DoEnforce(m: Memory, now: int): Memory {
    var parsed := Read(m, now);
    if Enforce(parsed) == parsed then m else Memory(Enforce(parsed), now + TTL_MS)
  }

  function DoAdd(m: Memory, x: Item, now: int): Memory {
    Memory(Enforce(Read(m, now) + [x]), now + TTL_MS)
  }

  /** `items.filter((_, i) => !removed.has(i))` */
  function Without(items: seq<Item>, removed: set<int>): seq<Item> {
    if items == [] then []
    else Without(items[..|items| - 1], removed)
         + (if |items| - 1 in removed then [] else [items[|items| - 1]])
  }

  lemma {:induction false} WithoutExtends(items: seq<Item>, removed: set<int>, more: set<int>)
    requires forall k :: k in more ==> k >= |items|
    ensures Without(items, removed + more) == Without(items, removed)
  {
    if items != [] {
      WithoutExtends(items[..|items| - 1], removed, more);
    }
  }

  lemma {:induction false} WithoutTail(items: seq<Item>, removed: set<int>, i: nat)
    requires i <= |items| && forall k :: k in removed ==> k < i
    ensures Without(items, removed) == Without(items[..i], removed) + items[i..]
  {
    if i == |items| {
      assert items[..i] == items;
    } else {
      var init := items[..|items| - 1];
      WithoutTail(init, removed, i);
      assert init[..i] == items[..i] && items[i..] == init[i..] + [items[|items| - 1]];
    }
  }

  lemma {:induction false} TotalAppend(a: seq<Item>, b: seq<Item>)
    ensures Total(a + b) == Total(a) + Total(b)
  {
    if a == [] {
      assert a + b == b;
    } else {
      assert (a + b)[1..] == a[1..] + b;
      TotalAppend(a[1..], b);
    }
  }

  lemma {:induction false} WithoutLength(items: seq<Item>, removed: set<int>)
    ensures |Without(items, removed)| <= |items|
    ensures |Without(items, removed)| == |items| <==> forall k :: 0 <= k < |items| ==> k !in removed
    ensures |Without(items, removed)| == |items| ==> Without(items, removed) == items
  {
    if items != [] {
      WithoutLength(items[..|items| - 1], removed);
      assert items == items[..|items| - 1] + [items[|items| - 1]];
    }
  }

  /** What is left of the list when the positions before `i` are decided. */
  function Progress(parsed: seq<Item>, removed: set<int>, i: nat, excess: int): seq<Item>
    requires i <= |parsed|
  {
    Without(parsed[..i], removed) + Evict(parsed[i..], excess)
  }

  /** Halfway through the loop: positions before `i` are decided, and the rest is still to be evicted from. */
  ghost predicate Picking(parsed: seq<Item>, removed: set<int>, i: int, totalToks: int) {
    && 0 <= i <= |parsed| && (forall k :: k in removed ==> 0 <= k < i) && (removed == {} || exists k :: k in removed)
    && Progress(parsed, removed, i, totalToks - BUDGET) == Enforce(parsed)
  }

  lemma PickStart(parsed: seq<Item>)
    ensures Picking(parsed, {}, 0, Total(parsed))
  {
    assert parsed[..0] == [] && parsed[0..] == parsed;
  }

  lemma PickEnd(parsed: seq<Item>, removed: set<int>, i: int, totalToks: int)
    requires Picking(parsed, removed, i, totalToks) && (i == |parsed| || totalToks <= BUDGET)
    ensures Without(parsed, removed) == Enforce(parsed)
    ensures removed == {} <==> Enforce(parsed) == parsed
  {
    WithoutTail(parsed, removed, i);
    WithoutLength(parsed, removed);
  }

  lemma PickProtected(parsed: seq<Item>, removed: set<int>, i: nat, excess: int)
    requires i < |parsed| && excess > 0 && (forall k :: k in removed ==> 0 <= k < i) && Protected(parsed[i])
    ensures Progress(parsed, removed, i, excess) == Progress(parsed, removed, i + 1, excess)
  {
    var x, rest := parsed[i], Evict(parsed[i + 1..], excess);
    assert parsed[..i + 1][..i] == parsed[..i] && parsed[i..][1..] == parsed[i + 1..];
    assert Evict(parsed[i..], excess) == [x] + rest;
    assert Without(parsed[..i + 1], removed) == Without(parsed[..i], removed) + [x];
  }

  lemma PickUnprotected(parsed: seq<Item>, removed: set<int>, i: nat, excess: int)
    requires i < |parsed| && excess > 0 && (forall k :: k in removed ==> 0 <= k < i) && !Protected(parsed[i])
    ensures Progress(parsed, removed, i, excess) == Progress(parsed, removed + {i}, i + 1, excess - parsed[i].tokens)
  {
    assert parsed[..i + 1][..i] == parsed[..i] && parsed[i..][1..] == parsed[i + 1..];
    WithoutExtends(parsed[..i], removed, {i});
    assert Without(parsed[..i + 1], removed + {i}) == Without(parsed[..i], removed) + [];
  }

  lemma PickStep(parsed: seq<Item>, removed: set<int>, i: int, totalToks: int)
    requires Picking(parsed, removed, i, totalToks) && i < |parsed| && totalToks > BUDGET
    ensures if Protected(parsed[i]) then Picking(parsed, removed, i + 1, totalToks)
            else Picking(parsed, removed + {i}, i + 1, totalToks - parsed[i].tokens)
  {
    assert i in removed + {i};
    if Protected(parsed[i]) {
      PickProtected(parsed, removed, i, totalToks - BUDGET);
    } else {
      PickUnprotected(parsed, removed, i, totalToks - BUDGET);
    }
  }

  /** The eviction loop: the positions to drop. */
  method PickEvicted(parsed: seq<Item>) returns (removed: set<int>)
    ensures Without(parsed, removed) == Enforce(parsed)
    ensures removed == {} <==> Enforce(parsed) == parsed
  {
    hide *;
    var totalToks: int := Total(parsed);
    removed := {};
    var i := 0;
    PickStart(parsed);
    while i < |parsed| && totalToks > BUDGET
      invariant 0 <= i <= |parsed| && Picking(parsed, removed, i, totalToks)
      decreases |parsed| - i
    {
      PickStep(parsed, removed, i, totalToks);
      if !Protected(parsed[i]) {
        totalToks := totalToks - parsed[i].tokens;
        removed := removed + {i};
      }
      i := i + 1;
    }
    PickEnd(parsed, removed, i, totalToks);
  }

  class WorkingMemory {
    var lists: map<string, Memory>

    function MemoryOf(session: string): Memory
      reads this
    {
      if session in lists then lists[session] else NOTHING
    }

    constructor ()
      ensures forall s :: MemoryOf(s) == NOTHING
    {
      lists := map[];
    }

    method GetWorkingMemory(session: string, now: int) returns (items: seq<Item>)
      ensures items == if session == "" then [] else Read(MemoryOf(session), now)
    {
      if session == "" || session !in lists || now > lists[session].deadline {
        return [];
      }
      items := lists[session].items;
    }

    method EnforceWmBudget(session: string, now: int)
      requires session != ""
      modifies this
      ensures MemoryOf(session) == DoEnforce(old(MemoryOf(session)), now)
      ensures forall s :: s != session ==> MemoryOf(s) == old(MemoryOf(s))
    {
      var parsed := GetWorkingMemory(session, now);
      if Total(parsed) <= BUDGET {
        return;
      }
      var removed := PickEvicted(parsed);
      if removed != {} {
        lists := lists[session := Memory(Without(parsed, removed), now + TTL_MS)];
      }
    }

    method AddToWorkingMemory(session: string, f: Fragment, now: int)
      modifies this
      ensures session != "" ==> MemoryOf(session) == DoAdd(old(MemoryOf(session)), EntryFor(f), now)
      ensures forall s :: s != session || session == "" ==> MemoryOf(s) == old(MemoryOf(s))
    {
      if session == "" {
        return;
      }
      var items := GetWorkingMemory(session, now);
      lists := lists[session := Memory(items + [EntryFor(f)], now + TTL_MS)];
      EnforceWmBudget(session, now);
    }

    method ClearWorkingMemory(session: string)
      modifies this
      ensures session != "" ==> MemoryOf(session) == NOTHING
      ensures forall s :: s != session || session == "" ==> MemoryOf(s) == old(MemoryOf(s))
    {
      if session != "" {
        lists := lists - {session};
      }
    }
  }

  // ---------------------------------------------------------------- what eviction leaves

  function Kind(items: seq<Item>, protected: bool): seq<Item> {
    if items == [] then [] else (if Protected(items[0]) == protected then [items[0]] else []) + Kind(items[1..], protected)
  }

  /** `r` keeps some of the items, in their order. */
  predicate Subsequence(r: seq<Item>, items: seq<Item>) {
    if r == [] then true
    else if items == [] then false
    else (r[0] == items[0] && Subsequence(r[1..], items[1..])) || Subsequence(r, items[1..])
  }

  /** The first `k` unprotected items went: enough of them, and no fewer would have been. */
  ghost predicate ShortestPrefix(items: seq<Item>, excess: int, k: nat) {
    var u := Kind(items, false);
    && k <= |u|
    && (Total(u[..k]) >= excess || k == |u|)
    && (k > 0 ==> Total(u[..k - 1]) < excess)
  }

  ghost predicate EvictedPrefix(items: seq<Item>, r: seq<Item>, k: nat)
  {
    var u := Kind(items, false);
    && k <= |u|
    && Kind(r, true) == Kind(items, true) && Kind(r, false) == u[k..]
    && Total(r) == Total(items) - Total(u[..k])
    && Subsequence(r, items)
  }

  lemma {:induction false} SubsequenceSelf(items: seq<Item>)
    ensures Subsequence(items, items)
  {
    if items != [] {
      SubsequenceSelf(items[1..]);
    }
  }

  lemma {:induction false} EvictShape(items: seq<Item>, excess: int) returns (k: nat)
    ensures ShortestPrefix(items, excess, k) && EvictedPrefix(items, Evict(items, excess), k)
  {
    var u := Kind(items, false);
    if items == [] || excess <= 0 {
      k := 0;
      SubsequenceSelf(items);
      assert u[..0] == [] && u[0..] == u;
    } else if Protected(items[0]) {
      k := EvictShape(items[1..], excess);
      var r := Evict(items[1..], excess);
      assert ([items[0]] + r)[1..] == r;
      assert [] + Kind(r, false) == Kind(r, false) && [] + Kind(items[1..], false) == u;
    } else {
      var k1 := EvictShape(items[1..], excess - items[0].tokens);
      k := k1 + 1;
      var u1 := Kind(items[1..], false);
      assert u == [items[0]] + u1 && u[1..] == u1;
      assert u[..k][1..] == u1[..k1] && u[k..] == u1[k1..];
      if k1 > 0 { assert u[..k - 1][1..] == u1[..k1 - 1]; }
      assert [] + Kind(items[1..], true) == Kind(items[1..], true);
    }
  }

  /**
   * Enforcing the budget keeps every protected item and the order, leaves at most 500 tokens unless only
   * protected items remain, and evicts the shortest prefix of the unprotected items that suffices.
   */
  lemma EnforceMeetsBudget(items: seq<Item>)
    ensures var r := Enforce(items);
            && Kind(r, true) == Kind(items, true) && Subsequence(r, items)
            && (Total(r) <= BUDGET || Kind(r, false) == [])
            && exists k :: ShortestPrefix(items, Total(items) - BUDGET, k) && EvictedPrefix(items, r, k)
  {
    var k := EvictShape(items, Total(items) - BUDGET);
  }

  lemma {:induction false} KindMembers(items: seq<Item>, protected: bool, x: Item)
    ensures x in Kind(items, protected) <==> x in items && Protected(x) == protected
  {
    if items != [] {
      KindMembers(items[1..], protected, x);
      assert x in items <==> x == items[0] || x in items[1..];
    }
  }

  /** In numbers: nothing more important than 0.8 is evicted, and past 500 tokens nothing else is left. */
  lemma ImportantStay(items: seq<Item>, x: Item)
    ensures var r := Enforce(items);
            && (x in items && x.importance > 0.8 ==> x in r)
            && (x in r ==> x in items && (Total(r) <= 500 || x.importance > 0.8))
  {
    EnforceMeetsBudget(items);
    var r := Enforce(items);
    KindMembers(items, true, x);
    KindMembers(items, false, x);
    KindMembers(r, true, x);
    KindMembers(r, false, x);
    EvictMembers(items, Total(items) - BUDGET, x);
  }

  lemma {:induction false} EvictMembers(items: seq<Item>, excess: int, x: Item)
    ensures x in Evict(items, excess) ==> x in items
  {
    if items != [] && excess > 0 {
      EvictMembers(items[1..], if Protected(items[0]) then excess else excess - items[0].tokens, x);
    }
  }

  // ---------------------------------------------------------------- whole runs

  datatype Event = Add(x: Item, at: int) | Clear

  /** The memory of one session after these events. */
  function After(es: seq<Event>): Memory {
    if es == [] then NOTHING
    else
      var m := After(es[..|es| - 1]);
      match es[|es| - 1]
      case Add(x, at) => DoAdd(m, x, at)
      case Clear => NOTHING
  }

  /** The time of the last addition, unless a clearing came after it. */
  function LastAdd(es: seq<Event>): Option<int> {
    if es == [] || es[|es| - 1].Clear? then None else Some(es[|es| - 1].at)
  }

  predicate Alive(es: seq<Event>, now: int) {
    LastAdd(es).Some? && now <= LastAdd(es).value + TTL_MS
  }

  /** What was added since the last clearing or the last pause of more than 24 hours. */
  function Recent(es: seq<Event>): seq<Item> {
    if es == [] || es[|es| - 1].Clear? then []
    else
      var init, e := es[..|es| - 1], es[|es| - 1];
      (if Alive(init, e.at) then Recent(init) else []) + [e.x]
  }

  /** What a reader at `now` could find at all. */
  function Available(es: seq<Event>, now: int): seq<Item> {
    if Alive(es, now) then Recent(es) else []
  }

  lemma NothingBefore(es: seq<Event>, now: int)
    ensures LastAdd(es).None? ==> After(es) == NOTHING
    ensures LastAdd(es).Some? ==> After(es).deadline == LastAdd(es).value + TTL_MS
    ensures !Alive(es, now) ==> Read(After(es), now) == []
  {
  }

  lemma EvictFirst(x: Item, items: seq<Item>, excess: int)
    ensures Protected(x) ==> Evict([x] + items, excess) == [x] + Evict(items, excess)
    ensures !Protected(x) && excess > 0 ==> Evict([x] + items, excess) == Evict(items, excess - x.tokens)
    ensures Total([x] + items) == x.tokens + Total(items)
  {
    assert ([x] + items)[1..] == items;
  }

  /** Evicting `e` from `a` and what is still too much of `f` with `b` added. */
  function Twice(a: seq<Item>, b: seq<Item>, e: int, f: int): seq<Item> {
    Evict(Evict(a, e) + b, f - (Total(a) - Total(Evict(a, e))))
  }

  lemma TwicePastProtected(x: Item, a: seq<Item>, b: seq<Item>, e: int, f: int)
    requires Protected(x)
    ensures Twice([x] + a, b, e, f) == [x] + Twice(a, b, e, f)
  {
    hide Evict, Total, Protected;
    var kept := Evict(a, e);
    EvictFirst(x, a, e);
    EvictFirst(x, kept, e);
    assert [x] + kept + b == [x] + (kept + b);
    EvictFirst(x, kept + b, f - (Total(a) - Total(kept)));
  }

  lemma TwicePastUnprotected(x: Item, a: seq<Item>, b: seq<Item>, e: int, f: int)
    requires !Protected(x) && e > 0
    ensures Twice([x] + a, b, e, f) == Twice(a, b, e - x.tokens, f - x.tokens)
  {
    hide Evict, Total, Protected;
    EvictFirst(x, a, e);
  }

  /** Evicting early and again later comes to evicting once: `f` is what is too much in the end, `e` what was before. */
  lemma {:induction false} EvictTwice(a: seq<Item>, b: seq<Item>, e: int, f: int)
    requires e <= f
    ensures Twice(a, b, e, f) == Evict(a + b, f)
  {
    if a == [] || e <= 0 {
      assert Evict(a, e) == a;
    } else {
      var x, tail := a[0], a[1..];
      hide Evict, Total, Protected, Twice;
      assert a == [x] + tail && a + b == [x] + (tail + b);
      EvictFirst(x, tail + b, f);
      if Protected(x) {
        TwicePastProtected(x, tail, b, e, f);
        EvictTwice(tail, b, e, f);
      } else {
        TwicePastUnprotected(x, tail, b, e, f);
        EvictTwice(tail, b, e - x.tokens, f - x.tokens);
      }
    }
  }

  /** Enforcing the budget at every addition is the same as enforcing it once at the end. */
  lemma EnforceTwice(a: seq<Item>, b: seq<Item>)
    ensures Enforce(Enforce(a) + b) == Enforce(a + b)
  {
    TotalAppend(a, b);
    TotalAppend(Enforce(a), b);
    EvictTwice(a, b, Total(a) - BUDGET, Total(a) + Total(b) - BUDGET);
  }

  /**
   * Whenever the memory is read after any additions and clearings, it is what one enforcement of the budget leaves
   * of all that was added since the last clearing or 24 hours' pause.
   */
  lemma {:induction false} MemoryAfterRun(es: seq<Event>, now: int)
    ensures Read(After(es), now) == Enforce(Available(es, now))
    decreases |es|
  {
    NothingBefore(es, now);
    if Alive(es, now) {
      var init, e := es[..|es| - 1], es[|es| - 1];
      MemoryAfterRun(init, e.at);
      EnforceTwice(Available(init, e.at), [e.x]);
      assert Recent(es) == Available(init, e.at) + [e.x];
    }
  }

  /**
   * `r` is `added` without its `k` oldest unprotected items. `k` is the least number that brings the rest within
   * budget, or all of them if none does.
   */
  ghost predicate Remembers(r: seq<Item>, added: seq<Item>, k: nat) {
    var u := Kind(added, false);
    var protectedTotal := Total(Kind(added, true));
    && k <= |u| && Subsequence(r, added)
    && Kind(r, true) == Kind(added, true) && Kind(r, false) == u[k..]
    && (protectedTotal + Total(u[k..]) <= BUDGET || k == |u|)
    && (k > 0 ==> protectedTotal + Total(u[k - 1..]) > BUDGET)
  }

  lemma {:induction false} KindTotals(items: seq<Item>)
    ensures Total(items) == Total(Kind(items, true)) + Total(Kind(items, false))
  {
    if items != [] {
      KindTotals(items[1..]);
      var first := [items[0]];
      TotalAppend(first, Kind(items[1..], Protected(items[0])));
      assert first[1..] == [] && Total(first) == items[0].tokens;
      assert [] + Kind(items[1..], !Protected(items[0])) == Kind(items[1..], !Protected(items[0]));
    }
  }

  lemma TotalSplit(items: seq<Item>, k: nat)
    requires k <= |items|
    ensures Total(items) == Total(items[..k]) + Total(items[k..])
  {
    TotalAppend(items[..k], items[k..]);
    assert items == items[..k] + items[k..];
  }

  /** Which items that leaves: all protected ones, and of the others the longest run of recent ones that fits. */
  lemma MemoryRemembers(es: seq<Event>, now: int) returns (k: nat)
    ensures Remembers(Read(After(es), now), Available(es, now), k)
  {
    MemoryAfterRun(es, now);
    k := EnforceRemembers(Available(es, now));
  }

  lemma EnforceRemembers(added: seq<Item>) returns (k: nat)
    ensures Remembers(Enforce(added), added, k)
  {
    k := EvictShape(added, Total(added) - BUDGET);
    var u := Kind(added, false);
    hide Kind, Total, Subsequence;
    KindTotals(added);
    TotalSplit(u, k);
    if k > 0 { TotalSplit(u, k - 1); }
  }
}
