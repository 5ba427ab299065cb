/** The backward chunked tail and the continuation-line merge of lib/admin/admin-logs.js, one byte per character. */
module LogTail {
  import opened Options

  type Line = string

  // ---------------------------------------------------------------- lines

  /** `s.split("\n")` */
  function Split(s: string): (r: seq<Line>)
    ensures r != []
  {
    if s == "" then [""]
    else if s[0] == '\n' then [""] + Split(s[1..])
    else var t := Split(s[1..]); [[s[0]] + t[0]] + t[1..]
  }

  function NonEmpty(ls: seq<Line>): seq<Line> {
    if ls == [] then [] else (if ls[0] == "" then [] else [ls[0]]) + NonEmpty(ls[1..])
  }

  function Lines(s: string): seq<Line> {
    NonEmpty(Split(s))
  }

  /** `ls.slice(-n)` for a positive n */
  function Last<T>(ls: seq<T>, n: nat): seq<T> {
    if |ls| <= n then ls else ls[|ls| - n..]
  }

  // ---------------------------------------------------------------- reading backwards

  /**
   * Reads chunks from the end until enough lines are collected, ten more than asked for.
   * The answer is nevertheless defined by the whole file.
   */
  method ReadTail(file: string, chunk: nat, tail: nat) returns (lines: seq<Line>)
    requires chunk >= 1 && tail >= 1
    ensures lines == Last(Lines(file), tail)
    ensures |lines| == Min(tail, |Lines(file)|) && lines == Lines(file)[|Lines(file)| - |lines|..]
  {
    var collected := "";
    var pos := |file|;
    while pos > 0
      invariant 0 <= pos <= |file| && collected == file[pos..]
      decreases pos
    {
      var readSize := Min(chunk, pos);
      pos := pos - readSize;
      var buf := file[pos..pos + readSize];
      assert buf + file[pos + readSize..] == file[pos..];
      collected := buf + collected;
      var lineCount := |Lines(collected)|;
      if lineCount >= tail + 10 {
        break;
      }
    }
    assert file == file[..pos] + file[pos..];
    if pos > 0 {
      SuffixDecidesLast(file[..pos], collected, tail);
    }
    lines := Last(Lines(collected), tail);
  }

  /** Prefixing text can only complete the first line of a suffix; the others stay the last ones. */
  lemma {:induction false} SplitPrefixed(a: string, b: string) returns (pre: seq<Line>)
    ensures pre != [] && Split(a + b) == pre + Split(b)[1..]
    decreases |a|
  {
    if a == "" {
      assert a + b == b;
      pre := [Split(b)[0]];
    } else {
      assert (a + b)[1..] == a[1..] + b;
      var p := SplitPrefixed(a[1..], b);
      pre := if a[0] == '\n' then [""] + p else [[a[0]] + p[0]] + p[1..];
      FirstGrows(a[0], Split(a[1..] + b), p, Split(b)[1..]);
    }
  }

  lemma FirstGrows(c: char, t: seq<Line>, p: seq<Line>, rest: seq<Line>)
    requires p != [] && t == p + rest
    ensures [""] + t == ([""] + p) + rest
    ensures [[c] + t[0]] + t[1..] == ([[c] + p[0]] + p[1..]) + rest
  {
  }

  lemma {:induction false} NonEmptyAppend(a: seq<Line>, b: seq<Line>)
    ensures NonEmpty(a + b) == NonEmpty(a) + NonEmpty(b)
  {
    if a == [] {
      assert a + b == b;
    } else {
      assert (a + b)[1..] == a[1..] + b;
      NonEmptyAppend(a[1..], b);
    }
  }

  lemma NonEmptyOne(x: Line)
    ensures |NonEmpty([x])| <= 1
  {
    assert [x][1..] == [];
  }

  /** A suffix with more than `n` lines already shows the last `n` lines of the whole text. */
  lemma SuffixDecidesLast(a: string, b: string, n: nat)
    requires |Lines(b)| > n
    ensures Last(Lines(a + b), n) == Last(Lines(b), n)
  {
    var part := Split(b);
    var pre := SplitPrefixed(a, b);
    hide Split, NonEmpty, Last;
    assert part == [part[0]] + part[1..];
    NonEmptyAppend(pre, part[1..]);
    NonEmptyAppend([part[0]], part[1..]);
    NonEmptyOne(part[0]);
    LastOfTail(NonEmpty(pre), NonEmpty(part[1..]), n);
    LastOfTail(NonEmpty([part[0]]), NonEmpty(part[1..]), n);
  }

  lemma LastOfTail(a: seq<Line>, b: seq<Line>, n: nat)
    requires |b| >= n
    ensures Last(a + b, n) == b[|b| - n..]
  {
  }

  // ---------------------------------------------------------------- merging continuation lines

  datatype Header = Header(timestamp: string, level: string, message: string)

  /** What the line pattern captures, or None when the line does not match it. */
  type Pattern = Line -> Option<Header>

  datatype Entry = Entry(timestamp: string, level: string, message: string)

  function JoinAfter(message: string, more: seq<Line>): string {
    if more == [] then message else JoinAfter(message, more[..|more| - 1]) + "\n" + more[|more| - 1]
  }

  function Concat(groups: seq<seq<Line>>): seq<Line> {
    if groups == [] then [] else Concat(groups[..|groups| - 1]) + groups[|groups| - 1]
  }

  /** A header-shaped line followed by lines that are not. */
  predicate IsGroup(p: Pattern, g: seq<Line>) {
    g != [] && p(g[0]).Some? && forall i :: 1 <= i < |g| ==> p(g[i]).None?
  }

  function EntryOf(p: Pattern, g: seq<Line>): Entry
    requires IsGroup(p, g)
  {
    var h := p(g[0]).value;
    Entry(h.timestamp, h.level, JoinAfter(h.message, g[1..]))
  }

  ghost predicate Groups(p: Pattern, groups: seq<seq<Line>>, entries: seq<Entry>) {
    |groups| == |entries| && forall i :: 0 <= i < |groups| ==> IsGroup(p, groups[i]) && entries[i] == EntryOf(p, groups[i])
  }

  /** The number of lines before the first header-shaped one. */
  function Orphans(p: Pattern, ls: seq<Line>): (k: nat)
    ensures k <= |ls| && (k < |ls| ==> p(ls[k]).Some?) && forall i :: 0 <= i < k ==> p(ls[i]).None?
  {
    if ls == [] || p(ls[0]).Some? then 0 else 1 + Orphans(p, ls[1..])
  }

  lemma NewGroup(p: Pattern, groups: seq<seq<Line>>, entries: seq<Entry>, line: Line)
    requires Groups(p, groups, entries) && p(line).Some?
    ensures var h := p(line).value;
            Groups(p, groups + [[line]], entries + [Entry(h.timestamp, h.level, h.message)])
    ensures Concat(groups + [[line]]) == Concat(groups) + [line]
  {
    assert [line][1..] == [];
    assert (groups + [[line]])[..|groups|] == groups;
  }

  lemma LongerEntry(p: Pattern, g: seq<Line>, line: Line)
    requires IsGroup(p, g) && p(line).None?
    ensures IsGroup(p, g + [line])
    ensures EntryOf(p, g + [line]) == EntryOf(p, g).(message := EntryOf(p, g).message + "\n" + line)
  {
    var more := (g + [line])[1..];
    assert more == g[1..] + [line] && more[..|more| - 1] == g[1..];
  }

  lemma LongerLast(p: Pattern, groups: seq<seq<Line>>, entries: seq<Entry>, line: Line)
    requires Groups(p, groups, entries) && groups != [] && p(line).None?
    ensures var k := |groups| - 1;
            var e := entries[k].(message := entries[k].message + "\n" + line);
            Groups(p, groups[k := groups[k] + [line]], entries[k := e])
  {
    LongerEntry(p, groups[|groups| - 1], line);
  }

  lemma LongerConcat(groups: seq<seq<Line>>, line: Line)
    requires groups != []
    ensures var k := |groups| - 1; Concat(groups[k := groups[k] + [line]]) == Concat(groups) + [line]
  {
    var k := |groups| - 1;
    assert groups[k := groups[k] + [line]][..k] == groups[..k];
  }

  /** The groups and entries made of the first `i` lines. */
  ghost predicate Merged(p: Pattern, ls: seq<Line>, i: nat, groups: seq<seq<Line>>, entries: seq<Entry>) {
    var k := Orphans(p, ls);
    && i <= |ls| && Groups(p, groups, entries) && (groups == [] <==> i <= k)
    && Concat(groups) == if i <= k then [] else ls[k..i]
  }

  lemma OneMore(ls: seq<Line>, k: nat, i: nat)
    requires i < |ls|
    ensures k <= i ==> ls[k..i + 1] == ls[k..i] + [ls[i]]
  {
  }

  lemma HeaderStep(p: Pattern, ls: seq<Line>, i: nat, groups: seq<seq<Line>>, entries: seq<Entry>)
    requires Merged(p, ls, i, groups, entries) && i < |ls| && p(ls[i]).Some?
    ensures var h := p(ls[i]).value;
            Merged(p, ls, i + 1, groups + [[ls[i]]], entries + [Entry(h.timestamp, h.level, h.message)])
  {
    NewGroup(p, groups, entries, ls[i]);
    OneMore(ls, Orphans(p, ls), i);
  }

  lemma ContinuationStep(p: Pattern, ls: seq<Line>, i: nat, groups: seq<seq<Line>>, entries: seq<Entry>)
    requires Merged(p, ls, i, groups, entries) && i < |ls| && p(ls[i]).None?
    ensures groups == [] ==> Merged(p, ls, i + 1, groups, entries)
    ensures groups != [] ==>
      var last := |groups| - 1;
      Merged(p, ls, i + 1, groups[last := groups[last] + [ls[i]]],
             entries[last := entries[last].(message := entries[last].message + "\n" + ls[i])])
  {
    if groups != [] {
      LongerLast(p, groups, entries, ls[i]);
      LongerConcat(groups, ls[i]);
      OneMore(ls, Orphans(p, ls), i);
    }
  }

  lemma MergeEnds(p: Pattern, ls: seq<Line>, groups: seq<seq<Line>>, entries: seq<Entry>)
    ensures Merged(p, ls, 0, [], [])
    ensures Merged(p, ls, |ls|, groups, entries) ==>
              |groups| == |entries| && Groups(p, groups, entries) && Concat(groups) == ls[Orphans(p, ls)..]
  {
  }

  lemma MergedLength(p: Pattern, ls: seq<Line>, i: nat, groups: seq<seq<Line>>, entries: seq<Entry>)
    ensures Merged(p, ls, i, groups, entries) ==> |groups| == |entries|
  {
  }

  /** Each entry is one header line and the lines up to the next header; only leading orphans are dropped. */
  method Merge(p: Pattern, ls: seq<Line>) returns (parsed: seq<Entry>)
    ensures exists groups :: Groups(p, groups, parsed) && Concat(groups) == ls[Orphans(p, ls)..]
  {
    hide *;
    parsed := [];
    ghost var groups: seq<seq<Line>> := [];
    MergeEnds(p, ls, groups, parsed);
    for i := 0 to |ls|
      invariant Merged(p, ls, i, groups, parsed)
    {
      MergedLength(p, ls, i, groups, parsed);
      var m := p(ls[i]);
      if m.Some? {
        HeaderStep(p, ls, i, groups, parsed);
        groups := groups + [[ls[i]]];
        parsed := parsed + [Entry(m.value.timestamp, m.value.level, m.value.message)];
      } else {
        ContinuationStep(p, ls, i, groups, parsed);
        if |parsed| > 0 {
          var last := |parsed| - 1;
          groups := groups[last := groups[last] + [ls[i]]];
          parsed := parsed[last := parsed[last].(message := parsed[last].message + "\n" + ls[i])];
        }
      }
    }
    MergeEnds(p, ls, groups, parsed);
  }

  /** The merge has one outcome: groups are determined by where the header-shaped lines stand. */
  lemma {:induction false} GroupsUnique(p: Pattern, g: seq<seq<Line>>, h: seq<seq<Line>>)
    requires Concat(g) == Concat(h)
    requires forall i :: 0 <= i < |g| ==> IsGroup(p, g[i])
    requires forall i :: 0 <= i < |h| ==> IsGroup(p, h[i])
    ensures g == h
    decreases |g|
  {
    ConcatEmpty(p, g);
    ConcatEmpty(p, h);
    if g != [] && h != [] {
      var x, y := g[|g| - 1], h[|h| - 1];
      var a, b := Concat(g[..|g| - 1]), Concat(h[..|h| - 1]);
      LastGroupFits(p, a, x, b, y);
      LastGroupFits(p, b, y, a, x);
      SameEnds(a, x, b, y);
      hide IsGroup;
      GroupsUnique(p, g[..|g| - 1], h[..|h| - 1]);
      assert g == g[..|g| - 1] + [x] && h == h[..|h| - 1] + [y];
    }
  }

  lemma SameEnds(a: seq<Line>, x: seq<Line>, b: seq<Line>, y: seq<Line>)
    requires a + x == b + y && |x| == |y|
    ensures a == b && x == y
  {
    assert |a| + |x| == |a + x| == |b + y| == |b| + |y|;
    assert a == (a + x)[..|a|] && b == (b + y)[..|b|] && x == (a + x)[|a|..] && y == (b + y)[|b|..];
  }

  lemma ConcatEmpty(p: Pattern, g: seq<seq<Line>>)
    requires forall i :: 0 <= i < |g| ==> IsGroup(p, g[i])
    ensures Concat(g) == [] <==> g == []
  {
  }

  lemma Overlap(a: seq<Line>, x: seq<Line>, b: seq<Line>, y: seq<Line>)
    requires a + x == b + y && |a| < |b| && y != []
    ensures x[|b| - |a|] == y[0]
  {
    assert (a + x)[|b|] == (b + y)[|b|];
  }

  lemma LastGroupFits(p: Pattern, a: seq<Line>, x: seq<Line>, b: seq<Line>, y: seq<Line>)
    requires a + x == b + y && IsGroup(p, x) && IsGroup(p, y)
    ensures |x| <= |y|
  {
    assert |a| + |x| == |a + x| == |b + y| == |b| + |y|;
    if |a| < |b| {
      Overlap(a, x, b, y);
    }
  }

  // ---------------------------------------------------------------- what lines are

  function Join(ls: seq<Line>): string {
    if ls == [] then "" else if |ls| == 1 then ls[0] else ls[0] + "\n" + Join(ls[1..])
  }

  /** Splitting cuts the text at every newline and nowhere else. */
  lemma {:induction false} SplitJoins(s: string)
    ensures Join(Split(s)) == s
    ensures forall i :: 0 <= i < |Split(s)| ==> '\n' !in Split(s)[i]
    decreases |s|
  {
    if s != "" {
      var t := Split(s[1..]);
      SplitJoins(s[1..]);
      assert s == [s[0]] + s[1..];
      if s[0] == '\n' {
        assert ([""] + t)[1..] == t;
        assert "" + "\n" + Join(t) == s;
      } else {
        assert ([[s[0]] + t[0]] + t[1..])[1..] == t[1..];
        if |t| > 1 { assert [s[0]] + (t[0] + "\n" + Join(t[1..])) == [s[0]] + t[0] + "\n" + Join(t[1..]); }
      }
    }
  }

  /** Dropping empty lines drops nothing else, and keeps the order. */
  lemma {:induction false} NonEmptyExact(ls: seq<Line>, x: Line)
    ensures "" !in NonEmpty(ls) && (x != "" ==> multiset(NonEmpty(ls))[x] == multiset(ls)[x])
  {
    if ls != [] {
      NonEmptyExact(ls[1..], x);
      assert ls == [ls[0]] + ls[1..];
    }
  }

  /** The message of an entry, split at its newlines, is the header's message followed by the continuation lines. */
  lemma {:induction false} MessageLines(message: string, more: seq<Line>)
    requires '\n' !in message && forall i :: 0 <= i < |more| ==> '\n' !in more[i]
    ensures Split(JoinAfter(message, more)) == [message] + more
  {
    if more == [] {
      NoNewline(message);
    } else {
      var init, last := more[..|more| - 1], more[|more| - 1];
      MessageLines(message, init);
      SplitAtNewline(JoinAfter(message, init), last);
      NoNewline(last);
      assert more == init + [last];
    }
  }

  lemma {:induction false} NoNewline(s: string)
    requires '\n' !in s
    ensures Split(s) == [s]
  {
    if s != "" {
      NoNewline(s[1..]);
      assert s == [s[0]] + s[1..];
    }
  }

  lemma SplitFirst(c: char, s: string)
    ensures Split([c] + s) == if c == '\n' then [""] + Split(s) else [[c] + Split(s)[0]] + Split(s)[1..]
  {
    assert ([c] + s)[1..] == s;
  }

  lemma FirstOff(a: string, b: string)
    requires a != ""
    ensures a == [a[0]] + a[1..] && a + b == [a[0]] + (a[1..] + b)
  {
  }

  /** A text that starts with a newline ends the last line of the one before it. */
  lemma {:induction false} SplitBefore(a: string, r: string)
    requires r != "" && r[0] == '\n'
    ensures Split(a + r) == Split(a) + Split(r)[1..]
    decreases |a|
  {
    if a == "" {
      assert a + r == r;
    } else {
      FirstOff(a, r);
      hide Split;
      SplitBefore(a[1..], r);
      SplitFirst(a[0], a[1..] + r);
      SplitFirst(a[0], a[1..]);
      FirstGrows(a[0], Split(a[1..] + r), Split(a[1..]), Split(r)[1..]);
    }
  }

  lemma SplitAtNewline(a: string, b: string)
    ensures Split(a + "\n" + b) == Split(a) + Split(b)
  {
    hide Split;
    assert a + "\n" + b == a + (['\n'] + b);
    SplitFirst('\n', b);
    SplitBefore(a, ['\n'] + b);
  }
}
