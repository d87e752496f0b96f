/** robots.txt path patterns: the greedy matcher of the crawler and the declarative meaning of
    `*` and `$` in section 2.2.3 of RFC 9309. */
module RobotsMatcher {
  import opened GoText

  // ---------- Declarative meaning ----------

  /** `s`, as a whole, is an instance of `p`, where every `*` stands for any run of characters. */
  ghost predicate Glob(p: string, s: string)
    decreases |p|
  {
    if p == "" then s == ""
    else if p[0] == '*' then exists k :: 0 <= k <= |s| && Glob(p[1..], s[k..])
    else s != "" && s[0] == p[0] && Glob(p[1..], s[1..])
  }

  /** A trailing `$` asks for the whole path, otherwise some prefix of the path has to match. */
  ghost predicate RfcMatches(pattern: string, path: string) {
    if HasSuffix(pattern, "$") then Glob(pattern[..|pattern| - 1], path)
    else exists n :: 0 <= n <= |path| && Glob(pattern, path[..n])
  }

  // ---------- The crawler's matcher ----------

  function PatternLength(pattern: string): nat {
    if HasSuffix(pattern, "$") then |pattern| - 1 else |pattern|
  }

  function Body(pattern: string): string {
    if HasSuffix(pattern, "$") then pattern[..|pattern| - 1] else pattern
  }

  /** What is left of `s` once every part has been found, each at its leftmost occurrence. */
  function Greedy(parts: seq<string>, s: string): Option<string> {
    if parts == [] then Some(s)
    else if parts[0] == "" then Greedy(parts[1..], s)
    else
      var idx := Index(s, parts[0]);
      if idx < 0 then None else Greedy(parts[1..], s[idx + |parts[0]|..])
  }

  /** The answer of `MatchPattern` as a function of its arguments. */
  predicate Accepts(path: string, pattern: string) {
    var p := Body(pattern);
    var anchored := HasSuffix(pattern, "$");
    if !Contains(p, "*") then
      if anchored then path == p else HasPrefix(path, p)
    else
      var parts := Split(p, '*');
      HasPrefix(path, parts[0]) &&
      var rest := Greedy(parts[1..], path[|parts[0]|..]);
      rest.Some? && (anchored && !HasSuffix(p, "*") ==> rest.value == "")
  }

  /** Matching one more part continues from what the earlier parts left. */
  function AndThen(before: Option<string>, part: string): Option<string> {
    if before.None? then None
    else if part == "" then before
    else
      var idx := Index(before.value, part);
      if idx < 0 then None else Some(before.value[idx + |part|..])
  }

  lemma {:induction false} GreedyAppend(parts: seq<string>, part: string, s: string)
    ensures Greedy(parts + [part], s) == AndThen(Greedy(parts, s), part)
  {
    var all := parts + [part];
    if parts == [] {
      assert all[1..] == [];
    } else {
      var rest := parts[1..];
      assert all[1..] == rest + [part];
      if parts[0] == "" {
        GreedyAppend(rest, part, s);
      } else {
        var idx := Index(s, parts[0]);
        if idx >= 0 {
          GreedyAppend(rest, part, s[idx + |parts[0]|..]);
        }
      }
    }
  }

  /** What is left of the path after the first `n` pieces of a pattern, the first one as a prefix. */
  function Remaining(parts: seq<string>, n: nat, path: string): Option<string>
    requires 1 <= n <= |parts|
  {
    if parts[0] <= path then Greedy(parts[1..n], path[|parts[0]|..]) else None
  }

  lemma RemainingNext(parts: seq<string>, n: nat, path: string)
    requires 1 <= n < |parts|
    ensures Remaining(parts, n + 1, path) == AndThen(Remaining(parts, n, path), parts[n])
  {
    assert parts[1..n + 1] == parts[1..n] + [parts[n]];
    if parts[0] <= path {
      GreedyAppend(parts[1..n], parts[n], path[|parts[0]|..]);
    }
  }

  lemma {:induction false} RemainingFails(parts: seq<string>, n: nat, path: string)
    requires 1 <= n <= |parts| && Remaining(parts, n, path).None?
    ensures Remaining(parts, |parts|, path).None?
    decreases |parts| - n
  {
    if n < |parts| {
      RemainingNext(parts, n, path);
      RemainingFails(parts, n + 1, path);
    }
  }

  lemma AcceptsByRemaining(path: string, pattern: string)
    requires Contains(Body(pattern), "*")
    ensures var parts := Split(Body(pattern), '*');
            var rest := Remaining(parts, |parts|, path);
            Accepts(path, pattern) <==>
              rest.Some? && (HasSuffix(pattern, "$") && !HasSuffix(Body(pattern), "*") ==> rest.value == "")
  {
    var parts := Split(Body(pattern), '*');
    assert parts[1..|parts|] == parts[1..];
  }

  method MatchPattern(path: string, pattern: string) returns (matched: bool)
    ensures matched == Accepts(path, pattern)
  {
    var hasAnchor := HasSuffix(pattern, "$");
    var p := pattern;
    if hasAnchor {
      p := p[..|p| - 1];
    }
    if !Contains(p, "*") {
      if hasAnchor {
        return path == p;
      }
      return HasPrefix(path, p);
    }
    AcceptsByRemaining(path, pattern);
    var trailingWildcard := HasSuffix(p, "*");
    var parts := Split(p, '*');
    var remaining := path;
    for i := 0 to |parts|
      invariant if i == 0 then remaining == path else Remaining(parts, i, path) == Some(remaining)
    {
      var part := parts[i];
      if i > 0 {
        RemainingNext(parts, i, path);
      }
      if part == "" {
        continue;
      }
      if i == 0 {
        if !HasPrefix(remaining, part) {
          RemainingFails(parts, 1, path);
          return false;
        }
        remaining := remaining[|part|..];
        continue;
      }
      var idx := Index(remaining, part);
      if idx < 0 {
        RemainingFails(parts, i + 1, path);
        return false;
      }
      remaining := remaining[idx + |part|..];
    }
    if hasAnchor {
      if trailingWildcard {
        return true;
      }
      return remaining == "";
    }
    return true;
  }

  // ---------- Greedy matching against all ways of matching ----------

  /** The parts can be found in `s` one after the other, in some way that ends at position `m`. */
  ghost predicate Leaves(parts: seq<string>, s: string, m: nat)
    decreases |parts|, 1
  {
    if parts == [] then m == 0 else exists k: nat :: FirstAt(parts, s, m, k)
  }

  ghost predicate FirstAt(parts: seq<string>, s: string, m: nat, k: nat)
    requires parts != []
    decreases |parts|, 0
  {
    OccursAt(s, parts[0], k) && k + |parts[0]| <= m
    && Leaves(parts[1..], s[k + |parts[0]|..], m - k - |parts[0]|)
  }

  lemma FirstPart(parts: seq<string>, s: string, m: nat) returns (k: nat)
    requires parts != [] && Leaves(parts, s, m)
    ensures FirstAt(parts, s, m, k)
  {
    k :| FirstAt(parts, s, m, k);
  }

  /** The first piece starts `s`, and the others can be found behind it up to the end. */
  ghost predicate ByParts(parts: seq<string>, s: string)
    requires parts != []
  {
    parts[0] <= s && Leaves(parts[1..], s[|parts[0]|..], |s| - |parts[0]|)
  }

  lemma {:induction false} GlobByParts(p: string, s: string)
    ensures Glob(p, s) <==> ByParts(Split(p, '*'), s)
    decreases |p|, 1
  {
    if p == "" {
      assert Split(p, '*')[1..] == [];
    } else if p[0] == '*' {
      GlobByStar(p, s);
    } else {
      GlobByLiteral(p, s);
    }
  }

  lemma {:induction false} GlobByStar(p: string, s: string)
    requires p != "" && p[0] == '*'
    ensures Glob(p, s) <==> ByParts(Split(p, '*'), s)
    decreases |p|, 0
  {
    var rest := Split(p[1..], '*');
    assert Split(p, '*') == [""] + rest && s[0..] == s;
    forall k: nat | k <= |s| ensures Glob(p[1..], s[k..]) <==> FirstAt(rest, s, |s|, k) {
      GlobByParts(p[1..], s[k..]);
      ByPartsAt(rest, s, k);
    }
    if Leaves(rest, s, |s|) {
      var k := FirstPart(rest, s, |s|);
      assert Glob(p[1..], s[k..]);
    }
  }

  lemma ByPartsAt(parts: seq<string>, s: string, k: nat)
    requires parts != [] && k <= |s|
    ensures ByParts(parts, s[k..]) <==> FirstAt(parts, s, |s|, k)
  {
    if parts[0] <= s[k..] {
      assert s[k..][|parts[0]|..] == s[k + |parts[0]|..];
    }
  }

  lemma {:induction false} GlobByLiteral(p: string, s: string)
    requires p != "" && p[0] != '*'
    ensures Glob(p, s) <==> ByParts(Split(p, '*'), s)
    decreases |p|, 0
  {
    var parts, rest := Split(p, '*'), Split(p[1..], '*');
    assert parts[0] == [p[0]] + rest[0] && parts[1..] == rest[1..];
    if s != "" && s[0] == p[0] {
      GlobByParts(p[1..], s[1..]);
      assert parts[0] <= s <==> rest[0] <= s[1..];
      if rest[0] <= s[1..] {
        assert s[1..][|rest[0]|..] == s[|parts[0]|..];
      }
    }
  }

  lemma {:induction false} GreedySound(parts: seq<string>, s: string)
    requires Greedy(parts, s).Some?
    ensures Remains(parts, s, Greedy(parts, s).value)
  {
    if parts != [] {
      var k := GreedyStep(parts, s);
      var after := s[k + |parts[0]|..];
      GreedySound(parts[1..], after);
      RemainsAfter(parts, s, k, Greedy(parts[1..], after).value);
    }
  }

  /** `t` is the end of `s`, and the parts can be found in what comes before it. */
  ghost predicate Remains(parts: seq<string>, s: string, t: string) {
    |t| <= |s| && t == s[|s| - |t|..] && Leaves(parts, s, |s| - |t|)
  }

  lemma RemainsAfter(parts: seq<string>, s: string, k: nat, t: string)
    requires parts != [] && OccursAt(s, parts[0], k) && k + |parts[0]| <= |s|
    requires Remains(parts[1..], s[k + |parts[0]|..], t)
    ensures Remains(parts, s, t)
  {
    var after := s[k + |parts[0]|..];
    assert after[|after| - |t|..] == s[|s| - |t|..];
    assert FirstAt(parts, s, |s| - |t|, k);
  }

  lemma GreedyStep(parts: seq<string>, s: string) returns (k: nat)
    requires parts != [] && Greedy(parts, s).Some?
    ensures OccursAt(s, parts[0], k) && k + |parts[0]| <= |s|
    ensures Greedy(parts, s) == Greedy(parts[1..], s[k + |parts[0]|..])
  {
    assert s[0..] == s;
    IndexIsLeftmost(s, parts[0]);
    k := if parts[0] == "" then 0 else Index(s, parts[0]);
  }

  /** The leftmost occurrence of a part is no later than one in the text from `j` on. */
  lemma LeftmostFromEarlier(s: string, part: string, j: nat, k: nat)
    requires j <= |s| && OccursAt(s[j..], part, k)
    ensures 0 <= Index(s, part) <= j + k && j + k + |part| <= |s|
  {
    assert s[j..][k..] == s[j + k..];
    IndexIsLeftmost(s, part);
    assert OccursAt(s, part, j + k);
  }

  /** Taking leftmost occurrences leaves at least as much as any other way, even one that starts later. */
  lemma {:induction false} GreedyLeavesMost(parts: seq<string>, s: string, j: nat, m: nat)
    requires j <= |s| && Leaves(parts, s[j..], m)
    ensures Greedy(parts, s).Some? && |Greedy(parts, s).value| + m + j >= |s|
    decreases |parts|
  {
    if parts != [] {
      var part, rest := parts[0], parts[1..];
      var k := FirstPart(parts, s[j..], m);
      LeftmostFromEarlier(s, part, j, k);
      var end := j + k + |part|;
      assert s[j..][k + |part|..] == s[end..];
      var from := if part == "" then 0 else Index(s, part) + |part|;
      assert s[from..][end - from..] == s[end..];
      assert s[0..] == s;
      GreedyLeavesMost(rest, s[from..], end - from, m - k - |part|);
    }
  }

  lemma {:induction false} LeavesPrefix(parts: seq<string>, s: string, n: nat, m: nat)
    requires m <= n <= |s|
    ensures Leaves(parts, s[..n], m) <==> Leaves(parts, s, m)
    decreases |parts|
  {
    if parts != [] {
      forall k: nat | k + |parts[0]| <= m
        ensures FirstAt(parts, s[..n], m, k) <==> FirstAt(parts, s, m, k)
      {
        var d := k + |parts[0]|;
        assert s[..n][k..] == s[k..][..n - k];
        assert s[..n][d..] == s[d..][..n - d];
        LeavesPrefix(parts[1..], s[d..], n - d, m - d);
      }
      if Leaves(parts, s, m) {
        var k := FirstPart(parts, s, m);
        assert FirstAt(parts, s[..n], m, k);
      }
    }
  }

  ghost predicate LastAt(parts: seq<string>, part: string, s: string, m: nat, a: nat, k: nat) {
    a <= |s| && Leaves(parts, s, a) && OccursAt(s[a..], part, k) && a + k + |part| == m
  }

  /** A last part can be added wherever it occurs after the others. */
  lemma {:induction false} LeavesAppend(parts: seq<string>, part: string, s: string, m: nat, a: nat, k: nat)
    requires LastAt(parts, part, s, m, a, k)
    ensures Leaves(parts + [part], s, m)
    decreases |parts|
  {
    var all := parts + [part];
    if parts == [] {
      assert all[1..] == [] && s[0..] == s;
      assert FirstAt(all, s, m, k);
    } else {
      assert all[1..] == parts[1..] + [part];
      var k0 := FirstPart(parts, s, a);
      var d := k0 + |parts[0]|;
      assert s[d..][a - d..] == s[a..];
      LeavesAppend(parts[1..], part, s[d..], m - d, a - d, k);
      assert FirstAt(all, s, m, k0);
    }
  }

  /** And in no other way. */
  lemma {:induction false} LeavesSplit(parts: seq<string>, part: string, s: string, m: nat)
    returns (a: nat, k: nat)
    requires Leaves(parts + [part], s, m)
    ensures LastAt(parts, part, s, m, a, k)
    decreases |parts|
  {
    var all := parts + [part];
    var k0 := FirstPart(all, s, m);
    if parts == [] {
      assert all[1..] == [] && s[0..] == s;
      assert Leaves([], s[k0 + |part|..], m - k0 - |part|);
      a, k := 0, k0;
    } else {
      assert all[1..] == parts[1..] + [part];
      var d := k0 + |parts[0]|;
      a, k := LeavesSplit(parts[1..], part, s[d..], m - d);
      assert s[d..][a..] == s[d + a..];
      assert OccursAt(s[d + a..], part, k);
      a := d + a;
      assert FirstAt(parts, s, a, k0);
    }
  }

  /** The parts can be found so that the last one ends `s` exactly when greedy matching of the
      others leaves a text that ends with it. */
  lemma EndsWithLastPart(parts: seq<string>, last: string, s: string)
    ensures Leaves(parts + [last], s, |s|) <==>
            Greedy(parts, s).Some? && HasSuffix(Greedy(parts, s).value, last)
  {
    if Greedy(parts, s).Some? {
      GreedySound(parts, s);
      var t := Greedy(parts, s).value;
      if HasSuffix(t, last) {
        LeavesAppend(parts, last, s, |s|, |s| - |t|, |t| - |last|);
      }
    }
    if Leaves(parts + [last], s, |s|) {
      var a, k := LeavesSplit(parts, last, s, |s|);
      assert s[0..] == s;
      GreedyLeavesMost(parts, s, 0, a);
      GreedySound(parts, s);
      var t := Greedy(parts, s).value;
      assert s[a..][k..] == s[|s| - |last|..] == t[|t| - |last|..];
    }
  }

  // ---------- What a pattern looks like in pieces ----------

  lemma {:induction false} ContainsStar(p: string)
    ensures Contains(p, "*") <==> '*' in p
  {
    if p != "" {
      assert p == [p[0]] + p[1..];
      ContainsStar(p[1..]);
    }
  }

  lemma {:induction false} SplitWithout(p: string)
    requires '*' !in p
    ensures Split(p, '*') == [p]
  {
    if p != "" {
      SplitWithout(p[1..]);
      assert p == [p[0]] + p[1..];
    }
  }

  lemma {:induction false} SplitWith(p: string)
    requires '*' in p
    ensures |Split(p, '*')| >= 2
    ensures Split(p, '*')[|Split(p, '*')| - 1] == "" <==> p[|p| - 1] == '*'
  {
    assert p == [p[0]] + p[1..];
    if '*' in p[1..] {
      SplitWith(p[1..]);
    } else {
      SplitWithout(p[1..]);
    }
  }

  // ---------- The matcher against the RFC ----------

  /** An anchored pattern ends in a literal, and that literal already occurs before the end of the
      text the earlier pieces leave over, although the text does end with it. */
  predicate LastLiteralComesEarly(path: string, pattern: string) {
    var p := Body(pattern);
    HasSuffix(pattern, "$") && Contains(p, "*") && !HasSuffix(p, "*") &&
    var parts := Split(p, '*');
    HasPrefix(path, parts[0]) && |parts| >= 2 &&
    var last := parts[|parts| - 1];
    var rest := Greedy(parts[1..|parts| - 1], path[|parts[0]|..]);
    rest.Some? && HasSuffix(rest.value, last) && Index(rest.value, last) < |rest.value| - |last|
  }

  lemma UnanchoredIsRfc(path: string, pattern: string)
    requires !HasSuffix(pattern, "$")
    ensures Accepts(path, pattern) <==> RfcMatches(pattern, path)
  {
    var parts := Split(pattern, '*');
    var first, tail := parts[0], parts[1..];
    forall n: nat | n <= |path|
      ensures Glob(pattern, path[..n]) <==>
              |first| <= n && first <= path && Leaves(tail, path[|first|..], n - |first|)
    {
      GlobByParts(pattern, path[..n]);
      if |first| <= n {
        assert path[..n][|first|..] == path[|first|..][..n - |first|];
        LeavesPrefix(tail, path[|first|..], n - |first|, n - |first|);
        assert first <= path[..n] <==> first <= path;
      }
    }
    ContainsStar(pattern);
    if '*' in pattern {
      SplitWith(pattern);
    } else {
      SplitWithout(pattern);
    }
    if first <= path {
      var s := path[|first|..];
      assert s[0..] == s;
      if Greedy(tail, s).Some? {
        GreedySound(tail, s);
        assert Glob(pattern, path[..|path| - |Greedy(tail, s).value|]);
      }
      if n :| 0 <= n <= |path| && Glob(pattern, path[..n]) {
        GreedyLeavesMost(tail, s, 0, n - |first|);
      }
    }
  }

  lemma AnchoredIsRfcUnlessEarly(path: string, pattern: string)
    requires HasSuffix(pattern, "$")
    ensures Accepts(path, pattern) ==> RfcMatches(pattern, path)
    ensures RfcMatches(pattern, path) && !Accepts(path, pattern) <==> LastLiteralComesEarly(path, pattern)
  {
    var p := Body(pattern);
    GlobByParts(p, path);
    ContainsStar(p);
    if '*' !in p {
      SplitWithout(p);
    } else {
      StarredIsRfcUnlessEarly(path, pattern);
    }
  }

  lemma RfcByParts(path: string, pattern: string)
    requires HasSuffix(pattern, "$") && |Split(Body(pattern), '*')| >= 2
    ensures var parts := Split(Body(pattern), '*'); var rest := Remaining(parts, |parts| - 1, path);
            RfcMatches(pattern, path) <==> rest.Some? && HasSuffix(rest.value, parts[|parts| - 1])
  {
    var parts := Split(Body(pattern), '*');
    GlobByParts(Body(pattern), path);
    var init, last := parts[1..|parts| - 1], parts[|parts| - 1];
    assert parts[1..] == init + [last];
    if parts[0] <= path {
      EndsWithLastPart(init, last, path[|parts[0]|..]);
    }
  }

  lemma AcceptsByParts(path: string, pattern: string)
    requires HasSuffix(pattern, "$") && Contains(Body(pattern), "*") && |Split(Body(pattern), '*')| >= 2
    ensures var parts := Split(Body(pattern), '*'); var rest := Remaining(parts, |parts| - 1, path);
            Accepts(path, pattern) <==>
              rest.Some? &&
              var left := AndThen(rest, parts[|parts| - 1]);
              left.Some? && (!HasSuffix(Body(pattern), "*") ==> left.value == "")
  {
    var parts := Split(Body(pattern), '*');
    AcceptsByRemaining(path, pattern);
    RemainingNext(parts, |parts| - 1, path);
  }

  lemma StarredIsRfcUnlessEarly(path: string, pattern: string)
    requires HasSuffix(pattern, "$") && '*' in Body(pattern)
    ensures Accepts(path, pattern) ==> RfcMatches(pattern, path)
    ensures RfcMatches(pattern, path) && !Accepts(path, pattern) <==> LastLiteralComesEarly(path, pattern)
  {
    ContainsStar(Body(pattern));
    SplitWith(Body(pattern));
    RfcByParts(path, pattern);
    AcceptsByParts(path, pattern);
    var parts := Split(Body(pattern), '*');
    var rest := Remaining(parts, |parts| - 1, path);
    if rest.Some? {
      IndexIsLeftmost(rest.value, parts[|parts| - 1]);
    }
  }

  /** The matcher never accepts what section 2.2.3 of RFC 9309 rejects, and it agrees with the
      RFC exactly when the last literal of an anchored pattern does not come early. */
  lemma MatcherAgainstRfc(path: string, pattern: string)
    ensures Accepts(path, pattern) ==> RfcMatches(pattern, path)
    ensures (Accepts(path, pattern) <==> RfcMatches(pattern, path)) <==> !LastLiteralComesEarly(path, pattern)
  {
    if HasSuffix(pattern, "$") {
      AnchoredIsRfcUnlessEarly(path, pattern);
    } else {
      UnanchoredIsRfc(path, pattern);
    }
  }

  lemma {:induction false} SplitOnce(first: string, last: string)
    requires '*' !in first && '*' !in last
    ensures Split(first + ['*'] + last, '*') == [first, last]
  {
    var p := first + ['*'] + last;
    if first == "" {
      assert p[1..] == last;
      SplitWithout(last);
    } else {
      SplitOnce(first[1..], last);
      assert p[1..] == first[1..] + ['*'] + last;
      assert first == [first[0]] + first[1..];
    }
  }

  /** A whole family of misses: a pattern with one star whose last literal ends the path and also occurs
      earlier behind the first one. */
  lemma AnchoredMiss(first: string, last: string, path: string, k: nat)
    requires '*' !in first && '*' !in last && last != ""
    requires HasPrefix(path, first) && HasSuffix(path[|first|..], last)
    requires k < |path| - |first| - |last| && OccursAt(path[|first|..], last, k)
    ensures RfcMatches(first + ['*'] + last + ['$'], path) && !Accepts(path, first + ['*'] + last + ['$'])
  {
    var pattern := first + ['*'] + last + ['$'];
    StarAndDollar(first, last, pattern);
    EarlyByParts(path, pattern, first, last, k);
    AnchoredIsRfcUnlessEarly(path, pattern);
  }

  lemma StarAndDollar(first: string, last: string, pattern: string)
    requires '*' !in first && '*' !in last && last != "" && pattern == first + ['*'] + last + ['$']
    ensures HasSuffix(pattern, "$") && Split(Body(pattern), '*') == [first, last]
    ensures Contains(Body(pattern), "*") && !HasSuffix(Body(pattern), "*")
  {
    var p := first + ['*'] + last;
    assert pattern[|pattern| - 1..] == "$" && pattern[..|pattern| - 1] == p;
    SplitOnce(first, last);
    ContainsStar(p);
    assert p[|p| - 1..] == [last[|last| - 1]];
  }

  lemma EarlyByParts(path: string, pattern: string, first: string, last: string, k: nat)
    requires HasSuffix(pattern, "$") && Split(Body(pattern), '*') == [first, last]
    requires Contains(Body(pattern), "*") && !HasSuffix(Body(pattern), "*")
    requires HasPrefix(path, first) && HasSuffix(path[|first|..], last)
    requires k < |path| - |first| - |last| && OccursAt(path[|first|..], last, k)
    ensures LastLiteralComesEarly(path, pattern)
  {
    IndexIsLeftmost(path[|first|..], last);
    assert [first, last][1..1] == [];
  }

  // The RFC matches "/*a$" against "/aba"; the crawler does not.
  lemma AnchoredMissWitness() returns (path: string, pattern: string)
    ensures path == "/aba" && pattern == "/*a$"
    ensures RfcMatches(pattern, path) && !Accepts(path, pattern)
  {
    path := "/aba";
    var first, last := "/", "a";
    pattern := first + ['*'] + last + ['$'];
    assert path[1..] == "aba" && path[1..][2..] == "a";
    AnchoredMiss(first, last, path, 0);
  }
}
