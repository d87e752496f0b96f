/** The few functions of Go's `strings` package that the crawler's algorithms lean on.
    A Go string is a sequence of bytes; here each byte is one `char`. */
module GoText {

  datatype Option<+T> = None | Some(value: T) {
    function GetOr(default: T): T {
      if Some? then value else default
    }
  }

  predicate HasPrefix(s: string, prefix: string) {
    prefix <= s
  }

  predicate HasSuffix(s: string, suffix: string) {
    |suffix| <= |s| && s[|s| - |suffix|..] == suffix
  }

  /** Position of the leftmost occurrence of `sub` in `s`, or -1. */
  function Index(s: string, sub: string): (r: int)
    ensures -1 <= r <= |s| - |sub| || r == -1
  {
    if sub <= s then 0
    else if s == "" then -1
    else
      var r := Index(s[1..], sub);
      if r < 0 then -1 else r + 1
  }

  /** `sub` occurs in `s` at position `k`. */
  predicate OccursAt(s: string, sub: string, k: nat) {
    k <= |s| && sub <= s[k..]
  }

  lemma {:induction false} IndexIsLeftmost(s: string, sub: string)
    ensures Index(s, sub) >= 0 ==> OccursAt(s, sub, Index(s, sub))
    ensures forall k: nat :: OccursAt(s, sub, k) ==> 0 <= Index(s, sub) <= k
  {
    assert s[0..] == s;
    if !(sub <= s) && s != "" {
      IndexIsLeftmost(s[1..], sub);
      forall k: nat | OccursAt(s, sub, k)
        ensures k > 0 && OccursAt(s[1..], sub, k - 1)
      {
        assert s[k..] == s[1..][k - 1..];
      }
      var r := Index(s[1..], sub);
      if r >= 0 {
        assert s[1..][r..] == s[r + 1..];
      }
    }
  }

  predicate Contains(s: string, sub: string) {
    Index(s, sub) >= 0
  }

  /** The search for one character finds the first one, or nothing when there is none. */
  lemma IndexOfChar(s: string, c: char)
    ensures Index(s, [c]) >= 0 <==> c in s
    ensures Index(s, [c]) >= 0 ==> Index(s, [c]) < |s| && s[Index(s, [c])] == c
    ensures forall i :: 0 <= i < Index(s, [c]) ==> s[i] != c
  {
    IndexIsLeftmost(s, [c]);
    forall k: nat ensures OccursAt(s, [c], k) <==> k < |s| && s[k] == c {
      assert k < |s| ==> s[k..][0] == s[k];
    }
  }

  lemma FirstCharAt(before: string, c: char, after: string)
    requires c !in before
    ensures Index(before + [c] + after, [c]) == |before|
  {
    var s := before + [c] + after;
    IndexOfChar(s, c);
    assert s[|before|] == c;
    forall i | 0 <= i < |before| ensures s[i] != c {
      assert s[i] == before[i] && before[i] in before;
    }
  }

  /** The pieces of `s` between the separators `sep`; one piece when there is no separator. */
  function Split(s: string, sep: char): (parts: seq<string>)
    ensures |parts| >= 1
  {
    if s == "" then [""]
    else
      var rest := Split(s[1..], sep);
      if s[0] == sep then [""] + rest else [[s[0]] + rest[0]] + rest[1..]
  }

  function Join(parts: seq<string>, sep: char): string {
    if |parts| == 0 then ""
    else if |parts| == 1 then parts[0]
    else parts[0] + [sep] + Join(parts[1..], sep)
  }

  /** Splitting undoes joining pieces without the separator, and joining undoes splitting. */
  lemma {:induction false} SplitJoins(s: string, sep: char)
    ensures Join(Split(s, sep), sep) == s
    ensures forall i :: 0 <= i < |Split(s, sep)| ==> sep !in Split(s, sep)[i]
  {
    if s != "" {
      SplitJoins(s[1..], sep);
      var rest, parts := Split(s[1..], sep), Split(s, sep);
      assert s == [s[0]] + s[1..];
      if s[0] == sep {
        assert parts[1..] == rest;
      } else {
        assert parts[1..] == rest[1..];
        assert |rest| > 1 ==> Join(parts, sep) == [s[0]] + (rest[0] + [sep] + Join(rest[1..], sep));
      }
    }
  }

  lemma {:induction false} JoinSplits(parts: seq<string>, sep: char)
    requires |parts| > 0 && forall i :: 0 <= i < |parts| ==> sep !in parts[i]
    ensures Split(Join(parts, sep), sep) == parts
    decreases |Join(parts, sep)|
  {
    var s, first := Join(parts, sep), parts[0];
    if first != "" {
      var shorter := parts[0 := first[1..]];
      assert shorter[1..] == parts[1..];
      assert first == [first[0]] + first[1..] && s == [first[0]] + Join(shorter, sep);
      assert s[1..] == Join(shorter, sep) && first[0] in first;
      JoinSplits(shorter, sep);
    } else if |parts| > 1 {
      assert s[1..] == Join(parts[1..], sep);
      JoinSplits(parts[1..], sep);
    }
  }

  predicate IsSpace(c: char) {
    c == ' ' || c == '\t' || c == '\n' || c == '\r' || c == 0x0B as char || c == 0x0C as char
  }

  function TrimLeft(s: string): string {
    if s != "" && IsSpace(s[0]) then TrimLeft(s[1..]) else s
  }

  function TrimRight(s: string): string {
    if s != "" && IsSpace(s[|s| - 1]) then TrimRight(s[..|s| - 1]) else s
  }

  function TrimSpace(s: string): string {
    TrimRight(TrimLeft(s))
  }

  function LowerChar(c: char): char {
    if 'A' <= c <= 'Z' then c - 'A' + 'a' else c
  }

  function ToLower(s: string): (r: string)
    ensures |r| == |s|
  {
    seq(|s|, i requires 0 <= i < |s| => LowerChar(s[i]))
  }

  predicate IsCapital(c: char) {
    'A' <= c <= 'Z'
  }

  /** `l` is the small letter of the capital `c`: it stands 32 places behind it. */
  predicate IsSmallOf(l: char, c: char) {
    IsCapital(c) && l as int == c as int + 32
  }

  /** The same text up to the case of letters. */
  predicate EqualFold(a: string, b: string) {
    |a| == |b| && forall i :: 0 <= i < |a| ==> a[i] == b[i] || IsSmallOf(a[i], b[i]) || IsSmallOf(b[i], a[i])
  }

  predicate NoCapitals(s: string) {
    forall i :: 0 <= i < |s| ==> !IsCapital(s[i])
  }

  /** Lower-casing gives the one text without capitals that is the same up to case. */
  lemma ToLowerExactly(s: string, t: string)
    ensures t == ToLower(s) <==> EqualFold(s, t) && NoCapitals(t)
  {
    forall i | 0 <= i < |s| ensures !IsCapital(ToLower(s)[i]) {
    }
  }

  /** Two texts have the same lower case exactly when they are the same up to case. */
  lemma LowerIsFold(a: string, b: string)
    ensures ToLower(a) == ToLower(b) <==> EqualFold(a, b)
  {
    if ToLower(a) == ToLower(b) {
      forall i | 0 <= i < |a| ensures a[i] == b[i] || IsSmallOf(a[i], b[i]) || IsSmallOf(b[i], a[i]) {
        assert ToLower(a)[i] == LowerChar(a[i]) && ToLower(b)[i] == LowerChar(b[i]);
      }
    }
  }

  predicate AllSpace(s: string) {
    forall c :: c in s ==> IsSpace(c)
  }

  lemma {:induction false} TrimLeftAllSpace(s: string)
    ensures TrimLeft(s) == "" <==> AllSpace(s)
  {
    if s != "" {
      assert s == [s[0]] + s[1..];
      if IsSpace(s[0]) {
        TrimLeftAllSpace(s[1..]);
      }
    }
  }

  lemma {:induction false} TrimRightEmpty(s: string)
    ensures TrimRight(s) == "" <==> AllSpace(s)
  {
    if s != "" {
      assert s == s[..|s| - 1] + [s[|s| - 1]];
      if IsSpace(s[|s| - 1]) {
        TrimRightEmpty(s[..|s| - 1]);
      }
    }
  }

  lemma {:induction false} TrimLeftShape(s: string)
    ensures TrimLeft(s) != "" ==> !IsSpace(TrimLeft(s)[0]) && TrimLeft(s)[0] in s
  {
    if s != "" && IsSpace(s[0]) {
      TrimLeftShape(s[1..]);
    }
  }

  /** Trimming empties exactly the blank strings. */
  lemma TrimSpaceBlank(s: string)
    ensures TrimSpace(s) == "" <==> AllSpace(s)
  {
    TrimLeftAllSpace(s);
    TrimRightEmpty(TrimLeft(s));
    TrimLeftShape(s);
  }

  /** Neither the first nor the last character is white space. */
  predicate Trimmed(s: string) {
    s != "" ==> !IsSpace(s[0]) && !IsSpace(s[|s| - 1])
  }

  lemma {:induction false} TrimLeftOf(lead: string, s: string)
    requires AllSpace(lead) && (s != "" ==> !IsSpace(s[0]))
    ensures TrimLeft(lead + s) == s
  {
    if lead == "" {
      assert lead + s == s;
    } else {
      assert (lead + s)[1..] == lead[1..] + s && lead[0] in lead;
      TrimLeftOf(lead[1..], s);
    }
  }

  lemma {:induction false} TrimRightOf(s: string, trail: string)
    requires AllSpace(trail) && (s != "" ==> !IsSpace(s[|s| - 1]))
    ensures TrimRight(s + trail) == s
  {
    if trail == "" {
      assert s + trail == s;
    } else {
      var n := |trail| - 1;
      assert (s + trail)[..|s + trail| - 1] == s + trail[..n] && trail[n] in trail;
      TrimRightOf(s, trail[..n]);
    }
  }

  /** Trimming takes the white space off both ends, and nothing else. */
  lemma TrimSpaceOf(lead: string, s: string, trail: string)
    requires AllSpace(lead) && AllSpace(trail) && Trimmed(s)
    ensures TrimSpace(lead + s + trail) == s
  {
    if s == "" {
      assert AllSpace(lead + s + trail);
      TrimSpaceBlank(lead + s + trail);
    } else {
      assert lead + s + trail == lead + (s + trail) && (s + trail)[0] == s[0];
      TrimLeftOf(lead, s + trail);
      TrimRightOf(s, trail);
    }
  }

  lemma {:induction false} TrimLeftSplits(s: string) returns (lead: string)
    ensures s == lead + TrimLeft(s) && AllSpace(lead)
    ensures TrimLeft(s) != "" ==> !IsSpace(TrimLeft(s)[0])
  {
    lead := "";
    if s != "" && IsSpace(s[0]) {
      var rest := TrimLeftSplits(s[1..]);
      lead := [s[0]] + rest;
    }
  }

  lemma {:induction false} TrimRightSplits(s: string) returns (trail: string)
    ensures s == TrimRight(s) + trail && AllSpace(trail)
    ensures TrimRight(s) != "" ==> !IsSpace(TrimRight(s)[|TrimRight(s)| - 1])
  {
    trail := "";
    if s != "" && IsSpace(s[|s| - 1]) {
      var rest := TrimRightSplits(s[..|s| - 1]);
      trail := rest + [s[|s| - 1]];
    }
  }

  lemma TrimSplits(s: string) returns (lead: string, trail: string)
    ensures s == lead + TrimSpace(s) + trail && AllSpace(lead) && AllSpace(trail) && Trimmed(TrimSpace(s))
  {
    lead := TrimLeftSplits(s);
    trail := TrimRightSplits(TrimLeft(s));
  }

  lemma TrimSame(lead: string, s: string, trail: string)
    requires AllSpace(lead) && AllSpace(trail)
    ensures TrimSpace(lead + s + trail) == TrimSpace(s)
  {
    var a, b := TrimSplits(s);
    assert lead + s + trail == (lead + a) + TrimSpace(s) + (b + trail);
    TrimSpaceOf(lead + a, TrimSpace(s), b + trail);
  }

  lemma FoldKeepsSigns(a: string, b: string, c: char)
    requires EqualFold(a, b) && c !in a && !IsCapital(c) && forall x :: !IsSmallOf(c, x)
    ensures c !in b
  {
    forall i | 0 <= i < |b| ensures b[i] != c {
      assert a[i] in a;
    }
  }

  /** Trimming keeps texts the same up to case. */
  lemma FoldTrims(a: string, b: string)
    requires EqualFold(a, b)
    ensures ToLower(TrimSpace(a)) == ToLower(TrimSpace(b))
  {
    var lead, trail := TrimSplits(a);
    var m, n := |lead|, |lead| + |TrimSpace(a)|;
    var core := b[m..n];
    assert b == b[..m] + core + b[n..];
    forall i | 0 <= i < |a| ensures IsSpace(a[i]) == IsSpace(b[i]) {
    }
    assert forall i :: 0 <= i < m ==> a[i] == lead[i];
    assert forall i :: n <= i < |a| ==> a[i] == trail[i - n];
    assert forall i :: m <= i < n ==> a[i] == TrimSpace(a)[i - m];
    TrimSpaceOf(b[..m], core, b[n..]);
    LowerIsFold(TrimSpace(a), core);
  }

  lemma {:induction false} SplitWithin(s: string, sep: char)
    ensures forall i, c :: 0 <= i < |Split(s, sep)| && c in Split(s, sep)[i] ==> c in s
  {
    if s != "" {
      SplitWithin(s[1..], sep);
      assert s == [s[0]] + s[1..];
    }
  }
}
