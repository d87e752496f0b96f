/** The groups of section 2.2 of RFC 9309, read off the positions of the lines, against what the parser
    builds from them. */
module RobotsRfcGroups {
  import opened GoText
  import opened RobotsMatcher
  import opened RobotsGroups
  import opened RobotsParser

  // ---------- Groups by line position ----------

  /** Which lines end a run of user-agent lines. In the RFC rules do, and other records must not interfere
      with groups (section 2.2.4); to the parser a crawl-delay ends the run as well. */
  datatype Reading = Rfc | Crawler

  predicate IsAgentLine(l: Line) {
    l.field == "user-agent"
  }

  predicate NamesAgent(l: Line, ua: string) {
    IsAgentLine(l) && ToLower(l.value) == ua
  }

  predicate IsRuleLine(l: Line) {
    l.field == "allow" || l.field == "disallow"
  }

  predicate IsDelayLine(l: Line) {
    l.field == "crawl-delay"
  }

  predicate EndsRun(reading: Reading, l: Line) {
    IsRuleLine(l) || (reading.Crawler? && IsDelayLine(l))
  }

  /** Between the two positions a run of user-agent lines was ended and another one begun. */
  ghost predicate Parted(reading: Reading, lines: seq<Line>, i: nat, j: nat)
    requires j <= |lines|
  {
    exists a, b :: i < a < b < j && EndsRun(reading, lines[a]) && IsAgentLine(lines[b])
  }

  ghost predicate NamedBefore(reading: Reading, lines: seq<Line>, ua: string, j: nat, i: nat)
    requires j <= |lines|
  {
    i < j && NamesAgent(lines[i], ua) && !Parted(reading, lines, i, j)
  }

  /** Whatever stands at position `j` is addressed to the agent: a line before names it and belongs to the
      group that is open there. */
  ghost predicate Addressed(reading: Reading, lines: seq<Line>, ua: string, j: nat)
    requires j <= |lines|
  {
    exists i: nat :: NamedBefore(reading, lines, ua, j, i)
  }

  /** The rule that a line states; an empty disallow states none. */
  function RuleOf(l: Line): Option<Rule> {
    if l.field == "allow" then Some(Rule(Allow, l.value))
    else if l.field == "disallow" && l.value != "" then Some(Rule(Disallow, l.value))
    else None
  }

  /** All rules addressed to the agent, from however many groups (section 2.2.1 combines them). */
  ghost function GroupOf(reading: Reading, lines: seq<Line>, ua: string): seq<Rule> {
    if lines == [] then []
    else
      var init, last := lines[..|lines| - 1], lines[|lines| - 1];
      GroupOf(reading, init, ua)
      + if RuleOf(last).Some? && Addressed(reading, init, ua, |init|) then [RuleOf(last).value] else []
  }

  lemma {:induction false} PrefixAddresses(reading: Reading, lines: seq<Line>, n: nat, ua: string, j: nat)
    requires j <= n <= |lines|
    ensures Addressed(reading, lines[..n], ua, j) <==> Addressed(reading, lines, ua, j)
  {
    forall i: nat | i < j ensures Parted(reading, lines[..n], i, j) <==> Parted(reading, lines, i, j) {
    }
    forall i: nat ensures NamedBefore(reading, lines[..n], ua, j, i) <==> NamedBefore(reading, lines, ua, j, i) {
    }
  }

  /** A line states the rule and is addressed to the agent. */
  ghost predicate Gives(reading: Reading, lines: seq<Line>, ua: string, r: Rule, j: nat) {
    j < |lines| && RuleOf(lines[j]) == Some(r) && Addressed(reading, lines, ua, j)
  }

  lemma {:induction false} GroupMembers(reading: Reading, lines: seq<Line>, ua: string, r: Rule)
    ensures r in GroupOf(reading, lines, ua) <==> exists j: nat :: Gives(reading, lines, ua, r, j)
  {
    if lines != [] {
      var n := |lines| - 1;
      GroupMembers(reading, lines[..n], ua, r);
      forall j: nat | j <= n ensures Addressed(reading, lines[..n], ua, j) <==> Addressed(reading, lines, ua, j) {
        PrefixAddresses(reading, lines, n, ua, j);
      }
      forall j: nat | j < n ensures Gives(reading, lines[..n], ua, r, j) <==> Gives(reading, lines, ua, r, j) {
      }
      if Gives(reading, lines, ua, r, n) {
      } else if j: nat :| Gives(reading, lines, ua, r, j) {
        assert Gives(reading, lines[..n], ua, r, j);
      }
    }
  }

  // ---------- What the parser addresses ----------

  /** The last run of user-agent lines has been ended. */
  ghost predicate RunEnded(lines: seq<Line>) {
    exists i, a :: 0 <= i < a < |lines| && IsAgentLine(lines[i]) && EndsRun(Crawler, lines[a])
                   && forall b :: a < b < |lines| ==> !IsAgentLine(lines[b])
  }

  ghost predicate Tracks(st: State, lines: seq<Line>) {
    && (st.open <==> exists i :: 0 <= i < |lines| && IsAgentLine(lines[i]))
    && (st.hadRule <==> RunEnded(lines))
    && forall ua :: ua in st.agents <==> Addressed(Crawler, lines, ua, |lines|)
  }

  ghost predicate EndedAfter(reading: Reading, lines: seq<Line>, i: nat) {
    exists a :: i < a < |lines| && EndsRun(reading, lines[a])
  }

  /** A line that names no agent changes nothing about who is addressed after it. */
  lemma AddressedAfterOther(reading: Reading, init: seq<Line>, l: Line, ua: string)
    requires !IsAgentLine(l)
    ensures Addressed(reading, init + [l], ua, |init| + 1) <==> Addressed(reading, init, ua, |init|)
  {
    var n, lines := |init|, init + [l];
    forall i: nat | i < n ensures Parted(reading, lines, i, |lines|) <==> Parted(reading, init, i, n) {
      if Parted(reading, init, i, n) {
        var a, b :| i < a < b < n && EndsRun(reading, init[a]) && IsAgentLine(init[b]);
        assert EndsRun(reading, lines[a]) && IsAgentLine(lines[b]);
      }
    }
    forall i: nat ensures NamedBefore(reading, lines, ua, |lines|, i) <==> NamedBefore(reading, init, ua, n, i) {
    }
    if i: nat :| NamedBefore(reading, lines, ua, |lines|, i) {
      assert NamedBefore(reading, init, ua, n, i);
    }
    if i: nat :| NamedBefore(reading, init, ua, n, i) {
      assert NamedBefore(reading, lines, ua, |lines|, i);
    }
  }

  /** After a user-agent line its agent is addressed, and the earlier ones whose run has not been ended. */
  lemma AddressedAfterAgent(reading: Reading, init: seq<Line>, l: Line, ua: string)
    requires IsAgentLine(l)
    ensures Addressed(reading, init + [l], ua, |init| + 1) <==>
              NamesAgent(l, ua)
              || exists i: nat :: NamedBefore(reading, init, ua, |init|, i) && !EndedAfter(reading, init, i)
  {
    var n, lines := |init|, init + [l];
    forall i: nat | i < n
      ensures Parted(reading, lines, i, |lines|) <==> Parted(reading, init, i, n) || EndedAfter(reading, init, i)
    {
      if Parted(reading, init, i, n) {
        var a, b :| i < a < b < n && EndsRun(reading, init[a]) && IsAgentLine(init[b]);
        assert EndsRun(reading, lines[a]) && IsAgentLine(lines[b]);
      }
      if EndedAfter(reading, init, i) {
        var a :| i < a < n && EndsRun(reading, init[a]);
        assert EndsRun(reading, lines[a]) && IsAgentLine(lines[n]);
      }
    }
    if NamesAgent(l, ua) {
      assert NamedBefore(reading, lines, ua, |lines|, n);
    }
    forall i: nat | i < n
      ensures NamedBefore(reading, lines, ua, |lines|, i) <==>
                NamedBefore(reading, init, ua, n, i) && !EndedAfter(reading, init, i)
    {
    }
    if i: nat :| NamedBefore(reading, lines, ua, |lines|, i) {
      assert i == n || NamedBefore(reading, init, ua, n, i);
    }
    if i: nat :| NamedBefore(reading, init, ua, n, i) && !EndedAfter(reading, init, i) {
      assert NamedBefore(reading, lines, ua, |lines|, i);
    }
  }

  lemma EndedIsRunEnded(init: seq<Line>, ua: string, i: nat)
    requires NamedBefore(Crawler, init, ua, |init|, i)
    ensures EndedAfter(Crawler, init, i) <==> RunEnded(init)
  {
    if EndedAfter(Crawler, init, i) {
      var a :| i < a < |init| && EndsRun(Crawler, init[a]);
      forall b | a < b < |init| ensures !IsAgentLine(init[b]) {
      }
    }
    if RunEnded(init) {
      var i0, a :| 0 <= i0 < a < |init| && IsAgentLine(init[i0]) && EndsRun(Crawler, init[a])
                   && forall b :: a < b < |init| ==> !IsAgentLine(init[b]);
      assert i < a;
    }
  }

  lemma RunEndedAfter(init: seq<Line>, l: Line)
    ensures RunEnded(init + [l]) <==>
              !IsAgentLine(l)
              && (RunEnded(init) || (EndsRun(Crawler, l) && exists i :: 0 <= i < |init| && IsAgentLine(init[i])))
  {
    var lines := init + [l];
    if RunEnded(init) && !IsAgentLine(l) {
      var i, a :| 0 <= i < a < |init| && IsAgentLine(init[i]) && EndsRun(Crawler, init[a])
                  && forall b :: a < b < |init| ==> !IsAgentLine(init[b]);
      assert IsAgentLine(lines[i]) && EndsRun(Crawler, lines[a]);
    }
    if EndsRun(Crawler, l) && exists i :: 0 <= i < |init| && IsAgentLine(init[i]) {
      var i :| 0 <= i < |init| && IsAgentLine(init[i]);
      assert IsAgentLine(lines[i]) && EndsRun(Crawler, lines[|init|]);
    }
    if RunEnded(lines) {
      var i, a :| 0 <= i < a < |lines| && IsAgentLine(lines[i]) && EndsRun(Crawler, lines[a])
                  && forall b :: a < b < |lines| ==> !IsAgentLine(lines[b]);
      assert IsAgentLine(init[i]);
      if a < |init| {
        assert !IsAgentLine(lines[|init|]) && EndsRun(Crawler, init[a]);
        forall b | a < b < |init| ensures !IsAgentLine(init[b]) {
          assert lines[b] == init[b];
        }
        assert RunEnded(init);
      }
    }
  }

  lemma OpenAfter(init: seq<Line>, l: Line)
    ensures (exists i :: 0 <= i < |init + [l]| && IsAgentLine((init + [l])[i])) <==>
              IsAgentLine(l) || exists i :: 0 <= i < |init| && IsAgentLine(init[i])
  {
    var lines := init + [l];
    if i :| 0 <= i < |init| && IsAgentLine(init[i]) {
      assert IsAgentLine(lines[i]);
    }
    if IsAgentLine(l) {
      assert IsAgentLine(lines[|init|]);
    }
  }

  lemma AgentsAfter(st: State, init: seq<Line>, l: Line, atoi: string -> Option<int>, ua: string)
    requires Sound(st) && Tracks(st, init)
    ensures ua in Step(st, l, atoi).agents <==> Addressed(Crawler, init + [l], ua, |init| + 1)
  {
    if IsAgentLine(l) {
      AddressedAfterAgent(Crawler, init, l, ua);
      forall i: nat | NamedBefore(Crawler, init, ua, |init|, i)
        ensures EndedAfter(Crawler, init, i) <==> RunEnded(init)
      {
        EndedIsRunEnded(init, ua, i);
      }
    } else {
      AddressedAfterOther(Crawler, init, l, ua);
    }
  }

  lemma FlagsAfter(st: State, init: seq<Line>, l: Line, atoi: string -> Option<int>)
    requires Sound(st) && Tracks(st, init)
    ensures Step(st, l, atoi).open <==> exists i :: 0 <= i < |init + [l]| && IsAgentLine((init + [l])[i])
    ensures Step(st, l, atoi).hadRule <==> RunEnded(init + [l])
  {
    OpenAfter(init, l);
    RunEndedAfter(init, l);
  }

  /** The parser's local variables track the crawler's reading of the lines. */
  lemma {:induction false} ParserTracks(lines: seq<Line>, atoi: string -> Option<int>)
    ensures Tracks(Fold(lines, atoi), lines)
  {
    if lines != [] {
      var init, l := lines[..|lines| - 1], lines[|lines| - 1];
      var st := Fold(init, atoi);
      ParserTracks(init, atoi);
      assert lines == init + [l];
      FlagsAfter(st, init, l, atoi);
      forall ua ensures ua in Step(st, l, atoi).agents <==> Addressed(Crawler, lines, ua, |lines|) {
        AgentsAfter(st, init, l, atoi, ua);
      }
    }
  }

  /** The stored list holds for an agent, in any file, exactly the rules that the crawler's reading
      addresses to it. */
  lemma {:induction false} ListIsCrawlerGroup(lines: seq<Line>, atoi: string -> Option<int>, ua: string, r: Rule)
    ensures r in ListedRules(lines, ua, atoi) <==> r in GroupOf(Crawler, lines, ua)
  {
    if lines != [] {
      var init, l := lines[..|lines| - 1], lines[|lines| - 1];
      ListIsCrawlerGroup(init, atoi, ua, r);
      ParserTracks(init, atoi);
      StepRules(Fold(init, atoi), l, atoi, ua, r);
      FlatMembers(Fold(init, atoi).rules, ua, r);
      FlatMembers(Fold(lines, atoi).rules, ua, r);
    }
  }

  // ---------- The group in memory ----------

  /** No user-agent line behind `j` names the agent. */
  ghost predicate NotNamedAgain(lines: seq<Line>, ua: string, j: nat) {
    forall k :: j < k < |lines| ==> !NamesAgent(lines[k], ua)
  }

  /** A rule line addressed to the agent, behind which the agent is not named again. */
  ghost predicate LastGives(lines: seq<Line>, ua: string, r: Rule, j: nat) {
    Gives(Crawler, lines, ua, r, j) && NotNamedAgain(lines, ua, j)
  }

  /** A rule line addressed to the agent, behind which the agent is named again. */
  ghost predicate Superseded(lines: seq<Line>, ua: string, r: Rule) {
    exists j: nat :: Gives(Crawler, lines, ua, r, j) && !NotNamedAgain(lines, ua, j)
  }

  /** A line that does not name the agent adds its rule, if it is addressed to the agent. */
  lemma LastGivesAfter(init: seq<Line>, l: Line, ua: string, r: Rule)
    requires !NamesAgent(l, ua)
    ensures (exists j: nat :: LastGives(init + [l], ua, r, j)) <==>
              (exists j: nat :: LastGives(init, ua, r, j))
              || (RuleOf(l) == Some(r) && Addressed(Crawler, init, ua, |init|))
  {
    var lines, n := init + [l], |init|;
    assert lines[..n] == init;
    forall j: nat | j <= n ensures Addressed(Crawler, lines, ua, j) <==> Addressed(Crawler, init, ua, j) {
      PrefixAddresses(Crawler, lines, n, ua, j);
    }
    forall j: nat | j < n ensures LastGives(lines, ua, r, j) <==> LastGives(init, ua, r, j) {
      assert NotNamedAgain(init, ua, j) ==> NotNamedAgain(lines, ua, j);
      if NotNamedAgain(lines, ua, j) {
        forall k | j < k < n ensures !NamesAgent(init[k], ua) {
          assert lines[k] == init[k];
        }
      }
    }
    assert LastGives(lines, ua, r, n) <==> RuleOf(l) == Some(r) && Addressed(Crawler, init, ua, n);
    if j: nat :| LastGives(lines, ua, r, j) {
      assert j == n || LastGives(init, ua, r, j);
    }
    if j: nat :| LastGives(init, ua, r, j) {
      assert LastGives(lines, ua, r, j);
    }
  }

  /** After a user-agent line that names the agent, its group is empty. */
  lemma NamingEmptiesGroup(init: seq<Line>, l: Line, atoi: string -> Option<int>, ua: string, r: Rule)
    requires NamesAgent(l, ua) && ua in Fold(init + [l], atoi).groups
    ensures r !in GroupRules(init + [l], ua, atoi) && !exists j: nat :: LastGives(init + [l], ua, r, j)
  {
    var lines := init + [l];
    assert lines[..|init|] == init;
    Placement(init, ua, atoi);
    forall j: nat ensures !LastGives(lines, ua, r, j) {
      assert lines[|init|] == l;
    }
  }

  lemma GroupStays(st: State, l: Line, atoi: string -> Option<int>, blocks: set<nat>, ua: string)
    requires Sound(st) && AgentPlaced(st, blocks, ua)
    requires !NamesAgent(l, ua) && ua in Step(st, l, atoi).groups
    ensures ua in st.groups && Step(st, l, atoi).groups[ua] == st.groups[ua]
    ensures st.open ==> (ua in st.agents <==> st.groups[ua] == |st.store| - 1)
  {
  }

  lemma GroupGrows(st: State, l: Line, atoi: string -> Option<int>, blocks: set<nat>, ua: string, r: Rule)
    requires Sound(st) && AgentPlaced(st, blocks, ua)
    requires !NamesAgent(l, ua) && ua in Step(st, l, atoi).groups
    ensures ua in st.groups && Step(st, l, atoi).groups[ua] == st.groups[ua]
    ensures HasRule(Step(st, l, atoi), st.groups[ua], r) <==>
              HasRule(st, st.groups[ua], r) || (RuleOf(l) == Some(r) && ua in st.agents)
  {
    GroupStays(st, l, atoi, blocks, ua);
    StepRules(st, l, atoi, ua, r);
    assert st.open ==> Added(st, l) == RuleOf(l);
  }

  lemma FoldAfter(init: seq<Line>, l: Line, atoi: string -> Option<int>)
    ensures Fold(init + [l], atoi) == Step(Fold(init, atoi), l, atoi)
  {
    assert (init + [l])[..|init|] == init;
  }

  lemma GroupGrowsAfter(init: seq<Line>, l: Line, atoi: string -> Option<int>, ua: string, r: Rule)
    requires !NamesAgent(l, ua) && ua in Step(Fold(init, atoi), l, atoi).groups
    ensures ua in Fold(init, atoi).groups
    ensures Step(Fold(init, atoi), l, atoi).groups[ua] == Fold(init, atoi).groups[ua]
    ensures HasRule(Step(Fold(init, atoi), l, atoi), Fold(init, atoi).groups[ua], r) <==>
              HasRule(Fold(init, atoi), Fold(init, atoi).groups[ua], r)
              || (RuleOf(l) == Some(r) && ua in Fold(init, atoi).agents)
  {
    Placement(init, ua, atoi);
    GroupGrows(Fold(init, atoi), l, atoi, Blocks(init, ua, atoi), ua, r);
  }

  lemma AgentsAreAddressed(lines: seq<Line>, atoi: string -> Option<int>, ua: string)
    ensures ua in Fold(lines, atoi).agents <==> Addressed(Crawler, lines, ua, |lines|)
  {
    ParserTracks(lines, atoi);
  }

  lemma GroupAfterOther(init: seq<Line>, l: Line, atoi: string -> Option<int>, ua: string, r: Rule)
    requires !NamesAgent(l, ua) && ua in Fold(init + [l], atoi).groups
    ensures ua in Fold(init, atoi).groups
    ensures r in GroupRules(init + [l], ua, atoi) <==>
              r in GroupRules(init, ua, atoi) || (RuleOf(l) == Some(r) && ua in Fold(init, atoi).agents)
  {
    FoldAfter(init, l, atoi);
    GroupGrowsAfter(init, l, atoi, ua, r);
  }

  /** The group that decides in memory holds exactly the rules addressed to the agent behind which no
      line names it again. */
  lemma {:induction false} GroupByPosition(lines: seq<Line>, atoi: string -> Option<int>, ua: string, r: Rule)
    requires ua in Fold(lines, atoi).groups
    ensures r in GroupRules(lines, ua, atoi) <==> exists j: nat :: LastGives(lines, ua, r, j)
  {
    if lines != [] {
      var init, l := lines[..|lines| - 1], lines[|lines| - 1];
      assert lines == init + [l];
      if NamesAgent(l, ua) {
        NamingEmptiesGroup(init, l, atoi, ua, r);
      } else {
        GroupAfterOther(init, l, atoi, ua, r);
        GroupByPosition(init, atoi, ua, r);
        LastGivesAfter(init, l, ua, r);
        AgentsAreAddressed(init, atoi, ua);
      }
    }
  }

  lemma ListedAgainstGroup(lines: seq<Line>, atoi: string -> Option<int>, ua: string, r: Rule)
    requires ua in Fold(lines, atoi).groups
    ensures r in ListedRules(lines, ua, atoi) <==> r in GroupRules(lines, ua, atoi) || Superseded(lines, ua, r)
  {
    GroupByPosition(lines, atoi, ua, r);
    ListIsCrawlerGroup(lines, atoi, ua, r);
    GroupMembers(Crawler, lines, ua, r);
    if j: nat :| Gives(Crawler, lines, ua, r, j) {
      assert LastGives(lines, ua, r, j) || Superseded(lines, ua, r);
    }
  }

  /** The group that decides in memory lacks exactly the rules of the stored list that stand only where the
      agent is named again further down. So it allows a path that the list refuses exactly when such a
      disallow overrules all matching allows, and refuses one that the list allows exactly when such an
      allow is nowhere beaten. */
  lemma GroupIsLastBlock(lines: seq<Line>, ua: string, atoi: string -> Option<int>, path: string)
    requires ua in Fold(lines, atoi).groups
    ensures forall r :: r in Further(GroupRules(lines, ua, atoi), ListedRules(lines, ua, atoi)) <==>
                          Superseded(lines, ua, r) && !exists j: nat :: LastGives(lines, ua, r, j)
    ensures DifferByFurther(GroupRules(lines, ua, atoi), ListedRules(lines, ua, atoi), path)
  {
    var group, list := GroupRules(lines, ua, atoi), ListedRules(lines, ua, atoi);
    forall r
      ensures r in group <==> exists j: nat :: LastGives(lines, ua, r, j)
      ensures r in list <==> r in group || Superseded(lines, ua, r)
    {
      GroupByPosition(lines, atoi, ua, r);
      ListedAgainstGroup(lines, atoi, ua, r);
    }
    MoreRules(group, list, path);
  }

  /** An agent has a group in memory exactly when some line names it. */
  lemma {:induction false} GroupExists(lines: seq<Line>, atoi: string -> Option<int>, ua: string)
    ensures ua in Fold(lines, atoi).groups <==> exists i :: 0 <= i < |lines| && NamesAgent(lines[i], ua)
  {
    if lines != [] {
      var init, l := lines[..|lines| - 1], lines[|lines| - 1];
      GroupExists(init, atoi, ua);
      assert lines == init + [l];
      if i :| 0 <= i < |init| && NamesAgent(init[i], ua) {
        assert NamesAgent(lines[i], ua);
      }
    }
  }

  /** Agents that are the same up to letter case are named by the same lines and find the same group. */
  lemma CaseOfAgentIrrelevant(keys: set<string>, order: seq<string>, a: string, b: string, l: Line)
    requires EqualFold(a, b)
    ensures Picked(keys, order, ToLower(a)) == Picked(keys, order, ToLower(b))
    ensures NamesAgent(l, ToLower(a)) <==> l.field == "user-agent" && EqualFold(l.value, b)
  {
    LowerIsFold(a, b);
    LowerIsFold(l.value, b);
  }

  // ---------- Delays and sitemaps ----------

  function GroupDelay(lines: seq<Line>, ua: string, atoi: string -> Option<int>): int
    requires ua in Fold(lines, atoi).groups
  {
    var st := Fold(lines, atoi);
    st.store[st.groups[ua]].crawlDelay
  }

  /** A readable crawl-delay line addressed to the agent, behind which the agent is not named again. */
  ghost predicate SetsDelay(lines: seq<Line>, atoi: string -> Option<int>, ua: string, j: nat) {
    && j < |lines| && IsDelayLine(lines[j]) && atoi(lines[j].value).Some?
    && Addressed(Crawler, lines, ua, j) && NotNamedAgain(lines, ua, j)
  }

  /** An open group without rules has no delay yet. */
  lemma {:induction false} NewGroupHasNoDelay(lines: seq<Line>, atoi: string -> Option<int>)
    ensures var st := Fold(lines, atoi); st.open && !st.hadRule ==> st.store[|st.store| - 1].crawlDelay == 0
  {
    if lines != [] {
      NewGroupHasNoDelay(lines[..|lines| - 1], atoi);
    }
  }

  lemma NamingResetsDelay(init: seq<Line>, l: Line, atoi: string -> Option<int>, ua: string)
    requires NamesAgent(l, ua) && ua in Fold(init + [l], atoi).groups
    ensures GroupDelay(init + [l], ua, atoi) == 0 && forall j: nat :: !SetsDelay(init + [l], atoi, ua, j)
  {
    var lines := init + [l];
    FoldAfter(init, l, atoi);
    NewGroupHasNoDelay(init, atoi);
    forall j: nat ensures !SetsDelay(lines, atoi, ua, j) {
      assert lines[|init|] == l;
    }
  }

  lemma DelayGrows(st: State, l: Line, atoi: string -> Option<int>, blocks: set<nat>, ua: string)
    requires Sound(st) && AgentPlaced(st, blocks, ua)
    requires !NamesAgent(l, ua) && ua in Step(st, l, atoi).groups
    ensures ua in st.groups && Step(st, l, atoi).groups[ua] == st.groups[ua]
    ensures Step(st, l, atoi).store[st.groups[ua]].crawlDelay ==
            if IsDelayLine(l) && atoi(l.value).Some? && ua in st.agents then atoi(l.value).value
            else st.store[st.groups[ua]].crawlDelay
  {
    GroupStays(st, l, atoi, blocks, ua);
  }

  lemma DelayAfterOther(init: seq<Line>, l: Line, atoi: string -> Option<int>, ua: string)
    requires !NamesAgent(l, ua) && ua in Fold(init + [l], atoi).groups
    ensures ua in Fold(init, atoi).groups
    ensures GroupDelay(init + [l], ua, atoi) ==
            if IsDelayLine(l) && atoi(l.value).Some? && ua in Fold(init, atoi).agents then atoi(l.value).value
            else GroupDelay(init, ua, atoi)
  {
    FoldAfter(init, l, atoi);
    Placement(init, ua, atoi);
    DelayGrows(Fold(init, atoi), l, atoi, Blocks(init, ua, atoi), ua);
  }

  lemma SetsDelayAfter(init: seq<Line>, l: Line, atoi: string -> Option<int>, ua: string, j: nat)
    requires !NamesAgent(l, ua)
    ensures j < |init| ==> (SetsDelay(init + [l], atoi, ua, j) <==> SetsDelay(init, atoi, ua, j))
    ensures SetsDelay(init + [l], atoi, ua, |init|) <==>
              IsDelayLine(l) && atoi(l.value).Some? && Addressed(Crawler, init, ua, |init|)
  {
    var lines, n := init + [l], |init|;
    assert lines[..n] == init;
    PrefixAddresses(Crawler, lines, n, ua, n);
    if j < n {
      PrefixAddresses(Crawler, lines, n, ua, j);
      if NotNamedAgain(lines, ua, j) {
        forall k | j < k < n ensures !NamesAgent(init[k], ua) {
          assert lines[k] == init[k];
        }
      }
    }
  }

  /** The delay in memory is the last readable one addressed to the agent behind which the agent is not named
      again, and 0 if there is none. */
  ghost predicate IsLastDelay(lines: seq<Line>, atoi: string -> Option<int>, ua: string, delay: int) {
    && ((forall j: nat :: !SetsDelay(lines, atoi, ua, j)) ==> delay == 0)
    && forall j: nat :: SetsDelay(lines, atoi, ua, j) && (forall k: nat :: j < k ==> !SetsDelay(lines, atoi, ua, k)) ==>
         delay == atoi(lines[j].value).value
  }

  lemma LastDelayAfter(init: seq<Line>, l: Line, atoi: string -> Option<int>, ua: string, before: int, delay: int)
    requires !NamesAgent(l, ua) && IsLastDelay(init, atoi, ua, before)
    requires delay == if SetsDelay(init + [l], atoi, ua, |init|) then atoi(l.value).value else before
    ensures IsLastDelay(init + [l], atoi, ua, delay)
  {
    var lines, n := init + [l], |init|;
    forall j: nat ensures j < n ==> (SetsDelay(lines, atoi, ua, j) <==> SetsDelay(init, atoi, ua, j)) {
      SetsDelayAfter(init, l, atoi, ua, j);
    }
    if !SetsDelay(lines, atoi, ua, n) {
      forall j: nat ensures SetsDelay(lines, atoi, ua, j) <==> SetsDelay(init, atoi, ua, j) {
      }
    }
  }

  lemma {:induction false} DelayByPosition(lines: seq<Line>, atoi: string -> Option<int>, ua: string)
    requires ua in Fold(lines, atoi).groups
    ensures IsLastDelay(lines, atoi, ua, GroupDelay(lines, ua, atoi))
  {
    if lines != [] {
      var init, l := lines[..|lines| - 1], lines[|lines| - 1];
      assert lines == init + [l];
      if NamesAgent(l, ua) {
        NamingResetsDelay(init, l, atoi, ua);
      } else {
        DelayAfterOther(init, l, atoi, ua);
        DelayByPosition(init, atoi, ua);
        AgentsAreAddressed(init, atoi, ua);
        SetsDelayAfter(init, l, atoi, ua, |init|);
        LastDelayAfter(init, l, atoi, ua, GroupDelay(init, ua, atoi), GroupDelay(lines, ua, atoi));
      }
    }
  }

  function ValuesOf(lines: seq<Line>, field: string): seq<string> {
    if lines == [] then []
    else
      var last := lines[|lines| - 1];
      ValuesOf(lines[..|lines| - 1], field) + if last.field == field then [last.value] else []
  }

  /** The sitemaps of a file are the values of its sitemap lines, in their order, in whatever group. */
  lemma {:induction false} SitemapsInOrder(lines: seq<Line>, atoi: string -> Option<int>)
    ensures Fold(lines, atoi).sitemaps == ValuesOf(lines, "sitemap")
  {
    if lines != [] {
      SitemapsInOrder(lines[..|lines| - 1], atoi);
    }
  }

  /** The stored list has a sitemap exactly when a sitemap line gives it. */
  lemma {:induction false} StoredSitemaps(lines: seq<Line>, atoi: string -> Option<int>, value: string)
    ensures Directive("", Sitemap, value) in Fold(lines, atoi).rules <==> value in ValuesOf(lines, "sitemap")
  {
    if lines != [] {
      var init, l := lines[..|lines| - 1], lines[|lines| - 1];
      StoredSitemaps(init, atoi, value);
      SitemapDirectiveAfter(Fold(init, atoi), l, atoi, value);
    }
  }

  lemma SitemapDirectiveAfter(st: State, l: Line, atoi: string -> Option<int>, value: string)
    requires Sound(st)
    ensures Directive("", Sitemap, value) in Step(st, l, atoi).rules <==>
              Directive("", Sitemap, value) in st.rules || l == Line("sitemap", value)
  {
  }

  ghost predicate DelayListed(lines: seq<Line>, ua: string, value: string, j: nat) {
    j < |lines| && IsDelayLine(lines[j]) && lines[j].value == value && Addressed(Crawler, lines, ua, j)
  }

  lemma DelayListedAfter(init: seq<Line>, l: Line, ua: string, value: string)
    ensures (exists j: nat :: DelayListed(init + [l], ua, value, j)) <==>
              (exists j: nat :: DelayListed(init, ua, value, j))
              || (IsDelayLine(l) && l.value == value && Addressed(Crawler, init, ua, |init|))
  {
    var lines, n := init + [l], |init|;
    assert lines[..n] == init;
    forall j: nat | j <= n ensures Addressed(Crawler, lines, ua, j) <==> Addressed(Crawler, init, ua, j) {
      PrefixAddresses(Crawler, lines, n, ua, j);
    }
    forall j: nat | j < n ensures DelayListed(lines, ua, value, j) <==> DelayListed(init, ua, value, j) {
    }
    assert DelayListed(lines, ua, value, n) <==>
           IsDelayLine(l) && l.value == value && Addressed(Crawler, init, ua, n);
    if j: nat :| DelayListed(init, ua, value, j) {
      assert DelayListed(lines, ua, value, j);
    }
  }

  lemma DelayDirectiveAfter(st: State, l: Line, atoi: string -> Option<int>, ua: string, value: string)
    requires Sound(st)
    ensures Directive(ua, CrawlDelay, value) in Step(st, l, atoi).rules <==>
              Directive(ua, CrawlDelay, value) in st.rules
              || (IsDelayLine(l) && l.value == value && ua in st.agents)
  {
    if ua in st.agents {
      var i :| 0 <= i < |st.agents| && st.agents[i] == ua;
      assert FanOut(st.agents, CrawlDelay, l.value)[i] == Directive(ua, CrawlDelay, l.value);
    }
  }

  /** The stored list has a crawl-delay for an agent exactly when a crawl-delay line is addressed to it,
      readable or not. */
  lemma {:induction false} StoredDelays(lines: seq<Line>, atoi: string -> Option<int>, ua: string, value: string)
    ensures Directive(ua, CrawlDelay, value) in Fold(lines, atoi).rules <==>
              exists j: nat :: DelayListed(lines, ua, value, j)
  {
    if lines != [] {
      var init, l := lines[..|lines| - 1], lines[|lines| - 1];
      assert lines == init + [l];
      StoredDelays(init, atoi, ua, value);
      DelayDirectiveAfter(Fold(init, atoi), l, atoi, ua, value);
      AgentsAreAddressed(init, atoi, ua);
      DelayListedAfter(init, l, ua, value);
    }
  }

  // ---------- Exactly where the two readings part ----------

  ghost predicate LastNamed(lines: seq<Line>, ua: string, j: nat, i: nat)
    requires j <= |lines|
  {
    i < j && NamesAgent(lines[i], ua) && forall k :: i < k < j ==> !NamesAgent(lines[k], ua)
  }

  /** A crawl-delay line has cut the agent off: it stands between the last line before `j` that names the
      agent and a later user-agent line of what the RFC takes for the same run. */
  ghost predicate CutOff(lines: seq<Line>, ua: string, j: nat)
    requires j <= |lines|
  {
    exists i: nat, a, b ::
      LastNamed(lines, ua, j, i) && !Parted(Rfc, lines, i, j)
      && i < a < b < j && IsDelayLine(lines[a]) && IsAgentLine(lines[b])
  }

  lemma {:induction false} SomeLastNamed(lines: seq<Line>, ua: string, j: nat, i: nat) returns (last: nat)
    requires i < j <= |lines| && NamesAgent(lines[i], ua)
    ensures i <= last && LastNamed(lines, ua, j, last)
    decreases j - i
  {
    if k :| i < k < j && NamesAgent(lines[k], ua) {
      last := SomeLastNamed(lines, ua, j, k);
    } else {
      last := i;
    }
  }

  /** What the RFC addresses to an agent and the crawler does not is exactly what lies behind such a cut;
      the crawler addresses nothing that the RFC does not. */
  lemma ReadingsPart(lines: seq<Line>, ua: string, j: nat)
    requires j <= |lines|
    ensures Addressed(Crawler, lines, ua, j) ==> Addressed(Rfc, lines, ua, j)
    ensures Addressed(Rfc, lines, ua, j) && !Addressed(Crawler, lines, ua, j) <==> CutOff(lines, ua, j)
  {
    if i: nat :| NamedBefore(Crawler, lines, ua, j, i) {
      assert !Parted(Rfc, lines, i, j);
      assert NamedBefore(Rfc, lines, ua, j, i);
    }
    if Addressed(Rfc, lines, ua, j) && !Addressed(Crawler, lines, ua, j) {
      RfcOnlyIsCutOff(lines, ua, j);
    }
    if CutOff(lines, ua, j) {
      CutOffIsRfcOnly(lines, ua, j);
    }
  }

  lemma RfcOnlyIsCutOff(lines: seq<Line>, ua: string, j: nat)
    requires j <= |lines| && Addressed(Rfc, lines, ua, j) && !Addressed(Crawler, lines, ua, j)
    ensures CutOff(lines, ua, j)
  {
    var i: nat :| NamedBefore(Rfc, lines, ua, j, i);
    var last := SomeLastNamed(lines, ua, j, i);
    assert !Parted(Rfc, lines, last, j);
    assert !NamedBefore(Crawler, lines, ua, j, last);
    var a, b :| last < a < b < j && EndsRun(Crawler, lines[a]) && IsAgentLine(lines[b]);
    assert IsDelayLine(lines[a]);
  }

  lemma CutOffIsRfcOnly(lines: seq<Line>, ua: string, j: nat)
    requires j <= |lines| && CutOff(lines, ua, j)
    ensures Addressed(Rfc, lines, ua, j) && !Addressed(Crawler, lines, ua, j)
  {
    var last: nat, a, b :|
      LastNamed(lines, ua, j, last) && !Parted(Rfc, lines, last, j)
      && last < a < b < j && IsDelayLine(lines[a]) && IsAgentLine(lines[b]);
    assert NamedBefore(Rfc, lines, ua, j, last);
    assert EndsRun(Crawler, lines[a]);
    forall i: nat ensures !NamedBefore(Crawler, lines, ua, j, i) {
      if i < j && NamesAgent(lines[i], ua) {
        assert i <= last && Parted(Crawler, lines, i, j);
      }
    }
  }

  /** A rule that is cut off from the agent. */
  ghost predicate CutOffRule(lines: seq<Line>, ua: string, r: Rule) {
    exists j: nat :: j < |lines| && RuleOf(lines[j]) == Some(r) && CutOff(lines, ua, j)
  }

  /** The stored list amounts to the RFC's group of an agent exactly when every rule that a crawl-delay line
      cuts off also reaches the agent some other way; in particular in every file without such a cut. What
      it lacks are the rules cut off, and it has no rule that the RFC does not give. */
  lemma ListAgainstRfcGroup(lines: seq<Line>, atoi: string -> Option<int>, ua: string)
    ensures forall r :: r in Further(ListedRules(lines, ua, atoi), GroupOf(Rfc, lines, ua)) <==>
                          CutOffRule(lines, ua, r) && r !in ListedRules(lines, ua, atoi)
    ensures forall r :: r in ListedRules(lines, ua, atoi) ==> r in GroupOf(Rfc, lines, ua)
    ensures (forall r :: r in ListedRules(lines, ua, atoi) <==> r in GroupOf(Rfc, lines, ua)) <==>
              forall r :: CutOffRule(lines, ua, r) ==> r in ListedRules(lines, ua, atoi)
  {
    forall r
      ensures r in ListedRules(lines, ua, atoi) ==> r in GroupOf(Rfc, lines, ua)
      ensures r in GroupOf(Rfc, lines, ua) <==> r in ListedRules(lines, ua, atoi) || CutOffRule(lines, ua, r)
    {
      RuleAgainstRfc(lines, atoi, ua, r);
    }
  }

  lemma RuleAgainstRfc(lines: seq<Line>, atoi: string -> Option<int>, ua: string, r: Rule)
    ensures r in ListedRules(lines, ua, atoi) ==> r in GroupOf(Rfc, lines, ua)
    ensures r in GroupOf(Rfc, lines, ua) <==> r in ListedRules(lines, ua, atoi) || CutOffRule(lines, ua, r)
  {
    ListIsCrawlerGroup(lines, atoi, ua, r);
    GroupMembers(Crawler, lines, ua, r);
    GroupMembers(Rfc, lines, ua, r);
    forall j: nat | j < |lines|
      ensures Gives(Crawler, lines, ua, r, j) ==> Gives(Rfc, lines, ua, r, j)
      ensures Gives(Rfc, lines, ua, r, j) && !Gives(Crawler, lines, ua, r, j) <==>
                RuleOf(lines[j]) == Some(r) && CutOff(lines, ua, j)
    {
      ReadingsPart(lines, ua, j);
    }
  }

  /** No rule of the list ends in a dollar sign. */
  predicate NoDollar(rules: seq<Rule>) {
    forall r :: r in rules ==> !HasSuffix(r.pattern, "$")
  }

  lemma AgreeWithoutDollar(few: seq<Rule>, many: seq<Rule>, path: string)
    requires (forall r :: r in few <==> r in many) && NoDollar(many)
    ensures Permitted(few, path) <==> RfcPermitted(many, path)
  {
    PermittedBySet(few, many, path);
    DecisionAgainstRfc(many, path);
  }

  /** The decision that the stored list amounts to, with the crawler's matcher and lengths, against the
      RFC's decision on the RFC's group, in both directions. The matching rules it loses are those that are
      cut off everywhere and those that the matcher misses. */
  lemma ListDecidesAsRfcUnlessCut(lines: seq<Line>, atoi: string -> Option<int>, ua: string, path: string)
    ensures PartsFromRfc(ListedRules(lines, ua, atoi), GroupOf(Rfc, lines, ua), path)
    ensures forall r :: r in Lost(ListedRules(lines, ua, atoi), GroupOf(Rfc, lines, ua), path) <==>
                          RfcMatches(r.pattern, path)
                          && if r in GroupOf(Crawler, lines, ua) then LastLiteralComesEarly(path, r.pattern)
                             else CutOffRule(lines, ua, r)
    ensures (forall r :: !CutOffRule(lines, ua, r)) && NoDollar(GroupOf(Rfc, lines, ua)) ==>
              (Permitted(ListedRules(lines, ua, atoi), path) <==> RfcPermitted(GroupOf(Rfc, lines, ua), path))
  {
    var list, group := ListedRules(lines, ua, atoi), GroupOf(Rfc, lines, ua);
    forall r
      ensures r in list <==> r in GroupOf(Crawler, lines, ua)
      ensures r in list ==> r in group
      ensures r in group <==> r in list || CutOffRule(lines, ua, r)
    {
      ListIsCrawlerGroup(lines, atoi, ua, r);
      RuleAgainstRfc(lines, atoi, ua, r);
    }
    FewRulesAgainstRfc(list, group, path);
    if (forall r :: !CutOffRule(lines, ua, r)) && NoDollar(group) {
      AgreeWithoutDollar(list, group, path);
    }
  }

  /** The decision that the crawler takes against the RFC's decision on the RFC's group, in both directions.
      The matching rules it loses are those that reach the agent only where it is named again further down or
      behind a cut, and those that the matcher misses. */
  lemma GroupDecidesAsRfcUnless(lines: seq<Line>, atoi: string -> Option<int>, ua: string, path: string)
    requires ua in Fold(lines, atoi).groups
    ensures PartsFromRfc(GroupRules(lines, ua, atoi), GroupOf(Rfc, lines, ua), path)
    ensures forall r :: r in Lost(GroupRules(lines, ua, atoi), GroupOf(Rfc, lines, ua), path) <==>
                          RfcMatches(r.pattern, path)
                          && if exists j: nat :: LastGives(lines, ua, r, j) then LastLiteralComesEarly(path, r.pattern)
                             else Superseded(lines, ua, r) || CutOffRule(lines, ua, r)
    ensures NoDollar(GroupOf(Rfc, lines, ua))
            && (forall r :: !Superseded(lines, ua, r) && !CutOffRule(lines, ua, r)) ==>
              (Permitted(GroupRules(lines, ua, atoi), path) <==> RfcPermitted(GroupOf(Rfc, lines, ua), path))
  {
    var mine, group := GroupRules(lines, ua, atoi), GroupOf(Rfc, lines, ua);
    forall r
      ensures r in mine <==> exists j: nat :: LastGives(lines, ua, r, j)
      ensures r in mine ==> r in group
      ensures r in group <==> r in mine || Superseded(lines, ua, r) || CutOffRule(lines, ua, r)
    {
      GroupByPosition(lines, atoi, ua, r);
      ListedAgainstGroup(lines, atoi, ua, r);
      RuleAgainstRfc(lines, atoi, ua, r);
    }
    FewRulesAgainstRfc(mine, group, path);
    if (forall r :: !Superseded(lines, ua, r) && !CutOffRule(lines, ua, r)) && NoDollar(group) {
      AgreeWithoutDollar(mine, group, path);
    }
  }

  /** At every position the parser holds exactly the agents that the RFC addresses, if and only if no
      crawl-delay line cuts the agent off anywhere. */
  lemma AgentsAreRfcUnlessCut(lines: seq<Line>, atoi: string -> Option<int>, ua: string)
    ensures (forall n: nat :: n <= |lines| ==> (Holds(lines, atoi, ua, n) <==> Addressed(Rfc, lines, ua, n)))
       <==> forall n: nat :: n <= |lines| ==> !CutOff(lines, ua, n)
  {
    forall n: nat | n <= |lines|
      ensures (Holds(lines, atoi, ua, n) <==> Addressed(Rfc, lines, ua, n)) <==> !CutOff(lines, ua, n)
    {
      ParserTracks(lines[..n], atoi);
      PrefixAddresses(Crawler, lines, n, ua, n);
      ReadingsPart(lines, ua, n);
    }
  }

  predicate Holds(lines: seq<Line>, atoi: string -> Option<int>, ua: string, n: nat)
    requires n <= |lines|
  {
    ua in Fold(lines[..n], atoi).agents
  }

  /** The only rule line of a file is addressed to the agent, so the group consists of that rule. */
  lemma OnlyRuleLine(lines: seq<Line>, ua: string, d: Rule, j: nat)
    requires j < |lines| && RuleOf(lines[j]) == Some(d) && Addressed(Rfc, lines, ua, j)
    requires forall k: nat :: k < |lines| && k != j ==> RuleOf(lines[k]).None?
    ensures forall r :: r in GroupOf(Rfc, lines, ua) <==> r == d
  {
    forall r ensures r in GroupOf(Rfc, lines, ua) <==> r == d {
      GroupMembers(Rfc, lines, ua, r);
      assert r == d ==> Gives(Rfc, lines, ua, r, j);
    }
  }

  /** Any file of this shape: an agent, a crawl-delay, another agent, a rule. */
  lemma DelayCuts(lines: seq<Line>, atoi: string -> Option<int>, ua: string, d: Rule)
    requires |lines| == 4 && NamesAgent(lines[0], ua) && IsDelayLine(lines[1])
    requires IsAgentLine(lines[2]) && !NamesAgent(lines[2], ua) && RuleOf(lines[3]) == Some(d)
    ensures ListedRules(lines, ua, atoi) == [] && forall r :: r in GroupOf(Rfc, lines, ua) <==> r == d
  {
    assert LastNamed(lines, ua, 3, 0);
    assert CutOff(lines, ua, 3);
    CutOffIsRfcOnly(lines, ua, 3);
    OnlyRuleLine(lines, ua, d, 3);
    var listed := ListedRules(lines, ua, atoi);
    assert listed == [] || listed[0] in listed;
    forall r ensures r !in listed {
      ListIsCrawlerGroup(lines, atoi, ua, r);
      GroupMembers(Crawler, lines, ua, r);
    }
  }

  lemma OneDisallow(rules: seq<Rule>, d: Rule, path: string)
    requires d.ruleType.Disallow? && Accepts(path, d.pattern) && forall r :: r in rules <==> r == d
    ensures !RfcPermitted(rules, path)
  {
    MatcherAgainstRfc(path, d.pattern);
    RefusedExactly(RfcMatching(rules, path), Octets);
    assert Overrules(RfcMatching(rules, path), Octets, d);
  }

  // A crawl-delay between two user-agent lines: the RFC refuses "/x" to both agents, the parser to one.
  lemma DelayCutWitness(atoi: string -> Option<int>) returns (lines: seq<Line>)
    ensures lines == [Line("user-agent", "a"), Line("crawl-delay", "5"), Line("user-agent", "b"),
        Line("disallow", "/x")]
    ensures ListedRules(lines, "a", atoi) == [] && Permitted(ListedRules(lines, "a", atoi), "/x")
    ensures !RfcPermitted(GroupOf(Rfc, lines, "a"), "/x")
  {
    lines := [Line("user-agent", "a"), Line("crawl-delay", "5"), Line("user-agent", "b"), Line("disallow", "/x")];
    var d := Rule(Disallow, "/x");
    assert ToLower("a") == "a" && ToLower("b")[0] == 'b';
    DelayCuts(lines, atoi, "a", d);
    ContainsStar("/x");
    OneDisallow(GroupOf(Rfc, lines, "a"), d, "/x");
  }

  /** No crawl-delay line, and no value that ends in a dollar sign. */
  predicate IsPlain(lines: seq<Line>) {
    forall i :: 0 <= i < |lines| ==> !IsDelayLine(lines[i]) && !HasSuffix(lines[i].value, "$")
  }

  /** For a file without crawl-delay lines and without dollar signs the stored list decides as the RFC. */
  lemma PlainFileAgrees(lines: seq<Line>, atoi: string -> Option<int>, ua: string, path: string)
    requires IsPlain(lines)
    ensures Permitted(ListedRules(lines, ua, atoi), path) <==> RfcPermitted(GroupOf(Rfc, lines, ua), path)
  {
    forall r | r in GroupOf(Rfc, lines, ua) ensures !HasSuffix(r.pattern, "$") {
      GroupMembers(Rfc, lines, ua, r);
    }
    ListDecidesAsRfcUnlessCut(lines, atoi, ua, path);
  }

  lemma SuffixIsInside(value: string)
    ensures HasSuffix(value, "$") ==> '$' in value
  {
    if HasSuffix(value, "$") {
      assert value[|value| - 1] == value[|value| - 1..][0];
    }
  }

  lemma PlainBySuffix(lines: seq<Line>)
    requires forall i :: 0 <= i < |lines| ==> lines[i].field != "crawl-delay" && '$' !in lines[i].value
    ensures IsPlain(lines)
  {
    forall i | 0 <= i < |lines| ensures !HasSuffix(lines[i].value, "$") {
      SuffixIsInside(lines[i].value);
    }
  }

  lemma RepeatedAgentIsPlain(lines: seq<Line>)
    requires lines == [Line("user-agent", "x"), Line("disallow", "/a"), Line("user-agent", "x"), Line("allow", "/b")]
    ensures IsPlain(lines)
  {
    PlainBySuffix(lines);
  }

  // An agent named by two blocks: the RFC refuses "/a" to it, the crawler allows it.
  lemma RepeatedAgentAgainstRfc(atoi: string -> Option<int>) returns (lines: seq<Line>)
    ensures lines == [Line("user-agent", "x"), Line("disallow", "/a"), Line("user-agent", "x"), Line("allow", "/b")]
    ensures "x" in Fold(lines, atoi).groups && Permitted(GroupRules(lines, "x", atoi), "/a")
    ensures !RfcPermitted(GroupOf(Rfc, lines, "x"), "/a")
  {
    lines := RepeatedAgentWitness(atoi);
    RepeatedAgentIsPlain(lines);
    PlainFileAgrees(lines, atoi, "x", "/a");
  }

  // ---------- From the text of a file ----------

  /** A file is read line by line. */
  lemma LinesOfFile(raws: seq<string>)
    requires |raws| > 0 && forall i :: 0 <= i < |raws| ==> '\n' !in raws[i]
    ensures LexAll(Split(Join(raws, '\n'), '\n')) == LexAll(raws)
  {
    JoinSplits(raws, '\n');
  }

  /** Text that can stand as a value on one line. */
  predicate IsValue(s: string) {
    s != "" && Trimmed(s) && '#' !in s && '\n' !in s
  }

  lemma WrittenName(name: string, field: string)
    requires EqualFold(name, field) && field in ["user-agent", "disallow"]
    ensures ToLower(name) == field && Trimmed(name) && ':' !in name && '#' !in name && '\n' !in name
  {
    FoldKeepsSigns(field, name, ':');
    FoldKeepsSigns(field, name, '#');
    FoldKeepsSigns(field, name, '\n');
    ToLowerExactly(name, field);
  }

  /** A field as it may be written: its name in any letter case, a colon, a blank and a value. */
  lemma WrittenField(name: string, field: string, value: string)
    requires EqualFold(name, field) && field in ["user-agent", "disallow"] && IsValue(value)
    ensures Lex(name + ": " + value) == Some(Line(field, value)) && '\n' !in name + ": " + value
  {
    WrittenName(name, field);
    NamedField(name, value);
  }

  lemma NamedField(name: string, value: string)
    requires Trimmed(name) && ':' !in name && '#' !in name && IsValue(value)
    ensures Lex(name + ": " + value) == Some(Line(ToLower(name), value))
  {
    assert AllSpace(" ") && AllSpace("");
    assert name + ": " + value == "" + name + "" + ":" + " " + value + "" + "";
    LexOfField("", name, "", " ", value, "", "");
  }

  lemma TwoLines(l0: Line, l1: Line, ua: string, d: Rule, atoi: string -> Option<int>)
    requires l0 == Line("user-agent", ua) && RuleOf(l1) == Some(d)
    ensures ToLower(ua) in Fold([l0, l1], atoi).groups && GroupRules([l0, l1], ToLower(ua), atoi) == [d]
  {
    var st := Step(START, l0, atoi);
    assert [l0, l1][..1] == [l0] && [l0][..0] == [];
    assert Fold([l0], atoi) == st && st.store == [GroupValue([], 0)] && [] + [d] == [d];
  }

  /** The shortest file that forbids something, however its names are capitalized: for the agent, in whatever
      letter case, the path is the rule's. */
  lemma WrittenRule(name0: string, name1: string, ua: string, other: string, path: string, atoi: string -> Option<int>)
    requires EqualFold(name0, "user-agent") && EqualFold(name1, "disallow") && EqualFold(ua, other)
    requires IsValue(ua) && IsValue(path)
    ensures var lines := LexAll(Split(Join([name0 + ": " + ua, name1 + ": " + path], '\n'), '\n'));
            ToLower(other) in Fold(lines, atoi).groups
            && GroupRules(lines, ToLower(other), atoi) == [Rule(Disallow, path)]
  {
    var r0, r1 := name0 + ": " + ua, name1 + ": " + path;
    WrittenField(name0, "user-agent", ua);
    WrittenField(name1, "disallow", path);
    LinesOfFile([r0, r1]);
    assert [r0, r1][..1] == [r0] && [r0][..0] == [];
    assert LexAll([r0]) == [Line("user-agent", ua)];
    assert LexAll([r0, r1]) == [Line("user-agent", ua), Line("disallow", path)];
    LowerIsFold(ua, other);
    TwoLines(Line("user-agent", ua), Line("disallow", path), ua, Rule(Disallow, path), atoi);
  }
}
