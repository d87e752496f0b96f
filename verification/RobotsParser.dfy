/** The one-pass robots.txt parser: lines to rule groups shared by their agents, and to the flat
    directive list that is stored for reports. */
module RobotsParser {
  import opened GoText
  import opened RobotsMatcher
  import opened RobotsGroups

  // ---------- Lines ----------

  datatype Line = Line(field: string, value: string)

  /** Cuts the comment, trims, and splits at the first colon. */
  function Lex(raw: string): Option<Line> {
    var cut := Index(raw, "#");
    var line := TrimSpace(if cut >= 0 then raw[..cut] else raw);
    var colon := Index(line, ":");
    if line == "" || colon < 0 then None
    else Some(Line(ToLower(TrimSpace(line[..colon])), TrimSpace(line[colon + 1..])))
  }

  /** Before a comment, a colon cuts the line in two. */
  ghost predicate ColonFirst(raw: string) {
    exists k :: 0 <= k < |raw| && raw[k] == ':' && forall i :: 0 <= i < k ==> raw[i] != '#'
  }

  predicate IsComment(s: string) {
    s != "" ==> s[0] == '#'
  }

  lemma CutComment(text: string, comment: string)
    requires '#' !in text && IsComment(comment)
    ensures var raw := text + comment; var cut := Index(raw, "#");
            (if cut >= 0 then raw[..cut] else raw) == text
  {
    IndexOfChar(text + comment, '#');
    if comment == "" {
      assert text + comment == text;
    } else {
      assert comment == [comment[0]] + comment[1..] && text + comment == text + ['#'] + comment[1..];
      FirstCharAt(text, '#', comment[1..]);
    }
  }

  lemma TrimAroundColon(left: string, right: string)
    ensures TrimSpace(left + ":" + right) == TrimLeft(left) + ":" + TrimRight(right)
  {
    var lead := TrimLeftSplits(left);
    var trail := TrimRightSplits(right);
    var line := TrimLeft(left) + ":" + TrimRight(right);
    assert left + ":" + right == lead + line + trail;
    assert !IsSpace(':') && line[0] == (if TrimLeft(left) == "" then ':' else TrimLeft(left)[0]);
    TrimSpaceOf(lead, line, trail);
  }

  lemma TrimBefore(s: string)
    ensures TrimSpace(TrimLeft(s)) == TrimSpace(s)
  {
    var lead := TrimLeftSplits(s);
    TrimSame(lead, TrimLeft(s), "");
    assert lead + TrimLeft(s) + "" == s;
  }

  lemma TrimBehind(s: string)
    ensures TrimSpace(TrimRight(s)) == TrimSpace(s)
  {
    var trail := TrimRightSplits(s);
    TrimSame("", TrimRight(s), trail);
    assert "" + TrimRight(s) + trail == s;
  }

  lemma TrimAtColon(left: string, right: string)
    requires ':' !in left
    ensures var line := TrimSpace(left + ":" + right); var colon := Index(line, ":");
            && line != "" && colon >= 0
            && TrimSpace(line[..colon]) == TrimSpace(left) && TrimSpace(line[colon + 1..]) == TrimSpace(right)
  {
    var x, y := TrimLeft(left), TrimRight(right);
    TrimAroundColon(left, right);
    TrimBefore(left);
    TrimBehind(right);
    var lead := TrimLeftSplits(left);
    assert ':' !in x;
    FirstCharAt(x, ':', y);
    assert (x + ":" + y)[..|x|] == x && (x + ":" + y)[|x| + 1..] == y;
  }

  /** What is written around the first colon of a line without comment. */
  lemma LexAtColon(left: string, right: string, comment: string)
    requires ':' !in left && '#' !in left && '#' !in right && IsComment(comment)
    ensures Lex(left + ":" + right + comment) == Some(Line(ToLower(TrimSpace(left)), TrimSpace(right)))
  {
    CutComment(left + ":" + right, comment);
    TrimAtColon(left, right);
  }

  lemma NoSignInside(lead: string, s: string, trail: string, c: char)
    requires AllSpace(lead) && AllSpace(trail) && c !in s && !IsSpace(c)
    ensures c !in lead + s + trail
  {
  }

  /** What a written line means: blanks around the name and the value do not count, nor does a comment, and
      the name is taken in small letters. */
  lemma LexOfField(lead: string, name: string, a: string, b: string, value: string, trail: string, comment: string)
    requires AllSpace(lead) && AllSpace(a) && AllSpace(b) && AllSpace(trail) && IsComment(comment)
    requires Trimmed(name) && Trimmed(value)
    requires ':' !in name && '#' !in name && '#' !in value
    ensures Lex(lead + name + a + ":" + b + value + trail + comment) == Some(Line(ToLower(name), value))
  {
    var left, right := lead + name + a, b + value + trail;
    NoSignInside(lead, name, a, ':');
    NoSignInside(lead, name, a, '#');
    NoSignInside(b, value, trail, '#');
    assert lead + name + a + ":" + b + value + trail + comment == left + ":" + right + comment;
    LexAtColon(left, right, comment);
    TrimSpaceOf(lead, name, a);
    TrimSpaceOf(b, value, trail);
  }

  /** A line says something exactly when a colon stands before any comment. */
  lemma LexSaysSomething(raw: string)
    ensures Lex(raw).Some? <==> ColonFirst(raw)
  {
    IndexOfChar(raw, '#');
    var cut := Index(raw, "#");
    var text := if cut >= 0 then raw[..cut] else raw;
    assert ColonFirst(raw) <==> ':' in text;
    if ':' in text {
      IndexOfChar(text, ':');
      var k := Index(text, ":");
      assert text == text[..k] + ":" + text[k + 1..];
      TrimAtColon(text[..k], text[k + 1..]);
    } else {
      var lead, trail := TrimSplits(text);
      IndexOfChar(TrimSpace(text), ':');
    }
  }

  /** The letter case of a name does not matter. */
  lemma LexIgnoresCase(left: string, other: string, right: string, comment: string)
    requires EqualFold(left, other) && ':' !in left && '#' !in left && '#' !in right && IsComment(comment)
    ensures Lex(left + ":" + right + comment) == Lex(other + ":" + right + comment)
  {
    FoldKeepsSigns(left, other, ':');
    FoldKeepsSigns(left, other, '#');
    LexAtColon(left, right, comment);
    LexAtColon(other, right, comment);
    FoldTrims(left, other);
  }

  function LexAll(raws: seq<string>): seq<Line> {
    if raws == [] then []
    else
      var init := LexAll(raws[..|raws| - 1]);
      match Lex(raws[|raws| - 1])
      case None => init
      case Some(l) => init + [l]
  }

  // ---------- The parse as a fold over lines ----------

  datatype GroupValue = GroupValue(rules: seq<Rule>, crawlDelay: int)

  /** `store` holds the groups in order of appearance, `groups` the one each agent ended up with. */
  datatype State = State(
    store: seq<GroupValue>,
    groups: map<string, nat>,
    open: bool,
    agents: seq<string>,
    hadRule: bool,
    rules: seq<Directive>,
    sitemaps: seq<string>)

  const START := State([], map[], false, [], false, [], [])

  function FanOut(agents: seq<string>, t: DirectiveType, value: string): seq<Directive> {
    seq(|agents|, i requires 0 <= i < |agents| => Directive(agents[i], t, value))
  }

  ghost predicate Sound(st: State) {
    (st.open ==> st.store != [])
    && (forall ua :: ua in st.groups ==> st.groups[ua] < |st.store|)
    && (!st.open ==> !st.hadRule && st.agents == [])
  }

  function Step(st: State, line: Line, atoi: string -> Option<int>): (next: State)
    requires Sound(st)
    ensures Sound(next)
  {
    var n := |st.store|;
    if line.field == "user-agent" then
      var ua := ToLower(line.value);
      if st.hadRule || !st.open then
        st.(store := st.store + [GroupValue([], 0)], groups := st.groups[ua := n], open := true,
            agents := if st.hadRule then [ua] else st.agents + [ua], hadRule := false)
      else
        st.(groups := st.groups[ua := n - 1], agents := st.agents + [ua])
    else if line.field == "sitemap" then
      st.(sitemaps := st.sitemaps + [line.value], rules := st.rules + [Directive("", Sitemap, line.value)])
    else if !st.open then st
    else
      var last := st.store[n - 1];
      if line.field == "disallow" || line.field == "allow" then
        var t := if line.field == "allow" then Allow else Disallow;
        if t == Disallow && line.value == "" then st.(hadRule := true)
        else st.(store := st.store[n - 1 := last.(rules := last.rules + [Rule(t, line.value)])],
                 rules := st.rules + FanOut(st.agents, RuleDirective(t), line.value), hadRule := true)
      else if line.field == "crawl-delay" then
        st.(store := if atoi(line.value).Some?
                     then st.store[n - 1 := last.(crawlDelay := atoi(line.value).value)] else st.store,
            rules := st.rules + FanOut(st.agents, CrawlDelay, line.value), hadRule := true)
      else st
  }

  function Fold(lines: seq<Line>, atoi: string -> Option<int>): (st: State)
    ensures Sound(st)
  {
    if lines == [] then START
    else Step(Fold(lines[..|lines| - 1], atoi), lines[|lines| - 1], atoi)
  }

  // ---------- Blocks ----------

  /** The blocks, counted from 0, whose user-agent lines name `ua`. */
  ghost function Blocks(lines: seq<Line>, ua: string, atoi: string -> Option<int>): set<nat> {
    if lines == [] then {}
    else
      var l := lines[|lines| - 1];
      var rest := lines[..|lines| - 1];
      Blocks(rest, ua, atoi)
      + if l.field == "user-agent" && ToLower(l.value) == ua then {|Fold(lines, atoi).store| - 1 as nat} else {}
  }

  /** The rules that the stored directive list holds for one agent. */
  function FlatRules(directives: seq<Directive>, ua: string): seq<Rule> {
    if directives == [] then []
    else
      var d := directives[|directives| - 1];
      var init := FlatRules(directives[..|directives| - 1], ua);
      if d.userAgent == ua && d.directiveType.RuleDirective?
      then init + [Rule(d.directiveType.ruleType, d.pathPattern)] else init
  }

  lemma {:induction false} FlatMembers(directives: seq<Directive>, ua: string, r: Rule)
    ensures r in FlatRules(directives, ua)
       <==> Directive(ua, RuleDirective(r.ruleType), r.pattern) in directives
  {
    if directives != [] {
      var init, d := directives[..|directives| - 1], directives[|directives| - 1];
      assert directives == init + [d];
      FlatMembers(init, ua, r);
    }
  }

  predicate HasRule(st: State, b: nat, r: Rule) {
    b < |st.store| && r in st.store[b].rules
  }

  predicate HasDirective(st: State, ua: string, r: Rule) {
    Directive(ua, RuleDirective(r.ruleType), r.pattern) in st.rules
  }

  /** The rule that a line adds to the open group. */
  function Added(st: State, l: Line): Option<Rule> {
    if !st.open then None
    else if l.field == "allow" then Some(Rule(Allow, l.value))
    else if l.field == "disallow" && l.value != "" then Some(Rule(Disallow, l.value))
    else None
  }

  lemma StepRules(st: State, l: Line, atoi: string -> Option<int>, ua: string, r: Rule)
    requires Sound(st)
    ensures forall b: nat :: HasRule(Step(st, l, atoi), b, r) <==>
              HasRule(st, b, r) || (Added(st, l) == Some(r) && b == |st.store| - 1)
    ensures HasDirective(Step(st, l, atoi), ua, r) <==>
              HasDirective(st, ua, r) || (Added(st, l) == Some(r) && ua in st.agents)
  {
    var d := Directive(ua, RuleDirective(r.ruleType), r.pattern);
    if ua in st.agents {
      var i :| 0 <= i < |st.agents| && st.agents[i] == ua;
      if Added(st, l) == Some(r) {
        assert FanOut(st.agents, RuleDirective(r.ruleType), l.value)[i] == d;
      }
    }
  }

  /** Where the agent `ua`, named by the given blocks, stands in a parse state. */
  ghost predicate AgentPlaced(st: State, blocks: set<nat>, ua: string)
    requires Sound(st)
  {
    && (forall b :: b in blocks ==> b < |st.store|)
    && (st.open ==> (ua in st.agents <==> |st.store| - 1 in blocks))
    && (st.open && !st.hadRule ==> st.store[|st.store| - 1].rules == [])
    && (ua in st.groups <==> blocks != {})
    && (ua in st.groups ==> st.groups[ua] in blocks && forall b :: b in blocks ==> b <= st.groups[ua])
  }

  ghost predicate RulePlaced(st: State, blocks: set<nat>, ua: string, r: Rule) {
    HasDirective(st, ua, r) <==> exists b :: b in blocks && HasRule(st, b, r)
  }

  ghost function NamedBy(st: State, l: Line, ua: string): set<nat>
    requires Sound(st)
  {
    if l.field != "user-agent" || ToLower(l.value) != ua then {}
    else if st.hadRule || !st.open then {|st.store|}
    else {|st.store| - 1 as nat}
  }

  lemma PlaceAgent(st: State, l: Line, atoi: string -> Option<int>, blocks: set<nat>, ua: string)
    requires Sound(st) && AgentPlaced(st, blocks, ua)
    ensures AgentPlaced(Step(st, l, atoi), blocks + NamedBy(st, l, ua), ua)
  {
  }

  lemma PlaceRule(st: State, l: Line, atoi: string -> Option<int>, blocks: set<nat>, ua: string, r: Rule)
    requires Sound(st) && AgentPlaced(st, blocks, ua) && RulePlaced(st, blocks, ua, r)
    ensures RulePlaced(Step(st, l, atoi), blocks + NamedBy(st, l, ua), ua, r)
  {
    var st', blocks' := Step(st, l, atoi), blocks + NamedBy(st, l, ua);
    StepRules(st, l, atoi, ua, r);
    if HasDirective(st, ua, r) {
      var b :| b in blocks && HasRule(st, b, r);
      assert b in blocks' && HasRule(st', b, r);
    }
    if Added(st, l) == Some(r) && ua in st.agents {
      assert |st.store| - 1 in blocks' && HasRule(st', |st.store| - 1, r);
    }
    if exists b :: b in blocks' && HasRule(st', b, r) {
      var b :| b in blocks' && HasRule(st', b, r);
      assert b in NamedBy(st, l, ua) ==> !HasRule(st, b, r);
    }
  }

  lemma {:induction false} Placement(lines: seq<Line>, ua: string, atoi: string -> Option<int>)
    ensures AgentPlaced(Fold(lines, atoi), Blocks(lines, ua, atoi), ua)
    ensures forall r :: RulePlaced(Fold(lines, atoi), Blocks(lines, ua, atoi), ua, r)
  {
    if lines != [] {
      var init, l := lines[..|lines| - 1], lines[|lines| - 1];
      Placement(init, ua, atoi);
      var st, blocks := Fold(init, atoi), Blocks(init, ua, atoi);
      assert Fold(lines, atoi) == Step(st, l, atoi);
      assert Blocks(lines, ua, atoi) == blocks + NamedBy(st, l, ua);
      PlaceAgent(st, l, atoi, blocks, ua);
      forall r ensures RulePlaced(Fold(lines, atoi), Blocks(lines, ua, atoi), ua, r) {
        PlaceRule(st, l, atoi, blocks, ua, r);
      }
    }
  }

  // ---------- What the two representations decide ----------

  /** The rules of all blocks that name `ua`. */
  ghost predicate InNamingBlocks(lines: seq<Line>, ua: string, atoi: string -> Option<int>, r: Rule) {
    exists b :: b in Blocks(lines, ua, atoi) && HasRule(Fold(lines, atoi), b, r)
  }

  /** The stored list holds for an agent exactly the rules of the blocks that name it. */
  lemma FlatListIsItsBlocks(lines: seq<Line>, ua: string, atoi: string -> Option<int>, r: Rule)
    ensures r in FlatRules(Fold(lines, atoi).rules, ua) <==> InNamingBlocks(lines, ua, atoi, r)
  {
    Placement(lines, ua, atoi);
    var st := Fold(lines, atoi);
    FlatMembers(st.rules, ua, r);
    assert RulePlaced(st, Blocks(lines, ua, atoi), ua, r);
  }

  /** The rules of the in-memory group of an agent. */
  function GroupRules(lines: seq<Line>, ua: string, atoi: string -> Option<int>): seq<Rule>
    requires ua in Fold(lines, atoi).groups
  {
    var st := Fold(lines, atoi);
    st.store[st.groups[ua]].rules
  }

  function ListedRules(lines: seq<Line>, ua: string, atoi: string -> Option<int>): seq<Rule> {
    FlatRules(Fold(lines, atoi).rules, ua)
  }

  /** For an agent that a single block names, the stored list and the in-memory group agree on every path. */
  lemma OneBlockAgrees(lines: seq<Line>, ua: string, atoi: string -> Option<int>, path: string)
    requires exists b :: Blocks(lines, ua, atoi) == {b}
    ensures ua in Fold(lines, atoi).groups
    ensures var st := Fold(lines, atoi);
            Permitted(FlatRules(st.rules, ua), path) <==> Permitted(st.store[st.groups[ua]].rules, path)
  {
    Placement(lines, ua, atoi);
    var st := Fold(lines, atoi);
    var rules := st.store[st.groups[ua]].rules;
    forall r ensures r in rules <==> r in FlatRules(st.rules, ua) {
      FlatListIsItsBlocks(lines, ua, atoi, r);
      if r in rules {
        assert HasRule(st, st.groups[ua], r);
      }
    }
    PermittedBySet(FlatRules(st.rules, ua), rules, path);
  }

  /** Two blocks for one agent: the stored list disallows "/a", the in-memory group allows it. */
  lemma RepeatedAgentWitness(atoi: string -> Option<int>) returns (lines: seq<Line>)
    ensures lines == [Line("user-agent", "x"), Line("disallow", "/a"), Line("user-agent", "x"), Line("allow", "/b")]
    ensures "x" in Fold(lines, atoi).groups
    ensures Permitted(GroupRules(lines, "x", atoi), "/a") && !Permitted(ListedRules(lines, "x", atoi), "/a")
  {
    lines := [Line("user-agent", "x"), Line("disallow", "/a"), Line("user-agent", "x"), Line("allow", "/b")];
    FoldFour(Line("user-agent", "x"), Line("disallow", "/a"), Line("user-agent", "x"), Line("allow", "/b"), atoi);
    WitnessSteps(atoi);
    WitnessFlat();
    DisallowedByTheOther();
  }

  lemma WitnessFlat()
    ensures FlatRules(FINAL_X.rules, "x") == [Rule(Disallow, "/a"), Rule(Allow, "/b")]
  {
    var dd, da := Directive("x", RuleDirective(Disallow), "/a"), Directive("x", RuleDirective(Allow), "/b");
    assert FINAL_X.rules == [dd, da] && [dd, da][..1] == [dd] && [dd][..0] == [];
    assert FlatRules([dd], "x") == [Rule(Disallow, "/a")];
  }

  lemma FoldFour(l0: Line, l1: Line, l2: Line, l3: Line, atoi: string -> Option<int>)
    ensures Fold([l0, l1, l2, l3], atoi) == Step(Step(Step(Step(START, l0, atoi), l1, atoi), l2, atoi), l3, atoi)
  {
    var lines := [l0, l1, l2, l3];
    FoldSnoc(lines, 0, atoi);
    FoldSnoc(lines, 1, atoi);
    FoldSnoc(lines, 2, atoi);
    FoldSnoc(lines, 3, atoi);
    assert lines[..4] == lines && lines[..0] == [];
  }

  lemma FoldSnoc(lines: seq<Line>, i: nat, atoi: string -> Option<int>)
    requires i < |lines|
    ensures Fold(lines[..i + 1], atoi) == Step(Fold(lines[..i], atoi), lines[i], atoi)
  {
    assert lines[..i + 1][..i] == lines[..i];
  }

  const OPEN_X := State([GroupValue([], 0)], map["x" := 0], true, ["x"], false, [], [])
  const RULED_X := OPEN_X.(store := [GroupValue([Rule(Disallow, "/a")], 0)], hadRule := true,
                         rules := [Directive("x", RuleDirective(Disallow), "/a")])
  const REOPENED_X := RULED_X.(store := RULED_X.store + [GroupValue([], 0)], groups := map["x" := 1], hadRule := false)
  const FINAL_X := REOPENED_X.(store := RULED_X.store + [GroupValue([Rule(Allow, "/b")], 0)], hadRule := true,
                             rules := RULED_X.rules + [Directive("x", RuleDirective(Allow), "/b")])

  lemma WitnessSteps(atoi: string -> Option<int>)
    ensures Step(START, Line("user-agent", "x"), atoi) == OPEN_X
    ensures Step(OPEN_X, Line("disallow", "/a"), atoi) == RULED_X
    ensures Step(RULED_X, Line("user-agent", "x"), atoi) == REOPENED_X
    ensures Step(REOPENED_X, Line("allow", "/b"), atoi) == FINAL_X
  {
    assert ToLower("x") == "x";
    assert FanOut(["x"], RuleDirective(Disallow), "/a") == [Directive("x", RuleDirective(Disallow), "/a")];
    assert FanOut(["x"], RuleDirective(Allow), "/b") == [Directive("x", RuleDirective(Allow), "/b")];
    assert [] + [Rule(Disallow, "/a")] == [Rule(Disallow, "/a")] && [] + [Rule(Allow, "/b")] == [Rule(Allow, "/b")];
    assert Step(OPEN_X, Line("disallow", "/a"), atoi).store == RULED_X.store;
    assert Step(REOPENED_X, Line("allow", "/b"), atoi).store == FINAL_X.store;
  }

  lemma DisallowedByTheOther()
    ensures var d, a := Rule(Disallow, "/a"), Rule(Allow, "/b");
            Permitted([a], "/a") && !Permitted([d, a], "/a")
  {
    var d, a := Rule(Disallow, "/a"), Rule(Allow, "/b");
    ContainsStar("/a");
    ContainsStar("/b");
    assert "/b"[1] != "/a"[1];
    assert Accepts("/a", "/a") && !Accepts("/a", "/b");
    assert d in [d, a];
    forall r | Longest([d, a], "/a", r) ensures r == d {
    }
  }

  // ---------- The parser ----------

  /** The heap mirrors the folded value, sharing of groups included. */
  ghost predicate Mirrors(rf: RobotsFile, objs: seq<AgentGroup>, st: State)
    reads rf, objs
  {
    && |objs| == |st.store|
    && (forall i, j :: 0 <= i < j < |objs| ==> objs[i] != objs[j])
    && (forall i :: 0 <= i < |objs| ==>
        objs[i].rules == st.store[i].rules && objs[i].crawlDelay == st.store[i].crawlDelay)
    && rf.groups.Keys == st.groups.Keys
    && (forall ua :: ua in st.groups ==> st.groups[ua] < |objs| && rf.groups[ua] == objs[st.groups[ua]])
    && rf.rules == st.rules
    && rf.sitemaps == st.sitemaps
  }

  /** The local variables of the line loop, against the folded value. */
  ghost predicate Linked(rf: RobotsFile, objs: seq<AgentGroup>, st: State,
                         agents: seq<string>, group: AgentGroup?, hadRule: bool)
    reads rf, objs
  {
    && Mirrors(rf, objs, st) && Sound(st)
    && agents == st.agents && hadRule == st.hadRule
    && if st.open then objs != [] && group == objs[|objs| - 1] else group == null
  }

  /** The `user-agent` case. */
  method NameAgent(rf: RobotsFile, value: string, agents: seq<string>, group: AgentGroup?, hadRule: bool,
                   atoi: string -> Option<int>, ghost objs: seq<AgentGroup>, ghost st: State)
    returns (agents': seq<string>, group': AgentGroup?, hadRule': bool, ghost objs': seq<AgentGroup>)
    requires Linked(rf, objs, st, agents, group, hadRule)
    modifies rf
    ensures Linked(rf, objs', Step(st, Line("user-agent", value), atoi), agents', group', hadRule')
    ensures group' == null || group' == group || fresh(group')
  {
    var ua := ToLower(value);
    agents', group', hadRule', objs' := agents, group, hadRule, objs;
    if hadRule' {
      agents', group', hadRule' := [], null, false;
    }
    if group' == null {
      group' := new AgentGroup();
      objs' := objs + [group'];
    }
    agents' := agents' + [ua];
    rf.groups := rf.groups[ua := group'];
  }

  /** The `allow`, `disallow` and `crawl-delay` cases. */
  method AddRule(rf: RobotsFile, field: string, value: string, agents: seq<string>, group: AgentGroup?, hadRule: bool,
                 atoi: string -> Option<int>, ghost objs: seq<AgentGroup>, ghost st: State)
    returns (hadRule': bool)
    requires field in ["allow", "disallow", "crawl-delay"]
    requires Linked(rf, objs, st, agents, group, hadRule)
    modifies rf, group
    ensures Linked(rf, objs, Step(st, Line(field, value), atoi), agents, group, hadRule')
  {
    hadRule' := hadRule;
    if group == null {
      return;
    }
    hadRule' := true;
    if field == "crawl-delay" {
      var delay := atoi(value);
      if delay.Some? {
        group.crawlDelay := delay.value;
      }
      rf.rules := rf.rules + FanOut(agents, CrawlDelay, value);
    } else if field == "allow" {
      group.rules := group.rules + [Rule(Allow, value)];
      rf.rules := rf.rules + FanOut(agents, RuleDirective(Allow), value);
    } else if value != "" {
      group.rules := group.rules + [Rule(Disallow, value)];
      rf.rules := rf.rules + FanOut(agents, RuleDirective(Disallow), value);
    }
  }

  /** One turn of the line loop. */
  method ParseLine(rf: RobotsFile, line: Line, agents: seq<string>, group: AgentGroup?, hadRule: bool,
                   atoi: string -> Option<int>, ghost objs: seq<AgentGroup>, ghost st: State)
    returns (agents': seq<string>, group': AgentGroup?, hadRule': bool, ghost objs': seq<AgentGroup>)
    requires Linked(rf, objs, st, agents, group, hadRule)
    modifies rf, group
    ensures Linked(rf, objs', Step(st, line, atoi), agents', group', hadRule')
    ensures group' == null || group' == group || fresh(group')
  {
    agents', group', hadRule', objs' := agents, group, hadRule, objs;
    if line.field == "user-agent" {
      assert line == Line("user-agent", line.value);
      agents', group', hadRule', objs' := NameAgent(rf, line.value, agents, group, hadRule, atoi, objs, st);
    } else if line.field in ["allow", "disallow", "crawl-delay"] {
      assert line == Line(line.field, line.value);
      hadRule' := AddRule(rf, line.field, line.value, agents, group, hadRule, atoi, objs, st);
    } else if line.field == "sitemap" {
      rf.sitemaps := rf.sitemaps + [line.value];
      rf.rules := rf.rules + [Directive("", Sitemap, line.value)];
    }
  }

  method Parse(content: string, atoi: string -> Option<int>) returns (rf: RobotsFile, ghost objs: seq<AgentGroup>)
    ensures fresh(rf)
    ensures Mirrors(rf, objs, Fold(LexAll(Split(content, '\n')), atoi))
  {
    rf := new RobotsFile();
    objs := [];
    var lines := Split(content, '\n');
    if TrimSpace(content) == "" {
      BlankFile(content);
      return;
    }
    var currentAgents: seq<string> := [];
    var currentGroup: AgentGroup? := null;
    var hadRule := false;
    ghost var st := START;
    for i := 0 to |lines|
      invariant fresh(rf) && (currentGroup == null || fresh(currentGroup))
      invariant st == Fold(LexAll(lines[..i]), atoi)
      invariant Linked(rf, objs, st, currentAgents, currentGroup, hadRule)
    {
      LexAllSnoc(lines, i, atoi);
      var lexed := Lex(lines[i]);
      if lexed.None? {
        continue;
      }
      currentAgents, currentGroup, hadRule, objs :=
        ParseLine(rf, lexed.value, currentAgents, currentGroup, hadRule, atoi, objs, st);
      st := Step(st, lexed.value, atoi);
    }
    assert lines[..|lines|] == lines;
  }

  lemma LexAllSnoc(raws: seq<string>, i: nat, atoi: string -> Option<int>)
    requires i < |raws|
    ensures Fold(LexAll(raws[..i + 1]), atoi) ==
            if Lex(raws[i]).None? then Fold(LexAll(raws[..i]), atoi)
            else Step(Fold(LexAll(raws[..i]), atoi), Lex(raws[i]).value, atoi)
  {
    assert raws[..i + 1][..i] == raws[..i];
    var init := LexAll(raws[..i]);
    if Lex(raws[i]).Some? {
      assert (init + [Lex(raws[i]).value])[..|init|] == init;
    }
  }

  lemma {:induction false} BlankLines(lines: seq<string>)
    requires forall i :: 0 <= i < |lines| ==> AllSpace(lines[i])
    ensures LexAll(lines) == []
  {
    if lines != [] {
      BlankLines(lines[..|lines| - 1]);
      var raw := lines[|lines| - 1];
      var cut := Index(raw, "#");
      TrimSpaceBlank(if cut >= 0 then raw[..cut] else raw);
    }
  }

  lemma BlankFile(content: string)
    requires TrimSpace(content) == ""
    ensures LexAll(Split(content, '\n')) == []
  {
    TrimSpaceBlank(content);
    SplitWithin(content, '\n');
    BlankLines(Split(content, '\n'));
  }
}
