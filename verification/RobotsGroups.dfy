/** Which rule group a crawler obeys, and which of its rules decides about a path. */
module RobotsGroups {
  import opened GoText
  import opened RobotsMatcher

  datatype RuleType = Allow | Disallow

  datatype Rule = Rule(ruleType: RuleType, pattern: string)

  datatype DirectiveType = RuleDirective(ruleType: RuleType) | CrawlDelay | Sitemap

  datatype Directive = Directive(userAgent: string, directiveType: DirectiveType, pathPattern: string)

  // ---------- Precedence among the rules of a group ----------

  predicate Longest(rules: seq<Rule>, path: string, r: Rule) {
    r in rules && Accepts(path, r.pattern)
    && forall q :: q in rules && Accepts(path, q.pattern) ==> PatternLength(q.pattern) <= PatternLength(r.pattern)
  }

  /** Section 2.2.2 of RFC 9309: the longest match decides, an allow wins a tie, and a path that no
      rule matches may be fetched. */
  ghost predicate Permitted(rules: seq<Rule>, path: string) {
    (forall r :: r in rules ==> !Accepts(path, r.pattern))
    || exists r :: Longest(rules, path, r) && r.ruleType.Allow?
  }

  /** The order of the rules and how often each is written do not matter. */
  lemma PermittedBySet(a: seq<Rule>, b: seq<Rule>, path: string)
    requires forall r :: r in a <==> r in b
    ensures Permitted(a, path) <==> Permitted(b, path)
  {
    forall r ensures Longest(a, path, r) <==> Longest(b, path, r) {
    }
  }

  // ---------- More matching rules, other decisions ----------

  /** The decision of section 2.2.2 on the rules that match a path, for one way to measure patterns. */
  ghost predicate Grants(matching: set<Rule>, size: string -> nat) {
    matching == {} || exists r :: Top(matching, size, r) && r.ruleType.Allow?
  }

  ghost predicate Top(matching: set<Rule>, size: string -> nat, r: Rule) {
    r in matching && forall q :: q in matching ==> size(q.pattern) <= size(r.pattern)
  }

  /** A disallow that is longer than every allow. */
  ghost predicate Overrules(matching: set<Rule>, size: string -> nat, d: Rule) {
    && d in matching && d.ruleType.Disallow?
    && forall a :: a in matching && a.ruleType.Allow? ==> size(a.pattern) < size(d.pattern)
  }

  lemma {:induction false} SomeTop(matching: set<Rule>, size: string -> nat) returns (r: Rule)
    requires matching != {}
    ensures Top(matching, size, r)
    decreases |matching|
  {
    r :| r in matching;
    if matching != {r} {
      var rest := matching - {r};
      var other := SomeTop(rest, size);
      r := if size(other.pattern) > size(r.pattern) then other else r;
    }
  }

  /** A path is refused exactly when some disallow overrules all allows. */
  lemma RefusedExactly(matching: set<Rule>, size: string -> nat)
    ensures !Grants(matching, size) <==> exists d :: Overrules(matching, size, d)
  {
    if !Grants(matching, size) {
      var d := SomeTop(matching, size);
      forall a | a in matching && a.ruleType.Allow? ensures size(a.pattern) < size(d.pattern) {
        assert !Top(matching, size, a);
      }
      assert Overrules(matching, size, d);
    }
  }

  /** When further rules match, a granted path is refused exactly when one of the new ones overrules, and
      a refused path is granted exactly when one of the new ones is an allow that nothing beats. */
  lemma MoreMatches(few: set<Rule>, more: set<Rule>, size: string -> nat)
    requires few <= more
    ensures Grants(few, size) && !Grants(more, size) <==>
              Grants(few, size) && exists d :: d !in few && Overrules(more, size, d)
    ensures !Grants(few, size) && Grants(more, size) <==>
              !Grants(few, size) && exists a :: a !in few && a.ruleType.Allow? && Top(more, size, a)
  {
    RefusedExactly(few, size);
    RefusedExactly(more, size);
    if Grants(few, size) && !Grants(more, size) {
      var d :| Overrules(more, size, d);
      assert d in few ==> Overrules(few, size, d);
    }
    if !Grants(few, size) && Grants(more, size) {
      var a :| Top(more, size, a) && a.ruleType.Allow?;
      assert a in few ==> Top(few, size, a);
    }
  }

  function Matching(rules: seq<Rule>, path: string): set<Rule> {
    set r | r in rules && Accepts(path, r.pattern)
  }

  lemma PermittedIsGranted(rules: seq<Rule>, path: string)
    ensures Permitted(rules, path) <==> Grants(Matching(rules, path), PatternLength)
  {
    forall r ensures Longest(rules, path, r) <==> Top(Matching(rules, path), PatternLength, r) {
    }
    if r: Rule :| r in rules && Accepts(path, r.pattern) {
      assert r in Matching(rules, path);
    }
  }

  /** The rules that the second list has beyond the first. */
  function Further(few: seq<Rule>, more: seq<Rule>): set<Rule> {
    set r | r in more && r !in few
  }

  /** What further rules change: a path becomes refused exactly when a further disallow overrules, and
      becomes allowed exactly when a further allow is nowhere beaten. */
  ghost predicate DifferByFurther(few: seq<Rule>, more: seq<Rule>, path: string) {
    && (Permitted(few, path) && !Permitted(more, path) <==>
          Permitted(few, path)
          && exists d :: d in Further(few, more) && Overrules(Matching(more, path), PatternLength, d))
    && (!Permitted(few, path) && Permitted(more, path) <==>
          !Permitted(few, path)
          && exists a :: a in Further(few, more) && a.ruleType.Allow? && Top(Matching(more, path), PatternLength, a))
  }

  lemma MoreRules(few: seq<Rule>, more: seq<Rule>, path: string)
    requires forall r :: r in few ==> r in more
    ensures DifferByFurther(few, more, path)
  {
    PermittedIsGranted(few, path);
    PermittedIsGranted(more, path);
    forall r ensures r in Matching(few, path) <==> r in few && r in Matching(more, path) {
    }
    MoreMatches(Matching(few, path), Matching(more, path), PatternLength);
  }

  // ---------- Patterns measured with and without their dollar sign ----------

  /** The measure of section 2.2.2 of RFC 9309. The crawler's `PatternLength` leaves out a trailing `$`. */
  function Octets(pattern: string): nat {
    |pattern|
  }

  /** Every disallow with more octets than all allows ends in `$`, and some allow without `$` has just one
      octet fewer than the longest of them. */
  ghost predicate DollarHidesDisallow(m: set<Rule>) {
    exists d, a ::
      && Overrules(m, Octets, d)
      && (forall e :: Overrules(m, Octets, e) ==> HasSuffix(e.pattern, "$") && |e.pattern| <= |d.pattern|)
      && a in m && a.ruleType.Allow? && !HasSuffix(a.pattern, "$") && |a.pattern| + 1 == |d.pattern|
  }

  /** Every allow with the most octets ends in `$`, there is one, and some disallow without `$` has as many. */
  ghost predicate DollarHidesAllow(m: set<Rule>) {
    && (forall a :: Top(m, Octets, a) && a.ruleType.Allow? ==> HasSuffix(a.pattern, "$"))
    && exists a, d ::
      && Top(m, Octets, a) && a.ruleType.Allow?
      && d in m && d.ruleType.Disallow? && !HasSuffix(d.pattern, "$") && |d.pattern| == |a.pattern|
  }

  /** Only by its `$` can a longer pattern measure no more than a shorter one. */
  lemma LongerByDollar(long: string, short: string)
    requires |short| < |long| && PatternLength(long) <= PatternLength(short)
    ensures HasSuffix(long, "$") && !HasSuffix(short, "$") && |short| + 1 == |long|
  {
  }

  lemma GrantedByLengthOnly(m: set<Rule>)
    requires Grants(m, PatternLength) && !Grants(m, Octets)
    ensures DollarHidesDisallow(m)
  {
    RefusedExactly(m, Octets);
    var d := SomeTop(m, Octets);
    assert Overrules(m, Octets, d) by {
      var e :| Overrules(m, Octets, e);
    }
    var a :| Top(m, PatternLength, a) && a.ruleType.Allow?;
    forall e | Overrules(m, Octets, e) ensures HasSuffix(e.pattern, "$") && |e.pattern| <= |d.pattern| {
      assert Octets(a.pattern) < Octets(e.pattern) <= Octets(d.pattern);
      LongerByDollar(e.pattern, a.pattern);
    }
    LongerByDollar(d.pattern, a.pattern);
  }

  lemma RefusedByLengthOnly(m: set<Rule>)
    requires !Grants(m, PatternLength) && Grants(m, Octets)
    ensures DollarHidesAllow(m)
  {
    RefusedExactly(m, PatternLength);
    var d :| Overrules(m, PatternLength, d);
    forall a | Top(m, Octets, a) && a.ruleType.Allow?
      ensures HasSuffix(a.pattern, "$") && !HasSuffix(d.pattern, "$") && |d.pattern| == |a.pattern|
    {
      assert PatternLength(a.pattern) < PatternLength(d.pattern) && Octets(d.pattern) <= Octets(a.pattern);
    }
  }

  /** On any rules that match a path: exactly when leaving out the `$` grants what the RFC refuses, and
      exactly when it refuses what the RFC grants. */
  lemma LengthsDecideExactly(m: set<Rule>)
    ensures Grants(m, PatternLength) && !Grants(m, Octets) <==> DollarHidesDisallow(m)
    ensures !Grants(m, PatternLength) && Grants(m, Octets) <==> DollarHidesAllow(m)
  {
    RefusedExactly(m, PatternLength);
    RefusedExactly(m, Octets);
    if Grants(m, PatternLength) && !Grants(m, Octets) {
      GrantedByLengthOnly(m);
    }
    if !Grants(m, PatternLength) && Grants(m, Octets) {
      RefusedByLengthOnly(m);
    }
    if DollarHidesDisallow(m) {
      HiddenDisallow(m);
    }
    if DollarHidesAllow(m) {
      HiddenAllow(m);
    }
  }

  lemma HiddenDisallow(m: set<Rule>)
    requires DollarHidesDisallow(m)
    ensures Grants(m, PatternLength) && !Grants(m, Octets)
  {
    var d, a :|
      && Overrules(m, Octets, d)
      && (forall e :: Overrules(m, Octets, e) ==> HasSuffix(e.pattern, "$") && |e.pattern| <= |d.pattern|)
      && a in m && a.ruleType.Allow? && !HasSuffix(a.pattern, "$") && |a.pattern| + 1 == |d.pattern|;
    RefusedExactly(m, Octets);
    forall q | q in m ensures PatternLength(q.pattern) <= PatternLength(a.pattern) {
      if q.ruleType.Allow? {
        assert Octets(q.pattern) < Octets(d.pattern);
      } else if Octets(q.pattern) > Octets(a.pattern) {
        forall b | b in m && b.ruleType.Allow? ensures Octets(b.pattern) < Octets(q.pattern) {
          assert Octets(b.pattern) < Octets(d.pattern);
        }
        assert Overrules(m, Octets, q);
      }
    }
    assert Top(m, PatternLength, a);
  }

  lemma HiddenAllow(m: set<Rule>)
    requires DollarHidesAllow(m)
    ensures !Grants(m, PatternLength) && Grants(m, Octets)
  {
    var a, d :|
      && Top(m, Octets, a) && a.ruleType.Allow?
      && d in m && d.ruleType.Disallow? && !HasSuffix(d.pattern, "$") && |d.pattern| == |a.pattern|;
    forall b | b in m && b.ruleType.Allow? ensures PatternLength(b.pattern) < PatternLength(d.pattern) {
      assert Octets(b.pattern) <= Octets(a.pattern);
      assert Octets(b.pattern) == Octets(a.pattern) ==> Top(m, Octets, b);
    }
    assert Overrules(m, PatternLength, d);
    RefusedExactly(m, PatternLength);
  }

  // ---------- The whole decision against the RFC ----------

  ghost function RfcMatching(rules: seq<Rule>, path: string): set<Rule> {
    set r | r in rules && RfcMatches(r.pattern, path)
  }

  /** The decision of sections 2.2.2 and 2.2.3 of RFC 9309: of the rules that match, the one with the most
      octets, and of equally long ones an allow. */
  ghost predicate RfcPermitted(rules: seq<Rule>, path: string) {
    Grants(RfcMatching(rules, path), Octets)
  }

  /** The rules of the second list that match a path and that the crawler, which has the first list, does
      without: it has not got them, or its matcher misses them. */
  ghost function Lost(few: seq<Rule>, many: seq<Rule>, path: string): set<Rule> {
    set r | r in many && RfcMatches(r.pattern, path) && (r !in few || LastLiteralComesEarly(path, r.pattern))
  }

  lemma LostIsDifference(few: seq<Rule>, many: seq<Rule>, path: string)
    requires forall r :: r in few ==> r in many
    ensures Matching(few, path) <= RfcMatching(many, path)
    ensures RfcMatching(many, path) - Matching(few, path) == Lost(few, many, path)
  {
    forall r | r in many
      ensures r in Matching(few, path) ==> r in RfcMatching(many, path)
      ensures r in RfcMatching(many, path) && r !in Matching(few, path) <==> r in Lost(few, many, path)
    {
      MatcherAgainstRfc(path, r.pattern);
    }
  }

  /** A lost disallow overrules, and no `$` makes up for it; or a `$` hides a disallow. */
  ghost predicate AllowsWrongly(few: seq<Rule>, many: seq<Rule>, path: string) {
    var m := RfcMatching(many, path);
    || DollarHidesDisallow(m)
    || (!DollarHidesAllow(m) && exists d :: d in Lost(few, many, path) && Overrules(m, PatternLength, d))
  }

  /** A lost allow is nowhere beaten, and no `$` makes up for it; or a `$` hides an allow. */
  ghost predicate RefusesWrongly(few: seq<Rule>, many: seq<Rule>, path: string) {
    var m := RfcMatching(many, path);
    || DollarHidesAllow(m)
    || (!DollarHidesDisallow(m)
        && exists a :: a in Lost(few, many, path) && a.ruleType.Allow? && Top(m, PatternLength, a))
  }

  /** How the crawler's decision on its rules differs from the RFC's decision on all rules. */
  ghost predicate PartsFromRfc(few: seq<Rule>, many: seq<Rule>, path: string) {
    && (Permitted(few, path) && !RfcPermitted(many, path) <==> Permitted(few, path) && AllowsWrongly(few, many, path))
    && (!Permitted(few, path) && RfcPermitted(many, path) <==> !Permitted(few, path) && RefusesWrongly(few, many, path))
  }

  lemma FewRulesAgainstRfc(few: seq<Rule>, many: seq<Rule>, path: string)
    requires forall r :: r in few ==> r in many
    ensures PartsFromRfc(few, many, path)
  {
    var m, had := RfcMatching(many, path), Matching(few, path);
    LostIsDifference(few, many, path);
    PermittedIsGranted(few, path);
    MoreMatches(had, m, PatternLength);
    LengthsDecideExactly(m);
    forall r ensures r in Lost(few, many, path) <==> r in m && r !in had {
    }
  }

  /** The crawler's decision on a group against the RFC's, in both directions. The only rules it loses are
      those its matcher misses, and without `$` the two always agree. */
  lemma DecisionAgainstRfc(rules: seq<Rule>, path: string)
    ensures PartsFromRfc(rules, rules, path)
    ensures Lost(rules, rules, path) == set r | r in rules && LastLiteralComesEarly(path, r.pattern)
    ensures (forall r :: r in rules ==> !HasSuffix(r.pattern, "$")) ==>
              (Permitted(rules, path) <==> RfcPermitted(rules, path))
  {
    FewRulesAgainstRfc(rules, rules, path);
    forall r | r in rules && LastLiteralComesEarly(path, r.pattern) ensures RfcMatches(r.pattern, path) {
      MatcherAgainstRfc(path, r.pattern);
    }
  }

  /** The RFC refuses "/aba" and the crawler allows it, because its matcher misses the rule. */
  lemma MissedRuleWitness()
    ensures var rules := [Rule(Disallow, "/*a$")];
            Permitted(rules, "/aba") && !RfcPermitted(rules, "/aba")
  {
    var d := Rule(Disallow, "/*a$");
    var path, pattern := AnchoredMissWitness();
    RefusedExactly(RfcMatching([d], path), Octets);
    assert [d][0] == d && Overrules(RfcMatching([d], path), Octets, d);
  }

  lemma PairMatches(a: Rule, d: Rule, path: string)
    requires Accepts(path, a.pattern) && Accepts(path, d.pattern)
    ensures Matching([a, d], path) == RfcMatching([a, d], path) == {a, d}
  {
    MatcherAgainstRfc(path, a.pattern);
    MatcherAgainstRfc(path, d.pattern);
    assert [a, d][0] == a && [a, d][1] == d;
  }

  /** Of an allow and a disallow that both match, the longer one decides, and the allow if none is longer. */
  lemma PairDecides(a: Rule, d: Rule, path: string)
    requires a.ruleType.Allow? && d.ruleType.Disallow?
    requires Accepts(path, a.pattern) && Accepts(path, d.pattern)
    ensures Permitted([a, d], path) <==> PatternLength(a.pattern) >= PatternLength(d.pattern)
    ensures RfcPermitted([a, d], path) <==> |a.pattern| >= |d.pattern|
  {
    PairMatches(a, d, path);
    PermittedIsGranted([a, d], path);
    PairGrants(a, d, PatternLength);
    PairGrants(a, d, Octets);
  }

  lemma PairGrants(a: Rule, d: Rule, size: string -> nat)
    requires a.ruleType.Allow? && d.ruleType.Disallow?
    ensures Grants({a, d}, size) <==> size(a.pattern) >= size(d.pattern)
  {
    if size(a.pattern) >= size(d.pattern) {
      assert Top({a, d}, size, a);
    }
  }

  lemma DollarMatches(path: string)
    requires '*' !in path && !HasSuffix(path, "$")
    ensures Accepts(path, path) && Accepts(path, path + "$") && Accepts(path, path + "*")
    ensures PatternLength(path) == PatternLength(path + "$") == |path|
    ensures PatternLength(path + "*") == |path| + 1
  {
    ContainsStar(path);
    ContainsStar(path + "*");
    SplitOnce(path, "");
    assert Body(path + "$") == path && Body(path + "*") == path + "*" == path + ['*'] + "";
    assert path[|path|..] == "" && [path, ""][1..] == [""] && [""][1..] == [];
  }

  /** For any literal path: which of two rules that differ only in their last sign decides. The crawler
      lets an allow win over the longer disallow with `$`, and a disallow with `*` over the equally long
      allow with `$`. */
  lemma DollarWitnesses(path: string)
    requires '*' !in path && !HasSuffix(path, "$")
    ensures var rules := [Rule(Allow, path), Rule(Disallow, path + "$")];
            Permitted(rules, path) && !RfcPermitted(rules, path)
    ensures var rules := [Rule(Allow, path + "$"), Rule(Disallow, path + "*")];
            !Permitted(rules, path) && RfcPermitted(rules, path)
  {
    DollarMatches(path);
    PairDecides(Rule(Allow, path), Rule(Disallow, path + "$"), path);
    PairDecides(Rule(Allow, path + "$"), Rule(Disallow, path + "*"), path);
  }

  // ---------- Choosing a group ----------

  /** `agent` is a product token inside `ua` that no other one beats in length. */
  predicate LongestToken(agents: set<string>, ua: string, agent: string) {
    IsToken(agents, ua, agent)
    && forall other :: other in agents && IsToken(agents, ua, other) ==> |other| <= |agent|
  }

  predicate IsToken(agents: set<string>, ua: string, agent: string) {
    agent in agents && agent != "*" && agent != "" && Contains(ua, agent)
  }

  /** The agents whose group may be the answer for the lower-cased `ua`; several only when the
      longest contained tokens are equally long. */
  ghost predicate Chosen(agents: set<string>, ua: string, agent: string) {
    if ua in agents then agent == ua
    else if exists a :: IsToken(agents, ua, a) then LongestToken(agents, ua, agent)
    else agent == "*" && "*" in agents
  }

  /** `order` is one of the orders in which a map with these keys may be walked. */
  predicate Lists(order: seq<string>, keys: set<string>) {
    && (forall i :: 0 <= i < |order| ==> order[i] in keys)
    && (forall key :: key in keys ==> key in order)
    && (forall i, j :: 0 <= i < j < |order| ==> order[i] != order[j])
  }

  /** The token that a walk over the agents keeps: the first of the longest ones. */
  function Scanned(order: seq<string>, ua: string): Option<string> {
    if order == [] then None
    else
      var best, agent := Scanned(order[..|order| - 1], ua), order[|order| - 1];
      var bestLen := if best.Some? then |best.value| else 0;
      if agent != "*" && Contains(ua, agent) && |agent| > bestLen then Some(agent) else best
  }

  function Picked(keys: set<string>, order: seq<string>, ua: string): Option<string> {
    if ua in keys then Some(ua)
    else
      match Scanned(order, ua)
      case Some(agent) => Some(agent)
      case None => if "*" in keys then Some("*") else None
  }

  lemma {:induction false} ScannedIsLongest(order: seq<string>, ua: string)
    ensures match Scanned(order, ua)
            case None => forall i :: 0 <= i < |order| ==> !IsTokenOf(ua, order[i])
            case Some(agent) =>
              && agent in order && IsTokenOf(ua, agent)
              && forall i :: 0 <= i < |order| && IsTokenOf(ua, order[i]) ==> |order[i]| <= |agent|
  {
    if order != [] {
      ScannedIsLongest(order[..|order| - 1], ua);
    }
  }

  predicate IsTokenOf(ua: string, agent: string) {
    agent != "*" && agent != "" && Contains(ua, agent)
  }

  /** Whatever the order of the map, the agent picked is one that may be chosen, and one is picked
      whenever one may be chosen. */
  lemma PickedIsChosen(keys: set<string>, order: seq<string>, ua: string)
    requires Lists(order, keys)
    ensures match Picked(keys, order, ua)
            case None => forall agent :: !Chosen(keys, ua, agent)
            case Some(agent) => Chosen(keys, ua, agent)
  {
    ScannedIsLongest(order, ua);
    forall agent ensures IsToken(keys, ua, agent) <==> agent in order && IsTokenOf(ua, agent) {
    }
  }

  lemma {:induction false} FirstLongestStays(agent: string, rest: seq<string>, ua: string)
    requires IsTokenOf(ua, agent) && forall i :: 0 <= i < |rest| && IsTokenOf(ua, rest[i]) ==> |rest[i]| <= |agent|
    ensures Scanned([agent] + rest, ua) == Some(agent)
  {
    var all := [agent] + rest;
    if rest == [] {
      assert all[..0] == [] && all == [agent];
      assert Scanned(all[..0], ua) == None;
    } else {
      FirstLongestStays(agent, rest[..|rest| - 1], ua);
      assert all[..|all| - 1] == [agent] + rest[..|rest| - 1];
    }
  }

  lemma {:induction false} SomeOrder(keys: set<string>) returns (order: seq<string>)
    ensures Lists(order, keys)
    decreases |keys|
  {
    order := [];
    if keys != {} {
      var key :| key in keys;
      var rest := SomeOrder(keys - {key});
      order := [key] + rest;
      assert forall other :: other in keys ==> other == key || other in rest;
    }
  }

  /** Every agent that may be chosen is picked under some order of the map. */
  lemma EveryChoiceHappens(keys: set<string>, ua: string, agent: string) returns (order: seq<string>)
    requires Chosen(keys, ua, agent)
    ensures Lists(order, keys) && Picked(keys, order, ua) == Some(agent)
  {
    order := SomeOrder(keys);
    if ua !in keys && IsToken(keys, ua, agent) {
      var rest := SomeOrder(keys - {agent});
      order := [agent] + rest;
      assert forall other :: other in keys ==> other == agent || other in rest;
      forall i | 0 <= i < |rest| && IsTokenOf(ua, rest[i]) ensures |rest[i]| <= |agent| {
        assert IsToken(keys, ua, rest[i]);
      }
      FirstLongestStays(agent, rest, ua);
    } else {
      PickedIsChosen(keys, order, ua);
    }
  }

  /** A crawler whose name contains a listed token, say a product token with a version behind it, never falls back
      to `*`: it obeys a group whose token is at least as long, or its own. */
  lemma TokenIsFound(keys: set<string>, order: seq<string>, before: string, token: string, after: string)
    requires Lists(order, keys) && token in keys && token != "*" && token != ""
    ensures var ua := before + token + after; var picked := Picked(keys, order, ua);
            picked.Some? && (picked.value == ua || (picked.value != "*" && |picked.value| >= |token|))
  {
    var ua := before + token + after;
    assert ua[|before|..] == token + after;
    assert OccursAt(ua, token, |before|);
    IndexIsLeftmost(ua, token);
    ScannedIsLongest(order, ua);
    var i :| 0 <= i < |order| && order[i] == token;
    assert IsTokenOf(ua, order[i]);
  }

  class AgentGroup {
    var rules: seq<Rule>
    var crawlDelay: int

    constructor ()
      ensures rules == [] && crawlDelay == 0
    {
      rules, crawlDelay := [], 0;
    }
  }

  class RobotsFile {
    var rules: seq<Directive>
    var sitemaps: seq<string>
    var groups: map<string, AgentGroup>

    constructor ()
      ensures rules == [] && sitemaps == [] && groups == map[]
    {
      rules, sitemaps, groups := [], [], map[];
    }

    /** Walks the agents in the order in which the map hands them out. */
    method FindGroup(ua: string, order: seq<string>) returns (group: AgentGroup?)
      requires Lists(order, groups.Keys)
      ensures var picked := Picked(groups.Keys, order, ToLower(ua));
              match picked
              case None => group == null
              case Some(agent) => agent in groups && group == groups[agent]
    {
      var uaLower := ToLower(ua);
      if uaLower in groups {
        return groups[uaLower];
      }
      var best: AgentGroup? := null;
      var bestLen := 0;
      ghost var scanned: Option<string> := None;
      for i := 0 to |order|
        invariant scanned == Scanned(order[..i], uaLower)
        invariant match scanned
                  case None => best == null && bestLen == 0
                  case Some(agent) => agent in groups && best == groups[agent] && bestLen == |agent|
      {
        var agent := order[i];
        assert order[..i + 1][..i] == order[..i] && agent in order;
        scanned := Scanned(order[..i + 1], uaLower);
        if agent == "*" {
          continue;
        }
        if Contains(uaLower, agent) && |agent| > bestLen {
          best, bestLen := groups[agent], |agent|;
        }
      }
      assert order[..|order|] == order;
      if best != null {
        return best;
      }
      if "*" in groups {
        return groups["*"];
      }
      return null;
    }

    method IsAllowed(ua: string, path: string, order: seq<string>) returns (allowed: bool)
      requires Lists(order, groups.Keys)
      ensures match Picked(groups.Keys, order, ToLower(ua))
              case None => allowed
              case Some(agent) => agent in groups && (allowed <==> Permitted(groups[agent].rules, path))
    {
      var group := FindGroup(ua, order);
      if group == null {
        return true;
      }
      allowed := Decide(group.rules, path);
    }

    method CrawlDelayOf(ua: string, order: seq<string>) returns (delay: int)
      requires Lists(order, groups.Keys)
      ensures match Picked(groups.Keys, order, ToLower(ua))
              case None => delay == 0
              case Some(agent) => agent in groups && delay == groups[agent].crawlDelay
    {
      var group := FindGroup(ua, order);
      if group == null {
        return 0;
      }
      delay := group.crawlDelay;
    }
  }

  /** What the scan keeps of the matching rules it has seen: a longest one, an allow if there is one. */
  ghost predicate Best(matching: set<Rule>, best: Option<Rule>) {
    match best
    case None => matching == {}
    case Some(b) =>
      && Top(matching, PatternLength, b)
      && (b.ruleType.Disallow? ==> forall q :: Top(matching, PatternLength, q) ==> q.ruleType.Disallow?)
  }

  lemma BestAfter(matching: set<Rule>, best: Option<Rule>, r: Rule)
    requires Best(matching, best)
    ensures var wins := best.None? || PatternLength(r.pattern) > PatternLength(best.value.pattern)
                        || (PatternLength(r.pattern) == PatternLength(best.value.pattern) && r.ruleType == Allow);
            Best(matching + {r}, if wins then Some(r) else best)
  {
    forall q: Rule | Top(matching + {r}, PatternLength, q)
      ensures q == r || (Top(matching, PatternLength, q) && PatternLength(r.pattern) <= PatternLength(q.pattern))
    {
    }
  }

  lemma MatchingSnoc(rules: seq<Rule>, i: nat, path: string)
    requires i < |rules|
    ensures Matching(rules[..i + 1], path) ==
            if Accepts(path, rules[i].pattern) then Matching(rules[..i], path) + {rules[i]}
            else Matching(rules[..i], path)
  {
    assert rules[..i + 1] == rules[..i] + [rules[i]];
  }

  /** The scan for the best rule in `IsAllowed`. */
  method Decide(rules: seq<Rule>, path: string) returns (allowed: bool)
    ensures allowed <==> Permitted(rules, path)
  {
    if |rules| == 0 {
      return true;
    }
    var bestRule: Option<Rule> := None;
    var bestLen: int := -1;
    for i := 0 to |rules|
      invariant bestLen == if bestRule.None? then -1 else PatternLength(bestRule.value.pattern)
      invariant Best(Matching(rules[..i], path), bestRule)
    {
      var r := rules[i];
      var patLen := PatternLength(r.pattern);
      MatchingSnoc(rules, i, path);
      var matched := MatchPattern(path, r.pattern);
      if !matched {
        continue;
      }
      BestAfter(Matching(rules[..i], path), bestRule, r);
      if patLen > bestLen || (patLen == bestLen && r.ruleType == Allow) {
        bestRule := Some(r);
        bestLen := patLen;
      }
    }
    assert rules[..|rules|] == rules;
    PermittedIsGranted(rules, path);
    if bestRule.None? {
      return true;
    }
    allowed := bestRule.value.ruleType == Allow;
  }

  /** The same group is found under every order of the map exactly when the longest contained tokens
      all name one group, or the agent itself is listed. */
  lemma ChoiceIsOrderIndependent<G>(groups: map<string, G>, ua: string)
    ensures (forall o1, o2 :: Lists(o1, groups.Keys) && Lists(o2, groups.Keys) ==>
               GroupPicked(groups, o1, ua) == GroupPicked(groups, o2, ua))
       <==> (ua in groups || forall a, b :: LongestToken(groups.Keys, ua, a) && LongestToken(groups.Keys, ua, b)
                                            ==> groups[a] == groups[b])
  {
    if forall o1, o2 :: Lists(o1, groups.Keys) && Lists(o2, groups.Keys) ==>
         GroupPicked(groups, o1, ua) == GroupPicked(groups, o2, ua) {
      forall a, b | ua !in groups && LongestToken(groups.Keys, ua, a) && LongestToken(groups.Keys, ua, b)
        ensures groups[a] == groups[b]
      {
        var o1 := EveryChoiceHappens(groups.Keys, ua, a);
        var o2 := EveryChoiceHappens(groups.Keys, ua, b);
        assert GroupPicked(groups, o1, ua) == Some(groups[a]) && GroupPicked(groups, o2, ua) == Some(groups[b]);
      }
    } else {
      var o1, o2 :| Lists(o1, groups.Keys) && Lists(o2, groups.Keys)
                    && GroupPicked(groups, o1, ua) != GroupPicked(groups, o2, ua);
      PickedIsChosen(groups.Keys, o1, ua);
      PickedIsChosen(groups.Keys, o2, ua);
    }
  }

  function GroupPicked<G>(groups: map<string, G>, order: seq<string>, ua: string): Option<G> {
    match Picked(groups.Keys, order, ua)
    case None => None
    case Some(agent) => if agent in groups then Some(groups[agent]) else None
  }
}
