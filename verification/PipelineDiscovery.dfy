/** The discovery budget kept by a compare-and-swap loop, and the depth of what reaches the frontier. */
module PipelineDiscovery {
  import opened GoText
  import opened Frontier
  import opened Pipeline
  import opened PipelineAccounting
  import opened PipelineMoves
  import opened PipelineRuns

  // ---------- The discovery budget ----------

  predicate CurrentOk(l: Limits, w: Worker) {
    w.Loaded? ==> w.current < l.maxDiscovered
  }

  ghost predicate UrlsKept(l: Limits, s: State, start: int) {
    && s.urls == start + s.granted
    && (l.maxDiscovered > 0 ==> s.urls <= start || s.urls <= l.maxDiscovered)
    && forall i: nat :: i < |s.workers| ==> CurrentOk(l, s.workers[i])
  }

  ghost predicate Discovers(l: Limits, s: State, t: State) {
    && t.urls - s.urls == t.granted - s.granted >= 0
    && (l.maxDiscovered > 0 && t.urls != s.urls ==> t.urls <= l.maxDiscovered)
    && |t.workers| == |s.workers|
    && (forall i: nat :: i < |t.workers| ==> t.workers[i] == s.workers[i] || CurrentOk(l, t.workers[i]))
  }

  lemma ReservingDiscovers(l: Limits, s: State, i: nat, step: Step)
    requires StepEnabled(l, s, i, step) && (step.Load? || step.Swap?) && CurrentOk(l, s.workers[i])
    ensures Discovers(l, s, Worked(l, s, i, step))
  {
  }

  lemma StoringDiscovers(l: Limits, s: State, i: nat, step: Step)
    requires StepEnabled(l, s, i, step) && (StoresLink(step) || ReadsPage(step))
    ensures Discovers(l, s, Worked(l, s, i, step))
  {
  }

  lemma OnboardingDiscovers(l: Limits, s: State, i: nat, step: Step)
    requires StepEnabled(l, s, i, step) && !TakesSendsOrLeaves(step)
    requires !ReadsPage(step) && !StoresLink(step) && !step.Load? && !step.Swap?
    ensures Discovers(l, s, Worked(l, s, i, step))
  {
    var t := Worked(l, s, i, step);
    OnboardingIsQuiet(l, s, i, step, t);
    OtherStepsStay(l, s, i, step, t);
    assert step.PushSitemap? || !t.workers[i].Loaded?;
  }

  lemma MovingDiscovers(l: Limits, s: State, i: nat, step: Step)
    requires StepEnabled(l, s, i, step) && TakesSendsOrLeaves(step)
    ensures Discovers(l, s, Worked(l, s, i, step))
  {
    var t := Worked(l, s, i, step);
    MovingIsQuiet(l, s, i, step, t);
    assert !t.workers[i].Loaded?;
  }

  lemma StepDiscovers(l: Limits, s: State, a: Action, t: State, start: int)
    requires Enabled(l, s, a) && t == Apply(l, s, a) && UrlsKept(l, s, start)
    ensures Discovers(l, s, t)
  {
    if !a.Work? {
      DispatcherIsQuiet(l, s, a, t);
    } else if TakesSendsOrLeaves(a.step) {
      MovingDiscovers(l, s, a.i, a.step);
    } else if a.step.Load? || a.step.Swap? {
      ReservingDiscovers(l, s, a.i, a.step);
    } else if StoresLink(a.step) || ReadsPage(a.step) {
      StoringDiscovers(l, s, a.i, a.step);
    } else {
      OnboardingDiscovers(l, s, a.i, a.step);
    }
  }

  lemma UrlsAreKept(l: Limits, s: State, t: State, start: int)
    requires UrlsKept(l, s, start) && Discovers(l, s, t)
    ensures UrlsKept(l, t, start)
  {
    forall i: nat | i < |t.workers| ensures CurrentOk(l, t.workers[i]) {
      assert CurrentOk(l, s.workers[i]);
    }
  }

  /** In every interleaving the counter grows by exactly the granted reservations and, with a limit,
      stays at most the larger of its start and the limit. */
  lemma {:induction false} DiscoveryBudget(l: Limits, states: seq<State>, actions: seq<Action>, pages: int, urls: int)
    requires Run(l, states, actions, pages, urls)
    ensures forall s :: s in states ==> UrlsKept(l, s, urls)
  {
    if actions == [] {
      assert forall i: nat :: i < |states[0].workers| ==> states[0].workers[i] in states[0].workers;
    } else {
      var n := |actions| - 1;
      DiscoveryBudget(l, states[..n + 1], actions[..n], pages, urls);
      assert states[n] in states[..n + 1];
      StepDiscovers(l, states[n], actions[n], states[n + 1], urls);
      UrlsAreKept(l, states[n], states[n + 1], urls);
      assert states == states[..n + 1] + [states[n + 1]];
    }
  }

  // ---------- Depth ----------

  /** At most one deeper than allowed, and then only on a host that has been onboarded. */
  predicate DepthOk(l: Limits, item: Item, hosts: set<string>) {
    item.depth <= l.maxDepth || (item.depth == l.maxDepth + 1 && Known(l, item, hosts))
  }

  ghost predicate AllDepthsOk(l: Limits, items: multiset<Item>, hosts: set<string>) {
    forall item :: item in items ==> DepthOk(l, item, hosts)
  }

  ghost predicate QueueDepthsOk(l: Limits, q: seq<Item>, hosts: set<string>) {
    forall i: nat :: i < |q| ==> DepthOk(l, q[i], hosts)
  }

  /** A host is onboarded only for an item within the depth limit, since deeper items have known hosts. */
  predicate WorkerDepthOk(l: Limits, w: Worker, hosts: set<string>) {
    && (w.Got? ==> DepthOk(l, w.item, hosts))
    && (w.Onboarding? ==> w.item.depth <= l.maxDepth)
    && (w.Checked? || w.Loaded? || w.Reserved? ==> w.link.depth <= l.maxDepth)
  }

  ghost predicate DepthKept(l: Limits, s: State) {
    && AllDepthsOk(l, s.frontier.items, s.hosts)
    && (s.disp.Counting? || s.disp.Sending? ==> DepthOk(l, s.disp.item, s.hosts))
    && QueueDepthsOk(l, s.fetchQueue, s.hosts)
    && forall i: nat :: i < |s.workers| ==> WorkerDepthOk(l, s.workers[i], s.hosts)
  }

  /** A worker's step: only hosts, frontier, the queue's head and one worker change. */
  ghost predicate Deepens(l: Limits, s: State, t: State) {
    && s.hosts <= t.hosts && t.disp == s.disp
    && (forall item :: item in t.frontier.items ==> item in s.frontier.items || DepthOk(l, item, t.hosts))
    && (t.fetchQueue == s.fetchQueue || (s.fetchQueue != [] && t.fetchQueue == s.fetchQueue[1..]))
    && |t.workers| == |s.workers|
    && (forall i: nat :: i < |t.workers| ==> t.workers[i] == s.workers[i] || WorkerDepthOk(l, t.workers[i], t.hosts))
  }

  lemma TakeDeepens(l: Limits, s: State, i: nat)
    requires StepEnabled(l, s, i, Take) && QueueDepthsOk(l, s.fetchQueue, s.hosts)
    ensures Deepens(l, s, Worked(l, s, i, Take))
  {
  }

  lemma MovingDeepens(l: Limits, s: State, i: nat, step: Step)
    requires StepEnabled(l, s, i, step) && TakesSendsOrLeaves(step) && !step.Take?
    ensures Deepens(l, s, Worked(l, s, i, step))
  {
  }

  lemma OnboardingDeepens(l: Limits, s: State, i: nat, step: Step)
    requires StepEnabled(l, s, i, step) && !TakesSendsOrLeaves(step) && WorkerDepthOk(l, s.workers[i], s.hosts)
    requires !ReadsPage(step) && !StoresLink(step) && !step.Load? && !step.Swap?
    ensures Deepens(l, s, Worked(l, s, i, step))
  {
  }

  lemma ReadingDeepens(l: Limits, s: State, i: nat, step: Step)
    requires StepEnabled(l, s, i, step) && ReadsPage(step)
    ensures Deepens(l, s, Worked(l, s, i, step))
  {
  }

  lemma ReservingDeepens(l: Limits, s: State, i: nat, step: Step)
    requires StepEnabled(l, s, i, step) && (step.Load? || step.Swap?) && WorkerDepthOk(l, s.workers[i], s.hosts)
    ensures Deepens(l, s, Worked(l, s, i, step))
  {
    var t := Worked(l, s, i, step);
    ReservingStays(l, s, i, step);
    assert t.hosts == s.hosts && t.frontier == s.frontier;
    assert WorkerDepthOk(l, t.workers[i], t.hosts);
  }

  lemma StoringDeepens(l: Limits, s: State, i: nat, step: Step)
    requires StepEnabled(l, s, i, step) && StoresLink(step) && WorkerDepthOk(l, s.workers[i], s.hosts)
    ensures Deepens(l, s, Worked(l, s, i, step))
  {
  }

  lemma WorkDeepens(l: Limits, s: State, i: nat, step: Step)
    requires StepEnabled(l, s, i, step) && QueueDepthsOk(l, s.fetchQueue, s.hosts)
        && WorkerDepthOk(l, s.workers[i], s.hosts)
    ensures Deepens(l, s, Worked(l, s, i, step))
  {
    if step.Take? {
      TakeDeepens(l, s, i);
    } else if TakesSendsOrLeaves(step) {
      MovingDeepens(l, s, i, step);
    } else if ReadsPage(step) {
      ReadingDeepens(l, s, i, step);
    } else if StoresLink(step) {
      StoringDeepens(l, s, i, step);
    } else if step.Load? || step.Swap? {
      ReservingDeepens(l, s, i, step);
    } else {
      OnboardingDeepens(l, s, i, step);
    }
  }

  lemma DeepeningKeeps(l: Limits, s: State, t: State)
    requires DepthKept(l, s) && Deepens(l, s, t)
    ensures DepthKept(l, t)
  {
    forall i: nat | i < |t.workers| ensures WorkerDepthOk(l, t.workers[i], t.hosts) {
      assert WorkerDepthOk(l, s.workers[i], s.hosts);
    }
  }

  lemma LookKeepsDepth(l: Limits, s: State)
    requires Looks(s.disp) && DepthKept(l, s)
    ensures DepthKept(l, Looked(l, s))
  {
    DispatcherIsQuiet(l, s, Look, Looked(l, s));
  }

  lemma SendKeepsDepth(l: Limits, s: State)
    requires Enabled(l, s, Send) && DepthKept(l, s)
    ensures DepthKept(l, Apply(l, s, Send))
  {
  }

  lemma PopKeepsDepth(l: Limits, s: State, result: Option<Item>)
    requires Enabled(l, s, Pop(result)) && DepthKept(l, s)
    ensures DepthKept(l, Apply(l, s, Pop(result)))
  {
  }

  lemma DispatcherKeepsDepth(l: Limits, s: State, a: Action)
    requires Enabled(l, s, a) && !a.Work? && !a.Look? && !a.Send? && !a.Pop? && DepthKept(l, s)
    ensures DepthKept(l, Apply(l, s, a))
  {
  }

  lemma DepthStep(l: Limits, s: State, a: Action, t: State)
    requires Enabled(l, s, a) && t == Apply(l, s, a) && DepthKept(l, s)
    ensures DepthKept(l, t)
  {
    match a
    case Work(i, step) =>
      WorkDeepens(l, s, i, step);
      DeepeningKeeps(l, s, t);
    case Look => LookKeepsDepth(l, s);
    case Send => SendKeepsDepth(l, s);
    case Pop(result) => PopKeepsDepth(l, s, result);
    case _ => DispatcherKeepsDepth(l, s, a);
  }

  /** When the run starts with such items, every item that is ever on the frontier is at most one deeper
      than `maxDepth`, and one that is deeper lies on an onboarded host. */
  lemma {:induction false} FrontierDepth(l: Limits, states: seq<State>, actions: seq<Action>, pages: int, urls: int)
    requires Run(l, states, actions, pages, urls)
    requires AllDepthsOk(l, states[0].frontier.items, states[0].hosts)
    ensures forall s :: s in states ==> DepthKept(l, s)
  {
    if actions == [] {
      assert forall i: nat :: i < |states[0].workers| ==> states[0].workers[i] in states[0].workers;
    } else {
      var n := |actions| - 1;
      FrontierDepth(l, states[..n + 1], actions[..n], pages, urls);
      var s, a, t := states[n], actions[n], states[n + 1];
      assert s in states[..n + 1];
      DepthStep(l, s, a, t);
      assert states == states[..n + 1] + [states[n + 1]];
    }
  }

  // ---------- Hosts ----------

  ghost predicate HostsKept(l: Limits, s: State) {
    l.maxHosts > 0 ==> |s.hosts| <= l.maxHosts
  }

  lemma HostsAfterWork(l: Limits, s: State, i: nat, step: Step)
    requires StepEnabled(l, s, i, step) && HostsKept(l, s)
    ensures HostsKept(l, Worked(l, s, i, step))
  {
    if !step.MarkHost? {
      OtherHosts(l, s, i, step);
    }
  }

  lemma OtherHosts(l: Limits, s: State, i: nat, step: Step)
    requires StepEnabled(l, s, i, step) && !step.MarkHost?
    ensures Worked(l, s, i, step).hosts == s.hosts
  {
  }

  lemma DispatcherHosts(l: Limits, s: State, a: Action)
    requires Enabled(l, s, a) && !a.Work?
    ensures Apply(l, s, a).hosts == s.hosts
  {
  }

  /** However fetchers interleave, hosts beyond the limit are never marked, so never onboarded. */
  lemma {:induction false} HostLimit(l: Limits, states: seq<State>, actions: seq<Action>, pages: int, urls: int)
    requires Run(l, states, actions, pages, urls) && HostsKept(l, states[0])
    ensures forall s :: s in states ==> HostsKept(l, s)
  {
    if actions != [] {
      var n := |actions| - 1;
      HostLimit(l, states[..n + 1], actions[..n], pages, urls);
      assert states[n] in states[..n + 1];
      if actions[n].Work? {
        HostsAfterWork(l, states[n], actions[n].i, actions[n].step);
      } else {
        DispatcherHosts(l, states[n], actions[n]);
      }
      assert states == states[..n + 1] + [states[n + 1]];
    }
  }

  /** A link is turned away for the budget only at the limit; after contention the parser looks again. */
  lemma RefusedOnlyAtLimit(l: Limits, s: State, i: nat, step: Step)
    requires StepEnabled(l, s, i, step) && (step.Load? || step.Swap?)
    ensures var w, t := s.workers[i], Worked(l, s, i, step); var w' := t.workers[i];
            && (w'.Expanding? ==> l.maxDiscovered > 0 && s.urls >= l.maxDiscovered && t == With(s, i, w'))
            && (!w'.Expanding? ==> w'.item == w.item && w'.rank == w.rank && w'.link == w.link)
            && (w'.Reserved? <==> t.urls == s.urls + 1)
            && (step.Swap? && !w'.Reserved? ==> w'.Checked? && s.urls != w.current)
  {
    ReservingStays(l, s, i, step);
  }

  // ---------- The host limit is met ----------

  /** Items of one depth, each on its own host that is not marked yet. */
  ghost predicate NewHosts(l: Limits, items: seq<Item>, hosts: set<string>) {
    && (forall i :: 0 <= i < |items| ==> l.key(items[i]).Some? && l.key(items[i]).value !in hosts)
    && (forall i, j :: 0 <= i < j < |items| ==> l.key(items[i]) != l.key(items[j]))
    && (forall i, j :: 0 <= i < |items| && 0 <= j < |items| ==> items[i].depth == items[j].depth)
  }

  function Keys(l: Limits, items: seq<Item>): set<string> {
    set i | 0 <= i < |items| && l.key(items[i]).Some? :: l.key(items[i]).value
  }

  /** The pipeline is empty and waits for its next round. */
  ghost predicate Empty(l: Limits, s: State) {
    && s.disp == ReadPages && s.inFlight == 0 && s.fetchQueue == [] && s.workers != [] && s.workers[0].Idle?
    && l.fetchers >= 1 && (l.maxPages > 0 ==> s.pages < l.maxPages)
  }

  /** A fetcher gets an item of a new host, marks the host while there is room, and drops the item. */
  lemma MarkOne(l: Limits, start: State, c: Claim, s: State, item: Item, host: string) returns (t: State)
    requires Reached(l, start, c, s) && Empty(l, s) && IsLeast(s.frontier.items, item)
    requires l.key(item) == Some(host) && host !in s.hosts && (l.maxHosts > 0 ==> |s.hosts| < l.maxHosts)
    ensures Reached(l, start, c, t) && Empty(l, t) && t.hosts == s.hosts + {host}
    ensures t.frontier.items == s.frontier.items - multiset{item}
  {
    DispatcherGoesOn(l, start, c, s);
    var s1 := DispatcherSends(l, start, c, s.(disp := Popping), item);
    FetcherTakes(l, start, c, s1, 0);
    var s2 := s1.(fetchQueue := [], workers := s1.workers[0 := Got(item)]);
    FetcherMarks(l, start, c, s2, 0, host);
    var s3 := s2.(hosts := s2.hosts + {host}, workers := s2.workers[0 := Ready(item)]);
    FetcherDrops(l, start, c, s3, 0);
    t := Leave(s3, 0, Idle);
  }

  lemma OneHostLess(l: Limits, items: seq<Item>, hosts: set<string>)
    requires items != [] && NewHosts(l, items, hosts)
    ensures NewHosts(l, items[1..], hosts + {l.key(items[0]).value})
    ensures hosts + {l.key(items[0]).value} + Keys(l, items[1..]) == hosts + Keys(l, items)
  {
    assert items == [items[0]] + items[1..];
    forall i | 0 <= i < |items| ensures l.key(items[i]).value in {l.key(items[0]).value} + Keys(l, items[1..]) {
      assert i > 0 ==> items[i] == items[1..][i - 1];
    }
  }

  lemma FirstIsLeast(l: Limits, items: seq<Item>, hosts: set<string>)
    requires items != [] && NewHosts(l, items, hosts)
    ensures IsLeast(multiset(items), items[0]) && multiset(items) - multiset{items[0]} == multiset(items[1..])
  {
    assert items == [items[0]] + items[1..];
    forall item | item in multiset(items) ensures items[0].depth <= item.depth {
      var i :| 0 <= i < |items| && items[i] == item;
    }
  }

  lemma {:induction false} MarkAll(l: Limits, start: State, c: Claim, s: State, items: seq<Item>) returns (t: State)
    requires Reached(l, start, c, s) && Empty(l, s) && s.frontier.items == multiset(items)
    requires NewHosts(l, items, s.hosts) && (l.maxHosts > 0 ==> |s.hosts| + |items| <= l.maxHosts)
    ensures Reached(l, start, c, t) && t.hosts == s.hosts + Keys(l, items)
    decreases |items|
  {
    t := s;
    if items != [] {
      OneHostLess(l, items, s.hosts);
      FirstIsLeast(l, items, s.hosts);
      var host := l.key(items[0]).value;
      t := MarkOne(l, start, c, s, items[0], host);
      assert |s.hosts + {host}| == |s.hosts| + 1;
      t := MarkAll(l, start, c, t, items[1..]);
    }
  }

  /** As many hosts as the limit has room for can all be marked. */
  lemma HostLimitIsMet(l: Limits, start: State, items: seq<Item>) returns (s: State)
    requires Initial(l, start, start.pages, start.urls) && l.fetchers >= 1
    requires start.frontier.items == multiset(items) && NewHosts(l, items, start.hosts)
    requires (l.maxPages > 0 ==> start.pages < l.maxPages)
    requires (l.maxHosts > 0 ==> |start.hosts| + |items| <= l.maxHosts)
    ensures Leads(l, start, s) && s.hosts == start.hosts + Keys(l, items)
  {
    var c := LeadsIsStable(l, start);
    NobodyBusy(Everything, start.workers);
    assert start.workers[0] in start.workers;
    s := MarkAll(l, start, c, start, items);
  }
}
